/** UTF-8, one scalar at a time. */
module Utf8 {
  import opened Options

  type Byte = n: nat | n < 256

  /** The encoding of one scalar value. */
  function Encode(c: char): (bytes: seq<Byte>)
    ensures 1 <= |bytes| <= 4
  {
    var n := c as int;
    if n < 0x80 then [n]
    else if n < 0x800 then [0xC0 + n / 64, 0x80 + n % 64]
    else if n < 0x10000 then [0xE0 + n / 4096, 0x80 + n / 64 % 64, 0x80 + n % 64]
    else
      assert n < 0x110000;
      [0xF0 + n / 262144, 0x80 + n / 4096 % 64, 0x80 + n / 64 % 64, 0x80 + n % 64]
  }

  function EncodeAll(s: seq<char>): seq<Byte> {
    if s == [] then [] else Encode(s[0]) + EncodeAll(s[1..])
  }

  predicate IsContinuation(b: Byte) { 128 <= b < 192 }

  /** How many bytes a multi-byte scalar with this first byte takes; 0 for a byte that starts none. */
  function Need(b: Byte): nat {
    if 0xC0 <= b < 0xE0 then 2 else if 0xE0 <= b < 0xF0 then 3 else if 0xF0 <= b < 0xF8 then 4 else 0
  }

  /** A complete multi-byte sequence, if it is the shortest encoding of a scalar value. */
  function Decode(bytes: seq<Byte>): Option<char>
    requires 2 <= |bytes| <= 4 && Need(bytes[0]) == |bytes|
    requires forall i :: 0 < i < |bytes| ==> IsContinuation(bytes[i])
  {
    if |bytes| == 2 then
      var n: int := (bytes[0] as int - 0xC0) * 64 + (bytes[1] as int - 0x80);
      if n >= 0x80 then Some(n as char) else None
    else if |bytes| == 3 then
      var n: int := (bytes[0] as int - 0xE0) * 4096 + (bytes[1] as int - 0x80) * 64 + (bytes[2] as int - 0x80);
      if n >= 0x800 && !(0xD800 <= n <= 0xDFFF) then Some(n as char) else None
    else
      var n: int := (bytes[0] as int - 0xF0) * 262144 + (bytes[1] as int - 0x80) * 4096
                    + (bytes[2] as int - 0x80) * 64 + (bytes[3] as int - 0x80);
      if 0x10000 <= n <= 0x10FFFF then Some(n as char) else None
  }

  lemma SplitBy64(n: nat)
    ensures n == n / 64 * 64 + n % 64
    ensures n / 4096 == n / 64 / 64 && n / 262144 == n / 4096 / 64
  {}

  /** Decoding undoes encoding for every scalar beyond ASCII. */
  lemma DecodeEncode(c: char)
    requires c as int >= 0x80
    ensures var b := Encode(c);
            && |b| >= 2 && Need(b[0]) == |b|
            && (forall i :: 0 < i < |b| ==> IsContinuation(b[i]))
            && Decode(b) == Some(c)
  {
    var n := c as int;
    SplitBy64(n);
    SplitBy64(n / 64);
    SplitBy64(n / 4096);
    if n >= 0x10000 {
      assert n < 0x110000;
    }
  }

  /** One scalar of each length. */
  lemma EncodedExamples()
    ensures Encode('A') == [0x41] && Encode('\U{00E9}') == [0xC3, 0xA9]
    ensures Encode('\U{20AC}') == [0xE2, 0x82, 0xAC] && Encode('\U{1F600}') == [0xF0, 0x9F, 0x98, 0x80]
  {}

  /** An encoding's lead byte tells its length: a longer one always leads with a greater byte. */
  lemma LeadsAreOrdered(c: char, d: char)
    requires c < d
    ensures |Encode(c)| <= |Encode(d)| && Encode(c)[0] <= Encode(d)[0]
    ensures |Encode(c)| < |Encode(d)| ==> Encode(c)[0] < Encode(d)[0]
  {}
}
