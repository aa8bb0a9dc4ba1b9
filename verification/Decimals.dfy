/** Decimal text, and when padding it makes text order the order of numbers. */
module Decimals {
  function Digit(d: nat): (c: char)
    requires d < 10
    ensures '0' <= c <= '9'
  {
    '0' + d as char
  }

  function Decimal(n: nat): (s: seq<char>)
    ensures s != []
  {
    if n < 10 then [Digit(n)] else Decimal(n / 10) + [Digit(n % 10)]
  }

  function Zeros(n: nat): seq<char> { seq(n, _ => '0') }

  /** `padStart(width, "0")`: shorter text is filled from the left, longer text is left alone. */
  function Padded(n: nat, width: nat): seq<char> {
    var s := Decimal(n);
    if |s| < width then Zeros(width - |s|) + s else s
  }

  /** The order of strings, character by character, a proper prefix first. */
  predicate TextLess(a: seq<char>, b: seq<char>) {
    if b == [] then false
    else if a == [] then true
    else if a[0] != b[0] then a[0] < b[0]
    else TextLess(a[1..], b[1..])
  }

  lemma {:induction false} TextLessIrreflexive(a: seq<char>)
    ensures !TextLess(a, a)
  {
    if a != [] {
      TextLessIrreflexive(a[1..]);
    }
  }

  /** Equal-length beginnings decide first. */
  lemma {:induction false} TextLessConcat(x: seq<char>, y: seq<char>, u: seq<char>, v: seq<char>)
    requires |x| == |y|
    ensures TextLess(x + u, y + v) <==> TextLess(x, y) || (x == y && TextLess(u, v))
    decreases |x|
  {
    if x == [] {
      assert x + u == u && y + v == v;
    } else {
      assert (x + u)[1..] == x[1..] + u && (y + v)[1..] == y[1..] + v;
      assert (x + u)[0] == x[0] && (y + v)[0] == y[0];
      TextLessConcat(x[1..], y[1..], u, v);
      assert x == [x[0]] + x[1..] && y == [y[0]] + y[1..];
    }
  }

  function Pow10(w: nat): nat { if w == 0 then 1 else 10 * Pow10(w - 1) }

  /** Exactly `w` digits. */
  function Digits(n: nat, w: nat): (s: seq<char>)
    ensures |s| == w
  {
    if w == 0 then [] else Digits(n / 10, w - 1) + [Digit(n % 10)]
  }

  lemma {:induction false} DigitsOfZero(w: nat)
    ensures Digits(0, w) == Zeros(w)
  {
    if w > 0 {
      DigitsOfZero(w - 1);
      assert Zeros(w - 1) + ['0'] == Zeros(w);
    }
  }

  /** Padding a number that fits gives its fixed-width digits. */
  lemma {:induction false} PaddedIsDigits(n: nat, w: nat)
    requires w >= 1 && n < Pow10(w)
    ensures |Decimal(n)| <= w && Padded(n, w) == Digits(n, w)
    decreases n
  {
    if n < 10 {
      DigitsOfZero(w - 1);
      assert n / 10 == 0 && n % 10 == n;
      if w == 1 {
        assert Digits(n, 1) == [Digit(n)];
      }
    } else {
      assert Pow10(1) == 10 * Pow10(0);
      assert w >= 2;
      assert n / 10 < Pow10(w - 1);
      PaddedIsDigits(n / 10, w - 1);
      var front := Decimal(n / 10);
      assert Decimal(n) == front + [Digit(n % 10)];
      if |front| < w - 1 {
        assert Zeros(w - 1 - |front|) + (front + [Digit(n % 10)]) == Zeros(w - 1 - |front|) + front + [Digit(n % 10)];
      }
    }
  }

  /** Fixed-width digits sort as numbers. */
  lemma {:induction false} DigitsSort(a: nat, b: nat, w: nat)
    requires a < Pow10(w) && b < Pow10(w)
    ensures TextLess(Digits(a, w), Digits(b, w)) <==> a < b
    ensures Digits(a, w) == Digits(b, w) <==> a == b
    decreases w
  {
    if w > 0 {
      DigitsSort(a / 10, b / 10, w - 1);
      var x, y := Digits(a / 10, w - 1), Digits(b / 10, w - 1);
      TextLessConcat(x, y, [Digit(a % 10)], [Digit(b % 10)]);
      assert a == 10 * (a / 10) + a % 10 && b == 10 * (b / 10) + b % 10;
      if Digits(a, w) == Digits(b, w) {
        assert Digits(a, w)[..w - 1] == x && Digits(b, w)[..w - 1] == y;
        assert Digits(a, w)[w - 1] == Digit(a % 10) && Digits(b, w)[w - 1] == Digit(b % 10);
      }
    }
  }

  lemma PaddedSort(a: nat, b: nat, w: nat)
    requires w >= 1 && a < Pow10(w) && b < Pow10(w)
    ensures TextLess(Padded(a, w), Padded(b, w)) <==> a < b
    ensures |Padded(a, w)| == w
  {
    PaddedIsDigits(a, w);
    PaddedIsDigits(b, w);
    DigitsSort(a, b, w);
  }

  lemma {:induction false} DecimalOfPow10(w: nat)
    ensures Decimal(Pow10(w))[0] == '1' && |Decimal(Pow10(w))| == w + 1
  {
    if w > 0 {
      DecimalOfPow10(w - 1);
      assert Pow10(w) / 10 == Pow10(w - 1);
    }
  }

  lemma {:induction false} Pow10Positive(w: nat)
    ensures Pow10(w) >= 1
  {
    if w > 0 {
      Pow10Positive(w - 1);
    }
  }

  lemma {:induction false} DigitsOfNines(w: nat)
    requires w >= 1
    ensures Pow10(w) >= 1 && Digits(Pow10(w) - 1, w)[0] == '9'
  {
    Pow10Positive(w - 1);
    if w > 1 {
      DigitsOfNines(w - 1);
      assert (Pow10(w) - 1) / 10 == Pow10(w - 1) - 1;
    }
  }

  /** Padded to `w`, all numbers below `bound` sort as text exactly when `bound` is at most 10 to the `w`. */
  lemma PaddingSortsExactlyBelow(bound: nat, w: nat)
    requires w >= 1
    ensures (forall a: nat, b: nat :: a < bound && b < bound ==> (TextLess(Padded(a, w), Padded(b, w)) <==> a < b))
       <==> bound <= Pow10(w)
  {
    if bound <= Pow10(w) {
      forall a: nat, b: nat | a < bound && b < bound
        ensures TextLess(Padded(a, w), Padded(b, w)) <==> a < b
      {
        PaddedSort(a, b, w);
      }
    } else {
      Pow10Positive(w);
      var a, b := Pow10(w) - 1, Pow10(w);
      DigitsOfNines(w);
      PaddedIsDigits(a, w);
      DecimalOfPow10(w);
      assert !TextLess(Padded(a, w), Padded(b, w));
    }
  }
}
