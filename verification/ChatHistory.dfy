/**
 One tab's AI conversation and the vault copy of it: turns are appended as they
 settle, behind a cursor that counts how many are already stored.
 */
module ChatHistory {
  import opened Options

  type Id = nat
  type Text = seq<char>

  datatype Role = User | Assistant | System | Error | PendingTool | Tool

  datatype Exchange = Exchange(id: Id, command: Text, risk: Text, output: Option<Text>)

  datatype Turn = Turn(role: Role, content: Text, tool: Option<Exchange>)

  /** A stored turn: what the exchange said, without the id that pairs it with its result. */
  datatype Row = Row(role: Role, content: Text, tool: Option<(Text, Text, Option<Text>)>)

  /** The tab and the vault's conversations, the tab's own among them once it has one. */
  datatype Chat = Chat(history: seq<Turn>, persisted: nat, saved: Option<Id>, saving: bool, stored: map<Id, seq<Row>>)

  /** What the vault answers a flush: no store, no conversation row, or the turns it fails to append. */
  datatype Reply = Closed | Refused | Written(lost: set<nat>)

  // ----- Rows -----

  predicate Savable(t: Turn) { !t.role.PendingTool? && (t.role.Assistant? ==> t.content != []) }

  function RowOf(t: Turn): Row {
    Row(t.role, t.content, if t.tool.None? then None
                           else Some((t.tool.value.command, t.tool.value.risk, t.tool.value.output)))
  }

  /** The turns worth reading back, in order. */
  function RowsOf(history: seq<Turn>): seq<Row> {
    if history == [] then []
    else
      var before, last := RowsOf(history[..|history| - 1]), history[|history| - 1];
      before + if Savable(last) then [RowOf(last)] else []
  }

  /** The rows from `start` on that the vault took. */
  function Landed(rows: seq<Row>, start: nat, lost: set<nat>): seq<Row>
    decreases |rows| - start
  {
    if start >= |rows| then []
    else (if start in lost then [] else [rows[start]]) + Landed(rows, start + 1, lost)
  }

  function Stored(c: Chat, id: Id): seq<Row> { if id in c.stored then c.stored[id] else [] }

  // ----- Flush and detach -----

  function Flush(c: Chat, minted: Id, reply: Reply): Chat {
    var rows := RowsOf(c.history);
    var restart := c.persisted > |rows|;
    var start := if restart then 0 else c.persisted;
    if !c.saving || rows == [] || start == |rows| || reply.Closed? then c
    else
      var id := c.saved.GetOr(minted);
      var stored := if restart then c.stored - {id} else c.stored;
      if reply.Refused? then c.(stored := stored)
      else
        var base := if id in stored then stored[id] else [];
        c.(saved := Some(id), persisted := |rows|, stored := stored[id := base + Landed(rows, start, reply.lost)])
  }

  function Detach(c: Chat): Chat { c.(saved := None, persisted := 0) }

  // ----- What happens to the conversation -----

  datatype Event =
    | Send(text: Text)
    | Chunk(delta: Text)
    | Done(minted: Id, reply: Reply)
    | Fails(text: Text)
    | Retry(minted: Id, reply: Reply)
    | Propose(command: Text)
    | Approve(command: Text)
    | Deny(command: Text, note: Text)
    | Exec(id: Id, command: Text, risk: Text, line: Text)
    | NotSent(note: Text)
    | Result(id: Id, output: Text, minted: Id, reply: Reply)
    | OpenSaved(minted: Id, reply: Reply)
    | ResetChat
    | ToggleSaving
    | DeleteSaved(id: Id)
    | WipeSaved
    | HostRemoved(id: Id)
    | OtherTab(id: Id, rows: seq<Row>)

  const Placeholder := Turn(Assistant, [], None)

  function Push(c: Chat, t: Turn): Chat { c.(history := c.history + [t]) }

  function Last(h: seq<Turn>): Turn
    requires h != []
  {
    h[|h| - 1]
  }

  /** Drop the empty bubble a stream never wrote into. */
  function DropPlaceholder(h: seq<Turn>): seq<Turn> {
    if h != [] && Last(h).role.Assistant? && Last(h).content == [] then h[..|h| - 1] else h
  }

  /** Drop the prompt for exactly this command. */
  function DropPending(h: seq<Turn>, command: Text): seq<Turn> {
    if h != [] && Last(h).role.PendingTool? && Last(h).content == command then h[..|h| - 1] else h
  }

  /** Drop trailing errors and answers. */
  function Strip(h: seq<Turn>): seq<Turn> {
    if h != [] && (Last(h).role.Error? || Last(h).role.Assistant?) then Strip(h[..|h| - 1]) else h
  }

  /** The last exchange with this id still waiting for its output. */
  function Waiting(h: seq<Turn>, id: Id): (k: Option<nat>)
    ensures k.Some? ==> k.value < |h| && h[k.value].tool.Some? && h[k.value].tool.value.output.None?
  {
    if h == [] then None
    else if Last(h).tool.Some? && Last(h).tool.value.id == id && Last(h).tool.value.output.None? then Some(|h| - 1)
    else Waiting(h[..|h| - 1], id)
  }

  function Answered(t: Turn, output: Text): Turn
    requires t.tool.Some?
  {
    t.(tool := Some(t.tool.value.(output := Some(output))))
  }

  function Grown(t: Turn, delta: Text): Turn { t.(content := t.content + delta) }

  /** A minted id is new; another tab writes another conversation. */
  predicate Possible(c: Chat, ev: Event) {
    match ev
    case Done(minted, _) => minted !in c.stored
    case Retry(minted, _) => minted !in c.stored
    case Result(_, _, minted, _) => minted !in c.stored
    case OpenSaved(minted, _) => minted !in c.stored
    case OtherTab(id, _) => c.saved != Some(id)
    case _ => true
  }

  function Next(c: Chat, ev: Event): Chat {
    if !Possible(c, ev) then c
    else match ev
      case Send(text) => Push(Push(c, Turn(User, text, None)), Placeholder)
      case Chunk(delta) =>
        if c.history == [] || !Last(c.history).role.Assistant? then c
        else c.(history := c.history[|c.history| - 1 := Grown(Last(c.history), delta)])
      case Done(minted, reply) => Flush(c, minted, reply)
      case Fails(text) => Push(c.(history := DropPlaceholder(c.history)), Turn(Error, text, None))
      case Retry(minted, reply) =>
        var t := c.(history := Strip(c.history));
        if t.history == [] then t else Push(Flush(t, minted, reply), Placeholder)
      case Propose(command) =>
        Push(c.(history := DropPlaceholder(c.history)),
            Turn(PendingTool, command, Some(Exchange(0, command, "risky", None))))
      case Approve(command) => c.(history := DropPending(c.history, command))
      case Deny(command, note) => Push(c.(history := DropPending(c.history, command)), Turn(System, note, None))
      case Exec(id, command, risk, line) => Push(c, Turn(Tool, line, Some(Exchange(id, command, risk, None))))
      case NotSent(note) => Push(c, Turn(System, note, None))
      case Result(id, output, minted, reply) =>
        var k := Waiting(c.history, id);
        if k.None? then c
        else
          var h := c.history[k.value := Answered(c.history[k.value], output)];
          Push(Flush(c.(history := h), minted, reply), Placeholder)
      case OpenSaved(minted, reply) => Flush(c, minted, reply)
      case ResetChat => Detach(c.(history := []))
      case ToggleSaving => if c.saving then Detach(c.(saving := false)) else c.(saving := true)
      case DeleteSaved(id) =>
        var t := c.(stored := c.stored - {id});
        if c.saved == Some(id) then Detach(t) else t
      case WipeSaved => Detach(c.(stored := map[]))
      case HostRemoved(id) => c.(stored := c.stored - {id})
      case OtherTab(id, rows) => c.(stored := c.stored[id := rows])
  }

  function Run(c: Chat, evs: seq<Event>, n: nat): Chat
    requires n <= |evs|
  {
    if n == 0 then c else Next(Run(c, evs, n - 1), evs[n - 1])
  }

  // ----- Rows under the edits the conversation makes -----

  lemma RowsSnoc(h: seq<Turn>, t: Turn)
    ensures RowsOf(h + [t]) == RowsOf(h) + if Savable(t) then [RowOf(t)] else []
  {
    assert (h + [t])[..|h|] == h;
  }

  lemma RowsInit(h: seq<Turn>)
    requires h != []
    ensures RowsOf(h) == RowsOf(h[..|h| - 1]) + if Savable(Last(h)) then [RowOf(Last(h))] else []
  {}

  lemma {:induction false} StripOnlyShortens(h: seq<Turn>)
    ensures RowsOf(Strip(h)) <= RowsOf(h)
  {
    if h != [] && (Last(h).role.Error? || Last(h).role.Assistant?) {
      StripOnlyShortens(h[..|h| - 1]);
    }
  }

  /** Where the turn at `k` lands among the rows, if it does. */
  function Place(h: seq<Turn>, k: nat): nat
    requires k < |h|
  {
    |RowsOf(h[..k])|
  }

  lemma {:induction false} RowsUpdate(h: seq<Turn>, k: nat, t: Turn)
    requires k < |h| && Savable(t) == Savable(h[k])
    ensures Savable(t) ==> Place(h, k) < |RowsOf(h)| && RowsOf(h)[Place(h, k)] == RowOf(h[k])
                           && RowsOf(h[k := t]) == RowsOf(h)[Place(h, k) := RowOf(t)]
    ensures !Savable(t) ==> RowsOf(h[k := t]) == RowsOf(h)
    decreases |h|
  {
    var n, u := |h| - 1, h[k := t];
    RowsInit(h);
    RowsInit(u);
    if k == n {
      assert u[..n] == h[..n];
    } else {
      assert u[..n] == h[..n][k := t] && h[..n][..k] == h[..k];
      RowsUpdate(h[..n], k, t);
    }
  }

  // ----- What a stored turn says -----

  /** What happened, and not a question pending or an answer not yet begun; failures count. */
  predicate WorthKeeping(t: Turn) {
    match t.role
    case Assistant => |t.content| > 0
    case PendingTool => false
    case User => true
    case System => true
    case Error => true
    case Tool => true
  }

  /** The row has the turn's role, its text and, of its exchange, the command, the risk and the output. */
  predicate Says(row: Row, t: Turn) {
    && row.role == t.role && row.content == t.content
    && match (t.tool, row.tool)
       case (None, None) => true
       case (Some(Exchange(_, command, risk, output)), Some((cmd, rated, printed))) =>
         cmd == command && rated == risk && printed == output
       case _ => false
  }

  /** As many turns are stored as are worth keeping. */
  lemma {:induction false} RowsCountTheTurns(h: seq<Turn>)
    ensures |RowsOf(h)| == |set k | 0 <= k < |h| && WorthKeeping(h[k])|
  {
    if h != [] {
      var n := |h| - 1;
      var init := h[..n];
      RowsCountTheTurns(init);
      var worth := set k | 0 <= k < n && WorthKeeping(init[k]);
      assert (set k | 0 <= k < |h| && WorthKeeping(h[k])) == worth + if WorthKeeping(h[n]) then {n} else {};
    }
  }

  /** Each turn worth keeping is stored, saying what it says. */
  lemma {:induction false} RowSaysTheTurn(h: seq<Turn>, k: nat)
    requires k < |h| && WorthKeeping(h[k])
    ensures Place(h, k) < |RowsOf(h)| && Says(RowsOf(h)[Place(h, k)], h[k])
  {
    RowsInit(h);
    if k < |h| - 1 {
      assert h[..|h| - 1][..k] == h[..k];
      RowSaysTheTurn(h[..|h| - 1], k);
    }
  }

  /** And before every later one. */
  lemma {:induction false} RowsKeepTheOrder(h: seq<Turn>, j: nat, k: nat)
    requires j < k < |h| && WorthKeeping(h[j])
    ensures Place(h, j) < Place(h, k)
  {
    RowSaysTheTurn(h[..k], j);
    assert h[..k][..j] == h[..j];
  }

  /** A retry drops the trailing errors and answers, and nothing before them. */
  lemma {:induction false} StripExactly(h: seq<Turn>)
    ensures Strip(h) <= h
    ensures forall k :: |Strip(h)| <= k < |h| ==> h[k].role in {Error, Assistant}
    ensures Strip(h) != [] ==> Last(Strip(h)).role !in {Error, Assistant}
  {
    if h != [] && Last(h).role in {Error, Assistant} {
      StripExactly(h[..|h| - 1]);
    }
  }

  /** A tool's output goes to the last exchange of that id still without one. */
  lemma {:induction false} WaitingExactly(h: seq<Turn>, id: Id)
    ensures var open := (t: Turn) => t.tool.Some? && t.tool.value.id == id && t.tool.value.output.None?;
            match Waiting(h, id)
            case None => forall k :: 0 <= k < |h| ==> !open(h[k])
            case Some(k) => open(h[k]) && forall j :: k < j < |h| ==> !open(h[j])
  {
    if h != [] {
      WaitingExactly(h[..|h| - 1], id);
    }
  }

  /** A flush leaves every other conversation in the vault, and the live turns, as they are. */
  lemma FlushTouchesItsOwn(c: Chat, minted: Id, reply: Reply, id: Id)
    requires id != c.saved.GetOr(minted)
    ensures var f := Flush(c, minted, reply);
            && f.history == c.history && Stored(f, id) == Stored(c, id) && (id in f.stored <==> id in c.stored)
  {}

  // ----- The live conversation -----

  function Asking(command: Text): Turn { Turn(PendingTool, command, Some(Exchange(0, command, "risky", None))) }

  /** An error or a question takes the place of the empty bubble; an answered question leaves no trace but its note. */
  lemma BubblesAndQuestions(c: Chat, h: seq<Turn>, text: Text, command: Text, note: Text)
    requires c.history == h + [Placeholder]
    ensures Next(c, Fails(text)) == c.(history := h + [Turn(Error, text, None)])
    ensures Next(c, Propose(command)) == c.(history := h + [Asking(command)])
    ensures Next(Next(c, Propose(command)), Approve(command)) == c.(history := h)
    ensures Next(Next(c, Propose(command)), Deny(command, note)) == c.(history := h + [Turn(System, note, None)])
  {
    assert c.history[..|h|] == h;
    assert (h + [Asking(command)])[..|h|] == h;
  }

  /** Approving one command drops no question about another, and no turn of any other kind. */
  lemma OnlyItsOwnQuestionGoes(c: Chat, command: Text)
    requires c.history != []
    requires !Last(c.history).role.PendingTool? || Last(c.history).content != command
    ensures Next(c, Approve(command)) == c
  {}

  /** A retry with nothing said before the failures only clears them. */
  lemma NothingToRetry(c: Chat, minted: Id, reply: Reply)
    requires forall k :: 0 <= k < |c.history| ==> c.history[k].role in {Error, Assistant}
    ensures Next(c, Retry(minted, reply)) == (if minted in c.stored then c else c.(history := []))
  {
    StripExactly(c.history);
  }

  /** Turned off, saving leaves what is stored and lets go of it: turned on again, the next flush starts a new copy. */
  lemma SavingOffLetsGo(c: Chat)
    requires c.saving
    ensures Next(c, ToggleSaving) == Chat(c.history, 0, None, false, c.stored)
    ensures Next(Next(c, ToggleSaving), ToggleSaving) == Chat(c.history, 0, None, true, c.stored)
  {}

  // ----- Flush -----

  lemma {:induction false} LandedAll(rows: seq<Row>, start: nat, lost: set<nat>)
    requires start <= |rows|
    ensures |Landed(rows, start, lost)| <= |rows| - start
    ensures (forall i :: i in lost ==> i < start || i >= |rows|) ==> Landed(rows, start, lost) == rows[start..]
    ensures |Landed(rows, start, lost)| == |rows| - start ==> forall i :: i in lost ==> i < start || i >= |rows|
    decreases |rows| - start
  {
    if start < |rows| {
      LandedAll(rows, start + 1, lost);
      assert rows[start..] == [rows[start]] + rows[start + 1..];
    }
  }

  /** The vault dropped a turn the flush had to write. */
  ghost predicate Loses(reply: Reply, start: nat, end: nat) {
    reply.Written? && exists i :: i in reply.lost && start <= i < end
  }

  /**
   When a flush the vault fully accepts leaves the stored copy equal to the live
   turns: exactly when the history has become shorter than the cursor, or what is
   stored is still the beginning of it.
   */
  lemma FlushExact(c: Chat, minted: Id)
    requires c.saving && RowsOf(c.history) != []
    requires c.saved.Some? ==> |Stored(c, c.saved.value)| == c.persisted
    requires c.saved.None? ==> c.persisted == 0 && minted !in c.stored
    ensures var f, rows := Flush(c, minted, Written({})), RowsOf(c.history);
            f.saved.Some? &&
            (Stored(f, f.saved.value) == rows <==>
             c.persisted > |rows| || Stored(c, c.saved.GetOr(minted)) <= rows)
  {
    var rows := RowsOf(c.history);
    var start := if c.persisted > |rows| then 0 else c.persisted;
    LandedAll(rows, start, {});
    var base := Stored(c, c.saved.GetOr(minted));
    if c.persisted <= |rows| {
      assert base <= rows ==> base == rows[..start];
      assert rows == rows[..start] + rows[start..];
      assert base + rows[start..] == rows ==> base == (base + rows[start..])[..start];
    } else {
      assert rows[0..] == rows;
    }
  }

  // ----- The cursor tells the truth -----

  /** The stored copy is the first `persisted` live turns. */
  predicate InSync(c: Chat) {
    if c.saved.None? then c.persisted == 0
    else
      && c.saving && c.saved.value in c.stored
      && 0 < |c.stored[c.saved.value]| == c.persisted
      && c.stored[c.saved.value] <= RowsOf(c.history)
  }

  /** The event changes or removes a turn already counted as stored, or the vault loses one it is given. */
  ghost predicate Spoils(c: Chat, ev: Event) {
    Possible(c, ev) &&
    match ev
    case Chunk(delta) =>
      && delta != [] && c.history != [] && Last(c.history).role.Assistant? && Last(c.history).content != []
      && c.persisted == |RowsOf(c.history)|
    case Result(id, output, _, reply) =>
      var k := Waiting(c.history, id);
      && k.Some?
      && (|| (Savable(c.history[k.value]) && Place(c.history, k.value) < c.persisted)
          || (c.saving && Loses(reply, c.persisted, |RowsOf(c.history)|)))
    case Retry(_, reply) =>
      var n := |RowsOf(Strip(c.history))|;
      if c.persisted <= n then c.saving && Loses(reply, c.persisted, n)
      else n == 0 || !reply.Written? || Loses(reply, 0, n)
    case Done(_, reply) => c.saving && Loses(reply, c.persisted, |RowsOf(c.history)|)
    case OpenSaved(_, reply) => c.saving && Loses(reply, c.persisted, |RowsOf(c.history)|)
    case HostRemoved(id) => c.saved == Some(id)
    case _ => false
  }

  /** The flush, from a copy that is in step or from a history cut below the cursor. */
  lemma FlushKeepsStep(c: Chat, minted: Id, reply: Reply)
    requires InSync(c) && (c.saved.None? ==> minted !in c.stored)
    ensures InSync(Flush(c, minted, reply)) <==> !(c.saving && Loses(reply, c.persisted, |RowsOf(c.history)|))
  {
    var rows := RowsOf(c.history);
    if reply.Written? {
      LandedAll(rows, c.persisted, reply.lost);
      assert rows == rows[..c.persisted] + rows[c.persisted..];
    }
  }

  lemma FlushRestarts(c: Chat, minted: Id, reply: Reply)
    requires c.saving && c.saved.Some? && c.persisted > |RowsOf(c.history)|
    requires |Stored(c, c.saved.value)| == c.persisted
    ensures InSync(Flush(c, minted, reply)) <==>
            RowsOf(c.history) != [] && reply.Written? && !Loses(reply, 0, |RowsOf(c.history)|)
  {
    var rows := RowsOf(c.history);
    if reply.Written? {
      LandedAll(rows, 0, reply.lost);
      assert rows[0..] == rows;
    }
  }

  /** A flush from a copy that is out of step, with a turn still counted, leaves it out of step. */
  lemma FlushRepairsNothing(c: Chat, minted: Id, reply: Reply)
    requires c.saved.Some? && c.saved.value in c.stored
             && |c.stored[c.saved.value]| == c.persisted <= |RowsOf(c.history)|
    requires !(c.stored[c.saved.value] <= RowsOf(c.history))
    ensures !InSync(Flush(c, minted, reply))
  {
    var rows, base := RowsOf(c.history), c.stored[c.saved.value];
    assert exists i :: 0 <= i < |base| && base[i] != rows[i];
  }

  lemma PlaceholderKeepsStep(c: Chat)
    ensures InSync(Push(c, Placeholder)) <==> InSync(c)
  {
    RowsSnoc(c.history, Placeholder);
  }

  lemma ChunkExact(c: Chat, delta: Text)
    requires InSync(c)
    ensures InSync(Next(c, Chunk(delta))) <==> !Spoils(c, Chunk(delta))
  {
    if c.history != [] && Last(c.history).role.Assistant? {
      var h := c.history;
      var n := |h| - 1;
      var t := Grown(Last(h), delta);
      assert h[n := t] == h[..n] + [t];
      RowsSnoc(h[..n], t);
      RowsInit(h);
      assert delta != [] ==> |t.content| > |Last(h).content|;
      if delta == [] {
        assert t == Last(h);
      } else if c.saved.Some? && Savable(Last(h)) && c.persisted == |RowsOf(h)| {
        assert RowsOf(h)[c.persisted - 1] != RowsOf(h[n := t])[c.persisted - 1];
      }
    }
  }

  lemma RetryExact(c: Chat, minted: Id, reply: Reply)
    requires InSync(c) && minted !in c.stored
    ensures InSync(Next(c, Retry(minted, reply))) <==> !Spoils(c, Retry(minted, reply))
  {
    var t := c.(history := Strip(c.history));
    StripOnlyShortens(c.history);
    PlaceholderKeepsStep(Flush(t, minted, reply));
    if c.persisted <= |RowsOf(t.history)| {
      FlushKeepsStep(t, minted, reply);
    } else {
      FlushRestarts(t, minted, reply);
    }
  }

  lemma ResultExact(c: Chat, id: Id, output: Text, minted: Id, reply: Reply)
    requires InSync(c) && minted !in c.stored
    ensures InSync(Next(c, Result(id, output, minted, reply))) <==> !Spoils(c, Result(id, output, minted, reply))
  {
    var k := Waiting(c.history, id);
    if k.Some? {
      var u := Answered(c.history[k.value], output);
      var t := c.(history := c.history[k.value := u]);
      RowsUpdate(c.history, k.value, u);
      PlaceholderKeepsStep(Flush(t, minted, reply));
      if Savable(u) && Place(c.history, k.value) < c.persisted {
        assert c.stored[c.saved.value][Place(c.history, k.value)] != RowsOf(t.history)[Place(c.history, k.value)];
        FlushRepairsNothing(t, minted, reply);
      } else {
        FlushKeepsStep(t, minted, reply);
      }
    }
  }

  lemma PushKeepsStep(c: Chat, t: Turn)
    requires InSync(c)
    ensures InSync(Push(c, t))
  {
    RowsSnoc(c.history, t);
  }

  /** A dropped bubble or prompt was never worth keeping. */
  lemma DropsKeepRows(h: seq<Turn>, command: Text)
    ensures RowsOf(DropPlaceholder(h)) == RowsOf(h) == RowsOf(DropPending(h, command))
  {
    if h != [] {
      RowsInit(h);
    }
  }

  lemma EditKeepsStep(c: Chat, ev: Event)
    requires InSync(c) && (ev.Send? || ev.Fails? || ev.Propose? || ev.Approve? || ev.Deny? || ev.Exec? || ev.NotSent?)
    ensures InSync(Next(c, ev))
  {
    match ev {
      case Send(text) =>
        PushKeepsStep(c, Turn(User, text, None));
        PushKeepsStep(Push(c, Turn(User, text, None)), Placeholder);
      case Fails(text) =>
        DropsKeepRows(c.history, []);
        PushKeepsStep(c.(history := DropPlaceholder(c.history)), Turn(Error, text, None));
      case Propose(command) =>
        DropsKeepRows(c.history, command);
        PushKeepsStep(c.(history := DropPlaceholder(c.history)),
                      Turn(PendingTool, command, Some(Exchange(0, command, "risky", None))));
      case Approve(command) => DropsKeepRows(c.history, command);
      case Deny(command, note) =>
        DropsKeepRows(c.history, command);
        PushKeepsStep(c.(history := DropPending(c.history, command)), Turn(System, note, None));
      case Exec(id, command, risk, line) => PushKeepsStep(c, Turn(Tool, line, Some(Exchange(id, command, risk, None))));
      case NotSent(note) => PushKeepsStep(c, Turn(System, note, None));
    }
  }

  /** Event by event: the copy stays in step unless, and only unless, the event spoils it. */
  lemma StepExact(c: Chat, ev: Event)
    requires InSync(c)
    ensures InSync(Next(c, ev)) <==> !Spoils(c, ev)
  {
    if Possible(c, ev) {
      match ev {
        case Chunk(delta) => ChunkExact(c, delta);
        case Result(id, output, minted, reply) => ResultExact(c, id, output, minted, reply);
        case Retry(minted, reply) => RetryExact(c, minted, reply);
        case Done(minted, reply) => FlushKeepsStep(c, minted, reply);
        case OpenSaved(minted, reply) => FlushKeepsStep(c, minted, reply);
        case Send(_) => EditKeepsStep(c, ev);
        case Fails(_) => EditKeepsStep(c, ev);
        case Propose(_) => EditKeepsStep(c, ev);
        case Approve(_) => EditKeepsStep(c, ev);
        case Deny(_, _) => EditKeepsStep(c, ev);
        case Exec(_, _, _, _) => EditKeepsStep(c, ev);
        case NotSent(_) => EditKeepsStep(c, ev);
        case _ =>
      }
    }
  }

  /** Event `m` of the run changes no turn already counted, and the vault loses none it is given. */
  ghost predicate Gentle(c: Chat, evs: seq<Event>, m: nat)
    requires m < |evs|
  {
    !Spoils(Run(c, evs, m), evs[m])
  }

  lemma GentleStep(c: Chat, evs: seq<Event>, m: nat)
    requires m < |evs| && InSync(Run(c, evs, m)) && Gentle(c, evs, m)
    ensures InSync(Run(c, evs, m + 1))
  {
    StepExact(Run(c, evs, m), evs[m]);
  }

  lemma {:induction false} GentleRunStaysInSync(c: Chat, evs: seq<Event>, n: nat)
    requires n <= |evs| && InSync(c)
    requires forall m :: 0 <= m < n ==> Gentle(c, evs, m)
    ensures InSync(Run(c, evs, n))
  {
    if n > 0 {
      GentleRunStaysInSync(c, evs, n - 1);
      GentleStep(c, evs, n - 1);
    }
  }

  /**
   The incremental store refines storing the whole conversation: over any run in
   which no event touches a turn already counted, every flush the vault takes
   leaves exactly the live turns, each once and in order.
   */
  lemma SavedIsLive(c: Chat, evs: seq<Event>, n: nat, minted: Id)
    requires n <= |evs| && InSync(c)
    requires forall m :: 0 <= m < n ==> Gentle(c, evs, m)
    requires Run(c, evs, n).saving && RowsOf(Run(c, evs, n).history) != [] && minted !in Run(c, evs, n).stored
    ensures var f := Flush(Run(c, evs, n), minted, Written({}));
            f.saved.Some? && Stored(f, f.saved.value) == RowsOf(f.history)
  {
    GentleRunStaysInSync(c, evs, n);
    FlushExact(Run(c, evs, n), minted);
  }

  // ----- Reading the conversation while it is being written -----

  /** Everything live is stored, and the last turn is an answer under way. */
  predicate CaughtUpMidAnswer(c: Chat) {
    && c.history != [] && Last(c.history).role.Assistant? && Last(c.history).content != []
    && c.saved.Some? && c.persisted == |RowsOf(c.history)| && Stored(c, c.saved.value) == RowsOf(c.history)
  }

  lemma OpeningCatchesUp(c: Chat, minted: Id)
    requires InSync(c) && c.saving && minted !in c.stored
    requires c.history != [] && Last(c.history).role.Assistant? && Last(c.history).content != []
    ensures CaughtUpMidAnswer(Next(c, OpenSaved(minted, Written({}))))
            && Next(c, OpenSaved(minted, Written({}))).history == c.history
  {
    RowsInit(c.history);
    FlushExact(c, minted);
  }

  /** Opening the saved conversation while an answer streams keeps the half of it: the rest counts as stored. */
  lemma HalfAnswerIsKept(c: Chat, delta: Text, minted: Id)
    requires CaughtUpMidAnswer(c) && delta != [] && minted !in c.stored
    ensures var done := Next(Next(c, Chunk(delta)), Done(minted, Written({})));
            && done.stored == c.stored && done.saved == c.saved
            && Stored(done, done.saved.value) != RowsOf(done.history)
  {
    var h := c.history;
    var t := Grown(Last(h), delta);
    assert h[|h| - 1 := t] == h[..|h| - 1] + [t];
    RowsSnoc(h[..|h| - 1], t);
    RowsInit(h);
    assert |t.content| > |Last(h).content|;
    assert RowsOf(h)[|RowsOf(h)| - 1] != RowsOf(h[|h| - 1 := t])[|RowsOf(h)| - 1];
  }
}
