/** Flushing and detaching, as they update the tab's cursor and the vault in place. */
module ChatTab {
  import opened Options
  import opened ChatHistory

  class Tab {
    var history: seq<Turn>
    var persisted: nat
    var saved: Option<Id>
    var saving: bool
    var stored: map<Id, seq<Row>>

    function Now(): Chat
      reads this
    {
      Chat(history, persisted, saved, saving, stored)
    }

    /** Append the turns from `start` on; a failed append is passed over. */
    method AppendRows(id: Id, rows: seq<Row>, start: nat, lost: set<nat>)
      requires id in stored && start <= |rows|
      modifies this`stored
      ensures stored == old(stored)[id := old(stored)[id] + Landed(rows, start, lost)]
    {
      ghost var before := stored;
      var i := start;
      while i < |rows|
        invariant start <= i <= |rows| && id in stored
        invariant stored == before[id := stored[id]]
        invariant stored[id] + Landed(rows, i, lost) == before[id] + Landed(rows, start, lost)
      {
        if i !in lost {
          stored := stored[id := stored[id] + [rows[i]]];
        }
        i := i + 1;
      }
      assert stored[id] + [] == stored[id];
    }

    method FlushHistory(minted: Id, reply: Reply)
      modifies this
      ensures Now() == Flush(old(Now()), minted, reply)
    {
      if !saving {
        return;
      }
      var savable := RowsOf(history);
      if savable == [] {
        return;
      }
      var start := persisted;
      var restart := start > |savable|;
      if restart {
        start := 0;
      }
      if start == |savable| {
        return;
      }
      var conversation := saved.GetOr(minted);
      if reply.Closed? {
        return;
      }
      if restart {
        stored := stored - {conversation};
      }
      if reply.Refused? {
        return;
      }
      if conversation !in stored {
        stored := stored[conversation := []];
      }
      AppendRows(conversation, savable, start, reply.lost);
      saved, persisted := Some(conversation), |savable|;
    }

    method DetachSaved()
      modifies this`saved, this`persisted
      ensures Now() == Detach(old(Now()))
    {
      saved, persisted := None, 0;
    }
  }
}
