/** The import save as it runs: vault and lists updated in place, with a batch to roll back to. */
module ImportWorker {
  import opened Options
  import opened DirectImport

  class OpenVault {
    var hosts: seq<Host>
    var folders: seq<Folder>
    var vault: Vault

    function Now(): (Memory, Vault)
      reads this
    {
      (Memory(hosts, folders), vault)
    }

    /** Walk a path down a scratch list, making what is missing. */
    method MakePath(list: seq<Folder>, path: seq<Text>, next: Id)
        returns (made: seq<Folder>, gid: Option<Id>, after: Id)
      ensures (made, gid, after) == CreatePath(list, path, None, next)
    {
      made, gid, after := list, None, next;
      assert path[0..] == path;
      for i := 0 to |path|
        invariant CreatePath(list, path, None, next) == CreatePath(made, path[i..], gid, after)
      {
        assert path[i..][1..] == path[i + 1..];
        if path[i] != [] {
          var existing := FindFolder(made, gid, path[i]);
          if existing.Some? {
            gid := existing;
          } else {
            made := made + [Folder(after, path[i], gid, false)];
            gid, after := Some(after), after + 1;
          }
        }
      }
    }

    method FindFolder(list: seq<Folder>, parent: Option<Id>, name: Text) returns (found: Option<Id>)
      ensures found == Find(list, parent, name)
    {
      assert list[0..] == list;
      for i := 0 to |list|
        invariant Find(list, parent, name) == Find(list[i..], parent, name)
      {
        assert list[i..][1..] == list[i + 1..];
        if !list[i].isDynamic && list[i].parent == parent && list[i].name == name {
          return Some(list[i].id);
        }
      }
      found := None;
    }

    /** The folders the rows name, on a scratch copy of the list. */
    method PrepareFolders(rows: seq<Row>, next: Id) returns (p: Paths)
      ensures p == Prepare(folders, rows, |rows|, next)
    {
      p := Paths(folders, map[], next);
      for i := 0 to |rows|
        invariant p == Prepare(folders, rows, i, next)
      {
        match rows[i].plan {
          case Create(path) =>
            if path !in p.gids {
              var made, gid, after := MakePath(p.folders, path, p.next);
              p := Paths(made, p.gids[path := gid], after);
            }
          case _ =>
        }
      }
    }

    /** Save the new folders until one is refused; tells how many went in. */
    method SaveFolders(created: seq<Folder>, refused: set<Id>) returns (saved: nat)
      modifies this`vault
      ensures saved == FirstRefused(created, refused, 0)
      ensures vault == old(vault).(folders := FoldersById(old(vault.folders), created[..saved]))
    {
      saved := 0;
      while saved < |created| && created[saved].id !in refused
        invariant saved <= |created| && FirstRefused(created, refused, saved) == FirstRefused(created, refused, 0)
        invariant vault == old(vault).(folders := FoldersById(old(vault.folders), created[..saved]))
      {
        vault := vault.(folders := vault.folders[created[saved].id := created[saved]]);
        saved := saved + 1;
        assert created[..saved][..saved - 1] == created[..saved - 1];
      }
    }

    method FindHost(id: Id) returns (found: Option<Host>)
      ensures found == Lookup(hosts, id)
    {
      assert hosts[0..] == hosts;
      for i := 0 to |hosts|
        invariant Lookup(hosts, id) == Lookup(hosts[i..], id)
      {
        assert hosts[i..][1..] == hosts[i + 1..];
        if hosts[i].id == id {
          return Some(hosts[i]);
        }
      }
      found := None;
    }

    method FolderExists(list: seq<Folder>, id: Id) returns (found: bool)
      ensures found == HasFolder(list, id)
    {
      for i := 0 to |list|
        invariant forall j :: 0 <= j < i ==> list[j].id != id
      {
        if list[i].id == id {
          return true;
        }
      }
      found := false;
    }

    /** Where a row's host is filed, or that its folder has gone. */
    method FileRow(row: Row, p: Paths, target: Option<Id>) returns (filing: Option<Option<Id>>)
      ensures filing == Filing(row, p, target)
    {
      match row.plan {
        case Open =>
          filing := Some(if row.op.Add? then target else row.host.group);
        case Keep =>
          filing := Some(row.host.group);
        case Root =>
          filing := Some(None);
        case Existing(id) =>
          var there := FolderExists(p.folders, id);
          filing := if there then Some(Some(id)) else None;
        case Create(path) =>
          filing := Some(if path in p.gids then p.gids[path] else None);
      }
    }

    /** One ticked row: skipped, refused with a reason, or saved. */
    method SaveRow(row: Row, p: Paths, target: Option<Id>, luck: Luck) returns (fate: Fate)
      modifies this`vault
      ensures fate == FateOf(row, hosts, p, target, luck)
      ensures vault == if !fate.Added? && !fate.Updated? then old(vault)
                       else old(vault).(hosts := old(vault.hosts)[fate.host.id := fate.host])
    {
      var conn := row.host;
      match row.op {
        case Remove =>
          return Removal;
        case Update(changes) =>
          if changes == {} {
            return Unchanged;
          }
          var live := FindHost(conn.id);
          if live.None? {
            return HostGone;
          }
          if live.value.stamp != conn.stamp {
            return HostChanged;
          }
          conn := conn.(stamp := luck.now);
        case Add =>
      }
      var filing := FileRow(row, p, target);
      if filing.None? {
        return FolderGone;
      }
      conn := conn.(group := filing.value);
      if conn.id in luck.refused {
        return NotSaved;
      }
      vault := vault.(hosts := vault.hosts[conn.id := conn]);
      fate := if row.op.Add? then Added(conn) else Updated(conn);
    }

    method SaveRows(rows: seq<Row>, p: Paths, target: Option<Id>, luck: Luck)
      returns (fates: seq<Fate>, added: seq<Host>, updated: seq<Host>)
      modifies this`vault
      ensures fates == Fates(rows, |rows|, hosts, p, target, luck)
      ensures added == AddedHosts(fates) && updated == UpdatedHosts(fates)
      ensures vault == old(vault).(hosts := Saved(old(vault.hosts), fates))
    {
      fates, added, updated := [], [], [];
      for i := 0 to |rows|
        invariant fates == Fates(rows, i, hosts, p, target, luck)
        invariant added == AddedHosts(fates) && updated == UpdatedHosts(fates)
        invariant vault == old(vault).(hosts := Saved(old(vault.hosts), fates))
      {
        var fate := SaveRow(rows[i], p, target, luck);
        assert (fates + [fate])[..|fates|] == fates;
        if fate.Added? {
          added := added + [fate.host];
        } else if fate.Updated? {
          updated := updated + [fate.host];
        }
        fates := fates + [fate];
      }
    }

    /** The first host with this id gives up its slot. */
    method ReplaceSlot(h: Host)
      modifies this`hosts
      ensures hosts == Replace(old(hosts), h)
    {
      ghost var was := hosts;
      assert was[0..] == was;
      for i := 0 to |hosts|
        invariant hosts == was
        invariant Replace(was, h) == was[..i] + Replace(was[i..], h)
      {
        assert was[i..][1..] == was[i + 1..];
        if hosts[i].id == h.id {
          hosts := hosts[..i] + [h] + hosts[i + 1..];
          return;
        }
        assert was[..i + 1] == was[..i] + [was[i]];
      }
      assert was[..|was|] == was;
    }

    method ReplaceUpdated(updated: seq<Host>)
      modifies this`hosts
      ensures hosts == ReplaceAll(old(hosts), updated)
    {
      for i := 0 to |updated|
        invariant hosts == ReplaceAll(old(hosts), updated[..i])
      {
        assert updated[..i + 1][..i] == updated[..i];
        ReplaceSlot(updated[i]);
      }
      assert updated[..|updated|] == updated;
    }

    /** The one delete door: what the vault deletes leaves memory too. */
    method RemoveHosts(rows: seq<Row>, luck: Luck)
      modifies this`hosts, this`vault
      ensures vault == old(vault).(hosts := old(vault.hosts) - Removed(rows, |rows|, luck))
      ensures hosts == Without(old(hosts), Removed(rows, |rows|, luck))
    {
      var gone: set<Id> := {};
      for i := 0 to |rows|
        invariant vault == old(vault).(hosts := old(vault.hosts) - gone)
        invariant gone == Removed(rows, i, luck) && hosts == old(hosts)
      {
        if rows[i].op.Remove? && rows[i].host.id !in luck.refused {
          vault := vault.(hosts := vault.hosts - {rows[i].host.id});
          gone := gone + {rows[i].host.id};
        }
      }
      var kept: seq<Host> := [];
      for i := 0 to |hosts|
        invariant kept == Without(hosts[..i], gone)
      {
        assert hosts[..i + 1][..i] == hosts[..i];
        if hosts[i].id !in gone {
          kept := kept + [hosts[i]];
        }
      }
      assert hosts[..|hosts|] == hosts;
      hosts := kept;
    }

    /** After the commit: the lists take what the vault took, then the removals run. */
    method TakeIntoMemory(rows: seq<Row>, p: Paths, fates: seq<Fate>, added: seq<Host>, updated: seq<Host>, luck: Luck)
      requires added == AddedHosts(fates) && updated == UpdatedHosts(fates)
      modifies this
      ensures Now().0 == SavedMemory(old(Now()).0, p, fates, Removed(rows, |rows|, luck))
      ensures vault == old(vault).(hosts := old(vault.hosts) - Removed(rows, |rows|, luck))
    {
      folders, hosts := p.folders, hosts + added;
      ReplaceUpdated(updated);
      RemoveHosts(rows, luck);
    }

    /** Save the ticked rows of a pending import. */
    method SaveDirectImport(rows: seq<Row>, target: Option<Id>, next: Id, luck: Luck) returns (outcome: Outcome)
      modifies this
      ensures (Now().0, Now().1, outcome) == SaveImport(old(Now()).0, old(Now()).1, rows, target, next, luck)
    {
      var batch := vault;
      var p := PrepareFolders(rows, next);
      PrepareLeads(folders, rows, |rows|, next);
      var created := p.folders[|folders|..];
      var saved := SaveFolders(created, luck.refused);
      var none: set<Id> := {};
      if saved < |created| {
        assert vault.hosts - none == vault.hosts;
        if luck.begins {
          vault := batch;
        }
        return FolderFailed;
      }
      assert created[..saved] == created;
      var fates, added, updated := SaveRows(rows, p, target, luck);
      if !(luck.begins && luck.commits) {
        assert vault.hosts - none == vault.hosts;
        if luck.begins {
          vault := batch;
        }
        return CommitFailed;
      }
      TakeIntoMemory(rows, p, fates, added, updated, luck);
      outcome := Saving(fates);
    }
  }
}
