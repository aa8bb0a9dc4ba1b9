/**
 The save of an import preview: the folders the ticked rows name, then the rows,
 inside one vault batch, then the in-memory lists, then the removals.
 */
module DirectImport {
  import opened Options

  type Id = nat
  type Text = seq<char>

  /** A host; `settings` stands for every field the save only carries along. */
  datatype Host = Host(id: Id, name: Text, group: Option<Id>, stamp: nat, settings: nat)

  datatype Folder = Folder(id: Id, name: Text, parent: Option<Id>, isDynamic: bool)

  datatype Vault = Vault(hosts: map<Id, Host>, folders: map<Id, Folder>)

  datatype Memory = Memory(hosts: seq<Host>, folders: seq<Folder>)

  /** Where a row goes; a path is its trimmed segments. */
  datatype Plan = Open | Keep | Root | Existing(id: Id) | Create(path: seq<Text>)

  datatype Op = Add | Update(changes: set<Text>) | Remove

  datatype Row = Row(host: Host, op: Op, plan: Plan)

  /** What the vault answers: whether the batch opens and commits, and the records it refuses. */
  datatype Luck = Luck(begins: bool, commits: bool, refused: set<Id>, now: nat)

  datatype Paths = Paths(folders: seq<Folder>, gids: map<seq<Text>, Option<Id>>, next: Id)

  // ----- Folders -----

  /** The first manual folder with this name under this parent. */
  function Find(folders: seq<Folder>, parent: Option<Id>, name: Text): Option<Id> {
    if folders == [] then None
    else if !folders[0].isDynamic && folders[0].parent == parent && folders[0].name == name then Some(folders[0].id)
    else Find(folders[1..], parent, name)
  }

  /** Walk the path down from `parent`, making what is missing under new ids from `next` on. */
  function CreatePath(folders: seq<Folder>, path: seq<Text>, parent: Option<Id>, next: Id)
      : (seq<Folder>, Option<Id>, Id)
    decreases |path|
  {
    if path == [] then (folders, parent, next)
    else if path[0] == [] then CreatePath(folders, path[1..], parent, next)
    else match Find(folders, parent, path[0])
      case Some(id) => CreatePath(folders, path[1..], Some(id), next)
      case None => CreatePath(folders + [Folder(next, path[0], parent, false)], path[1..], Some(next), next + 1)
  }

  /** Where a path leads, when every segment of it exists. */
  function Walk(folders: seq<Folder>, path: seq<Text>, parent: Option<Id>): Option<Option<Id>>
    decreases |path|
  {
    if path == [] then Some(parent)
    else if path[0] == [] then Walk(folders, path[1..], parent)
    else match Find(folders, parent, path[0])
      case Some(id) => Walk(folders, path[1..], Some(id))
      case None => None
  }

  function PrepareRow(p: Paths, row: Row): Paths {
    if row.plan.Create? && row.plan.path !in p.gids then
      var (folders, gid, next) := CreatePath(p.folders, row.plan.path, None, p.next);
      Paths(folders, p.gids[row.plan.path := gid], next)
    else p
  }

  /** The folders after the first `n` rows, and what each new path came to. */
  function Prepare(folders: seq<Folder>, rows: seq<Row>, n: nat, next: Id): Paths
    requires n <= |rows|
  {
    if n == 0 then Paths(folders, map[], next) else PrepareRow(Prepare(folders, rows, n - 1, next), rows[n - 1])
  }

  lemma {:induction false} FindGrows(folders: seq<Folder>, more: seq<Folder>, parent: Option<Id>, name: Text)
    ensures Find(folders + more, parent, name)
         == if Find(folders, parent, name).Some? then Find(folders, parent, name) else Find(more, parent, name)
  {
    if folders == [] {
      assert folders + more == more;
    } else {
      assert (folders + more)[1..] == folders[1..] + more;
      FindGrows(folders[1..], more, parent, name);
    }
  }

  /** Folders only ever added behind do not change where a path leads. */
  lemma {:induction false} WalkGrows(folders: seq<Folder>, more: seq<Folder>, path: seq<Text>, parent: Option<Id>)
    requires Walk(folders, path, parent).Some?
    ensures Walk(folders + more, path, parent) == Walk(folders, path, parent)
    decreases |path|
  {
    if path != [] {
      if path[0] == [] {
        WalkGrows(folders, more, path[1..], parent);
      } else {
        FindGrows(folders, more, parent, path[0]);
        WalkGrows(folders, more, path[1..], Find(folders, parent, path[0]));
      }
    }
  }

  /** A created path only adds folders, under new ids, and then leads where it said. */
  lemma {:induction false} CreatedPathLeads(folders: seq<Folder>, path: seq<Text>, parent: Option<Id>, next: Id)
    ensures var (f, gid, n) := CreatePath(folders, path, parent, next);
            && folders <= f && next <= n
            && (forall i :: |folders| <= i < |f| ==> next <= f[i].id < n)
            && (forall i, j :: |folders| <= i < j < |f| ==> f[i].id != f[j].id)
            && Walk(f, path, parent) == Some(gid)
            && (gid.Some? || parent.Some? ==> gid.Some?)
    decreases |path|
  {
    if path != [] {
      if path[0] == [] {
        CreatedPathLeads(folders, path[1..], parent, next);
      } else {
        var found := Find(folders, parent, path[0]);
        if found.Some? {
          CreatedPathLeads(folders, path[1..], found, next);
          var f := CreatePath(folders, path, parent, next).0;
          FindGrows(folders, f[|folders|..], parent, path[0]);
          assert folders + f[|folders|..] == f;
        } else {
          var made := Folder(next, path[0], parent, false);
          CreatedPathLeads(folders + [made], path[1..], Some(next), next + 1);
          var f := CreatePath(folders, path, parent, next).0;
          FindGrows(folders, [made], parent, path[0]);
          FindGrows(folders + [made], f[|folders| + 1..], parent, path[0]);
          assert folders + [made] + f[|folders| + 1..] == f;
        }
      }
    }
  }

  /** Making a path that exists makes nothing. */
  lemma {:induction false} CreateTwiceIsOnce(folders: seq<Folder>, path: seq<Text>, parent: Option<Id>, next: Id)
    requires Walk(folders, path, parent).Some?
    ensures CreatePath(folders, path, parent, next) == (folders, Walk(folders, path, parent).value, next)
    decreases |path|
  {
    if path != [] {
      if path[0] == [] {
        CreateTwiceIsOnce(folders, path[1..], parent, next);
      } else {
        CreateTwiceIsOnce(folders, path[1..], Find(folders, parent, path[0]), next);
      }
    }
  }

  /** Every path prepared so far leads to the folder it was given. */
  ghost predicate PathsLead(p: Paths) {
    forall path :: path in p.gids ==> Walk(p.folders, path, None) == Some(p.gids[path])
  }

  ghost predicate NewIds(folders: seq<Folder>, p: Paths, next: Id) {
    && folders <= p.folders && next <= p.next
    && (forall i :: |folders| <= i < |p.folders| ==> next <= p.folders[i].id < p.next)
    && (forall i, j :: |folders| <= i < j < |p.folders| ==> p.folders[i].id != p.folders[j].id)
  }

  lemma PrepareRowKeeps(p: Paths, row: Row)
    requires PathsLead(p)
    ensures PathsLead(PrepareRow(p, row)) && NewIds(p.folders, PrepareRow(p, row), p.next)
  {
    if row.plan.Create? && row.plan.path !in p.gids {
      CreatedPathLeads(p.folders, row.plan.path, None, p.next);
      var q := PrepareRow(p, row);
      assert p.folders + q.folders[|p.folders|..] == q.folders;
      forall path | path in p.gids
        ensures Walk(q.folders, path, None) == Some(p.gids[path])
      {
        WalkGrows(p.folders, q.folders[|p.folders|..], path, None);
      }
    }
  }

  lemma {:induction false} PrepareLeads(folders: seq<Folder>, rows: seq<Row>, n: nat, next: Id)
    requires n <= |rows|
    ensures PathsLead(Prepare(folders, rows, n, next)) && NewIds(folders, Prepare(folders, rows, n, next), next)
    ensures forall i :: 0 <= i < n && rows[i].plan.Create? ==> rows[i].plan.path in Prepare(folders, rows, n, next).gids
  {
    if n > 0 {
      PrepareLeads(folders, rows, n - 1, next);
      PrepareRowKeeps(Prepare(folders, rows, n - 1, next), rows[n - 1]);
    }
  }

  // ----- What becomes of a row -----

  datatype Fate =
    | Removal
    | Unchanged
    | HostGone
    | HostChanged
    | FolderGone
    | NotSaved
    | Added(host: Host)
    | Updated(host: Host)

  function Lookup(hosts: seq<Host>, id: Id): Option<Host> {
    if hosts == [] then None else if hosts[0].id == id then Some(hosts[0]) else Lookup(hosts[1..], id)
  }

  predicate HasFolder(folders: seq<Folder>, id: Id) { exists i :: 0 <= i < |folders| && folders[i].id == id }

  /** Where the row's host is filed; no answer means its folder has gone. */
  function Filing(row: Row, p: Paths, target: Option<Id>): Option<Option<Id>> {
    match row.plan
    case Open => Some(if row.op.Add? then target else row.host.group)
    case Keep => Some(row.host.group)
    case Root => Some(None)
    case Existing(id) => if HasFolder(p.folders, id) then Some(Some(id)) else None
    case Create(path) => Some(if path in p.gids then p.gids[path] else None)
  }

  function FateOf(row: Row, live: seq<Host>, p: Paths, target: Option<Id>, luck: Luck): Fate {
    var shown := Lookup(live, row.host.id);
    if row.op.Remove? then Removal
    else if row.op.Update? && row.op.changes == {} then Unchanged
    else if row.op.Update? && shown.None? then HostGone
    else if row.op.Update? && shown.value.stamp != row.host.stamp then HostChanged
    else
      var stamped := if row.op.Update? then row.host.(stamp := luck.now) else row.host;
      match Filing(row, p, target)
      case None => FolderGone
      case Some(group) =>
        if row.host.id in luck.refused then NotSaved
        else if row.op.Add? then Added(stamped.(group := group)) else Updated(stamped.(group := group))
  }

  function Fates(rows: seq<Row>, n: nat, live: seq<Host>, p: Paths, target: Option<Id>, luck: Luck): (fates: seq<Fate>)
    requires n <= |rows|
    ensures |fates| == n
    ensures forall i :: 0 <= i < n ==> fates[i] == FateOf(rows[i], live, p, target, luck)
  {
    if n == 0 then [] else Fates(rows, n - 1, live, p, target, luck) + [FateOf(rows[n - 1], live, p, target, luck)]
  }

  // ----- The lists and the vault -----

  function Overlay(m: map<Id, Host>, hosts: seq<Host>): map<Id, Host> {
    if hosts == [] then m else Overlay(m, hosts[..|hosts| - 1])[hosts[|hosts| - 1].id := hosts[|hosts| - 1]]
  }

  function FoldersById(m: map<Id, Folder>, folders: seq<Folder>): map<Id, Folder> {
    if folders == [] then m
    else FoldersById(m, folders[..|folders| - 1])[folders[|folders| - 1].id := folders[|folders| - 1]]
  }

  function AddedHosts(fates: seq<Fate>): seq<Host> {
    if fates == [] then []
    else
      var before, last := AddedHosts(fates[..|fates| - 1]), fates[|fates| - 1];
      if last.Added? then before + [last.host] else before
  }

  function UpdatedHosts(fates: seq<Fate>): seq<Host> {
    if fates == [] then []
    else
      var before, last := UpdatedHosts(fates[..|fates| - 1]), fates[|fates| - 1];
      if last.Updated? then before + [last.host] else before
  }

  /** The vault's hosts after the rows, in the order they are saved. */
  function Saved(m: map<Id, Host>, fates: seq<Fate>): map<Id, Host> {
    if fates == [] then m
    else
      var before, last := Saved(m, fates[..|fates| - 1]), fates[|fates| - 1];
      if last.Added? || last.Updated? then before[last.host.id := last.host] else before
  }

  function Replace(hosts: seq<Host>, h: Host): seq<Host> {
    if hosts == [] then []
    else if hosts[0].id == h.id then [h] + hosts[1..]
    else [hosts[0]] + Replace(hosts[1..], h)
  }

  function ReplaceAll(hosts: seq<Host>, updated: seq<Host>): seq<Host> {
    if updated == [] then hosts else Replace(ReplaceAll(hosts, updated[..|updated| - 1]), updated[|updated| - 1])
  }

  /** The hosts the ticked removal rows name and memory still has, less the ones the vault will not delete. */
  function Removed(rows: seq<Row>, n: nat, luck: Luck): set<Id>
    requires n <= |rows|
  {
    if n == 0 then {}
    else
      var before, last := Removed(rows, n - 1, luck), rows[n - 1];
      if last.op.Remove? && last.host.id !in luck.refused then before + {last.host.id} else before
  }

  function Without(hosts: seq<Host>, ids: set<Id>): seq<Host> {
    if hosts == [] then []
    else
      var before, last := Without(hosts[..|hosts| - 1], ids), hosts[|hosts| - 1];
      if last.id in ids then before else before + [last]
  }

  /** How many of the new folders are written before one is refused. */
  function FirstRefused(created: seq<Folder>, refused: set<Id>, i: nat): (k: nat)
    requires i <= |created|
    ensures i <= k <= |created|
    ensures k < |created| ==> created[k].id in refused
    ensures forall j :: i <= j < k ==> created[j].id !in refused
    decreases |created| - i
  {
    if i == |created| || created[i].id in refused then i else FirstRefused(created, refused, i + 1)
  }

  datatype Outcome = FolderFailed | CommitFailed | Saving(fates: seq<Fate>)

  function SavedMemory(m: Memory, p: Paths, fates: seq<Fate>, gone: set<Id>): Memory {
    Memory(Without(ReplaceAll(m.hosts + AddedHosts(fates), UpdatedHosts(fates)), gone), p.folders)
  }

  function SavedVault(v: Vault, created: seq<Folder>, fates: seq<Fate>, gone: set<Id>): Vault {
    Vault(Saved(v.hosts, fates) - gone, FoldersById(v.folders, created))
  }

  /** The whole save. A batch that never opened has nothing to roll back and nothing to commit. */
  function SaveImport(m: Memory, v: Vault, rows: seq<Row>, target: Option<Id>, next: Id, luck: Luck)
      : (Memory, Vault, Outcome) {
    var p := Prepare(m.folders, rows, |rows|, next);
    var created := if |m.folders| <= |p.folders| then p.folders[|m.folders|..] else [];
    var k := FirstRefused(created, luck.refused, 0);
    if k < |created| then
      (m, if luck.begins then v else SavedVault(v, created[..k], [], {}), FolderFailed)
    else
      var fates := Fates(rows, |rows|, m.hosts, p, target, luck);
      if !(luck.begins && luck.commits) then
        (m, if luck.begins then v else SavedVault(v, created, fates, {}), CommitFailed)
      else
        var gone := Removed(rows, |rows|, luck);
        (SavedMemory(m, p, fates, gone), SavedVault(v, created, fates, gone), Saving(fates))
  }

  // ----- Memory mirrors the vault -----

  predicate DistinctHosts(hosts: seq<Host>) {
    forall i, j :: 0 <= i < j < |hosts| ==> hosts[i].id != hosts[j].id
  }

  /** The lists in memory are the vault's records, each once. */
  predicate Mirrors(m: Memory, v: Vault) {
    && DistinctHosts(m.hosts)
    && Overlay(map[], m.hosts) == v.hosts
    && FoldersById(map[], m.folders) == v.folders
  }

  /** What the planner guarantees: no two rows name one host, and an added host is new. */
  predicate Planned(rows: seq<Row>, live: seq<Host>) {
    && (forall i, j :: 0 <= i < j < |rows| ==> rows[i].host.id != rows[j].host.id)
    && (forall i :: 0 <= i < |rows| && rows[i].op.Add? ==> Lookup(live, rows[i].host.id).None?)
  }

  lemma {:induction false} OverlayConcat(m: map<Id, Host>, a: seq<Host>, b: seq<Host>)
    ensures Overlay(m, a + b) == Overlay(Overlay(m, a), b)
    decreases |b|
  {
    if b == [] {
      assert a + b == a;
    } else {
      assert (a + b)[..|a + b| - 1] == a + b[..|b| - 1];
      OverlayConcat(m, a, b[..|b| - 1]);
    }
  }

  lemma {:induction false} FoldersConcat(m: map<Id, Folder>, a: seq<Folder>, b: seq<Folder>)
    ensures FoldersById(m, a + b) == FoldersById(FoldersById(m, a), b)
    decreases |b|
  {
    if b == [] {
      assert a + b == a;
    } else {
      assert (a + b)[..|a + b| - 1] == a + b[..|b| - 1];
      FoldersConcat(m, a, b[..|b| - 1]);
    }
  }

  /** Every added or updated host comes from its own row. */
  lemma {:induction false} FatesNameRows(fates: seq<Fate>, rows: seq<Row>)
    requires |fates| <= |rows|
    requires forall i :: 0 <= i < |fates| && (fates[i].Added? || fates[i].Updated?) ==>
             fates[i].host.id == rows[i].host.id
    ensures forall h :: h in AddedHosts(fates) ==>
            exists i :: 0 <= i < |fates| && fates[i].Added? && rows[i].host.id == h.id
    ensures forall h :: h in UpdatedHosts(fates) ==>
            exists i :: 0 <= i < |fates| && fates[i].Updated? && rows[i].host.id == h.id
  {
    if fates != [] {
      var init := fates[..|fates| - 1];
      FatesNameRows(init, rows);
      forall h | h in AddedHosts(fates)
        ensures exists i :: 0 <= i < |fates| && fates[i].Added? && rows[i].host.id == h.id
      {
        if h in AddedHosts(init) {
          var i :| 0 <= i < |init| && init[i].Added? && rows[i].host.id == h.id;
          assert fates[i].Added?;
        } else {
          assert fates[|fates| - 1].Added?;
        }
      }
      forall h | h in UpdatedHosts(fates)
        ensures exists i :: 0 <= i < |fates| && fates[i].Updated? && rows[i].host.id == h.id
      {
        if h in UpdatedHosts(init) {
          var i :| 0 <= i < |init| && init[i].Updated? && rows[i].host.id == h.id;
          assert fates[i].Updated?;
        } else {
          assert fates[|fates| - 1].Updated?;
        }
      }
    }
  }

  predicate Avoids(hosts: seq<Host>, id: Id) { forall i :: 0 <= i < |hosts| ==> hosts[i].id != id }

  lemma {:induction false} OverlayPasses(m: map<Id, Host>, hosts: seq<Host>, h: Host)
    requires Avoids(hosts, h.id)
    ensures Overlay(m[h.id := h], hosts) == Overlay(m, hosts)[h.id := h]
  {
    if hosts != [] {
      OverlayPasses(m, hosts[..|hosts| - 1], h);
    }
  }

  /** Saving row by row comes to the same as the additions first and the updates after. */
  lemma {:induction false} SavedIsAddsThenUpdates(m: map<Id, Host>, fates: seq<Fate>, rows: seq<Row>)
    requires |fates| <= |rows|
    requires forall i, j :: 0 <= i < j < |rows| ==> rows[i].host.id != rows[j].host.id
    requires forall i :: 0 <= i < |fates| && (fates[i].Added? || fates[i].Updated?) ==>
             fates[i].host.id == rows[i].host.id
    ensures Saved(m, fates) == Overlay(Overlay(m, AddedHosts(fates)), UpdatedHosts(fates))
  {
    if fates != [] {
      var init, last := fates[..|fates| - 1], fates[|fates| - 1];
      SavedIsAddsThenUpdates(m, init, rows);
      if last.Added? {
        assert (AddedHosts(init) + [last.host])[..|AddedHosts(init)|] == AddedHosts(init);
        FatesNameRows(init, rows);
        OverlayPasses(Overlay(m, AddedHosts(init)), UpdatedHosts(init), last.host);
      } else if last.Updated? {
        assert (UpdatedHosts(init) + [last.host])[..|UpdatedHosts(init)|] == UpdatedHosts(init);
      }
    }
  }

  // ----- The lists, edited in place, follow -----

  lemma {:induction false} OverlayHas(hosts: seq<Host>, id: Id)
    ensures id in Overlay(map[], hosts) <==> !Avoids(hosts, id)
  {
    if hosts != [] {
      OverlayHas(hosts[..|hosts| - 1], id);
    }
  }

  lemma {:induction false} LookupFinds(hosts: seq<Host>, id: Id)
    ensures Lookup(hosts, id).None? <==> Avoids(hosts, id)
  {
    if hosts != [] {
      LookupFinds(hosts[1..], id);
      assert hosts == [hosts[0]] + hosts[1..];
      if !Avoids(hosts[1..], id) {
        var i :| 0 <= i < |hosts[1..]| && hosts[1..][i].id == id;
        assert hosts[i + 1].id == id;
      }
    }
  }

  /** Replacing keeps every place, and puts the host where its id is. */
  lemma {:induction false} ReplaceAt(hosts: seq<Host>, h: Host)
    requires DistinctHosts(hosts)
    ensures |Replace(hosts, h)| == |hosts|
    ensures forall i :: 0 <= i < |hosts| ==> Replace(hosts, h)[i] == if hosts[i].id == h.id then h else hosts[i]
  {
    if hosts != [] {
      ReplaceAt(hosts[1..], h);
    }
  }

  lemma ReplaceKeepsIds(hosts: seq<Host>, h: Host)
    requires DistinctHosts(hosts)
    ensures DistinctHosts(Replace(hosts, h))
    ensures forall id :: Avoids(Replace(hosts, h), id) == Avoids(hosts, id)
    ensures Overlay(map[], Replace(hosts, h)).Keys == Overlay(map[], hosts).Keys
  {
    ReplaceAt(hosts, h);
    var r := Replace(hosts, h);
    assert forall i :: 0 <= i < |hosts| ==> r[i].id == hosts[i].id;
    OverlaysAgree(hosts, r);
  }

  lemma ReplacedValue(hosts: seq<Host>, h: Host, id: Id)
    requires DistinctHosts(hosts) && DistinctHosts(Replace(hosts, h))
    requires id in Overlay(map[], hosts) && id in Overlay(map[], Replace(hosts, h))
    ensures Overlay(map[], Replace(hosts, h))[id] == if id == h.id then h else Overlay(map[], hosts)[id]
  {
    OverlayHas(hosts, id);
    var i :| 0 <= i < |hosts| && hosts[i].id == id;
    ReplaceAt(hosts, h);
    OverlayAt(hosts);
    OverlayAt(Replace(hosts, h));
    assert Replace(hosts, h)[i].id == id;
  }

  lemma ReplaceOverlays(hosts: seq<Host>, h: Host)
    requires DistinctHosts(hosts) && !Avoids(hosts, h.id)
    ensures DistinctHosts(Replace(hosts, h))
    ensures Overlay(map[], Replace(hosts, h)) == Overlay(map[], hosts)[h.id := h]
    ensures forall id :: Avoids(Replace(hosts, h), id) == Avoids(hosts, id)
  {
    ReplaceKeepsIds(hosts, h);
    OverlayHas(hosts, h.id);
    forall id | id in Overlay(map[], hosts)
      ensures Overlay(map[], Replace(hosts, h))[id] == Overlay(map[], hosts)[h.id := h][id]
    {
      ReplacedValue(hosts, h, id);
    }
  }

  lemma {:induction false} OverlayAt(hosts: seq<Host>)
    requires DistinctHosts(hosts)
    ensures forall i :: 0 <= i < |hosts| ==>
            hosts[i].id in Overlay(map[], hosts) && Overlay(map[], hosts)[hosts[i].id] == hosts[i]
  {
    if hosts != [] {
      OverlayAt(hosts[..|hosts| - 1]);
    }
  }

  lemma {:induction false} OverlaysAgree(a: seq<Host>, b: seq<Host>)
    requires |a| == |b| && forall i :: 0 <= i < |a| ==> a[i].id == b[i].id
    ensures Overlay(map[], a).Keys == Overlay(map[], b).Keys
  {
    if a != [] {
      OverlaysAgree(a[..|a| - 1], b[..|b| - 1]);
    }
  }

  lemma {:induction false} ReplaceAllOverlays(hosts: seq<Host>, updated: seq<Host>)
    requires DistinctHosts(hosts) && forall h :: h in updated ==> !Avoids(hosts, h.id)
    ensures DistinctHosts(ReplaceAll(hosts, updated))
    ensures Overlay(map[], ReplaceAll(hosts, updated)) == Overlay(Overlay(map[], hosts), updated)
    ensures forall id :: Avoids(ReplaceAll(hosts, updated), id) == Avoids(hosts, id)
  {
    if updated != [] {
      ReplaceAllOverlays(hosts, updated[..|updated| - 1]);
      assert updated[|updated| - 1] in updated;
      ReplaceOverlays(ReplaceAll(hosts, updated[..|updated| - 1]), updated[|updated| - 1]);
    }
  }

  lemma {:induction false} WithoutSelects(hosts: seq<Host>, ids: set<Id>)
    ensures forall h :: h in Without(hosts, ids) ==> h in hosts
  {
    if hosts != [] {
      WithoutSelects(hosts[..|hosts| - 1], ids);
    }
  }

  lemma {:induction false} WithoutStaysDistinct(hosts: seq<Host>, ids: set<Id>)
    requires DistinctHosts(hosts)
    ensures DistinctHosts(Without(hosts, ids))
  {
    if hosts != [] {
      var init, last := hosts[..|hosts| - 1], hosts[|hosts| - 1];
      WithoutStaysDistinct(init, ids);
      WithoutSelects(init, ids);
      assert Avoids(Without(init, ids), last.id) by {
        forall i | 0 <= i < |Without(init, ids)|
          ensures Without(init, ids)[i].id != last.id
        {
          assert Without(init, ids)[i] in init;
        }
      }
    }
  }

  lemma {:induction false} WithoutOverlays(hosts: seq<Host>, ids: set<Id>)
    ensures Overlay(map[], Without(hosts, ids)) == Overlay(map[], hosts) - ids
  {
    if hosts != [] {
      var init, last := hosts[..|hosts| - 1], hosts[|hosts| - 1];
      WithoutOverlays(init, ids);
      if last.id !in ids {
        assert (Without(init, ids) + [last])[..|Without(init, ids)|] == Without(init, ids);
      }
    }
  }

  lemma {:induction false} AddsStayDistinct(live: seq<Host>, fates: seq<Fate>, rows: seq<Row>)
    requires |fates| <= |rows| && DistinctHosts(live) && Planned(rows, live)
    requires forall i :: 0 <= i < |fates| && (fates[i].Added? || fates[i].Updated?) ==>
             fates[i].host.id == rows[i].host.id
    requires forall i :: 0 <= i < |fates| && fates[i].Added? ==> rows[i].op.Add?
    ensures DistinctHosts(live + AddedHosts(fates))
  {
    if fates != [] {
      var init, last := fates[..|fates| - 1], fates[|fates| - 1];
      AddsStayDistinct(live, init, rows);
      if last.Added? {
        FatesNameRows(init, rows);
        LookupFinds(live, last.host.id);
        assert Avoids(AddedHosts(init), last.host.id) by {
          forall i | 0 <= i < |AddedHosts(init)|
            ensures AddedHosts(init)[i].id != last.host.id
          {
            assert AddedHosts(init)[i] in AddedHosts(init);
          }
        }
        assert live + AddedHosts(fates) == live + AddedHosts(init) + [last.host];
      }
    }
  }

  lemma UpdatesAreLive(live: seq<Host>, fates: seq<Fate>, rows: seq<Row>, h: Host)
    requires |fates| <= |rows| && h in UpdatedHosts(fates)
    requires forall i :: 0 <= i < |fates| && (fates[i].Added? || fates[i].Updated?) ==>
             fates[i].host.id == rows[i].host.id
    requires forall i :: 0 <= i < |fates| && fates[i].Updated? ==> Lookup(live, rows[i].host.id).Some?
    ensures !Avoids(live + AddedHosts(fates), h.id)
  {
    FatesNameRows(fates, rows);
    LookupFinds(live, h.id);
    var i :| 0 <= i < |live| && live[i].id == h.id;
    assert (live + AddedHosts(fates))[i].id == h.id;
  }

  /** After a save that goes through, memory is again exactly what the vault holds. */
  lemma SuccessMirrors(m: Memory, v: Vault, rows: seq<Row>, target: Option<Id>, next: Id, luck: Luck)
    requires Mirrors(m, v) && Planned(rows, m.hosts)
    ensures var (n, w, outcome) := SaveImport(m, v, rows, target, next, luck);
            outcome.Saving? ==> Mirrors(n, w)
  {
    PrepareLeads(m.folders, rows, |rows|, next);
    var p := Prepare(m.folders, rows, |rows|, next);
    var fates := Fates(rows, |rows|, m.hosts, p, target, luck);
    FoldersMirror(m, v, p);
    FatesFollowRows(rows, m.hosts, p, target, luck);
    HostsMirror(m, v, rows, fates, Removed(rows, |rows|, luck));
  }

  predicate FollowRows(fates: seq<Fate>, rows: seq<Row>, live: seq<Host>) {
    && |fates| == |rows|
    && (forall i :: 0 <= i < |fates| && (fates[i].Added? || fates[i].Updated?) ==> fates[i].host.id == rows[i].host.id)
    && (forall i :: 0 <= i < |fates| && fates[i].Added? ==> rows[i].op.Add?)
    && (forall i :: 0 <= i < |fates| && fates[i].Updated? ==> Lookup(live, rows[i].host.id).Some?)
  }

  lemma FatesFollowRows(rows: seq<Row>, live: seq<Host>, p: Paths, target: Option<Id>, luck: Luck)
    ensures FollowRows(Fates(rows, |rows|, live, p, target, luck), rows, live)
  {}

  lemma FoldersMirror(m: Memory, v: Vault, p: Paths)
    requires FoldersById(map[], m.folders) == v.folders && m.folders <= p.folders
    ensures FoldersById(map[], p.folders) == FoldersById(v.folders, p.folders[|m.folders|..])
  {
    assert m.folders + p.folders[|m.folders|..] == p.folders;
    FoldersConcat(map[], m.folders, p.folders[|m.folders|..]);
  }

  lemma HostsMirror(m: Memory, v: Vault, rows: seq<Row>, fates: seq<Fate>, gone: set<Id>)
    requires DistinctHosts(m.hosts) && Overlay(map[], m.hosts) == v.hosts && Planned(rows, m.hosts)
    requires FollowRows(fates, rows, m.hosts)
    ensures var hosts := Without(ReplaceAll(m.hosts + AddedHosts(fates), UpdatedHosts(fates)), gone);
            DistinctHosts(hosts) && Overlay(map[], hosts) == Saved(v.hosts, fates) - gone
  {
    var all := m.hosts + AddedHosts(fates);
    AddsStayDistinct(m.hosts, fates, rows);
    forall h | h in UpdatedHosts(fates)
      ensures !Avoids(all, h.id)
    {
      UpdatesAreLive(m.hosts, fates, rows, h);
    }
    ReplaceAllOverlays(all, UpdatedHosts(fates));
    OverlayConcat(map[], m.hosts, AddedHosts(fates));
    SavedIsAddsThenUpdates(v.hosts, fates, rows);
    WithoutStaysDistinct(ReplaceAll(all, UpdatedHosts(fates)), gone);
    WithoutOverlays(ReplaceAll(all, UpdatedHosts(fates)), gone);
  }

  // ----- What the save promises about each row -----

  lemma {:induction false} SavedTakes(m: map<Id, Host>, fates: seq<Fate>, rows: seq<Row>, i: nat)
    requires |fates| <= |rows| && i < |fates| && (fates[i].Added? || fates[i].Updated?)
    requires forall i, j :: 0 <= i < j < |rows| ==> rows[i].host.id != rows[j].host.id
    requires forall i :: 0 <= i < |fates| && (fates[i].Added? || fates[i].Updated?) ==>
             fates[i].host.id == rows[i].host.id
    ensures fates[i].host.id in Saved(m, fates) && Saved(m, fates)[fates[i].host.id] == fates[i].host
  {
    if i < |fates| - 1 {
      SavedTakes(m, fates[..|fates| - 1], rows, i);
    }
  }

  lemma {:induction false} SavedSparesTheRest(m: map<Id, Host>, fates: seq<Fate>, id: Id)
    requires forall i :: 0 <= i < |fates| && (fates[i].Added? || fates[i].Updated?) ==> fates[i].host.id != id
    ensures id in Saved(m, fates) <==> id in m
    ensures id in m ==> Saved(m, fates)[id] == m[id]
  {
    if fates != [] {
      SavedSparesTheRest(m, fates[..|fates| - 1], id);
    }
  }

  lemma {:induction false} RemovedNames(rows: seq<Row>, n: nat, luck: Luck)
    requires n <= |rows|
    ensures forall id :: id in Removed(rows, n, luck) <==>
                         exists i :: 0 <= i < n && rows[i].op.Remove? && rows[i].host.id == id && id !in luck.refused
  {
    if n > 0 {
      RemovedNames(rows, n - 1, luck);
    }
  }

  lemma SavingIs(m: Memory, v: Vault, rows: seq<Row>, target: Option<Id>, next: Id, luck: Luck)
    requires SaveImport(m, v, rows, target, next, luck).2.Saving?
    ensures var (n, w, outcome) := SaveImport(m, v, rows, target, next, luck);
            var p := Prepare(m.folders, rows, |rows|, next);
            && outcome.fates == Fates(rows, |rows|, m.hosts, p, target, luck)
            && w.hosts == Saved(v.hosts, outcome.fates) - Removed(rows, |rows|, luck)
            && n.folders == p.folders
  {}

  /** What a row came to is what the vault holds. */
  predicate RowWritten(row: Row, fate: Fate, hosts: map<Id, Host>, luck: Luck) {
    && (fate.Added? || fate.Updated? ==>
         fate.host.id == row.host.id && fate.host.id in hosts && hosts[fate.host.id] == fate.host)
    && (fate.Removal? <==> row.op.Remove?)
    && (fate.Removal? && row.host.id !in luck.refused ==> row.host.id !in hosts)
  }

  lemma FatesWritten(v: Vault, rows: seq<Row>, live: seq<Host>, fates: seq<Fate>, luck: Luck, i: nat)
    requires Planned(rows, live) && i < |rows| && FollowRows(fates, rows, live)
    requires fates[i].Removal? <==> rows[i].op.Remove?
    ensures RowWritten(rows[i], fates[i], Saved(v.hosts, fates) - Removed(rows, |rows|, luck), luck)
  {
    RemovedNames(rows, |rows|, luck);
    if fates[i].Added? || fates[i].Updated? {
      SavedTakes(v.hosts, fates, rows, i);
    }
  }

  lemma OnlyRemovalsRemove(row: Row, live: seq<Host>, p: Paths, target: Option<Id>, luck: Luck)
    ensures FateOf(row, live, p, target, luck).Removal? <==> row.op.Remove?
  {}

  /** Every row saved is in the vault as it was to be written; a removal is gone. */
  lemma RowsAreWritten(m: Memory, v: Vault, rows: seq<Row>, target: Option<Id>, next: Id, luck: Luck, i: nat)
    requires Planned(rows, m.hosts) && i < |rows|
    requires SaveImport(m, v, rows, target, next, luck).2.Saving?
    ensures var (n, w, outcome) := SaveImport(m, v, rows, target, next, luck);
            i < |outcome.fates| && RowWritten(rows[i], outcome.fates[i], w.hosts, luck)
  {
    SavingIs(m, v, rows, target, next, luck);
    var p := Prepare(m.folders, rows, |rows|, next);
    FatesFollowRows(rows, m.hosts, p, target, luck);
    OnlyRemovalsRemove(rows[i], m.hosts, p, target, luck);
    FatesWritten(v, rows, m.hosts, Fates(rows, |rows|, m.hosts, p, target, luck), luck, i);
  }

  /** The row asks to change this host, and shows it as memory has it now. */
  predicate MayOverwrite(row: Row, live: seq<Host>, id: Id) {
    && row.host.id == id && row.op.Update? && row.op.changes != {}
    && Lookup(live, id).Some? && Lookup(live, id).value.stamp == row.host.stamp
  }

  /**
   A host the vault had is overwritten only by a row that showed it as it still was, and removed only by a
   removal row.
   */
  lemma OnlyShownHostsAreOverwritten(
      m: Memory, v: Vault, rows: seq<Row>, target: Option<Id>, next: Id, luck: Luck, id: Id)
    requires Mirrors(m, v) && Planned(rows, m.hosts) && id in v.hosts
    ensures var (n, w, outcome) := SaveImport(m, v, rows, target, next, luck);
            outcome.Saving? ==>
              && (id in w.hosts && w.hosts[id] != v.hosts[id] ==>
                   exists i :: 0 <= i < |rows| && MayOverwrite(rows[i], m.hosts, id))
              && (id !in w.hosts ==> exists i :: 0 <= i < |rows| && rows[i].op.Remove? && rows[i].host.id == id)
  {
    var p := Prepare(m.folders, rows, |rows|, next);
    var fates := Fates(rows, |rows|, m.hosts, p, target, luck);
    FatesFollowRows(rows, m.hosts, p, target, luck);
    RemovedNames(rows, |rows|, luck);
    OverlayHas(m.hosts, id);
    LookupFinds(m.hosts, id);
    if forall i :: 0 <= i < |rows| ==> !MayOverwrite(rows[i], m.hosts, id) {
      forall i | 0 <= i < |fates| && (fates[i].Added? || fates[i].Updated?)
        ensures fates[i].host.id != id
      {
        assert fates[i] == FateOf(rows[i], m.hosts, p, target, luck);
        assert !MayOverwrite(rows[i], m.hosts, id);
      }
      SavedSparesTheRest(v.hosts, fates, id);
    } else {
      var i :| 0 <= i < |rows| && MayOverwrite(rows[i], m.hosts, id);
      SavedKeepsKeys(v.hosts, fates, id);
    }
  }

  lemma {:induction false} SavedKeepsKeys(m: map<Id, Host>, fates: seq<Fate>, id: Id)
    requires id in m
    ensures id in Saved(m, fates)
  {
    if fates != [] {
      SavedKeepsKeys(m, fates[..|fates| - 1], id);
    }
  }

  lemma FiledWherePathLeads(row: Row, live: seq<Host>, p: Paths, target: Option<Id>, luck: Luck)
    requires row.plan.Create? && row.plan.path in p.gids
    ensures var fate := FateOf(row, live, p, target, luck);
            fate.Added? || fate.Updated? ==> fate.host.group == p.gids[row.plan.path]
  {}

  /** A row sent to a folder that did not exist is filed where its path now leads. */
  lemma CreatedFoldersAreReached(m: Memory, v: Vault, rows: seq<Row>, target: Option<Id>, next: Id, luck: Luck, i: nat)
    requires i < |rows| && rows[i].plan.Create?
    requires SaveImport(m, v, rows, target, next, luck).2.Saving?
    ensures var (n, w, outcome) := SaveImport(m, v, rows, target, next, luck);
            && i < |outcome.fates|
            && (outcome.fates[i].Added? || outcome.fates[i].Updated? ==>
                  Walk(n.folders, rows[i].plan.path, None) == Some(outcome.fates[i].host.group))
  {
    PrepareLeads(m.folders, rows, |rows|, next);
    var p := Prepare(m.folders, rows, |rows|, next);
    SavingIs(m, v, rows, target, next, luck);
    FiledWherePathLeads(rows[i], m.hosts, p, target, luck);
  }

  /** Where a saved row's host is to be filed; `folders` is the list the save leaves. */
  predicate FiledAsAsked(row: Row, group: Option<Id>, target: Option<Id>, folders: seq<Folder>) {
    match row.plan
    case Open => group == if row.op.Add? then target else row.host.group
    case Keep => group == row.host.group
    case Root => group == None
    case Existing(id) => group == Some(id) && exists i :: 0 <= i < |folders| && folders[i].id == id
    case Create(path) => Walk(folders, path, None) == Some(group)
  }

  /**
   A saved row's host is in the vault with the name and the settings the row asks
   for, filed where it asks; an update bears the time of the save, an addition the
   row's own.
   */
  lemma SavedAsAsked(m: Memory, v: Vault, rows: seq<Row>, target: Option<Id>, next: Id, luck: Luck, i: nat)
    requires Planned(rows, m.hosts) && i < |rows|
    requires SaveImport(m, v, rows, target, next, luck).2.Saving?
    ensures var (n, w, outcome) := SaveImport(m, v, rows, target, next, luck);
            var row := rows[i];
            && i < |outcome.fates|
            && (outcome.fates[i].Added? || outcome.fates[i].Updated? ==>
                  && row.host.id in w.hosts
                  && var host := w.hosts[row.host.id];
                     && host.name == row.host.name && host.settings == row.host.settings
                     && host.stamp == (if row.op.Update? then luck.now else row.host.stamp)
                     && FiledAsAsked(row, host.group, target, n.folders))
  {
    RowsAreWritten(m, v, rows, target, next, luck, i);
    SavingIs(m, v, rows, target, next, luck);
    var p := Prepare(m.folders, rows, |rows|, next);
    PrepareLeads(m.folders, rows, |rows|, next);
    FateIsAsAsked(rows[i], m.hosts, p, target, luck);
  }

  lemma FateIsAsAsked(row: Row, live: seq<Host>, p: Paths, target: Option<Id>, luck: Luck)
    requires PathsLead(p) && (row.plan.Create? ==> row.plan.path in p.gids)
    ensures var fate := FateOf(row, live, p, target, luck);
            fate.Added? || fate.Updated? ==>
              && fate.host.name == row.host.name && fate.host.settings == row.host.settings
              && fate.host.stamp == (if row.op.Update? then luck.now else row.host.stamp)
              && FiledAsAsked(row, fate.host.group, target, p.folders)
  {}

  /** The row is an addition, or changes something of a host that is still as the row shows it. */
  predicate Asks(row: Row, v: Vault) {
    || row.op.Add?
    || (row.op.Update? && row.op.changes != {}
        && row.host.id in v.hosts && v.hosts[row.host.id].stamp == row.host.stamp)
  }

  predicate FolderStands(row: Row, folders: seq<Folder>) {
    row.plan.Existing? ==> exists i :: 0 <= i < |folders| && folders[i].id == row.plan.id
  }

  lemma {:induction false} LookupIsThere(hosts: seq<Host>, id: Id)
    ensures var shown := Lookup(hosts, id);
            shown.Some? ==> shown.value.id == id && exists i :: 0 <= i < |hosts| && hosts[i] == shown.value
  {
    if hosts != [] && hosts[0].id != id {
      LookupIsThere(hosts[1..], id);
      if Lookup(hosts, id).Some? {
        var i :| 0 <= i < |hosts[1..]| && hosts[1..][i] == Lookup(hosts, id).value;
        assert hosts[i + 1] == Lookup(hosts, id).value;
      }
    }
  }

  function Held(v: Vault, id: Id): Option<Host> { if id in v.hosts then Some(v.hosts[id]) else None }

  /** What memory shows of a host is what the vault has. */
  lemma ShownIsHeld(m: Memory, v: Vault, id: Id)
    requires Mirrors(m, v)
    ensures Lookup(m.hosts, id) == Held(v, id)
  {
    OverlayHas(m.hosts, id);
    LookupFinds(m.hosts, id);
    LookupIsThere(m.hosts, id);
    OverlayAt(m.hosts);
  }

  /** What a row comes to: the one of these that applies, and nothing else. */
  predicate ComesTo(row: Row, fate: Fate, v: Vault, folders: seq<Folder>, refused: set<Id>) {
    var changed := row.op.Update? && row.op.changes != {};
    var held := row.host.id in v.hosts;
    var saved := Asks(row, v) && FolderStands(row, folders) && row.host.id !in refused;
    && (fate.Removal? <==> row.op.Remove?)
    && (fate.Unchanged? <==> row.op.Update? && row.op.changes == {})
    && (fate.HostGone? <==> changed && !held)
    && (fate.HostChanged? <==> changed && held && v.hosts[row.host.id].stamp != row.host.stamp)
    && (fate.FolderGone? <==> Asks(row, v) && !FolderStands(row, folders))
    && (fate.NotSaved? <==> Asks(row, v) && FolderStands(row, folders) && row.host.id in refused)
    && (fate.Added? <==> saved && row.op.Add?)
    && (fate.Updated? <==> saved && row.op.Update?)
  }

  lemma FateIsWhatApplies(row: Row, live: seq<Host>, v: Vault, p: Paths, target: Option<Id>, luck: Luck)
    requires Lookup(live, row.host.id) == Held(v, row.host.id)
    ensures ComesTo(row, FateOf(row, live, p, target, luck), v, p.folders, luck.refused)
  {
    assert FolderStands(row, p.folders) <==> Filing(row, p, target).Some?;
  }

  /** Every row comes to exactly what the vault, the folders left and the refusals make of it. */
  lemma FatesExactly(m: Memory, v: Vault, rows: seq<Row>, target: Option<Id>, next: Id, luck: Luck, i: nat)
    requires Mirrors(m, v) && Planned(rows, m.hosts) && i < |rows|
    requires SaveImport(m, v, rows, target, next, luck).2.Saving?
    ensures var (n, w, outcome) := SaveImport(m, v, rows, target, next, luck);
            i < |outcome.fates| && ComesTo(rows[i], outcome.fates[i], v, n.folders, luck.refused)
  {
    SavingIs(m, v, rows, target, next, luck);
    ShownIsHeld(m, v, rows[i].host.id);
    FateIsWhatApplies(rows[i], m.hosts, v, Prepare(m.folders, rows, |rows|, next), target, luck);
  }

  /** A record no row saves and no row removes is as it was. */
  lemma TheRestIsKept(m: Memory, v: Vault, rows: seq<Row>, target: Option<Id>, next: Id, luck: Luck, id: Id)
    requires Mirrors(m, v) && Planned(rows, m.hosts)
    requires SaveImport(m, v, rows, target, next, luck).2.Saving?
    requires forall i :: 0 <= i < |rows| && rows[i].host.id == id ==>
               id in luck.refused || !(rows[i].op.Remove? || (Asks(rows[i], v)
                                        && FolderStands(rows[i], SaveImport(m, v, rows, target, next, luck).0.folders)))
    ensures var w := SaveImport(m, v, rows, target, next, luck).1;
            (id in w.hosts <==> id in v.hosts) && (id in v.hosts ==> w.hosts[id] == v.hosts[id])
  {
    SavingIs(m, v, rows, target, next, luck);
    var fates := SaveImport(m, v, rows, target, next, luck).2.fates;
    forall i | 0 <= i < |fates| && (fates[i].Added? || fates[i].Updated?)
      ensures fates[i].host.id != id
    {
      FatesExactly(m, v, rows, target, next, luck, i);
      RowsAreWritten(m, v, rows, target, next, luck, i);
    }
    SavedSparesTheRest(v.hosts, fates, id);
    RemovedNames(rows, |rows|, luck);
  }

  // ----- A save that fails -----

  lemma {:induction false} FoldersHave(m: map<Id, Folder>, folders: seq<Folder>, i: nat)
    requires i < |folders|
    ensures folders[i].id in FoldersById(m, folders)
  {
    if i < |folders| - 1 {
      FoldersHave(m, folders[..|folders| - 1], i);
    }
  }

  /**
   How a save ends: at a folder exactly when the vault refuses one of the new ones,
   at the commit exactly when it refuses none and the batch did not open or does not
   commit, and otherwise with every row's fate.
   */
  lemma OutcomeExactly(m: Memory, v: Vault, rows: seq<Row>, target: Option<Id>, next: Id, luck: Luck)
    ensures var outcome := SaveImport(m, v, rows, target, next, luck).2;
            var folders := Prepare(m.folders, rows, |rows|, next).folders;
            var stopped := exists i :: |m.folders| <= i < |folders| && folders[i].id in luck.refused;
            && m.folders <= folders
            && (outcome.FolderFailed? <==> stopped)
            && (outcome.CommitFailed? <==> !stopped && !(luck.begins && luck.commits))
            && (outcome.Saving? <==> !stopped && luck.begins && luck.commits)
  {
    PrepareLeads(m.folders, rows, |rows|, next);
    var folders := Prepare(m.folders, rows, |rows|, next).folders;
    var created := folders[|m.folders|..];
    var k := FirstRefused(created, luck.refused, 0);
    assert forall j :: 0 <= j < |created| ==> created[j] == folders[|m.folders| + j];
    forall i | |m.folders| <= i < |folders| && folders[i].id in luck.refused
      ensures k < |created|
    {
      assert created[i - |m.folders|] == folders[i];
    }
  }

  /**
   A save stopped at a folder leaves memory as it was, and the vault too - exactly
   when the batch had opened, or the very first new folder was the one refused.
   */
  lemma FolderFailureUndone(m: Memory, v: Vault, rows: seq<Row>, target: Option<Id>, next: Id, luck: Luck)
    requires SaveImport(m, v, rows, target, next, luck).2.FolderFailed?
    requires forall id :: id in v.folders ==> id < next
    ensures var (n, w, outcome) := SaveImport(m, v, rows, target, next, luck);
            var folders := Prepare(m.folders, rows, |rows|, next).folders;
            && n == m && |m.folders| < |folders|
            && (w == v <==> luck.begins || folders[|m.folders|].id in luck.refused)
  {
    PrepareLeads(m.folders, rows, |rows|, next);
    var p := Prepare(m.folders, rows, |rows|, next);
    var created := p.folders[|m.folders|..];
    var k := FirstRefused(created, luck.refused, 0);
    assert created[0] == p.folders[|m.folders|];
    if !luck.begins && k > 0 {
      FoldersHave(v.folders, created[..k], 0);
      assert created[..k][0].id >= next;
    }
  }

  /** No folder was made, no host added and none updated: there was nothing to commit. */
  ghost predicate NothingWritten(m: Memory, rows: seq<Row>, p: Paths, target: Option<Id>, luck: Luck) {
    && |p.folders| == |m.folders|
    && forall i {:trigger FateOf(rows[i], m.hosts, p, target, luck)} :: 0 <= i < |rows| ==>
         !FateOf(rows[i], m.hosts, p, target, luck).Added? && !FateOf(rows[i], m.hosts, p, target, luck).Updated?
  }

  lemma {:induction false} SavedNothing(m: map<Id, Host>, fates: seq<Fate>)
    requires forall i :: 0 <= i < |fates| ==> !fates[i].Added? && !fates[i].Updated?
    ensures Saved(m, fates) == m
  {
    if fates != [] {
      SavedNothing(m, fates[..|fates| - 1]);
    }
  }

  /** A host the save writes is not the one the vault had: it is new, or stamped later. */
  lemma SavedShows(m: Memory, v: Vault, rows: seq<Row>, fates: seq<Fate>, i: nat, now: nat)
    requires Mirrors(m, v) && Planned(rows, m.hosts) && FollowRows(fates, rows, m.hosts) && i < |rows|
    requires forall j :: 0 <= j < |m.hosts| ==> m.hosts[j].stamp < now
    requires fates[i].Added? || (fates[i].Updated? && fates[i].host.stamp == now)
    ensures Saved(v.hosts, fates) != v.hosts
  {
    var id := fates[i].host.id;
    SavedTakes(v.hosts, fates, rows, i);
    OverlayHas(m.hosts, id);
    LookupFinds(m.hosts, id);
    OverlayAt(m.hosts);
    if fates[i].Updated? {
      var j :| 0 <= j < |m.hosts| && m.hosts[j].id == id;
      assert v.hosts[id] == m.hosts[j];
    }
  }

  lemma UpdatesAreStamped(row: Row, live: seq<Host>, p: Paths, target: Option<Id>, luck: Luck)
    ensures var fate := FateOf(row, live, p, target, luck);
            fate.Updated? ==> fate.host.stamp == luck.now
  {}

  /**
   A failed commit leaves memory as it was, and the vault too - exactly when the
   batch had opened, or nothing had been written. The clock is past every stamp
   in memory, so an update shows.
   */
  lemma CommitFailureUndone(m: Memory, v: Vault, rows: seq<Row>, target: Option<Id>, next: Id, luck: Luck)
    requires Mirrors(m, v) && Planned(rows, m.hosts)
    requires SaveImport(m, v, rows, target, next, luck).2.CommitFailed?
    requires forall id :: id in v.folders ==> id < next
    requires forall j :: 0 <= j < |m.hosts| ==> m.hosts[j].stamp < luck.now
    ensures var (n, w, outcome) := SaveImport(m, v, rows, target, next, luck);
            var p := Prepare(m.folders, rows, |rows|, next);
            && n == m
            && (w == v <==> luck.begins || NothingWritten(m, rows, p, target, luck))
            && (Mirrors(n, w) <==> luck.begins || NothingWritten(m, rows, p, target, luck))
  {
    if !luck.begins {
      PrepareLeads(m.folders, rows, |rows|, next);
      var p := Prepare(m.folders, rows, |rows|, next);
      UnopenedCommit(m, v, rows, p, target, luck);
    }
  }

  /** What stays in the vault when there was no batch to roll back. */
  lemma UnopenedCommit(m: Memory, v: Vault, rows: seq<Row>, p: Paths, target: Option<Id>, luck: Luck)
    requires Mirrors(m, v) && Planned(rows, m.hosts) && m.folders <= p.folders
    requires forall i :: |m.folders| <= i < |p.folders| ==> p.folders[i].id !in v.folders
    requires forall j :: 0 <= j < |m.hosts| ==> m.hosts[j].stamp < luck.now
    ensures SavedVault(v, p.folders[|m.folders|..], Fates(rows, |rows|, m.hosts, p, target, luck), {}) == v
       <==> NothingWritten(m, rows, p, target, luck)
  {
    var created, fates := p.folders[|m.folders|..], Fates(rows, |rows|, m.hosts, p, target, luck);
    var none: set<Id> := {};
    assert Saved(v.hosts, fates) - none == Saved(v.hosts, fates);
    FatesFollowRows(rows, m.hosts, p, target, luck);
    if created != [] {
      FoldersHave(v.folders, created, 0);
      assert created[0] == p.folders[|m.folders|];
    }
    forall i | 0 <= i < |rows| && (fates[i].Added? || fates[i].Updated?)
      ensures Saved(v.hosts, fates) != v.hosts
    {
      UpdatesAreStamped(rows[i], m.hosts, p, target, luck);
      SavedShows(m, v, rows, fates, i, luck.now);
    }
    if NothingWritten(m, rows, p, target, luck) {
      forall i | 0 <= i < |fates|
        ensures !fates[i].Added? && !fates[i].Updated?
      {
        assert fates[i] == FateOf(rows[i], m.hosts, p, target, luck);
      }
      SavedNothing(v.hosts, fates);
    }
  }
}
