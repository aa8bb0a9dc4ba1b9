/**
 The folder transport: any number of devices over one directory, with an atomic
 rename and nothing stronger. A round reads the target, merges it, writes a temp
 file of its own and renames it over the target; rounds interleave freely and
 overwrite each other.
 */
module FolderSync {
  import opened Options
  import opened Records
  import opened SyncRounds

  /** A temp file opened for writing is partial until its last byte is in. */
  datatype File = Partial | Whole(snapshot: Vault)

  datatype Phase =
    | Idle
    | Reading
    | Merging(file: File)
    | Building
    | Opening(snapshot: Vault)
    | Filling(snapshot: Vault)
    | Renaming(snapshot: Vault)

  type Tag = nat

  datatype Device = Device(vault: Vault, tag: Tag, phase: Phase)

  datatype Install = Install(author: nat, snapshot: Vault)

  /** `installed` lists every snapshot ever renamed into place, and by whom. */
  datatype Folder = Folder(target: Option<File>, temps: map<Tag, File>, devices: seq<Device>, installed: seq<Install>)

  datatype Event =
    | Edit(d: nat, id: Id, entry: Entry)
    | Start(d: nat)
    | Read(d: nat)
    | MergeFile(d: nat, now: Stamp)
    | Build(d: nat)
    | OpenTemp(d: nat)
    | FillTemp(d: nat, ok: bool)
    | Rename(d: nat, ok: bool)
    | GiveUp(d: nat)  // any other failure that ends the round

  predicate Enabled(f: Folder, ev: Event) {
    ev.d < |f.devices| &&
    match ev
    case Edit(_, _, _) => true
    case Start(d) => f.devices[d].phase.Idle?
    case Read(d) => f.devices[d].phase.Reading?
    case MergeFile(d, _) => f.devices[d].phase.Merging?
    case Build(d) => f.devices[d].phase.Building?
    case OpenTemp(d) => f.devices[d].phase.Opening?
    case FillTemp(d, _) => f.devices[d].phase.Filling?
    case Rename(d, _) => f.devices[d].phase.Renaming?
    case GiveUp(d) => !f.devices[d].phase.Idle?
  }

  function To(f: Folder, d: nat, phase: Phase): Folder
    requires d < |f.devices|
  {
    f.(devices := f.devices[d := f.devices[d].(phase := phase)])
  }

  /** One step; an event whose moment has not come changes nothing. */
  function Next(f: Folder, ev: Event): Folder {
    if !Enabled(f, ev) then f
    else
      var v := f.devices[ev.d];
      match ev
      case Edit(d, id, entry) => f.(devices := f.devices[d := v.(vault := v.vault[id := entry])])
      case Start(d) => To(f, d, Reading)
      case Read(d) => To(f, d, if f.target.None? then Building else Merging(f.target.value))
      case MergeFile(d, now) =>
        if v.phase.file.Partial? then To(f, d, Idle)
        else f.(devices := f.devices[d := v.(vault := Merge(v.vault, v.phase.file.snapshot, now), phase := Building)])
      case Build(d) => To(f, d, Opening(v.vault))
      case OpenTemp(d) => To(f, d, Filling(v.phase.snapshot)).(temps := f.temps[v.tag := Partial])
      case FillTemp(d, ok) =>
        if ok then To(f, d, Renaming(v.phase.snapshot)).(temps := f.temps[v.tag := Whole(v.phase.snapshot)])
        else To(f, d, Idle)
      case Rename(d, ok) =>
        if ok && v.tag in f.temps then
          To(f, d, Idle).(target := Some(f.temps[v.tag]), temps := f.temps - {v.tag},
                          installed := f.installed + [Install(d, v.phase.snapshot)])
        else To(f, d, Idle).(temps := f.temps - {v.tag})
      case GiveUp(d) => To(f, d, Idle)
  }

  function Run(f: Folder, evs: seq<Event>, n: nat): (r: Folder)
    requires n <= |evs|
    ensures |r.devices| == |f.devices|
  {
    if n == 0 then f else Next(Run(f, evs, n - 1), evs[n - 1])
  }

  // ----- The invariant -----

  ghost predicate DistinctTags(f: Folder) {
    forall d, e :: 0 <= d < e < |f.devices| ==> f.devices[d].tag != f.devices[e].tag
  }

  ghost predicate TargetWhole(f: Folder) {
    f.target.Some? ==> f.target.value.Whole?
  }

  /** A device about to rename holds its whole snapshot in its own temp file. */
  ghost predicate TempsReady(f: Folder) {
    forall d :: 0 <= d < |f.devices| && f.devices[d].phase.Renaming? ==>
      f.devices[d].tag in f.temps && f.temps[f.devices[d].tag] == Whole(f.devices[d].phase.snapshot)
  }

  /** What a device has read or built is whole, and what it has built is below its vault. */
  ghost predicate InHand(v: Device) {
    && (v.phase.Merging? ==> v.phase.file.Whole?)
    && (v.phase.Opening? || v.phase.Filling? || v.phase.Renaming? ==> Leq(v.phase.snapshot, v.vault))
  }

  ghost predicate AuthorsKeep(f: Folder) {
    forall i {:trigger f.installed[i]} :: 0 <= i < |f.installed| ==>
      f.installed[i].author < |f.devices| && Leq(f.installed[i].snapshot, f.devices[f.installed[i].author].vault)
  }

  ghost predicate FolderOk(f: Folder) {
    && DistinctTags(f) && TargetWhole(f) && TempsReady(f) && AuthorsKeep(f)
    && forall d {:trigger InHand(f.devices[d])} :: 0 <= d < |f.devices| ==> InHand(f.devices[d])
  }

  /** Devices at rest under different tags, over no file or a whole one, are a good start. */
  lemma RestIsOk(f: Folder)
    requires DistinctTags(f) && TargetWhole(f) && f.installed == []
    requires forall d :: 0 <= d < |f.devices| ==> f.devices[d].phase.Idle?
    ensures FolderOk(f)
  {}

  ghost predicate WellClocked(f: Folder, ev: Event) {
    Enabled(f, ev) ==>
      match ev
      case Edit(d, id, entry) => id in f.devices[d].vault ==> f.devices[d].vault[id].stamp < entry.stamp
      case MergeFile(d, now) =>
        f.devices[d].phase.file.Whole? ==>
          Agree(f.devices[d].vault, f.devices[d].phase.file.snapshot)
          && ClockAhead(f.devices[d].vault, f.devices[d].phase.file.snapshot, now)
      case _ => true
  }

  lemma NextKeepsHands(f: Folder, ev: Event)
    requires FolderOk(f) && WellClocked(f, ev)
    ensures forall d :: 0 <= d < |f.devices| ==> InHand(Next(f, ev).devices[d])
  {
    forall d | 0 <= d < |f.devices|
      ensures InHand(Next(f, ev).devices[d])
    {
      var v := f.devices[d];
      assert InHand(v);
      if v.phase.Opening? || v.phase.Filling? || v.phase.Renaming? {
        LeqTransitive(v.phase.snapshot, v.vault, Next(f, ev).devices[d].vault);
      }
    }
  }

  lemma NextKeepsAuthors(f: Folder, ev: Event)
    requires FolderOk(f) && WellClocked(f, ev)
    ensures AuthorsKeep(Next(f, ev))
  {
    var r := Next(f, ev);
    forall i | 0 <= i < |r.installed|
      ensures r.installed[i].author < |r.devices|
              && Leq(r.installed[i].snapshot, r.devices[r.installed[i].author].vault)
    {
      if i < |f.installed| {
        assert r.installed[i] == f.installed[i];
        var a := f.installed[i].author;
        LeqTransitive(f.installed[i].snapshot, f.devices[a].vault, r.devices[a].vault);
      } else {
        assert InHand(f.devices[ev.d]);
      }
    }
  }

  lemma NextKeeps(f: Folder, ev: Event)
    requires FolderOk(f) && WellClocked(f, ev)
    ensures FolderOk(Next(f, ev))
  {
    NextKeepsHands(f, ev);
    NextKeepsAuthors(f, ev);
  }

  ghost predicate ClockedAt(f: Folder, evs: seq<Event>, i: nat)
    requires i < |evs|
  {
    WellClocked(Run(f, evs, i), evs[i])
  }

  ghost predicate RunsWellClocked(f: Folder, evs: seq<Event>, n: nat)
    requires n <= |evs|
  {
    forall i {:trigger ClockedAt(f, evs, i)} :: 0 <= i < n ==> ClockedAt(f, evs, i)
  }

  lemma RunStepKeeps(f: Folder, evs: seq<Event>, n: nat)
    requires n < |evs| && FolderOk(Run(f, evs, n)) && ClockedAt(f, evs, n)
    ensures FolderOk(Run(f, evs, n + 1))
  {
    NextKeeps(Run(f, evs, n), evs[n]);
  }

  /**
   At every step of every interleaving the target is absent or one complete
   snapshot, and whatever was ever installed, its author's vault still holds
   every record of it at that version or a later one, overwritten or not.
   */
  lemma {:induction false} FolderStaysWhole(f: Folder, evs: seq<Event>, n: nat)
    requires n <= |evs| && FolderOk(f) && RunsWellClocked(f, evs, n)
    ensures FolderOk(Run(f, evs, n))
  {
    if n > 0 {
      FolderStaysWhole(f, evs, n - 1);
      assert ClockedAt(f, evs, n - 1);
      RunStepKeeps(f, evs, n - 1);
    }
  }

  lemma NextRaises(f: Folder, ev: Event, d: nat)
    requires FolderOk(f) && WellClocked(f, ev) && d < |f.devices|
    ensures Leq(f.devices[d].vault, Next(f, ev).devices[d].vault)
  {
    if Enabled(f, ev) && ev.MergeFile? && ev.d == d {
      assert InHand(f.devices[d]);
      MergeDominates(f.devices[d].vault, f.devices[d].phase.file.snapshot, ev.now);
    }
  }

  /**
   Whatever is overwritten in the folder, no device's own vault ever drops a record or goes back to an older
   version of one.
   */
  lemma {:induction false} NoVaultGoesBack(f: Folder, evs: seq<Event>, m: nat, n: nat, d: nat)
    requires m <= n <= |evs| && FolderOk(f) && RunsWellClocked(f, evs, n) && d < |f.devices|
    ensures Leq(Run(f, evs, m).devices[d].vault, Run(f, evs, n).devices[d].vault)
    decreases n
  {
    if m < n {
      NoVaultGoesBack(f, evs, m, n - 1, d);
      FolderStaysWhole(f, evs, n - 1);
      assert ClockedAt(f, evs, n - 1);
      NextRaises(Run(f, evs, n - 1), evs[n - 1], d);
      LeqTransitive(Run(f, evs, m).devices[d].vault, Run(f, evs, n - 1).devices[d].vault,
          Run(f, evs, n).devices[d].vault);
    }
  }

  // ----- Runs put together -----

  lemma {:induction false} RunPrefix(f: Folder, a: seq<Event>, b: seq<Event>, n: nat)
    requires n <= |a|
    ensures Run(f, a + b, n) == Run(f, a, n)
  {
    if n > 0 {
      RunPrefix(f, a, b, n - 1);
    }
  }

  lemma {:induction false} RunConcat(f: Folder, a: seq<Event>, b: seq<Event>, n: nat)
    requires n <= |b|
    ensures Run(f, a + b, |a| + n) == Run(Run(f, a, |a|), b, n)
  {
    if n > 0 {
      RunConcat(f, a, b, n - 1);
      assert (a + b)[|a| + n - 1] == b[n - 1];
    } else {
      RunPrefix(f, a, b, |a|);
    }
  }

  /** A round up to the moment its temp file is open and not yet written. */
  function Opened(d: nat, now: Stamp): seq<Event> {
    [Start(d), Read(d), MergeFile(d, now), Build(d), OpenTemp(d)]
  }

  /** What the device's vault becomes on top of the target it reads. */
  function Absorbing(f: Folder, d: nat, now: Stamp): Vault
    requires d < |f.devices| && (f.target.Some? ==> f.target.value.Whole?)
  {
    if f.target.None? then f.devices[d].vault else Merge(f.devices[d].vault, f.target.value.snapshot, now)
  }

  lemma UpToMerge(f: Folder, d: nat, now: Stamp)
    requires d < |f.devices| && f.devices[d].phase.Idle? && TargetWhole(f)
    ensures Run(f, Opened(d, now), 3)
         == f.(devices := f.devices[d := Device(Absorbing(f, d, now), f.devices[d].tag, Building)])
  {
    var evs := Opened(d, now);
    assert Run(f, evs, 0) == f;
    var s1 := To(f, d, Reading);
    assert Run(f, evs, 1) == s1;
    var s2 := To(f, d, if f.target.None? then Building else Merging(f.target.value));
    assert s1.devices[d := s2.devices[d]] == s2.devices;
    assert Run(f, evs, 2) == s2;
    assert s2.devices[d := Device(Absorbing(f, d, now), f.devices[d].tag, Building)]
        == f.devices[d := Device(Absorbing(f, d, now), f.devices[d].tag, Building)];
  }

  lemma UpToBuild(f: Folder, d: nat, now: Stamp)
    requires d < |f.devices| && f.devices[d].phase.Idle? && TargetWhole(f)
    ensures Run(f, Opened(d, now), 4)
         == f.(devices := f.devices[d := Device(Absorbing(f, d, now), f.devices[d].tag, Opening(Absorbing(f, d, now)))])
  {
    UpToMerge(f, d, now);
    var s3 := Run(f, Opened(d, now), 3);
    var last := Device(Absorbing(f, d, now), f.devices[d].tag, Opening(Absorbing(f, d, now)));
    assert s3.devices[d := last] == f.devices[d := last];
  }

  /** Device `d` has vault `m` and its temp file open; then the same with the file written; then installed. */
  function OpenState(f: Folder, d: nat, m: Vault): Folder
    requires d < |f.devices|
  {
    var tag := f.devices[d].tag;
    f.(devices := f.devices[d := Device(m, tag, Filling(m))], temps := f.temps[tag := Partial])
  }

  function FullState(f: Folder, d: nat, m: Vault): Folder
    requires d < |f.devices|
  {
    var tag := f.devices[d].tag;
    f.(devices := f.devices[d := Device(m, tag, Renaming(m))], temps := f.temps[tag := Whole(m)])
  }

  lemma UpToOpen(f: Folder, d: nat, now: Stamp)
    requires d < |f.devices| && f.devices[d].phase.Idle? && TargetWhole(f)
    ensures Run(f, Opened(d, now), 5) == OpenState(f, d, Absorbing(f, d, now))
  {
    UpToBuild(f, d, now);
    var m := Absorbing(f, d, now);
    var s4 := Run(f, Opened(d, now), 4);
    var last := Device(m, f.devices[d].tag, Filling(m));
    assert s4.devices[d := last] == f.devices[d := last];
  }

  lemma Fills(f: Folder, d: nat, m: Vault)
    requires d < |f.devices|
    ensures Next(OpenState(f, d, m), FillTemp(d, true)) == FullState(f, d, m)
  {
    var last := Device(m, f.devices[d].tag, Renaming(m));
    assert OpenState(f, d, m).devices[d := last] == f.devices[d := last];
  }

  lemma Installs(f: Folder, d: nat, m: Vault)
    requires d < |f.devices|
    ensures var r := Next(FullState(f, d, m), Rename(d, true));
            r.target == Some(Whole(m)) && r.devices == f.devices[d := Device(m, f.devices[d].tag, Idle)]
  {
    var last := Device(m, f.devices[d].tag, Idle);
    assert FullState(f, d, m).devices[d := last] == f.devices[d := last];
  }

  lemma RunOne(f: Folder, ev: Event)
    ensures Run(f, [ev], 1) == Next(f, ev)
  {
    assert Run(f, [ev], 0) == f;
  }

  lemma RunTwo(f: Folder, a: Event, b: Event)
    ensures Run(f, [a, b], 2) == Next(Next(f, a), b)
  {
    assert Run(f, [a, b], 0) == f;
    assert Run(f, [a, b], 1) == Next(f, a);
  }

  // ----- Shared temp names tear the target -----

  function TearingRun(d: nat, e: nat, now: Stamp): seq<Event> {
    Opened(d, now) + ([FillTemp(d, true)] + (Opened(e, now) + [Rename(d, true)]))
  }

  /** Two resting devices that share a tag can leave half a snapshot in the target. */
  lemma SharedTagTears(f: Folder, d: nat, e: nat, now: Stamp)
    requires d < |f.devices| && e < |f.devices| && d != e
    requires f.devices[d].tag == f.devices[e].tag && TargetWhole(f)
    requires f.devices[d].phase.Idle? && f.devices[e].phase.Idle?
    ensures |TearingRun(d, e, now)| == 12
    ensures Run(f, TearingRun(d, e, now), 12).target == Some(Partial)
  {
    var tail := Opened(e, now) + [Rename(d, true)];
    var full := FullState(f, d, Absorbing(f, d, now));
    RunConcat(f, Opened(d, now), [FillTemp(d, true)] + tail, 7);
    UpToOpen(f, d, now);
    RunConcat(OpenState(f, d, Absorbing(f, d, now)), [FillTemp(d, true)], tail, 6);
    RunOne(OpenState(f, d, Absorbing(f, d, now)), FillTemp(d, true));
    Fills(f, d, Absorbing(f, d, now));
    TearsNow(full, d, e, now);
  }

  lemma TearsNow(full: Folder, d: nat, e: nat, now: Stamp)
    requires d < |full.devices| && e < |full.devices| && d != e
    requires full.devices[d].tag == full.devices[e].tag && TargetWhole(full)
    requires full.devices[d].phase.Renaming? && full.devices[e].phase.Idle?
    ensures Run(full, Opened(e, now) + [Rename(d, true)], 6).target == Some(Partial)
  {
    var both := OpenState(full, e, Absorbing(full, e, now));
    RunConcat(full, Opened(e, now), [Rename(d, true)], 1);
    UpToOpen(full, e, now);
    RunOne(both, Rename(d, true));
    assert both.devices[d] == full.devices[d];
  }

  /** What keeps the target whole, whatever the clocks. */
  ghost predicate FilesOk(f: Folder) {
    && DistinctTags(f) && TargetWhole(f) && TempsReady(f)
    && forall d :: 0 <= d < |f.devices| && f.devices[d].phase.Merging? ==> f.devices[d].phase.file.Whole?
  }

  lemma NextKeepsFiles(f: Folder, ev: Event)
    requires FilesOk(f)
    ensures FilesOk(Next(f, ev))
  {
    var r := Next(f, ev);
    if Enabled(f, ev) {
      forall d | 0 <= d < |r.devices| && r.devices[d].phase.Renaming?
        ensures r.devices[d].tag in r.temps && r.temps[r.devices[d].tag] == Whole(r.devices[d].phase.snapshot)
      {
        if d != ev.d {
          assert f.devices[d].tag != f.devices[ev.d].tag;
        }
      }
    }
  }

  lemma {:induction false} FilesStayOk(f: Folder, evs: seq<Event>, n: nat)
    requires n <= |evs| && FilesOk(f)
    ensures FilesOk(Run(f, evs, n))
  {
    if n > 0 {
      FilesStayOk(f, evs, n - 1);
      NextKeepsFiles(Run(f, evs, n - 1), evs[n - 1]);
    }
  }

  ghost predicate WholeAt(f: Folder, evs: seq<Event>, n: nat)
    requires n <= |evs|
  {
    TargetWhole(Run(f, evs, n))
  }

  /** From rest, the target stays whole over every run exactly when no two devices share a tag. */
  lemma WholeExactlyWithDistinctTags(f: Folder)
    requires TargetWhole(f) && forall d :: 0 <= d < |f.devices| ==> f.devices[d].phase.Idle?
    ensures DistinctTags(f) <==> forall evs: seq<Event>, n: nat :: n <= |evs| ==> WholeAt(f, evs, n)
  {
    if DistinctTags(f) {
      forall evs: seq<Event>, n: nat | n <= |evs|
        ensures WholeAt(f, evs, n)
      {
        FilesStayOk(f, evs, n);
      }
    } else {
      var d, e :| 0 <= d < e < |f.devices| && f.devices[d].tag == f.devices[e].tag;
      SharedTagTears(f, d, e, 0);
      assert !WholeAt(f, TearingRun(d, e, 0), 12);
    }
  }

  // ----- Overwrites heal -----

  /** The vaults and the snapshot in place, an absent one counting as empty. */
  function WorldOf(f: Folder): World
    requires f.target.Some? ==> f.target.value.Whole?
  {
    World(seq(|f.devices|, d requires 0 <= d < |f.devices| => f.devices[d].vault),
          if f.target.None? then map[] else f.target.value.snapshot)
  }

  /** A folder round run without interruption always writes. */
  function FolderRound(w: World, d: nat, now: Stamp): World
    requires d < |w.vaults|
  {
    World(w.vaults[d := Merged(w, d, now)], Merged(w, d, now))
  }

  ghost function FolderAfter(w: World, sched: seq<nat>, clock: seq<Stamp>, n: nat): (r: World)
    requires n <= |sched| == |clock| && Schedule(w, sched)
    ensures |r.vaults| == |w.vaults|
  {
    if n == 0 then w else FolderRound(FolderAfter(w, sched, clock, n - 1), sched[n - 1], clock[n - 1])
  }

  lemma SafeFolderRound(w: World, d: nat, now: Stamp)
    requires Coherent(w) && Safe(w) && d < |w.vaults|
    ensures FolderRound(w, d, now) == Round(w, d, now)
  {
    SafeRound(w, d, now);
  }

  lemma {:induction false} SafeFolderAfter(w: World, sched: seq<nat>, clock: seq<Stamp>, n: nat)
    requires n <= |sched| == |clock| && Schedule(w, sched) && Coherent(w) && Safe(w)
    ensures FolderAfter(w, sched, clock, n) == After(w, sched, clock, n)
  {
    if n > 0 {
      SafeFolderAfter(w, sched, clock, n - 1);
      JoinToIsUpperBound(w, |w.vaults|);
      SafeRun(w, sched, clock, n - 1, Total(w));
      SafeFolderRound(After(w, sched, clock, n - 1), sched[n - 1], clock[n - 1]);
    }
  }

  /** The sync of one device, uninterrupted, as events. */
  function RoundEvents(d: nat, now: Stamp): seq<Event> {
    Opened(d, now) + [FillTemp(d, true), Rename(d, true)]
  }

  lemma RoundEndsInstalled(f: Folder, d: nat, now: Stamp)
    requires d < |f.devices| && f.devices[d].phase.Idle? && TargetWhole(f)
    ensures |RoundEvents(d, now)| == 7
    ensures Run(f, RoundEvents(d, now), 7) == Next(FullState(f, d, Absorbing(f, d, now)), Rename(d, true))
  {
    var m := Absorbing(f, d, now);
    UpToOpen(f, d, now);
    RunConcat(f, Opened(d, now), [FillTemp(d, true), Rename(d, true)], 2);
    Fills(f, d, m);
    RunTwo(OpenState(f, d, m), FillTemp(d, true), Rename(d, true));
  }

  lemma AbsorbingIsMerged(f: Folder, d: nat, now: Stamp)
    requires d < |f.devices| && TargetWhole(f)
    ensures Absorbing(f, d, now) == Merged(WorldOf(f), d, now)
  {
    assert Merge(f.devices[d].vault, map[], now) == f.devices[d].vault;
  }

  /** Event by event or all at once: an uninterrupted round is the abstract one. */
  lemma EventsMakeTheRound(f: Folder, d: nat, now: Stamp)
    requires d < |f.devices| && f.devices[d].phase.Idle? && TargetWhole(f)
    ensures |RoundEvents(d, now)| == 7
    ensures TargetWhole(Run(f, RoundEvents(d, now), 7))
    ensures WorldOf(Run(f, RoundEvents(d, now), 7)) == FolderRound(WorldOf(f), d, now)
    ensures var r := Run(f, RoundEvents(d, now), 7);
            && r.devices[d].phase.Idle?
            && forall e :: 0 <= e < |f.devices| && e != d ==> r.devices[e] == f.devices[e]
  {
    RoundEndsInstalled(f, d, now);
    Installs(f, d, Absorbing(f, d, now));
    AbsorbingIsMerged(f, d, now);
    var r := Next(FullState(f, d, Absorbing(f, d, now)), Rename(d, true));
    assert WorldOf(r).vaults == WorldOf(f).vaults[d := Merged(WorldOf(f), d, now)];
  }
}
