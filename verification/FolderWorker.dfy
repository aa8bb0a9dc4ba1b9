/**
 The folder round as the source runs it: read the target, merge, write a temp
 file, rename it into place; any step may fail and end the round. What it does is
 recorded as events of `FolderSync`.
 */
module FolderWorker {
  import opened Options
  import opened Records
  import opened FolderSync

  class Directory {
    var target: Option<File>
    var temps: map<Tag, File>

    constructor ()
      ensures target == None && temps == map[]
    {
      target, temps := None, map[];
    }
  }

  datatype Result = Pulled(records: nat) | Error

  /** One device's folder, as the interleaved system sees it. */
  function Seen(
      target: Option<File>, temps: map<Tag, File>, vault: Vault, tag: Tag, phase: Phase, installed: seq<Install>)
      : Folder {
    Folder(target, temps, [Device(vault, tag, phase)], installed)
  }

  class Worker {
    const dir: Directory
    const tag: Tag
    var vault: Vault
    ghost var phase: Phase
    ghost var installed: seq<Install>
    ghost var start: Folder
    ghost var trace: seq<Event>

    ghost function Now(): Folder
      reads this, dir
    {
      Seen(dir.target, dir.temps, vault, tag, phase, installed)
    }

    /** Everything done so far is a run of the interleaved system. */
    ghost predicate Valid()
      reads this, dir
    {
      Run(start, trace, |trace|) == Now()
    }

    constructor (dir: Directory, tag: Tag, vault: Vault)
      ensures this.dir == dir && this.tag == tag && this.vault == vault
      ensures Valid() && phase == Idle && installed == [] && trace == []
    {
      this.dir, this.tag, this.vault := dir, tag, vault;
      phase, installed, trace := Idle, [], [];
      start := Seen(dir.target, dir.temps, vault, tag, Idle, []);
    }

    ghost method Record(ev: Event)
      requires Run(start, trace, |trace|).devices != [] && Next(Run(start, trace, |trace|), ev) == Now()
      modifies this`trace
      ensures Valid() && trace == old(trace) + [ev]
    {
      RunPrefix(start, trace, [ev], |trace|);
      trace := trace + [ev];
    }

    /** The target as it is now, if any. */
    method ReadTarget() returns (file: Option<File>)
      requires Valid() && phase.Idle?
      modifies this`phase, this`trace
      ensures Valid() && trace == old(trace) + [Start(0), Read(0)]
      ensures file == dir.target && phase == if file.None? then Building else Merging(file.value)
    {
      phase := Reading;
      Record(Start(0));
      file := dir.target;
      phase := if file.None? then Building else Merging(file.value);
      Record(Read(0));
    }

    /** Merge what was read; a file that does not decode ends the round. */
    method MergeRead(file: File, readable: bool, now: Stamp) returns (pulled: Option<nat>)
      requires Valid() && phase == Merging(file)
      modifies this`vault, this`phase, this`trace
      ensures Valid()
      ensures if readable && file.Whole?
              then pulled == Some(|file.snapshot|) && phase == Building
                   && vault == Merge(old(vault), file.snapshot, now) && trace == old(trace) + [MergeFile(0, now)]
              else pulled == None && phase == Idle && vault == old(vault) && trace == old(trace) + [GiveUp(0)]
    {
      if !readable || file.Partial? {
        phase := Idle;
        Record(GiveUp(0));
        return None;
      }
      vault := Merge(vault, file.snapshot, now);
      phase := Building;
      Record(MergeFile(0, now));
      pulled := Some(|file.snapshot|);
    }

    method BuildSnapshot() returns (snapshot: Vault)
      requires Valid() && phase.Building?
      modifies this`phase, this`trace
      ensures Valid() && trace == old(trace) + [Build(0)] && snapshot == vault && phase == Opening(vault)
    {
      snapshot := vault;
      phase := Opening(snapshot);
      Record(Build(0));
    }

    method OpenTempFile(snapshot: Vault)
      requires Valid() && phase == Opening(snapshot)
      modifies this`phase, this`trace, dir`temps
      ensures Valid() && trace == old(trace) + [OpenTemp(0)] && phase == Filling(snapshot)
      ensures dir.temps == old(dir.temps)[tag := Partial]
    {
      dir.temps := dir.temps[tag := Partial];
      phase := Filling(snapshot);
      Record(OpenTemp(0));
    }

    method FillTempFile(snapshot: Vault, written: bool)
      requires Valid() && phase == Filling(snapshot)
      modifies this`phase, this`trace, dir`temps
      ensures Valid() && trace == old(trace) + [FillTemp(0, written)]
      ensures phase == if written then Renaming(snapshot) else Idle
      ensures dir.temps == if written then old(dir.temps)[tag := Whole(snapshot)] else old(dir.temps)
    {
      phase := Idle;
      if written {
        dir.temps := dir.temps[tag := Whole(snapshot)];
        phase := Renaming(snapshot);
      }
      Record(FillTemp(0, written));
    }

    /** Rename the temp file over the target, or remove it. */
    method RenameTemp(snapshot: Vault, renamed: bool)
      requires Valid() && phase == Renaming(snapshot) && tag in dir.temps && dir.temps[tag] == Whole(snapshot)
      modifies this`phase, this`trace, this`installed, dir
      ensures Valid() && trace == old(trace) + [Rename(0, renamed)] && phase == Idle
      ensures dir.temps == old(dir.temps) - {tag}
      ensures dir.target == if renamed then Some(Whole(snapshot)) else old(dir.target)
      ensures installed == if renamed then old(installed) + [Install(0, snapshot)] else old(installed)
    {
      if renamed {
        dir.target := Some(dir.temps[tag]);
        installed := installed + [Install(0, snapshot)];
      }
      dir.temps := dir.temps - {tag};
      phase := Idle;
      Record(Rename(0, renamed));
    }

    /** Nothing but this device's own temp file differs. */
    twostate predicate OthersUntouched()
      reads this, dir
    {
      forall t :: t != tag ==>
          (t in dir.temps <==> t in old(dir.temps)) && (t in dir.temps ==> dir.temps[t] == old(dir.temps[t]))
    }

    /** The first half of a round: the vault on top of the target, if there is one. */
    method Pull(readable: bool, now: Stamp) returns (pulled: Option<nat>)
      requires Valid() && phase.Idle?
      modifies this`vault, this`phase, this`trace
      ensures Valid() && old(trace) <= trace && phase == if pulled.Some? then Building else Idle
      ensures match dir.target {
        case None => vault == old(vault) && pulled == Some(0)
        case Some(Partial) => vault == old(vault) && pulled == None
        case Some(Whole(s)) =>
          vault == (if readable then Merge(old(vault), s, now) else old(vault))
              && pulled == if readable then Some(|s|) else None
      }
    {
      var file := ReadTarget();
      pulled := Some(0);
      if file.Some? {
        pulled := MergeRead(file.value, readable, now);
      }
    }

    /** The second half: the vault into the temp file, the temp file into place. */
    method Publish(written: bool, renamed: bool) returns (ok: bool)
      requires Valid() && phase.Building?
      modifies this`phase, this`trace, this`installed, dir
      ensures Valid() && old(trace) <= trace && phase.Idle? && ok == (written && renamed)
      ensures OthersUntouched() && (written ==> tag !in dir.temps)
      ensures dir.target == if ok then Some(Whole(vault)) else old(dir.target)
      ensures installed == if ok then old(installed) + [Install(0, vault)] else old(installed)
    {
      var snapshot := BuildSnapshot();
      OpenTempFile(snapshot);
      FillTempFile(snapshot, written);
      if !written {
        return false;
      }
      RenameTemp(snapshot, renamed);
      ok := renamed;
    }

    /**
     One round, recorded as a run. It merges what it reads and, if every step
     succeeds, installs the merged vault; whatever fails, the target is the old
     file or the new one, nobody else's temp file is touched, and after a
     rename, failed or not, its own is gone.
     */
    method FolderRound(readable: bool, now: Stamp, written: bool, renamed: bool) returns (r: Result)
      requires Valid() && phase.Idle?
      modifies this, dir
      ensures Valid() && phase.Idle? && start == old(start) && old(trace) <= trace
      ensures OthersUntouched()
      ensures r.Pulled? ==>
              dir.target == Some(Whole(vault)) && tag !in dir.temps && installed == old(installed) + [Install(0, vault)]
      ensures r.Error? ==> dir.target == old(dir.target) && installed == old(installed)
      ensures match old(dir.target) {
        case None => vault == old(vault) && (r.Pulled? ==> r.records == 0)
        case Some(Partial) => vault == old(vault) && r.Error?
        case Some(Whole(s)) =>
          && vault == (if readable then Merge(old(vault), s, now) else old(vault))
          && (r.Pulled? ==> readable && r.records == |s|)
      }
    {
      var pulled := Pull(readable, now);
      if pulled.None? {
        return Error;
      }
      var ok := Publish(written, renamed);
      r := if ok then Pulled(pulled.value) else Error;
    }
  }
}
