/**
 Save as the program runs it: a sequence of system calls on a directory, with early exits and a
 deferred removal of the temporary file. It is proved to follow the micro-steps of Store, so that
 every state it passes through is one that Store.SaveIsCrashAtomic speaks about.
 */
module Disk {
  import opened Wrappers
  import opened Snapshots
  import opened Store

  class StateDirectory {
    var target: Option<File>
    var temps: map<string, File>
    var survivors: set<Option<File>>
    var home: Home
    /** The state after each system call made so far: the points where a crash may strike. */
    ghost var trail: seq<Directory>

    ghost function View(): Directory
      reads this
    {
      Directory(target, temps, survivors, home)
    }

    constructor (target: Option<File>, home: Home)
      ensures View() == Directory(target, map[], {target}, home) && Sound(View()) && trail == []
    {
      this.target, temps, survivors, this.home, trail := target, map[], {target}, home, [];
    }

    // The system calls; `ok` is the verdict of the operating system.

    /** Makes the directory if there is none; nobody syncs its parent. */
    method MakeDirectory(ok: bool) returns (done: bool)
      modifies this`home, this`trail
      ensures done == ok && trail == old(trail) + [View()]
      ensures home == if ok && old(home).Missing? then Unsynced else old(home)
    {
      if ok && home.Missing? {
        home := Unsynced;
      }
      trail := trail + [View()];
      return ok;
    }

    /** A call that does not touch the directory: encoding, closing. */
    method Harmless(ok: bool) returns (done: bool)
      modifies this`trail
      ensures done == ok && View() == old(View()) && trail == old(trail) + [View()]
    {
      trail := trail + [View()];
      return ok;
    }

    method CreateTemp(tmp: string, ok: bool) returns (done: bool)
      requires tmp !in temps
      modifies this`temps, this`trail
      ensures done == ok && trail == old(trail) + [View()]
      ensures temps == if ok then old(temps)[tmp := File(Torn, false)] else old(temps)
    {
      if ok {
        temps := temps[tmp := File(Torn, false)];
      }
      trail := trail + [View()];
      return ok;
    }

    method WriteTemp(tmp: string, snap: Snapshot, ok: bool) returns (done: bool)
      requires tmp in temps
      modifies this`temps, this`trail
      ensures done == ok && trail == old(trail) + [View()]
      ensures temps == if ok then old(temps)[tmp := File(Whole(snap), false)] else old(temps)
    {
      if ok {
        temps := temps[tmp := File(Whole(snap), false)];
      }
      trail := trail + [View()];
      return ok;
    }

    method SyncTemp(tmp: string, ok: bool) returns (done: bool)
      requires tmp in temps
      modifies this`temps, this`trail
      ensures done == ok && trail == old(trail) + [View()]
      ensures temps == if ok then old(temps)[tmp := old(temps)[tmp].(synced := true)] else old(temps)
    {
      if ok {
        temps := temps[tmp := temps[tmp].(synced := true)];
      }
      trail := trail + [View()];
      return ok;
    }

    method RenameTemp(tmp: string, ok: bool) returns (done: bool)
      requires tmp in temps
      modifies this
      ensures done == ok && trail == old(trail) + [View()]
      ensures var moved := Some(old(temps)[tmp]);
              View() == if ok then Directory(moved, old(temps) - {tmp}, old(survivors) + {moved}, old(home))
                        else old(View())
    {
      if ok {
        target := Some(temps[tmp]);
        temps, survivors := temps - {tmp}, survivors + {target};
      }
      trail := trail + [View()];
      return ok;
    }

    method SyncDirectory(ok: bool)
      modifies this`survivors, this`trail
      ensures trail == old(trail) + [View()]
      ensures survivors == if ok then {target} else old(survivors)
    {
      if ok {
        survivors := {target};
      }
      trail := trail + [View()];
    }

    method RemoveTemp(tmp: string, ok: bool)
      modifies this`temps, this`trail
      ensures trail == old(trail) + [View()]
      ensures temps == if ok then old(temps) - {tmp} else old(temps)
    {
      if ok {
        temps := temps - {tmp};
      }
      trail := trail + [View()];
    }

    /** The outcomes of the system calls are given; the name CreateTemp picks is not in use. */
    method Save(snap: Snapshot, f: Faults) returns (ok: bool)
      requires f.tmp !in temps
      modifies this
      ensures (View(), ok) == Saved(old(View()), snap, f)
      ensures trail == old(trail) + Rest(old(View()), Job(snap, MakeDir), f)
    {
      ghost var goal := Goal(trail + Rest(View(), Job(snap, MakeDir), f), Saved(View(), snap, f));
      OnTrack(goal, trail, View(), Job(snap, MakeDir), f);
      var done := MakeDirectory(f.mkdir);
      if !done {
        return false;
      }
      ok := CreateAndReplace(snap, f, goal);
    }

    /** What follows once there is a directory. */
    method CreateAndReplace(snap: Snapshot, f: Faults, ghost goal: Goal) returns (ok: bool)
      requires f.tmp !in temps && goal.Reached(trail, View(), Job(snap, Marshal), f)
      modifies this
      ensures (View(), ok) == goal.end && trail == goal.trail
    {
      OnTrack(goal, trail, View(), Job(snap, Marshal), f);
      var done := Harmless(f.marshal);
      if !done {
        return false;
      }
      OnTrack(goal, trail, View(), Job(snap, Stage.CreateTemp), f);
      done := CreateTemp(f.tmp, f.create);
      if !done {
        return false;
      }
      ok := WriteAndReplace(f.tmp, snap, f, goal);
      OnTrack(goal, trail, View(), Job(snap, Remove(f.tmp, ok)), f);
      RemoveTemp(f.tmp, f.remove);
    }

    /** The part of Save during which the temporary file exists. */
    method WriteAndReplace(tmp: string, snap: Snapshot, f: Faults, ghost goal: Goal) returns (ok: bool)
      requires tmp in temps && goal.Reached(trail, View(), Job(snap, Write(tmp)), f)
      modifies this
      ensures goal.Reached(trail, View(), Job(snap, Remove(tmp, ok)), f)
    {
      OnTrack(goal, trail, View(), Job(snap, Write(tmp)), f);
      var done := WriteTemp(tmp, snap, f.write);
      if !done {
        return false;
      }
      OnTrack(goal, trail, View(), Job(snap, Sync(tmp)), f);
      done := SyncTemp(tmp, f.sync);
      if !done {
        return false;
      }
      ok := CloseAndReplace(tmp, snap, f, goal);
    }

    method CloseAndReplace(tmp: string, snap: Snapshot, f: Faults, ghost goal: Goal) returns (ok: bool)
      requires tmp in temps && goal.Reached(trail, View(), Job(snap, Close(tmp)), f)
      modifies this
      ensures goal.Reached(trail, View(), Job(snap, Remove(tmp, ok)), f)
    {
      OnTrack(goal, trail, View(), Job(snap, Close(tmp)), f);
      var done := Harmless(f.close);
      if !done {
        return false;
      }
      OnTrack(goal, trail, View(), Job(snap, Rename(tmp)), f);
      done := RenameTemp(tmp, f.rename);
      if !done {
        return false;
      }
      OnTrack(goal, trail, View(), Job(snap, SyncDir(tmp)), f);
      SyncDirectory(f.syncDir);
      return true;
    }
  }

  /** The states a Save that has come to `job` will still pass through. */
  function Rest(dir: Directory, job: Job, f: Faults): seq<Directory> {
    var trail := Trail(dir, job, f);
    seq(|trail|, i requires 0 <= i < |trail| => trail[i].0)
  }

  /** The whole trail a Save must produce, and how it must end. */
  datatype Goal = Goal(trail: seq<Directory>, end: (Directory, bool)) {
    /** The trail so far and what `job` will still add to it make up the goal. */
    ghost predicate Reached(sofar: seq<Directory>, dir: Directory, job: Job, f: Faults) {
      sofar + Rest(dir, job, f) == trail && Final(dir, job, f) == end
    }
  }

  /** Making the call for the current stage, and recording it, stays on track. */
  lemma OnTrack(goal: Goal, sofar: seq<Directory>, dir: Directory, job: Job, f: Faults)
    requires !job.stage.Returned? && goal.Reached(sofar, dir, job, f)
    ensures var (dir', job') := SaveStep(dir, job, OutcomeAt(job.stage, f), f.tmp);
            goal.Reached(sofar + [dir'], dir', job', f)
  {}
}
