/** Reading and atomically replacing one deployment's state snapshot, system call by system call. */
module Store {
  import opened Options
  import opened Topology
  import opened Protocol
  import opened Machine

  /** Every entry from `from` on observes only, or is a rename of the complete `snapshot` attempted in world `w`. */
  ghost predicate OnlySaves(trace: seq<Entry>, from: nat, w: World, snapshot: Snapshot) {
    forall i | from <= i < |trace| ::
      || (trace[i].op == Observe && trace[i].before == trace[i].after)
      || (trace[i].op == Replace(Whole(snapshot)) && trace[i].before == w
          && (trace[i].after == w || trace[i].after == w.(file := Some(Whole(snapshot)))))
  }

  /** Every entry from `from` on observes only, or is a removal attempted in world `w`. */
  ghost predicate OnlyUnlinks(trace: seq<Entry>, from: nat, w: World) {
    forall i | from <= i < |trace| ::
      || (trace[i].op == Observe && trace[i].before == trace[i].after)
      || (trace[i].op == Unlink && trace[i].before == w && (trace[i].after == w || trace[i].after == w.(file := None)))
  }

  class StateStore {
    const host: Host

    constructor (host: Host)
      ensures this.host == host
    {
      this.host := host;
    }

    method Load() returns (o: Outcome, current: Option<Snapshot>)
      requires host.Linked()
      modifies host`faults, host`trace
      ensures host.Looked()
      ensures o == Done ==> match host.file
                            case None => current == None
                            case Some(Whole(s)) => current == Some(s)
                            case Some(Torn) => false
      ensures host.file == Some(Torn) ==> o != Done
      ensures host.file != Some(Torn) && host.faults == old(host.faults) ==> o == Done
      ensures host.faults <= old(host.faults)
      ensures o.Raised? ==> o.error.Injectable() || o.error in {Coded(StateInvalid), Coded(StateReadFailed)}
      ensures o != Raised(System)
    {
      current := None;
      o := host.Aside();
      if o == Raised(System) {
        o := Raised(Coded(StateReadFailed));
      } else if o == Done && host.file == Some(Torn) {
        o := Raised(Coded(StateInvalid));
      } else if o == Done && host.file.Some? {
        current := Some(host.file.value.snapshot);
      }
    }

    /**
     The error code tells what a later `Load` finds: after `StateWriteFailed` the old contents, after
     `DurabilityUncertain` the new snapshot. Only an unknown outcome, an interruption or a kill leave
     it open, and even then the file is old or new, never torn.
     */
    method Save(snapshot: Snapshot) returns (o: Outcome)
      requires host.Linked()
      modifies host`faults, host`trace, host`temporary, host`file
      ensures host.Linked()
      ensures old(host.trace) <= host.trace
      ensures OnlySaves(host.trace, |old(host.trace)|, old(host.Now()), snapshot)
      ensures host.file == old(host.file) || host.file == Some(Whole(snapshot))
      ensures o == Done ==> host.file == Some(Whole(snapshot))
      ensures o == Raised(Coded(StateWriteFailed)) ==> host.file == old(host.file)
      ensures o == Raised(Coded(DurabilityUncertain)) ==> host.file == Some(Whole(snapshot))
      ensures o.Raised? ==> o.error.Injectable()
                            || o.error in {Coded(StateWriteFailed), Coded(CommitOutcomeUnknown),
                               Coded(DurabilityUncertain)}
      ensures o.Raised? && !o.error.RequiresReconciliation() ==> host.file == old(host.file)
      ensures host.faults == old(host.faults) ==> o == Done
      ensures host.faults <= old(host.faults)
      ensures o != Raised(System)
    {
      o := Prepare(snapshot);
      if o != Done {
        return;
      }
      o := WriteAndSwap(snapshot);
      // A success can still be interrupted on the way out.
      if o == Done {
        var late := host.Aside();
        o := if late == Killed || (late.Raised? && late.error.Interruption()) then late else Done;
      }
    }

    /** Errors of the operating system before the rename become `StateWriteFailed`; all others pass unchanged. */
    function WriteFailed(o: Outcome): (r: Outcome)
      ensures o != Done ==> r != Done
      ensures r != Raised(System) && (o != Raised(System) ==> r == o)
    {
      if o == Raised(System) then Raised(Coded(StateWriteFailed)) else o
    }

    /** Makes the directory and the temporary file. */
    method Prepare(ghost snapshot: Snapshot) returns (o: Outcome)
      requires host.Linked()
      modifies host`faults, host`trace, host`temporary
      ensures host.Linked()
      ensures old(host.trace) <= host.trace
      ensures OnlySaves(host.trace, |old(host.trace)|, old(host.Now()), snapshot)
      ensures o == Done ==> host.temporary.Some?
      ensures o.Raised? ==> o.error.Injectable() || o.error == Coded(StateWriteFailed)
      ensures host.faults == old(host.faults) ==> o == Done
      ensures host.faults <= old(host.faults)
      ensures o != Raised(System)
    {
      o := host.Aside();
      if o == Done {
        o := host.MakeTemporary();
      }
      o := WriteFailed(o);
    }

    /** Fills and closes the open temporary file. */
    method WriteOut(snapshot: Snapshot) returns (o: Outcome)
      requires host.Linked() && host.temporary.Some?
      modifies host`faults, host`trace, host`temporary
      ensures host.Linked()
      ensures old(host.trace) <= host.trace
      ensures OnlySaves(host.trace, |old(host.trace)|, old(host.Now()), snapshot)
      ensures host.temporary.Some?
      ensures o == Done ==> host.temporary == Some(Whole(snapshot))
      ensures o.Raised? ==> o.error.Injectable() || o.error == Coded(StateWriteFailed)
      ensures host.faults == old(host.faults) ==> o == Done
      ensures host.faults <= old(host.faults)
      ensures o != Raised(System)
    {
      // Setting the file mode.
      o := host.Aside();
      if o == Done {
        o := host.WriteTemporary(snapshot);
      }
      if o == Done {
        // Closing.
        o := host.Aside();
      }
      o := WriteFailed(o);
    }

    /** The rename and the directory sync: the only step of a save that touches the state file. */
    method Swap(ghost snapshot: Snapshot) returns (o: Outcome, replaced: bool)
      requires host.Linked() && host.temporary == Some(Whole(snapshot))
      modifies host`faults, host`trace, host`temporary, host`file
      ensures host.Linked()
      ensures old(host.trace) <= host.trace
      ensures OnlySaves(host.trace, |old(host.trace)|, old(host.Now()), snapshot)
      ensures host.file == old(host.file) || host.file == Some(Whole(snapshot))
      ensures replaced ==> host.file == Some(Whole(snapshot))
      ensures o == Done || o == Raised(Coded(DurabilityUncertain)) ==> replaced
      ensures o.Raised? ==> o.error == Coded(if replaced then DurabilityUncertain else CommitOutcomeUnknown)
      ensures host.faults == old(host.faults) ==> o == Done
      ensures host.faults <= old(host.faults)
    {
      o := host.ReplaceFile();
      replaced := o == Done;
      if replaced {
        o := host.Aside();
      }
      if o.Raised? {
        o := Raised(Coded(if replaced then DurabilityUncertain else CommitOutcomeUnknown));
      }
    }

    /**
     From the open temporary file to the synced directory, with the clean-up of a temporary that was not swapped
     in.
     */
    method WriteAndSwap(snapshot: Snapshot) returns (o: Outcome)
      requires host.Linked() && host.temporary.Some?
      modifies host`faults, host`trace, host`temporary, host`file
      ensures host.Linked()
      ensures old(host.trace) <= host.trace
      ensures OnlySaves(host.trace, |old(host.trace)|, old(host.Now()), snapshot)
      ensures host.file == old(host.file) || host.file == Some(Whole(snapshot))
      ensures o == Done ==> host.file == Some(Whole(snapshot))
      ensures o == Raised(Coded(StateWriteFailed)) ==> host.file == old(host.file)
      ensures o == Raised(Coded(DurabilityUncertain)) ==> host.file == Some(Whole(snapshot))
      ensures o.Raised? && !o.error.RequiresReconciliation() ==> host.file == old(host.file)
      ensures o.Raised? ==> o.error.Injectable()
                            || o.error in {Coded(StateWriteFailed), Coded(CommitOutcomeUnknown),
                               Coded(DurabilityUncertain)}
      ensures host.faults == old(host.faults) ==> o == Done
      ensures host.faults <= old(host.faults)
      ensures o != Raised(System)
    {
      var replaced := false;
      o := WriteOut(snapshot);
      if o == Done {
        assert host.Now() == old(host.Now());
        o, replaced := Swap(snapshot);
      }
      if o != Killed && !replaced {
        // A failing clean-up never hides the error that is already on its way.
        var cleanup := host.UnlinkTemporary();
        if cleanup == Killed {
          o := Killed;
        }
      }
    }

    /** `DurabilityUncertain` means that the file is gone; a file that was never there counts as deleted. */
    method Delete() returns (o: Outcome)
      requires host.Linked()
      modifies host`faults, host`trace, host`file
      ensures host.Linked()
      ensures old(host.trace) <= host.trace
      ensures OnlyUnlinks(host.trace, |old(host.trace)|, old(host.Now()))
      ensures host.file == old(host.file) || host.file == None
      ensures o == Done ==> host.file == None
      ensures o == Raised(Coded(DurabilityUncertain)) ==> host.file == None
      ensures o.Raised? ==>
                o.error in {Coded(CommitOutcomeUnknown), Coded(DurabilityUncertain)} || o.error.Interruption()
      ensures host.faults == old(host.faults) ==> o == Done
      ensures host.faults <= old(host.faults)
    {
      var missing;
      o, missing := host.UnlinkFile();
      if o.Raised? {
        o := Raised(Coded(CommitOutcomeUnknown));
      } else if o == Done && !missing {
        o := host.Aside();
        o := if o.Raised? then Raised(Coded(DurabilityUncertain)) else o;
      }
      if o == Done {
        var late := host.Aside();
        o := if late == Killed || (late.Raised? && late.error.Interruption()) then late else Done;
      }
    }
  }
}
