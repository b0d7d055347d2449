/**
 The machine under the lifecycle service: one deployment's state file, its live resources and routing
 daemons. Every call may misbehave while the fault budget lasts: raise, be interrupted, lose the
 process, or claim success after a partial effect. A finite run meets finitely many faults, so the
 budget restricts no run. `trace` records every attempted effect.
 */
module Machine {
  import opened Options
  import opened Topology
  import opened Protocol

  /** The veths after a link was made under a new id. */
  function WithEnds(veths: map<Port, nat>, link: Link, id: nat): (r: map<Port, nat>) {
    veths[link.left.port := id][link.right.port := id]
  }

  class Host {
    var file: Option<FileText>
    var temporary: Option<FileText>
    var live: Live
    var routing: bool
    var nextLink: nat
    var faults: nat
    ghost const origin: World
    ghost var trace: seq<Entry>

    ghost function Now(): (r: World)
      reads this
    {
      World(file, live, routing)
    }

    ghost predicate Linked()
      reads this
    {
      && Chain(origin, trace, Now())
      && live.Coherent()
      && (forall p | p in live.veths :: live.veths[p] < nextLink)
    }

    /** The whole history follows the protocol, so every world in it is safe. */
    ghost predicate Valid()
      reads this
    {
      Linked() && Safe(origin) && AllLegal(trace) && Safe(Now())
    }

    /** Exactly one effect was attempted, and if it was legal the host stays valid. */
    twostate predicate Stepped(op: Op, o: Outcome)
      reads this
    {
      && Linked()
      && trace == old(trace) + [Entry(op, o, old(Now()), Now())]
      && (old(Valid()) && Legal(Entry(op, o, old(Now()), Now())) ==> Valid())
    }

    /** One observation and nothing else. */
    twostate predicate Looked()
      reads this
    {
      && Linked()
      && |trace| == |old(trace)| + 1 && old(trace) <= trace
      && trace[|old(trace)|].op == Observe
      && trace[|old(trace)|].before == trace[|old(trace)|].after == Now() == old(Now())
      && (old(Valid()) ==> Valid())
    }

    constructor (faults: nat)
      ensures Valid() && this.faults == faults
      ensures file == None && live == NOTHING && !routing && trace == []
    {
      file, temporary, live, routing, nextLink := None, None, NOTHING, false, 0;
      this.faults := faults;
      origin := World(None, NOTHING, false);
      trace := [];
    }

    /** Decides whether the next call behaves (`exact`) or not. */
    method Draw() returns (o: Outcome, exact: bool)
      modifies this`faults
      ensures exact ==> o == Done && faults == old(faults)
      ensures !exact ==> old(faults) == faults + 1
      ensures o.Raised? ==> o.error.Injectable()
    {
      o, exact := Done, true;
      if faults > 0 {
        exact := *;
        if !exact {
          faults := faults - 1;
          o := *;
          if o.Raised? && !o.error.Injectable() {
            o := Raised(Other);
          }
        }
      }
    }

    ghost method Record(op: Op, o: Outcome, before: World)
      requires Chain(origin, trace, before)
      requires live.Coherent() && (forall p | p in live.veths :: live.veths[p] < nextLink)
      modifies this`trace
      ensures Linked()
      ensures trace == old(trace) + [Entry(op, o, before, Now())]
      ensures AllLegal(old(trace)) && Legal(Entry(op, o, before, Now())) ==> AllLegal(trace)
      ensures Safe(before) && Legal(Entry(op, o, before, Now())) ==> Safe(Now())
    {
      ChainAppend(origin, trace, before, Entry(op, o, before, Now()));
      if Safe(before) && Legal(Entry(op, o, before, Now())) {
        LegalKeepsSafe(Entry(op, o, before, Now()));
      }
      trace := trace + [Entry(op, o, before, Now())];
    }

    // System calls on the state file.

    /** A system call that leaves the state file alone: making the directory, changing a mode, syncing, reading. */
    method Aside() returns (o: Outcome)
      requires Linked()
      modifies this`faults, this`trace
      ensures Stepped(Observe, o)
      ensures faults == old(faults) ==> o == Done
      ensures faults <= old(faults)
      ensures o.Raised? ==> o.error.Injectable()
    {
      var exact;
      o, exact := Draw();
      Record(Observe, o, Now());
    }

    /** Creates an empty temporary file beside the state file. */
    method MakeTemporary() returns (o: Outcome)
      requires Linked()
      modifies this`faults, this`trace, this`temporary
      ensures Stepped(Observe, o)
      ensures o == Done ==> temporary == Some(Torn)
      ensures faults == old(faults) ==> o == Done
      ensures faults <= old(faults)
      ensures o.Raised? ==> o.error.Injectable()
    {
      var exact;
      o, exact := Draw();
      if o == Done {
        temporary := Some(Torn);
      } else {
        var leaked: bool := *;
        temporary := if leaked then Some(Torn) else temporary;
      }
      Record(Observe, o, Now());
    }

    /** Writes, flushes and syncs the temporary file; anything but success may leave it half written. */
    method WriteTemporary(snapshot: Snapshot) returns (o: Outcome)
      requires Linked()
      modifies this`faults, this`trace, this`temporary
      ensures Stepped(Observe, o)
      ensures temporary == Some(Torn) || temporary == Some(Whole(snapshot))
      ensures o == Done ==> temporary == Some(Whole(snapshot))
      ensures faults == old(faults) ==> o == Done
      ensures faults <= old(faults)
      ensures o.Raised? ==> o.error.Injectable()
    {
      var exact;
      o, exact := Draw();
      var torn: bool := *;
      temporary := Some(if o != Done && torn then Torn else Whole(snapshot));
      Record(Observe, o, Now());
    }

    /** Renames the temporary file over the state file. After anything but success the outcome is unknown. */
    method ReplaceFile() returns (o: Outcome)
      requires Linked() && temporary.Some?
      modifies this`faults, this`trace, this`temporary, this`file
      ensures Stepped(Replace(old(temporary.value)), o)
      ensures Now() == old(Now()) || Now() == old(Now()).(file := old(temporary))
      ensures o == Done ==> file == old(temporary)
      ensures faults == old(faults) ==> o == Done
      ensures faults <= old(faults)
      ensures o.Raised? ==> o.error.Injectable()
    {
      ghost var before := Now();
      ghost var text := temporary.value;
      var exact;
      o, exact := Draw();
      var applied: bool := *;
      if o == Done || applied {
        file, temporary := temporary, None;
      }
      Record(Replace(text), o, before);
    }

    method UnlinkTemporary() returns (o: Outcome)
      requires Linked()
      modifies this`faults, this`trace, this`temporary
      ensures Stepped(Observe, o)
      ensures o == Done ==> temporary == None
      ensures faults == old(faults) ==> o == Done
      ensures faults <= old(faults)
      ensures o.Raised? ==> o.error.Injectable()
    {
      var exact;
      o, exact := Draw();
      var removed: bool := *;
      temporary := if o == Done || removed then None else temporary;
      Record(Observe, o, Now());
    }

    /** Removes the state file. `missing` reports that it was not there. */
    method UnlinkFile() returns (o: Outcome, missing: bool)
      requires Linked()
      modifies this`faults, this`trace, this`file
      ensures Stepped(Unlink, o)
      ensures Now() == old(Now()) || Now() == old(Now()).(file := None)
      ensures o == Done ==> file == None
      ensures missing ==> old(file) == None && o == Done
      ensures faults == old(faults) ==> o == Done
      ensures faults <= old(faults)
      ensures o.Raised? ==> o.error.Injectable()
    {
      ghost var before := Now();
      missing := false;
      var exact;
      o, exact := Draw();
      var removed: bool := *;
      if o == Done {
        missing := file == None;
        file := None;
      } else if removed {
        file := None;
      }
      Record(Unlink, o, before);
    }

    // Backend calls.

    method CreateNamespace(namespace: string) returns (o: Outcome)
      requires Linked()
      modifies this`faults, this`trace, this`live
      ensures Stepped(MakeNamespace(namespace), o)
      ensures file == old(file) && routing == old(routing)
      ensures live == old(live) || live == old(live).(namespaces := old(live).namespaces + {namespace})
      ensures faults == old(faults) ==>
                if namespace in old(live).namespaces then o == Raised(Coded(ResourceExists)) && live == old(live)
                else o == Done && namespace in live.namespaces
      ensures faults <= old(faults)
      ensures o.Raised? ==> o.error.Injectable()
    {
      ghost var before := Now();
      var exact;
      o, exact := Draw();
      var applied: bool := *;
      if exact && namespace in live.namespaces {
        o := Raised(Coded(ResourceExists));
      } else if exact || applied {
        live := live.(namespaces := live.namespaces + {namespace});
      }
      Record(MakeNamespace(namespace), o, before);
    }

    method CreateBridge(namespace: string) returns (o: Outcome)
      requires Linked()
      modifies this`faults, this`trace, this`live
      ensures Stepped(MakeBridge(namespace), o)
      ensures file == old(file) && routing == old(routing)
      ensures live == old(live)
              || (namespace in live.namespaces && live == old(live).(bridges := old(live).bridges + {namespace}))
      ensures faults == old(faults) ==>
                if namespace !in old(live).namespaces then o == Raised(Coded(ResourceMissing))
                else if namespace in old(live).bridges then o == Raised(Coded(ResourceExists))
                else o == Done && namespace in live.bridges
      ensures faults <= old(faults)
      ensures o.Raised? ==> o.error.Injectable()
    {
      ghost var before := Now();
      var exact;
      o, exact := Draw();
      var applied: bool := *;
      if namespace !in live.namespaces {
        o := if exact then Raised(Coded(ResourceMissing)) else o;
      } else if exact && namespace in live.bridges {
        o := Raised(Coded(ResourceExists));
      } else if exact || applied {
        live := live.(bridges := live.bridges + {namespace});
      }
      Record(MakeBridge(namespace), o, before);
    }

    /** One end in its place, if it gets there: its namespace exists and its name is free. */
    function WithEnd(before: Live, veths: map<Port, nat>, p: Port, id: nat, placed: bool): (r: map<Port, nat>) {
      if placed && p.namespace in before.namespaces && p !in veths then veths[p := id] else veths
    }

    /** What a failing creation of a link may leave behind: either end in its place, and temporary names in the root. */
    function PartOf(link: Link, before: Live, id: nat, placeLeft: bool, placeRight: bool,
                    kept: set<string>): (after: Live)
      ensures after.namespaces == before.namespaces && after.bridges == before.bridges
              && after.configured == before.configured
      ensures before.veths.Keys <= after.veths.Keys <= before.veths.Keys + {link.left.port, link.right.port}
      ensures forall p | p in after.veths ::
                after.veths[p] == if p in before.veths then before.veths[p] else id
      ensures forall p | p in after.veths && p !in before.veths :: p.namespace in before.namespaces
      ensures before.temporaries <= after.temporaries
              <= before.temporaries + {link.left.temporary, link.right.temporary}
    {
      var left := WithEnd(before, before.veths, link.left.port, id, placeLeft);
      var both := WithEnd(before, left, link.right.port, id, placeRight);
      before.(veths := both, temporaries := before.temporaries + kept * {link.left.temporary, link.right.temporary})
    }

    /** Creates both ends under temporary root names and moves them. Any part may be left behind. */
    method CreateVeth(link: Link) returns (o: Outcome)
      requires Linked()
      modifies this`faults, this`trace, this`live, this`nextLink
      ensures Stepped(MakeVeth(link), o)
      ensures file == old(file) && routing == old(routing) && nextLink == old(nextLink) + 1
      ensures live.namespaces == old(live).namespaces && live.bridges == old(live).bridges
              && live.configured == old(live).configured
      ensures old(live).veths.Keys <= live.veths.Keys <= old(live).veths.Keys + {link.left.port, link.right.port}
      ensures forall p | p in live.veths ::
                live.veths[p] == if p in old(live).veths then old(live).veths[p] else old(nextLink)
      ensures old(live).temporaries <= live.temporaries
              <= old(live).temporaries + {link.left.temporary, link.right.temporary}
      ensures faults == old(faults) ==>
                if link.left.port.namespace !in old(live).namespaces
                  || link.right.port.namespace !in old(live).namespaces
                then o == Raised(Coded(ResourceMissing))
                else if link.left.port in old(live).veths || link.right.port in old(live).veths
                then o == Raised(Coded(ResourceExists))
                else o == Done
                     && live == old(live).(veths := WithEnds(old(live).veths, link, old(nextLink)))
      ensures faults <= old(faults)
      ensures o.Raised? ==> o.error.Injectable()
    {
      ghost var before := Now();
      var exact;
      o, exact := Draw();
      var placeLeft: bool, placeRight: bool, kept: set<string> := *, *, *;
      var bothThere := link.left.port.namespace in live.namespaces && link.right.port.namespace in live.namespaces;
      if exact {
        if !bothThere {
          o := Raised(Coded(ResourceMissing));
        } else if link.left.port in live.veths || link.right.port in live.veths {
          o := Raised(Coded(ResourceExists));
        } else {
          live := live.(veths := WithEnds(live.veths, link, nextLink));
        }
      } else {
        live := PartOf(link, live, nextLink, placeLeft, placeRight, kept);
      }
      nextLink := nextLink + 1;
      Record(MakeVeth(link), o, before);
    }

    method Configure(namespace: string) returns (o: Outcome)
      requires Linked()
      modifies this`faults, this`trace, this`live
      ensures Stepped(SetUp(namespace), o)
      ensures file == old(file) && routing == old(routing)
      ensures live == old(live)
              || (namespace in live.namespaces && live == old(live).(configured := old(live).configured + {namespace}))
      ensures faults == old(faults) ==>
                if namespace !in old(live).namespaces then o == Raised(Coded(ResourceMissing))
                else o == Done && namespace in live.configured
      ensures faults <= old(faults)
      ensures o.Raised? ==> o.error.Injectable()
    {
      ghost var before := Now();
      var exact;
      o, exact := Draw();
      var applied: bool := *;
      if namespace !in live.namespaces {
        o := if exact then Raised(Coded(ResourceMissing)) else o;
      } else if exact || applied {
        live := live.(configured := live.configured + {namespace});
      }
      Record(SetUp(namespace), o, before);
    }

    /** Removes a namespace with all it holds and the far ends of its veth pairs. */
    method DeleteNamespace(namespace: string) returns (o: Outcome)
      requires Linked()
      modifies this`faults, this`trace, this`live
      ensures Stepped(RemoveNamespace(namespace), o)
      ensures file == old(file) && routing == old(routing)
      ensures Shrinks(old(live), live) && live.temporaries == old(live).temporaries
      ensures old(live).namespaces - {namespace} <= live.namespaces
      ensures old(live).bridges - {namespace} <= live.bridges && old(live).configured - {namespace} <= live.configured
      ensures forall p | p in old(live).veths && p !in live.veths ::
                p.namespace == namespace
                || exists q ::
                     q in old(live).veths && q.namespace == namespace && old(live).veths[q] == old(live).veths[p]
      ensures faults == old(faults) ==>
                && live.namespaces == old(live).namespaces - {namespace}
                && (o == Done || (namespace !in old(live).namespaces && o == Raised(Coded(ResourceMissing))))
      ensures faults <= old(faults)
      ensures o.Raised? ==> o.error.Injectable()
    {
      ghost var before := Now();
      var exact;
      o, exact := Draw();
      var applied: bool, unconfigured: bool := *, *;
      if exact || applied {
        if exact && namespace !in live.namespaces {
          var tolerated: bool := *;
          o := if tolerated then Done else Raised(Coded(ResourceMissing));
        }
        var gone := set p | p in live.veths && p.namespace == namespace :: live.veths[p];
        live := Live(
          live.namespaces - {namespace},
          live.bridges - {namespace},
          map p | p in live.veths && p.namespace != namespace && live.veths[p] !in gone :: live.veths[p],
          live.configured - {namespace},
          live.temporaries);
      } else if unconfigured {
        live := live.(configured := live.configured - {namespace});
      }
      Record(RemoveNamespace(namespace), o, before);
    }

    method StartRouting() returns (o: Outcome)
      requires Linked()
      modifies this`faults, this`trace, this`routing
      ensures Stepped(LaunchRouting, o)
      ensures file == old(file) && live == old(live)
      ensures faults == old(faults) ==> o == Done && routing
      ensures faults <= old(faults)
      ensures o.Raised? ==> o.error.Injectable()
    {
      ghost var before := Now();
      var exact;
      o, exact := Draw();
      var applied: bool := *;
      routing := if exact || applied then true else routing;
      Record(LaunchRouting, o, before);
    }

    /** Success means that every daemon is gone. */
    method StopRouting() returns (o: Outcome)
      requires Linked()
      modifies this`faults, this`trace, this`routing
      ensures Stepped(HaltRouting, o)
      ensures file == old(file) && live == old(live)
      ensures routing ==> old(routing)
      ensures o == Done ==> !routing
      ensures faults == old(faults) ==> o == Done
      ensures faults <= old(faults)
      ensures o.Raised? ==> o.error.Injectable()
    {
      ghost var before := Now();
      var exact;
      o, exact := Draw();
      var applied: bool := *;
      routing := if o == Done || applied then false else routing;
      Record(HaltRouting, o, before);
    }

    /** Truthful whenever it returns. */
    method Inventory(plan: Plan) returns (o: Outcome, inventory: Live)
      requires Linked()
      modifies this`faults, this`trace
      ensures Stepped(Observe, o)
      ensures o == Done ==> inventory == Observed(plan, live)
      ensures faults == old(faults) ==> o == Done
      ensures faults <= old(faults)
      ensures o.Raised? ==> o.error.Injectable()
    {
      o := Aside();
      inventory := Observed(plan, live);
    }
  }
}
