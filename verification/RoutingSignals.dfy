/** Whom a stop's signals reach: a number on record is taken for a process group first. */
module RoutingSignals {
  /** The processes besides the program itself: the group of each, and those that may be signalled. */
  datatype Processes = Processes(groupOf: map<nat, nat>, permitted: set<nat>) {
    function Alive(): (r: set<nat>) {
      groupOf.Keys
    }

    /** The group of a number. The number one stands for all processes but the first. */
    function Members(number: nat): (r: set<nat>) {
      if number == 1 then groupOf.Keys - {1} else set q | q in groupOf && groupOf[q] == number
    }

    /** What one attempt at a number reaches: nobody without a group, else the group and the process of that number. */
    function Reach(pid: nat): (r: set<nat>) {
      if Members(pid) == {} then {} else (Members(pid) + {pid}) * permitted
    }

    /** A process may be signalled, and its number names a group, or one of the numbers names a group it is in. */
    predicate Heard(pid: nat, pids: seq<nat>) {
      pid in permitted && (Members(pid) != {} || exists o :: o in pids && pid in Members(o))
    }

    /** In the group of a number there is nobody else to be signalled. */
    predicate Only(number: nat, pids: seq<nat>) {
      forall q | q in Members(number) && q in permitted :: q in pids
    }
  }

  datatype Answer = Delivered | NoSuchGroup | Denied

  /** A signal to a group, with those it reaches. */
  method SignalGroup(procs: Processes, number: nat) returns (answer: Answer, reached: set<nat>)
    ensures answer == NoSuchGroup <==> procs.Members(number) == {}
    ensures reached == procs.Members(number) * procs.permitted
    ensures answer == Denied ==> reached == {}
  {
    var members := procs.Members(number);
    reached := members * procs.permitted;
    answer := if members == {} then NoSuchGroup else if number != 1 && reached == {} then Denied else Delivered;
  }

  /**
   One recorded process: the group is signalled to end, or the process alone if that is denied. What is still
   there at the deadline is killed, group and process; who has got no signal is still there. Without a group
   the number is skipped.
   */
  method TerminateOne(procs: Processes, pid: nat) returns (skipped: bool, reached: set<nat>)
    requires pid in procs.Alive()
    ensures skipped <==> procs.Members(pid) == {}
    ensures reached == procs.Reach(pid)
  {
    var answer;
    answer, reached := SignalGroup(procs, pid);
    if answer == NoSuchGroup {
      return true, {};
    }
    if answer == Denied {
      reached := {pid} * procs.permitted;
    }
    skipped := false;
    var survives: bool := *;
    if pid !in reached || survives {
      var again;
      answer, again := SignalGroup(procs, pid);
      reached := reached + again + {pid} * procs.permitted;
    }
  }

  /** The deliveries for processes in the order found: last found, first stopped; one without a group has none. */
  function Deliveries(procs: Processes, pids: seq<nat>): (r: seq<set<nat>>) {
    if pids == [] then []
    else
      var last := pids[|pids| - 1];
      (if procs.Members(last) == {} then [] else [procs.Reach(last)]) + Deliveries(procs, pids[..|pids| - 1])
  }

  /** All that some delivery reached. */
  function Reached(deliveries: seq<set<nat>>): (r: set<nat>) {
    if deliveries == [] then {} else deliveries[0] + Reached(deliveries[1..])
  }

  lemma {:induction false} ReachedMeans(procs: Processes, pids: seq<nat>, q: nat)
    ensures q in Reached(Deliveries(procs, pids)) <==> exists p | p in pids :: q in procs.Reach(p)
  {
    if pids != [] {
      var last, rest := pids[|pids| - 1], pids[..|pids| - 1];
      ReachedMeans(procs, rest, q);
      assert forall p :: p in pids <==> p in rest || p == last;
      if procs.Members(last) != {} {
        assert Deliveries(procs, pids)[1..] == Deliveries(procs, rest);
      } else {
        assert Deliveries(procs, pids) == Deliveries(procs, rest);
      }
    }
  }

  /** All of the processes on record are signalled exactly if each of them is heard. */
  lemma AllHeard(procs: Processes, pids: seq<nat>)
    ensures (forall p | p in pids :: p in Reached(Deliveries(procs, pids))) <==>
              forall p | p in pids :: procs.Heard(p, pids)
  {
    forall p | p in pids
      ensures p in Reached(Deliveries(procs, pids)) <==> procs.Heard(p, pids)
    {
      ReachedMeans(procs, pids, p);
      if procs.Heard(p, pids) {
        assert procs.Members(p) != {} ==> p in procs.Reach(p);
        if procs.Members(p) == {} {
          var o :| o in pids && p in procs.Members(o);
          assert p in procs.Reach(o);
        }
      }
    }
  }

  /** No process but those on record is signalled exactly if their groups have no other members. */
  lemma NoneElse(procs: Processes, pids: seq<nat>)
    ensures (forall q | q in Reached(Deliveries(procs, pids)) :: q in pids) <==>
              forall p | p in pids :: procs.Only(p, pids)
  {
    forall q | q in Reached(Deliveries(procs, pids)) && forall p | p in pids :: procs.Only(p, pids)
      ensures q in pids
    {
      ReachedMeans(procs, pids, q);
    }
    forall p, q | p in pids && q in procs.Members(p) && q in procs.permitted
      ensures q in Reached(Deliveries(procs, pids))
    {
      assert q in procs.Reach(p);
      ReachedMeans(procs, pids, q);
    }
  }

  /**
   Exactly the processes on record are signalled if and only if each may be signalled and is in the group of
   a number on record, or its number names a group, and those groups have no member that is not on record.
   */
  lemma ExactlyIff(procs: Processes, pids: seq<nat>)
    ensures (forall q :: q in Reached(Deliveries(procs, pids)) <==> q in pids) <==>
            forall p | p in pids :: procs.Heard(p, pids) && procs.Only(p, pids)
  {
    AllHeard(procs, pids);
    NoneElse(procs, pids);
  }

  /** An existing process is passed over although it is on record: its number names no group. */
  lemma SilentlySkipped(procs: Processes, pid: nat)
    requires pid in procs.Alive() && procs.Members(pid) == {}
    ensures Deliveries(procs, [pid]) == [] && Reached(Deliveries(procs, [pid])) == {}
  {
  }

  /** The first process on record makes everybody a target. */
  lemma OneIsAll(procs: Processes, pids: seq<nat>, q: nat)
    requires 1 in pids && q in procs.Alive() && q != 1 && q in procs.permitted
    ensures q in Reached(Deliveries(procs, pids))
  {
    assert q in procs.Reach(1);
    ReachedMeans(procs, pids, q);
  }
}
