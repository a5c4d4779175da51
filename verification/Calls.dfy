/** What the traffic map and the books hold, in terms of the calls of account() alone. */
module Calls {
  import opened Sampling
  import opened Accounting

  /** The add or insert at the end of a call, field by field: a new element starts with the bytes of its
      creator in the creator's direction, nothing in the other, and the creator's comm. */
  lemma {:induction false} FinishStores(s: Machine, cpu: nat)
    requires cpu < |s.cpus| && !s.cpus[cpu].Idle?
    ensures var call, after := s.cpus[cpu], Step(s, Finish(cpu)).entries;
            && after.Keys == s.entries.Keys + (if call.Inserting? then {call.tgid} else {})
            && (forall t :: t in s.entries && t != call.tgid ==> after[t] == s.entries[t])
            && (call.tgid !in s.entries && call.Inserting? ==>
                  && after[call.tgid].comm == call.comm
                  && after[call.tgid].counters.rx == (if call.dir == Rx then call.bytes else 0)
                  && after[call.tgid].counters.tx == (if call.dir == Tx then call.bytes else 0))
            && (call.tgid in s.entries ==>
                  var was, now := s.entries[call.tgid], after[call.tgid];
                  var adds := call.Adding? && call.id == was.id;
                  && now.comm == was.comm && now.id == was.id
                  && now.counters.rx == was.counters.rx + (if adds && call.dir == Rx then call.bytes else 0)
                  && now.counters.tx == was.counters.tx + (if adds && call.dir == Tx then call.bytes else 0))
  {
  }

  /** An event that hands bytes of a process to account(), with this comm: an internet socket that is not
      loopback, and more than no bytes. */
  predicate Hands(e: Event, t: Tgid, comm: string) {
    e.Enter? && e.tgid == t && e.comm == comm && e.bytes > 0 && e.counted
  }

  ghost predicate HandedWith(events: seq<Event>, t: Tgid, comm: string) {
    exists i :: 0 <= i < |events| && Hands(events[i], t, comm)
  }

  lemma {:induction false} HandedSooner(events: seq<Event>, t: Tgid, comm: string)
    requires events != [] && HandedWith(events[..|events| - 1], t, comm)
    ensures HandedWith(events, t, comm)
  {
    var i :| 0 <= i < |events| - 1 && Hands(events[..|events| - 1][i], t, comm);
    assert Hands(events[i], t, comm);
  }

  /** Every comm in sight, in an element or on its way into one, came with a call of that process. */
  ghost predicate CommsTraced(s: Machine, events: seq<Event>) {
    && (forall t :: t in s.entries ==> HandedWith(events, t, s.entries[t].comm))
    && (forall i :: 0 <= i < |s.cpus| && s.cpus[i].Inserting? ==>
          HandedWith(events, s.cpus[i].tgid, s.cpus[i].comm))
  }

  lemma {:induction false} CommsTracedStep(s: Machine, events: seq<Event>)
    requires events != [] && CommsTraced(s, events[..|events| - 1])
    ensures CommsTraced(Step(s, events[|events| - 1]), events)
  {
    var front, e := events[..|events| - 1], events[|events| - 1];
    var s' := Step(s, e);
    forall t, comm | HandedWith(front, t, comm) ensures HandedWith(events, t, comm) {
      HandedSooner(events, t, comm);
    }
    if e.Enter? && Hands(e, e.tgid, e.comm) {
      assert HandedWith(events, e.tgid, e.comm);
    }
    forall t | t in s'.entries ensures HandedWith(events, t, s'.entries[t].comm) {
      if t !in s.entries {
        assert e.Finish? && s.cpus[e.cpu].Inserting? && s.cpus[e.cpu].comm == s'.entries[t].comm;
      } else {
        assert s'.entries[t].comm == s.entries[t].comm;
      }
    }
  }

  /** Over every run, the comm of an element is that of a call of this very process, whose bytes were
      accounted. */
  lemma {:induction false} CommOfItsProcess(n: nat, events: seq<Event>)
    ensures CommsTraced(Run(Init(n), events), events)
  {
    if events != [] {
      var front, e := events[..|events| - 1], events[|events| - 1];
      CommOfItsProcess(n, front);
      CommsTracedStep(Run(Init(n), front), events);
    }
  }

  /** A CPU is inside account() from a call that has bytes to account until that call ends. */
  predicate Busy(events: seq<Event>, cpu: nat) {
    if events == [] then false
    else
      var e := events[|events| - 1];
      if e.Finish? && e.cpu == cpu then false
      else (e.Enter? && e.cpu == cpu && e.bytes > 0 && e.counted) || Busy(events[..|events| - 1], cpu)
  }

  /** The bytes that the calls of a run hand to account() for one process and direction: those of internet
      sockets other than loopback, each call on a CPU that is not inside account() already. */
  function Handed(n: nat, events: seq<Event>, a: Account): nat {
    if events == [] then 0
    else
      var front, e := events[..|events| - 1], events[|events| - 1];
      Handed(n, front, a)
      + if e.Enter? && e.tgid == a.tgid && e.dir == a.dir && e.counted && e.bytes > 0
           && e.cpu < n && !Busy(front, e.cpu)
        then e.bytes else 0
  }

  lemma {:induction false} IdleNext(s: Machine, e: Event, cpu: nat)
    requires cpu < |s.cpus|
    ensures |Step(s, e).cpus| == |s.cpus|
    ensures Step(s, e).cpus[cpu].Idle?
       <==> || (e.Finish? && e.cpu == cpu)
            || (s.cpus[cpu].Idle? && !(e.Enter? && e.cpu == cpu && e.bytes > 0 && e.counted))
  {
  }

  lemma {:induction false} BusyIsNotIdle(n: nat, events: seq<Event>, cpu: nat)
    requires cpu < n
    ensures |Run(Init(n), events).cpus| == n
    ensures Busy(events, cpu) <==> !Run(Init(n), events).cpus[cpu].Idle?
  {
    hide Step;
    if events != [] {
      var front := events[..|events| - 1];
      BusyIsNotIdle(n, front, cpu);
      IdleNext(Run(Init(n), front), events[|events| - 1], cpu);
    }
  }

  /** The books' passed column is what was handed in: so the theorems about it are about the calls. */
  lemma {:induction false} PassedIsHanded(n: nat, events: seq<Event>, a: Account)
    ensures |Run(Init(n), events).cpus| == n
    ensures Books(a, Init(n), events, false).passed == Handed(n, events, a)
  {
    if events != [] {
      var front, e := events[..|events| - 1], events[|events| - 1];
      PassedIsHanded(n, front, a);
      if e.Enter? && e.cpu < n {
        BusyIsNotIdle(n, front, e.cpu);
      }
    }
  }

  /** From calls to counters: over every run, the bytes handed in for a process are in its counter, in
      calls under way, in calls that lost the race to insert, or in elements that were dropped. */
  lemma {:induction false} HandedIsConserved(n: nat, events: seq<Event>, a: Account)
    ensures var s, l := Run(Init(n), events), Books(a, Init(n), events, false);
            var counter :=
              if a.tgid !in s.entries then 0
              else if a.dir == Rx then s.entries[a.tgid].counters.rx else s.entries[a.tgid].counters.tx;
            Handed(n, events, a) == counter + InFlight(s.cpus, a) + l.raced + l.dropped
  {
    KernelConservation(n, events, a);
    PassedIsHanded(n, events, a);
  }
}
