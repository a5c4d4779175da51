/**
 The accounting machine: CPUs running account() on the shared LRU map, the map dropping elements,
 and the daemon's tick reading and pruning it. A run is any sequence of events; an event that is
 not enabled does nothing, so every statement below about Run is about every interleaving.

 account() is two atomic steps, the lookup (Enter) and the add or insert that follows it (Finish).
 poll() and Aggregator::update() form one step: update() works on the list poll() returned, so
 whatever CPUs do in between commutes with it.
 */
module Accounting {
  import opened Sampling

  /** Where one CPU stands inside account(). */
  datatype Call =
    | Idle
    | Adding(tgid: Tgid, id: nat, dir: Direction, bytes: nat)
    | Inserting(tgid: Tgid, comm: string, dir: Direction, bytes: nat)

  datatype Machine = Machine(
    entries: map<Tgid, Entry>,        // the traffic map
    cpus: seq<Call>,
    nextId: nat,
    primed: bool,                     // m_clock.isValid()
    previous: map<Tgid, Counters>,    // m_previous
    doomed: set<Tgid>)                // dead pids that forget() has not reached yet

  datatype Event =
    | Enter(cpu: nat, tgid: Tgid, comm: string, dir: Direction, bytes: int, counted: bool)
    | Finish(cpu: nat)
    | Evict(tgid: Tgid)
    | Tick(elapsedMs: int, dead: set<Tgid>)
    | Forget(tgid: Tgid)

  function Init(cpuCount: nat): Machine {
    Machine(map[], seq(cpuCount, _ => Idle), 0, false, map[], {})
  }

  predicate Begins(s: Machine, e: Event) {
    e.Enter? && e.cpu < |s.cpus| && s.cpus[e.cpu].Idle? && e.bytes > 0 && e.counted
  }

  predicate Ends(s: Machine, e: Event) {
    e.Finish? && e.cpu < |s.cpus| && !s.cpus[e.cpu].Idle?
  }

  /** An element leaves the map, by eviction or because the daemon released a dead process. */
  predicate Drops(s: Machine, e: Event, t: Tgid) {
    t in s.entries && (e == Evict(t) || (e == Forget(t) && t in s.doomed))
  }

  predicate Primes(s: Machine, e: Event) {
    e.Tick? && s.doomed == {} && !s.primed
  }

  predicate Reports(s: Machine, e: Event) {
    e.Tick? && s.doomed == {} && s.primed && e.elapsedMs > 0
  }

  /** The second half of account(). */
  function Complete(entries: map<Tgid, Entry>, nextId: nat, call: Call): map<Tgid, Entry> {
    match call
    case Idle => entries
    case Adding(t, id, d, b) =>
      if t in entries && entries[t].id == id
      then entries[t := entries[t].(counters := entries[t].counters.Plus(d, b))]
      else entries
    case Inserting(t, comm, d, b) =>
      if t in entries then entries else entries[t := Entry(Zero.Plus(d, b), comm, nextId)]
  }

  function Step(s: Machine, e: Event): Machine {
    match e
    case Enter(cpu, t, comm, d, b, counted) =>
      if !Begins(s, e) then s
      else s.(cpus := s.cpus[cpu := if t in s.entries then Adding(t, s.entries[t].id, d, b)
                                    else Inserting(t, comm, d, b)])
    case Finish(cpu) =>
      if !Ends(s, e) then s
      else s.(entries := Complete(s.entries, s.nextId, s.cpus[cpu]),
              cpus := s.cpus[cpu := Idle],
              nextId := s.nextId + 1)
    case Evict(t) => s.(entries := s.entries - {t})
    case Tick(elapsedMs, dead) =>
      if s.doomed != {} then s
      else if !s.primed then s.(primed := true, previous := CountersOf(s.entries))
      else if elapsedMs <= 0 then s
      else s.(previous := CountersOf(s.entries), doomed := dead * s.entries.Keys)
    case Forget(t) =>
      if t !in s.doomed then s else s.(entries := s.entries - {t}, doomed := s.doomed - {t})
  }

  function Run(s: Machine, events: seq<Event>): Machine {
    if events == [] then s else Step(Run(s, events[..|events| - 1]), events[|events| - 1])
  }

  // ---------------------------------------------------------------------------------------------
  // Bookkeeping for one account: one process, one direction
  // ---------------------------------------------------------------------------------------------

  datatype Account = Account(tgid: Tgid, dir: Direction)

  predicate Concerns(call: Call, a: Account) {
    !call.Idle? && call.tgid == a.tgid && call.dir == a.dir
  }

  function Weight(call: Call, a: Account): nat {
    if Concerns(call, a) then call.bytes else 0
  }

  /** Bytes handed to account() by calls that have not finished. */
  function InFlight(cpus: seq<Call>, a: Account): nat {
    if cpus == [] then 0 else Weight(cpus[0], a) + InFlight(cpus[1..], a)
  }

  function Counter(s: Machine, a: Account): nat {
    if a.tgid in s.entries then s.entries[a.tgid].counters.Of(a.dir) else 0
  }

  /** What a reporting tick taken now would publish for the account. */
  function Pending(s: Machine, a: Account): nat {
    if a.tgid in s.entries
    then Delta(ValueOf(s.previous, a.tgid).Of(a.dir), s.entries[a.tgid].counters.Of(a.dir))
    else 0
  }

  /**
   passed: bytes handed to account(); reported: the sum of the published deltas;
   raced: bytes of calls that lost the race to insert; dropped: what elements held when they left
   the map, and adds through a reference to such an element; lost: the bytes among those that will
   never be reported; broken: the element was dropped since the last baseline.
   */
  datatype Ledger = Ledger(passed: nat, reported: nat, raced: nat, dropped: nat, lost: nat, broken: bool)

  const Blank := Ledger(0, 0, 0, 0, 0, false)

  function Base(s: Machine, a: Account): nat {
    ValueOf(s.previous, a.tgid).Of(a.dir)
  }

  /** A recreated counter that has passed the baseline of the element before it does not look like one
      that went backwards: the baseline hides that many of its bytes from the next tick. */
  function Hidden(s: Machine, a: Account, l: Ledger): nat {
    if l.broken && a.tgid in s.entries && Counter(s, a) >= Base(s, a) then Base(s, a) else 0
  }

  /** With restart, the books are opened anew at the priming tick with the calls then in flight. */
  function Book(a: Account, s: Machine, l: Ledger, e: Event, restart: bool): Ledger {
    match e
    case Enter(_, t, _, d, b, _) =>
      if Begins(s, e) && Account(t, d) == a then l.(passed := l.passed + b) else l
    case Finish(cpu) =>
      if !Ends(s, e) || !Concerns(s.cpus[cpu], a) then l
      else if s.cpus[cpu].Adding? then
        if a.tgid in s.entries && s.entries[a.tgid].id == s.cpus[cpu].id then l
        else l.(dropped := l.dropped + s.cpus[cpu].bytes, lost := l.lost + s.cpus[cpu].bytes)
      else
        if a.tgid in s.entries then l.(raced := l.raced + s.cpus[cpu].bytes) else l
    case Tick(_, _) =>
      if Primes(s, e) then
        if restart then Blank.(passed := InFlight(s.cpus, a)) else l.(broken := false)
      else if Reports(s, e) then
        l.(reported := l.reported + Pending(s, a), lost := l.lost + Hidden(s, a, l), broken := false)
      else l
    case _ =>
      if Drops(s, e, a.tgid) then
        l.(dropped := l.dropped + Counter(s, a), lost := l.lost + Pending(s, a) + Hidden(s, a, l), broken := true)
      else l
  }

  function Books(a: Account, s: Machine, events: seq<Event>, restart: bool): Ledger {
    if events == [] then Blank
    else
      var front := events[..|events| - 1];
      Book(a, Run(s, front), Books(a, s, front, restart), events[|events| - 1], restart)
  }

  lemma {:induction false} InFlightUpdate(cpus: seq<Call>, i: nat, call: Call, a: Account)
    requires i < |cpus|
    ensures InFlight(cpus[i := call], a) == InFlight(cpus, a) - Weight(cpus[i], a) + Weight(call, a)
  {
    if i == 0 {
      assert cpus[i := call][1..] == cpus[1..];
    } else {
      assert cpus[i := call][1..] == cpus[1..][i - 1 := call];
      InFlightUpdate(cpus[1..], i - 1, call, a);
    }
  }

  lemma {:induction false} InFlightIdle(cpus: seq<Call>, a: Account)
    requires forall i :: 0 <= i < |cpus| ==> !Concerns(cpus[i], a)
    ensures InFlight(cpus, a) == 0
  {
    if cpus != [] {
      forall i | 0 <= i < |cpus[1..]| ensures !Concerns(cpus[1..][i], a) {
        assert cpus[1..][i] == cpus[i + 1];
      }
      InFlightIdle(cpus[1..], a);
    }
  }

  // ---------------------------------------------------------------------------------------------
  // The kernel side alone: nothing is lost track of
  // ---------------------------------------------------------------------------------------------

  ghost predicate Conserved(a: Account, s: Machine, l: Ledger) {
    l.passed == Counter(s, a) + InFlight(s.cpus, a) + l.raced + l.dropped
  }

  lemma {:induction false} ConservedStep(a: Account, s: Machine, l: Ledger, e: Event)
    requires Conserved(a, s, l)
    ensures Conserved(a, Step(s, e), Book(a, s, l, e, false))
  {
    if Begins(s, e) {
      InFlightUpdate(s.cpus, e.cpu, Step(s, e).cpus[e.cpu], a);
    } else if Ends(s, e) {
      ConservedFinish(a, s, l, e);
    }
  }

  lemma {:induction false} ConservedFinish(a: Account, s: Machine, l: Ledger, e: Event)
    requires Conserved(a, s, l) && Ends(s, e)
    ensures Conserved(a, Step(s, e), Book(a, s, l, e, false))
  {
    InFlightUpdate(s.cpus, e.cpu, Idle, a);
    if !Concerns(s.cpus[e.cpu], a) {
      assert Counter(Step(s, e), a) == Counter(s, a);
    }
  }

  /** Over every interleaving, each byte handed to account() is in the counter, still in flight,
      in a call that lost the race to insert, or in an element that was dropped. */
  lemma {:induction false} KernelConservation(n: nat, events: seq<Event>, a: Account)
    ensures Conserved(a, Run(Init(n), events), Books(a, Init(n), events, false))
  {
    if events == [] {
      InFlightIdle(Init(n).cpus, a);
    } else {
      var front := events[..|events| - 1];
      KernelConservation(n, front, a);
      ConservedStep(a, Run(Init(n), front), Books(a, Init(n), front, false), events[|events| - 1]);
    }
  }

  /** A run in which the element of t never leaves the map. */
  ghost predicate Undropped(s: Machine, events: seq<Event>, t: Tgid) {
    forall i :: 0 <= i < |events| ==> !Drops(Run(s, events[..i]), events[i], t)
  }

  lemma {:induction false} UndroppedFront(s: Machine, events: seq<Event>, t: Tgid)
    requires Undropped(s, events, t) && events != []
    ensures Undropped(s, events[..|events| - 1], t)
    ensures !Drops(Run(s, events[..|events| - 1]), events[|events| - 1], t)
  {
    var front := events[..|events| - 1];
    forall i | 0 <= i < |front| ensures !Drops(Run(s, front[..i]), front[i], t) {
      assert front[..i] == events[..i];
      assert !Drops(Run(s, events[..i]), events[i], t);
    }
  }

  /** References held by CPUs designate the element that is in the map. */
  ghost predicate ReferencesLive(s: Machine, t: Tgid) {
    forall i :: 0 <= i < |s.cpus| && s.cpus[i].Adding? && s.cpus[i].tgid == t ==>
      t in s.entries && s.entries[t].id == s.cpus[i].id
  }

  lemma {:induction false} ReferencesLiveStep(s: Machine, e: Event, t: Tgid)
    requires ReferencesLive(s, t) && !Drops(s, e, t)
    ensures ReferencesLive(Step(s, e), t)
  {
  }

  lemma {:induction false} UndroppedLosesNothing(n: nat, events: seq<Event>, a: Account, restart: bool)
    requires Undropped(Init(n), events, a.tgid)
    ensures ReferencesLive(Run(Init(n), events), a.tgid)
    ensures Books(a, Init(n), events, restart).dropped == 0
  {
    if events != [] {
      var front, e := events[..|events| - 1], events[|events| - 1];
      UndroppedFront(Init(n), events, a.tgid);
      UndroppedLosesNothing(n, front, a, restart);
      ReferencesLiveStep(Run(Init(n), front), e, a.tgid);
      assert Book(a, Run(Init(n), front), Books(a, Init(n), front, restart), e, restart).dropped == 0;
    }
  }

  /** While the element stays in the map, its counter plus the bytes of calls that lost the race
      to create it is everything that was handed to account(). */
  lemma {:induction false} CounterIsExact(n: nat, events: seq<Event>, a: Account)
    requires Undropped(Init(n), events, a.tgid)
    requires forall c :: c in Run(Init(n), events).cpus ==> !Concerns(c, a)
    ensures Books(a, Init(n), events, false).passed
         == Counter(Run(Init(n), events), a) + Books(a, Init(n), events, false).raced
  {
    KernelConservation(n, events, a);
    UndroppedLosesNothing(n, events, a, false);
    InFlightIdle(Run(Init(n), events).cpus, a);
  }

  /** No step other than a drop overwrites an element or lowers one of its counters. */
  lemma {:induction false} CountersOnlyGrow(s: Machine, e: Event, a: Account)
    requires a.tgid in s.entries && !Drops(s, e, a.tgid)
    ensures a.tgid in Step(s, e).entries
    ensures Step(s, e).entries[a.tgid].id == s.entries[a.tgid].id
    ensures Step(s, e).entries[a.tgid].comm == s.entries[a.tgid].comm
    ensures Counter(s, a) <= Counter(Step(s, e), a)
    ensures Counter(Step(s, e), a) - Counter(s, a)
         == if Ends(s, e) && Concerns(s.cpus[e.cpu], a) && s.cpus[e.cpu].Adding?
               && s.cpus[e.cpu].id == s.entries[a.tgid].id
            then s.cpus[e.cpu].bytes else 0
  {
  }

  // ---------------------------------------------------------------------------------------------
  // The race to create an element
  // ---------------------------------------------------------------------------------------------

  /** Who created the current element of one process, and whose insert came too late. */
  datatype Race = Race(creator: int, losers: set<int>, lostCalls: nat)

  function Judge(t: Tgid, s: Machine, r: Race, e: Event): Race {
    if Ends(s, e) && s.cpus[e.cpu].Inserting? && s.cpus[e.cpu].tgid == t then
      if t in s.entries then Race(r.creator, r.losers + {e.cpu}, r.lostCalls + 1)
      else Race(e.cpu, {}, 0)
    else r
  }

  function Judgement(t: Tgid, s: Machine, events: seq<Event>): Race {
    if events == [] then Race(-1, {}, 0)
    else
      var front := events[..|events| - 1];
      Judge(t, Run(s, front), Judgement(t, s, front), events[|events| - 1])
  }

  ghost predicate FairRace(t: Tgid, s: Machine, r: Race) {
    t in s.entries ==>
      && 0 <= r.creator < |s.cpus| && r.creator !in r.losers
      && (forall i :: i in r.losers ==> 0 <= i < |s.cpus|)
      && r.lostCalls == |r.losers|
      && forall i :: 0 <= i < |s.cpus| && s.cpus[i].Inserting? && s.cpus[i].tgid == t ==>
           i != r.creator && i !in r.losers
  }

  lemma {:induction false} FairRaceStep(t: Tgid, s: Machine, r: Race, e: Event)
    requires FairRace(t, s, r)
    ensures FairRace(t, Step(s, e), Judge(t, s, r, e))
    ensures |Step(s, e).cpus| == |s.cpus|
  {
  }

  lemma {:induction false} FairRaceRun(n: nat, events: seq<Event>, t: Tgid)
    ensures |Run(Init(n), events).cpus| == n
    ensures FairRace(t, Run(Init(n), events), Judgement(t, Init(n), events))
  {
    if events != [] {
      var front := events[..|events| - 1];
      FairRaceRun(n, front, t);
      FairRaceStep(t, Run(Init(n), front), Judgement(t, Init(n), front), events[|events| - 1]);
    }
  }

  lemma {:induction false} BoundedCard(s: set<int>, n: nat)
    requires forall i :: i in s ==> 0 <= i < n
    ensures |s| <= n
  {
    if n == 0 {
      assert forall i :: i !in s;
    } else {
      BoundedCard(s - {n - 1}, n - 1);
    }
  }

  /** Each creation of an element costs at most one call per CPU other than the one that created
      it: a CPU that lost once finds the element the next time. */
  lemma {:induction false} AtMostOneLossPerOtherCpu(n: nat, events: seq<Event>, t: Tgid)
    requires t in Run(Init(n), events).entries
    ensures Judgement(t, Init(n), events).lostCalls <= n - 1
  {
    FairRaceRun(n, events, t);
    var r := Judgement(t, Init(n), events);
    BoundedCard(r.losers + {r.creator}, n);
    assert |r.losers + {r.creator}| == |r.losers| + 1;
  }

  // ---------------------------------------------------------------------------------------------
  // The daemon side: what is reported against what was accounted since the priming tick
  // ---------------------------------------------------------------------------------------------

  function Credit(a: Account, s: Machine, l: Ledger): nat {
    l.reported + Pending(s, a) + InFlight(s.cpus, a) + l.raced
  }

  /** The inductive invariant. A broken account is one whose element was dropped since the last
      baseline: until its new counter passes the old baseline, that baseline is still to be lost. */
  ghost predicate Balanced(a: Account, s: Machine, l: Ledger) {
    var base := ValueOf(s.previous, a.tgid).Of(a.dir);
    s.primed ==>
      && Credit(a, s, l) <= l.passed
      && l.passed <= Credit(a, s, l) + l.dropped
      && (!l.broken ==> base <= Counter(s, a))
      && (Counter(s, a) < base ==> l.passed + base <= Credit(a, s, l) + l.dropped)
  }

  lemma {:induction false} BalancedEnter(a: Account, s: Machine, l: Ledger, e: Event)
    requires Balanced(a, s, l) && Begins(s, e)
    ensures Balanced(a, Step(s, e), Book(a, s, l, e, true))
  {
    var s' := Step(s, e);
    InFlightUpdate(s.cpus, e.cpu, s'.cpus[e.cpu], a);
    assert Pending(s', a) == Pending(s, a);
  }

  lemma {:induction false} BalancedFinish(a: Account, s: Machine, l: Ledger, e: Event)
    requires Balanced(a, s, l) && Ends(s, e)
    ensures Balanced(a, Step(s, e), Book(a, s, l, e, true))
  {
    var s' := Step(s, e);
    var call := s.cpus[e.cpu];
    InFlightUpdate(s.cpus, e.cpu, Idle, a);
    if !Concerns(call, a) {
      assert Counter(s', a) == Counter(s, a) && Pending(s', a) == Pending(s, a);
    } else if call.Adding? {
      var found := a.tgid in s.entries && s.entries[a.tgid].id == call.id;
      assert Counter(s', a) == Counter(s, a) + if found then call.bytes else 0;
    } else {
      assert Counter(s', a) == Counter(s, a) + if a.tgid in s.entries then 0 else call.bytes;
    }
  }

  lemma {:induction false} BalancedStep(a: Account, s: Machine, l: Ledger, e: Event)
    requires Balanced(a, s, l)
    ensures Balanced(a, Step(s, e), Book(a, s, l, e, true))
  {
    if Begins(s, e) {
      BalancedEnter(a, s, l, e);
    } else if Ends(s, e) {
      BalancedFinish(a, s, l, e);
    }
  }

  lemma {:induction false} BalancedRun(n: nat, events: seq<Event>, a: Account)
    ensures Balanced(a, Run(Init(n), events), Books(a, Init(n), events, true))
  {
    if events != [] {
      var front := events[..|events| - 1];
      BalancedRun(n, front, a);
      BalancedStep(a, Run(Init(n), front), Books(a, Init(n), front, true), events[|events| - 1]);
    }
  }

  /** Over every interleaving of accounting, eviction, ticks, skipped ticks, releases and pid reuse,
      what has been reported (even with what the next tick would add) never exceeds what was
      accounted since the priming tick; the shortfall is never more than what elements held when
      they were dropped. */
  lemma {:induction false} NeverOverReported(n: nat, events: seq<Event>, a: Account)
    requires Run(Init(n), events).primed
    ensures var s, l := Run(Init(n), events), Books(a, Init(n), events, true);
            && l.reported + Pending(s, a) + InFlight(s.cpus, a) + l.raced <= l.passed
            && l.passed <= l.reported + Pending(s, a) + InFlight(s.cpus, a) + l.raced + l.dropped
  {
    BalancedRun(n, events, a);
  }

  /** With no element dropped, reporting is exact. */
  lemma {:induction false} ExactWhenUndropped(n: nat, events: seq<Event>, a: Account)
    requires Run(Init(n), events).primed
    requires Undropped(Init(n), events, a.tgid)
    ensures var s, l := Run(Init(n), events), Books(a, Init(n), events, true);
            l.passed == l.reported + Pending(s, a) + InFlight(s.cpus, a) + l.raced
  {
    NeverOverReported(n, events, a);
    UndroppedLosesNothing(n, events, a, true);
  }

  /** Right after a reporting tick that no call straddles, everything accounted has been reported. */
  lemma {:induction false} SettledAfterTick(n: nat, events: seq<Event>, e: Event, a: Account)
    requires Undropped(Init(n), events + [e], a.tgid)
    requires Reports(Run(Init(n), events), e)
    requires forall c :: c in Run(Init(n), events).cpus ==> !Concerns(c, a)
    ensures var l := Books(a, Init(n), events + [e], true);
            l.passed == l.reported + l.raced
  {
    assert (events + [e])[..|events|] == events;
    InFlightIdle(Run(Init(n), events).cpus, a);
    ExactWhenUndropped(n, events + [e], a);
  }

  lemma {:induction false} RunLast(s: Machine, before: seq<Event>, after: seq<Event>, a: Account)
    requires after != []
    ensures var front, e := after[..|after| - 1], after[|after| - 1];
            && Run(s, before + after) == Step(Run(s, before + front), e)
            && Books(a, s, before + after, true)
               == Book(a, Run(s, before + front), Books(a, s, before + front, true), e, true)
  {
    assert (before + after)[..|before + after| - 1] == before + after[..|after| - 1];
  }

  lemma {:induction false} SkippedTickIsIdle(s: Machine, l: Ledger, skipped: Event, a: Account)
    requires skipped.Tick? && s.primed && skipped.elapsedMs <= 0
    ensures Step(s, skipped) == s && Book(a, s, l, skipped, true) == l
  {
  }

  /** A tick with no time elapsed can be taken out of any run: the next tick reports both windows, and
      machine and books are as if it had not been. */
  lemma {:induction false} SkippedTickDefers(
    s: Machine, before: seq<Event>, skipped: Event, after: seq<Event>, a: Account)
    requires skipped.Tick? && Run(s, before).primed && skipped.elapsedMs <= 0
    ensures Run(s, before + [skipped] + after) == Run(s, before + after)
    ensures Books(a, s, before + [skipped] + after, true) == Books(a, s, before + after, true)
  {
    hide Step, Book;
    if after == [] {
      RunLast(s, before, [skipped], a);
      SkippedTickIsIdle(Run(s, before), Books(a, s, before, true), skipped, a);
      assert before + [skipped] + after == before + [skipped];
      assert before + [skipped][..0] == before && before + after == before;
    } else {
      RunLast(s, before + [skipped], after, a);
      RunLast(s, before, after, a);
      SkippedTickDefers(s, before, skipped, after[..|after| - 1], a);
    }
  }
}
