/** Where the bytes go that are accounted and never reported. */
module Shortfall {
  import opened Sampling
  import opened Accounting

  /** Every byte accounted since the priming tick is in exactly one column. */
  ghost predicate Exact(a: Account, s: Machine, l: Ledger) {
    s.primed ==>
      && l.passed == Credit(a, s, l) + l.lost + Hidden(s, a, l)
      && (!l.broken ==> Base(s, a) <= Counter(s, a))
  }

  lemma {:induction false} ExactEnter(a: Account, s: Machine, l: Ledger, e: Event)
    requires Exact(a, s, l) && Begins(s, e)
    ensures Exact(a, Step(s, e), Book(a, s, l, e, true))
  {
    var s' := Step(s, e);
    InFlightUpdate(s.cpus, e.cpu, s'.cpus[e.cpu], a);
    assert Pending(s', a) == Pending(s, a);
  }

  lemma {:induction false} ExactFinish(a: Account, s: Machine, l: Ledger, e: Event)
    requires Exact(a, s, l) && Ends(s, e)
    ensures Exact(a, Step(s, e), Book(a, s, l, e, true))
  {
    var s', call := Step(s, e), s.cpus[e.cpu];
    InFlightUpdate(s.cpus, e.cpu, Idle, a);
    if !Concerns(call, a) {
      assert Counter(s', a) == Counter(s, a) && Pending(s', a) == Pending(s, a);
    } else if call.Adding? {
      var found := a.tgid in s.entries && s.entries[a.tgid].id == call.id;
      assert Counter(s', a) == Counter(s, a) + if found then call.bytes else 0;
    } else {
      assert Counter(s', a) == Counter(s, a) + if a.tgid in s.entries then 0 else call.bytes;
    }
  }

  lemma {:induction false} ExactStep(a: Account, s: Machine, l: Ledger, e: Event)
    requires Exact(a, s, l)
    ensures Exact(a, Step(s, e), Book(a, s, l, e, true))
  {
    if Begins(s, e) {
      ExactEnter(a, s, l, e);
    } else if Ends(s, e) {
      ExactFinish(a, s, l, e);
    }
  }

  lemma {:induction false} ExactRun(n: nat, events: seq<Event>, a: Account)
    ensures Exact(a, Run(Init(n), events), Books(a, Init(n), events, true))
  {
    if events != [] {
      var front := events[..|events| - 1];
      ExactRun(n, front, a);
      ExactStep(a, Run(Init(n), front), Books(a, Init(n), front, true), events[|events| - 1]);
    }
  }

  /** Over every run the shortfall is exactly this: what was pending when an element was dropped, adds
      through a reference to a dropped element, and for each recreated counter that had passed the old
      baseline by the next tick, that baseline. */
  lemma {:induction false} ShortfallIsExact(n: nat, events: seq<Event>, a: Account)
    requires Run(Init(n), events).primed
    ensures var s, l := Run(Init(n), events), Books(a, Init(n), events, true);
            l.passed == l.reported + Pending(s, a) + InFlight(s.cpus, a) + l.raced + l.lost + Hidden(s, a, l)
  {
    ExactRun(n, events, a);
  }

  // ---------------------------------------------------------------------------------------------
  // A recreated counter that is not recognised as one
  // ---------------------------------------------------------------------------------------------

  /** The state and the books after one more event. */
  lemma {:induction false} Onwards(
    n: nat, events: seq<Event>, e: Event, a: Account, s: Machine, l: Ledger)
    requires s == Run(Init(n), events) && l == Books(a, Init(n), events, true)
    ensures Run(Init(n), events + [e]) == Step(s, e)
    ensures Books(a, Init(n), events + [e], true) == Book(a, s, l, e, true)
  {
    assert (events + [e])[..|events|] == events;
  }

  /** After one whole call for a process that is not in the map. */
  function Called(s: Machine, t: Tgid, bytes: nat): Machine {
    s.(entries := s.entries[t := Entry(Counters(bytes, 0), "", s.nextId)], nextId := s.nextId + 1)
  }

  /** CPU 0 accounts bytes that a process receives, from start to end. */
  lemma {:induction false} OneCall(n: nat, events: seq<Event>, t: Tgid, bytes: nat, s: Machine, l: Ledger)
    requires s == Run(Init(n), events) && l == Books(Account(t, Rx), Init(n), events, true)
    requires bytes > 0 && s.cpus != [] && s.cpus[0].Idle? && t !in s.entries
    ensures Run(Init(n), events + [Enter(0, t, "", Rx, bytes, true)] + [Finish(0)]) == Called(s, t, bytes)
    ensures Books(Account(t, Rx), Init(n), events + [Enter(0, t, "", Rx, bytes, true)] + [Finish(0)], true)
         == l.(passed := l.passed + bytes)
  {
    hide Run, Books;
    var a, e := Account(t, Rx), Enter(0, t, "", Rx, bytes, true);
    Onwards(n, events, e, a, s, l);
    var mid, books := Step(s, e), Book(a, s, l, e, true);
    Onwards(n, events + [e], Finish(0), a, mid, books);
    assert s.cpus[0 := mid.cpus[0]][0 := Idle] == s.cpus;
  }

  lemma {:induction false} PrimedThenEvicted(t: Tgid) returns (s: Machine, l: Ledger)
    ensures var events := [Enter(0, t, "", Rx, 10, true), Finish(0), Tick(0, {}), Evict(t)];
            s == Run(Init(1), events) && l == Books(Account(t, Rx), Init(1), events, true)
    ensures s == Machine(map[], [Idle], 1, true, map[t := Counters(10, 0)], {})
    ensures l == Ledger(0, 0, 0, 10, 0, true)
  {
    var a, e, f := Account(t, Rx), Enter(0, t, "", Rx, 10, true), Finish(0);
    OneCall(1, [], t, 10, Init(1), Blank);
    s, l := Called(Init(1), t, 10), Blank.(passed := 10);
    InFlightIdle(s.cpus, a);
    Onwards(1, [] + [e] + [f], Tick(0, {}), a, s, l);
    s, l := Step(s, Tick(0, {})), Book(a, s, l, Tick(0, {}), true);
    Onwards(1, [] + [e] + [f] + [Tick(0, {})], Evict(t), a, s, l);
    s, l := Step(s, Evict(t)), Book(a, s, l, Evict(t), true);
    assert [] + [e] + [f] + [Tick(0, {})] + [Evict(t)] == [e, f, Tick(0, {}), Evict(t)];
  }

  /** Ten bytes before the priming tick; the element is evicted and made anew with fifteen more. The
      counter has not gone backwards, so the tick takes it for the old one and reports five: ten of the
      fifteen bytes accounted since the priming tick are lost. */
  lemma {:induction false} RecreatedUnnoticed(t: Tgid)
    ensures var events := [Enter(0, t, "", Rx, 10, true), Finish(0), Tick(0, {}), Evict(t),
                           Enter(0, t, "", Rx, 15, true), Finish(0), Tick(1000, {})];
            Books(Account(t, Rx), Init(1), events, true) == Ledger(15, 5, 0, 10, 10, false)
  {
    var a, e, f := Account(t, Rx), Enter(0, t, "", Rx, 10, true), Finish(0);
    var e' := Enter(0, t, "", Rx, 15, true);
    var before := [e, f, Tick(0, {}), Evict(t)];
    var s, l := PrimedThenEvicted(t);
    OneCall(1, before, t, 15, s, l);
    s, l := Called(s, t, 15), l.(passed := l.passed + 15);
    Onwards(1, before + [e'] + [f], Tick(1000, {}), a, s, l);
    assert before + [e'] + [f] + [Tick(1000, {})] == [e, f, Tick(0, {}), Evict(t), e', f, Tick(1000, {})];
  }
}
