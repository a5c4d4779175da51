/** The traffic map as the daemon sees it, and the tick that composes poll, update, forget and write. */
module Daemon {
  import opened Basics
  import opened Sampling
  import opened Accounting
  import opened ProcessResolver
  import opened Grouping
  import opened Aggregation
  import opened JsonWriter

  /** What the collector has read so far: every element whose key is not in todo, once. */
  ghost predicate ReadSoFar(samples: seq<RawSample>, entries: map<Tgid, Entry>, todo: set<Tgid>) {
    && DistinctTgids(samples)
    && (forall s :: s in samples ==> (
          && s.tgid in entries && s.tgid !in todo
          && s.counters == entries[s.tgid].counters && s.comm == entries[s.tgid].comm))
    && (forall t :: t in entries && t !in todo ==> exists s :: s in samples && s.tgid == t)
  }

  lemma {:induction false} ReadOne(samples: seq<RawSample>, entries: map<Tgid, Entry>, todo: set<Tgid>, key: Tgid)
    requires ReadSoFar(samples, entries, todo) && key in todo && key in entries
    ensures ReadSoFar(samples + [RawSample(key, entries[key].counters, entries[key].comm)], entries, todo - {key})
  {
    var one := RawSample(key, entries[key].counters, entries[key].comm);
    var more := samples + [one];
    assert forall s :: s in more <==> s in samples || s == one;
    forall i, j | 0 <= i < j < |more| ensures more[i].tgid != more[j].tgid {
      assert more[i] in samples;
    }
    forall t | t in entries && t !in todo - {key} ensures exists s :: s in more && s.tgid == t {
      if t == key {
        assert one in more;
      } else {
        var s :| s in samples && s.tgid == t;
        assert s in more;
      }
    }
  }

  /** The LRU map with one CPU working on it at a time. Accounting has the interleavings. */
  class TrafficMap {
    const loaded: bool
    var entries: map<Tgid, Entry>
    var nextId: nat

    constructor (loaded: bool)
      ensures entries == map[] && nextId == 0 && this.loaded == loaded
    {
      this.loaded, entries, nextId := loaded, map[], 0;
    }

    /** account() run to its end by CPU 0 is its two steps in the machine; counted says that the socket
        is an internet one and not loopback. */
    method Account(bytes: int, isRx: bool, counted: bool, tgid: Tgid, comm: string, ghost s: Machine)
      requires s.entries == entries && s.nextId == nextId && s.cpus != [] && s.cpus[0].Idle?
      modifies this
      ensures var entering := Enter(0, tgid, comm, if isRx then Rx else Tx, bytes, counted);
              var t := Accounting.Step(Accounting.Step(s, entering), Finish(0));
              entries == t.entries && nextId == t.nextId
      ensures bytes > 0 && counted && tgid !in old(entries) ==>
                entries == old(entries)[tgid := Entry(
                  Counters(if isRx then bytes else 0, if isRx then 0 else bytes), comm, old(nextId))]
    {
      if bytes <= 0 || !counted {
        return;
      }
      if tgid in entries {
        var value := entries[tgid];
        if isRx {
          value := value.(counters := value.counters.(rx := value.counters.rx + bytes));
        } else {
          value := value.(counters := value.counters.(tx := value.counters.tx + bytes));
        }
        entries := entries[tgid := value];
      } else {
        var start := if isRx then Counters(bytes, 0) else Counters(0, bytes);
        entries := entries[tgid := Entry(start, comm, nextId)];
      }
      nextId := nextId + 1;
    }

    method Poll() returns (samples: seq<RawSample>)
      ensures loaded ==> Snapshots(samples, entries)
      ensures !loaded ==> samples == []
    {
      samples := [];
      if !loaded {
        return;
      }
      var todo := entries.Keys;
      while todo != {}
        invariant todo <= entries.Keys && ReadSoFar(samples, entries, todo)
        decreases |todo|
      {
        var key :| key in todo;
        ReadOne(samples, entries, todo, key);
        samples := samples + [RawSample(key, entries[key].counters, entries[key].comm)];
        todo := todo - {key};
      }
    }

    method Forget(tgid: Tgid)
      modifies this`entries
      ensures entries == if loaded then old(entries) - {tgid} else old(entries)
    {
      if loaded {
        entries := entries - {tgid};
      }
    }
  }

  // ---------------------------------------------------------------------------------------------
  // Runs put together
  // ---------------------------------------------------------------------------------------------

  lemma {:induction false} RunNext(s: Machine, events: seq<Accounting.Event>, e: Accounting.Event)
    ensures Accounting.Run(s, events + [e]) == Accounting.Step(Accounting.Run(s, events), e)
  {
    assert (events + [e])[..|events|] == events;
  }

  lemma {:induction false} RunAppend(s: Machine, a: seq<Accounting.Event>, b: seq<Accounting.Event>)
    ensures Accounting.Run(s, a + b) == Accounting.Run(Accounting.Run(s, a), b)
  {
    if b == [] {
      assert a + b == a;
    } else {
      assert (a + b)[..|a + b| - 1] == a + b[..|b| - 1];
      RunAppend(s, a, b[..|b| - 1]);
    }
  }

  /** A sample of the map tells what the machine has pending: the rate that is published, times the
      time since the baseline, is what the books of the account are credited with at this tick. */
  lemma {:induction false} RateIsPending(s: Machine, samples: seq<RawSample>, c: Context, x: RawSample, d: Direction)
    requires Snapshots(samples, s.entries) && x in samples
    requires c.previous == s.previous && c.elapsed > 0.0
    ensures RateOf(c, x, d) * c.elapsed == Pending(s, Accounting.Account(x.tgid, d)) as real
  {
    var delta := DeltaOf(c.previous, x, d);
    assert delta == Pending(s, Accounting.Account(x.tgid, d));
    Undivide(delta as real, c.elapsed);
  }

  lemma {:induction false} Undivide(x: real, y: real)
    requires y > 0.0
    ensures x / y * y == x
  {
  }

  lemma {:induction false} SampledKeys(
    samples: seq<RawSample>, entries: map<Tgid, Entry>, proc: Tgid -> Option<RawProc>)
    requires Snapshots(samples, entries)
    ensures Sampled(proc, samples, true) + Sampled(proc, samples, false) == entries.Keys
    ensures Sampled(proc, samples, true) * Sampled(proc, samples, false) == {}
    ensures Sampled(proc, samples, true) == entries.Keys - Sampled(proc, samples, false)
  {
    forall t ensures t in Sampled(proc, samples, true) + Sampled(proc, samples, false) <==> t in entries {
      if t in entries {
        var s :| s in samples && s.tgid == t;
        assert s.tgid in Sampled(proc, samples, proc(s.tgid).Some?);
      }
    }
    forall t | t in Sampled(proc, samples, true) ensures t !in Sampled(proc, samples, false) {
      var s :| s in samples && s.tgid == t && proc(s.tgid).Some? == true;
    }
  }

  // ---------------------------------------------------------------------------------------------
  // One tick
  // ---------------------------------------------------------------------------------------------

  /** What a reporting tick has to show for itself. */
  datatype Report = Report(
    before: Machine, samples: seq<RawSample>, context: Context, snapshot: Snapshot, document: Document, topCount: nat)

  /** The samples are the map's, and the document is written from what they say against the baseline. */
  ghost predicate Honest(r: Report) {
    && Snapshots(r.samples, r.before.entries) && r.context.previous == r.before.previous && SaneContext(r.context)
    && r.snapshot.intervalSeconds == r.context.elapsed
    && PublishedFrom(r.snapshot, Readings(r.context, r.samples), r.topCount) && Writes(r.document, r.snapshot)
  }

  /** A tick of the daemon as the accounting machine sees it: the tick, then releases; and a report if
      and only if the machine counts it as reporting. */
  ghost predicate Ticks(s: Machine, events: seq<Accounting.Event>, report: Option<Report>) {
    && s.doomed == {} && events != [] && events[0].Tick?
    && (forall i :: 1 <= i < |events| ==> events[i].Forget?)
    && (report.Some? <==> Reports(s, events[0]))
    && (report.Some? ==> report.value.before == s && Honest(report.value))
  }

  /** After poll and update. */
  function Midway(s: Machine, primed: bool, previous: map<Tgid, Counters>, dead: set<Tgid>): Machine {
    s.(primed := primed, previous := previous, doomed := dead)
  }

  lemma {:induction false} TickIsPublished(
    samples: seq<RawSample>, c: Context, caches: State, env: Env,
    proc: Tgid -> Option<RawProc>, out: Snapshot, topCount: nat)
    requires DistinctTgids(samples) && Consistent(caches) && proc(0).None?
    requires c.elapsed > 0.0 && c.resolved == Answers(caches, env, proc)
    requires out.totalRx == TallyOf(Readings(c, samples)).totalRx
    requires out.totalTx == TallyOf(Readings(c, samples)).totalTx
    requires Published(out.apps, TallyOf(Readings(c, samples)).groups, topCount)
    ensures SaneContext(c) && PublishedFrom(out, Readings(c, samples), topCount) && RatesValid(out)
  {
    forall x ensures c.resolved(x).Some? ==> WellFormed(c.resolved(x).value) && x.tgid != 0 {
      AnswersAreSane(caches, env, proc, x);
    }
    ReadingsAreSane(c, samples);
    ReadingsNonNegative(c, samples);
    PublishedIsWritable(out, Readings(c, samples), topCount);
  }

  lemma {:induction false} TickLeads(s: Machine, elapsedMs: int, dead: set<Tgid>)
    requires s.doomed == {} && dead <= s.entries.Keys
    ensures Accounting.Step(s, Accounting.Tick(elapsedMs, dead))
         == if !s.primed then Midway(s, true, CountersOf(s.entries), {})
            else if elapsedMs > 0 then Midway(s, true, CountersOf(s.entries), dead)
            else s
  {
    assert dead * s.entries.Keys == dead;
  }

  lemma {:induction false} TickThenReleases(s: Machine, tick: Accounting.Event, releases: seq<Accounting.Event>)
    ensures Accounting.Run(s, [tick]) == Accounting.Step(s, tick)
    ensures Accounting.Run(s, [tick] + releases) == Accounting.Run(Accounting.Step(s, tick), releases)
  {
    RunNext(s, [], tick);
    assert [] + [tick] == [tick];
    RunAppend(s, [tick], releases);
  }

  class Daemon {
    const collector: TrafficMap
    const resolver: Resolver
    const aggregator: Aggregator

    constructor (collector: TrafficMap, topCount: nat)
      requires collector.loaded
      ensures this.collector == collector && aggregator.topCount == topCount
      ensures fresh(resolver) && fresh(aggregator) && Valid()
      ensures forall s: Machine ::
                s == Machine(collector.entries, s.cpus, collector.nextId, false, map[], {}) ==> Shadows(s)
    {
      this.collector := collector;
      resolver := new Resolver();
      aggregator := new Aggregator(topCount);
    }

    ghost predicate Valid()
      reads this, collector, resolver, aggregator
    {
      collector.loaded && aggregator.Valid() && Consistent(resolver.Contents())
    }

    /** The machine in this state, between two ticks. */
    ghost predicate Shadows(s: Machine)
      reads this, collector, aggregator
    {
      && s.entries == collector.entries && s.nextId == collector.nextId
      && s.primed == aggregator.primed && s.previous == aggregator.previous && s.doomed == {}
    }

    /** The first half of a tick: poll() and update(). */
    method Measure(elapsedMs: int, now: real, env: Env, proc: Tgid -> Option<RawProc>, ghost s: Machine)
      returns (ok: bool, out: Snapshot, ghost samples: seq<RawSample>)
      requires Valid() && Shadows(s) && proc(0).None?
      modifies resolver, aggregator
      ensures Valid() && Snapshots(samples, collector.entries)
      ensures Accounting.Step(s, Accounting.Tick(elapsedMs, aggregator.deadPids))
           == Midway(s, aggregator.primed, aggregator.previous, aggregator.deadPids)
      ensures ok <==> s.primed && elapsedMs > 0
      ensures !ok ==> aggregator.deadPids == {} && aggregator.serial == old(aggregator.serial)
      ensures ok ==>
                var c := Context(s.previous, elapsedMs as real / 1000.0, Answers(old(resolver.Contents()), env, proc));
                && SaneContext(c) && PublishedFrom(out, Readings(c, samples), aggregator.topCount) && RatesValid(out)
                && out.intervalSeconds == c.elapsed && out.serial == old(aggregator.serial) + 1 == aggregator.serial
                && out.timestamp == now && Remembered(resolver.cache, proc, c.resolved, samples)
                && resolver.cache.Keys == collector.entries.Keys - aggregator.deadPids
                && aggregator.deadPids <= collector.entries.Keys
    {
      var polled := collector.Poll();
      samples := polled;
      BaselineOfSnapshot(polled, collector.entries);
      SampledKeys(polled, collector.entries, proc);
      ghost var caches := resolver.Contents();
      ok, out := aggregator.Update(polled, elapsedMs, now, resolver, env, proc);
      if ok {
        ghost var c := Context(s.previous, elapsedMs as real / 1000.0, Answers(caches, env, proc));
        TickIsPublished(polled, c, caches, env, proc, out, aggregator.topCount);
      }
      TickLeads(s, elapsedMs, aggregator.deadPids);
    }

    /** The loop over deadPids(). */
    method ForgetDead(ghost s: Machine) returns (ghost events: seq<Accounting.Event>)
      requires collector.loaded && s.entries == collector.entries && s.doomed == aggregator.deadPids
      modifies collector`entries
      ensures Accounting.Run(s, events) == s.(entries := s.entries - aggregator.deadPids, doomed := {})
      ensures collector.entries == s.entries - aggregator.deadPids
      ensures forall e :: e in events ==> e.Forget? && e.tgid in aggregator.deadPids
    {
      events := [];
      var todo := aggregator.deadPids;
      assert s.entries - {} == s.entries;
      while todo != {}
        invariant todo <= aggregator.deadPids
        invariant collector.entries == s.entries - (aggregator.deadPids - todo)
        invariant Accounting.Run(s, events) == s.(entries := collector.entries, doomed := todo)
        invariant forall e :: e in events ==> e.Forget? && e.tgid in aggregator.deadPids
        decreases |todo|
      {
        var pid :| pid in todo;
        RunNext(s, events, Forget(pid));
        ForgetOne(s.entries, aggregator.deadPids, todo, pid);
        collector.Forget(pid);
        events := events + [Forget(pid)];
        todo := todo - {pid};
      }
      assert aggregator.deadPids - {} == aggregator.deadPids;
    }

    /** The timer's handler. In the accounting machine it is one tick and the releases that follow; so
        what is proved of every run of that machine holds of every run of this daemon. */
    method Tick(elapsedMs: int, now: real, env: Env, proc: Tgid -> Option<RawProc>, ghost s: Machine)
      returns (written: Option<Document>, ghost events: seq<Accounting.Event>, ghost report: Option<Report>)
      requires Valid() && Shadows(s) && proc(0).None?
      modifies collector, resolver, aggregator
      ensures Valid() && Shadows(Accounting.Run(s, events)) && Accounting.Run(s, events).cpus == s.cpus
      ensures Ticks(s, events, report)
      ensures events[0] == Accounting.Tick(elapsedMs, aggregator.deadPids)
      ensures written == if report.Some? then Some(report.value.document) else None
      ensures report.Some? ==>
                && report.value.context
                   == Context(s.previous, elapsedMs as real / 1000.0, Answers(old(resolver.Contents()), env, proc))
                && report.value.topCount == aggregator.topCount
                && report.value.document.serial == old(aggregator.serial) + 1 == aggregator.serial
                && report.value.document.ts == now
                && Remembered(resolver.cache, proc, report.value.context.resolved, report.value.samples)
                && resolver.cache.Keys == collector.entries.Keys
                && resolver.cache.Keys + aggregator.deadPids == old(collector.entries).Keys
                && resolver.cache.Keys * aggregator.deadPids == {}
      ensures report.None? ==>
                collector.entries == old(collector.entries) && aggregator.serial == old(aggregator.serial)
    {
      ghost var c := Context(s.previous, elapsedMs as real / 1000.0, Answers(resolver.Contents(), env, proc));
      var ok, out;
      ghost var samples;
      ok, out, samples := Measure(elapsedMs, now, env, proc, s);
      ghost var tick := Accounting.Tick(elapsedMs, aggregator.deadPids);
      if !ok {
        TickThenReleases(s, tick, []);
        return None, [tick], None;
      }
      ghost var releases := ForgetDead(Accounting.Step(s, tick));
      TickThenReleases(s, tick, releases);
      events := [tick] + releases;
      var document := Write(out);
      written := Some(document);
      report := Some(Report(s, samples, c, out, document, aggregator.topCount));
    }
  }

  lemma {:induction false} ForgetOne(entries: map<Tgid, Entry>, dead: set<Tgid>, todo: set<Tgid>, pid: Tgid)
    requires pid in todo && todo <= dead
    ensures entries - (dead - todo) - {pid} == entries - (dead - (todo - {pid}))
  {
    assert dead - (todo - {pid}) == (dead - todo) + {pid};
  }
}
