/** Whole runs of the daemon: what its documents add up to, against what was accounted. */
module DaemonRuns {
  import opened Arithmetic
  import opened Basics
  import opened Sampling
  import opened Accounting
  import opened Grouping
  import opened Aggregation
  import opened JsonWriter
  import opened Daemon

  /** Between two ticks the kernel is at work; a tick may end in a report. */
  datatype Phase =
    | Kernel(events: seq<Accounting.Event>)
    | Ticked(events: seq<Accounting.Event>, report: Option<Report>)

  function Flat(phases: seq<Phase>): seq<Accounting.Event> {
    if phases == [] then [] else Flat(phases[..|phases| - 1]) + phases[|phases| - 1].events
  }

  predicate KernelOnly(events: seq<Accounting.Event>) {
    forall e :: e in events ==> !e.Tick?
  }

  ghost predicate Allowed(s: Machine, p: Phase) {
    match p
    case Kernel(events) => KernelOnly(events)
    case Ticked(events, report) => Ticks(s, events, report)
  }

  /** A history of the daemon from its start: any work of the kernel, and ticks as the daemon makes them. */
  ghost predicate Chronicle(start: Machine, phases: seq<Phase>) {
    phases != [] ==>
      var front := phases[..|phases| - 1];
      Chronicle(start, front) && Allowed(Accounting.Run(start, Flat(front)), phases[|phases| - 1])
  }

  // ---------------------------------------------------------------------------------------------
  // What is measured is what the books say
  // ---------------------------------------------------------------------------------------------

  /** The rate a tick measures for one process and direction: zero if it was not sampled. */
  function SampleRate(c: Context, samples: seq<RawSample>, a: Account): real
    requires c.elapsed > 0.0
  {
    if samples == [] then 0.0
    else
      var last := samples[|samples| - 1];
      if last.tgid == a.tgid then RateOf(c, last, a.dir) else SampleRate(c, samples[..|samples| - 1], a)
  }

  lemma {:induction false} SampleRateFound(c: Context, samples: seq<RawSample>, a: Account, i: nat)
    requires c.elapsed > 0.0 && DistinctTgids(samples) && i < |samples| && samples[i].tgid == a.tgid
    ensures SampleRate(c, samples, a) == RateOf(c, samples[i], a.dir)
  {
    if i < |samples| - 1 {
      SampleRateFound(c, samples[..|samples| - 1], a, i);
    }
  }

  lemma {:induction false} SampleRateAbsent(c: Context, samples: seq<RawSample>, a: Account)
    requires c.elapsed > 0.0 && forall i :: 0 <= i < |samples| ==> samples[i].tgid != a.tgid
    ensures SampleRate(c, samples, a) == 0.0
  {
    if samples != [] {
      SampleRateAbsent(c, samples[..|samples| - 1], a);
    }
  }

  lemma {:induction false} SampledIsPending(
    s: Machine, samples: seq<RawSample>, c: Context, a: Account, x: RawSample)
    requires Snapshots(samples, s.entries) && c.previous == s.previous && c.elapsed > 0.0
    requires x in samples && x.tgid == a.tgid
    ensures SampleRate(c, samples, a) * c.elapsed == Pending(s, a) as real
  {
    hide SampleRate;
    var i :| 0 <= i < |samples| && samples[i] == x;
    SampleRateFound(c, samples, a, i);
    RateIsPending(s, samples, c, x, a.dir);
  }

  lemma {:induction false} UnsampledIsNothing(s: Machine, samples: seq<RawSample>, c: Context, a: Account)
    requires Snapshots(samples, s.entries) && c.elapsed > 0.0 && a.tgid !in s.entries
    ensures SampleRate(c, samples, a) == 0.0 && Pending(s, a) == 0
  {
    forall i | 0 <= i < |samples| ensures samples[i].tgid != a.tgid {
      assert samples[i] in samples;
    }
    SampleRateAbsent(c, samples, a);
  }

  lemma {:induction false} SampleRateIsPending(s: Machine, samples: seq<RawSample>, c: Context, a: Account)
    requires Snapshots(samples, s.entries) && c.previous == s.previous && c.elapsed > 0.0
    ensures SampleRate(c, samples, a) * c.elapsed == Pending(s, a) as real
  {
    hide SampleRate;
    if a.tgid in s.entries {
      var x :| x in samples && x.tgid == a.tgid;
      SampledIsPending(s, samples, c, a, x);
    } else {
      UnsampledIsNothing(s, samples, c, a);
    }
  }

  /** The bytes a report has for a process: its rate times the time since the baseline. */
  ghost function Bytes(r: Report, a: Account): real {
    if r.context.elapsed > 0.0 then SampleRate(r.context, r.samples, a) * r.context.elapsed else 0.0
  }

  /** What the arithmetic needs of an honest report. */
  ghost predicate Timed(r: Report) {
    && r.context.elapsed > 0.0 && r.document.interval == r.context.elapsed
    && Snapshots(r.samples, r.before.entries) && r.context.previous == r.before.previous
  }

  lemma {:induction false} HonestIsTimed(r: Report)
    requires Honest(r)
    ensures Timed(r)
  {
  }

  lemma {:induction false} BytesArePending(r: Report, a: Account)
    requires Timed(r)
    ensures Bytes(r, a) == Pending(r.before, a) as real
  {
    hide SampleRate;
    SampleRateIsPending(r.before, r.samples, r.context, a);
  }

  /** What a tick measures for a process. */
  ghost function Measured(p: Phase, a: Account): real {
    if p.Ticked? && p.report.Some? then Bytes(p.report.value, a) else 0.0
  }

  ghost function MeasuredInAll(phases: seq<Phase>, a: Account): real {
    if phases == [] then 0.0
    else MeasuredInAll(phases[..|phases| - 1], a) + Measured(phases[|phases| - 1], a)
  }

  lemma {:induction false} BooksNext(a: Account, s: Machine, events: seq<Accounting.Event>, e: Accounting.Event)
    ensures Books(a, s, events + [e], true) == Book(a, Run(s, events), Books(a, s, events, true), e, true)
    ensures Run(s, events + [e]) == Step(Run(s, events), e)
  {
    assert (events + [e])[..|events|] == events;
  }

  lemma {:induction false} QuietStep(a: Account, s: Machine, l: Ledger, e: Accounting.Event)
    requires !e.Tick?
    ensures Book(a, s, l, e, true).reported == l.reported && Step(s, e).primed == s.primed
  {
  }

  /** Without a tick nothing is reported and the daemon's clock stays as it is. */
  lemma {:induction false} QuietBooks(
    a: Account, s: Machine, events: seq<Accounting.Event>, more: seq<Accounting.Event>)
    requires KernelOnly(more)
    ensures Books(a, s, events + more, true).reported == Books(a, s, events, true).reported
    ensures Run(s, events + more).primed == Run(s, events).primed
  {
    if more == [] {
      assert events + more == events;
    } else {
      var front, e := more[..|more| - 1], more[|more| - 1];
      assert events + more == events + front + [e];
      QuietBooks(a, s, events, front);
      BooksNext(a, s, events + front, e);
      QuietStep(a, Run(s, events + front), Books(a, s, events + front, true), e);
    }
  }

  /** A tick is one Tick event with no further one behind it. */
  lemma {:induction false} TickBooks(a: Account, s: Machine, events: seq<Accounting.Event>, tick: seq<Accounting.Event>)
    requires tick != [] && tick[0].Tick? && forall i :: 1 <= i < |tick| ==> tick[i].Forget?
    ensures Books(a, s, events + tick, true).reported
         == Book(a, Run(s, events), Books(a, s, events, true), tick[0], true).reported
    ensures Run(s, events + tick).primed == Step(Run(s, events), tick[0]).primed
  {
    var rest := tick[1..];
    assert events + tick == events + [tick[0]] + rest;
    forall e | e in rest ensures !e.Tick? {
      var i :| 0 <= i < |rest| && rest[i] == e;
      assert tick[i + 1] == e;
    }
    BooksNext(a, s, events, tick[0]);
    QuietBooks(a, s, events + [tick[0]], rest);
  }

  lemma {:induction false} TickStep(a: Account, s: Machine, l: Ledger, tick: Accounting.Event)
    requires tick.Tick? && s.doomed == {} && (!s.primed ==> l.reported == 0)
    ensures Book(a, s, l, tick, true).reported == l.reported + if Reports(s, tick) then Pending(s, a) else 0
    ensures Step(s, tick).primed
  {
  }

  lemma {:induction false} TickMeasures(a: Account, s: Machine, p: Phase)
    requires p.Ticked? && Ticks(s, p.events, p.report)
    ensures Measured(p, a) == (if Reports(s, p.events[0]) then Pending(s, a) else 0) as real
  {
    if p.report.Some? {
      HonestIsTimed(p.report.value);
      BytesArePending(p.report.value, a);
    }
  }

  /** Over every history of the daemon, what its ticks measure for a process, each rate times the
      interval of its document, is what the books of the process have as reported. */
  lemma {:induction false} MeasuredIsReported(n: nat, phases: seq<Phase>, a: Account)
    requires Chronicle(Init(n), phases)
    ensures MeasuredInAll(phases, a) == Books(a, Init(n), Flat(phases), true).reported as real
    ensures !Run(Init(n), Flat(phases)).primed ==> Books(a, Init(n), Flat(phases), true).reported == 0
  {
    if phases != [] {
      var front, p := phases[..|phases| - 1], phases[|phases| - 1];
      var before := Flat(front);
      MeasuredIsReported(n, front, a);
      if p.Kernel? {
        QuietBooks(a, Init(n), before, p.events);
      } else {
        TickBooks(a, Init(n), before, p.events);
        TickMeasures(a, Run(Init(n), before), p);
        TickStep(a, Run(Init(n), before), Books(a, Init(n), before, true), p.events[0]);
      }
    }
  }

  // ---------------------------------------------------------------------------------------------
  // What a reader of the documents adds up
  // ---------------------------------------------------------------------------------------------

  /** The rate published for a pid, if it is listed. */
  function PidLookup(pids: seq<PidDoc>, a: Account): Option<nat> {
    if pids == [] then None
    else
      var last := pids[|pids| - 1];
      if last.pid == a.tgid then Some(if a.dir == Rx then last.rx else last.tx)
      else PidLookup(pids[..|pids| - 1], a)
  }

  function Lookup(apps: seq<AppDoc>, a: Account): Option<nat> {
    if apps == [] then None
    else
      var found := PidLookup(apps[|apps| - 1].pids, a);
      if found.Some? then found else Lookup(apps[..|apps| - 1], a)
  }

  lemma {:induction false} PidLookupFinds(pids: seq<PidDoc>, a: Account) returns (i: nat)
    requires PidLookup(pids, a).Some?
    ensures i < |pids| && pids[i].pid == a.tgid
    ensures PidLookup(pids, a) == Some(if a.dir == Rx then pids[i].rx else pids[i].tx)
  {
    var n := |pids| - 1;
    if pids[n].pid == a.tgid {
      i := n;
    } else {
      i := PidLookupFinds(pids[..n], a);
    }
  }

  lemma {:induction false} LookupFinds(apps: seq<AppDoc>, a: Account) returns (k: nat, i: nat)
    requires Lookup(apps, a).Some?
    ensures k < |apps| && i < |apps[k].pids| && apps[k].pids[i].pid == a.tgid
    ensures Lookup(apps, a) == Some(if a.dir == Rx then apps[k].pids[i].rx else apps[k].pids[i].tx)
  {
    var n := |apps| - 1;
    if PidLookup(apps[n].pids, a).Some? {
      k := n;
      i := PidLookupFinds(apps[n].pids, a);
    } else {
      k, i := LookupFinds(apps[..n], a);
    }
  }

  lemma {:induction false} MemberRate(c: Context, samples: seq<RawSample>, k: string, p: PidEntry, d: Direction)
    requires SaneContext(c) && DistinctTgids(samples) && p in MembersOf(Readings(c, samples), k)
    ensures SampleRate(c, samples, Accounting.Account(p.pid, d)) == PidRate(d)(p)
  {
    var rs := Readings(c, samples);
    MembersAreSamples(rs, k, p);
    var i :| 0 <= i < |rs| && Contributes(rs[i], k) && Member(rs[i]) == p;
    ReadingAt(c, samples, i);
    SampleRateFound(c, samples, Accounting.Account(p.pid, d), i);
  }

  /** Every rate listed for a process is the one measured for it, to within half a byte. */
  lemma {:induction false} ListedIsMeasured(r: Report, a: Account)
    requires Honest(r)
    ensures r.context.elapsed > 0.0
    ensures Lookup(r.document.apps, a).Some? ==>
              var rate, listed := SampleRate(r.context, r.samples, a), Lookup(r.document.apps, a).value;
              listed as real - 0.5 <= rate < listed as real + 0.5
  {
    if Lookup(r.document.apps, a).Some? {
      var k, i := LookupFinds(r.document.apps, a);
      var app, rs := r.snapshot.apps[k], Readings(r.context, r.samples);
      assert WrittenApp(r.document.apps[k], app) && app in r.snapshot.apps;
      PublishedEntry(r.snapshot, rs, r.topCount, app);
      GroupsDescribeSamples(rs, app.key);
      var p := app.pids[i];
      assert WrittenPid(r.document.apps[k].pids[i], p);
      assert p in multiset(app.pids);
      MemberRate(r.context, r.samples, app.key, p, a.dir);
    }
  }

  // ---------------------------------------------------------------------------------------------
  // Which row a process stands in
  // ---------------------------------------------------------------------------------------------

  /** What stands in a document of a process: its row is that of the key it is counted under, its comm the
      one answered, its rates those measured to the nearest byte, and one of them is not nothing. */
  lemma {:induction false} ListedAsAnswered(r: Report, k: nat, i: nat, s: RawSample, key: string, comm: string)
    requires Honest(r)
    ensures k < |r.document.apps| && i < |r.document.apps[k].pids|
            && s in r.samples && s.tgid == r.document.apps[k].pids[i].pid && CountsAs(r.context, s, key, comm) ==>
              var p := r.document.apps[k].pids[i];
              var rx, tx := RateOf(r.context, s, Rx), RateOf(r.context, s, Tx);
              && r.document.apps[k].key == key && p.comm == comm && (rx > 0.0 || tx > 0.0)
              && p.rx as real - 0.5 <= rx < p.rx as real + 0.5
              && p.tx as real - 0.5 <= tx < p.tx as real + 0.5
  {
    hide TallyOf, Readings, RateOf, CountsAs;
    if k < |r.document.apps| && i < |r.document.apps[k].pids| && s in r.samples {
      var row, app := r.document.apps[k], r.snapshot.apps[k];
      assert WrittenApp(row, app) && app in r.snapshot.apps && WrittenPid(row.pids[i], app.pids[i]);
      assert app.pids[i] in app.pids;
      RowLists(r.context, r.samples, r.snapshot.apps, r.topCount, app, s, key, comm);
    }
  }

  /** The sample is of the process that stands there in the document, and resolve() answered for it. */
  ghost predicate StandsAt(r: Report, s: RawSample, k: nat, i: nat) {
    && s in r.samples && r.context.resolved(s).Some?
    && k < |r.document.apps| && i < |r.document.apps[k].pids| && r.document.apps[k].pids[i].pid == s.tgid
  }

  /** Two live processes of a document share a row if and only if resolve() answered the same appKey for
      them, and the row's key is that appKey. */
  lemma {:induction false} SharedRow(r: Report, k: nat, i: nat, s: RawSample, m: nat, j: nat, t: RawSample)
    requires Honest(r)
    ensures StandsAt(r, s, k, i) && StandsAt(r, t, m, j) ==>
              && r.document.apps[k].key == r.context.resolved(s).value.appKey
              && (k == m <==> r.context.resolved(s).value.appKey == r.context.resolved(t).value.appKey)
  {
    hide Honest, RateOf;
    if StandsAt(r, s, k, i) && StandsAt(r, t, m, j) {
      var one, two := r.context.resolved(s).value, r.context.resolved(t).value;
      HonestIsTimed(r);
      ListedAsAnswered(r, k, i, s, one.appKey, one.comm);
      ListedAsAnswered(r, m, j, t, two.appKey, two.comm);
      DocumentKeys(r, k, m);
    }
  }

  lemma {:induction false} DocumentKeys(r: Report, k: nat, m: nat)
    requires Honest(r)
    ensures k < |r.document.apps| && m < |r.document.apps| ==>
              (r.document.apps[k].key == r.document.apps[m].key <==> k == m)
  {
    PublishedDistinct(r.snapshot.apps, TallyOf(Readings(r.context, r.samples)).groups, r.topCount);
    assert k < |r.document.apps| && m < |r.document.apps| ==>
         WrittenApp(r.document.apps[k], r.snapshot.apps[k]) && WrittenApp(r.document.apps[m], r.snapshot.apps[m]);
  }

  // ---------------------------------------------------------------------------------------------
  // Every listing of a process counts
  // ---------------------------------------------------------------------------------------------

  function PidListings(pids: seq<PidDoc>, t: Tgid): nat {
    if pids == [] then 0
    else PidListings(pids[..|pids| - 1], t) + if pids[|pids| - 1].pid == t then 1 else 0
  }

  /** How often a process is listed. */
  function Listings(apps: seq<AppDoc>, t: Tgid): nat {
    if apps == [] then 0 else Listings(apps[..|apps| - 1], t) + PidListings(apps[|apps| - 1].pids, t)
  }

  function PidRates(pids: seq<PidDoc>, a: Account): nat {
    if pids == [] then 0
    else
      var last := pids[|pids| - 1];
      PidRates(pids[..|pids| - 1], a) + if last.pid != a.tgid then 0 else if a.dir == Rx then last.rx else last.tx
  }

  /** All the rates listed for a process together. */
  function ListedRates(apps: seq<AppDoc>, a: Account): nat {
    if apps == [] then 0 else ListedRates(apps[..|apps| - 1], a) + PidRates(apps[|apps| - 1].pids, a)
  }

  lemma {:induction false} PidRatesOfOne(pids: seq<PidDoc>, a: Account)
    ensures PidListings(pids, a.tgid) == 0 ==> PidRates(pids, a) == 0 && PidLookup(pids, a).None?
    ensures PidListings(pids, a.tgid) == 1 ==> PidLookup(pids, a) == Some(PidRates(pids, a))
  {
    if pids != [] {
      PidRatesOfOne(pids[..|pids| - 1], a);
    }
  }

  lemma {:induction false} RatesOfOne(apps: seq<AppDoc>, a: Account)
    ensures Listings(apps, a.tgid) == 0 ==> ListedRates(apps, a) == 0 && Lookup(apps, a).None?
    ensures Listings(apps, a.tgid) == 1 ==> Lookup(apps, a) == Some(ListedRates(apps, a))
  {
    if apps != [] {
      RatesOfOne(apps[..|apps| - 1], a);
      PidRatesOfOne(apps[|apps| - 1].pids, a);
    }
  }

  lemma {:induction false} PidListed(pids: seq<PidDoc>, t: Tgid)
    ensures PidListings(pids, t) > 0 ==> exists i :: 0 <= i < |pids| && pids[i].pid == t
  {
    if pids != [] && pids[|pids| - 1].pid != t {
      PidListed(pids[..|pids| - 1], t);
      if PidListings(pids, t) > 0 {
        var i :| 0 <= i < |pids| - 1 && pids[..|pids| - 1][i].pid == t;
        assert pids[i].pid == t;
      }
    }
  }

  lemma {:induction false} PidsOnce(pids: seq<PidDoc>, t: Tgid)
    requires forall i, j :: 0 <= i < j < |pids| ==> pids[i].pid != pids[j].pid
    ensures PidListings(pids, t) <= 1
  {
    if pids != [] {
      var front := pids[..|pids| - 1];
      PidsOnce(front, t);
      PidListed(front, t);
    }
  }

  /** No process stands twice in one row. */
  ghost predicate OncePerRow(apps: seq<AppDoc>) {
    forall k, i, j :: 0 <= k < |apps| && 0 <= i < j < |apps[k].pids| ==> apps[k].pids[i].pid != apps[k].pids[j].pid
  }

  /** No process stands in two rows. */
  ghost predicate InOneRow(apps: seq<AppDoc>) {
    forall k, m, i, j ::
      0 <= k < m < |apps| && 0 <= i < |apps[k].pids| && 0 <= j < |apps[m].pids| ==>
        apps[k].pids[i].pid != apps[m].pids[j].pid
  }

  lemma {:induction false} Listed(apps: seq<AppDoc>, t: Tgid)
    ensures Listings(apps, t) > 0 ==>
              exists k, i :: 0 <= k < |apps| && 0 <= i < |apps[k].pids| && apps[k].pids[i].pid == t
  {
    if apps != [] {
      var n := |apps| - 1;
      Listed(apps[..n], t);
      PidListed(apps[n].pids, t);
      if Listings(apps[..n], t) > 0 {
        var k, i :| 0 <= k < n && 0 <= i < |apps[..n][k].pids| && apps[..n][k].pids[i].pid == t;
        assert apps[k].pids[i].pid == t;
      }
    }
  }

  lemma {:induction false} RowsOnce(apps: seq<AppDoc>, t: Tgid)
    requires OncePerRow(apps) && InOneRow(apps)
    ensures Listings(apps, t) <= 1
  {
    if apps != [] {
      var n := |apps| - 1;
      var front := apps[..n];
      assert forall k :: 0 <= k < n ==> front[k] == apps[k];
      RowsOnce(front, t);
      PidsOnce(apps[n].pids, t);
      Listed(front, t);
      PidListed(apps[n].pids, t);
    }
  }

  lemma {:induction false} MemberOnce(rs: seq<Reading>, key: string, pids: seq<PidEntry>, i: nat, j: nat)
    requires Sane(rs) && multiset(pids) == MembersOf(rs, key) && i < j < |pids|
    ensures pids[i].pid != pids[j].pid
  {
    assert pids[i] in multiset(pids) && pids[j] in multiset(pids);
    MembersAreSamples(rs, key, pids[i]);
    var x :| 0 <= x < |rs| && Contributes(rs[x], key) && Member(rs[x]) == pids[i];
    SameMember(rs, key, x, pids[j]);
    TwiceCounts(pids, i, j);
    Multiplicity(rs, x, key, pids[i]);
  }

  lemma {:induction false} SameMember(rs: seq<Reading>, key: string, x: nat, q: PidEntry)
    requires Sane(rs) && x < |rs| && q in MembersOf(rs, key)
    ensures q.pid == rs[x].tgid ==> q == Member(rs[x])
  {
    if q.pid == rs[x].tgid {
      Multiplicity(rs, x, key, q);
    }
  }

  lemma {:induction false} MemberOfOneRow(rs: seq<Reading>, key: string, key': string, p: PidEntry, q: PidEntry)
    requires Sane(rs) && p in MembersOf(rs, key) && q in MembersOf(rs, key') && key != key'
    ensures p.pid != q.pid
  {
    MembersAreSamples(rs, key, p);
    MembersAreSamples(rs, key', q);
    var x :| 0 <= x < |rs| && Contributes(rs[x], key) && Member(rs[x]) == p;
    var y :| 0 <= y < |rs| && Contributes(rs[y], key') && Member(rs[y]) == q;
    assert x != y;
  }

  lemma {:induction false} RowMembers(r: Report, k: nat)
    requires Honest(r) && k < |r.document.apps|
    ensures k < |r.snapshot.apps| && WrittenApp(r.document.apps[k], r.snapshot.apps[k])
    ensures Sane(Readings(r.context, r.samples))
    ensures multiset(r.snapshot.apps[k].pids) == MembersOf(Readings(r.context, r.samples), r.snapshot.apps[k].key)
  {
    var rs := Readings(r.context, r.samples);
    PublishedEntry(r.snapshot, rs, r.topCount, r.snapshot.apps[k]);
    GroupsDescribeSamples(rs, r.snapshot.apps[k].key);
  }

  lemma {:induction false} OneRow(r: Report, k: nat, i: nat, j: nat)
    requires Honest(r)
    ensures k < |r.document.apps| && i < j < |r.document.apps[k].pids| ==>
              r.document.apps[k].pids[i].pid != r.document.apps[k].pids[j].pid
  {
    if k < |r.document.apps| && i < j < |r.document.apps[k].pids| {
      RowMembers(r, k);
      var row, app := r.document.apps[k], r.snapshot.apps[k];
      assert WrittenPid(row.pids[i], app.pids[i]) && WrittenPid(row.pids[j], app.pids[j]);
      MemberOnce(Readings(r.context, r.samples), app.key, app.pids, i, j);
    }
  }

  lemma {:induction false} TwoRows(r: Report, k: nat, m: nat, i: nat, j: nat)
    requires Honest(r)
    ensures k < m < |r.document.apps| && i < |r.document.apps[k].pids| && j < |r.document.apps[m].pids| ==>
              r.document.apps[k].pids[i].pid != r.document.apps[m].pids[j].pid
  {
    if k < m < |r.document.apps| && i < |r.document.apps[k].pids| && j < |r.document.apps[m].pids| {
      var rs := Readings(r.context, r.samples);
      DocumentKeys(r, k, m);
      RowMembers(r, k);
      RowMembers(r, m);
      var one, two := r.snapshot.apps[k], r.snapshot.apps[m];
      assert WrittenPid(r.document.apps[k].pids[i], one.pids[i]) && WrittenPid(r.document.apps[m].pids[j], two.pids[j]);
      assert one.pids[i] in multiset(one.pids) && two.pids[j] in multiset(two.pids);
      MemberOfOneRow(rs, one.key, two.key, one.pids[i], two.pids[j]);
    }
  }

  /** No document lists a process twice. */
  lemma {:induction false} ListedAtMostOnce(r: Report, t: Tgid)
    requires Honest(r)
    ensures Listings(r.document.apps, t) <= 1
  {
    hide Honest;
    var apps := r.document.apps;
    forall k, i, j | 0 <= k < |apps| && 0 <= i < j < |apps[k].pids|
      ensures apps[k].pids[i].pid != apps[k].pids[j].pid
    {
      OneRow(r, k, i, j);
    }
    forall k, m, i, j | 0 <= k < m < |apps| && 0 <= i < |apps[k].pids| && 0 <= j < |apps[m].pids|
      ensures apps[k].pids[i].pid != apps[m].pids[j].pid
    {
      TwoRows(r, k, m, i, j);
    }
    RowsOnce(apps, t);
  }

  /** The bytes a reader makes of one document: all that it lists for the process, times the interval. */
  function ReadBytes(document: Document, a: Account): real {
    ListedRates(document.apps, a) as real * document.interval
  }

  ghost function ReadFrom(p: Phase, a: Account): real {
    if p.Ticked? && p.report.Some? then ReadBytes(p.report.value.document, a) else 0.0
  }

  ghost function ListedInAll(phases: seq<Phase>, a: Account): real {
    if phases == [] then 0.0 else ListedInAll(phases[..|phases| - 1], a) + ReadFrom(phases[|phases| - 1], a)
  }

  /** The time covered by documents. */
  ghost function TimeCovered(phases: seq<Phase>): real {
    if phases == [] then 0.0
    else
      var p := phases[|phases| - 1];
      TimeCovered(phases[..|phases| - 1])
        + if p.Ticked? && p.report.Some? then p.report.value.document.interval else 0.0
  }

  lemma {:induction false} Scaled(listed: real, rate: real, t: real, read: real, measured: real)
    requires t > 0.0 && listed <= rate + 0.5 && read == listed * t && measured == rate * t
    ensures read <= measured + 0.5 * t
  {
    Distributed(rate, 0.5, t);
    MulMonotone(listed, rate + 0.5, t);
  }

  lemma {:induction false} Distributed(x: real, y: real, t: real)
    ensures (x + y) * t == x * t + y * t
  {
  }

  lemma {:induction false} SampleRateNonNegative(c: Context, samples: seq<RawSample>, a: Account)
    requires c.elapsed > 0.0
    ensures SampleRate(c, samples, a) >= 0.0
  {
    if samples != [] {
      SampleRateNonNegative(c, samples[..|samples| - 1], a);
    }
  }

  lemma {:induction false} ReadAgainstMeasured(r: Report, a: Account)
    requires Timed(r)
    requires ListedRates(r.document.apps, a) as real <= SampleRate(r.context, r.samples, a) + 0.5
    ensures ReadBytes(r.document, a) <= Bytes(r, a) + 0.5 * r.document.interval
  {
    hide SampleRate, ListedRates;
    Scaled(ListedRates(r.document.apps, a) as real, SampleRate(r.context, r.samples, a), r.context.elapsed,
           ReadBytes(r.document, a), Bytes(r, a));
  }

  lemma {:induction false} RatesAgainstMeasured(r: Report, a: Account)
    requires Honest(r)
    ensures r.context.elapsed > 0.0
    ensures ListedRates(r.document.apps, a) as real <= SampleRate(r.context, r.samples, a) + 0.5
  {
    ListedIsMeasured(r, a);
    SampleRateNonNegative(r.context, r.samples, a);
    ListedAtMostOnce(r, a.tgid);
    RatesOfOne(r.document.apps, a);
  }

  lemma {:induction false} ReadOnce(r: Report, a: Account)
    requires Honest(r)
    ensures ReadBytes(r.document, a) <= Bytes(r, a) + 0.5 * r.document.interval
  {
    HonestIsTimed(r);
    RatesAgainstMeasured(r, a);
    ReadAgainstMeasured(r, a);
  }

  lemma {:induction false} ListedAgainstMeasured(start: Machine, phases: seq<Phase>, a: Account)
    requires Chronicle(start, phases)
    ensures ListedInAll(phases, a) <= MeasuredInAll(phases, a) + 0.5 * TimeCovered(phases)
  {
    if phases != [] {
      var p := phases[|phases| - 1];
      ListedAgainstMeasured(start, phases[..|phases| - 1], a);
      if p.Ticked? && p.report.Some? {
        ReadOnce(p.report.value, a);
      }
    }
  }

  /** From the kernel to the file: over every history, what the documents list for a process adds up to
      no more than the bytes accounted to it since the priming tick, but for half a byte a second. */
  lemma {:induction false} DocumentsNeverOvercount(n: nat, phases: seq<Phase>, a: Account)
    requires Chronicle(Init(n), phases)
    ensures ListedInAll(phases, a)
         <= Books(a, Init(n), Flat(phases), true).passed as real + 0.5 * TimeCovered(phases)
  {
    ListedAgainstMeasured(Init(n), phases, a);
    MeasuredIsReported(n, phases, a);
    if Run(Init(n), Flat(phases)).primed {
      NeverOverReported(n, Flat(phases), a);
    }
  }
}
