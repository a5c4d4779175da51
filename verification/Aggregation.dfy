/** The daemon's aggregator: counters in, one ranked and cut list of applications per tick out. */
module Aggregation {
  import opened Basics
  import opened Sampling
  import opened ProcessResolver
  import opened Grouping
  import opened Sorting

  datatype AppEntry = AppEntry(
    key: string, name: string, desktopId: string, icon: string, exePath: string,
    rx: real, tx: real, pids: seq<PidEntry>)

  datatype Snapshot = Snapshot(
    serial: nat, timestamp: real, intervalSeconds: real, totalRx: real, totalTx: real, apps: seq<AppEntry>)

  datatype GroupState = GroupState(entry: AppEntry, namePid: Tgid, desktopPid: Tgid)

  const NewGroup := GroupState(AppEntry("", "", "", "", "", 0.0, 0.0, []), 0, 0)

  function AppTotal(a: AppEntry): real {
    a.rx + a.tx
  }

  function PidTotal(p: PidEntry): real {
    p.rx + p.tx
  }

  // ---------------------------------------------------------------------------------------------
  // The readings of a tick
  // ---------------------------------------------------------------------------------------------

  /** What a tick depends on besides the samples: the baseline, the seconds since it, and what
      resolve() answers. */
  datatype Context = Context(
    previous: map<Tgid, Counters>, elapsed: real, resolved: RawSample -> Option<ProcInfo>)

  ghost predicate SaneContext(c: Context) {
    && c.elapsed > 0.0
    && forall s :: c.resolved(s).Some? ==> WellFormed(c.resolved(s).value) && s.tgid != 0
  }

  /** What resolve() answers over a tick that starts with the given caches. */
  function Answers(caches: State, env: Env, proc: Tgid -> Option<RawProc>): RawSample -> Option<ProcInfo> {
    (s: RawSample) => Answer(caches, env, s.tgid, s.comm, proc(s.tgid))
  }

  /** A process that is gone has no answer; one that is cached under its start time keeps its identity; any
      other is identified from its record, with the kernel's comm to fall back on. */
  lemma {:induction false} AnswersFromRecords(caches: State, env: Env, proc: Tgid -> Option<RawProc>, s: RawSample)
    ensures match proc(s.tgid)
            case None => Answers(caches, env, proc)(s) == None
            case Some(raw) =>
              if s.tgid in caches.cache && caches.cache[s.tgid].startTime == raw.startTime
              then Answers(caches, env, proc)(s) == Some(caches.cache[s.tgid].info)
              else Answers(caches, env, proc)(s) == Some(Identify(caches.icons, env, raw, s.comm))
  {
  }

  lemma {:induction false} AnswersAreSane(caches: State, env: Env, proc: Tgid -> Option<RawProc>, s: RawSample)
    requires Consistent(caches) && proc(0).None?
    ensures var a := Answers(caches, env, proc)(s); a.Some? ==> WellFormed(a.value) && s.tgid != 0
  {
    ResolveKeepsConsistent(caches, env, s.tgid, s.comm, proc(s.tgid));
  }

  function RateOf(c: Context, s: RawSample, d: Direction): real
    requires c.elapsed > 0.0
  {
    DeltaOf(c.previous, s, d) as real / c.elapsed
  }

  function Observe(c: Context, s: RawSample): Reading
    requires c.elapsed > 0.0
  {
    Reading(s.tgid, s.comm, RateOf(c, s, Rx), RateOf(c, s, Tx),
            DeltaOf(c.previous, s, Rx) != 0 || DeltaOf(c.previous, s, Tx) != 0,
            c.resolved(s))
  }

  function Readings(c: Context, samples: seq<RawSample>): (rs: seq<Reading>)
    requires c.elapsed > 0.0
    ensures |rs| == |samples|
  {
    if samples == [] then []
    else Readings(c, samples[..|samples| - 1]) + [Observe(c, samples[|samples| - 1])]
  }

  lemma {:induction false} ReadingAt(c: Context, samples: seq<RawSample>, i: nat)
    requires c.elapsed > 0.0 && i < |samples|
    ensures Readings(c, samples)[i] == Observe(c, samples[i])
  {
    if i < |samples| - 1 {
      ReadingAt(c, samples[..|samples| - 1], i);
    }
  }

  lemma {:induction false} ObserveIsSane(c: Context, s: RawSample)
    requires SaneContext(c)
    ensures SaneReading(Observe(c, s))
  {
  }

  lemma {:induction false} ReadingsAreSane(c: Context, samples: seq<RawSample>)
    requires SaneContext(c) && DistinctTgids(samples)
    ensures Sane(Readings(c, samples))
  {
    var rs := Readings(c, samples);
    forall i | 0 <= i < |rs| ensures SaneReading(rs[i]) && rs[i].tgid == samples[i].tgid {
      ReadingAt(c, samples, i);
      ObserveIsSane(c, samples[i]);
    }
  }

  lemma {:induction false} ReadingsNonNegative(c: Context, samples: seq<RawSample>)
    requires c.elapsed > 0.0
    ensures forall i :: 0 <= i < |samples| ==> Readings(c, samples)[i].rx >= 0.0 && Readings(c, samples)[i].tx >= 0.0
  {
    forall i | 0 <= i < |samples| ensures Readings(c, samples)[i].rx >= 0.0 && Readings(c, samples)[i].tx >= 0.0 {
      ReadingAt(c, samples, i);
    }
  }

  lemma {:induction false} ReadingsConcat(c: Context, a: seq<RawSample>, b: seq<RawSample>)
    requires c.elapsed > 0.0
    ensures Readings(c, a + b) == Readings(c, a) + Readings(c, b)
  {
    if b == [] {
      assert a + b == a;
    } else {
      assert (a + b)[..|a + b| - 1] == a + b[..|b| - 1];
      ReadingsConcat(c, a, b[..|b| - 1]);
    }
  }

  lemma {:induction false} ReadingsPermute(c: Context, p: seq<RawSample>, q: seq<RawSample>)
    requires c.elapsed > 0.0 && multiset(p) == multiset(q)
    ensures multiset(Readings(c, p)) == multiset(Readings(c, q))
    decreases |p|
  {
    if p == [] {
      assert |multiset(q)| == 0;
    } else {
      var n := |p| - 1;
      var i := TakeOut(p, q);
      ReadingsPermute(c, p[..n], q[..i] + q[i + 1..]);
      SplitReadings(c, q, i);
      assert multiset(Readings(c, p)) == multiset(Readings(c, p[..n])) + multiset{Observe(c, p[n])};
    }
  }

  lemma {:induction false} SplitReadings(c: Context, q: seq<RawSample>, i: nat)
    requires c.elapsed > 0.0 && i < |q|
    ensures multiset(Readings(c, q)) == multiset(Readings(c, q[..i] + q[i + 1..])) + multiset{Observe(c, q[i])}
  {
    var x := q[i];
    assert q == q[..i] + [x] + q[i + 1..];
    ReadingsConcat(c, q[..i], q[i + 1..]);
    ReadingsConcat(c, q[..i] + [x], q[i + 1..]);
    assert (q[..i] + [x])[..i] == q[..i];
  }

  lemma {:induction false} SameElements(p: seq<RawSample>, q: seq<RawSample>)
    requires multiset(p) == multiset(q)
    ensures forall s :: s in p <==> s in q
  {
    assert forall s :: s in p <==> s in multiset(p);
    assert forall s :: s in q <==> s in multiset(q);
  }

  lemma {:induction false} BaselineIgnoresOrder(p: seq<RawSample>, q: seq<RawSample>)
    requires DistinctTgids(p) && DistinctTgids(q) && multiset(p) == multiset(q)
    ensures Baseline(p) == Baseline(q)
  {
    SameElements(p, q);
    BaselineLookup(p);
    BaselineLookup(q);
    forall t ensures t in Baseline(p) <==> t in Baseline(q) {
      if t in Baseline(p) {
        var i :| 0 <= i < |p| && p[i].tgid == t;
        assert p[i] in q;
        var j :| 0 <= j < |q| && q[j] == p[i];
        assert q[j].tgid in Baseline(q);
      }
      if t in Baseline(q) {
        var i :| 0 <= i < |q| && q[i].tgid == t;
        assert q[i] in p;
        var j :| 0 <= j < |p| && p[j] == q[i];
        assert p[j].tgid in Baseline(p);
      }
    }
    forall t | t in Baseline(p) ensures Baseline(p)[t] == Baseline(q)[t] {
      var i :| 0 <= i < |p| && p[i].tgid == t;
      assert p[i] in q;
      var j :| 0 <= j < |q| && q[j] == p[i];
      assert Baseline(q)[q[j].tgid] == q[j].counters;
    }
  }

  /** Everything a tick publishes and keeps is decided by the set of samples: hash order cannot
      show, neither in a name or an icon nor in a sum. */
  lemma {:induction false} SampleOrderIsInvisible(c: Context, p: seq<RawSample>, q: seq<RawSample>)
    requires SaneContext(c) && DistinctTgids(p) && DistinctTgids(q) && multiset(p) == multiset(q)
    ensures TallyOf(Readings(c, p)) == TallyOf(Readings(c, q))
    ensures Baseline(p) == Baseline(q)
  {
    ReadingsAreSane(c, p);
    ReadingsAreSane(c, q);
    ReadingsPermute(c, p, q);
    TallyIgnoresOrder(Readings(c, p), Readings(c, q));
    BaselineIgnoresOrder(p, q);
    SameElements(p, q);
  }

  /** The pids among the samples that are alive, or dead. */
  function Sampled(proc: Tgid -> Option<RawProc>, samples: seq<RawSample>, alive: bool): set<Tgid> {
    set s | s in samples && proc(s.tgid).Some? == alive :: s.tgid
  }

  // ---------------------------------------------------------------------------------------------
  // The caches over the loop
  // ---------------------------------------------------------------------------------------------

  function ResolveAll(caches: State, env: Env, proc: Tgid -> Option<RawProc>, samples: seq<RawSample>): State {
    if samples == [] then caches
    else
      var s := samples[|samples| - 1];
      After(ResolveAll(caches, env, proc, samples[..|samples| - 1]), env, s.tgid, s.comm, proc(s.tgid))
  }

  lemma {:induction false} ResolveAllSound(
    caches: State, env: Env, proc: Tgid -> Option<RawProc>, samples: seq<RawSample>)
    requires Consistent(caches)
    ensures var done := ResolveAll(caches, env, proc, samples);
            && Consistent(done)
            && (forall s :: s in samples && proc(s.tgid).Some? ==> s.tgid in done.cache)
            && (forall id :: id in caches.icons ==> id in done.icons && done.icons[id] == caches.icons[id])
  {
    if samples != [] {
      var front, s := samples[..|samples| - 1], samples[|samples| - 1];
      ResolveAllSound(caches, env, proc, front);
      ResolveKeepsConsistent(ResolveAll(caches, env, proc, front), env, s.tgid, s.comm, proc(s.tgid));
      assert samples == front + [s];
    }
  }

  lemma {:induction false} AnswerUnmoved(caches: State, env: Env, proc: Tgid -> Option<RawProc>,
                                         samples: seq<RawSample>, s: RawSample)
    requires forall i :: 0 <= i < |samples| ==> samples[i].tgid != s.tgid
    ensures Answer(ResolveAll(caches, env, proc, samples), env, s.tgid, s.comm, proc(s.tgid))
         == Answers(caches, env, proc)(s)
  {
    if samples != [] {
      var front, x := samples[..|samples| - 1], samples[|samples| - 1];
      AnswerUnmoved(caches, env, proc, front, s);
      AnswersAreIndependent(ResolveAll(caches, env, proc, front), env, x.tgid, x.comm, proc(x.tgid),
                            s.tgid, s.comm, proc(s.tgid));
    }
  }

  /** After the loop the identity answered for each live process is on record under its start time, so that
      it is the answer of the next tick too. */
  lemma {:induction false} AnswersAreCached(
    caches: State, env: Env, proc: Tgid -> Option<RawProc>, samples: seq<RawSample>, i: nat)
    requires DistinctTgids(samples) && i < |samples| && proc(samples[i].tgid).Some?
    ensures var s, done := samples[i], ResolveAll(caches, env, proc, samples);
            && s.tgid in done.cache && Answers(caches, env, proc)(s).Some?
            && done.cache[s.tgid]
               == CacheEntry(proc(s.tgid).value.startTime, Answers(caches, env, proc)(s).value)
  {
    hide Identify;
    var n := |samples| - 1;
    var front := samples[..n];
    if i < n {
      AnswersAreCached(caches, env, proc, front, i);
      assert samples[n].tgid != samples[i].tgid;
    } else {
      AnswerUnmoved(caches, env, proc, front, samples[n]);
    }
  }

  /** What the resolver remembers of each live process after a tick: its start time and its answer. */
  ghost predicate Remembered(
    cache: map<Tgid, CacheEntry>, proc: Tgid -> Option<RawProc>, answers: RawSample -> Option<ProcInfo>,
    samples: seq<RawSample>)
  {
    forall s :: s in samples && proc(s.tgid).Some? ==>
      s.tgid in cache && answers(s).Some?
      && cache[s.tgid] == CacheEntry(proc(s.tgid).value.startTime, answers(s).value)
  }

  lemma {:induction false} AllRemembered(
    caches: State, env: Env, proc: Tgid -> Option<RawProc>, samples: seq<RawSample>)
    requires DistinctTgids(samples)
    ensures Remembered(ResolveAll(caches, env, proc, samples).cache, proc, Answers(caches, env, proc), samples)
  {
    hide ResolveAll, Answers;
    forall s | s in samples && proc(s.tgid).Some?
      ensures var done, answer := ResolveAll(caches, env, proc, samples), Answers(caches, env, proc)(s);
              && s.tgid in done.cache && answer.Some?
              && done.cache[s.tgid] == CacheEntry(proc(s.tgid).value.startTime, answer.value)
    {
      var i :| 0 <= i < |samples| && samples[i] == s;
      AnswersAreCached(caches, env, proc, samples, i);
    }
  }

  /** From tick to tick a process that lives on, by its start time, has the answer it had, whatever its files
      and its comm say by then. */
  lemma {:induction false} IdentityLasts(
    proc: Tgid -> Option<RawProc>, answers: RawSample -> Option<ProcInfo>, samples: seq<RawSample>, s: RawSample,
    caches: State, env: Env, later: Tgid -> Option<RawProc>, again: RawSample)
    requires Remembered(caches.cache, proc, answers, samples) && s in samples && again.tgid == s.tgid
    requires proc(s.tgid).Some? && later(s.tgid).Some?
    requires later(s.tgid).value.startTime == proc(s.tgid).value.startTime
    ensures Answers(caches, env, later)(again) == answers(s)
  {
    AnswersFromRecords(caches, env, later, again);
  }

  /** One resolve() of the loop: the answer is the one the caches at the start of the tick give. */
  method ResolveNext(resolver: Resolver, env: Env, proc: Tgid -> Option<RawProc>, s: RawSample,
                     ghost caches: State, ghost done: seq<RawSample>)
    returns (info: Option<ProcInfo>)
    requires resolver.Contents() == ResolveAll(caches, env, proc, done)
    requires forall i :: 0 <= i < |done| ==> done[i].tgid != s.tgid
    modifies resolver
    ensures info == Answers(caches, env, proc)(s)
    ensures info.Some? <==> proc(s.tgid).Some?
    ensures resolver.Contents() == ResolveAll(caches, env, proc, done + [s])
  {
    AnswerUnmoved(caches, env, proc, done, s);
    assert (done + [s])[..|done|] == done;
    info := resolver.Resolve(s.tgid, s.comm, proc(s.tgid), env);
  }

  lemma {:induction false} SampledMore(proc: Tgid -> Option<RawProc>, done: seq<RawSample>, s: RawSample, alive: bool)
    ensures Sampled(proc, done + [s], alive)
         == Sampled(proc, done, alive) + if proc(s.tgid).Some? == alive then {s.tgid} else {}
  {
    assert forall x :: x in done + [s] <==> x in done || x == s;
  }

  lemma {:induction false} BaselineMore(done: seq<RawSample>, s: RawSample)
    ensures Baseline(done + [s]) == Baseline(done)[s.tgid := s.counters]
  {
    assert (done + [s])[..|done|] == done;
  }

  /** How the accumulators of the loop grow by one sample. */
  lemma {:induction false} OneMore(c: Context, done: seq<RawSample>, s: RawSample)
    requires SaneContext(c)
    ensures SaneReading(Observe(c, s))
    ensures TallyOf(Readings(c, done + [s])).groups
         == if Observe(c, s).moved then Place(TallyOf(Readings(c, done)).groups, Observe(c, s))
            else TallyOf(Readings(c, done)).groups
    ensures TallyOf(Readings(c, done + [s])).totalRx == TallyOf(Readings(c, done)).totalRx + RateOf(c, s, Rx)
    ensures TallyOf(Readings(c, done + [s])).totalTx == TallyOf(Readings(c, done)).totalTx + RateOf(c, s, Tx)
  {
    var all := done + [s];
    assert all[..|all| - 1] == done && all[|all| - 1] == s;
    ObserveIsSane(c, s);
    TallyLast(Readings(c, done), Observe(c, s));
  }

  // ---------------------------------------------------------------------------------------------
  // What is published
  // ---------------------------------------------------------------------------------------------

  /** The entry lists the members of the group and carries its identity and rates. */
  ghost predicate Presents(a: AppEntry, g: Summary) {
    && a.name == g.name && a.exePath == g.exePath && a.desktopId == g.desktopId && a.icon == g.icon
    && a.rx == g.rx && a.tx == g.tx && multiset(a.pids) == g.pids
  }

  /** All the groups, each once. */
  ghost predicate Lists(all: seq<AppEntry>, groups: map<string, Summary>) {
    && (forall i :: 0 <= i < |all| ==> all[i].key in groups && Presents(all[i], groups[all[i].key]))
    && (forall i, j :: 0 <= i < j < |all| ==> all[i].key != all[j].key)
    && (forall k :: k in groups ==> exists i :: 0 <= i < |all| && all[i].key == k)
  }

  ghost predicate Ranked(all: seq<AppEntry>) {
    Descending(all, AppTotal) && forall i :: 0 <= i < |all| ==> Descending(all[i].pids, PidTotal)
  }

  /** apps is the head of the ranked list of all groups. */
  ghost predicate CutFrom(apps: seq<AppEntry>, all: seq<AppEntry>, groups: map<string, Summary>, topCount: nat) {
    Lists(all, groups) && Ranked(all) && apps == all[..Min(topCount, |all|)]
  }

  ghost predicate Published(apps: seq<AppEntry>, groups: map<string, Summary>, topCount: nat) {
    exists all :: CutFrom(apps, all, groups, topCount)
  }

  ghost predicate Matches(groups: map<string, GroupState>, tally: map<string, Summary>) {
    groups.Keys == tally.Keys
    && forall k :: k in groups ==> MatchesOne(k, groups[k], tally[k])
  }

  ghost predicate MatchesOne(k: string, g: GroupState, s: Summary) {
    k != "" && g.entry.key == k && Presents(g.entry, s) && g.namePid == s.namePid && g.desktopPid == s.desktopPid
  }

  /** A group takes its name and path from the lowest pid that contributes to it. */
  method TakeName(was: GroupState, key: string, s: RawSample, info: Option<ProcInfo>) returns (group: GroupState)
    requires was.entry.key == "" || was.entry.key == key
    ensures group == if was.entry.key != "" && was.namePid <= s.tgid then was
                     else was.(
                       namePid := s.tgid,
                       entry := was.entry.(
                         key := key,
                         name := if info.Some? then info.value.name else s.comm,
                         exePath := if info.Some? then info.value.exePath else was.entry.exePath))
  {
    group := was;
    if group.entry.key == "" {
      group := group.(namePid := s.tgid,
                      entry := group.entry.(key := key, name := if info.Some? then info.value.name else s.comm));
      if info.Some? {
        group := group.(entry := group.entry.(exePath := info.value.exePath));
      }
    } else if s.tgid < group.namePid {
      group := group.(namePid := s.tgid,
                      entry := group.entry.(name := if info.Some? then info.value.name else s.comm));
      if info.Some? {
        group := group.(entry := group.entry.(exePath := info.value.exePath));
      }
    }
  }

  /** A group takes its desktop id and icon from the lowest pid that has a desktop id. */
  method TakeDesktop(was: GroupState, s: RawSample, info: Option<ProcInfo>) returns (group: GroupState)
    ensures var leads := info.Some? && info.value.desktopId != "" && (was.desktopPid == 0 || s.tgid < was.desktopPid);
            group == if !leads then was
                     else was.(
                       desktopPid := s.tgid,
                       entry := was.entry.(desktopId := info.value.desktopId, icon := info.value.icon))
  {
    group := was;
    if info.Some? && info.value.desktopId != "" && (group.desktopPid == 0 || s.tgid < group.desktopPid) {
      group := group.(desktopPid := s.tgid,
                      entry := group.entry.(desktopId := info.value.desktopId, icon := info.value.icon));
    }
  }

  /** Aggregator.cpp, lines 83-110: one sample that moved bytes joins the group of its key. */
  method Merge(groups: map<string, GroupState>, key: string, s: RawSample, info: Option<ProcInfo>, rx: real, tx: real,
               ghost tally: map<string, Summary>, ghost r: Reading)
    returns (merged: map<string, GroupState>)
    requires Matches(groups, tally) && SaneReading(r) && r.moved && key == KeyOf(r)
    requires r == Reading(s.tgid, s.comm, rx, tx, true, info)
    ensures Matches(merged, Place(tally, r))
  {
    InfoIsWellFormed(r);
    assert key != "" by {
      assert info.None? ==> key[0] == 'c';
    }
    var group := TakeName(if key in groups then groups[key] else NewGroup, key, s, info);
    group := TakeDesktop(group, s, info);
    var member := PidEntry(s.tgid, if info.Some? then info.value.comm else s.comm, rx, tx);
    group := group.(entry := group.entry.(rx := group.entry.rx + rx, tx := group.entry.tx + tx,
                                          pids := group.entry.pids + [member]));
    merged := groups[key := group];
    assert MatchesOne(key, group, Join(Get(tally, key), r));
  }

  /** The entries gathered so far are those of the given keys, with their members ranked. */
  ghost predicate Gathered(all: seq<AppEntry>, tally: map<string, Summary>, keys: set<string>) {
    && keys <= tally.Keys
    && (forall i :: 0 <= i < |all| ==> Ready(all[i], tally) && all[i].key in keys)
    && (forall i, j :: 0 <= i < j < |all| ==> all[i].key != all[j].key)
    && (forall k :: k in keys ==> exists i :: 0 <= i < |all| && all[i].key == k)
  }

  ghost predicate Ready(a: AppEntry, tally: map<string, Summary>) {
    a.key in tally && Presents(a, tally[a.key]) && Descending(a.pids, PidTotal)
  }

  lemma {:induction false} GatherOne(all: seq<AppEntry>, tally: map<string, Summary>, keys: set<string>, a: AppEntry)
    requires Gathered(all, tally, keys) && Ready(a, tally) && a.key !in keys
    ensures Gathered(all + [a], tally, keys + {a.key})
  {
    var all' := all + [a];
    forall k | k in keys + {a.key} ensures exists i :: 0 <= i < |all'| && all'[i].key == k {
      if k == a.key {
        assert all'[|all|].key == k;
      } else {
        var i :| 0 <= i < |all| && all[i].key == k;
        assert all'[i].key == k;
      }
    }
  }

  /** Aggregator.cpp, lines 116-124: the groups as a list, each with its members ranked. */
  method ListGroups(groups: map<string, GroupState>, ghost tally: map<string, Summary>) returns (all: seq<AppEntry>)
    requires Matches(groups, tally)
    ensures Gathered(all, tally, tally.Keys)
  {
    all := [];
    var todo := groups.Keys;
    ghost var done: set<string> := {};
    while todo != {}
      invariant done !! todo && done + todo == groups.Keys == tally.Keys
      invariant Gathered(all, tally, done)
      decreases |todo|
    {
      var k :| k in todo;
      var entry := RankMembers(k, groups[k], tally[k]);
      GatherOne(all, tally, done, entry);
      OneDone(groups.Keys, todo, done, k);
      all := all + [entry];
      todo, done := todo - {k}, done + {k};
    }
  }

  method RankMembers(k: string, g: GroupState, ghost s: Summary) returns (entry: AppEntry)
    requires MatchesOne(k, g, s)
    ensures entry.key == k && Presents(entry, s) && Descending(entry.pids, PidTotal)
  {
    entry := g.entry.(pids := SortDescending(g.entry.pids, PidTotal));
  }

  /** Aggregator.cpp, lines 126-131: the list ranked and cut. */
  method Rank(groups: map<string, GroupState>, topCount: nat, ghost tally: map<string, Summary>)
    returns (apps: seq<AppEntry>)
    requires Matches(groups, tally)
    ensures Published(apps, tally, topCount)
  {
    var all := ListGroups(groups, tally);
    var ranked := SortDescending(all, AppTotal);
    SortedLists(all, ranked, tally);
    apps := ranked;
    if |apps| > topCount {
      apps := apps[..topCount];
    }
    assert CutFrom(apps, ranked, tally, topCount);
  }

  lemma {:induction false} SortedLists(all: seq<AppEntry>, ranked: seq<AppEntry>, tally: map<string, Summary>)
    requires Gathered(all, tally, tally.Keys)
    requires multiset(all) == multiset(ranked) && Descending(ranked, AppTotal)
    ensures Lists(ranked, tally) && Ranked(ranked)
  {
    assert forall a :: a in ranked <==> a in multiset(ranked);
    assert forall a :: a in all <==> a in multiset(all);
    forall i | 0 <= i < |ranked| ensures Ready(ranked[i], tally) {
      assert ranked[i] in all;
    }
    forall k | k in tally ensures exists i :: 0 <= i < |ranked| && ranked[i].key == k {
      var i :| 0 <= i < |all| && all[i].key == k;
      assert all[i] in ranked;
      var j :| 0 <= j < |ranked| && ranked[j] == all[i];
    }
    forall i, j | 0 <= i < j < |ranked| ensures ranked[i].key != ranked[j].key {
      DistinctKeysSurvive(all, ranked, i, j);
    }
  }

  lemma {:induction false} SingleOccurrence(all: seq<AppEntry>, a: AppEntry)
    requires forall i, j :: 0 <= i < j < |all| ==> all[i].key != all[j].key
    ensures multiset(all)[a] <= 1
  {
    if all != [] {
      assert all == [all[0]] + all[1..];
      SingleOccurrence(all[1..], a);
      if a == all[0] {
        assert a !in all[1..];
      }
    }
  }

  lemma {:induction false} TwoOccurrences(ranked: seq<AppEntry>, i: int, j: int)
    requires 0 <= i < j < |ranked|
    ensures ranked[i] == ranked[j] ==> multiset(ranked)[ranked[i]] >= 2
  {
    assert ranked == ranked[..j] + [ranked[j]] + ranked[j + 1..];
    assert ranked[..j][i] == ranked[i];
    assert multiset(ranked) == multiset(ranked[..j]) + multiset{ranked[j]} + multiset(ranked[j + 1..]);
    assert ranked[i] in multiset(ranked[..j]);
  }

  lemma {:induction false} DistinctKeysSurvive(all: seq<AppEntry>, ranked: seq<AppEntry>, i: int, j: int)
    requires forall i, j :: 0 <= i < j < |all| ==> all[i].key != all[j].key
    requires multiset(all) == multiset(ranked) && 0 <= i < j < |ranked|
    ensures ranked[i].key != ranked[j].key
  {
    var a, b := ranked[i], ranked[j];
    assert a in multiset(all) && b in multiset(all);
    SingleOccurrence(all, a);
    TwoOccurrences(ranked, i, j);
    var m :| 0 <= m < |all| && all[m] == a;
    var n :| 0 <= n < |all| && all[n] == b;
  }

  /** What the loop has gathered after some of the samples. */
  datatype Gathering = Gathering(
    groups: map<string, GroupState>, current: map<Tgid, Counters>,
    livePids: set<Tgid>, deadPids: set<Tgid>, totalRx: real, totalTx: real)

  ghost predicate Covers(g: Gathering, c: Context, proc: Tgid -> Option<RawProc>, done: seq<RawSample>)
    requires c.elapsed > 0.0
  {
    && Matches(g.groups, TallyOf(Readings(c, done)).groups)
    && g.current == Baseline(done)
    && g.livePids == Sampled(proc, done, true) && g.deadPids == Sampled(proc, done, false)
    && g.totalRx == TallyOf(Readings(c, done)).totalRx
    && g.totalTx == TallyOf(Readings(c, done)).totalTx
  }

  /** Aggregator.cpp, lines 56-66 and 77-110: one sample's deltas and rates, and its place in a group. */
  method CountSample(groups: map<string, GroupState>, sample: RawSample, info: Option<ProcInfo>,
                     previous: map<Tgid, Counters>, elapsed: real, ghost c: Context, ghost done: seq<RawSample>)
    returns (counted: map<string, GroupState>, rx: real, tx: real)
    requires SaneContext(c) && c.previous == previous && c.elapsed == elapsed && info == c.resolved(sample)
    requires Matches(groups, TallyOf(Readings(c, done)).groups)
    ensures Matches(counted, TallyOf(Readings(c, done + [sample])).groups)
    ensures TallyOf(Readings(c, done + [sample])).totalRx == TallyOf(Readings(c, done)).totalRx + rx
    ensures TallyOf(Readings(c, done + [sample])).totalTx == TallyOf(Readings(c, done)).totalTx + tx
  {
    OneMore(c, done, sample);
    var before := ValueOf(previous, sample.tgid);
    var deltaRx := Delta(before.rx, sample.counters.rx);
    var deltaTx := Delta(before.tx, sample.counters.tx);
    rx, tx := deltaRx as real / elapsed, deltaTx as real / elapsed;
    counted := groups;
    if !(deltaRx == 0 && deltaTx == 0) {
      var key := if info.Some? then info.value.appKey else "comm:" + sample.comm;
      counted := Merge(groups, key, sample, info, rx, tx, TallyOf(Readings(c, done)).groups, Observe(c, sample));
    }
  }

  /** Aggregator.cpp, lines 54-110: what one sample adds to everything gathered. */
  method GatherSample(g: Gathering, sample: RawSample, info: Option<ProcInfo>,
                      previous: map<Tgid, Counters>, elapsed: real,
                      ghost c: Context, ghost proc: Tgid -> Option<RawProc>, ghost done: seq<RawSample>)
    returns (g': Gathering)
    requires SaneContext(c) && c.previous == previous && c.elapsed == elapsed && info == c.resolved(sample)
    requires info.Some? <==> proc(sample.tgid).Some?
    requires Covers(g, c, proc, done)
    ensures Covers(g', c, proc, done + [sample])
  {
    BaselineMore(done, sample);
    SampledMore(proc, done, sample, true);
    SampledMore(proc, done, sample, false);
    var current := g.current[sample.tgid := sample.counters];
    var livePids, deadPids := g.livePids, g.deadPids;
    if info.Some? {
      livePids := livePids + {sample.tgid};
    } else {
      deadPids := deadPids + {sample.tgid};
    }
    var groups, rx, tx := CountSample(g.groups, sample, info, previous, elapsed, c, done);
    g' := Gathering(groups, current, livePids, deadPids, g.totalRx + rx, g.totalTx + tx);
  }

  /** Aggregator.cpp, lines 46-111: the loop over the samples, which changes nothing but the resolver's caches. */
  method Collect(samples: seq<RawSample>, previous: map<Tgid, Counters>, elapsed: real, resolver: Resolver,
                 env: Env, proc: Tgid -> Option<RawProc>, ghost caches: State, ghost c: Context)
    returns (g: Gathering)
    requires DistinctTgids(samples) && SaneContext(c) && caches == resolver.Contents()
    requires c == Context(previous, elapsed, Answers(caches, env, proc))
    modifies resolver
    ensures Covers(g, c, proc, samples)
    ensures resolver.Contents() == ResolveAll(caches, env, proc, samples)
  {
    g := Gathering(map[], map[], {}, {}, 0.0, 0.0);
    ghost var done: seq<RawSample> := [];
    var i := 0;
    while i < |samples|
      invariant 0 <= i <= |samples| && done == samples[..i]
      invariant resolver.Contents() == ResolveAll(caches, env, proc, done)
      invariant Covers(g, c, proc, done)
    {
      var info := ResolveNext(resolver, env, proc, samples[i], caches, done);
      g := GatherSample(g, samples[i], info, previous, elapsed, c, proc, done);
      done := done + [samples[i]];
      i := i + 1;
    }
    assert done == samples;
  }

  class Aggregator {
    const topCount: nat
    var serial: nat                       // m_seq
    var primed: bool                      // m_clock.isValid()
    var previous: map<Tgid, Counters>
    var deadPids: set<Tgid>

    ghost predicate Valid()
      reads this
    {
      !primed ==> previous == map[]
    }

    constructor (topCount: nat)
      ensures Valid() && !primed && serial == 0 && this.topCount == topCount && deadPids == {}
    {
      this.topCount := topCount;
      serial, primed, previous, deadPids := 0, false, map[], {};
    }

    /** elapsedMs is what m_clock.restart() returns, now the wall clock, proc and env what /proc
        and the .desktop files say during this tick. */
    method Update(samples: seq<RawSample>, elapsedMs: int, now: real, resolver: Resolver,
                  env: Env, proc: Tgid -> Option<RawProc>)
      returns (ok: bool, out: Snapshot)
      requires Valid() && DistinctTgids(samples)
      requires Consistent(resolver.Contents()) && proc(0).None?
      modifies this, resolver
      ensures Valid() && primed
      ensures ok <==> old(primed) && elapsedMs > 0
      ensures !ok ==> deadPids == {} && serial == old(serial) && unchanged(resolver)
      ensures !ok ==> previous == if old(primed) then old(previous) else Baseline(samples)
      ensures ok ==>
                var answers := Answers(old(resolver.Contents()), env, proc);
                var c := Context(old(previous), elapsedMs as real / 1000.0, answers);
                && previous == Baseline(samples)
                && deadPids == Sampled(proc, samples, false)
                && resolver.Contents().cache.Keys == Sampled(proc, samples, true)
                && Remembered(resolver.Contents().cache, proc, answers, samples)
                && serial == old(serial) + 1 == out.serial
                && out.timestamp == now && out.intervalSeconds == c.elapsed
                && out.totalRx == TallyOf(Readings(c, samples)).totalRx
                && out.totalTx == TallyOf(Readings(c, samples)).totalTx
                && Published(out.apps, TallyOf(Readings(c, samples)).groups, topCount)
      ensures Consistent(resolver.Contents())
      ensures forall id :: id in old(resolver.icons) ==>
                id in resolver.icons && resolver.icons[id] == old(resolver.icons)[id]
    {
      deadPids := {};
      out := Snapshot(0, 0.0, 0.0, 0.0, 0.0, []);
      if !primed {
        primed := true;
        var i := 0;
        while i < |samples|
          invariant 0 <= i <= |samples|
          invariant previous == Baseline(samples[..i])
          invariant primed && deadPids == {} && serial == old(serial) && unchanged(resolver)
        {
          assert samples[..i + 1][..i] == samples[..i];
          previous := previous[samples[i].tgid := samples[i].counters];
          i := i + 1;
        }
        assert samples[..|samples|] == samples;
        return false, out;
      }
      if elapsedMs <= 0 {
        return false, out;
      }
      var elapsed := elapsedMs as real / 1000.0;
      ghost var caches := resolver.Contents();
      ghost var c := Context(previous, elapsed, Answers(caches, env, proc));
      forall s ensures c.resolved(s).Some? ==> WellFormed(c.resolved(s).value) && s.tgid != 0 {
        AnswersAreSane(caches, env, proc, s);
      }
      var g := Collect(samples, previous, elapsed, resolver, env, proc, caches, c);
      ResolveAllSound(caches, env, proc, samples);
      AllRemembered(caches, env, proc, samples);
      deadPids := g.deadPids;
      previous := g.current;
      resolver.Prune(g.livePids);
      assert resolver.Contents().cache.Keys == g.livePids;
      assert Remembered(resolver.Contents().cache, proc, c.resolved, samples);
      var apps := Rank(g.groups, topCount, TallyOf(Readings(c, samples)).groups);
      serial := serial + 1;
      out := Snapshot(serial, now, elapsed, g.totalRx, g.totalTx, apps);
      ok := true;
    }
  }

  // ---------------------------------------------------------------------------------------------
  // Conservation and cut
  // ---------------------------------------------------------------------------------------------

  function AppRate(d: Direction): AppEntry -> real {
    (a: AppEntry) => if d == Rx then a.rx else a.tx
  }

  function KeysOf(all: seq<AppEntry>): set<string> {
    set a | a in all :: a.key
  }

  ghost predicate Entries(all: seq<AppEntry>, groups: map<string, Summary>) {
    && (forall i :: 0 <= i < |all| ==> all[i].key in groups && Presents(all[i], groups[all[i].key]))
    && (forall i, j :: 0 <= i < j < |all| ==> all[i].key != all[j].key)
  }

  lemma {:induction false} EntriesRest(all: seq<AppEntry>, groups: map<string, Summary>)
    requires Entries(all, groups) && all != []
    ensures Entries(all[1..], groups)
    ensures all[0].key !in KeysOf(all[1..]) && KeysOf(all) == KeysOf(all[1..]) + {all[0].key}
  {
    assert all == [all[0]] + all[1..];
    assert forall i :: 0 <= i < |all[1..]| ==> all[1..][i] == all[i + 1];
  }

  lemma {:induction false} EntrySum(a: AppEntry, rs: seq<Reading>, d: Direction)
    requires Sane(rs) && a.key in TallyOf(rs).groups && Presents(a, TallyOf(rs).groups[a.key])
    ensures AppRate(d)(a) == SumOver(rs, {a.key}, d)
  {
    GroupsDescribeSamples(rs, a.key);
  }

  lemma {:induction false} ListedSum(all: seq<AppEntry>, rs: seq<Reading>, d: Direction)
    requires Sane(rs) && Entries(all, TallyOf(rs).groups)
    ensures Sum(all, AppRate(d)) == SumOver(rs, KeysOf(all), d)
  {
    if all == [] {
      SumOverNothing(rs, d);
      assert KeysOf(all) == {};
    } else {
      EntriesRest(all, TallyOf(rs).groups);
      ListedSum(all[1..], rs, d);
      SumOverUnion(rs, KeysOf(all[1..]), all[0].key, d);
      EntrySum(all[0], rs, d);
    }
  }

  /** Before the cut, the applications together have exactly the total rate. */
  lemma {:induction false} GroupsAddUp(all: seq<AppEntry>, rs: seq<Reading>, d: Direction)
    requires Sane(rs) && Lists(all, TallyOf(rs).groups)
    ensures Sum(all, AppRate(d)) == if d == Rx then TallyOf(rs).totalRx else TallyOf(rs).totalTx
  {
    hide SumOver, Sane, TallyOf, Sum;
    ListedSum(all, rs, d);
    assert KeysOf(all) == TallyOf(rs).groups.Keys;
    TotalsAreGroups(rs, KeysOf(all));
  }

  lemma {:induction false} RatesNonNegative(rs: seq<Reading>, k: string)
    requires Sane(rs) && k in TallyOf(rs).groups
    requires forall i :: 0 <= i < |rs| ==> rs[i].rx >= 0.0 && rs[i].tx >= 0.0
    ensures TallyOf(rs).groups[k].rx >= 0.0 && TallyOf(rs).groups[k].tx >= 0.0
  {
    var front := rs[..|rs| - 1];
    if k in TallyOf(front).groups {
      RatesNonNegative(front, k);
    }
  }

  lemma {:induction false} PublishedLength(apps: seq<AppEntry>, groups: map<string, Summary>, topCount: nat)
    requires Published(apps, groups, topCount)
    ensures |apps| == Min(topCount, |groups|)
  {
    var all: seq<AppEntry> :| CutFrom(apps, all, groups, topCount);
    ListsCard(all, groups);
  }

  /** No key is published twice. */
  lemma {:induction false} PublishedDistinct(apps: seq<AppEntry>, groups: map<string, Summary>, topCount: nat)
    requires Published(apps, groups, topCount)
    ensures forall i, j :: 0 <= i < j < |apps| ==> apps[i].key != apps[j].key
  {
    var all: seq<AppEntry> :| CutFrom(apps, all, groups, topCount);
    assert forall i :: 0 <= i < |apps| ==> apps[i] == all[i];
  }

  lemma {:induction false} DistinctKeysCard(all: seq<AppEntry>)
    requires forall i, j :: 0 <= i < j < |all| ==> all[i].key != all[j].key
    ensures |KeysOf(all)| == |all|
  {
    if all != [] {
      var rest := all[1..];
      DistinctKeysCard(rest);
      assert all[0].key !in KeysOf(rest);
      assert all == [all[0]] + rest;
      assert KeysOf(all) == KeysOf(rest) + {all[0].key};
    }
  }

  lemma {:induction false} ListsCard(all: seq<AppEntry>, groups: map<string, Summary>)
    requires Lists(all, groups)
    ensures |all| == |groups|
  {
    DistinctKeysCard(all);
    assert KeysOf(all) == groups.Keys;
  }

  /** The cut keeps the largest applications: whatever group is not listed has no larger total than
      any that is. */
  lemma {:induction false} CutKeepsLargest(apps: seq<AppEntry>, groups: map<string, Summary>, topCount: nat)
    requires Published(apps, groups, topCount)
    ensures forall i, k :: 0 <= i < |apps| && k in groups && k !in KeysOf(apps) ==>
              groups[k].rx + groups[k].tx <= AppTotal(apps[i])
  {
    var all: seq<AppEntry> :| CutFrom(apps, all, groups, topCount);
    forall i, k | 0 <= i < |apps| && k in groups && k !in KeysOf(apps)
      ensures groups[k].rx + groups[k].tx <= AppTotal(apps[i])
    {
      assert forall m :: 0 <= m < |apps| ==> apps[m] in apps;
      CutOrder(apps, all, groups, i, k);
    }
  }

  lemma {:induction false} CutOrder(
    apps: seq<AppEntry>, all: seq<AppEntry>, groups: map<string, Summary>, i: nat, k: string)
    requires Lists(all, groups) && Descending(all, AppTotal) && apps <= all
    requires i < |apps| && k in groups && forall m :: 0 <= m < |apps| ==> apps[m].key != k
    ensures groups[k].rx + groups[k].tx <= AppTotal(apps[i])
  {
    var j :| 0 <= j < |all| && all[j].key == k;
    assert forall m :: 0 <= m < |apps| ==> apps[m] == all[m];
    assert AppTotal(all[i]) >= AppTotal(all[j]);
  }

  lemma {:induction false} EntriesNonNegative(all: seq<AppEntry>, rs: seq<Reading>, n: nat, d: Direction)
    requires Sane(rs) && Lists(all, TallyOf(rs).groups) && n <= |all|
    requires forall i :: 0 <= i < |rs| ==> rs[i].rx >= 0.0 && rs[i].tx >= 0.0
    ensures Sum(all[n..], AppRate(d)) >= 0.0
  {
    forall a | a in all[n..] ensures AppRate(d)(a) >= 0.0 {
      var i :| 0 <= i < |all[n..]| && all[n..][i] == a;
      assert all[n + i] == a;
      RatesNonNegative(rs, a.key);
    }
    SumNonNegative(all[n..], AppRate(d));
  }

  /** The published applications never add up to more than the published total, and to exactly the
      total when no group was cut. */
  lemma {:induction false} PublishedWithinTotal(apps: seq<AppEntry>, rs: seq<Reading>, topCount: nat, d: Direction)
    requires Sane(rs) && Published(apps, TallyOf(rs).groups, topCount)
    requires forall i :: 0 <= i < |rs| ==> rs[i].rx >= 0.0 && rs[i].tx >= 0.0
    ensures Sum(apps, AppRate(d)) <= if d == Rx then TallyOf(rs).totalRx else TallyOf(rs).totalTx
    ensures |TallyOf(rs).groups| <= topCount ==>
              Sum(apps, AppRate(d)) == if d == Rx then TallyOf(rs).totalRx else TallyOf(rs).totalTx
  {
    var all: seq<AppEntry> :| CutFrom(apps, all, TallyOf(rs).groups, topCount);
    GroupsAddUp(all, rs, d);
    ListsCard(all, TallyOf(rs).groups);
    EntriesNonNegative(all, rs, |apps|, d);
    SplitSum(apps, all, d);
  }

  lemma {:induction false} SplitSum(apps: seq<AppEntry>, all: seq<AppEntry>, d: Direction)
    requires apps <= all
    ensures Sum(all, AppRate(d)) == Sum(apps, AppRate(d)) + Sum(all[|apps|..], AppRate(d))
    ensures |apps| == |all| ==> Sum(all[|apps|..], AppRate(d)) == 0.0
  {
    SumAppend(apps, all[|apps|..], AppRate(d));
    assert all == apps + all[|apps|..];
  }

  // ---------------------------------------------------------------------------------------------
  // From the samples to the rows
  // ---------------------------------------------------------------------------------------------

  /** A row is that of the tally's group of its key. */
  lemma {:induction false} RowPresents(apps: seq<AppEntry>, groups: map<string, Summary>, topCount: nat, a: AppEntry)
    requires Published(apps, groups, topCount) && a in apps
    ensures a.key in groups && Presents(a, groups[a.key])
  {
    var all: seq<AppEntry> :| CutFrom(apps, all, groups, topCount);
    var i :| 0 <= i < |apps| && apps[i] == a;
    assert a == all[i];
  }

  lemma {:induction false} MembersDescend(a: AppEntry)
    requires Descending(a.pids, PidTotal)
    ensures forall i, j :: 0 <= i < j < |a.pids| ==> a.pids[i].rx + a.pids[i].tx >= a.pids[j].rx + a.pids[j].tx
  {
    forall i, j | 0 <= i < j < |a.pids| ensures a.pids[i].rx + a.pids[i].tx >= a.pids[j].rx + a.pids[j].tx {
      assert PidTotal(a.pids[i]) >= PidTotal(a.pids[j]);
    }
  }

  /** Rows stand in descending order of what they receive and send together, and so do the processes of
      each row. */
  lemma {:induction false} PublishedDescends(apps: seq<AppEntry>, groups: map<string, Summary>, topCount: nat)
    requires Published(apps, groups, topCount)
    ensures forall i, j :: 0 <= i < j < |apps| ==> apps[i].rx + apps[i].tx >= apps[j].rx + apps[j].tx
    ensures forall m, i, j :: 0 <= m < |apps| && 0 <= i < j < |apps[m].pids| ==>
              apps[m].pids[i].rx + apps[m].pids[i].tx >= apps[m].pids[j].rx + apps[m].pids[j].tx
  {
    hide Lists;
    var all: seq<AppEntry> :| CutFrom(apps, all, groups, topCount);
    forall i, j | 0 <= i < j < |apps| ensures apps[i].rx + apps[i].tx >= apps[j].rx + apps[j].tx {
      assert AppTotal(all[i]) >= AppTotal(all[j]);
    }
    forall m, i, j | 0 <= m < |apps| && 0 <= i < j < |apps[m].pids|
      ensures apps[m].pids[i].rx + apps[m].pids[i].tx >= apps[m].pids[j].rx + apps[m].pids[j].tx
    {
      assert all[m] == apps[m];
      MembersDescend(all[m]);
    }
  }

  /** The key a sample is counted under, and the comm it is listed with. */
  ghost predicate CountsAs(c: Context, s: RawSample, key: string, comm: string) {
    match c.resolved(s)
    case Some(info) => key == info.appKey && comm == info.comm
    case None => key == "comm:" + s.comm && comm == s.comm
  }

  lemma {:induction false} ReadingOfSample(c: Context, samples: seq<RawSample>, s: RawSample) returns (i: nat)
    requires SaneContext(c) && DistinctTgids(samples) && s in samples
    ensures i < |samples| && samples[i] == s && Readings(c, samples)[i] == Observe(c, s)
    ensures Sane(Readings(c, samples))
  {
    i :| 0 <= i < |samples| && samples[i] == s;
    ReadingAt(c, samples, i);
    ReadingsAreSane(c, samples);
  }

  lemma {:induction false} PositiveIfMoved(c: Context, s: RawSample)
    requires c.elapsed > 0.0
    ensures Observe(c, s).moved <==> RateOf(c, s, Rx) > 0.0 || RateOf(c, s, Tx) > 0.0
  {
    PositiveQuotient(DeltaOf(c.previous, s, Rx), c.elapsed);
    PositiveQuotient(DeltaOf(c.previous, s, Tx), c.elapsed);
  }

  lemma {:induction false} PositiveQuotient(n: nat, y: real)
    requires y > 0.0
    ensures n as real / y > 0.0 <==> n != 0
  {
  }

  /** Which processes a published row lists, and how: a sampled process is in the row of the appKey that
      resolve() answered, or of its comm if it is gone, once and with the rates measured for it, if and only
      if it has any; and in no other row in any form. */
  lemma {:induction false} RowLists(
    c: Context, samples: seq<RawSample>, apps: seq<AppEntry>, topCount: nat, a: AppEntry,
    s: RawSample, key: string, comm: string)
    requires SaneContext(c) && DistinctTgids(samples) && s in samples
    requires Published(apps, TallyOf(Readings(c, samples)).groups, topCount) && a in apps
    ensures CountsAs(c, s, key, comm) ==>
              var p := PidEntry(s.tgid, comm, RateOf(c, s, Rx), RateOf(c, s, Tx));
              && multiset(a.pids)[p] <= 1
              && (p in a.pids <==> a.key == key && (p.rx > 0.0 || p.tx > 0.0))
              && (forall q :: q in a.pids && q.pid == s.tgid ==> q == p)
  {
    var rs, p := Readings(c, samples), PidEntry(s.tgid, comm, RateOf(c, s, Rx), RateOf(c, s, Tx));
    var i := ReadingOfSample(c, samples, s);
    RowPresents(apps, TallyOf(rs).groups, topCount, a);
    PositiveIfMoved(c, s);
    if CountsAs(c, s, key, comm) {
      assert ListedAs(rs[i], p);
      forall q: PidEntry | q.pid == s.tgid
        ensures multiset(a.pids)[q] <= 1
        ensures q in a.pids <==> q == p && a.key == key && rs[i].moved
      {
        ListedOnce(rs, a, i, q);
      }
    }
  }

  lemma {:induction false} ListedOnce(rs: seq<Reading>, a: AppEntry, i: nat, q: PidEntry)
    requires Sane(rs) && i < |rs| && q.pid == rs[i].tgid
    requires a.key in TallyOf(rs).groups && Presents(a, TallyOf(rs).groups[a.key])
    ensures multiset(a.pids)[q] <= 1
    ensures q in a.pids <==> rs[i].moved && CountedUnder(rs[i], a.key) && ListedAs(rs[i], q)
  {
    MembersByAnswer(rs, a.key, q);
    assert q in a.pids <==> q in multiset(a.pids);
    if q in a.pids {
      var j :| 0 <= j < |rs| && rs[j].moved && CountedUnder(rs[j], a.key) && ListedAs(rs[j], q);
      assert rs[j].tgid == rs[i].tgid && j == i;
    }
  }

  /** Whatever a row lists was sampled. */
  lemma {:induction false} ListedWasSampled(
    c: Context, samples: seq<RawSample>, apps: seq<AppEntry>, topCount: nat, a: AppEntry, q: PidEntry)
    returns (s: RawSample)
    requires SaneContext(c) && DistinctTgids(samples)
    requires Published(apps, TallyOf(Readings(c, samples)).groups, topCount) && a in apps && q in a.pids
    ensures s in samples && s.tgid == q.pid
  {
    var rs := Readings(c, samples);
    RowPresents(apps, TallyOf(rs).groups, topCount, a);
    ReadingsAreSane(c, samples);
    MembersByAnswer(rs, a.key, q);
    assert q in multiset(a.pids);
    var j :| 0 <= j < |rs| && rs[j].moved && CountedUnder(rs[j], a.key) && ListedAs(rs[j], q);
    ReadingAt(c, samples, j);
    s := samples[j];
  }

  /** The lowest pid of a row. */
  ghost predicate IsLowest(a: AppEntry, t: Tgid) {
    (exists p :: p in a.pids && p.pid == t) && forall p :: p in a.pids ==> t <= p.pid
  }

  lemma {:induction false} LowestIsNamer(rs: seq<Reading>, a: AppEntry, i: nat)
    requires Sane(rs) && i < |rs| && IsLowest(a, rs[i].tgid)
    requires a.key in TallyOf(rs).groups && Presents(a, TallyOf(rs).groups[a.key])
    ensures LowestOf(rs, a.key, i)
  {
    hide Sane, TallyOf, Presents, CountedUnder, ListedAs;
    var p :| p in a.pids && p.pid == rs[i].tgid;
    ListedOnce(rs, a, i, p);
    forall j | 0 <= j < |rs| && rs[j].moved && CountedUnder(rs[j], a.key) ensures rs[i].tgid <= rs[j].tgid {
      ListedAsMember(rs[j]);
      ListedOnce(rs, a, j, Member(rs[j]));
    }
  }

  lemma {:induction false} ListedAsMember(r: Reading)
    ensures ListedAs(r, Member(r)) && Member(r).pid == r.tgid
  {
  }

  /** The row bears the name and the path that were answered for its lowest pid. */
  lemma {:induction false} RowIsNamed(
    c: Context, samples: seq<RawSample>, apps: seq<AppEntry>, topCount: nat, a: AppEntry, s: RawSample)
    requires SaneContext(c) && DistinctTgids(samples) && s in samples
    requires Published(apps, TallyOf(Readings(c, samples)).groups, topCount) && a in apps
    ensures IsLowest(a, s.tgid) ==>
              match c.resolved(s)
              case Some(info) => a.name == info.name && a.exePath == info.exePath
              case None => a.name == s.comm && a.exePath == ""
  {
    hide Sane, TallyOf, LowestOf, IsLowest, LowestWithDesktop, CountedUnder;
    var rs := Readings(c, samples);
    var i := ReadingOfSample(c, samples, s);
    RowPresents(apps, TallyOf(rs).groups, topCount, a);
    if IsLowest(a, s.tgid) {
      LowestIsNamer(rs, a, i);
      IdentityByAnswer(rs, a.key, i);
    }
  }

  predicate HasId(info: Option<ProcInfo>) {
    info.Some? && info.value.desktopId != ""
  }

  /** A process of the row has a desktop id. */
  ghost predicate HasIdIn(a: AppEntry, t: Tgid, info: Option<ProcInfo>) {
    (exists p :: p in a.pids && p.pid == t) && HasId(info)
  }

  lemma {:induction false} HasIdByAnswer(rs: seq<Reading>, a: AppEntry, j: nat)
    requires Sane(rs) && j < |rs|
    requires a.key in TallyOf(rs).groups && Presents(a, TallyOf(rs).groups[a.key])
    ensures HasIdIn(a, rs[j].tgid, rs[j].info)
       <==> rs[j].moved && CountedUnder(rs[j], a.key) && HasId(rs[j].info)
  {
    hide Sane, TallyOf, Presents, CountedUnder, ListedAs;
    ListedAsMember(rs[j]);
    ListedOnce(rs, a, j, Member(rs[j]));
    if p :| p in a.pids && p.pid == rs[j].tgid {
      ListedOnce(rs, a, j, p);
    }
  }

  lemma {:induction false} ShownByAnswer(rs: seq<Reading>, a: AppEntry, i: nat)
    requires Sane(rs) && i < |rs|
    requires a.key in TallyOf(rs).groups && Presents(a, TallyOf(rs).groups[a.key])
    ensures HasIdIn(a, rs[i].tgid, rs[i].info)
            && (forall j :: 0 <= j < |rs| && HasIdIn(a, rs[j].tgid, rs[j].info) ==> rs[i].tgid <= rs[j].tgid) ==>
              a.desktopId == rs[i].info.value.desktopId && a.icon == rs[i].info.value.icon
    ensures (forall j :: 0 <= j < |rs| ==> !HasIdIn(a, rs[j].tgid, rs[j].info)) ==> a.desktopId == "" && a.icon == ""
  {
    hide Sane, TallyOf, CountedUnder, HasIdIn, LowestOf;
    forall j | 0 <= j < |rs|
      ensures HasIdIn(a, rs[j].tgid, rs[j].info)
         <==> rs[j].moved && CountedUnder(rs[j], a.key) && HasId(rs[j].info)
    {
      HasIdByAnswer(rs, a, j);
    }
    IdentityByAnswer(rs, a.key, i);
  }

  /** The row shows the desktop id and the icon that were answered for the lowest of its pids that has a
      desktop id, and none if none has. */
  lemma {:induction false} RowIsShown(
    c: Context, samples: seq<RawSample>, apps: seq<AppEntry>, topCount: nat, a: AppEntry, s: RawSample)
    requires SaneContext(c) && DistinctTgids(samples) && s in samples
    requires Published(apps, TallyOf(Readings(c, samples)).groups, topCount) && a in apps
    ensures HasIdIn(a, s.tgid, c.resolved(s))
            && (forall x :: x in samples && HasIdIn(a, x.tgid, c.resolved(x)) ==> s.tgid <= x.tgid) ==>
              a.desktopId == c.resolved(s).value.desktopId && a.icon == c.resolved(s).value.icon
    ensures (forall x :: x in samples ==> !HasIdIn(a, x.tgid, c.resolved(x))) ==> a.desktopId == "" && a.icon == ""
  {
    hide Sane, TallyOf, HasIdIn;
    var rs := Readings(c, samples);
    var i := ReadingOfSample(c, samples, s);
    RowPresents(apps, TallyOf(rs).groups, topCount, a);
    forall j | 0 <= j < |rs| ensures rs[j] == Observe(c, samples[j]) && samples[j] in samples {
      ReadingAt(c, samples, j);
    }
    ShownByAnswer(rs, a, i);
  }
}
