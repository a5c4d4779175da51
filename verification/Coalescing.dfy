/** Which publications the watcher hands on between two resets, over whole runs. */
module Coalescing {
  import opened JsonWriter
  import opened StateWatcher

  // ---------------------------------------------------------------------------------------------
  // What is read, and what is handed on
  // ---------------------------------------------------------------------------------------------

  /** The snapshots handed on, in order. */
  function Emitted(log: seq<Signal>): seq<Document> {
    if log == [] then []
    else
      var last := log[|log| - 1];
      Emitted(log[..|log| - 1]) + if last.Updated? then [last.doc] else []
  }

  /** The interval changes signalled, in order. */
  function Intervals(log: seq<Signal>): seq<int> {
    if log == [] then []
    else
      var last := log[|log| - 1];
      Intervals(log[..|log| - 1]) + if last.IntervalMsChanged? then [last.ms] else []
  }

  /** The documents found by the reads of a run, in order. */
  function Taken(s: State, events: seq<Event>): seq<Document> {
    if events == [] then []
    else
      var front, a := events[..|events| - 1], events[|events| - 1].action;
      Taken(s, front) + if Looks(Run(s, front), a) && a.file.Holds? then [a.file.doc] else []
  }

  function LastNumber(docs: seq<Document>, before: int): int {
    if docs == [] then before else docs[|docs| - 1].serial
  }

  /** The publications among them: those whose number is not the one before. */
  function Publications(docs: seq<Document>, before: int): seq<Document> {
    if docs == [] then []
    else
      var front, last := docs[..|docs| - 1], docs[|docs| - 1];
      Publications(front, before) + if last.serial == LastNumber(front, before) then [] else [last]
  }

  /** Elements first, first + f, first + 2f and so on, counted from 0. */
  function Every(xs: seq<Document>, first: nat, f: nat): seq<Document>
    requires f >= 1
  {
    if xs == [] then []
    else
      var n := |xs| - 1;
      Every(xs[..n], first, f) + if n >= first && (n - first) % f == 0 then [xs[n]] else []
  }

  lemma {:induction false} EveryLength(xs: seq<Document>, first: nat, f: nat)
    requires f >= 1
    ensures |Every(xs, first, f)| == if |xs| <= first then 0 else (|xs| - first + f - 1) / f
  {
    if xs != [] {
      var n := |xs| - 1;
      EveryLength(xs[..n], first, f);
      if n >= first {
        Ceiling(n - first, f);
      }
    }
  }

  lemma {:induction false} Ceiling(n: nat, f: nat)
    requires f >= 1
    ensures (f - 1) / f == 0
    ensures (n + f) / f == (n + f - 1) / f + if n % f == 0 then 1 else 0
  {
    var q, r := n / f, n % f;
    assert n == q * f + r;
    if r == 0 {
      QuotientIs(n + f - 1, f, q, f - 1);
    } else {
      QuotientIs(n + f - 1, f, q + 1, r - 1);
    }
    QuotientIs(n + f, f, q + 1, r);
    QuotientIs(f - 1, f, 0, f - 1);
  }

  lemma {:induction false} QuotientIs(x: int, f: int, q: int, r: int)
    requires f >= 1 && x == q * f + r && 0 <= r < f
    ensures x / f == q && x % f == r
  {
    var d := q - x / f;
    assert d * f == x % f - r;
    Small(d, f);
  }

  lemma {:induction false} Small(d: int, f: int)
    requires f >= 1 && -f < d * f < f
    ensures d == 0
  {
    OutOfRange(d, f);
  }

  lemma {:induction false} OutOfRange(d: int, f: int)
    requires f >= 1
    ensures (d >= 1 ==> d * f >= f) && (d <= -1 ==> d * f <= -f)
  {
  }

  lemma {:induction false} Multiple(m: nat, f: nat, i: nat)
    requires f >= 1 && m == i * f
    ensures m % f == 0 && (m + f - 1) / f == i
  {
    QuotientIs(m, f, i, 0);
    QuotientIs(m + f - 1, f, i, f - 1);
  }

  /** The i-th element taken, from 0, is number first + i * f. */
  lemma {:induction false} EveryAt(xs: seq<Document>, first: nat, f: nat, i: nat)
    requires f >= 1 && first + i * f < |xs|
    ensures i < |Every(xs, first, f)| && Every(xs, first, f)[i] == xs[first + i * f]
  {
    EveryIndex(xs, first, f, i, i * f);
  }

  lemma {:induction false} EveryIndex(xs: seq<Document>, first: nat, f: nat, i: nat, m: nat)
    requires f >= 1 && m == i * f && first + m < |xs|
    ensures i < |Every(xs, first, f)| && Every(xs, first, f)[i] == xs[first + m]
  {
    var n := |xs| - 1;
    if first + m < n {
      EveryIndex(xs[..n], first, f, i, m);
    } else {
      Multiple(m, f, i);
      LengthBefore(xs[..n], first, f, i, m);
    }
  }

  lemma {:induction false} LengthBefore(xs: seq<Document>, first: nat, f: nat, i: nat, m: nat)
    requires f >= 1 && m == i * f && |xs| == first + m
    ensures |Every(xs, first, f)| == i
  {
    EveryLength(xs, first, f);
    Multiple(m, f, i);
    if m == 0 {
      QuotientIs(0, f, i, 0);
      QuotientIs(0, f, 0, 0);
    }
  }

  lemma {:induction false} EveryNext(xs: seq<Document>, d: Document, first: nat, f: nat)
    requires f >= 1
    ensures Every(xs + [d], first, f)
         == if |xs| >= first && (|xs| - first) % f == 0 then Every(xs, first, f) + [d] else Every(xs, first, f)
  {
    assert (xs + [d])[..|xs|] == xs;
    assert Every(xs, first, f) + [] == Every(xs, first, f);
  }

  lemma {:induction false} PublicationsNext(docs: seq<Document>, before: int, d: Document)
    ensures Publications(docs + [d], before)
         == if d.serial == LastNumber(docs, before) then Publications(docs, before)
            else Publications(docs, before) + [d]
    ensures LastNumber(docs + [d], before) == d.serial
  {
    assert (docs + [d])[..|docs|] == docs;
    assert Publications(docs, before) + [] == Publications(docs, before);
  }

  // ---------------------------------------------------------------------------------------------
  // One step
  // ---------------------------------------------------------------------------------------------

  /** An event that fails no read and changes neither the path nor the coalescing. */
  predicate Gentle(s: State, e: Event) {
    match e.action
    case SetPath(path) => path == s.path
    case SetCoalesceMs(ms) => ms == s.coalesceMs
    case SetStaleAfterMs(_) => true
    case Expire => s.watchdog.Stopped?
    case _ =>
      Looks(s, e.action) ==>
        Readable(s, e.action.file) && !Leftover(s, e.action.file.doc, e.now)
  }

  predicate Smooth(s: State, events: seq<Event>) {
    if events == [] then true
    else
      var front := events[..|events| - 1];
      Smooth(s, front) && Gentle(Run(s, front), events[|events| - 1])
  }

  /** How many publications are let go before one is handed on: none after a reset that forgets the
      interval, and otherwise what the count of skipped ones still lacks. */
  function First(s: State, factor: nat): nat {
    if s.intervalMs <= 0 || s.skipped + 1 >= factor || s.skipped < 0 then 0 else factor - 1 - s.skipped
  }

  lemma {:induction false} LogNext(log: seq<Signal>, x: Signal)
    ensures Emitted(log + [x]) == Emitted(log) + if x.Updated? then [x.doc] else []
    ensures Intervals(log + [x]) == Intervals(log) + if x.IntervalMsChanged? then [x.ms] else []
  {
    assert (log + [x])[..|log|] == log;
  }

  lemma {:induction false} NoticeStep(s: State, d: Document, now: int)
    ensures var n := Noticed(s, d, now);
            && Emitted(n.log) == Emitted(s.log) && Intervals(n.log) == Intervals(s.log)
            && n.lastSeq == d.serial && n.path == s.path && n.coalesceMs == s.coalesceMs
            && n.skipped == s.skipped && n.intervalMs == s.intervalMs
  {
    if s.status != Ok {
      LogNext(s.log, StatusChanged(Ok));
    }
  }

  /** An unseen publication is handed on or skipped, and the interval is signalled only when it is
      not the one in force. */
  lemma {:induction false} CoalesceStep(s: State, d: Document, factor: int, spacing: int)
    ensures var t := Coalesced(s, d, factor, spacing);
            && t.path == s.path && t.coalesceMs == s.coalesceMs && t.lastSeq == s.lastSeq
            && (if s.intervalMs > 0 && s.skipped + 1 < factor then
                  && Emitted(t.log) == Emitted(s.log) && Intervals(t.log) == Intervals(s.log)
                  && t.skipped == s.skipped + 1 && t.intervalMs == s.intervalMs
                else
                  && Emitted(t.log) == Emitted(s.log) + [d] && t.skipped == 0 && t.intervalMs == spacing
                  && Intervals(t.log) == Intervals(s.log) + if s.intervalMs == spacing then [] else [spacing])
  {
    if !(s.intervalMs > 0 && s.skipped + 1 < factor) {
      AcceptLog(s.log, d, spacing, s.intervalMs != spacing);
    }
  }

  lemma {:induction false} AcceptLog(log: seq<Signal>, d: Document, spacing: int, signalled: bool)
    ensures var before := if signalled then log + [IntervalMsChanged(spacing)] else log;
            && Emitted(before + [SnapshotChanged, Updated(d, spacing)]) == Emitted(log) + [d]
            && Intervals(before + [SnapshotChanged, Updated(d, spacing)])
               == Intervals(log) + if signalled then [spacing] else []
  {
    if signalled {
      LogNext(log, IntervalMsChanged(spacing));
      AcceptTail(log + [IntervalMsChanged(spacing)], d, spacing);
    } else {
      AcceptTail(log, d, spacing);
    }
  }

  lemma {:induction false} AcceptTail(log: seq<Signal>, d: Document, spacing: int)
    ensures Emitted(log + [SnapshotChanged, Updated(d, spacing)]) == Emitted(log) + [d]
    ensures Intervals(log + [SnapshotChanged, Updated(d, spacing)]) == Intervals(log)
  {
    var one, two := log + [SnapshotChanged], log + [SnapshotChanged, Updated(d, spacing)];
    LogNext(log, SnapshotChanged);
    LogNext(one, Updated(d, spacing));
    assert one + [Updated(d, spacing)] == two;
  }

  // ---------------------------------------------------------------------------------------------
  // Runs
  // ---------------------------------------------------------------------------------------------

  /** What has been handed on and signalled by s, since s0, when docs have been read. */
  ghost predicate Even(s0: State, s: State, docs: seq<Document>, factor: nat, spacing: int)
    requires factor >= 1
  {
    var pubs, first := Publications(docs, s0.lastSeq), First(s0, factor);
    && s.path == s0.path && s.coalesceMs == s0.coalesceMs && s.lastSeq == LastNumber(docs, s0.lastSeq)
    && Emitted(s.log) == Emitted(s0.log) + Every(pubs, first, factor)
    && Counts(s0, s.intervalMs, s.skipped, |pubs|, factor, spacing)
    && Intervals(s.log) == Intervals(s0.log) + Changes(s0, |pubs|, factor, spacing)
  }

  /** The change of interval that is signalled while count publications are read, if there is one. */
  function Changes(s0: State, count: nat, factor: nat, spacing: int): seq<int> {
    if count <= First(s0, factor) || s0.intervalMs == spacing then [] else [spacing]
  }

  /** skipped counts the publications since the last one handed on. */
  predicate Counts(s0: State, intervalMs: int, skipped: int, count: nat, factor: nat, spacing: int)
    requires factor >= 1
  {
    var first := First(s0, factor);
    if count <= first then intervalMs == s0.intervalMs && skipped == s0.skipped + count
    else intervalMs == spacing && skipped == (count - 1 - first) % factor
  }

  lemma {:induction false} Remainder(n: nat, f: nat)
    requires f >= 1
    ensures (n + 1) % f == if n % f + 1 == f then 0 else n % f + 1
    ensures 0 % f == 0
  {
    var q, r := n / f, n % f;
    assert n == q * f + r;
    if r + 1 == f {
      QuotientIs(n + 1, f, q + 1, 0);
    } else {
      QuotientIs(n + 1, f, q, r + 1);
    }
    QuotientIs(0, f, 0, 0);
  }

  lemma {:induction false} Regroup(a: seq<Document>, b: seq<Document>, d: Document)
    ensures a + b + [d] == a + (b + [d])
  {
  }

  lemma {:induction false} RegroupChanges(a: seq<int>, b: seq<int>, x: int)
    ensures a + b + [x] == a + (b + [x]) && b + [] == b && a + b + [] == a + b
  {
  }

  /** It is the turn of the publication that follows count others. */
  predicate Due(s0: State, count: nat, factor: nat)
    requires factor >= 1
  {
    count >= First(s0, factor) && (count - First(s0, factor)) % factor == 0
  }

  lemma {:induction false} TurnComes(s0: State, intervalMs: int, skipped: int, count: nat, factor: nat, spacing: int)
    requires factor >= 1 && spacing > 0 && s0.skipped >= 0
    requires Counts(s0, intervalMs, skipped, count, factor, spacing)
    ensures Due(s0, count, factor) <==> !(intervalMs > 0 && skipped + 1 < factor)
    ensures if Due(s0, count, factor) then Counts(s0, spacing, 0, count + 1, factor, spacing)
            else Counts(s0, intervalMs, skipped + 1, count + 1, factor, spacing)
  {
    var first := First(s0, factor);
    Remainder(if count <= first then 0 else count - 1 - first, factor);
  }

  lemma {:induction false} ChangesNext(s0: State, intervalMs: int, skipped: int, count: nat, factor: nat, spacing: int)
    requires factor >= 1 && Counts(s0, intervalMs, skipped, count, factor, spacing)
    ensures Changes(s0, count + 1, factor, spacing)
         == Changes(s0, count, factor, spacing)
              + if Due(s0, count, factor) && intervalMs != spacing then [spacing] else []
  {
    Remainder(0, factor);
  }

  lemma {:induction false} EveryDue(s0: State, pubs: seq<Document>, d: Document, factor: nat)
    requires factor >= 1
    ensures Every(pubs + [d], First(s0, factor), factor)
         == if Due(s0, |pubs|, factor) then Every(pubs, First(s0, factor), factor) + [d]
            else Every(pubs, First(s0, factor), factor)
  {
    EveryNext(pubs, d, First(s0, factor), factor);
  }

  /** An unseen publication. */
  lemma {:induction false} EvenUnseen(
    s0: State, s: State, docs: seq<Document>, d: Document, now: int, factor: nat, spacing: int)
    requires factor >= 1 && spacing > 0 && s0.skipped >= 0
    requires Even(s0, s, docs, factor, spacing) && Unseen(s, Holds(d), now)
    requires factor == Factor(s.coalesceMs, PublishMs(d)) && spacing == Spacing(s, d)
    ensures Even(s0, Read(s, Holds(d), now), docs + [d], factor, spacing)
  {
    hide First, Due, Counts, Changes, Factor, Spacing, PublishMs, Every, Publications, LastNumber, Emitted, Intervals;
    var n, pubs := Noticed(s, d, now), Publications(docs, s0.lastSeq);
    NoticeStep(s, d, now);
    CoalesceStep(n, d, factor, spacing);
    PublicationsNext(docs, s0.lastSeq, d);
    EveryDue(s0, pubs, d, factor);
    TurnComes(s0, s.intervalMs, s.skipped, |pubs|, factor, spacing);
    ChangesNext(s0, s.intervalMs, s.skipped, |pubs|, factor, spacing);
    RegroupChanges(Intervals(s0.log), Changes(s0, |pubs|, factor, spacing), spacing);
    Regroup(Emitted(s0.log), Every(pubs, First(s0, factor), factor), d);
  }

  lemma {:induction false} EvenRead(
    s0: State, s: State, docs: seq<Document>, f: File, now: int, factor: nat, spacing: int)
    requires factor >= 1 && spacing > 0 && s0.skipped >= 0 && Even(s0, s, docs, factor, spacing)
    requires Readable(s, f) && !Leftover(s, f.doc, now)
    requires factor == Factor(s.coalesceMs, PublishMs(f.doc)) && spacing == Spacing(s, f.doc)
    ensures Even(s0, Read(s, f, now), docs + [f.doc], factor, spacing)
  {
    assert f == Holds(f.doc);
    if f.doc.serial == s.lastSeq {
      PublicationsNext(docs, s0.lastSeq, f.doc);
    } else {
      EvenUnseen(s0, s, docs, f.doc, now, factor, spacing);
    }
  }

  lemma {:induction false} EvenStep(
    s0: State, s: State, docs: seq<Document>, e: Event, factor: nat, spacing: int)
    requires factor >= 1 && spacing > 0 && s0.skipped >= 0 && Even(s0, s, docs, factor, spacing) && Gentle(s, e)
    requires Looks(s, e.action) ==>
               factor == Factor(s.coalesceMs, PublishMs(e.action.file.doc)) && spacing == Spacing(s, e.action.file.doc)
    ensures Even(s0, Step(s, e), if Looks(s, e.action) then docs + [e.action.file.doc] else docs, factor, spacing)
  {
    match e.action {
      case Wake(f) => EvenRead(s0, s, docs, f, e.now, factor, spacing);
      case FirstRead(f) =>
        if s.firstRead {
          EvenRead(s0, s.(firstRead := false), docs, f, e.now, factor, spacing);
        }
      case Retry(f) =>
        if s.retry {
          EvenRead(s0, s, docs, f, e.now, factor, spacing);
        }
      case SetStaleAfterMs(_) => LogNext(s.log, StaleAfterMsChanged);
      case _ =>
    }
  }

  /** Documents of one daemon that publishes every publishMs. */
  predicate Steady(docs: seq<Document>, publishMs: int) {
    forall i :: 0 <= i < |docs| ==> PublishMs(docs[i]) == publishMs
  }

  lemma {:induction false} TakenNext(s: State, events: seq<Event>, publishMs: int)
    requires events != [] && Smooth(s, events) && Steady(Taken(s, events), publishMs)
    ensures var front, e := events[..|events| - 1], events[|events| - 1];
            && Smooth(s, front) && Steady(Taken(s, front), publishMs) && Gentle(Run(s, front), e)
            && (if Looks(Run(s, front), e.action) then
                  && e.action.file.Holds? && PublishMs(e.action.file.doc) == publishMs
                  && Taken(s, events) == Taken(s, front) + [e.action.file.doc]
                else Taken(s, events) == Taken(s, front))
  {
    var front, e := events[..|events| - 1], events[|events| - 1];
    var docs, all := Taken(s, front), Taken(s, events);
    assert forall i :: 0 <= i < |docs| ==> docs[i] == all[i];
    if Looks(Run(s, front), e.action) {
      assert all[|docs|] == e.action.file.doc;
    }
  }

  lemma {:induction false} EvenRun(s: State, events: seq<Event>, publishMs: int, factor: nat, spacing: int)
    requires Coherent(s) && Smooth(s, events) && Steady(Taken(s, events), publishMs)
    requires publishMs > 0 && factor == Factor(s.coalesceMs, publishMs) && spacing == factor * publishMs > 0
    ensures Even(s, Run(s, events), Taken(s, events), factor, spacing)
  {
    if events != [] {
      var front, e := events[..|events| - 1], events[|events| - 1];
      TakenNext(s, events, publishMs);
      EvenRun(s, front, publishMs, factor, spacing);
      EvenStep(s, Run(s, front), Taken(s, front), e, factor, spacing);
    }
  }

  /** From any state, with one coalescing setting and one publishing interval and whatever else happens
      that fails no read: after the first few, every f-th publication is handed on; and the interval is
      signalled once, with the first of these, as f publishing intervals, if it was not that already. */
  lemma {:induction false} EvenSpacing(s: State, events: seq<Event>, publishMs: int)
    requires Coherent(s) && Smooth(s, events) && Steady(Taken(s, events), publishMs) && publishMs > 0
    ensures var f, t := Factor(s.coalesceMs, publishMs), Run(s, events);
            var pubs := Publications(Taken(s, events), s.lastSeq);
            var first, spacing := First(s, f), f * publishMs;
            && Emitted(t.log) == Emitted(s.log) + Every(pubs, first, f)
            && Intervals(t.log)
               == Intervals(s.log) + (if |pubs| <= first || s.intervalMs == spacing then [] else [spacing])
            && t.intervalMs == if |pubs| <= first then s.intervalMs else spacing
  {
    var f := Factor(s.coalesceMs, publishMs);
    AtLeastOnce(f, publishMs);
    EvenRun(s, events, publishMs, f, f * publishMs);
  }

  /** From a reset that forgets the interval these are publications 1, 1 + f, 1 + 2f, ... */
  lemma {:induction false} EvenSpacingFromReset(s: State, events: seq<Event>, publishMs: int)
    requires Coherent(s) && s.intervalMs == 0
    requires Smooth(s, events) && Steady(Taken(s, events), publishMs) && publishMs > 0
    ensures var f, t := Factor(s.coalesceMs, publishMs), Run(s, events);
            var pubs := Publications(Taken(s, events), s.lastSeq);
            && Emitted(t.log) == Emitted(s.log) + Every(pubs, 0, f)
            && Intervals(t.log) == Intervals(s.log) + (if pubs == [] then [] else [f * publishMs])
  {
    EvenSpacing(s, events, publishMs);
    AtLeastOnce(Factor(s.coalesceMs, publishMs), publishMs);
  }

  lemma {:induction false} CountAnew(s: State, ms: int, factor: nat)
    requires s.intervalMs > 0 && ms != s.coalesceMs && factor >= 1
    ensures First(CoalesceSet(s, ms), factor) == factor - 1
    ensures Emitted(CoalesceSet(s, ms).log) == Emitted(s.log)
  {
    LogNext(s.log, CoalesceMsChanged);
  }

  /** A change of the setting while an interval is in force starts the count anew without forgetting the
      interval, so the first publication handed on under the new one is number f. */
  lemma {:induction false} EvenSpacingFromSetting(s: State, ms: int, events: seq<Event>, publishMs: int)
    requires Coherent(s) && s.intervalMs > 0 && ms != s.coalesceMs && publishMs > 0
    requires Smooth(CoalesceSet(s, ms), events) && Steady(Taken(CoalesceSet(s, ms), events), publishMs)
    ensures var f, pubs := Factor(ms, publishMs), Publications(Taken(CoalesceSet(s, ms), events), s.lastSeq);
            Emitted(Run(CoalesceSet(s, ms), events).log) == Emitted(s.log) + Every(pubs, f - 1, f)
  {
    hide First, Smooth, Steady, Taken, Publications, Emitted, Every, Run;
    EvenSpacing(CoalesceSet(s, ms), events, publishMs);
    CountAnew(s, ms, Factor(ms, publishMs));
  }

  /** Runs with the same publications hand on the same snapshots at the same interval: duplicate
      wake-ups, and whatever else lies between the publications, cannot be told from nothing. */
  lemma {:induction false} DuplicatesAreInvisible(s: State, events: seq<Event>, events': seq<Event>, publishMs: int)
    requires Coherent(s) && publishMs > 0
    requires Smooth(s, events) && Steady(Taken(s, events), publishMs)
    requires Smooth(s, events') && Steady(Taken(s, events'), publishMs)
    requires Publications(Taken(s, events), s.lastSeq) == Publications(Taken(s, events'), s.lastSeq)
    ensures Emitted(Run(s, events).log) == Emitted(Run(s, events').log)
    ensures Intervals(Run(s, events).log) == Intervals(Run(s, events').log)
  {
    EvenSpacing(s, events, publishMs);
    EvenSpacing(s, events', publishMs);
  }

  /** Measurements that stay within 50 ms of one multiple of 100 ms settle the interval for good: it is
      signalled with the first acceptance, if it changes there, and never again. */
  lemma {:induction false} JitterNeverClearsHistory(s: State, events: seq<Event>, k: int)
    requires Coherent(s) && Smooth(s, events) && k >= 1
    requires forall d :: d in Taken(s, events) ==> -0.5 < d.interval * 10.0 - k as real < 0.5
    ensures var f, pubs := Factor(s.coalesceMs, 100 * k), Publications(Taken(s, events), s.lastSeq);
            var spacing := f * (100 * k);
            Intervals(Run(s, events).log)
              == Intervals(s.log) + if |pubs| <= First(s, f) || s.intervalMs == spacing then [] else [spacing]
  {
    var docs := Taken(s, events);
    forall i | 0 <= i < |docs| ensures PublishMs(docs[i]) == 100 * k {
      assert docs[i] in docs;
      QuantizedExactly(docs[i].interval, k);
    }
    EvenSpacing(s, events, 100 * k);
  }
}
