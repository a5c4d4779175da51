/**
 The reader of state.json: three timers, a sequence filter, a coalescing counter and the properties
 QML binds to. The class changes its fields step by step as the source does; the functions on State
 say what each method does to all of them, and the statements about runs are about those.

 A snapshot is held as the parsed document instead of its text. Signals are recorded in the order
 they are emitted. Milliseconds and sequence numbers are unbounded integers.
 */
module StateWatcher {
  import opened Arithmetic
  import opened Basics
  import opened JsonWriter

  datatype Status = Ok | Unavailable | Stale

  /** What opening and parsing the path yields. */
  datatype File = Missing | Malformed | Holds(doc: Document)

  datatype Timer = Stopped | Armed(at: int, window: int)

  /** Updated carries the spacing the snapshot was accepted at, for the statements below. */
  datatype Signal =
    | PathChanged | CoalesceMsChanged | StaleAfterMsChanged
    | StatusChanged(status: Status) | SnapshotChanged | IntervalMsChanged(ms: int)
    | Updated(doc: Document, spacing: int)

  datatype State = State(
    path: string, coalesceMs: int, staleAfterMs: int,
    status: Status, snapshot: Option<Document>, intervalMs: int, lastSeq: int, skipped: int,
    firstRead: bool, retry: bool, watchdog: Timer,
    log: seq<Signal>)

  const Initial := State("", 0, 5000, Unavailable, None, 0, -1, 0, false, false, Stopped, [])

  // ---------------------------------------------------------------------------------------------
  // Arithmetic
  // ---------------------------------------------------------------------------------------------

  /** The measured interval to the nearest tenth of a second, never less than one. */
  function QuantizedPublishMs(intervalSeconds: real): int {
    Max(1, Round(intervalSeconds * 10.0)) * 100
  }

  function Factor(coalesceMs: int, publishMs: int): int
    requires publishMs > 0
  {
    Max(1, Round(coalesceMs as real / publishMs as real))
  }

  function PublishMs(d: Document): int {
    QuantizedPublishMs(d.interval)
  }

  /** Which measurements are taken for k tenths of a second. */
  lemma {:induction false} QuantizedExactly(x: real, k: int)
    requires k >= 1
    ensures QuantizedPublishMs(x) == 100 * k
       <==> x * 10.0 < k as real + 0.5 && (k == 1 || k as real - 0.5 <= x * 10.0)
  {
    var n := Round(x * 10.0);
    if n > k {
      assert n as real >= k as real + 1.0;
    } else if n < k {
      assert n as real <= k as real - 1.0;
    }
  }

  lemma {:induction false} PublishIsPositive(x: real)
    ensures QuantizedPublishMs(x) >= 100 && QuantizedPublishMs(x) % 100 == 0
  {
  }

  /** The accepted spacing: a multiple of the publishing interval, within half of it of the setting
      when the setting is at least half of it, and the interval itself when it is not. */
  lemma {:induction false} SpacingApproximatesSetting(coalesceMs: int, publishMs: int)
    requires publishMs > 0
    ensures Factor(coalesceMs, publishMs) >= 1
    ensures 2 * coalesceMs >= publishMs ==>
              -publishMs <= 2 * (Factor(coalesceMs, publishMs) * publishMs - coalesceMs) <= publishMs
    ensures 2 * coalesceMs < publishMs ==> Factor(coalesceMs, publishMs) == 1
  {
    HalfOrMore(coalesceMs, publishMs);
    if 2 * coalesceMs >= publishMs {
      assert Round(coalesceMs as real / publishMs as real) >= 1;
      NearestMultiple(Factor(coalesceMs, publishMs), publishMs, coalesceMs);
    } else {
      assert Round(coalesceMs as real / publishMs as real) <= 0;
    }
  }

  /** The setting is no lower bound on the spacing: it is one exactly when it is no longer than the
      publishing interval, a multiple of it, or half an interval or more past one. */
  lemma {:induction false} NotShorter(coalesceMs: int, publishMs: int)
    requires publishMs > 0
    ensures Factor(coalesceMs, publishMs) * publishMs >= coalesceMs
       <==> coalesceMs <= publishMs || coalesceMs % publishMs == 0 || 2 * (coalesceMs % publishMs) >= publishMs
  {
    var q, r := coalesceMs / publishMs, coalesceMs % publishMs;
    RoundQuotient(coalesceMs, publishMs);
    assert coalesceMs == q * publishMs + r;
    if coalesceMs <= publishMs {
      AtLeastOnce(Factor(coalesceMs, publishMs), publishMs);
    } else {
      AtLeastOne(coalesceMs, publishMs);
      OddMultiples(q + 1, q, publishMs);
    }
  }

  lemma {:induction false} AtLeastOnce(f: int, p: int)
    requires f >= 1 && p > 0
    ensures f * p >= p
  {
  }

  lemma {:induction false} AtLeastOne(c: int, p: int)
    requires c > p > 0
    ensures c / p >= 1
  {
  }

  /** A setting of 1400 ms with a publication every second is served every second. */
  lemma {:induction false} ShorterThanAsked()
    ensures Factor(1400, 1000) * 1000 == 1000
  {
    RoundQuotient(1400, 1000);
  }

  // ---------------------------------------------------------------------------------------------
  // The methods, as functions on the state
  // ---------------------------------------------------------------------------------------------

  function WithInterval(s: State, ms: int): State {
    if s.intervalMs == ms then s else s.(intervalMs := ms, log := s.log + [IntervalMsChanged(ms)])
  }

  function WithStatus(s: State, status: Status): State {
    if s.status == status then s else s.(status := status, log := s.log + [StatusChanged(status)])
  }

  function WithoutSnapshot(s: State): State {
    if s.snapshot.None? then s else s.(snapshot := None, log := s.log + [SnapshotChanged])
  }

  function Forgotten(s: State): State {
    WithoutSnapshot(WithInterval(s.(watchdog := Stopped, lastSeq := -1, skipped := 0), 0))
  }

  function Failed(s: State, status: Status): State {
    WithStatus(Forgotten(s), status).(retry := true)
  }

  predicate Readable(s: State, f: File) {
    s.path != "" && f.Holds? && f.doc.v == 1
  }

  /** Older than the stale window by the wall clock: looked at only while the watchdog is stopped. */
  predicate Leftover(s: State, d: Document, now: int) {
    s.watchdog.Stopped? && now - Truncate(d.ts * 1000.0) > s.staleAfterMs
  }

  /** A read that leaves evidence of a running daemon. */
  predicate Unseen(s: State, f: File, now: int) {
    Readable(s, f) && !Leftover(s, f.doc, now) && f.doc.serial != s.lastSeq
  }

  /** StateWatcher.cpp, lines 189-196: an unseen publication, before coalescing. */
  function Noticed(s: State, d: Document, now: int): State {
    var window := Max(s.staleAfterMs, 3 * PublishMs(d));
    WithStatus(s.(lastSeq := d.serial, watchdog := Armed(now, window), retry := false), Ok)
  }

  /** StateWatcher.cpp, lines 206-215. */
  function Coalesced(s: State, d: Document, factor: int, spacing: int): State {
    if s.intervalMs > 0 && s.skipped + 1 < factor then s.(skipped := s.skipped + 1)
    else
      var t := WithInterval(s.(skipped := 0), spacing);
      t.(snapshot := Some(d), log := t.log + [SnapshotChanged, Updated(d, spacing)])
  }

  /** The spacing a publication is accepted at under the current setting. */
  function Spacing(s: State, d: Document): int {
    Factor(s.coalesceMs, PublishMs(d)) * PublishMs(d)
  }

  function Read(s: State, f: File, now: int): State {
    if !Readable(s, f) then Failed(s, Unavailable)
    else if Leftover(s, f.doc, now) then Failed(s, Stale)
    else if f.doc.serial == s.lastSeq then s
    else Coalesced(Noticed(s, f.doc, now), f.doc, Factor(s.coalesceMs, PublishMs(f.doc)), Spacing(s, f.doc))
  }

  function PathSet(s: State, path: string): State {
    if s.path == path then s
    else
      var t := WithInterval(s.(path := path, lastSeq := -1, skipped := 0), 0);
      t.(log := t.log + [PathChanged], firstRead := true)
  }

  function CoalesceSet(s: State, ms: int): State {
    if s.coalesceMs == ms then s
    else s.(coalesceMs := ms, skipped := 0, log := s.log + [CoalesceMsChanged])
  }

  function StaleAfterSet(s: State, ms: int, now: int): State {
    if s.staleAfterMs == ms then s
    else s.(staleAfterMs := ms,
            watchdog := if s.watchdog.Armed? then Armed(now, ms) else Stopped,
            log := s.log + [StaleAfterMsChanged])
  }

  class Watcher {
    var path: string
    var coalesceMs: int
    var staleAfterMs: int
    var status: Status
    var snapshot: Option<Document>
    var intervalMs: int
    var lastSeq: int
    var skipped: int
    var firstRead: bool
    var retry: bool
    var watchdog: Timer
    ghost var log: seq<Signal>

    ghost function Contents(): State
      reads this
    {
      State(path, coalesceMs, staleAfterMs, status, snapshot, intervalMs, lastSeq, skipped,
            firstRead, retry, watchdog, log)
    }

    constructor ()
      ensures Contents() == Initial
    {
      path, coalesceMs, staleAfterMs := "", 0, 5000;
      status, snapshot, intervalMs, lastSeq, skipped := Unavailable, None, 0, -1, 0;
      firstRead, retry, watchdog := false, false, Stopped;
      log := [];
    }

    method SetStatus(s: Status)
      modifies this`status, this`log
      ensures Contents() == WithStatus(old(Contents()), s)
    {
      if status == s {
        return;
      }
      status := s;
      log := log + [StatusChanged(s)];
    }

    method SetIntervalMs(ms: int)
      modifies this`intervalMs, this`log
      ensures Contents() == WithInterval(old(Contents()), ms)
    {
      if intervalMs == ms {
        return;
      }
      intervalMs := ms;
      log := log + [IntervalMsChanged(ms)];
    }

    method ClearSnapshot()
      modifies this`snapshot, this`log
      ensures Contents() == WithoutSnapshot(old(Contents()))
    {
      if snapshot.Some? {
        snapshot := None;
        log := log + [SnapshotChanged];
      }
    }

    /** StateWatcher.cpp, lines 220-228: whatever was known of the publisher is forgotten. */
    method Forget()
      modifies this
      ensures Contents() == Forgotten(old(Contents()))
    {
      watchdog := Stopped;
      lastSeq := -1;
      skipped := 0;
      SetIntervalMs(0);
      ClearSnapshot();
    }

    method Fail(s: Status)
      modifies this
      ensures Contents() == Failed(old(Contents()), s)
    {
      Forget();
      SetStatus(s);
      if !retry {
        retry := true;
      }
    }

    method SetPath(p: string)
      modifies this
      ensures Contents() == PathSet(old(Contents()), p)
    {
      if path == p {
        return;
      }
      path := p;
      lastSeq := -1;
      skipped := 0;
      SetIntervalMs(0);
      log := log + [PathChanged];
      firstRead := true;
    }

    method SetCoalesceMs(ms: int)
      modifies this
      ensures Contents() == CoalesceSet(old(Contents()), ms)
    {
      if coalesceMs == ms {
        return;
      }
      coalesceMs := ms;
      skipped := 0;
      log := log + [CoalesceMsChanged];
    }

    method SetStaleAfterMs(ms: int, now: int)
      modifies this
      ensures Contents() == StaleAfterSet(old(Contents()), ms, now)
    {
      if staleAfterMs == ms {
        return;
      }
      staleAfterMs := ms;
      if watchdog.Armed? {
        watchdog := Armed(now, staleAfterMs);
      }
      log := log + [StaleAfterMsChanged];
    }

    /** StateWatcher.cpp, lines 206-215. */
    method Coalesce(d: Document, publishMs: int)
      requires publishMs == PublishMs(d)
      modifies this
      ensures var factor := Factor(old(coalesceMs), publishMs);
              Contents() == Coalesced(old(Contents()), d, factor, factor * publishMs)
    {
      var factor := Factor(coalesceMs, publishMs);
      if intervalMs > 0 {
        skipped := skipped + 1;
        if skipped < factor {
          return;
        }
      }
      skipped := 0;
      SetIntervalMs(factor * publishMs);
      snapshot := Some(d);
      log := log + [SnapshotChanged, Updated(d, factor * publishMs)];
    }

    /** StateWatcher.cpp, lines 189-196. */
    method Notice(d: Document, publishMs: int, now: int)
      requires publishMs == PublishMs(d)
      modifies this
      ensures Contents() == Noticed(old(Contents()), d, now)
    {
      lastSeq := d.serial;
      watchdog := Armed(now, Max(staleAfterMs, 3 * publishMs));
      retry := false;
      SetStatus(Ok);
    }

    method ReadFile(f: File, now: int)
      modifies this
      ensures Contents() == Read(old(Contents()), f, now)
    {
      if path == "" || f.Missing? {
        Fail(Unavailable);
        return;
      }
      if f.Malformed? || f.doc.v != 1 {
        Fail(Unavailable);
        return;
      }
      var publishMs := QuantizedPublishMs(f.doc.interval);
      if watchdog.Stopped? {
        var written := Truncate(f.doc.ts * 1000.0);
        if now - written > staleAfterMs {
          Fail(Stale);
          return;
        }
      }
      if f.doc.serial == lastSeq {
        return;
      }
      Notice(f.doc, publishMs, now);
      Coalesce(f.doc, publishMs);
    }
  }

  // ---------------------------------------------------------------------------------------------
  // Runs
  // ---------------------------------------------------------------------------------------------

  /** A wake-up from the file system may come at any time; timers only when they run. */
  datatype Action =
    | SetPath(path: string)
    | SetCoalesceMs(ms: int)
    | SetStaleAfterMs(ms: int)
    | Wake(file: File)
    | FirstRead(file: File)
    | Retry(file: File)
    | Expire

  datatype Event = Event(now: int, action: Action)

  function Step(s: State, e: Event): State {
    match e.action
    case SetPath(path) => PathSet(s, path)
    case SetCoalesceMs(ms) => CoalesceSet(s, ms)
    case SetStaleAfterMs(ms) => StaleAfterSet(s, ms, e.now)
    case Wake(f) => Read(s, f, e.now)
    case FirstRead(f) => if s.firstRead then Read(s.(firstRead := false), f, e.now) else s
    case Retry(f) => if s.retry then Read(s, f, e.now) else s
    case Expire => if s.watchdog.Armed? then Failed(s.(watchdog := Stopped), Stale) else s
  }

  function Run(s: State, events: seq<Event>): State {
    if events == [] then s else Step(Run(s, events[..|events| - 1]), events[|events| - 1])
  }

  predicate ReadsFile(a: Action) {
    a.Wake? || a.FirstRead? || a.Retry?
  }

  /** The event makes the watcher read the file. */
  predicate Looks(s: State, a: Action) {
    a.Wake? || (a.FirstRead? && s.firstRead) || (a.Retry? && s.retry)
  }

  /** Documents carry a sequence number of at least 1, as the daemon's do. */
  predicate Numbered(a: Action) {
    ReadsFile(a) && a.file.Holds? ==> a.file.doc.serial >= 1
  }

  // ---------------------------------------------------------------------------------------------
  // The methods field by field
  // ---------------------------------------------------------------------------------------------

  /** The document was written in millisecond ms, as the conversion of a double to an integer has it. */
  predicate WrittenAt(d: Document, ms: int) {
    if d.ts >= 0.0 then ms as real <= d.ts * 1000.0 < ms as real + 1.0
    else ms as real - 1.0 < d.ts * 1000.0 <= ms as real
  }

  lemma {:induction false} WrittenAtOnce(d: Document, ms: int)
    requires WrittenAt(d, ms)
    ensures Truncate(d.ts * 1000.0) == ms
  {
  }

  function When(b: bool, x: Signal): seq<Signal> {
    if b then [x] else []
  }

  /** From s to t whatever was known of the publisher is forgotten, under this status. */
  predicate Forgets(s: State, t: State, status: Status) {
    && t.status == status && t.snapshot == None && t.intervalMs == 0 && t.lastSeq == -1 && t.skipped == 0
    && t.watchdog == Stopped && t.retry && t.firstRead == s.firstRead
    && t.path == s.path && t.coalesceMs == s.coalesceMs && t.staleAfterMs == s.staleAfterMs
    && t.log == s.log + When(s.intervalMs != 0, IntervalMsChanged(0)) + When(s.snapshot.Some?, SnapshotChanged)
                  + When(s.status != status, StatusChanged(status))
  }

  lemma {:induction false} FailedForgets(s: State, status: Status)
    ensures Forgets(s, Failed(s, status), status)
  {
    var a, t := Forgotten(s), Failed(s, status);
    assert a.log == s.log + When(s.intervalMs != 0, IntervalMsChanged(0)) + When(s.snapshot.Some?, SnapshotChanged);
    assert t.log == a.log + When(s.status != status, StatusChanged(status));
  }

  /** No path, no file, no object or another version: unavailable. */
  lemma {:induction false} UnreadableIsUnavailable(s: State, f: File, now: int)
    requires s.path == "" || f == Missing || f == Malformed || (f.Holds? && f.doc.v != 1)
    ensures Forgets(s, Read(s, f, now), Unavailable)
  {
    FailedForgets(s, Unavailable);
  }

  /** The age of a document decides while the watchdog is stopped, and then by the millisecond. */
  lemma {:induction false} OldIsStale(s: State, d: Document, now: int, ms: int)
    requires s.path != "" && d.v == 1 && WrittenAt(d, ms) && s.watchdog == Stopped && now - ms > s.staleAfterMs
    ensures Forgets(s, Read(s, Holds(d), now), Stale)
  {
    WrittenAtOnce(d, ms);
    FailedForgets(s, Stale);
  }

  /** A document that is not too old, or that is read while the watchdog runs. */
  predicate Counts(s: State, d: Document, now: int, ms: int) {
    && s.path != "" && d.v == 1 && WrittenAt(d, ms)
    && (s.watchdog == Stopped ==> now - ms <= s.staleAfterMs)
  }

  /** Such a document, when it carries a new number, makes the status ok and opens a window of the stale
      window or three publishing intervals, whichever is longer. It is handed on at once if no interval is in
      force, and otherwise if it is its turn. */
  lemma {:induction false} FreshIsOk(s: State, d: Document, now: int, ms: int)
    requires Counts(s, d, now, ms) && d.serial != s.lastSeq
    ensures var t, p, f := Read(s, Holds(d), now), PublishMs(d), Factor(s.coalesceMs, PublishMs(d));
            var news := s.log + When(s.status != Ok, StatusChanged(Ok));
            && t.status == Ok && t.lastSeq == d.serial && !t.retry && t.firstRead == s.firstRead
            && t.watchdog == Armed(now, if s.staleAfterMs >= 3 * p then s.staleAfterMs else 3 * p)
            && t.path == s.path && t.coalesceMs == s.coalesceMs && t.staleAfterMs == s.staleAfterMs
            && (s.intervalMs > 0 && s.skipped + 1 < f ==>
                  && t.skipped == s.skipped + 1 && t.intervalMs == s.intervalMs && t.snapshot == s.snapshot
                  && t.log == news)
            && (s.intervalMs <= 0 || s.skipped + 1 >= f ==>
                  && t.skipped == 0 && t.intervalMs == f * p && t.snapshot == Some(d)
                  && t.log == news + When(s.intervalMs != f * p, IntervalMsChanged(f * p))
                                + [SnapshotChanged, Updated(d, f * p)])
  {
    WrittenAtOnce(d, ms);
  }

  /** One that carries the number seen last changes nothing. */
  lemma {:induction false} SeenIsNothing(s: State, d: Document, now: int, ms: int)
    requires Counts(s, d, now, ms) && d.serial == s.lastSeq
    ensures Read(s, Holds(d), now) == s
  {
    WrittenAtOnce(d, ms);
  }

  /** The watchdog's expiry is a failure by the name of stale. */
  lemma {:induction false} ExpiryForgets(s: State, now: int)
    requires s.watchdog.Armed?
    ensures Forgets(s, Step(s, Event(now, Expire)), Stale)
  {
    FailedForgets(s.(watchdog := Stopped), Stale);
  }

  /** A change of path forgets the number, the count and the interval, and asks for a first read; the watchdog,
      the status and the snapshot stay as they are. Setting what is set already does nothing. */
  lemma {:induction false} SettersChange(s: State, path: string, ms: int, now: int)
    ensures path != s.path ==>
              var t := Step(s, Event(now, SetPath(path)));
              && t.path == path && t.lastSeq == -1 && t.skipped == 0 && t.intervalMs == 0 && t.firstRead
              && t.watchdog == s.watchdog && t.status == s.status && t.snapshot == s.snapshot && t.retry == s.retry
              && t.coalesceMs == s.coalesceMs && t.staleAfterMs == s.staleAfterMs
              && t.log == s.log + When(s.intervalMs != 0, IntervalMsChanged(0)) + [PathChanged]
    ensures ms != s.coalesceMs ==>
              var t := Step(s, Event(now, SetCoalesceMs(ms)));
              t == s.(coalesceMs := ms, skipped := 0, log := s.log + [CoalesceMsChanged])
    ensures ms != s.staleAfterMs ==>
              var t := Step(s, Event(now, SetStaleAfterMs(ms)));
              && t.watchdog == (if s.watchdog == Stopped then Stopped else Armed(now, ms))
              && t == s.(staleAfterMs := ms, watchdog := t.watchdog, log := s.log + [StaleAfterMsChanged])
    ensures path == s.path ==> Step(s, Event(now, SetPath(path))) == s
    ensures ms == s.coalesceMs ==> Step(s, Event(now, SetCoalesceMs(ms))) == s
    ensures ms == s.staleAfterMs ==> Step(s, Event(now, SetStaleAfterMs(ms))) == s
  {
  }

  lemma {:induction false} TwoSteps(s: State, a: Event, b: Event)
    ensures Run(s, [a, b]) == Step(Step(s, a), b)
  {
    assert [a, b][..1] == [a] && [a][..0] == [];
    assert Run(s, [a]) == Step(s, a);
  }

  /** Starting up: the document that the first read finds is handed on at once if and only if it is no older
      than five seconds, the stale window nobody has set yet; an older one leaves the status at stale. */
  lemma {:induction false} StartsUp(path: string, d: Document, began: int, now: int, ms: int)
    requires path != "" && d.v == 1 && d.serial != -1 && WrittenAt(d, ms)
    ensures var t := Run(Initial, [Event(began, SetPath(path)), Event(now, FirstRead(Holds(d)))]);
            && t.status == (if now - ms <= 5000 then Ok else Stale)
            && t.snapshot == (if now - ms <= 5000 then Some(d) else None)
  {
    TwoSteps(Initial, Event(began, SetPath(path)), Event(now, FirstRead(Holds(d))));
    WrittenAtOnce(d, ms);
  }

  // ---------------------------------------------------------------------------------------------
  // Which states can be reached
  // ---------------------------------------------------------------------------------------------

  predicate Coherent(s: State) {
    && (s.status == Ok <==> s.watchdog.Armed?)
    && (s.snapshot.Some? ==> s.status == Ok)
    && (s.intervalMs != 0 ==> s.snapshot.Some?)
    && (s.lastSeq != -1 ==> s.status == Ok)
    && (s.intervalMs == 0 || (s.intervalMs > 0 && s.intervalMs % 100 == 0))
    && s.skipped >= 0
  }

  /** Something will make the watcher look again. */
  predicate Attended(s: State) {
    s.path != "" ==> s.firstRead || s.retry || s.watchdog.Armed?
  }

  lemma {:induction false} MultipleOfHundred(factor: int, x: real)
    requires factor >= 1
    ensures factor * QuantizedPublishMs(x) > 0 && (factor * QuantizedPublishMs(x)) % 100 == 0
  {
    var k := Max(1, Round(x * 10.0));
    assert factor * (k * 100) == (factor * k) * 100;
    assert factor * k >= 1;
  }

  lemma {:induction false} ReadKeepsCoherent(s: State, f: File, now: int)
    requires Coherent(s)
    ensures Coherent(Read(s, f, now))
  {
    if Unseen(s, f, now) {
      MultipleOfHundred(Factor(s.coalesceMs, PublishMs(f.doc)), f.doc.interval);
    }
  }

  lemma {:induction false} StepKeepsCoherent(s: State, e: Event)
    requires Coherent(s)
    ensures Coherent(Step(s, e))
  {
    match e.action {
      case Wake(f) => ReadKeepsCoherent(s, f, e.now);
      case FirstRead(f) => ReadKeepsCoherent(s.(firstRead := false), f, e.now);
      case Retry(f) => ReadKeepsCoherent(s, f, e.now);
      case _ =>
    }
  }

  /** In every reachable state the watchdog runs exactly while the status is ok, and a snapshot, an
      interval and a last sequence number are held only then. */
  lemma {:induction false} ReachableIsCoherent(events: seq<Event>)
    ensures Coherent(Run(Initial, events))
  {
    if events != [] {
      ReachableIsCoherent(events[..|events| - 1]);
      StepKeepsCoherent(Run(Initial, events[..|events| - 1]), events[|events| - 1]);
    }
  }

  /** A first read, with neither the watchdog nor the retry timer running, of a readable and fresh
      document numbered -1: it is taken for one already seen. */
  predicate Strands(s: State, e: Event) {
    && e.action.FirstRead? && s.firstRead && Readable(s, e.action.file)
    && !Leftover(s, e.action.file.doc, e.now) && e.action.file.doc.serial == -1
    && s.watchdog.Stopped? && !s.retry
  }

  lemma {:induction false} ReadAttends(s: State, f: File, now: int)
    requires Coherent(s) && s.path != ""
    ensures Read(s, f, now).retry || Read(s, f, now).watchdog.Armed?
       <==> !(Readable(s, f) && !Leftover(s, f.doc, now) && f.doc.serial == -1 && s.watchdog.Stopped? && !s.retry)
    ensures Read(s, f, now).path == s.path && Read(s, f, now).firstRead == s.firstRead
  {
  }

  /** Whatever the numbers of the documents, that is the one step after which no timer is left. */
  lemma {:induction false} StrandedExactly(s: State, e: Event)
    requires Coherent(s) && Attended(s)
    ensures !Attended(Step(s, e)) <==> Strands(s, e)
  {
    if s.path != "" {
      match e.action {
        case Wake(f) => ReadAttends(s, f, e.now);
        case FirstRead(f) => ReadAttends(s.(firstRead := false), f, e.now);
        case Retry(f) => ReadAttends(s, f, e.now);
        case _ =>
      }
    }
  }

  /** After every event of the run so far. */
  predicate AlwaysAttended(events: seq<Event>) {
    Attended(Run(Initial, events)) && (events != [] ==> AlwaysAttended(events[..|events| - 1]))
  }

  predicate NeverStrands(events: seq<Event>) {
    events != [] ==>
      var front := events[..|events| - 1];
      NeverStrands(front) && !Strands(Run(Initial, front), events[|events| - 1])
  }

  /** A run leaves the watcher attended all along if and only if it has no such step. */
  lemma {:induction false} StrandedRuns(events: seq<Event>)
    ensures AlwaysAttended(events) <==> NeverStrands(events)
  {
    if events != [] {
      var front := events[..|events| - 1];
      StrandedRuns(front);
      ReachableIsCoherent(front);
      if AlwaysAttended(front) {
        StrandedExactly(Run(Initial, front), events[|events| - 1]);
      }
    }
  }

  lemma {:induction false} NumberedNeverStrands(events: seq<Event>)
    requires forall i :: 0 <= i < |events| ==> Numbered(events[i].action)
    ensures NeverStrands(events)
  {
    if events != [] {
      NumberedNeverStrands(events[..|events| - 1]);
      assert Numbered(events[|events| - 1].action);
    }
  }

  /** With the daemon's numbers, then, once a path has been set some timer is always running. */
  lemma {:induction false} NeverStranded(events: seq<Event>)
    requires forall i :: 0 <= i < |events| ==> Numbered(events[i].action)
    ensures Attended(Run(Initial, events))
  {
    NumberedNeverStrands(events);
    StrandedRuns(events);
  }

  lemma {:induction false} StrandingHappens(d: Document)
    requires d.v == 1 && d.serial == -1
    ensures !Attended(Run(Initial, [Event(0, SetPath("state.json")), Event(0, FirstRead(Holds(d.(ts := 0.0))))]))
  {
    var a, b := Event(0, SetPath("state.json")), Event(0, FirstRead(Holds(d.(ts := 0.0))));
    assert [a, b][..1] == [a] && [a][..0] == [];
    assert Run(Initial, [a]) == Step(Initial, a);
    assert Run(Initial, [a, b]) == Step(Run(Initial, [a]), b);
    assert Truncate(0.0 * 1000.0) == 0;
  }

  /** Moving to another path keeps the watchdog: a leftover document there is reported stale by the
      first read exactly when the watcher was not ok. */
  lemma {:induction false} AgeCheckAfterPathChange(s: State, path: string, d: Document, now: int, ms: int)
    requires Coherent(s) && s.path != path && path != ""
    requires d.v == 1 && WrittenAt(d, ms) && now - ms > s.staleAfterMs
    ensures Step(PathSet(s, path), Event(now, FirstRead(Holds(d)))).status == Stale <==> s.status != Ok
  {
    WrittenAtOnce(d, ms);
  }

  /** From ok, a document a minute old at the new path is taken for a fresh one. */
  lemma {:induction false} OldDocumentAccepted(s: State, d: Document)
    requires Coherent(s) && s.status == Ok && s.path == "old.json" && s.staleAfterMs == 5000
    requires d.v == 1 && d.serial == 7 && d.ts == 0.0
    ensures var t := Step(PathSet(s, "new.json"), Event(60000, FirstRead(Holds(d))));
            t.status == Ok && t.snapshot == Some(d)
  {
    assert Truncate(0.0 * 1000.0) == 0;
  }
}
