/** Timed runs of the watcher: freshness in both directions; and what a reader of its signals sees. */
module WatcherRuns {
  import opened Basics
  import opened JsonWriter
  import opened StateWatcher

  // ---------------------------------------------------------------------------------------------
  // Time
  // ---------------------------------------------------------------------------------------------

  /** An interval that is negative is over at once. */
  function Deadline(t: Timer): int
    requires t.Armed?
  {
    t.at + Max(0, t.window)
  }

  /** Time does not run backwards and the watchdog does not fire early. */
  predicate OnTime(s: State, e: Event, clock: int) {
    && clock <= e.now
    && (s.watchdog.Armed? && e.action.Expire? ==> Deadline(s.watchdog) <= e.now)
  }

  predicate Timely(s: State, events: seq<Event>, clock: int) {
    if events == [] then true
    else
      var front := events[..|events| - 1];
      Timely(s, front, clock) && OnTime(Run(s, front), events[|events| - 1], Clock(front, clock))
  }

  function Clock(events: seq<Event>, clock: int): int {
    if events == [] then clock else events[|events| - 1].now
  }

  /** An unseen publication is read. */
  predicate Hears(s: State, e: Event) {
    Looks(s, e.action) && Unseen(s, e.action.file, e.now)
  }

  /** The stale window is changed while the watchdog runs. */
  predicate Retunes(s: State, e: Event) {
    e.action.SetStaleAfterMs? && s.watchdog.Armed? && s.staleAfterMs != e.action.ms
  }

  predicate Refreshes(s: State, e: Event) {
    Hears(s, e) || Retunes(s, e)
  }

  /** The window that a refreshing event opens. */
  function Window(s: State, e: Event): int
    requires Refreshes(s, e)
  {
    if Hears(s, e) then Max(s.staleAfterMs, 3 * PublishMs(e.action.file.doc)) else e.action.ms
  }

  /** When the last refreshing event was, and the window it opened. */
  function LastRefresh(s: State, events: seq<Event>): Timer {
    if events == [] then s.watchdog
    else
      var front, e := events[..|events| - 1], events[|events| - 1];
      if Refreshes(Run(s, front), e) then Armed(e.now, Window(Run(s, front), e)) else LastRefresh(s, front)
  }

  lemma {:induction false} ReadWatchdog(s: State, f: File, now: int)
    ensures Read(s, f, now).watchdog
         == if Unseen(s, f, now) then Armed(now, Max(s.staleAfterMs, 3 * PublishMs(f.doc)))
            else if Readable(s, f) && !Leftover(s, f.doc, now) then s.watchdog
            else Stopped
  {
  }

  lemma {:induction false} StepWatchdog(s: State, e: Event)
    ensures Step(s, e).watchdog ==
      if Refreshes(s, e) then Armed(e.now, Window(s, e))
      else if Step(s, e).watchdog.Armed? then s.watchdog else Stopped
  {
    match e.action {
      case Wake(f) => ReadWatchdog(s, f, e.now);
      case FirstRead(f) => ReadWatchdog(s.(firstRead := false), f, e.now);
      case Retry(f) => ReadWatchdog(s, f, e.now);
      case _ =>
    }
  }

  lemma {:induction false} WatchdogIsLastRefresh(s: State, events: seq<Event>)
    requires Run(s, events).watchdog.Armed?
    ensures Run(s, events).watchdog == LastRefresh(s, events)
  {
    if events != [] {
      var front, e := events[..|events| - 1], events[|events| - 1];
      StepWatchdog(Run(s, front), e);
      if !Refreshes(Run(s, front), e) {
        WatchdogIsLastRefresh(s, front);
      }
    }
  }

  /** Nothing else is handled after the watchdog's deadline before it has fired. */
  predicate Prompt(s: State, events: seq<Event>) {
    if events == [] then true
    else
      var front, e := events[..|events| - 1], events[|events| - 1];
      && Prompt(s, front)
      && (Run(s, front).watchdog.Armed? && !e.action.Expire? ==> e.now <= Deadline(Run(s, front).watchdog))
  }

  lemma {:induction false} ClockWithinDeadline(s: State, events: seq<Event>, clock: int)
    requires Timely(s, events, clock) && Prompt(s, events) && s.watchdog.Stopped?
    ensures Run(s, events).watchdog.Armed? ==>
              Run(s, events).watchdog.at <= Clock(events, clock) <= Deadline(Run(s, events).watchdog)
  {
    if events != [] {
      var front, e := events[..|events| - 1], events[|events| - 1];
      StepWatchdog(Run(s, front), e);
      if !Refreshes(Run(s, front), e) {
        ClockWithinDeadline(s, front, clock);
      }
    }
  }

  /** While the status is ok, the last unseen publication or change of the stale window is no older
      than the window it opened. Reads of a publication already seen do not count. */
  lemma {:induction false} FreshWhileOk(events: seq<Event>, clock: int)
    requires Timely(Initial, events, clock) && Prompt(Initial, events)
    requires Run(Initial, events).status == Ok
    ensures LastRefresh(Initial, events).Armed?
    ensures LastRefresh(Initial, events).at <= Clock(events, clock) <= Deadline(LastRefresh(Initial, events))
  {
    ReachableIsCoherent(events);
    WatchdogIsLastRefresh(Initial, events);
    ClockWithinDeadline(Initial, events, clock);
  }

  /** The last unseen publication: when it was read, and the window it was promised. */
  function LastHeard(s: State, events: seq<Event>): Timer {
    if events == [] then s.watchdog
    else
      var front, e := events[..|events| - 1], events[|events| - 1];
      if Hears(Run(s, front), e) then Armed(e.now, Window(Run(s, front), e)) else LastHeard(s, front)
  }

  ghost predicate NeverRetuned(s: State, events: seq<Event>) {
    forall i :: 0 <= i < |events| ==> !Retunes(Run(s, events[..i]), events[i])
  }

  lemma {:induction false} HeardIsRefresh(s: State, events: seq<Event>)
    requires NeverRetuned(s, events)
    ensures LastHeard(s, events) == LastRefresh(s, events)
  {
    if events != [] {
      var front := events[..|events| - 1];
      forall i | 0 <= i < |front| ensures !Retunes(Run(s, front[..i]), front[i]) {
        assert front[..i] == events[..i];
        assert !Retunes(Run(s, events[..i]), events[i]);
      }
      HeardIsRefresh(s, front);
    }
  }

  /** When the watchdog calls the daemon stale, nothing new has been read for at least the larger of
      the stale window and three publishing intervals, provided the window was left alone. */
  lemma {:induction false} StaleMeansSilence(events: seq<Event>, n: nat, clock: int)
    requires Timely(Initial, events, clock) && n < |events| && events[n].action.Expire?
    requires NeverRetuned(Initial, events[..n])
    requires Run(Initial, events[..n]).watchdog.Armed?
    ensures LastHeard(Initial, events[..n]).Armed? && Deadline(LastHeard(Initial, events[..n])) <= events[n].now
  {
    TimelyAt(Initial, events, n, clock);
    WatchdogIsLastRefresh(Initial, events[..n]);
    HeardIsRefresh(Initial, events[..n]);
  }

  lemma {:induction false} TimelyAt(s: State, events: seq<Event>, n: nat, clock: int)
    requires Timely(s, events, clock) && n < |events|
    ensures OnTime(Run(s, events[..n]), events[n], Clock(events[..n], clock))
  {
    var front := events[..|events| - 1];
    if n < |front| {
      TimelyAt(s, front, n, clock);
      assert front[..n] == events[..n] && front[n] == events[n];
    } else {
      assert events[..n] == front;
    }
  }

  lemma {:induction false} TimeGoesOn(s: State, events: seq<Event>, i: nat, j: nat, clock: int)
    requires Timely(s, events, clock) && i <= j < |events|
    ensures events[i].now <= events[j].now
  {
    if i < j {
      TimeGoesOn(s, events, i, j - 1, clock);
      TimelyAt(s, events, j, clock);
      assert events[..j][j - 1] == events[j - 1];
    }
  }

  predicate Before(now: int, t: Timer) {
    t.Armed? && now < Deadline(t)
  }

  /** From event m on, each unseen publication or change of the stale window comes before the window
      opened by the one before it is over, and when the run ends the next one is not yet overdue. */
  ghost predicate Punctual(events: seq<Event>, m: nat) {
    && (forall j :: m <= j < |events| ==> RefreshedInTime(events, j))
    && (events != [] ==> Before(events[|events| - 1].now, LastRefresh(Initial, events)))
  }

  predicate RefreshedInTime(events: seq<Event>, j: nat)
    requires j < |events|
  {
    Refreshes(Run(Initial, events[..j]), events[j]) ==> Before(events[j].now, LastRefresh(Initial, events[..j]))
  }

  /** No path is taken away, and no read finds less than a document. */
  predicate Healthy(a: Action) {
    && (a.SetPath? ==> a.path != "")
    && (ReadsFile(a) ==> a.file.Holds? && a.file.doc.v == 1)
  }

  ghost predicate HealthyRun(events: seq<Event>, m: nat, clock: int) {
    && Timely(Initial, events, clock)
    && (forall i :: m <= i < |events| ==> Healthy(events[i].action))
    && Punctual(events, m)
  }

  predicate Reporting(s: State) {
    s.status == Ok && s.path != ""
  }

  /** The first refreshing event from n on, or the end of the events looked at. */
  lemma {:induction false} NextRefresh(events: seq<Event>, n: nat, k: nat) returns (j: nat)
    requires n <= k <= |events|
    ensures n <= j <= k && LastRefresh(Initial, events[..j]) == LastRefresh(Initial, events[..n])
    ensures j < k ==> Refreshes(Run(Initial, events[..j]), events[j])
  {
    j := k;
    if k > n {
      j := NextRefresh(events, n, k - 1);
      if j == k - 1 && !Refreshes(Run(Initial, events[..j]), events[j]) {
        assert events[..k][..k - 1] == events[..k - 1] && events[..k][k - 1] == events[k - 1];
        j := k;
      }
    }
  }

  lemma {:induction false} PunctualAt(events: seq<Event>, m: nat, j: nat, at: nat)
    requires Punctual(events, m) && m <= j <= |events| && events != []
    requires j < |events| ==> at == j && Refreshes(Run(Initial, events[..j]), events[j])
    requires j == |events| ==> at == j - 1
    ensures Before(events[at].now, LastRefresh(Initial, events[..j]))
  {
    assert events[..|events|] == events;
    assert j < |events| ==> RefreshedInTime(events, j);
  }

  /** No event of a punctual run comes after the window opened last. */
  lemma {:induction false} NeverOverdue(events: seq<Event>, m: nat, n: nat, clock: int)
    requires Timely(Initial, events, clock) && Punctual(events, m) && m <= n < |events|
    ensures Before(events[n].now, LastRefresh(Initial, events[..n]))
  {
    var j := NextRefresh(events, n, |events|);
    var at := if j < |events| then j else |events| - 1;
    PunctualAt(events, m, j, at);
    TimeGoesOn(Initial, events, n, at, clock);
  }

  lemma {:induction false} OverdueIfExpired(events: seq<Event>, n: nat, clock: int)
    requires Timely(Initial, events, clock) && n < |events|
    requires Run(Initial, events[..n]).watchdog.Armed?
    ensures events[n].action.Expire? ==> !Before(events[n].now, LastRefresh(Initial, events[..n]))
  {
    TimelyAt(Initial, events, n, clock);
    WatchdogIsLastRefresh(Initial, events[..n]);
  }

  lemma {:induction false} StaysOkStep(events: seq<Event>, m: nat, n: nat, clock: int)
    requires HealthyRun(events, m, clock) && m <= n < |events|
    requires Reporting(Run(Initial, events[..n]))
    ensures Reporting(Run(Initial, events[..n + 1]))
  {
    ReachableIsCoherent(events[..n]);
    NeverOverdue(events, m, n, clock);
    OverdueIfExpired(events, n, clock);
    assert events[..n + 1][..n] == events[..n] && events[..n + 1][n] == events[n];
    HealthyStep(Run(Initial, events[..n]), events[n]);
  }

  /** Once ok, a daemon whose unseen publications are read less than the larger of the stale window
      and three publishing intervals apart, with no failed read, is never called stale. A change of
      the stale window counts as the start of the new one, whatever it is. */
  lemma {:induction false} NoFalseAlarm(events: seq<Event>, m: nat, n: nat, clock: int)
    requires HealthyRun(events, m, clock) && m <= n <= |events|
    requires Reporting(Run(Initial, events[..m]))
    ensures Reporting(Run(Initial, events[..n]))
  {
    if n > m {
      NoFalseAlarm(events, m, n - 1, clock);
      StaysOkStep(events, m, n - 1, clock);
    }
  }

  lemma {:induction false} HealthyStep(s: State, e: Event)
    requires Coherent(s) && s.status == Ok && s.path != "" && Healthy(e.action) && !e.action.Expire?
    ensures Step(s, e).status == Ok && Step(s, e).path != ""
  {
  }

  /** A document already seen leaves everything as it is, the deadline above all. */
  lemma {:induction false} DuplicateChangesNothing(s: State, d: Document, now: int)
    requires s.path != "" && d.v == 1 && d.serial == s.lastSeq && s.watchdog.Armed?
    ensures Read(s, Holds(d), now) == s
  {
  }

  lemma {:induction false} RunLast(s: State, before: seq<Event>, after: seq<Event>)
    requires after != []
    ensures Run(s, before + after) == Step(Run(s, before + after[..|after| - 1]), after[|after| - 1])
  {
    assert (before + after)[..|before + after| - 1] == before + after[..|after| - 1];
  }

  lemma {:induction false} InvisibleStep(s: State, before: seq<Event>, e: Event, after: seq<Event>)
    requires Step(Run(s, before), e) == Run(s, before)
    ensures Run(s, before + [e] + after) == Run(s, before + after)
  {
    if after == [] {
      RunLast(s, before, [e]);
      assert before + [e] + after == before + [e] && before + [e][..0] == before && before + after == before;
    } else {
      RunLast(s, before + [e], after);
      RunLast(s, before, after);
      InvisibleStep(s, before, e, after[..|after| - 1]);
    }
  }

  /** A wake-up that finds the document already seen, wherever it falls in a run, changes nothing of what
      follows: no signal, no count, no deadline. */
  lemma {:induction false} DuplicateWakesAreInvisible(
    s: State, before: seq<Event>, d: Document, now: int, after: seq<Event>)
    requires var t := Run(s, before);
             t.path != "" && d.v == 1 && d.serial == t.lastSeq && t.watchdog.Armed?
    ensures Run(s, before + [Event(now, Wake(Holds(d)))] + after) == Run(s, before + after)
  {
    DuplicateChangesNothing(Run(s, before), d, now);
    InvisibleStep(s, before, Event(now, Wake(Holds(d))), after);
  }

  /** Changing the stale window re-arms without the floor of three publishing intervals that a read
      applies: what was promised at the read is kept exactly when the new window reaches as far. */
  lemma {:induction false} RetuningDropsFloor(s: State, d: Document, now: int, ms: int, later: int)
    requires Unseen(s, Holds(d), now) && ms != s.staleAfterMs && later >= now
    ensures var t := StaleAfterSet(Read(s, Holds(d), now), ms, later);
            t.watchdog.Armed?
            && (Deadline(t.watchdog) >= now + 3 * PublishMs(d) <==> later + Max(0, ms) >= now + 3 * PublishMs(d))
  {
  }

  lemma {:induction false} FourSteps(a: Event, b: Event, c: Event, d: Event)
    ensures Run(Initial, [a, b, c, d]) == Step(Step(Step(Step(Initial, a), b), c), d)
    ensures Timely(Initial, [a, b, c, d], 0)
       <==> OnTime(Initial, a, 0) && OnTime(Step(Initial, a), b, a.now)
            && OnTime(Step(Step(Initial, a), b), c, b.now)
            && OnTime(Step(Step(Step(Initial, a), b), c), d, c.now)
  {
    assert [a, b, c, d][..3] == [a, b, c] && [a, b, c][..2] == [a, b] && [a, b][..1] == [a] && [a][..0] == [];
    assert Run(Initial, [a]) == Step(Initial, a);
    assert Run(Initial, [a, b]) == Step(Run(Initial, [a]), b);
    assert Run(Initial, [a, b, c]) == Step(Run(Initial, [a, b]), c);
    assert Timely(Initial, [a], 0) <==> OnTime(Initial, a, 0);
    assert Timely(Initial, [a, b], 0) <==> Timely(Initial, [a], 0) && OnTime(Run(Initial, [a]), b, a.now);
    assert Timely(Initial, [a, b, c], 0) <==> Timely(Initial, [a, b], 0) && OnTime(Run(Initial, [a, b]), c, b.now);
  }

  /** A daemon that publishes every second is called stale 600 ms after it was last heard. */
  lemma {:induction false} PunctualYetStale(d: Document)
    requires d.v == 1 && d.serial == 1 && d.interval == 1.0 && d.ts == 0.0
    ensures var run := [Event(0, SetPath("state.json")), Event(0, FirstRead(Holds(d))),
                        Event(100, SetStaleAfterMs(500)), Event(600, Expire)];
            && Timely(Initial, run, 0) && Run(Initial, run).status == Stale
            && LastHeard(Initial, run[..2]) == Armed(0, 5000) && PublishMs(d) == 1000
  {
    var a, b := Event(0, SetPath("state.json")), Event(0, FirstRead(Holds(d)));
    FourSteps(a, b, Event(100, SetStaleAfterMs(500)), Event(600, Expire));
    QuantizedExactly(1.0, 10);
    assert Truncate(0.0 * 1000.0) == 0;
    assert [a, b, Event(100, SetStaleAfterMs(500)), Event(600, Expire)][..2] == [a, b] && [a, b][..1] == [a];
    assert [a][..0] == [];
    assert Run(Initial, [a]) == Step(Initial, a);
    assert Hears(Step(Initial, a), b);
  }

  // ---------------------------------------------------------------------------------------------
  // What the signals say about spacing
  // ---------------------------------------------------------------------------------------------

  /** A consumer that clears its windows whenever the interval or a status other than ok is
      signalled, and otherwise records the spacing of each snapshot: the widget's history. */
  function Recorded(log: seq<Signal>): seq<int> {
    if log == [] then []
    else
      var before, x := Recorded(log[..|log| - 1]), log[|log| - 1];
      match x
      case IntervalMsChanged(_) => []
      case StatusChanged(st) => if st == Ok then before else []
      case Updated(_, spacing) => before + [spacing]
      case _ => before
  }

  /** The interval last signalled. */
  function Signalled(log: seq<Signal>): int {
    if log == [] then 0
    else if log[|log| - 1].IntervalMsChanged? then log[|log| - 1].ms
    else Signalled(log[..|log| - 1])
  }

  /** The status last signalled. */
  function Announced(log: seq<Signal>): Status {
    if log == [] then Unavailable
    else if log[|log| - 1].StatusChanged? then log[|log| - 1].status
    else Announced(log[..|log| - 1])
  }

  /** The snapshot a consumer holds that takes what is handed on and lets go of it when the snapshot is
      signalled to have changed. */
  function Held(log: seq<Signal>): Option<Document> {
    if log == [] then None
    else
      match log[|log| - 1]
      case SnapshotChanged => None
      case Updated(d, _) => Some(d)
      case _ => Held(log[..|log| - 1])
  }

  predicate OneSpacing(spacings: seq<int>, interval: int) {
    forall i :: 0 <= i < |spacings| ==> spacings[i] == interval
  }

  /** At every moment, everything recorded was recorded at the interval last signalled. */
  predicate Unmixed(log: seq<Signal>) {
    log == [] || (Unmixed(log[..|log| - 1]) && OneSpacing(Recorded(log), Signalled(log)))
  }

  /** A signal that leaves the record unmixed after one that was. */
  predicate Fits(interval: int, x: Signal) {
    x.Updated? ==> x.spacing == interval
  }

  lemma {:induction false} UnmixedAppend(log: seq<Signal>, x: Signal)
    requires Unmixed(log) && Fits(Signalled(log), x)
    ensures Unmixed(log + [x])
    ensures Signalled(log + [x]) == if x.IntervalMsChanged? then x.ms else Signalled(log)
    ensures Announced(log + [x]) == if x.StatusChanged? then x.status else Announced(log)
    ensures Held(log + [x]) == if x.Updated? then Some(x.doc) else if x.SnapshotChanged? then None else Held(log)
  {
    assert (log + [x])[..|log|] == log;
    assert OneSpacing(Recorded(log), Signalled(log));
  }

  /** The log is unmixed, and interval, status and snapshot last signalled are the properties' values. */
  ghost predicate Faithful(s: State) {
    && Unmixed(s.log) && Signalled(s.log) == s.intervalMs
    && Announced(s.log) == s.status && Held(s.log) == s.snapshot
  }

  lemma {:induction false} IntervalFaithful(s: State, ms: int)
    requires Faithful(s)
    ensures Faithful(WithInterval(s, ms))
  {
    UnmixedAppend(s.log, IntervalMsChanged(ms));
  }

  lemma {:induction false} StatusFaithful(s: State, status: Status)
    requires Faithful(s)
    ensures Faithful(WithStatus(s, status))
  {
    UnmixedAppend(s.log, StatusChanged(status));
  }

  lemma {:induction false} ForgottenFaithful(s: State)
    requires Faithful(s)
    ensures Faithful(Forgotten(s))
  {
    var a := s.(watchdog := Stopped, lastSeq := -1, skipped := 0);
    IntervalFaithful(a, 0);
    UnmixedAppend(WithInterval(a, 0).log, SnapshotChanged);
  }

  lemma {:induction false} FailedFaithful(s: State, status: Status)
    requires Faithful(s)
    ensures Faithful(Failed(s, status))
  {
    ForgottenFaithful(s);
    StatusFaithful(Forgotten(s), status);
  }

  lemma {:induction false} CoalescedFaithful(s: State, d: Document, factor: int, spacing: int)
    requires Faithful(s)
    ensures Faithful(Coalesced(s, d, factor, spacing))
  {
    if !(s.intervalMs > 0 && s.skipped + 1 < factor) {
      var a := WithInterval(s.(skipped := 0), spacing);
      IntervalFaithful(s.(skipped := 0), spacing);
      UnmixedAppend(a.log, SnapshotChanged);
      UnmixedAppend(a.log + [SnapshotChanged], Updated(d, spacing));
      assert a.log + [SnapshotChanged] + [Updated(d, spacing)] == a.log + [SnapshotChanged, Updated(d, spacing)];
    }
  }

  lemma {:induction false} NoticedFaithful(s: State, d: Document, now: int)
    requires Faithful(s)
    ensures Faithful(Noticed(s, d, now))
  {
    var window := Max(s.staleAfterMs, 3 * PublishMs(d));
    StatusFaithful(s.(lastSeq := d.serial, watchdog := Armed(now, window), retry := false), Ok);
  }

  lemma {:induction false} UnseenFaithful(s: State, d: Document, now: int, factor: int, spacing: int)
    requires Faithful(s)
    ensures Faithful(Coalesced(Noticed(s, d, now), d, factor, spacing))
  {
    NoticedFaithful(s, d, now);
    CoalescedFaithful(Noticed(s, d, now), d, factor, spacing);
  }

  lemma {:induction false} ReadFaithful(s: State, f: File, now: int)
    requires Faithful(s)
    ensures Faithful(Read(s, f, now))
  {
    if !Readable(s, f) {
      FailedFaithful(s, Unavailable);
    } else if Leftover(s, f.doc, now) {
      FailedFaithful(s, Stale);
    } else if f.doc.serial != s.lastSeq {
      UnseenFaithful(s, f.doc, now, Factor(s.coalesceMs, PublishMs(f.doc)), Spacing(s, f.doc));
    }
  }

  lemma {:induction false} PathFaithful(s: State, path: string)
    requires Faithful(s)
    ensures Faithful(PathSet(s, path))
  {
    var a := WithInterval(s.(path := path, lastSeq := -1, skipped := 0), 0);
    IntervalFaithful(s.(path := path, lastSeq := -1, skipped := 0), 0);
    UnmixedAppend(a.log, PathChanged);
  }

  lemma {:induction false} SettingsFaithful(s: State, ms: int, now: int)
    requires Faithful(s)
    ensures Faithful(CoalesceSet(s, ms)) && Faithful(StaleAfterSet(s, ms, now))
  {
    UnmixedAppend(s.log, CoalesceMsChanged);
    UnmixedAppend(s.log, StaleAfterMsChanged);
  }

  lemma {:induction false} ExpiryFaithful(s: State)
    requires Faithful(s)
    ensures Faithful(Failed(s.(watchdog := Stopped), Stale))
  {
    FailedFaithful(s.(watchdog := Stopped), Stale);
  }

  lemma {:induction false} FirstReadFaithful(s: State, f: File, now: int)
    requires Faithful(s)
    ensures Faithful(Read(s.(firstRead := false), f, now))
  {
    ReadFaithful(s.(firstRead := false), f, now);
  }

  lemma {:induction false} StepFaithful(s: State, e: Event)
    requires Faithful(s)
    ensures Faithful(Step(s, e))
  {
    match e.action {
      case SetPath(p) => PathFaithful(s, p);
      case SetCoalesceMs(ms) => SettingsFaithful(s, ms, e.now);
      case SetStaleAfterMs(ms) => SettingsFaithful(s, ms, e.now);
      case Wake(f) => ReadFaithful(s, f, e.now);
      case FirstRead(f) => FirstReadFaithful(s, f, e.now);
      case Retry(f) => ReadFaithful(s, f, e.now);
      case Expire => ExpiryFaithful(s);
    }
  }

  /** Over every run, at no moment does a consumer's window hold samples of two spacings: a change of
      interval is signalled before the first snapshot taken at it. And whoever follows the signals knows
      interval, status and snapshot at any time. */
  lemma {:induction false} WindowsNeverMixSpacings(events: seq<Event>)
    ensures Faithful(Run(Initial, events))
  {
    if events != [] {
      WindowsNeverMixSpacings(events[..|events| - 1]);
      StepFaithful(Run(Initial, events[..|events| - 1]), events[|events| - 1]);
    }
  }

  // ---------------------------------------------------------------------------------------------
  // The spacing of every snapshot that is handed on
  // ---------------------------------------------------------------------------------------------

  /** The spacing a snapshot is handed on with is the one its publishing interval and the setting give. */
  predicate SpacedBy(coalesceMs: int, x: Signal) {
    x.Updated? ==> x.spacing == Factor(coalesceMs, PublishMs(x.doc)) * PublishMs(x.doc)
  }

  ghost predicate Adds(before: seq<Signal>, after: seq<Signal>, coalesceMs: int) {
    before <= after && forall j :: |before| <= j < |after| ==> SpacedBy(coalesceMs, after[j])
  }

  lemma {:induction false} AddsOne(before: seq<Signal>, after: seq<Signal>, coalesceMs: int, x: Signal)
    requires Adds(before, after, coalesceMs) && SpacedBy(coalesceMs, x)
    ensures Adds(before, after + [x], coalesceMs)
  {
  }

  lemma {:induction false} IntervalAdds(before: seq<Signal>, s: State, c: int, ms: int)
    requires Adds(before, s.log, c)
    ensures Adds(before, WithInterval(s, ms).log, c)
  {
    AddsOne(before, s.log, c, IntervalMsChanged(ms));
  }

  lemma {:induction false} StatusAdds(before: seq<Signal>, s: State, c: int, status: Status)
    requires Adds(before, s.log, c)
    ensures Adds(before, WithStatus(s, status).log, c)
  {
    AddsOne(before, s.log, c, StatusChanged(status));
  }

  lemma {:induction false} FailedAdds(s: State, c: int, status: Status)
    ensures Adds(s.log, Failed(s, status).log, c)
  {
    var a := s.(watchdog := Stopped, lastSeq := -1, skipped := 0);
    IntervalAdds(s.log, a, c, 0);
    AddsOne(s.log, WithInterval(a, 0).log, c, SnapshotChanged);
    StatusAdds(s.log, Forgotten(s), c, status);
  }

  lemma {:induction false} AcceptedAdds(before: seq<Signal>, s: State, c: int, d: Document, factor: int, spacing: int)
    requires Adds(before, s.log, c) && SpacedBy(c, Updated(d, spacing))
    ensures Adds(before, Coalesced(s, d, factor, spacing).log, c)
  {
    var a := WithInterval(s.(skipped := 0), spacing);
    IntervalAdds(before, s.(skipped := 0), c, spacing);
    AddsOne(before, a.log, c, SnapshotChanged);
    AddsOne(before, a.log + [SnapshotChanged], c, Updated(d, spacing));
    assert a.log + [SnapshotChanged] + [Updated(d, spacing)] == a.log + [SnapshotChanged, Updated(d, spacing)];
  }

  lemma {:induction false} UnseenAdds(s: State, d: Document, now: int, factor: int, spacing: int)
    requires SpacedBy(s.coalesceMs, Updated(d, spacing))
    ensures Adds(s.log, Coalesced(Noticed(s, d, now), d, factor, spacing).log, s.coalesceMs)
  {
    var window := Max(s.staleAfterMs, 3 * PublishMs(d));
    var a := s.(lastSeq := d.serial, watchdog := Armed(now, window), retry := false);
    StatusAdds(s.log, a, s.coalesceMs, Ok);
    AcceptedAdds(s.log, Noticed(s, d, now), s.coalesceMs, d, factor, spacing);
  }

  lemma {:induction false} ReadAdds(s: State, f: File, now: int)
    ensures Adds(s.log, Read(s, f, now).log, s.coalesceMs)
  {
    if !Readable(s, f) {
      FailedAdds(s, s.coalesceMs, Unavailable);
    } else if Leftover(s, f.doc, now) {
      FailedAdds(s, s.coalesceMs, Stale);
    } else if f.doc.serial != s.lastSeq {
      UnseenAdds(s, f.doc, now, Factor(s.coalesceMs, PublishMs(f.doc)), Spacing(s, f.doc));
    }
  }

  lemma {:induction false} PathAdds(s: State, path: string)
    ensures Adds(s.log, PathSet(s, path).log, s.coalesceMs)
  {
    var a := s.(path := path, lastSeq := -1, skipped := 0);
    IntervalAdds(s.log, a, s.coalesceMs, 0);
    AddsOne(s.log, WithInterval(a, 0).log, s.coalesceMs, PathChanged);
  }

  lemma {:induction false} SettingsAdd(s: State, ms: int, now: int)
    ensures Adds(s.log, CoalesceSet(s, ms).log, s.coalesceMs)
    ensures Adds(s.log, StaleAfterSet(s, ms, now).log, s.coalesceMs)
  {
    AddsOne(s.log, s.log, s.coalesceMs, CoalesceMsChanged);
    AddsOne(s.log, s.log, s.coalesceMs, StaleAfterMsChanged);
  }

  lemma {:induction false} StepAdds(s: State, e: Event)
    ensures Adds(s.log, Step(s, e).log, s.coalesceMs)
  {
    match e.action {
      case SetPath(p) => PathAdds(s, p);
      case SetCoalesceMs(ms) => SettingsAdd(s, ms, e.now);
      case SetStaleAfterMs(ms) => SettingsAdd(s, ms, e.now);
      case Wake(f) => ReadAdds(s, f, e.now);
      case FirstRead(f) => ReadAdds(s.(firstRead := false), f, e.now);
      case Retry(f) => ReadAdds(s, f, e.now);
      case Expire => FailedAdds(s.(watchdog := Stopped), s.coalesceMs, Stale);
    }
  }

  /** Signal number j was emitted by event number n. */
  predicate EmittedBy(events: seq<Event>, n: int, j: int) {
    0 <= n < |events| && |Run(Initial, events[..n]).log| <= j < |Run(Initial, events[..n + 1]).log|
  }

  lemma {:induction false} EmittedByFront(events: seq<Event>, n: int, j: int)
    requires events != [] && EmittedBy(events[..|events| - 1], n, j)
    ensures EmittedBy(events, n, j) && n < |events| - 1 && events[..|events| - 1][..n] == events[..n]
  {
    var front := events[..|events| - 1];
    assert front[..n] == events[..n] && front[..n + 1] == events[..n + 1];
  }

  lemma {:induction false} EmittedSpaced(events: seq<Event>, j: nat) returns (n: nat)
    requires j < |Run(Initial, events).log|
    ensures EmittedBy(events, n, j)
    ensures SpacedBy(Run(Initial, events[..n]).coalesceMs, Run(Initial, events).log[j])
  {
    var last := |events| - 1;
    var front := events[..last];
    StepAdds(Run(Initial, front), events[last]);
    if j < |Run(Initial, front).log| {
      n := EmittedSpaced(front, j);
      EmittedByFront(events, n, j);
    } else {
      n := last;
      assert events[..last + 1] == events;
    }
  }

  /** A spacing is a positive multiple of the publishing interval, which is itself one of 100 ms, and
      within half of that interval of the setting, or the interval itself under a smaller setting. */
  predicate Approximates(spacing: int, coalesceMs: int, publishMs: int) {
    && publishMs >= 100 && publishMs % 100 == 0 && spacing >= publishMs
    && (2 * coalesceMs >= publishMs ==> -publishMs <= 2 * (spacing - coalesceMs) <= publishMs)
    && (2 * coalesceMs < publishMs ==> spacing == publishMs)
  }

  lemma {:induction false} SpacedApproximates(coalesceMs: int, x: Signal)
    requires SpacedBy(coalesceMs, x) && x.Updated?
    ensures Approximates(x.spacing, coalesceMs, PublishMs(x.doc))
  {
    PublishIsPositive(x.doc.interval);
    SpacingApproximatesSetting(coalesceMs, PublishMs(x.doc));
    AtLeastOnce(Factor(coalesceMs, PublishMs(x.doc)), PublishMs(x.doc));
  }

  /** Over every run, each snapshot is handed on at the spacing that its own publishing interval and the
      setting in force at that event give. */
  lemma {:induction false} SpacingFollowsSetting(events: seq<Event>, j: nat)
    requires j < |Run(Initial, events).log| && Run(Initial, events).log[j].Updated?
    ensures exists n ::
              && EmittedBy(events, n, j)
              && var x, c := Run(Initial, events).log[j], Run(Initial, events[..n]).coalesceMs;
                 SpacedBy(c, x) && Approximates(x.spacing, c, PublishMs(x.doc))
  {
    var n := EmittedSpaced(events, j);
    SpacedApproximates(Run(Initial, events[..n]).coalesceMs, Run(Initial, events).log[j]);
  }
}
