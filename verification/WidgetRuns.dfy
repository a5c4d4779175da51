/** Whole runs of the widget, against the log of everything it was told. */
module WidgetRuns {
  import opened Basics
  import opened Sampling
  import opened Grouping
  import opened Aggregation
  import opened JsonWriter
  import opened History
  import opened Lingering
  import opened ListSync
  import opened Widget

  function Run(start: State, run: seq<Event>): State {
    if run == [] then start else Step(Run(start, run[..|run| - 1]), run[|run| - 1])
  }

  /** The snapshots since the windows were last reset, and since the lingering entries were. */
  datatype Log = Log(windows: seq<Tick>, activity: seq<Tick>)

  function Logged(log: Log, s: State, e: Event): Log {
    match e
    case Ingested(now, snapshot, length) =>
      var t := Tick(now, Kept(snapshot.apps, s.excluded), length);
      Log(log.windows + [t], log.activity + [t])
    case SpacingChanged => log.(windows := [])
    case DaemonLost => Log([], [])
    case LingerChanged(_) => log.(activity := [])
    case ExclusionChanged(_) => log.(activity := [])
  }

  function LogOf(start: State, run: seq<Event>): Log {
    if run == [] then Log([], [])
    else Logged(LogOf(start, run[..|run| - 1]), Run(start, run[..|run| - 1]), run[|run| - 1])
  }

  function LastNow(run: seq<Event>): Option<int> {
    if run == [] then None
    else if run[|run| - 1].Ingested? then Some(run[|run| - 1].now)
    else LastNow(run[..|run| - 1])
  }

  /** The clock does not run backwards between snapshots, and windows are never empty. */
  predicate InOrder(run: seq<Event>) {
    run != [] ==>
      var front, e := run[..|run| - 1], run[|run| - 1];
      && InOrder(front)
      && (e.Ingested? ==> e.length > 0 && (LastNow(front).Some? ==> LastNow(front).value <= e.now))
  }

  ghost predicate NothingHidden(s: State) {
    forall k :: k in s.lingering ==> !IsExcluded(s.excluded)(s.lingering[k].row)
  }

  ghost predicate Agrees(s: State, log: Log) {
    && Refines(s.history, log.windows)
    && Remembers(s.lingering, log.activity, LingerMs(s.lingerSeconds))
    && Keyed(s.lingering) && NothingHidden(s)
  }

  lemma {:induction false} HiddenNever(s: State, snapshot: Document, now: int, length: nat)
    requires NothingHidden(s) && Keyed(s.lingering)
    ensures NothingHidden(Step(s, Ingested(now, snapshot, length)))
    ensures Keyed(Step(s, Ingested(now, snapshot, length)).lingering)
  {
    var active := Kept(snapshot.apps, s.excluded);
    LingerKeyed(s.lingering, active, now, LingerMs(s.lingerSeconds));
    KeptMembers(snapshot.apps, s.excluded);
  }

  lemma {:induction false} StepAgrees(s: State, log: Log, e: Event)
    requires Agrees(s, log)
    requires e.Ingested? ==> e.length > 0 && (log.activity == [] || Clock(log.activity) <= e.now)
    ensures Agrees(Step(s, e), Logged(log, s, e))
  {
    if e.Ingested? {
      var t := Tick(e.now, Kept(e.snapshot.apps, s.excluded), e.length);
      AdvanceRefines(s.history, log.windows, t);
      LingerRemembers(s.lingering, log.activity, t, LingerMs(s.lingerSeconds));
      HiddenNever(s, e.snapshot, e.now, e.length);
    }
  }

  lemma {:induction false} StartAgrees(start: State)
    requires start.history == map[] && start.lingering == map[]
    ensures Agrees(start, Log([], []))
  {
  }

  lemma {:induction false} ClockFollows(start: State, run: seq<Event>)
    ensures LogOf(start, run).activity != [] ==> LastNow(run) == Some(Clock(LogOf(start, run).activity))
  {
    hide Step, Kept, Run;
    if run != [] {
      ClockFollows(start, run[..|run| - 1]);
    }
  }

  lemma {:induction false} InOrderLast(start: State, run: seq<Event>)
    requires InOrder(run) && run != []
    ensures var front, e := run[..|run| - 1], run[|run| - 1];
            var activity := LogOf(start, front).activity;
            && InOrder(front)
            && (e.Ingested? ==> e.length > 0 && (activity == [] || Clock(activity) <= e.now))
  {
    ClockFollows(start, run[..|run| - 1]);
  }

  /** Whatever the widget has been told, its windows and its lingering entries are those of the log. */
  lemma {:induction false} RunAgrees(start: State, run: seq<Event>)
    requires start.history == map[] && start.lingering == map[] && InOrder(run)
    ensures Agrees(Run(start, run), LogOf(start, run))
  {
    hide Agrees, Logged, Step, InOrder, Clock;
    if run == [] {
      StartAgrees(start);
    } else {
      var front, e := run[..|run| - 1], run[|run| - 1];
      InOrderLast(start, run);
      RunAgrees(start, front);
      StepAgrees(Run(start, front), LogOf(start, front), e);
    }
  }

  /** Windows are never empty. */
  predicate Roomy(run: seq<Event>) {
    run != [] ==>
      Roomy(run[..|run| - 1]) && (run[|run| - 1].Ingested? ==> run[|run| - 1].length > 0)
  }

  lemma {:induction false} RoomyNext(run: seq<Event>, e: Event)
    requires Roomy(run) && (e.Ingested? ==> e.length > 0)
    ensures Roomy(run + [e])
  {
    assert (run + [e])[..|run|] == run;
  }

  /** For the windows alone the clock does not matter, nor does what was lingering at the start. */
  lemma {:induction false} WindowsAgree(start: State, run: seq<Event>)
    requires start.history == map[] && Roomy(run)
    ensures Refines(Run(start, run).history, LogOf(start, run).windows)
  {
    if run != [] {
      var front, e := run[..|run| - 1], run[|run| - 1];
      WindowsAgree(start, front);
      if e.Ingested? {
        AdvanceRefines(Run(start, front).history, LogOf(start, front).windows,
                       Tick(e.now, Kept(e.snapshot.apps, Run(start, front).excluded), e.length));
      }
    }
  }

  /** The state in which a snapshot leaves the widget, and the log up to it. */
  ghost predicate After(start: State, run: seq<Event>, s: State, log: Log, active: seq<AppDoc>) {
    && start.history == map[] && start.lingering == map[] && InOrder(run)
    && run != [] && run[|run| - 1].Ingested? && DistinctApps(run[|run| - 1].snapshot.apps)
    && s == Run(start, run) && log == LogOf(start, run) && active == Kept(run[|run| - 1].snapshot.apps, s.excluded)
  }

  lemma {:induction false} LastTick(start: State, run: seq<Event>, s: State, log: Log, active: seq<AppDoc>)
    requires After(start, run, s, log, active)
    ensures log.activity != [] && log.windows != [] && DistinctApps(active) && Agrees(s, log)
    ensures log.activity[|log.activity| - 1] == log.windows[|log.windows| - 1]
         == Tick(run[|run| - 1].now, active, run[|run| - 1].length)
  {
    RunAgrees(start, run);
    KeptDistinct(run[|run| - 1].snapshot.apps, s.excluded);
  }

  /** The i-th row belongs to the i-th active application, or to one that is not active and last was
      within the grace period, as it was then and with rates of zero. */
  ghost predicate Recent(s: State, log: Log, active: seq<AppDoc>, row: Row, i: nat) {
    && !Hides(s.excluded, row.name, row.exe)
    && if i < |active| then row == RowFor(active[i], false, s.history)
       else
         && row.idle && row.rx == 0 && row.tx == 0 && row.key !in AppKeys(active)
         && WithinGrace(log.activity, row.key, LingerMs(s.lingerSeconds))
         && row == RowFor(LastActive(log.activity, row.key).value.row, true, s.history)
  }

  lemma {:induction false} RowIsRecent(
    s: State, log: Log, apps: seq<AppDoc>, active: seq<AppDoc>, rows: seq<Row>, topCount: nat, i: nat)
    requires Agrees(s, log) && active == Kept(apps, s.excluded)
    requires Lingering.Shows(rows, active, s.lingering, s.history, topCount) && i < |rows|
    ensures Recent(s, log, active, rows[i], i)
  {
    IdleNeverDisplaces(rows, active, s.lingering, s.history, topCount, i);
    if rows[i].idle {
      IdleIsResting(rows, active, s.lingering, s.history, topCount, i);
    } else {
      KeptMembers(apps, s.excluded);
      assert active[i] in active;
    }
  }

  /** Every row shown is that of an application that is active now, or of one that is not and last was
      within the grace period; none of them is excluded; and no key is shown twice. */
  lemma {:induction false} RowsAreRecent(
    start: State, run: seq<Event>, s: State, log: Log, active: seq<AppDoc>, rows: seq<Row>, topCount: nat)
    requires After(start, run, s, log, active) && Lingering.Shows(rows, active, s.lingering, s.history, topCount)
    ensures DistinctRows(rows)
    ensures forall i :: 0 <= i < |rows| ==> Recent(s, log, active, rows[i], i)
  {
    LastTick(start, run, s, log, active);
    ShownDistinct(rows, active, s.lingering, s.history, topCount);
    forall i | 0 <= i < |rows| ensures Recent(s, log, active, rows[i], i) {
      RowIsRecent(s, log, run[|run| - 1].snapshot.apps, active, rows, topCount, i);
    }
  }

  /** Conversely, an application within its grace period is shown unless the list is full; and then
      every idle row is that of an application active no less recently. */
  lemma {:induction false} RecentIsShown(
    start: State, run: seq<Event>, s: State, log: Log, active: seq<AppDoc>, rows: seq<Row>, topCount: nat, k: string)
    requires After(start, run, s, log, active) && Lingering.Shows(rows, active, s.lingering, s.history, topCount)
    requires WithinGrace(log.activity, k, LingerMs(s.lingerSeconds)) && k !in AppKeys(active)
    requires forall i :: 0 <= i < |rows| ==> rows[i].key != k
    ensures |rows| == topCount
    ensures forall i :: 0 <= i < |rows| && rows[i].idle && LastActive(log.activity, rows[i].key).Some? ==>
              LastActive(log.activity, rows[i].key).value.lastActive >= LastActive(log.activity, k).value.lastActive
  {
    LastTick(start, run, s, log, active);
    HiddenOnlyWhenFull(rows, active, s.lingering, s.history, topCount, k);
    forall i | 0 <= i < |rows| && rows[i].idle && LastActive(log.activity, rows[i].key).Some?
      ensures LastActive(log.activity, rows[i].key).value.lastActive >= LastActive(log.activity, k).value.lastActive
    {
      IdleIsResting(rows, active, s.lingering, s.history, topCount, i);
    }
  }

  /** What a row draws is the dense history of its application: all windows have the length now in
      force, and a window that has been dropped was nothing but zeros. */
  lemma {:induction false} SparksAreDense(
    start: State, run: seq<Event>, s: State, log: Log, active: seq<AppDoc>, app: AppDoc, idle: bool)
    requires After(start, run, s, log, active)
    ensures var d, spark := Dense(log.windows, app.key), RowFor(app, idle, s.history).spark;
            && |d| == run[|run| - 1].length
            && (spark == d || (spark == [] && Silent(d)))
    ensures app in active ==> RowFor(app, idle, s.history).spark == Dense(log.windows, app.key)
  {
    LastTick(start, run, s, log, active);
    SparseShowsDense(s.history, log.windows, app.key);
    if app in active {
      KeptMembers(run[|run| - 1].snapshot.apps, s.excluded);
      ActiveHasWindow(Run(start, run[..|run| - 1]), run[|run| - 1], app);
    }
  }

  lemma {:induction false} ActiveHasWindow(s: State, e: Event, app: AppDoc)
    requires e.Ingested? && app in e.snapshot.apps && !IsExcluded(s.excluded)(app)
    ensures app.key in Step(s, e).history
  {
    KeptMembers(e.snapshot.apps, s.excluded);
    assert app.key in AppKeys(Kept(e.snapshot.apps, s.excluded));
  }

  // ---------------------------------------------------------------------------------------------
  // The daemon's side of the bargain
  // ---------------------------------------------------------------------------------------------

  /** The widget relies on distinct keys, and the daemon publishes no key twice. */
  lemma {:induction false} PublishedKeysDistinct(doc: Document, s: Snapshot, rs: seq<Reading>, topCount: nat)
    requires PublishedFrom(s, rs, topCount) && Writes(doc, s)
    ensures DistinctApps(doc.apps)
  {
    PublishedDistinct(s.apps, TallyOf(rs).groups, topCount);
    forall i, j | 0 <= i < j < |doc.apps| ensures doc.apps[i].key != doc.apps[j].key {
      assert WrittenApp(doc.apps[i], s.apps[i]) && WrittenApp(doc.apps[j], s.apps[j]);
    }
  }

  /** Taking the excluded applications out of a published total leaves at least minus half a byte for
      each of their pids and half a byte for the total: that much at most is hidden by the clamp. */
  lemma {:induction false} ClampIsSmall(
    doc: Document, s: Snapshot, rs: seq<Reading>, topCount: nat, excluded: seq<string>, d: Direction)
    requires PublishedFrom(s, rs, topCount) && Writes(doc, s)
    ensures 2 * (ShownTotal(doc, excluded, d) - Remaining(doc, excluded, d))
         <= PickedPids(doc.apps, IsExcluded(excluded)) + 1
    ensures ShownTotal(doc, excluded, d) <= Total(doc, d)
  {
    PickedAgainstTotal(doc, s, rs, topCount, IsExcluded(excluded), d);
  }

  /** The total the widget shows is at least what its document's rows that are not excluded add up to, less
      half a byte for each listed pid and half a byte for the total; and no more than that above it when the
      daemon cut nothing. */
  lemma {:induction false} TotalMatchesRows(
    doc: Document, s: Snapshot, rs: seq<Reading>, topCount: nat, excluded: seq<string>, d: Direction)
    requires PublishedFrom(s, rs, topCount) && Writes(doc, s)
    ensures var rows := SumApps(Kept(doc.apps, excluded), d);
            && 2 * ShownTotal(doc, excluded, d) >= 2 * rows - (PidCount(doc.apps) + 1)
            && (|TallyOf(rs).groups| <= topCount ==>
                  2 * ShownTotal(doc, excluded, d) <= 2 * rows + PidCount(doc.apps) + 1)
  {
    hide PublishedFrom, Writes, Kept, SumApps, PidCount, TallyOf;
    RowsAgainstTotal(doc, s, rs, topCount, d);
    KeptOrPicked(doc.apps, excluded, d);
  }
}
