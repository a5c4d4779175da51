/** The grace period: which quiet applications keep a row, and which rows are shown. */
module Lingering {
  import opened Basics
  import opened JsonWriter
  import opened History
  import opened ListSync
  import opened Sorting

  /** An entry of the lingering map. */
  datatype Resting = Resting(row: AppDoc, lastActive: int)

  ghost predicate Keyed(lingering: map<string, Resting>) {
    forall k :: k in lingering ==> lingering[k].row.key == k
  }

  /** The last application with a key in a list. */
  function AppOf(active: seq<AppDoc>, k: string): (a: AppDoc)
    requires k in AppKeys(active)
    ensures a in active && a.key == k
  {
    var last := active[|active| - 1];
    if last.key == k then last
    else
      assert active == active[..|active| - 1] + [last];
      AppOf(active[..|active| - 1], k)
  }

  function Activate(lingering: map<string, Resting>, active: seq<AppDoc>, now: int): map<string, Resting> {
    map k | k in lingering.Keys + AppKeys(active) ::
      if k in AppKeys(active) then Resting(AppOf(active, k), now) else lingering[k]
  }

  predicate Lasts(entry: Resting, now: int, lingerMs: int) {
    now - entry.lastActive <= lingerMs
  }

  /** While the keys in todo have not been looked at. */
  function Expire(
    lingering: map<string, Resting>, active: set<string>, todo: set<string>, now: int,
    lingerMs: int): map<string, Resting>
  {
    map k | k in lingering && (k in active || k in todo || Lasts(lingering[k], now, lingerMs)) :: lingering[k]
  }

  /** The lingering map after a snapshot. */
  function Linger(lingering: map<string, Resting>, active: seq<AppDoc>, now: int, lingerMs: int): map<string, Resting> {
    Expire(Activate(lingering, active, now), AppKeys(active), {}, now, lingerMs)
  }

  lemma {:induction false} AppOfLast(active: seq<AppDoc>, a: AppDoc, k: string)
    requires k in AppKeys(active) || k == a.key
    ensures k in AppKeys(active + [a])
    ensures AppOf(active + [a], k) == if k == a.key then a else AppOf(active, k)
  {
    KeysAppend(active, a);
    assert (active + [a])[..|active|] == active;
  }

  lemma {:induction false} ActivateOne(lingering: map<string, Resting>, active: seq<AppDoc>, a: AppDoc, now: int)
    ensures Activate(lingering, active + [a], now) == Activate(lingering, active, now)[a.key := Resting(a, now)]
  {
    var got, was := Activate(lingering, active + [a], now), Activate(lingering, active, now);
    KeysAppend(active, a);
    forall k ensures k in got <==> k in was[a.key := Resting(a, now)]
             ensures k in got ==> got[k] == was[a.key := Resting(a, now)][k]
    {
      if k in AppKeys(active) || k == a.key {
        AppOfLast(active, a, k);
      }
    }
    SameMap(got, was[a.key := Resting(a, now)]);
  }

  lemma {:induction false} LingerKeyed(lingering: map<string, Resting>, active: seq<AppDoc>, now: int, lingerMs: int)
    requires Keyed(lingering)
    ensures Keyed(Activate(lingering, active, now)) && Keyed(Linger(lingering, active, now, lingerMs))
  {
  }

  // ---------------------------------------------------------------------------------------------
  // The activity log
  // ---------------------------------------------------------------------------------------------

  /** When an application was last active, and how it read then. */
  function LastActive(run: seq<Tick>, k: string): Option<Resting> {
    if run == [] then None
    else
      var t := run[|run| - 1];
      if k in AppKeys(t.active) then Some(Resting(AppOf(t.active, k), t.now)) else LastActive(run[..|run| - 1], k)
  }

  function Clock(run: seq<Tick>): int {
    if run == [] then 0 else run[|run| - 1].now
  }

  /** The keys that were last active within the grace period. */
  ghost predicate WithinGrace(run: seq<Tick>, k: string, lingerMs: int) {
    LastActive(run, k).Some? && Clock(run) - LastActive(run, k).value.lastActive <= lingerMs
  }

  ghost predicate Remembers(lingering: map<string, Resting>, run: seq<Tick>, lingerMs: int) {
    && (forall k :: k in lingering <==> WithinGrace(run, k, lingerMs))
    && (forall k :: k in lingering ==> LastActive(run, k) == Some(lingering[k]))
  }

  lemma {:induction false} LingerKey(lingering: map<string, Resting>, run: seq<Tick>, t: Tick, lingerMs: int, k: string)
    requires Remembers(lingering, run, lingerMs) && lingerMs >= 0 && (run == [] || Clock(run) <= t.now)
    ensures var l := Linger(lingering, t.active, t.now, lingerMs);
            && (k in l <==> WithinGrace(run + [t], k, lingerMs))
            && (k in l ==> LastActive(run + [t], k) == Some(l[k]))
  {
    assert (run + [t])[..|run|] == run;
    if k !in AppKeys(t.active) {
      assert LastActive(run + [t], k) == LastActive(run, k);
    } else {
      assert LastActive(run + [t], k) == Some(Resting(AppOf(t.active, k), t.now));
    }
  }

  /** Under a clock that does not run backwards the map keeps agreeing with the log: it holds exactly
      the applications whose last activity is within the grace period, as they were then. */
  lemma {:induction false} LingerRemembers(lingering: map<string, Resting>, run: seq<Tick>, t: Tick, lingerMs: int)
    requires Remembers(lingering, run, lingerMs) && lingerMs >= 0 && (run == [] || Clock(run) <= t.now)
    ensures Remembers(Linger(lingering, t.active, t.now, lingerMs), run + [t], lingerMs)
  {
    var l := Linger(lingering, t.active, t.now, lingerMs);
    forall k ensures k in l <==> WithinGrace(run + [t], k, lingerMs)
             ensures k in l ==> LastActive(run + [t], k) == Some(l[k])
    {
      LingerKey(lingering, run, t, lingerMs, k);
    }
  }

  // ---------------------------------------------------------------------------------------------
  // The rows
  // ---------------------------------------------------------------------------------------------

  function OrEmpty(s: Option<string>): string {
    if s.Some? then s.value else ""
  }

  function RowFor(app: AppDoc, idle: bool, history: map<string, seq<nat>>): Row {
    Row(app.key, app.name, OrEmpty(app.icon), OrEmpty(app.exe), OrEmpty(app.desktopId),
        if idle then 0 else app.rx, if idle then 0 else app.tx, idle, app.pids,
        if app.key in history then history[app.key] else [])
  }

  function ActiveRows(active: seq<AppDoc>, history: map<string, seq<nat>>): (rows: seq<Row>)
    ensures |rows| == |active|
    ensures forall i :: 0 <= i < |active| ==> rows[i] == RowFor(active[i], false, history)
  {
    seq(|active|, i requires 0 <= i < |active| => RowFor(active[i], false, history))
  }

  function IdleRows(idle: seq<Resting>, history: map<string, seq<nat>>): (rows: seq<Row>)
    ensures |rows| == |idle|
    ensures forall i :: 0 <= i < |idle| ==> rows[i] == RowFor(idle[i].row, true, history)
  {
    seq(|idle|, i requires 0 <= i < |idle| => RowFor(idle[i].row, true, history))
  }

  /** Array.slice(0, n). */
  function Take(rows: seq<Row>, n: nat): seq<Row> {
    if |rows| <= n then rows else rows[..n]
  }

  function Recency(): Resting -> real {
    (r: Resting) => r.lastActive as real
  }

  /** A list of the inactive entries of the map, each once. */
  ghost predicate ListsIdle(idle: seq<Resting>, lingering: map<string, Resting>, active: set<string>) {
    && (forall x :: x in idle ==> x.row.key in lingering && x.row.key !in active && x == lingering[x.row.key])
    && (forall k :: k in lingering && k !in active ==> lingering[k] in idle)
    && (forall i, j :: 0 <= i < j < |idle| ==> idle[i].row.key != idle[j].row.key)
  }

  ghost predicate RecentFirst(idle: seq<Resting>) {
    forall i, j :: 0 <= i < j < |idle| ==> idle[i].lastActive >= idle[j].lastActive
  }

  ghost predicate ShowsWith(
    rows: seq<Row>, idle: seq<Resting>, active: seq<AppDoc>, lingering: map<string, Resting>,
    history: map<string, seq<nat>>, topCount: nat)
  {
    && ListsIdle(idle, lingering, AppKeys(active)) && RecentFirst(idle)
    && rows == Take(ActiveRows(active, history) + IdleRows(idle, history), topCount)
  }

  /** The rows of a snapshot: the active applications in their order, then the lingering ones, most
      recently active first; as many as there is room for. */
  ghost predicate Shows(
    rows: seq<Row>, active: seq<AppDoc>, lingering: map<string, Resting>, history: map<string, seq<nat>>, topCount: nat)
  {
    exists idle: seq<Resting> :: ShowsWith(rows, idle, active, lingering, history, topCount)
  }

  lemma {:induction false} SortKeepsMembers(idle: seq<Resting>, sorted: seq<Resting>)
    requires multiset(idle) == multiset(sorted)
    ensures forall x :: x in idle <==> x in sorted
  {
    forall x ensures x in idle <==> x in sorted {
      assert x in idle <==> x in multiset(idle);
      assert x in sorted <==> x in multiset(sorted);
    }
  }

  lemma {:induction false} OnceCounts(s: seq<Resting>, x: Resting)
    requires forall i, j :: 0 <= i < j < |s| ==> s[i].row.key != s[j].row.key
    ensures multiset(s)[x] <= 1
  {
    if s != [] {
      var n := |s| - 1;
      OnceCounts(s[..n], x);
      assert s == s[..n] + [s[n]];
      assert s[n] !in s[..n];
      assert multiset(s[..n])[s[n]] == 0;
    }
  }

  lemma {:induction false} OnceEach(idle: seq<Resting>, sorted: seq<Resting>, i: nat, j: nat)
    requires multiset(idle) == multiset(sorted) && i < j < |sorted|
    requires forall i, j :: 0 <= i < j < |idle| ==> idle[i].row.key != idle[j].row.key
    ensures sorted[i] != sorted[j]
  {
    TwiceCounts(sorted, i, j);
    OnceCounts(idle, sorted[i]);
  }

  lemma {:induction false} SortedIdle(idle: seq<Resting>, lingering: map<string, Resting>, active: set<string>)
    requires ListsIdle(idle, lingering, active)
    ensures ListsIdle(SortDescending(idle, Recency()), lingering, active)
    ensures RecentFirst(SortDescending(idle, Recency()))
  {
    var sorted := SortDescending(idle, Recency());
    SortKeepsMembers(idle, sorted);
    forall i, j | 0 <= i < j < |sorted| ensures sorted[i].row.key != sorted[j].row.key {
      OnceEach(idle, sorted, i, j);
      assert sorted[i] in sorted && sorted[j] in sorted;
    }
    forall i, j | 0 <= i < j < |sorted| ensures sorted[i].lastActive >= sorted[j].lastActive {
      assert Recency()(sorted[i]) >= Recency()(sorted[j]);
    }
  }

  // ---------------------------------------------------------------------------------------------
  // What the rows promise
  // ---------------------------------------------------------------------------------------------

  lemma {:induction false} ShownDistinct(
    rows: seq<Row>, active: seq<AppDoc>, lingering: map<string, Resting>, history: map<string, seq<nat>>, topCount: nat)
    requires Shows(rows, active, lingering, history, topCount) && DistinctApps(active)
    ensures DistinctRows(rows)
  {
    var idle: seq<Resting> :| ShowsWith(rows, idle, active, lingering, history, topCount);
    forall i, j | 0 <= i < j < |rows| ensures rows[i].key != rows[j].key {
      var n := |active|;
      if i < n <= j {
        assert active[i] in active && idle[j - n] in idle;
      }
    }
  }

  /** The rows that ingest puts together. */
  lemma {:induction false} SortedIsShown(
    idle: seq<Resting>, active: seq<AppDoc>, lingering: map<string, Resting>, history: map<string, seq<nat>>,
    topCount: nat)
    requires DistinctApps(active) && ListsIdle(idle, lingering, AppKeys(active))
    ensures var sorted := SortDescending(idle, Recency());
            var rows := Take(ActiveRows(active, history) + IdleRows(sorted, history), topCount);
            Shows(rows, active, lingering, history, topCount) && DistinctRows(rows)
  {
    var sorted := SortDescending(idle, Recency());
    var rows := Take(ActiveRows(active, history) + IdleRows(sorted, history), topCount);
    SortedIdle(idle, lingering, AppKeys(active));
    assert ShowsWith(rows, sorted, active, lingering, history, topCount);
    ShownDistinct(rows, active, lingering, history, topCount);
  }

  /** A lingering row never displaces an active one: if any is shown, every active application is. */
  lemma {:induction false} IdleNeverDisplaces(
    rows: seq<Row>, active: seq<AppDoc>, lingering: map<string, Resting>, history: map<string, seq<nat>>,
    topCount: nat, i: nat)
    requires Shows(rows, active, lingering, history, topCount) && i < |rows|
    ensures rows[i].idle <==> |active| <= i
    ensures rows[i].idle ==> rows[i].rx == 0 && rows[i].tx == 0 && rows[..|active|] == ActiveRows(active, history)
    ensures !rows[i].idle ==> rows[i] == RowFor(active[i], false, history)
  {
    var idle: seq<Resting> :| ShowsWith(rows, idle, active, lingering, history, topCount);
  }

  /** A field that may be null is shown as text: null as the empty one. */
  ghost predicate ShownText(shown: string, field: Option<string>) {
    if field.Some? then shown == field.value else shown == ""
  }

  /** What a row shows of an application: everything as it is in the document, but for the rates of an idle
      one, which read zero. */
  ghost predicate ShowsApp(row: Row, app: AppDoc, idle: bool) {
    && row.key == app.key && row.name == app.name && row.pids == app.pids && row.idle == idle
    && ShownText(row.icon, app.icon) && ShownText(row.exe, app.exe) && ShownText(row.desktopId, app.desktopId)
    && (idle ==> row.rx == 0 && row.tx == 0)
    && (!idle ==> row.rx == app.rx && row.tx == app.tx)
  }

  lemma {:induction false} RowShows(app: AppDoc, idle: bool, history: map<string, seq<nat>>)
    ensures ShowsApp(RowFor(app, idle, history), app, idle)
    ensures app.key in history ==> RowFor(app, idle, history).spark == history[app.key]
    ensures app.key !in history ==> RowFor(app, idle, history).spark == []
  {
  }

  lemma {:induction false} IdleAt(
    rows: seq<Row>, idle: seq<Resting>, active: seq<AppDoc>, lingering: map<string, Resting>,
    history: map<string, seq<nat>>, topCount: nat, i: nat)
    requires ShowsWith(rows, idle, active, lingering, history, topCount) && i < |rows| && rows[i].idle
    ensures |active| <= i < |active| + |idle| && rows[i] == RowFor(idle[i - |active|].row, true, history)
    ensures rows[i].key in lingering && rows[i].key !in AppKeys(active)
    ensures lingering[rows[i].key] == idle[i - |active|]
  {
    assert |active| <= i;
    assert idle[i - |active|] in idle;
  }

  /** An idle row is that of a lingering application that is not active. */
  lemma {:induction false} IdleIsResting(
    rows: seq<Row>, active: seq<AppDoc>, lingering: map<string, Resting>, history: map<string, seq<nat>>,
    topCount: nat, i: nat)
    requires Shows(rows, active, lingering, history, topCount) && i < |rows| && rows[i].idle
    ensures rows[i].key in lingering && rows[i].key !in AppKeys(active)
    ensures rows[i] == RowFor(lingering[rows[i].key].row, true, history)
    ensures forall j :: i < j < |rows| && rows[j].key in lingering ==>
              lingering[rows[i].key].lastActive >= lingering[rows[j].key].lastActive
  {
    var idle: seq<Resting> :| ShowsWith(rows, idle, active, lingering, history, topCount);
    IdleAt(rows, idle, active, lingering, history, topCount, i);
    forall j | i < j < |rows| && rows[j].key in lingering
      ensures lingering[rows[i].key].lastActive >= lingering[rows[j].key].lastActive
    {
      assert rows[j].idle;
      IdleAt(rows, idle, active, lingering, history, topCount, j);
    }
  }

  lemma {:induction false} RowOfIdle(
    rows: seq<Row>, idle: seq<Resting>, active: seq<AppDoc>, lingering: map<string, Resting>,
    history: map<string, seq<nat>>, topCount: nat, m: nat)
    requires ShowsWith(rows, idle, active, lingering, history, topCount) && m < |idle|
    ensures |rows| == Min(topCount, |active| + |idle|)
    ensures |active| + m < |rows| ==> rows[|active| + m].key == idle[m].row.key
  {
  }

  /** A lingering application goes without a row only if the list is full, and then no application
      shown as idle was active less recently. */
  lemma {:induction false} HiddenOnlyWhenFull(
    rows: seq<Row>, active: seq<AppDoc>, lingering: map<string, Resting>, history: map<string, seq<nat>>,
    topCount: nat, k: string)
    requires Shows(rows, active, lingering, history, topCount) && Keyed(lingering)
    requires k in lingering && k !in AppKeys(active) && forall i :: 0 <= i < |rows| ==> rows[i].key != k
    ensures |rows| == topCount
    ensures forall i :: 0 <= i < |rows| && rows[i].idle && rows[i].key in lingering ==>
              lingering[rows[i].key].lastActive >= lingering[k].lastActive
  {
    var idle: seq<Resting> :| ShowsWith(rows, idle, active, lingering, history, topCount);
    var m :| 0 <= m < |idle| && idle[m] == lingering[k];
    RowOfIdle(rows, idle, active, lingering, history, topCount, m);
    forall i | 0 <= i < |rows| && rows[i].idle && rows[i].key in lingering
      ensures lingering[rows[i].key].lastActive >= lingering[k].lastActive
    {
      IdleAt(rows, idle, active, lingering, history, topCount, i);
    }
  }

  /** An active application goes without a row only if the list is full of busier ones, in the order
      of the snapshot. */
  lemma {:induction false} ActiveShownFirst(
    rows: seq<Row>, active: seq<AppDoc>, lingering: map<string, Resting>, history: map<string, seq<nat>>,
    topCount: nat, i: nat)
    requires Shows(rows, active, lingering, history, topCount) && i < |active|
    ensures i < topCount ==> i < |rows| && rows[i] == RowFor(active[i], false, history)
    ensures |rows| <= topCount
  {
    var idle: seq<Resting> :| ShowsWith(rows, idle, active, lingering, history, topCount);
  }

  /** Field by field: the first rows are the active applications as the document has them, and every other
      row is that of a lingering one as it was last active, with rates of zero. */
  lemma {:induction false} RowsShowApps(
    rows: seq<Row>, active: seq<AppDoc>, lingering: map<string, Resting>, history: map<string, seq<nat>>,
    topCount: nat, i: nat)
    requires Shows(rows, active, lingering, history, topCount) && i < |rows|
    ensures i < |active| ==> ShowsApp(rows[i], active[i], false)
    ensures i >= |active| ==>
              rows[i].key in lingering && rows[i].key !in AppKeys(active)
              && ShowsApp(rows[i], lingering[rows[i].key].row, true)
    ensures rows[i].spark == if rows[i].key in history then history[rows[i].key] else []
  {
    IdleNeverDisplaces(rows, active, lingering, history, topCount, i);
    if i < |active| {
      RowShows(active[i], false, history);
    } else {
      IdleIsResting(rows, active, lingering, history, topCount, i);
      RowShows(lingering[rows[i].key].row, true, history);
    }
  }
}
