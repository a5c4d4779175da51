/** The widget: what a snapshot does to the rows, the windows and the totals, and what resets them. */
module Widget {
  import opened Arithmetic
  import opened Basics
  import opened Sampling
  import opened JsonWriter
  import opened History
  import opened Lingering
  import opened ListSync
  import opened Sorting

  // ---------------------------------------------------------------------------------------------
  // Exclusion
  // ---------------------------------------------------------------------------------------------

  function Lower(s: string): string {
    seq(|s|, i requires 0 <= i < |s| => if 'A' <= s[i] <= 'Z' then (s[i] as int + 32) as char else s[i])
  }

  /** One character is the other in lower case. */
  predicate IsLowerOf(low: char, c: char) {
    if 'A' <= c <= 'Z' then 'a' <= low <= 'z' && low as int - 'a' as int == c as int - 'A' as int else low == c
  }

  /** Texts that differ in the case of letters alone, and no others, are the same in lower case. */
  lemma {:induction false} LowerExactly(s: string, low: string)
    ensures Lower(s) == low <==> |low| == |s| && forall i :: 0 <= i < |s| ==> IsLowerOf(low[i], s[i])
  {
    assert forall i :: 0 <= i < |s| ==> IsLowerOf(Lower(s)[i], s[i]);
    if |low| == |s| && forall i :: 0 <= i < |s| ==> IsLowerOf(low[i], s[i]) {
      assert forall i :: 0 <= i < |s| ==> low[i] as int == Lower(s)[i] as int;
    }
  }

  /** split("/").pop() */
  function LastPart(s: string): (r: string)
    ensures '/' !in r && (s == r || EndsWith(s, "/" + r))
  {
    if s == "" || s[|s| - 1] == '/' then ""
    else LastPart(s[..|s| - 1]) + [s[|s| - 1]]
  }

  /** The list holds no empty entry: it is trimmed, lower-cased and stripped of blanks when it is set. */
  predicate Hides(excluded: seq<string>, name: string, exePath: string) {
    excluded != [] &&
    var exe := Lower(LastPart(exePath));
    Lower(name) in excluded || (exe != "" && exe in excluded)
  }

  function IsExcluded(excluded: seq<string>): AppDoc -> bool {
    (app: AppDoc) => Hides(excluded, app.name, OrEmpty(app.exe))
  }

  lemma {:induction false} LastPartAfterSlash(dir: string, base: string)
    requires '/' !in base
    ensures LastPart(base) == base && LastPart(dir + "/" + base) == base
  {
    if base == "" {
      assert dir + "/" + base == dir + "/";
    } else {
      var n, path := |base| - 1, dir + "/" + base;
      LastPartAfterSlash(dir, base[..n]);
      assert base == base[..n] + [base[n]];
      assert path[..|path| - 1] == dir + "/" + base[..n] && path[|path| - 1] == base[n];
    }
  }

  /** An application is hidden by an entry that is its name or the file name of its executable, in any
      case and whatever the directory; by its name alone if it has no executable or a path that ends in
      a slash. */
  lemma {:induction false} HiddenByEither(excluded: seq<string>, app: AppDoc, dir: string, base: string)
    requires '/' !in base
    requires (app.exe == None && base == "") || app.exe == Some(base) || app.exe == Some(dir + "/" + base)
    ensures IsExcluded(excluded)(app)
       <==> exists e :: e in excluded && (e == Lower(app.name) || (base != "" && e == Lower(base)))
  {
    LastPartAfterSlash(dir, base);
    if IsExcluded(excluded)(app) {
      assert Lower(app.name) in excluded || (base != "" && Lower(base) in excluded);
    }
  }

  function Kept(apps: seq<AppDoc>, excluded: seq<string>): seq<AppDoc> {
    if apps == [] then []
    else
      var last := apps[|apps| - 1];
      Kept(apps[..|apps| - 1], excluded) + if IsExcluded(excluded)(last) then [] else [last]
  }

  lemma {:induction false} KeptMembers(apps: seq<AppDoc>, excluded: seq<string>)
    ensures forall a :: a in Kept(apps, excluded) <==> a in apps && !IsExcluded(excluded)(a)
  {
    if apps != [] {
      KeptMembers(apps[..|apps| - 1], excluded);
      assert apps == apps[..|apps| - 1] + [apps[|apps| - 1]];
    }
  }

  lemma {:induction false} KeptOne(a: AppDoc, excluded: seq<string>)
    ensures Kept([a], excluded) == if IsExcluded(excluded)(a) then [] else [a]
  {
    assert [a][..0] == [] && [] + [a] == [a];
  }

  /** The order of the snapshot is kept: what is kept of two lists after each other is what is kept of the
      first and then what is kept of the second. */
  lemma {:induction false} KeptInOrder(apps: seq<AppDoc>, more: seq<AppDoc>, excluded: seq<string>)
    ensures Kept(apps + more, excluded) == Kept(apps, excluded) + Kept(more, excluded)
  {
    hide IsExcluded;
    if more == [] {
      assert apps + more == apps;
    } else {
      var front, last := more[..|more| - 1], more[|more| - 1];
      assert (apps + more)[..|apps + more| - 1] == apps + front && (apps + more)[|apps + more| - 1] == last;
      KeptInOrder(apps, front, excluded);
      KeptLast(Kept(apps, excluded), Kept(front, excluded), if IsExcluded(excluded)(last) then [] else [last]);
    }
  }

  lemma {:induction false} KeptLast(a: seq<AppDoc>, b: seq<AppDoc>, c: seq<AppDoc>)
    ensures a + b + c == a + (b + c)
  {
  }

  lemma {:induction false} NextKey(active: seq<AppDoc>, i: nat)
    requires DistinctApps(active) && i < |active|
    ensures active[i].key !in AppKeys(active[..i]) && active[..i + 1] == active[..i] + [active[i]]
  {
    forall a | a in active[..i] ensures a.key != active[i].key {
      var j :| 0 <= j < i && active[j] == a;
    }
  }

  lemma {:induction false} KeptDistinct(apps: seq<AppDoc>, excluded: seq<string>)
    requires DistinctApps(apps)
    ensures DistinctApps(Kept(apps, excluded))
  {
    if apps != [] {
      var front, last := apps[..|apps| - 1], apps[|apps| - 1];
      KeptDistinct(front, excluded);
      KeptMembers(front, excluded);
      var kept := Kept(front, excluded);
      forall i | 0 <= i < |kept| ensures kept[i].key != last.key {
        assert kept[i] in front;
      }
    }
  }

  /** What excluding every listed application leaves of a total. */
  function Remaining(doc: Document, excluded: seq<string>, d: Direction): int {
    Total(doc, d) - PickedSum(doc.apps, IsExcluded(excluded), d)
  }

  /** The total as the widget shows it. */
  function ShownTotal(doc: Document, excluded: seq<string>, d: Direction): nat {
    Max(0, Remaining(doc, excluded, d))
  }

  lemma {:induction false} KeptOrPicked(apps: seq<AppDoc>, excluded: seq<string>, d: Direction)
    ensures SumApps(Kept(apps, excluded), d) + PickedSum(apps, IsExcluded(excluded), d) == SumApps(apps, d)
  {
    if apps != [] {
      var front, last := apps[..|apps| - 1], apps[|apps| - 1];
      KeptOrPicked(front, excluded, d);
      assert (Kept(front, excluded) + [last])[..|Kept(front, excluded)|] == Kept(front, excluded);
      assert Kept(front, excluded) + [] == Kept(front, excluded);
    }
  }

  ghost predicate Separated(snapshot: Document, i: nat, excluded: seq<string>, active: seq<AppDoc>, rx: int, tx: int)
    requires i <= |snapshot.apps|
  {
    && active == Kept(snapshot.apps[..i], excluded)
    && rx == snapshot.totalRx - PickedSum(snapshot.apps[..i], IsExcluded(excluded), Rx)
    && tx == snapshot.totalTx - PickedSum(snapshot.apps[..i], IsExcluded(excluded), Tx)
  }

  lemma {:induction false} SeparateNext(
    snapshot: Document, i: nat, excluded: seq<string>, active: seq<AppDoc>, rx: int, tx: int)
    requires i < |snapshot.apps| && Separated(snapshot, i, excluded, active, rx, tx)
    ensures var app := snapshot.apps[i];
            if IsExcluded(excluded)(app)
            then Separated(snapshot, i + 1, excluded, active, rx - app.rx, tx - app.tx)
            else Separated(snapshot, i + 1, excluded, active + [app], rx, tx)
  {
    assert snapshot.apps[..i + 1][..i] == snapshot.apps[..i];
  }

  lemma {:induction false} SeparatedAll(
    snapshot: Document, excluded: seq<string>, active: seq<AppDoc>, rx: int, tx: int)
    requires Separated(snapshot, |snapshot.apps|, excluded, active, rx, tx)
    ensures active == Kept(snapshot.apps, excluded)
    ensures rx == Remaining(snapshot, excluded, Rx) && tx == Remaining(snapshot, excluded, Tx)
  {
    assert snapshot.apps[..|snapshot.apps|] == snapshot.apps;
  }

  /** The time between two samples. */
  function SampleMs(intervalMs: int, refreshInterval: int): (ms: int)
    ensures ms >= 1
  {
    Max(1, if intervalMs != 0 then intervalMs else refreshInterval)
  }

  /** The samples of a trace: two at least, 1200 at most. */
  function HistoryLength(historySeconds: int, intervalMs: int, refreshInterval: int): (n: nat)
    ensures 2 <= n <= 1200
  {
    Max(2, Min(1200, Round((historySeconds * 1000) as real / SampleMs(intervalMs, refreshInterval) as real)))
  }

  /** A trace covers the configured span to within half a sample, unless that takes fewer than two
      samples or more than 1200: samples are as far apart as the interval in force, and as the refresh
      interval while there is none. */
  lemma {:induction false} TraceCoversSpan(historySeconds: int, intervalMs: int, refreshInterval: int)
    ensures var n := HistoryLength(historySeconds, intervalMs, refreshInterval);
            var setting := if intervalMs != 0 then intervalMs else refreshInterval;
            var p, span := (if setting >= 1 then setting else 1), historySeconds * 1000;
            if span < 2 * p then n == 2 else if 1200 * p < span then n == 1200 else -p <= 2 * (n * p - span) <= p
  {
    var p, span := SampleMs(intervalMs, refreshInterval), historySeconds * 1000;
    QuotientBound(span, p, 2);
    QuotientBound(-span, p, -1200);
    Negated(span as real, p as real);
    if 2 * p <= span <= 1200 * p {
      NearestMultiple(Round(span as real / p as real), p, span);
    }
  }

  lemma {:induction false} Negated(c: real, p: real)
    requires p > 0.0
    ensures -c / p == -(c / p)
  {
  }

  function LingerMs(lingerSeconds: int): int {
    Max(0, lingerSeconds) * 1000
  }

  // ---------------------------------------------------------------------------------------------
  // The state machine
  // ---------------------------------------------------------------------------------------------

  datatype State = State(
    history: map<string, seq<nat>>, lingering: map<string, Resting>, totalRx: nat, totalTx: nat, topApp: Option<Row>,
    excluded: seq<string>, lingerSeconds: int)

  function Start(excluded: seq<string>, lingerSeconds: int): State {
    State(map[], map[], 0, 0, None, excluded, lingerSeconds)
  }

  datatype Event =
    | Ingested(now: int, snapshot: Document, length: nat)
    | SpacingChanged
    | DaemonLost
    | LingerChanged(seconds: int)
    | ExclusionChanged(entries: seq<string>)

  function Advanced(s: State, t: Tick): State {
    s.(history := Advance(s.history, t.active, t.length),
       lingering := Linger(s.lingering, t.active, t.now, LingerMs(s.lingerSeconds)))
  }

  lemma {:induction false} AdvancedTo(s: State, t: Tick, after: State)
    requires after.history == Advance(s.history, t.active, t.length)
    requires after.lingering == Linger(s.lingering, t.active, t.now, LingerMs(s.lingerSeconds))
    requires after.totalRx == s.totalRx && after.totalTx == s.totalTx && after.topApp == s.topApp
    requires after.excluded == s.excluded && after.lingerSeconds == s.lingerSeconds
    ensures after == Advanced(s, t)
  {
  }

  function Totalled(s: State, snapshot: Document): State {
    s.(totalRx := ShownTotal(snapshot, s.excluded, Rx), totalTx := ShownTotal(snapshot, s.excluded, Tx))
  }

  /** The busiest active application. */
  function Top(active: seq<AppDoc>, history: map<string, seq<nat>>): Option<Row> {
    if active == [] then None else Some(RowFor(active[0], false, history))
  }

  function Finished(s: State, now: int, active: seq<AppDoc>, length: nat): State {
    var t := Advanced(s, Tick(now, active, length));
    t.(topApp := Top(active, t.history))
  }

  function Step(s: State, e: Event): State {
    match e
    case Ingested(now, snapshot, length) =>
      Finished(Totalled(s, snapshot), now, Kept(snapshot.apps, s.excluded), length)
    case SpacingChanged => s.(history := map[])
    case DaemonLost => Start(s.excluded, s.lingerSeconds)
    case LingerChanged(seconds) => s.(lingering := map[], lingerSeconds := seconds)
    case ExclusionChanged(entries) => s.(lingering := map[], excluded := entries)
  }

  /** After a snapshot, an application that is not in it lingers if and only if it did before and was last
      active no more than the configured seconds ago; one that is in it starts anew. */
  lemma {:induction false} LingersForSeconds(s: State, now: int, snapshot: Document, length: nat, k: string)
    ensures var active, l := Kept(snapshot.apps, s.excluded), Step(s, Ingested(now, snapshot, length)).lingering;
            var seconds := if s.lingerSeconds >= 0 then s.lingerSeconds else 0;
            && (k in AppKeys(active) ==> k in l && l[k].lastActive == now && l[k].row in active && l[k].row.key == k)
            && (k !in AppKeys(active) ==>
                  (k in l <==> k in s.lingering && now - s.lingering[k].lastActive <= 1000 * seconds)
                  && (k in l ==> l[k] == s.lingering[k]))
  {
  }

  /** The totals as shown: in each direction the published total less what the excluded rows of the document
      have, and nothing if that were less than nothing. */
  lemma {:induction false} TotalsShown(s: State, now: int, doc: Document, length: nat)
    ensures var kept, t := Kept(doc.apps, s.excluded), Step(s, Ingested(now, doc, length));
            var rx := doc.totalRx - (SumApps(doc.apps, Rx) - SumApps(kept, Rx));
            var tx := doc.totalTx - (SumApps(doc.apps, Tx) - SumApps(kept, Tx));
            && t.totalRx == (if rx >= 0 then rx else 0)
            && t.totalTx == (if tx >= 0 then tx else 0)
  {
    KeptOrPicked(doc.apps, s.excluded, Rx);
    KeptOrPicked(doc.apps, s.excluded, Tx);
  }

  /** The application named first by the snapshot, excluded ones aside, is the top one: and with no active
      application there is none, whatever lingers. */
  lemma {:induction false} TopIsFirst(s: State, now: int, snapshot: Document, length: nat)
    ensures var active, top := Kept(snapshot.apps, s.excluded), Step(s, Ingested(now, snapshot, length)).topApp;
            && (active == [] ==> top == None)
            && (active != [] ==> top.Some? && ShowsApp(top.value, active[0], false))
  {
    var active := Kept(snapshot.apps, s.excluded);
    if active != [] {
      RowShows(active[0], false, Step(s, Ingested(now, snapshot, length)).history);
    }
  }

  /** What each of the other events clears, and that it touches nothing else. */
  lemma {:induction false} ResetsClear(s: State, seconds: int, entries: seq<string>)
    ensures Step(s, SpacingChanged) == s.(history := map[])
    ensures var t := Step(s, DaemonLost);
            && t.history == map[] && t.lingering == map[] && t.totalRx == 0 && t.totalTx == 0 && t.topApp == None
            && t.excluded == s.excluded && t.lingerSeconds == s.lingerSeconds
    ensures Step(s, LingerChanged(seconds)) == s.(lingering := map[], lingerSeconds := seconds)
    ensures Step(s, ExclusionChanged(entries)) == s.(lingering := map[], excluded := entries)
  {
  }

  class Widget {
    const model: ListModel
    var history: map<string, seq<nat>>
    var lingering: map<string, Resting>
    var totalRx: nat
    var totalTx: nat
    var topApp: Option<Row>
    var excluded: seq<string>
    var lingerSeconds: int
    var topCount: nat
    var historyLength: nat

    constructor (excluded: seq<string>, lingerSeconds: int, topCount: nat, historySeconds: int, refreshInterval: int)
      ensures fresh(model) && model.items == [] && Valid()
      ensures Contents() == Start(excluded, lingerSeconds)
      ensures this.topCount == topCount && historyLength == HistoryLength(historySeconds, 0, refreshInterval)
    {
      model := new ListModel();
      history, lingering, totalRx, totalTx, topApp := map[], map[], 0, 0, None;
      this.excluded, this.lingerSeconds, this.topCount := excluded, lingerSeconds, topCount;
      historyLength := HistoryLength(historySeconds, 0, refreshInterval);
    }

    /** The settings that are read where they are needed: nothing is reset when they change. */
    method Rebind(topCount: nat, historySeconds: int, intervalMs: int, refreshInterval: int)
      requires Valid()
      modifies this`topCount, this`historyLength
      ensures Valid() && Contents() == old(Contents())
      ensures this.topCount == topCount && historyLength == HistoryLength(historySeconds, intervalMs, refreshInterval)
    {
      this.topCount, historyLength := topCount, HistoryLength(historySeconds, intervalMs, refreshInterval);
    }

    function Contents(): State
      reads this
    {
      State(history, lingering, totalRx, totalTx, topApp, excluded, lingerSeconds)
    }

    ghost predicate Valid()
      reads this, model
    {
      DistinctItems(model.items) && Keyed(lingering) && 2 <= historyLength <= 1200
    }

    method OnIntervalMsChanged()
      requires Valid()
      modifies this`history
      ensures Valid() && Contents() == Step(old(Contents()), SpacingChanged)
    {
      history := map[];
    }

    method OnDaemonStatusChanged(status: string)
      requires Valid()
      modifies this`history, this`lingering, this`topApp, this`totalRx, this`totalTx, model
      ensures Valid()
      ensures status != "ok" ==> Contents() == Step(old(Contents()), DaemonLost) && model.items == []
      ensures status == "ok" ==> unchanged(this) && unchanged(model)
    {
      if status != "ok" {
        model.Clear();
        history, lingering, topApp, totalRx, totalTx := map[], map[], None, 0, 0;
      }
    }

    method OnLingerSecondsChanged(seconds: int)
      requires Valid()
      modifies this`lingering, this`lingerSeconds
      ensures Valid() && Contents() == Step(old(Contents()), LingerChanged(seconds))
    {
      lingerSeconds, lingering := seconds, map[];
    }

    method OnExcludeProcessesChanged(entries: seq<string>)
      requires Valid()
      modifies this`lingering, this`excluded
      ensures Valid() && Contents() == Step(old(Contents()), ExclusionChanged(entries))
    {
      excluded, lingering := entries, map[];
    }

    method PushSample(key: string, value: nat) returns (samples: seq<nat>)
      modifies this`history
      ensures samples == Pushed(old(history), key, value, historyLength)
      ensures history == old(history)[key := samples]
    {
      samples := if key in history then history[key] else Zeros(historyLength);
      samples := samples + [value];
      ghost var start := samples;
      while |samples| > historyLength
        invariant history == old(history)
        invariant Fit(samples, historyLength) == Fit(start, historyLength)
      {
        FitShift(samples, historyLength);
        samples := samples[1..];
      }
      while |samples| < historyLength
        invariant history == old(history) && |samples| <= historyLength
        invariant Fit(samples, historyLength) == Fit(start, historyLength)
      {
        ZerosGrow(samples, historyLength - |samples| - 1);
        samples := [0] + samples;
      }
      assert samples[0..] == samples;
      history := history[key := samples];
    }

    /** The start of ingest: the excluded applications are taken out of the list and the totals. */
    method Separate(snapshot: Document) returns (active: seq<AppDoc>)
      requires DistinctApps(snapshot.apps)
      modifies this`totalRx, this`totalTx
      ensures active == Kept(snapshot.apps, excluded) && DistinctApps(active)
      ensures Contents() == Totalled(old(Contents()), snapshot)
    {
      var entries := excluded;
      var rx, tx := snapshot.totalRx as int, snapshot.totalTx as int;
      active := [];
      var i := 0;
      while i < |snapshot.apps|
        invariant 0 <= i <= |snapshot.apps| && Separated(snapshot, i, entries, active, rx, tx)
      {
        var app := snapshot.apps[i];
        SeparateNext(snapshot, i, entries, active, rx, tx);
        if IsExcluded(entries)(app) {
          rx, tx := rx - app.rx, tx - app.tx;
        } else {
          active := active + [app];
        }
        i := i + 1;
      }
      SeparatedAll(snapshot, entries, active, rx, tx);
      KeptDistinct(snapshot.apps, entries);
      totalRx, totalTx := Max(0, rx), Max(0, tx);
    }

    /** The loop over the active applications. */
    method SampleActive(active: seq<AppDoc>, now: int) returns (isActive: set<string>)
      requires DistinctApps(active)
      modifies this`history, this`lingering
      ensures isActive == AppKeys(active)
      ensures history == PushAll(old(history), active, historyLength)
      ensures lingering == Activate(old(lingering), active, now)
    {
      isActive := {};
      ghost var done: seq<AppDoc> := [];
      var i := 0;
      SameMap(PushAll(history, [], historyLength), history);
      SameMap(Activate(lingering, [], now), lingering);
      while i < |active|
        invariant 0 <= i <= |active| && done == active[..i]
        invariant isActive == AppKeys(done)
        invariant history == PushAll(old(history), done, historyLength)
        invariant lingering == Activate(old(lingering), done, now)
      {
        var app := active[i];
        NextKey(active, i);
        KeysAppend(done, app);
        ActivateOne(old(lingering), done, app, now);
        isActive := isActive + {app.key};
        lingering := lingering[app.key := Resting(app, now)];
        ghost var h := history;
        var _ := PushSample(app.key, app.rx + app.tx);
        PushOne(old(history), done, app, historyLength, h, history);
        done := done + [app];
        i := i + 1;
      }
      assert done == active;
    }

    /** The loop over the windows: every other known key gets a zero. The windows were as in before when
        the snapshot came. */
    method SampleOthers(isActive: set<string>, ghost before: map<string, seq<nat>>, ghost active: seq<AppDoc>)
      requires isActive == AppKeys(active) && history == PushAll(before, active, historyLength)
      modifies this`history
      ensures history == Advance(before, active, historyLength)
    {
      ghost var h := history;
      var todo := history.Keys;
      AgedStarts(h, isActive, historyLength);
      while todo != {}
        invariant todo <= h.Keys && history == Aged(h, isActive, todo, historyLength)
        decreases |todo|
      {
        var key :| key in todo;
        if key in isActive {
          AgedActive(h, isActive, todo, historyLength, key);
        } else {
          AgedView(h, isActive, todo, historyLength, key);
          AgedOther(h, isActive, todo, historyLength, key);
          var window := PushSample(key, 0);
          var peak := Peak(window);
          if peak == 0 {
            history := history - {key};
          }
        }
        todo := todo - {key};
      }
      AgedEnds(before, active, historyLength);
    }

    /** The loop over the lingering entries. They were as in before when the snapshot came. */
    method CollectIdle(
      isActive: set<string>, now: int, lingerMs: int, ghost before: map<string, Resting>, ghost active: seq<AppDoc>)
      returns (idle: seq<Resting>)
      requires Keyed(before) && isActive == AppKeys(active) && lingering == Activate(before, active, now)
      modifies this`lingering
      ensures lingering == Linger(before, active, now, lingerMs) && Keyed(lingering)
      ensures ListsIdle(idle, lingering, isActive)
    {
      hide Expire, Activate, ListsIdle;
      LingerKeyed(before, active, now, lingerMs);
      idle := [];
      ghost var l := lingering;
      var todo := lingering.Keys;
      CollectStarts(l, isActive, now, lingerMs);
      while todo != {}
        invariant todo <= l.Keys && lingering == Expire(l, isActive, todo, now, lingerMs)
        invariant ListsIdle(idle, lingering - todo, isActive)
        decreases |todo|
      {
        var key :| key in todo;
        CollectStep(l, idle, isActive, todo, key, now, lingerMs);
        if key !in isActive {
          if now - lingering[key].lastActive > lingerMs {
            lingering := lingering - {key};
          } else {
            idle := idle + [lingering[key]];
          }
        }
        todo := todo - {key};
      }
      assert lingering - {} == lingering;
    }

    /** The middle of ingest: the windows and the lingering entries. */
    method Track(active: seq<AppDoc>, now: int) returns (idle: seq<Resting>)
      requires Keyed(lingering) && DistinctApps(active)
      modifies this`history, this`lingering
      ensures Contents() == Advanced(old(Contents()), Tick(now, active, historyLength))
      ensures Keyed(lingering) && ListsIdle(idle, lingering, AppKeys(active))
    {
      hide Advance, Linger, PushAll, Activate;
      ghost var before := Contents();
      var lingerMs := LingerMs(lingerSeconds);
      var isActive := SampleActive(active, now);
      SampleOthers(isActive, before.history, active);
      idle := CollectIdle(isActive, now, lingerMs, before.lingering, active);
      AdvancedTo(before, Tick(now, active, historyLength), Contents());
    }

    /** The rows and the model. */
    method ShowRows(active: seq<AppDoc>, idle: seq<Resting>) returns (ghost rows: seq<Row>, ghost done: seq<Change>)
      requires Valid() && DistinctApps(active) && ListsIdle(idle, lingering, AppKeys(active))
      modifies model
      ensures Valid() && Shows(rows, active, lingering, history, topCount)
      ensures Reconciled(old(model.items), model.items, rows, old(model.nextTag), done)
    {
      var sorted := SortDescending(idle, Recency());
      var shown := Take(ActiveRows(active, history) + IdleRows(sorted, history), topCount);
      SortedIsShown(idle, active, lingering, history, topCount);
      done := SyncModel(model, shown);
      rows := shown;
    }

    /** The end of ingest: the rows, the model and the top application. */
    method Present(active: seq<AppDoc>, idle: seq<Resting>) returns (ghost rows: seq<Row>, ghost done: seq<Change>)
      requires Valid() && DistinctApps(active) && ListsIdle(idle, lingering, AppKeys(active))
      modifies this`topApp, model
      ensures Valid() && Contents() == old(Contents()).(topApp := Top(active, history))
      ensures Shows(rows, active, lingering, history, topCount)
      ensures Reconciled(old(model.items), model.items, rows, old(model.nextTag), done)
    {
      rows, done := ShowRows(active, idle);
      topApp := if |active| > 0 then Some(RowFor(active[0], false, history)) else None;
    }

    method Ingest(snapshot: Document, now: int) returns (ghost rows: seq<Row>, ghost done: seq<Change>)
      requires Valid() && DistinctApps(snapshot.apps)
      modifies this`history, this`lingering, this`totalRx, this`totalTx, this`topApp, model
      ensures Valid() && Contents() == Step(old(Contents()), Ingested(now, snapshot, historyLength))
      ensures Shows(rows, Kept(snapshot.apps, excluded), lingering, history, topCount)
      ensures Reconciled(old(model.items), model.items, rows, old(model.nextTag), done)
    {
      var active := Separate(snapshot);
      var idle := Track(active, now);
      rows, done := Present(active, idle);
    }
  }

  lemma {:induction false} CollectStarts(l: map<string, Resting>, active: set<string>, now: int, lingerMs: int)
    ensures Expire(l, active, l.Keys, now, lingerMs) == l
    ensures ListsIdle([], l - l.Keys, active)
  {
    SameMap(Expire(l, active, l.Keys, now, lingerMs), l);
  }

  /** Looking at one more lingering entry. */
  lemma {:induction false} CollectStep(
    l: map<string, Resting>, idle: seq<Resting>, active: set<string>, todo: set<string>, key: string, now: int,
    lingerMs: int)
    requires Keyed(l) && key in todo && todo <= l.Keys
    requires ListsIdle(idle, Expire(l, active, todo, now, lingerMs) - todo, active)
    ensures var was, left := Expire(l, active, todo, now, lingerMs), todo - {key};
            && key in was && was[key] == l[key]
            && (if key !in active && !Lasts(l[key], now, lingerMs)
                then Expire(l, active, left, now, lingerMs) == was - {key}
                     && ListsIdle(idle, was - {key} - left, active)
                else Expire(l, active, left, now, lingerMs) == was
                     && ListsIdle(if key in active then idle else idle + [l[key]], was - left, active))
  {
  }
}
