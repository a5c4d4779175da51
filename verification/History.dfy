/** The sparkline windows: a sparse map of sample windows, and the dense history it stands for. */
module History {
  import opened Basics
  import opened JsonWriter

  function Zeros(n: nat): (w: seq<nat>)
    ensures |w| == n && Silent(w)
  {
    seq(n, i => 0)
  }

  predicate Silent(w: seq<nat>) {
    forall i :: 0 <= i < |w| ==> w[i] == 0
  }

  /** A window brought to n samples: the newest stay at the right, zeros are added on the left. */
  function Fit(w: seq<nat>, n: nat): (r: seq<nat>)
    ensures |r| == n
  {
    if |w| >= n then w[|w| - n..] else Zeros(n - |w|) + w
  }

  lemma {:induction false} FitShift(w: seq<nat>, n: nat)
    requires |w| > n
    ensures Fit(w[1..], n) == Fit(w, n)
  {
  }

  lemma {:induction false} ZerosGrow(w: seq<nat>, n: nat)
    ensures Zeros(n) + ([0] + w) == Zeros(n + 1) + w
  {
  }

  lemma {:induction false} FitAt(w: seq<nat>, v: nat, n: nat, j: nat)
    requires j < n
    ensures Fit(w + [v], n)[n - 1 - j] == if j == 0 then v else if j - 1 < |w| then w[|w| - j] else 0
  {
  }

  /** Rates.js, peak. */
  method Peak(values: seq<nat>) returns (max: nat)
    ensures forall i :: 0 <= i < |values| ==> values[i] <= max
    ensures max == 0 || max in values
    ensures max == 0 <==> Silent(values)
  {
    max := 0;
    var i := 0;
    while i < |values|
      invariant 0 <= i <= |values|
      invariant forall j :: 0 <= j < i ==> values[j] <= max
      invariant max == 0 || max in values
    {
      if values[i] > max {
        max := values[i];
      }
      i := i + 1;
    }
  }

  // ---------------------------------------------------------------------------------------------
  // One snapshot
  // ---------------------------------------------------------------------------------------------

  function AppKeys(apps: seq<AppDoc>): set<string> {
    set a | a in apps :: a.key
  }

  ghost predicate DistinctApps(apps: seq<AppDoc>) {
    forall i, j :: 0 <= i < j < |apps| ==> apps[i].key != apps[j].key
  }

  /** The total rate of an application in a list of active ones: zero if it is not among them. */
  function Rate(active: seq<AppDoc>, k: string): nat {
    if active == [] then 0
    else
      var last := active[|active| - 1];
      if last.key == k then last.rx + last.tx else Rate(active[..|active| - 1], k)
  }

  /** What is sampled of an active application is what it receives and sends together. */
  lemma {:induction false} RateOfActive(active: seq<AppDoc>, i: nat)
    requires DistinctApps(active) && i < |active|
    ensures Rate(active, active[i].key) == active[i].rx + active[i].tx
  {
    if i < |active| - 1 {
      RateOfActive(active[..|active| - 1], i);
    }
  }

  /** The window of a key: one it has not got is all zeros. */
  function View(history: map<string, seq<nat>>, k: string, n: nat): seq<nat> {
    if k in history then history[k] else Zeros(n)
  }

  /** The window of a key after one more sample. */
  function Pushed(history: map<string, seq<nat>>, k: string, value: nat, n: nat): seq<nat> {
    Fit(View(history, k, n) + [value], n)
  }

  /** After the active applications have been sampled. */
  function PushAll(history: map<string, seq<nat>>, active: seq<AppDoc>, n: nat): map<string, seq<nat>> {
    map k | k in history.Keys + AppKeys(active) ::
      if k in AppKeys(active) then Pushed(history, k, Rate(active, k), n) else View(history, k, n)
  }

  lemma {:induction false} RateAbsent(active: seq<AppDoc>, k: string)
    requires k !in AppKeys(active)
    ensures Rate(active, k) == 0
  {
    if active != [] {
      assert active[|active| - 1] in active;
      RateAbsent(active[..|active| - 1], k);
    }
  }

  lemma {:induction false} KeysAppend(active: seq<AppDoc>, a: AppDoc)
    ensures AppKeys(active + [a]) == AppKeys(active) + {a.key}
  {
    assert forall x :: x in active + [a] <==> x in active || x == a;
  }

  lemma {:induction false} PushOneKey(history: map<string, seq<nat>>, active: seq<AppDoc>, a: AppDoc, n: nat, k: string)
    ensures k in PushAll(history, active + [a], n) <==> k in PushAll(history, active, n) || k == a.key
    ensures k in PushAll(history, active, n) && k != a.key ==>
              PushAll(history, active + [a], n)[k] == PushAll(history, active, n)[k]
    ensures PushAll(history, active + [a], n)[a.key] == Pushed(history, a.key, a.rx + a.tx, n)
  {
    KeysAppend(active, a);
    RateLast(active, a, k);
    RateLast(active, a, a.key);
  }

  /** h has been sampled for the active applications so far, and now is for one more. */
  lemma {:induction false} PushOne(
    history: map<string, seq<nat>>, active: seq<AppDoc>, a: AppDoc, n: nat, h: map<string, seq<nat>>,
    now: map<string, seq<nat>>)
    requires a.key !in AppKeys(active) && h == PushAll(history, active, n)
    requires now == h[a.key := Pushed(h, a.key, a.rx + a.tx, n)]
    ensures now == PushAll(history, active + [a], n)
  {
    var got := PushAll(history, active + [a], n);
    assert View(h, a.key, n) == View(history, a.key, n);
    forall k ensures k in got <==> k in now
             ensures k in got ==> got[k] == now[k]
    {
      PushOneKey(history, active, a, n, k);
    }
    SameMap(got, now);
  }

  lemma {:induction false} RateLast(active: seq<AppDoc>, a: AppDoc, k: string)
    ensures Rate(active + [a], k) == if k == a.key then a.rx + a.tx else Rate(active, k)
  {
    assert (active + [a])[..|active|] == active;
  }

  /** While the windows of the keys in todo, and those of the active applications, are as in h. */
  function Aged(h: map<string, seq<nat>>, active: set<string>, todo: set<string>, n: nat): map<string, seq<nat>> {
    map k | k in h && (k in active || k in todo || !Silent(Fit(h[k] + [0], n))) ::
      if k in active || k in todo then h[k] else Fit(h[k] + [0], n)
  }

  /** The windows after a snapshot: every known key gets one sample, and a window that holds nothing
      but zeros is kept only for an active application. */
  function Advance(history: map<string, seq<nat>>, active: seq<AppDoc>, n: nat): map<string, seq<nat>> {
    map k | k in history.Keys + AppKeys(active)
            && (k in AppKeys(active) || !Silent(Pushed(history, k, 0, n))) ::
      Pushed(history, k, Rate(active, k), n)
  }

  lemma {:induction false} AgedStarts(h: map<string, seq<nat>>, active: set<string>, n: nat)
    ensures Aged(h, active, h.Keys, n) == h
  {
  }

  lemma {:induction false} AgedEnds(history: map<string, seq<nat>>, active: seq<AppDoc>, n: nat)
    ensures Aged(PushAll(history, active, n), AppKeys(active), {}, n) == Advance(history, active, n)
  {
    var h := PushAll(history, active, n);
    forall k | k in history && k !in AppKeys(active) ensures h[k] == history[k] && Rate(active, k) == 0 {
      RateAbsent(active, k);
    }
  }

  lemma {:induction false} AgedActive(
    h: map<string, seq<nat>>, active: set<string>, todo: set<string>, n: nat, k: string)
    requires k in todo && k in active
    ensures Aged(h, active, todo - {k}, n) == Aged(h, active, todo, n)
  {
    hide Fit, Silent;
    SameMap(Aged(h, active, todo - {k}, n), Aged(h, active, todo, n));
  }

  lemma {:induction false} AgedView(h: map<string, seq<nat>>, active: set<string>, todo: set<string>, n: nat, k: string)
    requires k in todo && k in h
    ensures Pushed(Aged(h, active, todo, n), k, 0, n) == Fit(h[k] + [0], n)
  {
  }

  lemma {:induction false} AgedKey(
    h: map<string, seq<nat>>, active: set<string>, todo: set<string>, n: nat, k: string, x: string)
    requires k in todo && k in h && k !in active
    ensures x in Aged(h, active, todo - {k}, n)
       <==> x in Aged(h, active, todo, n) && (x != k || !Silent(Fit(h[k] + [0], n)))
    ensures x in Aged(h, active, todo - {k}, n) ==>
              Aged(h, active, todo - {k}, n)[x] == if x == k then Fit(h[k] + [0], n) else Aged(h, active, todo, n)[x]
  {
  }

  lemma {:induction false} AgedOther(
    h: map<string, seq<nat>>, active: set<string>, todo: set<string>, n: nat, k: string)
    requires k in todo && k in h && k !in active
    ensures Aged(h, active, todo - {k}, n)
         == if Silent(Fit(h[k] + [0], n)) then Aged(h, active, todo, n) - {k}
            else Aged(h, active, todo, n)[k := Fit(h[k] + [0], n)]
  {
    var was, now, w := Aged(h, active, todo, n), Aged(h, active, todo - {k}, n), Fit(h[k] + [0], n);
    var want := if Silent(w) then was - {k} else was[k := w];
    forall x ensures x in now <==> x in want
             ensures x in now ==> now[x] == want[x]
    {
      AgedKey(h, active, todo, n, k, x);
    }
    SameMap(now, want);
  }

  lemma {:induction false} AdvanceAt(history: map<string, seq<nat>>, active: seq<AppDoc>, n: nat, k: string, j: nat)
    requires k in Advance(history, active, n) && j < n
    ensures var w := Advance(history, active, n)[k];
            && |w| == n
            && (j == 0 ==> w[n - 1] == Rate(active, k))
            && (j > 0 ==> w[n - 1 - j] == if k in history && j <= |history[k]| then history[k][|history[k]| - j] else 0)
  {
    hide Fit, Rate;
    var view := View(history, k, n);
    assert Advance(history, active, n)[k] == Fit(view + [Rate(active, k)], n);
    FitAt(view, Rate(active, k), n, j);
  }

  /** One snapshot, window by window: the new sample enters at the right edge, what an active application
      receives and sends together and zero for any other. */
  lemma {:induction false} AdvanceSamples(history: map<string, seq<nat>>, active: seq<AppDoc>, n: nat, k: string)
    requires DistinctApps(active) && k in Advance(history, active, n) && n > 0
    ensures var w := Advance(history, active, n)[k];
            && |w| == n
            && (k !in AppKeys(active) ==> w[n - 1] == 0)
            && forall i :: 0 <= i < |active| && active[i].key == k ==> w[n - 1] == active[i].rx + active[i].tx
  {
    hide Advance;
    AdvanceAt(history, active, n, k, 0);
    forall i | 0 <= i < |active| && active[i].key == k ensures Rate(active, k) == active[i].rx + active[i].tx {
      RateOfActive(active, i);
    }
    if k !in AppKeys(active) {
      RateAbsent(active, k);
    }
  }

  /** The samples before it move one place to the left as far as there is room, and what is missing on the
      left is zero. */
  lemma {:induction false} AdvanceShifts(history: map<string, seq<nat>>, active: seq<AppDoc>, n: nat, k: string, j: nat)
    requires k in Advance(history, active, n) && 0 < j < n
    ensures var w := Advance(history, active, n)[k];
            |w| == n && w[n - 1 - j] == if k in history && j <= |history[k]| then history[k][|history[k]| - j] else 0
  {
    AdvanceAt(history, active, n, k, j);
  }

  /** A window exists for every active application, and for another only while it shows anything: a key whose
      window has run out is forgotten. */
  lemma {:induction false} KnownWhileDrawn(history: map<string, seq<nat>>, active: seq<AppDoc>, n: nat, k: string)
    ensures k in AppKeys(active) ==> k in Advance(history, active, n)
    ensures k !in AppKeys(active) ==>
              (k in Advance(history, active, n)
               <==> k in history && exists i :: 0 <= i < n && Pushed(history, k, 0, n)[i] != 0)
    ensures k in Advance(history, active, n) && k !in AppKeys(active) ==>
              exists i :: 0 <= i < n && Advance(history, active, n)[k][i] != 0
  {
    if k !in AppKeys(active) {
      RateAbsent(active, k);
    }
  }

  // ---------------------------------------------------------------------------------------------
  // The dense history
  // ---------------------------------------------------------------------------------------------

  /** One snapshot: when it came, the active applications and the window length then in force. */
  datatype Tick = Tick(now: int, active: seq<AppDoc>, length: nat)

  /** One window for every key there could be, advanced by one sample per snapshot: the rate of an
      active application, zero for any other. */
  function Dense(run: seq<Tick>, k: string): seq<nat> {
    if run == [] then []
    else
      var t := run[|run| - 1];
      Fit(Dense(run[..|run| - 1], k) + [Rate(t.active, k)], t.length)
  }

  ghost predicate Refines(history: map<string, seq<nat>>, run: seq<Tick>) {
    && (forall k :: k in history ==> history[k] == Dense(run, k))
    && (forall k :: k !in history ==> Silent(Dense(run, k)))
  }

  lemma {:induction false} SilentFit(w: seq<nat>, v: nat, n: nat)
    requires Silent(w) && n > 0
    ensures Fit(w + [v], n) == Zeros(n - 1) + [v]
  {
    var r := Fit(w + [v], n);
    assert r[n - 1] == v;
    assert forall i :: 0 <= i < n - 1 ==> r[i] == 0;
  }

  lemma {:induction false} DenseNext(run: seq<Tick>, t: Tick, k: string)
    ensures Dense(run + [t], k) == Fit(Dense(run, k) + [Rate(t.active, k)], t.length)
  {
    assert (run + [t])[..|run|] == run;
  }

  /** A window that is absent is sampled as one of zeros would be, whatever the length of either. */
  lemma {:induction false} PushedFrom(history: map<string, seq<nat>>, k: string, d: seq<nat>, v: nat, n: nat)
    requires n > 0 && if k in history then history[k] == d else Silent(d)
    ensures Pushed(history, k, v, n) == Fit(d + [v], n)
  {
    if k !in history {
      SilentFit(d, v, n);
      SilentFit(Zeros(n), v, n);
    }
  }

  lemma {:induction false} AdvanceRefines(history: map<string, seq<nat>>, run: seq<Tick>, t: Tick)
    requires Refines(history, run) && t.length > 0
    ensures Refines(Advance(history, t.active, t.length), run + [t])
  {
    hide Fit, Pushed;
    var h := Advance(history, t.active, t.length);
    forall k ensures k in h ==> h[k] == Dense(run + [t], k)
             ensures k !in h ==> Silent(Dense(run + [t], k))
    {
      DenseNext(run, t, k);
      PushedFrom(history, k, Dense(run, k), Rate(t.active, k), t.length);
      if k !in AppKeys(t.active) {
        RateAbsent(t.active, k);
        if k !in history {
          SilentFit(Dense(run, k), 0, t.length);
        }
      }
    }
  }

  /** What the sparse windows show is the dense history: every window has the current length, and an
      absent one is a window of zeros. */
  lemma {:induction false} SparseShowsDense(history: map<string, seq<nat>>, run: seq<Tick>, k: string)
    requires Refines(history, run) && run != []
    ensures View(history, k, run[|run| - 1].length) == Dense(run, k)
    ensures |View(history, k, run[|run| - 1].length)| == run[|run| - 1].length
  {
    var n := run[|run| - 1].length;
    if k !in history {
      assert Dense(run, k) == Zeros(n);
    }
  }

  /** Whether the sample taken j snapshots ago has stayed inside the window all the time: it stands j
      places from the right edge now, and stood one place further right a snapshot ago. */
  predicate Stayed(run: seq<Tick>, j: nat)
    requires j < |run|
  {
    j < run[|run| - 1].length && (j == 0 || Stayed(run[..|run| - 1], j - 1))
  }

  /** The reading of j snapshots ago if it has stayed in the window, and zero otherwise. */
  function ReadingBack(run: seq<Tick>, k: string, j: nat): nat {
    if j < |run| && Stayed(run, j) then Rate(run[|run| - 1 - j].active, k) else 0
  }

  lemma {:induction false} ReadingBackStep(run: seq<Tick>, k: string, j: nat)
    requires run != [] && 0 < j < run[|run| - 1].length
    ensures ReadingBack(run, k, j) == ReadingBack(run[..|run| - 1], k, j - 1)
  {
    if j < |run| {
      assert run[..|run| - 1][|run| - 1 - j] == run[|run| - 1 - j];
    }
  }

  lemma {:induction false} NothingFurtherBack(run: seq<Tick>, k: string, j: nat)
    ensures j >= |Dense(run, k)| ==> ReadingBack(run, k, j) == 0
  {
    assert run != [] ==> |Dense(run, k)| == run[|run| - 1].length;
  }

  lemma {:induction false} DenseLength(run: seq<Tick>, k: string)
    ensures |Dense(run, k)| == if run == [] then 0 else run[|run| - 1].length
  {
  }

  /** Windows are aligned: j places from the right edge every window holds its reading of j snapshots
      ago, however often the length has changed, and zero where there is none. */
  lemma {:induction false} WindowsAreAligned(run: seq<Tick>, k: string, j: nat)
    requires j < |Dense(run, k)|
    ensures Dense(run, k)[|Dense(run, k)| - 1 - j] == ReadingBack(run, k, j)
  {
    var front, t := run[..|run| - 1], run[|run| - 1];
    var d := Dense(front, k);
    DenseLength(run, k);
    FitAt(d, Rate(t.active, k), t.length, j);
    if j > 0 {
      ReadingBackStep(run, k, j);
      if j - 1 < |d| {
        WindowsAreAligned(front, k, j - 1);
      } else {
        NothingFurtherBack(front, k, j - 1);
      }
    }
  }

  /** The same of the sparse windows: what is shown of a key, j places from the right edge. */
  lemma {:induction false} RefinedReadsBack(history: map<string, seq<nat>>, run: seq<Tick>, k: string, j: nat)
    requires Refines(history, run) && run != [] && j < run[|run| - 1].length
    ensures var n := run[|run| - 1].length;
            |View(history, k, n)| == n && View(history, k, n)[n - 1 - j] == ReadingBack(run, k, j)
  {
    hide Refines, Dense, ReadingBack, View;
    SparseShowsDense(history, run, k);
    DenseLength(run, k);
    WindowsAreAligned(run, k, j);
  }

  /** A sample is never lost while every length has had room for it. */
  lemma {:induction false} RoomKeepsSamples(run: seq<Tick>, j: nat)
    requires j < |run| && forall i :: 0 <= i < |run| ==> run[i].length > j
    ensures Stayed(run, j)
  {
    if j > 0 {
      RoomKeepsSamples(run[..|run| - 1], j - 1);
    }
  }
}
