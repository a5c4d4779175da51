/**
 What one reporting tick makes of its samples, as a function: the tally of groups and totals.
 Group members are a multiset here; Aggregator keeps them in a list and is proved to agree.
 */
module Grouping {
  import opened Basics
  import opened Sampling
  import opened ProcessResolver

  datatype PidEntry = PidEntry(pid: Tgid, comm: string, rx: real, tx: real)

  datatype Summary = Summary(
    name: string, exePath: string, namePid: Tgid,
    desktopId: string, icon: string, desktopPid: Tgid,
    rx: real, tx: real, pids: multiset<PidEntry>)

  /** One sample as the loop of update() sees it: its rates, whether any byte moved, and what
      resolve() answered. */
  datatype Reading = Reading(tgid: Tgid, comm: string, rx: real, tx: real, moved: bool, info: Option<ProcInfo>) {
    function Of(d: Direction): real {
      match d
      case Rx => rx
      case Tx => tx
    }
  }

  /** Answers are well formed, no process has pid 0, and a sample that did not move has no rate. */
  ghost predicate SaneReading(r: Reading) {
    && (r.info.Some? ==> WellFormed(r.info.value) && r.tgid != 0)
    && (!r.moved ==> r.rx == 0.0 && r.tx == 0.0)
  }

  ghost predicate Sane(rs: seq<Reading>) {
    && (forall i :: 0 <= i < |rs| ==> SaneReading(rs[i]))
    && (forall i, j :: 0 <= i < j < |rs| ==> rs[i].tgid != rs[j].tgid)
  }

  function KeyOf(s: Reading): string {
    var info := s.info;
    if info.Some? then info.value.appKey else "comm:" + s.comm
  }

  function NameOf(s: Reading): string {
    var info := s.info;
    if info.Some? then info.value.name else s.comm
  }

  function ExeOf(s: Reading): string {
    var info := s.info;
    if info.Some? then info.value.exePath else ""
  }

  function CommOf(s: Reading): string {
    var info := s.info;
    if info.Some? then info.value.comm else s.comm
  }

  predicate HasDesktop(s: Reading) {
    var info := s.info;
    info.Some? && info.value.desktopId != ""
  }

  function Member(s: Reading): PidEntry {
    PidEntry(s.tgid, CommOf(s), s.Of(Rx), s.Of(Tx))
  }

  /** One sample joins its group. A dead process that takes over the name leaves exePath as it was. */
  function Join(prior: Option<Summary>, s: Reading): Summary {
    var info := s.info;
    var g := match prior case None => Summary("", "", 0, "", "", 0, 0.0, 0.0, multiset{}) case Some(x) => x;
    var leads := prior.None? || s.tgid < g.namePid;
    var shows := HasDesktop(s) && (g.desktopPid == 0 || s.tgid < g.desktopPid);
    Summary(
      if leads then NameOf(s) else g.name,
      if leads && info.Some? then info.value.exePath else g.exePath,
      if leads then s.tgid else g.namePid,
      if shows then info.value.desktopId else g.desktopId,
      if shows then info.value.icon else g.icon,
      if shows then s.tgid else g.desktopPid,
      g.rx + s.Of(Rx),
      g.tx + s.Of(Tx),
      g.pids + multiset{Member(s)})
  }

  datatype Tally = Tally(groups: map<string, Summary>, totalRx: real, totalTx: real)

  function Get(groups: map<string, Summary>, k: string): Option<Summary> {
    if k in groups then Some(groups[k]) else None
  }

  function Place(groups: map<string, Summary>, s: Reading): map<string, Summary> {
    if s.moved then groups[KeyOf(s) := Join(Get(groups, KeyOf(s)), s)] else groups
  }

  function Count(y: Tally, s: Reading): Tally {
    Tally(Place(y.groups, s), y.totalRx + s.Of(Rx), y.totalTx + s.Of(Tx))
  }

  function TallyOf(samples: seq<Reading>): Tally {
    if samples == [] then Tally(map[], 0.0, 0.0)
    else Count(TallyOf(samples[..|samples| - 1]), samples[|samples| - 1])
  }

  // ---------------------------------------------------------------------------------------------
  // The order in which the map hands out its elements does not matter
  // ---------------------------------------------------------------------------------------------

  lemma {:induction false} InfoIsWellFormed(s: Reading)
    requires SaneReading(s)
    ensures s.info.Some? ==> WellFormed(s.info.value)
    ensures s.info.None? ==> StartsWith(KeyOf(s), "comm:") && KeyOf(s) == "comm:" + s.comm
    ensures s.info.Some? ==> s.tgid != 0
    ensures StartsWith(KeyOf(s), "comm:") ==>
              KeyOf(s) == "comm:" + NameOf(s) && ExeOf(s) == "" && !HasDesktop(s)
  {
    assert ("comm:" + s.comm)[..5] == "comm:";
  }

  /** What holds of a group while it is being filled, and what makes the conditional write of
      exePath harmless: a dead process joins comm groups only, and those have no exePath. */
  ghost predicate Settled(groups: map<string, Summary>) {
    forall k :: k in groups && StartsWith(k, "comm:") ==>
      k == "comm:" + groups[k].name && groups[k].exePath == "" && groups[k].desktopPid == 0
      && groups[k].desktopId == "" && groups[k].icon == ""
  }

  /** No pid on record in the group is s's. */
  ghost predicate Apart(g: Summary, s: Reading) {
    g.namePid != s.tgid && (s.tgid != 0 ==> g.desktopPid != s.tgid)
  }

  ghost predicate AllApart(groups: map<string, Summary>, s: Reading) {
    forall k :: k in groups ==> Apart(groups[k], s)
  }

  lemma {:induction false} CommSuffix(x: string, y: string)
    requires "comm:" + x == "comm:" + y
    ensures x == y
  {
    assert ("comm:" + x)[5..] == x && ("comm:" + y)[5..] == y;
  }

  lemma {:induction false} PlaceSettles(groups: map<string, Summary>, s: Reading)
    requires SaneReading(s) && Settled(groups)
    ensures Settled(Place(groups, s))
  {
    InfoIsWellFormed(s);
    var k := KeyOf(s);
    if k in groups && StartsWith(k, "comm:") {
      CommSuffix(groups[k].name, NameOf(s));
    }
  }

  lemma {:induction false} PlaceApart(groups: map<string, Summary>, s: Reading, r: Reading)
    requires AllApart(groups, r) && s.tgid != r.tgid
    ensures AllApart(Place(groups, s), r)
  {
    if s.moved {
      var k := KeyOf(s);
      assert Apart(Join(Get(groups, k), s), r);
    }
  }

  /** Two members may join one group in either order. */
  lemma {:induction false} JoinCommutes(g: Option<Summary>, a: Reading, b: Reading)
    requires SaneReading(a) && SaneReading(b) && a.tgid != b.tgid && KeyOf(a) == KeyOf(b)
    requires g.Some? ==> Apart(g.value, a) && Apart(g.value, b)
    requires g.Some? && StartsWith(KeyOf(a), "comm:") ==>
               KeyOf(a) == "comm:" + g.value.name && g.value.exePath == ""
    ensures Join(Some(Join(g, a)), b) == Join(Some(Join(g, b)), a)
  {
    InfoIsWellFormed(a);
    InfoIsWellFormed(b);
    var ab, ba := Join(Some(Join(g, a)), b), Join(Some(Join(g, b)), a);
    assert ab.pids == ba.pids;
    if StartsWith(KeyOf(a), "comm:") {
      CommSuffix(NameOf(a), NameOf(b));
      assert ab.exePath == "" && ba.exePath == "";
    }
  }

  lemma {:induction false} UpdatesCommute(m: map<string, Summary>, k: string, x: Summary, k': string, x': Summary)
    requires k != k'
    ensures m[k := x][k' := x'] == m[k' := x'][k := x]
  {
  }

  lemma {:induction false} PlaceInOneGroup(groups: map<string, Summary>, a: Reading, b: Reading)
    requires SaneReading(a) && SaneReading(b) && a.tgid != b.tgid
    requires Settled(groups) && AllApart(groups, a) && AllApart(groups, b)
    requires a.moved && b.moved && KeyOf(a) == KeyOf(b)
    ensures Place(Place(groups, a), b) == Place(Place(groups, b), a)
  {
    var k := KeyOf(a);
    var g := Get(groups, k);
    if k in groups {
      assert Apart(groups[k], a) && Apart(groups[k], b);
    }
    JoinCommutes(g, a, b);
    assert Place(Place(groups, a), b) == groups[k := Join(Some(Join(g, a)), b)];
    assert Place(Place(groups, b), a) == groups[k := Join(Some(Join(g, b)), a)];
  }

  lemma {:induction false} PlaceCommutes(groups: map<string, Summary>, a: Reading, b: Reading)
    requires SaneReading(a) && SaneReading(b) && a.tgid != b.tgid
    requires Settled(groups) && AllApart(groups, a) && AllApart(groups, b)
    ensures Place(Place(groups, a), b) == Place(Place(groups, b), a)
  {
    if a.moved && b.moved {
      if KeyOf(a) == KeyOf(b) {
        PlaceInOneGroup(groups, a, b);
      } else {
        UpdatesCommute(groups, KeyOf(a), Join(Get(groups, KeyOf(a)), a), KeyOf(b), Join(Get(groups, KeyOf(b)), b));
      }
    }
  }

  lemma {:induction false} CountCommutes(y: Tally, a: Reading, b: Reading)
    requires SaneReading(a) && SaneReading(b) && a.tgid != b.tgid
    requires Settled(y.groups) && AllApart(y.groups, a) && AllApart(y.groups, b)
    ensures Count(Count(y, a), b) == Count(Count(y, b), a)
  {
    PlaceCommutes(y.groups, a, b);
  }

  lemma {:induction false} TallySettles(samples: seq<Reading>)
    requires Sane(samples)
    ensures Settled(TallyOf(samples).groups)
  {
    if samples != [] {
      TallySettles(samples[..|samples| - 1]);
      PlaceSettles(TallyOf(samples[..|samples| - 1]).groups, samples[|samples| - 1]);
    }
  }

  lemma {:induction false} TallyApart(samples: seq<Reading>, r: Reading)
    requires forall i :: 0 <= i < |samples| ==> samples[i].tgid != r.tgid
    ensures AllApart(TallyOf(samples).groups, r)
  {
    if samples != [] {
      TallyApart(samples[..|samples| - 1], r);
      PlaceApart(TallyOf(samples[..|samples| - 1]).groups, samples[|samples| - 1], r);
    }
  }

  function Without(samples: seq<Reading>, i: nat): seq<Reading>
    requires i < |samples|
  {
    samples[..i] + samples[i + 1..]
  }

  lemma {:induction false} WithoutBag(samples: seq<Reading>, i: nat)
    requires i < |samples|
    ensures multiset(Without(samples, i)) == multiset(samples) - multiset{samples[i]}
  {
    assert samples == samples[..i] + [samples[i]] + samples[i + 1..];
  }

  lemma {:induction false} WithoutIsSane(samples: seq<Reading>, i: nat)
    requires Sane(samples) && i < |samples|
    ensures Sane(Without(samples, i))
    ensures forall j :: 0 <= j < |Without(samples, i)| ==> Without(samples, i)[j].tgid != samples[i].tgid
    ensures multiset(Without(samples, i)) == multiset(samples) - multiset{samples[i]}
  {
    hide SaneReading;
    WithoutBag(samples, i);
    var rest := Without(samples, i);
    forall j | 0 <= j < |rest| ensures rest[j] == samples[if j < i then j else j + 1] {
    }
  }

  lemma {:induction false} TallyLast(samples: seq<Reading>, s: Reading)
    ensures TallyOf(samples + [s]) == Count(TallyOf(samples), s)
  {
    assert (samples + [s])[..|samples|] == samples;
  }

  /** Counting s and then b after rest, where front is rest with s counted somewhere inside. */
  lemma {:induction false} SwapLast(rest: seq<Reading>, front: seq<Reading>, s: Reading, b: Reading)
    requires Sane(rest + [b]) && SaneReading(s) && s.tgid != b.tgid
    requires forall j :: 0 <= j < |rest| ==> rest[j].tgid != s.tgid
    requires TallyOf(front) == Count(TallyOf(rest), s)
    ensures TallyOf(front + [b]) == Count(TallyOf(rest + [b]), s)
  {
    assert forall j :: 0 <= j < |rest| ==> (rest + [b])[j] == rest[j];
    assert (rest + [b])[|rest|] == b;
    TallySettles(rest);
    TallyApart(rest, s);
    TallyApart(rest, b);
    CountCommutes(TallyOf(rest), s, b);
    TallyLast(rest, b);
    TallyLast(front, b);
  }

  /** Counting a sample early or last makes no difference. */
  lemma {:induction false} CountLast(samples: seq<Reading>, i: nat)
    requires Sane(samples) && i < |samples|
    ensures TallyOf(samples) == Count(TallyOf(Without(samples, i)), samples[i])
  {
    var n := |samples| - 1;
    var front := samples[..n];
    if i == n {
      assert Without(samples, i) == front;
    } else {
      assert front[i] == samples[i] && samples[i].tgid != samples[n].tgid;
      var rest, others := Without(front, i), Without(samples, i);
      WithoutIsSane(front, i);
      WithoutIsSane(samples, i);
      assert others == rest + [samples[n]];
      assert samples == front + [samples[n]];
      CountLast(front, i);
      SwapLast(rest, front, samples[i], samples[n]);
    }
  }

  /** The tally depends on which samples were taken, not on the order they were handed out in. */
  lemma {:induction false} TallyIgnoresOrder(p: seq<Reading>, q: seq<Reading>)
    requires Sane(p) && Sane(q) && multiset(p) == multiset(q)
    ensures TallyOf(p) == TallyOf(q)
    decreases |p|
  {
    if p == [] {
      assert |multiset(q)| == 0;
    } else {
      var n := |p| - 1;
      var i := TakeOut(p, q);
      assert p[..n] == Without(p, n);
      WithoutIsSane(p, n);
      WithoutIsSane(q, i);
      TallyIgnoresOrder(p[..n], Without(q, i));
      CountLast(q, i);
    }
  }

  // ---------------------------------------------------------------------------------------------
  // What a group says
  // ---------------------------------------------------------------------------------------------

  predicate Contributes(s: Reading, k: string) {
    s.moved && KeyOf(s) == k
  }

  /** Rates of the samples whose group is among the keys. */
  function SumOver(samples: seq<Reading>, keys: set<string>, d: Direction): real
  {
    if samples == [] then 0.0
    else
      var s := samples[|samples| - 1];
      SumOver(samples[..|samples| - 1], keys, d)
      + if s.moved && KeyOf(s) in keys then s.Of(d) else 0.0
  }

  function MembersOf(samples: seq<Reading>, k: string): multiset<PidEntry>
  {
    if samples == [] then multiset{}
    else
      var s := samples[|samples| - 1];
      MembersOf(samples[..|samples| - 1], k)
      + if Contributes(s, k) then multiset{Member(s)} else multiset{}
  }

  /** samples[i] is the lowest pid that contributes to k. */
  ghost predicate Leads(samples: seq<Reading>, k: string, i: int) {
    && 0 <= i < |samples| && Contributes(samples[i], k)
    && forall j :: 0 <= j < |samples| && Contributes(samples[j], k) ==> samples[i].tgid <= samples[j].tgid
  }

  /** samples[i] is the lowest pid that contributes to k and has a desktop id. */
  ghost predicate Shows(samples: seq<Reading>, k: string, i: int) {
    && 0 <= i < |samples| && Contributes(samples[i], k) && HasDesktop(samples[i])
    && forall j :: 0 <= j < |samples| && Contributes(samples[j], k) && HasDesktop(samples[j]) ==>
         samples[i].tgid <= samples[j].tgid
  }

  ghost predicate Desktopless(samples: seq<Reading>, k: string) {
    forall j :: 0 <= j < |samples| && Contributes(samples[j], k) ==> !HasDesktop(samples[j])
  }

  ghost predicate IsNamer(samples: seq<Reading>, k: string, g: Summary, i: int) {
    && Leads(samples, k, i)
    && g.namePid == samples[i].tgid && g.name == NameOf(samples[i]) && g.exePath == ExeOf(samples[i])
  }

  ghost predicate IsShower(samples: seq<Reading>, k: string, g: Summary, i: int) {
    && Shows(samples, k, i)
    && g.desktopPid == samples[i].tgid
    && g.desktopId == samples[i].info.value.desktopId && g.icon == samples[i].info.value.icon
  }

  ghost predicate NamedByLowest(samples: seq<Reading>, k: string, g: Summary) {
    exists i :: IsNamer(samples, k, g, i)
  }

  ghost predicate ShownByLowest(samples: seq<Reading>, k: string, g: Summary) {
    if Desktopless(samples, k) then g.desktopId == "" && g.icon == "" && g.desktopPid == 0
    else exists i :: IsShower(samples, k, g, i)
  }

  /** The last reading joins: the group of its key before and after. */
  ghost predicate Grows(samples: seq<Reading>, k: string, before: Option<Summary>, after: Summary) {
    && samples != [] && Contributes(samples[|samples| - 1], k)
    && after == Join(before, samples[|samples| - 1])
    && (before.None? ==> forall j :: 0 <= j < |samples| - 1 ==> !Contributes(samples[j], k))
  }

  lemma {:induction false} NameStep(samples: seq<Reading>, k: string, before: Option<Summary>, after: Summary)
    requires Sane(samples) && Grows(samples, k, before, after)
    requires before.Some? ==> NamedByLowest(samples[..|samples| - 1], k, before.value)
    requires before.Some? && StartsWith(k, "comm:") ==> before.value.exePath == ""
    ensures NamedByLowest(samples, k, after)
  {
    var n := |samples| - 1;
    var front, s := samples[..n], samples[n];
    InfoIsWellFormed(s);
    assert forall j :: 0 <= j < n ==> front[j] == samples[j];
    if before.Some? {
      var i :| IsNamer(front, k, before.value, i);
      assert samples[i].tgid != s.tgid;
      assert IsNamer(samples, k, after, if s.tgid < samples[i].tgid then n else i);
    } else {
      assert IsNamer(samples, k, after, n);
    }
  }

  lemma {:induction false} DesktopStep(samples: seq<Reading>, k: string, before: Option<Summary>, after: Summary)
    requires Sane(samples) && Grows(samples, k, before, after)
    requires before.Some? ==> ShownByLowest(samples[..|samples| - 1], k, before.value)
    ensures ShownByLowest(samples, k, after)
  {
    var n := |samples| - 1;
    var front, s := samples[..n], samples[n];
    InfoIsWellFormed(s);
    assert forall j :: 0 <= j < n ==> front[j] == samples[j];
    if before.Some? && !Desktopless(front, k) {
      var i :| IsShower(front, k, before.value, i);
      assert samples[i].tgid != s.tgid && samples[i].tgid != 0;
      assert Contributes(samples[i], k) && HasDesktop(samples[i]);
      assert IsShower(samples, k, after, if HasDesktop(s) && s.tgid < samples[i].tgid then n else i);
    } else if HasDesktop(s) {
      assert Contributes(samples[n], k);
      assert IsShower(samples, k, after, n);
    } else {
      assert Desktopless(samples, k);
    }
  }

  ghost predicate Holds(samples: seq<Reading>, k: string, g: Summary) {
    && g.rx == SumOver(samples, {k}, Rx)
    && g.tx == SumOver(samples, {k}, Tx)
    && g.pids == MembersOf(samples, k)
  }

  lemma {:induction false} HoldsStep(samples: seq<Reading>, k: string, before: Option<Summary>, after: Summary)
    requires Grows(samples, k, before, after)
    requires before.Some? ==> Holds(samples[..|samples| - 1], k, before.value)
    ensures Holds(samples, k, after)
  {
    var n := |samples| - 1;
    if before.None? {
      forall j | 0 <= j < n ensures !Contributes(samples[..n][j], k) {
        assert samples[..n][j] == samples[j];
      }
      NoneContributes(samples[..n], k);
    }
  }

  ghost predicate Describes(samples: seq<Reading>, k: string, g: Summary) {
    && NamedByLowest(samples, k, g)
    && ShownByLowest(samples, k, g)
    && Holds(samples, k, g)
  }

  lemma {:induction false} DescribesIdle(samples: seq<Reading>, k: string, g: Summary)
    requires samples != [] && !Contributes(samples[|samples| - 1], k)
    requires Describes(samples[..|samples| - 1], k, g)
    ensures Describes(samples, k, g)
  {
    var n := |samples| - 1;
    var front := samples[..n];
    assert forall j :: 0 <= j < n ==> front[j] == samples[j];
    var i :| IsNamer(front, k, g, i);
    assert IsNamer(samples, k, g, i);
    if Desktopless(front, k) {
      assert Desktopless(samples, k);
    } else {
      var m :| IsShower(front, k, g, m);
      assert Contributes(samples[m], k) && HasDesktop(samples[m]);
      assert IsShower(samples, k, g, m);
    }
  }

  /** There is a group for a key exactly when something contributes to it. */
  lemma {:induction false} GroupExists(samples: seq<Reading>, k: string)
    ensures k in TallyOf(samples).groups <==> exists i :: 0 <= i < |samples| && Contributes(samples[i], k)
  {
    if samples != [] {
      var n := |samples| - 1;
      GroupExists(samples[..n], k);
      if i :| 0 <= i < n && Contributes(samples[..n][i], k) {
        assert Contributes(samples[i], k);
      }
      if i :| 0 <= i < n && Contributes(samples[i], k) {
        assert Contributes(samples[..n][i], k);
      }
    }
  }

  lemma {:induction false} GroupGrows(samples: seq<Reading>, k: string)
    requires Sane(samples) && samples != [] && Contributes(samples[|samples| - 1], k)
    requires var before := TallyOf(samples[..|samples| - 1]).groups;
             k in before ==> Describes(samples[..|samples| - 1], k, before[k])
    ensures k in TallyOf(samples).groups && Describes(samples, k, TallyOf(samples).groups[k])
  {
    hide NamedByLowest, ShownByLowest, Holds;
    var n := |samples| - 1;
    var front := samples[..n];
    var before, after := Get(TallyOf(front).groups, k), TallyOf(samples).groups[k];
    GroupExists(front, k);
    if before.None? {
      forall j | 0 <= j < n ensures !Contributes(samples[j], k) {
        assert samples[j] == front[j];
      }
    }
    TallySettles(front);
    assert Grows(samples, k, before, after);
    NameStep(samples, k, before, after);
    DesktopStep(samples, k, before, after);
    HoldsStep(samples, k, before, after);
  }

  /** Every group is named by its lowest contributing pid, shows the desktop id and icon of the
      lowest one that has any, holds exactly its contributors and sums their rates; and there is a
      group for a key exactly when something contributes to it. */
  lemma {:induction false} GroupsDescribeSamples(samples: seq<Reading>, k: string)
    requires Sane(samples)
    ensures k in TallyOf(samples).groups
       <==> exists i :: 0 <= i < |samples| && Contributes(samples[i], k)
    ensures k in TallyOf(samples).groups ==> Describes(samples, k, TallyOf(samples).groups[k])
  {
    hide Describes;
    GroupExists(samples, k);
    if samples != [] {
      GroupsDescribeSamples(samples[..|samples| - 1], k);
      if Contributes(samples[|samples| - 1], k) {
        GroupGrows(samples, k);
      } else if k in TallyOf(samples).groups {
        DescribesIdle(samples, k, TallyOf(samples).groups[k]);
      }
    }
  }

  lemma {:induction false} NoneContributes(samples: seq<Reading>, k: string)
    requires forall i :: 0 <= i < |samples| ==> !Contributes(samples[i], k)
    ensures SumOver(samples, {k}, Rx) == 0.0 && SumOver(samples, {k}, Tx) == 0.0
    ensures MembersOf(samples, k) == multiset{}
  {
    if samples != [] {
      NoneContributes(samples[..|samples| - 1], k);
    }
  }

  // ---------------------------------------------------------------------------------------------
  // Conservation
  // ---------------------------------------------------------------------------------------------

  lemma {:induction false} SumOverUnion(samples: seq<Reading>, keys: set<string>, k: string, d: Direction)
    requires k !in keys
    ensures SumOver(samples, keys + {k}, d) == SumOver(samples, keys, d) + SumOver(samples, {k}, d)
  {
    if samples != [] {
      SumOverUnion(samples[..|samples| - 1], keys, k, d);
    }
  }

  lemma {:induction false} SumOverNothing(samples: seq<Reading>, d: Direction)
    ensures SumOver(samples, {}, d) == 0.0
  {
    if samples != [] {
      SumOverNothing(samples[..|samples| - 1], d);
    }
  }

  /** The totals are the rates of the groups together: a sample that did not move adds nothing. */
  lemma {:induction false} TotalsAreGroups(samples: seq<Reading>, keys: set<string>)
    requires Sane(samples) && TallyOf(samples).groups.Keys <= keys
    ensures TallyOf(samples).totalRx == SumOver(samples, keys, Rx)
    ensures TallyOf(samples).totalTx == SumOver(samples, keys, Tx)
  {
    if samples != [] {
      var front := samples[..|samples| - 1];
      assert TallyOf(front).groups.Keys <= keys;
      TotalsAreGroups(front, keys);
    }
  }

  lemma {:induction false} MemberSource(samples: seq<Reading>, k: string, p: PidEntry) returns (i: nat)
    requires p in MembersOf(samples, k)
    ensures i < |samples| && Contributes(samples[i], k) && Member(samples[i]) == p
  {
    var n := |samples| - 1;
    if Contributes(samples[n], k) && Member(samples[n]) == p {
      i := n;
    } else {
      i := MemberSource(samples[..n], k, p);
    }
  }

  lemma {:induction false} SampleIsMember(samples: seq<Reading>, k: string, i: nat)
    requires i < |samples| && Contributes(samples[i], k)
    ensures Member(samples[i]) in MembersOf(samples, k)
  {
    if i < |samples| - 1 {
      SampleIsMember(samples[..|samples| - 1], k, i);
    }
  }

  lemma {:induction false} MembersAreSamples(samples: seq<Reading>, k: string, p: PidEntry)
    ensures p in MembersOf(samples, k) <==>
              exists i :: 0 <= i < |samples| && Contributes(samples[i], k) && Member(samples[i]) == p
    ensures (forall i :: 0 <= i < |samples| ==> samples[i].tgid != p.pid) ==> MembersOf(samples, k)[p] == 0
  {
    hide MembersOf;
    if p in MembersOf(samples, k) {
      var i := MemberSource(samples, k, p);
    }
    if i :| 0 <= i < |samples| && Contributes(samples[i], k) && Member(samples[i]) == p {
      SampleIsMember(samples, k, i);
    }
  }

  /** A process that moved bytes is a member of the group of its key, once, and of no other. */
  lemma {:induction false} InExactlyOneGroup(samples: seq<Reading>, i: nat, k: string, p: PidEntry)
    requires Sane(samples) && i < |samples| && samples[i].moved
    requires k in TallyOf(samples).groups && p.pid == samples[i].tgid
    ensures KeyOf(samples[i]) in TallyOf(samples).groups
    ensures TallyOf(samples).groups[k].pids[p]
         == if k == KeyOf(samples[i]) && p == Member(samples[i]) then 1 else 0
  {
    GroupsDescribeSamples(samples, KeyOf(samples[i]));
    assert Contributes(samples[i], KeyOf(samples[i]));
    GroupsDescribeSamples(samples, k);
    Multiplicity(samples, i, k, p);
  }

  lemma {:induction false} Multiplicity(samples: seq<Reading>, i: nat, k: string, p: PidEntry)
    requires Sane(samples) && i < |samples| && p.pid == samples[i].tgid
    ensures MembersOf(samples, k)[p]
         == if Contributes(samples[i], k) && p == Member(samples[i]) then 1 else 0
  {
    var n := |samples| - 1;
    var front := samples[..n];
    if i == n {
      MembersAreSamples(front, k, p);
      assert forall j :: 0 <= j < |front| ==> front[j].tgid != p.pid;
    } else {
      assert front[i] == samples[i] && samples[n].tgid != p.pid;
      Multiplicity(front, i, k, p);
    }
  }

  // ---------------------------------------------------------------------------------------------
  // From what resolve() answered to the groups
  // ---------------------------------------------------------------------------------------------

  /** The key a process is counted under: the appKey of its answer, or its comm if there is no answer. */
  ghost predicate CountedUnder(r: Reading, k: string) {
    match r.info
    case Some(info) => k == info.appKey
    case None => k == "comm:" + r.comm
  }

  /** What is listed of a process in a group. */
  ghost predicate ListedAs(r: Reading, p: PidEntry) {
    && p.pid == r.tgid && p.rx == r.rx && p.tx == r.tx
    && match r.info
       case Some(info) => p.comm == info.comm
       case None => p.comm == r.comm
  }

  /** The members of a group are exactly the processes that moved bytes and are counted under its key, each
      once and as measured. */
  lemma {:induction false} MembersByAnswer(rs: seq<Reading>, k: string, p: PidEntry)
    requires Sane(rs)
    ensures k in TallyOf(rs).groups
       <==> exists i :: 0 <= i < |rs| && rs[i].moved && CountedUnder(rs[i], k)
    ensures k in TallyOf(rs).groups ==>
              var times := TallyOf(rs).groups[k].pids[p];
              && times <= 1
              && (times == 1 <==>
                    exists i :: 0 <= i < |rs| && rs[i].moved && CountedUnder(rs[i], k) && ListedAs(rs[i], p))
  {
    GroupsDescribeSamples(rs, k);
    forall i | 0 <= i < |rs| ensures Contributes(rs[i], k) <==> rs[i].moved && CountedUnder(rs[i], k) {
    }
    if k in TallyOf(rs).groups {
      MembersAreSamples(rs, k, p);
      if i :| 0 <= i < |rs| && Contributes(rs[i], k) && Member(rs[i]) == p {
        Multiplicity(rs, i, k, p);
        assert ListedAs(rs[i], p);
      }
      if i :| 0 <= i < |rs| && rs[i].moved && CountedUnder(rs[i], k) && ListedAs(rs[i], p) {
        assert Contributes(rs[i], k) && Member(rs[i]) == p;
      }
    }
  }

  /** Nothing else that is counted under the key has a lower pid. */
  ghost predicate LowestOf(rs: seq<Reading>, k: string, i: int) {
    && 0 <= i < |rs| && rs[i].moved && CountedUnder(rs[i], k)
    && forall j :: 0 <= j < |rs| && rs[j].moved && CountedUnder(rs[j], k) ==> rs[i].tgid <= rs[j].tgid
  }

  /** Nothing else that is counted under the key and has a desktop id has a lower pid. */
  ghost predicate LowestWithDesktop(rs: seq<Reading>, k: string, i: int) {
    && 0 <= i < |rs| && rs[i].moved && CountedUnder(rs[i], k)
    && rs[i].info.Some? && rs[i].info.value.desktopId != ""
    && (forall j :: (0 <= j < |rs| && rs[j].moved && CountedUnder(rs[j], k)
                     && rs[j].info.Some? && rs[j].info.value.desktopId != "") ==> rs[i].tgid <= rs[j].tgid)
  }

  /** A group bears the name and the path that were answered for its lowest pid, and the desktop id and the
      icon that were answered for its lowest pid with a desktop id. */
  lemma {:induction false} IdentityByAnswer(rs: seq<Reading>, k: string, i: nat)
    requires Sane(rs) && k in TallyOf(rs).groups
    ensures exists m :: LowestOf(rs, k, m)
    ensures LowestOf(rs, k, i) ==>
              var g := TallyOf(rs).groups[k];
              match rs[i].info
              case Some(info) => g.name == info.name && g.exePath == info.exePath
              case None => g.name == rs[i].comm && g.exePath == ""
    ensures LowestWithDesktop(rs, k, i) ==>
              var g := TallyOf(rs).groups[k];
              g.desktopId == rs[i].info.value.desktopId && g.icon == rs[i].info.value.icon
    ensures (forall j :: 0 <= j < |rs| && rs[j].moved && CountedUnder(rs[j], k) && rs[j].info.Some? ==>
              rs[j].info.value.desktopId == "") ==>
              TallyOf(rs).groups[k].desktopId == "" && TallyOf(rs).groups[k].icon == ""
  {
    var g := TallyOf(rs).groups[k];
    GroupsDescribeSamples(rs, k);
    forall j | 0 <= j < |rs| ensures Contributes(rs[j], k) <==> rs[j].moved && CountedUnder(rs[j], k) {
    }
    var namer :| IsNamer(rs, k, g, namer);
    assert LowestOf(rs, k, namer);
    if LowestOf(rs, k, i) {
      assert rs[namer].tgid == rs[i].tgid && namer == i;
    }
    if LowestWithDesktop(rs, k, i) {
      assert Contributes(rs[i], k) && HasDesktop(rs[i]);
      var m :| IsShower(rs, k, g, m);
      assert rs[m].tgid == rs[i].tgid && m == i;
    }
  }
}
