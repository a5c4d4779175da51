/** The published document and the rounding that goes into it. */
module JsonWriter {
  import opened Basics
  import opened Sampling
  import opened Grouping
  import opened Sorting
  import opened Aggregation

  datatype PidDoc = PidDoc(pid: Tgid, comm: string, rx: nat, tx: nat)

  datatype AppDoc = AppDoc(
    key: string, name: string, desktopId: Option<string>, icon: Option<string>, exe: Option<string>,
    rx: nat, tx: nat, pids: seq<PidDoc>)

  /** state.json. A reader takes v, seq, ts and interval as it finds them. */
  datatype Document = Document(
    v: int, serial: int, ts: real, interval: real, totalRx: nat, totalTx: nat, apps: seq<AppDoc>)

  function OrNull(s: string): Option<string> {
    if s == "" then None else Some(s)
  }

  /** qRound64 of a rate: rates are not negative. */
  function Rounded(x: real): (n: nat)
    requires x >= 0.0
    ensures n as real - 0.5 <= x < n as real + 0.5
  {
    Round(x)
  }

  predicate RatesValid(snapshot: Snapshot) {
    && snapshot.totalRx >= 0.0 && snapshot.totalTx >= 0.0
    && forall a, p :: a in snapshot.apps && p in a.pids ==> p.rx >= 0.0 && p.tx >= 0.0
  }

  function SumPids(pids: seq<PidDoc>, d: Direction): nat {
    if pids == [] then 0
    else SumPids(pids[..|pids| - 1], d) + if d == Rx then pids[|pids| - 1].rx else pids[|pids| - 1].tx
  }

  function SumApps(apps: seq<AppDoc>, d: Direction): nat {
    if apps == [] then 0
    else SumApps(apps[..|apps| - 1], d) + RowRate(apps[|apps| - 1], d)
  }

  function RowRate(a: AppDoc, d: Direction): nat {
    if d == Rx then a.rx else a.tx
  }

  function PidCount(apps: seq<AppDoc>): nat {
    if apps == [] then 0 else PidCount(apps[..|apps| - 1]) + |apps[|apps| - 1].pids|
  }

  /** One member as written. */
  ghost predicate WrittenPid(doc: PidDoc, p: PidEntry) {
    && doc.pid == p.pid && doc.comm == p.comm
    && doc.rx as real - 0.5 <= p.rx < doc.rx as real + 0.5
    && doc.tx as real - 0.5 <= p.tx < doc.tx as real + 0.5
  }

  ghost predicate WrittenPids(docs: seq<PidDoc>, pids: seq<PidEntry>) {
    |docs| == |pids| && forall i :: 0 <= i < |pids| ==> WrittenPid(docs[i], pids[i])
  }

  /** A text as written: null stands for the empty one, and only for that. */
  ghost predicate WrittenText(doc: Option<string>, s: string) {
    if s == "" then doc.None? else doc.Some? && doc.value == s
  }

  /** One row as written: the row's rates are the sums of its members' published rates. */
  ghost predicate WrittenApp(doc: AppDoc, a: AppEntry) {
    && doc.key == a.key && doc.name == a.name
    && WrittenText(doc.desktopId, a.desktopId) && WrittenText(doc.icon, a.icon) && WrittenText(doc.exe, a.exePath)
    && WrittenPids(doc.pids, a.pids)
    && doc.rx == SumPids(doc.pids, Rx) && doc.tx == SumPids(doc.pids, Tx)
  }

  ghost predicate WrittenApps(docs: seq<AppDoc>, apps: seq<AppEntry>) {
    |docs| == |apps| && forall i :: 0 <= i < |apps| ==> WrittenApp(docs[i], apps[i])
  }

  ghost predicate Writes(doc: Document, s: Snapshot) {
    && doc.v == 1 && doc.serial == s.serial && doc.ts == s.timestamp && doc.interval == s.intervalSeconds
    && doc.totalRx as real - 0.5 <= s.totalRx < doc.totalRx as real + 0.5
    && doc.totalTx as real - 0.5 <= s.totalTx < doc.totalTx as real + 0.5
    && WrittenApps(doc.apps, s.apps)
  }

  /** The body of the loop over the applications. */
  method WriteApp(app: AppEntry) returns (row: AppDoc)
    requires forall p :: p in app.pids ==> p.rx >= 0.0 && p.tx >= 0.0
    ensures WrittenApp(row, app)
  {
    var pids: seq<PidDoc> := [];
    var groupRx, groupTx := 0, 0;
    var i := 0;
    while i < |app.pids|
      invariant 0 <= i <= |app.pids| && |pids| == i
      invariant forall j :: 0 <= j < i ==> WrittenPid(pids[j], app.pids[j])
      invariant groupRx == SumPids(pids, Rx) && groupTx == SumPids(pids, Tx)
    {
      var p := app.pids[i];
      var pidRx, pidTx := Rounded(p.rx), Rounded(p.tx);
      groupRx, groupTx := groupRx + pidRx, groupTx + pidTx;
      var row := PidDoc(p.pid, p.comm, pidRx, pidTx);
      assert (pids + [row])[..i] == pids;
      pids := pids + [row];
      i := i + 1;
    }
    row := AppDoc(app.key, app.name, OrNull(app.desktopId), OrNull(app.icon), OrNull(app.exePath),
                  groupRx, groupTx, pids);
  }

  method Write(snapshot: Snapshot) returns (root: Document)
    requires RatesValid(snapshot)
    ensures Writes(root, snapshot)
  {
    var apps: seq<AppDoc> := [];
    var i := 0;
    while i < |snapshot.apps|
      invariant 0 <= i <= |snapshot.apps| && |apps| == i
      invariant forall j :: 0 <= j < i ==> WrittenApp(apps[j], snapshot.apps[j])
    {
      assert snapshot.apps[i] in snapshot.apps;
      var row := WriteApp(snapshot.apps[i]);
      apps := apps + [row];
      i := i + 1;
    }
    root := Document(1, snapshot.serial, snapshot.timestamp, snapshot.intervalSeconds,
                     Rounded(snapshot.totalRx), Rounded(snapshot.totalTx), apps);
  }

  // ---------------------------------------------------------------------------------------------
  // How far the published integers drift
  // ---------------------------------------------------------------------------------------------

  function PidRate(d: Direction): PidEntry -> real {
    (p: PidEntry) => if d == Rx then p.rx else p.tx
  }

  lemma {:induction false} PidDrift(docs: seq<PidDoc>, pids: seq<PidEntry>, d: Direction)
    requires WrittenPids(docs, pids)
    ensures SumPids(docs, d) as real - |docs| as real / 2.0 <= Sum(pids, PidRate(d))
    ensures Sum(pids, PidRate(d)) <= SumPids(docs, d) as real + |docs| as real / 2.0
  {
    if docs != [] {
      var n := |docs| - 1;
      PidDrift(docs[..n], pids[..n], d);
      assert pids == pids[..n] + [pids[n]];
      SumAppend(pids[..n], [pids[n]], PidRate(d));
      assert WrittenPid(docs[n], pids[n]);
      assert Sum([pids[n]], PidRate(d)) == PidRate(d)(pids[n]);
    }
  }

  /** A group's rates are the sums over its members. */
  ghost predicate MembersAddUp(a: AppEntry) {
    a.rx == Sum(a.pids, PidRate(Rx)) && a.tx == Sum(a.pids, PidRate(Tx))
  }

  lemma {:induction false} AppDrift(docs: seq<AppDoc>, apps: seq<AppEntry>, d: Direction)
    requires WrittenApps(docs, apps) && forall i :: 0 <= i < |apps| ==> MembersAddUp(apps[i])
    ensures SumApps(docs, d) as real - PidCount(docs) as real / 2.0 <= Sum(apps, AppRate(d))
    ensures Sum(apps, AppRate(d)) <= SumApps(docs, d) as real + PidCount(docs) as real / 2.0
  {
    if docs != [] {
      var n := |docs| - 1;
      AppDrift(docs[..n], apps[..n], d);
      assert apps == apps[..n] + [apps[n]];
      SumAppend(apps[..n], [apps[n]], AppRate(d));
      assert Sum([apps[n]], AppRate(d)) == AppRate(d)(apps[n]);
      assert WrittenApp(docs[n], apps[n]) && MembersAddUp(apps[n]);
      PidDrift(docs[n].pids, apps[n].pids, d);
      assert AppRate(d)(apps[n]) == Sum(apps[n].pids, PidRate(d));
    }
  }

  function Total(doc: Document, d: Direction): nat {
    if d == Rx then doc.totalRx else doc.totalTx
  }

  // Sums over a multiset of members, to connect a group's members with the list that is written.

  lemma {:induction false} SumIsOrderFree(p: seq<PidEntry>, q: seq<PidEntry>, d: Direction)
    requires multiset(p) == multiset(q)
    ensures Sum(p, PidRate(d)) == Sum(q, PidRate(d))
    decreases |p|
  {
    if p == [] {
      assert |multiset(q)| == 0;
    } else {
      var n := |p| - 1;
      var i := TakeOut(p, q);
      SumIsOrderFree(p[..n], q[..i] + q[i + 1..], d);
      assert p == p[..n] + [p[n]] && q == q[..i] + ([q[i]] + q[i + 1..]);
      SumAppend(p[..n], [p[n]], PidRate(d));
      SumAppend(q[..i], [q[i]] + q[i + 1..], PidRate(d));
      SumAppend([q[i]], q[i + 1..], PidRate(d));
      SumAppend(q[..i], q[i + 1..], PidRate(d));
    }
  }

  /** The members of a key as a list. */
  function MemberList(rs: seq<Reading>, k: string): seq<PidEntry> {
    if rs == [] then []
    else
      var r := rs[|rs| - 1];
      MemberList(rs[..|rs| - 1], k) + if Contributes(r, k) then [Member(r)] else []
  }

  lemma {:induction false} SumOne(p: PidEntry, d: Direction)
    ensures Sum([p], PidRate(d)) == if d == Rx then p.rx else p.tx
  {
    assert [p][1..] == [];
  }

  lemma {:induction false} MemberListSums(rs: seq<Reading>, k: string, d: Direction)
    ensures multiset(MemberList(rs, k)) == MembersOf(rs, k)
    ensures Sum(MemberList(rs, k), PidRate(d)) == SumOver(rs, {k}, d)
  {
    if rs != [] {
      var front, r := rs[..|rs| - 1], rs[|rs| - 1];
      MemberListSums(front, k, d);
      if Contributes(r, k) {
        SumAppend(MemberList(front, k), [Member(r)], PidRate(d));
        SumOne(Member(r), d);
        assert SumOver(rs, {k}, d) == SumOver(front, {k}, d) + r.Of(d);
      } else {
        assert MemberList(rs, k) == MemberList(front, k);
        assert SumOver(rs, {k}, d) == SumOver(front, {k}, d);
      }
    }
  }

  lemma {:induction false} PublishedMembersAddUp(rs: seq<Reading>, a: AppEntry)
    requires Sane(rs) && a.key in TallyOf(rs).groups && Presents(a, TallyOf(rs).groups[a.key])
    ensures MembersAddUp(a)
  {
    GroupsDescribeSamples(rs, a.key);
    MemberListSums(rs, a.key, Rx);
    MemberListSums(rs, a.key, Tx);
    SumIsOrderFree(a.pids, MemberList(rs, a.key), Rx);
    SumIsOrderFree(a.pids, MemberList(rs, a.key), Tx);
  }

  ghost predicate PublishedFrom(s: Snapshot, rs: seq<Reading>, topCount: nat) {
    && Sane(rs) && (forall i :: 0 <= i < |rs| ==> rs[i].rx >= 0.0 && rs[i].tx >= 0.0)
    && Published(s.apps, TallyOf(rs).groups, topCount)
    && s.totalRx == TallyOf(rs).totalRx && s.totalTx == TallyOf(rs).totalTx
  }

  /** From the samples to the file: the listed rows exceed the published total by at most half a
      byte for each listed pid and half a byte for the total; and fall short of it by no more than
      that when no group was cut. */
  lemma {:induction false} RowsAgainstTotal(doc: Document, s: Snapshot, rs: seq<Reading>, topCount: nat, d: Direction)
    requires PublishedFrom(s, rs, topCount) && Writes(doc, s)
    ensures 2 * SumApps(doc.apps, d) <= 2 * Total(doc, d) + PidCount(doc.apps) + 1
    ensures |TallyOf(rs).groups| <= topCount ==>
              2 * Total(doc, d) <= 2 * SumApps(doc.apps, d) + PidCount(doc.apps) + 1
  {
    var all: seq<AppEntry> :| CutFrom(s.apps, all, TallyOf(rs).groups, topCount);
    forall i | 0 <= i < |s.apps| ensures MembersAddUp(s.apps[i]) {
      assert s.apps[i] == all[i];
      PublishedMembersAddUp(rs, s.apps[i]);
    }
    AppDrift(doc.apps, s.apps, d);
    PublishedWithinTotal(s.apps, rs, topCount, d);
  }

  // ---------------------------------------------------------------------------------------------
  // The same for a selection of the rows: what a reader may subtract from the total
  // ---------------------------------------------------------------------------------------------

  function PickedSum(docs: seq<AppDoc>, pick: AppDoc -> bool, d: Direction): nat {
    if docs == [] then 0
    else PickedSum(docs[..|docs| - 1], pick, d) + if pick(docs[|docs| - 1]) then RowRate(docs[|docs| - 1], d) else 0
  }

  function PickedPids(docs: seq<AppDoc>, pick: AppDoc -> bool): nat {
    if docs == [] then 0
    else PickedPids(docs[..|docs| - 1], pick) + if pick(docs[|docs| - 1]) then |docs[|docs| - 1].pids| else 0
  }

  lemma {:induction false} PickedDrift(docs: seq<AppDoc>, apps: seq<AppEntry>, pick: AppDoc -> bool, d: Direction)
    requires WrittenApps(docs, apps) && forall i :: 0 <= i < |apps| ==> MembersAddUp(apps[i])
    requires forall i :: 0 <= i < |apps| ==> AppRate(d)(apps[i]) >= 0.0
    ensures PickedSum(docs, pick, d) as real <= Sum(apps, AppRate(d)) + PickedPids(docs, pick) as real / 2.0
  {
    if docs != [] {
      var n := |docs| - 1;
      PickedDrift(docs[..n], apps[..n], pick, d);
      assert apps == apps[..n] + [apps[n]];
      SumAppend(apps[..n], [apps[n]], AppRate(d));
      assert Sum([apps[n]], AppRate(d)) == AppRate(d)(apps[n]);
      assert WrittenApp(docs[n], apps[n]) && MembersAddUp(apps[n]);
      PidDrift(docs[n].pids, apps[n].pids, d);
      assert AppRate(d)(apps[n]) == Sum(apps[n].pids, PidRate(d));
    }
  }

  /** Subtracting any of the listed rows from the total leaves at least minus half a byte for each
      pid of those rows and half a byte for the total. */
  lemma {:induction false} PickedAgainstTotal(
    doc: Document, s: Snapshot, rs: seq<Reading>, topCount: nat, pick: AppDoc -> bool, d: Direction)
    requires PublishedFrom(s, rs, topCount) && Writes(doc, s)
    ensures 2 * (Total(doc, d) - PickedSum(doc.apps, pick, d)) >= -(PickedPids(doc.apps, pick) + 1)
  {
    var all: seq<AppEntry> :| CutFrom(s.apps, all, TallyOf(rs).groups, topCount);
    forall i | 0 <= i < |s.apps| ensures MembersAddUp(s.apps[i]) && AppRate(d)(s.apps[i]) >= 0.0 {
      assert s.apps[i] == all[i];
      PublishedMembersAddUp(rs, s.apps[i]);
      RatesNonNegative(rs, s.apps[i].key);
    }
    PickedDrift(doc.apps, s.apps, pick, d);
    PublishedWithinTotal(s.apps, rs, topCount, d);
  }

  lemma {:induction false} MemberNonNegative(rs: seq<Reading>, a: AppEntry, p: PidEntry)
    requires Sane(rs) && a.key in TallyOf(rs).groups && Presents(a, TallyOf(rs).groups[a.key])
    requires forall i :: 0 <= i < |rs| ==> rs[i].rx >= 0.0 && rs[i].tx >= 0.0
    requires p in multiset(a.pids)
    ensures p.rx >= 0.0 && p.tx >= 0.0
  {
    GroupsDescribeSamples(rs, a.key);
    MembersAreSamples(rs, a.key, p);
  }

  lemma {:induction false} PublishedEntry(s: Snapshot, rs: seq<Reading>, topCount: nat, a: AppEntry)
    requires PublishedFrom(s, rs, topCount) && a in s.apps
    ensures a.key in TallyOf(rs).groups && Presents(a, TallyOf(rs).groups[a.key])
  {
    RowPresents(s.apps, TallyOf(rs).groups, topCount, a);
  }

  /** What the aggregator publishes can be written. */
  lemma {:induction false} PublishedIsWritable(s: Snapshot, rs: seq<Reading>, topCount: nat)
    requires PublishedFrom(s, rs, topCount)
    ensures RatesValid(s)
  {
    forall a, p | a in s.apps && p in a.pids ensures p.rx >= 0.0 && p.tx >= 0.0 {
      PublishedEntry(s, rs, topCount, a);
      MemberNonNegative(rs, a, p);
    }
    TotalsNonNegative(rs);
  }

  lemma {:induction false} TotalsNonNegative(rs: seq<Reading>)
    requires forall i :: 0 <= i < |rs| ==> rs[i].rx >= 0.0 && rs[i].tx >= 0.0
    ensures TallyOf(rs).totalRx >= 0.0 && TallyOf(rs).totalTx >= 0.0
  {
    if rs != [] {
      TotalsNonNegative(rs[..|rs| - 1]);
    }
  }
}
