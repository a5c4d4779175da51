/** How far the published list follows from the samples, and what is left to the sort. */
module Ranking {
  import opened Basics
  import opened Sampling
  import opened Grouping
  import opened Sorting
  import opened Aggregation

  function GroupTotal(g: Summary): real {
    g.rx + g.tx
  }

  ghost predicate DistinctTotals(groups: map<string, Summary>) {
    forall k, k' :: k in groups && k' in groups && k != k' ==> GroupTotal(groups[k]) != GroupTotal(groups[k'])
  }

  lemma {:induction false} PositionOf(all: seq<AppEntry>, groups: map<string, Summary>, k: string) returns (p: nat)
    requires Lists(all, groups) && k in groups
    ensures p < |all| && all[p].key == k && AppTotal(all[p]) == GroupTotal(groups[k])
  {
    p :| 0 <= p < |all| && all[p].key == k;
  }

  /** None of the first n entries has the total of another group. */
  ghost predicate Untied(all: seq<AppEntry>, groups: map<string, Summary>, n: nat) {
    forall j, k :: 0 <= j < n && j < |all| && k in groups && Ties(all[j], groups, k) ==> k == all[j].key
  }

  predicate Ties(a: AppEntry, groups: map<string, Summary>, k: string)
    requires k in groups
  {
    AppTotal(a) == GroupTotal(groups[k])
  }

  /** Two rankings agree place by place as far as the entries of the first are untied. */
  lemma {:induction false} SamePlace(one: seq<AppEntry>, two: seq<AppEntry>, groups: map<string, Summary>, i: nat)
    requires Lists(one, groups) && Lists(two, groups) && Descending(one, AppTotal) && Descending(two, AppTotal)
    requires Untied(one, groups, i + 1) && i < |one| && i < |two|
    ensures one[i].key == two[i].key
  {
    forall j | 0 <= j < i ensures one[j].key == two[j].key {
      SamePlace(one, two, groups, j);
    }
    var k, k' := one[i].key, two[i].key;
    var p := PositionOf(two, groups, k);
    var q := PositionOf(one, groups, k');
    assert p >= i && q >= i;
    assert AppTotal(one[i]) == GroupTotal(groups[k]) && AppTotal(two[i]) == GroupTotal(groups[k']);
    NotBusier(two, i, p);
    NotBusier(one, i, q);
    assert Ties(one[i], groups, k') ==> k' == k;
  }

  lemma {:induction false} NotBusier(all: seq<AppEntry>, i: nat, j: nat)
    requires Descending(all, AppTotal) && i < |all| && j < |all|
    ensures i < j ==> AppTotal(all[i]) >= AppTotal(all[j])
  {
  }

  ghost predicate SameKeys(one: seq<AppEntry>, two: seq<AppEntry>) {
    |one| == |two| && forall i :: 0 <= i < |one| ==> one[i].key == two[i].key
  }

  lemma {:induction false} SameCut(
    one: seq<AppEntry>, two: seq<AppEntry>, all: seq<AppEntry>, all': seq<AppEntry>, groups: map<string, Summary>,
    topCount: nat)
    requires CutFrom(one, all, groups, topCount) && CutFrom(two, all', groups, topCount)
    requires Untied(one, groups, |one|)
    ensures SameKeys(one, two)
  {
    ListsCard(all, groups);
    ListsCard(all', groups);
    forall i | 0 <= i < |one| ensures one[i].key == two[i].key {
      assert forall j :: 0 <= j < |one| ==> all[j] == one[j];
      SamePlace(all, all', groups, i);
    }
  }

  lemma {:induction false} UntiedIsUnique(
    one: seq<AppEntry>, two: seq<AppEntry>, groups: map<string, Summary>, topCount: nat)
    requires Published(one, groups, topCount) && Published(two, groups, topCount) && Untied(one, groups, |one|)
    ensures SameKeys(one, two)
  {
    var all: seq<AppEntry> :| CutFrom(one, all, groups, topCount);
    var all': seq<AppEntry> :| CutFrom(two, all', groups, topCount);
    SameCut(one, two, all, all', groups, topCount);
  }

  // ---------------------------------------------------------------------------------------------
  // Ties
  // ---------------------------------------------------------------------------------------------

  /** Where an entry stands once those at i and q have changed places. */
  function Partner(i: nat, q: nat, j: nat): nat {
    if j == i then q else if j == q then i else j
  }

  function Exchanged(all: seq<AppEntry>, i: nat, q: nat): (other: seq<AppEntry>)
    requires i < |all| && q < |all|
    ensures |other| == |all|
    ensures forall j :: 0 <= j < |all| ==> other[j] == all[Partner(i, q, j)]
  {
    all[i := all[q]][q := all[i]]
  }

  lemma {:induction false} ExchangedLists(all: seq<AppEntry>, groups: map<string, Summary>, i: nat, q: nat)
    requires Lists(all, groups) && i < |all| && q < |all|
    ensures Lists(Exchanged(all, i, q), groups)
  {
    hide Exchanged;
    var other := Exchanged(all, i, q);
    forall k | k in groups ensures exists j :: 0 <= j < |other| && other[j].key == k {
      var p :| 0 <= p < |all| && all[p].key == k;
      assert other[Partner(i, q, p)] == all[p];
    }
  }

  /** Two entries with one total may change places. */
  lemma {:induction false} ExchangedRanks(all: seq<AppEntry>, i: nat, q: nat)
    requires Ranked(all) && i < |all| && q < |all| && AppTotal(all[i]) == AppTotal(all[q])
    ensures Ranked(Exchanged(all, i, q))
  {
    hide Exchanged;
    var other := Exchanged(all, i, q);
    assert forall j :: 0 <= j < |all| ==> AppTotal(other[j]) == AppTotal(all[j]);
    assert forall j :: 0 <= j < |all| ==> Descending(other[j].pids, PidTotal);
  }

  lemma {:induction false} CutOfExchanged(
    one: seq<AppEntry>, all: seq<AppEntry>, groups: map<string, Summary>, topCount: nat, i: nat, q: nat)
    returns (two: seq<AppEntry>)
    requires CutFrom(one, all, groups, topCount) && i < |one| && q < |all| && q != i
    requires AppTotal(all[i]) == AppTotal(all[q])
    ensures Published(two, groups, topCount) && !SameKeys(one, two)
  {
    hide Exchanged, Ranked;
    var other := Exchanged(all, i, q);
    ExchangedLists(all, groups, i, q);
    ExchangedRanks(all, i, q);
    two := other[..Min(topCount, |other|)];
    assert CutFrom(two, other, groups, topCount);
    assert two[i] == other[i] == all[q] && one[i] == all[i];
    assert all[i].key != all[q].key;
  }

  /** A tie that reaches the list can be broken the other way. */
  lemma {:induction false} TieBreaks(
    one: seq<AppEntry>, groups: map<string, Summary>, topCount: nat, i: nat, k: string) returns (two: seq<AppEntry>)
    requires Published(one, groups, topCount)
    requires i < |one| && k in groups && Ties(one[i], groups, k) && k != one[i].key
    ensures Published(two, groups, topCount) && !SameKeys(one, two)
  {
    var all: seq<AppEntry> :| CutFrom(one, all, groups, topCount);
    var q := PositionOf(all, groups, k);
    assert all[i] == one[i];
    two := CutOfExchanged(one, all, groups, topCount, i, q);
  }

  /** Which applications are published, and in which order, follows from the samples if and only if no
      listed one has the total of another group. */
  lemma {:induction false} OrderFollowsUnlessTied(one: seq<AppEntry>, groups: map<string, Summary>, topCount: nat)
    requires Published(one, groups, topCount)
    ensures (forall two :: Published(two, groups, topCount) ==> SameKeys(one, two)) <==> Untied(one, groups, |one|)
  {
    if Untied(one, groups, |one|) {
      forall two | Published(two, groups, topCount) ensures SameKeys(one, two) {
        UntiedIsUnique(one, two, groups, topCount);
      }
    } else {
      var i, k :| 0 <= i < |one| && k in groups && Ties(one[i], groups, k) && k != one[i].key;
      var two := TieBreaks(one, groups, topCount, i, k);
    }
  }

  /** When the totals of the groups all differ, the list is determined but for the order of the members
      of a group. */
  lemma {:induction false} PublishedOrderIsUnique(
    one: seq<AppEntry>, two: seq<AppEntry>, groups: map<string, Summary>, topCount: nat)
    requires Published(one, groups, topCount) && Published(two, groups, topCount) && DistinctTotals(groups)
    ensures |one| == |two|
    ensures forall i :: 0 <= i < |one| ==> one[i].key == two[i].key
  {
    var all: seq<AppEntry> :| CutFrom(one, all, groups, topCount);
    forall j, k | 0 <= j < |one| && k in groups && Ties(one[j], groups, k) ensures k == one[j].key {
      assert one[j] == all[j];
    }
    UntiedIsUnique(one, two, groups, topCount);
  }

  lemma {:induction false} PairLists(a: AppEntry, b: AppEntry, groups: map<string, Summary>)
    requires a.key != b.key && groups.Keys == {a.key, b.key}
    requires Presents(a, groups[a.key]) && Presents(b, groups[b.key])
    ensures Lists([a, b], groups)
  {
    assert [a, b][0] == a && [a, b][1] == b;
  }

  lemma {:induction false} PairRanks(a: AppEntry, b: AppEntry)
    requires AppTotal(a) >= AppTotal(b) && |a.pids| == 1 && |b.pids| == 1
    ensures Ranked([a, b])
  {
  }

  /** Of two groups with one total and room for one, either may be the one that is published. */
  lemma {:induction false} PairIsPublished(a: AppEntry, b: AppEntry, groups: map<string, Summary>)
    requires a.key != b.key && groups.Keys == {a.key, b.key}
    requires Presents(a, groups[a.key]) && Presents(b, groups[b.key])
    requires AppTotal(a) == AppTotal(b) && |a.pids| == 1 && |b.pids| == 1
    ensures Published([a], groups, 1)
  {
    PairLists(a, b, groups);
    PairRanks(a, b);
    assert [a] == [a, b][..1];
    assert CutFrom([a], [a, b], groups, 1);
  }

  /** The group of one dead process that received a byte a second. */
  function Lone(pid: Tgid, comm: string): AppEntry {
    AppEntry("comm:" + comm, comm, "", "", "", 1.0, 0.0, [PidEntry(pid, comm, 1.0, 0.0)])
  }

  function LoneReading(pid: Tgid, comm: string): Reading {
    Reading(pid, comm, 1.0, 0.0, true, None)
  }

  lemma {:induction false} LoneGroup(pid: Tgid, comm: string)
    ensures KeyOf(LoneReading(pid, comm)) == Lone(pid, comm).key
    ensures Presents(Lone(pid, comm), Join(None, LoneReading(pid, comm)))
  {
  }

  lemma {:induction false} TallyOfTwo(x: Reading, y: Reading)
    requires x.moved && y.moved && KeyOf(x) != KeyOf(y)
    ensures TallyOf([x, y]).groups == map[KeyOf(x) := Join(None, x), KeyOf(y) := Join(None, y)]
  {
    assert [x, y][..1] == [x] && [x][..0] == [];
    assert TallyOf([x]).groups == map[KeyOf(x) := Join(None, x)];
  }

  /** Two processes that receive one byte a second each, with room for one application: either may be the
      one that is published. */
  lemma {:induction false} EitherIsPublished()
    ensures var groups := TallyOf([LoneReading(1, "a"), LoneReading(2, "b")]).groups;
            Published([Lone(1, "a")], groups, 1) && Published([Lone(2, "b")], groups, 1)
  {
    var x, y, a, b := LoneReading(1, "a"), LoneReading(2, "b"), Lone(1, "a"), Lone(2, "b");
    LoneGroup(1, "a");
    LoneGroup(2, "b");
    assert a.key[5] != b.key[5];
    TallyOfTwo(x, y);
    PairIsPublished(a, b, TallyOf([x, y]).groups);
    PairIsPublished(b, a, TallyOf([x, y]).groups);
  }
}
