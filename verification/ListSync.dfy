/** The list model behind the widget's rows, and its reconciliation in place. */
module ListSync {
  import opened JsonWriter

  datatype Row = Row(
    key: string, name: string, icon: string, exe: string, desktopId: string,
    rx: nat, tx: nat, idle: bool, pids: seq<PidDoc>, spark: seq<nat>)

  /** An element of the model. The tag is its identity: what a delegate, and so a transition, is
      attached to. It survives moves and changes of content. */
  datatype Item = Item(tag: nat, row: Row)

  datatype Change = Removed(key: string) | Inserted(key: string) | Moved(key: string) | Changed(key: string)

  ghost predicate DistinctItems(items: seq<Item>) {
    forall i, j :: 0 <= i < j < |items| ==> items[i].row.key != items[j].row.key
  }

  ghost predicate DistinctRows(rows: seq<Row>) {
    forall i, j :: 0 <= i < j < |rows| ==> rows[i].key != rows[j].key
  }

  function KeySet(rows: seq<Row>): set<string> {
    set r | r in rows :: r.key
  }

  function ItemKeys(items: seq<Item>): set<string> {
    set x | x in items :: x.row.key
  }

  class ListModel {
    var items: seq<Item>
    var nextTag: nat
    ghost var log: seq<Change>

    constructor ()
      ensures items == [] && log == []
    {
      items, nextTag, log := [], 0, [];
    }

    method Clear()
      modifies this
      ensures items == [] && log == old(log) && nextTag == old(nextTag)
    {
      items := [];
    }

    method Remove(i: nat)
      requires i < |items|
      modifies this
      ensures items == old(items)[..i] + old(items)[i + 1..] && nextTag == old(nextTag)
      ensures log == old(log) + [Removed(old(items)[i].row.key)]
    {
      log := log + [Removed(items[i].row.key)];
      items := items[..i] + items[i + 1..];
    }

    method Insert(i: nat, row: Row)
      requires i <= |items|
      modifies this
      ensures items == old(items)[..i] + [Item(old(nextTag), row)] + old(items)[i..]
      ensures nextTag == old(nextTag) + 1 && log == old(log) + [Inserted(row.key)]
    {
      items := items[..i] + [Item(nextTag, row)] + items[i..];
      nextTag := nextTag + 1;
      log := log + [Inserted(row.key)];
    }

    /** ListModel.move(from, to, 1) with to before from. */
    method Move(from: nat, to: nat)
      requires to < from < |items|
      modifies this
      ensures items == old(items)[..to] + [old(items)[from]] + old(items)[to..from] + old(items)[from + 1..]
      ensures nextTag == old(nextTag) && log == old(log) + [Moved(old(items)[from].row.key)]
    {
      log := log + [Moved(items[from].row.key)];
      items := items[..to] + [items[from]] + items[to..from] + items[from + 1..];
    }

    method Set(i: nat, row: Row)
      requires i < |items| && items[i].row.key == row.key
      modifies this
      ensures items == old(items)[i := Item(old(items)[i].tag, row)]
      ensures nextTag == old(nextTag) && log == old(log) + [Changed(row.key)]
    {
      items := items[i := items[i].(row := row)];
      log := log + [Changed(row.key)];
    }
  }

  // ---------------------------------------------------------------------------------------------
  // The survivors
  // ---------------------------------------------------------------------------------------------

  function Filter(items: seq<Item>, keep: set<string>): seq<Item> {
    if items == [] then []
    else (if items[0].row.key in keep then [items[0]] else []) + Filter(items[1..], keep)
  }

  lemma {:induction false} FilterMembers(items: seq<Item>, keep: set<string>)
    ensures forall x :: x in Filter(items, keep) <==> x in items && x.row.key in keep
  {
    if items != [] {
      FilterMembers(items[1..], keep);
      assert items == [items[0]] + items[1..];
    }
  }

  lemma {:induction false} FilterDistinct(items: seq<Item>, keep: set<string>)
    requires DistinctItems(items)
    ensures DistinctItems(Filter(items, keep))
  {
    if items != [] {
      var rest := items[1..];
      assert forall i :: 0 <= i < |rest| ==> rest[i] == items[i + 1];
      FilterDistinct(rest, keep);
      FilterMembers(rest, keep);
      var f := Filter(rest, keep);
      assert forall i :: 0 <= i < |f| ==> f[i] in rest;
    }
  }

  function DropKey(items: seq<Item>, k: string): seq<Item> {
    if items == [] then []
    else (if items[0].row.key == k then [] else [items[0]]) + DropKey(items[1..], k)
  }

  lemma {:induction false} FilterWithout(items: seq<Item>, keep: set<string>, k: string)
    ensures Filter(items, keep - {k}) == DropKey(Filter(items, keep), k)
  {
    if items != [] {
      FilterWithout(items[1..], keep, k);
      if items[0].row.key in keep {
        assert Filter(items, keep)[1..] == Filter(items[1..], keep);
      } else {
        assert Filter(items, keep) == Filter(items[1..], keep);
      }
    }
  }

  lemma {:induction false} DropKeyAbsent(items: seq<Item>, k: string)
    requires forall i :: 0 <= i < |items| ==> items[i].row.key != k
    ensures DropKey(items, k) == items
  {
    if items != [] {
      assert forall i :: 0 <= i < |items[1..]| ==> items[1..][i] == items[i + 1];
      DropKeyAbsent(items[1..], k);
    }
  }

  lemma {:induction false} DropKeyAt(items: seq<Item>, p: nat)
    requires DistinctItems(items) && p < |items|
    ensures DropKey(items, items[p].row.key) == items[..p] + items[p + 1..]
  {
    var rest := items[1..];
    assert forall i :: 0 <= i < |rest| ==> rest[i] == items[i + 1];
    if p == 0 {
      DropKeyAbsent(rest, items[0].row.key);
    } else {
      DropKeyAt(rest, p - 1);
      assert items[..p] + items[p + 1..] == [items[0]] + (rest[..p - 1] + rest[p..]);
    }
  }

  // ---------------------------------------------------------------------------------------------
  // Order of the survivors
  // ---------------------------------------------------------------------------------------------

  /** The keys of the survivors in the order of the model. */
  function OldOrder(items: seq<Item>): seq<string> {
    if items == [] then [] else [items[0].row.key] + OldOrder(items[1..])
  }

  /** The keys of the survivors in the order they are wanted in. */
  function NewOrder(rows: seq<Row>, survivors: set<string>): seq<string> {
    if rows == [] then []
    else
      var n := |rows| - 1;
      NewOrder(rows[..n], survivors) + if rows[n].key in survivors then [rows[n].key] else []
  }

  ghost predicate SameOrder(items: seq<Item>, rows: seq<Row>) {
    OldOrder(Filter(items, KeySet(rows))) == NewOrder(rows, ItemKeys(items))
  }

  lemma {:induction false} NewOrderPrefix(rows: seq<Row>, n: nat, survivors: set<string>)
    requires n <= |rows|
    ensures NewOrder(rows[..n], survivors) <= NewOrder(rows, survivors)
  {
    if n == |rows| {
      assert rows[..n] == rows;
    } else {
      var m := |rows| - 1;
      NewOrderPrefix(rows[..m], n, survivors);
      assert rows[..m][..n] == rows[..n];
    }
  }

  // ---------------------------------------------------------------------------------------------
  // syncModel
  // ---------------------------------------------------------------------------------------------

  function Count(log: seq<Change>, c: Change): nat {
    multiset(log)[c]
  }

  ghost predicate NoMoves(log: seq<Change>) {
    forall k :: Count(log, Moved(k)) == 0
  }

  /** Everything that is promised about one reconciliation: log is what was done to the model. */
  ghost predicate Reconciled(before: seq<Item>, after: seq<Item>, rows: seq<Row>, newTags: nat, log: seq<Change>) {
    && |after| == |rows|
    && (forall i :: 0 <= i < |rows| ==> after[i].row == rows[i])
    && (forall i, x :: 0 <= i < |after| && x in before && x.row.key == after[i].row.key ==> after[i].tag == x.tag)
    && (forall i :: 0 <= i < |after| && after[i].row.key !in ItemKeys(before) ==> after[i].tag >= newTags)
    && (forall k :: Count(log, Removed(k)) == if k in ItemKeys(before) && k !in KeySet(rows) then 1 else 0)
    && (forall k :: Count(log, Inserted(k)) == if k in KeySet(rows) && k !in ItemKeys(before) then 1 else 0)
    && (forall k :: Count(log, Moved(k)) <= if k in KeySet(rows) && k in ItemKeys(before) then 1 else 0)
    && (NoMoves(log) <==> SameOrder(before, rows))
  }

  /** After the backward pass over the items from i on. */
  ghost predicate Pruning(before: seq<Item>, now: seq<Item>, i: int, wanted: set<string>, log: seq<Change>) {
    && 0 <= i <= |before|
    && now == before[..i] + Filter(before[i..], wanted)
    && LoggedPruning(ItemKeys(before[i..]), wanted, log)
  }

  ghost predicate LoggedPruning(seen: set<string>, wanted: set<string>, log: seq<Change>) {
    && (forall k :: Count(log, Removed(k)) == if k in seen && k !in wanted then 1 else 0)
    && (forall k :: Count(log, Inserted(k)) == 0 && Count(log, Moved(k)) == 0)
  }

  lemma {:induction false} TakenOut(a: seq<Item>, x: Item, b: seq<Item>)
    ensures (a + [x] + b)[|a|] == x && (a + [x] + b)[..|a|] + (a + [x] + b)[|a| + 1..] == a + b
  {
    assert (a + [x] + b)[..|a|] == a && (a + [x] + b)[|a| + 1..] == b;
  }

  lemma {:induction false} PruneKept(before: seq<Item>, now: seq<Item>, i: int, wanted: set<string>, log: seq<Change>)
    requires DistinctItems(before) && Pruning(before, now, i, wanted, log) && i > 0
    requires before[i - 1].row.key in wanted
    ensures Pruning(before, now, i - 1, wanted, log)
  {
    PruneFilter(before, i, wanted);
    PruneKeys(before, i);
    assert before[..i - 1] + ([before[i - 1]] + Filter(before[i..], wanted)) == now;
  }

  lemma {:induction false} PruneDropped(
    before: seq<Item>, now: seq<Item>, i: int, wanted: set<string>, log: seq<Change>)
    requires DistinctItems(before) && Pruning(before, now, i, wanted, log) && i > 0
    requires before[i - 1].row.key !in wanted
    ensures Pruning(before, now[..i - 1] + now[i..], i - 1, wanted, log + [Removed(before[i - 1].row.key)])
  {
    var x, tail := before[i - 1], Filter(before[i..], wanted);
    PruneFilter(before, i, wanted);
    PruneKeys(before, i);
    TakenOut(before[..i - 1], x, tail);
    assert [] + tail == tail;
    LogRemoved(ItemKeys(before[i..]), wanted, log, x.row.key);
  }

  lemma {:induction false} PruneFilter(before: seq<Item>, i: int, wanted: set<string>)
    requires 0 < i <= |before|
    ensures var x := before[i - 1];
            && Filter(before[i - 1..], wanted)
               == (if x.row.key in wanted then [x] else []) + Filter(before[i..], wanted)
            && before[..i] == before[..i - 1] + [x]
  {
    assert before[i - 1..][1..] == before[i..];
  }

  lemma {:induction false} PruneKeys(before: seq<Item>, i: int)
    requires DistinctItems(before) && 0 < i <= |before|
    ensures ItemKeys(before[i - 1..]) == ItemKeys(before[i..]) + {before[i - 1].row.key}
    ensures before[i - 1].row.key !in ItemKeys(before[i..])
  {
    var x, tail := before[i - 1], before[i..];
    assert before[i - 1..] == [x] + tail;
    assert forall y :: y in before[i - 1..] <==> y == x || y in tail;
    forall y | y in tail ensures y.row.key != x.row.key {
      var j :| 0 <= j < |tail| && tail[j] == y;
      assert before[i + j] == y;
    }
  }

  lemma {:induction false} LogRemoved(seen: set<string>, wanted: set<string>, log: seq<Change>, key: string)
    requires LoggedPruning(seen, wanted, log) && key !in seen && key !in wanted
    ensures LoggedPruning(seen + {key}, wanted, log + [Removed(key)])
  {
  }

  lemma {:induction false} PruneStarts(before: seq<Item>, wanted: set<string>)
    ensures Pruning(before, before, |before|, wanted, [])
  {
    assert before[..|before|] == before && before[|before|..] == [];
    assert before + Filter([], wanted) == before;
  }

  lemma {:induction false} PruneAt(before: seq<Item>, now: seq<Item>, i: int, wanted: set<string>, log: seq<Change>)
    requires Pruning(before, now, i, wanted, log)
    ensures i > 0 ==> i <= |now| && now[i - 1] == before[i - 1]
    ensures i == 0 ==> now == Filter(before, wanted) && LoggedPruning(ItemKeys(before), wanted, log)
  {
    if i == 0 {
      assert before[0..] == before;
      assert [] + Filter(before, wanted) == Filter(before, wanted);
    }
  }

  /** The body of the backward pass. */
  method PruneOne(model: ListModel, wanted: set<string>, i: nat, ghost before: seq<Item>, ghost done: seq<Change>)
    returns (ghost step: seq<Change>)
    requires DistinctItems(before) && Pruning(before, model.items, i + 1, wanted, done)
    modifies model
    ensures Pruning(before, model.items, i, wanted, done + step)
    ensures model.log == old(model.log) + step && model.nextTag == old(model.nextTag)
  {
    PruneAt(before, model.items, i + 1, wanted, done);
    var key := model.items[i].row.key;
    if key !in wanted {
      PruneDropped(before, model.items, i + 1, wanted, done);
      model.Remove(i);
      step := [Removed(key)];
    } else {
      PruneKept(before, model.items, i + 1, wanted, done);
      step := [];
      assert done + [] == done && model.log + [] == model.log;
    }
  }

  /** Removes every element whose key is not wanted, from the back; done is what was done. */
  method Prune(model: ListModel, wanted: set<string>) returns (ghost done: seq<Change>)
    requires DistinctItems(model.items)
    modifies model
    ensures model.items == Filter(old(model.items), wanted) && model.nextTag == old(model.nextTag)
    ensures model.log == old(model.log) + done && LoggedPruning(ItemKeys(old(model.items)), wanted, done)
  {
    ghost var before, start := model.items, model.log;
    done := [];
    PruneStarts(before, wanted);
    var i := |model.items|;
    while i > 0
      invariant Pruning(before, model.items, i, wanted, done)
      invariant model.log == start + done && model.nextTag == old(model.nextTag)
    {
      i := i - 1;
      ghost var step := PruneOne(model, wanted, i, before, done);
      LogsConcat(start, done, step);
      done := done + step;
    }
    PruneAt(before, model.items, 0, wanted, done);
  }

  /** The survivors that are still to be placed once rows[..i] have been. */
  function Rest(kept: seq<Item>, rows: seq<Row>, i: nat): seq<Item>
    requires i <= |rows|
  {
    Filter(kept, KeySet(rows[i..]))
  }

  ghost predicate TagOf(kept: seq<Item>, newTags: nat, x: Item) {
    && (forall y :: y in kept && y.row.key == x.row.key ==> y.tag == x.tag)
    && (x.row.key !in ItemKeys(kept) ==> x.tag >= newTags)
  }

  ghost predicate Placed(kept: seq<Item>, rows: seq<Row>, newTags: nat, done: seq<Item>) {
    |done| <= |rows| && forall j :: 0 <= j < |done| ==> done[j].row == rows[j] && TagOf(kept, newTags, done[j])
  }

  ghost predicate LoggedPlacing(kept: seq<Item>, rows: seq<Row>, i: nat, log: seq<Change>)
    requires i <= |rows|
  {
    && (forall k :: Count(log, Removed(k)) == 0)
    && (forall k :: Count(log, Inserted(k)) == if k in KeySet(rows[..i]) && k !in ItemKeys(kept) then 1 else 0)
    && (forall k :: Count(log, Moved(k)) <= if k in KeySet(rows[..i]) && k in ItemKeys(kept) then 1 else 0)
  }

  ghost predicate Ordered(kept: seq<Item>, rows: seq<Row>, i: nat, log: seq<Change>)
    requires i <= |rows|
  {
    && (NoMoves(log) ==>
          OldOrder(kept) == NewOrder(rows[..i], ItemKeys(kept)) + OldOrder(Rest(kept, rows, i)))
    && (OldOrder(kept) == NewOrder(rows, ItemKeys(kept)) ==> NoMoves(log))
  }

  lemma {:induction false} KeysAhead(rows: seq<Row>, i: nat)
    requires DistinctRows(rows) && i < |rows|
    ensures KeySet(rows[i..]) == KeySet(rows[i + 1..]) + {rows[i].key} && rows[i].key !in KeySet(rows[i + 1..])
    ensures KeySet(rows[..i + 1]) == KeySet(rows[..i]) + {rows[i].key} && rows[i].key !in KeySet(rows[..i])
  {
    assert rows[i..] == [rows[i]] + rows[i + 1..];
    assert rows[..i + 1] == rows[..i] + [rows[i]];
    var ahead := rows[i + 1..];
    forall r | r in ahead ensures r.key != rows[i].key {
      var j :| 0 <= j < |ahead| && ahead[j] == r;
      assert rows[i + 1 + j] == r;
    }
    assert forall r :: r in rows[..i] ==> r.key != rows[i].key;
  }

  /** The survivors left after placing rows[i]. */
  lemma {:induction false} RestStep(kept: seq<Item>, rows: seq<Row>, i: nat)
    requires DistinctItems(kept) && DistinctRows(rows) && i < |rows|
    ensures Rest(kept, rows, i + 1) == DropKey(Rest(kept, rows, i), rows[i].key)
    ensures DistinctItems(Rest(kept, rows, i))
    ensures forall x :: x in Rest(kept, rows, i) ==> x in kept
    ensures rows[i].key in ItemKeys(kept) <==> rows[i].key in ItemKeys(Rest(kept, rows, i))
  {
    KeysAhead(rows, i);
    assert KeySet(rows[i..]) - {rows[i].key} == KeySet(rows[i + 1..]);
    FilterWithout(kept, KeySet(rows[i..]), rows[i].key);
    FilterDistinct(kept, KeySet(rows[i..]));
    FilterMembers(kept, KeySet(rows[i..]));
  }

  lemma {:induction false} LogInserted(kept: seq<Item>, rows: seq<Row>, i: nat, log: seq<Change>)
    requires DistinctRows(rows) && i < |rows| && LoggedPlacing(kept, rows, i, log) && rows[i].key !in ItemKeys(kept)
    ensures LoggedPlacing(kept, rows, i + 1, log + [Inserted(rows[i].key)])
    ensures NoMoves(log + [Inserted(rows[i].key)]) <==> NoMoves(log)
  {
    KeysAhead(rows, i);
    assert forall k :: Count(log + [Inserted(rows[i].key)], Moved(k)) == Count(log, Moved(k));
  }

  lemma {:induction false} LogKept(kept: seq<Item>, rows: seq<Row>, i: nat, log: seq<Change>)
    requires DistinctRows(rows) && i < |rows| && LoggedPlacing(kept, rows, i, log) && rows[i].key in ItemKeys(kept)
    ensures LoggedPlacing(kept, rows, i + 1, log + [Changed(rows[i].key)])
    ensures NoMoves(log + [Changed(rows[i].key)]) <==> NoMoves(log)
  {
    KeysAhead(rows, i);
    assert forall k :: Count(log + [Changed(rows[i].key)], Moved(k)) == Count(log, Moved(k));
  }

  lemma {:induction false} LogMoved(kept: seq<Item>, rows: seq<Row>, i: nat, log: seq<Change>)
    requires DistinctRows(rows) && i < |rows| && LoggedPlacing(kept, rows, i, log) && rows[i].key in ItemKeys(kept)
    ensures LoggedPlacing(kept, rows, i + 1, log + [Moved(rows[i].key), Changed(rows[i].key)])
    ensures !NoMoves(log + [Moved(rows[i].key), Changed(rows[i].key)])
  {
    KeysAhead(rows, i);
    var k := rows[i].key;
    assert log + [Moved(k), Changed(k)] == log + [Moved(k)] + [Changed(k)];
    assert Count(log + [Moved(k), Changed(k)], Moved(k)) >= 1;
  }

  lemma {:induction false} NewOrderStep(rows: seq<Row>, i: nat, survivors: set<string>)
    requires i < |rows|
    ensures NewOrder(rows[..i + 1], survivors)
         == if rows[i].key in survivors then NewOrder(rows[..i], survivors) + [rows[i].key]
            else NewOrder(rows[..i], survivors)
  {
    assert rows[..i + 1][..i] == rows[..i];
    assert NewOrder(rows[..i], survivors) + [] == NewOrder(rows[..i], survivors);
  }

  /** A new row takes nothing from the survivors. */
  lemma {:induction false} RestSame(kept: seq<Item>, rows: seq<Row>, i: nat)
    requires DistinctItems(kept) && DistinctRows(rows) && i < |rows| && rows[i].key !in ItemKeys(kept)
    ensures Rest(kept, rows, i + 1) == Rest(kept, rows, i)
  {
    var rest := Rest(kept, rows, i);
    RestStep(kept, rows, i);
    forall j | 0 <= j < |rest| ensures rest[j].row.key != rows[i].key {
      assert rest[j] in rest;
    }
    DropKeyAbsent(rest, rows[i].key);
  }

  /** Inserting a new row leaves the survivors' order as it was. */
  lemma {:induction false} OrderInserted(kept: seq<Item>, rows: seq<Row>, i: nat, log: seq<Change>)
    requires DistinctItems(kept) && DistinctRows(rows) && i < |rows| && Ordered(kept, rows, i, log)
    requires LoggedPlacing(kept, rows, i, log) && rows[i].key !in ItemKeys(kept)
    ensures Ordered(kept, rows, i + 1, log + [Inserted(rows[i].key)])
  {
    assert NoMoves(log + [Inserted(rows[i].key)]) <==> NoMoves(log) by {
      LogInserted(kept, rows, i, log);
    }
    RestSame(kept, rows, i);
    NewOrderStep(rows, i, ItemKeys(kept));
  }

  lemma {:induction false} Regroup(a: seq<string>, k: string, b: seq<string>)
    ensures a + ([k] + b) == a + [k] + b
  {
  }

  /** The next survivor stands where it is wanted. */
  lemma {:induction false} OrderKept(kept: seq<Item>, rows: seq<Row>, i: nat, log: seq<Change>)
    requires DistinctItems(kept) && DistinctRows(rows) && i < |rows| && Ordered(kept, rows, i, log)
    requires LoggedPlacing(kept, rows, i, log)
    requires Rest(kept, rows, i) != [] && Rest(kept, rows, i)[0].row.key == rows[i].key
    ensures Ordered(kept, rows, i + 1, log + [Changed(rows[i].key)])
  {
    var rest := Rest(kept, rows, i);
    HeadSurvives(kept, rows, i);
    LogKept(kept, rows, i, log);
    NewOrderStep(rows, i, ItemKeys(kept));
    Regroup(NewOrder(rows[..i], ItemKeys(kept)), rows[i].key, OldOrder(rest[1..]));
  }

  lemma {:induction false} HeadSurvives(kept: seq<Item>, rows: seq<Row>, i: nat)
    requires DistinctItems(kept) && DistinctRows(rows) && i < |rows|
    requires Rest(kept, rows, i) != [] && Rest(kept, rows, i)[0].row.key == rows[i].key
    ensures rows[i].key in ItemKeys(kept)
    ensures Rest(kept, rows, i + 1) == Rest(kept, rows, i)[1..]
    ensures OldOrder(Rest(kept, rows, i)) == [rows[i].key] + OldOrder(Rest(kept, rows, i)[1..])
  {
    var rest := Rest(kept, rows, i);
    RestStep(kept, rows, i);
    assert rest[0] in rest;
    DropKeyAt(rest, 0);
    assert rest[..0] + rest[1..] == rest[1..];
  }

  lemma {:induction false} PrefixClash(placed: seq<string>, xs: seq<string>, k: string, whole: seq<string>)
    requires xs != [] && xs[0] != k && placed + [k] <= whole
    ensures whole != placed + xs
  {
    assert (placed + xs)[|placed|] == xs[0];
    assert whole[|placed|] == (placed + [k])[|placed|];
  }

  /** If the next survivor has to be moved, the survivors' order has changed. */
  lemma {:induction false} OrderMoved(kept: seq<Item>, rows: seq<Row>, i: nat, log: seq<Change>)
    requires DistinctItems(kept) && DistinctRows(rows) && i < |rows| && Ordered(kept, rows, i, log)
    requires LoggedPlacing(kept, rows, i, log) && rows[i].key in ItemKeys(kept)
    requires Rest(kept, rows, i) != [] && Rest(kept, rows, i)[0].row.key != rows[i].key
    ensures Ordered(kept, rows, i + 1, log + [Moved(rows[i].key), Changed(rows[i].key)])
  {
    LogMoved(kept, rows, i, log);
    NewOrderStep(rows, i, ItemKeys(kept));
    NewOrderPrefix(rows, i + 1, ItemKeys(kept));
    PrefixClash(NewOrder(rows[..i], ItemKeys(kept)), OldOrder(Rest(kept, rows, i)), rows[i].key,
                NewOrder(rows, ItemKeys(kept)));
  }

  /** Looks for the key from position i on. */
  method Find(items: seq<Item>, i: nat, key: string) returns (found: int)
    requires i <= |items|
    ensures found == -1 ==> forall j :: i <= j < |items| ==> items[j].row.key != key
    ensures found != -1 ==> i <= found < |items| && items[found].row.key == key
    ensures found != -1 ==> forall j :: i <= j < found ==> items[j].row.key != key
  {
    found := -1;
    var j := i;
    while j < |items|
      invariant i <= j <= |items| && found == -1
      invariant forall m :: i <= m < j ==> items[m].row.key != key
    {
      if items[j].row.key == key {
        return j;
      }
      j := j + 1;
    }
  }

  /** The invariant of the second pass: rows[..i] stand in front, the survivors still to come follow
      in their old order. */
  ghost predicate Placing(kept: seq<Item>, rows: seq<Row>, newTags: nat, i: nat, now: seq<Item>, log: seq<Change>) {
    && i <= |rows| && i <= |now|
    && Placed(kept, rows, newTags, now[..i])
    && now[i..] == Rest(kept, rows, i)
    && LoggedPlacing(kept, rows, i, log)
    && Ordered(kept, rows, i, log)
  }

  lemma {:induction false} PlacedOne(
    kept: seq<Item>, rows: seq<Row>, newTags: nat, done: seq<Item>, x: Item, rest: seq<Item>)
    requires Placed(kept, rows, newTags, done) && |done| < |rows| && x.row == rows[|done|] && TagOf(kept, newTags, x)
    ensures Placed(kept, rows, newTags, (done + [x] + rest)[..|done| + 1]) && (done + [x] + rest)[|done| + 1..] == rest
  {
    assert (done + [x] + rest)[..|done| + 1] == done + [x];
  }

  lemma {:induction false} NotSurviving(kept: seq<Item>, rows: seq<Row>, i: nat)
    requires DistinctItems(kept) && DistinctRows(rows) && i < |rows|
    requires forall j :: 0 <= j < |Rest(kept, rows, i)| ==> Rest(kept, rows, i)[j].row.key != rows[i].key
    ensures rows[i].key !in ItemKeys(kept)
  {
    RestStep(kept, rows, i);
    assert rows[i].key !in ItemKeys(Rest(kept, rows, i));
  }

  lemma {:induction false} StepInserted(
    kept: seq<Item>, rows: seq<Row>, newTags: nat, i: nat, now: seq<Item>, log: seq<Change>, tag: nat)
    requires DistinctItems(kept) && DistinctRows(rows) && Placing(kept, rows, newTags, i, now, log) && i < |rows|
    requires (forall j :: i <= j < |now| ==> now[j].row.key != rows[i].key) && tag >= newTags
    ensures Placing(kept, rows, newTags, i + 1, now[..i] + [Item(tag, rows[i])] + now[i..],
                    log + [Inserted(rows[i].key)])
  {
    assert rows[i].key !in ItemKeys(kept) by {
      assert forall j :: 0 <= j < |now[i..]| ==> now[i..][j] == now[i + j];
      NotSurviving(kept, rows, i);
    }
    RestSame(kept, rows, i);
    LogInserted(kept, rows, i, log);
    OrderInserted(kept, rows, i, log);
    PlacedOne(kept, rows, newTags, now[..i], Item(tag, rows[i]), now[i..]);
  }

  /** A survivor keeps its tag under its new content. */
  lemma {:induction false} SurvivorTag(kept: seq<Item>, newTags: nat, x: Item, row: Row)
    requires DistinctItems(kept) && x in kept && row.key == x.row.key
    ensures TagOf(kept, newTags, Item(x.tag, row))
  {
    forall y | y in kept && y.row.key == x.row.key ensures y.tag == x.tag {
      var a :| 0 <= a < |kept| && kept[a] == x;
      var b :| 0 <= b < |kept| && kept[b] == y;
    }
  }

  lemma {:induction false} KeptInPlace(now: seq<Item>, i: nat, x: Item)
    requires i < |now|
    ensures now[i..][0] == now[i] && now[i := x] == now[..i] + [x] + now[i..][1..]
  {
  }

  lemma {:induction false} StepKept(
    kept: seq<Item>, rows: seq<Row>, newTags: nat, i: nat, now: seq<Item>, log: seq<Change>)
    requires DistinctItems(kept) && DistinctRows(rows) && Placing(kept, rows, newTags, i, now, log) && i < |rows|
    requires i < |now| && now[i].row.key == rows[i].key
    ensures Placing(kept, rows, newTags, i + 1, now[i := Item(now[i].tag, rows[i])], log + [Changed(rows[i].key)])
  {
    var x := Item(now[i].tag, rows[i]);
    KeptInPlace(now, i, x);
    RestSurvivor(kept, rows, i, 0);
    HeadSurvives(kept, rows, i);
    assert TagOf(kept, newTags, x) by {
      SurvivorTag(kept, newTags, now[i], rows[i]);
    }
    assert LoggedPlacing(kept, rows, i + 1, log + [Changed(rows[i].key)]) by {
      LogKept(kept, rows, i, log);
    }
    OrderKept(kept, rows, i, log);
    PlacedOne(kept, rows, newTags, now[..i], x, Rest(kept, rows, i + 1));
  }

  /** The survivor at position p of those still to be placed. */
  lemma {:induction false} RestSurvivor(kept: seq<Item>, rows: seq<Row>, i: nat, p: nat)
    requires DistinctItems(kept) && DistinctRows(rows) && i < |rows|
    requires p < |Rest(kept, rows, i)| && Rest(kept, rows, i)[p].row.key == rows[i].key
    ensures Rest(kept, rows, i)[p] in kept && rows[i].key in ItemKeys(kept)
    ensures Rest(kept, rows, i + 1) == Rest(kept, rows, i)[..p] + Rest(kept, rows, i)[p + 1..]
  {
    RestStep(kept, rows, i);
    assert Rest(kept, rows, i)[p] in Rest(kept, rows, i);
    DropKeyAt(Rest(kept, rows, i), p);
  }

  lemma {:induction false} MovedInto(now: seq<Item>, i: nat, found: nat, x: Item)
    requires i < found < |now|
    ensures var moved := now[..i] + [now[found]] + now[i..found] + now[found + 1..];
            && moved[i] == now[found]
            && moved[i := x] == now[..i] + [x] + (now[i..][..found - i] + now[i..][found - i + 1..])
    ensures now[i..][0] == now[i] && now[i..][found - i] == now[found]
  {
    var moved := now[..i] + [now[found]] + now[i..found] + now[found + 1..];
    assert now[i..][..found - i] == now[i..found] && now[i..][found - i + 1..] == now[found + 1..];
    assert moved == now[..i] + [now[found]] + (now[i..found] + now[found + 1..]);
  }

  /** The survivor found is taken out of those still to be placed. */
  lemma {:induction false} MovedOut(
    kept: seq<Item>, rows: seq<Row>, i: nat, now: seq<Item>, found: nat, x: Item)
    requires DistinctItems(kept) && DistinctRows(rows) && i < |rows|
    requires i < found < |now| && now[found].row.key == rows[i].key && now[i..] == Rest(kept, rows, i)
    ensures var moved := now[..i] + [now[found]] + now[i..found] + now[found + 1..];
            moved[i] == now[found] && moved[i := x] == now[..i] + [x] + Rest(kept, rows, i + 1)
    ensures now[found] in kept && rows[i].key in ItemKeys(kept)
    ensures Rest(kept, rows, i) != [] && Rest(kept, rows, i)[0] == now[i]
  {
    MovedInto(now, i, found, x);
    RestSurvivor(kept, rows, i, found - i);
  }

  lemma {:induction false} StepMoved(
    kept: seq<Item>, rows: seq<Row>, newTags: nat, i: nat, now: seq<Item>, log: seq<Change>, found: nat)
    requires DistinctItems(kept) && DistinctRows(rows) && Placing(kept, rows, newTags, i, now, log) && i < |rows|
    requires i < found < |now| && now[found].row.key == rows[i].key && now[i].row.key != rows[i].key
    ensures var moved := now[..i] + [now[found]] + now[i..found] + now[found + 1..];
            Placing(kept, rows, newTags, i + 1, moved[i := Item(moved[i].tag, rows[i])],
                    log + [Moved(rows[i].key), Changed(rows[i].key)])
  {
    var x := Item(now[found].tag, rows[i]);
    MovedOut(kept, rows, i, now, found, x);
    assert TagOf(kept, newTags, x) by {
      SurvivorTag(kept, newTags, now[found], rows[i]);
    }
    assert LoggedPlacing(kept, rows, i + 1, log + [Moved(rows[i].key), Changed(rows[i].key)]) by {
      LogMoved(kept, rows, i, log);
    }
    OrderMoved(kept, rows, i, log);
    PlacedOne(kept, rows, newTags, now[..i], x, Rest(kept, rows, i + 1));
  }

  lemma {:induction false} FilterAll(items: seq<Item>, keep: set<string>)
    requires forall x :: x in items ==> x.row.key in keep
    ensures Filter(items, keep) == items
  {
    if items != [] {
      FilterAll(items[1..], keep);
    }
  }

  lemma {:induction false} FilterNone(items: seq<Item>)
    ensures Filter(items, {}) == []
  {
    if items != [] {
      FilterNone(items[1..]);
    }
  }

  lemma {:induction false} NothingPlaced(kept: seq<Item>, rows: seq<Row>, newTags: nat)
    requires Rest(kept, rows, 0) == kept
    ensures Placed(kept, rows, newTags, []) && LoggedPlacing(kept, rows, 0, []) && Ordered(kept, rows, 0, [])
  {
    assert KeySet(rows[..0]) == {} && NewOrder(rows[..0], ItemKeys(kept)) == [];
    assert [] + OldOrder(kept) == OldOrder(kept);
  }

  lemma {:induction false} PlacingStarts(before: seq<Item>, rows: seq<Row>, newTags: nat)
    requires DistinctItems(before)
    ensures DistinctItems(Filter(before, KeySet(rows)))
    ensures Placing(Filter(before, KeySet(rows)), rows, newTags, 0, Filter(before, KeySet(rows)), [])
  {
    var kept := Filter(before, KeySet(rows));
    FilterDistinct(before, KeySet(rows));
    FilterMembers(before, KeySet(rows));
    FilterAll(kept, KeySet(rows));
    assert rows[0..] == rows && kept[0..] == kept && kept[..0] == [];
    NothingPlaced(kept, rows, newTags);
  }

  lemma {:induction false} NewOrderOfSurvivors(rows: seq<Row>, a: set<string>, b: set<string>)
    requires forall r :: r in rows ==> (r.key in a <==> r.key in b)
    ensures NewOrder(rows, a) == NewOrder(rows, b)
  {
    if rows != [] {
      NewOrderOfSurvivors(rows[..|rows| - 1], a, b);
    }
  }

  lemma {:induction false} CountConcat(a: seq<Change>, b: seq<Change>)
    ensures forall c :: Count(a + b, c) == Count(a, c) + Count(b, c)
  {
  }

  lemma {:induction false} SurvivorKeys(before: seq<Item>, rows: seq<Row>)
    ensures forall k :: k in KeySet(rows) ==> (k in ItemKeys(Filter(before, KeySet(rows))) <==> k in ItemKeys(before))
    ensures forall k :: k in ItemKeys(Filter(before, KeySet(rows))) ==> k in KeySet(rows)
  {
    FilterMembers(before, KeySet(rows));
  }

  lemma {:induction false} PlacingEnds(
    before: seq<Item>, rows: seq<Row>, newTags: nat, now: seq<Item>, log: seq<Change>)
    requires DistinctItems(before) && Placing(Filter(before, KeySet(rows)), rows, newTags, |rows|, now, log)
    ensures |now| == |rows| && Placed(Filter(before, KeySet(rows)), rows, newTags, now)
    ensures NoMoves(log) <==> SameOrder(before, rows)
    ensures LoggedPlacing(Filter(before, KeySet(rows)), rows, |rows|, log)
  {
    var kept := Filter(before, KeySet(rows));
    assert rows[|rows|..] == [] && rows[..|rows|] == rows;
    assert KeySet(rows[|rows|..]) == {};
    FilterNone(kept);
    assert now[..|rows|] == now;
    SurvivorKeys(before, rows);
    NewOrderOfSurvivors(rows, ItemKeys(before), ItemKeys(kept));
  }

  lemma {:induction false} ReconciledTags(before: seq<Item>, after: seq<Item>, rows: seq<Row>, newTags: nat)
    requires |after| == |rows| && Placed(Filter(before, KeySet(rows)), rows, newTags, after)
    ensures forall i, x :: 0 <= i < |after| && x in before && x.row.key == after[i].row.key ==> after[i].tag == x.tag
    ensures forall i :: 0 <= i < |after| && after[i].row.key !in ItemKeys(before) ==> after[i].tag >= newTags
  {
    var kept := Filter(before, KeySet(rows));
    FilterMembers(before, KeySet(rows));
    forall i | 0 <= i < |after|
      ensures forall x :: x in before && x.row.key == after[i].row.key ==> after[i].tag == x.tag
      ensures after[i].row.key !in ItemKeys(before) ==> after[i].tag >= newTags
    {
      assert TagOf(kept, newTags, after[i]) && rows[i] in rows;
    }
  }

  lemma {:induction false} ReconciledLog(before: seq<Item>, rows: seq<Row>, pruned: seq<Change>, placed: seq<Change>)
    requires LoggedPruning(ItemKeys(before), KeySet(rows), pruned)
    requires LoggedPlacing(Filter(before, KeySet(rows)), rows, |rows|, placed)
    ensures var log := pruned + placed;
            && (forall k :: Count(log, Removed(k)) == if k in ItemKeys(before) && k !in KeySet(rows) then 1 else 0)
            && (forall k :: Count(log, Inserted(k)) == if k in KeySet(rows) && k !in ItemKeys(before) then 1 else 0)
            && (forall k :: Count(log, Moved(k)) <= if k in KeySet(rows) && k in ItemKeys(before) then 1 else 0)
            && (NoMoves(log) <==> NoMoves(placed))
  {
    CountConcat(pruned, placed);
    SurvivorKeys(before, rows);
    assert rows[..|rows|] == rows;
    forall k ensures Count(pruned + placed, Moved(k)) == Count(placed, Moved(k)) {
    }
  }

  /** The second pass: brings the wanted rows into place one by one, from the front. */
  method PlaceAll(model: ListModel, rows: seq<Row>, ghost kept: seq<Item>) returns (ghost done: seq<Change>)
    requires DistinctItems(kept) && DistinctRows(rows)
    requires Placing(kept, rows, model.nextTag, 0, model.items, [])
    modifies model
    ensures model.log == old(model.log) + done && old(model.nextTag) <= model.nextTag
    ensures Placing(kept, rows, old(model.nextTag), |rows|, model.items, done)
  {
    ghost var tags, start := model.nextTag, model.log;
    done := [];
    var i := 0;
    while i < |rows|
      invariant i <= |rows| && Placing(kept, rows, tags, i, model.items, done)
      invariant model.log == start + done && tags <= model.nextTag
    {
      ghost var step := PlaceOne(model, rows, i, kept, tags, done);
      LogsConcat(start, done, step);
      done := done + step;
      i := i + 1;
    }
  }

  /** The body of the second pass. */
  method PlaceOne(
    model: ListModel, rows: seq<Row>, i: nat, ghost kept: seq<Item>, ghost tags: nat, ghost done: seq<Change>)
    returns (ghost step: seq<Change>)
    requires DistinctItems(kept) && DistinctRows(rows) && i < |rows|
    requires Placing(kept, rows, tags, i, model.items, done) && tags <= model.nextTag
    modifies model
    ensures model.log == old(model.log) + step && old(model.nextTag) <= model.nextTag
    ensures Placing(kept, rows, tags, i + 1, model.items, done + step)
  {
    var row := rows[i];
    var found := Find(model.items, i, row.key);
    if found == -1 {
      StepInserted(kept, rows, tags, i, model.items, done, model.nextTag);
      model.Insert(i, row);
      return [Inserted(row.key)];
    }
    if found != i {
      StepMoved(kept, rows, tags, i, model.items, done, found);
      model.Move(found, i);
      model.Set(i, row);
      return [Moved(row.key), Changed(row.key)];
    }
    StepKept(kept, rows, tags, i, model.items, done);
    model.Set(i, row);
    step := [Changed(row.key)];
  }

  lemma {:induction false} LogsConcat(a: seq<Change>, b: seq<Change>, c: seq<Change>)
    ensures a + b + c == a + (b + c)
  {
  }

  lemma {:induction false} BothPasses(
    before: seq<Item>, after: seq<Item>, rows: seq<Row>, newTags: nat, pruned: seq<Change>, placed: seq<Change>)
    requires DistinctItems(before) && LoggedPruning(ItemKeys(before), KeySet(rows), pruned)
    requires Placing(Filter(before, KeySet(rows)), rows, newTags, |rows|, after, placed)
    ensures Reconciled(before, after, rows, newTags, pruned + placed)
  {
    PlacingEnds(before, rows, newTags, after, placed);
    ReconciledTags(before, after, rows, newTags);
    ReconciledLog(before, rows, pruned, placed);
  }

  lemma {:induction false} ReconciledDistinct(
    before: seq<Item>, after: seq<Item>, rows: seq<Row>, newTags: nat, log: seq<Change>)
    requires Reconciled(before, after, rows, newTags, log) && DistinctRows(rows)
    ensures DistinctItems(after)
  {
    assert forall i :: 0 <= i < |rows| ==> after[i].row == rows[i];
  }

  /** The model ends up equal to rows; every key in both keeps its element; only vanished keys are
      removed and only new ones inserted, once each; a survivor is moved at most once, and nothing
      is moved exactly when the survivors' relative order is unchanged. */
  method SyncModel(model: ListModel, rows: seq<Row>) returns (ghost done: seq<Change>)
    requires DistinctItems(model.items) && DistinctRows(rows)
    modifies model
    ensures model.log == old(model.log) + done && old(model.nextTag) <= model.nextTag
    ensures Reconciled(old(model.items), model.items, rows, old(model.nextTag), done) && DistinctItems(model.items)
  {
    ghost var before := model.items;
    var wanted := KeySet(rows);
    ghost var pruned := Prune(model, wanted);
    PlacingStarts(before, rows, model.nextTag);
    ghost var placed := PlaceAll(model, rows, Filter(before, wanted));
    BothPasses(before, model.items, rows, old(model.nextTag), pruned, placed);
    LogsConcat(old(model.log), pruned, placed);
    done := pruned + placed;
    ReconciledDistinct(before, model.items, rows, old(model.nextTag), done);
  }
}
