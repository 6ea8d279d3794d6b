/**
 The order in which messages are shown: as they come, except that a row far older than those already
 placed goes to where its time belongs. Rows close in time are never reordered.
 */
module History {

  const LIVE_WINDOW_SECS: int := 300

  datatype Row = Row(id: nat, ts: int)

  /** `m` may stand right after `before`. */
  predicate InWindow(before: Row, m: Row) {
    before.ts <= m.ts + LIVE_WINDOW_SECS
  }

  // ── the order, as indices into the list ───────────────────────────────────

  /** Where a row goes: after the last placed row that is not more than the window newer. */
  function Spot(rows: seq<Row>, order: seq<int>, m: Row): (at: nat)
    requires Indices(order, |rows|)
    ensures at <= |order|
    ensures at > 0 ==> InWindow(rows[order[at - 1]], m)
    ensures forall k :: at <= k < |order| ==> !InWindow(rows[order[k]], m)
  {
    if order == [] then 0
    else
      var k := |order| - 1;
      if InWindow(rows[order[k]], m) then |order| else Spot(rows, order[..k], m)
  }

  predicate Indices(order: seq<int>, n: nat) {
    forall i :: 0 <= i < |order| ==> 0 <= order[i] < n
  }

  function Inserted<T>(xs: seq<T>, at: nat, x: T): (ys: seq<T>)
    requires at <= |xs|
    ensures |ys| == |xs| + 1
  {
    xs[..at] + [x] + xs[at..]
  }

  /** The first `n` rows, each put in its place in turn. */
  function Order(rows: seq<Row>, n: nat): (order: seq<int>)
    requires n <= |rows|
    ensures |order| == n && Indices(order, n) && Indices(order, |rows|)
  {
    if n == 0 then []
    else
      var before := Order(rows, n - 1);
      Inserted(before, Spot(rows, before, rows[n - 1]), n - 1)
  }

  function At(rows: seq<Row>, order: seq<int>): (out: seq<Row>)
    requires Indices(order, |rows|)
    ensures |out| == |order|
  {
    seq(|order|, i requires 0 <= i < |order| => rows[order[i]])
  }

  /** The list as it is shown. */
  function Placed(rows: seq<Row>): seq<Row> {
    At(rows, Order(rows, |rows|))
  }

  method PlaceByTime(rows: seq<Row>) returns (out: seq<Row>)
    ensures out == Placed(rows)
  {
    var misplaced := AnyMisplaced(rows);
    if !misplaced {
      NothingToMove(rows);
      return rows;
    }
    out := PlaceAll(rows);
  }

  /** Is some row too old for one before it? */
  method AnyMisplaced(rows: seq<Row>) returns (misplaced: bool)
    ensures misplaced <==> exists j, k :: 0 <= j < k < |rows| && rows[k].ts + LIVE_WINDOW_SECS < rows[j].ts
  {
    misplaced := false;
    var latest: nat := 0;  // where the greatest time so far is
    for i := 0 to |rows|
      invariant latest < i || i == 0
      invariant forall k :: 0 <= k < i ==> rows[k].ts <= rows[latest].ts
      invariant misplaced <==> exists j, k :: 0 <= j < k < i && !InWindow(rows[j], rows[k])
    {
      if i > 0 && rows[i].ts + LIVE_WINDOW_SECS < rows[latest].ts {
        assert !InWindow(rows[latest], rows[i]);
        misplaced := true;
      }
      if i == 0 || rows[latest].ts < rows[i].ts { latest := i; }
    }
  }

  method PlaceAll(rows: seq<Row>) returns (out: seq<Row>)
    ensures out == Placed(rows)
  {
    hide InWindow, Indices;
    out := [];
    ghost var order: seq<int> := [];
    for n := 0 to |rows|
      invariant order == Order(rows, n) && out == At(rows, order)
    {
      var at := FindSpot(out, rows[n]);
      SpotIs(rows, order, out, rows[n], at);
      OrderStep(rows, n + 1);
      AtInserted(rows, order, at, n);
      hide Order, At, Inserted;
      order := Inserted(order, at, n);
      out := Inserted(out, at, rows[n]);
    }
  }

  /** From the end, past every row that is too new to stand before `m`. */
  method FindSpot(out: seq<Row>, m: Row) returns (at: nat)
    ensures at <= |out| && (at > 0 ==> InWindow(out[at - 1], m))
    ensures forall k :: at <= k < |out| ==> !InWindow(out[k], m)
  {
    at := |out|;
    while at > 0 && out[at - 1].ts > m.ts + LIVE_WINDOW_SECS
      invariant at <= |out|
      invariant forall k :: at <= k < |out| ==> !InWindow(out[k], m)
    {
      at := at - 1;
    }
  }

  lemma OrderStep(rows: seq<Row>, n: nat)
    requires 0 < n <= |rows|
    ensures Order(rows, n) == Inserted(Order(rows, n - 1), Spot(rows, Order(rows, n - 1), rows[n - 1]), n - 1)
  {
  }

  lemma AtInserted(rows: seq<Row>, order: seq<int>, at: nat, n: nat)
    requires Indices(order, |rows|) && at <= |order| && n < |rows|
    ensures Indices(Inserted(order, at, n), |rows|)
    ensures At(rows, Inserted(order, at, n)) == Inserted(At(rows, order), at, rows[n])
  {
  }

  lemma SpotIs(rows: seq<Row>, order: seq<int>, out: seq<Row>, m: Row, at: nat)
    requires Indices(order, |rows|) && out == At(rows, order) && at <= |out|
    requires forall k :: at <= k < |out| ==> !InWindow(out[k], m)
    requires at > 0 ==> InWindow(out[at - 1], m)
    ensures Spot(rows, order, m) == at
  {
    var s := Spot(rows, order, m);
    assert forall k :: 0 <= k < |order| ==> out[k] == rows[order[k]];
    if s > 0 { assert InWindow(out[s - 1], m); }
  }

  // ── what the order is worth ───────────────────────────────────────────────

  lemma MultisetOfInserted<T>(xs: seq<T>, at: nat, x: T)
    requires at <= |xs|
    ensures multiset(Inserted(xs, at, x)) == multiset(xs) + multiset{x}
  {
    assert xs == xs[..at] + xs[at..];
  }

  /** No index twice; as there are as many as rows, each is there once. */
  ghost predicate NoRepeats(order: seq<int>) {
    forall p, q :: 0 <= p < q < |order| ==> order[p] != order[q]
  }

  lemma InsertedElement<T>(xs: seq<T>, at: nat, x: T, i: nat)
    requires at <= |xs| && i <= |xs|
    ensures Inserted(xs, at, x)[i] == if i < at then xs[i] else if i == at then x else xs[i - 1]
  {
  }

  lemma InsertedOnce(before: seq<int>, at: nat, x: int)
    requires NoRepeats(before) && at <= |before| && x !in before
    ensures NoRepeats(Inserted(before, at, x))
  {
    var order := Inserted(before, at, x);
    forall p, q | 0 <= p < q < |order| ensures order[p] != order[q] {
      InsertedElement(before, at, x, p);
      InsertedElement(before, at, x, q);
    }
  }

  lemma {:induction false} EachIndexOnce(rows: seq<Row>, n: nat)
    requires n <= |rows|
    ensures NoRepeats(Order(rows, n))
  {
    if n > 0 {
      EachIndexOnce(rows, n - 1);
      var before := Order(rows, n - 1);
      assert n - 1 !in before;
      InsertedOnce(before, Spot(rows, before, rows[n - 1]), n - 1);
      OrderStep(rows, n);
      hide *;
    }
  }

  lemma OneMoreRow(rows: seq<Row>, n: nat)
    requires 0 < n <= |rows|
    ensures multiset(rows[..n]) == multiset(rows[..n - 1]) + multiset{rows[n - 1]}
  {
    assert rows[..n] == rows[..n - 1] + [rows[n - 1]];
  }

  lemma PlacesOneRow(rows: seq<Row>, n: nat)
    requires 0 < n <= |rows|
    ensures multiset(At(rows, Order(rows, n))) == multiset(At(rows, Order(rows, n - 1))) + multiset{rows[n - 1]}
  {
    var before := Order(rows, n - 1);
    var at := Spot(rows, before, rows[n - 1]);
    OrderStep(rows, n);
    AtInserted(rows, before, at, n - 1);
    MultisetOfInserted(At(rows, before), at, rows[n - 1]);
    hide *;
  }

  lemma {:induction false} OrderKeepsRows(rows: seq<Row>, n: nat)
    requires n <= |rows|
    ensures multiset(At(rows, Order(rows, n))) == multiset(rows[..n])
  {
    if n > 0 {
      PlacesOneRow(rows, n);
      OrderKeepsRows(rows, n - 1);
      OneMoreRow(rows, n);
      hide *;
    }
  }

  /** No row is more than the window newer than the row after it. */
  predicate Close(rows: seq<Row>) {
    forall i :: 0 <= i < |rows| - 1 ==> rows[i].ts <= rows[i + 1].ts + LIVE_WINDOW_SECS
  }

  lemma {:induction false} PlacedIsClose(rows: seq<Row>, n: nat)
    requires n <= |rows|
    ensures Close(At(rows, Order(rows, n)))
  {
    if n > 0 {
      PlacedIsClose(rows, n - 1);
      var before, m := Order(rows, n - 1), rows[n - 1];
      var at: int := Spot(rows, before, m);
      var out, was := At(rows, Order(rows, n)), At(rows, before);
      AtInserted(rows, before, at, n - 1);
      assert out == Inserted(was, at, m);
      forall i | 0 <= i < |out| - 1 ensures InWindow(out[i], out[i + 1]) {
        if i < at - 1 {
          assert InWindow(was[i], was[i + 1]);
        } else if i > at {
          assert InWindow(was[i - 1], was[i]);
        }
      }
    }
  }

  /** Two rows change places only if the one that came first is more than the window newer. */
  ghost predicate MovesOnlyTheFarOlder(rows: seq<Row>, order: seq<int>)
    requires Indices(order, |rows|)
  {
    forall p, q :: 0 <= p < q < |order| && order[p] > order[q] ==> rows[order[p]].ts + LIVE_WINDOW_SECS < rows[order[q]].ts
  }

  lemma PairMoves(rows: seq<Row>, before: seq<int>, n: nat, p: nat, q: nat)
    requires n < |rows| && Indices(before, n) && Indices(before, |rows|) && MovesOnlyTheFarOlder(rows, before)
    requires p < q <= |before|
    ensures var order := Inserted(before, Spot(rows, before, rows[n]), n);
      order[p] > order[q] ==> order[p] < |rows| && rows[order[p]].ts + LIVE_WINDOW_SECS < rows[order[q]].ts
  {
    var at := Spot(rows, before, rows[n]);
    InsertedElement(before, at, n, p);
    InsertedElement(before, at, n, q);
    hide Inserted, Spot;
  }

  lemma {:induction false} OnlyTheFarOlderMove(rows: seq<Row>, n: nat)
    requires n <= |rows|
    ensures MovesOnlyTheFarOlder(rows, Order(rows, n))
  {
    if n > 0 {
      OrderStep(rows, n);
      hide Order, Spot, Inserted, Indices, InWindow;
      OnlyTheFarOlderMove(rows, n - 1);
      forall p, q | 0 <= p < q < n && Order(rows, n)[p] > Order(rows, n)[q]
        ensures rows[Order(rows, n)[p]].ts + LIVE_WINDOW_SECS < rows[Order(rows, n)[q]].ts
      {
        PairMoves(rows, Order(rows, n - 1), n - 1, p, q);
      }
    }
  }

  /** The rows come out as they are exactly if each may stand after the one before it. */
  lemma {:induction false} UnmovedIffClose(rows: seq<Row>)
    ensures Placed(rows) == rows <==> Close(rows)
  {
    PlacedIsClose(rows, |rows|);
    if Close(rows) { CloseStaysPut(rows, |rows|); }
  }

  lemma {:induction false} CloseStaysPut(rows: seq<Row>, n: nat)
    requires n <= |rows| && Close(rows)
    ensures forall i :: 0 <= i < n ==> Order(rows, n)[i] == i
  {
    if n > 0 {
      CloseStaysPut(rows, n - 1);
      if n > 1 { assert InWindow(rows[n - 2], rows[n - 1]); }
      SpotIs(rows, Order(rows, n - 1), At(rows, Order(rows, n - 1)), rows[n - 1], n - 1);
    }
  }

  /** The early return: with no row too old for any before it, placing changes nothing. */
  lemma NothingToMove(rows: seq<Row>)
    requires forall j, k :: 0 <= j < k < |rows| ==> InWindow(rows[j], rows[k])
    ensures Placed(rows) == rows
  {
    UnmovedIffClose(rows);
  }

  /** Placing what was placed changes nothing. */
  lemma PlacingTwiceIsPlacingOnce(rows: seq<Row>)
    ensures Placed(Placed(rows)) == Placed(rows)
  {
    PlacedIsClose(rows, |rows|);
    UnmovedIffClose(Placed(rows));
  }

  lemma PlacedIsPermutation(rows: seq<Row>)
    ensures multiset(Placed(rows)) == multiset(rows)
  {
    OrderKeepsRows(rows, |rows|);
    assert rows[..|rows|] == rows;
  }

  // ── a batch, and a replay ─────────────────────────────────────────────────

  predicate ById(rows: seq<Row>) {
    forall i, j :: 0 <= i < j < |rows| ==> rows[i].id < rows[j].id
  }

  function Insert(rows: seq<Row>, m: Row): seq<Row> {
    if rows == [] then [m]
    else if m.id < rows[|rows| - 1].id then Insert(rows[..|rows| - 1], m) + [rows[|rows| - 1]]
    else rows + [m]
  }

  /** The rows by id, rows of one id in the order they came. */
  function Sorted(rows: seq<Row>): seq<Row> {
    if rows == [] then [] else Insert(Sorted(rows[..|rows| - 1]), rows[|rows| - 1])
  }

  /** A batch of new rows as it is shown. */
  function Shown(batch: seq<Row>): seq<Row> {
    Placed(Sorted(batch))
  }

  ghost predicate Distinct(rows: seq<Row>) {
    forall i, j :: 0 <= i < j < |rows| ==> rows[i].id != rows[j].id
  }

  lemma {:induction false} InsertKeepsRows(rows: seq<Row>, m: Row)
    ensures multiset(Insert(rows, m)) == multiset(rows) + multiset{m}
  {
    if rows != [] {
      var k := |rows| - 1;
      assert rows == rows[..k] + [rows[k]];
      InsertKeepsRows(rows[..k], m);
    }
  }

  lemma {:induction false} InsertById(rows: seq<Row>, m: Row)
    requires ById(rows) && forall r :: r in rows ==> r.id != m.id
    ensures ById(Insert(rows, m))
  {
    if rows != [] {
      var k := |rows| - 1;
      assert rows[k] in rows;
      if m.id < rows[k].id {
        InsertById(rows[..k], m);
        InsertKeepsRows(rows[..k], m);
        var out := Insert(rows[..k], m);
        forall i | 0 <= i < |out| ensures out[i].id < rows[k].id {
          assert out[i] in multiset(out);
          assert out[i] in multiset(rows[..k]) || out[i] == m;
        }
      }
    }
  }

  lemma {:induction false} SortedById(rows: seq<Row>)
    requires Distinct(rows)
    ensures ById(Sorted(rows)) && multiset(Sorted(rows)) == multiset(rows)
  {
    if rows != [] {
      var k := |rows| - 1;
      SortedById(rows[..k]);
      assert rows == rows[..k] + [rows[k]];
      forall r | r in Sorted(rows[..k]) ensures r.id != rows[k].id {
        assert r in multiset(rows[..k]);
      }
      InsertById(Sorted(rows[..k]), rows[k]);
      InsertKeepsRows(Sorted(rows[..k]), rows[k]);
    }
  }

  ghost predicate SameRows(a: seq<Row>, b: seq<Row>) {
    forall r :: r in a <==> r in b
  }

  lemma LastIsGreatest(rows: seq<Row>, r: Row)
    requires ById(rows) && r in rows
    ensures r.id < rows[|rows| - 1].id || r == rows[|rows| - 1]
  {
  }

  lemma AllButLast(rows: seq<Row>, r: Row)
    requires ById(rows) && rows != []
    ensures r in rows[..|rows| - 1] <==> r in rows && r != rows[|rows| - 1]
  {
    var k := |rows| - 1;
    if r in rows && r != rows[k] {
      var i :| 0 <= i < |rows| && rows[i] == r;
      assert rows[..k][i] == r;
    }
  }

  /** Rows in the order of their ids are determined by which rows they are. */
  lemma {:induction false} ByIdIsUnique(a: seq<Row>, b: seq<Row>)
    requires ById(a) && ById(b) && SameRows(a, b)
    ensures a == b
    decreases |a|
  {
    assert a != [] ==> a[|a| - 1] in a;
    assert b != [] ==> b[|b| - 1] in b;
    if a != [] && b != [] {
      var k, l := |a| - 1, |b| - 1;
      LastIsGreatest(a, b[l]);
      LastIsGreatest(b, a[k]);
      forall r ensures r in a[..k] <==> r in b[..l] {
        AllButLast(a, r);
        AllButLast(b, r);
      }
      ByIdIsUnique(a[..k], b[..l]);
      assert a == a[..k] + [a[k]] && b == b[..l] + [b[l]];
    }
  }

  /**
   What is shown of a batch depends only on which rows it holds, not on the order of the operations that brought
   them; and it is what a replay from the store, which keeps rows by id, shows.
   */
  lemma OrderOfArrivalDoesNotMatter(batch: seq<Row>, other: seq<Row>, stored: seq<Row>)
    requires Distinct(batch) && multiset(batch) == multiset(other) == multiset(stored) && Distinct(other) && ById(stored)
    ensures Shown(batch) == Shown(other) == Placed(stored)
  {
    SortedById(batch);
    SortedById(other);
    SameMultisetSameRows(Sorted(batch), Sorted(other));
    SameMultisetSameRows(Sorted(batch), stored);
    ByIdIsUnique(Sorted(batch), Sorted(other));
    ByIdIsUnique(Sorted(batch), stored);
  }

  lemma SameMultisetSameRows(a: seq<Row>, b: seq<Row>)
    requires multiset(a) == multiset(b)
    ensures SameRows(a, b)
  {
    forall r ensures r in a <==> r in b { assert r in multiset(a) <==> r in multiset(b); }
  }
}
