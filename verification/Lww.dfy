/**
 The merged state of a container: registers in which the greatest cell wins. Cells are ordered by stamp
 (Lamport number, then device id), then tombstone flag, then bytes; device ids and bytes compare
 lexicographically.
 */
module Lww {
  import opened Prelude

  type Bytes = seq<nat>

  datatype Stamp = Stamp(lamport: u64, device: Bytes)

  datatype Cell = Cell(stamp: Stamp, deleted: bool, value: Bytes)

  /** One field of one object. */
  datatype Register = Register(object: Bytes, field: nat)

  datatype Entry = Entry(register: Register, cell: Cell)

  type State = map<Register, Cell>

  // ── the order of cells ────────────────────────────────────────────────────

  predicate Before(a: Bytes, b: Bytes) {
    if b == [] then false
    else if a == [] then true
    else a[0] < b[0] || (a[0] == b[0] && Before(a[1..], b[1..]))
  }

  predicate Less(a: Cell, b: Cell) {
    if a.stamp.lamport != b.stamp.lamport then a.stamp.lamport < b.stamp.lamport
    else if a.stamp.device != b.stamp.device then Before(a.stamp.device, b.stamp.device)
    else if a.deleted != b.deleted then b.deleted
    else Before(a.value, b.value)
  }

  predicate Leq(a: Cell, b: Cell) {
    a == b || Less(a, b)
  }

  lemma {:induction false} BeforeIsStrict(a: Bytes, b: Bytes)
    ensures Before(a, b) ==> a != b && !Before(b, a)
    ensures a == b || Before(a, b) || Before(b, a)
  {
    if a != [] && b != [] {
      BeforeIsStrict(a[1..], b[1..]);
      assert a == [a[0]] + a[1..] && b == [b[0]] + b[1..];
    }
  }

  lemma {:induction false} BeforeIsTransitive(a: Bytes, b: Bytes, c: Bytes)
    requires Before(a, b) && Before(b, c)
    ensures Before(a, c)
  {
    if a != [] {
      if a[0] == b[0] && b[0] == c[0] {
        BeforeIsTransitive(a[1..], b[1..], c[1..]);
      }
    }
  }

  lemma LeqIsTotal(a: Cell, b: Cell)
    ensures Leq(a, b) || Leq(b, a)
    ensures Leq(a, b) && Leq(b, a) ==> a == b
  {
    BeforeIsStrict(a.stamp.device, b.stamp.device);
    BeforeIsStrict(a.value, b.value);
  }

  lemma LeqIsTransitive(a: Cell, b: Cell, c: Cell)
    requires Leq(a, b) && Leq(b, c)
    ensures Leq(a, c)
  {
    if a != b && b != c {
      BeforeIsStrict(a.stamp.device, b.stamp.device);
      BeforeIsStrict(b.stamp.device, c.stamp.device);
      if Before(a.stamp.device, b.stamp.device) && Before(b.stamp.device, c.stamp.device) {
        BeforeIsTransitive(a.stamp.device, b.stamp.device, c.stamp.device);
        BeforeIsStrict(a.stamp.device, c.stamp.device);
      }
      if Before(a.value, b.value) && Before(b.value, c.value) {
        BeforeIsTransitive(a.value, b.value, c.value);
      }
    }
  }

  /** Alike up to here, and here `a` ends or is lower. */
  predicate FirstDifference(a: Bytes, b: Bytes, n: int) {
    0 <= n <= |a| && n < |b| && a[..n] == b[..n] && (n < |a| ==> a[n] < b[n])
  }

  /** The order of device names, and of values, is the order of words. */
  lemma {:induction false} BeforeIsLexicographic(a: Bytes, b: Bytes)
    ensures Before(a, b) <==> exists n :: FirstDifference(a, b, n)
    decreases |b|
  {
    if a == [] && b != [] {
      assert FirstDifference(a, b, 0);
    } else if b != [] {
      BeforeIsLexicographic(a[1..], b[1..]);
      assert a == [a[0]] + a[1..] && b == [b[0]] + b[1..];
      if a[0] < b[0] { assert FirstDifference(a, b, 0); }
      if n :| FirstDifference(a[1..], b[1..], n) && a[0] == b[0] {
        assert a[..n + 1] == [a[0]] + a[1..][..n] && b[..n + 1] == [b[0]] + b[1..][..n];
        assert FirstDifference(a, b, n + 1);
      }
      if n :| FirstDifference(a, b, n) {
        if n > 0 {
          assert a[..n][0] == b[..n][0] && a[1..][..n - 1] == a[..n][1..] && b[1..][..n - 1] == b[..n][1..];
          assert FirstDifference(a[1..], b[1..], n - 1);
        }
      }
    }
  }

  lemma TwoWrites(s: State, a: Entry, b: Entry)
    ensures PutAll(s, [a, b]) == Put(Put(s, a), b)
  {
    assert [a, b][0] == a && [a, b][1..] == [b];
    assert PutAll(Put(s, a), [b]) == PutAll(Put(Put(s, a), b), [b][1..]) && [b][1..] == [];
  }

  /**
   Which of two writes to a register stays: the one with the later stamp; of one moment the one of the later device; of one
   stamp a deletion, and then the greater value. The earlier write leaves no trace, whichever comes first.
   */
  lemma LaterWriteStays(s: State, r: Register, early: Cell, late: Cell)
    requires
      || early.stamp.lamport < late.stamp.lamport
      || (early.stamp.lamport == late.stamp.lamport && Before(early.stamp.device, late.stamp.device))
      || (early.stamp == late.stamp && !early.deleted && late.deleted)
      || (early.stamp == late.stamp && early.deleted == late.deleted && Before(early.value, late.value))
    ensures PutAll(s, [Entry(r, early), Entry(r, late)]) == Put(s, Entry(r, late)) == PutAll(s, [Entry(r, late), Entry(r, early)])
  {
    BeforeIsStrict(early.stamp.device, late.stamp.device);
    BeforeIsStrict(early.value, late.value);
    assert Leq(early, late) && !Leq(late, early);
    TwoWrites(s, Entry(r, early), Entry(r, late));
    TwoWrites(s, Entry(r, late), Entry(r, early));
    if r in s {
      LeqIsTotal(s[r], late);
      LeqIsTotal(s[r], early);
      if Leq(late, s[r]) { LeqIsTransitive(early, late, s[r]); }
    }
  }

  // ── merging ───────────────────────────────────────────────────────────────

  /** A write wins when it is greater than what the register holds. */
  function Put(s: State, e: Entry): State {
    if e.register in s && Leq(e.cell, s[e.register]) then s else s[e.register := e.cell]
  }

  function PutAll(s: State, es: seq<Entry>): State
    decreases |es|
  {
    if es == [] then s else PutAll(Put(s, es[0]), es[1..])
  }

  /** The greater cell of each register: what merging a whole state comes to. */
  function Join(s: State, t: State): State {
    map r | r in s.Keys + t.Keys ::
      if r !in s then t[r] else if r !in t then s[r] else if Leq(t[r], s[r]) then s[r] else t[r]
  }

  /** Merging a state register by register, in whatever order the registers are visited. */
  method MergeState(s: State, t: State) returns (r: State)
    ensures r == Join(s, t)
  {
    r := s;
    var todo := t.Keys;
    while todo != {}
      invariant todo <= t.Keys
      invariant r.Keys == s.Keys + (t.Keys - todo)
      invariant forall k :: k in r ==> r[k] == (if k in todo then s[k] else Join(s, t)[k])
      decreases |todo|
    {
      var k :| k in todo;
      r := Put(r, Entry(k, t[k]));
      todo := todo - {k};
    }
  }

  // ── what a state means ────────────────────────────────────────────────────

  /** `s` holds, for each register written in `es`, the greatest cell written to it. */
  ghost predicate Holds(s: State, es: set<Entry>) {
    && (forall r :: r in s ==> Entry(r, s[r]) in es)
    && (forall e :: e in es ==> e.register in s && Leq(e.cell, s[e.register]))
  }

  /** `t` is at or above `s` in the merge order. */
  ghost predicate Below(s: State, t: State) {
    forall r :: r in s ==> r in t && Leq(s[r], t[r])
  }

  function Elements(es: seq<Entry>): set<Entry> {
    set e | e in es
  }

  lemma UnionSwap(a: set<Entry>, b: set<Entry>, c: set<Entry>)
    ensures a + b + c == a + c + b
  {
  }

  lemma UnionGroups(a: set<Entry>, b: set<Entry>, c: set<Entry>)
    ensures a + (b + c) == a + b + c && a + {} == a
  {
  }

  /** The writes determine the state: no order, no repetition count enters it. */
  lemma HoldsIsUnique(s: State, t: State, es: set<Entry>)
    requires Holds(s, es) && Holds(t, es)
    ensures s == t
  {
    forall r | r in s && r in t ensures s[r] == t[r] {
      assert Entry(r, s[r]) in es && Entry(r, t[r]) in es;
      LeqIsTotal(s[r], t[r]);
    }
    assert forall r :: r in s ==> Entry(r, s[r]) in es;
    assert forall r :: r in t ==> Entry(r, t[r]) in es;
    assert s.Keys == t.Keys;
  }

  lemma HoldsItself(s: State)
    ensures Holds(s, set r | r in s :: Entry(r, s[r]))
  {
  }

  lemma PutHolds(s: State, e: Entry, es: set<Entry>)
    requires Holds(s, es)
    ensures Holds(Put(s, e), es + {e})
  {
    var t := Put(s, e);
    if e.register in s { LeqIsTotal(e.cell, s[e.register]); }
    forall f | f in es + {e} ensures f.register in t && Leq(f.cell, t[f.register]) {
      if f in es && f.register == e.register && t != s {
        LeqIsTransitive(f.cell, s[f.register], e.cell);
      }
    }
  }

  lemma {:induction false} PutAllHolds(s: State, more: seq<Entry>, es: set<Entry>)
    requires Holds(s, es)
    ensures Holds(PutAll(s, more), es + Elements(more))
    decreases |more|
  {
    if more == [] {
      assert es + Elements(more) == es;
    } else {
      PutHolds(s, more[0], es);
      PutAllHolds(Put(s, more[0]), more[1..], es + {more[0]});
      assert more == [more[0]] + more[1..];
      assert es + {more[0]} + Elements(more[1..]) == es + Elements(more);
    }
  }

  lemma JoinHolds(s: State, t: State, es: set<Entry>, fs: set<Entry>)
    requires Holds(s, es) && Holds(t, fs)
    ensures Holds(Join(s, t), es + fs)
  {
    var j := Join(s, t);
    forall r | r in j ensures Entry(r, j[r]) in es + fs {
      if r in s { assert Entry(r, s[r]) in es; }
      if r in t { assert Entry(r, t[r]) in fs; }
    }
    forall e | e in es + fs ensures e.register in j && Leq(e.cell, j[e.register]) {
      var r := e.register;
      if r in s && r in t {
        LeqIsTotal(s[r], t[r]);
        if e in es && j[r] == t[r] { LeqIsTransitive(e.cell, s[r], t[r]); }
        if e in fs && j[r] == s[r] { LeqIsTransitive(e.cell, t[r], s[r]); }
      }
    }
  }

  // ── the join laws ─────────────────────────────────────────────────────────

  /** Writes commute, associate and repeat freely: any two lists of the same writes agree. */
  lemma OrderOfWritesIsFree(s: State, es: seq<Entry>, fs: seq<Entry>)
    requires Elements(es) == Elements(fs)
    ensures PutAll(s, es) == PutAll(s, fs)
  {
    var own := set r | r in s :: Entry(r, s[r]);
    HoldsItself(s);
    PutAllHolds(s, es, own);
    PutAllHolds(s, fs, own);
    HoldsIsUnique(PutAll(s, es), PutAll(s, fs), own + Elements(es));
  }

  lemma JoinCommutes(s: State, t: State)
    ensures Join(s, t) == Join(t, s)
  {
    forall r | r in s && r in t ensures Join(s, t)[r] == Join(t, s)[r] { LeqIsTotal(s[r], t[r]); }
    assert s.Keys + t.Keys == t.Keys + s.Keys;
  }

  lemma JoinAssociates(s: State, t: State, u: State)
    ensures Join(Join(s, t), u) == Join(s, Join(t, u))
  {
    var l, m := Join(Join(s, t), u), Join(s, Join(t, u));
    JoinIsLeastUpperBound(s, t, m);
    JoinIsLeastUpperBound(Join(s, t), u, m);
    JoinIsLeastUpperBound(t, u, l);
    JoinIsLeastUpperBound(s, Join(t, u), l);
    BelowIsTransitive(t, Join(t, u), m);
    BelowIsTransitive(u, Join(t, u), m);
    BelowIsTransitive(s, Join(s, t), l);
    BelowIsTransitive(t, Join(s, t), l);
    BelowIsAntisymmetric(l, m);
  }

  lemma JoinRepeatsFreely(s: State, t: State)
    ensures Join(Join(s, t), t) == Join(s, t)
  {
    var j := Join(s, t);
    JoinIsLeastUpperBound(s, t, j);
    assert forall r :: r in j ==> Join(j, t)[r] == j[r] by {
      forall r | r in j ensures Join(j, t)[r] == j[r] {
        if r in t { LeqIsTotal(j[r], t[r]); }
      }
    }
    assert j.Keys + t.Keys == j.Keys;
  }

  /** `Join` is the least state above both. */
  lemma JoinIsLeastUpperBound(s: State, t: State, u: State)
    ensures Below(s, Join(s, t)) && Below(t, Join(s, t))
    ensures Below(s, u) && Below(t, u) ==> Below(Join(s, t), u)
  {
    forall r | r in s && r in t ensures Leq(s[r], Join(s, t)[r]) && Leq(t[r], Join(s, t)[r]) {
      LeqIsTotal(s[r], t[r]);
    }
  }

  lemma BelowIsAntisymmetric(s: State, t: State)
    requires Below(s, t) && Below(t, s)
    ensures s == t
  {
    forall r | r in s ensures s[r] == t[r] { LeqIsTotal(s[r], t[r]); }
  }

  lemma BelowIsTransitive(s: State, t: State, u: State)
    requires Below(s, t) && Below(t, u)
    ensures Below(s, u)
  {
    forall r | r in s ensures r in u && Leq(s[r], u[r]) { LeqIsTransitive(s[r], t[r], u[r]); }
  }

  /** A write into the greater state stays above the same write into the smaller one. */
  lemma PutIsMonotone(s: State, t: State, e: Entry)
    requires Below(s, t)
    ensures Below(Put(s, e), Put(t, e)) && Below(t, Put(t, e))
  {
    var r := e.register;
    if r in t { LeqIsTotal(e.cell, t[r]); }
    if r in s && r in t && Leq(e.cell, s[r]) { LeqIsTransitive(e.cell, s[r], t[r]); }
  }

  lemma {:induction false} PutAllIsMonotone(s: State, t: State, es: seq<Entry>)
    requires Below(s, t)
    ensures Below(PutAll(s, es), PutAll(t, es)) && Below(t, PutAll(t, es))
    decreases |es|
  {
    if es != [] {
      PutIsMonotone(s, t, es[0]);
      PutAllIsMonotone(Put(s, es[0]), Put(t, es[0]), es[1..]);
      BelowIsTransitive(t, Put(t, es[0]), PutAll(t, es));
    }
  }

  /** A bound of the state and of each write bounds the result. */
  lemma {:induction false} PutAllStaysBelow(s: State, es: seq<Entry>, top: State)
    requires Below(s, top)
    requires forall e :: e in es ==> e.register in top && Leq(e.cell, top[e.register])
    ensures Below(PutAll(s, es), top)
    decreases |es|
  {
    if es != [] {
      PutAllStaysBelow(Put(s, es[0]), es[1..], top);
    }
  }

  /** Every write is below the state it was merged into. */
  lemma {:induction false} PutAllCovers(s: State, es: seq<Entry>)
    ensures forall e :: e in es ==> e.register in PutAll(s, es) && Leq(e.cell, PutAll(s, es)[e.register])
    decreases |es|
  {
    HoldsItself(s);
    PutAllHolds(s, es, set r | r in s :: Entry(r, s[r]));
    forall e | e in es ensures e.register in PutAll(s, es) && Leq(e.cell, PutAll(s, es)[e.register]) {
      assert e in Elements(es);
    }
  }
}
