/**
 Epoch keys that come late: operations of one epoch are opened in order, those of two epochs in any; what the clock makes of it.
 */
module LateKeys {
  import opened Prelude
  import opened Lww
  import opened Guard
  import opened Access
  import opened Journal
  import opened Convergence

  /** What is known in the end. */
  datatype Truth = Truth(access: Access, authors: Authors, keys: map<u64, EpochKey>)

  /** The way of a device: from which cursor, epoch floor and waiting operations it went along which journal. */
  datatype Course = Course(t: Truth, start: u64, floor: u64, waiting: seq<ContainerOp>, j: seq<ContainerOp>)

  ghost predicate Sound(co: Course) {
    && Sorted(co.j) && (forall i :: 0 <= i < |co.j| ==> co.start < co.j[i].seq_)
    && forall op :: op in co.waiting ==> CheckOp(co.t.access, op, co.t.authors).Ok?
  }

  function PassedTo(co: Course, n: nat): seq<ContainerOp>
    requires n <= |co.j|
  {
    Passed(co.t.access, co.t.authors, co.floor, co.j[..n])
  }

  /** The operations that waited at the start, and those of the first `n` that pass. */
  function Stretch(co: Course, n: nat): seq<ContainerOp>
    requires n <= |co.j|
  {
    co.waiting + PassedTo(co, n)
  }

  function Written(t: Truth, keys: map<u64, EpochKey>, ops: seq<ContainerOp>): set<Entry> {
    AllWrites(t.access, t.authors, keys, ops)
  }

  /** The device is where its course, up to the first `n` operations, should have brought it. */
  ghost predicate At(c: Local, co: Course, base: set<Entry>, n: nat) {
    && n <= |co.j|
    && c.headSeq == (if n == 0 then co.start else co.j[n - 1].seq_)
    && c.lastOpEpoch == Floor(PassedTo(co, n), co.floor)
    && c.pending == Keyless(Stretch(co, n), c.keys) && Extends(c.keys, co.t.keys)
    && Holds(c.state, base + Written(co.t, c.keys, Stretch(co, n)))
  }

  // ── stamps and the clock ──────────────────────────────────────────────────

  /** The stamps the clock meets when the operation is opened with these keys. */
  function Stamps(op: ContainerOp, keys: map<u64, EpochKey>): seq<u64> {
    if op.keyEpoch in keys && Legible(op, keys[op.keyEpoch]) then Lamports(AllEntries(op.body.value)) else []
  }

  /** The clock has seen all stamps of these operations that the keys open. */
  ghost predicate ClockCovers(g: u64, keys: map<u64, EpochKey>, ops: seq<ContainerOp>) {
    forall op, l :: op in ops && l in Stamps(op, keys) ==> l <= g
  }

  function Among(ops: seq<ContainerOp>, epochs: set<u64>): seq<ContainerOp> {
    if ops == [] then []
    else
      var k := |ops| - 1;
      Among(ops[..k], epochs) + if ops[k].keyEpoch in epochs then [ops[k]] else []
  }

  /** The clock after opening these one after another. */
  function ClockOver(g: u64, ops: seq<ContainerOp>, keys: map<u64, EpochKey>): u64 {
    if ops == [] then g
    else var k := |ops| - 1; CheckAll(ClockOver(g, ops[..k], keys), Stamps(ops[k], keys)).max
  }

  /** The clock takes the `k`-th operation after those of its own epoch and of the epochs known from the start. */
  predicate RoomAt(g: u64, p: seq<ContainerOp>, k: nat, known: set<u64>, keys: map<u64, EpochKey>)
    requires k < |p|
  {
    CheckAll(ClockOver(g, Among(p[..k], known + {p[k].keyEpoch}), keys), Stamps(p[k], keys)).ok
  }

  ghost predicate Room(g: u64, p: seq<ContainerOp>, known: set<u64>, keys: map<u64, EpochKey>) {
    forall k :: 0 <= k < |p| ==> RoomAt(g, p, k, known, keys)
  }

  lemma {:induction false} CheckAllBound(max: u64, ls: seq<u64>, g: u64)
    requires max <= g && forall l :: l in ls ==> l <= g
    ensures CheckAll(max, ls).max <= g
    decreases |ls|
  {
    if ls != [] {
      assert ls[0] in ls && forall l :: l in ls[1..] ==> l in ls;
      CheckAllBound(Check(max, ls[0]), ls[1..], g);
    }
  }

  lemma {:induction false} ClockOverBound(g0: u64, ops: seq<ContainerOp>, keys: map<u64, EpochKey>, g: u64)
    requires g0 <= g && ClockCovers(g, keys, ops)
    ensures ClockOver(g0, ops, keys) <= g
  {
    if ops != [] {
      var k := |ops| - 1;
      assert ops[k] in ops && forall op :: op in ops[..k] ==> op in ops;
      hide Stamps;
      ClockOverBound(g0, ops[..k], keys, g);
      CheckAllBound(ClockOver(g0, ops[..k], keys), Stamps(ops[k], keys), g);
    }
  }

  lemma {:induction false} AmongMembers(ops: seq<ContainerOp>, epochs: set<u64>)
    ensures forall op :: op in Among(ops, epochs) <==> op in ops && op.keyEpoch in epochs
  {
    if ops != [] {
      var k := |ops| - 1;
      AmongMembers(ops[..k], epochs);
      assert ops == ops[..k] + [ops[k]];
    }
  }

  lemma SameStamps(op: ContainerOp, keys: map<u64, EpochKey>, more: map<u64, EpochKey>)
    requires Extends(keys, more) && op.keyEpoch in keys
    ensures Stamps(op, keys) == Stamps(op, more)
  {
  }

  /** A clock that has seen what these keys open of the operations before it takes the next. */
  lemma RoomSuffices(g0: u64, p: seq<ContainerOp>, k: nat, known: set<u64>, keys: map<u64, EpochKey>, all: map<u64, EpochKey>, g: u64)
    requires k < |p| && Room(g0, p, known, all) && Extends(keys, all) && known <= keys.Keys && p[k].keyEpoch in keys
    requires g0 <= g && ClockCovers(g, keys, p[..k])
    ensures var r := CheckAll(g, Stamps(p[k], keys)); r.ok && g <= r.max && forall l :: l in Stamps(p[k], keys) ==> l <= r.max
  {
    var ops := Among(p[..k], known + {p[k].keyEpoch});
    AmongMembers(p[..k], known + {p[k].keyEpoch});
    forall op, l | op in ops && l in Stamps(op, all) ensures l <= g {
      SameStamps(op, keys, all);
    }
    SameStamps(p[k], keys, all);
    assert RoomAt(g0, p, k, known, all);
    hide Stamps, Among;
    ClockOverBound(g0, ops, all, g);
    AheadAcceptsMore(ClockOver(g0, ops, all), g, Stamps(p[k], keys));
    CheckAllNeverLowers(g, Stamps(p[k], keys));
    AcceptedRaisesExactly(g, Stamps(p[k], keys));
  }

  // ── opening ───────────────────────────────────────────────────────────────

  lemma OpenMeetsStamps(keys: map<u64, EpochKey>, guard: u64, state: State, op: ContainerOp, author: Author)
    requires op.keyEpoch in keys
    ensures Open(keys, guard, state, op, author).guard == CheckAll(guard, Stamps(op, keys)).max
  {
  }

  /** What the clock takes is merged: exactly what the operation writes. */
  lemma OpenMergesWrites(keys: map<u64, EpochKey>, guard: u64, state: State, op: ContainerOp, a: Access, authors: Authors, es: set<Entry>)
    requires CheckOp(a, op, authors).Ok? && op.keyEpoch in keys
    requires CheckAll(guard, Stamps(op, keys)).ok && Holds(state, es)
    ensures Holds(Open(keys, guard, state, op, CheckOp(a, op, authors).value).state, es + WritesOf(a, authors, keys, op))
  {
    if Legible(op, keys[op.keyEpoch]) { PutAllHolds(state, ValidEntries(op.body.value), es); }
    assert es + {} == es;
  }

  // ── operations the clock refuses ──────────────────────────────────────────

  /** Its key is here, and the clock does not take it: it is lost for this device. */
  predicate ClockRefuses(c: Local, op: ContainerOp) {
    !CheckAll(c.guard, Stamps(op, c.keys)).ok
  }

  function RefusedInPage(c: Local, ops: seq<ContainerOp>, authors: Authors, strict: bool): set<ContainerOp>
    decreases |ops|
  {
    if ops == [] then {}
    else if ops[0].seq_ <= c.headSeq then RefusedInPage(c, ops[1..], authors, strict)
    else
      match TakeOne(c, ops[0], authors, strict)
      case Moved(d, _) =>
        (if Passes(c, ops[0], authors) && ClockRefuses(c, ops[0]) then {ops[0]} else {}) + RefusedInPage(d, ops[1..], authors, strict)
      case _ => {}
  }

  function RefusedInRetry(c: Local, todo: seq<ContainerOp>, authors: Authors): set<ContainerOp>
    decreases |todo|
  {
    if todo == [] then {}
    else
      var op, checked := todo[0], CheckOp(c.access, todo[0], authors);
      if op.keyEpoch !in c.keys then RefusedInRetry(c.(pending := c.pending + [op]), todo[1..], authors)
      else if checked.Err? then RefusedInRetry(c, todo[1..], authors)
      else (if ClockRefuses(c, op) then {op} else {}) + RefusedInRetry(Opening(c, op, checked.value), todo[1..], authors)
  }

  /** What the clock refused of the operations that check out, over a whole run. */
  function Refused(d: Device, j: seq<ContainerOp>, es: seq<Event>): set<ContainerOp>
    decreases |es|
  {
    if es == [] then {}
    else
      (match es[0]
       case Page(lo, hi, strict) => if lo <= hi <= |j| then RefusedInPage(d.c, j[lo..hi], d.authors, strict) else {}
       case Learn(a, authors, keys) =>
         var c := d.c.(access := a, keys := keys); RefusedInRetry(c.(pending := []), c.pending, authors)
       case Edited(_, _) => {})
      + Refused(Happen(d, j, es[0]), j, es[1..])
  }

  // ── along the course ──────────────────────────────────────────────────────

  /** The device knows no key too few for the course's condition on the clock, and its clock has seen what it opened. */
  ghost predicate Fit(c: Local, co: Course, n: nat, g0: u64, known: set<u64>) {
    && n <= |co.j| && g0 <= c.guard && known <= c.keys.Keys && ClockCovers(c.guard, c.keys, Stretch(co, n))
  }

  ghost predicate RoomFor(co: Course, g0: u64, known: set<u64>) {
    Room(g0, Stretch(co, |co.j|), known, co.t.keys)
  }

  /** All that is kept along the course. */
  ghost predicate Along(c: Local, co: Course, base: set<Entry>, n: nat, g0: u64, known: set<u64>) {
    Sound(co) && RoomFor(co, g0, known) && At(c, co, base, n) && Fit(c, co, n, g0, known)
  }

  predicate PassesNext(co: Course, n: nat)
    requires n < |co.j|
  {
    CheckOp(co.t.access, co.j[n], co.t.authors).Ok? && Floor(PassedTo(co, n), co.floor) <= co.j[n].keyEpoch
  }

  lemma StretchNext(co: Course, n: nat)
    requires n < |co.j|
    ensures PassedTo(co, n + 1) == PassedTo(co, n) + if PassesNext(co, n) then [co.j[n]] else []
    ensures Stretch(co, n + 1) == Stretch(co, n) + if PassesNext(co, n) then [co.j[n]] else []
  {
    assert co.j[..n + 1][..n] == co.j[..n] && co.j[..n + 1][n] == co.j[n];
    assert PassedTo(co, n) + [] == PassedTo(co, n);
  }

  lemma {:induction false} StretchGrows(co: Course, n: nat, m: nat)
    requires n <= m <= |co.j|
    ensures Stretch(co, n) <= Stretch(co, m)
    decreases m - n
  {
    if n < m {
      StretchNext(co, n);
      StretchGrows(co, n + 1, m);
    }
  }

  /** An operation that passes, its key being here. */
  lemma OpenedAlong(c: Local, co: Course, base: set<Entry>, n: nat, g0: u64, known: set<u64>, authors: Authors)
    requires RoomFor(co, g0, known) && At(c, co, base, n) && Fit(c, co, n, g0, known) && n < |co.j|
    requires PassesNext(co, n) && co.j[n].keyEpoch in c.keys
    requires CheckOp(c.access, co.j[n], authors) == CheckOp(co.t.access, co.j[n], co.t.authors)
    ensures var op := co.j[n];
      var o := Open(c.keys, c.guard, c.state, op, CheckOp(c.access, op, authors).value);
      && !ClockRefuses(c, op) && c.guard <= o.guard && ClockCovers(o.guard, c.keys, Stretch(co, n + 1))
      && Holds(o.state, base + Written(co.t, c.keys, Stretch(co, n + 1)))
  {
    var op, p := co.j[n], Stretch(co, n);
    StretchNext(co, n);
    StretchGrows(co, n + 1, |co.j|);
    var all := Stretch(co, |co.j|);
    assert all[|p|] == op && all[..|p|] == p;
    AllWritesAppend(co.t.access, co.t.authors, c.keys, p, op);
    UnionGroups(base, Written(co.t, c.keys, p), WritesOf(co.t.access, co.t.authors, c.keys, op));
    hide AllWrites, Keyless, Holds, Open, Passed, Stretch, CheckOp, WritesOf, CheckAll;
    RoomSuffices(g0, all, |p|, known, c.keys, co.t.keys, c.guard);
    OpenMeetsStamps(c.keys, c.guard, c.state, op, CheckOp(c.access, op, authors).value);
    OpenMergesWrites(c.keys, c.guard, c.state, op, co.t.access, co.t.authors, base + Written(co.t, c.keys, p));
  }

  lemma RefusedAlong(c: Local, co: Course, base: set<Entry>, n: nat, g0: u64, known: set<u64>)
    requires Along(c, co, base, n, g0, known) && n < |co.j| && !PassesNext(co, n)
    ensures Along(c.(headSeq := co.j[n].seq_), co, base, n + 1, g0, known)
  {
    StretchNext(co, n);
    assert Stretch(co, n) + [] == Stretch(co, n) && PassedTo(co, n) + [] == PassedTo(co, n);
    hide Passed, PassedTo, Stretch, RoomFor, Holds, AllWrites, Keyless, Stamps, CheckOp;
  }

  lemma WaitsAlong(c: Local, co: Course, base: set<Entry>, n: nat, g0: u64, known: set<u64>)
    requires Along(c, co, base, n, g0, known) && n < |co.j| && PassesNext(co, n) && co.j[n].keyEpoch !in c.keys
    ensures Along(c.(headSeq := co.j[n].seq_, lastOpEpoch := co.j[n].keyEpoch, pending := c.pending + [co.j[n]]), co, base, n + 1, g0, known)
  {
    var op, p := co.j[n], Stretch(co, n);
    StretchNext(co, n);
    KeylessAppend(p, op, c.keys);
    AllWritesAppend(co.t.access, co.t.authors, c.keys, p, op);
    KeylessDoesNothing(co.t, c.keys, op, {});
    assert Written(co.t, c.keys, p) + {} == Written(co.t, c.keys, p);
    hide Passed, PassedTo, Stretch, RoomFor, Holds, AllWrites, Keyless, Stamps, CheckOp, WritesOf;
  }

  lemma OpensAlong(c: Local, co: Course, base: set<Entry>, n: nat, g0: u64, known: set<u64>, authors: Authors)
    requires Along(c, co, base, n, g0, known) && n < |co.j| && PassesNext(co, n) && co.j[n].keyEpoch in c.keys
    requires CheckOp(c.access, co.j[n], authors) == CheckOp(co.t.access, co.j[n], co.t.authors)
    ensures var o := Open(c.keys, c.guard, c.state, co.j[n], CheckOp(c.access, co.j[n], authors).value);
      Along(c.(headSeq := co.j[n].seq_, lastOpEpoch := co.j[n].keyEpoch, guard := o.guard, state := o.state), co, base, n + 1, g0, known)
    ensures !ClockRefuses(c, co.j[n])
  {
    var op, p := co.j[n], Stretch(co, n);
    StretchNext(co, n);
    KeylessAppend(p, op, c.keys);
    assert Keyless(p, c.keys) + [] == Keyless(p, c.keys);
    OpenedAlong(c, co, base, n, g0, known, authors);
    hide Passed, PassedTo, Stretch, RoomFor, Holds, AllWrites, Keyless, Stamps, CheckOp, Open;
  }

  lemma TakenAlong(c: Local, co: Course, base: set<Entry>, n: nat, g0: u64, known: set<u64>, authors: Authors, strict: bool)
    requires Along(c, co, base, n, g0, known)
    requires n < |co.j| && TakeOne(c, co.j[n], authors, strict).Moved?
    requires SameVerdict(c.access, authors, co.t.access, co.t.authors, co.j[n])
    ensures var d := TakeOne(c, co.j[n], authors, strict).c; Along(d, co, base, n + 1, g0, known)
    ensures !(Passes(c, co.j[n], authors) && ClockRefuses(c, co.j[n]))
  {
    TakeOneCases(c, co.j[n], authors, strict);
    assert Passes(c, co.j[n], authors) <==> PassesNext(co, n);
    hide TakeOne, Along, PassesNext, Open, ClockRefuses;
    if !PassesNext(co, n) {
      RefusedAlong(c, co, base, n, g0, known);
    } else if co.j[n].keyEpoch in c.keys {
      OpensAlong(c, co, base, n, g0, known, authors);
    } else {
      WaitsAlong(c, co, base, n, g0, known);
    }
  }

  lemma AtPlace(c: Local, co: Course, base: set<Entry>, n: nat)
    requires Sound(co) && At(c, co, base, n)
    ensures n <= |co.j| && forall i :: 0 <= i < |co.j| ==> (co.j[i].seq_ <= c.headSeq <==> i < n)
  {
  }

  /** The first operation of a page, then the rest, as to what the clock refuses. */
  lemma RefusedFirst(c: Local, j: seq<ContainerOp>, lo: nat, hi: nat, authors: Authors, strict: bool)
    requires lo < hi <= |j|
    ensures j[lo].seq_ <= c.headSeq ==> RefusedInPage(c, j[lo..hi], authors, strict) == RefusedInPage(c, j[lo + 1..hi], authors, strict)
    ensures j[lo].seq_ > c.headSeq ==>
      var s := TakeOne(c, j[lo], authors, strict);
      RefusedInPage(c, j[lo..hi], authors, strict) ==
      if s.Moved? then
        (if Passes(c, j[lo], authors) && ClockRefuses(c, j[lo]) then {j[lo]} else {}) + RefusedInPage(s.c, j[lo + 1..hi], authors, strict)
      else {}
  {
    assert j[lo..hi][0] == j[lo] && j[lo..hi][1..] == j[lo + 1..hi];
    hide TakeOne, ClockRefuses, Passes;
  }

  /** The page is the device's own journal, the verdicts on what the cursor moves over are final. */
  lemma {:induction false} PageAlong(
    c: Local, co: Course, base: set<Entry>, n: nat, g0: u64, known: set<u64>, authors: Authors, strict: bool, r: Report, lo: nat, hi: nat)
    returns (m: nat)
    requires Along(c, co, base, n, g0, known)
    requires lo <= n && lo <= hi <= |co.j|
    requires forall i :: 0 <= i < |co.j| && co.j[i].seq_ <= Ingest(c, co.j[lo..hi], authors, strict, r).c.headSeq ==>
               SameVerdict(c.access, authors, co.t.access, co.t.authors, co.j[i])
    ensures var d := Ingest(c, co.j[lo..hi], authors, strict, r).c; Along(d, co, base, m, g0, known)
    ensures n <= m && RefusedInPage(c, co.j[lo..hi], authors, strict) == {}
    decreases hi - lo
  {
    hide *;
    m := n;
    var j := co.j;
    AlongPlace(c, co, base, n, g0, known);
    if lo == hi {
      EmptyPage(c, j, lo, authors, strict, r);
    } else {
      IngestFirst(c, j, lo, hi, authors, strict, r);
      RefusedFirst(c, j, lo, hi, authors, strict);
      if lo < n {
        m := PageAlong(c, co, base, n, g0, known, authors, strict, r, lo + 1, hi);
      } else if TakeOne(c, j[n], authors, strict).Moved? {
        var s := TakeOne(c, j[n], authors, strict);
        var q := Noted(r, j[n], s.outcome);
        CursorNeverFalls(s.c, j[n + 1..hi], authors, strict, q);
        MovedTo(c, j[n], authors, strict);
        TakenAlong(c, co, base, n, g0, known, authors, strict);
        m := PageAlong(s.c, co, base, n + 1, g0, known, authors, strict, q, n + 1, hi);
      }
    }
  }

  lemma EmptyPage(c: Local, j: seq<ContainerOp>, lo: nat, authors: Authors, strict: bool, r: Report)
    requires lo <= |j|
    ensures Ingest(c, j[lo..lo], authors, strict, r).c == c && RefusedInPage(c, j[lo..lo], authors, strict) == {}
  {
    assert j[lo..lo] == [];
  }

  lemma MovedTo(c: Local, op: ContainerOp, authors: Authors, strict: bool)
    requires TakeOne(c, op, authors, strict).Moved?
    ensures var d := TakeOne(c, op, authors, strict).c; d.headSeq == op.seq_ && d.access == c.access && d.keys == c.keys
  {
    hide CheckOp, Open;
  }

  lemma AlongPlace(c: Local, co: Course, base: set<Entry>, n: nat, g0: u64, known: set<u64>)
    requires Along(c, co, base, n, g0, known)
    ensures n <= |co.j| && forall i :: 0 <= i < |co.j| ==> (co.j[i].seq_ <= c.headSeq <==> i < n)
  {
    AtPlace(c, co, base, n);
  }

  lemma {:induction false} CursorNeverFalls(c: Local, ops: seq<ContainerOp>, authors: Authors, strict: bool, r: Report)
    ensures c.headSeq <= Ingest(c, ops, authors, strict, r).c.headSeq
    decreases |ops|
  {
    if ops != [] {
      if ops[0].seq_ <= c.headSeq {
        CursorNeverFalls(c, ops[1..], authors, strict, r);
      } else {
        var s := TakeOne(c, ops[0], authors, strict);
        if s.Moved? { CursorNeverFalls(s.c, ops[1..], authors, strict, Noted(r, ops[0], s.outcome)); }
      }
    }
  }

  // ── learning ──────────────────────────────────────────────────────────────

  /** The verdicts of the device on these operations are final, and good. */
  ghost predicate Settled(a: Access, authors: Authors, t: Truth, ops: seq<ContainerOp>) {
    forall op :: op in ops ==> CheckOp(a, op, authors).Ok? && CheckOp(a, op, authors) == CheckOp(t.access, op, t.authors)
  }

  /** Going through what waited, from the `k`-th operation of the stretch on; `had` are the keys there were before. */
  lemma {:induction false} RetryAlong(
    c: Local, t: Truth, p: seq<ContainerOp>, had: map<u64, EpochKey>, k: nat, g0: u64, known: set<u64>, authors: Authors, es: set<Entry>)
    requires RetryReady(c, t, p, had, k, g0, known, authors, es)
    ensures RetryDone(c, t, p, had, k, authors, es)
    decreases |p| - k, 1
  {
    if k == |p| {
      assert p[k..] == [] && p[..k] == p;
      assert Written(t, c.keys, []) == {} && es + {} == es && c.pending + [] == c.pending;
    } else if p[k].keyEpoch !in had {
      if p[k].keyEpoch in c.keys {
        RetryOpened(c, t, p, had, k, g0, known, authors, es);
      } else {
        RetryStillKeyless(c, t, p, had, k, g0, known, authors, es);
      }
    } else {
      assert p[k] in p && p[..k + 1] == p[..k] + [p[k]];
      SameStamps(p[k], had, c.keys);
      KeylessFrom(p, k, c.keys);
      KeylessFrom(p, k, had);
      hide RetryOver, RefusedInRetry, Keyless, Stamps, CheckOp, Holds, Legible;
      assert [] + Keyless(p[k + 1..], c.keys) == Keyless(p[k + 1..], c.keys);
      assert [] + Keyless(p[k + 1..], had) == Keyless(p[k + 1..], had);
      RetryAlong(c, t, p, had, k + 1, g0, known, authors, es);
    }
  }

  /** Before the `k`-th operation of the stretch: the clock has seen what it should have by then. */
  ghost predicate RetryReady(
    c: Local, t: Truth, p: seq<ContainerOp>, had: map<u64, EpochKey>, k: nat, g0: u64, known: set<u64>, authors: Authors, es: set<Entry>)
  {
    && k <= |p| && Extends(had, c.keys) && Extends(c.keys, t.keys) && known <= had.Keys && Settled(c.access, authors, t, p)
    && g0 <= c.guard && Room(g0, p, known, t.keys) && Holds(c.state, es)
    && ClockCovers(c.guard, had, p) && ClockCovers(c.guard, c.keys, p[..k])
  }

  ghost predicate RetryDone(c: Local, t: Truth, p: seq<ContainerOp>, had: map<u64, EpochKey>, k: nat, authors: Authors, es: set<Entry>)
    requires k <= |p|
  {
    var todo := Keyless(p[k..], had);
    var d := RetryOver(c, todo, authors);
    && d == c.(pending := c.pending + Keyless(p[k..], c.keys), guard := d.guard, state := d.state)
    && c.guard <= d.guard && ClockCovers(d.guard, c.keys, p)
    && Holds(d.state, es + Written(t, c.keys, todo)) && RefusedInRetry(c, todo, authors) == {}
  }

  lemma {:induction false} RetryStillKeyless(
    c: Local, t: Truth, p: seq<ContainerOp>, had: map<u64, EpochKey>, k: nat, g0: u64, known: set<u64>, authors: Authors, es: set<Entry>)
    requires k < |p| && RetryReady(c, t, p, had, k, g0, known, authors, es) && p[k].keyEpoch !in had && p[k].keyEpoch !in c.keys
    ensures RetryDone(c, t, p, had, k, authors, es)
    decreases |p| - k, 0
  {
    var op, rest := p[k], Keyless(p[k + 1..], had);
    var todo, next := Keyless(p[k..], had), c.(pending := c.pending + [p[k]]);
    hide AllWrites, Holds, CheckOp, WritesOf, Stamps, Room;
    assert op in p && p[..k + 1] == p[..k] + [op];
    KeylessFrom(p, k, had);
    KeylessFrom(p, k, c.keys);
    assert todo[0] == op && todo[1..] == rest;
    RetryFirst(c, todo, authors);
    RefusedInRetryFirst(c, todo, authors);
    AllWritesFirst(t.access, t.authors, c.keys, todo);
    KeylessDoesNothing(t, c.keys, op, Written(t, c.keys, rest));
    hide RetryOver, RefusedInRetry, Keyless, Written;
    assert RetryReady(next, t, p, had, k + 1, g0, known, authors, es);
    RetryAlong(next, t, p, had, k + 1, g0, known, authors, es);
    AppendGroups(c.pending, [op], Keyless(p[k + 1..], c.keys));
  }

  lemma AppendGroups(a: seq<ContainerOp>, b: seq<ContainerOp>, c: seq<ContainerOp>)
    ensures a + b + c == a + (b + c)
  {
  }

  lemma KeylessDoesNothing(t: Truth, keys: map<u64, EpochKey>, op: ContainerOp, es: set<Entry>)
    requires op.keyEpoch !in keys
    ensures WritesOf(t.access, t.authors, keys, op) == {} && WritesOf(t.access, t.authors, keys, op) + es == es && Stamps(op, keys) == []
  {
  }

  lemma {:induction false} RetryOpened(
    c: Local, t: Truth, p: seq<ContainerOp>, had: map<u64, EpochKey>, k: nat, g0: u64, known: set<u64>, authors: Authors, es: set<Entry>)
    requires k < |p| && RetryReady(c, t, p, had, k, g0, known, authors, es) && p[k].keyEpoch !in had && p[k].keyEpoch in c.keys
    ensures RetryDone(c, t, p, had, k, authors, es)
    decreases |p| - k, 0
  {
    var op, rest := p[k], Keyless(p[k + 1..], had);
    var todo := Keyless(p[k..], had);
    assert op in p && p[..k + 1] == p[..k] + [op];
    var author := CheckOp(c.access, op, authors).value;
    var next, w := Opening(c, op, author), WritesOf(t.access, t.authors, c.keys, op);
    KeylessFrom(p, k, had);
    KeylessFrom(p, k, c.keys);
    assert todo[0] == op && todo[1..] == rest;
    RetryFirst(c, todo, authors);
    RefusedInRetryFirst(c, todo, authors);
    AllWritesFirst(t.access, t.authors, c.keys, todo);
    UnionGroups(es, w, Written(t, c.keys, rest));
    OpenMeetsStamps(c.keys, c.guard, c.state, op, author);
    RoomSuffices(g0, p, k, known, c.keys, t.keys, c.guard);
    OpenMergesWrites(c.keys, c.guard, c.state, op, t.access, t.authors, es);
    hide RetryOver, RefusedInRetry, AllWrites, Holds, Keyless, CheckOp, WritesOf, Stamps, Room, Open, CheckAll;
    assert RetryReady(next, t, p, had, k + 1, g0, known, authors, es + w);
    RetryAlong(next, t, p, had, k + 1, g0, known, authors, es + w);
    assert [] + Keyless(p[k + 1..], c.keys) == Keyless(p[k + 1..], c.keys);
  }

  lemma RefusedInRetryFirst(c: Local, todo: seq<ContainerOp>, authors: Authors)
    requires todo != [] && CheckOp(c.access, todo[0], authors).Ok?
    ensures RefusedInRetry(c, todo, authors) ==
      if todo[0].keyEpoch !in c.keys then RefusedInRetry(c.(pending := c.pending + [todo[0]]), todo[1..], authors)
      else (if ClockRefuses(c, todo[0]) then {todo[0]} else {})
           + RefusedInRetry(Opening(c, todo[0], CheckOp(c.access, todo[0], authors).value), todo[1..], authors)
  {
    hide Opening, CheckOp, ClockRefuses;
  }

  lemma KeylessFrom(p: seq<ContainerOp>, k: nat, keys: map<u64, EpochKey>)
    requires k < |p|
    ensures Keyless(p[k..], keys) == (if p[k].keyEpoch in keys then [] else [p[k]]) + Keyless(p[k + 1..], keys)
  {
    assert p[k..][0] == p[k] && p[k..][1..] == p[k + 1..];
  }

  lemma RoomPrefix(g0: u64, p: seq<ContainerOp>, all: seq<ContainerOp>, known: set<u64>, keys: map<u64, EpochKey>)
    requires p <= all && Room(g0, all, known, keys)
    ensures Room(g0, p, known, keys)
  {
    forall k | 0 <= k < |p| ensures RoomAt(g0, p, k, known, keys) {
      assert p[..k] == all[..k] && p[k] == all[k];
      assert RoomAt(g0, all, k, known, keys);
    }
  }

  lemma StretchSettled(a: Access, authors: Authors, co: Course, n: nat)
    requires Sound(co) && n <= |co.j|
    requires forall op :: op in co.waiting || op in co.j[..n] ==> SameVerdict(a, authors, co.t.access, co.t.authors, op)
    ensures Settled(a, authors, co.t, Stretch(co, n))
  {
    PassedAreOps(co.t.access, co.t.authors, co.floor, co.j[..n]);
  }

  /** New knowledge, followed by a retry of what waited, leaves the device at its place. */
  lemma LearnAlong(
    c: Local, co: Course, base: set<Entry>, n: nat, g0: u64, known: set<u64>, b: Access, more: Authors, keys: map<u64, EpochKey>)
    requires Along(c, co, base, n, g0, known)
    requires Extends(c.keys, keys) && Extends(keys, co.t.keys)
    requires forall op :: op in co.waiting || op in co.j[..n] ==> SameVerdict(b, more, co.t.access, co.t.authors, op)
    ensures var learned := c.(access := b, keys := keys);
      var d := Retry(learned, more);
      && Along(d, co, base, n, g0, known) && d.access == b && d.keys == keys && d.headSeq == c.headSeq
      && RefusedInRetry(learned.(pending := []), learned.pending, more) == {}
  {
    var p := Stretch(co, n);
    hide Stretch, RetryOver, RefusedInRetry, Keyless, Holds, Room, CheckOp, SameVerdict, Stamps, AllWrites;
    StretchSettled(b, more, co, n);
    StretchGrows(co, n, |co.j|);
    RoomPrefix(g0, p, Stretch(co, |co.j|), known, co.t.keys);
    var start := c.(access := b, keys := keys, pending := []);
    var was := base + Written(co.t, c.keys, p);
    assert p[..0] == [] && p[0..] == p;
    RetryAlong(start, co.t, p, c.keys, 0, g0, known, more, was);
    RetryIsDone(start, co.t, p, c.keys, more, was);
    WritesWithMoreKeys(co.t.access, co.t.authors, co.t.access, co.t.authors, c.keys, keys, p);
    UnionGroups(base, Written(co.t, c.keys, p), Written(co.t, keys, Keyless(p, c.keys)));
    hide RetryDone, RetryReady, Settled, WritesOf;
  }

  lemma RetryIsDone(c: Local, t: Truth, p: seq<ContainerOp>, had: map<u64, EpochKey>, authors: Authors, es: set<Entry>)
    requires RetryDone(c, t, p, had, 0, authors, es) && c.pending == []
    ensures var todo := Keyless(p, had);
      var d := RetryOver(c, todo, authors);
      && d == c.(pending := Keyless(p, c.keys), guard := d.guard, state := d.state) && c.guard <= d.guard
      && ClockCovers(d.guard, c.keys, p) && Holds(d.state, es + Written(t, c.keys, todo)) && RefusedInRetry(c, todo, authors) == {}
  {
    assert p[0..] == p && [] + Keyless(p, c.keys) == Keyless(p, c.keys);
  }

  lemma {:induction false} RetryKeeps(c: Local, todo: seq<ContainerOp>, authors: Authors)
    ensures var d := RetryOver(c, todo, authors); d.headSeq == c.headSeq && d.access == c.access && d.keys == c.keys
    decreases |todo|
  {
    if todo != [] {
      hide CheckOp, Open;
      var op, checked := todo[0], CheckOp(c.access, todo[0], authors);
      if op.keyEpoch !in c.keys {
        RetryKeeps(c.(pending := c.pending + [op]), todo[1..], authors);
      } else if checked.Err? {
        RetryKeeps(c, todo[1..], authors);
      } else {
        var o := Open(c.keys, c.guard, c.state, op, checked.value);
        RetryKeeps(c.(guard := o.guard, state := o.state), todo[1..], authors);
      }
    }
  }

  // ── runs ──────────────────────────────────────────────────────────────────

  /** In a fair run the verdict on what lies behind the cursor is the one in the end. */
  lemma {:induction false} VerdictIsFinal(
    d: Device, w: seq<ContainerOp>, j: seq<ContainerOp>, es: seq<Event>, keys: map<u64, EpochKey>, op: ContainerOp)
    requires Fair(d, w, j, es, keys) && Behind(d, w, j, op)
    ensures var e := Run(d, j, es); SameVerdict(d.c.access, d.authors, e.c.access, e.authors, op)
    decreases |es|
  {
    hide CheckOp, TakeOne, Open;
    if es != [] {
      var next := Happen(d, j, es[0]);
      match es[0]
      case Page(lo, hi, strict) =>
        if lo <= hi <= |j| {
          CursorNeverFalls(d.c, j[lo..hi], d.authors, strict, NewReport(d.c, false));
          IngestFrame(d.c, j[lo..hi], d.authors, strict, NewReport(d.c, false));
        }
        VerdictIsFinal(next, w, j, es[1..], keys, op);
      case Learn(a, authors, more) =>
        var c := d.c.(access := a, keys := more);
        RetryKeeps(c.(pending := []), c.pending, authors);
        VerdictIsFinal(next, w, j, es[1..], keys, op);
      case Edited(_, _) =>
        VerdictIsFinal(next, w, j, es[1..], keys, op);
    }
  }

  /** The writes of the local edits of a run, as stamped. */
  function EditsOf(d: Device, j: seq<ContainerOp>, es: seq<Event>): set<Entry>
    decreases |es|
  {
    if es == [] then {}
    else
      (if es[0].Edited? then Elements(ValidEntries(StampBody(es[0].body, Stamp(Tick(d.c.guard), es[0].device)))) else {})
      + EditsOf(Happen(d, j, es[0]), j, es[1..])
  }

  /** A local edit adds its writes and moves the clock on. */
  lemma EditAlong(c: Local, co: Course, base: set<Entry>, n: nat, g0: u64, known: set<u64>, body: seq<Change>, device: Bytes)
    requires Along(c, co, base, n, g0, known)
    ensures var own := Elements(ValidEntries(StampBody(body, Stamp(Tick(c.guard), device))));
      Along(Edit(c, body, device).c, co, base + own, n, g0, known)
  {
    var stamp := Stamp(Tick(c.guard), device);
    var stamped := StampBody(body, stamp);
    var own, written := Elements(ValidEntries(stamped)), Written(co.t, c.keys, Stretch(co, n));
    var d := Edit(c, body, device).c;
    assert d == c.(guard := d.guard, state := d.state) && c.guard <= d.guard;
    assert d.state == if Readable(stamped) then PutAll(c.state, ValidEntries(stamped)) else c.state;
    hide Edit, Stretch, RoomFor, AllWrites, Keyless, CheckOp, Stamps, Holds, StampBody, PutAll, Readable, Written, PassedTo;
    PutAllHolds(c.state, ValidEntries(stamped), base + written);
    UnionSwap(base, written, own);
    if !Readable(stamped) {
      NothingToWrite(body, stamp);
      assert base + own == base;
    }
  }

  /** A stamped edit is unreadable only if it writes nothing: its stamps are not zero. */
  lemma NothingToWrite(body: seq<Change>, stamp: Stamp)
    requires stamp.lamport > 0 && !Readable(StampBody(body, stamp))
    ensures Elements(ValidEntries(StampBody(body, stamp))) == {}
  {
    var stamped := StampBody(body, stamp);
    StampedAlike(stamped, stamp);
    ValidAreAll(stamped);
    var es := AllEntries(stamped);
    forall i | 0 <= i < |es| ensures Lamports(es)[i] != 0 { assert es[i] in es; }
    assert es == [];
  }

  lemma {:induction false} StampedAlike(body: seq<Change>, stamp: Stamp)
    requires forall i :: 0 <= i < |body| ==> forall e :: e in body[i].entries ==> e.cell.stamp == stamp
    ensures forall e :: e in AllEntries(body) ==> e.cell.stamp == stamp
  {
    if body != [] { StampedAlike(body[1..], stamp); }
  }

  /** What the device knows in the end is final for all that lies behind its cursor. */
  ghost predicate EndsTrue(e: Device, co: Course) {
    forall op :: Behind(e, co.waiting, co.j, op) ==> SameVerdict(e.c.access, e.authors, co.t.access, co.t.authors, op)
  }

  lemma {:induction false} CursorOnlyRises(d: Device, w: seq<ContainerOp>, j: seq<ContainerOp>, es: seq<Event>, op: ContainerOp)
    requires Behind(d, w, j, op)
    ensures Behind(Run(d, j, es), w, j, op)
    decreases |es|
  {
    if es != [] {
      var next := Happen(d, j, es[0]);
      hide CheckOp, TakeOne, Open;
      if es[0].Page? {
        if es[0].lo <= es[0].hi <= |j| {
          CursorNeverFalls(d.c, j[es[0].lo..es[0].hi], d.authors, es[0].strict, NewReport(d.c, false));
        }
      } else if es[0].Learn? {
        RetryKeeps(d.c.(access := es[0].access, keys := es[0].keys, pending := []), d.c.pending, es[0].authors);
      }
      CursorOnlyRises(next, w, j, es[1..], op);
    }
  }

  /** So it is true of what lies behind the cursor at any time. */
  lemma VerdictIsTrue(d: Device, co: Course, es: seq<Event>, op: ContainerOp)
    requires Fair(d, co.waiting, co.j, es, co.t.keys) && Behind(d, co.waiting, co.j, op) && EndsTrue(Run(d, co.j, es), co)
    ensures SameVerdict(d.c.access, d.authors, co.t.access, co.t.authors, op)
  {
    VerdictIsFinal(d, co.waiting, co.j, es, co.t.keys, op);
    CursorOnlyRises(d, co.waiting, co.j, es, op);
  }

  lemma {:induction false} RunAlong(
    d: Device, co: Course, base: set<Entry>, es: seq<Event>, n: nat, g0: u64, known: set<u64>)
    returns (m: nat)
    requires Along(d.c, co, base, n, g0, known)
    requires Fair(d, co.waiting, co.j, es, co.t.keys) && EndsTrue(Run(d, co.j, es), co)
    ensures Along(Run(d, co.j, es).c, co, base + EditsOf(d, co.j, es), m, g0, known)
    ensures Refused(d, co.j, es) == {}
    decreases |es|
  {
    m := n;
    if es == [] {
      assert base + {} == base;
    } else {
      var j, next, own := co.j, Happen(d, co.j, es[0]), {};
      AlongPlace(d.c, co, base, n, g0, known);
      match es[0] {
        case Page(lo, hi, strict) =>
          if lo <= hi <= |j| { m := PageOfRun(d, co, base, es, n, g0, known); }
        case Learn(a, authors, more) =>
          LearnInRun(d, co, base, es, n, g0, known);
        case Edited(body, device) =>
          own := Elements(ValidEntries(StampBody(body, Stamp(Tick(d.c.guard), device))));
          EditAlong(d.c, co, base, n, g0, known, body, device);
      }
      UnionGroups(base, own, EditsOf(next, j, es[1..]));
      hide Along, EndsTrue, RefusedInPage, RefusedInRetry, StampBody;
      m := RunAlong(next, co, base + own, es[1..], m, g0, known);
    }
  }

  lemma PageOfRun(d: Device, co: Course, base: set<Entry>, es: seq<Event>, n: nat, g0: u64, known: set<u64>) returns (m: nat)
    requires Along(d.c, co, base, n, g0, known) && es != [] && es[0].Page? && es[0].lo <= es[0].hi <= |co.j|
    requires Fair(d, co.waiting, co.j, es, co.t.keys) && EndsTrue(Run(d, co.j, es), co)
    ensures Along(Happen(d, co.j, es[0]).c, co, base, m, g0, known)
    ensures RefusedInPage(d.c, co.j[es[0].lo..es[0].hi], d.authors, es[0].strict) == {}
  {
    var j, lo, hi, strict := co.j, es[0].lo, es[0].hi, es[0].strict;
    var next, r := Happen(d, j, es[0]), NewReport(d.c, false);
    AlongPlace(d.c, co, base, n, g0, known);
    if lo > 0 { assert j[lo - 1].seq_ <= d.c.headSeq; }
    IngestFrame(d.c, j[lo..hi], d.authors, strict, r);
    hide Along, EndsTrue, SameVerdict, Ingest, RefusedInPage;
    forall i | 0 <= i < |j| && j[i].seq_ <= next.c.headSeq
      ensures SameVerdict(d.c.access, d.authors, co.t.access, co.t.authors, j[i])
    {
      VerdictIsTrue(next, co, es[1..], j[i]);
    }
    m := PageAlong(d.c, co, base, n, g0, known, d.authors, strict, r, lo, hi);
  }

  lemma LearnInRun(d: Device, co: Course, base: set<Entry>, es: seq<Event>, n: nat, g0: u64, known: set<u64>)
    requires Along(d.c, co, base, n, g0, known) && es != [] && es[0].Learn?
    requires Fair(d, co.waiting, co.j, es, co.t.keys) && EndsTrue(Run(d, co.j, es), co)
    ensures Along(Happen(d, co.j, es[0]).c, co, base, n, g0, known)
    ensures var c := d.c.(access := es[0].access, keys := es[0].keys);
      RefusedInRetry(c.(pending := []), c.pending, es[0].authors) == {}
  {
    var j, next, a, authors, more := co.j, Happen(d, co.j, es[0]), es[0].access, es[0].authors, es[0].keys;
    AlongPlace(d.c, co, base, n, g0, known);
    FairExtends(d, co.waiting, j, es, co.t.keys);
    RetryKeeps(d.c.(access := a, keys := more, pending := []), d.c.pending, authors);
    hide Along, EndsTrue, SameVerdict, RefusedInRetry, RetryOver;
    forall op | op in co.waiting || op in j[..n] ensures SameVerdict(a, authors, co.t.access, co.t.authors, op) {
      if op !in co.waiting { var i :| 0 <= i < n && j[i] == op; }
      assert Behind(next, co.waiting, j, op);
      VerdictIsTrue(next, co, es[1..], op);
    }
    LearnAlong(d.c, co, base, n, g0, known, a, authors, more);
  }

  lemma FairExtends(d: Device, w: seq<ContainerOp>, j: seq<ContainerOp>, es: seq<Event>, keys: map<u64, EpochKey>)
    requires es != [] && es[0].Learn? && Fair(d, w, j, es, keys)
    ensures Extends(d.c.keys, es[0].keys) && Extends(es[0].keys, keys)
  {
  }

  // ── late keys and one pass ────────────────────────────────────────────────

  lemma {:induction false} NothingStops(c: Local, ops: seq<ContainerOp>, authors: Authors, r: Report)
    requires forall op :: op in ops ==> CheckOp(c.access, op, authors) != Err(Expired)
    ensures forall op :: op in ops ==> op.seq_ <= Ingest(c, ops, authors, false, r).c.headSeq
    decreases |ops|
  {
    if ops != [] {
      assert ops[0] in ops && forall op :: op in ops[1..] ==> op in ops;
      assert forall op :: op in ops ==> op == ops[0] || op in ops[1..];
      if ops[0].seq_ <= c.headSeq {
        CursorNeverFalls(c, ops[1..], authors, false, r);
        NothingStops(c, ops[1..], authors, r);
      } else {
        var s := TakeOne(c, ops[0], authors, false);
        assert s.Moved? && s.c.access == c.access && s.c.headSeq == ops[0].seq_;
        hide TakeOne, CheckOp;
        CursorNeverFalls(s.c, ops[1..], authors, false, Noted(r, ops[0], s.outcome));
        NothingStops(s.c, ops[1..], authors, Noted(r, ops[0], s.outcome));
      }
    }
  }

  lemma StartIsAt(c: Local, co: Course)
    requires c.headSeq == co.start && c.lastOpEpoch == co.floor && co.waiting == [] && c.pending == [] && Extends(c.keys, co.t.keys)
    ensures At(c, co, Own(c.state), 0)
    ensures ClockCovers(c.guard, c.keys, Stretch(co, 0))
  {
    assert co.j[..0] == [] && Stretch(co, 0) == [];
    assert Written(co.t, c.keys, []) == {} && Own(c.state) + {} == Own(c.state);
    HoldsItself(c.state);
  }

  lemma EndIsReached(c: Local, co: Course, base: set<Entry>, n: nat)
    requires Sound(co) && At(c, co, base, n) && forall op :: op in co.j ==> op.seq_ <= c.headSeq
    ensures n == |co.j|
  {
    AtPlace(c, co, base, n);
    if co.j != [] { assert co.j[|co.j| - 1] in co.j; }
  }

  /** Two devices at the end of one course, the second with more keys and the first with nothing waiting, agree but for edits. */
  lemma SamePlaceSameWrites(c: Local, d: Local, co: Course, base: set<Entry>, own: set<Entry>)
    requires At(c, co, base + own, |co.j|) && At(d, co, base, |co.j|) && Extends(c.keys, d.keys) && c.pending == []
    ensures c.headSeq == d.headSeq && c.lastOpEpoch == d.lastOpEpoch && d.pending == []
    ensures Holds(c.state, Own(d.state) + own) && (own == {} ==> c.state == d.state)
  {
    var p := Stretch(co, |co.j|);
    hide Stretch, Holds;
    NothingMissing(c, co.t, p, d.keys);
    var es := base + Written(co.t, d.keys, p);
    UnionSwap(base, own, Written(co.t, d.keys, p));
    StandsForItsWrites(d.state, c.state, es, own);
    if own == {} {
      assert es + {} == es;
      HoldsIsUnique(c.state, d.state, es);
    }
  }

  /** With nothing waiting, more keys would open nothing more. */
  lemma NothingMissing(c: Local, t: Truth, p: seq<ContainerOp>, keys: map<u64, EpochKey>)
    requires c.pending == Keyless(p, c.keys) == [] && Extends(c.keys, keys)
    ensures Keyless(p, keys) == [] && Written(t, c.keys, p) == Written(t, keys, p)
  {
    KeylessMembers(p, c.keys);
    forall op | op in p ensures op.keyEpoch in c.keys && op.keyEpoch in keys { assert op !in Keyless(p, c.keys); }
    KeylessNone(p, keys);
    forall op | op in p ensures WritesOf(t.access, t.authors, c.keys, op) == WritesOf(t.access, t.authors, keys, op) {}
  }

  lemma OnePassArrives(s: Local, co: Course, known: set<u64>)
    requires Sound(co) && RoomFor(co, s.guard, known) && known <= s.keys.Keys && Extends(s.keys, co.t.keys)
    requires s.headSeq == co.start && s.lastOpEpoch == co.floor && co.waiting == [] && s.pending == [] && s.access == co.t.access
    requires forall op :: op in co.j ==> CheckOp(s.access, op, co.t.authors) != Err(Expired)
    ensures var one := After(s, co.j, co.t.authors, false); At(one, co, Own(s.state), |co.j|) && one.keys == s.keys
  {
    var j, r := co.j, NewReport(s, false);
    StartIsAt(s, co);
    assert j[0..|j|] == j;
    NothingStops(s, j, co.t.authors, r);
    IngestFrame(s, j, co.t.authors, false, r);
    hide Ingest, Holds, Room, CheckOp, Stretch;
    var m := PageAlong(s, co, Own(s.state), 0, s.guard, known, co.t.authors, false, r, 0, |j|);
    EndIsReached(After(s, j, co.t.authors, false), co, Own(s.state), m);
  }

  /** A state stands for the writes it came from. */
  lemma StandsForItsWrites(s: State, t: State, es: set<Entry>, own: set<Entry>)
    requires Holds(s, es) && Holds(t, es + own)
    ensures Holds(t, Own(s) + own)
  {
    forall r | r in t ensures Entry(r, t[r]) in Own(s) + own {
      if Entry(r, t[r]) in es {
        assert r in s && Leq(t[r], s[r]) && Entry(r, s[r]) in es;
        LeqIsTotal(s[r], t[r]);
      }
    }
    forall e | e in Own(s) ensures e in es {}
  }

  /**
   However the journal was cut into pages, wherever it stopped, and whenever grants, authors and keys came: if the
   operations of each epoch pass the clock by themselves, then once the cursor is at the end and nothing waits, cursor
   and epoch floor are those of one pass with everything known, the merged state is that pass's together with the
   device's own edits, and the clock never refused anything.
   */
  lemma Converges(c0: Local, authors0: Authors, j: seq<ContainerOp>, es: seq<Event>, keys: map<u64, EpochKey>)
    requires Sorted(j) && c0.pending == [] && (forall i :: 0 <= i < |j| ==> c0.headSeq < j[i].seq_)
    requires Extends(c0.keys, keys) && Fair(Device(c0, authors0), [], j, es, keys)
    requires var d := Run(Device(c0, authors0), j, es);
      && d.c.pending == []
      && (forall op :: op in j ==> op.seq_ <= d.c.headSeq && CheckOp(d.c.access, op, d.authors) != Err(Expired))
      && Room(c0.guard, Passed(d.c.access, d.authors, c0.lastOpEpoch, j), c0.keys.Keys, keys)
    ensures var d0 := Device(c0, authors0);
      var d, own := Run(d0, j, es), EditsOf(d0, j, es);
      var one := OnePass(c0, j, d, keys);
      && one.headSeq == d.c.headSeq && one.lastOpEpoch == d.c.lastOpEpoch && one.pending == []
      && Holds(d.c.state, Own(one.state) + own) && (own == {} ==> d.c.state == one.state)
      && Refused(d0, j, es) == {}
  {
    var d0 := Device(c0, authors0);
    var d, own := Run(d0, j, es), EditsOf(d0, j, es);
    var co := Course(Truth(d.c.access, d.authors, keys), c0.headSeq, c0.lastOpEpoch, [], j);
    assert j[..|j|] == j && Stretch(co, |j|) == [] + PassedTo(co, |j|) == PassedTo(co, |j|);
    StartIsAt(c0, co);
    hide Room, Passed, Stretch, Holds;
    var m := RunAlong(d0, co, Own(c0.state), es, 0, c0.guard, c0.keys.Keys);
    EndIsReached(d.c, co, Own(c0.state) + own, m);
    hide Run, Fair, Refused, CheckOp, EditsOf;
    OnePassArrives(c0.(access := d.c.access, keys := keys), co, c0.keys.Keys);
    SamePlaceSameWrites(d.c, OnePass(c0, j, d, keys), co, Own(c0.state), own);
  }

  // ── the condition is needed ───────────────────────────────────────────────

  /** A fair run in which only keys are learned: pages as they come, keys at any moment, one or many at a time. */
  ghost predicate Schedule(d: Device, j: seq<ContainerOp>, es: seq<Event>, keys: map<u64, EpochKey>) {
    Fair(d, [], j, es, keys) && forall e :: e in es && e.Learn? ==> e.access == d.c.access && e.authors == d.authors
  }

  function KeysOf(keys: map<u64, EpochKey>, epochs: set<u64>): map<u64, EpochKey> {
    map e | e in keys && e in epochs :: keys[e]
  }

  /** Behind `n` operations, with keys for `epochs` from the start: the clock is the one over those operations alone. */
  ghost predicate Alone(c: Local, c0: Local, authors: Authors, j: seq<ContainerOp>, n: nat, epochs: set<u64>, keys: map<u64, EpochKey>) {
    && n <= |j| && c.access == c0.access && c.keys == KeysOf(keys, epochs)
    && c.headSeq == (if n == 0 then c0.headSeq else j[n - 1].seq_)
    && var p := Passed(c0.access, authors, c0.lastOpEpoch, j[..n]);
      c.lastOpEpoch == Floor(p, c0.lastOpEpoch) && c.guard == ClockOver(c0.guard, Among(p, epochs), keys)
  }

  lemma AmongAppend(ops: seq<ContainerOp>, op: ContainerOp, epochs: set<u64>)
    ensures Among(ops + [op], epochs) == Among(ops, epochs) + if op.keyEpoch in epochs then [op] else []
  {
    assert (ops + [op])[..|ops|] == ops;
  }

  lemma ClockOverAppend(g: u64, ops: seq<ContainerOp>, op: ContainerOp, keys: map<u64, EpochKey>)
    ensures ClockOver(g, ops + [op], keys) == CheckAll(ClockOver(g, ops, keys), Stamps(op, keys)).max
  {
    assert (ops + [op])[..|ops|] == ops;
  }

  lemma AloneNext(c: Local, c0: Local, authors: Authors, j: seq<ContainerOp>, n: nat, epochs: set<u64>, keys: map<u64, EpochKey>)
    requires Alone(c, c0, authors, j, n, epochs, keys) && n < |j| && epochs <= keys.Keys
    requires CheckOp(c0.access, j[n], authors) != Err(Expired)
    ensures TakeOne(c, j[n], authors, false).Moved? && Alone(TakeOne(c, j[n], authors, false).c, c0, authors, j, n + 1, epochs, keys)
  {
    var op, p := j[n], Passed(c0.access, authors, c0.lastOpEpoch, j[..n]);
    assert j[..n + 1][..n] == j[..n] && j[..n + 1][n] == op;
    assert TakeOne(c, op, authors, false).Moved?;
    assert Passed(c0.access, authors, c0.lastOpEpoch, j[..n + 1]) == if Passes(c, op, authors) then p + [op] else p;
    hide TakeOne, Passed, CheckOp, Open, Passes, CheckAll, Stamps, Legible;
    TakeOneCases(c, op, authors, false);
    MovedTo(c, op, authors, false);
    AmongAppend(p, op, epochs);
    assert Among(p, epochs) + [] == Among(p, epochs);
    if Passes(c, op, authors) && op.keyEpoch in c.keys {
      OpenMeetsStamps(c.keys, c.guard, c.state, op, CheckOp(c.access, op, authors).value);
      SameStamps(op, c.keys, keys);
      ClockOverAppend(c0.guard, Among(p, epochs), op, keys);
    }
  }

  /** The `k`-th operation that passes is of one of these epochs, and fails with only those before it. */
  ghost predicate FailsAlone(c0: Local, authors: Authors, j: seq<ContainerOp>, epochs: set<u64>, keys: map<u64, EpochKey>, k: nat) {
    var p := Passed(c0.access, authors, c0.lastOpEpoch, j);
    && k < |p| && p[k].keyEpoch in epochs && epochs <= keys.Keys
    && !CheckAll(ClockOver(c0.guard, Among(p[..k], epochs), keys), Stamps(p[k], keys)).ok
  }

  lemma PassedNext(c: Local, c0: Local, authors: Authors, j: seq<ContainerOp>, n: nat, epochs: set<u64>, keys: map<u64, EpochKey>)
    requires Alone(c, c0, authors, j, n, epochs, keys) && n < |j|
    ensures var all, p := Passed(c0.access, authors, c0.lastOpEpoch, j), Passed(c0.access, authors, c0.lastOpEpoch, j[..n]);
      && Passed(c0.access, authors, c0.lastOpEpoch, j[..n + 1]) == (if Passes(c, j[n], authors) then p + [j[n]] else p)
      && p <= all && (Passes(c, j[n], authors) ==> |p| < |all| && all[|p|] == j[n])
  {
    assert j[..n + 1][..n] == j[..n] && j[..n + 1][n] == j[n];
    PassedPrefix(c0.access, authors, c0.lastOpEpoch, j, n);
    PassedPrefix(c0.access, authors, c0.lastOpEpoch, j, n + 1);
  }

  lemma MeetsIt(c: Local, c0: Local, authors: Authors, j: seq<ContainerOp>, n: nat, epochs: set<u64>, keys: map<u64, EpochKey>, k: nat)
    requires Alone(c, c0, authors, j, n, epochs, keys) && n < |j| && FailsAlone(c0, authors, j, epochs, keys, k)
    requires Passes(c, j[n], authors) && |Passed(c0.access, authors, c0.lastOpEpoch, j[..n])| == k
    ensures ClockRefuses(c, j[n]) && j[n] == Passed(c0.access, authors, c0.lastOpEpoch, j)[k]
  {
    hide Passes, Stamps, Among, Passed, CheckAll, ClockOver, Floor, Legible;
    PassedNext(c, c0, authors, j, n, epochs, keys);
    var p := Passed(c0.access, authors, c0.lastOpEpoch, j);
    assert p[..k] == Passed(c0.access, authors, c0.lastOpEpoch, j[..n]) && p[k] == j[n];
    assert Extends(c.keys, keys) && j[n].keyEpoch in c.keys;
    SameStamps(j[n], c.keys, keys);
  }

  /** The page in which the operation that fails alone is met. */
  lemma {:induction false} PageRefuses(
    c: Local, c0: Local, authors: Authors, j: seq<ContainerOp>, n: nat, epochs: set<u64>, keys: map<u64, EpochKey>, k: nat)
    requires Sorted(j) && (forall i :: 0 <= i < |j| ==> c0.headSeq < j[i].seq_)
    requires forall op :: op in j ==> CheckOp(c0.access, op, authors) != Err(Expired)
    requires Alone(c, c0, authors, j, n, epochs, keys) && FailsAlone(c0, authors, j, epochs, keys, k)
    requires |Passed(c0.access, authors, c0.lastOpEpoch, j[..n])| <= k < |Passed(c0.access, authors, c0.lastOpEpoch, j)|
    ensures Passed(c0.access, authors, c0.lastOpEpoch, j)[k] in RefusedInPage(c, j[n..|j|], authors, false)
    decreases |j| - n
  {
    assert epochs <= keys.Keys && c.headSeq == if n == 0 then c0.headSeq else j[n - 1].seq_;
    hide FailsAlone, Alone, TakeOne, Passed, CheckOp, RefusedInPage, ClockRefuses;
    assert j[..|j|] == j;
    assert j[n] in j && c.headSeq < j[n].seq_;
    PassedNext(c, c0, authors, j, n, epochs, keys);
    RefusedFirst(c, j, n, |j|, authors, false);
    AloneNext(c, c0, authors, j, n, epochs, keys);
    if Passes(c, j[n], authors) && |Passed(c0.access, authors, c0.lastOpEpoch, j[..n])| == k {
      MeetsIt(c, c0, authors, j, n, epochs, keys, k);
    } else {
      PageRefuses(TakeOne(c, j[n], authors, false).c, c0, authors, j, n + 1, epochs, keys, k);
    }
  }

  /** The schedule that shows it: the key of that one epoch comes first, then the whole journal. */
  function OneKeyFirst(c0: Local, authors: Authors, j: seq<ContainerOp>, epochs: set<u64>, keys: map<u64, EpochKey>): seq<Event> {
    [Learn(c0.access, authors, KeysOf(keys, epochs)), Page(0, |j|, false)]
  }

  lemma OneKeyFirstIsFair(c0: Local, authors: Authors, j: seq<ContainerOp>, epochs: set<u64>, keys: map<u64, EpochKey>)
    requires c0.pending == [] && c0.keys.Keys <= epochs && epochs <= keys.Keys && Extends(c0.keys, keys)
    ensures Schedule(Device(c0, authors), j, OneKeyFirst(c0, authors, j, epochs, keys), keys)
    ensures Happen(Device(c0, authors), j, Learn(c0.access, authors, KeysOf(keys, epochs))) == Device(c0.(keys := KeysOf(keys, epochs)), authors)
  {
    var d, es := Device(c0, authors), OneKeyFirst(c0, authors, j, epochs, keys);
    var next := Happen(d, j, es[0]);
    assert next == Device(c0.(keys := KeysOf(keys, epochs)), authors);
    assert es[1..] == [Page(0, |j|, false)] && es[1..][1..] == [];
    assert Fair(Happen(next, j, es[1]), [], j, [], keys);
    hide Ingest, Happen;
    assert Fair(next, [], j, es[1..], keys);
  }

  lemma OneKeyFirstRefuses(c0: Local, authors: Authors, j: seq<ContainerOp>, keys: map<u64, EpochKey>, k: nat)
    requires Sorted(j) && c0.pending == [] && (forall i :: 0 <= i < |j| ==> c0.headSeq < j[i].seq_)
    requires Extends(c0.keys, keys) && forall op :: op in j ==> CheckOp(c0.access, op, authors) != Err(Expired)
    requires var p := Passed(c0.access, authors, c0.lastOpEpoch, j); k < |p| && !RoomAt(c0.guard, p, k, c0.keys.Keys, keys)
    ensures var d, p := Device(c0, authors), Passed(c0.access, authors, c0.lastOpEpoch, j);
      var es := OneKeyFirst(c0, authors, j, c0.keys.Keys + {p[k].keyEpoch}, keys);
      Schedule(d, j, es, keys) && p[k] in Refused(d, j, es)
  {
    var d, p := Device(c0, authors), Passed(c0.access, authors, c0.lastOpEpoch, j);
    var epochs := c0.keys.Keys + {p[k].keyEpoch};
    var es := OneKeyFirst(c0, authors, j, epochs, keys);
    assert p[k].keyEpoch in keys;
    OneKeyFirstIsFair(c0, authors, j, epochs, keys);
    var next := Happen(d, j, es[0]);
    assert j[..0] == [] && j[0..|j|] == j && Among([], epochs) == [];
    PageRefuses(next.c, c0, authors, j, 0, epochs, keys, k);
    assert es[1..] == [Page(0, |j|, false)] && es[1..][1..] == [];
    hide Passed, Happen, RoomAt, Schedule, Ingest;
  }

  /**
   In no order of keys, pages and stops does the clock refuse an operation that checks out - if and only if those of
   each epoch, together with those whose keys were there from the start, pass it in the order of the journal.
   */
  lemma NoScheduleRefusesIff(c0: Local, authors: Authors, j: seq<ContainerOp>, keys: map<u64, EpochKey>)
    requires Sorted(j) && c0.pending == [] && (forall i :: 0 <= i < |j| ==> c0.headSeq < j[i].seq_)
    requires Extends(c0.keys, keys) && forall op :: op in j ==> CheckOp(c0.access, op, authors) != Err(Expired)
    ensures (forall es :: Schedule(Device(c0, authors), j, es, keys) ==> Refused(Device(c0, authors), j, es) == {})
       <==> Room(c0.guard, Passed(c0.access, authors, c0.lastOpEpoch, j), c0.keys.Keys, keys)
  {
    var d, p := Device(c0, authors), Passed(c0.access, authors, c0.lastOpEpoch, j);
    if Room(c0.guard, p, c0.keys.Keys, keys) {
      forall es | Schedule(d, j, es, keys) ensures Refused(d, j, es) == {} {
        ScheduleKeepsKnowledge(d, j, es, keys);
        var co := Course(Truth(c0.access, authors, keys), c0.headSeq, c0.lastOpEpoch, [], j);
        assert j[..|j|] == j && Stretch(co, |j|) == [] + PassedTo(co, |j|) == PassedTo(co, |j|);
        StartIsAt(c0, co);
        var m := RunAlong(d, co, Own(c0.state), es, 0, c0.guard, c0.keys.Keys);
      }
    } else {
      var k :| 0 <= k < |p| && !RoomAt(c0.guard, p, k, c0.keys.Keys, keys);
      OneKeyFirstRefuses(c0, authors, j, keys, k);
      var es := OneKeyFirst(c0, authors, j, c0.keys.Keys + {p[k].keyEpoch}, keys);
      assert Schedule(d, j, es, keys) && Refused(d, j, es) != {};
    }
  }

  lemma {:induction false} ScheduleKeepsKnowledge(d: Device, j: seq<ContainerOp>, es: seq<Event>, keys: map<u64, EpochKey>)
    requires Schedule(d, j, es, keys)
    ensures Run(d, j, es).c.access == d.c.access && Run(d, j, es).authors == d.authors
    decreases |es|
  {
    if es != [] {
      var next := Happen(d, j, es[0]);
      assert es[0] in es && forall e :: e in es[1..] ==> e in es;
      if es[0].Page? {
        if es[0].lo <= es[0].hi <= |j| {
          IngestFrame(d.c, j[es[0].lo..es[0].hi], d.authors, es[0].strict, NewReport(d.c, false));
        }
      } else if es[0].Learn? {
        RetryKeeps(d.c.(access := es[0].access, keys := es[0].keys, pending := []), d.c.pending, es[0].authors);
      }
      hide Retry, After;
      ScheduleKeepsKnowledge(next, j, es[1..], keys);
    }
  }
}
