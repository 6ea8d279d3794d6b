/**
 Every operation the cursor moved over is accounted for: it was merged, it waits for its key, or it was
 rejected - exactly one of the three - in every reachable state of a device.
 */
module Accounting {
  import opened Prelude
  import opened Lww
  import opened Guard
  import opened Access
  import opened Journal
  import opened Convergence

  /** The record of a device: operations in the order the cursor moved over them, and what became of them. */
  datatype Book = Book(
    taken: seq<ContainerOp>, applied: seq<ContainerOp>, rejected: seq<ContainerOp>,
    epochs: seq<u64>)  // key epochs of the operations that passed the checks, since the last attach or restore

  function Entered(b: Book, op: ContainerOp, o: Outcome): Book {
    Book(b.taken + [op],
         if o.Applied? then b.applied + [op] else b.applied,
         if o.Unopened? || o.Refused? then b.rejected + [op] else b.rejected,
         if o.Refused? then b.epochs else b.epochs + [op.keyEpoch])
  }

  function IngestBook(c: Local, b: Book, ops: seq<ContainerOp>, authors: Authors, strict: bool): Book
    decreases |ops|
  {
    if ops == [] then b
    else if ops[0].seq_ <= c.headSeq then IngestBook(c, b, ops[1..], authors, strict)
    else
      var s := TakeOne(c, ops[0], authors, strict);
      if s.Moved? then IngestBook(s.c, Entered(b, ops[0], s.outcome), ops[1..], authors, strict) else b
  }

  function RetryBook(c: Local, b: Book, todo: seq<ContainerOp>, authors: Authors): Book
    decreases |todo|
  {
    if todo == [] then b
    else
      var op := todo[0];
      if op.keyEpoch !in c.keys then RetryBook(c.(pending := c.pending + [op]), b, todo[1..], authors)
      else
        var checked := CheckOp(c.access, op, authors);
        if checked.Err? then RetryBook(c, b.(rejected := b.rejected + [op]), todo[1..], authors)
        else
          var o := Open(c.keys, c.guard, c.state, op, checked.value);
          var next := if o.applied.Some? then b.(applied := b.applied + [op]) else b.(rejected := b.rejected + [op]);
          RetryBook(c.(guard := o.guard, state := o.state), next, todo[1..], authors)
  }

  /** What an operation writes when it is applied. */
  function Content(op: ContainerOp): set<Entry> {
    if op.body.Some? then Elements(ValidEntries(op.body.value)) else {}
  }

  function Contents(ops: seq<ContainerOp>): set<Entry> {
    set op, e | op in ops && e in Content(op) :: e
  }

  ghost predicate Ascending(xs: seq<u64>) {
    forall i, j :: 0 <= i < j < |xs| ==> xs[i] <= xs[j]
  }

  /** Each operation taken is applied, rejected or among the `waiting`, once; the cursor is past all of them. */
  ghost predicate Counted(b: Book, waiting: seq<ContainerOp>, head: u64) {
    && multiset(b.taken) == multiset(b.applied) + multiset(b.rejected) + multiset(waiting)
    && Sorted(b.taken)
    && (forall op :: op in b.taken ==> op.seq_ <= head)
  }

  /** The state holds the writes of the applied operations and of `base`, and nothing else. */
  ghost predicate Written(s: State, b: Book, base: set<Entry>) {
    Holds(s, base + Contents(b.applied))
  }

  ghost predicate Climbing(b: Book, floor: u64) {
    Ascending(b.epochs) && forall e :: e in b.epochs ==> e <= floor
  }

  /** No operation is lost, none is counted twice; and the state holds exactly what the books say. */
  ghost predicate Balanced(c: Local, b: Book, base: set<Entry>) {
    Counted(b, c.pending, c.headSeq) && Written(c.state, b, base) && Climbing(b, c.lastOpEpoch)
  }

  lemma ContentsAppend(ops: seq<ContainerOp>, op: ContainerOp)
    ensures Contents(ops + [op]) == Contents(ops) + Content(op)
  {
    forall e | e in Content(op) ensures e in Contents(ops + [op]) { assert op in ops + [op]; }
    forall o, e | o in ops && e in Content(o) ensures e in Contents(ops + [op]) { assert o in ops + [op]; }
  }

  lemma CountedEntered(b: Book, waiting: seq<ContainerOp>, head: u64, op: ContainerOp, o: Outcome)
    requires Counted(b, waiting, head) && head < op.seq_
    ensures Counted(Entered(b, op, o), if o.Waiting? then waiting + [op] else waiting, op.seq_)
  {
    SortedAppend(b.taken, op, head);
    hide Sorted;
    assert multiset(b.taken + [op]) == multiset(b.taken) + multiset{op};
    if o.Waiting? {
      assert multiset(waiting + [op]) == multiset(waiting) + multiset{op};
    } else if o.Applied? {
      assert multiset(b.applied + [op]) == multiset(b.applied) + multiset{op};
    } else {
      assert multiset(b.rejected + [op]) == multiset(b.rejected) + multiset{op};
    }
  }

  lemma SortedAppend(ops: seq<ContainerOp>, op: ContainerOp, head: u64)
    requires Sorted(ops) && head < op.seq_ && forall p :: p in ops ==> p.seq_ <= head
    ensures Sorted(ops + [op]) && forall p :: p in ops + [op] ==> p.seq_ <= op.seq_
  {
    assert forall i :: 0 <= i < |ops| ==> ops[i] in ops;
  }

  /** An operation that is opened, merged or not, keeps the state in step with the books. */
  lemma OpenWrites(c: Local, op: ContainerOp, author: Author, b: Book, base: set<Entry>)
    requires Written(c.state, b, base)
    ensures var o := Open(c.keys, c.guard, c.state, op, author);
      Written(o.state, b.(applied := if o.applied.Some? then b.applied + [op] else b.applied), base)
  {
    ContentsAppend(b.applied, op);
    UnionGroups(base, Contents(b.applied), Content(op));
    if op.body.Some? { PutAllHolds(c.state, ValidEntries(op.body.value), base + Contents(b.applied)); }
    hide Holds, Contents, PutAll, CheckAll, Readable, MadeBy;
  }

  lemma ClimbingEntered(b: Book, floor: u64, op: ContainerOp, o: Outcome)
    requires Climbing(b, floor) && (o.Refused? || floor <= op.keyEpoch)
    ensures Climbing(Entered(b, op, o), if o.Refused? then floor else op.keyEpoch)
  {
    assert forall i :: 0 <= i < |b.epochs| ==> b.epochs[i] in b.epochs;
  }

  lemma TakeOneBalances(c: Local, b: Book, base: set<Entry>, op: ContainerOp, authors: Authors, strict: bool)
    requires Balanced(c, b, base) && c.headSeq < op.seq_ && TakeOne(c, op, authors, strict).Moved?
    ensures var s := TakeOne(c, op, authors, strict); Balanced(s.c, Entered(b, op, s.outcome), base)
  {
    var s := TakeOne(c, op, authors, strict);
    TakeOneCases(c, op, authors, strict);
    CountedEntered(b, c.pending, c.headSeq, op, s.outcome);
    ClimbingEntered(b, c.lastOpEpoch, op, s.outcome);
    hide TakeOne, Open, CheckOp, Counted, Climbing;
    if s.outcome.Applied? || s.outcome.Unopened? {
      OpenWrites(c, op, CheckOp(c.access, op, authors).value, b, base);
    }
    assert Written(s.c.state, Entered(b, op, s.outcome), base) by { hide Holds; }
    hide Written;
  }

  lemma {:induction false} IngestBalances(
    c: Local, b: Book, base: set<Entry>, ops: seq<ContainerOp>, authors: Authors, strict: bool, r: Report)
    requires Balanced(c, b, base)
    ensures Balanced(Ingest(c, ops, authors, strict, r).c, IngestBook(c, b, ops, authors, strict), base)
    decreases |ops|
  {
    hide Balanced, TakeOne, Noted, Entered;
    if ops != [] {
      if ops[0].seq_ <= c.headSeq {
        IngestBalances(c, b, base, ops[1..], authors, strict, r);
      } else {
        var s := TakeOne(c, ops[0], authors, strict);
        if s.Moved? {
          TakeOneBalances(c, b, base, ops[0], authors, strict);
          IngestBalances(s.c, Entered(b, ops[0], s.outcome), base, ops[1..], authors, strict, Noted(r, ops[0], s.outcome));
        }
      }
    }
  }

  /** The head of a queue that is gone through leaves it for good, applied or rejected. */
  lemma CountedLeaves(b: Book, pending: seq<ContainerOp>, op: ContainerOp, rest: seq<ContainerOp>, head: u64)
    requires Counted(b, pending + ([op] + rest), head)
    ensures Counted(b.(applied := b.applied + [op]), pending + rest, head)
    ensures Counted(b.(rejected := b.rejected + [op]), pending + rest, head)
  {
    assert multiset(pending + ([op] + rest)) == multiset(pending + rest) + multiset{op};
  }

  lemma {:induction false} RetryBalances(c: Local, b: Book, base: set<Entry>, todo: seq<ContainerOp>, authors: Authors)
    requires Counted(b, c.pending + todo, c.headSeq) && Written(c.state, b, base) && Climbing(b, c.lastOpEpoch)
    ensures Balanced(RetryOver(c, todo, authors), RetryBook(c, b, todo, authors), base)
    decreases |todo|
  {
    if todo == [] {
      assert c.pending + todo == c.pending;
    } else {
      var op, rest := todo[0], todo[1..];
      assert todo == [op] + rest;
      assert c.pending + todo == c.pending + [op] + rest;
      CountedLeaves(b, c.pending, op, rest, c.headSeq);
      hide Counted, Open, CheckOp, Ascending, Balanced;
      if op.keyEpoch in c.keys && CheckOp(c.access, op, authors).Ok? {
        var author := CheckOp(c.access, op, authors).value;
        OpenWrites(c, op, author, b, base);
        hide Holds, Contents;
        var o := Open(c.keys, c.guard, c.state, op, author);
        var next := if o.applied.Some? then b.(applied := b.applied + [op]) else b.(rejected := b.rejected + [op]);
        RetryBalances(c.(guard := o.guard, state := o.state), next, base, rest, authors);
      } else if op.keyEpoch in c.keys {
        RetryBalances(c, b.(rejected := b.rejected + [op]), base, rest, authors);
      } else {
        RetryBalances(c.(pending := c.pending + [op]), b, base, rest, authors);
      }
    }
  }

  // ── any life of a device ──────────────────────────────────────────────────

  datatype Event =
    | Page(ops: seq<ContainerOp>, authors: Authors, strict: bool)
    | Learn(log: seq<GrantEntry>, access: Access, keys: map<u64, EpochKey>, authors: Authors)  // grants or keys, then a retry
    | Attach(genesis: Genesis, log: seq<GrantEntry>, access: Access, keys: map<u64, EpochKey>, authors: Authors)
    | Restart(keys: map<u64, EpochKey>)
    | Merge(snapshot: Snapshot, authors: Authors, cloud: bool)
    | Edited(body: seq<Change>, device: Bytes)

  /** A device with its record, and the writes that came by snapshot or by local edit. */
  datatype World = World(c: Local, b: Book, base: set<Entry>)

  function Next(w: World, e: Event): World {
    match e
    case Page(ops, authors, strict) => World(After(w.c, ops, authors, strict), IngestBook(w.c, w.b, ops, authors, strict), w.base)
    case Learn(log, a, keys, authors) =>
      var c := w.c.(grants := log, access := a, keys := keys);
      World(Retry(c, authors), RetryBook(c.(pending := []), w.b, c.pending, authors), w.base)
    // the server's log replaces ours and the epoch floor is forgotten; keys come with it, and what waits is gone through
    case Attach(g, log, a, keys, authors) =>
      var c := w.c.(genesis := g, grants := log, access := a, keys := keys, lastOpEpoch := 0);
      World(Retry(c, authors), RetryBook(c.(pending := []), w.b.(epochs := []), c.pending, authors), w.base)
    case Restart(keys) => World(w.c.(keys := keys, lastOpEpoch := 0), w.b.(epochs := []), w.base)
    case Merge(s, authors, cloud) =>
      var m := if cloud then CloudMerge(w.c, s, authors) else PlannerMerge(w.c, s, authors);
      World(m.c, w.b, if CheckSnapshot(w.c, s, authors).Ok? then w.base + Own(s.cells) else w.base)
    case Edited(body, device) =>
      var stamped := StampBody(body, Stamp(Tick(w.c.guard), device));
      World(Edit(w.c, body, device).c, w.b, if Readable(stamped) then w.base + Elements(ValidEntries(stamped)) else w.base)
  }

  function Lives(w: World, es: seq<Event>): World
    decreases |es|
  {
    if es == [] then w else Lives(Next(w, es[0]), es[1..])
  }

  /**
   What merging a snapshot does: refused, it changes nothing; taken, its state is joined and the clock covers its stamps; and
   unless it broke off, both cursors come up to it, and neither falls. A planner's clock follows even when it breaks off.
   */
  lemma MergeMoves(c: Local, s: Snapshot, authors: Authors, cloud: bool)
    ensures var m := if cloud then CloudMerge(c, s, authors) else PlannerMerge(c, s, authors);
      var ok := CheckSnapshot(c, s, authors).Ok?;
      && m.c == c.(state := m.c.state, guard := m.c.guard, headSeq := m.c.headSeq, snapshotSeq := m.c.snapshotSeq)
      && (m.result.Ok? <==> ok && s.complete) && (!ok ==> m.c == c)
      && m.c.state == (if ok then Join(c.state, s.cells) else c.state)
      && m.c.headSeq == (if ok && s.complete && c.headSeq < s.uptoSeq then s.uptoSeq else c.headSeq)
      && m.c.snapshotSeq == (if ok && s.complete && c.snapshotSeq < s.uptoSeq then s.uptoSeq else c.snapshotSeq)
      && c.guard <= m.c.guard && (ok && (s.complete || !cloud) ==> MaxLamport(s.cells) <= m.c.guard)
      && (cloud && ok && s.complete ==> MaxLamport(m.c.state) <= m.c.guard) && (cloud && !s.complete ==> m.c.guard == c.guard)
  {
    hide CheckSnapshot, Join, MaxLamport;
  }

  lemma JoinWrites(s: State, t: State, b: Book, base: set<Entry>)
    requires Written(s, b, base)
    ensures Written(Join(s, t), b, base + Own(t))
  {
    HoldsItself(t);
    JoinHolds(s, t, base + Contents(b.applied), Own(t));
    UnionSwap(base, Contents(b.applied), Own(t));
  }

  lemma CountedFurther(b: Book, waiting: seq<ContainerOp>, head: u64, further: u64)
    requires Counted(b, waiting, head) && head <= further
    ensures Counted(b, waiting, further)
  {
  }

  lemma MergeBalances(w: World, s: Snapshot, authors: Authors, cloud: bool)
    requires Balanced(w.c, w.b, w.base)
    ensures var v := Next(w, Merge(s, authors, cloud)); Balanced(v.c, v.b, v.base)
  {
    MergeMoves(w.c, s, authors, cloud);
    JoinWrites(w.c.state, s.cells, w.b, w.base);
    var m := if cloud then CloudMerge(w.c, s, authors) else PlannerMerge(w.c, s, authors);
    CountedFurther(w.b, w.c.pending, w.c.headSeq, m.c.headSeq);
    hide CheckSnapshot, Join, MaxLamport, PlannerMerge, CloudMerge, Counted, Climbing, Written, Own;
  }

  lemma EditWrites(s: State, es: seq<Entry>, b: Book, base: set<Entry>)
    requires Written(s, b, base)
    ensures Written(PutAll(s, es), b, base + Elements(es))
  {
    PutAllHolds(s, es, base + Contents(b.applied));
    UnionSwap(base, Contents(b.applied), Elements(es));
  }

  lemma EditBalances(w: World, body: seq<Change>, device: Bytes)
    requires Balanced(w.c, w.b, w.base)
    ensures var v := Next(w, Event.Edited(body, device)); Balanced(v.c, v.b, v.base)
  {
    EditWrites(w.c.state, ValidEntries(StampBody(body, Stamp(Tick(w.c.guard), device))), w.b, w.base);
    hide PutAll, StampBody, ValidEntries, Readable, Elements, Counted, Climbing, Written;
  }

  lemma NextBalances(w: World, e: Event)
    requires Balanced(w.c, w.b, w.base)
    ensures var v := Next(w, e); Balanced(v.c, v.b, v.base)
  {
    match e
    case Page(ops, authors, strict) => IngestBalances(w.c, w.b, w.base, ops, authors, strict, NewReport(w.c, false));
    case Learn(log, a, keys, authors) =>
      RetryBalances(w.c.(grants := log, access := a, keys := keys, pending := []), w.b, w.base, w.c.pending, authors);
    case Attach(g, log, a, keys, authors) =>
      var c := w.c.(genesis := g, grants := log, access := a, keys := keys, lastOpEpoch := 0, pending := []);
      RetryBalances(c, w.b.(epochs := []), w.base, w.c.pending, authors);
    case Restart(keys) =>
    case Merge(s, authors, cloud) => MergeBalances(w, s, authors, cloud);
    case Edited(body, device) => EditBalances(w, body, device);
  }

  lemma {:induction false} LifeBalances(w: World, es: seq<Event>)
    requires Balanced(w.c, w.b, w.base)
    ensures var v := Lives(w, es); Balanced(v.c, v.b, v.base)
    decreases |es|
  {
    if es != [] {
      NextBalances(w, es[0]);
      hide Balanced, Next;
      LifeBalances(Next(w, es[0]), es[1..]);
    }
  }

  /**
   In every reachable state, whatever pages, keys, grants, snapshots, edits and restarts came: each operation
   the cursor moved over is in exactly one of applied, waiting and rejected.
   */
  lemma ExactlyOneFate(c0: Local, es: seq<Event>, op: ContainerOp)
    requires c0.state == map[] && c0.pending == []
    requires op in Lives(World(c0, Book([], [], [], []), {}), es).b.taken
    ensures var v := Lives(World(c0, Book([], [], [], []), {}), es);
      && (op in v.b.applied || op in v.c.pending || op in v.b.rejected)
      && !(op in v.b.applied && op in v.c.pending) && !(op in v.c.pending && op in v.b.rejected)
      && !(op in v.b.applied && op in v.b.rejected)
  {
    var w := World(c0, Book([], [], [], []), {});
    LifeBalances(w, es);
    var v := Lives(w, es);
    SortedOnce(v.b.taken, op);
    assert multiset(v.b.applied)[op] + multiset(v.b.rejected)[op] + multiset(v.c.pending)[op] == 1;
    assert op in v.b.applied <==> op in multiset(v.b.applied);
    assert op in v.b.rejected <==> op in multiset(v.b.rejected);
    assert op in v.c.pending <==> op in multiset(v.c.pending);
  }

  lemma {:induction false} SortedOnce(ops: seq<ContainerOp>, op: ContainerOp)
    requires Sorted(ops) && op in ops
    ensures multiset(ops)[op] == 1
    decreases |ops|
  {
    var k := |ops| - 1;
    assert ops == ops[..k] + [ops[k]];
    if op in ops[..k] {
      SortedOnce(ops[..k], op);
    } else {
      assert op !in multiset(ops[..k]);
    }
  }

  /** Between two attaches or restores, the epochs of the operations that passed never go down along the journal. */
  lemma EpochsNeverGoBack(c0: Local, es: seq<Event>)
    requires c0.state == map[] && c0.pending == []
    ensures Ascending(Lives(World(c0, Book([], [], [], []), {}), es).b.epochs)
  {
    LifeBalances(World(c0, Book([], [], [], []), {}), es);
  }

  // ── the cursor and the journal ────────────────────────────────────────────

  lemma BookFirst(c: Local, b: Book, j: seq<ContainerOp>, lo: nat, hi: nat, authors: Authors, strict: bool)
    requires lo < hi <= |j|
    ensures j[lo].seq_ <= c.headSeq ==>
              IngestBook(c, b, j[lo..hi], authors, strict) == IngestBook(c, b, j[lo + 1..hi], authors, strict)
    ensures j[lo].seq_ > c.headSeq ==>
      var s := TakeOne(c, j[lo], authors, strict);
      IngestBook(c, b, j[lo..hi], authors, strict)
      == if s.Moved? then IngestBook(s.c, Entered(b, j[lo], s.outcome), j[lo + 1..hi], authors, strict) else b
  {
    assert j[lo..hi][0] == j[lo] && j[lo..hi][1..] == j[lo + 1..hi];
  }

  lemma OneMore(taken: seq<ContainerOp>, j: seq<ContainerOp>, n: nat, m: nat)
    requires n < m <= |j|
    ensures taken + [j[n]] + j[n + 1..m] == taken + j[n..m]
  {
    assert j[n..m] == [j[n]] + j[n + 1..m];
  }

  /** A page without gaps moves the cursor over the next operations of the journal, each in turn, none skipped. */
  lemma {:induction false} PageTakesNext(
    c: Local, b: Book, j: seq<ContainerOp>, n: nat, lo: nat, hi: nat, authors: Authors, strict: bool, r: Report)
    returns (m: nat)
    requires Sorted(j) && Placed(c, j, n) && lo <= n && lo <= hi <= |j|
    ensures n <= m <= |j| && Placed(Ingest(c, j[lo..hi], authors, strict, r).c, j, m)
    ensures IngestBook(c, b, j[lo..hi], authors, strict).taken == b.taken + j[n..m]
    decreases hi - lo
  {
    m := n;
    if lo == hi {
      assert j[lo..hi] == [] && b.taken + j[n..n] == b.taken;
    } else {
      IngestFirst(c, j, lo, hi, authors, strict, r);
      BookFirst(c, b, j, lo, hi, authors, strict);
      assert j[lo].seq_ <= c.headSeq <==> lo < n;
      hide TakeOne, Ingest, IngestBook, Noted, Sorted;
      if lo < n {
        hide Placed;
        m := PageTakesNext(c, b, j, n, lo + 1, hi, authors, strict, r);
      } else if TakeOne(c, j[n], authors, strict).Moved? {
        var s := TakeOne(c, j[n], authors, strict);
        PlacedNext(c, j, n, authors, strict);
        hide Placed;
        var next := Entered(b, j[n], s.outcome);
        assert next.taken == b.taken + [j[n]];
        hide Entered;
        m := PageTakesNext(s.c, next, j, n + 1, n + 1, hi, authors, strict, Noted(r, j[n], s.outcome));
        OneMore(b.taken, j, n, m);
      } else {
        assert b.taken + j[n..n] == b.taken;
      }
    }
  }

  /** The event is not a snapshot, and a page is a stretch of the journal that leaves no gap behind the cursor. */
  ghost predicate FollowsJournal(c: Local, e: Event, j: seq<ContainerOp>) {
    match e
    case Page(ops, _, _) => exists lo, hi :: 0 <= lo <= hi <= |j| && Stretch(ops, j, lo, hi) && Reached(c, j, lo)
    case Merge(_, _, _) => false
    case _ => true
  }

  ghost predicate Stretch(ops: seq<ContainerOp>, j: seq<ContainerOp>, lo: nat, hi: nat)
    requires lo <= hi <= |j|
  {
    ops == j[lo..hi]
  }

  ghost predicate Reached(c: Local, j: seq<ContainerOp>, lo: nat)
    requires lo <= |j|
  {
    forall i :: 0 <= i < lo ==> j[i].seq_ <= c.headSeq
  }

  ghost predicate JournalLife(w: World, es: seq<Event>, j: seq<ContainerOp>)
    decreases |es|
  {
    es == [] || (FollowsJournal(w.c, es[0], j) && JournalLife(Next(w, es[0]), es[1..], j))
  }

  lemma {:induction false} RetryKeepsCursor(c: Local, b: Book, todo: seq<ContainerOp>, authors: Authors)
    ensures RetryOver(c, todo, authors).headSeq == c.headSeq
    ensures RetryBook(c, b, todo, authors).taken == b.taken
    decreases |todo|
  {
    if todo != [] {
      var op, rest := todo[0], todo[1..];
      hide Open, CheckOp;
      if op.keyEpoch !in c.keys {
        RetryKeepsCursor(c.(pending := c.pending + [op]), b, rest, authors);
      } else if CheckOp(c.access, op, authors).Err? {
        RetryKeepsCursor(c, b.(rejected := b.rejected + [op]), rest, authors);
      } else {
        var o := Open(c.keys, c.guard, c.state, op, CheckOp(c.access, op, authors).value);
        var next := if o.applied.Some? then b.(applied := b.applied + [op]) else b.(rejected := b.rejected + [op]);
        RetryKeepsCursor(c.(guard := o.guard, state := o.state), next, rest, authors);
      }
    }
  }

  lemma PageEventTakesNext(w: World, e: Event, j: seq<ContainerOp>, n: nat) returns (m: nat)
    requires Sorted(j) && Placed(w.c, j, n) && w.b.taken == j[..n] && FollowsJournal(w.c, e, j) && e.Page?
    ensures n <= m <= |j| && Placed(Next(w, e).c, j, m) && Next(w, e).b.taken == j[..m]
  {
    hide Ingest, IngestBook, Sorted;
    var lo, hi :| 0 <= lo <= hi <= |j| && Stretch(e.ops, j, lo, hi) && Reached(w.c, j, lo);
    assert lo <= n by { if lo > 0 { assert j[lo - 1].seq_ <= w.c.headSeq; } }
    hide Placed, FollowsJournal, Reached;
    m := PageTakesNext(w.c, w.b, j, n, lo, hi, e.authors, e.strict, NewReport(w.c, false));
    assert j[..n] + j[n..m] == j[..m];
  }

  lemma OtherEventsTakeNothing(w: World, e: Event)
    requires !e.Page? && !e.Merge?
    ensures Next(w, e).c.headSeq == w.c.headSeq && Next(w, e).b.taken == w.b.taken
  {
    if e.Learn? {
      RetryKeepsCursor(w.c.(grants := e.log, access := e.access, keys := e.keys, pending := []), w.b, w.c.pending, e.authors);
    } else if e.Attach? {
      var c := w.c.(genesis := e.genesis, grants := e.log, access := e.access, keys := e.keys, lastOpEpoch := 0, pending := []);
      RetryKeepsCursor(c, w.b.(epochs := []), w.c.pending, e.authors);
    }
    hide RetryOver, RetryBook, StampBody, PutAll, ValidEntries, Readable;
  }

  lemma EventTakesNext(w: World, e: Event, j: seq<ContainerOp>, n: nat) returns (m: nat)
    requires Sorted(j) && Placed(w.c, j, n) && w.b.taken == j[..n] && FollowsJournal(w.c, e, j)
    ensures n <= m <= |j| && Placed(Next(w, e).c, j, m) && Next(w, e).b.taken == j[..m]
  {
    hide Next, Sorted;
    if e.Page? {
      hide Placed, FollowsJournal;
      m := PageEventTakesNext(w, e, j, n);
    } else {
      m := n;
      OtherEventsTakeNothing(w, e);
    }
  }

  /**
   Over pages, keys, grants, edits and restarts in any order, the operations taken are exactly those of the
   journal at or below the cursor, in the order of the journal.
   */
  lemma {:induction false} TakenIsWhatLiesBehind(w: World, es: seq<Event>, j: seq<ContainerOp>, n: nat) returns (m: nat)
    requires Sorted(j) && Placed(w.c, j, n) && w.b.taken == j[..n] && JournalLife(w, es, j)
    ensures n <= m <= |j| && Placed(Lives(w, es).c, j, m) && Lives(w, es).b.taken == j[..m]
    decreases |es|
  {
    m := n;
    if es != [] {
      hide Next, Placed, Sorted, FollowsJournal;
      m := EventTakesNext(w, es[0], j, n);
      m := TakenIsWhatLiesBehind(Next(w, es[0]), es[1..], j, m);
    }
  }

  /** A stop leaves the cursor short of the operation it stopped at, so that the retry meets it again. */
  lemma {:induction false} StopStaysShort(c: Local, ops: seq<ContainerOp>, authors: Authors, strict: bool, r: Report)
    requires !r.grantsBehind && !r.authorsBehind
    ensures var i := Ingest(c, ops, authors, strict, r);
      i.report.grantsBehind || i.report.authorsBehind ==>
        i.report.more && exists op :: op in ops && i.c.headSeq < op.seq_ && !TakeOne(i.c, op, authors, strict).Moved?
    decreases |ops|
  {
    if ops != [] {
      var s := TakeOne(c, ops[0], authors, strict);
      assert ops[0] in ops && forall op :: op in ops[1..] ==> op in ops;
      if ops[0].seq_ <= c.headSeq {
        StopStaysShort(c, ops[1..], authors, strict, r);
      } else if s.Moved? {
        StopStaysShort(s.c, ops[1..], authors, strict, Noted(r, ops[0], s.outcome));
      }
    }
  }

  // ── what a page reports ───────────────────────────────────────────────────

  /** The changes that were merged when these operations were applied. */
  function ChangesIn(ops: seq<ContainerOp>): nat {
    if ops == [] then 0
    else ChangesIn(ops[..|ops| - 1]) + if ops[|ops| - 1].body.Some? then ValidCount(ops[|ops| - 1].body.value) else 0
  }

  lemma ChangesInOneMore(ops: seq<ContainerOp>, op: ContainerOp)
    ensures ChangesIn(ops + [op]) == ChangesIn(ops) + if op.body.Some? then ValidCount(op.body.value) else 0
  {
    assert (ops + [op])[..|ops|] == ops;
  }

  lemma NotedTells(c: Local, b: Book, op: ContainerOp, authors: Authors, strict: bool, r: Report)
    requires TakeOne(c, op, authors, strict).Moved?
    ensures var s := TakeOne(c, op, authors, strict);
      var q, d := Noted(r, op, s.outcome), Entered(b, op, s.outcome);
      && q.headSeq == s.c.headSeq && q.applied + ChangesIn(b.applied) == r.applied + ChangesIn(d.applied)
      && q.more == r.more && q.grantsBehind == r.grantsBehind && q.authorsBehind == r.authorsBehind
      && (s.c.pending == c.pending ==> q.missing == r.missing)
      && (s.c.pending != c.pending ==> s.c.pending == c.pending + [op] && q.missing == Some(op.keyEpoch))
  {
    TakeOneCases(c, op, authors, strict);
    ChangesInOneMore(b.applied, op);
    if CheckOp(c.access, op, authors).Ok? { OpenCounts(c, op, CheckOp(c.access, op, authors).value); }
    hide CheckOp, TakeOne, Open, ChangesIn;
  }

  lemma OpenCounts(c: Local, op: ContainerOp, author: Author)
    ensures var o := Open(c.keys, c.guard, c.state, op, author);
      o.applied.Some? ==> op.body.Some? && o.applied.value == ValidCount(op.body.value)
  {
    hide CheckAll, MadeBy, PutAll;
  }

  /**
   The report of a page tells what happened: the cursor; as many merged changes as the operations newly applied hold; a
   missing epoch exactly if an operation joined those that wait, and then that of the last such; and `more`, with the reason,
   exactly if the page was not taken in to its end, which the operation it stopped at accounts for.
   */
  lemma {:induction false} ReportTells(c: Local, b: Book, ops: seq<ContainerOp>, authors: Authors, strict: bool, r: Report)
    requires r.headSeq == c.headSeq && !r.grantsBehind && !r.authorsBehind
    ensures var i, after := Ingest(c, ops, authors, strict, r), IngestBook(c, b, ops, authors, strict);
      var n := |i.c.pending|;
      && i.report.headSeq == i.c.headSeq
      && i.report.applied + ChangesIn(b.applied) == r.applied + ChangesIn(after.applied)
      && c.pending <= i.c.pending
      && i.report.missing == (if i.c.pending == c.pending then r.missing else Some(i.c.pending[n - 1].keyEpoch))
      && (i.report.more <==> r.more || i.report.grantsBehind || i.report.authorsBehind)
      && (i.report.grantsBehind || i.report.authorsBehind <==> exists op :: op in ops && i.c.headSeq < op.seq_)
      && (i.report.grantsBehind ==> exists op :: op in ops && i.c.headSeq < op.seq_ && TakeOne(i.c, op, authors, strict).GrantsBehind?)
      && (i.report.authorsBehind ==> exists op :: op in ops && i.c.headSeq < op.seq_ && TakeOne(i.c, op, authors, strict).AuthorsBehind?)
    decreases |ops|
  {
    hide TakeOne, Noted, Entered, ChangesIn;
    if ops != [] {
      assert ops[0] in ops && forall op :: op in ops <==> op == ops[0] || op in ops[1..];
      if ops[0].seq_ <= c.headSeq {
        ReportTells(c, b, ops[1..], authors, strict, r);
        CursorStays(c, ops[1..], authors, strict, r);
      } else {
        var s := TakeOne(c, ops[0], authors, strict);
        if s.Moved? {
          NotedTells(c, b, ops[0], authors, strict, r);
          MovesTo(c, ops[0], authors, strict);
          var q := Noted(r, ops[0], s.outcome);
          ReportTells(s.c, Entered(b, ops[0], s.outcome), ops[1..], authors, strict, q);
          CursorStays(s.c, ops[1..], authors, strict, q);
        }
      }
    }
  }

  lemma MovesTo(c: Local, op: ContainerOp, authors: Authors, strict: bool)
    requires TakeOne(c, op, authors, strict).Moved?
    ensures TakeOne(c, op, authors, strict).c.headSeq == op.seq_
  {
    hide CheckOp, Open;
  }

  lemma {:induction false} CursorStays(c: Local, ops: seq<ContainerOp>, authors: Authors, strict: bool, r: Report)
    ensures c.headSeq <= Ingest(c, ops, authors, strict, r).c.headSeq
    decreases |ops|
  {
    if ops != [] {
      if ops[0].seq_ <= c.headSeq {
        CursorStays(c, ops[1..], authors, strict, r);
      } else {
        var s := TakeOne(c, ops[0], authors, strict);
        if s.Moved? {
          MovesTo(c, ops[0], authors, strict);
          CursorStays(s.c, ops[1..], authors, strict, Noted(r, ops[0], s.outcome));
        }
      }
    }
  }

  // ── local edits ───────────────────────────────────────────────────────────

  /**
   A local edit wins over everything the device has seen: each register it writes holds its stamp afterwards, the others are as
   they were; and an edit that is refused leaves the state alone.
   */
  lemma EditWins(c: Local, body: seq<Change>, device: Bytes)
    requires MaxLamport(c.state) <= c.guard < U64_MAX
    ensures var m, stamp := Edit(c, body, device), Stamp(c.guard + 1, device);
      var own := ValidEntries(StampBody(body, stamp));
      && m.c.guard == c.guard + 1 && (m.result.Err? ==> m.c.state == c.state)
      && (m.result.Ok? ==>
            && (forall e :: e in own ==> e.register in m.c.state && m.c.state[e.register].stamp == stamp)
            && (forall r :: r in m.c.state && (forall e :: e in own ==> e.register != r) ==> r in c.state && m.c.state[r] == c.state[r]))
  {
    var stamp := Stamp(c.guard + 1, device);
    OwnStamps(body, stamp);
    assert forall r :: r in c.state ==> c.state[r].stamp.lamport < stamp.lamport;
    hide PutAll, StampBody, ValidEntries, MaxLamport, Readable;
    NewerWins(c.state, ValidEntries(StampBody(body, stamp)), stamp);
  }

  lemma NewerWins(s: State, own: seq<Entry>, stamp: Stamp)
    requires (forall e :: e in own ==> e.cell.stamp == stamp) && forall r :: r in s ==> s[r].stamp.lamport < stamp.lamport
    ensures var d := PutAll(s, own);
      && (forall e :: e in own ==> e.register in d && d[e.register].stamp == stamp)
      && (forall r :: r in d && (forall e :: e in own ==> e.register != r) ==> r in s && d[r] == s[r])
  {
    var d := PutAll(s, own);
    HoldsItself(s);
    PutAllHolds(s, own, Own(s));
    hide PutAll;
    forall e | e in own ensures e.register in d && d[e.register].stamp == stamp {
      assert e in Own(s) + Elements(own);
      assert Entry(e.register, d[e.register]) in Own(s) + Elements(own);
    }
    forall r | r in d && (forall e :: e in own ==> e.register != r) ensures r in s && d[r] == s[r] {
      assert Entry(r, d[r]) in Own(s) + Elements(own);
    }
  }

  lemma {:induction false} OwnStamps(body: seq<Change>, stamp: Stamp)
    ensures forall e :: e in ValidEntries(StampBody(body, stamp)) ==> e.cell.stamp == stamp
  {
    if body != [] {
      OwnStamps(body[1..], stamp);
      assert StampBody(body, stamp)[1..] == StampBody(body[1..], stamp);
      assert StampBody(body, stamp)[0].entries == StampWith(body[0].entries, stamp);
    }
  }

  /** Stamping changes the stamps alone: the same registers get the same values, in the same order. */
  lemma {:induction false} StampingKeepsValues(body: seq<Change>, stamp: Stamp)
    ensures var was, now := ValidEntries(body), ValidEntries(StampBody(body, stamp));
      |now| == |was| && forall i :: 0 <= i < |was| ==> now[i] == Entry(was[i].register, was[i].cell.(stamp := stamp))
  {
    if body != [] {
      StampingKeepsValues(body[1..], stamp);
      assert StampBody(body, stamp)[1..] == StampBody(body[1..], stamp);
      assert StampBody(body, stamp)[0].valid == body[0].valid;
    }
  }
}
