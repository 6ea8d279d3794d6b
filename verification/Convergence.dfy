/**
 Ingestion does not depend on how the journal arrives: not on the cutting into pages, not on stops,
 and - `LateKeys` says when - not on when the epoch keys come.
 */
module Convergence {
  import opened Prelude
  import opened Lww
  import opened Guard
  import opened Access
  import opened Journal

  /** The server's order. */
  ghost predicate Sorted(j: seq<ContainerOp>) {
    forall a, b :: 0 <= a < b < |j| ==> j[a].seq_ < j[b].seq_
  }

  // ── what a stretch of the journal should come to, said without a cursor ───

  function Floor(passed: seq<ContainerOp>, floor: u64): u64 {
    if passed == [] then floor else passed[|passed| - 1].keyEpoch
  }

  /** The operations that check out and do not go back to an older epoch than the ones kept before them. */
  function Passed(a: Access, authors: Authors, floor: u64, ops: seq<ContainerOp>): seq<ContainerOp>
    decreases |ops|
  {
    if ops == [] then []
    else
      var k := |ops| - 1;
      var p := Passed(a, authors, floor, ops[..k]);
      if CheckOp(a, ops[k], authors).Ok? && Floor(p, floor) <= ops[k].keyEpoch then p + [ops[k]] else p
  }

  /** Those whose epoch key is missing, in order. */
  function Keyless(ops: seq<ContainerOp>, keys: map<u64, EpochKey>): seq<ContainerOp> {
    if ops == [] then []
    else (if ops[0].keyEpoch in keys then [] else [ops[0]]) + Keyless(ops[1..], keys)
  }

  /** What an operation writes, given its key: nothing if it is not legible or bears a stamp of another device. */
  function WritesOf(a: Access, authors: Authors, keys: map<u64, EpochKey>, op: ContainerOp): set<Entry> {
    var checked := CheckOp(a, op, authors);
    if checked.Ok? && op.keyEpoch in keys && Legible(op, keys[op.keyEpoch]) && MadeBy(op.body.value, checked.value)
    then Elements(ValidEntries(op.body.value)) else {}
  }

  function AllWrites(a: Access, authors: Authors, keys: map<u64, EpochKey>, ops: seq<ContainerOp>): set<Entry> {
    set op, e | op in ops && e in WritesOf(a, authors, keys, op) :: e
  }

  function Own(s: State): set<Entry> {
    set r | r in s :: Entry(r, s[r])
  }

  /** Ingestion touches neither the grants nor the keys. */
  lemma {:induction false} IngestFrame(c: Local, ops: seq<ContainerOp>, authors: Authors, strict: bool, r: Report)
    ensures var d := Ingest(c, ops, authors, strict, r).c;
      d == c.(headSeq := d.headSeq, lastOpEpoch := d.lastOpEpoch, pending := d.pending, guard := d.guard, state := d.state)
    decreases |ops|
  {
    if ops != [] {
      if ops[0].seq_ <= c.headSeq {
        IngestFrame(c, ops[1..], authors, strict, r);
      } else {
        var s := TakeOne(c, ops[0], authors, strict);
        if s.Moved? { IngestFrame(s.c, ops[1..], authors, strict, Noted(r, ops[0], s.outcome)); }
      }
    }
  }

  // ── small facts ───────────────────────────────────────────────────────────

  lemma {:induction false} PassedAreOps(a: Access, authors: Authors, floor: u64, ops: seq<ContainerOp>)
    ensures forall op :: op in Passed(a, authors, floor, ops) ==> op in ops && CheckOp(a, op, authors).Ok?
    decreases |ops|
  {
    if ops != [] {
      var k := |ops| - 1;
      PassedAreOps(a, authors, floor, ops[..k]);
      assert forall op :: op in ops[..k] ==> op in ops;
    }
  }

  lemma {:induction false} PassedPrefix(a: Access, authors: Authors, floor: u64, ops: seq<ContainerOp>, n: nat)
    requires n <= |ops|
    ensures Passed(a, authors, floor, ops[..n]) <= Passed(a, authors, floor, ops)
    decreases |ops| - n
  {
    if n == |ops| {
      assert ops[..n] == ops;
    } else {
      assert ops[..n + 1][..n] == ops[..n];
      PassedPrefix(a, authors, floor, ops, n + 1);
    }
  }

  lemma {:induction false} KeylessMembers(ops: seq<ContainerOp>, keys: map<u64, EpochKey>)
    ensures forall op :: op in Keyless(ops, keys) <==> op in ops && op.keyEpoch !in keys
  {
    if ops != [] {
      KeylessMembers(ops[1..], keys);
      assert ops == [ops[0]] + ops[1..];
    }
  }

  lemma {:induction false} KeylessNone(ops: seq<ContainerOp>, keys: map<u64, EpochKey>)
    requires forall op :: op in ops ==> op.keyEpoch in keys
    ensures Keyless(ops, keys) == []
  {
    if ops != [] {
      assert ops[0] in ops;
      assert forall op :: op in ops[1..] ==> op in ops;
      KeylessNone(ops[1..], keys);
    }
  }

  lemma {:induction false} KeylessAppend(ops: seq<ContainerOp>, op: ContainerOp, keys: map<u64, EpochKey>)
    ensures Keyless(ops + [op], keys) == Keyless(ops, keys) + (if op.keyEpoch in keys then [] else [op])
  {
    if ops == [] {
      assert ops + [op] == [op] && [op][1..] == [];
    } else {
      assert (ops + [op])[1..] == ops[1..] + [op];
      KeylessAppend(ops[1..], op, keys);
    }
  }

  lemma AllWritesAppend(a: Access, authors: Authors, keys: map<u64, EpochKey>, ops: seq<ContainerOp>, op: ContainerOp)
    ensures AllWrites(a, authors, keys, ops + [op]) == AllWrites(a, authors, keys, ops) + WritesOf(a, authors, keys, op)
  {
    forall e | e in WritesOf(a, authors, keys, op) ensures e in AllWrites(a, authors, keys, ops + [op]) {
      assert op in ops + [op];
    }
    forall e | e in AllWrites(a, authors, keys, ops) ensures e in AllWrites(a, authors, keys, ops + [op]) {
      var o :| o in ops && e in WritesOf(a, authors, keys, o);
      assert o in ops + [op];
    }
  }

  // ── one operation, one page ───────────────────────────────────────────────

  /** The three things that can happen to an operation the cursor moves over. */
  lemma TakeOneCases(c: Local, op: ContainerOp, authors: Authors, strict: bool)
    requires TakeOne(c, op, authors, strict).Moved?
    ensures var s, next := TakeOne(c, op, authors, strict), c.(headSeq := op.seq_);
      if !Passes(c, op, authors) then s == Moved(next, Refused)
      else if op.keyEpoch !in c.keys then s == Moved(next.(lastOpEpoch := op.keyEpoch, pending := c.pending + [op]), Waiting)
      else
        var o := Open(c.keys, c.guard, c.state, op, CheckOp(c.access, op, authors).value);
        && s.c == next.(lastOpEpoch := op.keyEpoch, guard := o.guard, state := o.state)
        && s.outcome == if o.applied.Some? then Applied(o.applied.value) else Unopened
  {
    hide Open, CheckOp;
  }

  /** The first operation of a page, then the rest of it. */
  lemma IngestFirst(c: Local, j: seq<ContainerOp>, lo: nat, hi: nat, authors: Authors, strict: bool, r: Report)
    requires lo < hi <= |j|
    ensures j[lo].seq_ <= c.headSeq ==>
              Ingest(c, j[lo..hi], authors, strict, r) == Ingest(c, j[lo + 1..hi], authors, strict, r)
    ensures j[lo].seq_ > c.headSeq ==>
      var s := TakeOne(c, j[lo], authors, strict);
      if s.Moved? then Ingest(c, j[lo..hi], authors, strict, r) == Ingest(s.c, j[lo + 1..hi], authors, strict, Noted(r, j[lo], s.outcome))
      else Ingest(c, j[lo..hi], authors, strict, r).c == c
  {
    assert j[lo..hi][0] == j[lo] && j[lo..hi][1..] == j[lo + 1..hi];
  }

  // ── learning: grants, authors, keys ───────────────────────────────────────

  ghost predicate SameVerdict(a: Access, authors: Authors, b: Access, more: Authors, op: ContainerOp) {
    CheckOp(a, op, authors) == CheckOp(b, op, more) || (CheckOp(a, op, authors).Err? && CheckOp(b, op, more).Err?)
  }

  lemma AllWritesFirst(a: Access, authors: Authors, keys: map<u64, EpochKey>, ops: seq<ContainerOp>)
    requires ops != []
    ensures AllWrites(a, authors, keys, ops) == WritesOf(a, authors, keys, ops[0]) + AllWrites(a, authors, keys, ops[1..])
  {
    forall e | e in WritesOf(a, authors, keys, ops[0]) ensures e in AllWrites(a, authors, keys, ops) {
      assert ops[0] in ops;
    }
    forall op, e | op in ops[1..] && e in WritesOf(a, authors, keys, op) ensures e in AllWrites(a, authors, keys, ops) {
      assert op in ops;
    }
    assert ops == [ops[0]] + ops[1..];
  }

  /** The state of `c` after an operation was opened. */
  function Opening(c: Local, op: ContainerOp, author: Author): Local {
    var o := Open(c.keys, c.guard, c.state, op, author);
    c.(guard := o.guard, state := o.state)
  }

  lemma RetryFirst(c: Local, todo: seq<ContainerOp>, authors: Authors)
    requires todo != [] && CheckOp(c.access, todo[0], authors).Ok?
    ensures RetryOver(c, todo, authors) ==
      if todo[0].keyEpoch !in c.keys then RetryOver(c.(pending := c.pending + [todo[0]]), todo[1..], authors)
      else RetryOver(Opening(c, todo[0], CheckOp(c.access, todo[0], authors).value), todo[1..], authors)
  {
    hide Open, CheckOp;
  }

  ghost predicate Extends(keys: map<u64, EpochKey>, more: map<u64, EpochKey>) {
    forall e :: e in keys ==> e in more && more[e] == keys[e]
  }

  /** What was written with the old keys, and what the new keys open, is what the new keys open of all. */
  lemma WritesWithMoreKeys(
    a: Access, authors: Authors, b: Access, more: Authors, keys: map<u64, EpochKey>, all: map<u64, EpochKey>, p: seq<ContainerOp>)
    requires Extends(keys, all)
    requires forall op :: op in p ==> SameVerdict(a, authors, b, more, op)
    ensures AllWrites(a, authors, keys, p) + AllWrites(b, more, all, Keyless(p, keys)) == AllWrites(b, more, all, p)
  {
    KeylessMembers(p, keys);
    forall op, e | op in p && e in WritesOf(b, more, all, op)
      ensures e in AllWrites(a, authors, keys, p) + AllWrites(b, more, all, Keyless(p, keys))
    {
      if op.keyEpoch in keys { assert e in WritesOf(a, authors, keys, op); }
      else { assert op in Keyless(p, keys); }
    }
    forall op, e | op in p && e in WritesOf(a, authors, keys, op) ensures e in AllWrites(b, more, all, p) {
      assert e in WritesOf(b, more, all, op);
    }
  }

  // ── runs ──────────────────────────────────────────────────────────────────

  datatype Event =
    | Page(lo: nat, hi: nat, strict: bool)
    | Learn(access: Access, authors: Authors, keys: map<u64, EpochKey>)
    | Edited(body: seq<Change>, device: Bytes)

  datatype Device = Device(c: Local, authors: Authors)

  function Happen(d: Device, j: seq<ContainerOp>, e: Event): Device {
    match e
    case Page(lo, hi, strict) => if lo <= hi <= |j| then d.(c := After(d.c, j[lo..hi], d.authors, strict)) else d
    case Learn(a, authors, keys) => Device(Retry(d.c.(access := a, keys := keys), authors), authors)
    case Edited(body, device) => d.(c := Edit(d.c, body, device).c)
  }

  function Run(d: Device, j: seq<ContainerOp>, es: seq<Event>): Device
    decreases |es|
  {
    if es == [] then d else Run(Happen(d, j, es[0]), j, es[1..])
  }

  /** A page starts no later than the first operation not taken in yet, so overlaps are allowed and gaps are not. */
  ghost predicate NoGap(d: Device, j: seq<ContainerOp>, lo: nat) {
    forall i :: 0 <= i < lo && i < |j| ==> j[i].seq_ <= d.c.headSeq
  }

  /** The operations behind the cursor: those of the journal, and those that had been waiting when it began. */
  ghost predicate Behind(d: Device, w: seq<ContainerOp>, j: seq<ContainerOp>, op: ContainerOp) {
    op in w || (op in j && op.seq_ <= d.c.headSeq)
  }

  /**
   Pages leave no gap. Keys are the container's own (`keys` in the end). A grant or an author learned late
   does not change the verdict on an operation already taken in; `VerdictMovesIff` says when it would, and
   `LateGrants` what comes of it.
   */
  ghost predicate Fair(d: Device, w: seq<ContainerOp>, j: seq<ContainerOp>, es: seq<Event>, keys: map<u64, EpochKey>)
    decreases |es|
  {
    es == [] ||
    ((match es[0]
      case Page(lo, hi, _) => NoGap(d, j, lo)
      case Learn(a, authors, more) =>
        && Extends(d.c.keys, more) && Extends(more, keys)
        && forall op :: Behind(d, w, j, op) ==> SameVerdict(d.c.access, d.authors, a, authors, op)
      case Edited(_, _) => true)
     && Fair(Happen(d, j, es[0]), w, j, es[1..], keys))
  }

  /** One pass over the whole journal with everything known from the start. */
  function OnePass(c0: Local, j: seq<ContainerOp>, last: Device, keys: map<u64, EpochKey>): Local {
    After(c0.(access := last.c.access, keys := keys), j, last.authors, false)
  }

  // ── when the conditions hold, and what happens without them ───────────────

  /** Learning a grant late changes no verdict behind the cursor iff it neither cuts off an operation there nor lets one in. */
  lemma LateGrantKeepsVerdictIff(a: Access, b: Access, e: GrantEntry, op: ContainerOp, authors: Authors)
    requires a.WellFormed() && Apply(a, e, authors) == Ok(b) && (forall k :: k in a.boundaries ==> k <= a.epoch)
    requires op.container == a.container && op.authentic && op.signer.Some? && 1 <= op.keyEpoch <= a.epoch
    ensures SameVerdict(a, authors, b, authors, op) <==>
      if CheckOp(a, op, authors).Ok? then !Cuts(e, op.seq_)
      else !Admits(a, e, op.signer.value, op.keyEpoch, op.seq_, authors)
  {
    VerdictMovesIff(a, b, e, op.signer.value, op.keyEpoch, op.seq_, authors);
  }

  /** A strict page takes in only operations of known authors, and their verdict survives learning more authors. */
  lemma StrictNeedsNoForesight(c: Local, op: ContainerOp, authors: Authors, more: Authors)
    requires TakeOne(c, op, authors, true).Moved?
    requires forall k :: k in authors ==> k in more && more[k] == authors[k]
    ensures SameVerdict(c.access, authors, c.access, more, op)
  {
  }

  // A concrete journal: the owner "o" writes with one device, key `e` opens epoch `e`.

  const OWNER: Genesis := Genesis(0, 0, "o", 0, true)
  const OWNERS: Authors := map[0 := Author("o", [], [])]

  function Write(lamport: u64): seq<Change> {
    [Change(true, [Entry(Register([], lamport), Cell(Stamp(lamport, []), false, []))], None)]
  }

  function Plain(seq_: u64, epoch: u64, lamport: u64): ContainerOp {
    ContainerOp(seq_, 0, epoch, Some(0), true, epoch, Some(Write(lamport)))
  }

  function Fresh(epoch: u64, keys: map<u64, EpochKey>): Local {
    Local(OWNER, [], Access(0, 0, "o", epoch, 0, [OfGenesis(OWNER)], map[], map[], map[]), keys, 0, map[], 0, 0, [], 0)
  }

  lemma WriteIsOneEntry(lamport: u64)
    ensures AllEntries(Write(lamport)) == Write(lamport)[0].entries == ValidEntries(Write(lamport))
    ensures Lamports(AllEntries(Write(lamport))) == [lamport] && MadeBy(Write(lamport), OWNERS[0])
    ensures Readable(Write(lamport)) <==> lamport != 0
  {
    var w := Write(lamport);
    assert w[1..] == [];
    assert w[0].entries + [] == w[0].entries;
    assert Lamports(AllEntries(w)) == [lamport];
  }

  lemma OpenPlain(c: Local, op: ContainerOp, lamport: u64)
    requires op == Plain(op.seq_, op.keyEpoch, lamport) && lamport != 0 && op.keyEpoch in c.keys && c.keys[op.keyEpoch] == op.keyEpoch
    ensures Open(c.keys, c.guard, c.state, op, OWNERS[0]) ==
            if Accepts(c.guard, lamport)
            then Opened(Max(c.guard, lamport), Put(c.state, Write(lamport)[0].entries[0]), Some(1))
            else Opened(c.guard, c.state, None)
  {
    WriteIsOneEntry(lamport);
    var e := Write(lamport)[0].entries;
    assert e[1..] == [];
    assert PutAll(c.state, e) == Put(c.state, e[0]);
    assert Write(lamport)[1..] == [];
    assert ValidCount(Write(lamport)) == 1;
    var l: seq<u64> := [lamport];
    assert l[1..] == [];
    assert CheckAll(c.guard, l) == if Accepts(c.guard, lamport) then Checked(Max(c.guard, lamport), true) else Checked(c.guard, false);
  }

  lemma OwnerChecksOut(top: u64, op: ContainerOp, lamport: u64)
    requires op == Plain(op.seq_, op.keyEpoch, lamport) && 1 <= op.keyEpoch <= top
    ensures CheckOp(Fresh(top, map[]).access, op, OWNERS) == Ok(OWNERS[0])
  {
    assert Fresh(top, map[]).access.CouldWriteAt(OWNERS[0].user, op.keyEpoch);
  }

  lemma TakeTwo(c: Local, a: ContainerOp, b: ContainerOp, authors: Authors, strict: bool)
    requires c.headSeq < a.seq_ < b.seq_
    requires TakeOne(c, a, authors, strict).Moved?
    requires TakeOne(TakeOne(c, a, authors, strict).c, b, authors, strict).Moved?
    ensures After(c, [a, b], authors, strict) == TakeOne(TakeOne(c, a, authors, strict).c, b, authors, strict).c
  {
    var j, c1, r := [a, b], TakeOne(c, a, authors, strict).c, NewReport(c, false);
    IngestFirst(c, j, 0, 2, authors, strict, r);
    IngestFirst(c1, j, 1, 2, authors, strict, Noted(r, a, TakeOne(c, a, authors, strict).outcome));
    assert j[0..2] == j && j[2..2] == [];
  }

  /**
   Without room in the clock a late key can lose an operation for good: of two operations, each one jump
   further than the last, the second is refused if the key of the first comes later; one pass applies both.
   */
  lemma LateKeyCanLoseAnOperation()
    ensures var j := [Plain(1, 1, JUMP), Plain(2, 2, 2 * JUMP)];
      var c0, keys := Fresh(2, map[2 := 2]), map[1 := 1, 2 := 2];
      var late := RetryOver(After(c0, j, OWNERS, true).(keys := keys, pending := []), After(c0, j, OWNERS, true).pending, OWNERS);
      var one := After(c0.(keys := keys), j, OWNERS, false);
      late.pending == one.pending == [] && late.headSeq == one.headSeq && late.state != one.state
  {
    var first, second := Plain(1, 1, JUMP), Plain(2, 2, 2 * JUMP);
    var c0, keys: map<u64, EpochKey> := Fresh(2, map[2 := 2]), map[1 := 1, 2 := 2];
    OwnerChecksOut(2, first, JUMP);
    OwnerChecksOut(2, second, 2 * JUMP);
    assert c0.access == Fresh(2, map[]).access;
    var c1 := TakeOne(c0, first, OWNERS, true).c;
    OpenPlain(c1, second, 2 * JUMP);
    var c2 := TakeOne(c1, second, OWNERS, true).c;
    TakeTwo(c0, first, second, OWNERS, true);
    var d := c2.(keys := keys, pending := []);
    OpenPlain(d, first, JUMP);
    var todo := c2.pending;
    assert todo == [first] && todo[1..] == [];
    var o := Open(d.keys, d.guard, d.state, first, OWNERS[0]);
    var late := RetryOver(d, todo, OWNERS);
    assert late == RetryOver(d.(guard := o.guard, state := o.state), todo[1..], OWNERS);
    assert late.state == Put(map[], Write(JUMP)[0].entries[0]);

    var e0 := c0.(keys := keys);
    OpenPlain(e0, first, JUMP);
    var e1 := TakeOne(e0, first, OWNERS, false).c;
    OpenPlain(e1, second, 2 * JUMP);
    var e2 := TakeOne(e1, second, OWNERS, false).c;
    TakeTwo(e0, first, second, OWNERS, false);
    assert Register([], 2 * JUMP) in e2.state && Register([], 2 * JUMP) !in late.state;
  }

  // ── pages alone ───────────────────────────────────────────────────────────

  ghost predicate Placed(c: Local, j: seq<ContainerOp>, n: nat) {
    n <= |j| && forall i :: 0 <= i < |j| ==> (j[i].seq_ <= c.headSeq <==> i < n)
  }

  lemma {:induction false} ReportIsOnlyAReport(
    c: Local, ops: seq<ContainerOp>, authors: Authors, strict: bool, r: Report, q: Report)
    ensures Ingest(c, ops, authors, strict, r).c == Ingest(c, ops, authors, strict, q).c
    decreases |ops|
  {
    if ops != [] {
      if ops[0].seq_ <= c.headSeq {
        ReportIsOnlyAReport(c, ops[1..], authors, strict, r, q);
      } else {
        var s := TakeOne(c, ops[0], authors, strict);
        if s.Moved? {
          ReportIsOnlyAReport(s.c, ops[1..], authors, strict, Noted(r, ops[0], s.outcome), Noted(q, ops[0], s.outcome));
        }
      }
    }
  }

  /** What lies behind the cursor is skipped. */
  lemma {:induction false} SkipsBehind(
    c: Local, j: seq<ContainerOp>, n: nat, lo: nat, hi: nat, authors: Authors, strict: bool, r: Report)
    requires Placed(c, j, n) && lo <= hi <= |j| && lo <= n
    ensures Ingest(c, j[lo..hi], authors, strict, r) == Ingest(c, j[Min(n, hi)..hi], authors, strict, r)
    decreases hi - lo
  {
    if lo < Min(n, hi) {
      IngestFirst(c, j, lo, hi, authors, strict, r);
      SkipsBehind(c, j, n, lo + 1, hi, authors, strict, r);
    }
  }

  /** After the journal was taken in up to `m`, a page `lo..hi` does what taking it in up to `hi` would have done. */
  lemma {:induction false} PageAfterPages(
    c: Local, j: seq<ContainerOp>, n: nat, m: nat, lo: nat, hi: nat, authors: Authors, strict: bool, r: Report)
    requires Sorted(j) && Placed(c, j, n) && n <= m <= |j| && lo <= hi <= |j|
    requires forall i :: 0 <= i < lo ==> j[i].seq_ <= Ingest(c, j[n..m], authors, strict, r).c.headSeq
    ensures Ingest(Ingest(c, j[n..m], authors, strict, r).c, j[lo..hi], authors, strict, r).c
         == Ingest(c, j[n..Max(m, hi)], authors, strict, r).c
    decreases m - n
  {
    var top := Max(m, hi);
    hide TakeOne;
    if n == m {
      assert j[n..m] == [];
      if lo > 0 { assert j[lo - 1].seq_ <= c.headSeq; }
      SkipsBehind(c, j, n, lo, hi, authors, strict, r);
      if hi <= n { assert j[Min(n, hi)..hi] == [] == j[n..top]; }
    } else {
      IngestFirst(c, j, n, m, authors, strict, r);
      IngestFirst(c, j, n, top, authors, strict, r);
      var s := TakeOne(c, j[n], authors, strict);
      if s.Moved? {
        PlacedNext(c, j, n, authors, strict);
        var q := Noted(r, j[n], s.outcome);
        assert Ingest(c, j[n..m], authors, strict, r).c == Ingest(s.c, j[n + 1..m], authors, strict, q).c;
        hide Ingest;
        ReportIsOnlyAReport(s.c, j[n + 1..m], authors, strict, q, r);
        ReportIsOnlyAReport(s.c, j[n + 1..top], authors, strict, q, r);
        PageAfterPages(s.c, j, n + 1, m, lo, hi, authors, strict, r);
      } else {
        if lo > 0 { assert j[lo - 1].seq_ <= c.headSeq; }
        SkipsBehind(c, j, n, lo, hi, authors, strict, r);
        if n < hi { IngestFirst(c, j, n, hi, authors, strict, r); } else { assert j[hi..hi] == []; }
      }
    }
  }

  lemma PlacedNext(c: Local, j: seq<ContainerOp>, n: nat, authors: Authors, strict: bool)
    requires Sorted(j) && Placed(c, j, n) && n < |j| && TakeOne(c, j[n], authors, strict).Moved?
    ensures Placed(TakeOne(c, j[n], authors, strict).c, j, n + 1)
  {
  }

  function Furthest(pages: seq<(nat, nat)>): nat {
    if pages == [] then 0 else Max(Furthest(pages[..|pages| - 1]), pages[|pages| - 1].1)
  }

  function TakePages(c: Local, j: seq<ContainerOp>, pages: seq<(nat, nat)>, authors: Authors, strict: bool): Local
    requires forall p :: p in pages ==> p.0 <= p.1 <= |j|
  {
    if pages == [] then c
    else
      var p := pages[|pages| - 1];
      After(TakePages(c, j, pages[..|pages| - 1], authors, strict), j[p.0..p.1], authors, strict)
  }

  ghost predicate Gapless(c: Local, j: seq<ContainerOp>, pages: seq<(nat, nat)>, authors: Authors, strict: bool)
    requires forall p :: p in pages ==> p.0 <= p.1 <= |j|
  {
    pages == [] ||
    (Gapless(c, j, pages[..|pages| - 1], authors, strict)
     && forall i :: 0 <= i < pages[|pages| - 1].0 ==> j[i].seq_ <= TakePages(c, j, pages[..|pages| - 1], authors, strict).headSeq)
  }

  /**
   With what is known staying the same, any cut of the journal - overlaps, repeats, stops retried - leaves
   exactly the container that one page of the whole stretch would leave: cursor, clock, queue, floor and state.
   */
  lemma {:induction false} CutsDoNotMatter(c: Local, j: seq<ContainerOp>, pages: seq<(nat, nat)>, authors: Authors, strict: bool)
    requires Sorted(j) && Placed(c, j, 0)
    requires forall p :: p in pages ==> p.0 <= p.1 <= |j|
    requires Gapless(c, j, pages, authors, strict)
    ensures Furthest(pages) <= |j|
    ensures TakePages(c, j, pages, authors, strict) == After(c, j[..Furthest(pages)], authors, strict)
    decreases |pages|
  {
    if pages == [] {
      assert j[..0] == [];
    } else {
      var most, p := pages[..|pages| - 1], pages[|pages| - 1];
      assert p in pages;
      CutsDoNotMatter(c, j, most, authors, strict);
      var m := Furthest(most);
      var r := NewReport(c, false);
      var d := After(c, j[..m], authors, strict);
      assert j[..m] == j[0..m] && j[..Max(m, p.1)] == j[0..Max(m, p.1)];
      PageAfterPages(c, j, 0, m, p.0, p.1, authors, strict, r);
      ReportIsOnlyAReport(d, j[p.0..p.1], authors, strict, NewReport(d, false), r);
    }
  }
}
