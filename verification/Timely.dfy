/**
 Runs in which every key is there in time: stops for grants and authors, learning and retrying then leave no
 trace at all, whatever the clock; the condition on the clock in `Convergence` is for late keys alone.
 */
module Timely {
  import opened Prelude
  import opened Lww
  import opened Guard
  import opened Access
  import opened Journal
  import opened Convergence

  /** The cursor moves over the operation; one that does not check out only moves it. */
  function Pass(c: Local, op: ContainerOp, authors: Authors): Local {
    var checked := CheckOp(c.access, op, authors);
    var next := c.(headSeq := op.seq_);
    if checked.Err? || op.keyEpoch < c.lastOpEpoch then next
    else if op.keyEpoch !in c.keys then next.(lastOpEpoch := op.keyEpoch, pending := c.pending + [op])
    else
      var o := Open(c.keys, c.guard, c.state, op, checked.value);
      next.(lastOpEpoch := op.keyEpoch, guard := o.guard, state := o.state)
  }

  /** Over all of them, without a stop. */
  function Walk(c: Local, ops: seq<ContainerOp>, authors: Authors): Local {
    if ops == [] then c else var k := |ops| - 1; Pass(Walk(c, ops[..k], authors), ops[k], authors)
  }

  /** `c0`, had it known from the start what `d` knows. */
  function Knowing(c0: Local, d: Device): Local {
    c0.(access := d.c.access, keys := d.c.keys)
  }

  /** The device is exactly where walking over the first `n` operations with its present knowledge leads. */
  ghost predicate Walked(d: Device, c0: Local, j: seq<ContainerOp>, n: nat) {
    Placed(d.c, j, n) && d.c == Walk(Knowing(c0, d), j[..n], d.authors)
  }

  ghost predicate NothingWaits(d: Device, j: seq<ContainerOp>, es: seq<Event>)
    decreases |es|
  {
    d.c.pending == [] && (es == [] || NothingWaits(Happen(d, j, es[0]), j, es[1..]))
  }

  /** The device only takes in what others did. */
  predicate NoEdits(es: seq<Event>) {
    forall e :: e in es ==> !e.Edited?
  }

  lemma OneFurther(d: Device, c0: Local, j: seq<ContainerOp>, n: nat, strict: bool)
    requires Sorted(j) && Walked(d, c0, j, n) && n < |j| && TakeOne(d.c, j[n], d.authors, strict).Moved?
    ensures Walked(d.(c := TakeOne(d.c, j[n], d.authors, strict).c), c0, j, n + 1)
  {
    PlacedNext(d.c, j, n, d.authors, strict);
    assert j[..n + 1][..n] == j[..n];
  }

  lemma {:induction false} PageWalks(d: Device, c0: Local, j: seq<ContainerOp>, n: nat, lo: nat, hi: nat, strict: bool, r: Report)
    returns (m: nat)
    requires Sorted(j) && Walked(d, c0, j, n) && lo <= n && lo <= hi <= |j|
    ensures Walked(d.(c := Ingest(d.c, j[lo..hi], d.authors, strict, r).c), c0, j, m)
    decreases hi - lo
  {
    m := n;
    if lo < hi {
      IngestFirst(d.c, j, lo, hi, d.authors, strict, r);
      if lo < n {
        hide TakeOne, Walk;
        m := PageWalks(d, c0, j, n, lo + 1, hi, strict, r);
      } else {
        var s := TakeOne(d.c, j[n], d.authors, strict);
        if s.Moved? {
          OneFurther(d, c0, j, n, strict);
          hide TakeOne, Walk;
          m := PageWalks(d.(c := s.c), c0, j, n + 1, lo + 1, hi, strict, Noted(r, j[lo], s.outcome));
        }
      }
    }
  }

  /** Knowledge that changes no verdict, and keys that nothing waited for, would have made no difference earlier. */
  lemma {:induction false} WalkWithMore(
    c: Local, ops: seq<ContainerOp>, authors: Authors, b: Access, more: Authors, keys: map<u64, EpochKey>)
    requires Extends(c.keys, keys) && Walk(c, ops, authors).pending == []
    requires forall op :: op in ops ==> SameVerdict(c.access, authors, b, more, op)
    ensures Walk(c, ops, authors).access == c.access && Walk(c, ops, authors).keys == c.keys
    ensures Walk(c.(access := b, keys := keys), ops, more) == Walk(c, ops, authors).(access := b, keys := keys)
  {
    if ops != [] {
      var k := |ops| - 1;
      assert ops[k] in ops;
      WalkWithMore(c, ops[..k], authors, b, more, keys);
    }
  }

  /** Learning while nothing waits. */
  lemma LearningWalks(d: Device, c0: Local, j: seq<ContainerOp>, n: nat, b: Access, more: Authors, keys: map<u64, EpochKey>)
    requires Walked(d, c0, j, n) && d.c.pending == [] && Extends(d.c.keys, keys)
    requires forall op :: op in j && op.seq_ <= d.c.headSeq ==> SameVerdict(d.c.access, d.authors, b, more, op)
    ensures Walked(Happen(d, j, Learn(b, more, keys)), c0, j, n)
  {
    forall op | op in j[..n] ensures op in j && op.seq_ <= d.c.headSeq {
      var i :| 0 <= i < n && j[i] == op;
    }
    WalkWithMore(Knowing(c0, d), j[..n], d.authors, b, more, keys);
  }

  lemma {:induction false} RunWalks(d: Device, c0: Local, j: seq<ContainerOp>, es: seq<Event>, keys: map<u64, EpochKey>, n: nat)
    returns (m: nat)
    requires Sorted(j) && Walked(d, c0, j, n) && Fair(d, [], j, es, keys) && NothingWaits(d, j, es) && NoEdits(es)
    ensures Walked(Run(d, j, es), c0, j, m)
    decreases |es|
  {
    if es == [] { return n; }
    m := n;
    assert es[0] in es && forall e :: e in es[1..] ==> e in es;
    match es[0]
    case Page(lo, hi, strict) =>
      if lo <= hi <= |j| {
        if lo > 0 { assert j[lo - 1].seq_ <= d.c.headSeq; }
        m := PageWalks(d, c0, j, n, lo, hi, strict, NewReport(d.c, false));
      }
      m := RunWalks(Happen(d, j, es[0]), c0, j, es[1..], keys, m);
    case Learn(a, authors, more) =>
      LearningWalks(d, c0, j, n, a, authors, more);
      m := RunWalks(Happen(d, j, es[0]), c0, j, es[1..], keys, n);
  }

  /** One page of all that is left, when nothing in it is ahead of the grants. */
  lemma {:induction false} WalkIsOnePage(d: Device, c0: Local, j: seq<ContainerOp>, n: nat, r: Report)
    requires Sorted(j) && Walked(d, c0, j, n) && d.c.access == c0.access
    requires forall op :: op in j ==> CheckOp(c0.access, op, d.authors) != Err(Expired)
    ensures Ingest(d.c, j[n..|j|], d.authors, false, r).c == Walk(Knowing(c0, d), j, d.authors)
    decreases |j| - n
  {
    if n == |j| {
      assert j[n..|j|] == [] && j[..n] == j;
    } else {
      assert j[n] in j;
      IngestFirst(d.c, j, n, |j|, d.authors, false, r);
      OneFurther(d, c0, j, n, false);
      var s := TakeOne(d.c, j[n], d.authors, false);
      WalkIsOnePage(d.(c := s.c), c0, j, n + 1, Noted(r, j[n], s.outcome));
    }
  }

  /**
   Whatever the pages, the stops and the order in which grants, authors and keys were learned: if no operation
   ever had to wait for its key, a device at the end of the journal is in every respect - cursor, clock, epoch
   floor and state - what one pass with everything known makes of it. No condition on the clock.
   */
  lemma ConvergesWithKeysInTime(c0: Local, authors0: Authors, j: seq<ContainerOp>, es: seq<Event>, keys: map<u64, EpochKey>)
    requires Sorted(j) && Placed(c0, j, 0)
    requires Fair(Device(c0, authors0), [], j, es, keys) && NothingWaits(Device(c0, authors0), j, es) && NoEdits(es)
    requires var d := Run(Device(c0, authors0), j, es);
      forall op :: op in j ==> op.seq_ <= d.c.headSeq && CheckOp(d.c.access, op, d.authors) != Err(Expired)
    ensures var d := Run(Device(c0, authors0), j, es);
      OnePass(c0, j, d, d.c.keys) == d.c
  {
    var d := Run(Device(c0, authors0), j, es);
    assert j[..0] == [];
    var m := RunWalks(Device(c0, authors0), c0, j, es, keys, 0);
    if j != [] { assert j[|j| - 1] in j; }
    assert j[..m] == j && j[0..|j|] == j;
    var s := Knowing(c0, d);
    WalkIsOnePage(Device(s, d.authors), s, j, 0, NewReport(s, false));
  }
}
