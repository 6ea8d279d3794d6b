/**
 A grant entry learned after operations it judges otherwise: exactly when the device is as if it had known it from the start.
 */
module LateGrants {
  import opened Prelude
  import opened Lww
  import opened Guard
  import opened Access
  import opened Journal
  import opened Convergence
  import opened Timely
  import opened LateKeys

  /** The entry turns the verdict on this operation: it cuts off an accepted one, or lets in the author of a refused one. */
  predicate Turns(a: Access, e: GrantEntry, authors: Authors, op: ContainerOp) {
    && op.container == a.container && op.authentic && op.signer.Some? && op.keyEpoch != 0
    && if CheckOp(a, op, authors).Ok? then Cuts(e, op.seq_) else Admits(a, e, op.signer.value, op.keyEpoch, op.seq_, authors)
  }

  /** No boundary is of an epoch to come: so for every replayed access. */
  ghost predicate Dated(a: Access) {
    a.WellFormed() && forall k :: k in a.boundaries ==> k <= a.epoch
  }

  lemma TurnsIff(a: Access, b: Access, e: GrantEntry, authors: Authors, op: ContainerOp)
    requires Dated(a) && Apply(a, e, authors) == Ok(b) && CheckOp(a, op, authors) != Err(Expired)
    ensures SameVerdict(a, authors, b, authors, op) <==> !Turns(a, e, authors, op)
    ensures Turns(a, e, authors, op) ==> (CheckOp(a, op, authors).Ok? <==> CheckOp(b, op, authors).Err?)
  {
    assert b.container == a.container;
    if op.container == a.container && op.authentic && op.signer.Some? && op.keyEpoch != 0 {
      VerdictMovesIff(a, b, e, op.signer.value, op.keyEpoch, op.seq_, authors);
    }
  }

  /** The epoch of the operation does not go back behind those accepted before it, so that its verdict matters. */
  predicate InTurn(a: Access, authors: Authors, floor: u64, j: seq<ContainerOp>, i: nat)
    requires i < |j|
  {
    Floor(Passed(a, authors, floor, j[..i]), floor) <= j[i].keyEpoch
  }

  /** The entry turns nothing that mattered among the first `n` operations. */
  ghost predicate Unturned(c0: Local, e: GrantEntry, authors: Authors, j: seq<ContainerOp>, n: nat)
    requires n <= |j|
  {
    forall i :: 0 <= i < n && InTurn(c0.access, authors, c0.lastOpEpoch, j, i) ==> !Turns(c0.access, e, authors, j[i])
  }

  /** The device that took in `n` operations before it learned the entry, and the rest after it. */
  function Late(c0: Local, b: Access, authors: Authors, j: seq<ContainerOp>, n: nat): Local
    requires n <= |j|
  {
    After(Retry(After(c0, j[..n], authors, false).(access := b), authors), j[n..], authors, false)
  }

  function Early(c0: Local, b: Access, authors: Authors, j: seq<ContainerOp>): Local {
    After(c0.(access := b), j, authors, false)
  }

  ghost predicate Setting(c0: Local, b: Access, e: GrantEntry, authors: Authors, j: seq<ContainerOp>, n: nat) {
    && n <= |j| && Sorted(j) && (forall i :: 0 <= i < |j| ==> c0.headSeq < j[i].seq_) && c0.pending == []
    && Dated(c0.access) && Apply(c0.access, e, authors) == Ok(b)
    && (forall op :: op in j[..n] ==> CheckOp(c0.access, op, authors) != Err(Expired))
    && (forall op :: op in j ==> CheckOp(b, op, authors) != Err(Expired))
    && (forall op :: op in j && (CheckOp(c0.access, op, authors).Ok? || CheckOp(b, op, authors).Ok?) ==> op.keyEpoch in c0.keys)
  }

  // ── pages as walks ────────────────────────────────────────────────────────

  lemma AfterIsWalk(c: Local, ops: seq<ContainerOp>, authors: Authors)
    requires Ahead(c, ops, authors)
    ensures After(c, ops, authors, false) == Walk(c, ops, authors)
  {
    assert ops[..0] == [] && ops[0..|ops|] == ops;
    WalkIsOnePage(Device(c, authors), c, ops, 0, NewReport(c, false));
  }

  lemma {:induction false} WalkOn(c: Local, p: seq<ContainerOp>, q: seq<ContainerOp>, authors: Authors)
    ensures Walk(c, p + q, authors) == Walk(Walk(c, p, authors), q, authors)
    decreases |q|
  {
    if q == [] {
      assert p + q == p;
    } else {
      var k := |q| - 1;
      assert (p + q)[..|p| + k] == p + q[..k] && (p + q)[|p| + k] == q[k];
      hide Pass;
      WalkOn(c, p, q[..k], authors);
    }
  }

  lemma {:induction false} WalkKeeps(c: Local, ops: seq<ContainerOp>, authors: Authors)
    requires c.pending == [] && forall op :: op in ops && CheckOp(c.access, op, authors).Ok? ==> op.keyEpoch in c.keys
    ensures var d := Walk(c, ops, authors);
      && d.access == c.access && d.keys == c.keys && d.pending == [] && c.guard <= d.guard
      && d.lastOpEpoch == Floor(Passed(c.access, authors, c.lastOpEpoch, ops), c.lastOpEpoch)
      && d.headSeq == if ops == [] then c.headSeq else ops[|ops| - 1].seq_
  {
    if ops != [] {
      var k := |ops| - 1;
      assert ops[k] in ops && forall op :: op in ops[..k] ==> op in ops;
      WalkKeeps(c, ops[..k], authors);
      var d := Walk(c, ops[..k], authors);
      hide CheckOp, Legible;
      if CheckOp(c.access, ops[k], authors).Ok? {
        OpenMeetsStamps(d.keys, d.guard, d.state, ops[k], CheckOp(c.access, ops[k], authors).value);
        CheckAllNeverLowers(d.guard, Stamps(ops[k], d.keys));
      }
    }
  }

  /** What the entry does not turn, it leaves where it was. */
  lemma {:induction false} WalkUnturned(c0: Local, b: Access, e: GrantEntry, authors: Authors, j: seq<ContainerOp>, n: nat, i: nat)
    requires Setting(c0, b, e, authors, j, n) && i <= n
    requires forall h :: 0 <= h < i && InTurn(c0.access, authors, c0.lastOpEpoch, j, h) ==> !Turns(c0.access, e, authors, j[h])
    ensures Walk(c0.(access := b), j[..i], authors) == Walk(c0, j[..i], authors).(access := b)
  {
    if i > 0 {
      var k := i - 1;
      assert j[..i][..k] == j[..k] && j[..i][k] == j[k] && j[k] in j[..n] && j[k] in j;
      WalkUnturned(c0, b, e, authors, j, n, k);
      KeysInHand(c0, b, e, authors, j, n, k);
      WalkKeeps(c0, j[..k], authors);
      TurnsIff(c0.access, b, e, authors, j[k]);
      hide CheckOp, Open, Turns, Passed, Apply;
      assert InTurn(c0.access, authors, c0.lastOpEpoch, j, k) ==> SameVerdict(c0.access, authors, b, authors, j[k]);
    }
  }

  lemma KeysInHand(c0: Local, b: Access, e: GrantEntry, authors: Authors, j: seq<ContainerOp>, n: nat, k: nat)
    requires Setting(c0, b, e, authors, j, n) && k <= |j|
    ensures forall op :: op in j[..k] && CheckOp(c0.access, op, authors).Ok? ==> op.keyEpoch in c0.keys
    ensures forall op :: op in j[..k] && CheckOp(b, op, authors).Ok? ==> op.keyEpoch in c0.keys
  {
    assert forall op :: op in j[..k] ==> op in j;
  }

  /** Both parts of the journal, as pages of their own. */
  lemma PartsArePages(c0: Local, b: Access, e: GrantEntry, authors: Authors, j: seq<ContainerOp>, n: nat)
    requires n <= |j| && Setting(c0, b, e, authors, j, n)
    ensures Ahead(c0, j[..n], authors) && Ahead(c0.(access := b), j, authors)
    ensures Ahead(Walk(c0, j[..n], authors).(access := b), j[n..], authors) && Walk(c0, j[..n], authors).pending == []
  {
    KeysInHand(c0, b, e, authors, j, n, n);
    WalkKeeps(c0, j[..n], authors);
    hide Ahead, Apply, Walk, Passed, Dated;
    forall i | 0 <= i < n ensures CheckOp(c0.access, j[i], authors) != Err(Expired) {
      assert j[..n][i] in j[..n];
    }
    hide CheckOp;
    SliceIsPage(c0, j, 0, n, authors);
    SliceIsPage(c0.(access := b), j, 0, |j|, authors);
    SliceIsPage(Walk(c0, j[..n], authors).(access := b), j, n, |j|, authors);
    assert j[0..n] == j[..n] && j[0..|j|] == j && j[n..|j|] == j[n..];
  }

  lemma SliceIsPage(c: Local, j: seq<ContainerOp>, lo: nat, hi: nat, authors: Authors)
    requires Sorted(j) && lo <= hi <= |j| && (lo < hi ==> c.headSeq < j[lo].seq_)
    requires forall i :: lo <= i < hi ==> CheckOp(c.access, j[i], authors) != Err(Expired)
    ensures Ahead(c, j[lo..hi], authors)
  {
    hide CheckOp;
    forall op | op in j[lo..hi] ensures CheckOp(c.access, op, authors) != Err(Expired) {
      var i :| 0 <= i < hi - lo && j[lo..hi][i] == op;
      assert op == j[lo + i];
    }
  }

  /** The page lies beyond the cursor, in order, and the grants are not behind it. */
  ghost predicate Ahead(c: Local, ops: seq<ContainerOp>, authors: Authors) {
    && Sorted(ops) && (forall i :: 0 <= i < |ops| ==> c.headSeq < ops[i].seq_)
    && forall op :: op in ops ==> CheckOp(c.access, op, authors) != Err(Expired)
  }

  /** The two devices, as walks. */
  lemma BothAsWalks(c0: Local, b: Access, e: GrantEntry, authors: Authors, j: seq<ContainerOp>, n: nat)
    requires n <= |j| && Setting(c0, b, e, authors, j, n)
    ensures Late(c0, b, authors, j, n) == Walk(Walk(c0, j[..n], authors).(access := b), j[n..], authors)
    ensures Early(c0, b, authors, j) == Walk(Walk(c0.(access := b), j[..n], authors), j[n..], authors)
  {
    hide *;
    var d := Walk(c0, j[..n], authors);
    PartsArePages(c0, b, e, authors, j, n);
    AfterIsWalk(c0, j[..n], authors);
    AfterIsWalk(c0.(access := b), j, authors);
    NothingToRetry(d.(access := b), authors);
    AfterIsWalk(d.(access := b), j[n..], authors);
    WalkOn(c0.(access := b), j[..n], j[n..], authors);
    assert j[..n] + j[n..] == j;
    WhatTheyAre(c0, b, authors, j, n);
  }

  lemma WhatTheyAre(c0: Local, b: Access, authors: Authors, j: seq<ContainerOp>, n: nat)
    requires n <= |j|
    ensures Late(c0, b, authors, j, n) == After(Retry(After(c0, j[..n], authors, false).(access := b), authors), j[n..], authors, false)
    ensures Early(c0, b, authors, j) == After(c0.(access := b), j, authors, false)
  {
  }

  lemma NothingToRetry(c: Local, authors: Authors)
    requires c.pending == []
    ensures Retry(c, authors) == c
  {
  }

  /** An entry that turns nothing behind the cursor leaves no trace of having come late: cursor, clock, floor and state. */
  lemma UnturnedIsEarly(c0: Local, b: Access, e: GrantEntry, authors: Authors, j: seq<ContainerOp>, n: nat)
    requires Setting(c0, b, e, authors, j, n) && Unturned(c0, e, authors, j, n)
    ensures Late(c0, b, authors, j, n) == Early(c0, b, authors, j)
  {
    BothAsWalks(c0, b, e, authors, j, n);
    WalkUnturned(c0, b, e, authors, j, n, n);
  }

  // ── and one that turns something does ─────────────────────────────────────

  predicate Touches(op: ContainerOp, r: Register) {
    op.body.Some? && exists i :: 0 <= i < |ValidEntries(op.body.value)| && ValidEntries(op.body.value)[i].register == r
  }

  /** Whoever lets the operation pass opens it, and it alone writes some register. */
  ghost predicate Telling(c0: Local, authors: Authors, j: seq<ContainerOp>, op: ContainerOp) {
    && op.signer.Some? && op.signer.value in authors && op.keyEpoch in c0.keys
    && Legible(op, c0.keys[op.keyEpoch]) && MadeBy(op.body.value, authors[op.signer.value])
    && CheckAll(c0.guard, Stamps(op, c0.keys)).ok
    && exists r :: IsMark(c0, j, op, r)
  }

  ghost predicate IsMark(c0: Local, j: seq<ContainerOp>, op: ContainerOp, r: Register) {
    Touches(op, r) && r !in c0.state && forall other :: other in j && other != op ==> !Touches(other, r)
  }

  lemma PassWrites(c: Local, op: ContainerOp, authors: Authors, r: Register)
    ensures r in Pass(c, op, authors).state ==> r in c.state || Touches(op, r)
    ensures r in c.state ==> r in Pass(c, op, authors).state
  {
    hide CheckOp, CheckAll, MadeBy;
    if op.body.Some? { PutAllRegisters(c.state, ValidEntries(op.body.value), r); }
  }

  lemma {:induction false} PutAllRegisters(s: State, es: seq<Entry>, r: Register)
    ensures r in PutAll(s, es) <==> r in s || exists i :: 0 <= i < |es| && es[i].register == r
    decreases |es|
  {
    if es != [] {
      PutAllRegisters(Put(s, es[0]), es[1..], r);
      if i :| 0 <= i < |es| && es[i].register == r {
        assert i > 0 ==> es[1..][i - 1].register == r;
      }
    }
  }

  lemma {:induction false} WalkWrites(c: Local, ops: seq<ContainerOp>, authors: Authors, r: Register)
    ensures r in c.state ==> r in Walk(c, ops, authors).state
    ensures r !in c.state && (forall op :: op in ops ==> !Touches(op, r)) ==> r !in Walk(c, ops, authors).state
  {
    if ops != [] {
      var k := |ops| - 1;
      assert ops[k] in ops && forall op :: op in ops[..k] ==> op in ops;
      hide Pass, Touches;
      WalkWrites(c, ops[..k], authors, r);
      PassWrites(Walk(c, ops[..k], authors), ops[k], authors, r);
    }
  }

  lemma TellingIsWritten(c0: Local, c: Local, authors: Authors, j: seq<ContainerOp>, op: ContainerOp, r: Register)
    requires Telling(c0, authors, j, op) && Touches(op, r) && c.keys == c0.keys && c0.guard <= c.guard
    requires CheckOp(c.access, op, authors).Ok? && c.lastOpEpoch <= op.keyEpoch
    ensures r in Pass(c, op, authors).state
  {
    assert CheckOp(c.access, op, authors).value == authors[op.signer.value];
    AheadAcceptsMore(c0.guard, c.guard, Stamps(op, c0.keys));
    PutAllRegisters(c.state, ValidEntries(op.body.value), r);
    hide CheckOp;
  }

  lemma NotPassedIsNotWritten(c: Local, authors: Authors, op: ContainerOp)
    requires CheckOp(c.access, op, authors).Err?
    ensures Pass(c, op, authors).state == c.state
  {
  }

  /** At the first operation the entry turns, one of the two writes its mark and the other does not. */
  lemma FirstTurnedMarks(c0: Local, b: Access, e: GrantEntry, authors: Authors, j: seq<ContainerOp>, n: nat, i: nat, r: Register)
    requires Setting(c0, b, e, authors, j, n) && i < n && Telling(c0, authors, j, j[i]) && IsMark(c0, j, j[i], r)
    requires InTurn(c0.access, authors, c0.lastOpEpoch, j, i) && Turns(c0.access, e, authors, j[i])
    requires forall h :: 0 <= h < i && InTurn(c0.access, authors, c0.lastOpEpoch, j, h) ==> !Turns(c0.access, e, authors, j[h])
    ensures r in Walk(c0, j[..i + 1], authors).state <==> r !in Walk(c0.(access := b), j[..i + 1], authors).state
  {
    var op := j[i];
    var before := Walk(c0, j[..i], authors);
    assert op in j[..n] && op in j && j[..i + 1][..i] == j[..i] && j[..i + 1][i] == op;
    KeysInHand(c0, b, e, authors, j, n, i);
    WalkKeeps(c0, j[..i], authors);
    WalkUnturned(c0, b, e, authors, j, n, i);
    TurnsIff(c0.access, b, e, authors, op);
    OthersDoNotTouch(c0, j, i, r);
    hide Setting, CheckOp, Passed, Apply, Turns, Touches, Pass;
    WalkWrites(c0, j[..i], authors, r);
    if CheckOp(c0.access, op, authors).Ok? {
      TellingIsWritten(c0, before, authors, j, op, r);
      NotPassedIsNotWritten(before.(access := b), authors, op);
    } else {
      TellingIsWritten(c0, before.(access := b), authors, j, op, r);
      NotPassedIsNotWritten(before, authors, op);
    }
  }

  /** So it is in one of the two states and not in the other, to the end. */
  lemma FirstTurnedShows(c0: Local, b: Access, e: GrantEntry, authors: Authors, j: seq<ContainerOp>, n: nat, i: nat)
    requires Setting(c0, b, e, authors, j, n) && i < n && Telling(c0, authors, j, j[i])
    requires InTurn(c0.access, authors, c0.lastOpEpoch, j, i) && Turns(c0.access, e, authors, j[i])
    requires forall h :: 0 <= h < i && InTurn(c0.access, authors, c0.lastOpEpoch, j, h) ==> !Turns(c0.access, e, authors, j[h])
    ensures Walk(Walk(c0, j[..n], authors).(access := b), j[n..], authors).state
         != Walk(Walk(c0.(access := b), j[..n], authors), j[n..], authors).state
  {
    var r :| IsMark(c0, j, j[i], r);
    FirstTurnedMarks(c0, b, e, authors, j, n, i, r);
    OthersDoNotTouch(c0, j, i, r);
    var late, early := Walk(c0, j[..i + 1], authors), Walk(c0.(access := b), j[..i + 1], authors);
    assert n <= |j| && (forall op :: op in j[i + 1..n] ==> !Touches(op, r)) && (forall op :: op in j[n..] ==> !Touches(op, r));
    hide Walk, Telling, Setting, Touches, InTurn, Turns, IsMark;
    WalkSplits(c0, j, i + 1, n, authors);
    WalkSplits(c0.(access := b), j, i + 1, n, authors);
    WalkWrites(late, j[i + 1..n], authors, r);
    WalkWrites(early, j[i + 1..n], authors, r);
    WalkWrites(Walk(late, j[i + 1..n], authors).(access := b), j[n..], authors, r);
    WalkWrites(Walk(early, j[i + 1..n], authors), j[n..], authors, r);
  }

  lemma WalkSplits(c: Local, j: seq<ContainerOp>, i: nat, n: nat, authors: Authors)
    requires i <= n <= |j|
    ensures Walk(c, j[..n], authors) == Walk(Walk(c, j[..i], authors), j[i..n], authors)
  {
    assert j[..n] == j[..i] + j[i..n];
    WalkOn(c, j[..i], j[i..n], authors);
  }

  lemma OthersDoNotTouch(c0: Local, j: seq<ContainerOp>, i: nat, r: Register)
    requires Sorted(j) && i < |j| && IsMark(c0, j, j[i], r)
    ensures forall h :: 0 <= h < |j| && h != i ==> !Touches(j[h], r)
  {
    forall h | 0 <= h < |j| && h != i ensures !Touches(j[h], r) {
      assert j[h].seq_ != j[i].seq_ && j[h] in j;
    }
  }

  /**
   In journals whose operations leave their mark, a device that learned an entry late has the cursor and the state of one
   that knew it from the start, if and only if the entry cuts off no operation that was accepted behind the cursor and
   lets in no author of one that was refused there - those aside that the order of epochs refuses anyway.
   */
  lemma LateEntryIff(c0: Local, b: Access, e: GrantEntry, authors: Authors, j: seq<ContainerOp>, n: nat)
    requires Setting(c0, b, e, authors, j, n)
    requires forall i :: 0 <= i < n && Turns(c0.access, e, authors, j[i]) ==> Telling(c0, authors, j, j[i])
    ensures var late, early := Late(c0, b, authors, j, n), Early(c0, b, authors, j);
      (late.headSeq == early.headSeq && late.state == early.state) <==> Unturned(c0, e, authors, j, n)
  {
    if Unturned(c0, e, authors, j, n) {
      UnturnedIsEarly(c0, b, e, authors, j, n);
    } else {
      var i := FirstTurned(c0, e, authors, j, n);
      BothAsWalks(c0, b, e, authors, j, n);
      FirstTurnedShows(c0, b, e, authors, j, n, i);
    }
  }

  lemma {:induction false} FirstTurned(c0: Local, e: GrantEntry, authors: Authors, j: seq<ContainerOp>, n: nat) returns (i: nat)
    requires n <= |j| && !Unturned(c0, e, authors, j, n)
    ensures i < n && InTurn(c0.access, authors, c0.lastOpEpoch, j, i) && Turns(c0.access, e, authors, j[i])
    ensures forall h :: 0 <= h < i && InTurn(c0.access, authors, c0.lastOpEpoch, j, h) ==> !Turns(c0.access, e, authors, j[h])
  {
    hide InTurn, Turns;
    i := 0;
    while InTurn(c0.access, authors, c0.lastOpEpoch, j, i) ==> !Turns(c0.access, e, authors, j[i])
      invariant i < n
      invariant forall h :: 0 <= h < i && InTurn(c0.access, authors, c0.lastOpEpoch, j, h) ==> !Turns(c0.access, e, authors, j[h])
      decreases n - i
    {
      i := i + 1;
    }
  }

  // ── it happens ────────────────────────────────────────────────────────────

  /** A rotation that cuts off what lies beyond the fourth place of the journal. */
  const ROTATION := GrantEntry(Kind.Rotate, true, 0, None, Unspecified, 2, 1, OfGenesis(OWNER), Some(4), 0)

  /** The fifth operation was taken in before the rotation was learned, and is refused by whoever knew it. */
  lemma LateRotationDiverges()
    ensures var c0, j := Fresh(1, map[1 := 1]), [Plain(5, 1, 1)];
      var b := Apply(c0.access, ROTATION, OWNERS);
      && b.Ok? && Turns(c0.access, ROTATION, OWNERS, j[0])
      && var late, early := Late(c0, b.value, OWNERS, j, 1), Early(c0, b.value, OWNERS, j);
        late.pending == early.pending == [] && late.headSeq == early.headSeq && late.state != early.state
  {
    var c0, op := Fresh(1, map[1 := 1]), Plain(5, 1, 1);
    var j := [op];
    assert c0.access == Fresh(1, map[]).access;
    OwnerChecksOut(1, op, 1);
    var b := Apply(c0.access, ROTATION, OWNERS).value;
    assert 2 in b.boundaries && b.boundaries[2] == 4 && !b.WithinBoundary(1, 5);
    OpenPlain(c0, op, 1);
    assert j[..1] == j && j[1..] == [];
    assert CheckOp(b, op, OWNERS) == Err(Forbidden);
    TakeTheOne(c0, op);
    TakeTheOne(c0.(access := b), op);
    var d := After(c0, j, OWNERS, false);
    assert d.state == Put(map[], Convergence.Write(1)[0].entries[0]) && Register([], 1) in d.state;
  }

  lemma TakeTheOne(c: Local, op: ContainerOp)
    requires c.headSeq < op.seq_ && TakeOne(c, op, OWNERS, false).Moved?
    ensures After(c, [op], OWNERS, false) == TakeOne(c, op, OWNERS, false).c
  {
    var j := [op];
    IngestFirst(c, j, 0, 1, OWNERS, false, NewReport(c, false));
    assert j[0..1] == j && j[1..1] == [];
  }
}
