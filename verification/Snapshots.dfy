/**
 A snapshot plus the rest of the journal against the replay of the whole journal: the device that started
 from the snapshot is never behind, and the two agree once the author's local edits are in the journal.
 */
module Snapshots {
  import opened Prelude
  import opened Lww
  import opened Guard
  import opened Access
  import opened Journal
  import opened Convergence

  // ── one device ahead of another ───────────────────────────────────────────

  /** At the same place of the journal, `x` has merged all that `f` has, and would accept all that `f` would. */
  ghost predicate Ahead(f: Local, x: Local) {
    && f.access == x.access && f.keys == x.keys && f.headSeq == x.headSeq
    && x.lastOpEpoch <= f.lastOpEpoch && f.guard <= x.guard && Below(f.state, x.state)
  }

  lemma OpenKeepsAhead(f: Local, x: Local, op: ContainerOp, author: Author)
    requires Ahead(f, x)
    ensures var p, q := Open(f.keys, f.guard, f.state, op, author), Open(x.keys, x.guard, x.state, op, author);
      f.guard <= p.guard <= q.guard && Below(p.state, q.state) && x.guard <= q.guard && Below(x.state, q.state)
  {
    assert Below(x.state, x.state);
    if op.keyEpoch in f.keys && Legible(op, f.keys[op.keyEpoch]) {
      var body := op.body.value;
      AheadAcceptsMore(f.guard, x.guard, Lamports(AllEntries(body)));
      CheckAllNeverLowers(x.guard, Lamports(AllEntries(body)));
      PutAllIsMonotone(f.state, x.state, ValidEntries(body));
      PutAllIsMonotone(x.state, x.state, ValidEntries(body));
      BelowIsTransitive(f.state, x.state, PutAll(x.state, ValidEntries(body)));
    }
  }

  lemma TakeOneKeepsAhead(f: Local, x: Local, op: ContainerOp, authors: Authors)
    requires Ahead(f, x)
    ensures var s, t := TakeOne(f, op, authors, false), TakeOne(x, op, authors, false);
      s.Moved? == t.Moved? && (s.Moved? ==> Ahead(s.c, t.c))
  {
    if CheckOp(f.access, op, authors).Ok? {
      OpenKeepsAhead(f, x, op, CheckOp(f.access, op, authors).value);
      hide Open, CheckOp, Known;
      var q := Open(x.keys, x.guard, x.state, op, CheckOp(f.access, op, authors).value);
      BelowIsTransitive(f.state, x.state, q.state);
    }
  }

  lemma {:induction false} IngestKeepsAhead(f: Local, x: Local, ops: seq<ContainerOp>, authors: Authors, r: Report, q: Report)
    requires Ahead(f, x)
    ensures Ahead(Ingest(f, ops, authors, false, r).c, Ingest(x, ops, authors, false, q).c)
    decreases |ops|
  {
    if ops != [] {
      if ops[0].seq_ <= f.headSeq {
        IngestKeepsAhead(f, x, ops[1..], authors, r, q);
      } else {
        TakeOneKeepsAhead(f, x, ops[0], authors);
        var s, t := TakeOne(f, ops[0], authors, false), TakeOne(x, ops[0], authors, false);
        hide TakeOne, Ahead, Noted;
        if s.Moved? {
          IngestKeepsAhead(s.c, t.c, ops[1..], authors, Noted(r, ops[0], s.outcome), Noted(q, ops[0], t.outcome));
        }
      }
    }
  }

  lemma EditKeepsAhead(f: Local, x: Local, body: seq<Change>, device: Bytes)
    requires Ahead(f, x)
    ensures Ahead(f, Edit(x, body, device).c)
  {
    var stamped := StampBody(body, Stamp(Tick(x.guard), device));
    assert Below(x.state, x.state);
    PutAllIsMonotone(x.state, x.state, ValidEntries(stamped));
    BelowIsTransitive(f.state, x.state, PutAll(x.state, ValidEntries(stamped)));
  }

  // ── the life of the device that writes the snapshot ───────────────────────

  datatype Act = Took(ops: seq<ContainerOp>) | Edited(body: seq<Change>)

  function Live(x: Local, act: Act, authors: Authors, device: Bytes): Local {
    match act
    case Took(ops) => After(x, ops, authors, false)
    case Edited(body) => Edit(x, body, device).c
  }

  function Life(x: Local, acts: seq<Act>, authors: Authors, device: Bytes): Local
    decreases |acts|
  {
    if acts == [] then x else Life(Live(x, acts[0], authors, device), acts[1..], authors, device)
  }

  /** The operations a life took in. */
  function TookIn(acts: seq<Act>): seq<ContainerOp> {
    if acts == [] then [] else (if acts[0].Took? then acts[0].ops else []) + TookIn(acts[1..])
  }

  /** The writes of its local edits, as stamped. */
  function Edits(x: Local, acts: seq<Act>, authors: Authors, device: Bytes): seq<Entry>
    decreases |acts|
  {
    if acts == [] then []
    else
      (if acts[0].Edited? then ValidEntries(StampBody(acts[0].body, Stamp(Tick(x.guard), device))) else [])
      + Edits(Live(x, acts[0], authors, device), acts[1..], authors, device)
  }

  /** The grants are not behind any of these operations. */
  ghost predicate Judged(a: Access, ops: seq<ContainerOp>, authors: Authors) {
    forall op :: op in ops ==> CheckOp(a, op, authors) != Err(Expired)
  }

  lemma {:induction false} IngestConcat(c: Local, p: seq<ContainerOp>, q: seq<ContainerOp>, authors: Authors, r: Report)
    requires Judged(c.access, p, authors)
    ensures Ingest(c, p + q, authors, false, r).c == Ingest(Ingest(c, p, authors, false, r).c, q, authors, false, r).c
    decreases |p|
  {
    if p == [] {
      assert p + q == q;
    } else {
      assert (p + q)[1..] == p[1..] + q;
      assert p[0] in p && forall op :: op in p[1..] ==> op in p;
      if p[0].seq_ <= c.headSeq {
        IngestConcat(c, p[1..], q, authors, r);
      } else {
        var s := TakeOne(c, p[0], authors, false);
        assert s.Moved? && s.c.access == c.access;
        hide TakeOne, Noted, CheckOp;
        IngestConcat(s.c, p[1..], q, authors, r);
        var n := Noted(r, p[0], s.outcome);
        ReportIsOnlyAReport(s.c, p[1..] + q, authors, false, n, r);
        ReportIsOnlyAReport(s.c, p[1..], authors, false, n, r);
      }
    }
  }

  lemma {:induction false} LifeStaysAhead(f: Local, x: Local, acts: seq<Act>, authors: Authors, device: Bytes)
    requires Ahead(f, x) && Judged(f.access, TookIn(acts), authors)
    ensures Ahead(After(f, TookIn(acts), authors, false), Life(x, acts, authors, device))
    decreases |acts|
  {
    if acts != [] {
      var rest := TookIn(acts[1..]);
      var r := NewReport(f, false);
      match acts[0]
      case Took(ops) =>
        assert forall op :: op in ops || op in rest ==> op in TookIn(acts);
        IngestKeepsAhead(f, x, ops, authors, r, NewReport(x, false));
        IngestConcat(f, ops, rest, authors, r);
        var g := After(f, ops, authors, false);
        ReportIsOnlyAReport(g, rest, authors, false, r, NewReport(g, false));
        IngestFrame(f, ops, authors, false, r);
        LifeStaysAhead(g, Live(x, acts[0], authors, device), acts[1..], authors, device);
      case Edited(body) =>
        assert TookIn(acts) == rest;
        EditKeepsAhead(f, x, body, device);
        LifeStaysAhead(f, Live(x, acts[0], authors, device), acts[1..], authors, device);
    }
  }

  // ── the snapshot ──────────────────────────────────────────────────────────

  /** The author's clock is no further than the stamps it can show: what an author can check before writing. */
  predicate ClockIsShown(x: Local) {
    x.guard <= MaxLamport(x.state)
  }

  /** The clock of the receiver, once it merged the snapshot of `x`, is no less than that of full replay. */
  predicate ClockServes(f: Local, x: Local, y: Local) {
    f.guard <= Max(y.guard, MaxLamport(x.state))
  }

  lemma SnapshotKeepsAhead(f: Local, x: Local, y: Local, authors: Authors, signer: Signer)
    requires Ahead(f, x) && ClockServes(f, x, y) && x.access.epoch in x.keys
    requires y.access == f.access && y.keys == f.keys && y.headSeq <= x.headSeq && y.lastOpEpoch <= f.lastOpEpoch
    requires CheckSnapshot(y, SnapshotOf(x, signer), authors).Ok?
    ensures Ahead(f, PlannerMerge(y, SnapshotOf(x, signer), authors).c)
    ensures Ahead(f, CloudMerge(y, SnapshotOf(x, signer), authors).c)
  {
    JoinIsLeastUpperBound(y.state, x.state, x.state);
    BelowIsTransitive(f.state, x.state, Join(y.state, x.state));
  }

  /**
   Snapshot plus tail is at or above full replay. `f0` replays the whole journal; `x` took in its first part,
   editing in between, and wrote a snapshot with nothing waiting; `y` merges it and takes in the rest.
   */
  lemma SnapshotPlusTailIsAbove(
    f0: Local, x0: Local, y0: Local, acts: seq<Act>, tail: seq<ContainerOp>, authors: Authors, device: Bytes, signer: Signer)
    requires Ahead(f0, x0) && Judged(f0.access, TookIn(acts) + tail, authors)
    requires var x := Life(x0, acts, authors, device);
      && x.access.epoch in x.keys && SnapshotDue(x) && ClockServes(After(f0, TookIn(acts), authors, false), x, y0)
      && y0.access == f0.access && y0.keys == f0.keys && y0.headSeq <= x.headSeq
      && y0.lastOpEpoch <= After(f0, TookIn(acts), authors, false).lastOpEpoch
      && CheckSnapshot(y0, SnapshotOf(x, signer), authors).Ok?
    ensures var y := After(PlannerMerge(y0, SnapshotOf(Life(x0, acts, authors, device), signer), authors).c, tail, authors, false);
      var full := After(f0, TookIn(acts) + tail, authors, false);
      Below(full.state, y.state) && full.headSeq == y.headSeq
  {
    var x, f := Life(x0, acts, authors, device), After(f0, TookIn(acts), authors, false);
    assert Judged(f0.access, TookIn(acts), authors) by {
      forall op | op in TookIn(acts) ensures op in TookIn(acts) + tail {}
    }
    LifeStaysAhead(f0, x0, acts, authors, device);
    IngestFrame(f0, TookIn(acts), authors, false, NewReport(f0, false));
    hide After, CheckSnapshot, Life, SnapshotDue, CheckOp, SnapshotOf, PlannerMerge;
    SnapshotKeepsAhead(f, x, y0, authors, signer);
    var y := PlannerMerge(y0, SnapshotOf(x, signer), authors).c;
    TailKeepsAhead(f0, f, y, TookIn(acts), tail, authors);
  }

  lemma TailKeepsAhead(f0: Local, f: Local, y: Local, p: seq<ContainerOp>, tail: seq<ContainerOp>, authors: Authors)
    requires Judged(f0.access, p, authors) && f == After(f0, p, authors, false) && Ahead(f, y)
    ensures Ahead(After(f0, p + tail, authors, false), After(y, tail, authors, false))
  {
    var r := NewReport(f0, false);
    IngestConcat(f0, p, tail, authors, r);
    IngestKeepsAhead(f, y, tail, authors, r, NewReport(y, false));
  }

  // ── equality ──────────────────────────────────────────────────────────────

  /** There is something to merge in this operation, clock and epoch order aside. */
  predicate Worth(c: Local, op: ContainerOp, authors: Authors) {
    && CheckOp(c.access, op, authors).Ok? && op.keyEpoch in c.keys && Legible(op, c.keys[op.keyEpoch])
    && MadeBy(op.body.value, CheckOp(c.access, op, authors).value)
  }

  /** The replay merges everything there is to merge: neither the clock nor the order of epochs refuses any of it. */
  ghost predicate Settles(f: Local, ops: seq<ContainerOp>, authors: Authors)
    decreases |ops|
  {
    ops == [] ||
    (var s := TakeOne(f, ops[0], authors, false);
     && f.headSeq < ops[0].seq_ && s.Moved?
     && (Worth(f, ops[0], authors) ==> s.outcome.Applied?)
     && Settles(s.c, ops[1..], authors))
  }

  ghost predicate Covered(es: seq<Entry>, top: State) {
    forall e :: e in es ==> e.register in top && Leq(e.cell, top[e.register])
  }

  lemma CoveredAbove(es: seq<Entry>, s: State, top: State)
    requires Covered(es, s) && Below(s, top)
    ensures Covered(es, top)
  {
    forall e | e in es ensures e.register in top && Leq(e.cell, top[e.register]) {
      LeqIsTransitive(e.cell, s[e.register], top[e.register]);
    }
  }

  lemma TakeOneCovers(f: Local, op: ContainerOp, authors: Authors)
    requires TakeOne(f, op, authors, false).Moved?
    ensures var s := TakeOne(f, op, authors, false);
      && Below(f.state, s.c.state) && s.c.access == f.access && s.c.keys == f.keys
      && (s.outcome.Applied? ==> Covered(ValidEntries(op.body.value), s.c.state))
  {
    assert Below(f.state, f.state);
    if op.body.Some? {
      PutAllIsMonotone(f.state, f.state, ValidEntries(op.body.value));
      PutAllCovers(f.state, ValidEntries(op.body.value));
    }
  }

  lemma {:induction false} SettledIsCovered(f: Local, ops: seq<ContainerOp>, authors: Authors, r: Report)
    requires Settles(f, ops, authors)
    ensures var z := Ingest(f, ops, authors, false, r).c;
      Below(f.state, z.state) && forall op :: op in ops && Worth(f, op, authors) ==> Covered(ValidEntries(op.body.value), z.state)
    decreases |ops|
  {
    if ops == [] {
      assert Below(f.state, f.state);
    } else {
      var s := TakeOne(f, ops[0], authors, false);
      TakeOneCovers(f, ops[0], authors);
      SettledIsCovered(s.c, ops[1..], authors, Noted(r, ops[0], s.outcome));
      var z := Ingest(f, ops, authors, false, r).c;
      assert z == Ingest(s.c, ops[1..], authors, false, Noted(r, ops[0], s.outcome)).c;
      hide TakeOne, Ingest, Noted, Settles, Legible;
      BelowIsTransitive(f.state, s.c.state, z.state);
      forall op | op in ops && Worth(f, op, authors) ensures Covered(ValidEntries(op.body.value), z.state) {
        if op == ops[0] { CoveredAbove(ValidEntries(op.body.value), s.c.state, z.state); }
        else { assert op in ops[1..] && Worth(s.c, op, authors); }
      }
    }
  }

  ghost predicate WorthIsCovered(c: Local, ops: seq<ContainerOp>, authors: Authors, top: State) {
    forall op :: op in ops && Worth(c, op, authors) ==> Covered(ValidEntries(op.body.value), top)
  }

  lemma {:induction false} IngestStaysBelow(y: Local, ops: seq<ContainerOp>, authors: Authors, r: Report, top: State)
    requires Below(y.state, top) && WorthIsCovered(y, ops, authors, top)
    ensures Below(Ingest(y, ops, authors, false, r).c.state, top)
    decreases |ops|
  {
    if ops != [] {
      assert ops[0] in ops && forall op :: op in ops[1..] ==> op in ops;
      if ops[0].seq_ <= y.headSeq {
        IngestStaysBelow(y, ops[1..], authors, r, top);
      } else {
        var s := TakeOne(y, ops[0], authors, false);
        if s.Moved? {
          if Worth(y, ops[0], authors) { PutAllStaysBelow(y.state, ValidEntries(ops[0].body.value), top); }
          assert Below(s.c.state, top);
          assert s.c.access == y.access && s.c.keys == y.keys;
          IngestStaysBelow(s.c, ops[1..], authors, Noted(r, ops[0], s.outcome), top);
        }
      }
    }
  }

  lemma LiveStaysBelow(x: Local, act: Act, ops: seq<ContainerOp>, own: seq<Entry>, authors: Authors, device: Bytes, top: State)
    requires Below(x.state, top) && WorthIsCovered(x, ops, authors, top) && Covered(own, top)
    requires if act.Took? then ops == act.ops else own == ValidEntries(StampBody(act.body, Stamp(Tick(x.guard), device)))
    ensures var next := Live(x, act, authors, device);
      Below(next.state, top) && forall op :: Worth(next, op, authors) <==> Worth(x, op, authors)
  {
    if act.Took? {
      IngestStaysBelow(x, ops, authors, NewReport(x, false), top);
      IngestFrame(x, ops, authors, false, NewReport(x, false));
      hide Below, Covered, WorthIsCovered;
    } else {
      PutAllStaysBelow(x.state, own, top);
    }
  }

  lemma {:induction false} LifeStaysBelow(x: Local, acts: seq<Act>, authors: Authors, device: Bytes, top: State)
    requires Below(x.state, top) && WorthIsCovered(x, TookIn(acts), authors, top)
    requires Covered(Edits(x, acts, authors, device), top)
    ensures Below(Life(x, acts, authors, device).state, top)
    decreases |acts|
  {
    if acts != [] {
      var next := Live(x, acts[0], authors, device);
      var ops := if acts[0].Took? then acts[0].ops else [];
      var own := if acts[0].Edited? then ValidEntries(StampBody(acts[0].body, Stamp(Tick(x.guard), device))) else [];
      assert TookIn(acts) == ops + TookIn(acts[1..]) && Edits(x, acts, authors, device) == own + Edits(next, acts[1..], authors, device);
      hide Live, Worth, Below, TookIn, Edits;
      assert WorthIsCovered(x, ops, authors, top) && Covered(own, top);
      LiveStaysBelow(x, acts[0], ops, own, authors, device, top);
      LifeStaysBelow(next, acts[1..], authors, device, top);
    }
  }

  /** Each local edit of the snapshot's author has reached the journal. */
  ghost predicate EditsArrived(c: Local, edits: seq<Entry>, j: seq<ContainerOp>, authors: Authors) {
    forall e :: e in edits ==> exists op :: op in j && Worth(c, op, authors) && e in ValidEntries(op.body.value)
  }

  /** Once the author's edits are in the journal and the replay merges all there is, snapshot plus tail equals full replay. */
  lemma SnapshotPlusTailEqualsReplay(
    f0: Local, y0: Local, acts: seq<Act>, tail: seq<ContainerOp>, authors: Authors, device: Bytes, signer: Signer)
    requires Judged(f0.access, TookIn(acts) + tail, authors) && Settles(f0, TookIn(acts) + tail, authors)
    requires EditsArrived(f0, Edits(f0, acts, authors, device), TookIn(acts) + tail, authors)
    requires var x := Life(f0, acts, authors, device);
      && x.access.epoch in x.keys && SnapshotDue(x) && ClockServes(After(f0, TookIn(acts), authors, false), x, y0)
      && y0.access == f0.access && y0.keys == f0.keys && y0.headSeq <= x.headSeq
      && y0.lastOpEpoch <= After(f0, TookIn(acts), authors, false).lastOpEpoch
      && Below(y0.state, After(f0, TookIn(acts) + tail, authors, false).state)
      && CheckSnapshot(y0, SnapshotOf(x, signer), authors).Ok?
    ensures After(PlannerMerge(y0, SnapshotOf(Life(f0, acts, authors, device), signer), authors).c, tail, authors, false).state
         == After(f0, TookIn(acts) + tail, authors, false).state
  {
    var x, j := Life(f0, acts, authors, device), TookIn(acts) + tail;
    var full := After(f0, j, authors, false);
    var y := PlannerMerge(y0, SnapshotOf(x, signer), authors).c;
    assert Below(f0.state, f0.state);
    SnapshotPlusTailIsAbove(f0, f0, y0, acts, tail, authors, device, signer);
    SettledIsCovered(f0, j, authors, NewReport(f0, false));
    assert WorthIsCovered(f0, j, authors, full.state);
    assert forall op :: op in TookIn(acts) || op in tail ==> op in j;
    JoinIsLeastUpperBound(y0.state, x.state, full.state);
    assert y.state == Join(y0.state, x.state) && y.access == f0.access && y.keys == f0.keys;
    hide After, CheckSnapshot, Life, SnapshotDue, CheckOp, SnapshotOf, PlannerMerge, Worth, Settles, Legible;
    LifeStaysBelow(f0, acts, authors, device, full.state);
    YStaysBelow(f0, y, tail, authors, full.state);
    BelowIsAntisymmetric(full.state, After(y, tail, authors, false).state);
  }

  lemma YStaysBelow(f0: Local, y: Local, tail: seq<ContainerOp>, authors: Authors, top: State)
    requires y.access == f0.access && y.keys == f0.keys && Below(y.state, top) && WorthIsCovered(f0, tail, authors, top)
    ensures Below(After(y, tail, authors, false).state, top)
  {
    IngestStaysBelow(y, tail, authors, NewReport(y, false), top);
  }

  // ── a receiver that lags behind ───────────────────────────────────────────

  lemma {:induction false} IngestGrows(c: Local, ops: seq<ContainerOp>, authors: Authors, r: Report)
    ensures var d := Ingest(c, ops, authors, false, r).c;
      Below(c.state, d.state) && c.lastOpEpoch <= d.lastOpEpoch && c.headSeq <= d.headSeq
    decreases |ops|
  {
    assert Below(c.state, c.state);
    if ops != [] {
      if ops[0].seq_ <= c.headSeq {
        IngestGrows(c, ops[1..], authors, r);
      } else if TakeOne(c, ops[0], authors, false).Moved? {
        var s := TakeOne(c, ops[0], authors, false);
        TakeOneCovers(c, ops[0], authors);
        assert c.lastOpEpoch <= s.c.lastOpEpoch && c.headSeq < s.c.headSeq;
        hide TakeOne, Noted, Below;
        IngestGrows(s.c, ops[1..], authors, Noted(r, ops[0], s.outcome));
        BelowIsTransitive(c.state, s.c.state, Ingest(s.c, ops[1..], authors, false, Noted(r, ops[0], s.outcome)).c.state);
      }
    }
  }

  /** What a device has that took in the first `k` operations itself and then was away. */
  lemma LaggingIsBelow(f0: Local, j: seq<ContainerOp>, k: nat, m: nat, authors: Authors)
    requires k <= m <= |j| && Judged(f0.access, j, authors)
    ensures var y0, f, full := After(f0, j[..k], authors, false), After(f0, j[..m], authors, false), After(f0, j, authors, false);
      && y0.access == f0.access && y0.keys == f0.keys && y0.headSeq <= f.headSeq && y0.lastOpEpoch <= f.lastOpEpoch
      && Below(y0.state, full.state)
  {
    var r := NewReport(f0, false);
    assert forall op :: op in j[..k] ==> op in j;
    assert j[..m] == j[..k] + j[k..m] && j == j[..k] + j[k..];
    IngestFrame(f0, j[..k], authors, false, r);
    IngestConcat(f0, j[..k], j[k..m], authors, r);
    IngestConcat(f0, j[..k], j[k..], authors, r);
    hide Ingest, Below, Judged;
    IngestGrows(After(f0, j[..k], authors, false), j[k..m], authors, r);
    IngestGrows(After(f0, j[..k], authors, false), j[k..], authors, r);
  }

  /** So it catches up by the snapshot: a receiver that took in any part of what the author did, and nothing since. */
  lemma SnapshotForLaggingDevice(
    f0: Local, k: nat, acts: seq<Act>, tail: seq<ContainerOp>, authors: Authors, device: Bytes, signer: Signer)
    requires k <= |TookIn(acts)| && Judged(f0.access, TookIn(acts) + tail, authors) && Settles(f0, TookIn(acts) + tail, authors)
    requires EditsArrived(f0, Edits(f0, acts, authors, device), TookIn(acts) + tail, authors)
    requires var x, y0 := Life(f0, acts, authors, device), After(f0, TookIn(acts)[..k], authors, false);
      && x.access.epoch in x.keys && SnapshotDue(x) && ClockServes(After(f0, TookIn(acts), authors, false), x, y0)
      && CheckSnapshot(y0, SnapshotOf(x, signer), authors).Ok?
    ensures var y0 := After(f0, TookIn(acts)[..k], authors, false);
      After(PlannerMerge(y0, SnapshotOf(Life(f0, acts, authors, device), signer), authors).c, tail, authors, false).state
         == After(f0, TookIn(acts) + tail, authors, false).state
  {
    var p, j := TookIn(acts), TookIn(acts) + tail;
    var y0 := After(f0, p[..k], authors, false);
    assert j[..k] == p[..k] && j[..|p|] == p;
    assert Judged(f0.access, p, authors) by { assert forall op :: op in p ==> op in j; }
    LaggingIsBelow(f0, j, k, |p|, authors);
    assert Ahead(f0, f0) by { assert Below(f0.state, f0.state); }
    LifeStaysAhead(f0, f0, acts, authors, device);
    assert After(f0, p, authors, false).headSeq == Life(f0, acts, authors, device).headSeq;
    hide After, Life, CheckSnapshot, SnapshotDue, Settles, EditsArrived, Judged, Below, PlannerMerge, SnapshotOf, ClockServes;
    SnapshotPlusTailEqualsReplay(f0, y0, acts, tail, authors, device, signer);
  }

  // ── the conditions on the clock ───────────────────────────────────────────

  /** No stamp of the state is ahead of the clock. */
  ghost predicate WithinClock(c: Local) {
    forall r :: r in c.state ==> c.state[r].stamp.lamport <= c.guard
  }

  /** Every change of the operation is valid: all its stamps end up in registers. */
  predicate AllValid(body: seq<Change>) {
    forall i :: 0 <= i < |body| ==> body[i].valid
  }

  lemma {:induction false} AllValidEntries(body: seq<Change>)
    requires AllValid(body)
    ensures ValidEntries(body) == AllEntries(body)
  {
    if body != [] { AllValidEntries(body[1..]); }
  }

  lemma {:induction false} PutAllLamports(s: State, es: seq<Entry>, limit: u64)
    requires forall r :: r in s ==> s[r].stamp.lamport <= limit
    requires forall e :: e in es ==> e.cell.stamp.lamport <= limit
    ensures forall r :: r in PutAll(s, es) ==> PutAll(s, es)[r].stamp.lamport <= limit
    decreases |es|
  {
    if es != [] {
      assert es[0] in es && forall e :: e in es[1..] ==> e in es;
      PutAllLamports(Put(s, es[0]), es[1..], limit);
    }
  }

  lemma TakeOneWithinClock(c: Local, op: ContainerOp, authors: Authors)
    requires WithinClock(c) && TakeOne(c, op, authors, false).Moved?
    ensures WithinClock(TakeOne(c, op, authors, false).c)
  {
    if Worth(c, op, authors) {
      var body := op.body.value;
      var checked := CheckAll(c.guard, Lamports(AllEntries(body)));
      CheckAllNeverLowers(c.guard, Lamports(AllEntries(body)));
      if checked.ok {
        AcceptedRaisesExactly(c.guard, Lamports(AllEntries(body)));
        ValidAreAll(body);
        forall e | e in ValidEntries(body) ensures e.cell.stamp.lamport <= checked.max {
          var i :| 0 <= i < |AllEntries(body)| && AllEntries(body)[i] == e;
          assert Lamports(AllEntries(body))[i] in Lamports(AllEntries(body));
        }
        PutAllLamports(c.state, ValidEntries(body), checked.max);
      }
    } else if CheckOp(c.access, op, authors).Ok? && op.keyEpoch in c.keys && Legible(op, c.keys[op.keyEpoch]) {
      CheckAllNeverLowers(c.guard, Lamports(AllEntries(op.body.value)));
    }
  }

  /** An applied operation, all of whose changes are valid, leaves no gap between the clock and what the state shows. */
  lemma CleanOperationKeepsClockShown(c: Local, op: ContainerOp, authors: Authors)
    requires ClockIsShown(c) && TakeOne(c, op, authors, false).Moved?
    requires TakeOne(c, op, authors, false).outcome.Applied? ==> AllValid(op.body.value)
    requires !TakeOne(c, op, authors, false).outcome.Unopened?
    ensures ClockIsShown(TakeOne(c, op, authors, false).c)
  {
    var s := TakeOne(c, op, authors, false);
    if s.outcome.Applied? {
      var es := AllEntries(op.body.value);
      AllValidEntries(op.body.value);
      AcceptedRaisesExactly(c.guard, Lamports(es));
      PutAllCovers(c.state, es);
      if s.c.guard != c.guard {
        var i :| 0 <= i < |es| && Lamports(es)[i] == s.c.guard;
        assert es[i] in es && Leq(es[i].cell, s.c.state[es[i].register]);
      } else {
        assert Below(c.state, c.state);
        PutAllIsMonotone(c.state, c.state, es);
        if c.guard > 0 {
          var r :| r in c.state && c.state[r].stamp.lamport == MaxLamport(c.state);
          assert Leq(c.state[r], s.c.state[r]);
        }
      }
    }
  }

  /** An operation whose registers all carry one stamp, as local edits produce them. */
  predicate OneStamp(op: ContainerOp) {
    op.body.Some? ==> forall e, f :: e in AllEntries(op.body.value) && f in AllEntries(op.body.value) ==>
                        e.cell.stamp.lamport == f.cell.stamp.lamport
  }

  lemma {:induction false} OneStampRaisesByOneJump(max: u64, lamports: seq<u64>)
    requires forall l, m :: l in lamports && m in lamports ==> l == m
    ensures CheckAll(max, lamports).max <= max + JUMP
    decreases |lamports|
  {
    if lamports != [] && Accepts(max, lamports[0]) {
      var next := Check(max, lamports[0]);
      assert lamports[0] in lamports;
      assert forall l :: l in lamports[1..] ==> l in lamports;
      SameStampAgain(next, lamports[1..], lamports[0]);
    }
  }

  lemma {:induction false} SameStampAgain(max: u64, lamports: seq<u64>, l: u64)
    requires l <= max && forall m :: m in lamports ==> m == l
    ensures CheckAll(max, lamports).max == max
    decreases |lamports|
  {
    if lamports != [] {
      assert lamports[0] in lamports;
      assert forall m :: m in lamports[1..] ==> m in lamports;
      SameStampAgain(max, lamports[1..], l);
    }
  }

  lemma {:induction false} ClockGrowsByJumps(c: Local, ops: seq<ContainerOp>, authors: Authors, r: Report)
    requires WithinClock(c) && forall op :: op in ops ==> OneStamp(op)
    ensures var d := Ingest(c, ops, authors, false, r).c;
      WithinClock(d) && c.headSeq <= d.headSeq && d.guard <= c.guard + Jumps(d.headSeq - c.headSeq)
    decreases |ops|
  {
    if ops != [] {
      assert ops[0] in ops && forall op :: op in ops[1..] ==> op in ops;
      if ops[0].seq_ <= c.headSeq {
        ClockGrowsByJumps(c, ops[1..], authors, r);
      } else {
        var s := TakeOne(c, ops[0], authors, false);
        if s.Moved? {
          TakeOneWithinClock(c, ops[0], authors);
          if ops[0].body.Some? {
            var es := AllEntries(ops[0].body.value);
            assert forall l :: l in Lamports(es) ==> exists e :: e in es && e.cell.stamp.lamport == l by {
              forall l | l in Lamports(es) ensures exists e :: e in es && e.cell.stamp.lamport == l {
                var i :| 0 <= i < |es| && Lamports(es)[i] == l;
                assert es[i] in es;
              }
            }
            OneStampRaisesByOneJump(c.guard, Lamports(es));
          }
          assert s.c.guard <= c.guard + JUMP && s.c.headSeq == ops[0].seq_;
          hide TakeOne;
          ClockGrowsByJumps(s.c, ops[1..], authors, Noted(r, ops[0], s.outcome));
        }
      }
    }
  }

  /**
   A device that started empty and took in operations of one stamp each writes snapshots that every other
   device's clock accepts.
   */
  lemma OneStampSnapshotsAreAccepted(c0: Local, ops: seq<ContainerOp>, authors: Authors, y: Local)
    requires c0.state == map[] && c0.guard == 0 && c0.headSeq == 0
    requires forall op :: op in ops ==> OneStamp(op)
    ensures var x := After(c0, ops, authors, false);
      MaxLamport(x.state) <= SnapshotLimit(y.guard, x.headSeq)
  {
    ClockGrowsByJumps(c0, ops, authors, NewReport(c0, false));
    var x := After(c0, ops, authors, false);
    assert x.guard <= Jumps(x.headSeq) <= JUMP * Max(x.headSeq, 1);
  }

  // ── what goes wrong without the conditions ────────────────────────────────

  const KEYS: map<u64, EpochKey> := map[1 := 1, 2 := 2]

  /** A new device after merging the snapshot of `x`. */
  function FromSnapshot(x: Local): Merged
    requires x.access.epoch in x.keys
  {
    PlannerMerge(Fresh(2, KEYS), SnapshotOf(x, 0), OWNERS)
  }

  lemma FreshAccepts(x: Local)
    requires x == Fresh(2, KEYS).(headSeq := x.headSeq, guard := x.guard, state := x.state, lastOpEpoch := x.lastOpEpoch)
    requires forall r :: r in x.state ==> 0 < x.state[r].stamp.lamport
    requires MaxLamport(x.state) <= JUMP
    ensures FromSnapshot(x).c == Fresh(2, KEYS).(
              headSeq := x.headSeq, snapshotSeq := x.headSeq, guard := MaxLamport(x.state), state := x.state)
  {
    var y, s := Fresh(2, KEYS), SnapshotOf(x, 0);
    assert y.access.CouldWriteAt(OWNERS[0].user, 2);
    assert AuthorAt(y.access, 0, 2, s.uptoSeq, OWNERS) == Ok(OWNERS[0]);
    assert JUMP <= SnapshotLimit(0, s.uptoSeq);
    assert Join(map[], x.state) == x.state;
  }

  /** An operation whose registers bear the stamp of a device other than its author's. */
  function Foreign(seq_: u64, lamport: u64): ContainerOp {
    ContainerOp(seq_, 0, 1, Some(0), true, 1, Some([Change(true, [Entry(Register([], 0), Cell(Stamp(lamport, [1]), false, []))], None)]))
  }

  lemma ForeignOnlyMovesTheClock(c: Local, seq_: u64)
    requires c.keys == KEYS && c.guard == 0
    ensures Open(c.keys, c.guard, c.state, Foreign(seq_, JUMP), OWNERS[0]) == Opened(JUMP, c.state, None)
  {
    var body := Foreign(seq_, JUMP).body.value;
    assert body[1..] == [];
    var es := AllEntries(body);
    assert AllEntries(body[1..]) == [];
    assert es == body[0].entries;
    var l: seq<u64> := [JUMP];
    assert Lamports(es) == l && l[1..] == [];
    assert CheckAll(0, l) == Checked(JUMP, true);
    assert es[0] in es && es[0].cell.stamp.device != [];
  }

  /**
   The author must show its clock. An operation that moved the clock without leaving a register lets full
   replay accept the next one; the device that started from the snapshot refuses it.
   */
  lemma HiddenClockLosesAnOperation()
    ensures var x0, tail := Fresh(2, KEYS), [Plain(201, 1, 2 * JUMP)];
      var x := After(x0, [Foreign(200, JUMP)], OWNERS, false);
      && x.access.epoch in x.keys && SnapshotDue(x) && !ClockIsShown(x) && FromSnapshot(x).result.Ok?
      && After(x0, [Foreign(200, JUMP), Plain(201, 1, 2 * JUMP)], OWNERS, false).state != map[]
      && After(FromSnapshot(x).c, tail, OWNERS, false).state == map[]
  {
    var x0, first, second := Fresh(2, KEYS), Foreign(200, JUMP), Plain(201, 1, 2 * JUMP);
    assert x0.access.CouldWriteAt(OWNERS[0].user, 1);
    assert x0.access == Fresh(2, map[]).access;
    ForeignOnlyMovesTheClock(x0, 200);
    TakeOneOnly(x0, first, OWNERS);
    var x := TakeOne(x0, first, OWNERS, false).c;
    FreshAccepts(x);
    OwnerChecksOut(2, second, 2 * JUMP);
    OpenPlain(x, second, 2 * JUMP);
    TakeTwo(x0, first, second, OWNERS, false);
    var y := FromSnapshot(x).c;
    OpenPlain(y, second, 2 * JUMP);
    TakeOneOnly(y, second, OWNERS);
  }

  lemma TakeOneOnly(c: Local, op: ContainerOp, authors: Authors)
    requires c.headSeq < op.seq_ && TakeOne(c, op, authors, false).Moved?
    ensures After(c, [op], authors, false) == TakeOne(c, op, authors, false).c
  {
    var j := [op];
    IngestFirst(c, j, 0, 1, authors, false, NewReport(c, false));
    assert j[0..1] == j && j[1..1] == [];
  }

  /**
   The order of epochs is not in the snapshot: an operation of an older epoch right after it is refused by
   full replay and accepted by the device that started from the snapshot.
   */
  lemma SnapshotForgetsTheEpochFloor()
    ensures var x0, tail := Fresh(2, KEYS), [Plain(201, 1, 2)];
      var x := After(x0, [Plain(200, 2, 1)], OWNERS, false);
      && x.access.epoch in x.keys && SnapshotDue(x) && ClockIsShown(x) && FromSnapshot(x).result.Ok?
      && After(x0, [Plain(200, 2, 1), Plain(201, 1, 2)], OWNERS, false).state == x.state
      && After(FromSnapshot(x).c, tail, OWNERS, false).state != x.state
  {
    var x0, first, second := Fresh(2, KEYS), Plain(200, 2, 1), Plain(201, 1, 2);
    assert x0.access == Fresh(2, map[]).access;
    OwnerChecksOut(2, first, 1);
    OwnerChecksOut(2, second, 2);
    OpenPlain(x0, first, 1);
    TakeOneOnly(x0, first, OWNERS);
    var x := TakeOne(x0, first, OWNERS, false).c;
    assert x.state == map[Register([], 1) := Cell(Stamp(1, []), false, [])];
    assert MaxLamport(x.state) == 1 by { assert x.state[Register([], 1)].stamp.lamport <= MaxLamport(x.state); }
    FreshAccepts(x);
    TakeTwo(x0, first, second, OWNERS, false);
    var y := FromSnapshot(x).c;
    OpenPlain(y, second, 2);
    TakeOneOnly(y, second, OWNERS);
  }
}
