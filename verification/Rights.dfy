/**
 Whose operations are merged: told from the grant log as it stands there, for a single operation, for pages and retries,
 and for whole lives of a device.
 */
module Rights {
  import opened Prelude
  import opened Lww
  import opened Guard
  import opened Access
  import opened GrantLog
  import opened Journal
  import opened Convergence
  import opened Ingestion

  /** Some address of this person could write in that epoch. */
  ghost predicate MayWriteAs(g: Genesis, log: seq<GrantEntry>, who: Author, at: nat) {
    exists name :: who.Is(name) && MayWrite(g, log, name, at)
  }

  /** Signed by a known device whose owner could write in the operation's epoch, and not cut off by a later boundary. */
  ghost predicate Rightful(g: Genesis, log: seq<GrantEntry>, authors: Authors, op: ContainerOp) {
    && op.container == g.container && op.authentic && op.signer.Some? && op.signer.value in authors && op.keyEpoch > 0
    && MayWriteAs(g, log, authors[op.signer.value], op.keyEpoch) && NotCutOff(log, op.keyEpoch, op.seq_)
  }

  // ── one operation ─────────────────────────────────────────────────────────

  lemma CouldWriteIsWhatTheLogSays(g: Genesis, log: seq<GrantEntry>, authors: Authors, who: Author, at: u64)
    requires Replay(g, log, authors).Ok?
    ensures CouldWrite(Replay(g, log, authors).value, who, at) <==> MayWriteAs(g, log, who, at)
  {
    var a := Replay(g, log, authors).value;
    forall name ensures a.CouldWriteAt(name, at) <==> MayWrite(g, log, name, at) { WriterIsWhatTheLogSays(g, log, authors, name, at); }
    hide Replay, MayWrite;
    if CouldWrite(a, who, at) {
      var name := if a.CouldWriteAt(who.user, at) then who.user
                  else var i :| 0 <= i < |who.aliases| && a.CouldWriteAt(who.aliases[i], at); who.aliases[i];
      assert who.Is(name) && MayWrite(g, log, name, at);
    }
    if MayWriteAs(g, log, who, at) {
      var name :| who.Is(name) && MayWrite(g, log, name, at);
      if name != who.user {
        var i :| 0 <= i < |who.aliases| && who.aliases[i] == name;
        assert a.CouldWriteAt(who.aliases[i], at);
      }
    }
  }

  lemma {:induction false} OpenedEpochsHaveBeen(g: Genesis, log: seq<GrantEntry>, name: Name, at: nat)
    requires MayWrite(g, log, name, at)
    ensures 1 <= at <= EpochIn(log)
  {
    if name != g.owner {
      var i :| 0 <= i < |log| && OpensEpoch(log, i, name, at);
      EpochOnlyRises(log, i + 1);
    }
  }

  /** An operation checks out exactly if it is rightful, and is stopped at exactly if its epoch is yet to come. */
  lemma ChecksOutIff(g: Genesis, log: seq<GrantEntry>, authors: Authors, op: ContainerOp)
    requires Replay(g, log, authors).Ok?
    ensures var r := CheckOp(Replay(g, log, authors).value, op, authors);
      && (r.Ok? <==> Rightful(g, log, authors, op)) && (r.Ok? ==> r.value == authors[op.signer.value])
      && (r == Err(Expired) <==>
            op.container == g.container && op.authentic && op.signer.Some? && op.keyEpoch > EpochIn(log))
  {
    FoldSaysLevels(g, log, authors);
    BoundaryIsWhatTheLogSays(g, log, authors, op.keyEpoch, op.seq_);
    if op.signer.Some? && op.signer.value in authors {
      CouldWriteIsWhatTheLogSays(g, log, authors, authors[op.signer.value], op.keyEpoch);
      if MayWriteAs(g, log, authors[op.signer.value], op.keyEpoch) {
        var name :| authors[op.signer.value].Is(name) && MayWrite(g, log, name, op.keyEpoch);
        OpenedEpochsHaveBeen(g, log, name, op.keyEpoch);
      }
    }
    EpochOnlyRises(log, |log|);
    assert log[..|log|] == log;
    hide Replay, CouldWrite, MayWriteAs, NotCutOff, EpochIn, Stands;
  }

  /** The key here is the one it was sealed with; it bears stamps, all of the author's device; its files are the author's own. */
  predicate IsOwnWork(keys: map<u64, EpochKey>, op: ContainerOp, who: Author) {
    && op.keyEpoch in keys && keys[op.keyEpoch] == op.sealKey && op.body.Some? && AllEntries(op.body.value) != []
    && (forall e :: e in AllEntries(op.body.value) ==> e.cell.stamp.device == who.device && e.cell.stamp.lamport != 0)
    && (forall change :: change in op.body.value && change.uploader.Some? ==> who.Is(change.uploader.value))
  }

  /** That is so, and the clock takes its stamps. */
  predicate Opens(c: Local, op: ContainerOp, who: Author) {
    IsOwnWork(c.keys, op, who) && CheckAll(c.guard, Lamports(AllEntries(op.body.value))).ok
  }

  lemma IsOwnWorkIff(keys: map<u64, EpochKey>, op: ContainerOp, who: Author)
    requires op.keyEpoch in keys
    ensures IsOwnWork(keys, op, who) <==> Legible(op, keys[op.keyEpoch]) && MadeBy(op.body.value, who)
  {
    if op.body.Some? {
      var es := AllEntries(op.body.value);
      assert (forall e :: e in es ==> e.cell.stamp.lamport != 0) <==> 0 !in Lamports(es) by {
        forall i | 0 <= i < |es| ensures Lamports(es)[i] == es[i].cell.stamp.lamport && es[i] in es {}
      }
    }
  }

  /** What stops a page: in strict intake an unknown signer, before all else; otherwise an epoch the log has not come to. */
  lemma StopsIff(c: Local, op: ContainerOp, authors: Authors, strict: bool)
    requires Replay(c.genesis, c.grants, authors) == Ok(c.access)
    ensures var unknown := op.signer.None? || op.signer.value !in authors;
      var ahead := op.container == c.genesis.container && op.authentic && op.signer.Some? && op.keyEpoch > EpochIn(c.grants);
      && (TakeOne(c, op, authors, strict).AuthorsBehind? <==> strict && unknown)
      && (TakeOne(c, op, authors, strict).GrantsBehind? <==> ahead && !(strict && unknown))
  {
    ChecksOutIff(c.genesis, c.grants, authors, op);
    hide Replay, CheckOp, Rightful, Open, EpochIn;
  }

  /** The writes of an operation are those of its changes, the valid writes those of its valid changes. */
  lemma {:induction false} WritesAre(body: seq<Change>, e: Entry)
    ensures e in AllEntries(body) <==> exists i :: 0 <= i < |body| && e in body[i].entries
    ensures e in ValidEntries(body) <==> exists i :: 0 <= i < |body| && body[i].valid && e in body[i].entries
  {
    if body != [] {
      var rest := body[1..];
      WritesAre(rest, e);
      assert forall i :: 0 <= i < |rest| ==> rest[i] == body[i + 1];
      if i :| 0 <= i < |rest| && e in rest[i].entries { assert e in body[i + 1].entries; }
      if i :| 0 <= i < |rest| && rest[i].valid && e in rest[i].entries { assert body[i + 1].valid && e in body[i + 1].entries; }
      if i :| 0 <= i < |body| && e in body[i].entries && i > 0 { assert e in rest[i - 1].entries; }
      if i :| 0 <= i < |body| && body[i].valid && e in body[i].entries && i > 0 { assert rest[i - 1].valid && e in rest[i - 1].entries; }
    }
  }

  /** Of two parts of a body the valid changes add up, and a change counts as one exactly if it is valid. */
  lemma {:induction false} ValidCountIs(body: seq<Change>, more: seq<Change>, change: Change)
    ensures ValidCount(body + more) == ValidCount(body) + ValidCount(more)
    ensures ValidCount([change]) == if change.valid then 1 else 0
  {
    assert [change][1..] == [];
    if body == [] {
      assert body + more == more;
    } else {
      assert (body + more)[0] == body[0] && (body + more)[1..] == body[1..] + more;
      ValidCountIs(body[1..], more, change);
    }
  }

  /** The state has taken in these writes: it holds them, or something greater. */
  ghost predicate TookIn(s: State, es: seq<Entry>) {
    forall e :: e in es ==> e.register in s && Leq(e.cell, s[e.register])
  }

  lemma PutAllTakesIn(s: State, es: seq<Entry>)
    ensures TookIn(PutAll(s, es), es) && Below(s, PutAll(s, es))
    ensures forall r :: r in PutAll(s, es) ==> (r in s && PutAll(s, es)[r] == s[r]) || Entry(r, PutAll(s, es)[r]) in es
  {
    HoldsItself(s);
    PutAllHolds(s, es, Own(s));
    var t := PutAll(s, es);
    forall e | e in es ensures e.register in t && Leq(e.cell, t[e.register]) { assert e in Own(s) + Elements(es); }
    forall r | r in s ensures r in t && Leq(s[r], t[r]) { assert Entry(r, s[r]) in Own(s) + Elements(es); }
    forall r | r in t ensures (r in s && t[r] == s[r]) || Entry(r, t[r]) in es { assert Entry(r, t[r]) in Own(s) + Elements(es); }
  }

  /** Of the operation at its turn: it is merged exactly if it is rightful, not of an older epoch, and opens. */
  lemma MergedIff(c: Local, op: ContainerOp, authors: Authors, strict: bool)
    requires Replay(c.genesis, c.grants, authors) == Ok(c.access)
    ensures var s := TakeOne(c, op, authors, strict);
      s.Moved? && s.outcome.Applied? <==>
        Rightful(c.genesis, c.grants, authors, op) && c.lastOpEpoch <= op.keyEpoch && Opens(c, op, authors[op.signer.value])
    ensures var s := TakeOne(c, op, authors, strict);
      s.Moved? ==> if s.outcome.Applied? then s.c.state == PutAll(c.state, ValidEntries(op.body.value)) else s.c.state == c.state
  {
    ChecksOutIff(c.genesis, c.grants, authors, op);
    if op.keyEpoch in c.keys && op.signer.Some? && op.signer.value in authors { IsOwnWorkIff(c.keys, op, authors[op.signer.value]); }
    hide Replay, CheckOp, CheckAll, PutAll, MadeBy, Legible, IsOwnWork, MayWriteAs, NotCutOff;
  }

  // ── pages and retries ─────────────────────────────────────────────────────

  /** What these operations may have written: those that are rightful, under a key that is here, with the author's stamps. */
  ghost predicate MayHaveWritten(c: Local, authors: Authors, ops: seq<ContainerOp>, e: Entry) {
    exists op :: op in ops && Rightful(c.genesis, c.grants, authors, op)
      && IsOwnWork(c.keys, op, authors[op.signer.value]) && e in ValidEntries(op.body.value)
  }

  /** Every register of `d` is that of `c`, or was written by one of these operations, rightfully; and none was lowered. */
  ghost predicate OnlyRightfulWrites(c: Local, d: Local, authors: Authors, ops: seq<ContainerOp>) {
    && (forall r :: r in d.state ==> (r in c.state && d.state[r] == c.state[r]) || MayHaveWritten(c, authors, ops, Entry(r, d.state[r])))
    && Below(c.state, d.state)
  }

  lemma MayHaveWrittenFirst(c: Local, d: Local, authors: Authors, ops: seq<ContainerOp>, all: seq<ContainerOp>, e: Entry)
    requires d.genesis == c.genesis && d.grants == c.grants && d.keys == c.keys && MayHaveWritten(d, authors, ops, e)
    requires forall op :: op in ops ==> op in all
    ensures MayHaveWritten(c, authors, all, e)
  {
    var op :| op in ops && Rightful(d.genesis, d.grants, authors, op)
      && IsOwnWork(d.keys, op, authors[op.signer.value]) && e in ValidEntries(op.body.value);
    assert op in all;
    hide MayWriteAs, NotCutOff;
  }

  lemma WritesInTurn(c: Local, mid: Local, d: Local, authors: Authors, op: ContainerOp, rest: seq<ContainerOp>, all: seq<ContainerOp>)
    requires mid.genesis == c.genesis && mid.grants == c.grants && mid.keys == c.keys
    requires OnlyRightfulWrites(c, mid, authors, [op]) && OnlyRightfulWrites(mid, d, authors, rest)
    requires op in all && forall o :: o in rest ==> o in all
    ensures OnlyRightfulWrites(c, d, authors, all)
  {
    forall r | r in d.state
      ensures (r in c.state && d.state[r] == c.state[r]) || MayHaveWritten(c, authors, all, Entry(r, d.state[r]))
    {
      if r in mid.state && d.state[r] == mid.state[r] {
        if !(r in c.state && mid.state[r] == c.state[r]) { MayHaveWrittenFirst(c, c, authors, [op], all, Entry(r, d.state[r])); }
      } else {
        MayHaveWrittenFirst(c, mid, authors, rest, all, Entry(r, d.state[r]));
      }
    }
    BelowIsTransitive(c.state, mid.state, d.state);
    hide MayHaveWritten;
  }

  lemma NothingWritten(c: Local, d: Local, authors: Authors, ops: seq<ContainerOp>)
    requires d.state == c.state
    ensures OnlyRightfulWrites(c, d, authors, ops)
  {
    assert Below(c.state, c.state);
  }

  lemma OpenedRightfully(c: Local, op: ContainerOp, authors: Authors, d: Local)
    requires Rightful(c.genesis, c.grants, authors, op) && Opens(c, op, authors[op.signer.value])
    requires d.state == PutAll(c.state, ValidEntries(op.body.value))
    ensures OnlyRightfulWrites(c, d, authors, [op])
  {
    PutAllTakesIn(c.state, ValidEntries(op.body.value));
    hide PutAll, CheckAll, MayWriteAs, NotCutOff;
    forall r | r in d.state && !(r in c.state && d.state[r] == c.state[r])
      ensures MayHaveWritten(c, authors, [op], Entry(r, d.state[r]))
    {
      assert op in [op];
    }
  }

  /** Whatever a page holds and whoever sent it: it writes only what the grant log gives its authors the right to. */
  lemma {:induction false} PageWritesRightfully(c: Local, ops: seq<ContainerOp>, authors: Authors, strict: bool, r: Report)
    requires Replay(c.genesis, c.grants, authors) == Ok(c.access)
    ensures OnlyRightfulWrites(c, Ingest(c, ops, authors, strict, r).c, authors, ops)
    decreases |ops|
  {
    hide Replay, OnlyRightfulWrites, Rightful, PutAll, Opens, TakeOne, Noted;
    if ops == [] {
      NothingWritten(c, c, authors, ops);
    } else {
      assert ops[0] in ops && forall o :: o in ops[1..] ==> o in ops;
      if ops[0].seq_ <= c.headSeq {
        NothingWritten(c, c, authors, [ops[0]]);
        PageWritesRightfully(c, ops[1..], authors, strict, r);
        WritesInTurn(c, c, Ingest(c, ops, authors, strict, r).c, authors, ops[0], ops[1..], ops);
      } else {
        var s := TakeOne(c, ops[0], authors, strict);
        if s.Moved? {
          MergedIff(c, ops[0], authors, strict);
          TakenKeepsLog(c, ops[0], authors, strict);
          if s.outcome.Applied? { OpenedRightfully(c, ops[0], authors, s.c); } else { NothingWritten(c, s.c, authors, [ops[0]]); }
          PageWritesRightfully(s.c, ops[1..], authors, strict, Noted(r, ops[0], s.outcome));
          WritesInTurn(c, s.c, Ingest(c, ops, authors, strict, r).c, authors, ops[0], ops[1..], ops);
        } else {
          NothingWritten(c, c, authors, ops);
        }
      }
    }
  }

  lemma TakenKeepsLog(c: Local, op: ContainerOp, authors: Authors, strict: bool)
    requires TakeOne(c, op, authors, strict).Moved?
    ensures var d := TakeOne(c, op, authors, strict).c;
      d.genesis == c.genesis && d.grants == c.grants && d.keys == c.keys && d.access == c.access
  {
    hide CheckOp, Open;
  }

  /** The same of the operations that waited for a key. */
  lemma {:induction false} RetryWritesRightfully(c: Local, todo: seq<ContainerOp>, authors: Authors)
    requires Replay(c.genesis, c.grants, authors) == Ok(c.access)
    ensures OnlyRightfulWrites(c, RetryOver(c, todo, authors), authors, todo)
    decreases |todo|
  {
    hide Replay, OnlyRightfulWrites, MayWriteAs, NotCutOff, PutAll, CheckOp, CheckAll, MadeBy, Legible, IsOwnWork;
    if todo == [] {
      NothingWritten(c, c, authors, todo);
    } else {
      var op, rest := todo[0], todo[1..];
      assert op in todo && forall o :: o in rest ==> o in todo;
      ChecksOutIff(c.genesis, c.grants, authors, op);
      if op.keyEpoch in c.keys && op.signer.Some? && op.signer.value in authors { IsOwnWorkIff(c.keys, op, authors[op.signer.value]); }
      var mid := c;
      if op.keyEpoch !in c.keys {
        mid := c.(pending := c.pending + [op]);
      } else if CheckOp(c.access, op, authors).Ok? {
        mid := Opening(c, op, CheckOp(c.access, op, authors).value);
      }
      if op.keyEpoch in c.keys && CheckOp(c.access, op, authors).Ok? && Opens(c, op, authors[op.signer.value]) {
        OpenedRightfully(c, op, authors, mid);
      } else {
        NothingWritten(c, mid, authors, [op]);
      }
      RetryWritesRightfully(mid, rest, authors);
      WritesInTurn(c, mid, RetryOver(c, todo, authors), authors, op, rest, todo);
    }
  }

  // ── and what is rightful is merged ────────────────────────────────────────

  lemma {:induction false} PageUpTo(c: Local, pre: seq<ContainerOp>, rest: seq<ContainerOp>, authors: Authors, strict: bool, r: Report)
    requires forall o :: o in pre ==> CheckOp(c.access, o, authors) != Err(Expired) && (strict ==> Known(o, authors))
    ensures var mid := Ingest(c, pre, authors, strict, r);
      Ingest(c, pre + rest, authors, strict, r) == Ingest(mid.c, rest, authors, strict, mid.report)
    decreases |pre|
  {
    if pre == [] {
      assert pre + rest == rest;
    } else {
      assert (pre + rest)[0] == pre[0] && (pre + rest)[1..] == pre[1..] + rest && pre[0] in pre;
      assert forall o :: o in pre[1..] ==> o in pre;
      if pre[0].seq_ <= c.headSeq {
        PageUpTo(c, pre[1..], rest, authors, strict, r);
      } else {
        var s := TakeOne(c, pre[0], authors, strict);
        assert s.Moved?;
        TakenKeepsLog(c, pre[0], authors, strict);
        hide TakeOne, CheckOp, Noted;
        PageUpTo(s.c, pre[1..], rest, authors, strict, Noted(r, pre[0], s.outcome));
      }
    }
  }

  /**
   A rightful operation that a page brings after the cursor, with nothing before it that stops the page, is merged at its
   turn if its epoch is not behind and it opens: all its valid writes are in the state the page leaves.
   */
  lemma RightfulIsMerged(
    c: Local, pre: seq<ContainerOp>, op: ContainerOp, post: seq<ContainerOp>, authors: Authors, strict: bool, r: Report)
    requires Replay(c.genesis, c.grants, authors) == Ok(c.access) && Rightful(c.genesis, c.grants, authors, op)
    requires forall o :: o in pre ==> CheckOp(c.access, o, authors) != Err(Expired) && (strict ==> Known(o, authors))
    requires var mid := Ingest(c, pre, authors, strict, r).c;
      mid.headSeq < op.seq_ && mid.lastOpEpoch <= op.keyEpoch && Opens(mid, op, authors[op.signer.value])
    ensures TookIn(Ingest(c, pre + [op] + post, authors, strict, r).c.state, ValidEntries(op.body.value))
  {
    var mid := Ingest(c, pre, authors, strict, r);
    assert pre + [op] + post == pre + ([op] + post) && ([op] + post)[0] == op && ([op] + post)[1..] == post;
    PageUpTo(c, pre, [op] + post, authors, strict, r);
    IngestFrame(c, pre, authors, strict, r);
    MergedIff(mid.c, op, authors, strict);
    var s := TakeOne(mid.c, op, authors, strict);
    TakenKeepsLog(mid.c, op, authors, strict);
    PutAllTakesIn(mid.c.state, ValidEntries(op.body.value));
    var q := Noted(mid.report, op, s.outcome);
    PageWritesRightfully(s.c, post, authors, strict, q);
    hide Replay, Rightful, PutAll, Opens, TakeOne, Noted, Below, TookIn;
    assert Ingest(mid.c, [op] + post, authors, strict, mid.report) == Ingest(s.c, post, authors, strict, q);
    StaysTakenIn(s.c.state, Ingest(s.c, post, authors, strict, q).c.state, ValidEntries(op.body.value));
  }

  lemma StaysTakenIn(s: State, t: State, es: seq<Entry>)
    requires TookIn(s, es) && Below(s, t)
    ensures TookIn(t, es)
  {
    forall e | e in es ensures e.register in t && Leq(e.cell, t[e.register]) {
      LeqIsTransitive(e.cell, s[e.register], t[e.register]);
    }
  }

  lemma {:induction false} RetryUpTo(c: Local, pre: seq<ContainerOp>, rest: seq<ContainerOp>, authors: Authors)
    ensures RetryOver(c, pre + rest, authors) == RetryOver(RetryOver(c, pre, authors), rest, authors)
    decreases |pre|
  {
    if pre == [] {
      assert pre + rest == rest;
    } else {
      assert (pre + rest)[0] == pre[0] && (pre + rest)[1..] == pre[1..] + rest;
      var op := pre[0];
      hide CheckOp, Open;
      if op.keyEpoch !in c.keys {
        RetryUpTo(c.(pending := c.pending + [op]), pre[1..], rest, authors);
      } else if CheckOp(c.access, op, authors).Err? {
        RetryUpTo(c, pre[1..], rest, authors);
      } else {
        RetryUpTo(Opening(c, op, CheckOp(c.access, op, authors).value), pre[1..], rest, authors);
      }
    }
  }

  /** The same of an operation that waited, when its key has come and its turn in the queue. */
  lemma RightfulIsMergedLater(c: Local, pre: seq<ContainerOp>, op: ContainerOp, post: seq<ContainerOp>, authors: Authors)
    requires Replay(c.genesis, c.grants, authors) == Ok(c.access) && Stamped(c.state)
    requires Rightful(c.genesis, c.grants, authors, op) && Opens(RetryOver(c, pre, authors), op, authors[op.signer.value])
    ensures TookIn(RetryOver(c, pre + [op] + post, authors).state, ValidEntries(op.body.value))
  {
    assert pre + [op] + post == pre + ([op] + post) && ([op] + post)[0] == op && ([op] + post)[1..] == post;
    RetryUpTo(c, pre, [op] + post, authors);
    RetryKeepsFaith(c, pre, authors);
    ChecksOutIff(c.genesis, c.grants, authors, op);
    var mid := RetryOver(c, pre, authors);
    var next := Opening(mid, op, authors[op.signer.value]);
    IsOwnWorkIff(c.keys, op, authors[op.signer.value]);
    assert next.state == PutAll(mid.state, ValidEntries(op.body.value));
    PutAllTakesIn(mid.state, ValidEntries(op.body.value));
    RetryWritesRightfully(next, post, authors);
    hide Replay, Rightful, PutAll, Opens, Opening, CheckOp, Below, TookIn, Stamped;
    assert RetryOver(mid, [op] + post, authors) == RetryOver(next, post, authors);
    StaysTakenIn(next.state, RetryOver(next, post, authors).state, ValidEntries(op.body.value));
  }

  // ── snapshots ─────────────────────────────────────────────────────────────

  /** A snapshot is taken exactly if its author might have written there, its key is here, and its stamps are within the limit. */
  lemma SnapshotIsTakenIff(c: Local, s: Snapshot, authors: Authors)
    requires Replay(c.genesis, c.grants, authors) == Ok(c.access)
    ensures CheckSnapshot(c, s, authors).Ok? <==>
      && s.container == c.genesis.container && s.authentic && s.signer.Some? && s.signer.value in authors && s.keyEpoch > 0
      && MayWriteAs(c.genesis, c.grants, authors[s.signer.value], s.keyEpoch) && NotCutOff(c.grants, s.keyEpoch, s.uptoSeq)
      && s.keyEpoch in c.keys && c.keys[s.keyEpoch] == s.sealKey && s.readable
      && forall r :: r in s.cells ==> 0 < s.cells[r].stamp.lamport <= SnapshotLimit(c.guard, s.uptoSeq)
  {
    FoldSaysLevels(c.genesis, c.grants, authors);
    BoundaryIsWhatTheLogSays(c.genesis, c.grants, authors, s.keyEpoch, s.uptoSeq);
    if s.signer.Some? && s.signer.value in authors {
      CouldWriteIsWhatTheLogSays(c.genesis, c.grants, authors, authors[s.signer.value], s.keyEpoch);
      if MayWriteAs(c.genesis, c.grants, authors[s.signer.value], s.keyEpoch) {
        var name :| authors[s.signer.value].Is(name) && MayWrite(c.genesis, c.grants, name, s.keyEpoch);
        OpenedEpochsHaveBeen(c.genesis, c.grants, name, s.keyEpoch);
      }
    }
    hide Replay, CouldWrite, MayWriteAs, NotCutOff, EpochIn, Stands;
  }

  // ── what a device comes back with ─────────────────────────────────────────

  /** A saved container comes back exactly if its log is valid and its state bears stamps; then as it was saved, judged anew. */
  lemma RestoresIff(p: Persisted, guard: u64, authors: Authors)
    ensures var r := RestoredFrom(p, guard, authors);
      && (r.Ok? <==>
            && Founded(p.genesis, authors) && (forall i :: 0 <= i < |p.grants| ==> MayFollow(p.genesis, p.grants[..i], p.grants[i], authors))
            && forall reg :: reg in p.cells ==> p.cells[reg].stamp.lamport != 0)
      && (r.Ok? ==>
            && Replay(p.genesis, p.grants, authors) == Ok(r.value.access) && r.value.genesis == p.genesis && r.value.grants == p.grants
            && r.value.state == p.cells && r.value.guard == guard && r.value.pending == p.pending && r.value.lastOpEpoch == 0
            && r.value.headSeq == p.headSeq && r.value.snapshotSeq == p.snapshotSeq)
  {
    LogIsValidIff(p.genesis, p.grants, authors);
    hide Replay, MayFollow, RingOf;
  }
}
