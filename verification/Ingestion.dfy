/**
 The loops that take in a page of the journal and go through the operations that waited for a key, and those
 that save and restore a container. What they keep of it: its access is the replay of its stored log, and its
 stamps are sound.
 */
module Ingestion {
  import opened Prelude
  import opened Lww
  import opened Guard
  import opened Access
  import opened Journal
  import opened Convergence

  // ── the loops ─────────────────────────────────────────────────────────────

  /** Check the stamps of one operation one after another, up to the first that is refused. */
  method CheckStamps(guard: u64, lamports: seq<u64>) returns (r: Checked)
    ensures r == CheckAll(guard, lamports)
  {
    var max := guard;
    for i := 0 to |lamports|
      invariant CheckAll(guard, lamports) == CheckAll(max, lamports[i..])
    {
      if !Accepts(max, lamports[i]) { return Checked(max, false); }
      max := Check(max, lamports[i]);
    }
    return Checked(max, true);
  }

  /** Merge the valid changes of an operation, skipping the others, and count them. */
  method MergeChanges(state: State, body: seq<Change>) returns (s: State, n: nat)
    ensures s == PutAll(state, ValidEntries(body)) && n == ValidCount(body)
  {
    s, n := state, 0;
    for i := 0 to |body|
      invariant PutAll(state, ValidEntries(body)) == PutAll(s, ValidEntries(body[i..]))
      invariant ValidCount(body) == n + ValidCount(body[i..])
    {
      assert body[i..][1..] == body[i + 1..];
      if body[i].valid {
        PutAllAppend(s, body[i].entries, ValidEntries(body[i + 1..]));
        s, n := PutAll(s, body[i].entries), n + 1;
      } else {
        assert ValidEntries(body[i..]) == ValidEntries(body[i + 1..]);
      }
    }
  }

  lemma {:induction false} PutAllAppend(s: State, es: seq<Entry>, fs: seq<Entry>)
    ensures PutAll(s, es + fs) == PutAll(PutAll(s, es), fs)
    decreases |es|
  {
    if es == [] {
      assert es + fs == fs;
    } else {
      assert (es + fs)[0] == es[0] && (es + fs)[1..] == es[1..] + fs;
      PutAllAppend(Put(s, es[0]), es[1..], fs);
    }
  }

  /** Open one operation whose author checked out: decrypt, decode, check its stamps, merge. */
  method OpenOne(c: Local, op: ContainerOp, author: Author) returns (d: Local, applied: Option<nat>)
    ensures d == Opening(c, op, author) && applied == Open(c.keys, c.guard, c.state, op, author).applied
  {
    d, applied := c, None;
    if op.keyEpoch in c.keys && Legible(op, c.keys[op.keyEpoch]) {
      var checked := CheckStamps(c.guard, Lamports(AllEntries(op.body.value)));
      d := d.(guard := checked.max);
      if checked.ok && MadeBy(op.body.value, author) {
        var s, n := MergeChanges(c.state, op.body.value);
        d, applied := d.(state := s), Some(n);
      }
    }
  }

  /** A page of the journal, entry by entry, up to one that cannot be judged yet. */
  method TakePage(c0: Local, ops: seq<ContainerOp>, more: bool, authors: Authors, strict: bool)
    returns (c: Local, r: Report)
    ensures Ingested(c, r) == Ingest(c0, ops, authors, strict, NewReport(c0, more))
  {
    c, r := c0, Report(0, 0, more, None, false, false);
    ghost var whole := Ingest(c0, ops, authors, strict, NewReport(c0, more));
    var i := 0;
    while i < |ops|
      invariant 0 <= i <= |ops|
      invariant Ingest(c, ops[i..], authors, strict, r.(headSeq := c.headSeq)) == whole
    {
      var op := ops[i];
      IngestFirst(c, ops, i, |ops|, authors, strict, r.(headSeq := c.headSeq));
      assert ops[i..|ops|] == ops[i..] && ops[i + 1..|ops|] == ops[i + 1..];
      i := i + 1;
      if op.seq_ <= c.headSeq { continue; }
      if strict && !Known(op, authors) {
        r := r.(authorsBehind := true, more := true);
        break;
      }
      var checked := CheckOp(c.access, op, authors);
      if checked == Err(Expired) {
        r := r.(grantsBehind := true, more := true);
        break;
      }
      c, r := TakeChecked(c, op, checked, r, authors, strict);
    }
    r := r.(headSeq := c.headSeq);
  }

  /** An entry the cursor moves over. */
  method TakeChecked(c: Local, op: ContainerOp, checked: Result<Author, Error>, r: Report, authors: Authors, strict: bool)
    returns (d: Local, q: Report)
    requires checked == CheckOp(c.access, op, authors) && checked != Err(Expired) && (strict ==> Known(op, authors))
    ensures var s := TakeOne(c, op, authors, strict);
      s.Moved? && d == s.c && q.(headSeq := d.headSeq) == Noted(r.(headSeq := c.headSeq), op, s.outcome)
  {
    d, q := c.(headSeq := op.seq_), r;
    if checked.Ok? && c.lastOpEpoch <= op.keyEpoch {
      d := d.(lastOpEpoch := op.keyEpoch);
      if op.keyEpoch !in c.keys {
        d, q := d.(pending := d.pending + [op]), q.(missing := Some(op.keyEpoch));
      } else {
        var applied: Option<nat>;
        d, applied := OpenOne(d, op, checked.value);
        if applied.Some? { q := q.(applied := q.applied + applied.value); }
      }
    }
    hide Open, CheckOp;
  }

  /** Go through the operations that waited for a key. */
  method RetryWaiting(c0: Local, authors: Authors) returns (c: Local)
    ensures c == Retry(c0, authors)
  {
    var waiting := c0.pending;
    c := c0.(pending := []);
    for i := 0 to |waiting|
      invariant RetryOver(c, waiting[i..], authors) == Retry(c0, authors)
    {
      var op := waiting[i];
      assert waiting[i..][1..] == waiting[i + 1..];
      if op.keyEpoch !in c.keys {
        c := c.(pending := c.pending + [op]);
      } else {
        var checked := CheckOp(c.access, op, authors);
        if checked.Ok? {
          var applied;
          c, applied := OpenOne(c, op, checked.value);
        }
      }
    }
  }

  // ── what they keep ────────────────────────────────────────────────────────

  /** The access is the replay of the stored log, and every stamp of the merged state is sound. */
  ghost predicate Faithful(c: Local, authors: Authors) {
    Replay(c.genesis, c.grants, authors) == Ok(c.access) && Stamped(c.state)
  }

  /** Every key of the ring is of an epoch the access knows. */
  ghost predicate KeysFit(c: Local) {
    forall e :: e in c.keys ==> 1 <= e <= c.access.epoch
  }

  lemma {:induction false} PutAllStamped(s: State, es: seq<Entry>)
    requires Stamped(s) && forall e :: e in es ==> e.cell.stamp.lamport != 0
    ensures Stamped(PutAll(s, es))
    decreases |es|
  {
    if es != [] {
      assert es[0] in es;
      assert forall e :: e in es[1..] ==> e in es;
      PutAllStamped(Put(s, es[0]), es[1..]);
    }
  }

  lemma ReadableStamps(body: seq<Change>)
    requires Readable(body)
    ensures forall e :: e in ValidEntries(body) ==> e.cell.stamp.lamport != 0
  {
    ValidAreAll(body);
    forall e | e in ValidEntries(body) ensures e.cell.stamp.lamport != 0 {
      var i :| 0 <= i < |AllEntries(body)| && AllEntries(body)[i] == e;
      assert Lamports(AllEntries(body))[i] == e.cell.stamp.lamport;
    }
  }

  lemma OpeningStamped(c: Local, op: ContainerOp, author: Author)
    requires Stamped(c.state)
    ensures Stamped(Opening(c, op, author).state)
  {
    if op.body.Some? && Readable(op.body.value) {
      ReadableStamps(op.body.value);
      PutAllStamped(c.state, ValidEntries(op.body.value));
    }
  }

  lemma {:induction false} PageKeepsFaith(c: Local, ops: seq<ContainerOp>, authors: Authors, strict: bool, r: Report)
    requires Faithful(c, authors)
    ensures var d := Ingest(c, ops, authors, strict, r).c;
      Faithful(d, authors) && d.access == c.access && d.keys == c.keys
    decreases |ops|
  {
    if ops != [] {
      if ops[0].seq_ <= c.headSeq {
        PageKeepsFaith(c, ops[1..], authors, strict, r);
      } else if TakeOne(c, ops[0], authors, strict).Moved? {
        var s := TakeOne(c, ops[0], authors, strict);
        TakeOneCases(c, ops[0], authors, strict);
        if Passes(c, ops[0], authors) { OpeningStamped(c, ops[0], CheckOp(c.access, ops[0], authors).value); }
        hide Open, Stamped, CheckOp, TakeOne, Noted;
        PageKeepsFaith(s.c, ops[1..], authors, strict, Noted(r, ops[0], s.outcome));
      }
    }
  }

  lemma OpeningKeepsClock(c: Local, op: ContainerOp, author: Author)
    ensures c.guard <= Opening(c, op, author).guard
  {
    if op.body.Some? { CheckAllNeverLowers(c.guard, Lamports(AllEntries(op.body.value))); }
    hide CheckAll;
  }

  lemma {:induction false} RetryKeepsFaith(c: Local, todo: seq<ContainerOp>, authors: Authors)
    requires Stamped(c.state)
    ensures var d := RetryOver(c, todo, authors);
      && Stamped(d.state) && d == c.(pending := c.pending + Keyless(todo, c.keys), guard := d.guard, state := d.state)
      && c.guard <= d.guard
    decreases |todo|
  {
    if todo == [] {
      assert c.pending + [] == c.pending;
    } else {
      var op := todo[0];
      var rest := Keyless(todo[1..], c.keys);
      assert c.pending + [op] + rest == c.pending + ([op] + rest) && [] + rest == rest;
      if op.keyEpoch !in c.keys {
        RetryKeepsFaith(c.(pending := c.pending + [op]), todo[1..], authors);
      } else if CheckOp(c.access, op, authors).Ok? {
        OpeningStamped(c, op, CheckOp(c.access, op, authors).value);
        OpeningKeepsClock(c, op, CheckOp(c.access, op, authors).value);
        hide Open, Stamped, CheckOp;
        RetryKeepsFaith(Opening(c, op, CheckOp(c.access, op, authors).value), todo[1..], authors);
      } else {
        RetryKeepsFaith(c, todo[1..], authors);
      }
    }
  }

  /** After a retry exactly those wait, in order, whose key is not here; besides the queue only clock and state changed. */
  lemma RetryLeavesOnlyKeyless(c: Local, authors: Authors)
    requires Stamped(c.state)
    ensures var d := Retry(c, authors);
      && d == c.(pending := Keyless(c.pending, c.keys), guard := d.guard, state := d.state) && Stamped(d.state)
      && (forall op :: op in d.pending <==> op in c.pending && op.keyEpoch !in c.keys) && c.guard <= d.guard
  {
    RetryKeepsFaith(c.(pending := []), c.pending, authors);
    assert [] + Keyless(c.pending, c.keys) == Keyless(c.pending, c.keys);
    KeylessMembers(c.pending, c.keys);
    hide RetryOver, Keyless, Stamped;
  }

  lemma FaithfulForMore(c: Local, authors: Authors, more: Authors)
    requires Faithful(c, authors) && KnowsMore(authors, more)
    ensures Faithful(c, more)
  {
    FullReplayWithMoreAuthors(c.genesis, c.grants, authors, more);
  }

  // ── saving and restoring ──────────────────────────────────────────────────

  datatype Persisted = Persisted(
    genesis: Genesis, grants: seq<GrantEntry>, keys: seq<(u64, EpochKey)>, cells: State, headSeq: u64, snapshotSeq: u64,
    guardMax: u64, pending: seq<ContainerOp>)

  /** The keys of epochs 1 to `n` that are there, in order. */
  function KeysUpTo(keys: map<u64, EpochKey>, n: u64): seq<(u64, EpochKey)> {
    if n == 0 then [] else KeysUpTo(keys, n - 1) + if n in keys then [(n, keys[n])] else []
  }

  function RingOf(saved: seq<(u64, EpochKey)>): map<u64, EpochKey> {
    if saved == [] then map[]
    else RingOf(saved[..|saved| - 1])[saved[|saved| - 1].0 := saved[|saved| - 1].1]
  }

  /** What a restored container is: the saved one, its access recomputed, the epoch floor forgotten. */
  function RestoredFrom(p: Persisted, guard: u64, authors: Authors): Result<Local, Error> {
    var access := Replay(p.genesis, p.grants, authors);
    if access.Err? then Err(access.error)
    else if !Stamped(p.cells) then Err(InvalidField)
    else Ok(Local(p.genesis, p.grants, access.value, RingOf(p.keys), guard, p.cells, p.headSeq, p.snapshotSeq, p.pending, 0))
  }

  method SaveKeys(c: Local) returns (keys: seq<(u64, EpochKey)>)
    ensures keys == KeysUpTo(c.keys, c.access.epoch)
  {
    keys := [];
    var epoch := 0;
    while epoch < c.access.epoch
      invariant 0 <= epoch <= c.access.epoch && keys == KeysUpTo(c.keys, epoch)
    {
      epoch := epoch + 1;
      if epoch in c.keys { keys := keys + [(epoch, c.keys[epoch])]; }
    }
  }

  /** What is saved: the keys of the epochs the access knows, and the state as a snapshot. */
  function PersistedOf(c: Local): Persisted {
    Persisted(c.genesis, c.grants, KeysUpTo(c.keys, c.access.epoch), c.state, c.headSeq, c.snapshotSeq, c.guard, c.pending)
  }

  method Persist(c: Local) returns (p: Persisted)
    ensures p == PersistedOf(c)
  {
    var keys := SaveKeys(c);
    p := Persisted(c.genesis, c.grants, keys, c.state, c.headSeq, c.snapshotSeq, c.guard, c.pending);
  }

  method LoadKeys(saved: seq<(u64, EpochKey)>) returns (keys: map<u64, EpochKey>)
    ensures keys == RingOf(saved)
  {
    keys := map[];
    for i := 0 to |saved|
      invariant keys == RingOf(saved[..i])
    {
      assert saved[..i + 1][..i] == saved[..i];
      keys := keys[saved[i].0 := saved[i].1];
    }
    assert saved[..|saved|] == saved;
  }

  /** The cloud restores the clock directly. */
  method RestoreCloud(p: Persisted, authors: Authors) returns (r: Result<Local, Error>)
    ensures r == RestoredFrom(p, p.guardMax, authors)
  {
    var access := Replay(p.genesis, p.grants, authors);
    if access.Err? { return Err(access.error); }
    var keys := LoadKeys(p.keys);
    if !Stamped(p.cells) { return Err(InvalidField); }
    return Ok(Local(p.genesis, p.grants, access.value, keys, Raise(0, p.guardMax), p.cells, p.headSeq, p.snapshotSeq, p.pending, 0));
  }

  /** The planner restores it in steps the clock itself accepts, which ends only for saved clocks with room for the last step. */
  method RestorePlanner(p: Persisted, authors: Authors) returns (r: Result<Local, Error>)
    requires p.guardMax <= LAST_RESTORABLE
    ensures r == RestoredFrom(p, p.guardMax, authors)
  {
    var access := Replay(p.genesis, p.grants, authors);
    if access.Err? { return Err(access.error); }
    var keys := LoadKeys(p.keys);
    if !Stamped(p.cells) { return Err(InvalidField); }
    var guard: u64;
    ghost var steps;
    guard, steps := RestoreBySteps(p.guardMax);
    return Ok(Local(p.genesis, p.grants, access.value, keys, guard, p.cells, p.headSeq, p.snapshotSeq, p.pending, 0));
  }

  lemma {:induction false} RingOfSaved(keys: map<u64, EpochKey>, n: u64)
    ensures RingOf(KeysUpTo(keys, n)) == map e | e in keys && 1 <= e <= n :: keys[e]
  {
    if n > 0 {
      RingOfSaved(keys, n - 1);
      var before := KeysUpTo(keys, n - 1);
      if n in keys { assert (before + [(n, keys[n])])[..|before|] == before; }
      else { assert before + [] == before; }
    }
  }

  /**
   Saving and restoring gives back the container with its epoch floor forgotten - every key, grant and waiting
   operation - if and only if no key is of an epoch beyond the access, whoever else became known meanwhile.
   */
  lemma RestoreUndoesPersistIffKeysFit(c: Local, authors: Authors, more: Authors)
    requires Faithful(c, authors) && KnowsMore(authors, more)
    ensures RestoredFrom(PersistedOf(c), c.guard, more) == Ok(c.(lastOpEpoch := 0)) <==> KeysFit(c)
  {
    FaithfulForMore(c, authors, more);
    RingOfSaved(c.keys, c.access.epoch);
    var kept := map e | e in c.keys && 1 <= e <= c.access.epoch :: c.keys[e];
    assert KeysFit(c) ==> kept == c.keys;
    assert kept == c.keys ==> KeysFit(c) by {
      if kept == c.keys { forall e | e in c.keys ensures 1 <= e <= c.access.epoch { assert e in kept; } }
    }
  }
}
