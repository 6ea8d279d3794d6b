/**
 The replicated journal of a container, as one device sees it: what each entry of the server's log
 does to the cursor, the merged state, the clock and the queue of operations waiting for a key.
 */
module Journal {
  import opened Prelude
  import opened Lww
  import opened Guard
  import opened Access

  type EpochKey = nat

  /** One change of an operation; an invalid one is skipped, the others still apply. A cloud file names its uploader. */
  datatype Change = Change(valid: bool, entries: seq<Entry>, uploader: Option<Name>)

  /** A signed and sealed operation. It opens only under `sealKey`; `body` is what is inside, if it decodes. */
  datatype ContainerOp = ContainerOp(
    seq_: u64, container: ContainerId, keyEpoch: u64, signer: Option<Signer>, authentic: bool,
    sealKey: EpochKey, body: Option<seq<Change>>)

  datatype Local = Local(
    genesis: Genesis, grants: seq<GrantEntry>, access: Access, keys: map<u64, EpochKey>, guard: u64,
    state: State, headSeq: u64, snapshotSeq: u64, pending: seq<ContainerOp>, lastOpEpoch: u64)

  // ── opening an operation ──────────────────────────────────────────────────

  function AllEntries(body: seq<Change>): seq<Entry> {
    if body == [] then [] else body[0].entries + AllEntries(body[1..])
  }

  function ValidEntries(body: seq<Change>): seq<Entry> {
    if body == [] then []
    else (if body[0].valid then body[0].entries else []) + ValidEntries(body[1..])
  }

  function ValidCount(body: seq<Change>): nat {
    if body == [] then 0 else (if body[0].valid then 1 else 0) + ValidCount(body[1..])
  }

  function Lamports(es: seq<Entry>): seq<u64> {
    seq(|es|, i requires 0 <= i < |es| => es[i].cell.stamp.lamport)
  }

  /** Every register carries a stamp, and there is at least one. */
  predicate Readable(body: seq<Change>) {
    AllEntries(body) != [] && 0 !in Lamports(AllEntries(body))
  }

  predicate StampedBy(body: seq<Change>, device: Bytes) {
    forall e :: e in AllEntries(body) ==> e.cell.stamp.device == device
  }

  /** The stamps are the author's device's, and files are the author's own uploads, under any of their addresses. */
  predicate MadeBy(body: seq<Change>, author: Author) {
    StampedBy(body, author.device) && forall c :: c in body && c.uploader.Some? ==> author.Is(c.uploader.value)
  }

  /** Signature, container, epoch and the author's right to write: all that is checked before a key is needed. */
  function CheckOp(a: Access, op: ContainerOp, authors: Authors): Result<Author, Error> {
    if op.container != a.container then Err(ContextMismatch)
    else if !op.authentic || op.signer.None? || op.keyEpoch == 0 then Err(BadSignature)
    else AuthorAt(a, op.signer.value, op.keyEpoch, op.seq_, authors)
  }

  /** The contents are there for a holder of `key`: they decrypt, decode and bear stamps. */
  predicate Legible(op: ContainerOp, key: EpochKey) {
    key == op.sealKey && op.body.Some? && Readable(op.body.value)
  }

  datatype Opened = Opened(guard: u64, state: State, applied: Option<nat>)

  /** Decrypt, decode, check the stamps against the clock, and merge. `applied` is none on any failure. */
  function Open(keys: map<u64, EpochKey>, guard: u64, state: State, op: ContainerOp, author: Author): Opened {
    if op.keyEpoch !in keys || !Legible(op, keys[op.keyEpoch]) then Opened(guard, state, None)
    else
      var body := op.body.value;
      var checked := CheckAll(guard, Lamports(AllEntries(body)));
      if !checked.ok || !MadeBy(body, author) then Opened(checked.max, state, None)
      else Opened(checked.max, PutAll(state, ValidEntries(body)), Some(ValidCount(body)))
  }

  lemma {:induction false} ValidAreAll(body: seq<Change>)
    ensures forall e :: e in ValidEntries(body) ==> e in AllEntries(body)
  {
    if body != [] { ValidAreAll(body[1..]); }
  }

  // ── one entry of the journal ──────────────────────────────────────────────

  /** What became of an operation the cursor moved over. */
  datatype Outcome =
    | Applied(changes: nat)  // merged
    | Waiting                // passed the checks, its key is not here yet
    | Unopened               // passed the checks, but did not open, decode or respect the clock
    | Refused                // did not pass the checks

  datatype Step = GrantsBehind | AuthorsBehind | Moved(c: Local, outcome: Outcome)

  predicate Known(op: ContainerOp, authors: Authors) {
    op.signer.Some? && op.signer.value in authors
  }

  /** The author checks out and the key epoch does not go back along the journal. */
  predicate Passes(c: Local, op: ContainerOp, authors: Authors) {
    CheckOp(c.access, op, authors).Ok? && c.lastOpEpoch <= op.keyEpoch
  }

  function TakeOne(c: Local, op: ContainerOp, authors: Authors, strict: bool): Step {
    var checked := CheckOp(c.access, op, authors);
    var next := c.(headSeq := op.seq_);
    if strict && !Known(op, authors) then AuthorsBehind
    else if checked == Err(Expired) then GrantsBehind
    else if checked.Err? || op.keyEpoch < c.lastOpEpoch then Moved(next, Refused)
    else if op.keyEpoch !in c.keys then Moved(next.(lastOpEpoch := op.keyEpoch, pending := c.pending + [op]), Waiting)
    else
      var o := Open(c.keys, c.guard, c.state, op, checked.value);
      Moved(next.(lastOpEpoch := op.keyEpoch, guard := o.guard, state := o.state),
            if o.applied.Some? then Applied(o.applied.value) else Unopened)
  }

  // ── a page of the journal ─────────────────────────────────────────────────

  /** What the ingestion of a page reports to the host. */
  datatype Report = Report(applied: nat, headSeq: u64, more: bool, missing: Option<u64>, grantsBehind: bool, authorsBehind: bool)

  function Noted(r: Report, op: ContainerOp, o: Outcome): Report {
    match o
    case Applied(n) => r.(applied := r.applied + n, headSeq := op.seq_)
    case Waiting => r.(missing := Some(op.keyEpoch), headSeq := op.seq_)
    case _ => r.(headSeq := op.seq_)
  }

  datatype Ingested = Ingested(c: Local, report: Report)

  /** Entries at or below the cursor are skipped; the page ends early at an entry that cannot be judged yet. */
  function Ingest(c: Local, ops: seq<ContainerOp>, authors: Authors, strict: bool, r: Report): Ingested
    decreases |ops|
  {
    if ops == [] then Ingested(c, r)
    else if ops[0].seq_ <= c.headSeq then Ingest(c, ops[1..], authors, strict, r)
    else
      match TakeOne(c, ops[0], authors, strict)
      case AuthorsBehind => Ingested(c, r.(authorsBehind := true, more := true))
      case GrantsBehind => Ingested(c, r.(grantsBehind := true, more := true))
      case Moved(c', o) => Ingest(c', ops[1..], authors, strict, Noted(r, ops[0], o))
  }

  function NewReport(c: Local, more: bool): Report {
    Report(0, c.headSeq, more, None, false, false)
  }

  /** The container after a page, whatever was reported. */
  function After(c: Local, ops: seq<ContainerOp>, authors: Authors, strict: bool): Local {
    Ingest(c, ops, authors, strict, NewReport(c, false)).c
  }

  // ── operations that waited for a key ──────────────────────────────────────

  /** Go through operations that waited: those whose key is here are opened and leave the queue. */
  function RetryOver(c: Local, todo: seq<ContainerOp>, authors: Authors): Local
    decreases |todo|
  {
    if todo == [] then c
    else
      var op := todo[0];
      if op.keyEpoch !in c.keys then RetryOver(c.(pending := c.pending + [op]), todo[1..], authors)
      else
        var checked := CheckOp(c.access, op, authors);
        if checked.Err? then RetryOver(c, todo[1..], authors)
        else
          var o := Open(c.keys, c.guard, c.state, op, checked.value);
          RetryOver(c.(guard := o.guard, state := o.state), todo[1..], authors)
  }

  function Retry(c: Local, authors: Authors): Local {
    RetryOver(c.(pending := []), c.pending, authors)
  }

  // ── snapshots ─────────────────────────────────────────────────────────────

  /** A sealed snapshot. `complete` is false when merging meets an object it must refuse, after `cells`. */
  datatype Snapshot = Snapshot(
    uptoSeq: u64, container: ContainerId, keyEpoch: u64, signer: Option<Signer>, authentic: bool,
    sealKey: EpochKey, readable: bool, cells: State, complete: bool)

  function MaxLamport(s: State): (m: u64)
    ensures forall r :: r in s ==> s[r].stamp.lamport <= m
    ensures m == 0 || exists r :: r in s && s[r].stamp.lamport == m
  {
    var lamports := set r | r in s :: s[r].stamp.lamport;
    assert forall r :: r in s ==> s[r].stamp.lamport in lamports;
    Greatest(lamports)
  }

  ghost predicate IsGreatest(m: u64, s: set<u64>) {
    (forall x :: x in s ==> x <= m) && (m == 0 || m in s)
  }

  lemma GreatestExists(s: set<u64>)
    ensures exists m :: IsGreatest(m, s)
  {
    if s == {} {
      assert IsGreatest(0, s);
    } else {
      var x :| x in s;
      GreatestExists(s - {x});
      var m: u64 :| IsGreatest(m, s - {x});
      assert forall y :: y in s ==> y == x || y in s - {x};
      assert IsGreatest(Max(m, x), s);
    }
  }

  function Greatest(s: set<u64>): (m: u64)
    ensures IsGreatest(m, s)
  {
    GreatestExists(s);
    assert forall m, n: u64 :: IsGreatest(m, s) && IsGreatest(n, s) ==> m == n;
    if s == {} then 0
    else
      assert exists m :: m in s && forall x :: x in s ==> x <= m by {
        var m: u64 :| IsGreatest(m, s);
        if m !in s { var y :| y in s; assert y <= 0; }
      }
      var m :| m in s && forall x :: x in s ==> x <= m;
      m
  }

  /** The greatest stamp `upto` operations are supposed to be able to reach from a clock at `guard`. */
  function SnapshotLimit(guard: u64, upto: u64): u64 {
    SatAdd(guard, SatMul(JUMP, Max(upto, 1)))
  }

  function CheckSnapshot(c: Local, s: Snapshot, authors: Authors): Result<Author, Error> {
    if s.container != c.access.container then Err(ContextMismatch)
    else if !s.authentic || s.signer.None? || s.keyEpoch == 0 then Err(BadSignature)
    else
      var who := AuthorAt(c.access, s.signer.value, s.keyEpoch, s.uptoSeq, authors);
      if who.Err? then who
      else if s.keyEpoch !in c.keys || c.keys[s.keyEpoch] != s.sealKey then Err(Crypto)
      else if !s.readable || !Stamped(s.cells) || SnapshotLimit(c.guard, s.uptoSeq) < MaxLamport(s.cells) then Err(InvalidField)
      else who
  }

  /** No register carries the stamp zero, which decoding refuses. */
  predicate Stamped(s: State) {
    forall r :: r in s ==> s[r].stamp.lamport != 0
  }

  datatype Merged = Merged(c: Local, result: Result<u64, Error>)

  /** Both cursors move up to the snapshot. */
  function CursorsTo(c: Local, upto: u64): Local {
    c.(headSeq := Max(c.headSeq, upto), snapshotSeq := Max(c.snapshotSeq, upto))
  }

  /** The planner: raise the clock to the snapshot's stamps, merge, move the cursors. */
  function PlannerMerge(c: Local, s: Snapshot, authors: Authors): Merged {
    var checked := CheckSnapshot(c, s, authors);
    if checked.Err? then Merged(c, Err(checked.error))
    else
      var m := c.(guard := Raise(c.guard, MaxLamport(s.cells)), state := Join(c.state, s.cells));
      if !s.complete then Merged(m, Err(InvalidField))
      else Merged(CursorsTo(m, s.uptoSeq), Ok(CursorsTo(m, s.uptoSeq).headSeq))
  }

  /** The cloud: merge first; the clock follows only a merge that succeeded. */
  function CloudMerge(c: Local, s: Snapshot, authors: Authors): Merged {
    var checked := CheckSnapshot(c, s, authors);
    if checked.Err? then Merged(c, Err(checked.error))
    else
      var m := c.(state := Join(c.state, s.cells));
      if !s.complete then Merged(m, Err(InvalidField))
      else
        var d := CursorsTo(m.(guard := Raise(c.guard, MaxLamport(s.cells))), s.uptoSeq);
        Merged(d.(guard := Raise(d.guard, MaxLamport(d.state))), Ok(d.headSeq))
  }

  const SNAPSHOT_EVERY: nat := 200

  predicate SnapshotDue(c: Local) {
    SatAdd(c.snapshotSeq, SNAPSHOT_EVERY) <= c.headSeq && c.pending == []
  }

  /** The snapshot a device writes: its whole merged state, up to its cursor, under the current key. */
  function SnapshotOf(c: Local, signer: Signer): Snapshot
    requires c.access.epoch in c.keys
  {
    Snapshot(c.headSeq, c.access.container, c.access.epoch, Some(signer), true, c.keys[c.access.epoch], true, c.state, true)
  }

  // ── local edits ───────────────────────────────────────────────────────────

  function StampWith(es: seq<Entry>, stamp: Stamp): seq<Entry> {
    seq(|es|, i requires 0 <= i < |es| => es[i].(cell := es[i].cell.(stamp := stamp)))
  }

  function StampBody(body: seq<Change>, stamp: Stamp): seq<Change> {
    seq(|body|, i requires 0 <= i < |body| => body[i].(entries := StampWith(body[i].entries, stamp)))
  }

  /** The planner's local edit: one fresh stamp for all registers, merged at once. */
  function Edit(c: Local, body: seq<Change>, device: Bytes): Merged {
    var ticked := c.(guard := Tick(c.guard));
    var stamped := StampBody(body, Stamp(ticked.guard, device));
    if !Readable(stamped) then Merged(ticked, Err(InvalidField))
    else Merged(ticked.(state := PutAll(c.state, ValidEntries(stamped))), Ok(c.headSeq))
  }
}
