/**
 Whole lives of a device against the grant logs it held: whatever it applied was somebody's right at the time. And what the
 clients do is such a life.
 */
module DeviceLives {
  import opened Prelude
  import opened Lww
  import opened Guard
  import opened Access
  import opened GrantLog
  import opened Journal
  import opened Convergence
  import opened Ingestion
  import opened Rights
  import opened Accounting
  import opened Cloud
  import opened CloudClient
  import opened Planner

  // ── what was applied was rightful ─────────────────────────────────────────

  /** The access is the replay of the log the device holds while it judges. */
  ghost predicate JudgesByItsLog(c: Local, e: Accounting.Event) {
    match e
    case Page(_, authors, _) => Replay(c.genesis, c.grants, authors) == Ok(c.access)
    case Learn(log, a, _, authors) => Replay(c.genesis, log, authors) == Ok(a)
    case Attach(g, log, a, _, authors) => Replay(g, log, authors) == Ok(a)
    case _ => true
  }

  ghost predicate AlwaysByItsLog(w: World, es: seq<Accounting.Event>)
    decreases |es|
  {
    es == [] || (JudgesByItsLog(w.c, es[0]) && AlwaysByItsLog(Next(w, es[0]), es[1..]))
  }

  /** The operation is rightful by the log the device holds at this event. */
  ghost predicate RightfulThen(c: Local, e: Accounting.Event, op: ContainerOp) {
    match e
    case Page(_, authors, _) => Rightful(c.genesis, c.grants, authors, op)
    case Learn(log, _, _, authors) => Rightful(c.genesis, log, authors, op)
    case Attach(g, log, _, _, authors) => Rightful(g, log, authors, op)
    case _ => false
  }

  ghost predicate RightfulOnce(w: World, es: seq<Accounting.Event>, op: ContainerOp)
    decreases |es|
  {
    es != [] && (RightfulThen(w.c, es[0], op) || RightfulOnce(Next(w, es[0]), es[1..], op))
  }

  lemma {:induction false} PageBooksRightful(
    c: Local, b: Book, ops: seq<ContainerOp>, authors: Authors, strict: bool, op: ContainerOp)
    requires Replay(c.genesis, c.grants, authors) == Ok(c.access) && op in IngestBook(c, b, ops, authors, strict).applied
    ensures op in b.applied || Rightful(c.genesis, c.grants, authors, op)
    decreases |ops|
  {
    hide Replay, Rightful, TakeOne, Opens;
    if ops != [] {
      if ops[0].seq_ <= c.headSeq {
        PageBooksRightful(c, b, ops[1..], authors, strict, op);
      } else {
        var s := TakeOne(c, ops[0], authors, strict);
        if s.Moved? {
          MergedIff(c, ops[0], authors, strict);
          TakenKeepsLog(c, ops[0], authors, strict);
          PageBooksRightful(s.c, Entered(b, ops[0], s.outcome), ops[1..], authors, strict, op);
        }
      }
    }
  }

  lemma {:induction false} RetryBooksRightful(c: Local, b: Book, todo: seq<ContainerOp>, authors: Authors, op: ContainerOp)
    requires Replay(c.genesis, c.grants, authors) == Ok(c.access) && op in RetryBook(c, b, todo, authors).applied
    ensures op in b.applied || Rightful(c.genesis, c.grants, authors, op)
    decreases |todo|
  {
    hide Replay, Rightful, CheckOp, Open;
    if todo != [] {
      var o, rest := todo[0], todo[1..];
      ChecksOutIff(c.genesis, c.grants, authors, o);
      var checked := CheckOp(c.access, o, authors);
      if o.keyEpoch !in c.keys {
        RetryBooksRightful(c.(pending := c.pending + [o]), b, rest, authors, op);
      } else if checked.Err? {
        RetryBooksRightful(c, b.(rejected := b.rejected + [o]), rest, authors, op);
      } else {
        var out := Open(c.keys, c.guard, c.state, o, checked.value);
        var next := if out.applied.Some? then b.(applied := b.applied + [o]) else b.(rejected := b.rejected + [o]);
        RetryBooksRightful(c.(guard := out.guard, state := out.state), next, rest, authors, op);
      }
    }
  }

  /** Over any life: every operation that was applied was rightful by a log the device held when it judged it. */
  lemma {:induction false} AppliedWasRightful(w: World, es: seq<Accounting.Event>, op: ContainerOp)
    requires AlwaysByItsLog(w, es) && op in Lives(w, es).b.applied
    ensures op in w.b.applied || RightfulOnce(w, es, op)
    decreases |es|
  {
    if es != [] {
      var next := Next(w, es[0]);
      hide Rightful, IngestBook, RetryBook, Ingest, RetryOver, Replay, CheckSnapshot;
      AppliedWasRightful(next, es[1..], op);
      if op in next.b.applied {
        match es[0] {
          case Page(ops, authors, strict) => PageBooksRightful(w.c, w.b, ops, authors, strict, op);
          case Learn(log, a, keys, authors) =>
            RetryBooksRightful(w.c.(grants := log, access := a, keys := keys, pending := []), w.b, w.c.pending, authors, op);
          case Attach(g, log, a, keys, authors) =>
            var c := w.c.(genesis := g, grants := log, access := a, keys := keys, lastOpEpoch := 0, pending := []);
            RetryBooksRightful(c, w.b.(epochs := []), w.c.pending, authors, op);
          case _ =>
        }
      }
    }
  }

  // ── the clients live so ───────────────────────────────────────────────────

  /** Going through the keys that waited is learning them. */
  lemma UnlockingIsLearning(
    w: World, id: ContainerId, waiting: seq<Queued>, trusted: seq<Trusted>, names: NamesOf, authors: Authors)
    requires w.c.access.WellFormed() && Stamped(w.c.state)
    ensures var d := Unlocked(w.c, id, waiting, trusted, names, authors);
      d == Next(w, Accounting.Event.Learn(w.c.grants, w.c.access, d.keys, authors)).c
  {
    var ring := RingWithShared(RingWithTrusted(w.c.keys, w.c.access, id, trusted), w.c.access, id, waiting, names);
    RetryLeavesOnlyKeyless(w.c.(keys := ring), authors);
    hide RingWithShared, RingWithTrusted, RetryOver, RetryBook, Stamped, Keyless;
  }

  /** What the cloud's attach leaves of a container is the event the accounts know: so no operation that waited is lost by it. */
  lemma AttachingIsAnEvent(
    w: World, g: Genesis, entries: seq<GrantEntry>, waiting: seq<Queued>, trusted: seq<Trusted>, names: NamesOf, authors: Authors)
    requires Replay(g, entries, authors).Ok? && Stamped(w.c.state)
    ensures var a := Replay(g, entries, authors).value;
      var d := Unlocked(AttachedOver(Some(w.c), g, entries, a), g.container, waiting, trusted, names, authors);
      d == Next(w, Accounting.Event.Attach(g, entries, a, d.keys, authors)).c
  {
    var a := Replay(g, entries, authors).value;
    var mid := AttachedOver(Some(w.c), g, entries, a);
    var ring := RingWithShared(RingWithTrusted(mid.keys, a, g.container, trusted), a, g.container, waiting, names);
    RetryLeavesOnlyKeyless(mid.(keys := ring), authors);
    hide RingWithShared, RingWithTrusted, RetryOver, RetryBook, Stamped, Keyless, Replay;
  }

  lemma PlannerAttachingIsAnEvent(
    w: World, g: Genesis, entries: seq<GrantEntry>, own: seq<OwnKey>, sent: seq<KeyShare>, mine: seq<Name>, authors: Authors)
    requires Replay(g, entries, authors).Ok? && Stamped(w.c.state)
    ensures var a := Replay(g, entries, authors).value;
      var d := WithWaitingKeys(AttachedOver(Some(w.c), g, entries, a), own, sent, mine, authors);
      d == Next(w, Accounting.Event.Attach(g, entries, a, d.keys, authors)).c
  {
    var a := Replay(g, entries, authors).value;
    var mid := AttachedOver(Some(w.c), g, entries, a);
    var ring := RingWithSent(RingWithOwn(mid.keys, a, own), a, sent, mine);
    RetryLeavesOnlyKeyless(mid.(keys := ring), authors);
    hide RingWithSent, RingWithOwn, RetryOver, RetryBook, Stamped, Keyless, Replay;
  }

  /** A restart, with whatever keys come back, is the other. */
  lemma RestartingIsAnEvent(w: World, authors: Authors, more: Authors)
    requires Faithful(w.c, authors) && KnowsMore(authors, more)
    ensures var r := RestoredFrom(PersistedOf(w.c), w.c.guard, more);
      r.Ok? && r.value == Next(w, Accounting.Event.Restart(r.value.keys)).c
  {
    FaithfulForMore(w.c, authors, more);
    hide Replay, Stamped;
  }

  /** Whatever waited when a device attached: afterwards it waits, was applied, or was rejected - exactly one. */
  lemma AttachingLosesNothing(w: World, e: Accounting.Event, op: ContainerOp)
    requires Balanced(w.c, w.b, w.base) && e.Attach? && op in w.c.pending
    ensures var v := Next(w, e); op in v.c.pending || op in v.b.applied || op in v.b.rejected
  {
    LifeBalances(w, [e]);
    var v := Next(w, e);
    assert [e][1..] == [];
    assert Balanced(v.c, v.b, v.base);
    TakenStay(w, e);
    assert op in multiset(w.c.pending) && op in multiset(w.b.taken);
    assert op in multiset(v.b.taken);
    hide Holds, Next;
  }

  lemma TakenStay(w: World, e: Accounting.Event)
    requires e.Attach?
    ensures Next(w, e).b.taken == w.b.taken
  {
    var c := w.c.(genesis := e.genesis, grants := e.log, access := e.access, keys := e.keys, lastOpEpoch := 0, pending := []);
    RetryKeepsCursor(c, w.b.(epochs := []), w.c.pending, e.authors);
  }
}
