/**
 What a snapshot leaves out - the author's clock beyond its stamps, and the epoch floor - and the limit on its stamps:
 exactly when the receiver nevertheless does as full replay does, and exactly when it takes the snapshot at all.
 */
module SnapshotBounds {
  import opened Prelude
  import opened Lww
  import opened Guard
  import opened Access
  import opened Journal
  import opened Convergence
  import opened Snapshots

  // ── the clock ─────────────────────────────────────────────────────────────

  /** The operations of a page that are merged. */
  function Merges(c: Local, ops: seq<ContainerOp>, authors: Authors): set<ContainerOp>
    decreases |ops|
  {
    if ops == [] then {}
    else if ops[0].seq_ <= c.headSeq then Merges(c, ops[1..], authors)
    else
      match TakeOne(c, ops[0], authors, false)
      case Moved(d, o) => (if o.Applied? then {ops[0]} else {}) + Merges(d, ops[1..], authors)
      case _ => {}
  }

  /** At one place of the journal with the same knowledge; the floor of `y` is no higher. */
  ghost predicate Level(f: Local, y: Local) {
    f.access == y.access && f.keys == y.keys && f.headSeq == y.headSeq && y.lastOpEpoch <= f.lastOpEpoch
  }

  /** The clock of `y` takes every stamp the clock of `f` takes: it is no less, or there are no further stamps. */
  predicate Reaches(f: u64, y: u64) {
    SatAdd(f, JUMP) <= SatAdd(y, JUMP)
  }

  lemma {:induction false} ReachAcceptsMore(slow: u64, fast: u64, ls: seq<u64>)
    requires Reaches(slow, fast)
    ensures CheckAll(slow, ls).ok ==> CheckAll(fast, ls).ok
    ensures Reaches(CheckAll(slow, ls).max, CheckAll(fast, ls).max)
    decreases |ls|
  {
    if ls != [] {
      if Accepts(slow, ls[0]) {
        ReachAcceptsMore(Check(slow, ls[0]), Check(fast, ls[0]), ls[1..]);
      } else {
        CheckAllNeverLowers(fast, ls);
      }
    }
  }

  lemma TakeOneKeepsReach(f: Local, y: Local, op: ContainerOp, authors: Authors)
    requires Level(f, y) && Reaches(f.guard, y.guard)
    ensures var s, t := TakeOne(f, op, authors, false), TakeOne(y, op, authors, false);
      && s.Moved? == t.Moved?
      && (s.Moved? ==> Level(s.c, t.c) && Reaches(s.c.guard, t.c.guard) && (s.outcome.Applied? ==> t.outcome.Applied?))
  {
    if CheckOp(f.access, op, authors).Ok? && op.keyEpoch in f.keys && Legible(op, f.keys[op.keyEpoch]) {
      var ls := Lamports(AllEntries(op.body.value));
      ReachAcceptsMore(f.guard, y.guard, ls);
      CheckAllNeverLowers(y.guard, ls);
    }
    hide CheckOp, Legible, MadeBy, CheckAll;
  }

  lemma {:induction false} ReachMergesMore(f: Local, y: Local, tail: seq<ContainerOp>, authors: Authors)
    requires Level(f, y) && Reaches(f.guard, y.guard)
    ensures Merges(f, tail, authors) <= Merges(y, tail, authors)
    decreases |tail|
  {
    if tail != [] {
      if tail[0].seq_ <= f.headSeq {
        ReachMergesMore(f, y, tail[1..], authors);
      } else {
        TakeOneKeepsReach(f, y, tail[0], authors);
        hide TakeOne, Reaches;
        if TakeOne(f, tail[0], authors, false).Moved? {
          ReachMergesMore(TakeOne(f, tail[0], authors, false).c, TakeOne(y, tail[0], authors, false).c, tail[1..], authors);
        }
      }
    }
  }

  /** Someone may still write: the next place of the journal is theirs, in an epoch whose key is here. */
  ghost predicate CanWriteNext(f: Local, probe: ContainerOp, authors: Authors) {
    && f.headSeq < probe.seq_ && CheckOp(f.access, probe, authors).Ok? && f.lastOpEpoch <= probe.keyEpoch
    && probe.keyEpoch in f.keys && probe.sealKey == f.keys[probe.keyEpoch]
  }

  function Bearing(probe: ContainerOp, lamport: u64, device: Bytes): ContainerOp {
    probe.(body := Some([Change(true, [Entry(Register([], 0), Cell(Stamp(lamport, device), false, []))], None)]))
  }

  lemma TakesStampIff(c: Local, probe: ContainerOp, authors: Authors, lamport: u64)
    requires CanWriteNext(c, probe, authors) && lamport > 0
    ensures var op := Bearing(probe, lamport, CheckOp(c.access, probe, authors).value.device);
      Merges(c, [op], authors) == if Accepts(c.guard, lamport) then {op} else {}
  {
    var author := CheckOp(c.access, probe, authors).value;
    var op := Bearing(probe, lamport, author.device);
    var body := op.body.value;
    var ls: seq<u64> := [lamport];
    assert CheckOp(c.access, op, authors) == Ok(author);
    assert body[1..] == [] && AllEntries(body[1..]) == [] && AllEntries(body) == body[0].entries;
    assert Lamports(AllEntries(body)) == ls && ls[1..] == [];
    assert CheckAll(c.guard, ls).ok == Accepts(c.guard, lamport);
    assert Legible(op, c.keys[op.keyEpoch]) && MadeBy(body, author);
    assert [op][1..] == [] && [op][0] == op;
    hide CheckOp, CheckAll, Legible, MadeBy;
    var s := TakeOne(c, op, authors, false);
    assert s.Moved? && (s.outcome.Applied? <==> Accepts(c.guard, lamport));
    assert Merges(s.c, [], authors) == {};
  }

  /** For every tail the receiver merges whatever full replay merges, if and only if its clock reaches as far. */
  lemma MergesAsMuchIff(f: Local, y: Local, authors: Authors, probe: ContainerOp)
    requires Level(f, y) && CanWriteNext(f, probe, authors)
    ensures (forall tail :: Merges(f, tail, authors) <= Merges(y, tail, authors)) <==> Reaches(f.guard, y.guard)
  {
    if Reaches(f.guard, y.guard) {
      forall tail ensures Merges(f, tail, authors) <= Merges(y, tail, authors) { ReachMergesMore(f, y, tail, authors); }
    } else {
      var lamport := SatAdd(f.guard, JUMP);
      TakesStampIff(f, probe, authors, lamport);
      TakesStampIff(y, probe, authors, lamport);
      var tail := [Bearing(probe, lamport, CheckOp(f.access, probe, authors).value.device)];
      assert tail[0] in Merges(f, tail, authors) && tail[0] !in Merges(y, tail, authors);
    }
  }

  /**
   After a snapshot: the device that merged it does not refuse what full replay takes, whatever comes, exactly if the
   greater of its own clock and the snapshot's greatest stamp reaches as far as the clock of full replay.
   */
  lemma SnapshotServesIff(f: Local, x: Local, y: Local, authors: Authors, signer: Signer, probe: ContainerOp)
    requires f.headSeq == x.headSeq && x.access.epoch in x.keys && CanWriteNext(f, probe, authors)
    requires y.access == f.access && y.keys == f.keys && y.headSeq <= x.headSeq && y.lastOpEpoch <= f.lastOpEpoch
    requires CheckSnapshot(y, SnapshotOf(x, signer), authors).Ok?
    ensures var merged := PlannerMerge(y, SnapshotOf(x, signer), authors).c;
      (forall tail :: Merges(f, tail, authors) <= Merges(merged, tail, authors))
      <==> Reaches(f.guard, Max(y.guard, MaxLamport(x.state)))
  {
    var merged := PlannerMerge(y, SnapshotOf(x, signer), authors).c;
    assert merged.guard == Max(y.guard, MaxLamport(x.state)) && Level(f, merged);
    hide PlannerMerge, CheckSnapshot;
    MergesAsMuchIff(f, merged, authors, probe);
  }

  // ── the epoch floor ───────────────────────────────────────────────────────

  /** An operation that checks out, of an epoch the replay has left behind, before the first that is not. */
  ghost predicate OldEpochFirst(a: Access, authors: Authors, low: u64, high: u64, tail: seq<ContainerOp>, i: nat)
    requires i < |tail|
  {
    && CheckOp(a, tail[i], authors).Ok? && low <= tail[i].keyEpoch < high
    && forall h :: 0 <= h < i && CheckOp(a, tail[h], authors).Ok? ==> tail[h].keyEpoch < high
  }

  /** Until the first operation of the present epoch or a later one, nothing passes the high floor. */
  lemma {:induction false} NothingPassesHigh(a: Access, authors: Authors, high: u64, tail: seq<ContainerOp>)
    requires forall h :: 0 <= h < |tail| && CheckOp(a, tail[h], authors).Ok? ==> tail[h].keyEpoch < high
    ensures Passed(a, authors, high, tail) == []
    decreases |tail|
  {
    if tail != [] {
      var k := |tail| - 1;
      assert forall h :: 0 <= h < k ==> tail[..k][h] == tail[h];
      NothingPassesHigh(a, authors, high, tail[..k]);
    }
  }

  lemma {:induction false} SameFromTheFloor(a: Access, authors: Authors, low: u64, high: u64, tail: seq<ContainerOp>)
    requires low <= high && forall i :: 0 <= i < |tail| ==> !OldEpochFirst(a, authors, low, high, tail, i)
    ensures Passed(a, authors, low, tail) == Passed(a, authors, high, tail)
    decreases |tail|
  {
    if tail != [] {
      var k := |tail| - 1;
      var rest, op := tail[..k], tail[k];
      forall i | 0 <= i < k ensures !OldEpochFirst(a, authors, low, high, rest, i) {
        assert rest[i] == tail[i] && forall h :: 0 <= h < i ==> rest[h] == tail[h];
        assert !OldEpochFirst(a, authors, low, high, tail, i);
      }
      SameFromTheFloor(a, authors, low, high, rest);
      if Passed(a, authors, high, rest) == [] && CheckOp(a, op, authors).Ok? && low <= op.keyEpoch < high {
        assert !OldEpochFirst(a, authors, low, high, tail, k);
        var h :| 0 <= h < k && CheckOp(a, tail[h], authors).Ok? && tail[h].keyEpoch >= high;
        SomethingPassesHigh(a, authors, high, rest, h);
      }
    }
  }

  lemma {:induction false} SomethingPassesHigh(a: Access, authors: Authors, high: u64, tail: seq<ContainerOp>, h: nat)
    requires h < |tail| && CheckOp(a, tail[h], authors).Ok? && high <= tail[h].keyEpoch
    ensures Passed(a, authors, high, tail) != []
    decreases |tail|
  {
    var k := |tail| - 1;
    if h < k {
      assert tail[..k][h] == tail[h];
      SomethingPassesHigh(a, authors, high, tail[..k], h);
    }
  }

  lemma FirstOldPassesLow(a: Access, authors: Authors, low: u64, high: u64, tail: seq<ContainerOp>, i: nat)
    requires low <= high && i < |tail| && OldEpochFirst(a, authors, low, high, tail, i)
    requires forall h :: 0 <= h < i ==> !OldEpochFirst(a, authors, low, high, tail, h)
    ensures Passed(a, authors, low, tail) != [] && Passed(a, authors, low, tail)[0] == tail[i]
  {
    var before := tail[..i];
    forall h | 0 <= h < i ensures !OldEpochFirst(a, authors, low, high, before, h) {
      assert before[h] == tail[h] && forall g :: 0 <= g < h ==> before[g] == tail[g];
      assert !OldEpochFirst(a, authors, low, high, tail, h);
    }
    SameFromTheFloor(a, authors, low, high, before);
    NothingPassesHigh(a, authors, high, before);
    assert tail[..i + 1][..i] == before && tail[..i + 1][i] == tail[i];
    assert Passed(a, authors, low, tail[..i + 1]) == [tail[i]];
    PassedPrefix(a, authors, low, tail, i + 1);
  }

  /**
   The floor a snapshot forgets matters to a tail exactly if an operation of it checks out, is of an epoch that full
   replay has left behind, and comes before any operation that raises the receiver's floor as high.
   */
  lemma ForgottenFloorIff(a: Access, authors: Authors, low: u64, high: u64, tail: seq<ContainerOp>)
    requires low <= high && Sorted(tail)
    ensures Passed(a, authors, low, tail) == Passed(a, authors, high, tail)
       <==> forall i :: 0 <= i < |tail| ==> !OldEpochFirst(a, authors, low, high, tail, i)
  {
    if forall i :: 0 <= i < |tail| ==> !OldEpochFirst(a, authors, low, high, tail, i) {
      SameFromTheFloor(a, authors, low, high, tail);
    } else {
      var i := 0;
      while !OldEpochFirst(a, authors, low, high, tail, i)
        invariant i < |tail|
        invariant forall h :: 0 <= h < i ==> !OldEpochFirst(a, authors, low, high, tail, h)
        decreases |tail| - i
      {
        i := i + 1;
      }
      FirstOldPassesLow(a, authors, low, high, tail, i);
      PassedHighIsHigh(a, authors, high, tail);
    }
  }

  lemma {:induction false} PassedHighIsHigh(a: Access, authors: Authors, high: u64, tail: seq<ContainerOp>)
    ensures forall op :: op in Passed(a, authors, high, tail) ==> high <= op.keyEpoch
    ensures high <= Floor(Passed(a, authors, high, tail), high)
    decreases |tail|
  {
    if tail != [] { PassedHighIsHigh(a, authors, high, tail[..|tail| - 1]); }
  }

  // ── the limit on the stamps ───────────────────────────────────────────────

  /** A snapshot that is otherwise in order is taken exactly if its greatest stamp is within the limit. */
  lemma SnapshotAcceptedIff(x: Local, y: Local, authors: Authors, signer: Signer)
    requires x.access.epoch in x.keys && y.access == x.access && x.access.epoch != 0
    requires x.access.epoch in y.keys && y.keys[x.access.epoch] == x.keys[x.access.epoch] && Stamped(x.state)
    requires AuthorAt(y.access, signer, x.access.epoch, x.headSeq, authors).Ok?
    ensures CheckSnapshot(y, SnapshotOf(x, signer), authors).Ok? <==> MaxLamport(x.state) <= SnapshotLimit(y.guard, x.headSeq)
    ensures CheckSnapshot(y, SnapshotOf(x, signer), authors).Err? ==> CheckSnapshot(y, SnapshotOf(x, signer), authors) == Err(InvalidField)
  {
    hide AuthorAt;
  }

  function Above(ls: seq<u64>, max: u64): set<u64> {
    set l | l in ls && max < l
  }

  /** A clock rises by at most a jump for each different stamp that is ahead of it. */
  lemma {:induction false} RaisesByDistinct(max: u64, ls: seq<u64>)
    ensures CheckAll(max, ls).max <= max + Jumps(|Above(ls, max)|)
    decreases |ls|
  {
    if ls != [] && Accepts(max, ls[0]) {
      var next := Check(max, ls[0]);
      RaisesByDistinct(next, ls[1..]);
      if max < ls[0] {
        SubsetSize(Above(ls[1..], next) + {ls[0]}, Above(ls, max));
        assert ls[0] !in Above(ls[1..], next);
      } else {
        SubsetSize(Above(ls[1..], next), Above(ls, max));
      }
    }
  }

  lemma {:induction false} SubsetSize(a: set<u64>, b: set<u64>)
    requires a <= b
    ensures |a| <= |b|
    decreases |a|
  {
    if a != {} {
      var x :| x in a;
      SubsetSize(a - {x}, b - {x});
    }
  }

  /** How many different stamps the operation bears. */
  function StepsOf(op: ContainerOp): nat {
    if op.body.None? then 0 else |Different(Lamports(AllEntries(op.body.value)))|
  }

  function Different(ls: seq<u64>): set<u64> {
    set l | l in ls
  }

  function AllSteps(ops: seq<ContainerOp>): nat {
    if ops == [] then 0 else StepsOf(ops[0]) + AllSteps(ops[1..])
  }

  lemma TakeOneSteps(c: Local, op: ContainerOp, authors: Authors)
    requires WithinClock(c) && TakeOne(c, op, authors, false).Moved?
    ensures var d := TakeOne(c, op, authors, false).c; WithinClock(d) && d.guard <= c.guard + Jumps(StepsOf(op))
  {
    TakeOneWithinClock(c, op, authors);
    if op.body.Some? {
      var ls := Lamports(AllEntries(op.body.value));
      RaisesByDistinct(c.guard, ls);
      SubsetSize(Above(ls, c.guard), Different(ls));
      assert |Above(ls, c.guard)| <= StepsOf(op);
      assert CheckAll(c.guard, ls).max <= c.guard + Jumps(StepsOf(op));
      CheckAllNeverLowers(c.guard, ls);
      hide CheckAll, CheckOp, Legible, MadeBy, StepsOf, WithinClock;
    }
  }

  lemma {:induction false} ClockGrowsBySteps(c: Local, ops: seq<ContainerOp>, authors: Authors, r: Report)
    requires WithinClock(c)
    ensures var d := Ingest(c, ops, authors, false, r).c; WithinClock(d) && d.guard <= c.guard + Jumps(AllSteps(ops))
    decreases |ops|
  {
    if ops != [] {
      if ops[0].seq_ <= c.headSeq {
        ClockGrowsBySteps(c, ops[1..], authors, r);
      } else {
        var s := TakeOne(c, ops[0], authors, false);
        if s.Moved? {
          TakeOneSteps(c, ops[0], authors);
          hide TakeOne, StepsOf;
          ClockGrowsBySteps(s.c, ops[1..], authors, Noted(r, ops[0], s.outcome));
        }
      }
    }
  }

  /** With no more different stamps than places of the journal behind the cursor, every receiver's limit is kept. */
  lemma FewStampsAreWithinTheLimit(c0: Local, ops: seq<ContainerOp>, authors: Authors, y: Local)
    requires c0.state == map[] && c0.guard == 0
    requires AllSteps(ops) <= Max(After(c0, ops, authors, false).headSeq, 1)
    ensures var x := After(c0, ops, authors, false); MaxLamport(x.state) <= SnapshotLimit(y.guard, x.headSeq)
  {
    ClockGrowsBySteps(c0, ops, authors, NewReport(c0, false));
    var x := After(c0, ops, authors, false);
    assert x.guard <= Jumps(AllSteps(ops)) <= JUMP * Max(x.headSeq, 1);
  }

  // ── a snapshot that is refused ────────────────────────────────────────────

  /** The `i`-th of a flight of registers, each a jump further than the last. */
  function Rung(i: nat): Entry
    requires Jumps(i + 1) <= U64_MAX
  {
    Entry(Register([], i), Cell(Stamp(Jumps(i + 1), []), false, []))
  }

  function Rungs(n: nat): seq<Entry>
    requires Jumps(n) <= U64_MAX
  {
    seq(n, i requires 0 <= i < n => Rung(i))
  }

  /** One operation at place `h` of the journal with one stamp more than there are places. */
  function Ladder(h: u64): ContainerOp
    requires Jumps(h + 1) <= U64_MAX
  {
    ContainerOp(h, 0, 1, Some(0), true, 1, Some([Change(true, Rungs(h + 1), None)]))
  }

  lemma {:induction false} ClockClimbs(n: nat, k: nat)
    requires Jumps(n) <= U64_MAX && k <= n
    ensures CheckAll(Jumps(k), Lamports(Rungs(n))[k..]) == Checked(Jumps(n), true)
    decreases n - k
  {
    var ls := Lamports(Rungs(n));
    if k == n {
      assert ls[k..] == [];
    } else {
      assert ls[k..][0] == ls[k] == Jumps(k + 1) && ls[k..][1..] == ls[k + 1..];
      assert Check(Jumps(k), ls[k]) == Jumps(k + 1);
      ClockClimbs(n, k + 1);
    }
  }

  lemma {:induction false} RungsAreThere(s: State, n: nat, k: nat)
    requires Jumps(n) <= U64_MAX && k <= n && forall i :: k <= i < n ==> Register([], i) !in s
    ensures var t := PutAll(s, Rungs(n)[k..]);
      (k < n ==> Register([], n - 1) in t && t[Register([], n - 1)] == Rung(n - 1).cell)
      && (forall r :: r in s ==> r in t && t[r] == s[r])
      && forall r :: r in t ==> r in s || t[r].stamp.lamport in Lamports(Rungs(n))
    decreases n - k
  {
    if k < n {
      var es := Rungs(n)[k..];
      assert es[0] == Rung(k) && es[1..] == Rungs(n)[k + 1..];
      assert Lamports(Rungs(n))[k] == Rung(k).cell.stamp.lamport;
      RungsAreThere(Put(s, es[0]), n, k + 1);
    }
  }

  /** The device that took the ladder in. */
  function Climbed(h: u64): Local
    requires Jumps(h + 1) <= U64_MAX
  {
    After(Fresh(2, KEYS), [Ladder(h)], OWNERS, false)
  }

  lemma ClimbedIs(h: u64)
    requires 0 < h && Jumps(h + 1) <= U64_MAX
    ensures Climbed(h) == Fresh(2, KEYS).(
              headSeq := h, lastOpEpoch := 1, guard := Jumps(h + 1), state := PutAll(map[], Rungs(h + 1)))
  {
    var c, op := Fresh(2, KEYS), Ladder(h);
    var body := op.body.value;
    assert c.access.CouldWriteAt(OWNERS[0].user, 1) && CheckOp(c.access, op, OWNERS) == Ok(OWNERS[0]);
    assert body[1..] == [] && AllEntries(body[1..]) == [] && ValidEntries(body[1..]) == [];
    assert AllEntries(body) == Rungs(h + 1) + [] == Rungs(h + 1) && ValidEntries(body) == Rungs(h + 1) + [] == Rungs(h + 1);
    var ls := Lamports(Rungs(h + 1));
    assert ls[0..] == ls && Jumps(0) == 0;
    ClockClimbs(h + 1, 0);
    assert |ls| > 0 && forall i :: 0 <= i < |ls| ==> ls[i] != 0;
    assert Legible(op, 1) && MadeBy(body, OWNERS[0]);
    hide CheckOp, CheckAll, Legible, MadeBy, Rungs;
    TakeOneOnly(c, op, OWNERS);
  }

  lemma ClimbedShows(n: nat)
    requires 0 < n && Jumps(n) <= U64_MAX
    ensures var s := PutAll(map[], Rungs(n)); Jumps(n) <= MaxLamport(s) && Stamped(s)
  {
    var s := PutAll(map[], Rungs(n));
    assert Rungs(n)[0..] == Rungs(n);
    RungsAreThere(map[], n, 0);
    var top := Register([], n - 1);
    assert top in s && s[top].stamp.lamport <= MaxLamport(s);
    forall r | r in s ensures s[r].stamp.lamport != 0 {
      var i :| 0 <= i < |Lamports(Rungs(n))| && Lamports(Rungs(n))[i] == s[r].stamp.lamport;
      assert Jumps(i + 1) > 0;
    }
  }

  /**
   The limit counts operations, a clock may rise for each stamp. At every place of the journal far enough for a
   snapshot: one operation that bears one stamp more than there are places is taken in, the snapshot is due and shows
   the clock, and a new device refuses it.
   */
  lemma ManyStampsSnapshotIsRefused(h: u64)
    requires SNAPSHOT_EVERY <= h && Jumps(h + 1) <= U64_MAX
    ensures var x := Climbed(h);
      && x.headSeq == h && SnapshotDue(x) && ClockIsShown(x) && x.access.epoch in x.keys
      && CheckSnapshot(Fresh(2, KEYS), SnapshotOf(x, 0), OWNERS) == Err(InvalidField)
  {
    ClimbedIs(h);
    var x, y := Climbed(h), Fresh(2, KEYS);
    ClimbedShows(h + 1);
    hide Climbed, MaxLamport, Rungs, Stamped;
    assert x.access.CouldWriteAt(OWNERS[0].user, 2);
    assert AuthorAt(y.access, 0, 2, h, OWNERS) == Ok(OWNERS[0]);
    SnapshotAcceptedIff(x, y, OWNERS, 0);
    assert SnapshotLimit(0, h) <= Jumps(h) < Jumps(h + 1);
  }
}
