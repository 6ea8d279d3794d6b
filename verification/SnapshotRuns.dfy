/**
 Snapshots between devices that live: author and receiver take in pages, learn grants, authors and keys, wait for keys
 and edit, before and after the snapshot. What the receiver ends with against full replay of the journal.
 */
module SnapshotRuns {
  import opened Prelude
  import opened Lww
  import opened Guard
  import opened Access
  import opened Journal
  import opened Convergence
  import opened LateKeys
  import opened SnapshotBounds

  /** The course of all devices of the story: from one beginning along the whole journal. */
  function Whole(c0: Local, t: Truth, j: seq<ContainerOp>): Course {
    Course(t, c0.headSeq, c0.lastOpEpoch, [], j)
  }

  /** What comes after the snapshot: from the author's cursor, with the receiver's own floor and waiting operations. */
  function Rest(t: Truth, x: Local, y: Local, j: seq<ContainerOp>, n: nat): Course
    requires n <= |j|
  {
    Course(t, x.headSeq, y.lastOpEpoch, y.pending, j[n..])
  }

  function MergedInto(y: Device, s: Snapshot, cloud: bool): Device {
    y.(c := if cloud then CloudMerge(y.c, s, y.authors).c else PlannerMerge(y.c, s, y.authors).c)
  }

  /** A device that began as `c0` and lived fairly; what it knows in the end is true. */
  ghost predicate Lived(c0: Local, authors0: Authors, co: Course, es: seq<Event>) {
    Fair(Device(c0, authors0), [], co.j, es, co.t.keys) && EndsTrue(Run(Device(c0, authors0), co.j, es), co)
  }

  /** One beginning, one journal, and a clock that the operations of each epoch pass by themselves. */
  ghost predicate Begins(c0: Local, t: Truth, j: seq<ContainerOp>) {
    && Sorted(j) && c0.pending == [] && (forall i :: 0 <= i < |j| ==> c0.headSeq < j[i].seq_)
    && Extends(c0.keys, t.keys) && (forall op :: op in j ==> CheckOp(t.access, op, t.authors) != Err(Expired))
    && RoomFor(Whole(c0, t, j), c0.guard, c0.keys.Keys)
  }

  lemma LivedIsAlong(c0: Local, authors0: Authors, t: Truth, j: seq<ContainerOp>, es: seq<Event>) returns (m: nat)
    requires Begins(c0, t, j) && Lived(c0, authors0, Whole(c0, t, j), es)
    ensures var d0 := Device(c0, authors0);
      Along(Run(d0, j, es).c, Whole(c0, t, j), Own(c0.state) + EditsOf(d0, j, es), m, c0.guard, c0.keys.Keys)
  {
    var co := Whole(c0, t, j);
    StartIsAt(c0, co);
    hide Room, Passed, Stretch, Holds;
    m := RunAlong(Device(c0, authors0), co, Own(c0.state), es, 0, c0.guard, c0.keys.Keys);
  }

  lemma WrittenOf(t: Truth, keys: map<u64, EpochKey>, p: seq<ContainerOp>, q: seq<ContainerOp>)
    ensures Written(t, keys, p + q) == Written(t, keys, p) + Written(t, keys, q)
  {
    forall op, e | op in p && e in WritesOf(t.access, t.authors, keys, op) ensures e in Written(t, keys, p + q) {
      assert op in p + q;
    }
    forall op, e | op in q && e in WritesOf(t.access, t.authors, keys, op) ensures e in Written(t, keys, p + q) {
      assert op in p + q;
    }
  }

  lemma WrittenBy(t: Truth, keys: map<u64, EpochKey>, more: map<u64, EpochKey>, p: seq<ContainerOp>, q: seq<ContainerOp>)
    requires Extends(keys, more) && forall op :: op in p ==> op in q
    ensures Written(t, keys, p) <= Written(t, more, q)
  {
    forall op, e | op in p && e in WritesOf(t.access, t.authors, keys, op) ensures e in Written(t, more, q) {
      assert op in q && e in WritesOf(t.access, t.authors, more, op);
    }
  }

  lemma JoinStands(s: State, x: State, es: set<Entry>, fs: set<Entry>)
    requires Holds(s, es) && Holds(x, fs)
    ensures Holds(Join(s, x), es + fs)
  {
    JoinHolds(s, x, es, fs);
  }

  lemma PassedOneMore(a: Access, authors: Authors, floor: u64, ops: seq<ContainerOp>, op: ContainerOp)
    ensures var p := Passed(a, authors, floor, ops);
      Passed(a, authors, floor, ops + [op]) == p + if CheckOp(a, op, authors).Ok? && Floor(p, floor) <= op.keyEpoch then [op] else []
  {
    assert (ops + [op])[..|ops|] == ops && (ops + [op])[|ops|] == op;
    assert Passed(a, authors, floor, ops) + [] == Passed(a, authors, floor, ops);
    hide CheckOp;
  }

  lemma FloorOfParts(p: seq<ContainerOp>, q: seq<ContainerOp>, floor: u64)
    ensures Floor(p + q, floor) == Floor(q, Floor(p, floor))
  {
  }

  lemma {:induction false} PassedInParts(a: Access, authors: Authors, floor: u64, p: seq<ContainerOp>, q: seq<ContainerOp>)
    ensures Passed(a, authors, floor, p + q)
         == Passed(a, authors, floor, p) + Passed(a, authors, Floor(Passed(a, authors, floor, p), floor), q)
    decreases |q|
  {
    var before := Passed(a, authors, floor, p);
    if q == [] {
      assert p + q == p && before + [] == before;
    } else {
      hide CheckOp, Passed, Floor;
      var k := |q| - 1;
      var mid, high := q[..k], Floor(before, floor);
      assert p + q == p + mid + [q[k]] && q == mid + [q[k]];
      PassedInParts(a, authors, floor, p, mid);
      PassedOneMore(a, authors, floor, p + mid, q[k]);
      PassedOneMore(a, authors, high, mid, q[k]);
      FloorOfParts(before, Passed(a, authors, high, mid), floor);
      AppendGroups(before, Passed(a, authors, high, mid), [q[k]]);
      AppendGroups(before, Passed(a, authors, high, mid), []);
    }
  }

  /** What the receiver holds right after the merge, and where it stands. */
  lemma MergedIsAt(
    y: Device, x: Local, signer: Signer, cloud: bool, c0: Local, t: Truth, j: seq<ContainerOp>, m: nat, n: nat, ownX: set<Entry>, ownY: set<Entry>)
    requires Begins(c0, t, j) && At(x, Whole(c0, t, j), ownX, n) && At(y.c, Whole(c0, t, j), ownY, m)
    requires x.pending == [] && x.access.epoch in x.keys && y.c.headSeq <= x.headSeq
    requires CheckSnapshot(y.c, SnapshotOf(x, signer), y.authors).Ok?
    ensures var z := MergedInto(y, SnapshotOf(x, signer), cloud).c;
      && n <= |j| && Sound(Rest(t, x, y.c, j, n))
      && At(z, Rest(t, x, y.c, j, n), ownY + Written(t, y.c.keys, Stretch(Whole(c0, t, j), m)) + (ownX + Written(t, t.keys, Stretch(Whole(c0, t, j), n))), 0)
      && ClockCovers(z.guard, z.keys, Stretch(Rest(t, x, y.c, j, n), 0)) && z.keys == y.c.keys
  {
    var co, rest, z := Whole(c0, t, j), Rest(t, x, y.c, j, n), MergedInto(y, SnapshotOf(x, signer), cloud).c;
    hide Holds, CheckSnapshot, Passed, Stretch, CheckOp, Join, MergedInto, RoomFor, Own, Stamps, Written, Keyless;
    var p, q, keys := Stretch(co, n), Stretch(co, m), y.c.keys;
    NothingMissing(x, t, p, t.keys);
    MergeMakes(y, x, signer, cloud);
    NothingYet(rest);
    WaitingChecksOut(co, m, keys);
    JoinStands(y.c.state, x.state, ownY + Written(t, keys, q), ownX + Written(t, t.keys, p));
    WaitingAddsNothing(t, keys, y.c.pending);
    var all := ownY + Written(t, keys, q) + (ownX + Written(t, t.keys, p));
    assert all + {} == all;
  }

  lemma NothingYet(rest: Course)
    ensures Stretch(rest, 0) == rest.waiting && PassedTo(rest, 0) == []
  {
    assert rest.j[..0] == [];
  }

  lemma WaitingChecksOut(co: Course, m: nat, keys: map<u64, EpochKey>)
    requires Sound(co) && m <= |co.j|
    ensures forall op :: op in Keyless(Stretch(co, m), keys) ==> op.keyEpoch !in keys && CheckOp(co.t.access, op, co.t.authors).Ok?
  {
    KeylessMembers(Stretch(co, m), keys);
    PassedAreOps(co.t.access, co.t.authors, co.floor, co.j[..m]);
  }

  /** What the merge of a snapshot changes: state, clock and cursors. */
  lemma MergeMakes(y: Device, x: Local, signer: Signer, cloud: bool)
    requires x.access.epoch in x.keys && y.c.headSeq <= x.headSeq && CheckSnapshot(y.c, SnapshotOf(x, signer), y.authors).Ok?
    ensures var z := MergedInto(y, SnapshotOf(x, signer), cloud).c;
      && z.state == Join(y.c.state, x.state) && z.headSeq == x.headSeq
      && z.pending == y.c.pending && z.keys == y.c.keys && z.lastOpEpoch == y.c.lastOpEpoch
  {
    hide CheckSnapshot;
  }

  lemma WaitingAddsNothing(t: Truth, keys: map<u64, EpochKey>, waiting: seq<ContainerOp>)
    requires forall op :: op in waiting ==> op.keyEpoch !in keys
    ensures Written(t, keys, waiting) == {} && Keyless(waiting, keys) == waiting
    ensures forall op :: op in waiting ==> Stamps(op, keys) == []
  {
    StillKeyless(waiting, keys);
  }

  lemma {:induction false} StillKeyless(ops: seq<ContainerOp>, keys: map<u64, EpochKey>)
    requires forall op :: op in ops ==> op.keyEpoch !in keys
    ensures Keyless(ops, keys) == ops
  {
    if ops != [] {
      assert ops[0] in ops && forall op :: op in ops[1..] ==> op in ops;
      StillKeyless(ops[1..], keys);
    }
  }

  lemma {:induction false} FloorOnlyRises(co: Course, m: nat, n: nat)
    requires m <= n <= |co.j|
    ensures Floor(PassedTo(co, m), co.floor) <= Floor(PassedTo(co, n), co.floor)
    decreases n - m
  {
    if m < n {
      StretchNext(co, m);
      assert PassedTo(co, m) + [] == PassedTo(co, m);
      FloorOnlyRises(co, m + 1, n);
    }
  }

  /** What passes of the whole journal: what passed before the snapshot, and of the rest what the receiver lets pass. */
  lemma WholeInParts(co: Course, rest: Course, n: nat)
    requires co.waiting == [] && n <= |co.j| && rest.j == co.j[n..] && rest.t == co.t
    requires Sorted(co.j) && rest.floor <= Floor(PassedTo(co, n), co.floor)
    requires forall i :: 0 <= i < |rest.j| ==>
      !OldEpochFirst(co.t.access, co.t.authors, rest.floor, Floor(PassedTo(co, n), co.floor), rest.j, i)
    ensures Stretch(co, |co.j|) == Stretch(co, n) + PassedTo(rest, |rest.j|)
  {
    var high := Floor(PassedTo(co, n), co.floor);
    assert co.j == co.j[..n] + co.j[n..] && co.j[..|co.j|] == co.j && rest.j[..|rest.j|] == rest.j;
    assert Sorted(rest.j);
    hide Passed, OldEpochFirst, Sorted, CheckOp;
    PassedInParts(co.t.access, co.t.authors, co.floor, co.j[..n], co.j[n..]);
    ForgottenFloorIff(co.t.access, co.t.authors, rest.floor, high, rest.j);
    assert PassedTo(co, |co.j|) == PassedTo(co, n) + PassedTo(rest, |rest.j|);
    assert [] + PassedTo(co, n) == PassedTo(co, n) && [] + PassedTo(co, |co.j|) == PassedTo(co, |co.j|);
  }

  /** All that the receiver merged in the end is what full replay merges, and the edits of both devices. */
  lemma SameWrites(
    t: Truth, base: set<Entry>, x: set<Entry>, y: set<Entry>, z: set<Entry>, keys: map<u64, EpochKey>,
    q: seq<ContainerOp>, p: seq<ContainerOp>, waiting: seq<ContainerOp>, tail: seq<ContainerOp>)
    requires Extends(keys, t.keys) && q <= p && forall op :: op in waiting ==> op in q
    ensures base + y + Written(t, keys, q) + (base + x + Written(t, t.keys, p)) + z + Written(t, t.keys, waiting + tail)
         == base + Written(t, t.keys, p + tail) + (x + y + z)
  {
    WrittenOf(t, t.keys, waiting, tail);
    WrittenOf(t, t.keys, p, tail);
    WrittenBy(t, keys, t.keys, q, p);
    WrittenBy(t, t.keys, t.keys, waiting, p);
    hide *;
    SetsMeet(base, x, y, z, Written(t, keys, q), Written(t, t.keys, p), Written(t, t.keys, waiting), Written(t, t.keys, tail));
  }

  lemma SetsMeet(
    base: set<Entry>, x: set<Entry>, y: set<Entry>, z: set<Entry>, a: set<Entry>, b: set<Entry>, c: set<Entry>, d: set<Entry>)
    requires a <= b && c <= b
    ensures base + y + a + (base + x + b) + z + (c + d) == base + (b + d) + (x + y + z)
  {
    var left, right := base + y + a + (base + x + b) + z + (c + d), base + (b + d) + (x + y + z);
    assert left <= right && right <= left;
  }

  /** The story of a snapshot: its author, its receiver before, and what the receiver did after it. */
  datatype Story = Story(
    c0: Local, t: Truth, j: seq<ContainerOp>, authorsX: Authors, xs: seq<Event>, authorsY: Authors, ys: seq<Event>,
    n: nat, signer: Signer, cloud: bool, zs: seq<Event>)
  {
    function Course(): Course { Whole(c0, t, j) }
    function X(): Local { Run(Device(c0, authorsX), j, xs).c }
    function Y(): Device { Run(Device(c0, authorsY), j, ys) }
    function Merged(): Device requires X().access.epoch in X().keys { MergedInto(Y(), SnapshotOf(X(), signer), cloud) }
    function After(): Course requires n <= |j| { Rest(t, X(), Y().c, j, n) }
    function Z(): Device requires n <= |j| && X().access.epoch in X().keys { Run(Merged(), j[n..], zs) }
    function Full(): Local { Journal.After(c0.(access := t.access, keys := t.keys), j, t.authors, false) }
    function Edits(): set<Entry> requires n <= |j| && X().access.epoch in X().keys {
      EditsOf(Device(c0, authorsX), j, xs) + EditsOf(Device(c0, authorsY), j, ys) + EditsOf(Merged(), j[n..], zs)
    }
  }

  /** Author and receiver live fairly up to the snapshot, which is due and is accepted. */
  ghost predicate Told(s: Story) {
    && Begins(s.c0, s.t, s.j) && Lived(s.c0, s.authorsX, s.Course(), s.xs) && Lived(s.c0, s.authorsY, s.Course(), s.ys)
    && Placed(s.X(), s.j, s.n) && SnapshotDue(s.X()) && s.X().access.epoch in s.X().keys
    && s.Y().c.headSeq <= s.X().headSeq && CheckSnapshot(s.Y().c, SnapshotOf(s.X(), s.signer), s.Y().authors).Ok?
  }

  /**
   The receiver goes on fairly to the end. Its clock lets the operations of each epoch pass, and no operation that
   full replay refuses as of an old epoch comes first.
   */
  ghost predicate GoesOn(s: Story)
    requires s.n <= |s.j| && s.X().access.epoch in s.X().keys
  {
    && RoomFor(s.After(), s.Merged().c.guard, s.Y().c.keys.Keys)
    && Fair(s.Merged(), s.Y().c.pending, s.j[s.n..], s.zs, s.t.keys) && EndsTrue(s.Z(), s.After())
    && s.Z().c.pending == [] && (forall op :: op in s.j[s.n..] ==> op.seq_ <= s.Z().c.headSeq)
    && forall i :: 0 <= i < |s.j| - s.n ==>
         !OldEpochFirst(s.t.access, s.t.authors, s.Y().c.lastOpEpoch, Floor(PassedTo(s.Course(), s.n), s.c0.lastOpEpoch), s.j[s.n..], i)
  }

  lemma PlaceIsOne(c: Local, co: Course, base: set<Entry>, m: nat, n: nat)
    requires Sound(co) && At(c, co, base, m) && Placed(c, co.j, n)
    ensures m == n
  {
    AtPlace(c, co, base, m);
    assert m < |co.j| ==> (co.j[m].seq_ <= c.headSeq <==> m < n);
    assert n < |co.j| ==> (co.j[n].seq_ <= c.headSeq <==> n < m);
  }

  /** The writes the receiver started from after the merge: its own, the author's, and what each had taken in. */
  function MergedWrites(s: Story, m: nat): set<Entry>
    requires s.n <= |s.j| && m <= |s.j|
  {
    var base := Own(s.c0.state);
    base + EditsOf(Device(s.c0, s.authorsY), s.j, s.ys) + Written(s.t, s.Y().c.keys, Stretch(s.Course(), m))
    + (base + EditsOf(Device(s.c0, s.authorsX), s.j, s.xs) + Written(s.t, s.t.keys, Stretch(s.Course(), s.n)))
  }

  lemma BeforeTheSnapshot(s: Story) returns (m: nat)
    requires Told(s)
    ensures s.n <= |s.j| && m <= s.n && Extends(s.Y().c.keys, s.t.keys)
    ensures At(s.Merged().c, s.After(), MergedWrites(s, m), 0) && Sound(s.After())
    ensures ClockCovers(s.Merged().c.guard, s.Y().c.keys, Stretch(s.After(), 0)) && s.Merged().c.keys == s.Y().c.keys
    ensures s.Y().c.pending == Keyless(Stretch(s.Course(), m), s.Y().c.keys)
    ensures s.Y().c.lastOpEpoch == Floor(PassedTo(s.Course(), m), s.c0.lastOpEpoch)
    ensures s.X().headSeq == if s.n == 0 then s.c0.headSeq else s.j[s.n - 1].seq_
  {
    var base, co := Own(s.c0.state), s.Course();
    var ownX, ownY := EditsOf(Device(s.c0, s.authorsX), s.j, s.xs), EditsOf(Device(s.c0, s.authorsY), s.j, s.ys);
    hide Run, Fair, EndsTrue, EditsOf, Room, Stretch, Passed, Holds, CheckSnapshot, MergedInto, Written, CheckOp, Stamps;
    var k := LivedIsAlong(s.c0, s.authorsX, s.t, s.j, s.xs);
    m := LivedIsAlong(s.c0, s.authorsY, s.t, s.j, s.ys);
    PlaceIsOne(s.X(), co, base + ownX, k, s.n);
    AtPlace(s.Y().c, co, base + ownY, m);
    MergedIsAt(s.Y(), s.X(), s.signer, s.cloud, s.c0, s.t, s.j, m, s.n, base + ownX, base + ownY);
  }

  lemma AfterTheSnapshot(s: Story) returns (m: nat)
    requires Told(s) && s.n <= |s.j| && GoesOn(s)
    ensures m <= s.n && At(s.Z().c, s.After(), MergedWrites(s, m) + EditsOf(s.Merged(), s.j[s.n..], s.zs), |s.j| - s.n)
    ensures s.Y().c.pending == Keyless(Stretch(s.Course(), m), s.Y().c.keys) && Extends(s.Y().c.keys, s.t.keys)
    ensures s.Y().c.lastOpEpoch == Floor(PassedTo(s.Course(), m), s.c0.lastOpEpoch)
    ensures s.X().headSeq == if s.n == 0 then s.c0.headSeq else s.j[s.n - 1].seq_
  {
    var rest := s.After();
    m := BeforeTheSnapshot(s);
    var base := MergedWrites(s, m);
    hide Told, Run, EndsTrue, EditsOf, Room, Stretch, MergedInto, MergedWrites, PassedTo, OldEpochFirst, At, Fair;
    assert Fit(s.Merged().c, rest, 0, s.Merged().c.guard, s.Y().c.keys.Keys);
    var k := RunAlong(s.Merged(), rest, base, s.zs, 0, s.Merged().c.guard, s.Y().c.keys.Keys);
    EndIsReached(s.Z().c, rest, base + EditsOf(s.Merged(), s.j[s.n..], s.zs), k);
  }

  lemma FullIsAt(s: Story)
    requires Told(s)
    ensures At(s.Full(), s.Course(), Own(s.c0.state), |s.j|) && s.Full().keys == s.t.keys
  {
    hide Run, Fair, EndsTrue, EditsOf, Room, Stretch, Passed, Holds, CheckSnapshot, MergedInto, Lived;
    OnePassArrives(s.c0.(access := s.t.access, keys := s.t.keys), s.Course(), s.c0.keys.Keys);
  }

  lemma StretchesFit(s: Story, m: nat)
    requires Told(s) && s.n <= |s.j| && GoesOn(s) && m <= s.n
    requires s.Y().c.pending == Keyless(Stretch(s.Course(), m), s.Y().c.keys)
    requires s.Y().c.lastOpEpoch == Floor(PassedTo(s.Course(), m), s.c0.lastOpEpoch)
    ensures Stretch(s.Course(), m) <= Stretch(s.Course(), s.n)
    ensures forall op :: op in s.Y().c.pending ==> op in Stretch(s.Course(), m)
    ensures Stretch(s.Course(), |s.j|) == Stretch(s.Course(), s.n) + PassedTo(s.After(), |s.j| - s.n)
  {
    hide Run, Fair, EndsTrue, Room, MergedInto, Lived, CheckSnapshot, OldEpochFirst;
    StretchGrows(s.Course(), m, s.n);
    KeylessMembers(Stretch(s.Course(), m), s.Y().c.keys);
    FloorOnlyRises(s.Course(), m, s.n);
    WholeInParts(s.Course(), s.After(), s.n);
  }

  /** The writes that make up the receiver's state in the end, against those of full replay. */
  lemma ReceiverWrites(s: Story, m: nat)
    requires Told(s) && s.n <= |s.j| && GoesOn(s) && m <= s.n && Extends(s.Y().c.keys, s.t.keys)
    requires s.Y().c.pending == Keyless(Stretch(s.Course(), m), s.Y().c.keys)
    requires s.Y().c.lastOpEpoch == Floor(PassedTo(s.Course(), m), s.c0.lastOpEpoch)
    ensures MergedWrites(s, m) + EditsOf(s.Merged(), s.j[s.n..], s.zs) + Written(s.t, s.t.keys, Stretch(s.After(), |s.j| - s.n))
         == Own(s.c0.state) + Written(s.t, s.t.keys, Stretch(s.Course(), |s.j|)) + s.Edits()
  {
    StretchesFit(s, m);
    hide Told, GoesOn, Run, EditsOf, MergedInto, Written, Keyless, PassedTo, Own;
    SameWrites(s.t, Own(s.c0.state), EditsOf(Device(s.c0, s.authorsX), s.j, s.xs), EditsOf(Device(s.c0, s.authorsY), s.j, s.ys),
      EditsOf(s.Merged(), s.j[s.n..], s.zs), s.Y().c.keys, Stretch(s.Course(), m), Stretch(s.Course(), s.n), s.Y().c.pending,
      PassedTo(s.After(), |s.j| - s.n));
  }

  /**
   Snapshot plus rest, whatever was learned, waited for and edited on the way: at the end the receiver has the cursor
   of full replay, and its state together with the edits of both devices; just its state, once those are in the journal.
   */
  lemma SnapshotRunEqualsReplay(s: Story)
    requires Told(s) && s.n <= |s.j| && GoesOn(s)
    ensures var z, full := s.Z().c, s.Full();
      && z.headSeq == full.headSeq && Holds(z.state, Own(full.state) + s.Edits())
      && (s.Edits() <= Written(s.t, s.t.keys, Stretch(s.Course(), |s.j|)) ==> z.state == full.state)
  {
    hide *;
    WhatTheyShare(s);
    var m := AfterTheSnapshot(s);
    FullIsAt(s);
    ReceiverWrites(s, m);
    var z, full, end := s.Z().c, s.Full(), |s.j| - s.n;
    var all, own := Own(s.c0.state) + Written(s.t, s.t.keys, Stretch(s.Course(), |s.j|)), s.Edits();
    AtMeans(z, s.After(), MergedWrites(s, m) + EditsOf(s.Merged(), s.j[s.n..], s.zs), end);
    AtMeans(full, s.Course(), Own(s.c0.state), |s.j|);
    NothingMissing(z, s.t, Stretch(s.After(), end), s.t.keys);
    StandsForItsWrites(full.state, z.state, all, own);
    if own <= Written(s.t, s.t.keys, Stretch(s.Course(), |s.j|)) {
      assert all + own == all;
      HoldsIsUnique(z.state, full.state, all);
    }
  }

  lemma WhatTheyShare(s: Story)
    requires Told(s) && s.n <= |s.j| && GoesOn(s)
    ensures s.Z().c.pending == [] && s.After().t == s.Course().t == s.t && s.After().j == s.j[s.n..] && s.Course().j == s.j
    ensures s.X().access.epoch in s.X().keys
    ensures s.After().start == s.X().headSeq && s.Course().start == s.c0.headSeq
  {
    hide Run, Fair, EndsTrue, Room, MergedInto, Lived, CheckSnapshot, OldEpochFirst;
  }

  lemma AtMeans(c: Local, co: Course, base: set<Entry>, n: nat)
    requires At(c, co, base, n)
    ensures n <= |co.j| && c.pending == Keyless(Stretch(co, n), c.keys) && Extends(c.keys, co.t.keys)
    ensures Holds(c.state, base + Written(co.t, c.keys, Stretch(co, n)))
    ensures c.headSeq == if n == 0 then co.start else co.j[n - 1].seq_
  {
  }
}
