/**
 Late keys, one operation at a time: exactly when some schedule of keys and pages makes the clock refuse it, whatever
 becomes of the others.
 */
module EachOperation {
  import opened Prelude
  import opened Lww
  import opened Guard
  import opened Access
  import opened Journal
  import opened Convergence
  import opened LateKeys

  /** The journal as it will be judged, and one operation in it: the `k`-th of those that pass. */
  datatype Case = Case(a: Access, authors: Authors, start: u64, floor: u64, j: seq<ContainerOp>, keys: map<u64, EpochKey>,
                       g0: u64, known: set<u64>, k: nat)

  function PassedOf(x: Case, n: nat): seq<ContainerOp>
    requires n <= |x.j|
  {
    Passed(x.a, x.authors, x.floor, x.j[..n])
  }

  ghost predicate Posed(x: Case) {
    && Sorted(x.j) && (forall i :: 0 <= i < |x.j| ==> x.start < x.j[i].seq_)
    && x.k < |PassedOf(x, |x.j|)| && RoomAt(x.g0, PassedOf(x, |x.j|), x.k, x.known, x.keys)
  }

  function TheOne(x: Case): ContainerOp
    requires Posed(x)
  {
    PassedOf(x, |x.j|)[x.k]
  }

  /** Those before it. */
  function Before(p: seq<ContainerOp>, k: nat): seq<ContainerOp> {
    if |p| < k then p else p[..k]
  }

  // ── what passes is in order ───────────────────────────────────────────────

  /** In the order of the journal, and never back to an older epoch. */
  ghost predicate Ascending(p: seq<ContainerOp>) {
    forall i, l :: 0 <= i < l < |p| ==> p[i].seq_ < p[l].seq_ && p[i].keyEpoch <= p[l].keyEpoch
  }

  lemma AscendsOn(p: seq<ContainerOp>, op: ContainerOp)
    requires Ascending(p) && forall o :: o in p ==> o.seq_ < op.seq_
    requires p != [] ==> p[|p| - 1].keyEpoch <= op.keyEpoch
    ensures Ascending(p + [op])
  {
    forall i | 0 <= i < |p| ensures p[i].seq_ < op.seq_ && p[i].keyEpoch <= op.keyEpoch { assert p[i] in p; }
  }

  lemma {:induction false} PassedAscends(a: Access, authors: Authors, floor: u64, j: seq<ContainerOp>)
    requires Sorted(j)
    ensures Ascending(Passed(a, authors, floor, j))
  {
    if j != [] {
      var k := |j| - 1;
      var p := Passed(a, authors, floor, j[..k]);
      assert Sorted(j[..k]) && forall op :: op in j[..k] ==> op.seq_ < j[k].seq_;
      PassedAreOps(a, authors, floor, j[..k]);
      hide Sorted, CheckOp, Ascending;
      PassedAscends(a, authors, floor, j[..k]);
      if p != [] ==> p[|p| - 1].keyEpoch <= j[k].keyEpoch { AscendsOn(p, j[k]); }
    }
  }

  lemma PassedGoesOn(x: Case, n: nat)
    requires n < |x.j|
    ensures var p, all := PassedOf(x, n), PassedOf(x, |x.j|);
      && PassedOf(x, n + 1) == (if Goes(x, n) then p + [x.j[n]] else p)
      && p <= all && (Goes(x, n) ==> |p| < |all| && all[|p|] == x.j[n])
  {
    assert x.j[..n + 1][..n] == x.j[..n] && x.j[..n + 1][n] == x.j[n] && x.j[..|x.j|] == x.j;
    PassedPrefix(x.a, x.authors, x.floor, x.j, n);
    PassedPrefix(x.a, x.authors, x.floor, x.j, n + 1);
  }

  /** The operation at place `n` of the journal is among those that pass. */
  predicate Goes(x: Case, n: nat)
    requires n < |x.j|
  {
    CheckOp(x.a, x.j[n], x.authors).Ok? && Floor(PassedOf(x, n), x.floor) <= x.j[n].keyEpoch
  }

  // ── the clock, over those before it ───────────────────────────────────────

  /** The clock is at least what the operations before `k`, of its epoch if the key is here, make of it alone. */
  ghost predicate ClockIsUp(g: u64, x: Case, p: seq<ContainerOp>, epochs: set<u64>) {
    ClockOver(x.g0, Among(Before(p, x.k), epochs), x.keys) <= g
  }

  lemma {:induction false} ClockOverGrows(g: u64, p: seq<ContainerOp>, epochs: set<u64>, i: nat, keys: map<u64, EpochKey>)
    requires i <= |p|
    ensures ClockOver(g, Among(p[..i], epochs), keys) <= ClockOver(g, Among(p, epochs), keys)
    decreases |p|
  {
    hide *;
    if i < |p| {
      var l := |p| - 1;
      var before := Among(p[..l], epochs);
      assert p[..l][..i] == p[..i] && p == p[..l] + [p[l]];
      ClockOverGrows(g, p[..l], epochs, i, keys);
      AmongAppend(p[..l], p[l], epochs);
      ClockOverAppend(g, before, p[l], keys);
      CheckAllNeverLowers(ClockOver(g, before, keys), Stamps(p[l], keys));
      assert before + [] == before;
    } else {
      assert p[..i] == p;
    }
  }

  /** An operation that was tried, or that does not count, keeps the clock up. */
  lemma ClockStaysUp(g: u64, d: u64, x: Case, p: seq<ContainerOp>, op: ContainerOp, epochs: set<u64>)
    requires ClockIsUp(g, x, p, epochs) && g <= d
    requires |p| < x.k && op.keyEpoch in epochs ==> d == CheckAll(g, Stamps(op, x.keys)).max
    ensures ClockIsUp(d, x, p + [op], epochs)
  {
    hide Stamps, ClockOver, Among;
    if |p| < x.k {
      assert Before(p, x.k) == p && Before(p + [op], x.k) == p + [op];
      AmongAppend(p, op, epochs);
      assert Among(p, epochs) + [] == Among(p, epochs);
      ClockOverAppend(x.g0, Among(p, epochs), op, x.keys);
      AheadAcceptsMore(ClockOver(x.g0, Among(p, epochs), x.keys), g, Stamps(op, x.keys));
    } else {
      assert Before(p, x.k) == Before(p + [op], x.k);
    }
  }

  /** A clock that is up takes the operation. */
  lemma UpIsEnough(g: u64, x: Case, p: seq<ContainerOp>)
    requires Posed(x) && x.k <= |p| && p[..x.k] == PassedOf(x, |x.j|)[..x.k]
    requires ClockIsUp(g, x, p, x.known + {TheOne(x).keyEpoch})
    ensures CheckAll(g, Stamps(TheOne(x), x.keys)).ok
  {
    hide Stamps, ClockOver, Among;
    var all := PassedOf(x, |x.j|);
    assert Before(p, x.k) == all[..x.k];
    AheadAcceptsMore(ClockOver(x.g0, Among(all[..x.k], x.known + {all[x.k].keyEpoch}), x.keys), g, Stamps(all[x.k], x.keys));
  }

  // ── along any schedule ────────────────────────────────────────────────────

  function Epochs(x: Case, keys: map<u64, EpochKey>): set<u64>
    requires Posed(x)
  {
    x.known + if TheOne(x).keyEpoch in keys then {TheOne(x).keyEpoch} else {}
  }

  /** The device has gone through the first `n` operations, with any keys, whatever the clock refused. */
  ghost predicate OnWay(c: Local, x: Case, n: nat) {
    && Posed(x) && n <= |x.j| && c.access == x.a && Extends(c.keys, x.keys) && x.known <= c.keys.Keys
    && c.headSeq == (if n == 0 then x.start else x.j[n - 1].seq_)
    && c.lastOpEpoch == Floor(PassedOf(x, n), x.floor) && c.pending == Keyless(PassedOf(x, n), c.keys)
    && ClockIsUp(c.guard, x, PassedOf(x, n), Epochs(x, c.keys))
  }

  lemma WayPlace(c: Local, x: Case, n: nat)
    requires OnWay(c, x, n)
    ensures Posed(x) && n <= |x.j| && forall i :: 0 <= i < |x.j| ==> (x.j[i].seq_ <= c.headSeq <==> i < n)
  {
    hide ClockIsUp, Passed, Keyless;
  }

  /** It passes at one place only. */
  lemma OnlyThere(x: Case, n: nat)
    requires Posed(x) && n < |x.j| && Goes(x, n) && x.j[n] == TheOne(x)
    ensures |PassedOf(x, n)| == x.k && PassedOf(x, n) == PassedOf(x, |x.j|)[..x.k]
  {
    assert x.j[..|x.j|] == x.j;
    PassedAscends(x.a, x.authors, x.floor, x.j);
    PassedGoesOn(x, n);
    hide Goes, Passed, RoomAt;
  }

  lemma MetOnWay(c: Local, x: Case, n: nat)
    requires OnWay(c, x, n) && n < |x.j| && Goes(x, n) && x.j[n] == TheOne(x) && x.j[n].keyEpoch in c.keys
    ensures CheckAll(c.guard, Stamps(x.j[n], x.keys)).ok
  {
    OnlyThere(x, n);
    hide CheckOp, Passed, CheckAll, RoomAt, Goes, Keyless, Stamps, ClockIsUp;
    var p := PassedOf(x, n);
    assert p[..x.k] == p;
    UpIsEnough(c.guard, x, p);
  }

  lemma TakenOnWay(c: Local, x: Case, n: nat, strict: bool)
    requires OnWay(c, x, n) && n < |x.j| && TakeOne(c, x.j[n], x.authors, strict).Moved?
    ensures OnWay(TakeOne(c, x.j[n], x.authors, strict).c, x, n + 1)
    ensures Passes(c, x.j[n], x.authors) && x.j[n] == TheOne(x) ==> !ClockRefuses(c, x.j[n])
  {
    var op, p, epochs := x.j[n], PassedOf(x, n), Epochs(x, c.keys);
    var d := TakeOne(c, op, x.authors, strict).c;
    TakeOneCases(c, op, x.authors, strict);
    PassedGoesOn(x, n);
    assert Passes(c, op, x.authors) <==> Goes(x, n);
    hide TakeOne, Passes, CheckOp, Passed, Open, CheckAll, RoomAt, Goes, Keyless, ClockIsUp;
    if Goes(x, n) {
      KeylessAppend(p, op, c.keys);
      assert Keyless(p, c.keys) + [] == Keyless(p, c.keys);
      if op.keyEpoch in c.keys {
        OpenMeetsStamps(c.keys, c.guard, c.state, op, CheckOp(c.access, op, x.authors).value);
        SameStamps(op, c.keys, x.keys);
        CheckAllNeverLowers(c.guard, Stamps(op, x.keys));
        if op == TheOne(x) { MetOnWay(c, x, n); }
      }
      hide Stamps;
      ClockStaysUp(c.guard, d.guard, x, p, op, epochs);
    }
  }

  lemma {:induction false} PageOnWay(c: Local, x: Case, n: nat, strict: bool, r: Report, lo: nat, hi: nat) returns (m: nat)
    requires OnWay(c, x, n) && lo <= n && lo <= hi <= |x.j|
    ensures OnWay(Ingest(c, x.j[lo..hi], x.authors, strict, r).c, x, m)
    ensures TheOne(x) !in RefusedInPage(c, x.j[lo..hi], x.authors, strict)
    decreases hi - lo
  {
    hide *;
    m := n;
    var j := x.j;
    WayPlace(c, x, n);
    if lo == hi {
      EmptyPage(c, j, lo, x.authors, strict, r);
    } else {
      IngestFirst(c, j, lo, hi, x.authors, strict, r);
      RefusedFirst(c, j, lo, hi, x.authors, strict);
      if lo < n {
        m := PageOnWay(c, x, n, strict, r, lo + 1, hi);
      } else if TakeOne(c, j[n], x.authors, strict).Moved? {
        var s := TakeOne(c, j[n], x.authors, strict);
        TakenOnWay(c, x, n, strict);
        m := PageOnWay(s.c, x, n + 1, strict, Noted(r, j[n], s.outcome), n + 1, hi);
      }
    }
  }

  // ── learning ──────────────────────────────────────────────────────────────

  /** Those of a newly opened epoch before `k` come after all of the epochs known from the start that count. */
  lemma OlderFirst(x: Case, p: seq<ContainerOp>, i: nat, e: u64)
    requires Ascending(p) && i < |p| && p[i].keyEpoch in x.known && e !in x.known && p[i].keyEpoch <= e
    ensures Among(p[..i + 1], x.known + {e}) == Among(p[..i + 1], x.known)
  {
    forall op | op in p[..i + 1] ensures op.keyEpoch != e {
      var l :| 0 <= l <= i && p[l] == op;
    }
    SameAmong(p[..i + 1], x.known + {e}, x.known);
  }

  lemma {:induction false} SameAmong(p: seq<ContainerOp>, some: set<u64>, others: set<u64>)
    requires forall op :: op in p ==> (op.keyEpoch in some <==> op.keyEpoch in others)
    ensures Among(p, some) == Among(p, others)
  {
    if p != [] {
      assert p[|p| - 1] in p && forall op :: op in p[..|p| - 1] ==> op in p;
      SameAmong(p[..|p| - 1], some, others);
    }
  }

  lemma PrefixIsUp(g: u64, x: Case, p: seq<ContainerOp>, i: nat, epochs: set<u64>)
    requires ClockIsUp(g, x, p, epochs) && i <= |p|
    ensures ClockIsUp(g, x, p[..i], epochs)
  {
    var q := Before(p, x.k);
    var l := if i < |q| then i else |q|;
    assert Before(p[..i], x.k) == q[..l];
    ClockOverGrows(x.g0, q, epochs, l, x.keys);
  }

  lemma PassedIsAPart(x: Case, n: nat)
    requires Posed(x) && n <= |x.j|
    ensures PassedOf(x, n) <= PassedOf(x, |x.j|) && Ascending(PassedOf(x, |x.j|)) && Ascending(PassedOf(x, n))
  {
    assert x.j[..|x.j|] == x.j;
    PassedPrefix(x.a, x.authors, x.floor, x.j, n);
    PassedAscends(x.a, x.authors, x.floor, x.j);
    hide Passed, RoomAt;
  }

  /** Going through what waited, before the `i`-th of those that passed so far; `had` are the keys there were before. */
  ghost predicate WalkReady(g: u64, x: Case, n: nat, had: map<u64, EpochKey>, keys: map<u64, EpochKey>, i: nat) {
    && Posed(x) && n <= |x.j| && i <= |PassedOf(x, n)|
    && Extends(had, keys) && Extends(keys, x.keys) && x.known <= had.Keys
    && ClockIsUp(g, x, PassedOf(x, n), Epochs(x, had)) && ClockIsUp(g, x, PassedOf(x, n)[..i], Epochs(x, keys))
  }

  /** What is not tried again, of an epoch known from the start: it comes before the operations of the epoch just learned. */
  lemma SkippedStaysUp(g: u64, x: Case, n: nat, had: map<u64, EpochKey>, keys: map<u64, EpochKey>, i: nat)
    requires WalkReady(g, x, n, had, keys, i) && i < |PassedOf(x, n)| && i < x.k
    requires PassedOf(x, n)[i].keyEpoch in Epochs(x, keys) && PassedOf(x, n)[i].keyEpoch in had
    ensures ClockIsUp(g, x, PassedOf(x, n)[..i + 1], Epochs(x, keys))
  {
    var p, all, before, now, e := PassedOf(x, n), PassedOf(x, |x.j|), Epochs(x, had), Epochs(x, keys), TheOne(x).keyEpoch;
    PassedIsAPart(x, n);
    assert p[i] == all[i] && p[i].keyEpoch <= e;
    assert ClockIsUp(g, x, p, before) && x.known <= had.Keys;
    assert now != before ==> now == x.known + {e} && before == x.known + {} == x.known && e !in x.known && p[i].keyEpoch in x.known;
    hide *;
    PrefixIsUp(g, x, p, i + 1, before);
    if now != before {
      OlderFirst(x, p, i, e);
      SameMeansUp(g, x, p[..i + 1], before, now);
    }
  }

  lemma SameMeansUp(g: u64, x: Case, p: seq<ContainerOp>, some: set<u64>, others: set<u64>)
    requires ClockIsUp(g, x, p, some) && Among(p, some) == Among(p, others) && |p| <= x.k
    ensures ClockIsUp(g, x, p, others)
  {
    assert Before(p, x.k) == p;
    hide Among, ClockOver;
  }

  lemma WalkClock(g: u64, d: u64, x: Case, n: nat, had: map<u64, EpochKey>, keys: map<u64, EpochKey>, i: nat)
    requires WalkReady(g, x, n, had, keys, i) && i < |PassedOf(x, n)|
    requires var op := PassedOf(x, n)[i];
      d == if op.keyEpoch !in had && op.keyEpoch in keys then CheckAll(g, Stamps(op, x.keys)).max else g
    ensures WalkReady(d, x, n, had, keys, i + 1)
  {
    var p := PassedOf(x, n);
    var op, now := p[i], Epochs(x, keys);
    assert p[..i + 1] == p[..i] + [op];
    CheckAllNeverLowers(g, Stamps(op, x.keys));
    hide Passed, ClockOver, Among, Stamps, CheckAll, RoomAt;
    if i < x.k && op.keyEpoch in now && op.keyEpoch in had {
      SkippedStaysUp(g, x, n, had, keys, i);
    } else {
      assert i < x.k && op.keyEpoch in now ==> op.keyEpoch in keys;
      hide ClockIsUp;
      ClockStaysUp(g, d, x, p[..i], op, now);
    }
    assert ClockIsUp(d, x, p, Epochs(x, had));
  }

  lemma WalkMeetsIt(g: u64, x: Case, n: nat, had: map<u64, EpochKey>, keys: map<u64, EpochKey>, i: nat)
    requires WalkReady(g, x, n, had, keys, i) && i < |PassedOf(x, n)| && PassedOf(x, n)[i] == TheOne(x) && TheOne(x).keyEpoch in keys
    ensures CheckAll(g, Stamps(TheOne(x), x.keys)).ok
  {
    var p, all := PassedOf(x, n), PassedOf(x, |x.j|);
    PassedIsAPart(x, n);
    hide Passed, ClockIsUp, Stamps, CheckAll, RoomAt;
    assert i == x.k && p[..i][..x.k] == p[..i] == all[..x.k];
    UpIsEnough(g, x, p[..i]);
  }

  lemma WalkKeys(g: u64, x: Case, n: nat, had: map<u64, EpochKey>, keys: map<u64, EpochKey>, i: nat)
    requires WalkReady(g, x, n, had, keys, i)
    ensures Posed(x) && Extends(had, keys) && Extends(keys, x.keys)
  {
  }

  /** The device after the next of them: tried already, tried now, or left waiting. */
  function Walked(c: Local, op: ContainerOp, had: map<u64, EpochKey>, author: Author): Local {
    if op.keyEpoch in had then c else if op.keyEpoch in c.keys then Opening(c, op, author) else c.(pending := c.pending + [op])
  }

  ghost predicate WalkDone(c: Local, x: Case, n: nat, had: map<u64, EpochKey>, i: nat)
    requires Posed(x) && n <= |x.j| && i <= |PassedOf(x, n)|
  {
    var p := PassedOf(x, n);
    var todo := Keyless(p[i..], had);
    var d := RetryOver(c, todo, x.authors);
    && d == c.(pending := c.pending + Keyless(p[i..], c.keys), guard := d.guard, state := d.state)
    && ClockIsUp(d.guard, x, p, Epochs(x, c.keys)) && TheOne(x) !in RefusedInRetry(c, todo, x.authors)
  }

  lemma WalkGoesOn(c: Local, x: Case, n: nat, had: map<u64, EpochKey>, i: nat)
    requires WalkReady(c.guard, x, n, had, c.keys, i) && i < |PassedOf(x, n)|
    requires var op := PassedOf(x, n)[i]; CheckOp(c.access, op, x.authors).Ok?
    ensures var op := PassedOf(x, n)[i];
      var d := Walked(c, op, had, CheckOp(c.access, op, x.authors).value);
      WalkReady(d.guard, x, n, had, d.keys, i + 1) && d.access == c.access
  {
    var op := PassedOf(x, n)[i];
    var author := CheckOp(c.access, op, x.authors).value;
    WalkKeys(c.guard, x, n, had, c.keys, i);
    hide WalkReady, Passed, CheckOp, Stamps, CheckAll, RoomAt, Open, ClockIsUp, Posed;
    if op.keyEpoch in c.keys {
      SameStamps(op, c.keys, x.keys);
      OpenMeetsStamps(c.keys, c.guard, c.state, op, author);
    }
    WalkClock(c.guard, Walked(c, op, had, author).guard, x, n, had, c.keys, i);
  }

  lemma WalkCameFrom(c: Local, x: Case, n: nat, had: map<u64, EpochKey>, i: nat)
    requires WalkReady(c.guard, x, n, had, c.keys, i) && i < |PassedOf(x, n)|
    requires var op := PassedOf(x, n)[i]; CheckOp(c.access, op, x.authors).Ok?
    requires var op := PassedOf(x, n)[i]; WalkDone(Walked(c, op, had, CheckOp(c.access, op, x.authors).value), x, n, had, i + 1)
    ensures WalkDone(c, x, n, had, i)
  {
    var p := PassedOf(x, n);
    var op, rest, after := p[i], Keyless(p[i + 1..], had), Keyless(p[i + 1..], c.keys);
    var todo, author := Keyless(p[i..], had), CheckOp(c.access, p[i], x.authors).value;
    KeylessFrom(p, i, had);
    KeylessFrom(p, i, c.keys);
    WalkKeys(c.guard, x, n, had, c.keys, i);
    assert [] + after == after && [] + rest == rest;
    AppendGroups(c.pending, [op], after);
    if op.keyEpoch !in had {
      assert todo == [op] + rest && todo[0] == op && todo[1..] == rest;
      RetryFirst(c, todo, x.authors);
      RefusedInRetryFirst(c, todo, x.authors);
      if op.keyEpoch in c.keys {
        SameStamps(op, c.keys, x.keys);
        if op == TheOne(x) { WalkMeetsIt(c.guard, x, n, had, c.keys, i); }
      }
    }
    hide WalkReady, Passed, CheckOp, Stamps, CheckAll, RoomAt, Open, ClockIsUp, RetryOver, RefusedInRetry, Keyless, Posed;
  }

  lemma {:induction false} WalkOnWay(c: Local, x: Case, n: nat, had: map<u64, EpochKey>, i: nat)
    requires WalkReady(c.guard, x, n, had, c.keys, i) && c.access == x.a
    ensures WalkDone(c, x, n, had, i)
    decreases |PassedOf(x, n)| - i
  {
    var p := PassedOf(x, n);
    if i == |p| {
      assert p[i..] == [] && p[..i] == p && c.pending + [] == c.pending;
    } else {
      PassedAreOps(x.a, x.authors, x.floor, x.j[..n]);
      hide WalkReady, WalkDone, Passed, Walked, CheckOp, Posed;
      assert p[i] in p;
      WalkGoesOn(c, x, n, had, i);
      WalkOnWay(Walked(c, p[i], had, CheckOp(c.access, p[i], x.authors).value), x, n, had, i + 1);
      WalkCameFrom(c, x, n, had, i);
    }
  }

  lemma LearnOnWay(c: Local, x: Case, n: nat, keys: map<u64, EpochKey>)
    requires OnWay(c, x, n) && Extends(c.keys, keys) && Extends(keys, x.keys)
    ensures var learned := c.(keys := keys);
      OnWay(Retry(learned, x.authors), x, n) && TheOne(x) !in RefusedInRetry(learned.(pending := []), c.pending, x.authors)
  {
    var start := c.(keys := keys, pending := []);
    var p := PassedOf(x, n);
    hide RetryOver, RefusedInRetry, Passed, RoomAt;
    assert p[0..] == p && p[..0] == [] && [] + Keyless(p, keys) == Keyless(p, keys);
    assert ClockIsUp(c.guard, x, [], Epochs(x, keys)) by {
      PrefixIsUp(c.guard, x, p, 0, Epochs(x, c.keys));
      assert Before(p[..0], x.k) == [];
    }
    hide ClockIsUp, Keyless;
    WalkOnWay(start, x, n, c.keys, 0);
  }

  lemma EditOnWay(c: Local, x: Case, n: nat, body: seq<Change>, device: Bytes)
    requires OnWay(c, x, n)
    ensures OnWay(Edit(c, body, device).c, x, n)
  {
    var d := Edit(c, body, device).c;
    assert d == c.(guard := d.guard, state := d.state) && c.guard <= d.guard by { hide StampBody; }
    hide Edit, Passed, Keyless, ClockOver, Among, RoomAt;
  }

  // ── over whole schedules ──────────────────────────────────────────────────

  lemma PageInSchedule(d: Device, x: Case, lo: nat, hi: nat, strict: bool, n: nat) returns (m: nat)
    requires OnWay(d.c, x, n) && d.authors == x.authors && NoGap(d, x.j, lo) && lo <= hi <= |x.j|
    ensures OnWay(Happen(d, x.j, Page(lo, hi, strict)).c, x, m)
    ensures TheOne(x) !in RefusedInPage(d.c, x.j[lo..hi], x.authors, strict)
  {
    WayPlace(d.c, x, n);
    hide OnWay, Ingest, RefusedInPage, Posed;
    if lo > 0 { assert x.j[lo - 1].seq_ <= d.c.headSeq; }
    m := PageOnWay(d.c, x, n, strict, NewReport(d.c, false), lo, hi);
  }

  lemma {:induction false} ScheduleOnWay(d: Device, x: Case, es: seq<Event>, n: nat)
    requires OnWay(d.c, x, n) && d.authors == x.authors && Schedule(d, x.j, es, x.keys)
    ensures TheOne(x) !in LateKeys.Refused(d, x.j, es)
    decreases |es|
  {
    if es != [] {
      var j, next, m := x.j, Happen(d, x.j, es[0]), n;
      assert es[0] in es && forall e :: e in es[1..] ==> e in es;
      assert d.c.access == x.a;
      match es[0] {
        case Page(lo, hi, strict) =>
          if lo <= hi <= |j| { m := PageInSchedule(d, x, lo, hi, strict, n); }
        case Learn(a, authors, more) =>
          assert d.c.(access := a, keys := more) == d.c.(keys := more);
          LearnOnWay(d.c, x, n, more);
        case Edited(body, device) =>
          EditOnWay(d.c, x, n, body, device);
      }
      assert next.c.access == d.c.access by { hide *; WayAccess(next.c, x, m); }
      hide OnWay, RefusedInPage, RefusedInRetry, Ingest, RetryOver, Edit, Posed;
      ScheduleOnWay(next, x, es[1..], m);
    }
  }

  lemma WayAccess(c: Local, x: Case, n: nat)
    requires OnWay(c, x, n)
    ensures c.access == x.a
  {
  }

  /**
   For each operation that checks out, by itself: no order of keys, pages, stops and local edits makes the clock refuse it,
   if and only if it passes the clock after the operations before it of its own epoch and of the epochs known from the
   start - whatever happens to all the others.
   */
  lemma NoScheduleRefusesItIff(c0: Local, authors: Authors, j: seq<ContainerOp>, keys: map<u64, EpochKey>, k: nat)
    requires Sorted(j) && c0.pending == [] && (forall i :: 0 <= i < |j| ==> c0.headSeq < j[i].seq_)
    requires Extends(c0.keys, keys) && forall op :: op in j ==> CheckOp(c0.access, op, authors) != Err(Expired)
    requires k < |Passed(c0.access, authors, c0.lastOpEpoch, j)|
    ensures var d, p := Device(c0, authors), Passed(c0.access, authors, c0.lastOpEpoch, j);
      (forall es :: Schedule(d, j, es, keys) ==> p[k] !in LateKeys.Refused(d, j, es))
      <==> RoomAt(c0.guard, p, k, c0.keys.Keys, keys)
  {
    var d, p := Device(c0, authors), Passed(c0.access, authors, c0.lastOpEpoch, j);
    if RoomAt(c0.guard, p, k, c0.keys.Keys, keys) {
      var x := Case(c0.access, authors, c0.headSeq, c0.lastOpEpoch, j, keys, c0.guard, c0.keys.Keys, k);
      assert j[..|j|] == j && j[..0] == [];
      assert OnWay(c0, x, 0);
      hide Schedule, OnWay, RoomAt, Passed;
      forall es | Schedule(d, j, es, keys) ensures p[k] !in LateKeys.Refused(d, j, es) { ScheduleOnWay(d, x, es, 0); }
    } else {
      OneKeyFirstRefuses(c0, authors, j, keys, k);
      var es := OneKeyFirst(c0, authors, j, c0.keys.Keys + {p[k].keyEpoch}, keys);
      assert Schedule(d, j, es, keys) && p[k] in LateKeys.Refused(d, j, es);
    }
  }
}
