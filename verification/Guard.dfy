/**
 The Lamport clock of a device, which also refuses stamps too far ahead of everything seen.
 The clock is the greatest number seen; a stamp may overtake it by at most `JUMP`.
 */
module Guard {
  import opened Prelude

  const JUMP: nat := 0x10_0000

  predicate Accepts(max: u64, lamport: u64) {
    lamport != 0 && lamport <= SatAdd(max, JUMP)
  }

  /** The clock after a check; a refused stamp leaves it alone. */
  function Check(max: u64, lamport: u64): u64 {
    if Accepts(max, lamport) then Max(max, lamport) else max
  }

  function Raise(max: u64, to: u64): u64 {
    Max(max, to)
  }

  function Tick(max: u64): u64 {
    SatAdd(max, 1)
  }

  datatype Checked = Checked(max: u64, ok: bool)

  /** The stamps of one operation, in order, up to the first refusal. What was raised before it stays raised. */
  function CheckAll(max: u64, lamports: seq<u64>): Checked
    decreases |lamports|
  {
    if lamports == [] then Checked(max, true)
    else if !Accepts(max, lamports[0]) then Checked(max, false)
    else CheckAll(Check(max, lamports[0]), lamports[1..])
  }

  /** A clock that is ahead accepts all that a slower one does, and stays ahead either way. */
  lemma {:induction false} AheadAcceptsMore(slow: u64, fast: u64, lamports: seq<u64>)
    requires slow <= fast
    ensures CheckAll(slow, lamports).ok ==> CheckAll(fast, lamports).ok
    ensures CheckAll(slow, lamports).max <= CheckAll(fast, lamports).max
    ensures slow <= CheckAll(slow, lamports).max
    decreases |lamports|
  {
    if lamports != [] {
      if Accepts(slow, lamports[0]) {
        AheadAcceptsMore(Check(slow, lamports[0]), Check(fast, lamports[0]), lamports[1..]);
      } else {
        AheadAcceptsMore(slow, slow, lamports[1..]);
        CheckAllNeverLowers(fast, lamports);
      }
    }
  }

  lemma {:induction false} CheckAllNeverLowers(max: u64, lamports: seq<u64>)
    ensures max <= CheckAll(max, lamports).max
    decreases |lamports|
  {
    if lamports != [] && Accepts(max, lamports[0]) {
      CheckAllNeverLowers(Check(max, lamports[0]), lamports[1..]);
    }
  }

  /** After an accepted operation the clock is the greater of what it was and the operation's stamps. */
  lemma {:induction false} AcceptedRaisesExactly(max: u64, lamports: seq<u64>)
    requires CheckAll(max, lamports).ok
    ensures forall l :: l in lamports ==> 0 < l <= CheckAll(max, lamports).max
    ensures CheckAll(max, lamports).max == max || CheckAll(max, lamports).max in lamports
    decreases |lamports|
  {
    if lamports != [] {
      AcceptedRaisesExactly(Check(max, lamports[0]), lamports[1..]);
      CheckAllNeverLowers(Check(max, lamports[0]), lamports[1..]);
      assert lamports == [lamports[0]] + lamports[1..];
    }
  }

  // ── acceptance and order ──────────────────────────────────────────────────

  /** Operations taken one after another: does each one pass? */
  predicate AllPass(max: u64, ops: seq<seq<u64>>)
    decreases |ops|
  {
    ops == [] || (CheckAll(max, ops[0]).ok && AllPass(CheckAll(max, ops[0]).max, ops[1..]))
  }

  ghost predicate Reorders(order: seq<seq<u64>>, ops: seq<seq<u64>>) {
    multiset(order) == multiset(ops)
  }

  lemma {:induction false} AloneThenTogether(base: u64, max: u64, ops: seq<seq<u64>>)
    requires base <= max
    requires forall op :: op in ops ==> CheckAll(base, op).ok
    ensures AllPass(max, ops)
    decreases |ops|
  {
    if ops != [] {
      AheadAcceptsMore(base, max, ops[0]);
      CheckAllNeverLowers(max, ops[0]);
      AloneThenTogether(base, CheckAll(max, ops[0]).max, ops[1..]);
    }
  }

  /**
   The order in which operations are opened matters to the guard exactly when some operation
   could not have come first: all orders are accepted iff each operation passes on its own.
   */
  lemma EveryOrderPassesIffEachPassesFirst(max: u64, ops: seq<seq<u64>>)
    ensures (forall order :: Reorders(order, ops) ==> AllPass(max, order))
       <==> (forall op :: op in ops ==> CheckAll(max, op).ok)
  {
    if forall op :: op in ops ==> CheckAll(max, op).ok {
      forall order | Reorders(order, ops) ensures AllPass(max, order) {
        forall op | op in order ensures CheckAll(max, op).ok { assert op in multiset(order); }
        AloneThenTogether(max, max, order);
      }
    } else {
      var i :| 0 <= i < |ops| && !CheckAll(max, ops[i]).ok;
      var order := [ops[i]] + ops[..i] + ops[i + 1..];
      assert ops == ops[..i] + [ops[i]] + ops[i + 1..];
      assert Reorders(order, ops) && order[0] == ops[i];
      assert !AllPass(max, order);
      assert ops[i] in ops;
    }
  }

  /** Order matters: with a clock at zero, the second of two operations cannot be opened first. */
  lemma OrderCanDecide()
    ensures AllPass(0, [[JUMP], [2 * JUMP]]) && !AllPass(0, [[2 * JUMP], [JUMP]])
  {
    var first, second: seq<u64> := [JUMP], [2 * JUMP];
    assert CheckAll(0, first) == Checked(JUMP, true);
    assert CheckAll(JUMP, second) == Checked(2 * JUMP, true);
    assert [first, second][1..] == [second];
    assert AllPass(JUMP, [second]);
    assert !CheckAll(0, second).ok;
  }

  // ── restoring the clock ───────────────────────────────────────────────────

  /** The largest saved clock the planner's stepping loop restores. */
  const LAST_RESTORABLE: nat := U64_MAX - JUMP + 1

  /** Addition of two unsigned 64-bit numbers as the processor does it. */
  function WrapAdd(a: u64, b: u64): u64 {
    if a + b <= U64_MAX then a + b else a + b - U64_MAX - 1
  }

  /** `k` whole jumps. */
  function Jumps(k: nat): (n: nat)
    ensures n == k * JUMP
  {
    k * 0x10_0000
  }

  /**
   The planner's clock after `k` checks of the restore loop: each step aims one jump ahead, or at
   the saved value if that is nearer.
   */
  function Trail(saved: u64, k: nat): u64 {
    if k == 0 then 0
    else
      var max := Trail(saved, k - 1);
      if max < saved then Check(max, Min(WrapAdd(max, JUMP), saved)) else max
  }

  lemma {:induction false} TrailIsAStaircase(saved: u64, k: nat)
    requires saved <= LAST_RESTORABLE || Jumps(k) <= LAST_RESTORABLE
    ensures Trail(saved, k) == Min(Jumps(k), saved)
  {
    if k > 0 {
      TrailIsAStaircase(saved, k - 1);
      assert Jumps(k) == Jumps(k - 1) + 0x10_0000;
    }
  }

  lemma {:induction false} TrailStalls(saved: u64, k: nat)
    requires LAST_RESTORABLE < saved
    ensures Trail(saved, k) == Min(Jumps(k), LAST_RESTORABLE)
  {
    if Jumps(k) <= LAST_RESTORABLE {
      TrailIsAStaircase(saved, k);
    } else {
      TrailStalls(saved, k - 1);
      assert Jumps(0xFFF_FFFF_FFFF) == LAST_RESTORABLE;
      assert Trail(saved, k - 1) == LAST_RESTORABLE;
      assert WrapAdd(LAST_RESTORABLE, JUMP) == 0;
    }
  }

  /** The restore loop ends iff the saved clock leaves room for the last addition. */
  lemma RestoreEndsIffThereIsRoom(saved: u64)
    ensures (exists k: nat :: Trail(saved, k) == saved) <==> saved <= LAST_RESTORABLE
  {
    if saved <= LAST_RESTORABLE {
      TrailIsAStaircase(saved, saved);
      assert Trail(saved, saved) == saved;
    } else {
      forall k: nat ensures Trail(saved, k) != saved { TrailStalls(saved, k); }
    }
  }

  /**
   The planner's restore: step up in jumps the guard accepts, in no more checks than whole jumps
   cover the saved value. It agrees with raising directly, as the cloud does.
   */
  method RestoreBySteps(saved: u64) returns (max: u64, ghost checks: nat)
    requires saved <= LAST_RESTORABLE
    ensures max == saved == Raise(0, saved)
    ensures Jumps(checks) < saved + JUMP
  {
    max, checks := 0, 0;
    if saved > 0 {
      max, checks := Check(max, Min(saved, JUMP)), 1;
      while max < saved
        invariant 0 < checks && 0 < max == Min(Jumps(checks), saved) && Jumps(checks) < saved + JUMP
        decreases saved - max
      {
        assert max + JUMP <= U64_MAX;
        var next := Min(max + JUMP, saved);
        max, checks := Check(max, next), checks + 1;
      }
    }
  }
}
