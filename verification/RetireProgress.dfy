/**
 When a waiting retire can end: exactly if its thread is not one of a set of threads that all wait for each other.
 */
module RetireProgress {
  import opened MediaSlots

  function Waited(th: Thread): Handle
    requires Waits(th)
  {
    Innermost(th).handle
  }

  /** Each thread of the set waits, for an object that another thread of the set is inside of. */
  ghost predicate Deadlocked(s: State, ts: set<nat>) {
    forall u {:trigger Held(s, ts, u)} :: u in ts ==> Held(s, ts, u)
  }

  ghost predicate Held(s: State, ts: set<nat>, u: nat) {
    && u < |s.threads| && Waits(s.threads[u]) && Waited(s.threads[u]) in s.slots
    && exists v :: v in ts && Blocks(s, v, u)
  }

  ghost predicate Blocks(s: State, v: nat, u: nat) {
    && u < |s.threads| && v < |s.threads| && u != v && Waits(s.threads[u])
    && Inside(s.threads[v].stack, Waited(s.threads[u])) > 0
  }

  /** Some steps of the other threads let the retire end; no handle is retired twice. */
  ghost predicate CanEnd(s: State, asked: set<Handle>, t: nat) {
    exists es :: EndsAfter(s, asked, t, es)
  }

  ghost predicate EndsAfter(s: State, asked: set<Handle>, t: nat, es: seq<Event>) {
    && Runs(s, es) && OncePerHandle(asked, es) && (forall e :: e in es ==> e.t != t)
    && Enabled(Run(s, es), EndRetire(t))
  }

  // ── a deadlock lasts ──────────────────────────────────────────────────────

  lemma BlockedCannotEnd(s: State, u: nat, v: nat)
    requires Inv(s) && Blocks(s, v, u) && Waited(s.threads[u]) in s.slots
    ensures !Enabled(s, EndRetire(u))
  {
    WaitEndsIff(s, u);
    OthersAreSome(s.threads, u, v, Waited(s.threads[u]));
  }

  /** What a step does to the other threads, and to the objects that are there. */
  lemma StepAround(s: State, e: Event)
    requires Inv(s) && Enabled(s, e)
    ensures var d := Step(s, e);
      && |d.threads| == |s.threads| && e.t < |s.threads|
      && (forall u :: 0 <= u < |s.threads| && u != e.t ==> d.threads[u] == s.threads[u])
      && (forall h :: h in s.slots && h !in d.slots ==> Waits(s.threads[e.t]) && h == Waited(s.threads[e.t]))
      && (forall h :: h in d.slots && h !in s.slots ==> e.Add?)
      && (Waits(s.threads[e.t]) ==> e == EndRetire(e.t))
  {
    StepKeepsThread(s, e);
    assert Step(s, e).threads == s.threads[e.t := Step(s, e).threads[e.t]];
  }

  lemma StepKeepsDeadlock(s: State, asked: set<Handle>, ts: set<nat>, e: Event)
    requires Inv(s) && Orderly(s, asked) && Deadlocked(s, ts) && Enabled(s, e)
    ensures e.t !in ts && Deadlocked(Step(s, e), ts)
  {
    StepAround(s, e);
    if e.t in ts {
      assert Held(s, ts, e.t);
      var v :| v in ts && Blocks(s, v, e.t);
      BlockedCannotEnd(s, e.t, v);
    }
    var d := Step(s, e);
    hide Step, Enabled, Inv;
    forall u | u in ts ensures Held(d, ts, u) {
      assert Held(s, ts, u);
      assert u != e.t && d.threads[u] == s.threads[u];
      if Waits(s.threads[e.t]) { DifferentObjects(s, asked, u, e.t); }
      var v :| v in ts && Blocks(s, v, u);
      assert v != e.t by { assert v in ts; }
      assert d.threads[v] == s.threads[v];
      assert Blocks(d, v, u);
    }
  }

  lemma DifferentObjects(s: State, asked: set<Handle>, u: nat, v: nat)
    requires Orderly(s, asked) && u < |s.threads| && v < |s.threads| && u != v && Waits(s.threads[u]) && Waits(s.threads[v])
    ensures Waited(s.threads[u]) != Waited(s.threads[v])
  {
    assert if u < v then Innermost(s.threads[u]).handle != Innermost(s.threads[v]).handle
           else Innermost(s.threads[v]).handle != Innermost(s.threads[u]).handle;
  }

  lemma {:induction false} RunKeepsDeadlock(s: State, asked: set<Handle>, ts: set<nat>, es: seq<Event>)
    requires Inv(s) && Orderly(s, asked) && Deadlocked(s, ts) && Runs(s, es) && OncePerHandle(asked, es)
    ensures Inv(Run(s, es)) && Deadlocked(Run(s, es), ts)
    decreases |es|
  {
    if es != [] {
      StepKeepsDeadlock(s, asked, ts, es[0]);
      StepKeepsOrder(s, es[0], asked);
      StepKeepsInv(s, es[0]);
      hide Inv, Step, Enabled, Orderly, Deadlocked;
      RunKeepsDeadlock(Step(s, es[0]), Asked(asked, es[0]), ts, es[1..]);
    }
  }

  // ── without one, the others can go on ─────────────────────────────────────

  /** Steps left to a thread that starts nothing new. */
  function Left(th: Thread): nat {
    if th.stack == [] then 0
    else 3 * |th.stack| - if Top(th, Entered) then 0 else if Top(th, Running) then 1 else 2
  }

  function LeftAll(threads: seq<Thread>): nat {
    if threads == [] then 0 else LeftAll(threads[..|threads| - 1]) + Left(threads[|threads| - 1])
  }

  lemma {:induction false} LeftAllUpdate(threads: seq<Thread>, t: nat, th: Thread)
    requires t < |threads|
    ensures LeftAll(threads[t := th]) == LeftAll(threads) - Left(threads[t]) + Left(th)
    decreases |threads|
  {
    var k := |threads| - 1;
    if t == k {
      assert threads[t := th][..k] == threads[..k];
    } else {
      assert threads[t := th][..k] == threads[..k][t := th];
      LeftAllUpdate(threads[..k], t, th);
    }
  }

  /** A step that ends something. */
  predicate Finishes(s: State, e: Event) {
    Enabled(s, e) && (e.Start? || e.Finish? || e.Leave? || e.EndRetire?)
  }

  lemma FinishingLeavesLess(s: State, e: Event)
    requires Inv(s) && Finishes(s, e)
    ensures LeftAll(Step(s, e).threads) < LeftAll(s.threads)
    ensures !Waits(Step(s, e).threads[e.t])
  {
    var th, d := s.threads[e.t], Step(s, e).threads[e.t];
    assert ThreadOk(th);
    if e.Leave? || e.EndRetire? { PopKeepsThread(th); }
    assert Step(s, e).threads == s.threads[e.t := d];
    LeftAllUpdate(s.threads, e.t, d);
  }

  /** Steps that end something bring no deadlock about. */
  lemma FinishingDeadlocksNobody(s: State, e: Event, ts: set<nat>)
    requires Inv(s) && Finishes(s, e) && Deadlocked(Step(s, e), ts)
    ensures Deadlocked(s, ts)
  {
    var d := Step(s, e);
    FinishingLeavesLess(s, e);
    StepAround(s, e);
    hide Step, Enabled, Inv;
    assert e.t in ts ==> Held(d, ts, e.t);
    forall u | u in ts ensures Held(s, ts, u) {
      assert Held(d, ts, u);
      assert u != e.t && d.threads[u] == s.threads[u];
      var v :| v in ts && Blocks(d, v, u);
      assert v != e.t && d.threads[v] == s.threads[v];
      assert Blocks(s, v, u);
    }
  }

  lemma {:induction false} InsideSomeStack(stack: seq<Frame>, h: Handle)
    ensures Inside(stack, h) > 0 ==> stack != []
  {
  }

  lemma {:induction false} SomeoneInside(threads: seq<Thread>, t: nat, h: Handle) returns (v: nat)
    requires t < |threads| && InsideOthers(threads, t, h) > 0
    ensures v < |threads| && v != t && Inside(threads[v].stack, h) > 0
    decreases |threads|
  {
    var k := |threads| - 1;
    if t == k {
      v := AnyInside(threads[..k], h);
    } else if Inside(threads[k].stack, h) > 0 {
      v := k;
    } else {
      v := SomeoneInside(threads[..k], t, h);
    }
  }

  lemma {:induction false} AnyInside(threads: seq<Thread>, h: Handle) returns (v: nat)
    requires InsideAll(threads, h) > 0
    ensures v < |threads| && Inside(threads[v].stack, h) > 0
    decreases |threads|
  {
    var k := |threads| - 1;
    if Inside(threads[k].stack, h) > 0 { v := k; } else { v := AnyInside(threads[..k], h); }
  }

  /** A thread that is in the middle of something can finish it, unless it waits and another is inside of what it waits for. */
  lemma CanFinishOrIsBlocked(s: State, u: nat)
    requires Inv(s) && u < |s.threads| && s.threads[u].stack != []
    ensures (exists e :: Finishes(s, e) && e.t == u)
         || (Waits(s.threads[u]) && Waited(s.threads[u]) in s.slots && !Enabled(s, EndRetire(u)))
  {
    var th := s.threads[u];
    assert ThreadOk(th);
    if Waits(th) {
      if Enabled(s, EndRetire(u)) { assert Finishes(s, EndRetire(u)); }
    } else if Top(th, Entered) {
      assert Finishes(s, Start(u));
    } else if Top(th, Leaving) {
      assert Finishes(s, Leave(u));
    } else {
      assert th.active != [];
      assert Finishes(s, Finish(u));
    }
  }

  /** If nobody else can finish anything and the retire cannot end, those in the middle of something are deadlocked. */
  lemma StuckIsDeadlocked(s: State, t: nat) returns (ts: set<nat>)
    requires Inv(s) && t < |s.threads| && Waits(s.threads[t]) && !Enabled(s, EndRetire(t))
    requires forall e :: Finishes(s, e) ==> e.t == t
    ensures t in ts && Deadlocked(s, ts)
  {
    ts := set u | 0 <= u < |s.threads| && s.threads[u].stack != [];
    forall u | u in ts ensures Held(s, ts, u) {
      CanFinishOrIsBlocked(s, u);
      assert !Enabled(s, EndRetire(u));
      WaitEndsIff(s, u);
      var v := SomeoneInside(s.threads, u, Waited(s.threads[u]));
      InsideSomeStack(s.threads[v].stack, Waited(s.threads[u]));
      assert v in ts && Blocks(s, v, u);
    }
  }

  lemma {:induction false} EndsWithoutDeadlock(s: State, asked: set<Handle>, t: nat) returns (es: seq<Event>)
    requires Inv(s) && t < |s.threads| && Waits(s.threads[t])
    requires forall ts :: t in ts ==> !Deadlocked(s, ts)
    ensures EndsAfter(s, asked, t, es)
    decreases LeftAll(s.threads)
  {
    if Enabled(s, EndRetire(t)) {
      es := [];
      hide Inv, Step, Deadlocked, LeftAll;
    } else {
      if forall e :: Finishes(s, e) ==> e.t == t {
        var ts := StuckIsDeadlocked(s, t);
        assert false;
      }
      var e :| Finishes(s, e) && e.t != t;
      FinishingLeavesLess(s, e);
      OthersOnlyLeave(s, t, e);
      StepKeepsInv(s, e);
      forall ts | t in ts ensures !Deadlocked(Step(s, e), ts) {
        if Deadlocked(Step(s, e), ts) { FinishingDeadlocksNobody(s, e, ts); }
      }
      hide Inv, Step, Enabled, Deadlocked, LeftAll;
      var more := EndsWithoutDeadlock(Step(s, e), asked, t);
      es := [e] + more;
      assert es[0] == e && es[1..] == more && Asked(asked, e) == asked;
    }
  }

  /**
   A retire can be brought to its end by the other threads if and only if there is no set of threads, its own among
   them, of which each waits for an object that another of the set is inside of.
   */
  lemma RetireCanEndIffNotDeadlocked(s: State, asked: set<Handle>, t: nat)
    requires Inv(s) && Orderly(s, asked) && t < |s.threads| && Waits(s.threads[t])
    ensures CanEnd(s, asked, t) <==> forall ts :: t in ts ==> !Deadlocked(s, ts)
  {
    if CanEnd(s, asked, t) {
      var es :| EndsAfter(s, asked, t, es);
      forall ts | t in ts ensures !Deadlocked(s, ts) {
        if Deadlocked(s, ts) { DeadlockedNeverEnds(s, asked, t, ts, es); }
      }
    } else if forall ts :: t in ts ==> !Deadlocked(s, ts) {
      var es := EndsWithoutDeadlock(s, asked, t);
    }
  }

  lemma DeadlockedNeverEnds(s: State, asked: set<Handle>, t: nat, ts: set<nat>, es: seq<Event>)
    requires Inv(s) && Orderly(s, asked) && Deadlocked(s, ts) && t in ts
    requires Runs(s, es) && OncePerHandle(asked, es)
    ensures !Enabled(Run(s, es), EndRetire(t))
  {
    RunKeepsDeadlock(s, asked, ts, es);
    var d := Run(s, es);
    hide Run, Runs, Inv;
    assert Held(d, ts, t);
    var v :| v in ts && Blocks(d, v, t);
    BlockedCannotEnd(d, t, v);
  }

  lemma BlockerWaits(s: State, ts: set<nat>, u: nat)
    requires Deadlocked(s, ts) && u in ts
    ensures exists v: nat :: v < |s.threads| && Blocks(s, v, u) && Waits(s.threads[v])
  {
    assert Held(s, ts, u);
    var v :| v in ts && Blocks(s, v, u);
    assert Held(s, ts, v);
  }

  /** In particular it can if no other thread that is inside of the object is itself waiting in a retire. */
  lemma RetireEndsIfNoOtherWaits(s: State, asked: set<Handle>, t: nat)
    requires Inv(s) && Orderly(s, asked) && t < |s.threads| && Waits(s.threads[t])
    requires forall u :: 0 <= u < |s.threads| && Blocks(s, u, t) ==> !Waits(s.threads[u])
    ensures CanEnd(s, asked, t)
  {
    forall ts | t in ts ensures !Deadlocked(s, ts) {
      if Deadlocked(s, ts) { BlockerWaits(s, ts, t); }
    }
    RetireCanEndIffNotDeadlocked(s, asked, t);
  }

  // ── two retires that wait for each other ──────────────────────────────────

  const IN_ONE := Thread([Call(1, Running)], [1])
  const IN_TWO := Thread([Call(2, Running)], [2])
  const ONE_WAITS := Thread([Call(1, Running), Retiring(2, 0)], [1])
  const TWO_WAITS := Thread([Call(2, Running), Retiring(1, 0)], [2])

  function Both(slots: map<Handle, Slot>, zero: Thread, one: Thread): State {
    State(slots, 3, [zero, one])
  }

  lemma BothAfter(slots: map<Handle, Slot>, zero: Thread, one: Thread, e: Event, d: State)
    requires Enabled(Both(slots, zero, one), e) && |d.threads| == 2
    requires var s := Step(Both(slots, zero, one), e);
      s.next == d.next && s.slots == d.slots && |s.threads| == 2 && s.threads[0] == d.threads[0] && s.threads[1] == d.threads[1]
    ensures Step(Both(slots, zero, one), e) == d
  {
    assert Step(Both(slots, zero, one), e).threads == d.threads;
  }

  /** Two objects, and each thread inside a callback of one of them. */
  lemma EachInsideOne() returns (es: seq<Event>)
    ensures Runs(Start0(2), es) && OncePerHandle({}, es) && forall e :: e in es ==> !e.BeginRetire?
    ensures Run(Start0(2), es) == Both(map[1 := Slot(1, false), 2 := Slot(1, false)], IN_ONE, IN_TWO)
  {
    var s0, entering := Start0(2), Thread([Call(1, Entered)], []);
    var s2 := Both(map[1 := Slot(0, false), 2 := Slot(0, false)], IDLE, IDLE);
    var s3 := Both(map[1 := Slot(1, false), 2 := Slot(0, false)], entering, IDLE);
    var s4 := Both(s3.slots, IN_ONE, IDLE);
    var s5 := Both(map[1 := Slot(1, false), 2 := Slot(1, false)], IN_ONE, Thread([Call(2, Entered)], []));
    assert s0.threads == [IDLE, IDLE];
    OneStepMore(s0, [], Add(0), s0.(slots := map[1 := Slot(0, false)], next := 2));
    OneStepMore(s0, [Add(0)], Add(0), s2);
    es := [Add(0)] + [Add(0)];
    hide Runs, Run;
    BothAfter(s2.slots, IDLE, IDLE, Enter(0, 1), s3);
    OneStepMore(s0, es, Enter(0, 1), s3);
    es := es + [Enter(0, 1)];
    BothAfter(s3.slots, entering, IDLE, Start(0), s4);
    OneStepMore(s0, es, Start(0), s4);
    es := es + [Start(0)];
    BothAfter(s4.slots, IN_ONE, IDLE, Enter(1, 2), s5);
    OneStepMore(s0, es, Enter(1, 2), s5);
    es := es + [Enter(1, 2)];
    BothAfter(s5.slots, IN_ONE, Thread([Call(2, Entered)], []), Start(1), Both(s5.slots, IN_ONE, IN_TWO));
    OneStepMore(s0, es, Start(1), Both(s5.slots, IN_ONE, IN_TWO));
    es := es + [Start(1)];
    OnceIfNone({}, es);
  }

  lemma {:induction false} OnceIfNone(asked: set<Handle>, es: seq<Event>)
    requires forall e :: e in es ==> !e.BeginRetire?
    ensures OncePerHandle(asked, es)
    decreases |es|
  {
    if es != [] {
      assert es[0] in es && forall e :: e in es[1..] ==> e in es;
      OnceIfNone(asked, es[1..]);
    }
  }

  lemma {:induction false} OnceAppend(asked: set<Handle>, es: seq<Event>, e: Event)
    requires OncePerHandle(asked, es) && (e.BeginRetire? ==> e.h !in asked && forall d :: d in es && d.BeginRetire? ==> d.h != e.h)
    ensures OncePerHandle(asked, es + [e])
    decreases |es|
  {
    if es != [] {
      assert (es + [e])[0] == es[0] && (es + [e])[1..] == es[1..] + [e];
      assert es[0] in es && forall d :: d in es[1..] ==> d in es;
      OnceAppend(Asked(asked, es[0]), es[1..], e);
    } else {
      assert [] + [e] == [e] && [e][1..] == [];
    }
  }

  /**
   Two threads that each retire the object whose callback the other one is in wait for each other for ever: no step
   is left to either, though no handle is retired twice.
   */
  lemma CrossedRetiresWaitForEver() returns (es: seq<Event>)
    ensures Runs(Start0(2), es) && OncePerHandle({}, es)
    ensures var s := Run(Start0(2), es);
      && s.threads == [ONE_WAITS, TWO_WAITS] && Deadlocked(s, {0, 1})
      && forall e :: !Enabled(s, e)
  {
    es := EachInsideOne();
    var s0, s6 := Start0(2), Run(Start0(2), es);
    var s7 := Both(map[1 := Slot(1, false), 2 := Slot(1, true)], ONE_WAITS, IN_TWO);
    var s8 := Both(map[1 := Slot(1, true), 2 := Slot(1, true)], ONE_WAITS, TWO_WAITS);
    assert Count([1], 2) == 0 && Count([2], 1) == 0 by { assert [1][..0] == [] && [2][..0] == []; }
    hide Runs, Run;
    BothAfter(s6.slots, IN_ONE, IN_TWO, BeginRetire(0, 2), s7);
    BothAfter(s7.slots, ONE_WAITS, IN_TWO, BeginRetire(1, 1), s8);
    OneStepMore(s0, es, BeginRetire(0, 2), s7);
    OnceAppend({}, es, BeginRetire(0, 2));
    es := es + [BeginRetire(0, 2)];
    OneStepMore(s0, es, BeginRetire(1, 1), s8);
    OnceAppend({}, es, BeginRetire(1, 1));
    es := es + [BeginRetire(1, 1)];
    assert Inside(IN_ONE.stack, 1) == 1 && Inside(IN_TWO.stack, 2) == 1;
    InsidePush(IN_ONE.stack, Retiring(2, 0), 1);
    InsidePush(IN_TWO.stack, Retiring(1, 0), 2);
    assert ONE_WAITS.stack == IN_ONE.stack + [Retiring(2, 0)] && TWO_WAITS.stack == IN_TWO.stack + [Retiring(1, 0)];
    assert Blocks(s8, 0, 1) && Blocks(s8, 1, 0);
  }
}
