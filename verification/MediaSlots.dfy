/**
 The registry of call media bridges: callbacks on any number of threads, nested or not, against threads that retire.
 */
module MediaSlots {
  type Handle = nat

  datatype Slot = Slot(inflight: int, dead: bool)

  /** Where a call into the registry stands: counted but not started, running, or over but still counted. */
  datatype Phase = Entered | Running | Leaving

  /** What a thread is in the middle of; a `Retiring` frame waits, `own` having been counted when it began. */
  datatype Frame = Call(handle: Handle, phase: Phase) | Retiring(handle: Handle, own: nat)

  /** A thread: its nested calls, innermost last, and its list of handles whose callback runs on it. */
  datatype Thread = Thread(stack: seq<Frame>, active: seq<Handle>)

  datatype State = State(slots: map<Handle, Slot>, next: Handle, threads: seq<Thread>)

  datatype Event =
    | Add(t: nat) | Enter(t: nat, h: Handle) | Start(t: nat) | Finish(t: nat) | Leave(t: nat)
    | BeginRetire(t: nat, h: Handle) | EndRetire(t: nat)

  function Count(xs: seq<Handle>, h: Handle): nat {
    if xs == [] then 0 else Count(xs[..|xs| - 1], h) + if xs[|xs| - 1] == h then 1 else 0
  }

  // ── the atomic steps ──────────────────────────────────────────────────────

  /** The thread runs code of its own: it is idle, or inside a callback. */
  predicate Free(th: Thread) {
    th.stack == [] || (th.stack[|th.stack| - 1].Call? && th.stack[|th.stack| - 1].phase == Running)
  }

  predicate Top(th: Thread, p: Phase) {
    th.stack != [] && th.stack[|th.stack| - 1].Call? && th.stack[|th.stack| - 1].phase == p
  }

  predicate Waits(th: Thread) {
    th.stack != [] && th.stack[|th.stack| - 1].Retiring?
  }

  function Innermost(th: Thread): Frame
    requires th.stack != []
  {
    th.stack[|th.stack| - 1]
  }

  function Popped(th: Thread): seq<Frame>
    requires th.stack != []
  {
    th.stack[..|th.stack| - 1]
  }

  /** What a waiting retire waits for. */
  predicate MayEnd(s: State, f: Frame)
    requires f.Retiring?
  {
    f.handle !in s.slots || s.slots[f.handle].inflight <= f.own
  }

  predicate Enabled(s: State, e: Event) {
    && e.t < |s.threads|
    && var th := s.threads[e.t];
      match e
      case Add(_) => Free(th)
      case Enter(_, _) => Free(th)
      case Start(_) => Top(th, Entered)
      case Finish(_) => Top(th, Running) && th.active != []
      case Leave(_) => Top(th, Leaving)
      case BeginRetire(_, _) => Free(th)
      case EndRetire(_) => Waits(th) && MayEnd(s, Innermost(th))
  }

  function Step(s: State, e: Event): State
    requires Enabled(s, e)
  {
    var th := s.threads[e.t];
    match e
    case Add(t) => s.(slots := s.slots[s.next := Slot(0, false)], next := s.next + 1)
    case Enter(t, h) =>
      if h !in s.slots || s.slots[h].dead then s
      else State(s.slots[h := s.slots[h].(inflight := s.slots[h].inflight + 1)], s.next,
                 s.threads[t := th.(stack := th.stack + [Call(h, Entered)])])
    case Start(t) =>
      var h := Innermost(th).handle;
      s.(threads := s.threads[t := Thread(Popped(th) + [Call(h, Running)], th.active + [h])])
    case Finish(t) =>
      s.(threads := s.threads[t := Thread(Popped(th) + [Call(Innermost(th).handle, Leaving)], th.active[..|th.active| - 1])])
    case Leave(t) =>
      var h := Innermost(th).handle;
      State(if h in s.slots then s.slots[h := s.slots[h].(inflight := s.slots[h].inflight - 1)] else s.slots, s.next,
            s.threads[t := th.(stack := Popped(th))])
    case BeginRetire(t, h) =>
      if h !in s.slots then s
      else State(s.slots[h := s.slots[h].(dead := true)], s.next,
                 s.threads[t := th.(stack := th.stack + [Retiring(h, Count(th.active, h))])])
    case EndRetire(t) =>
      State(s.slots - {Innermost(th).handle}, s.next, s.threads[t := th.(stack := Popped(th))])
  }

  /** The steps can be taken one after another. */
  predicate Runs(s: State, es: seq<Event>)
    decreases |es|
  {
    es == [] || (Enabled(s, es[0]) && Runs(Step(s, es[0]), es[1..]))
  }

  function Run(s: State, es: seq<Event>): State
    requires Runs(s, es)
    decreases |es|
  {
    if es == [] then s else Run(Step(s, es[0]), es[1..])
  }

  function Start0(threads: nat): State {
    State(map[], 1, seq(threads, _ => Thread([], [])))
  }

  // ── the registry, one critical section at a time ──────────────────────────

  class Registry {
    var slots: map<Handle, Slot>
    var next: Handle
    var threads: seq<Thread>

    ghost function Now(): State
      reads this
    {
      State(slots, next, threads)
    }

    constructor (n: nat)
      ensures Now() == Start0(n)
    {
      slots, next, threads := map[], 1, seq(n, _ => Thread([], []));
    }

    method AddObject(t: nat) returns (handle: Handle)
      requires Enabled(Now(), Add(t))
      modifies this`slots, this`next
      ensures Now() == Step(old(Now()), Add(t)) && handle == old(next)
    {
      handle, next := next, next + 1;
      slots := slots[handle := Slot(0, false)];
    }

    method EnterCallback(t: nat, h: Handle) returns (found: bool)
      requires Enabled(Now(), Enter(t, h))
      modifies this`slots, this`threads
      ensures Now() == Step(old(Now()), Enter(t, h)) && found == (h in old(slots) && !old(slots)[h].dead)
    {
      if h !in slots || slots[h].dead { return false; }
      slots := slots[h := slots[h].(inflight := slots[h].inflight + 1)];
      threads := threads[t := threads[t].(stack := threads[t].stack + [Call(h, Entered)])];
      return true;
    }

    method StartCallback(t: nat)
      requires Enabled(Now(), Start(t))
      modifies this`threads
      ensures Now() == Step(old(Now()), Start(t))
    {
      var th := threads[t];
      var h := Innermost(th).handle;
      threads := threads[t := Thread(Popped(th) + [Call(h, Running)], th.active + [h])];
    }

    method FinishCallback(t: nat)
      requires Enabled(Now(), Finish(t))
      modifies this`threads
      ensures Now() == Step(old(Now()), Finish(t))
    {
      var th := threads[t];
      threads := threads[t := Thread(Popped(th) + [Call(Innermost(th).handle, Leaving)], th.active[..|th.active| - 1])];
    }

    method LeaveCallback(t: nat)
      requires Enabled(Now(), Leave(t))
      modifies this`slots, this`threads
      ensures Now() == Step(old(Now()), Leave(t))
    {
      var h := Innermost(threads[t]).handle;
      if h in slots { slots := slots[h := slots[h].(inflight := slots[h].inflight - 1)]; }
      threads := threads[t := threads[t].(stack := Popped(threads[t]))];
    }

    /** The first half of a retire: no new callback finds the object. True if there was one to retire. */
    method MarkDead(t: nat, h: Handle) returns (waits: bool)
      requires Enabled(Now(), BeginRetire(t, h))
      modifies this`slots, this`threads
      ensures Now() == Step(old(Now()), BeginRetire(t, h)) && waits == (h in old(slots))
    {
      var own, active := 0, threads[t].active;
      for i := 0 to |active|
        invariant own == Count(active[..i], h)
      {
        assert active[..i + 1][..i] == active[..i];
        if active[i] == h { own := own + 1; }
      }
      assert active[..|active|] == active;
      if h !in slots { return false; }
      slots := slots[h := slots[h].(dead := true)];
      threads := threads[t := threads[t].(stack := threads[t].stack + [Retiring(h, own)])];
      return true;
    }

    /** The second half: the condition waited for holds, and the slot goes. */
    method Erase(t: nat)
      requires Enabled(Now(), EndRetire(t))
      modifies this`slots, this`threads
      ensures Now() == Step(old(Now()), EndRetire(t))
    {
      slots := slots - {Innermost(threads[t]).handle};
      threads := threads[t := threads[t].(stack := Popped(threads[t]))];
    }
  }

  // ── counting the callbacks of an object ───────────────────────────────────

  /** Unfinished callbacks of `h` on one thread. */
  function Inside(stack: seq<Frame>, h: Handle): nat {
    if stack == [] then 0
    else Inside(stack[..|stack| - 1], h) + if stack[|stack| - 1].Call? && stack[|stack| - 1].handle == h then 1 else 0
  }

  /** Unfinished callbacks of `h` over all threads. */
  function InsideAll(threads: seq<Thread>, h: Handle): nat {
    if threads == [] then 0 else InsideAll(threads[..|threads| - 1], h) + Inside(threads[|threads| - 1].stack, h)
  }

  /** Unfinished callbacks of `h` on threads other than `t`. */
  function InsideOthers(threads: seq<Thread>, t: nat, h: Handle): int
    requires t < |threads|
  {
    InsideAll(threads, h) - Inside(threads[t].stack, h)
  }

  function Handles(stack: seq<Frame>): seq<Handle> {
    if stack == [] then []
    else Handles(stack[..|stack| - 1]) + if stack[|stack| - 1] == Call(stack[|stack| - 1].handle, Running) then [stack[|stack| - 1].handle] else []
  }

  lemma InsidePush(stack: seq<Frame>, f: Frame, h: Handle)
    ensures Inside(stack + [f], h) == Inside(stack, h) + if f.Call? && f.handle == h then 1 else 0
    ensures Handles(stack + [f]) == Handles(stack) + if f == Call(f.handle, Running) then [f.handle] else []
  {
    assert (stack + [f])[..|stack|] == stack;
  }

  lemma CountPush(xs: seq<Handle>, x: Handle, h: Handle)
    ensures Count(xs + [x], h) == Count(xs, h) + if x == h then 1 else 0
  {
    assert (xs + [x])[..|xs|] == xs;
  }

  lemma {:induction false} InsideAllUpdate(threads: seq<Thread>, t: nat, th: Thread, h: Handle)
    requires t < |threads|
    ensures InsideAll(threads[t := th], h) == InsideAll(threads, h) - Inside(threads[t].stack, h) + Inside(th.stack, h)
    ensures InsideOthers(threads[t := th], t, h) == InsideOthers(threads, t, h)
    decreases |threads|
  {
    var k := |threads| - 1;
    if t == k {
      assert threads[t := th][..k] == threads[..k];
    } else {
      assert threads[t := th][..k] == threads[..k][t := th];
      InsideAllUpdate(threads[..k], t, th, h);
    }
  }

  lemma {:induction false} OthersAreSome(threads: seq<Thread>, t: nat, u: nat, h: Handle)
    requires t < |threads| && u < |threads| && t != u
    ensures Inside(threads[u].stack, h) <= InsideOthers(threads, t, h)
    decreases |threads|
  {
    var k := |threads| - 1;
    if t == k || u == k {
      AtLeastOne(threads[..k], if t == k then u else t, h);
    } else {
      OthersAreSome(threads[..k], t, u, h);
    }
  }

  lemma {:induction false} AtLeastOne(threads: seq<Thread>, u: nat, h: Handle)
    requires u < |threads|
    ensures Inside(threads[u].stack, h) <= InsideAll(threads, h)
    decreases |threads|
  {
    if u < |threads| - 1 { AtLeastOne(threads[..|threads| - 1], u, h); }
  }

  // ── what every step keeps ─────────────────────────────────────────────────

  /** Below the innermost call all callbacks run; the list of active handles says which; a waiting retire counted them. */
  ghost predicate ThreadOk(th: Thread) {
    && (forall i :: 0 <= i < |th.stack| - 1 ==> th.stack[i] == Call(th.stack[i].handle, Running))
    && th.active == Handles(th.stack)
    && (Waits(th) ==> Innermost(th).own == Inside(th.stack, Innermost(th).handle))
  }

  ghost predicate ThreadsOk(s: State) {
    forall t :: 0 <= t < |s.threads| ==> ThreadOk(s.threads[t])
  }

  /** The counter of every object is the number of its unfinished callbacks, over all threads. */
  ghost predicate Counted(s: State) {
    forall h :: h in s.slots ==> h < s.next && s.slots[h].inflight == InsideAll(s.threads, h)
  }

  ghost predicate Issued(stack: seq<Frame>, next: Handle) {
    forall i :: 0 <= i < |stack| ==> stack[i].handle < next
  }

  ghost predicate AllIssued(s: State) {
    forall t :: 0 <= t < |s.threads| ==> Issued(s.threads[t].stack, s.next)
  }

  ghost predicate WaitedForIsDead(s: State) {
    forall t :: 0 <= t < |s.threads| && Waits(s.threads[t]) ==>
      var h := Innermost(s.threads[t]).handle; h in s.slots ==> s.slots[h].dead
  }

  ghost predicate Inv(s: State) {
    ThreadsOk(s) && Counted(s) && AllIssued(s) && WaitedForIsDead(s)
  }

  lemma {:induction false} CountsOfRunning(stack: seq<Frame>, h: Handle)
    requires forall i :: 0 <= i < |stack| ==> stack[i] == Call(stack[i].handle, Running)
    ensures Count(Handles(stack), h) == Inside(stack, h) && |Handles(stack)| == |stack|
  {
    if stack != [] {
      CountsOfRunning(stack[..|stack| - 1], h);
      CountPush(Handles(stack[..|stack| - 1]), stack[|stack| - 1].handle, h);
    }
  }

  lemma PushKeepsThread(th: Thread, f: Frame)
    requires ThreadOk(th) && Free(th) && (f == Call(f.handle, Entered) || f == Retiring(f.handle, Count(th.active, f.handle)))
    ensures ThreadOk(th.(stack := th.stack + [f]))
  {
    InsidePush(th.stack, f, f.handle);
    CountsOfRunning(th.stack, f.handle);
  }

  lemma PopKeepsThread(th: Thread)
    requires ThreadOk(th) && th.stack != [] && !Top(th, Running)
    ensures ThreadOk(th.(stack := Popped(th))) && Free(th.(stack := Popped(th)))
  {
    assert th.stack == Popped(th) + [Innermost(th)];
    InsidePush(Popped(th), Innermost(th), 0);
  }

  /** The innermost callback goes on to its next phase. */
  predicate Advances(th: Thread, next: Thread) {
    && th.stack != [] && Innermost(th).Call?
    && var h := Innermost(th).handle;
      || (Top(th, Entered) && next == Thread(Popped(th) + [Call(h, Running)], th.active + [h]))
      || (Top(th, Running) && th.active != [] && next == Thread(Popped(th) + [Call(h, Leaving)], th.active[..|th.active| - 1]))
  }

  lemma AdvancingKeepsCounts(th: Thread, next: Thread)
    requires Advances(th, next)
    ensures forall k :: Inside(next.stack, k) == Inside(th.stack, k)
  {
    var f, g := Innermost(th), Call(Innermost(th).handle, if Top(th, Entered) then Running else Leaving);
    assert th.stack == Popped(th) + [f] && next.stack == Popped(th) + [g];
    forall k ensures Inside(next.stack, k) == Inside(th.stack, k) {
      InsidePush(Popped(th), f, k);
      InsidePush(Popped(th), g, k);
    }
  }

  lemma PhaseKeepsThread(th: Thread, next: Thread)
    requires ThreadOk(th) && Advances(th, next)
    ensures ThreadOk(next) && forall k :: Inside(next.stack, k) == Inside(th.stack, k)
  {
    AdvancingKeepsCounts(th, next);
    hide Inside, Handles;
    var below, h, entered := Popped(th), Innermost(th).handle, Top(th, Entered);
    var f, g := Innermost(th), Call(h, if entered then Running else Leaving);
    assert th.stack == below + [f] && next.stack == below + [g];
    InsidePush(below, f, 0);
    InsidePush(below, g, 0);
    assert th.active == Handles(below) + if entered then [] else [h];
    assert next.active == Handles(next.stack);
    assert forall i :: 0 <= i < |next.stack| - 1 ==> next.stack[i] == th.stack[i];
  }

  lemma PushedCounts(s: State, e: Event)
    requires Enabled(s, e) && ThreadOk(s.threads[e.t]) && (e.Enter? || e.BeginRetire?)
    ensures ThreadOk(Step(s, e).threads[e.t])
    ensures forall h :: Inside(Step(s, e).threads[e.t].stack, h) == Inside(s.threads[e.t].stack, h) + Change(s, e, h)
  {
    var th := s.threads[e.t];
    if e.h in s.slots && (e.BeginRetire? || !s.slots[e.h].dead) {
      var f := if e.Enter? then Call(e.h, Entered) else Retiring(e.h, Count(th.active, e.h));
      assert Step(s, e).threads[e.t] == th.(stack := th.stack + [f]);
      PushKeepsThread(th, f);
      forall h ensures Inside(th.stack + [f], h) == Inside(th.stack, h) + Change(s, e, h) { InsidePush(th.stack, f, h); }
    }
  }

  lemma PoppedCounts(s: State, e: Event)
    requires Enabled(s, e) && ThreadOk(s.threads[e.t]) && (e.Leave? || e.EndRetire?)
    ensures ThreadOk(Step(s, e).threads[e.t])
    ensures forall h :: Inside(Step(s, e).threads[e.t].stack, h) == Inside(s.threads[e.t].stack, h) + Change(s, e, h)
  {
    var th := s.threads[e.t];
    PopKeepsThread(th);
    assert th.stack == Popped(th) + [Innermost(th)];
    forall h ensures Inside(th.stack, h) == Inside(Popped(th), h) - Change(s, e, h) { InsidePush(Popped(th), Innermost(th), h); }
  }

  /** The thread that takes the step stays in order, and its unfinished callbacks change as the step says. */
  lemma StepKeepsThread(s: State, e: Event)
    requires Enabled(s, e) && ThreadOk(s.threads[e.t])
    ensures |Step(s, e).threads| == |s.threads| && ThreadOk(Step(s, e).threads[e.t])
    ensures Step(s, e).threads == s.threads[e.t := Step(s, e).threads[e.t]]
    ensures forall h :: Inside(Step(s, e).threads[e.t].stack, h) == Inside(s.threads[e.t].stack, h) + Change(s, e, h)
  {
    var th := s.threads[e.t];
    assert s.threads[e.t := th] == s.threads;
    hide ThreadOk, Inside;
    match e {
      case Enter(_, _) => PushedCounts(s, e);
      case BeginRetire(_, _) => PushedCounts(s, e);
      case Leave(_) => PoppedCounts(s, e);
      case EndRetire(_) => PoppedCounts(s, e);
      case Start(_) => PhaseKeepsThread(th, Step(s, e).threads[e.t]);
      case Finish(_) => PhaseKeepsThread(th, Step(s, e).threads[e.t]);
      case Add(_) =>
    }
  }

  /** How a step changes the number of unfinished callbacks of `h`. */
  function Change(s: State, e: Event, h: Handle): int
    requires Enabled(s, e)
  {
    match e
    case Enter(_, k) => if k == h && k in s.slots && !s.slots[k].dead then 1 else 0
    case Leave(t) => if Innermost(s.threads[t]).handle == h then -1 else 0
    case _ => 0
  }

  lemma StepChangesCounts(s: State, e: Event)
    requires Enabled(s, e) && ThreadOk(s.threads[e.t])
    ensures forall h :: InsideAll(Step(s, e).threads, h) == InsideAll(s.threads, h) + Change(s, e, h)
  {
    StepKeepsThread(s, e);
    hide ThreadOk, Inside, Step, Enabled, Change;
    forall h ensures InsideAll(Step(s, e).threads, h) == InsideAll(s.threads, h) + Change(s, e, h) {
      InsideAllUpdate(s.threads, e.t, Step(s, e).threads[e.t], h);
    }
  }

  /** The counters follow: a callback that leaves after its object is gone touches no other object's counter. */
  lemma StepKeepsCounts(s: State, e: Event)
    requires Inv(s) && Enabled(s, e)
    ensures Counted(Step(s, e)) && s.next <= Step(s, e).next
    ensures forall h :: InsideAll(Step(s, e).threads, h) == InsideAll(s.threads, h) + Change(s, e, h)
  {
    StepChangesCounts(s, e);
    if e.Add? { NobodyInside(s, s.next); }
    hide InsideAll, ThreadOk, Issued;
  }

  lemma ThreadKeepsIssued(s: State, e: Event)
    requires Enabled(s, e) && Counted(s) && Issued(s.threads[e.t].stack, s.next)
    ensures |Step(s, e).threads| == |s.threads| && s.next <= Step(s, e).next
    ensures Issued(Step(s, e).threads[e.t].stack, Step(s, e).next)
  {
    var th := s.threads[e.t];
    if th.stack != [] { assert Innermost(th).handle == th.stack[|th.stack| - 1].handle; }
    hide InsideAll, Count;
  }

  lemma StepKeepsIssued(s: State, e: Event)
    requires Inv(s) && Enabled(s, e)
    ensures AllIssued(Step(s, e))
  {
    var d := Step(s, e);
    assert Issued(s.threads[e.t].stack, s.next);
    ThreadKeepsIssued(s, e);
    StepKeepsThread(s, e);
    hide Step, ThreadOk, Counted;
    forall t | 0 <= t < |d.threads| ensures Issued(d.threads[t].stack, d.next) {
      if t != e.t { assert d.threads[t] == s.threads[t] && Issued(s.threads[t].stack, s.next); }
    }
  }

  lemma StepKeepsInv(s: State, e: Event)
    requires Inv(s) && Enabled(s, e)
    ensures Inv(Step(s, e)) && s.next <= Step(s, e).next
    ensures forall h :: InsideAll(Step(s, e).threads, h) == InsideAll(s.threads, h) + Change(s, e, h)
  {
    StepKeepsThread(s, e);
    StepKeepsCounts(s, e);
    StepKeepsIssued(s, e);
    WaitingStaysDead(s, e);
    hide Step, ThreadOk, Counted, AllIssued, WaitedForIsDead, Change;
  }

  lemma NobodyInside(s: State, h: Handle)
    requires Inv(s) && s.next <= h
    ensures InsideAll(s.threads, h) == 0
  {
    forall t | 0 <= t < |s.threads| ensures Inside(s.threads[t].stack, h) == 0 {
      assert Issued(s.threads[t].stack, s.next);
      NoFrame(s.threads[t].stack, h);
    }
    NoThread(s.threads, h);
  }

  lemma {:induction false} NoFrame(stack: seq<Frame>, h: Handle)
    requires forall i :: 0 <= i < |stack| ==> stack[i].handle != h
    ensures Inside(stack, h) == 0
  {
    if stack != [] { NoFrame(stack[..|stack| - 1], h); }
  }

  lemma {:induction false} NoThread(threads: seq<Thread>, h: Handle)
    requires forall t :: 0 <= t < |threads| ==> Inside(threads[t].stack, h) == 0
    ensures InsideAll(threads, h) == 0
  {
    if threads != [] { NoThread(threads[..|threads| - 1], h); }
  }

  lemma WaitingStaysDead(s: State, e: Event)
    requires Inv(s) && Enabled(s, e)
    ensures WaitedForIsDead(Step(s, e))
  {
    var d := Step(s, e);
    forall t | 0 <= t < |d.threads| && Waits(d.threads[t])
      ensures var h := Innermost(d.threads[t]).handle; h in d.slots ==> d.slots[h].dead
    {
      var h := Innermost(d.threads[t]).handle;
      assert Issued(s.threads[t].stack, s.next);
      if t == e.t {
        if e.Leave? || e.EndRetire? { PopKeepsThread(s.threads[t]); }
      } else {
        assert d.threads[t] == s.threads[t];
        assert h == Innermost(s.threads[t]).handle && h < s.next;
      }
    }
  }

  // ── whole runs ────────────────────────────────────────────────────────────

  lemma {:induction false} RunKeepsInv(s: State, es: seq<Event>)
    requires Inv(s) && Runs(s, es)
    ensures Inv(Run(s, es)) && s.next <= Run(s, es).next && |Run(s, es).threads| == |s.threads|
    decreases |es|
  {
    if es != [] {
      StepKeepsInv(s, es[0]);
      StepKeepsThread(s, es[0]);
      hide Inv, Step, Enabled;
      RunKeepsInv(Step(s, es[0]), es[1..]);
    }
  }

  lemma StartIsInv(n: nat)
    ensures Inv(Start0(n))
  {
  }

  // ── retiring is safe ──────────────────────────────────────────────────────

  /** No handle is retired twice. */
  predicate OncePerHandle(asked: set<Handle>, es: seq<Event>)
    decreases |es|
  {
    es == [] || ((es[0].BeginRetire? ==> es[0].h !in asked) && OncePerHandle(Asked(asked, es[0]), es[1..]))
  }

  function Asked(asked: set<Handle>, e: Event): set<Handle> {
    if e.BeginRetire? then asked + {e.h} else asked
  }

  /** Who waits, waits for an object of their own that is still there. */
  ghost predicate Orderly(s: State, asked: set<Handle>) {
    && (forall t :: 0 <= t < |s.threads| && Waits(s.threads[t]) ==>
          Innermost(s.threads[t]).handle in asked && Innermost(s.threads[t]).handle in s.slots)
    && (forall t, u :: 0 <= t < u < |s.threads| && Waits(s.threads[t]) && Waits(s.threads[u]) ==>
          Innermost(s.threads[t]).handle != Innermost(s.threads[u]).handle)
  }

  lemma WaitsAfter(s: State, e: Event, t: nat)
    requires Inv(s) && Enabled(s, e) && t < |s.threads| && t < |Step(s, e).threads| && Waits(Step(s, e).threads[t])
    ensures if t != e.t then Step(s, e).threads[t] == s.threads[t]
            else e.BeginRetire? && e.h in s.slots && Innermost(Step(s, e).threads[t]).handle == e.h
  {
    if t == e.t && (e.Leave? || e.EndRetire?) { PopKeepsThread(s.threads[t]); }
  }

  lemma StepKeepsOrder(s: State, e: Event, asked: set<Handle>)
    requires Inv(s) && Orderly(s, asked) && Enabled(s, e) && (e.BeginRetire? ==> e.h !in asked)
    ensures Orderly(Step(s, e), Asked(asked, e))
  {
    var d := Step(s, e);
    StepKeepsThread(s, e);
    forall t | 0 <= t < |d.threads| && Waits(d.threads[t])
      ensures Innermost(d.threads[t]).handle in Asked(asked, e) && Innermost(d.threads[t]).handle in d.slots
    {
      WaitsAfter(s, e, t);
      if t != e.t { assert Innermost(s.threads[t]).handle in s.slots; }
    }
    forall t, u | 0 <= t < u < |d.threads| && Waits(d.threads[t]) && Waits(d.threads[u])
      ensures Innermost(d.threads[t]).handle != Innermost(d.threads[u]).handle
    {
      WaitsAfter(s, e, t);
      WaitsAfter(s, e, u);
    }
  }

  lemma {:induction false} RunKeepsOrder(s: State, es: seq<Event>, asked: set<Handle>)
    requires Inv(s) && Orderly(s, asked) && Runs(s, es) && OncePerHandle(asked, es)
    ensures exists now :: Orderly(Run(s, es), now)
    decreases |es|
  {
    if es == [] {
      assert Orderly(Run(s, es), asked);
    } else {
      StepKeepsInv(s, es[0]);
      StepKeepsOrder(s, es[0], asked);
      hide Inv, Step, Enabled, Orderly;
      RunKeepsOrder(Step(s, es[0]), es[1..], Asked(asked, es[0]));
      var now :| Orderly(Run(Step(s, es[0]), es[1..]), now);
      assert Orderly(Run(s, es), now);
    }
  }

  /** A waiting retire may end exactly when no other thread is inside, whatever its own thread is in the middle of. */
  lemma WaitEndsIff(s: State, t: nat)
    requires Inv(s) && t < |s.threads| && Waits(s.threads[t]) && Innermost(s.threads[t]).handle in s.slots
    ensures var f := Innermost(s.threads[t]); MayEnd(s, f) <==> InsideOthers(s.threads, t, f.handle) == 0
  {
    var h := Innermost(s.threads[t]).handle;
    AtLeastOne(s.threads, t, h);
    assert ThreadOk(s.threads[t]);
  }

  /** Once gone, an object is never entered again, and the callbacks still inside it only become fewer. */
  lemma {:induction false} GoneForGood(s: State, es: seq<Event>, h: Handle, u: nat)
    requires Inv(s) && Runs(s, es) && h !in s.slots && h < s.next && u < |s.threads|
    ensures |Run(s, es).threads| == |s.threads| && h !in Run(s, es).slots
    ensures Inside(Run(s, es).threads[u].stack, h) <= Inside(s.threads[u].stack, h)
    decreases |es|
  {
    if es != [] {
      StepKeepsInv(s, es[0]);
      StepKeepsThread(s, es[0]);
      assert h !in Step(s, es[0]).slots && Change(s, es[0], h) <= 0;
      hide Inv, Step, Enabled, Change;
      GoneForGood(Step(s, es[0]), es[1..], h, u);
    }
  }

  /**
   If each handle is retired at most once, then when a retire returns no other thread is inside a callback of
   that object, and none ever will be - whatever is nested in what, on however many threads.
   */
  lemma RetireIsSafe(n: nat, es: seq<Event>, t: nat, more: seq<Event>, u: nat)
    requires Runs(Start0(n), es) && OncePerHandle({}, es) && Enabled(Run(Start0(n), es), EndRetire(t))
    requires Runs(Step(Run(Start0(n), es), EndRetire(t)), more) && u < n && u != t
    ensures var s := Run(Start0(n), es);
      var h, later := Innermost(s.threads[t]).handle, Run(Step(s, EndRetire(t)), more);
      |later.threads| == n && h !in later.slots && Inside(later.threads[u].stack, h) == 0
  {
    StartIsInv(n);
    RunKeepsInv(Start0(n), es);
    RunKeepsOrder(Start0(n), es, {});
    var s := Run(Start0(n), es);
    var h, d := Innermost(s.threads[t]).handle, Step(s, EndRetire(t));
    var now :| Orderly(s, now);
    WaitEndsIff(s, t);
    OthersAreSome(s.threads, t, u, h);
    StepKeepsInv(s, EndRetire(t));
    assert d.threads[u] == s.threads[u] && h !in d.slots;
    assert h < s.next by { assert Counted(s); }
    GoneForGood(d, more, h, u);
  }

  /** While a retire waits, the others' unfinished callbacks of its object only become fewer, one by each that leaves. */
  lemma OthersOnlyLeave(s: State, t: nat, e: Event)
    requires Inv(s) && t < |s.threads| && Waits(s.threads[t]) && Enabled(s, e) && e.t != t
    ensures Step(s, e).threads[t] == s.threads[t] && |Step(s, e).threads| == |s.threads|
    ensures var h := Innermost(s.threads[t]).handle;
      InsideOthers(Step(s, e).threads, t, h) == InsideOthers(s.threads, t, h)
        - if e.Leave? && Innermost(s.threads[e.t]).handle == h then 1 else 0
  {
    StepKeepsThread(s, e);
    StepKeepsInv(s, e);
    assert Step(s, e).threads[t] == s.threads[t];
  }

  lemma {:induction false} OthersOnlyLeaveOver(s: State, t: nat, es: seq<Event>)
    requires Inv(s) && t < |s.threads| && Waits(s.threads[t]) && Runs(s, es) && forall e :: e in es ==> e.t != t
    ensures |Run(s, es).threads| == |s.threads| && Run(s, es).threads[t] == s.threads[t]
    ensures var h := Innermost(s.threads[t]).handle;
      InsideOthers(Run(s, es).threads, t, h) <= InsideOthers(s.threads, t, h)
    decreases |es|
  {
    if es != [] {
      assert es[0] in es && forall e :: e in es[1..] ==> e in es;
      OthersOnlyLeave(s, t, es[0]);
      StepKeepsInv(s, es[0]);
      hide Inv, Step, Enabled;
      OthersOnlyLeaveOver(Step(s, es[0]), t, es[1..]);
    }
  }

  // ── what retiring does not promise ────────────────────────────────────────

  lemma {:induction false} OneStepMore(s: State, es: seq<Event>, e: Event, d: State)
    requires Runs(s, es) && Enabled(Run(s, es), e) && Step(Run(s, es), e) == d
    ensures Runs(s, es + [e]) && Run(s, es + [e]) == d
    decreases |es|
  {
    hide Step, Enabled;
    if es == [] {
      assert [] + [e] == [e] && [e][1..] == [];
    } else {
      assert (es + [e])[0] == es[0] && (es + [e])[1..] == es[1..] + [e];
      OneStepMore(Step(s, es[0]), es[1..], e, d);
    }
  }

  const IDLE := Thread([], [])
  const COUNTED := Thread([Call(1, Entered)], [])
  const INSIDE := Thread([Call(1, Running)], [1])
  const WAITING := Thread([Retiring(1, 0)], [])
  const NESTED := Thread([Call(1, Running), Retiring(1, 1)], [1])

  /** The registry with at most the object of handle 1, and two threads. */
  function Pair(slots: map<Handle, Slot>, zero: Thread, one: Thread): State {
    State(slots, 2, [zero, one])
  }

  lemma PairAfter(slots: map<Handle, Slot>, zero: Thread, one: Thread, e: Event, d: State)
    requires Enabled(Pair(slots, zero, one), e) && d.next == 2 && |d.threads| == 2
    requires var s := Step(Pair(slots, zero, one), e);
      s.next == 2 && s.slots == d.slots && s.threads[0] == d.threads[0] && s.threads[1] == d.threads[1]
    ensures Step(Pair(slots, zero, one), e) == d
  {
    assert Step(Pair(slots, zero, one), e).threads == d.threads;
  }

  /** The second thread comes to be inside a callback of the object. */
  lemma FirstSteps() returns (es: seq<Event>)
    ensures Runs(Start0(2), es) && Run(Start0(2), es) == Pair(map[1 := Slot(1, false)], IDLE, INSIDE)
  {
    var s0, s1, s2 := Start0(2), Pair(map[1 := Slot(0, false)], IDLE, IDLE), Pair(map[1 := Slot(1, false)], IDLE, COUNTED);
    assert s0.threads == [IDLE, IDLE] && Runs(s0, []) && Run(s0, []) == s0;
    hide Runs, Run;
    assert Enabled(s0, Add(0)) && Step(s0, Add(0)) == s1;
    OneStepMore(s0, [], Add(0), s1);
    PairAfter(s1.slots, IDLE, IDLE, Enter(1, 1), s2);
    OneStepMore(s0, [Add(0)], Enter(1, 1), s2);
    PairAfter(s2.slots, IDLE, COUNTED, Start(1), Pair(s2.slots, IDLE, INSIDE));
    OneStepMore(s0, [Add(0), Enter(1, 1)], Start(1), Pair(s2.slots, IDLE, INSIDE));
    es := [Add(0), Enter(1, 1)] + [Start(1)];
  }

  /** The first thread retires it, then the second does, from inside that callback, and ends first. */
  lemma LastSteps() returns (es: seq<Event>)
    ensures Runs(Start0(2), es) && Run(Start0(2), es) == Pair(map[], WAITING, INSIDE)
  {
    var s0, slots, dead := Start0(2), map[1 := Slot(1, false)], map[1 := Slot(1, true)];
    es := FirstSteps();
    hide Runs, Run;
    assert Count([], 1) == 0 && Count([1], 1) == 1;
    PairAfter(slots, IDLE, INSIDE, BeginRetire(0, 1), Pair(dead, WAITING, INSIDE));
    OneStepMore(s0, es, BeginRetire(0, 1), Pair(dead, WAITING, INSIDE));
    es := es + [BeginRetire(0, 1)];
    PairAfter(dead, WAITING, INSIDE, BeginRetire(1, 1), Pair(dead, WAITING, NESTED));
    OneStepMore(s0, es, BeginRetire(1, 1), Pair(dead, WAITING, NESTED));
    es := es + [BeginRetire(1, 1)];
    PairAfter(dead, WAITING, NESTED, EndRetire(1), Pair(map[], WAITING, INSIDE));
    OneStepMore(s0, es, EndRetire(1), Pair(map[], WAITING, INSIDE));
    es := es + [EndRetire(1)];
  }

  /**
   Retiring one handle twice is not safe: a retire from inside the object's own callback ends first, takes the slot
   away, and lets the retire of another thread return while that callback still runs.
   */
  lemma TwoRetiresOfOneHandle() returns (es: seq<Event>)
    ensures Runs(Start0(2), es) && Enabled(Run(Start0(2), es), EndRetire(0))
    ensures var s := Run(Start0(2), es);
      && s.threads == [WAITING, INSIDE] && Innermost(WAITING).handle == 1
      && Step(s, EndRetire(0)).threads == [IDLE, INSIDE] && Inside(INSIDE.stack, 1) == 1
  {
    es := LastSteps();
    hide Runs, Run;
  }
}
