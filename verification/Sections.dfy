/**
 Queries of the plan, answered from a published view on the calling thread when no edit is outstanding, and
 through the worker's queue otherwise. The calling threads, the worker and its queue, one atomic step at a time.
 */
module Sections {
  import opened Prelude

  /**
   `Counted` is a replace, an undo or an edit by a query call; `Notes` comes from the notes, without being counted; an
   accepted `Offer` is not counted either, and goes to the provider, from which it comes back into the plan later.
   */
  datatype Edit = Counted(n: nat) | Notes(n: nat) | Offer(n: nat)

  type QueryId = nat

  /** The plan, as far as it matters here: the edits that made it, in order. */
  type Plan = seq<Edit>

  datatype Job = Do(e: Edit) | Query(q: QueryId)

  /** Where the worker is in its job: just taken, a counted edit done, the view stored. */
  datatype Worker = Idle | Taken(job: Job) | Done(e: Edit) | Stored(e: Edit)

  /** A query that has read the counter: it may read the view, or must ask through the queue, or has asked. */
  datatype Asking = MayLook | MustAsk | Asked

  datatype State = State(
    counter: int, view: Option<Plan>, jobs: seq<Job>, worker: Worker, plan: Plan, handed: seq<Edit>,
    raised: set<Edit>,                      // counted, not queued yet
    queued: set<Edit>, failed: set<Edit>,   // ever queued; ended without effect
    leaked: nat,                            // counted for ever
    asking: map<QueryId, Asking>, due: map<QueryId, set<Edit>>, answers: map<QueryId, Plan>)

  datatype Event =
    | Raise(e: Edit) | Enqueue(e: Edit) | ReadCounter(q: QueryId) | ReadView(q: QueryId) | Ask(q: QueryId)
    | Take | Apply | Fail | Throw | StoreView | Lower | Answer | Refresh | Publish

  function Start(): State {
    State(0, None, [], Idle, [], [], {}, {}, {}, 0, map[], map[], map[])
  }

  predicate Enabled(s: State, ev: Event) {
    match ev
    case Raise(e) => e.Counted? && e !in s.raised && e !in s.queued
    case Enqueue(e) => if e.Counted? then e in s.raised else e !in s.queued
    case ReadCounter(q) => q !in s.asking
    case ReadView(q) => q in s.asking && s.asking[q] == MayLook
    case Ask(q) => q in s.asking && s.asking[q] == MustAsk
    case Take => s.worker.Idle? && s.jobs != []
    case Apply => s.worker.Taken? && s.worker.job.Do?
    case Fail => s.worker.Taken? && s.worker.job.Do?
    case Throw => s.worker.Taken? || s.worker.Done?
    case StoreView => s.worker.Done?
    case Lower => s.worker.Stored?
    case Answer => s.worker.Taken? && s.worker.job.Query?
    case Refresh => s.worker.Idle?
    case Publish => s.worker.Idle?
  }

  /** A counted edit goes on to the view and the counter; the others end here. */
  function AfterEdit(e: Edit): Worker {
    if e.Counted? then Done(e) else Idle
  }

  function Step(s: State, ev: Event): State
    requires Enabled(s, ev)
  {
    match ev
    case Raise(e) => s.(counter := s.counter + 1, raised := s.raised + {e})
    case Enqueue(e) => s.(raised := s.raised - {e}, queued := s.queued + {e}, jobs := s.jobs + [Do(e)])
    case ReadCounter(q) =>
      s.(asking := s.asking[q := if s.counter == 0 then MayLook else MustAsk], due := s.due[q := s.queued])
    case ReadView(q) =>
      if s.view.Some? then s.(asking := s.asking[q := Asked], answers := s.answers[q := s.view.value])
      else s.(asking := s.asking[q := MustAsk])
    case Ask(q) => s.(asking := s.asking[q := Asked], jobs := s.jobs + [Query(q)])
    case Take => s.(worker := Taken(s.jobs[0]), jobs := s.jobs[1..])
    case Apply =>
      var e := s.worker.job.e;
      if e.Offer? then s.(handed := s.handed + [e], worker := Idle) else s.(plan := s.plan + [e], worker := AfterEdit(e))
    // an edit by a query call that throws or finds nothing loaded, or an offer that is not taken: the call goes on to its end
    case Fail => s.(failed := s.failed + {s.worker.job.e}, worker := AfterEdit(s.worker.job.e))
    // a job not reached, or a replace or undo that throws before or after the plan changed: nothing lowers the counter again
    case Throw =>
      if s.worker.Done? then s.(leaked := s.leaked + 1, worker := Idle)
      else if s.worker.job.Query? then s.(worker := Idle)
      else
        s.(failed := s.failed + {s.worker.job.e}, leaked := s.leaked + (if s.worker.job.e.Counted? then 1 else 0), worker := Idle)
    case StoreView => s.(view := Some(s.plan), worker := Stored(s.worker.e))
    case Lower => s.(counter := s.counter - 1, worker := Idle)
    case Answer => s.(answers := s.answers[s.worker.job.q := s.plan], worker := Idle)
    // the provider has made operations of all it was handed, and its state is taken over
    case Refresh => s.(plan := s.plan + s.handed, handed := [])
    case Publish => s.(view := Some(s.plan))
  }

  // ── the hub, one step at a time ───────────────────────────────────────────

  class Hub {
    var counter: int
    var view: Option<Plan>
    var jobs: seq<Job>
    var worker: Worker
    var plan: Plan
    var handed: seq<Edit>

    /** The fields, next to what is only remembered for the statements. */
    ghost function Now(s: State): State
      reads this
    {
      s.(counter := counter, view := view, jobs := jobs, worker := worker, plan := plan, handed := handed)
    }

    /** The fields are those of the state. */
    ghost predicate Shows(s: State)
      reads this
    {
      Now(s) == s
    }

    constructor ()
      ensures Shows(Start())
    {
      counter, view, jobs, worker, plan, handed := 0, None, [], Idle, [], [];
    }

    /** A calling thread: count the edit, then queue it. */
    method CountEdit(ghost s: State, e: Edit)
      requires Enabled(Now(s), Raise(e))
      modifies this`counter
      ensures Shows(Step(old(Now(s)), Raise(e)))
    {
      counter := counter + 1;
    }

    method QueueEdit(ghost s: State, e: Edit)
      requires Enabled(Now(s), Enqueue(e))
      modifies this`jobs
      ensures Shows(Step(old(Now(s)), Enqueue(e)))
    {
      jobs := jobs + [Do(e)];
    }

    /** A calling thread with a query: may it look at the view? */
    method LoadCounter(ghost s: State, q: QueryId) returns (zero: bool)
      requires Enabled(Now(s), ReadCounter(q))
      ensures zero <==> Step(Now(s), ReadCounter(q)).asking[q] == MayLook
    {
      return counter == 0;
    }

    method LookAtView(ghost s: State, q: QueryId) returns (answer: Option<Plan>)
      requires Enabled(Now(s), ReadView(q))
      ensures var d := Step(Now(s), ReadView(q));
        if answer.Some? then q in d.answers && d.answers[q] == answer.value else d.asking[q] == MustAsk
    {
      return view;
    }

    method QueueQuery(ghost s: State, q: QueryId)
      requires Enabled(Now(s), Ask(q))
      modifies this`jobs
      ensures Shows(Step(old(Now(s)), Ask(q)))
    {
      jobs := jobs + [Query(q)];
    }

    /** The worker. */
    method TakeJob(ghost s: State)
      requires Enabled(Now(s), Take)
      modifies this`jobs, this`worker
      ensures Shows(Step(old(Now(s)), Take))
    {
      worker, jobs := Taken(jobs[0]), jobs[1..];
    }

    method ApplyEdit(ghost s: State)
      requires Enabled(Now(s), Apply)
      modifies this`plan, this`handed, this`worker
      ensures Shows(Step(old(Now(s)), Apply))
    {
      var e := worker.job.e;
      if e.Offer? { handed := handed + [e]; } else { plan := plan + [e]; }
      worker := AfterEdit(e);
    }

    method StorePlannerView(ghost s: State)
      requires Enabled(Now(s), StoreView)
      modifies this`view, this`worker
      ensures Shows(Step(old(Now(s)), StoreView))
    {
      view, worker := Some(plan), Stored(worker.e);
    }

    method LowerCounter(ghost s: State)
      requires Enabled(Now(s), Lower)
      modifies this`counter, this`worker
      ensures Shows(Step(old(Now(s)), Lower))
    {
      counter, worker := counter - 1, Idle;
    }

    method AnswerQuery(ghost s: State) returns (answer: Plan)
      requires Enabled(Now(s), Answer)
      modifies this`worker
      ensures Shows(Step(old(Now(s)), Answer))
      ensures answer == Step(old(Now(s)), Answer).answers[old(worker).job.q]
    {
      answer, worker := plan, Idle;
    }

    method RefreshPlan(ghost s: State)
      requires Enabled(Now(s), Refresh)
      modifies this`plan, this`handed
      ensures Shows(Step(old(Now(s)), Refresh))
    {
      plan, handed := plan + handed, [];
    }
  }

  // ── the counter ───────────────────────────────────────────────────────────

  predicate IsCounted(j: Job) {
    j.Do? && j.e.Counted?
  }

  function CountedIn(jobs: seq<Job>): nat {
    if jobs == [] then 0 else CountedIn(jobs[..|jobs| - 1]) + if IsCounted(jobs[|jobs| - 1]) then 1 else 0
  }

  predicate HoldsCounted(w: Worker) {
    w.Done? || w.Stored? || (w.Taken? && IsCounted(w.job))
  }

  /** The counter is the number of edits counted and not yet through: never below it, above it by what leaked. */
  ghost predicate CounterIsRight(s: State) {
    s.counter == |s.raised| + CountedIn(s.jobs) + (if HoldsCounted(s.worker) then 1 else 0) + s.leaked
  }

  lemma CountedInPush(jobs: seq<Job>, j: Job)
    ensures CountedIn(jobs + [j]) == CountedIn(jobs) + if IsCounted(j) then 1 else 0
  {
    assert (jobs + [j])[..|jobs|] == jobs;
  }

  lemma {:induction false} CountedInPop(jobs: seq<Job>)
    requires jobs != []
    ensures CountedIn(jobs) == CountedIn(jobs[1..]) + if IsCounted(jobs[0]) then 1 else 0
    decreases |jobs|
  {
    var k := |jobs| - 1;
    if k == 0 {
      assert jobs[1..] == [];
    } else {
      CountedInPop(jobs[..k]);
      assert jobs[..k][1..] == jobs[1..][..k - 1];
    }
  }

  lemma {:induction false} NoneCounted(jobs: seq<Job>, e: Edit)
    requires CountedIn(jobs) == 0 && e.Counted?
    ensures Do(e) !in jobs
  {
    if jobs != [] {
      NoneCounted(jobs[..|jobs| - 1], e);
      assert jobs == jobs[..|jobs| - 1] + [jobs[|jobs| - 1]];
    }
  }

  lemma CountRaised(raised: set<Edit>, e: Edit)
    ensures e !in raised ==> |raised + {e}| == |raised| + 1 && raised - {e} == raised
    ensures e in raised ==> |raised - {e}| == |raised| - 1
  {
    if e in raised { assert raised == (raised - {e}) + {e}; }
  }

  /** How a step changes the counted edits in the queue. */
  lemma StepChangesQueue(s: State, ev: Event)
    requires Enabled(s, ev)
    ensures CountedIn(Step(s, ev).jobs) == CountedIn(s.jobs)
      + (if ev.Enqueue? && ev.e.Counted? then 1 else 0) - (if ev.Take? && IsCounted(s.jobs[0]) then 1 else 0)
  {
    match ev {
      case Enqueue(e) => CountedInPush(s.jobs, Do(e));
      case Ask(q) => CountedInPush(s.jobs, Query(q));
      case Take => CountedInPop(s.jobs);
      case _ =>
    }
    hide CountedIn;
  }

  /** How it changes those counted and not queued yet. */
  lemma StepChangesRaised(s: State, ev: Event)
    requires RaisedAreCounted(s) && Enabled(s, ev)
    ensures |Step(s, ev).raised| == |s.raised| + (if ev.Raise? then 1 else 0) - (if ev.Enqueue? && ev.e.Counted? then 1 else 0)
  {
    if ev.Raise? || ev.Enqueue? { CountRaised(s.raised, ev.e); }
  }

  lemma StepKeepsCounter(s: State, ev: Event)
    requires CounterIsRight(s) && RaisedAreCounted(s) && Enabled(s, ev)
    ensures CounterIsRight(Step(s, ev))
  {
    hide CountedIn, RaisedAreCounted;
    StepChangesQueue(s, ev);
    StepChangesRaised(s, ev);
    StepChangesRest(s, ev);
    hide Step, Enabled, HoldsCounted;
  }

  /** How it changes the counter, next to what the worker holds and what leaked. */
  lemma StepChangesRest(s: State, ev: Event)
    requires Enabled(s, ev)
    ensures var d := Step(s, ev);
      d.counter - (if HoldsCounted(d.worker) then 1 else 0) - d.leaked
      == s.counter - (if HoldsCounted(s.worker) then 1 else 0) - s.leaked
         + (if ev.Raise? then 1 else 0) - (if ev.Take? && IsCounted(s.jobs[0]) then 1 else 0)
  {
  }

  // ── each edit is in one place ─────────────────────────────────────────────

  function Times<T(==)>(s: seq<T>, x: T): nat {
    multiset(s)[x]
  }

  lemma TimesIn<T>(s: seq<T>, x: T)
    ensures x in s <==> Times(s, x) > 0
  {
  }

  lemma TimesPop<T>(s: seq<T>, x: T)
    requires s != []
    ensures Times(s[1..], x) == Times(s, x) - if s[0] == x then 1 else 0
  {
    assert s == [s[0]] + s[1..];
  }

  lemma TimesAppend<T>(s: seq<T>, t: seq<T>, x: T)
    ensures Times(s + t, x) == Times(s, x) + Times(t, x)
    ensures |t| == 1 ==> Times(t, x) == if t[0] == x then 1 else 0
    ensures t == [] ==> Times(t, x) == 0
  {
    if |t| == 1 { assert t == [t[0]]; }
  }

  /** In the queue, with the worker, with the provider, in the plan, or failed. */
  function Places(s: State, e: Edit): nat {
    Times(s.jobs, Do(e)) + (if s.worker == Taken(Do(e)) then 1 else 0) + Times(s.handed, e) + Times(s.plan, e)
    + if e in s.failed then 1 else 0
  }

  ghost predicate RaisedAreCounted(s: State) {
    forall e :: e in s.raised ==> e.Counted? && e !in s.queued
  }

  ghost predicate OnePlaceEach(s: State) {
    forall e :: Places(s, e) == if e in s.queued then 1 else 0
  }

  /** What a step does to the queue, for one job in it. */
  lemma StepMovesJob(s: State, ev: Event, j: Job)
    requires Enabled(s, ev)
    ensures Times(Step(s, ev).jobs, j) == Times(s.jobs, j)
      + (if (ev.Enqueue? && j == Do(ev.e)) || (ev.Ask? && j == Query(ev.q)) then 1 else 0) - (if ev.Take? && s.jobs[0] == j then 1 else 0)
  {
    if ev.Enqueue? { TimesAppend(s.jobs, [Do(ev.e)], j); }
    if ev.Ask? { TimesAppend(s.jobs, [Query(ev.q)], j); }
    if ev.Take? { TimesPop(s.jobs, j); }
    hide Times;
  }

  lemma StepMoves(s: State, ev: Event, e: Edit)
    requires Enabled(s, ev) && Places(s, e) <= 1
    ensures Places(Step(s, ev), e) == Places(s, e) + if ev == Enqueue(e) then 1 else 0
  {
    hide Times;
    StepMovesJob(s, ev, Do(e));
    if ev.Apply? {
      TimesAppend(s.handed, [s.worker.job.e], e);
      TimesAppend(s.plan, [s.worker.job.e], e);
    } else if ev.Refresh? {
      TimesAppend(s.plan, s.handed, e);
      TimesAppend<Edit>([], [], e);
    }
  }

  lemma StepKeepsPlaces(s: State, ev: Event)
    requires RaisedAreCounted(s) && OnePlaceEach(s) && Enabled(s, ev)
    ensures RaisedAreCounted(Step(s, ev)) && OnePlaceEach(Step(s, ev))
  {
    hide Places;
    assert Step(s, ev).queued == s.queued + if ev.Enqueue? then {ev.e} else {};
    forall e ensures Places(Step(s, ev), e) == if e in Step(s, ev).queued then 1 else 0 {
      StepMoves(s, ev, e);
      hide Step;
    }
  }

  // ── the view ──────────────────────────────────────────────────────────────

  predicate Seen(p: Option<Plan>, e: Edit) {
    p.Some? && e in p.value
  }

  /** The view lacks no counted edit but the one just done, as long as nothing leaked. Only offers are with the provider. */
  ghost predicate ViewIsBehindByWhatIsUnderWay(s: State) {
    && (s.view.Some? ==> s.view.value <= s.plan)
    && (s.leaked == 0 ==> forall e: Edit :: e.Counted? && e in s.plan ==> Seen(s.view, e) || s.worker == Done(e))
    && (forall e :: e in s.handed ==> e.Offer?)
  }

  lemma StepKeepsView(s: State, ev: Event)
    requires ViewIsBehindByWhatIsUnderWay(s) && Enabled(s, ev)
    ensures ViewIsBehindByWhatIsUnderWay(Step(s, ev))
  {
  }

  lemma LeakStays(s: State, ev: Event)
    requires Enabled(s, ev)
    ensures s.leaked <= Step(s, ev).leaked
  {
  }

  /** A zero counter means that every counted edit queued so far has reached the view, or failed. */
  lemma ZeroMeansAllSeen(s: State, e: Edit)
    requires CounterIsRight(s) && OnePlaceEach(s) && ViewIsBehindByWhatIsUnderWay(s)
    requires s.counter == 0 && e in s.queued && e.Counted?
    ensures e in s.failed || Seen(s.view, e)
  {
    NoneCounted(s.jobs, e);
    assert Places(s, e) == 1;
    TimesIn(s.jobs, Do(e));
    TimesIn(s.handed, e);
    TimesIn(s.plan, e);
    hide Times, CountedIn;
  }

  // ── the queries ───────────────────────────────────────────────────────────

  /** What a query must see has been seen to, or is ahead of it in the queue. */
  predicate Ahead(s: State, e: Edit, k: nat) {
    || e in s.failed || e in s.plan || e in s.handed || s.worker == Taken(Do(e))
    || exists i :: 0 <= i < k && i < |s.jobs| && s.jobs[i] == Do(e)
  }

  /** The query has read the counter, and whatever was queued then is ahead of place `k`. */
  ghost predicate Follows(s: State, q: QueryId, k: nat) {
    q in s.asking && q in s.due && forall e :: e in s.due[q] ==> Ahead(s, e, k)
  }

  ghost predicate QueriesAreBehindTheirEdits(s: State) {
    && s.asking.Keys == s.due.Keys && (forall q :: q in s.due ==> s.due[q] <= s.queued)
    && (forall q, e :: q in s.asking && s.asking[q] == MayLook && e in s.due[q] && e.Counted? ==> e in s.failed || Seen(s.view, e))
    && (forall k :: 0 <= k < |s.jobs| && s.jobs[k].Query? ==> Follows(s, s.jobs[k].q, k))
    && (s.worker.Taken? && s.worker.job.Query? ==> Follows(s, s.worker.job.q, 0))
  }

  /** Whether a query waits, is being answered, or is answered. */
  function Turns(s: State, q: QueryId): nat {
    Times(s.jobs, Query(q)) + (if s.worker == Taken(Query(q)) then 1 else 0) + if q in s.answers then 1 else 0
  }

  predicate TurnsOk(s: State, q: QueryId) {
    Turns(s, q) <= if q in s.asking && s.asking[q] == Asked then 1 else 0
  }

  ghost predicate AnsweredOnce(s: State) {
    forall q :: TurnsOk(s, q)
  }

  lemma StepKeepsTurn(s: State, ev: Event, q: QueryId)
    requires TurnsOk(s, q) && Enabled(s, ev)
    ensures TurnsOk(Step(s, ev), q)
  {
    hide Times;
    StepMovesJob(s, ev, Query(q));
  }

  lemma StepKeepsTurns(s: State, ev: Event)
    requires AnsweredOnce(s) && Enabled(s, ev)
    ensures AnsweredOnce(Step(s, ev))
  {
    hide Step, Enabled, TurnsOk;
    forall q ensures TurnsOk(Step(s, ev), q) { StepKeepsTurn(s, ev, q); }
  }

  lemma ZeroMeansAll(s: State)
    requires CounterIsRight(s) && OnePlaceEach(s) && ViewIsBehindByWhatIsUnderWay(s) && s.counter == 0
    ensures forall e: Edit :: e in s.queued && e.Counted? ==> e in s.failed || Seen(s.view, e)
  {
    forall e: Edit | e in s.queued && e.Counted? ensures e in s.failed || Seen(s.view, e) { ZeroMeansAllSeen(s, e); }
  }

  /** What the view shows, or failed, stays so. */
  lemma SeenStays(s: State, ev: Event, e: Edit)
    requires ViewIsBehindByWhatIsUnderWay(s) && Enabled(s, ev) && (e in s.failed || Seen(s.view, e))
    ensures var d := Step(s, ev); e in d.failed || Seen(d.view, e)
  {
  }

  /** A query may look only if it could before, or read a zero counter just now; what is due to it is what was queued then. */
  lemma WhoMayLook(s: State, ev: Event, q: QueryId)
    requires Enabled(s, ev) && s.asking.Keys == s.due.Keys
    ensures var d := Step(s, ev);
      && d.asking.Keys == d.due.Keys && s.queued <= d.queued
      && (q in d.due ==> d.due[q] == (if ev == ReadCounter(q) then s.queued else if q in s.due then s.due[q] else {}))
      && (q in d.due && ev != ReadCounter(q) ==> q in s.due)
      && (q in d.asking && d.asking[q] == MayLook ==>
            if ev == ReadCounter(q) then s.counter == 0 else q in s.asking && s.asking[q] == MayLook)
  {
  }

  lemma StepKeepsAsking(s: State, ev: Event)
    requires Inv(s) && Enabled(s, ev)
    ensures var d := Step(s, ev);
      && d.asking.Keys == d.due.Keys && (forall q :: q in d.due ==> d.due[q] <= d.queued)
      && (forall q, e :: q in d.asking && d.asking[q] == MayLook && e in d.due[q] && e.Counted? ==> e in d.failed || Seen(d.view, e))
  {
    var d := Step(s, ev);
    if s.counter == 0 { ZeroMeansAll(s); }
    hide Step, Enabled, CounterIsRight, OnePlaceEach, AnsweredOnce, CountedIn, Follows, ViewIsBehindByWhatIsUnderWay;
    forall q ensures d.asking.Keys == d.due.Keys && (q in d.due ==> d.due[q] <= d.queued) { WhoMayLook(s, ev, q); }
    forall q, e: Edit | q in d.asking && d.asking[q] == MayLook && e in d.due[q] && e.Counted?
      ensures e in d.failed || Seen(d.view, e)
    {
      WhoMayLook(s, ev, q);
      SeenStays(s, ev, e);
    }
  }

  lemma StillAhead(s: State, ev: Event, e: Edit, k: nat)
    requires Enabled(s, ev) && Ahead(s, e, k) && k <= |s.jobs|
    ensures Ahead(Step(s, ev), e, if ev.Take? && k > 0 then k - 1 else k)
  {
    var d := Step(s, ev);
    if !(e in s.failed || e in s.plan || e in s.handed || s.worker == Taken(Do(e))) {
      var i :| 0 <= i < k && i < |s.jobs| && s.jobs[i] == Do(e);
      if ev.Take? {
        if i > 0 { assert d.jobs[i - 1] == Do(e); }
      } else {
        assert d.jobs[i] == Do(e);
      }
    }
  }

  /** A query that joins the queue has every edit it must see seen to, taken or queued before it. */
  lemma AskedIsBehind(s: State, q: QueryId, e: Edit)
    requires OnePlaceEach(s) && Enabled(s, Ask(q)) && e in s.queued
    ensures Ahead(Step(s, Ask(q)), e, |s.jobs|)
  {
    assert Places(s, e) == 1;
    TimesIn(s.jobs, Do(e));
    TimesIn(s.handed, e);
    TimesIn(s.plan, e);
    hide Times;
    if Do(e) in s.jobs {
      var i :| 0 <= i < |s.jobs| && s.jobs[i] == Do(e);
      assert Step(s, Ask(q)).jobs[i] == Do(e);
    }
  }

  lemma JobKeepsFollowing(s: State, ev: Event, k: nat)
    requires QueriesAreBehindTheirEdits(s) && OnePlaceEach(s) && Enabled(s, ev)
    requires k < |Step(s, ev).jobs| && Step(s, ev).jobs[k].Query?
    ensures Follows(Step(s, ev), Step(s, ev).jobs[k].q, k)
  {
    var d := Step(s, ev);
    var q := d.jobs[k].q;
    if ev.Ask? && k == |s.jobs| {
      forall e | e in s.due[q] ensures Ahead(d, e, k) { AskedIsBehind(s, q, e); }
    } else {
      var was := if ev.Take? then k + 1 else k;
      assert s.jobs[was] == d.jobs[k] && Follows(s, q, was);
      forall e | e in d.due[q] ensures Ahead(d, e, k) { StillAhead(s, ev, e, was); }
    }
  }

  lemma TakenKeepsFollowing(s: State, ev: Event)
    requires QueriesAreBehindTheirEdits(s) && Enabled(s, ev)
    ensures var d := Step(s, ev); d.worker.Taken? && d.worker.job.Query? ==> Follows(d, d.worker.job.q, 0)
  {
    var d := Step(s, ev);
    if d.worker.Taken? && d.worker.job.Query? {
      assert Follows(s, d.worker.job.q, 0);
      forall e | e in d.due[d.worker.job.q] ensures Ahead(d, e, 0) { StillAhead(s, ev, e, 0); }
    }
  }

  lemma StepKeepsQueries(s: State, ev: Event)
    requires Inv(s) && Enabled(s, ev)
    ensures QueriesAreBehindTheirEdits(Step(s, ev))
  {
    var d := Step(s, ev);
    StepKeepsAsking(s, ev);
    TakenKeepsFollowing(s, ev);
    forall k | 0 <= k < |d.jobs| && d.jobs[k].Query? ensures Follows(d, d.jobs[k].q, k) { JobKeepsFollowing(s, ev, k); }
    hide Step, Enabled, Inv, Follows, Seen;
  }

  ghost predicate Inv(s: State) {
    && CounterIsRight(s) && RaisedAreCounted(s) && OnePlaceEach(s) && ViewIsBehindByWhatIsUnderWay(s)
    && QueriesAreBehindTheirEdits(s) && AnsweredOnce(s)
  }

  lemma StepKeepsInv(s: State, ev: Event)
    requires Inv(s) && Enabled(s, ev)
    ensures Inv(Step(s, ev))
  {
    StepKeepsCounter(s, ev);
    StepKeepsPlaces(s, ev);
    StepKeepsView(s, ev);
    StepKeepsQueries(s, ev);
    StepKeepsTurns(s, ev);
    hide Step, Enabled, CounterIsRight, RaisedAreCounted, OnePlaceEach, ViewIsBehindByWhatIsUnderWay,
      QueriesAreBehindTheirEdits, AnsweredOnce;
  }

  // ── whole runs ────────────────────────────────────────────────────────────

  /** The events happened one after the other, `tr` being the states between them. */
  ghost predicate IsRun(tr: seq<State>, evs: seq<Event>) {
    && |tr| == |evs| + 1 && tr[0] == Start()
    && forall i {:trigger evs[i]} :: 0 <= i < |evs| ==> Enabled(tr[i], evs[i]) && tr[i + 1] == Step(tr[i], evs[i])
  }

  lemma {:induction false} InvAt(tr: seq<State>, evs: seq<Event>, i: nat)
    requires IsRun(tr, evs) && i <= |evs|
    ensures Inv(tr[i])
  {
    hide Step, Enabled;
    if i > 0 {
      InvAt(tr, evs, i - 1);
      assert tr[i] == Step(tr[i - 1], evs[i - 1]);
      StepKeepsInv(tr[i - 1], evs[i - 1]);
      hide Inv;
    }
  }

  /** What is never taken back. */
  ghost predicate Later(s: State, d: State) {
    && (forall q :: q in s.answers ==> q in d.answers && d.answers[q] == s.answers[q])
    && (forall q :: q in s.due ==> q in d.due && d.due[q] == s.due[q])
    && s.failed <= d.failed && (forall e :: e in s.plan || e in s.handed ==> e in d.plan || e in d.handed)
  }

  lemma StepGoesOn(s: State, ev: Event)
    requires s.asking.Keys == s.due.Keys && AnsweredOnce(s) && Enabled(s, ev)
    ensures Later(s, Step(s, ev))
  {
    if ev.ReadView? {
      assert TurnsOk(s, ev.q);
    } else if ev.Answer? {
      assert TurnsOk(s, s.worker.job.q);
    }
  }

  lemma {:induction false} RunGoesOn(tr: seq<State>, evs: seq<Event>, i: nat, k: nat)
    requires IsRun(tr, evs) && i <= k <= |evs|
    ensures Later(tr[i], tr[k])
  {
    hide Step, Enabled;
    if i < k {
      RunGoesOn(tr, evs, i, k - 1);
      InvAt(tr, evs, k - 1);
      assert tr[k] == Step(tr[k - 1], evs[k - 1]);
      StepGoesOn(tr[k - 1], evs[k - 1]);
      hide Inv;
    }
  }

  // ── when an edit is in the plan, and in the view ──────────────────────────

  /** The worker carries the edit out: it is in the plan then, or with the provider. */
  predicate AppliesAt(tr: seq<State>, evs: seq<Event>, a: nat, e: Edit)
    requires |tr| == |evs| + 1
  {
    a < |evs| && evs[a] == Apply && tr[a].worker == Taken(Do(e))
  }

  predicate RefreshedBetween(evs: seq<Event>, a: nat, i: nat)
    requires i <= |evs|
  {
    exists b :: a < b < i && evs[b] == Refresh
  }

  /** Before the event `i` the edit was applied, and an offer came back from the provider after that. */
  predicate PlannedBefore(tr: seq<State>, evs: seq<Event>, i: nat, e: Edit)
    requires |tr| == |evs| + 1 && i <= |evs|
  {
    exists a :: 0 <= a < i && AppliesAt(tr, evs, a, e) && (e.Offer? ==> RefreshedBetween(evs, a, i))
  }

  /** And after that, still before the event `i`, the view was stored. */
  predicate ShownBefore(tr: seq<State>, evs: seq<Event>, i: nat, e: Edit)
    requires |tr| == |evs| + 1 && i <= |evs|
  {
    exists c :: 0 <= c < i && (evs[c] == StoreView || evs[c] == Publish) && PlannedBefore(tr, evs, c, e)
  }

  predicate HandedBefore(tr: seq<State>, evs: seq<Event>, i: nat, e: Edit)
    requires |tr| == |evs| + 1 && i <= |evs|
  {
    e.Offer? && exists a :: 0 <= a < i && AppliesAt(tr, evs, a, e) && !RefreshedBetween(evs, a, i)
  }

  lemma RefreshStays(evs: seq<Event>, a: nat, i: nat)
    requires i < |evs|
    ensures RefreshedBetween(evs, a, i + 1) <==> RefreshedBetween(evs, a, i) || (a < i && evs[i] == Refresh)
  {
  }

  lemma {:induction false} HandedIff(tr: seq<State>, evs: seq<Event>, i: nat, e: Edit)
    requires IsRun(tr, evs) && i <= |evs|
    ensures e in tr[i].handed <==> HandedBefore(tr, evs, i, e)
  {
    if i > 0 {
      var s, ev := tr[i - 1], evs[i - 1];
      HandedIff(tr, evs, i - 1, e);
      assert tr[i] == Step(s, ev);
      forall a: nat ensures RefreshedBetween(evs, a, i) <==> RefreshedBetween(evs, a, i - 1) || (a < i - 1 && ev == Refresh) {
        RefreshStays(evs, a, i - 1);
      }
      hide RefreshedBetween;
      if AppliesAt(tr, evs, i - 1, e) && e.Offer? {
        assert !RefreshedBetween(evs, i - 1, i) by { RefreshStays(evs, i - 1, i - 1); }
      }
    }
  }

  lemma PlannedStays(tr: seq<State>, evs: seq<Event>, i: nat, k: nat, e: Edit)
    requires |tr| == |evs| + 1 && i <= k <= |evs| && PlannedBefore(tr, evs, i, e)
    ensures PlannedBefore(tr, evs, k, e)
  {
    var a :| 0 <= a < i && AppliesAt(tr, evs, a, e) && (e.Offer? ==> RefreshedBetween(evs, a, i));
    if e.Offer? {
      var b :| a < b < i && evs[b] == Refresh;
      assert RefreshedBetween(evs, a, k);
    }
  }

  /** An edit that is no offer comes into the plan as it is applied; a refresh brings in what was handed over. */
  lemma PlannedNext(tr: seq<State>, evs: seq<Event>, i: nat, e: Edit)
    requires |tr| == |evs| + 1 && i < |evs|
    ensures PlannedBefore(tr, evs, i + 1, e) <==>
      || PlannedBefore(tr, evs, i, e)
      || (if e.Offer? then evs[i] == Refresh && HandedBefore(tr, evs, i, e) else AppliesAt(tr, evs, i, e))
  {
    forall a: nat ensures RefreshedBetween(evs, a, i + 1) <==> RefreshedBetween(evs, a, i) || (a < i && evs[i] == Refresh) {
      RefreshStays(evs, a, i);
    }
    hide RefreshedBetween;
  }

  lemma StepPlans(s: State, ev: Event, e: Edit)
    requires ViewIsBehindByWhatIsUnderWay(s) && Enabled(s, ev)
    ensures e in Step(s, ev).plan <==>
      || e in s.plan
      || (if e.Offer? then ev == Refresh && e in s.handed else ev == Apply && s.worker == Taken(Do(e)))
  {
  }

  lemma {:induction false} PlanIff(tr: seq<State>, evs: seq<Event>, i: nat, e: Edit)
    requires IsRun(tr, evs) && i <= |evs|
    ensures e in tr[i].plan <==> PlannedBefore(tr, evs, i, e)
  {
    if i > 0 {
      PlanIff(tr, evs, i - 1, e);
      HandedIff(tr, evs, i - 1, e);
      InvAt(tr, evs, i - 1);
      assert tr[i] == Step(tr[i - 1], evs[i - 1]);
      StepPlans(tr[i - 1], evs[i - 1], e);
      PlannedNext(tr, evs, i - 1, e);
      hide PlannedBefore, HandedBefore, Inv, Step, Enabled;
    }
  }

  lemma StepViews(s: State, ev: Event, e: Edit)
    requires Enabled(s, ev)
    ensures Seen(Step(s, ev).view, e) <==> if ev == StoreView || ev == Publish then e in s.plan else Seen(s.view, e)
  {
  }

  lemma ShownNext(tr: seq<State>, evs: seq<Event>, i: nat, e: Edit)
    requires |tr| == |evs| + 1 && i < |evs|
    ensures ShownBefore(tr, evs, i + 1, e) <==>
      ShownBefore(tr, evs, i, e) || ((evs[i] == StoreView || evs[i] == Publish) && PlannedBefore(tr, evs, i, e))
    ensures ShownBefore(tr, evs, i, e) ==> PlannedBefore(tr, evs, i, e)
  {
    if ShownBefore(tr, evs, i, e) {
      var c :| 0 <= c < i && (evs[c] == StoreView || evs[c] == Publish) && PlannedBefore(tr, evs, c, e);
      PlannedStays(tr, evs, c, i, e);
    }
    hide PlannedBefore;
  }

  lemma {:induction false} ViewIff(tr: seq<State>, evs: seq<Event>, i: nat, e: Edit)
    requires IsRun(tr, evs) && i <= |evs|
    ensures Seen(tr[i].view, e) <==> ShownBefore(tr, evs, i, e)
  {
    if i > 0 {
      ViewIff(tr, evs, i - 1, e);
      PlanIff(tr, evs, i - 1, e);
      assert Enabled(tr[i - 1], evs[i - 1]) && tr[i] == Step(tr[i - 1], evs[i - 1]);
      hide Step, Enabled, PlannedBefore, ShownBefore, Seen, IsRun;
      StepViews(tr[i - 1], evs[i - 1], e);
      ShownNext(tr, evs, i - 1, e);
    }
  }

  // ── which answers miss an edit ────────────────────────────────────────────

  predicate FromView(tr: seq<State>, evs: seq<Event>, i: nat, q: QueryId)
    requires |tr| == |evs| + 1
  {
    i < |evs| && evs[i] == ReadView(q) && tr[i].view.Some?
  }

  predicate FromQueue(tr: seq<State>, evs: seq<Event>, i: nat, q: QueryId)
    requires |tr| == |evs| + 1
  {
    i < |evs| && evs[i] == Answer && tr[i].worker == Taken(Query(q))
  }

  lemma {:induction false} AnswerHasASource(tr: seq<State>, evs: seq<Event>, i: nat, q: QueryId) returns (a: nat)
    requires IsRun(tr, evs) && i <= |evs| && q in tr[i].answers
    ensures a < i && (FromView(tr, evs, a, q) || FromQueue(tr, evs, a, q))
  {
    assert i > 0;
    if q in tr[i - 1].answers {
      a := AnswerHasASource(tr, evs, i - 1, q);
    } else {
      assert tr[i] == Step(tr[i - 1], evs[i - 1]);
      a := i - 1;
    }
  }

  /** What reached the plan or the provider did not fail, then or later. */
  lemma PlannedNeverFails(tr: seq<State>, evs: seq<Event>, i: nat, e: Edit)
    requires IsRun(tr, evs) && i <= |evs| && (e in tr[i].plan || e in tr[i].handed)
    ensures e !in tr[|evs|].failed
  {
    var s := tr[|evs|];
    RunGoesOn(tr, evs, i, |evs|);
    InvAt(tr, evs, |evs|);
    assert Places(s, e) <= 1;
    TimesIn(s.plan, e);
    TimesIn(s.handed, e);
    hide Times, Inv, IsRun;
  }

  /** The answer given by the event `i` is the view or the plan of that moment, and the query waits for the same edits. */
  lemma AnswerIs(tr: seq<State>, evs: seq<Event>, i: nat, q: QueryId)
    requires IsRun(tr, evs) && (FromView(tr, evs, i, q) || FromQueue(tr, evs, i, q))
    ensures var s := tr[|evs|];
      && q in s.answers && s.answers[q] == (if evs[i].ReadView? then tr[i].view.value else tr[i].plan)
      && q in tr[i].due && q in s.due && s.due[q] == tr[i].due[q]
  {
    InvAt(tr, evs, i);
    assert q in tr[i].due;
    hide Inv;
    assert tr[i + 1] == Step(tr[i], evs[i]);
    RunGoesOn(tr, evs, i + 1, |evs|);
    RunGoesOn(tr, evs, i, |evs|);
    hide IsRun;
  }

  /** What was queued before the query read the counter, and not failed: a counted edit is seen, others have left the queue. */
  lemma DueIsSettled(tr: seq<State>, evs: seq<Event>, i: nat, q: QueryId, e: Edit)
    requires IsRun(tr, evs) && (FromQueue(tr, evs, i, q) || (FromView(tr, evs, i, q) && e.Counted?))
    requires q in tr[i].due && e in tr[i].due[q]
    ensures var p := if evs[i].ReadView? then tr[i].view.value else tr[i].plan;
      && (e in p ==> e in tr[i].plan) && (e in tr[i].failed || e in p || e in tr[i].handed)
      && (e in tr[i].handed ==> e.Offer?)
  {
    InvAt(tr, evs, i);
    var s := tr[i];
    assert Enabled(s, evs[i]);
    if FromQueue(tr, evs, i, q) {
      assert Follows(s, q, 0) && Ahead(s, e, 0);
    } else {
      assert e in s.failed || Seen(s.view, e);
    }
    hide CounterIsRight, RaisedAreCounted, OnePlaceEach, AnsweredOnce;
  }

  /**
   Which answers show which edits, over every run. An answer from the view shows an edit exactly if the edit was applied
   (an accepted offer: and came back from the provider) and the view was stored after that, before the query looked. An
   answer through the queue shows every edit queued before the query read the counter that does not fail, except for
   offers that have not come back yet. And a counted edit is shown in either case.
   */
  lemma AnswerShowsIff(tr: seq<State>, evs: seq<Event>, i: nat, q: QueryId, e: Edit)
    requires IsRun(tr, evs) && (FromView(tr, evs, i, q) || FromQueue(tr, evs, i, q))
    ensures var s := tr[|evs|];
      && q in s.answers && q in s.due
      && (FromView(tr, evs, i, q) ==> (e in s.answers[q] <==> ShownBefore(tr, evs, i, e)))
      && (e in s.due[q] && (FromQueue(tr, evs, i, q) || e.Counted?) ==>
            (e in s.answers[q] <==> e !in s.failed && (e.Offer? ==> PlannedBefore(tr, evs, i, e))))
  {
    var s := tr[|evs|];
    AnswerIs(tr, evs, i, q);
    ViewIff(tr, evs, i, e);
    PlanIff(tr, evs, i, e);
    RunGoesOn(tr, evs, i, |evs|);
    hide IsRun, ShownBefore, PlannedBefore;
    if e in s.due[q] && (FromQueue(tr, evs, i, q) || e.Counted?) {
      DueIsSettled(tr, evs, i, q, e);
      if e in tr[i].plan || e in tr[i].handed { PlannedNeverFails(tr, evs, i, e); }
    }
  }

  /**
   However the threads interleave, and whichever edits throw: every answer, from the view or from the queue, shows
   each counted edit that was queued before its query read the counter, exactly if that edit does not fail; and the
   counter is never below the number of edits on their way.
   */
  lemma EveryAnswerReflectsTheEditsBeforeIt(tr: seq<State>, evs: seq<Event>, q: QueryId, e: Edit)
    requires IsRun(tr, evs)
    ensures var s := tr[|evs|];
      && |s.raised| + CountedIn(s.jobs) + (if HoldsCounted(s.worker) then 1 else 0) <= s.counter
      && (q in s.answers ==> q in s.due && (e in s.due[q] && e.Counted? ==> (e in s.answers[q] <==> e !in s.failed)))
  {
    InvAt(tr, evs, |evs|);
    if q in tr[|evs|].answers {
      var i := AnswerHasASource(tr, evs, |evs|, q);
      AnswerShowsIff(tr, evs, i, q, e);
    }
  }

  /** No edit but counted ones is on its way, and the plan is the view but for counted ones. */
  predicate NoneButCountedUnderWay(s: State) {
    && (forall j :: j in s.jobs && j.Do? ==> j.e.Counted?) && (s.worker.Taken? && s.worker.job.Do? ==> s.worker.job.e.Counted?)
    && s.handed == [] && (forall k :: (if s.view.Some? then |s.view.value| else 0) <= k < |s.plan| ==> s.plan[k].Counted?)
  }

  lemma TimesTwice<T>(s: seq<T>, i: nat, k: nat)
    requires i < k < |s| && s[i] == s[k]
    ensures Times(s, s[i]) >= 2
  {
    assert s == s[..k] + [s[k]] + s[k + 1..];
    assert s[i] in s[..k];
  }

  lemma UncountedIsSeen(s: State, e: Edit)
    requires Inv(s) && NoneButCountedUnderWay(s) && e in s.queued && !e.Counted?
    ensures e in s.failed || Seen(s.view, e)
  {
    assert Places(s, e) == 1;
    TimesIn(s.jobs, Do(e));
    TimesIn(s.handed, e);
    TimesIn(s.plan, e);
    hide Times;
    if e in s.plan {
      var k :| 0 <= k < |s.plan| && s.plan[k] == e;
      assert s.view.Some? && k < |s.view.value| && s.view.value[k] == e;
    }
  }

  predicate IsUnderWay(s: State, e: Edit) {
    || Do(e) in s.jobs || s.worker == Taken(Do(e)) || e in s.handed
    || exists k :: (if s.view.Some? then |s.view.value| else 0) <= k < |s.plan| && s.plan[k] == e
  }

  lemma SomeUnderWay(s: State) returns (e: Edit)
    requires Inv(s) && !NoneButCountedUnderWay(s)
    ensures !e.Counted? && IsUnderWay(s, e)
  {
    if s.handed != [] {
      e := s.handed[0];
      assert e.Offer?;
    } else if j :| j in s.jobs && j.Do? && !j.e.Counted? {
      e := j.e;
    } else if s.worker.Taken? && s.worker.job.Do? && !s.worker.job.e.Counted? {
      e := s.worker.job.e;
    } else {
      var k :| (if s.view.Some? then |s.view.value| else 0) <= k < |s.plan| && !s.plan[k].Counted?;
      e := s.plan[k];
    }
  }

  /** An edit that is on its way, or in the plan beyond the view, is queued, not failed and not in the view. */
  lemma UnderWayIsNotSeen(s: State, e: Edit)
    requires Inv(s) && IsUnderWay(s, e)
    ensures e in s.queued && e !in s.failed && !Seen(s.view, e)
  {
    assert Places(s, e) <= 1 && (Places(s, e) == 1 ==> e in s.queued);
    assert Seen(s.view, e) ==> e in s.plan;
    TimesIn(s.jobs, Do(e));
    TimesIn(s.handed, e);
    TimesIn(s.plan, e);
    if Seen(s.view, e) && !(Do(e) in s.jobs || s.worker == Taken(Do(e)) || e in s.handed) {
      var k :| |s.view.value| <= k < |s.plan| && s.plan[k] == e;
      var i :| 0 <= i < |s.view.value| && s.view.value[i] == e;
      assert s.plan[i] == e;
      TimesTwice(s.plan, i, k);
    }
    hide Times, Inv;
  }

  /** The condition a query could check before it looks: with it, and only with it, the view lacks no edit that is not counted. */
  lemma LookMissesNothingIff(tr: seq<State>, evs: seq<Event>, i: nat, q: QueryId)
    requires IsRun(tr, evs) && FromView(tr, evs, i, q)
    ensures q in tr[|evs|].answers
    ensures (forall e: Edit :: e in tr[i].queued && !e.Counted? ==> e in tr[i].failed || e in tr[|evs|].answers[q])
      <==> NoneButCountedUnderWay(tr[i])
  {
    var s := tr[i];
    AnswerIs(tr, evs, i, q);
    InvAt(tr, evs, i);
    hide IsRun, Inv;
    if NoneButCountedUnderWay(s) {
      forall e: Edit | e in s.queued && !e.Counted? ensures e in s.failed || e in s.view.value { UncountedIsSeen(s, e); }
    } else {
      var e := SomeUnderWay(s);
      UnderWayIsNotSeen(s, e);
    }
  }

  // ── after a leak ──────────────────────────────────────────────────────────

  /** The query has not read a zero counter that it could still act on. */
  predicate MayNotLook(s: State, q: QueryId) {
    q in s.asking ==> s.asking[q] != MayLook
  }

  lemma {:induction false} LeakLasts(tr: seq<State>, evs: seq<Event>, k: nat, i: nat, q: QueryId)
    requires IsRun(tr, evs) && k <= i <= |evs| && tr[k].leaked > 0 && MayNotLook(tr[k], q)
    ensures tr[i].leaked > 0 && tr[i].counter > 0 && MayNotLook(tr[i], q)
  {
    InvAt(tr, evs, i);
    assert CounterIsRight(tr[i]);
    hide Inv;
    if k < i {
      LeakLasts(tr, evs, k, i - 1, q);
      assert tr[i] == Step(tr[i - 1], evs[i - 1]);
      LeakStays(tr[i - 1], evs[i - 1]);
    }
  }

  /**
   Once a replace or an undo threw, or an edit was not reached, the counter stays up for good, and no query looks at the
   view that reads the counter afterwards; only one that had read zero before may still do so.
   */
  lemma AfterALeakEveryQueryAsks(tr: seq<State>, evs: seq<Event>, k: nat, i: nat, q: QueryId)
    requires IsRun(tr, evs) && k <= i < |evs| && tr[k].leaked > 0 && MayNotLook(tr[k], q)
    ensures tr[i].counter > 0 && evs[i] != ReadView(q)
  {
    LeakLasts(tr, evs, k, i, q);
    assert Enabled(tr[i], evs[i]);
  }

  // ── two runs ──────────────────────────────────────────────────────────────

  /** From its end, a run goes on. */
  lemma GoesOn(tr: seq<State>, evs: seq<Event>, ev: Event, d: State) returns (tr': seq<State>, evs': seq<Event>)
    requires IsRun(tr, evs) && Enabled(tr[|evs|], ev) && Step(tr[|evs|], ev) == d
    ensures IsRun(tr', evs') && |tr'| == |tr| + 1 && |evs'| == |tr| && tr'[|tr|] == d && evs'[|tr| - 1] == ev
    ensures tr'[|tr| - 1] == tr[|tr| - 1]
  {
    tr', evs' := tr + [d], evs + [ev];
    hide Step, Enabled;
  }

  function Plain(view: Option<Plan>, jobs: seq<Job>, worker: Worker, plan: Plan, handed: seq<Edit>, queued: set<Edit>): State {
    Start().(view := view, jobs := jobs, worker := worker, plan := plan, handed := handed, queued := queued)
  }

  /** An edit that is not counted is queued, taken and applied. */
  lemma AppliesOne(tr: seq<State>, evs: seq<Event>, view: Option<Plan>, e: Edit) returns (tr': seq<State>, evs': seq<Event>)
    requires IsRun(tr, evs) && tr[|evs|] == Start().(view := view) && !e.Counted?
    ensures IsRun(tr', evs')
    ensures tr'[|evs'|] == Plain(view, [], Idle, if e.Offer? then [] else [e], if e.Offer? then [e] else [], {e})
  {
    assert |tr| == |evs| + 1;
    hide IsRun;
    var s1 := Plain(view, [Do(e)], Idle, [], [], {e});
    tr', evs' := GoesOn(tr, evs, Enqueue(e), s1);
    var s2 := Plain(view, [], Taken(Do(e)), [], [], {e});
    assert Step(s1, Take) == s2;
    tr', evs' := GoesOn(tr', evs', Take, s2);
    tr', evs' := GoesOn(tr', evs', Apply, Step(s2, Apply));
  }

  /** It happens: an edit from the notes is in the plan, and a later query does not see it in the view. */
  lemma QuietEditCanBeMissed() returns (tr: seq<State>, evs: seq<Event>)
    ensures IsRun(tr, evs)
    ensures var s := tr[|evs|]; s.plan == [Notes(7)] && 1 in s.due && Notes(7) in s.due[1] && 1 in s.answers && s.answers[1] == []
  {
    tr, evs := [Start(), Start().(view := Some([]))], [Publish];
    tr, evs := AppliesOne(tr, evs, Some([]), Notes(7));
    assert |tr| == |evs| + 1;
    hide IsRun;
    var s2 := Step(tr[|evs|], ReadCounter(1));
    tr, evs := GoesOn(tr, evs, ReadCounter(1), s2);
    tr, evs := GoesOn(tr, evs, ReadView(1), Step(s2, ReadView(1)));
  }

  /** From the state after a query has read a zero counter and found no view, it asks, and is answered from the plan. */
  lemma AskedAndAnswered(s: State, q: QueryId)
    requires s.jobs == [] && s.worker == Idle && q in s.asking && s.asking[q] == MustAsk
    ensures Enabled(s, Ask(q)) && Enabled(Step(s, Ask(q)), Take)
    ensures Step(Step(s, Ask(q)), Take) == s.(asking := s.asking[q := Asked], worker := Taken(Query(q)))
  {
  }

  /** And an accepted offer is with the provider when a later query is answered, although through the queue. */
  lemma OfferCanBeMissedByTheQueue() returns (tr: seq<State>, evs: seq<Event>)
    ensures IsRun(tr, evs) && |evs| > 0 && FromQueue(tr, evs, |evs| - 1, 1)
    ensures var s := tr[|evs|];
      s.handed == [Offer(7)] && 1 in s.due && Offer(7) in s.due[1] && 1 in s.answers && s.answers[1] == []
  {
    tr, evs := AppliesOne([Start()], [], None, Offer(7));
    assert |tr| == |evs| + 1;
    hide IsRun;
    var s2 := Step(tr[|evs|], ReadCounter(1));
    tr, evs := GoesOn(tr, evs, ReadCounter(1), s2);
    var s3 := Step(s2, ReadView(1));
    tr, evs := GoesOn(tr, evs, ReadView(1), s3);
    AskedAndAnswered(s3, 1);
    tr, evs := GoesOn(tr, evs, Ask(1), Step(s3, Ask(1)));
    var s5 := s3.(asking := s3.asking[1 := Asked], worker := Taken(Query(1)));
    tr, evs := GoesOn(tr, evs, Take, s5);
    tr, evs := GoesOn(tr, evs, Answer, Step(s5, Answer));
  }
}
