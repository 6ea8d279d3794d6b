/**
 Which connection of the anonymous channel serves which request: one connection, one recipient, for a
 series of less than a minute; public requests alone on theirs. The planner only decides; the host opens
 and closes the connections, and tells it of those that were closed.
 */
module AnonPlanner {
  import opened Prelude

  const ANON_SERIES_MS: int := 60_000

  type Address = string
  type GroupId = nat
  type Conn = nat

  datatype Target = User(address: Address) | Group(id: GroupId) | Public

  /** A request as far as its recipient goes: the envelopes' recipients, the envelope's group, or none of these. */
  datatype Body =
    | Sealed(recipients: Option<seq<Option<Address>>>)  // none if the body does not decode
    | GroupEnvelope(group: Option<Option<GroupId>>)
    | OtherMethod

  datatype Refusal = Malformed | BadRecipient | BadGroup

  /** Who a request is for. All envelopes of a personal delivery must be for one user. */
  function AnonTarget(b: Body): Result<Target, Refusal> {
    match b
    case Sealed(rs) =>
      if rs.None? then Err(Malformed)
      else if rs.value == [] || rs.value[0].None? then Err(BadRecipient)
      else if exists r :: r in rs.value && r != rs.value[0] then Err(BadRecipient)
      else Ok(User(rs.value[0].value))
    case GroupEnvelope(g) =>
      if g.None? then Err(Malformed) else if g.value.None? then Err(BadGroup) else Ok(Group(g.value.value))
    case OtherMethod => Ok(Public)
  }

  /** A personal delivery is accepted exactly if it has envelopes and each is for that user. */
  lemma OneRecipientPerRequest(rs: seq<Option<Address>>, user: Address)
    ensures AnonTarget(Sealed(Some(rs))) == Ok(User(user)) <==> rs != [] && forall i :: 0 <= i < |rs| ==> rs[i] == Some(user)
  {
    if rs != [] {
      assert rs[0] in rs;
      if forall i :: 0 <= i < |rs| ==> rs[i] == Some(user) {
        assert forall r :: r in rs ==> r == Some(user);
      } else {
        var i :| 0 <= i < |rs| && rs[i] != Some(user);
        assert rs[i] in rs;
      }
    }
  }

  /** An envelope for a group goes to that group; what does not decode or names nobody is refused; all else is for everyone. */
  lemma OtherRequests(b: Body)
    ensures b.GroupEnvelope? ==> (
      if b.group.None? then AnonTarget(b) == Err(Malformed)
      else if b.group.value.None? then AnonTarget(b) == Err(BadGroup) else AnonTarget(b) == Ok(Group(b.group.value.value)))
    ensures AnonTarget(b) == Ok(Public) <==> b == OtherMethod
    ensures b.Sealed? && AnonTarget(b).Err? ==> AnonTarget(b).error == if b.recipients.None? then Malformed else BadRecipient
  {
  }

  // ── the planner ───────────────────────────────────────────────────────────

  datatype Open = Open(id: Conn, target: Target, openedMs: int)

  datatype State = State(conns: seq<Open>, nextId: nat)

  datatype Assignment = Assignment(conn: Conn, open: bool, closeAfter: bool)

  predicate Fits(c: Open, target: Target, now: int) {
    c.target == target && now - c.openedMs < ANON_SERIES_MS
  }

  function Dropping(cs: seq<Open>, target: Target): seq<Open> {
    if cs == [] then []
    else Dropping(cs[..|cs| - 1], target) + if cs[|cs| - 1].target != target then [cs[|cs| - 1]] else []
  }

  function StillOpen(cs: seq<Open>, now: int): seq<Open> {
    if cs == [] then []
    else StillOpen(cs[..|cs| - 1], now) + if now - cs[|cs| - 1].openedMs < ANON_SERIES_MS then [cs[|cs| - 1]] else []
  }

  function WithoutConn(cs: seq<Open>, conn: Conn): seq<Open> {
    if cs == [] then []
    else WithoutConn(cs[..|cs| - 1], conn) + if cs[|cs| - 1].id != conn then [cs[|cs| - 1]] else []
  }

  /** The first connection of this recipient that is still within its series. */
  function FirstFit(cs: seq<Open>, target: Target, now: int): (r: Option<Open>)
    ensures r.Some? <==> exists c :: c in cs && Fits(c, target, now)
    ensures r.Some? ==> r.value in cs && Fits(r.value, target, now)
  {
    if cs == [] then None
    else if Fits(cs[0], target, now) then Some(cs[0])
    else FirstFit(cs[1..], target, now)
  }

  datatype Assigned = Assigned(s: State, a: Assignment)

  function Assign(s: State, target: Target, now: int): Assigned {
    if target != Public && FirstFit(s.conns, target, now).Some? then
      Assigned(s, Assignment(FirstFit(s.conns, target, now).value.id, false, false))
    else if target == Public then
      Assigned(s.(nextId := s.nextId + 1), Assignment(s.nextId + 1, true, true))
    else
      Assigned(State(Dropping(s.conns, target) + [Open(s.nextId + 1, target, now)], s.nextId + 1),
               Assignment(s.nextId + 1, true, false))
  }

  datatype Planned = Planned(s: State, given: seq<Assignment>, refused: Option<Refusal>)

  function After(given: seq<Assignment>, p: Planned): Planned {
    p.(given := given + p.given)
  }

  /** Assign one request after another, up to the first that is refused. */
  function AssignAll(s: State, bs: seq<Body>, now: int): Planned
    decreases |bs|
  {
    if bs == [] then Planned(s, [], None)
    else
      var t := AnonTarget(bs[0]);
      if t.Err? then Planned(s, [], Some(t.error))
      else
        var one := Assign(s, t.value, now);
        After([one.a], AssignAll(one.s, bs[1..], now))
  }

  lemma AfterNothing(p: Planned)
    ensures After([], p) == p
  {
    assert [] + p.given == p.given;
  }

  lemma AfterTwice(given: seq<Assignment>, a: Assignment, p: Planned)
    ensures After(given, After([a], p)) == After(given + [a], p)
  {
    assert given + ([a] + p.given) == given + [a] + p.given;
  }

  class Planner {
    var conns: seq<Open>
    var nextId: nat

    ghost function Now(): State
      reads this
    {
      State(conns, nextId)
    }

    constructor ()
      ensures Now() == State([], 0)
    {
      conns, nextId := [], 0;
    }

    method AssignConn(target: Target, now: int) returns (a: Assignment)
      modifies this
      ensures Assigned(Now(), a) == Assign(old(Now()), target, now)
    {
      if target != Public {
        var c := Find(conns, target, now);
        if c.Some? { return Assignment(c.value.id, false, false); }
      }
      nextId := nextId + 1;
      if target != Public {
        var kept := Drop(conns, target);
        conns := kept + [Open(nextId, target, now)];
      }
      return Assignment(nextId, true, target == Public);
    }

    static method Find(cs: seq<Open>, target: Target, now: int) returns (r: Option<Open>)
      ensures r == FirstFit(cs, target, now)
    {
      for i := 0 to |cs|
        invariant FirstFit(cs, target, now) == FirstFit(cs[i..], target, now)
      {
        assert cs[i..][0] == cs[i] && cs[i..][1..] == cs[i + 1..];
        if Fits(cs[i], target, now) { return Some(cs[i]); }
      }
      return None;
    }

    static method Drop(cs: seq<Open>, target: Target) returns (kept: seq<Open>)
      ensures kept == Dropping(cs, target)
    {
      kept := [];
      for i := 0 to |cs|
        invariant kept == Dropping(cs[..i], target)
      {
        assert cs[..i + 1][..i] == cs[..i];
        if cs[i].target != target { kept := kept + [cs[i]]; }
      }
      assert cs[..|cs|] == cs;
    }

    /** Assign a list of requests. If one is refused the answer is that refusal, but what was assigned before it stays. */
    method Plan(bs: seq<Body>, now: int) returns (r: Result<seq<Assignment>, Refusal>)
      modifies this
      ensures var p := AssignAll(old(Now()), bs, now);
        Now() == p.s && r == if p.refused.Some? then Err(p.refused.value) else Ok(p.given)
    {
      hide Assign, AnonTarget;
      var given: seq<Assignment> := [];
      ghost var whole := AssignAll(Now(), bs, now);
      AfterNothing(whole);
      for i := 0 to |bs|
        invariant whole == After(given, AssignAll(Now(), bs[i..], now))
      {
        assert bs[i..][0] == bs[i] && bs[i..][1..] == bs[i + 1..];
        var t := AnonTarget(bs[i]);
        if t.Err? { return Err(t.error); }
        ghost var later := AssignAll(Assign(Now(), t.value, now).s, bs[i + 1..], now);
        var a := AssignConn(t.value, now);
        AfterTwice(given, a, later);
        given := given + [a];
      }
      assert given + [] == given;
      return Ok(given);
    }

    /** The connections whose series is over: the host closes them. */
    method Expired(now: int) returns (old_: seq<Conn>)
      modifies this`conns
      ensures conns == StillOpen(old(conns), now)
      ensures forall id :: id in old_ <==> exists c :: c in old(conns) && c.id == id && ANON_SERIES_MS <= now - c.openedMs
    {
      old_ := [];
      var kept: seq<Open> := [];
      for i := 0 to |conns|
        invariant conns == old(conns) && kept == StillOpen(conns[..i], now)
        invariant forall c :: c in conns[..i] && ANON_SERIES_MS <= now - c.openedMs ==> c.id in old_
        invariant forall id :: id in old_ ==> exists c :: c in conns[..i] && c.id == id && ANON_SERIES_MS <= now - c.openedMs
      {
        assert conns[..i + 1][..i] == conns[..i] && conns[..i + 1] == conns[..i] + [conns[i]];
        assert StillOpen(conns[..i + 1], now) == kept + if now - conns[i].openedMs < ANON_SERIES_MS then [conns[i]] else [];
        hide StillOpen;
        if ANON_SERIES_MS <= now - conns[i].openedMs { old_ := old_ + [conns[i].id]; } else { kept := kept + [conns[i]]; }
      }
      assert conns[..|conns|] == conns;
      conns := kept;
    }

    method Closed(conn: Conn)
      modifies this`conns
      ensures conns == WithoutConn(old(conns), conn)
    {
      var kept: seq<Open> := [];
      for i := 0 to |conns|
        invariant conns == old(conns) && kept == WithoutConn(conns[..i], conn)
      {
        assert conns[..i + 1][..i] == conns[..i];
        if conns[i].id != conn { kept := kept + [conns[i]]; }
      }
      assert conns[..|conns|] == conns;
      conns := kept;
    }
  }

  // ── whole runs ────────────────────────────────────────────────────────────

  datatype Act =
    | Use(target: Target, now: int)        // assign, or one request of a plan
    | CloseOld(now: int)
    | HostClosed(conn: Conn)

  /** An assignment as the host saw it. */
  datatype Served = Served(target: Target, now: int, a: Assignment)

  /** The planner, all assignments so far, and the connections the host has open. */
  datatype World = World(s: State, log: seq<Served>, live: set<Conn>)

  function Next(w: World, act: Act): World {
    match act
    case Use(target, now) =>
      var r := Assign(w.s, target, now);
      World(r.s, w.log + [Served(target, now, r.a)], if r.a.open then w.live + {r.a.conn} else w.live)
    case CloseOld(now) =>
      World(w.s.(conns := StillOpen(w.s.conns, now)), w.log,
            w.live - set c | c in w.s.conns && ANON_SERIES_MS <= now - c.openedMs :: c.id)
    case HostClosed(conn) => World(w.s.(conns := WithoutConn(w.s.conns, conn)), w.log, w.live - {conn})
  }

  function Run(w: World, acts: seq<Act>): World
    decreases |acts|
  {
    if acts == [] then w else Run(Next(w, acts[0]), acts[1..])
  }

  const EMPTY := World(State([], 0), [], {})

  /** The assignment that opened a connection, in the log. */
  ghost predicate OpenedBy(log: seq<Served>, k: nat, c: Conn) {
    k < |log| && log[k].a.open && log[k].a.conn == c
  }

  ghost predicate KnownConn(log: seq<Served>, c: Open) {
    exists k: nat :: OpenedBy(log, k, c.id) && log[k].target == c.target && log[k].now == c.openedMs
  }

  /** Each use is by the recipient the connection was opened for, in time, and only if it was opened. */
  ghost predicate UseOk(log: seq<Served>, i: nat)
    requires i < |log|
  {
    && log[i].a.closeAfter == (log[i].target == Public)
    && (log[i].target == Public ==> log[i].a.open)
    && (!log[i].a.open ==>
          exists k: nat ::
            && k < i && OpenedBy(log, k, log[i].a.conn)
            && log[k].target == log[i].target && log[i].now - log[k].now < ANON_SERIES_MS)
  }

  ghost predicate Sound(w: World) {
    && (forall i :: 0 <= i < |w.log| ==> w.log[i].a.conn <= w.s.nextId && UseOk(w.log, i))
    && (forall i, k :: 0 <= i < k < |w.log| && w.log[i].a.open && w.log[k].a.open ==> w.log[i].a.conn != w.log[k].a.conn)
    && (forall c :: c in w.s.conns ==> c.id in w.live && c.target != Public && KnownConn(w.log, c))
  }

  lemma Subsets(cs: seq<Open>, target: Target, now: int, conn: Conn)
    ensures forall c :: c in Dropping(cs, target) <==> c in cs && c.target != target
    ensures forall c :: c in StillOpen(cs, now) <==> c in cs && now - c.openedMs < ANON_SERIES_MS
    ensures forall c :: c in WithoutConn(cs, conn) <==> c in cs && c.id != conn
  {
    if cs != [] {
      Subsets(cs[..|cs| - 1], target, now, conn);
      assert cs == cs[..|cs| - 1] + [cs[|cs| - 1]];
    }
  }

  lemma KnownStays(log: seq<Served>, more: Served, c: Open)
    requires KnownConn(log, c)
    ensures KnownConn(log + [more], c)
  {
    var k: nat :| OpenedBy(log, k, c.id) && log[k].target == c.target && log[k].now == c.openedMs;
    assert OpenedBy(log + [more], k, c.id);
  }

  lemma UseStays(log: seq<Served>, more: Served, i: nat)
    requires i < |log| && UseOk(log, i)
    ensures UseOk(log + [more], i)
  {
    if !log[i].a.open {
      var k: nat :| k < i && OpenedBy(log, k, log[i].a.conn) && log[k].target == log[i].target && log[i].now - log[k].now < ANON_SERIES_MS;
      assert OpenedBy(log + [more], k, log[i].a.conn);
    }
  }

  lemma UseKeepsSound(w: World, target: Target, now: int)
    requires Sound(w)
    ensures Sound(Next(w, Use(target, now)))
  {
    var v := Next(w, Use(target, now));
    var served := Served(target, now, Assign(w.s, target, now).a);
    Subsets(w.s.conns, target, now, 0);
    var n := |w.log|;
    forall i | 0 <= i < |v.log| ensures v.log[i].a.conn <= v.s.nextId && UseOk(v.log, i) {
      if i < n {
        UseStays(w.log, served, i);
      } else if !served.a.open {
        var c := FirstFit(w.s.conns, target, now).value;
        assert KnownConn(w.log, c);
        var k: nat :| OpenedBy(w.log, k, c.id) && w.log[k].target == c.target && w.log[k].now == c.openedMs;
        assert OpenedBy(v.log, k, c.id);
      }
    }
    forall c | c in v.s.conns ensures c.id in v.live && c.target != Public && KnownConn(v.log, c) {
      if c in w.s.conns {
        KnownStays(w.log, served, c);
      } else {
        assert OpenedBy(v.log, n, c.id);
      }
    }
  }

  lemma NextKeepsSound(w: World, act: Act)
    requires Sound(w) && DistinctIds(w.s.conns)
    ensures Sound(Next(w, act)) && DistinctIds(Next(w, act).s.conns)
  {
    match act {
      case Use(target, now) =>
        UseKeepsSound(w, target, now);
        UseKeepsDistinct(w, target, now);
      case CloseOld(now) =>
        Subsets(w.s.conns, Public, now, 0);
        SubsetsDistinct(w.s.conns, Public, now, 0);
      case HostClosed(conn) =>
        Subsets(w.s.conns, Public, 0, conn);
        SubsetsDistinct(w.s.conns, Public, 0, conn);
    }
  }

  ghost predicate DistinctIds(cs: seq<Open>) {
    forall i, k :: 0 <= i < k < |cs| ==> cs[i].id != cs[k].id
  }

  lemma DistinctPush(cs: seq<Open>, c: Open)
    requires DistinctIds(cs) && forall x :: x in cs ==> x.id != c.id
    ensures DistinctIds(cs + [c])
  {
  }

  lemma {:induction false} SubsetsDistinct(cs: seq<Open>, target: Target, now: int, conn: Conn)
    requires DistinctIds(cs)
    ensures DistinctIds(Dropping(cs, target)) && DistinctIds(StillOpen(cs, now)) && DistinctIds(WithoutConn(cs, conn))
  {
    if cs != [] {
      var k := |cs| - 1;
      assert DistinctIds(cs[..k]) && forall c :: c in cs[..k] ==> c.id != cs[k].id;
      hide DistinctIds;
      SubsetsDistinct(cs[..k], target, now, conn);
      Subsets(cs[..k], target, now, conn);
      assert DistinctIds(Dropping(cs, target)) by {
        DistinctPush(Dropping(cs[..k], target), cs[k]);
        hide StillOpen, WithoutConn;
      }
      assert DistinctIds(StillOpen(cs, now)) by {
        DistinctPush(StillOpen(cs[..k], now), cs[k]);
        hide Dropping, WithoutConn;
      }
      assert DistinctIds(WithoutConn(cs, conn)) by {
        DistinctPush(WithoutConn(cs[..k], conn), cs[k]);
        hide Dropping, StillOpen;
      }
      hide *;
    }
  }

  lemma UseKeepsDistinct(w: World, target: Target, now: int)
    requires Sound(w) && DistinctIds(w.s.conns)
    ensures DistinctIds(Next(w, Use(target, now)).s.conns)
  {
    SubsetsDistinct(w.s.conns, target, now, 0);
    Subsets(w.s.conns, target, now, 0);
    forall c | c in w.s.conns ensures c.id <= w.s.nextId {
      var k: nat :| OpenedBy(w.log, k, c.id) && w.log[k].target == c.target && w.log[k].now == c.openedMs;
    }
  }

  lemma {:induction false} RunKeepsSound(w: World, acts: seq<Act>)
    requires Sound(w) && DistinctIds(w.s.conns)
    ensures Sound(Run(w, acts))
    decreases |acts|
  {
    if acts != [] {
      NextKeepsSound(w, acts[0]);
      hide Sound, Next, DistinctIds;
      RunKeepsSound(Next(w, acts[0]), acts[1..]);
    }
  }

  /**
   Over every run of assignments, expiries and closings: two uses of one connection are for one recipient, a public
   one is used once, every use falls less than a minute after the opening, and only a connection that was handed
   out as open, and not closed or expired since, is handed out again.
   */
  lemma OneConnectionOneRecipient(acts: seq<Act>, target: Target, now: int)
    ensures var w := Run(EMPTY, acts);
      && (forall i, k :: 0 <= i < k < |w.log| && w.log[i].a.conn == w.log[k].a.conn ==>
            w.log[i].target == w.log[k].target && w.log[i].target != Public)
      && (forall i :: 0 <= i < |w.log| ==> UseOk(w.log, i))
      && var a := Assign(w.s, target, now).a; !a.open ==> a.conn in w.live
  {
    RunKeepsSound(EMPTY, acts);
    var w := Run(EMPTY, acts);
    forall i, k | 0 <= i < k < |w.log| && w.log[i].a.conn == w.log[k].a.conn
      ensures w.log[i].target == w.log[k].target && w.log[i].target != Public
    {
      SameOpening(w, i, k);
    }
  }

  ghost predicate Opening(log: seq<Served>, i: nat, o: nat) {
    i < |log| && OpenedBy(log, o, log[i].a.conn) && log[o].target == log[i].target && o <= i
  }

  lemma OpeningOf(w: World, i: nat) returns (o: nat)
    requires Sound(w) && i < |w.log|
    ensures Opening(w.log, i, o)
  {
    assert UseOk(w.log, i);
    if w.log[i].a.open {
      o := i;
    } else {
      var k: nat :| k < i && OpenedBy(w.log, k, w.log[i].a.conn) && w.log[k].target == w.log[i].target;
      o := k;
    }
  }

  lemma SameOpening(w: World, i: nat, k: nat)
    requires Sound(w) && i < k < |w.log| && w.log[i].a.conn == w.log[k].a.conn
    ensures w.log[i].target == w.log[k].target && w.log[i].target != Public
  {
    var o := OpeningOf(w, i);
    var p := OpeningOf(w, k);
    assert o == p;
    assert UseOk(w.log, i) && UseOk(w.log, k);
  }

  // ── a plan that fails ─────────────────────────────────────────────────────

  /** A connection the planner counts on without having handed it out: left behind by a plan that failed. */
  ghost predicate Phantom(w: World, s: State, target: Target, now: int) {
    target != Public && FirstFit(s.conns, target, now).Some? && FirstFit(s.conns, target, now).value.id !in w.live
  }

  /** The recipient is among those of the requests before the first refused one. */
  predicate AskedBefore(bs: seq<Body>, target: Target) {
    bs != [] && AnonTarget(bs[0]).Ok? && (AnonTarget(bs[0]).value == target || AskedBefore(bs[1..], target))
  }

  lemma FitsAfter(s: State, other: Target, target: Target, now: int)
    requires other != target
    ensures FirstFit(Assign(s, other, now).s.conns, target, now) == FirstFit(s.conns, target, now)
  {
    hide FirstFit, Dropping;
    if other != Public && FirstFit(s.conns, other, now).None? {
      FitsAmong(s.conns, other, target, now);
      FitsAppended(Dropping(s.conns, other), Open(s.nextId + 1, other, now), target, now);
    }
  }

  lemma {:induction false} FitsAmong(cs: seq<Open>, other: Target, target: Target, now: int)
    requires other != target
    ensures FirstFit(Dropping(cs, other), target, now) == FirstFit(cs, target, now)
  {
    if cs != [] {
      var k := |cs| - 1;
      assert cs == cs[..k] + [cs[k]];
      FitsAmong(cs[..k], other, target, now);
      FitsAppended(cs[..k], cs[k], target, now);
      FitsAppended(Dropping(cs[..k], other), cs[k], target, now);
      assert Dropping(cs[..k], other) + [] == Dropping(cs[..k], other);
    }
  }

  lemma {:induction false} FitsAppended(cs: seq<Open>, c: Open, target: Target, now: int)
    ensures FirstFit(cs + [c], target, now)
         == if FirstFit(cs, target, now).Some? then FirstFit(cs, target, now) else if Fits(c, target, now) then Some(c) else None
  {
    if cs == [] {
      assert cs + [c] == [c];
    } else {
      assert (cs + [c])[0] == cs[0] && (cs + [c])[1..] == cs[1..] + [c];
      FitsAppended(cs[1..], c, target, now);
    }
  }

  lemma FreshFits(s: State, target: Target, now: int)
    requires target != Public && FirstFit(s.conns, target, now).None?
    ensures FirstFit(Assign(s, target, now).s.conns, target, now) == Some(Open(s.nextId + 1, target, now))
  {
    Subsets(s.conns, target, now, 0);
    FitsAppended(Dropping(s.conns, target), Open(s.nextId + 1, target, now), target, now);
  }

  lemma {:induction false} FitsAfterAll(s: State, bs: seq<Body>, target: Target, now: int)
    requires target != Public
    ensures var d := AssignAll(s, bs, now).s;
      && s.nextId <= d.nextId
      && (FirstFit(s.conns, target, now).Some? ==> FirstFit(d.conns, target, now) == FirstFit(s.conns, target, now))
      && (FirstFit(s.conns, target, now).None? ==>
            (FirstFit(d.conns, target, now).Some? <==> AskedBefore(bs, target))
            && (FirstFit(d.conns, target, now).Some? ==> s.nextId < FirstFit(d.conns, target, now).value.id))
    decreases |bs|
  {
    if bs != [] && AnonTarget(bs[0]).Ok? {
      var t := AnonTarget(bs[0]).value;
      var one := Assign(s, t, now);
      if t != target {
        FitsAfter(s, t, target, now);
      } else if FirstFit(s.conns, target, now).None? {
        FreshFits(s, target, now);
      }
      hide Assign, AnonTarget, FirstFit;
      FitsAfterAll(one.s, bs[1..], target, now);
    }
  }

  /**
   A plan that fails midway keeps connections nobody was told of. It does so for a recipient exactly if a request
   before the refused one was for it and it had no connection in its series: the next request is then sent to a
   number the host has never opened.
   */
  lemma FailedPlanLeavesPhantomIff(acts: seq<Act>, bs: seq<Body>, target: Target, now: int)
    requires AssignAll(Run(EMPTY, acts).s, bs, now).refused.Some?
    ensures var w := Run(EMPTY, acts);
      Phantom(w, AssignAll(w.s, bs, now).s, target, now)
      <==> target != Public && FirstFit(w.s.conns, target, now).None? && AskedBefore(bs, target)
  {
    RunKeepsSound(EMPTY, acts);
    RunKeepsLiveIssued(EMPTY, acts);
    var w := Run(EMPTY, acts);
    if target != Public { FitsAfterAll(w.s, bs, target, now); }
  }

  lemma {:induction false} RunKeepsLiveIssued(w: World, acts: seq<Act>)
    requires Sound(w) && DistinctIds(w.s.conns) && forall c :: c in w.live ==> c <= w.s.nextId
    ensures forall c :: c in Run(w, acts).live ==> c <= Run(w, acts).s.nextId
    decreases |acts|
  {
    if acts != [] {
      NextKeepsSound(w, acts[0]);
      var v := Next(w, acts[0]);
      assert forall c :: c in v.live ==> c <= v.s.nextId;
      hide Sound, Next, DistinctIds;
      RunKeepsLiveIssued(v, acts[1..]);
    }
  }
}
