/**
 The limits of the Telegram bot. A user's text is passed on as a recovery key only shortly after it was
 asked for, and at most six times in any minute; a bounded number of requests, in all and for one user,
 waits for a button to be pressed.
 */
module TgBot {
  import opened Prelude

  type UserId = nat
  type Time = real

  const ASK_TTL_S: Time := 3600.0
  const KEY_REPLY_WINDOW_S: Time := 60.0
  const KEY_REPLY_MAX: nat := 6
  const PENDING_TTL_S: Time := 300.0
  const PENDING_PER_USER: nat := 3
  const PENDING_MAX: nat := 1000

  // ── how often a key is passed on ──────────────────────────────────────────

  /** The times that lie within the window before `now`. */
  function Recent(ts: seq<Time>, now: Time): seq<Time> {
    if ts == [] then []
    else Recent(ts[..|ts| - 1], now) + if now - ts[|ts| - 1] < KEY_REPLY_WINDOW_S then [ts[|ts| - 1]] else []
  }

  function RepliesOf(replies: map<UserId, seq<Time>>, user: UserId): seq<Time> {
    if user in replies then replies[user] else []
  }

  class KeyReplies {
    var asked: map<UserId, Time>
    var replies: map<UserId, seq<Time>>
    /** All replies ever passed on, and the latest time seen. */
    ghost var passed: map<UserId, seq<Time>>
    ghost var clock: Time

    /** What is remembered of each user is all that can still matter. */
    ghost predicate Valid()
      reads this
    {
      && (forall u, now :: clock <= now ==> Recent(RepliesOf(replies, u), now) == Recent(RepliesOf(passed, u), now))
      && (forall u :: Ordered(RepliesOf(passed, u)) && Before(RepliesOf(passed, u), clock) && Spaced(RepliesOf(passed, u)))
    }

    constructor (start: Time)
      ensures Valid() && passed == map[] && asked == map[] && clock == start
    {
      asked, replies, passed, clock := map[], map[], map[], start;
    }

    /** The server asked this user for the key. */
    method NoteAsked(user: UserId, now: Time)
      requires Valid() && clock <= now
      modifies this`asked, this`clock
      ensures Valid() && asked == old(asked)[user := now]
    {
      asked := asked[user := now];
      clock := now;
      forall u ensures Before(RepliesOf(passed, u), now) { BeforeLater(RepliesOf(passed, u), old(clock), now); }
    }

    /** Pass this text on? Yes exactly if the user was asked lately and has had fewer than six passed on in the last minute. */
    method KeyReplyAllowed(user: UserId, now: Time) returns (allowed: bool)
      requires Valid() && clock <= now
      modifies this
      ensures Valid()
      ensures allowed <==>
        && user in old(asked) && now - old(asked)[user] <= ASK_TTL_S
        && |Recent(RepliesOf(old(passed), user), now)| < KEY_REPLY_MAX
      ensures passed == if allowed then old(passed)[user := RepliesOf(old(passed), user) + [now]] else old(passed)
      ensures asked == if user in old(asked) && now - old(asked)[user] <= ASK_TTL_S then old(asked) else old(asked) - {user}
    {
      ghost var was := RepliesOf(passed, user);
      forall u ensures Before(RepliesOf(passed, u), now) { BeforeLater(RepliesOf(passed, u), clock, now); }
      clock := now;
      if user !in asked || now - asked[user] > ASK_TTL_S {
        asked := asked - {user};
        return false;
      }
      var recent := Filter(RepliesOf(replies, user), now);
      forall later | now <= later ensures Recent(recent, later) == Recent(was, later) {
        RecentOfRecent(RepliesOf(replies, user), now, later);
      }
      if |recent| >= KEY_REPLY_MAX {
        replies := replies[user := recent];
        return false;
      }
      forall later | now <= later ensures Recent(recent + [now], later) == Recent(was + [now], later) {
        RecentPush(recent, now, later);
        RecentPush(was, now, later);
      }
      StillSpaced(was, now);
      recent := recent + [now];
      replies := replies[user := recent];
      passed := passed[user := was + [now]];
      assert forall u :: RepliesOf(passed, u) == if u == user then was + [now] else RepliesOf(old(passed), u);
      assert forall u :: RepliesOf(replies, u) == if u == user then recent else RepliesOf(old(replies), u);
      return true;
    }

    static method Filter(ts: seq<Time>, now: Time) returns (kept: seq<Time>)
      ensures kept == Recent(ts, now)
    {
      kept := [];
      for i := 0 to |ts|
        invariant kept == Recent(ts[..i], now)
      {
        assert ts[..i + 1][..i] == ts[..i];
        if now - ts[i] < KEY_REPLY_WINDOW_S { kept := kept + [ts[i]]; }
      }
      assert ts[..|ts|] == ts;
    }
  }

  ghost predicate Ordered(ts: seq<Time>) {
    forall i, k :: 0 <= i < k < |ts| ==> ts[i] <= ts[k]
  }

  ghost predicate Before(ts: seq<Time>, now: Time) {
    forall i :: 0 <= i < |ts| ==> ts[i] <= now
  }

  /** In no minute were there more than six. */
  ghost predicate Spaced(ts: seq<Time>) {
    forall i, k :: 0 <= i < k < |ts| && k == i + KEY_REPLY_MAX ==> ts[k] - ts[i] >= KEY_REPLY_WINDOW_S
  }

  lemma BeforeLater(ts: seq<Time>, now: Time, later: Time)
    requires Before(ts, now) && now <= later
    ensures Before(ts, later)
  {
  }

  lemma RecentPush(ts: seq<Time>, t: Time, now: Time)
    ensures Recent(ts + [t], now) == Recent(ts, now) + if now - t < KEY_REPLY_WINDOW_S then [t] else []
  {
    assert (ts + [t])[..|ts|] == ts;
  }

  /** Dropping what is too old now drops nothing that will matter later. */
  lemma {:induction false} RecentOfRecent(ts: seq<Time>, now: Time, later: Time)
    requires now <= later
    ensures Recent(Recent(ts, now), later) == Recent(ts, later)
  {
    if ts != [] {
      var k := |ts| - 1;
      RecentOfRecent(ts[..k], now, later);
      RecentPush(Recent(ts[..k], now), ts[k], later);
      assert Recent(ts[..k], now) + [] == Recent(ts[..k], now);
    }
  }

  /** If fewer than six of the times are recent, the sixth from the end is not. */
  lemma {:induction false} FewAreRecent(ts: seq<Time>, now: Time, n: nat)
    requires Ordered(ts) && n <= |ts| && n > 0 && now - ts[|ts| - n] < KEY_REPLY_WINDOW_S
    ensures n <= |Recent(ts, now)|
    decreases n
  {
    var k := |ts| - 1;
    assert ts[|ts| - n] <= ts[k];
    if n > 1 {
      assert ts[..k][|ts[..k]| - (n - 1)] == ts[|ts| - n];
      FewAreRecent(ts[..k], now, n - 1);
    }
  }

  lemma StillSpaced(ts: seq<Time>, now: Time)
    requires Ordered(ts) && Before(ts, now) && Spaced(ts) && |Recent(ts, now)| < KEY_REPLY_MAX
    ensures Ordered(ts + [now]) && Spaced(ts + [now]) && Before(ts + [now], now)
  {
    if |ts| >= KEY_REPLY_MAX && now - ts[|ts| - KEY_REPLY_MAX] < KEY_REPLY_WINDOW_S {
      FewAreRecent(ts, now, KEY_REPLY_MAX);
      assert false;
    }
  }

  // ── requests that wait for a button ───────────────────────────────────────

  datatype Pending = Pending(id: nat, user: UserId, created: Time)

  function Live(ps: seq<Pending>, now: Time): seq<Pending> {
    if ps == [] then []
    else Live(ps[..|ps| - 1], now) + if now - ps[|ps| - 1].created <= PENDING_TTL_S then [ps[|ps| - 1]] else []
  }

  function CountOf(ps: seq<Pending>, user: UserId): nat {
    if ps == [] then 0 else CountOf(ps[..|ps| - 1], user) + if ps[|ps| - 1].user == user then 1 else 0
  }

  function Without(ps: seq<Pending>, at: nat): seq<Pending>
    requires at < |ps|
  {
    ps[..at] + ps[at + 1..]
  }

  ghost predicate WithinLimits(ps: seq<Pending>) {
    |ps| <= PENDING_MAX && forall u :: CountOf(ps, u) <= PENDING_PER_USER
  }

  /** An oldest of those that count: of one user, or of all. */
  ghost predicate IsOldest(ps: seq<Pending>, at: nat, user: Option<UserId>) {
    && at < |ps| && (user.Some? ==> ps[at].user == user.value)
    && forall p :: p in ps && (user.Some? ==> p.user == user.value) ==> ps[at].created <= p.created
  }

  /** The queue after one request gave way, if one had to. */
  ghost predicate GaveWay(ps: seq<Pending>, qs: seq<Pending>, must: bool, user: Option<UserId>) {
    if must then exists at :: IsOldest(ps, at, user) && qs == Without(ps, at) else qs == ps
  }

  class Waiting {
    var pending: seq<Pending>

    constructor ()
      ensures pending == [] && WithinLimits(pending)
    {
      pending := [];
    }

    method Purge(now: Time)
      requires WithinLimits(pending)
      modifies this
      ensures pending == Live(old(pending), now) && WithinLimits(pending)
    {
      var kept: seq<Pending> := [];
      for i := 0 to |pending|
        invariant pending == old(pending) && kept == Live(pending[..i], now)
      {
        assert pending[..i + 1][..i] == pending[..i];
        if now - pending[i].created <= PENDING_TTL_S { kept := kept + [pending[i]]; }
      }
      assert pending[..|pending|] == pending;
      LiveCounts(pending, now, 0);
      forall u ensures CountOf(kept, u) <= CountOf(pending, u) { LiveCounts(pending, now, u); }
      pending := kept;
    }

    /**
     A request is put in the queue. Requests that are too old go first; then the oldest of this user's own, if there
     are three; then the oldest of all, if there are a thousand. Nothing else is dropped.
     */
    method AddRequest(id: nat, user: UserId, now: Time) returns (ghost kept: seq<Pending>, ghost left: seq<Pending>)
      requires WithinLimits(pending)
      modifies this
      ensures WithinLimits(pending) && pending == left + [Pending(id, user, now)]
      ensures var live := Live(old(pending), now);
        && GaveWay(live, kept, CountOf(live, user) == PENDING_PER_USER, Some(user))
        && GaveWay(kept, left, |kept| == PENDING_MAX, None)
    {
      Purge(now);
      var own := Count(pending, user);
      kept := pending;
      if own >= PENDING_PER_USER {
        CountedIsThere(pending, user);
        var at := Oldest(pending, Some(user));
        forall u ensures CountOf(Without(pending, at), u) == CountOf(pending, u) - if pending[at].user == u then 1 else 0 {
          WithoutCounts(pending, at, u);
        }
        kept := Without(pending, at);
        assert GaveWay(Live(old(pending), now), kept, true, Some(user));
        pending := pending[..at] + pending[at + 1..];
      }
      left := pending;
      if |pending| >= PENDING_MAX {
        assert pending[0] in pending;
        var at := Oldest(pending, None);
        forall u ensures CountOf(Without(pending, at), u) <= CountOf(pending, u) { WithoutCounts(pending, at, u); }
        left := Without(pending, at);
        assert GaveWay(kept, left, true, None);
        pending := pending[..at] + pending[at + 1..];
      }
      forall u ensures CountOf(pending + [Pending(id, user, now)], u) == CountOf(pending, u) + if u == user then 1 else 0 {
        CountPush(pending, Pending(id, user, now), u);
      }
      pending := pending + [Pending(id, user, now)];
    }

    static method Count(ps: seq<Pending>, user: UserId) returns (n: nat)
      ensures n == CountOf(ps, user)
    {
      n := 0;
      for i := 0 to |ps|
        invariant n == CountOf(ps[..i], user)
      {
        assert ps[..i + 1][..i] == ps[..i];
        if ps[i].user == user { n := n + 1; }
      }
      assert ps[..|ps|] == ps;
    }

    static method Oldest(ps: seq<Pending>, user: Option<UserId>) returns (at: nat)
      requires exists p :: p in ps && (user.Some? ==> p.user == user.value)
      ensures IsOldest(ps, at, user)
    {
      at := 0;
      var found := false;
      for i := 0 to |ps|
        invariant found ==> at < i && (user.Some? ==> ps[at].user == user.value)
        invariant found ==> forall k :: 0 <= k < i && (user.Some? ==> ps[k].user == user.value) ==> ps[at].created <= ps[k].created
        invariant !found ==> forall k :: 0 <= k < i ==> user.Some? && ps[k].user != user.value
      {
        if (user.None? || ps[i].user == user.value) && (!found || ps[i].created < ps[at].created) {
          at, found := i, true;
        }
      }
    }
  }

  /** Exactly the requests within their lifetime stay. */
  lemma {:induction false} LiveAre(ps: seq<Pending>, now: Time, p: Pending)
    ensures p in Live(ps, now) <==> p in ps && now - p.created <= PENDING_TTL_S
  {
    if ps != [] {
      LiveAre(ps[..|ps| - 1], now, p);
      assert ps == ps[..|ps| - 1] + [ps[|ps| - 1]];
    }
  }

  lemma {:induction false} LiveCounts(ps: seq<Pending>, now: Time, user: UserId)
    ensures CountOf(Live(ps, now), user) <= CountOf(ps, user) && |Live(ps, now)| <= |ps|
  {
    if ps != [] {
      var k := |ps| - 1;
      LiveCounts(ps[..k], now, user);
      CountPush(Live(ps[..k], now), ps[k], user);
      assert Live(ps[..k], now) + [] == Live(ps[..k], now);
    }
  }

  lemma CountPush(ps: seq<Pending>, p: Pending, user: UserId)
    ensures CountOf(ps + [p], user) == CountOf(ps, user) + if p.user == user then 1 else 0
  {
    assert (ps + [p])[..|ps|] == ps;
  }

  lemma {:induction false} WithoutCounts(ps: seq<Pending>, at: nat, user: UserId)
    requires at < |ps|
    ensures CountOf(Without(ps, at), user) == CountOf(ps, user) - if ps[at].user == user then 1 else 0
    decreases |ps|
  {
    var k := |ps| - 1;
    if at == k {
      assert Without(ps, at) == ps[..k];
    } else {
      WithoutCounts(ps[..k], at, user);
      assert Without(ps, at) == Without(ps[..k], at) + [ps[k]];
      CountPush(Without(ps[..k], at), ps[k], user);
    }
  }

  /** Someone who waits has a request in the queue. */
  lemma {:induction false} CountedIsThere(ps: seq<Pending>, user: UserId)
    requires CountOf(ps, user) > 0
    ensures exists p :: p in ps && p.user == user
  {
    var k := |ps| - 1;
    if ps[k].user == user {
      assert ps[k] in ps;
    } else {
      CountedIsThere(ps[..k], user);
    }
  }
}
