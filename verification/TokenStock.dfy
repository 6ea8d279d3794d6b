/**
 The stock of blind tokens. They come in batches, at most one a day, at a time of the day that does not
 show when the last batch was used up; they are spent earliest expiry first, and none is spent more
 often than it was received.
 */
module TokenStock {
  import opened Prelude

  const DAY_MS: int := 86_400_000
  const REFILL_JITTER_MAX_MS: int := 21_600_000
  const EXPIRY_MARGIN_MS: int := 60_000
  const I64_MAX: int := 0x7FFF_FFFF_FFFF_FFFF

  type Token = nat
  type KeyId = nat

  datatype Stocked = Stocked(token: Token, keyId: KeyId, validUntil: int)

  function Day(now: int): int {
    now / DAY_MS
  }

  /** The start of the next day, and a delay brought into six hours. */
  function NextRefillAt(now: int, jitter: int): int {
    (Day(now) + 1) * DAY_MS + jitter % REFILL_JITTER_MAX_MS
  }

  /** A token must outlive the moment by a margin; the sum stops at the largest 64-bit number. */
  predicate Lasts(s: Stocked, now: int) {
    Min(now + EXPIRY_MARGIN_MS, I64_MAX) < s.validUntil
  }

  function Lasting(ts: seq<Stocked>, now: int): seq<Stocked> {
    if ts == [] then []
    else Lasting(ts[..|ts| - 1], now) + if Lasts(ts[|ts| - 1], now) then [ts[|ts| - 1]] else []
  }

  function OfKeys(ts: seq<Stocked>, keys: seq<KeyId>): seq<Stocked> {
    if ts == [] then []
    else OfKeys(ts[..|ts| - 1], keys) + if ts[|ts| - 1].keyId in keys then [ts[|ts| - 1]] else []
  }

  function Expiring(ts: seq<Stocked>, now: int): seq<Stocked> {
    if ts == [] then []
    else Expiring(ts[..|ts| - 1], now) + if Lasts(ts[|ts| - 1], now) then [] else [ts[|ts| - 1]]
  }

  function OfOtherKeys(ts: seq<Stocked>, keys: seq<KeyId>): seq<Stocked> {
    if ts == [] then []
    else OfOtherKeys(ts[..|ts| - 1], keys) + if ts[|ts| - 1].keyId in keys then [] else [ts[|ts| - 1]]
  }

  /** The first of those that expire first. */
  function Earliest(ts: seq<Stocked>): (at: nat)
    requires ts != []
    ensures at < |ts| && (forall k :: 0 <= k < |ts| ==> ts[at].validUntil <= ts[k].validUntil)
    ensures forall k :: 0 <= k < at ==> ts[at].validUntil < ts[k].validUntil
  {
    var k := |ts| - 1;
    if k == 0 then 0
    else var at := Earliest(ts[..k]); if ts[k].validUntil < ts[at].validUntil then k else at
  }

  /** Remove one element by putting the last in its place. */
  function SwapRemove(ts: seq<Stocked>, at: nat): seq<Stocked>
    requires at < |ts|
  {
    if at == |ts| - 1 then ts[..at] else ts[..|ts| - 1][at := ts[|ts| - 1]]
  }

  // ── the stock and its history ─────────────────────────────────────────────

  /** How a token left, and on what grounds. */
  datatype Exit = Spent(s: Stocked, now: int) | Expired(s: Stocked, now: int) | Retired(s: Stocked, keys: seq<KeyId>)

  /** The stock, all that was received or put back, and all that left. */
  datatype World = World(tokens: seq<Stocked>, received: seq<Stocked>, putBack: seq<Stocked>, left: seq<Exit>)

  datatype Act = Received(batch: seq<Stocked>) | PutBack(s: Stocked) | Pruned(now: int) | Retained(keys: seq<KeyId>) | Taken(now: int)

  function ExpiredAt(ts: seq<Stocked>, now: int): (es: seq<Exit>)
    ensures |es| == |ts|
  {
    seq(|ts|, i requires 0 <= i < |ts| => Expired(ts[i], now))
  }

  function RetiredBy(ts: seq<Stocked>, keys: seq<KeyId>): (es: seq<Exit>)
    ensures |es| == |ts|
  {
    seq(|ts|, i requires 0 <= i < |ts| => Retired(ts[i], keys))
  }

  function PruneAt(w: World, now: int): World {
    w.(tokens := Lasting(w.tokens, now), left := w.left + ExpiredAt(Expiring(w.tokens, now), now))
  }

  function Step(w: World, a: Act): World {
    match a
    case Received(batch) => w.(tokens := w.tokens + batch, received := w.received + batch)
    case PutBack(s) => w.(tokens := w.tokens + [s], putBack := w.putBack + [s])
    case Pruned(now) => PruneAt(w, now)
    case Retained(keys) => w.(tokens := OfKeys(w.tokens, keys), left := w.left + RetiredBy(OfOtherKeys(w.tokens, keys), keys))
    case Taken(now) =>
      var v := PruneAt(w, now);
      if v.tokens == [] then v
      else
        var at := Earliest(v.tokens);
        v.(tokens := SwapRemove(v.tokens, at), left := v.left + [Spent(v.tokens[at], now)])
  }

  class Stock {
    var tokens: seq<Stocked>
    var nextRefill: Option<int>

    /** The stock, next to what came in and left so far. */
    ghost function Now(w: World): World
      reads this
    {
      w.(tokens := tokens)
    }

    ghost predicate Holds(w: World)
      reads this
    {
      Now(w) == w
    }

    constructor ()
      ensures Holds(EMPTY) && nextRefill == None
    {
      tokens, nextRefill := [], None;
    }

    method Add(ghost w: World, batch: seq<Stocked>)
      requires Holds(w)
      modifies this`tokens
      ensures Holds(Step(w, Received(batch)))
    {
      tokens := tokens + batch;
    }

    /** A token whose request never left. */
    method Return(ghost w: World, s: Stocked)
      requires Holds(w)
      modifies this`tokens
      ensures Holds(Step(w, PutBack(s)))
    {
      tokens := tokens + [s];
    }

    method Prune(ghost w: World, now: int)
      requires Holds(w)
      modifies this`tokens
      ensures Holds(Step(w, Pruned(now)))
    {
      var kept: seq<Stocked> := [];
      for i := 0 to |tokens|
        invariant kept == Lasting(tokens[..i], now)
      {
        assert tokens[..i + 1][..i] == tokens[..i];
        if Lasts(tokens[i], now) { kept := kept + [tokens[i]]; }
      }
      assert tokens[..|tokens|] == tokens;
      tokens := kept;
    }

    /** Drop the tokens of issuing keys that are no longer listed. */
    method RetainKeys(ghost w: World, keys: seq<KeyId>)
      requires Holds(w)
      modifies this`tokens
      ensures Holds(Step(w, Retained(keys)))
    {
      var kept: seq<Stocked> := [];
      for i := 0 to |tokens|
        invariant kept == OfKeys(tokens[..i], keys)
      {
        assert tokens[..i + 1][..i] == tokens[..i];
        if tokens[i].keyId in keys { kept := kept + [tokens[i]]; }
      }
      assert tokens[..|tokens|] == tokens;
      tokens := kept;
    }

    /** Spend a token: of those that last, one that expires first. None only if none lasts. */
    method Take(ghost w: World, now: int) returns (r: Option<Stocked>)
      requires Holds(w)
      modifies this`tokens
      ensures Holds(Step(w, Taken(now)))
      ensures r.None? <==> forall s :: s in old(tokens) ==> !Lasts(s, now)
      ensures r.Some? ==>
        && r.value in old(tokens) && Lasts(r.value, now)
        && (forall s :: s in old(tokens) && Lasts(s, now) ==> r.value.validUntil <= s.validUntil)
        && multiset(tokens) + multiset{r.value} == multiset(Lasting(old(tokens), now))
        && Step(w, Taken(now)).left == PruneAt(w, now).left + [Spent(r.value, now)]
    {
      ghost var was := tokens;
      Prune(w, now);
      forall s ensures s in Lasting(was, now) <==> s in was && Lasts(s, now) { LastingIs(was, now, s); }
      if tokens == [] {
        assert forall s :: s in was ==> s !in tokens;
        return None;
      }
      var at := FindEarliest(tokens);
      var taken := tokens[at];
      assert taken in tokens;
      SwapRemoved(tokens, at);
      hide Lasts, Lasting, Expiring;
      tokens := SwapRemove(tokens, at);
      return Some(taken);
    }

    static method FindEarliest(ts: seq<Stocked>) returns (at: nat)
      requires ts != []
      ensures at == Earliest(ts)
    {
      at := 0;
      for i := 1 to |ts|
        invariant at < i
        invariant forall k :: 0 <= k < i ==> ts[at].validUntil <= ts[k].validUntil
        invariant forall k :: 0 <= k < at ==> ts[at].validUntil < ts[k].validUntil
      {
        if ts[i].validUntil < ts[at].validUntil { at := i; }
      }
    }

    method RefillDue(now: int) returns (due: bool)
      ensures due <==> nextRefill.None? || nextRefill.value <= now
    {
      return nextRefill.None? || nextRefill.value <= now;
    }

    method ScheduleNext(now: int, jitter: int) returns (t: int)
      modifies this`nextRefill
      ensures nextRefill == Some(t) && t == NextRefillAt(now, jitter)
    {
      t := NextRefillAt(now, jitter);
      nextRefill := Some(t);
    }
  }

  lemma SwapRemoved(ts: seq<Stocked>, at: nat)
    requires at < |ts|
    ensures multiset(SwapRemove(ts, at)) + multiset{ts[at]} == multiset(ts)
  {
    var k := |ts| - 1;
    assert ts == ts[..k] + [ts[k]];
    if at < k {
      assert multiset(ts[..k][at := ts[k]]) == multiset(ts[..k]) - multiset{ts[at]} + multiset{ts[k]};
    }
  }

  lemma OneMore(a: seq<Stocked>, b: seq<Stocked>, ts: seq<Stocked>, s: Stocked)
    requires multiset(a) + multiset(b) == multiset(ts)
    ensures multiset(a + [s]) + multiset(b) == multiset(ts + [s])
    ensures multiset(a) + multiset(b + [s]) == multiset(ts + [s])
  {
    assert multiset(a + [s]) + multiset(b) == multiset(a) + multiset(b) + multiset([s]);
    assert multiset(a) + multiset(b + [s]) == multiset(a) + multiset(b) + multiset([s]);
  }

  lemma {:induction false} PruningSplits(ts: seq<Stocked>, now: int)
    ensures multiset(Lasting(ts, now)) + multiset(Expiring(ts, now)) == multiset(ts)
  {
    hide Lasts;
    if ts != [] {
      var k := |ts| - 1;
      var kept, gone := Lasting(ts[..k], now), Expiring(ts[..k], now);
      PruningSplits(ts[..k], now);
      assert if Lasts(ts[k], now) then Lasting(ts, now) == kept + [ts[k]] && Expiring(ts, now) == gone
             else Lasting(ts, now) == kept && Expiring(ts, now) == gone + [ts[k]];
      hide Lasting, Expiring;
      OneMore(kept, gone, ts[..k], ts[k]);
      assert ts == ts[..k] + [ts[k]];
    }
  }

  lemma {:induction false} ExpiringDoNotLast(ts: seq<Stocked>, now: int)
    ensures forall s :: s in Expiring(ts, now) ==> !Lasts(s, now)
  {
    if ts != [] { ExpiringDoNotLast(ts[..|ts| - 1], now); }
  }

  lemma {:induction false} RetainingSplits(ts: seq<Stocked>, keys: seq<KeyId>)
    ensures multiset(OfKeys(ts, keys)) + multiset(OfOtherKeys(ts, keys)) == multiset(ts)
  {
    if ts != [] {
      var k := |ts| - 1;
      var kept, gone := OfKeys(ts[..k], keys), OfOtherKeys(ts[..k], keys);
      RetainingSplits(ts[..k], keys);
      assert if ts[k].keyId in keys then OfKeys(ts, keys) == kept + [ts[k]] && OfOtherKeys(ts, keys) == gone
             else OfKeys(ts, keys) == kept && OfOtherKeys(ts, keys) == gone + [ts[k]];
      hide OfKeys, OfOtherKeys;
      OneMore(kept, gone, ts[..k], ts[k]);
      assert ts == ts[..k] + [ts[k]];
    }
  }

  lemma {:induction false} OtherKeysAreNotListed(ts: seq<Stocked>, keys: seq<KeyId>)
    ensures forall s :: s in OfOtherKeys(ts, keys) ==> s.keyId !in keys
  {
    if ts != [] { OtherKeysAreNotListed(ts[..|ts| - 1], keys); }
  }

  lemma {:induction false} LastingIs(ts: seq<Stocked>, now: int, s: Stocked)
    ensures s in Lasting(ts, now) <==> s in ts && Lasts(s, now)
  {
    if ts != [] {
      var k := |ts| - 1;
      LastingIs(ts[..k], now, s);
      assert ts == ts[..k] + [ts[k]];
    }
  }

  // ── no token is lost, and none is spent too often ─────────────────────────

  const EMPTY := World([], [], [], [])

  function Run(w: World, acts: seq<Act>): World
    decreases |acts|
  {
    if acts == [] then w else Run(Step(w, acts[0]), acts[1..])
  }

  function Tokens(es: seq<Exit>): (ts: seq<Stocked>)
    ensures |ts| == |es|
  {
    seq(|es|, i requires 0 <= i < |es| => es[i].s)
  }

  /** A token is spent only while it lasts, expires only when it does not, and is retired only with its key. */
  predicate Grounded(e: Exit) {
    match e
    case Spent(s, now) => Min(now + EXPIRY_MARGIN_MS, I64_MAX) < s.validUntil
    case Expired(s, now) => s.validUntil <= Min(now + EXPIRY_MARGIN_MS, I64_MAX)
    case Retired(s, keys) => s.keyId !in keys
  }

  /** What came in is in stock or left, each token as often as it came; and what left, left on its grounds. */
  ghost predicate Accounted(w: World) {
    && multiset(w.tokens) + multiset(Tokens(w.left)) == multiset(w.received) + multiset(w.putBack)
    && forall e :: e in w.left ==> Grounded(e)
  }

  lemma TokensAppend(es: seq<Exit>, fs: seq<Exit>)
    ensures multiset(Tokens(es + fs)) == multiset(Tokens(es)) + multiset(Tokens(fs))
  {
    assert Tokens(es + fs) == Tokens(es) + Tokens(fs);
  }

  /** Tokens that leave the stock on their grounds keep the accounts. */
  lemma LeavingKeepsAccounts(w: World, kept: seq<Stocked>, exits: seq<Exit>)
    requires Accounted(w) && multiset(w.tokens) == multiset(kept) + multiset(Tokens(exits)) && forall e :: e in exits ==> Grounded(e)
    ensures Accounted(w.(tokens := kept, left := w.left + exits))
  {
    TokensAppend(w.left, exits);
    hide Tokens, Grounded;
  }

  lemma PruneKeepsAccounts(w: World, now: int)
    requires Accounted(w)
    ensures Accounted(PruneAt(w, now))
  {
    var gone := Expiring(w.tokens, now);
    PruningSplits(w.tokens, now);
    ExpiringDoNotLast(w.tokens, now);
    assert Tokens(ExpiredAt(gone, now)) == gone;
    forall e | e in ExpiredAt(gone, now) ensures Grounded(e) {
      var i :| 0 <= i < |gone| && ExpiredAt(gone, now)[i] == e;
      assert gone[i] in gone;
    }
    hide Lasting, Expiring, Lasts, Accounted;
    LeavingKeepsAccounts(w, Lasting(w.tokens, now), ExpiredAt(gone, now));
  }

  lemma RetainKeepsAccounts(w: World, keys: seq<KeyId>)
    requires Accounted(w)
    ensures Accounted(Step(w, Retained(keys)))
  {
    var gone := OfOtherKeys(w.tokens, keys);
    RetainingSplits(w.tokens, keys);
    OtherKeysAreNotListed(w.tokens, keys);
    assert Tokens(RetiredBy(gone, keys)) == gone;
    forall e | e in RetiredBy(gone, keys) ensures Grounded(e) {
      var i :| 0 <= i < |gone| && RetiredBy(gone, keys)[i] == e;
      assert gone[i] in gone;
    }
    hide OfKeys, OfOtherKeys, Accounted;
    LeavingKeepsAccounts(w, OfKeys(w.tokens, keys), RetiredBy(gone, keys));
  }

  lemma TakeKeepsAccounts(w: World, now: int)
    requires Accounted(w)
    ensures Accounted(Step(w, Taken(now)))
  {
    PruneKeepsAccounts(w, now);
    var v := PruneAt(w, now);
    if v.tokens != [] {
      var at := Earliest(v.tokens);
      LastingIs(w.tokens, now, v.tokens[at]);
      hide Lasting, PruneAt, SwapRemove;
      SwapRemoved(v.tokens, at);
      TokensAppend(v.left, [Spent(v.tokens[at], now)]);
      assert Tokens([Spent(v.tokens[at], now)]) == [v.tokens[at]];
    }
  }

  lemma MoreOnBothSides(a: multiset<Stocked>, b: multiset<Stocked>, c: multiset<Stocked>, d: multiset<Stocked>, x: multiset<Stocked>)
    requires a + b == c + d
    ensures a + x + b == c + (d + x)
  {
    assert a + x + b == a + b + x && c + (d + x) == c + d + x;
  }

  lemma StepKeepsAccounts(w: World, a: Act)
    requires Accounted(w)
    ensures Accounted(Step(w, a))
  {
    match a
    case Received(batch) =>
      MoreOnBothSides(multiset(w.tokens), multiset(Tokens(w.left)), multiset(w.putBack), multiset(w.received), multiset(batch));
      assert multiset(w.received + batch) + multiset(w.putBack) == multiset(w.putBack) + (multiset(w.received) + multiset(batch));
    case PutBack(s) =>
      MoreOnBothSides(multiset(w.tokens), multiset(Tokens(w.left)), multiset(w.received), multiset(w.putBack), multiset([s]));
    case Pruned(now) => PruneKeepsAccounts(w, now);
    case Retained(keys) => RetainKeepsAccounts(w, keys);
    case Taken(now) => TakeKeepsAccounts(w, now);
  }

  lemma {:induction false} RunKeepsAccounts(w: World, acts: seq<Act>)
    requires Accounted(w)
    ensures Accounted(Run(w, acts))
    decreases |acts|
  {
    if acts != [] {
      StepKeepsAccounts(w, acts[0]);
      hide Accounted, Step;
      RunKeepsAccounts(Step(w, acts[0]), acts[1..]);
    }
  }

  function TimesSpent(es: seq<Exit>, s: Stocked): nat {
    if es == [] then 0 else TimesSpent(es[..|es| - 1], s) + var e := es[|es| - 1]; if e.Spent? && e.s == s then 1 else 0
  }

  lemma {:induction false} SpentLeft(es: seq<Exit>, s: Stocked)
    ensures TimesSpent(es, s) <= multiset(Tokens(es))[s]
  {
    if es != [] {
      var k := |es| - 1;
      SpentLeft(es[..k], s);
      assert Tokens(es) == Tokens(es[..k]) + [es[k].s];
    }
  }

  /**
   Over any run of the stock: a token is spent at most as often as it was received or put back unsent, those still
   in stock not counted; and each token that left was spent while it lasted, had expired, or lost its key.
   */
  lemma SpentWasReceived(acts: seq<Act>, s: Stocked)
    ensures var w := Run(EMPTY, acts);
      && TimesSpent(w.left, s) + multiset(w.tokens)[s] <= multiset(w.received)[s] + multiset(w.putBack)[s]
      && (forall e :: e in w.left ==> Grounded(e))
      && multiset(w.tokens) + multiset(Tokens(w.left)) == multiset(w.received) + multiset(w.putBack)
  {
    assert Tokens([]) == [];
    RunKeepsAccounts(EMPTY, acts);
    var w := Run(EMPTY, acts);
    SpentLeft(w.left, s);
    assert (multiset(w.tokens) + multiset(Tokens(w.left)))[s] == (multiset(w.received) + multiset(w.putBack))[s];
  }

  // ── at most one batch a day ───────────────────────────────────────────────

  predicate Due(next: Option<int>, now: int) {
    next.None? || next.value <= now
  }

  /** The next batch is due on the next day, within its first six hours. */
  lemma NextRefillIsTomorrow(now: int, jitter: int)
    ensures Day(NextRefillAt(now, jitter)) == Day(now) + 1
    ensures (Day(now) + 1) * DAY_MS <= NextRefillAt(now, jitter) < (Day(now) + 1) * DAY_MS + REFILL_JITTER_MAX_MS
  {
    var d := Day(now) + 1;
    assert NextRefillAt(now, jitter) == d * 86_400_000 + jitter % REFILL_JITTER_MAX_MS;
  }

  datatype Batch = Batch(now: int, jitter: int)

  /** Each batch is taken when one is due, and the next is scheduled after it. */
  predicate Scheduled(next: Option<int>, batches: seq<Batch>)
    decreases |batches|
  {
    batches == [] ||
    (Due(next, batches[0].now) && Scheduled(Some(NextRefillAt(batches[0].now, batches[0].jitter)), batches[1..]))
  }

  lemma {:induction false} LaterBatchesAreOnLaterDays(day: int, next: int, batches: seq<Batch>)
    requires day < Day(next) && Scheduled(Some(next), batches)
    ensures forall i :: 0 <= i < |batches| ==> day < Day(batches[i].now)
    ensures forall i, j :: 0 <= i < j < |batches| ==> Day(batches[i].now) < Day(batches[j].now)
    decreases |batches|
  {
    if batches != [] {
      var b, rest := batches[0], batches[1..];
      DaysGrow(next, b.now);
      NextRefillIsTomorrow(b.now, b.jitter);
      hide NextRefillAt, Day;
      LaterBatchesAreOnLaterDays(Day(b.now), NextRefillAt(b.now, b.jitter), rest);
      assert forall i :: 0 < i < |batches| ==> batches[i] == rest[i - 1];
    }
  }

  lemma DaysGrow(a: int, b: int)
    requires a <= b
    ensures Day(a) <= Day(b)
  {
  }

  /** The days of the batches strictly increase, whatever the clock and the delays: never two batches on one day. */
  lemma AtMostOneBatchADay(batches: seq<Batch>)
    requires Scheduled(None, batches)
    ensures forall i, j :: 0 <= i < j < |batches| ==> Day(batches[i].now) < Day(batches[j].now)
  {
    if batches != [] {
      var b, rest := batches[0], batches[1..];
      NextRefillIsTomorrow(b.now, b.jitter);
      hide NextRefillAt, Day;
      LaterBatchesAreOnLaterDays(Day(b.now), NextRefillAt(b.now, b.jitter), rest);
      assert forall i :: 0 < i < |batches| ==> batches[i] == rest[i - 1];
    }
  }
}
