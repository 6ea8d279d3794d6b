/**
 One's own delivery key: its generation, and who was given which generation. Each change of the key
 must make every earlier recipient need it anew; what is remembered of a recipient is a number, so the
 generation must not stand still.
 */
module DeliveryKey {
  import opened Prelude

  type Key = nat
  type Peer = string

  const MAX_GENERATION_JUMP: nat := 1024

  datatype State = State(key: Key, generation: u64, shared: map<Peer, u64>)

  datatype Act =
    | Rotate(exclude: seq<Peer>, newKey: Key)
    | Adopt(key: Option<Key>, generation: u64)  // no key if it has the wrong length
    | Mark(peer: Peer)
    | Forget(peer: Peer)

  /** A newer generation, and not too far ahead. */
  predicate StepOk(current: u64, new_: u64) {
    current < new_ && new_ - current <= MAX_GENERATION_JUMP
  }

  predicate NeedsShare(s: State, peer: Peer) {
    !(peer in s.shared && s.shared[peer] == s.generation)
  }

  function Without(shared: map<Peer, u64>, exclude: seq<Peer>): map<Peer, u64> {
    map p | p in shared && p !in exclude :: shared[p]
  }

  function Step(s: State, a: Act): State {
    match a
    case Rotate(exclude, newKey) => State(newKey, SatAdd(s.generation, 1), Without(s.shared, exclude))
    case Adopt(key, generation) =>
      if key.Some? && StepOk(s.generation, generation) then State(key.value, generation, s.shared) else s
    case Mark(peer) => s.(shared := s.shared[peer := s.generation])
    case Forget(peer) => s.(shared := s.shared - {peer})
  }

  class OwnDeliveryKey {
    var key: Key
    var generation: u64
    var shared: map<Peer, u64>

    ghost function Now(): State
      reads this
    {
      State(key, generation, shared)
    }

    constructor (newKey: Key)
      ensures Now() == Start(newKey)
    {
      key, generation, shared := newKey, 1, map[];
    }

    /** A new key. Returns those who had one before and are not excluded: they are given it at once. */
    method RotateKey(exclude: seq<Peer>, newKey: Key) returns (targets: set<Peer>)
      modifies this
      ensures Now() == Step(old(Now()), Rotate(exclude, newKey))
      ensures targets == set p | p in old(shared) && p !in exclude
    {
      key, generation := newKey, SatAdd(generation, 1);
      ghost var was := shared;
      for i := 0 to |exclude|
        invariant key == newKey && generation == SatAdd(old(generation), 1)
        invariant shared == Without(was, exclude[..i])
      {
        assert exclude[..i + 1] == exclude[..i] + [exclude[i]];
        shared := shared - {exclude[i]};
      }
      assert exclude[..|exclude|] == exclude;
      targets := shared.Keys;
    }

    method AdoptKey(sent: Option<Key>, sentGeneration: u64) returns (adopted: bool)
      modifies this
      ensures Now() == Step(old(Now()), Adopt(sent, sentGeneration))
      ensures adopted <==> sent.Some? && old(generation) < sentGeneration <= old(generation) + MAX_GENERATION_JUMP
    {
      if sent.None? || !StepOk(generation, sentGeneration) { return false; }
      key, generation := sent.value, sentGeneration;
      return true;
    }

    method MarkShared(peer: Peer)
      modifies this`shared
      ensures Now() == Step(old(Now()), Mark(peer))
    {
      shared := shared[peer := generation];
    }

    method ForgetPeer(peer: Peer)
      modifies this`shared
      ensures Now() == Step(old(Now()), Forget(peer))
    {
      shared := shared - {peer};
    }
  }

  function Start(newKey: Key): State {
    State(newKey, 1, map[])
  }

  // ── one step ──────────────────────────────────────────────────────────────

  /** What a step makes of key, generation and recipients. */
  lemma StepIs(s: State, a: Act)
    ensures var d := Step(s, a);
      match a
      case Rotate(exclude, newKey) =>
        && d.key == newKey && (s.generation < U64_MAX ==> d.generation == s.generation + 1)
        && forall p :: p in d.shared <==> p in s.shared && p !in exclude
      case Adopt(key, generation) =>
        if key.Some? && s.generation < generation <= s.generation + 1024
        then d.key == key.value && d.generation == generation && d.shared == s.shared else d == s
      case _ => d.key == s.key && d.generation == s.generation
  {
  }

  /** A peer needs no share exactly from the moment it was given the key until the key changes or the peer is forgotten. */
  lemma NoShareNeededIff(s: State, a: Act, peer: Peer)
    requires (peer in s.shared ==> s.shared[peer] <= s.generation) && (a.Rotate? ==> s.generation < U64_MAX)
    ensures var d := Step(s, a);
      !NeedsShare(d, peer) <==> a == Mark(peer) || (!NeedsShare(s, peer) && a != Forget(peer) && d.generation == s.generation)
  {
  }

  // ── whole runs ────────────────────────────────────────────────────────────

  function Run(s: State, acts: seq<Act>): State
    decreases |acts|
  {
    if acts == [] then s else Run(Step(s, acts[0]), acts[1..])
  }

  /** The key each peer was last given, kept from outside: `Mark` is called when the present key has been sent. */
  function Given(s: State, given: map<Peer, Key>, acts: seq<Act>): map<Peer, Key>
    decreases |acts|
  {
    if acts == [] then given
    else Given(Step(s, acts[0]), if acts[0].Mark? then given[acts[0].peer := s.key] else given, acts[1..])
  }

  /** No rotation starts at the last generation there is. */
  predicate NeverSaturates(s: State, acts: seq<Act>)
    decreases |acts|
  {
    acts == [] || ((acts[0].Rotate? ==> s.generation < U64_MAX) && NeverSaturates(Step(s, acts[0]), acts[1..]))
  }

  /** Who needs no share was last given the present key. */
  ghost predicate Honest(s: State, given: map<Peer, Key>) {
    && (forall p :: p in s.shared ==> p in given && s.shared[p] <= s.generation)
    && (forall p :: !NeedsShare(s, p) ==> given[p] == s.key)
  }

  lemma {:induction false} NoShareNeededMeansPresentKey(s: State, given: map<Peer, Key>, acts: seq<Act>)
    requires Honest(s, given) && NeverSaturates(s, acts)
    ensures Honest(Run(s, acts), Given(s, given, acts))
    decreases |acts|
  {
    if acts != [] {
      NoShareNeededMeansPresentKey(
        Step(s, acts[0]), if acts[0].Mark? then given[acts[0].peer := s.key] else given, acts[1..]);
    }
  }

  lemma {:induction false} GenerationIsBounded(s: State, acts: seq<Act>)
    ensures s.generation <= Run(s, acts).generation <= s.generation + 1024 * |acts|
    decreases |acts|
  {
    if acts != [] { GenerationIsBounded(Step(s, acts[0]), acts[1..]); }
  }

  lemma {:induction false} ShortRunsNeverSaturate(s: State, acts: seq<Act>)
    requires s.generation + 1024 * |acts| <= U64_MAX
    ensures NeverSaturates(s, acts)
    decreases |acts|
  {
    if acts != [] { ShortRunsNeverSaturate(Step(s, acts[0]), acts[1..]); }
  }

  /** From a new key on, in every run of fewer than 2^54 steps, whoever needs no share holds the present key. */
  lemma NewKeyStaysHonest(newKey: Key, acts: seq<Act>, peer: Peer)
    requires |acts| < 0x40_0000_0000_0000
    requires !NeedsShare(Run(Start(newKey), acts), peer)
    ensures var given := Given(Start(newKey), map[], acts);
      peer in given && given[peer] == Run(Start(newKey), acts).key
    ensures Run(Start(newKey), acts).generation <= 1 + 1024 * |acts|
  {
    GenerationIsBounded(Start(newKey), acts);
    ShortRunsNeverSaturate(Start(newKey), acts);
    NoShareNeededMeansPresentKey(Start(newKey), map[], acts);
  }

  /** Exactly when a rotation leaves a peer with an old key and the belief that nothing is needed: at the last generation. */
  lemma RotationLiesIff(s: State, given: map<Peer, Key>, exclude: seq<Peer>, newKey: Key, peer: Peer)
    requires Honest(s, given) && newKey != s.key
    ensures var d := Step(s, Rotate(exclude, newKey));
      (!NeedsShare(d, peer) && given[peer] != d.key) <==> (s.generation == U64_MAX && !NeedsShare(s, peer) && peer !in exclude)
  {
  }
}
