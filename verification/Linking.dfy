/**
 Linking a device against any server: one code an offer, for a pinned key, and a grant only under that code's challenge.
 */
module Linking {
  import opened Prelude

  type Dev = string
  type Pub = nat

  /** The hash of a public key, or something that is no such hash. The hash is injective. */
  datatype Commitment = Of(pub: Pub) | Junk(id: nat)

  /** What the server says of one offer. */
  datatype Offer = Offer(dev: Dev, commitment: Commitment, challenge: Option<Pub>, eph: Option<Pub>)

  /** A code computed from the new device's key and the challenge key. */
  datatype Code = Code(dev: Dev, eph: Pub, own: Pub)

  datatype Pin = Pin(dev: Dev, own: Pub, commitment: Commitment)

  // ── the old device ────────────────────────────────────────────────────────

  type Worker = nat

  /**
   A poll in the middle of one offer, with the challenge key it found; `seen` says that it found that key pinned with this
   offer's commitment. Polls of several generations may be under way, and meanwhile the server may answer anything.
   */
  datatype Poll = Considering(o: Offer, own: Option<Pub>, seen: bool) | Checked(o: Offer, key: Pub, seen: bool)

  /** The five maps, the polls under way, and next to them what has happened so far. */
  datatype Old = Old(
    challenges: map<Dev, Pub>, commits: map<Dev, Commitment>, declined: map<Dev, Commitment>,
    shown: map<Dev, Pub>, offerEph: map<Dev, Pub>, polls: map<Worker, Poll>,
    made: set<Pub>, pins: set<Pin>, codes: seq<Code>, times: map<Dev, nat>, refused: set<Dev>)

  datatype Act =
    | Gone(live: set<Dev>) | Consider(w: Worker, o: Offer) | GiveUp(w: Worker) | Adopt(w: Worker) | PinKey(w: Worker, key: Pub)
    | CheckIt(w: Worker) | Show(w: Worker) | Decline(dev: Dev) | Forget(dev: Dev) | Reset

  predicate Considers(s: Old, w: Worker) {
    w in s.polls && s.polls[w].Considering?
  }

  predicate Enabled(s: Old, a: Act) {
    match a
    case Consider(w, _) => w !in s.polls
    case GiveUp(w) => w in s.polls
    // a wrapped challenge opens only if one of our own devices made it for this offer
    case Adopt(w) =>
      && Considers(s, w) && s.polls[w].o.challenge.Some? && s.polls[w].own != s.polls[w].o.challenge
      && var o := s.polls[w].o;
        o.challenge.value in s.made ==> Pin(o.dev, o.challenge.value, o.commitment) in s.pins
    case PinKey(w, k) =>
      Considers(s, w) && s.polls[w].o.challenge.None? && (s.polls[w].own.None? ==> IsNew(s, k))
    case CheckIt(w) => Considers(s, w) && s.polls[w].own.Some? && s.polls[w].o.challenge == s.polls[w].own
    case Show(w) => w in s.polls && s.polls[w].Checked? && s.polls[w].o.eph.Some?
    case _ => true
  }

  /** A key just generated has not been used before. */
  predicate IsNew(s: Old, k: Pub) {
    k !in s.made && forall p :: p in s.pins ==> p.own != k
  }

  function Keeping<V>(m: map<Dev, V>, live: set<Dev>): map<Dev, V> {
    map d | d in m && d in live :: m[d]
  }

  /** Offers that are gone take their windows and challenges with them; only those shown lose their pinned commitment. */
  function DropGone(s: Old, live: set<Dev>): Old {
    var gone := set d | d in s.shown && d !in live;
    s.(challenges := Keeping(s.challenges, live), declined := Keeping(s.declined, live), shown := Keeping(s.shown, live),
       offerEph := s.offerEph - gone, commits := s.commits - gone,
       times := Keeping(s.times, live), refused := s.refused - gone)
  }

  /** Whether the new device offered anew, which makes the earlier challenge void. */
  predicate OffersAnew(s: Old, o: Offer) {
    o.dev in s.commits && s.commits[o.dev] != o.commitment && o.challenge.None?
  }

  function Look(s: Old, w: Worker, o: Offer): Old {
    if o.dev in s.declined && s.declined[o.dev] == o.commitment then s
    else
      var t := if OffersAnew(s, o) then s.(challenges := s.challenges - {o.dev}, commits := s.commits - {o.dev}) else s;
      var own := if o.dev in t.challenges then Some(t.challenges[o.dev]) else None;
      t.(polls := t.polls[w := Considering(o, own, o.dev in t.commits && t.commits[o.dev] == o.commitment)])
  }

  function SetChallenge(s: Old, d: Dev, own: Pub, c: Commitment): Old {
    s.(challenges := s.challenges[d := own], commits := s.commits[d := c], pins := s.pins + {Pin(d, own, c)})
  }

  /** The offer is for the commitment pinned, no other key was shown, and the key matches. */
  predicate MayShow(s: Old, o: Offer) {
    && o.eph.Some? && o.dev in s.commits && s.commits[o.dev] == o.commitment
    && (o.dev in s.shown ==> s.shown[o.dev] == o.eph.value)
    && o.commitment == Of(o.eph.value)
  }

  function Step(s: Old, a: Act): Old
    requires Enabled(s, a)
  {
    match a
    case Gone(live) => DropGone(s, live)
    case Consider(w, o) => Look(s, w, o)
    case GiveUp(w) => s.(polls := s.polls - {w})
    case Adopt(w) =>
      var o := s.polls[w].o;
      SetChallenge(s, o.dev, o.challenge.value, o.commitment).(polls := s.polls[w := Considering(o, o.challenge, true)])
    case PinKey(w, k) =>
      var o, own := s.polls[w].o, if s.polls[w].own.Some? then s.polls[w].own.value else k;
      SetChallenge(s, o.dev, own, o.commitment).(
        polls := s.polls - {w}, made := if s.polls[w].own.None? then s.made + {own} else s.made)
    case CheckIt(w) =>
      var p := s.polls[w];
      s.(polls := if MayShow(s, p.o) then s.polls[w := Checked(p.o, p.own.value, p.seen)] else s.polls - {w})
    case Show(w) =>
      var o, own, eph := s.polls[w].o, s.polls[w].key, s.polls[w].o.eph.value;
      if o.dev in s.shown && s.shown[o.dev] == eph then s.(polls := s.polls - {w})
      else
        var n := if o.dev in s.times then s.times[o.dev] else 0;
        s.(shown := s.shown[o.dev := eph], offerEph := s.offerEph[o.dev := eph], polls := s.polls - {w},
           codes := s.codes + [Code(o.dev, eph, own)], times := s.times[o.dev := n + 1])
    case Decline(d) =>
      s.(declined := if d in s.commits then s.declined[d := s.commits[d]] else s.declined,
         challenges := s.challenges - {d}, commits := s.commits - {d}, offerEph := s.offerEph - {d},
         refused := if d in s.shown then s.refused + {d} else s.refused)
    case Forget(d) => s.(challenges := s.challenges - {d})
    case Reset =>
      s.(challenges := map[], commits := map[], declined := map[], shown := map[], offerEph := map[], times := map[], refused := {})
  }

  /** What a grant for a device is sealed to and with: its shown key and our challenge key, if both are there. */
  function GrantFor(s: Old, d: Dev): Option<(Pub, Pub)> {
    if d in s.challenges && d in s.offerEph then Some((s.offerEph[d], s.challenges[d])) else None
  }

  function NothingYet(): Old {
    Old(map[], map[], map[], map[], map[], map[], {}, {}, [], map[], {})
  }

  // ── its lock sections ─────────────────────────────────────────────────────

  class OldDevice {
    var challenges: map<Dev, Pub>
    var commits: map<Dev, Commitment>
    var declined: map<Dev, Commitment>
    var shown: map<Dev, Pub>
    var offerEph: map<Dev, Pub>

    /** The fields, next to the polls and what has happened so far. */
    ghost function Now(s: Old): Old
      reads this
    {
      s.(challenges := challenges, commits := commits, declined := declined, shown := shown, offerEph := offerEph)
    }

    ghost predicate Holds(s: Old)
      reads this
    {
      Now(s) == s
    }

    constructor ()
      ensures Holds(NothingYet())
    {
      challenges, commits, declined, shown, offerEph := map[], map[], map[], map[], map[];
    }

    /** Forget the offers that are no longer there; returns those whose window closes. */
    method DropGoneOffers(ghost s: Old, live: set<Dev>) returns (gone: set<Dev>)
      requires Enabled(Now(s), Gone(live))
      modifies this
      ensures Holds(Step(old(Now(s)), Gone(live)))
      ensures gone == set d | d in old(shown) && d !in live
    {
      gone := set d | d in shown && d !in live;
      challenges, declined := Keeping(challenges, live), Keeping(declined, live);
      offerEph, commits := offerEph - gone, commits - gone;
      shown := Keeping(shown, live);
    }

    /** The first look at an offer: our challenge key for it, if any; `skip` if it was declined. */
    method LookAt(ghost s: Old, ghost w: Worker, o: Offer) returns (skip: bool, own: Option<Pub>)
      requires Enabled(Now(s), Consider(w, o))
      modifies this`challenges, this`commits
      ensures Holds(Step(old(Now(s)), Consider(w, o)))
      ensures var d := Step(old(Now(s)), Consider(w, o));
        if skip then d.polls == s.polls else w in d.polls && d.polls[w].Considering? && d.polls[w].o == o && d.polls[w].own == own
    {
      if o.dev in declined && declined[o.dev] == o.commitment { return true, None; }
      if o.dev in commits && commits[o.dev] != o.commitment && o.challenge.None? {
        challenges, commits := challenges - {o.dev}, commits - {o.dev};
      }
      return false, if o.dev in challenges then Some(challenges[o.dev]) else None;
    }

    /** Keep a challenge key, adopted or our own, together with the commitment it answers. */
    method KeepChallenge(d: Dev, own: Pub, c: Commitment)
      modifies this`challenges, this`commits
      ensures challenges == old(challenges)[d := own] && commits == old(commits)[d := c]
      ensures forall s: Old :: Holds(SetChallenge(old(Now(s)), d, own, c))
    {
      challenges, commits := challenges[d := own], commits[d := c];
    }

    /** Is the offer one whose code may be shown? */
    method CheckOffer(ghost s: Old, o: Offer) returns (ok: bool)
      ensures ok <==> MayShow(Now(s), o)
    {
      if o.eph.None? || o.dev !in commits || commits[o.dev] != o.commitment { return false; }
      if o.dev in shown && shown[o.dev] != o.eph.value { return false; }
      return o.commitment == Of(o.eph.value);
    }

    /** Note the key as shown; the code is shown only the first time. */
    method NoteShown(ghost s: Old, ghost w: Worker, d: Dev, eph: Pub) returns (first: bool)
      requires Enabled(Now(s), Show(w)) && s.polls[w].o.dev == d && s.polls[w].o.eph == Some(eph)
      modifies this`shown, this`offerEph
      ensures Holds(Step(old(Now(s)), Show(w)))
      ensures first <==> Step(old(Now(s)), Show(w)).codes == s.codes + [Code(d, eph, s.polls[w].key)]
    {
      first := d !in shown || shown[d] != eph;
      if first { shown, offerEph := shown[d := eph], offerEph[d := eph]; }
    }

    method DeclineOffer(ghost s: Old, d: Dev)
      modifies this
      ensures Holds(Step(old(Now(s)), Decline(d)))
    {
      if d in commits { declined := declined[d := commits[d]]; }
      challenges, commits, offerEph := challenges - {d}, commits - {d}, offerEph - {d};
    }

    /** The key a grant is sealed to and our own; none if there is no challenge or no shown key. */
    method ForGrant(ghost s: Old, d: Dev) returns (r: Option<(Pub, Pub)>)
      ensures r == GrantFor(Now(s), d)
    {
      if d !in challenges || d !in offerEph { return None; }
      return Some((offerEph[d], challenges[d]));
    }

    method Granted(ghost s: Old, d: Dev)
      modifies this`challenges
      ensures Holds(Step(old(Now(s)), Forget(d)))
    {
      challenges := challenges - {d};
    }
  }

  // ── what the old device keeps in any case ─────────────────────────────────

  ghost predicate ChallengesPinned(s: Old) {
    forall d :: d in s.challenges ==> d in s.commits && Pin(d, s.challenges[d], s.commits[d]) in s.pins
  }

  predicate IsPinned(s: Old, o: Offer, own: Pub) {
    Pin(o.dev, own, o.commitment) in s.pins
  }

  /** The key is on record with something else than this offer. */
  ghost predicate PinnedElsewhere(s: Old, o: Offer, own: Pub) {
    exists p :: p in s.pins && p.own == own && p != Pin(o.dev, own, o.commitment)
  }

  /** A poll's key is on record: with this offer if the poll saw it so, and with another if it did not. */
  ghost predicate KeyOk(s: Old, o: Offer, own: Pub, seen: bool) {
    if seen then IsPinned(s, o, own) else PinnedElsewhere(s, o, own)
  }

  /** Without a challenge of the server's a poll goes on only with a key it saw pinned with the offer. */
  ghost predicate PollOk(s: Old, p: Poll) {
    match p
    case Considering(o, own, seen) => own.Some? ==> KeyOk(s, o, own.value, seen) && (o.challenge.None? ==> seen)
    case Checked(o, own, seen) => o.eph.Some? && o.commitment == Of(o.eph.value) && KeyOk(s, o, own, seen)
  }

  ghost predicate PollsOk(s: Old) {
    forall w :: w in s.polls ==> PollOk(s, s.polls[w])
  }

  /** A key made here answers one offer only. */
  ghost predicate MadeForOne(s: Old) {
    forall p, r :: p in s.pins && r in s.pins && p.own == r.own && p.own in s.made ==> p == r
  }

  /** Each window is counted, and what a grant would be sealed to is the key shown. */
  ghost predicate WindowsCounted(s: Old) {
    && (forall d :: d in s.times <==> d in s.shown) && (forall d :: d in s.times ==> s.times[d] >= 1)
    && (forall d :: d in s.offerEph ==> d in s.shown && s.offerEph[d] == s.shown[d])
  }

  ghost predicate Inv(s: Old) {
    ChallengesPinned(s) && PollsOk(s) && MadeForOne(s) && WindowsCounted(s)
  }

  lemma SetKeepsPinned(s: Old, d: Dev, own: Pub, c: Commitment)
    requires ChallengesPinned(s)
    ensures ChallengesPinned(SetChallenge(s, d, own, c))
  {
  }

  /** A key just made, one already pinned so, or one not made here may be pinned. */
  lemma SetKeepsOne(s: Old, d: Dev, own: Pub, c: Commitment)
    requires MadeForOne(s) && (IsNew(s, own) || (own in s.made ==> Pin(d, own, c) in s.pins))
    ensures var t := SetChallenge(s, d, own, c); MadeForOne(t) && (IsNew(s, own) ==> MadeForOne(t.(made := t.made + {own})))
  {
  }

  lemma LessKeepsPins(s: Old, a: Act)
    requires ChallengesPinned(s) && Enabled(s, a) && !a.Adopt? && !a.PinKey?
    ensures var d := Step(s, a); ChallengesPinned(d) && d.pins == s.pins && d.made == s.made
  {
    hide MayShow, IsNew;
  }

  lemma StepKeepsPins(s: Old, a: Act)
    requires Inv(s) && Enabled(s, a)
    ensures ChallengesPinned(Step(s, a)) && MadeForOne(Step(s, a)) && s.pins <= Step(s, a).pins
  {
    if a.Adopt? {
      var o := s.polls[a.w].o;
      SetKeepsPinned(s, o.dev, o.challenge.value, o.commitment);
      SetKeepsOne(s, o.dev, o.challenge.value, o.commitment);
      hide PollsOk, WindowsCounted, IsNew;
    } else if a.PinKey? {
      var o, own := s.polls[a.w].o, if s.polls[a.w].own.Some? then s.polls[a.w].own.value else a.key;
      assert s.polls[a.w].own.Some? ==> Pin(o.dev, own, o.commitment) in s.pins by { assert PollOk(s, s.polls[a.w]); }
      SetKeepsPinned(s, o.dev, own, o.commitment);
      SetKeepsOne(s, o.dev, own, o.commitment);
      hide PollsOk, WindowsCounted, IsNew;
    } else {
      LessKeepsPins(s, a);
      hide Step, Enabled, PollsOk, WindowsCounted;
    }
  }

  lemma RecordStays(s: Old, d: Old, p: Poll)
    requires PollOk(s, p) && s.pins <= d.pins
    ensures PollOk(d, p)
  {
    var own := if p.Considering? then p.own else Some(p.key);
    if own.Some? && !p.seen {
      var r :| r in s.pins && r.own == own.value && r != Pin(p.o.dev, own.value, p.o.commitment);
      assert r in d.pins;
    }
  }

  /** A look leaves the other polls alone; with the key it finds, the challenge is pinned, if not with this offer. */
  lemma LookFinds(s: Old, w: Worker, o: Offer)
    requires ChallengesPinned(s)
    ensures var d := Look(s, w, o);
      d.pins == s.pins && (d.polls == s.polls || exists p :: d.polls == s.polls[w := p] && PollOk(d, p))
  {
    var d := Look(s, w, o);
    if o.dev in d.challenges {
      assert Pin(o.dev, d.challenges[o.dev], d.commits[o.dev]) in d.pins;
    }
    hide ChallengesPinned;
    assert d.polls == s.polls || (d.polls == s.polls[w := d.polls[w]] && PollOk(d, d.polls[w]));
  }

  lemma LookIsOk(s: Old, w: Worker, o: Offer)
    requires ChallengesPinned(s) && PollsOk(s)
    ensures PollsOk(Look(s, w, o))
  {
    var d := Look(s, w, o);
    LookFinds(s, w, o);
    hide Look, ChallengesPinned;
    forall v | v in s.polls ensures PollOk(d, s.polls[v]) { RecordStays(s, d, s.polls[v]); }
    hide PollOk;
  }

  lemma StepKeepsPolls(s: Old, a: Act)
    requires Inv(s) && Enabled(s, a)
    ensures PollsOk(Step(s, a))
  {
    StepKeepsPins(s, a);
    var d := Step(s, a);
    if a.Consider? {
      LookIsOk(s, a.w, a.o);
    } else {
      forall w | w in d.polls ensures PollOk(d, d.polls[w]) {
        assert w in s.polls && PollOk(s, s.polls[w]);
        RecordStays(s, d, s.polls[w]);
      }
    }
  }

  lemma GoneKeepsWindows(s: Old, live: set<Dev>)
    requires WindowsCounted(s)
    ensures WindowsCounted(DropGone(s, live))
  {
  }

  lemma ShowKeepsWindows(s: Old, w: Worker)
    requires WindowsCounted(s) && Enabled(s, Show(w))
    ensures WindowsCounted(Step(s, Show(w)))
  {
  }

  lemma OtherStepsKeepWindows(s: Old, a: Act)
    requires Enabled(s, a) && !a.Gone? && !a.Show? && !a.Reset? && !a.Decline?
    ensures var d := Step(s, a); d.times == s.times && d.shown == s.shown && d.offerEph == s.offerEph
  {
    hide MayShow;
  }

  lemma StepKeepsWindows(s: Old, a: Act)
    requires WindowsCounted(s) && Enabled(s, a)
    ensures WindowsCounted(Step(s, a))
  {
    if a.Gone? {
      GoneKeepsWindows(s, a.live);
    } else if a.Show? {
      ShowKeepsWindows(s, a.w);
    } else if !a.Reset? && !a.Decline? {
      var d := Step(s, a);
      OtherStepsKeepWindows(s, a);
      hide Step, Enabled;
    }
  }

  lemma StepKeepsInv(s: Old, a: Act)
    requires Inv(s) && Enabled(s, a)
    ensures Inv(Step(s, a))
  {
    StepKeepsPins(s, a);
    StepKeepsPolls(s, a);
    StepKeepsWindows(s, a);
    hide Step, Enabled;
  }

  predicate Runs(s: Old, acts: seq<Act>)
    decreases |acts|
  {
    acts == [] || (Enabled(s, acts[0]) && Runs(Step(s, acts[0]), acts[1..]))
  }

  function Run(s: Old, acts: seq<Act>): Old
    requires Runs(s, acts)
    decreases |acts|
  {
    if acts == [] then s else Run(Step(s, acts[0]), acts[1..])
  }

  lemma {:induction false} RunKeepsInv(s: Old, acts: seq<Act>)
    requires Inv(s) && Runs(s, acts)
    ensures Inv(Run(s, acts))
    decreases |acts|
  {
    if acts != [] {
      StepKeepsInv(s, acts[0]);
      hide Inv, Step, Enabled;
      RunKeepsInv(Step(s, acts[0]), acts[1..]);
    }
  }

  // ── one code per offer ────────────────────────────────────────────────────

  /** At most one code for each device, and every code from a key that was pinned with the commitment it matches. */
  ghost predicate OneCodeEach(s: Old) {
    && (forall d :: d in s.times ==> s.times[d] == 1)
    && (forall i :: 0 <= i < |s.codes| ==> var c := s.codes[i]; Pin(c.dev, c.own, Of(c.eph)) in s.pins)
  }

  /** A declined request, once shown, has no key left a grant could be sealed to. */
  ghost predicate RefusedStayOut(s: Old) {
    forall d :: d in s.refused ==> d in s.shown && d !in s.offerEph
  }

  /**
   The code is a repetition, or the first for the device and from a key pinned with the offer's commitment. The lock
   section that notes the key as shown could check the one, the one that takes the challenge key out of the map the other.
   */
  predicate ShowsProperly(s: Old, a: Act) {
    a.Show? && a.w in s.polls && s.polls[a.w].Checked? ==>
      var o := s.polls[a.w].o;
      o.eph.Some? && (if o.dev in s.shown then s.shown[o.dev] == o.eph.value else IsPinned(s, o, s.polls[a.w].key))
  }

  /** Only a code shown can change that. */
  lemma OtherStepsAreRight(s: Old, a: Act)
    requires Inv(s) && OneCodeEach(s) && Enabled(s, a) && !a.Show?
    ensures OneCodeEach(Step(s, a))
  {
    StepKeepsPins(s, a);
    assert Step(s, a).codes == s.codes;
    assert forall d :: d in Step(s, a).times ==> d in s.times && Step(s, a).times[d] == s.times[d];
    hide Step, Enabled, Inv;
  }

  /** What showing a code that is no repetition does. */
  lemma NewCode(s: Old, w: Worker)
    requires Enabled(s, Show(w))
    requires var o := s.polls[w].o; !(o.dev in s.shown && s.shown[o.dev] == o.eph.value)
    ensures var o, d := s.polls[w].o, Step(s, Show(w));
      && d.pins == s.pins && d.codes == s.codes + [Code(o.dev, o.eph.value, s.polls[w].key)]
      && d.times == s.times[o.dev := if o.dev in s.times then s.times[o.dev] + 1 else 1]
  {
  }

  lemma NewCodeIsRightIff(s: Old, d: Old, c: Code)
    requires OneCodeEach(s) && d.pins == s.pins && d.codes == s.codes + [c]
    requires d.times == s.times[c.dev := if c.dev in s.times then s.times[c.dev] + 1 else 1]
    ensures OneCodeEach(d) <==> c.dev !in s.times && Pin(c.dev, c.own, Of(c.eph)) in s.pins
  {
    assert d.codes[|s.codes|] == c && d.times[c.dev] == (if c.dev in s.times then 2 else 1);
    forall i | 0 <= i < |d.codes| && d.codes[i] != c ensures Pin(d.codes[i].dev, d.codes[i].own, Of(d.codes[i].eph)) in d.pins {
      assert d.codes[i] == s.codes[i];
    }
  }

  lemma ShowIsRightIff(s: Old, w: Worker)
    requires Inv(s) && OneCodeEach(s) && Enabled(s, Show(w))
    ensures OneCodeEach(Step(s, Show(w))) <==> ShowsProperly(s, Show(w))
  {
    var o, own, d := s.polls[w].o, s.polls[w].key, Step(s, Show(w));
    var eph := o.eph.value;
    assert o.commitment == Of(eph) by { assert PollOk(s, s.polls[w]); hide Step; }
    assert o.dev in s.times <==> o.dev in s.shown;
    hide Inv;
    if o.dev in s.shown && s.shown[o.dev] == eph {
      assert d.codes == s.codes && d.times == s.times && d.pins == s.pins;
      hide Step, Enabled;
    } else {
      NewCode(s, w);
      NewCodeIsRightIff(s, d, Code(o.dev, eph, own));
      hide Step, OneCodeEach;
    }
  }

  /** Exactly when one step keeps to one code an offer, pinned. */
  lemma StepIsRightIff(s: Old, a: Act)
    requires Inv(s) && OneCodeEach(s) && Enabled(s, a)
    ensures OneCodeEach(Step(s, a)) <==> ShowsProperly(s, a)
  {
    if a.Show? { ShowIsRightIff(s, a.w); } else { OtherStepsAreRight(s, a); }
    hide Step, Enabled, Inv, OneCodeEach;
  }

  lemma ProperStepKeepsRefused(s: Old, a: Act)
    requires Inv(s) && RefusedStayOut(s) && Enabled(s, a) && ShowsProperly(s, a)
    ensures RefusedStayOut(Step(s, a))
  {
    hide ChallengesPinned, MadeForOne, PollsOk;
  }

  predicate AllProper(s: Old, acts: seq<Act>)
    requires Runs(s, acts)
    decreases |acts|
  {
    acts == [] || (ShowsProperly(s, acts[0]) && AllProper(Step(s, acts[0]), acts[1..]))
  }

  /** Every state of the run has at most one code for each device, pinned. */
  ghost predicate AlwaysOneCode(s: Old, acts: seq<Act>)
    requires Runs(s, acts)
    decreases |acts|
  {
    OneCodeEach(s) && (acts == [] || AlwaysOneCode(Step(s, acts[0]), acts[1..]))
  }

  lemma {:induction false} RunIsRightIff(s: Old, acts: seq<Act>)
    requires Inv(s) && OneCodeEach(s) && Runs(s, acts)
    ensures AlwaysOneCode(s, acts) <==> AllProper(s, acts)
    decreases |acts|
  {
    if acts != [] {
      StepIsRightIff(s, acts[0]);
      StepKeepsInv(s, acts[0]);
      var d := Step(s, acts[0]);
      hide Inv, Step, Enabled, OneCodeEach, ShowsProperly;
      if OneCodeEach(d) {
        RunIsRightIff(d, acts[1..]);
      } else if acts[1..] == [] {
        assert !AlwaysOneCode(d, []);
      }
    }
  }

  /**
   Against any server, with any number of polls under way, and whatever is declined, granted or reset at any moment: over
   the whole run each device gets at most one code between its disappearances, from a key pinned with the commitment it
   matches, if and only if every code is shown properly.
   */
  lemma OneCodePerOfferIff(acts: seq<Act>)
    requires Runs(NothingYet(), acts)
    ensures AlwaysOneCode(NothingYet(), acts) <==> AllProper(NothingYet(), acts)
  {
    RunIsRightIff(NothingYet(), acts);
  }

  lemma {:induction false} ProperRunKeepsAll(s: Old, acts: seq<Act>)
    requires Inv(s) && OneCodeEach(s) && RefusedStayOut(s) && Runs(s, acts) && AllProper(s, acts)
    ensures var d := Run(s, acts); Inv(d) && OneCodeEach(d) && RefusedStayOut(d)
    decreases |acts|
  {
    if acts != [] {
      StepIsRightIff(s, acts[0]);
      StepKeepsInv(s, acts[0]);
      ProperStepKeepsRefused(s, acts[0]);
      hide Inv, Step, Enabled, OneCodeEach, RefusedStayOut, ShowsProperly;
      ProperRunKeepsAll(Step(s, acts[0]), acts[1..]);
    }
  }

  /**
   What such a run is worth: one code between disappearances; two codes under one challenge key made here are the same
   code; a declined request, once shown, is never granted; and a grant goes to the key whose code was shown.
   */
  lemma OneCodePerOffer(acts: seq<Act>, d: Dev, i: nat, k: nat)
    requires Runs(NothingYet(), acts) && AllProper(NothingYet(), acts)
    ensures var s := Run(NothingYet(), acts);
      && (d in s.times ==> s.times[d] == 1)
      && (i < |s.codes| ==> Pin(s.codes[i].dev, s.codes[i].own, Of(s.codes[i].eph)) in s.pins)
      && (i < |s.codes| && k < |s.codes| && s.codes[i].own == s.codes[k].own && s.codes[i].own in s.made ==> s.codes[i] == s.codes[k])
      && (d in s.refused ==> GrantFor(s, d) == None)
      && (GrantFor(s, d).Some? ==> d in s.shown && GrantFor(s, d).value.0 == s.shown[d])
  {
    ProperRunKeepsAll(NothingYet(), acts);
  }

  /**
   For a key made here, being pinned with the offer is just what the poll saw, or did not see, when it took the key out
   of the map: the source could check it there.
   */
  lemma SeenIsExact(s: Old, w: Worker)
    requires Inv(s) && Enabled(s, Show(w)) && s.polls[w].key in s.made
    ensures IsPinned(s, s.polls[w].o, s.polls[w].key) <==> s.polls[w].seen
  {
    assert PollOk(s, s.polls[w]);
  }

  /** And for any key: if it is still in the map, with the offer's commitment, when the code is about to be shown. */
  lemma StillPinnedIsProper(s: Old, w: Worker)
    requires Inv(s) && Enabled(s, Show(w))
    requires var o := s.polls[w].o;
      && o.dev !in s.shown && o.dev in s.challenges && s.challenges[o.dev] == s.polls[w].key
      && o.dev in s.commits && s.commits[o.dev] == o.commitment
    ensures ShowsProperly(s, Show(w))
  {
  }

  /** So for a poll that saw its key pinned, only what comes between checking the offer and showing the code can make it improper. */
  lemma CheckedAtOnceIsProper(s: Old, w: Worker)
    requires Inv(s) && Enabled(s, CheckIt(w)) && s.polls[w].seen
    ensures var t := Step(s, CheckIt(w)); w in t.polls ==> Enabled(t, Show(w)) && ShowsProperly(t, Show(w))
    ensures w in Step(s, CheckIt(w)).polls <==>
      var o := s.polls[w].o;
      && o.eph.Some? && o.commitment == Of(o.eph.value) && o.dev in s.commits && s.commits[o.dev] == o.commitment
      && (o.dev in s.shown ==> s.shown[o.dev] == o.eph.value)
  {
    assert PollOk(s, s.polls[w]);
    hide ChallengesPinned, MadeForOne, WindowsCounted, PollsOk;
  }

  // ── a refusal is remembered ───────────────────────────────────────────────

  /** The acts happened one after the other, `tr` being the states between them. */
  ghost predicate IsTrace(tr: seq<Old>, acts: seq<Act>) {
    && |tr| == |acts| + 1 && tr[0] == NothingYet()
    && forall i {:trigger acts[i]} :: 0 <= i < |acts| ==> Enabled(tr[i], acts[i]) && tr[i + 1] == Step(tr[i], acts[i])
  }

  /** The user declines the device while this commitment is pinned. */
  predicate Declines(tr: seq<Old>, acts: seq<Act>, i: nat, d: Dev, k: Commitment)
    requires |tr| == |acts| + 1 && i < |acts|
  {
    acts[i] == Decline(d) && d in tr[i].commits && tr[i].commits[d] == k
  }

  /** The offer disappears, everything is reset, or the device is declined for another commitment. */
  predicate Forgets(tr: seq<Old>, acts: seq<Act>, i: nat, d: Dev, k: Commitment)
    requires |tr| == |acts| + 1 && i < |acts|
  {
    || acts[i].Reset? || (acts[i].Gone? && d !in acts[i].live)
    || (acts[i] == Decline(d) && d in tr[i].commits && tr[i].commits[d] != k)
  }

  /** It was declined, and nothing since has made that forgotten. */
  predicate DeclinedBefore(tr: seq<Old>, acts: seq<Act>, i: nat, d: Dev, k: Commitment)
    requires |tr| == |acts| + 1 && i <= |acts|
  {
    exists l :: 0 <= l < i && Declines(tr, acts, l, d, k) && forall m :: l < m < i ==> !Forgets(tr, acts, m, d, k)
  }

  lemma DeclinedNext(tr: seq<Old>, acts: seq<Act>, i: nat, d: Dev, k: Commitment)
    requires |tr| == |acts| + 1 && i < |acts|
    ensures DeclinedBefore(tr, acts, i + 1, d, k) <==>
      Declines(tr, acts, i, d, k) || (DeclinedBefore(tr, acts, i, d, k) && !Forgets(tr, acts, i, d, k))
  {
    hide Declines, Forgets;
  }

  lemma StepRemembers(s: Old, a: Act, d: Dev, k: Commitment)
    requires Enabled(s, a)
    ensures var t := Step(s, a);
      (d in t.declined && t.declined[d] == k) <==>
        || (a == Decline(d) && d in s.commits && s.commits[d] == k)
        || (d in s.declined && s.declined[d] == k
            && !(a.Reset? || (a.Gone? && d !in a.live) || (a == Decline(d) && d in s.commits && s.commits[d] != k)))
  {
    hide MayShow, IsNew;
  }

  lemma {:induction false} DeclinedIff(tr: seq<Old>, acts: seq<Act>, i: nat, d: Dev, k: Commitment)
    requires IsTrace(tr, acts) && i <= |acts|
    ensures d in tr[i].declined && tr[i].declined[d] == k <==> DeclinedBefore(tr, acts, i, d, k)
  {
    if i > 0 {
      DeclinedIff(tr, acts, i - 1, d, k);
      DeclinedNext(tr, acts, i - 1, d, k);
      StepRemembers(tr[i - 1], acts[i - 1], d, k);
      assert tr[i] == Step(tr[i - 1], acts[i - 1]);
      hide Step, Enabled, DeclinedBefore;
    }
  }

  /**
   Over every run: an offer that a poll meets is passed over, without a trace, exactly if its device was declined for this very
   commitment and neither a disappearance, nor a reset, nor another refusal has come since; any other is taken up.
   */
  lemma SkippedIff(tr: seq<Old>, acts: seq<Act>, i: nat, w: Worker, o: Offer)
    requires IsTrace(tr, acts) && i < |acts| && acts[i] == Consider(w, o)
    ensures DeclinedBefore(tr, acts, i, o.dev, o.commitment) ==> tr[i + 1] == tr[i]
    ensures !DeclinedBefore(tr, acts, i, o.dev, o.commitment) ==> Considers(tr[i + 1], w) && tr[i + 1].polls[w].o == o
  {
    DeclinedIff(tr, acts, i, o.dev, o.commitment);
    assert tr[i + 1] == Step(tr[i], acts[i]);
    hide DeclinedBefore;
  }

  // ── what is forgotten, what is kept ───────────────────────────────────────

  /** What the old device knows of one offer's device. */
  datatype Known = Known(
    challenge: Option<Pub>, commit: Option<Commitment>, declined: Option<Commitment>, shown: Option<Pub>, eph: Option<Pub>)

  function At<V>(m: map<Dev, V>, d: Dev): Option<V> {
    if d in m then Some(m[d]) else None
  }

  function KnownOf(s: Old, d: Dev): Known {
    Known(At(s.challenges, d), At(s.commits, d), At(s.declined, d), At(s.shown, d), At(s.offerEph, d))
  }

  /**
   A grant forgets the challenge; a refusal that and the pin and the shown key, and notes the pin as declined; a disappearance
   everything of the device, except that what was not shown yet stays pinned; a reset everything of everybody.
   */
  lemma WhatIsForgotten(s: Old, a: Act, d: Dev)
    requires Enabled(s, a) && (a.Gone? || a.Decline? || a.Forget? || a.Reset?)
    ensures var k := KnownOf(s, d);
      KnownOf(Step(s, a), d) ==
        match a
        case Forget(x) => if x == d then k.(challenge := None) else k
        case Decline(x) =>
          if x == d then Known(None, None, if k.commit.Some? then k.commit else k.declined, k.shown, None) else k
        case Gone(live) =>
          if d in live then k
          else if k.shown.Some? then Known(None, None, None, None, None) else Known(None, k.commit, None, None, k.eph)
        case _ => Known(None, None, None, None, None)
  {
  }

  /** A poll changes only what it knows of the offer it is at. */
  lemma PollsTouchTheirOwn(s: Old, a: Act, d: Dev)
    requires Enabled(s, a) && (a.Consider? || a.GiveUp? || a.Adopt? || a.PinKey? || a.CheckIt? || a.Show?)
    requires if a.Consider? then a.o.dev != d else s.polls[a.w].o.dev != d
    ensures KnownOf(Step(s, a), d) == KnownOf(s, d)
  {
    hide MayShow, IsNew;
  }

  /** Once its code has been shown, and the challenge is still here, the device can be granted: to the key shown, under it. */
  lemma ShownCanBeGranted(s: Old, w: Worker)
    requires Enabled(s, Show(w)) && s.polls[w].o.dev in s.challenges
    requires var o := s.polls[w].o; !(o.dev in s.shown && s.shown[o.dev] == o.eph.value)
    ensures var o := s.polls[w].o; GrantFor(Step(s, Show(w)), o.dev) == Some((o.eph.value, s.challenges[o.dev]))
  {
  }

  // ── polls of two generations ──────────────────────────────────────────────

  /** From its end, a run goes on. */
  lemma {:induction false} OneActMore(s: Old, acts: seq<Act>, a: Act, d: Old)
    requires Runs(s, acts) && Enabled(Run(s, acts), a) && Step(Run(s, acts), a) == d
    ensures Runs(s, acts + [a]) && Run(s, acts + [a]) == d
    decreases |acts|
  {
    hide Step, Enabled;
    if acts == [] {
      assert [] + [a] == [a] && [a][1..] == [];
    } else {
      assert (acts + [a])[0] == acts[0] && (acts + [a])[1..] == acts[1..] + [a];
      OneActMore(Step(s, acts[0]), acts[1..], a, d);
    }
  }

  const DEVICE: Dev := "d"

  /** The server's answers about one offer: first without our challenge, then with it and the key revealed. */
  function Fresh(eph: Pub): Offer { Offer(DEVICE, Of(eph), None, None) }

  function Answered(eph: Pub, own: Pub): Offer { Offer(DEVICE, Of(eph), Some(own), Some(eph)) }

  function Pinned(s: Old, eph: Pub, own: Pub): Old {
    s.(challenges := map[DEVICE := own], commits := map[DEVICE := Of(eph)], made := s.made + {own},
       pins := s.pins + {Pin(DEVICE, own, Of(eph))})
  }

  /** A poll that finds another commitment, or none, makes a challenge key and pins it. */
  lemma PinsANewKey(acts: seq<Act>, s: Old, w: Worker, eph: Pub, own: Pub) returns (more: seq<Act>)
    requires Runs(NothingYet(), acts) && Run(NothingYet(), acts) == s && w !in s.polls && IsNew(s, own) && s.declined == map[]
    requires s.challenges.Keys == s.commits.Keys <= {DEVICE} && (DEVICE in s.commits ==> s.commits[DEVICE] != Of(eph))
    ensures Runs(NothingYet(), more) && Run(NothingYet(), more) == Pinned(s, eph, own)
  {
    hide Runs, Run;
    var s1 := s.(challenges := map[], commits := map[], polls := s.polls[w := Considering(Fresh(eph), None, false)]);
    assert Look(s, w, Fresh(eph)) == s1;
    OneActMore(NothingYet(), acts, Consider(w, Fresh(eph)), s1);
    more := acts + [Consider(w, Fresh(eph))];
    assert Step(s1, PinKey(w, own)).polls == s.polls;
    OneActMore(NothingYet(), more, PinKey(w, own), Pinned(s, eph, own));
    more := more + [PinKey(w, own)];
  }

  /** A poll that knows nothing of the device goes on up to the point where it is about to show the code. */
  lemma UpToTheCode(acts: seq<Act>, s: Old, w: Worker, eph: Pub, own: Pub) returns (more: seq<Act>)
    requires Runs(NothingYet(), acts) && Run(NothingYet(), acts) == s && w !in s.polls && IsNew(s, own)
    requires s.challenges == map[] && s.commits == map[] && s.declined == map[] && s.shown == map[]
    ensures Runs(NothingYet(), more)
    ensures Run(NothingYet(), more) == Pinned(s, eph, own).(polls := s.polls[w := Checked(Answered(eph, own), own, true)])
  {
    more := PinsANewKey(acts, s, w, eph, own);
    hide Runs, Run;
    var s2 := Pinned(s, eph, own);
    var s3 := s2.(polls := s2.polls[w := Considering(Answered(eph, own), Some(own), true)]);
    OneActMore(NothingYet(), more, Consider(w, Answered(eph, own)), s3);
    more := more + [Consider(w, Answered(eph, own))];
    OneActMore(NothingYet(), more, CheckIt(w), Step(s3, CheckIt(w)));
    more := more + [CheckIt(w)];
  }

  /**
   It happens: a poll is about to show its code when everything is reset; the next generation's poll takes up another
   offer of the same device; then both show. Two codes, with no disappearance in between.
   */
  lemma TwoGenerationsShowTwoCodes() returns (acts: seq<Act>)
    ensures Runs(NothingYet(), acts)
    ensures var s := Run(NothingYet(), acts);
      s.codes == [Code(DEVICE, 10, 1), Code(DEVICE, 20, 2)] && DEVICE in s.times && s.times[DEVICE] == 2
  {
    acts := UpToTheCode([], NothingYet(), 0, 10, 1);
    var s1 := Run(NothingYet(), acts);
    hide Runs, Run, MayShow;
    OneActMore(NothingYet(), acts, Reset, Step(s1, Reset));
    acts := acts + [Reset];
    acts := UpToTheCode(acts, Step(s1, Reset), 1, 20, 2);
    var s2 := Run(NothingYet(), acts);
    TwoCodes(s2);
    OneActMore(NothingYet(), acts, Show(0), Step(s2, Show(0)));
    acts := acts + [Show(0)];
    OneActMore(NothingYet(), acts, Show(1), Step(Step(s2, Show(0)), Show(1)));
    acts := acts + [Show(1)];
  }

  lemma TwoCodes(s: Old)
    requires s.codes == [] && s.times == map[] && s.shown == map[]
    requires s.polls == map[0 := Checked(Answered(10, 1), 1, true), 1 := Checked(Answered(20, 2), 2, true)]
    ensures Enabled(s, Show(0)) && Enabled(Step(s, Show(0)), Show(1))
    ensures var d := Step(Step(s, Show(0)), Show(1));
      d.codes == [Code(DEVICE, 10, 1), Code(DEVICE, 20, 2)] && DEVICE in d.times && d.times[DEVICE] == 2
  {
  }

  /**
   Nor need the key be pinned: a poll took it out of the map for an offer with another commitment; before the poll checks
   that commitment, a second poll pins it, with a key of its own. The code is computed from the first key.
   */
  lemma UnpinnedKeyIsShown() returns (acts: seq<Act>)
    ensures Runs(NothingYet(), acts)
    ensures var s := Run(NothingYet(), acts); s.codes == [Code(DEVICE, 20, 1)] && Pin(DEVICE, 1, Of(20)) !in s.pins
  {
    acts := PinsANewKey([], NothingYet(), 0, 10, 1);
    hide Runs, Run;
    var s1 := Pinned(NothingYet(), 10, 1);
    var s2 := s1.(polls := map[0 := Considering(Answered(20, 1), Some(1), false)]);
    OneActMore(NothingYet(), acts, Consider(0, Answered(20, 1)), s2);
    acts := acts + [Consider(0, Answered(20, 1))];
    acts := PinsANewKey(acts, s2, 1, 20, 2);
    var s3 := Pinned(s2, 20, 2);
    LateCheckShows(s3);
    OneActMore(NothingYet(), acts, CheckIt(0), Step(s3, CheckIt(0)));
    acts := acts + [CheckIt(0)];
    OneActMore(NothingYet(), acts, Show(0), Step(Step(s3, CheckIt(0)), Show(0)));
    acts := acts + [Show(0)];
    hide Step, Enabled;
  }

  lemma LateCheckShows(s: Old)
    requires s.codes == [] && s.shown == map[] && s.commits == map[DEVICE := Of(20)]
    requires s.polls == map[0 := Considering(Answered(20, 1), Some(1), false)]
    ensures Enabled(s, CheckIt(0)) && Enabled(Step(s, CheckIt(0)), Show(0))
    ensures var d := Step(Step(s, CheckIt(0)), Show(0)); d.codes == [Code(DEVICE, 20, 1)] && d.pins == s.pins
  {
  }

  // ── the new device ────────────────────────────────────────────────────────

  /** The offer being made: its number, its key, the challenge once known, and what was shown for it. */
  datatype New = New(
    serial: nat, active: bool, eph: Option<Pub>, challenge: Option<Pub>, code: Option<(Pub, Pub)>,
    polls: map<Worker, Copy>, displayed: seq<Display>, grants: seq<Display>, used: set<Pub>)

  /** What a poll read under the lock before it went to the server. Several may be under way, also of earlier offers. */
  datatype Copy = Copy(serial: nat, eph: Pub, challenge: Option<Pub>)

  /** A code shown, or a grant opened: the offer, its key, and the challenge. */
  datatype Display = Display(serial: nat, eph: Pub, challenge: Pub)

  datatype Move =
    | StartOffer(eph: Pub) | BeginPoll(w: Worker) | Reveal(w: Worker, challenge: Pub) | OpenGrant(w: Worker, ephPub: Pub)
    | EndPoll(w: Worker) | Retract | ResetAll

  predicate CanMove(s: New, m: Move) {
    match m
    case StartOffer(eph) => eph !in s.used  // just generated
    case BeginPoll(w) => s.active && s.eph.Some? && w !in s.polls
    case Reveal(w, _) => w in s.polls && s.polls[w].challenge.None?
    case OpenGrant(w, e) => w in s.polls && s.polls[w].challenge == Some(e)
    case EndPoll(w) => w in s.polls
    case _ => true
  }

  function After(s: New, m: Move): New
    requires CanMove(s, m)
  {
    match m
    case StartOffer(eph) => s.(serial := s.serial + 1, active := true, eph := Some(eph), challenge := None, code := None, used := s.used + {eph})
    case BeginPoll(w) => s.(polls := s.polls[w := Copy(s.serial, s.eph.value, s.challenge)])
    case Reveal(w, c) =>
      if !s.active then s.(polls := s.polls - {w})
      else
        var p := s.polls[w];
        s.(challenge := Some(c), code := Some((p.eph, c)), polls := s.polls[w := p.(challenge := Some(c))],
           displayed := s.displayed + [Display(s.serial, p.eph, c)])
    case OpenGrant(w, e) =>
      s.(active := false, polls := s.polls - {w}, grants := s.grants + [Display(s.polls[w].serial, s.polls[w].eph, e)])
    case EndPoll(w) => s.(polls := s.polls - {w})
    case Retract => s.(active := false, eph := None, challenge := None, code := None)
    case ResetAll => s.(active := false, eph := None, challenge := None, code := None)
  }

  /** Its lock sections. */
  class NewDevice {
    var active: bool
    var eph: Option<Pub>
    var challenge: Option<Pub>
    var code: Option<(Pub, Pub)>

    ghost function Now(s: New): New
      reads this
    {
      s.(active := active, eph := eph, challenge := challenge, code := code)
    }

    ghost predicate Holds(s: New)
      reads this
    {
      Now(s) == s
    }

    constructor ()
      ensures Holds(NO_OFFER)
    {
      active, eph, challenge, code := false, None, None, None;
    }

    method PublishOffer(ghost s: New, key: Pub)
      requires CanMove(Now(s), StartOffer(key))
      modifies this
      ensures Holds(After(old(Now(s)), StartOffer(key)))
    {
      active, eph, challenge, code := true, Some(key), None, None;
    }

    /** A poll begins: what it will go by; none if there is no offer. */
    method ReadForPoll(ghost s: New, ghost w: Worker) returns (key: Option<Pub>, known: Option<Pub>)
      ensures key.Some? <==> active && eph.Some?
      ensures key.Some? && w !in s.polls ==>
        CanMove(Now(s), BeginPoll(w)) && After(Now(s), BeginPoll(w)).polls == s.polls[w := Copy(s.serial, key.value, known)]
    {
      if !active { return None, None; }
      return eph, challenge;
    }

    /** The challenge has come and our key was revealed: note it and the code, unless the offer is over. */
    method NoteChallenge(ghost s: New, ghost w: Worker, key: Pub, c: Pub) returns (shown: bool)
      requires CanMove(Now(s), Reveal(w, c)) && s.polls[w].eph == key
      modifies this`challenge, this`code
      ensures Holds(After(old(Now(s)), Reveal(w, c)))
      ensures After(old(Now(s)), Reveal(w, c)).displayed == s.displayed + if shown then [Display(s.serial, key, c)] else []
    {
      if !active { return false; }
      challenge, code := Some(c), Some((key, c));
      return true;
    }

    /** A grant is taken only under the challenge this poll goes by. */
    method TakeGrant(ghost s: New, ghost w: Worker, known: Option<Pub>, ephPub: Pub) returns (open: bool)
      requires w in s.polls && s.polls[w].challenge == known
      modifies this`active
      ensures open <==> CanMove(old(Now(s)), OpenGrant(w, ephPub))
      ensures open ==> Holds(After(old(Now(s)), OpenGrant(w, ephPub)))
      ensures !open ==> active == old(active)
    {
      if known != Some(ephPub) { return false; }
      active := false;
      return true;
    }

    method WithdrawOffer(ghost s: New)
      modifies this
      ensures Holds(After(old(Now(s)), Retract))
    {
      active, eph, challenge, code := false, None, None, None;
    }
  }

  predicate CanRun(s: New, ms: seq<Move>)
    decreases |ms|
  {
    ms == [] || (CanMove(s, ms[0]) && CanRun(After(s, ms[0]), ms[1..]))
  }

  function RunNew(s: New, ms: seq<Move>): New
    requires CanRun(s, ms)
    decreases |ms|
  {
    if ms == [] then s else RunNew(After(s, ms[0]), ms[1..])
  }

  const NO_OFFER := New(0, false, None, None, None, map[], [], [], {})

  // ── when the offer is over ────────────────────────────────────────────────

  /** An offer begins with its key alone; it is over when it is withdrawn or reset, which leave nothing of it, and with the grant. */
  lemma OfferBeginsAndEnds(s: New, m: Move)
    requires CanMove(s, m)
    ensures var t := After(s, m);
      match m
      case StartOffer(eph) => t.active && t.eph == Some(eph) && t.challenge == None && t.code == None
      case Retract => !t.active && t.eph == None && t.challenge == None && t.code == None
      case ResetAll => !t.active && t.eph == None && t.challenge == None && t.code == None
      case OpenGrant(_, _) => !t.active && |t.grants| == |s.grants| + 1
      case _ => t.active == s.active && t.eph == s.eph
  {
  }

  /** Once it is over, no code is shown and no poll begins until a new offer is made, whatever polls were under way. */
  lemma {:induction false} NothingShownUntilTheNextOffer(s: New, ms: seq<Move>)
    requires CanRun(s, ms) && !s.active && forall m :: m in ms ==> !m.StartOffer?
    ensures var t := RunNew(s, ms); !t.active && t.displayed == s.displayed
    ensures forall m :: m in ms ==> !m.BeginPoll?
    decreases |ms|
  {
    if ms != [] {
      assert ms[0] in ms && forall m :: m in ms <==> m == ms[0] || m in ms[1..];
      OfferBeginsAndEnds(s, ms[0]);
      NothingShownUntilTheNextOffer(After(s, ms[0]), ms[1..]);
    }
  }

  // ── grants are opened under a code that was shown ─────────────────────────

  /** What the source could check under its lock before it notes a challenge: the poll's key is still the offer's. */
  predicate PresentKey(s: New, m: Move) {
    m.Reveal? && s.active && m.w in s.polls ==> s.eph == Some(s.polls[m.w].eph)
  }

  predicate PresentKeys(s: New, ms: seq<Move>)
    requires CanRun(s, ms)
    decreases |ms|
  {
    ms == [] || (PresentKey(s, ms[0]) && PresentKeys(After(s, ms[0]), ms[1..]))
  }

  /** A code was shown for this key and this challenge. */
  ghost predicate Shown(s: New, eph: Pub, c: Pub) {
    exists d :: d in s.displayed && d.eph == eph && d.challenge == c
  }

  /** Each grant was opened with a key and under a challenge whose code was shown. */
  ghost predicate GrantsShown(s: New) {
    forall g :: g in s.grants ==> Shown(s, g.eph, g.challenge)
  }

  ghost predicate Consistent(s: New) {
    && GrantsShown(s) && (s.active ==> s.eph.Some?)
    && (s.eph.Some? && s.challenge.Some? ==> Shown(s, s.eph.value, s.challenge.value))
    && (forall w :: w in s.polls && s.polls[w].challenge.Some? ==> Shown(s, s.polls[w].eph, s.polls[w].challenge.value))
  }

  lemma ShownStays(s: New, m: Move)
    requires CanMove(s, m)
    ensures forall k, c :: Shown(s, k, c) ==> Shown(After(s, m), k, c)
    ensures m.Reveal? && s.active ==> Shown(After(s, m), s.polls[m.w].eph, m.challenge)
  {
    var t := After(s, m);
    forall k, c | Shown(s, k, c) ensures Shown(t, k, c) {
      var d :| d in s.displayed && d.eph == k && d.challenge == c;
      assert d in t.displayed;
    }
    if m.Reveal? && s.active {
      assert t.displayed[|s.displayed|] == Display(s.serial, s.polls[m.w].eph, m.challenge);
    }
  }

  lemma AfterKeepsConsistent(s: New, m: Move)
    requires Consistent(s) && CanMove(s, m) && PresentKey(s, m)
    ensures Consistent(After(s, m))
  {
    ShownStays(s, m);
    hide Shown;
  }

  lemma {:induction false} RunKeepsConsistent(s: New, ms: seq<Move>)
    requires Consistent(s) && CanRun(s, ms) && PresentKeys(s, ms)
    ensures Consistent(RunNew(s, ms))
    decreases |ms|
  {
    if ms != [] {
      AfterKeepsConsistent(s, ms[0]);
      hide Consistent, After, CanMove, PresentKey;
      RunKeepsConsistent(After(s, ms[0]), ms[1..]);
    }
  }

  /** Whatever the server answers: if challenges are noted only for the present key, each grant's own code was shown. */
  lemma OpenedUnderTheShownCode(ms: seq<Move>)
    requires CanRun(NO_OFFER, ms) && PresentKeys(NO_OFFER, ms)
    ensures GrantsShown(RunNew(NO_OFFER, ms))
  {
    RunKeepsConsistent(NO_OFFER, ms);
  }

  /** Against every answer and in every continuation that notes challenges for the present key only. */
  ghost predicate SafeToNote(s: New, w: Worker)
    requires w in s.polls && s.polls[w].challenge.None?
  {
    forall c, more ::
      CanRun(After(s, Reveal(w, c)), more) && PresentKeys(After(s, Reveal(w, c)), more) ==>
        GrantsShown(RunNew(After(s, Reveal(w, c)), more))
  }

  function GreatestChallenge(ds: seq<Display>): (top: Pub)
    ensures forall d :: d in ds ==> d.challenge <= top
  {
    if ds == [] then 0
    else var k := |ds| - 1; var top := GreatestChallenge(ds[..k]); if ds[k].challenge > top then ds[k].challenge else top
  }

  lemma UnusedWorker(s: New) returns (w: Worker)
    ensures w !in s.polls
  {
    var ws := s.polls.Keys;
    w := 0;
    while ws != {}
      invariant forall v :: v in s.polls ==> v in ws || v < w
      decreases |ws|
    {
      var v :| v in ws;
      if v >= w { w := v + 1; }
      ws := ws - {v};
    }
  }

  /** After a challenge is noted for an old key, the next poll opens a grant that no code was shown for. */
  lemma StaleRevealGoesWrong(s: New, w: Worker) returns (c: Pub, more: seq<Move>)
    requires s.active && s.eph.Some? && w in s.polls && s.polls[w].challenge.None? && s.polls[w].eph != s.eph.value
    ensures var t := After(s, Reveal(w, c)); CanRun(t, more) && PresentKeys(t, more) && !GrantsShown(RunNew(t, more))
  {
    c := GreatestChallenge(s.displayed) + 1;
    var t := After(s, Reveal(w, c));
    var v := UnusedWorker(t);
    var polled := After(t, BeginPoll(v));
    assert polled.polls[v] == Copy(s.serial, s.eph.value, Some(c));
    var last := After(polled, OpenGrant(v, c));
    more := [BeginPoll(v), OpenGrant(v, c)];
    assert more[1..] == [OpenGrant(v, c)] && more[1..][1..] == [];
    assert CanRun(last, []) && CanRun(polled, more[1..]) && CanRun(t, more);
    assert RunNew(t, more) == RunNew(polled, more[1..]) == RunNew(last, []) == last;
    assert last.grants[|s.grants|] == Display(s.serial, s.eph.value, c);
    assert !Shown(last, s.eph.value, c);
  }

  /**
   At any point of any run: a poll may note whatever challenge the server sends, without a grant ever being opened
   under a code nobody saw for its key, if and only if the poll's key is the present offer's.
   */
  lemma NotingIsSafeIffKeyIsPresent(ms: seq<Move>, w: Worker)
    requires CanRun(NO_OFFER, ms) && PresentKeys(NO_OFFER, ms)
    requires var s := RunNew(NO_OFFER, ms); s.active && w in s.polls && s.polls[w].challenge.None?
    ensures var s := RunNew(NO_OFFER, ms); SafeToNote(s, w) <==> s.eph == Some(s.polls[w].eph)
  {
    var s := RunNew(NO_OFFER, ms);
    RunKeepsConsistent(NO_OFFER, ms);
    if s.eph == Some(s.polls[w].eph) {
      forall c, more | CanRun(After(s, Reveal(w, c)), more) && PresentKeys(After(s, Reveal(w, c)), more)
        ensures GrantsShown(RunNew(After(s, Reveal(w, c)), more))
      {
        AfterKeepsConsistent(s, Reveal(w, c));
        RunKeepsConsistent(After(s, Reveal(w, c)), more);
      }
    } else {
      var c, more := StaleRevealGoesWrong(s, w);
    }
  }

  /** From its end, a run goes on. */
  lemma {:induction false} OneMoveMore(s: New, ms: seq<Move>, m: Move, t: New)
    requires CanRun(s, ms) && CanMove(RunNew(s, ms), m) && After(RunNew(s, ms), m) == t
    ensures CanRun(s, ms + [m]) && RunNew(s, ms + [m]) == t
    decreases |ms|
  {
    hide After, CanMove;
    if ms == [] {
      assert [] + [m] == [m] && [m][1..] == [];
    } else {
      assert (ms + [m])[0] == ms[0] && (ms + [m])[1..] == ms[1..] + [m];
      OneMoveMore(After(s, ms[0]), ms[1..], m, t);
    }
  }

  /** A first offer is polled, withdrawn, and made anew with another key; then the poll notes its challenge. */
  lemma StaleReveal() returns (ms: seq<Move>)
    ensures CanRun(NO_OFFER, ms)
    ensures RunNew(NO_OFFER, ms) ==
      New(2, true, Some(2), Some(5), Some((1, 5)), map[0 := Copy(1, 1, Some(5))], [Display(2, 1, 5)], [], {1, 2})
  {
    var s1 := New(1, true, Some(1), None, None, map[], [], [], {1});
    var s2 := s1.(polls := map[0 := Copy(1, 1, None)]);
    var s3 := s2.(active := false, eph := None);
    var s4 := s3.(serial := 2, active := true, eph := Some(2), used := {1, 2});
    OneMoveMore(NO_OFFER, [], StartOffer(1), s1);
    hide RunNew, CanRun;
    ms := [] + [StartOffer(1)];
    OneMoveMore(NO_OFFER, ms, BeginPoll(0), s2);
    ms := ms + [BeginPoll(0)];
    OneMoveMore(NO_OFFER, ms, Retract, s3);
    ms := ms + [Retract];
    OneMoveMore(NO_OFFER, ms, StartOffer(2), s4);
    ms := ms + [StartOffer(2)];
    OneMoveMore(NO_OFFER, ms, Reveal(0, 5), After(s4, Reveal(0, 5)));
    ms := ms + [Reveal(0, 5)];
  }

  /** It happens: the second offer's grant is opened while the only code shown was computed from the first one's key. */
  lemma StalePollOpensAnUnseenGrant() returns (ms: seq<Move>)
    ensures CanRun(NO_OFFER, ms)
    ensures var s := RunNew(NO_OFFER, ms);
      s.grants == [Display(2, 2, 5)] && s.displayed == [Display(2, 1, 5)] && !GrantsShown(s)
  {
    ms := StaleReveal();
    var s5 := RunNew(NO_OFFER, ms);
    hide RunNew, CanRun;
    var s6 := s5.(polls := map[]);
    var s7 := s5.(polls := map[0 := Copy(2, 2, Some(5))]);
    OneMoveMore(NO_OFFER, ms, EndPoll(0), s6);
    ms := ms + [EndPoll(0)];
    OneMoveMore(NO_OFFER, ms, BeginPoll(0), s7);
    ms := ms + [BeginPoll(0)];
    OneMoveMore(NO_OFFER, ms, OpenGrant(0, 5), After(s7, OpenGrant(0, 5)));
    ms := ms + [OpenGrant(0, 5)];
    assert RunNew(NO_OFFER, ms).grants[0] == Display(2, 2, 5);
  }

  // ── one code for an offer ─────────────────────────────────────────────────

  /** The poll's key is the present one, and no challenge was noted for it yet. */
  predicate FirstOfOffer(s: New, m: Move) {
    m.Reveal? && s.active ==> PresentKey(s, m) && s.challenge.None?
  }

  predicate EachIsFirst(s: New, ms: seq<Move>)
    requires CanRun(s, ms)
    decreases |ms|
  {
    ms == [] || (FirstOfOffer(s, ms[0]) && EachIsFirst(After(s, ms[0]), ms[1..]))
  }

  /** No two codes for one offer. */
  ghost predicate OncePerOffer(s: New) {
    forall i, k :: 0 <= i < k < |s.displayed| ==> s.displayed[i].serial != s.displayed[k].serial
  }

  ghost predicate Sound(s: New) {
    && OncePerOffer(s)
    && (forall d :: d in s.displayed ==> d.serial <= s.serial)
    && (s.challenge.Some? ==>
          s.eph.Some? && s.code == Some((s.eph.value, s.challenge.value)) && Display(s.serial, s.eph.value, s.challenge.value) in s.displayed)
    && (s.active && s.challenge.None? ==> forall d :: d in s.displayed ==> d.serial < s.serial)
    && (forall g :: g in s.grants ==> g in s.displayed)
    && (s.eph.Some? ==> s.eph.value in s.used) && (s.active ==> s.eph.Some?)
    && (forall w :: w in s.polls ==> PollSound(s, s.polls[w]))
  }

  ghost predicate PollSound(s: New, p: Copy) {
    && p.serial <= s.serial && p.eph in s.used
    && (s.eph.Some? ==> (p.serial == s.serial <==> s.eph.value == p.eph))
    && (p.challenge.Some? ==> Display(p.serial, p.eph, p.challenge.value) in s.displayed)
  }

  lemma AfterKeepsSound(s: New, m: Move)
    requires Sound(s) && CanMove(s, m) && FirstOfOffer(s, m)
    ensures Sound(After(s, m))
    ensures s.serial == After(s, m).serial && s.active && After(s, m).active && s.challenge.Some? ==> After(s, m).challenge == s.challenge
  {
    var t := After(s, m);
    assert forall d :: d in s.displayed ==> d in t.displayed;
    if m.Reveal? && s.active {
      assert t.displayed[|s.displayed|] == Display(s.serial, s.polls[m.w].eph, m.challenge);
    }
  }

  lemma {:induction false} RunKeepsSound(s: New, ms: seq<Move>)
    requires Sound(s) && CanRun(s, ms) && EachIsFirst(s, ms)
    ensures Sound(RunNew(s, ms))
    decreases |ms|
  {
    if ms != [] {
      AfterKeepsSound(s, ms[0]);
      hide Sound, After, CanMove, FirstOfOffer;
      RunKeepsSound(After(s, ms[0]), ms[1..]);
    }
  }

  /** The only grant opened for an offer is then under the one code shown for that very offer. */
  lemma OneCodeOneGrant(ms: seq<Move>)
    requires CanRun(NO_OFFER, ms) && EachIsFirst(NO_OFFER, ms)
    ensures var s := RunNew(NO_OFFER, ms); OncePerOffer(s) && forall g :: g in s.grants ==> g in s.displayed
  {
    RunKeepsSound(NO_OFFER, ms);
  }

  /**
   Exactly when noting a challenge keeps to one code an offer, and that code is the present key's: when the poll's
   key is the present one and no challenge was noted for it before.
   */
  lemma RevealGoesRightIff(s: New, w: Worker, c: Pub)
    requires Sound(s) && CanMove(s, Reveal(w, c)) && s.active
    ensures var t := After(s, Reveal(w, c));
      OncePerOffer(t) && t.code == Some((s.eph.value, c)) <==> FirstOfOffer(s, Reveal(w, c))
  {
    var t := After(s, Reveal(w, c));
    assert t.displayed[|s.displayed|].serial == s.serial;
    if s.challenge.Some? {
      var i :| 0 <= i < |s.displayed| && s.displayed[i] == Display(s.serial, s.eph.value, s.challenge.value);
      assert t.displayed[i].serial == s.serial;
    } else {
      assert forall i :: 0 <= i < |s.displayed| ==> s.displayed[i] in s.displayed;
    }
  }
}
