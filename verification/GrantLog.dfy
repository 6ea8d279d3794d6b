/**
 What a grant log says, read off the log itself: which epoch it has come to, who stands in it at which level, who may
 write in which epoch, and which entry may follow. The fold of `Access` is proved to say the same.
 */
module GrantLog {
  import opened Prelude
  import opened Access

  // ── the log, read without the fold ────────────────────────────────────────

  predicate ChangesEpoch(e: GrantEntry) {
    e.kind == Revoke || e.kind == Rotate
  }

  /** The epoch the log has come to: the first, and one more for each revocation and rotation. */
  function EpochIn(log: seq<GrantEntry>): nat {
    if log == [] then 1
    else EpochIn(log[..|log| - 1]) + if ChangesEpoch(log[|log| - 1]) then 1 else 0
  }

  /** The grantee was given this level, and no later entry is about them. */
  ghost predicate Stands(log: seq<GrantEntry>, grantee: Grantee, level: Level) {
    exists i :: 0 <= i < |log| && Gives(log[i], grantee, level) && NotNamed(log, i + 1, grantee)
  }

  predicate Gives(e: GrantEntry, grantee: Grantee, level: Level) {
    e.kind == Grant && e.grantee == Some(grantee) && e.level == level
  }

  predicate NotNamed(log: seq<GrantEntry>, from: nat, grantee: Grantee) {
    forall l :: from <= l < |log| ==> log[l].grantee != Some(grantee)
  }

  /** The level of a user: the owner administers, others stand in the log or have none. */
  ghost predicate HasLevel(g: Genesis, log: seq<GrantEntry>, name: Name, level: Level) {
    if name == g.owner then level == Admin else Stands(log, User(name), level)
  }

  /** A grant to write in the epoch `at`, or a change to that epoch with such a grant standing. */
  ghost predicate OpensEpoch(log: seq<GrantEntry>, i: nat, name: Name, at: nat)
    requires i < |log|
  {
    && EpochIn(log[..i + 1]) == at
    && ((exists level: Level :: level.Writes() && Gives(log[i], User(name), level))
        || (ChangesEpoch(log[i]) && exists level: Level :: level.Writes() && Stands(log[..i + 1], User(name), level)))
  }

  /** The owner writes in every epoch there has been, another user in those that were opened to them. */
  ghost predicate MayWrite(g: Genesis, log: seq<GrantEntry>, name: Name, at: nat) {
    if name == g.owner then 1 <= at <= EpochIn(log) else exists i :: 0 <= i < |log| && OpensEpoch(log, i, name, at)
  }

  /** No change to a later epoch than `at` declared a boundary that lies before this place of the journal. */
  ghost predicate NotCutOff(log: seq<GrantEntry>, at: nat, seq_: u64) {
    forall i :: 0 <= i < |log| ==> !CutsOff(log, i, at, seq_)
  }

  predicate CutsOff(log: seq<GrantEntry>, i: nat, at: nat, seq_: u64)
    requires i < |log|
  {
    ChangesEpoch(log[i]) && log[i].boundary.Some? && at < EpochIn(log[..i + 1]) && log[i].boundary.value < seq_
  }

  /** Some address of this person administers. */
  ghost predicate Rules(g: Genesis, log: seq<GrantEntry>, who: Author) {
    exists name :: who.Is(name) && HasLevel(g, log, name, Admin)
  }

  function HeadOf(g: Genesis, log: seq<GrantEntry>): Digest {
    if log == [] then OfGenesis(g) else OfEntry(log[|log| - 1])
  }

  /** The entry is signed by a known device and follows the head of the log. */
  predicate Links(g: Genesis, log: seq<GrantEntry>, e: GrantEntry, authors: Authors) {
    && e.authentic && e.container == g.container && e.version == |log| + 1 && e.prev == HeadOf(g, log)
    && e.signer in authors
  }

  /** An entry that may follow: a departure by the one who departs, all others by somebody who administers. */
  ghost predicate MayFollow(g: Genesis, log: seq<GrantEntry>, e: GrantEntry, authors: Authors) {
    && Links(g, log, e, authors)
    && var who, epoch := authors[e.signer], EpochIn(log);
      match e.kind
      case Other => false
      case Leave =>
        && e.grantee.Some? && e.grantee.value.User? && who.Is(e.grantee.value.name) && e.level == Unspecified
        && e.keyEpoch == epoch && exists level :: Stands(log, e.grantee.value, level)
      case Rotate =>
        Rules(g, log, who) && e.grantee.None? && e.level == Unspecified && e.keyEpoch == epoch + 1
      case Revoke =>
        && Rules(g, log, who) && e.grantee.Some? && !e.grantee.value.Unreadable? && e.grantee.value != User(g.owner)
        && e.level == Unspecified && e.keyEpoch == epoch + 1 && exists level :: Stands(log, e.grantee.value, level)
      case Grant =>
        && Rules(g, log, who) && e.grantee.Some? && !e.grantee.value.Unreadable? && e.grantee.value != User(g.owner)
        && e.level != Unspecified && e.level != Unknown && e.keyEpoch == epoch
  }

  /** The genesis is signed by a device of the owner. */
  predicate Founded(g: Genesis, authors: Authors) {
    g.authentic && g.signer in authors && authors[g.signer].Is(g.owner)
  }

  // ── one entry more ────────────────────────────────────────────────────────

  lemma EpochNext(log: seq<GrantEntry>, e: GrantEntry)
    ensures EpochIn(log + [e]) == EpochIn(log) + if ChangesEpoch(e) then 1 else 0
  {
    assert (log + [e])[..|log|] == log;
  }

  lemma {:induction false} EpochOnlyRises(log: seq<GrantEntry>, k: nat)
    requires k <= |log|
    ensures 1 <= EpochIn(log[..k]) <= EpochIn(log)
    decreases |log|
  {
    if k < |log| {
      assert log[..|log| - 1][..k] == log[..k];
      EpochOnlyRises(log[..|log| - 1], k);
    } else {
      assert log[..k] == log;
      if k > 0 { EpochOnlyRises(log[..k - 1], k - 1); }
    }
  }

  lemma StandsNext(log: seq<GrantEntry>, e: GrantEntry, grantee: Grantee, level: Level)
    ensures Stands(log + [e], grantee, level) <==>
      if e.grantee == Some(grantee) then Gives(e, grantee, level) else Stands(log, grantee, level)
  {
    var more := log + [e];
    if e.grantee == Some(grantee) {
      if Gives(e, grantee, level) {
        assert Gives(more[|log|], grantee, level) && NotNamed(more, |log| + 1, grantee);
      }
      assert more[|log|] == e;
    } else {
      if Stands(more, grantee, level) {
        var i :| 0 <= i < |more| && Gives(more[i], grantee, level) && NotNamed(more, i + 1, grantee);
        assert i < |log| && log[i] == more[i] && forall l :: i + 1 <= l < |log| ==> log[l] == more[l];
        assert NotNamed(log, i + 1, grantee);
      }
      if Stands(log, grantee, level) {
        var i :| 0 <= i < |log| && Gives(log[i], grantee, level) && NotNamed(log, i + 1, grantee);
        assert more[i] == log[i] && NotNamed(more, i + 1, grantee);
      }
    }
  }

  /** One entry more opens the epoch it is in, and only to those it names or finds standing. */
  lemma OpensNext(log: seq<GrantEntry>, e: GrantEntry, i: nat, name: Name, at: nat)
    requires i < |log|
    ensures OpensEpoch(log + [e], i, name, at) <==> OpensEpoch(log, i, name, at)
  {
    assert (log + [e])[..i + 1] == log[..i + 1] && (log + [e])[i] == log[i];
  }

  lemma CutsNext(log: seq<GrantEntry>, e: GrantEntry, i: nat, at: nat, seq_: u64)
    requires i < |log|
    ensures CutsOff(log + [e], i, at, seq_) <==> CutsOff(log, i, at, seq_)
  {
    assert (log + [e])[..i + 1] == log[..i + 1] && (log + [e])[i] == log[i];
  }

  // ── the fold says the same ────────────────────────────────────────────────

  /** The access says of levels and of the epoch what the log says. */
  ghost predicate SaysLevels(a: Access, g: Genesis, log: seq<GrantEntry>) {
    && a.container == g.container && a.domain == g.domain && a.owner == g.owner && a.epoch == EpochIn(log)
    && (forall who, level :: (who in a.grants && a.grants[who] == level) <==> Stands(log, who, level))
    && User(a.owner) !in a.grants
  }

  lemma ApplyChangesLevel(a: Access, e: GrantEntry, authors: Authors, who: Grantee, level: Level)
    requires a.WellFormed() && Apply(a, e, authors).Ok?
    ensures var b := Apply(a, e, authors).value;
      (who in b.grants && b.grants[who] == level) <==>
      if e.grantee == Some(who) then Gives(e, who, level) else who in a.grants && a.grants[who] == level
  {
  }

  lemma ApplyKeepsRest(a: Access, e: GrantEntry, authors: Authors)
    requires a.WellFormed() && Apply(a, e, authors).Ok? && User(a.owner) !in a.grants
    ensures var b := Apply(a, e, authors).value;
      && b.container == a.container && b.domain == a.domain && b.owner == a.owner && User(a.owner) !in b.grants
      && b.epoch == a.epoch + if ChangesEpoch(e) then 1 else 0
  {
  }

  lemma {:induction false} FoldSaysLevels(g: Genesis, log: seq<GrantEntry>, authors: Authors)
    requires Replay(g, log, authors).Ok?
    ensures SaysLevels(Replay(g, log, authors).value, g, log)
  {
    var b := Replay(g, log, authors).value;
    if log == [] {
      assert b == AtGenesis(g);
    } else {
      var k := |log| - 1;
      var a, e := LastStep(g, log, authors);
      FoldSaysLevels(g, log[..k], authors);
      EpochNext(log[..k], e);
      ApplyKeepsRest(a, e, authors);
      forall who, level ensures (who in b.grants && b.grants[who] == level) <==> Stands(log, who, level) {
        ApplyChangesLevel(a, e, authors, who, level);
        StandsNext(log[..k], e, who, level);
      }
      hide Stands, Apply, Replay, EpochIn;
    }
  }

  /** A log that replays ends with a step of the fold. */
  lemma LastStep(g: Genesis, log: seq<GrantEntry>, authors: Authors) returns (a: Access, e: GrantEntry)
    requires Replay(g, log, authors).Ok? && log != []
    ensures var k := |log| - 1;
      && log[..k] + [log[k]] == log && e == log[k]
      && Replay(g, log[..k], authors) == Ok(a) && Apply(a, e, authors) == Replay(g, log, authors)
  {
    var k := |log| - 1;
    assert log == log[..k] + [log[k]];
    ReplayPrefix(g, log, k, authors);
    ReplayOneMore(g, log[..k], log[k], authors);
    return Replay(g, log[..k], authors).value, log[k];
  }

  /** The level of any user is what the log says, and what it does not say nobody has. */
  lemma LevelIsWhatTheLogSays(g: Genesis, log: seq<GrantEntry>, authors: Authors, name: Name, level: Level)
    requires Replay(g, log, authors).Ok?
    ensures Replay(g, log, authors).value.LevelOf(name) == Some(level) <==> HasLevel(g, log, name, level)
    ensures Replay(g, log, authors).value.epoch == EpochIn(log)
  {
    FoldSaysLevels(g, log, authors);
    hide Stands, Replay;
  }

  // ── who may write ─────────────────────────────────────────────────────────

  /** A step lets in whom it grants to, and at a change of epoch those who then stand. */
  lemma ApplyOpens(a: Access, e: GrantEntry, authors: Authors, name: Name, at: u64)
    requires a.WellFormed() && Apply(a, e, authors).Ok? && name != a.owner
    requires forall k :: k in a.writers ==> k <= a.epoch
    ensures var b := Apply(a, e, authors).value;
      b.CouldWriteAt(name, at) <==>
      || a.CouldWriteAt(name, at)
      || (at == b.epoch
          && ((exists level: Level :: level.Writes() && Gives(e, User(name), level))
              || (ChangesEpoch(e) && User(name) in b.grants && b.grants[User(name)].Writes())))
  {
    var b := Apply(a, e, authors).value;
    if ChangesEpoch(e) {
      assert b.writers == a.writers[b.epoch := Writers(b.grants)] && b.epoch !in a.writers;
    } else if e.kind == Grant {
      assert Gives(e, e.grantee.value, e.level);
    }
  }

  lemma MayWriteNext(g: Genesis, log: seq<GrantEntry>, e: GrantEntry, name: Name, at: nat)
    requires name != g.owner
    ensures MayWrite(g, log + [e], name, at) <==> MayWrite(g, log, name, at) || OpensEpoch(log + [e], |log|, name, at)
  {
    forall i | 0 <= i < |log| ensures OpensEpoch(log + [e], i, name, at) <==> OpensEpoch(log, i, name, at) {
      OpensNext(log, e, i, name, at);
    }
    hide OpensEpoch;
  }

  lemma {:induction false} WriterIsWhatTheLogSays(g: Genesis, log: seq<GrantEntry>, authors: Authors, name: Name, at: u64)
    requires Replay(g, log, authors).Ok?
    ensures Replay(g, log, authors).value.CouldWriteAt(name, at) <==> MayWrite(g, log, name, at)
  {
    var b := Replay(g, log, authors).value;
    FoldSaysLevels(g, log, authors);
    if name != g.owner && log != [] {
      var k := |log| - 1;
      var a, e := LastStep(g, log, authors);
      WriterIsWhatTheLogSays(g, log[..k], authors, name, at);
      ReplayShape(g, log[..k], authors);
      ApplyOpens(a, e, authors, name, at);
      assert log[..k + 1] == log;
      hide Apply, Replay, Stands, Gives, Spells;
      MayWriteNext(g, log[..k], e, name, at);
    }
  }

  lemma {:induction false} BoundaryIsWhatTheLogSays(g: Genesis, log: seq<GrantEntry>, authors: Authors, at: u64, seq_: u64)
    requires Replay(g, log, authors).Ok?
    ensures Replay(g, log, authors).value.WithinBoundary(at, seq_) <==> NotCutOff(log, at, seq_)
  {
    if log != [] {
      var k := |log| - 1;
      var a, e := LastStep(g, log, authors);
      BoundaryIsWhatTheLogSays(g, log[..k], authors, at, seq_);
      ReplayShape(g, log[..k], authors);
      FoldSaysLevels(g, log, authors);
      ApplyBounds(a, e, authors, at, seq_);
      assert log[..k + 1] == log;
      hide Apply, Replay, Stands, Spells;
      NotCutOffNext(log[..k], e, at, seq_);
    }
  }

  lemma NotCutOffNext(log: seq<GrantEntry>, e: GrantEntry, at: nat, seq_: u64)
    ensures NotCutOff(log + [e], at, seq_) <==> NotCutOff(log, at, seq_) && !CutsOff(log + [e], |log|, at, seq_)
  {
    forall i | 0 <= i < |log| ensures CutsOff(log + [e], i, at, seq_) <==> CutsOff(log, i, at, seq_) {
      CutsNext(log, e, i, at, seq_);
    }
    hide CutsOff;
  }

  /** A step adds the boundary it declares, for the epochs before the one it begins. */
  lemma ApplyBounds(a: Access, e: GrantEntry, authors: Authors, at: u64, seq_: u64)
    requires a.WellFormed() && Apply(a, e, authors).Ok?
    requires forall k :: k in a.boundaries ==> k <= a.epoch
    ensures var b := Apply(a, e, authors).value;
      b.WithinBoundary(at, seq_) <==>
      a.WithinBoundary(at, seq_) && !(ChangesEpoch(e) && e.boundary.Some? && at < b.epoch && e.boundary.value < seq_)
  {
    var b := Apply(a, e, authors).value;
    if ChangesEpoch(e) && e.boundary.Some? {
      assert b.epoch in b.boundaries && b.boundaries[b.epoch] == e.boundary.value;
      assert b.boundaries == a.boundaries[b.epoch := e.boundary.value] && b.epoch !in a.boundaries;
      assert forall k :: k in a.boundaries ==> k in b.boundaries && b.boundaries[k] == a.boundaries[k];
    } else {
      assert b.boundaries == a.boundaries;
    }
  }

  // ── which entry may follow ────────────────────────────────────────────────

  lemma RulesIsWhatTheLogSays(g: Genesis, log: seq<GrantEntry>, authors: Authors, who: Author)
    requires Replay(g, log, authors).Ok?
    ensures Administers(Replay(g, log, authors).value, who) <==> Rules(g, log, who)
  {
    var a := Replay(g, log, authors).value;
    forall name ensures a.CanAdmin(name) <==> HasLevel(g, log, name, Admin) {
      LevelIsWhatTheLogSays(g, log, authors, name, Admin);
    }
    hide Replay, HasLevel;
    if Administers(a, who) {
      var name := if a.CanAdmin(who.user) then who.user else var i :| 0 <= i < |who.aliases| && a.CanAdmin(who.aliases[i]); who.aliases[i];
      assert who.Is(name) && HasLevel(g, log, name, Admin);
    }
    if Rules(g, log, who) {
      var name :| who.Is(name) && HasLevel(g, log, name, Admin);
      if name != who.user {
        var i :| 0 <= i < |who.aliases| && who.aliases[i] == name;
        assert a.CanAdmin(who.aliases[i]);
      }
    }
  }

  /** An entry is accepted after a log exactly if it may follow it, as the log itself says. */
  lemma EntryIsAcceptedIff(g: Genesis, log: seq<GrantEntry>, e: GrantEntry, authors: Authors)
    requires Replay(g, log, authors).Ok?
    ensures Replay(g, log + [e], authors).Ok? <==> MayFollow(g, log, e, authors)
  {
    var a := Replay(g, log, authors).value;
    ReplayOneMore(g, log, e, authors);
    ReplayShape(g, log, authors);
    HeadTellsLength(a, g, log);
    FoldSaysLevels(g, log, authors);
    if e.signer in authors { RulesIsWhatTheLogSays(g, log, authors, authors[e.signer]); }
    forall who ensures who in a.grants <==> exists level :: Stands(log, who, level) {
      if who in a.grants { assert Stands(log, who, a.grants[who]); }
    }
    hide Replay, Stands, Rules, Administers, Spells;
  }

  /** So a log is valid exactly if it was founded by its owner and each entry might follow those before it. */
  lemma {:induction false} LogIsValidIff(g: Genesis, log: seq<GrantEntry>, authors: Authors)
    ensures Replay(g, log, authors).Ok? <==>
      Founded(g, authors) && forall i :: 0 <= i < |log| ==> MayFollow(g, log[..i], log[i], authors)
  {
    if log != [] {
      var k := |log| - 1;
      LogIsValidIff(g, log[..k], authors);
      assert log == log[..k] + [log[k]];
      forall i | 0 <= i < k ensures log[..k][..i] == log[..i] && log[..k][i] == log[i] {}
      if Replay(g, log[..k], authors).Ok? { EntryIsAcceptedIff(g, log[..k], log[k], authors); }
      else if Replay(g, log, authors).Ok? { ReplayPrefix(g, log, k, authors); }
      hide Replay, MayFollow;
    }
  }

  // ── keys handed out ───────────────────────────────────────────────────────

  /** The share is for this container, and one of the sender's addresses administers it now. */
  ghost predicate ComesFromARuler(g: Genesis, log: seq<GrantEntry>, s: KeyShare, senders: seq<Name>) {
    s.container == g.container && s.domain == g.domain && exists name :: name in senders && HasLevel(g, log, name, Admin)
  }

  /** The sharer's log, as far as the share tells, is a beginning of this one. */
  predicate OnThisLog(g: Genesis, log: seq<GrantEntry>, s: KeyShare) {
    s.version <= |log| && s.head == HeadOf(g, log[..s.version])
  }

  /** Of several addresses those that administer decide, all alike. */
  lemma {:induction false} RulersDecide(a: Access, s: KeyShare, senders: seq<Name>, last: Error)
    requires a.WellFormed() && s.container == a.container && s.domain == a.domain
    ensures forall name :: name in senders && a.CanAdmin(name) ==> AcceptShareAfter(a, s, senders, last) == AcceptShareFrom(a, s, name)
    ensures (forall name :: name in senders ==> !a.CanAdmin(name)) ==> AcceptShareAfter(a, s, senders, last) == Err(last)
    decreases |senders|
  {
    if senders != [] {
      var r := AcceptShareFrom(a, s, senders[0]);
      assert forall name :: name in senders <==> name == senders[0] || name in senders[1..];
      RulersDecide(a, s, senders[1..], if r.Err? && r.error != Forbidden then r.error else last);
    }
  }

  lemma {:induction false} OthersAreRefused(a: Access, s: KeyShare, senders: seq<Name>, last: Error)
    requires a.WellFormed() && (s.container != a.container || s.domain != a.domain)
    ensures AcceptShareAfter(a, s, senders, last) == Err(if senders == [] then last else ContextMismatch)
    decreases |senders|
  {
    if senders != [] { OthersAreRefused(a, s, senders[1..], ContextMismatch); }
  }

  /**
   What becomes of a share, told from the log: it is accepted, under its own epoch and with its own key, exactly if it comes
   from somebody who administers now, on a beginning of this log, with a key of an epoch there has been; and it is left for
   later exactly if only the log is not known to lead there.
   */
  lemma ShareIsJudged(g: Genesis, log: seq<GrantEntry>, authors: Authors, s: KeyShare, senders: seq<Name>)
    requires Replay(g, log, authors).Ok?
    ensures var r := AcceptShare(Replay(g, log, authors).value, s, senders);
      && (r.Ok? <==> ComesFromARuler(g, log, s, senders) && OnThisLog(g, log, s) && 1 <= s.keyEpoch <= EpochIn(log) && s.key.Some?)
      && (r.Ok? ==> r.value == (s.keyEpoch, s.key.value))
      && (r == Err(Expired) || r == Err(BrokenChain) <==> ComesFromARuler(g, log, s, senders) && !OnThisLog(g, log, s))
  {
    var a := Replay(g, log, authors).value;
    FoldSaysLevels(g, log, authors);
    forall name ensures a.CanAdmin(name) <==> HasLevel(g, log, name, Admin) { LevelIsWhatTheLogSays(g, log, authors, name, Admin); }
    if s.version <= |log| {
      HashesOfPrefix(g, log, s.version, authors);
      ReplayShape(g, log[..s.version], authors);
      HeadTellsLength(Replay(g, log[..s.version], authors).value, g, log[..s.version]);
    }
    hide Replay, HasLevel, EpochIn, Stands, Spells, AcceptShareAfter;
    if s.container == a.container && s.domain == a.domain {
      RulersDecide(a, s, senders, Forbidden);
    } else {
      OthersAreRefused(a, s, senders, Forbidden);
    }
  }

  /** The round trip: a key handed out on any beginning of our log, by who administers now, arrives as it was sent. */
  lemma SharedKeyArrives(g: Genesis, log: seq<GrantEntry>, n: nat, authors: Authors, epoch: u64, key: nat, senders: seq<Name>)
    requires Replay(g, log, authors).Ok? && n <= |log|
    ensures Replay(g, log[..n], authors).Ok?
    ensures var share := ShareOf(Replay(g, log[..n], authors).value, epoch, key);
      && (share.Ok? <==> 1 <= epoch <= EpochIn(log[..n]))
      && (share.Ok? && (exists name :: name in senders && HasLevel(g, log, name, Admin)) ==>
            AcceptShare(Replay(g, log, authors).value, share.value, senders) == Ok((epoch, key)))
  {
    ReplayPrefix(g, log, n, authors);
    FoldSaysLevels(g, log[..n], authors);
    ReplayShape(g, log[..n], authors);
    HeadTellsLength(Replay(g, log[..n], authors).value, g, log[..n]);
    EpochOnlyRises(log, n);
    var share := ShareOf(Replay(g, log[..n], authors).value, epoch, key);
    if share.Ok? { ShareIsJudged(g, log, authors, share.value, senders); }
    hide Replay, HasLevel, EpochIn, Stands, Spells, AcceptShare;
  }
}
