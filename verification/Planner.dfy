/**
 The planner of a client: one container shared by the devices of one person. It takes in its journal
 without stopping for unknown authors and its grants without stopping at all, its attaching trusts the
 server, and it edits locally.
 */
module Planner {
  import opened Prelude
  import opened Lww
  import opened Guard
  import opened Access
  import opened Journal
  import opened Convergence
  import opened Ingestion
  import opened GrantLog
  import opened Rights
  import opened Cloud
  import opened CloudClient

  const PLANNER_DOMAIN: nat := 1
  const MAX_EARLY: nat := 16

  /** A key of one's own export, with the domain and container it is for. */
  datatype OwnKey = OwnKey(domain: nat, id: ContainerId, epoch: u64, key: EpochKey)

  predicate IsFor(a: Access, k: OwnKey) {
    k.domain == a.domain && k.id == a.container
  }

  /** The ring after one's own exported keys. */
  function RingWithOwn(keys: map<u64, EpochKey>, a: Access, q: seq<OwnKey>): map<u64, EpochKey> {
    if q == [] then keys
    else
      var k, ring := q[|q| - 1], RingWithOwn(keys, a, q[..|q| - 1]);
      if IsFor(a, k) && 1 <= k.epoch <= a.epoch then ring[k.epoch := k.key] else ring
  }

  /** Exported keys of this container whose epoch is not known yet wait on; those of other containers are dropped. */
  function OwnStillWaiting(a: Access, q: seq<OwnKey>): seq<OwnKey> {
    if q == [] then []
    else
      var k := q[|q| - 1];
      OwnStillWaiting(a, q[..|q| - 1]) + if IsFor(a, k) && !(1 <= k.epoch <= a.epoch) then [k] else []
  }

  function RingWithSent(keys: map<u64, EpochKey>, a: Access, q: seq<KeyShare>, mine: seq<Name>): map<u64, EpochKey>
    requires a.WellFormed()
  {
    if q == [] then keys
    else
      var ring, r := RingWithSent(keys, a, q[..|q| - 1], mine), AcceptShare(a, q[|q| - 1], mine);
      if r.Ok? then ring[r.value.0 := r.value.1] else ring
  }

  function SentStillWaiting(a: Access, q: seq<KeyShare>, mine: seq<Name>): seq<KeyShare>
    requires a.WellFormed()
  {
    if q == [] then []
    else SentStillWaiting(a, q[..|q| - 1], mine) + if Unjudged(AcceptShare(a, q[|q| - 1], mine)) then [q[|q| - 1]] else []
  }

  /** The planner once the keys that waited were gone through. */
  function WithWaitingKeys(c: Local, own: seq<OwnKey>, sent: seq<KeyShare>, mine: seq<Name>, authors: Authors): Local
    requires c.access.WellFormed()
  {
    Retry(c.(keys := RingWithSent(RingWithOwn(c.keys, c.access, own), c.access, sent, mine)), authors)
  }

  /** One's own keys that wait on, told directly: those for this container of an epoch it has not come to. */
  lemma {:induction false} OwnWaitsIff(a: Access, q: seq<OwnKey>, k: OwnKey)
    ensures k in OwnStillWaiting(a, q) <==> k in q && k.domain == a.domain && k.id == a.container && !(1 <= k.epoch <= a.epoch)
  {
    if q != [] {
      OwnWaitsIff(a, q[..|q| - 1], k);
      assert q == q[..|q| - 1] + [q[|q| - 1]];
    }
  }

  /** And of the shares: those from somebody who administers, on a log that ours has not come to. */
  lemma {:induction false} SentWaitsIff(c: Local, q: seq<KeyShare>, mine: seq<Name>, authors: Authors, s: KeyShare)
    requires Faithful(c, authors) && c.access.WellFormed()
    ensures s in SentStillWaiting(c.access, q, mine) <==>
      s in q && ComesFromARuler(c.genesis, c.grants, s, mine) && !OnThisLog(c.genesis, c.grants, s)
  {
    ShareIsJudged(c.genesis, c.grants, authors, s, mine);
    hide Faithful, AcceptShare, ComesFromARuler, OnThisLog;
    if q != [] {
      SentWaitsIff(c, q[..|q| - 1], mine, authors, s);
      assert q == q[..|q| - 1] + [q[|q| - 1]];
    }
  }

  /** A slot of the ring holds the last of one's own keys for it, or what it held if there is none. */
  lemma {:induction false} RingHoldsOwn(keys: map<u64, EpochKey>, a: Access, q: seq<OwnKey>, epoch: u64)
    ensures var ring := RingWithOwn(keys, a, q);
      if 1 <= epoch <= a.epoch && exists i :: 0 <= i < |q| && IsFor(a, q[i]) && q[i].epoch == epoch then
        exists i :: 0 <= i < |q| && IsFor(a, q[i]) && q[i].epoch == epoch
          && (forall l :: i < l < |q| ==> !(IsFor(a, q[l]) && q[l].epoch == epoch)) && epoch in ring && ring[epoch] == q[i].key
      else (epoch in ring <==> epoch in keys) && (epoch in keys ==> ring[epoch] == keys[epoch])
  {
    if q != [] {
      var k := |q| - 1;
      RingHoldsOwn(keys, a, q[..k], epoch);
      hide IsFor;
      if !(IsFor(a, q[k]) && q[k].epoch == epoch) {
        assert forall i :: 0 <= i < k ==> q[..k][i] == q[i];
        if i :| 0 <= i < |q| && IsFor(a, q[i]) && q[i].epoch == epoch { assert q[..k][i].epoch == epoch; }
      }
    }
  }

  /** And of the shared ones the last that is accepted, under the epoch and with the key it was sent with. */
  lemma {:induction false} RingHoldsSent(keys: map<u64, EpochKey>, a: Access, q: seq<KeyShare>, mine: seq<Name>, epoch: u64)
    requires a.WellFormed()
    ensures var ring := RingWithSent(keys, a, q, mine);
      if exists i :: 0 <= i < |q| && BringsKey(a, q[i], mine, epoch) then
        exists i :: 0 <= i < |q| && BringsKey(a, q[i], mine, epoch) && (forall l :: i < l < |q| ==> !BringsKey(a, q[l], mine, epoch))
          && q[i].key.Some? && epoch in ring && ring[epoch] == q[i].key.value
      else (epoch in ring <==> epoch in keys) && (epoch in keys ==> ring[epoch] == keys[epoch])
  {
    if q != [] {
      var k := |q| - 1;
      RingHoldsSent(keys, a, q[..k], mine, epoch);
      hide AcceptShare;
      assert BringsKey(a, q[k], mine, epoch) ==> q[k].key.Some? && RingWithSent(keys, a, q, mine)[epoch] == q[k].key.value;
      var before, ring, r := RingWithSent(keys, a, q[..k], mine), RingWithSent(keys, a, q, mine), AcceptShare(a, q[k], mine);
      assert ring == if r.Ok? then before[r.value.0 := r.value.1] else before;
      assert !BringsKey(a, q[k], mine, epoch) ==> (epoch in ring <==> epoch in before) && (epoch in before ==> ring[epoch] == before[epoch]);
      hide RingWithSent, BringsKey;
      if !BringsKey(a, q[k], mine, epoch) {
        assert forall i :: 0 <= i < k ==> q[..k][i] == q[i];
        if i :| 0 <= i < |q| && BringsKey(a, q[i], mine, epoch) { assert BringsKey(a, q[..k][i], mine, epoch); }
      }
    }
  }

  predicate BringsKey(a: Access, s: KeyShare, mine: seq<Name>, epoch: u64)
    requires a.WellFormed()
  {
    s.keyEpoch == epoch && AcceptShare(a, s, mine).Ok?
  }

  lemma PlannerRingGrows(keys: map<u64, EpochKey>, a: Access, own: seq<OwnKey>, sent: seq<KeyShare>, mine: seq<Name>)
    requires a.WellFormed()
    ensures keys.Keys <= RingWithSent(RingWithOwn(keys, a, own), a, sent, mine).Keys
  {
    forall epoch | epoch in keys ensures epoch in RingWithSent(RingWithOwn(keys, a, own), a, sent, mine) {
      RingHoldsOwn(keys, a, own, epoch);
      RingHoldsSent(RingWithOwn(keys, a, own), a, sent, mine, epoch);
    }
  }

  lemma {:induction false} PlannerRingsFit(c: Local, own: seq<OwnKey>, sent: seq<KeyShare>, mine: seq<Name>)
    requires c.access.WellFormed()
    ensures KeysFit(c.(keys := RingWithSent(RingWithOwn(c.keys, c.access, own), c.access, sent, mine))) <==> KeysFit(c)
    decreases |own| + |sent|
  {
    if sent != [] {
      var k := |sent| - 1;
      PlannerRingsFit(c, own, sent[..k], mine);
      var r := AcceptShare(c.access, sent[k], mine);
      if r.Ok? { OneMoreFits(c, RingWithSent(RingWithOwn(c.keys, c.access, own), c.access, sent[..k], mine), r.value.0, r.value.1); }
      hide AcceptShare, RingWithOwn, KeysFit;
    } else if own != [] {
      var k := |own| - 1;
      PlannerRingsFit(c, own[..k], [], mine);
      if 1 <= own[k].epoch <= c.access.epoch { OneMoreFits(c, RingWithOwn(c.keys, c.access, own[..k]), own[k].epoch, own[k].key); }
      hide KeysFit;
    }
  }

  lemma OpenedKeepsFaith(c: Local, own: seq<OwnKey>, sent: seq<KeyShare>, mine: seq<Name>, authors: Authors)
    requires Faithful(c, authors)
    ensures var d := WithWaitingKeys(c, own, sent, mine, authors);
      && Faithful(d, authors) && d.access == c.access && (KeysFit(d) <==> KeysFit(c)) && GoneThrough(c, d, authors)
  {
    var ring := RingWithSent(RingWithOwn(c.keys, c.access, own), c.access, sent, mine);
    PlannerRingsFit(c, own, sent, mine);
    PlannerRingGrows(c.keys, c.access, own, sent, mine);
    hide RingWithSent, RingWithOwn, Stamped, Replay, RetryOver, OnlyRightfulWrites, KeysFit;
    RetryLeavesOnlyKeyless(c.(keys := ring), authors);
    RetryWritesRightfully(c.(keys := ring, pending := []), c.pending, authors);
    SameLogSameWrites(c.(keys := ring, pending := []), c.(keys := ring), WithWaitingKeys(c, own, sent, mine, authors), authors, c.pending);
  }

  /** As in the cloud: the check before attaching that decides whether the next restart brings every key back. */
  lemma AttachedPlannerComesBackIff(
    existing: Option<Local>, g: Genesis, entries: seq<GrantEntry>, own: seq<OwnKey>, sent: seq<KeyShare>, mine: seq<Name>,
    authors: Authors, more: Authors)
    requires Replay(g, entries, authors).Ok? && (existing.Some? ==> Stamped(existing.value.state)) && KnowsMore(authors, more)
    ensures var access := Replay(g, entries, authors).value;
      access.WellFormed()
      && var d := WithWaitingKeys(AttachedOver(existing, g, entries, access), own, sent, mine, authors);
        RestoredFrom(PersistedOf(d), d.guard, more) == Ok(d.(lastOpEpoch := 0))
        <==> (existing.Some? ==> forall e :: e in existing.value.keys ==> 1 <= e <= access.epoch)
  {
    var access := Replay(g, entries, authors).value;
    ReplayShape(g, entries, authors);
    var mid := AttachedOver(existing, g, entries, access);
    AttachedIsFaithful(existing, g, entries, authors);
    OpenedKeepsFaith(mid, own, sent, mine, authors);
    RestoreUndoesPersistIffKeysFit(WithWaitingKeys(mid, own, sent, mine, authors), authors, more);
    hide RestoredFrom, PersistedOf, WithWaitingKeys, Faithful, KeysFit, Replay;
  }

  /**
   Attaching takes whatever log the server answers with, even a shorter one: our own rotation that is still on its
   way is forgotten, and its key does not survive a restart. The cloud keeps its own log in that case.
   */
  lemma ShorterAnswerLosesAKey()
    ensures Replay(FORKED, [OURS], ANN).Ok? && Replay(FORKED, [], ANN).Ok?
    ensures var c := Local(FORKED, [OURS], Replay(FORKED, [OURS], ANN).value, map[1 := 10, 2 := 20], 0, map[], 0, 0, [], 0);
      var d := AttachedOver(Some(c), FORKED, [], Replay(FORKED, [], ANN).value);
      && Faithful(c, ANN) && KeysFit(c) && KeepsOwn(map[7 := c], FORKED, [])
      && 2 in d.keys && RestoredFrom(PersistedOf(d), d.guard, ANN).Ok?
      && 2 !in RestoredFrom(PersistedOf(d), d.guard, ANN).value.keys
  {
    ForkReplays();
    hide Replay, KeysUpTo;
    RingOfSaved(map[1 := 10, 2 := 20], 1);
  }

  class Client {
    var authors: Authors
    var planner: Option<Local>
    var sent: seq<KeyShare>
    var own: seq<OwnKey>

    ghost predicate Valid()
      reads this
    {
      planner.Some? ==> Faithful(planner.value, authors)
    }

    ghost predicate Tidy()
      reads this
    {
      planner.Some? ==> KeysFit(planner.value)
    }

    constructor (authors: Authors)
      ensures Valid() && Tidy() && this.authors == authors && planner == None && sent == [] && own == []
    {
      this.authors, planner, sent, own := authors, None, [], [];
    }

    method LearnAuthors(more: Authors)
      requires Valid() && KnowsMore(authors, more)
      modifies this`authors
      ensures Valid() && authors == more
    {
      if planner.Some? { FaithfulForMore(planner.value, authors, more); }
      authors := more;
    }

    method Create(g: Genesis, key: EpochKey) returns (r: Result<(), Error>)
      requires Valid()
      modifies this`planner
      ensures Valid() && (old(Tidy()) ==> Tidy())
      ensures r.Ok? <==> old(planner).None? && FromGenesis(g, authors).Ok?
      ensures r.Err? ==> planner == old(planner)
      ensures r.Ok? ==> planner == Some(Local(g, [], FromGenesis(g, authors).value, map[1 := key], 0, map[], 0, 0, [], 0))
    {
      if planner.Some? { return Err(Duplicate); }
      var access := FromGenesis(g, authors);
      if access.Err? { return Err(access.error); }
      planner := Some(Local(g, [], access.value, map[1 := key], 0, map[], 0, 0, [], 0));
      return Ok(());
    }

    method IngestSync(ops: seq<ContainerOp>, more: bool) returns (r: Result<Report, Error>)
      requires Valid()
      modifies this`planner
      ensures Valid() && (old(Tidy()) ==> Tidy())
      ensures old(planner).None? ==> r == Err(NotFound) && planner == None
      ensures old(planner).Some? ==>
        var i := Ingest(old(planner).value, ops, authors, false, NewReport(old(planner).value, more));
        planner == Some(i.c) && r == Ok(i.report) && OnlyRightfulWrites(old(planner).value, planner.value, authors, ops)
    {
      if planner.None? { return Err(NotFound); }
      PageWritesRightfully(planner.value, ops, authors, false, NewReport(planner.value, more));
      hide OnlyRightfulWrites, Ingest;
      PageKeepsFaith(planner.value, ops, authors, false, NewReport(planner.value, more));
      var c, report := TakePage(planner.value, ops, more, authors, false);
      planner := Some(c);
      return Ok(report);
    }

    method IngestSnapshot(s: Snapshot) returns (r: Result<u64, Error>)
      requires Valid()
      modifies this`planner
      ensures Valid() && (old(Tidy()) ==> Tidy())
      ensures old(planner).None? ==> r == Err(NotFound) && planner == None
      ensures old(planner).Some? ==>
        var m := PlannerMerge(old(planner).value, s, authors);
        planner == Some(m.c) && r == m.result
    {
      if planner.None? { return Err(NotFound); }
      hide CheckSnapshot, MaxLamport;
      var m := PlannerMerge(planner.value, s, authors);
      PlannerMergeKeepsFaith(planner.value, s, authors);
      planner := Some(m.c);
      return m.result;
    }

    /** A local edit: a fresh stamp, merged at once; the clock moves on even if the edit is refused. */
    method PrepareLocal(body: seq<Change>, device: Bytes) returns (r: Result<u64, Error>)
      requires Valid()
      modifies this`planner
      ensures Valid() && (old(Tidy()) ==> Tidy())
      ensures old(planner).None? ==> r == Err(NotFound) && planner == None
      ensures old(planner).Some? ==>
        var m := Edit(old(planner).value, body, device);
        planner == Some(m.c) && r == m.result
    {
      if planner.None? { return Err(NotFound); }
      var c := planner.value.(guard := Tick(planner.value.guard));
      var stamped := StampBody(body, Stamp(c.guard, device));
      if !Readable(stamped) {
        planner := Some(c);
        return Err(InvalidField);
      }
      ReadableStamps(stamped);
      PutAllStamped(c.state, ValidEntries(stamped));
      var s, n := MergeChanges(c.state, stamped);
      planner := Some(c.(state := s));
      return Ok(c.headSeq);
    }

    /** Catch up with the grant log: whatever does not apply is passed over. */
    method IngestGrants(entries: seq<GrantEntry>, mine: seq<Name>) returns (r: Result<nat, Error>)
      requires Valid()
      modifies this`planner, this`sent, this`own
      ensures Valid() && (old(Tidy()) ==> Tidy())
      ensures old(planner).None? ==> r == Err(NotFound) && planner == None && sent == old(sent) && own == old(own)
      ensures old(planner).Some? ==>
        var c := old(planner).value;
        var l := TakeGrants(c.access, c.grants, entries, authors, false);
        r == Ok(l.access.version) && TookKeys(c.(access := l.access, grants := l.grants), old(own), old(sent), mine)
    {
      if planner.None? { return Err(NotFound); }
      var c := planner.value;
      TakenGrantsReplay(c.genesis, c.access, c.grants, entries, authors, false);
      var l := IngestEntries(c.access, c.grants, entries, authors, false);
      hide TakeGrants, Stamped, Replay;
      planner := Some(c.(access := l.access, grants := l.grants));
      AbsorbPendingKeys(mine);
      return Ok(l.access.version);
    }

    ghost predicate TookKeys(c: Local, own0: seq<OwnKey>, sent0: seq<KeyShare>, mine: seq<Name>)
      reads this
    {
      && c.access.WellFormed()
      && planner == Some(WithWaitingKeys(c, own0, sent0, mine, authors))
      && own == OwnStillWaiting(c.access, own0) && sent == SentStillWaiting(c.access, sent0, mine)
    }

    method AbsorbPendingKeys(mine: seq<Name>)
      requires Valid()
      modifies this`planner, this`sent, this`own
      ensures Valid() && (Tidy() <==> old(Tidy()))
      ensures old(planner).None? ==> planner == None && sent == old(sent) && own == old(own)
      ensures old(planner).Some? ==> TookKeys(old(planner).value, old(own), old(sent), mine)
    {
      if planner.None? { return; }
      var c := planner.value;
      OpenedKeepsFaith(c, own, sent, mine, authors);
      var ring, ownLeft := TakeOwn(c.keys, c.access, own);
      var sentLeft;
      ring, sentLeft := TakeSent(ring, c.access, sent, mine);
      own, sent := ownLeft, sentLeft;
      c := RetryWaiting(c.(keys := ring), authors);
      hide Retry, RingWithOwn, RingWithSent, Stamped, Replay;
      planner := Some(c);
    }

    static method TakeOwn(keys: map<u64, EpochKey>, a: Access, q: seq<OwnKey>) returns (ring: map<u64, EpochKey>, left: seq<OwnKey>)
      ensures ring == RingWithOwn(keys, a, q) && left == OwnStillWaiting(a, q)
    {
      ring, left := keys, [];
      for i := 0 to |q|
        invariant ring == RingWithOwn(keys, a, q[..i]) && left == OwnStillWaiting(a, q[..i])
      {
        assert q[..i + 1][..i] == q[..i];
        if IsFor(a, q[i]) && 1 <= q[i].epoch <= a.epoch {
          ring := ring[q[i].epoch := q[i].key];
        } else if IsFor(a, q[i]) {
          left := left + [q[i]];
        }
      }
      assert q[..|q|] == q;
    }

    static method TakeSent(keys: map<u64, EpochKey>, a: Access, q: seq<KeyShare>, mine: seq<Name>)
      returns (ring: map<u64, EpochKey>, left: seq<KeyShare>)
      requires a.WellFormed()
      ensures ring == RingWithSent(keys, a, q, mine) && left == SentStillWaiting(a, q, mine)
    {
      ring, left := keys, [];
      for i := 0 to |q|
        invariant ring == RingWithSent(keys, a, q[..i], mine) && left == SentStillWaiting(a, q[..i], mine)
      {
        assert q[..i + 1][..i] == q[..i];
        hide AcceptShare;
        var r := AcceptShare(a, q[i], mine);
        if r.Ok? {
          ring := ring[r.value.0 := r.value.1];
        } else if Unjudged(r) {
          left := left + [q[i]];
        }
      }
      assert q[..|q|] == q;
    }

    /** Attach: access and log become the server's, whichever of the two logs is longer. */
    method Attach(g: Genesis, entries: seq<GrantEntry>, mine: seq<Name>) returns (r: Result<(), Error>)
      requires Valid()
      modifies this`planner, this`sent, this`own
      ensures Valid()
      ensures r.Ok? <==> Replay(g, entries, authors).Ok? && g.domain == PLANNER_DOMAIN && g.owner in mine
                         && (old(planner).Some? ==> old(planner).value.access.container == g.container)
      ensures r.Err? ==> planner == old(planner) && sent == old(sent) && own == old(own)
      ensures r.Ok? ==>
        && TookKeys(AttachedOver(old(planner), g, entries, Replay(g, entries, authors).value), old(own), old(sent), mine)
        && CarriedOver(if old(planner).Some? then old(planner).value else NothingHere(g), planner.value, g, entries, authors)
        && (Tidy() <==> forall e :: old(planner).Some? && e in old(planner).value.keys ==> 1 <= e <= planner.value.access.epoch)
    {
      var access := Replay(g, entries, authors);
      if access.Err? { return Err(access.error); }
      ReplayShape(g, entries, authors);
      if access.value.domain != PLANNER_DOMAIN || access.value.owner !in mine { return Err(ContextMismatch); }
      if planner.Some? && planner.value.access.container != access.value.container { return Err(ContextMismatch); }
      AttachedIsFaithful(planner, g, entries, authors);
      hide Stamped, Replay, WithWaitingKeys, GoneThrough, CarriedOver;
      ghost var c, was := AttachedOver(planner, g, entries, access.value), planner;
      OpenedKeepsFaith(c, own, sent, mine, authors);
      planner := Some(AttachedOver(planner, g, entries, access.value));
      AbsorbPendingKeys(mine);
      AttachingCarriesOver(was, planner.value, g, entries, authors);
      return Ok(());
    }

    /** A key share from one of one's own devices; the queue is limited only before the planner is attached. */
    method AcceptKey(share: KeyShare, ownSender: bool, mine: seq<Name>) returns (changed: bool)
      requires Valid()
      modifies this`planner, this`sent
      ensures Valid() && (old(Tidy()) ==> Tidy())
      ensures !ownSender || share.domain != PLANNER_DOMAIN ==> !changed && planner == old(planner) && sent == old(sent)
      ensures ownSender && share.domain == PLANNER_DOMAIN && old(planner).None? ==>
                planner == None && changed && sent == if |old(sent)| < MAX_EARLY then old(sent) + [share] else old(sent)
      ensures ownSender && share.domain == PLANNER_DOMAIN && old(planner).Some? ==>
        var c := old(planner).value;
        var r := AcceptShare(c.access, share, mine);
        && changed == (r.Ok? || Unjudged(r))
        && sent == (if Unjudged(r) then old(sent) + [share] else old(sent))
        && (r.Ok? ==> share.key.Some?)
        && planner == Some(if r.Ok? then Retry(c.(keys := c.keys[share.keyEpoch := share.key.value]), authors) else c)
    {
      if !ownSender || share.domain != PLANNER_DOMAIN { return false; }
      if planner.Some? {
        hide Stamped, Replay, AcceptShare, Retry;
        var r := AcceptShare(planner.value.access, share, mine);
        if r.Ok? {
          var c := planner.value.(keys := planner.value.keys[r.value.0 := r.value.1]);
          RetryLeavesOnlyKeyless(c, authors);
          c := RetryWaiting(c, authors);
          planner := Some(c);
          return true;
        }
        if Unjudged(r) { sent := sent + [share]; }
        return Unjudged(r);
      }
      if |sent| < MAX_EARLY { sent := sent + [share]; }
      return true;
    }

    /** A device of ours was revoked: a new epoch under a new key, unless we lack the present one. */
    method RotateOnRevoke(signer: Signer, key: EpochKey) returns (r: Result<seq<GrantEntry>, Error>)
      requires Valid()
      modifies this`planner
      ensures Valid() && (old(Tidy()) ==> Tidy())
      ensures r.Err? <==> old(planner).Some? && var c := old(planner).value;
        c.access.epoch in c.keys && (c.access.epoch == U64_MAX || !Signs(c.access, signer, authors))
      ensures r.Err? || r == Ok([]) ==> planner == old(planner)
      ensures r.Ok? ==> (r.value == [] <==> old(planner).None? || old(planner).value.access.epoch !in old(planner).value.keys)
      ensures r.Ok? && r.value != [] ==>
        && planner.Some? && Extended(old(planner).value, planner.value, r.value, authors)
        && EpochChanged(old(planner).value, planner.value, key)
        && forall n :: planner.value.access.LevelOf(n) == old(planner).value.access.LevelOf(n)
    {
      if planner.None? { return Ok([]); }
      var c := planner.value;
      if c.access.epoch !in c.keys { return Ok([]); }
      if c.access.epoch == U64_MAX { return Err(InvalidField); }
      var e := SignEntry(c.access, Kind.Rotate, None, Unspecified, c.access.epoch + 1, Some(c.headSeq), signer);
      var applied := Apply(c.access, e, authors);
      if applied.Err? { return Err(applied.error); }
      var d := c.(access := applied.value, grants := c.grants + [e]);
      d := d.(keys := d.keys[d.access.epoch := key]);
      ExtendedOnce(c, d, e, authors);
      ExtendedIsFaithful(c, d, [e], authors);
      hide Stamped, Replay;
      planner := Some(d);
      return Ok([e]);
    }

    /** A snapshot, when one is due and no operation waits for its key. */
    method RequestSnapshot(signer: Signer, fits: bool) returns (r: Result<Option<Snapshot>, Error>)
      requires Valid()
      modifies this`planner
      ensures Valid() && (old(Tidy()) ==> Tidy())
      ensures r.Ok? && r.value.Some? ==>
        && old(planner).Some? && old(planner).value.access.epoch in old(planner).value.keys
        && SatAdd(old(planner).value.snapshotSeq, SNAPSHOT_EVERY) <= old(planner).value.headSeq && old(planner).value.pending == []
        && r.value.value == SnapshotOf(old(planner).value, signer)
        && r.value.value.cells == old(planner).value.state && r.value.value.uptoSeq == old(planner).value.headSeq
        && planner == Some(old(planner).value.(snapshotSeq := old(planner).value.headSeq))
      ensures !(r.Ok? && r.value.Some?) ==> planner == old(planner)
      ensures old(planner).Some? ==>
        var c := old(planner).value;
        var due := SatAdd(c.snapshotSeq, SNAPSHOT_EVERY) <= c.headSeq && c.pending == [];
        (r == Ok(None) <==> !due) && (r.Err? <==> due && (c.access.epoch !in c.keys || !fits))
      ensures old(planner).None? ==> r.Err?
    {
      if planner.None? { return Err(NotFound); }
      var c := planner.value;
      if !SnapshotDue(c) { return Ok(None); }
      if c.access.epoch !in c.keys { return Err(Crypto); }
      if !fits { return Err(InvalidField); }
      planner := Some(c.(snapshotSeq := c.headSeq));
      return Ok(Some(SnapshotOf(c, signer)));
    }

    /** Save and start anew: the planner is back as it was, its epoch floor forgotten. */
    method Restart(more: Authors) returns (r: Result<(), Error>)
      requires Valid() && Tidy() && KnowsMore(authors, more)
      requires planner.Some? ==> planner.value.guard <= LAST_RESTORABLE
      modifies this
      ensures Valid() && Tidy() && authors == more && sent == old(sent) && own == old(own)
      ensures r == Ok(()) && planner == if old(planner).Some? then Some(Rested(old(planner).value)) else None
    {
      if planner.Some? {
        var p := Persist(planner.value);
        var c := RestorePlanner(p, more);
        RestoreUndoesPersistIffKeysFit(planner.value, authors, more);
        FaithfulForMore(planner.value, authors, more);
        planner := Some(c.value);
      }
      authors := more;
      return Ok(());
    }
  }

  lemma PlannerMergeKeepsFaith(c: Local, s: Snapshot, authors: Authors)
    requires Faithful(c, authors)
    ensures var m := PlannerMerge(c, s, authors);
      Faithful(m.c, authors) && m.c.access == c.access && m.c.keys == c.keys
  {
    hide MaxLamport;
  }
}
