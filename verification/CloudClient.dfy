/**
 A client with its containers: creating, attaching and forgetting them, catching up with grants, giving and
 taking access, the queue of key shares that came too early, saving and restoring. The state of each container
 is kept equal to the replay of its stored grant log.
 */
module CloudClient {
  import opened Prelude
  import opened Lww
  import opened Guard
  import opened Access
  import opened Journal
  import opened Convergence
  import opened Ingestion
  import opened GrantLog
  import opened Rights
  import opened Cloud

  // ── catching up with the grant log ────────────────────────────────────────

  datatype Log = Log(access: Access, grants: seq<GrantEntry>, failed: Option<Error>)

  /**
   Entries that do not link to our head are skipped. Any other refusal stops a container of the cloud, keeping
   what was accepted; the planner (`stop` false) skips those too.
   */
  function TakeGrants(a: Access, grants: seq<GrantEntry>, entries: seq<GrantEntry>, authors: Authors, stop: bool): Log
    requires a.WellFormed()
    decreases |entries|
  {
    if entries == [] then Log(a, grants, None)
    else
      var r := Apply(a, entries[0], authors);
      if r.Ok? then TakeGrants(r.value, grants + [entries[0]], entries[1..], authors, stop)
      else if r.error == BrokenChain || !stop then TakeGrants(a, grants, entries[1..], authors, stop)
      else Log(a, grants, Some(r.error))
  }

  method IngestEntries(a0: Access, grants0: seq<GrantEntry>, entries: seq<GrantEntry>, authors: Authors, stop: bool) returns (l: Log)
    requires a0.WellFormed()
    ensures l == TakeGrants(a0, grants0, entries, authors, stop)
  {
    var a, grants := a0, grants0;
    for i := 0 to |entries|
      invariant a.WellFormed() && TakeGrants(a, grants, entries[i..], authors, stop) == TakeGrants(a0, grants0, entries, authors, stop)
    {
      var r := Apply(a, entries[i], authors);
      assert entries[i..][0] == entries[i] && entries[i..][1..] == entries[i + 1..];
      hide Apply;
      match r {
        case Ok(b) => a, grants := b, grants + [entries[i]];
        case Err(e) => if e != BrokenChain && stop { return Log(a, grants, Some(e)); }
      }
    }
    return Log(a, grants, None);
  }

  /** Whatever a server sends, the log grows by entries that replay on it. */
  lemma {:induction false} TakenGrantsReplay(
    g: Genesis, a: Access, grants: seq<GrantEntry>, entries: seq<GrantEntry>, authors: Authors, stop: bool)
    requires Replay(g, grants, authors) == Ok(a)
    ensures var l := TakeGrants(a, grants, entries, authors, stop);
      && Replay(g, l.grants, authors) == Ok(l.access) && a.epoch <= l.access.epoch && grants <= l.grants
    decreases |entries|
  {
    if entries != [] {
      var r := Apply(a, entries[0], authors);
      if r.Ok? {
        ReplayOneMore(g, grants, entries[0], authors);
        ReplayShape(g, grants, authors);
        ApplySpells(a, g, grants, entries[0], authors);
        hide Apply, Replay, Spells;
        TakenGrantsReplay(g, r.value, grants + [entries[0]], entries[1..], authors, stop);
      } else {
        TakenGrantsReplay(g, a, grants, entries[1..], authors, stop);
      }
    }
  }

  /** An entry already in the log is skipped as not linking to its head. */
  lemma OldEntryIsSkipped(g: Genesis, es: seq<GrantEntry>, k: nat, n: nat, authors: Authors)
    requires Replay(g, es, authors).Ok? && k < n <= |es|
    ensures Replay(g, es[..n], authors).Ok?
    ensures Apply(Replay(g, es[..n], authors).value, es[k], authors) == Err(BrokenChain)
  {
    ReplayPrefix(g, es, n, authors);
    ReplayPrefix(g, es, k, authors);
    ReplayPrefix(g, es, k + 1, authors);
    ReplayOneMore(g, es[..k], es[k], authors);
    assert es[..k] + [es[k]] == es[..k + 1];
    ReplayShape(g, es[..k], authors);
    ReplayShape(g, es[..n], authors);
  }

  lemma TakeFirst(a: Access, grants: seq<GrantEntry>, es: seq<GrantEntry>, k: nat, authors: Authors, stop: bool)
    requires a.WellFormed() && k < |es|
    ensures var r := Apply(a, es[k], authors);
      && (r.Ok? ==> TakeGrants(a, grants, es[k..], authors, stop) == TakeGrants(r.value, grants + [es[k]], es[k + 1..], authors, stop))
      && (r == Err(BrokenChain) ==> TakeGrants(a, grants, es[k..], authors, stop) == TakeGrants(a, grants, es[k + 1..], authors, stop))
  {
    assert es[k..][0] == es[k] && es[k..][1..] == es[k + 1..];
    hide Apply;
  }

  /** The entry after those we have links to them. */
  lemma NextEntryApplies(g: Genesis, es: seq<GrantEntry>, n: nat, authors: Authors)
    requires Replay(g, es, authors).Ok? && n < |es|
    ensures Replay(g, es[..n], authors).Ok? && Replay(g, es[..n + 1], authors).Ok? && es[..n] + [es[n]] == es[..n + 1]
    ensures Apply(Replay(g, es[..n], authors).value, es[n], authors) == Replay(g, es[..n + 1], authors)
  {
    ReplayPrefix(g, es, n, authors);
    ReplayPrefix(g, es, n + 1, authors);
    ReplayOneMore(g, es[..n], es[n], authors);
    assert es[..n] + [es[n]] == es[..n + 1];
    hide Apply, Replay;
  }

  /** A page that overlaps what we have and continues it brings our log to the end of the page. */
  lemma {:induction false} GrantsCatchUp(g: Genesis, es: seq<GrantEntry>, k: nat, n: nat, authors: Authors, stop: bool)
    requires Replay(g, es, authors).Ok? && k <= n <= |es|
    ensures Replay(g, es[..n], authors).Ok?
    ensures TakeGrants(Replay(g, es[..n], authors).value, es[..n], es[k..], authors, stop)
         == Log(Replay(g, es, authors).value, es, None)
    decreases |es| - k
  {
    hide Apply, Replay;
    ReplayPrefix(g, es, n, authors);
    var a := Replay(g, es[..n], authors).value;
    if k == |es| {
      assert es[..n] == es && es[k..] == [];
    } else if k < n {
      OldEntryIsSkipped(g, es, k, n, authors);
      TakeFirst(a, es[..n], es, k, authors, stop);
      hide TakeGrants;
      GrantsCatchUp(g, es, k + 1, n, authors, stop);
    } else {
      NextEntryApplies(g, es, n, authors);
      TakeFirst(a, es[..n], es, n, authors, stop);
      hide TakeGrants;
      GrantsCatchUp(g, es, k + 1, n + 1, authors, stop);
    }
  }

  /**
   Which entries are taken, told from the log: those that may follow it. One that does not link to the head is passed over,
   by the planner also any other; the cloud stops at those.
   */
  lemma GrantsAreTakenIff(
    g: Genesis, a: Access, grants: seq<GrantEntry>, e: GrantEntry, rest: seq<GrantEntry>, authors: Authors, stop: bool)
    requires Replay(g, grants, authors) == Ok(a)
    ensures MayFollow(g, grants, e, authors) ==>
      && Replay(g, grants + [e], authors).Ok?
      && TakeGrants(a, grants, [e] + rest, authors, stop)
         == TakeGrants(Replay(g, grants + [e], authors).value, grants + [e], rest, authors, stop)
    ensures var l := TakeGrants(a, grants, [e] + rest, authors, stop);
      var foreign := e.kind != Other && e.authentic && e.container == g.container && !(e.version == |grants| + 1 && e.prev == HeadOf(g, grants));
      !MayFollow(g, grants, e, authors) ==>
        if foreign || !stop then l == TakeGrants(a, grants, rest, authors, stop)
        else l.access == a && l.grants == grants && l.failed.Some?
  {
    assert ([e] + rest)[0] == e && ([e] + rest)[1..] == rest;
    EntryIsAcceptedIff(g, grants, e, authors);
    ReplayOneMore(g, grants, e, authors);
    ReplayShape(g, grants, authors);
    HeadTellsLength(a, g, grants);
    assert Apply(a, e, authors) == Err(BrokenChain) <==>
      e.kind != Other && e.authentic && e.container == g.container && !(e.version == |grants| + 1 && e.prev == HeadOf(g, grants));
    hide Replay, MayFollow, Apply, Spells, HeadOf;
  }

  // ── key shares that came too early ────────────────────────────────────────

  predicate Unjudged(r: Result<(u64, EpochKey), Error>) {
    r == Err(Expired) || r == Err(BrokenChain)
  }

  ghost predicate Sound(cloud: Containers) {
    forall id :: id in cloud ==> cloud[id].access.WellFormed()
  }

  /** The container of the share is not here, or its grant log is behind the sharer's. */
  predicate Undecided(cloud: Containers, w: Queued, names: NamesOf)
    requires Sound(cloud)
  {
    w.share.container in cloud ==> Unjudged(AcceptShare(cloud[w.share.container].access, w.share, Names(names, w.sender)))
  }

  predicate Usable(cloud: Containers, t: Trusted) {
    t.id in cloud && 1 <= t.epoch <= cloud[t.id].access.epoch
  }

  function KeepUndecided(cloud: Containers, q: seq<Queued>, names: NamesOf): seq<Queued>
    requires Sound(cloud)
  {
    if q == [] then []
    else
      var k := |q| - 1;
      KeepUndecided(cloud, q[..k], names) + if Undecided(cloud, q[k], names) then [q[k]] else []
  }

  function KeepUnusable(cloud: Containers, q: seq<Trusted>): seq<Trusted> {
    if q == [] then []
    else var k := |q| - 1; KeepUnusable(cloud, q[..k]) + if Usable(cloud, q[k]) then [] else [q[k]]
  }

  /** The ring of one container with the trusted keys of `q` that are for it. */
  function RingWithTrusted(keys: map<u64, EpochKey>, a: Access, id: ContainerId, q: seq<Trusted>): map<u64, EpochKey> {
    if q == [] then keys
    else
      var k := |q| - 1;
      var ring := RingWithTrusted(keys, a, id, q[..k]);
      if q[k].id == id && 1 <= q[k].epoch <= a.epoch then ring[q[k].epoch := q[k].key] else ring
  }

  /** The ring of one container after one shared key, if it is for it and accepted. */
  function OneShared(ring: map<u64, EpochKey>, a: Access, id: ContainerId, w: Queued, names: NamesOf): map<u64, EpochKey>
    requires a.WellFormed()
  {
    if w.share.container != id then ring
    else
      var r := AcceptShare(a, w.share, Names(names, w.sender));
      if r.Ok? then ring[r.value.0 := r.value.1] else ring
  }

  /** The same after all of `q`, in order; of two keys for one epoch the later stays. */
  function RingWithShared(keys: map<u64, EpochKey>, a: Access, id: ContainerId, q: seq<Queued>, names: NamesOf): map<u64, EpochKey>
    requires a.WellFormed()
  {
    if q == [] then keys
    else OneShared(RingWithShared(keys, a, id, q[..|q| - 1], names), a, id, q[|q| - 1], names)
  }

  lemma ShareStep(keys: map<u64, EpochKey>, a: Access, id: ContainerId, q: seq<Queued>, i: nat, names: NamesOf)
    requires a.WellFormed() && i < |q|
    ensures var ring := RingWithShared(keys, a, id, q[..i], names);
      RingWithShared(keys, a, id, q[..i + 1], names)
      == if q[i].share.container == id then OneShared(ring, a, id, q[i], names) else ring
  {
    assert q[..i + 1][..i] == q[..i];
  }

  /** The shares of `q` have been offered: nothing but the rings changed. */
  ghost predicate SharesTaken(was: Containers, cloud: Containers, q: seq<Queued>, names: NamesOf) {
    && Sound(was) && cloud.Keys == was.Keys
    && forall id :: id in was ==> Shared(was[id], cloud[id], id, q, names)
  }

  ghost predicate Shared(was: Local, c: Local, id: ContainerId, q: seq<Queued>, names: NamesOf)
    requires was.access.WellFormed()
  {
    c == was.(keys := RingWithShared(was.keys, was.access, id, q, names))
  }

  lemma OneMoreShare(was: Containers, cloud: Containers, q: seq<Queued>, i: nat, names: NamesOf)
    requires i < |q| && SharesTaken(was, cloud, q[..i], names)
    ensures var w := q[i];
      if w.share.container !in cloud then SharesTaken(was, cloud, q[..i + 1], names)
      else
        var c := cloud[w.share.container];
        c.access.WellFormed() && c.access == was[w.share.container].access
        && SharesTaken(was, cloud[w.share.container := c.(keys := OneShared(c.keys, c.access, w.share.container, w, names))], q[..i + 1], names)
  {
    hide AcceptShare;
    var at := q[i].share.container;
    forall id | id in was && id != at ensures Shared(was[id], cloud[id], id, q[..i + 1], names) {
      assert Shared(was[id], cloud[id], id, q[..i], names);
      ShareStep(was[id].keys, was[id].access, id, q, i, names);
    }
    if at in was {
      assert Shared(was[at], cloud[at], at, q[..i], names);
      ShareStep(was[at].keys, was[at].access, at, q, i, names);
    }
  }

  lemma KeepStep(cloud: Containers, q: seq<Queued>, i: nat, names: NamesOf)
    requires Sound(cloud) && i < |q|
    ensures KeepUndecided(cloud, q[..i + 1], names)
         == KeepUndecided(cloud, q[..i], names) + if Undecided(cloud, q[i], names) then [q[i]] else []
  {
    assert q[..i + 1][..i] == q[..i];
  }

  /** Whether a share can be judged depends on the accesses alone. */
  lemma {:induction false} KeepSame(cloud: Containers, other: Containers, q: seq<Queued>, names: NamesOf)
    requires Sound(cloud) && Sound(other) && cloud.Keys == other.Keys
    requires forall id :: id in cloud ==> cloud[id].access == other[id].access
    ensures KeepUndecided(cloud, q, names) == KeepUndecided(other, q, names)
  {
    if q != [] {
      KeepSame(cloud, other, q[..|q| - 1], names);
      assert q[|q| - 1].share.container in cloud <==> q[|q| - 1].share.container in other.Keys;
    }
  }

  /** What a container becomes once the waiting keys were gone through. */
  function Unlocked(c: Local, id: ContainerId, waiting: seq<Queued>, trusted: seq<Trusted>, names: NamesOf, authors: Authors): Local
    requires c.access.WellFormed()
  {
    var ring := RingWithShared(RingWithTrusted(c.keys, c.access, id, trusted), c.access, id, waiting, names);
    Retry(c.(keys := ring), authors)
  }

  /** A key of a known epoch changes nothing about whether the ring fits. */
  lemma OneMoreFits(c: Local, ring: map<u64, EpochKey>, epoch: u64, key: EpochKey)
    requires 1 <= epoch <= c.access.epoch
    ensures KeysFit(c.(keys := ring[epoch := key])) <==> KeysFit(c.(keys := ring))
  {
    assert forall e :: e in ring ==> e in ring[epoch := key];
  }

  /** The share brings a key of this epoch to this container. */
  predicate Brings(a: Access, id: ContainerId, w: Queued, names: NamesOf, epoch: u64)
    requires a.WellFormed()
  {
    w.share.container == id && w.share.keyEpoch == epoch && AcceptShare(a, w.share, Names(names, w.sender)).Ok?
  }

  /** It is the last of the queue to do so. */
  predicate IsLatest(a: Access, id: ContainerId, q: seq<Queued>, names: NamesOf, epoch: u64, i: int)
    requires a.WellFormed()
  {
    0 <= i < |q| && Brings(a, id, q[i], names, epoch) && forall l :: i < l < |q| ==> !Brings(a, id, q[l], names, epoch)
  }

  ghost predicate NoneBrings(a: Access, id: ContainerId, q: seq<Queued>, names: NamesOf, epoch: u64)
    requires a.WellFormed()
  {
    forall i :: 0 <= i < |q| ==> !Brings(a, id, q[i], names, epoch)
  }

  /** Each slot of the ring holds the key of the last share that brings one for it, or what it held if none does. */
  lemma {:induction false} RingHoldsTheLatest(
    keys: map<u64, EpochKey>, a: Access, id: ContainerId, q: seq<Queued>, names: NamesOf, epoch: u64)
    requires a.WellFormed()
    ensures var ring := RingWithShared(keys, a, id, q, names);
      || (NoneBrings(a, id, q, names, epoch) && (epoch in ring <==> epoch in keys) && (epoch in keys ==> ring[epoch] == keys[epoch]))
      || exists i :: IsLatest(a, id, q, names, epoch, i) && q[i].share.key.Some? && epoch in ring && ring[epoch] == q[i].share.key.value
  {
    if q != [] {
      var k := |q| - 1;
      RingHoldsTheLatest(keys, a, id, q[..k], names, epoch);
      RingWithOneMore(keys, a, id, q, names, epoch);
      hide *;
      if Brings(a, id, q[k], names, epoch) {
        LastIsLatest(a, id, q, names, epoch);
      } else {
        ShorterQueue(a, id, q, names, epoch);
      }
    }
  }

  lemma LastIsLatest(a: Access, id: ContainerId, q: seq<Queued>, names: NamesOf, epoch: u64)
    requires a.WellFormed() && q != [] && Brings(a, id, q[|q| - 1], names, epoch)
    ensures IsLatest(a, id, q, names, epoch, |q| - 1)
  {
    hide Brings;
  }

  lemma ShorterQueue(a: Access, id: ContainerId, q: seq<Queued>, names: NamesOf, epoch: u64)
    requires a.WellFormed() && q != [] && !Brings(a, id, q[|q| - 1], names, epoch)
    ensures NoneBrings(a, id, q[..|q| - 1], names, epoch) ==> NoneBrings(a, id, q, names, epoch)
    ensures forall i :: IsLatest(a, id, q[..|q| - 1], names, epoch, i) ==> i < |q| - 1 && q[..|q| - 1][i] == q[i] && IsLatest(a, id, q, names, epoch, i)
  {
    hide Brings;
    var k := |q| - 1;
    assert forall i :: 0 <= i < k ==> q[..k][i] == q[i];
    forall i | IsLatest(a, id, q[..k], names, epoch, i) ensures i < k && q[..k][i] == q[i] && IsLatest(a, id, q, names, epoch, i) {
      forall l | i < l < |q| ensures !Brings(a, id, q[l], names, epoch) {
        if l < k { assert !Brings(a, id, q[..k][l], names, epoch); }
      }
    }
  }

  lemma RingWithOneMore(keys: map<u64, EpochKey>, a: Access, id: ContainerId, q: seq<Queued>, names: NamesOf, epoch: u64)
    requires a.WellFormed() && q != []
    ensures var k := |q| - 1;
      var before, ring := RingWithShared(keys, a, id, q[..k], names), RingWithShared(keys, a, id, q, names);
      if Brings(a, id, q[k], names, epoch) then q[k].share.key.Some? && epoch in ring && ring[epoch] == q[k].share.key.value
      else (epoch in ring <==> epoch in before) && (epoch in before ==> ring[epoch] == before[epoch])
  {
    hide AcceptShare;
  }

  /** The same of one's own exported keys. */
  lemma {:induction false} RingHoldsTrusted(keys: map<u64, EpochKey>, a: Access, id: ContainerId, q: seq<Trusted>, epoch: u64)
    ensures var ring := RingWithTrusted(keys, a, id, q);
      if 1 <= epoch <= a.epoch && exists i :: 0 <= i < |q| && q[i].id == id && q[i].epoch == epoch then
        exists i :: 0 <= i < |q| && q[i].id == id && q[i].epoch == epoch
          && (forall l :: i < l < |q| ==> !(q[l].id == id && q[l].epoch == epoch)) && epoch in ring && ring[epoch] == q[i].key
      else (epoch in ring <==> epoch in keys) && (epoch in keys ==> ring[epoch] == keys[epoch])
  {
    if q != [] {
      var k := |q| - 1;
      RingHoldsTrusted(keys, a, id, q[..k], epoch);
      if !(q[k].id == id && q[k].epoch == epoch) {
        assert forall i :: 0 <= i < k ==> q[..k][i] == q[i];
        if i :| 0 <= i < |q| && q[i].id == id && q[i].epoch == epoch { assert q[..k][i].epoch == epoch; }
      }
    }
  }

  lemma {:induction false} RingsFit(c: Local, id: ContainerId, waiting: seq<Queued>, trusted: seq<Trusted>, names: NamesOf)
    requires c.access.WellFormed()
    ensures var ring := RingWithShared(RingWithTrusted(c.keys, c.access, id, trusted), c.access, id, waiting, names);
      KeysFit(c.(keys := ring)) <==> KeysFit(c)
    decreases |trusted| + |waiting|
  {
    if waiting != [] {
      var k := |waiting| - 1;
      RingsFit(c, id, waiting[..k], trusted, names);
      var r := AcceptShare(c.access, waiting[k].share, Names(names, waiting[k].sender));
      if r.Ok? {
        OneMoreFits(c, RingWithShared(RingWithTrusted(c.keys, c.access, id, trusted), c.access, id, waiting[..k], names), r.value.0, r.value.1);
      }
      hide AcceptShare, RingWithTrusted, KeysFit;
    } else if trusted != [] {
      var k := |trusted| - 1;
      RingsFit(c, id, [], trusted[..k], names);
      if 1 <= trusted[k].epoch <= c.access.epoch {
        OneMoreFits(c, RingWithTrusted(c.keys, c.access, id, trusted[..k]), trusted[k].epoch, trusted[k].key);
      }
      hide KeysFit;
    }
  }

  lemma UnlockedKeepsFaith(c: Local, id: ContainerId, waiting: seq<Queued>, trusted: seq<Trusted>, names: NamesOf, authors: Authors)
    requires Faithful(c, authors)
    ensures var d := Unlocked(c, id, waiting, trusted, names, authors);
      && Faithful(d, authors) && d.access == c.access && (KeysFit(d) <==> KeysFit(c)) && GoneThrough(c, d, authors)
  {
    var ring := RingWithShared(RingWithTrusted(c.keys, c.access, id, trusted), c.access, id, waiting, names);
    RingsFit(c, id, waiting, trusted, names);
    RingGrows(c.keys, c.access, id, waiting, trusted, names);
    hide RingWithShared, RingWithTrusted, Stamped, Replay, RetryOver, OnlyRightfulWrites, KeysFit;
    RetryLeavesOnlyKeyless(c.(keys := ring), authors);
    RetryWritesRightfully(c.(keys := ring, pending := []), c.pending, authors);
    var d := Unlocked(c, id, waiting, trusted, names, authors);
    SameLogSameWrites(c.(keys := ring, pending := []), c.(keys := ring), d, authors, c.pending);
  }

  /**
   Keys came and what waited was gone through: exactly the operations without a key wait on, in their order; others were
   tried, and wrote what they had the right to; cursors and the epoch floor stay, the clock is not set back, no slot is emptied.
   */
  ghost predicate GoneThrough(c: Local, d: Local, authors: Authors) {
    && d == c.(keys := d.keys, pending := Keyless(c.pending, d.keys), guard := d.guard, state := d.state)
    && c.guard <= d.guard && c.keys.Keys <= d.keys.Keys && OnlyRightfulWrites(c.(keys := d.keys), d, authors, c.pending)
  }

  lemma SameLogSameWrites(c: Local, b: Local, d: Local, authors: Authors, ops: seq<ContainerOp>)
    requires OnlyRightfulWrites(c, d, authors, ops)
    requires b.genesis == c.genesis && b.grants == c.grants && b.keys == c.keys && b.state == c.state
    ensures OnlyRightfulWrites(b, d, authors, ops)
  {
    forall e | MayHaveWritten(c, authors, ops, e) ensures MayHaveWritten(b, authors, ops, e) { MayHaveWrittenFirst(b, c, authors, ops, ops, e); }
    hide MayHaveWritten;
  }

  lemma {:induction false} RingGrows(
    keys: map<u64, EpochKey>, a: Access, id: ContainerId, waiting: seq<Queued>, trusted: seq<Trusted>, names: NamesOf)
    requires a.WellFormed()
    ensures keys.Keys <= RingWithShared(RingWithTrusted(keys, a, id, trusted), a, id, waiting, names).Keys
  {
    forall epoch | epoch in keys ensures epoch in RingWithShared(RingWithTrusted(keys, a, id, trusted), a, id, waiting, names) {
      RingHoldsTrusted(keys, a, id, trusted, epoch);
      RingHoldsTheLatest(RingWithTrusted(keys, a, id, trusted), a, id, waiting, names, epoch);
    }
  }

  // ── the limits on what may wait ───────────────────────────────────────────

  function CountFrom(q: seq<Queued>, sender: Name): nat {
    if q == [] then 0
    else CountFrom(q[..|q| - 1], sender) + if q[|q| - 1].sender == sender then 1 else 0
  }

  /** One's own devices, each stranger, and all strangers together have their own limits. */
  ghost predicate WithinQuota(q: seq<Queued>, user: Name) {
    && CountFrom(q, user) <= MAX_WAITING
    && |q| - CountFrom(q, user) <= MAX_WAITING
    && (forall s :: s != user ==> CountFrom(q, s) <= MAX_WAITING_PER_SENDER)
  }

  lemma CountOneMore(q: seq<Queued>, w: Queued, s: Name)
    ensures CountFrom(q + [w], s) == CountFrom(q, s) + if w.sender == s then 1 else 0
  {
    assert (q + [w])[..|q|] == q;
  }

  lemma {:induction false} KeptCounts(cloud: Containers, q: seq<Queued>, names: NamesOf, s: Name)
    requires Sound(cloud)
    ensures var kept := KeepUndecided(cloud, q, names);
      CountFrom(kept, s) <= CountFrom(q, s) && |kept| - CountFrom(kept, s) <= |q| - CountFrom(q, s)
  {
    if q != [] {
      var k := |q| - 1;
      KeptCounts(cloud, q[..k], names, s);
      var before := KeepUndecided(cloud, q[..k], names);
      CountOneMore(before, q[k], s);
      assert before + [] == before;
      hide Undecided, Sound;
    }
  }

  lemma KeptWithinQuota(cloud: Containers, q: seq<Queued>, names: NamesOf, user: Name)
    requires Sound(cloud) && WithinQuota(q, user)
    ensures WithinQuota(KeepUndecided(cloud, q, names), user)
  {
    KeptCounts(cloud, q, names, user);
    forall s | s != user ensures CountFrom(KeepUndecided(cloud, q, names), s) <= MAX_WAITING_PER_SENDER {
      KeptCounts(cloud, q, names, s);
    }
  }

  /** Is there room for one more share from this sender? */
  predicate Fits(q: seq<Queued>, sender: Name, user: Name) {
    if sender == user then CountFrom(q, user) < MAX_WAITING
    else CountFrom(q, sender) < MAX_WAITING_PER_SENDER && |q| - CountFrom(q, user) < MAX_WAITING
  }

  /** A share is queued exactly if the limits allow it. */
  lemma QueuedWithinQuota(q: seq<Queued>, w: Queued, user: Name)
    requires WithinQuota(q, user)
    ensures WithinQuota(q + [w], user) <==> Fits(q, w.sender, user)
  {
    forall s ensures CountFrom(q + [w], s) == CountFrom(q, s) + if w.sender == s then 1 else 0 { CountOneMore(q, w, s); }
  }

  ghost predicate TrustedTaken(was: Containers, cloud: Containers, q: seq<Trusted>) {
    cloud.Keys == was.Keys
    && forall id :: id in was ==> cloud[id] == was[id].(keys := RingWithTrusted(was[id].keys, was[id].access, id, q))
  }

  lemma OneMoreTrusted(was: Containers, cloud: Containers, q: seq<Trusted>, i: nat)
    requires i < |q| && TrustedTaken(was, cloud, q[..i])
    ensures Usable(cloud, q[i]) == Usable(was, q[i])
    ensures KeepUnusable(was, q[..i + 1]) == KeepUnusable(was, q[..i]) + if Usable(was, q[i]) then [] else [q[i]]
    ensures var t := q[i];
      TrustedTaken(was, if Usable(cloud, t) then cloud[t.id := cloud[t.id].(keys := cloud[t.id].keys[t.epoch := t.key])] else cloud, q[..i + 1])
  {
    assert q[..i + 1][..i] == q[..i];
    var t := q[i];
    forall id | id in was && id != t.id
      ensures RingWithTrusted(was[id].keys, was[id].access, id, q[..i + 1]) == RingWithTrusted(was[id].keys, was[id].access, id, q[..i])
    {
    }
  }

  /** Taking in grants keeps every container faithful. */
  lemma LogKeepsFaith(cloud: Containers, id: ContainerId, entries: seq<GrantEntry>, authors: Authors)
    requires AllFaithful(cloud, authors) && AtHome(cloud) && id in cloud
    ensures cloud[id].access.WellFormed()
    ensures var l := TakeGrants(cloud[id].access, cloud[id].grants, entries, authors, true);
      var mid := cloud[id := cloud[id].(access := l.access, grants := l.grants)];
      AllFaithful(mid, authors) && AtHome(mid) && (AllFit(cloud) ==> AllFit(mid))
  {
    var c := cloud[id];
    hide TakeGrants, Apply, Stamped;
    assert Replay(c.genesis, c.grants, authors) == Ok(c.access);
    TakenGrantsReplay(c.genesis, c.access, c.grants, entries, authors, true);
    var l := TakeGrants(c.access, c.grants, entries, authors, true);
    ReplayShape(c.genesis, c.grants, authors);
    ReplayShape(c.genesis, l.grants, authors);
    hide Replay;
  }

  ghost predicate Retried(was: Containers, cloud: Containers, authors: Authors) {
    cloud.Keys == was.Keys && forall id :: id in was ==> cloud[id] == Retry(was[id], authors)
  }

  ghost predicate AllFaithful(cloud: Containers, authors: Authors) {
    forall id :: id in cloud ==> Faithful(cloud[id], authors)
  }

  ghost predicate AllFit(cloud: Containers) {
    forall id :: id in cloud ==> KeysFit(cloud[id])
  }

  ghost predicate AtHome(cloud: Containers) {
    forall id :: id in cloud ==> cloud[id].access.container == id
  }

  /** The waiting keys were gone through: each container took what it accepts, the rest waits on. */
  ghost predicate Absorbed(
    was: Containers, q: seq<Queued>, keys: seq<Trusted>, names: NamesOf, authors: Authors,
    cloud: Containers, waiting: seq<Queued>, trusted: seq<Trusted>)
  {
    && Sound(was) && cloud.Keys == was.Keys
    && (forall id :: id in was ==> cloud[id] == Unlocked(was[id], id, q, keys, names, authors))
    && waiting == KeepUndecided(was, q, names)
    && trusted == KeepUnusable(was, keys)
  }

  lemma TrustedKeepsSound(was: Containers, mid: Containers, keys: seq<Trusted>, authors: Authors)
    requires AllFaithful(was, authors) && TrustedTaken(was, mid, keys)
    ensures Sound(was) && Sound(mid)
  {
  }

  /** The three passes over the waiting keys, taken together. */
  lemma AbsorbingKeepsFaith(
    was: Containers, mid: Containers, last: Containers, cloud: Containers, q: seq<Queued>, keys: seq<Trusted>,
    names: NamesOf, authors: Authors, user: Name)
    requires AllFaithful(was, authors) && Sound(was) && Sound(mid) && WithinQuota(q, user)
    requires TrustedTaken(was, mid, keys) && SharesTaken(mid, last, q, names) && Retried(last, cloud, authors)
    ensures Absorbed(was, q, keys, names, authors, cloud, KeepUndecided(mid, q, names), KeepUnusable(was, keys))
    ensures WithinQuota(KeepUndecided(mid, q, names), user)
    ensures AllFaithful(cloud, authors) && (AtHome(was) ==> AtHome(cloud)) && (AllFit(cloud) <==> AllFit(was))
  {
    hide Faithful, Retry, RingWithShared, RingWithTrusted, KeysFit, KeepUndecided, KeepUnusable, WithinQuota;
    KeepSame(mid, was, q, names);
    KeptWithinQuota(was, q, names, user);
    forall id | id in was
      ensures cloud[id] == Unlocked(was[id], id, q, keys, names, authors)
      ensures Faithful(cloud[id], authors) && cloud[id].access == was[id].access && (KeysFit(cloud[id]) <==> KeysFit(was[id]))
    {
      assert Shared(mid[id], last[id], id, q, names);
      UnlockedKeepsFaith(was[id], id, q, keys, names, authors);
    }
  }

  lemma AbsorbedIsCarriedOver(
    was: Containers, mid: Containers, cloud: Containers, q: seq<Queued>, keys: seq<Trusted>, waiting: seq<Queued>, trusted: seq<Trusted>,
    names: NamesOf, g: Genesis, entries: seq<GrantEntry>, authors: Authors)
    requires Replay(g, entries, authors).Ok?
    requires mid == was[g.container := AttachedOver(Existing(was, g.container), g, entries, Replay(g, entries, authors).value)]
    requires AllFaithful(mid, authors) && Absorbed(mid, q, keys, names, authors, cloud, waiting, trusted)
    ensures g.container in cloud
    ensures CarriedOver(if g.container in was then was[g.container] else NothingHere(g), cloud[g.container], g, entries, authors)
  {
    hide Faithful, Replay, Unlocked, OnlyRightfulWrites, KeepUndecided, KeepUnusable, AttachedOver, GoneThrough, CarriedOver;
    var id := g.container;
    assert id in mid && cloud[id] == Unlocked(mid[id], id, q, keys, names, authors);
    UnlockedKeepsFaith(mid[id], id, q, keys, names, authors);
    AttachingCarriesOver(Existing(was, id), cloud[id], g, entries, authors);
  }

  // ── what may stay in the queue, what is taken out of it ───────────────────

  /**
   What stays in the queue, told from the logs: the shares for containers that are not here, and those from somebody who
   administers, on a log that ours has not come to. Nothing else stays, and nothing else is dropped.
   */
  lemma {:induction false} KeptIsUndecided(cloud: Containers, q: seq<Queued>, names: NamesOf, w: Queued, authors: Authors)
    requires AllFaithful(cloud, authors) && Sound(cloud)
    ensures w in KeepUndecided(cloud, q, names) <==> w in q && Undecided(cloud, w, names)
    ensures Undecided(cloud, w, names) <==>
      (w.share.container in cloud ==>
        var c := cloud[w.share.container];
        ComesFromARuler(c.genesis, c.grants, w.share, Names(names, w.sender)) && !OnThisLog(c.genesis, c.grants, w.share))
  {
    if w.share.container in cloud {
      var c := cloud[w.share.container];
      ShareIsJudged(c.genesis, c.grants, authors, w.share, Names(names, w.sender));
    }
    hide Faithful, AcceptShare, ComesFromARuler, OnThisLog, Undecided, AllFaithful, Replay;
    if q != [] {
      var k := |q| - 1;
      KeptIsUndecided(cloud, q[..k], names, w, authors);
      assert q == q[..k] + [q[k]];
    }
  }

  /** Of one's own exported keys those stay that no container here can use yet. */
  lemma {:induction false} KeptIsUnusable(cloud: Containers, q: seq<Trusted>, t: Trusted)
    ensures t in KeepUnusable(cloud, q) <==> t in q && !(t.id in cloud && 1 <= t.epoch <= cloud[t.id].access.epoch)
  {
    if q != [] {
      var k := |q| - 1;
      KeptIsUnusable(cloud, q[..k], t);
      assert q == q[..k] + [q[k]];
    }
  }

  function Without(q: seq<Queued>, id: ContainerId): seq<Queued> {
    if q == [] then []
    else var k := |q| - 1; Without(q[..k], id) + if q[k].share.container == id then [] else [q[k]]
  }

  /** Exactly what is for that container goes, from either queue. */
  lemma {:induction false} WithoutIs(q: seq<Queued>, keys: seq<Trusted>, id: ContainerId, w: Queued, t: Trusted)
    ensures w in Without(q, id) <==> w in q && w.share.container != id
    ensures t in TrustedWithout(keys, id) <==> t in keys && t.id != id
    decreases |q| + |keys|
  {
    if q != [] {
      WithoutIs(q[..|q| - 1], keys, id, w, t);
      assert q == q[..|q| - 1] + [q[|q| - 1]];
    } else if keys != [] {
      WithoutIs([], keys[..|keys| - 1], id, w, t);
      assert keys == keys[..|keys| - 1] + [keys[|keys| - 1]];
    }
  }

  lemma {:induction false} WithoutCounts(q: seq<Queued>, id: ContainerId, s: Name)
    ensures CountFrom(Without(q, id), s) <= CountFrom(q, s)
    ensures |Without(q, id)| - CountFrom(Without(q, id), s) <= |q| - CountFrom(q, s)
  {
    if q != [] {
      var k := |q| - 1;
      WithoutCounts(q[..k], id, s);
      var before := Without(q[..k], id);
      CountOneMore(before, q[k], s);
      assert before + [] == before;
    }
  }

  lemma WithoutWithinQuota(q: seq<Queued>, id: ContainerId, user: Name)
    requires WithinQuota(q, user)
    ensures WithinQuota(Without(q, id), user)
  {
    WithoutCounts(q, id, user);
    forall s | s != user ensures CountFrom(Without(q, id), s) <= MAX_WAITING_PER_SENDER { WithoutCounts(q, id, s); }
  }

  function TrustedWithout(q: seq<Trusted>, id: ContainerId): seq<Trusted> {
    if q == [] then []
    else var k := |q| - 1; TrustedWithout(q[..k], id) + if q[k].id == id then [] else [q[k]]
  }

  // ── attaching ─────────────────────────────────────────────────────────────

  /** Attaching over what was there: keys, clock, state and cursors stay, access and log are the server's. */
  function AttachedOver(existing: Option<Local>, g: Genesis, entries: seq<GrantEntry>, access: Access): Local {
    match existing
    case Some(c) => c.(genesis := g, grants := entries, access := access, lastOpEpoch := 0)
    case None => Local(g, entries, access, map[], 0, map[], 0, 0, [], 0)
  }

  /**
   What attaching leaves of a container that was there, told from that container: genesis, log and access are the server's, the
   epoch floor is forgotten, and nothing else is lost. The cursors stay, the clock is not set back, no key goes; exactly the
   operations without a key wait on, in their order, and the others were tried, which wrote only what was rightful.
   */
  ghost predicate CarriedOver(c: Local, d: Local, g: Genesis, entries: seq<GrantEntry>, authors: Authors) {
    && d.genesis == g && d.grants == entries && Replay(g, entries, authors) == Ok(d.access)
    && d.headSeq == c.headSeq && d.snapshotSeq == c.snapshotSeq && d.lastOpEpoch == 0
    && c.guard <= d.guard && c.keys.Keys <= d.keys.Keys
    && d.pending == Keyless(c.pending, d.keys) && OnlyRightfulWrites(d.(state := c.state), d, authors, c.pending)
  }

  /** A container of which nothing has come yet. */
  function NothingHere(g: Genesis): Local {
    Local(g, [], AtGenesis(g), map[], 0, map[], 0, 0, [], 0)
  }

  lemma AttachingCarriesOver(existing: Option<Local>, d: Local, g: Genesis, entries: seq<GrantEntry>, authors: Authors)
    requires Replay(g, entries, authors).Ok?
    requires GoneThrough(AttachedOver(existing, g, entries, Replay(g, entries, authors).value), d, authors)
    ensures CarriedOver(if existing.Some? then existing.value else NothingHere(g), d, g, entries, authors)
  {
    var c := if existing.Some? then existing.value else NothingHere(g);
    var mid := AttachedOver(existing, g, entries, Replay(g, entries, authors).value);
    SameLogSameWrites(mid.(keys := d.keys), d.(state := c.state), d, authors, c.pending);
    hide OnlyRightfulWrites, Replay, Keyless;
  }

  lemma ReplayKeepsDomain(g: Genesis, entries: seq<GrantEntry>, authors: Authors)
    requires Replay(g, entries, authors).Ok?
    ensures Replay(g, entries, authors).value.domain == g.domain
  {
    ReplayShape(g, entries, authors);
  }

  function Existing(cloud: Containers, id: ContainerId): Option<Local> {
    if id in cloud then Some(cloud[id]) else None
  }

  /** Our own log is longer than the answer: an entry of ours is still on its way. */
  predicate KeepsOwn(cloud: Containers, g: Genesis, entries: seq<GrantEntry>) {
    g.container in cloud && cloud[g.container].access.version > |entries|
  }

  lemma AttachingKeepsFaith(cloud: Containers, g: Genesis, entries: seq<GrantEntry>, authors: Authors)
    requires AllFaithful(cloud, authors) && AtHome(cloud) && Replay(g, entries, authors).Ok?
    ensures var access := Replay(g, entries, authors).value;
      var mid := cloud[g.container := AttachedOver(Existing(cloud, g.container), g, entries, access)];
      && AllFaithful(mid, authors) && AtHome(mid)
      && (AllFit(cloud) ==>
            (AllFit(mid) <==> forall e :: g.container in cloud && e in cloud[g.container].keys ==> 1 <= e <= access.epoch))
  {
    var existing := Existing(cloud, g.container);
    var access := Replay(g, entries, authors).value;
    AttachedIsFaithful(existing, g, entries, authors);
    var d := AttachedOver(existing, g, entries, access);
    var mid := cloud[g.container := d];
    assert AllFit(cloud) ==> (AllFit(mid) <==> KeysFit(d)) by {
      assert mid[g.container] == d;
      hide KeysFit, AttachedOver, Faithful;
    }
    hide Replay, Faithful, AllFit, KeysFit, AttachedOver;
  }

  lemma AttachedIsFaithful(existing: Option<Local>, g: Genesis, entries: seq<GrantEntry>, authors: Authors)
    requires Replay(g, entries, authors).Ok? && (existing.Some? ==> Stamped(existing.value.state))
    ensures var d := AttachedOver(existing, g, entries, Replay(g, entries, authors).value);
      Faithful(d, authors) && d.access.container == g.container
      && (KeysFit(d) <==> existing.None? || forall e :: e in existing.value.keys ==> 1 <= e <= d.access.epoch)
  {
    ReplayShape(g, entries, authors);
  }

  /**
   What a caller could check before it attaches: the container that results, once it took the keys that waited, comes back
   whole from the next restart exactly if each key of the ring is of an epoch that the answered log knows.
   */
  lemma AttachedComesBackIff(
    existing: Option<Local>, g: Genesis, entries: seq<GrantEntry>, waiting: seq<Queued>, trusted: seq<Trusted>, names: NamesOf,
    authors: Authors, more: Authors)
    requires Replay(g, entries, authors).Ok? && (existing.Some? ==> Stamped(existing.value.state)) && KnowsMore(authors, more)
    ensures var access := Replay(g, entries, authors).value;
      access.WellFormed()
      && var d := Unlocked(AttachedOver(existing, g, entries, access), g.container, waiting, trusted, names, authors);
        RestoredFrom(PersistedOf(d), d.guard, more) == Ok(d.(lastOpEpoch := 0))
        <==> (existing.Some? ==> forall e :: e in existing.value.keys ==> 1 <= e <= access.epoch)
  {
    var access := Replay(g, entries, authors).value;
    ReplayShape(g, entries, authors);
    var mid := AttachedOver(existing, g, entries, access);
    AttachedIsFaithful(existing, g, entries, authors);
    UnlockedKeepsFaith(mid, g.container, waiting, trusted, names, authors);
    RestoreUndoesPersistIffKeysFit(Unlocked(mid, g.container, waiting, trusted, names, authors), authors, more);
    hide RestoredFrom, PersistedOf, Unlocked, Faithful, KeysFit, Replay;
  }

  /** A server whose log extends ours is never behind our epoch, so attaching to it keeps the ring in order. */
  lemma ExtendingLogKeepsKeys(c: Local, entries: seq<GrantEntry>, authors: Authors)
    requires Faithful(c, authors) && KeysFit(c) && c.grants <= entries && Replay(c.genesis, entries, authors).Ok?
    ensures KeysFit(AttachedOver(Some(c), c.genesis, entries, Replay(c.genesis, entries, authors).value))
  {
    var more := entries[|c.grants|..];
    assert entries == c.grants + more;
    ReplayFromAppend(FromGenesis(c.genesis, authors).value, c.grants, more, authors);
    ReplayShape(c.genesis, c.grants, authors);
    ReplayFromSpells(c.access, c.genesis, c.grants, more, authors);
  }

  const FORKED := Genesis(7, CLOUD_DOMAIN, "ann", 1, true)
  const ANN: Authors := map[1 := Author("ann", [1], [])]
  const START := AtGenesis(FORKED)
  const OURS := SignEntry(START, Kind.Rotate, None, Unspecified, 2, None, 1)
  const THEIRS := SignEntry(START, Kind.Grant, Some(User("bob")), Read, 1, None, 1)

  lemma ForkReplays()
    ensures Replay(FORKED, [OURS], ANN).Ok? && Replay(FORKED, [OURS], ANN).value.epoch == 2
    ensures Replay(FORKED, [THEIRS], ANN).Ok? && Replay(FORKED, [THEIRS], ANN).value.epoch == 1
    ensures Replay(FORKED, [], ANN).Ok? && Replay(FORKED, [], ANN).value.epoch == 1
  {
    assert FromGenesis(FORKED, ANN) == Ok(START);
    assert Administers(START, ANN[1]);
    assert [OURS][1..] == [] && [THEIRS][1..] == [];
    assert Apply(START, OURS, ANN).Ok? && Apply(START, OURS, ANN).value.epoch == 2;
    assert Apply(START, THEIRS, ANN).Ok? && Apply(START, THEIRS, ANN).value.epoch == 1;
    assert ReplayFrom(START, [OURS], ANN) == Apply(START, OURS, ANN);
    assert ReplayFrom(START, [THEIRS], ANN) == Apply(START, THEIRS, ANN);
  }

  /**
   Against a server that forked the log the rule "keep our log if it is longer" is not enough: a fork of the same
   length with fewer epoch changes replaces ours, and the key of our newer epoch does not survive a restart.
   */
  lemma ForkOfEqualLengthLosesAKey()
    ensures Replay(FORKED, [OURS], ANN).Ok? && Replay(FORKED, [THEIRS], ANN).Ok?
    ensures var c := Local(FORKED, [OURS], Replay(FORKED, [OURS], ANN).value, map[1 := 10, 2 := 20], 0, map[], 0, 0, [], 0);
      var d := AttachedOver(Some(c), FORKED, [THEIRS], Replay(FORKED, [THEIRS], ANN).value);
      && Faithful(c, ANN) && KeysFit(c) && !KeepsOwn(map[7 := c], FORKED, [THEIRS])
      && 2 in d.keys && RestoredFrom(PersistedOf(d), d.guard, ANN).Ok?
      && 2 !in RestoredFrom(PersistedOf(d), d.guard, ANN).value.keys
  {
    ForkReplays();
    hide Replay;
    RingOfSaved(map[1 := 10, 2 := 20], 1);
  }

  lemma ExtendedIsFaithful(c: Local, d: Local, sent: seq<GrantEntry>, authors: Authors)
    requires Faithful(c, authors) && Extended(c, d, sent, authors)
    ensures Faithful(d, authors) && d.access.container == c.access.container && c.access.epoch <= d.access.epoch
  {
    ReplayFromAppend(FromGenesis(c.genesis, authors).value, c.grants, sent, authors);
    ReplayShape(c.genesis, c.grants, authors);
    ReplayFromSpells(c.access, c.genesis, c.grants, sent, authors);
  }

  // ── saving and restoring all containers ───────────────────────────────────

  function RestoredAll(saved: seq<Persisted>, authors: Authors): Containers {
    if saved == [] then map[]
    else
      var k := |saved| - 1;
      var before, c := RestoredAll(saved[..k], authors), RestoredFrom(saved[k], saved[k].guardMax, authors);
      if c.Err? then before else before[c.value.access.container := c.value]
  }

  /** `saved` holds the containers, in some order. */
  ghost predicate Saves(saved: seq<Persisted>, ids: seq<ContainerId>, cloud: Containers) {
    && |saved| == |ids|
    && forall i :: 0 <= i < |ids| ==> ids[i] in cloud && saved[i] == PersistedOf(cloud[ids[i]])
  }

  /** A container as a restart leaves it: the epoch floor is forgotten. */
  function Rested(c: Local): Local {
    c.(lastOpEpoch := 0)
  }

  lemma {:induction false} RestoringAllUndoesSaving(
    saved: seq<Persisted>, ids: seq<ContainerId>, cloud: Containers, authors: Authors, more: Authors)
    requires Saves(saved, ids, cloud) && AllFaithful(cloud, authors) && AtHome(cloud) && AllFit(cloud) && KnowsMore(authors, more)
    ensures var back := RestoredAll(saved, more);
      && (forall id :: id in back ==> id in cloud && back[id] == Rested(cloud[id]))
      && (forall i :: 0 <= i < |ids| ==> ids[i] in back)
    decreases |saved|
  {
    hide AllFaithful, AtHome, AllFit, Rested, KnowsMore;
    if saved != [] {
      var k := |saved| - 1;
      RestoringOneMore(saved, ids, cloud, authors, more);
      hide Saves, RestoredAll;
      RestoringAllUndoesSaving(saved[..k], ids[..k], cloud, authors, more);
      forall i | 0 <= i < |ids| ensures ids[i] in RestoredAll(saved, more) {
        if i < k { assert ids[..k][i] == ids[i]; }
      }
    }
  }

  /** A client that is saved and restarted has every container back as it was, the epoch floors forgotten. */
  lemma RestartLosesNothing(
    saved: seq<Persisted>, ids: seq<ContainerId>, cloud: Containers, authors: Authors, more: Authors)
    requires Saves(saved, ids, cloud) && AllFaithful(cloud, authors) && AtHome(cloud) && AllFit(cloud) && KnowsMore(authors, more)
    requires forall id :: id in cloud ==> id in ids
    ensures RestoredAll(saved, more) == map id | id in cloud :: Rested(cloud[id])
  {
    hide AllFaithful, AtHome, AllFit, Saves, RestoredAll, Rested, KnowsMore;
    RestoringAllUndoesSaving(saved, ids, cloud, authors, more);
  }

  lemma SavesOneFewer(saved: seq<Persisted>, ids: seq<ContainerId>, cloud: Containers)
    requires Saves(saved, ids, cloud) && saved != []
    ensures var k := |saved| - 1;
      && |ids| == k + 1 && ids[k] in cloud && Saves(saved[..k], ids[..k], cloud)
      && saved[k] == PersistedOf(cloud[ids[k]]) && saved[k].guardMax == cloud[ids[k]].guard
  {
  }

  lemma RestoringOneMore(saved: seq<Persisted>, ids: seq<ContainerId>, cloud: Containers, authors: Authors, more: Authors)
    requires Saves(saved, ids, cloud) && saved != []
    requires AllFaithful(cloud, authors) && AtHome(cloud) && AllFit(cloud) && KnowsMore(authors, more)
    ensures var k := |saved| - 1;
      && |ids| == k + 1 && ids[k] in cloud && Saves(saved[..k], ids[..k], cloud)
      && RestoredAll(saved, more) == RestoredAll(saved[..k], more)[ids[k] := Rested(cloud[ids[k]])]
  {
    SavesOneFewer(saved, ids, cloud);
    var c := cloud[ids[|saved| - 1]];
    assert Faithful(c, authors) && KeysFit(c) && c.access.container == ids[|saved| - 1];
    hide RestoredFrom, Faithful, KeysFit, PersistedOf, AllFaithful, AtHome, AllFit, Saves, KnowsMore;
    RestoreUndoesPersistIffKeysFit(c, authors, more);
  }

  // ── the client ────────────────────────────────────────────────────────────

  class Client {
    const user: Name
    var authors: Authors
    var cloud: Containers
    var waiting: seq<Queued>
    var trusted: seq<Trusted>

    ghost predicate Valid()
      reads this
    {
      AllFaithful(cloud, authors) && AtHome(cloud) && WithinQuota(waiting, user)
    }

    /** No container has a key of an epoch its access does not know. */
    ghost predicate Tidy()
      reads this
    {
      AllFit(cloud)
    }

    constructor (user: Name, authors: Authors)
      ensures Valid() && Tidy() && this.user == user && this.authors == authors
      ensures cloud == map[] && waiting == [] && trusted == []
    {
      this.user, this.authors, cloud, waiting, trusted := user, authors, map[], [], [];
    }

    /** Devices learned from verified device logs; those known stay known. */
    method LearnAuthors(more: Authors)
      requires Valid() && KnowsMore(authors, more)
      modifies this`authors
      ensures Valid() && authors == more
    {
      forall id | id in cloud ensures Faithful(cloud[id], more) { FaithfulForMore(cloud[id], authors, more); }
      authors := more;
    }

    method IngestSync(id: ContainerId, ops: seq<ContainerOp>, more: bool, strict: bool) returns (r: Result<Report, Error>)
      requires Valid()
      modifies this`cloud
      ensures Valid() && (old(Tidy()) ==> Tidy())
      ensures id !in old(cloud) ==> r == Err(NotFound) && cloud == old(cloud)
      ensures id in old(cloud) ==>
        var i := Ingest(old(cloud)[id], ops, authors, strict, NewReport(old(cloud)[id], more));
        && cloud == old(cloud)[id := i.c] && r == Ok(i.report)
        && OnlyRightfulWrites(old(cloud)[id], cloud[id], authors, ops)
    {
      if id !in cloud { return Err(NotFound); }
      PageWritesRightfully(cloud[id], ops, authors, strict, NewReport(cloud[id], more));
      hide OnlyRightfulWrites, Ingest;
      PageKeepsFaith(cloud[id], ops, authors, strict, NewReport(cloud[id], more));
      var c, report := TakePage(cloud[id], ops, more, authors, strict);
      cloud := cloud[id := c];
      return Ok(report);
    }

    method IngestSnapshot(id: ContainerId, s: Snapshot) returns (r: Result<u64, Error>)
      requires Valid()
      modifies this`cloud
      ensures Valid() && (old(Tidy()) ==> Tidy())
      ensures id !in old(cloud) ==> r == Err(NotFound) && cloud == old(cloud)
      ensures id in old(cloud) ==>
        var m := CloudMerge(old(cloud)[id], s, authors);
        cloud == old(cloud)[id := m.c] && r == m.result
    {
      if id !in cloud { return Err(NotFound); }
      hide CheckSnapshot, MaxLamport;
      var m := CloudMerge(cloud[id], s, authors);
      MergeKeepsFaith(cloud[id], s, authors);
      cloud := cloud[id := m.c];
      return m.result;
    }

    /** Catch up with the grant log, then go through the keys that waited for it. */
    method IngestGrants(id: ContainerId, entries: seq<GrantEntry>, names: NamesOf, logsKnown: bool) returns (r: Result<nat, Error>)
      requires Valid()
      modifies this`cloud, this`waiting, this`trusted
      ensures Valid() && (old(Tidy()) ==> Tidy())
      ensures r.Ok? <==> id in old(cloud) && logsKnown
      ensures r.Err? ==> cloud == old(cloud) && waiting == old(waiting) && trusted == old(trusted)
      ensures r.Ok? ==>
        var l := TakeGrants(old(cloud)[id].access, old(cloud)[id].grants, entries, authors, true);
        var mid := old(cloud)[id := old(cloud)[id].(access := l.access, grants := l.grants)];
        r.value == l.access.version && Absorbed(mid, old(waiting), old(trusted), names, authors, cloud, waiting, trusted)
    {
      if id !in cloud { return Err(NotFound); }
      if !logsKnown { return Err(PeerUnknown); }
      var c := cloud[id];
      LogKeepsFaith(cloud, id, entries, authors);
      var l := IngestEntries(c.access, c.grants, entries, authors, true);
      hide TakeGrants, WithinQuota, AllFaithful, AtHome, AllFit, Absorbed;
      cloud := cloud[id := c.(access := l.access, grants := l.grants)];
      AbsorbPendingKeys(names);
      return Ok(l.access.version);
    }

    method AbsorbPendingKeys(names: NamesOf)
      requires Valid()
      modifies this`cloud, this`waiting, this`trusted
      ensures Valid() && (Tidy() <==> old(Tidy()))
      ensures Absorbed(old(cloud), old(waiting), old(trusted), names, authors, cloud, waiting, trusted)
    {
      hide AllFaithful, AllFit, AtHome, Sound, KeepUndecided, KeepUnusable, WithinQuota, SharesTaken, TrustedTaken, Retried, Absorbed;
      ghost var was := cloud;
      AbsorbTrusted();
      ghost var mid := cloud;
      TrustedKeepsSound(was, mid, old(trusted), authors);
      AbsorbShares(names);
      ghost var last := cloud;
      RetryAll();
      AbsorbingKeepsFaith(was, mid, last, cloud, old(waiting), old(trusted), names, authors, user);
    }

    method AbsorbTrusted()
      modifies this`cloud, this`trusted
      ensures TrustedTaken(old(cloud), cloud, old(trusted)) && trusted == KeepUnusable(old(cloud), old(trusted))
    {
      var todo := trusted;
      trusted := [];
      ghost var was := cloud;
      for i := 0 to |todo|
        invariant TrustedTaken(was, cloud, todo[..i]) && trusted == KeepUnusable(was, todo[..i])
      {
        var t := todo[i];
        OneMoreTrusted(was, cloud, todo, i);
        hide TrustedTaken, KeepUnusable;
        if Usable(cloud, t) {
          cloud := cloud[t.id := cloud[t.id].(keys := cloud[t.id].keys[t.epoch := t.key])];
        } else {
          trusted := trusted + [t];
        }
      }
      assert todo[..|todo|] == todo;
    }

    /** One waiting share, offered to the container it is for. */
    static method Offer(c: Local, w: Queued, names: NamesOf) returns (d: Local, keep: bool)
      requires c.access.WellFormed()
      ensures d == c.(keys := OneShared(c.keys, c.access, w.share.container, w, names))
      ensures keep == Unjudged(AcceptShare(c.access, w.share, Names(names, w.sender)))
    {
      var r := AcceptShare(c.access, w.share, Names(names, w.sender));
      d := if r.Ok? then c.(keys := c.keys[r.value.0 := r.value.1]) else c;
      keep := Unjudged(r);
    }

    method AbsorbShares(names: NamesOf)
      requires Sound(cloud)
      modifies this`cloud, this`waiting
      ensures SharesTaken(old(cloud), cloud, old(waiting), names)
      ensures waiting == KeepUndecided(old(cloud), old(waiting), names)
    {
      var todo := waiting;
      waiting := [];
      ghost var was := cloud;
      for i := 0 to |todo|
        invariant waiting == KeepUndecided(was, todo[..i], names) && SharesTaken(was, cloud, todo[..i], names)
      {
        var w := todo[i];
        var at := w.share.container;
        KeepStep(was, todo, i, names);
        OneMoreShare(was, cloud, todo, i, names);
        hide AcceptShare, KeepUndecided, Shared;
        if at !in cloud {
          waiting := waiting + [w];
        } else {
          var c, keep := Offer(cloud[at], w, names);
          cloud := cloud[at := c];
          if keep { waiting := waiting + [w]; }
        }
      }
      assert todo[..|todo|] == todo;
    }

    method RetryAll()
      modifies this`cloud
      ensures Retried(old(cloud), cloud, authors)
    {
      var ids := cloud.Keys;
      ghost var was := cloud;
      while ids != {}
        invariant ids <= cloud.Keys == was.Keys
        invariant forall id :: id in cloud ==> cloud[id] == if id in ids then was[id] else Retry(was[id], authors)
        decreases |ids|
      {
        var id :| id in ids;
        ids := ids - {id};
        var c := RetryWaiting(cloud[id], authors);
        cloud := cloud[id := c];
      }
    }

    /** A key share from `sender`; `home` says that the container lives with us or with the sender. */
    method AcceptKey(sender: Name, share: KeyShare, home: bool, names: NamesOf) returns (changed: bool)
      requires Valid()
      modifies this`cloud, this`waiting
      ensures Valid() && (old(Tidy()) ==> Tidy())
      ensures var id, w := share.container, Queued(sender, share);
        && (!home ==> !changed && cloud == old(cloud) && waiting == old(waiting))
        && (home && Undecided(old(cloud), w, names) ==>
              && changed && cloud == old(cloud)
              && waiting == if Fits(old(waiting), sender, user) then old(waiting) + [w] else old(waiting))
        && (home && !Undecided(old(cloud), w, names) ==>
              var c := old(cloud)[id];
              var r := AcceptShare(c.access, share, Names(names, sender));
              && waiting == old(waiting) && changed == r.Ok?
              && (r.Ok? ==> share.key.Some?)
              && cloud == old(cloud)[id := if r.Ok? then Retry(c.(keys := c.keys[share.keyEpoch := share.key.value]), authors) else c])
    {
      hide WithinQuota, Stamped, Replay, AcceptShare, Retry;
      var id, w := share.container, Queued(sender, share);
      if !home { return false; }
      if id in cloud {
        var r := AcceptShare(cloud[id].access, share, Names(names, sender));
        if r.Ok? {
          var c := cloud[id].(keys := cloud[id].keys[r.value.0 := r.value.1]);
          RetryLeavesOnlyKeyless(c, authors);
          c := RetryWaiting(c, authors);
          cloud := cloud[id := c];
          return true;
        } else if !Unjudged(r) {
          assert cloud[id := cloud[id]] == cloud;
          return false;
        }
      }
      if Fits(waiting, sender, user) {
        QueuedWithinQuota(waiting, w, user);
        waiting := waiting + [w];
      }
      return true;
    }

    /** A new container of our own: its genesis, and the key of the first epoch. */
    method Create(g: Genesis, key: EpochKey) returns (r: Result<ContainerId, Error>)
      requires Valid()
      modifies this`cloud
      ensures Valid() && (old(Tidy()) ==> Tidy())
      ensures r.Err? ==> cloud == old(cloud)
      ensures r.Ok? <==> FromGenesis(g, authors).Ok?
      ensures r.Ok? ==>
        && r.value == g.container
        && cloud == old(cloud)[g.container := Local(g, [], FromGenesis(g, authors).value, map[1 := key], 0, map[], 0, 0, [], 0)]
    {
      var access := FromGenesis(g, authors);
      if access.Err? { return Err(access.error); }
      var c := Local(g, [], access.value, map[1 := key], 0, map[], 0, 0, [], 0);
      assert Faithful(c, authors);
      hide Faithful, WithinQuota;
      cloud := cloud[g.container := c];
      return Ok(g.container);
    }

    /** Attach to a container of the server; a local log that is longer than the server's answer is kept. */
    method Attach(g: Genesis, entries: seq<GrantEntry>, names: NamesOf, logsKnown: bool) returns (r: Result<ContainerId, Error>)
      requires Valid()
      modifies this`cloud, this`waiting, this`trusted
      ensures Valid()
      ensures r.Ok? <==> logsKnown && Replay(g, entries, authors).Ok? && g.domain == CLOUD_DOMAIN
      ensures r.Err? || KeepsOwn(old(cloud), g, entries) ==> cloud == old(cloud) && waiting == old(waiting) && trusted == old(trusted)
      ensures r.Ok? && !KeepsOwn(old(cloud), g, entries) ==>
        var access := Replay(g, entries, authors).value;
        var mid := old(cloud)[g.container := AttachedOver(Existing(old(cloud), g.container), g, entries, access)];
        && Absorbed(mid, old(waiting), old(trusted), names, authors, cloud, waiting, trusted)
        && g.container in cloud
        && CarriedOver(
             if g.container in old(cloud) then old(cloud)[g.container] else NothingHere(g), cloud[g.container], g, entries, authors)
        && (old(Tidy()) ==>
              (Tidy() <==> forall e :: g.container in old(cloud) && e in old(cloud)[g.container].keys ==> 1 <= e <= access.epoch))
    {
      if !logsKnown { return Err(PeerUnknown); }
      hide Replay, AllFaithful, AllFit, AtHome, WithinQuota, Absorbed, AttachedOver, CarriedOver, Spells;
      var access := Replay(g, entries, authors);
      if access.Err? { return Err(access.error); }
      ReplayKeepsDomain(g, entries, authors);
      if access.value.domain != CLOUD_DOMAIN { return Err(ContextMismatch); }
      if KeepsOwn(cloud, g, entries) { return Ok(g.container); }
      AttachingKeepsFaith(cloud, g, entries, authors);
      ghost var was := cloud;
      ghost var mid := cloud[g.container := AttachedOver(Existing(cloud, g.container), g, entries, access.value)];
      cloud := cloud[g.container := AttachedOver(Existing(cloud, g.container), g, entries, access.value)];
      ghost var q, keys := waiting, trusted;
      AbsorbPendingKeys(names);
      AbsorbedIsCarriedOver(was, mid, cloud, q, keys, waiting, trusted, names, g, entries, authors);
      return Ok(g.container);
    }

    /** Forget a container and the keys that wait for it. */
    method Forget(id: ContainerId)
      requires Valid()
      modifies this`cloud, this`waiting, this`trusted
      ensures Valid() && (old(Tidy()) ==> Tidy())
      ensures cloud == old(cloud) - {id} && waiting == Without(old(waiting), id) && trusted == TrustedWithout(old(trusted), id)
    {
      hide WithinQuota, Faithful, KeysFit;
      WithoutWithinQuota(waiting, id, user);
      cloud, waiting, trusted := cloud - {id}, Without(waiting, id), TrustedWithout(trusted, id);
    }

    /** Give access or change a role; see `GiveAccess`. A failure of any kind leaves every container as it was. */
    method GrantAccess(
      id: ContainerId, mine: seq<Name>, who: Name, write: bool, signer: Signer, addressable: bool, peerKnown: bool, sendable: bool, key: EpochKey)
      returns (r: Result<seq<GrantEntry>, Error>)
      requires Valid()
      modifies this`cloud
      ensures Valid() && (old(Tidy()) ==> Tidy())
      ensures r.Ok? <==>
        && addressable && who != user && peerKnown && id in old(cloud)
        && MayGive(old(cloud)[id], MyNameIn(mine, user, old(cloud)[id].access), who, write, signer, authors, sendable)
      ensures r.Err? ==> cloud == old(cloud)
      ensures r.Ok? ==> id in old(cloud) && id in cloud && cloud == old(cloud)[id := cloud[id]] && Extended(old(cloud)[id], cloud[id], r.value, authors)
      ensures r.Ok? ==> forall n :: n != who ==> cloud[id].access.LevelOf(n) == old(cloud)[id].access.LevelOf(n)
      ensures r.Ok? && who != old(cloud)[id].access.owner ==> cloud[id].access.LevelOf(who) == Some(if write then Write else Read)
      ensures r.Ok? && Demotes(old(cloud)[id].access, who, write) ==> EpochChanged(old(cloud)[id], cloud[id], key)
    {
      hide WithinQuota, Stamped, Replay;
      if !addressable || who == user { return Err(BadAddress); }
      if !peerKnown { return Err(PeerUnknown); }
      if id !in cloud { return Err(NotFound); }
      var c := cloud[id];
      var d;
      d, r := GiveAccess(c, MyNameIn(mine, user, c.access), who, write, signer, authors, sendable, key);
      if r.Ok? { ExtendedIsFaithful(c, d, r.value, authors); }
      if r.Ok? { cloud := cloud[id := d]; }
    }

    method RotateKey(id: ContainerId, mine: seq<Name>, signer: Signer, key: EpochKey) returns (r: Result<GrantEntry, Error>)
      requires Valid()
      modifies this`cloud
      ensures Valid() && (old(Tidy()) ==> Tidy())
      ensures r.Ok? <==> id in old(cloud) && MayRotate(old(cloud)[id], MyNameIn(mine, user, old(cloud)[id].access), signer, authors)
      ensures r.Err? ==> cloud == old(cloud)
      ensures r.Ok? ==>
        && id in old(cloud) && id in cloud && cloud == old(cloud)[id := cloud[id]]
        && Extended(old(cloud)[id], cloud[id], [r.value], authors) && EpochChanged(old(cloud)[id], cloud[id], key)
        && forall n :: cloud[id].access.LevelOf(n) == old(cloud)[id].access.LevelOf(n)
    {
      hide WithinQuota, Stamped, Replay;
      if id !in cloud { return Err(NotFound); }
      var c := cloud[id];
      var d;
      d, r := ChangeEpoch(c, MyNameIn(mine, user, c.access), signer, authors, key);
      if r.Ok? {
        ExtendedIsFaithful(c, d, [r.value], authors);
        cloud := cloud[id := d];
      }
    }

    method RevokeAccess(id: ContainerId, mine: seq<Name>, who: Name, signer: Signer, key: EpochKey) returns (r: Result<GrantEntry, Error>)
      requires Valid()
      modifies this`cloud
      ensures Valid() && (old(Tidy()) ==> Tidy())
      ensures r.Ok? <==> id in old(cloud) && MayRevoke(old(cloud)[id], MyNameIn(mine, user, old(cloud)[id].access), who, signer, authors)
      ensures r.Err? ==> cloud == old(cloud)
      ensures r.Ok? ==>
        && id in old(cloud) && id in cloud && cloud == old(cloud)[id := cloud[id]]
        && Extended(old(cloud)[id], cloud[id], [r.value], authors) && EpochChanged(old(cloud)[id], cloud[id], key)
        && Out(cloud[id].access, who, cloud[id].access.epoch)
        && forall n :: n != who ==> cloud[id].access.LevelOf(n) == old(cloud)[id].access.LevelOf(n)
    {
      hide WithinQuota, Stamped;
      if id !in cloud { return Err(NotFound); }
      var c := cloud[id];
      ReplayShape(c.genesis, c.grants, authors);
      hide Replay;
      var d;
      d, r := TakeAway(c, MyNameIn(mine, user, c.access), who, signer, authors, key);
      if r.Ok? {
        ExtendedIsFaithful(c, d, [r.value], authors);
        cloud := cloud[id := d];
      }
    }

    /**
     A snapshot, when one is due: far enough from the last one, by someone who may write, and with no operation
     waiting for its key - the cursor has passed those, and the snapshot would lose them.
     */
    method RequestSnapshot(id: ContainerId, mine: seq<Name>, signer: Signer, fits: bool) returns (r: Result<Option<Snapshot>, Error>)
      requires Valid()
      modifies this`cloud
      ensures Valid() && (old(Tidy()) ==> Tidy())
      ensures r.Ok? && r.value.Some? ==>
        && id in old(cloud) && old(cloud)[id].access.epoch in old(cloud)[id].keys
        && SatAdd(old(cloud)[id].snapshotSeq, SNAPSHOT_EVERY) <= old(cloud)[id].headSeq && old(cloud)[id].pending == []
        && r.value.value == SnapshotOf(old(cloud)[id], signer)
        && r.value.value.cells == old(cloud)[id].state && r.value.value.uptoSeq == old(cloud)[id].headSeq
        && cloud == old(cloud)[id := old(cloud)[id].(snapshotSeq := old(cloud)[id].headSeq)]
      ensures !(r.Ok? && r.value.Some?) ==> cloud == old(cloud)
      ensures id in old(cloud) ==>
        var c := old(cloud)[id];
        var due := SatAdd(c.snapshotSeq, SNAPSHOT_EVERY) <= c.headSeq && c.pending == [] && c.access.CanWrite(MyNameIn(mine, user, c.access));
        (r == Ok(None) <==> !due) && (r.Err? <==> due && (c.access.epoch !in c.keys || !fits))
      ensures id !in old(cloud) ==> r.Err?
    {
      hide WithinQuota, Stamped, Replay;
      if id !in cloud { return Err(NotFound); }
      var c := cloud[id];
      if !SnapshotDue(c) || !c.access.CanWrite(MyNameIn(mine, user, c.access)) { return Ok(None); }
      if c.access.epoch !in c.keys { return Err(Crypto); }
      if !fits { return Err(InvalidField); }
      cloud := cloud[id := c.(snapshotSeq := c.headSeq)];
      return Ok(Some(SnapshotOf(c, signer)));
    }

    /** Save every container. */
    method Save() returns (saved: seq<Persisted>)
      requires Valid()
      ensures exists ids :: Saves(saved, ids, cloud) && forall id :: id in cloud ==> id in ids
    {
      hide PersistedOf, AllFaithful, AtHome, WithinQuota;
      saved := [];
      ghost var ids := [];
      var left := cloud.Keys;
      while left != {}
        invariant left <= cloud.Keys && Saves(saved, ids, cloud) && forall id :: id in cloud ==> id in left || id in ids
        decreases |left|
      {
        var id :| id in left;
        var p := Persist(cloud[id]);
        saved, ids, left := saved + [p], ids + [id], left - {id};
      }
    }

    /** A restarted client. A container that does not restore is left to be attached anew. */
    constructor Restored(user: Name, authors: Authors, saved: seq<Persisted>, waiting: seq<Queued>, trusted: seq<Trusted>)
      requires WithinQuota(waiting, user)
      ensures Valid() && cloud == RestoredAll(saved, authors) && this.waiting == waiting && this.trusted == trusted
      ensures this.user == user && this.authors == authors
    {
      this.user, this.authors, this.waiting, this.trusted, cloud := user, authors, waiting, trusted, map[];
      new;
      for i := 0 to |saved|
        invariant cloud == RestoredAll(saved[..i], authors) && AllFaithful(cloud, authors) && AtHome(cloud)
        invariant this.waiting == waiting && this.trusted == trusted && this.authors == authors
      {
        assert saved[..i + 1][..i] == saved[..i];
        var c := RestoreCloud(saved[i], authors);
        if c.Ok? { cloud := cloud[c.value.access.container := c.value]; }
      }
      assert saved[..|saved|] == saved;
    }
  }

  lemma MergeKeepsFaith(c: Local, s: Snapshot, authors: Authors)
    requires Faithful(c, authors)
    ensures var m := CloudMerge(c, s, authors);
      Faithful(m.c, authors) && m.c.access == c.access && m.c.keys == c.keys
  {
    hide MaxLamport;
  }
}
