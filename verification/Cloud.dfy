/**
 One container of the cloud: granting with rollback, revoking, and changing the epoch; exactly when each
 succeeds and what it leaves.
 */
module Cloud {
  import opened Prelude
  import opened Lww
  import opened Guard
  import opened Access
  import opened Journal
  import opened Convergence
  import opened Ingestion

  const CLOUD_DOMAIN: nat := 2
  const MAX_WAITING: nat := 64
  const MAX_WAITING_PER_SENDER: nat := 8

  type Containers = map<ContainerId, Local>
  type NamesOf = map<Name, seq<Name>>

  /** A key share, with who sent it. */
  datatype Queued = Queued(sender: Name, share: KeyShare)

  /** A key from one's own export. */
  datatype Trusted = Trusted(id: ContainerId, epoch: u64, key: EpochKey)

  /** All addresses of a person, the given one first. */
  function Names(names: NamesOf, name: Name): seq<Name> {
    if name in names then [name] + names[name] else [name]
  }

  /** The address under which I am the owner or have a grant, or else my present one. */
  function MyNameIn(mine: seq<Name>, user: Name, a: Access): Name {
    if mine == [] then user
    else if mine[0] == a.owner || User(mine[0]) in a.grants then mine[0]
    else MyNameIn(mine[1..], user, a)
  }

  lemma NamesAre(names: NamesOf, name: Name, n: Name)
    ensures n in Names(names, name) <==> n == name || (name in names && n in names[name])
  {
  }

  /** If any of my addresses owns the container or stands in its log, it is the first such; if none does, the present one. */
  lemma {:induction false} MyNameIs(mine: seq<Name>, user: Name, a: Access)
    ensures var me := MyNameIn(mine, user, a);
      || (me == user && forall n :: n in mine ==> a.LevelOf(n) == None)
      || exists i :: 0 <= i < |mine| && mine[i] == me && a.LevelOf(me).Some? && forall l :: 0 <= l < i ==> a.LevelOf(mine[l]) == None
  {
    if mine != [] && a.LevelOf(mine[0]) == None {
      MyNameIs(mine[1..], user, a);
      var me := MyNameIn(mine, user, a);
      if i :| 0 <= i < |mine[1..]| && mine[1..][i] == me && a.LevelOf(me).Some? && forall l :: 0 <= l < i ==> a.LevelOf(mine[1..][l]) == None {
        assert mine[i + 1] == me && forall l :: 0 < l < i + 1 ==> mine[l] == mine[1..][l - 1];
      }
    }
  }

  // ── one's own entries of the grant log ────────────────────────────────────

  /** An entry signed by one of our devices at the head of our log. */
  function SignEntry(
    a: Access, kind: Kind, grantee: Option<Grantee>, level: Level, epoch: u64, boundary: Option<u64>, signer: Signer): GrantEntry
    requires a.WellFormed()
  {
    GrantEntry(kind, true, a.container, grantee, level, epoch, a.version + 1, a.Head(), boundary, signer)
  }

  /** The device is known and its owner administers the container. */
  predicate Signs(a: Access, signer: Signer, authors: Authors) {
    signer in authors && Administers(a, authors[signer])
  }

  predicate MayRotate(c: Local, me: Name, signer: Signer, authors: Authors) {
    c.access.CanAdmin(me) && c.access.epoch in c.keys && c.access.epoch < U64_MAX && Signs(c.access, signer, authors)
  }

  /** Only someone with a grant can be removed, and for that no key is needed. */
  predicate MayRevoke(c: Local, me: Name, user: Name, signer: Signer, authors: Authors) {
    && c.access.CanAdmin(me) && c.access.epoch < U64_MAX && Signs(c.access, signer, authors)
    && user != c.access.owner && User(user) in c.access.grants
  }

  /** The local half of a change: the log grows by the entries to be sent, nothing else but the key ring changes. */
  ghost predicate Extended(c: Local, d: Local, sent: seq<GrantEntry>, authors: Authors) {
    && c.access.WellFormed()
    && d == c.(access := d.access, grants := c.grants + sent, keys := d.keys)
    && ReplayFrom(c.access, sent, authors) == Ok(d.access)
  }

  /** The container enters a new epoch under a new key; what older epochs wrote beyond our cursor is cut off. */
  ghost predicate EpochChanged(c: Local, d: Local, key: EpochKey) {
    && c.access.epoch < U64_MAX
    && d.access.epoch == c.access.epoch + 1
    && d.keys == c.keys[d.access.epoch := key]
    && d.access.epoch in d.access.boundaries && d.access.boundaries[d.access.epoch] == c.headSeq
  }

  lemma ExtendedOnce(c: Local, d: Local, e: GrantEntry, authors: Authors)
    requires c.access.WellFormed() && Apply(c.access, e, authors) == Ok(d.access)
    requires d == c.(access := d.access, grants := c.grants + [e], keys := d.keys)
    ensures Extended(c, d, [e], authors)
  {
    assert [e][1..] == [];
  }

  /** A new epoch without a change of members. */
  method ChangeEpoch(c: Local, me: Name, signer: Signer, authors: Authors, key: EpochKey)
    returns (d: Local, r: Result<GrantEntry, Error>)
    requires c.access.WellFormed()
    ensures r.Ok? <==> MayRotate(c, me, signer, authors)
    ensures r.Err? ==> d == c
    ensures r.Ok? ==> Extended(c, d, [r.value], authors) && EpochChanged(c, d, key) && d.access.grants == c.access.grants
    ensures r.Ok? ==> d.access.writers == c.access.writers[d.access.epoch := Writers(c.access.grants)]
    ensures r.Ok? ==> forall n ::
              d.access.LevelOf(n) == c.access.LevelOf(n) && (d.access.CouldWriteAt(n, d.access.epoch) <==> c.access.CanWrite(n))
  {
    d := c;
    if !c.access.CanAdmin(me) || c.access.epoch !in c.keys { return c, Err(Forbidden); }
    if c.access.epoch == U64_MAX { return c, Err(InvalidField); }
    var e := SignEntry(c.access, Kind.Rotate, None, Unspecified, c.access.epoch + 1, Some(c.headSeq), signer);
    var applied := Apply(c.access, e, authors);
    if applied.Err? { return c, Err(applied.error); }
    d := d.(access := applied.value, grants := d.grants + [e]);
    d := d.(keys := d.keys[d.access.epoch := key]);
    ExtendedOnce(c, d, e, authors);
    return d, Ok(e);
  }

  /** Remove a member: the grant goes, the epoch changes. */
  method TakeAway(c: Local, me: Name, user: Name, signer: Signer, authors: Authors, key: EpochKey)
    returns (d: Local, r: Result<GrantEntry, Error>)
    requires c.access.WellFormed()
    ensures r.Ok? <==> MayRevoke(c, me, user, signer, authors)
    ensures r.Err? ==> d == c
    ensures r.Ok? ==> Extended(c, d, [r.value], authors) && EpochChanged(c, d, key)
    ensures r.Ok? ==> d.access.LevelOf(user) == None && forall n :: n != user ==>
              d.access.LevelOf(n) == c.access.LevelOf(n) && (d.access.CouldWriteAt(n, d.access.epoch) <==> c.access.CanWrite(n))
    ensures r.Ok? && (forall k :: k in c.access.writers ==> k <= c.access.epoch) ==> Out(d.access, user, d.access.epoch)
  {
    if !c.access.CanAdmin(me) { return c, Err(Forbidden); }
    if c.access.epoch == U64_MAX { return c, Err(InvalidField); }
    var e := SignEntry(c.access, Kind.Revoke, Some(User(user)), Unspecified, c.access.epoch + 1, Some(c.headSeq), signer);
    var applied := Apply(c.access, e, authors);
    if applied.Err? { return c, Err(applied.error); }
    d := c.(access := applied.value, grants := c.grants + [e]);
    d := d.(keys := d.keys[d.access.epoch := key]);
    ExtendedOnce(c, d, e, authors);
    return d, Ok(e);
  }

  function LevelFor(write: bool): Level {
    if write then Write else Read
  }

  /** An editor becomes a reader: the epoch must change too, or the right to write in this one would stay. */
  predicate Demotes(a: Access, user: Name, write: bool) {
    !write && User(user) in a.grants && a.grants[User(user)].Writes()
  }

  predicate HasAlready(a: Access, user: Name, write: bool) {
    User(user) in a.grants && a.grants[User(user)] == LevelFor(write)
  }

  /** The person administers the container by another name than `user`. */
  predicate AdministersApartFrom(a: Access, who: Author, user: Name) {
    || (who.user != user && a.CanAdmin(who.user))
    || exists i :: 0 <= i < |who.aliases| && who.aliases[i] != user && a.CanAdmin(who.aliases[i])
  }

  /** Who demotes must still administer the container afterwards, to change the epoch; a new grant must reach its user. */
  predicate MayGive(c: Local, me: Name, user: Name, write: bool, signer: Signer, authors: Authors, sendable: bool) {
    && c.access.CanAdmin(me) && c.access.epoch in c.keys
    && (HasAlready(c.access, user, write)
        || (Signs(c.access, signer, authors) && user != c.access.owner
            && if Demotes(c.access, user, write)
               then me != user && c.access.epoch < U64_MAX && AdministersApartFrom(c.access, authors[signer], user)
               else sendable))
  }

  /**
   Give a user access or change their role. The grant is applied before the messages to the user are
   built; if building them fails, the container is put back as it was.
   */
  method GiveAccess(c: Local, me: Name, user: Name, write: bool, signer: Signer, authors: Authors, sendable: bool, key: EpochKey)
    returns (d: Local, r: Result<seq<GrantEntry>, Error>)
    requires c.access.WellFormed()
    ensures r.Ok? <==> MayGive(c, me, user, write, signer, authors, sendable)
    ensures r.Err? ==> d == c
    ensures r.Ok? ==> Extended(c, d, r.value, authors) && User(user) in d.access.grants && d.access.grants[User(user)] == LevelFor(write)
    ensures r.Ok? && Demotes(c.access, user, write) ==>
              EpochChanged(c, d, key) && d.access.epoch in d.access.writers && User(user) !in d.access.writers[d.access.epoch]
    ensures r.Ok? && !Demotes(c.access, user, write) ==> d.keys == c.keys && d.access.epoch == c.access.epoch
    ensures r.Ok? ==> d.access.grants == c.access.grants[User(user) := LevelFor(write)]
    ensures r.Ok? ==> (r.value == [] <==> HasAlready(c.access, user, write))
    ensures r.Ok? ==> forall n :: n != user ==> d.access.LevelOf(n) == c.access.LevelOf(n)
    ensures r.Ok? && user != c.access.owner ==> d.access.LevelOf(user) == Some(if write then Write else Read)
    // an editor made a reader can no longer write, in the epoch that begins with it
    ensures r.Ok? && user != c.access.owner && c.access.CanWrite(user) && !write ==>
              d.access.epoch == c.access.epoch + 1 && !d.access.CouldWriteAt(user, d.access.epoch)
  {
    if !c.access.CanAdmin(me) || c.access.epoch !in c.keys { return c, Err(Forbidden); }
    var level, grantee := LevelFor(write), User(user);
    if HasAlready(c.access, user, write) {
      assert c.access.grants == c.access.grants[grantee := level];
      return c, Ok([]);
    }
    var e := SignEntry(c.access, Kind.Grant, Some(grantee), level, c.access.epoch, None, signer);
    var applied := Apply(c.access, e, authors);
    if applied.Err? { return c, Err(applied.error); }
    d := c.(access := applied.value, grants := c.grants + [e]);
    ExtendedOnce(c, d, e, authors);
    if Demotes(c.access, user, write) {
      var rotated: Result<GrantEntry, Error>;
      ghost var granted := d;
      d, rotated := ChangeEpoch(d, me, signer, authors, key);
      if rotated.Ok? {
        ExtendedTwice(c, granted, d, e, rotated.value, authors);
        return d, Ok([e, rotated.value]);
      }
      d := d.(access := c.access, grants := d.grants[..|c.grants|]);
      assert d.grants == c.grants;
      return d, Err(rotated.error);
    } else if !sendable {
      d := d.(access := c.access, grants := d.grants[..|c.grants|]);
      assert d.grants == c.grants;
      return d, Err(PeerUnknown);
    }
    return d, Ok([e]);
  }

  lemma ExtendedTwice(c: Local, d: Local, f: Local, e: GrantEntry, e': GrantEntry, authors: Authors)
    requires Extended(c, d, [e], authors) && Extended(d, f, [e'], authors)
    ensures Extended(c, f, [e, e'], authors)
  {
    ReplayFromAppend(c.access, [e], [e'], authors);
    assert [e] + [e'] == [e, e'] && c.grants + [e] + [e'] == c.grants + [e, e'];
  }
}
