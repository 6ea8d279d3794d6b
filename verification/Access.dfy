/**
 Access to a container: the genesis and a hash-chained log of grants, revocations, epoch changes
 and departures, folded into who may write in which key epoch.
 */
module Access {
  import opened Prelude
  import opened Lww

  type Name = string
  type Signer = nat
  type ContainerId = nat

  datatype Error =
    | ContextMismatch | BadSignature | BrokenChain | Forbidden | Expired | InvalidField | Crypto | Malformed | NotFound
    | Duplicate | BadAddress | PeerUnknown

  /** The user and device behind a signing key; `aliases` are other addresses of the same person. */
  datatype Author = Author(user: Name, device: Bytes, aliases: seq<Name>) {
    predicate Is(name: Name) {
      user == name || name in aliases
    }
  }

  /** Device signing keys whose owners are known from verified device logs. */
  type Authors = map<Signer, Author>

  datatype Grantee = User(name: Name) | Group(id: nat) | Unreadable

  datatype Level = Unspecified | Read | Write | Admin | Unknown {
    predicate Writes() {
      Write? || Admin?
    }
  }

  datatype Kind = Grant | Revoke | Rotate | Leave | Other

  datatype Genesis = Genesis(container: ContainerId, domain: nat, owner: Name, signer: Signer, authentic: bool)

  /** The hash of an entry, or of the genesis. Distinct contents have distinct hashes. */
  datatype Digest = OfGenesis(genesis: Genesis) | OfEntry(entry: GrantEntry)

  datatype GrantEntry = GrantEntry(
    kind: Kind, authentic: bool, container: ContainerId, grantee: Option<Grantee>, level: Level,
    keyEpoch: u64, version: nat, prev: Digest, boundary: Option<u64>, signer: Signer)

  datatype Access = Access(
    container: ContainerId, domain: nat, owner: Name, epoch: u64, version: nat, hashes: seq<Digest>,
    grants: map<Grantee, Level>, writers: map<nat, set<Grantee>>, boundaries: map<nat, u64>)
  {
    predicate WellFormed() {
      |hashes| == version + 1
    }

    function Head(): Digest
      requires WellFormed()
    {
      hashes[version]
    }

    /** The level of a user; grants to groups cover nobody here. */
    function LevelOf(user: Name): Option<Level> {
      if user == owner then Some(Admin)
      else if User(user) in grants then Some(grants[User(user)])
      else None
    }

    predicate CanWrite(user: Name) {
      LevelOf(user).Some? && LevelOf(user).value.Writes()
    }

    predicate CanAdmin(user: Name) {
      LevelOf(user) == Some(Admin)
    }

    predicate CouldWriteAt(user: Name, at: u64) {
      if user == owner then 1 <= at <= epoch
      else at in writers && User(user) in writers[at]
    }

    /** Each epoch change later than `at` that declared a boundary left `seq` on this side of it. */
    predicate WithinBoundary(at: u64, seq_: u64) {
      forall e :: e in boundaries && at < e ==> seq_ <= boundaries[e]
    }
  }

  predicate Administers(a: Access, who: Author) {
    a.CanAdmin(who.user) || exists i :: 0 <= i < |who.aliases| && a.CanAdmin(who.aliases[i])
  }

  predicate CouldWrite(a: Access, who: Author, at: u64) {
    a.CouldWriteAt(who.user, at) || exists i :: 0 <= i < |who.aliases| && a.CouldWriteAt(who.aliases[i], at)
  }

  // ── the fold ──────────────────────────────────────────────────────────────

  /** The owner alone, in the first epoch. */
  function AtGenesis(g: Genesis): Access {
    Access(g.container, g.domain, g.owner, 1, 0, [OfGenesis(g)], map[], map[1 := {}], map[])
  }

  function FromGenesis(g: Genesis, authors: Authors): (r: Result<Access, Error>)
    ensures r.Ok? ==> r.value.WellFormed() && r.value.version == 0
  {
    if !g.authentic then Err(BadSignature)
    else if g.signer !in authors || !authors[g.signer].Is(g.owner) then Err(Forbidden)
    else Ok(AtGenesis(g))
  }

  function Writers(grants: map<Grantee, Level>): set<Grantee> {
    set g | g in grants && grants[g].Writes()
  }

  /** A new epoch: its writers are those who hold the right now, and the boundary, if declared, is kept. */
  function NextEpoch(a: Access, grants: map<Grantee, Level>, boundary: Option<u64>): Access
    requires a.epoch < U64_MAX
  {
    var next: u64 := a.epoch + 1;
    a.(epoch := next, grants := grants, writers := a.writers[next := Writers(grants)],
       boundaries := if boundary.Some? then a.boundaries[next := boundary.value] else a.boundaries)
  }

  /** The link every accepted entry adds to the chain. */
  function Chained(a: Access, e: GrantEntry): Access {
    a.(version := a.version + 1, hashes := a.hashes + [OfEntry(e)])
  }

  function ApplyLeave(a: Access, e: GrantEntry, who: Author): Result<Access, Error> {
    if e.grantee.None? || e.grantee.value.Unreadable? then Err(InvalidField)
    else if !e.grantee.value.User? || !who.Is(e.grantee.value.name) || e.level != Unspecified then Err(Forbidden)
    else if e.keyEpoch != a.epoch then Err(Expired)
    else if e.grantee.value !in a.grants then Err(InvalidField)
    else Ok(Chained(a.(grants := a.grants - {e.grantee.value}), e))
  }

  function ApplyRotate(a: Access, e: GrantEntry): Result<Access, Error> {
    if a.epoch == U64_MAX || e.grantee.Some? || e.level != Unspecified || e.keyEpoch != a.epoch + 1 then Err(InvalidField)
    else Ok(Chained(NextEpoch(a, a.grants, e.boundary), e))
  }

  function ApplyRevoke(a: Access, e: GrantEntry, grantee: Grantee): Result<Access, Error> {
    if a.epoch == U64_MAX || e.level != Unspecified || e.keyEpoch != a.epoch + 1 || grantee !in a.grants then Err(InvalidField)
    else Ok(Chained(NextEpoch(a, a.grants - {grantee}, e.boundary), e))
  }

  function ApplyGrant(a: Access, e: GrantEntry, grantee: Grantee): Result<Access, Error> {
    if e.level == Unspecified then Err(InvalidField)
    else if e.keyEpoch != a.epoch then Err(Expired)
    else
      var now := if a.epoch in a.writers then a.writers[a.epoch] else {};
      Ok(Chained(a.(grants := a.grants[grantee := e.level],
                    writers := if e.level.Writes() then a.writers[a.epoch := now + {grantee}] else a.writers), e))
  }

  /** Apply one entry; on an error the access is what it was. */
  function Apply(a: Access, e: GrantEntry, authors: Authors): (r: Result<Access, Error>)
    requires a.WellFormed()
    ensures r.Ok? ==> r.value.WellFormed() && r.value.version == a.version + 1
  {
    if e.kind == Other then Err(ContextMismatch)
    else if !e.authentic then Err(BadSignature)
    else if e.container != a.container then Err(ContextMismatch)
    else if e.version != a.version + 1 || e.prev != a.Head() then Err(BrokenChain)
    else if e.signer !in authors then Err(Forbidden)
    else if e.kind == Leave then ApplyLeave(a, e, authors[e.signer])
    else if !Administers(a, authors[e.signer]) then Err(Forbidden)
    else if e.kind == Rotate then ApplyRotate(a, e)
    else if e.grantee.None? || e.grantee.value.Unreadable? then Err(InvalidField)
    else if e.grantee.value == User(a.owner) then Err(Forbidden)
    else if e.level == Unknown then Err(InvalidField)
    else if e.kind == Revoke then ApplyRevoke(a, e, e.grantee.value)
    else ApplyGrant(a, e, e.grantee.value)
  }

  function ReplayFrom(a: Access, es: seq<GrantEntry>, authors: Authors): (r: Result<Access, Error>)
    requires a.WellFormed()
    ensures r.Ok? ==> r.value.WellFormed() && r.value.version == a.version + |es|
    decreases |es|
  {
    if es == [] then Ok(a)
    else
      var b := Apply(a, es[0], authors);
      if b.Err? then b else ReplayFrom(b.value, es[1..], authors)
  }

  function Replay(g: Genesis, es: seq<GrantEntry>, authors: Authors): (r: Result<Access, Error>)
    ensures r.Ok? ==> r.value.WellFormed() && r.value.version == |es|
  {
    var a := FromGenesis(g, authors);
    if a.Err? then a else ReplayFrom(a.value, es, authors)
  }

  // ── the checks made against it ────────────────────────────────────────────

  /** May this signer have written at this epoch and this place of the journal? */
  function AuthorAt(a: Access, signer: Signer, at: u64, seq_: u64, authors: Authors): Result<Author, Error> {
    if at > a.epoch then Err(Expired)
    else if !a.WithinBoundary(at, seq_) then Err(Forbidden)
    else if signer !in authors then Err(Forbidden)
    else if !CouldWrite(a, authors[signer], at) then Err(Forbidden)
    else Ok(authors[signer])
  }

  datatype KeyShare = KeyShare(container: ContainerId, domain: nat, keyEpoch: u64, key: Option<nat>, version: nat, head: Digest)

  /** The message that hands out the key of an epoch, with the head of the sharer's log. */
  function ShareOf(a: Access, epoch: u64, key: nat): Result<KeyShare, Error>
    requires a.WellFormed()
  {
    if epoch == 0 || epoch > a.epoch then Err(InvalidField)
    else Ok(KeyShare(a.container, a.domain, epoch, Some(key), a.version, a.Head()))
  }

  /** Accept an epoch key shared by `sender`: only from an admin whose log head is in our own history. */
  function AcceptShareFrom(a: Access, s: KeyShare, sender: Name): Result<(u64, nat), Error>
    requires a.WellFormed()
  {
    if s.container != a.container || s.domain != a.domain then Err(ContextMismatch)
    else if !a.CanAdmin(sender) then Err(Forbidden)
    else if s.version > a.version then Err(Expired)
    else if s.head != a.hashes[s.version] then Err(BrokenChain)
    else if s.keyEpoch == 0 || s.keyEpoch > a.epoch then Err(InvalidField)
    else if s.key.None? then Err(InvalidField)
    else Ok((s.keyEpoch, s.key.value))
  }

  /** The same for a sender known by several addresses: the first address that is accepted. */
  function AcceptShare(a: Access, s: KeyShare, senders: seq<Name>): (r: Result<(u64, nat), Error>)
    requires a.WellFormed()
    ensures r.Ok? ==> 1 <= r.value.0 <= a.epoch && r.value.0 == s.keyEpoch && s.key == Some(r.value.1)
    decreases |senders|
  {
    AcceptShareAfter(a, s, senders, Forbidden)
  }

  function AcceptShareAfter(a: Access, s: KeyShare, senders: seq<Name>, last: Error): (r: Result<(u64, nat), Error>)
    requires a.WellFormed()
    ensures r.Ok? ==> 1 <= r.value.0 <= a.epoch && r.value.0 == s.keyEpoch && s.key == Some(r.value.1)
    decreases |senders|
  {
    if senders == [] then Err(last)
    else
      var r := AcceptShareFrom(a, s, senders[0]);
      if r.Ok? then r
      else AcceptShareAfter(a, s, senders[1..], if r.error == Forbidden then last else r.error)
  }

  // ── replay ────────────────────────────────────────────────────────────────

  lemma {:induction false} ReplayFromAppend(a: Access, es: seq<GrantEntry>, fs: seq<GrantEntry>, authors: Authors)
    requires a.WellFormed()
    ensures ReplayFrom(a, es + fs, authors) ==
            (var m := ReplayFrom(a, es, authors); if m.Err? then m else ReplayFrom(m.value, fs, authors))
    decreases |es|
  {
    if es == [] {
      assert es + fs == fs;
    } else {
      assert (es + fs)[0] == es[0] && (es + fs)[1..] == es[1..] + fs;
      var b := Apply(a, es[0], authors);
      if b.Ok? { ReplayFromAppend(b.value, es[1..], fs, authors); }
    }
  }

  /** One more entry in the log is one more step of the fold. */
  lemma ReplayOneMore(g: Genesis, es: seq<GrantEntry>, e: GrantEntry, authors: Authors)
    requires Replay(g, es, authors).Ok?
    ensures Replay(g, es + [e], authors) == Apply(Replay(g, es, authors).value, e, authors)
  {
    ReplayFromAppend(FromGenesis(g, authors).value, es, [e], authors);
  }

  /** A prefix of a log that replays, replays. */
  lemma ReplayPrefix(g: Genesis, es: seq<GrantEntry>, k: nat, authors: Authors)
    requires k <= |es| && Replay(g, es, authors).Ok?
    ensures Replay(g, es[..k], authors).Ok?
  {
    assert es == es[..k] + es[k..];
    ReplayFromAppend(FromGenesis(g, authors).value, es[..k], es[k..], authors);
  }

  /** `a` is a state of access whose chain of hashes spells out exactly this genesis and this log. */
  ghost predicate Spells(a: Access, g: Genesis, es: seq<GrantEntry>) {
    && a.WellFormed() && a.version == |es|
    && a.container == g.container && a.owner == g.owner && a.domain == g.domain
    && 1 <= a.epoch <= |es| + 1
    && a.hashes[0] == OfGenesis(g)
    && (forall i :: 0 <= i < |es| ==> a.hashes[i + 1] == OfEntry(es[i]) && es[i].prev == a.hashes[i])
    && (forall e :: e in a.writers ==> 1 <= e <= a.epoch)
    && (forall e :: e in a.boundaries ==> 1 <= e <= a.epoch)
  }

  lemma ApplySpells(a: Access, g: Genesis, es: seq<GrantEntry>, e: GrantEntry, authors: Authors)
    requires Spells(a, g, es) && Apply(a, e, authors).Ok?
    ensures Spells(Apply(a, e, authors).value, g, es + [e])
    ensures a.epoch <= Apply(a, e, authors).value.epoch
  {
    var b := Apply(a, e, authors).value;
    assert b.hashes == a.hashes + [OfEntry(e)] && e.prev == a.hashes[|es|];
  }

  lemma {:induction false} ReplayFromSpells(a: Access, g: Genesis, done: seq<GrantEntry>, es: seq<GrantEntry>, authors: Authors)
    requires Spells(a, g, done) && ReplayFrom(a, es, authors).Ok?
    ensures Spells(ReplayFrom(a, es, authors).value, g, done + es)
    ensures a.epoch <= ReplayFrom(a, es, authors).value.epoch
    decreases |es|
  {
    if es == [] {
      assert done + es == done;
    } else {
      assert a.WellFormed();
      hide Apply, Spells;
      ApplySpells(a, g, done, es[0], authors);
      assert Apply(a, es[0], authors).Ok?;
      ReplayFromSpells(Apply(a, es[0], authors).value, g, done + [es[0]], es[1..], authors);
      assert done + [es[0]] + es[1..] == done + es;
    }
  }

  /** What every replayed access satisfies. */
  lemma ReplayShape(g: Genesis, es: seq<GrantEntry>, authors: Authors)
    requires Replay(g, es, authors).Ok?
    ensures Spells(Replay(g, es, authors).value, g, es)
  {
    ReplayFromSpells(FromGenesis(g, authors).value, g, [], es, authors);
    assert [] + es == es;
  }

  lemma HeadTellsLength(a: Access, g: Genesis, es: seq<GrantEntry>)
    requires Spells(a, g, es)
    ensures a.Head() == if es == [] then OfGenesis(g) else OfEntry(es[|es| - 1])
  {
    if es != [] {
      var k := |es| - 1;
      assert es[k] == es[|es| - 1] && k + 1 == a.version;
    }
  }

  /** A head hash names one log: two replayable logs with the same head are the same log, so a fork shows. */
  lemma {:induction false} SameHeadSameLog(
    g: Genesis, es: seq<GrantEntry>, authors: Authors, g': Genesis, fs: seq<GrantEntry>, authors': Authors)
    requires Replay(g, es, authors).Ok? && Replay(g', fs, authors').Ok?
    requires Replay(g, es, authors).value.Head() == Replay(g', fs, authors').value.Head()
    ensures g == g' && es == fs
    decreases |es|
  {
    ReplayShape(g, es, authors);
    ReplayShape(g', fs, authors');
    HeadTellsLength(Replay(g, es, authors).value, g, es);
    HeadTellsLength(Replay(g', fs, authors').value, g', fs);
    if es == [] || fs == [] {
    } else {
      var k, l := |es| - 1, |fs| - 1;
      assert es == es[..k] + [es[k]] && fs == fs[..l] + [fs[l]];
      ReplayPrefix(g, es, k, authors);
      ReplayPrefix(g', fs, l, authors');
      ReplayShape(g, es[..k], authors);
      ReplayShape(g', fs[..l], authors');
      HashesOfPrefix(g, es, k, authors);
      HashesOfPrefix(g', fs, l, authors');
      SameHeadSameLog(g, es[..k], authors, g', fs[..l], authors');
    }
  }

  lemma HashesOfPrefix(g: Genesis, es: seq<GrantEntry>, k: nat, authors: Authors)
    requires Replay(g, es, authors).Ok? && k <= |es|
    ensures Replay(g, es[..k], authors).Ok?
    ensures Replay(g, es[..k], authors).value.Head() == Replay(g, es, authors).value.hashes[k]
  {
    ReplayShape(g, es, authors);
    ReplayPrefix(g, es, k, authors);
    ReplayShape(g, es[..k], authors);
    if k > 0 { assert es[..k][k - 1] == es[k - 1]; }
  }

  /** A key is accepted only from a sharer whose own log is a prefix of ours. */
  lemma AcceptedSharerHoldsAPrefix(
    g: Genesis, es: seq<GrantEntry>, authors: Authors, s: KeyShare, senders: seq<Name>,
    g': Genesis, fs: seq<GrantEntry>, authors': Authors)
    requires Replay(g, es, authors).Ok? && Replay(g', fs, authors').Ok?
    requires s.version == |fs| && s.head == Replay(g', fs, authors').value.Head()
    requires AcceptShare(Replay(g, es, authors).value, s, senders).Ok?
    ensures g' == g && |fs| <= |es| && fs == es[..|fs|]
  {
    AcceptedMatchesHead(Replay(g, es, authors).value, s, senders, Forbidden);
    ReplayShape(g, es, authors);
    ReplayShape(g', fs, authors');
    HashesOfPrefix(g, es, |fs|, authors);
    SameHeadSameLog(g, es[..|fs|], authors, g', fs, authors');
  }

  lemma {:induction false} AcceptedMatchesHead(a: Access, s: KeyShare, senders: seq<Name>, last: Error)
    requires a.WellFormed() && AcceptShareAfter(a, s, senders, last).Ok?
    ensures s.version <= a.version && s.head == a.hashes[s.version]
    ensures exists who :: who in senders && a.CanAdmin(who)
    decreases |senders|
  {
    var r := AcceptShareFrom(a, s, senders[0]);
    if r.Ok? {
      assert senders[0] in senders;
    } else {
      AcceptedMatchesHead(a, s, senders[1..], if r.error == Forbidden then last else r.error);
    }
  }

  /** `more` knows every device of `less`, perhaps with further addresses of its owner. */
  ghost predicate KnowsMore(less: Authors, more: Authors) {
    forall k :: k in less ==> k in more && SamePerson(less[k], more[k])
  }

  ghost predicate SamePerson(a: Author, b: Author) {
    a.user == b.user && a.device == b.device && forall n :: n in a.aliases ==> n in b.aliases
  }

  lemma AdministersStill(a: Access, who: Author, known: Author)
    requires SamePerson(who, known) && Administers(a, who)
    ensures Administers(a, known)
  {
    if !a.CanAdmin(who.user) {
      var i :| 0 <= i < |who.aliases| && a.CanAdmin(who.aliases[i]);
      assert who.aliases[i] in known.aliases;
    }
  }

  /** Knowing more devices, or more addresses of their owners, never changes a step that succeeded. */
  lemma {:induction false} ReplayWithMoreAuthors(a: Access, es: seq<GrantEntry>, authors: Authors, more: Authors)
    requires a.WellFormed() && ReplayFrom(a, es, authors).Ok? && KnowsMore(authors, more)
    ensures ReplayFrom(a, es, more) == ReplayFrom(a, es, authors)
    decreases |es|
  {
    if es != [] {
      var e := es[0];
      if Administers(a, authors[e.signer]) { AdministersStill(a, authors[e.signer], more[e.signer]); }
      ReplayWithMoreAuthors(Apply(a, e, authors).value, es[1..], authors, more);
    }
  }

  lemma FullReplayWithMoreAuthors(g: Genesis, es: seq<GrantEntry>, authors: Authors, more: Authors)
    requires Replay(g, es, authors).Ok? && KnowsMore(authors, more)
    ensures Replay(g, es, more) == Replay(g, es, authors)
  {
    ReplayWithMoreAuthors(FromGenesis(g, authors).value, es, authors, more);
  }

  // ── what an entry does to the verdicts on operations ──────────────────────

  predicate Accepted(a: Access, signer: Signer, at: u64, seq_: u64, authors: Authors) {
    AuthorAt(a, signer, at, seq_, authors).Ok?
  }

  /** The entry declares a boundary this operation, of an epoch that is already old, lies beyond. */
  predicate Cuts(e: GrantEntry, seq_: u64) {
    (e.kind == Revoke || e.kind == Rotate) && e.boundary.Some? && e.boundary.value < seq_
  }

  /** The entry lets this author write in the epoch of the operation. */
  predicate Admits(a: Access, e: GrantEntry, signer: Signer, at: u64, seq_: u64, authors: Authors) {
    && e.kind == Grant && e.level.Writes() && at == a.epoch
    && signer in authors && e.grantee.Some? && e.grantee.value.User? && authors[signer].Is(e.grantee.value.name)
    && a.WithinBoundary(at, seq_)
  }

  lemma AdmittedCouldWrite(a: Access, b: Access, e: GrantEntry, signer: Signer, at: u64, seq_: u64, authors: Authors)
    requires a.WellFormed() && Apply(a, e, authors) == Ok(b)
    requires Admits(a, e, signer, at, seq_, authors)
    ensures CouldWrite(b, authors[signer], at)
  {
    var who, name := authors[signer], e.grantee.value.name;
    assert b.CouldWriteAt(name, at);
    if who.user != name {
      var i :| 0 <= i < |who.aliases| && who.aliases[i] == name;
    }
  }

  lemma WritersOnlyChangeByGrant(a: Access, b: Access, e: GrantEntry, authors: Authors, name: Name, at: u64)
    requires a.WellFormed() && Apply(a, e, authors) == Ok(b) && at <= a.epoch
    ensures a.CouldWriteAt(name, at) ==> b.CouldWriteAt(name, at)
    ensures b.CouldWriteAt(name, at) && !a.CouldWriteAt(name, at) ==>
              e.kind == Grant && e.level.Writes() && at == a.epoch && e.grantee == Some(User(name))
  {
  }

  lemma WithinBoundaryAfter(a: Access, b: Access, e: GrantEntry, authors: Authors, at: u64, seq_: u64)
    requires a.WellFormed() && Apply(a, e, authors) == Ok(b) && at <= a.epoch
    requires forall k :: k in a.boundaries ==> k <= a.epoch
    ensures b.WithinBoundary(at, seq_) <==> a.WithinBoundary(at, seq_) && !Cuts(e, seq_)
  {
    if e.kind == Revoke || e.kind == Rotate {
      assert forall k :: k in a.boundaries ==> k in b.boundaries && b.boundaries[k] == a.boundaries[k];
      if e.boundary.Some? {
        assert a.epoch + 1 in b.boundaries && b.boundaries[a.epoch + 1] == e.boundary.value;
      }
    } else {
      assert b.boundaries == a.boundaries;
    }
  }

  /**
   Whether a grant entry learned late changes the verdict on an operation of an epoch already known:
   exactly when it cuts off an accepted one or lets in a refused one.
   */
  lemma VerdictMovesIff(a: Access, b: Access, e: GrantEntry, signer: Signer, at: u64, seq_: u64, authors: Authors)
    requires a.WellFormed() && Apply(a, e, authors) == Ok(b) && at <= a.epoch
    requires forall k :: k in a.boundaries ==> k <= a.epoch
    ensures Accepted(a, signer, at, seq_, authors) ==>
              (Accepted(b, signer, at, seq_, authors) <==> !Cuts(e, seq_))
    ensures !Accepted(a, signer, at, seq_, authors) ==>
              (Accepted(b, signer, at, seq_, authors) <==> Admits(a, e, signer, at, seq_, authors))
  {
    WithinBoundaryAfter(a, b, e, authors, at, seq_);
    if signer in authors {
      var who := authors[signer];
      WritersOnlyChangeByGrant(a, b, e, authors, who.user, at);
      forall i | 0 <= i < |who.aliases|
        ensures a.CouldWriteAt(who.aliases[i], at) ==> b.CouldWriteAt(who.aliases[i], at)
        ensures b.CouldWriteAt(who.aliases[i], at) && !a.CouldWriteAt(who.aliases[i], at) ==>
                  e.kind == Grant && e.level.Writes() && at == a.epoch && e.grantee == Some(User(who.aliases[i]))
      {
        WritersOnlyChangeByGrant(a, b, e, authors, who.aliases[i], at);
      }
      if Admits(a, e, signer, at, seq_, authors) { AdmittedCouldWrite(a, b, e, signer, at, seq_, authors); }
    }
  }

  /** After an epoch change that declared a boundary, no log extension accepts an older operation beyond it. */
  lemma {:induction false} BoundaryHoldsForever(
    a: Access, es: seq<GrantEntry>, authors: Authors, epoch: u64, signer: Signer, at: u64, seq_: u64)
    requires a.WellFormed() && ReplayFrom(a, es, authors).Ok?
    requires epoch in a.boundaries && epoch <= a.epoch && at < epoch && a.boundaries[epoch] < seq_
    ensures !Accepted(ReplayFrom(a, es, authors).value, signer, at, seq_, authors)
    decreases |es|
  {
    if es != [] {
      BoundaryHoldsForever(Apply(a, es[0], authors).value, es[1..], authors, epoch, signer, at, seq_);
    }
  }

  /** The user has no grant, and in no epoch from `from` on is among the writers. */
  ghost predicate Out(a: Access, name: Name, from: nat) {
    name != a.owner && User(name) !in a.grants && forall k :: from <= k && k in a.writers ==> User(name) !in a.writers[k]
  }

  lemma StaysOut(a: Access, e: GrantEntry, authors: Authors, name: Name, from: nat)
    requires a.WellFormed() && Apply(a, e, authors).Ok? && Out(a, name, from)
    requires e.kind == Grant ==> e.grantee != Some(User(name))
    ensures Out(Apply(a, e, authors).value, name, from)
  {
  }

  /** A revoked user writes in no epoch from the revocation on, in any extension that does not grant to them again. */
  lemma {:induction false} RevokedStaysOut(a: Access, es: seq<GrantEntry>, authors: Authors, name: Name, from: nat, at: u64)
    requires a.WellFormed() && ReplayFrom(a, es, authors).Ok?
    requires Out(a, name, from) && from <= at
    requires forall e :: e in es && e.kind == Grant ==> e.grantee != Some(User(name))
    ensures !ReplayFrom(a, es, authors).value.CouldWriteAt(name, at)
    decreases |es|
  {
    if es != [] {
      assert es[0] in es;
      assert forall e :: e in es[1..] ==> e in es;
      StaysOut(a, es[0], authors, name, from);
      hide Apply, Out;
      RevokedStaysOut(Apply(a, es[0], authors).value, es[1..], authors, name, from, at);
    }
  }

  /** The revocation itself puts the user in that position, and changes nobody else's level. */
  lemma RevokeShutsOut(a: Access, e: GrantEntry, authors: Authors, name: Name)
    requires a.WellFormed() && Apply(a, e, authors).Ok?
    requires forall k :: k in a.writers ==> k <= a.epoch
    requires e.kind == Revoke && e.grantee == Some(User(name))
    ensures var b := Apply(a, e, authors).value;
      && b.epoch == a.epoch + 1 && Out(b, name, b.epoch) && b.LevelOf(name) == None
      && forall other :: other != name ==> b.LevelOf(other) == a.LevelOf(other)
  {
  }

  /**
   Who leaves has no level any more, nobody else's changes, and the rights in all epochs so far stay as they are: only the
   next change of the epoch shuts out who left.
   */
  lemma LeaveShutsOut(a: Access, e: GrantEntry, authors: Authors, name: Name)
    requires a.WellFormed() && Apply(a, e, authors).Ok? && name != a.owner
    requires forall k :: k in a.writers ==> k <= a.epoch
    requires e.kind == Leave && e.grantee == Some(User(name))
    ensures var b := Apply(a, e, authors).value;
      && b.epoch == a.epoch && Out(b, name, b.epoch + 1) && b.LevelOf(name) == None
      && (forall other :: other != name ==> b.LevelOf(other) == a.LevelOf(other))
      && forall other, at :: b.CouldWriteAt(other, at) <==> a.CouldWriteAt(other, at)
  {
  }

  /** And no extension that does not grant to them again lets them write in an epoch after the one they left in. */
  lemma LeftStaysOut(a: Access, e: GrantEntry, es: seq<GrantEntry>, authors: Authors, name: Name, at: u64)
    requires a.WellFormed() && Apply(a, e, authors).Ok? && ReplayFrom(Apply(a, e, authors).value, es, authors).Ok?
    requires name != a.owner && a.epoch < at && forall k :: k in a.writers ==> k <= a.epoch
    requires e.kind == Leave && e.grantee == Some(User(name))
    requires forall f :: f in es && f.kind == Grant ==> f.grantee != Some(User(name))
    ensures !ReplayFrom(Apply(a, e, authors).value, es, authors).value.CouldWriteAt(name, at)
  {
    LeaveShutsOut(a, e, authors, name);
    RevokedStaysOut(Apply(a, e, authors).value, es, authors, name, a.epoch + 1, at);
  }
}
