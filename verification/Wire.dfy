/**
 The field encoding of messages as the bot writes and reads it: a key, which holds the number of the field
 and its kind, then a number or a length and as many bytes. Reading cuts a field off silently where the
 message ends.
 */
module Wire {
  import opened Prelude
  import opened Varint

  /** A field of a message. Reading also meets fixed-width fields, which nothing here writes. */
  datatype Field = Number(num: nat, value: nat) | Bytes(num: nat, bytes: seq<byte>) | Fixed(num: nat, bytes: seq<byte>)

  /** A field, and how far the reader moved. */
  datatype Got = Got(field: Field, moved: nat)

  datatype Failure = Truncated | LongVarint | WireType

  predicate Writable(f: Field) {
    match f
    case Number(num, value) => num * 8 + 2 < TWO_TO_64 && value < TWO_TO_64
    case Bytes(num, bytes) => num * 8 + 2 < TWO_TO_64 && |bytes| < TWO_TO_64
    case Fixed(_, _) => false
  }

  function EncodeField(f: Field): seq<byte> {
    match f
    case Number(num, value) => Encode(num * 8) + Encode(value)
    case Bytes(num, bytes) => Encode(num * 8 + 2) + Encode(|bytes|) + bytes
    case Fixed(num, bytes) => Encode(num * 8 + if |bytes| == 8 then 1 else 5) + bytes
  }

  function EncodeFields(fs: seq<Field>): seq<byte> {
    if fs == [] then [] else EncodeField(fs[0]) + EncodeFields(fs[1..])
  }

  // ── reading ───────────────────────────────────────────────────────────────

  /** The bytes from `i`, at most `n`, as a slice gives them: fewer if the message ends before. */
  function Slice(buf: seq<byte>, i: nat, n: nat): seq<byte>
    requires i <= |buf|
  {
    buf[i..Min(i + n, |buf|)]
  }

  function Lacking(r: Read): Failure
    requires !r.Value?
  {
    if r.TooShort? then Truncated else LongVarint
  }

  /** One field, and how far the reader moved: past the end if the message was cut off. */
  function ReadField(buf: seq<byte>): (r: Result<Got, Failure>)
    ensures r.Ok? ==> r.value.moved >= 1
  {
    var key := ReadVarint(buf, 10);
    if !key.Value? then Err(Lacking(key)) else ReadBody(buf, key.used, key.v / 8, key.v % 8)
  }

  /** What follows the key, which ended at `i`. */
  function ReadBody(buf: seq<byte>, i: nat, num: nat, kind: nat): (r: Result<Got, Failure>)
    requires i <= |buf|
    ensures r.Ok? ==> r.value.moved >= i
  {
    if kind == 1 then Ok(Got(Fixed(num, Slice(buf, i, 8)), i + 8))
    else if kind == 5 then Ok(Got(Fixed(num, Slice(buf, i, 4)), i + 4))
    else if kind != 0 && kind != 2 then Err(WireType)
    else
      var n := ReadVarint(buf[i..], 10);
      if !n.Value? then Err(Lacking(n))
      else if kind == 0 then Ok(Got(Number(num, n.v), i + n.used))
      else Ok(Got(Bytes(num, Slice(buf, i + n.used, n.v)), i + n.used + n.v))
  }

  function ReadFields(buf: seq<byte>): Result<seq<Field>, Failure>
    decreases |buf|
  {
    if buf == [] then Ok([])
    else
      var f := ReadField(buf);
      if f.Err? then Err(f.error)
      else
        var rest := ReadFields(buf[Min(f.value.moved, |buf|)..]);
        if rest.Err? then rest else Ok([f.value.field] + rest.value)
  }

  /** The reader's loop over a message. */
  method Fields(buf: seq<byte>) returns (r: Result<seq<Field>, Failure>)
    ensures r == ReadFields(buf)
  {
    hide ReadField;
    var out: seq<Field>, i: nat := [], 0;
    assert buf[0..] == buf;
    BeforeNothing(ReadFields(buf));
    while i < |buf|
      invariant ReadFields(buf) == Before(out, ReadFields(buf[Min(i, |buf|)..]))
      decreases |buf| - i
    {
      ghost var rest := buf[i..];
      var f := ReadOne(buf, i);
      if f.Err? { return Err(f.error); }
      assert rest[Min(f.value.moved, |rest|)..] == buf[Min(i + f.value.moved, |buf|)..];
      BeforeTwice(out, f.value.field, ReadFields(buf[Min(i + f.value.moved, |buf|)..]));
      out, i := out + [f.value.field], i + f.value.moved;
    }
    assert buf[Min(i, |buf|)..] == [] && out + [] == out;
    return Ok(out);
  }

  method ReadOne(buf: seq<byte>, at: nat) returns (r: Result<Got, Failure>)
    requires at <= |buf|
    ensures r == ReadField(buf[at..])
  {
    hide ReadVarint, ReadBody;
    var key := ReadBytes(buf, at, 10);
    if !key.Value? { return Err(Lacking(key)); }
    r := ReadValue(buf, at, key.used, key.v / 8, key.v % 8);
  }

  method ReadValue(buf: seq<byte>, at: nat, used: nat, num: nat, kind: nat) returns (r: Result<Got, Failure>)
    requires at + used <= |buf|
    ensures r == ReadBody(buf[at..], used, num, kind)
  {
    hide ReadVarint, Slice;
    ghost var tail := buf[at..];
    var i := at + used;
    assert tail[used..] == buf[i..];
    if kind == 1 {
      SliceOfRest(buf, at, used, 8);
      return Ok(Got(Fixed(num, Slice(buf, i, 8)), used + 8));
    } else if kind == 5 {
      SliceOfRest(buf, at, used, 4);
      return Ok(Got(Fixed(num, Slice(buf, i, 4)), used + 4));
    } else if kind != 0 && kind != 2 {
      return Err(WireType);
    }
    var n := ReadBytes(buf, i, 10);
    if !n.Value? { return Err(Lacking(n)); }
    if kind == 0 { return Ok(Got(Number(num, n.v), used + n.used)); }
    SliceOfRest(buf, at, used + n.used, n.v);
    return Ok(Got(Bytes(num, Slice(buf, i + n.used, n.v)), used + n.used + n.v));
  }

  lemma SliceOfRest(buf: seq<byte>, at: nat, i: nat, n: nat)
    requires at + i <= |buf|
    ensures Slice(buf[at..], i, n) == Slice(buf, at + i, n)
  {
  }

  lemma SliceAfter(head: seq<byte>, rest: seq<byte>, n: nat)
    ensures Slice(head + rest, |head|, n) == Slice(rest, 0, n)
  {
  }

  function Before(fs: seq<Field>, r: Result<seq<Field>, Failure>): Result<seq<Field>, Failure> {
    if r.Err? then r else Ok(fs + r.value)
  }

  lemma BeforeNothing(r: Result<seq<Field>, Failure>)
    ensures Before([], r) == r
  {
    if r.Ok? { assert [] + r.value == r.value; }
  }

  lemma BeforeTwice(fs: seq<Field>, f: Field, r: Result<seq<Field>, Failure>)
    ensures Before(fs, Before([f], r)) == Before(fs + [f], r)
  {
    if r.Ok? { assert fs + ([f] + r.value) == fs + [f] + r.value; }
  }

  // ── round trip ────────────────────────────────────────────────────────────

  lemma ReadHead(key: nat, n: nat, rest: seq<byte>)
    requires key < TWO_TO_64 && n < TWO_TO_64
    ensures var buf := Encode(key) + Encode(n) + rest;
      && ReadVarint(buf, 10) == Value(key, Size(key))
      && ReadVarint(buf[Size(key)..], 10) == Value(n, Size(n))
  {
    PowersOf128();
    assert Encode(key) + Encode(n) + rest == Encode(key) + (Encode(n) + rest);
    assert (Encode(key) + Encode(n) + rest)[Size(key)..] == Encode(n) + rest;
    hide ReadVarint, Encode, Power;
    ReadUndoesEncode(key, Encode(n) + rest, 10);
    ReadUndoesEncode(n, rest, 10);
  }

  lemma ReadFieldUndoesEncode(f: Field, rest: seq<byte>)
    requires Writable(f)
    ensures ReadField(EncodeField(f) + rest) == Ok(Got(f, |EncodeField(f)|))
  {
    hide ReadVarint, Encode;
    if f.Number? {
      ReadHead(f.num * 8, f.value, rest);
    } else {
      ReadBytesField(f.num, f.bytes, |f.bytes|, rest);
      assert Encode(f.num * 8 + 2) + Encode(|f.bytes|) + (f.bytes + rest) == EncodeField(f) + rest;
      assert Slice(f.bytes + rest, 0, |f.bytes|) == f.bytes;
    }
  }

  /** Fixed fields, which only others write, are passed over with their eight or four bytes. */
  lemma FixedIsRead(num: nat, bytes: seq<byte>, rest: seq<byte>)
    requires num * 8 + 5 < TWO_TO_64 && (|bytes| == 8 || |bytes| == 4)
    ensures ReadField(EncodeField(Fixed(num, bytes)) + rest) == Ok(Got(Fixed(num, bytes), |EncodeField(Fixed(num, bytes))|))
  {
    var key := num * 8 + if |bytes| == 8 then 1 else 5;
    PowersOf128();
    assert EncodeField(Fixed(num, bytes)) + rest == Encode(key) + (bytes + rest);
    assert |EncodeField(Fixed(num, bytes))| == Size(key) + |bytes| && Size(key) == |Encode(key)|;
    hide *;
    ReadUndoesEncode(key, bytes + rest, 10);
    FixedAfterKey(num, Encode(key), bytes, rest);
  }

  lemma FixedAfterKey(num: nat, key: seq<byte>, bytes: seq<byte>, rest: seq<byte>)
    requires |bytes| == 8 || |bytes| == 4
    requires ReadVarint(key + (bytes + rest), 10) == Value(num * 8 + if |bytes| == 8 then 1 else 5, |key|)
    ensures ReadField(key + (bytes + rest)) == Ok(Got(Fixed(num, bytes), |key| + |bytes|))
  {
    hide ReadVarint;
    assert (key + (bytes + rest))[|key|..|key| + |bytes|] == bytes;
  }

  /** Any other kind of field is refused. */
  lemma OtherKindsAreRefused(num: nat, kind: nat, rest: seq<byte>)
    requires num * 8 + kind < TWO_TO_64 && kind < 8
    ensures ReadField(Encode(num * 8 + kind) + rest) == Err(WireType) <==> kind != 0 && kind != 1 && kind != 2 && kind != 5
  {
    PowersOf128();
    hide ReadVarint, Encode, Power;
    ReadUndoesEncode(num * 8 + kind, rest, 10);
  }

  /** A field of bytes that announces `n` of them, with `bytes` and nothing more to follow. */
  lemma ReadBytesField(num: nat, bytes: seq<byte>, n: nat, rest: seq<byte>)
    requires num * 8 + 2 < TWO_TO_64 && n < TWO_TO_64
    ensures var head := Encode(num * 8 + 2) + Encode(n);
      ReadField(head + (bytes + rest)) == Ok(Got(Bytes(num, Slice(bytes + rest, 0, n)), |head| + n))
  {
    hide ReadVarint, Encode, Slice;
    var head := Encode(num * 8 + 2) + Encode(n);
    ReadHead(num * 8 + 2, n, bytes + rest);
    SliceAfter(head, bytes + rest, n);
  }

  lemma ReadFirst(buf: seq<byte>, f: Field, used: nat)
    requires buf != [] && ReadField(buf) == Ok(Got(f, used))
    ensures ReadFields(buf) == Before([f], ReadFields(buf[Min(used, |buf|)..]))
  {
    hide ReadField;
  }

  lemma EncodeFieldIsSome(f: Field)
    ensures EncodeField(f) != []
  {
    hide Encode;
  }

  /** A message that was written is read back field by field. */
  lemma {:induction false} ReadingUndoesWriting(fs: seq<Field>)
    requires forall f :: f in fs ==> Writable(f)
    ensures ReadFields(EncodeFields(fs)) == Ok(fs)
    decreases |fs|
  {
    hide ReadField, EncodeField, Writable;
    if fs != [] {
      assert fs[0] in fs && forall f :: f in fs[1..] ==> f in fs;
      ReadOneMore(fs[0], EncodeFields(fs[1..]));
      hide ReadFields;
      ReadingUndoesWriting(fs[1..]);
      assert [fs[0]] + fs[1..] == fs;
    }
  }

  lemma {:induction false} EncodeFieldsAppend(fs: seq<Field>, gs: seq<Field>)
    ensures EncodeFields(fs + gs) == EncodeFields(fs) + EncodeFields(gs)
    decreases |fs|
  {
    if fs == [] {
      assert fs + gs == gs;
    } else {
      assert (fs + gs)[0] == fs[0] && (fs + gs)[1..] == fs[1..] + gs;
      EncodeFieldsAppend(fs[1..], gs);
    }
  }

  lemma ReadOneMore(f: Field, rest: seq<byte>)
    requires Writable(f)
    ensures ReadFields(EncodeField(f) + rest) == Before([f], ReadFields(rest))
  {
    hide ReadField, EncodeField, ReadFields;
    ReadFieldUndoesEncode(f, rest);
    EncodeFieldIsSome(f);
    ReadFirst(EncodeField(f) + rest, f, |EncodeField(f)|);
    assert (EncodeField(f) + rest)[|EncodeField(f)|..] == rest;
  }

  lemma NothingLeft()
    ensures ReadFields([]) == Ok([])
  {
  }

  lemma CutAlone(num: nat, bytes: seq<byte>, k: nat)
    requires Writable(Bytes(num, bytes)) && k < |bytes|
    ensures ReadFields(Encode(num * 8 + 2) + Encode(|bytes|) + bytes[..k]) == Ok([Bytes(num, bytes[..k])])
  {
    hide ReadField, Encode, ReadFields;
    var head := Encode(num * 8 + 2) + Encode(|bytes|);
    assert bytes[..k] + [] == bytes[..k];
    ReadBytesField(num, bytes[..k], |bytes|, []);
    assert Slice(bytes[..k], 0, |bytes|) == bytes[..k];
    var left := head + bytes[..k];
    ReadFirst(left, Bytes(num, bytes[..k]), |head| + |bytes|);
    assert left[Min(|head| + |bytes|, |left|)..] == [];
    NothingLeft();
    assert [Bytes(num, bytes[..k])] + [] == [Bytes(num, bytes[..k])];
  }

  // ── messages that were cut off ────────────────────────────────────────────

  lemma {:induction false} ReadSeveral(fs: seq<Field>, rest: seq<byte>)
    requires forall f :: f in fs ==> Writable(f)
    ensures ReadFields(EncodeFields(fs) + rest) == Before(fs, ReadFields(rest))
    decreases |fs|
  {
    hide ReadField, EncodeField, Writable, ReadFields;
    if fs == [] {
      assert [] + rest == rest;
      BeforeNothing(ReadFields(rest));
    } else {
      assert fs[0] in fs && forall f :: f in fs[1..] ==> f in fs;
      assert EncodeFields(fs) + rest == EncodeField(fs[0]) + (EncodeFields(fs[1..]) + rest);
      ReadOneMore(fs[0], EncodeFields(fs[1..]) + rest);
      ReadSeveral(fs[1..], rest);
      if ReadFields(rest).Ok? { assert [fs[0]] + (fs[1..] + ReadFields(rest).value) == fs + ReadFields(rest).value; }
    }
  }

  /** What of a field must be there for it to be read at all: of a field of bytes, all but the bytes. */
  function Header(f: Field): nat {
    match f
    case Number(num, value) => Size(num * 8) + Size(value)
    case Bytes(num, bytes) => Size(num * 8 + 2) + Size(|bytes|)
    case Fixed(num, bytes) => |EncodeField(f)|
  }

  lemma CutHead(key: nat, n: nat, m: nat)
    requires key < TWO_TO_64 && n < TWO_TO_64 && 0 < m < Size(key) + Size(n) && (key % 8 == 0 || key % 8 == 2)
    ensures ReadField((Encode(key) + Encode(n))[..m]) == Err(Truncated)
  {
    PowersOf128();
    var whole := Encode(key) + Encode(n);
    hide ReadVarint, Encode, Power;
    if m < Size(key) {
      assert whole[..m] == Encode(key)[..m];
      ReadOfPrefix(key, m, 10);
    } else {
      var k := m - Size(key);
      assert whole[..m] == Encode(key) + Encode(n)[..k];
      assert whole[..m][Size(key)..] == Encode(n)[..k];
      ReadUndoesEncode(key, Encode(n)[..k], 10);
      ReadOfPrefix(n, k, 10);
    }
  }

  /** The first `m` bytes of one field, and no more. */
  lemma CutField(f: Field, m: nat)
    requires Writable(f) && 0 < m < |EncodeField(f)|
    ensures ReadFields(EncodeField(f)[..m]) ==
            if f.Bytes? && Header(f) <= m then Ok([Bytes(f.num, f.bytes[..m - Header(f)])]) else Err(Truncated)
  {
    hide ReadField, Encode;
    var part := EncodeField(f)[..m];
    if f.Bytes? && Header(f) <= m {
      assert part == Encode(f.num * 8 + 2) + Encode(|f.bytes|) + f.bytes[..m - Header(f)];
      CutAlone(f.num, f.bytes, m - Header(f));
    } else if f.Bytes? {
      assert part == (Encode(f.num * 8 + 2) + Encode(|f.bytes|))[..m];
      CutHead(f.num * 8 + 2, |f.bytes|, m);
    } else {
      CutHead(f.num * 8, f.value, m);
    }
  }

  /** A cut within field `i` is noticed, unless it leaves a field of bytes its length: then that field is shorter, and the last. */
  lemma CutWithinField(fs: seq<Field>, i: nat, m: nat)
    requires (forall f :: f in fs ==> Writable(f)) && i < |fs| && 0 < m < |EncodeField(fs[i])|
    ensures var k, f := |EncodeFields(fs[..i])| + m, fs[i];
      && k < |EncodeFields(fs)|
      && ReadFields(EncodeFields(fs)[..k]) ==
         if f.Bytes? && Header(f) <= m then Ok(fs[..i] + [Bytes(f.num, f.bytes[..m - Header(f)])]) else Err(Truncated)
  {
    hide ReadField, EncodeField, Writable, ReadFields, Header;
    var before, part, after := EncodeFields(fs[..i]), EncodeField(fs[i]), EncodeFields(fs[i + 1..]);
    assert fs[i] in fs && forall f :: f in fs[..i] ==> f in fs;
    EncodeFieldsAppend(fs[..i], fs[i..]);
    assert fs == fs[..i] + fs[i..] && fs[i..][1..] == fs[i + 1..];
    assert EncodeFields(fs) == before + (part + after);
    assert EncodeFields(fs)[..|before| + m] == before + part[..m];
    CutField(fs[i], m);
    ReadSeveral(fs[..i], part[..m]);
  }

  /** A cut between two fields loses the later ones. */
  lemma CutBetweenFields(fs: seq<Field>, i: nat)
    requires (forall f :: f in fs ==> Writable(f)) && i <= |fs|
    ensures var k := |EncodeFields(fs[..i])|; k <= |EncodeFields(fs)| && ReadFields(EncodeFields(fs)[..k]) == Ok(fs[..i])
  {
    hide ReadField, EncodeField, Writable, ReadFields;
    EncodeFieldsAppend(fs[..i], fs[i..]);
    assert fs == fs[..i] + fs[i..];
    assert EncodeFields(fs)[..|EncodeFields(fs[..i])|] == EncodeFields(fs[..i]);
    assert forall f :: f in fs[..i] ==> f in fs;
    ReadingUndoesWriting(fs[..i]);
  }

  /** Every cut is between two fields or within one. */
  lemma {:induction false} PlaceOfCut(fs: seq<Field>, k: nat) returns (i: nat, m: nat)
    requires k <= |EncodeFields(fs)|
    ensures i <= |fs| && k == |EncodeFields(fs[..i])| + m && (m > 0 ==> i < |fs| && m < |EncodeField(fs[i])|)
    decreases |fs|
  {
    hide EncodeField;
    if k == 0 || fs == [] {
      i, m := 0, 0;
      assert fs[..0] == [];
    } else if k < |EncodeField(fs[0])| {
      i, m := 0, k;
      assert fs[..0] == [];
    } else {
      i, m := PlaceOfCut(fs[1..], k - |EncodeField(fs[0])|);
      i := i + 1;
      assert fs[..i][0] == fs[0] && fs[..i][1..] == fs[1..][..i - 1];
    }
  }

  /** The cut is between two fields, or within the bytes of one, its length being still there. */
  ghost predicate CutIsSilent(fs: seq<Field>, k: nat) {
    exists i: nat, m: nat :: SilentAt(fs, k, i, m)
  }

  predicate SilentAt(fs: seq<Field>, k: nat, i: nat, m: nat) {
    && i <= |fs| && k == |EncodeFields(fs[..i])| + m
    && (m == 0 || (i < |fs| && fs[i].Bytes? && Header(fs[i]) <= m < |EncodeField(fs[i])|))
  }

  /** Exactly which cuts the reader does not notice; it reports every other as a message too short. */
  lemma CutIsReadIff(fs: seq<Field>, k: nat)
    requires (forall f :: f in fs ==> Writable(f)) && k <= |EncodeFields(fs)|
    ensures ReadFields(EncodeFields(fs)[..k]).Ok? <==> CutIsSilent(fs, k)
    ensures !CutIsSilent(fs, k) ==> ReadFields(EncodeFields(fs)[..k]) == Err(Truncated)
  {
    hide EncodeField, EncodeFields, Writable, ReadFields, Header;
    if CutIsSilent(fs, k) {
      var i: nat, m: nat :| SilentAt(fs, k, i, m);
      if m == 0 { CutBetweenFields(fs, i); } else { HeaderIsSome(fs[i]); CutWithinField(fs, i, m); }
    } else {
      var i, m := PlaceOfCut(fs, k);
      assert !SilentAt(fs, k, i, m);
      CutWithinField(fs, i, m);
    }
  }

  lemma HeaderIsSome(f: Field)
    requires !f.Fixed?
    ensures Header(f) > 0
  {
  }
}
