/**
 Requests padded to a common length: how many bytes of padding make the whole frame as long as wanted,
 when the length prefix of the padding and that of the frame's body grow with it.
 */
module Padding {
  import opened Prelude
  import opened Varint
  import opened Wire

  const PROTO_MAJOR: nat := 2
  const MAX_REQUEST_PADDING: nat := 8192
  const BUCKET: nat := 1024

  datatype Request = Request(
    id: nat, method_: seq<byte>, body: seq<byte>, timeoutMs: nat, padding: seq<byte>, destDomain: seq<byte>)

  /** Numbers fit in 64 bits, and so do the lengths, with room for padding. */
  predicate Encodable(r: Request) {
    && r.id < TWO_TO_64 && r.timeoutMs < TWO_TO_64
    && |r.method_| < TWO_TO_64 && |r.body| < TWO_TO_64 && |r.padding| < TWO_TO_64 && |r.destDomain| < TWO_TO_64
    && |EncodeRequest(r)| < TWO_TO_64
  }

  function NumberField(num: nat, value: nat): seq<Field> {
    if value == 0 then [] else [Number(num, value)]
  }

  function BytesField(num: nat, bytes: seq<byte>): seq<Field> {
    if bytes == [] then [] else [Bytes(num, bytes)]
  }

  /** The fields of a request in the order of their numbers; an empty one is left out. */
  function RequestFields(r: Request): seq<Field> {
    NumberField(1, r.id) + BytesField(2, r.method_) + BytesField(3, r.body) + NumberField(4, r.timeoutMs)
    + BytesField(5, r.padding) + BytesField(6, r.destDomain)
  }

  function EncodeRequest(r: Request): seq<byte> {
    EncodeFields(RequestFields(r))
  }

  function FrameFields(r: Request): seq<Field> {
    [Number(1, PROTO_MAJOR), Bytes(20, EncodeRequest(r))]
  }

  function EncodeFrame(r: Request): seq<byte> {
    EncodeFields(FrameFields(r))
  }

  function WithPadding(r: Request, n: nat): Request {
    r.(padding := seq(n, _ => 0))
  }

  // ── the length as a function of the padding ───────────────────────────────

  /** What `n` bytes of padding add to the request: a tag of one byte, their length, and themselves. */
  function PaddingSize(n: nat): nat {
    if n == 0 then 0 else 1 + Size(n) + n
  }

  /** The length of a frame whose request takes `m` bytes. */
  function FrameSize(m: nat): nat {
    4 + Size(m) + m
  }

  lemma SizesOfKeys()
    ensures Size(8) == 1 && Size(42) == 1 && Size(162) == 2 && Size(2) == 1
  {
    PowersOf128();
    SizeIs(8, 1);
    SizeIs(42, 1);
    SizeIs(2, 1);
    SizeIs(162, 1);
    SizeIs(162, 2);
  }

  lemma FrameLength(r: Request)
    ensures |EncodeFrame(r)| == FrameSize(|EncodeRequest(r)|)
  {
    SizesOfKeys();
    var fs := FrameFields(r);
    assert fs[1..] == [Bytes(20, EncodeRequest(r))] && fs[1..][1..] == [];
    assert EncodeFields(fs[1..][1..]) == [];
    hide Encode, EncodeRequest;
    assert |EncodeField(fs[0])| == 2;
    assert EncodeFields(fs) == EncodeField(fs[0]) + (EncodeField(fs[1]) + []);
  }

  lemma RequestLength(r: Request, n: nat)
    requires r.padding == []
    ensures |EncodeRequest(WithPadding(r, n))| == |EncodeRequest(r)| + PaddingSize(n)
  {
    SizesOfKeys();
    var head := NumberField(1, r.id) + BytesField(2, r.method_) + BytesField(3, r.body) + NumberField(4, r.timeoutMs);
    var p, tail := BytesField(5, seq(n, _ => 0)), BytesField(6, r.destDomain);
    assert RequestFields(WithPadding(r, n)) == head + p + tail;
    assert RequestFields(r) == head + [] + tail;
    hide RequestFields, Encode, EncodeField, NumberField;
    EncodeFieldsAppend(head + p, tail);
    EncodeFieldsAppend(head, p);
    EncodeFieldsAppend(head + [], tail);
    EncodeFieldsAppend(head, []);
    PaddingField(n);
  }

  lemma PaddingField(n: nat)
    ensures |EncodeFields(BytesField(5, seq(n, _ => 0)))| == PaddingSize(n)
    ensures EncodeFields([]) == []
  {
    SizesOfKeys();
    if n > 0 {
      var f := Bytes(5, seq(n, _ => 0));
      assert BytesField(5, seq(n, _ => 0)) == [f] && [f][1..] == [];
      assert EncodeFields([f]) == EncodeField(f) + [];
    }
    hide Encode;
  }

  /** The length of the frame with `n` bytes of padding, if the request takes `m` without. */
  function Padded(m: nat, n: nat): nat {
    FrameSize(m + PaddingSize(n))
  }

  lemma PaddedLength(r: Request, n: nat)
    requires r.padding == []
    ensures |EncodeFrame(WithPadding(r, n))| == Padded(|EncodeRequest(r)|, n)
  {
    RequestLength(r, n);
    FrameLength(WithPadding(r, n));
  }

  lemma PaddedGrows(m: nat, n: nat, k: nat)
    requires n < k
    ensures Padded(m, n) < Padded(m, k)
    ensures Padded(m, 0) + 2 + k <= Padded(m, k)
  {
    SizeGrows(n, k);
    hide Encode;
    SizeGrows(m + PaddingSize(n), m + PaddingSize(k));
    SizeGrows(m, m + PaddingSize(k));
    assert Size(k) >= 1;
  }

  // ── the search ────────────────────────────────────────────────────────────

  /** Some padding makes the frame exactly this long. */
  ghost predicate Reachable(m: nat, target: nat) {
    exists n :: n > 0 && Padded(m, n) == target
  }

  datatype Found = Found(n: nat, exact: bool)

  /**
   The search for one target: from the most that could fit downwards. It ends exactly at the target if any padding
   reaches it, and otherwise at the most that stays below it.
   */
  method Search(r: Request, base: nat, target: nat) returns (s: Found)
    requires r.padding == [] && base == |EncodeFrame(r)| && base < target
    ensures s.exact <==> Reachable(|EncodeRequest(r)|, target)
    ensures s.exact ==> s.n > 0 && Padded(|EncodeRequest(r)|, s.n) == target
    ensures !s.exact && s.n > 0 ==> Padded(|EncodeRequest(r)|, s.n) < target
    ensures !s.exact ==> forall k :: k > s.n ==> Padded(|EncodeRequest(r)|, k) > target
    ensures s.n <= target - base
  {
    ghost var m := |EncodeRequest(r)|;
    FrameLength(r);
    assert base == Padded(m, 0);
    hide EncodeFrame, EncodeRequest, Padded;
    var n: nat := if target > base + 2 then target - (base + 2) else 0;
    forall k | k > n ensures Padded(m, k) > target { PaddedGrows(m, 0, k); }
    while n > 0
      invariant n <= target - base
      invariant forall k :: k > n ==> Padded(m, k) > target
    {
      PaddedLength(r, n);
      var length := |EncodeFrame(WithPadding(r, n))|;
      if length == target { return Found(n, true); }
      if length < target {
        forall k | 0 < k < n ensures Padded(m, k) < target { PaddedGrows(m, k, n); }
        return Found(n, false);
      }
      n := n - 1;
    }
    return Found(0, false);
  }

  function FirstTarget(base: nat, padTo: nat): nat
    requires padTo > 0
  {
    (base + padTo - 1) / padTo * padTo
  }

  /**
   Whether `n` bytes are the right padding for a request of `m` bytes: up to the next multiple if padding can reach
   it, or else up to the one after; none if it reaches neither, or if more than the limit would still stay below the first.
   */
  ghost predicate WellPadded(m: nat, padTo: nat, n: nat) {
    var base := FrameSize(m);
    if padTo == 0 || base % padTo == 0 then n == 0
    else
      var t := FirstTarget(base, padTo);
      if Reachable(m, t) then n > 0 && Padded(m, n) == t
      else if Padded(m, MAX_REQUEST_PADDING + 1) < t then n == 0
      else if Reachable(m, t + padTo) then n > 0 && Padded(m, n) == t + padTo
      else n == 0
  }

  /** A request padded to a multiple of `padTo`: to the first multiple some padding reaches exactly, of the two next ones. */
  method EncodeRequestPadded(r0: Request, padTo: nat) returns (framed: seq<byte>)
    ensures var m := |EncodeRequest(r0.(padding := []))|;
      exists n :: WellPadded(m, padTo, n) && framed == EncodeFrame(WithPadding(r0, n)) && |framed| == Padded(m, n)
  {
    var r := r0.(padding := []);
    ghost var m := |EncodeRequest(r)|;
    var base := EncodeFrame(r);
    assert WithPadding(r0, 0) == r && WithPadding(r, 0) == r;
    PaddedLength(r, 0);
    FrameLength(r);
    if padTo == 0 || |base| % padTo == 0 {
      assert WellPadded(m, padTo, 0);
      return base;
    }
    var target := FirstTarget(|base|, padTo);
    NextMultiple(|base|, padTo);
    hide EncodeFrame, EncodeRequest, Padded, Reachable, FirstTarget, FrameSize;
    var extra := target;
    for i := 0 to 2
      invariant extra == target + if i == 0 then 0 else if i == 1 then padTo else padTo + padTo
      invariant i >= 1 ==> !Reachable(m, target) && Padded(m, MAX_REQUEST_PADDING + 1) >= target
      invariant i >= 2 ==> !Reachable(m, target + padTo)
    {
      var s := Search(r, |base|, extra);
      if s.exact {
        PaddedLength(r, s.n);
        assert WithPadding(r0, s.n) == WithPadding(r, s.n);
        assert WellPadded(m, padTo, s.n);
        return EncodeFrame(WithPadding(r, s.n));
      }
      if s.n > MAX_REQUEST_PADDING {
        if s.n > MAX_REQUEST_PADDING + 1 { PaddedGrows(m, MAX_REQUEST_PADDING + 1, s.n); }
        assert WellPadded(m, padTo, 0);
        return base;
      }
      extra := extra + padTo;
    }
    assert WellPadded(m, padTo, 0);
    return base;
  }

  lemma NextMultiple(base: nat, padTo: nat)
    requires padTo > 0 && base % padTo != 0
    ensures base < FirstTarget(base, padTo) < base + padTo
  {
    var y := base + padTo - 1;
    var k, q := y / padTo, base / padTo;
    assert y == k * padTo + y % padTo && base == q * padTo + base % padTo;
    if base == k * padTo {
      assert (k - q) * padTo == k * padTo - q * padTo;
      MultiplesAreApart(k - q, padTo);
      assert false;
    }
  }

  lemma MultiplesAreApart(k: int, d: nat)
    ensures k <= 0 ==> k * d <= 0
    ensures k >= 1 ==> k * d >= d
  {
  }

  // ── buckets of 1024 bytes ─────────────────────────────────────────────────

  lemma SizeSteps(m: nat)
    requires m < TWO_TO_64
    ensures Size(m) <= 10
    ensures Size(m + 1) == Size(m) || (Size(m + 1) == Size(m) + 1 && m + 1 == Power(Size(m)))
  {
    PowersOf128();
    SizeIs(m, 10);
    SizeGrows(m, m + 1);
    var k := Size(m);
    SizeIs(m, k);
    SizeIs(m + 1, k);
    SizeIs(m + 1, k + 1);
    assert Power(k + 1) == 128 * Power(k);
  }

  /** Every length the growing prefix of the body skips is off a multiple of 1024. */
  lemma {:induction false} PowersAreMultiples(k: nat) returns (q: nat)
    requires k >= 2
    ensures Power(k) == q * 1024
  {
    if k == 2 {
      PowersOf128();
      q := 16;
    } else {
      var p := PowersAreMultiples(k - 1);
      q := 128 * p;
      assert Power(k) == 128 * Power(k - 1);
    }
  }

  /** A multiple of 1024 is the length of some frame. */
  lemma {:induction false} SomeBodyFits(t: nat, low: nat) returns (m: nat)
    requires t % 1024 == 0 && FrameSize(low) <= t < TWO_TO_64
    ensures low <= m && FrameSize(m) == t
    decreases t - low
  {
    m := low;
    if FrameSize(low) < t {
      SizeSteps(low);
      PowersOf128();
      var q := 0;
      if Size(low) >= 2 { q := PowersAreMultiples(Size(low)); }
      hide Encode;
      if FrameSize(low + 1) > t {
        assert t == 4 + Size(low) + Power(Size(low));  // the prefix grew
        if Size(low) >= 2 { OffByLittle(q, Size(low)); }
        assert false;
      }
      m := SomeBodyFits(t, low + 1);
    }
  }

  lemma OffByLittle(q: nat, k: nat)
    requires k <= 10
    ensures (4 + k + q * 1024) % 1024 == 4 + k
  {
  }

  /** Which additions some padding makes: all but 1, 2 and those its own prefix skips when it grows. */
  lemma PaddingReaches(p: nat) returns (n: nat)
    requires (3 <= p <= 129) || (131 <= p <= 3000)
    ensures n > 0 && PaddingSize(n) == p
  {
    PowersOf128();
    n := if p <= 129 then p - 2 else p - 3;
    SizeIs(n, 1);
    SizeIs(n, 2);
  }

  /** Of the next two multiples of 1024 after the length of any request, one is reached by padding. */
  lemma OneOfTwoBucketsFits(m: nat, t: nat)
    requires FrameSize(m) < t < FrameSize(m) + 1024 && t % 1024 == 0 && t + 1024 < TWO_TO_64
    ensures Reachable(m, t) || Reachable(m, t + 1024)
  {
    var m1 := SomeBodyFits(t, m);
    var m2 := SomeBodyFits(t + 1024, m1);
    SizeGrows(m, m1);
    SizeGrows(m1, m2);
    SizeSteps(m1);
    SizeSteps(m2);
    hide Encode;
    assert 1 <= m1 - m <= 1023;
    assert 1014 <= m2 - m1 <= 1024;
    var p := if m1 - m <= 2 || m1 - m == 130 then m2 - m else m1 - m;
    var n := PaddingReaches(p);
    assert Padded(m, n) == if p == m2 - m then t + 1024 else t;
  }

  /**
   For buckets of 1024 bytes every frame that is not a multiple already becomes one, the first or second after it,
   with at most 2047 bytes of padding - well within the limit - across all steps of both prefixes.
   */
  lemma BucketsOf1024(m: nat, n: nat)
    requires WellPadded(m, BUCKET, n) && FrameSize(m) + 2 * BUCKET < TWO_TO_64
    ensures Padded(m, n) % BUCKET == 0 && FrameSize(m) <= Padded(m, n) < FrameSize(m) + 2 * BUCKET
    ensures n < 2 * BUCKET <= MAX_REQUEST_PADDING
  {
    var base := FrameSize(m);
    assert Padded(m, 0) == base;
    hide Reachable, Padded, FrameSize;
    if base % BUCKET != 0 {
      var t := FirstTarget(base, BUCKET);
      BucketAfter(base);
      OneOfTwoBucketsFits(m, t);
      hide FirstTarget;
      PaddedGrows(m, 0, MAX_REQUEST_PADDING + 1);
      assert n > 0 && (Padded(m, n) == t || Padded(m, n) == t + BUCKET);
      PaddedGrows(m, 0, n);
    }
  }

  lemma BucketAfter(base: nat)
    requires base % BUCKET != 0
    ensures var t := FirstTarget(base, BUCKET);
      base < t < base + BUCKET && t % BUCKET == 0 && (t + BUCKET) % BUCKET == 0
  {
    var k := (base + 1023) / 1024;
    assert FirstTarget(base, 1024) == k * 1024;
  }

  // ── the limit on padding ──────────────────────────────────────────────────

  /** The multiple that padding goes up to, if any: the next one if it is reached, or else the one after. */
  ghost function Goal(m: nat, padTo: nat): (goal: Option<nat>)
    requires padTo > 0 && FrameSize(m) % padTo != 0
  {
    var t := FirstTarget(FrameSize(m), padTo);
    if Reachable(m, t) then Some(t)
    else if t <= Padded(m, MAX_REQUEST_PADDING + 1) && Reachable(m, t + padTo) then Some(t + padTo)
    else None
  }

  /**
   The limit stops the search only where it misses. The padding keeps to it exactly if the multiple it goes up to is
   no longer than the frame with as much padding as allowed.
   */
  lemma WithinLimitIff(m: nat, padTo: nat, n: nat)
    requires padTo > 0 && FrameSize(m) % padTo != 0 && WellPadded(m, padTo, n)
    ensures n <= MAX_REQUEST_PADDING <==> Goal(m, padTo).None? || Goal(m, padTo).value <= Padded(m, MAX_REQUEST_PADDING)
    ensures Goal(m, padTo).Some? <==> n > 0
    ensures n > 0 ==> Padded(m, n) == Goal(m, padTo).value < FrameSize(m) + 2 * padTo
  {
    NextMultiple(FrameSize(m), padTo);
    hide Padded, FrameSize, FirstTarget;
    if n > 0 {
      if n < MAX_REQUEST_PADDING { PaddedGrows(m, n, MAX_REQUEST_PADDING); }
      if n > MAX_REQUEST_PADDING { PaddedGrows(m, MAX_REQUEST_PADDING, n); }
    }
  }

  /** Buckets of up to half the limit, and two more, never exceed it, whatever the request. */
  lemma SmallBucketsKeepTheLimit(m: nat, padTo: nat, n: nat)
    requires WellPadded(m, padTo, n) && padTo <= MAX_REQUEST_PADDING / 2 + 2
    ensures n <= MAX_REQUEST_PADDING
  {
    if n > 0 {
      WithinLimitIff(m, padTo, n);
      PaddingReachesAtLeast(m, n);
    }
  }

  lemma PaddingReachesAtLeast(m: nat, n: nat)
    requires n > 0
    ensures FrameSize(m) + n + (if n >= 128 then 3 else 2) <= Padded(m, n)
  {
    PowersOf128();
    SizeIs(n, 1);
    SizeGrows(m, m + PaddingSize(n));
    hide Encode;
  }

  /** Larger ones than a frame of nothing but the most padding always do, for the empty request, if they pad it at all. */
  lemma LargeBucketsExceedTheLimit(padTo: nat, n: nat)
    requires WellPadded(0, padTo, n) && n > 0 && padTo > 8201
    ensures n > MAX_REQUEST_PADDING
  {
    PowersOf128();
    SizeIs(0, 1);
    SizeIs(8192, 1);
    SizeIs(8192, 2);
    SizeIs(8195, 1);
    SizeIs(8195, 2);
    assert Padded(0, MAX_REQUEST_PADDING) == 8201 && FrameSize(0) == 5;
    hide Encode;
    NextMultiple(5, padTo);
    WithinLimitIff(0, padTo, n);
    assert FirstTarget(5, padTo) >= padTo by { FirstTargetIsAMultiple(5, padTo); }
  }

  lemma FirstTargetIsAMultiple(base: nat, padTo: nat)
    requires 0 < base <= padTo
    ensures FirstTarget(base, padTo) == padTo
  {
    assert padTo <= base + padTo - 1 < 2 * padTo;
    assert (base + padTo - 1) / padTo == 1;
  }

  // ── the request is the same ───────────────────────────────────────────────

  lemma FieldsAreWritable(r: Request)
    requires Encodable(r)
    ensures forall f :: f in RequestFields(r) ==> Writable(f)
  {
  }

  /** What a reader of the padded frame finds: the request as it was, and zeros in the padding field alone. */
  lemma PaddingChangesNothingElse(r: Request, n: nat)
    requires Encodable(WithPadding(r, n))
    ensures var p := WithPadding(r, n);
      && ReadFields(EncodeFrame(p)) == Ok([Number(1, PROTO_MAJOR), Bytes(20, EncodeRequest(p))])
      && ReadFields(EncodeRequest(p)) == Ok(RequestFields(p))
  {
    var p := WithPadding(r, n);
    FieldsAreWritable(p);
    hide Encode, RequestFields, EncodeField, EncodeFields, ReadFields;
    ReadingUndoesWriting(RequestFields(p));
    assert forall f :: f in FrameFields(p) ==> Writable(f);
    ReadingUndoesWriting(FrameFields(p));
  }

  lemma OnlyThePaddingField(r: Request, n: nat)
    ensures forall f :: f in RequestFields(WithPadding(r, n)) && f.num != 5 <==> f in RequestFields(r.(padding := []))
    ensures forall f :: f in RequestFields(WithPadding(r, n)) && f.num == 5 ==> f == Bytes(5, seq(n, _ => 0))
  {
  }
}
