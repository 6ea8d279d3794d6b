/**
 Strings between Java, as 16-bit units, and UTF-8. Unpaired surrogates become U+FFFD on the way out; on the
 way in any bytes are taken, their length going by the first byte of each group. What is written is
 well-formed, and whatever was well-formed comes back as it was.
 */
module JniUtf {
  import opened Prelude

  type unit = x: int | 0 <= x < 0x1_0000

  const REPLACEMENT: unit := 0xFFFD

  predicate IsHigh(u: int) { 0xD800 <= u <= 0xDBFF }

  predicate IsLow(u: int) { 0xDC00 <= u <= 0xDFFF }

  /** A Unicode scalar value: section 3 of RFC 3629 leaves out the surrogates. */
  predicate IsScalar(c: int) { 0 <= c < 0x11_0000 && !IsHigh(c) && !IsLow(c) }

  type scalar = c: int | 0 <= c < 0xD800 || 0xE000 <= c < 0x11_0000

  // ── the two encodings of one scalar value ─────────────────────────────────

  function Utf8(c: scalar): (bs: seq<byte>)
    ensures 1 <= |bs| <= 4
  {
    var last: byte := 0x80 + c % 64;
    if c < 0x80 then
      var only: byte := c;
      [only]
    else if c < 0x800 then
      var first: byte := 0xC0 + c / 64;
      [first, last]
    else if c < 0x1_0000 then
      var first: byte, second: byte := 0xE0 + c / 4096, 0x80 + c / 64 % 64;
      [first, second, last]
    else
      var first: byte, second: byte, third: byte := 0xF0 + c / 0x4_0000, 0x80 + c / 4096 % 64, 0x80 + c / 64 % 64;
      [first, second, third, last]
  }

  function Utf16(c: scalar): (us: seq<unit>)
    ensures 1 <= |us| <= 2
  {
    if c < 0x1_0000 then
      var only: unit := c;
      [only]
    else
      var high: unit, low: unit := 0xD800 + (c - 0x1_0000) / 1024, 0xDC00 + (c - 0x1_0000) % 1024;
      [high, low]
  }

  function AllUtf8(cs: seq<scalar>): seq<byte> {
    if cs == [] then [] else Utf8(cs[0]) + AllUtf8(cs[1..])
  }

  function AllUtf16(cs: seq<scalar>): seq<unit> {
    if cs == [] then [] else Utf16(cs[0]) + AllUtf16(cs[1..])
  }

  /** The two halves of a surrogate pair. */
  function Pair(high: int, low: int): (c: int)
    ensures IsHigh(high) && IsLow(low) ==> IsScalar(c) && c >= 0x1_0000
  {
    0x1_0000 + (high - 0xD800) * 1024 + (low - 0xDC00)
  }

  /** Two, three or four bytes joined: the low bits of the first, six bits of each other. */
  function Join2(a: int, b: int): (c: nat)
    ensures c < 0x800
  {
    a % 32 * 64 + b % 64
  }

  function Join3(a: int, b: int, c: int): (d: nat)
    ensures d < 0x1_0000
  {
    a % 16 * 4096 + b % 64 * 64 + c % 64
  }

  function Join4(a: int, b: int, c: int, d: int): (e: nat)
    ensures e < 0x20_0000
  {
    a % 8 * 0x4_0000 + b % 64 * 4096 + c % 64 * 64 + d % 64
  }

  // ── from Java ─────────────────────────────────────────────────────────────

  datatype Found = Found(c: scalar, used: nat)

  /** The scalar value at the start of some units, U+FFFD for an unpaired surrogate. */
  function FirstOfUnits(us: seq<unit>): (r: Found)
    requires us != []
    ensures 1 <= r.used <= 2 && r.used <= |us|
  {
    var u := us[0];
    if IsHigh(u) && |us| > 1 && IsLow(us[1]) then Found(Pair(u, us[1]), 2)
    else if IsHigh(u) || IsLow(u) then Found(REPLACEMENT, 1)
    else Found(u, 1)
  }

  function Scalars(us: seq<unit>): seq<scalar>
    decreases |us|
  {
    if us == [] then [] else [FirstOfUnits(us).c] + Scalars(us[FirstOfUnits(us).used..])
  }

  method FromJava(us: seq<unit>) returns (out: seq<byte>)
    ensures out == AllUtf8(Scalars(us))
  {
    out := [];
    var i := 0;
    while i < |us|
      invariant 0 <= i <= |us| && out + AllUtf8(Scalars(us[i..])) == AllUtf8(Scalars(us))
      decreases |us| - i
    {
      ghost var rest := us[i..];
      var c: int, at := us[i], i;
      if IsHigh(c) && i + 1 < |us| {
        var lo := us[i + 1];
        if IsLow(lo) {
          c := Pair(c, lo);
          i := i + 1;
        } else {
          c := 0xFFFD;
        }
      } else if IsHigh(c) || IsLow(c) {
        c := 0xFFFD;
      }
      i := i + 1;
      assert FirstOfUnits(rest) == Found(c, i - at);
      assert rest[i - at..] == us[i..];
      OneMoreScalar(out, c, Scalars(us[i..]));
      out := out + Utf8(c);
    }
    assert us[i..] == [];
    assert out + [] == out;
  }

  lemma OneMoreScalar(out: seq<byte>, c: scalar, cs: seq<scalar>)
    ensures out + AllUtf8([c] + cs) == out + Utf8(c) + AllUtf8(cs)
  {
    assert ([c] + cs)[1..] == cs;
  }

  // ── to Java ───────────────────────────────────────────────────────────────

  datatype Step = Step(units: seq<unit>, used: nat)

  /** What is made of the first bytes: the length comes from the first byte, the others are not looked at closely. */
  function FirstOfBytes(bs: seq<byte>): (r: Step)
    requires bs != []
    ensures 1 <= r.used <= |bs| && 1 <= |r.units| <= r.used
  {
    var b := bs[0];
    if b < 0x80 then Step([b], 1)
    else if b / 32 == 6 && |bs| > 1 then Step([Join2(b, bs[1])], 2)
    else if b / 16 == 14 && |bs| > 2 then Step([Join3(b, bs[1], bs[2])], 3)
    else if b / 8 == 30 && |bs| > 3 then Step(Units(Join4(b, bs[1], bs[2], bs[3])), 4)
    else Step([REPLACEMENT], 1)
  }

  /** The units of a number of at most 21 bits; beyond the last scalar value the result is cut to 16 bits. */
  function Units(c: nat): (us: seq<unit>)
    requires c < 0x20_0000
    ensures 1 <= |us| <= 2
  {
    if c < 0x1_0000 then [c] else [(0xD800 + (c - 0x1_0000) / 1024) % 0x1_0000, 0xDC00 + (c - 0x1_0000) % 1024]
  }

  function ToUnits(bs: seq<byte>): (us: seq<unit>)
    ensures |us| <= |bs|
    decreases |bs|
  {
    if bs == [] then [] else FirstOfBytes(bs).units + ToUnits(bs[FirstOfBytes(bs).used..])
  }

  /** The number at place `i`, and how many bytes it takes. */
  method DecodeAt(bs: seq<byte>, i: nat) returns (c: nat, len: nat)
    requires i < |bs|
    ensures c < 0x20_0000 && FirstOfBytes(bs[i..]) == Step(Units(c), len)
  {
    hide Join2, Join3, Join4;
    var b := bs[i];
    assert bs[i..][0] == b;
    if b < 0x80 { return b, 1; }
    if b / 32 == 6 && i + 1 < |bs| { return Join2(b, bs[i + 1]), 2; }
    if b / 16 == 14 && i + 2 < |bs| { return Join3(b, bs[i + 1], bs[i + 2]), 3; }
    if b / 8 == 30 && i + 3 < |bs| { return Join4(b, bs[i + 1], bs[i + 2], bs[i + 3]), 4; }
    return 0xFFFD, 1;
  }

  /** Any bytes at all are turned into units: no more than there are bytes, none read beyond the end. */
  method ToJava(bs: seq<byte>) returns (us: seq<unit>)
    ensures us == ToUnits(bs)
  {
    hide FirstOfBytes, Units;
    us := [];
    var i := 0;
    while i < |bs|
      invariant 0 <= i <= |bs| && us + ToUnits(bs[i..]) == ToUnits(bs)
      decreases |bs| - i
    {
      var c, len := DecodeAt(bs, i);
      assert bs[i..][len..] == bs[i + len..];
      i := i + len;
      assert us + (Units(c) + ToUnits(bs[i..])) == us + Units(c) + ToUnits(bs[i..]);
      us := us + Units(c);
    }
    assert bs[i..] == [] && us + [] == us;
  }

  // ── well-formed UTF-8 ─────────────────────────────────────────────────────

  predicate Tail(b: byte) { 0x80 <= b <= 0xBF }

  predicate Utf8Two(bs: seq<byte>) {
    |bs| >= 2 && 0xC2 <= bs[0] <= 0xDF && Tail(bs[1])
  }

  predicate Utf8Three(bs: seq<byte>) {
    && |bs| >= 3 && Tail(bs[2])
    && ((bs[0] == 0xE0 && 0xA0 <= bs[1] <= 0xBF)
       || (0xE1 <= bs[0] <= 0xEC && Tail(bs[1]))
       || (bs[0] == 0xED && 0x80 <= bs[1] <= 0x9F)
       || (0xEE <= bs[0] <= 0xEF && Tail(bs[1])))
  }

  predicate Utf8Four(bs: seq<byte>) {
    && |bs| >= 4 && Tail(bs[2]) && Tail(bs[3])
    && ((bs[0] == 0xF0 && 0x90 <= bs[1] <= 0xBF)
       || (0xF1 <= bs[0] <= 0xF3 && Tail(bs[1]))
       || (bs[0] == 0xF4 && 0x80 <= bs[1] <= 0x8F))
  }

  /** The syntax of UTF-8 byte sequences, section 4 of RFC 3629. */
  predicate WellFormed(bs: seq<byte>)
    decreases |bs|
  {
    if bs == [] then true
    else if bs[0] < 0x80 then WellFormed(bs[1..])
    else if Utf8Two(bs) then WellFormed(bs[2..])
    else if Utf8Three(bs) then WellFormed(bs[3..])
    else Utf8Four(bs) && WellFormed(bs[4..])
  }

  /** Two, three and four bytes of one scalar value fit the syntax, and joined they give it back. */
  lemma TwoDigits(c: scalar)
    requires 0x80 <= c < 0x800
    ensures var bs := Utf8(c); |bs| == 2 && Utf8Two(bs) && bs[0] / 32 == 6 && Join2(bs[0], bs[1]) == c
  {
  }

  lemma ThreeDigits(c: scalar)
    requires 0x800 <= c < 0x1_0000
    ensures var bs := Utf8(c); |bs| == 3 && Utf8Three(bs) && bs[0] / 16 == 14 && Join3(bs[0], bs[1], bs[2]) == c
  {
    var x: int, y: int, z: int := c / 4096, c / 64 % 64, c % 64;
    assert c == x * 4096 + y * 64 + z;
  }

  lemma FourParts(c: int)
    requires 0x1_0000 <= c < 0x11_0000
    ensures var w, x, y, z := c / 0x4_0000, c / 4096 % 64, c / 64 % 64, c % 64;
      && c == w * 0x4_0000 + x * 4096 + y * 64 + z
      && 0 <= w <= 4 && (w == 0 ==> 16 <= x) && (w == 4 ==> x < 16)
  {
  }

  lemma FourDigits(c: scalar)
    requires 0x1_0000 <= c
    ensures var bs := Utf8(c);
      |bs| == 4 && Utf8Four(bs) && bs[0] / 8 == 30 && Join4(bs[0], bs[1], bs[2], bs[3]) == c
  {
    var w: int, x: int, y: int, z: int := c / 0x4_0000, c / 4096 % 64, c / 64 % 64, c % 64;
    FourParts(c);
    assert Utf8(c)[0] == 0xF0 + w && Utf8(c)[1] == 0x80 + x && Utf8(c)[2] == 0x80 + y && Utf8(c)[3] == 0x80 + z;
    hide Utf8;
  }

  /** The syntax looks at no more than the first four bytes. */
  lemma SyntaxIsLocal(bs: seq<byte>, rest: seq<byte>)
    requires 1 <= |bs| <= 4
    ensures |bs| == 2 && Utf8Two(bs) ==> Utf8Two(bs + rest) && !(bs[0] < 0x80)
    ensures |bs| == 3 && Utf8Three(bs) ==> Utf8Three(bs + rest) && !Utf8Two(bs + rest) && !(bs[0] < 0x80)
    ensures |bs| == 4 && Utf8Four(bs) ==> Utf8Four(bs + rest) && !Utf8Two(bs + rest) && !Utf8Three(bs + rest) && !(bs[0] < 0x80)
  {
  }

  /** One scalar value, encoded, in front of well-formed bytes. */
  lemma EncodedIsWellFormed(c: scalar, rest: seq<byte>)
    ensures WellFormed(Utf8(c) + rest) <==> WellFormed(rest)
  {
    var bs := Utf8(c) + rest;
    if 0x80 <= c < 0x800 { TwoDigits(c); } else if 0x800 <= c < 0x1_0000 { ThreeDigits(c); } else if c >= 0x1_0000 { FourDigits(c); }
    SyntaxIsLocal(Utf8(c), rest);
    assert bs[|Utf8(c)|..] == rest && bs[0] == Utf8(c)[0];
    assert c < 0x80 ==> |Utf8(c)| == 1 && bs[0] == c;
    hide Utf8, Utf8Two, Utf8Three, Utf8Four, Join2, Join3, Join4;
  }

  lemma {:induction false} AllUtf8IsWellFormed(cs: seq<scalar>)
    ensures WellFormed(AllUtf8(cs))
  {
    if cs != [] {
      AllUtf8IsWellFormed(cs[1..]);
      EncodedIsWellFormed(cs[0], AllUtf8(cs[1..]));
    }
  }

  /** Decoding one scalar value that was encoded, whatever follows it. */
  lemma FirstOfEncoded(c: scalar, rest: seq<byte>)
    ensures FirstOfBytes(Utf8(c) + rest) == Step(Utf16(c), |Utf8(c)|)
  {
    var e := Utf8(c);
    var bs := e + rest;
    if c < 0x80 {
      assert bs[0] == c;
    } else if c < 0x800 {
      TwoDigits(c);
      assert bs[0] == e[0] && bs[1] == e[1];
      hide Utf8, Join2, Utf8Two;
    } else if c < 0x1_0000 {
      ThreeDigits(c);
      assert bs[0] == e[0] && bs[1] == e[1] && bs[2] == e[2];
      hide Utf8, Join3, Utf8Three;
    } else {
      FourDigits(c);
      assert bs[0] == e[0] && bs[1] == e[1] && bs[2] == e[2] && bs[3] == e[3];
      UnitsOfScalar(c);
      hide Utf8, Join4, Utf8Four, Units, Utf16;
    }
  }

  lemma UnitsOfScalar(c: scalar)
    ensures Units(c) == Utf16(c)
  {
  }

  lemma {:induction false} ToUnitsOfScalars(cs: seq<scalar>)
    ensures ToUnits(AllUtf8(cs)) == AllUtf16(cs)
  {
    if cs != [] {
      FirstOfEncoded(cs[0], AllUtf8(cs[1..]));
      assert (Utf8(cs[0]) + AllUtf8(cs[1..]))[|Utf8(cs[0])|..] == AllUtf8(cs[1..]);
      hide Utf8, Utf16, FirstOfBytes;
      ToUnitsOfScalars(cs[1..]);
    }
  }

  // ── from Java and back ────────────────────────────────────────────────────

  /** A surrogate without its other half next to it (section 2 of RFC 2781). */
  predicate Unpaired(us: seq<unit>, i: nat)
    requires i < |us|
  {
    || (IsHigh(us[i]) && !(i + 1 < |us| && IsLow(us[i + 1])))
    || (IsLow(us[i]) && !(i > 0 && IsHigh(us[i - 1])))
  }

  /** The same units with each unpaired surrogate replaced. */
  function Repaired(us: seq<unit>): seq<unit> {
    seq(|us|, i requires 0 <= i < |us| => if Unpaired(us, i) then REPLACEMENT else us[i])
  }

  lemma UnitsOfFirst(us: seq<unit>)
    requires us != []
    ensures var f := FirstOfUnits(us);
      && Utf16(f.c) == Repaired(us)[..f.used]
      && (f.used < |us| ==> !(IsHigh(us[f.used - 1]) && IsLow(us[f.used])))
  {
    var f := FirstOfUnits(us);
    if f.used == 2 {
      assert !Unpaired(us, 0) && !Unpaired(us, 1);
    }
  }

  /** Behind the first scalar value nothing is paired across the cut. */
  lemma RepairedSplits(us: seq<unit>, k: nat)
    requires 0 < k <= |us| && (k < |us| ==> !(IsHigh(us[k - 1]) && IsLow(us[k])))
    ensures Repaired(us)[k..] == Repaired(us[k..])
  {
    forall i | 0 <= i < |us| - k ensures Repaired(us)[k..][i] == Repaired(us[k..])[i] {
      assert Unpaired(us, k + i) <==> Unpaired(us[k..], i);
    }
  }

  lemma {:induction false} ScalarsRepair(us: seq<unit>)
    ensures AllUtf16(Scalars(us)) == Repaired(us)
    decreases |us|
  {
    if us != [] {
      var f := FirstOfUnits(us);
      UnitsOfFirst(us);
      RepairedSplits(us, f.used);
      assert |Repaired(us)| == |us|;
      hide Utf16, FirstOfUnits, Repaired;
      ScalarsRepair(us[f.used..]);
      assert ([f.c] + Scalars(us[f.used..]))[1..] == Scalars(us[f.used..]);
      assert Repaired(us) == Repaired(us)[..f.used] + Repaired(us)[f.used..];
    } else {
      assert Repaired(us) == [];
    }
  }

  /** Every string of Java becomes well-formed UTF-8, and comes back with nothing changed but its unpaired surrogates. */
  lemma JavaStringsComeBackRepaired(us: seq<unit>)
    ensures WellFormed(AllUtf8(Scalars(us)))
    ensures ToUnits(AllUtf8(Scalars(us))) == Repaired(us)
  {
    AllUtf8IsWellFormed(Scalars(us));
    ToUnitsOfScalars(Scalars(us));
    ScalarsRepair(us);
  }

  // ── to Java and back ──────────────────────────────────────────────────────

  lemma {:induction false} WellFormedIsEncoded(bs: seq<byte>) returns (cs: seq<scalar>)
    requires WellFormed(bs)
    ensures bs == AllUtf8(cs)
    decreases |bs|
  {
    if bs == [] {
      cs := [];
    } else {
      var c, n := FirstScalar(bs);
      hide Utf8, Utf8Two, Utf8Three, Utf8Four;
      cs := WellFormedIsEncoded(bs[n..]);
      assert ([c] + cs)[1..] == cs;
      assert bs == bs[..n] + bs[n..];
      cs := [c] + cs;
    }
  }

  lemma JoinedTwo(bs: seq<byte>)
    requires Utf8Two(bs)
    ensures IsScalar(Join2(bs[0], bs[1])) && Utf8(Join2(bs[0], bs[1])) == bs[..2]
  {
  }

  lemma SixBits(w: nat, x: nat, y: nat, z: nat)
    requires x < 64 && y < 64 && z < 64
    ensures var c := w * 0x4_0000 + x * 4096 + y * 64 + z;
      c / 0x4_0000 == w && c / 4096 % 64 == x && c / 64 % 64 == y && c % 64 == z && c / 4096 == w * 64 + x
  {
    var c := w * 0x4_0000 + x * 4096 + y * 64 + z;
    assert c / 4096 == w * 64 + x;
    assert c / 64 == (w * 64 + x) * 64 + y;
  }

  lemma JoinedThree(bs: seq<byte>)
    requires Utf8Three(bs)
    ensures IsScalar(Join3(bs[0], bs[1], bs[2])) && Utf8(Join3(bs[0], bs[1], bs[2])) == bs[..3]
  {
    var x: int, y: int, z: int := bs[0] - 0xE0, bs[1] - 0x80, bs[2] - 0x80;
    SixBits(0, x, y, z);
    var c: int := x * 4096 + y * 64 + z;
    assert Join3(bs[0], bs[1], bs[2]) == c;
    hide Join3;
    assert 0x800 <= c < 0xD800 || 0xE000 <= c < 0x1_0000;
    hide Utf8Three;
    assert Utf8(c) == [bs[0], bs[1], bs[2]] == bs[..3];
  }

  lemma JoinedFour(bs: seq<byte>)
    requires Utf8Four(bs)
    ensures IsScalar(Join4(bs[0], bs[1], bs[2], bs[3])) && Utf8(Join4(bs[0], bs[1], bs[2], bs[3])) == bs[..4]
  {
    var w: int, x: int, y: int, z: int := bs[0] - 0xF0, bs[1] - 0x80, bs[2] - 0x80, bs[3] - 0x80;
    SixBits(w, x, y, z);
    var c: int := w * 0x4_0000 + x * 4096 + y * 64 + z;
    assert Join4(bs[0], bs[1], bs[2], bs[3]) == c;
    hide Join4;
    assert 0x1_0000 <= c < 0x11_0000;
    hide Utf8Four;
    assert Utf8(c) == [bs[0], bs[1], bs[2], bs[3]] == bs[..4];
  }

  lemma FirstScalar(bs: seq<byte>) returns (c: scalar, n: nat)
    requires WellFormed(bs) && bs != []
    ensures 1 <= n <= |bs| && Utf8(c) == bs[..n] && WellFormed(bs[n..])
  {
    if bs[0] < 0x80 {
      c, n := bs[0], 1;
    } else if Utf8Two(bs) {
      JoinedTwo(bs);
      c, n := Join2(bs[0], bs[1]), 2;
    } else if Utf8Three(bs) {
      JoinedThree(bs);
      c, n := Join3(bs[0], bs[1], bs[2]), 3;
    } else {
      JoinedFour(bs);
      c, n := Join4(bs[0], bs[1], bs[2], bs[3]), 4;
    }
    hide Join2, Join3, Join4;
  }

  /** The scalar values of units that encode scalar values are those. */
  lemma {:induction false} ScalarsOfUnits(cs: seq<scalar>)
    ensures Scalars(AllUtf16(cs)) == cs
  {
    if cs != [] {
      var c, rest := cs[0], AllUtf16(cs[1..]);
      FirstOfUtf16(c, rest);
      assert (Utf16(c) + rest)[|Utf16(c)|..] == rest;
      hide Utf16, FirstOfUnits;
      ScalarsOfUnits(cs[1..]);
    }
  }

  lemma FirstOfUtf16(c: scalar, rest: seq<unit>)
    ensures FirstOfUnits(Utf16(c) + rest) == Found(c, |Utf16(c)|)
  {
    var us := Utf16(c) + rest;
    assert us[0] == Utf16(c)[0] && (|Utf16(c)| == 2 ==> us[1] == Utf16(c)[1]);
  }

  /** Bytes come back unchanged exactly if they were well-formed UTF-8. */
  lemma BytesComeBackIffWellFormed(bs: seq<byte>)
    ensures AllUtf8(Scalars(ToUnits(bs))) == bs <==> WellFormed(bs)
  {
    if WellFormed(bs) {
      var cs := WellFormedIsEncoded(bs);
      ToUnitsOfScalars(cs);
      ScalarsOfUnits(cs);
    }
    AllUtf8IsWellFormed(Scalars(ToUnits(bs)));
  }
}
