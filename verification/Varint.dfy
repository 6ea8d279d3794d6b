/**
 Variable-length integers: seven bits a byte, least significant first, the high bit set on all but
 the last. One reader serves the frame prefix, at most five bytes long, and the numbers and keys of
 the bot's messages, at most ten.
 */
module Varint {
  import opened Prelude

  function Encode(n: nat): (bs: seq<byte>)
    ensures bs != []
  {
    if n < 128 then [n] else [128 + n % 128] + Encode(n / 128)
  }

  /** The number of bytes of the encoding. */
  function Size(n: nat): nat {
    |Encode(n)|
  }

  function Power(k: nat): (p: nat)
    ensures p >= 1
  {
    if k == 0 then 1 else 128 * Power(k - 1)
  }

  /** What a reader allowed `max` bytes finds at the start of `buf`. */
  datatype Read = Value(v: nat, used: nat) | TooShort | TooLong

  function ReadVarint(buf: seq<byte>, max: nat): (r: Read)
    ensures r.Value? ==> 1 <= r.used <= max && r.used <= |buf|
    ensures r.TooShort? ==> |buf| < max
    decreases max
  {
    if max == 0 then TooLong
    else if buf == [] then TooShort
    else if buf[0] < 128 then Value(buf[0], 1)
    else
      var r := ReadVarint(buf[1..], max - 1);
      if r.Value? then Value(buf[0] - 128 + 128 * r.v, r.used + 1) else r
  }

  lemma PowerSplits(n: nat, k: nat)
    requires k > 0 && n < Power(k)
    ensures n / 128 < Power(k - 1)
  {
  }

  /** Encoding and reading are inverse, whatever follows, if the reader may use enough bytes. */
  lemma {:induction false} ReadUndoesEncode(n: nat, rest: seq<byte>, max: nat)
    requires n < Power(max) && max >= 1
    ensures ReadVarint(Encode(n) + rest, max) == Value(n, Size(n))
    ensures Size(n) <= max
    decreases n
  {
    if n >= 128 {
      assert Power(1) == 128 * Power(0);
      PowerSplits(n, max);
      ReadUndoesEncode(n / 128, rest, max - 1);
      assert Encode(n) + rest == [128 + n % 128] + (Encode(n / 128) + rest);
    } else {
      assert Encode(n) + rest == [n] + rest;
    }
  }

  /** The bytes themselves: seven bits each, the lowest first, and all but the last marked. */
  lemma {:induction false} BytesOfEncoded(n: nat, i: nat)
    requires i < Size(n)
    ensures Encode(n)[i] == n / Power(i) % 128 + if i < Size(n) - 1 then 128 else 0
    decreases n
  {
    if n >= 128 && i > 0 {
      BytesOfEncoded(n / 128, i - 1);
      DivideTwice(n, Power(i - 1));
      assert Power(i) == 128 * Power(i - 1);
    } else {
      assert Power(0) == 1 && n / 1 == n;
    }
  }

  lemma DivideTwice(n: nat, p: nat)
    requires p >= 1
    ensures n / 128 / p == n / (128 * p)
  {
    var q, r := n / 128 / p, n / 128 % p;
    assert n / 128 == p * q + r;
    var s := n % 128;
    assert n == 128 * (n / 128) + s == 128 * p * q + (128 * r + s);
    assert 0 <= 128 * r + s < 128 * p;
    DivisionIs(n, 128 * p, q, 128 * r + s);
  }

  lemma DivisionIs(n: nat, d: nat, q: nat, r: nat)
    requires d >= 1 && n == d * q + r && r < d
    ensures n / d == q
  {
    var e, s := n / d, n % d;
    assert n == d * e + s && 0 <= s < d;
    assert d * (e - q) == d * e - d * q == r - s;
    if e > q { TimesGrows(d, e - q); }
    if e < q { TimesGrows(d, q - e); }
  }

  lemma TimesGrows(d: nat, k: nat)
    requires k >= 1
    ensures d <= d * k
  {
  }

  /** A number with more bytes than the reader may use is refused. */
  lemma {:induction false} ReadTooLong(n: nat, rest: seq<byte>, max: nat)
    requires Power(max) <= n
    ensures ReadVarint(Encode(n) + rest, max) == TooLong
    decreases n
  {
    if max > 0 {
      assert Power(max) == 128 * Power(max - 1) && n >= 128;
      ReadTooLong(n / 128, rest, max - 1);
      assert Encode(n) + rest == [128 + n % 128] + (Encode(n / 128) + rest);
    }
  }

  /** A reader that has not got the whole encoding yet asks for more. */
  lemma {:induction false} ReadOfPrefix(n: nat, k: nat, max: nat)
    requires n < Power(max) && max >= 1 && k < Size(n)
    ensures ReadVarint(Encode(n)[..k], max) == TooShort
    decreases n
  {
    if n >= 128 {
      assert Power(1) == 128 * Power(0);
      PowerSplits(n, max);
      if k > 0 {
        ReadOfPrefix(n / 128, k - 1, max - 1);
        assert Encode(n)[..k][1..] == Encode(n / 128)[..k - 1];
      }
    } else {
    }
  }

  lemma {:induction false} SizeGrows(n: nat, m: nat)
    requires n <= m
    ensures Size(n) <= Size(m)
    decreases m
  {
    if n >= 128 { SizeGrows(n / 128, m / 128); }
  }

  /** The size of the encoding steps up exactly at the powers of 128. */
  lemma {:induction false} SizeIs(n: nat, k: nat)
    requires k >= 1
    ensures Size(n) <= k <==> n < Power(k)
    decreases n
  {
    if k == 1 {
      assert Power(1) == 128 * Power(0);
    } else if n >= 128 {
      SizeIs(n / 128, k - 1);
      assert n / 128 < Power(k - 1) <==> n < Power(k);
    } else {
      assert Power(k) == 128 * Power(k - 1);
    }
  }

  lemma PowersOf128()
    ensures Power(1) == 0x80 && Power(2) == 0x4000 && Power(3) == 0x20_0000 && Power(4) == 0x1000_0000
    ensures Power(5) == 0x8_0000_0000 && Power(9) == 0x8000_0000_0000_0000 && Power(10) == 0x40_0000_0000_0000_0000
  {
    assert Power(3) == 128 * Power(2) && Power(2) == 128 * Power(1) && Power(1) == 128 * Power(0);
    assert Power(5) == 128 * Power(4) && Power(4) == 128 * Power(3);
    assert Power(7) == 128 * Power(6) && Power(6) == 128 * Power(5);
    assert Power(9) == 128 * Power(8) && Power(8) == 128 * Power(7) && Power(10) == 128 * Power(9);
  }

  // ── the loops ─────────────────────────────────────────────────────────────

  const TWO_TO_64: nat := 0x1_0000_0000_0000_0000

  /** The bot's encoder: the number is first reduced to 64 bits. */
  method WriteVarint(value: int) returns (out: seq<byte>)
    ensures out == Encode(value % TWO_TO_64)
  {
    var n: nat := value % TWO_TO_64;
    ghost var whole := Encode(n);
    out := [];
    while true
      invariant out + Encode(n) == whole
      decreases n
    {
      var b: byte := n % 128;
      EncodeFirst(n);
      n := n / 128;
      if n == 0 {
        out := out + [b];
        return;
      }
      assert out + ([128 + b] + Encode(n)) == out + [128 + b] + Encode(n);
      out := out + [128 + b];
    }
  }

  lemma EncodeFirst(n: nat)
    ensures Encode(n) == if n / 128 == 0 then [n % 128] else [128 + n % 128] + Encode(n / 128)
  {
  }

  /** A reader that takes one byte after another, shifting each into place. */
  method ReadBytes(buf: seq<byte>, at: nat, max: nat) returns (r: Read)
    requires at <= |buf|
    ensures r == ReadVarint(buf[at..], max)
  {
    var v: nat, i: nat, unit: nat := 0, 0, 1;
    while i < max
      invariant i <= max && at + i <= |buf| && unit == Power(i)
      invariant ReadVarint(buf[at..], max) == Shifted(ReadVarint(buf[at + i..], max - i), v, i)
      decreases max - i
    {
      if at + i == |buf| { return TooShort; }
      var b := buf[at + i];
      assert buf[at + i..][0] == b && buf[at + i..][1..] == buf[at + i + 1..];
      ShiftOnce(ReadVarint(buf[at + i + 1..], max - i - 1), v, i, b);
      v := v + unit * (b % 128);
      if b < 128 { return Value(v, i + 1); }
      unit, i := 128 * unit, i + 1;
    }
    return TooLong;
  }

  /** The reading of the rest, with `i` bytes before it that came to `v`. */
  function Shifted(r: Read, v: nat, i: nat): Read {
    if r.Value? then Value(v + Power(i) * r.v, r.used + i) else r
  }

  lemma ShiftOnce(r: Read, v: nat, i: nat, b: byte)
    ensures b >= 128 && r.Value? ==>
      Shifted(Value(b - 128 + 128 * r.v, r.used + 1), v, i) == Shifted(r, v + Power(i) * (b % 128), i + 1)
  {
    if b >= 128 && r.Value? {
      assert Power(i + 1) == 128 * Power(i);
      assert Power(i) * (b - 128 + 128 * r.v) == Power(i) * (b - 128) + Power(i) * (128 * r.v);
      assert Power(i) * (128 * r.v) == 128 * Power(i) * r.v;
    }
  }
}
