/**
 Frames on a byte stream: a length prefix, then the frame. The decoder takes bytes in whatever pieces
 they come and checks a length before it waits for the body.
 */
module Codec {
  import opened Prelude
  import opened Varint

  const MAX_FRAME: nat := 0x40_0000
  const MAX_PREFIX: nat := 5

  datatype Oversize = FrameTooLarge

  datatype Head = Head(prefix: nat, length: nat)

  function TcpEncode(frame: seq<byte>): seq<byte> {
    Encode(|frame|) + frame
  }

  function Stream(frames: seq<seq<byte>>): seq<byte> {
    if frames == [] then [] else TcpEncode(frames[0]) + Stream(frames[1..])
  }

  // ── one decision on the buffered bytes ────────────────────────────────────

  /** The length prefix at the start of the buffer: not there yet, too long, of too long a frame, or known. */
  function Peek(buf: seq<byte>): Result<Option<Head>, Oversize> {
    var r := ReadVarint(buf, MAX_PREFIX);
    if r.TooShort? then Ok(None)
    else if r.TooLong? || r.v > MAX_FRAME then Err(FrameTooLarge)
    else Ok(Some(Head(r.used, r.v)))
  }

  /** Is there a whole frame at the start of the buffer? */
  predicate Complete(buf: seq<byte>) {
    Peek(buf).Ok? && Peek(buf).value.Some? && Peek(buf).value.value.prefix + Peek(buf).value.value.length <= |buf|
  }

  /** May these bytes be added? Only a buffer that does not even know its length may become too large. */
  function MayPush(buf: seq<byte>, data: seq<byte>): Result<(), Oversize> {
    if |buf| + |data| <= MAX_FRAME + MAX_PREFIX then Ok(())
    else if Peek(buf).Err? then Err(Peek(buf).error)
    else if Peek(buf).value.None? then Err(FrameTooLarge)
    else Ok(())
  }

  class TcpDecoder {
    var buf: seq<byte>

    constructor ()
      ensures buf == []
    {
      buf := [];
    }

    method Push(data: seq<byte>) returns (r: Result<(), Oversize>)
      modifies this
      ensures Step(State(old(buf), [], false), Pushed(data)) == State(buf, [], r.Err?)
    {
      if |buf| + |data| > MAX_FRAME + MAX_PREFIX {
        var head := PeekLen();
        if head.Err? { return Err(head.error); }
        if head.value.None? { return Err(FrameTooLarge); }
      }
      buf := buf + data;
      return Ok(());
    }

    method PeekLen() returns (r: Result<Option<Head>, Oversize>)
      ensures r == Peek(buf)
    {
      var read := ReadBytes(buf, 0, MAX_PREFIX);
      assert buf[0..] == buf;
      if read.TooShort? { return Ok(None); }
      if read.TooLong? || read.v > MAX_FRAME { return Err(FrameTooLarge); }
      return Ok(Some(Head(read.used, read.v)));
    }

    method NextFrame() returns (r: Result<Option<seq<byte>>, Oversize>)
      modifies this
      ensures Step(State(old(buf), [], false), Taken) == State(buf, if r.Ok? && r.value.Some? then [r.value.value] else [], r.Err?)
    {
      var head := PeekLen();
      if head.Err? { return Err(head.error); }
      if head.value.None? { return Ok(None); }
      var h := head.value.value;
      if |buf| < h.prefix + h.length { return Ok(None); }
      var frame := buf[h.prefix..h.prefix + h.length];
      buf := buf[h.prefix + h.length..];
      return Ok(Some(frame));
    }
  }

  // ── any interleaving of pushing and taking ────────────────────────────────

  datatype Act = Pushed(chunk: seq<byte>) | Taken

  /** The decoder and the frames it has given out; `failed` after an error. */
  datatype State = State(buf: seq<byte>, out: seq<seq<byte>>, failed: bool)

  /** What `Push` and `NextFrame` do to it. */
  function Step(s: State, a: Act): State {
    match a
    case Pushed(chunk) => if MayPush(s.buf, chunk).Ok? then s.(buf := s.buf + chunk) else s.(failed := true)
    case Taken =>
      if Peek(s.buf).Err? then s.(failed := true)
      else if !Complete(s.buf) then s
      else
        var h := Peek(s.buf).value.value;
        s.(buf := s.buf[h.prefix + h.length..], out := s.out + [s.buf[h.prefix..h.prefix + h.length]])
  }

  function Run(s: State, acts: seq<Act>): State
    decreases |acts|
  {
    if acts == [] then s else Run(Step(s, acts[0]), acts[1..])
  }

  /** All bytes pushed, in order. */
  function Arrived(acts: seq<Act>): seq<byte> {
    if acts == [] then []
    else (if acts[0].Pushed? then acts[0].chunk else []) + Arrived(acts[1..])
  }

  /** Frames a sender may send. */
  predicate Sendable(frames: seq<seq<byte>>) {
    forall f :: f in frames ==> |f| <= MAX_FRAME
  }

  predicate Chunked(acts: seq<Act>, max: nat) {
    forall a :: a in acts && a.Pushed? ==> |a.chunk| <= max
  }

  /** Two ways of cutting the same bytes in two, the first cut later than the second. */
  lemma CutTwice(a: seq<byte>, b: seq<byte>, c: seq<byte>, d: seq<byte>)
    requires a + b == c + d && |c| <= |a|
    ensures a == c + a[|c|..] && a[|c|..] + b == d
  {
    assert a == (a + b)[..|a|] && c == (c + d)[..|c|];
    assert a[..|c|] == c;
    assert d == (c + d)[|c|..];
  }

  /** What the decoder sees of a stream it has the first bytes of. */
  lemma PeekOfStream(frames: seq<seq<byte>>, buf: seq<byte>, rest: seq<byte>)
    requires Sendable(frames) && buf + rest == Stream(frames)
    ensures Peek(buf).Ok?
    ensures Peek(buf).value.None? ==> |buf| <= 3
    ensures Peek(buf).value.Some? ==> frames != [] && Peek(buf).value.value == Head(Size(|frames[0]|), |frames[0]|)
    ensures Peek(buf).value.Some? ==> Peek(buf).value.value.prefix <= 4
  {
    PowersOf128();
    if frames == [] {
      assert buf == [];
    } else {
      var n := |frames[0]|;
      assert frames[0] in frames;
      SizeIs(n, 4);
      var tail := frames[0] + Stream(frames[1..]);
      assert Stream(frames) == Encode(n) + tail;
      hide Encode, ReadVarint, Stream;
      if |buf| < Size(n) {
        CutTwice(Encode(n), tail, buf, rest);
        ReadOfPrefix(n, |buf|, MAX_PREFIX);
        assert buf == Encode(n)[..|buf|];
      } else {
        CutTwice(buf, rest, Encode(n), tail);
        ReadUndoesEncode(n, buf[Size(n)..], MAX_PREFIX);
      }
    }
  }

  /** A complete frame at the start of the buffer is the next frame of the stream. */
  lemma TakeOfStream(frames: seq<seq<byte>>, buf: seq<byte>, rest: seq<byte>)
    requires Sendable(frames) && buf + rest == Stream(frames) && Complete(buf)
    ensures var h := Peek(buf).value.value;
      && frames != [] && buf[h.prefix..h.prefix + h.length] == frames[0]
      && buf == TcpEncode(frames[0]) + buf[h.prefix + h.length..]
      && buf[h.prefix + h.length..] + rest == Stream(frames[1..])
  {
    PeekOfStream(frames, buf, rest);
    var first := TcpEncode(frames[0]);
    assert Stream(frames) == first + Stream(frames[1..]);
    assert |first| == Peek(buf).value.value.prefix + Peek(buf).value.value.length;
    hide Peek, Stream, Encode;
    CutTwice(buf, rest, first, Stream(frames[1..]));
    assert buf[Size(|frames[0]|)..|first|] == first[Size(|frames[0]|)..] == frames[0];
  }

  /** The frames `out` have come out, and the rest of the stream is in the buffer or still to come. */
  ghost predicate InStep(s: State, to: seq<byte>, frames: seq<seq<byte>>, k: nat) {
    !s.failed && k <= |frames| && s.out == frames[..k] && s.buf + to == Stream(frames[k..])
  }

  lemma StepInStep(s: State, a: Act, more: seq<byte>, frames: seq<seq<byte>>, k: nat) returns (j: nat)
    requires Sendable(frames) && InStep(s, (if a.Pushed? then a.chunk else []) + more, frames, k)
    requires a.Pushed? ==> |a.chunk| <= MAX_FRAME + 2
    ensures k <= j && InStep(Step(s, a), more, frames, j)
  {
    j := k;
    var here := (if a.Pushed? then a.chunk else []) + more;
    assert forall f :: f in frames[k..] ==> f in frames;
    PeekOfStream(frames[k..], s.buf, here);
    if a.Pushed? {
      assert s.buf + (a.chunk + more) == s.buf + a.chunk + more;
      hide Peek, Stream, Sendable;
    } else {
      assert [] + more == more;
      hide MayPush;
      if Complete(s.buf) {
        TakeOfStream(frames[k..], s.buf, here);
        j := k + 1;
        assert frames[k..][1..] == frames[j..] && frames[..k] + [frames[k]] == frames[..j];
      }
    }
  }

  /**
   For every list of frames, every cutting of the stream into pieces of at most `MAX_FRAME + 2` bytes, and every
   interleaving of pushing with taking: no error, and the frames come out once each and in order.
   */
  lemma {:induction false} DecodingFollowsTheStream(
    s: State, acts: seq<Act>, rest: seq<byte>, frames: seq<seq<byte>>, k: nat) returns (j: nat)
    requires Sendable(frames) && Chunked(acts, MAX_FRAME + 2) && InStep(s, Arrived(acts) + rest, frames, k)
    ensures k <= j && InStep(Run(s, acts), rest, frames, j)
    decreases |acts|
  {
    if acts == [] {
      j := k;
      assert [] + rest == rest;
    } else {
      assert acts[0] in acts && forall a :: a in acts[1..] ==> a in acts;
      var chunk := if acts[0].Pushed? then acts[0].chunk else [];
      assert Arrived(acts) + rest == chunk + (Arrived(acts[1..]) + rest);
      hide InStep, Step, Arrived;
      j := StepInStep(s, acts[0], Arrived(acts[1..]) + rest, frames, k);
      j := DecodingFollowsTheStream(Step(s, acts[0]), acts[1..], rest, frames, j);
    }
  }

  const FRESH := State([], [], false)

  /** Once everything has arrived and nothing more comes out, all frames are out and the buffer is empty. */
  lemma DecodingUndoesFraming(frames: seq<seq<byte>>, acts: seq<Act>)
    requires Sendable(frames) && Chunked(acts, MAX_FRAME + 2) && Arrived(acts) == Stream(frames)
    ensures !Run(FRESH, acts).failed
    ensures !Complete(Run(FRESH, acts).buf) ==> Run(FRESH, acts).out == frames && Run(FRESH, acts).buf == []
  {
    assert frames[0..] == frames && frames[..0] == [] && [] + (Arrived(acts) + []) == Stream(frames);
    var j := DecodingFollowsTheStream(FRESH, acts, [], frames, 0);
    var d := Run(FRESH, acts);
    assert d.buf + [] == d.buf;
    if j < |frames| {
      WholeFrameIsComplete(frames[j], Stream(frames[j + 1..]));
      assert frames[j..][1..] == frames[j + 1..];
      assert frames[j] in frames;
    }
  }

  lemma WholeFrameIsComplete(frame: seq<byte>, rest: seq<byte>)
    requires |frame| <= MAX_FRAME
    ensures Complete(TcpEncode(frame) + rest)
  {
    PowersOf128();
    ReadUndoesEncode(|frame|, frame + rest, MAX_PREFIX);
    assert TcpEncode(frame) + rest == Encode(|frame|) + (frame + rest);
    hide Encode, ReadVarint;
  }

  /** Of any length there might be at the head of the buffer: it is accepted exactly up to the largest frame. */
  lemma LengthIsRefusedIff(n: nat, rest: seq<byte>)
    ensures Peek(Encode(n) + rest) == if n <= MAX_FRAME then Ok(Some(Head(Size(n), n))) else Err(FrameTooLarge)
  {
    PowersOf128();
    hide ReadVarint, Encode, Power;
    if n < Power(5) { ReadUndoesEncode(n, rest, 5); } else { ReadTooLong(n, rest, 5); }
  }

  /** Before a piece of the stream is added: exactly when it is refused. */
  lemma PushFailsIff(frames: seq<seq<byte>>, buf: seq<byte>, chunk: seq<byte>, rest: seq<byte>)
    requires Sendable(frames) && buf + (chunk + rest) == Stream(frames)
    ensures MayPush(buf, chunk).Err? <==> MAX_FRAME + MAX_PREFIX < |buf| + |chunk| && Peek(buf) == Ok(None)
  {
    PeekOfStream(frames, buf, chunk + rest);
  }

  /** The bound on the pieces is exact: with one byte more, a valid stream can be refused. */
  lemma LargerPiecesCanFail()
    ensures var frames := [seq(MAX_FRAME, _ => 0), [7]];
      var stream := Stream(frames);
      && Sendable(frames) && 3 <= |stream| && |stream[3..]| == MAX_FRAME + 3
      && Run(FRESH, [Pushed(stream[..3]), Pushed(stream[3..])]).failed
  {
    var big: seq<byte> := seq(MAX_FRAME, _ => 0);
    var frames: seq<seq<byte>> := [big, [7]];
    var stream := Stream(frames);
    PowersOf128();
    SizeIs(MAX_FRAME, 3);
    SizeIs(MAX_FRAME, 4);
    SizeIs(1, 1);
    assert frames[1..] == [[7]] && frames[1..][1..] == [];
    var last: seq<seq<byte>> := [[7]];
    assert last[1..] == [] && Stream(last[1..]) == [];
    assert Stream(last) == Encode(1) + [7];
    assert stream == TcpEncode(big) + Stream(last);
    assert stream == Encode(MAX_FRAME) + (big + (Encode(1) + [7]));
    hide Encode;
    ReadOfPrefix(MAX_FRAME, 3, MAX_PREFIX);
    assert stream[..3] == Encode(MAX_FRAME)[..3];
    var acts := [Pushed(stream[..3]), Pushed(stream[3..])];
    assert acts[1..] == [Pushed(stream[3..])] && acts[1..][1..] == [];
    assert [] + stream[..3] == stream[..3];
    assert ReadVarint([], MAX_PREFIX).TooShort?;
    assert Step(FRESH, acts[0]) == State(stream[..3], [], false);
    assert Peek(stream[..3]) == Ok(None);
    assert |stream[3..]| == MAX_FRAME + 3;
    hide ReadVarint, Stream;
    assert Step(State(stream[..3], [], false), acts[1]).failed;
    StaysFailed(Step(State(stream[..3], [], false), acts[1]), []);
  }

  lemma {:induction false} StaysFailed(s: State, acts: seq<Act>)
    requires s.failed
    ensures Run(s, acts).failed
    decreases |acts|
  {
    if acts != [] { StaysFailed(Step(s, acts[0]), acts[1..]); }
  }

  /** A caller who takes all it can before each push never holds more than a frame, its prefix and one piece. */
  lemma DrainedBufferIsBounded(frames: seq<seq<byte>>, buf: seq<byte>, rest: seq<byte>, chunk: seq<byte>)
    requires Sendable(frames) && buf + rest == Stream(frames) && !Complete(buf)
    ensures |buf + chunk| < MAX_FRAME + 4 + |chunk|
  {
    PeekOfStream(frames, buf, rest);
    if Peek(buf).value.Some? { assert frames[0] in frames; }
  }
}
