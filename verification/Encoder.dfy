/**
  The stateful huddle encoder: arbitrary s16le PCM in, numbered 20 ms wire
  frames out. Opus is a deterministic step function chosen by the caller.
*/
module Encoder {

  import opened Wrappers
  import opened Wire
  import opened Sequences

  const FRAME_SAMPLES := 960
  const DTX_MAX_PAYLOAD := 2

  type Frame = seq<Byte>

  /** An Opus encoder, its initial state, and the level meter run on the raw PCM. */
  datatype Codec<!C> = Codec(init: C, step: (C, seq<Sample>) -> (C, seq<Byte>), level: seq<Sample> -> Level)

  /** `count` frames have been emitted; the two counters follow from it. */
  datatype State<C> = State(codec: C, carry: seq<Sample>, count: nat)

  function Fresh<C>(k: Codec<C>): State<C> {
    State(k.init, [], 0)
  }

  function Listed<T>(o: Option<T>): seq<T> {
    match o
    case None => []
    case Some(x) => [x]
  }

  /** The sequence number of the n-th frame (from 0): one on from the last, wrapping. */
  function SeqOf(n: nat): U16 {
    if n == 0 then 0
    else if SeqOf(n - 1) + 1 < 0x1_0000 then SeqOf(n - 1) + 1
    else 0
  }

  /** Its timestamp. */
  function TsOf(n: nat): U32 {
    if n == 0 then 0
    else if TsOf(n - 1) + FRAME_SAMPLES < 0x1_0000_0000 then TsOf(n - 1) + FRAME_SAMPLES
    else TsOf(n - 1) + FRAME_SAMPLES - 0x1_0000_0000
  }

  function FlagsFor(packet: seq<Byte>): Byte {
    if |packet| <= DTX_MAX_PAYLOAD then FLAG_DTX else 0
  }

  function WireFrame(seqNo: U16, ts: U32, level: Level, packet: seq<Byte>): Frame {
    EncodeHeader(seqNo, ts, level, FlagsFor(packet)) + packet
  }

  function NthFrame(n: nat, level: Level, packet: seq<Byte>): Frame {
    WireFrame(SeqOf(n), TsOf(n), level, packet)
  }

  /** One codec call; an empty packet is not sent and consumes no counter. */
  function FrameStep<C>(k: Codec<C>, s: State<C>, chunk: seq<Sample>): (State<C>, Option<Frame>) {
    var (c, packet) := k.step(s.codec, chunk);
    if packet == [] then
      (s.(codec := c), None)
    else
      (State(c, s.carry, s.count + 1), Some(NthFrame(s.count, k.level(chunk), packet)))
  }

  /** Encode whole frames off the front of the carry until less than one is left. */
  function DrainStep<C>(k: Codec<C>, s: State<C>): (State<C>, seq<Frame>)
    decreases |s.carry|
  {
    if |s.carry| < FRAME_SAMPLES then
      (s, [])
    else
      var (s1, frame) := FrameStep(k, s.(carry := s.carry[FRAME_SAMPLES..]), s.carry[..FRAME_SAMPLES]);
      var (s2, frames) := DrainStep(k, s1);
      (s2, Listed(frame) + frames)
  }

  /** A result with frames that were already produced put in front. */
  function After<C>(frames: seq<Frame>, r: (State<C>, seq<Frame>)): (State<C>, seq<Frame>) {
    (r.0, frames + r.1)
  }

  lemma AfterNothing<C>(r: (State<C>, seq<Frame>))
    ensures After([], r) == r
  {
    assert [] + r.1 == r.1;
  }

  lemma AfterTwice<C>(a: seq<Frame>, b: seq<Frame>, r: (State<C>, seq<Frame>))
    ensures After(a, After(b, r)) == After(a + b, r)
  {
    assert a + (b + r.1) == a + b + r.1;
  }

  /** One turn of the drain loop at `offset`, the rest of the buffer still to come. */
  lemma DrainTurn<C>(k: Codec<C>, s: State<C>, offset: nat, frames: seq<Frame>)
    requires offset + FRAME_SAMPLES <= |s.carry|
    ensures var (s1, frame) := FrameStep(k, s, s.carry[offset..offset + FRAME_SAMPLES]);
            After(frames, DrainStep(k, s.(carry := s.carry[offset..])))
            == After(frames + Listed(frame), DrainStep(k, s1.(carry := s.carry[offset + FRAME_SAMPLES..])))
  {
    var rest := s.carry[offset..];
    assert rest[..FRAME_SAMPLES] == s.carry[offset..offset + FRAME_SAMPLES];
    assert rest[FRAME_SAMPLES..] == s.carry[offset + FRAME_SAMPLES..];
    var (s1, frame) := FrameStep(k, s, s.carry[offset..offset + FRAME_SAMPLES]);
    AfterTwice(frames, Listed(frame), DrainStep(k, s1.(carry := rest[FRAME_SAMPLES..])));
  }

  function Silence(n: nat): seq<Sample> {
    seq(n, _ => 0)
  }

  function SilencePcm(n: nat): seq<Byte> {
    seq(2 * n, _ => 0)
  }

  /** `Vec::resize`: pads with zeros, or cuts. */
  function Resize(samples: seq<Sample>, n: nat): seq<Sample> {
    if |samples| <= n then samples + Silence(n - |samples|) else samples[..n]
  }

  function FeedStep<C>(k: Codec<C>, s: State<C>, samples: seq<Sample>): (State<C>, seq<Frame>) {
    DrainStep(k, s.(carry := s.carry + samples))
  }

  datatype Call = Encode(pcm: seq<Byte>) | Flush | Discard

  /** One public call. A rejected odd-length `encode` leaves the encoder as it was. */
  function CallStep<C>(k: Codec<C>, s: State<C>, call: Call): (State<C>, seq<Frame>) {
    match call
    case Encode(pcm) =>
      var samples := PcmToSamples(pcm);
      if samples.Failure? then (s, []) else FeedStep(k, s, samples.value)
    case Flush =>
      if s.carry == [] then (s, [])
      else
        var (s1, frame) := FrameStep(k, s.(carry := []), Resize(s.carry, FRAME_SAMPLES));
        (s1, Listed(frame))
    case Discard =>
      (s.(carry := []), [])
  }

  function Run<C>(k: Codec<C>, s: State<C>, calls: seq<Call>): (State<C>, seq<Frame>)
    decreases |calls|
  {
    if calls == [] then (s, [])
    else
      var (s1, frames) := CallStep(k, s, calls[0]);
      var (s2, more) := Run(k, s1, calls[1..]);
      (s2, frames + more)
  }

  lemma {:induction false} RunSnoc<C>(k: Codec<C>, s: State<C>, calls: seq<Call>, call: Call)
    ensures var (s1, frames) := Run(k, s, calls);
            Run(k, s, calls + [call]) == After(frames, CallStep(k, s1, call))
    decreases |calls|
  {
    if calls == [] {
      assert calls + [call] == [call];
      var (s1, frames) := CallStep(k, s, call);
      assert Run(k, s1, [call][1..]) == (s1, []);
      assert frames + [] == frames;
      AfterNothing(CallStep(k, s, call));
    } else {
      assert (calls + [call])[1..] == calls[1..] + [call];
      var (s1, frames) := CallStep(k, s, calls[0]);
      RunSnoc(k, s1, calls[1..], call);
      var (s2, more) := Run(k, s1, calls[1..]);
      AfterTwice(frames, more, CallStep(k, s2, call));
    }
  }

  // ------------------------------------------------------------- the encoder

  class EncoderInner<C> {
    const k: Codec<C>
    var codec: C
    var carry: seq<Sample>
    var seqNo: U16
    var ts: U32
    ghost var count: nat    // the frames emitted so far

    ghost function Abs(): State<C>
      reads this
    {
      State(codec, carry, count)
    }

    /** The counters are those of the next frame. */
    ghost predicate Valid()
      reads this
    {
      seqNo == SeqOf(count) && ts == TsOf(count)
    }

    constructor (k: Codec<C>)
      ensures Valid() && this.k == k && Abs() == Fresh(k)
    {
      this.k := k;
      codec := k.init;
      carry := [];
      seqNo, ts, count := 0, 0, 0;
    }

    method EncodeFrame(chunk: seq<Sample>) returns (frame: Option<Frame>)
      requires Valid()
      modifies this
      ensures Valid()
      ensures (Abs(), frame) == FrameStep(k, old(Abs()), chunk)
    {
      var level := k.level(chunk);
      var (c, packet) := k.step(codec, chunk);
      codec := c;
      if |packet| == 0 {
        return None;
      }
      var flags: Byte := if |packet| <= DTX_MAX_PAYLOAD then FLAG_DTX else 0;
      frame := Some(EncodeHeader(seqNo, ts, level, flags) + packet);
      seqNo, count := (seqNo + 1) % 0x1_0000, count + 1;
      ts := (ts + FRAME_SAMPLES) % 0x1_0000_0000;
    }

    method Drain(pcm: seq<Byte>) returns (r: Result<seq<Frame>, string>)
      requires Valid()
      modifies this
      ensures Valid()
      ensures r.Failure? <==> |pcm| % 2 != 0
      ensures (Abs(), if r.Success? then r.value else []) == CallStep(k, old(Abs()), Encode(pcm))
    {
      var samples := PcmToSamples(pcm);
      if samples.Failure? {
        return Failure(samples.error);
      }
      carry := carry + samples.value;
      var frames := EncodeWholeFrames();
      r := Success(frames);
    }

    /** The loop of `drain`: the offset runs ahead, the carry is cut once at the end. */
    method EncodeWholeFrames() returns (frames: seq<Frame>)
      requires Valid()
      modifies this
      ensures Valid()
      ensures (Abs(), frames) == DrainStep(k, old(Abs()))
    {
      frames := [];
      var offset := 0;
      ghost var goal := DrainStep(k, Abs());
      AfterNothing(goal);
      assert carry[0..] == carry;
      while |carry| - offset >= FRAME_SAMPLES
        invariant Valid() && 0 <= offset <= |carry| && carry == old(carry)
        invariant After(frames, DrainStep(k, Abs().(carry := carry[offset..]))) == goal
      {
        var chunk := carry[offset..offset + FRAME_SAMPLES];
        DrainTurn(k, Abs(), offset, frames);
        var frame := EncodeFrame(chunk);
        frames := frames + Listed(frame);
        offset := offset + FRAME_SAMPLES;
      }
      carry := carry[offset..];
      assert frames + [] == frames;
    }

    method Flush() returns (frame: Option<Frame>)
      requires Valid()
      modifies this
      ensures Valid()
      ensures (Abs(), Listed(frame)) == CallStep(k, old(Abs()), Call.Flush)
    {
      if carry == [] {
        return None;
      }
      var chunk := carry;
      carry := [];
      chunk := Resize(chunk, FRAME_SAMPLES);
      frame := EncodeFrame(chunk);
    }

    method Discard()
      requires Valid()
      modifies this
      ensures Valid()
      ensures (Abs(), []) == CallStep(k, old(Abs()), Call.Discard)
    {
      carry := [];
    }
  }

  // ------------------------------------------------- invariance under chunking

  /** Draining, then feeding more, is feeding everything and draining once. */
  lemma {:induction false} DrainSplit<C>(k: Codec<C>, s: State<C>, more: seq<Sample>)
    ensures var (s1, frames) := DrainStep(k, s);
            FeedStep(k, s, more) == After(frames, FeedStep(k, s1, more))
    decreases |s.carry|
  {
    if |s.carry| < FRAME_SAMPLES {
      AfterNothing(FeedStep(k, s, more));
    } else {
      var all := s.carry + more;
      assert all[..FRAME_SAMPLES] == s.carry[..FRAME_SAMPLES];
      assert all[FRAME_SAMPLES..] == s.carry[FRAME_SAMPLES..] + more;
      var (s1, frame) := FrameStep(k, s.(carry := s.carry[FRAME_SAMPLES..]), s.carry[..FRAME_SAMPLES]);
      DrainSplit(k, s1, more);
      var (s2, frames) := DrainStep(k, s1);
      AfterTwice(Listed(frame), frames, FeedStep(k, s2, more));
    }
  }

  lemma FeedTwice<C>(k: Codec<C>, s: State<C>, a: seq<Sample>, b: seq<Sample>)
    ensures var (s1, frames) := FeedStep(k, s, a);
            FeedStep(k, s, a + b) == After(frames, FeedStep(k, s1, b))
  {
    assert s.carry + (a + b) == s.carry + a + b;
    DrainSplit(k, s.(carry := s.carry + a), b);
  }

  function Encodes(pieces: seq<seq<Byte>>): seq<Call>
    decreases |pieces|
  {
    if pieces == [] then [] else [Encode(pieces[0])] + Encodes(pieces[1..])
  }

  /** The stream an encoder hears: odd-length pieces are rejected whole. */
  function Heard(pieces: seq<seq<Byte>>): (pcm: seq<Byte>)
    ensures |pcm| % 2 == 0
    decreases |pieces|
  {
    if pieces == [] then []
    else (if |pieces[0]| % 2 == 0 then pieces[0] else []) + Heard(pieces[1..])
  }

  /**
    However a PCM stream is cut into calls, the wire frames, the counters, the
    codec and the carry are those of one call with the whole stream.
  */
  lemma {:induction false} ChunkingInvariance<C>(k: Codec<C>, s: State<C>, pieces: seq<seq<Byte>>)
    requires |s.carry| < FRAME_SAMPLES
    ensures Run(k, s, Encodes(pieces)) == CallStep(k, s, Encode(Heard(pieces)))
    decreases |pieces|
  {
    if pieces == [] {
      assert s.carry + [] == s.carry;
    } else {
      var rest := Heard(pieces[1..]);
      assert Encodes(pieces)[1..] == Encodes(pieces[1..]);
      var (s1, frames) := CallStep(k, s, Encode(pieces[0]));
      CarryStaysPartial(k, s, Encode(pieces[0]));
      ChunkingInvariance(k, s1, pieces[1..]);
      if |pieces[0]| % 2 == 0 {
        PcmConcat(pieces[0], rest);
        FeedTwice(k, s, PcmToSamples(pieces[0]).value, PcmToSamples(rest).value);
      } else {
        assert Heard(pieces) == rest;
        AfterNothing(Run(k, s, Encodes(pieces[1..])));
      }
    }
  }

  // --------------------------------------------------------- the carry and flush

  lemma OneFrameLess(n: nat)
    requires n >= FRAME_SAMPLES
    ensures (n - FRAME_SAMPLES) % FRAME_SAMPLES == n % FRAME_SAMPLES
  {
  }

  lemma {:induction false} DrainLeavesPartial<C>(k: Codec<C>, s: State<C>)
    ensures |DrainStep(k, s).0.carry| == |s.carry| % FRAME_SAMPLES
    decreases |s.carry|
  {
    if |s.carry| >= FRAME_SAMPLES {
      OneFrameLess(|s.carry|);
      DrainLeavesPartial(k, FrameStep(k, s.(carry := s.carry[FRAME_SAMPLES..]), s.carry[..FRAME_SAMPLES]).0);
    }
  }

  /** Between calls the carry never holds a whole frame, so a flush pads and never cuts. */
  lemma CarryStaysPartial<C>(k: Codec<C>, s: State<C>, call: Call)
    requires |s.carry| < FRAME_SAMPLES
    ensures |CallStep(k, s, call).0.carry| < FRAME_SAMPLES
  {
    if call.Encode? && |call.pcm| % 2 == 0 {
      DrainLeavesPartial(k, s.(carry := s.carry + PcmToSamples(call.pcm).value));
    }
  }

  lemma {:induction false} RunStaysPartial<C>(k: Codec<C>, s: State<C>, calls: seq<Call>)
    requires |s.carry| < FRAME_SAMPLES
    ensures |Run(k, s, calls).0.carry| < FRAME_SAMPLES
    decreases |calls|
  {
    if calls != [] {
      CarryStaysPartial(k, s, calls[0]);
      RunStaysPartial(k, CallStep(k, s, calls[0]).0, calls[1..]);
    }
  }

  lemma SilencePcmIsSilence(n: nat)
    ensures PcmToSamples(SilencePcm(n)) == Success(Silence(n))
  {
    assert |SilencePcm(n)| / 2 == n;
    assert PcmToSamples(SilencePcm(n)).value == Silence(n);
  }

  lemma DrainOneFrame<C>(k: Codec<C>, s: State<C>)
    requires FRAME_SAMPLES <= |s.carry| < 2 * FRAME_SAMPLES
    ensures var (s1, frame) := FrameStep(k, s.(carry := s.carry[FRAME_SAMPLES..]), s.carry[..FRAME_SAMPLES]);
            DrainStep(k, s) == (s1, Listed(frame))
  {
    var (s1, frame) := FrameStep(k, s.(carry := s.carry[FRAME_SAMPLES..]), s.carry[..FRAME_SAMPLES]);
    assert DrainStep(k, s1) == (s1, []);
    assert Listed(frame) + [] == Listed(frame);
  }

  /** Flushing a partial frame is feeding exactly the zero samples it lacks; flushing nothing is nothing. */
  lemma FlushIsZeroFill<C>(k: Codec<C>, s: State<C>, zeros: seq<Byte>)
    requires |s.carry| < FRAME_SAMPLES
    requires |zeros| == 2 * (FRAME_SAMPLES - |s.carry|) && forall i :: 0 <= i < |zeros| ==> zeros[i] == 0
    ensures CallStep(k, s, Flush) == if s.carry == [] then (s, []) else CallStep(k, s, Encode(zeros))
  {
    if s.carry != [] {
      var n := FRAME_SAMPLES - |s.carry|;
      assert zeros == SilencePcm(n);
      SilencePcmIsSilence(n);
      var fed := s.(carry := s.carry + Silence(n));
      DrainOneFrame(k, fed);
      assert fed.carry[..FRAME_SAMPLES] == Resize(s.carry, FRAME_SAMPLES);
      assert fed.carry[FRAME_SAMPLES..] == [];
    }
  }

  /** A discard forgets the samples buffered and nothing else: what comes after it is as if they had never been fed. */
  lemma DiscardForgets<C>(k: Codec<C>, s: State<C>, calls: seq<Call>)
    ensures Run(k, s, [Discard] + calls) == Run(k, State(s.codec, [], s.count), calls)
  {
    assert ([Discard] + calls)[1..] == calls;
    AfterNothing(Run(k, State(s.codec, [], s.count), calls));
  }

  /**
    The sender's silence fill: in every reachable state one frame of silence is
    exactly one codec call, on the buffered speech followed by zeros. So at most
    one wire frame results, with the next counters, and the carry keeps its
    length but is silence from then on.
  */
  lemma SilenceFill<C>(k: Codec<C>, s: State<C>)
    requires |s.carry| < FRAME_SAMPLES
    ensures var chunk := s.carry + Silence(FRAME_SAMPLES - |s.carry|);
            var (s1, frame) := FrameStep(k, s.(carry := Silence(|s.carry|)), chunk);
            CallStep(k, s, Encode(SilencePcm(FRAME_SAMPLES))) == (s1, Listed(frame))
            && |s1.carry| == |s.carry| && |Listed(frame)| <= 1
            && (forall i :: |s.carry| <= i < FRAME_SAMPLES ==> chunk[i] == 0)
            && (forall i :: 0 <= i < |s.carry| ==> s1.carry[i] == 0)
    ensures forall i :: 0 <= i < 2 * FRAME_SAMPLES ==> SilencePcm(FRAME_SAMPLES)[i] == 0
  {
    SilencePcmIsSilence(FRAME_SAMPLES);
    var fed := s.(carry := s.carry + Silence(FRAME_SAMPLES));
    DrainOneFrame(k, fed);
    assert fed.carry[..FRAME_SAMPLES] == s.carry + Silence(FRAME_SAMPLES - |s.carry|);
    assert fed.carry[FRAME_SAMPLES..] == Silence(|s.carry|);
  }

  // ------------------------------------------------------ counters over a life

  /** The counters in closed form. */
  lemma {:induction false} CountersClosed(n: nat)
    ensures SeqOf(n) == n % 0x1_0000 && TsOf(n) == FRAME_SAMPLES * n % 0x1_0000_0000
  {
    if n > 0 {
      CountersClosed(n - 1);
      AddWrap16(n - 1, 1);
      AddWrap32(FRAME_SAMPLES * (n - 1), FRAME_SAMPLES);
      assert FRAME_SAMPLES * (n - 1) + FRAME_SAMPLES == FRAME_SAMPLES * n;
    }
  }

  /** `frame` is the n-th frame (from 0) an encoder ever emitted. */
  predicate IsFrame(frame: Frame, n: nat) {
    && |frame| > HEADER_LEN
    && FromBe(frame[..2]) == SeqOf(n) && FromBe(frame[2..6]) == TsOf(n)
    && frame[7] == FlagsFor(frame[HEADER_LEN..])
  }

  predicate Numbered(frames: seq<Frame>, first: nat) {
    forall i :: 0 <= i < |frames| ==> IsFrame(frames[i], first + i)
  }

  lemma NumberedConcat(a: seq<Frame>, b: seq<Frame>, first: nat)
    requires Numbered(a, first) && Numbered(b, first + |a|)
    ensures Numbered(a + b, first)
  {
    forall i | 0 <= i < |a + b| ensures IsFrame((a + b)[i], first + i) {
      if i >= |a| {
        assert IsFrame(b[i - |a|], first + |a| + (i - |a|));
      }
    }
  }

  lemma AddWrap16(x: int, d: int)
    ensures (x % 0x1_0000 + d) % 0x1_0000 == (x + d) % 0x1_0000
  {
  }

  lemma AddWrap32(x: int, d: int)
    ensures (x % 0x1_0000_0000 + d) % 0x1_0000_0000 == (x + d) % 0x1_0000_0000
  {
  }

  lemma WireFrameReads(seqNo: U16, ts: U32, level: Level, packet: seq<Byte>)
    ensures var frame := WireFrame(seqNo, ts, level, packet);
            && |frame| == HEADER_LEN + |packet| && frame[HEADER_LEN..] == packet
            && FromBe(frame[..2]) == seqNo && FromBe(frame[2..6]) == ts
            && ReadLevel(frame[6]) == level && frame[7] == FlagsFor(packet)
  {
    LevelRoundTrip(level);
    var frame := WireFrame(seqNo, ts, level, packet);
    ReadsBack16(seqNo);
    ReadsBack32(ts);
    assert frame[..2] == BeBytes16(seqNo) && frame[2..6] == BeBytes32(ts);
  }

  lemma NthFrameIsFrame(n: nat, level: Level, packet: seq<Byte>)
    requires packet != []
    ensures IsFrame(NthFrame(n, level, packet), n)
  {
    WireFrameReads(SeqOf(n), TsOf(n), level, packet);
  }

  /** The result of a step from `s`: frames numbered on from its count. */
  predicate Counted<C>(s: State<C>, r: (State<C>, seq<Frame>)) {
    r.0.count == s.count + |r.1| && Numbered(r.1, s.count)
  }

  lemma FrameStepCounts<C>(k: Codec<C>, s: State<C>, chunk: seq<Sample>)
    ensures var (s1, frame) := FrameStep(k, s, chunk);
            Counted(s, (s1, Listed(frame)))
  {
    var packet := k.step(s.codec, chunk).1;
    if packet != [] {
      NthFrameIsFrame(s.count, k.level(chunk), packet);
    }
  }

  lemma CountedAfter<C>(s: State<C>, s1: State<C>, frames: seq<Frame>, r: (State<C>, seq<Frame>))
    requires Counted(s, (s1, frames)) && Counted(s1, r)
    ensures Counted(s, After(frames, r))
  {
    NumberedConcat(frames, r.1, s.count);
  }

  lemma {:induction false} DrainCounts<C>(k: Codec<C>, s: State<C>)
    ensures Counted(s, DrainStep(k, s))
    decreases |s.carry|
  {
    if |s.carry| >= FRAME_SAMPLES {
      var chunk := s.carry[..FRAME_SAMPLES];
      var cut := s.(carry := s.carry[FRAME_SAMPLES..]);
      var (s1, frame) := FrameStep(k, cut, chunk);
      FrameStepCounts(k, cut, chunk);
      DrainCounts(k, s1);
      CountedAfter(s, s1, Listed(frame), DrainStep(k, s1));
    }
  }

  lemma CallCounts<C>(k: Codec<C>, s: State<C>, call: Call)
    ensures Counted(s, CallStep(k, s, call))
  {
    match call
    case Encode(pcm) =>
      if |pcm| % 2 == 0 {
        DrainCounts(k, s.(carry := s.carry + PcmToSamples(pcm).value));
      }
    case Flush =>
      if s.carry != [] {
        FrameStepCounts(k, s.(carry := []), Resize(s.carry, FRAME_SAMPLES));
      }
    case Discard =>
  }

  lemma {:induction false} RunCounts<C>(k: Codec<C>, s: State<C>, calls: seq<Call>)
    ensures Counted(s, Run(k, s, calls))
    decreases |calls|
  {
    if calls != [] {
      var (s1, frames) := CallStep(k, s, calls[0]);
      CallCounts(k, s, calls[0]);
      RunCounts(k, s1, calls[1..]);
      CountedAfter(s, s1, frames, Run(k, s1, calls[1..]));
    }
  }

  /**
    A receiver reads `frame` as the n-th of its sender: sequence number n mod 2^16,
    timestamp 960n mod 2^32, a non-empty payload, and the DTX flag exactly on
    payloads of one or two bytes.
  */
  predicate ReadAs(frame: Frame, n: nat, peer: Byte) {
    var r := ParseInbound([peer] + frame);
    && r.Success?
    && r.value.peer == peer && r.value.seqNo == SeqOf(n) && r.value.ts == TsOf(n)
    && r.value.payload != [] && HEADER_LEN <= |frame| && r.value.payload == frame[HEADER_LEN..]
    && r.value.flags == if |r.value.payload| <= DTX_MAX_PAYLOAD then FLAG_DTX else 0
  }

  /** A receiver parses these bytes as the n-th frame: every field, and the packet. */
  predicate ParsesAs(bytes: seq<Byte>, peer: Byte, n: nat, level: Level, packet: seq<Byte>) {
    ParseInbound(bytes) == Success(Inbound(peer, SeqOf(n), TsOf(n), level, if |packet| <= 2 then 1 else 0, packet))
  }

  /** One codec call, seen by a receiver: every field, and the packet, of the frame it gives, if any. */
  lemma FrameStepReads<C>(k: Codec<C>, s: State<C>, chunk: seq<Sample>, peer: Byte)
    ensures var (s1, frame) := FrameStep(k, s, chunk);
            var packet := k.step(s.codec, chunk).1;
            && (frame.None? <==> packet == [])
            && (frame.Some? ==> ParsesAs([peer] + frame.value, peer, s.count, k.level(chunk), packet))
  {
    var packet := k.step(s.codec, chunk).1;
    if packet != [] {
      NthFrameReads(s.count, k.level(chunk), packet, peer);
    }
  }

  lemma NthFrameReads(n: nat, level: Level, packet: seq<Byte>, peer: Byte)
    requires packet != []
    ensures ParsesAs([peer] + NthFrame(n, level, packet), peer, n, level, packet)
  {
    var frame := NthFrame(n, level, packet);
    WireFrameReads(SeqOf(n), TsOf(n), level, packet);
    assert ([peer] + frame)[1..] == frame;
  }

  /** `frame` carries the packet, and the level, of a whole chunk given to the codec. */
  ghost predicate MadeOf<C>(k: Codec<C>, frame: Frame, c: C, chunk: seq<Sample>) {
    && |chunk| == FRAME_SAMPLES && |frame| > HEADER_LEN
    && ReadLevel(frame[6]) == k.level(chunk) && frame[HEADER_LEN..] == k.step(c, chunk).1
  }

  lemma FrameStepSource<C>(k: Codec<C>, s: State<C>, chunk: seq<Sample>)
    requires |chunk| == FRAME_SAMPLES && FrameStep(k, s, chunk).1.Some?
    ensures MadeOf(k, FrameStep(k, s, chunk).1.value, s.codec, chunk)
  {
    WireFrameReads(SeqOf(s.count), TsOf(s.count), k.level(chunk), k.step(s.codec, chunk).1);
  }

  /** Where the n-th frame of a drain comes from. */
  lemma {:induction false} DrainSource<C>(k: Codec<C>, s: State<C>, n: nat) returns (c: C, chunk: seq<Sample>)
    requires n < |DrainStep(k, s).1|
    ensures MadeOf(k, DrainStep(k, s).1[n], c, chunk)
    decreases |s.carry|
  {
    var head := s.carry[..FRAME_SAMPLES];
    var cut := s.(carry := s.carry[FRAME_SAMPLES..]);
    var (s1, frame) := FrameStep(k, cut, head);
    if n < |Listed(frame)| {
      FrameStepSource(k, cut, head);
      c, chunk := s.codec, head;
    } else {
      c, chunk := DrainSource(k, s1, n - |Listed(frame)|);
    }
  }

  lemma CallSource<C>(k: Codec<C>, s: State<C>, call: Call, n: nat) returns (c: C, chunk: seq<Sample>)
    requires n < |CallStep(k, s, call).1|
    ensures MadeOf(k, CallStep(k, s, call).1[n], c, chunk)
  {
    match call
    case Encode(pcm) =>
      c, chunk := DrainSource(k, s.(carry := s.carry + PcmToSamples(pcm).value), n);
    case Flush =>
      c, chunk := s.codec, Resize(s.carry, FRAME_SAMPLES);
      FrameStepSource(k, s.(carry := []), chunk);
  }

  lemma {:induction false} RunSource<C>(k: Codec<C>, s: State<C>, calls: seq<Call>, n: nat) returns (c: C, chunk: seq<Sample>)
    requires n < |Run(k, s, calls).1|
    ensures MadeOf(k, Run(k, s, calls).1[n], c, chunk)
    decreases |calls|
  {
    var (s1, frames) := CallStep(k, s, calls[0]);
    if n < |frames| {
      c, chunk := CallSource(k, s, calls[0], n);
    } else {
      c, chunk := RunSource(k, s1, calls[1..], n - |frames|);
    }
  }

  lemma FrameOnTheWire(frame: Frame, n: nat, peer: Byte)
    requires IsFrame(frame, n)
    ensures ReadAs(frame, n, peer)
  {
    assert ([peer] + frame)[1..] == frame;
  }

  /**
    Whatever calls an encoder serves in its life, with empty codec packets,
    flushes and discards among them, the n-th frame it ever emits reads as the n-th,
    with the packet and the level of a whole chunk given to the codec.
  */
  lemma LifeOfAnEncoder<C>(k: Codec<C>, calls: seq<Call>, s: State<C>, frames: seq<Frame>, n: nat, peer: Byte)
    returns (c: C, chunk: seq<Sample>)
    requires Run(k, Fresh(k), calls) == (s, frames) && n < |frames|
    ensures s.count == |frames|
    ensures ReadAs(frames[n], n, peer)
    ensures |chunk| == FRAME_SAMPLES && SentFor(k, [peer] + frames[n], c, chunk)
  {
    LifeCounts(k, calls);
    ReadsAsNumbered(frames, n, peer);
    c, chunk := RunSource(k, Fresh(k), calls, n);
    SourceReads(k, frames[n], c, chunk, peer);
  }

  /** What a receiver parses out of these bytes is the level of `chunk` and the codec's packet for it. */
  ghost predicate SentFor<C>(k: Codec<C>, bytes: seq<Byte>, c: C, chunk: seq<Sample>) {
    var r := ParseInbound(bytes);
    r.Success? && r.value.level == k.level(chunk) && r.value.payload == k.step(c, chunk).1
  }

  lemma SourceReads<C>(k: Codec<C>, frame: Frame, c: C, chunk: seq<Sample>, peer: Byte)
    requires MadeOf(k, frame, c, chunk)
    ensures SentFor(k, [peer] + frame, c, chunk)
  {
    assert ([peer] + frame)[1..] == frame;
  }

  lemma LifeCounts<C>(k: Codec<C>, calls: seq<Call>)
    ensures var r := Run(k, Fresh(k), calls);
            r.0.count == |r.1| && Numbered(r.1, 0)
  {
    RunCounts(k, Fresh(k), calls);
  }

  lemma ReadsAsNumbered(frames: seq<Frame>, n: nat, peer: Byte)
    requires Numbered(frames, 0) && n < |frames|
    ensures ReadAs(frames[n], n, peer)
  {
    NumberedAt(frames, n);
    FrameOnTheWire(frames[n], n, peer);
  }

  lemma NumberedAt(frames: seq<Frame>, n: nat)
    requires Numbered(frames, 0) && n < |frames|
    ensures IsFrame(frames[n], n)
  {
    assert IsFrame(frames[n], 0 + n);
  }

  // ------------------------------------------- what a drain encodes, block by block

  /** The whole frames of a stream. */
  function BlocksOf(samples: seq<Sample>): seq<seq<Sample>> {
    seq(|samples| / FRAME_SAMPLES, i requires 0 <= i < |samples| / FRAME_SAMPLES => BlockAt(samples, i))
  }

  function BlockAt(samples: seq<Sample>, i: nat): seq<Sample>
    requires i < |samples| / FRAME_SAMPLES
  {
    BlockFits(|samples|, i);
    samples[FRAME_SAMPLES * i..FRAME_SAMPLES * i + FRAME_SAMPLES]
  }

  lemma BlockFits(total: nat, i: nat)
    ensures i < total / FRAME_SAMPLES <==> FRAME_SAMPLES * i + FRAME_SAMPLES <= total
  {
  }

  /** The codec after it has been given the first n blocks. */
  function CodecAfter<C>(k: Codec<C>, c: C, blocks: seq<seq<Sample>>, n: nat): C
    requires n <= |blocks|
  {
    if n == 0 then c else k.step(CodecAfter(k, c, blocks, n - 1), blocks[n - 1]).0
  }

  /** The packet for block `b`. */
  function PacketOf<C>(k: Codec<C>, c: C, blocks: seq<seq<Sample>>, b: nat): seq<Byte>
    requires b < |blocks|
  {
    k.step(CodecAfter(k, c, blocks, b), blocks[b]).1
  }

  function PacketsOf<C>(k: Codec<C>, c: C, blocks: seq<seq<Sample>>, n: nat): seq<seq<Byte>>
    requires n <= |blocks|
  {
    seq(n, b requires 0 <= b < n => PacketOf(k, c, blocks, b))
  }

  /** The positions of the non-empty packets. */
  function NonEmpty(packets: seq<seq<Byte>>): seq<nat> {
    if packets == [] then []
    else NonEmpty(packets[..|packets| - 1]) + if packets[|packets| - 1] == [] then [] else [|packets| - 1]
  }

  lemma {:induction false} NonEmptyOrdered(packets: seq<seq<Byte>>)
    ensures Increasing(NonEmpty(packets)) && Below(NonEmpty(packets), |packets|)
    decreases |packets|
  {
    if packets != [] {
      NonEmptyOrdered(packets[..|packets| - 1]);
    }
  }

  lemma {:induction false} NonEmptyHas(packets: seq<seq<Byte>>, b: nat)
    requires b < |packets|
    ensures b in NonEmpty(packets) <==> packets[b] != []
    decreases |packets|
  {
    var init, last := packets[..|packets| - 1], |packets| - 1;
    NonEmptyOrdered(init);
    if b < last {
      NonEmptyHas(init, b);
    }
  }

  /** The blocks among the first n that the codec gives a packet for. */
  function Voiced<C>(k: Codec<C>, c: C, blocks: seq<seq<Sample>>, n: nat): (voiced: seq<nat>)
    requires n <= |blocks|
    ensures Below(voiced, n)
  {
    NonEmptyOrdered(PacketsOf(k, c, blocks, n));
    NonEmpty(PacketsOf(k, c, blocks, n))
  }

  /** These are all the blocks with a packet, in order. */
  lemma VoicedMeans<C>(k: Codec<C>, c: C, blocks: seq<seq<Sample>>, n: nat)
    requires n <= |blocks|
    ensures Increasing(Voiced(k, c, blocks, n))
    ensures forall b: nat :: b < n ==> (b in Voiced(k, c, blocks, n) <==> PacketOf(k, c, blocks, b) != [])
  {
    var packets := PacketsOf(k, c, blocks, n);
    NonEmptyOrdered(packets);
    forall b: nat | b < n ensures b in Voiced(k, c, blocks, n) <==> PacketOf(k, c, blocks, b) != [] {
      NonEmptyHas(packets, b);
    }
  }

  lemma VoicedGrow<C>(k: Codec<C>, c: C, blocks: seq<seq<Sample>>, b: nat)
    requires b < |blocks|
    ensures Voiced(k, c, blocks, b + 1)
            == Voiced(k, c, blocks, b) + if PacketOf(k, c, blocks, b) == [] then [] else [b]
  {
    var packets := PacketsOf(k, c, blocks, b + 1);
    assert packets[..b] == PacketsOf(k, c, blocks, b) && packets[b] == PacketOf(k, c, blocks, b);
  }

  /** The frame for block `b`, when it is the m-th. */
  function FrameFor<C>(k: Codec<C>, s: State<C>, blocks: seq<seq<Sample>>, m: nat, b: nat): Frame
    requires b < |blocks|
  {
    NthFrame(s.count + m, k.level(blocks[b]), PacketOf(k, s.codec, blocks, b))
  }

  /** The frames of the first n blocks: one for each packet, under consecutive numbers. */
  function FramesOf<C>(k: Codec<C>, s: State<C>, blocks: seq<seq<Sample>>, n: nat): seq<Frame>
    requires n <= |blocks|
  {
    var voiced := Voiced(k, s.codec, blocks, n);
    seq(|voiced|, m requires 0 <= m < |voiced| => FrameFor(k, s, blocks, m, voiced[m]))
  }

  function Drained<C>(k: Codec<C>, s: State<C>, samples: seq<Sample>, n: nat): State<C>
    requires n <= |samples| / FRAME_SAMPLES
  {
    StartFits(|samples|, n);
    State(CodecAfter(k, s.codec, BlocksOf(samples), n), samples[FRAME_SAMPLES * n..],
          s.count + |FramesOf(k, s, BlocksOf(samples), n)|)
  }

  lemma StartFits(total: nat, n: nat)
    requires n <= total / FRAME_SAMPLES
    ensures FRAME_SAMPLES * n <= total
  {
  }

  lemma FramesGrow<C>(k: Codec<C>, s: State<C>, blocks: seq<seq<Sample>>, b: nat)
    requires b < |blocks|
    ensures var before := FramesOf(k, s, blocks, b);
            FramesOf(k, s, blocks, b + 1)
            == before + if PacketOf(k, s.codec, blocks, b) == [] then [] else [FrameFor(k, s, blocks, |before|, b)]
  {
    VoicedGrow(k, s.codec, blocks, b);
  }

  /** One codec call of the drain is one block. */
  lemma DrainedNext<C>(k: Codec<C>, s: State<C>, samples: seq<Sample>, n: nat)
    requires n < |samples| / FRAME_SAMPLES
    ensures var here, blocks := Drained(k, s, samples, n), BlocksOf(samples);
            && |here.carry| >= FRAME_SAMPLES
            && var (s1, frame) := FrameStep(k, here.(carry := here.carry[FRAME_SAMPLES..]), here.carry[..FRAME_SAMPLES]);
               s1 == Drained(k, s, samples, n + 1)
               && FramesOf(k, s, blocks, n + 1) == FramesOf(k, s, blocks, n) + Listed(frame)
  {
    var here, blocks := Drained(k, s, samples, n), BlocksOf(samples);
    BlockFits(|samples|, n);
    assert here.carry[..FRAME_SAMPLES] == blocks[n];
    assert here.carry[FRAME_SAMPLES..] == samples[FRAME_SAMPLES * (n + 1)..];
    FramesGrow(k, s, blocks, n);
  }

  lemma {:induction false} DrainFrom<C>(k: Codec<C>, s: State<C>, samples: seq<Sample>, n: nat)
    requires n <= |samples| / FRAME_SAMPLES
    ensures var blocks, last := BlocksOf(samples), |samples| / FRAME_SAMPLES;
            After(FramesOf(k, s, blocks, n), DrainStep(k, Drained(k, s, samples, n)))
            == (Drained(k, s, samples, last), FramesOf(k, s, blocks, last))
    decreases |samples| / FRAME_SAMPLES - n
  {
    var blocks, here := BlocksOf(samples), Drained(k, s, samples, n);
    var frames := FramesOf(k, s, blocks, n);
    BlockFits(|samples|, n);
    if n == |samples| / FRAME_SAMPLES {
      assert frames + [] == frames;
    } else {
      DrainedNext(k, s, samples, n);
      DrainFrom(k, s, samples, n + 1);
      var frame := FrameStep(k, here.(carry := here.carry[FRAME_SAMPLES..]), here.carry[..FRAME_SAMPLES]).1;
      AfterTwice(frames, Listed(frame), DrainStep(k, Drained(k, s, samples, n + 1)));
    }
  }

  /**
    A drain gives the codec every 960 sample block of the buffered stream, once
    and in order, numbers the non-empty packets consecutively, and keeps the
    samples past the last whole block.
  */
  lemma DrainMeaning<C>(k: Codec<C>, s: State<C>, samples: seq<Sample>)
    ensures var stream := s.carry + samples;
            var n := |stream| / FRAME_SAMPLES;
            FeedStep(k, s, samples) == (Drained(k, s, stream, n), FramesOf(k, s, BlocksOf(stream), n))
  {
    var stream := s.carry + samples;
    DrainFrom(k, s, stream, 0);
    assert PacketsOf(k, s.codec, BlocksOf(stream), 0) == [];
    assert stream[0..] == stream;
    assert Drained(k, s, stream, 0) == s.(carry := stream);
    AfterNothing(DrainStep(k, s.(carry := stream)));
  }

  lemma FramesAre<C>(k: Codec<C>, s: State<C>, blocks: seq<seq<Sample>>, n: nat, m: nat)
    requires n <= |blocks| && m < |Voiced(k, s.codec, blocks, n)|
    ensures var b := Voiced(k, s.codec, blocks, n)[m];
            && b < n && PacketOf(k, s.codec, blocks, b) != []
            && |FramesOf(k, s, blocks, n)| == |Voiced(k, s.codec, blocks, n)|
            && FramesOf(k, s, blocks, n)[m] == FrameFor(k, s, blocks, m, b)
  {
    VoicedMeans(k, s.codec, blocks, n);
    assert Voiced(k, s.codec, blocks, n)[m] in Voiced(k, s.codec, blocks, n);
  }

  /**
    Every frame of a drain parses, behind any peer index, as the packet of its block,
    under the next number and with that block's level.
  */
  lemma DrainOnTheWire<C>(k: Codec<C>, s: State<C>, blocks: seq<seq<Sample>>, n: nat, m: nat, peer: Byte)
    requires n <= |blocks| && m < |Voiced(k, s.codec, blocks, n)|
    ensures |FramesOf(k, s, blocks, n)| == |Voiced(k, s.codec, blocks, n)|
    ensures var b := Voiced(k, s.codec, blocks, n)[m];
            ParsesAs([peer] + FramesOf(k, s, blocks, n)[m], peer, s.count + m, k.level(blocks[b]), PacketOf(k, s.codec, blocks, b))
  {
    var b := Voiced(k, s.codec, blocks, n)[m];
    FramesAre(k, s, blocks, n, m);
    NthFrameReads(s.count + m, k.level(blocks[b]), PacketOf(k, s.codec, blocks, b), peer);
  }
}
