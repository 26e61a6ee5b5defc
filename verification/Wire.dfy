/**
  The version 2 huddle frame: an eight byte big-endian header in front of an
  Opus packet, with a one byte peer index added by the relay on the way in.
  Also the conversion between s16le bytes and samples.
*/
module Wire {

  import opened Wrappers

  type Byte = x: int | 0 <= x < 0x100
  type U16 = x: int | 0 <= x < 0x1_0000
  type U32 = x: int | 0 <= x < 0x1_0000_0000
  type Sample = x: int | -0x8000 <= x < 0x8000

  /** RMS level in dBov as carried by the header. */
  type Level = x: int | -127 <= x <= 0

  const HEADER_LEN := 8
  const FLAG_DTX: Byte := 1

  datatype Inbound = Inbound(peer: Byte, seqNo: U16, ts: U32, level: Level, flags: Byte, payload: seq<Byte>)

  /** An i8 stored as its two's complement byte. */
  function LevelByte(level: Level): Byte {
    if level < 0 then level + 0x100 else level
  }

  /** A byte read back as i8; anything outside [-127, 0] becomes the silence floor. */
  function ReadLevel(b: Byte): Level {
    var raw := if b < 0x80 then b else b - 0x100;
    if -127 <= raw <= 0 then raw else -127
  }

  /** `from_be_bytes`: the number with these bytes, most significant first. */
  function FromBe(bytes: seq<Byte>): nat {
    if bytes == [] then 0 else 0x100 * FromBe(bytes[..|bytes| - 1]) + bytes[|bytes| - 1]
  }

  lemma FromBe2(b: seq<Byte>)
    requires |b| == 2
    ensures FromBe(b) == 0x100 * (b[0] as int) + b[1] && FromBe(b) < 0x1_0000
  {
    assert b[..1] == [b[0]] && b[..1][..0] == [];
    assert FromBe(b[..1]) == b[0];
  }

  lemma FromBe4(b: seq<Byte>)
    requires |b| == 4
    ensures FromBe(b) == 0x1_0000 * FromBe(b[..2]) + FromBe(b[2..]) && FromBe(b) < 0x1_0000_0000
  {
    FromBe2(b[..2]);
    FromBe2(b[2..]);
    assert b[..3][..2] == b[..2];
    assert FromBe(b[..3]) == 0x100 * FromBe(b[..2]) + b[2];
  }

  /** `u16::to_be_bytes`: high byte first. */
  function BeBytes16(v: U16): seq<Byte> {
    seq(2, i requires 0 <= i < 2 => if i == 0 then v / 0x100 else v % 0x100)
  }

  /** `u32::to_be_bytes`. */
  function BeBytes32(v: U32): seq<Byte> {
    BeBytes16(v / 0x1_0000) + BeBytes16(v % 0x1_0000)
  }

  /** Reading inverts writing. */
  lemma ReadsBack16(v: U16)
    ensures FromBe(BeBytes16(v)) == v
  {
    FromBe2(BeBytes16(v));
  }

  lemma ReadsBack32(v: U32)
    ensures FromBe(BeBytes32(v)) == v
  {
    var b := BeBytes32(v);
    FromBe4(b);
    assert b[..2] == BeBytes16(v / 0x1_0000) && b[2..] == BeBytes16(v % 0x1_0000);
    ReadsBack16(v / 0x1_0000);
    ReadsBack16(v % 0x1_0000);
  }

  /** And writing inverts reading. */
  lemma BytesBack16(b: seq<Byte>)
    requires |b| == 2
    ensures FromBe(b) < 0x1_0000 && BeBytes16(FromBe(b)) == b
  {
    FromBe2(b);
  }

  lemma BytesBack32(b: seq<Byte>)
    requires |b| == 4
    ensures FromBe(b) < 0x1_0000_0000 && BeBytes32(FromBe(b)) == b
  {
    FromBe4(b);
    BytesBack16(b[..2]);
    BytesBack16(b[2..]);
    Halved(FromBe(b[..2]), FromBe(b[2..]));
    assert b == b[..2] + b[2..];
  }

  lemma Halved(hi: nat, lo: nat)
    requires lo < 0x1_0000
    ensures (0x1_0000 * hi + lo) / 0x1_0000 == hi && (0x1_0000 * hi + lo) % 0x1_0000 == lo
  {
  }

  function EncodeHeader(seqNo: U16, ts: U32, level: Level, flags: Byte): (header: seq<Byte>)
    ensures |header| == HEADER_LEN
  {
    BeBytes16(seqNo) + BeBytes32(ts) + [LevelByte(level), flags]
  }

  function ParseInbound(frame: seq<Byte>): Result<Inbound, string> {
    if |frame| <= 1 + HEADER_LEN then
      Failure("frame too short")
    else
      var h := frame[1..];
      FromBe2(h[..2]);
      FromBe4(h[2..6]);
      Success(Inbound(
        frame[0],
        FromBe(h[..2]),
        FromBe(h[2..6]),
        ReadLevel(h[6]),
        h[7],
        h[HEADER_LEN..]))
  }

  /** The bytes the relay would forward for these fields. */
  function Rebuild(f: Inbound): seq<Byte> {
    [f.peer] + EncodeHeader(f.seqNo, f.ts, f.level, f.flags) + f.payload
  }

  /** The header's level byte after out-of-range telemetry has been floored. */
  function Canonical(frame: seq<Byte>): seq<Byte>
    requires |frame| > 1 + HEADER_LEN
  {
    frame[7 := if 1 <= frame[7] <= 0x80 then 0x81 else frame[7]]
  }

  lemma LevelRoundTrip(level: Level)
    ensures ReadLevel(LevelByte(level)) == level
  {
  }

  /** Every field of every well-formed frame survives the wire. */
  lemma HeaderRoundTrip(f: Inbound)
    requires f.payload != []
    ensures ParseInbound(Rebuild(f)) == Success(f)
  {
    var frame := Rebuild(f);
    var h := frame[1..];
    var header := EncodeHeader(f.seqNo, f.ts, f.level, f.flags);
    assert h == header + f.payload;
    assert h[..2] == BeBytes16(f.seqNo) && h[2..6] == BeBytes32(f.ts);
    assert h[6] == LevelByte(f.level) && h[7] == f.flags;
    assert h[HEADER_LEN..] == f.payload;
    ReadsBack16(f.seqNo);
    ReadsBack32(f.ts);
    LevelRoundTrip(f.level);
  }

  /** The header byte by byte, most significant first, the level in two's complement. */
  lemma HeaderLayout(seqNo: U16, ts: U32, level: Level, flags: Byte)
    ensures EncodeHeader(seqNo, ts, level, flags)
            == [seqNo / 0x100, seqNo % 0x100,
                ts / 0x100_0000, ts / 0x1_0000 % 0x100, ts / 0x100 % 0x100, ts % 0x100,
                if level < 0 then level + 0x100 else 0, flags]
  {
    Halves(ts);
  }

  lemma Halves(ts: U32)
    ensures ts / 0x1_0000 / 0x100 == ts / 0x100_0000
    ensures ts % 0x1_0000 / 0x100 == ts / 0x100 % 0x100 && ts % 0x1_0000 % 0x100 == ts % 0x100
  {
    var hi, lo := ts / 0x1_0000, ts % 0x1_0000;
    assert ts == 0x1_0000 * hi + lo;
    assert ts / 0x100 == 0x100 * hi + lo / 0x100;
  }

  /**
    The other direction: a frame parses iff it holds a payload, and rebuilding
    what was parsed gives the received bytes with the level byte floored.
  */
  lemma ParseRebuild(frame: seq<Byte>)
    ensures ParseInbound(frame).Success? <==> |frame| > 1 + HEADER_LEN
    ensures |frame| > 1 + HEADER_LEN ==> Rebuild(ParseInbound(frame).value) == Canonical(frame)
  {
    if |frame| > 1 + HEADER_LEN {
      RebuildParts(frame);
      CanonicalParts(frame);
    }
  }

  lemma RebuildParts(frame: seq<Byte>)
    requires |frame| > 1 + HEADER_LEN
    ensures Rebuild(ParseInbound(frame).value)
            == [frame[0]] + (frame[1..7] + [LevelByte(ReadLevel(frame[7])), frame[8]]) + frame[9..]
  {
    var h := frame[1..9];
    HeaderBack(h);
    assert h[..6] == frame[1..7] && frame[1..][..2] == h[..2] && frame[1..][2..6] == h[2..6];
    assert frame[1..][HEADER_LEN..] == frame[9..];
  }

  lemma FlooredLevel(b: Byte)
    ensures LevelByte(ReadLevel(b)) == if 1 <= b <= 0x80 then 0x81 else b
  {
  }

  lemma CanonicalParts(frame: seq<Byte>)
    requires |frame| > 1 + HEADER_LEN
    ensures Canonical(frame) == [frame[0]] + (frame[1..7] + [LevelByte(ReadLevel(frame[7])), frame[8]]) + frame[9..]
  {
    FlooredLevel(frame[7]);
  }

  /** Writing the header again after reading it floors the level and keeps the rest. */
  lemma HeaderBack(h: seq<Byte>)
    requires |h| == HEADER_LEN
    ensures FromBe(h[..2]) < 0x1_0000 && FromBe(h[2..6]) < 0x1_0000_0000
    ensures EncodeHeader(FromBe(h[..2]), FromBe(h[2..6]), ReadLevel(h[6]), h[7])
            == h[..6] + [LevelByte(ReadLevel(h[6])), h[7]]
  {
    BytesBack16(h[..2]);
    BytesBack32(h[2..6]);
    assert h[..6] == h[..2] + h[2..6];
  }

  /** A second pass through the parser changes nothing, neither fields nor bytes. */
  lemma SecondPassIsIdentity(frame: seq<Byte>)
    requires |frame| > 1 + HEADER_LEN
    ensures var once := Rebuild(ParseInbound(frame).value);
            ParseInbound(once) == ParseInbound(frame) && Rebuild(ParseInbound(once).value) == once
  {
    HeaderRoundTrip(ParseInbound(frame).value);
  }

  // ---------------------------------------------------------------- samples

  function SampleAt(lo: Byte, hi: Byte): Sample {
    var raw := lo + 0x100 * hi;
    if raw < 0x8000 then raw else raw - 0x1_0000
  }

  function PcmToSamples(pcm: seq<Byte>): Result<seq<Sample>, string> {
    if |pcm| % 2 != 0 then
      Failure("PCM byte length must be even")
    else
      Success(seq(|pcm| / 2, i requires 0 <= i < |pcm| / 2 => SampleAt(pcm[2 * i], pcm[2 * i + 1])))
  }

  function LowByte(s: int): Byte {
    s % 0x100
  }

  function HighByte(s: int): Byte {
    s / 0x100 % 0x100
  }

  function SamplesToPcm(samples: seq<Sample>): seq<Byte> {
    seq(2 * |samples|, j requires 0 <= j < 2 * |samples| =>
      if j % 2 == 0 then LowByte(samples[j / 2]) else HighByte(samples[j / 2]))
  }

  lemma HighByteOf(high: int)
    requires -0x80 <= high < 0x80
    ensures high % 0x100 == if high < 0 then high + 0x100 else high
  {
  }

  lemma SampleBytes(s: Sample)
    ensures SampleAt(LowByte(s), HighByte(s)) == s
  {
    var high := s / 0x100;
    assert s == 0x100 * high + s % 0x100 && -0x80 <= high < 0x80;
    HighByteOf(high);
  }

  lemma PcmBytesAt(samples: seq<Sample>, i: nat)
    requires i < |samples|
    ensures SamplesToPcm(samples)[2 * i] == LowByte(samples[i])
    ensures SamplesToPcm(samples)[2 * i + 1] == HighByte(samples[i])
  {
    assert (2 * i) / 2 == i && (2 * i + 1) / 2 == i;
  }

  lemma PcmRoundTrip(samples: seq<Sample>)
    ensures PcmToSamples(SamplesToPcm(samples)) == Success(samples)
  {
    var pcm := SamplesToPcm(samples);
    assert |pcm| % 2 == 0 && |pcm| / 2 == |samples|;
    var back := PcmToSamples(pcm).value;
    forall i | 0 <= i < |samples| ensures back[i] == samples[i] {
      PcmBytesAt(samples, i);
      SampleBytes(samples[i]);
    }
    assert back == samples;
  }

  lemma BytesOfSample(lo: Byte, hi: Byte)
    ensures LowByte(SampleAt(lo, hi)) == lo && HighByte(SampleAt(lo, hi)) == hi
  {
    var high := if hi < 0x80 then hi else hi - 0x100;
    assert SampleAt(lo, hi) == 0x100 * high + lo;
    assert SampleAt(lo, hi) / 0x100 == high && SampleAt(lo, hi) % 0x100 == lo;
    HighByteOf(high);
  }

  lemma PcmBytesRoundTrip(pcm: seq<Byte>)
    requires |pcm| % 2 == 0
    ensures SamplesToPcm(PcmToSamples(pcm).value) == pcm
  {
    var samples := PcmToSamples(pcm).value;
    var back := SamplesToPcm(samples);
    assert |pcm| == 2 * |samples|;
    forall i | 0 <= i < |samples| ensures back[2 * i] == pcm[2 * i] && back[2 * i + 1] == pcm[2 * i + 1] {
      BytesOfSample(pcm[2 * i], pcm[2 * i + 1]);
      PcmBytesAt(samples, i);
    }
    SameInPairs(back, pcm);
  }

  lemma SameInPairs(a: seq<Byte>, b: seq<Byte>)
    requires |a| == |b| && |a| % 2 == 0
    requires forall i :: 0 <= i < |a| / 2 ==> a[2 * i] == b[2 * i] && a[2 * i + 1] == b[2 * i + 1]
    ensures a == b
  {
    forall j | 0 <= j < |a| ensures a[j] == b[j] {
      var i := j / 2;
      assert j == 2 * i || j == 2 * i + 1;
      assert a[2 * i] == b[2 * i] && a[2 * i + 1] == b[2 * i + 1];
    }
  }

  /** Sample by sample: the low byte first, the pair read as a signed number. */
  lemma PcmMeans(pcm: seq<Byte>, i: nat)
    requires |pcm| % 2 == 0 && 2 * i < |pcm|
    ensures |PcmToSamples(pcm).value| == |pcm| / 2
    ensures IsSigned16(PcmToSamples(pcm).value[i], pcm[2 * i], pcm[2 * i + 1])
  {
    SampleModulo(pcm[2 * i], pcm[2 * i + 1]);
  }

  /** The 16 bit two's complement number with these bytes. */
  predicate IsSigned16(s: int, lo: int, hi: int) {
    -0x8000 <= s < 0x8000 && s % 0x1_0000 == lo + 0x100 * hi
  }

  lemma SampleModulo(lo: Byte, hi: Byte)
    ensures IsSigned16(SampleAt(lo, hi), lo, hi)
  {
  }

  lemma PcmConcat(a: seq<Byte>, b: seq<Byte>)
    requires |a| % 2 == 0 && |b| % 2 == 0
    ensures PcmToSamples(a + b) == Success(PcmToSamples(a).value + PcmToSamples(b).value)
  {
    var s := PcmToSamples(a + b).value;
    var t := PcmToSamples(a).value + PcmToSamples(b).value;
    assert |s| == (|a| + |b|) / 2 == |a| / 2 + |b| / 2 == |t|;
    forall i | 0 <= i < |s| ensures s[i] == t[i] {
      if i >= |a| / 2 {
        assert (a + b)[2 * i] == b[2 * (i - |a| / 2)];
        assert (a + b)[2 * i + 1] == b[2 * (i - |a| / 2) + 1];
      }
    }
    assert s == t;
  }
}
