/**
  The offline continuity check over one peer's received frames: what its "lost",
  "missing" and "ts jump" lines say about the frames that never arrived.
*/
module Continuity {

  import opened Wire
  import opened Encoder
  import opened Sequences

  datatype Row = Row(seqNo: U16, ts: U32, dtx: bool)

  /** The step of the sequence number from row to row, modulo 2^16. */
  function Dseq(a: Row, b: Row): nat {
    if a.seqNo <= b.seqNo then b.seqNo - a.seqNo else 0x1_0000 - (a.seqNo - b.seqNo)
  }

  /** The step of the timestamp, modulo 2^32. */
  function Dts(a: Row, b: Row): nat {
    if a.ts <= b.ts then b.ts - a.ts else 0x1_0000_0000 - (a.ts - b.ts)
  }

  lemma StepsAreModular(a: Row, b: Row)
    ensures Dseq(a, b) == (b.seqNo - a.seqNo as int) % 0x1_0000
    ensures Dts(a, b) == (b.ts - a.ts as int) % 0x1_0000_0000
  {
  }

  predicate IsLost(a: Row, b: Row) {
    Dseq(a, b) != 1
  }

  predicate IsJump(a: Row, b: Row) {
    Dseq(a, b) == 1 && Dts(a, b) != FRAME_SAMPLES
  }

  /** The "missing" figure of every lost pair among the first `n` neighbours. */
  function MissingLines(rows: seq<Row>, n: nat): seq<int>
    requires n < |rows|
  {
    if n == 0 then []
    else MissingLines(rows, n - 1) + if IsLost(rows[n - 1], rows[n]) then [Dseq(rows[n - 1], rows[n]) - 1] else []
  }

  /** The timestamp step of every jump among the first `n` neighbours. */
  function JumpLines(rows: seq<Row>, n: nat): seq<int>
    requires n < |rows|
  {
    if n == 0 then []
    else JumpLines(rows, n - 1) + if IsJump(rows[n - 1], rows[n]) then [Dts(rows[n - 1], rows[n])] else []
  }

  function Sum(s: seq<int>): int {
    if s == [] then 0 else Sum(s[..|s| - 1]) + s[|s| - 1]
  }

  function Speech(rows: seq<Row>): nat {
    if rows == [] then 0 else Speech(rows[..|rows| - 1]) + if rows[|rows| - 1].dtx then 0 else 1
  }

  function UpTo<T>(s: seq<T>, n: nat): seq<T> {
    if |s| <= n then s else s[..n]
  }

  datatype Report = Skipped | Report(lost: nat, jumps: nat, missing: seq<int>, steps: seq<int>)

  /** How many lines of a kind are printed. */
  const PRINTED := 10

  lemma SpeechNeedsRows(rows: seq<Row>)
    ensures Speech(rows) <= |rows|
  {
  }

  /** The counts of all lost pairs and jumps, and the figures of the first few. */
  function ReportOf(rows: seq<Row>): Report {
    if Speech(rows) < 2 then Skipped
    else
      SpeechNeedsRows(rows);
      var missing, steps := MissingLines(rows, |rows| - 1), JumpLines(rows, |rows| - 1);
      Report(|missing|, |steps|, UpTo(missing, PRINTED), UpTo(steps, PRINTED))
  }

  method CheckPeer(rows: seq<Row>) returns (r: Report)
    ensures r == ReportOf(rows)
  {
    var speech := 0;
    for i := 0 to |rows|
      invariant speech == Speech(rows[..i])
    {
      assert rows[..i + 1][..i] == rows[..i];
      if !rows[i].dtx {
        speech := speech + 1;
      }
    }
    assert rows[..|rows|] == rows;
    if speech < 2 {
      return Skipped;
    }
    var lost, jumps := 0, 0;
    var missing: seq<int>, steps: seq<int> := [], [];
    for i := 1 to |rows|
      invariant lost == |MissingLines(rows, i - 1)| && jumps == |JumpLines(rows, i - 1)|
      invariant missing == UpTo(MissingLines(rows, i - 1), PRINTED) && steps == UpTo(JumpLines(rows, i - 1), PRINTED)
    {
      var dseq: int, dts: int := Dseq(rows[i - 1], rows[i]), Dts(rows[i - 1], rows[i]);
      if dseq != 1 {
        lost := lost + 1;
        if lost <= PRINTED {
          missing := missing + [dseq - 1];
        }
      } else if dts != FRAME_SAMPLES {
        jumps := jumps + 1;
        if jumps <= PRINTED {
          steps := steps + [dts];
        }
      }
    }
    r := Report(lost, jumps, missing, steps);
  }

  // ------------------------------------------------------ what the report says

  /** `at` lists the members of `s` in increasing order. */
  ghost predicate Enumerates(at: seq<nat>, s: set<nat>) {
    Increasing(at) && forall i :: i in at <==> i in s
  }

  /** The step of the sequence number at position `i`, modulo 2^16. */
  function SeqStep(rows: seq<Row>, i: nat): int {
    if 0 < i < |rows| then (rows[i].seqNo - rows[i - 1].seqNo as int) % 0x1_0000 else 1
  }

  /** The step of the timestamp, modulo 2^32. */
  function TsStep(rows: seq<Row>, i: nat): int {
    if 0 < i < |rows| then (rows[i].ts - rows[i - 1].ts as int) % 0x1_0000_0000 else 960
  }

  /** Where the sequence number does not go on by one. */
  function LostAt(rows: seq<Row>): set<nat> {
    set i: nat | i < |rows| && SeqStep(rows, i) != 1
  }

  /** Where it does, but the timestamp does not go on by 960. */
  function JumpAt(rows: seq<Row>): set<nat> {
    set i: nat | i < |rows| && SeqStep(rows, i) == 1 && TsStep(rows, i) != 960
  }

  /** The lines printed are the figures of the first ten positions. */
  ghost predicate PrintsMissing(rows: seq<Row>, lines: seq<int>, at: seq<nat>) {
    && |lines| == (if |at| < 10 then |at| else 10)
    && forall k :: 0 <= k < |lines| ==> lines[k] == SeqStep(rows, at[k]) - 1
  }

  ghost predicate PrintsSteps(rows: seq<Row>, lines: seq<int>, at: seq<nat>) {
    && |lines| == (if |at| < 10 then |at| else 10)
    && forall k :: 0 <= k < |lines| ==> lines[k] == TsStep(rows, at[k])
  }

  lemma EnumerationSize(at: seq<nat>, s: set<nat>)
    requires Enumerates(at, s)
    ensures |at| == |s|
    decreases |at|
  {
    if at == [] {
      assert s == {};
    } else {
      var init, last := at[..|at| - 1], at[|at| - 1];
      assert at == init + [last] && last !in init;
      EnumerationSize(init, s - {last});
      assert last in at;
    }
  }

  /** The members of `s` among 1..n, in order. */
  function InOrder(s: set<nat>, n: nat): seq<nat> {
    if n == 0 then [] else InOrder(s, n - 1) + if n in s then [n] else []
  }

  lemma {:induction false} InOrderLists(s: set<nat>, n: nat)
    ensures Increasing(InOrder(s, n)) && forall i :: i in InOrder(s, n) <==> 0 < i <= n && i in s
  {
    if n > 0 {
      InOrderLists(s, n - 1);
      var before := InOrder(s, n - 1);
      assert forall k :: 0 <= k < |before| ==> before[k] in before;
      assert forall i :: i in InOrder(s, n) <==> i in before || (i == n && n in s);
    }
  }

  lemma {:induction false} MissingMeans(rows: seq<Row>, n: nat)
    requires n < |rows|
    ensures var at := InOrder(LostAt(rows), n);
            |MissingLines(rows, n)| == |at|
            && forall k :: 0 <= k < |at| ==> MissingLines(rows, n)[k] == SeqStep(rows, at[k]) - 1
  {
    if n > 0 {
      MissingMeans(rows, n - 1);
      StepsAreModular(rows[n - 1], rows[n]);
      assert n in LostAt(rows) <==> IsLost(rows[n - 1], rows[n]);
    }
  }

  lemma {:induction false} JumpsMean(rows: seq<Row>, n: nat)
    requires n < |rows|
    ensures var at := InOrder(JumpAt(rows), n);
            |JumpLines(rows, n)| == |at|
            && forall k :: 0 <= k < |at| ==> JumpLines(rows, n)[k] == TsStep(rows, at[k])
  {
    if n > 0 {
      JumpsMean(rows, n - 1);
      StepsAreModular(rows[n - 1], rows[n]);
      assert n in JumpAt(rows) <==> IsJump(rows[n - 1], rows[n]);
    }
  }

  /** The rows of frames that are not discontinuous transmission. */
  function SpeechAt(rows: seq<Row>): set<nat> {
    set i: nat | i < |rows| && !rows[i].dtx
  }

  lemma {:induction false} SpeechMeans(rows: seq<Row>)
    ensures Speech(rows) == |SpeechAt(rows)|
    decreases |rows|
  {
    if rows != [] {
      var last := |rows| - 1;
      var init := rows[..last];
      SpeechMeans(init);
      assert SpeechAt(rows) == SpeechAt(init) + if rows[last].dtx then {} else {last};
      assert last !in SpeechAt(init);
    }
  }

  /**
    The report, position by position: nothing for fewer than two speech frames;
    otherwise how many pairs were lost and how many jumped, and of the first ten of
    each, in order, how many numbers are missing and how far the timestamp went.
  */
  lemma ReportMeans(rows: seq<Row>)
    ensures ReportOf(rows).Skipped? <==> |SpeechAt(rows)| < 2
    ensures var r := ReportOf(rows);
            r.Report? ==>
              && r.lost == |LostAt(rows)| && r.jumps == |JumpAt(rows)|
              && (exists at :: Enumerates(at, LostAt(rows)) && PrintsMissing(rows, r.missing, at))
              && (exists at :: Enumerates(at, JumpAt(rows)) && PrintsSteps(rows, r.steps, at))
  {
    SpeechMeans(rows);
    if Speech(rows) >= 2 {
      SpeechNeedsRows(rows);
      var lost, jumps := InOrder(LostAt(rows), |rows| - 1), InOrder(JumpAt(rows), |rows| - 1);
      InOrderLists(LostAt(rows), |rows| - 1);
      InOrderLists(JumpAt(rows), |rows| - 1);
      MissingMeans(rows, |rows| - 1);
      JumpsMean(rows, |rows| - 1);
      assert Enumerates(lost, LostAt(rows)) && Enumerates(jumps, JumpAt(rows));
      EnumerationSize(lost, LostAt(rows));
      EnumerationSize(jumps, JumpAt(rows));
      assert PrintsMissing(rows, ReportOf(rows).missing, lost);
      assert PrintsSteps(rows, ReportOf(rows).steps, jumps);
    }
  }

  // ------------------------------------------------------ reading the counters

  /** The row a receiver records for the n-th frame its sender emitted. */
  function RowOf(n: nat, dtx: bool): Row {
    Row(SeqOf(n), TsOf(n), dtx)
  }

  lemma Wrap16(a: int, b: int)
    ensures (b % 0x1_0000 - a % 0x1_0000) % 0x1_0000 == (b - a) % 0x1_0000
  {
  }

  lemma Wrap32(a: int, b: int)
    ensures (b % 0x1_0000_0000 - a % 0x1_0000_0000) % 0x1_0000_0000 == (b - a) % 0x1_0000_0000
  {
  }

  lemma CounterDifferences(m: nat, n: nat, d: bool, e: bool)
    requires m <= n
    ensures Dseq(RowOf(m, d), RowOf(n, e)) == (n - m) % 0x1_0000
    ensures Dts(RowOf(m, d), RowOf(n, e)) == FRAME_SAMPLES * (n - m) % 0x1_0000_0000
  {
    CountersClosed(m);
    CountersClosed(n);
    StepsAreModular(RowOf(m, d), RowOf(n, e));
    Wrap16(m, n);
    Wrap32(FRAME_SAMPLES * m, FRAME_SAMPLES * n);
    assert FRAME_SAMPLES * n - FRAME_SAMPLES * m == FRAME_SAMPLES * (n - m);
  }

  lemma Multiple32(q: int)
    ensures 0x1_0000_0000 * q % 0x1_0000_0000 == 0
  {
  }

  lemma Multiple26(q: int)
    ensures 0x400_0000 * q % 0x400_0000 == 0
  {
  }

  /** 960 is 15 * 2^6 and 15 is odd, so 960g wraps a u32 to zero only when 2^26 divides g. */
  lemma TimestampWrap(g: int)
    ensures FRAME_SAMPLES * g % 0x1_0000_0000 == 0 <==> g % 0x400_0000 == 0
  {
    if g % 0x400_0000 == 0 {
      var q := g / 0x400_0000;
      assert FRAME_SAMPLES * g == 0x1_0000_0000 * (15 * q);
      Multiple32(15 * q);
    } else if FRAME_SAMPLES * g % 0x1_0000_0000 == 0 {
      var q := FRAME_SAMPLES * g / 0x1_0000_0000;
      // 49213167 inverts 15 modulo 2^26: 15 * 49213167 == 11 * 2^26 + 1
      assert g == 0x400_0000 * (49213167 * q - 11 * g);
      Multiple26(49213167 * q - 11 * g);
      assert false;
    }
  }

  /** Two frames carry the same timestamp exactly when their numbers agree modulo 2^26. */
  lemma TimestampIdentifies(m: nat, n: nat)
    ensures TsOf(m) == TsOf(n) <==> m % 0x400_0000 == n % 0x400_0000
  {
    CountersClosed(m);
    CountersClosed(n);
    StampsAgree(m, n);
  }

  lemma StampsAgree(m: nat, n: nat)
    ensures FRAME_SAMPLES * m % 0x1_0000_0000 == FRAME_SAMPLES * n % 0x1_0000_0000 <==> m % 0x400_0000 == n % 0x400_0000
  {
    Wrap32(FRAME_SAMPLES * m, FRAME_SAMPLES * n);
    SameWhenApart(FRAME_SAMPLES * m, FRAME_SAMPLES * n);
    TimestampWrap(n - m);
    assert FRAME_SAMPLES * n - FRAME_SAMPLES * m == FRAME_SAMPLES * (n - m);
    SameResidue(m, n);
  }

  lemma SameWhenApart(a: int, b: int)
    ensures a % 0x1_0000_0000 == b % 0x1_0000_0000 <==> (b % 0x1_0000_0000 - a % 0x1_0000_0000) % 0x1_0000_0000 == 0
  {
  }

  lemma SameResidue(m: nat, n: nat)
    ensures (n - m) % 0x400_0000 == 0 <==> m % 0x400_0000 == n % 0x400_0000
  {
    var qm, qn := m / 0x400_0000, n / 0x400_0000;
    assert n - m == 0x400_0000 * (qn - qm) + (n % 0x400_0000 - m % 0x400_0000);
  }

  /**
    What the check says of two neighbours with `g` frames missing between them:
    "lost" unless 2^16 divides g, a timestamp jump when 2^16 but not 2^26 does,
    and nothing at all when 2^26 does. Below 65535 the printed figure is g.
  */
  lemma GapReading(m: nat, g: nat, d: bool, e: bool)
    ensures var a, b := RowOf(m, d), RowOf(m + 1 + g, e);
            && (IsLost(a, b) <==> g % 0x1_0000 != 0)
            && (IsJump(a, b) <==> g % 0x1_0000 == 0 && g % 0x400_0000 != 0)
            && (!IsLost(a, b) && !IsJump(a, b) <==> g % 0x400_0000 == 0)
            && (g < 0xFFFF ==> Dseq(a, b) - 1 == g)
  {
    CounterDifferences(m, m + 1 + g, d, e);
    TimestampWrap(g);
    StepBeyondOne(g);
  }

  lemma StepBeyondOne(g: nat)
    ensures (g + 1) % 0x1_0000 == 1 <==> g % 0x1_0000 == 0
    ensures FRAME_SAMPLES * (g + 1) % 0x1_0000_0000 == FRAME_SAMPLES <==> FRAME_SAMPLES * g % 0x1_0000_0000 == 0
    ensures g % 0x400_0000 == 0 ==> g % 0x1_0000 == 0
  {
    StepSeq(g);
    StepTs(FRAME_SAMPLES * g);
    NextTs(g);
    CoarserDivides(g);
  }

  lemma StepSeq(g: nat)
    ensures (g + 1) % 0x1_0000 == 1 <==> g % 0x1_0000 == 0
  {
  }

  lemma NextTs(g: nat)
    ensures FRAME_SAMPLES * (g + 1) == FRAME_SAMPLES * g + FRAME_SAMPLES
  {
  }

  lemma CoarserDivides(g: nat)
    ensures g % 0x400_0000 == 0 ==> g % 0x1_0000 == 0
  {
    if g % 0x400_0000 == 0 {
      Coarser(g / 0x400_0000);
    }
  }

  lemma StepTs(t: int)
    ensures (t + FRAME_SAMPLES) % 0x1_0000_0000 == FRAME_SAMPLES <==> t % 0x1_0000_0000 == 0
  {
  }

  lemma Coarser(q: int)
    ensures 0x400_0000 * q % 0x1_0000 == 0
  {
    assert 0x400_0000 * q == 0x1_0000 * (1024 * q);
  }

  // -------------------------------------------------------- a whole recording

  /** `rows` records exactly the frames numbered `ids`, in that order. */
  ghost predicate Records(rows: seq<Row>, ids: seq<nat>) {
    |rows| == |ids| && forall i :: 0 <= i < |ids| ==> rows[i] == RowOf(ids[i], rows[i].dtx)
  }

  /** Fewer than 65535 frames are missing between neighbours `i` and `i + 1`. */
  predicate SmallGap(ids: seq<nat>, i: nat)
    requires i + 1 < |ids|
  {
    ids[i + 1] <= ids[i] + 0xFFFF
  }

  ghost predicate SmallGaps(ids: seq<nat>) {
    forall i :: 0 <= i < |ids| - 1 ==> SmallGap(ids, i)
  }

  lemma SumPush(s: seq<int>, x: int)
    ensures Sum(s + [x]) == Sum(s) + x
  {
    assert (s + [x])[..|s|] == s;
  }

  lemma NextLine(rows: seq<Row>, ids: seq<nat>, n: nat)
    requires Records(rows, ids) && Increasing(ids) && SmallGaps(ids) && 0 < n < |ids|
    ensures !IsJump(rows[n - 1], rows[n])
    ensures Dseq(rows[n - 1], rows[n]) - 1 == ids[n] - ids[n - 1] - 1
  {
    assert SmallGap(ids, n - 1);
    var g := ids[n] - ids[n - 1] - 1;
    assert rows[n] == RowOf(ids[n - 1] + 1 + g, rows[n].dtx);
    GapReading(ids[n - 1], g, rows[n - 1].dtx, rows[n].dtx);
  }

  lemma LinesStep(rows: seq<Row>, n: nat, g: int)
    requires 0 < n < |rows| && !IsJump(rows[n - 1], rows[n]) && Dseq(rows[n - 1], rows[n]) - 1 == g
    ensures Sum(MissingLines(rows, n)) == Sum(MissingLines(rows, n - 1)) + g
    ensures JumpLines(rows, n) == JumpLines(rows, n - 1)
  {
    if g != 0 {
      SumPush(MissingLines(rows, n - 1), g);
    } else {
      assert MissingLines(rows, n) == MissingLines(rows, n - 1);
    }
  }

  /** With small gaps the "missing" figures add up to the frames absent from the recording. */
  lemma {:induction false} MissingSum(rows: seq<Row>, ids: seq<nat>, n: nat)
    requires Records(rows, ids) && Increasing(ids) && SmallGaps(ids) && n < |ids|
    ensures Sum(MissingLines(rows, n)) == ids[n] - ids[0] - n
    ensures JumpLines(rows, n) == []
  {
    if n > 0 {
      MissingSum(rows, ids, n - 1);
      NextLine(rows, ids, n);
      LinesStep(rows, n, ids[n] - ids[n - 1] - 1);
    }
  }

  /** With small gaps every figure is a real loss. */
  lemma {:induction false} MissingPositive(rows: seq<Row>, ids: seq<nat>, n: nat)
    requires Records(rows, ids) && Increasing(ids) && SmallGaps(ids) && n < |ids|
    ensures forall i :: 0 <= i < |MissingLines(rows, n)| ==> MissingLines(rows, n)[i] > 0
  {
    if n > 0 {
      MissingPositive(rows, ids, n - 1);
      NextLine(rows, ids, n);
    }
  }

  lemma {:induction false} SumOfFirst(s: seq<int>, n: nat)
    requires n <= |s| && forall i :: 0 <= i < |s| ==> s[i] > 0
    ensures if n < |s| then Sum(s[..n]) < Sum(s) else s[..n] == s
    decreases |s|
  {
    if n < |s| {
      var init := s[..|s| - 1];
      assert init[..n] == s[..n];
      if n == |init| {
        assert init[..n] == init;
      }
      SumOfFirst(init, n);
    }
  }

  lemma FirstFewSuffice(s: seq<int>, n: nat)
    requires forall i :: 0 <= i < |s| ==> s[i] > 0
    ensures Sum(UpTo(s, n)) == Sum(s) <==> |s| <= n
  {
    if n < |s| {
      SumOfFirst(s, n);
    }
  }

  /** The figures printed add up to the frames absent if and only if no lost pair went unprinted. */
  lemma PrintedSum(rows: seq<Row>, ids: seq<nat>)
    requires Records(rows, ids) && Increasing(ids) && SmallGaps(ids) && Speech(rows) >= 2
    ensures |ids| >= 2
    ensures var r := ReportOf(rows);
            && r.Report? && r.jumps == 0 && r.lost == |MissingLines(rows, |rows| - 1)|
            && (Sum(r.missing) == ids[|ids| - 1] - ids[0] - (|ids| - 1) <==> r.lost <= PRINTED)
  {
    SpeechNeedsRows(rows);
    var n := |ids| - 1;
    MissingSum(rows, ids, n);
    MissingPositive(rows, ids, n);
    FirstFewSuffice(MissingLines(rows, n), PRINTED);
  }

  /** How many numbers are absent right before the one at position `i`. */
  function Gap(ids: seq<nat>, i: nat): int {
    if 0 < i < |ids| then (ids[i] - ids[i - 1] as int) - 1 else 0
  }

  function LostGaps(ids: seq<nat>): set<nat> {
    set i: nat | i < |ids| && Gap(ids, i) % 0x1_0000 != 0
  }

  function JumpGaps(ids: seq<nat>): set<nat> {
    set i: nat | i < |ids| && Gap(ids, i) % 0x1_0000 == 0 && Gap(ids, i) % 0x400_0000 != 0
  }

  /**
    Over a whole recording, whatever its gaps: "lost" counts the gaps that 2^16 does
    not divide, "jumps" those that 2^16 but not 2^26 divides.
  */
  lemma GapCounts(rows: seq<Row>, ids: seq<nat>)
    requires Records(rows, ids) && Increasing(ids)
    ensures LostAt(rows) == LostGaps(ids) && JumpAt(rows) == JumpGaps(ids)
    ensures ReportOf(rows).Report? ==> ReportOf(rows).lost == |LostGaps(ids)| && ReportOf(rows).jumps == |JumpGaps(ids)|
  {
    forall i: nat | i < |ids|
      ensures (i in LostAt(rows) <==> i in LostGaps(ids)) && (i in JumpAt(rows) <==> i in JumpGaps(ids))
    {
      if i > 0 {
        GapAt(rows, ids, i);
      }
    }
    assert LostAt(rows) == LostGaps(ids) && JumpAt(rows) == JumpGaps(ids);
    ReportMeans(rows);
  }

  lemma GapAt(rows: seq<Row>, ids: seq<nat>, i: nat)
    requires Records(rows, ids) && Increasing(ids) && 0 < i < |ids|
    ensures i in LostAt(rows) <==> i in LostGaps(ids)
    ensures i in JumpAt(rows) <==> i in JumpGaps(ids)
  {
    var g := ids[i] - ids[i - 1] - 1;
    assert rows[i] == RowOf(ids[i - 1] + 1 + g, rows[i].dtx) && rows[i - 1] == RowOf(ids[i - 1], rows[i - 1].dtx);
    GapReading(ids[i - 1], g, rows[i - 1].dtx, rows[i].dtx);
  }
}
