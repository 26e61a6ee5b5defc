/**
  From the encoder's PCM to the analyser's report: what a recording of one
  connection says about the frames that are missing from it.
*/
module Recording {

  import opened Wrappers
  import opened Wire
  import opened Encoder
  import opened Sequences
  import Continuity
  import P = Pacer

  /** `frames` are the frames numbered `ids` in the encoder's output. */
  ghost predicate Naming(frames: seq<Frame>, ids: seq<nat>, emitted: seq<Frame>) {
    && |frames| == |ids|
    && forall i :: 0 <= i < |ids| ==> ids[i] < |emitted| && frames[i] == emitted[ids[i]]
  }

  lemma NamingGrows(frames: seq<Frame>, ids: seq<nat>, emitted: seq<Frame>, more: seq<Frame>)
    requires Naming(frames, ids, emitted)
    ensures Naming(frames, ids, emitted + more)
  {
  }

  lemma NamingNew(emitted: seq<Frame>, frames: seq<Frame>)
    ensures Naming(frames, P.Range(|emitted|, |frames|), emitted + frames)
  {
  }

  lemma NamingConcat(a: seq<Frame>, aIds: seq<nat>, b: seq<Frame>, bIds: seq<nat>, emitted: seq<Frame>)
    requires Naming(a, aIds, emitted) && Naming(b, bIds, emitted)
    ensures Naming(a + b, aIds + bIds, emitted)
  {
  }

  lemma NamingInit(frames: seq<Frame>, ids: seq<nat>, emitted: seq<Frame>, n: nat)
    requires Naming(frames, ids, emitted) && n < |frames|
    ensures Naming(frames[..n], ids[..n], emitted)
    ensures ids[n] < |emitted| && frames[n] == emitted[ids[n]]
    ensures n + 1 == |frames| ==> ids[..n] + [ids[n]] == ids
  {
  }

  /** The row the receiver writes down for a frame, unless its parser rejects it. */
  function RowFor(frame: Frame, peer: Byte): seq<Continuity.Row> {
    match ParseInbound([peer] + frame)
    case Failure(_) => []
    case Success(f) => [Continuity.Row(f.seqNo, f.ts, f.flags % 2 == 1)]
  }

  function Received(wire: seq<Frame>, peer: Byte): seq<Continuity.Row> {
    if wire == [] then [] else Received(wire[..|wire| - 1], peer) + RowFor(wire[|wire| - 1], peer)
  }

  /** `rows` is the row of the n-th frame. */
  predicate IsRowOf(rows: seq<Continuity.Row>, n: nat) {
    |rows| == 1 && rows[0] == Continuity.RowOf(n, rows[0].dtx)
  }

  lemma RowOfFrame(frame: Frame, n: nat, peer: Byte)
    requires IsFrame(frame, n)
    ensures IsRowOf(RowFor(frame, peer), n)
  {
    FrameOnTheWire(frame, n, peer);
  }

  lemma RowOfNumbered(emitted: seq<Frame>, n: nat, peer: Byte)
    requires Numbered(emitted, 0) && n < |emitted|
    ensures IsRowOf(RowFor(emitted[n], peer), n)
  {
    NumberedAt(emitted, n);
    RowOfFrame(emitted[n], n, peer);
  }

  lemma RecordsPush(rows: seq<Continuity.Row>, ids: seq<nat>, row: seq<Continuity.Row>, id: nat)
    requires Continuity.Records(rows, ids) && IsRowOf(row, id)
    ensures Continuity.Records(rows + row, ids + [id])
  {
  }

  /** Every frame on the wire is recorded, under the counters of its number. */
  lemma {:induction false} ReceivedRecords(wire: seq<Frame>, ids: seq<nat>, emitted: seq<Frame>, peer: Byte)
    requires Naming(wire, ids, emitted) && Numbered(emitted, 0)
    ensures Continuity.Records(Received(wire, peer), ids)
    decreases |wire|
  {
    if wire != [] {
      var n := |wire| - 1;
      NamingInit(wire, ids, emitted, n);
      ReceivedRecords(wire[..n], ids[..n], emitted, peer);
      RowOfNumbered(emitted, ids[n], peer);
      RecordsPush(Received(wire[..n], peer), ids[..n], RowFor(wire[n], peer), ids[n]);
    }
  }

  /** And each row says whether its frame was discontinuous transmission: a packet of at most two bytes. */
  lemma {:induction false} ReceivedDtx(wire: seq<Frame>, ids: seq<nat>, emitted: seq<Frame>, peer: Byte)
    requires Naming(wire, ids, emitted) && Numbered(emitted, 0)
    ensures |Received(wire, peer)| == |wire|
    ensures forall i :: 0 <= i < |wire| ==> (Received(wire, peer)[i].dtx <==> |wire[i]| <= 10)
    decreases |wire|
  {
    if wire != [] {
      var n := |wire| - 1;
      NamingInit(wire, ids, emitted, n);
      ReceivedDtx(wire[..n], ids[..n], emitted, peer);
      NumberedAt(emitted, ids[n]);
      RowDtx(wire[n], ids[n], peer);
      assert forall i :: 0 <= i < n ==> wire[..n][i] == wire[i];
    }
  }

  lemma RowDtx(frame: Frame, n: nat, peer: Byte)
    requires IsFrame(frame, n)
    ensures |RowFor(frame, peer)| == 1 && (RowFor(frame, peer)[0].dtx <==> |frame| <= 10)
  {
    FrameOnTheWire(frame, n, peer);
    ReadAsDtx(frame, n, peer);
  }

  lemma ReadAsDtx(frame: Frame, n: nat, peer: Byte)
    requires ReadAs(frame, n, peer)
    ensures |RowFor(frame, peer)| == 1 && (RowFor(frame, peer)[0].dtx <==> |frame| <= 10)
  {
    FlagTellsSize(ParseInbound([peer] + frame).value, frame);
  }

  lemma FlagTellsSize(f: Inbound, frame: Frame)
    requires |frame| >= HEADER_LEN && f.payload == frame[HEADER_LEN..]
    requires f.flags == if |f.payload| <= DTX_MAX_PAYLOAD then FLAG_DTX else 0
    ensures f.flags % 2 == 1 <==> |frame| <= 10
  {
  }

  // ------------------------------------------------------------ what is missing

  lemma RunIsOrdered(silence: bool, labels: seq<P.Label>)
    requires P.Legal(P.Initial(silence), labels) && P.RaceFree(P.Initial(silence), labels)
    ensures P.Ordered(P.Run(P.Initial(silence), labels))
    ensures forall id: nat :: P.Accounted(P.Run(P.Initial(silence), labels), id)
  {
    P.OrderRun(P.Initial(silence), labels);
    forall id: nat ensures P.Accounted(P.Run(P.Initial(silence), labels), id) {
      P.AccountRun(P.Initial(silence), labels, id);
    }
  }

  lemma WireIsIncreasing(s: P.State)
    requires P.Ordered(s)
    ensures Increasing(P.Frames(s.picks))
  {
    var ids := P.Frames(s.picks);
    forall i, j | 0 <= i < j < |ids| ensures ids[i] < ids[j] {
      assert P.Line(s)[i] == ids[i] && P.Line(s)[j] == ids[j];
    }
  }

  /** Positions in a sequence of length `n`, in order. */
  ghost predicate Positions(kept: seq<nat>, n: nat) {
    Increasing(kept) && Below(kept, n)
  }

  function Select<T>(s: seq<T>, kept: seq<nat>): (some: seq<T>)
    requires Below(kept, |s|)
    ensures |some| == |kept|
  {
    seq(|kept|, i requires 0 <= i < |kept| => s[kept[i]])
  }

  lemma SelectNamed(frames: seq<Frame>, ids: seq<nat>, emitted: seq<Frame>, kept: seq<nat>)
    requires Naming(frames, ids, emitted) && Below(kept, |ids|)
    ensures Naming(Select<Frame>(frames, kept), Select<nat>(ids, kept), emitted)
  {
  }

  lemma SelectIncreasing(ids: seq<nat>, kept: seq<nat>)
    requires Increasing(ids) && Positions(kept, |ids|)
    ensures Increasing(Select<nat>(ids, kept))
  {
  }

  /** Frames the sender dropped late or cleared between the first and the last of those kept. */
  function DroppedAmong(s: P.State, kept: seq<nat>): nat
    requires kept != [] && Below(kept, |s.picks|)
  {
    |P.DroppedBetween(s, s.picks[kept[0]].frame, s.picks[kept[|kept| - 1]].frame)|
  }

  /** Frames it sent between them that are not among those kept. */
  function LostAmong(kept: seq<nat>): int
    requires kept != []
  {
    kept[|kept| - 1] - kept[0] - (|kept| - 1)
  }

  /** The positions between the first and the last kept that are not kept. */
  function LostPositions(kept: seq<nat>, k: nat): set<nat>
    requires k < |kept|
  {
    set p: nat | kept[0] <= p < kept[k] && p !in kept
  }

  lemma {:induction false} LostAmongMeans(kept: seq<nat>, k: nat)
    requires Increasing(kept) && k < |kept|
    ensures |LostPositions(kept, k)| == kept[k] - kept[0] - k
    ensures k == |kept| - 1 ==> LostAmong(kept) == |LostPositions(kept, k)|
  {
    if k == 0 {
      assert LostPositions(kept, 0) == {};
    } else {
      LostAmongMeans(kept, k - 1);
      var a, b := kept[k - 1], kept[k];
      var between := P.Between(a, b);
      forall i | 0 <= i < |kept| ensures kept[i] <= a || b <= kept[i] {
        assert i <= k - 1 || k <= i;
      }
      assert LostPositions(kept, k) == LostPositions(kept, k - 1) + between;
      assert LostPositions(kept, k - 1) !! between;
    }
  }

  /** Numbers absent between the first and the last of the frames kept. */
  lemma AbsentIsDroppedOrLost(s: P.State, kept: seq<nat>)
    requires P.Ordered(s) && (forall id: nat :: P.Accounted(s, id)) && Positions(kept, |s.picks|) && kept != []
    ensures var ids := Select<nat>(P.Frames(s.picks), kept);
            ids[|ids| - 1] - ids[0] - (|ids| - 1) == DroppedAmong(s, kept) + LostAmong(kept)
  {
    P.MissingAreDropped(s, kept[0], kept[|kept| - 1]);
  }

  // --------------------------------------------------------------- end to end

  /** The printed report, if there is one, shows no jump, and figures that add up to `absent` iff none went unprinted. */
  ghost predicate PrintedTells(rows: seq<Continuity.Row>, absent: int) {
    var report := Continuity.ReportOf(rows);
    && (report.Skipped? <==> Continuity.Speech(rows) < 2)
    && (report.Report? ==>
          report.jumps == 0 && (Continuity.Sum(report.missing) == absent <==> report.lost <= Continuity.PRINTED))
  }

  /** The analyser reports no jump in the rows, and figures that add up to `absent`. */
  ghost predicate Reports(rows: seq<Continuity.Row>, absent: int) {
    && rows != []
    && Continuity.JumpLines(rows, |rows| - 1) == []
    && Continuity.Sum(Continuity.MissingLines(rows, |rows| - 1)) == absent
    && PrintedTells(rows, absent)
  }

  /** What it makes of the rows of these frames. */
  lemma ReadTheRows(rows: seq<Continuity.Row>, ids: seq<nat>, absent: int)
    requires Continuity.Records(rows, ids) && Increasing(ids) && Continuity.SmallGaps(ids) && ids != []
    requires absent == ids[|ids| - 1] - ids[0] - (|ids| - 1)
    ensures Reports(rows, absent)
  {
    Continuity.MissingSum(rows, ids, |ids| - 1);
    if Continuity.Speech(rows) >= 2 {
      Continuity.PrintedSum(rows, ids);
    }
  }

  /** A sender brought to `s` by a race-free run, over the frames that an encoder gave for its calls. */
  ghost predicate Sends<C>(k: Codec<C>, calls: seq<Call>, emitted: seq<Frame>, silence: bool, labels: seq<P.Label>, s: P.State) {
    && Run(k, Fresh(k), calls).1 == emitted
    && P.Legal(P.Initial(silence), labels) && P.RaceFree(P.Initial(silence), labels)
    && P.Run(P.Initial(silence), labels) == s
  }

  /** What the receiver records of the frames kept. */
  lemma RecordsOfSender<C>(k: Codec<C>, calls: seq<Call>, emitted: seq<Frame>, wire: seq<Frame>, ids: seq<nat>, kept: seq<nat>, peer: Byte)
    requires Run(k, Fresh(k), calls).1 == emitted && Naming(wire, ids, emitted) && Positions(kept, |wire|)
    ensures Continuity.Records(Received(Select<Frame>(wire, kept), peer), Select<nat>(ids, kept))
    ensures |Received(Select<Frame>(wire, kept), peer)| == |kept|
  {
    LifeCounts(k, calls);
    SelectNamed(wire, ids, emitted, kept);
    ReceivedRecords(Select<Frame>(wire, kept), Select<nat>(ids, kept), emitted, peer);
  }

  /** Their order, and the numbers absent among them. */
  lemma AbsentOfSender(silence: bool, labels: seq<P.Label>, s: P.State, kept: seq<nat>)
    requires P.Legal(P.Initial(silence), labels) && P.RaceFree(P.Initial(silence), labels)
    requires P.Run(P.Initial(silence), labels) == s && Positions(kept, |s.picks|) && kept != []
    ensures var ids := Select<nat>(P.Frames(s.picks), kept);
            Increasing(ids) && ids[|ids| - 1] - ids[0] - (|ids| - 1) == DroppedAmong(s, kept) + LostAmong(kept)
  {
    RunIsOrdered(silence, labels);
    WireIsIncreasing(s);
    SelectIncreasing(P.Frames(s.picks), kept);
    AbsentIsDroppedOrLost(s, kept);
  }

  /**
    From PCM to the analyser, over a relay that loses frames: for every codec,
    every sequence of encoder calls, every race-free run of the sender over the
    frames they gave, and every choice of the frames that the relay forwards, with
    fewer than 65535 numbers absent between neighbours. The figures add up to what
    the sender dropped and what the relay lost.
  */
  lemma LossyRelay<C>(k: Codec<C>, calls: seq<Call>, emitted: seq<Frame>, silence: bool, labels: seq<P.Label>, s: P.State,
                      wire: seq<Frame>, kept: seq<nat>, peer: Byte)
    requires Sends(k, calls, emitted, silence, labels, s) && Naming(wire, P.Frames(s.picks), emitted)
    requires Positions(kept, |wire|) && kept != [] && Continuity.SmallGaps(Select<nat>(P.Frames(s.picks), kept))
    ensures |Received(Select<Frame>(wire, kept), peer)| == |kept|
    ensures Reports(Received(Select<Frame>(wire, kept), peer), DroppedAmong(s, kept) + LostAmong(kept))
  {
    var ids := Select<nat>(P.Frames(s.picks), kept);
    RecordsOfSender(k, calls, emitted, wire, P.Frames(s.picks), kept, peer);
    AbsentOfSender(silence, labels, s, kept);
    ReadTheRows(Received(Select<Frame>(wire, kept), peer), ids, DroppedAmong(s, kept) + LostAmong(kept));
  }

  /** With a relay that forwards everything the figures are the sender's own drops. */
  lemma EndToEnd<C>(k: Codec<C>, calls: seq<Call>, emitted: seq<Frame>, silence: bool, labels: seq<P.Label>, s: P.State,
                    wire: seq<Frame>, peer: Byte)
    requires Sends(k, calls, emitted, silence, labels, s) && Naming(wire, P.Frames(s.picks), emitted)
    requires wire != [] && Continuity.SmallGaps(P.Frames(s.picks))
    ensures |Received(wire, peer)| == |wire| == |s.picks|
    ensures Reports(Received(wire, peer), |P.DroppedBetween(s, s.picks[0].frame, s.picks[|s.picks| - 1].frame)|)
  {
    var kept := P.Range(0, |wire|);
    SelectAll(wire, kept);
    SelectAll(P.Frames(s.picks), kept);
    AllKept(s, kept);
    LossyRelay(k, calls, emitted, silence, labels, s, wire, kept, peer);
  }

  lemma SelectAll<T>(s: seq<T>, kept: seq<nat>)
    requires kept == P.Range(0, |s|)
    ensures Positions(kept, |s|) && Select(s, kept) == s
  {
  }

  lemma AllKept(s: P.State, kept: seq<nat>)
    requires s.picks != [] && kept == P.Range(0, |s.picks|)
    ensures LostAmong(kept) == 0
    ensures Below(kept, |s.picks|)
            && DroppedAmong(s, kept) == |P.DroppedBetween(s, s.picks[0].frame, s.picks[|s.picks| - 1].frame)|
  {
  }
}
