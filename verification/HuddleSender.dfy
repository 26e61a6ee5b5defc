/**
  The sending half of a huddle connection: PCM goes through the encoder into the
  outbound queue, and the paced loop takes frames from it slot by slot. The class
  holds the fields the program updates; its ghost fields record the encoder calls
  made and the run of the abstract sender that the object has followed. The calls of
  producers are cut into their parts, so that the loop's methods may run between
  encoding a frame and appending it, or between discarding the carry and emptying
  the queue.
*/
module HuddleSender {

  import opened Wrappers
  import opened Wire
  import opened Encoder
  import Continuity
  import P = Pacer
  import PacedTurn
  import opened Recording

  /** A slot lasts as long as a frame's samples do at 48 kHz. */
  lemma SlotIsFrame()
    ensures P.FRAME * 48_000 == 1_000_000_000 * FRAME_SAMPLES
  {
  }

  /** Frames handed to the socket whose send has returned. */
  function SentCount(m: P.State): int {
    |m.picks| - if m.phase.Sending? || m.phase.Closed? then 1 else 0
  }

  /** The drop loop counts its frames when it has ended, so a loop that died in it has not counted them. */
  predicate LateCount(m: P.State, batch: nat, droppedLate: nat) {
    match m.phase
    case Dropping(left) => left <= batch && droppedLate + (batch - left) == |m.late|
    case Dead => droppedLate <= |m.late|
    case _ => droppedLate == |m.late|
  }

  class HuddleClient<C> {
    const k: Codec<C>
    const streamSilence: bool
    const encoder: EncoderInner<C>
    var out: seq<Frame>
    var held: seq<Frame>             // encoded by the producer's call in progress, not yet appended
    var nextAt: int
    var batch: nat                   // how many frames the drop loop in progress is to drop
    var sent: int
    var droppedLate: nat

    ghost var calls: seq<Call>       // every encoder call so far
    ghost var emitted: seq<Frame>    // every frame the encoder has returned
    ghost var wire: seq<Frame>       // every frame handed to the socket
    ghost var m: P.State
    ghost var labels: seq<P.Label>

    /** The abstract sender has made a legal run to its present state. */
    ghost predicate History()
      reads `m, `labels
    {
      && P.Legal(P.Initial(streamSilence), labels)
      && P.Run(P.Initial(streamSilence), labels) == m
      && m.silence == streamSilence
    }

    ghost predicate EncoderHistory()
      reads `calls, `emitted, `m, encoder
    {
      && encoder.k == k && encoder.Valid()
      && Run(k, Fresh(k), calls) == (encoder.Abs(), emitted)
      && |emitted| == m.emitted
    }

    ghost predicate Coupled()
      reads `out, `held, `nextAt, `batch, `sent, `droppedLate, `emitted, `wire, `m
    {
      && Naming(out, m.out, emitted)
      && Naming(held, m.pending, emitted)
      && Naming(wire, P.Frames(m.picks), emitted)
      && nextAt == m.nextAt
      && LateCount(m, batch, droppedLate)
      && sent == SentCount(m)
    }

    ghost predicate Valid()
      reads this, encoder
    {
      History() && EncoderHistory() && Coupled()
    }

    /** No silence has yet overtaken frames that a producer held. */
    ghost predicate RaceFree()
      reads `m, `labels
      requires History()
    {
      P.RaceFree(P.Initial(streamSilence), labels)
    }

    constructor (k: Codec<C>, streamSilence: bool)
      ensures Valid() && RaceFree() && fresh(encoder)
      ensures this.k == k && this.streamSilence == streamSilence
      ensures m == P.Initial(streamSilence) && calls == [] && out == []
    {
      this.k := k;
      this.streamSilence := streamSilence;
      encoder := new EncoderInner(k);
      out, held, nextAt, batch, sent, droppedLate := [], [], 0, 0, 0, 0;
      calls, emitted, wire, labels := [], [], [], [];
      m := P.Initial(streamSilence);
    }

    /** Advance the abstract sender by one step. */
    ghost method Take(l: P.Label)
      requires History() && P.Enabled(m, l)
      modifies this`m, this`labels
      ensures History() && m == P.Step(old(m), l) && labels == old(labels) + [l]
      ensures RaceFree() <==> old(RaceFree()) && !P.Race(old(m), l)
    {
      P.RunSnoc(P.Initial(streamSilence), labels, l);
      m, labels := P.Step(m, l), labels + [l];
    }

    /** Record an encoder call that has just been made. */
    ghost method Record(call: Call, before: State<C>, frames: seq<Frame>)
      requires encoder.k == k && Run(k, Fresh(k), calls) == (before, emitted)
      requires CallStep(k, before, call) == (encoder.Abs(), frames)
      modifies this`calls, this`emitted
      ensures Run(k, Fresh(k), calls) == (encoder.Abs(), emitted)
      ensures calls == old(calls) + [call] && emitted == old(emitted) + frames
    {
      RunSnoc(k, Fresh(k), calls, call);
      calls, emitted := calls + [call], emitted + frames;
    }

    /** The producer now holds the frames an encoder call has returned. */
    method Hold(ghost call: Call, ghost before: State<C>, frames: seq<Frame>)
      requires History() && Coupled() && held == [] && |emitted| == m.emitted
      requires encoder.k == k && encoder.Valid() && Run(k, Fresh(k), calls) == (before, emitted)
      requires CallStep(k, before, call) == (encoder.Abs(), frames)
      modifies this`held, this`calls, this`emitted, this`m, this`labels
      ensures Valid() && (RaceFree() <==> old(RaceFree())) && m == P.Step(old(m), P.Encode(|frames|))
      ensures held == frames && calls == old(calls) + [call] && emitted == old(emitted) + frames
    {
      NamingGrows(out, m.out, emitted, frames);
      NamingGrows(wire, P.Frames(m.picks), emitted, frames);
      NamingNew(emitted, frames);
      Record(call, before, frames);
      Take(P.Encode(|frames|));
      held := frames;
    }

    /** First part of `send_pcm`: the encoder call. Odd-length PCM raises. */
    method EncodePcm(pcm: seq<Byte>) returns (r: Result<(), string>)
      requires Valid() && held == []
      modifies this`held, this`calls, this`emitted, this`m, this`labels, encoder
      ensures Valid() && (RaceFree() <==> old(RaceFree())) && m == P.Step(old(m), P.Encode(|held|))
      ensures r.Failure? <==> |pcm| % 2 != 0
      ensures r.Failure? ==> held == []
      ensures calls == old(calls) + [Encode(pcm)] && emitted == old(emitted) + held
    {
      ghost var before := encoder.Abs();
      var result := encoder.Drain(pcm);
      Hold(Encode(pcm), before, if result.Success? then result.value else []);
      r := if result.Success? then Success(()) else Failure(result.error);
    }

    /** First part of `flush_pcm`. */
    method EncodeTail()
      requires Valid() && held == []
      modifies this`held, this`calls, this`emitted, this`m, this`labels, encoder
      ensures Valid() && (RaceFree() <==> old(RaceFree())) && m == P.Step(old(m), P.Encode(|held|))
      ensures |held| <= 1
      ensures calls == old(calls) + [Call.Flush] && emitted == old(emitted) + held
    {
      ghost var before := encoder.Abs();
      var frame := encoder.Flush();
      Hold(Call.Flush, before, Listed(frame));
    }

    /** The rest of either: append the next of the frames held. */
    method AppendNext()
      requires Valid() && held != []
      modifies this`out, this`held, this`m, this`labels
      ensures Valid() && (RaceFree() <==> old(RaceFree())) && m == P.Step(old(m), P.Append)
      ensures out == old(out) + [old(held)[0]] && held == old(held)[1..]
    {
      NamingConcat(out, m.out, [held[0]], [m.pending[0]], emitted);
      Take(P.Append);
      out, held := out + [held[0]], held[1..];
    }

    /** All of them, when nothing comes between. */
    method AppendAll(ghost m0: P.State)
      requires Valid() && m0.pending == [] && m == P.Step(m0, P.Encode(|held|))
      modifies this`out, this`held, this`m, this`labels
      ensures Valid() && (RaceFree() <==> old(RaceFree())) && held == []
      ensures out == old(out) + old(held) && m == P.Appending(m0, |old(held)|, |old(held)|)
    {
      ghost var all, out0, i := held, out, 0;
      P.AppendingStep(m0, |all|, 0);
      while held != []
        invariant Valid() && (RaceFree() <==> old(RaceFree()))
        invariant Appended(m0, all, out0, i)
        decreases |held|
      {
        AppendOneOf(m0, all, out0, i);
        i := i + 1;
      }
    }

    /** The first `i` of the frames an encoder call returned have been appended. */
    ghost predicate Appended(m0: P.State, all: seq<Frame>, out0: seq<Frame>, i: nat)
      reads `out, `held, `m
    {
      i <= |all| && held == all[i..] && out == out0 + all[..i] && m == P.Appending(m0, |all|, i)
    }

    method AppendOneOf(ghost m0: P.State, ghost all: seq<Frame>, ghost out0: seq<Frame>, ghost i: nat)
      requires Valid() && held != [] && m0.pending == [] && Appended(m0, all, out0, i)
      modifies this`out, this`held, this`m, this`labels
      ensures Valid() && (RaceFree() <==> old(RaceFree())) && Appended(m0, all, out0, i + 1)
      ensures |held| < old(|held|)
    {
      P.AppendingStep(m0, |all|, i);
      assert all[..i] + [all[i]] == all[..i + 1];
      AppendNext();
    }

    /** The encoder's new frames, and nothing else, have joined the back of the queue. */
    ghost predicate Queued(m0: P.State, out0: seq<Frame>, emitted0: seq<Frame>, frames: seq<Frame>)
      reads this
    {
      && emitted == emitted0 + frames && out == out0 + frames
      && m == P.Appending(m0, |frames|, |frames|)
    }

    method SendPcm(pcm: seq<Byte>) returns (r: Result<(), string>)
      requires Valid() && held == []
      modifies this, encoder
      ensures Valid() && (RaceFree() <==> old(RaceFree())) && held == []
      ensures r.Failure? <==> |pcm| % 2 != 0
      ensures calls == old(calls) + [Encode(pcm)]
      ensures exists frames :: Queued(old(m), old(out), old(emitted), frames)
      ensures wire == old(wire) && m.picks == old(m.picks)
    {
      r := EncodePcm(pcm);
      ghost var frames := held;
      AppendAll(old(m));
      assert Queued(old(m), old(out), old(emitted), frames);
    }

    method FlushPcm()
      requires Valid() && held == []
      modifies this, encoder
      ensures Valid() && (RaceFree() <==> old(RaceFree())) && held == []
      ensures calls == old(calls) + [Call.Flush]
      ensures exists frames :: Queued(old(m), old(out), old(emitted), frames) && |frames| <= 1
      ensures wire == old(wire) && m.picks == old(m.picks)
    {
      EncodeTail();
      ghost var frames := held;
      AppendAll(old(m));
      assert Queued(old(m), old(out), old(emitted), frames);
    }

    /** First part of `clear_queue`. */
    method DiscardCarry()
      requires Valid()
      modifies this`calls, this`emitted, encoder
      ensures Valid() && encoder.carry == []
      ensures calls == old(calls) + [Call.Discard] && emitted == old(emitted)
    {
      ghost var before := encoder.Abs();
      encoder.Discard();
      Record(Call.Discard, before, []);
      assert old(emitted) + [] == old(emitted);
    }

    method QueuedFrames() returns (n: nat)
      ensures n == |out|
    {
      n := |out|;
    }

    /** The last part of it, after the queue has been counted. */
    method EmptyQueue()
      requires Valid()
      modifies this`out, this`m, this`labels
      ensures Valid() && (RaceFree() <==> old(RaceFree())) && m == P.Step(old(m), P.Clear)
      ensures out == []
    {
      out := [];
      Take(P.Clear);
    }

    method ClearQueue() returns (dropped: nat)
      requires Valid()
      modifies this, encoder
      ensures Valid() && (RaceFree() <==> old(RaceFree()))
      ensures dropped == |old(out)| && out == [] && encoder.carry == []
      ensures m == old(m).(out := [], cleared := old(m).cleared + old(m).out)
      ensures wire == old(wire) && held == old(held) && emitted == old(emitted)
    {
      DiscardCarry();
      dropped := QueuedFrames();
      EmptyQueue();
    }

    method StartLoop(t: int)
      requires Valid() && m.phase.Off? && m.now <= t
      modifies this`nextAt, this`m, this`labels
      ensures Valid() && (RaceFree() <==> old(RaceFree())) && m == P.Step(old(m), P.Start(t)) && nextAt == t
    {
      nextAt := t;
      Take(P.Start(t));
    }

    /** The clock is read: how many slots were missed, and so how many frames there are to drop. */
    method ReadClock(t: int)
      requires Valid() && m.phase.Ready? && m.now <= t && m.nextAt <= t
      modifies this`batch, this`nextAt, this`m, this`labels
      ensures Valid() && (RaceFree() <==> old(RaceFree())) && m == P.ReadStep(old(m), t)
      ensures m.phase == P.Dropping(batch)
    {
      ghost var r := P.ReadStep(m, t);
      var behind := (t - nextAt) / P.FRAME;
      batch := 0;
      if behind >= 1 {
        batch := P.Min(behind, |out|);
        nextAt := nextAt + behind * P.FRAME;
      }
      assert nextAt == r.nextAt && r.phase == P.Dropping(batch);
      Take(P.Read(t));
    }

    /** One `popleft` of the drop loop. It raises if the queue has been cleared meanwhile. */
    method DropNext() returns (ok: bool)
      requires Valid() && m.phase.Dropping? && m.phase.left > 0
      modifies this`out, this`m, this`labels
      ensures Valid() && (RaceFree() <==> old(RaceFree())) && m == P.TurnStep(old(m))
      ensures ok <==> old(out) != []
      ensures ok ==> out == old(out)[1..]
    {
      Take(P.Turn);
      if out == [] {
        return false;
      }
      out := out[1..];
      ok := true;
    }

    /** The drop loop has ended: count what it dropped. */
    method CountDropped()
      requires Valid() && m.phase == P.Dropping(0)
      modifies this`droppedLate, this`m, this`labels
      ensures Valid() && (RaceFree() <==> old(RaceFree())) && m == P.TurnStep(old(m))
    {
      droppedLate := droppedLate + batch;
      Take(P.Turn);
    }

    method TooLong() returns (more: bool)
      requires Valid() && m.phase.Measuring?
      modifies this`m, this`labels
      ensures Valid() && (RaceFree() <==> old(RaceFree())) && m == P.TurnStep(old(m))
      ensures more <==> |out| > P.MAX_QUEUE
    {
      more := |out| > P.MAX_QUEUE;
      Take(P.Turn);
    }

    /** One `popleft` of the trimming loop. */
    method TrimNext() returns (ok: bool)
      requires Valid() && m.phase.Trimming?
      modifies this`out, this`droppedLate, this`m, this`labels
      ensures Valid() && (RaceFree() <==> old(RaceFree())) && m == P.TurnStep(old(m))
      ensures ok <==> old(out) != []
      ensures ok ==> out == old(out)[1..]
    {
      Take(P.Turn);
      if out == [] {
        return false;
      }
      out := out[1..];
      droppedLate := droppedLate + 1;
      ok := true;
    }

    method HasFrame() returns (some: bool)
      requires Valid() && m.phase.Testing?
      modifies this`m, this`labels
      ensures Valid() && (RaceFree() <==> old(RaceFree())) && m == P.TurnStep(old(m))
      ensures some <==> out != []
    {
      some := out != [];
      Take(P.Turn);
    }

    /** The `popleft` that gives the slot its frame. */
    method TakeFront() returns (frame: Option<Frame>)
      requires Valid() && m.phase.Popping?
      modifies this`out, this`wire, this`m, this`labels
      ensures Valid() && (RaceFree() <==> old(RaceFree())) && m == P.TurnStep(old(m))
      ensures frame == if old(out) == [] then None else Some(old(out)[0])
      ensures wire == old(wire) + Listed(frame)
    {
      frame := None;
      if out != [] {
        frame := Some(out[0]);
        P.FramesPush(m.picks, P.Pick(m.out[0], m.nextAt, m.now));
        NamingConcat(wire, P.Frames(m.picks), [out[0]], [m.out[0]], emitted);
        wire := wire + [out[0]];
        out := out[1..];
      }
      Take(P.Turn);
    }

    /** One frame of silence through the connection's own encoder. */
    method EncodeSilence() returns (encoded: seq<Frame>)
      requires EncoderHistory()
      modifies encoder, this`calls, this`emitted
      ensures |encoded| <= 1 && emitted == old(emitted) + encoded
      ensures encoder.k == k && encoder.Valid() && Run(k, Fresh(k), calls) == (encoder.Abs(), emitted)
      ensures calls == old(calls) + [Encode(SilencePcm(FRAME_SAMPLES))]
    {
      ghost var before := encoder.Abs();
      RunStaysPartial(k, Fresh(k), calls);
      SilenceFill(k, before);
      var result := encoder.Drain(SilencePcm(FRAME_SAMPLES));
      encoded := if result.Success? then result.value else [];
      Record(Encode(SilencePcm(FRAME_SAMPLES)), before, encoded);
    }

    /** The queue was seen empty: silence takes the slot, or passes it if the codec has nothing to say. */
    method FillSilence() returns (frame: Option<Frame>)
      requires Valid() && m.phase.Filling?
      modifies this`out, this`nextAt, this`calls, this`emitted, this`wire, this`m, this`labels, encoder
      ensures Valid() && m == P.FillStep(old(m), |Listed(frame)|)
      ensures RaceFree() <==> old(RaceFree()) && (frame.Some? ==> out == [] && held == [])
      ensures out == old(out) && wire == old(wire) + Listed(frame) && emitted == old(emitted) + Listed(frame)
      ensures calls == old(calls) + [Encode(SilencePcm(FRAME_SAMPLES))]
    {
      var encoded := EncodeSilence();
      NamingGrows(out, m.out, old(emitted), encoded);
      NamingGrows(wire, P.Frames(m.picks), old(emitted), encoded);
      NamingGrows(held, m.pending, old(emitted), encoded);
      if encoded == [] {
        frame := None;
        SlotPassed();
      } else {
        frame := Some(encoded[0]);
        assert encoded[1..] == [] && Listed(frame) == encoded;
        out := out + encoded[1..];
        SilencePicked(frame.value);
      }
    }

    /** The codec had nothing to say: the schedule moves on without a send. */
    method SlotPassed()
      requires History() && Coupled() && m.phase.Filling?
      modifies this`nextAt, this`m, this`labels
      ensures History() && Coupled() && m == P.FillStep(old(m), 0) && (RaceFree() <==> old(RaceFree()))
    {
      nextAt := nextAt + P.FRAME;
      Take(P.Fill(0));
    }

    ghost method SilencePicked(frame: Frame)
      requires History() && Coupled() && m.phase.Filling?
      requires emitted != [] && |emitted| == m.emitted + 1 && emitted[|emitted| - 1] == frame
      modifies this`wire, this`m, this`labels
      ensures History() && Coupled() && |emitted| == m.emitted
      ensures m == P.FillStep(old(m), 1) && wire == old(wire) + [frame]
      ensures RaceFree() <==> old(RaceFree()) && out == [] && held == []
    {
      P.FramesPush(m.picks, P.Pick(m.emitted, m.nextAt, m.now));
      NamingConcat(wire, P.Frames(m.picks), [frame], [m.emitted], emitted);
      wire := wire + [frame];
      Take(P.Fill(1));
    }

    /**
      A whole turn from its clock reading at `t` to the next await, when nobody
      interferes: its operations come to the slot, and it does not raise. Returns the
      frame to send, if the slot has one; `idle` says that the loop waits for audio.
    */
    method RunTurn(t: int) returns (frame: Option<Frame>, idle: bool)
      requires Valid() && m.phase.Ready? && m.now <= t && m.nextAt <= t
      modifies this, encoder
      ensures Valid() && held == old(held)
      ensures var slot := PacedTurn.Slot(old(m), t);
              && m == (if slot.phase.Filling? then P.FillStep(slot, |Listed(frame)|) else slot)
              && (RaceFree() <==> old(RaceFree()) && !(slot.phase.Filling? && frame.Some? && held != []))
      ensures (idle <==> m.phase.Idle?) && (frame.Some? <==> m.phase.Sending?)
      ensures wire == old(wire) + Listed(frame)
    {
      ghost var slot := PacedTurn.Slot(m, t);
      PacedTurn.AloneIsSlot(m, t);
      ReadClock(t);
      DropAll(slot);
      TrimAll(slot);
      frame, idle := TakeSlot(slot);
    }

    /** The rest of the turn leads to `slot`. */
    ghost predicate LeadsTo(slot: P.State)
      reads `m
    {
      PacedTurn.Safe(m) && PacedTurn.Alone(m) == slot
    }

    /** The drop loop. */
    method DropAll(ghost slot: P.State)
      requires Valid() && m.phase == P.Dropping(batch) && LeadsTo(slot)
      modifies this`out, this`droppedLate, this`m, this`labels
      ensures Valid() && (RaceFree() <==> old(RaceFree()))
      ensures m.phase.Measuring? && LeadsTo(slot)
    {
      for n := 0 to batch
        invariant Valid() && (RaceFree() <==> old(RaceFree()))
        invariant m.phase == P.Dropping(batch - n) && LeadsTo(slot)
      {
        PacedTurn.AloneStep(m);
        var _ := DropNext();
      }
      PacedTurn.AloneStep(m);
      CountDropped();
    }

    /** The trimming loop. */
    method TrimAll(ghost slot: P.State)
      requires Valid() && m.phase.Measuring? && LeadsTo(slot)
      modifies this`out, this`droppedLate, this`m, this`labels
      ensures Valid() && (RaceFree() <==> old(RaceFree()))
      ensures m.phase.Testing? && LeadsTo(slot)
    {
      PacedTurn.AloneStep(m);
      var more := TooLong();
      while more
        invariant Valid() && (RaceFree() <==> old(RaceFree()))
        invariant m.phase == (if more then P.Trimming else P.Testing) && LeadsTo(slot)
        decreases PacedTurn.Rank(m)
      {
        PacedTurn.AloneStep(m);
        var _ := TrimNext();
        PacedTurn.AloneStep(m);
        more := TooLong();
      }
    }

    /** What takes the slot: the front of the queue, silence, or nothing. */
    method TakeSlot(ghost slot: P.State) returns (frame: Option<Frame>, idle: bool)
      requires Valid() && m.phase.Testing? && LeadsTo(slot)
      modifies this`out, this`nextAt, this`calls, this`emitted, this`wire, this`m, this`labels, encoder
      ensures Valid()
      ensures m == if slot.phase.Filling? then P.FillStep(slot, |Listed(frame)|) else slot
      ensures RaceFree() <==> old(RaceFree()) && !(slot.phase.Filling? && frame.Some? && held != [])
      ensures (idle <==> m.phase.Idle?) && (frame.Some? <==> m.phase.Sending?)
      ensures wire == old(wire) + Listed(frame)
    {
      frame, idle := None, false;
      PacedTurn.AloneStep(m);
      var some := HasFrame();
      if some {
        PacedTurn.AloneStep(m);
        frame := TakeFront();
      } else if streamSilence {
        frame := FillSilence();
      } else {
        idle := true;
      }
    }

    /** The send has returned: count it and move the schedule on by one frame. */
    method FinishSend()
      requires Valid() && m.phase.Sending?
      modifies this`sent, this`nextAt, this`m, this`labels
      ensures Valid() && (RaceFree() <==> old(RaceFree())) && m == P.Step(old(m), P.Sent)
      ensures sent == old(sent) + 1 && nextAt == old(nextAt) + P.FRAME
    {
      sent := sent + 1;
      nextAt := nextAt + P.FRAME;
      Take(P.Sent);
    }

    /** The idle wait is over, by audio or by timeout: the schedule restarts from the clock. */
    method WakeUp(t: int)
      requires Valid() && m.phase.Idle? && m.now <= t
      modifies this`nextAt, this`m, this`labels
      ensures Valid() && (RaceFree() <==> old(RaceFree())) && m == P.Step(old(m), P.Wake(t)) && nextAt == t
    {
      nextAt := t;
      Take(P.Wake(t));
    }

    /** The socket closes under a send: the loop ends and that frame is not counted. */
    method ConnectionLost()
      requires Valid() && m.phase.Sending?
      modifies this`m, this`labels
      ensures Valid() && (RaceFree() <==> old(RaceFree())) && m == P.Step(old(m), P.Lost) && m.phase.Closed?
    {
      Take(P.Lost);
    }

    /**
      What a recording of this connection says, if the relay forwarded the frames at
      the positions `kept` of the wire: one row per frame, no timestamp jump, and
      "missing" figures that add up to the frames dropped late or cleared between the
      first and the last of them and those the relay lost there; the printed figures
      do if and only if at most ten pairs were lost.
    */
    lemma Diagnosis(kept: seq<nat>, peer: Byte)
      requires Valid() && RaceFree() && Positions(kept, |wire|) && kept != []
      requires Continuity.SmallGaps(Select<nat>(P.Frames(m.picks), kept))
      ensures |Received(Select<Frame>(wire, kept), peer)| == |kept|
      ensures Reports(Received(Select<Frame>(wire, kept), peer), DroppedAmong(m, kept) + LostAmong(kept))
    {
      LossyRelay(k, calls, emitted, streamSilence, labels, m, wire, kept, peer);
    }
  }
}
