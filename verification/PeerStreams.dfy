/**
  What a peer's decoder has heard. Opus decoders carry state from packet to
  packet, and the relay recycles indexes, so the question is whether the audio of
  one peer ever depends on the packets of another.
*/
module PeerStreams {

  import opened Wrappers
  import opened Wire
  import opened Inbound

  /** A new decoder given these payloads in turn. */
  function Decoded<D>(k: Opus<D>, payloads: seq<seq<Byte>>): D {
    if payloads == [] then k.init
    else k.step(Decoded(k, payloads[..|payloads| - 1]), payloads[|payloads| - 1]).0
  }

  /** The payload this message carries for index `i`, if it is a well-formed frame of that index. */
  function PayloadFor(msg: Message, i: Byte): Option<seq<Byte>> {
    match msg
    case Text(_) => None
    case Binary(frame) =>
      var r := ParseInbound(frame);
      if r.Success? && r.value.peer == i then Some(r.value.payload) else None
  }

  /** Does this message make the client forget the decoder of index `i`? */
  predicate Resets(me: string, peers: map<Byte, string>, msg: Message, i: Byte) {
    match msg
    case Text(Left(Some(_), Some(j))) => i == j
    case Text(Roster(entries)) => i in peers && peers[i] != me && i !in ParsePeers(entries).at
    case _ => false
  }

  function Then<T>(s: seq<T>, o: Option<T>): seq<T> {
    match o
    case None => s
    case Some(x) => s + [x]
  }

  /** Payloads of index `i` since its decoder was last forgotten. */
  function Heard<D>(k: Opus<D>, me: string, s0: State<D>, msgs: seq<Message>, i: Byte): seq<seq<Byte>>
    requires s0.peers.Wf()
  {
    if msgs == [] then []
    else
      var before, msg := msgs[..|msgs| - 1], msgs[|msgs| - 1];
      if Resets(me, Run(k, me, s0, before).0.peers.at, msg, i) then []
      else Then(Heard(k, me, s0, before, i), PayloadFor(msg, i))
  }

  function Owner<D>(s: State<D>, i: Byte): Option<string> {
    Lookup(s.peers.at, i)
  }

  /** Payloads of index `i` since its present owner took it. */
  function Tenure<D>(k: Opus<D>, me: string, s0: State<D>, msgs: seq<Message>, i: Byte): seq<seq<Byte>>
    requires s0.peers.Wf()
  {
    if msgs == [] then []
    else
      var before, msg := msgs[..|msgs| - 1], msgs[|msgs| - 1];
      if Owner(Run(k, me, s0, msgs).0, i) != Owner(Run(k, me, s0, before).0, i) then []
      else Then(Tenure(k, me, s0, before, i), PayloadFor(msg, i))
  }

  /** What the decoder of index `i` remembered at the moment its present owner took it. */
  function Inherited<D>(k: Opus<D>, me: string, s0: State<D>, msgs: seq<Message>, i: Byte): seq<seq<Byte>>
    requires s0.peers.Wf()
  {
    if msgs == [] then []
    else
      var before := msgs[..|msgs| - 1];
      if Owner(Run(k, me, s0, msgs).0, i) != Owner(Run(k, me, s0, before).0, i) then Heard(k, me, s0, msgs, i)
      else Inherited(k, me, s0, before, i)
  }

  // ---------------------------------------------------------- one message

  predicate Lists(events: seq<Event>, i: Byte) {
    exists n :: 0 <= n < |events| && events[n].PeerLeft? && events[n].index == i
  }

  lemma {:induction false} ForgetHolds<D>(decoders: map<Byte, D>, events: seq<Event>, i: Byte)
    ensures Lookup(Forget(decoders, events), i) == if Lists(events, i) then None else Lookup(decoders, i)
    decreases |events|
  {
    if events != [] {
      var init, last := events[..|events| - 1], events[|events| - 1];
      ForgetHolds(decoders, init, i);
      assert Lists(events, i) <==> Lists(init, i) || (last.PeerLeft? && last.index == i);
    }
  }

  lemma ListsPush(events: seq<Event>, more: seq<Event>, i: Byte)
    ensures Lists(events + more, i) <==> Lists(events, i) || Lists(more, i)
  {
    var all := events + more;
    if Lists(events, i) {
      var n :| 0 <= n < |events| && events[n].PeerLeft? && events[n].index == i;
      assert all[n] == events[n];
    }
    if Lists(more, i) {
      var n :| 0 <= n < |more| && more[n].PeerLeft? && more[n].index == i;
      assert all[|events| + n] == more[n];
    }
  }

  lemma {:induction false} LeftEventsList(me: string, peers: map<Byte, string>, snap: map<Byte, string>, order: seq<Byte>, i: Byte)
    requires forall x :: x in order ==> x in peers
    ensures Lists(LeftEvents(me, peers, snap, order), i) <==> i in order && i !in snap && peers[i] != me
    decreases |order|
  {
    if order != [] {
      var init, j := order[..|order| - 1], order[|order| - 1];
      assert order == init + [j];
      LeftEventsList(me, peers, snap, init, i);
      var more := if j !in snap && peers[j] != me then [PeerLeft(peers[j], j)] else [];
      ListsPush(LeftEvents(me, peers, snap, init), more, i);
      assert Lists(more, i) <==> more != [] && j == i by {
        if more != [] && j == i {
          assert more[0].PeerLeft?;
        }
      }
    }
  }

  lemma {:induction false} JoinedEventsList(me: string, peers: map<Byte, string>, snap: map<Byte, string>, order: seq<Byte>, i: Byte)
    requires forall x :: x in order ==> x in snap
    ensures !Lists(JoinedEvents(me, peers, snap, order), i)
    decreases |order|
  {
    if order != [] {
      var init, j := order[..|order| - 1], order[|order| - 1];
      JoinedEventsList(me, peers, snap, init, i);
      ListsPush(JoinedEvents(me, peers, snap, init), if j !in peers && snap[j] != me then [PeerJoined(snap[j], j)] else [], i);
    }
  }

  /** One message moves the decoder of index `i` only by resetting it or by a frame of that index. */
  lemma DecoderStep<D>(k: Opus<D>, me: string, s: State<D>, msg: Message, i: Byte)
    requires s.peers.Wf()
    ensures Lookup(MessageStep(k, me, s, msg).0.decoders, i)
            == if Resets(me, s.peers.at, msg, i) then None
               else if PayloadFor(msg, i).None? then Lookup(s.decoders, i)
               else Some(k.step(if i in s.decoders then s.decoders[i] else k.init, PayloadFor(msg, i).value).0)
  {
    match msg
    case Text(Roster(entries)) =>
      var snap := ParsePeers(entries);
      ParsePeersWf(entries);
      var left, joined := LeftEvents(me, s.peers.at, snap.at, s.peers.order), JoinedEvents(me, s.peers.at, snap.at, snap.order);
      ForgetHolds(s.decoders, left + joined, i);
      ListsPush(left, joined, i);
      LeftEventsList(me, s.peers.at, snap.at, s.peers.order, i);
      JoinedEventsList(me, s.peers.at, snap.at, snap.order, i);
    case _ =>
  }

  /** A frame too short to carry audio changes nothing and announces nothing. */
  lemma MalformedIsIgnored<D>(k: Opus<D>, me: string, s: State<D>, frame: seq<Byte>)
    requires s.peers.Wf() && |frame| <= 1 + HEADER_LEN
    ensures MessageStep(k, me, s, Binary(frame)) == (s, [])
  {
    ParseRebuild(frame);
  }

  // ------------------------------------------------------- over a connection

  lemma DecodedPush<D>(k: Opus<D>, payloads: seq<seq<Byte>>, p: seq<Byte>)
    ensures Decoded(k, payloads + [p]) == k.step(Decoded(k, payloads), p).0
  {
    assert (payloads + [p])[..|payloads|] == payloads;
  }

  /**
    Non-interference: after any traffic whatever, the decoder of an index is a new
    decoder that was given that index's payloads since it was last forgotten.
  */
  lemma {:induction false} DecoderHeard<D>(k: Opus<D>, me: string, s0: State<D>, msgs: seq<Message>, i: Byte)
    requires s0.peers.Wf() && s0.decoders == map[]
    ensures var heard := Heard(k, me, s0, msgs, i);
            Lookup(Run(k, me, s0, msgs).0.decoders, i) == if heard == [] then None else Some(Decoded(k, heard))
    decreases |msgs|
  {
    if msgs != [] {
      var before, msg := msgs[..|msgs| - 1], msgs[|msgs| - 1];
      DecoderHeard(k, me, s0, before, i);
      DecoderStep(k, me, Run(k, me, s0, before).0, msg, i);
      if PayloadFor(msg, i).Some? {
        DecodedPush(k, Heard(k, me, s0, before, i), PayloadFor(msg, i).value);
      }
    }
  }

  /** So the audio event of a frame is made from that history and the frame alone. */
  lemma AudioFromHistory<D>(k: Opus<D>, me: string, s0: State<D>, msgs: seq<Message>, frame: seq<Byte>)
    requires s0.peers.Wf() && s0.decoders == map[] && |frame| > 1 + HEADER_LEN
    ensures var s := Run(k, me, s0, msgs).0;
            var f := ParseInbound(frame).value;
            var samples := k.step(Decoded(k, Heard(k, me, s0, msgs, f.peer)), f.payload).1;
            AudioStep(k, s, frame).1
            == if samples.None? then None
               else Some(Audio(f.peer, Owner(s, f.peer), SamplesToPcm(samples.value), f.seqNo, f.ts, f.level, f.flags % 2 == 1))
  {
    ParseRebuild(frame);
    DecoderHeard(k, me, s0, msgs, ParseInbound(frame).value.peer);
  }

  // ----------------------------------------------------------------- ownership

  lemma ResetLeavesUnowned<D>(k: Opus<D>, me: string, s: State<D>, msg: Message, i: Byte)
    requires s.peers.Wf() && Resets(me, s.peers.at, msg, i)
    ensures Owner(MessageStep(k, me, s, msg).0, i) == None
  {
  }

  /**
    What an owned index has heard is what its owner sent since taking it, after
    whatever the decoder remembered at that moment. So a peer's audio comes from
    its own packets alone exactly when nothing was inherited.
  */
  lemma {:induction false} HeardIsInheritedThenOwn<D>(k: Opus<D>, me: string, s0: State<D>, msgs: seq<Message>, i: Byte)
    requires s0.peers.Wf() && Owner(Run(k, me, s0, msgs).0, i).Some?
    ensures Heard(k, me, s0, msgs, i) == Inherited(k, me, s0, msgs, i) + Tenure(k, me, s0, msgs, i)
    ensures Heard(k, me, s0, msgs, i) == Tenure(k, me, s0, msgs, i) <==> Inherited(k, me, s0, msgs, i) == []
    decreases |msgs|
  {
    if msgs != [] {
      var before, msg := msgs[..|msgs| - 1], msgs[|msgs| - 1];
      var s := Run(k, me, s0, before).0;
      if Owner(Run(k, me, s0, msgs).0, i) == Owner(s, i) {
        if Resets(me, s.peers.at, msg, i) {
          ResetLeavesUnowned(k, me, s, msg, i);
        }
        HeardIsInheritedThenOwn(k, me, s0, before, i);
      }
    }
  }

  /** The inherited history is empty exactly when the index had no decoder as its owner took it. */
  ghost predicate CleanTakeover<D>(k: Opus<D>, me: string, s0: State<D>, msgs: seq<Message>, i: Byte)
    requires s0.peers.Wf()
    decreases |msgs|
  {
    if msgs == [] then true
    else
      var before := msgs[..|msgs| - 1];
      var s, s' := Run(k, me, s0, before).0, Run(k, me, s0, msgs).0;
      if Owner(s', i) != Owner(s, i) then i !in s'.decoders else CleanTakeover(k, me, s0, before, i)
  }

  lemma {:induction false} InheritedIff<D>(k: Opus<D>, me: string, s0: State<D>, msgs: seq<Message>, i: Byte)
    requires s0.peers.Wf() && s0.decoders == map[]
    ensures Inherited(k, me, s0, msgs, i) == [] <==> CleanTakeover(k, me, s0, msgs, i)
    decreases |msgs|
  {
    if msgs != [] {
      var before := msgs[..|msgs| - 1];
      if Owner(Run(k, me, s0, msgs).0, i) != Owner(Run(k, me, s0, before).0, i) {
        DecoderHeard(k, me, s0, msgs, i);
      } else {
        InheritedIff(k, me, s0, before, i);
      }
    }
  }

  /** The relay's discipline for index `i`: no frames while unowned, and an owner is replaced only by a reset. */
  ghost predicate Orderly<D>(k: Opus<D>, me: string, s0: State<D>, msgs: seq<Message>, i: Byte)
    requires s0.peers.Wf()
    decreases |msgs|
  {
    msgs == [] ||
    (var before, msg := msgs[..|msgs| - 1], msgs[|msgs| - 1];
     var s, s' := Run(k, me, s0, before).0, Run(k, me, s0, msgs).0;
     && Orderly(k, me, s0, before, i)
     && (PayloadFor(msg, i).Some? ==> Owner(s, i).Some?)
     && (Owner(s, i).Some? && Owner(s', i) != Owner(s, i) ==> Resets(me, s.peers.at, msg, i)))
  }

  lemma {:induction false} OrderlyIsClean<D>(k: Opus<D>, me: string, s0: State<D>, msgs: seq<Message>, i: Byte)
    requires s0.peers.Wf() && Orderly(k, me, s0, msgs, i)
    ensures Inherited(k, me, s0, msgs, i) == []
    ensures Owner(Run(k, me, s0, msgs).0, i).None? ==> Heard(k, me, s0, msgs, i) == []
    decreases |msgs|
  {
    if msgs != [] {
      OrderlyIsClean(k, me, s0, msgs[..|msgs| - 1], i);
    }
  }

  /** The event of `frame` is made by a new decoder from the payloads its owner sent since taking the index. */
  ghost predicate OwnAudio<D>(k: Opus<D>, me: string, s0: State<D>, msgs: seq<Message>, frame: seq<Byte>)
    requires s0.peers.Wf() && |frame| > 1 + HEADER_LEN
  {
    ParseRebuild(frame);
    var f := ParseInbound(frame).value;
    var s := Run(k, me, s0, msgs).0;
    var samples := k.step(Decoded(k, Tenure(k, me, s0, msgs, f.peer)), f.payload).1;
    AudioStep(k, s, frame).1
    == if samples.None? then None
       else Some(Audio(f.peer, Owner(s, f.peer), SamplesToPcm(samples.value), f.seqNo, f.ts, f.level, f.flags % 2 == 1))
  }

  /** For every decoder: an owner that took an index without a decoder is heard from its own packets alone. */
  lemma CleanTakeoverDecides<D>(k: Opus<D>, me: string, s0: State<D>, msgs: seq<Message>, frame: seq<Byte>)
    requires s0.peers.Wf() && s0.decoders == map[] && |frame| > 1 + HEADER_LEN
    requires var i := ParseInbound(frame).value.peer;
             CleanTakeover(k, me, s0, msgs, i) && Owner(Run(k, me, s0, msgs).0, i).Some?
    ensures OwnAudio(k, me, s0, msgs, frame)
  {
    var i := ParseInbound(frame).value.peer;
    InheritedIff(k, me, s0, msgs, i);
    HeardIsInheritedThenOwn(k, me, s0, msgs, i);
    AudioFromHistory(k, me, s0, msgs, frame);
  }

  /** Under the relay's discipline a peer's PCM is a new decoder's output on its own packets. */
  lemma PeerAloneDecides<D>(k: Opus<D>, me: string, s0: State<D>, msgs: seq<Message>, frame: seq<Byte>)
    requires s0.peers.Wf() && s0.decoders == map[] && |frame| > 1 + HEADER_LEN
    requires var i := ParseInbound(frame).value.peer;
             Orderly(k, me, s0, msgs, i) && Owner(Run(k, me, s0, msgs).0, i).Some?
    ensures OwnAudio(k, me, s0, msgs, frame)
  {
    var i := ParseInbound(frame).value.peer;
    OrderlyIsClean(k, me, s0, msgs, i);
    InheritedIff(k, me, s0, msgs, i);
    CleanTakeoverDecides(k, me, s0, msgs, frame);
  }

  /** Rosters, and which indexes have a decoder, do not depend on what the decoders do. */
  lemma {:induction false} SameRoster<D, F>(k: Opus<D>, h: Opus<F>, me: string, s0: State<D>, t0: State<F>, msgs: seq<Message>)
    requires s0.peers.Wf() && s0.peers == t0.peers && s0.decoders == map[] && t0.decoders == map[]
    ensures Run(k, me, s0, msgs).0.peers == Run(h, me, t0, msgs).0.peers
    ensures forall i :: i in Run(k, me, s0, msgs).0.decoders <==> i in Run(h, me, t0, msgs).0.decoders
    decreases |msgs|
  {
    if msgs != [] {
      var before, msg := msgs[..|msgs| - 1], msgs[|msgs| - 1];
      SameRoster(k, h, me, s0, t0, before);
      var s, t := Run(k, me, s0, before).0, Run(h, me, t0, before).0;
      forall i: Byte ensures i in MessageStep(k, me, s, msg).0.decoders <==> i in MessageStep(h, me, t, msg).0.decoders {
        DecoderStep(k, me, s, msg, i);
        DecoderStep(h, me, t, msg, i);
      }
    }
  }

  /** So neither does the condition, nor what counts as an owner's own payloads. */
  lemma {:induction false} SameTakeover<D, F>(k: Opus<D>, h: Opus<F>, me: string, s0: State<D>, t0: State<F>, msgs: seq<Message>, i: Byte)
    requires s0.peers.Wf() && s0.peers == t0.peers && s0.decoders == map[] && t0.decoders == map[]
    ensures CleanTakeover(k, me, s0, msgs, i) <==> CleanTakeover(h, me, t0, msgs, i)
    ensures Tenure(k, me, s0, msgs, i) == Tenure(h, me, t0, msgs, i)
    decreases |msgs|
  {
    SameRoster(k, h, me, s0, t0, msgs);
    if msgs != [] {
      SameRoster(k, h, me, s0, t0, msgs[..|msgs| - 1]);
      SameTakeover(k, h, me, s0, t0, msgs[..|msgs| - 1], i);
    }
  }

  // -------------------------------------------------- why the discipline is needed

  /** A decoder whose output shows how many packets it has been given. */
  function Counting(): Opus<seq<seq<Byte>>> {
    Opus([], (given, p) => (given + [p], Some(seq(|given| + 1, _ => 0))))
  }

  lemma CountingStep(given: seq<seq<Byte>>, p: seq<Byte>)
    ensures Counting().step(given, p).0 == given + [p]
  {
  }

  lemma {:induction false} CountingCounts(payloads: seq<seq<Byte>>)
    ensures Decoded(Counting(), payloads) == payloads
    decreases |payloads|
  {
    if payloads != [] {
      var init, last := payloads[..|payloads| - 1], payloads[|payloads| - 1];
      CountingCounts(init);
      CountingStep(init, last);
      assert Decoded(Counting(), payloads) == Counting().step(init, last).0;
      assert payloads == init + [last];
    }
  }

  function PcmAfter(history: seq<seq<Byte>>, payload: seq<Byte>): seq<Byte> {
    SamplesToPcm(Counting().step(Decoded(Counting(), history), payload).1.value)
  }

  /** With a decoder that shows its history the condition is also necessary. */
  lemma CountingShowsTakeover(me: string, s0: State<seq<seq<Byte>>>, msgs: seq<Message>, frame: seq<Byte>)
    requires s0.peers.Wf() && s0.decoders == map[] && |frame| > 1 + HEADER_LEN
    requires Owner(Run(Counting(), me, s0, msgs).0, ParseInbound(frame).value.peer).Some?
    requires OwnAudio(Counting(), me, s0, msgs, frame)
    ensures CleanTakeover(Counting(), me, s0, msgs, ParseInbound(frame).value.peer)
  {
    var k, f := Counting(), ParseInbound(frame).value;
    AudioFromHistory(k, me, s0, msgs, frame);
    HeardIsInheritedThenOwn(k, me, s0, msgs, f.peer);
    InheritedIff(k, me, s0, msgs, f.peer);
    LengthTells(Heard(k, me, s0, msgs, f.peer), f.payload);
    LengthTells(Tenure(k, me, s0, msgs, f.peer), f.payload);
  }

  /**
    The exact condition, on any traffic: if the index had no decoder when its
    owner took it, every decoder gives that owner's PCM from its own packets; if it
    had one, there is a decoder that does not.
  */
  lemma OwnAudioIffCleanTakeover<D>(k: Opus<D>, me: string, s0: State<D>, msgs: seq<Message>, frame: seq<Byte>)
    requires s0.peers.Wf() && s0.decoders == map[] && |frame| > 1 + HEADER_LEN
    requires Owner(Run(k, me, s0, msgs).0, ParseInbound(frame).value.peer).Some?
    ensures var i := ParseInbound(frame).value.peer;
            && (CleanTakeover(k, me, s0, msgs, i) ==> OwnAudio(k, me, s0, msgs, frame))
            && (CleanTakeover(k, me, s0, msgs, i) <==> OwnAudio(Counting(), me, State(s0.peers, map[]), msgs, frame))
  {
    var i := ParseInbound(frame).value.peer;
    var t0 := State(s0.peers, map[]);
    SameRoster(k, Counting(), me, s0, t0, msgs);
    SameTakeover(k, Counting(), me, s0, t0, msgs, i);
    if CleanTakeover(k, me, s0, msgs, i) {
      CleanTakeoverDecides(k, me, s0, msgs, frame);
      CleanTakeoverDecides(Counting(), me, t0, msgs, frame);
    }
    if OwnAudio(Counting(), me, t0, msgs, frame) {
      CountingShowsTakeover(me, t0, msgs, frame);
    }
  }

  lemma LengthTells(history: seq<seq<Byte>>, payload: seq<Byte>)
    ensures |PcmAfter(history, payload)| == 2 * (|history| + 1)
  {
    CountingCounts(history);
  }

  /** A roster snapshot that gives a live index to someone else resets nothing: the newcomer inherits. */
  lemma SnapshotSwapInherits<D>(k: Opus<D>, me: string, a: string, b: string, frame: seq<Byte>)
    requires |frame| > 1 + HEADER_LEN && a != b
    ensures var f := ParseInbound(frame).value;
            var s0 := State(EMPTY.Put(f.peer, a), map[]);
            var msgs := [Binary(frame), Text(Roster([PeerEntry(Some(f.peer), Some(b))]))];
            s0.peers.Wf() && Owner(Run(k, me, s0, msgs).0, f.peer) == Some(b)
            && Inherited(k, me, s0, msgs, f.peer) == [f.payload]
  {
    ParseRebuild(frame);
    SwapInherits(k, me, Binary(frame), ParseInbound(frame).value.peer, a, b);
  }

  lemma SwapInherits<D>(k: Opus<D>, me: string, m1: Message, i: Byte, a: string, b: string)
    requires m1.Binary? && PayloadFor(m1, i).Some? && a != b
    ensures var s0 := State(EMPTY.Put(i, a), map[]);
            var msgs := [m1, Text(Roster([PeerEntry(Some(i), Some(b))]))];
            s0.peers.Wf() && Owner(Run(k, me, s0, msgs).0, i) == Some(b)
            && Inherited(k, me, s0, msgs, i) == [PayloadFor(m1, i).value]
  {
    var entries := [PeerEntry(Some(i), Some(b))];
    PutWf(EMPTY, i, a);
    OneEntry(i, b);
    Two(k, me, State(EMPTY.Put(i, a), map[]), m1, Text(Roster(entries)), i);
  }

  lemma OneEntry(i: Byte, b: string)
    ensures ParsePeers([PeerEntry(Some(i), Some(b))]) == EMPTY.Put(i, b)
  {
    assert [PeerEntry(Some(i), Some(b))][..0] == [];
  }

  /** A frame still under way when its sender leaves brings the decoder back: the next owner inherits. */
  lemma StrayFrameInherits<D>(k: Opus<D>, me: string, b: string, frame: seq<Byte>)
    requires |frame| > 1 + HEADER_LEN
    ensures var f := ParseInbound(frame).value;
            var s0 := State(EMPTY, map[]);
            var msgs := [Binary(frame), Text(Joined(Some(b), Some(f.peer)))];
            Owner(Run(k, me, s0, msgs).0, f.peer) == Some(b) && Inherited(k, me, s0, msgs, f.peer) == [f.payload]
  {
    var f := ParseInbound(frame).value;
    ParseRebuild(frame);
    Two(k, me, State(EMPTY, map[]), Binary(frame), Text(Joined(Some(b), Some(f.peer))), f.peer);
  }

  /** The histories after two messages, unrolled. */
  lemma Two<D>(k: Opus<D>, me: string, s0: State<D>, m1: Message, m2: Message, i: Byte)
    requires s0.peers.Wf() && m1.Binary? && m2.Text? && PayloadFor(m1, i).Some?
    ensures var s1 := MessageStep(k, me, s0, m1).0;
            var s2 := MessageStep(k, me, s1, m2).0;
            && Run(k, me, s0, [m1, m2]).0 == s2
            && (Owner(s2, i) != Owner(s0, i) && !Resets(me, s0.peers.at, m2, i) ==>
                  Inherited(k, me, s0, [m1, m2], i) == [PayloadFor(m1, i).value])
  {
    assert [m1, m2][..1] == [m1] && [m1][..0] == [];
    assert Run(k, me, s0, []).0 == s0;
    assert Run(k, me, s0, [m1]).0 == MessageStep(k, me, s0, m1).0;
    assert Heard(k, me, s0, [m1], i) == [PayloadFor(m1, i).value];
    assert Run(k, me, s0, [m1]).0.peers == s0.peers;
  }
}
