/** The receiving half of a huddle connection as an object, with the messages it has handled. */
module Receiver {

  import opened Wrappers
  import opened Wire
  import opened Inbound
  import opened PeerStreams
  import opened RosterReplay

  class HuddleReceiver<D> {
    const k: Opus<D>
    const me: string
    var peers: Dict
    var decoders: map<Byte, D>
    ghost var s0: State<D>            // as the connection began
    ghost var msgs: seq<Message>      // handled so far
    ghost var published: seq<Event>   // by them

    ghost function Abs(): State<D>
      reads this
    {
      State(peers, decoders)
    }

    /** The object is where the messages handled so far have brought it. */
    ghost predicate Valid()
      reads this
    {
      && s0.peers.Wf() && s0.decoders == map[]
      && Run(k, me, s0, msgs) == (Abs(), published)
    }

    constructor (k: Opus<D>, me: string, entries: seq<PeerEntry>)
      ensures this.k == k && this.me == me && Valid()
      ensures Abs() == s0 == State(ParsePeers(entries), map[]) && msgs == []
    {
      this.k := k;
      this.me := me;
      decoders := map[];
      peers := EMPTY;
      new;
      peers := ReadPeers(entries);
      ParsePeersWf(entries);
      s0, msgs, published := State(ParsePeers(entries), map[]), [], [];
    }

    static method ReadPeers(entries: seq<PeerEntry>) returns (out: Dict)
      ensures out == ParsePeers(entries)
    {
      out := EMPTY;
      for n := 0 to |entries|
        invariant out == ParsePeers(entries[..n])
      {
        assert entries[..n + 1][..n] == entries[..n];
        var e := entries[n];
        if e.index.Some? && e.pubkey.Some? {
          out := out.Put(e.index.value, e.pubkey.value);
        }
      }
      assert entries[..|entries|] == entries;
    }

    /** One turn of the receive loop. */
    method Handle(msg: Message) returns (events: seq<Event>)
      requires Valid()
      modifies this
      ensures Valid()
      ensures s0 == old(s0) && msgs == old(msgs) + [msg] && published == old(published) + events
    {
      assert (msgs + [msg])[..|msgs|] == msgs;
      match msg {
        case Binary(frame) =>
          var event := OnAudio(frame);
          events := if event.Some? then [event.value] else [];
        case Text(control) =>
          events := OnControl(control);
      }
      msgs, published := msgs + [msg], published + events;
    }

    method OnAudio(frame: seq<Byte>) returns (event: Option<Event>)
      modifies this`decoders
      ensures (Abs(), event) == AudioStep(k, old(Abs()), frame)
    {
      var parsed := ParseInbound(frame);
      if parsed.Failure? {
        return None;
      }
      var f := parsed.value;
      if f.peer !in decoders {
        decoders := decoders[f.peer := k.init];
      }
      var (d, samples) := k.step(decoders[f.peer], f.payload);
      decoders := decoders[f.peer := d];
      assert decoders == old(decoders)[f.peer := d];
      if samples.None? {
        return None;
      }
      event := Some(Audio(f.peer, Lookup(peers.at, f.peer), SamplesToPcm(samples.value), f.seqNo, f.ts, f.level, f.flags % 2 == 1));
    }

    method OnControl(msg: Control) returns (events: seq<Event>)
      requires peers.Wf()
      modifies this`peers, this`decoders
      ensures peers.Wf()
      ensures (Abs(), events) == ControlStep(me, old(Abs()), msg)
    {
      ControlKeepsWf(me, Abs(), msg);
      match msg
      case Joined(Some(pubkey), Some(index)) =>
        peers := peers.Put(index, pubkey);
        events := if pubkey == me then [] else [PeerJoined(pubkey, index)];
      case Left(Some(pubkey), Some(index)) =>
        peers := peers.Pop(index);
        decoders := decoders - {index};
        events := [PeerLeft(pubkey, index)];
      case Roster(entries) =>
        events := Resync(entries);
      case _ =>
        events := [];
    }

    /** An authoritative snapshot replaces the roster. */
    method Resync(entries: seq<PeerEntry>) returns (events: seq<Event>)
      requires peers.Wf()
      modifies this`peers, this`decoders
      ensures (Abs(), events) == ControlStep(me, old(Abs()), Roster(entries))
    {
      var snap := ReadPeers(entries);
      ParsePeersWf(entries);
      events := LeftEvents(me, peers.at, snap.at, peers.order) + JoinedEvents(me, peers.at, snap.at, snap.order);
      ForgetLeft(events);
      peers := snap;
    }

    method ForgetLeft(events: seq<Event>)
      modifies this`decoders
      ensures decoders == Forget(old(decoders), events)
    {
      for n := 0 to |events|
        invariant decoders == Forget(old(decoders), events[..n])
      {
        assert events[..n + 1][..n] == events[..n];
        if events[n].PeerLeft? {
          decoders := decoders - {events[n].index};
        }
      }
      assert events[..|events|] == events;
    }

    /** The next frame of an owned index is heard as its owner's alone, if the owner took it without a decoder. */
    lemma Hears(frame: seq<Byte>)
      requires Valid() && |frame| > 1 + HEADER_LEN
      requires var i := ParseInbound(frame).value.peer;
               i in peers.at && CleanTakeover(k, me, s0, msgs, i)
      ensures OwnAudio(k, me, s0, msgs, frame)
    {
      CleanTakeoverDecides(k, me, s0, msgs, frame);
    }

    /** The events published so far show the roster as it is, if no swap went unannounced. */
    lemma Shows()
      requires Valid() && NoSilentSwap(k, me, s0, msgs)
      ensures Replay(Others(me, s0.peers.at), published) == Others(me, peers.at)
    {
      EventsRebuildRoster(k, me, s0, msgs);
    }
  }
}
