/**
  Rebuilding the roster from the events alone: a listener that starts from the
  initial roster and applies PeerJoined and PeerLeft by index.
*/
module RosterReplay {

  import opened Wrappers
  import opened Wire
  import opened Inbound

  /** The roster without the client's own entries. */
  function Others(me: string, peers: map<Byte, string>): map<Byte, string> {
    map i | i in peers && peers[i] != me :: peers[i]
  }

  function Apply(view: map<Byte, string>, e: Event): map<Byte, string> {
    match e
    case PeerJoined(pubkey, index) => view[index := pubkey]
    case PeerLeft(_, index) => view - {index}
    case Audio(_, _, _, _, _, _, _) => view
  }

  function Replay(view: map<Byte, string>, events: seq<Event>): map<Byte, string> {
    if events == [] then view
    else Apply(Replay(view, events[..|events| - 1]), events[|events| - 1])
  }

  lemma ReplayPush(view: map<Byte, string>, events: seq<Event>, e: Event)
    ensures Replay(view, events + [e]) == Apply(Replay(view, events), e)
  {
    assert (events + [e])[..|events|] == events;
  }

  lemma {:induction false} ReplayConcat(view: map<Byte, string>, a: seq<Event>, b: seq<Event>)
    ensures Replay(view, a + b) == Replay(Replay(view, a), b)
    decreases |b|
  {
    if b == [] {
      assert a + b == a;
    } else {
      assert (a + b)[..|a + b| - 1] == a + b[..|b| - 1];
      ReplayConcat(view, a, b[..|b| - 1]);
    }
  }

  /**
    The messages whose effect the events do not show: our own join onto an index
    someone else holds, and a snapshot that gives an index to someone else.
  */
  predicate SilentSwap(me: string, peers: map<Byte, string>, msg: Message) {
    match msg
    case Text(Joined(Some(pubkey), Some(index))) => pubkey == me && index in peers && peers[index] != me
    case Text(Roster(entries)) =>
      var snap := ParsePeers(entries).at;
      exists i :: i in peers && i in snap && peers[i] != snap[i]
    case _ => false
  }

  lemma {:induction false} ReplayLefts(me: string, peers: map<Byte, string>, snap: map<Byte, string>, order: seq<Byte>,
                                       view: map<Byte, string>, i: Byte)
    requires forall x :: x in order ==> x in peers
    ensures Lookup(Replay(view, LeftEvents(me, peers, snap, order)), i)
            == if i in order && i !in snap && peers[i] != me then None else Lookup(view, i)
    decreases |order|
  {
    if order != [] {
      var init, j := order[..|order| - 1], order[|order| - 1];
      assert order == init + [j];
      ReplayLefts(me, peers, snap, init, view, i);
      if j !in snap && peers[j] != me {
        ReplayPush(view, LeftEvents(me, peers, snap, init), PeerLeft(peers[j], j));
      } else {
        assert LeftEvents(me, peers, snap, order) == LeftEvents(me, peers, snap, init);
      }
    }
  }

  lemma {:induction false} ReplayJoins(me: string, peers: map<Byte, string>, snap: map<Byte, string>, order: seq<Byte>,
                                       view: map<Byte, string>, i: Byte)
    requires forall x :: x in order ==> x in snap
    ensures Lookup(Replay(view, JoinedEvents(me, peers, snap, order)), i)
            == if i in order && i !in peers && snap[i] != me then Some(snap[i]) else Lookup(view, i)
    decreases |order|
  {
    if order != [] {
      var init, j := order[..|order| - 1], order[|order| - 1];
      assert order == init + [j];
      ReplayJoins(me, peers, snap, init, view, i);
      if j !in peers && snap[j] != me {
        ReplayPush(view, JoinedEvents(me, peers, snap, init), PeerJoined(snap[j], j));
      } else {
        assert JoinedEvents(me, peers, snap, order) == JoinedEvents(me, peers, snap, init);
      }
    }
  }

  ghost predicate SameView(a: map<Byte, string>, b: map<Byte, string>) {
    forall i: Byte :: Lookup(a, i) == Lookup(b, i)
  }

  lemma SameViewIsEqual(a: map<Byte, string>, b: map<Byte, string>)
    ensures SameView(a, b) <==> a == b
  {
    if SameView(a, b) {
      forall i: Byte ensures i in a <==> i in b {
        assert Lookup(a, i) == Lookup(b, i);
      }
      forall i: Byte | i in a ensures a[i] == b[i] {
        assert Lookup(a, i) == Lookup(b, i);
      }
    }
  }

  lemma RosterReplays<D>(me: string, s: State<D>, entries: seq<PeerEntry>)
    requires s.peers.Wf()
    ensures var (s1, events) := ControlStep(me, s, Roster(entries));
            Replay(Others(me, s.peers.at), events) == Others(me, s1.peers.at)
            <==> !SilentSwap(me, s.peers.at, Text(Roster(entries)))
  {
    var snap := ParsePeers(entries);
    ParsePeersWf(entries);
    var peers, view := s.peers.at, Others(me, s.peers.at);
    var left, joined := LeftEvents(me, peers, snap.at, s.peers.order), JoinedEvents(me, peers, snap.at, snap.order);
    ReplayConcat(view, left, joined);
    var end, now := Replay(view, left + joined), Others(me, snap.at);
    forall i: Byte ensures Lookup(end, i) == Lookup(now, i) <==> !(i in peers && i in snap.at && peers[i] != snap.at[i]) {
      ReplayLefts(me, peers, snap.at, s.peers.order, view, i);
      ReplayJoins(me, peers, snap.at, snap.order, Replay(view, left), i);
    }
    SameViewIsEqual(end, now);
  }

  /** One message is shown completely by its events if and only if it makes no silent swap. */
  lemma MessageReplays<D>(k: Opus<D>, me: string, s: State<D>, msg: Message)
    requires s.peers.Wf()
    ensures var (s1, events) := MessageStep(k, me, s, msg);
            Replay(Others(me, s.peers.at), events) == Others(me, s1.peers.at) <==> !SilentSwap(me, s.peers.at, msg)
  {
    var (s1, events) := MessageStep(k, me, s, msg);
    match msg
    case Binary(frame) =>
      assert events != [] ==> events[..0] == [];
    case Text(Joined(Some(pubkey), Some(index))) =>
      JoinReplays(me, s, pubkey, index);
    case Text(Left(Some(pubkey), Some(index))) =>
      assert [PeerLeft(pubkey, index)][..0] == [];
      assert Others(me, s.peers.at) - {index} == Others(me, s1.peers.at);
    case Text(Roster(entries)) =>
      RosterReplays(me, s, entries);
    case _ =>
  }

  lemma JoinReplays<D>(me: string, s: State<D>, pubkey: string, index: Byte)
    requires s.peers.Wf()
    ensures var (s1, events) := ControlStep(me, s, Joined(Some(pubkey), Some(index)));
            Replay(Others(me, s.peers.at), events) == Others(me, s1.peers.at)
            <==> !(pubkey == me && index in s.peers.at && s.peers.at[index] != me)
  {
    var view, peers' := Others(me, s.peers.at), s.peers.at[index := pubkey];
    if pubkey != me {
      assert [PeerJoined(pubkey, index)][..0] == [];
      assert Others(me, peers') == view[index := pubkey];
    } else {
      assert Others(me, peers') == view - {index};
      if index in view {
        assert index !in Others(me, peers');
      } else {
        assert view - {index} == view;
      }
    }
  }

  ghost predicate NoSilentSwap<D>(k: Opus<D>, me: string, s0: State<D>, msgs: seq<Message>)
    requires s0.peers.Wf()
    decreases |msgs|
  {
    msgs == [] ||
    (NoSilentSwap(k, me, s0, msgs[..|msgs| - 1])
     && !SilentSwap(me, Run(k, me, s0, msgs[..|msgs| - 1]).0.peers.at, msgs[|msgs| - 1]))
  }

  /** Over a whole connection without silent swaps the events rebuild the roster. */
  lemma {:induction false} EventsRebuildRoster<D>(k: Opus<D>, me: string, s0: State<D>, msgs: seq<Message>)
    requires s0.peers.Wf() && NoSilentSwap(k, me, s0, msgs)
    ensures var (s, events) := Run(k, me, s0, msgs);
            Replay(Others(me, s0.peers.at), events) == Others(me, s.peers.at)
    decreases |msgs|
  {
    if msgs != [] {
      var before := msgs[..|msgs| - 1];
      EventsRebuildRoster(k, me, s0, before);
      var (s1, events) := Run(k, me, s0, before);
      MessageReplays(k, me, s1, msgs[|msgs| - 1]);
      ReplayConcat(Others(me, s0.peers.at), events, MessageStep(k, me, s1, msgs[|msgs| - 1]).1);
    }
  }

  lemma {:induction false} NothingNew(me: string, peers: map<Byte, string>, order: seq<Byte>)
    requires forall x :: x in order ==> x in peers
    ensures LeftEvents(me, peers, peers, order) == [] && JoinedEvents(me, peers, peers, order) == []
    decreases |order|
  {
    if order != [] {
      NothingNew(me, peers, order[..|order| - 1]);
    }
  }

  /** The same snapshot twice: the second one says nothing and changes nothing. */
  lemma SnapshotTwice<D>(me: string, s: State<D>, entries: seq<PeerEntry>)
    requires s.peers.Wf()
    ensures var s1 := ControlStep(me, s, Roster(entries)).0;
            s1.peers.Wf() && ControlStep(me, s1, Roster(entries)) == (s1, [])
  {
    var s1 := ControlStep(me, s, Roster(entries)).0;
    ParsePeersWf(entries);
    NothingNew(me, s1.peers.at, s1.peers.order);
  }
}
