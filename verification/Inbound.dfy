/**
  The receiving half of a huddle connection: one stateful Opus decoder per peer
  index, and the roster kept from the relay's control messages.
*/
module Inbound {

  import opened Wrappers
  import opened Wire
  import opened Sequences

  /** A dictionary with Python's iteration order: first insertion first. */
  datatype Dict = Dict(order: seq<Byte>, at: map<Byte, string>) {
    ghost predicate Wf() {
      && (forall i :: 0 <= i < |order| ==> order[i] in at)
      && (forall x :: x in at ==> x in order)
      && Distinct(order)
    }

    function Put(key: Byte, value: string): Dict {
      Dict(if key in at then order else order + [key], at[key := value])
    }

    function Pop(key: Byte): Dict {
      Dict(Without(order, key), at - {key})
    }
  }

  function Without(s: seq<Byte>, key: Byte): seq<Byte> {
    if s == [] then []
    else Without(s[..|s| - 1], key) + if s[|s| - 1] == key then [] else [s[|s| - 1]]
  }

  lemma {:induction false} WithoutHolds(s: seq<Byte>, key: Byte)
    requires Distinct(s)
    ensures Distinct(Without(s, key))
    ensures forall x :: x in Without(s, key) <==> x in s && x != key
    decreases |s|
  {
    if s != [] {
      var init, last := s[..|s| - 1], s[|s| - 1];
      assert s == init + [last] && last !in init;
      WithoutHolds(init, key);
      if last != key {
        DistinctPush(Without(init, key), last);
      }
    }
  }

  lemma PutWf(d: Dict, key: Byte, value: string)
    requires d.Wf()
    ensures d.Put(key, value).Wf()
  {
    var order := d.Put(key, value).order;
    if key !in d.at {
      DistinctPush(d.order, key);
      assert forall x :: x in order <==> x in d.order || x == key;
      assert forall i :: 0 <= i < |order| ==> order[i] in order;
    }
  }

  lemma PopWf(d: Dict, key: Byte)
    requires d.Wf()
    ensures d.Pop(key).Wf()
  {
    WithoutHolds(d.order, key);
    var order := d.Pop(key).order;
    assert forall i :: 0 <= i < |order| ==> order[i] in order;
  }

  // ------------------------------------------------------- messages and events

  /** A field that is missing or of the wrong JSON type is None. */
  datatype PeerEntry = PeerEntry(index: Option<Byte>, pubkey: Option<string>)

  datatype Control =
    | Joined(pubkey: Option<string>, index: Option<Byte>)
    | Left(pubkey: Option<string>, index: Option<Byte>)
    | Roster(peers: seq<PeerEntry>)
    | Other

  datatype Message = Binary(frame: seq<Byte>) | Text(control: Control)

  datatype Event =
    | PeerJoined(pubkey: string, index: Byte)
    | PeerLeft(pubkey: string, index: Byte)
    | Audio(index: Byte, owner: Option<string>, pcm: seq<Byte>, seqNo: U16, ts: U32, level: Level, isDtx: bool)

  /** An Opus decoder: a packet gives samples or an error, and moves the state either way. */
  datatype Opus<!D> = Opus(init: D, step: (D, seq<Byte>) -> (D, Option<seq<Sample>>))

  datatype State<D> = State(peers: Dict, decoders: map<Byte, D>)

  const EMPTY := Dict([], map[])

  function Lookup<V>(m: map<Byte, V>, key: Byte): Option<V> {
    if key in m then Some(m[key]) else None
  }

  // --------------------------------------------------------------- the steps

  function AudioStep<D>(k: Opus<D>, s: State<D>, frame: seq<Byte>): (State<D>, Option<Event>) {
    match ParseInbound(frame)
    case Failure(_) => (s, None)
    case Success(f) =>
      var (d, samples) := k.step(if f.peer in s.decoders then s.decoders[f.peer] else k.init, f.payload);
      (s.(decoders := s.decoders[f.peer := d]),
       if samples.None? then None
       else Some(Audio(f.peer, Lookup(s.peers.at, f.peer), SamplesToPcm(samples.value), f.seqNo, f.ts, f.level, f.flags % 2 == 1)))
  }

  function ParsePeers(entries: seq<PeerEntry>): Dict {
    if entries == [] then EMPTY
    else
      var d := ParsePeers(entries[..|entries| - 1]);
      var e := entries[|entries| - 1];
      if e.index.Some? && e.pubkey.Some? then d.Put(e.index.value, e.pubkey.value) else d
  }

  /** PeerLeft for every listed index that is gone from the snapshot, except our own. */
  function LeftEvents(me: string, peers: map<Byte, string>, snap: map<Byte, string>, order: seq<Byte>): seq<Event>
    requires forall x :: x in order ==> x in peers
  {
    if order == [] then []
    else
      var i := order[|order| - 1];
      LeftEvents(me, peers, snap, order[..|order| - 1])
      + if i !in snap && peers[i] != me then [PeerLeft(peers[i], i)] else []
  }

  /** PeerJoined for every listed index that is new in the snapshot, except our own. */
  function JoinedEvents(me: string, peers: map<Byte, string>, snap: map<Byte, string>, order: seq<Byte>): seq<Event>
    requires forall x :: x in order ==> x in snap
  {
    if order == [] then []
    else
      var i := order[|order| - 1];
      JoinedEvents(me, peers, snap, order[..|order| - 1])
      + if i !in peers && snap[i] != me then [PeerJoined(snap[i], i)] else []
  }

  function Forget<D>(decoders: map<Byte, D>, events: seq<Event>): map<Byte, D> {
    if events == [] then decoders
    else
      var e := events[|events| - 1];
      var d := Forget(decoders, events[..|events| - 1]);
      if e.PeerLeft? then d - {e.index} else d
  }

  function ControlStep<D>(me: string, s: State<D>, msg: Control): (State<D>, seq<Event>)
    requires s.peers.Wf()
  {
    match msg
    case Joined(Some(pubkey), Some(index)) =>
      (s.(peers := s.peers.Put(index, pubkey)), if pubkey == me then [] else [PeerJoined(pubkey, index)])
    case Left(Some(pubkey), Some(index)) =>
      (State(s.peers.Pop(index), s.decoders - {index}), [PeerLeft(pubkey, index)])
    case Roster(entries) =>
      var snap := ParsePeers(entries);
      ParsePeersWf(entries);
      var left := LeftEvents(me, s.peers.at, snap.at, s.peers.order);
      var joined := JoinedEvents(me, s.peers.at, snap.at, snap.order);
      (State(snap, Forget(s.decoders, left + joined)), left + joined)
    case _ => (s, [])
  }

  lemma {:induction false} ParsePeersWf(entries: seq<PeerEntry>)
    ensures ParsePeers(entries).Wf()
    decreases |entries|
  {
    if entries != [] {
      ParsePeersWf(entries[..|entries| - 1]);
      var e := entries[|entries| - 1];
      if e.index.Some? && e.pubkey.Some? {
        PutWf(ParsePeers(entries[..|entries| - 1]), e.index.value, e.pubkey.value);
      }
    }
  }

  /** A well-typed entry for index `i`. */
  predicate IsFor(e: PeerEntry, i: Byte) {
    e.index == Some(i) && e.pubkey.Some?
  }

  /** Entry `n` is the last one for index `i`. */
  predicate LastFor(entries: seq<PeerEntry>, i: Byte, n: nat) {
    n < |entries| && IsFor(entries[n], i) && forall m :: n < m < |entries| ==> !IsFor(entries[m], i)
  }

  /** An index is listed iff a well-typed entry has it, and the last such entry gives the key. */
  lemma {:induction false} PeersMean(entries: seq<PeerEntry>, i: Byte)
    ensures i in ParsePeers(entries).at <==> exists n :: 0 <= n < |entries| && IsFor(entries[n], i)
    ensures i in ParsePeers(entries).at ==> exists n: nat :: LastFor(entries, i, n)
    ensures forall n: nat :: LastFor(entries, i, n) ==> Lookup(ParsePeers(entries).at, i) == entries[n].pubkey
    decreases |entries|
  {
    if entries != [] {
      var init, last := entries[..|entries| - 1], |entries| - 1;
      PeersMean(init, i);
      if IsFor(entries[last], i) {
        assert LastFor(entries, i, last);
      } else {
        assert forall n: nat :: LastFor(entries, i, n) <==> LastFor(init, i, n);
        assert (exists n :: 0 <= n < |entries| && IsFor(entries[n], i)) ==> exists n :: 0 <= n < |init| && IsFor(init[n], i);
      }
    }
  }

  /** Indexes are listed in the order of their first mention: further entries only add at the end. */
  lemma {:induction false} PeersInOrder(entries: seq<PeerEntry>, n: nat)
    requires n <= |entries|
    ensures ParsePeers(entries[..n]).order <= ParsePeers(entries).order
    decreases |entries|
  {
    if n == |entries| {
      assert entries[..n] == entries;
    } else {
      var init := entries[..|entries| - 1];
      assert init[..n] == entries[..n];
      PeersInOrder(init, n);
    }
  }

  lemma ControlKeepsWf<D>(me: string, s: State<D>, msg: Control)
    requires s.peers.Wf()
    ensures ControlStep(me, s, msg).0.peers.Wf()
  {
    match msg
    case Joined(Some(pubkey), Some(index)) => PutWf(s.peers, index, pubkey);
    case Left(Some(pubkey), Some(index)) => PopWf(s.peers, index);
    case Roster(entries) => ParsePeersWf(entries);
    case _ =>
  }

  function MessageStep<D>(k: Opus<D>, me: string, s: State<D>, msg: Message): (r: (State<D>, seq<Event>))
    requires s.peers.Wf()
    ensures r.0.peers.Wf()
  {
    match msg
    case Binary(frame) =>
      var (s1, event) := AudioStep(k, s, frame);
      (s1, if event.Some? then [event.value] else [])
    case Text(control) =>
      ControlKeepsWf(me, s, control);
      ControlStep(me, s, control)
  }

  function Run<D>(k: Opus<D>, me: string, s: State<D>, msgs: seq<Message>): (r: (State<D>, seq<Event>))
    requires s.peers.Wf()
    ensures r.0.peers.Wf()
  {
    if msgs == [] then (s, [])
    else
      var (s1, events) := Run(k, me, s, msgs[..|msgs| - 1]);
      var (s2, more) := MessageStep(k, me, s1, msgs[|msgs| - 1]);
      (s2, events + more)
  }
}
