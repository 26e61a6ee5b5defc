/** What each control message does to the roster, and exactly which events it gives, in which order. */
module RosterEvents {

  import opened Wrappers
  import opened Wire
  import opened Sequences
  import opened Inbound

  // ---------------------------------------------------------------- the roster

  /** Taking a key out of a list leaves the others where they stood. */
  lemma {:induction false} WithoutCuts(a: seq<Byte>, b: seq<Byte>, key: Byte)
    requires key !in a && key !in b
    ensures Without(a + b, key) == a + b
    ensures Without(a + [key] + b, key) == a + b
    decreases |b|
  {
    if b == [] {
      assert a + b == a;
      NothingToCut(a, key);
      assert (a + [key] + b)[..|a|] == a;
      assert a + [key] + b == a + [key];
    } else {
      var init, last := b[..|b| - 1], b[|b| - 1];
      assert (a + b)[..|a + b| - 1] == a + init;
      assert (a + [key] + b)[..|a + [key] + b| - 1] == a + [key] + init;
      assert a + init + [last] == a + b;
      WithoutCuts(a, init, key);
    }
  }

  lemma {:induction false} NothingToCut(a: seq<Byte>, key: Byte)
    requires key !in a
    ensures Without(a, key) == a
    decreases |a|
  {
    if a != [] {
      NothingToCut(a[..|a| - 1], key);
      assert a[..|a| - 1] + [a[|a| - 1]] == a;
    }
  }

  /** A new index goes to the end of the roster, a known one keeps its place, one that leaves is cut out. */
  lemma OrderAfter(d: Dict, key: Byte, value: string)
    requires d.Wf()
    ensures d.Put(key, value).order == if key in d.at then d.order else d.order + [key]
    ensures key !in d.at ==> d.Pop(key).order == d.order
    ensures forall n :: 0 <= n < |d.order| && d.order[n] == key ==> d.Pop(key).order == d.order[..n] + d.order[n + 1..]
  {
    if key !in d.at {
      NothingToCut(d.order, key);
    }
    forall n | 0 <= n < |d.order| && d.order[n] == key
      ensures d.Pop(key).order == d.order[..n] + d.order[n + 1..]
    {
      assert d.order == d.order[..n] + [key] + d.order[n + 1..];
      WithoutCuts(d.order[..n], d.order[n + 1..], key);
    }
  }

  /** Who holds index `i` after a message: the newcomer, nobody, the snapshot's last word, or whoever did before. */
  lemma RosterAfter<D>(me: string, s: State<D>, msg: Control, i: Byte)
    requires s.peers.Wf()
    ensures var after := Lookup(ControlStep(me, s, msg).0.peers.at, i);
            match msg
            case Joined(Some(pubkey), Some(index)) => after == if i == index then Some(pubkey) else Lookup(s.peers.at, i)
            case Left(Some(_), Some(index)) => after == if i == index then None else Lookup(s.peers.at, i)
            case Roster(entries) =>
              && (after.Some? <==> exists n :: 0 <= n < |entries| && IsFor(entries[n], i))
              && forall n: nat :: LastFor(entries, i, n) ==> after == entries[n].pubkey
            case _ => after == Lookup(s.peers.at, i)
  {
    match msg
    case Roster(entries) => PeersMean(entries, i);
    case _ =>
  }

  // ---------------------------------------------------------------- the events

  /** A well-typed message about one peer gives one event with its own key and index, none for our own join. */
  lemma OneEvent<D>(me: string, s: State<D>, msg: Control)
    requires s.peers.Wf() && !msg.Roster?
    ensures var events := ControlStep(me, s, msg).1;
            match msg
            case Joined(Some(pubkey), Some(index)) => events == if pubkey == me then [] else [PeerJoined(pubkey, index)]
            case Left(Some(pubkey), Some(index)) => events == [PeerLeft(pubkey, index)]
            case _ => events == []
  {
  }

  /** The events stand in the order of their indexes in `order`. */
  ghost predicate Follows(events: seq<Event>, order: seq<Byte>) {
    exists at: seq<nat> :: FollowsAt(events, order, at)
  }

  ghost predicate FollowsAt(events: seq<Event>, order: seq<Byte>, at: seq<nat>) {
    && |at| == |events| && Increasing(at) && Below(at, |order|)
    && forall n :: 0 <= n < |events| ==> !events[n].Audio? && order[at[n]] == events[n].index
  }

  lemma FollowsMore(events: seq<Event>, order: seq<Byte>, x: Byte, more: seq<Event>)
    requires Follows(events, order)
    requires more == [] || (|more| == 1 && !more[0].Audio? && more[0].index == x)
    ensures Follows(events + more, order + [x])
  {
    var at: seq<nat> :| FollowsAt(events, order, at);
    if more == [] {
      assert events + more == events;
      assert FollowsAt(events, order + [x], at);
    } else {
      assert FollowsAt(events + more, order + [x], at + [|order|]);
    }
  }

  /** No event is given twice. */
  lemma FollowsOnce(events: seq<Event>, order: seq<Byte>)
    requires Follows(events, order) && Distinct(order)
    ensures Distinct(events)
  {
    var at: seq<nat> :| FollowsAt(events, order, at);
    forall n, m | 0 <= n < m < |events| ensures events[n] != events[m] {
      assert at[n] < at[m] < |order|;
    }
  }

  lemma {:induction false} LeaversAre(me: string, peers: map<Byte, string>, snap: map<Byte, string>, order: seq<Byte>)
    requires forall x :: x in order ==> x in peers
    ensures var events := LeftEvents(me, peers, snap, order);
            && Follows(events, order)
            && (forall n :: 0 <= n < |events| ==> events[n].PeerLeft?)
            && forall i: Byte, pk: string ::
                 PeerLeft(pk, i) in events <==> i in order && peers[i] == pk && i !in snap && pk != me
    decreases |order|
  {
    if order == [] {
      assert FollowsAt([], [], []);
    } else {
      var init, j := order[..|order| - 1], order[|order| - 1];
      assert order == init + [j];
      LeaversAre(me, peers, snap, init);
      FollowsMore(LeftEvents(me, peers, snap, init), init, j,
                  if j !in snap && peers[j] != me then [PeerLeft(peers[j], j)] else []);
    }
  }

  lemma {:induction false} JoinersAre(me: string, peers: map<Byte, string>, snap: map<Byte, string>, order: seq<Byte>)
    requires forall x :: x in order ==> x in snap
    ensures var events := JoinedEvents(me, peers, snap, order);
            && Follows(events, order)
            && (forall n :: 0 <= n < |events| ==> events[n].PeerJoined?)
            && forall i: Byte, pk: string ::
                 PeerJoined(pk, i) in events <==> i in order && snap[i] == pk && i !in peers && pk != me
    decreases |order|
  {
    if order == [] {
      assert FollowsAt([], [], []);
    } else {
      var init, j := order[..|order| - 1], order[|order| - 1];
      assert order == init + [j];
      JoinersAre(me, peers, snap, init);
      FollowsMore(JoinedEvents(me, peers, snap, init), init, j,
                  if j !in peers && snap[j] != me then [PeerJoined(snap[j], j)] else []);
    }
  }

  /**
    A snapshot's events: first the leavers, under the key they had, in the order of
    the old roster; then the joiners, under the key they have, in the order of the
    snapshot. A leaver is an index of the old roster that the snapshot does not have,
    a joiner one that only the snapshot has, in both cases not under our own key. Each
    is announced once.
  */
  lemma SnapshotEvents<D>(me: string, s: State<D>, entries: seq<PeerEntry>) returns (left: seq<Event>, joined: seq<Event>)
    requires s.peers.Wf()
    ensures var (s1, events) := ControlStep(me, s, Roster(entries));
            && events == left + joined
            && (forall n :: 0 <= n < |left| ==> left[n].PeerLeft?) && Follows(left, s.peers.order)
            && (forall n :: 0 <= n < |joined| ==> joined[n].PeerJoined?) && Follows(joined, s1.peers.order)
            && Distinct(left) && Distinct(joined)
            && (forall i: Byte, pk: string ::
                  PeerLeft(pk, i) in left <==> Lookup(s.peers.at, i) == Some(pk) && i !in s1.peers.at && pk != me)
            && (forall i: Byte, pk: string ::
                  PeerJoined(pk, i) in joined <==> Lookup(s1.peers.at, i) == Some(pk) && i !in s.peers.at && pk != me)
  {
    var snap := ParsePeers(entries);
    ParsePeersWf(entries);
    left := LeftEvents(me, s.peers.at, snap.at, s.peers.order);
    joined := JoinedEvents(me, s.peers.at, snap.at, snap.order);
    LeaversAre(me, s.peers.at, snap.at, s.peers.order);
    JoinersAre(me, s.peers.at, snap.at, snap.order);
    FollowsOnce(left, s.peers.order);
    FollowsOnce(joined, snap.order);
  }
}
