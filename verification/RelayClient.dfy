/**
  The relay client's WebSocket side (NIP-01, "Communication between clients and
  relays"; NIP-42, "Protocol flow"): one reader task fans relay messages out to
  the pending `connect`, to pending publishes and to subscription queues.
*/
module RelayClient {

  import opened Wrappers

  /** A relay message as the read loop sees it. */
  datatype Msg =
    | EventFor(sub: string, payload: string)
    | Ok(id: Option<string>, accepted: bool, message: string)   // None: a JSON null in the id's place
    | Challenge(authId: string)                                 // AUTH; the id of the event built and sent for it
    | Eose(sub: string)
    | ClosedSub(sub: string, reason: string)
    | Unhandled                                                 // undecodable, empty, NOTICE or unknown
    | Broken                                                    // too short or mistyped: handling it raises

  datatype Item = Event(payload: string) | EndOfStored | Closed(reason: string)

  datatype Auth =
    | Pending
    | Accepted
    | Rejected(message: string)
    | ConnectionClosed(code: Option<int>)
    | TimedOut

  datatype Reply = Waiting | Replied(accepted: bool, message: string) | Cancelled

  datatype State = State(
    reading: bool,                     // the reader task is alive
    auth: Auth,                        // the future `connect` waits on
    authEventId: Option<string>,
    subs: map<string, seq<Item>>,
    pendingOk: map<string, nat>,       // event id to the future of its publish
    replies: seq<Reply>,               // the futures made so far
    closeOnEose: map<string, bool>,    // of every iterator ever started
    yielded: map<string, seq<string>>) // by every iterator so far

  datatype Label =
    | Receive(m: Msg)
    | ReaderEnds(code: Option<int>)              // socket closed, or the task was cancelled
    | AuthTimeout
    | Subscribe(sub: string, closeOnEose: bool)
    | Next(sub: string)                          // the iterator takes an item from its queue
    | Abandon(sub: string)                       // its consumer stops iterating
    | Publish(id: string)
    | PublishTimeout(handle: nat)

  function Connected(): State {
    State(true, Pending, None, map[], map[], [], map[], map[])
  }

  predicate Enabled(s: State, l: Label) {
    match l
    case Receive(_) => s.reading
    case ReaderEnds(_) => s.reading
    case AuthTimeout => true
    case Subscribe(sub, _) => sub !in s.subs
    case Next(sub) => sub in s.subs && s.subs[sub] != [] && sub in s.closeOnEose && sub in s.yielded
    case Abandon(sub) => sub in s.subs
    case Publish(_) => true
    case PublishTimeout(h) => h < |s.replies|
  }

  function Settle(s: State, verdict: Auth): State {
    if s.auth.Pending? then s.(auth := verdict) else s
  }

  function PutItem(s: State, sub: string, item: Item): State {
    if sub in s.subs then s.(subs := s.subs[sub := s.subs[sub] + [item]]) else s
  }

  function OkStep(s: State, id: Option<string>, accepted: bool, message: string): State
  {
    if id == s.authEventId then Settle(s, if accepted then Accepted else Rejected(message))
    else if id.Some? && id.value in s.pendingOk then
      var h := s.pendingOk[id.value];
      var popped := s.(pendingOk := s.pendingOk - {id.value});
      if h < |s.replies| && s.replies[h].Waiting? then popped.(replies := s.replies[h := Replied(accepted, message)])
      else popped
    else s
  }

  /** The reader's `finally`: settle the handshake, give every live queue a terminator. */
  function EndStep(s: State, code: Option<int>): State {
    var s1 := Settle(s, ConnectionClosed(code));
    s1.(reading := false, subs := map sub | sub in s.subs :: s.subs[sub] + [Closed("connection lost")])
  }

  function ReceiveStep(s: State, m: Msg): State {
    match m
    case EventFor(sub, payload) => PutItem(s, sub, Event(payload))
    case Ok(id, accepted, message) => OkStep(s, id, accepted, message)
    case Challenge(authId) => s.(authEventId := Some(authId))
    case Eose(sub) => PutItem(s, sub, EndOfStored)
    case ClosedSub(sub, reason) => PutItem(s, sub, Closed(reason))
    case Unhandled => s
    case Broken => EndStep(s, None)
  }

  predicate Ends(item: Item, closeOnEose: bool) {
    item.Closed? || (item.EndOfStored? && closeOnEose)
  }

  function NextStep(s: State, sub: string): State
    requires Enabled(s, Next(sub))
  {
    var item, rest := s.subs[sub][0], s.subs[sub][1..];
    if Ends(item, s.closeOnEose[sub]) then s.(subs := s.subs - {sub})
    else if item.Event? then s.(subs := s.subs[sub := rest], yielded := s.yielded[sub := s.yielded[sub] + [item.payload]])
    else s.(subs := s.subs[sub := rest])
  }

  function Step(s: State, l: Label): State
    requires Enabled(s, l)
  {
    match l
    case Receive(m) => ReceiveStep(s, m)
    case ReaderEnds(code) => EndStep(s, code)
    case AuthTimeout => Settle(s, TimedOut)
    case Subscribe(sub, flag) =>
      s.(subs := s.subs[sub := []], closeOnEose := s.closeOnEose[sub := flag], yielded := s.yielded[sub := []])
    case Next(sub) => NextStep(s, sub)
    case Abandon(sub) => s.(subs := s.subs - {sub})
    case Publish(id) => s.(pendingOk := s.pendingOk[id := |s.replies|], replies := s.replies + [Waiting])
    case PublishTimeout(h) => if s.replies[h].Waiting? then s.(replies := s.replies[h := Cancelled]) else s
  }

  predicate Legal(s: State, labels: seq<Label>)
    decreases |labels|
  {
    labels == [] || (Enabled(s, labels[0]) && Legal(Step(s, labels[0]), labels[1..]))
  }

  function Run(s: State, labels: seq<Label>): State
    requires Legal(s, labels)
    decreases |labels|
  {
    if labels == [] then s else Run(Step(s, labels[0]), labels[1..])
  }

  /** Cutting a run at one of its steps. */
  lemma {:induction false} CutRun(s: State, labels: seq<Label>, n: nat)
    requires Legal(s, labels) && n < |labels|
    ensures Legal(s, labels[..n]) && Enabled(Run(s, labels[..n]), labels[n])
    ensures Legal(Step(Run(s, labels[..n]), labels[n]), labels[n + 1..])
    ensures Run(s, labels) == Run(Step(Run(s, labels[..n]), labels[n]), labels[n + 1..])
    decreases n
  {
    if n > 0 {
      CutRun(Step(s, labels[0]), labels[1..], n - 1);
      assert labels[1..][..n - 1] == labels[..n][1..] && labels[1..][n..] == labels[n + 1..];
    }
  }

  lemma {:induction false} RunSnoc(s: State, labels: seq<Label>, l: Label)
    requires Legal(s, labels) && Enabled(Run(s, labels), l)
    ensures Legal(s, labels + [l]) && Run(s, labels + [l]) == Step(Run(s, labels), l)
    decreases |labels|
  {
    if labels == [] {
      assert labels + [l] == [l] && [l][1..] == [];
    } else {
      assert (labels + [l])[1..] == labels[1..] + [l];
      RunSnoc(Step(s, labels[0]), labels[1..], l);
    }
  }

  // ------------------------------------------------------------- the handshake

  /** What one happening decides about a pending handshake. */
  function Decides(latest: Option<string>, l: Label): Auth {
    match l
    case Receive(Ok(id, accepted, message)) =>
      if id == latest then (if accepted then Accepted else Rejected(message)) else Pending
    case Receive(Broken) => ConnectionClosed(None)
    case ReaderEnds(code) => ConnectionClosed(code)
    case AuthTimeout => TimedOut
    case _ => Pending
  }

  /**
    What the handshake should come to, read off the sequence of happenings alone:
    the first OK for the latest challenge's event, end of the reader, or timeout.
  */
  function Verdict(latest: Option<string>, labels: seq<Label>): Auth
    decreases |labels|
  {
    if labels == [] then Pending
    else
      var now := Decides(latest, labels[0]);
      if !now.Pending? then now
      else Verdict(if labels[0].Receive? && labels[0].m.Challenge? then Some(labels[0].m.authId) else latest, labels[1..])
  }

  lemma {:induction false} SettledStays(s: State, labels: seq<Label>)
    requires Legal(s, labels) && !s.auth.Pending?
    ensures Run(s, labels).auth == s.auth
    decreases |labels|
  {
    if labels != [] {
      SettledStays(Step(s, labels[0]), labels[1..]);
    }
  }

  lemma HandshakeStep(s: State, l: Label)
    requires Enabled(s, l) && s.auth.Pending?
    ensures Step(s, l).auth == Decides(s.authEventId, l)
    ensures Step(s, l).authEventId == if l.Receive? && l.m.Challenge? then Some(l.m.authId) else s.authEventId
  {
    match l
    case Receive(m) => HandshakeMessage(s, m);
    case Next(sub) => assert NextStep(s, sub).auth == s.auth && NextStep(s, sub).authEventId == s.authEventId;
    case _ =>
  }

  lemma HandshakeMessage(s: State, m: Msg)
    requires s.auth.Pending?
    ensures ReceiveStep(s, m).auth == Decides(s.authEventId, Receive(m))
    ensures ReceiveStep(s, m).authEventId == if m.Challenge? then Some(m.authId) else s.authEventId
  {
  }

  lemma {:induction false} HandshakeFrom(s: State, labels: seq<Label>)
    requires Legal(s, labels) && s.auth.Pending?
    ensures Run(s, labels).auth == Verdict(s.authEventId, labels)
    decreases |labels|
  {
    if labels != [] {
      var s1 := Step(s, labels[0]);
      HandshakeStep(s, labels[0]);
      if s1.auth.Pending? {
        HandshakeFrom(s1, labels[1..]);
      } else {
        SettledStays(s1, labels[1..]);
      }
    }
  }

  /** `connect` is settled once, by the first deciding happening; nothing later alters it. */
  lemma ConnectSettlesOnce(labels: seq<Label>, more: seq<Label>)
    requires Legal(Connected(), labels) && Legal(Run(Connected(), labels), more)
    ensures Run(Connected(), labels).auth == Verdict(None, labels)
    ensures Verdict(None, labels) != Pending ==> Run(Run(Connected(), labels), more).auth == Verdict(None, labels)
  {
    HandshakeFrom(Connected(), labels);
    if Verdict(None, labels) != Pending {
      SettledStays(Run(Connected(), labels), more);
    }
  }

  /** The event id of the newest challenge answered. */
  function Latest(before: Option<string>, labels: seq<Label>): Option<string>
    decreases |labels|
  {
    if labels == [] then before
    else Latest(if labels[0].Receive? && labels[0].m.Challenge? then Some(labels[0].m.authId) else before, labels[1..])
  }

  /** The n-th happening is the first that decides the handshake. */
  ghost predicate DecidesAt(latest: Option<string>, labels: seq<Label>, n: nat) {
    && n < |labels| && Decides(Latest(latest, labels[..n]), labels[n]) != Pending
    && forall k :: 0 <= k < n ==> Decides(Latest(latest, labels[..k]), labels[k]) == Pending
  }

  function NewLatest(latest: Option<string>, l: Label): Option<string> {
    if l.Receive? && l.m.Challenge? then Some(l.m.authId) else latest
  }

  lemma LatestTail(latest: Option<string>, labels: seq<Label>, n: nat)
    requires n < |labels|
    ensures Latest(latest, labels[..n + 1]) == Latest(NewLatest(latest, labels[0]), labels[1..][..n])
  {
    assert labels[..n + 1][1..] == labels[1..][..n];
  }

  /** Deciding later is deciding in the rest, if the first happening decides nothing. */
  lemma DecidesLater(latest: Option<string>, labels: seq<Label>, n: nat)
    requires labels != [] && Decides(latest, labels[0]) == Pending && n + 1 < |labels|
    ensures DecidesAt(latest, labels, n + 1) <==> DecidesAt(NewLatest(latest, labels[0]), labels[1..], n)
  {
    var rest, next := labels[1..], NewLatest(latest, labels[0]);
    forall k | 0 <= k <= n ensures Latest(latest, labels[..k + 1]) == Latest(next, rest[..k]) && labels[k + 1] == rest[k] {
      LatestTail(latest, labels, k);
    }
    if DecidesAt(next, rest, n) {
      forall k | 0 <= k < n + 1 ensures Decides(Latest(latest, labels[..k]), labels[k]) == Pending {
        if k > 0 {
          assert Decides(Latest(next, rest[..k - 1]), rest[k - 1]) == Pending;
        }
      }
    }
    if DecidesAt(latest, labels, n + 1) {
      forall k | 0 <= k < n ensures Decides(Latest(next, rest[..k]), rest[k]) == Pending {
        assert Decides(Latest(latest, labels[..k + 1]), labels[k + 1]) == Pending;
      }
    }
  }

  /** The verdict is what the first deciding happening decides, and Pending when there is none. */
  lemma {:induction false} VerdictIsFirst(latest: Option<string>, labels: seq<Label>)
    ensures forall n: nat :: DecidesAt(latest, labels, n) ==>
              Verdict(latest, labels) == Decides(Latest(latest, labels[..n]), labels[n])
    ensures Verdict(latest, labels) != Pending <==> exists n: nat :: DecidesAt(latest, labels, n)
    decreases |labels|
  {
    if labels != [] {
      assert labels[..0] == [];
      if Decides(latest, labels[0]) == Pending {
        var rest, next := labels[1..], NewLatest(latest, labels[0]);
        VerdictIsFirst(next, rest);
        forall n: nat | DecidesAt(latest, labels, n)
          ensures Verdict(latest, labels) == Decides(Latest(latest, labels[..n]), labels[n]) && n > 0 && DecidesAt(next, rest, n - 1)
        {
          DecidesLater(latest, labels, n - 1);
          LatestTail(latest, labels, n - 1);
        }
        if Verdict(next, rest) != Pending {
          var n: nat :| DecidesAt(next, rest, n);
          DecidesLater(latest, labels, n);
          assert DecidesAt(latest, labels, n + 1);
        }
      } else {
        assert DecidesAt(latest, labels, 0);
        assert Decides(Latest(latest, labels[..0]), labels[0]) != Pending;
        assert forall n: nat :: DecidesAt(latest, labels, n) ==> n == 0;
      }
    }
  }

  /** The n-th happening is an accepting OK for the newest challenge's event (or, before any challenge, for a null id). */
  predicate Accepts(labels: seq<Label>, n: nat)
    requires n < |labels|
  {
    labels[n].Receive? && labels[n].m.Ok? && labels[n].m.accepted && labels[n].m.id == Latest(None, labels[..n])
  }

  /** The handshake is accepted if and only if the first happening that decides it is such an OK. */
  lemma AcceptedMeans(labels: seq<Label>)
    ensures Verdict(None, labels) == Accepted <==> exists n: nat :: DecidesAt(None, labels, n) && Accepts(labels, n)
  {
    VerdictIsFirst(None, labels);
    if Verdict(None, labels) == Accepted {
      var n: nat :| DecidesAt(None, labels, n);
      assert Accepts(labels, n);
    }
  }

  predicate IsChallenge(l: Label) {
    l.Receive? && l.m.Challenge?
  }

  /** There is no newest challenge exactly when there was none. */
  lemma {:induction false} LatestNone(latest: Option<string>, labels: seq<Label>)
    ensures Latest(latest, labels) == None <==> latest == None && forall k :: 0 <= k < |labels| ==> !IsChallenge(labels[k])
    decreases |labels|
  {
    if labels != [] {
      LatestNone(NewLatest(latest, labels[0]), labels[1..]);
      assert forall k :: 0 < k < |labels| ==> labels[k] == labels[1..][k - 1];
      if latest == None && forall k :: 0 <= k < |labels| ==> !IsChallenge(labels[k]) {
        assert !IsChallenge(labels[0]);
        forall k | 0 <= k < |labels[1..]| ensures !IsChallenge(labels[1..][k]) {
          assert !IsChallenge(labels[k + 1]);
        }
      }
    }
  }

  /** An accepted handshake was accepted by a null id exactly when no challenge had come before that. */
  lemma NullIdIff(labels: seq<Label>, n: nat)
    requires DecidesAt(None, labels, n) && Accepts(labels, n)
    ensures labels[n].m.id == None <==> forall k :: 0 <= k < n ==> !IsChallenge(labels[k])
  {
    LatestNone(None, labels[..n]);
    assert forall k :: 0 <= k < n ==> labels[..n][k] == labels[k];
  }

  /** The null-id case is real: such an OK, first on the socket, completes the handshake. */
  lemma NullIdAuthenticates(message: string)
    ensures var labels := [Receive(Ok(None, true, message))];
            Legal(Connected(), labels) && Run(Connected(), labels).auth == Accepted
  {
    assert [Receive(Ok(None, true, message))][1..] == [];
  }

  // ----------------------------------------------------------------- publishing

  ghost predicate InjectiveBelow(m: map<string, nat>, n: nat) {
    && (forall x :: x in m ==> m[x] < n)
    && (forall x, y :: x in m && y in m && m[x] == m[y] ==> x == y)
  }

  lemma InjectiveMinus(m: map<string, nat>, n: nat, key: string)
    requires InjectiveBelow(m, n)
    ensures InjectiveBelow(m - {key}, n)
  {
  }

  lemma InjectivePlus(m: map<string, nat>, n: nat, key: string)
    requires InjectiveBelow(m, n)
    ensures InjectiveBelow(m[key := n], n + 1)
  {
  }

  /** Every future a publish may still be answered through belongs to one event id. */
  ghost predicate OneId(s: State) {
    InjectiveBelow(s.pendingOk, |s.replies|)
  }

  lemma OkKeeps(s: State, id: Option<string>, accepted: bool, message: string)
    ensures var s' := OkStep(s, id, accepted, message);
            && |s'.replies| == |s.replies|
            && (s'.pendingOk == s.pendingOk || (id.Some? && s'.pendingOk == s.pendingOk - {id.value}))
  {
  }

  /**
    All that an OK does: for the newest challenge's event it settles a pending
    handshake; for a pending publish it takes the id out and answers its future, if
    that still waits; otherwise nothing.
  */
  lemma OkMeans(s: State, id: Option<string>, accepted: bool, message: string)
    ensures var s' := OkStep(s, id, accepted, message);
            if id == s.authEventId then
              s' == s.(auth := if s.auth == Pending then (if accepted then Accepted else Rejected(message)) else s.auth)
            else if id.Some? && id.value in s.pendingOk then
              && s' == s.(pendingOk := s'.pendingOk, replies := s'.replies)
              && id.value !in s'.pendingOk && |s'.replies| == |s.replies|
              && (forall x :: x != id.value ==> (x in s'.pendingOk <==> x in s.pendingOk))
              && (forall x :: x in s'.pendingOk ==> s'.pendingOk[x] == s.pendingOk[x])
              && (forall h: nat :: h < |s.replies| ==>
                    s'.replies[h] == if h == s.pendingOk[id.value] && s.replies[h] == Waiting then Replied(accepted, message)
                                     else s.replies[h])
            else s' == s
  {
  }

  /** A publish adds a future and files it under its id; giving up on one cancels that future, if it waits, and nothing else. */
  lemma PublishMeans(s: State, id: string, handle: nat)
    ensures var s' := Step(s, Publish(id));
            && |s'.replies| == |s.replies| + 1 && s'.replies[|s.replies|] == Waiting && s'.replies[..|s.replies|] == s.replies
            && id in s'.pendingOk && s'.pendingOk[id] == |s.replies|
            && (forall x :: x != id ==> (x in s'.pendingOk <==> x in s.pendingOk))
            && (forall x :: x != id && x in s.pendingOk ==> s'.pendingOk[x] == s.pendingOk[x])
            && s' == s.(pendingOk := s'.pendingOk, replies := s'.replies)
    ensures handle < |s.replies| ==>
              var s' := Step(s, PublishTimeout(handle));
              && |s'.replies| == |s.replies| && s' == s.(replies := s'.replies)
              && forall h: nat :: h < |s.replies| ==>
                   s'.replies[h] == if h == handle && s.replies[h] == Waiting then Cancelled else s.replies[h]
  {
  }

  lemma OneIdOk(s: State, id: Option<string>, accepted: bool, message: string)
    requires OneId(s)
    ensures OneId(OkStep(s, id, accepted, message))
  {
    OkKeeps(s, id, accepted, message);
    if id.Some? {
      InjectiveMinus(s.pendingOk, |s.replies|, id.value);
    }
  }

  lemma OneIdStep(s: State, l: Label)
    requires Enabled(s, l) && OneId(s)
    ensures OneId(Step(s, l))
  {
    if l.Receive? {
      if l.m.Ok? {
        OneIdOk(s, l.m.id, l.m.accepted, l.m.message);
      } else {
        OthersKeepReplies(s, l.m);
      }
    } else if l.Next? {
      assert NextStep(s, l.sub).pendingOk == s.pendingOk;
    } else if l.Publish? {
      InjectivePlus(s.pendingOk, |s.replies|, l.id);
    }
  }

  lemma OthersKeepReplies(s: State, m: Msg)
    requires !m.Ok?
    ensures ReceiveStep(s, m).pendingOk == s.pendingOk && ReceiveStep(s, m).replies == s.replies
    ensures ReceiveStep(s, m).authEventId == if m.Challenge? then Some(m.authId) else s.authEventId
  {
  }

  /** The first reply to event `id`, or the caller giving up on future `h`, whichever comes first. */
  function Answer(id: string, h: nat, labels: seq<Label>): Reply
    decreases |labels|
  {
    if labels == [] then Waiting
    else if labels[0].Receive? && labels[0].m.Ok? && labels[0].m.id == Some(id) then
      Replied(labels[0].m.accepted, labels[0].m.message)
    else if labels[0] == PublishTimeout(h) then Cancelled
    else Answer(id, h, labels[1..])
  }

  /** The id is that of neither another publish nor an AUTH event. */
  predicate OwnId(id: string, labels: seq<Label>) {
    forall n :: 0 <= n < |labels| ==> labels[n] != Publish(id) && labels[n] != Receive(Challenge(id))
  }

  lemma OwnIdTail(id: string, labels: seq<Label>)
    requires labels != [] && OwnId(id, labels)
    ensures labels[0] != Publish(id) && labels[0] != Receive(Challenge(id)) && OwnId(id, labels[1..])
  {
  }

  lemma RepliesOnlyGrow(s: State, l: Label, h: nat)
    requires Enabled(s, l) && h < |s.replies| && !s.replies[h].Waiting?
    ensures h < |Step(s, l).replies| && Step(s, l).replies[h] == s.replies[h]
  {
    if l.Receive? && !l.m.Ok? {
      OthersKeepReplies(s, l.m);
    }
  }

  /** A future that has its answer keeps it: later and repeated OKs change nothing. */
  lemma {:induction false} AnswerIsFinal(s: State, labels: seq<Label>, h: nat)
    requires Legal(s, labels) && h < |s.replies| && !s.replies[h].Waiting?
    ensures h < |Run(s, labels).replies| && Run(s, labels).replies[h] == s.replies[h]
    decreases |labels|
  {
    if labels != [] {
      RepliesOnlyGrow(s, labels[0], h);
      AnswerIsFinal(Step(s, labels[0]), labels[1..], h);
    }
  }

  ghost predicate Awaits(s: State, id: string, h: nat) {
    && OneId(s) && id in s.pendingOk && s.pendingOk[id] == h && h < |s.replies| && s.replies[h].Waiting?
    && s.authEventId != Some(id)
  }

  lemma AwaitsOk(s: State, x: Option<string>, accepted: bool, message: string, id: string, h: nat)
    requires Awaits(s, id, h)
    ensures var s' := OkStep(s, x, accepted, message);
            && |s'.replies| == |s.replies|
            && (if x == Some(id) then s'.replies[h] == Replied(accepted, message) else Awaits(s', id, h))
  {
    OneIdOk(s, x, accepted, message);
  }

  lemma AwaitsStep(s: State, l: Label, id: string, h: nat)
    requires Enabled(s, l) && Awaits(s, id, h) && l != Publish(id) && l != Receive(Challenge(id))
    ensures var s' := Step(s, l);
            && h < |s'.replies|
            && (if l.Receive? && l.m.Ok? && l.m.id == Some(id) then s'.replies[h] == Replied(l.m.accepted, l.m.message)
                else if l == PublishTimeout(h) then s'.replies[h] == Cancelled
                else Awaits(s', id, h))
  {
    OneIdStep(s, l);
    if l.Receive? {
      if l.m.Ok? {
        AwaitsOk(s, l.m.id, l.m.accepted, l.m.message, id, h);
      } else {
        OthersKeepReplies(s, l.m);
      }
    } else if l.Next? {
      assert NextStep(s, l.sub).pendingOk == s.pendingOk && NextStep(s, l.sub).replies == s.replies;
    }
  }

  lemma {:induction false} AnswerFrom(s: State, labels: seq<Label>, id: string, h: nat)
    requires Legal(s, labels) && Awaits(s, id, h) && OwnId(id, labels)
    ensures h < |Run(s, labels).replies| && Run(s, labels).replies[h] == Answer(id, h, labels)
    decreases |labels|
  {
    if labels != [] {
      OwnIdTail(id, labels);
      AwaitsStep(s, labels[0], id, h);
      var s1 := Step(s, labels[0]);
      if s1.replies[h].Waiting? {
        AnswerFrom(s1, labels[1..], id, h);
      } else {
        AnswerIsFinal(s1, labels[1..], h);
      }
    }
  }

  lemma {:induction false} OneIdRun(s: State, labels: seq<Label>)
    requires Legal(s, labels) && OneId(s)
    ensures OneId(Run(s, labels))
    decreases |labels|
  {
    if labels != [] {
      OneIdStep(s, labels[0]);
      OneIdRun(Step(s, labels[0]), labels[1..]);
    }
  }

  /** An id no challenge was answered with is not the handshake's. */
  lemma {:induction false} NotTheChallenge(s: State, labels: seq<Label>, id: string)
    requires Legal(s, labels) && s.authEventId != Some(id)
    requires forall k :: 0 <= k < |labels| ==> labels[k] != Receive(Challenge(id))
    ensures Run(s, labels).authEventId != Some(id)
    decreases |labels|
  {
    if labels != [] {
      var l := labels[0];
      ChallengesOnly(s, l);
      assert forall k :: 0 <= k < |labels[1..]| ==> labels[1..][k] == labels[k + 1];
      NotTheChallenge(Step(s, l), labels[1..], id);
    }
  }

  lemma ChallengesOnly(s: State, l: Label)
    requires Enabled(s, l)
    ensures Step(s, l).authEventId == if l.Receive? && l.m.Challenge? then Some(l.m.authId) else s.authEventId
  {
    if l.Receive? && !l.m.Ok? {
      OthersKeepReplies(s, l.m);
    }
  }

  /**
    A publish under an id of its own is answered by the first OK for that id that
    comes before its timeout, by nothing else, and only once.
  */
  lemma PublishGetsFirstOk(before: seq<Label>, id: string, after: seq<Label>)
    requires Legal(Connected(), before) && Legal(Step(Run(Connected(), before), Publish(id)), after)
    requires Run(Connected(), before).authEventId != Some(id) && OwnId(id, after)
    ensures var s := Run(Connected(), before);
            var h := |s.replies|;
            var s' := Run(Step(s, Publish(id)), after);
            h < |s'.replies| && s'.replies[h] == Answer(id, h, after)
  {
    OneIdRun(Connected(), before);
    var s := Run(Connected(), before);
    OneIdStep(s, Publish(id));
    AnswerFrom(Step(s, Publish(id)), after, id, |s.replies|);
  }

  // -------------------------------------------------------------- subscriptions

  /** What one happening puts into the queue of `sub`. */
  function ItemFor(l: Label, sub: string): seq<Item> {
    match l
    case Receive(EventFor(x, payload)) => if x == sub then [Event(payload)] else []
    case Receive(Eose(x)) => if x == sub then [EndOfStored] else []
    case Receive(ClosedSub(x, reason)) => if x == sub then [Closed(reason)] else []
    case Receive(Broken) => [Closed("connection lost")]
    case ReaderEnds(_) => [Closed("connection lost")]
    case _ => []
  }

  /** The relay's side of the subscription: other subscriptions' traffic does not appear in it. */
  function Items(labels: seq<Label>, sub: string): seq<Item>
    decreases |labels|
  {
    if labels == [] then [] else ItemFor(labels[0], sub) + Items(labels[1..], sub)
  }

  /** The payloads up to the first terminator. */
  function UpToEnd(items: seq<Item>, closeOnEose: bool): seq<string>
    decreases |items|
  {
    if items == [] then []
    else
      match items[0]
      case Event(payload) => [payload] + UpToEnd(items[1..], closeOnEose)
      case EndOfStored => if closeOnEose then [] else UpToEnd(items[1..], closeOnEose)
      case Closed(_) => []
  }

  predicate HasEnd(items: seq<Item>, closeOnEose: bool) {
    exists n :: 0 <= n < |items| && (items[n].Closed? || (closeOnEose && items[n] == EndOfStored))
  }

  predicate Known(s: State, sub: string) {
    sub in s.yielded && sub in s.closeOnEose
  }

  /** Neither a second subscription under this id nor its consumer giving up. */
  predicate LeftAlone(sub: string, labels: seq<Label>) {
    forall n :: 0 <= n < |labels| ==> !(labels[n].Subscribe? && labels[n].sub == sub) && labels[n] != Abandon(sub)
  }

  /** What `sub` has yielded and what its queue still holds for it. */
  function Outcome(s: State, sub: string): seq<string>
    requires Known(s, sub)
  {
    s.yielded[sub] + if sub in s.subs then UpToEnd(s.subs[sub], s.closeOnEose[sub]) else []
  }

  lemma QueueMessage(s: State, m: Msg, sub: string)
    requires s.reading
    ensures var s' := ReceiveStep(s, m);
            && s'.yielded == s.yielded && s'.closeOnEose == s.closeOnEose
            && (sub in s'.subs <==> sub in s.subs)
            && (sub in s.subs ==> s'.subs[sub] == s.subs[sub] + ItemFor(Receive(m), sub))
  {
    if sub in s.subs {
      assert s.subs[sub] + [] == s.subs[sub];
      if m.Ok? {
        assert OkStep(s, m.id, m.accepted, m.message).subs == s.subs;
      }
    }
  }

  lemma QueueStep(s: State, l: Label, sub: string)
    requires Enabled(s, l) && Known(s, sub) && LeftAlone(sub, [l])
    ensures var s' := Step(s, l);
            && Known(s', sub) && s'.closeOnEose[sub] == s.closeOnEose[sub]
            && (sub !in s.subs ==> sub !in s'.subs && s'.yielded[sub] == s.yielded[sub])
            && (sub in s.subs && l != Next(sub) ==>
                  sub in s'.subs && s'.subs[sub] == s.subs[sub] + ItemFor(l, sub) && s'.yielded[sub] == s.yielded[sub])
  {
    assert [l][0] == l;
    match l
    case Receive(m) => QueueMessage(s, m, sub);
    case Next(x) => TakeStep(s, x);
    case _ => assert sub in s.subs ==> s.subs[sub] + [] == s.subs[sub];
  }

  lemma TakeStep(s: State, sub: string)
    requires Enabled(s, Next(sub))
    ensures var s' := Step(s, Next(sub));
            var item := s.subs[sub][0];
            && Known(s', sub) && s'.closeOnEose[sub] == s.closeOnEose[sub]
            && (Ends(item, s.closeOnEose[sub]) ==> sub !in s'.subs && s'.yielded[sub] == s.yielded[sub])
            && (!Ends(item, s.closeOnEose[sub]) ==>
                  sub in s'.subs && s'.subs[sub] == s.subs[sub][1..]
                  && s'.yielded[sub] == s.yielded[sub] + if item.Event? then [item.payload] else [])
            && (forall x :: x in s'.subs <==> x in s.subs && !(x == sub && Ends(item, s.closeOnEose[sub])))
            && (forall x :: x != sub && x in s.subs ==> s'.subs[x] == s.subs[x])
            && (forall x :: x in s'.yielded <==> x in s.yielded)
            && (forall x :: x != sub && x in s.yielded ==> s'.yielded[x] == s.yielded[x])
            && s'.closeOnEose == s.closeOnEose
  {
  }

  lemma {:induction false} ProjectionFrom(s: State, labels: seq<Label>, sub: string)
    requires Legal(s, labels) && Known(s, sub) && LeftAlone(sub, labels)
    ensures var s' := Run(s, labels);
            && Known(s', sub)
            && (sub !in s.subs ==> sub !in s'.subs && s'.yielded[sub] == s.yielded[sub])
            && (sub in s.subs ==>
                  Outcome(s', sub) == s.yielded[sub] + UpToEnd(s.subs[sub] + Items(labels, sub), s.closeOnEose[sub]))
    decreases |labels|
  {
    if labels == [] {
      if sub in s.subs {
        assert s.subs[sub] + [] == s.subs[sub];
      }
    } else {
      var l, rest := labels[0], labels[1..];
      assert LeftAlone(sub, [l]) && LeftAlone(sub, rest);
      QueueStep(s, l, sub);
      ProjectionFrom(Step(s, l), rest, sub);
      if sub in s.subs {
        StreamStep(s, l, sub, Items(rest, sub));
      }
    }
  }

  /** A step moves items along the stream without changing what it comes to. */
  lemma StreamStep(s: State, l: Label, sub: string, more: seq<Item>)
    requires Enabled(s, l) && Known(s, sub) && LeftAlone(sub, [l]) && sub in s.subs
    ensures var s' := Step(s, l);
            && Known(s', sub)
            && s.yielded[sub] + UpToEnd(s.subs[sub] + (ItemFor(l, sub) + more), s.closeOnEose[sub])
               == s'.yielded[sub] + if sub in s'.subs then UpToEnd(s'.subs[sub] + more, s.closeOnEose[sub]) else []
  {
    QueueStep(s, l, sub);
    var q := s.subs[sub];
    if l == Next(sub) {
      TakeStep(s, sub);
      TakeFromStream(s.yielded[sub], q, more, s.closeOnEose[sub]);
      assert [] + more == more && s.yielded[sub] + [] == s.yielded[sub];
    } else {
      assert q + (ItemFor(l, sub) + more) == q + ItemFor(l, sub) + more;
    }
  }

  /** Taking the front item commits exactly its contribution. */
  lemma TakeFromStream(got: seq<string>, q: seq<Item>, more: seq<Item>, flag: bool)
    requires q != []
    ensures got + UpToEnd(q + more, flag)
            == if Ends(q[0], flag) then got
               else got + (if q[0].Event? then [q[0].payload] else []) + UpToEnd(q[1..] + more, flag)
  {
    assert (q + more)[1..] == q[1..] + more;
  }

  /**
    The projection: from its start on, an iterator yields exactly the EVENT
    payloads for its id, in order, up to the first CLOSED, loss of connection, or
    EOSE when asked to close on it. What it has not yielded yet is in its queue,
    and once it has ended nothing changes what it yielded.
  */
  lemma SubscriptionProjection(before: seq<Label>, sub: string, flag: bool, after: seq<Label>)
    requires Legal(Connected(), before) && Enabled(Run(Connected(), before), Subscribe(sub, flag))
    requires Legal(Step(Run(Connected(), before), Subscribe(sub, flag)), after) && LeftAlone(sub, after)
    ensures var s := Run(Step(Run(Connected(), before), Subscribe(sub, flag)), after);
            && Known(s, sub)
            && Outcome(s, sub) == UpToEnd(Items(after, sub), flag)
            && (sub !in s.subs ==> s.yielded[sub] == UpToEnd(Items(after, sub), flag))
  {
    var s := Step(Run(Connected(), before), Subscribe(sub, flag));
    ProjectionFrom(s, after, sub);
    assert [] + Items(after, sub) == Items(after, sub);
    assert [] + UpToEnd(Items(after, sub), flag) == UpToEnd(Items(after, sub), flag);
  }

  /** An abandoned subscription's queue is gone, all others stay as they are, and its id is free again. */
  lemma AbandonFrees(s: State, sub: string, flag: bool)
    requires Enabled(s, Abandon(sub))
    ensures var s' := Step(s, Abandon(sub));
            && sub !in s'.subs && Enabled(s', Subscribe(sub, flag))
            && (forall x :: x != sub ==> (x in s'.subs <==> x in s.subs) && (x in s.subs ==> s'.subs[x] == s.subs[x]))
            && s' == s.(subs := s'.subs)
  {
  }

  /** It yields nothing more, whatever arrives, until its id is used again. */
  lemma AbandonedIsSilent(s: State, sub: string, more: seq<Label>)
    requires Enabled(s, Abandon(sub)) && Known(s, sub)
    requires Legal(Step(s, Abandon(sub)), more) && LeftAlone(sub, more)
    ensures var s' := Run(Step(s, Abandon(sub)), more);
            sub !in s'.subs && sub in s'.yielded && s'.yielded[sub] == s.yielded[sub]
  {
    ProjectionFrom(Step(s, Abandon(sub)), more, sub);
  }

  /** A new subscription starts with an empty queue and nothing yielded, and touches no other. */
  lemma SubscribeIsFresh(s: State, sub: string, flag: bool)
    requires Enabled(s, Subscribe(sub, flag))
    ensures var s' := Step(s, Subscribe(sub, flag));
            && sub in s'.subs && s'.subs[sub] == [] && Known(s', sub) && s'.yielded[sub] == [] && s'.closeOnEose[sub] == flag
            && (forall x :: x != sub ==> (x in s'.subs <==> x in s.subs) && (x in s.subs ==> s'.subs[x] == s.subs[x]))
            && (forall x :: x != sub && x in s.yielded ==> x in s'.yielded && s'.yielded[x] == s.yielded[x])
            && s' == s.(subs := s'.subs, closeOnEose := s'.closeOnEose, yielded := s'.yielded)
  {
  }

  // -------------------------------------------------------- the end of the reader

  lemma EndsReader(s: State, l: Label)
    requires Enabled(s, l) && s.reading && !Step(s, l).reading
    ensures exists code :: Step(s, l) == EndStep(s, code)
  {
    if l.Receive? {
      assert l.m.Broken?;
      assert Step(s, l) == EndStep(s, None);
    } else {
      assert l.ReaderEnds?;
      assert Step(s, l) == EndStep(s, l.code);
    }
  }

  /** All that its end does: the handshake fails if it was pending, and every live queue gets one more item, the terminator. */
  lemma EndMeans(s: State, code: Option<int>)
    ensures var s' := EndStep(s, code);
            && !s'.reading && s'.auth == (if s.auth == Pending then ConnectionClosed(code) else s.auth)
            && (forall x :: x in s'.subs <==> x in s.subs)
            && (forall x :: x in s.subs ==> s'.subs[x] == s.subs[x] + [Closed("connection lost")])
            && s' == s.(reading := false, auth := s'.auth, subs := s'.subs)
  {
  }

  /** When the reader ends, every live queue holds a terminator. */
  lemma ReaderLeavesTerminators(s: State, l: Label, sub: string)
    requires Enabled(s, l) && s.reading && !Step(s, l).reading && sub in Step(s, l).subs
    ensures forall flag :: HasEnd(Step(s, l).subs[sub], flag)
  {
    var q := Step(s, l).subs[sub];
    EndsReader(s, l);
    assert Ends(q[|q| - 1], true) && Ends(q[|q| - 1], false);
  }

  /** And it keeps one until its iterator has ended. */
  lemma {:induction false} TerminatorStays(s: State, labels: seq<Label>, sub: string)
    requires Legal(s, labels) && !s.reading && Known(s, sub) && LeftAlone(sub, labels)
    requires sub in s.subs && HasEnd(s.subs[sub], s.closeOnEose[sub])
    ensures var s' := Run(s, labels);
            Known(s', sub) && (sub in s'.subs ==> HasEnd(s'.subs[sub], s'.closeOnEose[sub]))
    decreases |labels|
  {
    if labels != [] {
      var l, s1, rest := labels[0], Step(s, labels[0]), labels[1..];
      assert LeftAlone(sub, [l]) && LeftAlone(sub, rest);
      QueueStep(s, l, sub);
      if l == Next(sub) {
        TakeStep(s, sub);
        if sub in s1.subs {
          var n :| 0 <= n < |s.subs[sub]| && Ends(s.subs[sub][n], s.closeOnEose[sub]);
          assert s1.subs[sub][n - 1] == s.subs[sub][n];
          TerminatorStays(s1, rest, sub);
        } else {
          ProjectionFrom(s1, rest, sub);
        }
      } else {
        assert ItemFor(l, sub) == [];
        TerminatorStays(s1, rest, sub);
      }
    }
  }

  /** A subscription started after the reader has ended is never told: its queue stays empty for ever. */
  lemma {:induction false} LateSubscriberWaits(s: State, labels: seq<Label>, sub: string)
    requires Legal(s, labels) && !s.reading && Known(s, sub) && LeftAlone(sub, labels)
    requires sub in s.subs && s.subs[sub] == []
    ensures var s' := Run(s, labels);
            sub in s'.subs && s'.subs[sub] == [] && Known(s', sub) && s'.yielded[sub] == s.yielded[sub]
    decreases |labels|
  {
    if labels != [] {
      assert LeftAlone(sub, [labels[0]]) && LeftAlone(sub, labels[1..]);
      QueueStep(s, labels[0], sub);
      assert ItemFor(labels[0], sub) == [];
      LateSubscriberWaits(Step(s, labels[0]), labels[1..], sub);
    }
  }

  /** Such a subscription exists: a message that breaks the reader, then a subscribe; whatever follows, it yields nothing. */
  lemma LateSubscriber(sub: string, flag: bool, more: seq<Label>)
    ensures var labels := [Receive(Broken), Subscribe(sub, flag)];
            && Legal(Connected(), labels)
            && var s := Run(Connected(), labels);
               && !s.reading && sub in s.subs
               && (Legal(s, more) && LeftAlone(sub, more) ==>
                     var s' := Run(s, more);
                     sub in s'.subs && s'.subs[sub] == [] && sub in s'.yielded && s'.yielded[sub] == [])
  {
    var s1 := Step(Connected(), Receive(Broken));
    var s2 := Step(s1, Subscribe(sub, flag));
    RunSnoc(Connected(), [], Receive(Broken));
    RunSnoc(Connected(), [Receive(Broken)], Subscribe(sub, flag));
    assert [] + [Receive(Broken)] == [Receive(Broken)];
    assert [Receive(Broken)] + [Subscribe(sub, flag)] == [Receive(Broken), Subscribe(sub, flag)];
    if Legal(s2, more) && LeftAlone(sub, more) {
      LateSubscriberWaits(s2, more, sub);
    }
  }

  // ---------------------------------------------------------------- the client

  /** The client's fields, with what has happened to them so far. */
  class BuzzClient {
    var reading: bool
    var auth: Auth
    var authEventId: Option<string>
    var subs: map<string, seq<Item>>
    var pendingOk: map<string, nat>
    var replies: seq<Reply>
    var closeOnEose: map<string, bool>
    ghost var yielded: map<string, seq<string>>
    ghost var labels: seq<Label>

    ghost function Abs(): State
      reads this
    {
      State(reading, auth, authEventId, subs, pendingOk, replies, closeOnEose, yielded)
    }

    /** The fields are where the happenings so far have brought them. */
    ghost predicate Valid()
      reads this
    {
      Legal(Connected(), labels) && Run(Connected(), labels) == Abs()
    }

    constructor ()
      ensures Valid() && labels == []
    {
      reading, auth, authEventId := true, Pending, None;
      subs, pendingOk, replies := map[], map[], [];
      closeOnEose, yielded := map[], map[];
      labels := [];
    }

    /** Book a happening whose effect is in the fields. */
    ghost method Book(l: Label, before: State)
      requires Legal(Connected(), labels) && Run(Connected(), labels) == before
      requires Enabled(before, l) && Abs() == Step(before, l)
      modifies this`labels
      ensures Valid() && labels == old(labels) + [l]
    {
      RunSnoc(Connected(), labels, l);
      labels := labels + [l];
    }

    method SettleAuth(verdict: Auth)
      modifies this`auth
      ensures Abs() == Settle(old(Abs()), verdict)
    {
      if !auth.Pending? {
        return;
      }
      auth := verdict;
    }

    method PutTo(sub: string, item: Item)
      modifies this`subs
      ensures Abs() == PutItem(old(Abs()), sub, item)
    {
      if sub in subs {
        subs := subs[sub := subs[sub] + [item]];
      }
    }

    method OnOk(id: Option<string>, accepted: bool, message: string)
      modifies this`auth, this`pendingOk, this`replies
      ensures Abs() == OkStep(old(Abs()), id, accepted, message)
    {
      if id == authEventId {
        SettleAuth(if accepted then Accepted else Rejected(message));
        return;
      }
      if id.None? || id.value !in pendingOk {
        return;
      }
      var h := pendingOk[id.value];
      pendingOk := pendingOk - {id.value};
      if h < |replies| && replies[h].Waiting? {
        replies := replies[h := Replied(accepted, message)];
      }
    }

    /** One turn of the read loop. */
    method Handle(m: Msg)
      requires Valid() && reading
      modifies this
      ensures Valid() && labels == old(labels) + [Receive(m)]
    {
      ghost var before := Abs();
      match m {
        case EventFor(sub, payload) => PutTo(sub, Event(payload));
        case Ok(id, accepted, message) => OnOk(id, accepted, message);
        case Challenge(authId) => authEventId := Some(authId);
        case Eose(sub) => PutTo(sub, EndOfStored);
        case ClosedSub(sub, reason) => PutTo(sub, Closed(reason));
        case Unhandled =>
        case Broken => LeaveLoop(None);
      }
      Book(Receive(m), before);
    }

    /** The `finally` of the read loop. */
    method LeaveLoop(code: Option<int>)
      modifies this`auth, this`subs, this`reading
      ensures Abs() == EndStep(old(Abs()), code)
    {
      SettleAuth(ConnectionClosed(code));
      subs := map sub | sub in subs :: subs[sub] + [Closed("connection lost")];
      reading := false;
    }

    method FinishReader(code: Option<int>)
      requires Valid() && reading
      modifies this
      ensures Valid() && labels == old(labels) + [ReaderEnds(code)]
    {
      ghost var before := Abs();
      LeaveLoop(code);
      Book(ReaderEnds(code), before);
    }

    /** `connect` gives up waiting. */
    method TimeOutConnect()
      requires Valid()
      modifies this
      ensures Valid() && labels == old(labels) + [AuthTimeout]
    {
      ghost var before := Abs();
      SettleAuth(TimedOut);
      Book(AuthTimeout, before);
    }

    method StartSubscription(sub: string, flag: bool)
      requires Valid() && sub !in subs
      modifies this
      ensures Valid() && labels == old(labels) + [Subscribe(sub, flag)]
    {
      ghost var before := Abs();
      subs := subs[sub := []];
      closeOnEose := closeOnEose[sub := flag];
      yielded := yielded[sub := []];
      Book(Subscribe(sub, flag), before);
    }

    /** One turn of the iterator's loop: an event to yield, nothing yet, or the end. */
    method NextItem(sub: string) returns (event: Option<string>, done: bool)
      requires Valid() && Enabled(Abs(), Next(sub))
      modifies this
      ensures Valid() && labels == old(labels) + [Next(sub)]
      ensures yielded == if event.Some? then old(yielded)[sub := old(yielded)[sub] + [event.value]] else old(yielded)
      ensures done <==> sub !in subs
    {
      ghost var before := Abs();
      var item := subs[sub][0];
      event, done := None, false;
      subs := subs[sub := subs[sub][1..]];
      match item {
        case Event(payload) =>
          event := Some(payload);
          yielded := yielded[sub := yielded[sub] + [payload]];
        case EndOfStored =>
          done := closeOnEose[sub];
        case Closed(_) =>
          done := true;
      }
      if done {
        subs := subs - {sub};
        assert subs == old(subs) - {sub};
      }
      Book(Next(sub), before);
    }

    /** The consumer stops iterating. */
    method StopIterating(sub: string)
      requires Valid() && sub in subs
      modifies this
      ensures Valid() && labels == old(labels) + [Abandon(sub)]
    {
      ghost var before := Abs();
      subs := subs - {sub};
      Book(Abandon(sub), before);
    }

    method StartPublish(id: string) returns (handle: nat)
      requires Valid()
      modifies this
      ensures Valid() && labels == old(labels) + [Publish(id)] && handle == |old(replies)|
    {
      ghost var before := Abs();
      handle := |replies|;
      replies := replies + [Waiting];
      pendingOk := pendingOk[id := handle];
      Book(Publish(id), before);
    }

    /** A publish gives up waiting: its future is cancelled, unless it has been answered. */
    method TimeOutPublish(handle: nat)
      requires Valid() && handle < |replies|
      modifies this
      ensures Valid() && labels == old(labels) + [PublishTimeout(handle)]
    {
      ghost var before := Abs();
      if replies[handle].Waiting? {
        replies := replies[handle := Cancelled];
      }
      Book(PublishTimeout(handle), before);
    }

    /** The handshake stands where the happenings so far put it. */
    lemma Handshake()
      requires Valid()
      ensures auth == Verdict(None, labels)
    {
      HandshakeFrom(Connected(), labels);
    }

    /** So does the publish that was the n-th happening, if its id was its own. */
    lemma Answered(n: nat, id: string)
      requires Valid() && n < |labels| && labels[n] == Publish(id)
      requires OwnId(id, labels[n + 1..]) && !(exists k :: 0 <= k < n && labels[k] == Receive(Challenge(id)))
      ensures Legal(Connected(), labels[..n])
      ensures var h := |Run(Connected(), labels[..n]).replies|;
              h < |replies| && replies[h] == Answer(id, h, labels[n + 1..])
    {
      CutRun(Connected(), labels, n);
      NotTheChallenge(Connected(), labels[..n], id);
      PublishGetsFirstOk(labels[..n], id, labels[n + 1..]);
    }

    /** And the subscription that was the n-th happening. */
    lemma Projects(n: nat, sub: string, flag: bool)
      requires Valid() && n < |labels| && labels[n] == Subscribe(sub, flag) && LeftAlone(sub, labels[n + 1..])
      ensures Known(Abs(), sub) && Outcome(Abs(), sub) == UpToEnd(Items(labels[n + 1..], sub), flag)
    {
      CutRun(Connected(), labels, n);
      SubscriptionProjection(labels[..n], sub, flag, labels[n + 1..]);
    }
  }
}
