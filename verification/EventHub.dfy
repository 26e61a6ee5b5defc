/**
  Publishing decoded events to `events()` iterators, one atomic step at a time:
  what runs under the lock, one `call_soon_threadsafe`, one callback, one
  `queue.get`. Any sequence of steps is an interleaving of the receive loop with
  the iterators.
*/
module EventHub {

  import opened Wrappers
  import opened Sequences

  const BACKLOG := 512

  /** A published event, or the marker that the connection has closed. */
  datatype Item<E> = Event(event: E) | End

  /** The newest `BACKLOG` elements. */
  function Newest<T>(s: seq<T>): seq<T> {
    if |s| <= BACKLOG then s else s[|s| - BACKLOG..]
  }

  /** `deque(maxlen=512).append`. */
  function Push<T>(s: seq<T>, x: T): seq<T> {
    if |s| < BACKLOG then s + [x] else s[|s| + 1 - BACKLOG..] + [x]
  }

  /** The backlog is the last 512 published, or all of them. */
  lemma NewestMeans<T>(s: seq<T>)
    ensures Newest(s) == if |s| <= 512 then s else s[|s| - 512..]
  {
  }

  lemma PushNewest<T>(s: seq<T>, x: T)
    ensures Push(Newest(s), x) == Newest(s + [x])
  {
  }

  /** One iterator's queue and the `put_nowait` calls scheduled on its loop. */
  datatype Line<E> = Line(queue: seq<Item<E>>, callbacks: seq<Item<E>>)

  datatype State<E> = State(
    backlog: Option<seq<Item<E>>>,
    subscribers: seq<nat>,
    lines: map<nat, Line<E>>,
    targets: seq<nat>,       // iterators the publisher has still to call
    current: Item<E>)

  function Fresh<E>(): State<E> {
    State(Some([]), [], map[], [], End)
  }

  datatype Label<E> =
    | Publish(e: Item<E>)    // the part of `_publish` under the lock
    | Dispatch               // the publisher schedules the put on the next loop
    | RunCallback(i: nat)    // an iterator's loop runs the oldest scheduled put
    | Subscribe(i: nat)      // `events()` takes over the backlog and joins
    | Take(i: nat)           // `await queue.get()` returns; the closing marker ends the iterator at once
    | Unsubscribe(i: nat)    // the consumer closes the iterator

  /** There is one publisher, and it handles one event at a time; iterators have names of their own. */
  predicate Enabled<E>(s: State<E>, l: Label<E>) {
    match l
    case Publish(_) => s.targets == []
    case Dispatch => s.targets != [] && s.targets[0] in s.lines
    case RunCallback(i) => i in s.lines && s.lines[i].callbacks != []
    case Subscribe(i) => i !in s.lines
    case Take(i) => i in s.subscribers && i in s.lines && s.lines[i].queue != []
    case Unsubscribe(i) => i in s.subscribers
  }

  function Remove(s: seq<nat>, x: nat): seq<nat> {
    if s == [] then []
    else if s[0] == x then s[1..]
    else [s[0]] + Remove(s[1..], x)
  }

  function Step<E>(s: State<E>, l: Label<E>): State<E>
    requires Enabled(s, l)
  {
    match l
    case Publish(e) =>
      if s.subscribers != [] then s.(targets := s.subscribers, current := e)
      else if s.backlog.Some? then s.(backlog := Some(Push(s.backlog.value, e)))
      else s
    case Dispatch =>
      var i := s.targets[0];
      s.(targets := s.targets[1..], lines := s.lines[i := s.lines[i].(callbacks := s.lines[i].callbacks + [s.current])])
    case RunCallback(i) =>
      var line := s.lines[i];
      s.(lines := s.lines[i := Line(line.queue + [line.callbacks[0]], line.callbacks[1..])])
    case Subscribe(i) =>
      s.(backlog := None, subscribers := s.subscribers + [i],
         lines := s.lines[i := Line(if s.backlog.Some? then s.backlog.value else [], [])])
    case Take(i) =>
      s.(lines := s.lines[i := s.lines[i].(queue := s.lines[i].queue[1..])],
         subscribers := if s.lines[i].queue[0].End? then Remove(s.subscribers, i) else s.subscribers)
    case Unsubscribe(i) =>
      s.(subscribers := Remove(s.subscribers, i))
  }

  // ------------------------------------------------------------------- history

  /** One iterator's life: what it was handed on joining, the publications it covers, what it has taken. */
  datatype Life<E> = Life(handed: seq<Item<E>>, from: nat, until: Option<nat>, taken: seq<Item<E>>)

  datatype World<E> = World(hub: State<E>, published: seq<Item<E>>, lives: map<nat, Life<E>>, first: Option<nat>)

  function Begin<E>(): World<E> {
    World(Fresh(), [], map[], None)
  }

  /** A step together with what it adds to the history. */
  function Move<E>(w: World<E>, l: Label<E>): World<E>
    requires Enabled(w.hub, l)
  {
    var hub := Step(w.hub, l);
    match l
    case Publish(e) => w.(hub := hub, published := w.published + [e])
    case Subscribe(i) =>
      w.(hub := hub, lives := w.lives[i := Life(hub.lines[i].queue, |w.published|, None, [])],
         first := if w.first.None? then Some(i) else w.first)
    case Take(i) =>
      if i in w.lives then
        var item := w.hub.lines[i].queue[0];
        w.(hub := hub, lives := w.lives[i := w.lives[i].(taken := w.lives[i].taken + [item],
                                                         until := if item.End? then Some(|w.published|) else w.lives[i].until)])
      else w.(hub := hub)
    case Unsubscribe(i) =>
      if i in w.lives then w.(hub := hub, lives := w.lives[i := w.lives[i].(until := Some(|w.published|))])
      else w.(hub := hub)
    case _ => w.(hub := hub)
  }

  predicate Legal<E>(w: World<E>, labels: seq<Label<E>>)
    decreases |labels|
  {
    labels == [] || (Enabled(w.hub, labels[0]) && Legal(Move(w, labels[0]), labels[1..]))
  }

  function Run<E>(w: World<E>, labels: seq<Label<E>>): World<E>
    requires Legal(w, labels)
    decreases |labels|
  {
    if labels == [] then w else Run(Move(w, labels[0]), labels[1..])
  }

  lemma {:induction false} RunConcat<E>(w: World<E>, a: seq<Label<E>>, b: seq<Label<E>>)
    requires Legal(w, a) && Legal(Run(w, a), b)
    ensures Legal(w, a + b) && Run(w, a + b) == Run(Run(w, a), b)
    decreases |a|
  {
    if a == [] {
      assert a + b == b;
    } else {
      assert (a + b)[1..] == a[1..] + b;
      RunConcat(Move(w, a[0]), a[1..], b);
    }
  }

  lemma OneMore<E>(w: World<E>, labels: seq<Label<E>>, l: Label<E>)
    requires Legal(w, labels) && Enabled(Run(w, labels).hub, l)
    ensures Legal(w, labels + [l]) && Run(w, labels + [l]) == Move(Run(w, labels), l)
  {
    assert [l][1..] == [];
    RunConcat(w, labels, [l]);
  }

  function DispatchedAll<E>(s: State<E>): State<E>
    requires forall i :: i in s.targets ==> i in s.lines
    decreases |s.targets|
  {
    if s.targets == [] then s else DispatchedAll(Step(s, Dispatch))
  }

  function Covered<E>(life: Life<E>, published: nat): nat {
    match life.until
    case None => published
    case Some(n) => n
  }

  /** Everything an iterator is to receive of what has been published. */
  function Due<E>(life: Life<E>, published: seq<Item<E>>): seq<Item<E>>
    requires life.from <= Covered(life, |published|) <= |published|
  {
    life.handed + published[life.from..Covered(life, |published|)]
  }

  /** Published for iterator `i` and not yet taken, front first. */
  function Pipe<E>(s: State<E>, i: nat): seq<Item<E>>
    requires i in s.lines
  {
    s.lines[i].queue + s.lines[i].callbacks + if i in s.targets then [s.current] else []
  }

  ghost predicate Wf<E>(w: World<E>) {
    && w.hub.lines.Keys == w.lives.Keys
    && Distinct(w.hub.subscribers) && Distinct(w.hub.targets)
    && (forall i :: i in w.hub.subscribers ==> i in w.lives)
    && (forall i :: i in w.hub.targets ==> i in w.lives)
    && (forall i :: i in w.lives ==> (w.lives[i].until.None? <==> i in w.hub.subscribers))
    && (w.first.None? <==> w.lives == map[])
    && (w.first.Some? ==> w.first.value in w.lives)
    && w.hub.backlog == if w.first.None? then Some(Newest(w.published)) else None
  }

  /** What iterator `i` took and what is under way to it is exactly what it is due. */
  ghost predicate Delivers<E>(w: World<E>, i: nat)
    requires i in w.lives && i in w.hub.lines
  {
    var life := w.lives[i];
    && life.from <= Covered(life, |w.published|) <= |w.published|
    && life.handed == (if w.first == Some(i) then Newest(w.published[..life.from]) else [])
    && life.taken + Pipe(w.hub, i) == Due(life, w.published)
  }

  lemma {:induction false} RemoveHolds(s: seq<nat>, x: nat)
    requires Distinct(s)
    ensures Distinct(Remove(s, x))
    ensures forall y :: y in Remove(s, x) <==> y in s && y != x
    decreases |s|
  {
    if s != [] {
      var rest := s[1..];
      assert s == [s[0]] + rest && s[0] !in rest;
      if s[0] != x {
        RemoveHolds(rest, x);
        var r := Remove(rest, x);
        assert s[0] !in r;
        assert forall k :: 0 < k < |[s[0]] + r| ==> ([s[0]] + r)[k] == r[k - 1];
      }
    }
  }

  lemma WfStep<E>(w: World<E>, l: Label<E>)
    requires Enabled(w.hub, l) && Wf(w)
    ensures Wf(Move(w, l))
  {
    match l
    case Publish(e) =>
      PushNewest(w.published, e);
      assert w.hub.subscribers != [] ==> w.hub.subscribers[0] in w.hub.subscribers;
    case Dispatch => DistinctTail(w.hub.targets);
    case Subscribe(i) => DistinctPush(w.hub.subscribers, i);
    case Take(i) => RemoveHolds(w.hub.subscribers, i);
    case Unsubscribe(i) => RemoveHolds(w.hub.subscribers, i);
    case _ =>
  }

  lemma DeliversStep<E>(w: World<E>, l: Label<E>, i: nat)
    requires Enabled(w.hub, l) && Wf(w) && Wf(Move(w, l)) && i in w.lives && Delivers(w, i)
    ensures Delivers(Move(w, l), i)
  {
    match l
    case Publish(e) => DeliversPublish(w, e, i);
    case Dispatch => PipeDispatch(w.hub, i);
    case RunCallback(j) => PipeCallback(w.hub, j, i);
    case Subscribe(j) =>
    case Take(j) => DeliversTake(w, j, i);
    case Unsubscribe(j) => assert Pipe(Move(w, l).hub, i) == Pipe(w.hub, i);
  }

  lemma PipeDispatch<E>(s: State<E>, i: nat)
    requires Enabled(s, Dispatch) && Distinct(s.targets) && i in s.lines
    ensures Pipe(Step(s, Dispatch), i) == Pipe(s, i)
  {
    DistinctTail(s.targets);
    var line := s.lines[i];
    assert line.queue + (line.callbacks + [s.current]) + [] == line.queue + line.callbacks + [s.current];
  }

  lemma PipeCallback<E>(s: State<E>, j: nat, i: nat)
    requires Enabled(s, RunCallback(j)) && i in s.lines
    ensures Pipe(Step(s, RunCallback(j)), i) == Pipe(s, i)
  {
    var line := s.lines[j];
    assert line.queue + [line.callbacks[0]] + line.callbacks[1..] == line.queue + line.callbacks;
  }

  lemma PipeTake<E>(s: State<E>, j: nat, i: nat)
    requires Enabled(s, Take(j)) && i in s.lines
    ensures (if i == j then [s.lines[j].queue[0]] else []) + Pipe(Step(s, Take(j)), i) == Pipe(s, i)
  {
    assert [s.lines[j].queue[0]] + s.lines[j].queue[1..] == s.lines[j].queue;
  }

  lemma DeliversTake<E>(w: World<E>, j: nat, i: nat)
    requires Enabled(w.hub, Take(j)) && Wf(w) && i in w.lives && Delivers(w, i)
    ensures Delivers(Move(w, Take(j)), i)
  {
    PipeTake(w.hub, j, i);
    var rest := Pipe(Step(w.hub, Take(j)), i);
    if i == j {
      var x := w.hub.lines[i].queue[0];
      assert w.lives[i].taken + ([x] + rest) == w.lives[i].taken + [x] + rest;
    } else {
      assert [] + rest == rest;
    }
  }

  lemma PipePublish<E>(s: State<E>, e: Item<E>, i: nat)
    requires Enabled(s, Publish(e)) && i in s.lines
    ensures Pipe(Step(s, Publish(e)), i) == Pipe(s, i) + if i in s.subscribers then [e] else []
  {
    var line := s.lines[i];
    assert line.queue + line.callbacks + [] == line.queue + line.callbacks;
    assert Pipe(s, i) + [] == Pipe(s, i);
  }

  /** A publication is due to a reader and to no one who has ended. */
  lemma DueGrows<E>(life: Life<E>, published: seq<Item<E>>, e: Item<E>)
    requires life.from <= Covered(life, |published|) <= |published|
    ensures life.from <= Covered(life, |published + [e]|) <= |published + [e]|
    ensures Due(life, published + [e]) == Due(life, published) + if life.until.None? then [e] else []
  {
    var more := published + [e];
    if life.until.None? {
      assert more[life.from..|more|] == published[life.from..|published|] + [e];
      assert life.handed + (published[life.from..|published|] + [e]) == life.handed + published[life.from..|published|] + [e];
    } else {
      assert more[life.from..life.until.value] == published[life.from..life.until.value];
      assert Due(life, published) + [] == Due(life, published);
    }
  }

  lemma DeliversPublish<E>(w: World<E>, e: Item<E>, i: nat)
    requires Enabled(w.hub, Publish(e)) && Wf(w) && i in w.lives && Delivers(w, i)
    ensures Delivers(Move(w, Publish(e)), i)
  {
    var life, more := w.lives[i], if i in w.hub.subscribers then [e] else [];
    PipePublish(w.hub, e, i);
    DueGrows(life, w.published, e);
    assert (w.published + [e])[..life.from] == w.published[..life.from];
    assert life.taken + (Pipe(w.hub, i) + more) == life.taken + Pipe(w.hub, i) + more;
  }

  lemma DeliversOnJoin<E>(w: World<E>, i: nat)
    requires Enabled(w.hub, Subscribe(i)) && Wf(w)
    ensures Delivers(Move(w, Subscribe(i)), i)
  {
    assert w.published[..|w.published|] == w.published;
    assert i !in w.hub.targets;
  }

  lemma {:induction false} DeliversRun<E>(w: World<E>, labels: seq<Label<E>>)
    requires Legal(w, labels) && Wf(w) && forall i :: i in w.lives ==> Delivers(w, i)
    ensures var w' := Run(w, labels);
            Wf(w') && forall i :: i in w'.lives ==> Delivers(w', i)
    decreases |labels|
  {
    if labels != [] {
      var l, w1 := labels[0], Move(w, labels[0]);
      WfStep(w, l);
      forall i | i in w1.lives ensures Delivers(w1, i) {
        if i in w.lives {
          DeliversStep(w, l, i);
        } else {
          DeliversOnJoin(w, i);
        }
      }
      DeliversRun(w1, labels[1..]);
    }
  }

  /**
    The hand-over, on every interleaving: the first iterator has taken, has waiting
    or has coming the newest 512 events from before it joined and then every later
    one, in order and once; any later iterator, every event from when it joined.
  */
  lemma HandOver<E>(labels: seq<Label<E>>, i: nat)
    requires Legal(Begin<E>(), labels) && i in Run(Begin<E>(), labels).lives
    ensures var w := Run(Begin<E>(), labels);
            i in w.hub.lines && w.lives[i].from <= |w.published|
            && (i in w.hub.subscribers ==>
                  w.lives[i].taken + Pipe(w.hub, i)
                  == (if w.first == Some(i) then Newest(w.published[..w.lives[i].from]) else []) + w.published[w.lives[i].from..])
  {
    DeliversRun(Begin<E>(), labels);
    Unfinished(Run(Begin<E>(), labels), i);
  }

  lemma Unfinished<E>(w: World<E>, i: nat)
    requires Wf(w) && i in w.lives && Delivers(w, i)
    ensures w.lives[i].from <= |w.published|
    ensures i in w.hub.subscribers ==>
              w.lives[i].taken + Pipe(w.hub, i)
              == (if w.first == Some(i) then Newest(w.published[..w.lives[i].from]) else []) + w.published[w.lives[i].from..]
  {
    if i in w.hub.subscribers {
      assert w.published[w.lives[i].from..|w.published|] == w.published[w.lives[i].from..];
    }
  }

  // ----------------------------------------------------------- the closing marker

  /** The connection published this and then closed. */
  ghost predicate Ended<E>(published: seq<Item<E>>) {
    && published != [] && published[|published| - 1] == End
    && forall k :: 0 <= k < |published| - 1 ==> published[k] != End
  }

  ghost predicate LastAndOnce<E>(items: seq<Item<E>>) {
    && items != [] && items[|items| - 1] == End
    && forall k :: 0 <= k < |items| - 1 ==> items[k] != End
  }

  /** The publications that a reader misses, evicted from the backlog or made before it joined. */
  function Missed<E>(life: Life<E>, isFirst: bool): nat {
    if !isFirst then life.from else if life.from > BACKLOG then life.from - BACKLOG else 0
  }

  /** In what a reader is due, the marker stands last and once, or nothing is due at all. */
  lemma MarkerReaches<E>(life: Life<E>, published: seq<Item<E>>, isFirst: bool)
    requires Ended(published) && life.from <= |published| && life.until.None?
    requires life.handed == if isFirst then Newest(published[..life.from]) else []
    ensures var due := Due(life, published);
            && (End in due <==> life.from < |published| || isFirst)
            && (End in due ==> LastAndOnce(due))
            && (End !in due ==> due == [])
  {
    DueIsSuffix(life, published, isFirst);
    SuffixEnds(published, Missed(life, isFirst));
    assert Missed(life, isFirst) == |published| <==> !(life.from < |published| || isFirst);
  }

  /** What a reader is due is the publications from some point on. */
  lemma DueIsSuffix<E>(life: Life<E>, published: seq<Item<E>>, isFirst: bool)
    requires life.from <= |published| && life.until.None?
    requires life.handed == if isFirst then Newest(published[..life.from]) else []
    ensures Due(life, published) == published[Missed(life, isFirst)..]
  {
  }

  lemma SuffixEnds<E>(published: seq<Item<E>>, n: nat)
    requires Ended(published) && n <= |published|
    ensures published[n..] == [] <==> n == |published|
    ensures published[n..] != [] ==> End in published[n..] && LastAndOnce(published[n..])
  {
    var due := published[n..];
    assert forall k :: 0 <= k < |due| ==> due[k] == published[n + k];
  }

  /** An iterator that has taken the marker has ended, and took nothing after it. */
  ghost predicate Stops<E>(life: Life<E>) {
    forall k :: 0 <= k < |life.taken| && life.taken[k] == End ==> k == |life.taken| - 1 && life.until.Some?
  }

  lemma StopsStep<E>(w: World<E>, l: Label<E>, i: nat)
    requires Enabled(w.hub, l) && Wf(w) && i in w.lives && Stops(w.lives[i])
    ensures i in Move(w, l).lives && Stops(Move(w, l).lives[i])
    ensures Move(w, l).lives[i].from == w.lives[i].from && Move(w, l).lives[i].handed == w.lives[i].handed
    ensures w.first.Some? ==> Move(w, l).first == w.first
    ensures w.lives[i].until.Some? ==> Move(w, l).lives[i].taken == w.lives[i].taken
  {
  }

  lemma {:induction false} StopsRun<E>(w: World<E>, labels: seq<Label<E>>)
    requires Legal(w, labels) && Wf(w) && forall i :: i in w.lives ==> Stops(w.lives[i])
    ensures forall i :: i in Run(w, labels).lives ==> Stops(Run(w, labels).lives[i])
    decreases |labels|
  {
    if labels != [] {
      var l, w1 := labels[0], Move(w, labels[0]);
      WfStep(w, l);
      forall i | i in w1.lives ensures Stops(w1.lives[i]) {
        if i in w.lives {
          StopsStep(w, l, i);
        }
      }
      StopsRun(w1, labels[1..]);
    }
  }

  /** What a run leaves of an iterator: its start stays, and once it has ended it takes no more. */
  lemma {:induction false} LifeKept<E>(w: World<E>, labels: seq<Label<E>>, i: nat)
    requires Legal(w, labels) && Wf(w) && i in w.lives
    ensures var w' := Run(w, labels);
            && i in w'.lives && w'.lives[i].from == w.lives[i].from && w'.lives[i].handed == w.lives[i].handed
            && w'.first == w.first
            && (w.lives[i].until.Some? ==> w'.lives[i].until.Some? && w'.lives[i].taken == w.lives[i].taken)
    decreases |labels|
  {
    if labels != [] {
      WfStep(w, labels[0]);
      LifeKept(Move(w, labels[0]), labels[1..], i);
    }
  }

  /** What Wf, Delivers and Stops give at the end of any run. */
  lemma AnyRun<E>(labels: seq<Label<E>>)
    requires Legal(Begin<E>(), labels)
    ensures var w := Run(Begin<E>(), labels);
            Wf(w) && forall i :: i in w.lives ==> Delivers(w, i) && Stops(w.lives[i])
  {
    DeliversRun(Begin<E>(), labels);
    StopsRun(Begin<E>(), labels);
  }

  /**
    The marker is never evicted: on every run that ends with the close, it is on
    its way to a reading iterator, last and once, exactly when that iterator joined
    before the close or was the first to join. To any other nothing is on its way.
  */
  lemma MarkerArrives<E>(labels: seq<Label<E>>, i: nat)
    requires Legal(Begin<E>(), labels) && Ended(Run(Begin<E>(), labels).published)
    requires i in Run(Begin<E>(), labels).hub.subscribers
    ensures var w := Run(Begin<E>(), labels);
            && i in w.lives && i in w.hub.lines
            && var pipe := Pipe(w.hub, i);
               && (End in pipe <==> w.lives[i].from < |w.published| || w.first == Some(i))
               && (End in pipe ==> LastAndOnce(pipe))
               && (End !in pipe ==> pipe == [] && w.lives[i].taken == [])
  {
    AnyRun(labels);
    var w := Run(Begin<E>(), labels);
    var life, pipe := w.lives[i], Pipe(w.hub, i);
    MarkerReaches(life, w.published, w.first == Some(i));
    var due := Due(life, w.published);
    assert due == life.taken + pipe;
    if End in due {
      EndIsInTheRest(life.taken, pipe);
    }
  }

  lemma EndIsInTheRest<E>(taken: seq<Item<E>>, pipe: seq<Item<E>>)
    requires LastAndOnce(taken + pipe) && End !in taken
    ensures LastAndOnce(pipe)
  {
    var all := taken + pipe;
    assert pipe == [] ==> all == taken;
    assert all[|all| - 1] == pipe[|pipe| - 1];
    assert forall k :: 0 <= k < |pipe| ==> pipe[k] == all[|taken| + k];
  }

  /**
    It ends the iterator, which by then has yielded all it was due; nothing on any
    continuation adds to that.
  */
  lemma MarkerEnds<E>(labels: seq<Label<E>>, more: seq<Label<E>>, i: nat)
    requires Legal(Begin<E>(), labels) && Legal(Run(Begin<E>(), labels), more)
    requires Ended(Run(Begin<E>(), labels).published)
    requires i in Run(Begin<E>(), labels).lives && End in Run(Begin<E>(), labels).lives[i].taken
    ensures var w, w' := Run(Begin<E>(), labels), Run(Run(Begin<E>(), labels), more);
            var life := w.lives[i];
            && life.from <= |w.published|
            && life.taken == (if w.first == Some(i) then Newest(w.published[..life.from]) else []) + w.published[life.from..]
            && LastAndOnce(life.taken)
            && i !in w'.hub.subscribers && i in w'.lives && w'.lives[i].taken == life.taken
  {
    AnyRun(labels);
    var w := Run(Begin<E>(), labels);
    assert Delivers(w, i) && Stops(w.lives[i]);
    MarkerTaken(w.lives[i], w.published, Pipe(w.hub, i), w.first == Some(i));
    EndedForGood(w, more, i);
  }

  lemma EndedForGood<E>(w: World<E>, more: seq<Label<E>>, i: nat)
    requires Legal(w, more) && Wf(w) && i in w.lives && w.lives[i].until.Some?
    requires forall j :: j in w.lives ==> Delivers(w, j)
    ensures var w' := Run(w, more);
            i !in w'.hub.subscribers && i in w'.lives && w'.lives[i].taken == w.lives[i].taken
  {
    LifeKept(w, more, i);
    DeliversRun(w, more);
  }

  /** A reader that has taken the marker has taken everything up to it. */
  lemma MarkerTaken<E>(life: Life<E>, published: seq<Item<E>>, pipe: seq<Item<E>>, isFirst: bool)
    requires Ended(published) && life.from <= Covered(life, |published|) <= |published|
    requires life.handed == if isFirst then Newest(published[..life.from]) else []
    requires life.taken + pipe == Due(life, published) && End in life.taken
    ensures life.taken == life.handed + published[life.from..] && LastAndOnce(life.taken)
  {
    var open, n := life.(until := None), Covered(life, |published|);
    DueAndTheRest(life, published);
    MarkerReaches(open, published, isFirst);
    TakenIsAll(life.taken, pipe, published[n..], Due(open, published));
  }

  lemma DueAndTheRest<E>(life: Life<E>, published: seq<Item<E>>)
    requires life.from <= Covered(life, |published|) <= |published|
    ensures Due(life.(until := None), published) == life.handed + published[life.from..]
    ensures Due(life.(until := None), published) == Due(life, published) + published[Covered(life, |published|)..]
  {
    var n := Covered(life, |published|);
    assert published[life.from..|published|] == published[life.from..];
    assert published[life.from..] == published[life.from..n] + published[n..];
  }

  lemma TakenIsAll<E>(taken: seq<Item<E>>, pipe: seq<Item<E>>, rest: seq<Item<E>>, all: seq<Item<E>>)
    requires all == taken + pipe + rest && (End in all ==> LastAndOnce(all)) && End in taken
    ensures taken == all && LastAndOnce(taken)
  {
    var n :| 0 <= n < |taken| && taken[n] == End;
    assert all[n] == End;
    assert n == |all| - 1;
  }

  predicate NoPublish<E>(labels: seq<Label<E>>) {
    forall n :: 0 <= n < |labels| ==> !labels[n].Publish?
  }

  lemma {:induction false} PublishedKept<E>(w: World<E>, labels: seq<Label<E>>)
    requires Legal(w, labels) && NoPublish(labels)
    ensures Run(w, labels).published == w.published
    decreases |labels|
  {
    if labels != [] {
      PublishedKept(Move(w, labels[0]), labels[1..]);
    }
  }

  /** An iterator that joins after the last publication, and is not the first, gets nothing, ever. */
  lemma LateIteratorWaits<E>(labels: seq<Label<E>>, more: seq<Label<E>>, i: nat)
    requires Legal(Begin<E>(), labels) && Legal(Run(Begin<E>(), labels), more) && NoPublish(more)
    requires var w := Run(Begin<E>(), labels);
             i in w.lives && w.lives[i].from == |w.published| && w.first != Some(i)
    ensures var w := Run(Run(Begin<E>(), labels), more);
            i in w.lives && i in w.hub.lines && w.lives[i].taken == [] && Pipe(w.hub, i) == []
  {
    var w := Run(Begin<E>(), labels);
    AnyRun(labels);
    LifeKept(w, more, i);
    PublishedKept(w, more);
    DeliversRun(w, more);
    assert Due(Run(w, more).lives[i], w.published) == [];
  }

  /** Such an iterator exists: the second one, opened after the close. */
  lemma LateIterator<E>(more: seq<Label<E>>)
    ensures var labels: seq<Label<E>> := [Subscribe(0), Publish(End), Dispatch, Subscribe(1)];
            && Legal(Begin<E>(), labels)
            && var w := Run(Begin<E>(), labels);
               && Ended(w.published) && 1 in w.hub.subscribers && 1 in w.lives
               && (Legal(w, more) && NoPublish(more) ==>
                     var w' := Run(w, more);
                     1 in w'.lives && 1 in w'.hub.lines && w'.lives[1].taken == [] && Pipe(w'.hub, 1) == [])
  {
    var labels: seq<Label<E>> := [Subscribe(0), Publish(End), Dispatch, Subscribe(1)];
    var w0 := Begin<E>();
    var two: seq<Label<E>> := [Subscribe(0)] + [Publish(End)];
    OneMore(w0, [], Subscribe(0));
    OneMore(w0, [Subscribe(0)], Publish(End));
    OneMore(w0, two, Dispatch);
    OneMore(w0, two + [Dispatch], Subscribe(1));
    assert labels == two + [Dispatch] + [Subscribe(1)];
    if Legal(Run(w0, labels), more) && NoPublish(more) {
      LateIteratorWaits(labels, more, 1);
    }
  }

  // ----------------------------------------------------------------- progress

  /** A step that moves what has been published towards iterator `i`. */
  predicate MovesFor<E>(l: Label<E>, i: nat) {
    l.Dispatch? || l == RunCallback(i) || l == Take(i)
  }

  predicate MovesOnlyFor<E>(labels: seq<Label<E>>, i: nat) {
    forall n :: 0 <= n < |labels| ==> MovesFor(labels[n], i)
  }

  /** What is still to be done for `i`: three moves for each call to make, two for a scheduled put, one for a queued event. */
  function Work<E>(s: State<E>, i: nat): nat
    requires i in s.lines
  {
    3 * |s.targets| + 2 * |s.lines[i].callbacks| + |s.lines[i].queue|
  }

  lemma MoveWorks<E>(w: World<E>, l: Label<E>, i: nat)
    requires Enabled(w.hub, l) && Wf(w) && i in w.lives && MovesFor(l, i)
    ensures i in Move(w, l).lives && Work(Move(w, l).hub, i) < Work(w.hub, i)
    ensures Move(w, l).published == w.published
  {
  }

  lemma {:induction false} MovesAreBounded<E>(w: World<E>, labels: seq<Label<E>>, i: nat)
    requires Legal(w, labels) && Wf(w) && i in w.lives && MovesOnlyFor(labels, i)
    ensures |labels| <= Work(w.hub, i) && Run(w, labels).published == w.published
    decreases |labels|
  {
    if labels != [] {
      MoveWorks(w, labels[0], i);
      WfStep(w, labels[0]);
      assert forall n :: 0 <= n < |labels[1..]| ==> labels[1..][n] == labels[n + 1];
      MovesAreBounded(Move(w, labels[0]), labels[1..], i);
    }
  }

  predicate NoMoveLeft<E>(s: State<E>, i: nat) {
    !Enabled(s, Dispatch) && !Enabled(s, RunCallback(i)) && !Enabled(s, Take(i))
  }

  /** Nothing is under way to a reader when no move is left for it. */
  lemma NothingUnderWay<E>(w: World<E>, i: nat)
    requires Wf(w) && i in w.hub.subscribers && NoMoveLeft(w.hub, i)
    ensures Pipe(w.hub, i) == []
  {
    TargetsAreKnown(w);
  }

  lemma TargetsAreKnown<E>(w: World<E>)
    requires Wf(w)
    ensures w.hub.targets != [] ==> w.hub.targets[0] in w.hub.lines
  {
    if w.hub.targets != [] {
      assert w.hub.targets[0] in w.hub.targets;
    }
  }

  /**
    What is published arrives: after any run, when no more is published, the moves
    that carry it to iterator `i` are bounded, and once none is left, a reader has
    taken all it is due: the newest 512 of before it joined, if it was the first, and
    everything published since. If the close is among it, the iterator has ended.
  */
  lemma EverythingArrives<E>(before: seq<Label<E>>, moves: seq<Label<E>>, i: nat)
    requires Legal(Begin<E>(), before) && i in Run(Begin<E>(), before).lives
    requires Legal(Run(Begin<E>(), before), moves) && MovesOnlyFor(moves, i)
    ensures i in Run(Begin<E>(), before).hub.lines && |moves| <= Work(Run(Begin<E>(), before).hub, i)
    ensures var w, end := Run(Begin<E>(), before), Run(Run(Begin<E>(), before), moves);
            && i in end.lives && end.published == w.published && end.lives[i].from <= |w.published|
            && (NoMoveLeft(end.hub, i) && i in end.hub.subscribers ==>
                  end.lives[i].taken
                  == (if end.first == Some(i) then Newest(w.published[..end.lives[i].from]) else []) + w.published[end.lives[i].from..])
            && (NoMoveLeft(end.hub, i) && Ended(w.published) && (end.lives[i].from < |w.published| || end.first == Some(i)) ==>
                  i !in end.hub.subscribers)
  {
    AnyRun(before);
    MovesAreBounded(Run(Begin<E>(), before), moves, i);
    RunConcat(Begin<E>(), before, moves);
    LifeKept(Run(Begin<E>(), before), moves, i);
    Arrived(before + moves, i);
  }

  lemma Arrived<E>(labels: seq<Label<E>>, i: nat)
    requires Legal(Begin<E>(), labels) && i in Run(Begin<E>(), labels).lives
    ensures var end := Run(Begin<E>(), labels);
            && end.lives[i].from <= |end.published|
            && (NoMoveLeft(end.hub, i) && i in end.hub.subscribers ==>
                  end.lives[i].taken
                  == (if end.first == Some(i) then Newest(end.published[..end.lives[i].from]) else [])
                     + end.published[end.lives[i].from..])
            && (NoMoveLeft(end.hub, i) && Ended(end.published) && (end.lives[i].from < |end.published| || end.first == Some(i)) ==>
                  i !in end.hub.subscribers)
  {
    AnyRun(labels);
    HandOver(labels, i);
    var end := Run(Begin<E>(), labels);
    if NoMoveLeft(end.hub, i) && i in end.hub.subscribers {
      NothingUnderWay(end, i);
      if Ended(end.published) {
        MarkerArrives(labels, i);
      }
    }
  }

  // ------------------------------------------------------------- the publisher

  /** The client's fields, with the run they have followed so far. */
  class Hub<E> {
    var backlog: Option<seq<Item<E>>>
    var subscribers: seq<nat>
    var lines: map<nat, Line<E>>
    var targets: seq<nat>
    var current: Item<E>
    ghost var labels: seq<Label<E>>
    ghost var w: World<E>

    ghost function Abs(): State<E>
      reads this
    {
      State(backlog, subscribers, lines, targets, current)
    }

    ghost predicate History()
      reads `labels, `w
    {
      && Legal(Begin<E>(), labels) && Run(Begin<E>(), labels) == w
      && forall i :: i in w.hub.targets ==> i in w.hub.lines
    }

    ghost predicate Valid()
      reads this
    {
      History() && w.hub == Abs()
    }

    constructor ()
      ensures Valid() && w == Begin()
    {
      backlog, subscribers, lines, targets, current := Some([]), [], map[], [], End;
      labels, w := [], Begin();
    }

    ghost method Book(l: Label<E>)
      requires History() && Enabled(w.hub, l)
      modifies this`labels, this`w
      ensures History() && labels == old(labels) + [l] && w == Move(old(w), l)
    {
      OneMore(Begin<E>(), labels, l);
      labels, w := labels + [l], Move(w, l);
      AnyRun(labels);
    }

    method PublishLocked(e: Item<E>)
      requires Valid() && targets == []
      modifies this
      ensures Valid() && w == Move(old(w), Publish(e))
    {
      Book(Publish(e));
      if subscribers == [] {
        if backlog.Some? {
          backlog := Some(Push(backlog.value, e));
        }
        return;
      }
      targets := subscribers;
      current := e;
    }

    /** The loop of `_publish`: one scheduled put per iterator that was subscribed under the lock. */
    method DispatchAll()
      requires Valid()
      modifies this
      ensures Valid() && targets == [] && Abs() == DispatchedAll(old(Abs()))
      ensures w == old(w).(hub := w.hub)
    {
      while targets != []
        invariant Valid() && w == old(w).(hub := w.hub)
        invariant DispatchedAll(old(Abs())) == DispatchedAll(Abs())
        decreases |targets|
      {
        Book(Dispatch);
        var i := targets[0];
        lines := lines[i := lines[i].(callbacks := lines[i].callbacks + [current])];
        targets := targets[1..];
      }
    }

    method Put(i: nat)
      requires Valid() && Enabled(Abs(), RunCallback(i))
      modifies this
      ensures Valid() && w == Move(old(w), RunCallback(i))
    {
      Book(RunCallback(i));
      var line := lines[i];
      lines := lines[i := Line(line.queue + [line.callbacks[0]], line.callbacks[1..])];
    }

    method Join(i: nat)
      requires Valid() && i !in lines
      modifies this
      ensures Valid() && w == Move(old(w), Subscribe(i))
    {
      Book(Subscribe(i));
      var pending := if backlog.Some? then backlog.value else [];
      backlog := None;
      lines := lines[i := Line(pending, [])];
      subscribers := subscribers + [i];
    }

    /** One turn of the iterator: the closing marker ends it, anything else is yielded. */
    method Next(i: nat) returns (event: Option<E>)
      requires Valid() && Enabled(Abs(), Take(i))
      modifies this
      ensures Valid() && w == Move(old(w), Take(i))
      ensures old(lines)[i].queue[0] == if event.Some? then Event(event.value) else End
    {
      Book(Take(i));
      var item := lines[i].queue[0];
      lines := lines[i := lines[i].(queue := lines[i].queue[1..])];
      if item.End? {
        subscribers := Remove(subscribers, i);
        return None;
      }
      event := Some(item.event);
    }

    /** The consumer stops early. */
    method Leave(i: nat)
      requires Valid() && i in subscribers
      modifies this
      ensures Valid() && w == Move(old(w), Unsubscribe(i))
    {
      Book(Unsubscribe(i));
      subscribers := Remove(subscribers, i);
    }

    /** When no move is left for a reader, it has taken all it is due. */
    lemma Complete(i: nat)
      requires Valid() && i in subscribers && NoMoveLeft(Abs(), i)
      ensures i in w.lives && w.lives[i].from <= |w.published|
      ensures w.lives[i].taken
              == (if w.first == Some(i) then Newest(w.published[..w.lives[i].from]) else []) + w.published[w.lives[i].from..]
      ensures Ended(w.published) ==> w.lives[i].from == |w.published| && w.first != Some(i)
    {
      AnyRun(labels);
      Arrived(labels, i);
    }

    /** The hand-over and the fate of the marker, of the object itself at any time, for iterators reading or ended. */
    lemma Received(i: nat)
      requires Valid() && i in w.lives
      ensures i in lines && w.lives[i].from <= Covered(w.lives[i], |w.published|) <= |w.published|
      ensures w.lives[i].taken + Pipe(Abs(), i)
              == (if w.first == Some(i) then Newest(w.published[..w.lives[i].from]) else [])
                 + w.published[w.lives[i].from..Covered(w.lives[i], |w.published|)]
      ensures i in subscribers <==> w.lives[i].until.None?
      ensures Ended(w.published) && i in subscribers ==>
                (End in Pipe(Abs(), i) <==> w.lives[i].from < |w.published| || w.first == Some(i))
      ensures Ended(w.published) && End in w.lives[i].taken ==>
                i !in subscribers
                && w.lives[i].taken == (if w.first == Some(i) then Newest(w.published[..w.lives[i].from]) else [])
                                       + w.published[w.lives[i].from..]
    {
      AnyRun(labels);
      assert Delivers(w, i);
      if Ended(w.published) && i in subscribers {
        MarkerArrives(labels, i);
      }
      if Ended(w.published) && End in w.lives[i].taken {
        MarkerEnds(labels, [], i);
      }
    }
  }
}
