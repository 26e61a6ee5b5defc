/**
  The paced sender as a state machine over single operations. Frames are named by
  their number in the encoder's output. The clock is monotone but otherwise
  adversarial: any wait and any send may last any time. No lock is held over the
  queue, so a producer on another thread may encode, append or clear between any
  two operations of a turn of the loop.
*/
module Pacer {

  import opened Sequences

  /** Nanoseconds per 20 ms frame. */
  const FRAME := 20_000_000

  const MAX_QUEUE := 500

  /** A frame taken from the queue: the slot it was given and the clock reading that decided it. */
  datatype Pick = Pick(frame: nat, slot: int, at: int)

  datatype Phase =
    | Off
    | Ready                 // about to sleep until the slot and read the clock
    | Dropping(left: nat)   // that many pops of the drop loop to come
    | Measuring             // about to test the length of the queue against the cap
    | Trimming              // saw too many, about to drop one
    | Testing               // about to test whether there is a frame
    | Popping               // saw one, about to take it
    | Filling               // saw none, about to encode silence
    | Sending               // suspended in ws.send
    | Idle                  // waiting for audio
    | Dead                  // popped from an empty queue
    | Closed

  datatype State = State(
    silence: bool,        // stream_silence
    phase: Phase,
    now: int,             // the last clock reading
    nextAt: int,
    emitted: nat,         // frames the encoder has produced
    pending: seq<nat>,    // encoded by the producer, not yet appended
    out: seq<nat>,        // the queue
    picks: seq<Pick>,     // sent, the last one still being sent in phase Sending
    late: seq<nat>,       // dropped by the sender
    cleared: seq<nat>)    // dropped by clear_queue

  datatype Label =
    | Encode(n: nat)   // the producer's encoder call returns n frames
    | Append           // the producer appends the next of them
    | Clear            // clear_queue empties the queue
    | Start(t: int)    // the send loop begins
    | Read(t: int)     // the sender reads the clock, realigns, and counts the frames to drop
    | Turn             // its next test or pop
    | Fill(n: nat)     // it encodes one frame of silence, which gives at most one wire frame
    | Sent             // ws.send returns
    | Wake(t: int)     // the idle wait ends
    | Lost             // ws.send raises: connection closed

  function Initial(silence: bool): State {
    State(silence, Off, 0, 0, 0, [], [], [], [], [])
  }

  function Range(from: nat, n: nat): seq<nat> {
    seq(n, i requires 0 <= i < n => from + i)
  }

  function Min(a: int, b: int): int {
    if a < b then a else b
  }

  predicate Turning(p: Phase) {
    p.Dropping? || p.Measuring? || p.Trimming? || p.Testing? || p.Popping?
  }

  predicate Enabled(s: State, l: Label) {
    match l
    case Encode(_) => s.pending == []
    case Append => s.pending != []
    case Clear => true
    case Start(t) => s.phase == Off && s.now <= t
    case Read(t) => s.phase == Ready && s.now <= t && s.nextAt <= t
    case Turn => Turning(s.phase)
    case Fill(n) => s.phase == Filling && n <= 1
    case Sent => s.phase == Sending
    case Wake(t) => s.phase == Idle && s.now <= t
    case Lost => s.phase == Sending
  }

  /**
    The slots missed are skipped; as many frames, if there are, are to be dropped.
    The schedule is the loop's own, so that it moves here and not after the drops
    cannot be seen from outside.
  */
  function ReadStep(s: State, t: int): State
    requires s.nextAt <= t
  {
    var behind := (t - s.nextAt) / FRAME;
    s.(now := t, nextAt := s.nextAt + behind * FRAME, phase := Dropping(Min(behind, |s.out|)))
  }

  /** `popleft` in one of the drop loops. */
  function Drop(s: State, next: Phase): State {
    if s.out == [] then s.(phase := Dead)
    else s.(out := s.out[1..], late := s.late + [s.out[0]], phase := next)
  }

  /** The front of the queue takes the slot. */
  function PickFront(s: State): State
    requires s.out != []
  {
    s.(out := s.out[1..], picks := s.picks + [Pick(s.out[0], s.nextAt, s.now)], phase := Sending)
  }

  function TurnStep(s: State): State
    requires Turning(s.phase)
  {
    match s.phase
    case Dropping(left) => if left == 0 then s.(phase := Measuring) else Drop(s, Dropping(left - 1))
    case Measuring => s.(phase := if |s.out| > MAX_QUEUE then Trimming else Testing)
    case Trimming => Drop(s, Measuring)
    case Testing => s.(phase := if s.out != [] then Popping else if s.silence then Filling else Idle)
    case Popping => if s.out == [] then s.(phase := Dead) else PickFront(s)
  }

  /** A fresh frame of silence takes the slot, or the slot passes unused. */
  function FillStep(s: State, n: nat): State {
    if n == 0 then s.(nextAt := s.nextAt + FRAME, phase := Ready)
    else s.(emitted := s.emitted + 1, picks := s.picks + [Pick(s.emitted, s.nextAt, s.now)], phase := Sending)
  }

  function Step(s: State, l: Label): State
    requires Enabled(s, l)
  {
    match l
    case Encode(n) => s.(emitted := s.emitted + n, pending := Range(s.emitted, n))
    case Append => s.(out := s.out + [s.pending[0]], pending := s.pending[1..])
    case Clear => s.(out := [], cleared := s.cleared + s.out)
    case Start(t) => s.(phase := Ready, now := t, nextAt := t)
    case Read(t) => ReadStep(s, t)
    case Turn => TurnStep(s)
    case Fill(n) => FillStep(s, n)
    case Sent => s.(phase := Ready, nextAt := s.nextAt + FRAME)
    case Wake(t) => s.(phase := Ready, now := t, nextAt := t)
    case Lost => s.(phase := Closed)
  }

  predicate Legal(s: State, labels: seq<Label>)
    decreases |labels|
  {
    labels == [] || (Enabled(s, labels[0]) && Legal(Step(s, labels[0]), labels[1..]))
  }

  function Run(s: State, labels: seq<Label>): State
    requires Legal(s, labels)
    decreases |labels|
  {
    if labels == [] then s else Run(Step(s, labels[0]), labels[1..])
  }

  lemma {:induction false} RunConcat(s: State, a: seq<Label>, b: seq<Label>)
    requires Legal(s, a)
    ensures Legal(s, a + b) <==> Legal(Run(s, a), b)
    ensures Legal(s, a + b) ==> Run(s, a + b) == Run(Run(s, a), b)
    decreases |a|
  {
    if a == [] {
      assert a + b == b;
    } else {
      assert (a + b)[1..] == a[1..] + b;
      RunConcat(Step(s, a[0]), a[1..], b);
    }
  }

  /** One step in front of a run whose outcome is known. */
  lemma OneMore(s: State, l: Label, next: State, rest: seq<Label>, end: State) returns (labels: seq<Label>)
    requires Enabled(s, l) && Step(s, l) == next && Legal(next, rest) && Run(next, rest) == end
    ensures Legal(s, labels) && Run(s, labels) == end && labels == [l] + rest
  {
    labels := [l] + rest;
    assert labels[1..] == rest;
  }

  // ------------------------------------------------------------------ order

  function Frames(picks: seq<Pick>): seq<nat> {
    seq(|picks|, i requires 0 <= i < |picks| => picks[i].frame)
  }

  /** Everything on its way to the wire, front first. */
  function Line(s: State): seq<nat> {
    Frames(s.picks) + s.out + s.pending
  }

  ghost predicate Ordered(s: State) {
    Increasing(Line(s)) && Below(Line(s), s.emitted)
  }

  /**
    The sender encodes silence of its own while frames wait that were encoded
    before it: held by a producer, or appended since the loop saw an empty queue.
  */
  predicate Race(s: State, l: Label) {
    l.Fill? && l.n > 0 && (s.out != [] || s.pending != [])
  }

  lemma IncreasingConcat(a: seq<nat>, b: seq<nat>, cut: nat)
    requires Increasing(a) && Increasing(b) && Below(a, cut)
    requires forall i :: 0 <= i < |b| ==> cut <= b[i]
    ensures Increasing(a + b)
  {
  }

  lemma FramesPush(picks: seq<Pick>, p: Pick)
    ensures Frames(picks + [p]) == Frames(picks) + [p.frame]
  {
  }

  lemma ExtendLine(s: State, n: nat)
    requires Ordered(s)
    ensures Increasing(Line(s) + Range(s.emitted, n)) && Below(Line(s) + Range(s.emitted, n), s.emitted + n)
  {
    IncreasingConcat(Line(s), Range(s.emitted, n), s.emitted);
  }

  lemma DropOrder(s: State, next: Phase)
    requires Ordered(s)
    ensures Ordered(Drop(s, next))
  {
    if s.out != [] {
      assert Line(s) == Frames(s.picks) + [s.out[0]] + (s.out[1..] + s.pending);
      IncreasingDrop(Frames(s.picks), [s.out[0]], s.out[1..] + s.pending, s.emitted);
      assert Line(Drop(s, next)) == Frames(s.picks) + (s.out[1..] + s.pending);
    }
  }

  lemma TurnOrder(s: State)
    requires Turning(s.phase) && Ordered(s)
    ensures Ordered(TurnStep(s))
  {
    match s.phase
    case Dropping(left) =>
      if left > 0 {
        DropOrder(s, Dropping(left - 1));
      }
    case Trimming => DropOrder(s, Measuring);
    case Popping =>
      if s.out != [] {
        FramesPush(s.picks, Pick(s.out[0], s.nextAt, s.now));
        assert Line(PickFront(s)) == Line(s);
      }
    case _ =>
  }

  lemma FillOrder(s: State)
    requires Ordered(s)
    ensures Ordered(FillStep(s, 1)) <==> s.out == [] && s.pending == []
  {
    var s', n := FillStep(s, 1), |s.picks|;
    FramesPush(s.picks, Pick(s.emitted, s.nextAt, s.now));
    assert Line(s')[n] == s.emitted;
    if s.out == [] && s.pending == [] {
      ExtendLine(s, 1);
      assert Line(s') == Line(s) + Range(s.emitted, 1);
    } else {
      assert Line(s')[n + 1] == Line(s)[n];
    }
  }

  /** Frames stay in encoder order across a step exactly when the step is no race. */
  lemma OrderStep(s: State, l: Label)
    requires Enabled(s, l) && Ordered(s)
    ensures Ordered(Step(s, l)) <==> !Race(s, l)
  {
    match l
    case Encode(n) =>
      ExtendLine(s, n);
      assert Line(Step(s, l)) == Line(s) + Range(s.emitted, n);
    case Append =>
      assert Line(Step(s, l)) == Line(s);
    case Clear =>
      IncreasingDrop(Frames(s.picks), s.out, s.pending, s.emitted);
      assert Line(Step(s, l)) == Frames(s.picks) + s.pending;
    case Turn => TurnOrder(s);
    case Fill(n) =>
      if n > 0 {
        FillOrder(s);
      } else {
        assert Line(Step(s, l)) == Line(s);
      }
    case _ =>
      assert Line(Step(s, l)) == Line(s);
  }

  predicate RaceFree(s: State, labels: seq<Label>)
    requires Legal(s, labels)
    decreases |labels|
  {
    labels == [] || (!Race(s, labels[0]) && RaceFree(Step(s, labels[0]), labels[1..]))
  }

  lemma {:induction false} RunSnoc(s: State, labels: seq<Label>, l: Label)
    requires Legal(s, labels) && Enabled(Run(s, labels), l)
    ensures Legal(s, labels + [l]) && Run(s, labels + [l]) == Step(Run(s, labels), l)
    ensures RaceFree(s, labels + [l]) <==> RaceFree(s, labels) && !Race(Run(s, labels), l)
    decreases |labels|
  {
    if labels == [] {
      assert labels + [l] == [l] && [l][1..] == [];
    } else {
      assert (labels + [l])[1..] == labels[1..] + [l];
      RunSnoc(Step(s, labels[0]), labels[1..], l);
    }
  }

  /** After the producer encoded `n` frames and appended the first `i` of them. */
  function Appending(s: State, n: nat, i: nat): State
    requires i <= n
  {
    s.(emitted := s.emitted + n, out := s.out + Range(s.emitted, i), pending := Range(s.emitted + i, n - i))
  }

  lemma AppendingStep(s: State, n: nat, i: nat)
    requires s.pending == []
    ensures Step(s, Encode(n)) == Appending(s, n, 0)
    ensures i < n ==> Enabled(Appending(s, n, i), Append) && Step(Appending(s, n, i), Append) == Appending(s, n, i + 1)
    ensures Appending(s, n, n).pending == []
  {
    assert s.out + Range(s.emitted, 0) == s.out;
    if i < n {
      var a := Appending(s, n, i);
      assert a.pending[1..] == Range(s.emitted + i + 1, n - i - 1);
      assert s.out + Range(s.emitted, i) + [s.emitted + i] == s.out + Range(s.emitted, i + 1);
    }
  }

  /** Every state of the run, its ends included, is in order. */
  ghost predicate OrderedThroughout(s: State, labels: seq<Label>)
    requires Legal(s, labels)
    decreases |labels|
  {
    Ordered(s) && (labels == [] || OrderedThroughout(Step(s, labels[0]), labels[1..]))
  }

  /** Over whole runs: order is kept all along if and only if there is no race, whatever the stalls, drops and clears. */
  lemma {:induction false} OrderRun(s: State, labels: seq<Label>)
    requires Legal(s, labels) && Ordered(s)
    ensures OrderedThroughout(s, labels) <==> RaceFree(s, labels)
    ensures RaceFree(s, labels) ==> Ordered(Run(s, labels))
    decreases |labels|
  {
    if labels != [] {
      OrderStep(s, labels[0]);
      if !Race(s, labels[0]) {
        OrderRun(Step(s, labels[0]), labels[1..]);
      }
    }
  }

  /** The loop has seen an empty queue; silence numbered 1 is encoded after frame 0, and sent. */
  function SilenceFirst(out: seq<nat>, pending: seq<nat>): State {
    State(true, Sending, 0, 0, 2, pending, out, [Pick(1, 0, 0)], [], [])
  }

  lemma SawEmpty() returns (labels: seq<Label>)
    ensures Legal(Initial(true), labels) && Run(Initial(true), labels) == State(true, Filling, 0, 0, 0, [], [], [], [], [])
  {
    var s := State(true, Ready, 0, 0, 0, [], [], [], [], []);
    var end := s.(phase := Filling);
    assert ReadStep(s, 0) == s.(phase := Dropping(0));
    labels := OneMore(s.(phase := Testing), Turn, end, [], end);
    labels := OneMore(s.(phase := Measuring), Turn, s.(phase := Testing), labels, end);
    labels := OneMore(s.(phase := Dropping(0)), Turn, s.(phase := Measuring), labels, end);
    labels := OneMore(s, Read(0), s.(phase := Dropping(0)), labels, end);
    labels := OneMore(Initial(true), Start(0), s, labels, end);
  }

  /** Frame 0, queued behind that silence, goes out one slot later. */
  lemma SpeechSecond() returns (labels: seq<Label>)
    ensures Legal(SilenceFirst([0], []), labels) && Frames(Run(SilenceFirst([0], []), labels).picks) == [1, 0]
  {
    var s0 := SilenceFirst([0], []);
    var s := s0.(phase := Ready, nextAt := FRAME);
    var r := s.(now := FRAME, phase := Measuring);
    assert ReadStep(s, FRAME) == r.(phase := Dropping(0));
    labels := TakesIt(r);
    var end := Run(r, labels);
    labels := OneMore(r.(phase := Dropping(0)), Turn, r, labels, end);
    labels := OneMore(s, Read(FRAME), r.(phase := Dropping(0)), labels, end);
    labels := OneMore(s0, Sent, s, labels, end);
  }

  lemma TakesIt(r: State) returns (labels: seq<Label>)
    requires r.phase == Measuring && r.out == [0] && Frames(r.picks) == [1]
    ensures Legal(r, labels) && Frames(Run(r, labels).picks) == [1, 0]
  {
    var end := PickFront(r);
    labels := OneMore(r.(phase := Popping), Turn, end, [], end);
    labels := OneMore(r.(phase := Testing), Turn, r.(phase := Popping), labels, end);
    labels := OneMore(r, Turn, r.(phase := Testing), labels, end);
    FramesPush(r.picks, Pick(0, r.nextAt, r.now));
  }

  /** Why a race matters, first form: the producer has encoded frame 0 and appends it only after the silence. */
  lemma HeldFrameOvertaken() returns (labels: seq<Label>)
    ensures Legal(Initial(true), labels) && Frames(Run(Initial(true), labels).picks) == [1, 0]
  {
    var s := State(true, Filling, 0, 0, 0, [], [], [], [], []);
    var s1 := s.(emitted := 1, pending := [0]);
    assert Range(0, 1) == [0];
    var before := SawEmpty();
    labels := SpeechSecond();
    var end := Run(SilenceFirst([0], []), labels);
    labels := OneMore(SilenceFirst([], [0]), Append, SilenceFirst([0], []), labels, end);
    labels := OneMore(s1, Fill(1), SilenceFirst([], [0]), labels, end);
    labels := OneMore(s, Encode(1), s1, labels, end);
    RunConcat(Initial(true), before, labels);
    labels := before + labels;
  }

  /** Second form: it has encoded and appended it, but after the loop's test of the queue. */
  lemma QueuedFrameOvertaken() returns (labels: seq<Label>)
    ensures Legal(Initial(true), labels) && Frames(Run(Initial(true), labels).picks) == [1, 0]
  {
    var s := State(true, Filling, 0, 0, 0, [], [], [], [], []);
    var s1 := s.(emitted := 1, pending := [0]);
    assert Range(0, 1) == [0];
    var before := SawEmpty();
    labels := SpeechSecond();
    var end := Run(SilenceFirst([0], []), labels);
    labels := OneMore(s1.(out := [0], pending := []), Fill(1), SilenceFirst([0], []), labels, end);
    labels := OneMore(s1, Append, s1.(out := [0], pending := []), labels, end);
    labels := OneMore(s, Encode(1), s1, labels, end);
    RunConcat(Initial(true), before, labels);
    labels := before + labels;
  }

  // -------------------------------------------------------------- accounting

  function Times(q: seq<nat>, id: nat): nat {
    if q == [] then 0 else Times(q[..|q| - 1], id) + if q[|q| - 1] == id then 1 else 0
  }

  lemma {:induction false} TimesConcat(a: seq<nat>, b: seq<nat>, id: nat)
    ensures Times(a + b, id) == Times(a, id) + Times(b, id)
    decreases |b|
  {
    if b == [] {
      assert a + b == a;
    } else {
      assert (a + b)[..|a + b| - 1] == a + b[..|b| - 1];
      TimesConcat(a, b[..|b| - 1], id);
    }
  }

  lemma TimesSplit(q: seq<nat>, n: nat, id: nat)
    requires n <= |q|
    ensures Times(q, id) == Times(q[..n], id) + Times(q[n..], id)
  {
    assert q == q[..n] + q[n..];
    TimesConcat(q[..n], q[n..], id);
  }

  lemma {:induction false} TimesRange(from: nat, n: nat, id: nat)
    ensures Times(Range(from, n), id) == if from <= id < from + n then 1 else 0
  {
    if n > 0 {
      assert Range(from, n)[..n - 1] == Range(from, n - 1);
      TimesRange(from, n - 1, id);
    }
  }

  lemma TimesPick(picks: seq<Pick>, p: Pick, id: nat)
    ensures Times(Frames(picks + [p]), id) == Times(Frames(picks), id) + if p.frame == id then 1 else 0
  {
    FramesPush(picks, p);
    TimesConcat(Frames(picks), [p.frame], id);
  }

  /** How many places hold frame `id`. */
  function Places(s: State, id: nat): nat {
    Times(Frames(s.picks), id) + Times(s.pending, id) + Times(s.out, id) + Times(s.late, id) + Times(s.cleared, id)
  }

  ghost predicate Accounted(s: State, id: nat) {
    Places(s, id) == if id < s.emitted then 1 else 0
  }

  /** Dropping the front of the queue moves it to the late ones. */
  lemma DropPlaces(s: State, next: Phase, id: nat)
    ensures Places(Drop(s, next), id) == Places(s, id)
  {
    if s.out != [] {
      TimesSplit(s.out, 1, id);
      assert s.out[..1] == [s.out[0]];
      TimesConcat(s.late, [s.out[0]], id);
    }
  }

  /** Taking it moves it to the picks. */
  lemma FrontPlaces(s: State, id: nat)
    requires s.out != []
    ensures Places(PickFront(s), id) == Places(s, id)
  {
    TimesSplit(s.out, 1, id);
    assert s.out[..1] == [s.out[0]];
    TimesOne(s.out[0], id);
    TimesPick(s.picks, Pick(s.out[0], s.nextAt, s.now), id);
  }

  lemma TimesOne(x: nat, id: nat)
    ensures Times([x], id) == if x == id then 1 else 0
  {
    assert [x][..0] == [];
  }

  lemma TurnPlaces(s: State, id: nat)
    requires Turning(s.phase)
    ensures Places(TurnStep(s), id) == Places(s, id)
  {
    match s.phase
    case Dropping(left) =>
      if left > 0 {
        DropPlaces(s, Dropping(left - 1), id);
      }
    case Trimming => DropPlaces(s, Measuring, id);
    case Popping =>
      if s.out != [] {
        FrontPlaces(s, id);
      }
    case _ =>
  }

  lemma AppendPlaces(s: State, id: nat)
    requires s.pending != []
    ensures Places(Step(s, Append), id) == Places(s, id)
  {
    TimesSplit(s.pending, 1, id);
    assert s.pending[..1] == [s.pending[0]];
    TimesConcat(s.out, [s.pending[0]], id);
  }

  lemma FillPlaces(s: State, n: nat, id: nat)
    requires n <= 1 && Accounted(s, id)
    ensures Accounted(FillStep(s, n), id)
  {
    TimesPick(s.picks, Pick(s.emitted, s.nextAt, s.now), id);
  }

  lemma AccountStep(s: State, l: Label, id: nat)
    requires Enabled(s, l) && Accounted(s, id)
    ensures Accounted(Step(s, l), id)
  {
    match l
    case Encode(n) => TimesRange(s.emitted, n, id);
    case Append => AppendPlaces(s, id);
    case Clear => TimesConcat(s.cleared, s.out, id);
    case Turn => TurnPlaces(s, id);
    case Fill(n) => FillPlaces(s, n, id);
    case _ =>
  }

  lemma {:induction false} AccountRun(s: State, labels: seq<Label>, id: nat)
    requires Legal(s, labels) && Accounted(s, id)
    ensures Accounted(Run(s, labels), id)
    decreases |labels|
  {
    if labels != [] {
      AccountStep(s, labels[0], id);
      AccountRun(Step(s, labels[0]), labels[1..], id);
    }
  }

  /**
    Conservation on every run, races included: a frame the encoder emitted is,
    exactly once, sent (or on the wire right now), waiting, dropped late, or
    cleared; a frame it has not emitted is nowhere.
  */
  lemma EveryFrameOnce(silence: bool, labels: seq<Label>, id: nat)
    requires Legal(Initial(silence), labels)
    ensures var s := Run(Initial(silence), labels);
            Times(Frames(s.picks), id) + Times(s.pending, id) + Times(s.out, id) + Times(s.late, id) + Times(s.cleared, id)
            == if id < s.emitted then 1 else 0
  {
    AccountRun(Initial(silence), labels, id);
  }

  lemma {:induction false} TimesPositive(q: seq<nat>, id: nat)
    ensures id in q <==> Times(q, id) > 0
    decreases |q|
  {
    if q != [] {
      assert q == q[..|q| - 1] + [q[|q| - 1]];
      TimesPositive(q[..|q| - 1], id);
    }
  }

  /** Picks are only ever added, and what was dropped stays dropped. */
  lemma HistoryStep(s: State, l: Label)
    requires Enabled(s, l)
    ensures var s' := Step(s, l);
            && |s.picks| <= |s'.picks| && s'.picks[..|s.picks|] == s.picks
            && (forall id :: id in s.late ==> id in s'.late) && (forall id :: id in s.cleared ==> id in s'.cleared)
            && (s.phase.Closed? ==> s'.phase.Closed? && s'.picks == s.picks)
  {
  }

  lemma {:induction false} HistoryRun(s: State, labels: seq<Label>)
    requires Legal(s, labels)
    ensures var s' := Run(s, labels);
            && |s.picks| <= |s'.picks| && s'.picks[..|s.picks|] == s.picks
            && (forall id :: id in s.late ==> id in s'.late) && (forall id :: id in s.cleared ==> id in s'.cleared)
            && (s.phase.Closed? ==> s'.phase.Closed? && s'.picks == s.picks)
    decreases |labels|
  {
    if labels != [] {
      HistoryStep(s, labels[0]);
      HistoryRun(Step(s, labels[0]), labels[1..]);
    }
  }

  // ------------------------------------------------------ what a gap consists of

  /** Frames dropped late or cleared with numbers strictly between two others. */
  function DroppedBetween(s: State, lo: nat, hi: nat): set<nat> {
    set id: nat | lo < id < hi && (id in s.late || id in s.cleared)
  }

  /** Between two neighbours on the wire every number belongs to a dropped frame. */
  lemma GapIsDropped(s: State, k: nat)
    requires Ordered(s) && (forall id: nat :: Accounted(s, id)) && k + 1 < |s.picks|
    ensures var lo, hi := s.picks[k].frame, s.picks[k + 1].frame;
            lo < hi && |DroppedBetween(s, lo, hi)| == hi - lo - 1
  {
    var lo, hi := s.picks[k].frame, s.picks[k + 1].frame;
    var line := Line(s);
    assert line[k] == lo && line[k + 1] == hi;
    forall id: nat | lo < id < hi ensures id in s.late || id in s.cleared {
      assert Accounted(s, id);
      forall m | 0 <= m < |line| ensures line[m] != id {
        if m <= k {
          assert line[m] <= lo;
        } else {
          assert hi <= line[m];
        }
      }
      NotInLine(s, id);
    }
    assert DroppedBetween(s, lo, hi) == Between(lo, hi);
  }

  lemma NotInLine(s: State, id: nat)
    requires Accounted(s, id) && id < s.emitted && id !in Line(s)
    ensures id in s.late || id in s.cleared
  {
    TimesPositive(Frames(s.picks), id);
    TimesPositive(s.out, id);
    TimesPositive(s.pending, id);
    TimesPositive(s.late, id);
    TimesPositive(s.cleared, id);
    assert forall x :: x in Frames(s.picks) || x in s.out || x in s.pending ==> x in Line(s);
  }

  function Between(lo: nat, hi: nat): (r: set<nat>)
    requires lo < hi
    ensures |r| == hi - lo - 1 && forall id :: id in r <==> lo < id < hi
    decreases hi - lo
  {
    if hi == lo + 1 then {} else Between(lo, hi - 1) + {hi - 1}
  }

  /** The frames missing between two frames on the wire, apart from those sent between them, are the dropped ones. */
  lemma {:induction false} MissingAreDropped(s: State, i: nat, k: nat)
    requires Ordered(s) && (forall id: nat :: Accounted(s, id)) && i <= k < |s.picks|
    ensures var lo, hi := s.picks[i].frame, s.picks[k].frame;
            lo <= hi && hi - lo - (k - i) == |DroppedBetween(s, lo, hi)|
    decreases k - i
  {
    var lo, hi := s.picks[i].frame, s.picks[k].frame;
    if k == i {
      assert DroppedBetween(s, lo, hi) == {};
    } else {
      MissingAreDropped(s, i, k - 1);
      GapIsDropped(s, k - 1);
      NotDropped(s, k - 1);
      DroppedAdd(s, lo, s.picks[k - 1].frame, hi);
    }
  }

  lemma DroppedAdd(s: State, lo: nat, mid: nat, hi: nat)
    requires lo <= mid < hi && mid !in s.late && mid !in s.cleared
    ensures |DroppedBetween(s, lo, hi)| == |DroppedBetween(s, lo, mid)| + |DroppedBetween(s, mid, hi)|
  {
    var a, b := DroppedBetween(s, lo, mid), DroppedBetween(s, mid, hi);
    assert DroppedBetween(s, lo, hi) == a + b;
    assert a !! b;
  }

  lemma NotDropped(s: State, k: nat)
    requires k < |s.picks| && Accounted(s, s.picks[k].frame)
    ensures s.picks[k].frame !in s.late && s.picks[k].frame !in s.cleared
  {
    var id := s.picks[k].frame;
    assert Frames(s.picks)[k] == id;
    TimesPositive(Frames(s.picks), id);
    TimesPositive(s.late, id);
    TimesPositive(s.cleared, id);
  }
}
