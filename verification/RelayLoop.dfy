/**
  The unpaced sender and its wake-up flag, at the grain of single operations.
  Producers on other threads append, test the queue and schedule a callback, each a
  step of its own. The loop thread tests the queue, clears the flag, waits, and
  runs callbacks only while the sender is suspended.
*/
module RelayLoop {

  import opened Sequences

  datatype Pc =
    | Check                   // about to test the queue
    | Popping                 // saw a frame, about to take it
    | Clearing                // saw an empty queue, about to clear the flag
    | Waiting                 // about to wait on the flag
    | Parked                  // suspended on the flag
    | Sending(frame: nat)     // suspended in ws.send
    | Dead                    // popped from an empty queue
    | Closed                  // the connection closed under a send

  datatype State = State(
    pc: Pc,
    queue: seq<nat>,
    next: nat,          // the number of the next frame to be appended
    flag: bool,
    callbacks: nat,     // calls of `set` scheduled on the loop, not yet run
    owing: nat,         // producers between an append and their look at the queue
    waking: nat,        // producers that found the queue non-empty and are about to schedule `set`
    sent: seq<nat>)

  datatype Label =
    | Append            // a producer's first append of a call
    | AppendMore        // a further append of the same call
    | Look              // send_pcm tests the queue after its appends
    | LookOnly          // send_pcm that encoded no frame tests the queue
    | Schedule          // the producer that saw a frame schedules the callback
    | ScheduleFlushed   // flush_pcm schedules it without a test
    | Clear             // clear_queue
    | Test | Pop | ClearFlag | Wait | Resume | SendDone | RunCallback
    | Close

  predicate FromProducer(l: Label) {
    l.Append? || l.AppendMore? || l.Look? || l.LookOnly? || l.Schedule? || l.ScheduleFlushed? || l.Clear?
  }

  predicate Enabled(s: State, l: Label) {
    match l
    case Append => true
    case AppendMore => s.owing > 0
    case Look => s.owing > 0
    case LookOnly => true
    case Schedule => s.waking > 0
    case ScheduleFlushed => s.owing > 0
    case Clear => true
    case Test => s.pc.Check?
    case Pop => s.pc.Popping?
    case ClearFlag => s.pc.Clearing?
    case Wait => s.pc.Waiting?
    case Resume => s.pc.Parked? && s.flag
    case SendDone => s.pc.Sending?
    case RunCallback => s.callbacks > 0 && (s.pc.Parked? || s.pc.Sending?)
    case Close => s.pc.Sending?
  }

  function Step(s: State, l: Label): State
    requires Enabled(s, l)
  {
    match l
    case Append => s.(queue := s.queue + [s.next], next := s.next + 1, owing := s.owing + 1)
    case AppendMore => s.(queue := s.queue + [s.next], next := s.next + 1)
    case Look => s.(owing := s.owing - 1, waking := if s.queue != [] then s.waking + 1 else s.waking)
    case LookOnly => s.(waking := if s.queue != [] then s.waking + 1 else s.waking)
    case Schedule => s.(waking := s.waking - 1, callbacks := s.callbacks + 1)
    case ScheduleFlushed => s.(owing := s.owing - 1, callbacks := s.callbacks + 1)
    case Clear => s.(queue := [])
    case Test => s.(pc := if s.queue == [] then Clearing else Popping)
    case Pop => if s.queue == [] then s.(pc := Dead) else s.(pc := Sending(s.queue[0]), queue := s.queue[1..])
    case ClearFlag => s.(flag := false, pc := Waiting)
    case Wait => s.(pc := if s.flag then Check else Parked)
    case Resume => s.(pc := Check)
    case SendDone => s.(sent := s.sent + [s.pc.frame], pc := Check)
    case RunCallback => s.(callbacks := s.callbacks - 1, flag := true)
    case Close => s.(pc := Closed)
  }

  predicate Legal(s: State, labels: seq<Label>)
    decreases |labels|
  {
    labels == [] || (Enabled(s, labels[0]) && Legal(Step(s, labels[0]), labels[1..]))
  }

  function Run(s: State, labels: seq<Label>): State
    requires Legal(s, labels)
    decreases |labels|
  {
    if labels == [] then s else Run(Step(s, labels[0]), labels[1..])
  }

  /** The loop has just started; frames may have been queued, and producers be busy, before that. */
  ghost predicate Starts(s: State) {
    s.pc.Check? && s.sent == [] && !s.flag && s.callbacks == 0
    && Increasing(s.queue) && Below(s.queue, s.next)
  }

  // ---------------------------------------------------------- no lost wake-up

  /** Whoever saw an empty queue is going to be told that it is no longer empty. */
  predicate WillWake(s: State) {
    && ((s.pc.Clearing? || s.pc.Waiting? || s.pc.Parked?) && s.queue != [] ==>
          s.owing > 0 || s.waking > 0 || s.callbacks > 0 || (s.pc.Parked? && s.flag))
    && (s.pc.Waiting? ==> !s.flag)
  }

  lemma WillWakeStep(s: State, l: Label)
    requires Enabled(s, l) && WillWake(s)
    ensures WillWake(Step(s, l))
  {
  }

  lemma {:induction false} WillWakeRun(s: State, labels: seq<Label>)
    requires Legal(s, labels) && WillWake(s)
    ensures WillWake(Run(s, labels))
    decreases |labels|
  {
    if labels != [] {
      WillWakeStep(s, labels[0]);
      WillWakeRun(Step(s, labels[0]), labels[1..]);
    }
  }

  /** On every interleaving: a sender parked over a non-empty queue has a wake-up coming. */
  lemma NoLostWakeup(s0: State, labels: seq<Label>)
    requires Starts(s0) && Legal(s0, labels)
    ensures var s := Run(s0, labels);
            s.pc.Parked? && s.queue != [] ==> s.flag || s.callbacks > 0 || s.waking > 0 || s.owing > 0
  {
    WillWakeRun(s0, labels);
  }

  /** What a producer does for the loop: after `send_pcm` a callback if it saw a frame queued, after `flush_pcm` always one. */
  lemma ProducerWakes(s: State)
    ensures s.owing > 0 ==> Step(s, Look) == s.(owing := s.owing - 1, waking := s.waking + if s.queue != [] then 1 else 0)
    ensures Step(s, LookOnly) == s.(waking := s.waking + if s.queue != [] then 1 else 0)
    ensures s.waking > 0 ==> Step(s, Schedule) == s.(waking := s.waking - 1, callbacks := s.callbacks + 1)
    ensures s.owing > 0 ==> Step(s, ScheduleFlushed) == s.(owing := s.owing - 1, callbacks := s.callbacks + 1)
  {
  }

  // --------------------------------------------------------------------- order

  function InFlight(s: State): seq<nat> {
    if s.pc.Sending? then [s.pc.frame] else []
  }

  function Line(s: State): seq<nat> {
    s.sent + InFlight(s) + s.queue
  }

  ghost predicate Ordered(s: State) {
    Increasing(Line(s)) && Below(Line(s), s.next)
  }

  lemma LinePush(line: seq<nat>, next: nat)
    requires Increasing(line) && Below(line, next)
    ensures Increasing(line + [next]) && Below(line + [next], next + 1)
  {
  }

  /** A step leaves the line alone, adds the next frame, or takes a part out of it. */
  lemma LineStep(s: State, l: Label)
    requires Enabled(s, l)
    ensures var s' := Step(s, l);
            match l
            case Append => Line(s') == Line(s) + [s.next] && s'.next == s.next + 1
            case AppendMore => Line(s') == Line(s) + [s.next] && s'.next == s.next + 1
            case Clear => Line(s') == s.sent + InFlight(s) && s'.next == s.next
            case Close => Line(s') == s.sent + s.queue && s'.next == s.next
            case _ => Line(s') == Line(s) && s'.next == s.next
  {
  }

  lemma OrderedStep(s: State, l: Label)
    requires Enabled(s, l) && Ordered(s)
    ensures Ordered(Step(s, l))
  {
    LineStep(s, l);
    match l
    case Append => LinePush(Line(s), s.next);
    case AppendMore => LinePush(Line(s), s.next);
    case Clear =>
      var kept := s.sent + InFlight(s);
      assert kept + s.queue + [] == Line(s) && kept + [] == kept;
      IncreasingDrop(kept, s.queue, [], s.next);
    case Close =>
      IncreasingDrop(s.sent, InFlight(s), s.queue, s.next);
    case _ =>
  }

  /** Frames leave in the order they were appended, whatever is cleared in between. */
  lemma {:induction false} OrderedRun(s: State, labels: seq<Label>)
    requires Legal(s, labels) && Ordered(s)
    ensures Ordered(Run(s, labels))
    decreases |labels|
  {
    if labels != [] {
      OrderedStep(s, labels[0]);
      OrderedRun(Step(s, labels[0]), labels[1..]);
    }
  }

  // ------------------------------------------------------------------- draining

  /** Steps of the loop thread over a connection that stays up. */
  predicate LoopStep(s: State, l: Label) {
    !FromProducer(l) && !l.Close? && Enabled(s, l)
  }

  function PcRank(s: State): nat {
    match s.pc
    case Check => 4
    case Popping => 3
    case Clearing => 3
    case Waiting => 2
    case Parked => if s.flag then 5 else 1
    case Sending(_) => 5
    case Dead => 0
    case Closed => 0
  }

  function Rank(s: State): nat {
    3 * |s.queue| + 5 * s.callbacks + PcRank(s)
  }

  /** The queue the sender has seen to be non-empty still is. */
  predicate SafePop(s: State) {
    s.pc.Popping? ==> s.queue != []
  }

  lemma LoopStepDecreases(s: State, l: Label)
    requires LoopStep(s, l) && WillWake(s) && SafePop(s)
    ensures var s' := Step(s, l);
            Rank(s') < Rank(s) && SafePop(s') && s'.owing == s.owing && s'.waking == s.waking && Line(s') == Line(s) && !s'.pc.Dead? && !s'.pc.Closed?
  {
  }

  predicate Stuck(s: State) {
    forall l: Label :: !LoopStep(s, l)
  }

  lemma StuckMeansDone(s: State)
    requires WillWake(s) && s.owing == 0 && s.waking == 0 && !s.pc.Dead? && !s.pc.Closed? && Stuck(s)
    ensures s.pc.Parked? && s.queue == []
  {
    assert !LoopStep(s, Test) && !LoopStep(s, Pop) && !LoopStep(s, ClearFlag) && !LoopStep(s, Wait);
    assert !LoopStep(s, Resume) && !LoopStep(s, SendDone) && !LoopStep(s, RunCallback);
  }

  predicate LoopOnly(s: State, labels: seq<Label>)
    requires Legal(s, labels)
    decreases |labels|
  {
    labels == [] || (LoopStep(s, labels[0]) && LoopOnly(Step(s, labels[0]), labels[1..]))
  }

  /**
    Once producers stop and the connection stays up, the sender finishes: every
    run of the loop thread is bounded, keeps the line of frames as it is, and when
    no step is left everything that was queued has been sent, in order.
  */
  lemma {:induction false} Drains(s: State, labels: seq<Label>)
    requires WillWake(s) && SafePop(s) && s.owing == 0 && s.waking == 0 && !s.pc.Dead? && !s.pc.Closed?
    requires Legal(s, labels) && LoopOnly(s, labels)
    ensures |labels| <= Rank(s)
    ensures var end := Run(s, labels);
            Line(end) == Line(s) && (Stuck(end) ==> end.queue == [] && end.sent == s.sent + InFlight(s) + s.queue)
    decreases |labels|
  {
    if labels == [] {
      if Stuck(s) {
        StuckMeansDone(s);
        assert Line(s) == s.sent;
      }
    } else {
      LoopStepDecreases(s, labels[0]);
      WillWakeStep(s, labels[0]);
      Drains(Step(s, labels[0]), labels[1..]);
    }
  }

  // ------------------------------------------------- clearing under the sender

  /** The sender can only die by a clear between its test of the queue and its pop. */
  lemma ClearBetweenTestAndPop(s: State, l: Label)
    requires Enabled(s, l) && SafePop(s)
    ensures SafePop(Step(s, l)) <==> !(l.Clear? && s.pc.Popping?)
    ensures Step(s, l).pc.Dead? ==> s.pc.Dead?
  {
  }

  /** Somewhere in the run the queue is cleared between the test and the pop. */
  predicate ClearsUnderThePop(s: State, labels: seq<Label>)
    requires Legal(s, labels)
    decreases |labels|
  {
    labels != [] && ((labels[0].Clear? && s.pc.Popping?) || ClearsUnderThePop(Step(s, labels[0]), labels[1..]))
  }

  /** Without that the sender never dies. */
  lemma {:induction false} NoClearNoDeath(s: State, labels: seq<Label>)
    requires Legal(s, labels) && SafePop(s) && !s.pc.Dead? && !ClearsUnderThePop(s, labels)
    ensures SafePop(Run(s, labels)) && !Run(s, labels).pc.Dead?
    decreases |labels|
  {
    if labels != [] {
      ClearBetweenTestAndPop(s, labels[0]);
      NoClearNoDeath(Step(s, labels[0]), labels[1..]);
    }
  }

  /**
    From the start: after any run without such a clear, if no producer is in the
    middle of a call and the connection is up, the loop thread alone sends all that
    is queued, in the order it was appended, in a bounded number of steps, and then
    waits.
  */
  lemma EverythingLeaves(s0: State, before: seq<Label>, after: seq<Label>)
    requires Starts(s0) && Legal(s0, before) && !ClearsUnderThePop(s0, before)
    requires var s := Run(s0, before);
             s.owing == 0 && s.waking == 0 && !s.pc.Closed? && Legal(s, after) && LoopOnly(s, after)
    ensures var s, end := Run(s0, before), Run(Run(s0, before), after);
            && |after| <= Rank(s)
            && Increasing(Line(s)) && Line(end) == Line(s)
            && (Stuck(end) ==> end.queue == [] && end.sent == Line(s))
  {
    var s := Run(s0, before);
    assert Line(s0) == s0.queue;
    WillWakeRun(s0, before);
    OrderedRun(s0, before);
    NoClearNoDeath(s0, before);
    Drains(s, after);
  }

  /** Such a run exists: one frame, tested, cleared, popped. */
  lemma ClearKillsTheSender()
    ensures var s0 := State(Check, [0], 1, false, 0, 0, 0, []);
            Starts(s0) && Legal(s0, [Test, Clear, Pop]) && Run(s0, [Test, Clear, Pop]).pc.Dead?
  {
    var s0 := State(Check, [0], 1, false, 0, 0, 0, []);
    var s1 := Step(s0, Test);
    var s2 := Step(s1, Clear);
    assert Legal(s2, [Pop]) && [Clear, Pop][1..] == [Pop] && [Test, Clear, Pop][1..] == [Clear, Pop];
    assert Legal(s1, [Clear, Pop]);
    assert Run(s2, [Pop]) == Step(s2, Pop);
  }
}
