/**
  One turn of the paced loop: when the frames it counts on can vanish under it,
  and what its operations come to when nobody interferes.
*/
module PacedTurn {

  import opened Pacer

  // ---------------------------------------------------------- the pops owed

  /** The pops the loop will make before it looks at the queue again. */
  function Owed(s: State): nat {
    match s.phase
    case Dropping(left) => left
    case Trimming => 1
    case Popping => 1
    case _ => 0
  }

  predicate Safe(s: State) {
    !s.phase.Dead? && Owed(s) <= |s.out|
  }

  /** A step leaves the pops owed covered, unless it is a clear while some are owed; such a clear never does. */
  lemma SafeStep(s: State, l: Label)
    requires Enabled(s, l) && Safe(s)
    ensures Safe(Step(s, l)) <==> !(l.Clear? && Owed(s) > 0)
    ensures !Step(s, l).phase.Dead?
  {
  }

  /** Somewhere in the run the queue is cleared while pops are owed. */
  predicate ClearsUnderThePops(s: State, labels: seq<Label>)
    requires Legal(s, labels)
    decreases |labels|
  {
    labels != [] && ((labels[0].Clear? && Owed(s) > 0) || ClearsUnderThePops(Step(s, labels[0]), labels[1..]))
  }

  lemma {:induction false} SafeRun(s: State, labels: seq<Label>)
    requires Legal(s, labels) && Safe(s) && !ClearsUnderThePops(s, labels)
    ensures Safe(Run(s, labels))
    decreases |labels|
  {
    if labels != [] {
      SafeStep(s, labels[0]);
      SafeRun(Step(s, labels[0]), labels[1..]);
    }
  }

  /** Without such a clear a connection's sender never dies, whatever else happens to the queue. */
  lemma NoClearNoDeath(silence: bool, labels: seq<Label>)
    requires Legal(Initial(silence), labels) && !ClearsUnderThePops(Initial(silence), labels)
    ensures !Run(Initial(silence), labels).phase.Dead?
  {
    SafeRun(Initial(silence), labels);
  }

  /**
    The exact condition: from a state in which the loop has all it needs, one clear
    kills it at its next operation, with no other interference, iff pops are owed.
  */
  lemma ClearKillsIffOwed(s: State)
    requires Safe(s)
    ensures Legal(s, [Clear, Turn]) && Run(s, [Clear, Turn]).phase.Dead? <==> Owed(s) > 0
  {
    var s1 := Step(s, Clear);
    assert [Clear, Turn][1..] == [Turn] && [Turn][1..] == [];
    assert Legal(s, [Clear, Turn]) <==> Legal(s1, [Turn]);
    if Enabled(s1, Turn) {
      assert Legal(s1, [Turn]) && Run(s1, [Turn]) == Step(s1, Turn);
    }
  }

  // ------------------------------------------------------ the turn undisturbed

  /** The frames whose slots have passed are dropped and the schedule moves on by whole slots. */
  function Realigned(s: State, t: int): State
    requires s.nextAt <= t
  {
    var behind := (t - s.nextAt) / FRAME;
    var dropped := Min(behind, |s.out|);
    s.(now := t, out := s.out[dropped..], late := s.late + s.out[..dropped], nextAt := s.nextAt + behind * FRAME)
  }

  function Excess(queue: seq<nat>): nat {
    if |queue| > MAX_QUEUE then |queue| - MAX_QUEUE else 0
  }

  /** The oldest frames past the cap are dropped. */
  function Trimmed(s: State): State {
    s.(out := s.out[Excess(s.out)..], late := s.late + s.out[..Excess(s.out)])
  }

  /** The slot: its frame from the queue, or a silence to encode, or an idle wait. */
  function Slot(s: State, t: int): State
    requires s.nextAt <= t
  {
    var r := Trimmed(Realigned(s, t));
    if r.out != [] then PickFront(r) else r.(phase := if s.silence then Filling else Idle)
  }

  function Rank(s: State): nat {
    match s.phase
    case Dropping(_) => 2 * |s.out| + 5
    case Measuring => 2 * |s.out| + 4
    case Trimming => 2 * |s.out| + 3
    case Testing => 2 * |s.out| + 2
    case Popping => 1
    case _ => 0
  }

  lemma TurnShrinks(s: State)
    requires Safe(s) && Turning(s.phase)
    ensures Safe(TurnStep(s)) && Rank(TurnStep(s)) < Rank(s)
  {
  }

  /** The rest of the turn when nobody interferes. */
  function Alone(s: State): State
    requires Safe(s)
    decreases Rank(s)
  {
    if Turning(s.phase) then
      TurnShrinks(s);
      Alone(TurnStep(s))
    else s
  }

  lemma AloneStep(s: State)
    requires Safe(s) && Turning(s.phase)
    ensures Safe(TurnStep(s)) && Alone(TurnStep(s)) == Alone(s) && Rank(TurnStep(s)) < Rank(s)
  {
    TurnShrinks(s);
  }

  /** It is a run of the machine. */
  lemma {:induction false} TurnsAlone(s: State) returns (labels: seq<Label>)
    requires Safe(s)
    ensures Legal(s, labels) && Run(s, labels) == Alone(s)
    ensures forall n :: 0 <= n < |labels| ==> labels[n].Turn?
    decreases Rank(s)
  {
    if Turning(s.phase) {
      TurnShrinks(s);
      labels := TurnsAlone(TurnStep(s));
      labels := OneMore(s, Turn, TurnStep(s), labels, Alone(s));
    } else {
      labels := [];
    }
  }

  lemma {:induction false} DropsAlone(s: State, left: nat)
    requires left <= |s.out|
    ensures Alone(s.(phase := Dropping(left)))
            == Alone(s.(phase := Measuring, out := s.out[left..], late := s.late + s.out[..left]))
    decreases left
  {
    if left == 0 {
      assert s.out[0..] == s.out && s.late + s.out[..0] == s.late;
    } else {
      var s1 := s.(out := s.out[1..], late := s.late + [s.out[0]]);
      assert TurnStep(s.(phase := Dropping(left))) == s1.(phase := Dropping(left - 1));
      DropsAlone(s1, left - 1);
      DropOneMore(s, left);
    }
  }

  lemma DropOneMore(s: State, n: nat)
    requires 0 < n <= |s.out|
    ensures s.out[1..][n - 1..] == s.out[n..]
    ensures s.late + [s.out[0]] + s.out[1..][..n - 1] == s.late + s.out[..n]
  {
  }

  lemma {:induction false} TrimsAlone(s: State)
    ensures Alone(s.(phase := Measuring)) == Alone(Trimmed(s).(phase := Testing))
    decreases |s.out|
  {
    if |s.out| <= MAX_QUEUE {
      assert s.out[0..] == s.out && s.late + s.out[..0] == s.late;
    } else {
      var s1 := s.(out := s.out[1..], late := s.late + [s.out[0]]);
      assert TurnStep(s.(phase := Trimming)) == s1.(phase := Measuring);
      assert Alone(s.(phase := Trimming)) == Alone(s1.(phase := Measuring));
      TrimsAlone(s1);
      DropOneMore(s, Excess(s.out));
      assert Trimmed(s) == Trimmed(s1);
    }
  }

  lemma TakesAlone(s: State)
    ensures Alone(s.(phase := Testing))
            == if s.out != [] then PickFront(s) else s.(phase := if s.silence then Filling else Idle)
  {
    if s.out != [] {
      assert Alone(s.(phase := Popping)) == Alone(PickFront(s));
    }
  }

  /** From clock reading to frame, the operations of an undisturbed turn come to the slot. */
  lemma AloneIsSlot(s: State, t: int)
    requires s.nextAt <= t
    ensures Safe(ReadStep(s, t)) && Alone(ReadStep(s, t)) == Slot(s, t)
  {
    var behind := (t - s.nextAt) / FRAME;
    var q := s.(now := t, nextAt := s.nextAt + behind * FRAME);
    DropsAlone(q, Min(behind, |s.out|));
    TrimsAlone(Realigned(s, t));
    TakesAlone(Trimmed(Realigned(s, t)));
  }

  /** So it can always be made: the clock reading, then the operations of the turn. */
  lemma MakeSlot(s: State, t: int) returns (labels: seq<Label>)
    requires s.phase == Ready && s.now <= t && s.nextAt <= t
    ensures Legal(s, labels) && Run(s, labels) == Slot(s, t)
    ensures labels != [] && labels[0] == Read(t) && forall n :: 1 <= n < |labels| ==> labels[n].Turn?
  {
    AloneIsSlot(s, t);
    var turns := TurnsAlone(ReadStep(s, t));
    labels := OneMore(s, Read(t), ReadStep(s, t), turns, Slot(s, t));
  }

  // ---------------------------------------------------- which frames a turn drops

  /** The slot of the frame at position `i` had passed by `t`. */
  predicate Passed(s: State, t: int, i: int) {
    s.nextAt + (i + 1) * FRAME <= t
  }

  /** The schedule stands at the slot that `t` falls in, whole slots on. */
  predicate SlotOf(s: State, t: int, slot: int) {
    slot <= t < slot + FRAME && (slot - s.nextAt) % FRAME == 0
  }

  /** A clock reading at `t` and then operations of the loop only. */
  predicate IsTurn(labels: seq<Label>, t: int) {
    labels != [] && labels[0] == Read(t) && forall n :: 1 <= n < |labels| ==> labels[n].Turn?
  }

  /** Exactly the frames before position `cut` had their slots passed by `t`. */
  ghost predicate CutsThePassed(s: State, t: int, cut: nat) {
    cut <= |s.out| && forall i :: 0 <= i < |s.out| ==> (i < cut <==> Passed(s, t, i))
  }

  /**
    What a turn drops, operation by operation and frame by frame: the loop gets to its
    test of the length with exactly the frames whose slots have not passed, in their
    order, and exactly the others have joined the late ones.
  */
  lemma DropsThePassed(s: State, t: int, cut: nat, slot: int)
    requires s.phase == Ready && s.now <= t && s.nextAt <= t && CutsThePassed(s, t, cut) && SlotOf(s, t, slot)
    ensures exists labels :: IsTurn(labels, t) && Legal(s, labels)
              && Run(s, labels)
                 == s.(phase := Measuring, now := t, nextAt := slot, out := s.out[cut..], late := s.late + s.out[..cut])
  {
    var r := ReadStep(s, t);
    var end := r.(phase := Measuring, out := s.out[cut..], late := s.late + s.out[..cut]);
    OnlyCut(s, t, cut, slot);
    var turns := MakeDrops(r, cut);
    var labels := OneMore(s, Read(t), r, turns, end);
    assert IsTurn(labels, t);
  }

  /** There is one such cut and one such slot, those of the program. */
  lemma OnlyCut(s: State, t: int, cut: nat, slot: int)
    requires s.nextAt <= t && CutsThePassed(s, t, cut) && SlotOf(s, t, slot)
    ensures cut == Min((t - s.nextAt) / FRAME, |s.out|) && slot == ReadStep(s, t).nextAt
  {
    var behind := (t - s.nextAt) / FRAME;
    WholeSlots(s, t);
    OneSlot(s, t, slot, ReadStep(s, t).nextAt);
    if cut < |s.out| {
      PassedIffBehind(s, t, cut);
    }
    if cut > 0 {
      PassedIffBehind(s, t, cut - 1);
    }
  }

  lemma OneSlot(s: State, t: int, a: int, b: int)
    requires SlotOf(s, t, a) && SlotOf(s, t, b)
    ensures a == b
  {
    var x, y := (a - s.nextAt) / FRAME, (b - s.nextAt) / FRAME;
    assert a - s.nextAt == x * FRAME && b - s.nextAt == y * FRAME;
    FramesApart(x, y);
    FramesApart(y, x);
  }

  lemma FramesApart(x: int, y: int)
    ensures x < y ==> x * FRAME + FRAME <= y * FRAME
  {
    if x < y {
      assert (x + 1) * FRAME <= y * FRAME;
    }
  }

  lemma WholeSlots(s: State, t: int)
    requires s.nextAt <= t
    ensures SlotOf(s, t, ReadStep(s, t).nextAt)
  {
    var behind := (t - s.nextAt) / FRAME;
    assert behind * FRAME % FRAME == 0;
  }

  lemma PassedIffBehind(s: State, t: int, i: nat)
    requires s.nextAt <= t
    ensures i < (t - s.nextAt) / FRAME <==> Passed(s, t, i)
  {
    var behind := (t - s.nextAt) / FRAME;
    assert behind * FRAME <= t - s.nextAt < behind * FRAME + FRAME;
    if i < behind {
      assert (i + 1) * FRAME <= behind * FRAME;
    } else {
      assert (i + 1) * FRAME >= behind * FRAME + FRAME;
    }
  }

  /** The pops of the drop loop, as a run. */
  lemma {:induction false} MakeDrops(s: State, left: nat) returns (labels: seq<Label>)
    requires s.phase == Dropping(left) && left <= |s.out|
    ensures Legal(s, labels) && forall n :: 0 <= n < |labels| ==> labels[n].Turn?
    ensures Run(s, labels) == s.(phase := Measuring, out := s.out[left..], late := s.late + s.out[..left])
    decreases left
  {
    if left == 0 {
      assert s.out[0..] == s.out && s.late + s.out[..0] == s.late;
      labels := [Turn];
      assert [Turn][1..] == [];
    } else {
      var s1 := TurnStep(s);
      var rest := MakeDrops(s1, left - 1);
      DropOneMore(s, left);
      labels := [Turn] + rest;
      assert labels[1..] == rest;
    }
  }

  /**
    And the whole turn: with `cut` as above and `kept` the first of the newest 500
    after it, everything before `kept` is late; the frame there is taken in the slot
    that the clock reads in; if there is none the loop encodes silence or idles.
  */
  lemma TurnMeans(s: State, t: int, cut: nat, kept: nat, slot: int)
    requires s.phase == Ready && s.now <= t && s.nextAt <= t && CutsThePassed(s, t, cut) && SlotOf(s, t, slot)
    requires kept == if |s.out| - cut > 500 then |s.out| - 500 else cut
    ensures exists labels :: IsTurn(labels, t) && Legal(s, labels)
              && Run(s, labels)
                 == if kept < |s.out| then
                      s.(phase := Sending, now := t, nextAt := slot, late := s.late + s.out[..kept], out := s.out[kept + 1..],
                         picks := s.picks + [Pick(s.out[kept], slot, t)])
                    else
                      s.(phase := if s.silence then Filling else Idle, now := t, nextAt := slot, late := s.late + s.out[..kept], out := [])
  {
    OnlyCut(s, t, cut, slot);
    SlotParts(s, t, cut, kept);
    var labels := MakeSlot(s, t);
    assert IsTurn(labels, t);
  }

  lemma SlotParts(s: State, t: int, cut: nat, kept: nat)
    requires s.nextAt <= t && cut == Min((t - s.nextAt) / FRAME, |s.out|) && kept == cut + Excess(s.out[cut..])
    ensures kept <= |s.out|
    ensures Trimmed(Realigned(s, t))
            == s.(now := t, nextAt := ReadStep(s, t).nextAt, late := s.late + s.out[..kept], out := s.out[kept..])
  {
    DropTwice(s.out, s.late, cut, kept - cut);
  }

  lemma DropTwice(out: seq<nat>, late: seq<nat>, a: nat, b: nat)
    requires a + b <= |out|
    ensures out[a..][b..] == out[a + b..] && late + out[..a] + out[a..][..b] == late + out[..a + b]
  {
  }

  /** A slot that begins on time drops nothing from a short queue. */
  lemma OnTime(s: State, t: int)
    requires s.nextAt <= t < s.nextAt + FRAME && 0 < |s.out| <= MAX_QUEUE
    ensures Slot(s, t) == PickFront(s.(now := t))
  {
    assert (t - s.nextAt) / FRAME == 0;
    assert s.out[0..] == s.out && s.late + s.out[..0] == s.late;
  }
}
