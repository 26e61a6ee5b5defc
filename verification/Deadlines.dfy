/**
  When a queued frame is due, and that this never slips while the schedule runs:
  hence the cap on latency.
*/
module Deadlines {

  import opened Sequences
  import opened Pacer

  /** The slot that the front of the queue is due in. */
  function FrontSlot(s: State): int {
    if s.phase.Filling? || s.phase.Sending? then s.nextAt + FRAME else s.nextAt
  }

  /** How many frames at the front of the queue the loop is about to drop. */
  function Doomed(s: State): nat {
    match s.phase
    case Dropping(left) => left
    case Trimming => 1
    case _ => 0
  }

  /** The slot that the frame at position `i` of the queue is due in, if it is not doomed. */
  function Deadline(s: State, i: nat): int {
    FrontSlot(s) + (i - Doomed(s)) * FRAME
  }

  /** The schedule is running: neither before the start, in the idle wait, nor after the loop's end. */
  predicate Scheduling(s: State) {
    !s.phase.Off? && !s.phase.Idle? && !Over(s)
  }

  predicate Over(s: State) {
    s.phase.Dead? || s.phase.Closed?
  }

  predicate WaitsAt(s: State, id: nat, i: nat) {
    i < |s.out| && s.out[i] == id
  }

  /** The frame at `i` is going to be dropped, or is due by `due`. */
  predicate DueBy(s: State, i: nat, due: int) {
    i < Doomed(s) || Deadline(s, i) <= due
  }

  lemma TwoPositions(q: seq<nat>, id: nat, i: nat, j: nat)
    requires i < j < |q| && q[i] == id && q[j] == id
    ensures Times(q, id) >= 2
  {
    TimesSplit(q, j, id);
    TimesPositive(q[..j], id);
    TimesPositive(q[j..], id);
    assert q[..j][i] == id && q[j..][0] == id;
  }

  /** A frame that waits is nowhere else. */
  lemma WaitsOnly(s: State, id: nat, i: nat)
    requires Accounted(s, id) && WaitsAt(s, id, i)
    ensures id < s.emitted && Times(s.out, id) == 1
    ensures id !in s.pending && id !in Frames(s.picks) && id !in s.late && id !in s.cleared
  {
    TimesPositive(s.out, id);
    TimesPositive(s.pending, id);
    TimesPositive(Frames(s.picks), id);
    TimesPositive(s.late, id);
    TimesPositive(s.cleared, id);
  }

  /** The last frame picked is `id`, in a slot no later than `due`. */
  predicate JustPicked(s: State, id: nat, due: int) {
    s.picks != [] && s.picks[|s.picks| - 1].frame == id && s.picks[|s.picks| - 1].slot <= due
  }

  /** After a step: still waiting and due by `due`, or just picked by then, or neither waiting nor picked. */
  ghost predicate OnTimeAfter(s: State, id: nat, due: int) {
    && (id in s.out ==> (Scheduling(s) || s.phase.Closed?) && exists j: nat :: WaitsAt(s, id, j) && DueBy(s, j, due))
    && (id in Frames(s.picks) ==> JustPicked(s, id, due))
  }

  lemma MovedUp(s: State, s': State, id: nat, j: nat, due: int)
    requires WaitsAt(s', id, j) && DueBy(s', j, due) && (Scheduling(s') || s'.phase.Closed?)
    requires id !in Frames(s.picks) && s'.picks == s.picks
    ensures OnTimeAfter(s', id, due)
  {
  }

  lemma DropOnTime(s: State, next: Phase, id: nat, i: nat, due: int)
    requires Accounted(s, id) && WaitsAt(s, id, i) && DueBy(s, i, due) && Doomed(s) > 0
    requires next == if s.phase.Trimming? then Measuring else Dropping(Doomed(s) - 1)
    ensures OnTimeAfter(Drop(s, next), id, due)
  {
    WaitsOnly(s, id, i);
    var s' := Drop(s, next);
    if i == 0 {
      OnceGone(s, id);
    } else {
      MovedUp(s, s', id, i - 1, due);
    }
  }

  /** A frame that waits at the front waits nowhere behind it. */
  lemma OnceGone(s: State, id: nat)
    requires Accounted(s, id) && WaitsAt(s, id, 0)
    ensures id !in s.out[1..]
  {
    if id in s.out[1..] {
      var k :| 0 <= k < |s.out[1..]| && s.out[1..][k] == id;
      TwoPositions(s.out, id, 0, k + 1);
      WaitsOnly(s, id, 0);
    }
  }

  lemma PickOnTime(s: State, id: nat, i: nat, due: int)
    requires Accounted(s, id) && WaitsAt(s, id, i) && s.phase.Popping? && Deadline(s, i) <= due
    ensures OnTimeAfter(PickFront(s), id, due)
  {
    WaitsOnly(s, id, i);
    FramesPush(s.picks, Pick(s.out[0], s.nextAt, s.now));
    if i == 0 {
      OnceGone(s, id);
    } else {
      if s.out[0] == id {
        TwoPositions(s.out, id, 0, i);
      }
      assert WaitsAt(PickFront(s), id, i - 1);
    }
  }

  lemma TurnOnTime(s: State, id: nat, i: nat, due: int)
    requires Turning(s.phase) && Accounted(s, id) && WaitsAt(s, id, i) && DueBy(s, i, due)
    ensures OnTimeAfter(TurnStep(s), id, due)
  {
    WaitsOnly(s, id, i);
    match s.phase
    case Dropping(left) =>
      if left == 0 {
        MovedUp(s, TurnStep(s), id, i, due);
      } else {
        DropOnTime(s, Dropping(left - 1), id, i, due);
      }
    case Measuring => MovedUp(s, TurnStep(s), id, i, due);
    case Trimming => DropOnTime(s, Measuring, id, i, due);
    case Testing => MovedUp(s, TurnStep(s), id, i, due);
    case Popping => PickOnTime(s, id, i, due);
  }

  /** In one step a frame that goes on waiting is due no later or is to be dropped, and one that is picked is picked on time. */
  lemma DeadlineStep(s: State, l: Label, id: nat, i: nat, due: int)
    requires Enabled(s, l) && Scheduling(s) && Accounted(s, id) && WaitsAt(s, id, i) && DueBy(s, i, due)
    ensures OnTimeAfter(Step(s, l), id, due)
  {
    WaitsOnly(s, id, i);
    match l
    case Clear =>
    case Turn => TurnOnTime(s, id, i, due);
    case Fill(n) => FillOnTime(s, n, id, i, due);
    case Read(t) => ReadOnTime(s, t, id, i, due);
    case Encode(_) => MovedUp(s, Step(s, l), id, i, due);
    case Append => MovedUp(s, Step(s, l), id, i, due);
    case Sent => MovedUp(s, Step(s, l), id, i, due);
    case Lost => MovedUp(s, Step(s, l), id, i, due);
    case Start(_) =>
    case Wake(_) =>
  }

  lemma ReadOnTime(s: State, t: int, id: nat, i: nat, due: int)
    requires Enabled(s, Read(t)) && WaitsAt(s, id, i) && Deadline(s, i) <= due && id !in Frames(s.picks)
    ensures OnTimeAfter(ReadStep(s, t), id, due)
  {
    MovedUp(s, ReadStep(s, t), id, i, due);
  }

  lemma FillOnTime(s: State, n: nat, id: nat, i: nat, due: int)
    requires s.phase.Filling? && WaitsAt(s, id, i) && Deadline(s, i) <= due && id < s.emitted && id !in Frames(s.picks)
    ensures OnTimeAfter(FillStep(s, n), id, due)
  {
    var s' := FillStep(s, n);
    FramesPush(s.picks, Pick(s.emitted, s.nextAt, s.now));
    assert WaitsAt(s', id, i);
  }

  // ------------------------------------------------------------- whole runs

  /** If the frame waits in a running schedule it is due by `due` or to be dropped, and if it was sent, its slot was no later. */
  ghost predicate KeepsDeadline(s: State, id: nat, due: int) {
    && (Scheduling(s) ==> forall j: nat :: WaitsAt(s, id, j) ==> DueBy(s, j, due))
    && (forall k :: 0 <= k < |s.picks| && s.picks[k].frame == id ==> s.picks[k].slot <= due)
  }

  lemma PickedOnce(s: State, id: nat, k: nat, due: int)
    requires Accounted(s, id) && k < |s.picks| && s.picks[k].frame == id && s.picks[k].slot <= due
    ensures KeepsDeadline(s, id, due)
  {
    var frames := Frames(s.picks);
    assert frames[k] == id;
    TimesPositive(frames, id);
    TimesPositive(s.out, id);
    forall m | 0 <= m < |s.picks| && s.picks[m].frame == id ensures m == k {
      assert frames[m] == id;
      if m < k {
        TwoPositions(frames, id, m, k);
      } else if k < m {
        TwoPositions(frames, id, k, m);
      }
    }
  }

  lemma NotPicked(picks: seq<Pick>, id: nat)
    requires id !in Frames(picks)
    ensures forall k :: 0 <= k < |picks| ==> picks[k].frame != id
  {
    forall k | 0 <= k < |picks| ensures picks[k].frame != id {
      assert Frames(picks)[k] == picks[k].frame;
    }
  }

  lemma DroppedForGood(s: State, id: nat, due: int)
    requires Accounted(s, id) && (id in s.late || id in s.cleared)
    ensures KeepsDeadline(s, id, due)
  {
    TimesPositive(s.late, id);
    TimesPositive(s.cleared, id);
    TimesPositive(s.out, id);
    TimesPositive(Frames(s.picks), id);
    NotPicked(s.picks, id);
  }

  lemma WaitsOnTime(s: State, id: nat, i: nat, due: int)
    requires Accounted(s, id) && WaitsAt(s, id, i) && (Scheduling(s) ==> DueBy(s, i, due))
    ensures KeepsDeadline(s, id, due)
  {
    WaitsOnly(s, id, i);
    forall j: nat | WaitsAt(s, id, j) ensures j == i {
      if j < i {
        TwoPositions(s.out, id, j, i);
      } else if i < j {
        TwoPositions(s.out, id, i, j);
      }
    }
    NotPicked(s.picks, id);
  }

  lemma LeavesQueue(s: State, l: Label, id: nat, i: nat)
    requires Enabled(s, l) && Accounted(s, id) && WaitsAt(s, id, i) && id !in Step(s, l).out
    ensures id in Frames(Step(s, l).picks) || id in Step(s, l).late || id in Step(s, l).cleared
  {
    WaitsOnly(s, id, i);
    AccountStep(s, l, id);
    NotBackInHand(s, l, id);
    Somewhere(Step(s, l), id);
  }

  /** A frame encoded before and not held is not held after a step either. */
  lemma NotBackInHand(s: State, l: Label, id: nat)
    requires Enabled(s, l) && id < s.emitted && id !in s.pending
    ensures id < Step(s, l).emitted && id !in Step(s, l).pending
  {
  }

  lemma Somewhere(s: State, id: nat)
    requires Accounted(s, id) && id < s.emitted && id !in s.out && id !in s.pending
    ensures id in Frames(s.picks) || id in s.late || id in s.cleared
  {
    TimesPositive(s.out, id);
    TimesPositive(s.pending, id);
    TimesPositive(s.late, id);
    TimesPositive(s.cleared, id);
    TimesPositive(Frames(s.picks), id);
  }

  /** Nothing is sent any more once the loop is over. */
  lemma {:induction false} OverRun(s: State, labels: seq<Label>)
    requires Legal(s, labels) && Over(s)
    ensures Over(Run(s, labels)) && Run(s, labels).picks == s.picks
    decreases |labels|
  {
    if labels != [] {
      OverRun(Step(s, labels[0]), labels[1..]);
    }
  }

  /**
    A queued frame's deadline never slips: through stalls, realignment, trimming,
    sends, and appends and clears at any point of a turn, a frame waiting in a
    running schedule is due no later at any later point unless it is about to be
    dropped, and if it is sent it is sent in a slot no later than it was due.
  */
  lemma {:induction false} DeadlineRun(s: State, labels: seq<Label>, id: nat, i: nat, due: int)
    requires Legal(s, labels) && Scheduling(s) && Accounted(s, id) && WaitsAt(s, id, i) && DueBy(s, i, due)
    ensures KeepsDeadline(Run(s, labels), id, due)
    decreases |labels|
  {
    if labels == [] {
      WaitsOnTime(s, id, i, due);
    } else {
      var s1, rest := Step(s, labels[0]), labels[1..];
      AccountStep(s, labels[0], id);
      AccountRun(s1, rest, id);
      DeadlineStep(s, labels[0], id, i, due);
      if id in s1.out {
        var j: nat :| WaitsAt(s1, id, j) && DueBy(s1, j, due);
        if Over(s1) {
          OverKeeps(s1, rest, id, j, due);
        } else {
          DeadlineRun(s1, rest, id, j, due);
        }
      } else {
        LeavesQueue(s, labels[0], id, i);
        GoneKeeps(s1, rest, id, due);
      }
    }
  }

  lemma OverKeeps(s: State, labels: seq<Label>, id: nat, i: nat, due: int)
    requires Legal(s, labels) && Over(s) && Accounted(s, id) && WaitsAt(s, id, i)
    ensures KeepsDeadline(Run(s, labels), id, due)
  {
    OverRun(s, labels);
    WaitsOnly(s, id, i);
    NotPicked(s.picks, id);
  }

  lemma GoneKeeps(s: State, labels: seq<Label>, id: nat, due: int)
    requires Legal(s, labels) && Accounted(s, id) && id !in s.out && OnTimeAfter(s, id, due)
    requires id in Frames(s.picks) || id in s.late || id in s.cleared
    ensures KeepsDeadline(Run(s, labels), id, due)
  {
    AccountRun(s, labels, id);
    HistoryRun(s, labels);
    if id in Frames(s.picks) {
      assert Run(s, labels).picks[..|s.picks|][|s.picks| - 1] == s.picks[|s.picks| - 1];
      PickedOnce(Run(s, labels), id, |s.picks| - 1, due);
    } else {
      DroppedForGood(Run(s, labels), id, due);
    }
  }

  /**
    The latency cap: once the loop has found the queue no longer than the cap,
    everything waiting then has left it by the slot 500 frames on, however long the
    stalls in between, and whatever of it was sent went out before that.
  */
  lemma GoneWithin500(silence: bool, before: seq<Label>, after: seq<Label>, id: nat, i: nat)
    requires Legal(Initial(silence), before)
    requires var s := Run(Initial(silence), before);
             s.phase.Measuring? && |s.out| <= MAX_QUEUE && WaitsAt(s, id, i) && Legal(s, after)
    ensures var s := Run(Initial(silence), before);
            var s' := Run(s, after);
            && (s'.phase.Sending? && s'.nextAt >= s.nextAt + (MAX_QUEUE - 1) * FRAME ==> id !in s'.out)
            && (forall k :: 0 <= k < |s'.picks| && s'.picks[k].frame == id ==> s'.picks[k].slot < s.nextAt + MAX_QUEUE * FRAME)
  {
    var s := Run(Initial(silence), before);
    AccountRun(Initial(silence), before, id);
    DeadlineRun(s, after, id, i, s.nextAt + (MAX_QUEUE - 1) * FRAME);
    var s' := Run(s, after);
    if s'.phase.Sending? && id in s'.out {
      var j :| 0 <= j < |s'.out| && s'.out[j] == id;
      assert WaitsAt(s', id, j);
    }
  }
}
