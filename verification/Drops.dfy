/**
  Why the paced sender drops a frame, on any run: its slot had passed when the clock
  was read, or the queue was too long; or, the exception, the queue was cleared in
  the middle of the turn, and the drop loop takes frames it never counted.
*/
module Drops {

  import opened Pacer
  import opened PacedTurn
  import opened Deadlines

  /** The state before the n-th step of a run from the start. */
  ghost function StateAt(silence: bool, labels: seq<Label>, n: nat): State
    requires n <= |labels|
  {
    if Legal(Initial(silence), labels[..n]) then Run(Initial(silence), labels[..n]) else Initial(silence)
  }

  lemma {:induction false} PrefixLegal(s: State, labels: seq<Label>, n: nat)
    requires Legal(s, labels) && n <= |labels|
    ensures Legal(s, labels[..n])
    decreases n
  {
    if n > 0 {
      PrefixLegal(Step(s, labels[0]), labels[1..], n - 1);
      assert labels[..n][1..] == labels[1..][..n - 1];
    }
  }

  lemma SameStateAt(silence: bool, labels: seq<Label>, l: Label, n: nat)
    requires n <= |labels|
    ensures StateAt(silence, labels + [l], n) == StateAt(silence, labels, n)
  {
    assert (labels + [l])[..n] == labels[..n];
  }

  /** The slot of frame `id`, queued in `at`, had passed by `t`. */
  ghost predicate LateAt(at: State, t: int, id: nat) {
    exists i :: 0 <= i < |at.out| && at.out[i] == id && Passed(at, t, i)
  }

  /** Step `r` is the last clock reading before step `n`. */
  ghost predicate ReadBefore(labels: seq<Label>, r: nat, n: nat) {
    r < n <= |labels| && labels[r].Read? && forall k :: r < k < n ==> !labels[k].Read?
  }

  ghost predicate ClearBetween(labels: seq<Label>, r: nat, n: nat) {
    exists k :: r < k < n <= |labels| && labels[k].Clear?
  }

  /** Step `r` is the loop's last operation before step `n`, a test that found more than 500 frames. */
  ghost predicate FoundTooMany(silence: bool, labels: seq<Label>, r: nat, n: nat) {
    && r < n <= |labels| && labels[r].Turn? && (forall k :: r < k < n ==> !labels[k].Turn?)
    && StateAt(silence, labels, r).phase.Measuring? && |StateAt(silence, labels, r).out| > 500
  }

  /** Every frame that the drop loop has still to take was late at the clock reading, if nothing was cleared since. */
  ghost predicate TakesLate(silence: bool, labels: seq<Label>, r: nat) {
    && ReadBefore(labels, r, |labels|)
    && var at, s := StateAt(silence, labels, r), StateAt(silence, labels, |labels|);
       !ClearBetween(labels, r, |labels|) ==>
         Doomed(s) <= |s.out| && forall j :: 0 <= j < Doomed(s) ==> LateAt(at, labels[r].t, s.out[j])
  }

  ghost predicate Justified(silence: bool, labels: seq<Label>) {
    var s := StateAt(silence, labels, |labels|);
    && (s.phase.Dropping? ==> exists r: nat :: TakesLate(silence, labels, r))
    && (s.phase.Trimming? ==> exists r: nat :: FoundTooMany(silence, labels, r, |labels|))
  }

  /** Step `n` drops frame `id`, and this is why. */
  ghost predicate DropsFor(silence: bool, labels: seq<Label>, n: nat, id: nat) {
    && n < |labels| && labels[n].Turn?
    && var s := StateAt(silence, labels, n);
       && s.out != [] && s.out[0] == id
       && ((s.phase.Dropping? && exists r: nat ::
              && ReadBefore(labels, r, n)
              && (ClearBetween(labels, r, n) || LateAt(StateAt(silence, labels, r), labels[r].t, id)))
           || (s.phase.Trimming? && exists r: nat :: FoundTooMany(silence, labels, r, n)))
  }

  // ------------------------------------------------------------ one step more

  lemma ReadBeforeMore(labels: seq<Label>, l: Label, r: nat, n: nat)
    requires n <= |labels|
    ensures ReadBefore(labels + [l], r, n) <==> ReadBefore(labels, r, n)
    ensures ClearBetween(labels + [l], r, n) <==> ClearBetween(labels, r, n)
    ensures ReadBefore(labels, r, |labels|) && !l.Read? ==> ReadBefore(labels + [l], r, |labels| + 1)
  {
    var more := labels + [l];
    assert forall k :: 0 <= k < |labels| ==> more[k] == labels[k];
    if ClearBetween(labels, r, n) {
      var k :| r < k < n <= |labels| && labels[k].Clear?;
      assert more[k].Clear?;
    }
  }

  lemma ClearNow(labels: seq<Label>, l: Label, r: nat)
    requires r < |labels|
    ensures ClearBetween(labels + [l], r, |labels| + 1) <==> ClearBetween(labels, r, |labels|) || l.Clear?
  {
    var more := labels + [l];
    if l.Clear? {
      assert more[|labels|].Clear?;
    }
    if ClearBetween(labels, r, |labels|) {
      var k :| r < k < |labels| && labels[k].Clear?;
      assert more[k].Clear?;
    }
  }

  lemma FoundMore(silence: bool, labels: seq<Label>, l: Label, r: nat, n: nat)
    requires FoundTooMany(silence, labels, r, n)
    ensures FoundTooMany(silence, labels + [l], r, n)
    ensures n == |labels| && !l.Turn? ==> FoundTooMany(silence, labels + [l], r, n + 1)
  {
    SameStateAt(silence, labels, l, r);
  }

  lemma DropsForMore(silence: bool, labels: seq<Label>, l: Label, n: nat, id: nat)
    requires DropsFor(silence, labels, n, id)
    ensures DropsFor(silence, labels + [l], n, id)
  {
    SameStateAt(silence, labels, l, n);
    if StateAt(silence, labels, n).phase.Dropping? {
      var r: nat :| ReadBefore(labels, r, n)
                    && (ClearBetween(labels, r, n) || LateAt(StateAt(silence, labels, r), labels[r].t, id));
      ReadBeforeMore(labels, l, r, n);
      SameStateAt(silence, labels, l, r);
    } else {
      var r: nat :| FoundTooMany(silence, labels, r, n);
      FoundMore(silence, labels, l, r, n);
    }
  }

  /** After the clock reading exactly the passed frames are to be dropped. */
  lemma ReadJustified(silence: bool, labels: seq<Label>, t: int)
    requires Legal(Initial(silence), labels) && Enabled(Run(Initial(silence), labels), Read(t))
    ensures Justified(silence, labels + [Read(t)])
  {
    var s, more := Run(Initial(silence), labels), labels + [Read(t)];
    RunSnoc(Initial(silence), labels, Read(t));
    assert more[..|more|] == more && more[..|labels|] == labels;
    var s' := StateAt(silence, more, |more|);
    forall j | 0 <= j < Doomed(s') ensures LateAt(s, t, s'.out[j]) {
      PassedIffBehind(s, t, j);
      assert s.out[j] == s'.out[j];
    }
    assert TakesLate(silence, more, |labels|);
  }

  lemma StepJustified(silence: bool, labels: seq<Label>, l: Label)
    requires Legal(Initial(silence), labels) && Enabled(Run(Initial(silence), labels), l) && !l.Read?
    requires Justified(silence, labels)
    ensures Justified(silence, labels + [l])
  {
    var s, more := Run(Initial(silence), labels), labels + [l];
    RunSnoc(Initial(silence), labels, l);
    assert labels[..|labels|] == labels && more[..|more|] == more && more[..|labels|] == labels;
    var s' := Step(s, l);
    if s'.phase.Dropping? {
      var r: nat :| TakesLate(silence, labels, r);
      DropJustified(silence, labels, l, r);
    }
    if s'.phase.Trimming? {
      if s.phase.Trimming? {
        var r: nat :| FoundTooMany(silence, labels, r, |labels|);
        FoundMore(silence, labels, l, r, |labels|);
      } else {
        assert FoundTooMany(silence, more, |labels|, |more|);
      }
    }
  }

  lemma DropJustified(silence: bool, labels: seq<Label>, l: Label, r: nat)
    requires Legal(Initial(silence), labels) && Enabled(Run(Initial(silence), labels), l) && !l.Read?
    requires TakesLate(silence, labels, r)
    requires Run(Initial(silence), labels).phase.Dropping? && Step(Run(Initial(silence), labels), l).phase.Dropping?
    ensures TakesLate(silence, labels + [l], r)
  {
    var s, more := Run(Initial(silence), labels), labels + [l];
    RunSnoc(Initial(silence), labels, l);
    assert labels[..|labels|] == labels && more[..|more|] == more;
    SameStateAt(silence, labels, l, r);
    ReadBeforeMore(labels, l, r, |labels|);
    ClearNow(labels, l, r);
    var s' := Step(s, l);
    if !ClearBetween(more, r, |more|) {
      forall j | 0 <= j < Doomed(s') ensures j < |s'.out| && LateAt(StateAt(silence, labels, r), labels[r].t, s'.out[j]) {
        assert s'.out[j] == if l.Turn? then s.out[j + 1] else s.out[j];
      }
    }
  }

  // -------------------------------------------------------------- whole runs

  lemma {:induction false} AlwaysJustified(silence: bool, labels: seq<Label>)
    requires Legal(Initial(silence), labels)
    ensures Justified(silence, labels)
    decreases |labels|
  {
    if labels != [] {
      var init, l := labels[..|labels| - 1], labels[|labels| - 1];
      assert labels == init + [l];
      PrefixLegal(Initial(silence), labels, |init|);
      AlwaysJustified(silence, init);
      LastEnabled(Initial(silence), init, l);
      if l.Read? {
        ReadJustified(silence, init, l.t);
      } else {
        StepJustified(silence, init, l);
      }
    }
  }

  lemma LastEnabled(s: State, init: seq<Label>, l: Label)
    requires Legal(s, init + [l]) && Legal(s, init)
    ensures Enabled(Run(s, init), l) && Run(s, init + [l]) == Step(Run(s, init), l)
  {
    RunConcat(s, init, [l]);
    assert [l][1..] == [];
  }

  /** A step that makes a frame late pops it from the front, in one of the two loops. */
  lemma LateByDrop(s: State, l: Label, id: nat)
    requires Enabled(s, l) && id !in s.late && id in Step(s, l).late
    ensures l.Turn? && s.out != [] && s.out[0] == id
    ensures (s.phase.Dropping? && Doomed(s) > 0) || s.phase.Trimming?
  {
  }

  /**
    Every late frame, on every run, has its reason: it was popped in the drop loop,
    and its slot had passed at the turn's clock reading or the queue was cleared since
    then; or it was popped right after a test that found more than 500 frames.
  */
  lemma {:induction false} LateHasReason(silence: bool, labels: seq<Label>, id: nat)
    requires Legal(Initial(silence), labels) && id in Run(Initial(silence), labels).late
    ensures exists n: nat :: DropsFor(silence, labels, n, id)
    decreases |labels|
  {
    var init, l := labels[..|labels| - 1], labels[|labels| - 1];
    assert labels == init + [l];
    PrefixLegal(Initial(silence), labels, |init|);
    LastEnabled(Initial(silence), init, l);
    var s := Run(Initial(silence), init);
    if id in s.late {
      LateHasReason(silence, init, id);
      var n: nat :| DropsFor(silence, init, n, id);
      DropsForMore(silence, init, l, n, id);
    } else {
      LateByDrop(s, l, id);
      AlwaysJustified(silence, init);
      DropsForNow(silence, init, l, id);
    }
  }

  lemma DropsForNow(silence: bool, labels: seq<Label>, l: Label, id: nat)
    requires Legal(Initial(silence), labels) && l.Turn? && Justified(silence, labels)
    requires var s := Run(Initial(silence), labels);
             s.out != [] && s.out[0] == id && ((s.phase.Dropping? && Doomed(s) > 0) || s.phase.Trimming?)
    ensures DropsFor(silence, labels + [l], |labels|, id)
  {
    var s, n := Run(Initial(silence), labels), |labels|;
    assert labels[..n] == labels && (labels + [l])[..n] == labels;
    if s.phase.Dropping? {
      var r: nat :| TakesLate(silence, labels, r);
      ReadBeforeMore(labels, l, r, n);
      SameStateAt(silence, labels, l, r);
    } else {
      var r: nat :| FoundTooMany(silence, labels, r, n);
      FoundMore(silence, labels, l, r, n);
    }
  }

  // --------------------------------------------------------- the exception is real

  /** A frame in the queue has left it for good once the queue has been empty. */
  lemma {:induction false} GoneByThen(s: State, labels: seq<Label>, id: nat)
    requires Legal(s, labels) && Accounted(s, id) && id in s.out
    requires Run(s, labels).out == []
    ensures var s' := Run(s, labels);
            id in Frames(s'.picks) || id in s'.late || id in s'.cleared
    decreases |labels|
  {
    if labels != [] {
      var s1 := Step(s, labels[0]);
      var i :| 0 <= i < |s.out| && s.out[i] == id;
      WaitsOnly(s, id, i);
      AccountStep(s, labels[0], id);
      if id in s1.out {
        GoneByThen(s1, labels[1..], id);
      } else {
        LeavesQueue(s, labels[0], id, i);
        StaysGone(s1, labels[1..], id);
      }
    }
  }

  lemma StaysGone(s: State, labels: seq<Label>, id: nat)
    requires Legal(s, labels) && Accounted(s, id)
    requires id in Frames(s.picks) || id in s.late || id in s.cleared
    ensures var s' := Run(s, labels);
            && (id in Frames(s'.picks) || id in s'.late || id in s'.cleared)
            && id !in s'.out
  {
    var s' := Run(s, labels);
    HistoryRun(s, labels);
    AccountRun(s, labels, id);
    if id in Frames(s.picks) {
      var k :| 0 <= k < |s.picks| && Frames(s.picks)[k] == id;
      assert s'.picks[..|s.picks|][k] == s.picks[k] && Frames(s'.picks)[k] == id;
    }
    TimesPositive(Frames(s'.picks), id);
    TimesPositive(s'.late, id);
    TimesPositive(s'.cleared, id);
    TimesPositive(s'.out, id);
  }

  /** What waits after the queue has been empty was not queued before. */
  lemma ClearedThenFresh(s: State, upTo: seq<Label>, after: seq<Label>, id: nat)
    requires Accounted(s, id) && Legal(s, upTo) && Run(s, upTo).out == []
    requires Legal(Run(s, upTo), after) && id in Run(Run(s, upTo), after).out
    ensures id !in s.out
  {
    if id in s.out {
      GoneByThen(s, upTo, id);
      AccountRun(s, upTo, id);
      StaysGone(Run(s, upTo), after, id);
    }
  }

  lemma PrefixState(silence: bool, labels: seq<Label>, r: nat)
    requires Legal(Initial(silence), labels) && r <= |labels|
    ensures Legal(Initial(silence), labels[..r]) && StateAt(silence, labels, r) == Run(Initial(silence), labels[..r])
  {
    PrefixLegal(Initial(silence), labels, r);
  }

  /** The part of a run between two of its states. */
  lemma CutAt(silence: bool, labels: seq<Label>, r: nat, n: nat) returns (part: seq<Label>)
    requires Legal(Initial(silence), labels) && r <= n <= |labels|
    ensures Legal(StateAt(silence, labels, r), part) && Run(StateAt(silence, labels, r), part) == StateAt(silence, labels, n)
    ensures part == labels[r..n]
  {
    part := labels[r..n];
    PrefixState(silence, labels, r);
    PrefixState(silence, labels, n);
    assert labels[..n] == labels[..r] + part;
    RunConcat(Initial(silence), labels[..r], part);
  }

  /**
    So the condition is exact: the frame that the drop loop pops next had its slot
    passed at the turn's clock reading if and only if the queue has not been cleared
    since.
  */
  lemma DropsLateIffNotCleared(silence: bool, labels: seq<Label>, r: nat, n: nat)
    requires Legal(Initial(silence), labels) && n < |labels| && ReadBefore(labels, r, n)
    requires var s := StateAt(silence, labels, n);
             s.phase.Dropping? && s.phase.left > 0 && s.out != []
    ensures LateAt(StateAt(silence, labels, r), labels[r].t, StateAt(silence, labels, n).out[0])
            <==> !ClearBetween(labels, r, n)
  {
    if ClearBetween(labels, r, n) {
      ClearedIsFresh(silence, labels, r, n);
    } else {
      NotClearedIsLate(silence, labels, r, n);
    }
  }

  lemma NotClearedIsLate(silence: bool, labels: seq<Label>, r: nat, n: nat)
    requires Legal(Initial(silence), labels) && n < |labels| && ReadBefore(labels, r, n) && !ClearBetween(labels, r, n)
    requires StateAt(silence, labels, n).phase.Dropping? && StateAt(silence, labels, n).phase.left > 0
    ensures StateAt(silence, labels, n).out != []
    ensures LateAt(StateAt(silence, labels, r), labels[r].t, StateAt(silence, labels, n).out[0])
  {
    var front := labels[..n];
    PrefixLegal(Initial(silence), labels, n);
    AlwaysJustified(silence, front);
    StateInPrefix(silence, labels, r, n);
    StateInPrefix(silence, labels, n, n);
    ClearInPrefix(labels, r, n);
    var r': nat :| TakesLate(silence, front, r');
    SameRead(front, r, r', n);
    FrontIsLate(silence, front, r);
  }

  lemma StateInPrefix(silence: bool, labels: seq<Label>, r: nat, n: nat)
    requires r <= n <= |labels|
    ensures StateAt(silence, labels[..n], r) == StateAt(silence, labels, r)
  {
    assert labels[..n][..r] == labels[..r];
  }

  lemma FrontIsLate(silence: bool, labels: seq<Label>, r: nat)
    requires TakesLate(silence, labels, r) && !ClearBetween(labels, r, |labels|)
    requires StateAt(silence, labels, |labels|).phase.Dropping? && StateAt(silence, labels, |labels|).phase.left > 0
    ensures StateAt(silence, labels, |labels|).out != []
    ensures LateAt(StateAt(silence, labels, r), labels[r].t, StateAt(silence, labels, |labels|).out[0])
  {
    assert Doomed(StateAt(silence, labels, |labels|)) > 0;
  }

  lemma SameRead(labels: seq<Label>, r: nat, r': nat, n: nat)
    requires r < n <= |labels| && labels[r].Read? && (forall k :: r < k < n ==> !labels[k].Read?) && ReadBefore(labels, r', n)
    ensures r == r'
  {
  }

  lemma ClearedIsFresh(silence: bool, labels: seq<Label>, r: nat, n: nat)
    requires Legal(Initial(silence), labels) && n < |labels| && ClearBetween(labels, r, n)
    requires StateAt(silence, labels, n).out != []
    ensures StateAt(silence, labels, n).out[0] !in StateAt(silence, labels, r).out
  {
    var k :| r < k < n && labels[k].Clear?;
    var at, id := StateAt(silence, labels, r), StateAt(silence, labels, n).out[0];
    var upTo := CutAt(silence, labels, r, k + 1);
    var after := CutAt(silence, labels, k + 1, n);
    ClearedAt(silence, labels, k);
    AccountedAt(silence, labels, r, id);
    ClearedThenFresh(at, upTo, after, id);
  }

  lemma AccountedAt(silence: bool, labels: seq<Label>, r: nat, id: nat)
    requires Legal(Initial(silence), labels) && r <= |labels|
    ensures Accounted(StateAt(silence, labels, r), id)
  {
    PrefixState(silence, labels, r);
    AccountRun(Initial(silence), labels[..r], id);
  }

  lemma ClearInPrefix(labels: seq<Label>, r: nat, n: nat)
    requires n <= |labels|
    ensures ClearBetween(labels[..n], r, n) <==> ClearBetween(labels, r, n)
  {
    if ClearBetween(labels, r, n) {
      var k :| r < k < n && labels[k].Clear?;
      assert labels[..n][k].Clear?;
    }
  }

  /** A clear leaves the queue empty. */
  lemma ClearedAt(silence: bool, labels: seq<Label>, k: nat)
    requires Legal(Initial(silence), labels) && k < |labels| && labels[k].Clear?
    ensures StateAt(silence, labels, k + 1).out == []
  {
    PrefixState(silence, labels, k);
    PrefixState(silence, labels, k + 1);
    assert labels[..k + 1] == labels[..k] + [Clear];
    LastEnabled(Initial(silence), labels[..k], Clear);
  }

  /** Such a run: frame 1 is appended after the clock reading and is dropped as late all the same. */
  lemma FreshFrameDropped() returns (labels: seq<Label>)
    ensures labels == [Start(0), Encode(2), Append, Read(FRAME)] + [Clear, Append, Turn, Turn]
    ensures Legal(Initial(false), labels)
    ensures Run(Initial(false), labels) == State(false, Measuring, FRAME, FRAME, 2, [], [], [], [1], [0])
  {
    var s4 := State(false, Dropping(1), FRAME, FRAME, 2, [1], [0], [], [], []);
    var first := ReadsOneLate(s4);
    var rest := DropsTheFresh(s4);
    RunConcat(Initial(false), first, rest);
    labels := first + rest;
  }

  lemma ReadsOneLate(s4: State) returns (labels: seq<Label>)
    requires s4 == State(false, Dropping(1), FRAME, FRAME, 2, [1], [0], [], [], [])
    ensures labels == [Start(0), Encode(2), Append, Read(FRAME)]
    ensures Legal(Initial(false), labels) && Run(Initial(false), labels) == s4
  {
    var s2 := State(false, Ready, 0, 0, 2, [0, 1], [], [], [], []);
    var s3 := State(false, Ready, 0, 0, 2, [1], [0], [], [], []);
    labels := OneMore(s3, Read(FRAME), s4, [], s4);
    labels := OneMore(s2, Append, s3, labels, s4);
    labels := HoldsTwo(s2, labels, s4);
  }

  lemma HoldsTwo(s2: State, rest: seq<Label>, end: State) returns (labels: seq<Label>)
    requires s2 == State(false, Ready, 0, 0, 2, [0, 1], [], [], [], []) && Legal(s2, rest) && Run(s2, rest) == end
    ensures labels == [Start(0)] + ([Encode(2)] + rest)
    ensures Legal(Initial(false), labels) && Run(Initial(false), labels) == end
  {
    var s1 := State(false, Ready, 0, 0, 0, [], [], [], [], []);
    assert Range(0, 2) == [0, 1];
    labels := OneMore(s1, Encode(2), s2, rest, end);
    labels := OneMore(Initial(false), Start(0), s1, labels, end);
  }

  lemma DropsTheFresh(s4: State) returns (labels: seq<Label>)
    requires s4 == State(false, Dropping(1), FRAME, FRAME, 2, [1], [0], [], [], [])
    ensures Legal(s4, labels) && Run(s4, labels) == State(false, Measuring, FRAME, FRAME, 2, [], [], [], [1], [0])
    ensures labels == [Clear, Append, Turn, Turn]
  {
    var s5 := State(false, Dropping(1), FRAME, FRAME, 2, [1], [], [], [], [0]);
    var s6 := State(false, Dropping(1), FRAME, FRAME, 2, [], [1], [], [], [0]);
    var s7 := State(false, Dropping(0), FRAME, FRAME, 2, [], [], [], [1], [0]);
    var end := s7.(phase := Measuring);
    labels := OneMore(s7, Turn, end, [], end);
    labels := OneMore(s6, Turn, s7, labels, end);
    labels := OneMore(s5, Append, s6, labels, end);
    labels := OneMore(s4, Clear, s5, labels, end);
  }
}
