/**
  How far apart the paced sender's frames go out: bounds over every run and every
  pattern of stalls, and exactly when the next frame keeps a whole slot's distance.
*/
module Pacing {

  import opened Pacer
  import opened PacedTurn

  /** Slots are whole frames apart and every decision falls inside its own slot. */
  ghost predicate PacedPicks(picks: seq<Pick>) {
    && (forall i :: 0 <= i < |picks| ==> picks[i].slot <= picks[i].at < picks[i].slot + FRAME)
    && (forall i, j :: 0 <= i < j < |picks| && j == i + 1 ==> picks[i].slot + FRAME <= picks[j].slot)
  }

  ghost predicate Paced(s: State) {
    && PacedPicks(s.picks)
    && (s.phase.Off? ==> s.picks == [])
    && (s.phase.Idle? ==> s.nextAt <= s.now)
    && (Turning(s.phase) || s.phase.Filling? ==> s.nextAt <= s.now < s.nextAt + FRAME)
    && (s.picks != [] && SlotOpen(s.phase) ==> s.picks[|s.picks| - 1].slot + FRAME <= s.nextAt)
    && (s.picks != [] && s.phase.Sending? ==> s.picks[|s.picks| - 1].slot == s.nextAt)
  }

  /** The schedule stands at a slot that has no frame yet. */
  predicate SlotOpen(p: Phase) {
    p.Ready? || p.Idle? || Turning(p) || p.Filling?
  }

  lemma PushPick(picks: seq<Pick>, p: Pick)
    requires PacedPicks(picks) && p.slot <= p.at < p.slot + FRAME
    requires picks != [] ==> picks[|picks| - 1].slot + FRAME <= p.slot
    ensures PacedPicks(picks + [p])
  {
  }

  lemma PacedTurnStep(s: State)
    requires Turning(s.phase) && Paced(s)
    ensures Paced(TurnStep(s))
  {
    var s' := TurnStep(s);
    if s.phase.Popping? && s.out != [] {
      PushPick(s.picks, Pick(s.out[0], s.nextAt, s.now));
    } else {
      assert s'.picks == s.picks && s'.nextAt == s.nextAt && s'.now == s.now;
    }
  }

  lemma PacedFillStep(s: State, n: nat)
    requires s.phase.Filling? && Paced(s)
    ensures Paced(FillStep(s, n))
  {
    PushPick(s.picks, Pick(s.emitted, s.nextAt, s.now));
  }

  /** After realignment the clock reads inside the slot. */
  lemma ReadInSlot(s: State, t: int)
    requires s.nextAt <= t
    ensures var r := ReadStep(s, t);
            s.nextAt <= r.nextAt <= t < r.nextAt + FRAME && r.picks == s.picks && r.now == t
  {
  }

  lemma PacedStep(s: State, l: Label)
    requires Enabled(s, l) && Paced(s)
    ensures Paced(Step(s, l))
  {
    match l
    case Turn => PacedTurnStep(s);
    case Fill(n) => PacedFillStep(s, n);
    case Read(t) => ReadInSlot(s, t);
    case _ => assert Step(s, l).picks == s.picks;
  }

  lemma {:induction false} PacedRun(s: State, labels: seq<Label>)
    requires Legal(s, labels) && Paced(s)
    ensures Paced(Run(s, labels))
    decreases |labels|
  {
    if labels != [] {
      PacedStep(s, labels[0]);
      PacedRun(Step(s, labels[0]), labels[1..]);
    }
  }

  lemma {:induction false} SlotsApart(picks: seq<Pick>, i: nat, j: nat)
    requires PacedPicks(picks) && i <= j < |picks|
    ensures picks[i].slot + (j - i) * FRAME <= picks[j].slot
    decreases j - i
  {
    if i < j {
      SlotsApart(picks, i, j - 1);
      assert (j - i) * FRAME == (j - 1 - i) * FRAME + FRAME;
    }
  }

  /**
    The pacing bound, for every run and every pattern of stalls: the decisions
    for sends i < j are more than j - i - 1 frames apart. So sends k and k + 2
    are more than a frame apart.
  */
  lemma PacingBound(silence: bool, labels: seq<Label>, i: nat, j: nat)
    requires Legal(Initial(silence), labels) && i < j < |Run(Initial(silence), labels).picks|
    ensures var picks := Run(Initial(silence), labels).picks;
            picks[j].at - picks[i].at > (j - i - 1) * FRAME
  {
    PacedRun(Initial(silence), labels);
    var picks := Run(Initial(silence), labels).picks;
    SlotsApart(picks, i, j);
    assert (j - i) * FRAME == (j - i - 1) * FRAME + FRAME;
  }

  /** The sends decided in the closed window of the given length. */
  function SendsWithin(picks: seq<Pick>, from: int, length: nat): set<nat> {
    set k: nat | k < |picks| && from <= picks[k].at <= from + length
  }

  lemma {:induction false} IntervalSize(s: set<nat>, lo: nat, hi: nat)
    requires forall k :: k in s ==> lo <= k < hi
    ensures lo <= hi ==> |s| <= hi - lo
    ensures hi <= lo ==> s == {}
    decreases hi
  {
    if lo < hi {
      IntervalSize(s - {hi - 1}, lo, hi - 1);
    } else {
      assert s == {};
    }
  }

  /** Numbers less than `spread` apart are at most `spread` many. */
  lemma {:induction false} SpreadSize(s: set<nat>, spread: nat, hi: nat)
    requires forall k :: k in s ==> k < hi
    requires forall j, k :: j in s && k in s ==> k < j + spread
    ensures |s| <= spread
    decreases hi
  {
    if s != {} && hi - 1 !in s {
      SpreadSize(s, spread, hi - 1);
    } else if s != {} {
      IntervalSize(s, if hi < spread then 0 else hi - spread, hi);
    }
  }

  /** Hence any window of length L holds fewer than L / FRAME + 2 sends. */
  lemma WindowBound(silence: bool, labels: seq<Label>, from: int, length: nat)
    requires Legal(Initial(silence), labels)
    ensures |SendsWithin(Run(Initial(silence), labels).picks, from, length)| * FRAME < length + 2 * FRAME
  {
    var picks := Run(Initial(silence), labels).picks;
    var within := SendsWithin(picks, from, length);
    var spread := (length + 2 * FRAME - 1) / FRAME;
    forall j, k | j in within && k in within ensures k < j + spread {
      if k > j {
        PacingBound(silence, labels, j, k);
      }
    }
    SpreadSize(within, spread, |picks|);
  }

  /**
    The bound is tight: for every spacing from one tick to a frame there is a run
    whose two sends are decided exactly that far apart.
  */
  lemma SpacingIsTight(d: int) returns (labels: seq<Label>)
    requires 1 <= d <= FRAME
    ensures Legal(Initial(false), labels)
    ensures Run(Initial(false), labels).picks == [Pick(0, 0, FRAME - d), Pick(1, FRAME, FRAME)]
  {
    var s1 := State(false, Ready, 0, 0, 0, [], [], [], [], []);
    var s2 := State(false, Ready, 0, 0, 2, [0, 1], [], [], [], []);
    var s3 := State(false, Ready, 0, 0, 2, [1], [0], [], [], []);
    var s4 := State(false, Ready, 0, 0, 2, [], [0, 1], [], [], []);
    assert Range(0, 2) == [0, 1];
    labels := SendTwo(s4, d);
    var end := Run(s4, labels);
    labels := OneMore(s3, Append, s4, labels, end);
    labels := OneMore(s2, Append, s3, labels, end);
    labels := OneMore(s1, Encode(2), s2, labels, end);
    labels := OneMore(Initial(false), Start(0), s1, labels, end);
  }

  lemma SendTwo(s4: State, d: int) returns (labels: seq<Label>)
    requires 1 <= d <= FRAME && s4 == State(false, Ready, 0, 0, 2, [], [0, 1], [], [], [])
    ensures Legal(s4, labels) && Run(s4, labels).picks == [Pick(0, 0, FRAME - d), Pick(1, FRAME, FRAME)]
  {
    var s5 := State(false, Sending, FRAME - d, 0, 2, [], [1], [Pick(0, 0, FRAME - d)], [], []);
    var s6 := State(false, Ready, FRAME - d, FRAME, 2, [], [1], [Pick(0, 0, FRAME - d)], [], []);
    var end := State(false, Sending, FRAME, FRAME, 2, [], [], [Pick(0, 0, FRAME - d), Pick(1, FRAME, FRAME)], [], []);
    assert PickFront(s4.(now := FRAME - d)) == s5 && PickFront(s6.(now := FRAME)) == end;
    var first := SlotOnTime(s4, FRAME - d, s5);
    var second := SlotOnTime(s6, FRAME, end);
    labels := OneMore(s5, Sent, s6, second, end);
    RunConcat(s4, first, labels);
    labels := first + labels;
  }

  lemma SlotOnTime(s: State, t: int, end: State) returns (labels: seq<Label>)
    requires s.phase == Ready && s.now <= t && s.nextAt <= t < s.nextAt + FRAME && 0 < |s.out| <= MAX_QUEUE
    requires end == PickFront(s.(now := t))
    ensures Legal(s, labels) && Run(s, labels) == end
  {
    OnTime(s, t);
    labels := MakeSlot(s, t);
  }

  /**
    Every slot takes exactly one frame's time of the schedule, whether its silence was
    sent or the codec had nothing to say; only the start and an idle wait set the
    schedule to the clock.
  */
  lemma OneFramePerSlot(s: State, t: int)
    ensures s.phase.Filling? ==> Step(s, Fill(0)) == s.(phase := Ready, nextAt := s.nextAt + FRAME)
    ensures s.phase.Filling? ==> Step(Step(s, Fill(1)), Sent).nextAt == Step(s, Fill(0)).nextAt
    ensures s.phase.Sending? ==> Step(s, Sent) == s.(phase := Ready, nextAt := s.nextAt + FRAME)
    ensures Enabled(s, Start(t)) ==> Step(s, Start(t)) == s.(phase := Ready, now := t, nextAt := t)
    ensures Enabled(s, Wake(t)) ==> Step(s, Wake(t)) == s.(phase := Ready, now := t, nextAt := t)
  {
  }

  /** While a frame is being sent, the last clock reading is the one that decided it. */
  predicate SendingNow(s: State) {
    s.phase.Sending? ==> s.picks != [] && s.now == s.picks[|s.picks| - 1].at
  }

  lemma {:induction false} SendingNowRun(s: State, labels: seq<Label>)
    requires Legal(s, labels) && SendingNow(s)
    ensures SendingNow(Run(s, labels))
    decreases |labels|
  {
    if labels != [] {
      assert SendingNow(Step(s, labels[0]));
      SendingNowRun(Step(s, labels[0]), labels[1..]);
    }
  }

  /** How long after the start of its slot the frame now being sent was decided. */
  function Lateness(s: State): int
    requires s.picks != []
  {
    s.picks[|s.picks| - 1].at - s.picks[|s.picks| - 1].slot
  }

  /** However a run goes on, its next send is decided a frame later, less the lateness of this one. */
  lemma NextSendAfter(s: State, labels: seq<Label>)
    requires Paced(s) && s.phase.Sending? && s.picks != []
    requires Legal(s, labels) && |Run(s, labels).picks| > |s.picks|
    ensures Run(s, labels).picks[|s.picks|].at - s.picks[|s.picks| - 1].at >= FRAME - Lateness(s)
  {
    PacedRun(s, labels);
    HistoryRun(s, labels);
    assert Run(s, labels).picks[..|s.picks|][|s.picks| - 1] == s.picks[|s.picks| - 1];
  }

  /** And it can be decided just then. */
  lemma NextSendAt(s: State) returns (labels: seq<Label>)
    requires Paced(s) && SendingNow(s) && s.phase.Sending?
    ensures Legal(s, labels) && |Run(s, labels).picks| > |s.picks|
    ensures Run(s, labels).picks[|s.picks|].at - s.picks[|s.picks| - 1].at == FRAME - Lateness(s)
  {
    if s.out != [] {
      labels := NextSendOf(s);
    } else {
      var e := if s.pending == [] then Step(s, Encode(1)) else s;
      assert e.pending != [];
      var a := Step(e, Append);
      labels := NextSendOf(a);
      labels := OneMore(e, Append, a, labels, Run(a, labels));
      if s.pending == [] {
        labels := OneMore(s, Encode(1), e, labels, Run(e, labels));
      }
    }
  }

  lemma NextSendOf(s: State) returns (labels: seq<Label>)
    requires Paced(s) && SendingNow(s) && s.phase.Sending? && s.out != []
    ensures Legal(s, labels) && |Run(s, labels).picks| > |s.picks|
    ensures Run(s, labels).picks[|s.picks|].at - s.picks[|s.picks| - 1].at == FRAME - Lateness(s)
  {
    var s1 := Step(s, Sent);
    SlotAtStart(s1);
    labels := MakeSlot(s1, s1.nextAt);
    labels := OneMore(s, Sent, s1, labels, Slot(s1, s1.nextAt));
  }

  /** A slot read at its very start is taken then, if anything is queued. */
  lemma SlotAtStart(s: State)
    requires s.out != []
    ensures |Slot(s, s.nextAt).picks| == |s.picks| + 1 && Slot(s, s.nextAt).picks[|s.picks|].at == s.nextAt
  {
    var r := Trimmed(Realigned(s, s.nextAt));
    assert r.out != [] && r.nextAt == s.nextAt;
  }

  /** The run goes on from `s` to another send. */
  predicate Continues(s: State, labels: seq<Label>) {
    Legal(s, labels) && |Run(s, labels).picks| > |s.picks|
  }

  /** How long after the present send the next one is decided. */
  function Distance(s: State, labels: seq<Label>): int
    requires s.picks != [] && Continues(s, labels)
  {
    Run(s, labels).picks[|s.picks|].at - s.picks[|s.picks| - 1].at
  }

  /** Whichever run follows, its next send is decided at least a frame after this one. */
  ghost predicate NeverEarly(s: State)
    requires s.picks != []
  {
    forall labels :: Continues(s, labels) ==> Distance(s, labels) >= FRAME
  }

  /**
    When "never a burst" holds: at any send on any run, the next one keeps a whole
    frame's distance on every continuation if and only if this one was decided at
    the very start of its slot. In general the distance is at least a frame less
    this one's lateness, and that little is possible.
  */
  lemma FrameApartIffOnTime(silence: bool, before: seq<Label>)
    requires Legal(Initial(silence), before) && Run(Initial(silence), before).phase.Sending?
    ensures var s := Run(Initial(silence), before);
            && s.picks != [] && 0 <= Lateness(s) < FRAME
            && (NeverEarly(s) <==> Lateness(s) == 0)
            && (forall labels :: Continues(s, labels) ==> Distance(s, labels) >= FRAME - Lateness(s))
            && (exists labels :: Continues(s, labels) && Distance(s, labels) == FRAME - Lateness(s))
  {
    PacedRun(Initial(silence), before);
    SendingNowRun(Initial(silence), before);
    ApartIffOnTime(Run(Initial(silence), before));
  }

  lemma ApartIffOnTime(s: State)
    requires Paced(s) && SendingNow(s) && s.phase.Sending?
    ensures 0 <= Lateness(s) < FRAME
    ensures NeverEarly(s) <==> Lateness(s) == 0
    ensures forall labels :: Continues(s, labels) ==> Distance(s, labels) >= FRAME - Lateness(s)
    ensures exists labels :: Continues(s, labels) && Distance(s, labels) == FRAME - Lateness(s)
  {
    forall labels | Continues(s, labels) ensures Distance(s, labels) >= FRAME - Lateness(s) {
      NextSendAfter(s, labels);
    }
    var next := NextSendAt(s);
    assert Continues(s, next) && Distance(s, next) == FRAME - Lateness(s);
  }

  /** The schedule after a send is "now + one frame" under the same condition, whatever was realigned. */
  lemma ResyncIffOnTime(silence: bool, before: seq<Label>)
    requires Legal(Initial(silence), before) && Run(Initial(silence), before).phase.Sending?
    ensures var s := Run(Initial(silence), before);
            s.picks != [] && Step(s, Sent).nextAt == s.now + FRAME - Lateness(s)
            && (Step(s, Sent).nextAt == s.now + FRAME <==> Lateness(s) == 0)
  {
    PacedRun(Initial(silence), before);
    SendingNowRun(Initial(silence), before);
  }
}
