/**
  The scan for near-silent holes inside speech: 10 ms windows are classified by
  peak, then nested loops walk the silent runs.
*/
module HoleScan {

  const THRESHOLD := 400
  const CONTEXT := 20

  function Abs(x: int): nat {
    if x < 0 then -x else x
  }

  function Max(a: int, b: int): int {
    if a < b then b else a
  }

  function MinOf(s: seq<int>): (m: int)
    requires s != []
    ensures m in s && forall x :: x in s ==> m <= x
  {
    if |s| == 1 then s[0]
    else
      var m := MinOf(s[1..]);
      assert s == [s[0]] + s[1..];
      if s[0] < m then s[0] else m
  }

  function MaxOf(s: seq<int>): (m: int)
    requires s != []
    ensures m in s && forall x :: x in s ==> x <= m
  {
    if |s| == 1 then s[0]
    else
      var m := MaxOf(s[1..]);
      assert s == [s[0]] + s[1..];
      if s[0] > m then s[0] else m
  }

  function Window(samples: seq<int>, win: nat, w: nat): (seg: seq<int>)
    requires win > 0 && w < |samples| / win
    ensures |seg| == win
  {
    WindowFits(|samples|, win, w);
    samples[w * win..w * win + win]
  }

  lemma WindowFits(total: nat, win: nat, w: nat)
    requires win > 0 && w < total / win
    ensures w * win + win <= total
  {
    var n := total / win;
    assert n * win <= total;
    ProductGrows(w + 1, n, win);
    assert (w + 1) * win == w * win + win;
  }

  lemma {:induction false} ProductGrows(a: nat, b: nat, c: nat)
    requires a <= b
    ensures a * c <= b * c
    decreases b - a
  {
    if a < b {
      ProductGrows(a + 1, b, c);
      assert (a + 1) * c == a * c + c;
    }
  }

  /** Window `w` of `win` samples holds a sample louder than the threshold. */
  ghost predicate LoudWindow(samples: seq<int>, win: nat, w: nat)
    requires win > 0 && w < |samples| / win
  {
    exists j :: w * win <= j < (w + 1) * win && j < |samples| && (samples[j] > 400 || samples[j] < -400)
  }

  /** The slice the program looks at holds the samples of its window. */
  lemma WindowIsSlice(samples: seq<int>, win: nat, w: nat)
    requires win > 0 && w < |samples| / win
    ensures (exists x :: x in Window(samples, win, w) && Abs(x) > THRESHOLD) <==> LoudWindow(samples, win, w)
  {
    WindowFits(|samples|, win, w);
    var seg := Window(samples, win, w);
    assert (w + 1) * win == w * win + win;
    if x :| x in seg && Abs(x) > THRESHOLD {
      var i :| 0 <= i < |seg| && seg[i] == x;
      assert samples[w * win + i] == x;
    }
    if LoudWindow(samples, win, w) {
      var j :| w * win <= j < (w + 1) * win && j < |samples| && (samples[j] > 400 || samples[j] < -400);
      assert seg[j - w * win] == samples[j];
      assert samples[j] in seg && Abs(samples[j]) > THRESHOLD;
    }
  }

  function Peak(seg: seq<int>): (peak: nat)
    requires seg != []
    ensures peak > THRESHOLD <==> exists x :: x in seg && Abs(x) > THRESHOLD
  {
    PeakIsLoudest(seg);
    Max(Abs(MinOf(seg)), Abs(MaxOf(seg)))
  }

  lemma PeakIsLoudest(seg: seq<int>)
    requires seg != []
    ensures Max(Abs(MinOf(seg)), Abs(MaxOf(seg))) > THRESHOLD <==> exists x :: x in seg && Abs(x) > THRESHOLD
  {
    var lo, hi := MinOf(seg), MaxOf(seg);
    if Abs(lo) > THRESHOLD {
      assert lo in seg;
    } else if Abs(hi) > THRESHOLD {
      assert hi in seg;
    }
  }

  predicate Silent(loud: seq<bool>, from: nat, to: nat)
    requires from <= to <= |loud|
  {
    forall i :: from <= i < to ==> !loud[i]
  }

  /** A maximal silent run of 2 to 200 windows, 10 ms each, with a loud window right before and right after. */
  predicate IsHole(loud: seq<bool>, start: nat, ms: nat) {
    var len := ms / 10;
    && ms == 10 * len && 2 <= len <= 200
    && 0 < start && start + len < |loud|
    && loud[start - 1] && loud[start + len]
    && Silent(loud, start, start + len)
  }

  /** `holes` lists, in order and each once, exactly the holes that start before `end`. */
  ghost predicate ListsHoles(holes: seq<(nat, nat)>, loud: seq<bool>, end: nat) {
    && (forall k :: 0 <= k < |holes| ==>
          holes[k].0 < end && IsHole(loud, holes[k].0, holes[k].1))
    && (forall k, l :: 0 <= k < l < |holes| ==> holes[k].0 < holes[l].0)
    && (forall start: nat, ms: nat :: start < end && IsHole(loud, start, ms) ==> (start, ms) in holes)
  }

  /** The context tests look 200 ms either way, yet only the neighbouring window can decide them. */
  lemma ContextIsNeighbour(loud: seq<bool>, start: nat, end: nat)
    requires start < end <= |loud|
    requires start > 0 ==> loud[start - 1]
    requires end < |loud| ==> loud[end]
    ensures true in loud[Max(0, start - CONTEXT)..start] <==> start > 0
    ensures true in loud[end..if end + CONTEXT < |loud| then end + CONTEXT else |loud|] <==> end < |loud|
  {
    if start > 0 {
      var before := loud[Max(0, start - CONTEXT)..start];
      assert before[|before| - 1];
    }
    if end < |loud| {
      assert loud[end..if end + CONTEXT < |loud| then end + CONTEXT else |loud|][0];
    }
  }

  /** No hole starts strictly inside a maximal silent run, nor elsewhere than where it begins. */
  lemma RunBounds(loud: seq<bool>, start: nat, end: nat, s: nat, ms: nat)
    requires start < end <= |loud| && Silent(loud, start, end)
    requires end < |loud| ==> loud[end]
    requires start <= s < end && IsHole(loud, s, ms)
    ensures s == start && ms == 10 * (end - start)
  {
    var len := ms / 10;
    assert !(start <= s - 1 < end);
    assert !(start <= s + len < end);
    assert !(s <= end < s + len);
  }

  /** What the silent run [start, end) adds to the list. */
  function Grown(holes: seq<(nat, nat)>, start: nat, end: nat, inside: bool): seq<(nat, nat)>
    requires start <= end
  {
    if inside && 2 <= end - start <= 200 then holes + [(start, 10 * (end - start))] else holes
  }

  lemma ListAfterRun(holes: seq<(nat, nat)>, loud: seq<bool>, start: nat, end: nat)
    requires start < end <= |loud| && Silent(loud, start, end)
    requires end < |loud| ==> loud[end]
    requires start > 0 ==> loud[start - 1]
    requires ListsHoles(holes, loud, start)
    ensures ListsHoles(Grown(holes, start, end, start > 0 && end < |loud|), loud, end)
  {
    var grown := Grown(holes, start, end, start > 0 && end < |loud|);
    forall s: nat, ms: nat | s < end && IsHole(loud, s, ms) ensures (s, ms) in grown {
      if s < start {
        assert (s, ms) in holes;
      } else {
        RunBounds(loud, start, end, s, ms);
        assert grown[|holes|] == (s, ms);
      }
    }
    if start > 0 && end < |loud| && 2 <= end - start <= 200 {
      assert IsHole(loud, start, 10 * (end - start));
    }
  }

  lemma ListAfterLoud(holes: seq<(nat, nat)>, loud: seq<bool>, w: nat)
    requires w < |loud| && loud[w] && ListsHoles(holes, loud, w)
    ensures ListsHoles(holes, loud, w + 1)
  {
    assert forall ms: nat :: !IsHole(loud, w, ms);
  }

  method Scan(loud: seq<bool>) returns (holes: seq<(nat, nat)>)
    ensures ListsHoles(holes, loud, |loud|)
  {
    holes := [];
    var w := 0;
    while w < |loud|
      invariant w <= |loud|
      invariant 0 < w < |loud| ==> loud[w - 1] || loud[w]
      invariant ListsHoles(holes, loud, w)
    {
      if loud[w] {
        ListAfterLoud(holes, loud, w);
        w := w + 1;
        continue;
      }
      var start := w;
      while w < |loud| && !loud[w]
        invariant start <= w <= |loud| && Silent(loud, start, w)
        decreases |loud| - w
      {
        w := w + 1;
      }
      var runMs := (w - start) * 10;
      var speechBefore := true in loud[Max(0, start - CONTEXT)..start];
      var speechAfter := true in loud[w..if w + CONTEXT < |loud| then w + CONTEXT else |loud|];
      ContextIsNeighbour(loud, start, w);
      ghost var grown := Grown(holes, start, w, start > 0 && w < |loud|);
      ListAfterRun(holes, loud, start, w);
      if runMs >= 15 && runMs <= 2000 && speechBefore && speechAfter {
        holes := holes + [(start, runMs)];
      }
      assert holes == grown;
    }
  }

  /** One flag per whole window: does it hold a loud sample? */
  ghost predicate Classifies(loud: seq<bool>, samples: seq<int>, win: nat)
    requires win > 0
  {
    |loud| == |samples| / win && forall w :: 0 <= w < |loud| ==> (loud[w] <==> LoudWindow(samples, win, w))
  }

  /** The first loop: the peak of each window against the threshold. */
  method Classify(samples: seq<int>, win: nat) returns (loud: seq<bool>)
    requires win > 0
    ensures Classifies(loud, samples, win)
  {
    loud := [];
    var n := |samples| / win;
    for w := 0 to n
      invariant |loud| == w
      invariant forall i :: 0 <= i < w ==> (loud[i] <==> LoudWindow(samples, win, i))
    {
      var seg := Window(samples, win, w);
      WindowIsSlice(samples, win, w);
      loud := loud + [Peak(seg) > THRESHOLD];
    }
  }

  /** The whole scan of a recording, from samples to holes. */
  method AnalyzeRaw(samples: seq<int>, rate: nat) returns (holes: seq<(nat, nat)>)
    requires rate >= 100
    ensures exists loud: seq<bool> :: Classifies(loud, samples, rate / 100) && ListsHoles(holes, loud, |loud|)
  {
    var loud := Classify(samples, rate / 100);
    holes := Scan(loud);
  }
}
