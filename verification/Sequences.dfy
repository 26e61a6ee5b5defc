/** Orderings and distinctness of sequences, shared by the state machines. */
module Sequences {

  ghost predicate Increasing(ids: seq<nat>) {
    forall i, j :: 0 <= i < j < |ids| ==> ids[i] < ids[j]
  }

  ghost predicate Below(ids: seq<nat>, bound: nat) {
    forall i :: 0 <= i < |ids| ==> ids[i] < bound
  }

  ghost predicate Distinct<T>(s: seq<T>) {
    forall i, j :: 0 <= i < j < |s| ==> s[i] != s[j]
  }

  lemma DistinctPush<T>(s: seq<T>, x: T)
    requires Distinct(s) && x !in s
    ensures Distinct(s + [x]) && forall y :: y in s + [x] <==> y in s || y == x
  {
  }

  lemma DistinctTail<T>(s: seq<T>)
    requires Distinct(s) && s != []
    ensures Distinct(s[1..]) && forall y :: y in s[1..] <==> y in s && y != s[0]
  {
    assert s == [s[0]] + s[1..];
  }

  /** Dropping the middle keeps the rest in order. */
  lemma IncreasingDrop(a: seq<nat>, b: seq<nat>, c: seq<nat>, bound: nat)
    requires Increasing(a + b + c) && Below(a + b + c, bound)
    ensures Increasing(a + c) && Below(a + c, bound)
  {
    var all := a + b + c;
    forall i, j | 0 <= i < j < |a + c| ensures (a + c)[i] < (a + c)[j] {
      var i' := if i < |a| then i else i + |b|;
      var j' := if j < |a| then j else j + |b|;
      assert (a + c)[i] == all[i'] && (a + c)[j] == all[j'];
    }
    forall i | 0 <= i < |a + c| ensures (a + c)[i] < bound {
      assert (a + c)[i] == all[if i < |a| then i else i + |b|];
    }
  }
}
