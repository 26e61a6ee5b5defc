/** The condition language of an owner attestation, over ASCII strings. */
module Conditions {

  import opened Wrappers

  const KIND := "kind="
  const BEFORE := "created_at<"
  const AFTER := "created_at>"

  /** `str.split("&")`. */
  function Split(s: string): (parts: seq<string>)
    ensures parts != []
    decreases |s|
  {
    if s == "" then [""] else Prepend(s[0], Split(s[1..]))
  }

  /** One more character in front of a string that splits into `parts`. */
  function Prepend(c: char, parts: seq<string>): seq<string>
    requires parts != []
    ensures Prepend(c, parts) != []
  {
    if c == '&' then [""] + parts else [[c] + parts[0]] + parts[1..]
  }

  lemma PrependConcat(c: char, p: seq<string>, q: seq<string>)
    requires p != []
    ensures Prepend(c, p + q) == Prepend(c, p) + q
  {
    assert (p + q)[1..] == p[1..] + q;
  }

  function Digit(n: nat): char
    requires n < 10
  {
    '0' + n as char
  }

  function DigitValue(c: char): nat
    requires '0' <= c <= '9'
  {
    (c - '0') as nat
  }

  predicate IsDigits(s: string) {
    s != "" && forall i :: 0 <= i < |s| ==> '0' <= s[i] <= '9'
  }

  /** `int(s)`. */
  function ToInt(s: string): nat
    requires forall i :: 0 <= i < |s| ==> '0' <= s[i] <= '9'
    decreases |s|
  {
    if s == "" then 0 else 10 * ToInt(s[..|s| - 1]) + DigitValue(s[|s| - 1])
  }

  function Natural(n: nat): string {
    if n < 10 then [Digit(n)] else Natural(n / 10) + [Digit(n % 10)]
  }

  /** `str(n)`. */
  function Decimal(n: int): string {
    if n < 0 then "-" + Natural(-n) else Natural(n)
  }

  /** What a clause asks for; a clause of no known form asks the impossible. */
  datatype Clause = Anything | KindIs(text: string) | Before(bound: nat) | After(bound: nat) | Never

  function Read(clause: string): Clause {
    if KIND <= clause then KindIs(clause[|KIND|..])
    else if BEFORE <= clause then
      var bound := clause[|BEFORE|..];
      if IsDigits(bound) then Before(ToInt(bound)) else Never
    else if AFTER <= clause then
      var bound := clause[|AFTER|..];
      if IsDigits(bound) then After(ToInt(bound)) else Never
    else if clause == "" then Anything
    else Never
  }

  predicate Holds(c: Clause, kind: int, at: int) {
    match c
    case Anything => true
    case KindIs(text) => text == Decimal(kind)
    case Before(bound) => at < bound
    case After(bound) => at > bound
    case Never => false
  }

  predicate Scan(clauses: seq<string>, kind: int, at: int)
    decreases |clauses|
  {
    clauses == [] || (Holds(Read(clauses[0]), kind, at) && Scan(clauses[1..], kind, at))
  }

  /** `_conditions_apply`; None stands for a field that is missing or not an integer. */
  predicate Apply(conditions: string, kind: Option<int>, at: Option<int>) {
    kind.Some? && at.Some? && Scan(Split(conditions), kind.value, at.value)
  }

  // ------------------------------------------------------------ conjunction

  lemma {:induction false} ScanAll(clauses: seq<string>, kind: int, at: int)
    ensures Scan(clauses, kind, at) <==> forall c :: c in clauses ==> Holds(Read(c), kind, at)
    decreases |clauses|
  {
    if clauses != [] {
      assert clauses == [clauses[0]] + clauses[1..];
      ScanAll(clauses[1..], kind, at);
    }
  }

  lemma {:induction false} SplitJoin(a: string, b: string)
    ensures Split(a + "&" + b) == Split(a) + Split(b)
    decreases |a|
  {
    var s := a + "&" + b;
    if a == "" {
      assert s[1..] == b && Split("") == [""];
    } else {
      assert s[1..] == a[1..] + "&" + b;
      SplitJoin(a[1..], b);
      PrependConcat(a[0], Split(a[1..]), Split(b));
    }
  }

  /** Joining two condition strings with "&" asks for both. */
  lemma JoinIsAnd(a: string, b: string, kind: Option<int>, at: Option<int>)
    ensures Apply(a + "&" + b, kind, at) <==> Apply(a, kind, at) && Apply(b, kind, at)
  {
    if kind.Some? && at.Some? {
      SplitJoin(a, b);
      ScanAll(Split(a), kind.value, at.value);
      ScanAll(Split(b), kind.value, at.value);
      ScanAll(Split(a) + Split(b), kind.value, at.value);
    }
  }

  /** Only the set of clauses matters: reordering or repeating them changes nothing. */
  lemma OnlyClausesMatter(a: string, b: string, kind: Option<int>, at: Option<int>)
    requires forall c :: c in Split(a) <==> c in Split(b)
    ensures Apply(a, kind, at) <==> Apply(b, kind, at)
  {
    if kind.Some? && at.Some? {
      ScanAll(Split(a), kind.value, at.value);
      ScanAll(Split(b), kind.value, at.value);
    }
  }

  // ------------------------------------------------------------ the interval

  /** The largest `created_at>` bound. */
  function Lower(clauses: seq<string>): Option<nat>
    decreases |clauses|
  {
    if clauses == [] then None
    else
      var rest, c := Lower(clauses[1..]), Read(clauses[0]);
      if !c.After? then rest
      else if rest.Some? && rest.value > c.bound then rest else Some(c.bound)
  }

  /** The smallest `created_at<` bound. */
  function Upper(clauses: seq<string>): Option<nat>
    decreases |clauses|
  {
    if clauses == [] then None
    else
      var rest, c := Upper(clauses[1..]), Read(clauses[0]);
      if !c.Before? then rest
      else if rest.Some? && rest.value < c.bound then rest else Some(c.bound)
  }

  ghost predicate WellFormed(clauses: seq<string>) {
    forall c :: c in clauses ==> !Read(c).Never?
  }

  ghost predicate KindsMatch(clauses: seq<string>, kind: int) {
    forall c :: c in clauses && Read(c).KindIs? ==> Read(c).text == Decimal(kind)
  }

  predicate Inside(lower: Option<nat>, upper: Option<nat>, at: int) {
    (lower.Some? ==> lower.value < at) && (upper.Some? ==> at < upper.value)
  }

  lemma {:induction false} ScanIsInterval(clauses: seq<string>, kind: int, at: int)
    ensures Scan(clauses, kind, at)
            <==> WellFormed(clauses) && KindsMatch(clauses, kind) && Inside(Lower(clauses), Upper(clauses), at)
    decreases |clauses|
  {
    if clauses != [] {
      ScanIsInterval(clauses[1..], kind, at);
      HeadAndTail(clauses, kind);
    }
  }

  lemma HeadAndTail(clauses: seq<string>, kind: int)
    requires clauses != []
    ensures WellFormed(clauses) <==> !Read(clauses[0]).Never? && WellFormed(clauses[1..])
    ensures KindsMatch(clauses, kind)
            <==> (Read(clauses[0]).KindIs? ==> Read(clauses[0]).text == Decimal(kind)) && KindsMatch(clauses[1..], kind)
  {
    assert forall c :: c in clauses <==> c == clauses[0] || c in clauses[1..];
  }

  /**
    The meaning of a condition string: it accepts an event iff no clause is
    malformed, every kind clause is the decimal form of the event's kind, and
    `created_at` lies in the open interval from the greatest lower bound to the
    least upper bound.
  */
  lemma Meaning(conditions: string, kind: int, at: int)
    ensures var clauses := Split(conditions);
            Apply(conditions, Some(kind), Some(at))
            <==> WellFormed(clauses) && KindsMatch(clauses, kind) && Inside(Lower(clauses), Upper(clauses), at)
  {
    ScanIsInterval(Split(conditions), kind, at);
  }

  // ---------------------------------------------------------- decimal numerals

  lemma {:induction false} NaturalReadsBack(n: nat)
    ensures IsDigits(Natural(n)) && ToInt(Natural(n)) == n
  {
    if n < 10 {
      assert Natural(n)[..0] == "";
    } else {
      NaturalReadsBack(n / 10);
      var s := Natural(n);
      assert s[..|s| - 1] == Natural(n / 10);
    }
  }

  /** So a kind clause can be satisfied by one kind only. */
  lemma DecimalIsInjective(a: int, b: int)
    requires Decimal(a) == Decimal(b)
    ensures a == b
  {
    NaturalReadsBack(if a < 0 then -a else a);
    NaturalReadsBack(if b < 0 then -b else b);
    var da, db := Decimal(a), Decimal(b);
    assert da[0] == db[0];
    if a < 0 {
      assert da[1..] == Natural(-a);
      assert b < 0;
      assert db[1..] == Natural(-b);
    } else {
      assert b >= 0;
    }
  }

  lemma NoSeparatorInDecimal(n: int)
    ensures '&' !in Decimal(n)
  {
    NaturalReadsBack(if n < 0 then -n else n);
  }

  lemma ReadKind(text: string)
    ensures Read(KIND + text) == KindIs(text)
  {
    assert (KIND + text)[|KIND|..] == text;
  }

  /** The kind clause built from a kind accepts exactly that kind. */
  lemma KindClause(k: int, kind: int, at: int)
    ensures Apply(KIND + Decimal(k), Some(kind), Some(at)) <==> k == kind
  {
    var s := KIND + Decimal(k);
    NoSeparatorInDecimal(k);
    assert '&' !in KIND;
    NoSeparator(s);
    ReadKind(Decimal(k));
    ScanAll([s], kind, at);
    assert s in [s];
    if Decimal(k) == Decimal(kind) {
      DecimalIsInjective(k, kind);
    }
  }

  lemma {:induction false} NoSeparator(s: string)
    requires '&' !in s
    ensures Split(s) == [s]
    decreases |s|
  {
    if s != "" {
      NoSeparator(s[1..]);
      assert [s[0]] + s[1..] == s;
    }
  }

  /** A single clause, of every form there is. */
  lemma ClauseMeans(text: string, kind: int, at: int)
    requires '&' !in text
    ensures Apply("kind=" + text, Some(kind), Some(at)) <==> text == Decimal(kind)
    ensures Apply("created_at<" + text, Some(kind), Some(at)) <==> IsDigits(text) && at < ToInt(text)
    ensures Apply("created_at>" + text, Some(kind), Some(at)) <==> IsDigits(text) && at > ToInt(text)
    ensures !("kind=" <= text) && !("created_at<" <= text) && !("created_at>" <= text) ==>
              (Apply(text, Some(kind), Some(at)) <==> text == "")
  {
    assert '&' !in KIND && '&' !in BEFORE && '&' !in AFTER;
    OneClause("kind=" + text, kind, at);
    OneClause("created_at<" + text, kind, at);
    OneClause("created_at>" + text, kind, at);
    OneClause(text, kind, at);
    ReadKind(text);
    ReadBounds(text);
  }

  lemma OneClause(clause: string, kind: int, at: int)
    requires '&' !in clause
    ensures Apply(clause, Some(kind), Some(at)) <==> Holds(Read(clause), kind, at)
  {
    NoSeparator(clause);
    ScanAll([clause], kind, at);
    assert clause in [clause];
  }

  lemma ReadBounds(text: string)
    ensures Read(BEFORE + text) == if IsDigits(text) then Before(ToInt(text)) else Never
    ensures Read(AFTER + text) == if IsDigits(text) then After(ToInt(text)) else Never
  {
    assert (BEFORE + text)[|BEFORE|..] == text && (AFTER + text)[|AFTER|..] == text;
    assert (BEFORE + text)[0] == 'c' && (AFTER + text)[0] == 'c' && KIND[0] == 'k';
    assert (AFTER + text)[|AFTER| - 1] == '>' && BEFORE[|BEFORE| - 1] == '<';
  }

  /** A clause written for a bound accepts exactly what lies on its side; no clause accepts an event without kind or time. */
  lemma BoundClauses(n: nat, kind: int, at: int)
    ensures Apply("created_at<" + Decimal(n), Some(kind), Some(at)) <==> at < n
    ensures Apply("created_at>" + Decimal(n), Some(kind), Some(at)) <==> at > n
    ensures forall c, k: Option<int>, t: Option<int> :: k == None || t == None ==> !Apply(c, k, t)
  {
    NoSeparatorInDecimal(n);
    NaturalReadsBack(n);
    ClauseMeans(Decimal(n), kind, at);
  }

  /** The numerals are decimal, most significant digit first. */
  lemma Numerals()
    ensures Decimal(0) == "0" && Decimal(-40) == "-40" && Decimal(30023) == "30023"
  {
    assert Natural(30) == Natural(3) + "0" && Natural(4) == "4" && Natural(40) == Natural(4) + "0";
    assert Natural(300) == Natural(30) + "0" && Natural(3002) == Natural(300) + "2";
    assert Natural(30023) == Natural(3002) + "3";
  }

  /** Leading zeros are allowed in a bound, a sign and the empty string are not. */
  lemma BoundNumerals()
    ensures IsDigits("070") && ToInt("070") == 70 && !IsDigits("") && !IsDigits("-7")
  {
    assert "070"[..2] == "07" && "07"[..1] == "0" && "0"[..0] == "";
    assert ToInt("0") == 0 && ToInt("07") == 7;
    assert "-7"[0] == '-';
  }
}
