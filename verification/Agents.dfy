/**
  Owner verification of agent profiles and the resolution of agents by name. The
  signature check is an oracle; so are case folding and the relay's answers.
*/
module Agents {

  import opened Wrappers
  import Conditions

  /** A JSON tag: a list, whose non-string members are None, or something else. */
  datatype Tag = Fields(fields: seq<Option<string>>) | NotAList

  /** A kind-0 event; None stands for a field that is missing or of another type. */
  datatype Profile = Profile(pubkey: Option<string>, tags: Option<seq<Tag>>, kind: Option<int>, createdAt: Option<int>)

  datatype Verification =
    | Verified
    | MissingProfile
    | MissingAuth
    | MultipleAuthTags
    | InvalidAuth
    | OwnerMismatch
    | ConditionMismatch
    | InvalidAgentPubkey

  datatype OracleError = BadAgentPubkey | BadTag

  /** `verify_auth_tag`: the owner a tag attests for an agent. */
  type Oracle = (seq<Option<string>>, string) -> Result<string, OracleError>

  /** A tag that verifies has its conditions, a string, in third place. */
  ghost predicate Sound(oracle: Oracle) {
    forall tag: seq<Option<string>>, agent: string :: oracle(tag, agent).Success? ==> |tag| > 2 && tag[2].Some?
  }

  predicate IsAuth(t: Tag) {
    t.Fields? && t.fields != [] && t.fields[0] == Some("auth")
  }

  function AuthTags(tags: seq<Tag>): (r: seq<seq<Option<string>>>)
    decreases |tags|
  {
    if tags == [] then []
    else (if IsAuth(tags[0]) then [tags[0].fields] else []) + AuthTags(tags[1..])
  }

  predicate LowerHex(c: char) {
    '0' <= c <= '9' || 'a' <= c <= 'f'
  }

  predicate WellFormedPubkey(pubkey: string) {
    |pubkey| == 64 && forall i :: 0 <= i < |pubkey| ==> LowerHex(pubkey[i])
  }

  function Verify(oracle: Oracle, profile: Profile, owner: string): Verification
    requires Sound(oracle)
  {
    if profile.pubkey.None? || !WellFormedPubkey(profile.pubkey.value) then InvalidAgentPubkey
    else
      var tags := AuthTags(if profile.tags.Some? then profile.tags.value else []);
      if tags == [] then MissingAuth
      else if |tags| > 1 then MultipleAuthTags
      else
        match oracle(tags[0], profile.pubkey.value)
        case Failure(BadAgentPubkey) => InvalidAgentPubkey
        case Failure(BadTag) => InvalidAuth
        case Success(attested) =>
          if attested != owner then OwnerMismatch
          else if !Conditions.Apply(tags[0][2].value, profile.kind, profile.createdAt) then ConditionMismatch
          else Verified
  }

  /** Exactly one position of `tags` holds an auth tag, and it is `tag`. */
  ghost predicate OnlyAuthTag(tags: seq<Tag>, tag: seq<Option<string>>) {
    exists n :: 0 <= n < |tags| && tags[n] == Fields(tag) && IsAuth(tags[n])
                && forall k :: 0 <= k < |tags| && k != n ==> !IsAuth(tags[k])
  }

  lemma {:induction false} NoAuthTags(tags: seq<Tag>)
    ensures AuthTags(tags) == [] <==> forall k :: 0 <= k < |tags| ==> !IsAuth(tags[k])
    decreases |tags|
  {
    if tags != [] {
      NoAuthTags(tags[1..]);
      assert forall k :: 0 < k < |tags| ==> tags[k] == tags[1..][k - 1];
    }
  }

  lemma {:induction false} OneAuthTag(tags: seq<Tag>, tag: seq<Option<string>>)
    ensures AuthTags(tags) == [tag] <==> OnlyAuthTag(tags, tag)
    decreases |tags|
  {
    if tags != [] {
      var rest := tags[1..];
      assert forall k :: 0 < k < |tags| ==> tags[k] == rest[k - 1];
      if IsAuth(tags[0]) {
        NoAuthTags(rest);
        assert AuthTags(tags) == [tags[0].fields] + AuthTags(rest);
        assert AuthTags(tags) == [tag] <==> tags[0] == Fields(tag) && AuthTags(rest) == [];
        if OnlyAuthTag(tags, tag) {
          assert forall k :: 0 <= k < |rest| ==> rest[k] == tags[k + 1];
        }
      } else {
        OneAuthTag(rest, tag);
        SkipOtherTag(tags, tag);
      }
    }
  }

  lemma SkipOtherTag(tags: seq<Tag>, tag: seq<Option<string>>)
    requires tags != [] && !IsAuth(tags[0])
    ensures OnlyAuthTag(tags, tag) <==> OnlyAuthTag(tags[1..], tag)
  {
    var rest := tags[1..];
    if OnlyAuthTag(rest, tag) {
      var n :| 0 <= n < |rest| && rest[n] == Fields(tag) && IsAuth(rest[n])
               && forall k :: 0 <= k < |rest| && k != n ==> !IsAuth(rest[k]);
      assert tags[n + 1] == Fields(tag);
      assert forall k :: 0 < k < |tags| ==> tags[k] == rest[k - 1];
    }
    if OnlyAuthTag(tags, tag) {
      var n :| 0 <= n < |tags| && tags[n] == Fields(tag) && IsAuth(tags[n])
               && forall k :: 0 <= k < |tags| && k != n ==> !IsAuth(tags[k]);
      assert rest[n - 1] == Fields(tag);
      assert forall k :: 0 <= k < |rest| ==> rest[k] == tags[k + 1];
    }
  }

  predicate IsAuthAt(tags: seq<Tag>, n: nat) {
    n < |tags| && tags[n].Fields? && |tags[n].fields| > 0 && tags[n].fields[0] == Some("auth")
  }

  lemma {:induction false} HowManyAuthTags(tags: seq<Tag>)
    ensures AuthTags(tags) == [] <==> forall n: nat :: !IsAuthAt(tags, n)
    ensures |AuthTags(tags)| > 1 <==> exists n: nat, m: nat :: n < m && IsAuthAt(tags, n) && IsAuthAt(tags, m)
    decreases |tags|
  {
    if tags != [] {
      var rest := tags[1..];
      HowManyAuthTags(rest);
      assert forall n: nat :: IsAuthAt(tags, n + 1) <==> IsAuthAt(rest, n);
      assert forall n: nat :: IsAuthAt(tags, n) ==> n == 0 || IsAuthAt(rest, n - 1);
      assert IsAuthAt(tags, 0) <==> IsAuth(tags[0]);
      if n: nat, m: nat :| n < m && IsAuthAt(rest, n) && IsAuthAt(rest, m) {
        assert IsAuthAt(tags, n + 1) && IsAuthAt(tags, m + 1);
      }
      if IsAuth(tags[0]) && AuthTags(rest) != [] {
        var m: nat :| IsAuthAt(rest, m);
        assert IsAuthAt(tags, 0) && IsAuthAt(tags, m + 1);
      }
    }
  }

  /** A well-formed profile whose only auth tag is `tag`. */
  ghost predicate HasOnly(profile: Profile, tag: seq<Option<string>>) {
    && profile.pubkey.Some? && WellFormedPubkey(profile.pubkey.value)
    && profile.tags.Some? && OnlyAuthTag(profile.tags.value, tag)
  }

  lemma OnlyTagIs(profile: Profile)
    requires profile.pubkey.Some? && WellFormedPubkey(profile.pubkey.value)
    ensures var tags := AuthTags(if profile.tags.Some? then profile.tags.value else []);
            forall tag: seq<Option<string>> :: HasOnly(profile, tag) <==> tags == [tag]
  {
    var tags := AuthTags(if profile.tags.Some? then profile.tags.value else []);
    forall tag: seq<Option<string>> ensures HasOnly(profile, tag) <==> tags == [tag] {
      if profile.tags.Some? {
        OneAuthTag(profile.tags.value, tag);
      }
    }
  }

  function TagsOf(profile: Profile): seq<Tag> {
    if profile.tags.Some? then profile.tags.value else []
  }

  predicate WellFormed(profile: Profile) {
    profile.pubkey.Some? && WellFormedPubkey(profile.pubkey.value)
  }

  /** A well-formed profile has only one auth tag, or not exactly one. */
  lemma SoleTag(profile: Profile)
    requires WellFormed(profile)
    ensures var tags := AuthTags(TagsOf(profile));
            && (|tags| == 1 ==> HasOnly(profile, tags[0]))
            && forall tag: seq<Option<string>> :: HasOnly(profile, tag) ==> |tags| == 1 && tag == tags[0]
  {
    OnlyTagIs(profile);
    var tags := AuthTags(TagsOf(profile));
    if |tags| == 1 {
      assert tags == [tags[0]];
    }
  }

  /** When each verdict is given, first those on the number of auth tags. A profile that is there never counts as missing. */
  lemma CountVerdicts(oracle: Oracle, profile: Profile, owner: string)
    requires Sound(oracle)
    ensures Verify(oracle, profile, owner) != MissingProfile
    ensures Verify(oracle, profile, owner) == MissingAuth
            <==> WellFormed(profile) && forall n: nat :: !IsAuthAt(TagsOf(profile), n)
    ensures Verify(oracle, profile, owner) == MultipleAuthTags
            <==> WellFormed(profile)
                 && exists n: nat, m: nat :: n < m && IsAuthAt(TagsOf(profile), n) && IsAuthAt(TagsOf(profile), m)
  {
    HowManyAuthTags(TagsOf(profile));
  }

  /** Then those on the key and on the signature of the only auth tag. */
  lemma SignatureVerdicts(oracle: Oracle, profile: Profile, owner: string)
    requires Sound(oracle)
    ensures Verify(oracle, profile, owner) == InvalidAgentPubkey
            <==> !WellFormed(profile)
                 || exists tag: seq<Option<string>> :: HasOnly(profile, tag) && oracle(tag, profile.pubkey.value) == Failure(BadAgentPubkey)
    ensures Verify(oracle, profile, owner) == InvalidAuth
            <==> exists tag: seq<Option<string>> :: HasOnly(profile, tag) && oracle(tag, profile.pubkey.value) == Failure(BadTag)
  {
    if WellFormed(profile) {
      SoleTag(profile);
    }
  }

  /** The tag attests another owner. */
  ghost predicate AttestsOther(oracle: Oracle, profile: Profile, owner: string, tag: seq<Option<string>>) {
    && HasOnly(profile, tag)
    && oracle(tag, profile.pubkey.value).Success? && oracle(tag, profile.pubkey.value).value != owner
  }

  /** It attests this owner, under conditions that the profile does not meet. */
  ghost predicate AttestsInVain(oracle: Oracle, profile: Profile, owner: string, tag: seq<Option<string>>) {
    && HasOnly(profile, tag) && oracle(tag, profile.pubkey.value) == Success(owner)
    && |tag| > 2 && tag[2].Some? && !Conditions.Apply(tag[2].value, profile.kind, profile.createdAt)
  }

  /** Then those on what it attests. */
  lemma AttestationVerdicts(oracle: Oracle, profile: Profile, owner: string)
    requires Sound(oracle)
    ensures Verify(oracle, profile, owner) == OwnerMismatch
            <==> exists tag: seq<Option<string>> :: AttestsOther(oracle, profile, owner, tag)
    ensures Verify(oracle, profile, owner) == ConditionMismatch
            <==> exists tag: seq<Option<string>> :: AttestsInVain(oracle, profile, owner, tag)
  {
    if WellFormed(profile) {
      SoleTag(profile);
      var tags := AuthTags(TagsOf(profile));
      if |tags| == 1 {
        assert AttestsOther(oracle, profile, owner, tags[0]) <==> Verify(oracle, profile, owner) == OwnerMismatch;
        assert AttestsInVain(oracle, profile, owner, tags[0]) <==> Verify(oracle, profile, owner) == ConditionMismatch;
      }
    }
  }

  /** The digits of a key are the sixteen lower-case ones. */
  lemma LowerHexMeans(c: char)
    ensures LowerHex(c) <==> c in "0123456789abcdef"
  {
    if '0' <= c <= '9' {
      assert "0123456789abcdef"[c as int - '0' as int] == c;
    } else if 'a' <= c <= 'f' {
      assert "0123456789abcdef"[10 + (c as int - 'a' as int)] == c;
    }
  }

  /** A key is well formed iff it is sixty-four such digits. */
  lemma KeyMeans(pubkey: string)
    ensures WellFormedPubkey(pubkey) <==> |pubkey| == 64 && forall c :: c in pubkey ==> c in "0123456789abcdef"
  {
    forall c ensures LowerHex(c) <==> c in "0123456789abcdef" {
      LowerHexMeans(c);
    }
    assert WellFormedPubkey(pubkey) ==> forall c :: c in pubkey ==> LowerHex(c);
    assert forall i :: 0 <= i < |pubkey| ==> pubkey[i] in pubkey;
  }

  /** The profile carries one auth tag only, the oracle attests the owner, and its conditions hold. */
  ghost predicate Attested(oracle: Oracle, profile: Profile, owner: string)
    requires Sound(oracle)
  {
    && profile.pubkey.Some? && WellFormedPubkey(profile.pubkey.value)
    && profile.tags.Some?
    && exists tag: seq<Option<string>> :: OnlyAuthTag(profile.tags.value, tag)
                     && oracle(tag, profile.pubkey.value) == Success(owner)
                     && Conditions.Apply(tag[2].value, profile.kind, profile.createdAt)
  }

  /** "verified" means attested, both ways. */
  lemma VerifiedIffAttested(oracle: Oracle, profile: Profile, owner: string)
    requires Sound(oracle)
    ensures Verify(oracle, profile, owner) == Verified <==> Attested(oracle, profile, owner)
  {
    if profile.pubkey.Some? && WellFormedPubkey(profile.pubkey.value) && profile.tags.Some? {
      var tags := profile.tags.value;
      if |AuthTags(tags)| == 1 {
        assert AuthTags(tags) == [AuthTags(tags)[0]];
        OneAuthTag(tags, AuthTags(tags)[0]);
      }
      if Attested(oracle, profile, owner) {
        var tag: seq<Option<string>> :| OnlyAuthTag(tags, tag) && oracle(tag, profile.pubkey.value) == Success(owner)
                   && Conditions.Apply(tag[2].value, profile.kind, profile.createdAt);
        OneAuthTag(tags, tag);
      }
    }
  }

  // ------------------------------------------------------- ordering of strings

  /** Code point order, as `sorted` uses it. */
  predicate Less(a: string, b: string)
    decreases |a|
  {
    b != "" && (a == "" || a[0] < b[0] || (a[0] == b[0] && Less(a[1..], b[1..])))
  }

  lemma {:induction false} LessTotal(a: string, b: string)
    ensures Less(a, b) || Less(b, a) || a == b
    ensures !(Less(a, b) && Less(b, a))
    ensures !Less(a, a)
    decreases |a|
  {
    if a != "" {
      LessTotal(a[1..], a[1..]);
      if b != "" {
        LessTotal(a[1..], b[1..]);
        if a[0] == b[0] && a[1..] == b[1..] {
          assert a == [a[0]] + a[1..] && b == [b[0]] + b[1..];
        }
      }
    }
  }

  lemma {:induction false} LessTransitive(a: string, b: string, c: string)
    requires Less(a, b) && Less(b, c)
    ensures Less(a, c)
    decreases |a|
  {
    if a != "" && a[0] == b[0] && b[0] == c[0] {
      LessTransitive(a[1..], b[1..], c[1..]);
    }
  }

  /** The first difference decides, and a proper prefix comes first. */
  lemma {:induction false} LessMeans(a: string, b: string)
    ensures Less(a, b) <==> exists n: nat :: DiffersAt(a, b, n) && (n == |a| || a[n] < b[n])
    decreases |a|
  {
    if a == "" || b == "" || a[0] != b[0] {
      if b != "" {
        assert a[..0] == b[..0] && DiffersAt(a, b, 0);
      }
      forall n: nat | DiffersAt(a, b, n) ensures n == 0 {
        if n > 0 {
          SharedHead(a, b, n);
        }
      }
    } else {
      LessMeans(a[1..], b[1..]);
      forall n: nat ensures DiffersAt(a, b, n + 1) <==> DiffersAt(a[1..], b[1..], n) {
        DiffersLater(a, b, n);
      }
      if n: nat :| DiffersAt(a[1..], b[1..], n) && (n == |a[1..]| || a[1..][n] < b[1..][n]) {
        assert DiffersAt(a, b, n + 1);
      }
      if n: nat :| DiffersAt(a, b, n) && (n == |a| || a[n] < b[n]) {
        assert n > 0 && DiffersAt(a[1..], b[1..], n - 1);
      }
    }
  }

  /** The strings agree up to `n`, where `b` goes on and `a` ends or has another character. */
  predicate DiffersAt(a: string, b: string, n: nat) {
    n <= |a| && n < |b| && a[..n] == b[..n] && (n == |a| || a[n] != b[n])
  }

  lemma SharedHead(a: string, b: string, n: nat)
    requires n > 0 && DiffersAt(a, b, n)
    ensures a != "" && b != "" && a[0] == b[0]
  {
    assert a[..n][0] == a[0] && b[..n][0] == b[0];
  }

  lemma DiffersLater(a: string, b: string, n: nat)
    requires a != "" && b != "" && a[0] == b[0]
    ensures DiffersAt(a, b, n + 1) <==> DiffersAt(a[1..], b[1..], n)
  {
    if n + 1 <= |a| && n + 1 < |b| {
      assert a[..n + 1] == [a[0]] + a[1..][..n] && b[..n + 1] == [b[0]] + b[1..][..n];
      assert a[..n + 1][1..] == a[1..][..n] && b[..n + 1][1..] == b[1..][..n];
    }
  }

  predicate IsLeast(m: string, s: set<string>) {
    m in s && forall x :: x in s ==> x == m || Less(m, x)
  }

  lemma LeastOfMore(s: set<string>, x: string, m: string)
    requires x in s && IsLeast(m, s - {x})
    ensures IsLeast(if Less(x, m) then x else m, s)
  {
    LessTotal(x, m);
    forall y | y in s && y != x && Less(x, m) ensures Less(x, y) {
      if y != m {
        assert y in s - {x};
        LessTransitive(x, m, y);
      }
    }
  }

  lemma LeastExists(s: set<string>) returns (m: string)
    requires s != {}
    ensures IsLeast(m, s)
    decreases s
  {
    var x :| x in s;
    assert forall y :: y in s ==> y == x || y in s - {x};
    if s - {x} == {} {
      m := x;
    } else {
      var rest := LeastExists(s - {x});
      LeastOfMore(s, x, rest);
      m := if Less(x, rest) then x else rest;
    }
  }

  lemma LeastIsUnique(s: set<string>, m: string, n: string)
    requires IsLeast(m, s) && IsLeast(n, s)
    ensures m == n
  {
    LessTotal(m, n);
  }

  function LeastOf(s: set<string>): (m: string)
    requires s != {}
    ensures IsLeast(m, s)
  {
    assert exists m :: IsLeast(m, s) by {
      var m := LeastExists(s);
    }
    assert forall m, n :: IsLeast(m, s) && IsLeast(n, s) ==> m == n by {
      forall m, n | IsLeast(m, s) && IsLeast(n, s) ensures m == n {
        LeastIsUnique(s, m, n);
      }
    }
    var m :| IsLeast(m, s);
    m
  }

  ghost predicate StrictlySorted(s: seq<string>) {
    forall i, j :: 0 <= i < j < |s| ==> Less(s[i], s[j])
  }

  /** `sorted` of a set. */
  function Sorted(s: set<string>): seq<string> {
    if s == {} then []
    else
      var m := LeastOf(s);
      [m] + Sorted(s - {m})
  }

  lemma {:induction false} SortedLists(s: set<string>)
    ensures StrictlySorted(Sorted(s)) && forall x :: x in Sorted(s) <==> x in s
  {
    if s != {} {
      var m := LeastOf(s);
      SortedLists(s - {m});
      assert forall i :: 0 <= i < |Sorted(s - {m})| ==> Sorted(s - {m})[i] in s - {m};
    }
  }

  // -------------------------------------------------------------- resolution

  /** A managed-agent record: the name in its content, if it has one, and its tags. */
  datatype AgentRecord = AgentRecord(name: Option<string>, tags: seq<seq<string>>)

  /** The value of the first "d" tag, or nothing. */
  function DTag(tags: seq<seq<string>>): string
    decreases |tags|
  {
    if tags == [] then ""
    else if |tags[0]| >= 2 && tags[0][0] == "d" then tags[0][1]
    else DTag(tags[1..])
  }

  predicate IsDAt(tags: seq<seq<string>>, n: nat) {
    n < |tags| && |tags[n]| >= 2 && tags[n][0] == "d"
  }

  /** The first "d" tag with a value counts, and no other. */
  lemma {:induction false} DTagMeans(tags: seq<seq<string>>)
    ensures (forall n: nat :: !IsDAt(tags, n)) ==> DTag(tags) == ""
    ensures forall n: nat :: IsDAt(tags, n) && (forall m: nat :: m < n ==> !IsDAt(tags, m)) ==> DTag(tags) == tags[n][1]
    decreases |tags|
  {
    if tags != [] {
      DTagMeans(tags[1..]);
      assert forall n: nat :: IsDAt(tags, n + 1) <==> IsDAt(tags[1..], n);
      if forall n: nat :: !IsDAt(tags, n) {
        assert !IsDAt(tags, 0);
        forall n: nat ensures !IsDAt(tags[1..], n) {
          assert !IsDAt(tags, n + 1);
        }
      }
      forall n: nat | IsDAt(tags, n) && (forall m: nat :: m < n ==> !IsDAt(tags, m)) ensures DTag(tags) == tags[n][1] {
        if n > 0 {
          assert IsDAt(tags[1..], n - 1) && !IsDAt(tags, 0);
          forall m: nat | m < n - 1 ensures !IsDAt(tags[1..], m) {
            assert !IsDAt(tags, m + 1);
          }
        }
      }
    }
  }

  predicate Names(lower: string -> string, r: AgentRecord, name: string) {
    r.name.Some? && lower(r.name.value) == lower(name) && DTag(r.tags) != ""
  }

  /** The profile `by_author` keeps: the last one in the answer with that pubkey. */
  function LastBy(profiles: seq<Profile>, pubkey: string): Option<Profile>
    decreases |profiles|
  {
    if profiles == [] then None
    else
      var last := profiles[|profiles| - 1];
      if last.pubkey == Some(pubkey) then Some(last) else LastBy(profiles[..|profiles| - 1], pubkey)
  }

  /** That is: some profile of the author after which there is no other of theirs. */
  lemma {:induction false} LastByMeans(profiles: seq<Profile>, pubkey: string)
    ensures LastBy(profiles, pubkey).None? <==> forall n :: 0 <= n < |profiles| ==> profiles[n].pubkey != Some(pubkey)
    ensures forall n :: 0 <= n < |profiles| && profiles[n].pubkey == Some(pubkey)
                        && (forall m :: n < m < |profiles| ==> profiles[m].pubkey != Some(pubkey)) ==>
              LastBy(profiles, pubkey) == Some(profiles[n])
    decreases |profiles|
  {
    if profiles != [] {
      var init := profiles[..|profiles| - 1];
      LastByMeans(init, pubkey);
      forall n | 0 <= n < |profiles| && profiles[n].pubkey == Some(pubkey)
                 && (forall m :: n < m < |profiles| ==> profiles[m].pubkey != Some(pubkey))
        ensures LastBy(profiles, pubkey) == Some(profiles[n])
      {
        if n < |init| {
          assert init[n] == profiles[n] && forall m :: n < m < |init| ==> init[m] == profiles[m];
        }
      }
    }
  }

  datatype Entry = Entry(pubkey: string, verification: Verification, profile: Option<Profile>, owner: Option<string>)

  function EntryFor(oracle: Oracle, profiles: seq<Profile>, owner: string, pubkey: string): Entry
    requires Sound(oracle)
  {
    match LastBy(profiles, pubkey)
    case None => Entry(pubkey, MissingProfile, None, None)
    case Some(profile) =>
      var v := Verify(oracle, profile, owner);
      Entry(pubkey, v, Some(profile), if v.Verified? then Some(owner) else None)
  }

  /** An entry names an owner exactly when its author's last profile is attested by that owner. */
  lemma OwnedIffAttested(oracle: Oracle, profiles: seq<Profile>, owner: string, pubkey: string)
    requires Sound(oracle)
    ensures var e := EntryFor(oracle, profiles, owner, pubkey);
            && e.pubkey == pubkey && e.profile == LastBy(profiles, pubkey)
            && (e.verification == MissingProfile <==> e.profile.None?)
            && (e.profile.Some? ==> e.verification == Verify(oracle, e.profile.value, owner))
            && (e.owner == Some(owner) <==> e.profile.Some? && Attested(oracle, e.profile.value, owner))
            && (e.owner.Some? ==> e.owner == Some(owner))
  {
    if LastBy(profiles, pubkey).Some? {
      VerifiedIffAttested(oracle, LastBy(profiles, pubkey).value, owner);
    }
  }

  method ByAuthor(profiles: seq<Profile>) returns (byAuthor: map<string, Profile>)
    ensures forall pk :: (pk in byAuthor <==> LastBy(profiles, pk).Some?)
                         && (pk in byAuthor ==> LastBy(profiles, pk) == Some(byAuthor[pk]))
  {
    byAuthor := map[];
    for n := 0 to |profiles|
      invariant forall pk :: (pk in byAuthor <==> LastBy(profiles[..n], pk).Some?)
                             && (pk in byAuthor ==> LastBy(profiles[..n], pk) == Some(byAuthor[pk]))
    {
      assert profiles[..n + 1][..n] == profiles[..n];
      if profiles[n].pubkey.Some? {
        byAuthor := byAuthor[profiles[n].pubkey.value := profiles[n]];
      }
    }
    assert profiles[..|profiles|] == profiles;
  }

  method Describe(oracle: Oracle, authors: seq<string>, profiles: seq<Profile>, owner: string) returns (out: seq<Entry>)
    requires Sound(oracle)
    ensures |out| == |authors|
    ensures forall i :: 0 <= i < |out| ==> out[i] == EntryFor(oracle, profiles, owner, authors[i])
  {
    var byAuthor := ByAuthor(profiles);
    out := [];
    for n := 0 to |authors|
      invariant |out| == n
      invariant forall i :: 0 <= i < n ==> out[i] == EntryFor(oracle, profiles, owner, authors[i])
    {
      var pk := authors[n];
      var entry := Entry(pk, MissingProfile, None, None);
      if pk in byAuthor {
        var profile := byAuthor[pk];
        var v := Verify(oracle, profile, owner);
        entry := Entry(pk, v, Some(profile), if v.Verified? then Some(owner) else None);
      }
      out := out + [entry];
    }
  }

  method Candidates(lower: string -> string, records: seq<AgentRecord>, name: string) returns (pubkeys: set<string>)
    ensures forall pk :: pk in pubkeys <==> Candidate(lower, records, name, pk)
  {
    pubkeys := {};
    for n := 0 to |records|
      invariant forall pk :: pk in pubkeys <==> Candidate(lower, records[..n], name, pk)
    {
      var r := records[n];
      assert records[..n + 1] == records[..n] + [r];
      CandidatePush(lower, records[..n], r, name);
      if r.name.Some? && lower(r.name.value) == lower(name) {
        var d := DTag(r.tags);
        if d != "" {
          pubkeys := pubkeys + {d};
        }
      }
    }
    assert records[..|records|] == records;
  }

  /** Some record of that name, folded, carries this d tag, and the tag is not empty. */
  ghost predicate Candidate(lower: string -> string, records: seq<AgentRecord>, name: string, pubkey: string) {
    exists r :: r in records && Names(lower, r, name) && DTag(r.tags) == pubkey
  }

  /** Candidates do not depend on the case of the name asked for, nor on that of the records' names. */
  lemma CaseDoesNotMatter(lower: string -> string, records: seq<AgentRecord>, name: string, other: string, pubkey: string)
    requires lower(name) == lower(other)
    ensures Candidate(lower, records, name, pubkey) <==> Candidate(lower, records, other, pubkey)
    ensures forall r :: r in records && r.name == Some(other) && DTag(r.tags) != "" ==> Candidate(lower, records, name, DTag(r.tags))
    ensures Candidate(lower, records, name, pubkey) ==>
              pubkey != "" && exists r :: r in records && r.name.Some? && lower(r.name.value) == lower(other) && DTag(r.tags) == pubkey
  {
    if Candidate(lower, records, name, pubkey) {
      var r :| r in records && Names(lower, r, name) && DTag(r.tags) == pubkey;
      assert Names(lower, r, other);
    }
    if Candidate(lower, records, other, pubkey) {
      var r :| r in records && Names(lower, r, other) && DTag(r.tags) == pubkey;
      assert Names(lower, r, name);
    }
  }

  lemma CandidatePush(lower: string -> string, records: seq<AgentRecord>, r: AgentRecord, name: string)
    ensures forall pk :: Candidate(lower, records + [r], name, pk)
                         <==> Candidate(lower, records, name, pk) || (Names(lower, r, name) && DTag(r.tags) == pk)
  {
    forall pk
      ensures Candidate(lower, records + [r], name, pk)
              <==> Candidate(lower, records, name, pk) || (Names(lower, r, name) && DTag(r.tags) == pk)
    {
      assert r in records + [r];
    }
  }

  /**
    Resolution over whatever the relay answers: one entry per candidate, in code
    point order, each made from its author's last profile in the answer to the
    query for all candidates.
  */
  method ResolveAgent(lower: string -> string, oracle: Oracle, records: seq<AgentRecord>, ask: seq<string> -> seq<Profile>,
                      name: string, owner: string)
    returns (out: seq<Entry>)
    requires Sound(oracle)
    ensures exists authors ::
              && StrictlySorted(authors)
              && (forall pk :: pk in authors <==> Candidate(lower, records, name, pk))
              && |out| == |authors|
              && forall i :: 0 <= i < |out| ==> out[i] == EntryFor(oracle, ask(authors), owner, authors[i])
  {
    var pubkeys := Candidates(lower, records, name);
    var authors := Sorted(pubkeys);
    SortedLists(pubkeys);
    if pubkeys == {} {
      out := [];
      assert authors == [];
    } else {
      out := Describe(oracle, authors, ask(authors), owner);
    }
  }
}
