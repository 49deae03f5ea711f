/** The family tree page's queries: the condition filter, the list of distinct
    condition names, the three generation groups, the severity totals and the
    per-condition counts, and the two badge lookups. */
module FamilyTree {
  import opened JsText
  import opened JsArray
  import opened Records

  // ---------------------------------------------------------------------------
  // Badge lookups

  const MildColor := "bg-green-100 text-green-800 border-green-200"
  const ModerateColor := "bg-yellow-100 text-yellow-800 border-yellow-200"
  const SevereColor := "bg-red-100 text-red-800 border-red-200"
  const UnknownColor := "bg-gray-100 text-gray-800 border-gray-200"

  /** `getSeverityColor`: one colour per known severity, grey for anything else. */
  function SeverityColor(severity: string): (r: string)
    ensures r == UnknownColor <==> severity !in {"mild", "moderate", "severe"}
    ensures severity == "mild" ==> r == MildColor
    ensures severity == "moderate" ==> r == ModerateColor
    ensures severity == "severe" ==> r == SevereColor
  {
    match severity
    case "mild" => MildColor
    case "moderate" => ModerateColor
    case "severe" => SevereColor
    case _ => UnknownColor
  }

  const MaleIcon := "\U{1F468}"
  const FemaleIcon := "\U{1F469}"
  const PersonIcon := "\U{1F464}"

  /** `getGenderIcon`: a man for "male", a woman for "female", a person for anything else. */
  function GenderIcon(gender: string): (r: string)
    ensures r == PersonIcon <==> gender != "male" && gender != "female"
    ensures gender == "male" ==> r == MaleIcon
    ensures gender == "female" ==> r == FemaleIcon
  {
    match gender
    case "male" => MaleIcon
    case "female" => FemaleIcon
    case _ => PersonIcon
  }

  // ---------------------------------------------------------------------------
  // The condition filter

  /** Some condition of m contains the filter text, ignoring letter case. */
  predicate HasMatchingCondition(m: FamilyMember, filter: string) {
    exists c :: 0 <= c < |m.medicalHistory| && Contains(ToLower(m.medicalHistory[c].condition), ToLower(filter))
  }

  /** `filteredMembers`: "all" keeps everyone, any other text keeps the members
      with a matching condition. */
  function FilteredMembers(members: seq<FamilyMember>, filter: string): (r: seq<FamilyMember>)
    ensures filter == "all" ==> r == members
    ensures forall k :: 0 <= k < |r| ==> r[k] in members
  {
    if filter == "all" then members
    else
      var r := Filter(members, (m: FamilyMember) => HasMatchingCondition(m, filter));
      FilterSubMultiset(members, (m: FamilyMember) => HasMatchingCondition(m, filter));
      assert forall k :: 0 <= k < |r| ==> r[k] in multiset(r);
      r
  }

  /** Any other filter keeps exactly the members with a matching condition, in order. */
  lemma FilteredMembersExactly(members: seq<FamilyMember>, filter: string, m: FamilyMember)
    requires filter != "all"
    ensures m in FilteredMembers(members, filter) <==> m in members && HasMatchingCondition(m, filter)
    ensures forall front, back :: members == front + back ==>
              FilteredMembers(members, filter) == FilteredMembers(front, filter) + FilteredMembers(back, filter)
  {
    var keep := (m: FamilyMember) => HasMatchingCondition(m, filter);
    FilterMember(members, keep, m);
    forall front, back | members == front + back
      ensures FilteredMembers(members, filter) == FilteredMembers(front, filter) + FilteredMembers(back, filter)
    {
      FilterConcat(front, back, keep);
    }
  }

  // ---------------------------------------------------------------------------
  // Distinct condition names

  /** The condition names of the pairs, in order. */
  function Names(ps: seq<(FamilyMember, MedicalCondition)>): (names: seq<string>)
    ensures |names| == |ps|
    ensures forall k :: 0 <= k < |ps| ==> names[k] == ps[k].1.condition
  {
    seq(|ps|, k requires 0 <= k < |ps| => ps[k].1.condition)
  }

  /** Every name of every member's history, member by member. */
  function AllNames(members: seq<FamilyMember>): seq<string> {
    Names(Pairs(members))
  }

  /** The elements of s, each once, in order of first occurrence
      (what `Array.from` of a `Set` filled from s gives). */
  function Dedup(s: seq<string>): (r: seq<string>)
  {
    if s == [] then []
    else
      var d := Dedup(s[..|s| - 1]);
      if s[|s| - 1] in d then d else d + [s[|s| - 1]]
  }

  predicate Distinct(s: seq<string>) {
    forall i, j :: 0 <= i < j < |s| ==> s[i] != s[j]
  }

  /** The index of the first occurrence of x in s. */
  function FirstIndex(s: seq<string>, x: string): (i: nat)
    requires x in s
    ensures i < |s| && s[i] == x
    ensures forall j :: 0 <= j < i ==> s[j] != x
  {
    if s[0] == x then 0 else 1 + FirstIndex(s[1..], x)
  }

  lemma {:induction false} FirstIndexSnoc(s: seq<string>, y: string, x: string)
    requires x in s
    ensures FirstIndex(s + [y], x) == FirstIndex(s, x)
  {
    var i := FirstIndex(s, x);
    var t := s + [y];
    assert t[i] == x;
    var i' := FirstIndex(t, x);
    assert i' <= i;
    assert s[i'] == x;
  }

  /** Dedup keeps each element once, loses none, and lists them in the order of
      their first occurrence. */
  lemma {:induction false} DedupSpec(s: seq<string>)
    ensures Distinct(Dedup(s))
    ensures forall x :: x in Dedup(s) <==> x in s
    ensures forall i, j :: 0 <= i < j < |Dedup(s)| ==> FirstIndex(s, Dedup(s)[i]) < FirstIndex(s, Dedup(s)[j])
  {
    if s != [] {
      var front := s[..|s| - 1];
      var x := s[|s| - 1];
      assert s == front + [x];
      DedupSpec(front);
      var d := Dedup(front);
      forall y | y in front ensures FirstIndex(s, y) == FirstIndex(front, y) {
        FirstIndexSnoc(front, x, y);
      }
      if x !in d {
        assert FirstIndex(s, x) == |front|;
        var r := d + [x];
        forall i, j | 0 <= i < j < |r| ensures FirstIndex(s, r[i]) < FirstIndex(s, r[j]) {
          if j < |d| {
            assert r[i] == d[i] && r[j] == d[j];
          } else {
            assert r[i] == d[i] && d[i] in front;
          }
        }
      }
    }
  }

  /** `getAllConditions`: the nested loops add every condition name to a set,
      which keeps insertion order. */
  method GetAllConditions(members: seq<FamilyMember>) returns (r: seq<string>)
    ensures r == Dedup(AllNames(members))
  {
    r := [];
    var i := 0;
    while i < |members|
      invariant 0 <= i <= |members|
      invariant r == Dedup(Names(Pairs(members[..i])))
    {
      var member := members[i];
      ghost var done := Pairs(members[..i]);
      var j := 0;
      assert done + MemberPairs(member, 0) == done;
      while j < |member.medicalHistory|
        invariant 0 <= j <= |member.medicalHistory|
        invariant r == Dedup(Names(done + MemberPairs(member, j)))
      {
        var name := member.medicalHistory[j].condition;
        NextConditionName(done, member, j);
        if name !in r {
          r := r + [name];
        }
        j := j + 1;
      }
      PairsPrefix(members, i);
      i := i + 1;
    }
    assert members[..|members|] == members;
  }

  /** The inner loop's step: condition j of the member adds its name unless it is already listed. */
  lemma NextConditionName(done: seq<(FamilyMember, MedicalCondition)>, member: FamilyMember, j: nat)
    requires j < |member.medicalHistory|
    ensures Dedup(Names(done + MemberPairs(member, j + 1))) ==
              var d := Dedup(Names(done + MemberPairs(member, j)));
              var name := member.medicalHistory[j].condition;
              if name in d then d else d + [name]
  {
    var before := done + MemberPairs(member, j);
    assert before + [(member, member.medicalHistory[j])] == done + MemberPairs(member, j + 1);
    DedupNamesSnoc(before, (member, member.medicalHistory[j]));
  }

  /** One more pair adds its name to the distinct names unless it is already there. */
  lemma DedupNamesSnoc(ps: seq<(FamilyMember, MedicalCondition)>, p: (FamilyMember, MedicalCondition))
    ensures Dedup(Names(ps + [p])) ==
              if p.1.condition in Dedup(Names(ps)) then Dedup(Names(ps)) else Dedup(Names(ps)) + [p.1.condition]
  {
    var s := Names(ps + [p]);
    assert s[..|s| - 1] == Names(ps);
  }

  /** Every listed name occurs in some member's history, and every name that
      occurs is listed. */
  lemma AllConditionsOccur(members: seq<FamilyMember>, name: string)
    ensures name in Dedup(AllNames(members)) <==>
            exists m, c :: 0 <= m < |members| && 0 <= c < |members[m].medicalHistory| &&
                           members[m].medicalHistory[c].condition == name
  {
    DedupSpec(AllNames(members));
    var names := AllNames(members);
    var ps := Pairs(members);
    if name in names {
      var k :| 0 <= k < |names| && names[k] == name;
      PairInMembers(members, k);
    }
    if exists m, c :: 0 <= m < |members| && 0 <= c < |members[m].medicalHistory| &&
                      members[m].medicalHistory[c].condition == name {
      var m, c :| 0 <= m < |members| && 0 <= c < |members[m].medicalHistory| &&
                  members[m].medicalHistory[c].condition == name;
      PairsOrder(members, m, c);
      assert names[TotalConditions(members[..m]) + c] == name;
    }
  }

  /** Each pair is a member of the list with one of its own conditions. */
  lemma {:induction false} PairInMembers(members: seq<FamilyMember>, k: nat)
    requires k < |Pairs(members)|
    ensures exists m, c :: 0 <= m < |members| && 0 <= c < |members[m].medicalHistory| &&
                           Pairs(members)[k] == (members[m], members[m].medicalHistory[c])
  {
    var last := |members| - 1;
    var front := members[..last];
    if k < |Pairs(front)| {
      PairInMembers(front, k);
      var m, c :| 0 <= m < |front| && 0 <= c < |front[m].medicalHistory| &&
                  Pairs(front)[k] == (front[m], front[m].medicalHistory[c]);
      assert Pairs(members)[k] == (members[m], members[m].medicalHistory[c]);
    } else {
      var c := k - |Pairs(front)|;
      assert Pairs(members)[k] == (members[last], members[last].medicalHistory[c]);
    }
  }

  // ---------------------------------------------------------------------------
  // Generation groups

  predicate IsGrand(m: FamilyMember) { Contains(m.relationship, "Grand") }

  predicate IsParent(m: FamilyMember) {
    Contains(m.relationship, "Parent") || Contains(m.relationship, "Father") || Contains(m.relationship, "Mother")
  }

  /** The "Grandparents" group. */
  function Grandparents(members: seq<FamilyMember>): seq<FamilyMember> {
    Filter(members, (m: FamilyMember) => IsGrand(m))
  }

  /** The "Parents" group. */
  function Parents(members: seq<FamilyMember>): seq<FamilyMember> {
    Filter(members, (m: FamilyMember) => IsParent(m))
  }

  /** The "Other Family Members" group. */
  function OtherMembers(members: seq<FamilyMember>): seq<FamilyMember> {
    Filter(members, (m: FamilyMember) => !IsGrand(m) && !IsParent(m))
  }

  /** "Other" holds exactly the members in neither of the first two groups, and
      every member is shown in at least one group. */
  lemma GroupsCover(members: seq<FamilyMember>, m: FamilyMember)
    ensures m in OtherMembers(members) <==> m in members && m !in Grandparents(members) && m !in Parents(members)
    ensures m in members ==> m in Grandparents(members) || m in Parents(members) || m in OtherMembers(members)
  {
    FilterMember(members, (m: FamilyMember) => IsGrand(m), m);
    FilterMember(members, (m: FamilyMember) => IsParent(m), m);
    FilterMember(members, (m: FamilyMember) => !IsGrand(m) && !IsParent(m), m);
  }

  /** The match is case-sensitive: "Grandparent" is shown among the grandparents only,
      since it holds "parent" and not "Parent". */
  lemma GrandparentOnlyGrand(m: FamilyMember)
    requires m.relationship == "Grandparent"
    ensures IsGrand(m) && !IsParent(m)
  {
    var s := m.relationship;
    assert "Grand" <= s[0..];
    MissingFirstChar(s, "Parent");
    MissingFirstChar(s, "Father");
    MissingFirstChar(s, "Mother");
  }

  // ---------------------------------------------------------------------------
  // Counts

  /** `members.reduce((acc, m) => acc + m.medicalHistory.filter(c => c.severity === s).length, 0)`. */
  function SeverityCount(members: seq<FamilyMember>, severity: string): nat
  {
    if members == [] then 0
    else SeverityCount(members[..|members| - 1], severity)
         + |Filter(members[|members| - 1].medicalHistory, (c: MedicalCondition) => c.severity == severity)|
  }

  predicate KnownSeverity(c: MedicalCondition) {
    c.severity == "severe" || c.severity == "moderate" || c.severity == "mild"
  }

  /** The number of conditions whose severity is one of the three known ones. */
  function KnownSeverityCount(members: seq<FamilyMember>): nat
  {
    if members == [] then 0
    else KnownSeverityCount(members[..|members| - 1])
         + |Filter(members[|members| - 1].medicalHistory, (c: MedicalCondition) => KnownSeverity(c))|
  }

  lemma {:induction false} HistorySeverities(h: seq<MedicalCondition>)
    ensures |Filter(h, (c: MedicalCondition) => c.severity == "severe")|
          + |Filter(h, (c: MedicalCondition) => c.severity == "moderate")|
          + |Filter(h, (c: MedicalCondition) => c.severity == "mild")|
         == |Filter(h, (c: MedicalCondition) => KnownSeverity(c))|
    ensures |Filter(h, (c: MedicalCondition) => KnownSeverity(c))| <= |h|
  {
    if h != [] {
      HistorySeverities(h[1..]);
    }
  }

  /** The three totals add up to the number of conditions with a known severity,
      which is at most the number of conditions. */
  lemma {:induction false} SeverityTotals(members: seq<FamilyMember>)
    ensures SeverityCount(members, "severe") + SeverityCount(members, "moderate") + SeverityCount(members, "mild")
         == KnownSeverityCount(members)
    ensures KnownSeverityCount(members) <= TotalConditions(members)
  {
    if members != [] {
      var front := members[..|members| - 1];
      var last := members[|members| - 1];
      SeverityTotals(front);
      HistorySeverities(last.medicalHistory);
      TotalConditionsSnoc(front, last);
      assert front + [last] == members;
    }
  }

  /** The per-condition count: the history entries named exactly `name`. */
  function ConditionCount(members: seq<FamilyMember>, name: string): nat
  {
    if members == [] then 0
    else ConditionCount(members[..|members| - 1], name)
         + |Filter(members[|members| - 1].medicalHistory, (c: MedicalCondition) => c.condition == name)|
  }

  lemma {:induction false} HistoryNameCount(h: seq<MedicalCondition>, m: FamilyMember, name: string)
    requires h == m.medicalHistory
    ensures |Filter(h, (c: MedicalCondition) => c.condition == name)|
         == |Filter(Names(MemberPairs(m, |h|)), (x: string) => x == name)|
  {
    HistoryNameCountFrom(m, name, 0);
    assert m.medicalHistory[0..] == h;
    assert Names(MemberPairs(m, |h|))[0..] == Names(MemberPairs(m, |h|));
  }

  lemma {:induction false} HistoryNameCountFrom(m: FamilyMember, name: string, j: nat)
    requires j <= |m.medicalHistory|
    ensures |Filter(m.medicalHistory[j..], (c: MedicalCondition) => c.condition == name)|
         == |Filter(Names(MemberPairs(m, |m.medicalHistory|))[j..], (x: string) => x == name)|
    decreases |m.medicalHistory| - j
  {
    var n := |m.medicalHistory|;
    var names := Names(MemberPairs(m, n));
    if j < n {
      HistoryNameCountFrom(m, name, j + 1);
      assert m.medicalHistory[j..][1..] == m.medicalHistory[j + 1..];
      assert names[j..][1..] == names[j + 1..];
      assert names[j..][0] == m.medicalHistory[j..][0].condition;
    }
  }

  /** The count shown next to a name is the number of times the name occurs in
      the histories, so every listed name has a count of at least one. */
  lemma {:induction false} ConditionCountOccurrences(members: seq<FamilyMember>, name: string)
    ensures ConditionCount(members, name) == |Filter(AllNames(members), (x: string) => x == name)|
    ensures name in Dedup(AllNames(members)) ==> ConditionCount(members, name) >= 1
  {
    var keep := (x: string) => x == name;
    if members != [] {
      var front := members[..|members| - 1];
      var last := members[|members| - 1];
      ConditionCountOccurrences(front, name);
      var mp := MemberPairs(last, |last.medicalHistory|);
      assert Names(Pairs(members)) == Names(Pairs(front)) + Names(mp);
      FilterConcat(Names(Pairs(front)), Names(mp), keep);
      HistoryNameCount(last.medicalHistory, last, name);
    }
    DedupSpec(AllNames(members));
    FilterMember(AllNames(members), keep, name);
  }
}
