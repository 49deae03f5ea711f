/** The family-history records shared by the health pages: a family member with
    the conditions diagnosed in them and the documents uploaded for them. */
module Records {
  import opened Wrappers

  /** A diagnosed condition. The severity is one of "mild", "moderate" or "severe"
      when it comes from the form, but the pages also handle any other text. */
  datatype MedicalCondition = MedicalCondition(
    id: string,
    condition: string,
    diagnosisDate: string,
    severity: string,
    treatment: string,
    notes: string)

  /** An uploaded document; `size` is the text the page shows ("12.3 KB"). */
  datatype MedicalDocument = MedicalDocument(
    id: string,
    name: string,
    docType: string,
    uploadDate: string,
    size: string)

  /** A family member. `age` is the number `parseInt` produced from the form
      field; None stands for NaN. */
  datatype FamilyMember = FamilyMember(
    id: string,
    name: string,
    relationship: string,
    age: Option<int>,
    gender: string,
    medicalHistory: seq<MedicalCondition>,
    documents: seq<MedicalDocument>)

  /** The number of conditions recorded over all members. */
  function TotalConditions(members: seq<FamilyMember>): nat
  {
    if members == [] then 0 else |members[0].medicalHistory| + TotalConditions(members[1..])
  }

  /** Counting the conditions member by member from the end gives the same total. */
  lemma {:induction false} TotalConditionsSnoc(members: seq<FamilyMember>, m: FamilyMember)
    ensures TotalConditions(members + [m]) == TotalConditions(members) + |m.medicalHistory|
  {
    if members == [] {
      assert members + [m] == [m];
    } else {
      assert (members + [m])[1..] == members[1..] + [m];
      TotalConditionsSnoc(members[1..], m);
    }
  }

  /** Every (member, condition) pair, member by member, each member's conditions in order. */
  function Pairs(members: seq<FamilyMember>): seq<(FamilyMember, MedicalCondition)>
  {
    if members == [] then []
    else Pairs(members[..|members| - 1]) + MemberPairs(members[|members| - 1], |members[|members| - 1].medicalHistory|)
  }

  /** The pairs of member m with its first n conditions. */
  function MemberPairs(m: FamilyMember, n: nat): (ps: seq<(FamilyMember, MedicalCondition)>)
    requires n <= |m.medicalHistory|
    ensures |ps| == n
    ensures forall j :: 0 <= j < n ==> ps[j] == (m, m.medicalHistory[j])
  {
    seq(n, j requires 0 <= j < n => (m, m.medicalHistory[j]))
  }

  /** There is one pair per condition over all members. */
  lemma {:induction false} PairsCount(members: seq<FamilyMember>)
    ensures |Pairs(members)| == TotalConditions(members)
  {
    if members != [] {
      var front := members[..|members| - 1];
      PairsCount(front);
      TotalConditionsSnoc(front, members[|members| - 1]);
      assert front + [members[|members| - 1]] == members;
    }
  }

  /** Pairs come member by member: condition c of member m sits after all
      conditions of the members before m. */
  lemma {:induction false} PairsOrder(members: seq<FamilyMember>, m: nat, c: nat)
    requires m < |members| && c < |members[m].medicalHistory|
    ensures TotalConditions(members[..m]) + c < |Pairs(members)|
    ensures Pairs(members)[TotalConditions(members[..m]) + c] == (members[m], members[m].medicalHistory[c])
  {
    var last := |members| - 1;
    var front := members[..last];
    PairsCount(front);
    if m == last {
      assert members[..m] == front;
    } else {
      assert front[..m] == members[..m];
      PairsOrder(front, m, c);
    }
  }

  /** Taking one more member adds that member's pairs at the end. */
  lemma PairsPrefix(members: seq<FamilyMember>, i: nat)
    requires i < |members|
    ensures Pairs(members[..i + 1]) == Pairs(members[..i]) + MemberPairs(members[i], |members[i].medicalHistory|)
  {
    assert members[..i + 1][..i] == members[..i];
  }
}
