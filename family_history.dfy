/** The family-history form: keyed updates of the member list (each touches
    the members with one id and nothing else), the required-field checks of the
    two dialogs, and the follow-up appointments derived from the conditions. */
module FamilyHistory {
  import opened Wrappers
  import opened JsText
  import opened JsArray
  import opened Records

  // ---------------------------------------------------------------------------
  // Adding and deleting members

  /** The four fields of the "add member" dialog, as typed (the age is text). */
  datatype MemberDraft = MemberDraft(name: string, relationship: string, age: string, gender: string)

  const EmptyMemberDraft := MemberDraft("", "", "", "")

  /** The dialog's state: what is typed and whether the dialog is open. */
  datatype MemberForm = MemberForm(draft: MemberDraft, open: bool)

  /** The member list and dialog after an add, and whether the "fill in all
      required fields" alert was shown. */
  datatype AddMemberResult = AddMemberResult(members: seq<FamilyMember>, form: MemberForm, alerted: bool)

  /** Every required field is non-empty. */
  predicate DraftComplete(d: MemberDraft) {
    d.name != "" && d.relationship != "" && d.age != "" && d.gender != ""
  }

  /** The member created from a complete draft: no conditions, no documents yet. */
  function NewMember(d: MemberDraft, id: string): FamilyMember {
    FamilyMember(id, d.name, d.relationship, ParseInt(d.age), d.gender, [], [])
  }

  /** `addFamilyMember`; `id` is the `Date.now()` text the source uses. */
  function AddFamilyMember(members: seq<FamilyMember>, form: MemberForm, id: string): (r: AddMemberResult)
    ensures r.alerted <==> !DraftComplete(form.draft)
    ensures r.alerted ==> r.members == members && r.form == form
    ensures !r.alerted ==>
              && |r.members| == |members| + 1
              && r.members[..|members|] == members
              && r.members[|members|].id == id
              && r.members[|members|].name == form.draft.name
              && r.members[|members|].relationship == form.draft.relationship
              && r.members[|members|].age == ParseInt(form.draft.age)
              && r.members[|members|].gender == form.draft.gender
              && r.members[|members|].medicalHistory == []
              && r.members[|members|].documents == []
              && r.form == MemberForm(EmptyMemberDraft, false)
  {
    if !DraftComplete(form.draft) then AddMemberResult(members, form, true)
    else
      var r := members + [NewMember(form.draft, id)];
      assert r[..|members|] == members;
      AddMemberResult(r, MemberForm(EmptyMemberDraft, false), false)
  }

  /** `deleteFamilyMember`: the members whose id differs. */
  function DeleteFamilyMember(members: seq<FamilyMember>, id: string): (r: seq<FamilyMember>)
    ensures forall k :: 0 <= k < |r| ==> r[k].id != id
  {
    Filter(members, (m: FamilyMember) => m.id != id)
  }

  /** Deleting removes exactly the members with that id; the others stay in order. */
  lemma DeleteFamilyMemberExactly(members: seq<FamilyMember>, id: string, m: FamilyMember)
    ensures m in DeleteFamilyMember(members, id) <==> m in members && m.id != id
    ensures forall front, back :: members == front + back ==>
              DeleteFamilyMember(members, id) == DeleteFamilyMember(front, id) + DeleteFamilyMember(back, id)
  {
    FilterMember(members, (m: FamilyMember) => m.id != id, m);
    forall front, back | members == front + back
      ensures DeleteFamilyMember(members, id) == DeleteFamilyMember(front, id) + DeleteFamilyMember(back, id)
    {
      FilterConcat(front, back, (m: FamilyMember) => m.id != id);
    }
  }

  /** Deleting a member just added under a fresh id gives the list back. */
  lemma AddThenDeleteMember(members: seq<FamilyMember>, form: MemberForm, id: string)
    requires forall k :: 0 <= k < |members| ==> members[k].id != id
    ensures DeleteFamilyMember(AddFamilyMember(members, form, id).members, id) == members
  {
    var keep := (m: FamilyMember) => m.id != id;
    FilterAllOrNone(members, keep);
    if DraftComplete(form.draft) {
      var added := NewMember(form.draft, id);
      FilterConcat(members, [added], keep);
      FilterAllOrNone([added], keep);
    }
  }

  // ---------------------------------------------------------------------------
  // Conditions and documents of one member

  /** A condition as the card's form produces it, before an id is given. */
  datatype ConditionDraft = ConditionDraft(
    condition: string, diagnosisDate: string, severity: string, treatment: string, notes: string)

  function WithId(c: ConditionDraft, id: string): MedicalCondition {
    MedicalCondition(id, c.condition, c.diagnosisDate, c.severity, c.treatment, c.notes)
  }

  /** `members.map(m => m.id === memberId ? change(m) : m)`. */
  function UpdateMember(members: seq<FamilyMember>, memberId: string, change: FamilyMember -> FamilyMember)
    : (r: seq<FamilyMember>)
    ensures |r| == |members|
    ensures forall k :: 0 <= k < |r| ==>
              r[k] == if members[k].id == memberId then change(members[k]) else members[k]
  {
    seq(|members|, k requires 0 <= k < |members| =>
      if members[k].id == memberId then change(members[k]) else members[k])
  }

  /** `addMedicalCondition`: the condition, with id `conditionId`, is appended to
      the history of the members with that id; nothing else changes. */
  function AddMedicalCondition(members: seq<FamilyMember>, memberId: string, c: ConditionDraft, conditionId: string)
    : (r: seq<FamilyMember>)
    ensures |r| == |members|
    ensures forall k :: 0 <= k < |r| ==> r[k].(medicalHistory := members[k].medicalHistory) == members[k]
    ensures forall k :: 0 <= k < |r| ==>
              r[k].medicalHistory ==
                if members[k].id == memberId then members[k].medicalHistory + [WithId(c, conditionId)]
                else members[k].medicalHistory
  {
    UpdateMember(members, memberId,
      (m: FamilyMember) => m.(medicalHistory := m.medicalHistory + [WithId(c, conditionId)]))
  }

  /** `deleteMedicalCondition`: the matching members lose the conditions with
      that id; nothing else changes. */
  function DeleteMedicalCondition(members: seq<FamilyMember>, memberId: string, conditionId: string)
    : (r: seq<FamilyMember>)
    ensures |r| == |members|
    ensures forall k :: 0 <= k < |r| ==> r[k].(medicalHistory := members[k].medicalHistory) == members[k]
    ensures forall k :: 0 <= k < |r| ==>
              r[k].medicalHistory ==
                if members[k].id == memberId
                then Filter(members[k].medicalHistory, (c: MedicalCondition) => c.id != conditionId)
                else members[k].medicalHistory
  {
    UpdateMember(members, memberId,
      (m: FamilyMember) => m.(medicalHistory := Filter(m.medicalHistory, (c: MedicalCondition) => c.id != conditionId)))
  }

  /** Deleting a condition just added under a fresh id gives the list back. */
  lemma AddThenDeleteCondition(members: seq<FamilyMember>, memberId: string, c: ConditionDraft, conditionId: string)
    requires forall k, j :: 0 <= k < |members| && 0 <= j < |members[k].medicalHistory| && members[k].id == memberId
               ==> members[k].medicalHistory[j].id != conditionId
    ensures DeleteMedicalCondition(AddMedicalCondition(members, memberId, c, conditionId), memberId, conditionId) == members
  {
    var added := AddMedicalCondition(members, memberId, c, conditionId);
    var r := DeleteMedicalCondition(added, memberId, conditionId);
    var keep := (x: MedicalCondition) => x.id != conditionId;
    forall k | 0 <= k < |members| ensures r[k] == members[k] {
      if members[k].id == memberId {
        var h := members[k].medicalHistory;
        FilterConcat(h, [WithId(c, conditionId)], keep);
        FilterAllOrNone(h, keep);
        FilterAllOrNone([WithId(c, conditionId)], keep);
        assert r[k].medicalHistory == h;
      }
    }
  }

  /** A file picked in the upload field, with what the page derives from it
      outside this model: the generated id, the upload date text and the size text. */
  datatype UploadedFile = UploadedFile(id: string, name: string, mimeType: string, uploadDate: string, size: string)

  /** The document recorded for an uploaded file; an empty type becomes "Unknown". */
  function DocumentFor(f: UploadedFile): (d: MedicalDocument)
    ensures d.docType == (if f.mimeType == "" then "Unknown" else f.mimeType)
    ensures d.id == f.id && d.name == f.name
  {
    MedicalDocument(f.id, f.name, if f.mimeType == "" then "Unknown" else f.mimeType, f.uploadDate, f.size)
  }

  function DocumentsFor(files: seq<UploadedFile>): (docs: seq<MedicalDocument>)
    ensures |docs| == |files|
    ensures forall k :: 0 <= k < |files| ==> docs[k] == DocumentFor(files[k])
  {
    seq(|files|, k requires 0 <= k < |files| => DocumentFor(files[k]))
  }

  /** `handleFileUpload` (the list part): with no file list nothing changes;
      otherwise the new documents, in file order, follow the existing ones of
      the matching members. */
  function FileUpload(members: seq<FamilyMember>, memberId: string, files: Option<seq<UploadedFile>>)
    : (r: seq<FamilyMember>)
    ensures files.None? ==> r == members
    ensures |r| == |members|
    ensures forall k :: 0 <= k < |r| ==> r[k].(documents := members[k].documents) == members[k]
    ensures files.Some? ==> forall k :: 0 <= k < |r| ==>
              r[k].documents ==
                if members[k].id == memberId then members[k].documents + DocumentsFor(files.value)
                else members[k].documents
  {
    match files
    case None => members
    case Some(fs) =>
      UpdateMember(members, memberId, (m: FamilyMember) => m.(documents := m.documents + DocumentsFor(fs)))
  }

  /** `deleteDocument`: the matching members lose the documents with that id. */
  function DeleteDocument(members: seq<FamilyMember>, memberId: string, documentId: string)
    : (r: seq<FamilyMember>)
    ensures |r| == |members|
    ensures forall k :: 0 <= k < |r| ==> r[k].(documents := members[k].documents) == members[k]
    ensures forall k :: 0 <= k < |r| ==>
              r[k].documents ==
                if members[k].id == memberId
                then Filter(members[k].documents, (d: MedicalDocument) => d.id != documentId)
                else members[k].documents
  {
    UpdateMember(members, memberId,
      (m: FamilyMember) => m.(documents := Filter(m.documents, (d: MedicalDocument) => d.id != documentId)))
  }

  /** Deleting the document of a single fresh upload gives the list back. */
  lemma UploadThenDeleteDocument(members: seq<FamilyMember>, memberId: string, f: UploadedFile)
    requires forall k, j :: 0 <= k < |members| && 0 <= j < |members[k].documents| && members[k].id == memberId
               ==> members[k].documents[j].id != f.id
    ensures DeleteDocument(FileUpload(members, memberId, Some([f])), memberId, f.id) == members
  {
    var uploaded := FileUpload(members, memberId, Some([f]));
    var r := DeleteDocument(uploaded, memberId, f.id);
    var keep := (d: MedicalDocument) => d.id != f.id;
    forall k | 0 <= k < |members| ensures r[k] == members[k] {
      if members[k].id == memberId {
        var ds := members[k].documents;
        var added := DocumentsFor([f]);
        assert added == [DocumentFor(f)];
        FilterConcat(ds, added, keep);
        FilterAllOrNone(ds, keep);
        FilterAllOrNone(added, keep);
        assert r[k].documents == ds;
      }
    }
  }

  // ---------------------------------------------------------------------------
  // The "add condition" form of a member card

  datatype ConditionForm = ConditionForm(draft: ConditionDraft, open: bool)

  const EmptyConditionDraft := ConditionDraft("", "", "moderate", "", "")

  /** The condition handed to the list update (None when the alert is shown)
      and the form afterwards. */
  datatype ConditionSubmit = ConditionSubmit(submitted: Option<ConditionDraft>, form: ConditionForm)

  /** `FamilyMemberCard.addCondition`: the condition and its diagnosis date are
      required; a submitted form is reset to its defaults and closed. */
  function SubmitCondition(form: ConditionForm): (r: ConditionSubmit)
    ensures r.submitted.Some? <==> form.draft.condition != "" && form.draft.diagnosisDate != ""
    ensures r.submitted.Some? ==> r.submitted.value == form.draft && r.form == ConditionForm(EmptyConditionDraft, false)
    ensures r.submitted.None? ==> r.form == form
  {
    if form.draft.condition == "" || form.draft.diagnosisDate == "" then ConditionSubmit(None, form)
    else ConditionSubmit(Some(form.draft), ConditionForm(EmptyConditionDraft, false))
  }

  // ---------------------------------------------------------------------------
  // Appointments derived from the conditions

  /** `date` is a day number: the day of the computation plus the days ahead. */
  datatype Appointment = Appointment(
    id: string, memberId: string, memberName: string, condition: string,
    severity: string, date: int, clinic: string)

  const UrgentClinic := "Urgent Care / Specialist"
  const PrimaryClinic := "Primary Care Clinic"

  /** The follow-up rule: severe in 7 days at the specialist, moderate in 14 days,
      anything else in 30 days, both at the primary care clinic. */
  function DaysAhead(severity: string): (d: nat)
    ensures d in {7, 14, 30}
  {
    if severity == "severe" then 7 else if severity == "moderate" then 14 else 30
  }

  function Clinic(severity: string): string {
    if severity == "severe" then UrgentClinic else PrimaryClinic
  }

  /** The appointment for one pair; `id` stands for the generated id. */
  function AppointmentFor(m: FamilyMember, c: MedicalCondition, today: int, id: string): Appointment {
    Appointment(id, m.id, m.name, c.condition, c.severity, today + DaysAhead(c.severity), Clinic(c.severity))
  }

  /** One appointment per pair, the k-th with id `idOf(k)`. */
  function AppointmentsOf(ps: seq<(FamilyMember, MedicalCondition)>, today: int, idOf: nat -> string)
    : (appts: seq<Appointment>)
    ensures |appts| == |ps|
  {
    seq(|ps|, k requires 0 <= k < |ps| => AppointmentFor(ps[k].0, ps[k].1, today, idOf(k)))
  }

  /** `computeAppointments`: the nested loops push one appointment per condition.
      `today` is the current day and `idOf(k)` the id generated for the k-th push. */
  method ComputeAppointments(members: seq<FamilyMember>, today: int, idOf: nat -> string)
    returns (appts: seq<Appointment>)
    ensures appts == AppointmentsOf(Pairs(members), today, idOf)
    ensures |appts| == TotalConditions(members)
  {
    appts := [];
    var i := 0;
    while i < |members|
      invariant 0 <= i <= |members|
      invariant appts == AppointmentsOf(Pairs(members[..i]), today, idOf)
    {
      var member := members[i];
      var j := 0;
      while j < |member.medicalHistory|
        invariant 0 <= j <= |member.medicalHistory|
        invariant appts == AppointmentsOf(Pairs(members[..i]) + MemberPairs(member, j), today, idOf)
      {
        var cond := member.medicalHistory[j];
        var daysAhead := 30;
        if cond.severity == "severe" {
          daysAhead := 7;
        } else if cond.severity == "moderate" {
          daysAhead := 14;
        } else {
          daysAhead := 30;
        }
        var clinic := if cond.severity == "severe" then UrgentClinic else PrimaryClinic;
        ghost var before := Pairs(members[..i]) + MemberPairs(member, j);
        appts := appts + [Appointment(idOf(|appts|), member.id, member.name, cond.condition,
                                      cond.severity, today + daysAhead, clinic)];
        assert before + [(member, cond)] == Pairs(members[..i]) + MemberPairs(member, j + 1);
        AppointmentsSnoc(before, (member, cond), today, idOf);
        j := j + 1;
      }
      assert members[..i + 1][..i] == members[..i];
      assert MemberPairs(member, j) == MemberPairs(members[..i + 1][i], |members[..i + 1][i].medicalHistory|);
      i := i + 1;
    }
    assert members[..|members|] == members;
    PairsCount(members);
  }

  lemma AppointmentsSnoc(ps: seq<(FamilyMember, MedicalCondition)>, p: (FamilyMember, MedicalCondition),
                         today: int, idOf: nat -> string)
    ensures AppointmentsOf(ps + [p], today, idOf)
         == AppointmentsOf(ps, today, idOf) + [AppointmentFor(p.0, p.1, today, idOf(|ps|))]
  {
  }

  /** Each appointment follows the severity rule of its condition and names its member. */
  lemma AppointmentRule(members: seq<FamilyMember>, today: int, idOf: nat -> string, m: nat, c: nat)
    requires m < |members| && c < |members[m].medicalHistory|
    ensures var k := TotalConditions(members[..m]) + c;
            var appts := AppointmentsOf(Pairs(members), today, idOf);
            var cond := members[m].medicalHistory[c];
            && k < |appts|
            && appts[k].memberId == members[m].id
            && appts[k].memberName == members[m].name
            && appts[k].condition == cond.condition
            && appts[k].severity == cond.severity
            && (cond.severity == "severe" ==> appts[k].date == today + 7 && appts[k].clinic == "Urgent Care / Specialist")
            && (cond.severity == "moderate" ==> appts[k].date == today + 14 && appts[k].clinic == "Primary Care Clinic")
            && (cond.severity != "severe" && cond.severity != "moderate" ==>
                  appts[k].date == today + 30 && appts[k].clinic == "Primary Care Clinic")
  {
    PairsOrder(members, m, c);
    var k := TotalConditions(members[..m]) + c;
    var appts := AppointmentsOf(Pairs(members), today, idOf);
    assert appts[k] == AppointmentFor(members[m], members[m].medicalHistory[c], today, idOf(k));
  }
}
