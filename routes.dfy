/** The decisions the request handlers make on their own: where a login
    redirects to, the password a new or edited staff account receives, the
    head-doctor and capacity conversions of the department pages, and the
    triage assessment and review handlers. */
module Routes {
  import opened Wrappers
  import opened Text
  import opened Models
  import opened Forms
  import AiServices

  // ---------------------------------------------------------------------
  // login: the redirect after a successful sign-in
  // ---------------------------------------------------------------------

  const DashboardPath: string := "/dashboard"

  /** The characters URL parsers delete before parsing: tab, line feed and
      carriage return. */
  predicate IsDroppedByUrlParsers(c: char) {
    c == '\t' || c == '\n' || c == '\r'
  }

  /** A path on this site: it starts with one '/' that is not followed by a
      second '/' or a '\', which browsers would read as the start of another
      host's address, and it holds no character URL parsers delete, since
      deleting one could bring two slashes together. */
  predicate IsLocalPath(s: string) {
    && StartsWith(s, "/")
    && !(|s| >= 2 && (s[1] == '/' || s[1] == '\\'))
    && forall i :: 0 <= i < |s| ==> !IsDroppedByUrlParsers(s[i])
  }

  /** The `next` target as the login handler picks it: any non-empty value
      that starts with '/' is followed, anything else gives the dashboard. */
  function NextPageAsWritten(next: Option<string>): (r: string)
    ensures next.Some? && StartsWith(next.value, "/") ==> r == next.value
    ensures next.None? || !StartsWith(next.value, "/") ==> r == DashboardPath
    ensures StartsWith(r, "/")
  {
    if next.None? || next.value == [] || next.value[0] != '/' then DashboardPath else next.value
  }

  /** A protocol-relative address passes the check and sends the user to
      another host. */
  lemma LoginRedirectLeavesSiteAsWritten()
    ensures NextPageAsWritten(Some("//evil.example")) == "//evil.example"
    ensures !IsLocalPath("//evil.example")
  {
    assert StartsWith("//evil.example", "/");
  }

  /** The `next` target with the check the handler intends: only paths on
      this site are followed. */
  function NextPage(next: Option<string>): (r: string)
    ensures IsLocalPath(r)
    ensures next.Some? && IsLocalPath(next.value) ==> r == next.value
    ensures r != DashboardPath ==> next == Some(r)
  {
    if next.Some? && IsLocalPath(next.value) then next.value else DashboardPath
  }

  /** The target as a URL parser reads it, with tab, line feed and carriage
      return deleted and every other character kept, in order. */
  function WithoutDroppedCharacters(s: string): (r: string)
    ensures |r| <= |s|
    ensures forall i :: 0 <= i < |r| ==> !IsDroppedByUrlParsers(r[i])
    ensures |s| == 1 ==> r == (if IsDroppedByUrlParsers(s[0]) then [] else s)
  {
    if s == [] then []
    else if IsDroppedByUrlParsers(s[0]) then WithoutDroppedCharacters(s[1..])
    else [s[0]] + WithoutDroppedCharacters(s[1..])
  }

  /** A string without such characters reads as itself. */
  lemma {:induction false} WithoutDroppedCharactersKeepsClean(s: string)
    requires forall i :: 0 <= i < |s| ==> !IsDroppedByUrlParsers(s[i])
    ensures WithoutDroppedCharacters(s) == s
  {
    if s != [] {
      WithoutDroppedCharactersKeepsClean(s[1..]);
    }
  }

  /** The deletion works character by character: deleting from two pieces and
      joining the results is deleting from the whole. */
  lemma {:induction false} WithoutDroppedCharactersConcat(a: string, b: string)
    ensures WithoutDroppedCharacters(a + b) == WithoutDroppedCharacters(a) + WithoutDroppedCharacters(b)
  {
    if a != [] {
      assert (a + b)[0] == a[0];
      assert (a + b)[1..] == a[1..] + b;
      WithoutDroppedCharactersConcat(a[1..], b);
    } else {
      assert a + b == b;
    }
  }

  /** Deleting from a string that starts with `c` drops `c` when it is a
      tab, line feed or carriage return, keeps it in front otherwise, and
      goes on with the rest. */
  lemma {:induction false} WithoutDroppedCharactersCons(c: char, s: string)
    ensures WithoutDroppedCharacters([c] + s)
            == (if IsDroppedByUrlParsers(c) then [] else [c]) + WithoutDroppedCharacters(s)
  {
    assert ([c] + s)[0] == c;
    assert ([c] + s)[1..] == s;
  }

  /** A URL parser reads a tab between two slashes as nothing, so the two
      slashes meet. */
  lemma {:induction false} TabBetweenSlashesRead(host: string)
    ensures WithoutDroppedCharacters("/\t/" + host) == "//" + WithoutDroppedCharacters(host)
  {
    assert ['/'] + (['\t'] + (['/'] + host)) == "/\t/" + host;
    WithoutDroppedCharactersCons('/', host);
    WithoutDroppedCharactersCons('\t', ['/'] + host);
    WithoutDroppedCharactersCons('/', ['\t'] + (['/'] + host));
    assert ['/'] + (['/'] + WithoutDroppedCharacters(host)) == "//" + WithoutDroppedCharacters(host);
  }

  /** A tab between the two slashes also passes the check as written, and a
      URL parser, deleting the tab, reads the target as the protocol-relative
      address of `host`, which is not a path on this site. */
  lemma {:induction false} LoginRedirectThroughTabLeavesSiteAsWritten(host: string)
    requires forall i :: 0 <= i < |host| ==> !IsDroppedByUrlParsers(host[i])
    ensures NextPageAsWritten(Some("/\t/" + host)) == "/\t/" + host
    ensures WithoutDroppedCharacters("/\t/" + host) == "//" + host
    ensures !IsLocalPath(WithoutDroppedCharacters("/\t/" + host))
    ensures !IsLocalPath("/\t/" + host)
  {
    TabBetweenSlashesRead(host);
    WithoutDroppedCharactersKeepsClean(host);
    assert ("//" + host)[1] == '/';
    assert ("/\t/" + host)[1] == '\t';
  }

  /** The followed target is still a path on this site after a URL parser
      has deleted the characters it ignores. */
  lemma NextPageLocalAsParsed(next: Option<string>)
    ensures WithoutDroppedCharacters(NextPage(next)) == NextPage(next)
    ensures IsLocalPath(WithoutDroppedCharacters(NextPage(next)))
  {
    WithoutDroppedCharactersKeepsClean(NextPage(next));
  }

  /** The corrected check only narrows the original: wherever the two differ,
      the corrected one falls back to the dashboard, and on local paths they
      agree. */
  lemma NextPageNarrowsAsWritten(next: Option<string>)
    ensures NextPage(next) == NextPageAsWritten(next) || NextPage(next) == DashboardPath
    ensures next.Some? && IsLocalPath(next.value) ==> NextPage(next) == NextPageAsWritten(next)
  {
  }

  // ---------------------------------------------------------------------
  // add_staff / edit_staff: account passwords
  // ---------------------------------------------------------------------

  /** The default password of a staff account added without one: the first
      name's initial, the last name and "123", all in lower case. (The form
      requires a first name with text, so it is never empty.) */
  function DefaultPassword(firstName: string, lastName: string): (r: string)
    requires |firstName| > 0
    ensures |r| == |lastName| + 4
    ensures NoUpper(r)
    ensures r[0] == Lower(firstName[0])
    ensures r[1..|r| - 3] == LowerString(lastName)
    ensures EndsWith(r, "123")
  {
    var raw := [firstName[0]] + lastName + "123";
    var r := LowerString(raw);
    assert r[1..|r| - 3] == LowerString(lastName) by {
      forall i | 0 <= i < |lastName| ensures r[1..|r| - 3][i] == LowerString(lastName)[i] {
        assert r[1 + i] == Lower(raw[1 + i]);
      }
    }
    assert r[|r| - 3..] == "123" by {
      assert raw[|raw| - 3..] == "123";
      forall i | 0 <= i < 3 ensures r[|r| - 3 + i] == "123"[i] {
        assert r[|r| - 3 + i] == Lower(raw[|raw| - 3 + i]);
      }
    }
    r
  }

  /** The default password ignores the case of the names it is made from. */
  lemma {:induction false} DefaultPasswordIgnoresCase(firstName: string, lastName: string)
    requires |firstName| > 0
    ensures DefaultPassword(LowerString(firstName), LowerString(lastName)) == DefaultPassword(firstName, lastName)
  {
    var a := DefaultPassword(LowerString(firstName), LowerString(lastName));
    var b := DefaultPassword(firstName, lastName);
    assert |a| == |b|;
    forall i | 0 <= i < |a| ensures a[i] == b[i] {
      var rawA := [LowerString(firstName)[0]] + LowerString(lastName) + "123";
      var rawB := [firstName[0]] + lastName + "123";
      assert a[i] == Lower(rawA[i]) && b[i] == Lower(rawB[i]);
      assert rawA[i] == Lower(rawB[i]);
    }
  }

  /** The password a staff account is created with in `add_staff`: the one
      given in the form, or the default when the field is empty. */
  function InitialPassword(given: string, firstName: string, lastName: string): (r: string)
    requires given != [] || |firstName| > 0
    ensures given != [] ==> r == given
    ensures given == [] ==> r == DefaultPassword(firstName, lastName) && NoUpper(r) && EndsWith(r, "123")
  {
    if given != [] then given else DefaultPassword(firstName, lastName)
  }

  /** The password a staff account holds after `edit_staff`: it changes only
      when the form carries a new one, and then to exactly that one. */
  function EditedPassword(current: string, given: string): (r: string)
    ensures r == current || r == given
    ensures given != [] ==> r == given
    ensures r != current ==> given != [] && r == given
  {
    if given != [] then given else current
  }

  /** The password a user holds after `change_password`: the new password,
      when the form validates and the current password given matches the
      stored one; otherwise the stored one is kept. A stored password stands
      for its hash. */
  function ChangedPassword(stored: string, form: FormData): (r: string)
    ensures r != stored ==> r == FieldData(form, "new_password")
    ensures FieldErrors(PasswordChangeFields, form) == {} && FieldData(form, "current_password") == stored
            ==> r == FieldData(form, "new_password")
    ensures FieldData(form, "current_password") != stored ==> r == stored
    ensures FieldErrors(PasswordChangeFields, form) != {} ==> r == stored
  {
    if FieldErrors(PasswordChangeFields, form) == {} && FieldData(form, "current_password") == stored
    then FieldData(form, "new_password")
    else stored
  }

  /** A changed password is one the form accepts: at least 8 characters and
      not blank, and confirmed; and it was changed by someone who gave the
      stored password, which is not blank. */
  lemma ChangedPasswordIsAccepted(stored: string, form: FormData)
    ensures ChangedPassword(stored, form) != stored ==>
              var p := ChangedPassword(stored, form);
              && HasText(p) && |p| >= 8 && FieldData(form, "confirm_password") == p
              && HasText(stored)
  {
    PasswordChangeRule(form);
  }

  // ---------------------------------------------------------------------
  // add_department / edit_department: the head doctor selection
  // ---------------------------------------------------------------------

  /** The form value 0 is the "Select Head Doctor" placeholder and is stored
      as no head doctor; any other value is stored as the doctor's id. */
  function HeadDoctorId(formValue: int): (r: Option<int>)
    ensures r.None? <==> formValue == 0
    ensures r.Some? ==> r.value == formValue
  {
    if formValue != 0 then Some(formValue) else None
  }

  /** The value `edit_department` shows in the selection for a stored head
      doctor: the placeholder 0 when there is none. */
  function HeadDoctorFormValue(stored: Option<int>): (v: int)
    ensures stored.None? ==> v == 0
    ensures stored.Some? ==> v == stored.value
  {
    stored.GetOr(0)
  }

  /** Every form value survives being stored and shown again. */
  lemma HeadDoctorFormRoundTrip(formValue: int)
    ensures HeadDoctorFormValue(HeadDoctorId(formValue)) == formValue
  {
  }

  /** Every stored head doctor survives being shown and saved again (ids
      start at 1, so no doctor has the placeholder's id). */
  lemma HeadDoctorStoredRoundTrip(stored: Option<int>)
    requires stored.None? || stored.value > 0
    ensures HeadDoctorId(HeadDoctorFormValue(stored)) == stored
  {
  }

  // ---------------------------------------------------------------------
  // api_department_stats
  // ---------------------------------------------------------------------

  /** A department as the statistics chart reads it; `staffCount` is the
      result of its `staff_count()` query. */
  datatype DepartmentRow = DepartmentRow(name: string, staffCount: nat, capacity: Option<int>)

  /** `dept.capacity or 0`: a missing capacity is charted as 0. */
  function ReportedCapacity(capacity: Option<int>): (r: int)
    ensures capacity.None? ==> r == 0
    ensures capacity.Some? ==> r == capacity.value
  {
    capacity.GetOr(0)
  }

  /** The three parallel lists of the department chart, built in one pass:
      entry `i` of each describes department `i`. */
  method DepartmentStats(departments: seq<DepartmentRow>)
    returns (labels: seq<string>, staffCounts: seq<nat>, capacities: seq<int>)
    ensures |labels| == |departments| && |staffCounts| == |departments| && |capacities| == |departments|
    ensures forall i :: 0 <= i < |departments| ==>
              && labels[i] == departments[i].name
              && staffCounts[i] == departments[i].staffCount
              && capacities[i] == ReportedCapacity(departments[i].capacity)
  {
    labels, staffCounts, capacities := [], [], [];
    for k := 0 to |departments|
      invariant |labels| == k && |staffCounts| == k && |capacities| == k
      invariant forall i :: 0 <= i < k ==>
                  && labels[i] == departments[i].name
                  && staffCounts[i] == departments[i].staffCount
                  && capacities[i] == ReportedCapacity(departments[i].capacity)
    {
      var dept := departments[k];
      labels := labels + [dept.name];
      staffCounts := staffCounts + [dept.staffCount];
      capacities := capacities + [ReportedCapacity(dept.capacity)];
    }
  }

  // ---------------------------------------------------------------------
  // assess_triage
  // ---------------------------------------------------------------------

  /** `assess_triage`: a valid submission is assessed and stored as a new,
      unreviewed assessment carrying the assessment's severity,
      recommendation and confidence; an invalid one stores nothing. */
  method AssessTriage(triageAi: AiServices.TriageAI, patientIds: set<int>, patientId: int, symptoms: string)
    returns (triage: Option<TriageAssessment>)
    ensures triage.Some? <==> TriageFormValid(patientIds, patientId, symptoms)
    ensures triage.Some? ==>
              var a := AiServices.AssessPatientSymptoms(triageAi, symptoms);
              && fresh(triage.value)
              && triage.value.patientId == patientId
              && triage.value.symptoms == symptoms
              && triage.value.severity == a.severity
              && triage.value.recommendation == a.recommendation
              && triage.value.aiConfidence == a.confidence
              && triage.value.reviewedByStaffId.None?
              && !triage.value.isReviewed
    ensures triage.Some? ==>
              && (triage.value.severity in AiServices.SeverityNames || triage.value.severity == AiServices.UnknownSeverity)
              && 0.0 <= triage.value.aiConfidence <= 1.0
  {
    if !TriageFormValid(patientIds, patientId, symptoms) {
      return None;
    }
    var assessment := AiServices.AssessPatientSymptoms(triageAi, symptoms);
    var t := new TriageAssessment(patientId, symptoms, assessment.severity,
                                  assessment.recommendation, assessment.confidence);
    triage := Some(t);
  }

  // ---------------------------------------------------------------------
  // review_triage: the reviewer
  // ---------------------------------------------------------------------

  const NoStaffProfileError: string := "'NoneType' object has no attribute 'id'"

  /** The reviewer id as the handler computes it. `staffProfile` is the id of
      the current user's staff profile, if any. The one-to-one relationship
      gives every user a `staff_profile` attribute, so `hasattr` always holds
      and a user without a profile makes the handler fail; the fallback to
      the first staff member is never reached. */
  function ReviewerAsWritten(staffProfile: Option<int>): (r: Result<int, string>)
    ensures staffProfile.Some? ==> r == Success(staffProfile.value)
    ensures staffProfile.None? ==> r.Failure?
  {
    match staffProfile
    case Some(id) => Success(id)
    case None => Failure(NoStaffProfileError)
  }

  /** The reviewer id the handler intends: the current user's staff profile,
      else the first staff member, else the stored reviewer is left as it
      was. */
  function Reviewer(staffProfile: Option<int>, firstStaff: Option<int>, current: Option<int>): (r: Option<int>)
    ensures staffProfile.Some? ==> r == staffProfile
    ensures staffProfile.None? && firstStaff.Some? ==> r == firstStaff
    ensures staffProfile.None? && firstStaff.None? ==> r == current
    ensures r.Some? ==> r == staffProfile || r == firstStaff || r == current
  {
    if staffProfile.Some? then staffProfile
    else if firstStaff.Some? then firstStaff
    else current
  }

  /** A review by a user without a staff profile fails as written, while the
      intended fallback records the first staff member. */
  lemma ReviewWithoutStaffProfileFailsAsWritten()
    ensures ReviewerAsWritten(None).Failure?
    ensures Reviewer(None, Some(1), None) == Some(1)
  {
  }

  /** Wherever the handler as written succeeds, the corrected reviewer gives
      the same id. */
  lemma ReviewerAgreesWhereAsWrittenSucceeds(staffProfile: Option<int>, firstStaff: Option<int>, current: Option<int>)
    ensures ReviewerAsWritten(staffProfile).Success? ==>
              Reviewer(staffProfile, firstStaff, current) == Some(ReviewerAsWritten(staffProfile).value)
  {
  }

  /** `review_triage` on a submitted review as the handler is written: a
      valid review from a user with a staff profile overwrites the severity,
      recommendation and reviewed flag and records that profile as the
      reviewer. A valid review from a user without one fails while the
      reviewer is looked up; the fields set before the failure are never
      committed, so the stored assessment is left as it was. An invalid
      review changes nothing. */
  method ReviewTriageAsWritten(assessment: TriageAssessment, review: TriageReview, staffProfile: Option<int>)
    returns (outcome: Result<bool, string>)
    modifies assessment
    ensures outcome.Failure? <==> TriageReviewValid(review) && staffProfile.None?
    ensures outcome.Failure? ==> outcome.error == NoStaffProfileError
    ensures outcome.Success? ==> (outcome.value <==> TriageReviewValid(review))
    ensures outcome == Success(true) ==>
              && assessment.severity == review.severity
              && assessment.recommendation == review.recommendation
              && assessment.isReviewed == review.isReviewed
              && assessment.reviewedByStaffId == staffProfile
    ensures outcome != Success(true) ==> unchanged(assessment)
    ensures assessment.patientId == old(assessment.patientId)
    ensures assessment.symptoms == old(assessment.symptoms)
    ensures assessment.aiConfidence == old(assessment.aiConfidence)
  {
    if !TriageReviewValid(review) {
      return Success(false);
    }
    var reviewer := ReviewerAsWritten(staffProfile);
    if reviewer.Failure? {
      return Failure(reviewer.error);
    }
    assessment.severity := review.severity;
    assessment.recommendation := review.recommendation;
    assessment.isReviewed := review.isReviewed;
    assessment.reviewedByStaffId := Some(reviewer.value);
    outcome := Success(true);
  }

  /** `review_triage` on a submitted review with the reviewer rule the handler
      intends (`Reviewer`, the correction of `ReviewerAsWritten`): a valid
      review overwrites the severity, recommendation and reviewed flag and
      records the reviewer; an invalid one changes nothing. The patient, the
      symptoms and the AI confidence are never touched. Where the handler as
      written succeeds, this one stores the same reviewer. */
  method ReviewTriage(assessment: TriageAssessment, review: TriageReview, staffProfile: Option<int>, firstStaff: Option<int>)
    returns (saved: bool)
    modifies assessment
    ensures saved <==> TriageReviewValid(review)
    ensures saved ==>
              && assessment.severity == review.severity
              && assessment.recommendation == review.recommendation
              && assessment.isReviewed == review.isReviewed
              && assessment.reviewedByStaffId == Reviewer(staffProfile, firstStaff, old(assessment.reviewedByStaffId))
              && assessment.severity in AiServices.SeverityNames
    ensures !saved ==> unchanged(assessment)
    ensures assessment.patientId == old(assessment.patientId)
    ensures assessment.symptoms == old(assessment.symptoms)
    ensures assessment.aiConfidence == old(assessment.aiConfidence)
  {
    if !TriageReviewValid(review) {
      return false;
    }
    assessment.severity := review.severity;
    assessment.recommendation := review.recommendation;
    assessment.isReviewed := review.isReviewed;
    assessment.reviewedByStaffId := Reviewer(staffProfile, firstStaff, assessment.reviewedByStaffId);
    saved := true;
  }
}
