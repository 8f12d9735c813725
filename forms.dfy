/** The validation rules of the web forms: the custom date and time
    validators, the declared validator chains of the credential fields, the
    fixed choice lists, and staff username uniqueness. */
module Forms {
  import opened Wrappers
  import opened Text
  import opened Calendar
  import opened Models
  import AiServices

  // ---------------------------------------------------------------------
  // Date and time validators
  // ---------------------------------------------------------------------

  const FutureBirthMessage: string := "Date of birth cannot be in the future."
  const PastAppointmentMessage: string := "Appointment date cannot be in the past."
  const EndBeforeStartMessage: string := "End time must be after start time."

  /** `PatientForm.validate_date_of_birth`: rejects a birth date after today;
      today and every earlier date pass. */
  function ValidateDateOfBirth(dateOfBirth: Date, today: Date): (o: Outcome<string>)
    ensures o.Pass? <==> DateLessEq(dateOfBirth, today)
    ensures o.Fail? ==> o.error == FutureBirthMessage
  {
    if DateLess(today, dateOfBirth) then Fail(FutureBirthMessage) else Pass
  }

  /** `AppointmentForm.validate_date`: rejects a date before today; today and
      every later date pass. */
  function ValidateAppointmentDate(date: Date, today: Date): (o: Outcome<string>)
    ensures o.Pass? <==> DateLessEq(today, date)
    ensures o.Fail? ==> o.error == PastAppointmentMessage
  {
    if DateLess(date, today) then Fail(PastAppointmentMessage) else Pass
  }

  /** `AppointmentForm.validate_end_time`: with a start time, the end must be
      strictly after it; without one nothing is checked. (A Python `time` is
      always truthy, midnight included.) */
  function ValidateEndTime(startTime: Option<Time>, endTime: Time): (o: Outcome<string>)
    ensures o.Pass? <==> startTime.None? || !TimeLessEq(endTime, startTime.value)
    ensures startTime.None? ==> o.Pass?
    ensures o.Fail? ==> o.error == EndBeforeStartMessage
  {
    match startTime
    case None => Pass
    case Some(start) => if TimeLessEq(endTime, start) then Fail(EndBeforeStartMessage) else Pass
  }

  // ---------------------------------------------------------------------
  // Declared validator chains
  // ---------------------------------------------------------------------

  /** The WTForms validators the credential fields declare. `Length` uses -1
      for "no bound", as WTForms does; `EqualTo` names another field. */
  datatype Validator = DataRequired | OptionalField | Length(min: int, max: int) | EqualTo(other: string)

  /** Submitted form data by field name; a field that was not sent is empty. */
  type FormData = map<string, string>

  function FieldData(form: FormData, name: string): string {
    if name in form then form[name] else ""
  }

  /** One field's validator chain, run in order. `DataRequired` stops the
      chain with an error on missing text; `Optional` stops it with no error;
      any failing validator makes the field invalid. WTForms' `Optional` also
      clears the errors of validators run before it; every chain of these
      forms puts `Optional` first, and the model assumes that order. So a chain without
      `Optional` passes only when every one of its validators holds, and a
      chain that starts with `Optional` passes on blank data. */
  function ChainPasses(chain: seq<Validator>, data: string, form: FormData): (ok: bool)
    ensures ok && OptionalField !in chain && DataRequired in chain ==> HasText(data)
    ensures ok && OptionalField !in chain ==>
              forall k :: 0 <= k < |chain| && chain[k].Length? ==>
                |data| >= chain[k].min && (chain[k].max == -1 || |data| <= chain[k].max)
    ensures ok && OptionalField !in chain ==>
              forall k :: 0 <= k < |chain| && chain[k].EqualTo? ==> data == FieldData(form, chain[k].other)
    ensures chain != [] && chain[0] == OptionalField && !HasText(data) ==> ok
  {
    if chain == [] then true
    else
      match chain[0]
      case DataRequired => HasText(data) && ChainPasses(chain[1..], data, form)
      case OptionalField => !HasText(data) || ChainPasses(chain[1..], data, form)
      case Length(min, max) =>
        && |data| >= min
        && (max == -1 || |data| <= max)
        && ChainPasses(chain[1..], data, form)
      case EqualTo(other) => data == FieldData(form, other) && ChainPasses(chain[1..], data, form)
  }

  /** The names of the fields of `fields` whose chains fail on `form`. */
  function FieldErrors(fields: seq<(string, seq<Validator>)>, form: FormData): (bad: set<string>)
    ensures forall name :: name in bad ==>
              exists i :: 0 <= i < |fields| && fields[i].0 == name
                          && !ChainPasses(fields[i].1, FieldData(form, name), form)
    ensures forall i :: 0 <= i < |fields| && !ChainPasses(fields[i].1, FieldData(form, fields[i].0), form) ==>
              fields[i].0 in bad
  {
    if fields == [] then {}
    else
      var rest := FieldErrors(fields[1..], form);
      var (name, chain) := fields[0];
      if ChainPasses(chain, FieldData(form, name), form) then rest else {name} + rest
  }

  /** `RegistrationForm`'s credential fields. */
  const RegistrationCredentialFields: seq<(string, seq<Validator>)> := [
    ("username", [DataRequired, Length(4, 64)]),
    ("password", [DataRequired, Length(8, -1)]),
    ("password2", [DataRequired, EqualTo("password")])]

  /** `PasswordChangeForm`'s password fields. */
  const PasswordChangeFields: seq<(string, seq<Validator>)> := [
    ("current_password", [DataRequired]),
    ("new_password", [DataRequired, Length(8, -1)]),
    ("confirm_password", [DataRequired, EqualTo("new_password")])]

  /** `StaffForm`'s username and password fields. */
  const StaffCredentialFields: seq<(string, seq<Validator>)> := [
    ("username", [DataRequired, Length(4, 64)]),
    ("password", [OptionalField, Length(8, -1)])]

  /** A form has no field errors exactly when every field's chain passes. */
  lemma NoErrorsWhenAllChainsPass(fields: seq<(string, seq<Validator>)>, form: FormData)
    ensures FieldErrors(fields, form) == {}
            <==> forall i :: 0 <= i < |fields| ==> ChainPasses(fields[i].1, FieldData(form, fields[i].0), form)
  {
  }

  lemma RequiredThenLength(min: int, max: int, data: string, form: FormData)
    ensures ChainPasses([DataRequired, Length(min, max)], data, form)
            <==> HasText(data) && |data| >= min && (max == -1 || |data| <= max)
  {
    assert [DataRequired, Length(min, max)][1..] == [Length(min, max)];
    assert [Length(min, max)][1..] == [];
    assert ChainPasses([Length(min, max)], data, form) <==> |data| >= min && (max == -1 || |data| <= max);
  }

  lemma RequiredThenEqualTo(other: string, data: string, form: FormData)
    ensures ChainPasses([DataRequired, EqualTo(other)], data, form)
            <==> HasText(data) && data == FieldData(form, other)
  {
    assert [DataRequired, EqualTo(other)][1..] == [EqualTo(other)];
    assert [EqualTo(other)][1..] == [];
    assert ChainPasses([EqualTo(other)], data, form) <==> data == FieldData(form, other);
  }

  lemma OptionalThenLength(min: int, max: int, data: string, form: FormData)
    ensures ChainPasses([OptionalField, Length(min, max)], data, form)
            <==> !HasText(data) || (|data| >= min && (max == -1 || |data| <= max))
  {
    assert [OptionalField, Length(min, max)][1..] == [Length(min, max)];
    assert [Length(min, max)][1..] == [];
    assert ChainPasses([Length(min, max)], data, form) <==> |data| >= min && (max == -1 || |data| <= max);
  }

  /** The declared chains of registration's three credential fields pass
      exactly when the username has 4 to 64 characters and is not blank, the
      password has at least 8 characters and is not blank, and the
      confirmation equals the password. */
  lemma RegistrationCredentialRule(form: FormData)
    ensures var u := FieldData(form, "username");
            var p := FieldData(form, "password");
            var p2 := FieldData(form, "password2");
            FieldErrors(RegistrationCredentialFields, form) == {}
            <==> HasText(u) && 4 <= |u| <= 64 && HasText(p) && |p| >= 8 && p2 == p
  {
    var fields := RegistrationCredentialFields;
    NoErrorsWhenAllChainsPass(fields, form);
    RequiredThenLength(4, 64, FieldData(form, "username"), form);
    RequiredThenLength(8, -1, FieldData(form, "password"), form);
    RequiredThenEqualTo("password", FieldData(form, "password2"), form);
    var u := FieldData(form, "username");
    var p := FieldData(form, "password");
    var p2 := FieldData(form, "password2");
    if FieldErrors(fields, form) == {} {
      assert ChainPasses(fields[0].1, FieldData(form, fields[0].0), form);
      assert ChainPasses(fields[1].1, FieldData(form, fields[1].0), form);
      assert ChainPasses(fields[2].1, FieldData(form, fields[2].0), form);
    }
    if HasText(u) && 4 <= |u| <= 64 && HasText(p) && |p| >= 8 && p2 == p {
      forall i | 0 <= i < |fields|
        ensures ChainPasses(fields[i].1, FieldData(form, fields[i].0), form)
      {
      }
    }
  }

  /** A password change passes the form's validators exactly when the
      current password is not blank, the new password has at least 8
      characters and is not blank, and the confirmation equals it. */
  lemma PasswordChangeRule(form: FormData)
    ensures var cur := FieldData(form, "current_password");
            var p := FieldData(form, "new_password");
            var c := FieldData(form, "confirm_password");
            FieldErrors(PasswordChangeFields, form) == {}
            <==> HasText(cur) && HasText(p) && |p| >= 8 && c == p
  {
    var fields := PasswordChangeFields;
    NoErrorsWhenAllChainsPass(fields, form);
    var cur := FieldData(form, "current_password");
    var p := FieldData(form, "new_password");
    var c := FieldData(form, "confirm_password");
    assert [DataRequired][1..] == [];
    assert ChainPasses([DataRequired], cur, form) <==> HasText(cur);
    RequiredThenLength(8, -1, p, form);
    RequiredThenEqualTo("new_password", c, form);
    if FieldErrors(fields, form) == {} {
      assert ChainPasses(fields[0].1, FieldData(form, fields[0].0), form);
      assert ChainPasses(fields[1].1, FieldData(form, fields[1].0), form);
      assert ChainPasses(fields[2].1, FieldData(form, fields[2].0), form);
    }
    if HasText(cur) && HasText(p) && |p| >= 8 && c == p {
      forall i | 0 <= i < |fields|
        ensures ChainPasses(fields[i].1, FieldData(form, fields[i].0), form)
      {
      }
    }
  }

  /** The staff form's password may be left blank; a password that is given
      must have at least 8 characters. */
  lemma StaffPasswordRule(form: FormData)
    ensures var u := FieldData(form, "username");
            var p := FieldData(form, "password");
            FieldErrors(StaffCredentialFields, form) == {}
            <==> HasText(u) && 4 <= |u| <= 64 && (!HasText(p) || |p| >= 8)
  {
    var fields := StaffCredentialFields;
    NoErrorsWhenAllChainsPass(fields, form);
    RequiredThenLength(4, 64, FieldData(form, "username"), form);
    OptionalThenLength(8, -1, FieldData(form, "password"), form);
  }

  // ---------------------------------------------------------------------
  // Choice lists
  // ---------------------------------------------------------------------

  /** `TriageReviewForm.severity`'s choices, as (value, label) pairs. */
  const TriageReviewSeverityChoices: seq<(string, string)> := [
    ("Low", "Low"), ("Medium", "Medium"), ("High", "High"), ("Critical", "Critical")]

  /** `AppointmentForm.status`'s choices. */
  const AppointmentStatusChoices: seq<(string, string)> := [
    ("Scheduled", "Scheduled"), ("Completed", "Completed"), ("Cancelled", "Cancelled")]

  /** The values a select field accepts. */
  function ChoiceValues(choices: seq<(string, string)>): (r: set<string>)
    ensures forall v :: v in r <==> exists i :: 0 <= i < |choices| && choices[i].0 == v
  {
    if choices == [] then {} else {choices[0].0} + ChoiceValues(choices[1..])
  }

  /** A reviewer can pick exactly the four severities the classifier is
      trained on. */
  lemma TriageReviewChoicesAreTheSeverities()
    ensures ChoiceValues(TriageReviewSeverityChoices) == AiServices.SeverityNames
  {
    var c := TriageReviewSeverityChoices;
    assert c[0].0 == "Low" && c[1].0 == "Medium" && c[2].0 == "High" && c[3].0 == "Critical";
  }

  /** The appointment column default is one of the form's status choices. */
  lemma DefaultStatusIsAChoice()
    ensures DefaultAppointmentStatus in ChoiceValues(AppointmentStatusChoices)
  {
    assert AppointmentStatusChoices[0].0 == DefaultAppointmentStatus;
  }

  /** `TriageForm` validation: the patient is one of the listed patients (a
      coerced id of 0 is falsy and fails `DataRequired`) and the symptoms are
      not blank, so a valid submission never carries empty symptoms. */
  function TriageFormValid(patientIds: set<int>, patientId: int, symptoms: string): (ok: bool)
    ensures ok ==> patientId in patientIds && |symptoms| > 0
    ensures !HasText(symptoms) ==> !ok
  {
    patientId != 0 && patientId in patientIds && HasText(symptoms)
  }

  /** The data of a submitted triage review. */
  datatype TriageReview = TriageReview(triageId: string, severity: string, recommendation: string, isReviewed: bool)

  /** `TriageReviewForm` validation: the hidden assessment id and the
      recommendation are not blank, and the severity is one of the choices.
      A review that validates therefore names one of the four severities. */
  function TriageReviewValid(review: TriageReview): (ok: bool)
    ensures ok ==> review.severity in AiServices.SeverityNames
    ensures ok ==> exists s: AiServices.Severity :: AiServices.SeverityName(s) == review.severity
    ensures ok ==> |review.recommendation| > 0
  {
    TriageReviewChoicesAreTheSeverities();
    AiServices.SeverityNamesAreTheLabels(review.severity);
    && HasText(review.triageId)
    && HasText(review.severity)
    && review.severity in ChoiceValues(TriageReviewSeverityChoices)
    && HasText(review.recommendation)
  }

  // ---------------------------------------------------------------------
  // RegistrationForm.validate_username and StaffForm.validate_username
  // ---------------------------------------------------------------------

  const UsernameTakenMessage: string := "Please use a different username."

  /** `User.query.filter_by(username=...)[.filter(User.id != excluded)].first()`. */
  function FirstUserNamed(users: seq<User>, username: string, excluded: Option<int>): (r: Option<User>)
    ensures r.Some? ==> r.value in users && r.value.username == username
                        && (excluded.None? || r.value.id != excluded.value)
    ensures r.None? ==> forall u :: u in users && u.username == username ==>
                          excluded.Some? && u.id == excluded.value
  {
    if users == [] then None
    else if users[0].username == username && (excluded.None? || users[0].id != excluded.value) then Some(users[0])
    else FirstUserNamed(users[1..], username, excluded)
  }

  /** `StaffForm.validate_username`, given the data of the form's `user_id`
      field when the form has one: a username held by another user is
      rejected; a (truthy) user id excludes that user from the search. */
  function ValidateStaffUsername(users: seq<User>, username: string, userIdField: Option<int>): (o: Outcome<string>)
    ensures o.Fail? <==> exists u :: u in users && u.username == username
                                     && (userIdField.None? || userIdField.value == 0 || u.id != userIdField.value)
    ensures o.Fail? ==> o.error == UsernameTakenMessage
  {
    var excluded := if userIdField.Some? && userIdField.value != 0 then userIdField else None;
    if FirstUserNamed(users, username, excluded).Some? then Fail(UsernameTakenMessage) else Pass
  }

  /** `RegistrationForm.validate_username`: a username any user already
      holds is rejected. */
  function ValidateRegistrationUsername(users: seq<User>, username: string): (o: Outcome<string>)
    ensures o.Fail? <==> exists u :: u in users && u.username == username
    ensures o.Fail? ==> o.error == UsernameTakenMessage
  {
    if FirstUserNamed(users, username, None).Some? then Fail(UsernameTakenMessage) else Pass
  }

  /** Registration accepts the credentials, its inline username check
      included, exactly when the declared chains pass and no user holds the
      username yet. */
  lemma RegistrationUsernameRule(form: FormData, users: seq<User>)
    ensures var u := FieldData(form, "username");
            var p := FieldData(form, "password");
            FieldErrors(RegistrationCredentialFields, form) == {} && ValidateRegistrationUsername(users, u).Pass?
            <==> && HasText(u) && 4 <= |u| <= 64 && HasText(p) && |p| >= 8
                 && FieldData(form, "password2") == p
                 && forall x :: x in users ==> x.username != u
  {
    RegistrationCredentialRule(form);
  }

  /** The username check as it runs when staff member `editedUserId` is
      edited: `StaffForm` declares no `user_id` field, so `hasattr` is false
      and the search excludes nobody. */
  function ValidateUsernameOnEditAsWritten(users: seq<User>, username: string, editedUserId: int): (o: Outcome<string>)
    ensures o.Fail? <==> exists u :: u in users && u.username == username
  {
    ValidateStaffUsername(users, username, None)
  }

  /** Saving a staff member with their own, unchanged username is rejected. */
  lemma EditKeepingUsernameRejectedAsWritten()
    ensures ValidateUsernameOnEditAsWritten([User(7, "jdoe", "jdoe@example.org", "Jane", "Doe")], "jdoe", 7).Fail?
  {
    var u := User(7, "jdoe", "jdoe@example.org", "Jane", "Doe");
    assert u in [u];
  }

  /** The username check with the edited user's own id excluded, as the
      `user_id` branch of the validator intends. */
  function ValidateUsernameOnEdit(users: seq<User>, username: string, editedUserId: int): (o: Outcome<string>)
    requires editedUserId > 0
    ensures o.Fail? <==> exists u :: u in users && u.username == username && u.id != editedUserId
  {
    ValidateStaffUsername(users, username, Some(editedUserId))
  }

  /** With usernames unique, a staff member keeping their own username passes
      the corrected check; any username held by someone else still fails. */
  lemma EditKeepingOwnUsernameAccepted(users: seq<User>, me: User, other: User)
    requires me.id > 0 && me in users
    requires forall u :: u in users && u.username == me.username ==> u.id == me.id
    requires other in users && other.id != me.id
    ensures ValidateUsernameOnEdit(users, me.username, me.id).Pass?
    ensures ValidateUsernameOnEdit(users, other.username, me.id).Fail?
  {
  }
}
