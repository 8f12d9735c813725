/** The records of the hospital database that carry behaviour of their own:
    a patient's name and age, and the column defaults of appointments and
    triage assessments. */
module Models {
  import opened Wrappers
  import opened Text
  import opened Calendar

  /** A user account, as far as the forms and routes look at it. */
  datatype User = User(id: int, username: string, email: string, firstName: string, lastName: string)

  datatype Patient = Patient(firstName: string, lastName: string, dateOfBirth: Date)

  // ---------------------------------------------------------------------
  // Patient.full_name
  // ---------------------------------------------------------------------

  /** `Patient.full_name`: first name, one space, last name. */
  function FullName(p: Patient): (r: string)
    ensures |r| == |p.firstName| + 1 + |p.lastName|
    ensures StartsWith(r, p.firstName) && EndsWith(r, p.lastName)
    ensures r[|p.firstName|] == ' '
  {
    p.firstName + " " + p.lastName
  }

  /** Splits a string at its first space: the part before it and the part
      after it (the whole string and "" when there is none). */
  function SplitAtFirstSpace(s: string): (string, string) {
    if s == [] then ("", "")
    else if s[0] == ' ' then ("", s[1..])
    else
      var rest := SplitAtFirstSpace(s[1..]);
      ([s[0]] + rest.0, rest.1)
  }

  /** When the first name holds no space, the full name splits back into the
      first and last names. */
  lemma {:induction false} FullNameSplitsBack(first: string, last: string)
    requires forall i :: 0 <= i < |first| ==> first[i] != ' '
    ensures SplitAtFirstSpace(first + " " + last) == (first, last)
  {
    if first == [] {
      assert (first + " " + last)[1..] == last;
    } else {
      var full := first + " " + last;
      assert full[0] == first[0] && full[0] != ' ';
      assert full[1..] == first[1..] + " " + last;
      FullNameSplitsBack(first[1..], last);
      assert [first[0]] + first[1..] == first;
    }
  }

  // ---------------------------------------------------------------------
  // Patient.age
  // ---------------------------------------------------------------------

  /** The date on which someone born on `dob` turns `n`, compared as Python
      compares dates (so a 29 February birthday has its anniversary after
      28 February in every year). */
  function Anniversary(dob: Date, n: int): Date {
    Date(dob.year + n, dob.month, dob.day)
  }

  /** `Patient.age` with today's date passed in: the year difference, less
      one while this year's birthday is still ahead. The result is the number
      of whole years lived: the last anniversary is on or before today and
      the next one is after it. */
  function Age(p: Patient, today: Date): (r: int)
    ensures DateLessEq(Anniversary(p.dateOfBirth, r), today)
    ensures DateLess(today, Anniversary(p.dateOfBirth, r + 1))
  {
    var dob := p.dateOfBirth;
    today.year - dob.year - (if MonthDayLess(today, dob) then 1 else 0)
  }

  /** The anniversary bracket pins the age down: no other number of years has
      its anniversary on or before today and the next one after it. */
  lemma AgeIsUnique(p: Patient, today: Date, n: int)
    requires DateLessEq(Anniversary(p.dateOfBirth, n), today)
    requires DateLess(today, Anniversary(p.dateOfBirth, n + 1))
    ensures n == Age(p, today)
  {
  }

  /** Someone born on or before today has a non-negative age. */
  lemma AgeNonNegative(p: Patient, today: Date)
    requires DateLessEq(p.dateOfBirth, today)
    ensures Age(p, today) >= 0
  {
  }

  /** On the birthday itself the age is the exact year difference. */
  lemma AgeOnBirthday(p: Patient, year: int)
    ensures Age(p, Date(year, p.dateOfBirth.month, p.dateOfBirth.day)) == year - p.dateOfBirth.year
  {
  }

  /** On any day of a year before that year's birthday, the 1st of a month
      included, the age is one less than the year difference. */
  lemma AgeBeforeBirthday(p: Patient, today: Date)
    requires MonthDayLess(today, p.dateOfBirth)
    ensures Age(p, today) == today.year - p.dateOfBirth.year - 1
  {
  }

  /** From the birthday to the end of the year the age is the year
      difference. */
  lemma AgeFromBirthday(p: Patient, today: Date)
    requires !MonthDayLess(today, p.dateOfBirth)
    ensures Age(p, today) == today.year - p.dateOfBirth.year
  {
  }

  /** Someone born on 1 March 2000 is still 23 on 29 February 2024, the day
      before their 24th birthday. */
  lemma AgeOnLeapDayBeforeMarchBirthday()
    ensures Age(Patient("Ada", "Byron", Date(2000, 3, 1)), Date(2024, 2, 29)) == 23
  {
  }

  /** Age never decreases as today advances. */
  lemma AgeMonotone(p: Patient, today: Date, later: Date)
    requires DateLessEq(today, later)
    ensures Age(p, today) <= Age(p, later)
  {
  }

  // ---------------------------------------------------------------------
  // Column defaults
  // ---------------------------------------------------------------------

  const DefaultAppointmentStatus: string := "Scheduled"

  datatype Appointment = Appointment(
    patientId: int,
    staffId: int,
    date: Date,
    startTime: Time,
    endTime: Time,
    reason: string,
    status: string,
    notes: Option<string>)

  /** `Appointment(...)`: a status that is not given takes the column default
      `'Scheduled'`; every other field is stored as given. */
  function NewAppointment(
    patientId: int, staffId: int, date: Date, startTime: Time, endTime: Time,
    reason: string, status: Option<string>, notes: Option<string>): (a: Appointment)
    ensures status.None? ==> a.status == DefaultAppointmentStatus
    ensures status.Some? ==> a.status == status.value
    ensures a.patientId == patientId && a.staffId == staffId && a.date == date
    ensures a.startTime == startTime && a.endTime == endTime && a.reason == reason && a.notes == notes
  {
    Appointment(patientId, staffId, date, startTime, endTime, reason,
                status.GetOr(DefaultAppointmentStatus), notes)
  }

  /** A stored triage assessment, whose review fields are updated in place. */
  class TriageAssessment {
    var patientId: int
    var symptoms: string
    var severity: string
    var recommendation: string
    var aiConfidence: real
    var reviewedByStaffId: Option<int>
    var isReviewed: bool

    /** `TriageAssessment(...)` as the triage route builds it: the given
        fields are stored, no reviewer is set and `is_reviewed` takes its
        column default, false. */
    constructor (patientId: int, symptoms: string, severity: string, recommendation: string, aiConfidence: real)
      ensures this.patientId == patientId && this.symptoms == symptoms
      ensures this.severity == severity && this.recommendation == recommendation
      ensures this.aiConfidence == aiConfidence
      ensures reviewedByStaffId == None
      ensures !isReviewed
    {
      this.patientId := patientId;
      this.symptoms := symptoms;
      this.severity := severity;
      this.recommendation := recommendation;
      this.aiConfidence := aiConfidence;
      reviewedByStaffId := None;
      isReviewed := false;
    }
  }
}
