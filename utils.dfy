/** The pure rules of the dashboard helpers: phone-number formatting, the
    monthly appointment histogram and the triage statistics, each taken over
    the rows a database query would return. */
module Utils {
  import opened Wrappers
  import opened Text
  import opened Calendar

  // ---------------------------------------------------------------------
  // format_phone_number
  // ---------------------------------------------------------------------

  /** `''.join(c for c in phone if c.isdigit())`. */
  function Digits(s: string): (r: string)
    ensures |r| <= |s|
    ensures forall i :: 0 <= i < |r| ==> IsDigit(r[i])
  {
    if s == [] then []
    else (if IsDigit(s[0]) then [s[0]] else []) + Digits(s[1..])
  }

  lemma {:induction false} DigitsConcat(a: string, b: string)
    ensures Digits(a + b) == Digits(a) + Digits(b)
  {
    if a == [] {
      assert a + b == b;
    } else {
      assert (a + b)[0] == a[0];
      assert (a + b)[1..] == a[1..] + b;
      DigitsConcat(a[1..], b);
      var head := if IsDigit(a[0]) then [a[0]] else [];
      assert Digits(a + b) == head + (Digits(a[1..]) + Digits(b));
    }
  }

  lemma {:induction false} DigitsOfDigitString(s: string)
    requires forall i :: 0 <= i < |s| ==> IsDigit(s[i])
    ensures Digits(s) == s
  {
    if s != [] {
      DigitsOfDigitString(s[1..]);
    }
  }

  /** The display layout `(AAA) BBB-CCCC` of ten national digits. */
  function Layout(d: string): (r: string)
    requires |d| == 10
    ensures |r| == 14
  {
    "(" + d[..3] + ") " + d[3..6] + "-" + d[6..]
  }

  /** The layout keeps the ten digits, in order, and adds only punctuation. */
  lemma LayoutKeepsDigits(d: string)
    requires |d| == 10
    requires forall i :: 0 <= i < |d| ==> IsDigit(d[i])
    ensures Digits(Layout(d)) == d
  {
    var a, b, c := d[..3], d[3..6], d[6..];
    DigitsOfDigitString(a);
    DigitsOfDigitString(b);
    DigitsOfDigitString(c);
    assert Digits("(") == "" && Digits(") ") == "" && Digits("-") == "";
    DigitsConcat("(", a);
    DigitsConcat("(" + a, ") ");
    DigitsConcat("(" + a + ") ", b);
    DigitsConcat("(" + a + ") " + b, "-");
    DigitsConcat("(" + a + ") " + b + "-", c);
    assert a + b + c == d;
  }

  /** `format_phone_number`: empty or missing input gives the empty string;
      ten digits are laid out as `(AAA) BBB-CCCC`; eleven digits starting with
      1 drop the 1 and are laid out the same way; anything else is returned
      unchanged. */
  function FormatPhoneNumber(phone: Option<string>): (r: string)
    ensures phone.None? || phone.value == [] ==> r == ""
    ensures phone.Some? && |Digits(phone.value)| == 10 ==>
              r == Layout(Digits(phone.value)) && |r| == 14
    ensures phone.Some? && |Digits(phone.value)| == 11 && Digits(phone.value)[0] == '1' ==>
              r == Layout(Digits(phone.value)[1..]) && |r| == 14
    ensures phone.Some? && phone.value != [] && |Digits(phone.value)| != 10
            && !(|Digits(phone.value)| == 11 && Digits(phone.value)[0] == '1') ==>
              r == phone.value
  {
    match phone
    case None => ""
    case Some(p) =>
      if p == [] then ""
      else
        var nums := Digits(p);
        if |nums| == 10 then "(" + nums[..3] + ") " + nums[3..6] + "-" + nums[6..]
        else if |nums| == 11 && nums[0] == '1' then "(" + nums[1..4] + ") " + nums[4..7] + "-" + nums[7..]
        else p
  }

  /** Formatting a formatted number changes nothing. */
  lemma FormatPhoneNumberIdempotent(phone: Option<string>)
    ensures FormatPhoneNumber(Some(FormatPhoneNumber(phone))) == FormatPhoneNumber(phone)
  {
    if phone.Some? && phone.value != [] {
      var nums := Digits(phone.value);
      if |nums| == 10 {
        LayoutKeepsDigits(nums);
      } else if |nums| == 11 && nums[0] == '1' {
        LayoutKeepsDigits(nums[1..]);
      }
    }
  }

  // ---------------------------------------------------------------------
  // get_monthly_appointment_data
  // ---------------------------------------------------------------------

  /** `calendar.month_name[1..12]` in the English locale. */
  const MonthNames: seq<string> := [
    "January", "February", "March", "April", "May", "June",
    "July", "August", "September", "October", "November", "December"]

  /** The number of appointment dates that fall in month `m`: zero exactly
      when no date does. */
  function CountInMonth(dates: seq<Date>, m: int): (n: nat)
    ensures n <= |dates|
    ensures n == 0 <==> forall i :: 0 <= i < |dates| ==> dates[i].month != m
  {
    if dates == [] then 0
    else CountInMonth(dates[..|dates| - 1], m) + (if dates[|dates| - 1].month == m then 1 else 0)
  }

  /** The `defaultdict(int)` lookup: a missing month counts zero. */
  function CountOf(counts: map<int, nat>, m: int): (n: nat)
    ensures m !in counts ==> n == 0
    ensures m in counts ==> n == counts[m]
  {
    if m in counts then counts[m] else 0
  }

  /** `appointment_counts[month] += 1` raises the count of that month by one
      and leaves every other month's count as it was. */
  lemma CountOfIncrement(counts: map<int, nat>, month: int, m: int)
    ensures CountOf(counts[month := CountOf(counts, month) + 1], m)
            == CountOf(counts, m) + (if m == month then 1 else 0)
  {
  }

  function Total(s: seq<nat>): nat {
    if s == [] then 0 else Total(s[..|s| - 1]) + s[|s| - 1]
  }

  /** Appointments in months 1 to `m`. */
  function CountUpToMonth(dates: seq<Date>, m: nat): nat {
    if m == 0 then 0 else CountUpToMonth(dates, m - 1) + CountInMonth(dates, m)
  }

  lemma {:induction false} CountUpToMonthStep(dates: seq<Date>, d: Date, m: nat)
    ensures CountUpToMonth(dates + [d], m)
            == CountUpToMonth(dates, m) + (if 1 <= d.month <= m then 1 else 0)
  {
    if m > 0 {
      CountUpToMonthStep(dates, d, m - 1);
      assert (dates + [d])[..|dates + [d]| - 1] == dates;
    }
  }

  lemma {:induction false} CountUpToMonthNoDates(m: nat)
    ensures CountUpToMonth([], m) == 0
  {
    if m > 0 {
      CountUpToMonthNoDates(m - 1);
    }
  }

  /** When every month is in 1..12, the twelve month counts add up to the
      number of appointments. */
  lemma {:induction false} MonthCountsCoverAll(dates: seq<Date>)
    requires forall i :: 0 <= i < |dates| ==> dates[i].Valid()
    ensures CountUpToMonth(dates, 12) == |dates|
  {
    if dates == [] {
      CountUpToMonthNoDates(12);
    } else {
      var init := dates[..|dates| - 1];
      MonthCountsCoverAll(init);
      CountUpToMonthStep(init, dates[|dates| - 1], 12);
      assert init + [dates[|dates| - 1]] == dates;
    }
  }

  lemma {:induction false} TotalOfMonthCounts(dates: seq<Date>, data: seq<nat>, m: nat)
    requires m <= |data|
    requires forall k :: 0 <= k < |data| ==> data[k] == CountInMonth(dates, k + 1)
    ensures Total(data[..m]) == CountUpToMonth(dates, m)
  {
    if m > 0 {
      TotalOfMonthCounts(dates, data, m - 1);
      assert data[..m][..m - 1] == data[..m - 1];
    }
  }

  /** `get_monthly_appointment_data` over the dates of this year's
      appointments: twelve month names, twelve counts, count `k` being the
      number of appointments in month `k + 1`, and the counts summing to the
      number of appointments. */
  method MonthlyAppointmentData(appointments: seq<Date>) returns (labels: seq<string>, data: seq<nat>)
    requires forall i :: 0 <= i < |appointments| ==> appointments[i].Valid()
    ensures labels == MonthNames && |labels| == 12
    ensures |data| == 12
    ensures forall k :: 0 <= k < 12 ==> data[k] == CountInMonth(appointments, k + 1)
    ensures Total(data) == |appointments|
  {
    var appointmentCounts: map<int, nat> := map[];
    var i := 0;
    while i < |appointments|
      invariant 0 <= i <= |appointments|
      invariant forall m :: CountOf(appointmentCounts, m) == CountInMonth(appointments[..i], m)
    {
      var month := appointments[i].month;
      appointmentCounts := appointmentCounts[month := CountOf(appointmentCounts, month) + 1];
      assert appointments[..i + 1][..i] == appointments[..i];
      i := i + 1;
    }
    assert appointments[..i] == appointments;
    labels := MonthNames;
    data := seq(12, k requires 0 <= k < 12 => CountOf(appointmentCounts, k + 1));
    TotalOfMonthCounts(appointments, data, 12);
    MonthCountsCoverAll(appointments);
    assert data[..12] == data;
  }

  // ---------------------------------------------------------------------
  // get_triage_stats
  // ---------------------------------------------------------------------

  /** One stored triage assessment, as far as the statistics look at it. */
  datatype AssessmentRow = AssessmentRow(severity: Option<string>, isReviewed: bool)

  /** One row of the `group_by(severity)` query: a severity (possibly NULL)
      and how many assessments carry it. */
  datatype SeverityGroup = SeverityGroup(severity: Option<string>, count: nat)

  datatype TriageStats = TriageStats(
    total: nat,
    reviewed: nat,
    pending: int,
    severityLabels: seq<string>,
    severityData: seq<nat>)

  function CountReviewed(rows: seq<AssessmentRow>): (n: nat)
    ensures n <= |rows|
  {
    if rows == [] then 0
    else CountReviewed(rows[..|rows| - 1]) + (if rows[|rows| - 1].isReviewed then 1 else 0)
  }

  function CountUnreviewed(rows: seq<AssessmentRow>): nat {
    if rows == [] then 0
    else CountUnreviewed(rows[..|rows| - 1]) + (if rows[|rows| - 1].isReviewed then 0 else 1)
  }

  lemma {:induction false} ReviewedPlusUnreviewed(rows: seq<AssessmentRow>)
    ensures CountReviewed(rows) + CountUnreviewed(rows) == |rows|
  {
    if rows != [] {
      ReviewedPlusUnreviewed(rows[..|rows| - 1]);
    }
  }

  /** `[s[0] for s in severity_counts if s[0] is not None]`: a label is
      charted exactly when some group carries it as its severity. */
  function KnownLabels(groups: seq<SeverityGroup>): (r: seq<string>)
    ensures |r| <= |groups|
    ensures forall x :: x in r <==> exists g :: g in groups && g.severity == Some(x)
  {
    if groups == [] then []
    else KnownLabels(groups[..|groups| - 1])
         + (match groups[|groups| - 1].severity
            case Some(s) => [s]
            case None => [])
  }

  /** `[s[1] for s in severity_counts if s[0] is not None]`: every charted
      count is the count of a group that has a severity. */
  function KnownCounts(groups: seq<SeverityGroup>): (r: seq<nat>)
    ensures |r| <= |groups|
    ensures forall c :: c in r ==> exists g :: g in groups && g.severity.Some? && g.count == c
  {
    if groups == [] then []
    else KnownCounts(groups[..|groups| - 1])
         + (if groups[|groups| - 1].severity.Some? then [groups[|groups| - 1].count] else [])
  }

  /** The groups with a severity, in query order. */
  function KnownGroups(groups: seq<SeverityGroup>): (r: seq<SeverityGroup>)
    ensures forall x :: x in r <==> x in groups && x.severity.Some?
  {
    if groups == [] then []
    else KnownGroups(groups[..|groups| - 1])
         + (if groups[|groups| - 1].severity.Some? then [groups[|groups| - 1]] else [])
  }

  /** The two comprehensions stay aligned: entry `i` of the labels and entry
      `i` of the counts are the severity and count of the `i`-th group that
      has a severity; groups without one appear in neither. */
  lemma {:induction false} SeverityChartAligned(groups: seq<SeverityGroup>)
    ensures |KnownLabels(groups)| == |KnownCounts(groups)| == |KnownGroups(groups)|
    ensures forall i :: 0 <= i < |KnownGroups(groups)| ==>
              KnownGroups(groups)[i] == SeverityGroup(Some(KnownLabels(groups)[i]), KnownCounts(groups)[i])
  {
    if groups != [] {
      SeverityChartAligned(groups[..|groups| - 1]);
    }
  }

  /** Every group with a severity is charted, with its own count. */
  lemma EveryKnownGroupCharted(groups: seq<SeverityGroup>)
    ensures forall g :: g in groups && g.severity.Some? ==>
              exists i :: 0 <= i < |KnownLabels(groups)| && i < |KnownCounts(groups)|
                          && KnownLabels(groups)[i] == g.severity.value && KnownCounts(groups)[i] == g.count
  {
    SeverityChartAligned(groups);
    var known := KnownGroups(groups);
    forall g | g in groups && g.severity.Some?
      ensures exists i :: 0 <= i < |KnownLabels(groups)| && i < |KnownCounts(groups)|
                          && KnownLabels(groups)[i] == g.severity.value && KnownCounts(groups)[i] == g.count
    {
      assert g in known;
      var i :| 0 <= i < |known| && known[i] == g;
      assert known[i] == SeverityGroup(Some(KnownLabels(groups)[i]), KnownCounts(groups)[i]);
    }
  }

  /** `get_triage_stats` over the assessment rows and the severity groups:
      the chart lists are the groups with a severity, in query order, each
      label paired with its own count, and no group with a severity is
      missing. */
  function GetTriageStats(rows: seq<AssessmentRow>, groups: seq<SeverityGroup>): (r: TriageStats)
    ensures r.total == |rows| && r.reviewed == CountReviewed(rows)
    ensures r.pending == CountUnreviewed(rows) && r.pending >= 0
    ensures r.pending == r.total - r.reviewed
    ensures r.severityLabels == KnownLabels(groups) && r.severityData == KnownCounts(groups)
    ensures |r.severityLabels| == |r.severityData| == |KnownGroups(groups)|
    ensures forall i :: 0 <= i < |r.severityLabels| ==>
              SeverityGroup(Some(r.severityLabels[i]), r.severityData[i]) == KnownGroups(groups)[i]
    ensures forall i :: 0 <= i < |r.severityLabels| ==>
              SeverityGroup(Some(r.severityLabels[i]), r.severityData[i]) in groups
    ensures forall g :: g in groups && g.severity.Some? ==>
              exists i :: 0 <= i < |r.severityLabels| && i < |r.severityData|
                          && r.severityLabels[i] == g.severity.value && r.severityData[i] == g.count
  {
    ReviewedPlusUnreviewed(rows);
    SeverityChartAligned(groups);
    EveryKnownGroupCharted(groups);
    var total := |rows|;
    var reviewed := CountReviewed(rows);
    var pending := total - reviewed;
    TriageStats(total, reviewed, pending, KnownLabels(groups), KnownCounts(groups))
  }
}
