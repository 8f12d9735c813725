# Hospital Management System: verified model of the triage and record-keeping core

This project models, in Dafny, the logic a Flask hospital-management web
application runs besides its database and templates:

- **The symptom-triage service** (`ai_services.py`). This covers:
  - the regular-expression text normaliser;
  - the 48-example training corpus;
  - the `TriageAI` orchestrator, which fits a TF-IDF / Naive Bayes pipeline on the corpus and turns its prediction into a severity, a confidence and a recommendation with a low-confidence disclaimer;
  - the module-level `assess_patient_symptoms`.
- **The dashboard helpers** (`utils.py`): phone-number formatting, the monthly appointment histogram and the triage statistics.
- **The patient and appointment records** (`models.py`): a patient's full name and age, the appointment status default, and the triage assessment record with its review fields.
- **The form rules** (`forms.py`). This covers:
  - the date and time validators;
  - the validator chains of the credential fields, with WTForms' `DataRequired`, `Optional`, `Length` and `EqualTo` semantics;
  - the severity and status choice lists;
  - the registration and staff username uniqueness checks.
- **The request handlers' own decisions** (`routes.py`):
  - the post-login redirect;
  - the default and edited staff passwords, and a user's password change;
  - the head-doctor placeholder and the capacity chart of the department pages;
  - creating and reviewing a triage assessment.

Pure code is modelled as functions with contracts and lemmas. Code that works step by step is imperative Dafny:

- The `TriageAI` object is a class whose `InitializeModel` method updates its `model` field.
- The histogram and the department chart are loops with invariants.
- The triage assessment is a class whose review fields the review handler updates in place.

Things the code takes from its environment become parameters:

- today's date;
- the database rows a query returns;
- the current user's staff profile;
- whether numpy and scikit-learn imported;
- the fitted pipeline, seen only through its inference function and the promises it makes (a label from the training set, four probabilities in [0, 1] summing to one).

## Model

| member | source | states |
|---|---|---|
| AiServices.SeverityNamesAreTheLabels | ai_services.py:44-114 | the four label strings are exactly the names of the four severities, and `Unknown` is not one of them |
| AiServices.StripPunctuation | ai_services.py:129 | the regex substitution keeps only word and whitespace characters, each taken from the input, and never lengthens it |
| AiServices.PreprocessText | ai_services.py:126-131 | the normalised text is no longer than the input, and holds only word and whitespace characters, none upper case |
| AiServices.StripCommutesWithLower | ai_services.py:126-131 | stripping and lower-casing commute, and the stripped length is the number of kept characters |
| AiServices.PreprocessKeepsOrder | ai_services.py:126-131 | the normaliser equals lower-casing the input's kept characters, in order, and its length is their number |
| AiServices.StripKeepsKeptStrings | ai_services.py:129 | a string of word and whitespace characters passes the substitution unchanged |
| AiServices.PreprocessIdempotent | ai_services.py:117-131 | normalising a normalised text changes nothing |
| AiServices.CountLabel | ai_services.py:44-114 | a label's count never exceeds the corpus size |
| AiServices.CountLabelConcat | ai_services.py:114 | label counts add up over the concatenation `TRIAGE_TRAINING_DATA + MEDICAL_TRAINING_DATA` |
| AiServices.CountLabelled | ai_services.py:44-112 | a block labelled with one severity counts all its texts for it and none for the others |
| AiServices.CountFourBlocks | ai_services.py:44-112 | the count for a severity over four consecutive blocks, one per severity, is that block's size |
| AiServices.TrainingCorpusBalanced | ai_services.py:44-114 | the full corpus has 48 examples, twelve of each severity |
| AiServices.PreprocessedSymptoms | ai_services.py:150-155 | the texts handed to `fit` are one per corpus example; each is already normalised (normalising it again changes nothing), has no upper case and holds only word and whitespace characters |
| AiServices.TrainingSeverities | ai_services.py:150-152 | the labels handed to `fit` are one per example, and label i is the severity name of example i |
| AiServices.CountName | ai_services.py:152-155 | the number of times a label occurs in the `fit` labels never exceeds their number |
| AiServices.CountNameOfExamples | ai_services.py:150-155 | when label i names example i's severity, each severity name occurs as often among the labels as that severity among the examples |
| AiServices.FitLabelsBalanced | ai_services.py:150-155 | the pipeline is fitted on 48 labels, each of the four severity names occurring twelve times |
| AiServices.BaseRecommendation | ai_services.py:222-230 | each severity name gets its own paragraph; any other string gets the generic advice |
| AiServices.Max | ai_services.py:199 | `np.max` of a non-empty row is one of its entries and no entry exceeds it |
| AiServices.SumBoundedBy | ai_services.py:196-199 | a row whose entries are at most m sums to at most length times m |
| AiServices.MaxProbabilityAtLeastQuarter | ai_services.py:196-199 | the largest of four probabilities summing to one is at least 1/4 |
| AiServices.TriageAI.constructor | ai_services.py:134-140 | a new orchestrator has threshold 0.6 and is valid; without the libraries its model is `None`, with them it is the result of a training run |
| AiServices.TriageAI.InitializeModel | ai_services.py:142-169 | the orchestrator stays valid; without the libraries the model is `None`; otherwise it is fitted on the normalised corpus and its labels, and stays `None` when fitting raises; the threshold is untouched |
| AiServices.TriageAI.GenerateRecommendation | ai_services.py:219-237 | the recommendation starts with the severity's paragraph; the disclaimer is appended if and only if confidence is below the threshold |
| AiServices.TriageAI.AssessSymptoms | ai_services.py:171-217 | without a model the result is `Unknown` with the model-error text and confidence 0; when inference raises it is `Unknown` with the assessment-error text; otherwise it carries the predicted label, a confidence in [0, 1] that is one of the probabilities and, with the libraries present, the largest one, and the matching recommendation |
| AiServices.AssessPatientSymptoms | ai_services.py:243-253 | every result names one of the four severities or `Unknown`, a name other than `Unknown` being the name of some severity, its confidence is in [0, 1], and `Unknown` comes with confidence 0 |
| AiServices.SuccessfulAssessment | ai_services.py:171-210 | a successful assessment reports the predicted label with the maximum probability as confidence, which is at least 1/4; the disclaimer appears exactly below 0.6 |
| Utils.Digits | utils.py:129 | the digit filter keeps only digits and never lengthens the input |
| Utils.DigitsConcat | utils.py:129 | the digit filter distributes over concatenation |
| Utils.DigitsOfDigitString | utils.py:129 | a string of digits passes the filter unchanged |
| Utils.Layout | utils.py:132-135 | the `(AAA) BBB-CCCC` layout of ten digits has 14 characters |
| Utils.LayoutKeepsDigits | utils.py:132-135 | the layout's digits are the ten input digits, in order |
| Utils.FormatPhoneNumber | utils.py:123-137 | missing or empty input gives ""; ten digits are laid out; eleven digits starting with 1 drop the 1 and are laid out; anything else is returned unchanged |
| Utils.FormatPhoneNumberIdempotent | utils.py:123-137 | formatting a formatted number changes nothing |
| Utils.CountInMonth | utils.py:55-57 | the number of appointments in a month never exceeds the number of appointments, and is zero exactly when none falls in that month |
| Utils.CountOf | utils.py:55-57 | the `defaultdict(int)` lookup gives the stored count for a month that has one and 0 otherwise |
| Utils.CountOfIncrement | utils.py:55-57 | `appointment_counts[month] += 1` raises the count of that month by one and leaves every other month's count as it was |
| Utils.CountUpToMonthStep | utils.py:55-57 | appending one appointment raises the cumulative count of months up to m by one exactly when its month is at most m |
| Utils.CountUpToMonthNoDates | utils.py:55-61 | with no appointments every cumulative month count is zero |
| Utils.MonthCountsCoverAll | utils.py:55-61 | when every date has a month from 1 to 12, the twelve month counts together count every appointment |
| Utils.TotalOfMonthCounts | utils.py:59-61 | the sum of the first m histogram bars is the number of appointments in months 1 to m |
| Utils.MonthlyAppointmentData | utils.py:43-66 | the labels are the twelve month names and bar k is the number of appointments in month k+1, so the bars sum to the number of appointments |
| Utils.CountReviewed | utils.py:103 | the reviewed count never exceeds the number of assessments |
| Utils.ReviewedPlusUnreviewed | utils.py:102-104 | reviewed and unreviewed assessments together are all assessments |
| Utils.KnownGroups | utils.py:112-113 | the charted groups are exactly the groups with a severity |
| Utils.KnownLabels | utils.py:112-113 | the label list is no longer than the groups, and a string is a label exactly when some group has it as severity |
| Utils.KnownCounts | utils.py:112-113 | the count list is no longer than the groups, and each count is the count of some group with a severity |
| Utils.EveryKnownGroupCharted | utils.py:112-113 | every group with a severity appears in the chart: some index gives its label in the label list and its count in the count list |
| Utils.SeverityChartAligned | utils.py:112-113 | the label and count lists have equal length and entry i of each belongs to the same severity group |
| Utils.GetTriageStats | utils.py:100-121 | the total is the number of assessments; pending is the number not reviewed, hence never negative; the chart lists are the labels and counts of the groups with a severity, in the groups' order, entry i of both belonging to the i-th such group, and every such group is charted |
| Models.FullName | models.py:74-75 | the full name is the first name, one space and the last name |
| Models.FullNameSplitsBack | models.py:74-75 | when the first name has no space, splitting the full name at its first space gives back both names |
| Models.Age | models.py:77-79 | the age is the number of whole years lived: the last birthday anniversary is on or before today, and the next one is after it |
| Models.AgeIsUnique | models.py:77-79 | only one number of years has its anniversary on or before today and the next one after it |
| Models.AgeNonNegative | models.py:77-79 | a person born on or before today has a non-negative age |
| Models.AgeOnBirthday | models.py:77-79 | on the birthday the age is the exact year difference |
| Models.AgeBeforeBirthday | models.py:77-79 | on any day of the year before the birthday's month and day, the age is the year difference less one |
| Models.AgeFromBirthday | models.py:77-79 | on any day of the year from the birthday's month and day on, the age is the year difference |
| Models.AgeOnLeapDayBeforeMarchBirthday | models.py:77-79 | someone born on 1 March 2000 is 23 on 29 February 2024, the day before the birthday |
| Models.AgeMonotone | models.py:77-79 | the age never decreases as today advances |
| Models.NewAppointment | models.py:99-108 | an appointment created without a status is `Scheduled`; every other field is stored as given |
| Models.TriageAssessment.constructor | models.py:116-125 | a new assessment stores the given fields, has no reviewer and is not reviewed |
| Forms.ValidateDateOfBirth | forms.py:53-55 | a date of birth passes exactly when it is on or before today, and fails with the future-date message otherwise |
| Forms.ValidateAppointmentDate | forms.py:152-154 | an appointment date passes exactly when it is today or later, and fails with the past-date message otherwise |
| Forms.ValidateEndTime | forms.py:156-158 | without a start time anything passes; with one the end passes exactly when it is strictly after the start |
| Forms.ChainPasses | forms.py:16-19 | a chain without `Optional` passes only on data meeting every one of its validators: text when `DataRequired` is present, each `Length` bound (-1 unbounded), each `EqualTo` field; a chain starting with `Optional` passes on blank data |
| Forms.FieldErrors | forms.py:15-19 | a field is reported exactly when its validator chain fails |
| Forms.NoErrorsWhenAllChainsPass | forms.py:15-19 | a form has no field errors exactly when every field's chain passes |
| Forms.RequiredThenLength | forms.py:16 | `DataRequired, Length(min, max)` passes exactly on non-blank data whose length is within the bounds, -1 meaning unbounded |
| Forms.RequiredThenEqualTo | forms.py:19 | `DataRequired, EqualTo(other)` passes exactly on non-blank data equal to the other field |
| Forms.OptionalThenLength | forms.py:67 | `Optional, Length(min, max)` passes on blank data, and otherwise exactly when the length is within the bounds |
| Forms.RegistrationCredentialRule | forms.py:15-19 | the declared chains of the three credential fields pass exactly when the username has 4 to 64 characters and text, the password has at least 8 characters and text, and the confirmation equals it |
| Forms.PasswordChangeRule | forms.py:244-247 | the password-change form validates exactly when the current password has text, the new password has at least 8 characters and text, and the confirmation equals it |
| Forms.StaffPasswordRule | forms.py:62-67 | the staff form accepts a username of 4 to 64 characters with text, and a password that is blank or has at least 8 characters |
| Forms.ChoiceValues | forms.py:217-222 | a value is accepted exactly when some choice carries it |
| Forms.TriageReviewChoicesAreTheSeverities | forms.py:215-222 | a reviewer can choose exactly the four severities the classifier is trained on |
| Forms.DefaultStatusIsAChoice | forms.py:145-149 | the appointment status default, `Scheduled`, is one of the status choices |
| Forms.TriageFormValid | forms.py:210-213 | a valid triage submission names a listed patient and has non-empty symptoms; blank symptoms are never valid |
| Forms.TriageReviewValid | forms.py:215-224 | a valid review carries one of the four severity names, the name of some severity, and a non-empty recommendation |
| Forms.FirstUserNamed | forms.py:116-120 | the query result, if any, is a user with that username who is not the excluded id; no result means no other user holds the username |
| Forms.ValidateRegistrationUsername | forms.py:24-27 | a registration username fails, with the taken-username message, exactly when some user already holds it |
| Forms.RegistrationUsernameRule | forms.py:15-27 | registration accepts the credentials, its username check included, exactly when the chains' conditions hold and no user holds the username |
| Forms.ValidateStaffUsername | forms.py:114-121 | a username fails exactly when some user holds it who is not the user named by a truthy `user_id` field |
| Forms.ValidateUsernameOnEditAsWritten | forms.py:62-121 | with no `user_id` field, editing a staff member fails whenever anyone, the edited user included, holds the username |
| Forms.EditKeepingUsernameRejectedAsWritten | forms.py:114-121 | saving a staff member with their own unchanged username is rejected |
| Forms.ValidateUsernameOnEdit | forms.py:114-118 | with the edited user excluded, the username fails exactly when another user holds it |
| Forms.EditKeepingOwnUsernameAccepted | forms.py:114-121 | with unique usernames, keeping one's own username passes, and taking another user's still fails |
| Text.Lower | ai_services.py:127 | `str.lower` on one character maps upper-case ASCII letters to lower case and leaves every other character alone |
| Text.LowerString | routes.py:305 | lower-casing keeps the length, lowers each character in place and leaves no upper case |
| Routes.NextPageAsWritten | routes.py:91-94 | any non-empty `next` that starts with '/' is followed; anything else goes to the dashboard |
| Routes.LoginRedirectLeavesSiteAsWritten | routes.py:91-94 | the protocol-relative `//evil.example` passes the check although it names another host |
| Routes.LoginRedirectThroughTabLeavesSiteAsWritten | routes.py:91-94 | for any host without tab, line feed or carriage return, `/` + tab + `/` + host passes the check as written, and with the tab deleted reads as `//` + host, which is not a path on this site |
| Routes.NextPage | routes.py:91-94 | the redirect target is always a path on this site: one leading '/' not followed by '/' or '\\', and no tab, line feed or carriage return; a local `next` is followed |
| Routes.WithoutDroppedCharacters | routes.py:91-94 | deleting tab, line feed and carriage return, as URL parsers do, leaves none of them, never lengthens the target, and keeps a single other character |
| Routes.WithoutDroppedCharactersCons | routes.py:91-94 | a leading tab, line feed or carriage return is deleted, any other leading character is kept in front of the rest's result |
| Routes.WithoutDroppedCharactersConcat | routes.py:91-94 | the deletion distributes over concatenation, so the characters kept stay in their order |
| Routes.TabBetweenSlashesRead | routes.py:91-94 | with the tab deleted, `/` + tab + `/` + host reads as `//` followed by the host as read |
| Routes.WithoutDroppedCharactersKeepsClean | routes.py:91-94 | a target without those characters reads as itself |
| Routes.NextPageLocalAsParsed | routes.py:91-94 | the followed target is still a path on this site after a URL parser has deleted the characters it ignores |
| Routes.NextPageNarrowsAsWritten | routes.py:91-94 | the corrected check agrees with the original on local paths and otherwise falls back to the dashboard |
| Routes.DefaultPassword | routes.py:303-306 | the default password is the first initial, the last name and "123", lower-cased: length of the last name plus 4, no upper case, ending in "123" |
| Routes.DefaultPasswordIgnoresCase | routes.py:305 | the default password does not depend on the case of the names |
| Routes.InitialPassword | routes.py:301-306 | a given password is used as is; an empty one is replaced by the default password |
| Routes.EditedPassword | routes.py:377-379 | the stored password changes only when a non-empty one is given, and then to that one |
| Routes.ChangedPassword | routes.py:1042-1055 | the password changes to the new one exactly when the form validates and the current password given is the stored one; otherwise it is kept |
| Routes.ChangedPasswordIsAccepted | routes.py:1042-1055 | a changed password has at least 8 characters and text and was confirmed, and was changed by a user who gave the stored, non-blank password |
| Routes.HeadDoctorId | routes.py:889 | form value 0 is stored as no head doctor, any other as that doctor's id |
| Routes.HeadDoctorFormValue | routes.py:955-957 | a department without a head doctor shows the placeholder 0, otherwise its head doctor's id |
| Routes.HeadDoctorFormRoundTrip | routes.py:955-961 | every form value survives being stored and shown again |
| Routes.HeadDoctorStoredRoundTrip | routes.py:955-965 | every stored head doctor survives being shown and saved again |
| Routes.ReportedCapacity | routes.py:994 | a missing capacity is charted as 0, any other as itself |
| Routes.DepartmentStats | routes.py:983-995 | the three chart lists have one entry per department, entry i giving department i's name, staff count and charted capacity |
| Routes.AssessTriage | routes.py:694-729 | a valid submission stores a new, unreviewed assessment with the service's severity, recommendation and confidence, which lies in [0, 1]; an invalid one stores nothing |
| Routes.ReviewerAsWritten | routes.py:756-762 | a user with a staff profile is recorded as reviewer; a user without one makes the handler fail |
| Routes.ReviewWithoutStaffProfileFailsAsWritten | routes.py:756-762 | a reviewer without a staff profile fails as written, while the intended fallback records the first staff member |
| Routes.Reviewer | routes.py:756-762 | the reviewer is the user's staff profile, else the first staff member, else the stored reviewer is kept |
| Routes.ReviewerAgreesWhereAsWrittenSucceeds | routes.py:756-762 | wherever the handler as written succeeds, the corrected reviewer gives the same id |
| Routes.ReviewTriageAsWritten | routes.py:733-767 | as written: an invalid review changes nothing; a valid one from a user with a staff profile overwrites severity, recommendation and reviewed flag and records that profile; a valid one from a user without a profile fails with the `None.id` error and stores nothing; patient, symptoms and confidence are never touched |
| Routes.ReviewTriage | routes.py:733-767 | with the corrected reviewer rule, not the handler's own: a valid review overwrites severity, recommendation and reviewed flag with the form's, records the reviewer and leaves a known severity; an invalid one changes nothing; patient, symptoms and confidence are never touched |

## Left out

- The spaCy branch of `preprocess_text` (lemmatising and stop-word removal) is left out, along with the lazy loading of the spaCy model. Only the regular-expression branch is modelled.
- The scikit-learn pipeline's internals (TF-IDF weighting, Naive Bayes fitting, `max_features=1000`) are left out. The pipeline is a parameter. It is known only through the promises a fitted pipeline makes: a label from the training set, and four probabilities in [0, 1] summing to one.
- Probabilities and confidences are real numbers, not 64-bit floats. Rounding in the probability sum is not modelled.
- `\w`, `\s`, `str.lower`, `str.isdigit` and `str.strip` are modelled over ASCII only. Python also treats non-ASCII letters, digits and spaces as such. Under this model the normaliser drops non-ASCII letters, which Python keeps.
- AiServices.TriageAI.AssessSymptoms: the `probabilities.size > 0` test and its `0.0` fallback are not modelled. A fitted pipeline always returns four probabilities, so that branch cannot be reached. The first-probability branch is modelled, but it is reached only by a model that exists without the libraries, which `Valid` rules out.
- Logging is not modelled.
- `get_nlp_model`, `app.py`, the scripts and the JSON API are not part of this model.
- Database sessions, queries, commits and relationships are not modelled. Query results are parameters.
- Templates, flash messages, redirects other than the login target, authentication and sessions are not modelled.
- Password hashing is not modelled. A stored password stands for its hash.
- Routes.AssessTriage and Routes.ReviewTriage do not model the CSRF check of `validate_on_submit`, nor the `POST` method test.
- The `BooleanField` coercion of the reviewed flag is not modelled. The flag is a boolean parameter.
- The `Email` validators and `validate_email` are not modelled. The form-level `validate_email` has the same structure as `validate_username`, and so the same defect.
- The other forms' length bounds and choice lists (gender, blood type, staff position, record types, search forms) are not modelled. They follow the same validator-chain semantics as the chains that are modelled.
- Concurrency between requests is not modelled.
- `get_patient_stats`, `get_appointment_stats`, `get_record_type_distribution`, `get_staff_by_department` and `generate_search_query` are not modelled. They are database queries with no logic of their own.
- Utils.MonthlyAppointmentData takes the current year's appointment dates as given. The year filter is part of the query and is not modelled.
- Models.Age takes today's date as a parameter instead of reading the clock.

## Findings

| source | as written | input that shows it | evidently intended | confidence | as-written member | corrected member |
|---|---|---|---|---|---|---|
| routes.py:91-94 | any `next` starting with '/' is followed | `next=//evil.example`, or `/` + tab + `/evil.example`, redirects to another host after login | follow only paths on this site, also as URL parsers read them | high (not executed) | Routes.LoginRedirectLeavesSiteAsWritten | Routes.NextPage |
| forms.py:114-121 | `StaffForm` declares no `user_id` field, so the edited user is never excluded from the uniqueness check | editing staff member 7 (`jdoe`) without changing the username reports "Please use a different username." | exclude the edited user's own id | high (not executed) | Forms.EditKeepingUsernameRejectedAsWritten | Forms.ValidateUsernameOnEdit |
| routes.py:756-762 | `hasattr(current_user, 'staff_profile')` holds for every user, because the one-to-one backref always defines the attribute | a user without a staff profile submits a review: `None.id` raises, and the first-staff fallback is never reached | test whether the profile is present, then fall back to the first staff member | high (not executed) | Routes.ReviewTriageAsWritten | Routes.ReviewTriage |
