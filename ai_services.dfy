/** The symptom-triage service: the regular-expression text normaliser, the
    embedded training corpus, the recommendation generator and the `TriageAI`
    orchestrator that owns the fitted classification pipeline. */
module AiServices {
  import opened Wrappers
  import opened Text

  // ---------------------------------------------------------------------
  // Severity classes
  // ---------------------------------------------------------------------

  datatype Severity = Low | Medium | High | Critical

  /** The label string the corpus and the classifier use for a severity. */
  function SeverityName(s: Severity): string {
    match s
    case Low => "Low"
    case Medium => "Medium"
    case High => "High"
    case Critical => "Critical"
  }

  const SeverityNames: set<string> := {"Low", "Medium", "High", "Critical"}

  /** The severity reported when no prediction could be made. */
  const UnknownSeverity: string := "Unknown"

  const NumClasses: nat := 4

  lemma {:induction false} SeverityNamesAreTheLabels(name: string)
    ensures name in SeverityNames <==> exists s: Severity :: SeverityName(s) == name
    ensures UnknownSeverity !in SeverityNames
  {
    if name in SeverityNames {
      if name == "Low" { assert SeverityName(Low) == name; }
      else if name == "Medium" { assert SeverityName(Medium) == name; }
      else if name == "High" { assert SeverityName(High) == name; }
      else { assert SeverityName(Critical) == name; }
    }
  }

  // ---------------------------------------------------------------------
  // Text normaliser (the regular-expression path of `preprocess_text`)
  // ---------------------------------------------------------------------

  /** The characters `re.sub(r'[^\w\s]', '', ...)` keeps. */
  predicate Kept(c: char) {
    IsWordChar(c) || IsSpace(c)
  }

  /** `re.sub(r'[^\w\s]', '', s)`: every character that is neither a word
      character nor whitespace is removed. */
  function StripPunctuation(s: string): (r: string)
    ensures |r| <= |s|
    ensures forall i :: 0 <= i < |r| ==> Kept(r[i]) && r[i] in s
  {
    if s == [] then []
    else (if Kept(s[0]) then [s[0]] else []) + StripPunctuation(s[1..])
  }

  /** The regular-expression branch of `preprocess_text`: lower-case, then
      strip punctuation. */
  function PreprocessText(text: string): (r: string)
    ensures |r| <= |text|
    ensures forall i :: 0 <= i < |r| ==> Kept(r[i]) && !IsUpper(r[i])
  {
    StripPunctuation(LowerString(text))
  }

  /** Number of characters of `s` that survive stripping. */
  function CountKept(s: string): nat {
    if s == [] then 0 else (if Kept(s[0]) then 1 else 0) + CountKept(s[1..])
  }

  lemma {:induction false} StripKeepsKeptStrings(s: string)
    requires forall i :: 0 <= i < |s| ==> Kept(s[i])
    ensures StripPunctuation(s) == s
  {
    if s != [] {
      StripKeepsKeptStrings(s[1..]);
    }
  }

  lemma {:induction false} StripCommutesWithLower(s: string)
    ensures StripPunctuation(LowerString(s)) == LowerString(StripPunctuation(s))
    ensures |StripPunctuation(s)| == CountKept(s)
  {
    if s != [] {
      StripCommutesWithLower(s[1..]);
      assert LowerString(s)[1..] == LowerString(s[1..]);
      var head := if Kept(s[0]) then [s[0]] else [];
      LowerStringConcat(head, StripPunctuation(s[1..]));
    }
  }

  /** The normaliser keeps exactly the word and whitespace characters of the
      input, in their original order, lower-cased: it equals lower-casing the
      stripped input, and its length is the number of kept characters. */
  lemma PreprocessKeepsOrder(text: string)
    ensures PreprocessText(text) == LowerString(StripPunctuation(text))
    ensures |PreprocessText(text)| == CountKept(text)
  {
    StripCommutesWithLower(text);
  }

  /** Normalising an already normalised string changes nothing. */
  lemma PreprocessIdempotent(text: string)
    ensures PreprocessText(PreprocessText(text)) == PreprocessText(text)
  {
    var r := PreprocessText(text);
    LowerStringFixesLowercase(r);
    StripKeepsKeptStrings(r);
  }

  // ---------------------------------------------------------------------
  // Training corpus
  // ---------------------------------------------------------------------

  datatype Example = Example(text: string, severity: Severity)

  /** The texts of a block of the corpus, each paired with the block's label. */
  function Labelled(texts: seq<string>, s: Severity): (r: seq<Example>)
    ensures |r| == |texts|
    ensures forall i :: 0 <= i < |r| ==> r[i] == Example(texts[i], s)
  {
    seq(|texts|, i requires 0 <= i < |texts| => Example(texts[i], s))
  }

  const LayLow: seq<string> := [
    "I have a mild headache",
    "Slight cough for one day",
    "Runny nose and sneezing",
    "Minor cuts and scrapes",
    "Mild sore throat",
    "Slight fever below 38°C",
    "Mild joint pain",
    "Minor skin rash"]

  const LayMedium: seq<string> := [
    "Persistent headache for several days",
    "Fever between 38°C and 39°C",
    "Cough with colored phlegm",
    "Dehydration with some dizziness",
    "Persistent vomiting",
    "Flu symptoms with high fever",
    "Ear pain with discharge",
    "Urinary tract infection symptoms"]

  const LayHigh: seq<string> := [
    "Severe abdominal pain",
    "Difficulty breathing",
    "High fever above 39°C",
    "Chest pain",
    "Severe headache with neck stiffness",
    "Sudden vision changes",
    "Deep cut requiring stitches",
    "Broken bone or suspected fracture"]

  const LayCritical: seq<string> := [
    "Unconsciousness or fainting",
    "Severe chest pain radiating to arm or jaw",
    "Inability to breathe",
    "Severe bleeding that won't stop",
    "Poisoning or overdose",
    "Seizure",
    "Severe burn",
    "Stroke symptoms like facial drooping"]

  const ClinicalLow: seq<string> := [
    "Mild rhinitis with nasal discharge",
    "Slight pharyngitis with minimal discomfort",
    "Minor contusions",
    "Localized dermatitis"]

  const ClinicalMedium: seq<string> := [
    "Moderate pyrexia with myalgia",
    "Persistent emesis",
    "Otitis media with effusion",
    "Uncomplicated cystitis"]

  const ClinicalHigh: seq<string> := [
    "Acute dyspnea",
    "Severe cephalgia with photophobia",
    "Suspected appendicitis",
    "Open fracture requiring reduction"]

  const ClinicalCritical: seq<string> := [
    "Syncope with irregular cardiac rhythm",
    "Acute myocardial infarction",
    "Status epilepticus",
    "Cerebrovascular accident with hemiparesis"]

  /** `TRIAGE_TRAINING_DATA`: lay descriptions, in the source's order. */
  const TriageTrainingData: seq<Example> :=
    Labelled(LayLow, Low) + Labelled(LayMedium, Medium)
    + Labelled(LayHigh, High) + Labelled(LayCritical, Critical)

  /** `MEDICAL_TRAINING_DATA`: clinical descriptions, in the source's order. */
  const MedicalTrainingData: seq<Example> :=
    Labelled(ClinicalLow, Low) + Labelled(ClinicalMedium, Medium)
    + Labelled(ClinicalHigh, High) + Labelled(ClinicalCritical, Critical)

  /** `ALL_TRAINING_DATA`. */
  const AllTrainingData: seq<Example> := TriageTrainingData + MedicalTrainingData

  /** How many examples of `data` carry label `s`. */
  function CountLabel(data: seq<Example>, s: Severity): (n: nat)
    ensures n <= |data|
  {
    if data == [] then 0
    else CountLabel(data[..|data| - 1], s) + (if data[|data| - 1].severity == s then 1 else 0)
  }

  lemma {:induction false} CountLabelConcat(a: seq<Example>, b: seq<Example>, s: Severity)
    ensures CountLabel(a + b, s) == CountLabel(a, s) + CountLabel(b, s)
  {
    if b == [] {
      assert a + b == a;
    } else {
      assert (a + b)[..|a + b| - 1] == a + b[..|b| - 1];
      assert (a + b)[|a + b| - 1] == b[|b| - 1];
      CountLabelConcat(a, b[..|b| - 1], s);
    }
  }

  /** A block labelled `l` counts all its texts for `l` and none for others. */
  lemma {:induction false} CountLabelled(texts: seq<string>, l: Severity, s: Severity)
    ensures CountLabel(Labelled(texts, l), s) == if s == l then |texts| else 0
  {
    if texts != [] {
      var init := texts[..|texts| - 1];
      CountLabelled(init, l, s);
      assert Labelled(texts, l)[..|texts| - 1] == Labelled(init, l);
    }
  }

  /** Counts over four consecutive blocks, one per severity in order. */
  lemma CountFourBlocks(lo: seq<string>, me: seq<string>, hi: seq<string>, cr: seq<string>, s: Severity)
    ensures CountLabel(Labelled(lo, Low) + Labelled(me, Medium) + Labelled(hi, High) + Labelled(cr, Critical), s)
            == match s
               case Low => |lo|
               case Medium => |me|
               case High => |hi|
               case Critical => |cr|
  {
    CountLabelled(lo, Low, s);
    CountLabelled(me, Medium, s);
    CountLabelled(hi, High, s);
    CountLabelled(cr, Critical, s);
    CountLabelConcat(Labelled(lo, Low), Labelled(me, Medium), s);
    CountLabelConcat(Labelled(lo, Low) + Labelled(me, Medium), Labelled(hi, High), s);
    CountLabelConcat(Labelled(lo, Low) + Labelled(me, Medium) + Labelled(hi, High), Labelled(cr, Critical), s);
  }

  /** The corpus has 48 examples, twelve of each severity (every label is one
      of the four by its type). */
  lemma TrainingCorpusBalanced(s: Severity)
    ensures |AllTrainingData| == 48
    ensures CountLabel(AllTrainingData, s) == 12
  {
    CountFourBlocks(LayLow, LayMedium, LayHigh, LayCritical, s);
    CountFourBlocks(ClinicalLow, ClinicalMedium, ClinicalHigh, ClinicalCritical, s);
    CountLabelConcat(TriageTrainingData, MedicalTrainingData, s);
  }

  /** The texts handed to `fit`: each corpus text, normalised. What `fit`
      receives is already in normal form: normalising it again changes
      nothing, and it holds no upper-case letter and no punctuation. */
  function PreprocessedSymptoms(): (r: seq<string>)
    ensures |r| == |AllTrainingData|
    ensures forall i :: 0 <= i < |r| ==> r[i] == PreprocessText(AllTrainingData[i].text)
    ensures forall i :: 0 <= i < |r| ==> PreprocessText(r[i]) == r[i] && NoUpper(r[i])
    ensures forall i, k :: 0 <= i < |r| && 0 <= k < |r[i]| ==> Kept(r[i][k])
  {
    var r := seq(|AllTrainingData|, i requires 0 <= i < |AllTrainingData| => PreprocessText(AllTrainingData[i].text));
    assert forall i :: 0 <= i < |r| ==> PreprocessText(r[i]) == r[i] by {
      forall i | 0 <= i < |r| ensures PreprocessText(r[i]) == r[i] {
        PreprocessIdempotent(AllTrainingData[i].text);
      }
    }
    r
  }

  /** The labels handed to `fit`: label `i` is the name of example `i`'s
      severity, so the labels `fit` sees are balanced as the corpus is. */
  function TrainingSeverities(): (r: seq<string>)
    ensures |r| == |AllTrainingData|
    ensures forall i :: 0 <= i < |r| ==> r[i] == SeverityName(AllTrainingData[i].severity)
    ensures forall i :: 0 <= i < |r| ==> r[i] in SeverityNames
  {
    seq(|AllTrainingData|, i requires 0 <= i < |AllTrainingData| => SeverityName(AllTrainingData[i].severity))
  }

  /** How many of `labels` equal `name`. */
  function CountName(labels: seq<string>, name: string): (n: nat)
    ensures n <= |labels|
  {
    if labels == [] then 0
    else CountName(labels[..|labels| - 1], name) + (if labels[|labels| - 1] == name then 1 else 0)
  }

  /** Counting a label's name over the names of a sequence of examples counts
      that label. */
  lemma {:induction false} CountNameOfExamples(data: seq<Example>, labels: seq<string>, s: Severity)
    requires |labels| == |data|
    requires forall i :: 0 <= i < |data| ==> labels[i] == SeverityName(data[i].severity)
    ensures CountName(labels, SeverityName(s)) == CountLabel(data, s)
  {
    if data != [] {
      var n := |data| - 1;
      CountNameOfExamples(data[..n], labels[..n], s);
      assert SeverityName(data[n].severity) == SeverityName(s) <==> data[n].severity == s;
    }
  }

  /** The 48 labels handed to `fit` name each severity exactly twelve times. */
  lemma FitLabelsBalanced(s: Severity)
    ensures |TrainingSeverities()| == 48
    ensures CountName(TrainingSeverities(), SeverityName(s)) == 12
  {
    TrainingCorpusBalanced(s);
    CountNameOfExamples(AllTrainingData, TrainingSeverities(), s);
  }

  // ---------------------------------------------------------------------
  // Recommendation generator
  // ---------------------------------------------------------------------

  const LowAdvice: string := "Your symptoms suggest a non-urgent condition. Rest, hydrate, and monitor symptoms. If they persist for more than 2-3 days or worsen, schedule a regular appointment."
  const MediumAdvice: string := "Your symptoms may require medical attention. Schedule an appointment in the next 1-2 days. Monitor for worsening symptoms."
  const HighAdvice: string := "Your symptoms require prompt medical attention. Please schedule an urgent appointment or visit urgent care within 24 hours."
  const CriticalAdvice: string := "Your symptoms suggest a potentially life-threatening condition. Seek immediate emergency medical attention or call emergency services."
  const GenericAdvice: string := "Please consult with a healthcare professional for proper evaluation."
  const Disclaimer: string := "\n\nNote: This is an initial assessment with limited confidence. A healthcare professional should verify this assessment."
  const DefaultConfidenceThreshold: real := 0.6

  /** The paragraph the table holds for a severity. */
  function Advice(s: Severity): string {
    match s
    case Low => LowAdvice
    case Medium => MediumAdvice
    case High => HighAdvice
    case Critical => CriticalAdvice
  }

  /** `recommendations.get(severity, <generic text>)`. */
  function BaseRecommendation(severity: string): (r: string)
    ensures forall s: Severity :: severity == SeverityName(s) ==> r == Advice(s)
    ensures severity !in SeverityNames ==> r == GenericAdvice
  {
    var recommendations := map[
      "Low" := LowAdvice,
      "Medium" := MediumAdvice,
      "High" := HighAdvice,
      "Critical" := CriticalAdvice];
    if severity in recommendations then recommendations[severity] else GenericAdvice
  }

  // ---------------------------------------------------------------------
  // The fitted pipeline (TF-IDF vectoriser and Naive Bayes classifier)
  // ---------------------------------------------------------------------

  /** One call of `predict` and `predict_proba` on a normalised text: either
      one of them raised, or they gave a label and a probability row. */
  datatype Inference = Raised | Predicted(predicted: string, probabilities: seq<real>)

  /** A fitted pipeline, seen only through its inference function. */
  datatype Classifier = Classifier(infer: string -> Inference)

  /** What the fitted pipeline promises of any prediction: the label is one of
      the training labels, and there is one probability per class, each in
      [0, 1], summing to one. */
  ghost predicate SoundInference(i: Inference) {
    i.Predicted? ==>
      && i.predicted in SeverityNames
      && |i.probabilities| == NumClasses
      && (forall k :: 0 <= k < |i.probabilities| ==> 0.0 <= i.probabilities[k] <= 1.0)
      && Sum(i.probabilities) == 1.0
  }

  type Pipeline = c: Classifier | forall text :: SoundInference(c.infer(text))
    witness Classifier(_ => Raised)

  /** The outcome of `Pipeline.fit`: a fitted pipeline, or an exception. */
  datatype FitResult = FitRaised | Fitted(pipeline: Pipeline)

  function Sum(s: seq<real>): real {
    if s == [] then 0.0 else Sum(s[..|s| - 1]) + s[|s| - 1]
  }

  /** `np.max`: the largest entry of a non-empty row. */
  function Max(s: seq<real>): (m: real)
    requires |s| > 0
    ensures m in s
    ensures forall k :: 0 <= k < |s| ==> s[k] <= m
  {
    if |s| == 1 then s[0]
    else
      var rest := Max(s[..|s| - 1]);
      if s[|s| - 1] > rest then s[|s| - 1] else rest
  }

  /** A row whose entries are all at most `m` sums to at most `|s|` times `m`. */
  lemma {:induction false} SumBoundedBy(s: seq<real>, m: real)
    requires forall k :: 0 <= k < |s| ==> s[k] <= m
    ensures Sum(s) <= |s| as real * m
  {
    if s != [] {
      var init := s[..|s| - 1];
      SumBoundedBy(init, m);
      assert |s| as real * m == |init| as real * m + m;
    }
  }

  /** The largest of four probabilities summing to one is at least 1/4. */
  lemma MaxProbabilityAtLeastQuarter(p: seq<real>)
    requires |p| == NumClasses && Sum(p) == 1.0
    ensures Max(p) >= 0.25
  {
    SumBoundedBy(p, Max(p));
  }

  // ---------------------------------------------------------------------
  // Orchestrator
  // ---------------------------------------------------------------------

  /** The dictionary `assess_symptoms` returns. */
  datatype AssessmentResult = AssessmentResult(severity: string, recommendation: string, confidence: real)

  const ModelMissingMessage: string := "Error in AI model. Please consult with a healthcare professional directly."
  const AssessmentErrorMessage: string := "An error occurred during assessment. Please consult with a healthcare professional."

  /** The result when no model was fitted. */
  const ModelMissingResult: AssessmentResult := AssessmentResult(UnknownSeverity, ModelMissingMessage, 0.0)

  /** The result when inference raised. */
  const AssessmentErrorResult: AssessmentResult := AssessmentResult(UnknownSeverity, AssessmentErrorMessage, 0.0)

  class TriageAI {
    /** `ML_AVAILABLE`: whether numpy and scikit-learn could be imported. */
    const mlAvailable: bool
    /** `self.model`: the fitted pipeline, or `None`. */
    var model: Option<Pipeline>
    var confidenceThreshold: real

    /** A model exists only when the libraries are present, and the threshold
        keeps its initial value. */
    ghost predicate Valid()
      reads this
    {
      (model.Some? ==> mlAvailable) && confidenceThreshold == DefaultConfidenceThreshold
    }

    /** `TriageAI()`: no model, threshold 0.6, and an immediate training run
        when the libraries are present. `fit` is the scikit-learn pipeline's
        `fit` on the normalised corpus. */
    constructor (mlAvailable: bool, fit: (seq<string>, seq<string>) -> FitResult)
      ensures Valid()
      ensures this.mlAvailable == mlAvailable
      ensures confidenceThreshold == DefaultConfidenceThreshold
      ensures !mlAvailable ==> model == None
      ensures mlAvailable ==> model == Trained(fit)
    {
      this.mlAvailable := mlAvailable;
      model := None;
      confidenceThreshold := DefaultConfidenceThreshold;
      new;
      if mlAvailable {
        InitializeModel(fit);
      }
    }

    /** The model a training run leaves behind: the fitted pipeline, or
        `None` when fitting raised. */
    static function Trained(fit: (seq<string>, seq<string>) -> FitResult): Option<Pipeline> {
      match fit(PreprocessedSymptoms(), TrainingSeverities())
      case FitRaised => None
      case Fitted(p) => Some(p)
    }

    /** `initialize_model`: fits the pipeline on the normalised corpus; the
        model stays `None` when the libraries are missing or fitting raises. */
    method InitializeModel(fit: (seq<string>, seq<string>) -> FitResult)
      requires Valid()
      modifies this
      ensures Valid()
      ensures confidenceThreshold == old(confidenceThreshold)
      ensures !mlAvailable ==> model == None
      ensures mlAvailable && fit(PreprocessedSymptoms(), TrainingSeverities()).FitRaised? ==> model == None
      ensures mlAvailable && fit(PreprocessedSymptoms(), TrainingSeverities()).Fitted? ==>
                model == Some(fit(PreprocessedSymptoms(), TrainingSeverities()).pipeline)
      ensures model == (if mlAvailable then Trained(fit) else None)
    {
      if !mlAvailable {
        model := None;
        return;
      }
      var symptoms := seq(|AllTrainingData|, i requires 0 <= i < |AllTrainingData| => AllTrainingData[i].text);
      var severities := seq(|AllTrainingData|, i requires 0 <= i < |AllTrainingData| => SeverityName(AllTrainingData[i].severity));
      var preprocessed := seq(|symptoms|, i requires 0 <= i < |symptoms| => PreprocessText(symptoms[i]));
      assert preprocessed == PreprocessedSymptoms();
      assert severities == TrainingSeverities();
      match fit(preprocessed, severities)
      case FitRaised =>
        model := None;
      case Fitted(p) =>
        model := Some(p);
    }

    /** `generate_recommendation`: the table paragraph for the severity, with
        the disclaimer appended exactly when confidence is below the
        threshold. The symptoms text the source passes is unused. */
    function GenerateRecommendation(severity: string, confidence: real): (r: string)
      reads this
      ensures StartsWith(r, BaseRecommendation(severity))
      ensures confidence < confidenceThreshold <==> r == BaseRecommendation(severity) + Disclaimer
      ensures !(confidence < confidenceThreshold) <==> r == BaseRecommendation(severity)
    {
      var baseRecommendation := BaseRecommendation(severity);
      if confidence < confidenceThreshold then baseRecommendation + Disclaimer
      else baseRecommendation
    }

    /** `assess_symptoms`: total; falls back to an `Unknown` result when there
        is no model or inference raises; otherwise reports the predicted label,
        the largest class probability as confidence, and its recommendation. */
    function AssessSymptoms(symptomsText: string): (r: AssessmentResult)
      reads this
      ensures model.None? ==> r == ModelMissingResult
      ensures model.Some? && model.value.infer(PreprocessText(symptomsText)).Raised? ==>
                r == AssessmentErrorResult
      ensures model.Some? && model.value.infer(PreprocessText(symptomsText)).Predicted? ==>
                var p := model.value.infer(PreprocessText(symptomsText));
                && r.severity == p.predicted
                && r.recommendation == GenerateRecommendation(p.predicted, r.confidence)
                && 0.0 <= r.confidence <= 1.0
                && r.confidence in p.probabilities
                && (mlAvailable ==> forall k :: 0 <= k < |p.probabilities| ==> p.probabilities[k] <= r.confidence)
    {
      match model
      case None => ModelMissingResult
      case Some(pipeline) =>
        match pipeline.infer(PreprocessText(symptomsText))
        case Raised => AssessmentErrorResult
        case Predicted(severity, probabilities) =>
          // the fitted pipeline always gives four probabilities, so neither
          // `np.max` nor the first-entry fallback meets an empty row
          var confidence := if mlAvailable then Max(probabilities) else probabilities[0];
          AssessmentResult(severity, GenerateRecommendation(severity, confidence), confidence)
    }
  }

  /** `assess_patient_symptoms` on the module's `TriageAI` instance: every
      result names one of the four severities or `Unknown`, and its
      confidence lies in [0, 1]; a known severity is the name of a
      `Severity`. */
  function AssessPatientSymptoms(triageAi: TriageAI, symptomsText: string): (r: AssessmentResult)
    reads triageAi
    ensures r.severity in SeverityNames || r.severity == UnknownSeverity
    ensures 0.0 <= r.confidence <= 1.0
    ensures r.severity == UnknownSeverity ==> r.confidence == 0.0
    ensures r.severity != UnknownSeverity ==> exists s: Severity :: SeverityName(s) == r.severity
  {
    var r := triageAi.AssessSymptoms(symptomsText);
    SeverityNamesAreTheLabels(r.severity);
    r
  }

  /** On a successful prediction by a valid orchestrator the confidence is the
      largest class probability, hence at least 1/4, and the disclaimer is
      attached exactly when it is below 0.6. */
  lemma SuccessfulAssessment(triageAi: TriageAI, symptomsText: string)
    requires triageAi.Valid()
    requires triageAi.model.Some?
    requires triageAi.model.value.infer(PreprocessText(symptomsText)).Predicted?
    ensures var p := triageAi.model.value.infer(PreprocessText(symptomsText));
            var r := triageAi.AssessSymptoms(symptomsText);
            && r.severity == p.predicted
            && r.confidence == Max(p.probabilities)
            && r.confidence >= 0.25
            && (r.recommendation == BaseRecommendation(p.predicted) + Disclaimer <==> r.confidence < 0.6)
            && (r.recommendation == BaseRecommendation(p.predicted) <==> r.confidence >= 0.6)
  {
    var p := triageAi.model.value.infer(PreprocessText(symptomsText));
    assert SoundInference(p);
    MaxProbabilityAtLeastQuarter(p.probabilities);
  }
}
