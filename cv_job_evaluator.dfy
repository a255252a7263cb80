/**
 * Post-processing of the CV-to-job evaluation (cv_job_evaluator.py): picking
 * the profile matches worth evaluating, formatting them for the language
 * model, reading the model's free-text reply field by field, the fallback
 * evaluations used when the reply cannot be read, the summary, and the final
 * score/likelihood validation.
 *
 * The language model itself and the regular expressions are not modelled: an
 * `Extractor` stands for "the first match of the k-th pattern of a field in a
 * section", and the job sections found in a reply are a parameter.
 */
module CvEvaluator {
  import opened Wrappers
  import opened Text
  import Seqs

  /** A job dictionary as the evaluator reads it; `None` where the key is absent. */
  datatype JobInfo = JobInfo(
    title: Option<string>,
    company: Option<string>,
    location: Option<string>,
    industry: Option<string>,
    jobType: Option<string>,
    description: Option<string>,
    relevance: Option<int>,
    matchType: Option<string>)

  /** The fields read from a reply, in the order they are looked for. */
  datatype Field =
    | MatchScore | OverallFit | SeniorityMatch | ExperienceGap | RealityCheck
    | Strengths | CriticalGaps | MinorGaps | Recommendations | Likelihood

  /** The text fields, in the order they are looked for after the score. */
  const TextFields: seq<Field> :=
    [OverallFit, SeniorityMatch, ExperienceGap, RealityCheck, Strengths,
     CriticalGaps, MinorGaps, Recommendations, Likelihood]

  /** How many alternative patterns each field has. */
  function PatternCount(f: Field): nat {
    match f
    case MatchScore => 11
    case CriticalGaps => 6
    case _ => 5
  }

  /**
   * `extract(section, f, k)` is the first match of the k-th pattern for field
   * `f` in `section` (case-insensitive), or `None` when it finds nothing.
   */
  type Extractor = (string, Field, nat) -> Option<string>

  /** One evaluation dictionary; `fieldsExtracted` is present exactly when `parsing_warning` is. */
  datatype Evaluation = Evaluation(
    jobNumber: int,
    jobTitle: string,
    company: string,
    location: string,
    companyIndustry: string,
    matchScore: int,
    profileMatchScore: int,
    matchType: string,
    texts: map<Field, Message>,
    fieldsExtracted: Option<nat>,
    parsingFallback: bool,
    fallbackReason: Option<string>,
    validationNote: Option<string>)

  /**
   * What a text field of an evaluation holds. Text read from the reply and
   * the one-word labels ("Fair", "Medium", ...) are kept as they are; the
   * fixed explanatory sentences are kept by name, and `Wording` gives them.
   */
  datatype Message = Plain(text: string) | Stock(stock: StockMessage)

  /** The fixed sentences of the parser's defaults, of the single-job fallback and of the fallback report. */
  datatype StockMessage =
    | ParseDefault(field: Field, relevance: int)
    | ParseFallback(field: Field, score: int)
    | AnalysisFallback(field: Field, relevance: int, reason: string)

  /** The text of a fixed sentence; pairs that no builder produces read as "". */
  function Wording(m: StockMessage): string {
    match m
    case ParseDefault(f, relevance) =>
      (match f
       case OverallFit => "Good potential match based on profile scoring"
       case SeniorityMatch => "Experience level compatibility needs manual review"
       case ExperienceGap => "Detailed experience analysis not available in AI response"
       case RealityCheck =>
         "Based on profile matching (" + IntToString(relevance) +
         "% compatibility), this position shows potential. Manual review recommended for detailed assessment."
       case Strengths => "Your profile shows alignment with key job requirements based on initial matching"
       case CriticalGaps => "Specific skill gaps require detailed job posting review - AI analysis was not accessible"
       case MinorGaps => "Consider reviewing job requirements for additional qualifications"
       case Recommendations => "Review job posting carefully and tailor application to highlight relevant experience"
       case Likelihood => "Medium - depends on detailed skill alignment and application quality"
       case MatchScore => "Analysis not available in AI response")
    case ParseFallback(f, score) =>
      (match f
       case SeniorityMatch => "Parsing failed - using fallback analysis"
       case ExperienceGap => "Detailed analysis unavailable due to parsing issues"
       case RealityCheck =>
         "Basic compatibility assessment: " + IntToString(score) +
         "% match based on profile scoring. Full AI analysis was not accessible."
       case Strengths => "Profile matching suggests this position aligns with your background"
       case CriticalGaps => "Unable to identify specific gaps - manual review recommended"
       case MinorGaps => "Consider reviewing job requirements carefully"
       case Recommendations => "Review job posting manually and consider applying if requirements align with your skills"
       case _ => "")
    case AnalysisFallback(f, relevance, reason) =>
      (match f
       case SeniorityMatch => "AI analysis unavailable - review job requirements manually"
       case ExperienceGap => "Detailed gap analysis unavailable due to technical issues"
       case RealityCheck =>
         "Based on profile matching (" + IntToString(relevance) +
         "% compatibility), this position shows potential. Full AI analysis was not available due to: " + reason
       case Strengths => "Profile matching suggests alignment with key requirements"
       case CriticalGaps => "Unable to identify specific gaps - manual review recommended"
       case MinorGaps => "Consider reviewing job requirements for additional qualifications"
       case Recommendations => "Review job posting carefully and consider applying if requirements align with your skills"
       case _ => "")
  }

  /** The string the evaluation dictionary holds for a field. */
  function Render(m: Message): string {
    match m
    case Plain(t) => t
    case Stock(k) => Wording(k)
  }

  /** `max(lo, min(hi, x))` */
  function Clamp(lo: int, hi: int, x: int): (r: int)
    requires lo <= hi
    ensures lo <= r <= hi
    ensures lo <= x <= hi ==> r == x
    ensures x < lo ==> r == lo
    ensures hi < x ==> r == hi
  {
    if x < lo then lo else if hi < x then hi else x
  }

  // ---------------------------------------------------------------------
  // Reading one section of the reply
  // ---------------------------------------------------------------------

  /** A pattern's match is a usable score when its first number is at most 100. */
  function ScoreCandidate(m: Option<string>): Option<int> {
    if m.None? then None
    else
      match FirstNumber(Strip(m.value))
      case None => None
      case Some(n) => if n <= 100 then Some(n) else None
  }

  /** A pattern's match is a usable text when, stripped, it is longer than 2 characters; it is cut to 300. */
  function TextCandidate(m: Option<string>): Option<string> {
    if m.None? then None
    else
      var v := Strip(m.value);
      if |v| > 2 then Some(Seqs.Take(v, 300)) else None
  }

  /** The score given by the first usable pattern from the k-th on. */
  function ScoreFrom(section: string, extract: Extractor, k: nat): Option<int>
    decreases PatternCount(MatchScore) - k
  {
    if k >= PatternCount(MatchScore) then None
    else
      match ScoreCandidate(extract(section, MatchScore, k))
      case Some(s) => Some(s)
      case None => ScoreFrom(section, extract, k + 1)
  }

  /** The text given by the first usable pattern for `f` from the k-th on. */
  function TextFrom(section: string, f: Field, extract: Extractor, k: nat): Option<string>
    decreases PatternCount(f) - k
  {
    if k >= PatternCount(f) then None
    else
      match TextCandidate(extract(section, f, k))
      case Some(v) => Some(v)
      case None => TextFrom(section, f, extract, k + 1)
  }

  function ParsedScore(section: string, extract: Extractor): Option<int> {
    ScoreFrom(section, extract, 0)
  }

  function ParsedText(section: string, f: Field, extract: Extractor): Option<string> {
    TextFrom(section, f, extract, 0)
  }

  /** The score found is the one of the first pattern that yields a number in [0, 100]. */
  lemma {:induction false} ScoreFromCorrect(section: string, extract: Extractor, k: nat)
    ensures ScoreFrom(section, extract, k).Some? ==>
      0 <= ScoreFrom(section, extract, k).value <= 100 &&
      exists j :: k <= j < PatternCount(MatchScore) &&
        ScoreCandidate(extract(section, MatchScore, j)) == ScoreFrom(section, extract, k) &&
        forall i :: k <= i < j ==> ScoreCandidate(extract(section, MatchScore, i)).None?
    ensures ScoreFrom(section, extract, k).None? ==>
      forall i :: k <= i < PatternCount(MatchScore) ==> ScoreCandidate(extract(section, MatchScore, i)).None?
    decreases PatternCount(MatchScore) - k
  {
    if k < PatternCount(MatchScore) && ScoreCandidate(extract(section, MatchScore, k)).None? {
      ScoreFromCorrect(section, extract, k + 1);
    }
  }

  /** The text found is the first usable pattern's match, stripped, longer than 2 and at most 300 characters. */
  lemma {:induction false} TextFromCorrect(section: string, f: Field, extract: Extractor, k: nat)
    ensures TextFrom(section, f, extract, k).Some? ==>
      2 < |TextFrom(section, f, extract, k).value| <= 300 &&
      exists j :: k <= j < PatternCount(f) &&
        TextCandidate(extract(section, f, j)) == TextFrom(section, f, extract, k) &&
        forall i :: k <= i < j ==> TextCandidate(extract(section, f, i)).None?
    ensures TextFrom(section, f, extract, k).None? ==>
      forall i :: k <= i < PatternCount(f) ==> TextCandidate(extract(section, f, i)).None?
    decreases PatternCount(f) - k
  {
    if k < PatternCount(f) {
      var c := TextCandidate(extract(section, f, k));
      if c.None? {
        TextFromCorrect(section, f, extract, k + 1);
      }
    }
  }

  /** Reads the score: tries each pattern in turn and stops at the first usable one. */
  method ExtractMatchScore(section: string, extract: Extractor) returns (score: Option<int>)
    ensures score == ParsedScore(section, extract)
  {
    score := None;
    var k := 0;
    while k < PatternCount(MatchScore)
      invariant 0 <= k <= PatternCount(MatchScore)
      invariant ScoreFrom(section, extract, k) == ParsedScore(section, extract)
      decreases PatternCount(MatchScore) - k
    {
      var m := extract(section, MatchScore, k);
      if m.Some? {
        var numbers := FirstNumber(Strip(m.value));
        if numbers.Some? && numbers.value <= 100 {
          score := Some(numbers.value);
          return;
        }
      }
      k := k + 1;
    }
  }

  /** Reads one text field: tries each pattern in turn and stops at the first usable one. */
  method ExtractText(section: string, f: Field, extract: Extractor) returns (value: Option<string>)
    ensures value == ParsedText(section, f, extract)
  {
    value := None;
    var k := 0;
    while k < PatternCount(f)
      invariant 0 <= k <= PatternCount(f)
      invariant TextFrom(section, f, extract, k) == ParsedText(section, f, extract)
      decreases PatternCount(f) - k
    {
      var m := extract(section, f, k);
      if m.Some? {
        var v := Strip(m.value);
        if |v| > 2 {
          value := Some(Seqs.Take(v, 300));
          return;
        }
      }
      k := k + 1;
    }
  }

  /** The score used when no pattern yields one: the profile relevance (40 when absent) plus 5, kept within [25, 85]. */
  function DefaultScore(job: JobInfo): int {
    Clamp(25, 85, job.relevance.GetOr(40) + 5)
  }

  /** The value a text field ends with: what was read, or its default message. */
  function FieldText(section: string, f: Field, job: JobInfo, extract: Extractor): Message {
    match ParsedText(section, f, extract)
    case Some(v) => Plain(v)
    case None => Stock(ParseDefault(f, job.relevance.GetOr(40)))
  }

  /** The text fields of `fields` with their values, filled in one after the other. */
  function TextsOf(section: string, job: JobInfo, fields: seq<Field>, extract: Extractor): map<Field, Message>
    decreases |fields|
  {
    if fields == [] then map[]
    else
      var f := fields[|fields| - 1];
      TextsOf(section, job, fields[..|fields| - 1], extract)[f := FieldText(section, f, job, extract)]
  }

  /** How many of `fields` were read from the section. */
  function FoundIn(section: string, fields: seq<Field>, extract: Extractor): nat
    decreases |fields|
  {
    if fields == [] then 0
    else
      FoundIn(section, fields[..|fields| - 1], extract) +
      (if ParsedText(section, fields[|fields| - 1], extract).Some? then 1 else 0)
  }

  /** How many of the ten fields were read from the section. */
  function FieldsFound(section: string, extract: Extractor): nat {
    (if ParsedScore(section, extract).Some? then 1 else 0) + FoundIn(section, TextFields, extract)
  }

  /** The evaluation `parse_single_job_evaluation` builds for the `index`-th job from its section. */
  function SingleEvaluation(section: string, job: JobInfo, index: int, extract: Extractor): Evaluation {
    var found := FieldsFound(section, extract);
    Evaluation(
      index + 1,
      job.title.GetOr(""),
      job.company.GetOr(""),
      job.location.GetOr(""),
      job.industry.GetOr(""),
      ParsedScore(section, extract).GetOr(DefaultScore(job)),
      job.relevance.GetOr(0),
      job.matchType.GetOr("unknown"),
      TextsOf(section, job, TextFields, extract),
      if found < 3 then Some(found) else None,
      false,
      None,
      None)
  }

  lemma {:induction false} TextsOfCorrect(section: string, job: JobInfo, fields: seq<Field>, extract: Extractor)
    ensures forall f :: f in TextsOf(section, job, fields, extract) <==> f in fields
    ensures forall f :: f in fields ==> TextsOf(section, job, fields, extract)[f] == FieldText(section, f, job, extract)
    decreases |fields|
  {
    if fields != [] {
      var init := fields[..|fields| - 1];
      TextsOfCorrect(section, job, init, extract);
      assert fields == init + [fields[|fields| - 1]];
    }
  }

  lemma {:induction false} FoundInBound(section: string, fields: seq<Field>, extract: Extractor)
    ensures FoundIn(section, fields, extract) <= |fields|
    decreases |fields|
  {
    if fields != [] {
      FoundInBound(section, fields[..|fields| - 1], extract);
    }
  }

  /**
   * After parsing one section every field is set; a score that was read is
   * in [0, 100] and otherwise the adjusted profile score is used; a text that
   * was read is longer than 2 and at most 300 characters and otherwise the
   * default message is used; the parsing warning is present iff fewer than 3
   * fields were read.
   */
  lemma SingleEvaluationCorrect(section: string, job: JobInfo, index: int, extract: Extractor)
    ensures var r := SingleEvaluation(section, job, index, extract);
      && (forall f :: f in r.texts <==> f in TextFields)
      && 0 <= r.matchScore <= 100
      && (ParsedScore(section, extract).Some? ==> r.matchScore == ParsedScore(section, extract).value)
      && (ParsedScore(section, extract).None? ==>
            25 <= r.matchScore <= 85 && r.matchScore == Clamp(25, 85, job.relevance.GetOr(40) + 5))
      && (forall f :: f in TextFields && ParsedText(section, f, extract).Some? ==>
            r.texts[f] == Plain(ParsedText(section, f, extract).value) && 2 < |Render(r.texts[f])| <= 300)
      && (forall f :: f in TextFields && ParsedText(section, f, extract).None? ==>
            r.texts[f] == Stock(ParseDefault(f, job.relevance.GetOr(40))))
      && (r.fieldsExtracted.Some? <==> FieldsFound(section, extract) < 3)
      && (r.fieldsExtracted.Some? ==> r.fieldsExtracted.value == FieldsFound(section, extract))
      && FieldsFound(section, extract) <= 10
  {
    TextsOfCorrect(section, job, TextFields, extract);
    ScoreFromCorrect(section, extract, 0);
    FoundInBound(section, TextFields, extract);
    forall f | f in TextFields && ParsedText(section, f, extract).Some?
      ensures 2 < |ParsedText(section, f, extract).value| <= 300
    {
      TextFromCorrect(section, f, extract, 0);
    }
  }

  /** The text-field loop of `parse_single_job_evaluation`: each field read, or its default, and how many were read. */
  method ReadTexts(section: string, job: JobInfo, extract: Extractor) returns (texts: map<Field, Message>, found: nat)
    ensures texts == TextsOf(section, job, TextFields, extract)
    ensures found == FoundIn(section, TextFields, extract)
  {
    texts, found := map[], 0;
    var i := 0;
    while i < |TextFields|
      invariant 0 <= i <= |TextFields|
      invariant texts == TextsOf(section, job, TextFields[..i], extract)
      invariant found == FoundIn(section, TextFields[..i], extract)
    {
      var f := TextFields[i];
      var value := ExtractText(section, f, extract);
      if value.Some? {
        found := found + 1;
        texts := texts[f := Plain(value.value)];
      } else {
        texts := texts[f := Stock(ParseDefault(f, job.relevance.GetOr(40)))];
      }
      assert TextFields[..i + 1][..i] == TextFields[..i];
      i := i + 1;
    }
    assert TextFields[..i] == TextFields;
  }

  /** `parse_single_job_evaluation`: reads the score, then each text field in order, counting what was found. */
  method ParseSingleJobEvaluation(section: string, job: JobInfo, index: int, extract: Extractor)
    returns (eval: Evaluation)
    ensures eval == SingleEvaluation(section, job, index, extract)
  {
    var fieldsFound := 0;
    var score := ExtractMatchScore(section, extract);
    if score.Some? {
      fieldsFound := fieldsFound + 1;
    } else {
      score := Some(DefaultScore(job));
    }
    var texts, textsFound := ReadTexts(section, job, extract);
    fieldsFound := fieldsFound + textsFound;
    eval := Evaluation(
      index + 1, job.title.GetOr(""), job.company.GetOr(""), job.location.GetOr(""),
      job.industry.GetOr(""), score.value, job.relevance.GetOr(0), job.matchType.GetOr("unknown"),
      texts, if fieldsFound < 3 then Some(fieldsFound) else None, false, None, None);
  }

  // ---------------------------------------------------------------------
  // Fallback evaluations
  // ---------------------------------------------------------------------

  /** `create_fallback_single_evaluation`: the evaluation used for a section whose score is 0. */
  function FallbackSingle(job: JobInfo, index: int): Evaluation {
    var adjusted := Clamp(25, 75, job.relevance.GetOr(40) + 5);
    Evaluation(
      index + 1,
      job.title.GetOr("Unknown"),
      job.company.GetOr("Unknown"),
      job.location.GetOr("Unknown"),
      job.industry.GetOr("Unknown"),
      adjusted,
      job.relevance.GetOr(0),
      job.matchType.GetOr("unknown"),
      map[
        OverallFit := Plain(if adjusted >= 50 then "Fair" else "Needs Review"),
        SeniorityMatch := Stock(ParseFallback(SeniorityMatch, adjusted)),
        ExperienceGap := Stock(ParseFallback(ExperienceGap, adjusted)),
        RealityCheck := Stock(ParseFallback(RealityCheck, adjusted)),
        Strengths := Stock(ParseFallback(Strengths, adjusted)),
        CriticalGaps := Stock(ParseFallback(CriticalGaps, adjusted)),
        MinorGaps := Stock(ParseFallback(MinorGaps, adjusted)),
        Recommendations := Stock(ParseFallback(Recommendations, adjusted)),
        Likelihood := Plain(if adjusted >= 50 then "Medium" else "Low")],
      None,
      true,
      None,
      None)
  }

  /**
   * The single-job fallback scores in [25, 75]; its fit is "Fair" iff the
   * score is at least 50 (else "Needs Review") and its likelihood "Medium"
   * iff the score is at least 50 (else "Low"); it is flagged as a fallback.
   */
  lemma FallbackSingleCorrect(job: JobInfo, index: int)
    ensures var r := FallbackSingle(job, index);
      && r.jobNumber == index + 1
      && 25 <= r.matchScore <= 75
      && (forall f :: f in r.texts <==> f in TextFields)
      && (r.texts[OverallFit] == Plain("Fair") <==> r.matchScore >= 50)
      && (r.texts[OverallFit] == Plain("Needs Review") <==> r.matchScore < 50)
      && (r.texts[Likelihood] == Plain("Medium") <==> r.matchScore >= 50)
      && (r.texts[Likelihood] == Plain("Low") <==> r.matchScore < 50)
      && r.parsingFallback
      && r.fieldsExtracted.None?
  {
  }

  /** The evaluation `create_fallback_evaluation` builds for the `index`-th job when the whole analysis failed. */
  function FallbackJobEvaluation(job: JobInfo, index: int, errorMsg: string): Evaluation {
    var relevance := job.relevance.GetOr(40);
    var adjusted := Clamp(25, 85, relevance + 5);
    Evaluation(
      index + 1,
      job.title.GetOr("Unknown"),
      job.company.GetOr("Unknown"),
      job.location.GetOr("Unknown"),
      job.industry.GetOr("Unknown"),
      adjusted,
      job.relevance.GetOr(0),
      job.matchType.GetOr("unknown"),
      map[
        OverallFit := Plain(if adjusted >= 60 then "Good" else if adjusted >= 40 then "Fair" else "Needs Review"),
        SeniorityMatch := Stock(AnalysisFallback(SeniorityMatch, relevance, errorMsg)),
        ExperienceGap := Stock(AnalysisFallback(ExperienceGap, relevance, errorMsg)),
        RealityCheck := Stock(AnalysisFallback(RealityCheck, relevance, errorMsg)),
        Strengths := Stock(AnalysisFallback(Strengths, relevance, errorMsg)),
        CriticalGaps := Stock(AnalysisFallback(CriticalGaps, relevance, errorMsg)),
        MinorGaps := Stock(AnalysisFallback(MinorGaps, relevance, errorMsg)),
        Recommendations := Stock(AnalysisFallback(Recommendations, relevance, errorMsg)),
        Likelihood := Plain(if adjusted >= 50 then "Medium" else "Low")],
      None,
      false,
      Some(errorMsg),
      None)
  }

  // ---------------------------------------------------------------------
  // Summary
  // ---------------------------------------------------------------------

  datatype Band = High | Medium | Low

  /** high is 70 and above, medium 40 to 69, low below 40. */
  function BandOf(score: int): Band {
    if score >= 70 then High else if 40 <= score then Medium else Low
  }

  function Score(e: Evaluation): int {
    e.matchScore
  }

  function CountBand(evals: seq<Evaluation>, b: Band): nat
    decreases |evals|
  {
    if evals == [] then 0
    else CountBand(evals[..|evals| - 1], b) + (if BandOf(Score(evals[|evals| - 1])) == b then 1 else 0)
  }

  function SumScores(evals: seq<Evaluation>): int
    decreases |evals|
  {
    if evals == [] then 0 else SumScores(evals[..|evals| - 1]) + Score(evals[|evals| - 1])
  }

  /**
   * The summary of a list of evaluations. The average is `scoreSum /
   * scoreCount` (0 when there are none); it is kept as the two integers.
   */
  datatype Summary = Summary(
    scoreSum: int,
    scoreCount: nat,
    high: nat,
    medium: nat,
    low: nat,
    bestMatches: seq<Evaluation>)

  function SummaryOf(evals: seq<Evaluation>): Summary {
    Summary(
      SumScores(evals),
      |evals|,
      CountBand(evals, High),
      CountBand(evals, Medium),
      CountBand(evals, Low),
      Seqs.Take(Seqs.SortDesc(evals, Score), 3))
  }

  lemma {:induction false} BandCountsSum(evals: seq<Evaluation>)
    ensures CountBand(evals, High) + CountBand(evals, Medium) + CountBand(evals, Low) == |evals|
    decreases |evals|
  {
    if evals != [] {
      BandCountsSum(evals[..|evals| - 1]);
    }
  }

  /**
   * The three band counts add up to the number of scores, and the best
   * matches are at most three evaluations, in descending score order, taken
   * from the list, with no evaluation left out that scores above the last
   * of them.
   */
  lemma SummaryCorrect(evals: seq<Evaluation>)
    ensures var s := SummaryOf(evals);
      && s.high + s.medium + s.low == s.scoreCount == |evals|
      && |s.bestMatches| == Seqs.Min(3, |evals|)
      && Seqs.SortedDesc(s.bestMatches, Score)
      && (forall e :: e in s.bestMatches ==> e in evals)
      && (forall e :: (e in evals && s.bestMatches != [] &&
            Score(e) > Score(s.bestMatches[|s.bestMatches| - 1])) ==> e in s.bestMatches)
  {
    BandCountsSum(evals);
    var sorted := Seqs.SortDesc(evals, Score);
    Seqs.SortDescCorrect(evals, Score);
    Seqs.TakeSorted(sorted, 3, Score);
    var best := Seqs.Take(sorted, 3);
    forall e | e in best ensures e in evals {
      assert e in multiset(sorted);
    }
    forall e | e in evals && best != [] && Score(e) > Score(best[|best| - 1])
      ensures e in best
    {
      assert e in multiset(sorted);
      var j :| 0 <= j < |sorted| && sorted[j] == e;
      if j >= |best| {
        assert Score(sorted[j]) <= Score(sorted[|best| - 1]);
      }
    }
  }

  // ---------------------------------------------------------------------
  // Parsing the whole reply
  // ---------------------------------------------------------------------

  /** The sections parsed: the ones found, or the whole reply once per job when none was found. */
  function SectionsUsed(response: string, sections: seq<string>, jobs: seq<JobInfo>): seq<string> {
    if sections == [] && jobs != [] then Copies(response, |jobs|) else sections
  }

  /** `[s] * n` */
  function Copies(s: string, n: nat): (r: seq<string>)
    ensures |r| == n
    ensures forall i :: 0 <= i < n ==> r[i] == s
  {
    if n == 0 then [] else Copies(s, n - 1) + [s]
  }

  /** A section is kept when its score is above 0; otherwise the single-job fallback replaces it. */
  function EvaluationFor(section: string, job: JobInfo, index: int, extract: Extractor): Evaluation {
    var e := SingleEvaluation(section, job, index, extract);
    if e.matchScore > 0 then e else FallbackSingle(job, index)
  }

  /** The evaluations of the first `n` sections. */
  function EvaluationsUpTo(sections: seq<string>, jobs: seq<JobInfo>, extract: Extractor, n: nat): (r: seq<Evaluation>)
    requires n <= |sections| && n <= |jobs|
    ensures |r| == n
  {
    seq(n, i requires 0 <= i < n => EvaluationFor(sections[i], jobs[i], i, extract))
  }

  datatype EvaluationResults = EvaluationResults(evaluations: seq<Evaluation>, summary: Summary)

  /** What `parse_simplified_evaluation_response` returns for a reply whose detected sections are `sections`. */
  function SimplifiedResults(response: string, sections: seq<string>, jobs: seq<JobInfo>, extract: Extractor): EvaluationResults {
    var used := SectionsUsed(response, sections, jobs);
    var evals := EvaluationsUpTo(used, jobs, extract, Seqs.Min(|used|, |jobs|));
    EvaluationResults(evals, SummaryOf(evals))
  }

  /** The evaluation kept for one section is for its job and has a positive score; it is the fallback exactly when the score read is 0. */
  lemma EvaluationForCorrect(section: string, job: JobInfo, index: int, extract: Extractor)
    ensures var r := EvaluationFor(section, job, index, extract);
      var parsed := SingleEvaluation(section, job, index, extract);
      && r.jobNumber == index + 1
      && 0 < r.matchScore <= 100
      && (parsed.matchScore == 0 ==> r == FallbackSingle(job, index))
      && (parsed.matchScore != 0 ==> r == parsed)
  {
    SingleEvaluationCorrect(section, job, index, extract);
    FallbackSingleCorrect(job, index);
  }

  /**
   * There is one evaluation per section, never more than there are jobs; when
   * no section was found there is exactly one per job. The i-th evaluation is
   * for the i-th job: the one read from its section, or the single-job
   * fallback exactly when the score read is 0; every score is positive.
   */
  lemma SimplifiedResultsCorrect(response: string, sections: seq<string>, jobs: seq<JobInfo>, extract: Extractor)
    ensures var r := SimplifiedResults(response, sections, jobs, extract);
      var used := SectionsUsed(response, sections, jobs);
      && |r.evaluations| <= |jobs|
      && |r.evaluations| == Seqs.Min(|used|, |jobs|)
      && (sections == [] ==> |r.evaluations| == |jobs|)
      && (forall i :: 0 <= i < |r.evaluations| ==> r.evaluations[i] == EvaluationFor(used[i], jobs[i], i, extract))
      && r.summary == SummaryOf(r.evaluations)
  {
  }

  /** `parse_simplified_evaluation_response` once the job sections of the reply have been detected. */
  method ParseSimplifiedEvaluationResponse(response: string, sections: seq<string>, jobs: seq<JobInfo>, extract: Extractor)
    returns (results: EvaluationResults)
    ensures results == SimplifiedResults(response, sections, jobs, extract)
  {
    var jobSections := sections;
    if jobSections == [] && jobs != [] {
      jobSections := Copies(response, |jobs|);
    }
    var evaluations: seq<Evaluation> := [];
    var i := 0;
    while i < |jobSections|
      invariant 0 <= i <= |jobSections| && i <= |jobs|
      invariant evaluations == EvaluationsUpTo(jobSections, jobs, extract, i)
    {
      if i >= |jobs| {
        break;
      }
      var evalData := ParseSingleJobEvaluation(jobSections[i], jobs[i], i, extract);
      if evalData.matchScore <= 0 {
        evalData := FallbackSingle(jobs[i], i);
      }
      EvaluationsUpToStep(jobSections, jobs, extract, i);
      evaluations := evaluations + [evalData];
      i := i + 1;
    }
    results := EvaluationResults(evaluations, SummaryOf(evaluations));
  }

  lemma EvaluationsUpToStep(sections: seq<string>, jobs: seq<JobInfo>, extract: Extractor, n: nat)
    requires n < |sections| && n < |jobs|
    ensures EvaluationsUpTo(sections, jobs, extract, n + 1)
            == EvaluationsUpTo(sections, jobs, extract, n) + [EvaluationFor(sections[n], jobs[n], n, extract)]
  {
  }

  /** What `create_fallback_evaluation` returns (the timestamp is left out). */
  datatype FallbackReport = FallbackReport(
    sessionId: string,
    jobsEvaluated: nat,
    evaluations: seq<Evaluation>,
    summary: Summary,
    fallbackReason: string)

  function FallbackEvaluation(sessionId: string, jobs: seq<JobInfo>, errorMsg: string): FallbackReport {
    var evals := seq(|jobs|, i requires 0 <= i < |jobs| => FallbackJobEvaluation(jobs[i], i, errorMsg));
    FallbackReport(sessionId, |jobs|, evals, SummaryOf(evals), errorMsg)
  }

  /**
   * A job's evaluation in the fallback report is scored in [25, 85] from
   * the job's relevance, with fit "Good" from 60, "Fair" from 40 and "Needs
   * Review" below, likelihood "Medium" from 50 and "Low" below, and carries
   * the error message.
   */
  lemma FallbackJobEvaluationCorrect(job: JobInfo, index: int, errorMsg: string)
    ensures var e := FallbackJobEvaluation(job, index, errorMsg);
      && e.jobNumber == index + 1
      && e.jobTitle == job.title.GetOr("Unknown")
      && 25 <= e.matchScore <= 85
      && e.matchScore == Clamp(25, 85, job.relevance.GetOr(40) + 5)
      && (forall f :: f in e.texts <==> f in TextFields)
      && (e.texts[OverallFit] == Plain("Good") <==> e.matchScore >= 60)
      && (e.texts[OverallFit] == Plain("Fair") <==> 40 <= e.matchScore < 60)
      && (e.texts[OverallFit] == Plain("Needs Review") <==> e.matchScore < 40)
      && (e.texts[Likelihood] == Plain("Medium") <==> e.matchScore >= 50)
      && (e.texts[Likelihood] == Plain("Low") <==> e.matchScore < 50)
      && e.fallbackReason == Some(errorMsg)
  {
  }

  /** The fallback report has one evaluation per job, in order, and its band counts add up to the number of jobs. */
  lemma FallbackEvaluationCorrect(sessionId: string, jobs: seq<JobInfo>, errorMsg: string)
    ensures var r := FallbackEvaluation(sessionId, jobs, errorMsg);
      && r.jobsEvaluated == |r.evaluations| == |jobs|
      && (forall i :: 0 <= i < |jobs| ==> r.evaluations[i] == FallbackJobEvaluation(jobs[i], i, errorMsg))
      && r.summary.high + r.summary.medium + r.summary.low == |jobs|
      && r.fallbackReason == errorMsg
  {
    var r := FallbackEvaluation(sessionId, jobs, errorMsg);
    BandCountsSum(r.evaluations);
  }

  // ---------------------------------------------------------------------
  // Validation
  // ---------------------------------------------------------------------

  /** The likelihood an evaluation states, "Medium" when it has none. */
  function LikelihoodOf(e: Evaluation): string {
    if Likelihood in e.texts then Render(e.texts[Likelihood]) else "Medium"
  }

  /** `apply_balanced_validation` on one evaluation. */
  function Validated(e: Evaluation): Evaluation {
    var score := e.matchScore;
    var capped :=
      if score > 95 then e.(matchScore := 95, validationNote := Some("Score capped at 95% for realism"))
      else if score < 10 then e.(matchScore := 15, validationNote := Some("Score raised to minimum 15%"))
      else e;
    var likelihood := LikelihoodOf(e);
    if score >= 75 && likelihood == "Low" then capped.(texts := capped.texts[Likelihood := Plain("Medium")])
    else if score >= 85 && (likelihood == "Low" || likelihood == "Medium") then capped.(texts := capped.texts[Likelihood := Plain("High")])
    else if score < 40 && likelihood == "High" then capped.(texts := capped.texts[Likelihood := Plain("Low")])
    else capped
  }

  /**
   * Every validated score is in [10, 95]; a score already there is kept and
   * gets no note. The likelihood is judged on the score before capping: "Low"
   * becomes "Medium" from 75 up (also from 85 up, where it does not reach
   * "High"), "Medium" becomes "High" from 85 up, "High" becomes "Low" below
   * 40, and otherwise the fields are left as they were; nothing else changes.
   */
  lemma ValidatedCorrect(e: Evaluation)
    ensures var r := Validated(e);
      var s := e.matchScore;
      var l := LikelihoodOf(e);
      && 10 <= r.matchScore <= 95
      && (10 <= s <= 95 ==> r.matchScore == s && r.validationNote == e.validationNote)
      && (s > 95 ==> r.matchScore == 95) && (s < 10 ==> r.matchScore == 15)
      && (r.validationNote != e.validationNote ==> s > 95 || s < 10)
      && (s >= 75 && l == "Low" ==> LikelihoodOf(r) == "Medium")
      && (s >= 85 && l == "Medium" ==> LikelihoodOf(r) == "High")
      && (s < 40 && l == "High" ==> LikelihoodOf(r) == "Low")
      && (!(s >= 75 && l == "Low") && !(s >= 85 && l == "Medium") && !(s < 40 && l == "High") ==>
            r.texts == e.texts)
      && r.(matchScore := s, validationNote := e.validationNote, texts := e.texts) == e
  {
  }

  /**
   * The parser's default likelihood sentence starts with "Medium" but is not
   * "Medium", so validation never adjusts it, whatever the score.
   */
  lemma ValidatedKeepsDefaultLikelihood(e: Evaluation, relevance: int)
    requires Likelihood in e.texts && e.texts[Likelihood] == Stock(ParseDefault(Likelihood, relevance))
    ensures Validated(e).texts == e.texts
  {
    var w := Wording(ParseDefault(Likelihood, relevance));
    assert LikelihoodOf(e) == w && |w| > 6;
    ValidatedCorrect(e);
  }

  /** The body of `apply_balanced_validation`'s loop: caps the score, then adjusts the likelihood. */
  method ValidateOne(evaluation: Evaluation) returns (validated: Evaluation)
    ensures validated == Validated(evaluation)
  {
    validated := evaluation;
    var matchScore := evaluation.matchScore;
    if matchScore > 95 {
      validated := validated.(matchScore := 95, validationNote := Some("Score capped at 95% for realism"));
    } else if matchScore < 10 {
      validated := validated.(matchScore := 15, validationNote := Some("Score raised to minimum 15%"));
    }
    var likelihood := if Likelihood in evaluation.texts then Render(evaluation.texts[Likelihood]) else "Medium";
    if matchScore >= 75 && likelihood == "Low" {
      validated := validated.(texts := validated.texts[Likelihood := Plain("Medium")]);
    } else if matchScore >= 85 && (likelihood == "Low" || likelihood == "Medium") {
      validated := validated.(texts := validated.texts[Likelihood := Plain("High")]);
    } else if matchScore < 40 && likelihood == "High" {
      validated := validated.(texts := validated.texts[Likelihood := Plain("Low")]);
    }
  }

  /** `apply_balanced_validation`: validates every evaluation of the list in place. */
  method ApplyBalancedValidation(evaluations: array<Evaluation>)
    modifies evaluations
    ensures forall i :: 0 <= i < evaluations.Length ==> evaluations[i] == Validated(old(evaluations[i]))
  {
    ghost var before := evaluations[..];
    var i := 0;
    while i < evaluations.Length
      invariant 0 <= i <= evaluations.Length
      invariant forall k :: 0 <= k < i ==> evaluations[k] == Validated(before[k])
      invariant evaluations[i..] == before[i..]
    {
      var validated := ValidateOne(evaluations[i]);
      assert evaluations[i] == before[i];
      evaluations[i] := validated;
      assert evaluations[i + 1..] == before[i + 1..];
      i := i + 1;
    }
  }

  // ---------------------------------------------------------------------
  // Choosing and formatting the jobs to evaluate
  // ---------------------------------------------------------------------

  /** Enough information for an evaluation: title, company and description not blank, a description over 50 characters, relevance over 10. */
  predicate Qualifies(job: JobInfo) {
    var title := Strip(job.title.GetOr(""));
    var company := Strip(job.company.GetOr(""));
    var description := Strip(job.description.GetOr(""));
    title != [] && company != [] && description != [] && |description| > 50 && job.relevance.GetOr(0) > 10
  }

  /** A kept job without a match type is marked as a profile match. */
  function WithMatchType(job: JobInfo): JobInfo {
    if job.matchType.None? then job.(matchType := Some("profile_match")) else job
  }

  function RelevanceOrZero(job: JobInfo): int {
    job.relevance.GetOr(0)
  }

  /** The qualifying jobs, in their original order. */
  function Qualified(matches: seq<JobInfo>): seq<JobInfo>
    decreases |matches|
  {
    if matches == [] then []
    else
      var last := matches[|matches| - 1];
      Qualified(matches[..|matches| - 1]) + (if Qualifies(last) then [WithMatchType(last)] else [])
  }

  /** `get_top_job_matches` on the matches the profile matcher returned. */
  function TopJobMatches(matches: seq<JobInfo>, limit: nat): seq<JobInfo> {
    Seqs.Take(Seqs.SortDesc(Qualified(matches), RelevanceOrZero), limit)
  }

  lemma {:induction false} QualifiedMembers(matches: seq<JobInfo>)
    ensures forall j :: j in Qualified(matches) ==> exists m :: m in matches && Qualifies(m) && j == WithMatchType(m)
    ensures forall m :: m in matches && Qualifies(m) ==> WithMatchType(m) in Qualified(matches)
    decreases |matches|
  {
    if matches != [] {
      var init := matches[..|matches| - 1];
      QualifiedMembers(init);
      assert matches == init + [matches[|matches| - 1]];
    }
  }

  /** A job that was kept still qualifies and now has a match type. */
  lemma WithMatchTypeQualifies(m: JobInfo)
    requires Qualifies(m)
    ensures Qualifies(WithMatchType(m)) && WithMatchType(m).matchType.Some?
  {
  }

  /**
   * The jobs chosen are the `limit` most relevant of the qualifying matches
   * (all of them when no more than `limit` qualify), in descending relevance,
   * each now carrying a match type; a qualifying match left out is no more
   * relevant than any job chosen.
   */
  lemma TopJobMatchesCorrect(matches: seq<JobInfo>, limit: nat)
    ensures var r := TopJobMatches(matches, limit);
      && Seqs.IsTopK(r, Qualified(matches), limit, RelevanceOrZero)
      && (forall j :: j in r ==> exists m :: m in matches && Qualifies(m) && j == WithMatchType(m))
      && (forall m, y :: m in matches && Qualifies(m) && WithMatchType(m) !in r && y in r ==>
            RelevanceOrZero(m) <= RelevanceOrZero(y))
      && (|Qualified(matches)| <= limit ==>
            forall m :: m in matches && Qualifies(m) ==> WithMatchType(m) in r)
  {
    var q := Qualified(matches);
    var r := TopJobMatches(matches, limit);
    QualifiedMembers(matches);
    Seqs.TopKCorrect(q, limit, RelevanceOrZero);
    forall j | j in r
      ensures j in q
    {
      assert j in multiset(r);
    }
    Seqs.TopKLeavesOut(r, q, limit, RelevanceOrZero);
    forall m, y | m in matches && Qualifies(m) && WithMatchType(m) !in r && y in r
      ensures RelevanceOrZero(m) <= RelevanceOrZero(y)
    {
      assert WithMatchType(m) in q && RelevanceOrZero(WithMatchType(m)) == RelevanceOrZero(m);
    }
    if |q| <= limit {
      forall m | m in matches && Qualifies(m)
        ensures WithMatchType(m) in r
      {
        assert WithMatchType(m) in q;
      }
    }
  }

  /** `get_top_job_matches`: keeps the jobs that qualify, then the `limit` most relevant of them. */
  method GetTopJobMatches(matches: seq<JobInfo>, limit: nat) returns (result: seq<JobInfo>)
    ensures result == TopJobMatches(matches, limit)
  {
    if matches == [] {
      return [];
    }
    var filtered: seq<JobInfo> := [];
    var i := 0;
    while i < |matches|
      invariant 0 <= i <= |matches|
      invariant filtered == Qualified(matches[..i])
    {
      var job := matches[i];
      var title := Strip(job.title.GetOr(""));
      var company := Strip(job.company.GetOr(""));
      var description := Strip(job.description.GetOr(""));
      var relevanceScore := job.relevance.GetOr(0);
      if title != [] && company != [] && description != [] && |description| > 50 && relevanceScore > 10 {
        if job.matchType.None? {
          job := job.(matchType := Some("profile_match"));
        }
        filtered := filtered + [job];
      }
      assert matches[..i + 1][..i] == matches[..i];
      i := i + 1;
    }
    assert matches[..i] == matches;
    result := Seqs.Take(Seqs.SortDesc(filtered, RelevanceOrZero), limit);
  }

  /** The description as shown to the model: cut to 800 characters followed by "..." when longer. */
  function ShownDescription(d: string): (r: string)
    ensures |r| <= 803
    ensures |d| <= 800 ==> r == d
    ensures |d| > 800 ==> r == d[..800] + "..."
  {
    if |d| > 800 then d[..800] + "..." else d
  }

  /** The first line of the block for the job numbered `n`. */
  function JobHeader(n: int): string {
    "\nJOB_" + IntToString(n) + ":\n"
  }

  /** The block describing the job numbered `n`, with its description as shown. */
  function JobBlock(job: JobInfo, n: int, description: string): string {
    JobHeader(n) +
    ("Title: " + job.title.GetOr("Unknown Position") +
     "\nCompany: " + job.company.GetOr("Unknown Company") +
     "\nLocation: " + job.location.GetOr("Unknown Location") +
     "\nIndustry: " + job.industry.GetOr("Unknown Industry") +
     "\nJob Type: " + job.jobType.GetOr("Unknown Type") +
     "\nDescription: " + description + "\n\n")
  }

  /** The block for the job numbered `n`. */
  function BlockFor(job: JobInfo, n: int): string {
    JobBlock(job, n, ShownDescription(job.description.GetOr("No description available")))
  }

  /** `format_jobs_for_evaluation`: the blocks of all jobs, numbered from 1. */
  function FormatJobs(jobs: seq<JobInfo>): string
    decreases |jobs|
  {
    if jobs == [] then "" else FormatJobs(jobs[..|jobs| - 1]) + BlockFor(jobs[|jobs| - 1], |jobs|)
  }

  /** The text for the first jobs is a prefix of the text for all of them, followed by the next job's block. */
  lemma {:induction false} FormatJobsPrefix(jobs: seq<JobInfo>, i: nat)
    requires i < |jobs|
    ensures FormatJobs(jobs[..i]) + BlockFor(jobs[i], i + 1) <= FormatJobs(jobs)
    decreases |jobs|
  {
    var init := jobs[..|jobs| - 1];
    if i == |jobs| - 1 {
      assert init == jobs[..i];
    } else {
      FormatJobsPrefix(init, i);
      assert init[..i] == jobs[..i];
    }
  }

  /** Each block starts with the job's number, written as `JOB_<n>:`, and the number read back is `n`. */
  lemma JobBlockHeader(job: JobInfo, n: nat)
    ensures JobHeader(n) == "\nJOB_" + NatToString(n) + ":\n"
    ensures JobHeader(n) <= BlockFor(job, n)
    ensures FirstNumber(NatToString(n)) == Some(n)
  {
    FirstNumberOfNumeral(n);
  }

  lemma FormatJobsStep(jobs: seq<JobInfo>, i: nat)
    requires i < |jobs|
    ensures FormatJobs(jobs[..i + 1]) == FormatJobs(jobs[..i]) + BlockFor(jobs[i], i + 1)
  {
    assert jobs[..i + 1][..i] == jobs[..i];
  }

  /** `format_jobs_for_evaluation`, appending one block per job. */
  method FormatJobsForEvaluation(jobs: seq<JobInfo>) returns (jobsText: string)
    ensures jobsText == FormatJobs(jobs)
  {
    jobsText := "";
    var i := 0;
    while i < |jobs|
      invariant 0 <= i <= |jobs|
      invariant jobsText == FormatJobs(jobs[..i])
    {
      var job := jobs[i];
      var description := ShownDescription(job.description.GetOr("No description available"));
      FormatJobsStep(jobs, i);
      jobsText := jobsText + JobBlock(job, i + 1, description);
      i := i + 1;
    }
    assert jobs[..i] == jobs;
  }
}
