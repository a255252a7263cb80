/**
 * CV extraction in `src/skillscope/core/cv_extraction.py`: the guards around
 * the language-model call, the greedy `{...}` search in its reply, the
 * completion of the extracted dictionary with defaults and entry ids, and the
 * profile suggestions (overall field, target roles, experience bracket)
 * derived from an extracted CV.
 *
 * The language model, the JSON decoder, the file readers and `uuid4` are
 * parameters: `llm` maps the CV excerpt embedded in the prompt to a reply or
 * a raised exception, `decode` is `json.loads` on the matched text, and
 * `uuid(n)` is the id handed out by the n-th call to `uuid4`.
 */
module SrcCvExtraction {
  import opened Wrappers
  import opened Text
  import opened Seqs

  // ---------------------------------------------------------------------
  // The extracted CV
  // ---------------------------------------------------------------------

  datatype Skills = Skills(technical: seq<string>, soft: seq<string>, all: seq<string>)

  /** An entry of `education_entries`; `id` and `marked_for_removal` are absent until post-processing. */
  datatype EducationEntry = EducationEntry(
    degree: string,
    fieldOfStudy: string,
    institution: string,
    graduationYear: string,
    id: Option<string>,
    markedForRemoval: Option<bool>)

  /** An entry of `experience_entries`; an absent `years_in_role` reads as 0. */
  datatype ExperienceEntry = ExperienceEntry(
    jobTitle: string,
    company: string,
    yearsInRole: real,
    skillsResponsibilities: string,
    id: Option<string>,
    markedForRemoval: Option<bool>)

  /** The `cv_data` dictionary; a key that is absent is `None`. */
  datatype CvRecord = CvRecord(
    extractionSuccess: Option<bool>,
    extractionError: Option<string>,
    rawTextPreview: Option<string>,
    name: Option<string>,
    email: Option<string>,
    phone: Option<string>,
    linkedin: Option<string>,
    personalSummary: Option<string>,
    skills: Option<Skills>,
    languages: Option<seq<string>>,
    educationEntries: Option<seq<EducationEntry>>,
    experienceEntries: Option<seq<ExperienceEntry>>,
    suggestedJobTitleKeywords: Option<seq<string>>)

  const NoSkills := Skills([], [], [])

  /** Every key of the defaults table is present. */
  predicate Complete(d: CvRecord) {
    && d.name.Some? && d.email.Some? && d.phone.Some? && d.linkedin.Some? && d.personalSummary.Some?
    && d.skills.Some? && d.languages.Some? && d.educationEntries.Some? && d.experienceEntries.Some?
    && d.suggestedJobTitleKeywords.Some?
  }

  /** The CV holds no education, no experience, no skills, no languages and no keywords. */
  predicate Empty(d: CvRecord) {
    && d.skills == Some(NoSkills) && d.languages == Some([]) && d.educationEntries == Some([])
    && d.experienceEntries == Some([]) && d.suggestedJobTitleKeywords == Some([])
  }

  /** `_create_empty_cv_structure(error)` */
  function EmptyCvStructure(error: string): (r: CvRecord)
    ensures Complete(r) && Empty(r)
    ensures r.extractionSuccess == Some(false) && r.extractionError == Some(error)
    ensures r.rawTextPreview.None?
  {
    CvRecord(Some(false), Some(error), None, Some(""), Some(""), Some(""), Some(""), Some(""),
             Some(NoSkills), Some([]), Some([]), Some([]), Some([]))
  }

  // ---------------------------------------------------------------------
  // Post-processing: defaults and entry ids
  // ---------------------------------------------------------------------

  /** The defaults loop: each absent key gets its default, a present key keeps its value. */
  function WithDefaults(d: CvRecord): CvRecord {
    d.(name := Some(d.name.GetOr("")),
       email := Some(d.email.GetOr("")),
       phone := Some(d.phone.GetOr("")),
       linkedin := Some(d.linkedin.GetOr("")),
       personalSummary := Some(d.personalSummary.GetOr("")),
       skills := Some(d.skills.GetOr(NoSkills)),
       languages := Some(d.languages.GetOr([])),
       educationEntries := Some(d.educationEntries.GetOr([])),
       experienceEntries := Some(d.experienceEntries.GetOr([])),
       suggestedJobTitleKeywords := Some(d.suggestedJobTitleKeywords.GetOr([])))
  }

  function StampEducation(e: EducationEntry, id: string): EducationEntry {
    e.(id := Some(id), markedForRemoval := Some(false))
  }

  function StampExperience(e: ExperienceEntry, id: string): ExperienceEntry {
    e.(id := Some(id), markedForRemoval := Some(false))
  }

  /** Education entries take ids `uuid(0)`, `uuid(1)`, ...; experience entries the ones after. */
  function PostProcessed(d: CvRecord, uuid: nat -> string): CvRecord {
    var f := WithDefaults(d);
    var edu := f.educationEntries.value;
    var exp := f.experienceEntries.value;
    f.(educationEntries := Some(seq(|edu|, i requires 0 <= i < |edu| => StampEducation(edu[i], uuid(i)))),
       experienceEntries := Some(seq(|exp|, i requires 0 <= i < |exp| => StampExperience(exp[i], uuid(|edu| + i)))))
  }

  /** Every education and experience entry carries an id and is not marked for removal. */
  predicate Stamped(d: CvRecord) {
    && (d.educationEntries.Some? ==>
          forall i :: 0 <= i < |d.educationEntries.value| ==>
            d.educationEntries.value[i].id.Some? && d.educationEntries.value[i].markedForRemoval == Some(false))
    && (d.experienceEntries.Some? ==>
          forall i :: 0 <= i < |d.experienceEntries.value| ==>
            d.experienceEntries.value[i].id.Some? && d.experienceEntries.value[i].markedForRemoval == Some(false))
  }

  /** The ids handed out by `uuid4` are pairwise different. */
  ghost predicate Injective(uuid: nat -> string) {
    forall m: nat, n: nat :: m != n ==> uuid(m) != uuid(n)
  }

  /**
   * Post-processing completes the record without overwriting: a key that was
   * present keeps its value, an absent one gets its default; the entries keep
   * their order and their own fields and each gains an id and
   * `marked_for_removal = False`; with fresh uuids no two entries share an id;
   * and the extraction status keys are left alone.
   */
  lemma PostProcessedCorrect(d: CvRecord, uuid: nat -> string)
    ensures var r := PostProcessed(d, uuid);
            && Complete(r) && Stamped(r)
            && (d.name.Some? ==> r.name == d.name) && (d.name.None? ==> r.name == Some(""))
            && (d.email.Some? ==> r.email == d.email) && (d.email.None? ==> r.email == Some(""))
            && (d.phone.Some? ==> r.phone == d.phone) && (d.phone.None? ==> r.phone == Some(""))
            && (d.linkedin.Some? ==> r.linkedin == d.linkedin) && (d.linkedin.None? ==> r.linkedin == Some(""))
            && (d.personalSummary.Some? ==> r.personalSummary == d.personalSummary)
            && (d.personalSummary.None? ==> r.personalSummary == Some(""))
            && (d.skills.Some? ==> r.skills == d.skills) && (d.skills.None? ==> r.skills == Some(NoSkills))
            && (d.languages.Some? ==> r.languages == d.languages) && (d.languages.None? ==> r.languages == Some([]))
            && (d.suggestedJobTitleKeywords.Some? ==> r.suggestedJobTitleKeywords == d.suggestedJobTitleKeywords)
            && (d.suggestedJobTitleKeywords.None? ==> r.suggestedJobTitleKeywords == Some([]))
            && |r.educationEntries.value| == |d.educationEntries.GetOr([])|
            && |r.experienceEntries.value| == |d.experienceEntries.GetOr([])|
            && (forall i :: 0 <= i < |r.educationEntries.value| ==>
                  r.educationEntries.value[i].(id := None, markedForRemoval := None)
                  == d.educationEntries.value[i].(id := None, markedForRemoval := None))
            && (forall i :: 0 <= i < |r.experienceEntries.value| ==>
                  r.experienceEntries.value[i].(id := None, markedForRemoval := None)
                  == d.experienceEntries.value[i].(id := None, markedForRemoval := None))
            && r.extractionSuccess == d.extractionSuccess && r.extractionError == d.extractionError
            && r.rawTextPreview == d.rawTextPreview
  {
    var f := WithDefaults(d);
    var r := PostProcessed(d, uuid);
    var edu := f.educationEntries.value;
    var exp := f.experienceEntries.value;
    assert |r.educationEntries.value| == |edu| && |r.experienceEntries.value| == |exp|;
    forall i | 0 <= i < |edu|
      ensures r.educationEntries.value[i] == StampEducation(edu[i], uuid(i))
    {
    }
    forall i | 0 <= i < |exp|
      ensures r.experienceEntries.value[i] == StampExperience(exp[i], uuid(|edu| + i))
    {
    }
  }

  /** With fresh uuids every entry of the post-processed CV has its own id. */
  lemma PostProcessedIdsDistinct(d: CvRecord, uuid: nat -> string)
    requires Injective(uuid)
    ensures var r := PostProcessed(d, uuid);
            var edu := r.educationEntries.value;
            var exp := r.experienceEntries.value;
            && (forall i, j :: 0 <= i < j < |edu| ==> edu[i].id != edu[j].id)
            && (forall i, j :: 0 <= i < j < |exp| ==> exp[i].id != exp[j].id)
            && (forall i, j :: 0 <= i < |edu| && 0 <= j < |exp| ==> edu[i].id != exp[j].id)
  {
    var r := PostProcessed(d, uuid);
    var edu := r.educationEntries.value;
    var exp := r.experienceEntries.value;
    forall i, j | 0 <= i < j < |edu| ensures edu[i].id != edu[j].id {
      assert uuid(i) != uuid(j);
    }
    forall i, j | 0 <= i < j < |exp| ensures exp[i].id != exp[j].id {
      assert uuid(|edu| + i) != uuid(|edu| + j);
    }
    forall i, j | 0 <= i < |edu| && 0 <= j < |exp| ensures edu[i].id != exp[j].id {
      assert uuid(i) != uuid(|edu| + j);
    }
  }

  /** The empty structure has nothing to add: post-processing leaves it as it is. */
  lemma PostProcessEmpty(error: string, uuid: nat -> string)
    ensures PostProcessed(EmptyCvStructure(error), uuid) == EmptyCvStructure(error)
  {
    var r := PostProcessed(EmptyCvStructure(error), uuid);
    assert r.educationEntries.value == [];
    assert r.experienceEntries.value == [];
  }

  /** `if key not in cv_data: cv_data[key] = defaultValue` for one key. */
  method SetDefault<T>(value: Option<T>, defaultValue: T) returns (r: Option<T>)
    ensures value.Some? ==> r == value
    ensures value.None? ==> r == Some(defaultValue)
  {
    r := value;
    if r.None? {
      r := Some(defaultValue);
    }
  }

  /** The defaults loop of `_post_process_cv_data`, one key of the table after the other. */
  method FillDefaults(cvData: CvRecord) returns (r: CvRecord)
    ensures r == WithDefaults(cvData)
  {
    var name := SetDefault(cvData.name, "");
    var email := SetDefault(cvData.email, "");
    var phone := SetDefault(cvData.phone, "");
    var linkedin := SetDefault(cvData.linkedin, "");
    var personalSummary := SetDefault(cvData.personalSummary, "");
    var skills := SetDefault(cvData.skills, NoSkills);
    var languages := SetDefault(cvData.languages, []);
    var educationEntries := SetDefault(cvData.educationEntries, []);
    var experienceEntries := SetDefault(cvData.experienceEntries, []);
    var suggestedJobTitleKeywords := SetDefault(cvData.suggestedJobTitleKeywords, []);
    r := cvData.(name := name, email := email, phone := phone, linkedin := linkedin, personalSummary := personalSummary,
                 skills := skills, languages := languages, educationEntries := educationEntries,
                 experienceEntries := experienceEntries, suggestedJobTitleKeywords := suggestedJobTitleKeywords);
  }



  /**
   * `_post_process_cv_data`: fills the absent keys, then walks the education
   * entries and the experience entries and stamps each with a new uuid and
   * `marked_for_removal = False`.
   */
  method PostProcessCvData(cvData: CvRecord, uuid: nat -> string) returns (r: CvRecord)
    ensures r == PostProcessed(cvData, uuid)
  {
    r := FillDefaults(cvData);
    var calls: nat := 0;
    var edu := r.educationEntries.value;
    ghost var edu0 := edu;
    while calls < |edu|
      invariant calls <= |edu| == |edu0|
      invariant forall k :: 0 <= k < calls ==> edu[k] == StampEducation(edu0[k], uuid(k))
      invariant forall k :: calls <= k < |edu| ==> edu[k] == edu0[k]
    {
      edu := edu[calls := StampEducation(edu[calls], uuid(calls))];
      calls := calls + 1;
    }
    var exp := r.experienceEntries.value;
    ghost var exp0 := exp;
    var i := 0;
    while i < |exp|
      invariant i <= |exp| == |exp0| && calls == |edu0| + i
      invariant forall k :: 0 <= k < i ==> exp[k] == StampExperience(exp0[k], uuid(|edu0| + k))
      invariant forall k :: i <= k < |exp| ==> exp[k] == exp0[k]
    {
      exp := exp[i := StampExperience(exp[i], uuid(calls))];
      calls := calls + 1;
      i := i + 1;
    }
    assert edu == seq(|edu0|, k requires 0 <= k < |edu0| => StampEducation(edu0[k], uuid(k)));
    assert exp == seq(|exp0|, k requires 0 <= k < |exp0| => StampExperience(exp0[k], uuid(|edu0| + k)));
    r := r.(educationEntries := Some(edu), experienceEntries := Some(exp));
  }

  // ---------------------------------------------------------------------
  // Reading the reply
  // ---------------------------------------------------------------------

  const ParseFailure := "Could not parse LLM response as JSON"

  /** The index of the first occurrence of `c` in `s`. */
  function FirstIndexOf(s: string, c: char): (r: Option<nat>)
    ensures r.None? ==> c !in s
    ensures r.Some? ==> r.value < |s| && s[r.value] == c && forall k :: 0 <= k < r.value ==> s[k] != c
    decreases |s|
  {
    if s == [] then None
    else if s[0] == c then Some(0)
    else match FirstIndexOf(s[1..], c)
      case None => None
      case Some(i) => Some(i + 1)
  }

  /** The index of the last occurrence of `c` in `s`. */
  function LastIndexOf(s: string, c: char): (r: Option<nat>)
    ensures r.None? ==> c !in s
    ensures r.Some? ==> r.value < |s| && s[r.value] == c && forall k :: r.value < k < |s| ==> s[k] != c
    decreases |s|
  {
    if s == [] then None
    else if s[|s| - 1] == c then Some(|s| - 1)
    else LastIndexOf(s[..|s| - 1], c)
  }

  /**
   * `re.search(r'\{.*\}', response, re.DOTALL)`: the greedy match runs from the
   * first `{` to the last `}`, and there is a match exactly when some `{`
   * comes before some `}`.
   */
  function JsonSpan(response: string): (r: Option<string>)
    ensures r.Some? <==> exists i, j :: 0 <= i < j < |response| && response[i] == '{' && response[j] == '}'
    ensures r.Some? ==> exists i, j ::
              && 0 <= i < j < |response| && r.value == response[i..j + 1]
              && response[i] == '{' && response[j] == '}'
              && (forall k :: 0 <= k < i ==> response[k] != '{')
              && (forall k :: j < k < |response| ==> response[k] != '}')
  {
    var first := FirstIndexOf(response, '{');
    var last := LastIndexOf(response, '}');
    if first.Some? && last.Some? && first.value < last.value then
      Some(response[first.value..last.value + 1])
    else
      assert forall i, j :: 0 <= i < j < |response| && response[i] == '{' ==> response[j] != '}' by {
        forall i, j | 0 <= i < j < |response| && response[i] == '{'
          ensures response[j] != '}'
        {
          assert response[i] in response && response[j] in response;
        }
      }
      None
  }

  /** `_parse_llm_response`: the decoded match, or the empty structure when there is no match or it does not decode. */
  function ParseLlmResponse(response: string, decode: string -> Option<CvRecord>): (r: CvRecord)
    ensures JsonSpan(response).None? ==> r == EmptyCvStructure(ParseFailure)
    ensures JsonSpan(response).Some? && decode(JsonSpan(response).value).Some? ==>
              r == decode(JsonSpan(response).value).value
    ensures JsonSpan(response).Some? && decode(JsonSpan(response).value).None? ==>
              r == EmptyCvStructure(ParseFailure)
  {
    match JsonSpan(response)
    case None => EmptyCvStructure(ParseFailure)
    case Some(json) =>
      match decode(json)
      case None => EmptyCvStructure(ParseFailure)
      case Some(d) => d
  }

  // ---------------------------------------------------------------------
  // The extraction entry points
  // ---------------------------------------------------------------------

  /** What the chat-completion call gave: the reply content, or the message of the exception it raised. */
  datatype LlmCall = Replied(content: string) | Raised(message: string)

  /** What reading the file gave: its stripped text, or the message of the exception the reader raised. */
  datatype FileRead = ReadText(text: string) | ReadRaised(message: string)

  const PromptLimit: nat := 4000
  const PreviewLimit: nat := 500
  const MinTextLength: nat := 20
  const MinFileTextLength: nat := 50

  /** The part of the CV that `_create_extraction_prompt` embeds: `cv_text[:4000]`. */
  function PromptExcerpt(cvText: string, limit: nat): (r: string)
    ensures r <= cvText && |r| == Min(limit, |cvText|)
  {
    Take(cvText, limit)
  }

  /** `raw_text_preview`: the first 500 characters, with "..." appended exactly when something was cut. */
  function Preview(text: string): (r: string)
    ensures |text| <= PreviewLimit ==> r == text
    ensures |text| > PreviewLimit ==> |r| == PreviewLimit + 3 && r[..PreviewLimit] == text[..PreviewLimit] && r[PreviewLimit..] == "..."
  {
    if |text| > PreviewLimit then text[..PreviewLimit] + "..." else text
  }

  /**
   * `extract_from_text`; `limit` is the prompt's cut (4000 here). A text whose
   * stripped form is shorter than 20 characters fails before the model is
   * called; an exception of the call gives a failure; otherwise the reply is
   * parsed, post-processed and marked successful, with the preview.
   */
  function ExtractFromText(text: string, limit: nat, llm: string -> LlmCall, decode: string -> Option<CvRecord>,
                           uuid: nat -> string): CvRecord
  {
    if |Strip(text)| < MinTextLength then EmptyCvStructure("Text too short or empty")
    else match llm(PromptExcerpt(text, limit))
      case Raised(message) => EmptyCvStructure("LLM extraction failed: " + message)
      case Replied(content) =>
        PostProcessed(ParseLlmResponse(content, decode), uuid)
          .(extractionSuccess := Some(true), rawTextPreview := Some(Preview(text)))
  }

  /**
   * The result is always complete and stamped; it is marked successful
   * exactly when the stripped text has at least 20 characters and the call
   * returned; a success carries the preview of the text, a failure carries an
   * error and no data.
   */
  lemma ExtractFromTextCorrect(text: string, limit: nat, llm: string -> LlmCall, decode: string -> Option<CvRecord>,
                               uuid: nat -> string)
    ensures var r := ExtractFromText(text, limit, llm, decode, uuid);
            && Complete(r) && Stamped(r)
            && r.extractionSuccess == Some(|Strip(text)| >= MinTextLength && llm(PromptExcerpt(text, limit)).Replied?)
            && (r.extractionSuccess == Some(true) ==> r.rawTextPreview == Some(Preview(text)))
            && (r.extractionSuccess == Some(false) ==> r.extractionError.Some? && Empty(r))
  {
    if |Strip(text)| >= MinTextLength && llm(PromptExcerpt(text, limit)).Replied? {
      PostProcessedCorrect(ParseLlmResponse(llm(PromptExcerpt(text, limit)).content, decode), uuid);
    }
  }

  /**
   * A reply with no `{...}` in it still ends as a success: the empty
   * structure with its parse error, marked `extraction_success = True`.
   */
  lemma UnparseableReplySucceeds(text: string, limit: nat, llm: string -> LlmCall, decode: string -> Option<CvRecord>,
                                 uuid: nat -> string)
    requires |Strip(text)| >= MinTextLength
    requires llm(PromptExcerpt(text, limit)).Replied? && JsonSpan(llm(PromptExcerpt(text, limit)).content).None?
    ensures var r := ExtractFromText(text, limit, llm, decode, uuid);
            r.extractionSuccess == Some(true) && r.extractionError == Some(ParseFailure) && Empty(r)
  {
    PostProcessEmpty(ParseFailure, uuid);
  }

  /** Only the excerpt reaches the model: two texts with the same excerpt give the same CV data. */
  lemma ExtractSeesOnlyExcerpt(t1: string, t2: string, limit: nat, llm: string -> LlmCall,
                               decode: string -> Option<CvRecord>, uuid: nat -> string)
    requires |Strip(t1)| >= MinTextLength && |Strip(t2)| >= MinTextLength
    requires PromptExcerpt(t1, limit) == PromptExcerpt(t2, limit)
    ensures ExtractFromText(t1, limit, llm, decode, uuid).(rawTextPreview := None)
            == ExtractFromText(t2, limit, llm, decode, uuid).(rawTextPreview := None)
  {
  }

  const SupportedSuffixes: seq<string> := [".pdf", ".docx", ".txt"]

  /**
   * `extract_from_file`: a missing file, a suffix other than `.pdf`, `.docx`
   * or `.txt` (in any case), a reader exception, or fewer than 50 characters
   * of stripped text each give a failure; otherwise the text is extracted.
   */
  function ExtractFromFile(path: string, fileExists: bool, suffix: string, read: FileRead, limit: nat,
                           llm: string -> LlmCall, decode: string -> Option<CvRecord>, uuid: nat -> string): CvRecord
  {
    if !fileExists then EmptyCvStructure("File not found: " + path)
    else if Lower(suffix) !in SupportedSuffixes then EmptyCvStructure("Unsupported file format: " + suffix)
    else match read
      case ReadRaised(message) => EmptyCvStructure("Error reading file: " + message)
      case ReadText(text) =>
        if |Strip(text)| < MinFileTextLength then EmptyCvStructure("No readable text found in file")
        else ExtractFromText(text, limit, llm, decode, uuid)
  }

  /** A file extraction succeeds exactly when every guard passes and the model call returns. */
  lemma ExtractFromFileCorrect(path: string, fileExists: bool, suffix: string, read: FileRead, limit: nat,
                               llm: string -> LlmCall, decode: string -> Option<CvRecord>, uuid: nat -> string)
    ensures var r := ExtractFromFile(path, fileExists, suffix, read, limit, llm, decode, uuid);
            && Complete(r)
            && (r.extractionSuccess == Some(true) <==>
                  && fileExists && Lower(suffix) in SupportedSuffixes && read.ReadText?
                  && |Strip(read.text)| >= MinFileTextLength
                  && llm(PromptExcerpt(read.text, limit)).Replied?)
            && (!fileExists ==> r == EmptyCvStructure("File not found: " + path))
  {
    if fileExists && Lower(suffix) in SupportedSuffixes && read.ReadText? && |Strip(read.text)| >= MinFileTextLength {
      ExtractFromTextCorrect(read.text, limit, llm, decode, uuid);
    }
  }

  // ---------------------------------------------------------------------
  // Profile suggestions
  // ---------------------------------------------------------------------

  const DataScience := "Data Science & AI"
  const SoftwareDevelopment := "Software Development"
  const ProjectManagement := "Project Management"
  const UxUiDesign := "UX/UI Design"
  const MarketingSales := "Marketing & Sales"
  const FinanceEconomics := "Finance & Economics"

  const DataTerms := ["data scien", "machine learning", "ai", "analytics", "data analy"]
  const SoftwareTerms := ["software", "programming", "developer", "engineer", "python", "java", "javascript"]
  const ProjectTerms := ["project manager", "project management", "scrum master", "agile"]
  const DesignTerms := ["ux", "ui", "design", "graphic", "visual"]
  const MarketingTerms := ["marketing", "sales", "business development"]
  const FinanceTerms := ["finance", "economics", "accounting", "financial"]

  /** `any(term in text for term in terms)` */
  predicate Mentions(text: string, terms: seq<string>) {
    exists k :: 0 <= k < |terms| && Contains(text, terms[k])
  }

  /** `' '.join(pieces)` */
  function JoinWords(pieces: seq<string>): string {
    if pieces == [] then "" else Join(pieces, ' ')
  }

  function EducationFields(d: CvRecord): seq<string> {
    var edu := d.educationEntries.GetOr([]);
    seq(|edu|, i requires 0 <= i < |edu| => edu[i].fieldOfStudy)
  }

  function JobTitles(d: CvRecord): seq<string> {
    var exp := d.experienceEntries.GetOr([]);
    seq(|exp|, i requires 0 <= i < |exp| => exp[i].jobTitle)
  }

  function SkillsAll(d: CvRecord): seq<string> {
    d.skills.GetOr(NoSkills).all
  }

  /** The lower-cased text the field is detected in: study fields, job titles and all skills. */
  function AllText(d: CvRecord): string {
    Lower(JoinWords(EducationFields(d) + JobTitles(d) + SkillsAll(d)))
  }

  /** The overall field: the first term list, in the order below, with a term in the text. */
  function OverallField(allText: string): (r: string)
    ensures r in [DataScience, SoftwareDevelopment, ProjectManagement, UxUiDesign, MarketingSales, FinanceEconomics]
    ensures r == DataScience <==> Mentions(allText, DataTerms)
  {
    if Mentions(allText, DataTerms) then DataScience
    else if Mentions(allText, SoftwareTerms) then SoftwareDevelopment
    else if Mentions(allText, ProjectTerms) then ProjectManagement
    else if Mentions(allText, DesignTerms) then UxUiDesign
    else if Mentions(allText, MarketingTerms) then MarketingSales
    else if Mentions(allText, FinanceTerms) then FinanceEconomics
    else SoftwareDevelopment
  }

  /** A keyword rule: the terms that select `outcome`. */
  datatype Rule = Rule(terms: seq<string>, outcome: string)

  /** The outcome of the first rule with a term in the text, or `fallback` when none has. */
  function FirstMatch(text: string, rules: seq<Rule>, fallback: string): string
    decreases |rules|
  {
    if rules == [] then fallback
    else if Mentions(text, rules[0].terms) then rules[0].outcome
    else FirstMatch(text, rules[1..], fallback)
  }

  /** First-match classification: the earliest matching rule decides; without one the fallback does. */
  lemma {:induction false} FirstMatchCorrect(text: string, rules: seq<Rule>, fallback: string, k: int)
    requires 0 <= k < |rules| && Mentions(text, rules[k].terms)
    requires forall m :: 0 <= m < k ==> !Mentions(text, rules[m].terms)
    ensures FirstMatch(text, rules, fallback) == rules[k].outcome
    decreases |rules|
  {
    if k > 0 {
      FirstMatchCorrect(text, rules[1..], fallback, k - 1);
    }
  }

  lemma {:induction false} FirstMatchDefault(text: string, rules: seq<Rule>, fallback: string)
    requires forall m :: 0 <= m < |rules| ==> !Mentions(text, rules[m].terms)
    ensures FirstMatch(text, rules, fallback) == fallback
    decreases |rules|
  {
    if rules != [] {
      FirstMatchDefault(text, rules[1..], fallback);
    }
  }

  const FieldRules := [
    Rule(DataTerms, DataScience), Rule(SoftwareTerms, SoftwareDevelopment), Rule(ProjectTerms, ProjectManagement),
    Rule(DesignTerms, UxUiDesign), Rule(MarketingTerms, MarketingSales), Rule(FinanceTerms, FinanceEconomics)]

  /** The field is the first-match classification over the six rules in source order, defaulting to Software Development. */
  lemma OverallFieldIsFirstMatch(allText: string)
    ensures OverallField(allText) == FirstMatch(allText, FieldRules, SoftwareDevelopment)
  {
    var rules := FieldRules;
    assert rules[0].terms == DataTerms && rules[1].terms == SoftwareTerms && rules[2].terms == ProjectTerms;
    assert rules[3].terms == DesignTerms && rules[4].terms == MarketingTerms && rules[5].terms == FinanceTerms;
    if k :| 0 <= k < |rules| && Mentions(allText, rules[k].terms) && forall m :: 0 <= m < k ==> !Mentions(allText, rules[m].terms) {
      FirstMatchCorrect(allText, rules, SoftwareDevelopment, k);
    } else {
      forall m | 0 <= m < |rules| ensures !Mentions(allText, rules[m].terms) {
        if Mentions(allText, rules[m].terms) {
          var f := FirstMentioned(allText, rules, m);
        }
      }
      FirstMatchDefault(allText, rules, SoftwareDevelopment);
    }
  }

  /** The earliest rule at or before `m` that matches. */
  lemma {:induction false} FirstMentioned(text: string, rules: seq<Rule>, m: int) returns (f: int)
    requires 0 <= m < |rules| && Mentions(text, rules[m].terms)
    ensures 0 <= f <= m && Mentions(text, rules[f].terms)
    ensures forall n :: 0 <= n < f ==> !Mentions(text, rules[n].terms)
    decreases m
  {
    f := m;
    if n :| 0 <= n < m && Mentions(text, rules[n].terms) {
      f := FirstMentioned(text, rules, n);
    }
  }

  /** A study field, job title or skill mentioning a data term makes the field Data Science & AI. */
  lemma DataMentionDecides(d: CvRecord, k: int, term: string)
    requires 0 <= k < |EducationFields(d) + JobTitles(d) + SkillsAll(d)|
    requires term in DataTerms && Contains(Lower((EducationFields(d) + JobTitles(d) + SkillsAll(d))[k]), term)
    ensures OverallField(AllText(d)) == DataScience
  {
    var pieces := EducationFields(d) + JobTitles(d) + SkillsAll(d);
    JoinContains(pieces, ' ', k);
    ContainsLower(JoinWords(pieces), pieces[k]);
    ContainsTransitive(AllText(d), Lower(pieces[k]), term);
    var i :| 0 <= i < |DataTerms| && DataTerms[i] == term;
  }

  const SoftwareRoles := ["Software Engineer", "Software Developer"]
  const DataRoles := ["Data Scientist", "Data Analyst"]
  const ProjectRoles := ["Project Manager", "Scrum Master"]

  /** The generic roles added for the field. */
  function GenericRoles(field: string): seq<string> {
    if field == SoftwareDevelopment then SoftwareRoles
    else if field == DataScience then DataRoles
    else if field == ProjectManagement then ProjectRoles
    else []
  }

  /** The job titles loop: each non-empty title, stripped, when the stripped title is not empty. */
  function CleanTitles(titles: seq<string>): (r: seq<string>)
    ensures forall x :: x in r ==> x != [] && exists t :: t in titles && Strip(t) == x
    ensures forall t :: t in titles && Strip(t) != [] ==> Strip(t) in r
    decreases |titles|
  {
    if titles == [] then []
    else
      var last := titles[|titles| - 1];
      var init := titles[..|titles| - 1];
      assert forall t :: t in titles ==> t in init || t == last;
      assert forall t :: t in init ==> t in titles;
      CleanTitles(init) + (if last != [] && Strip(last) != [] then [Strip(last)] else [])
  }

  const MaxTargetRoles: nat := 5

  /** `list(set(roles))[:5]` over the cleaned titles followed by the generic roles. */
  function TargetRoles(titles: seq<string>, field: string): seq<string> {
    Take(AppendNew([], CleanTitles(titles) + GenericRoles(field)), MaxTargetRoles)
  }

  /**
   * At most five target roles, no two equal, none empty, each a stripped job
   * title or a generic role of the field; when there are at most five
   * different candidates none is lost.
   */
  lemma TargetRolesCorrect(titles: seq<string>, field: string)
    ensures var r := TargetRoles(titles, field);
            && |r| <= MaxTargetRoles && Distinct(r)
            && (forall x :: x in r ==> x != [] && ((exists t :: t in titles && Strip(t) == x) || x in GenericRoles(field)))
            && (|AppendNew([], CleanTitles(titles) + GenericRoles(field))| <= MaxTargetRoles ==>
                  (forall t :: t in titles && Strip(t) != [] ==> Strip(t) in r)
                  && forall x :: x in GenericRoles(field) ==> x in r)
  {
    var candidates := CleanTitles(titles) + GenericRoles(field);
    var unique := AppendNew([], candidates);
    AppendNewCorrect([], candidates);
    var r := TargetRoles(titles, field);
    assert r <= unique;
    forall x | x in r ensures x in unique {
      var i :| 0 <= i < |r| && r[i] == x;
      assert unique[i] == x;
    }
    if |unique| <= MaxTargetRoles {
      assert r == unique;
    }
  }

  /** `sum(years_in_role)` over the experience entries. */
  function TotalYears(exp: seq<ExperienceEntry>): real
    decreases |exp|
  {
    if exp == [] then 0.0 else TotalYears(exp[..|exp| - 1]) + exp[|exp| - 1].yearsInRole
  }

  /** With no negative durations the total is at least every single one of them. */
  lemma {:induction false} TotalYearsBounds(exp: seq<ExperienceEntry>)
    requires forall i :: 0 <= i < |exp| ==> exp[i].yearsInRole >= 0.0
    ensures TotalYears(exp) >= 0.0
    ensures forall i :: 0 <= i < |exp| ==> TotalYears(exp) >= exp[i].yearsInRole
    decreases |exp|
  {
    if exp != [] {
      TotalYearsBounds(exp[..|exp| - 1]);
    }
  }

  const ExperienceLabels := ["None", "0-1 year", "1-3 years", "3-5 years", "5-10 years", "10-15 years", "15+ years"]

  /** How many of the thresholds `> 0`, `>= 1`, `>= 3`, `>= 5`, `>= 10`, `>= 15` the total passes. */
  function ExperienceLevel(total: real): (n: nat)
    ensures n < |ExperienceLabels|
    ensures n >= 1 <==> total > 0.0
    ensures n >= 2 <==> total >= 1.0
    ensures n >= 3 <==> total >= 3.0
    ensures n >= 4 <==> total >= 5.0
    ensures n >= 5 <==> total >= 10.0
    ensures n >= 6 <==> total >= 15.0
  {
    if total >= 15.0 then 6
    else if total >= 10.0 then 5
    else if total >= 5.0 then 4
    else if total >= 3.0 then 3
    else if total >= 1.0 then 2
    else if total > 0.0 then 1
    else 0
  }

  /** The `total_experience` bracket. */
  function ExperienceBucket(total: real): (r: string)
    ensures r in ExperienceLabels
    ensures r == "None" <==> total <= 0.0
  {
    ExperienceLabels[ExperienceLevel(total)]
  }

  /** More years never give a lower bracket. */
  lemma ExperienceLevelMonotone(x: real, y: real)
    requires x <= y
    ensures ExperienceLevel(x) <= ExperienceLevel(y)
  {
  }

  datatype Suggestions = Suggestions(overallField: string, targetRoles: seq<string>, totalExperience: string)

  function SuggestionsOf(d: CvRecord): Suggestions {
    var field := OverallField(AllText(d));
    Suggestions(field, TargetRoles(JobTitles(d), field), ExperienceBucket(TotalYears(d.experienceEntries.GetOr([]))))
  }

  /**
   * `suggest_profile_fields`: classifies the field, collects the cleaned job
   * titles in a loop, adds the field's generic roles, deduplicates and keeps
   * five, and brackets the summed years.
   */
  method SuggestProfileFields(cvData: CvRecord) returns (s: Suggestions)
    ensures s == SuggestionsOf(cvData)
  {
    var titles := JobTitles(cvData);
    var field := OverallField(AllText(cvData));
    var roles: seq<string> := [];
    var i := 0;
    while i < |titles|
      invariant 0 <= i <= |titles|
      invariant roles == CleanTitles(titles[..i])
    {
      assert titles[..i + 1][..i] == titles[..i];
      if titles[i] != [] {
        var clean := Strip(titles[i]);
        if clean != [] {
          roles := roles + [clean];
        }
      }
      i := i + 1;
    }
    assert titles[..i] == titles;
    roles := roles + GenericRoles(field);
    var targetRoles := Take(AppendNew([], roles), MaxTargetRoles);
    s := Suggestions(field, targetRoles, ExperienceBucket(TotalYears(cvData.experienceEntries.GetOr([]))));
  }
}
