/**
 * The profile suggestions of the older, top-level `cv_extraction.py`. Its
 * extraction path (file guards, reply parsing, post-processing, empty
 * structure) is the same as the newer copy's and is taken from
 * `SrcCvExtraction` with the prompt cut at 3000 characters instead of 4000;
 * its `suggest_profile_fields` differs: the field is detected from study
 * fields and job titles only, with a shorter rule list that tries Software
 * before Data, the target roles are the first two job titles, and there is
 * no "None" experience bracket.
 */
module RootCvExtraction {
  import opened Wrappers
  import opened Text
  import opened Seqs
  import Cv = SrcCvExtraction

  /** The older `_create_extraction_prompt` embeds `cv_text[:3000]`. */
  const RootPromptLimit: nat := 3000

  /** Texts that agree on their first 3000 characters yield the same CV data in the older extractor. */
  lemma ExcerptDecides(t1: string, t2: string, llm: string -> Cv.LlmCall, decode: string -> Option<Cv.CvRecord>,
                       uuid: nat -> string)
    requires |Strip(t1)| >= Cv.MinTextLength && |Strip(t2)| >= Cv.MinTextLength
    requires |t1| >= RootPromptLimit && |t2| >= RootPromptLimit && t1[..RootPromptLimit] == t2[..RootPromptLimit]
    ensures Cv.ExtractFromText(t1, RootPromptLimit, llm, decode, uuid).(rawTextPreview := None)
            == Cv.ExtractFromText(t2, RootPromptLimit, llm, decode, uuid).(rawTextPreview := None)
  {
    Cv.ExtractSeesOnlyExcerpt(t1, t2, RootPromptLimit, llm, decode, uuid);
  }

  const RootSoftwareTerms := ["software", "programming", "developer", "engineer"]
  const RootDataTerms := ["data", "analytics", "science", "machine learning"]
  const RootProjectTerms := ["project", "management", "manager"]
  const RootDesignTerms := ["design", "ux", "ui", "graphic"]

  /** The lower-cased study fields and job titles; skills take no part. */
  function AllText(d: Cv.CvRecord): string {
    Lower(Cv.JoinWords(Cv.EducationFields(d) + Cv.JobTitles(d)))
  }

  /** The older field detection: Software, Data, Project, Design, and Software by default. */
  function OverallField(allText: string): (r: string)
    ensures r in [Cv.SoftwareDevelopment, Cv.DataScience, Cv.ProjectManagement, Cv.UxUiDesign]
    ensures r == Cv.DataScience <==> !Cv.Mentions(allText, RootSoftwareTerms) && Cv.Mentions(allText, RootDataTerms)
  {
    if Cv.Mentions(allText, RootSoftwareTerms) then Cv.SoftwareDevelopment
    else if Cv.Mentions(allText, RootDataTerms) then Cv.DataScience
    else if Cv.Mentions(allText, RootProjectTerms) then Cv.ProjectManagement
    else if Cv.Mentions(allText, RootDesignTerms) then Cv.UxUiDesign
    else Cv.SoftwareDevelopment
  }

  const RootFieldRules := [
    Cv.Rule(RootSoftwareTerms, Cv.SoftwareDevelopment), Cv.Rule(RootDataTerms, Cv.DataScience),
    Cv.Rule(RootProjectTerms, Cv.ProjectManagement), Cv.Rule(RootDesignTerms, Cv.UxUiDesign)]

  /** The field is the first-match classification over the four rules in source order, defaulting to Software Development. */
  lemma OverallFieldIsFirstMatch(allText: string)
    ensures OverallField(allText) == Cv.FirstMatch(allText, RootFieldRules, Cv.SoftwareDevelopment)
  {
    var rules := RootFieldRules;
    assert rules[0].terms == RootSoftwareTerms && rules[1].terms == RootDataTerms;
    assert rules[2].terms == RootProjectTerms && rules[3].terms == RootDesignTerms;
    if k :| 0 <= k < |rules| && Cv.Mentions(allText, rules[k].terms) && forall m :: 0 <= m < k ==> !Cv.Mentions(allText, rules[m].terms) {
      Cv.FirstMatchCorrect(allText, rules, Cv.SoftwareDevelopment, k);
    } else {
      forall m | 0 <= m < |rules| ensures !Cv.Mentions(allText, rules[m].terms) {
        if Cv.Mentions(allText, rules[m].terms) {
          var f := Cv.FirstMentioned(allText, rules, m);
        }
      }
      Cv.FirstMatchDefault(allText, rules, Cv.SoftwareDevelopment);
    }
  }

  /**
   * The two copies disagree on a CV that mentions both an engineer and
   * machine learning: the older one answers Software Development, the newer
   * one Data Science & AI.
   */
  lemma SoftwareBeforeData(allText: string)
    requires Contains(allText, "engineer") && Contains(allText, "machine learning")
    ensures OverallField(allText) == Cv.SoftwareDevelopment
    ensures Cv.OverallField(allText) == Cv.DataScience
  {
    assert RootSoftwareTerms[3] == "engineer";
    assert Cv.DataTerms[1] == "machine learning";
  }

  /** The non-empty strings of `xs`, in order (`[x for x in xs if x]`). */
  function NonEmpty(xs: seq<string>): (r: seq<string>)
    ensures |r| <= |xs| && IsSubseq(r, xs)
    ensures forall x :: x in r ==> x != []
    ensures forall x :: x in xs && x != [] ==> x in r
    decreases |xs|
  {
    if xs == [] then []
    else if xs[0] == [] then
      assert forall x :: x in xs ==> x == xs[0] || x in xs[1..];
      NonEmpty(xs[1..])
    else
      var rest := NonEmpty(xs[1..]);
      assert ([xs[0]] + rest)[1..] == rest;
      assert forall x :: x in xs ==> x == xs[0] || x in xs[1..];
      [xs[0]] + rest
  }

  /** `[job.get('job_title', '') for job in experience_entries[:2] if job.get('job_title')]` */
  function TargetRoles(d: Cv.CvRecord): seq<string> {
    NonEmpty(Take(Cv.JobTitles(d), 2))
  }

  /**
   * At most two target roles, each a non-empty title of one of the first two
   * experience entries, in entry order, and every such non-empty title is
   * among them.
   */
  lemma TargetRolesCorrect(d: Cv.CvRecord)
    ensures var r := TargetRoles(d);
            var exp := d.experienceEntries.GetOr([]);
            && |r| <= 2 && IsSubseq(r, Take(Cv.JobTitles(d), 2))
            && (forall x :: x in r ==> x != [] && exists i :: 0 <= i < Min(2, |exp|) && exp[i].jobTitle == x)
            && (forall i :: 0 <= i < Min(2, |exp|) && exp[i].jobTitle != [] ==> exp[i].jobTitle in r)
  {
    var titles := Take(Cv.JobTitles(d), 2);
    var exp := d.experienceEntries.GetOr([]);
    var r := TargetRoles(d);
    SubseqMembers(r, titles);
    forall x | x in r ensures exists i :: 0 <= i < Min(2, |exp|) && exp[i].jobTitle == x {
      var i :| 0 <= i < |titles| && titles[i] == x;
      assert exp[i].jobTitle == x;
    }
    forall i | 0 <= i < Min(2, |exp|) && exp[i].jobTitle != [] ensures exp[i].jobTitle in r {
      assert titles[i] == exp[i].jobTitle;
    }
  }

  /** The older `total_experience` bracket: below one year (zero and negative included) is "0-1 year". */
  function ExperienceBucket(total: real): (r: string)
    ensures r in Cv.ExperienceLabels[1..]
    ensures r == "0-1 year" <==> total < 1.0
  {
    if total >= 15.0 then "15+ years"
    else if total >= 10.0 then "10-15 years"
    else if total >= 5.0 then "5-10 years"
    else if total >= 3.0 then "3-5 years"
    else if total >= 1.0 then "1-3 years"
    else "0-1 year"
  }

  /** The two copies bracket every positive total alike; for no experience the newer one says "None". */
  lemma ExperienceBucketAgrees(total: real)
    ensures total > 0.0 ==> ExperienceBucket(total) == Cv.ExperienceBucket(total)
    ensures total <= 0.0 ==> ExperienceBucket(total) == "0-1 year" && Cv.ExperienceBucket(total) == "None"
  {
  }

  /** `suggest_profile_fields` of the older copy. */
  function SuggestionsOf(d: Cv.CvRecord): Cv.Suggestions {
    Cv.Suggestions(OverallField(AllText(d)), TargetRoles(d), ExperienceBucket(Cv.TotalYears(d.experienceEntries.GetOr([]))))
  }

  /** The suggestions of the older copy never leave the experience empty-handed and never name more than two roles. */
  lemma SuggestionsBounds(d: Cv.CvRecord)
    ensures var s := SuggestionsOf(d);
            && s.overallField in [Cv.SoftwareDevelopment, Cv.DataScience, Cv.ProjectManagement, Cv.UxUiDesign]
            && |s.targetRoles| <= 2
            && s.totalExperience != "None"
  {
    TargetRolesCorrect(d);
  }
}
