/**
 * Skill normalisation and aggregation in `skill_analyzer.py` (the copy under
 * `Backup/` is the same file): the normalisation of one skill name, the
 * parsing of the model's comma-separated reply, the union of matched and
 * suggested skills for one job, and the sorted union over all jobs.
 *
 * The phrase matcher, the model call and the reply cache are parameters. The
 * generic terms are a Python `set`, whose iteration order depends on string
 * hashing; `order` is that iteration order, and nothing proved here assumes a
 * particular one.
 */
module SkillAnalyzer {
  import opened Wrappers
  import opened Text
  import opened Seqs

  // ---------------------------------------------------------------------
  // normalize_skill
  // ---------------------------------------------------------------------

  const GenericTerms: set<string> :=
    {"programming", "development", "software", "it", "cloud", "computer", "technology", "system", "platform"}

  /** No whitespace at either end. */
  predicate Trimmed(s: string) {
    s == [] || (!IsSpace(s[0]) && !IsSpace(s[|s| - 1]))
  }

  /** The alias map, applied with `skill_mapping.get(skill, skill)`. */
  function Alias(s: string): string {
    if s == "js" then "javascript"
    else if s == "py" then "python"
    else if s == "react.js" then "react"
    else if s == "node.js" then "node"
    else s
  }

  predicate IsAliasKey(s: string) {
    s == "js" || s == "py" || s == "react.js" || s == "node.js"
  }

  /** The suffix loop: for each term in turn, a trailing `" " + term` is cut off and the rest stripped. */
  function StripSuffixes(s: string, order: seq<string>): string
    decreases |order|
  {
    if order == [] then s
    else
      var term := order[0];
      StripSuffixes(if EndsWith(s, " " + term) then Strip(s[..|s| - |term|]) else s, order[1..])
  }

  /** `normalize_skill(skill)`, the generic terms visited in `order`. */
  function NormalizedSkill(skill: string, order: seq<string>): Option<string> {
    var s := Strip(Lower(skill));
    if s in GenericTerms then None else Some(Alias(StripSuffixes(s, order)))
  }

  lemma StripLower(s: string)
    requires IsLower(s)
    ensures IsLower(Strip(s)) && Trimmed(Strip(s))
  {
    TrimStartShape(s);
    TrimEndShape(TrimStart(s));
    StripShape(s);
    var t := TrimStart(s);
    assert forall k :: 0 <= k < |t| ==> t[k] == s[|s| - |t| + k];
    assert forall k :: 0 <= k < |Strip(s)| ==> Strip(s)[k] == t[k];
  }

  /** Trailing whitespace removal leaves a string that starts with a non-space character non-empty. */
  lemma {:induction false} TrimEndKeepsFirst(s: string)
    requires s != [] && !IsSpace(s[0])
    ensures TrimEnd(s) != []
    decreases |s|
  {
    if IsSpace(s[|s| - 1]) {
      TrimEndKeepsFirst(s[..|s| - 1]);
    }
  }

  /** One step of the suffix loop keeps a non-empty, lower-case, trimmed string so. */
  lemma SuffixStepKeeps(s: string, term: string)
    requires s != [] && IsLower(s) && Trimmed(s) && EndsWith(s, " " + term)
    ensures var r := Strip(s[..|s| - |term|]);
            r != [] && IsLower(r) && Trimmed(r)
  {
    var p := s[..|s| - |term|];
    assert p[|p| - 1] == s[|s| - |term| - 1] == (" " + term)[0] == ' ';
    assert p[0] == s[0];
    assert TrimStart(p) == p;
    TrimEndKeepsFirst(p);
    StripLower(p);
  }

  lemma {:induction false} StripSuffixesKeeps(s: string, order: seq<string>)
    requires s != [] && IsLower(s) && Trimmed(s)
    ensures var r := StripSuffixes(s, order);
            r != [] && IsLower(r) && Trimmed(r)
    decreases |order|
  {
    if order != [] {
      var term := order[0];
      if EndsWith(s, " " + term) {
        SuffixStepKeeps(s, term);
        StripSuffixesKeeps(Strip(s[..|s| - |term|]), order[1..]);
      } else {
        StripSuffixesKeeps(s, order[1..]);
      }
    }
  }

  /** The alias map keeps a lower-case trimmed string so, never yields an alias spelling, and is empty only on the empty string. */
  lemma AliasKeeps(s: string)
    requires IsLower(s) && Trimmed(s)
    ensures IsLower(Alias(s)) && Trimmed(Alias(s)) && !IsAliasKey(Alias(s))
    ensures Alias(s) == [] <==> s == []
  {
    if IsAliasKey(s) {
      var r := Alias(s);
      assert r == "javascript" || r == "python" || r == "react" || r == "node";
      assert forall k :: 0 <= k < |r| ==> 'a' <= r[k] <= 'z';
    }
  }

  /**
   * The skill is dropped exactly when its lower-cased, stripped form is a
   * generic term; otherwise the result is lower-case, has no surrounding
   * whitespace, is never one of the alias spellings, and is empty only for a
   * blank skill.
   */
  lemma NormalizedSkillCorrect(skill: string, order: seq<string>)
    ensures var r := NormalizedSkill(skill, order);
            && (r.None? <==> Strip(Lower(skill)) in GenericTerms)
            && (r.Some? ==> IsLower(r.value) && Trimmed(r.value) && !IsAliasKey(r.value))
            && (r.Some? ==> (r.value == [] <==> IsBlank(skill)))
  {
    var s := Strip(Lower(skill));
    LowerIsLower(skill);
    StripLower(Lower(skill));
    if s !in GenericTerms {
      if s != [] {
        StripSuffixesKeeps(s, order);
        AliasKeeps(StripSuffixes(s, order));
      } else {
        assert StripSuffixes(s, order) == [] by {
          StripSuffixesOfEmpty(order);
        }
        AliasKeeps(s);
      }
    }
    BlankLower(skill);
  }

  lemma {:induction false} StripSuffixesOfEmpty(order: seq<string>)
    ensures StripSuffixes([], order) == []
    decreases |order|
  {
    if order != [] {
      StripSuffixesOfEmpty(order[1..]);
    }
  }

  /** Lower-casing does not change which characters are whitespace, so blankness is the same before and after. */
  lemma BlankLower(s: string)
    ensures IsBlank(Lower(s)) <==> IsBlank(s)
  {
    BlankIffAllSpace(s);
    BlankIffAllSpace(Lower(s));
  }

  lemma {:induction false} TrimStartAllSpace(s: string)
    ensures TrimStart(s) == [] <==> forall k :: 0 <= k < |s| ==> IsSpace(s[k])
    decreases |s|
  {
    if s != [] && IsSpace(s[0]) {
      TrimStartAllSpace(s[1..]);
      assert forall k :: 1 <= k < |s| ==> s[k] == s[1..][k - 1];
    }
  }

  lemma BlankIffAllSpace(s: string)
    ensures IsBlank(s) <==> forall k :: 0 <= k < |s| ==> IsSpace(s[k])
  {
    TrimStartAllSpace(s);
    TrimStartShape(s);
    var t := TrimStart(s);
    if t != [] {
      TrimEndShape(t);
      if TrimEnd(t) == [] {
        TrimEndKeepsFirst(t);
      }
    }
  }

  /**
   * The result is not checked against the generic terms again: once the
   * loop has visited "programming", "it programming" comes out as "it".
   */
  lemma GenericPairKept(order: seq<string>)
    requires forall k :: 0 <= k < |order| ==> order[k] in GenericTerms
    requires "programming" in order
    ensures NormalizedSkill("it programming", order) == Some("it")
  {
    ItProgrammingNormalForm();
    ItProgrammingSuffixes("it programming", order);
    NormalizedSkillOfNormal("it programming", order);
    AliasOfIt();
  }

  /** A skill already in normal form that is not generic goes straight to the suffix loop. */
  lemma NormalizedSkillOfNormal(s: string, order: seq<string>)
    requires Strip(Lower(s)) == s && s !in GenericTerms
    ensures NormalizedSkill(s, order) == Some(Alias(StripSuffixes(s, order)))
  {
  }

  lemma AliasOfIt()
    ensures Alias("it") == "it"
  {
  }

  /** "it programming" is already lower-case and trimmed, and is not itself a generic term. */
  lemma ItProgrammingNormalForm()
    ensures Strip(Lower("it programming")) == "it programming"
    ensures "it programming" !in GenericTerms
  {
    ItProgrammingLower();
    LowerOfLower("it programming");
    ItProgrammingTrimmed();
    ItProgrammingNotGeneric();
  }

  lemma ItProgrammingLower()
    ensures IsLower("it programming")
  {
    var s := "it programming";
    assert forall k :: 0 <= k < |s| ==> s[k] == ' ' || 'a' <= s[k] <= 'z';
  }

  lemma ItProgrammingTrimmed()
    ensures TrimStart("it programming") == "it programming" && TrimEnd("it programming") == "it programming"
  {
  }

  lemma ItProgrammingNotGeneric()
    ensures "it programming" !in GenericTerms
  {
  }

  /** Among the generic terms only "programming" ends "it programming", and none ends "it". */
  lemma ItProgrammingEnds(term: string)
    requires term in GenericTerms
    ensures EndsWith("it programming", " " + term) <==> term == "programming"
    ensures !EndsWith("it", " " + term)
  {
    GenericTermLengths(term);
    var s := "it programming";
    if EndsWith(s, " " + term) {
      var k := |s| - |term| - 1;
      assert s[k] == (" " + term)[0] == ' ';
      assert forall i :: 0 <= i < |s| && i != 2 ==> s[i] != ' ';
      assert k == 2 && |term| == 11;
      assert term[0] == (" " + term)[1] == s[3] == 'p';
    }
    if term == "programming" {
      assert s[|s| - |" " + term|..] == " " + term;
    }
  }

  /** The generic terms have 2 to 11 letters, and "programming" is the only one of 11 letters starting with 'p'. */
  lemma GenericTermLengths(term: string)
    requires term in GenericTerms
    ensures 2 <= |term| <= 11
    ensures |term| == 11 && term[0] == 'p' ==> term == "programming"
  {
  }

  lemma {:induction false} ItProgrammingSuffixes(s: string, order: seq<string>)
    requires s == "it programming" || s == "it"
    requires forall k :: 0 <= k < |order| ==> order[k] in GenericTerms
    ensures StripSuffixes(s, order) == if s == "it" || "programming" in order then "it" else "it programming"
    decreases |order|
  {
    if order != [] {
      var term := order[0];
      ItProgrammingEnds(term);
      var next := if EndsWith(s, " " + term) then Strip(s[..|s| - |term|]) else s;
      if s == "it programming" && term == "programming" {
        assert s[..|s| - |term|] == "it ";
        assert TrimEnd("it ") == TrimEnd("it") == "it";
        assert next == "it";
      }
      ItProgrammingSuffixes(next, order[1..]);
      assert "programming" in order <==> term == "programming" || "programming" in order[1..];
    }
  }

  /** `normalize_skill`: the membership test, then the suffix loop over the generic terms, then the alias map. */
  method NormalizeSkill(skill: string, order: seq<string>) returns (r: Option<string>)
    ensures r == NormalizedSkill(skill, order)
  {
    var s := Strip(Lower(skill));
    if s in GenericTerms {
      return None;
    }
    var i := 0;
    while i < |order|
      invariant 0 <= i <= |order|
      invariant StripSuffixes(s, order[i..]) == StripSuffixes(Strip(Lower(skill)), order)
    {
      assert order[i..][1..] == order[i + 1..];
      var term := order[i];
      if EndsWith(s, " " + term) {
        s := Strip(s[..|s| - |term|]);
      }
      i := i + 1;
    }
    assert order[i..] == [];
    r := Some(Alias(s));
  }

  // ---------------------------------------------------------------------
  // get_llm_skills: parsing the reply
  // ---------------------------------------------------------------------

  /** Each non-blank piece, stripped and normalised, when normalisation keeps a non-empty skill. */
  function NormalizedPieces(pieces: seq<string>, order: seq<string>): seq<string>
    decreases |pieces|
  {
    if pieces == [] then []
    else
      var p := Strip(pieces[0]);
      var kept := if p == [] then [] else match NormalizedSkill(p, order)
        case Some(x) => if x != [] then [x] else []
        case None => [];
      kept + NormalizedPieces(pieces[1..], order)
  }

  /** The reply split on commas and normalised: the `new_skills` list that is cached. */
  function ParsedSkills(content: string, order: seq<string>): seq<string> {
    NormalizedPieces(Split(Strip(content), ','), order)
  }

  /** A skill is in the parsed list exactly when it is the normalisation of a non-blank piece. */
  lemma {:induction false} NormalizedPiecesMembers(pieces: seq<string>, order: seq<string>)
    ensures forall x :: x in NormalizedPieces(pieces, order) <==>
              x != [] && exists k :: 0 <= k < |pieces| && Strip(pieces[k]) != [] && NormalizedSkill(Strip(pieces[k]), order) == Some(x)
    decreases |pieces|
  {
    if pieces != [] {
      NormalizedPiecesMembers(pieces[1..], order);
      forall x
        ensures (exists k :: 0 <= k < |pieces| && Strip(pieces[k]) != [] && NormalizedSkill(Strip(pieces[k]), order) == Some(x))
                <==> (Strip(pieces[0]) != [] && NormalizedSkill(Strip(pieces[0]), order) == Some(x))
                     || exists k :: 0 <= k < |pieces[1..]| && Strip(pieces[1..][k]) != [] && NormalizedSkill(Strip(pieces[1..][k]), order) == Some(x)
      {
        if k :| 0 <= k < |pieces| && Strip(pieces[k]) != [] && NormalizedSkill(Strip(pieces[k]), order) == Some(x) {
          if k > 0 {
            assert pieces[1..][k - 1] == pieces[k];
          }
        }
        if k :| 0 <= k < |pieces[1..]| && Strip(pieces[1..][k]) != [] && NormalizedSkill(Strip(pieces[1..][k]), order) == Some(x) {
          assert pieces[k + 1] == pieces[1..][k];
        }
      }
    }
  }

  /** What the chat-completion call gave: the reply content, or an exception. */
  datatype SkillCall = SkillReply(content: string) | SkillCallRaised

  /** The skills returned and what was written to the reply cache. */
  datatype LlmSkills = LlmSkills(skills: seq<string>, cacheWrite: Option<seq<string>>)

  /**
   * `get_llm_skills`: without a client nothing; a cached list is returned as
   * it is; an exception gives nothing; otherwise the parsed list is cached
   * and its distinct elements returned.
   */
  function GetLlmSkills(clientSet: bool, cached: Option<seq<string>>, call: SkillCall, order: seq<string>): LlmSkills {
    if !clientSet then LlmSkills([], None)
    else if cached.Some? then LlmSkills(cached.value, None)
    else match call
      case SkillCallRaised => LlmSkills([], None)
      case SkillReply(content) =>
        var parsed := ParsedSkills(content, order);
        LlmSkills(AppendNew([], parsed), Some(parsed))
  }

  /**
   * Without a client nothing is returned or cached; a cache hit is returned
   * unchanged; an exception gives nothing.
   */
  lemma GetLlmSkillsCases(clientSet: bool, cached: Option<seq<string>>, call: SkillCall, order: seq<string>)
    ensures var r := GetLlmSkills(clientSet, cached, call, order);
            && (!clientSet || (cached.None? && call.SkillCallRaised?) ==> r == LlmSkills([], None))
            && (clientSet && cached.Some? ==> r.skills == cached.value && r.cacheWrite.None?)
            && (clientSet && cached.None? && call.SkillReply? ==> r == GetLlmSkills(true, None, call, order))
  {
  }

  /**
   * A fresh reply yields the distinct skills of the parsed list (the
   * normalisations of its non-blank comma-separated pieces, as
   * `NormalizedPiecesMembers` says), and the list written to the cache is
   * that parsed list before deduplication.
   */
  lemma FreshReplySkills(content: string, order: seq<string>)
    ensures var r := GetLlmSkills(true, None, SkillReply(content), order);
            && Distinct(r.skills)
            && r.cacheWrite == Some(ParsedSkills(content, order))
            && (forall x :: x in r.skills <==> x in ParsedSkills(content, order))
  {
    AppendNewCorrect([], ParsedSkills(content, order));
  }

  /**
   * The cache keeps the list before deduplication: a later call that hits it
   * returns the same skills as the call that wrote it, possibly repeated.
   */
  lemma CacheRoundTrip(content: string, order: seq<string>, call: SkillCall)
    ensures var first := GetLlmSkills(true, None, SkillReply(content), order);
            var second := GetLlmSkills(true, first.cacheWrite, call, order);
            forall x :: x in second.skills <==> x in first.skills
  {
    AppendNewCorrect([], ParsedSkills(content, order));
  }

  // ---------------------------------------------------------------------
  // process_job and aggregate_skills
  // ---------------------------------------------------------------------

  /** The result of one job; the timings are not modelled. */
  datatype JobSkills = JobSkills(jobId: int, matchedSkills: seq<string>, llmSuggestedSkills: seq<string>,
                                 finalSkills: seq<string>)

  /** `process_job`: `final_skills` is `list(set(matched + llm))`. */
  function ProcessJob(jobId: int, matched: seq<string>, llm: seq<string>): (r: JobSkills)
    ensures r.jobId == jobId && r.matchedSkills == matched && r.llmSuggestedSkills == llm
    ensures Distinct(r.finalSkills)
    ensures forall x :: x in r.finalSkills <==> x in matched || x in llm
  {
    AppendNewCorrect([], matched + llm);
    JobSkills(jobId, matched, llm, AppendNew([], matched + llm))
  }

  /** Python's `<` on strings: code point by code point, a proper prefix first. */
  predicate LexLess(a: string, b: string)
    decreases |a|
  {
    b != [] && (a == [] || a[0] < b[0] || (a[0] == b[0] && LexLess(a[1..], b[1..])))
  }

  lemma {:induction false} LexLessIrreflexive(a: string)
    ensures !LexLess(a, a)
    decreases |a|
  {
    if a != [] {
      LexLessIrreflexive(a[1..]);
    }
  }

  lemma {:induction false} LexLessTransitive(a: string, b: string, c: string)
    requires LexLess(a, b) && LexLess(b, c)
    ensures LexLess(a, c)
    decreases |a|
  {
    if a != [] && a[0] == b[0] && b[0] == c[0] {
      LexLessTransitive(a[1..], b[1..], c[1..]);
    }
  }

  lemma {:induction false} LexLessTotal(a: string, b: string)
    requires a != b
    ensures LexLess(a, b) || LexLess(b, a)
    decreases |a|
  {
    if a != [] && b != [] && a[0] == b[0] {
      assert a == [a[0]] + a[1..] && b == [b[0]] + b[1..];
      LexLessTotal(a[1..], b[1..]);
    }
  }

  /** Strictly increasing, so sorted and without duplicates. */
  predicate StrictlySorted(s: seq<string>) {
    forall i, j :: 0 <= i < j < |s| ==> LexLess(s[i], s[j])
  }

  function InsertSorted(x: string, s: seq<string>): seq<string>
    decreases |s|
  {
    if s == [] then [x]
    else if LexLess(s[0], x) then [s[0]] + InsertSorted(x, s[1..])
    else [x] + s
  }

  /** `sorted(xs)` */
  function SortStrings(xs: seq<string>): seq<string>
    decreases |xs|
  {
    if xs == [] then [] else InsertSorted(xs[0], SortStrings(xs[1..]))
  }

  lemma {:induction false} InsertSortedCorrect(x: string, s: seq<string>)
    requires StrictlySorted(s) && x !in s
    ensures StrictlySorted(InsertSorted(x, s))
    ensures forall y :: y in InsertSorted(x, s) <==> y == x || y in s
    ensures |InsertSorted(x, s)| == |s| + 1
    decreases |s|
  {
    if s != [] {
      if LexLess(s[0], x) {
        InsertSortedCorrect(x, s[1..]);
        var r := [s[0]] + InsertSorted(x, s[1..]);
        forall j | 0 < j < |r| ensures LexLess(r[0], r[j]) {
          if r[j] == x {
          } else {
            assert r[j] in s[1..];
            var k :| 0 <= k < |s[1..]| && s[1..][k] == r[j];
            assert s[k + 1] == r[j];
          }
        }
      } else {
        LexLessTotal(x, s[0]);
        var r := [x] + s;
        forall j | 0 < j < |r| ensures LexLess(r[0], r[j]) {
          if j > 1 {
            LexLessTransitive(x, s[0], s[j - 1]);
          }
        }
      }
    }
  }

  /** Sorting a duplicate-free list gives a strictly increasing list with the same elements. */
  lemma {:induction false} SortStringsCorrect(xs: seq<string>)
    requires Distinct(xs)
    ensures StrictlySorted(SortStrings(xs))
    ensures forall y :: y in SortStrings(xs) <==> y in xs
    ensures |SortStrings(xs)| == |xs|
    decreases |xs|
  {
    if xs != [] {
      assert Distinct(xs[1..]) by {
        forall i, j | 0 <= i < j < |xs[1..]| ensures xs[1..][i] != xs[1..][j] {
          assert xs[1..][i] == xs[i + 1] && xs[1..][j] == xs[j + 1];
        }
      }
      SortStringsCorrect(xs[1..]);
      assert xs[0] !in xs[1..] by {
        forall k | 0 <= k < |xs[1..]| ensures xs[1..][k] != xs[0] {
          assert xs[1..][k] == xs[k + 1];
        }
      }
      InsertSortedCorrect(xs[0], SortStrings(xs[1..]));
      assert forall y :: y in xs <==> y == xs[0] || y in xs[1..];
    }
  }

  /** Two strictly increasing lists with the same elements are the same list: `sorted` of a set depends only on the set. */
  lemma {:induction false} StrictlySortedUnique(a: seq<string>, b: seq<string>)
    requires StrictlySorted(a) && StrictlySorted(b)
    requires forall y :: y in a <==> y in b
    ensures a == b
    decreases |a|
  {
    assert b != [] ==> b[0] in b;
    if a != [] {
      assert a[0] in b;
      var k :| 0 <= k < |b| && b[k] == a[0];
      assert b[0] in a;
      var m :| 0 <= m < |a| && a[m] == b[0];
      if k != 0 && m != 0 {
        LexLessTransitive(a[0], b[0], a[0]);
        LexLessIrreflexive(a[0]);
      }
      assert a[0] == b[0];
      forall y ensures y in a[1..] <==> y in b[1..] {
        TailMember(a, y);
        TailMember(b, y);
      }
      StrictlySortedUnique(a[1..], b[1..]);
    }
  }

  /** In a strictly increasing list, the tail holds exactly the members other than the head. */
  lemma TailMember(s: seq<string>, y: string)
    requires StrictlySorted(s) && s != []
    ensures y in s[1..] <==> y in s && y != s[0]
  {
    if y in s[1..] {
      var k :| 0 <= k < |s[1..]| && s[1..][k] == y;
      assert LexLess(s[0], s[k + 1]);
      LexLessIrreflexive(y);
    }
    if y in s && y != s[0] {
      var m :| 0 <= m < |s| && s[m] == y;
      assert s[1..][m - 1] == y;
    }
  }

  /** The three sorted lists of `aggregate_skills`. */
  datatype Aggregate = Aggregate(nerSkills: seq<string>, llmSkills: seq<string>, combinedSkills: seq<string>)

  /**
   * `aggregate_skills`: three sets updated job by job, each returned sorted.
   * Each list is strictly increasing (sorted, no duplicates) and holds
   * exactly the union of the corresponding per-job lists; when every job's
   * final list is the union of its two others, the combined list is the union
   * of the other two aggregates.
   */
  method AggregateSkills(results: seq<JobSkills>) returns (agg: Aggregate)
    ensures StrictlySorted(agg.nerSkills) && StrictlySorted(agg.llmSkills) && StrictlySorted(agg.combinedSkills)
    ensures forall x :: x in agg.nerSkills <==> exists i :: 0 <= i < |results| && x in results[i].matchedSkills
    ensures forall x :: x in agg.llmSkills <==> exists i :: 0 <= i < |results| && x in results[i].llmSuggestedSkills
    ensures forall x :: x in agg.combinedSkills <==> exists i :: 0 <= i < |results| && x in results[i].finalSkills
    ensures (forall i :: 0 <= i < |results| ==>
               forall x :: x in results[i].finalSkills <==> x in results[i].matchedSkills || x in results[i].llmSuggestedSkills)
            ==> forall x :: x in agg.combinedSkills <==> x in agg.nerSkills || x in agg.llmSkills
  {
    var ner: seq<string> := [];
    var llm: seq<string> := [];
    var combined: seq<string> := [];
    var i := 0;
    while i < |results|
      invariant 0 <= i <= |results|
      invariant Distinct(ner) && Distinct(llm) && Distinct(combined)
      invariant forall x :: x in ner <==> exists k :: 0 <= k < i && x in results[k].matchedSkills
      invariant forall x :: x in llm <==> exists k :: 0 <= k < i && x in results[k].llmSuggestedSkills
      invariant forall x :: x in combined <==> exists k :: 0 <= k < i && x in results[k].finalSkills
    {
      AppendNewCorrect(ner, results[i].matchedSkills);
      AppendNewCorrect(llm, results[i].llmSuggestedSkills);
      AppendNewCorrect(combined, results[i].finalSkills);
      ner := AppendNew(ner, results[i].matchedSkills);
      llm := AppendNew(llm, results[i].llmSuggestedSkills);
      combined := AppendNew(combined, results[i].finalSkills);
      i := i + 1;
    }
    SortStringsCorrect(ner);
    SortStringsCorrect(llm);
    SortStringsCorrect(combined);
    agg := Aggregate(SortStrings(ner), SortStrings(llm), SortStrings(combined));
    CombinedIsUnion(results, agg.nerSkills, agg.llmSkills, agg.combinedSkills);
  }

  /** When every job's final list is the union of its two others, so are the lists gathered from all jobs. */
  lemma CombinedIsUnion(results: seq<JobSkills>, ner: seq<string>, llm: seq<string>, combined: seq<string>)
    requires forall x :: x in ner <==> exists i :: 0 <= i < |results| && x in results[i].matchedSkills
    requires forall x :: x in llm <==> exists i :: 0 <= i < |results| && x in results[i].llmSuggestedSkills
    requires forall x :: x in combined <==> exists i :: 0 <= i < |results| && x in results[i].finalSkills
    ensures (forall i :: 0 <= i < |results| ==>
               forall x :: x in results[i].finalSkills <==> x in results[i].matchedSkills || x in results[i].llmSuggestedSkills)
            ==> forall x :: x in combined <==> x in ner || x in llm
  {
  }
}
