/**
 * The profile-to-job matcher of `src/skillscope/core/profile_job_matcher.py`:
 * keyword relevance scoring, deduplication of freshly scraped postings,
 * search-term enhancement, the mapping of a user profile to scraper
 * parameters, the live-search-then-database-fallback flow, the database
 * matching with its score write-back, and the set-style replacement of a
 * profile's sub-collections.
 *
 * The scraper, the database queries and the profile store are parameters:
 * the model receives what they returned (or that they raised).
 */
module SrcMatcher {
  import opened Wrappers
  import opened Text
  import Seqs

  /** Where and how a live posting was found (`search_source`, `search_term_used`, `location_searched`). */
  datatype SearchTag = SearchTag(source: string, term: string, location: string)

  /**
   * A posting as a dictionary of the matcher: the fields it reads, plus the
   * ones it writes. A title or description the scraper left as `None` or
   * NaN is `None`.
   */
  datatype Job = Job(
    title: Option<string>,
    company: string,
    location: string,
    description: Option<string>,
    relevance: Option<int>,
    tag: Option<SearchTag>)

  /** The profile form fields the search reads. */
  datatype ProfileData = ProfileData(
    jobTitleKeywords: seq<string>,
    preferredLocations: seq<string>,
    jobTypes: seq<string>,
    remoteOpenness: Option<string>)

  datatype SearchParams = SearchParams(
    jobTitles: seq<string>,
    locations: seq<string>,
    jobTypes: seq<string>,
    originalJobTypes: seq<string>,
    remotePreference: string)

  // ---------------------------------------------------------------------
  // Fixed tables
  // ---------------------------------------------------------------------

  /** The job types the scraper accepts. */
  predicate IsScraperJobType(t: string) {
    t == "fulltime" || t == "parttime" || t == "internship" || t == "contract"
  }

  /** `job_type_mapping`: profile job types to scraper job types. */
  function JobTypeMapping(t: string): (r: Option<string>)
    ensures r.Some? ==> IsScraperJobType(r.value)
  {
    if t == "Full-time" then Some("fulltime")
    else if t == "Part-time" then Some("parttime")
    else if t == "Internship" then Some("internship")
    else if t == "Temporary" then Some("contract")
    else if t == "Permanent" then Some("fulltime")
    else if t == "Student job" then Some("parttime")
    else if t == "Volunteer work" then Some("parttime")
    else if t == "New graduate" then Some("fulltime")
    else if t == "Apprentice" then Some("internship")
    else None
  }

  /** `search_term_modifiers`; a job type without an entry has no modifiers. */
  function SearchTermModifiers(t: string): seq<string> {
    if t == "Student job" then ["student"]
    else if t == "New graduate" then ["graduate"]
    else if t == "Volunteer work" then ["volunteer"]
    else if t == "Apprentice" then ["trainee"]
    else []
  }

  // ---------------------------------------------------------------------
  // Relevance score
  // ---------------------------------------------------------------------

  /** What one keyword adds: 20 for a title hit, otherwise 10 for a description hit. */
  function KeywordPoints(title: string, description: string, keyword: string): int {
    if Contains(Lower(title), Lower(keyword)) then 20
    else if Contains(Lower(description), Lower(keyword)) then 10
    else 0
  }

  /** The points of all keywords, summed from the first to the last. */
  function KeywordTotal(title: string, description: string, keywords: seq<string>): int
    decreases |keywords|
  {
    if keywords == [] then 0
    else KeywordTotal(title, description, keywords[..|keywords| - 1])
         + KeywordPoints(title, description, keywords[|keywords| - 1])
  }

  /** The relevance score: base 30 plus the keyword points, capped at 100. */
  function RelevanceScore(title: string, description: string, keywords: seq<string>): int {
    Seqs.Min(100, 30 + KeywordTotal(title, description, keywords))
  }

  lemma {:induction false} KeywordTotalNonNegative(title: string, description: string, keywords: seq<string>)
    ensures KeywordTotal(title, description, keywords) >= 0
    decreases |keywords|
  {
    if keywords != [] {
      KeywordTotalNonNegative(title, description, keywords[..|keywords| - 1]);
    }
  }

  lemma {:induction false} KeywordTotalAppend(title: string, description: string, a: seq<string>, b: seq<string>)
    ensures KeywordTotal(title, description, a + b)
            == KeywordTotal(title, description, a) + KeywordTotal(title, description, b)
    decreases |b|
  {
    if b != [] {
      var b' := b[..|b| - 1];
      assert (a + b)[..|a + b| - 1] == a + b';
      assert (a + b)[|a + b| - 1] == b[|b| - 1];
      KeywordTotalAppend(title, description, a, b');
    } else {
      assert a + b == a;
    }
  }

  /** The score is always in [30, 100], and exactly 30 when there are no keywords. */
  lemma RelevanceScoreBounds(title: string, description: string, keywords: seq<string>)
    ensures 30 <= RelevanceScore(title, description, keywords) <= 100
    ensures keywords == [] ==> RelevanceScore(title, description, keywords) == 30
  {
    KeywordTotalNonNegative(title, description, keywords);
  }

  /** Adding keywords never lowers the score. */
  lemma RelevanceScoreMonotone(title: string, description: string, keywords: seq<string>, more: seq<string>)
    ensures RelevanceScore(title, description, keywords) <= RelevanceScore(title, description, keywords + more)
  {
    KeywordTotalAppend(title, description, keywords, more);
    KeywordTotalNonNegative(title, description, more);
  }

  /** `_calculate_enhanced_relevance_score` */
  method CalculateRelevanceScore(jobTitle: string, jobDescription: string, keywords: seq<string>) returns (score: int)
    ensures score == RelevanceScore(jobTitle, jobDescription, keywords)
    ensures 30 <= score <= 100
  {
    score := 30;
    var title := Lower(jobTitle);
    var description := Lower(jobDescription);
    var i := 0;
    while i < |keywords|
      invariant 0 <= i <= |keywords|
      invariant score == 30 + KeywordTotal(jobTitle, jobDescription, keywords[..i])
    {
      var keyword := Lower(keywords[i]);
      assert keywords[..i + 1][..i] == keywords[..i];
      if Contains(title, keyword) {
        score := score + 20;
      } else if Contains(description, keyword) {
        score := score + 10;
      }
      i := i + 1;
    }
    assert keywords[..i] == keywords;
    score := Seqs.Min(100, score);
    RelevanceScoreBounds(jobTitle, jobDescription, keywords);
  }

  // ---------------------------------------------------------------------
  // Deduplication of fresh postings
  // ---------------------------------------------------------------------

  /** Python's `str` of an optional text field. */
  function StrOf(o: Option<string>): string {
    if o.Some? then o.value else "None"
  }

  /** The (title, company, location) key, each part's `str` stripped and lower-cased. */
  function FreshKey(j: Job): (string, string, string) {
    (Lower(Strip(StrOf(j.title))), Lower(Strip(j.company)), Lower(Strip(j.location)))
  }

  /** `_deduplicate_fresh_jobs`: the first posting of each key, in input order. */
  method DeduplicateFreshJobs(jobs: seq<Job>) returns (unique: seq<Job>)
    ensures unique == Seqs.DedupBy(jobs, FreshKey, {})
    ensures Seqs.IsSubseq(unique, jobs)
    ensures forall i, j :: 0 <= i < j < |unique| ==> FreshKey(unique[i]) != FreshKey(unique[j])
    ensures forall j :: 0 <= j < |jobs| && Seqs.FirstOfKey(jobs, FreshKey, j) ==> jobs[j] in unique
  {
    unique := Seqs.DedupFirst(jobs, FreshKey);
    DedupFreshFacts(jobs);
  }

  /** What the first-of-key deduplication keeps, for the fresh-posting key. */
  lemma DedupFreshFacts(jobs: seq<Job>)
    ensures var unique := Seqs.DedupBy(jobs, FreshKey, {});
            && Seqs.IsSubseq(unique, jobs)
            && (forall i, j :: 0 <= i < j < |unique| ==> FreshKey(unique[i]) != FreshKey(unique[j]))
            && (forall j :: 0 <= j < |jobs| && Seqs.FirstOfKey(jobs, FreshKey, j) ==> jobs[j] in unique)
  {
    Seqs.DedupBySubseqDistinct(jobs, FreshKey, {});
    forall j | 0 <= j < |jobs| && Seqs.FirstOfKey(jobs, FreshKey, j) ensures jobs[j] in Seqs.DedupBy(jobs, FreshKey, {}) {
      Seqs.DedupByKeepsFirst(jobs, FreshKey, {}, j);
    }
  }

  // ---------------------------------------------------------------------
  // Search-term enhancement
  // ---------------------------------------------------------------------

  /** The modifiers of all job types, in order. */
  function ModifiersOf(jobTypes: seq<string>): seq<string>
    decreases |jobTypes|
  {
    if jobTypes == [] then [] else SearchTermModifiers(jobTypes[0]) + ModifiersOf(jobTypes[1..])
  }

  /** The term and the modifiers added so far, after considering each of `mods` in turn. */
  function EnhanceWith(term: string, added: seq<string>, mods: seq<string>): (string, seq<string>)
    decreases |mods|
  {
    if mods == [] then (term, added)
    else if !Contains(Lower(term), mods[0]) && mods[0] !in added
    then EnhanceWith(term + " " + mods[0], added + [mods[0]], mods[1..])
    else EnhanceWith(term, added, mods[1..])
  }

  /** The search term with every new modifier of the job types appended after a space. */
  function EnhancedTerm(base: string, jobTypes: seq<string>): string {
    EnhanceWith(base, [], ModifiersOf(jobTypes)).0
  }

  /**
   * Enhancement only appends: the result starts with the term it was given, the
   * modifiers it appended are pairwise different, and every lower-case modifier
   * considered ends up in the lower-cased result.
   */
  lemma {:induction false} EnhanceWithCorrect(term: string, added: seq<string>, mods: seq<string>)
    requires Seqs.Distinct(added)
    requires forall a :: a in added && IsLower(a) ==> Contains(Lower(term), a)
    ensures StartsWith(EnhanceWith(term, added, mods).0, term)
    ensures Seqs.Distinct(EnhanceWith(term, added, mods).1)
    ensures added <= EnhanceWith(term, added, mods).1
    ensures forall m :: m in mods && IsLower(m) ==> Contains(Lower(EnhanceWith(term, added, mods).0), m)
    decreases |mods|
  {
    if mods != [] {
      var m := mods[0];
      if !Contains(Lower(term), m) && m !in added {
        var term' := term + " " + m;
        LowerAppend(term, " " + m);
        assert term' == term + (" " + m);
        forall a | a in added + [m] && IsLower(a) ensures Contains(Lower(term'), a) {
          if a == m {
            LowerAppend(term + " ", m);
            LowerOfLower(m);
            ContainsSuffix(Lower(term + " "), m);
          } else {
            ContainsExtend(Lower(term), Lower(" " + m), a);
          }
        }
        EnhanceWithCorrect(term', added + [m], mods[1..]);
        if IsLower(m) {
          EnhancedKeeps(term', added + [m], mods[1..], m);
        }
      } else {
        EnhanceWithCorrect(term, added, mods[1..]);
        if IsLower(m) {
          EnhancedKeeps(term, added, mods[1..], m);
        }
      }
      assert forall x :: x in mods ==> x == m || x in mods[1..];
    }
  }

  /** A modifier already present in the lower-cased term stays present. */
  lemma {:induction false} EnhancedKeeps(term: string, added: seq<string>, mods: seq<string>, m: string)
    requires Contains(Lower(term), m)
    ensures Contains(Lower(EnhanceWith(term, added, mods).0), m)
    decreases |mods|
  {
    if mods != [] {
      if !Contains(Lower(term), mods[0]) && mods[0] !in added {
        var term' := term + " " + mods[0];
        LowerAppend(term, " " + mods[0]);
        assert term' == term + (" " + mods[0]);
        ContainsExtend(Lower(term), Lower(" " + mods[0]), m);
        EnhancedKeeps(term', added + [mods[0]], mods[1..], m);
      } else {
        EnhancedKeeps(term, added, mods[1..], m);
      }
    }
  }

  /** Job types without modifiers leave the term unchanged. */
  lemma {:induction false} EnhancedTermUnmapped(base: string, jobTypes: seq<string>)
    requires forall t :: t in jobTypes ==> SearchTermModifiers(t) == []
    ensures EnhancedTerm(base, jobTypes) == base
  {
    assert ModifiersOf(jobTypes) == [] by {
      UnmappedHaveNoModifiers(jobTypes);
    }
  }

  lemma {:induction false} UnmappedHaveNoModifiers(jobTypes: seq<string>)
    requires forall t :: t in jobTypes ==> SearchTermModifiers(t) == []
    ensures ModifiersOf(jobTypes) == []
    decreases |jobTypes|
  {
    if jobTypes != [] {
      UnmappedHaveNoModifiers(jobTypes[1..]);
    }
  }

  /**
   * The enhanced term starts with the base term, and every modifier of the
   * given job types occurs in it once lower-cased.
   */
  lemma EnhancedTermCorrect(base: string, jobTypes: seq<string>)
    ensures StartsWith(EnhancedTerm(base, jobTypes), base)
    ensures forall t, m :: t in jobTypes && m in SearchTermModifiers(t) ==> Contains(Lower(EnhancedTerm(base, jobTypes)), m)
  {
    var mods := ModifiersOf(jobTypes);
    EnhanceWithCorrect(base, [], mods);
    forall t, m | t in jobTypes && m in SearchTermModifiers(t)
      ensures m in mods && IsLower(m)
    {
      var j :| 0 <= j < |jobTypes| && jobTypes[j] == t;
      ModifiersOfHas(jobTypes, j);
      ModifiersAreLower(t);
    }
  }

  lemma ModifiersAreLower(t: string)
    ensures forall m :: m in SearchTermModifiers(t) ==> IsLower(m)
  {
  }

  lemma {:induction false} ModifiersOfHas(jobTypes: seq<string>, j: int)
    requires 0 <= j < |jobTypes|
    ensures forall m :: m in SearchTermModifiers(jobTypes[j]) ==> m in ModifiersOf(jobTypes)
    decreases j
  {
    if j > 0 {
      ModifiersOfHas(jobTypes[1..], j - 1);
      assert jobTypes[1..][j - 1] == jobTypes[j];
    }
  }

  /**
   * The inner loop of `enhance_search_term_for_job_type`: each modifier not
   * yet in the lower-cased term and not yet added is appended after a space.
   * Going on with `rest` afterwards ends where considering `modifiers + rest`
   * would.
   */
  method AddModifiers(term: string, added: seq<string>, modifiers: seq<string>, ghost rest: seq<string>)
    returns (term': string, added': seq<string>)
    ensures EnhanceWith(term', added', rest) == EnhanceWith(term, added, modifiers + rest)
  {
    term', added' := term, added;
    var k := 0;
    while k < |modifiers|
      invariant 0 <= k <= |modifiers|
      invariant EnhanceWith(term', added', modifiers[k..] + rest) == EnhanceWith(term, added, modifiers + rest)
    {
      var modifier := modifiers[k];
      assert (modifiers[k..] + rest)[1..] == modifiers[k + 1..] + rest;
      if !Contains(Lower(term'), modifier) && modifier !in added' {
        term' := term' + " " + modifier;
        added' := added' + [modifier];
      }
      k := k + 1;
    }
    assert modifiers[k..] + rest == rest;
  }

  /** `enhance_search_term_for_job_type` */
  method EnhanceSearchTerm(base: string, jobTypes: seq<string>) returns (enhanced: string)
    ensures enhanced == EnhancedTerm(base, jobTypes)
    ensures StartsWith(enhanced, base)
    ensures forall t, m :: t in jobTypes && m in SearchTermModifiers(t) ==> Contains(Lower(enhanced), m)
  {
    enhanced := base;
    var added: seq<string> := [];
    var i := 0;
    while i < |jobTypes|
      invariant 0 <= i <= |jobTypes|
      invariant EnhanceWith(enhanced, added, ModifiersOf(jobTypes[i..])) == EnhanceWith(base, [], ModifiersOf(jobTypes))
    {
      var modifiers := SearchTermModifiers(jobTypes[i]);
      assert ModifiersOf(jobTypes[i..]) == modifiers + ModifiersOf(jobTypes[i + 1..]) by {
        assert jobTypes[i..][1..] == jobTypes[i + 1..];
      }
      enhanced, added := AddModifiers(enhanced, added, modifiers, ModifiersOf(jobTypes[i + 1..]));
      i := i + 1;
    }
    assert jobTypes[i..] == [];
    EnhancedTermCorrect(base, jobTypes);
  }

  // ---------------------------------------------------------------------
  // Search parameters
  // ---------------------------------------------------------------------

  /** The fixed region and municipality names, already lower-cased. */
  function KnownLocation(lowered: string): Option<string> {
    if lowered == "hovedstaden" || lowered == "københavn" || lowered == "københavns kommune" then Some("copenhagen, denmark")
    else if lowered == "midtjylland" || lowered == "aarhus kommune" then Some("aarhus, denmark")
    else if lowered == "nordjylland" || lowered == "aalborg kommune" then Some("aalborg, denmark")
    else if lowered == "syddanmark" || lowered == "odense kommune" then Some("odense, denmark")
    else if lowered == "esbjerg kommune" then Some("esbjerg, denmark")
    else None
  }

  /** The scraper location for a preferred Danish location. */
  function MapLocation(location: string): string {
    match KnownLocation(Lower(location))
    case Some(l) => l
    case None => Lower(RemoveAll(location, " kommune")) + ", denmark"
  }

  lemma KnownLocationDenmark(lowered: string)
    ensures KnownLocation(lowered).Some? ==> EndsWith(KnownLocation(lowered).value, ", denmark")
  {
    assert "copenhagen, denmark" == "copenhagen" + ", denmark";
    assert "aarhus, denmark" == "aarhus" + ", denmark";
    assert "aalborg, denmark" == "aalborg" + ", denmark";
    assert "odense, denmark" == "odense" + ", denmark";
    assert "esbjerg, denmark" == "esbjerg" + ", denmark";
  }

  /** Every mapped location names a place in Denmark. */
  lemma MapLocationDenmark(location: string)
    ensures EndsWith(MapLocation(location), ", denmark")
  {
    KnownLocationDenmark(Lower(location));
  }

  function MapLocations(locations: seq<string>): (r: seq<string>)
    ensures |r| == |locations| && forall i :: 0 <= i < |r| ==> r[i] == MapLocation(locations[i])
  {
    if locations == [] then [] else [MapLocation(locations[0])] + MapLocations(locations[1..])
  }

  /** The scraper job types of the profile's job types, unmapped ones dropped. */
  function MapJobTypes(jobTypes: seq<string>): (r: seq<string>)
    ensures forall t :: t in r ==> IsScraperJobType(t)
  {
    if jobTypes == [] then []
    else match JobTypeMapping(jobTypes[0])
      case Some(t) => [t] + MapJobTypes(jobTypes[1..])
      case None => MapJobTypes(jobTypes[1..])
  }

  function SearchLocations(preferred: seq<string>): seq<string> {
    var l := Seqs.AppendNew([], MapLocations(preferred));
    if l == [] then ["copenhagen, denmark"] else l
  }

  function SearchJobTypes(jobTypes: seq<string>): seq<string> {
    var t := Seqs.AppendNew([], MapJobTypes(jobTypes));
    if t == [] then ["fulltime"] else t
  }

  function SearchParamsOf(profile: ProfileData): SearchParams {
    SearchParams(
      profile.jobTitleKeywords,
      SearchLocations(profile.preferredLocations),
      SearchJobTypes(profile.jobTypes),
      profile.jobTypes,
      profile.remoteOpenness.GetOr("Don't care"))
  }

  /**
   * The locations are never empty, have no duplicates, all end in ", denmark",
   * and are exactly the mapped preferred locations when there are any.
   */
  lemma SearchLocationsCorrect(preferred: seq<string>)
    ensures SearchLocations(preferred) != []
    ensures Seqs.Distinct(SearchLocations(preferred))
    ensures forall l :: l in SearchLocations(preferred) ==> EndsWith(l, ", denmark")
    ensures preferred == [] ==> SearchLocations(preferred) == ["copenhagen, denmark"]
    ensures preferred != [] ==> forall l :: l in SearchLocations(preferred) <==> exists p :: p in preferred && l == MapLocation(p)
  {
    var mapped := MapLocations(preferred);
    Seqs.AppendNewCorrect([], mapped);
    if preferred != [] {
      assert mapped[0] in Seqs.AppendNew([], mapped);
      forall l ensures l in SearchLocations(preferred) <==> exists p :: p in preferred && l == MapLocation(p) {
        if l in mapped {
          var i :| 0 <= i < |mapped| && mapped[i] == l;
          assert preferred[i] in preferred;
        }
        if exists p :: p in preferred && l == MapLocation(p) {
          var p :| p in preferred && l == MapLocation(p);
          var i :| 0 <= i < |preferred| && preferred[i] == p;
          assert mapped[i] == l;
        }
      }
    }
    forall l | l in mapped ensures EndsWith(l, ", denmark") {
      var i :| 0 <= i < |mapped| && mapped[i] == l;
      MapLocationDenmark(preferred[i]);
    }
  }

  /**
   * The job types are never empty, have no duplicates, are all scraper job
   * types, and are exactly the mapped ones when any profile type maps.
   */
  lemma SearchJobTypesCorrect(jobTypes: seq<string>)
    ensures SearchJobTypes(jobTypes) != []
    ensures Seqs.Distinct(SearchJobTypes(jobTypes))
    ensures forall t :: t in SearchJobTypes(jobTypes) ==> IsScraperJobType(t)
    ensures MapJobTypes(jobTypes) != [] ==> forall t :: t in SearchJobTypes(jobTypes) <==> t in MapJobTypes(jobTypes)
    ensures MapJobTypes(jobTypes) == [] ==> SearchJobTypes(jobTypes) == ["fulltime"]
  {
    var mapped := MapJobTypes(jobTypes);
    Seqs.AppendNewCorrect([], mapped);
    if mapped != [] {
      assert mapped[0] in Seqs.AppendNew([], mapped);
    }
  }

  /** The location loop of `extract_search_parameters`, with its Copenhagen default. */
  method CollectLocations(preferred: seq<string>) returns (locations: seq<string>)
    ensures locations == SearchLocations(preferred)
  {
    locations := [];
    var i := 0;
    while i < |preferred|
      invariant 0 <= i <= |preferred|
      invariant Seqs.AppendNew(locations, MapLocations(preferred[i..])) == Seqs.AppendNew([], MapLocations(preferred))
    {
      var mapped := MapLocation(preferred[i]);
      assert preferred[i..][1..] == preferred[i + 1..];
      if mapped !in locations {
        locations := locations + [mapped];
      }
      i := i + 1;
    }
    if locations == [] {
      locations := ["copenhagen, denmark"];
    }
  }

  /** The job-type loop of `extract_search_parameters`, its "fulltime" default and the final order-keeping dedup. */
  method CollectJobTypes(desired: seq<string>) returns (jobTypes: seq<string>)
    ensures jobTypes == SearchJobTypes(desired)
  {
    jobTypes := [];
    var used: set<string> := {};
    var i := 0;
    while i < |desired|
      invariant 0 <= i <= |desired|
      invariant used == set t | t in jobTypes
      invariant Seqs.AppendNew(jobTypes, MapJobTypes(desired[i..])) == Seqs.AppendNew([], MapJobTypes(desired))
    {
      var mapped := JobTypeMapping(desired[i]);
      assert desired[i..][1..] == desired[i + 1..];
      if mapped.Some? && mapped.value !in used {
        jobTypes := jobTypes + [mapped.value];
        used := used + {mapped.value};
      }
      i := i + 1;
    }
    if jobTypes == [] {
      jobTypes := ["fulltime"];
    }
    SearchJobTypesCorrect(desired);
    Seqs.AppendNewOfDistinct([], jobTypes);
    assert [] + jobTypes == jobTypes;
    jobTypes := Seqs.AppendNew([], jobTypes);
  }

  /** `extract_search_parameters` */
  method ExtractSearchParameters(profile: ProfileData) returns (params: SearchParams)
    ensures params == SearchParamsOf(profile)
    ensures params.locations != [] && Seqs.Distinct(params.locations)
    ensures params.jobTypes != [] && Seqs.Distinct(params.jobTypes)
    ensures forall t :: t in params.jobTypes ==> IsScraperJobType(t)
  {
    var locations := CollectLocations(profile.preferredLocations);
    var jobTypes := CollectJobTypes(profile.jobTypes);
    SearchJobTypesCorrect(profile.jobTypes);
    SearchLocationsCorrect(profile.preferredLocations);
    params := SearchParams(profile.jobTitleKeywords, locations, jobTypes, profile.jobTypes,
                           profile.remoteOpenness.GetOr("Don't care"));
  }

  /** `determine_remote_setting`: only the two explicit preferences set the remote filter. */
  function DetermineRemoteSetting(preference: string): (r: Option<bool>)
    ensures r == Some(true) <==> preference == "Primarily Remote"
    ensures r == Some(false) <==> preference == "Primarily On-site"
    ensures r == None <==> preference != "Primarily Remote" && preference != "Primarily On-site"
  {
    if preference == "Primarily Remote" then Some(true)
    else if preference == "Primarily On-site" then Some(false)
    else None
  }

  // ---------------------------------------------------------------------
  // Live search with database fallback
  // ---------------------------------------------------------------------

  /** What the scraper returned for one search, or that it raised. */
  datatype ScrapeResult = ScrapeRaised | ScrapeFound(jobs: seq<Job>)

  /** The scraper, queried with a search term, a location, a job type, a remote filter and a result cap. */
  type Scraper = (string, string, Option<string>, Option<bool>, int) -> ScrapeResult

  datatype Source = LiveScraping | DatabaseFallback | Failed

  /** The search result dictionary: `source`, `jobs`, `total_jobs_found`, `fallback_used`, `searches_performed`. */
  datatype SearchOutcome = SearchOutcome(
    source: Source,
    jobs: seq<Job>,
    totalJobsFound: int,
    fallbackUsed: bool,
    searchesPerformed: int)

  /** The sort key of the result list: `relevance_score`, 0 when absent. */
  function RelevanceKey(j: Job): int {
    j.relevance.GetOr(0)
  }

  /** Whether `_calculate_enhanced_relevance_score` can score the posting: `.lower()` raises on `None` or NaN. */
  predicate CanScore(j: Job) {
    j.title.Some? && j.description.Some?
  }

  predicate AllCanScore(jobs: seq<Job>) {
    forall j :: j in jobs ==> CanScore(j)
  }

  /** A live posting with its score and the search it came from. */
  function TagJob(j: Job, keywords: seq<string>, term: string, location: string): Job
    requires CanScore(j)
  {
    j.(relevance := Some(RelevanceScore(j.title.value, j.description.value, keywords)),
       tag := Some(SearchTag("live_indeed", term, location)))
  }

  function TagJobs(jobs: seq<Job>, keywords: seq<string>, term: string, location: string): seq<Job>
    requires AllCanScore(jobs)
  {
    if jobs == [] then [] else [TagJob(jobs[0], keywords, term, location)] + TagJobs(jobs[1..], keywords, term, location)
  }

  /** The scraper's arguments other than term and location, as the search derives them. */
  function JobTypeArg(params: SearchParams): Option<string> {
    if params.jobTypes != [] then Some(params.jobTypes[0]) else None
  }

  /**
   * The postings one search adds: none when the scraper raised, and none when
   * scoring one of its postings raised, since the postings are added only
   * after all of them were scored.
   */
  function SearchJobs(result: ScrapeResult, keywords: seq<string>, term: string, location: string): seq<Job> {
    match result
    case ScrapeRaised => []
    case ScrapeFound(jobs) => if AllCanScore(jobs) then TagJobs(jobs, keywords, term, location) else []
  }

  /** The scraper's answer for one term and location, under the search parameters. */
  function Scrape(scrape: Scraper, params: SearchParams, term: string, location: string, cap: int): ScrapeResult {
    scrape(term, location, JobTypeArg(params), DetermineRemoteSetting(params.remotePreference), cap)
  }

  /** The postings of the searches for one term, location by location. */
  function RowJobs(scrape: Scraper, params: SearchParams, term: string, locations: seq<string>, cap: int): seq<Job>
    decreases |locations|
  {
    if locations == [] then []
    else SearchJobs(Scrape(scrape, params, term, locations[0], cap), params.jobTitles, term, locations[0])
         + RowJobs(scrape, params, term, locations[1..], cap)
  }

  /** The postings of all searches, term by term. */
  function LiveJobs(scrape: Scraper, params: SearchParams, terms: seq<string>, locations: seq<string>, cap: int): seq<Job>
    decreases |terms|
  {
    if terms == [] then []
    else RowJobs(scrape, params, terms[0], locations, cap) + LiveJobs(scrape, params, terms[1..], locations, cap)
  }

  /** The enhanced form of each search title. */
  function EnhancedTerms(titles: seq<string>, jobTypes: seq<string>): (r: seq<string>)
    ensures |r| == |titles|
  {
    if titles == [] then [] else [EnhancedTerm(titles[0], jobTypes)] + EnhancedTerms(titles[1..], jobTypes)
  }

  /** The outcome when live scraping produced nothing or raised: whatever the database matching returned. */
  function FallbackOutcome(databaseMatches: seq<Job>): SearchOutcome {
    if databaseMatches != [] then SearchOutcome(DatabaseFallback, databaseMatches, |databaseMatches|, true, 0)
    else SearchOutcome(Failed, [], 0, true, 0)
  }

  /** The postings of all live searches, in search order, before deduplication. */
  function AllLiveJobs(profile: ProfileData, maxResults: nat, scrape: Scraper): seq<Job> {
    var params := SearchParamsOf(profile);
    var terms := EnhancedTerms(Seqs.Take(params.jobTitles, 3), params.originalJobTypes);
    var locations := Seqs.Take(params.locations, 2);
    var cap := if terms == [] then 0 else maxResults / |terms|;
    LiveJobs(scrape, params, terms, locations, cap)
  }

  /** The live postings with one posting per normalised key, the first found. */
  function UniqueLiveJobs(profile: ProfileData, maxResults: nat, scrape: Scraper): seq<Job> {
    Seqs.DedupBy(AllLiveJobs(profile, maxResults, scrape), FreshKey, {})
  }

  /** The live postings, deduplicated and ranked. */
  function RankedLiveJobs(profile: ProfileData, maxResults: nat, scrape: Scraper): seq<Job> {
    Seqs.SortDesc(UniqueLiveJobs(profile, maxResults, scrape), RelevanceKey)
  }

  /** How many searches the live phase runs: up to three titles times up to two locations. */
  function SearchCount(profile: ProfileData): (r: int)
    ensures 0 <= r <= 6
  {
    var params := SearchParamsOf(profile);
    GridSize(Seqs.Min(|params.jobTitles|, 3), Seqs.Min(|params.locations|, 2))
  }

  function GridSize(titles: nat, locations: nat): (r: int)
    requires titles <= 3 && locations <= 2
    ensures 0 <= r <= 6
  {
    assert titles * locations <= 3 * locations;
    titles * locations
  }

  /** The outcome once the live phase has run: its ranked postings, or the fallback when there are none. */
  function Decide(ranked: seq<Job>, maxResults: nat, storeRaises: bool, searches: int, databaseMatches: seq<Job>): SearchOutcome {
    if !storeRaises && ranked != [] then SearchOutcome(LiveScraping, Seqs.Take(ranked, maxResults), |ranked|, false, searches)
    else FallbackOutcome(databaseMatches)
  }

  /** The whole search: live scraping first, the database only when that yields nothing or raised. */
  function ProfileSearch(profile: ProfileData, maxResults: nat, storeRaises: bool, scrape: Scraper,
                         databaseMatches: seq<Job>): SearchOutcome
  {
    Decide(RankedLiveJobs(profile, maxResults, scrape), maxResults, storeRaises, SearchCount(profile), databaseMatches)
  }

  lemma {:induction false} TagJobsTagged(jobs: seq<Job>, keywords: seq<string>, term: string, location: string)
    requires AllCanScore(jobs)
    ensures forall j :: j in TagJobs(jobs, keywords, term, location) ==>
              j.tag == Some(SearchTag("live_indeed", term, location)) && CanScore(j) &&
              j.relevance == Some(RelevanceScore(j.title.value, j.description.value, keywords))
    decreases |jobs|
  {
    if jobs != [] {
      assert jobs[0] in jobs;
      TagJobsTagged(jobs[1..], keywords, term, location);
      assert TagJobs(jobs, keywords, term, location)
             == [TagJob(jobs[0], keywords, term, location)] + TagJobs(jobs[1..], keywords, term, location);
    }
  }

  /** Tagging scores and tags each posting in place of the posting, in order. */
  lemma {:induction false} TagJobsPointwise(jobs: seq<Job>, keywords: seq<string>, term: string, location: string)
    requires AllCanScore(jobs)
    ensures |TagJobs(jobs, keywords, term, location)| == |jobs|
    ensures forall i :: 0 <= i < |jobs| ==> TagJobs(jobs, keywords, term, location)[i] == TagJob(jobs[i], keywords, term, location)
    decreases |jobs|
  {
    if jobs != [] {
      TagJobsPointwise(jobs[1..], keywords, term, location);
      var r := TagJobs(jobs, keywords, term, location);
      assert r == [TagJob(jobs[0], keywords, term, location)] + TagJobs(jobs[1..], keywords, term, location);
      forall i | 1 <= i < |jobs|
        ensures r[i] == TagJob(jobs[i], keywords, term, location)
      {
        assert jobs[1..][i - 1] == jobs[i];
      }
    }
  }

  /**
   * One search adds nothing when the scraper raised or when any of its
   * postings lacks a title or description; otherwise it adds every posting,
   * in order, with its keyword score and the search's tag.
   */
  lemma SearchJobsCorrect(result: ScrapeResult, keywords: seq<string>, term: string, location: string)
    ensures var r := SearchJobs(result, keywords, term, location);
            && (result.ScrapeRaised? || (exists j :: j in result.jobs && !CanScore(j)) ==> r == [])
            && (result.ScrapeFound? && AllCanScore(result.jobs) ==>
                  && |r| == |result.jobs|
                  && forall i :: 0 <= i < |r| ==>
                       var j := result.jobs[i];
                       j.title.Some? && j.description.Some? &&
                       r[i] == j.(relevance := Some(RelevanceScore(j.title.value, j.description.value, keywords)),
                                  tag := Some(SearchTag("live_indeed", term, location))))
  {
    if result.ScrapeFound? && AllCanScore(result.jobs) {
      TagJobsPointwise(result.jobs, keywords, term, location);
      forall i | 0 <= i < |result.jobs| ensures CanScore(result.jobs[i]) {
        assert result.jobs[i] in result.jobs;
      }
    }
  }

  lemma {:induction false} LiveJobsTagged(scrape: Scraper, params: SearchParams, terms: seq<string>, locations: seq<string>, cap: int)
    ensures forall j :: j in LiveJobs(scrape, params, terms, locations, cap) ==>
              j.tag.Some? && j.tag.value.source == "live_indeed" && j.tag.value.term in terms &&
              j.tag.value.location in locations && CanScore(j) &&
              j.relevance == Some(RelevanceScore(j.title.value, j.description.value, params.jobTitles))
    decreases |terms|
  {
    if terms != [] {
      RowJobsTagged(scrape, params, terms[0], locations, cap);
      LiveJobsTagged(scrape, params, terms[1..], locations, cap);
    }
  }

  lemma {:induction false} RowJobsTagged(scrape: Scraper, params: SearchParams, term: string, locations: seq<string>, cap: int)
    ensures forall j :: j in RowJobs(scrape, params, term, locations, cap) ==>
              j.tag.Some? && j.tag.value.source == "live_indeed" && j.tag.value.term == term &&
              j.tag.value.location in locations && CanScore(j) &&
              j.relevance == Some(RelevanceScore(j.title.value, j.description.value, params.jobTitles))
    decreases |locations|
  {
    if locations != [] {
      RowJobsTagged(scrape, params, term, locations[1..], cap);
      var r := Scrape(scrape, params, term, locations[0], cap);
      if r.ScrapeFound? && AllCanScore(r.jobs) {
        TagJobsTagged(r.jobs, params.jobTitles, term, locations[0]);
      }
    }
  }

  /**
   * The ranked live postings are the deduplicated live postings, each kept
   * once, in descending score order, with no two sharing a normalised key;
   * each was found by a live search and scored in [30, 100].
   */
  lemma RankedLiveJobsCorrect(profile: ProfileData, maxResults: nat, scrape: Scraper)
    ensures var ranked := RankedLiveJobs(profile, maxResults, scrape);
      && Seqs.SortedDesc(ranked, RelevanceKey)
      && multiset(ranked) == multiset(UniqueLiveJobs(profile, maxResults, scrape))
      && Seqs.DistinctKeys(ranked, FreshKey)
      && (forall j :: j in ranked ==>
            j in AllLiveJobs(profile, maxResults, scrape) &&
            j.tag.Some? && j.tag.value.source == "live_indeed" &&
            j.relevance.Some? && 30 <= j.relevance.value <= 100)
  {
    var params := SearchParamsOf(profile);
    var terms := EnhancedTerms(Seqs.Take(params.jobTitles, 3), params.originalJobTypes);
    var locations := Seqs.Take(params.locations, 2);
    var cap := if terms == [] then 0 else maxResults / |terms|;
    var live := AllLiveJobs(profile, maxResults, scrape);
    assert live == LiveJobs(scrape, params, terms, locations, cap);
    var unique := UniqueLiveJobs(profile, maxResults, scrape);
    var ranked := RankedLiveJobs(profile, maxResults, scrape);
    Seqs.SortDescCorrect(unique, RelevanceKey);
    Seqs.DedupBySubseqDistinct(live, FreshKey, {});
    Seqs.SortDescDistinctKeys(unique, RelevanceKey, FreshKey);
    Seqs.SubseqMembers(unique, live);
    LiveJobsTagged(scrape, params, terms, locations, cap);
    forall j | j in ranked
      ensures j in live
      ensures j.tag.Some? && j.tag.value.source == "live_indeed"
      ensures j.relevance.Some? && 30 <= j.relevance.value <= 100
    {
      assert j in multiset(ranked);
      assert j in live;
      RelevanceScoreBounds(j.title.value, j.description.value, params.jobTitles);
    }
  }

  /**
   * A live result never uses the fallback and holds the first `maxResults`
   * ranked postings: the best `maxResults` of the deduplicated live postings,
   * best first, none left out scoring above one kept; each was found by a live
   * search with a score in [30, 100], after at most 3 x 2 searches.
   */
  lemma LiveOutcomeCorrect(profile: ProfileData, maxResults: nat, storeRaises: bool, scrape: Scraper, databaseMatches: seq<Job>)
    requires ProfileSearch(profile, maxResults, storeRaises, scrape, databaseMatches).source == LiveScraping
    ensures var out := ProfileSearch(profile, maxResults, storeRaises, scrape, databaseMatches);
      var unique := UniqueLiveJobs(profile, maxResults, scrape);
      && !out.fallbackUsed
      && out.totalJobsFound == |unique| > 0
      && out.jobs == Seqs.Take(RankedLiveJobs(profile, maxResults, scrape), maxResults)
      && Seqs.IsTopK(out.jobs, unique, maxResults, RelevanceKey)
      && 0 <= out.searchesPerformed <= 6
      && (forall j :: j in out.jobs ==> j.tag.Some? && j.tag.value.source == "live_indeed")
      && (forall j :: j in out.jobs ==> j.relevance.Some? && 30 <= j.relevance.value <= 100)
  {
    var out := ProfileSearch(profile, maxResults, storeRaises, scrape, databaseMatches);
    var unique := UniqueLiveJobs(profile, maxResults, scrape);
    var ranked := RankedLiveJobs(profile, maxResults, scrape);
    assert out.jobs == Seqs.Take(ranked, maxResults) && out.totalJobsFound == |ranked|;
    Seqs.SortDescCorrect(unique, RelevanceKey);
    Seqs.TopKCorrect(unique, maxResults, RelevanceKey);
    RankedLiveJobsCorrect(profile, maxResults, scrape);
  }

  /** The fallback is used exactly when live scraping gives nothing; "failed" exactly when the database gives nothing too. */
  lemma OutcomeSources(profile: ProfileData, maxResults: nat, storeRaises: bool, scrape: Scraper, databaseMatches: seq<Job>)
    ensures var out := ProfileSearch(profile, maxResults, storeRaises, scrape, databaseMatches);
      var live := !storeRaises && RankedLiveJobs(profile, maxResults, scrape) != [];
      && (out.source == LiveScraping <==> live)
      && (out.source == DatabaseFallback <==> !live && databaseMatches != [])
      && (out.source == Failed <==> !live && databaseMatches == [])
      && (out.fallbackUsed <==> !live)
      && (out.source == DatabaseFallback ==> out.jobs == databaseMatches)
  {
  }

  /** The search terms: each of the (at most three) titles enhanced with the job-type modifiers. */
  method EnhanceTitles(titles: seq<string>, jobTypes: seq<string>) returns (terms: seq<string>)
    ensures terms == EnhancedTerms(titles, jobTypes)
  {
    terms := [];
    var t := 0;
    while t < |titles|
      invariant 0 <= t <= |titles|
      invariant terms == EnhancedTerms(titles[..t], jobTypes)
    {
      var term := EnhanceSearchTerm(titles[t], jobTypes);
      EnhancedTermsAppend(titles[..t], titles[t], jobTypes);
      assert titles[..t + 1] == titles[..t] + [titles[t]];
      terms := terms + [term];
      t := t + 1;
    }
    assert titles[..t] == titles;
  }

  /**
   * Scores and tags the postings of one search, or `None` when a posting
   * without a title or description makes the scoring raise.
   */
  method TagFoundJobs(found: seq<Job>, keywords: seq<string>, term: string, location: string)
    returns (tagged: Option<seq<Job>>)
    ensures AllCanScore(found) ==> tagged == Some(TagJobs(found, keywords, term, location))
    ensures !AllCanScore(found) ==> tagged.None?
  {
    var done: seq<Job> := [];
    var k := 0;
    while k < |found|
      invariant 0 <= k <= |found|
      invariant AllCanScore(found[..k])
      invariant done == TagJobs(found[..k], keywords, term, location)
    {
      if found[k].title.None? || found[k].description.None? {
        assert found[k] in found;
        return None;
      }
      var score := CalculateRelevanceScore(found[k].title.value, found[k].description.value, keywords);
      assert found[..k + 1] == found[..k] + [found[k]];
      TagJobsAppend(found[..k], found[k], keywords, term, location);
      done := done + [found[k].(relevance := Some(score), tag := Some(SearchTag("live_indeed", term, location)))];
      k := k + 1;
    }
    assert found[..k] == found;
    tagged := Some(done);
  }

  /** One search: the tagged postings found, or nothing when the search or the scoring raises. */
  method SearchLocation(scrape: Scraper, params: SearchParams, term: string, location: string,
                        jobType: Option<string>, remote: Option<bool>, cap: int) returns (found: seq<Job>)
    requires jobType == JobTypeArg(params) && remote == DetermineRemoteSetting(params.remotePreference)
    ensures found == SearchJobs(Scrape(scrape, params, term, location, cap), params.jobTitles, term, location)
  {
    var result := scrape(term, location, jobType, remote, cap);
    found := [];
    if result.ScrapeFound? {
      var tagged := TagFoundJobs(result.jobs, params.jobTitles, term, location);
      if tagged.Some? {
        found := tagged.value;
      }
    }
  }

  /** The searches for one term, location by location; a search that raises adds nothing. */
  method SearchRow(scrape: Scraper, params: SearchParams, term: string, locations: seq<string>, cap: int)
    returns (row: seq<Job>)
    ensures row == RowJobs(scrape, params, term, locations, cap)
  {
    var remote := DetermineRemoteSetting(params.remotePreference);
    var jobType := JobTypeArg(params);
    row := [];
    var j := 0;
    while j < |locations|
      invariant 0 <= j <= |locations|
      invariant row + RowJobs(scrape, params, term, locations[j..], cap) == RowJobs(scrape, params, term, locations, cap)
    {
      var found := SearchLocation(scrape, params, term, locations[j], jobType, remote, cap);
      assert RowJobs(scrape, params, term, locations[j..], cap)
             == found + RowJobs(scrape, params, term, locations[j + 1..], cap) by {
        assert locations[j..][1..] == locations[j + 1..];
      }
      assert row + (found + RowJobs(scrape, params, term, locations[j + 1..], cap))
             == (row + found) + RowJobs(scrape, params, term, locations[j + 1..], cap);
      row := row + found;
      j := j + 1;
    }
    assert locations[j..] == [];
  }

  /** Every term searched in every location. */
  method SearchAll(scrape: Scraper, params: SearchParams, terms: seq<string>, locations: seq<string>, cap: int)
    returns (collected: seq<Job>)
    ensures collected == LiveJobs(scrape, params, terms, locations, cap)
  {
    collected := [];
    var i := 0;
    while i < |terms|
      invariant 0 <= i <= |terms|
      invariant collected + LiveJobs(scrape, params, terms[i..], locations, cap)
                == LiveJobs(scrape, params, terms, locations, cap)
    {
      var row := SearchRow(scrape, params, terms[i], locations, cap);
      assert LiveJobs(scrape, params, terms[i..], locations, cap)
             == row + LiveJobs(scrape, params, terms[i + 1..], locations, cap) by {
        assert terms[i..][1..] == terms[i + 1..];
      }
      assert collected + LiveJobs(scrape, params, terms[i..], locations, cap)
             == (collected + row) + LiveJobs(scrape, params, terms[i + 1..], locations, cap);
      collected := collected + row;
      i := i + 1;
    }
    assert terms[i..] == [];
  }

  /** `run_profile_based_search` */
  method RunProfileBasedSearch(profile: ProfileData, maxResults: nat, storeRaises: bool, scrape: Scraper,
                               databaseMatches: seq<Job>) returns (out: SearchOutcome)
    ensures out == ProfileSearch(profile, maxResults, storeRaises, scrape, databaseMatches)
  {
    if storeRaises {
      return FallbackOutcome(databaseMatches);
    }
    var params := ExtractSearchParameters(profile);
    var titles := Seqs.Take(params.jobTitles, 3);
    var locations := Seqs.Take(params.locations, 2);
    var terms := EnhanceTitles(titles, params.originalJobTypes);
    var cap := if terms == [] then 0 else maxResults / |terms|;
    var collected := SearchAll(scrape, params, terms, locations, cap);
    var unique := DeduplicateFreshJobs(collected);
    var ranked := Seqs.SortDesc(unique, RelevanceKey);
    assert ranked == RankedLiveJobs(profile, maxResults, scrape);
    assert |terms| * |locations| == SearchCount(profile);
    if ranked != [] {
      out := SearchOutcome(LiveScraping, Seqs.Take(ranked, maxResults), |ranked|, false, |terms| * |locations|);
    } else {
      out := FallbackOutcome(databaseMatches);
    }
  }

  lemma {:induction false} TagJobsAppend(jobs: seq<Job>, job: Job, keywords: seq<string>, term: string, location: string)
    requires AllCanScore(jobs) && CanScore(job)
    ensures TagJobs(jobs + [job], keywords, term, location) == TagJobs(jobs, keywords, term, location) + [TagJob(job, keywords, term, location)]
    decreases |jobs|
  {
    if jobs != [] {
      assert (jobs + [job])[1..] == jobs[1..] + [job];
      TagJobsAppend(jobs[1..], job, keywords, term, location);
    }
  }

  lemma {:induction false} EnhancedTermsAppend(titles: seq<string>, title: string, jobTypes: seq<string>)
    ensures EnhancedTerms(titles + [title], jobTypes) == EnhancedTerms(titles, jobTypes) + [EnhancedTerm(title, jobTypes)]
    decreases |titles|
  {
    if titles != [] {
      assert (titles + [title])[1..] == titles[1..] + [title];
      EnhancedTermsAppend(titles[1..], title, jobTypes);
    }
  }

  // ---------------------------------------------------------------------
  // Database matching (the fallback) and its score write-back
  // ---------------------------------------------------------------------

  /** A row of the posting table as the database matcher reads it; its text columns may be NULL. */
  datatype Posting = Posting(id: int, title: Option<string>, description: Option<string>)

  /** A returned match: the posting and, when it was scored, its `relevance_score`. */
  datatype Match = Match(posting: Posting, relevance: Option<int>)

  /** The stored profile as the database matcher reads it. */
  datatype StoredProfile = StoredProfile(keywords: seq<string>, overallField: string, skills: seq<string>)

  /** What the matcher's queries returned: keyword, field and skill matches, and the two recent-posting queries. */
  datatype QueryAnswers = QueryAnswers(
    byKeywords: seq<Posting>,
    byField: seq<Posting>,
    bySkills: seq<Posting>,
    recentUpToLimit: seq<Posting>,
    recentThirty: seq<Posting>)

  function PostingId(p: Posting): int {
    p.id
  }

  function MatchKey(m: Match): int {
    m.relevance.GetOr(0)
  }

  /** The candidates in query order; recent postings are added when fewer than ten were found. */
  function Candidates(profile: StoredProfile, answers: QueryAnswers): (r: seq<Posting>)
    ensures forall p :: p in r ==> p in answers.byKeywords || p in answers.byField || p in answers.bySkills || p in answers.recentThirty
  {
    var found := (if profile.keywords != [] then answers.byKeywords else [])
                 + (if profile.overallField != "" then answers.byField else [])
                 + (if profile.skills != [] then answers.bySkills else []);
    if |found| < 10 then found + answers.recentThirty else found
  }

  /** The candidates with one posting per id, in order of first appearance (`{job.id: job ...}.values()`). */
  function UniqueCandidates(profile: StoredProfile, answers: QueryAnswers): seq<Posting> {
    Seqs.DedupBy(Candidates(profile, answers), PostingId, {})
  }

  /** Scoring reads the title and the description of every candidate: a NULL in either raises. */
  predicate Scorable(postings: seq<Posting>) {
    forall i :: 0 <= i < |postings| ==> postings[i].title.Some? && postings[i].description.Some?
  }

  function PostingScore(p: Posting, keywords: seq<string>): int
    requires p.title.Some? && p.description.Some?
  {
    RelevanceScore(p.title.value, p.description.value, keywords)
  }

  /** Each posting with its relevance score. */
  function ScoreAll(postings: seq<Posting>, keywords: seq<string>): (r: seq<Match>)
    requires Scorable(postings)
    decreases |postings|
  {
    if postings == [] then []
    else [Match(postings[0], Some(PostingScore(postings[0], keywords)))] + ScoreAll(postings[1..], keywords)
  }

  /** `user_profile_match` after each posting's score is written, in order. */
  function WriteScores(stored: map<int, int>, postings: seq<Posting>, keywords: seq<string>): map<int, int>
    requires Scorable(postings)
    decreases |postings|
  {
    if postings == [] then stored
    else WriteScores(stored[postings[0].id := PostingScore(postings[0], keywords)], postings[1..], keywords)
  }

  /** Whether the scores are committed: there are postings, a stored profile, and every candidate can be scored. */
  predicate Commits(totalJobs: int, profile: Option<StoredProfile>, answers: QueryAnswers) {
    totalJobs != 0 && profile.Some? && Scorable(UniqueCandidates(profile.value, answers))
  }

  /** The matches `get_profile_job_matches` returns. */
  function DatabaseMatches(totalJobs: int, profile: Option<StoredProfile>, answers: QueryAnswers, limit: nat): seq<Match> {
    if totalJobs == 0 then []
    else if profile.None? then Unscored(answers.recentUpToLimit)
    else
      var unique := UniqueCandidates(profile.value, answers);
      if !Scorable(unique) then []
      else Seqs.Take(Seqs.SortDesc(ScoreAll(unique, profile.value.keywords), MatchKey), limit)
  }

  /** The recent postings, returned without a score. */
  function Unscored(postings: seq<Posting>): (r: seq<Match>)
    ensures |r| == |postings|
    ensures forall i :: 0 <= i < |r| ==> r[i] == Match(postings[i], None)
  {
    seq(|postings|, i requires 0 <= i < |postings| => Match(postings[i], None))
  }

  lemma {:induction false} ScoreAllShape(postings: seq<Posting>, keywords: seq<string>)
    requires Scorable(postings)
    ensures |ScoreAll(postings, keywords)| == |postings|
    ensures forall i :: 0 <= i < |postings| ==>
              ScoreAll(postings, keywords)[i] == Match(postings[i], Some(PostingScore(postings[i], keywords)))
    decreases |postings|
  {
    if postings != [] {
      ScoreAllShape(postings[1..], keywords);
    }
  }

  /** Writing the scores sets each written id to its posting's score and leaves every other id as it was. */
  lemma {:induction false} WriteScoresEffect(stored: map<int, int>, postings: seq<Posting>, keywords: seq<string>)
    requires Scorable(postings)
    requires forall i, j :: 0 <= i < j < |postings| ==> postings[i].id != postings[j].id
    ensures forall i :: 0 <= i < |postings| ==>
              postings[i].id in WriteScores(stored, postings, keywords) &&
              WriteScores(stored, postings, keywords)[postings[i].id] == PostingScore(postings[i], keywords)
    ensures forall id :: (forall i :: 0 <= i < |postings| ==> postings[i].id != id) ==>
              (id in WriteScores(stored, postings, keywords) <==> id in stored) &&
              (id in stored ==> WriteScores(stored, postings, keywords)[id] == stored[id])
    decreases |postings|
  {
    if postings != [] {
      var p := postings[0];
      var stored' := stored[p.id := PostingScore(p, keywords)];
      WriteScoresEffect(stored', postings[1..], keywords);
      forall i | 1 <= i < |postings|
        ensures postings[1..][i - 1] == postings[i] && postings[i].id != p.id
      {
      }
    }
  }

  /**
   * The database matches are the best `limit` of the unique candidates, best
   * first, none left out scoring above one kept; they have distinct ids and
   * each is a candidate carrying its keyword score in [30, 100]; with no
   * postings, or a candidate whose title or description is NULL, there are none.
   */
  lemma DatabaseMatchesCorrect(totalJobs: int, profile: StoredProfile, answers: QueryAnswers, limit: nat)
    ensures var r := DatabaseMatches(totalJobs, Some(profile), answers, limit);
      var unique := UniqueCandidates(profile, answers);
      && |r| <= limit
      && Seqs.SortedDesc(r, MatchKey)
      && Seqs.DistinctKeys(r, MatchId)
      && (forall m :: m in r ==> m.relevance.Some? && 30 <= m.relevance.value <= 100)
      && (forall m :: m in r ==> m.posting in Candidates(profile, answers))
      && (totalJobs != 0 && Scorable(unique) ==>
            && Seqs.IsTopK(r, ScoreAll(unique, profile.keywords), limit, MatchKey)
            && |r| == Seqs.Min(limit, |unique|)
            && (forall m :: m in r ==>
                  m.posting.title.Some? && m.posting.description.Some? &&
                  m.relevance == Some(RelevanceScore(m.posting.title.value, m.posting.description.value, profile.keywords))))
      && (totalJobs == 0 || !Scorable(unique) ==> r == [])
  {
    var unique := UniqueCandidates(profile, answers);
    Seqs.DedupBySubseqDistinct(Candidates(profile, answers), PostingId, {});
    Seqs.SubseqMembers(unique, Candidates(profile, answers));
    if totalJobs != 0 && Scorable(unique) {
      RankedMatchesCorrect(unique, profile.keywords, limit);
    }
  }

  /**
   * Scoring, sorting and cutting to `limit` keeps the best `limit` scored
   * postings, best first, with distinct ids, each scored by the keyword rule in [30, 100].
   */
  lemma RankedMatchesCorrect(unique: seq<Posting>, keywords: seq<string>, limit: nat)
    requires Scorable(unique) && Seqs.DistinctKeys(unique, PostingId)
    ensures var r := Seqs.Take(Seqs.SortDesc(ScoreAll(unique, keywords), MatchKey), limit);
      && Seqs.IsTopK(r, ScoreAll(unique, keywords), limit, MatchKey)
      && |r| == Seqs.Min(limit, |unique|)
      && Seqs.DistinctKeys(r, MatchId)
      && (forall m :: m in r ==>
            m.posting in unique && m.posting.title.Some? && m.posting.description.Some? &&
            m.relevance == Some(RelevanceScore(m.posting.title.value, m.posting.description.value, keywords)) &&
            30 <= m.relevance.value <= 100)
  {
    var scored := ScoreAll(unique, keywords);
    ScoreAllBounds(unique, keywords);
    Seqs.TopKCorrect(scored, limit, MatchKey);
    ScoredIdsDistinct(unique, keywords);
    Seqs.SortDescDistinctKeys(scored, MatchKey, MatchId);
    RankedMatchesFrom(unique, keywords, limit);
  }

  /** Every ranked match is a scored candidate. */
  lemma RankedMatchesFrom(unique: seq<Posting>, keywords: seq<string>, limit: nat)
    requires Scorable(unique)
    ensures forall m :: m in Seqs.Take(Seqs.SortDesc(ScoreAll(unique, keywords), MatchKey), limit) ==>
              m in ScoreAll(unique, keywords)
  {
    var scored := ScoreAll(unique, keywords);
    var r := Seqs.Take(Seqs.SortDesc(scored, MatchKey), limit);
    Seqs.TopKCorrect(scored, limit, MatchKey);
    forall m | m in r
      ensures m in scored
    {
      assert m in multiset(r);
    }
  }

  lemma {:induction false} ScoreAllBounds(postings: seq<Posting>, keywords: seq<string>)
    requires Scorable(postings)
    ensures |ScoreAll(postings, keywords)| == |postings|
    ensures forall m :: m in ScoreAll(postings, keywords) ==>
              m.posting in postings && m.posting.title.Some? && m.posting.description.Some? &&
              m.relevance == Some(RelevanceScore(m.posting.title.value, m.posting.description.value, keywords)) &&
              30 <= m.relevance.value <= 100
    decreases |postings|
  {
    if postings != [] {
      ScoreAllBounds(postings[1..], keywords);
      RelevanceScoreBounds(postings[0].title.value, postings[0].description.value, keywords);
    }
  }

  function MatchId(m: Match): int {
    m.posting.id
  }

  lemma ScoredIdsDistinct(unique: seq<Posting>, keywords: seq<string>)
    requires Scorable(unique)
    requires Seqs.DistinctKeys(unique, PostingId)
    ensures Seqs.DistinctKeys(ScoreAll(unique, keywords), MatchId)
  {
    ScoreAllShape(unique, keywords);
  }

  lemma {:induction false} ScoreAllAppend(postings: seq<Posting>, p: Posting, keywords: seq<string>)
    requires Scorable(postings) && p.title.Some? && p.description.Some?
    ensures Scorable(postings + [p])
    ensures ScoreAll(postings + [p], keywords) == ScoreAll(postings, keywords) + [Match(p, Some(PostingScore(p, keywords)))]
    decreases |postings|
  {
    if postings != [] {
      assert (postings + [p])[1..] == postings[1..] + [p];
      ScoreAllAppend(postings[1..], p, keywords);
    } else {
      assert postings + [p] == [p];
    }
  }

  lemma {:induction false} WriteScoresAppend(stored: map<int, int>, postings: seq<Posting>, p: Posting, keywords: seq<string>)
    requires Scorable(postings) && p.title.Some? && p.description.Some?
    ensures Scorable(postings + [p])
    ensures WriteScores(stored, postings + [p], keywords) == WriteScores(stored, postings, keywords)[p.id := PostingScore(p, keywords)]
    decreases |postings|
  {
    if postings != [] {
      assert (postings + [p])[1..] == postings[1..] + [p];
      WriteScoresAppend(stored[postings[0].id := PostingScore(postings[0], keywords)], postings[1..], p, keywords);
    } else {
      assert postings + [p] == [p];
    }
  }

  /**
   * When the scores are committed, the stored `user_profile_match` of every
   * returned posting is the relevance it is returned with, and postings that
   * were not candidates keep their stored value.
   */
  lemma StoredScoresAgree(totalJobs: int, profile: Option<StoredProfile>, answers: QueryAnswers, limit: nat, stored: map<int, int>)
    requires Commits(totalJobs, profile, answers)
    ensures var unique := UniqueCandidates(profile.value, answers);
      var written := WriteScores(stored, unique, profile.value.keywords);
      && (forall m :: m in DatabaseMatches(totalJobs, profile, answers, limit) ==>
            m.posting.id in written && m.relevance == Some(written[m.posting.id]))
      && (forall id :: id !in stored ==> (id in written <==> exists p :: p in unique && p.id == id))
      && (forall id :: id in stored && (forall p :: p in unique ==> p.id != id) ==> id in written && written[id] == stored[id])
  {
    var unique := UniqueCandidates(profile.value, answers);
    var keywords := profile.value.keywords;
    var scored := ScoreAll(unique, keywords);
    var sorted := Seqs.SortDesc(scored, MatchKey);
    assert DatabaseMatches(totalJobs, profile, answers, limit) == Seqs.Take(sorted, limit);
    Seqs.DedupBySubseqDistinct(Candidates(profile.value, answers), PostingId, {});
    WriteScoresEffect(stored, unique, keywords);
    ScoredAgreesWithWritten(stored, unique, keywords);
    Seqs.SortDescCorrect(scored, MatchKey);
    forall m | m in Seqs.Take(sorted, limit)
      ensures m in scored
    {
      assert m in multiset(scored);
    }
    forall id | id !in stored && id in WriteScores(stored, unique, keywords)
      ensures exists p :: p in unique && p.id == id
    {
      if forall i :: 0 <= i < |unique| ==> unique[i].id != id {
        assert false;
      }
    }
  }

  lemma ScoredAgreesWithWritten(stored: map<int, int>, unique: seq<Posting>, keywords: seq<string>)
    requires Scorable(unique) && Seqs.DistinctKeys(unique, PostingId)
    ensures forall m :: m in ScoreAll(unique, keywords) ==>
              m.posting.id in WriteScores(stored, unique, keywords) &&
              m.relevance == Some(WriteScores(stored, unique, keywords)[m.posting.id])
  {
    WriteScoresEffect(stored, unique, keywords);
    ScoreAllShape(unique, keywords);
    forall m | m in ScoreAll(unique, keywords)
      ensures m.posting.id in WriteScores(stored, unique, keywords)
      ensures m.relevance == Some(WriteScores(stored, unique, keywords)[m.posting.id])
    {
      var k :| 0 <= k < |unique| && ScoreAll(unique, keywords)[k] == m;
    }
  }

  /** The posting table's `user_profile_match` column, the only column the database matcher writes. */
  class PostingTable {
    var profileMatch: map<int, int>

    constructor (profileMatch: map<int, int>)
      ensures this.profileMatch == profileMatch
    {
      this.profileMatch := profileMatch;
    }

    /**
     * `get_profile_job_matches`: the matches from the database, with every
     * unique candidate's score written back and committed; a candidate whose
     * title or description is NULL raises, the writes are rolled back and no
     * matches are returned.
     */
    method GetProfileJobMatches(totalJobs: int, profile: Option<StoredProfile>, answers: QueryAnswers, limit: nat)
      returns (matches: seq<Match>)
      modifies this
      ensures matches == DatabaseMatches(totalJobs, profile, answers, limit)
      ensures profileMatch == if Commits(totalJobs, profile, answers)
                              then WriteScores(old(profileMatch), UniqueCandidates(profile.value, answers), profile.value.keywords)
                              else old(profileMatch)
    {
      if totalJobs == 0 {
        return [];
      }
      if profile.None? {
        return Unscored(answers.recentUpToLimit);
      }
      var keywords := profile.value.keywords;
      var unique := Seqs.DedupBy(Candidates(profile.value, answers), PostingId, {});
      var snapshot := profileMatch;
      var scored: seq<Match> := [];
      var i := 0;
      while i < |unique|
        invariant 0 <= i <= |unique|
        invariant Scorable(unique[..i])
        invariant scored == ScoreAll(unique[..i], keywords)
        invariant profileMatch == WriteScores(snapshot, unique[..i], keywords)
      {
        var p := unique[i];
        if p.title.None? || p.description.None? {
          profileMatch := snapshot;
          return [];
        }
        var score := CalculateRelevanceScore(p.title.value, p.description.value, keywords);
        ScoreAllAppend(unique[..i], p, keywords);
        WriteScoresAppend(snapshot, unique[..i], p, keywords);
        assert unique[..i + 1] == unique[..i] + [p];
        scored := scored + [Match(p, Some(score))];
        profileMatch := profileMatch[p.id := score];
        i := i + 1;
      }
      assert unique[..i] == unique;
      matches := Seqs.Take(Seqs.SortDesc(scored, MatchKey), limit);
    }
  }

  // ---------------------------------------------------------------------
  // Set-style replacement of a profile's sub-collections
  // ---------------------------------------------------------------------

  /** The names a sub-collection should end up with: each non-blank submitted name, stripped. */
  function WantedNames(items: seq<string>): set<string>
    decreases |items|
  {
    if items == [] then {}
    else (if IsBlank(items[0]) then {} else {Strip(items[0])}) + WantedNames(items[1..])
  }

  /** A name is wanted exactly when some non-blank submitted item strips to it. */
  lemma {:induction false} WantedNamesMembers(items: seq<string>, n: string)
    ensures n in WantedNames(items) <==> exists i :: 0 <= i < |items| && !IsBlank(items[i]) && Strip(items[i]) == n
    decreases |items|
  {
    if items != [] {
      WantedNamesMembers(items[1..], n);
      if n in WantedNames(items[1..]) {
        var i :| 0 <= i < |items[1..]| && !IsBlank(items[1..][i]) && Strip(items[1..][i]) == n;
        assert items[i + 1] == items[1..][i];
      }
      if exists i :: 0 <= i < |items| && !IsBlank(items[i]) && Strip(items[i]) == n {
        var i :| 0 <= i < |items| && !IsBlank(items[i]) && Strip(items[i]) == n;
        if i > 0 {
          assert items[1..][i - 1] == items[i];
        }
      }
    }
  }

  /**
   * The pass over the current items: an item whose name is still pending is
   * kept and its name is no longer pending; any other item is deleted.
   * Returns the kept names and the names still pending.
   */
  function KeepPass(current: seq<string>, pending: set<string>): (seq<string>, set<string>)
    decreases |current|
  {
    if current == [] then ([], pending)
    else if current[0] in pending then
      var (kept, left) := KeepPass(current[1..], pending - {current[0]});
      ([current[0]] + kept, left)
    else KeepPass(current[1..], pending)
  }

  /** The pending names to add, in the order they were first submitted. */
  function NewNames(items: seq<string>, pending: set<string>): seq<string>
    decreases |items|
  {
    if items == [] then []
    else if !IsBlank(items[0]) && Strip(items[0]) in pending then
      [Strip(items[0])] + NewNames(items[1..], pending - {Strip(items[0])})
    else NewNames(items[1..], pending)
  }

  /** The names of a sub-collection after `_update_collection(collection, items, ...)`. */
  function UpdatedNames(current: seq<string>, items: seq<string>): seq<string> {
    var (kept, left) := KeepPass(current, WantedNames(items));
    kept + NewNames(items, left)
  }

  lemma {:induction false} KeepPassFacts(current: seq<string>, pending: set<string>)
    ensures var (kept, left) := KeepPass(current, pending);
      && Seqs.Distinct(kept)
      && Seqs.IsSubseq(kept, current)
      && (forall n :: n in kept <==> n in pending && n in current)
      && (forall n :: n in left <==> n in pending && n !in current)
    decreases |current|
  {
    if current != [] {
      var c := current[0];
      if c in pending {
        KeepPassFacts(current[1..], pending - {c});
        var (kept, left) := KeepPass(current[1..], pending - {c});
        var r := [c] + kept;
        assert r[1..] == kept;
        assert forall i :: 1 <= i < |r| ==> r[i] == kept[i - 1];
        assert forall n :: n in current <==> n == c || n in current[1..];
      } else {
        KeepPassFacts(current[1..], pending);
        assert forall n :: n in current <==> n == c || n in current[1..];
      }
    }
  }

  lemma {:induction false} NewNamesFacts(items: seq<string>, pending: set<string>)
    ensures Seqs.Distinct(NewNames(items, pending))
    ensures forall n :: n in NewNames(items, pending) <==> n in pending && n in WantedNames(items)
    decreases |items|
  {
    if items != [] {
      var x := items[0];
      if !IsBlank(x) && Strip(x) in pending {
        NewNamesFacts(items[1..], pending - {Strip(x)});
        var rest := NewNames(items[1..], pending - {Strip(x)});
        var r := [Strip(x)] + rest;
        assert forall i :: 1 <= i < |r| ==> r[i] == rest[i - 1];
      } else {
        NewNamesFacts(items[1..], pending);
      }
    }
  }

  lemma {:induction false} NewNamesOfNothing(items: seq<string>)
    ensures NewNames(items, {}) == []
    decreases |items|
  {
    if items != [] {
      NewNamesOfNothing(items[1..]);
    }
  }

  lemma {:induction false} KeepPassAll(current: seq<string>, pending: set<string>)
    requires Seqs.Distinct(current)
    requires forall n :: n in current ==> n in pending
    ensures KeepPass(current, pending).0 == current
    ensures forall n :: n in KeepPass(current, pending).1 <==> n in pending && n !in current
    decreases |current|
  {
    if current != [] {
      var c := current[0];
      assert c !in current[1..];
      KeepPassAll(current[1..], pending - {c});
      assert forall n :: n in current <==> n == c || n in current[1..];
      assert [c] + current[1..] == current;
    }
  }

  /**
   * After the update the collection holds exactly the wanted names, each once;
   * the names it already had and still wants come first, in their old order,
   * and are not added again.
   */
  lemma UpdatedNamesCorrect(current: seq<string>, items: seq<string>)
    ensures var r := UpdatedNames(current, items);
      && Seqs.Distinct(r)
      && (forall n :: n in r <==> n in WantedNames(items))
      && var kept := KeepPass(current, WantedNames(items)).0;
         && kept <= r
         && Seqs.IsSubseq(kept, current)
         && (forall n :: n in current && n in WantedNames(items) ==> n in kept)
         && (forall n :: n in r[|kept|..] ==> n !in current)
  {
    var wanted := WantedNames(items);
    var (kept, left) := KeepPass(current, wanted);
    var added := NewNames(items, left);
    var r := kept + added;
    assert r == UpdatedNames(current, items);
    KeepPassFacts(current, wanted);
    NewNamesFacts(items, left);
    assert r[|kept|..] == added;
    assert forall n :: n in added ==> n !in current;
    Seqs.DistinctConcat(kept, added);
  }

  /** Updating twice with the same items changes nothing the second time. */
  lemma UpdatedNamesIdempotent(current: seq<string>, items: seq<string>)
    ensures UpdatedNames(UpdatedNames(current, items), items) == UpdatedNames(current, items)
  {
    var r := UpdatedNames(current, items);
    var wanted := WantedNames(items);
    UpdatedNamesCorrect(current, items);
    KeepPassAll(r, wanted);
    assert KeepPass(r, wanted).1 == {};
    NewNamesOfNothing(items);
    assert r + [] == r;
  }

  /** One of a stored profile's name collections: target roles, keywords, skills or languages. */
  class ProfileCollection {
    var names: seq<string>

    constructor (names: seq<string>)
      ensures this.names == names
    {
      this.names := names;
    }

    /**
     * `_update_collection`: deletes the items whose name is no longer wanted,
     * keeps the others, and appends a new item for each wanted name the
     * collection did not have.
     */
    method Update(items: seq<string>)
      modifies this
      ensures names == UpdatedNames(old(names), items)
    {
      var wanted := WantedNames(items);
      var pending := wanted;
      var current := names;
      var kept: seq<string> := [];
      var i := 0;
      while i < |current|
        invariant 0 <= i <= |current|
        invariant kept + KeepPass(current[i..], pending).0 == KeepPass(current, wanted).0
        invariant KeepPass(current[i..], pending).1 == KeepPass(current, wanted).1
      {
        assert current[i..][1..] == current[i + 1..];
        if current[i] in pending {
          pending := pending - {current[i]};
          kept := kept + [current[i]];
        }
        i := i + 1;
      }
      assert current[i..] == [];
      names := kept;
      var j := 0;
      while j < |items|
        invariant 0 <= j <= |items|
        invariant names + NewNames(items[j..], pending) == UpdatedNames(current, items)
      {
        assert items[j..][1..] == items[j + 1..];
        var name := Strip(items[j]);
        if !IsBlank(items[j]) && name in pending {
          pending := pending - {name};
          names := names + [name];
        }
        j := j + 1;
      }
      assert items[j..] == [];
    }
  }
}
