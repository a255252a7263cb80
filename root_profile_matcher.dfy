/**
 * The older, SQLite-backed profile-to-job matcher at the repository root
 * (`profile_job_matcher.py`). Its scoring, term enhancement, parameter
 * extraction and remote setting are the same code as in the package version
 * and are taken from `SrcMatcher`; what differs is modelled here: the exact
 * (unnormalised) deduplication of database rows with in-place scoring, the
 * database matching over SQLite rows, the profile store with its
 * INSERT OR REPLACE, and the age distribution.
 */
module RootMatcher {
  import opened Wrappers
  import Seqs
  import SrcMatcher

  /** A `job_postings` row as a dictionary; a NULL column is `None`. */
  datatype Row = Row(
    title: Option<string>,
    company: Option<string>,
    location: Option<string>,
    description: Option<string>,
    relevance: Option<int>)

  /** The exact key `(title, company, location)`, with no stripping or case folding. */
  function RowKey(r: Row): (Option<string>, Option<string>, Option<string>) {
    (r.title, r.company, r.location)
  }

  /** Scoring calls `.lower()` on the title and the description: a NULL in either raises. */
  predicate Scorable(rows: seq<Row>) {
    forall i :: 0 <= i < |rows| ==> rows[i].title.Some? && rows[i].description.Some?
  }

  function RowScore(r: Row, keywords: seq<string>): int
    requires r.title.Some? && r.description.Some?
  {
    SrcMatcher.RelevanceScore(r.title.value, r.description.value, keywords)
  }

  /** Each row with its `relevance_score` set. */
  function ScoreRows(rows: seq<Row>, keywords: seq<string>): (r: seq<Row>)
    requires Scorable(rows)
    decreases |rows|
  {
    if rows == [] then []
    else [rows[0].(relevance := Some(RowScore(rows[0], keywords)))] + ScoreRows(rows[1..], keywords)
  }

  /**
   * `_deduplicate_and_enhance_scoring`: the first row of each exact key, each
   * scored; `None` when a kept row cannot be scored (the call raises).
   */
  function DedupAndScore(matches: seq<Row>, keywords: seq<string>): Option<seq<Row>> {
    var unique := Seqs.DedupBy(matches, RowKey, {});
    if Scorable(unique) then Some(ScoreRows(unique, keywords)) else None
  }

  lemma {:induction false} ScoreRowsShape(rows: seq<Row>, keywords: seq<string>)
    requires Scorable(rows)
    ensures |ScoreRows(rows, keywords)| == |rows|
    ensures forall i :: 0 <= i < |rows| ==>
              ScoreRows(rows, keywords)[i] == rows[i].(relevance := Some(RowScore(rows[i], keywords)))
    decreases |rows|
  {
    if rows != [] {
      ScoreRowsShape(rows[1..], keywords);
    }
  }

  lemma {:induction false} ScoreRowsAppend(rows: seq<Row>, r: Row, keywords: seq<string>)
    requires Scorable(rows) && r.title.Some? && r.description.Some?
    ensures Scorable(rows + [r])
    ensures ScoreRows(rows + [r], keywords) == ScoreRows(rows, keywords) + [r.(relevance := Some(RowScore(r, keywords)))]
    decreases |rows|
  {
    if rows != [] {
      assert (rows + [r])[1..] == rows[1..] + [r];
      ScoreRowsAppend(rows[1..], r, keywords);
    } else {
      assert rows + [r] == [r];
    }
  }

  /** The keys of the rows before index `i`. */
  function KeysBefore(rows: seq<Row>, i: int): set<(Option<string>, Option<string>, Option<string>)>
    requires 0 <= i <= |rows|
  {
    set k | 0 <= k < i :: RowKey(rows[k])
  }

  /**
   * `_deduplicate_and_enhance_scoring`: one pass with a `seen` set; each
   * newly seen row gets its relevance score and is kept.
   */
  method DeduplicateAndEnhanceScoring(matches: seq<Row>, keywords: seq<string>) returns (result: Option<seq<Row>>)
    ensures result == DedupAndScore(matches, keywords)
  {
    var seen: set<(Option<string>, Option<string>, Option<string>)> := {};
    var unique: seq<Row> := [];
    var scored: seq<Row> := [];
    var i := 0;
    while i < |matches|
      invariant 0 <= i <= |matches|
      invariant seen == KeysBefore(matches, i)
      invariant unique == Seqs.DedupBy(matches[..i], RowKey, {})
      invariant Scorable(unique)
      invariant scored == ScoreRows(unique, keywords)
    {
      var job := matches[i];
      DedupStep(matches, i);
      if RowKey(job) !in seen {
        seen := seen + {RowKey(job)};
        if job.title.None? || job.description.None? {
          UnscorableFrom(matches, i);
          return None;
        }
        var score := SrcMatcher.CalculateRelevanceScore(job.title.value, job.description.value, keywords);
        ScoreRowsAppend(unique, job, keywords);
        unique := unique + [job];
        scored := scored + [job.(relevance := Some(score))];
      }
      i := i + 1;
    }
    assert matches[..i] == matches;
    return Some(scored);
  }

  /** One more row: it is kept exactly when its key was not seen before it. */
  lemma DedupStep(matches: seq<Row>, i: int)
    requires 0 <= i < |matches|
    ensures Seqs.DedupBy(matches[..i + 1], RowKey, {})
            == Seqs.DedupBy(matches[..i], RowKey, {}) + (if RowKey(matches[i]) in KeysBefore(matches, i) then [] else [matches[i]])
    ensures KeysBefore(matches, i + 1) == KeysBefore(matches, i) + {RowKey(matches[i])}
  {
    Seqs.DedupByAppend(matches[..i], matches[i], RowKey, {});
    assert matches[..i + 1] == matches[..i] + [matches[i]];
    assert RowKey(matches[i]) in KeysBefore(matches, i) <==> exists k :: 0 <= k < i && RowKey(matches[..i][k]) == RowKey(matches[i]);
  }

  /** A newly seen row without a title or a description makes the whole deduplicated list unscorable. */
  lemma UnscorableFrom(matches: seq<Row>, i: int)
    requires 0 <= i < |matches|
    requires RowKey(matches[i]) !in KeysBefore(matches, i)
    requires matches[i].title.None? || matches[i].description.None?
    ensures !Scorable(Seqs.DedupBy(matches, RowKey, {}))
  {
    var unique := Seqs.DedupBy(matches[..i], RowKey, {});
    DedupStep(matches, i);
    UniqueOfPrefix(matches, i + 1);
    var u := Seqs.DedupBy(matches, RowKey, {});
    assert u[|unique|] == matches[i];
  }

  /** The deduplication of a prefix is a prefix of the deduplication of the whole. */
  lemma {:induction false} UniqueOfPrefix(matches: seq<Row>, n: int)
    requires 0 <= n <= |matches|
    ensures Seqs.DedupBy(matches[..n], RowKey, {}) <= Seqs.DedupBy(matches, RowKey, {})
    decreases |matches| - n
  {
    if n < |matches| {
      UniqueOfPrefix(matches, n + 1);
      Seqs.DedupByAppend(matches[..n], matches[n], RowKey, {});
      assert matches[..n + 1] == matches[..n] + [matches[n]];
    } else {
      assert matches[..n] == matches;
    }
  }

  /** Deduplication keeps one row per exact key, the first, and every kept row carries its own relevance score. */
  lemma DedupAndScoreCorrect(matches: seq<Row>, keywords: seq<string>)
    ensures DedupAndScore(matches, keywords).Some? <==> Scorable(Seqs.DedupBy(matches, RowKey, {}))
    ensures DedupAndScore(matches, keywords).Some? ==>
      var u := Seqs.DedupBy(matches, RowKey, {});
      var r := DedupAndScore(matches, keywords).value;
      && Seqs.IsSubseq(u, matches)
      && |r| == |u|
      && Seqs.DistinctKeys(r, RowKey)
      && (forall i :: 0 <= i < |r| ==>
            u[i].title.Some? && u[i].description.Some? &&
            r[i] == u[i].(relevance := Some(SrcMatcher.RelevanceScore(u[i].title.value, u[i].description.value, keywords))))
      && (forall j :: 0 <= j < |matches| ==> exists i :: 0 <= i < |r| && RowKey(r[i]) == RowKey(matches[j]))
  {
    var unique := Seqs.DedupBy(matches, RowKey, {});
    Seqs.DedupBySubseqDistinct(matches, RowKey, {});
    if Scorable(unique) {
      var r := ScoreRows(unique, keywords);
      ScoreRowsShape(unique, keywords);
      assert forall i :: 0 <= i < |r| ==> RowKey(r[i]) == RowKey(unique[i]);
      forall j | 0 <= j < |matches|
        ensures exists i :: 0 <= i < |r| && RowKey(r[i]) == RowKey(matches[j])
      {
        Seqs.DedupByCovers(matches, RowKey, {}, j);
        var i :| 0 <= i < |unique| && RowKey(unique[i]) == RowKey(matches[j]);
        assert RowKey(r[i]) == RowKey(matches[j]);
      }
    }
  }

  /** The stored profile fields the database matcher reads. */
  datatype StoredProfile = StoredProfile(keywords: seq<string>, overallField: string)

  /** What the matcher's queries returned. */
  datatype QueryAnswers = QueryAnswers(
    byKeywords: seq<Row>,
    byField: seq<Row>,
    recentUpToLimit: seq<Row>,
    recentThirty: seq<Row>)

  /** The candidates in query order; recent postings are added when fewer than ten were found. */
  function Candidates(profile: StoredProfile, answers: QueryAnswers): seq<Row> {
    var found := (if profile.keywords != [] then answers.byKeywords else [])
                 + (if profile.overallField != "" then answers.byField else []);
    if |found| < 10 then found + answers.recentThirty else found
  }

  /** The sort key `relevance_score`, 1 when absent. */
  function SortKey(r: Row): int {
    r.relevance.GetOr(1)
  }

  /**
   * The matches `get_profile_job_matches` returns: none for an empty table,
   * the recent quality postings unscored when no profile is stored, and
   * otherwise the scored unique candidates, best first, cut to `limit`; an
   * error inside gives none.
   */
  function DatabaseMatches(totalJobs: int, profile: Option<StoredProfile>, answers: QueryAnswers, limit: nat): seq<Row> {
    if totalJobs == 0 then []
    else if profile.None? then answers.recentUpToLimit
    else match DedupAndScore(Candidates(profile.value, answers), profile.value.keywords)
      case None => []
      case Some(unique) => Seqs.Take(Seqs.SortDesc(unique, SortKey), limit)
  }

  /**
   * With a stored profile the matches are the best `limit` of the
   * deduplicated, scored candidates, best first, none left out scoring above
   * one kept; they have distinct exact keys, and each is a candidate row with
   * its `relevance_score` set by the keyword rule, within [30, 100]. With no
   * postings, or a kept candidate that cannot be scored, there are none.
   */
  lemma DatabaseMatchesCorrect(totalJobs: int, profile: StoredProfile, answers: QueryAnswers, limit: nat)
    ensures var r := DatabaseMatches(totalJobs, Some(profile), answers, limit);
      var scored := DedupAndScore(Candidates(profile, answers), profile.keywords);
      && |r| <= limit
      && Seqs.SortedDesc(r, SortKey)
      && Seqs.DistinctKeys(r, RowKey)
      && (forall x :: x in r ==> x.relevance.Some? && 30 <= x.relevance.value <= 100)
      && (forall x :: x in r ==> exists c :: c in Candidates(profile, answers) && IsScoredFrom(x, c, profile.keywords))
      && (totalJobs != 0 && scored.Some? ==> Seqs.IsTopK(r, scored.value, limit, SortKey))
      && (totalJobs == 0 || scored.None? ==> r == [])
  {
    var candidates := Candidates(profile, answers);
    var scored := DedupAndScore(candidates, profile.keywords);
    if totalJobs != 0 && scored.Some? {
      var unique := scored.value;
      var r := Seqs.Take(Seqs.SortDesc(unique, SortKey), limit);
      ScoredFromCandidates(candidates, profile.keywords);
      Seqs.TopKCorrect(unique, limit, SortKey);
      Seqs.SortDescDistinctKeys(unique, SortKey, RowKey);
      forall x | x in r
        ensures x in unique
      {
        assert x in multiset(r);
      }
    }
  }

  /** `x` is the row `c` with its `relevance_score` set by the keyword rule. */
  predicate IsScoredFrom(x: Row, c: Row, keywords: seq<string>) {
    c.title.Some? && c.description.Some? &&
    x == c.(relevance := Some(SrcMatcher.RelevanceScore(c.title.value, c.description.value, keywords)))
  }

  /** Every deduplicated, scored row is a candidate row with its keyword score, within [30, 100]. */
  lemma ScoredFromCandidates(candidates: seq<Row>, keywords: seq<string>)
    requires DedupAndScore(candidates, keywords).Some?
    ensures forall x :: x in DedupAndScore(candidates, keywords).value ==>
              x.relevance.Some? && 30 <= x.relevance.value <= 100 &&
              exists c :: c in candidates && IsScoredFrom(x, c, keywords)
    ensures Seqs.DistinctKeys(DedupAndScore(candidates, keywords).value, RowKey)
  {
    var u := Seqs.DedupBy(candidates, RowKey, {});
    var r := DedupAndScore(candidates, keywords).value;
    DedupAndScoreCorrect(candidates, keywords);
    Seqs.SubseqMembers(u, candidates);
    forall x | x in r
      ensures x.relevance.Some? && 30 <= x.relevance.value <= 100
      ensures exists c :: c in candidates && IsScoredFrom(x, c, keywords)
    {
      var i :| 0 <= i < |r| && r[i] == x;
      assert u[i] in candidates && IsScoredFrom(x, u[i], keywords);
      SrcMatcher.RelevanceScoreBounds(u[i].title.value, u[i].description.value, keywords);
    }
  }


  /** Without a stored profile the recent quality postings come back as the query returned them, unscored. */
  lemma NoProfileMatches(totalJobs: int, answers: QueryAnswers, limit: nat)
    requires totalJobs != 0
    ensures DatabaseMatches(totalJobs, None, answers, limit) == answers.recentUpToLimit
  {
  }

  // ---------------------------------------------------------------------
  // The profile store
  // ---------------------------------------------------------------------

  /** A `user_profiles` row. */
  datatype ProfileRow = ProfileRow(id: int, sessionId: string, profileData: string, lastSearch: int)

  /** The session id a profile is stored under: its `user_session_id`, or "unknown" when it has none. */
  function SessionKey(sessionId: Option<string>): string {
    sessionId.GetOr("unknown")
  }

  /** The rows of every other session, in order. */
  function OtherSessions(rows: seq<ProfileRow>, sessionId: string): seq<ProfileRow>
    decreases |rows|
  {
    if rows == [] then []
    else if rows[0].sessionId == sessionId then OtherSessions(rows[1..], sessionId)
    else [rows[0]] + OtherSessions(rows[1..], sessionId)
  }

  /** The rows kept are exactly the rows of the other sessions. */
  lemma {:induction false} OtherSessionsMembers(rows: seq<ProfileRow>, sessionId: string)
    ensures forall x :: x in OtherSessions(rows, sessionId) <==> x in rows && x.sessionId != sessionId
    decreases |rows|
  {
    if rows != [] {
      OtherSessionsMembers(rows[1..], sessionId);
      assert forall x :: x in rows <==> x == rows[0] || x in rows[1..];
    }
  }

  /** The profile stored for a session, if any. */
  function Lookup(rows: seq<ProfileRow>, sessionId: string): Option<string>
    decreases |rows|
  {
    if rows == [] then None
    else if rows[0].sessionId == sessionId then Some(rows[0].profileData)
    else Lookup(rows[1..], sessionId)
  }

  /** One row per session id, and every id below the next one to hand out. */
  predicate ValidRows(rows: seq<ProfileRow>, nextId: int) {
    && (forall i, j :: 0 <= i < j < |rows| ==> rows[i].sessionId != rows[j].sessionId)
    && (forall i :: 0 <= i < |rows| ==> rows[i].id < nextId)
  }

  /** Replacing a session's row keeps one row per session id and fresh ids. */
  lemma StoreKeepsValid(rows: seq<ProfileRow>, nextId: int, sessionId: string, profileData: string, now: int)
    requires ValidRows(rows, nextId)
    ensures ValidRows(OtherSessions(rows, sessionId) + [ProfileRow(nextId, sessionId, profileData, now)], nextId + 1)
  {
    var kept := OtherSessions(rows, sessionId);
    var after := kept + [ProfileRow(nextId, sessionId, profileData, now)];
    OtherSessionsDistinct(rows, sessionId);
    OtherSessionsMembers(rows, sessionId);
    forall i | 0 <= i < |after|
      ensures after[i].id < nextId + 1
    {
      if i < |kept| {
        assert after[i] in rows;
      }
    }
    forall i, j | 0 <= i < j < |after|
      ensures after[i].sessionId != after[j].sessionId
    {
      if j == |kept| {
        assert after[i] in kept;
      }
    }
  }

  /** The `user_profiles` table, whose `user_session_id` is UNIQUE. */
  class ProfileTable {
    var rows: seq<ProfileRow>
    var nextId: int

    predicate Valid()
      reads this
    {
      ValidRows(rows, nextId)
    }

    constructor ()
      ensures Valid() && rows == [] && nextId == 1
    {
      rows := [];
      nextId := 1;
    }

    /**
     * `_store_user_profile`: INSERT OR REPLACE deletes the row that has the
     * same session id, if any, and inserts a new row stamped `now`.
     */
    method StoreUserProfile(sessionId: Option<string>, profileData: string, now: int)
      requires Valid()
      modifies this
      ensures Valid()
      ensures rows == OtherSessions(old(rows), SessionKey(sessionId)) + [ProfileRow(old(nextId), SessionKey(sessionId), profileData, now)]
      ensures nextId == old(nextId) + 1
    {
      var key := SessionKey(sessionId);
      var current := rows;
      var kept: seq<ProfileRow> := [];
      var i := 0;
      while i < |current|
        invariant 0 <= i <= |current|
        invariant kept + OtherSessions(current[i..], key) == OtherSessions(current, key)
      {
        assert current[i..][1..] == current[i + 1..];
        if current[i].sessionId != key {
          kept := kept + [current[i]];
        }
        i := i + 1;
      }
      assert current[i..] == [];
      assert kept == OtherSessions(current, key);
      StoreKeepsValid(current, nextId, key, profileData, now);
      rows := kept + [ProfileRow(nextId, key, profileData, now)];
      nextId := nextId + 1;
      assert ValidRows(rows, nextId);
    }
  }

  lemma {:induction false} OtherSessionsDistinct(rows: seq<ProfileRow>, sessionId: string)
    requires forall i, j :: 0 <= i < j < |rows| ==> rows[i].sessionId != rows[j].sessionId
    ensures forall i, j :: 0 <= i < j < |OtherSessions(rows, sessionId)| ==>
              OtherSessions(rows, sessionId)[i].sessionId != OtherSessions(rows, sessionId)[j].sessionId
    decreases |rows|
  {
    if rows != [] {
      OtherSessionsDistinct(rows[1..], sessionId);
      var rest := OtherSessions(rows[1..], sessionId);
      if rows[0].sessionId != sessionId {
        var r := [rows[0]] + rest;
        forall j | 1 <= j < |r|
          ensures r[0].sessionId != r[j].sessionId
        {
          assert r[j] in rest;
          OtherSessionsMembers(rows[1..], sessionId);
          var k :| 0 <= k < |rows[1..]| && rows[1..][k] == r[j];
          assert rows[k + 1] == r[j];
        }
      }
    }
  }

  lemma {:induction false} LookupOfAppend(rows: seq<ProfileRow>, row: ProfileRow, sessionId: string)
    requires forall x :: x in rows ==> x.sessionId != sessionId
    ensures Lookup(rows + [row], sessionId) == if row.sessionId == sessionId then Some(row.profileData) else None
    decreases |rows|
  {
    if rows == [] {
      assert rows + [row] == [row];
    } else {
      assert (rows + [row])[1..] == rows[1..] + [row];
      LookupOfAppend(rows[1..], row, sessionId);
    }
  }

  lemma {:induction false} LookupOtherSessions(rows: seq<ProfileRow>, dropped: string, sessionId: string)
    requires sessionId != dropped
    ensures Lookup(OtherSessions(rows, dropped), sessionId) == Lookup(rows, sessionId)
    decreases |rows|
  {
    if rows != [] {
      LookupOtherSessions(rows[1..], dropped, sessionId);
    }
  }

  lemma {:induction false} LookupPrefix(rows: seq<ProfileRow>, row: ProfileRow, sessionId: string)
    requires Lookup(rows, sessionId).Some?
    ensures Lookup(rows + [row], sessionId) == Lookup(rows, sessionId)
    decreases |rows|
  {
    if rows[0].sessionId != sessionId {
      assert (rows + [row])[1..] == rows[1..] + [row];
      LookupPrefix(rows[1..], row, sessionId);
    }
  }

  lemma {:induction false} LookupAbsent(rows: seq<ProfileRow>, sessionId: string)
    requires Lookup(rows, sessionId).None?
    ensures forall x :: x in rows ==> x.sessionId != sessionId
    decreases |rows|
  {
    if rows != [] {
      LookupAbsent(rows[1..], sessionId);
    }
  }

  /**
   * After a store, the session holds the profile just stored and exactly one
   * row; every other session still holds what it held.
   */
  lemma StoreReplaces(rows: seq<ProfileRow>, nextId: int, sessionId: string, profileData: string, now: int, other: string)
    requires other != sessionId
    ensures var after := OtherSessions(rows, sessionId) + [ProfileRow(nextId, sessionId, profileData, now)];
      && Lookup(after, sessionId) == Some(profileData)
      && |set i | 0 <= i < |after| && after[i].sessionId == sessionId| == 1
      && Lookup(after, other) == Lookup(rows, other)
  {
    var kept := OtherSessions(rows, sessionId);
    var row := ProfileRow(nextId, sessionId, profileData, now);
    var after := kept + [row];
    OtherSessionsMembers(rows, sessionId);
    LookupOfAppend(kept, row, sessionId);
    LookupOtherSessions(rows, sessionId, other);
    if Lookup(kept, other).Some? {
      LookupPrefix(kept, row, other);
    } else {
      LookupAbsent(kept, other);
      LookupOfAppend(kept, row, other);
    }
    assert (set i | 0 <= i < |after| && after[i].sessionId == sessionId) == {|kept|} by {
      forall i | 0 <= i < |after| && after[i].sessionId == sessionId
        ensures i == |kept|
      {
      }
    }
  }

  // ---------------------------------------------------------------------
  // Age distribution
  // ---------------------------------------------------------------------

  datatype AgeDistribution = AgeDistribution(totalJobs: int, freshCount: int, recentCount: int, agingCount: int, staleCount: int)

  /**
   * `get_job_age_distribution`: the row count (0 when the count query fails)
   * and zero in every age category.
   */
  function JobAgeDistribution(count: Option<int>): (r: AgeDistribution)
    ensures r.freshCount == 0 && r.recentCount == 0 && r.agingCount == 0 && r.staleCount == 0
    ensures r.totalJobs == count.GetOr(0)
  {
    AgeDistribution(count.GetOr(0), 0, 0, 0, 0)
  }
}
