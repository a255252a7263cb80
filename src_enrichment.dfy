/**
 * The enrichment engine of `src/skillscope/core/data_enrichment.py`:
 * staleness purge and freshness labels, the age distribution and health
 * ratio, the maintenance decision, the rate-limit test, the reply parser for
 * `JOB_ID:/COMPANY:/INDUSTRY:/DESCRIPTION:` answers, the updates that write
 * only missing fields, and the backoff loops of `main` and
 * `run_data_enrichment_for_app`.
 *
 * The `job_postings` table is a sequence of rows in table order.
 * Timestamps are integers (seconds); the clock is a parameter `now`.
 */
module SrcEnrichment {
  import opened Wrappers
  import opened Text
  import Seqs

  const SecondsPerDay: int := 86400
  const DefaultMaxJobAgeDays: int := 30

  datatype Freshness = Active | Inactive

  datatype EnrichmentStatus = Full | Partial | Pending

  /** A `job_postings` row, reduced to the columns enrichment and maintenance read or write. */
  datatype Posting = Posting(
    id: int,
    company: Option<string>,
    description: Option<string>,
    industry: Option<string>,             // company_industry
    companyDescription: Option<string>,   // company_description
    lastSeen: Option<int>,                // last_seen_timestamp
    freshness: Option<Freshness>,         // job_freshness
    status: Option<EnrichmentStatus>)     // enrichment_status

  // ---------------------------------------------------------------------
  // Staleness: `clean_old_jobs`, `_update_job_freshness_categories`,
  // `get_job_age_distribution`, `get_database_health_report`
  // ---------------------------------------------------------------------

  /** `datetime.now() - timedelta(days=max_age_days)` */
  function Cutoff(now: int, maxAgeDays: int): int {
    now - maxAgeDays * SecondsPerDay
  }

  /** `last_seen_timestamp >= cutoff`; a NULL timestamp is never recent. */
  predicate IsActive(p: Posting, cutoff: int) {
    p.lastSeen.Some? && p.lastSeen.value >= cutoff
  }

  /** `last_seen_timestamp < cutoff OR last_seen_timestamp IS NULL` */
  predicate IsOld(p: Posting, cutoff: int) {
    p.lastSeen.None? || p.lastSeen.value < cutoff
  }

  function CountOld(rows: seq<Posting>, cutoff: int): nat
    decreases |rows|
  {
    if rows == [] then 0 else (if IsOld(rows[0], cutoff) then 1 else 0) + CountOld(rows[1..], cutoff)
  }

  function CountActive(rows: seq<Posting>, cutoff: int): nat
    decreases |rows|
  {
    if rows == [] then 0 else (if IsActive(rows[0], cutoff) then 1 else 0) + CountActive(rows[1..], cutoff)
  }

  /** What `DELETE ... WHERE last_seen_timestamp < ? OR last_seen_timestamp IS NULL` leaves. */
  function Survivors(rows: seq<Posting>, cutoff: int): (r: seq<Posting>)
    ensures |r| <= |rows|
    decreases |rows|
  {
    if rows == [] then []
    else if IsOld(rows[0], cutoff) then Survivors(rows[1..], cutoff)
    else [rows[0]] + Survivors(rows[1..], cutoff)
  }

  /**
   * The purge deletes exactly the old rows: every survivor was seen at or
   * after the cutoff, every such row survives, survivors keep table order,
   * and the removed count is the number of old rows.
   */
  lemma {:induction false} SurvivorsCorrect(rows: seq<Posting>, cutoff: int)
    ensures forall p :: p in Survivors(rows, cutoff) ==> p.lastSeen.Some? && p.lastSeen.value >= cutoff
    ensures forall p :: p in rows && IsActive(p, cutoff) ==> p in Survivors(rows, cutoff)
    ensures Seqs.IsSubseq(Survivors(rows, cutoff), rows)
    ensures |Survivors(rows, cutoff)| == |rows| - CountOld(rows, cutoff)
    decreases |rows|
  {
    if rows != [] {
      SurvivorsCorrect(rows[1..], cutoff);
      var rest := Survivors(rows[1..], cutoff);
      if !IsOld(rows[0], cutoff) {
        assert ([rows[0]] + rest)[1..] == rest;
      }
    }
  }

  /** With nothing old in the table, the purge deletes nothing. */
  lemma {:induction false} SurvivorsWithoutOld(rows: seq<Posting>, cutoff: int)
    requires CountOld(rows, cutoff) == 0
    ensures Survivors(rows, cutoff) == rows
    decreases |rows|
  {
    if rows != [] {
      SurvivorsWithoutOld(rows[1..], cutoff);
    }
  }

  /** After the purge no old row is left. */
  lemma {:induction false} SurvivorsHaveNoOld(rows: seq<Posting>, cutoff: int)
    ensures CountOld(Survivors(rows, cutoff), cutoff) == 0
    decreases |rows|
  {
    if rows != [] {
      SurvivorsHaveNoOld(rows[1..], cutoff);
      if !IsOld(rows[0], cutoff) {
        assert ([rows[0]] + Survivors(rows[1..], cutoff))[1..] == Survivors(rows[1..], cutoff);
      }
    }
  }

  /** Every row is counted once, as active or as old. */
  lemma {:induction false} ActivePlusOld(rows: seq<Posting>, cutoff: int)
    ensures CountActive(rows, cutoff) + CountOld(rows, cutoff) == |rows|
    decreases |rows|
  {
    if rows != [] {
      ActivePlusOld(rows[1..], cutoff);
    }
  }

  /** The `CASE WHEN last_seen_timestamp >= ? THEN 'active' ELSE 'inactive' END` label. */
  function FreshnessOf(p: Posting, cutoff: int): Freshness {
    if IsActive(p, cutoff) then Active else Inactive
  }

  /** Every row relabelled; no other column changes. */
  function WithFreshness(rows: seq<Posting>, cutoff: int): (r: seq<Posting>)
    ensures |r| == |rows|
  {
    seq(|rows|, i requires 0 <= i < |rows| => rows[i].(freshness := Some(FreshnessOf(rows[i], cutoff))))
  }

  function CountLabelled(rows: seq<Posting>, tag: Freshness): nat
    decreases |rows|
  {
    if rows == [] then 0 else (if rows[0].freshness == Some(tag) then 1 else 0) + CountLabelled(rows[1..], tag)
  }

  /**
   * After relabelling, the rows marked 'active' are as many as the active
   * count of the age distribution, and the 'inactive' ones as many as the
   * old count.
   */
  lemma {:induction false} FreshnessMatchesDistribution(rows: seq<Posting>, cutoff: int)
    ensures CountLabelled(WithFreshness(rows, cutoff), Active) == CountActive(rows, cutoff)
    ensures CountLabelled(WithFreshness(rows, cutoff), Inactive) == CountOld(rows, cutoff)
    decreases |rows|
  {
    if rows != [] {
      FreshnessMatchesDistribution(rows[1..], cutoff);
      assert WithFreshness(rows, cutoff)[1..] == WithFreshness(rows[1..], cutoff);
    }
  }

  /** Relabelling does not touch `last_seen_timestamp`, so it does not change which rows are old. */
  lemma {:induction false} WithFreshnessKeepsOld(rows: seq<Posting>, cutoff: int, other: int)
    ensures CountOld(WithFreshness(rows, cutoff), other) == CountOld(rows, other)
    decreases |rows|
  {
    if rows != [] {
      assert WithFreshness(rows, cutoff)[1..] == WithFreshness(rows[1..], cutoff);
      WithFreshnessKeepsOld(rows[1..], cutoff, other);
    }
  }

  datatype AgeDistribution = AgeDistribution(active: nat, stale: nat, total: nat, cutoff: int, maxAgeDays: int)

  /** `get_job_age_distribution`: the three counts always add up. */
  function JobAgeDistribution(rows: seq<Posting>, now: int, maxAgeDays: int): (d: AgeDistribution)
    ensures d.active + d.stale == d.total == |rows|
    ensures d.cutoff == Cutoff(now, maxAgeDays)
  {
    var cutoff := Cutoff(now, maxAgeDays);
    ActivePlusOld(rows, cutoff);
    AgeDistribution(CountActive(rows, cutoff), CountOld(rows, cutoff), |rows|, cutoff, maxAgeDays)
  }

  datatype HealthReport = HealthReport(totalJobs: nat, activeJobs: nat, oldJobs: nat, freshnessRatio: real, healthScore: real)

  /**
   * `get_database_health_report`: the freshness ratio is active over total,
   * 0 for an empty table, and always a fraction between 0 and 1; it is 1
   * exactly when the table is non-empty and holds no old row.
   */
  function DatabaseHealthReport(rows: seq<Posting>, now: int, maxAgeDays: int): (h: HealthReport)
    ensures 0.0 <= h.freshnessRatio <= 1.0
    ensures h.totalJobs == 0 ==> h.freshnessRatio == 0.0
    ensures h.totalJobs > 0 ==> h.freshnessRatio * (h.totalJobs as real) == h.activeJobs as real
    ensures h.freshnessRatio == 1.0 <==> h.totalJobs > 0 && h.oldJobs == 0
    ensures h.healthScore == h.freshnessRatio
    ensures h.totalJobs == |rows| && h.activeJobs + h.oldJobs == h.totalJobs
  {
    var d := JobAgeDistribution(rows, now, maxAgeDays);
    var ratio := if d.total > 0 then d.active as real / d.total as real else 0.0;
    RatioBounds(d.active, d.total);
    HealthReport(d.total, d.active, d.stale, ratio, ratio)
  }

  /** `part / whole` for `part <= whole` lies in [0, 1] and is 1 exactly when the two are equal. */
  lemma RatioBounds(part: nat, whole: nat)
    requires part <= whole
    ensures var ratio := if whole > 0 then part as real / whole as real else 0.0;
            && 0.0 <= ratio <= 1.0
            && (whole > 0 ==> ratio * (whole as real) == part as real)
            && (ratio == 1.0 <==> whole > 0 && part == whole)
  {
    if whole > 0 {
      var ratio := part as real / whole as real;
      assert ratio * (whole as real) == part as real;
      if ratio == 1.0 {
        assert part as real == whole as real;
      }
      assert ratio <= 1.0 by {
        assert ratio * (whole as real) <= 1.0 * (whole as real);
      }
    }
  }

  // ---------------------------------------------------------------------
  // Maintenance decision: `auto_database_maintenance`
  // ---------------------------------------------------------------------

  datatype Reason = OldJobsFound(count: nat) | WeeklyCleanupDue

  /** The reasons collected, in order: old rows first, then the weekly schedule. */
  function MaintenanceReasons(oldCount: nat, lastCleanup: Option<int>, now: int): (reasons: seq<Reason>)
    ensures |reasons| <= 2
  {
    (if oldCount > 0 then [OldJobsFound(oldCount)] else [])
    + (if lastCleanup.None? || (now - lastCleanup.value) / SecondsPerDay >= 7 then [WeeklyCleanupDue] else [])
  }

  /**
   * Maintenance is needed exactly when there are old rows, no cleanup was
   * ever recorded, or the last one is at least seven whole days (604800
   * seconds) ago.
   */
  lemma MaintenanceNeededIff(oldCount: nat, lastCleanup: Option<int>, now: int)
    ensures MaintenanceReasons(oldCount, lastCleanup, now) != [] <==>
              oldCount > 0 || lastCleanup.None? || now - lastCleanup.value >= 7 * SecondsPerDay
  {
    if lastCleanup.Some? {
      var elapsed := now - lastCleanup.value;
      if elapsed >= 7 * SecondsPerDay {
        assert elapsed / SecondsPerDay >= 7;
      } else {
        assert elapsed / SecondsPerDay < 7;
      }
    }
  }

  datatype Action = RemovedOldJobs | UpdatedJobFreshness

  datatype CleanupReport = CleanupReport(removed: nat, before: nat, after: nat, cutoff: int, maxAgeDays: int)

  datatype MaintenanceResult = MaintenanceResult(
    needed: bool,
    reasons: seq<Reason>,
    before: AgeDistribution,
    actions: seq<Action>,
    after: Option<AgeDistribution>)

  /**
   * The job database as maintenance sees it: the rows and the
   * `last_cleanup_date` entry of `database_metadata`.
   */
  class JobDatabase {
    var rows: seq<Posting>
    var lastCleanup: Option<int>

    constructor (initialRows: seq<Posting>, initialCleanup: Option<int>)
      ensures rows == initialRows && lastCleanup == initialCleanup
    {
      rows := initialRows;
      lastCleanup := initialCleanup;
    }

    /**
     * `clean_old_jobs`: deletes the old rows (only when there are some),
     * records the cleanup time, and reports the counts before and after.
     */
    method CleanOldJobs(now: int, maxAgeDays: int) returns (report: CleanupReport)
      modifies this
      ensures rows == Survivors(old(rows), Cutoff(now, maxAgeDays))
      ensures lastCleanup == Some(now)
      ensures report.removed == CountOld(old(rows), Cutoff(now, maxAgeDays))
      ensures report.before == |old(rows)| && report.after == |rows|
      ensures report.after == report.before - report.removed
      ensures report.cutoff == Cutoff(now, maxAgeDays) && report.maxAgeDays == maxAgeDays
    {
      var cutoff := Cutoff(now, maxAgeDays);
      var oldCount := CountOld(rows, cutoff);
      var before := |rows|;
      SurvivorsCorrect(rows, cutoff);
      if oldCount > 0 {
        rows := Survivors(rows, cutoff);
      } else {
        SurvivorsWithoutOld(rows, cutoff);
      }
      var after := |rows|;
      lastCleanup := Some(now);
      report := CleanupReport(oldCount, before, after, cutoff, maxAgeDays);
    }

    /** `_update_job_freshness_categories`: every row is labelled active or inactive. */
    method UpdateFreshness(now: int, maxAgeDays: int)
      modifies this
      ensures rows == WithFreshness(old(rows), Cutoff(now, maxAgeDays))
      ensures lastCleanup == old(lastCleanup)
    {
      rows := WithFreshness(rows, Cutoff(now, maxAgeDays));
    }

    /**
     * `auto_database_maintenance`: when a reason is found, runs the simple
     * cleanup (purge, then relabel); otherwise changes nothing.
     */
    method AutoMaintenance(now: int, maxAgeDays: int) returns (result: MaintenanceResult)
      modifies this
      ensures result.before == JobAgeDistribution(old(rows), now, maxAgeDays)
      ensures result.reasons == MaintenanceReasons(result.before.stale, old(lastCleanup), now)
      ensures result.needed <==> result.reasons != []
      ensures result.needed ==> rows == WithFreshness(Survivors(old(rows), Cutoff(now, maxAgeDays)), Cutoff(now, maxAgeDays))
      ensures result.needed ==> lastCleanup == Some(now)
      ensures result.needed ==> result.actions == [RemovedOldJobs, UpdatedJobFreshness]
      ensures result.needed ==> result.after == Some(JobAgeDistribution(rows, now, maxAgeDays))
      ensures !result.needed ==> rows == old(rows) && lastCleanup == old(lastCleanup)
      ensures !result.needed ==> result.actions == [] && result.after == None
    {
      var before := JobAgeDistribution(rows, now, maxAgeDays);
      var reasons := MaintenanceReasons(before.stale, lastCleanup, now);
      var needed := reasons != [];
      if needed {
        var _ := CleanOldJobs(now, maxAgeDays);
        UpdateFreshness(now, maxAgeDays);
        result := MaintenanceResult(true, reasons, before, [RemovedOldJobs, UpdatedJobFreshness],
                                    Some(JobAgeDistribution(rows, now, maxAgeDays)));
      } else {
        result := MaintenanceResult(false, reasons, before, [], None);
      }
    }

    /**
     * `batch_enrichment`: selects the rows, builds `jobs_data`, parses the
     * reply, and writes each job's missing fields and new status.
     */
    method BatchEnrichment(batchSize: nat, reply: Option<string>) returns (ok: bool)
      modifies this
      ensures rows == Batch(old(rows), batchSize, reply).rows
      ensures ok == Batch(old(rows), batchSize, reply).ok
      ensures lastCleanup == old(lastCleanup)
    {
      var records := SelectRecords(rows, batchSize);
      if records == [] {
        return true;
      }
      var jobs: seq<JobRequest> := [];
      var i := 0;
      while i < |records|
        invariant 0 <= i <= |records|
        invariant jobs + JobsData(records[i..]) == JobsData(records)
      {
        assert records[i..][1..] == records[i + 1..];
        var job := RequestFor(records[i]);
        if NeedsAny(job) {
          jobs := jobs + [job];
        }
        i := i + 1;
      }
      assert records[i..] == [];
      if jobs == [] {
        return true;
      }
      if reply.None? {
        return false;
      }
      var saved := ParseReply(reply.value);
      var table := rows;
      var updatedCount := 0;
      var k := 0;
      while k < |jobs|
        invariant 0 <= k <= |jobs|
        invariant ApplyAll(Applied(table, updatedCount), jobs[k..], saved) == ApplyAll(Applied(old(rows), 0), jobs, saved)
      {
        var job := jobs[k];
        var key := IntToString(job.id);
        if key in saved {
          var f := Filtered(job, saved[key]);
          // An UPDATE that matches no row changes nothing and is not counted.
          if f != NoUpdates && HasRow(table, job.id) {
            table := UpdateRows(table, job.id, f);
            updatedCount := updatedCount + 1;
          }
        }
        assert jobs[k..][1..] == jobs[k + 1..];
        k := k + 1;
      }
      assert jobs[k..] == [];
      assert jobs == JobsData(SelectRecords(old(rows), batchSize));
      assert Applied(table, updatedCount) == ApplyAll(Applied(old(rows), 0), jobs, saved);
      rows := table;
      ok := updatedCount > 0 || |saved| > 0;
    }
  }

  /**
   * Maintenance settles: after it has run at time `now`, running it again at
   * the same time finds no reason, because no old row is left and the
   * cleanup was just recorded.
   */
  lemma MaintenanceSettles(rows: seq<Posting>, now: int, maxAgeDays: int)
    ensures var cutoff := Cutoff(now, maxAgeDays);
            var after := WithFreshness(Survivors(rows, cutoff), cutoff);
            MaintenanceReasons(JobAgeDistribution(after, now, maxAgeDays).stale, Some(now), now) == []
  {
    var cutoff := Cutoff(now, maxAgeDays);
    SurvivorsHaveNoOld(rows, cutoff);
    WithFreshnessKeepsOld(Survivors(rows, cutoff), cutoff, cutoff);
  }

  /** After the cleanup every remaining row is labelled active. */
  lemma {:induction false} CleanupLeavesOnlyActive(rows: seq<Posting>, cutoff: int)
    ensures forall p :: p in WithFreshness(Survivors(rows, cutoff), cutoff) ==> p.freshness == Some(Active)
  {
    SurvivorsCorrect(rows, cutoff);
    var s := Survivors(rows, cutoff);
    forall p | p in WithFreshness(s, cutoff)
      ensures p.freshness == Some(Active)
    {
      var i :| 0 <= i < |s| && WithFreshness(s, cutoff)[i] == p;
      assert s[i] in s;
    }
  }

  // ---------------------------------------------------------------------
  // `is_rate_limit_error`
  // ---------------------------------------------------------------------

  /** The Together API's rate-limit message, recognised in three ways. */
  predicate IsRateLimitError(msg: string) {
    msg != [] &&
    (Contains(Lower(msg), "rate limit")
     || Contains(msg, "You have reached the rate limit")
     || Contains(msg, "model_rate_limit"))
  }

  /**
   * The middle test is subsumed by the first: a message containing "You
   * have reached the rate limit" contains "rate limit" once lower-cased,
   * and an empty message contains neither text.
   */
  lemma RateLimitTwoTests(msg: string)
    ensures IsRateLimitError(msg) <==> Contains(Lower(msg), "rate limit") || Contains(msg, "model_rate_limit")
  {
    if Contains(msg, "You have reached the rate limit") {
      ContainsLower(msg, "You have reached the rate limit");
      FullMessageMentionsRateLimit();
      ContainsTransitive(Lower(msg), Lower("You have reached the rate limit"), "rate limit");
    }
  }

  lemma FullMessageMentionsRateLimit()
    ensures Contains(Lower("You have reached the rate limit"), "rate limit")
  {
    assert "You have reached the " + "rate limit" == "You have reached the rate limit";
    LowerSuffixKept("You have reached the ", "rate limit");
  }

  lemma LowerSuffixKept(head: string, tail: string)
    requires IsLower(tail)
    ensures Contains(Lower(head + tail), tail)
  {
    LowerAppend(head, tail);
    LowerOfLower(tail);
    assert OccursAt(Lower(head) + tail, tail, |head|);
    ContainsIffOccurs(Lower(head) + tail, tail);
  }

  // ---------------------------------------------------------------------
  // The reply parser of `batch_enrichment`
  // ---------------------------------------------------------------------

  /** The fields one reply record proposes (`current_updates`). */
  datatype Updates = Updates(company: Option<string>, industry: Option<string>, description: Option<string>)

  const NoUpdates: Updates := Updates(None, None, None)

  /** A COMPANY value is kept only if longer than 2 and not a placeholder. */
  predicate AcceptCompany(v: string) {
    |v| > 2 && Lower(v) !in ["unknown", "n/a", "not specified", "missing", "various"]
  }

  /** An INDUSTRY value: the same rule without "missing" among the placeholders. */
  predicate AcceptIndustry(v: string) {
    |v| > 2 && Lower(v) !in ["unknown", "n/a", "not specified", "various"]
  }

  /** A DESCRIPTION value must be longer than 10 and not a placeholder. */
  predicate AcceptDescription(v: string) {
    |v| > 10 && Lower(v) !in ["unknown", "n/a", "not specified", "not available"]
  }

  /** `line.replace(tag, '').strip()` */
  function TagValue(line: string, tag: string): string
    requires tag != []
  {
    Strip(RemoveAll(line, tag))
  }

  predicate IsIdLine(raw: string) {
    StartsWith(Strip(raw), "JOB_ID:")
  }

  /** The id a `JOB_ID:` line names. */
  function IdOf(raw: string): string {
    TagValue(Strip(raw), "JOB_ID:")
  }

  /** `current_job_id`, `current_updates` and `all_updates`. */
  datatype ParseState = ParseState(currentId: Option<string>, current: Updates, saved: map<string, Updates>)

  const Start: ParseState := ParseState(None, NoUpdates, map[])

  /** Field lines count only while the current id is a non-empty string. */
  predicate HasId(st: ParseState) {
    st.currentId.Some? && st.currentId.value != []
  }

  /** Saving the record in progress: only when an id was seen and the record holds an update. */
  function Flush(st: ParseState): map<string, Updates> {
    if st.currentId.Some? && st.current != NoUpdates then st.saved[st.currentId.value := st.current] else st.saved
  }

  /** One line of the reply. */
  function Step(st: ParseState, raw: string): ParseState {
    var line := Strip(raw);
    if line == [] then st
    else if StartsWith(line, "JOB_ID:") then ParseState(Some(TagValue(line, "JOB_ID:")), NoUpdates, Flush(st))
    else if StartsWith(line, "COMPANY:") && HasId(st) then
      var v := TagValue(line, "COMPANY:");
      if AcceptCompany(v) then st.(current := st.current.(company := Some(v))) else st
    else if StartsWith(line, "INDUSTRY:") && HasId(st) then
      var v := TagValue(line, "INDUSTRY:");
      if AcceptIndustry(v) then st.(current := st.current.(industry := Some(v))) else st
    else if StartsWith(line, "DESCRIPTION:") && HasId(st) then
      var v := TagValue(line, "DESCRIPTION:");
      if AcceptDescription(v) then st.(current := st.current.(description := Some(v))) else st
    else st
  }

  function Fold(st: ParseState, lines: seq<string>): ParseState
    decreases |lines|
  {
    if lines == [] then st else Fold(Step(st, lines[0]), lines[1..])
  }

  /** The records parsed from the reply's lines, with the last record saved at the end. */
  function ParseLines(lines: seq<string>): map<string, Updates> {
    Flush(Fold(Start, lines))
  }

  /** `all_updates` for a reply text split on newlines. */
  function ParsedUpdates(reply: string): map<string, Updates> {
    ParseLines(Split(reply, '\n'))
  }

  /** The parse loop of `batch_enrichment`. */
  method ParseReply(reply: string) returns (saved: map<string, Updates>)
    ensures saved == ParsedUpdates(reply)
  {
    var lines := Split(reply, '\n');
    var currentId: Option<string> := None;
    var current := NoUpdates;
    saved := map[];
    var i := 0;
    while i < |lines|
      invariant 0 <= i <= |lines|
      invariant Fold(ParseState(currentId, current, saved), lines[i..]) == Fold(Start, lines)
    {
      ghost var before := ParseState(currentId, current, saved);
      var line := Strip(lines[i]);
      if line == [] {
      } else if StartsWith(line, "JOB_ID:") {
        if currentId.Some? && current != NoUpdates {
          saved := saved[currentId.value := current];
        }
        currentId := Some(TagValue(line, "JOB_ID:"));
        current := NoUpdates;
      } else if StartsWith(line, "COMPANY:") && currentId.Some? && currentId.value != [] {
        var v := TagValue(line, "COMPANY:");
        if AcceptCompany(v) {
          current := current.(company := Some(v));
        }
      } else if StartsWith(line, "INDUSTRY:") && currentId.Some? && currentId.value != [] {
        var v := TagValue(line, "INDUSTRY:");
        if AcceptIndustry(v) {
          current := current.(industry := Some(v));
        }
      } else if StartsWith(line, "DESCRIPTION:") && currentId.Some? && currentId.value != [] {
        var v := TagValue(line, "DESCRIPTION:");
        if AcceptDescription(v) {
          current := current.(description := Some(v));
        }
      }
      assert ParseState(currentId, current, saved) == Step(before, lines[i]);
      assert lines[i..][1..] == lines[i + 1..];
      i := i + 1;
    }
    assert lines[i..] == [];
    if currentId.Some? && current != NoUpdates {
      saved := saved[currentId.value := current];
    }
  }

  /** A proposed value as the parser leaves it: stripped, and accepted by its field's rule. */
  predicate ValidUpdates(u: Updates) {
    (u.company.Some? ==> Strip(u.company.value) == u.company.value && AcceptCompany(u.company.value))
    && (u.industry.Some? ==> Strip(u.industry.value) == u.industry.value && AcceptIndustry(u.industry.value))
    && (u.description.Some? ==> Strip(u.description.value) == u.description.value && AcceptDescription(u.description.value))
  }

  /** Every saved record has a non-empty id and at least one valid update. */
  predicate ValidRecords(m: map<string, Updates>) {
    forall k :: k in m ==> k != [] && m[k] != NoUpdates && ValidUpdates(m[k])
  }

  predicate ValidState(st: ParseState) {
    ValidRecords(st.saved) && ValidUpdates(st.current) && (st.current != NoUpdates ==> HasId(st))
  }

  lemma FlushValid(st: ParseState)
    requires ValidState(st)
    ensures ValidRecords(Flush(st))
  {
  }

  lemma StepValid(st: ParseState, raw: string)
    requires ValidState(st)
    ensures ValidState(Step(st, raw))
  {
    var line := Strip(raw);
    if line != [] && StartsWith(line, "JOB_ID:") {
      FlushValid(st);
    } else if line != [] && StartsWith(line, "COMPANY:") {
      StripIdempotent(RemoveAll(line, "COMPANY:"));
    } else if line != [] && StartsWith(line, "INDUSTRY:") {
      StripIdempotent(RemoveAll(line, "INDUSTRY:"));
    } else if line != [] && StartsWith(line, "DESCRIPTION:") {
      StripIdempotent(RemoveAll(line, "DESCRIPTION:"));
    }
  }

  lemma {:induction false} FoldValid(st: ParseState, lines: seq<string>)
    requires ValidState(st)
    ensures ValidState(Fold(st, lines))
    decreases |lines|
  {
    if lines != [] {
      StepValid(st, lines[0]);
      FoldValid(Step(st, lines[0]), lines[1..]);
    }
  }

  /**
   * Every record the parser returns is keyed by a non-empty id, holds at
   * least one field, and each field passed its length and placeholder rule.
   */
  lemma ParsedUpdatesValid(reply: string)
    ensures ValidRecords(ParsedUpdates(reply))
  {
    FoldValid(Start, Split(reply, '\n'));
    FlushValid(Fold(Start, Split(reply, '\n')));
  }

  lemma {:induction false} FoldAppend(st: ParseState, a: seq<string>, b: seq<string>)
    ensures Fold(st, a + b) == Fold(Fold(st, a), b)
    decreases |a|
  {
    if a != [] {
      assert (a + b)[1..] == a[1..] + b;
      FoldAppend(Step(st, a[0]), a[1..], b);
    } else {
      assert a + b == b;
    }
  }

  lemma {:induction false} IdlessFromStart(lines: seq<string>)
    requires forall k :: 0 <= k < |lines| ==> !IsIdLine(lines[k])
    ensures Fold(Start, lines) == Start
    decreases |lines|
  {
    if lines != [] {
      assert Step(Start, lines[0]) == Start;
      IdlessFromStart(lines[1..]);
    }
  }

  /** Field lines that come before the first `JOB_ID:` line are ignored. */
  lemma LinesBeforeFirstIdIgnored(before: seq<string>, rest: seq<string>)
    requires forall k :: 0 <= k < |before| ==> !IsIdLine(before[k])
    ensures ParseLines(before + rest) == ParseLines(rest)
  {
    FoldAppend(Start, before, rest);
    IdlessFromStart(before);
  }

  /** The updates collected for record `id` from lines that hold no further `JOB_ID:`. */
  function RecordOf(id: string, body: seq<string>): Updates {
    Fold(ParseState(Some(id), NoUpdates, map[]), body).current
  }

  lemma {:induction false} BodyFold(id: string, c: Updates, m: map<string, Updates>, body: seq<string>)
    requires forall k :: 0 <= k < |body| ==> !IsIdLine(body[k])
    ensures Fold(ParseState(Some(id), c, m), body) == ParseState(Some(id), Fold(ParseState(Some(id), c, map[]), body).current, m)
    decreases |body|
  {
    if body != [] {
      var c' := Step(ParseState(Some(id), c, map[]), body[0]).current;
      assert Step(ParseState(Some(id), c, m), body[0]) == ParseState(Some(id), c', m);
      assert Step(ParseState(Some(id), c, map[]), body[0]) == ParseState(Some(id), c', map[]);
      BodyFold(id, c', m, body[1..]);
      BodyFold(id, c', map[], body[1..]);
    }
  }

  /**
   * The last record of a reply is saved at the end, under its id, whatever
   * came before: a repeated id overwrites the earlier record. A last record
   * with no accepted field saves nothing and leaves the earlier ones alone.
   */
  lemma LastRecordSaved(before: seq<string>, idLine: string, body: seq<string>)
    requires IsIdLine(idLine)
    requires forall k :: 0 <= k < |body| ==> !IsIdLine(body[k])
    ensures RecordOf(IdOf(idLine), body) != NoUpdates ==>
              ParseLines(before + [idLine] + body) == Flush(Fold(Start, before))[IdOf(idLine) := RecordOf(IdOf(idLine), body)]
    ensures RecordOf(IdOf(idLine), body) == NoUpdates ==>
              ParseLines(before + [idLine] + body) == Flush(Fold(Start, before))
  {
    var st0 := Fold(Start, before);
    FoldAppend(Start, before + [idLine], body);
    FoldAppend(Start, before, [idLine]);
    assert Step(st0, idLine) == ParseState(Some(IdOf(idLine)), NoUpdates, Flush(st0));
    BodyFold(IdOf(idLine), NoUpdates, Flush(st0), body);
  }

  // ---------------------------------------------------------------------
  // Selecting the batch and writing the updates (`batch_enrichment`)
  // ---------------------------------------------------------------------

  /** SQL's `col IS NULL OR col = ''` */
  predicate SqlEmpty(x: Option<string>) {
    x.None? || x.value == []
  }

  /** Python's `not x or x.strip() == ''` */
  predicate Missing(x: Option<string>) {
    x.None? || IsBlank(x.value)
  }

  /** The WHERE clause of the selection: a company field is empty and the job has a description. */
  predicate NeedsEnrichment(p: Posting) {
    (SqlEmpty(p.company) || SqlEmpty(p.industry) || SqlEmpty(p.companyDescription)) && !SqlEmpty(p.description)
  }

  function Candidates(rows: seq<Posting>): (r: seq<Posting>)
    ensures |r| <= |rows|
    decreases |rows|
  {
    if rows == [] then []
    else if NeedsEnrichment(rows[0]) then [rows[0]] + Candidates(rows[1..])
    else Candidates(rows[1..])
  }

  /** The selected records: `... LIMIT batch_size`, taken in table order. */
  function SelectRecords(rows: seq<Posting>, batchSize: nat): seq<Posting> {
    Seqs.Take(Candidates(rows), batchSize)
  }

  /** One entry of `jobs_data`: the id and which fields were missing. */
  datatype JobRequest = JobRequest(id: int, missingCompany: bool, missingIndustry: bool, missingDescription: bool)

  function RequestFor(p: Posting): JobRequest {
    JobRequest(p.id, Missing(p.company), Missing(p.industry), Missing(p.companyDescription))
  }

  predicate NeedsAny(j: JobRequest) {
    j.missingCompany || j.missingIndustry || j.missingDescription
  }

  /** The loop that builds `jobs_data`, skipping records with nothing missing. */
  function JobsData(records: seq<Posting>): seq<JobRequest>
    decreases |records|
  {
    if records == [] then []
    else if NeedsAny(RequestFor(records[0])) then [RequestFor(records[0])] + JobsData(records[1..])
    else JobsData(records[1..])
  }

  lemma {:induction false} CandidatesMembers(rows: seq<Posting>)
    ensures forall p :: p in Candidates(rows) <==> p in rows && NeedsEnrichment(p)
    decreases |rows|
  {
    if rows != [] {
      CandidatesMembers(rows[1..]);
      assert rows == [rows[0]] + rows[1..];
    }
  }

  /** An SQL-empty field is also empty to Python, so a selected record always needs work. */
  lemma SqlEmptyIsMissing(x: Option<string>)
    requires SqlEmpty(x)
    ensures Missing(x)
  {
    if x.Some? {
      assert Strip(x.value) == [];
    }
  }

  lemma {:induction false} JobsDataOfNeedy(records: seq<Posting>)
    requires forall p :: p in records ==> NeedsEnrichment(p)
    ensures |JobsData(records)| == |records|
    ensures forall i :: 0 <= i < |records| ==> JobsData(records)[i] == RequestFor(records[i])
    decreases |records|
  {
    if records != [] {
      var p := records[0];
      assert p in records;
      if SqlEmpty(p.company) { SqlEmptyIsMissing(p.company); }
      if SqlEmpty(p.industry) { SqlEmptyIsMissing(p.industry); }
      if SqlEmpty(p.companyDescription) { SqlEmptyIsMissing(p.companyDescription); }
      assert NeedsAny(RequestFor(p));
      assert forall q :: q in records[1..] ==> q in records;
      JobsDataOfNeedy(records[1..]);
    }
  }

  /**
   * The selection: at most `batch_size` records, each from the table, each
   * with an empty company field and a description; when the table has no
   * more such rows than the batch size, all of them are selected. Every
   * selected record has a missing field, so the skip in the `jobs_data`
   * loop never fires and `jobs_data` describes the records one for one.
   */
  lemma SelectionCorrect(rows: seq<Posting>, batchSize: nat)
    ensures |SelectRecords(rows, batchSize)| <= batchSize
    ensures forall p :: p in SelectRecords(rows, batchSize) ==> p in rows && NeedsEnrichment(p)
    ensures |Candidates(rows)| <= batchSize ==>
              forall p :: p in rows && NeedsEnrichment(p) ==> p in SelectRecords(rows, batchSize)
    ensures |JobsData(SelectRecords(rows, batchSize))| == |SelectRecords(rows, batchSize)|
    ensures forall i :: 0 <= i < |SelectRecords(rows, batchSize)| ==>
              JobsData(SelectRecords(rows, batchSize))[i] == RequestFor(SelectRecords(rows, batchSize)[i])
  {
    CandidatesMembers(rows);
    var sel := SelectRecords(rows, batchSize);
    assert forall p :: p in sel ==> p in Candidates(rows);
    JobsDataOfNeedy(sel);
  }

  /** `filtered_updates`: only the proposed fields that were missing for the job. */
  function Filtered(job: JobRequest, u: Updates): Updates {
    Updates(if job.missingCompany then u.company else None,
            if job.missingIndustry then u.industry else None,
            if job.missingDescription then u.description else None)
  }

  /** Python's `x and x.strip()`: present and not blank. */
  predicate Present(x: Option<string>) {
    x.Some? && !IsBlank(x.value)
  }

  /** The `enrichment_status` chosen from the row as it is after its update. */
  function Classify(company: Option<string>, industry: Option<string>, companyDescription: Option<string>): (s: EnrichmentStatus)
    ensures s == Full <==> Present(company) && Present(industry) && Present(companyDescription)
    ensures s == Partial <==> (Present(company) || Present(industry) || Present(companyDescription))
                              && !(Present(company) && Present(industry) && Present(companyDescription))
    ensures s == Pending <==> !Present(company) && !Present(industry) && !Present(companyDescription)
  {
    if Present(company) && Present(industry) && Present(companyDescription) then Full
    else if Present(company) || Present(industry) || Present(companyDescription) then Partial
    else Pending
  }

  function Patch(x: Option<string>, v: Option<string>): Option<string> {
    if v.Some? then v else x
  }

  /** The row after `UPDATE ... SET <filtered fields>` and the status update that follows it. */
  function Updated(p: Posting, f: Updates): Posting {
    var c := Patch(p.company, f.company);
    var ind := Patch(p.industry, f.industry);
    var d := Patch(p.companyDescription, f.description);
    p.(company := c, industry := ind, companyDescription := d, status := Some(Classify(c, ind, d)))
  }

  /** `UPDATE job_postings SET ... WHERE id = ?` */
  function UpdateRows(rows: seq<Posting>, id: int, f: Updates): (r: seq<Posting>)
    ensures |r| == |rows|
  {
    seq(|rows|, i requires 0 <= i < |rows| => if rows[i].id == id then Updated(rows[i], f) else rows[i])
  }

  predicate HasRow(rows: seq<Posting>, id: int) {
    exists i :: 0 <= i < |rows| && rows[i].id == id
  }

  /** The table and `updated_count` while the updates are applied. */
  datatype Applied = Applied(rows: seq<Posting>, updatedCount: nat)

  /** One `jobs_data` entry: its record is looked up by `str(id)`. */
  function ApplyJob(acc: Applied, job: JobRequest, saved: map<string, Updates>): Applied {
    var key := IntToString(job.id);
    if key !in saved then acc
    else
      var f := Filtered(job, saved[key]);
      if f == NoUpdates then acc
      else if HasRow(acc.rows, job.id) then Applied(UpdateRows(acc.rows, job.id, f), acc.updatedCount + 1)
      else acc
  }

  function ApplyAll(acc: Applied, jobs: seq<JobRequest>, saved: map<string, Updates>): (r: Applied)
    ensures |r.rows| == |acc.rows|
    ensures acc.updatedCount <= r.updatedCount <= acc.updatedCount + |jobs|
    decreases |jobs|
  {
    if jobs == [] then acc else ApplyAll(ApplyJob(acc, jobs[0], saved), jobs[1..], saved)
  }

  /** A value written into a company field: stripped and accepted by that field's rule. */
  predicate WrittenCompany(x: Option<string>) {
    x.Some? && Strip(x.value) == x.value && AcceptCompany(x.value)
  }

  predicate WrittenIndustry(x: Option<string>) {
    x.Some? && Strip(x.value) == x.value && AcceptIndustry(x.value)
  }

  predicate WrittenDescription(x: Option<string>) {
    x.Some? && Strip(x.value) == x.value && AcceptDescription(x.value)
  }

  /**
   * What the updates may do to one row `p`, turning it into `q`: the id and
   * the columns enrichment does not write stay; a company field changes only
   * to an accepted value, and only if some job for this id had that field
   * missing; and a row that changed has its status recomputed from its new
   * fields, never 'pending'.
   */
  predicate Evolved(p: Posting, q: Posting, jobs: seq<JobRequest>) {
    q.id == p.id && q.description == p.description && q.lastSeen == p.lastSeen && q.freshness == p.freshness
    && (q.company == p.company
        || (WrittenCompany(q.company) && exists j :: j in jobs && j.id == p.id && j.missingCompany))
    && (q.industry == p.industry
        || (WrittenIndustry(q.industry) && exists j :: j in jobs && j.id == p.id && j.missingIndustry))
    && (q.companyDescription == p.companyDescription
        || (WrittenDescription(q.companyDescription) && exists j :: j in jobs && j.id == p.id && j.missingDescription))
    && (q == p
        || (q.status == Some(Classify(q.company, q.industry, q.companyDescription)) && q.status != Some(Pending)
            && exists j :: j in jobs && j.id == p.id))
  }

  lemma EvolvedTransitive(p: Posting, q: Posting, r: Posting, a: seq<JobRequest>, b: seq<JobRequest>)
    requires Evolved(p, q, a) && Evolved(q, r, b)
    ensures Evolved(p, r, a + b)
  {
    assert forall j :: j in a ==> j in a + b;
    assert forall j :: j in b ==> j in a + b;
  }

  /** A stripped value longer than two characters is not blank. */
  lemma AcceptedIsPresent(x: Option<string>)
    requires x.Some? && Strip(x.value) == x.value && |x.value| > 2
    ensures Present(x)
  {
  }

  lemma UpdatedEvolves(p: Posting, job: JobRequest, u: Updates)
    requires ValidUpdates(u) && Filtered(job, u) != NoUpdates && p.id == job.id
    ensures Evolved(p, Updated(p, Filtered(job, u)), [job])
  {
    var f := Filtered(job, u);
    var q := Updated(p, f);
    assert job in [job];
    if f.company.Some? {
      AcceptedIsPresent(q.company);
    } else if f.industry.Some? {
      AcceptedIsPresent(q.industry);
    } else {
      AcceptedIsPresent(q.companyDescription);
    }
  }

  lemma ApplyJobEvolves(acc: Applied, job: JobRequest, saved: map<string, Updates>)
    requires ValidRecords(saved)
    ensures |ApplyJob(acc, job, saved).rows| == |acc.rows|
    ensures forall i :: 0 <= i < |acc.rows| ==> Evolved(acc.rows[i], ApplyJob(acc, job, saved).rows[i], [job])
  {
    var key := IntToString(job.id);
    if key in saved && Filtered(job, saved[key]) != NoUpdates && HasRow(acc.rows, job.id) {
      forall i | 0 <= i < |acc.rows|
        ensures Evolved(acc.rows[i], ApplyJob(acc, job, saved).rows[i], [job])
      {
        if acc.rows[i].id == job.id {
          UpdatedEvolves(acc.rows[i], job, saved[key]);
        }
      }
    }
  }

  /**
   * Applying the parsed records to the table changes each row only as
   * `Evolved` allows, for the jobs of the batch.
   */
  lemma {:induction false} ApplyAllEvolves(acc: Applied, jobs: seq<JobRequest>, saved: map<string, Updates>)
    requires ValidRecords(saved)
    ensures forall i :: 0 <= i < |acc.rows| ==> Evolved(acc.rows[i], ApplyAll(acc, jobs, saved).rows[i], jobs)
    decreases |jobs|
  {
    if jobs == [] {
      forall i | 0 <= i < |acc.rows|
        ensures Evolved(acc.rows[i], acc.rows[i], jobs)
      {
      }
    } else {
      var mid := ApplyJob(acc, jobs[0], saved);
      ApplyJobEvolves(acc, jobs[0], saved);
      ApplyAllEvolves(mid, jobs[1..], saved);
      assert [jobs[0]] + jobs[1..] == jobs;
      forall i | 0 <= i < |acc.rows|
        ensures Evolved(acc.rows[i], ApplyAll(acc, jobs, saved).rows[i], jobs)
      {
        EvolvedTransitive(acc.rows[i], mid.rows[i], ApplyAll(acc, jobs, saved).rows[i], [jobs[0]], jobs[1..]);
      }
    }
  }

  /** An applied pass that counted no update left the table as it was. */
  lemma {:induction false} NoCountNoChange(acc: Applied, jobs: seq<JobRequest>, saved: map<string, Updates>)
    requires ApplyAll(acc, jobs, saved).updatedCount == acc.updatedCount
    ensures ApplyAll(acc, jobs, saved).rows == acc.rows
    decreases |jobs|
  {
    if jobs != [] {
      NoCountNoChange(ApplyJob(acc, jobs[0], saved), jobs[1..], saved);
    }
  }

  /** `id` is the table's primary key. */
  predicate DistinctIds(rows: seq<Posting>) {
    forall i, j :: 0 <= i < j < |rows| ==> rows[i].id != rows[j].id
  }

  datatype BatchOutcome = BatchOutcome(rows: seq<Posting>, ok: bool)

  /**
   * `batch_enrichment(batch_size)` given the LLM's reply (`None` when the
   * model could not be reached or raised): the table afterwards and the
   * returned flag.
   */
  function Batch(rows: seq<Posting>, batchSize: nat, reply: Option<string>): BatchOutcome {
    var records := SelectRecords(rows, batchSize);
    if records == [] then BatchOutcome(rows, true)
    else
      var jobs := JobsData(records);
      if jobs == [] then BatchOutcome(rows, true)
      else if reply.None? then BatchOutcome(rows, false)
      else
        var saved := ParsedUpdates(reply.value);
        var applied := ApplyAll(Applied(rows, 0), jobs, saved);
        BatchOutcome(applied.rows, applied.updatedCount > 0 || |saved| > 0)
  }

  /** The job of the batch with a row's id is that row's own request. */
  lemma JobOfRow(rows: seq<Posting>, batchSize: nat, j: JobRequest, i: int)
    requires DistinctIds(rows) && 0 <= i < |rows|
    requires j in JobsData(SelectRecords(rows, batchSize)) && j.id == rows[i].id
    ensures rows[i] in SelectRecords(rows, batchSize) && j == RequestFor(rows[i])
  {
    SelectionCorrect(rows, batchSize);
    var sel := SelectRecords(rows, batchSize);
    var k :| 0 <= k < |sel| && JobsData(sel)[k] == j;
    assert sel[k] in rows;
    var m :| 0 <= m < |rows| && rows[m] == sel[k];
    assert m == i;
  }

  /** Every row of the table changes only as `Evolved` allows, for the jobs of the batch. */
  lemma BatchEvolves(rows: seq<Posting>, batchSize: nat, reply: Option<string>)
    ensures |Batch(rows, batchSize, reply).rows| == |rows|
    ensures forall i :: 0 <= i < |rows| ==>
              Evolved(rows[i], Batch(rows, batchSize, reply).rows[i], JobsData(SelectRecords(rows, batchSize)))
  {
    var sel := SelectRecords(rows, batchSize);
    var jobs := JobsData(sel);
    var out := Batch(rows, batchSize, reply);
    if sel != [] && jobs != [] && reply.Some? {
      ParsedUpdatesValid(reply.value);
      ApplyAllEvolves(Applied(rows, 0), jobs, ParsedUpdates(reply.value));
    } else {
      assert out.rows == rows;
      forall i | 0 <= i < |rows|
        ensures Evolved(rows[i], out.rows[i], jobs)
      {
      }
    }
  }

  /**
   * One batch, on a table keyed by id: a row that was not selected is
   * untouched, and a company field that was present stays as it was.
   */
  lemma BatchKeepsPresentFields(rows: seq<Posting>, batchSize: nat, reply: Option<string>)
    requires DistinctIds(rows)
    ensures forall i :: 0 <= i < |rows| && rows[i] !in SelectRecords(rows, batchSize) ==>
              Batch(rows, batchSize, reply).rows[i] == rows[i]
    ensures forall i :: 0 <= i < |rows| && !Missing(rows[i].company) ==>
              Batch(rows, batchSize, reply).rows[i].company == rows[i].company
    ensures forall i :: 0 <= i < |rows| && !Missing(rows[i].industry) ==>
              Batch(rows, batchSize, reply).rows[i].industry == rows[i].industry
    ensures forall i :: 0 <= i < |rows| && !Missing(rows[i].companyDescription) ==>
              Batch(rows, batchSize, reply).rows[i].companyDescription == rows[i].companyDescription
  {
    var jobs := JobsData(SelectRecords(rows, batchSize));
    var out := Batch(rows, batchSize, reply).rows;
    BatchEvolves(rows, batchSize, reply);
    forall i | 0 <= i < |rows| && out[i] != rows[i]
      ensures rows[i] in SelectRecords(rows, batchSize)
    {
      assert Evolved(rows[i], out[i], jobs);
      var j :| j in jobs && j.id == rows[i].id;
      JobOfRow(rows, batchSize, j, i);
    }
    forall i | 0 <= i < |rows| && out[i].company != rows[i].company
      ensures Missing(rows[i].company)
    {
      assert Evolved(rows[i], out[i], jobs);
      var j :| j in jobs && j.id == rows[i].id && j.missingCompany;
      JobOfRow(rows, batchSize, j, i);
    }
    forall i | 0 <= i < |rows| && out[i].industry != rows[i].industry
      ensures Missing(rows[i].industry)
    {
      assert Evolved(rows[i], out[i], jobs);
      var j :| j in jobs && j.id == rows[i].id && j.missingIndustry;
      JobOfRow(rows, batchSize, j, i);
    }
    forall i | 0 <= i < |rows| && out[i].companyDescription != rows[i].companyDescription
      ensures Missing(rows[i].companyDescription)
    {
      assert Evolved(rows[i], out[i], jobs);
      var j :| j in jobs && j.id == rows[i].id && j.missingDescription;
      JobOfRow(rows, batchSize, j, i);
    }
  }

  /**
   * The returned flag: with nothing to enrich the batch succeeds without
   * writing; without a reply it fails without writing; a failed batch wrote
   * nothing; a reply that yielded at least one record succeeds.
   */
  lemma BatchResult(rows: seq<Posting>, batchSize: nat, reply: Option<string>)
    ensures SelectRecords(rows, batchSize) == [] ==> Batch(rows, batchSize, reply) == BatchOutcome(rows, true)
    ensures SelectRecords(rows, batchSize) != [] && reply.None? ==> Batch(rows, batchSize, reply) == BatchOutcome(rows, false)
    ensures !Batch(rows, batchSize, reply).ok ==> Batch(rows, batchSize, reply).rows == rows
    ensures reply.Some? && ParsedUpdates(reply.value) != map[] ==> Batch(rows, batchSize, reply).ok
  {
    var sel := SelectRecords(rows, batchSize);
    SelectionCorrect(rows, batchSize);
    if sel != [] && reply.Some? {
      var saved := ParsedUpdates(reply.value);
      var jobs := JobsData(sel);
      if !Batch(rows, batchSize, reply).ok {
        NoCountNoChange(Applied(rows, 0), jobs, saved);
      }
      if saved != map[] {
        var k :| k in saved;
        assert |saved| > 0;
      }
    }
  }

  // ---------------------------------------------------------------------
  // The batch loop of `main`: rate-limit backoff
  // ---------------------------------------------------------------------

  const MaxBatches: nat := 15
  const MainBatchSize: nat := 15
  const MinBatchSize: nat := 3
  const MainWaitCap: nat := 60

  /**
   * What one call of `batch_enrichment` did: it returned, and the missing
   * field total read afterwards was `remaining` (`None` when the statistics
   * could not be read); or it raised an exception with `message`.
   */
  datatype Attempt = Returned(remaining: Option<nat>) | Raised(message: string)

  /** `batch_count`, `batch_size`, `wait_time`, the rate-limit retries so far, and the size each call was given. */
  datatype Backoff = Backoff(batchCount: nat, batchSize: nat, waitTime: nat, retries: nat, sizes: seq<nat>)

  function Max(a: int, b: int): int {
    if a >= b then a else b
  }

  /** `max(3, batch_size // 2)` */
  function HalvedSize(size: nat): nat {
    Max(MinBatchSize, size / 2)
  }

  /** `min(wait_time * 2, cap)` */
  function DoubledWait(wait: nat, cap: nat): nat {
    Seqs.Min(wait * 2, cap)
  }

  function MainStart(initialSize: nat): Backoff {
    Backoff(0, initialSize, 3, 0, [])
  }

  /** Whether a call was rate limited (retried without counting). */
  predicate RateLimited(a: Attempt) {
    a.Raised? && IsRateLimitError(a.message)
  }

  /** Whether the loop goes on after the call: a rate limit, or a batch that left work to do. */
  predicate GoesOn(a: Attempt) {
    RateLimited(a) || (a.Returned? && a.remaining != Some(0))
  }

  /** The counters after one call. */
  function AfterCall(st: Backoff, a: Attempt): Backoff {
    var tried := st.(sizes := st.sizes + [st.batchSize]);
    if RateLimited(a) then
      tried.(waitTime := DoubledWait(st.waitTime, MainWaitCap), batchSize := HalvedSize(st.batchSize), retries := st.retries + 1)
    else tried.(batchCount := st.batchCount + 1)
  }

  /**
   * The loop of `main`, over the outcomes of its successive calls: a
   * rate-limited call is retried without counting, with the wait doubled and
   * the batch halved; any other exception ends the loop; so does a zero
   * remaining total, the fifteenth counted batch, or the end of the given
   * outcomes.
   */
  function MainLoop(st: Backoff, attempts: seq<Attempt>): Backoff
    decreases |attempts|
  {
    if st.batchCount >= MaxBatches || attempts == [] then st
    else if GoesOn(attempts[0]) then MainLoop(AfterCall(st, attempts[0]), attempts[1..])
    else AfterCall(st, attempts[0])
  }

  /** The batch loop of `main`, starting from `initialSize`. */
  method RunBatches(initialSize: nat, attempts: seq<Attempt>) returns (r: Backoff)
    ensures r == MainLoop(MainStart(initialSize), attempts)
  {
    var batchCount: nat := 0;
    var batchSize: nat := initialSize;
    var waitTime: nat := 3;
    var retries: nat := 0;
    var sizes: seq<nat> := [];
    var i := 0;
    while batchCount < MaxBatches && i < |attempts|
      invariant 0 <= i <= |attempts|
      invariant MainLoop(Backoff(batchCount, batchSize, waitTime, retries, sizes), attempts[i..])
                == MainLoop(MainStart(initialSize), attempts)
      decreases |attempts| - i
    {
      assert attempts[i..][1..] == attempts[i + 1..];
      batchCount := batchCount + 1;
      sizes := sizes + [batchSize];
      match attempts[i] {
        case Raised(message) =>
          if IsRateLimitError(message) {
            waitTime := DoubledWait(waitTime, MainWaitCap);
            batchCount := batchCount - 1;
            batchSize := HalvedSize(batchSize);
            retries := retries + 1;
          } else {
            return Backoff(batchCount, batchSize, waitTime, retries, sizes);
          }
        case Returned(remaining) =>
          if remaining == Some(0) {
            return Backoff(batchCount, batchSize, waitTime, retries, sizes);
          }
      }
      i := i + 1;
    }
    return Backoff(batchCount, batchSize, waitTime, retries, sizes);
  }

  function Pow2(k: nat): (p: nat)
    ensures p >= 1
  {
    if k == 0 then 1 else 2 * Pow2(k - 1)
  }

  lemma MulAtLeast(k: int, d: int)
    requires k >= 1 && d > 0
    ensures k * d >= d
  {
    assert k * d == (k - 1) * d + d;
  }

  lemma DivUnique(x: int, d: int, q: int, rest: int)
    requires d > 0 && 0 <= rest < d && x == q * d + rest
    ensures x / d == q
  {
    var q0 := x / d;
    var r0 := x % d;
    assert (q - q0) * d == r0 - rest;
    if q > q0 {
      MulAtLeast(q - q0, d);
    } else if q < q0 {
      MulAtLeast(q0 - q, d);
    }
  }

  /** Halving twice in a row is dividing by four: `(x // p) // 2 == x // (2 * p)`. */
  lemma DivTwice(x: nat, p: nat)
    requires p >= 1
    ensures (x / p) / 2 == x / (p * 2)
  {
    var q := x / p;
    var r := x % p;
    var t := q / 2;
    var u := q % 2;
    assert x == (2 * t + u) * p + r;
    assert x == t * (p * 2) + (u * p + r);
    DivUnique(x, p * 2, t, u * p + r);
  }

  lemma DivAtMost(x: nat, p: nat)
    requires p >= 1
    ensures x / p <= x
  {
    if x / p > x {
      MulAtLeast(p, x / p);
    }
  }

  /** After `k` retries the batch size is `max(3, initial // 2**k)` and the wait `min(3 * 2**k, 60)`. */
  predicate BackoffFormula(st: Backoff, initialSize: nat) {
    st.batchSize == Max(MinBatchSize, initialSize / Pow2(st.retries))
    && st.waitTime == Seqs.Min(3 * Pow2(st.retries), MainWaitCap)
  }

  /** The sizes given to the calls never grow, and none is below the current size or above the start. */
  predicate SizesShrink(st: Backoff, initialSize: nat) {
    (forall k :: 0 <= k < |st.sizes| ==> st.batchSize <= st.sizes[k] <= Max(MinBatchSize, initialSize))
    && (forall j, k :: 0 <= j < k < |st.sizes| ==> st.sizes[j] >= st.sizes[k])
  }

  /** What the loop of `main` keeps: the counts agree, the formula holds, and the sizes shrink. */
  predicate MainInvariant(st: Backoff, initialSize: nat) {
    st.batchCount <= MaxBatches
    && st.batchCount + st.retries == |st.sizes|
    && BackoffFormula(st, initialSize)
    && SizesShrink(st, initialSize)
  }

  lemma HalvedStep(initialSize: nat, k: nat)
    ensures HalvedSize(Max(MinBatchSize, initialSize / Pow2(k))) == Max(MinBatchSize, initialSize / Pow2(k + 1))
    ensures HalvedSize(Max(MinBatchSize, initialSize / Pow2(k))) <= Max(MinBatchSize, initialSize / Pow2(k))
  {
    DivTwice(initialSize, Pow2(k));
    assert Pow2(k + 1) == Pow2(k) * 2;
  }

  lemma AfterCallFormula(st: Backoff, initialSize: nat, a: Attempt)
    requires BackoffFormula(st, initialSize)
    ensures BackoffFormula(AfterCall(st, a), initialSize)
    ensures AfterCall(st, a).batchSize <= st.batchSize
  {
    if RateLimited(a) {
      HalvedStep(initialSize, st.retries);
      assert Pow2(st.retries + 1) == 2 * Pow2(st.retries);
    }
  }

  lemma AfterCallSizes(st: Backoff, initialSize: nat, a: Attempt)
    requires SizesShrink(st, initialSize) && AfterCall(st, a).batchSize <= st.batchSize
    requires st.batchSize <= Max(MinBatchSize, initialSize)
    ensures SizesShrink(AfterCall(st, a), initialSize)
  {
  }

  lemma {:induction false} MainLoopKeeps(st: Backoff, initialSize: nat, attempts: seq<Attempt>)
    requires MainInvariant(st, initialSize)
    ensures MainInvariant(MainLoop(st, attempts), initialSize)
    decreases |attempts|
  {
    if st.batchCount < MaxBatches && attempts != [] {
      var next := AfterCall(st, attempts[0]);
      AfterCallFormula(st, initialSize, attempts[0]);
      DivAtMost(initialSize, Pow2(st.retries));
      AfterCallSizes(st, initialSize, attempts[0]);
      if GoesOn(attempts[0]) {
        MainLoopKeeps(next, initialSize, attempts[1..]);
      }
    }
  }

  /**
   * The backoff of `main`: at most fifteen batches are counted, a
   * rate-limited call is retried without counting, the batch size never
   * drops below 3 nor exceeds the start and is halved on each rate limit,
   * and the wait doubles from 3 up to at most 60.
   */
  lemma MainLoopBounds(initialSize: nat, attempts: seq<Attempt>)
    requires initialSize >= MinBatchSize
    ensures var r := MainLoop(MainStart(initialSize), attempts);
            && r.batchCount <= MaxBatches
            && r.batchCount + r.retries == |r.sizes|
            && MinBatchSize <= r.batchSize <= initialSize
            && r.batchSize == Max(MinBatchSize, initialSize / Pow2(r.retries))
            && 3 <= r.waitTime <= MainWaitCap
            && r.waitTime == Seqs.Min(3 * Pow2(r.retries), MainWaitCap)
            && (forall k :: 0 <= k < |r.sizes| ==> MinBatchSize <= r.sizes[k] <= initialSize)
            && (forall j, k :: 0 <= j < k < |r.sizes| ==> r.sizes[j] >= r.sizes[k])
  {
    MainLoopKeeps(MainStart(initialSize), initialSize, attempts);
    var r := MainLoop(MainStart(initialSize), attempts);
    DivAtMost(initialSize, Pow2(r.retries));
  }

  /**
   * `batch_enrichment` catches every exception raised after it opens its
   * connection, so only a failure to open or close the database, whose
   * message is not a rate-limit message, can reach the loop of `main`.
   * Without a rate-limited call the loop never backs off: the retries, the
   * batch size and the wait stay as they were, and every call gets the
   * current size.
   */
  lemma {:induction false} MainLoopWithoutRateLimit(st: Backoff, attempts: seq<Attempt>)
    requires forall i :: 0 <= i < |attempts| ==> !RateLimited(attempts[i])
    ensures var r := MainLoop(st, attempts);
            && r.retries == st.retries && r.batchSize == st.batchSize && r.waitTime == st.waitTime
            && |st.sizes| <= |r.sizes| && r.sizes[..|st.sizes|] == st.sizes
            && r.batchCount == st.batchCount + (|r.sizes| - |st.sizes|)
            && (forall k :: |st.sizes| <= k < |r.sizes| ==> r.sizes[k] == st.batchSize)
    decreases |attempts|
  {
    if st.batchCount < MaxBatches && attempts != [] {
      var next := AfterCall(st, attempts[0]);
      if GoesOn(attempts[0]) {
        MainLoopWithoutRateLimit(next, attempts[1..]);
        var r := MainLoop(next, attempts[1..]);
        assert r.sizes[..|st.sizes|] == r.sizes[..|next.sizes|][..|st.sizes|];
      }
    }
  }

  /** From the start of `main`: no retries, every call at the start size, the wait at 3 seconds. */
  lemma MainLoopNeverBacksOff(initialSize: nat, attempts: seq<Attempt>)
    requires forall i :: 0 <= i < |attempts| ==> !RateLimited(attempts[i])
    ensures var r := MainLoop(MainStart(initialSize), attempts);
            && r.retries == 0 && r.batchSize == initialSize && r.waitTime == 3
            && r.batchCount == |r.sizes|
            && (forall k :: 0 <= k < |r.sizes| ==> r.sizes[k] == initialSize)
  {
    MainLoopWithoutRateLimit(MainStart(initialSize), attempts);
  }

  // ---------------------------------------------------------------------
  // `run_data_enrichment_for_app`
  // ---------------------------------------------------------------------

  const AppWaitCap: nat := 30

  /** `app_context == "auto"`; any other context behaves as the manual one. */
  predicate IsAuto(context: string) {
    context == "auto"
  }

  function AppWaitStart(context: string): nat {
    if IsAuto(context) then 2 else 3
  }

  /** `batch_count`, `wait_time`, the rate-limit retries and the number of calls made. */
  datatype AppLoopState = AppLoopState(batchCount: nat, waitTime: nat, retries: nat, calls: nat)

  /**
   * The app's batch loop: the batch size never changes; in the automatic
   * context any exception ends the loop; in the manual one a rate limit is
   * retried without counting (the wait doubling up to 30) and any other
   * exception counts the batch and goes on.
   */
  function AppLoop(auto: bool, maxBatches: nat, st: AppLoopState, attempts: seq<Attempt>): AppLoopState
    decreases |attempts|
  {
    if st.batchCount >= maxBatches || attempts == [] then st
    else
      var counted := st.(batchCount := st.batchCount + 1, calls := st.calls + 1);
      match attempts[0]
      case Returned(remaining) =>
        if remaining == Some(0) then counted else AppLoop(auto, maxBatches, counted, attempts[1..])
      case Raised(message) =>
        if auto then counted
        else if IsRateLimitError(message) then
          AppLoop(auto, maxBatches,
                  st.(waitTime := DoubledWait(st.waitTime, AppWaitCap), retries := st.retries + 1, calls := st.calls + 1),
                  attempts[1..])
        else AppLoop(auto, maxBatches, counted, attempts[1..])
  }

  predicate AppInvariant(st: AppLoopState, maxBatches: nat, wait0: nat, auto: bool) {
    st.batchCount <= maxBatches
    && st.batchCount + st.retries == st.calls
    && st.waitTime == Seqs.Min(wait0 * Pow2(st.retries), AppWaitCap)
    && (auto ==> st.retries == 0)
  }

  /** Doubling the capped wait after `k` retries gives the capped wait after `k + 1`. */
  lemma AppWaitDoubles(wait0: nat, k: nat)
    ensures DoubledWait(Seqs.Min(wait0 * Pow2(k), AppWaitCap), AppWaitCap) == Seqs.Min(wait0 * Pow2(k + 1), AppWaitCap)
  {
    assert wait0 * Pow2(k + 1) == 2 * (wait0 * Pow2(k));
  }

  lemma {:induction false} AppLoopKeeps(auto: bool, maxBatches: nat, wait0: nat, st: AppLoopState, attempts: seq<Attempt>)
    requires AppInvariant(st, maxBatches, wait0, auto)
    ensures AppInvariant(AppLoop(auto, maxBatches, st, attempts), maxBatches, wait0, auto)
    ensures AppLoop(auto, maxBatches, st, attempts).calls <= st.calls + |attempts|
    decreases |attempts|
  {
    if st.batchCount < maxBatches && attempts != [] {
      var counted := st.(batchCount := st.batchCount + 1, calls := st.calls + 1);
      match attempts[0]
      case Returned(remaining) =>
        AppLoopKeeps(auto, maxBatches, wait0, counted, attempts[1..]);
      case Raised(message) =>
        if !auto {
          if IsRateLimitError(message) {
            var next := st.(waitTime := DoubledWait(st.waitTime, AppWaitCap), retries := st.retries + 1, calls := st.calls + 1);
            AppWaitDoubles(wait0, st.retries);
            AppLoopKeeps(auto, maxBatches, wait0, next, attempts[1..]);
          } else {
            AppLoopKeeps(auto, maxBatches, wait0, counted, attempts[1..]);
          }
        }
    }
  }

  /**
   * The app's loop counts at most `max_batches` batches; every call is
   * counted or retried; after `k` retries the wait is
   * `min(start * 2**k, 30)`; the automatic context never retries.
   */
  lemma AppLoopBounds(context: string, maxBatches: nat, attempts: seq<Attempt>)
    ensures var r := AppLoop(IsAuto(context), maxBatches, AppLoopState(0, AppWaitStart(context), 0, 0), attempts);
            && r.batchCount <= maxBatches
            && r.batchCount + r.retries == r.calls <= |attempts|
            && r.waitTime == Seqs.Min(AppWaitStart(context) * Pow2(r.retries), AppWaitCap)
            && r.waitTime <= AppWaitCap
            && (IsAuto(context) ==> r.retries == 0 && r.waitTime == 2)
  {
    AppLoopKeeps(IsAuto(context), maxBatches, AppWaitStart(context), AppLoopState(0, AppWaitStart(context), 0, 0), attempts);
  }

  /**
   * As in `main`, no call of `batch_enrichment` comes back rate limited;
   * without one the app's loop never retries and never changes the wait,
   * and every call is counted as a batch.
   */
  lemma {:induction false} AppLoopWithoutRateLimit(auto: bool, maxBatches: nat, st: AppLoopState, attempts: seq<Attempt>)
    requires forall i :: 0 <= i < |attempts| ==> !RateLimited(attempts[i])
    ensures var r := AppLoop(auto, maxBatches, st, attempts);
            && r.retries == st.retries && r.waitTime == st.waitTime
            && r.batchCount - st.batchCount == r.calls - st.calls
    decreases |attempts|
  {
    if st.batchCount < maxBatches && attempts != [] {
      var counted := st.(batchCount := st.batchCount + 1, calls := st.calls + 1);
      assert !RateLimited(attempts[0]);
      TailNotRateLimited(attempts);
      match attempts[0]
      case Returned(remaining) =>
        AppLoopWithoutRateLimit(auto, maxBatches, counted, attempts[1..]);
      case Raised(message) =>
        AppLoopWithoutRateLimit(auto, maxBatches, counted, attempts[1..]);
    }
  }

  lemma TailNotRateLimited(attempts: seq<Attempt>)
    requires attempts != [] && forall i :: 0 <= i < |attempts| ==> !RateLimited(attempts[i])
    ensures forall i :: 0 <= i < |attempts[1..]| ==> !RateLimited(attempts[1..][i])
  {
    forall i | 0 <= i < |attempts[1..]|
      ensures !RateLimited(attempts[1..][i])
    {
      assert attempts[1..][i] == attempts[i + 1];
    }
  }

  /** From the start of the app run: no retries, the wait at its start value, every call counted. */
  lemma AppLoopNeverRetries(context: string, maxBatches: nat, attempts: seq<Attempt>)
    requires forall i :: 0 <= i < |attempts| ==> !RateLimited(attempts[i])
    ensures var r := AppLoop(IsAuto(context), maxBatches, AppLoopState(0, AppWaitStart(context), 0, 0), attempts);
            && r.retries == 0 && r.waitTime == AppWaitStart(context) && r.batchCount == r.calls
  {
    AppLoopWithoutRateLimit(IsAuto(context), maxBatches, AppLoopState(0, AppWaitStart(context), 0, 0), attempts);
  }

  /** In the automatic context the first exception ends the loop: what follows it is never looked at. */
  lemma {:induction false} AutoStopsAtFirstException(maxBatches: nat, st: AppLoopState, before: seq<Attempt>, message: string, after: seq<Attempt>)
    ensures AppLoop(true, maxBatches, st, before + [Raised(message)] + after)
            == AppLoop(true, maxBatches, st, before + [Raised(message)])
    decreases |before|
  {
    if before == [] {
      assert before + [Raised(message)] + after == [Raised(message)] + after;
      assert before + [Raised(message)] == [Raised(message)];
    } else {
      assert (before + [Raised(message)] + after)[1..] == before[1..] + [Raised(message)] + after;
      assert (before + [Raised(message)])[1..] == before[1..] + [Raised(message)];
      if st.batchCount < maxBatches {
        AutoStopsAtFirstException(maxBatches, st.(batchCount := st.batchCount + 1, calls := st.calls + 1), before[1..], message, after);
      }
    }
  }

  /** The three missing-field counts of `get_database_stats`. */
  datatype MissingStats = MissingStats(company: nat, industry: nat, description: nat)

  function MissingTotal(s: MissingStats): nat {
    s.company + s.industry + s.description
  }

  function CountWhere(rows: seq<Posting>, column: int): nat
    requires 0 <= column < 3
    decreases |rows|
  {
    if rows == [] then 0
    else
      var x := if column == 0 then rows[0].company else if column == 1 then rows[0].industry else rows[0].companyDescription;
      (if SqlEmpty(x) then 1 else 0) + CountWhere(rows[1..], column)
  }

  /** `missing_company`, `missing_industry`, `missing_description` (`IS NULL OR = ''`). */
  function StatsOf(rows: seq<Posting>): MissingStats {
    MissingStats(CountWhere(rows, 0), CountWhere(rows, 1), CountWhere(rows, 2))
  }

  lemma {:induction false} NoMissingNoCandidates(rows: seq<Posting>)
    requires CountWhere(rows, 0) == 0 && CountWhere(rows, 1) == 0 && CountWhere(rows, 2) == 0
    ensures Candidates(rows) == []
    decreases |rows|
  {
    if rows != [] {
      assert !NeedsEnrichment(rows[0]);
      NoMissingNoCandidates(rows[1..]);
    }
  }

  /**
   * With no missing field in the statistics there is nothing to select, so
   * a batch succeeds at once and writes nothing.
   */
  lemma NothingMissingNothingSelected(rows: seq<Posting>, batchSize: nat, reply: Option<string>)
    requires MissingTotal(StatsOf(rows)) == 0
    ensures SelectRecords(rows, batchSize) == []
    ensures Batch(rows, batchSize, reply) == BatchOutcome(rows, true)
  {
    NoMissingNoCandidates(rows);
    EmptySelectionSucceeds(rows, batchSize, reply);
  }

  lemma EmptySelectionSucceeds(rows: seq<Posting>, batchSize: nat, reply: Option<string>)
    requires Candidates(rows) == []
    ensures SelectRecords(rows, batchSize) == []
    ensures Batch(rows, batchSize, reply) == BatchOutcome(rows, true)
  {
  }

  datatype Improvements = Improvements(company: int, industry: int, description: int, total: int)

  datatype AppError = DatabaseNotFound | NoStatistics | LlmTestFailed | NoFinalStatistics

  datatype AppResult =
    | AppFailed(error: AppError, statsBefore: Option<MissingStats>)
    | NothingToEnrich(stats: MissingStats)
    | AppEnriched(initial: MissingStats, final: MissingStats, improvements: Improvements, loop: AppLoopState)
  {
    predicate Success() {
      !AppFailed?
    }
  }

  /**
   * `run_data_enrichment_for_app`, given whether the database file exists,
   * the statistics read before and after the batches (`None` when they could
   * not be read), the LLM self-test's verdict and the batch outcomes.
   */
  function RunForApp(context: string, maxBatches: nat, dbExists: bool, initial: Option<MissingStats>,
                     llmOk: bool, attempts: seq<Attempt>, final: Option<MissingStats>): AppResult
  {
    if !dbExists then AppFailed(DatabaseNotFound, None)
    else if initial.None? then AppFailed(NoStatistics, None)
    else if MissingTotal(initial.value) == 0 then NothingToEnrich(initial.value)
    else if !llmOk then AppFailed(LlmTestFailed, initial)
    else
      var loop := AppLoop(IsAuto(context), maxBatches, AppLoopState(0, AppWaitStart(context), 0, 0), attempts);
      if final.None? then AppFailed(NoFinalStatistics, initial)
      else
        var i, f := initial.value, final.value;
        var company, industry, description := i.company - f.company, i.industry - f.industry, i.description - f.description;
        AppEnriched(i, f, Improvements(company, industry, description, company + industry + description), loop)
  }

  /**
   * The app run succeeds exactly when the database and its statistics are
   * there and either nothing is missing or the LLM test passes and the
   * final statistics can be read; the improvements then add up to the drop
   * in missing fields, and at most `max_batches` batches were counted.
   */
  lemma RunForAppCorrect(context: string, maxBatches: nat, dbExists: bool, initial: Option<MissingStats>,
                         llmOk: bool, attempts: seq<Attempt>, final: Option<MissingStats>)
    ensures var r := RunForApp(context, maxBatches, dbExists, initial, llmOk, attempts, final);
            && (r.Success() <==> dbExists && initial.Some? && (MissingTotal(initial.value) == 0 || (llmOk && final.Some?)))
            && (r.NothingToEnrich? <==> dbExists && initial.Some? && MissingTotal(initial.value) == 0)
            && (r.AppEnriched? ==> r.improvements.total == MissingTotal(r.initial) - MissingTotal(r.final))
            && (r.AppEnriched? ==> r.loop.batchCount <= maxBatches && r.loop.waitTime <= AppWaitCap)
  {
    AppLoopBounds(context, maxBatches, attempts);
  }
}
