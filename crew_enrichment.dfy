/**
 * The older enrichment script `data_enrichment_crew.py`. Its selection
 * query, reply parser, acceptance rules, rate-limit test and batch loop are
 * the same as those of `data_enrichment.py` and are taken from
 * `SrcEnrichment`; what differs is modelled here: the UPDATE writes no
 * `enrichment_status`, the self-test has its own unvalidated parser, and
 * `main` starts with batches of 8 and does no maintenance.
 */
module CrewEnrichment {
  import opened Wrappers
  import opened Text
  import Src = SrcEnrichment

  /** `batch_size` at the start of `main`. */
  const CrewMainBatchSize: nat := 8

  // ---------------------------------------------------------------------
  // `batch_enrichment`: updates without a status
  // ---------------------------------------------------------------------

  /** The row after `UPDATE ... SET <filtered fields>`; nothing else is written. */
  function CrewUpdated(p: Src.Posting, f: Src.Updates): Src.Posting {
    p.(company := Src.Patch(p.company, f.company),
       industry := Src.Patch(p.industry, f.industry),
       companyDescription := Src.Patch(p.companyDescription, f.description))
  }

  function CrewUpdateRows(rows: seq<Src.Posting>, id: int, f: Src.Updates): (r: seq<Src.Posting>)
    ensures |r| == |rows|
  {
    seq(|rows|, i requires 0 <= i < |rows| => if rows[i].id == id then CrewUpdated(rows[i], f) else rows[i])
  }

  /** One `jobs_data` entry, looked up by `str(id)`; an UPDATE that hits a row is counted. */
  function CrewApplyJob(acc: Src.Applied, job: Src.JobRequest, saved: map<string, Src.Updates>): Src.Applied {
    var key := IntToString(job.id);
    if key !in saved then acc
    else
      var f := Src.Filtered(job, saved[key]);
      if f == Src.NoUpdates then acc
      else if Src.HasRow(acc.rows, job.id) then Src.Applied(CrewUpdateRows(acc.rows, job.id, f), acc.updatedCount + 1)
      else acc
  }

  function CrewApplyAll(acc: Src.Applied, jobs: seq<Src.JobRequest>, saved: map<string, Src.Updates>): (r: Src.Applied)
    ensures |r.rows| == |acc.rows|
    decreases |jobs|
  {
    if jobs == [] then acc else CrewApplyAll(CrewApplyJob(acc, jobs[0], saved), jobs[1..], saved)
  }

  /** `batch_enrichment(batch_size)` of the crew script, given the LLM's reply (`None` when it raised). */
  function CrewBatch(rows: seq<Src.Posting>, batchSize: nat, reply: Option<string>): Src.BatchOutcome {
    var records := Src.SelectRecords(rows, batchSize);
    if records == [] then Src.BatchOutcome(rows, true)
    else
      var jobs := Src.JobsData(records);
      if jobs == [] then Src.BatchOutcome(rows, true)
      else if reply.None? then Src.BatchOutcome(rows, false)
      else
        var saved := Src.ParsedUpdates(reply.value);
        var applied := CrewApplyAll(Src.Applied(rows, 0), jobs, saved);
        Src.BatchOutcome(applied.rows, applied.updatedCount > 0 || |saved| > 0)
  }

  /** `rows` with each row's status put back to the one it has in `orig`. */
  function WithStatusesOf(rows: seq<Src.Posting>, orig: seq<Src.Posting>): (r: seq<Src.Posting>)
    requires |rows| == |orig|
    ensures |r| == |rows|
  {
    seq(|rows|, i requires 0 <= i < |rows| => rows[i].(status := orig[i].status))
  }

  lemma CrewApplyJobAgrees(s: Src.Applied, orig: seq<Src.Posting>, job: Src.JobRequest, saved: map<string, Src.Updates>)
    requires |s.rows| == |orig|
    ensures var c := Src.Applied(WithStatusesOf(s.rows, orig), s.updatedCount);
            var t := Src.ApplyJob(s, job, saved);
            CrewApplyJob(c, job, saved) == Src.Applied(WithStatusesOf(t.rows, orig), t.updatedCount)
  {
    var c := Src.Applied(WithStatusesOf(s.rows, orig), s.updatedCount);
    var key := IntToString(job.id);
    if key in saved && Src.Filtered(job, saved[key]) != Src.NoUpdates {
      if Src.HasRow(s.rows, job.id) {
        var i :| 0 <= i < |s.rows| && s.rows[i].id == job.id;
        assert c.rows[i].id == job.id;
      }
      if Src.HasRow(c.rows, job.id) {
        var i :| 0 <= i < |c.rows| && c.rows[i].id == job.id;
        assert s.rows[i].id == job.id;
      }
    }
  }

  lemma {:induction false} CrewApplyAllAgrees(s: Src.Applied, orig: seq<Src.Posting>, jobs: seq<Src.JobRequest>, saved: map<string, Src.Updates>)
    requires |s.rows| == |orig|
    ensures var t := Src.ApplyAll(s, jobs, saved);
            CrewApplyAll(Src.Applied(WithStatusesOf(s.rows, orig), s.updatedCount), jobs, saved)
            == Src.Applied(WithStatusesOf(t.rows, orig), t.updatedCount)
    decreases |jobs|
  {
    if jobs != [] {
      CrewApplyJobAgrees(s, orig, jobs[0], saved);
      CrewApplyAllAgrees(Src.ApplyJob(s, jobs[0], saved), orig, jobs[1..], saved);
    }
  }

  lemma WithOwnStatuses(rows: seq<Src.Posting>)
    ensures WithStatusesOf(rows, rows) == rows
  {
  }

  /**
   * The crew script's batch is the newer one without the status column: it
   * returns the same flag, and leaves every row as the newer batch does
   * except that the row keeps its old `enrichment_status`.
   */
  lemma CrewBatchAgrees(rows: seq<Src.Posting>, batchSize: nat, reply: Option<string>)
    ensures |Src.Batch(rows, batchSize, reply).rows| == |rows|
    ensures CrewBatch(rows, batchSize, reply).ok == Src.Batch(rows, batchSize, reply).ok
    ensures CrewBatch(rows, batchSize, reply).rows == WithStatusesOf(Src.Batch(rows, batchSize, reply).rows, rows)
  {
    Src.BatchEvolves(rows, batchSize, reply);
    var sel := Src.SelectRecords(rows, batchSize);
    if sel != [] && Src.JobsData(sel) != [] && reply.Some? {
      WithOwnStatuses(rows);
      CrewApplyAllAgrees(Src.Applied(rows, 0), rows, Src.JobsData(sel), Src.ParsedUpdates(reply.value));
    } else {
      WithOwnStatuses(rows);
    }
  }

  /**
   * Only missing fields are written: a row the query did not select is
   * untouched, a present company, industry or company description is kept,
   * no status is ever written, and a batch that reports failure changed
   * nothing.
   */
  lemma CrewBatchKeepsPresentFields(rows: seq<Src.Posting>, batchSize: nat, reply: Option<string>)
    requires Src.DistinctIds(rows)
    ensures |CrewBatch(rows, batchSize, reply).rows| == |rows|
    ensures forall i :: 0 <= i < |rows| && rows[i] !in Src.SelectRecords(rows, batchSize) ==>
              CrewBatch(rows, batchSize, reply).rows[i] == rows[i]
    ensures forall i :: 0 <= i < |rows| && !Src.Missing(rows[i].company) ==>
              CrewBatch(rows, batchSize, reply).rows[i].company == rows[i].company
    ensures forall i :: 0 <= i < |rows| && !Src.Missing(rows[i].industry) ==>
              CrewBatch(rows, batchSize, reply).rows[i].industry == rows[i].industry
    ensures forall i :: 0 <= i < |rows| && !Src.Missing(rows[i].companyDescription) ==>
              CrewBatch(rows, batchSize, reply).rows[i].companyDescription == rows[i].companyDescription
    ensures forall i :: 0 <= i < |rows| ==> CrewBatch(rows, batchSize, reply).rows[i].status == rows[i].status
    ensures !CrewBatch(rows, batchSize, reply).ok ==> CrewBatch(rows, batchSize, reply).rows == rows
  {
    CrewBatchAgrees(rows, batchSize, reply);
    Src.BatchKeepsPresentFields(rows, batchSize, reply);
    Src.BatchResult(rows, batchSize, reply);
    if !CrewBatch(rows, batchSize, reply).ok {
      WithOwnStatuses(rows);
    }
  }

  /** The crew script's table, on which `batch_enrichment` runs its UPDATEs. */
  class CrewDatabase {
    var rows: seq<Src.Posting>

    constructor(initialRows: seq<Src.Posting>)
      ensures rows == initialRows
    {
      rows := initialRows;
    }

    /** `batch_enrichment(batch_size)`, given the LLM's reply (`None` when the call raised). */
    method BatchEnrichment(batchSize: nat, reply: Option<string>) returns (ok: bool)
      modifies this
      ensures rows == CrewBatch(old(rows), batchSize, reply).rows
      ensures ok == CrewBatch(old(rows), batchSize, reply).ok
    {
      var records := Src.SelectRecords(rows, batchSize);
      if records == [] {
        return true;
      }
      var jobs: seq<Src.JobRequest> := [];
      var i := 0;
      while i < |records|
        invariant 0 <= i <= |records|
        invariant jobs + Src.JobsData(records[i..]) == Src.JobsData(records)
      {
        assert records[i..][1..] == records[i + 1..];
        var job := Src.RequestFor(records[i]);
        if Src.NeedsAny(job) {
          jobs := jobs + [job];
        }
        i := i + 1;
      }
      assert records[i..] == [];
      if jobs == [] {
        return true;
      }
      if reply.None? {
        return false;
      }
      var saved := Src.ParseReply(reply.value);
      var table := rows;
      var updatedCount := 0;
      var k := 0;
      while k < |jobs|
        invariant 0 <= k <= |jobs|
        invariant CrewApplyAll(Src.Applied(table, updatedCount), jobs[k..], saved) == CrewApplyAll(Src.Applied(old(rows), 0), jobs, saved)
      {
        var job := jobs[k];
        var key := IntToString(job.id);
        if key in saved {
          var f := Src.Filtered(job, saved[key]);
          if f != Src.NoUpdates && Src.HasRow(table, job.id) {
            table := CrewUpdateRows(table, job.id, f);
            updatedCount := updatedCount + 1;
          }
        }
        assert jobs[k..][1..] == jobs[k + 1..];
        k := k + 1;
      }
      assert jobs[k..] == [];
      assert jobs == Src.JobsData(Src.SelectRecords(old(rows), batchSize));
      assert Src.Applied(table, updatedCount) == CrewApplyAll(Src.Applied(old(rows), 0), jobs, saved);
      rows := table;
      ok := updatedCount > 0 || |saved| > 0;
    }
  }

  // ---------------------------------------------------------------------
  // The parser of `test_llm_functionality`
  // ---------------------------------------------------------------------

  /** The `'company'`, `'industry'` and `'description'` entries of one test record. */
  datatype TestFields = TestFields(company: Option<string>, industry: Option<string>, description: Option<string>)

  const NoTestFields: TestFields := TestFields(None, None, None)

  /** `current_job_id` and `job_updates` of the test parser. */
  datatype TestState = TestState(currentId: Option<string>, updates: map<string, TestFields>)

  const TestStart: TestState := TestState(None, map[])

  /**
   * One line of the test parser: every `JOB_ID:` line creates or resets an
   * entry, even for an empty or repeated id; a field line with a current
   * non-empty id sets that field to whatever follows the tag, unchecked.
   */
  function TestStep(st: TestState, raw: string): (r: TestState)
    ensures st.updates.Keys <= r.updates.Keys
  {
    var line := Strip(raw);
    if StartsWith(line, "JOB_ID:") then
      var id := Src.TagValue(line, "JOB_ID:");
      TestState(Some(id), st.updates[id := NoTestFields])
    else if st.currentId.None? || st.currentId.value == [] || st.currentId.value !in st.updates then st
    else
      var id := st.currentId.value;
      var e := st.updates[id];
      if StartsWith(line, "COMPANY:") then
        st.(updates := st.updates[id := e.(company := Some(Src.TagValue(line, "COMPANY:")))])
      else if StartsWith(line, "INDUSTRY:") then
        st.(updates := st.updates[id := e.(industry := Some(Src.TagValue(line, "INDUSTRY:")))])
      else if StartsWith(line, "DESCRIPTION:") then
        st.(updates := st.updates[id := e.(description := Some(Src.TagValue(line, "DESCRIPTION:")))])
      else st
  }

  function TestFold(st: TestState, lines: seq<string>): TestState
    decreases |lines|
  {
    if lines == [] then st else TestFold(TestStep(st, lines[0]), lines[1..])
  }

  /** `job_updates` after parsing the test reply. */
  function TestParsed(reply: string): map<string, TestFields> {
    TestFold(TestStart, Split(reply, '\n')).updates
  }

  /** The parsing loop of `test_llm_functionality`. */
  method TestParse(reply: string) returns (jobUpdates: map<string, TestFields>)
    ensures jobUpdates == TestParsed(reply)
  {
    var lines := Split(reply, '\n');
    var currentId: Option<string> := None;
    jobUpdates := map[];
    var i := 0;
    while i < |lines|
      invariant 0 <= i <= |lines|
      invariant TestFold(TestState(currentId, jobUpdates), lines[i..]) == TestFold(TestStart, lines)
    {
      assert lines[i..][1..] == lines[i + 1..];
      ghost var before := TestState(currentId, jobUpdates);
      var line := Strip(lines[i]);
      if StartsWith(line, "JOB_ID:") {
        currentId := Some(Src.TagValue(line, "JOB_ID:"));
        jobUpdates := jobUpdates[currentId.value := NoTestFields];
      } else if currentId.Some? && currentId.value != [] && currentId.value in jobUpdates {
        var e := jobUpdates[currentId.value];
        if StartsWith(line, "COMPANY:") {
          jobUpdates := jobUpdates[currentId.value := e.(company := Some(Src.TagValue(line, "COMPANY:")))];
        } else if StartsWith(line, "INDUSTRY:") {
          jobUpdates := jobUpdates[currentId.value := e.(industry := Some(Src.TagValue(line, "INDUSTRY:")))];
        } else if StartsWith(line, "DESCRIPTION:") {
          jobUpdates := jobUpdates[currentId.value := e.(description := Some(Src.TagValue(line, "DESCRIPTION:")))];
        }
      }
      assert TestState(currentId, jobUpdates) == TestStep(before, lines[i]);
      i := i + 1;
    }
    assert lines[i..] == [];
  }

  /** The ids of the `JOB_ID:` lines among `lines`. */
  function IdsOf(lines: seq<string>): set<string>
    decreases |lines|
  {
    if lines == [] then {}
    else (if Src.IsIdLine(lines[0]) then {Src.IdOf(lines[0])} else {}) + IdsOf(lines[1..])
  }

  lemma TestStepKeys(st: TestState, raw: string)
    ensures TestStep(st, raw).updates.Keys == st.updates.Keys + (if Src.IsIdLine(raw) then {Src.IdOf(raw)} else {})
  {
    StripIdempotent(raw);
  }

  lemma {:induction false} TestFoldKeys(st: TestState, lines: seq<string>)
    ensures TestFold(st, lines).updates.Keys == st.updates.Keys + IdsOf(lines)
    decreases |lines|
  {
    if lines != [] {
      TestStepKeys(st, lines[0]);
      TestFoldKeys(TestStep(st, lines[0]), lines[1..]);
    }
  }

  /**
   * The test parser keeps an entry for exactly the ids of the `JOB_ID:`
   * lines, whether or not any field followed them.
   */
  lemma TestParsedKeys(reply: string)
    ensures TestParsed(reply).Keys == IdsOf(Split(reply, '\n'))
  {
    TestFoldKeys(TestStart, Split(reply, '\n'));
  }

  /**
   * The test parser does not validate: a company value the batch parser
   * rejects as a placeholder is still recorded, provided it follows a
   * non-empty id.
   */
  lemma TestParserKeepsPlaceholders(idLine: string, companyLine: string)
    requires Src.IsIdLine(idLine) && Src.IdOf(idLine) != []
    requires StartsWith(Strip(companyLine), "COMPANY:")
    ensures TestFold(TestStart, [idLine, companyLine]).updates
            == map[Src.IdOf(idLine) := NoTestFields.(company := Some(Src.TagValue(Strip(companyLine), "COMPANY:")))]
  {
    StripIdempotent(idLine);
    assert [idLine, companyLine][1..] == [companyLine];
    var st := TestStep(TestStart, idLine);
    assert st == TestState(Some(Src.IdOf(idLine)), map[Src.IdOf(idLine) := NoTestFields]);
    assert !StartsWith(Strip(companyLine), "JOB_ID:") by {
      assert Strip(companyLine)[0] == 'C';
    }
    var id := Src.IdOf(idLine);
    assert TestStep(st, companyLine).updates
           == map[id := NoTestFields][id := NoTestFields.(company := Some(Src.TagValue(Strip(companyLine), "COMPANY:")))];
    assert TestFold(TestStart, [idLine, companyLine]) == TestFold(st, [companyLine]);
    assert TestFold(st, [companyLine]) == TestFold(TestStep(st, companyLine), []);
  }

  /**
   * `test_llm_functionality()`: it passes whenever the model answered; the
   * count of parsed entries only chooses the log message.
   */
  predicate TestLlmFunctionality(reply: Option<string>) {
    reply.Some?
  }

  // ---------------------------------------------------------------------
  // `main`
  // ---------------------------------------------------------------------

  datatype CrewStop = NoDatabase | LlmTestFailed | NoStatistics | NothingToEnrich

  datatype CrewRun =
    | Stopped(reason: CrewStop)
    | Enriched(loop: Src.Backoff, improvements: Option<Src.Improvements>)

  /**
   * `main` of the crew script, given whether the database exists, the self
   * test's reply, the statistics before and after, and the outcomes of the
   * successive batch calls.
   */
  function CrewMain(dbExists: bool, testReply: Option<string>, initial: Option<Src.MissingStats>,
                    attempts: seq<Src.Attempt>, final: Option<Src.MissingStats>): CrewRun
  {
    if !dbExists then Stopped(NoDatabase)
    else if !TestLlmFunctionality(testReply) then Stopped(LlmTestFailed)
    else if initial.None? then Stopped(NoStatistics)
    else if Src.MissingTotal(initial.value) == 0 then Stopped(NothingToEnrich)
    else
      var loop := Src.MainLoop(Src.MainStart(CrewMainBatchSize), attempts);
      if final.None? then Enriched(loop, None)
      else
        var i, f := initial.value, final.value;
        var company, industry, description := i.company - f.company, i.industry - f.industry, i.description - f.description;
        Enriched(loop, Some(Src.Improvements(company, industry, description, company + industry + description)))
  }

  /**
   * The crew `main` runs batches exactly when the database exists, the
   * model answered the self test and some field is missing; its loop then
   * counts at most fifteen batches, starts at 8 and halves towards 3 on each
   * rate limit, and doubles the wait up to 60 seconds; the improvements add
   * up to the drop in missing fields.
   */
  lemma CrewMainCorrect(dbExists: bool, testReply: Option<string>, initial: Option<Src.MissingStats>,
                        attempts: seq<Src.Attempt>, final: Option<Src.MissingStats>)
    ensures var r := CrewMain(dbExists, testReply, initial, attempts, final);
            && (r.Enriched? <==> dbExists && testReply.Some? && initial.Some? && Src.MissingTotal(initial.value) > 0)
            && (r.Enriched? ==>
                  && r.loop.batchCount <= Src.MaxBatches
                  && r.loop.batchCount + r.loop.retries == |r.loop.sizes|
                  && Src.MinBatchSize <= r.loop.batchSize <= CrewMainBatchSize
                  && r.loop.batchSize == Src.Max(Src.MinBatchSize, CrewMainBatchSize / Src.Pow2(r.loop.retries))
                  && 3 <= r.loop.waitTime <= Src.MainWaitCap
                  && (forall k :: 0 <= k < |r.loop.sizes| ==> Src.MinBatchSize <= r.loop.sizes[k] <= CrewMainBatchSize))
            && (r.Enriched? && r.improvements.Some? ==>
                  r.improvements.value.total == Src.MissingTotal(initial.value) - Src.MissingTotal(final.value))
  {
    Src.MainLoopBounds(CrewMainBatchSize, attempts);
  }

  /**
   * The crew `batch_enrichment` also catches everything after opening its
   * connection, so no call comes back rate limited; its `main` then never
   * backs off: every batch has 8 records and the wait stays at 3 seconds.
   */
  lemma CrewMainNeverBacksOff(dbExists: bool, testReply: Option<string>, initial: Option<Src.MissingStats>,
                              attempts: seq<Src.Attempt>, final: Option<Src.MissingStats>)
    requires forall i :: 0 <= i < |attempts| ==> !Src.RateLimited(attempts[i])
    ensures var r := CrewMain(dbExists, testReply, initial, attempts, final);
            r.Enriched? ==>
              && r.loop.retries == 0 && r.loop.batchSize == CrewMainBatchSize && r.loop.waitTime == 3
              && (forall k :: 0 <= k < |r.loop.sizes| ==> r.loop.sizes[k] == CrewMainBatchSize)
  {
    Src.MainLoopNeverBacksOff(CrewMainBatchSize, attempts);
  }
}
