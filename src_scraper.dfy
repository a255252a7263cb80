/**
 * The posting store writes of `src/skillscope/scrapers/indeed_scraper.py`:
 * converting a scraped frame into records, the upsert keyed by the UNIQUE
 * `job_url` (`insert_job_records`), the insert-or-ignore of the profile
 * search (`insert_job_records_enhanced`), and the split of a profile
 * search's results into new postings and duplicates. The scraper itself is
 * an oracle: its answer is a parameter. A `job_url` of `None` is SQL NULL,
 * which a UNIQUE column admits any number of times.
 */
module SrcScraper {
  import opened Wrappers
  import opened Text
  import Seqs

  // ---------------------------------------------------------------------
  // `convert_dataframe_to_records`
  // ---------------------------------------------------------------------

  /** A cell of the scraped frame: the column may be absent, hold a null, or hold text. */
  datatype Cell = Absent | Null | Text(text: string)

  datatype FrameRow = FrameRow(title: Cell, company: Cell, url: Cell, description: Cell, jobType: Cell,
                               isRemote: Option<bool>, location: Cell)

  /** `row.get(column, '')`: an absent column reads as the empty string, a null as `None`. */
  function GetText(c: Cell): Option<string> {
    match c
    case Absent => Some("")
    case Null => None
    case Text(t) => Some(t)
  }

  /** One converted record, with the search that found it. */
  datatype JobRecord = JobRecord(title: Option<string>, company: Option<string>, url: Option<string>,
                                 description: Option<string>, jobType: Option<string>, isRemote: bool,
                                 location: string, searchTerm: string, searchLocation: string)

  /** `str(location).strip()` when the cell is truthy, otherwise `''`. */
  function LocationOf(c: Cell): (r: string)
    ensures Strip(r) == r
    ensures r == [] <==> !c.Text? || IsBlank(c.text)
  {
    if c.Text? && c.text != [] then
      StripIdempotent(c.text);
      Strip(c.text)
    else []
  }

  function ConvertRow(row: FrameRow, searchTerm: string, searchLocation: string): JobRecord {
    JobRecord(GetText(row.title), GetText(row.company), GetText(row.url), GetText(row.description),
              GetText(row.jobType), row.isRemote == Some(true), LocationOf(row.location), searchTerm, searchLocation)
  }

  /**
   * `convert_dataframe_to_records`: one record per frame row, in order, each
   * carrying the search term and location and a stripped location.
   */
  method ConvertDataframeToRecords(frame: seq<FrameRow>, searchTerm: string, searchLocation: string)
    returns (records: seq<JobRecord>)
    ensures |records| == |frame|
    ensures forall i :: 0 <= i < |frame| ==> records[i] == ConvertRow(frame[i], searchTerm, searchLocation)
    ensures forall i :: 0 <= i < |records| ==>
              records[i].searchTerm == searchTerm && records[i].searchLocation == searchLocation
              && Strip(records[i].location) == records[i].location
  {
    records := [];
    var i := 0;
    while i < |frame|
      invariant 0 <= i <= |frame|
      invariant |records| == i
      invariant forall k :: 0 <= k < i ==> records[k] == ConvertRow(frame[k], searchTerm, searchLocation)
    {
      records := records + [ConvertRow(frame[i], searchTerm, searchLocation)];
      i := i + 1;
    }
  }

  // ---------------------------------------------------------------------
  // The `job_postings` table and its writes
  // ---------------------------------------------------------------------

  /** A stored posting: the record plus `scraped_timestamp`, `last_seen_timestamp`, `refresh_count`, `job_status`. */
  datatype StoredJob = StoredJob(record: JobRecord, scraped: int, lastSeen: int, refreshCount: nat, status: string)

  /** A freshly inserted row; `refresh_count` and `job_status` take their column defaults. */
  function NewRow(rec: JobRecord, now: int): StoredJob {
    StoredJob(rec, now, now, 1, "active")
  }

  /** The UNIQUE constraint on `job_url`: no two rows share a non-NULL url. */
  predicate UniqueUrls(rows: seq<StoredJob>) {
    forall i, j :: 0 <= i < j < |rows| && rows[i].record.url.Some? ==> rows[i].record.url != rows[j].record.url
  }

  predicate HasUrl(rows: seq<StoredJob>, url: string) {
    exists i :: 0 <= i < |rows| && rows[i].record.url == Some(url)
  }

  /** `UPDATE ... SET last_seen_timestamp = now, refresh_count = refresh_count + 1, job_status = 'active' WHERE job_url = url` */
  function Refresh(rows: seq<StoredJob>, url: string, now: int): (r: seq<StoredJob>)
    ensures |r| == |rows|
  {
    seq(|rows|, i requires 0 <= i < |rows| =>
          if rows[i].record.url == Some(url)
          then rows[i].(lastSeen := now, refreshCount := rows[i].refreshCount + 1, status := "active")
          else rows[i])
  }

  /** The table and the two counters of `insert_job_records`. */
  datatype Upsert = Upsert(rows: seq<StoredJob>, inserted: nat, updated: nat)

  /** One record: INSERT OR IGNORE, and when the url was already there, the refreshing UPDATE. */
  function UpsertOne(st: Upsert, rec: JobRecord, now: int): Upsert {
    if rec.url.Some? && HasUrl(st.rows, rec.url.value) then
      Upsert(Refresh(st.rows, rec.url.value, now), st.inserted, st.updated + 1)
    else Upsert(st.rows + [NewRow(rec, now)], st.inserted + 1, st.updated)
  }

  function UpsertAll(st: Upsert, records: seq<JobRecord>, now: int): Upsert
    decreases |records|
  {
    if records == [] then st else UpsertAll(UpsertOne(st, records[0], now), records[1..], now)
  }

  /** How many records carry `url`. */
  function Occurrences(records: seq<JobRecord>, url: string): nat
    decreases |records|
  {
    if records == [] then 0
    else (if records[0].url == Some(url) then 1 else 0) + Occurrences(records[1..], url)
  }

  /** What the upsert did to a row that was already in the table. */
  predicate Refreshed(before: StoredJob, after: StoredJob, records: seq<JobRecord>, now: int) {
    after.record == before.record && after.scraped == before.scraped
    && (before.record.url.None? ==> after == before)
    && (before.record.url.Some? ==>
          var n := Occurrences(records, before.record.url.value);
          after.refreshCount == before.refreshCount + n
          && after.lastSeen == (if n > 0 then now else before.lastSeen)
          && after.status == (if n > 0 then "active" else before.status))
  }

  lemma {:induction false} UpsertAllShape(st: Upsert, records: seq<JobRecord>, now: int)
    ensures var r := UpsertAll(st, records, now);
            && st.inserted <= r.inserted && st.updated <= r.updated
            && (r.inserted - st.inserted) + (r.updated - st.updated) == |records|
            && |r.rows| == |st.rows| + (r.inserted - st.inserted)
            && (forall i :: 0 <= i < |st.rows| ==> Refreshed(st.rows[i], r.rows[i], records, now))
            && (forall i :: |st.rows| <= i < |r.rows| ==> r.rows[i].scraped == now && r.rows[i].record in records)
    decreases |records|
  {
    if records != [] {
      var rec := records[0];
      var mid := UpsertOne(st, rec, now);
      UpsertAllShape(mid, records[1..], now);
      var r := UpsertAll(st, records, now);
      assert forall x :: x in records[1..] ==> x in records;
      forall i | 0 <= i < |st.rows|
        ensures Refreshed(st.rows[i], r.rows[i], records, now)
      {
        assert Refreshed(mid.rows[i], r.rows[i], records[1..], now);
      }
      if !(rec.url.Some? && HasUrl(st.rows, rec.url.value)) {
        assert mid.rows[|st.rows|] == NewRow(rec, now);
        assert r.rows[|st.rows|].record == rec;
      }
    }
  }

  /** The upsert keeps the UNIQUE constraint on `job_url`. */
  lemma {:induction false} UpsertAllUnique(st: Upsert, records: seq<JobRecord>, now: int)
    requires UniqueUrls(st.rows)
    ensures UniqueUrls(UpsertAll(st, records, now).rows)
    decreases |records|
  {
    if records != [] {
      var rec := records[0];
      var mid := UpsertOne(st, rec, now);
      if !(rec.url.Some? && HasUrl(st.rows, rec.url.value)) {
        forall i, j | 0 <= i < j < |mid.rows| && mid.rows[i].record.url.Some?
          ensures mid.rows[i].record.url != mid.rows[j].record.url
        {
          if j == |st.rows| {
            assert mid.rows[i] == st.rows[i];
          }
        }
      }
      UpsertAllUnique(mid, records[1..], now);
    }
  }

  /** A url in the table stays in the table. */
  lemma UpsertAllKeepsUrl(st: Upsert, records: seq<JobRecord>, now: int, url: string)
    requires HasUrl(st.rows, url)
    ensures HasUrl(UpsertAll(st, records, now).rows, url)
  {
    UpsertAllShape(st, records, now);
    var i :| 0 <= i < |st.rows| && st.rows[i].record.url == Some(url);
    assert UpsertAll(st, records, now).rows[i].record.url == Some(url);
  }

  /** After the upsert every non-NULL url of the batch is in the table. */
  lemma {:induction false} UpsertAllCovers(st: Upsert, records: seq<JobRecord>, now: int)
    ensures forall k :: 0 <= k < |records| && records[k].url.Some? ==> HasUrl(UpsertAll(st, records, now).rows, records[k].url.value)
    decreases |records|
  {
    if records != [] {
      var rec := records[0];
      var mid := UpsertOne(st, rec, now);
      UpsertAllCovers(mid, records[1..], now);
      if rec.url.Some? {
        if HasUrl(st.rows, rec.url.value) {
          var i :| 0 <= i < |st.rows| && st.rows[i].record.url == rec.url;
          assert mid.rows[i].record.url == rec.url;
        } else {
          assert mid.rows[|st.rows|].record.url == rec.url;
        }
        UpsertAllKeepsUrl(mid, records[1..], now, rec.url.value);
      }
      forall k | 1 <= k < |records| && records[k].url.Some?
        ensures HasUrl(UpsertAll(st, records, now).rows, records[k].url.value)
      {
        assert records[1..][k - 1] == records[k];
      }
    }
  }

  /** Records whose urls are all in the table insert nothing. */
  lemma {:induction false} AllPresentInsertsNothing(st: Upsert, records: seq<JobRecord>, now: int)
    requires forall k :: 0 <= k < |records| ==> records[k].url.Some? && HasUrl(st.rows, records[k].url.value)
    ensures UpsertAll(st, records, now).inserted == st.inserted
    decreases |records|
  {
    if records != [] {
      var mid := UpsertOne(st, records[0], now);
      forall k | 0 <= k < |records[1..]|
        ensures records[1..][k].url.Some? && HasUrl(mid.rows, records[1..][k].url.value)
      {
        assert records[1..][k] == records[k + 1];
        var j :| 0 <= j < |st.rows| && st.rows[j].record.url == records[k + 1].url;
        assert mid.rows[j].record.url == records[k + 1].url;
      }
      AllPresentInsertsNothing(mid, records[1..], now);
    }
  }

  /**
   * Upserting the same batch again, all of whose urls are non-NULL, inserts
   * nothing and raises each row's `refresh_count` by the number of times its
   * url occurs in the batch.
   */
  lemma ReinsertInsertsNothing(rows: seq<StoredJob>, records: seq<JobRecord>, first: int, second: int)
    requires forall k :: 0 <= k < |records| ==> records[k].url.Some?
    ensures var once := UpsertAll(Upsert(rows, 0, 0), records, first);
            var twice := UpsertAll(Upsert(once.rows, 0, 0), records, second);
            && twice.inserted == 0
            && twice.updated == |records|
            && |twice.rows| == |once.rows|
            && forall i :: 0 <= i < |once.rows| && once.rows[i].record.url.Some? ==>
                 twice.rows[i].refreshCount
                 == once.rows[i].refreshCount + Occurrences(records, once.rows[i].record.url.value)
  {
    var once := UpsertAll(Upsert(rows, 0, 0), records, first);
    UpsertAllCovers(Upsert(rows, 0, 0), records, first);
    AllPresentInsertsNothing(Upsert(once.rows, 0, 0), records, second);
    UpsertAllShape(Upsert(once.rows, 0, 0), records, second);
  }

  /** The rows and counter of an insert-or-ignore pass. */
  datatype Inserted = Inserted(rows: seq<StoredJob>, inserted: nat)

  /** INSERT OR IGNORE of one record: a url already in the table is ignored. */
  function InsertOrIgnoreOne(st: Inserted, rec: JobRecord, now: int): Inserted {
    if rec.url.Some? && HasUrl(st.rows, rec.url.value) then st
    else Inserted(st.rows + [NewRow(rec, now)], st.inserted + 1)
  }

  /** `pd.Timestamp.now()` as read for the record at each position of a batch. */
  type Clock = nat -> int

  /** Insert-or-ignore of `records[i..]`, the record at position `k` stamped `clock(k)`. */
  function InsertOrIgnoreFrom(st: Inserted, records: seq<JobRecord>, clock: Clock, i: nat): Inserted
    decreases |records| - i
  {
    if i >= |records| then st
    else InsertOrIgnoreFrom(InsertOrIgnoreOne(st, records[i], clock(i)), records, clock, i + 1)
  }

  function InsertOrIgnoreAll(st: Inserted, records: seq<JobRecord>, clock: Clock): Inserted {
    InsertOrIgnoreFrom(st, records, clock, 0)
  }

  /**
   * Insert-or-ignore never touches an existing row, adds one row per counted
   * insert, each a record of the batch stamped with the instant read for it,
   * and keeps `job_url` unique.
   */
  lemma InsertOrIgnoreAllCorrect(st: Inserted, records: seq<JobRecord>, clock: Clock)
    ensures var r := InsertOrIgnoreAll(st, records, clock);
            && st.inserted <= r.inserted <= st.inserted + |records|
            && |r.rows| == |st.rows| + (r.inserted - st.inserted)
            && r.rows[..|st.rows|] == st.rows
            && (forall j :: |st.rows| <= j < |r.rows| ==>
                  exists k :: 0 <= k < |records| && r.rows[j] == NewRow(records[k], clock(k)))
            && (UniqueUrls(st.rows) ==> UniqueUrls(r.rows))
  {
    InsertOrIgnoreFromCorrect(st, records, clock, 0);
  }

  lemma {:induction false} InsertOrIgnoreFromCorrect(st: Inserted, records: seq<JobRecord>, clock: Clock, i: nat)
    requires i <= |records|
    ensures var r := InsertOrIgnoreFrom(st, records, clock, i);
            && st.inserted <= r.inserted <= st.inserted + (|records| - i)
            && |r.rows| == |st.rows| + (r.inserted - st.inserted)
            && r.rows[..|st.rows|] == st.rows
            && (forall j :: |st.rows| <= j < |r.rows| ==>
                  exists k :: i <= k < |records| && r.rows[j] == NewRow(records[k], clock(k)))
            && (UniqueUrls(st.rows) ==> UniqueUrls(r.rows))
    decreases |records| - i
  {
    if i < |records| {
      var rec := records[i];
      var mid := InsertOrIgnoreOne(st, rec, clock(i));
      InsertOrIgnoreFromCorrect(mid, records, clock, i + 1);
      var r := InsertOrIgnoreFrom(st, records, clock, i);
      assert r.rows[..|mid.rows|] == mid.rows;
      assert r.rows[..|st.rows|] == mid.rows[..|st.rows|];
      if mid != st {
        assert r.rows[|st.rows|] == NewRow(records[i], clock(i));
      }
      if UniqueUrls(st.rows) {
        InsertOrIgnoreOneUnique(st, rec, clock(i));
      }
    }
  }

  /** One insert-or-ignore keeps `job_url` unique. */
  lemma InsertOrIgnoreOneUnique(st: Inserted, rec: JobRecord, now: int)
    requires UniqueUrls(st.rows)
    ensures UniqueUrls(InsertOrIgnoreOne(st, rec, now).rows)
  {
    var mid := InsertOrIgnoreOne(st, rec, now);
    if mid != st {
      forall i, j | 0 <= i < j < |mid.rows| && mid.rows[i].record.url.Some?
        ensures mid.rows[i].record.url != mid.rows[j].record.url
      {
        if j == |st.rows| {
          assert mid.rows[i] == st.rows[i];
        }
      }
    }
  }

  // ---------------------------------------------------------------------
  // The profile search's split of new postings from duplicates
  // ---------------------------------------------------------------------

  /** The exact `(title, company, location)` key of a posting. */
  datatype JobKey = JobKey(title: Option<string>, company: Option<string>, location: string)

  function KeyOf(rec: JobRecord): JobKey {
    JobKey(rec.title, rec.company, rec.location)
  }

  /** `SELECT title, company, location FROM job_postings` as a set. */
  function StoredKeys(rows: seq<StoredJob>): set<JobKey> {
    set i | 0 <= i < |rows| :: KeyOf(rows[i].record)
  }

  /**
   * `new_jobs_for_db` holds, in order, the records whose key was neither
   * among `existing` nor the key of an earlier record; its keys are pairwise
   * different; and every key of the batch that was not stored is represented.
   */
  lemma NewJobsCorrect(records: seq<JobRecord>, existing: set<JobKey>)
    ensures var kept := Seqs.DedupBy(records, KeyOf, existing);
            && Seqs.IsSubseq(kept, records)
            && (forall i :: 0 <= i < |kept| ==> KeyOf(kept[i]) !in existing)
            && (forall i, j :: 0 <= i < j < |kept| ==> KeyOf(kept[i]) != KeyOf(kept[j]))
            && (forall j :: 0 <= j < |records| && KeyOf(records[j]) !in existing && Seqs.FirstOfKey(records, KeyOf, j) ==>
                  records[j] in kept)
            && (forall j :: 0 <= j < |records| && KeyOf(records[j]) !in existing ==>
                  exists i :: 0 <= i < |kept| && KeyOf(kept[i]) == KeyOf(records[j]))
  {
    Seqs.DedupBySubseqDistinct(records, KeyOf, existing);
    forall j | 0 <= j < |records| && KeyOf(records[j]) !in existing && Seqs.FirstOfKey(records, KeyOf, j)
      ensures records[j] in Seqs.DedupBy(records, KeyOf, existing)
    {
      Seqs.DedupByKeepsFirst(records, KeyOf, existing, j);
    }
    forall j | 0 <= j < |records| && KeyOf(records[j]) !in existing
      ensures exists i :: 0 <= i < |Seqs.DedupBy(records, KeyOf, existing)| &&
                          KeyOf(Seqs.DedupBy(records, KeyOf, existing)[i]) == KeyOf(records[j])
    {
      Seqs.DedupByCovers(records, KeyOf, existing, j);
    }
  }

  /** What jobspy is asked for: `job_type` only when non-blank, `is_remote` only when given. */
  datatype ScrapeParams = ScrapeParams(searchTerm: string, location: string, resultsWanted: nat,
                                       jobType: Option<string>, isRemote: Option<bool>)

  function ScrapeParamsFor(searchTerm: string, location: string, jobType: Option<string>, isRemote: Option<bool>,
                           maxResults: nat): (p: ScrapeParams)
    ensures p.jobType.Some? <==> jobType.Some? && !IsBlank(jobType.value)
    ensures p.jobType.Some? ==> p.jobType == jobType
    ensures p.isRemote == isRemote
    ensures p.searchTerm == searchTerm && p.location == location && p.resultsWanted == maxResults
  {
    ScrapeParams(searchTerm, location, maxResults,
                 if jobType.Some? && Strip(jobType.value) != [] then jobType else None, isRemote)
  }

  /** What the scraper oracle answered: a frame, or an exception's message. */
  datatype ScrapeOutcome = Frame(frame: seq<FrameRow>) | Raised(message: string)

  datatype SearchStatus = NoResults | Succeeded | Failed(error: string)

  /** The dictionary returned by `scrape_indeed_jobs_with_profile`. */
  datatype ProfileSearch = ProfileSearch(totalJobsFound: nat, newJobsAdded: nat, jobsFromSearch: seq<JobRecord>,
                                         indeedResults: nat, duplicatesFound: int, status: SearchStatus)

  /**
   * `scrape_indeed_jobs_with_profile` given the scraper's answer, whether the
   * stored keys could be read (a failed read leaves `existing_jobs` empty),
   * whether the table has `last_seen_timestamp`, and the clock: the result
   * and the table afterwards. Without that column every INSERT fails, so
   * nothing is added.
   */
  function ProfileSearchOf(rows: seq<StoredJob>, searchTerm: string, location: string, outcome: ScrapeOutcome,
                           keysReadable: bool, hasLastSeen: bool, clock: Clock): (ProfileSearch, seq<StoredJob>)
  {
    match outcome
    case Raised(message) =>
      (ProfileSearch(0, 0, [], 0, 0, Failed("Error during Indeed scraping: " + message)), rows)
    case Frame(frame) =>
      if frame == [] then (ProfileSearch(0, 0, [], 0, 0, NoResults), rows)
      else
        var records := seq(|frame|, i requires 0 <= i < |frame| => ConvertRow(frame[i], searchTerm, location));
        var existing := if keysReadable then StoredKeys(rows) else {};
        var kept := Seqs.DedupBy(records, KeyOf, existing);
        var ins := if hasLastSeen then InsertOrIgnoreAll(Inserted(rows, 0), kept, clock) else Inserted(rows, 0);
        (ProfileSearch(|records|, ins.inserted, records, |frame|, |records| - ins.inserted, Succeeded), ins.rows)
  }

  /**
   * The profile search reports every converted record, in order, as found;
   * counts as new only rows the insert added, at most one per new key; its
   * duplicates are the rest; existing rows are untouched and `job_url` stays
   * unique; an empty frame or an error reports nothing and writes nothing.
   * On a table without `last_seen_timestamp` nothing is added and every
   * posting found counts as a duplicate.
   */
  lemma ProfileSearchCorrect(rows: seq<StoredJob>, searchTerm: string, location: string, outcome: ScrapeOutcome,
                             keysReadable: bool, hasLastSeen: bool, clock: Clock)
    requires UniqueUrls(rows)
    ensures var (res, after) := ProfileSearchOf(rows, searchTerm, location, outcome, keysReadable, hasLastSeen, clock);
            && res.totalJobsFound == |res.jobsFromSearch|
            && res.duplicatesFound == res.totalJobsFound - res.newJobsAdded
            && res.newJobsAdded <= res.totalJobsFound
            && |after| == |rows| + res.newJobsAdded
            && after[..|rows|] == rows
            && UniqueUrls(after)
            && (outcome.Frame? && outcome.frame != [] ==>
                  && res.status == Succeeded
                  && |res.jobsFromSearch| == |outcome.frame|
                  && forall i :: 0 <= i < |outcome.frame| ==> res.jobsFromSearch[i] == ConvertRow(outcome.frame[i], searchTerm, location))
            && (res.status != Succeeded ==> res.totalJobsFound == 0 && res.newJobsAdded == 0 && res.jobsFromSearch == [] && after == rows)
            && (!hasLastSeen ==> res.newJobsAdded == 0 && res.duplicatesFound == res.totalJobsFound && after == rows)
  {
    if outcome.Frame? && outcome.frame != [] {
      var frame := outcome.frame;
      var records := seq(|frame|, i requires 0 <= i < |frame| => ConvertRow(frame[i], searchTerm, location));
      var existing := if keysReadable then StoredKeys(rows) else {};
      var kept := Seqs.DedupBy(records, KeyOf, existing);
      Seqs.DedupBySubseqDistinct(records, KeyOf, existing);
      SubseqLength(kept, records);
      InsertOrIgnoreAllCorrect(Inserted(rows, 0), kept, clock);
    }
  }

  lemma {:induction false} SubseqLength<T>(a: seq<T>, b: seq<T>)
    requires Seqs.IsSubseq(a, b)
    ensures |a| <= |b|
    decreases |b|
  {
    if a != [] {
      if a[0] == b[0] && Seqs.IsSubseq(a[1..], b[1..]) {
        SubseqLength(a[1..], b[1..]);
      } else {
        SubseqLength(a, b[1..]);
      }
    }
  }

  /**
   * The loop of `scrape_indeed_jobs_with_profile` that keeps every record for
   * the search results and, for the database, each record whose key is not
   * yet in the growing `existing_jobs` set.
   */
  method SplitNewJobs(records: seq<JobRecord>, existingJobs: set<JobKey>)
    returns (allJobs: seq<JobRecord>, newJobs: seq<JobRecord>)
    ensures allJobs == records
    ensures newJobs == Seqs.DedupBy(records, KeyOf, existingJobs)
  {
    var existing := existingJobs;
    newJobs := [];
    allJobs := [];
    var i := 0;
    while i < |records|
      invariant 0 <= i <= |records|
      invariant allJobs == records[..i]
      invariant newJobs + Seqs.DedupBy(records[i..], KeyOf, existing) == Seqs.DedupBy(records, KeyOf, existingJobs)
    {
      assert records[i..][1..] == records[i + 1..];
      var job := records[i];
      allJobs := allJobs + [job];
      if KeyOf(job) !in existing {
        newJobs := newJobs + [job];
        existing := existing + {KeyOf(job)};
      }
      assert records[..i + 1] == records[..i] + [job];
      i := i + 1;
    }
    assert records[i..] == [];
    assert records[..i] == records;
  }

  /**
   * The `job_postings` table the scraper writes. Both INSERTs name
   * `last_seen_timestamp`; whether the table has that column depends on
   * which code created it, and without it every INSERT raises an error that
   * is logged and skipped.
   */
  class JobStore {
    var rows: seq<StoredJob>
    const hasLastSeen: bool

    constructor(initialRows: seq<StoredJob>, lastSeenColumn: bool)
      ensures rows == initialRows && hasLastSeen == lastSeenColumn
    {
      rows := initialRows;
      hasLastSeen := lastSeenColumn;
    }

    /**
     * `insert_job_records`: the upsert, at one instant `now`, returning only
     * the number of new rows; an empty batch returns 0 and writes nothing,
     * and so does a table without `last_seen_timestamp`.
     */
    method InsertJobRecords(records: seq<JobRecord>, now: int) returns (inserted: nat)
      modifies this
      ensures hasLastSeen ==> rows == UpsertAll(Upsert(old(rows), 0, 0), records, now).rows
      ensures hasLastSeen ==> inserted == UpsertAll(Upsert(old(rows), 0, 0), records, now).inserted
      ensures records == [] || !hasLastSeen ==> inserted == 0 && rows == old(rows)
    {
      if records == [] {
        return 0;
      }
      var table := rows;
      var insertedCount: nat := 0;
      var updatedCount: nat := 0;
      var i := 0;
      while i < |records|
        invariant 0 <= i <= |records|
        invariant hasLastSeen ==> UpsertAll(Upsert(table, insertedCount, updatedCount), records[i..], now)
                                  == UpsertAll(Upsert(old(rows), 0, 0), records, now)
        invariant !hasLastSeen ==> table == old(rows) && insertedCount == 0
      {
        assert records[i..][1..] == records[i + 1..];
        var rec := records[i];
        // Without the column the INSERT raises before the UPDATE is reached.
        if hasLastSeen {
          if rec.url.Some? && HasUrl(table, rec.url.value) {
            table := Refresh(table, rec.url.value, now);
            updatedCount := updatedCount + 1;
          } else {
            table := table + [NewRow(rec, now)];
            insertedCount := insertedCount + 1;
          }
        }
        i := i + 1;
      }
      assert records[i..] == [];
      rows := table;
      inserted := insertedCount;
    }

    /**
     * `insert_job_records_enhanced`: insert-or-ignore only, reading the clock
     * for each record, returning the number of new rows; nothing is added to
     * a table without `last_seen_timestamp`.
     */
    method InsertJobRecordsEnhanced(records: seq<JobRecord>, clock: Clock) returns (inserted: nat)
      modifies this
      ensures hasLastSeen ==> rows == InsertOrIgnoreAll(Inserted(old(rows), 0), records, clock).rows
      ensures hasLastSeen ==> inserted == InsertOrIgnoreAll(Inserted(old(rows), 0), records, clock).inserted
      ensures !hasLastSeen ==> inserted == 0 && rows == old(rows)
    {
      if records == [] {
        return 0;
      }
      var table := rows;
      var insertedCount: nat := 0;
      var i := 0;
      while i < |records|
        invariant 0 <= i <= |records|
        invariant hasLastSeen ==> InsertOrIgnoreFrom(Inserted(table, insertedCount), records, clock, i)
                                  == InsertOrIgnoreAll(Inserted(old(rows), 0), records, clock)
        invariant !hasLastSeen ==> table == old(rows) && insertedCount == 0
      {
        var rec := records[i];
        var now := clock(i);
        if hasLastSeen && !(rec.url.Some? && HasUrl(table, rec.url.value)) {
          table := table + [NewRow(rec, now)];
          insertedCount := insertedCount + 1;
        }
        i := i + 1;
      }
      rows := table;
      inserted := insertedCount;
    }

    /**
     * `scrape_indeed_jobs`: 0 for a failed or empty scrape, otherwise the
     * converted records are upserted and the insert count returned.
     */
    method ScrapeIndeedJobs(searchTerm: string, location: string, outcome: ScrapeOutcome, now: int)
      returns (count: nat)
      modifies this
      ensures outcome.Raised? || outcome.frame == [] || !hasLastSeen ==> count == 0 && rows == old(rows)
      ensures outcome.Frame? && outcome.frame != [] && hasLastSeen ==>
                var records := seq(|outcome.frame|, i requires 0 <= i < |outcome.frame| =>
                                     ConvertRow(outcome.frame[i], searchTerm, location));
                && rows == UpsertAll(Upsert(old(rows), 0, 0), records, now).rows
                && count == UpsertAll(Upsert(old(rows), 0, 0), records, now).inserted
    {
      match outcome {
        case Raised(_) =>
          return 0;
        case Frame(frame) =>
          if frame == [] {
            return 0;
          }
          var records := ConvertDataframeToRecords(frame, searchTerm, location);
          assert records == seq(|frame|, i requires 0 <= i < |frame| => ConvertRow(frame[i], searchTerm, location));
          count := InsertJobRecords(records, now);
      }
    }

    /**
     * `scrape_indeed_jobs_with_profile`: the loop that separates new postings
     * from duplicates, then the insert-or-ignore of the new ones.
     */
    method ScrapeIndeedJobsWithProfile(searchTerm: string, location: string, outcome: ScrapeOutcome,
                                       keysReadable: bool, clock: Clock) returns (result: ProfileSearch)
      modifies this
      ensures (result, rows) == ProfileSearchOf(old(rows), searchTerm, location, outcome, keysReadable, hasLastSeen, clock)
    {
      match outcome {
        case Raised(message) =>
          return ProfileSearch(0, 0, [], 0, 0, Failed("Error during Indeed scraping: " + message));
        case Frame(frame) =>
          if frame == [] {
            return ProfileSearch(0, 0, [], 0, 0, NoResults);
          }
          var records := ConvertDataframeToRecords(frame, searchTerm, location);
          assert records == seq(|frame|, i requires 0 <= i < |frame| => ConvertRow(frame[i], searchTerm, location));
          var existing := if keysReadable then StoredKeys(rows) else {};
          var allJobs, newJobs := SplitNewJobs(records, existing);
          ghost var ins := if hasLastSeen then InsertOrIgnoreAll(Inserted(rows, 0), newJobs, clock) else Inserted(rows, 0);
          var newCount := 0;
          if newJobs != [] {
            newCount := InsertJobRecordsEnhanced(newJobs, clock);
          }
          assert rows == ins.rows && newCount == ins.inserted;
          result := ProfileSearch(|allJobs|, newCount, allJobs, |frame|, |allJobs| - newCount, Succeeded);
      }
    }
  }
}
