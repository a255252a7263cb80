/**
 * The posting store writes of the older, top-level `indeed_scraper.py`. Its
 * `convert_dataframe_to_records` is the same as the newer copy's and is
 * taken from `SrcScraper`; its `insert_job_records` is a plain INSERT OR
 * IGNORE on the UNIQUE `job_url`, with no refresh of rows already there, and
 * its table has no `last_seen_timestamp`, `refresh_count` or `job_status`.
 */
module RootScraper {
  import opened Wrappers
  import Scraper = SrcScraper

  /** A stored posting: the record and its `scraped_timestamp` (the column default, the insert's instant). */
  datatype RootRow = RootRow(record: Scraper.JobRecord, scraped: int)

  predicate UniqueUrls(rows: seq<RootRow>) {
    forall i, j :: 0 <= i < j < |rows| && rows[i].record.url.Some? ==> rows[i].record.url != rows[j].record.url
  }

  predicate HasUrl(rows: seq<RootRow>, url: string) {
    exists i :: 0 <= i < |rows| && rows[i].record.url == Some(url)
  }

  /** The table and `inserted_count`. */
  datatype Inserted = Inserted(rows: seq<RootRow>, inserted: nat)

  /** INSERT OR IGNORE of one record: a url already stored is ignored; a NULL url always inserts. */
  function InsertOne(st: Inserted, rec: Scraper.JobRecord, now: int): Inserted {
    if rec.url.Some? && HasUrl(st.rows, rec.url.value) then st
    else Inserted(st.rows + [RootRow(rec, now)], st.inserted + 1)
  }

  function InsertAll(st: Inserted, records: seq<Scraper.JobRecord>, now: int): Inserted
    decreases |records|
  {
    if records == [] then st else InsertAll(InsertOne(st, records[0], now), records[1..], now)
  }

  /**
   * Existing rows are never modified; the count is the number of rows added;
   * each added row is a record of the batch; `job_url` stays unique; and a
   * record is added only if its url was in neither the table nor an earlier
   * record.
   */
  lemma {:induction false} InsertAllCorrect(st: Inserted, records: seq<Scraper.JobRecord>, now: int)
    ensures var r := InsertAll(st, records, now);
            && st.inserted <= r.inserted <= st.inserted + |records|
            && |r.rows| == |st.rows| + (r.inserted - st.inserted)
            && r.rows[..|st.rows|] == st.rows
            && (forall i :: |st.rows| <= i < |r.rows| ==> r.rows[i].scraped == now && r.rows[i].record in records)
            && (UniqueUrls(st.rows) ==> UniqueUrls(r.rows))
    decreases |records|
  {
    if records != [] {
      var rec := records[0];
      var mid := InsertOne(st, rec, now);
      InsertAllCorrect(mid, records[1..], now);
      var r := InsertAll(st, records, now);
      assert r.rows[..|mid.rows|] == mid.rows;
      assert r.rows[..|st.rows|] == mid.rows[..|st.rows|];
      assert forall x :: x in records[1..] ==> x in records;
      if mid != st {
        assert r.rows[|st.rows|] == RootRow(rec, now);
      }
      if UniqueUrls(st.rows) && mid != st {
        forall i, j | 0 <= i < j < |mid.rows| && mid.rows[i].record.url.Some?
          ensures mid.rows[i].record.url != mid.rows[j].record.url
        {
          if j == |st.rows| {
            assert mid.rows[i] == st.rows[i];
          }
        }
      }
    }
  }

  /** A batch whose urls are all stored already inserts nothing and leaves the table as it was. */
  lemma {:induction false} AllStoredInsertsNothing(st: Inserted, records: seq<Scraper.JobRecord>, now: int)
    requires forall k :: 0 <= k < |records| ==> records[k].url.Some? && HasUrl(st.rows, records[k].url.value)
    ensures InsertAll(st, records, now) == st
    decreases |records|
  {
    if records != [] {
      assert InsertOne(st, records[0], now) == st;
      forall k | 0 <= k < |records[1..]|
        ensures records[1..][k].url.Some? && HasUrl(st.rows, records[1..][k].url.value)
      {
        assert records[1..][k] == records[k + 1];
      }
      AllStoredInsertsNothing(st, records[1..], now);
    }
  }

  /** The `job_postings` table of the older scraper. */
  class RootJobStore {
    var rows: seq<RootRow>

    constructor(initialRows: seq<RootRow>)
      ensures rows == initialRows
    {
      rows := initialRows;
    }

    /** `insert_job_records`: an empty batch returns 0 without opening the database. */
    method InsertJobRecords(records: seq<Scraper.JobRecord>, now: int) returns (inserted: nat)
      modifies this
      ensures rows == InsertAll(Inserted(old(rows), 0), records, now).rows
      ensures inserted == InsertAll(Inserted(old(rows), 0), records, now).inserted
      ensures records == [] ==> inserted == 0 && rows == old(rows)
    {
      if records == [] {
        return 0;
      }
      var table := rows;
      var insertedCount: nat := 0;
      var i := 0;
      while i < |records|
        invariant 0 <= i <= |records|
        invariant InsertAll(Inserted(table, insertedCount), records[i..], now)
                  == InsertAll(Inserted(old(rows), 0), records, now)
      {
        assert records[i..][1..] == records[i + 1..];
        var rec := records[i];
        if !(rec.url.Some? && HasUrl(table, rec.url.value)) {
          table := table + [RootRow(rec, now)];
          insertedCount := insertedCount + 1;
        }
        i := i + 1;
      }
      assert records[i..] == [];
      rows := table;
      inserted := insertedCount;
    }

    /**
     * `scrape_indeed_jobs`: 0 when the scrape raised or returned an empty
     * frame; otherwise the converted records are inserted and the insert
     * count returned.
     */
    method ScrapeIndeedJobs(searchTerm: string, location: string, outcome: Scraper.ScrapeOutcome, now: int)
      returns (count: nat)
      modifies this
      ensures outcome.Raised? || outcome.frame == [] ==> count == 0 && rows == old(rows)
      ensures outcome.Frame? && outcome.frame != [] ==>
                var records := seq(|outcome.frame|, i requires 0 <= i < |outcome.frame| =>
                                     Scraper.ConvertRow(outcome.frame[i], searchTerm, location));
                && rows == InsertAll(Inserted(old(rows), 0), records, now).rows
                && count == InsertAll(Inserted(old(rows), 0), records, now).inserted
    {
      match outcome {
        case Raised(_) =>
          return 0;
        case Frame(frame) =>
          if frame == [] {
            return 0;
          }
          var records := Scraper.ConvertDataframeToRecords(frame, searchTerm, location);
          assert records == seq(|frame|, i requires 0 <= i < |frame| => Scraper.ConvertRow(frame[i], searchTerm, location));
          count := InsertJobRecords(records, now);
      }
    }
  }

  /**
   * Scraping the same frame twice at any instants adds rows the first time
   * at most, provided every posting has a url: the second scrape returns 0
   * and leaves the table unchanged.
   */
  lemma RescrapeAddsNothing(rows: seq<RootRow>, records: seq<Scraper.JobRecord>, first: int, second: int)
    requires forall k :: 0 <= k < |records| ==> records[k].url.Some?
    ensures var once := InsertAll(Inserted(rows, 0), records, first);
            InsertAll(Inserted(once.rows, 0), records, second) == Inserted(once.rows, 0)
  {
    var once := InsertAll(Inserted(rows, 0), records, first);
    StoredAfterInsert(Inserted(rows, 0), records, first);
    AllStoredInsertsNothing(Inserted(once.rows, 0), records, second);
  }

  /** After the insert every non-NULL url of the batch is stored. */
  lemma {:induction false} StoredAfterInsert(st: Inserted, records: seq<Scraper.JobRecord>, now: int)
    ensures forall k :: 0 <= k < |records| && records[k].url.Some? ==> HasUrl(InsertAll(st, records, now).rows, records[k].url.value)
    decreases |records|
  {
    if records != [] {
      var rec := records[0];
      var mid := InsertOne(st, rec, now);
      StoredAfterInsert(mid, records[1..], now);
      InsertAllCorrect(mid, records[1..], now);
      var r := InsertAll(st, records, now);
      if rec.url.Some? {
        var i: int;
        if HasUrl(st.rows, rec.url.value) {
          i :| 0 <= i < |st.rows| && st.rows[i].record.url == rec.url;
        } else {
          i := |st.rows|;
        }
        assert mid.rows[i].record.url == rec.url;
        assert r.rows[i] == r.rows[..|mid.rows|][i];
      }
      forall k | 1 <= k < |records| && records[k].url.Some?
        ensures HasUrl(r.rows, records[k].url.value)
      {
        assert records[1..][k - 1] == records[k];
      }
    }
  }
}
