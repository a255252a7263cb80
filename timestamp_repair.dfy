/**
 * The timestamp repair of `scripts/fix_db_timestamps.py`
 * (`standardize_timestamps`): over every column of `job_postings` whose name
 * mentions "timestamp", values written in the ISO 8601 complete date-time
 * form `YYYY-MM-DDThh:mm:ss[.ffffff]` (section 4.3.2 of ISO 8601:2004) are
 * rewritten to `YYYY-MM-DD hh:mm:ss`, the space-separated form that section
 * 5.6 of RFC 3339 allows; NULLs are filled with the current instant; and a
 * `last_seen_timestamp` earlier than its `scraped_timestamp` is raised to it.
 * Everything runs in one transaction that is rolled back on any error.
 *
 * The SQL engine is modelled on values: a row is a map from column name to
 * cell, each UPDATE a function over the rows, its `rowcount` the number of
 * rows its WHERE clause selects. `datetime(...)` is a parse oracle from text
 * to seconds, `DATETIME('now')` the string `now`, and which statement (if
 * any) raises is the parameter `failsAt`.
 */
module TimestampRepair {
  import opened Wrappers
  import opened Text
  import opened Seqs

  /** A stored value: SQL NULL or text. */
  datatype Cell = Null | Text(s: string)

  type Row = map<string, Cell>

  /** The cell of `column`, NULL when the row has no such column. */
  function CellOf(row: Row, column: string): Cell {
    if column in row then row[column] else Null
  }

  /** `row` with `column` set to `c`; a row without the column is left alone. */
  function SetCell(row: Row, column: string, c: Cell): (r: Row)
    ensures r.Keys == row.Keys
    ensures column in row ==> CellOf(r, column) == c
    ensures forall other :: other != column ==> CellOf(r, other) == CellOf(row, other)
  {
    if column in row then row[column := c] else row
  }

  // ---------------------------------------------------------------------
  // Column selection
  // ---------------------------------------------------------------------

  const TimestampWord := "timestamp"

  /** "timestamp" occurs in the lower-cased `name` at position `i`. */
  predicate TimestampAt(name: string, i: int) {
    0 <= i && i + |TimestampWord| <= |name|
    && forall k :: 0 <= k < |TimestampWord| ==> LowerChar(name[i + k]) == TimestampWord[k]
  }

  /** `'timestamp' in name.lower()`, stated by position. */
  predicate IsTimestampColumn(name: string) {
    exists i :: 0 <= i <= |name| && TimestampAt(name, i)
  }

  /** The positional test is Python's substring test on the lower-cased name. */
  lemma IsTimestampColumnIffContains(name: string)
    ensures IsTimestampColumn(name) <==> Contains(Lower(name), TimestampWord)
  {
    var low := Lower(name);
    ContainsIffOccurs(low, TimestampWord);
    if i :| TimestampAt(name, i) {
      assert low[i..i + |TimestampWord|] == TimestampWord;
      assert OccursAt(low, TimestampWord, i);
    }
    if i :| OccursAt(low, TimestampWord, i) {
      forall k | 0 <= k < |TimestampWord| ensures LowerChar(name[i + k]) == TimestampWord[k] {
        assert low[i..i + |TimestampWord|][k] == low[i + k];
      }
      assert TimestampAt(name, i);
    }
  }

  /** `[col[1] for col in columns if 'timestamp' in col[1].lower()]` */
  function TimestampColumns(columns: seq<string>): (r: seq<string>)
    ensures IsSubseq(r, columns)
    ensures forall c :: c in r <==> c in columns && IsTimestampColumn(c)
    decreases |columns|
  {
    if columns == [] then []
    else
      var rest := TimestampColumns(columns[1..]);
      assert forall c :: c in columns <==> c == columns[0] || c in columns[1..];
      if IsTimestampColumn(columns[0]) then
        assert ([columns[0]] + rest)[1..] == rest;
        [columns[0]] + rest
      else rest
  }

  /** Distinct column names (as `PRAGMA table_info` reports them) give distinct timestamp columns. */
  lemma {:induction false} TimestampColumnsDistinct(columns: seq<string>)
    requires Distinct(columns)
    ensures Distinct(TimestampColumns(columns))
    decreases |columns|
  {
    if columns != [] {
      assert Distinct(columns[1..]) by {
        forall i, j | 0 <= i < j < |columns[1..]| ensures columns[1..][i] != columns[1..][j] {
          assert columns[1..][i] == columns[i + 1] && columns[1..][j] == columns[j + 1];
        }
      }
      TimestampColumnsDistinct(columns[1..]);
      var rest := TimestampColumns(columns[1..]);
      if IsTimestampColumn(columns[0]) {
        assert columns[0] !in columns[1..] by {
          forall k | 0 <= k < |columns[1..]| ensures columns[1..][k] != columns[0] {
            assert columns[1..][k] == columns[k + 1];
          }
        }
        DistinctConcat([columns[0]], rest);
      }
    }
  }

  // ---------------------------------------------------------------------
  // The value rules
  // ---------------------------------------------------------------------

  /** `LIKE '%T%'`: SQLite's LIKE ignores ASCII case, so a lower-case 't' matches too. */
  predicate LikeT(s: string) {
    'T' in s || 't' in s
  }

  /** `x LIKE '%T%' OR x LIKE '%.%'`; NULL never matches. */
  predicate Problematic(c: Cell) {
    c.Text? && (LikeT(c.s) || '.' in c.s)
  }

  predicate HasT(c: Cell) {
    c.Text? && LikeT(c.s)
  }

  predicate IsNull(c: Cell) {
    c.Null?
  }

  /** SQLite's `SUBSTR(s, from + 1, n)` for `from >= 0`: at most `n` characters from position `from`. */
  function Substr(s: string, from: nat, n: nat): (r: string)
    ensures |r| <= n
    ensures from + n <= |s| ==> r == s[from..from + n]
  {
    if from >= |s| then [] else s[from..Min(|s|, from + n)]
  }

  /** `SUBSTR(x, 1, 10) || ' ' || SUBSTR(x, 12, 8)` */
  function RewriteIso(s: string): string {
    Substr(s, 0, 10) + " " + Substr(s, 11, 8)
  }

  /** The date-time shape `YYYY-MM-DD<sep>hh:mm:ss` on the first 19 characters. */
  predicate DateTimeShape(s: string, sep: char) {
    |s| >= 19 &&
    forall k :: 0 <= k < 19 ==>
      if k == 4 || k == 7 then s[k] == '-'
      else if k == 13 || k == 16 then s[k] == ':'
      else if k == 10 then s[k] == sep
      else IsDigit(s[k])
  }

  /** An ISO 8601 complete date-time with the `T` designator, possibly followed by a fraction or zone. */
  predicate IsIsoDateTime(s: string) {
    DateTimeShape(s, 'T')
  }

  /** The SQLite form `YYYY-MM-DD hh:mm:ss`, nothing after it. */
  predicate IsSqlDateTime(s: string) {
    |s| == 19 && DateTimeShape(s, ' ')
  }

  /**
   * An ISO date-time is rewritten to the SQLite form of the same date and
   * time (any fraction or zone dropped), which no longer matches either
   * problematic pattern.
   */
  lemma IsoRewrite(s: string)
    requires IsIsoDateTime(s)
    ensures RewriteIso(s) == s[..10] + " " + s[11..19]
    ensures IsSqlDateTime(RewriteIso(s))
    ensures !Problematic(Text(RewriteIso(s)))
  {
    var r := RewriteIso(s);
    assert r == s[..10] + " " + s[11..19];
    forall k | 0 <= k < 19
      ensures if k == 4 || k == 7 then r[k] == '-'
              else if k == 13 || k == 16 then r[k] == ':'
              else if k == 10 then r[k] == ' '
              else IsDigit(r[k])
    {
      if k < 10 {
        assert r[k] == s[k];
      } else if k > 10 {
        assert r[k] == s[k];
      }
    }
    assert forall k :: 0 <= k < |r| ==> r[k] != 'T' && r[k] != 't' && r[k] != '.';
  }

  /** A value already in the SQLite form matches neither pattern, so the repair never touches it. */
  lemma SqlDateTimeUntouched(s: string)
    requires IsSqlDateTime(s)
    ensures !Problematic(Text(s))
  {
    assert forall k :: 0 <= k < |s| ==> s[k] != 'T' && s[k] != 't' && s[k] != '.' by {
      forall k | 0 <= k < |s| ensures s[k] != 'T' && s[k] != 't' && s[k] != '.' {
        assert k < 19;
      }
    }
  }

  // ---------------------------------------------------------------------
  // The statements of one column
  // ---------------------------------------------------------------------

  /** The number of rows whose `column` satisfies `p`: the COUNT(*) or the `rowcount` of a WHERE on it. */
  function CountWhere(rows: seq<Row>, column: string, p: Cell -> bool): (n: nat)
    ensures n <= |rows|
    ensures n == 0 <==> forall i :: 0 <= i < |rows| ==> !p(CellOf(rows[i], column))
    decreases |rows|
  {
    if rows == [] then 0
    else
      var rest := CountWhere(rows[1..], column, p);
      assert forall i :: 1 <= i < |rows| ==> rows[i] == rows[1..][i - 1];
      (if p(CellOf(rows[0], column)) then 1 else 0) + rest
  }

  /** The cell after `UPDATE ... SET column = SUBSTR(...) WHERE column LIKE '%T%'`. */
  function RewriteCell(c: Cell): Cell {
    if HasT(c) then Text(RewriteIso(c.s)) else c
  }

  /** The cell after `UPDATE ... SET column = DATETIME('now') WHERE column IS NULL`. */
  function FillCell(c: Cell, now: string): Cell {
    if c.Null? then Text(now) else c
  }

  /** The cell after both statements. */
  function RepairCell(c: Cell, now: string): (r: Cell)
    ensures r.Text?
    ensures !c.Null? ==> r == RewriteCell(c)
  {
    FillCell(RewriteCell(c), now)
  }

  /**
   * The repair of a cell is idempotent when the cell is NULL, carries no
   * `T`, or is an ISO date-time, given that `DATETIME('now')` is in the
   * SQLite form.
   */
  lemma RepairCellIdempotent(c: Cell, now: string)
    requires HasT(c) ==> IsIsoDateTime(c.s)
    requires IsSqlDateTime(now)
    ensures RepairCell(RepairCell(c, now), now) == RepairCell(c, now)
  {
    if HasT(c) {
      IsoRewrite(c.s);
    } else if c.Null? {
      SqlDateTimeUntouched(now);
    }
  }

  function RewriteT(rows: seq<Row>, column: string): (r: seq<Row>)
    ensures |r| == |rows|
  {
    seq(|rows|, i requires 0 <= i < |rows| => SetCell(rows[i], column, RewriteCell(CellOf(rows[i], column))))
  }

  function FillNulls(rows: seq<Row>, column: string, now: string): (r: seq<Row>)
    ensures |r| == |rows|
  {
    seq(|rows|, i requires 0 <= i < |rows| => SetCell(rows[i], column, FillCell(CellOf(rows[i], column), now)))
  }

  /** Every row with its `column` repaired. */
  function RepairRows(rows: seq<Row>, column: string, now: string): (r: seq<Row>)
    ensures |r| == |rows|
  {
    seq(|rows|, i requires 0 <= i < |rows| => SetCell(rows[i], column, RepairCell(CellOf(rows[i], column), now)))
  }

  /**
   * The two UPDATE statements issued one after the other repair every row,
   * and the rewrite in between neither creates nor removes a NULL, so the
   * fill's `rowcount` is the number of NULLs the column had.
   */
  lemma TwoUpdatesRepair(rows: seq<Row>, column: string, now: string)
    ensures FillNulls(RewriteT(rows, column), column, now) == RepairRows(rows, column, now)
    ensures CountWhere(RewriteT(rows, column), column, IsNull) == CountWhere(rows, column, IsNull)
  {
    var rewritten := RewriteT(rows, column);
    forall i | 0 <= i < |rows| ensures FillNulls(rewritten, column, now)[i] == RepairRows(rows, column, now)[i] {
      if column in rows[i] {
        assert rewritten[i] == rows[i][column := RewriteCell(rows[i][column])];
      }
    }
    NullCountPointwise(rows, rewritten, column);
  }

  lemma {:induction false} NullCountPointwise(a: seq<Row>, b: seq<Row>, column: string)
    requires |a| == |b|
    requires forall i :: 0 <= i < |a| ==> (CellOf(a[i], column).Null? <==> CellOf(b[i], column).Null?)
    ensures CountWhere(a, column, IsNull) == CountWhere(b, column, IsNull)
    decreases |a|
  {
    if a != [] {
      NullCountPointwise(a[1..], b[1..], column);
    }
  }

  /** Counts over a column depend only on that column's cells. */
  lemma {:induction false} CountPointwise(a: seq<Row>, b: seq<Row>, column: string, p: Cell -> bool)
    requires |a| == |b|
    requires forall i :: 0 <= i < |a| ==> CellOf(a[i], column) == CellOf(b[i], column)
    ensures CountWhere(a, column, p) == CountWhere(b, column, p)
    decreases |a|
  {
    if a != [] {
      CountPointwise(a[1..], b[1..], column, p);
    }
  }

  /** The rows, the running `total_fixed` and the number of statements issued so far. */
  datatype Pass = Pass(rows: seq<Row>, fixed: nat, statements: nat)

  /**
   * One iteration of the column loop: the COUNT query, then, only when it
   * found a problematic value, the `T` rewrite and the NULL fill, whose
   * `rowcount` is added to `total_fixed`.
   */
  function ColumnPass(p: Pass, column: string, now: string): (q: Pass)
    ensures |q.rows| == |p.rows|
    ensures p.statements < q.statements && p.fixed <= q.fixed
  {
    if CountWhere(p.rows, column, Problematic) > 0 then
      Pass(RepairRows(p.rows, column, now), p.fixed + CountWhere(p.rows, column, IsNull), p.statements + 3)
    else Pass(p.rows, p.fixed, p.statements + 1)
  }

  /** The loop over the timestamp columns, in order. */
  function ColumnsPass(p: Pass, columns: seq<string>, now: string): (q: Pass)
    ensures |q.rows| == |p.rows|
    decreases |columns|
  {
    if columns == [] then p else ColumnsPass(ColumnPass(p, columns[0], now), columns[1..], now)
  }

  /** Two rows agree on every column but `column`, and have the same columns. */
  ghost predicate SameElsewhere(a: Row, b: Row, column: string) {
    a.Keys == b.Keys && forall other :: other != column ==> CellOf(a, other) == CellOf(b, other)
  }

  /**
   * One column pass touches only its column. A column without a problematic
   * value is left as it was and costs one statement; otherwise every value
   * with a `T` is rewritten, every other text kept, every NULL filled with
   * `now`, and `total_fixed` grows by exactly the number of NULLs filled.
   */
  lemma ColumnPassCorrect(p: Pass, column: string, now: string)
    ensures var q := ColumnPass(p, column, now);
            && |q.rows| == |p.rows|
            && (forall i :: 0 <= i < |p.rows| ==> SameElsewhere(q.rows[i], p.rows[i], column))
            && (CountWhere(p.rows, column, Problematic) == 0 ==> q == Pass(p.rows, p.fixed, p.statements + 1))
            && (CountWhere(p.rows, column, Problematic) > 0 ==>
                  && q.statements == p.statements + 3
                  && q.fixed == p.fixed + CountWhere(p.rows, column, IsNull)
                  && forall i :: 0 <= i < |p.rows| && column in p.rows[i] ==>
                       CellOf(q.rows[i], column) == FillCell(RewriteCell(CellOf(p.rows[i], column)), now))
  {
  }

  /** `row` with its own cell written back is `row`. */
  lemma SetCellSame(row: Row, column: string)
    ensures SetCell(row, column, CellOf(row, column)) == row
  {
  }

  /**
   * The column pass is idempotent on a column whose `T` values are all ISO
   * date-times: a second pass changes no row (only the statement count grows).
   */
  lemma ColumnPassIdempotent(p: Pass, column: string, now: string)
    requires forall i :: 0 <= i < |p.rows| && HasT(CellOf(p.rows[i], column)) ==> IsIsoDateTime(CellOf(p.rows[i], column).s)
    requires IsSqlDateTime(now)
    ensures ColumnPass(ColumnPass(p, column, now), column, now).rows == ColumnPass(p, column, now).rows
  {
    var q := ColumnPass(p, column, now);
    if CountWhere(p.rows, column, Problematic) > 0 && CountWhere(q.rows, column, Problematic) > 0 {
      forall i | 0 <= i < |q.rows| ensures RepairRows(q.rows, column, now)[i] == q.rows[i] {
        var c := CellOf(p.rows[i], column);
        RepairCellIdempotent(c, now);
        SetCellSame(q.rows[i], column);
      }
    }
  }

  /** A column pass over rows that agree on `column` leaves that column the same. */
  lemma ColumnPassLocal(p1: Pass, p2: Pass, column: string, now: string)
    requires |p1.rows| == |p2.rows|
    requires forall i :: 0 <= i < |p1.rows| ==> CellOf(p1.rows[i], column) == CellOf(p2.rows[i], column)
    requires forall i :: 0 <= i < |p1.rows| ==> (column in p1.rows[i] <==> column in p2.rows[i])
    ensures forall i :: 0 <= i < |p1.rows| ==>
              CellOf(ColumnPass(p1, column, now).rows[i], column) == CellOf(ColumnPass(p2, column, now).rows[i], column)
  {
    CountPointwise(p1.rows, p2.rows, column, Problematic);
  }

  /** The column loop keeps the rows' number and shape, changes no column outside its list, and never issues fewer statements. */
  lemma {:induction false} ColumnsPassFrame(p: Pass, columns: seq<string>, now: string)
    ensures var q := ColumnsPass(p, columns, now);
            && |q.rows| == |p.rows|
            && q.statements >= p.statements + |columns|
            && q.fixed >= p.fixed
            && (forall i :: 0 <= i < |p.rows| ==> q.rows[i].Keys == p.rows[i].Keys)
            && (forall i, other :: 0 <= i < |p.rows| && other !in columns ==> CellOf(q.rows[i], other) == CellOf(p.rows[i], other))
    decreases |columns|
  {
    if columns != [] {
      var mid := ColumnPass(p, columns[0], now);
      ColumnPassCorrect(p, columns[0], now);
      ColumnsPassFrame(mid, columns[1..], now);
      assert forall other :: other !in columns ==> other != columns[0] && other !in columns[1..];
    }
  }

  /**
   * With distinct column names, every listed column ends exactly as its own
   * pass over the original rows would leave it: the passes do not interfere.
   */
  lemma {:induction false} ColumnsPassIndependent(p: Pass, columns: seq<string>, now: string, c: string)
    requires Distinct(columns) && c in columns
    ensures forall i :: 0 <= i < |p.rows| ==>
              CellOf(ColumnsPass(p, columns, now).rows[i], c) == CellOf(ColumnPass(p, c, now).rows[i], c)
    decreases |columns|
  {
    var mid := ColumnPass(p, columns[0], now);
    ColumnPassCorrect(p, columns[0], now);
    assert Distinct(columns[1..]) by {
      forall i, j | 0 <= i < j < |columns[1..]| ensures columns[1..][i] != columns[1..][j] {
        assert columns[1..][i] == columns[i + 1] && columns[1..][j] == columns[j + 1];
      }
    }
    if c == columns[0] {
      assert c !in columns[1..] by {
        forall k | 0 <= k < |columns[1..]| ensures columns[1..][k] != c {
          assert columns[1..][k] == columns[k + 1];
        }
      }
      ColumnsPassFrame(mid, columns[1..], now);
    } else {
      assert c in columns[1..];
      ColumnsPassIndependent(mid, columns[1..], now, c);
      ColumnPassLocal(mid, p, c, now);
    }
  }

  /** The loop never issues fewer statements than it has been given so far. */
  lemma {:induction false} ColumnsPassGrows(p: Pass, columns: seq<string>, now: string)
    ensures ColumnsPass(p, columns, now).statements >= p.statements
    decreases |columns|
  {
    if columns != [] {
      ColumnsPassGrows(ColumnPass(p, columns[0], now), columns[1..], now);
    }
  }

  // ---------------------------------------------------------------------
  // last_seen_timestamp repair and the whole run
  // ---------------------------------------------------------------------

  const LastSeenColumn := "last_seen_timestamp"
  const ScrapedColumn := "scraped_timestamp"

  /** `datetime(last_seen_timestamp) < datetime(scraped_timestamp)`: false when either side is NULL or unparsable. */
  predicate SeenBeforeScraped(row: Row, parse: string -> Option<int>) {
    var last := CellOf(row, LastSeenColumn);
    var scraped := CellOf(row, ScrapedColumn);
    last.Text? && scraped.Text? && parse(last.s).Some? && parse(scraped.s).Some?
    && parse(last.s).value < parse(scraped.s).value
  }

  /** `UPDATE ... SET last_seen_timestamp = scraped_timestamp WHERE datetime(...) < datetime(...)` */
  function RaiseLastSeen(rows: seq<Row>, parse: string -> Option<int>): (r: seq<Row>)
    ensures |r| == |rows|
  {
    seq(|rows|, i requires 0 <= i < |rows| =>
      if SeenBeforeScraped(rows[i], parse) then SetCell(rows[i], LastSeenColumn, CellOf(rows[i], ScrapedColumn))
      else rows[i])
  }

  /**
   * After the repair no row has its last sighting before its scrape; a row
   * that was in order is untouched, and a repaired one changes only its
   * `last_seen_timestamp`, which now equals its `scraped_timestamp`.
   */
  lemma RaiseLastSeenCorrect(rows: seq<Row>, parse: string -> Option<int>)
    ensures var r := RaiseLastSeen(rows, parse);
            && (forall i :: 0 <= i < |r| ==> !SeenBeforeScraped(r[i], parse))
            && (forall i :: 0 <= i < |rows| && !SeenBeforeScraped(rows[i], parse) ==> r[i] == rows[i])
            && (forall i :: 0 <= i < |rows| && SeenBeforeScraped(rows[i], parse) ==>
                  SameElsewhere(r[i], rows[i], LastSeenColumn)
                  && CellOf(r[i], LastSeenColumn) == CellOf(rows[i], ScrapedColumn))
  {
    var r := RaiseLastSeen(rows, parse);
    forall i | 0 <= i < |r| ensures !SeenBeforeScraped(r[i], parse) {
      if SeenBeforeScraped(rows[i], parse) {
        assert LastSeenColumn in rows[i];
        assert CellOf(r[i], LastSeenColumn) == CellOf(r[i], ScrapedColumn);
      }
    }
  }

  /** The outcome of `standardize_timestamps` with no error: the rows, `total_fixed`, and the statements issued (commit included). */
  function Standardized(rows: seq<Row>, columns: seq<string>, now: string, parse: string -> Option<int>): Pass {
    var ts := TimestampColumns(columns);
    Finished(ColumnsPass(Pass(rows, 0, 1), ts, now), LastSeenColumn in ts && ScrapedColumn in ts, parse)
  }

  /** After the column loop: the `last_seen_timestamp` repair when both columns exist, then the commit. */
  function Finished(p: Pass, both: bool, parse: string -> Option<int>): Pass {
    if both then Pass(RaiseLastSeen(p.rows, parse), p.fixed, p.statements + 2)
    else Pass(p.rows, p.fixed, p.statements + 1)
  }

  lemma TimestampNames()
    ensures IsTimestampColumn(LastSeenColumn) && IsTimestampColumn(ScrapedColumn)
  {
    assert TimestampAt(LastSeenColumn, 10);
    assert TimestampAt(ScrapedColumn, 8);
  }

  /**
   * The run changes no column whose name does not mention "timestamp", and
   * keeps the number of rows and each row's columns.
   */
  lemma StandardizedFrame(rows: seq<Row>, columns: seq<string>, now: string, parse: string -> Option<int>)
    ensures var s := Standardized(rows, columns, now, parse);
            && |s.rows| == |rows|
            && (forall i :: 0 <= i < |rows| ==> s.rows[i].Keys == rows[i].Keys)
            && (forall i, c :: 0 <= i < |rows| && !IsTimestampColumn(c) ==> CellOf(s.rows[i], c) == CellOf(rows[i], c))
  {
    var ts := TimestampColumns(columns);
    ColumnsPassFrame(Pass(rows, 0, 1), ts, now);
    var p := ColumnsPass(Pass(rows, 0, 1), ts, now);
    TimestampNames();
    RaiseLastSeenCorrect(p.rows, parse);
  }

  /** Every row holds a cell for every column of the table, as an SQL row does. */
  ghost predicate Shaped(rows: seq<Row>, columns: seq<string>) {
    forall i, c :: 0 <= i < |rows| && c in columns ==> c in rows[i]
  }

  /** A run keeps the table's shape. */
  lemma StandardizedShaped(rows: seq<Row>, columns: seq<string>, now: string, parse: string -> Option<int>)
    requires Shaped(rows, columns)
    ensures Shaped(Standardized(rows, columns, now, parse).rows, columns)
  {
    StandardizedFrame(rows, columns, now, parse);
  }

  /**
   * A timestamp column (names distinct) that had a value matching `%T%` or
   * `%.%` ends without NULLs; one that had none keeps its NULLs, since NULL
   * matches neither pattern and the fill runs only after a match. The
   * `last_seen_timestamp` repair copies only a text `scraped_timestamp`, so
   * it neither adds nor removes a NULL.
   */
  lemma StandardizedFillsNulls(rows: seq<Row>, columns: seq<string>, now: string, parse: string -> Option<int>, c: string)
    requires Distinct(columns) && Shaped(rows, columns)
    requires c in columns && IsTimestampColumn(c)
    ensures var s := Standardized(rows, columns, now, parse);
            && (CountWhere(rows, c, Problematic) > 0 ==> CountWhere(s.rows, c, IsNull) == 0)
            && (CountWhere(rows, c, Problematic) == 0 ==> CountWhere(s.rows, c, IsNull) == CountWhere(rows, c, IsNull))
  {
    var ts := TimestampColumns(columns);
    var start := Pass(rows, 0, 1);
    TimestampColumnsDistinct(columns);
    var p := ColumnsPass(start, ts, now);
    var s := Standardized(rows, columns, now, parse);
    ColumnsPassIndependent(start, ts, now, c);
    ColumnPassCorrect(start, c, now);
    RaiseLastSeenCorrect(p.rows, parse);
    forall i | 0 <= i < |rows|
      ensures CellOf(s.rows[i], c).Null? <==> CellOf(p.rows[i], c).Null?
    {
    }
    NullCountPointwise(s.rows, p.rows, c);
    if CountWhere(rows, c, Problematic) == 0 {
      NullCountPointwise(p.rows, rows, c);
    }
  }

  /** When both columns exist, no row is left seen before it was scraped. */
  lemma StandardizedOrdersSightings(rows: seq<Row>, columns: seq<string>, now: string, parse: string -> Option<int>)
    requires LastSeenColumn in columns && ScrapedColumn in columns
    ensures forall i :: 0 <= i < |rows| ==> !SeenBeforeScraped(Standardized(rows, columns, now, parse).rows[i], parse)
  {
    TimestampNames();
    var p := ColumnsPass(Pass(rows, 0, 1), TimestampColumns(columns), now);
    RaiseLastSeenCorrect(p.rows, parse);
  }

  /** A column loop over columns without a problematic value changes no row. */
  lemma {:induction false} ColumnsPassClean(p: Pass, columns: seq<string>, now: string)
    requires forall c :: c in columns ==> CountWhere(p.rows, c, Problematic) == 0
    ensures ColumnsPass(p, columns, now).rows == p.rows
    decreases |columns|
  {
    if columns != [] {
      assert forall c :: c in columns[1..] ==> c in columns;
      ColumnsPassClean(Pass(p.rows, p.fixed, p.statements + 1), columns[1..], now);
    }
  }

  /**
   * A completed run changes no row when every value is NULL or already in
   * the SQLite form and no last sighting is before its scrape.
   */
  lemma StandardizedOfClean(rows: seq<Row>, columns: seq<string>, now: string, parse: string -> Option<int>)
    requires forall i, c :: 0 <= i < |rows| && CellOf(rows[i], c).Text? ==> IsSqlDateTime(CellOf(rows[i], c).s)
    requires forall i :: 0 <= i < |rows| ==> !SeenBeforeScraped(rows[i], parse)
    ensures Standardized(rows, columns, now, parse).rows == rows
  {
    var ts := TimestampColumns(columns);
    forall c | c in ts ensures CountWhere(rows, c, Problematic) == 0 {
      forall j | 0 <= j < |rows| ensures !Problematic(CellOf(rows[j], c)) {
        if CellOf(rows[j], c).Text? {
          SqlDateTimeUntouched(CellOf(rows[j], c).s);
        }
      }
    }
    ColumnsPassClean(Pass(rows, 0, 1), ts, now);
    RaiseLastSeenCorrect(rows, parse);
  }

  // ---------------------------------------------------------------------
  // The script
  // ---------------------------------------------------------------------

  /** The `job_postings` table as the script sees it. */
  class JobPostingsTable {
    var columns: seq<string>
    var rows: seq<Row>

    /** Every row has a cell for every column of the table. */
    ghost predicate Valid()
      reads this
    {
      Shaped(rows, columns)
    }

    constructor(columns0: seq<string>, rows0: seq<Row>)
      requires Shaped(rows0, columns0)
      ensures Valid()
      ensures columns == columns0 && rows == rows0
    {
      columns := columns0;
      rows := rows0;
    }

    /** `UPDATE ... SET column = SUBSTR(column, 1, 10) || ' ' || SUBSTR(column, 12, 8) WHERE column LIKE '%T%'` */
    method RewriteColumn(column: string) returns (rowcount: nat)
      modifies this`rows
      ensures rows == RewriteT(old(rows), column)
      ensures rowcount == CountWhere(old(rows), column, HasT)
    {
      rowcount := CountWhere(rows, column, HasT);
      rows := RewriteT(rows, column);
    }

    /** `UPDATE ... SET column = DATETIME('now') WHERE column IS NULL` */
    method FillColumn(column: string, now: string) returns (rowcount: nat)
      modifies this`rows
      ensures rows == FillNulls(old(rows), column, now)
      ensures rowcount == CountWhere(old(rows), column, IsNull)
    {
      rowcount := CountWhere(rows, column, IsNull);
      rows := FillNulls(rows, column, now);
    }

    /**
     * One iteration of the column loop from statement `stmt` on: the COUNT
     * query and, for a column with a problematic value, the two UPDATEs. If
     * one of these statements is `failsAt`, the iteration stops there
     * (`failed`); otherwise the table, the running total and the statement
     * counter are those of the column pass.
     */
    method ColumnStatements(column: string, now: string, failsAt: Option<nat>, fixed: nat, stmt: nat)
      returns (failed: bool, fixed': nat, stmt': nat)
      modifies this`rows
      ensures var next := ColumnPass(Pass(old(rows), fixed, stmt), column, now);
              && failed == (failsAt.Some? && stmt <= failsAt.value < next.statements)
              && (!failed ==> Pass(rows, fixed', stmt') == next)
    {
      ghost var rows0 := rows;
      ghost var next := ColumnPass(Pass(rows, fixed, stmt), column, now);
      assert next.statements > stmt;
      fixed', stmt' := fixed, stmt;
      // SELECT COUNT(*) ... WHERE column LIKE '%T%' OR column LIKE '%.%'
      if failsAt == Some(stmt') {
        return true, fixed', stmt';
      }
      stmt' := stmt' + 1;
      var problematic := CountWhere(rows, column, Problematic);
      if problematic > 0 {
        assert next.statements == stmt + 3;
        var filled;
        failed, filled := RepairStatements(column, now, failsAt, stmt');
        if failed {
          return;
        }
        fixed', stmt' := fixed' + filled, stmt' + 2;
        assert Pass(rows, fixed', stmt') == next;
      } else {
        assert next == Pass(rows, fixed, stmt + 1);
      }
      failed := false;
    }

    /**
     * The two UPDATEs of a column with a problematic value, numbered `stmt`
     * and `stmt + 1`. Unless one of them is `failsAt`, they repair the column
     * and `filled` is the fill's `rowcount`, the number of NULLs it had.
     */
    method RepairStatements(column: string, now: string, failsAt: Option<nat>, stmt: nat) returns (failed: bool, filled: nat)
      modifies this`rows
      ensures failed == (failsAt == Some(stmt) || failsAt == Some(stmt + 1))
      ensures !failed ==> rows == RepairRows(old(rows), column, now) && filled == CountWhere(old(rows), column, IsNull)
    {
      if failsAt == Some(stmt) {
        return true, 0;
      }
      TwoUpdatesRepair(rows, column, now);
      var rewritten := RewriteColumn(column);
      if failsAt == Some(stmt + 1) {
        return true, 0;
      }
      filled := FillColumn(column, now);
      failed := false;
    }

    /**
     * The loop over the timestamp columns, its first statement numbered
     * `stmt0`. It fails exactly when `failsAt` is one of the statements the
     * loop issues; otherwise it leaves the table, `total_fixed` and the
     * statement counter as the column passes do.
     */
    method ColumnLoop(timestampColumns: seq<string>, now: string, failsAt: Option<nat>, stmt0: nat)
      returns (failed: bool, totalFixed: nat, stmt: nat)
      modifies this`rows
      requires failsAt.Some? ==> failsAt.value >= stmt0
      ensures var tail := ColumnsPass(Pass(old(rows), 0, stmt0), timestampColumns, now);
              && failed == (failsAt.Some? && failsAt.value < tail.statements)
              && (!failed ==> Pass(rows, totalFixed, stmt) == tail)
    {
      ghost var tail := ColumnsPass(Pass(rows, 0, stmt0), timestampColumns, now);
      totalFixed, stmt := 0, stmt0;
      var i := 0;
      while i < |timestampColumns|
        invariant 0 <= i <= |timestampColumns|
        invariant ColumnsPass(Pass(rows, totalFixed, stmt), timestampColumns[i..], now) == tail
        invariant failsAt.Some? ==> failsAt.value >= stmt
      {
        assert timestampColumns[i..][1..] == timestampColumns[i + 1..];
        var column := timestampColumns[i];
        ghost var next := ColumnPass(Pass(rows, totalFixed, stmt), column, now);
        assert tail == ColumnsPass(next, timestampColumns[i + 1..], now);
        ColumnsPassGrows(next, timestampColumns[i + 1..], now);
        failed, totalFixed, stmt := ColumnStatements(column, now, failsAt, totalFixed, stmt);
        if failed {
          return;
        }
        i := i + 1;
      }
      assert timestampColumns[i..] == [];
      failed := false;
    }

    /**
     * `standardize_timestamps`. A missing database file returns False
     * without touching anything. Statements are numbered in the order they
     * are issued (the PRAGMA is 0, the commit the last); if statement
     * `failsAt` raises, the transaction is rolled back and False returned.
     * Otherwise the rows become the standardized ones and True is
     * returned. `totalFixed` is the logged `total_fixed`.
     */
    method StandardizeTimestamps(dbExists: bool, now: string, parse: string -> Option<int>, failsAt: Option<nat>)
      returns (ok: bool, totalFixed: nat)
      requires Valid()
      modifies this`rows
      ensures Valid()
      ensures var s := Standardized(old(rows), columns, now, parse);
              && ok == (dbExists && (failsAt.None? || failsAt.value >= s.statements))
              && (ok ==> rows == s.rows && totalFixed == s.fixed)
              && (!ok ==> rows == old(rows))
    {
      StandardizedShaped(rows, columns, now, parse);
      if !dbExists {
        return false, 0;
      }
      var snapshot := rows;
      // PRAGMA table_info
      var timestampColumns := TimestampColumns(columns);
      var both := LastSeenColumn in timestampColumns && ScrapedColumn in timestampColumns;
      ghost var tail := ColumnsPass(Pass(rows, 0, 1), timestampColumns, now);
      assert Standardized(rows, columns, now, parse) == Finished(tail, both, parse);
      ColumnsPassGrows(Pass(rows, 0, 1), timestampColumns, now);
      if failsAt == Some(0) {
        return false, 0;
      }
      var failed, stmt;
      failed, totalFixed, stmt := ColumnLoop(timestampColumns, now, failsAt, 1);
      if failed {
        rows := snapshot;
        return false, totalFixed;
      }
      ok := FinishRun(both, parse, failsAt, stmt);
      if !ok {
        rows := snapshot;
      }
    }

    /**
     * What follows the column loop, from statement `stmt` on: the
     * `last_seen_timestamp` repair when both columns exist, then the commit.
     * It fails exactly when `failsAt` is one of these statements.
     */
    method FinishRun(both: bool, parse: string -> Option<int>, failsAt: Option<nat>, stmt: nat) returns (ok: bool)
      modifies this`rows
      requires failsAt.Some? ==> failsAt.value >= stmt
      ensures var f := Finished(Pass(old(rows), 0, stmt), both, parse);
              && ok == (failsAt.None? || failsAt.value >= f.statements)
              && (ok ==> rows == f.rows)
    {
      var next := stmt;
      if both {
        if failsAt == Some(next) {
          return false;
        }
        next := next + 1;
        rows := RaiseLastSeen(rows, parse);
      }
      // commit
      ok := failsAt != Some(next);
    }
  }
}
