/** One project's event journal: a gapless log, retention from the head, and replay pages after a
    cursor. `State` is what the process holds in memory and `Files` what it has on disk. */
module Journal {
  import opened Options
  import opened Text
  import opened JournalRows

  const RETAINED_ROWS := 10_000
  const MIN_RETENTION_MS := 14 * 24 * 60 * 60 * 1_000
  const PAGE_ROWS := 100

  /** The random id a journal is created with. */
  type Epoch = nat

  datatype Cursor = Cursor(project: seq<Unit>, epoch: Epoch, position: nat)

  /** What a caller hands back as a cursor: text that does not decode, or text that does. */
  datatype Presented = Malformed | Decoded(cursor: Cursor)

  datatype Rejection = InvalidCursor | ProjectMismatch

  datatype ReadResult =
    | Page(events: seq<Row>, next: Cursor, hasMore: bool, oldest: Option<nat>, latest: nat)
    | TooOld(oldest: Option<nat>, latest: nat, resume: Cursor)
    | Rejected(why: Rejection)

  datatype State = State(project: seq<Unit>, epoch: Epoch, rows: seq<Row>, latest: nat)

  /** The retained rows are one run of numbers that ends at `latest`. */
  ghost predicate Contiguous(rows: seq<Row>, latest: nat) {
    |rows| <= latest && forall i :: 0 <= i < |rows| ==> rows[i].journalSeq == latest - |rows| + 1 + i
  }

  ghost predicate Valid(s: State) { Contiguous(s.rows, s.latest) }

  function RowBytes(r: Row): nat { Size(RowJson(r)) }

  // ---- retention ------------------------------------------------------------------------------------

  /** Rows are dropped from the head only, while too many remain and the head is old enough. */
  function Evict(rows: seq<Row>, cutoff: int): seq<Row> {
    if |rows| > RETAINED_ROWS && rows[0].ts.ms <= cutoff then Evict(rows[1..], cutoff) else rows
  }

  /** What the two numbers promise: the newest rows stay whatever their age, a row younger than the
      minimum age stays whatever the count, and what is kept is a suffix. */
  lemma {:induction false} EvictKeeps(rows: seq<Row>, cutoff: int)
    ensures var kept := Evict(rows, cutoff);
      && |kept| <= |rows| && kept == rows[|rows| - |kept|..]
      && (|kept| < |rows| ==> |kept| >= RETAINED_ROWS)
      && (forall i :: 0 <= i < |rows| - |kept| ==> rows[i].ts.ms <= cutoff)
      && (|kept| > RETAINED_ROWS ==> kept[0].ts.ms > cutoff)
  {
    if |rows| > RETAINED_ROWS && rows[0].ts.ms <= cutoff {
      EvictKeeps(rows[1..], cutoff);
      var kept := Evict(rows, cutoff);
      forall i | 0 <= i < |rows| - |kept| ensures rows[i].ts.ms <= cutoff {
        if i > 0 { assert rows[i] == rows[1..][i - 1]; }
      }
    }
  }

  lemma EvictKeepsContiguous(rows: seq<Row>, latest: nat, cutoff: int)
    requires Contiguous(rows, latest)
    ensures Contiguous(Evict(rows, cutoff), latest)
  {
    EvictKeeps(rows, cutoff);
  }

  // ---- append ---------------------------------------------------------------------------------------

  function EventId(project: seq<Unit>, n: nat): seq<Unit> {
    project + [':' as int] + Units(Json.Decimal(n))
  }

  function NewRow(s: State, e: Event, now: Instant): Row {
    Row(EventId(s.project, s.latest + 1), s.latest + 1, now, s.project, e)
  }

  /** One durable append: the next number, then retention. */
  function Appended(s: State, e: Event, now: Instant): State {
    s.(rows := Evict(s.rows + [NewRow(s, e, now)], now.ms - MIN_RETENTION_MS), latest := s.latest + 1)
  }

  // ---- read -----------------------------------------------------------------------------------------

  ghost function SumBytes(rows: seq<Row>): nat {
    if rows == [] then 0 else SumBytes(rows[..|rows| - 1]) + RowBytes(rows[|rows| - 1])
  }

  /** Which stretch of the rows is one page, in the terms of the two bounds alone: it obeys both (a
      single row excepted from the bytes), and it stops before the end only because the next row
      would break one of them. */
  ghost predicate IsPage(rows: seq<Row>, from: nat, to: nat, limit: nat) {
    && from <= to <= |rows|
    && to - from <= limit
    && (to - from > 1 ==> SumBytes(rows[from..to]) <= PAGE_BYTES)
    && (to < |rows| ==> to - from == limit || (to > from && SumBytes(rows[from..to + 1]) > PAGE_BYTES))
  }

  lemma PageIsDetermined(rows: seq<Row>, from: nat, a: nat, b: nat, limit: nat)
    requires IsPage(rows, from, a, limit) && IsPage(rows, from, b, limit)
    ensures a == b
  {
    NotShorter(rows, from, a, b, limit);
    NotShorter(rows, from, b, a, limit);
  }

  lemma NotShorter(rows: seq<Row>, from: nat, a: nat, b: nat, limit: nat)
    requires IsPage(rows, from, a, limit) && IsPage(rows, from, b, limit)
    ensures b <= a
  {
    hide RowBytes, SumBytes;
    if a < b { MoreRowsMoreBytes(rows, from, a + 1, b); }
  }

  lemma {:induction false} MoreRowsMoreBytes(rows: seq<Row>, from: nat, a: nat, b: nat)
    requires from <= a <= b <= |rows|
    ensures SumBytes(rows[from..a]) <= SumBytes(rows[from..b])
    decreases b
  {
    hide RowBytes;
    if a < b {
      MoreRowsMoreBytes(rows, from, a, b - 1);
      assert rows[from..b][..b - 1 - from] == rows[from..b - 1];
    }
  }

  /** The end of the page that starts at `from`, row by row as the loop finds it. */
  function PageEnd(rows: seq<Row>, from: nat, i: nat, limit: nat, bytes: nat): (end: nat)
    requires from <= i <= |rows|
    ensures i <= end <= |rows|
    decreases |rows| - i
  {
    if i == |rows| || i - from >= limit then i
    else
      var size := RowBytes(rows[i]);
      if i > from && bytes + size > PAGE_BYTES then i
      else PageEnd(rows, from, i + 1, limit, bytes + size)
  }

  lemma {:induction false} PageEndIsPage(rows: seq<Row>, from: nat, i: nat, limit: nat, bytes: nat)
    requires from <= i <= |rows| && i - from <= limit
    requires bytes == SumBytes(rows[from..i]) && (i - from > 1 ==> bytes <= PAGE_BYTES)
    ensures IsPage(rows, from, PageEnd(rows, from, i, limit, bytes), limit)
    decreases |rows| - i
  {
    hide RowBytes;
    if i < |rows| {
      assert rows[from..i + 1][..i - from] == rows[from..i];
      assert SumBytes(rows[from..i + 1]) == bytes + RowBytes(rows[i]);
      if i - from < limit && (i == from || bytes + RowBytes(rows[i]) <= PAGE_BYTES) {
        PageEndIsPage(rows, from, i + 1, limit, bytes + RowBytes(rows[i]));
      }
    }
  }

  function CursorAt(s: State, position: nat): Cursor { Cursor(s.project, s.epoch, position) }

  function Oldest(s: State): Option<nat> { if s.rows == [] then None else Some(s.rows[0].journalSeq) }

  function FirstRetained(s: State): nat { match Oldest(s) case None => s.latest + 1 case Some(n) => n }

  function PageAfter(s: State, position: nat, limit: nat): (r: ReadResult)
    requires Valid(s) && s.latest - |s.rows| <= position <= s.latest
    ensures r.Page?
  {
    var from := position - (s.latest - |s.rows|);
    var to := PageEnd(s.rows, from, from, limit, 0);
    PageEndIsPage(s.rows, from, from, limit, 0);
    var last := position + (to - from);
    Page(s.rows[from..to], CursorAt(s, last), last < s.latest, Oldest(s), s.latest)
  }

  function Read(s: State, cursor: Option<Presented>, limit: nat): ReadResult
    requires Valid(s)
  {
    match cursor
    case None => PageAfter(s, FirstRetained(s) - 1, limit)
    case Some(Malformed) => Rejected(InvalidCursor)
    case Some(Decoded(c)) =>
      if c.project != s.project then Rejected(ProjectMismatch)
      else if c.epoch != s.epoch || c.position < FirstRetained(s) - 1 then
        TooOld(Oldest(s), s.latest, CursorAt(s, FirstRetained(s) - 1))
      else if c.position > s.latest then Rejected(InvalidCursor)
      else PageAfter(s, c.position, limit)
  }

  /** What each presented cursor is answered: a cursor of another project, or one that cannot be read or
      stands past the head, is rejected, and which of the two is told; one of another epoch, or whose next
      rows are evicted, is told the gap and where to resume; every other one gets a page. */
  lemma ReadAnswers(s: State, cursor: Option<Presented>, limit: nat)
    requires Valid(s)
    ensures var r := Read(s, cursor, limit);
      var gone := s.latest - |s.rows|;
      match cursor
      case None => r == PageAfter(s, gone, limit)
      case Some(Malformed) => r == Rejected(InvalidCursor)
      case Some(Decoded(c)) =>
        && (r == Rejected(ProjectMismatch) <==> c.project != s.project)
        && (r == Rejected(InvalidCursor) <==> c.project == s.project && c.epoch == s.epoch && c.position > s.latest)
        && (r.TooOld? <==> c.project == s.project && (c.epoch != s.epoch || c.position < gone))
        && (r.TooOld? ==> r.resume == Cursor(s.project, s.epoch, gone) && r.latest == s.latest
                          && (r.oldest == if s.rows == [] then None else Some(gone + 1)))
        && (r.Page? <==> c.project == s.project && c.epoch == s.epoch && gone <= c.position <= s.latest)
        && (r.Page? ==> r == PageAfter(s, c.position, limit))
  {
    hide PageAfter;
    if s.rows != [] { assert s.rows[0].journalSeq == s.latest - |s.rows| + 1; }
  }

  /** What a page means in terms of the retained rows, both bounds included. */
  lemma PageProperties(s: State, position: nat, limit: nat)
    requires Valid(s) && s.latest - |s.rows| <= position <= s.latest && limit >= 1
    ensures var r := PageAfter(s, position, limit);
      var from := position - (s.latest - |s.rows|);
      && r.Page? && r.oldest == Oldest(s) && r.latest == s.latest
      && from + |r.events| <= |s.rows|
      && IsPage(s.rows, from, from + |r.events|, limit)
      && r.events == s.rows[from..from + |r.events|]
      && r.next == CursorAt(s, position + |r.events|)
      && (forall i :: 0 <= i < |r.events| ==> r.events[i].journalSeq == position + 1 + i)
      && (r.hasMore <==> position + |r.events| < s.latest)
      // at least one row per page when one is outstanding
      && (r.events == [] <==> position == s.latest)
      && |r.events| <= limit
  {
    hide RowBytes, SumBytes, PageEnd;
    var from := position - (s.latest - |s.rows|);
    EmptyPage(s.rows, from);
    PageEndIsPage(s.rows, from, from, limit, 0);
  }

  lemma EmptyPage(rows: seq<Row>, from: nat)
    requires from <= |rows|
    ensures SumBytes(rows[from..from]) == 0
  {}

  /** With rows made of admissible events, the byte bound holds without the exception. */
  lemma PageFitsItsBytes(s: State, position: nat, limit: nat)
    requires Valid(s) && s.latest - |s.rows| <= position <= s.latest && limit >= 1
    requires forall r <- s.rows :: RowBytes(r) <= PAGE_BYTES
    ensures SumBytes(PageAfter(s, position, limit).events) <= PAGE_BYTES
  {
    hide RowBytes;
    PageProperties(s, position, limit);
    var events := PageAfter(s, position, limit).events;
    if |events| == 1 {
      assert events[..0] == [] && events[0] in s.rows;
    }
  }

  // ---- loading --------------------------------------------------------------------------------------

  /** One complete line of the rows file; a torn last line has already been cut off. */
  datatype Line = Parsed(row: Row) | Unreadable

  datatype Index = NoIndex | BadIndex | IndexOf(project: seq<Unit>, epoch: Epoch)

  /** The two files; `None` is a rows file that does not exist. */
  datatype Files = Files(index: Index, rows: Option<seq<Line>>)

  datatype Outcome = StartFresh | Load(epoch: Epoch, rows: seq<Row>)

  /** Every line parses, belongs to this project, and carries the number after its predecessor's. */
  ghost predicate Readable(lines: seq<Line>, project: seq<Unit>) {
    && (forall l <- lines :: l.Parsed? && OwnRow(l.row, project))
    && forall i :: 0 < i < |lines| ==> lines[i].row.journalSeq == lines[i - 1].row.journalSeq + 1
  }

  predicate OwnRow(r: Row, project: seq<Unit>) {
    r.projectId == project && r.eventId == EventId(project, r.journalSeq)
  }

  function RowsOf(lines: seq<Line>): seq<Row>
    requires forall l <- lines :: l.Parsed?
  {
    seq(|lines|, i requires 0 <= i < |lines| => lines[i].row)
  }

  /** A journal is loaded exactly when its index is present, valid and its own, and every row reads. */
  ghost function Opened(f: Files, project: seq<Unit>): Outcome {
    if f.index.IndexOf? && f.index.project == project && f.rows.Some? && Readable(f.rows.value, project)
    then Load(f.index.epoch, RowsOf(f.rows.value))
    else StartFresh
  }

  method OpenFiles(f: Files, project: seq<Unit>) returns (o: Outcome)
    ensures o == Opened(f, project)
  {
    hide OwnRow;
    if f.rows.None? { return StartFresh; }
    if !f.index.IndexOf? || f.index.project != project { return StartFresh; }
    var lines := f.rows.value;
    var rows: seq<Row> := [];
    var i := 0;
    while i < |lines|
      invariant 0 <= i <= |lines| && Readable(lines[..i], project) && rows == RowsOf(lines[..i])
    {
      OneMoreLine(lines, i, project);
      if lines[i].Unreadable? { return StartFresh; }
      var row := lines[i].row;
      if i > 0 && row.journalSeq != rows[i - 1].journalSeq + 1 { return StartFresh; }
      if !OwnRow(row, project) { return StartFresh; }
      rows := rows + [row];
      i := i + 1;
    }
    assert lines[..i] == lines;
    o := Load(f.index.epoch, rows);
  }

  lemma OneMoreLine(lines: seq<Line>, i: nat, project: seq<Unit>)
    requires i < |lines| && Readable(lines[..i], project)
    ensures var good := lines[i].Parsed? && OwnRow(lines[i].row, project)
              && (i > 0 ==> lines[i].row.journalSeq == lines[i - 1].row.journalSeq + 1);
      && (good ==> Readable(lines[..i + 1], project) && RowsOf(lines[..i + 1]) == RowsOf(lines[..i]) + [lines[i].row])
      && (!good ==> !Readable(lines, project))
  {
    hide OwnRow;
    assert lines[..i + 1] == lines[..i] + [lines[i]];
    assert lines[i] in lines;
    if i > 0 { assert lines[i - 1] == lines[..i][i - 1]; }
  }

  function LastSeq(rows: seq<Row>): nat { if rows == [] then 0 else rows[|rows| - 1].journalSeq }

  // ---- the class ------------------------------------------------------------------------------------

  datatype AppendResult = Stored(row: Row) | NotDurable | InvalidEvent

  /** The open journal. `rowsFile` is the lines on disk; evicted lines may still stand at its head. */
  class EventJournal {
    const projectId: seq<Unit>
    var epoch: Epoch
    var rows: seq<Row>
    var latestSeq: nat
    var writable: bool
    var rowsFile: seq<Row>
    var evictedOnDisk: nat

    ghost predicate Ok()
      reads this
    {
      Contiguous(rows, latestSeq) && evictedOnDisk + |rows| == |rowsFile| && rowsFile[evictedOnDisk..] == rows
    }

    ghost function View(): State
      reads this
    {
      State(projectId, epoch, rows, latestSeq)
    }

    constructor Fresh(projectId: seq<Unit>, epoch: Epoch)
      ensures Ok() && View() == State(projectId, epoch, [], 0) && rowsFile == []
    {
      this.projectId := projectId;
      this.epoch := epoch;
      rows, latestSeq, writable, rowsFile, evictedOnDisk := [], 0, true, [], 0;
    }

    /** Drops what retention no longer keeps; rewrites the file once enough dead lines stand in it. */
    method ApplyRetention(now: int, rewritable: bool)
      requires Ok()
      modifies this`rows, this`rowsFile, this`evictedOnDisk
      ensures Ok() && View() == old(View()).(rows := Evict(old(rows), now - MIN_RETENTION_MS))
      ensures rowsFile == old(rowsFile) || rowsFile == rows
      ensures rewritable && rows != old(rows) ==> evictedOnDisk < RETAINED_ROWS
    {
      var cutoff := now - MIN_RETENTION_MS;
      var drop := 0;
      while |rows| - drop > RETAINED_ROWS && rows[drop].ts.ms <= cutoff
        invariant 0 <= drop <= |rows|
        invariant Evict(rows[drop..], cutoff) == Evict(rows, cutoff)
      {
        assert rows[drop..][1..] == rows[drop + 1..];
        drop := drop + 1;
      }
      assert Evict(rows[drop..], cutoff) == rows[drop..];
      EvictKeepsContiguous(rows, latestSeq, cutoff);
      if drop == 0 { return; }
      rows := rows[drop..];
      evictedOnDisk := evictedOnDisk + drop;
      if evictedOnDisk >= RETAINED_ROWS { Compact(rewritable); }
    }

    method Compact(rewritable: bool)
      requires Ok()
      modifies this`rowsFile, this`evictedOnDisk
      ensures Ok()
      ensures if rewritable then rowsFile == rows && evictedOnDisk == 0
              else rowsFile == old(rowsFile) && evictedOnDisk == old(evictedOnDisk)
    {
      if rewritable {
        rowsFile := rows;
        evictedOnDisk := 0;
      }
    }

    /** A number is spent only on a row that reached the file, so the sequence has no holes. */
    method Append(e: Event, now: Instant, durable: bool, rewritable: bool) returns (r: AppendResult)
      requires Ok()
      modifies this`rows, this`latestSeq, this`writable, this`rowsFile, this`evictedOnDisk
      ensures Ok() && r.InvalidEvent? == !Admissible(e)
      ensures Admissible(e) && durable ==>
        r == Stored(NewRow(old(View()), e, now)) && View() == Appended(old(View()), e, now) && writable
      ensures Admissible(e) && !durable ==>
        r == NotDurable && View() == old(View()) && rowsFile == old(rowsFile) && !writable
      ensures !Admissible(e) ==> View() == old(View()) && rowsFile == old(rowsFile) && writable == old(writable)
    {
      if !Admissible(e) { return InvalidEvent; }
      var row := Row(EventId(projectId, latestSeq + 1), latestSeq + 1, now, projectId, e);
      if !durable {
        writable := false;
        return NotDurable;
      }
      rowsFile := rowsFile + [row];
      writable := true;
      latestSeq := latestSeq + 1;
      rows := rows + [row];
      assert rowsFile[evictedOnDisk..] == rows;
      ApplyRetention(now.ms, rewritable);
      r := Stored(row);
    }

    method ReadPage(cursor: Option<Presented>, requested: Option<nat>) returns (r: ReadResult)
      requires Ok()
      // at most a hundred rows, and fewer when fewer are asked for
      ensures Ok() && r == Read(View(), cursor, if requested.None? || requested.value > 100 then 100 else requested.value)
    {
      hide RowBytes, PageAfter;
      var limit := Limit(requested);
      var after: nat := FirstRetained(State(projectId, epoch, rows, latestSeq)) - 1;
      match cursor {
        case None =>
        case Some(Malformed) => return Rejected(InvalidCursor);
        case Some(Decoded(c)) =>
          if c.project != projectId { return Rejected(ProjectMismatch); }
          if c.epoch != epoch || c.position < after {
            return TooOld(Oldest(State(projectId, epoch, rows, latestSeq)), latestSeq, Cursor(projectId, epoch, after));
          }
          if c.position > latestSeq { return Rejected(InvalidCursor); }
          after := c.position;
      }
      r := PageFrom(after, limit);
    }

    /** The page strictly after a place the journal still reaches. */
    method PageFrom(after: nat, limit: nat) returns (r: ReadResult)
      requires Ok() && latestSeq - |rows| <= after <= latestSeq
      ensures Ok() && r == PageAfter(View(), after, limit)
    {
      hide RowBytes, SumBytes, PageEnd, IsPage;
      var from := if rows == [] then |rows| else after + 1 - rows[0].journalSeq;
      assert from == after - (latestSeq - |rows|);
      var events := FillPage(from, limit);
      var last := if events == [] then after else events[|events| - 1].journalSeq;
      assert last == after + |events|;
      r := Page(events, Cursor(projectId, epoch, last), last < latestSeq,
                Oldest(State(projectId, epoch, rows, latestSeq)), latestSeq);
    }

    /** The loop of a page read. */
    method FillPage(from: nat, limit: nat) returns (events: seq<Row>)
      requires Ok() && from <= |rows|
      ensures events == rows[from..PageEnd(rows, from, from, limit, 0)]
    {
      hide RowBytes;
      events := [];
      var bytes: nat := 0;
      var i := from;
      while i < |rows|
        invariant from <= i <= |rows| && events == rows[from..i]
        invariant PageEnd(rows, from, i, limit, bytes) == PageEnd(rows, from, from, limit, 0)
      {
        if |events| >= limit { break; }
        var size := RowBytes(rows[i]);
        if |events| > 0 && bytes + size > PAGE_BYTES { break; }
        events := events + [rows[i]];
        bytes := bytes + size;
        i := i + 1;
      }
    }
  }

  function Limit(requested: Option<nat>): nat {
    match requested
    case None => PAGE_ROWS
    case Some(n) => if n < PAGE_ROWS then n else PAGE_ROWS
  }
}
