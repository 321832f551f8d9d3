/** What one round of the controller's scan means in terms of the journal's log. */
module LeaderScan {
  import opened Options
  import opened JournalRows
  import opened Journal
  import J = JournalRuns
  import JournalFollow
  import opened LeaderRecord
  import opened LeaderPush

  type Place = (nat, nat)

  function Places(g: nat, rows: seq<Row>): set<Place> { set r | r in rows :: (g, r.journalSeq) }

  lemma {:induction false} PlacesCount(g: nat, rows: seq<Row>)
    requires Increasing(rows)
    ensures |Places(g, rows)| == |rows|
  {
    if rows == [] {
      assert Places(g, rows) == {};
    } else {
      PlacesCount(g, rows[1..]);
      assert (g, rows[0].journalSeq) !in Places(g, rows[1..]);
      assert Places(g, rows) == {(g, rows[0].journalSeq)} + Places(g, rows[1..]) by {
        assert forall r :: r in rows <==> r == rows[0] || r in rows[1..];
      }
    }
  }

  lemma Shape(j: J.Sys)
    requires J.Inv(j)
    ensures Valid(j.mem) && |j.mem.rows| <= |J.Current(j)| == j.mem.latest && |j.logs| == j.gen + 1
    ensures InOrder(J.Current(j)) && J.SuffixOf(j.mem.rows, J.Current(j))
    ensures j.mem.rows == [] ==> J.Current(j) == []
  {
    hide J.FileInv, J.MintInv;
    J.InvMeansValid(j);
  }

  /** A scan of the running journal either finds its place evicted or reads the log from it. */
  lemma ScanReads(j: J.Sys, ctl: Controller) returns (n: nat)
    requires J.Inv(j) && (ctl.position.Some? ==> ctl.position.value <= |J.Current(j)|)
    ensures Valid(j.mem) && |j.mem.rows| <= |J.Current(j)| == j.mem.latest && |j.logs| == j.gen + 1
    ensures InOrder(J.Current(j)) && Start(ctl, j.mem) <= |J.Current(j)|
    ensures FirstRetained(j.mem) - 1 == |J.Current(j)| - |j.mem.rows|
    ensures var log := J.Current(j);
      var gone := |log| - |j.mem.rows|;
      var at := Start(ctl, j.mem);
      if at < gone then ScanOf(ctl, j.mem) == Passed(ctl.(position := Some(gone), omitted := 0, gap := Some(gone)), [])
      else
        && at + n <= |log| && (n == 0 <==> at == |log|)
        && ScanOf(ctl, j.mem) == ScanPage(ctl, j.mem, log[at..at + n], CursorAt(j.mem, at + n))
  {
    hide J.Inv, ScanOf, ScanPage, PageAfter, InOrder, J.Numbered, Valid, FirstRetained;
    n := 0;
    Shape(j);
    ScanCases(ctl, j.mem);
    var at := Start(ctl, j.mem);
    if at >= |J.Current(j)| - |j.mem.rows| {
      J.PageSlice(j.mem, J.Current(j), at, PAGE_ROWS);
      n := |PageAfter(j.mem, at, PAGE_ROWS).events|;
    }
  }

  ghost predicate InOrder(log: seq<Row>) { forall i :: 0 <= i < |log| ==> log[i].journalSeq == i + 1 }

  /** `r` is the row its number names. */
  ghost predicate Genuine(log: seq<Row>, r: Row) { 0 < r.journalSeq <= |log| && r == log[r.journalSeq - 1] }

  lemma RowsAreGenuine(log: seq<Row>, k: nat)
    requires InOrder(log) && 0 < k <= |log|
    ensures Genuine(log, log[k - 1]) && log[k - 1].journalSeq == k
  {}

  lemma PageRows(log: seq<Row>, at: nat, n: nat)
    requires at + n <= |log| && InOrder(log)
    ensures Increasing(log[at..at + n])
    ensures forall r :: r in log[at..at + n] <==> at < r.journalSeq <= at + n && Genuine(log, r)
  {
    var page := log[at..at + n];
    forall r: Row | at < r.journalSeq <= at + n && Genuine(log, r) ensures r in page {
      assert page[r.journalSeq - 1 - at] == r;
    }
    forall r | r in page ensures at < r.journalSeq <= at + n && Genuine(log, r) {
      var i :| 0 <= i < n && page[i] == r;
      assert r == log[at + i];
    }
  }

  /** The rows of the log in a stretch that are no routine successes, or those that are. */
  ghost predicate Exactly(rows: seq<Row>, log: seq<Row>, from: nat, to: nat, significant: bool) {
    forall r :: r in rows <==> from < r.journalSeq <= to && Genuine(log, r) && RoutineSuccess(r.event) != significant
  }

  lemma InPlaces(g: nat, rows: seq<Row>, log: seq<Row>, from: nat, to: nat, significant: bool, k: nat)
    requires Exactly(rows, log, from, to, significant) && InOrder(log) && from < k <= to && k <= |log|
    requires RoutineSuccess(log[k - 1].event) != significant
    ensures log[k - 1] in rows && log[k - 1].journalSeq == k && (g, k) in Places(g, rows)
  {
    hide RoutineSuccess;
    assert Genuine(log, log[k - 1]) && (g, log[k - 1].journalSeq) == (g, k);
  }

  lemma PlacesAre(g: nat, rows: seq<Row>, log: seq<Row>, from: nat, to: nat, significant: bool)
    requires Exactly(rows, log, from, to, significant)
    ensures forall p <- Places(g, rows) ::
      p.0 == g && from < p.1 <= to && p.1 <= |log| && log[p.1 - 1] in rows && RoutineSuccess(log[p.1 - 1].event) != significant
  {
    hide RoutineSuccess;
    forall p | p in Places(g, rows)
      ensures p.0 == g && from < p.1 <= to && p.1 <= |log| && log[p.1 - 1] in rows
              && RoutineSuccess(log[p.1 - 1].event) != significant
    {
      var r :| r in rows && p == (g, r.journalSeq);
      assert Genuine(log, r);
    }
  }

  /** Whatever a round of scanning does with a page, each owed row of it ends up in one place: a
      significant one is pushed, a routine one is counted now, before the cursor or after it. */
  lemma PageIsSplit(ctl: Controller, m: State, log: seq<Row>, at: nat, n: nat)
    requires at + n <= |log| && InOrder(log) && (n == 0 <==> at == |log|)
    ensures match ScanPage(ctl, m, log[at..at + n], CursorAt(m, at + n))
      case Nothing => n == 0 && ctl.gap.None?
      case Passed(c, over) =>
        && n > 0 && c == ctl.(position := Some(at + n), omitted := ctl.omitted + |over|) && Increasing(over)
        && Exactly(over, log, Max(at, ctl.floor), at + n, false)
        && Exactly([], log, Max(at, ctl.floor), at + n, true)
      case Outgoing(d, through, before, after) =>
        && through == at + n && at <= d.next.position <= at + n && d.next == CursorAt(m, d.next.position)
        && d.gap == ctl.gap && d.omitted == ctl.omitted + |before| && Increasing(before) && Increasing(after)
        && (d.events == [] ==> d.gap.Some?)
        && Exactly(d.events, log, Max(at, ctl.floor), d.next.position, true)
        && Exactly(d.events, log, Max(at, ctl.floor), at + n, true)
        && Exactly(before, log, Max(at, ctl.floor), d.next.position, false)
        && Exactly(after, log, Max(d.next.position, ctl.floor), at + n, false)
  {
    hide Genuine, Significant, RoutineSuccess, Increasing, Exactly, Stretch, InOrder;
    var rows := log[at..at + n];
    PageIsStretch(log, at, n);
    OwedSplit(log, rows, at, ctl.floor, at + n);
    var owed := After(rows, ctl.floor);
    var visible := Visible(owed);
    if visible != [] {
      UpToTheLast(visible, log, Max(at, ctl.floor), at + n);
      ThroughSplit(log, owed, Max(at, ctl.floor), visible[|visible| - 1].journalSeq, at + n);
    } else {
      ThroughSplit(log, owed, Max(at, ctl.floor), at + n, at + n);
    }
  }

  lemma PageIsStretch(log: seq<Row>, at: nat, n: nat)
    requires at + n <= |log| && InOrder(log)
    ensures Increasing(log[at..at + n]) && Stretch(log[at..at + n], log, at, at + n)
  {
    hide Genuine;
    PageRows(log, at, n);
  }

  /** The significant rows of a stretch are those up to the last of them. */
  lemma UpToTheLast(rows: seq<Row>, log: seq<Row>, from: nat, to: nat)
    requires Exactly(rows, log, from, to, true) && Increasing(rows) && rows != []
    ensures from < rows[|rows| - 1].journalSeq <= to && Exactly(rows, log, from, rows[|rows| - 1].journalSeq, true)
  {
    hide Genuine, RoutineSuccess;
    LastIsLast(rows);
    assert rows[|rows| - 1] in rows;
  }

  ghost predicate Stretch(rows: seq<Row>, log: seq<Row>, from: nat, to: nat) {
    forall r :: r in rows <==> from < r.journalSeq <= to && Genuine(log, r)
  }

  lemma OwedSplit(log: seq<Row>, rows: seq<Row>, at: nat, floor: nat, to: nat)
    requires Stretch(rows, log, at, to) && Increasing(rows)
    ensures Stretch(After(rows, floor), log, Max(at, floor), to) && Increasing(After(rows, floor))
    ensures Exactly(Visible(After(rows, floor)), log, Max(at, floor), to, true) && Increasing(Visible(After(rows, floor)))
    ensures Visible(After(rows, floor)) == [] ==> Exactly(After(rows, floor), log, Max(at, floor), to, false)
  {
    hide Genuine, Significant, RoutineSuccess, Increasing;
    forall r: Row ensures Significant(r.event) <==> !RoutineSuccess(r.event) { SignificantMeans(r.event); }
  }

  lemma ThroughSplit(log: seq<Row>, owed: seq<Row>, from: nat, through: nat, to: nat)
    requires Stretch(owed, log, from, to) && Increasing(owed) && through <= to
    ensures Exactly(Routine(UpTo(owed, through)), log, from, through, false) && Increasing(Routine(UpTo(owed, through)))
    ensures Exactly(Routine(After(owed, through)), log, Max(from, through), to, false)
    ensures Increasing(Routine(After(owed, through)))
  {
    hide Genuine, Significant, RoutineSuccess, Increasing;
    forall r: Row ensures Significant(r.event) <==> !RoutineSuccess(r.event) { SignificantMeans(r.event); }
  }

  lemma LastIsLast(rows: seq<Row>)
    requires Increasing(rows) && rows != []
    ensures forall r <- rows :: r.journalSeq <= rows[|rows| - 1].journalSeq
  {}
}
