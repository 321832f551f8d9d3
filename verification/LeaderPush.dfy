/** The pushing half of delivery: the event controller scans the journal from a private place and hands
    the leader's client the rows worth its attention, with a cursor to acknowledge. Routine successful
    checks and the leader's own echoes stay behind that cursor on purpose. */
module LeaderPush {
  import opened Options
  import opened Text
  import opened JournalRows
  import opened Journal
  import opened LeaderRecord
  import Catalog

  /** `position` is the private scan place, none until a scan has moved. Rows up to `floor` are not owed.
      `gap` is a recovery still to be stated and the place up to which it names rows as gone. `omitted`
      counts the routine rows scanned since the last push. */
  datatype Controller = Controller(position: Option<nat>, floor: nat, gap: Option<nat>, omitted: nat)

  datatype Dispatch = Dispatch(events: seq<Row>, next: Cursor, omitted: nat, gap: Option<nat>)

  /** One round of the controller's scan: nothing outstanding; the place moved past `over`, rows that are
      not worth a push; or a dispatch, which covers the routine rows `before` its cursor and leaves those
      `after` it for the next one. */
  datatype Scan =
    | Nothing
    | Passed(ctl: Controller, over: seq<Row>)
    | Outgoing(dispatch: Dispatch, through: nat, before: seq<Row>, after: seq<Row>)

  /** What is left out: a workflow check that passed and is marked as routine. A failed check, one without
      routing metadata and a row of any other kind are not. */
  ghost predicate RoutineSuccess(e: Event) {
    Spells(e.kind, "gate.passed") && e.gate.Some? && Spells(e.gate.value.resultScope, "routine")
  }

  /** The leader's own doing: the row names it as the origin and one of `own` as the cause. */
  ghost predicate OwnDoing(e: Event, own: set<seq<Unit>>) { e.origin == Leader && exists op <- own :: e.causedBy == Some(op) }

  predicate Significant(e: Event) {
    !(e.kind == Catalog.Words("gate.passed") && e.gate.Some? && e.gate.value.resultScope == ROUTINE)
  }

  /** A row the leader caused itself: one of its own operations is named as the cause. */
  predicate Echo(e: Event, own: set<seq<Unit>>) {
    e.origin.Leader? && e.causedBy.Some? && e.causedBy.value in own
  }

  lemma SignificantMeans(e: Event)
    ensures Significant(e) <==> !RoutineSuccess(e)
  {
    hide Spells, Catalog.Words;
    Catalog.WordsSpell(e.kind, "gate.passed");
    if e.gate.Some? { RoutineSpells(e.gate.value.resultScope); }
  }

  lemma RoutineSpells(scope: seq<Unit>)
    ensures Spells(scope, "routine") <==> scope == ROUTINE
  {}

  lemma EchoMeans(e: Event, own: set<seq<Unit>>)
    ensures Echo(e, own) <==> OwnDoing(e, own)
  {}

  predicate Increasing(rows: seq<Row>) {
    forall i, k :: 0 <= i < k < |rows| ==> rows[i].journalSeq < rows[k].journalSeq
  }

  function Keep(rows: seq<Row>, p: Row -> bool): (r: seq<Row>)
    ensures forall row :: row in r <==> row in rows && p(row)
    ensures Increasing(rows) ==> Increasing(r)
  {
    if rows == [] then []
    else
      var rest := Keep(rows[1..], p);
      HeadAndRest(rows, rest);
      if p(rows[0]) then [rows[0]] + rest else rest
  }

  lemma HeadAndRest(rows: seq<Row>, rest: seq<Row>)
    requires rows != [] && forall r <- rest :: r in rows[1..]
    ensures forall r :: r in rows <==> r == rows[0] || r in rows[1..]
    ensures Increasing(rows) ==> Increasing(rows[1..])
    ensures Increasing(rows) && Increasing(rest) ==> Increasing([rows[0]] + rest)
  {
    if Increasing(rows) {
      forall i | 0 <= i < |rest| ensures rows[0].journalSeq < rest[i].journalSeq {
        assert rest[i] in rows[1..];
        var k :| 0 <= k < |rows[1..]| && rows[1..][k] == rest[i];
        assert rows[k + 1] == rest[i];
      }
    }
  }

  function After(rows: seq<Row>, n: nat): seq<Row> { Keep(rows, (r: Row) => r.journalSeq > n) }

  function UpTo(rows: seq<Row>, n: nat): seq<Row> { Keep(rows, (r: Row) => r.journalSeq <= n) }

  function Visible(rows: seq<Row>): seq<Row> { Keep(rows, (r: Row) => Significant(r.event)) }

  function Routine(rows: seq<Row>): seq<Row> { Keep(rows, (r: Row) => !Significant(r.event)) }

  /** What the delivery hands to the client: everything but echoes. */
  function Handed(rows: seq<Row>, own: set<seq<Unit>>): seq<Row> { Keep(rows, (r: Row) => !Echo(r.event, own)) }

  function KeptBack(rows: seq<Row>, own: set<seq<Unit>>): seq<Row> { Keep(rows, (r: Row) => Echo(r.event, own)) }

  function Presenting(ctl: Controller, j: State): Option<Presented> {
    match ctl.position
    case None => None
    case Some(p) => Some(Decoded(CursorAt(j, p)))
  }

  function ScanOf(ctl: Controller, j: State): Scan
    requires Valid(j)
  {
    var gone: nat := FirstRetained(j) - 1;
    match Read(j, Presenting(ctl, j), PAGE_ROWS)
    case Rejected(_) => Passed(ctl.(position := None, omitted := 0, gap := Some(gone)), [])
    case TooOld(_, _, resume) => Passed(ctl.(position := Some(resume.position), omitted := 0, gap := Some(gone)), [])
    case Page(rows, next, _, _, _) => ScanPage(ctl, j, rows, next)
  }

  function ScanPage(ctl: Controller, j: State, rows: seq<Row>, next: Cursor): Scan {
    var owed := After(rows, ctl.floor);
    var visible := Visible(owed);
    var on := ctl.(position := Some(next.position));
    if owed == [] && rows != [] then Passed(on, [])
    else if visible == [] && ctl.gap.None? then
      if owed == [] then Nothing else Passed(on.(omitted := ctl.omitted + |owed|), owed)
    else
      var through := if visible == [] then next.position else visible[|visible| - 1].journalSeq;
      var before := Routine(UpTo(owed, through));
      Outgoing(Dispatch(visible, CursorAt(j, through), ctl.omitted + |before|, ctl.gap),
               next.position, before, Routine(After(owed, through)))
  }

  /** Where the next scan starts reading. */
  function Start(ctl: Controller, j: State): nat
    requires Valid(j)
  {
    match ctl.position
    case Some(p) => p
    case None => j.latest - |j.rows|
  }

  lemma ScanCases(ctl: Controller, j: State)
    requires Valid(j) && Start(ctl, j) <= j.latest
    ensures var gone: nat := j.latest - |j.rows|;
      && FirstRetained(j) - 1 == gone
      && if Start(ctl, j) < gone then ScanOf(ctl, j) == Passed(ctl.(position := Some(gone), omitted := 0, gap := Some(gone)), [])
         else
           var page := PageAfter(j, Start(ctl, j), PAGE_ROWS);
           ScanOf(ctl, j) == ScanPage(ctl, j, page.events, page.next)
  {
    hide ScanPage, PageAfter, PageEnd, IsPage, RowBytes, SumBytes;
    if j.rows != [] { assert j.rows[0].journalSeq == j.latest - |j.rows| + 1; }
  }

  /** Where a starting controller reads from: after what the leader's record says it owes. */
  function Resumed(r: Record, j: State): Controller
    requires Valid(j)
  {
    var gone: nat := FirstRetained(j) - 1;
    var floor := Owed(r, j);
    if r.acked.epoch != j.epoch || floor < gone then Controller(None, if floor < gone then floor else gone, Some(gone), 0)
    else Controller(None, floor, None, 0)
  }

  /** A session that begins owes what the record has not acknowledged in this journal. It states a gap exactly
      when the record is another journal's or an owed row is already gone, and the gap reaches to the
      oldest row that is left. */
  lemma ResumedMeans(r: Record, j: State)
    requires Valid(j)
    ensures var c := Resumed(r, j);
      var gone := j.latest - |j.rows|;
      var owedFrom := if r.acked.epoch != j.epoch then 0 else if r.acked.through > j.latest then j.latest else r.acked.through;
      && c.position.None? && c.omitted == 0
      && (c.gap.Some? <==> r.acked.epoch != j.epoch || owedFrom < gone)
      && (c.gap.Some? ==> c.gap.value == gone)
      && c.floor == if owedFrom < gone then owedFrom else if r.acked.epoch != j.epoch then gone else owedFrom
  {
    if j.rows != [] { assert j.rows[0].journalSeq == j.latest - |j.rows| + 1; }
  }

  /** A place beyond the head, which no journal of this epoch can have handed out, is dropped, and a gap
      stated in its stead. */
  lemma ForeignPlaceIsDropped(ctl: Controller, j: State)
    requires Valid(j) && ctl.position.Some? && ctl.position.value > j.latest
    ensures ScanOf(ctl, j) == Passed(Controller(None, ctl.floor, Some(j.latest - |j.rows|), 0), [])
  {
    if j.rows != [] { assert j.rows[0].journalSeq == j.latest - |j.rows| + 1; }
  }

  function Owed(r: Record, j: State): nat {
    if r.acked.epoch != j.epoch then 0 else if r.acked.through <= j.latest then r.acked.through else j.latest
  }

  /** What was acknowledged in this journal is no longer owed; nothing else changes. */
  lemma RaisedMeans(ctl: Controller, r: Record, j: State)
    ensures var c := Raised(ctl, r, j);
      && c == ctl.(floor := c.floor) && c.floor >= ctl.floor
      && (r.acked.epoch == j.epoch && r.acked.through <= j.latest ==> c.floor == Max(ctl.floor, r.acked.through))
      && (r.acked.epoch != j.epoch ==> c == ctl)
  {}

  /** The floor is raised before every round to what was acknowledged meanwhile. */
  function Raised(ctl: Controller, r: Record, j: State): Controller {
    if r.acked.epoch == j.epoch && Owed(r, j) > ctl.floor then ctl.(floor := Owed(r, j)) else ctl
  }
}
