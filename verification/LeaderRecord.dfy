/** The leader's delivered, acknowledged and reacted positions, persisted beside the journal. */
module LeaderRecord {
  import opened Options
  import opened Text
  import opened JournalRows
  import opened Journal

  datatype Acked = Acked(epoch: Epoch, through: nat, cursor: Cursor)

  /** `ackedByLeader` is false while `acked` is only the place where the record began. */
  datatype Record = Record(epoch: Epoch, deliveredSeq: nat, reactedSeq: nat, ackedByLeader: bool, acked: Acked)

  /** The cursors file: missing, unreadable or another project's, or a record. */
  datatype Stored = Absent | Unusable | Holds(record: Record)

  datatype Position = Position(deliveredSeq: nat, ackedSeq: nat, reactedSeq: nat)

  datatype AckAnswer = Moved(ackedSeq: nat) | NoOp(ackedSeq: nat) | CursorRefused(why: Rejection)

  datatype AckOutcome = AckOutcome(record: Record, answer: AckAnswer)

  /** A new record begins at the head: earlier rows are not owed, and nothing has happened yet. */
  function Begin(j: State): Record {
    Record(j.epoch, 0, 0, false, Acked(j.epoch, j.latest, CursorAt(j, j.latest)))
  }

  /** Counts from a recreated journal mean nothing in the new one. */
  function Rebased(r: Record, epoch: Epoch): Record {
    if r.epoch == epoch then r else r.(epoch := epoch, deliveredSeq := 0, reactedSeq := 0)
  }

  function Delivered(r: Record, epoch: Epoch, through: nat): Record {
    var b := Rebased(r, epoch);
    if through <= b.deliveredSeq then b else b.(deliveredSeq := through)
  }

  function Reacted(r: Record, epoch: Epoch, through: nat): Record {
    var b := Rebased(r, epoch);
    if through <= b.reactedSeq then b else b.(reactedSeq := through)
  }

  function PositionIn(r: Record, epoch: Epoch): Position {
    Position(if r.epoch == epoch then r.deliveredSeq else 0,
             if r.acked.epoch == epoch && r.ackedByLeader then r.acked.through else 0,
             if r.epoch == epoch then r.reactedSeq else 0)
  }

  function Max(a: nat, b: nat): nat { if a > b then a else b }

  /** The place a cursor stands at, as a one-row read reveals it. */
  function Probed(probe: ReadResult): (through: int)
    requires probe.Page?
  {
    if probe.events == [] then probe.latest else probe.events[0].journalSeq - 1
  }

  function AckOf(r: Record, j: State, cursor: Presented): AckOutcome
    requires Valid(j)
  {
    var probe := Read(j, Some(cursor), 1);
    var current := PositionIn(r, j.epoch).ackedSeq;
    match probe
    case Rejected(why) => AckOutcome(r, CursorRefused(why))
    case TooOld(_, _, _) => AckOutcome(r, NoOp(current))
    case Page(_, _, _, _, _) =>
      ProbeFindsThePlace(j, cursor);
      var through: nat := Probed(probe);
      if r.acked.epoch == j.epoch && through <= r.acked.through then AckOutcome(r, NoOp(current))
      else
        var b := Rebased(r, j.epoch);
        AckOutcome(b.(deliveredSeq := Max(b.deliveredSeq, through), ackedByLeader := true,
                      acked := Acked(j.epoch, through, cursor.cursor)), Moved(through))
  }

  /** The journal is the only reader of its cursors, and the probe gives back exactly the place the
      cursor was minted for. */
  lemma ProbeFindsThePlace(j: State, cursor: Presented)
    requires Valid(j) && Read(j, Some(cursor), 1).Page?
    ensures cursor.Decoded? && cursor.cursor == CursorAt(j, cursor.cursor.position)
    ensures cursor.cursor.position <= j.latest && Probed(Read(j, Some(cursor), 1)) == cursor.cursor.position
  {
    hide PageAfter, IsPage, PageEnd, SumBytes, RowBytes;
    if cursor.Decoded? && cursor.cursor.position <= j.latest && FirstRetained(j) - 1 <= cursor.cursor.position {
      PageProperties(j, cursor.cursor.position, 1);
    }
  }

  // ---- what an acknowledgement means ----------------------------------------------------------------

  ghost predicate Reaches(j: State, c: Cursor) {
    c == CursorAt(j, c.position) && j.latest - |j.rows| <= c.position <= j.latest
  }

  /** The whole meaning of `ack` for a cursor of the running journal: it moves to the cursor's place
      when that is ahead, and otherwise changes nothing. */
  lemma AckMeans(r: Record, j: State, c: Cursor)
    requires Valid(j) && c.project == j.project
    ensures var o := AckOf(r, j, Decoded(c));
      && (Reaches(j, c) && (r.acked.epoch != j.epoch || c.position > r.acked.through) ==>
            o.answer == Moved(c.position) && o.record.acked == Acked(j.epoch, c.position, c) && o.record.ackedByLeader
            && o.record.epoch == j.epoch && o.record.deliveredSeq >= c.position)
      && (!Reaches(j, c) || (r.acked.epoch == j.epoch && c.position <= r.acked.through) ==> o.record == r)
      && (o.answer.Moved? ==> Reaches(j, c) && (r.acked.epoch != j.epoch || c.position > r.acked.through))
      && (o.answer.CursorRefused? <==> c.epoch == j.epoch && c.position > j.latest)
  {
    hide PageAfter, IsPage, PageEnd, SumBytes, RowBytes;
    if Reaches(j, c) { ProbeFindsThePlace(j, Decoded(c)); }
  }

  /** Acknowledging twice is acknowledging once. */
  lemma AckIsIdempotent(r: Record, j: State, cursor: Presented)
    requires Valid(j)
    ensures var once := AckOf(r, j, cursor).record;
      && AckOf(once, j, cursor).record == once && !AckOf(once, j, cursor).answer.Moved?
  {
    hide PageAfter, IsPage, PageEnd, SumBytes, RowBytes;
    if Read(j, Some(cursor), 1).Page? { ProbeFindsThePlace(j, cursor); }
  }

  /** Only the farthest of two acknowledgements matters, whichever arrives first. */
  lemma AckIsCumulative(r: Record, j: State, a: Cursor, b: Cursor)
    requires Valid(j) && a.project == b.project == j.project
    ensures var ab := AckOf(AckOf(r, j, Decoded(a)).record, j, Decoded(b)).record;
      var ba := AckOf(AckOf(r, j, Decoded(b)).record, j, Decoded(a)).record;
      ab == ba
  {
    hide PageAfter, IsPage, PageEnd, SumBytes, RowBytes;
    if Reaches(j, a) { ProbeFindsThePlace(j, Decoded(a)); }
    if Reaches(j, b) { ProbeFindsThePlace(j, Decoded(b)); }
  }

  // ---- the class ------------------------------------------------------------------------------------

  class LeaderCursors {
    const journal: EventJournal
    var record: Record
    var startedFresh: bool
    var file: Stored

    /** `saved` says whether the directory takes the write; a failed one leaves memory ahead of disk. */
    constructor Open(journal: EventJournal, file: Stored, saved: bool)
      requires journal.Ok()
      ensures this.journal == journal && startedFresh == !file.Holds?
      ensures record == if file.Holds? then file.record else Begin(journal.View())
      ensures this.file == if file.Holds? || !saved then file else Holds(record)
    {
      this.journal := journal;
      this.file := file;
      if file.Holds? {
        record, startedFresh := file.record, false;
      } else {
        record := Record(journal.epoch, 0, 0, false,
                         Acked(journal.epoch, journal.latestSeq,
                             Cursor(journal.projectId, journal.epoch, journal.latestSeq)));
        startedFresh := true;
      }
      new;
      if startedFresh { Save(saved); }
    }

    method Save(saved: bool)
      modifies this`file
      ensures file == if saved then Holds(record) else old(file)
    {
      if saved { file := Holds(record); }
    }

    method GetPosition() returns (p: Position)
      ensures p == PositionIn(record, journal.epoch)
    {
      var same := record.epoch == journal.epoch;
      p := Position(if same then record.deliveredSeq else 0,
                    if record.acked.epoch == journal.epoch && record.ackedByLeader then record.acked.through else 0,
                    if same then record.reactedSeq else 0);
    }

    method Rebase()
      modifies this`record
      ensures record == Rebased(old(record), journal.epoch)
    {
      if record.epoch == journal.epoch { return; }
      record := record.(epoch := journal.epoch, deliveredSeq := 0, reactedSeq := 0);
    }

    method MarkDelivered(through: nat, saved: bool)
      modifies this`record, this`file
      ensures record == Delivered(old(record), journal.epoch, through)
      ensures record.acked == old(record).acked
      ensures file == if saved && record != Rebased(old(record), journal.epoch) then Holds(record) else old(file)
    {
      Rebase();
      if through <= record.deliveredSeq { return; }
      record := record.(deliveredSeq := through);
      Save(saved);
    }

    method MarkReacted(through: nat, saved: bool)
      modifies this`record, this`file
      ensures record == Reacted(old(record), journal.epoch, through) && record.acked == old(record).acked
      ensures file == if saved && record != Rebased(old(record), journal.epoch) then Holds(record) else old(file)
    {
      Rebase();
      if through <= record.reactedSeq { return; }
      record := record.(reactedSeq := through);
      Save(saved);
    }

    method Ack(cursor: Presented, saved: bool) returns (a: AckAnswer)
      requires journal.Ok()
      modifies this`record, this`file
      ensures record == AckOf(old(record), journal.View(), cursor).record
      ensures a == AckOf(old(record), journal.View(), cursor).answer
      ensures file == if a.Moved? && saved then Holds(record) else old(file)
    {
      hide PageAfter, RowBytes;
      var probe := journal.ReadPage(Some(cursor), Some(1));
      if probe.Rejected? { return CursorRefused(probe.why); }
      var p := GetPosition();
      if probe.TooOld? { return NoOp(p.ackedSeq); }
      ProbeFindsThePlace(journal.View(), cursor);
      var through: nat := if probe.events == [] then probe.latest else probe.events[0].journalSeq - 1;
      if record.acked.epoch == journal.epoch && through <= record.acked.through { return NoOp(p.ackedSeq); }
      Rebase();
      record := record.(deliveredSeq := Max(record.deliveredSeq, through), ackedByLeader := true,
                        acked := Acked(journal.epoch, through, cursor.cursor));
      Save(saved);
      a := Moved(through);
    }
  }
}
