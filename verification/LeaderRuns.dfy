/** At-least-once delivery over whole runs. The journal lives on, the process restarts, saves fail,
    sessions begin, rows are pushed and left out, and a leader reads pages and gaps and acknowledges only
    cursors it was handed: the `nextCursor` of a page or of a push, or the `resumeCursor` of a gap.

    `Sys` carries history the program does not keep. A row is named by the creation of the journal it
    belongs to and its number there: `read` are the rows some page handed to the leader, `stated` those
    some gap or recovery declared gone, `notOwed` those older than a record that began at the head. `held`
    are the cursors the leader was handed, and `memGen`, `fileGen` the creations whose cursors the
    record in memory and the one on disk hold. */
module LeaderRuns {
  import opened Options
  import opened Text
  import opened JournalRows
  import opened Journal
  import J = JournalRuns
  import opened JournalFollow
  import opened LeaderRecord
  import opened LeaderPush
  import opened LeaderScan

  /** The controller and what became of the rows it scanned. `pushed` were handed to the client, and
      `omitted` and `echoed` left out, up to a cursor that was handed with them, one of `offered`; `over`
      and `kept` are those left out since the last such cursor; `skipped` were gone before a first scan and
      nothing had been said about them when it passed them. `issued` are the operations this project's
      leaders dispatched. */
  datatype Pushes = Pushes(
    ctl: Controller, issued: set<seq<Unit>>, pushed: set<Place>, omitted: set<Place>, echoed: set<Place>,
    skipped: set<Place>, over: set<Place>, kept: set<Place>, offered: set<(nat, Cursor)>)

  datatype Sys = Sys(
    j: J.Sys, record: Record, file: Stored, memGen: nat, fileGen: nat,
    read: set<Place>, stated: set<Place>, notOwed: set<Place>, held: set<(nat, Cursor)>, push: Pushes)

  /** What became of a dispatch: no client took it, one did but the controller never learned of it, or
      the controller settled it. */
  datatype Handover = Failed | Unanswered | Taken

  datatype Step =
    | Appending(append: J.Step)
    /** The process ends; journal and record are opened again. */
    | Restarting(restart: J.Step, damaged: bool, saved: bool)
    /** A session takes the project and its controller resumes. */
    | Starting
    /** The leader dispatches an operation of its own. */
    | Issuing(operation: seq<Unit>)
    /** A reconnect: from the acknowledged cursor, or a rewind to a cursor the leader holds. */
    | Reading(from: Option<(nat, Cursor)>, limit: nat)
    /** One round of the controller. `own` are the operations the echo guard remembers. What else
        happens while a dispatch is under way neither reads nor changes what its settlement does. */
    | Pushing(own: set<seq<Unit>>, handover: Handover)
    | Delivering(through: nat, saved: bool)
    | Reacting(through: nat, saved: bool)
    | Acking(token: (nat, Cursor), saved: bool)

  function RowsBetween(g: nat, after: nat, through: nat): set<Place> {
    set k | after < k <= through :: (g, k)
  }

  ghost function LastIn(j: J.Sys, g: nat): nat { if g < |j.logs| then |j.logs[g]| else 0 }

  /** Everything from right after place `at` of creation `g` to the oldest retained row. */
  ghost function GapBetween(j: J.Sys, g: nat, at: nat, resume: nat): set<Place> {
    set h, k | 0 <= h <= j.gen && 0 < k <= (if h == j.gen then resume else LastIn(j, h))
               && (h > g || (h == g && k > at)) :: (h, k)
  }

  /** The rows the leader was told of, or that were left out behind a cursor for what they are. */
  function Told(s: Sys): set<Place> {
    s.read + s.stated + s.notOwed + s.push.pushed + s.push.omitted + s.push.echoed
  }

  function Known(s: Sys): set<Place> { Told(s) + s.push.skipped }

  ghost predicate Covered(s: Sys, g: nat, n: nat) {
    forall k :: 0 < k <= n ==> (g, k) in Known(s)
  }

  ghost function Init(project: seq<Unit>, epoch: Epoch): Sys {
    var j := J.Init(project, epoch);
    Sys(j, Begin(j.mem), Holds(Begin(j.mem)), 0, 0, {}, {}, {}, {(0, CursorAt(j.mem, 0))},
        Pushes(Controller(None, 0, None, 0), {}, {}, {}, {}, {}, {}, {}, {}))
  }

  ghost predicate Can(s: Sys, step: Step) {
    match step
    case Appending(append) => append.Append? && J.Allowed(s.j, append)
    case Restarting(restart, _, _) => restart.Restart? && J.Allowed(s.j, restart)
    case Reading(from, limit) => limit >= 1 && (from.Some? ==> from.value in s.held)
    case Pushing(own, _) => own <= s.push.issued
    case Acking(token, _) => token in s.held
    case _ => true
  }

  ghost function AfterRead(s: Sys, token: (nat, Cursor), r: ReadResult): Sys {
    match r
    case Rejected(_) => s
    case Page(events, next, _, _, _) =>
      s.(read := s.read + RowsBetween(token.0, token.1.position, token.1.position + |events|),
         held := s.held + {(token.0, next)})
    case TooOld(_, _, resume) =>
      s.(stated := s.stated + GapBetween(s.j, token.0, token.1.position, resume.position),
         held := s.held + {(s.j.gen, resume)})
  }

  /** The rows a first scan steps over: owed, evicted, and in no gap that is still to be stated. */
  ghost function SteppedOver(j: J.Sys, ctl: Controller): set<Place>
    requires Valid(j.mem)
  {
    if ctl.position.Some? then {}
    else RowsBetween(j.gen, Max(ctl.floor, if ctl.gap.Some? then ctl.gap.value else 0), Start(ctl, j.mem))
  }

  /** The controller before a round: its floor raised to what was acknowledged meanwhile. */
  ghost function Raising(s: Sys): Sys {
    s.(push := s.push.(ctl := Raised(s.push.ctl, s.record, s.j.mem)))
  }

  /** And with the rows marked that a scan which gets past its page steps over untold. */
  ghost function Looking(s: Sys): Sys
    requires Valid(s.j.mem)
  {
    var t := Raising(s);
    t.(push := t.push.(skipped := t.push.skipped + (SteppedOver(t.j, t.push.ctl) - Told(t))))
  }

  /** What reaches the leader: a dispatch that carries a row of somebody else's doing, or a gap. */
  predicate HandsOver(scan: Scan, own: set<seq<Unit>>) {
    scan.Outgoing? && (Handed(scan.dispatch.events, own) != [] || scan.dispatch.gap.Some?)
  }

  /** The controller's place moves beyond the page, or the client has a cursor that does. */
  predicate GetsPast(scan: Scan, own: set<seq<Unit>>, h: Handover) {
    scan.Passed? || (scan.Outgoing? && (h.Taken? || (h.Unanswered? && HandsOver(scan, own))))
  }

  ghost function AfterScan(s: Sys, own: set<seq<Unit>>, h: Handover, scan: Scan): Sys {
    var p := s.push;
    match scan
    case Nothing => s
    case Passed(ctl, over) =>
      s.(push := p.(ctl := ctl, over := if ctl.omitted == 0 then {} else p.over + Places(s.j.gen, over)))
    case Outgoing(d, through, before, after) =>
      if h.Failed? then s
      else if Handed(d.events, own) == [] && d.gap.None? then
        if h.Taken? then EchoesOnly(s, own, d, through, before, after) else s
      else HandedOver(s, own, h, d, through, before, after)
  }

  /** Only the leader's own echoes: nothing is handed over, and the count stays for a later push. */
  ghost function EchoesOnly(
    s: Sys, own: set<seq<Unit>>, d: Dispatch, through: nat, before: seq<Row>, after: seq<Row>): Sys
  {
    var p := s.push;
    s.(push := p.(ctl := Controller(Some(through), p.ctl.floor, None, d.omitted + |after|),
                  over := p.over + Places(s.j.gen, before) + Places(s.j.gen, after),
                  kept := p.kept + Places(s.j.gen, KeptBack(d.events, own))))
  }

  /** The client has the rows, the cursor, the count and the gap; the controller may know it. */
  ghost function HandedOver(
    s: Sys, own: set<seq<Unit>>, h: Handover, d: Dispatch, through: nat, before: seq<Row>, after: seq<Row>): Sys
  {
    var g := s.j.gen;
    var p := s.push;
    var told := p.(pushed := p.pushed + Places(g, Handed(d.events, own)),
                   omitted := p.omitted + p.over + Places(g, before),
                   echoed := p.echoed + p.kept + Places(g, KeptBack(d.events, own)),
                   offered := p.offered + {(g, d.next)});
    s.(stated := s.stated + Recovered(s, d.gap),
       held := s.held + {(g, d.next)},
       push := if h.Taken? then
                 told.(ctl := Controller(Some(through), p.ctl.floor, None, |after|), over := Places(g, after), kept := {})
               else told)
  }

  /** A recovery names the oldest row it knew: what came before it in this journal is gone, and so is what
      an earlier one still owed. */
  ghost function Recovered(s: Sys, gap: Option<nat>): set<Place> {
    if gap.None? then {}
    else RowsBetween(s.j.gen, 0, gap.value) + GapBetween(s.j, s.memGen, s.record.acked.through, gap.value)
  }

  ghost function Next(s: Sys, step: Step): Sys
    requires J.Inv(s.j) && Can(s, step)
  {
    J.InvMeansValid(s.j);
    match step
    case Appending(append) => s.(j := J.Next(s.j, append))
    case Restarting(restart, damaged, saved) =>
      J.NextKeepsInv(s.j, restart);
      J.InvMeansValid(J.Next(s.j, restart));
      Started(Reopened(s, J.Next(s.j, restart), damaged, saved))
    case Starting => Started(s)
    case Issuing(operation) => s.(push := s.push.(issued := s.push.issued + {operation}))
    case Reading(from, limit) =>
      var token := if from.Some? then from.value else (s.memGen, s.record.acked.cursor);
      AfterRead(s, token, Read(s.j.mem, Some(Decoded(token.1)), limit))
    case Pushing(own, handover) =>
      var scan := ScanOf(Raising(s).push.ctl, s.j.mem);
      if GetsPast(scan, own, handover) then AfterScan(Looking(s), own, handover, scan) else Raising(s)
    case Delivering(through, saved) => Marked(s, Delivered(s.record, s.j.mem.epoch, through), saved)
    case Reacting(through, saved) => Marked(s, Reacted(s.record, s.j.mem.epoch, through), saved)
    case Acking(token, saved) =>
      var o := AckOf(s.record, s.j.mem, Decoded(token.1));
      if o.answer.Moved? then Saved(s.(record := o.record, memGen := token.0), saved) else s
  }

  ghost function Started(s: Sys): Sys
    requires Valid(s.j.mem)
  {
    s.(push := s.push.(ctl := Resumed(s.record, s.j.mem), over := {}, kept := {}))
  }

  /** A mark that does not move its position is not written. */
  ghost function Marked(s: Sys, r: Record, saved: bool): Sys {
    Saved(s.(record := r), saved && r != Rebased(s.record, s.j.mem.epoch))
  }

  ghost function Saved(s: Sys, saved: bool): Sys {
    if saved then s.(file := Holds(s.record), fileGen := s.memGen) else s
  }

  ghost function Reopened(s: Sys, j: J.Sys, damaged: bool, saved: bool): Sys {
    if s.file.Holds? && !damaged then s.(j := j, record := s.file.record, memGen := s.fileGen)
    else
      Saved(s.(j := j, record := Begin(j.mem), file := Unusable, memGen := j.gen,
               notOwed := s.notOwed + RowsBetween(j.gen, 0, j.mem.latest),
               held := s.held + {(j.gen, CursorAt(j.mem, j.mem.latest))}), saved)
  }

  ghost function Run(s: Sys, steps: seq<Step>): Sys
    requires J.Inv(s.j) && CanAll(s, steps)
    decreases |steps|
  {
    if steps == [] then s
    else (JournalStays(s, steps[0]); Run(Next(s, steps[0]), steps[1..]))
  }

  ghost predicate CanAll(s: Sys, steps: seq<Step>)
    requires J.Inv(s.j)
    decreases |steps|
  {
    steps == [] || (Can(s, steps[0]) && (JournalStays(s, steps[0]); CanAll(Next(s, steps[0]), steps[1..])))
  }

  lemma JournalStays(s: Sys, step: Step)
    requires J.Inv(s.j) && Can(s, step)
    ensures J.Inv(Next(s, step).j) && J.Grows(s.j, Next(s, step).j)
  {
    hide J.Inv, J.Next, J.Grows, J.Allowed, Read, AckOf, GapBetween, RowsBetween, Begin, Delivered, Reacted;
    Reflexive(s.j);
    match step
    case Appending(append) => J.NextKeepsInv(s.j, append); J.NextGrows(s.j, append);
    case Restarting(restart, _, _) => J.NextKeepsInv(s.j, restart); J.NextGrows(s.j, restart);
    case _ =>
  }

  lemma Reflexive(j: J.Sys)
    ensures J.Grows(j, j)
  {}

  // ---- the invariant --------------------------------------------------------------------------------

  /** A record's acknowledged cursor is one the leader was handed, and its number is the cursor's. */
  ghost predicate Anchored(s: Sys, r: Record, g: nat) {
    (g, r.acked.cursor) in s.held && r.acked.epoch == r.acked.cursor.epoch && r.acked.through == r.acked.cursor.position
  }

  ghost predicate HeldAreCovered(s: Sys) {
    forall t <- s.held :: J.MintedBy(s.j, t.1, t.0) && Covered(s, t.0, t.1.position)
  }

  /** Row `k` of the running journal is known, or the next push that is taken makes it so. */
  ghost predicate Pending(s: Sys, k: nat) {
    || (s.j.gen, k) in Known(s) + s.push.over + s.push.kept
    || (s.push.ctl.gap.Some? && k <= s.push.ctl.gap.value)
  }

  ghost predicate AllPending(s: Sys, n: nat) {
    forall k :: 0 < k <= n ==> Pending(s, k)
  }

  /** Nothing before the controller's place is lost, and its count is the number of rows it left out. */
  ghost predicate ControllerInv(s: Sys) { FloorInv(s) && PlaceInv(s) && CountInv(s) }

  ghost predicate FloorInv(s: Sys) {
    var n := |J.Current(s.j)|;
    && s.push.ctl.floor <= n && Covered(s, s.j.gen, s.push.ctl.floor)
    && (s.push.ctl.gap.Some? ==> s.push.ctl.gap.value <= n)
    && (s.push.ctl.position.Some? ==> s.push.ctl.position.value <= n)
  }

  ghost predicate PlaceInv(s: Sys) { s.push.ctl.position.Some? ==> AllPending(s, s.push.ctl.position.value) }

  ghost predicate CountInv(s: Sys) {
    && (forall p <- s.push.over + s.push.kept ::
          p.0 == s.j.gen && s.push.ctl.position.Some? && p.1 <= s.push.ctl.position.value)
    && |s.push.over| == s.push.ctl.omitted
  }

  ghost predicate InLog(j: J.Sys, p: Place) { p.0 < |j.logs| && 0 < p.1 <= |j.logs[p.0]| }

  ghost function EventAt(j: J.Sys, p: Place): Event
    requires InLog(j, p)
  {
    j.logs[p.0][p.1 - 1].event
  }

  ghost predicate IsPushable(j: J.Sys, p: Place) { InLog(j, p) && !RoutineSuccess(EventAt(j, p)) }

  ghost predicate IsRoutine(j: J.Sys, p: Place) { InLog(j, p) && RoutineSuccess(EventAt(j, p)) }

  ghost predicate IsEcho(j: J.Sys, p: Place, issued: set<seq<Unit>>) { InLog(j, p) && OwnDoing(EventAt(j, p), issued) }

  /** `p` lies before a cursor some push handed over. */
  ghost predicate Behind(offered: set<(nat, Cursor)>, p: Place) {
    exists t :: t in offered && t.0 == p.0 && p.1 <= t.1.position
  }

  /** What the histories of a push contain. */
  ghost predicate LeftOutInv(s: Sys) { LeftOutKinds(s) && LeftOutBehind(s) }

  ghost predicate LeftOutKinds(s: Sys) {
    && (forall p <- s.push.pushed :: IsPushable(s.j, p))
    && (forall p <- s.push.omitted + s.push.over :: IsRoutine(s.j, p))
    && (forall p <- s.push.echoed + s.push.kept :: IsPushable(s.j, p) && IsEcho(s.j, p, s.push.issued))
  }

  ghost predicate LeftOutBehind(s: Sys) {
    && (forall p <- s.push.pushed + s.push.omitted + s.push.echoed :: Behind(s.push.offered, p))
    && s.push.offered <= s.held
  }

  ghost predicate Inv(s: Sys) {
    && J.Inv(s.j)
    && HeldAreCovered(s)
    && Anchored(s, s.record, s.memGen)
    && (s.file.Holds? ==> Anchored(s, s.file.record, s.fileGen))
    && ControllerInv(s)
    && LeftOutInv(s)
  }

  lemma InitInv(project: seq<Unit>, epoch: Epoch)
    ensures Inv(Init(project, epoch))
  {
    J.InitInv(project, epoch);
  }

  lemma StillCovered(s: Sys, t: Sys)
    requires HeldAreCovered(s) && J.Grows(s.j, t.j) && t.held == s.held && Known(s) <= Known(t)
    ensures HeldAreCovered(t)
  {
    forall x | x in t.held ensures J.MintedBy(t.j, x.1, x.0) && Covered(t, x.0, x.1.position) {
      assert J.MintedBy(s.j, x.1, x.0) && Covered(s, x.0, x.1.position);
    }
  }

  lemma OneMoreHeld(s: Sys, t: Sys, token: (nat, Cursor))
    requires HeldAreCovered(s) && J.Grows(s.j, t.j) && t.held == s.held + {token} && Known(s) <= Known(t)
    requires J.MintedBy(t.j, token.1, token.0) && Covered(t, token.0, token.1.position)
    ensures HeldAreCovered(t)
  {
    StillCovered(s, t.(held := s.held));
  }

  lemma PendingStays(s: Sys, t: Sys)
    requires Known(s) <= Known(t) && s.j.gen == t.j.gen && s.push.over <= t.push.over && s.push.kept <= t.push.kept
    requires s.push.ctl.gap == t.push.ctl.gap
    ensures forall k :: Pending(s, k) ==> Pending(t, k)
  {
    hide Known;
  }

  lemma CurrentGrows(j: J.Sys, k: J.Sys)
    requires J.Grows(j, k) && j.gen == k.gen && |j.logs| == j.gen + 1 == |k.logs|
    ensures |J.Current(j)| <= |J.Current(k)|
  {}

  /** A step that leaves the controller and its histories alone. */
  lemma ControllerStays(s: Sys, t: Sys)
    requires ControllerInv(s) && LeftOutInv(s) && J.Grows(s.j, t.j) && t.j.gen == s.j.gen
    requires |s.j.logs| == s.j.gen + 1 == |t.j.logs|
    requires t.push == s.push.(issued := t.push.issued, skipped := t.push.skipped) && s.push.issued <= t.push.issued
    requires Known(s) <= Known(t) && s.held <= t.held
    ensures ControllerInv(t) && LeftOutInv(t)
  {
    hide Known, J.Grows, Pending, LeftOutInv;
    HistoryStays(s, t);
    CurrentGrows(s.j, t.j);
    PendingStays(s, t);
  }

  lemma EventsStay(j: J.Sys, k: J.Sys, p: Place)
    requires J.Grows(j, k) && InLog(j, p)
    ensures InLog(k, p) && EventAt(k, p) == EventAt(j, p)
  {
    assert j.logs[p.0] == k.logs[p.0][..|j.logs[p.0]|];
  }

  lemma HistoryStays(s: Sys, t: Sys)
    requires LeftOutInv(s) && J.Grows(s.j, t.j) && s.push.issued <= t.push.issued && s.held <= t.held
    requires t.push.pushed == s.push.pushed && t.push.omitted == s.push.omitted && t.push.echoed == s.push.echoed
    requires t.push.offered == s.push.offered && t.push.over <= s.push.over && t.push.kept <= s.push.kept
    ensures LeftOutInv(t)
  {
    hide J.Grows, InLog, EventAt, RoutineSuccess, Behind;
    forall p | p in t.push.pushed ensures IsPushable(t.j, p) { EventsStay(s.j, t.j, p); }
    forall p | p in t.push.omitted + t.push.over ensures IsRoutine(t.j, p) {
      assert IsRoutine(s.j, p);
      EventsStay(s.j, t.j, p);
    }
    forall p | p in t.push.echoed + t.push.kept ensures IsPushable(t.j, p) && IsEcho(t.j, p, t.push.issued) {
      assert IsEcho(s.j, p, s.push.issued);
      EventsStay(s.j, t.j, p);
    }
  }

  /** A step that leaves the controller and its histories alone, the journal too. */
  lemma ControllerStaysHere(s: Sys, t: Sys)
    requires J.Inv(s.j) && ControllerInv(s) && LeftOutInv(s) && t.j == s.j && t.push == s.push
    requires Known(s) <= Known(t) && s.held <= t.held
    ensures ControllerInv(t) && LeftOutInv(t)
  {
    Reflexive(s.j);
    Shape(s.j);
    hide J.Inv;
    ControllerStays(s, t);
  }

  lemma PageKeepsInv(s: Sys, token: (nat, Cursor), r: ReadResult)
    requires Inv(s) && token in s.held && r.Page?
    requires J.MintedBy(s.j, token.1, token.0) && J.Replays(s.j, token.1, token.0, r)
    ensures Inv(AfterRead(s, token, r))
  {
    hide J.Inv, ControllerInv, LeftOutInv;
    var t := AfterRead(s, token, r);
    Reflexive(s.j);
    forall k | 0 < k <= r.next.position ensures (token.0, k) in Known(t) {
      if k <= token.1.position { assert Covered(s, token.0, token.1.position); }
    }
    OneMoreHeld(s, t, (token.0, r.next));
    ControllerStaysHere(s, t);
  }

  lemma GapKeepsInv(s: Sys, token: (nat, Cursor), r: ReadResult)
    requires Inv(s) && token in s.held && r.TooOld? && J.MintedBy(s.j, token.1, token.0)
    requires r.resume == CursorAt(s.j.mem, r.resume.position) && r.resume.position <= |J.Current(s.j)|
    requires token.0 <= s.j.gen
    ensures Inv(AfterRead(s, token, r))
  {
    hide J.LogInv, J.FileInv, ControllerInv, LeftOutInv;
    var t := AfterRead(s, token, r);
    Reflexive(s.j);
    var g := s.j.gen;
    forall k | 0 < k <= r.resume.position ensures (g, k) in Known(t) {
      if token.0 == g && k <= token.1.position { assert Covered(s, token.0, token.1.position); }
      else { assert (g, k) in GapBetween(s.j, token.0, token.1.position, r.resume.position); }
    }
    hide J.Inv, GapBetween, J.Grows;
    assert J.MintedBy(s.j, r.resume, g) by { ResumeIsMinted(s.j, r.resume); }
    OneMoreHeld(s, t, (g, r.resume));
    ControllerStaysHere(s, t);
  }

  lemma ResumeIsMinted(j: J.Sys, c: Cursor)
    requires J.Inv(j) && c == CursorAt(j.mem, c.position) && c.position <= |J.Current(j)|
    ensures J.MintedBy(j, c, j.gen)
  {}

  lemma ReadingKeepsInv(s: Sys, step: Step)
    requires Inv(s) && Can(s, step) && step.Reading? && J.Trustworthy(s.j)
    ensures Inv(Next(s, step))
  {
    var token := if step.from.Some? then step.from.value else (s.memGen, s.record.acked.cursor);
    assert token in s.held && J.MintedBy(s.j, token.1, token.0);
    J.ReadMeans(s.j, token.1, token.0, step.limit);
    var r := Read(s.j.mem, Some(Decoded(token.1)), step.limit);
    hide Read, J.Trustworthy;
    if r.Page? { PageKeepsInv(s, token, r); }
    if r.TooOld? {
      GapFacts(s.j, token.1, step.limit);
      assert token.0 <= s.j.gen by { MintedInTime(s.j, token.1, token.0); }
      GapKeepsInv(s, token, r);
    }
  }

  lemma MintedInTime(j: J.Sys, c: Cursor, g: nat)
    requires J.Inv(j) && J.MintedBy(j, c, g)
    ensures g <= j.gen
  {}

  lemma GapFacts(j: J.Sys, c: Cursor, limit: nat)
    requires J.Inv(j) && Valid(j.mem) && Read(j.mem, Some(Decoded(c)), limit).TooOld?
    ensures var resume := Read(j.mem, Some(Decoded(c)), limit).resume;
      resume == CursorAt(j.mem, resume.position) && resume.position == |J.Current(j)| - |j.mem.rows|
  {
    hide PageAfter, J.Numbered, J.FileInv, J.MintInv;
    if j.mem.rows != [] { assert j.mem.rows[0].journalSeq == j.mem.latest - |j.mem.rows| + 1; }
  }

  /** What an acknowledgement does to the state. */
  lemma AckStep(s: Sys, step: Step)
    requires J.Inv(s.j) && Can(s, step) && step.Acking? && step.token.1.project == s.j.mem.project
    ensures var t := Next(s, step);
      var c := step.token.1;
      || t == s
      || (&& t == s.(record := t.record, memGen := step.token.0, file := t.file, fileGen := t.fileGen)
          && t.record.acked == Acked(s.j.mem.epoch, c.position, c) && c.epoch == s.j.mem.epoch
          && (s.record.acked.epoch != s.j.mem.epoch || c.position > s.record.acked.through)
          && (!step.saved ==> t.file == s.file && t.fileGen == s.fileGen)
          && ((t.file == s.file && t.fileGen == s.fileGen) || (t.file == Holds(t.record) && t.fileGen == t.memGen)))
  {
    hide J.Inv, AckOf;
    J.InvMeansValid(s.j);
    AckMeans(s.record, s.j.mem, step.token.1);
  }

  lemma HeldIsOurs(s: Sys, token: (nat, Cursor))
    requires HeldAreCovered(s) && token in s.held
    ensures token.1.project == s.j.mem.project && J.MintedBy(s.j, token.1, token.0)
  {
    hide Covered;
  }

  lemma AckingKeepsInv(s: Sys, step: Step)
    requires Inv(s) && Can(s, step) && step.Acking?
    ensures Inv(Next(s, step))
  {
    hide J.Inv, ControllerInv, LeftOutInv, HeldAreCovered, Next, Known, J.Grows;
    HeldIsOurs(s, step.token);
    AckStep(s, step);
    var t := Next(s, step);
    Reflexive(s.j);
    KnownOfParts(s, t);
    StillCovered(s, t);
    ControllerStaysHere(s, t);
  }

  lemma SameEpochSameCreation(j: J.Sys, c: Cursor, g: nat)
    requires J.Inv(j) && J.Trustworthy(j) && J.MintedBy(j, c, g)
    ensures c.epoch == j.mem.epoch <==> g == j.gen
  {
    assert (c.epoch, g) in j.minted && (j.mem.epoch, j.gen) in j.minted;
  }

  /** The place the record says is owed after is a place everything before which is known. */
  lemma OwedIsCovered(s: Sys)
    requires J.Inv(s.j) && J.Trustworthy(s.j) && HeldAreCovered(s) && Anchored(s, s.record, s.memGen)
    ensures Owed(s.record, s.j.mem) <= |J.Current(s.j)| && Covered(s, s.j.gen, Owed(s.record, s.j.mem))
  {
    var c := s.record.acked.cursor;
    assert (s.memGen, c) in s.held && J.MintedBy(s.j, c, s.memGen) && Covered(s, s.memGen, c.position);
    SameEpochSameCreation(s.j, c, s.memGen);
    hide J.FileInv, J.MintInv, J.Numbered, Known;
  }

  lemma StartedKeepsInv(s: Sys)
    requires J.Inv(s.j) && J.Trustworthy(s.j) && HeldAreCovered(s) && Anchored(s, s.record, s.memGen) && LeftOutInv(s)
    ensures Valid(s.j.mem) && ControllerInv(Started(s)) && LeftOutInv(Started(s)) && HeldAreCovered(Started(s))
  {
    hide J.Inv, J.Trustworthy, J.SuffixOf, InOrder, J.Grows, Known, LeftOutInv, HeldAreCovered, Owed, J.Current;
    OwedIsCovered(s);
    Shape(s.j);
    FirstIsLatestMinusKept(s.j.mem);
    Reflexive(s.j);
    HistoryStays(s, Started(s));
    KnownOfParts(s, Started(s));
    StillCovered(s, Started(s));
  }

  lemma RestartingKeepsInv(s: Sys, step: Step)
    requires Inv(s) && Can(s, step) && step.Restarting? && J.Trustworthy(Next(s, step).j)
    ensures Inv(Next(s, step))
  {
    hide J.Allowed, J.Next, ControllerInv, LeftOutInv, J.Trustworthy, Resumed;
    var j := J.Next(s.j, step.restart);
    J.NextKeepsInv(s.j, step.restart);
    J.NextGrows(s.j, step.restart);
    J.InvMeansValid(j);
    var t := Reopened(s, j, step.damaged, step.saved);
    if s.file.Holds? && !step.damaged {
      StillCovered(s, t);
    } else {
      ResumeIsMinted(j, CursorAt(j.mem, j.mem.latest));
      hide J.LogInv, J.FileInv, J.MintInv, J.Grows;
      OneMoreHeld(s, t, (j.gen, CursorAt(j.mem, j.mem.latest)));
    }
    ReopenedStarts(s, t, j, step);
  }

  lemma ReopenedStarts(s: Sys, t: Sys, j: J.Sys, step: Step)
    requires LeftOutInv(s) && J.Grows(s.j, j) && J.Inv(j) && J.Trustworthy(j) && step.Restarting?
    requires t == Reopened(s, j, step.damaged, step.saved) && HeldAreCovered(t) && Anchored(t, t.record, t.memGen)
    requires t.file.Holds? ==> Anchored(t, t.file.record, t.fileGen)
    ensures Valid(j.mem) && Inv(Started(t))
  {
    hide J.Inv, J.Grows, J.Trustworthy, ControllerInv, HeldAreCovered;
    J.InvMeansValid(j);
    HistoryStays(s, t);
    StartedKeepsInv(t);
  }

  // ---- one round of the controller ------------------------------------------------------------------

  lemma RaisedKeepsInv(s: Sys)
    requires Inv(s) && J.Trustworthy(s.j)
    ensures Valid(s.j.mem) && Inv(Raising(s))
  {
    hide J.Inv, J.Trustworthy, J.SuffixOf, InOrder, J.Grows, Known, LeftOutInv, HeldAreCovered, Owed, J.Current, Pending;
    OwedIsCovered(s);
    Shape(s.j);
    var t := Raising(s);
    KnownOfParts(s, t);
    PendingStays(s, t);
    Reflexive(s.j);
    HistoryStays(s, t);
    StillCovered(s, t);
  }

  lemma KnownOfParts(s: Sys, t: Sys)
    requires s.read == t.read && s.stated == t.stated && s.notOwed == t.notOwed && s.push.pushed == t.push.pushed
    requires s.push.omitted == t.push.omitted && s.push.echoed == t.push.echoed && s.push.skipped == t.push.skipped
    ensures Known(s) == Known(t)
  {}

  lemma SkippingKeepsInv(s: Sys, more: set<Place>)
    requires Inv(s)
    ensures Inv(s.(push := s.push.(skipped := s.push.skipped + more)))
  {
    var t := s.(push := s.push.(skipped := s.push.skipped + more));
    Reflexive(s.j);
    Shape(s.j);
    assert Known(s) <= Known(t);
    hide J.Inv, J.Grows, Known, ControllerInv, LeftOutInv;
    StillCovered(s, t);
    ControllerStays(s, t);
  }

  lemma LookingKeepsInv(s: Sys)
    requires Inv(s) && J.Trustworthy(s.j)
    ensures Valid(s.j.mem) && Inv(Looking(s)) && Start(Looking(s).push.ctl, s.j.mem) <= |J.Current(s.j)|
    ensures AllPending(Looking(s), Start(Looking(s).push.ctl, s.j.mem))
  {
    RaisedKeepsInv(s);
    hide J.Trustworthy, Raised, Inv;
    var raised := Raising(s);
    SkippingKeepsInv(raised, SteppedOver(s.j, raised.push.ctl) - Told(raised));
    LookingPending(Looking(s));
  }

  lemma LookingPending(t: Sys)
    requires Inv(t) && Valid(t.j.mem) && SteppedOver(t.j, t.push.ctl) <= Known(t)
    ensures Start(t.push.ctl, t.j.mem) <= |J.Current(t.j)| && AllPending(t, Start(t.push.ctl, t.j.mem))
  {
    Shape(t.j);
    hide J.Inv, J.SuffixOf, InOrder, HeldAreCovered, LeftOutInv, CountInv, SteppedOver;
    var ctl := t.push.ctl;
    if ctl.position.None? {
      forall k | 0 < k <= Start(ctl, t.j.mem) ensures Pending(t, k) {
        if k > Max(ctl.floor, if ctl.gap.Some? then ctl.gap.value else 0) { IsSteppedOver(t.j, ctl, k); }
        else if k <= ctl.floor { assert (t.j.gen, k) in Known(t); }
      }
    }
  }

  lemma IsSteppedOver(j: J.Sys, ctl: Controller, k: nat)
    requires Valid(j.mem) && ctl.position.None?
    requires Max(ctl.floor, if ctl.gap.Some? then ctl.gap.value else 0) < k <= Start(ctl, j.mem)
    ensures (j.gen, k) in SteppedOver(j, ctl)
  {}

  /** A step that changes the controller's own state and what waits for a push. */
  ghost predicate OnlyWaiting(s: Sys, t: Sys) {
    t == s.(push := s.push.(ctl := t.push.ctl, over := t.push.over, kept := t.push.kept))
  }

  lemma WaitingKeepsInv(s: Sys, t: Sys, over: set<Place>, kept: set<Place>)
    requires Inv(s) && OnlyWaiting(s, t) && t.push.ctl.floor == s.push.ctl.floor
    requires t.push.over <= s.push.over + over && t.push.kept <= s.push.kept + kept
    requires forall p <- over :: IsRoutine(s.j, p)
    requires forall p <- kept :: IsPushable(s.j, p) && IsEcho(s.j, p, s.push.issued)
    requires t.push.ctl.gap == s.push.ctl.gap || (t.push.ctl.gap.Some? && t.push.ctl.gap.value <= |J.Current(s.j)|)
    requires t.push.ctl.position.Some? ==> t.push.ctl.position.value <= |J.Current(s.j)|
    requires PlaceInv(t) && CountInv(t)
    ensures Inv(t)
  {
    hide J.Inv, J.Grows, PlaceInv, CountInv, IsRoutine, IsEcho, IsPushable, Behind;
    assert Known(t) == Known(s);
    hide Known;
    Reflexive(s.j);
    StillCovered(s, t);
  }

  /** The place of the scan is gone: a gap is owed, and what was counted is part of it. */
  lemma LostPlaceKeepsInv(s: Sys, gone: nat)
    requires Inv(s) && gone <= |J.Current(s.j)| && (s.push.ctl.position.Some? ==> s.push.ctl.position.value <= gone)
    ensures Inv(AfterScan(s, {}, Failed,
                          Passed(s.push.ctl.(position := Some(gone), omitted := 0, gap := Some(gone)), [])))
  {
    var t := s.(push := s.push.(ctl := s.push.ctl.(position := Some(gone), omitted := 0, gap := Some(gone)), over := {}));
    hide J.Inv, J.Grows, HeldAreCovered, LeftOutInv, FloorInv, Known;
    WaitingKeepsInv(s, t, {}, {});
  }

  /** What became of the rows of one page: handed over, kept back as echoes, routine up to the cursor at
      `c`, routine after it. */
  ghost predicate Parts(
    j: J.Sys, own: set<seq<Unit>>, floor: nat, at: nat, c: nat, to: nat,
    handed: set<Place>, echoes: set<Place>, before: set<Place>, after: set<Place>)
  {
    && at <= c <= to <= |J.Current(j)|
    && AllParts(j.gen, floor, at, c, to, handed + echoes + before, after)
    && PartKinds(j, own, at, c, to, handed, echoes, before, after)
  }

  ghost predicate AllParts(g: nat, floor: nat, at: nat, c: nat, to: nat, inside: set<Place>, after: set<Place>) {
    && (forall k :: at < k <= c && floor < k ==> (g, k) in inside)
    && (forall k :: c < k <= to && floor < k ==> (g, k) in after)
  }

  ghost predicate PartKinds(
    j: J.Sys, own: set<seq<Unit>>, at: nat, c: nat, to: nat,
    handed: set<Place>, echoes: set<Place>, before: set<Place>, after: set<Place>)
  {
    && (forall p <- handed :: p.0 == j.gen && at < p.1 <= c && IsPushable(j, p) && !IsEcho(j, p, own))
    && (forall p <- echoes :: p.0 == j.gen && at < p.1 <= c && IsPushable(j, p) && IsEcho(j, p, own))
    && (forall p <- before :: p.0 == j.gen && at < p.1 <= c && IsRoutine(j, p))
    && (forall p <- after :: p.0 == j.gen && c < p.1 <= to && IsRoutine(j, p))
  }

  lemma RecoveredIsKnown(s: Sys, k: nat)
    requires Inv(s) && s.push.ctl.gap.Some? && 0 < k <= s.push.ctl.gap.value
    ensures (s.j.gen, k) in Known(s) + Recovered(s, s.push.ctl.gap)
  {}

  lemma MorePending(s: Sys, t: Sys, at: nat, c: nat, to: nat, own: set<seq<Unit>>,
                    echoes: set<Place>, before: set<Place>, after: set<Place>)
    requires Inv(s) && AllPending(s, at) && OnlyWaiting(s, t) && t.push.ctl.gap == s.push.ctl.gap
    requires Parts(s.j, own, s.push.ctl.floor, at, c, to, {}, echoes, before, after)
    requires t.push.over == s.push.over + before + after && t.push.kept == s.push.kept + echoes
    ensures AllPending(t, to)
  {
    hide J.Inv, HeldAreCovered, LeftOutInv, PlaceInv, CountInv, PartKinds, Known;
    KnownOfParts(s, t);
    PendingStays(s, t);
    forall k | 0 < k <= to ensures Pending(t, k) {
      if k <= at { assert Pending(s, k); }
      else if k <= s.push.ctl.floor { assert (s.j.gen, k) in Known(s); }
      else if k <= c { assert (s.j.gen, k) in echoes + before; }
    }
  }

  /** The count after more rows were left out. */
  lemma CountAfter(
    s: Sys, t: Sys, own: set<seq<Unit>>, at: nat, c: nat, to: nat, echoes: set<Place>, before: set<Place>, after: set<Place>)
    requires CountInv(s) && (s.push.ctl.position.Some? ==> s.push.ctl.position.value <= at) && at <= c <= to
    requires PartKinds(s.j, own, at, c, to, {}, echoes, before, after) && t.j == s.j
    requires t.push.over == s.push.over + before + after && t.push.kept == s.push.kept + echoes
    requires t.push.ctl.position == Some(to) && t.push.ctl.omitted == s.push.ctl.omitted + |before| + |after|
    ensures CountInv(t)
  {
    hide IsRoutine, IsEcho, IsPushable;
    assert s.push.over !! before && s.push.over + before !! after;
  }

  lemma WaitingParts(
    s: Sys, t: Sys, own: set<seq<Unit>>, at: nat, c: nat, to: nat, echoes: set<Place>, before: set<Place>, after: set<Place>)
    requires Inv(s) && AllPending(s, at) && (s.push.ctl.position.Some? ==> s.push.ctl.position.value <= at)
    requires Parts(s.j, own, s.push.ctl.floor, at, c, to, {}, echoes, before, after) && own <= s.push.issued
    requires OnlyWaiting(s, t) && t.push.over == s.push.over + before + after && t.push.kept == s.push.kept + echoes
    requires t.push.ctl == Controller(Some(to), s.push.ctl.floor, s.push.ctl.gap, s.push.ctl.omitted + |before| + |after|)
    ensures Inv(t)
  {
    assert CountInv(t) by { hide FloorInv, PlaceInv, LeftOutInv, HeldAreCovered, J.Inv; CountAfter(s, t, own, at, c, to, echoes, before, after); }
    assert PlaceInv(t) by {
      hide FloorInv, LeftOutInv, HeldAreCovered, J.Inv, CountInv, AllPending;
      MorePending(s, t, at, c, to, own, echoes, before, after);
    }
    EchoesStay(s, own);
    hide FloorInv, LeftOutInv, HeldAreCovered, J.Inv, CountInv, PlaceInv, AllParts, IsRoutine, IsEcho, IsPushable;
    WaitingKeepsInv(s, t, before + after, echoes);
  }

  lemma PassedKeepsInv(s: Sys, at: nat, to: nat, over: seq<Row>)
    requires Inv(s) && AllPending(s, at) && (s.push.ctl.position.Some? ==> s.push.ctl.position.value <= at)
    requires Parts(s.j, {}, s.push.ctl.floor, at, to, to, {}, {}, Places(s.j.gen, over), {})
    requires |Places(s.j.gen, over)| == |over|
    ensures Inv(AfterScan(s, {}, Failed,
                          Passed(s.push.ctl.(position := Some(to), omitted := s.push.ctl.omitted + |over|), over)))
  {
    hide Inv, Parts, Places, AllPending, OnlyWaiting, AfterScan;
    var none: set<Place> := {};
    AfterPassing(s, to, over);
    var ctl := s.push.ctl.(position := Some(to), omitted := s.push.ctl.omitted + |over|);
    WaitingParts(s, AfterScan(s, {}, Failed, Passed(ctl, over)), {}, at, to, to, none, Places(s.j.gen, over), none);
  }

  lemma AfterPassing(s: Sys, to: nat, over: seq<Row>)
    requires Inv(s) && |Places(s.j.gen, over)| == |over|
    ensures var ctl := s.push.ctl.(position := Some(to), omitted := s.push.ctl.omitted + |over|);
      var t := AfterScan(s, {}, Failed, Passed(ctl, over));
      && OnlyWaiting(s, t) && t.push.ctl == ctl
      && t.push.over == s.push.over + Places(s.j.gen, over) + {} && t.push.kept == s.push.kept + {}
  {
    hide J.Inv, FloorInv, PlaceInv, LeftOutInv, HeldAreCovered, Places;
    if s.push.ctl.omitted + |over| == 0 { assert s.push.over == {} && Places(s.j.gen, over) == {}; }
  }

  lemma EchoesKeepInv(s: Sys, own: set<seq<Unit>>, at: nat, d: Dispatch, through: nat, before: seq<Row>, after: seq<Row>)
    requires Inv(s) && AllPending(s, at) && own <= s.push.issued && s.push.ctl.gap.None?
    requires s.push.ctl.position.Some? ==> s.push.ctl.position.value <= at
    requires Parts(s.j, own, s.push.ctl.floor, at, d.next.position, through, {}, Places(s.j.gen, KeptBack(d.events, own)),
                   Places(s.j.gen, before), Places(s.j.gen, after))
    requires |Places(s.j.gen, before)| == |before| && |Places(s.j.gen, after)| == |after|
    requires d.omitted == s.push.ctl.omitted + |before|
    ensures Inv(EchoesOnly(s, own, d, through, before, after))
  {
    hide Inv, Parts, Places, AllPending, KeptBack;
    WaitingParts(s, EchoesOnly(s, own, d, through, before, after), own, at, d.next.position, through,
                 Places(s.j.gen, KeptBack(d.events, own)), Places(s.j.gen, before), Places(s.j.gen, after));
  }

  lemma EchoesStay(s: Sys, own: set<seq<Unit>>)
    requires own <= s.push.issued
    ensures forall p :: IsEcho(s.j, p, own) ==> IsEcho(s.j, p, s.push.issued)
  {}

  lemma HandingOverCovers(
    s: Sys, own: set<seq<Unit>>, h: Handover, at: nat, d: Dispatch, through: nat, before: seq<Row>, after: seq<Row>)
    requires Inv(s) && AllPending(s, at) && d.gap == s.push.ctl.gap
    requires Parts(s.j, own, s.push.ctl.floor, at, d.next.position, through, Places(s.j.gen, Handed(d.events, own)),
                   Places(s.j.gen, KeptBack(d.events, own)), Places(s.j.gen, before), Places(s.j.gen, after))
    ensures Known(s) <= Known(HandedOver(s, own, h, d, through, before, after))
    ensures Covered(HandedOver(s, own, h, d, through, before, after), s.j.gen, d.next.position)
  {
    hide J.Inv, PartKinds, HeldAreCovered, LeftOutInv, GapBetween, Places, Handed, KeptBack;
    var t := HandedOver(s, own, h, d, through, before, after);
    forall k | 0 < k <= d.next.position ensures (s.j.gen, k) in Known(t) {
      if k <= at {
        assert Pending(s, k);
        if s.push.ctl.gap.Some? && k <= s.push.ctl.gap.value { RecoveredIsKnown(s, k); }
      } else if k <= s.push.ctl.floor {
        assert (s.j.gen, k) in Known(s);
      }
    }
  }

  lemma HandedOverKeepsInv(
    s: Sys, own: set<seq<Unit>>, h: Handover, at: nat, d: Dispatch, through: nat, before: seq<Row>, after: seq<Row>)
    requires Inv(s) && AllPending(s, at) && own <= s.push.issued && d.gap == s.push.ctl.gap
    requires s.push.ctl.position.Some? ==> s.push.ctl.position.value <= at
    requires Parts(s.j, own, s.push.ctl.floor, at, d.next.position, through, Places(s.j.gen, Handed(d.events, own)),
                   Places(s.j.gen, KeptBack(d.events, own)), Places(s.j.gen, before), Places(s.j.gen, after))
    requires |Places(s.j.gen, after)| == |after| && d.next == CursorAt(s.j.mem, d.next.position)
    ensures Inv(HandedOver(s, own, h, d, through, before, after))
  {
    hide Places, Handed, KeptBack, AllParts, PartKinds, AllPending, HeldAreCovered, LeftOutInv, FloorInv, PlaceInv,
         CountInv, Known, Recovered, J.Inv, J.Grows;
    var t := HandedOver(s, own, h, d, through, before, after);
    Reflexive(s.j);
    HandingOverCovers(s, own, h, at, d, through, before, after);
    ResumeIsMinted(s.j, d.next);
    LeftOutAfterHandover(s, own, h, at, d, through, before, after);
    OneMoreHeld(s, t, (s.j.gen, d.next));
    ControllerAfterHandover(s, own, h, at, d, through, before, after);
  }

  lemma ControllerAfterHandover(
    s: Sys, own: set<seq<Unit>>, h: Handover, at: nat, d: Dispatch, through: nat, before: seq<Row>, after: seq<Row>)
    requires Inv(s)
    requires Parts(s.j, own, s.push.ctl.floor, at, d.next.position, through, Places(s.j.gen, Handed(d.events, own)),
                   Places(s.j.gen, KeptBack(d.events, own)), Places(s.j.gen, before), Places(s.j.gen, after))
    requires |Places(s.j.gen, after)| == |after|
    requires Known(s) <= Known(HandedOver(s, own, h, d, through, before, after))
    requires Covered(HandedOver(s, own, h, d, through, before, after), s.j.gen, d.next.position)
    ensures ControllerInv(HandedOver(s, own, h, d, through, before, after))
  {
    hide J.Inv, HeldAreCovered, LeftOutInv, Known, Recovered, IsRoutine, IsEcho, IsPushable, Places, Handed, KeptBack;
    var t := HandedOver(s, own, h, d, through, before, after);
    if h.Taken? {
      forall k | 0 < k <= through ensures Pending(t, k) {
        if d.next.position < k <= s.push.ctl.floor { assert (s.j.gen, k) in Known(s); }
        else if k <= d.next.position { assert (s.j.gen, k) in Known(t); }
      }
    } else {
      PendingStays(s, t);
    }
  }

  lemma LeftOutAfterHandover(
    s: Sys, own: set<seq<Unit>>, h: Handover, at: nat, d: Dispatch, through: nat, before: seq<Row>, after: seq<Row>)
    requires Inv(s) && own <= s.push.issued && (s.push.ctl.position.Some? ==> s.push.ctl.position.value <= at)
    requires Parts(s.j, own, s.push.ctl.floor, at, d.next.position, through, Places(s.j.gen, Handed(d.events, own)),
                   Places(s.j.gen, KeptBack(d.events, own)), Places(s.j.gen, before), Places(s.j.gen, after))
    ensures LeftOutInv(HandedOver(s, own, h, d, through, before, after))
  {
    hide J.Inv, AllParts, IsRoutine, IsEcho, IsPushable, HeldAreCovered, FloorInv, PlaceInv, Known, Recovered, Places,
         Handed, KeptBack, Behind;
    var t := HandedOver(s, own, h, d, through, before, after);
    MoreLeftOut(s, t, own, (s.j.gen, d.next), at, through, Places(s.j.gen, Handed(d.events, own)),
                Places(s.j.gen, KeptBack(d.events, own)), Places(s.j.gen, before), Places(s.j.gen, after));
  }

  lemma MoreLeftOut(
    s: Sys, t: Sys, own: set<seq<Unit>>, token: (nat, Cursor), at: nat, to: nat,
    handed: set<Place>, echoes: set<Place>, before: set<Place>, after: set<Place>)
    requires LeftOutInv(s) && CountInv(s) && t.j == s.j && token.0 == s.j.gen && own <= s.push.issued == t.push.issued
    requires s.push.ctl.position.Some? ==> s.push.ctl.position.value <= at
    requires at <= token.1.position && PartKinds(s.j, own, at, token.1.position, to, handed, echoes, before, after)
    requires t.push.pushed == s.push.pushed + handed && t.push.omitted == s.push.omitted + s.push.over + before
    requires t.push.echoed == s.push.echoed + s.push.kept + echoes
    requires t.push.over <= s.push.over + after && t.push.kept <= s.push.kept
    requires t.push.offered == s.push.offered + {token} && t.held == s.held + {token}
    ensures LeftOutInv(t)
  {
    hide IsRoutine, IsEcho, IsPushable, Behind, LeftOutKinds;
    MoreLeftOutKinds(s, t, own, token.1.position, at, to, handed, echoes, before, after);
    forall p | p in t.push.pushed + t.push.omitted + t.push.echoed ensures Behind(t.push.offered, p) {
      if p in s.push.pushed + s.push.omitted + s.push.echoed { StillBehind(s.push.offered, t.push.offered, p); }
      else { BehindToken(t.push.offered, token, p); }
    }
  }

  lemma MoreLeftOutKinds(
    s: Sys, t: Sys, own: set<seq<Unit>>, c: nat, at: nat, to: nat,
    handed: set<Place>, echoes: set<Place>, before: set<Place>, after: set<Place>)
    requires LeftOutKinds(s) && t.j == s.j && own <= s.push.issued == t.push.issued
    requires PartKinds(s.j, own, at, c, to, handed, echoes, before, after)
    requires t.push.pushed == s.push.pushed + handed
    requires t.push.omitted == s.push.omitted + s.push.over + before
    requires t.push.echoed == s.push.echoed + s.push.kept + echoes
    requires t.push.over <= s.push.over + after && t.push.kept <= s.push.kept
    ensures LeftOutKinds(t)
  {
    EchoesStay(s, own);
    hide IsRoutine, IsEcho, IsPushable;
  }

  lemma StillBehind(offered: set<(nat, Cursor)>, more: set<(nat, Cursor)>, p: Place)
    requires Behind(offered, p) && offered <= more
    ensures Behind(more, p)
  {
    var x :| x in offered && x.0 == p.0 && p.1 <= x.1.position;
    assert x in more;
  }

  lemma BehindToken(offered: set<(nat, Cursor)>, token: (nat, Cursor), p: Place)
    requires token in offered && token.0 == p.0 && p.1 <= token.1.position
    ensures Behind(offered, p)
  {}

  lemma EventHere(j: J.Sys, k: nat)
    requires |j.logs| == j.gen + 1 && 0 < k <= |J.Current(j)|
    ensures InLog(j, (j.gen, k)) && EventAt(j, (j.gen, k)) == J.Current(j)[k - 1].event
  {}

  /** The four parts of a dispatched page, as places. */
  lemma PartsOfPage(
    j: J.Sys, own: set<seq<Unit>>, floor: nat, at: nat, to: nat, d: Dispatch, before: seq<Row>, after: seq<Row>)
    requires J.Inv(j) && at <= d.next.position <= to <= |J.Current(j)|
    requires Exactly(d.events, J.Current(j), Max(at, floor), d.next.position, true)
    requires Exactly(d.events, J.Current(j), Max(at, floor), to, true)
    requires Exactly(before, J.Current(j), Max(at, floor), d.next.position, false)
    requires Exactly(after, J.Current(j), Max(d.next.position, floor), to, false)
    ensures Parts(j, own, floor, at, d.next.position, to, Places(j.gen, Handed(d.events, own)),
                  Places(j.gen, KeptBack(d.events, own)), Places(j.gen, before), Places(j.gen, after))
  {
    Shape(j);
    hide J.Inv, Exactly, InOrder, J.SuffixOf, J.Current, Places, Handed, KeptBack, PartKinds;
    var log := J.Current(j);
    var c := d.next.position;
    var lo := Max(at, floor);
    forall k | at < k <= c && floor < k
      ensures (j.gen, k) in Places(j.gen, Handed(d.events, own)) + Places(j.gen, KeptBack(d.events, own)) + Places(j.gen, before)
    {
      IsHandedOrBefore(j.gen, d, own, before, log, lo, k);
    }
    forall k | c < k <= to && floor < k ensures (j.gen, k) in Places(j.gen, after) {
      IsAfter(j.gen, d, after, log, lo, floor, to, k);
    }
    KindsOfPage(j, own, lo, at, floor, to, d, before, after);
  }

  lemma KindsOfPage(
    j: J.Sys, own: set<seq<Unit>>, lo: nat, at: nat, floor: nat, to: nat, d: Dispatch, before: seq<Row>, after: seq<Row>)
    requires |j.logs| == j.gen + 1 && at <= lo && InOrder(J.Current(j))
    requires Exactly(d.events, J.Current(j), lo, d.next.position, true)
    requires Exactly(before, J.Current(j), lo, d.next.position, false)
    requires Exactly(after, J.Current(j), Max(d.next.position, floor), to, false)
    ensures PartKinds(j, own, at, d.next.position, to, Places(j.gen, Handed(d.events, own)),
                      Places(j.gen, KeptBack(d.events, own)), Places(j.gen, before), Places(j.gen, after))
  {
    hide Exactly, RoutineSuccess, OwnDoing, InOrder, J.Current, Places, InLog, EventAt, Handed, KeptBack;
    var log := J.Current(j);
    var c := d.next.position;
    HandedAre(j.gen, d.events, own, log, lo, c);
    PlacesAre(j.gen, d.events, log, lo, c, true);
    PlacesAre(j.gen, before, log, lo, c, false);
    PlacesAre(j.gen, after, log, Max(c, floor), to, false);
    forall p | p in Places(j.gen, d.events) + Places(j.gen, before) + Places(j.gen, after)
      ensures p.0 == j.gen && 0 < p.1 <= |log| && InLog(j, p) && EventAt(j, p) == log[p.1 - 1].event
    {
      EventHere(j, p.1);
    }
  }

  lemma IsHandedOrBefore(
    g: nat, d: Dispatch, own: set<seq<Unit>>, before: seq<Row>, log: seq<Row>, lo: nat, k: nat)
    requires Exactly(d.events, log, lo, d.next.position, true) && Exactly(before, log, lo, d.next.position, false)
    requires InOrder(log) && lo < k <= d.next.position && k <= |log|
    ensures (g, k) in Places(g, Handed(d.events, own)) + Places(g, KeptBack(d.events, own)) + Places(g, before)
  {
    hide Exactly, RoutineSuccess, InOrder, Handed, KeptBack, Places;
    if !RoutineSuccess(log[k - 1].event) {
      InPlaces(g, d.events, log, lo, d.next.position, true, k);
      HandedOrKept(g, d.events, own, log[k - 1]);
    } else {
      InPlaces(g, before, log, lo, d.next.position, false, k);
    }
  }

  lemma IsAfter(g: nat, d: Dispatch, after: seq<Row>, log: seq<Row>, lo: nat, floor: nat, to: nat, k: nat)
    requires Exactly(d.events, log, lo, d.next.position, true) && Exactly(d.events, log, lo, to, true)
    requires Exactly(after, log, Max(d.next.position, floor), to, false)
    requires InOrder(log) && Max(lo, Max(d.next.position, floor)) < k <= to <= |log|
    ensures (g, k) in Places(g, after)
  {
    hide Exactly, RoutineSuccess, InOrder, Places;
    if !RoutineSuccess(log[k - 1].event) {
      InPlaces(g, d.events, log, lo, to, true, k);
      NotBeyond(d.events, log, lo, d.next.position, log[k - 1]);
    } else {
      InPlaces(g, after, log, Max(d.next.position, floor), to, false, k);
    }
  }

  lemma NotBeyond(rows: seq<Row>, log: seq<Row>, from: nat, to: nat, r: Row)
    requires Exactly(rows, log, from, to, true) && r in rows
    ensures r.journalSeq <= to
  {}

  lemma HandedOrKept(g: nat, rows: seq<Row>, own: set<seq<Unit>>, r: Row)
    requires r in rows
    ensures (g, r.journalSeq) in Places(g, Handed(rows, own)) + Places(g, KeptBack(rows, own))
  {
    assert r in Handed(rows, own) || r in KeptBack(rows, own);
  }

  lemma HandedAre(g: nat, rows: seq<Row>, own: set<seq<Unit>>, log: seq<Row>, from: nat, to: nat)
    requires Exactly(rows, log, from, to, true)
    ensures forall p <- Places(g, Handed(rows, own)) :: p in Places(g, rows) && 0 < p.1 <= |log| && !OwnDoing(log[p.1 - 1].event, own)
    ensures forall p <- Places(g, KeptBack(rows, own)) :: p in Places(g, rows) && 0 < p.1 <= |log| && OwnDoing(log[p.1 - 1].event, own)
  {
    hide Echo, OwnDoing, RoutineSuccess;
    forall r: Row ensures Echo(r.event, own) <==> OwnDoing(r.event, own) { EchoMeans(r.event, own); }
    forall p | p in Places(g, Handed(rows, own))
      ensures p in Places(g, rows) && 0 < p.1 <= |log| && !OwnDoing(log[p.1 - 1].event, own)
    {
      var r :| r in Handed(rows, own) && p == (g, r.journalSeq);
      assert Genuine(log, r);
    }
    forall p | p in Places(g, KeptBack(rows, own))
      ensures p in Places(g, rows) && 0 < p.1 <= |log| && OwnDoing(log[p.1 - 1].event, own)
    {
      var r :| r in KeptBack(rows, own) && p == (g, r.journalSeq);
      assert Genuine(log, r);
    }
  }

  lemma PushingKeepsInv(s: Sys, step: Step)
    requires Inv(s) && Can(s, step) && step.Pushing? && J.Trustworthy(s.j)
    ensures Inv(Next(s, step))
  {
    hide Inv, Looking, Raising, ScanOf, AfterScan, AllPending, J.Trustworthy, Start, J.Inv, GetsPast;
    InvJournal(s);
    RaisedKeepsInv(s);
    LookingKeepsInv(s);
    SameScan(s);
    ScanKeepsInv(Looking(s), step.own, step.handover);
  }

  lemma SameScan(s: Sys)
    requires Valid(s.j.mem)
    ensures var t := Looking(s);
      && t.push.ctl == Raising(s).push.ctl && t.j == s.j && t.push.issued == s.push.issued && t.held == s.held
      && t.push.pushed == s.push.pushed && t.push.omitted == s.push.omitted
  {}

  lemma InvJournal(s: Sys)
    requires Inv(s)
    ensures J.Inv(s.j) && (s.push.ctl.position.Some? ==> s.push.ctl.position.value <= |J.Current(s.j)|)
  {}

  lemma ScanKeepsInv(s: Sys, own: set<seq<Unit>>, h: Handover)
    requires Inv(s) && own <= s.push.issued && Valid(s.j.mem)
    requires Start(s.push.ctl, s.j.mem) <= |J.Current(s.j)| && AllPending(s, Start(s.push.ctl, s.j.mem))
    ensures Inv(AfterScan(s, own, h, ScanOf(s.push.ctl, s.j.mem)))
  {
    hide Inv, AllPending, AfterScan, ScanOf, ScanPage, J.Inv, InOrder;
    InvJournal(s);
    var ctl := s.push.ctl;
    var n := ScanReads(s.j, ctl);
    var at := Start(ctl, s.j.mem);
    var gone := |J.Current(s.j)| - |s.j.mem.rows|;
    if at < gone {
      LostPlaceKeepsInv(s, gone);
      PassedAnyway(s, own, h, ctl.(position := Some(gone), omitted := 0, gap := Some(gone)), []);
    } else {
      PageIsSplit(ctl, s.j.mem, J.Current(s.j), at, n);
      match ScanOf(ctl, s.j.mem)
      case Nothing => NothingHappens(s, own, h);
      case Passed(c, over) => PassedPage(s, own, h, at, n, over);
      case Outgoing(d, through, before, after) => OutgoingKeepsInv(s, own, h, at, d, through, before, after);
    }
  }

  lemma PassedAnyway(s: Sys, own: set<seq<Unit>>, h: Handover, ctl: Controller, over: seq<Row>)
    ensures AfterScan(s, own, h, Passed(ctl, over)) == AfterScan(s, {}, Failed, Passed(ctl, over))
  {}

  lemma NothingHappens(s: Sys, own: set<seq<Unit>>, h: Handover)
    ensures AfterScan(s, own, h, Nothing) == s
  {}

  lemma PassedPage(s: Sys, own: set<seq<Unit>>, h: Handover, at: nat, n: nat, over: seq<Row>)
    requires Inv(s) && AllPending(s, at) && at + n <= |J.Current(s.j)| && Increasing(over)
    requires s.push.ctl.position.Some? ==> s.push.ctl.position.value <= at
    requires Exactly(over, J.Current(s.j), Max(at, s.push.ctl.floor), at + n, false)
    requires Exactly([], J.Current(s.j), Max(at, s.push.ctl.floor), at + n, true)
    ensures Inv(AfterScan(s, own, h,
                          Passed(s.push.ctl.(position := Some(at + n), omitted := s.push.ctl.omitted + |over|), over)))
  {
    hide Inv, AllPending, AfterScan, J.Inv, Parts, Exactly, Increasing;
    InvJournal(s);
    PlacesCount(s.j.gen, over);
    PartsOfQuietPage(s.j, s.push.ctl.floor, at, at + n, over);
    PassedKeepsInv(s, at, at + n, over);
    PassedAnyway(s, own, h, s.push.ctl.(position := Some(at + n), omitted := s.push.ctl.omitted + |over|), over);
  }

  lemma PartsOfQuietPage(j: J.Sys, floor: nat, at: nat, to: nat, over: seq<Row>)
    requires J.Inv(j) && at <= to <= |J.Current(j)|
    requires Exactly(over, J.Current(j), Max(at, floor), to, false)
    requires Exactly([], J.Current(j), Max(at, floor), to, true)
    ensures Parts(j, {}, floor, at, to, to, {}, {}, Places(j.gen, over), {})
  {
    Shape(j);
    hide J.Inv, Exactly, RoutineSuccess, InOrder, J.SuffixOf, J.Current, Places, PartKinds;
    var log := J.Current(j);
    forall k | at < k <= to && floor < k ensures (j.gen, k) in Places(j.gen, over) {
      if !RoutineSuccess(log[k - 1].event) { InPlaces(j.gen, [], log, Max(at, floor), to, true, k); }
      else { InPlaces(j.gen, over, log, Max(at, floor), to, false, k); }
    }
    KindsOfQuietPage(j, Max(at, floor), at, to, over);
  }

  lemma KindsOfQuietPage(j: J.Sys, lo: nat, at: nat, to: nat, over: seq<Row>)
    requires |j.logs| == j.gen + 1 && at <= lo && Exactly(over, J.Current(j), lo, to, false)
    ensures PartKinds(j, {}, at, to, to, {}, {}, Places(j.gen, over), {})
  {
    hide Exactly, RoutineSuccess, J.Current, Places, InLog, EventAt;
    PlacesAre(j.gen, over, J.Current(j), lo, to, false);
    forall p | p in Places(j.gen, over) ensures IsRoutine(j, p) { EventHere(j, p.1); }
  }

  lemma OutgoingKeepsInv(
    s: Sys, own: set<seq<Unit>>, h: Handover, at: nat, d: Dispatch, through: nat, before: seq<Row>, after: seq<Row>)
    requires Inv(s) && AllPending(s, at) && own <= s.push.issued && d.gap == s.push.ctl.gap
    requires s.push.ctl.position.Some? ==> s.push.ctl.position.value <= at
    requires at <= d.next.position <= through <= |J.Current(s.j)| && d.next == CursorAt(s.j.mem, d.next.position)
    requires d.omitted == s.push.ctl.omitted + |before| && Increasing(before) && Increasing(after)
    requires Exactly(d.events, J.Current(s.j), Max(at, s.push.ctl.floor), d.next.position, true)
    requires Exactly(d.events, J.Current(s.j), Max(at, s.push.ctl.floor), through, true)
    requires Exactly(before, J.Current(s.j), Max(at, s.push.ctl.floor), d.next.position, false)
    requires Exactly(after, J.Current(s.j), Max(d.next.position, s.push.ctl.floor), through, false)
    ensures Inv(AfterScan(s, own, h, Outgoing(d, through, before, after)))
  {
    hide Inv, AllPending, J.Inv, Parts, Exactly, Increasing, EchoesOnly, HandedOver;
    InvJournal(s);
    PlacesCount(s.j.gen, before);
    PlacesCount(s.j.gen, after);
    PartsOfPage(s.j, own, s.push.ctl.floor, at, through, d, before, after);
    if !h.Failed? {
      if Handed(d.events, own) == [] && d.gap.None? {
        assert Places(s.j.gen, Handed(d.events, own)) == {};
        EchoesKeepInv(s, own, at, d, through, before, after);
      } else {
        HandedOverKeepsInv(s, own, h, at, d, through, before, after);
      }
    }
  }

  lemma NextKeepsInv(s: Sys, step: Step)
    requires Inv(s) && Can(s, step) && J.Trustworthy(s.j) && J.Trustworthy(Next(s, step).j)
    ensures Inv(Next(s, step))
  {
    match step
    case Reading(_, _) => ReadingKeepsInv(s, step);
    case Acking(_, _) => AckingKeepsInv(s, step);
    case Restarting(_, _, _) => RestartingKeepsInv(s, step);
    case Starting =>
      StartedKeepsInv(s);
    case Pushing(_, _) => PushingKeepsInv(s, step);
    case _ => OthersKeepInv(s, step);
  }

  lemma OthersKeepInv(s: Sys, step: Step)
    requires Inv(s) && Can(s, step) && (step.Appending? || step.Issuing? || step.Delivering? || step.Reacting?)
    ensures Inv(Next(s, step))
  {
    hide J.Inv, J.Allowed, J.Grows, ControllerInv, LeftOutInv, HeldAreCovered, InOrder, J.SuffixOf, Next, Known;
    JournalStays(s, step);
    var t := Next(s, step);
    Shape(s.j);
    Shape(t.j);
    LittleChanges(s, step);
    KnownOfParts(s, t);
    StillCovered(s, t);
    ControllerStays(s, t);
  }

  lemma LittleChanges(s: Sys, step: Step)
    requires J.Inv(s.j) && Can(s, step) && (step.Appending? || step.Issuing? || step.Delivering? || step.Reacting?)
    ensures var t := Next(s, step);
      && t == s.(j := t.j, record := t.record, file := t.file, fileGen := t.fileGen, push := s.push.(issued := t.push.issued))
      && t.j.gen == s.j.gen && s.push.issued <= t.push.issued && t.record.acked == s.record.acked
      && ((t.file == s.file && t.fileGen == s.fileGen) || (t.file == Holds(t.record) && t.fileGen == s.memGen))
  {
    hide J.Inv, J.Allowed;
  }

  /** At-least-once: in every reachable state, each row up to the acknowledged place, in memory and on
      disk, was handed to the leader, lies in a gap it was told of, or is older than its record. */
  lemma {:induction false} RunKeepsInv(s: Sys, steps: seq<Step>)
    requires Inv(s) && CanAll(s, steps) && J.Trustworthy(Run(s, steps).j)
    ensures Inv(Run(s, steps)) && J.Grows(s.j, Run(s, steps).j)
    decreases |steps|
  {
    hide HeldAreCovered, Anchored, J.Grows, Next, Can, J.Inv, J.Trustworthy;
    if steps == [] {
      Reflexive(s.j);
    } else {
      JournalStays(s, steps[0]);
      var t := Next(s, steps[0]);
      GrowsToTheEnd(t, steps[1..]);
      J.GrowsOn(s.j, t.j, Run(s, steps).j);
      TrustGoesBack(s.j, Run(s, steps).j);
      TrustGoesBack(t.j, Run(s, steps).j);
      NextKeepsInv(s, steps[0]);
      RunKeepsInv(t, steps[1..]);
    }
  }

  lemma TrustGoesBack(j: J.Sys, k: J.Sys)
    requires J.Grows(j, k) && J.Trustworthy(k)
    ensures J.Trustworthy(j)
  {}

  lemma {:induction false} GrowsToTheEnd(s: Sys, steps: seq<Step>)
    requires J.Inv(s.j) && CanAll(s, steps)
    ensures J.Grows(s.j, Run(s, steps).j)
    decreases |steps|
  {
    hide J.Grows, Next, Can, J.Inv;
    if steps == [] {
      Reflexive(s.j);
    } else {
      JournalStays(s, steps[0]);
      GrowsToTheEnd(Next(s, steps[0]), steps[1..]);
      J.GrowsOn(s.j, Next(s, steps[0]).j, Run(s, steps).j);
    }
  }
}
