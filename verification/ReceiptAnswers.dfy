/** What a caller is told, for every call, every effect that ends and every read that comes back. */
module ReceiptAnswers {
  import opened Options
  import opened Receipts
  import opened ReceiptReads
  import opened ReceiptRuns
  import opened ReceiptSafety

  /** How an outcome is told: the unverified ones with their date and reason, the others as they are. */
  ghost predicate Told(a: Option<Answer>, startedAt: int, outcome: Outcome, replayed: bool) {
    match outcome
    case Unverified(code) => a == Some(NotVerified(startedAt, code))
    case _ => a == Some(Settled(outcome, replayed))
  }

  /** Nothing but the set of live keys is different. */
  ghost predicate OnlyLive(s: Sys, t: Sys) { t == s.(mem := s.mem.(live := t.mem.live)) }

  /** A call under a key that has a receipt: a conflict when action or payload differ, else the stored
      outcome, else that it is under way; and only a dangling intent is asked about. */
  lemma RetryAnswers(s: Sys, req: Request, now: int, refusal: Option<string>, w: Write)
    requires req.key in s.mem.receipts
    ensures var stored := s.mem.receipts[req.key];
      var t := OnCall(s, req, now, refusal, w);
      && OnlyLive(s, t.sys)
      && if stored.action != req.action then t == Turn(s, Some(Conflict(stored.action, stored.startedAt, true)))
         else if stored.digest != req.digest then t == Turn(s, Some(Conflict(stored.action, stored.startedAt, false)))
         else if stored.outcome.Some? then t.sys == s && Told(t.answer, stored.startedAt, stored.outcome.value, true)
         else if req.key in s.mem.live then t == Turn(s, Some(InProgress(stored.startedAt)))
         else t.answer.None? && t.sys.mem.live == s.mem.live[req.key := Settling(stored)]
  {}

  /** A call under a key that has none: that it is being asked about, with the date the asking began; or it
      is asked about because the journal was damaged; or it is a first attempt. */
  lemma UnknownAnswers(s: Sys, req: Request, now: int, refusal: Option<string>, w: Write)
    requires req.key !in s.mem.receipts
    ensures var t := OnCall(s, req, now, refusal, w);
      if req.key in s.mem.live then
        && t.sys == s
        && (match s.mem.live[req.key]
            case Asking(_, at) => t.answer == Some(InProgress(at))
            case Running(intent, _) => t.answer == Some(InProgress(intent.startedAt))
            case Settling(intent) => t.answer == Some(InProgress(intent.startedAt)))
      else if s.mem.quarantined > 0 then
        OnlyLive(s, t.sys) && t.answer.None? && t.sys.mem.live == s.mem.live[req.key := Asking(req, now)]
      else FirstAnswers(s, req, now, refusal, w, t)
  {
    hide FirstAttempt, FirstAnswers;
    AttemptAnswers(s, req, now, refusal, w);
  }

  /** A first attempt: refused, it says so and is remembered as refused; with an intent that cannot be
      written it is refused for that and nothing is remembered; else it starts, and the intent is kept. */
  ghost predicate FirstAnswers(s: Sys, req: Request, at: int, refusal: Option<string>, w: Write, t: Turn) {
    if refusal.Some? then
      && t.answer == Some(Settled(Rejected(refusal.value), false)) && t.sys.mem.live == s.mem.live && t.sys.ran == s.ran
      && t.sys.mem.receipts ==
         s.mem.receipts[req.key := Receipt(req.key, req.action, req.digest, Some(Rejected(refusal.value)), at, None)]
    else if !w.done then
      t.answer == Some(Unavailable) && t.sys.mem.live == s.mem.live && t.sys.mem.receipts == s.mem.receipts && t.sys.ran == s.ran
    else
      var intent := Receipt(req.key, req.action, req.digest, None, at, Some(req.reconcile));
      && t.answer.None? && t.sys.mem.live == s.mem.live[req.key := Running(intent, false)]
      && t.sys.mem.receipts == s.mem.receipts[req.key := intent] && t.sys.ran == s.ran + multiset{req.key}
  }

  /** An effect that reports is told as it reported and remembered; one that throws is asked about, with
      nothing told yet. */
  lemma EndingAnswers(s: Sys, key: Key, report: Report, w: Write)
    requires key in s.mem.live && s.mem.live[key].Running?
    ensures var t := OnEnds(s, key, report, w);
      var intent := s.mem.live[key].intent;
      match report
      case Throws => OnlyLive(s, t.sys) && t.answer.None? && t.sys.mem.live == s.mem.live[key := Settling(intent)]
      case Reports(outcome) =>
        && Told(t.answer, intent.startedAt, outcome, false) && t.sys.mem.live == s.mem.live - {key}
        && t.sys.mem.receipts == s.mem.receipts[intent.key := intent.(outcome := Some(outcome), reconcile := None)]
  {
    hide Chunk, Join;
  }

  // ---- what a read makes known ----------------------------------------------------------------------

  /** The read was made and the run it predicts is in the index. */
  ghost predicate Found(s: Sys, p: Option<Predicate>, answered: bool) {
    answered && p.Some? && p.value.RunByKey? && exists run :: run in s.index && run.id == p.value.predictedRunId
  }

  /** The read was made and the index denies that run under the date `at`. */
  ghost predicate Denied(s: Sys, p: Option<Predicate>, at: int, answered: bool) {
    answered && p.Some? && p.value.RunByKey? && Denies(s.index, p.value.predictedRunId, at)
  }

  function WhyNot(p: Option<Predicate>, answered: bool): string {
    if p.None? || !p.value.RunByKey? then "no reconciler" else if !answered then "reconciler_failed" else "run index pruned"
  }

  /** A dangling intent whose read comes back: "it happened" if and only if the run is in the index, "it
      did not" if and only if the index denies it under the intent's own date, and otherwise that nobody
      knows, with that date; the first two are remembered. */
  lemma SettlingAnswers(s: Sys, key: Key, intent: Receipt, answered: bool, refusal: Option<string>, w: Write)
    requires key in s.mem.live && s.mem.live[key] == Settling(intent)
    requires key in s.mem.receipts ==> s.mem.receipts[key].outcome.None?
    ensures var t := OnAsked(s, key, answered, refusal, w);
      var found, denied := Found(s, intent.reconcile, answered), Denied(s, intent.reconcile, intent.startedAt, answered);
      && t.sys.mem.live == s.mem.live - {key}
      && (found ==> SettledAs(s, t, intent, Ok(ResultRef("run", intent.reconcile.value.predictedRunId))))
      && (denied ==> SettledAs(s, t, intent, NotApplied("reconciled not applied")))
      && (!found && !denied ==>
            OnlyLive(s, t.sys) && t.answer == Some(NotVerified(intent.startedAt, WhyNot(intent.reconcile, answered))))
      && !(found && denied)
  {
    hide Chunk, Join, Found, Denied, Reconciled, ReadOf, WhyNot, SettledAs, Recorded;
    TheRead(s, intent.reconcile, intent.startedAt, answered);
    ReconciledAnswers(Idle(s, key), key, intent, ReadOf(s.index, intent.reconcile, intent.startedAt, answered), w);
    SettledAlike(s, Idle(s, key));
  }

  lemma ReconciledAnswers(s: Sys, key: Key, intent: Receipt, verdict: Verdict, w: Write)
    requires key in s.mem.receipts ==> s.mem.receipts[key].outcome.None?
    ensures var t := Reconciled(s, key, intent, verdict, w);
      && t.sys.mem.live == s.mem.live
      && (match verdict
          case Happened(ref) => SettledAs(s, t, intent, Ok(ref))
          case DidNotHappen => SettledAs(s, t, intent, NotApplied("reconciled not applied"))
          case CannotTell(reason) => t == Turn(s, Some(NotVerified(intent.startedAt, reason))))
  {
    hide Chunk, Join;
  }

  lemma SettledAlike(s: Sys, u: Sys)
    requires s.mem.receipts == u.mem.receipts
    ensures forall t, intent, outcome :: SettledAs(s, t, intent, outcome) <==> SettledAs(u, t, intent, outcome)
  {}

  ghost predicate SettledAs(s: Sys, t: Turn, intent: Receipt, outcome: Outcome) {
    && t.answer == Some(Settled(outcome, true))
    && t.sys.mem.receipts == s.mem.receipts[intent.key := intent.(outcome := Some(outcome), reconcile := None)]
  }

  lemma TheRead(s: Sys, p: Option<Predicate>, at: int, answered: bool)
    ensures var v := ReadOf(s.index, p, at, answered);
      && (v.Happened? <==> Found(s, p, answered))
      && (v.Happened? ==> v.ref == ResultRef("run", p.value.predictedRunId))
      && (v.DidNotHappen? <==> Denied(s, p, at, answered))
      && (v.CannotTell? ==> v.reason == WhyNot(p, answered))
  {
    hide Bound, Denies;
    if p.Some? && p.value.RunByKey? { DeniedIff(s.index, p.value.predictedRunId, at); }
  }

  /** If somebody settled it meanwhile, what was settled is told, unless this read could not tell. */
  lemma SettledMeanwhile(s: Sys, key: Key, intent: Receipt, answered: bool, refusal: Option<string>, w: Write)
    requires key in s.mem.live && s.mem.live[key] == Settling(intent)
    requires key in s.mem.receipts && s.mem.receipts[key].outcome.Some?
    ensures var t := OnAsked(s, key, answered, refusal, w);
      var current := s.mem.receipts[key];
      && OnlyLive(s, t.sys) && t.sys.mem.live == s.mem.live - {key}
      && if Found(s, intent.reconcile, answered) || Denied(s, intent.reconcile, intent.startedAt, answered) then
           Told(t.answer, current.startedAt, current.outcome.value, true)
         else t.answer == Some(NotVerified(intent.startedAt, WhyNot(intent.reconcile, answered)))
  {
    hide Denies, RunLookup;
    TheRead(s, intent.reconcile, intent.startedAt, answered);
  }

  /** A miss of a damaged journal whose read comes back: settled as it happened, or unknown because of the
      damage, or, when the index denies the run under the call's date, a first attempt. */
  lemma MissAnswers(s: Sys, key: Key, answered: bool, refusal: Option<string>, w: Write)
    requires key in s.mem.live && s.mem.live[key].Asking? && s.mem.live[key].request.key == key
    ensures var Asking(req, at) := s.mem.live[key];
      var t := OnAsked(s, key, answered, refusal, w);
      var idle := s.(mem := s.mem.(live := s.mem.live - {key}));
      var found, denied := Found(s, Some(req.reconcile), answered), Denied(s, Some(req.reconcile), at, answered);
      && (found ==>
            SettledAs(idle, t, Receipt(key, req.action, req.digest, None, at, None), Ok(ResultRef("run", req.reconcile.predictedRunId)))
            && t.sys.mem.live == idle.mem.live)
      && (denied ==> FirstAnswers(idle, req, at, refusal, w, t))
      && (!found && !denied ==> t == Turn(idle, Some(NotVerified(at, "journal_damaged"))))
  {
    hide Chunk, Join, Found, Denied, ReadOf, FirstAttempt, FirstAnswers;
    var Asking(req, at) := s.mem.live[key];
    TheRead(s, Some(req.reconcile), at, answered);
    var doubted := Doubted(Idle(s, key), key, refusal, w);
    AttemptAnswers(doubted, req, at, refusal, w);
    AnsweredAlike(Idle(s, key), doubted, req, at, refusal, w, FirstAttempt(doubted, req, at, refusal, w));
  }

  lemma AttemptAnswers(s: Sys, req: Request, at: int, refusal: Option<string>, w: Write)
    ensures FirstAnswers(s, req, at, refusal, w, FirstAttempt(s, req, at, refusal, w))
  {
    hide Chunk, Join;
  }

  lemma AnsweredAlike(s: Sys, u: Sys, req: Request, at: int, refusal: Option<string>, w: Write, t: Turn)
    requires u == s.(denied := u.denied) && FirstAnswers(u, req, at, refusal, w, t)
    ensures FirstAnswers(s, req, at, refusal, w, t)
  {}

  // ---- what the next process knows ------------------------------------------------------------------

  /** A line that was written whole leaves the journal ready for the next, which adds its own line only; a
      journal that had none begins with its header. */
  lemma NextLineIsAlone(s: Sys, r: Receipt, w: Write, other: Receipt, again: Write)
    requires w.done && again.done && s.disk.tail.None?
    ensures var t := Appended(s, r, w);
      && Appended(t, other, again).disk == Text(t.disk.lines + [Entry(other)], None)
      && t.disk.lines == s.disk.lines + (if s.mem.needsNewline then [Blank] else [])
                         + (if s.mem.started then [] else [Header(w.generation)]) + [Entry(r)]
  {}

  /** Behind a torn line the next append starts on a line of its own, so the torn one costs only itself. */
  lemma TornLineCostsItself(s: Sys, r: Receipt, w: Write)
    requires w.done && s.disk.tail.Some? && s.mem.needsNewline && s.mem.started
    ensures Appended(s, r, w).disk == Text(s.disk.lines + [s.disk.tail.value, Entry(r)], None)
    ensures !Appended(s, r, w).mem.needsNewline
  {}

  /** The background pass asks about a dangling intent that nobody asks about, and leaves every other key. */
  lemma BackgroundAsks(s: Sys, key: Key)
    ensures var t := OnBackground(s, key);
      && OnlyLive(s, t) && t.mem.live - {key} == s.mem.live - {key}
      && (key in s.mem.receipts && key !in s.mem.live ==>
            key in t.mem.live && t.mem.live[key] == Settling(s.mem.receipts[key].(outcome := None)))
      && (key !in s.mem.receipts || key in s.mem.live ==> t.mem.live == s.mem.live)
  {}

  /** A compaction whose file is written leaves a journal that has begun and is not torn. */
  lemma CompactLeavesAJournal(s: Sys, step: Step)
    requires step.Compact?
    ensures var t := OnCompact(s, step);
      && t.mem.live == s.mem.live && t.ran == s.ran && t.applied == s.applied
      && (step.journal ==> t.mem.started && !t.mem.needsNewline && t.since == 0 && t.disk.tail == None)
      && (!step.journal ==> t.disk == s.disk && t.snap == s.snap && t.since == s.since)
      && (t.closed <==> s.closed || step.closing)
  {
    hide Kept, Entries, Survivors;
  }

  /** A restart knows what the journal says and nothing else: of readable files the latest line of every
      key, how many lines are lost and whether the last one is torn; of unreadable ones that one thing is
      lost, dated now; and of deleted ones nothing. No effect is running then. */
  lemma RestartKnows(s: Sys, now: int, opening: Opening)
    requires Inv(s)
    ensures var t := OnRestart(s, now, opening);
      && t.mem.live == map[] && !t.closed
      && (match opening
          case Normal =>
            && t.mem.receipts == Folded(s.disk.lines) && t.disk == s.disk
            && t.mem.quarantined == Marks(s.disk.lines) + Bad(s.disk.lines) + (if s.disk.tail.Some? then 1 else 0)
            && t.mem.started == (s.disk != EMPTY) && t.mem.needsNewline == s.disk.tail.Some?
          case Unreadable =>
            && t.mem == Store(map[], map[], 1, Some(now), false, false) && t.disk == s.disk && t.since == 0
          case Deleted => t.mem == NOTHING && t.disk == EMPTY && t.snap == None && t.since == 0)
  {
    hide Tells, Covers, RanInv, AppliedInv, MemInv, LiveInv, Scans, Folded, Bad, Marks, MarkedAt;
    if opening.Normal? {
      ShortcutTaken(s, now);
      NoLines();
      assert map[] + Folded(s.disk.lines) == Folded(s.disk.lines);
    }
  }

  /** The places of a stretch of lines that are not blank. */
  ghost function Written(lines: seq<Line>, from: nat, to: nat): set<nat>
    requires to <= |lines|
  {
    set i: nat | from <= i < to && !lines[i].Blank?
  }

  /** A load counts the lines it reads towards the next compaction: those behind the snapshot when it is
      the journal's own, else all, and a torn one. */
  lemma RestartCounts(s: Sys, now: int)
    ensures var from := if Usable(s.disk, s.snap) then s.snap.value.offset else 0;
      OnRestart(s, now, Normal).since ==
      |Written(s.disk.lines, from, |s.disk.lines|)| + if s.disk.tail.Some? then 1 else 0
  {
    var from := if Usable(s.disk, s.snap) then s.snap.value.offset else 0;
    hide Written;
    assert s.disk.lines[0..] == s.disk.lines;
    CountWritten(s.disk.lines, from, |s.disk.lines|);
    assert s.disk.lines[from..|s.disk.lines|] == s.disk.lines[from..];
  }

  lemma {:induction false} CountWritten(lines: seq<Line>, from: nat, upto: nat)
    requires from <= upto <= |lines|
    ensures NotBlank(lines[from..upto]) == |Written(lines, from, upto)|
    decreases upto
  {
    hide Written;
    if from == upto {
      assert lines[from..upto] == [];
      NoneWritten(lines, from);
    } else {
      CountWritten(lines, from, upto - 1);
      assert lines[from..upto][..upto - from - 1] == lines[from..upto - 1];
      OneMoreWritten(lines, from, upto - 1);
    }
  }

  lemma NoneWritten(lines: seq<Line>, from: nat)
    requires from <= |lines|
    ensures Written(lines, from, from) == {}
  {}

  lemma OneMoreWritten(lines: seq<Line>, from: nat, n: nat)
    requires from <= n < |lines|
    ensures |Written(lines, from, n + 1)| == |Written(lines, from, n)| + if lines[n].Blank? then 0 else 1
  {
    var more: set<nat> := if lines[n].Blank? then {} else {n};
    assert Written(lines, from, n + 1) == Written(lines, from, n) + more;
  }

  lemma NoLines()
    ensures Folded([]) == map[] && Marks([]) == 0 && Bad([]) == 0
  {}
}
