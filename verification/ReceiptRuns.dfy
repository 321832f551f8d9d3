/** Mutations under operation keys over whole runs: calls, retries, effects that report or throw,
    reconciliations that read the run index, torn writes, compactions, crashes and restarts, in any order.

    `since` counts the journal lines since the last compaction, `due` says that an effect has just
    reported, `closed` that the process has compacted for its shutdown, and `index` is the run index.

    `Sys` carries history the program does not keep: `ran` counts per key how often an effect was
    started, `applied` how often one took place. `forgotten` are the keys retention let go of: their
    receipt was evicted, or the mark of the damage that swallowed it was dropped. `denied` are the keys
    started again because a read denied an effect that had taken place. */
module ReceiptRuns {
  import opened Options
  import opened Receipts
  import opened ReceiptReads

  const COMPACT_EVERY := 1000

  datatype Sys = Sys(
    mem: Store, disk: Text, snap: Option<Snapshot>, gens: set<nat>, since: nat, due: bool, closed: bool,
    index: seq<IndexedRun>, ran: multiset<Key>, applied: multiset<Key>, forgotten: set<Key>, denied: set<Key>)

  /** One append: complete, or failed with `part` of its lines on disk. `generation` is the random id a
      journal that starts with this append would get. */
  datatype Write = Write(done: bool, part: Text, generation: nat)

  datatype Report = Reports(outcome: Outcome) | Throws

  datatype Opening = Normal | Unreadable | Deleted

  datatype Step =
    | Call(request: Request, now: int, refusal: Option<string>, write: Write)
    /** The effect of a running call takes place; one under a predicted run id creates that run. */
    | TakesPlace(key: Key, at: int)
    | Ends(key: Key, report: Report, write: Write)
    /** The read comes back: with what the index says, or with nothing. */
    | Asked(key: Key, answered: bool, refusal: Option<string>, write: Write)
    | Background(key: Key)
    /** Right after an effect reported, or, `closing`, once at shutdown. */
    | Compact(now: int, order: seq<Receipt>, live: set<ResultRef>, journal: bool, snapshot: bool, generation: nat,
              closing: bool)
    | Indexing(change: Change)
    | Restart(now: int, opening: Opening)

  datatype Answer =
    | Settled(outcome: Outcome, replayed: bool)
    | InProgress(startedAt: int)
    | NotVerified(startedAt: int, reason: string)
    | Conflict(storedAction: string, storedAt: int, actionDiffers: bool)
    | Unavailable

  /** What the caller gets now: an answer, or nothing yet. */
  datatype Turn = Turn(sys: Sys, answer: Option<Answer>)

  const INIT := Sys(NOTHING, EMPTY, None, {}, 0, false, false, [], multiset{}, multiset{}, {}, {})

  // ---- writing --------------------------------------------------------------------------------------

  function Chunk(m: Store, r: Receipt, generation: nat): seq<Line> {
    (if m.needsNewline then [Blank] else []) + (if m.started then [] else [Header(generation)]) + [Entry(r)]
  }

  function Appended(s: Sys, r: Receipt, w: Write): Sys {
    if w.done then
      s.(disk := Join(s.disk, Text(Chunk(s.mem, r, w.generation), None)),
         mem := s.mem.(started := true, needsNewline := false), gens := s.gens + {w.generation}, since := s.since + 1)
    else s.(disk := Join(s.disk, w.part), gens := s.gens + {w.generation})
  }

  /** A receipt that is kept in memory whether or not its line reaches the disk. */
  function Recorded(s: Sys, r: Receipt, w: Write): Sys {
    Appended(s.(mem := s.mem.(receipts := s.mem.receipts[r.key := r])), r, w)
  }

  function Busy(s: Sys, key: Key, a: Activity): Sys { s.(mem := s.mem.(live := s.mem.live[key := a])) }

  function Idle(s: Sys, key: Key): Sys { s.(mem := s.mem.(live := s.mem.live - {key})) }

  function AnswerOf(r: Receipt, outcome: Outcome, replayed: bool): Answer {
    if outcome.Unverified? then NotVerified(r.startedAt, outcome.code) else Settled(outcome, replayed)
  }

  // ---- the steps ------------------------------------------------------------------------------------

  function OnCall(s: Sys, req: Request, now: int, refusal: Option<string>, w: Write): Turn {
    if req.key in s.mem.receipts then
      var stored := s.mem.receipts[req.key];
      if stored.action != req.action || stored.digest != req.digest then
        Turn(s, Some(Conflict(stored.action, stored.startedAt, stored.action != req.action)))
      else if stored.outcome.Some? then Turn(s, Some(AnswerOf(stored, stored.outcome.value, true)))
      else if req.key in s.mem.live then Turn(s, Some(InProgress(stored.startedAt)))
      else Turn(Busy(s, req.key, Settling(stored)), None)
    else if req.key in s.mem.live then Turn(s, Some(InProgress(StartOf(s.mem.live[req.key]))))
    else if s.mem.quarantined > 0 then Turn(Busy(s, req.key, Asking(req, now)), None)
    else FirstAttempt(s, req, now, refusal, w)
  }

  function StartOf(a: Activity): int {
    match a
    case Running(intent, _) => intent.startedAt
    case Settling(intent) => intent.startedAt
    case Asking(_, startedAt) => startedAt
  }

  function SettledReceipt(req: Request, startedAt: int, outcome: Outcome): Receipt {
    Receipt(req.key, req.action, req.digest, Some(outcome), startedAt, None)
  }

  function Intent(req: Request, startedAt: int): Receipt {
    Receipt(req.key, req.action, req.digest, None, startedAt, Some(req.reconcile))
  }

  /** The precheck, the intent, and only then the effect. */
  function FirstAttempt(s: Sys, req: Request, startedAt: int, refusal: Option<string>, w: Write): Turn {
    match refusal
    case Some(code) =>
      Turn(Recorded(s, SettledReceipt(req, startedAt, Rejected(code)), w), Some(Settled(Rejected(code), false)))
    case None =>
      var intent := Intent(req, startedAt);
      if !w.done then Turn(Appended(s, intent, w), Some(Unavailable))
      else
        var t := Appended(s, intent, w);
        Turn(Busy(t.(mem := t.mem.(receipts := t.mem.receipts[req.key := intent]), ran := t.ran + multiset{req.key}),
                  req.key, Running(intent, false)), None)
  }

  /** The run id an operation would create: no two operations share one, and no other run gets it. */
  function PredictedRun(key: Key): string { "/" + key }

  predicate IsPredicted(id: string) { id != "" && id[0] == '/' }

  function OnTakesPlace(s: Sys, key: Key, at: int): Sys {
    if key in s.mem.live && s.mem.live[key].Running? && !s.mem.live[key].applied then
      var intent := s.mem.live[key].intent;
      Busy(s, key, Running(intent, true)).(
        applied := s.applied + multiset{key},
        index := if CreatesRun(intent) then Changed(s.index, Created(IndexedRun(intent.reconcile.value.predictedRunId, at, false)))
                 else s.index)
    else s
  }

  predicate CreatesRun(intent: Receipt) { intent.reconcile.Some? && intent.reconcile.value.RunByKey? }

  function OnEnds(s: Sys, key: Key, report: Report, w: Write): Turn {
    if !(key in s.mem.live && s.mem.live[key].Running?) then Turn(s, None)
    else
      var intent := s.mem.live[key].intent;
      match report
      case Throws => Turn(Busy(s, key, Settling(intent)), None)
      case Reports(outcome) =>
        Turn(Recorded(Idle(s, key), intent.(outcome := Some(outcome), reconcile := None), w),
             Some(AnswerOf(intent, outcome, false)))
  }

  /** Only runs have a read that can tell; every other kind of predicate has none. */
  function ReadOf(index: seq<IndexedRun>, p: Option<Predicate>, startedAt: int, answered: bool): Verdict {
    if p.None? || !p.value.RunByKey? then CannotTell("no reconciler")
    else if !answered then CannotTell("reconciler_failed")
    else RunLookup(index, p.value.predictedRunId, startedAt)
  }

  /** A dangling intent is asked about with its own date, a miss with that of the call. */
  function VerdictOn(s: Sys, a: Activity, answered: bool): Verdict {
    match a
    case Running(intent, _) => CannotTell("running")
    case Settling(intent) => ReadOf(s.index, intent.reconcile, intent.startedAt, answered)
    case Asking(req, startedAt) => ReadOf(s.index, Some(req.reconcile), startedAt, answered)
  }

  function OnAsked(s: Sys, key: Key, answered: bool, refusal: Option<string>, w: Write): Turn {
    if key !in s.mem.live then Turn(s, None)
    else
      var verdict := VerdictOn(s, s.mem.live[key], answered);
      match s.mem.live[key]
      case Running(_, _) => Turn(s, None)
      case Settling(intent) => Reconciled(Idle(s, key), key, intent, verdict, w)
      case Asking(req, startedAt) =>
        match verdict
        case Happened(ref) =>
          Turn(Recorded(Idle(s, key), SettledReceipt(req, startedAt, Ok(ref)), w), Some(Settled(Ok(ref), true)))
        case CannotTell(_) => Turn(Idle(s, key), Some(NotVerified(startedAt, "journal_damaged")))
        case DidNotHappen => FirstAttempt(Doubted(Idle(s, key), key, refusal, w), req, startedAt, refusal, w)
  }

  /** A key that is about to be started although its effect took place. */
  function Doubted(s: Sys, key: Key, refusal: Option<string>, w: Write): Sys {
    if s.applied[key] > 0 && refusal.None? && w.done then s.(denied := s.denied + {key}) else s
  }

  function Reconciled(s: Sys, key: Key, intent: Receipt, verdict: Verdict, w: Write): Turn {
    match verdict
    case CannotTell(reason) => Turn(s, Some(NotVerified(intent.startedAt, reason)))
    case _ =>
      if key in s.mem.receipts && s.mem.receipts[key].outcome.Some? then
        var current := s.mem.receipts[key];
        Turn(s, Some(AnswerOf(current, current.outcome.value, true)))
      else
        Turn(Recorded(s, Resolved(intent, verdict), w), Some(Settled(Resolved(intent, verdict).outcome.value, true)))
  }

  function Resolved(intent: Receipt, verdict: Verdict): (r: Receipt)
    ensures r.outcome.Some? && r.key == intent.key
  {
    intent.(outcome := Some(if verdict.Happened? then Ok(verdict.ref) else NotApplied("reconciled not applied")),
            reconcile := None)
  }

  /** The background pass works on a list taken earlier, so what it holds may since have been settled. */
  function OnBackground(s: Sys, key: Key): Sys {
    if key in s.mem.receipts && key !in s.mem.live then
      Busy(s, key, Settling(s.mem.receipts[key].(outcome := None)))
    else s
  }

  function Entries(order: seq<Receipt>): seq<Line> {
    seq(|order|, i requires 0 <= i < |order| => Entry(order[i]))
  }

  /** The receipts that survive, in the order they are written. */
  function Survivors(order: seq<Receipt>, kept: map<Key, Receipt>): seq<Receipt> {
    if order == [] then []
    else Survivors(order[1..], kept) + if order[0].key in kept then [order[0]] else []
  }

  ghost function OnCompact(s: Sys, step: Step): Sys
    requires step.Compact?
  {
    var cutoff := step.now - MAX_AGE_MS;
    var kept := Kept(s.mem.receipts, step.order, cutoff, step.live);
    var expired := s.mem.damageAt.Some? && s.mem.damageAt.value < cutoff;
    var quarantined := if expired then 0 else s.mem.quarantined;
    var damageAt := if expired then None else s.mem.damageAt;
    var damage := if quarantined > 0 && damageAt.Some? then Some(Damage(quarantined, damageAt.value)) else None;
    var lines := [Header(step.generation)] + (if damage.Some? then [damage.value] else [])
                 + Entries(Survivors(step.order, kept));
    var t := s.(mem := s.mem.(receipts := kept, quarantined := quarantined, damageAt := damageAt),
                gens := s.gens + {step.generation}, closed := s.closed || step.closing,
                forgotten := s.forgotten + (s.mem.receipts.Keys - kept.Keys)
                             + if expired then (set k <- s.ran | k !in kept) else {});
    if !step.journal then t
    else
      var u := t.(disk := Text(lines, None), mem := t.mem.(started := true, needsNewline := false), since := 0);
      if step.snapshot then u.(snap := Some(Snapshot(step.generation, |lines|, kept, damage))) else u
  }

  /** The lines a load has to scan: those the snapshot does not cover, and a torn one. */
  function Scans(journal: Text, snapshot: Option<Snapshot>): nat {
    var lines := if Usable(journal, snapshot) then journal.lines[snapshot.value.offset..] else journal.lines;
    NotBlank(lines) + if journal.tail.Some? then 1 else 0
  }

  function NotBlank(lines: seq<Line>): nat {
    if lines == [] then 0 else NotBlank(lines[..|lines| - 1]) + if lines[|lines| - 1].Blank? then 0 else 1
  }

  ghost function OnRestart(s: Sys, now: int, opening: Opening): Sys {
    var t := s.(closed := false);
    match opening
    case Normal => t.(mem := Load(s.disk, s.snap, now), since := Scans(s.disk, s.snap))
    case Unreadable => t.(mem := NOTHING.(quarantined := 1, damageAt := Some(now)), since := 0)
    case Deleted =>
      t.(mem := NOTHING, disk := EMPTY, snap := None, since := 0, forgotten := s.forgotten + set k <- s.ran :: k)
  }

  ghost function Next(s: Sys, step: Step): Sys {
    Moved(s, step).(due := step.Ends? && Ended(s, step.key) && step.report.Reports?)
  }

  predicate Ended(s: Sys, key: Key) { key in s.mem.live && s.mem.live[key].Running? }

  ghost function Moved(s: Sys, step: Step): Sys {
    match step
    case Call(req, now, refusal, w) => OnCall(s, req, now, refusal, w).sys
    case TakesPlace(key, at) => OnTakesPlace(s, key, at)
    case Ends(key, report, w) => OnEnds(s, key, report, w).sys
    case Asked(key, answered, refusal, w) => OnAsked(s, key, answered, refusal, w).sys
    case Background(key) => OnBackground(s, key)
    case Compact(_, _, _, _, _, _, _) => OnCompact(s, step)
    case Indexing(change) => s.(index := Changed(s.index, change))
    case Restart(now, opening) => OnRestart(s, now, opening)
  }

  ghost function Run(s: Sys, steps: seq<Step>): Sys
    decreases |steps|
  {
    if steps == [] then s else Run(Next(s, steps[0]), steps[1..])
  }

  /** The line a step would write. */
  function Writes(s: Sys, step: Step): Option<Receipt> {
    match step
    case Call(req, now, refusal, _) => Some(FirstLine(req, now, refusal))
    case Ends(key, Reports(outcome), _) =>
      if key in s.mem.live && s.mem.live[key].Running? then
        Some(s.mem.live[key].intent.(outcome := Some(outcome), reconcile := None))
      else None
    case Asked(key, answered, refusal, _) =>
      if key !in s.mem.live || s.mem.live[key].Running? then None
      else
        var verdict := VerdictOn(s, s.mem.live[key], answered);
        if s.mem.live[key].Settling? then Some(Resolved(s.mem.live[key].intent, verdict))
        else
          var Asking(req, startedAt) := s.mem.live[key];
          Some(if verdict.Happened? then SettledReceipt(req, startedAt, Ok(verdict.ref))
              else FirstLine(req, startedAt, refusal))
    case _ => None
  }

  function FirstLine(req: Request, startedAt: int, refusal: Option<string>): Receipt {
    if refusal.Some? then SettledReceipt(req, startedAt, Rejected(refusal.value)) else Intent(req, startedAt)
  }

  /** What the protocol takes for granted: a failed write leaves a part of itself, random generations
      and run ids are new, a predicted id is the key's own, a run is created no earlier than its attempt,
      and compaction lists every receipt and runs at its two moments only. */
  ghost predicate Can(s: Sys, step: Step) {
    match step
    case Call(req, _, _, w) => CanWrite(s, step, w) && (req.reconcile.RunByKey? ==> req.reconcile == Predicate.RunByKey(PredictedRun(req.key)))
    case TakesPlace(key, at) => Ended(s, key) ==> at >= s.mem.live[key].intent.startedAt
    case Ends(_, _, w) => CanWrite(s, step, w)
    case Asked(_, _, _, w) => CanWrite(s, step, w)
    case Compact(_, order, _, _, _, generation, closing) =>
      && NewestFirst(order, s.mem.receipts) && generation !in s.gens
      && (if closing then !s.closed && (s.since > 0 || s.mem.quarantined > 0) else s.due && s.since >= COMPACT_EVERY)
    case Indexing(change) => change.Created? ==> !IsPredicted(change.run.id)
    case _ => true
  }

  ghost predicate CanWrite(s: Sys, step: Step, w: Write) {
    w.generation !in s.gens
    && (!w.done && Writes(s, step).Some? ==> IsPart(w.part, Chunk(s.mem, Writes(s, step).value, w.generation)))
  }

  ghost predicate CanAll(s: Sys, steps: seq<Step>)
    decreases |steps|
  {
    steps == [] || (Can(s, steps[0]) && CanAll(Next(s, steps[0]), steps[1..]))
  }
}
