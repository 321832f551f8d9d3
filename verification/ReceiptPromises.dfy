/** What the receipt layer promises its callers, and when it forgets or is misled. */
module ReceiptPromises {
  import opened Options
  import opened Receipts
  import opened ReceiptReads
  import opened ReceiptRuns
  import opened ReceiptSafety

  lemma InitInv()
    ensures Inv(INIT)
  {}

  /** The read that was asked for denies an effect of `k` that took place, and the call starts it again:
      its run is not in the index, each pool that holds anything holds a run no newer than the call,
      nothing refuses the call and its intent is written. */
  ghost predicate StartsAgain(s: Sys, step: Step, k: Key) {
    && step.Asked? && step.key == k && step.answered && step.refusal.None? && step.write.done && s.applied[k] > 0
    && k in s.mem.live && s.mem.live[k].Asking? && s.mem.live[k].request.reconcile.RunByKey?
    && Denies(s.index, s.mem.live[k].request.reconcile.predictedRunId, s.mem.live[k].startedAt)
  }

  lemma DeniedExactlyThen(s: Sys, step: Step, k: Key)
    ensures k in Next(s, step).denied <==> k in s.denied || StartsAgain(s, step, k)
  {
    if step.Asked? { AskedDenies(s, step, k); } else { OthersDenyNothing(s, step); }
  }

  lemma OthersDenyNothing(s: Sys, step: Step)
    requires !step.Asked?
    ensures Next(s, step).denied == s.denied
  {
    hide Join, Chunk, Load, Kept, Entries, Survivors, Scans, Changed, Gone, RunLookup, Resolved, NewestFirst;
  }

  lemma FirstAttemptDeniesNothing(s: Sys, req: Request, at: int, refusal: Option<string>, w: Write)
    ensures FirstAttempt(s, req, at, refusal, w).sys.denied == s.denied
  {
    hide Join, Chunk;
  }

  lemma AskedDenies(s: Sys, step: Step, k: Key)
    requires step.Asked?
    ensures k in Next(s, step).denied <==> k in s.denied || StartsAgain(s, step, k)
  {
    hide Denies, RunLookup, Join, Chunk, FirstAttempt;
    if step.key in s.mem.live && s.mem.live[step.key].Asking? {
      var Asking(req, at) := s.mem.live[step.key];
      FirstAttemptDeniesNothing(Doubted(Idle(s, step.key), step.key, step.refusal, step.write), req, at, step.refusal, step.write);
      if req.reconcile.RunByKey? { DeniedIff(s.index, req.reconcile.predictedRunId, at); }
    }
  }

  ghost predicate NeverStartsAgain(s: Sys, steps: seq<Step>, k: Key)
    decreases |steps|
  {
    steps == [] || (!StartsAgain(s, steps[0], k) && NeverStartsAgain(Next(s, steps[0]), steps[1..], k))
  }

  lemma {:induction false} DeniedOverRuns(s: Sys, steps: seq<Step>, k: Key)
    ensures k in Run(s, steps).denied <==> k in s.denied || !NeverStartsAgain(s, steps, k)
    decreases |steps|
  {
    hide Next, StartsAgain;
    if steps != [] {
      DeniedExactlyThen(s, steps[0], k);
      DeniedOverRuns(Next(s, steps[0]), steps[1..], k);
    }
  }

  /** Over every run of calls, retries, throwing effects, torn writes, crashes, restarts, changes of the
      run index and reconciliations that read it, the effect of one key takes place at most once, unless
      the key was forgotten or a read like that denied it. */
  lemma AtMostOnce(steps: seq<Step>, k: Key)
    requires CanAll(INIT, steps) && k !in Run(INIT, steps).forgotten && NeverStartsAgain(INIT, steps, k)
    ensures Run(INIT, steps).applied[k] <= 1
  {
    hide Run, CanAll, RanInv, LiveInv, MemInv, SnapInv, NeverStartsAgain;
    InitInv();
    RunKeepsInv(INIT, steps);
    DeniedOverRuns(INIT, steps, k);
  }

  /** And a step like that is enough: the effect can take place a second time at once. */
  lemma AgainIsASecondTime(s: Sys, step: Step, k: Key, at: int)
    requires Inv(s) && StartsAgain(s, step, k)
    ensures Next(Next(s, step), TakesPlace(k, at)).applied[k] == s.applied[k] + 1 >= 2
  {
    hide Denies, RunLookup, Join, Chunk, Changed, RanInv, AppliedInv, MemInv, SnapInv;
    assert LiveAs(s, k, s.mem.live[k]);
    DeniedIff(s.index, s.mem.live[k].request.reconcile.predictedRunId, s.mem.live[k].startedAt);
  }

  /** A dangling intent is settled as not applied exactly when the index denies its run under the intent's
      own date; it is never started again. */
  lemma SettledNotAppliedIff(s: Sys, step: Step, k: Key, intent: Receipt, t: Sys)
    requires Inv(s) && step.Asked? && step.key == k && k in s.mem.live && s.mem.live[k] == Settling(intent)
    requires k in s.mem.receipts && s.mem.receipts[k].outcome.None? && t == Next(s, step)
    ensures t.ran == s.ran && t.applied == s.applied && k in t.mem.receipts
    ensures t.mem.receipts[k].outcome == Some(NotApplied("reconciled not applied")) <==>
      step.answered && CreatesRun(intent) && Denies(s.index, intent.reconcile.value.predictedRunId, intent.startedAt)
  {
    hide RunLookup, Denies, Inv, Reconciled, FirstAttempt, Doubted;
    KeyOfSettling(s, k, intent);
    if CreatesRun(intent) { DeniedIff(s.index, intent.reconcile.value.predictedRunId, intent.startedAt); }
    var verdict := VerdictOn(s, s.mem.live[k], step.answered);
    ReconciledSettles(Idle(s, k), k, intent, verdict, step.write);
  }

  lemma KeyOfSettling(s: Sys, k: Key, intent: Receipt)
    requires Inv(s) && k in s.mem.live && s.mem.live[k] == Settling(intent)
    ensures intent.key == k
  {
    hide RanInv, AppliedInv, MemInv, SnapInv;
    assert LiveAs(s, k, s.mem.live[k]);
  }

  lemma ReconciledSettles(s: Sys, k: Key, intent: Receipt, verdict: Verdict, w: Write)
    requires k in s.mem.receipts && s.mem.receipts[k].outcome.None? && intent.key == k
    ensures var t := Reconciled(s, k, intent, verdict, w).sys;
      && t.ran == s.ran && t.applied == s.applied && k in t.mem.receipts
      && (t.mem.receipts[k].outcome == Some(NotApplied("reconciled not applied")) <==> verdict.DidNotHappen?)
  {
    hide Join, Chunk;
  }

  // ---- which calls run an effect --------------------------------------------------------------------

  /** A call starts its effect in exactly one case, and whatever it answers at once it answers without
      having started it. */
  lemma CallStartsIff(s: Sys, req: Request, now: int, refusal: Option<string>, w: Write)
    requires Inv(s)
    ensures var t := OnCall(s, req, now, refusal, w);
      var starts := req.key !in s.mem.receipts && req.key !in s.mem.live && s.mem.quarantined == 0 && refusal.None?
          && w.done;
      && t.sys.ran == (if starts then s.ran + multiset{req.key} else s.ran)
      && t.sys.applied == s.applied
      && (t.answer.Some? ==> t.sys.ran == s.ran)
      && (starts ==> Tells(t.sys.disk.lines, req.key))
      && (t.answer.Some? && (t.answer.value.Conflict? || t.answer.value.InProgress? || t.answer.value.NotVerified?) ==> t.sys == s)
  {
    hide Inv, Tells;
    if req.key !in s.mem.receipts && req.key !in s.mem.live && s.mem.quarantined == 0 && refusal.None? && w.done {
      DoneTells(s, Intent(req, now), w);
    }
  }

  // ---- without a positive read, one start only ------------------------------------------------------

  /** No call asks for the read of the run index, as when the reconcile predicate is always `none`. */
  ghost predicate NoReads(steps: seq<Step>) {
    forall step <- steps :: step.Call? ==> !step.request.reconcile.RunByKey?
  }

  ghost predicate StartedOnce(s: Sys) {
    && (forall k <- s.ran :: k in s.forgotten || s.ran[k] == 1)
    && (forall k <- s.mem.live :: s.mem.live[k].Asking? ==> !s.mem.live[k].request.reconcile.RunByKey?)
  }

  lemma CallStartsOnce(s: Sys, step: Step)
    requires Inv(s) && StartedOnce(s) && step.Call? && !step.request.reconcile.RunByKey?
    ensures StartedOnce(Next(s, step))
  {
    hide Tells, FirstAttempt, LiveInv, AppliedInv, MemInv, SnapInv;
    if step.request.key !in s.mem.receipts && step.request.key !in s.mem.live && s.mem.quarantined == 0 {
      assert !Remembers(s.mem, step.request.key);
      FirstAttemptStartsOnce(s, step.request, step.now, step.refusal, step.write);
    }
  }

  lemma FirstAttemptStartsOnce(s: Sys, req: Request, at: int, refusal: Option<string>, w: Write)
    requires StartedOnce(s) && (req.key in s.ran ==> req.key in s.forgotten)
    ensures StartedOnce(FirstAttempt(s, req, at, refusal, w).sys)
  {
    hide Join, Chunk;
  }

  lemma StartedOnceStays(s: Sys, t: Sys)
    requires StartedOnce(s) && t.ran == s.ran && s.forgotten <= t.forgotten
    requires forall k <- t.mem.live :: t.mem.live[k].Asking? ==> k in s.mem.live && s.mem.live[k] == t.mem.live[k]
    ensures StartedOnce(t)
  {}

  lemma ReconciledKeeps(s: Sys, key: Key, intent: Receipt, verdict: Verdict, w: Write)
    ensures var t := Reconciled(s, key, intent, verdict, w).sys;
      t.ran == s.ran && t.forgotten == s.forgotten && t.mem.live == s.mem.live
  {
    hide Join, Chunk;
  }

  lemma AskedStartsOnce(s: Sys, step: Step)
    requires StartedOnce(s) && step.Asked?
    ensures StartedOnce(Next(s, step))
  {
    hide Appended, RunLookup, FirstAttempt, Doubted, Reconciled, StartedOnce;
    if step.key in s.mem.live && s.mem.live[step.key].Settling? {
      ReconciledKeeps(Idle(s, step.key), step.key, s.mem.live[step.key].intent, VerdictOn(s, s.mem.live[step.key], step.answered), step.write);
    } else if step.key in s.mem.live && s.mem.live[step.key].Asking? {
      NoReadNoDenial(s, step);
    }
    StartedOnceStays(s, Next(s, step));
  }

  lemma NoReadNoDenial(s: Sys, step: Step)
    requires StartedOnce(s) && step.Asked? && step.key in s.mem.live && s.mem.live[step.key].Asking?
    ensures VerdictOn(s, s.mem.live[step.key], step.answered).CannotTell?
  {}

  lemma OthersStartOnce(s: Sys, step: Step)
    requires StartedOnce(s) && !step.Call? && !step.Asked?
    ensures StartedOnce(Next(s, step))
  {
    hide StartedOnce, Next;
    if step.Ends? { EndsLeavesStarts(s, step); }
    else if step.Compact? || step.Restart? { FilesLeaveStarts(s, step); }
    else { SmallStepsLeaveStarts(s, step); }
    StartedOnceStays(s, Next(s, step));
  }

  ghost predicate LeavesStarts(s: Sys, t: Sys) {
    && t.ran == s.ran && s.forgotten <= t.forgotten
    && forall k <- t.mem.live :: t.mem.live[k].Asking? ==> k in s.mem.live && s.mem.live[k] == t.mem.live[k]
  }

  lemma EndsLeavesStarts(s: Sys, step: Step)
    requires step.Ends?
    ensures LeavesStarts(s, Next(s, step))
  {
    hide Join, Chunk;
  }

  lemma FilesLeaveStarts(s: Sys, step: Step)
    requires step.Compact? || step.Restart?
    ensures LeavesStarts(s, Next(s, step))
  {
    hide Load, Kept, Entries, Survivors, Scans;
    if step.Restart? { LoadIsIdle(s, step.now); }
  }

  lemma SmallStepsLeaveStarts(s: Sys, step: Step)
    requires step.TakesPlace? || step.Background? || step.Indexing?
    ensures LeavesStarts(s, Next(s, step))
  {
    hide Changed;
  }

  lemma StepStartsOnce(s: Sys, step: Step)
    requires Inv(s) && StartedOnce(s) && (step.Call? ==> !step.request.reconcile.RunByKey?)
    ensures StartedOnce(Next(s, step))
  {
    hide Inv, StartedOnce, Next;
    if step.Call? { CallStartsOnce(s, step); }
    else if step.Asked? { AskedStartsOnce(s, step); }
    else { OthersStartOnce(s, step); }
  }

  lemma LoadIsIdle(s: Sys, now: int)
    ensures Load(s.disk, s.snap, now).live == map[]
  {}

  /** Then even starting an effect happens once per key: an `unverified` key never runs again. */
  lemma {:induction false} StartsAtMostOnce(s: Sys, steps: seq<Step>)
    requires Inv(s) && CanAll(s, steps) && StartedOnce(s) && NoReads(steps)
    ensures StartedOnce(Run(s, steps))
    decreases |steps|
  {
    hide Inv, Next, Can, StartedOnce;
    if steps != [] {
      assert steps[0] in steps && forall step <- steps[1..] :: step in steps;
      NextKeepsInv(s, steps[0]);
      StepStartsOnce(s, steps[0]);
      StartsAtMostOnce(Next(s, steps[0]), steps[1..]);
    }
  }

  // ---- a settled outcome stays ----------------------------------------------------------------------

  /** The outcome is in memory and its line reached the disk. */
  ghost predicate HasSettled(s: Sys, r: Receipt) {
    && r.outcome.Some? && r.key in s.mem.receipts && s.mem.receipts[r.key] == r
    && r.key in Folded(s.disk.lines) && Folded(s.disk.lines)[r.key] == r
    && !(s.disk.tail.Some? && NamesKey(s.disk.tail.value, r.key))
  }

  predicate NamesKey(line: Line, k: Key) { line.Entry? && line.receipt.key == k }

  lemma {:induction false} OthersDoNotMatter(lines: seq<Line>, k: Key)
    requires forall line <- lines :: !NamesKey(line, k)
    ensures k !in Folded(lines)
    decreases |lines|
  {
    if lines != [] {
      assert lines[|lines| - 1] in lines && forall line <- lines[..|lines| - 1] :: line in lines;
      OthersDoNotMatter(lines[..|lines| - 1], k);
    }
  }

  /** Appending another key's line, whole or torn, leaves this key's latest line in place. */
  lemma AppendLeavesSettled(s: Sys, other: Receipt, w: Write, r: Receipt)
    requires HasSettled(s, r) && other.key != r.key && CanAppend(s, other, w)
    ensures HasSettled(Appended(s, other, w), r)
  {
    hide Folded, Chunk, IsPart, Join, Added, NamesKey;
    var chunk := Chunk(s.mem, other, w.generation);
    var more := if w.done then Text(chunk, None) else w.part;
    AddedNames(s, other, w, more, r.key);
    JoinAdds(s.disk, more);
    FoldedAdds(s.disk.lines, Added(s.disk, more));
    OthersDoNotMatter(Added(s.disk, more), r.key);
  }

  lemma AddedNames(s: Sys, other: Receipt, w: Write, more: Text, k: Key)
    requires other.key != k && CanAppend(s, other, w) && !(s.disk.tail.Some? && NamesKey(s.disk.tail.value, k))
    requires more == if w.done then Text(Chunk(s.mem, other, w.generation), None) else w.part
    ensures forall line <- Added(s.disk, more) :: !NamesKey(line, k)
    ensures var t := Join(s.disk, more).tail; !(t.Some? && NamesKey(t.value, k))
  {
    ChunkNames(s.mem, other, w.generation, k);
    var chunk := Chunk(s.mem, other, w.generation);
    hide Chunk;
    assert forall i :: 0 <= i < |chunk| ==> !NamesKey(chunk[i], k);
    assert forall i :: 0 <= i < |more.lines| ==> more.lines[i] == chunk[i];
  }

  lemma ChunkNames(m: Store, other: Receipt, generation: nat, k: Key)
    requires other.key != k
    ensures forall line <- Chunk(m, other, generation) :: !NamesKey(line, k)
  {}

  lemma RecordLeavesSettled(s: Sys, other: Receipt, w: Write, r: Receipt)
    requires HasSettled(s, r) && other.key != r.key && CanAppend(s, other, w)
    ensures HasSettled(Recorded(s, other, w), r)
  {
    hide Folded, Chunk, IsPart;
    var t := s.(mem := s.mem.(receipts := s.mem.receipts[other.key := other]));
    SameChunk(s.mem, t.mem, other, w.generation);
    AppendLeavesSettled(t, other, w, r);
  }

  lemma FirstAttemptLeavesSettled(s: Sys, req: Request, at: int, refusal: Option<string>, w: Write, r: Receipt)
    requires HasSettled(s, r) && req.key != r.key && CanAppend(s, FirstLine(req, at, refusal), w)
    ensures HasSettled(FirstAttempt(s, req, at, refusal, w).sys, r)
  {
    hide Folded, Chunk, IsPart, Join;
    if refusal.Some? { RecordLeavesSettled(s, FirstLine(req, at, refusal), w, r); }
    else { AppendLeavesSettled(s, FirstLine(req, at, refusal), w, r); }
  }

  ghost predicate KeepsTheFiles(step: Step) { step.Restart? ==> step.opening.Normal? }

  lemma AskedLeavesSettled(s: Sys, step: Step, r: Receipt)
    requires Inv(s) && Can(s, step) && HasSettled(s, r) && step.Asked?
    ensures HasSettled(Next(s, step), r)
  {
    hide HasSettled, Recorded, FirstAttempt, RunLookup, Doubted, VerdictOn, RanInv, AppliedInv, SnapInv, Tells, IsPart, Reconciled;
    var k := step.key;
    if k in s.mem.live && !s.mem.live[k].Running? {
      assert LiveAs(s, k, s.mem.live[k]);
      IdleLeavesSettled(s, k, r);
      var verdict := VerdictOn(s, s.mem.live[k], step.answered);
      SameChunk(s.mem, Idle(s, k).mem, Writes(s, step).value, step.write.generation);
      if s.mem.live[k].Settling? {
        ReconciledLeavesSettled(Idle(s, k), k, s.mem.live[k].intent, verdict, step.write, r);
      } else {
        NotItsOwn(s, r, k);
        DoubtedLeavesSettled(Idle(s, k), k, step.refusal, step.write, r);
        var Asking(req, at) := s.mem.live[k];
        if verdict.DidNotHappen? {
          FirstAttemptLeavesSettled(Doubted(Idle(s, k), k, step.refusal, step.write), req, at, step.refusal, step.write, r);
        } else if verdict.Happened? {
          RecordLeavesSettled(Idle(s, k), SettledReceipt(req, at, Ok(verdict.ref)), step.write, r);
        }
      }
    }
    DueLeavesSettled(Moved(s, step), false, r);
  }

  lemma DueLeavesSettled(s: Sys, due: bool, r: Receipt)
    requires HasSettled(s, r)
    ensures HasSettled(s.(due := due), r)
  {
    hide Folded, NamesKey;
  }

  lemma IdleLeavesSettled(s: Sys, k: Key, r: Receipt)
    requires HasSettled(s, r)
    ensures HasSettled(Idle(s, k), r)
  {
    hide Folded, NamesKey;
  }

  lemma NotItsOwn(s: Sys, r: Receipt, k: Key)
    requires HasSettled(s, r) && k in s.mem.live && LiveAs(s, k, s.mem.live[k]) && s.mem.live[k].Asking?
    ensures k != r.key
  {
    hide Folded, NamesKey;
  }

  lemma ReconciledLeavesSettled(s: Sys, k: Key, intent: Receipt, verdict: Verdict, w: Write, r: Receipt)
    requires HasSettled(s, r) && intent.key == k && CanAppend(s, Resolved(intent, verdict), w)
    ensures HasSettled(Reconciled(s, k, intent, verdict, w).sys, r)
  {
    hide Folded, Chunk, IsPart, NamesKey, Recorded;
    if k != r.key { RecordLeavesSettled(s, Resolved(intent, verdict), w, r); }
  }

  lemma DoubtedLeavesSettled(s: Sys, k: Key, refusal: Option<string>, w: Write, r: Receipt)
    requires HasSettled(s, r)
    ensures var t := Doubted(s, k, refusal, w);
      HasSettled(t, r) && t.mem == s.mem && t.gens == s.gens
  {
    hide Folded, NamesKey;
  }

  lemma EndsLeavesSettled(s: Sys, step: Step, r: Receipt)
    requires Inv(s) && Can(s, step) && HasSettled(s, r) && step.Ends?
    ensures HasSettled(Moved(s, step), r)
  {
    hide Folded, Chunk, IsPart, Join, Tells, Covers, Recorded, RanInv, AppliedInv, SnapInv, NamesKey;
    var k := step.key;
    if Ended(s, k) {
      assert LiveAs(s, k, s.mem.live[k]);
      if step.report.Reports? {
        var settled := Writes(s, step).value;
        SameChunk(s.mem, Idle(s, k).mem, settled, step.write.generation);
        RecordLeavesSettled(Idle(s, k), settled, step.write, r);
      }
    }
  }

  lemma CallLeavesSettled(s: Sys, step: Step, r: Receipt)
    requires Inv(s) && Can(s, step) && HasSettled(s, r) && step.Call?
    ensures HasSettled(Moved(s, step), r)
  {
    hide Folded, Chunk, IsPart, Join, FirstAttempt, Inv, NamesKey;
    if step.request.key !in s.mem.receipts {
      FirstAttemptLeavesSettled(s, step.request, step.now, step.refusal, step.write, r);
    }
  }

  lemma CompactLeavesSettled(s: Sys, step: Step, r: Receipt)
    requires Inv(s) && Can(s, step) && HasSettled(s, r) && step.Compact? && r.key !in Moved(s, step).forgotten
    ensures HasSettled(Moved(s, step), r)
  {
    hide Folded, Tells, Covers, RanInv, AppliedInv, SnapInv, LiveInv, Entries, Survivors, Gone, NewestFirst, NamesKey;
    if step.journal { CompactDisk(s, step); }
  }

  lemma RestartLeavesSettled(s: Sys, step: Step, r: Receipt)
    requires Inv(s) && HasSettled(s, r) && step.Restart? && step.opening.Normal?
    ensures HasSettled(Moved(s, step), r)
  {
    hide Folded, Tells, Covers, RanInv, AppliedInv, SnapInv, LiveInv, Scans, NamesKey, Bad, Marks, MarkedAt;
    ShortcutTaken(s, step.now);
    OthersDoNotMatter([], r.key);
    assert map[] + Folded(s.disk.lines) == Folded(s.disk.lines);
  }

  lemma SmallStepsLeaveSettled(s: Sys, step: Step, r: Receipt)
    requires HasSettled(s, r) && (step.TakesPlace? || step.Background? || step.Indexing?)
    ensures HasSettled(Moved(s, step), r)
  {
    hide Folded, NamesKey, Changed;
  }

  lemma StepLeavesSettled(s: Sys, step: Step, r: Receipt)
    requires Inv(s) && Can(s, step) && HasSettled(s, r) && KeepsTheFiles(step) && r.key !in Next(s, step).forgotten
    ensures HasSettled(Next(s, step), r)
  {
    hide Inv, Can, HasSettled, Moved;
    if step.Asked? {
      AskedLeavesSettled(s, step, r);
    } else {
      if step.Call? { CallLeavesSettled(s, step, r); }
      else if step.Ends? { EndsLeavesSettled(s, step, r); }
      else if step.Compact? { CompactLeavesSettled(s, step, r); }
      else if step.Restart? { RestartLeavesSettled(s, step, r); }
      else { SmallStepsLeaveSettled(s, step, r); }
      DueLeavesSettled(Moved(s, step), Next(s, step).due, r);
    }
  }

  lemma ForgottenGrows(s: Sys, step: Step)
    ensures s.forgotten <= Next(s, step).forgotten
  {
    hide Next;
    if step.Compact? || step.Restart? { FilesLeaveStarts(s, step); }
    else if step.Call? || step.Asked? { CallsForgetNothing(s, step); }
    else if step.Ends? { EndsLeavesStarts(s, step); }
    else { SmallStepsLeaveStarts(s, step); }
  }

  lemma CallsForgetNothing(s: Sys, step: Step)
    requires step.Call? || step.Asked?
    ensures Next(s, step).forgotten == s.forgotten
  {
    hide Join, Chunk, RunLookup;
  }

  lemma {:induction false} ForgottenStays(s: Sys, steps: seq<Step>)
    ensures s.forgotten <= Run(s, steps).forgotten
    decreases |steps|
  {
    hide Next;
    if steps != [] {
      ForgottenGrows(s, steps[0]);
      ForgottenStays(Next(s, steps[0]), steps[1..]);
    }
  }

  /** A settled outcome whose line reached the disk is replayed unchanged by every later call, across
      any crashes, until retention evicts it; a call that disagrees gets a conflict and no outcome. */
  lemma {:induction false} SettledIsFinal(s: Sys, steps: seq<Step>, r: Receipt)
    requires Inv(s) && CanAll(s, steps) && HasSettled(s, r) && (forall step <- steps :: KeepsTheFiles(step))
    requires r.key !in Run(s, steps).forgotten
    ensures HasSettled(Run(s, steps), r)
    decreases |steps|
  {
    hide Inv, Next, Can, HasSettled, KeepsTheFiles;
    if steps != [] {
      assert steps[0] in steps && forall step <- steps[1..] :: step in steps;
      ForgottenStays(Next(s, steps[0]), steps[1..]);
      NextKeepsInv(s, steps[0]);
      StepLeavesSettled(s, steps[0], r);
      SettledIsFinal(Next(s, steps[0]), steps[1..], r);
    }
  }

  // ---- forgetting -----------------------------------------------------------------------------------

  /** A key is forgotten only when the files are deleted, when its settled receipt is past the age floor
      and outside the newest kept, or when the earliest damage on record is past the age floor. */
  lemma ForgottenOnlyWhenOld(s: Sys, step: Step, k: Key)
    requires Inv(s) && Can(s, step) && k in Next(s, step).forgotten && k !in s.forgotten
    ensures (step.Restart? && step.opening.Deleted?) || step.Compact?
    ensures step.Compact? ==>
      var cutoff := step.now - MAX_AGE_MS;
      if k in s.mem.receipts then s.mem.receipts[k].outcome.Some? && s.mem.receipts[k].startedAt < cutoff
      else s.mem.damageAt.Some? && s.mem.damageAt.value < cutoff
  {
    hide Next, Inv;
    if step.Compact? { CompactForgetsTheOld(s, step, k); }
    else if step.Restart? { RestartForgetsTheDeleted(s, step); }
    else if step.Call? || step.Asked? { CallsForgetNothing(s, step); }
    else if step.Ends? { EndsForgetNothing(s, step); }
    else { SmallStepsForgetNothing(s, step); }
  }

  lemma CompactForgetsTheOld(s: Sys, step: Step, k: Key)
    requires Can(s, step) && step.Compact? && k in Next(s, step).forgotten && k !in s.forgotten
    ensures var cutoff := step.now - MAX_AGE_MS;
      if k in s.mem.receipts then s.mem.receipts[k].outcome.Some? && s.mem.receipts[k].startedAt < cutoff
      else s.mem.damageAt.Some? && s.mem.damageAt.value < cutoff
  {
    hide NewestFirst, Gone, Entries, Survivors;
    if k in s.mem.receipts {
      assert k !in Kept(s.mem.receipts, step.order, step.now - MAX_AGE_MS, step.live);
      EvictionMeans(s.mem.receipts, step.order, step.now - MAX_AGE_MS, step.live, k);
    }
  }

  lemma RestartForgetsTheDeleted(s: Sys, step: Step)
    requires step.Restart?
    ensures !step.opening.Deleted? ==> Next(s, step).forgotten == s.forgotten
  {
    hide Load, Scans;
  }

  lemma EndsForgetNothing(s: Sys, step: Step)
    requires step.Ends?
    ensures Next(s, step).forgotten == s.forgotten
  {
    hide Join, Chunk;
  }

  lemma SmallStepsForgetNothing(s: Sys, step: Step)
    requires step.TakesPlace? || step.Background? || step.Indexing?
    ensures Next(s, step).forgotten == s.forgotten
  {
    hide Changed;
  }
}
