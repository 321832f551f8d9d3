/** What the leader may rely on, over the runs of `LeaderRuns`. */
module LeaderPromises {
  import opened Options
  import opened Text
  import opened JournalRows
  import opened Journal
  import J = JournalRuns
  import opened JournalFollow
  import opened LeaderRecord
  import opened LeaderPush
  import opened LeaderScan
  import opened LeaderRuns

  // ---- what an acknowledgement covers ---------------------------------------------------------------

  /** Each acknowledged row was read or pushed, lies in a gap the leader was told of, is older than its
      record, or was stepped over untold. Any other is a routine success or an echo of the leader's own
      operation that a pushed cursor passed over. */
  lemma AcknowledgedWasAccountedFor(s: Sys, n: nat)
    requires Inv(s) && 0 < n <= s.record.acked.through
    ensures var p := (s.memGen, n);
      && InLog(s.j, p)
      && (p !in s.read + s.push.pushed + s.stated + s.notOwed + s.push.skipped ==>
            Behind(s.push.offered, p) && (IsRoutine(s.j, p) || IsEcho(s.j, p, s.push.issued)))
  {
    var c := s.record.acked.cursor;
    assert (s.memGen, c) in s.held && J.MintedBy(s.j, c, s.memGen) && Covered(s, s.memGen, c.position);
    hide J.Inv, ControllerInv, IsRoutine, IsEcho, Behind;
  }

  /** Nothing else stays behind a cursor: a significant row that is not the leader's own doing reached it
      or was named. */
  lemma OthersReachTheLeader(s: Sys, n: nat)
    requires Inv(s) && 0 < n <= s.record.acked.through
    ensures var p := (s.memGen, n);
      && InLog(s.j, p)
      && (!RoutineSuccess(EventAt(s.j, p)) && !OwnDoing(EventAt(s.j, p), s.push.issued) ==>
            p in s.read + s.push.pushed + s.stated + s.notOwed + s.push.skipped)
  {
    AcknowledgedWasAccountedFor(s, n);
  }

  /** Over every run, what was left out behind a cursor, or waits to be, is there for one of the two
      reasons: the row says that a routine check passed, or it names the leader as its origin and one of
      the leader's operations as its cause. What was pushed is no routine success. */
  lemma LeftOutForAReason(project: seq<Unit>, epoch: Epoch, steps: seq<Step>, t: Sys)
    requires J.Inv(Init(project, epoch).j) && CanAll(Init(project, epoch), steps) && t == Run(Init(project, epoch), steps)
    requires J.Trustworthy(t.j)
    ensures forall p <- t.push.omitted + t.push.over :: InLog(t.j, p) && RoutineSuccess(EventAt(t.j, p))
    ensures forall p <- t.push.echoed + t.push.kept ::
      InLog(t.j, p) && !RoutineSuccess(EventAt(t.j, p)) && OwnDoing(EventAt(t.j, p), t.push.issued)
    ensures forall p <- t.push.pushed :: InLog(t.j, p) && !RoutineSuccess(EventAt(t.j, p))
  {
    hide Run, CanAll, J.Inv, ControllerInv, HeldAreCovered, J.Trustworthy, RoutineSuccess, OwnDoing, EventAt, InLog;
    InitInv(project, epoch);
    RunKeepsInv(Init(project, epoch), steps);
    forall p | p in t.push.omitted + t.push.over ensures IsRoutine(t.j, p) {}
    forall p | p in t.push.echoed + t.push.kept ensures IsPushable(t.j, p) && IsEcho(t.j, p, t.push.issued) {}
    forall p | p in t.push.pushed ensures IsPushable(t.j, p) {}
  }

  // ---- nothing owed is lost -------------------------------------------------------------------------

  /** A leader's read without a cursor, and then page after page while nothing new happens: every
      retained row after the acknowledged place comes back, at once or after the gap is stated. */
  lemma OwedRowsComeBack(s: Sys, rounds: seq<Round>)
    requires Inv(s) && J.Trustworthy(s.j) && Quiet(rounds) && |rounds| >= |J.Current(s.j)|
    ensures Valid(s.j.mem) && J.MintedBy(s.j, s.record.acked.cursor, s.memGen)
    ensures var log := J.Current(s.j);
      var first := |log| - |s.j.mem.rows|;
      var acked := s.record.acked.through;
      && |s.j.mem.rows| <= |log|
      && var r := Read(s.j.mem, Some(Decoded(s.record.acked.cursor)), 1);
      if s.memGen == s.j.gen && acked >= first then
        && acked <= |log| && RoundsAllowed(s.j, s.record.acked.cursor, rounds)
        && Follow(s.j, s.record.acked.cursor, rounds).rows == log[acked..]
      else
        && r.TooOld? && RoundsAllowed(s.j, r.resume, rounds)
        && Follow(s.j, r.resume, rounds).rows == log[first..] == s.j.mem.rows
  {
    hide Read, J.Trustworthy, J.Inv, J.MintedBy, J.Replays, Follow, RoundsAllowed, Covered, ControllerInv, LeftOutInv, Quiet;
    J.InvMeansValid(s.j);
    var c := s.record.acked.cursor;
    assert (s.memGen, c) in s.held && J.MintedBy(s.j, c, s.memGen);
    J.ReadMeans(s.j, c, s.memGen, 1);
    GapOrPage(s.j, c, s.memGen, Read(s.j.mem, Some(Decoded(c)), 1));
    if s.memGen == s.j.gen && c.position >= |J.Current(s.j)| - |s.j.mem.rows| {
      DrainReachesHead(s.j, c, rounds);
    } else {
      DrainAfterTheGap(s.j, c, rounds);
    }
  }

  lemma GapOrPage(j: J.Sys, c: Cursor, g: nat, r: ReadResult)
    requires J.Inv(j) && J.MintedBy(j, c, g) && J.Replays(j, c, g, r)
    ensures |j.mem.rows| <= |J.Current(j)| && j.mem.rows == J.Current(j)[|J.Current(j)| - |j.mem.rows|..]
    ensures g == j.gen && c.position >= |J.Current(j)| - |j.mem.rows| ==> c.position <= |J.Current(j)|
    ensures !(g == j.gen && c.position >= |J.Current(j)| - |j.mem.rows|) ==> r.TooOld?
  {
    hide J.Numbered, J.FileInv, J.MintInv;
  }

  lemma DrainAfterTheGap(j: J.Sys, c: Cursor, rounds: seq<Round>)
    requires J.Inv(j) && J.Trustworthy(j) && Quiet(rounds) && |rounds| >= |J.Current(j)|
    requires Valid(j.mem) && Read(j.mem, Some(Decoded(c)), 1).TooOld? && |j.mem.rows| <= |J.Current(j)|
    ensures var resume := Read(j.mem, Some(Decoded(c)), 1).resume;
      && RoundsAllowed(j, resume, rounds)
      && Follow(j, resume, rounds).rows == J.Current(j)[|J.Current(j)| - |j.mem.rows|..]
  {
    hide Read, J.Trustworthy, J.Inv, J.MintedBy, Follow, RoundsAllowed;
    GapFacts(j, c, 1);
    ResumeIsMinted(j, Read(j.mem, Some(Decoded(c)), 1).resume);
    DrainReachesHead(j, Read(j.mem, Some(Decoded(c)), 1).resume, rounds);
  }

  // ---- the acknowledged place never moves back ------------------------------------------------------

  /** Places are ordered by creation, then by number. */
  ghost predicate NotBehind(t: Sys, s: Sys) {
    t.memGen > s.memGen || (t.memGen == s.memGen && t.record.acked.through >= s.record.acked.through)
  }

  /** Reads, rewinds, pushes and reactions leave the acknowledged place exactly where it was. */
  lemma OnlyAcksMoveIt(s: Sys, step: Step)
    requires J.Inv(s.j) && Can(s, step) && !step.Acking? && !step.Restarting?
    ensures Next(s, step).record.acked == s.record.acked && Next(s, step).memGen == s.memGen
    ensures Next(s, step).record.ackedByLeader == s.record.ackedByLeader
  {
    hide J.Inv, J.Next, Read, GapBetween, J.Allowed, ScanOf, SteppedOver, Recovered, Told, GetsPast, Resumed, Raised;
  }

  lemma AckMovesForward(s: Sys, step: Step)
    requires Inv(s) && Can(s, step) && step.Acking? && J.Trustworthy(s.j)
    ensures NotBehind(Next(s, step), s)
  {
    hide J.Inv, ControllerInv, LeftOutInv, HeldAreCovered, Next, J.MintedBy, J.Trustworthy;
    var (g, c) := step.token;
    HeldIsOurs(s, step.token);
    HeldIsOurs(s, (s.memGen, s.record.acked.cursor));
    AckStep(s, step);
    MintedInTime(s.j, s.record.acked.cursor, s.memGen);
    SameEpochSameCreation(s.j, c, g);
    SameEpochSameCreation(s.j, s.record.acked.cursor, s.memGen);
  }

  /** The file agrees with memory about the acknowledged place. */
  ghost predicate Synced(s: Sys) {
    s.file.Holds? && s.file.record.acked == s.record.acked && s.fileGen == s.memGen
  }

  predicate SavesAndIsSound(step: Step) {
    match step
    case Restarting(_, damaged, saved) => !damaged && saved
    case Delivering(_, saved) => saved
    case Reacting(_, saved) => saved
    case Acking(_, saved) => saved
    case _ => true
  }

  /** Either the process lives on, or every save reached the disk and the file survives. */
  ghost predicate Durable(s: Sys, steps: seq<Step>) {
    (forall step <- steps :: !step.Restarting?) || (Synced(s) && forall step <- steps :: SavesAndIsSound(step))
  }

  lemma DurableStep(s: Sys, steps: seq<Step>)
    requires J.Inv(s.j) && CanAll(s, steps) && steps != [] && Durable(s, steps)
    ensures Can(s, steps[0]) && Durable(Next(s, steps[0]), steps[1..])
    ensures steps[0].Restarting? ==> Next(s, steps[0]).record.acked == s.record.acked && Next(s, steps[0]).memGen == s.memGen
  {
    hide J.Inv, J.Next, Read, GapBetween, J.Allowed, AckOf, CanAll, ScanOf, SteppedOver, Recovered, Told, GetsPast, Resumed,
         Raised;
    assert CanAll(s, steps) ==> Can(s, steps[0]) by { CanFirst(s, steps); }
    assert steps[0] in steps && forall step <- steps[1..] :: step in steps;
  }

  lemma CanFirst(s: Sys, steps: seq<Step>)
    requires J.Inv(s.j) && CanAll(s, steps) && steps != []
    ensures Can(s, steps[0])
  {}

  /** Acknowledgements are monotone over whole runs: within one process always, and across restarts as
      long as what was saved is there. */
  lemma {:induction false} AckNeverMovesBack(s: Sys, steps: seq<Step>)
    requires Inv(s) && CanAll(s, steps) && J.Trustworthy(Run(s, steps).j) && Durable(s, steps)
    ensures NotBehind(Run(s, steps), s)
    decreases |steps|
  {
    hide HeldAreCovered, Anchored, J.Grows, Next, Can, J.Inv, J.Trustworthy, Durable, Synced;
    if steps != [] {
      JournalStays(s, steps[0]);
      var t := Next(s, steps[0]);
      GrowsToTheEnd(t, steps[1..]);
      J.GrowsOn(s.j, t.j, Run(s, steps).j);
      LeaderRuns.TrustGoesBack(s.j, Run(s, steps).j);
      LeaderRuns.TrustGoesBack(t.j, Run(s, steps).j);
      NextKeepsInv(s, steps[0]);
      DurableStep(s, steps);
      AckNeverMovesBack(t, steps[1..]);
      if steps[0].Acking? { AckMovesForward(s, steps[0]); }
      else if !steps[0].Restarting? { OnlyAcksMoveIt(s, steps[0]); }
    }
  }

  /** A delivery or reaction that moves its position forward, and whose write succeeds, is on disk; the
      acknowledged place there is the one in memory. */
  lemma MarksAreSaved(s: Sys, step: Step)
    requires J.Inv(s.j) && Can(s, step) && (step.Delivering? || step.Reacting?) && step.saved
    requires s.record.epoch == s.j.mem.epoch
    ensures var t := Next(s, step);
      && t.record == (if step.Delivering? then s.record.(deliveredSeq := Max(s.record.deliveredSeq, step.through))
                      else s.record.(reactedSeq := Max(s.record.reactedSeq, step.through)))
      && (if t.record != s.record then t.file == Holds(t.record) && t.fileGen == t.memGen else t.file == s.file)
  {
    hide J.Inv;
  }

  /** A record that cannot be read begins anew at the head, with nothing delivered, reacted or acknowledged
      by the leader; until it was written once, the next start begins anew as well. */
  lemma DamagedBeginsAnew(s: Sys, step: Step)
    requires J.Inv(s.j) && Can(s, step) && step.Restarting? && (step.damaged || s.file.Unusable?)
    ensures var t := Next(s, step);
      && t.record.epoch == t.record.acked.epoch == t.j.mem.epoch && t.record.acked.through == t.j.mem.latest
      && t.record.deliveredSeq == 0 && t.record.reactedSeq == 0 && !t.record.ackedByLeader && t.memGen == t.j.gen
      && t.file == (if step.saved then Holds(t.record) else Unusable)
  {
    hide J.Inv, J.Next, J.Allowed, Resumed;
  }

  /** Without the save the place does come back: an acknowledgement whose write failed is forgotten by
      the next restart, which hands the same rows out again. */
  lemma UnsavedAckIsForgotten(s: Sys, token: (nat, Cursor), restart: J.Step)
    requires Inv(s) && Synced(s) && token in s.held && restart.Restart? && J.Allowed(s.j, restart)
    ensures var acked := Next(s, Acking(token, false));
      && J.Inv(acked.j) && Can(acked, Restarting(restart, false, true))
      && Next(acked, Restarting(restart, false, true)).record.acked == s.record.acked
  {
    hide Next, J.Inv, J.Allowed, HeldAreCovered, ControllerInv, LeftOutInv;
    HeldIsOurs(s, token);
    AckStep(s, Acking(token, false));
    RestartTakesTheFile(Next(s, Acking(token, false)), Restarting(restart, false, true));
  }

  lemma RestartTakesTheFile(s: Sys, step: Step)
    requires J.Inv(s.j) && Can(s, step) && step.Restarting? && !step.damaged && s.file.Holds?
    ensures Next(s, step).record == s.file.record
  {
    hide J.Inv, J.Next, J.Allowed;
  }
}
