/** The stall monitor over whole histories of one run: steps start, work, park and return, the clock
    ticks, other runs keep it going, and the monitor is attached anew.

    `Sys` carries history: `worked` is the last activity of the current execution, `lastTick` the last
    evaluation, `seen` everything published. */
module StallRuns {
  import opened Options
  import opened StallMonitor

  datatype Sys = Sys(
    memory: Memory, record: Option<Execution>, running: bool,
    clock: int, worked: Option<int>, lastTick: int, seen: seq<Out>)

  datatype Step =
    /** The engine starts an execution: its progress is reset and its deadline written with its start. */
    | Starts(key: nat, timeoutMs: Option<int>, now: int)
    | Parks(now: int)
    | Returns(now: int)
    | Works(now: int)
    | Ticks(others: bool, now: int)
    | OthersStart(now: int)
    | Reattaches(now: int)

  function Next(s: Sys, step: Step): Sys {
    match step
    case Starts(key, timeoutMs, now) =>
      var progress := Progress(None, timeoutMs, if timeoutMs.Some? then Some(now + timeoutMs.value) else None, None);
      s.(record := Some(Execution(key, now, progress)), running := true, worked := None,
         memory := Armed(s.memory, now), clock := now)
    case Parks(now) => s.(running := false, clock := now)
    case Returns(now) =>
      if s.record.Some? then s.(running := true, memory := Armed(s.memory, now), clock := now) else s.(clock := now)
    case Works(now) =>
      s.(memory := Noted(s.memory, now), worked := if s.running then Some(now) else s.worked, clock := now)
    case Ticks(others, now) =>
      var t := Evaluated(s.memory, s.record, s.running, others, now);
      s.(memory := t.memory, record := t.record, seen := s.seen + t.outs, clock := now, lastTick := now)
    case OthersStart(now) => s.(memory := Armed(s.memory, now), clock := now)
    case Reattaches(now) =>
      s.(memory := Memory(s.running && s.record.Some?, now, None, None, None), clock := now, lastTick := now)
  }

  /** Time does not run backwards, the clock only ticks while it is armed, and an execution is new. */
  predicate Can(s: Sys, step: Step) {
    && step.now >= s.clock
    && (step.Ticks? ==> s.memory.armed)
    && (step.Starts? ==>
          && (s.memory.episode.Some? ==> step.key != s.memory.episode.value.key)
          && (s.record.Some? ==> step.key != s.record.value.key))
  }

  function Run(s: Sys, steps: seq<Step>): Sys
    decreases |steps|
  {
    if steps == [] then s else Run(Next(s, steps[0]), steps[1..])
  }

  predicate CanAll(s: Sys, steps: seq<Step>)
    decreases |steps|
  {
    steps == [] || (Can(s, steps[0]) && CanAll(Next(s, steps[0]), steps[1..]))
  }

  function Init(now: int): Sys {
    Sys(Memory(false, now, None, None, None), None, false, now, None, now, [])
  }

  /** Another run that starts, or an own step that does or returns, keeps the clock on; neither touches what
      the record says, and work is noted only while the clock is on. */
  lemma ClockIsKept(s: Sys, now: int)
    requires now >= s.clock
    ensures var t := Next(s, OthersStart(now));
      t.memory.armed && t == s.(memory := t.memory, clock := now) && Can(t, Ticks(true, now))
    ensures var t := Next(s, Returns(now));
      && t.record == s.record && t.running == (s.running || s.record.Some?)
      && t.memory == if s.record.None? || s.memory.armed then s.memory else s.memory.(armed := true, observingSince := now)
    ensures var t := Next(s, Works(now));
      && t.record == s.record && t.running == s.running && t.seen == s.seen
      && t.worked == (if s.running then Some(now) else s.worked)
      && t.memory == if s.memory.armed then s.memory.(activity := Some(now)) else s.memory
    ensures Next(s, Reattaches(now)).lastTick == Next(s, Ticks(true, now)).lastTick == now
    ensures Next(s, Returns(now)).clock == Next(s, Works(now)).clock == Next(s, Parks(now)).clock == now
    ensures var t := Next(s, Parks(now)); !t.running && t.record == s.record && t.memory == s.memory
  {}

  // ---- the invariant --------------------------------------------------------------------------------

  /** The watched episode is that of the execution on record. */
  predicate Watched(s: Sys) {
    s.memory.episode.Some? && s.record.Some? && s.memory.episode.value.key == s.record.value.key
  }

  /** No instant is in the future, and whatever runs is watched by an armed clock. */
  predicate Clocks(s: Sys) {
    var m := s.memory;
    && (s.running ==> s.record.Some? && m.armed)
    && m.observingSince <= s.clock && s.lastTick <= s.clock
    && (m.pausedAt.Some? ==> m.pausedAt.value <= s.clock)
    && (m.activity.Some? ==> s.lastTick <= m.activity.value <= s.clock)
    && (s.worked.Some? ==> s.worked.value <= s.clock && s.record.Some? && s.record.value.startedAt <= s.worked.value)
    && (s.record.Some? ==> s.record.value.startedAt <= s.clock)
    && (s.record.Some? && s.record.value.progress.lastActivityAt.Some? ==>
          s.record.value.startedAt <= s.record.value.progress.lastActivityAt.value <= s.clock)
    && (Watched(s) && s.memory.episode.value.lastActivityAt.Some? ==>
          s.record.value.startedAt <= s.memory.episode.value.lastActivityAt.value <= s.clock)
  }

  /** Where quiet would be measured from if the run were evaluated now. */
  function QuietFrom(s: Sys): int
    requires s.record.Some?
  {
    var since := EpisodeFor(s.memory, s.record.value).quietSince;
    if s.memory.activity.Some? then Later(since, s.memory.activity.value) else since
  }

  /** That instant is never before the last work of the execution, nor before its start. */
  predicate NeverBefore(s: Sys) {
    s.record.Some? ==>
      && (s.worked.Some? ==> QuietFrom(s) >= s.worked.value)
      && EpisodeFor(s.memory, s.record.value).quietSince >= s.record.value.startedAt
  }

  /** An execution that is not watched yet has been quiet at most since the last evaluation; one that is
      and was not called silent there was not quiet for long enough then. */
  predicate NeverLate(s: Sys) {
    s.record.Some? ==>
      if Watched(s) then s.memory.episode.value.silent || s.lastTick - s.memory.episode.value.quietSince < QUIET_MS
      else Floor(s.memory, s.record.value) >= s.lastTick
  }

  predicate Inv(s: Sys) { Clocks(s) && NeverBefore(s) && NeverLate(s) }

  lemma NextKeepsInv(s: Sys, step: Step)
    requires Inv(s) && Can(s, step)
    ensures Inv(Next(s, step))
  {
    match step
    case Starts(_, _, _) => StartingKeepsInv(s, step);
    case Ticks(_, _) =>
      if s.running { TickingKeepsInv(s, step); } else { ParkedTickKeepsInv(s, step); }
    case _ => OthersKeepInv(s, step);
  }

  lemma StartingKeepsInv(s: Sys, step: Step)
    requires Inv(s) && Can(s, step) && step.Starts?
    ensures Inv(Next(s, step))
  {}

  lemma ParkedTickKeepsInv(s: Sys, step: Step)
    requires Inv(s) && Can(s, step) && step.Ticks? && !s.running
    ensures Inv(Next(s, step))
  {
    hide Folded, SilenceChecked, DeadlineChecked;
  }

  lemma OthersKeepInv(s: Sys, step: Step)
    requires Inv(s) && Can(s, step) && !step.Starts? && !step.Ticks?
    ensures Inv(Next(s, step))
  {
    match step
    case Works(_) => WorkingKeepsInv(s, step);
    case Reattaches(_) => AttachingKeepsInv(s, step);
    case _ => ArmingKeepsInv(s, step);
  }

  lemma WorkingKeepsInv(s: Sys, step: Step)
    requires Inv(s) && Can(s, step) && step.Works?
    ensures Inv(Next(s, step))
  {}

  lemma AttachingKeepsInv(s: Sys, step: Step)
    requires Inv(s) && Can(s, step) && step.Reattaches?
    ensures Inv(Next(s, step))
  {}

  lemma ArmingKeepsInv(s: Sys, step: Step)
    requires Inv(s) && Can(s, step) && (step.Parks? || step.Returns? || step.OthersStart?)
    ensures Inv(Next(s, step))
  {}

  lemma TickingKeepsInv(s: Sys, step: Step)
    requires Inv(s) && Can(s, step) && step.Ticks? && s.running
    ensures Inv(Next(s, step))
  {
    hide Folded, SilenceChecked, DeadlineChecked;
    SceneFacts(EpisodeFor(s.memory, s.record.value), s.record.value, s.memory.activity, step.now);
  }

  /** What one evaluation makes of an episode and its record. */
  lemma SceneFacts(ep: Episode, record: Execution, activity: Option<int>, now: int)
    ensures var s := DeadlineChecked(SilenceChecked(Folded(Scene(ep, record, []), activity, now), now), now);
      var heard := activity.Some? && activity.value > ep.quietSince;
      && s.episode.key == ep.key && s.record.key == record.key && s.record.startedAt == record.startedAt
      && s.episode.quietSince == (if heard then activity.value else ep.quietSince)
      && s.episode.lastActivityAt == (if heard then activity else ep.lastActivityAt)
      && (s.episode.silent || now - s.episode.quietSince < QUIET_MS)
      && (s.record.progress.lastActivityAt == record.progress.lastActivityAt
          || s.record.progress.lastActivityAt == s.episode.lastActivityAt)
      && s.record.progress.timeoutMs == record.progress.timeoutMs
          && s.record.progress.deadlineAt == record.progress.deadlineAt
  {}

  lemma {:induction false} RunKeepsInv(s: Sys, steps: seq<Step>)
    requires Inv(s) && CanAll(s, steps)
    ensures Inv(Run(s, steps))
    decreases |steps|
  {
    hide Inv, Next, Can;
    if steps != [] {
      NextKeepsInv(s, steps[0]);
      RunKeepsInv(Next(s, steps[0]), steps[1..]);
    }
  }

  // ---- silence: never early, never later than one tick ----------------------------------------------

  lemma SilenceAtTick(s: Sys, step: Step, i: nat)
    requires Inv(s) && Can(s, step) && step.Ticks?
    requires var outs := Evaluated(s.memory, s.record, s.running, step.others, step.now).outs;
      i < |outs| && outs[i].Stalled? && !outs[i].nearTimeout
    ensures var out := Evaluated(s.memory, s.record, s.running, step.others, step.now).outs[i];
      && s.running && s.record.Some? && out.at == step.now && out.key == s.record.value.key
      && (s.worked.Some? ==> step.now - s.worked.value >= QUIET_MS)
      && step.now - s.record.value.startedAt >= QUIET_MS
      && QUIET_MS <= step.now - out.since
      && (step.now - s.lastTick < QUIET_MS ==> step.now - out.since < QUIET_MS + (step.now - s.lastTick))
  {
    hide Folded, SilenceChecked, DeadlineChecked;
    assert s.running ==> s.record.Some?;
    if s.running {
      SilenceInScene(EpisodeFor(s.memory, s.record.value), s.record.value, s.memory.activity, step.now, i);
    }
  }

  lemma SilenceInScene(ep: Episode, record: Execution, activity: Option<int>, now: int, i: nat)
    requires var s := DeadlineChecked(SilenceChecked(Folded(Scene(ep, record, []), activity, now), now), now);
      i < |s.outs| && s.outs[i].Stalled? && !s.outs[i].nearTimeout
    ensures var s := DeadlineChecked(SilenceChecked(Folded(Scene(ep, record, []), activity, now), now), now);
      var heard := activity.Some? && activity.value > ep.quietSince;
      var since := if heard then activity.value else ep.quietSince;
      s.outs[i] == Stalled(ep.key, false, since, now) && now - since >= QUIET_MS && (heard || !ep.silent)
  {}

  /** Over every history: a silent step is reported no earlier than the quiet window after its last work
      and after its start, and no later than one evaluation after the window closed. */
  lemma SilenceOnTime(start: int, steps: seq<Step>, step: Step, i: nat)
    requires CanAll(Init(start), steps) && Can(Run(Init(start), steps), step) && step.Ticks?
    requires var s := Run(Init(start), steps);
      var outs := Evaluated(s.memory, s.record, s.running, step.others, step.now).outs;
      i < |outs| && outs[i].Stalled? && !outs[i].nearTimeout
    ensures var s := Run(Init(start), steps);
      var out := Evaluated(s.memory, s.record, s.running, step.others, step.now).outs[i];
      && s.running && s.record.Some? && out.at == step.now && out.key == s.record.value.key
      && (s.worked.Some? ==> step.now - s.worked.value >= QUIET_MS)
      && step.now - s.record.value.startedAt >= QUIET_MS
      && QUIET_MS <= step.now - out.since
      && (step.now - s.lastTick < QUIET_MS ==> step.now - out.since < QUIET_MS + (step.now - s.lastTick))
  {
    hide Run, CanAll, Evaluated;
    RunKeepsInv(Init(start), steps);
    SilenceAtTick(Run(Init(start), steps), step, i);
  }

  /** And it is reported: after an evaluation of a running step, either it is called silent or its quiet
      span is still too short. */
  lemma SilenceIsSeen(start: int, steps: seq<Step>, step: Step)
    requires CanAll(Init(start), steps) && Can(Run(Init(start), steps), step) && step.Ticks?
        && Run(Init(start), steps).running
    ensures var s := Run(Init(start), steps);
      var t := Next(s, step);
      && s.record.Some? && t.memory.episode.Some? && t.memory.episode.value.key == s.record.value.key
      && (t.memory.episode.value.silent || step.now - t.memory.episode.value.quietSince < QUIET_MS)
      && (t.memory.episode.value.silent && !(Watched(s) && s.memory.episode.value.silent) ==>
            exists out :: out in Evaluated(s.memory, s.record, s.running, step.others, step.now).outs
                     && out.Stalled? && !out.nearTimeout)
  {
    hide Run, CanAll, Next, Evaluated;
    RunKeepsInv(Init(start), steps);
    SeenAtTick(Run(Init(start), steps), step);
  }

  lemma SeenAtTick(s: Sys, step: Step)
    requires Inv(s) && Can(s, step) && step.Ticks? && s.running
    ensures var t := Next(s, step);
      && t.memory.episode.Some? && t.memory.episode.value.key == s.record.value.key
      && (t.memory.episode.value.silent || step.now - t.memory.episode.value.quietSince < QUIET_MS)
      && (t.memory.episode.value.silent && !(Watched(s) && s.memory.episode.value.silent) ==>
            exists out :: out in Evaluated(s.memory, s.record, s.running, step.others, step.now).outs
                     && out.Stalled? && !out.nearTimeout)
  {
    var outs := Evaluated(s.memory, s.record, s.running, step.others, step.now).outs;
    var t := Next(s, step);
    if t.memory.episode.value.silent && !(Watched(s) && s.memory.episode.value.silent) {
      assert outs[0].Stalled? && !outs[0].nearTimeout;
    }
  }

  // ---- the deadline ---------------------------------------------------------------------------------

  predicate NearTimeout(out: Out) { out.Stalled? && out.nearTimeout }

  /** A watch is not an execution: parked over one evaluation and back, the same execution is warned about
      a second time, although its deadline has not moved. */
  lemma DeadlineWarnsAgain()
    ensures var steps := [Starts(1, Some(100), 0), Ticks(false, 90), Parks(91), Ticks(true, 92), Returns(93),
        Ticks(false, 94)];
      var s := Run(Init(0), steps);
      && CanAll(Init(0), steps)
      && Stalled(1, true, 0, 90) in s.seen && Stalled(1, true, 0, 94) in s.seen
  {
    var first := [Starts(1, Some(100), 0), Ticks(false, 90), Parks(91)];
    var second := [Ticks(true, 92), Returns(93), Ticks(false, 94)];
    WarnsOnce();
    var s := Run(Init(0), first);
    WarnsOnceMore(s);
    assert first + second == [Starts(1, Some(100), 0), Ticks(false, 90), Parks(91), Ticks(true, 92), Returns(93),
        Ticks(false, 94)];
    Joined(Init(0), first, second);
  }

  predicate WarnedAndParked(s: Sys) {
    && s.record.Some? && s.record.value.key == 1 && s.record.value.startedAt == 0 && !s.running && s.clock == 91
    && s.record.value.progress.timeoutMs == Some(100) && s.record.value.progress.deadlineAt == Some(100)
    && s.record.value.progress.lastActivityAt == None
    && s.memory == Memory(true, 0, None, None, Some(Episode(1, 0, None, false, true, Some((0, 90)))))
    && Stalled(1, true, 0, 90) in s.seen
  }

  lemma {:induction false} WarnsOnce()
    ensures var steps := [Starts(1, Some(100), 0), Ticks(false, 90), Parks(91)];
      CanAll(Init(0), steps) && WarnedAndParked(Run(Init(0), steps))
  {
    var steps := [Starts(1, Some(100), 0), Ticks(false, 90), Parks(91)];
    var s1 := Next(Init(0), steps[0]);
    var s2 := Next(s1, steps[1]);
    assert s2.seen[0] == Stalled(1, true, 0, 90);
    Three(Init(0), steps);
  }

  lemma {:induction false} WarnsOnceMore(s: Sys)
    requires WarnedAndParked(s)
    ensures var steps := [Ticks(true, 92), Returns(93), Ticks(false, 94)];
      var t := Run(s, steps);
      CanAll(s, steps) && Stalled(1, true, 0, 94) in t.seen && s.seen <= t.seen
  {
    var steps := [Ticks(true, 92), Returns(93), Ticks(false, 94)];
    var s1 := Next(s, steps[0]);
    var s2 := Next(s1, steps[1]);
    var s3 := Next(s2, steps[2]);
    assert s3.seen[|s2.seen|] == Stalled(1, true, 0, 94);
    Three(s, steps);
  }

  lemma {:induction false} Joined(s: Sys, a: seq<Step>, b: seq<Step>)
    ensures Run(s, a + b) == Run(Run(s, a), b)
    ensures CanAll(s, a + b) <==> CanAll(s, a) && CanAll(Run(s, a), b)
    decreases |a|
  {
    hide Next, Can;
    if a == [] {
      assert a + b == b;
    } else {
      assert (a + b)[1..] == a[1..] + b;
      Joined(Next(s, a[0]), a[1..], b);
    }
  }

  // ---- every resume answers a stall -----------------------------------------------------------------

  predicate OfSilence(out: Out) { out.Resumed? || (out.Stalled? && !out.nearTimeout) }

  /** The last thing said about the silence of any execution. */
  function LastSaid(seen: seq<Out>): Option<Out> {
    if seen == [] then None
    else if OfSilence(seen[|seen| - 1]) then Some(seen[|seen| - 1])
    else LastSaid(seen[..|seen| - 1])
  }

  /** Every resume follows a silence stall of the same execution with nothing said in between. */
  predicate Paired(seen: seq<Out>) {
    seen == [] ||
      (Paired(seen[..|seen| - 1])
       && (seen[|seen| - 1].Resumed? ==>
             var last := LastSaid(seen[..|seen| - 1]);
             last.Some? && last.value.Stalled? && last.value.key == seen[|seen| - 1].key))
  }

  /** An episode that counts as silent is one the reader was last told about. */
  predicate ToldOf(s: Sys) {
    Paired(s.seen)
    && (s.memory.episode.Some? && s.memory.episode.value.silent ==>
          var last := LastSaid(s.seen);
          last.Some? && last.value.Stalled? && last.value.key == s.memory.episode.value.key)
  }

  /** Publishing one more thing keeps the pairing, if a resume follows its stall. */
  lemma OneMoreSaid(seen: seq<Out>, out: Out)
    requires Paired(seen)
    requires out.Resumed? ==> var last := LastSaid(seen); last.Some? && last.value.Stalled? && last.value.key == out.key
    ensures Paired(seen + [out]) && LastSaid(seen + [out]) == if OfSilence(out) then Some(out) else LastSaid(seen)
  {
    assert (seen + [out])[..|seen|] == seen;
  }

  /** A scene's outputs, appended to what was said before. */
  predicate ToldIn(seen: seq<Out>, s: Scene) {
    Paired(seen + s.outs)
    && (s.episode.silent ==>
          var last := LastSaid(seen + s.outs);
          last.Some? && last.value.Stalled? && last.value.key == s.episode.key)
  }

  lemma WrittenIsTold(seen: seq<Out>, s: Scene, now: int)
    requires ToldIn(seen, s)
    ensures ToldIn(seen, Written(s, now))
  {
    var out := Wrote(s.record.key, s.record.progress, ProgressOf(s.episode, s.record, now));
    OneMoreSaid(seen + s.outs, out);
    assert seen + (s.outs + [out]) == (seen + s.outs) + [out];
  }

  lemma SaidIsTold(seen: seq<Out>, s: Scene, ep: Episode, out: Out)
    requires ToldIn(seen, s) && ep.key == s.episode.key
    requires out.Resumed? ==> s.episode.silent && !ep.silent
    requires out.Stalled? ==> ep.silent == (s.episode.silent || !out.nearTimeout)
    requires !out.Wrote? && out.key == ep.key
    ensures ToldIn(seen, s.(episode := ep, outs := s.outs + [out]))
  {
    OneMoreSaid(seen + s.outs, out);
    assert seen + (s.outs + [out]) == (seen + s.outs) + [out];
  }

  lemma SceneIsTold(seen: seq<Out>, start: Scene, activity: Option<int>, now: int)
    requires ToldIn(seen, start)
    ensures ToldIn(seen, DeadlineChecked(SilenceChecked(Folded(start, activity, now), now), now))
  {
    hide Paired, LastSaid, ProgressOf, Written, DeadlineNear;
    FoldedIsTold(seen, start, activity, now);
    var a := Folded(start, activity, now);
    hide Folded;
    SilenceIsTold(seen, a, now);
    var b := SilenceChecked(a, now);
    hide SilenceChecked;
    DeadlineIsTold(seen, b, now);
  }

  lemma FoldedIsTold(seen: seq<Out>, s: Scene, activity: Option<int>, now: int)
    requires ToldIn(seen, s)
    ensures ToldIn(seen, Folded(s, activity, now))
  {
    hide Paired, LastSaid, Written;
    if activity.Some? && activity.value > s.episode.quietSince && s.episode.silent {
      var ep := s.episode.(quietSince := activity.value, lastActivityAt := activity, silent := false);
      SaidIsTold(seen, s, ep, Resumed(ep.key, now));
      WrittenIsTold(seen, s.(episode := ep, outs := s.outs + [Resumed(ep.key, now)]), now);
    }
  }

  lemma SilenceIsTold(seen: seq<Out>, s: Scene, now: int)
    requires ToldIn(seen, s)
    ensures ToldIn(seen, SilenceChecked(s, now))
  {
    hide Paired, LastSaid, Written;
    if !s.episode.silent && now - s.episode.quietSince >= QUIET_MS {
      var ep := s.episode.(silent := true);
      SaidIsTold(seen, s, ep, Stalled(ep.key, false, ep.quietSince, now));
      WrittenIsTold(seen, s.(episode := ep, outs := s.outs + [Stalled(ep.key, false, ep.quietSince, now)]), now);
    }
  }

  lemma DeadlineIsTold(seen: seq<Out>, s: Scene, now: int)
    requires ToldIn(seen, s)
    ensures ToldIn(seen, DeadlineChecked(s, now))
  {
    hide Paired, LastSaid, Written;
    var p := s.record.progress;
    if !s.episode.warned && DeadlineNear(p, now) {
      var since := p.deadlineAt.value - p.timeoutMs.value;
      var ep := s.episode.(warned := true, observation := Some((since, now)));
      SaidIsTold(seen, s, ep, Stalled(ep.key, true, since, now));
      WrittenIsTold(seen, s.(episode := ep, outs := s.outs + [Stalled(ep.key, true, since, now)]), now);
    }
  }

  lemma StepIsTold(s: Sys, step: Step)
    requires ToldOf(s) && Can(s, step)
    ensures ToldOf(Next(s, step))
  {
    hide Paired, LastSaid, Folded, SilenceChecked, DeadlineChecked, Floor;
    if step.Ticks? {
      if s.running && s.record.Some? {
        var start := Scene(EpisodeFor(s.memory, s.record.value), s.record.value, []);
        assert s.seen + [] == s.seen;
        SceneIsTold(s.seen, start, s.memory.activity, step.now);
      } else {
        var outs := Evaluated(s.memory, s.record, s.running, step.others, step.now).outs;
        if outs != [] {
          OneMoreSaid(s.seen, outs[0]);
          assert outs == [outs[0]];
        } else {
          assert s.seen + [] == s.seen;
        }
      }
    }
  }

  /** Over every history, every resume is matched to an earlier silence stall of the same execution. */
  lemma {:induction false} ResumesArePaired(s: Sys, steps: seq<Step>)
    requires ToldOf(s) && CanAll(s, steps)
    ensures ToldOf(Run(s, steps)) && Paired(Run(s, steps).seen)
    decreases |steps|
  {
    hide Next, Can, Paired, LastSaid;
    if steps != [] {
      StepIsTold(s, steps[0]);
      ResumesArePaired(Next(s, steps[0]), steps[1..]);
    }
  }

  // ---- the record -----------------------------------------------------------------------------------

  /** The stall on record is one the watched episode stands behind. */
  predicate HonestRecord(s: Sys) {
    && (s.record.Some? && s.record.value.progress.stall.Some? ==>
          Watched(s) && if s.record.value.progress.stall.value.nearTimeout then s.memory.episode.value.warned
                        else s.memory.episode.value.silent)
    && (Watched(s) && s.memory.episode.value.warned ==>
          && s.memory.episode.value.observation.Some?
          && var o := s.memory.episode.value.observation.value;
             s.record.value.progress.stall == Some(Stall(true, o.0, o.1)))
  }

  /** Attaching anew is the one step that leaves a stall nobody stands behind: the new monitor knows
      nothing of it, so neither new activity nor the end of the step takes it off the record. */
  lemma HonestRecordIff(s: Sys, step: Step)
    requires Inv(s) && Can(s, step) && HonestRecord(s)
    ensures HonestRecord(Next(s, step)) <==>
      !(step.Reattaches? && s.record.Some? && s.record.value.progress.stall.Some?)
  {
    hide Inv, Floor;
    if step.Ticks? && s.running && s.record.Some? {
      HonestScene(EpisodeFor(s.memory, s.record.value), s.record.value, s.memory.activity, step.now);
      hide Folded, SilenceChecked, DeadlineChecked;
    } else {
      hide Folded, SilenceChecked, DeadlineChecked;
    }
  }

  predicate HonestPair(ep: Episode, e: Execution) {
    && (e.progress.stall.Some? ==> if e.progress.stall.value.nearTimeout then ep.warned else ep.silent)
    && (ep.warned ==> ep.observation.Some?
                      && e.progress.stall == Some(Stall(true, ep.observation.value.0, ep.observation.value.1)))
  }

  lemma HonestScene(ep: Episode, record: Execution, activity: Option<int>, now: int)
    requires HonestPair(ep, record)
    ensures var s := DeadlineChecked(SilenceChecked(Folded(Scene(ep, record, []), activity, now), now), now);
      HonestPair(s.episode, s.record) && s.episode.key == ep.key && s.record.key == record.key
  {}

  const LINGERING := Progress(None, None, None, Some(Stall(false, 0, 300_000)))

  /** The record after a stall was published and the monitor attached anew. */
  predicate LeftBehind(s: Sys) {
    && s.record == Some(Execution(1, 0, LINGERING)) && s.running && s.clock == 300_001
    && s.memory == Memory(true, 300_001, None, None, None)
  }

  lemma {:induction false} LeavesItBehind()
    ensures var steps := [Starts(1, None, 0), Ticks(false, 300_000), Reattaches(300_001)];
      CanAll(Init(0), steps) && LeftBehind(Run(Init(0), steps))
  {
    var steps := [Starts(1, None, 0), Ticks(false, 300_000), Reattaches(300_001)];
    var s1 := Next(Init(0), steps[0]);
    var s2 := Next(s1, steps[1]);
    assert s2.record == Some(Execution(1, 0, LINGERING));
    Three(Init(0), steps);
  }

  lemma {:induction false} StaysBehind(s: Sys)
    requires LeftBehind(s)
    ensures var steps := [Works(300_002), Ticks(false, 330_000), Parks(330_001), Ticks(false, 360_000)];
      var t := Run(s, steps);
      && CanAll(s, steps) && t.record == Some(Execution(1, 0, LINGERING))
      && !t.running && t.memory.episode.None? && !t.memory.armed
  {
    var steps := [Works(300_002), Ticks(false, 330_000), Parks(330_001), Ticks(false, 360_000)];
    var s1 := Next(s, steps[0]);
    var s2 := Next(s1, steps[1]);
    assert s2.record == s.record && s2.memory.episode == Some(Episode(1, 300_002, Some(300_002), false, false, None));
    Three(s1, steps[1..]);
    assert Run(s, steps) == Run(s1, steps[1..]) && (CanAll(s, steps) <==> Can(s, steps[0]) && CanAll(s1, steps[1..]));
  }

  lemma Three(s: Sys, steps: seq<Step>)
    requires |steps| == 3
    ensures var t := Next(s, steps[0]);
      && Run(s, steps) == Next(Next(t, steps[1]), steps[2])
      && (CanAll(s, steps) <==> Can(s, steps[0]) && Can(t, steps[1]) && Can(Next(t, steps[1]), steps[2]))
  {
    hide Next, Can;
    var t := Next(s, steps[0]);
    var u := Next(t, steps[1]);
    assert Run(u, steps[2..]) == Next(u, steps[2]) && (CanAll(u, steps[2..]) <==> Can(u, steps[2]));
    assert Run(t, steps[1..]) == Run(u, steps[2..])
        && (CanAll(t, steps[1..]) <==> Can(t, steps[1]) && CanAll(u, steps[2..]));
  }

  /** It stays through renewed activity and through the end of the step: a finished step whose record
      still reads as stalled. */
  lemma StallLingers()
    ensures var left := Run(Init(0), [Starts(1, None, 0), Ticks(false, 300_000), Reattaches(300_001)]);
      var later := Run(left, [Works(300_002), Ticks(false, 330_000), Parks(330_001), Ticks(false, 360_000)]);
      && later.record == Some(Execution(1, 0, LINGERING)) && !later.running && !later.memory.armed
  {
    hide Run, LeftBehind;
    LeavesItBehind();
    StaysBehind(Run(Init(0), [Starts(1, None, 0), Ticks(false, 300_000), Reattaches(300_001)]));
  }

  /** The record is written on a silence transition even when that changes nothing: exactly when the
      deadline warning already occupies the stall and no activity was taken in since it was written. */
  lemma SilenceWriteChangesIff(s: Scene, now: int)
    requires HonestPair(s.episode, s.record)
    requires !s.episode.silent && now - s.episode.quietSince >= QUIET_MS
    ensures var t := SilenceChecked(s, now);
      t.record == s.record <==> s.episode.warned && s.record.progress.lastActivityAt == s.episode.lastActivityAt
  {}

  /** A resume and a deadline warning always change it. */
  lemma OtherWritesChange(s: Scene, activity: Option<int>, now: int)
    requires HonestPair(s.episode, s.record)
    requires s.record.progress.lastActivityAt.Some? ==> s.record.progress.lastActivityAt.value <= s.episode.quietSince
    ensures var t := Folded(s, activity, now); t.outs != s.outs ==> t.record != s.record
    ensures var t := DeadlineChecked(s, now);
      t.outs != s.outs ==> t.record != s.record
  {}
}
