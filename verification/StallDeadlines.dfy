/** How often one execution is warned about its deadline. */
module StallDeadlines {
  import opened Options
  import opened StallMonitor
  import opened StallRuns

  predicate WarnsOf(out: Out, key: nat) { NearTimeout(out) && out.key == key }

  function Warnings(seen: seq<Out>, key: nat): nat {
    if seen == [] then 0 else Warnings(seen[..|seen| - 1], key) + if WarnsOf(seen[|seen| - 1], key) then 1 else 0
  }

  lemma {:induction false} WarningsAdd(a: seq<Out>, b: seq<Out>, key: nat)
    ensures Warnings(a + b, key) == Warnings(a, key) + Warnings(b, key)
    decreases |b|
  {
    if b == [] {
      assert a + b == a;
    } else {
      WarningsAdd(a, b[..|b| - 1], key);
      assert (a + b)[..|a + b| - 1] == a + b[..|b| - 1];
    }
  }

  lemma {:induction false} NoWarnings(seen: seq<Out>, key: nat)
    requires forall out <- seen :: !WarnsOf(out, key)
    ensures Warnings(seen, key) == 0
    decreases |seen|
  {
    if seen != [] {
      assert seen[|seen| - 1] in seen && forall out <- seen[..|seen| - 1] :: out in seen;
      NoWarnings(seen[..|seen| - 1], key);
    }
  }

  /** This watch has given its warning. */
  predicate Warned(s: Sys) { Watched(s) && s.memory.episode.value.warned }

  lemma QuietBeforeDeadline(ep: Episode, record: Execution, activity: Option<int>, now: int, key: nat)
    ensures var a := SilenceChecked(Folded(Scene(ep, record, []), activity, now), now);
      && (forall out <- a.outs :: !WarnsOf(out, key)) && a.episode.warned == ep.warned && a.episode.key == ep.key
      && a.record.progress.timeoutMs == record.progress.timeoutMs && a.record.progress.deadlineAt == record.progress.deadlineAt
  {}

  lemma SceneWarnings(ep: Episode, record: Execution, activity: Option<int>, now: int, key: nat)
    ensures var b := DeadlineChecked(SilenceChecked(Folded(Scene(ep, record, []), activity, now), now), now);
      Warnings(b.outs, key) == if key == ep.key && !ep.warned && DeadlineNear(record.progress, now) then 1 else 0
    ensures var b := DeadlineChecked(SilenceChecked(Folded(Scene(ep, record, []), activity, now), now), now);
      b.episode.warned == (ep.warned || DeadlineNear(record.progress, now))
  {
    hide Folded, SilenceChecked;
    QuietBeforeDeadline(ep, record, activity, now, key);
    var a := SilenceChecked(Folded(Scene(ep, record, []), activity, now), now);
    NoWarnings(a.outs, key);
    var b := DeadlineChecked(a, now);
    if b.outs != a.outs {
      assert |b.outs| == |a.outs| + 2;
      var x, y := b.outs[|a.outs|], b.outs[|a.outs| + 1];
      assert b.outs == a.outs + [x, y] && [x, y] == [x] + [y] && [x][..0] == [] && [y][..0] == [];
      WarningsAdd(a.outs, [x, y], key);
      WarningsAdd([x], [y], key);
    }
  }

  /** What one step that neither starts, parks over an evaluation nor attaches anew adds. */
  predicate Uninterrupting(s: Sys, step: Step) { !step.Starts? && !step.Reattaches? && (step.Ticks? ==> s.running) }

  predicate Due(s: Sys, step: Step) { step.Ticks? && s.record.Some? && DeadlineNear(s.record.value.progress, step.now) }

  /** The execution on record, in what the deadline depends on. */
  predicate SameExecution(s: Sys, t: Sys) {
    && s.record.Some? && t.record.Some? && t.record.value.key == s.record.value.key
    && t.record.value.progress.timeoutMs == s.record.value.progress.timeoutMs
    && t.record.value.progress.deadlineAt == s.record.value.progress.deadlineAt
  }

  lemma StepWarnings(s: Sys, step: Step, key: nat)
    requires Inv(s) && Can(s, step) && s.record.Some? && Uninterrupting(s, step)
    ensures var t := Next(s, step);
      && SameExecution(s, t)
      && Warnings(t.seen, key) == Warnings(s.seen, key)
           + (if key == s.record.value.key && !Warned(s) && Due(s, step) then 1 else 0)
      && (Warned(t) <==> Warned(s) || Due(s, step))
  {
    hide Inv, Folded, SilenceChecked, DeadlineChecked, DeadlineNear, Warnings;
    if step.Ticks? {
      SceneWarnings(EpisodeFor(s.memory, s.record.value), s.record.value, s.memory.activity, step.now, key);
      SceneFacts(EpisodeFor(s.memory, s.record.value), s.record.value, s.memory.activity, step.now);
      WarningsAdd(s.seen, Evaluated(s.memory, s.record, s.running, step.others, step.now).outs, key);
    }
  }

  predicate Uninterrupted(s: Sys, steps: seq<Step>)
    decreases |steps|
  {
    steps == [] || (Uninterrupting(s, steps[0]) && Uninterrupted(Next(s, steps[0]), steps[1..]))
  }

  /** Some evaluation finds four fifths of the timeout spent. */
  predicate ComesDue(s: Sys, steps: seq<Step>)
    decreases |steps|
  {
    steps != [] && (Due(s, steps[0]) || ComesDue(Next(s, steps[0]), steps[1..]))
  }

  /** While no evaluation finds the step parked and the monitor is not attached anew, an execution gets
      exactly one warning if its deadline comes near and none was given, and none otherwise; no other
      execution gets any. */
  lemma {:induction false} OncePerWatch(s: Sys, steps: seq<Step>, key: nat)
    requires Inv(s) && CanAll(s, steps) && s.record.Some? && Uninterrupted(s, steps)
    ensures SameExecution(s, Run(s, steps)) && Inv(Run(s, steps))
    ensures Warnings(Run(s, steps).seen, key) == Warnings(s.seen, key)
      + (if key == s.record.value.key && !Warned(s) && ComesDue(s, steps) then 1 else 0)
    ensures Warned(Run(s, steps)) <==> Warned(s) || ComesDue(s, steps)
    decreases |steps|
  {
    hide Inv, Next, Can, Warned, Due, Uninterrupting, Warnings;
    if steps != [] {
      StepWarnings(s, steps[0], key);
      NextKeepsInv(s, steps[0]);
      OncePerWatch(Next(s, steps[0]), steps[1..], key);
    }
  }

  /** So an execution that is never interrupted is warned about exactly once if its deadline comes near,
      and never otherwise. */
  lemma OncePerExecution(s: Sys, start: Step, steps: seq<Step>)
    requires Inv(s) && start.Starts? && Can(s, start) && Warnings(s.seen, start.key) == 0
    requires CanAll(Next(s, start), steps) && Uninterrupted(Next(s, start), steps)
    ensures Warnings(Run(Next(s, start), steps).seen, start.key) == if ComesDue(Next(s, start), steps) then 1 else 0
  {
    hide Inv, Run, CanAll, Uninterrupted, ComesDue, Warnings;
    NextKeepsInv(s, start);
    OncePerWatch(Next(s, start), steps, start.key);
  }

  /** An evaluation while the step is parked, or a monitor attached anew. */
  predicate Interrupts(s: Sys, step: Step) { (step.Ticks? && !s.running) || step.Reattaches? }

  lemma InterruptionForgets(s: Sys, step: Step, key: nat)
    requires Inv(s) && Can(s, step) && s.record.Some? && Interrupts(s, step)
    ensures var t := Next(s, step);
      SameExecution(s, t) && Inv(t) && !Warned(t) && Warnings(t.seen, key) == Warnings(s.seen, key)
  {
    hide Inv, Folded, SilenceChecked, DeadlineChecked, Warnings;
    NextKeepsInv(s, step);
    if step.Ticks? {
      var outs := Evaluated(s.memory, s.record, s.running, step.others, step.now).outs;
      NoWarnings(outs, key);
      WarningsAdd(s.seen, outs, key);
    }
  }

  /** An interruption, and what happens from there to the next one. */
  datatype Stretch = Stretch(between: Step, steps: seq<Step>)

  ghost function RunAll(s: Sys, stretches: seq<Stretch>): Sys
    decreases |stretches|
  {
    if stretches == [] then s
    else RunAll(Run(Next(s, stretches[0].between), stretches[0].steps), stretches[1..])
  }

  ghost predicate InStretches(s: Sys, stretches: seq<Stretch>)
    decreases |stretches|
  {
    stretches == [] ||
      (var t := Next(s, stretches[0].between);
       && Can(s, stretches[0].between) && Interrupts(s, stretches[0].between)
       && CanAll(t, stretches[0].steps) && Uninterrupted(t, stretches[0].steps)
       && InStretches(Run(t, stretches[0].steps), stretches[1..]))
  }

  /** In how many of them an evaluation finds the deadline near. */
  ghost function DueStretches(s: Sys, stretches: seq<Stretch>): nat
    decreases |stretches|
  {
    if stretches == [] then 0
    else
      var t := Next(s, stretches[0].between);
      (if ComesDue(t, stretches[0].steps) then 1 else 0) + DueStretches(Run(t, stretches[0].steps), stretches[1..])
  }

  lemma {:induction false} StretchesAdd(s: Sys, stretches: seq<Stretch>, key: nat)
    requires Inv(s) && s.record.Some? && s.record.value.key == key && InStretches(s, stretches)
    ensures Warnings(RunAll(s, stretches).seen, key) == Warnings(s.seen, key) + DueStretches(s, stretches)
    decreases |stretches|
  {
    hide Inv, Run, CanAll, Uninterrupted, ComesDue, Warnings, Next, Interrupts, Warned, Can;
    if stretches != [] {
      InterruptionForgets(s, stretches[0].between, key);
      var t := Next(s, stretches[0].between);
      OncePerWatch(t, stretches[0].steps, key);
      StretchesAdd(Run(t, stretches[0].steps), stretches[1..], key);
    }
  }

  /** However often an execution is interrupted, it is warned about once for each stretch between two
      interruptions in which its deadline is found near, and for no other reason. */
  lemma OncePerStretch(s: Sys, start: Step, first: seq<Step>, stretches: seq<Stretch>)
    requires Inv(s) && start.Starts? && Can(s, start) && Warnings(s.seen, start.key) == 0
    requires CanAll(Next(s, start), first) && Uninterrupted(Next(s, start), first)
    requires InStretches(Run(Next(s, start), first), stretches)
    ensures var t := Run(Next(s, start), first);
      Warnings(RunAll(t, stretches).seen, start.key) ==
      (if ComesDue(Next(s, start), first) then 1 else 0) + DueStretches(t, stretches)
  {
    hide Inv, Run, CanAll, Uninterrupted, ComesDue, Warnings, Next, Warned, RunAll, InStretches, DueStretches;
    StartIsUnwarned(s, start);
    OncePerExecution(s, start, first);
    OncePerWatch(Next(s, start), first, start.key);
    StretchesAdd(Run(Next(s, start), first), stretches, start.key);
  }

  /** Any run in which nothing else starts is of that form. */
  lemma {:induction false} RunsAreStretches(s: Sys, steps: seq<Step>) returns (first: seq<Step>, stretches: seq<Stretch>)
    requires Inv(s) && CanAll(s, steps) && s.record.Some? && forall step <- steps :: !step.Starts?
    ensures CanAll(s, first) && Uninterrupted(s, first) && InStretches(Run(s, first), stretches)
    ensures Run(s, steps) == RunAll(Run(s, first), stretches)
    decreases |steps|
  {
    hide Inv, Next, Can, Warned, Due, Uninterrupting, Interrupts;
    if steps == [] {
      first, stretches := [], [];
    } else {
      assert steps[0] in steps && forall step <- steps[1..] :: step in steps;
      NextKeepsInv(s, steps[0]);
      RecordStays(s, steps[0]);
      var more, rest := RunsAreStretches(Next(s, steps[0]), steps[1..]);
      if Uninterrupting(s, steps[0]) {
        first, stretches := [steps[0]] + more, rest;
        assert first[1..] == more;
      } else {
        first, stretches := [], [Stretch(steps[0], more)] + rest;
        assert stretches[1..] == rest;
      }
    }
  }

  lemma RecordStays(s: Sys, step: Step)
    requires Inv(s) && Can(s, step) && s.record.Some? && !step.Starts?
    ensures Next(s, step).record.Some? && (Uninterrupting(s, step) || Interrupts(s, step))
  {
    hide Inv, Folded, SilenceChecked, DeadlineChecked;
  }

  /** One interruption makes it two warnings exactly when the deadline is near both before it and after. */
  lemma TwiceIff(s: Sys, start: Step, first: seq<Step>, between: Step, second: seq<Step>)
    requires Inv(s) && start.Starts? && Can(s, start) && Warnings(s.seen, start.key) == 0
    requires CanAll(Next(s, start), first) && Uninterrupted(Next(s, start), first)
    requires var t := Run(Next(s, start), first);
      && Can(t, between) && Interrupts(t, between)
      && CanAll(Next(t, between), second) && Uninterrupted(Next(t, between), second)
    ensures var t := Run(Next(s, start), first);
      var u := Next(t, between);
      Warnings(Run(u, second).seen, start.key) ==
      (if ComesDue(Next(s, start), first) then 1 else 0) + if ComesDue(u, second) then 1 else 0
  {
    hide Inv, Run, CanAll, Uninterrupted, ComesDue, Warnings, Next, Interrupts, Warned;
    StartIsUnwarned(s, start);
    OncePerExecution(s, start, first);
    OncePerWatch(Next(s, start), first, start.key);
    var t := Run(Next(s, start), first);
    InterruptionForgets(t, between, start.key);
    OncePerWatch(Next(t, between), second, start.key);
  }

  lemma StartIsUnwarned(s: Sys, start: Step)
    requires Inv(s) && start.Starts? && Can(s, start)
    ensures var t := Next(s, start); Inv(t) && t.record.Some? && t.record.value.key == start.key && !Warned(t)
  {
    hide Inv;
    NextKeepsInv(s, start);
  }

  // ---- what a warning says --------------------------------------------------------------------------

  /** The executions a run started: key, timeout and the instant of the start. */
  function Begun(steps: seq<Step>): set<(nat, Option<int>, int)> {
    set step | step in steps && step.Starts? :: (step.key, step.timeoutMs, step.now)
  }

  /** A warning names an execution, the instant it started, and an instant at which at least four fifths of
      its timeout were spent since. */
  predicate Truthful(out: Out, begun: set<(nat, Option<int>, int)>) {
    NearTimeout(out) ==>
      exists e :: e in begun && e.0 == out.key && e.2 == out.since && e.1.Some? && e.1.value > 0
                  && 5 * (out.at - out.since) >= 4 * e.1.value
  }

  ghost predicate ToldTruly(s: Sys, begun: set<(nat, Option<int>, int)>) {
    && (forall out <- s.seen :: Truthful(out, begun))
    && (s.record.Some? ==> OnRecord(s.record.value, begun))
  }

  predicate OnRecord(e: Execution, begun: set<(nat, Option<int>, int)>) {
    && (e.key, e.progress.timeoutMs, e.startedAt) in begun
    && e.progress.deadlineAt == if e.progress.timeoutMs.Some? then Some(e.startedAt + e.progress.timeoutMs.value) else None
  }

  /** What an evaluation of a running step publishes and leaves on record. */
  lemma SceneIsTrue(ep: Episode, e: Execution, activity: Option<int>, now: int, begun: set<(nat, Option<int>, int)>)
    requires OnRecord(e, begun) && ep.key == e.key
    ensures var b := DeadlineChecked(SilenceChecked(Folded(Scene(ep, e, []), activity, now), now), now);
      OnRecord(b.record, begun) && forall out <- b.outs :: Truthful(out, begun)
  {
    var a := SilenceChecked(Folded(Scene(ep, e, []), activity, now), now);
    QuietScene(ep, e, activity, now, begun);
    hide Folded, SilenceChecked;
    if !a.episode.warned && DeadlineNear(a.record.progress, now) {
      var t := e.progress.timeoutMs;
      assert (e.key, t, e.startedAt) in begun;
    }
  }

  lemma QuietScene(ep: Episode, e: Execution, activity: Option<int>, now: int, begun: set<(nat, Option<int>, int)>)
    requires OnRecord(e, begun) && ep.key == e.key
    ensures var a := SilenceChecked(Folded(Scene(ep, e, []), activity, now), now);
      && OnRecord(a.record, begun) && a.episode.key == e.key && a.record.key == e.key && a.record.startedAt == e.startedAt
      && a.record.progress.timeoutMs == e.progress.timeoutMs && a.record.progress.deadlineAt == e.progress.deadlineAt
      && forall out <- a.outs :: !NearTimeout(out)
  {}

  lemma StepIsTrue(s: Sys, step: Step, begun: set<(nat, Option<int>, int)>)
    requires Inv(s) && Can(s, step) && ToldTruly(s, begun)
    requires step.Starts? ==> (step.key, step.timeoutMs, step.now) in begun
    ensures ToldTruly(Next(s, step), begun)
  {
    hide Inv, Folded, SilenceChecked, DeadlineChecked, Truthful;
    if step.Ticks? { TickIsTrue(s, step, begun); }
  }

  lemma TickIsTrue(s: Sys, step: Step, begun: set<(nat, Option<int>, int)>)
    requires ToldTruly(s, begun) && step.Ticks?
    ensures ToldTruly(Next(s, step), begun)
  {
    hide Folded, SilenceChecked, DeadlineChecked, Truthful;
    var outs := Evaluated(s.memory, s.record, s.running, step.others, step.now).outs;
    if s.running && s.record.Some? {
      SceneIsTrue(EpisodeFor(s.memory, s.record.value), s.record.value, s.memory.activity, step.now, begun);
    } else {
      assert forall out <- outs :: Truthful(out, begun) by { WritesAreTrue(outs, begun); }
    }
  }

  lemma WritesAreTrue(outs: seq<Out>, begun: set<(nat, Option<int>, int)>)
    requires forall out <- outs :: out.Wrote?
    ensures forall out <- outs :: Truthful(out, begun)
  {}

  lemma {:induction false} StaysTrue(s: Sys, steps: seq<Step>, begun: set<(nat, Option<int>, int)>)
    requires Inv(s) && CanAll(s, steps) && ToldTruly(s, begun) && Begun(steps) <= begun
    ensures ToldTruly(Run(s, steps), begun)
    decreases |steps|
  {
    hide Inv, Next, Can, ToldTruly;
    if steps != [] {
      assert steps[0] in steps && forall step <- steps[1..] :: step in steps;
      NextKeepsInv(s, steps[0]);
      StepIsTrue(s, steps[0], begun);
      StaysTrue(Next(s, steps[0]), steps[1..], begun);
    }
  }

  /** Over every run, each warning is about an execution that was started, dates it from that start, and
      was given when four fifths of its own timeout were spent. */
  lemma WarningsAreTrue(steps: seq<Step>, start: int)
    requires CanAll(Init(start), steps)
    ensures forall out <- Run(Init(start), steps).seen :: Truthful(out, Begun(steps))
  {
    hide Run, CanAll, Truthful;
    StaysTrue(Init(start), steps, Begun(steps));
  }
}
