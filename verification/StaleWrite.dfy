/** The stale-write check: a version token read before the record, compared right before the effect. */
module StaleWrite {
  import opened Options

  // ---- the record and its decision projection -------------------------------------------------------

  datatype Message = Message(id: string, text: string)

  datatype StepState = StepState(id: string, status: string, tokensUsed: nat)

  datatype Run = Run(
    status: string, archived: bool, pinned: bool, title: string, titleOrigin: Option<string>,
    autoResumeAt: Option<string>, task: string, question: Option<string>, queuedMessages: seq<Message>,
    steps: seq<StepState>, branch: Option<string>, workflow: Option<string>,
    revision: Option<nat>, tokensUsed: nat, seenAt: Option<string>)

  /** What a decision about a run is based on: its counters and presentation stamps are left out. */
  datatype Decision = Decision(
    status: string, archived: bool, pinned: bool, title: string, titleOrigin: Option<string>,
    autoResumeAt: Option<string>, task: string, question: Option<string>, queuedMessages: seq<Message>,
    steps: seq<(string, string)>, branch: Option<string>, workflow: Option<string>)

  function DecisionOf(r: Run): Decision {
    Decision(r.status, r.archived, r.pinned, r.title, r.titleOrigin, r.autoResumeAt, r.task, r.question,
             r.queuedMessages, seq(|r.steps|, i requires 0 <= i < |r.steps| => (r.steps[i].id, r.steps[i].status)),
             r.branch, r.workflow)
  }

  /** Two runs a decision cannot tell apart: they agree on status, flags, title and its origin, timer, brief,
      question, queued messages, branch, workflow, and on the id and status of each step. */
  ghost predicate SameDecision(a: Run, b: Run) {
    && a.status == b.status && a.archived == b.archived && a.pinned == b.pinned && a.title == b.title
    && a.titleOrigin == b.titleOrigin && a.autoResumeAt == b.autoResumeAt && a.task == b.task && a.question == b.question
    && a.queuedMessages == b.queuedMessages && a.branch == b.branch && a.workflow == b.workflow
    && |a.steps| == |b.steps|
    && forall i :: 0 <= i < |a.steps| ==> a.steps[i].id == b.steps[i].id && a.steps[i].status == b.steps[i].status
  }

  lemma ProjectionIff(a: Run, b: Run)
    ensures DecisionOf(a) == DecisionOf(b) <==> SameDecision(a, b)
  {
    var x, y := DecisionOf(a).steps, DecisionOf(b).steps;
    assert forall i :: 0 <= i < |x| ==> x[i] == (a.steps[i].id, a.steps[i].status);
    assert forall i :: 0 <= i < |y| ==> y[i] == (b.steps[i].id, b.steps[i].status);
  }

  lemma Projections()
    ensures forall a: Run, b: Run :: DecisionOf(a) == DecisionOf(b) <==> SameDecision(a, b)
  {
    hide DecisionOf, SameDecision;
    forall a: Run, b: Run ensures DecisionOf(a) == DecisionOf(b) <==> SameDecision(a, b) { ProjectionIff(a, b); }
  }

  // ---- the token ------------------------------------------------------------------------------------

  type Token = string

  /** The twelve hexadecimal digits a decision is digested to. */
  type Digest = Decision -> string

  ghost predicate PlainDigest(d: Digest) { forall x :: ':' !in d(x) }

  function Digits(n: nat): string {
    if n < 10 then ["0123456789"[n]] else Digits(n / 10) + ["0123456789"[n % 10]]
  }

  function TokenText(kind: string, id: string, revision: string, digest: string): Token {
    "rev1:" + kind + ":" + id + ":" + revision + ":" + digest
  }

  function Revision(r: Run): nat { if r.revision.Some? then r.revision.value else 0 }

  function TokenOf(d: Digest, id: string, r: Run): Token {
    TokenText("run", id, Digits(Revision(r)), d(DecisionOf(r)))
  }

  lemma TokensAreNotEmpty(d: Digest, id: string, r: Run)
    ensures TokenOf(d, id, r) != ""
  {}

  lemma {:induction false} DigitsDiffer(a: nat, b: nat)
    requires Digits(a) == Digits(b)
    ensures a == b
    decreases a + b
  {
    var x, y := Digits(a), Digits(b);
    assert x[|x| - 1] == "0123456789"[a % 10] && y[|y| - 1] == "0123456789"[b % 10];
    if a >= 10 && b >= 10 {
      assert x[..|x| - 1] == Digits(a / 10) && y[..|y| - 1] == Digits(b / 10);
      DigitsDiffer(a / 10, b / 10);
    } else {
      DigitsAreSome(a);
      DigitsAreSome(b);
    }
  }

  lemma DigitsAreSome(n: nat)
    ensures |Digits(n)| >= 1 && (|Digits(n)| == 1 <==> n < 10)
  {
    if n >= 10 { DigitsAreSome(n / 10); }
  }

  lemma DigitsArePlain(n: nat)
    ensures ':' !in Digits(n)
  {}

  /** Splitting at the last colon gives one answer. */
  lemma LastColon(a: string, x: string, b: string, y: string)
    requires a + ":" + x == b + ":" + y && ':' !in x && ':' !in y
    ensures a == b && x == y
  {
    var s := a + ":" + x;
    assert s[|a|] == ':' && s[|b|] == ':';
    assert forall i :: |a| < i < |s| ==> s[i] == x[i - |a| - 1];
    assert forall i :: |b| < i < |s| ==> s[i] == y[i - |b| - 1];
    assert a == s[..|a|] && x == s[|a| + 1..];
  }

  /** Comparing tokens verbatim compares the run, its revision and the digest, whatever the id holds. */
  lemma TokensTellApart(d: Digest, id: string, r: Run, id': string, r': Run)
    requires PlainDigest(d) && TokenOf(d, id, r) == TokenOf(d, id', r')
    ensures id == id' && Revision(r) == Revision(r') && d(DecisionOf(r)) == d(DecisionOf(r'))
  {
    hide Digits, DecisionOf;
    DigitsArePlain(Revision(r));
    DigitsArePlain(Revision(r'));
    var a, b := "rev1:run:" + id, "rev1:run:" + id';
    var ra, rb := Digits(Revision(r)), Digits(Revision(r'));
    var da, db := d(DecisionOf(r)), d(DecisionOf(r'));
    assert TokenOf(d, id, r) == (a + ":" + ra) + ":" + da;
    assert TokenOf(d, id', r') == (b + ":" + rb) + ":" + db;
    LastColon(a + ":" + ra, da, b + ":" + rb, db);
    LastColon(a, ra, b, rb);
    assert id == a[9..] && id' == b[9..];
    DigitsDiffer(Revision(r), Revision(r'));
  }

  // ---- the store ------------------------------------------------------------------------------------

  datatype Store = Store(runs: map<string, Run>, tracked: map<string, Decision>, disk: map<string, Run>)

  /** The decision revision moves exactly when the tracked projection does. */
  function Tracked(s: Store, id: string, r: Run): Run {
    if id in s.tracked && s.tracked[id] != DecisionOf(r) then r.(revision := Some(Revision(r) + 1))
    else r.(revision := Some(Revision(r)))
  }

  /** A store call that leaves run `id` as `r`: the decision change is saved before it is announced. */
  function Touched(s: Store, id: string, r: Run, saved: bool): Store {
    var changed := id !in s.tracked || s.tracked[id] != DecisionOf(r);
    var runs := s.runs[id := Tracked(s, id, r)];
    Store(runs, s.tracked[id := DecisionOf(r)], if changed && saved then runs else s.disk)
  }

  datatype Step =
    /** Any store call on an existing run; the caller never touches the revision. */
    | Write(id: string, run: Run, saved: bool)
    /** A participant's message resolves the pending question and is always one new decision. */
    | UserMessage(id: string, saved: bool)
    | Create(id: string, run: Run, saved: bool)
    | Remove(id: string)
    /** The debounced save of everything. */
    | Save
    /** The process ends; the records on disk are loaded and reconciled one by one. */
    | Restart(reconciled: map<string, Run>, saved: bool)

  ghost function Next(s: Store, step: Step): Store {
    match step
    case Write(id, r, saved) =>
      if id in s.runs then Touched(s, id, r.(revision := s.runs[id].revision), saved) else s
    case UserMessage(id, saved) =>
      if id !in s.runs then s
      else
        var r := s.runs[id].(question := None, revision := Some(Revision(s.runs[id]) + 1));
        var runs := s.runs[id := r];
        Store(runs, s.tracked[id := DecisionOf(r)], if saved then runs else s.disk)
    case Create(id, r, saved) => Touched(s, id, r.(revision := None), saved)
    case Remove(id) => Store(s.runs - {id}, s.tracked - {id}, s.disk)
    case Save => s.(disk := s.runs)
    case Restart(reconciled, saved) => Reopened(s.disk, reconciled, saved)
  }

  ghost function Reopened(disk: map<string, Run>, reconciled: map<string, Run>, saved: bool): Store {
    var before := Store(map[], map id | id in disk :: DecisionOf(disk[id]), disk);
    var runs := map id | id in disk ::
      Tracked(before, id, if id in reconciled then reconciled[id].(revision := disk[id].revision) else disk[id]);
    Store(runs, map id | id in runs :: DecisionOf(runs[id]), if saved then runs else disk)
  }

  ghost function Trace(s: Store, steps: seq<Step>): Store
    decreases |steps|
  {
    if steps == [] then s else Trace(Next(s, steps[0]), steps[1..])
  }

  ghost predicate Inv(s: Store) {
    forall id <- s.runs :: id in s.tracked && s.tracked[id] == DecisionOf(s.runs[id])
  }

  lemma NextKeepsInv(s: Store, step: Step)
    requires Inv(s)
    ensures Inv(Next(s, step))
  {
    hide DecisionOf;
    if step.Write? || step.UserMessage? || step.Create? { RevisionIsNoDecision(); }
    if step.Restart? { RevisionIsNoDecision(); }
  }

  lemma RevisionIsNoDecision()
    ensures forall r: Run, n :: DecisionOf(r.(revision := n)) == DecisionOf(r)
  {}

  // ---- no stale write -------------------------------------------------------------------------------

  /** Between two states of a run, an unchanged revision means an unchanged decision. */
  ghost predicate Follows(s: Store, t: Store, id: string) {
    id in s.runs && id in t.runs ==>
      && Revision(s.runs[id]) <= Revision(t.runs[id])
      && (Revision(s.runs[id]) == Revision(t.runs[id]) ==> SameDecision(s.runs[id], t.runs[id]))
  }

  /** What the check takes for granted between the read and the write: the run's id is not given out
      again, and a restart finds the run's decision and revision on disk as they were in memory. */
  ghost predicate Sound(s: Store, step: Step, id: string) {
    match step
    case Create(other, _, _) => other != id
    case Restart(_, _) =>
      if id in s.runs then
        id in s.disk && Revision(s.disk[id]) == Revision(s.runs[id]) && SameDecision(s.disk[id], s.runs[id])
      else id !in s.disk
    case _ => true
  }

  ghost predicate AllSound(s: Store, steps: seq<Step>, id: string)
    decreases |steps|
  {
    steps == [] || (Sound(s, steps[0], id) && AllSound(Next(s, steps[0]), steps[1..], id))
  }

  lemma NextFollows(s: Store, step: Step, id: string)
    requires Inv(s) && Sound(s, step, id)
    ensures Follows(s, Next(s, step), id) && (id !in s.runs ==> id !in Next(s, step).runs)
  {
    RevisionIsNoDecision();
    Projections();
    hide DecisionOf, SameDecision;
  }

  lemma {:induction false} TraceFollows(s: Store, steps: seq<Step>, id: string)
    requires Inv(s) && AllSound(s, steps, id)
    ensures Inv(Trace(s, steps)) && Follows(s, Trace(s, steps), id)
    ensures id !in s.runs ==> id !in Trace(s, steps).runs
    decreases |steps|
  {
    Projections();
    hide Inv, Next, Sound, DecisionOf, SameDecision;
    if steps != [] {
      NextKeepsInv(s, steps[0]);
      NextFollows(s, steps[0], id);
      TraceFollows(Next(s, steps[0]), steps[1..], id);
    }
  }

  /** The version is read first, the record second, and the write comes third, with any writers in
      between. Whatever the digest is, a write that passes acts on a decision equal to the one read. */
  lemma NoStaleWrite(d: Digest, s: Store, before: seq<Step>, after: seq<Step>, id: string)
    requires PlainDigest(d) && Inv(s) && id in s.runs
    requires AllSound(s, before, id) && AllSound(Trace(s, before), after, id)
    ensures var version := TokenOf(d, id, s.runs[id]);
      var read := Trace(s, before);
      var now := Trace(read, after);
      Guard(d, now, id, Some(version)).Passes? ==>
        id in read.runs && id in now.runs && SameDecision(read.runs[id], now.runs[id])
  {
    Projections();
    hide Inv, Sound, DecisionOf, TokenOf, SameDecision;
    TraceFollows(s, before, id);
    TraceFollows(Trace(s, before), after, id);
    var now := Trace(Trace(s, before), after);
    if id in now.runs && TokenOf(d, id, now.runs[id]) == TokenOf(d, id, s.runs[id]) {
      TokensTellApart(d, id, now.runs[id], id, s.runs[id]);
    }
  }

  /** Reading the record first and the version second is not safe: a change between the two passes. */
  lemma RecordFirstIsUnsafe(d: Digest, s: Store, id: string, r: Run)
    requires Inv(s) && id in s.runs && !SameDecision(r, s.runs[id])
    ensures var now := Next(s, Write(id, r, true));
      && Sound(s, Write(id, r, true), id) && id in now.runs
      && !SameDecision(now.runs[id], s.runs[id])
      && Guard(d, now, id, Some(TokenOf(d, id, now.runs[id]))).Passes?
  {
    RevisionIsNoDecision();
    Projections();
    hide DecisionOf, TokenOf, SameDecision;
    var now := Next(s, Write(id, r, true));
    TokensAreNotEmpty(d, id, now.runs[id]);
  }

  /** A save that failed before a restart breaks it, for any digest: the version is read, the decision
      changes, the changed record is read, the process dies, and the old version passes again. */
  lemma LostSavePasses(d: Digest, s: Store, id: string, r: Run)
    requires Inv(s) && id in s.runs && s.disk == s.runs && !SameDecision(r, s.runs[id])
    requires s.runs[id].revision.Some?
    ensures var version := TokenOf(d, id, s.runs[id]);
      var read := Next(s, Write(id, r, false));
      var now := Next(read, Restart(map[], true));
      && id in read.runs && id in now.runs && !SameDecision(read.runs[id], now.runs[id])
      && Guard(d, now, id, Some(version)).Passes? && !Sound(read, Restart(map[], true), id)
  {
    RevisionIsNoDecision();
    Projections();
    hide DecisionOf, TokenOf, SameDecision;
    var read := Next(s, Write(id, r, false));
    assert read.disk == s.disk;
    var now := Next(read, Restart(map[], true));
    assert now.runs[id] == s.runs[id];
    TokensAreNotEmpty(d, id, s.runs[id]);
  }

  /** What is on disk about a run is never ahead of memory. */
  ghost predicate Behind(s: Store, id: string) {
    id in s.disk && id in s.runs ==>
      && Revision(s.disk[id]) <= Revision(s.runs[id])
      && (Revision(s.disk[id]) == Revision(s.runs[id]) ==> SameDecision(s.disk[id], s.runs[id]))
  }

  lemma StaysBehind(s: Store, step: Step, id: string)
    requires Inv(s) && Behind(s, id) && (step.Create? ==> step.id != id)
    ensures Behind(Next(s, step), id)
  {
    Projections();
    hide DecisionOf, SameDecision;
    if step.Restart? {
      if id in s.disk { ReopenedRun(s, step.reconciled, step.saved, id); }
      hide Reopened;
    } else {
      RevisionIsNoDecision();
    }
  }

  /** What a restart makes of the record it finds. */
  function Reconciled(s: Store, reconciled: map<string, Run>, id: string): Run
    requires id in s.disk
  {
    if id in reconciled then reconciled[id].(revision := s.disk[id].revision) else s.disk[id]
  }

  /** Exactly which restarts keep a version from passing for another decision: those that find the run's
      revision saved, and those whose reconciliation happens to make the one lost decision again. */
  lemma RestartFollowsIff(s: Store, reconciled: map<string, Run>, saved: bool, id: string)
    requires Inv(s) && Behind(s, id) && id in s.runs && id in s.disk
    ensures var lost := Revision(s.runs[id]) - Revision(s.disk[id]);
      var found := Reconciled(s, reconciled, id);
      Follows(s, Next(s, Restart(reconciled, saved)), id) <==>
        lost == 0 || (lost == 1 && !SameDecision(found, s.disk[id]) && SameDecision(found, s.runs[id]))
  {
    Projections();
    hide DecisionOf, Reopened, SameDecision;
    ReopenedRun(s, reconciled, saved, id);
  }

  lemma ReopenedRun(s: Store, reconciled: map<string, Run>, saved: bool, id: string)
    requires id in s.disk
    ensures var t := Reopened(s.disk, reconciled, saved);
      var found := Reconciled(s, reconciled, id);
      && id in t.runs && DecisionOf(t.runs[id]) == DecisionOf(found)
      && Revision(t.runs[id]) == Revision(s.disk[id]) + if DecisionOf(found) != DecisionOf(s.disk[id]) then 1 else 0
  {
    RevisionIsNoDecision();
    hide DecisionOf;
  }

  /** Telemetry never makes a version stale. */
  lemma TelemetryKeepsTheVersion(d: Digest, s: Store, id: string, r: Run, saved: bool)
    requires Inv(s) && id in s.runs && SameDecision(r, s.runs[id])
    ensures var now := Next(s, Write(id, r, saved));
      id in now.runs && TokenOf(d, id, now.runs[id]) == TokenOf(d, id, s.runs[id])
  {
    RevisionIsNoDecision();
    Projections();
    hide DecisionOf, SameDecision;
  }

  /** A write moves the revision by one if and only if the decision is another, and leaves the rest of the
      record as the caller made it; a participant's message is always one more. */
  lemma RevisionMovesIff(s: Store, id: string, r: Run, saved: bool)
    requires Inv(s) && id in s.runs
    ensures var t := Next(s, Write(id, r, saved));
      && id in t.runs && t.runs[id] == r.(revision := t.runs[id].revision)
      && Revision(t.runs[id]) == Revision(s.runs[id]) + (if SameDecision(r, s.runs[id]) then 0 else 1)
      && t.disk == (if saved && !SameDecision(r, s.runs[id]) then t.runs else s.disk)
    ensures var t := Next(s, UserMessage(id, saved));
      && id in t.runs && Revision(t.runs[id]) == Revision(s.runs[id]) + 1
      && t.runs[id] == s.runs[id].(question := None, revision := t.runs[id].revision)
      && t.disk == if saved then t.runs else s.disk
  {
    RevisionIsNoDecision();
    Projections();
    hide DecisionOf, SameDecision;
  }

  /** A new run starts at revision 0, and a removed one is gone. */
  lemma CreateAndRemove(s: Store, id: string, r: Run, saved: bool)
    requires Inv(s)
    ensures var t := Next(s, Create(id, r, saved));
      && id in t.runs && SameDecision(t.runs[id], r) && t.runs[id] == r.(revision := t.runs[id].revision)
      && (id !in s.tracked ==> Revision(t.runs[id]) == 0 && t.disk == if saved then t.runs else s.disk)
      && t.runs - {id} == s.runs - {id}
    ensures var t := Next(s, Remove(id)); t.runs == s.runs - {id} && id !in t.tracked && t.disk == s.disk
  {
    RevisionIsNoDecision();
    Projections();
    hide DecisionOf, SameDecision;
  }

  /** After a save every run and version is the same in the next process, whatever was lost before. */
  lemma SaveThenRestart(d: Digest, s: Store, saved: bool)
    ensures var t := Next(Next(s, Save), Restart(map[], saved));
      && t.runs.Keys == s.runs.Keys && t.disk == (if saved then t.runs else s.runs)
      && forall k <- s.runs :: SameDecision(t.runs[k], s.runs[k]) && TokenOf(d, k, t.runs[k]) == TokenOf(d, k, s.runs[k])
  {
    RevisionIsNoDecision();
    Projections();
    hide DecisionOf, SameDecision;
  }

  // ---- the guard ------------------------------------------------------------------------------------

  datatype Check = Passes | Stale(currentVersion: Option<Token>)

  /** Verbatim comparison, and a missing token never passes. */
  function Guard(d: Digest, s: Store, id: string, expected: Option<Token>): Check {
    var current := if id in s.runs then Some(TokenOf(d, id, s.runs[id])) else None;
    if expected.None? || expected == Some("") || current.None? || expected != current then Stale(current) else Passes
  }

  datatype Effect = Finishes(left: Option<Run>) | Throws(left: Option<Run>)

  datatype Outcome = Done(version: Option<Token>) | Conflict(currentVersion: Option<Token>) | Failed

  lemma TrackedAlike(s: Store, t: Store, id: string, r: Run)
    requires s.tracked == t.tracked
    ensures Tracked(s, id, r) == Tracked(t, id, r)
  {
    hide DecisionOf;
  }

  class RunStore {
    var runs: map<string, Run>
    var tracked: map<string, Decision>
    var disk: map<string, Run>

    ghost function View(): Store
      reads this
    {
      Store(runs, tracked, disk)
    }

    method TrackDecision(id: string) returns (changed: bool)
      requires id in runs
      modifies this`runs, this`tracked
      ensures changed == (id !in old(tracked) || old(tracked)[id] != DecisionOf(old(runs)[id]))
      ensures runs == old(runs)[id := Tracked(old(View()), id, old(runs)[id])]
      ensures tracked == old(tracked)[id := DecisionOf(old(runs)[id])]
      // compared with the run that was tracked before, whichever it was
      ensures forall before: Run :: id in old(tracked) && old(tracked)[id] == DecisionOf(before) ==>
        (changed <==> !SameDecision(before, old(runs)[id]))
      ensures Revision(runs[id]) == Revision(old(runs)[id]) + if changed && id in old(tracked) then 1 else 0
    {
      Projections();
      hide DecisionOf, SameDecision;
      var run := runs[id];
      var projection := DecisionOf(run);
      if run.revision.None? { run := run.(revision := Some(0)); }
      RevisionIsNoDecision();
      if id in tracked && tracked[id] == projection {
        runs, tracked := runs[id := run], tracked[id := projection];
        return false;
      }
      if id in tracked { run := run.(revision := Some(run.revision.value + 1)); }
      runs, tracked := runs[id := run], tracked[id := projection];
      changed := true;
    }

    method Touch(id: string, run: Run, saved: bool)
      modifies this
      ensures View() == Touched(old(View()), id, run, saved)
    {
      hide DecisionOf, Tracked;
      runs := runs[id := run];
      ghost var before := View();
      var changed := TrackDecision(id);
      TrackedAlike(old(View()), before, id, run);
      if changed && saved { disk := runs; }
    }

    /** The compare-and-swap: check and effect in one stretch, with nothing else in between. */
    method GuardedRunMutation(d: Digest, id: string, expected: Option<Token>, effect: Effect, saved: bool)
      returns (o: Outcome)
      modifies this
      ensures o.Conflict? <==> Guard(d, old(View()), id, expected).Stale?
      ensures !o.Conflict? <==> id in old(runs) && expected == Some(TokenOf(d, id, old(runs)[id]))
      // a rejection leaves everything as it was and says which version stands
      ensures o.Conflict? ==>
        View() == old(View()) && o.currentVersion == Guard(d, old(View()), id, expected).currentVersion
      // past the check the effect ran, whether it then failed or not
      ensures !o.Conflict? ==>
        && id in old(runs) && (o.Failed? <==> effect.Throws?)
        && View() == (if effect.left.None? then Next(old(View()), Remove(id))
                      else Next(old(View()), Write(id, effect.left.value, saved)))
      ensures o.Done? ==> (o.version.Some? <==> id in runs) && (id in runs ==> o.version == Some(TokenOf(d, id, runs[id])))
    {
      hide DecisionOf, TokenOf, Touched;
      if id in runs { TokensAreNotEmpty(d, id, runs[id]); }
      var current := if id in runs then Some(TokenOf(d, id, runs[id])) else None;
      if expected.None? || expected == Some("") || current.None? || expected != current { return Conflict(current); }
      match effect.left {
        case None => runs, tracked := runs - {id}, tracked - {id};
        case Some(left) => Touch(id, left.(revision := runs[id].revision), saved);
      }
      if effect.Throws? { return Failed; }
      o := Done(if id in runs then Some(TokenOf(d, id, runs[id])) else None);
    }
  }
}
