/** Two runs of pushes and one acknowledgement: what lies behind an acknowledged cursor unread on purpose,
    and what lies there although nobody meant it to. */
module LeaderSilence {
  import opened Options
  import opened Text
  import opened JournalRows
  import opened Journal
  import J = JournalRuns
  import JournalFollow
  import opened LeaderRecord
  import opened LeaderPush
  import opened LeaderScan
  import opened LeaderRuns
  import opened LeaderPushRuns

  // ---- a session that only receives pushes ----------------------------------------------------------

  /** Nothing was read, acknowledged or named yet. */
  ghost predicate Unspoken(s: Sys) {
    && s.read == {} && s.stated == {} && s.notOwed == {} && s.push.ctl.gap.None? && s.push.ctl.floor == 0
    && s.record.acked.through == 0 && s.memGen == 0 && s.j.gen == 0
  }

  /** Its scan stands where rows are still retained, or has not begun, and what it pushed is retained and
      no echo of `own`. */
  ghost predicate Standing(s: Sys, own: set<seq<Unit>>) {
    && Unspoken(s)
    && (s.push.ctl.position.Some? ==> s.push.ctl.position.value + |s.j.mem.rows| >= s.j.mem.latest)
    && (forall p <- s.push.pushed :: !IsEcho(s.j, p, own) && p.1 + |s.j.mem.rows| > s.j.mem.latest)
  }

  lemma TakenScan(s: Sys, own: set<seq<Unit>>)
    requires Inv(s) && InReach(s) && Standing(s, own)
    ensures var t := AfterScan(s, own, Taken, ScanOf(s.push.ctl, s.j.mem));
      Standing(t, own) && t.j == s.j && t.record == s.record && t.push.skipped == s.push.skipped
  {
    hide Inv, ScanOf, ScanPage, J.Inv, InOrder, Exactly, Places, Handed, KeptBack, Increasing, IsEcho, Parts, AfterScan;
    InvJournal(s);
    var scan := ScanOf(s.push.ctl, s.j.mem);
    var n := ScanReads(s.j, s.push.ctl);
    var at := Start(s.push.ctl, s.j.mem);
    PageIsSplit(s.push.ctl, s.j.mem, J.Current(s.j), at, n);
    if scan.Outgoing? {
      DispatchParts(s, own);
      StandingAfterDispatch(s, own, at, scan.dispatch, scan.through, scan.before, scan.after);
    } else if scan.Passed? {
      StandingAfterPassing(s, own, scan.ctl, scan.over);
    } else {
      NothingHappens(s, own, Taken);
    }
  }

  lemma StandingAfterPassing(s: Sys, own: set<seq<Unit>>, ctl: Controller, over: seq<Row>)
    requires Standing(s, own) && ctl.gap.None? && ctl.floor == 0
    requires ctl.position.Some? ==> ctl.position.value + |s.j.mem.rows| >= s.j.mem.latest
    ensures var t := AfterScan(s, own, Taken, Passed(ctl, over));
      Standing(t, own) && t.j == s.j && t.record == s.record && t.push.skipped == s.push.skipped
  {
    hide Places, IsEcho;
  }

  lemma StandingAfterDispatch(
    s: Sys, own: set<seq<Unit>>, at: nat, d: Dispatch, through: nat, before: seq<Row>, after: seq<Row>)
    requires Standing(s, own) && d.gap.None? && at + |s.j.mem.rows| >= s.j.mem.latest
    requires Parts(s.j, own, 0, at, d.next.position, through, Places(s.j.gen, Handed(d.events, own)),
                   Places(s.j.gen, KeptBack(d.events, own)), Places(s.j.gen, before), Places(s.j.gen, after))
    ensures var t := AfterScan(s, own, Taken, Outgoing(d, through, before, after));
      Standing(t, own) && t.j == s.j && t.record == s.record && t.push.skipped == s.push.skipped
  {
    hide Places, Handed, KeptBack, IsEcho, IsRoutine, IsPushable, AllParts, GapBetween, HandedOver;
    HandedNoEcho(s, own, at, d, through, before, after);
  }

  lemma HandedNoEcho(
    s: Sys, own: set<seq<Unit>>, at: nat, d: Dispatch, through: nat, before: seq<Row>, after: seq<Row>)
    requires Standing(s, own) && d.gap.None? && at + |s.j.mem.rows| >= s.j.mem.latest
    requires Parts(s.j, own, 0, at, d.next.position, through, Places(s.j.gen, Handed(d.events, own)),
                   Places(s.j.gen, KeptBack(d.events, own)), Places(s.j.gen, before), Places(s.j.gen, after))
    ensures var t := HandedOver(s, own, Taken, d, through, before, after);
      Standing(t, own) && t.j == s.j && t.record == s.record && t.push.skipped == s.push.skipped
  {
    hide Places, Handed, KeptBack, IsEcho, IsRoutine, IsPushable, AllParts, GapBetween;
  }

  lemma LookingIsStanding(s: Sys, own: set<seq<Unit>>)
    requires InReach(s) && Standing(s, own)
    ensures Raising(s) == s
    ensures var t := Looking(s);
      && Standing(t, own) && InReach(t) && t.j == s.j && t.record == s.record
      && s.push.skipped <= t.push.skipped <= s.push.skipped + SteppedOver(s.j, s.push.ctl)
  {
    hide IsEcho, SteppedOver, Told;
  }

  /** One taken push of such a session: nothing but pushes is said, and no echo of `own` is pushed. */
  lemma TakenPush(s: Sys, own: set<seq<Unit>>)
    requires Inv(s) && J.Trustworthy(s.j) && own <= s.push.issued && Standing(s, own)
    ensures J.Inv(s.j) && InReach(s)
    ensures var t := Next(s, Pushing(own, Taken));
      && Standing(t, own) && t.j == s.j && t.record == s.record && Inv(t) && t.push.issued == s.push.issued
      && s.push.skipped <= t.push.skipped <= s.push.skipped + RowsBetween(0, 0, s.j.mem.latest - |s.j.mem.rows|)
  {
    hide Inv, Looking, Raising, ScanOf, AfterScan, J.Trustworthy, Standing, AllPending, J.Inv, SteppedOver, RowsBetween, Left,
         Start, GetsPast;
    AlwaysInReach(s);
    LookingKeepsInv(s);
    RoundMoves(s, own);
    StandingIsUnspoken(s, own);
    SteppedOverAll(s);
    LookingIsStanding(s, own);
    SameScan(s);
    TakenScan(Looking(s), own);
  }

  lemma StandingIsUnspoken(s: Sys, own: set<seq<Unit>>)
    requires Standing(s, own)
    ensures Unspoken(s)
  {}

  lemma SteppedOverAll(s: Sys)
    requires InReach(s) && Unspoken(s)
    ensures SteppedOver(s.j, s.push.ctl) <= RowsBetween(0, 0, s.j.mem.latest - |s.j.mem.rows|)
  {}

  lemma {:induction false} TakenPushes(s: Sys, own: set<seq<Unit>>, steps: seq<Step>)
    requires Inv(s) && J.Trustworthy(s.j) && own <= s.push.issued && Standing(s, own)
    requires forall step <- steps :: step == Pushing(own, Taken)
    ensures J.Inv(s.j) && InReach(s) && CanAll(s, steps)
    ensures var t := Run(s, steps);
      && Standing(t, own) && t.record == s.record && Inv(t) && t.j == s.j
      && s.push.skipped <= t.push.skipped <= s.push.skipped + RowsBetween(0, 0, s.j.mem.latest - |s.j.mem.rows|)
    decreases |steps|
  {
    hide Inv, J.Trustworthy, Standing, J.Inv, Next, RowsBetween, Start;
    AlwaysInReach(s);
    TakenPush(s, own);
    if steps != [] {
      assert steps[0] in steps && forall step <- steps[1..] :: step in steps;
      TakenPushes(Next(s, steps[0]), own, steps[1..]);
    }
  }

  lemma OfferedIsMinted(s: Sys, p: Place) returns (c: Cursor)
    requires Inv(s) && p in s.push.pushed
    ensures (p.0, c) in s.held && p.1 <= c.position && J.MintedBy(s.j, c, p.0)
  {
    hide J.Inv, ControllerInv, Covered, J.MintedBy;
    assert Behind(s.push.offered, p);
    var x :| x in s.push.offered && x.0 == p.0 && p.1 <= x.1.position;
    c := x.1;
    assert x in s.held && x == (p.0, c);
  }

  /** A pushed row at the head comes with a cursor to acknowledge everything. */
  lemma HeadIsOffered(s: Sys)
    requires Inv(s) && J.Trustworthy(s.j) && (s.j.gen, |J.Current(s.j)|) in s.push.pushed
    ensures Valid(s.j.mem) && (s.j.gen, CursorAt(s.j.mem, |J.Current(s.j)|)) in s.held
  {
    hide Inv, J.Inv, J.Trustworthy, InOrder, J.SuffixOf;
    InvJournal(s);
    Shape(s.j);
    var c := OfferedIsMinted(s, (s.j.gen, |J.Current(s.j)|));
    SameEpochSameCreation(s.j, c, s.j.gen);
  }

  lemma AckTheHead(s: Sys, saved: bool)
    requires Inv(s) && J.Trustworthy(s.j) && (s.j.gen, |J.Current(s.j)|) in s.push.pushed
    requires s.record.acked.through < |J.Current(s.j)|
    ensures J.Inv(s.j) && Valid(s.j.mem)
    ensures var step := Acking((s.j.gen, CursorAt(s.j.mem, |J.Current(s.j)|)), saved);
      && Can(s, step) && Inv(Next(s, step)) && Next(s, step).record.acked.through == |J.Current(s.j)|
      && Next(s, step) == s.(record := Next(s, step).record, memGen := s.j.gen, file := Next(s, step).file,
                             fileGen := Next(s, step).fileGen)
  {
    hide Inv, J.Inv, J.Trustworthy, InOrder, J.SuffixOf, AckOf;
    HeadIsOffered(s);
    InvJournal(s);
    Shape(s.j);
    var c := CursorAt(s.j.mem, |J.Current(s.j)|);
    AckMeans(s.record, s.j.mem, c);
    AckingKeepsInv(s, Acking((s.j.gen, c), saved));
  }

  // ---- runs in pieces -------------------------------------------------------------------------------

  lemma {:induction false} Joined(s: Sys, a: seq<Step>, b: seq<Step>)
    requires J.Inv(s.j) && CanAll(s, a) && J.Inv(Run(s, a).j) && CanAll(Run(s, a), b)
    ensures CanAll(s, a + b) && Run(s, a + b) == Run(Run(s, a), b)
    decreases |a|
  {
    hide J.Inv, Next, Can;
    if a == [] {
      assert a + b == b;
    } else {
      JournalStays(s, a[0]);
      assert (a + b)[0] == a[0] && (a + b)[1..] == a[1..] + b;
      Joined(Next(s, a[0]), a[1..], b);
    }
  }

  lemma OneStep(s: Sys, step: Step)
    requires J.Inv(s.j) && Can(s, step)
    ensures CanAll(s, [step]) && Run(s, [step]) == Next(s, step) && J.Inv(Next(s, step).j)
  {
    hide J.Inv, Next, Can;
    JournalStays(s, step);
  }

  function Append(e: Event, now: Instant): Step { Appending(J.Append(e, now, true, false)) }

  /** An append that evicts nothing. */
  lemma QuietAppend(s: Sys, e: Event, now: Instant)
    requires Inv(s) && J.Trustworthy(s.j) && Admissible(e) && |s.j.mem.rows| < RETAINED_ROWS
    ensures J.Inv(s.j) && Can(s, Append(e, now))
    ensures var t := Next(s, Append(e, now));
      var row := NewRow(s.j.mem, e, now);
      && Inv(t) && J.Trustworthy(t.j) && t == s.(j := t.j) && t.j.gen == s.j.gen
      && J.Current(t.j) == J.Current(s.j) + [row] && t.j.mem.rows == s.j.mem.rows + [row]
      && t.j.mem.latest == s.j.mem.latest + 1 && t.j.mem.project == s.j.mem.project && t.j.mem.epoch == s.j.mem.epoch
  {
    hide Inv, J.Inv, Admissible, NewRow;
    InvJournal(s);
    JournalFollow.SmallAppend(s.j, e, now);
    OthersKeepInv(s, Append(e, now));
  }

  // ---- left behind on purpose -----------------------------------------------------------------------

  /** The leader dispatches an operation; a routine check passes, the operation's own row arrives, and a
      row of somebody else's; the controller pushes and the leader acknowledges the pushed cursor. */
  function LeftOutSteps(project: seq<Unit>, op: seq<Unit>, r: Event, o: Event, v: Event, now: Instant): seq<Step> {
    [Issuing(op)] + [Append(r, now)] + [Append(o, now)] + [Append(v, now)] + seq(5, _ => Pushing({op}, Taken))
    + [Acking((0, Cursor(project, 0, 3)), true)]
  }

  lemma BeforeThePushes(project: seq<Unit>, op: seq<Unit>, r: Event, o: Event, v: Event, now: Instant)
    requires Admissible(r) && Admissible(o) && Admissible(v)
    ensures var steps := [Issuing(op)] + [Append(r, now)] + [Append(o, now)] + [Append(v, now)];
      var s := Init(project, 0);
      && J.Inv(s.j) && CanAll(s, steps)
      && var t := Run(s, steps);
      && Inv(t) && J.Trustworthy(t.j) && Standing(t, {op}) && t.push.issued == {op} && t.push.skipped == {}
      && t.push.ctl == Controller(None, 0, None, 0)
      && t.j.mem.latest == 3 == |t.j.mem.rows| == |J.Current(t.j)| && t.j.mem.project == project && t.j.mem.epoch == 0
      && |t.j.logs| == 1 && J.Current(t.j)[0].event == r && J.Current(t.j)[1].event == o && J.Current(t.j)[2].event == v
  {
    hide Inv, J.Inv, Admissible, J.Trustworthy;
    var s0 := Init(project, 0);
    InitInv(project, 0);
    J.InitInv(project, 0);
    var s1 := Next(s0, Issuing(op));
    OthersKeepInv(s0, Issuing(op));
    OneStep(s0, Issuing(op));
    QuietAppend(s1, r, now);
    OneStep(s1, Append(r, now));
    var s2 := Next(s1, Append(r, now));
    Joined(s0, [Issuing(op)], [Append(r, now)]);
    QuietAppend(s2, o, now);
    OneStep(s2, Append(o, now));
    var s3 := Next(s2, Append(o, now));
    Joined(s0, [Issuing(op)] + [Append(r, now)], [Append(o, now)]);
    QuietAppend(s3, v, now);
    OneStep(s3, Append(v, now));
    Joined(s0, [Issuing(op)] + [Append(r, now)] + [Append(o, now)], [Append(v, now)]);
    Shape(Next(s3, Append(v, now)).j);
  }

  function TakenTimes(own: set<seq<Unit>>, n: nat): seq<Step> { seq(n, _ => Pushing(own, Taken)) }

  /** Pushing to the head and acknowledging it. */
  lemma PushedToTheHead(s: Sys, own: set<seq<Unit>>, n: nat)
    requires Inv(s) && J.Trustworthy(s.j) && own == s.push.issued && Standing(s, own) && InReach(s)
    requires n > 0 && n >= Left(s.push.ctl, s.j.mem) && 0 < |J.Current(s.j)|
    requires IsPushable(s.j, (0, |J.Current(s.j)|)) && !IsEcho(s.j, (0, |J.Current(s.j)|), own)
    requires |s.j.mem.rows| > 0 && s.push.skipped == {}
    ensures J.Inv(s.j) && CanAll(s, TakenTimes(own, n))
    ensures var t := Run(s, TakenTimes(own, n));
      && Inv(t) && Standing(t, own) && t.j == s.j && (0, |J.Current(s.j)|) in t.push.pushed && t.record == s.record
      && t.push.skipped <= RowsBetween(0, 0, s.j.mem.latest - |s.j.mem.rows|)
  {
    hide Inv, J.Trustworthy, J.Inv, IsPushable, IsEcho, Left, CanAll, Run, AllPending, J.SuffixOf, InOrder, OnlyPushes;
    var steps := TakenTimes(own, n);
    Shape(s.j) by { InvJournal(s); }
    InvJournal(s);
    AreTaken(steps, own, n);
    TakenPushes(s, own, steps);
    SameIssued(s, own, steps);
    PushesReachTheHead(s, steps);
    NothingSignificantWaits(Run(s, steps), |J.Current(s.j)|);
  }

  lemma AreTaken(steps: seq<Step>, own: set<seq<Unit>>, n: nat)
    requires steps == TakenTimes(own, n)
    ensures OnlyPushes(steps, own) && forall step <- steps :: step == Pushing(own, Taken)
  {}

  lemma {:induction false} SameIssued(s: Sys, own: set<seq<Unit>>, steps: seq<Step>)
    requires Inv(s) && J.Trustworthy(s.j) && own <= s.push.issued && Standing(s, own)
    requires forall step <- steps :: step == Pushing(own, Taken)
    ensures J.Inv(s.j) && CanAll(s, steps) && Run(s, steps).push.issued == s.push.issued
    decreases |steps|
  {
    hide Inv, J.Trustworthy, Standing, J.Inv, Next;
    InvJournal(s);
    if steps != [] {
      TakenPush(s, own);
      assert steps[0] in steps && forall step <- steps[1..] :: step in steps;
      SameIssued(Next(s, steps[0]), own, steps[1..]);
    }
  }

  /** Then everything up to the third row is acknowledged, and the first two were neither pushed nor read
      nor named: one is the routine success, one the leader's own doing. */
  lemma LeftOutOnPurpose(project: seq<Unit>, op: seq<Unit>, r: Event, o: Event, v: Event, now: Instant)
    requires Admissible(r) && Admissible(o) && Admissible(v)
    requires RoutineSuccess(r) && !OwnDoing(r, {op}) && !RoutineSuccess(o) && OwnDoing(o, {op})
    requires !RoutineSuccess(v) && !OwnDoing(v, {op})
    ensures var s := Init(project, 0);
      && J.Inv(s.j) && CanAll(s, LeftOutSteps(project, op, r, o, v, now))
      && var t := Run(s, LeftOutSteps(project, op, r, o, v, now));
      && t.memGen == 0 && t.record.acked.through == 3 && (0, 3) in t.push.pushed
      && (0, 1) in t.push.omitted && (0, 2) in t.push.echoed
      && (0, 1) !in t.read + t.push.pushed + t.stated + t.notOwed + t.push.skipped
      && (0, 2) !in t.read + t.push.pushed + t.stated + t.notOwed + t.push.skipped
  {
    hide Inv, J.Trustworthy, J.Inv, Admissible, RoutineSuccess, OwnDoing, CanAll, Run, Standing, Next;
    var a := [Issuing(op)] + [Append(r, now)] + [Append(o, now)] + [Append(v, now)];
    var b := TakenTimes({op}, 5);
    var step := Acking((0, Cursor(project, 0, 3)), true);
    BeforeThePushes(project, op, r, o, v, now);
    var s := Init(project, 0);
    var t := Run(s, a);
    AlwaysInReach(t);
    StandingIsUnspoken(t, {op});
    EventOf(t.j, 1);
    EventOf(t.j, 2);
    EventOf(t.j, 3);
    PushedToTheHead(t, {op}, 5);
    AreTaken(b, {op}, 5);
    SameIssued(t, {op}, b);
    Joined(s, a, b);
    var u := Run(t, b);
    BehindOnPurpose(u, op);
    StandingIsUnspoken(u, {op});
    AckTheHead(u, true);
    OneStep(u, step);
    Joined(s, a + b, [step]);
    assert LeftOutSteps(project, op, r, o, v, now) == a + b + [step];
  }

  lemma BehindOnPurpose(u: Sys, op: seq<Unit>)
    requires Inv(u) && Standing(u, {op}) && (0, 3) in u.push.pushed && u.push.skipped == {} && u.push.issued == {op}
    requires IsRoutine(u.j, (0, 1)) && !IsEcho(u.j, (0, 1), {op})
    requires IsPushable(u.j, (0, 2)) && IsEcho(u.j, (0, 2), {op})
    ensures (0, 1) in u.push.omitted && (0, 1) !in u.push.pushed
    ensures (0, 2) in u.push.echoed && (0, 2) !in u.push.pushed
  {
    hide J.Inv, ControllerInv, InLog, EventAt, RoutineSuccess, OwnDoing, J.MintedBy, Anchored;
    var c := OfferedIsMinted(u, (0, 3));
    assert ((0, 3).0, c) == (0, c) && (0, c) in u.held && Covered(u, 0, c.position);
    assert (0, 1) in Known(u) && (0, 2) in Known(u);
    assert (0, 2) !in u.push.omitted + u.push.over && (0, 1) !in u.push.echoed + u.push.kept;
  }

  lemma EventOf(j: J.Sys, k: nat)
    requires |j.logs| == 1 && j.gen == 0 && 0 < k <= |J.Current(j)|
    ensures InLog(j, (0, k)) && EventAt(j, (0, k)) == J.Current(j)[k - 1].event
  {}

  // ---- left behind in silence -----------------------------------------------------------------------

  /** Rows arrive while no client is attached: each makes the controller try, and fail, to push. */
  function Unheard(e: Event, now: Instant, n: nat): seq<Step> {
    if n == 0 then [] else [Append(e, now)] + [Pushing({}, Failed)] + Unheard(e, now, n - 1)
  }

  /** `k` significant rows, all retained, and a scan that has not moved. */
  ghost predicate Waiting(s: Sys, project: seq<Unit>, e: Event, k: nat) {
    && Inv(s) && J.Trustworthy(s.j) && Standing(s, {}) && s.push.ctl == Controller(None, 0, None, 0)
    && s.push.skipped == {} && s.push.issued == {} && s.push.pushed == {}
    && s.j.mem.project == project && s.j.mem.epoch == 0 && |s.j.logs| == 1
    && |s.j.mem.rows| == k == s.j.mem.latest == |J.Current(s.j)|
    && (k > 0 ==> J.Current(s.j)[0].event == e)
  }

  lemma FirstIsVisible(log: seq<Row>, n: nat)
    requires InOrder(log) && 0 < n <= |log| && !RoutineSuccess(log[0].event)
    ensures !Exactly([], log, 0, n, true)
  {
    hide RoutineSuccess;
    RowsAreGenuine(log, 1);
    assert log[0] !in [];
  }

  lemma NothingPasses(s: Sys)
    requires Inv(s) && s.push.ctl == Controller(None, 0, None, 0) && |s.j.mem.rows| == |J.Current(s.j)| > 0
    requires !RoutineSuccess(J.Current(s.j)[0].event)
    ensures Valid(s.j.mem) && !ScanOf(s.push.ctl, s.j.mem).Passed?
  {
    hide Inv, ScanPage, J.Inv, InOrder, Exactly, ScanOf, RoutineSuccess;
    InvJournal(s);
    var n := ScanReads(s.j, s.push.ctl);
    PageIsSplit(s.push.ctl, s.j.mem, J.Current(s.j), 0, n);
    FirstIsVisible(J.Current(s.j), n);
  }

  lemma FailedPush(s: Sys, project: seq<Unit>, e: Event, k: nat)
    requires Waiting(s, project, e, k) && !RoutineSuccess(e) && k > 0
    ensures J.Inv(s.j) && Can(s, Pushing({}, Failed)) && Next(s, Pushing({}, Failed)) == s
  {
    hide Inv, J.Inv, ScanOf, RoutineSuccess, Standing, J.Trustworthy, Looking, AfterScan;
    InvJournal(s);
    NothingPasses(s);
    RaisingIdle(s);
  }

  lemma RaisingIdle(s: Sys)
    requires Standing(s, {}) && s.push.ctl == Controller(None, 0, None, 0)
    ensures Raising(s) == s
  {}

  lemma OneMoreRow(s: Sys, project: seq<Unit>, e: Event, now: Instant, k: nat)
    requires Waiting(s, project, e, k) && Admissible(e) && !RoutineSuccess(e) && k < RETAINED_ROWS
    ensures J.Inv(s.j)
    ensures var steps := [Append(e, now)] + [Pushing({}, Failed)];
      && CanAll(s, steps) && Waiting(Run(s, steps), project, e, k + 1)
      && Run(s, steps).j.mem.rows[0] == (if k == 0 then NewRow(s.j.mem, e, now) else s.j.mem.rows[0])
  {
    hide Inv, J.Inv, RoutineSuccess, Admissible, J.Trustworthy;
    QuietAppend(s, e, now);
    OneStep(s, Append(e, now));
    var t := Next(s, Append(e, now));
    Shape(t.j) by { InvJournal(t); }
    StillStanding(s, t);
    FailedPush(t, project, e, k + 1);
    OneStep(t, Pushing({}, Failed));
    Joined(s, [Append(e, now)], [Pushing({}, Failed)]);
  }

  lemma StillStanding(s: Sys, t: Sys)
    requires Standing(s, {}) && t == s.(j := t.j) && t.j.gen == s.j.gen && s.push.ctl.position.None?
    requires s.push.pushed == {}
    ensures Standing(t, {})
  {}

  lemma {:induction false} RowsGather(s: Sys, project: seq<Unit>, e: Event, now: Instant, k: nat, n: nat)
    requires Waiting(s, project, e, k) && Admissible(e) && !RoutineSuccess(e) && k + n <= RETAINED_ROWS
    ensures J.Inv(s.j) && CanAll(s, Unheard(e, now, n))
    ensures var t := Run(s, Unheard(e, now, n));
      && Waiting(t, project, e, k + n)
      && (k + n > 0 ==> t.j.mem.rows[0] == (if k == 0 then NewRow(s.j.mem, e, now) else s.j.mem.rows[0]))
    decreases n
  {
    hide RoutineSuccess, Admissible, Next, Can, Inv, J.Inv, Standing, J.Trustworthy;
    InvJournal(s);
    if n > 0 {
      OneMoreRow(s, project, e, now, k);
      var steps := [Append(e, now)] + [Pushing({}, Failed)];
      var t := Run(s, steps);
      InvJournal(t);
      RowsGather(t, project, e, now, k + 1, n - 1);
      Joined(s, steps, Unheard(e, now, n - 1));
    }
  }

  /** An append that evicts the oldest row, as old as retention allows. */
  lemma EvictingAppend(s: Sys, e: Event, now: Instant)
    requires Inv(s) && J.Trustworthy(s.j) && Admissible(e) && |s.j.mem.rows| == RETAINED_ROWS
    requires s.j.mem.rows[0].ts.ms <= now.ms - MIN_RETENTION_MS
    ensures J.Inv(s.j) && Can(s, Append(e, now))
    ensures var t := Next(s, Append(e, now));
      && Inv(t) && J.Trustworthy(t.j) && t == s.(j := t.j) && t.j.gen == s.j.gen
      && J.Current(t.j) == J.Current(s.j) + [NewRow(s.j.mem, e, now)] && |t.j.mem.rows| == RETAINED_ROWS
      && t.j.mem.latest == s.j.mem.latest + 1 && t.j.mem.project == s.j.mem.project && t.j.mem.epoch == s.j.mem.epoch
  {
    hide Inv, Admissible, NewRow, J.LogInv, J.FileInv, J.MintInv;
    InvJournal(s);
    OthersKeepInv(s, Append(e, now));
    OneEvicted(s.j.mem.rows, NewRow(s.j.mem, e, now), now.ms - MIN_RETENTION_MS);
    Shape(s.j);
    J.AppendKeepsLog(s.j, J.Append(e, now, true, false)) by { JournalParts(s.j); }
    JournalParts(s.j);
  }

  lemma JournalParts(j: J.Sys)
    requires J.Inv(j)
    ensures J.LogInv(j) && j.files.rows.Some? && |j.logs| == j.gen + 1
  {}

  lemma OneEvicted(rows: seq<Row>, row: Row, cutoff: int)
    requires |rows| == RETAINED_ROWS && rows[0].ts.ms <= cutoff
    ensures Evict(rows + [row], cutoff) == rows[1..] + [row]
  {
    assert (rows + [row])[1..] == rows[1..] + [row];
  }

  /** One row, then as many as retention keeps while its minimum age passes, and no client is attached.
      Then one more row arrives, a client takes the pushes, and the leader acknowledges the last cursor. */
  function SilentSteps(project: seq<Unit>, e: Event, before: Instant, now: Instant): seq<Step> {
    Unheard(e, before, 1) + Unheard(e, now, RETAINED_ROWS - 1) + [Append(e, now)] + TakenTimes({}, RETAINED_ROWS)
    + [Acking((0, Cursor(project, 0, RETAINED_ROWS + 1)), true)]
  }

  lemma BeforeTheFirstClient(project: seq<Unit>, e: Event, before: Instant, now: Instant)
    requires Admissible(e) && !RoutineSuccess(e) && before.ms + MIN_RETENTION_MS <= now.ms
    ensures var steps := Unheard(e, before, 1) + Unheard(e, now, RETAINED_ROWS - 1) + [Append(e, now)];
      var s := Init(project, 0);
      && J.Inv(s.j) && CanAll(s, steps)
      && var t := Run(s, steps);
      && Inv(t) && J.Trustworthy(t.j) && Standing(t, {}) && t.push.ctl == Controller(None, 0, None, 0)
      && t.push.skipped == {} && t.push.issued == {} && t.push.pushed == {}
      && |t.j.mem.rows| == RETAINED_ROWS && t.j.mem.latest == RETAINED_ROWS + 1 == |J.Current(t.j)|
      && t.j.mem.project == project && t.j.mem.epoch == 0 && |t.j.logs| == 1
      && J.Current(t.j)[0].event == e && J.Current(t.j)[RETAINED_ROWS].event == e
  {
    hide Inv, J.Inv, Admissible, RoutineSuccess, J.Trustworthy, Standing, CanAll, Run, Next, Unheard;
    var s := Init(project, 0);
    var a := Unheard(e, before, 1);
    var b := Unheard(e, now, RETAINED_ROWS - 1);
    FirstIsWaiting(project, e);
    RowsGather(s, project, e, before, 0, 1);
    var t := Run(s, a);
    RowsGather(t, project, e, now, 1, RETAINED_ROWS - 1);
    InvJournal(t);
    Joined(s, a, b);
    var u := Run(t, b);
    InvJournal(u);
    Shape(u.j);
    EvictingAppend(u, e, now);
    OneStep(u, Append(e, now));
    Joined(s, a + b, [Append(e, now)]);
    StillStanding(u, Next(u, Append(e, now)));
    Shape(Next(u, Append(e, now)).j);
  }

  lemma FirstIsWaiting(project: seq<Unit>, e: Event)
    ensures Waiting(Init(project, 0), project, e, 0)
  {
    hide Inv;
    InitInv(project, 0);
    J.InitInv(project, 0);
  }

  /** Then the first row, which every client should have been told of, is acknowledged: no page or push
      handed it over, no gap named it, it is not older than the record, and it was not left out. */
  lemma GapPassesInSilence(project: seq<Unit>, e: Event, before: Instant, now: Instant)
    requires Admissible(e) && !RoutineSuccess(e) && before.ms + MIN_RETENTION_MS <= now.ms
    ensures var s := Init(project, 0);
      && J.Inv(s.j) && CanAll(s, SilentSteps(project, e, before, now))
      && var t := Run(s, SilentSteps(project, e, before, now));
      && t.memGen == 0 && t.record.acked.through == RETAINED_ROWS + 1
      && IsPushable(t.j, (0, 1)) && !IsEcho(t.j, (0, 1), t.push.issued) && (0, 1) !in Told(t)
  {
    hide Inv, J.Inv, Admissible, RoutineSuccess, J.Trustworthy, CanAll, Run, Next, Unheard, Left, Start, Standing;
    var s := Init(project, 0);
    var a := Unheard(e, before, 1) + Unheard(e, now, RETAINED_ROWS - 1) + [Append(e, now)];
    BeforeTheFirstClient(project, e, before, now);
    var t := Run(s, a);
    AlwaysInReach(t);
    StandingIsUnspoken(t, {});
    EventOf(t.j, 1);
    EventOf(t.j, RETAINED_ROWS + 1);
    FewRounds(t);
    var b := TakenTimes({}, RETAINED_ROWS);
    AreTaken(b, {}, RETAINED_ROWS);
    SameIssued(t, {}, b);
    PushedToTheHead(t, {}, RETAINED_ROWS);
    Joined(s, a, b);
    var u := Run(t, b);
    FirstIsUntold(u);
    AckTheHead(u, true);
    var step := Acking((0, Cursor(project, 0, RETAINED_ROWS + 1)), true);
    OneStep(u, step);
    Joined(s, a + b, [step]);
  }

  lemma FewRounds(t: Sys)
    requires InReach(t) && t.push.ctl == Controller(None, 0, None, 0)
    ensures Left(t.push.ctl, t.j.mem) <= |t.j.mem.rows|
  {}

  lemma FirstIsUntold(u: Sys)
    requires Inv(u) && Standing(u, {}) && |u.j.mem.rows| == RETAINED_ROWS && u.j.mem.latest == RETAINED_ROWS + 1
    requires IsPushable(u.j, (0, 1)) && u.push.issued == {}
    ensures (0, 1) !in Told(u) && Unspoken(u) && !IsEcho(u.j, (0, 1), {})
  {
    hide J.Inv, HeldAreCovered, ControllerInv, InLog, EventAt, RoutineSuccess, LeftOutBehind;
    assert forall p <- u.push.omitted :: p in u.push.omitted + u.push.over;
    assert forall p <- u.push.echoed :: p in u.push.echoed + u.push.kept;
  }
}
