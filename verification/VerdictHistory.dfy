/** What becomes of recorded verdicts and of their rows over whole runs of `VerdictRuns`: a run is watched
    by a history the program does not keep. */
module VerdictHistory {
  import opened Options
  import opened VerdictLedger
  import opened VerdictRuns

  /** What a packet reports, whether or not it was announced. */
  datatype Report = Report(id: string, role: string, report: nat)

  /** `sinceSave` are the ids whose row was appended since the index was last saved. `current` are the
      reports that were recorded and not superseded by a later one of their role. `unsaved` are those
      recorded by this process since the last save, and `refused` those of them whose flush failed.
      `lastSaved` are the reports the last save of the index wrote. `removed` are those whose packet was
      removed or replaced since it was last offered or recorded, and `forgotten` those a crash left out of
      memory because no save had taken them, until they are recorded again. */
  datatype Watched = Watched(
    sys: Sys, sinceSave: set<string>, current: set<Report>, unsaved: set<Report>, refused: set<Report>,
    lastSaved: set<Report>, removed: set<Report>, forgotten: set<Report>)

  const START := Watched(INIT, {}, {}, {}, {}, {}, {}, {})

  function ReportIn(v: Verdict): Report { Report(v.id, v.role, v.report) }

  function ReportOf(p: Packet): Report { Report(p.id, p.role, p.report) }

  predicate HeadIs(s: Sys, op: Op) { s.todo != [] && s.todo[0] == op }

  predicate Saving(s: Sys, step: Step) { step.Saves? || (step == Does(true) && HeadIs(s, Flush)) }

  predicate FlushFails(s: Sys, step: Step) { step == Does(false) && HeadIs(s, Flush) }

  predicate AppendsRow(s: Sys, step: Step) { step == Does(true) && s.todo != [] && s.todo[0].Announce? }

  predicate Records(s: Sys, task: string, step: Step) {
    step.Settles? && s.packet.Some? && Judged(s.mem, s.packet.value, task, step.step, step.declared).Recorded?
  }

  function ReportsIn(vs: seq<Verdict>): set<Report> { set v | v in vs :: ReportIn(v) }

  function PacketReport(s: Sys): set<Report> { if s.packet.Some? then {ReportOf(s.packet.value)} else {} }

  predicate Removes(s: Sys, step: Step) { step == Does(true) && HeadIs(s, Consume) }

  ghost function NextW(w: Watched, task: string, step: Step): Watched {
    var s := w.sys;
    var t := Next(s, task, step);
    if Saving(s, step) then w.(sys := t, sinceSave := {}, unsaved := {}, refused := {}, lastSaved := ReportsIn(s.mem))
    else if step.Dies? then w.(sys := t, sinceSave := {}, unsaved := {}, refused := {}, forgotten := w.current - w.lastSaved)
    else if AppendsRow(s, step) then w.(sys := t, sinceSave := w.sinceSave + {s.todo[0].id})
    else if FlushFails(s, step) then w.(sys := t, refused := w.unsaved)
    else if Records(s, task, step) then
      var r := ReportOf(s.packet.value);
      w.(sys := t, current := (set x <- w.current | x.role != r.role) + {r}, unsaved := w.unsaved + {r},
         refused := w.refused - {r}, removed := w.removed - {r}, forgotten := w.forgotten - {r})
    else if step.Offers? then w.(sys := t, removed := w.removed + PacketReport(s) - {ReportOf(step.packet)})
    else if Removes(s, step) then w.(sys := t, removed := w.removed + PacketReport(s))
    else w.(sys := t)
  }

  ghost function RunW(w: Watched, task: string, steps: seq<Step>): Watched
    decreases |steps|
  {
    if steps == [] then w else RunW(NextW(w, task, steps[0]), task, steps[1..])
  }

  lemma {:induction false} WatchingChangesNothing(w: Watched, task: string, steps: seq<Step>)
    ensures RunW(w, task, steps).sys == Run(w.sys, task, steps)
    decreases |steps|
  {
    hide Next;
    if steps != [] { WatchingChangesNothing(NextW(w, task, steps[0]), task, steps[1..]); }
  }

  // ---- no recorded verdict is lost ------------------------------------------------------------------

  ghost predicate Holds(vs: seq<Verdict>, r: Report) { exists v :: v in vs && ReportIn(v) == r }

  predicate InPacket(s: Sys, r: Report) { s.packet.Some? && ReportOf(s.packet.value) == r }

  /** The packet is there to be read again, the record is on disk, or a living process has it. */
  ghost predicate Stands(s: Sys, r: Report) { InPacket(s, r) || Holds(s.disk, r) || Holds(s.mem, r) }

  /** How a recorded report can be lost. A crash loses it when its flush failed and nothing was saved
      since, its packet is gone, and the save before had not written an equal report either. And one that a
      crash left in its packet alone is lost with the packet: when another replaces it, or when a settling
      step that is not its own has it removed. */
  ghost predicate Loses(w: Watched, step: Step, r: Report) {
    match step
    case Dies => r in w.refused && r in w.removed && r !in w.lastSaved
    case Offers(p) => r in w.forgotten && r !in w.removed && ReportOf(p) != r
    case Does(_) => Removes(w.sys, step) && r in w.forgotten && r in PacketReport(w.sys)
    case _ => false
  }

  /** A flush and a removal are queued last, and in this order. */
  ghost predicate QueueEnds(s: Sys) {
    forall i :: 0 <= i < |s.todo| ==>
      && (s.todo[i] == Consume ==> i == |s.todo| - 1)
      && (s.todo[i] == Flush ==> i == |s.todo| - 2 && s.todo[|s.todo| - 1] == Consume)
  }

  ghost predicate FlushIsQueued(s: Sys) { |s.todo| >= 2 && s.todo[|s.todo| - 2] == Flush }

  /** The history tells where a recorded report is. */
  ghost predicate PlacedAsTold(w: Watched, r: Report) {
    && (InPacket(w.sys, r) <==> r !in w.removed)
    && (Holds(w.sys.mem, r) <==> r !in w.forgotten)
  }

  ghost predicate HistoryInv(w: Watched) {
    var s := w.sys;
    && QueueEnds(s)
    && (forall r <- w.current :: PlacedAsTold(w, r))
    && (forall r :: Holds(s.disk, r) <==> r in w.lastSaved)
    && (forall r <- w.current :: r in w.lastSaved ==> r !in w.forgotten)
    && (forall r <- w.current :: r !in w.forgotten && r !in w.lastSaved ==> r in w.unsaved)
    && (forall r <- w.unsaved :: r in w.refused || (InPacket(s, r) && FlushIsQueued(s)))
  }

  lemma TakenHolds(vs: seq<Verdict>, p: Packet, r: Report)
    ensures Holds(Taken(vs, p), r) <==> r == ReportOf(p) || (r.role != p.role && Holds(vs, r))
  {
    hide WithoutRole;
    WithoutRoleKeeps(vs, p.role);
    var after := Taken(vs, p);
    var added := Verdict(p.id, p.role, p.report, false);
    assert after == WithoutRole(vs, p.role) + [added];
    assert forall v :: v in after <==> v in WithoutRole(vs, p.role) || v == added;
    assert added in after && ReportIn(added) == ReportOf(p);
    if r.role != p.role && Holds(vs, r) {
      var v :| v in vs && ReportIn(v) == r;
      assert v in after;
    }
  }

  lemma MarkedHolds(vs: seq<Verdict>, id: string, r: Report)
    ensures Holds(Marked(vs, id), r) <==> Holds(vs, r)
  {
    var after := Marked(vs, id);
    if Holds(vs, r) {
      var i :| 0 <= i < |vs| && ReportIn(vs[i]) == r;
      assert after[i] in after && ReportIn(after[i]) == r;
    }
    if Holds(after, r) {
      var i :| 0 <= i < |after| && ReportIn(after[i]) == r;
      assert vs[i] in vs && ReportIn(vs[i]) == r;
    }
  }

  lemma QueueEndsStays(s: Sys, task: string, step: Step)
    requires QueueEnds(s) && Can(s, step)
    ensures QueueEnds(Next(s, task, step))
    ensures !step.Does? ==> forall op <- s.todo :: op.Announce? || step.Dies?
  {
    hide Pending, Judged, Taken, Marked;
  }

  lemma SettlingQueues(s: Sys, task: string, step: Step)
    requires Records(s, task, step)
    ensures FlushIsQueued(Next(s, task, step)) && Next(s, task, step).packet == s.packet
    ensures Next(s, task, step).mem == Taken(s.mem, s.packet.value) && Next(s, task, step).disk == s.disk
  {
    hide Pending, Judged, Taken;
  }

  /** What each step does to the three places a report can be. */
  ghost predicate Placed(s: Sys, task: string, step: Step, r: Report) {
    var t := Next(s, task, step);
    && (Holds(t.disk, r) <==> Holds(if Saving(s, step) then s.mem else s.disk, r))
    && (Holds(t.mem, r) <==>
          if step.Dies? then Holds(s.disk, r)
          else if Records(s, task, step) then r == ReportOf(s.packet.value) || (r.role != s.packet.value.role && Holds(s.mem, r))
          else Holds(s.mem, r))
    && (InPacket(t, r) <==>
          if step.Offers? then r == ReportOf(step.packet)
          else InPacket(s, r) && !(step == Does(true) && HeadIs(s, Consume)))
  }

  lemma PlacesAfter(s: Sys, task: string, step: Step, r: Report)
    requires Can(s, step)
    ensures Placed(s, task, step, r)
  {
    hide Pending, Judged, Taken, Marked, Holds, Queued;
    if Records(s, task, step) { TakenHolds(s.mem, s.packet.value, r); }
    if step.Does? && s.todo != [] && s.todo[0].Announce? { MarkedHolds(s.mem, s.todo[0].id, r); }
  }

  lemma HistoryKept(w: Watched, task: string, step: Step)
    requires HistoryInv(w) && Can(w.sys, step)
    ensures HistoryInv(NextW(w, task, step))
  {
    hide Next, Holds, InPacket, QueueEnds, FlushIsQueued;
    var t := NextW(w, task, step);
    QueueEndsStays(w.sys, task, step);
    forall r | r in t.unsaved && r !in t.refused ensures InPacket(t.sys, r) && FlushIsQueued(t.sys) {
      StillQueued(w, task, step, r);
    }
    forall r ensures Holds(t.sys.disk, r) <==> r in t.lastSaved {
      PlacesAfter(w.sys, task, step, r);
      HoldsIsReported(w.sys.mem, r);
    }
    forall r | r in t.current
      ensures PlacedAsTold(t, r) && (r in t.lastSaved ==> r !in t.forgotten)
      ensures r !in t.forgotten && r !in t.lastSaved ==> r in t.unsaved
    {
      CurrentKept(w, task, step, r);
    }
  }

  lemma HoldsIsReported(vs: seq<Verdict>, r: Report)
    ensures Holds(vs, r) <==> r in ReportsIn(vs)
  {}

  lemma CurrentKept(w: Watched, task: string, step: Step, r: Report)
    requires HistoryInv(w) && Can(w.sys, step) && r in NextW(w, task, step).current
    ensures var t := NextW(w, task, step);
      && PlacedAsTold(t, r) && (r in t.lastSaved ==> r !in t.forgotten)
      && (r !in t.forgotten && r !in t.lastSaved ==> r in t.unsaved)
  {
    hide Next, Holds, QueueEnds, FlushIsQueued, ReportsIn;
    PlacesAfter(w.sys, task, step, r);
    HoldsIsReported(w.sys.mem, r);
  }

  /** Until its flush was tried, a report recorded by this process still has its packet. */
  lemma StillQueued(w: Watched, task: string, step: Step, r: Report)
    requires HistoryInv(w) && Can(w.sys, step)
    requires r in NextW(w, task, step).unsaved && r !in NextW(w, task, step).refused
    ensures InPacket(NextW(w, task, step).sys, r) && FlushIsQueued(NextW(w, task, step).sys)
  {
    hide Pending, Judged, Taken, Marked, Holds;
    if Records(w.sys, task, step) {
      SettlingQueues(w.sys, task, step);
    }
  }

  /** A crash loses a recorded report only if its flush failed and nothing was saved since. */
  lemma CrashLosesOnlyRefused(w: Watched, task: string, r: Report)
    requires HistoryInv(w) && r in w.current && Stands(w.sys, r)
    ensures !Stands(NextW(w, task, Dies).sys, r) ==> r in w.refused
  {
    hide Next, Holds;
    PlacesAfter(w.sys, task, Dies, r);
    assert r in w.unsaved && r !in w.refused ==> InPacket(w.sys, r);
  }

  /** A recorded report that nothing superseded goes on standing if and only if the step is not one of
      those. */
  lemma LosesIff(w: Watched, task: string, step: Step, r: Report)
    requires HistoryInv(w) && Can(w.sys, step) && r in w.current && r in NextW(w, task, step).current
    requires Stands(w.sys, r)
    ensures Stands(NextW(w, task, step).sys, r) <==> !Loses(w, step, r)
  {
    hide Next, Holds;
    PlacesAfter(w.sys, task, step, r);
    assert step.Dies? && r in w.unsaved && r !in w.refused ==> InPacket(w.sys, r);
  }

  lemma RecordedStands(w: Watched, task: string, step: Step)
    requires Can(w.sys, step) && Records(w.sys, task, step)
    ensures var r := ReportOf(w.sys.packet.value);
      r in NextW(w, task, step).current && Stands(NextW(w, task, step).sys, r)
  {
    hide Next, Holds;
    PlacesAfter(w.sys, task, step, ReportOf(w.sys.packet.value));
  }

  /** Nothing supersedes the report while the run lasts. */
  ghost predicate StaysCurrent(w: Watched, task: string, steps: seq<Step>, r: Report)
    decreases |steps|
  {
    r in w.current && (steps == [] || StaysCurrent(NextW(w, task, steps[0]), task, steps[1..], r))
  }

  ghost predicate StandsThroughout(w: Watched, task: string, steps: seq<Step>, r: Report)
    decreases |steps|
  {
    Stands(w.sys, r) && (steps == [] || StandsThroughout(NextW(w, task, steps[0]), task, steps[1..], r))
  }

  ghost predicate NeverLoses(w: Watched, task: string, steps: seq<Step>, r: Report)
    decreases |steps|
  {
    steps == [] || (!Loses(w, steps[0], r) && NeverLoses(NextW(w, task, steps[0]), task, steps[1..], r))
  }

  /** A recorded verdict survives a run if and only if no step of it was such a step. */
  lemma {:induction false} SurvivesIff(w: Watched, task: string, steps: seq<Step>, r: Report)
    requires HistoryInv(w) && CanAll(w.sys, task, steps) && Stands(w.sys, r) && StaysCurrent(w, task, steps, r)
    ensures StandsThroughout(w, task, steps, r) <==> NeverLoses(w, task, steps, r)
    decreases |steps|
  {
    hide Next, Can, Stands, Loses, HistoryInv;
    if steps != [] {
      var t := NextW(w, task, steps[0]);
      HistoryKept(w, task, steps[0]);
      LosesIff(w, task, steps[0], r);
      if Stands(t.sys, r) { SurvivesIff(t, task, steps[1..], r); }
    }
  }

  lemma StartHistory()
    ensures HistoryInv(START)
  {}

  lemma {:induction false} HistoryOverRuns(w: Watched, task: string, steps: seq<Step>)
    requires HistoryInv(w) && CanAll(w.sys, task, steps)
    ensures HistoryInv(RunW(w, task, steps))
    decreases |steps|
  {
    hide Next, Can, HistoryInv;
    if steps != [] {
      HistoryKept(w, task, steps[0]);
      HistoryOverRuns(NextW(w, task, steps[0]), task, steps[1..]);
    }
  }

  // ---- when a crash costs nothing -------------------------------------------------------------------

  ghost predicate NoFlushFails(s: Sys, task: string, steps: seq<Step>)
    decreases |steps|
  {
    steps == [] || (!FlushFails(s, steps[0]) && NoFlushFails(Next(s, task, steps[0]), task, steps[1..]))
  }

  lemma {:induction false} NothingIsRefused(w: Watched, task: string, steps: seq<Step>)
    requires w.refused == {} && NoFlushFails(w.sys, task, steps)
    ensures RunW(w, task, steps).refused == {}
    decreases |steps|
  {
    hide Next;
    if steps != [] { NothingIsRefused(NextW(w, task, steps[0]), task, steps[1..]); }
  }

  /** While no flush fails, no crash anywhere loses a recorded verdict: it leaves the packet or the record. */
  lemma CrashCostsNothing(task: string, steps: seq<Step>, r: Report)
    requires CanAll(INIT, task, steps) && NoFlushFails(INIT, task, steps)
    requires r in RunW(START, task, steps).current && Stands(RunW(START, task, steps).sys, r)
    ensures var t := NextW(RunW(START, task, steps), task, Dies).sys; InPacket(t, r) || Holds(t.disk, r)
  {
    hide Run, RunW, CanAll, NoFlushFails, HistoryInv, Holds;
    StartHistory();
    HistoryOverRuns(START, task, steps);
    NothingIsRefused(START, task, steps);
    var w := RunW(START, task, steps);
    LosesIff(w, task, Dies, r);
    PlacesAfter(w.sys, task, Dies, r);
  }

  /** While the journal takes its rows, each recorded verdict that nothing superseded and that was not lost
      has its row once an attached catalog has nothing left to do, or waits in its packet to be recorded
      again. */
  lemma NeverZero(task: string, steps: seq<Step>, r: Report)
    requires CanAll(INIT, task, steps) && RowsAreTaken(INIT, task, steps)
    requires r in RunW(START, task, steps).current && Stands(RunW(START, task, steps).sys, r)
    ensures var s := Run(INIT, task, steps);
      s.attached && s.todo == [] ==>
        InPacket(s, r) || exists v :: v in s.mem && ReportIn(v) == r && v.announced && v.id in s.rows
  {
    hide Run, RunW, CanAll, RowsAreTaken;
    StartHistory();
    HistoryOverRuns(START, task, steps);
    WatchingChangesNothing(START, task, steps);
    NeverZeroOnceRecovered(task, steps);
  }

  // ---- runs that lose one ---------------------------------------------------------------------------

  lemma {:induction false} First(w: Watched, task: string, steps: seq<Step>, t: Watched)
    requires steps != [] && Can(w.sys, steps[0]) && NextW(w, task, steps[0]) == t
    ensures RunW(w, task, steps) == RunW(t, task, steps[1..])
    ensures CanAll(w.sys, task, steps) <==> CanAll(t.sys, task, steps[1..])
  {
    hide Next, Can;
    assert t.sys == Next(w.sys, task, steps[0]);
  }

  predicate Proper(p: Packet, task: string, step: string) { p.matchesSchema && p.taskId == task && p.stepId == step }

  /** The packet is recorded in memory, the flush fails, the packet is removed all the same, and the
      process dies before the next save. */
  function LosingSteps(p: Packet, step: string): seq<Step> {
    [Offers(p), Settles(step, Some(p.role)), Does(false), Does(true), Dies]
  }

  lemma RecordingAlone(w: Watched, task: string, step: string, p: Packet)
    requires w.sys == INIT.(packet := Some(p)) && Proper(p, task, step) && w == START.(sys := w.sys)
    ensures var v := Verdict(p.id, p.role, p.report, false);
      NextW(w, task, Settles(step, Some(p.role))) ==
      START.(sys := INIT.(mem := [v], packet := Some(p), todo := [Flush, Consume]), current := {ReportOf(p)}, unsaved := {ReportOf(p)})
  {
    var v := Verdict(p.id, p.role, p.report, false);
    assert Taken([], p) == [v];
  }

  /** The flush fails, the packet is removed, the process dies. */
  lemma {:induction false} FailedFlush(w: Watched, task: string, steps: seq<Step>)
    requires w.sys.todo == [Flush, Consume] && steps == [Does(false), Does(true), Dies]
    ensures CanAll(w.sys, task, steps)
    ensures RunW(w, task, steps).sys == w.sys.(mem := w.sys.disk, attached := false, packet := None, todo := [])
    ensures RunW(w, task, steps).current == w.current
  {
    hide Run, RunW, CanAll;
    assert [Flush, Consume][1..] == [Consume] && [Consume][1..] == [];
    var w1 := w.(sys := w.sys.(todo := [Consume]), refused := w.unsaved);
    var w2 := w1.(sys := w1.sys.(todo := [], packet := None), removed := w1.removed + PacketReport(w1.sys));
    First(w, task, steps, w1);
    First(w1, task, steps[1..], w2);
    First(w2, task, steps[2..], NextW(w2, task, Dies));
    NoMore(NextW(w2, task, Dies), task, steps[3..]);
  }

  lemma NoMore(w: Watched, task: string, steps: seq<Step>)
    requires steps == []
    ensures RunW(w, task, steps) == w && CanAll(w.sys, task, steps)
  {}

  /** With nobody attached: no packet, no record, no row. */
  lemma {:induction false} LostWithoutATrace(task: string, step: string, p: Packet)
    requires Proper(p, task, step)
    ensures var w := RunW(START, task, LosingSteps(p, step));
      && CanAll(INIT, task, LosingSteps(p, step)) && ReportOf(p) in w.current && !Stands(w.sys, ReportOf(p))
      && w.sys.rows == []
  {
    hide Run, RunW, CanAll, Next, NextW, Proper;
    var steps := LosingSteps(p, step);
    var w1 := START.(sys := INIT.(packet := Some(p)));
    OfferedTo(START, task, p);
    First(START, task, steps, w1);
    RecordingAlone(w1, task, step, p);
    First(w1, task, steps[1..], NextW(w1, task, steps[1]));
    FailedFlush(NextW(w1, task, steps[1]), task, steps[2..]);
  }

  lemma OfferedTo(w: Watched, task: string, p: Packet)
    requires w.sys.packet.None? && w.removed == {}
    ensures NextW(w, task, Offers(p)) == w.(sys := w.sys.(packet := Some(p)))
  {}

  /** With a catalog attached: a row that neither a record nor a packet stands behind. */
  lemma {:induction false} LostBehindItsRow(task: string, step: string, p: Packet)
    requires Proper(p, task, step)
    ensures var steps := [Attaches, Offers(p), Settles(step, Some(p.role)), Does(true), Does(false), Does(true), Dies];
      var w := RunW(START, task, steps);
      && CanAll(INIT, task, steps) && ReportOf(p) in w.current && !Stands(w.sys, ReportOf(p)) && w.sys.rows == [p.id]
  {
    hide Run, RunW, CanAll, Next, NextW, Proper;
    var steps := [Attaches, Offers(p), Settles(step, Some(p.role)), Does(true), Does(false), Does(true), Dies];
    var v := Verdict(p.id, p.role, p.report, false);
    var w1 := START.(sys := INIT.(attached := true));
    var w2 := w1.(sys := w1.sys.(packet := Some(p)));
    var w3 := START.(sys := w2.sys.(mem := [v], todo := [Announce(p.id), Flush, Consume]), current := {ReportOf(p)},
                     unsaved := {ReportOf(p)});
    var w4 := w3.(sys := w3.sys.(mem := [v.(announced := true)], rows := [p.id], todo := [Flush, Consume]), sinceSave := {p.id});
    AttachesFirst(task);
    First(START, task, steps, w1);
    OfferedTo(w1, task, p);
    First(w1, task, steps[1..], w2);
    RecordingAttached(w2, task, step, p, w3);
    First(w2, task, steps[2..], w3);
    AnnouncingIt(w3, task, v, w4);
    First(w3, task, steps[3..], w4);
    assert steps[4..] == [Does(false), Does(true), Dies];
    FailedFlush(w4, task, steps[4..]);
  }

  lemma AttachesFirst(task: string)
    ensures NextW(START, task, Attaches) == START.(sys := INIT.(attached := true))
  {}

  lemma RecordingAttached(w: Watched, task: string, step: string, p: Packet, t: Watched)
    requires w == START.(sys := INIT.(attached := true, packet := Some(p))) && Proper(p, task, step)
    requires t == START.(sys := w.sys.(mem := [Verdict(p.id, p.role, p.report, false)], todo := [Announce(p.id), Flush, Consume]),
                         current := {ReportOf(p)}, unsaved := {ReportOf(p)})
    ensures NextW(w, task, Settles(step, Some(p.role))) == t
  {
    Recording(w.sys, task, step, p);
  }

  lemma AnnouncingIt(w: Watched, task: string, v: Verdict, t: Watched)
    requires w.sys.todo == [Announce(v.id), Flush, Consume] && w.sys.mem == [v] && w.sys.rows == [] && w.sinceSave == {}
    requires t == w.(sys := w.sys.(mem := [v.(announced := true)], rows := [v.id], todo := [Flush, Consume]), sinceSave := {v.id})
    ensures NextW(w, task, Does(true)) == t
  {
    assert Marked([v], v.id) == [v.(announced := true)];
    assert w.sys.todo[1..] == [Flush, Consume];
  }
}
