/** How many rows a verdict gets over a whole run, and when its row is ahead of its record. */
module VerdictRows {
  import opened Options
  import opened VerdictLedger
  import opened VerdictRuns
  import opened VerdictHistory

  // ---- at most one row ------------------------------------------------------------------------------

  /** What makes a second row possible: a crash after an announcement and before its mark was saved, so
      that the record on disk is still pending; or the recording of an id whose row is out. */
  ghost predicate ASecondBecomesPossible(w: Watched, task: string, step: Step) {
    if step.Dies? then exists v :: v in w.sys.disk && !v.announced && v.id in w.sinceSave
    else Records(w.sys, task, step) && w.sys.packet.value.id in w.sys.rows
  }

  ghost predicate RowInv(w: Watched) {
    && (forall id <- w.sinceSave :: id in w.sys.rows)
    && (forall v <- w.sys.disk :: !v.announced && v.id in w.sys.rows ==> v.id in w.sinceSave)
  }

  lemma SameCondition(w: Watched, task: string, step: Step)
    requires RowInv(w)
    ensures NoSecondRow(w.sys, task, step) <==> !ASecondBecomesPossible(w, task, step)
  {
    hide Judged;
  }

  lemma RowInvStays(w: Watched, task: string, step: Step)
    requires RowInv(w) && OneRow(w.sys) && Can(w.sys, step) && !ASecondBecomesPossible(w, task, step)
    ensures RowInv(NextW(w, task, step))
  {
    hide Judged, Taken, Pending, Marked, Queued;
    var s := w.sys;
    var t := NextW(w, task, step).sys;
    assert t.disk == if Saving(s, step) then s.mem else s.disk;
    assert t.rows == if AppendsRow(s, step) then s.rows + [s.todo[0].id] else s.rows;
  }

  lemma OneStepIff(w: Watched, task: string, step: Step)
    requires Inv(w.sys) && Can(w.sys, step) && OneRow(w.sys) && RowInv(w)
    ensures OneRow(NextW(w, task, step).sys) <==> !ASecondBecomesPossible(w, task, step)
    ensures OneRow(NextW(w, task, step).sys) ==> RowInv(NextW(w, task, step))
  {
    hide Inv, OneRow, RowInv, ASecondBecomesPossible, NoSecondRow, Next, Can;
    SameCondition(w, task, step);
    OneRowIff(w.sys, task, step);
    if !ASecondBecomesPossible(w, task, step) { RowInvStays(w, task, step); }
  }

  ghost predicate OneRowThroughout(w: Watched, task: string, steps: seq<Step>)
    decreases |steps|
  {
    OneRow(w.sys) && (steps == [] || OneRowThroughout(NextW(w, task, steps[0]), task, steps[1..]))
  }

  ghost predicate ASecondIsNeverPossible(w: Watched, task: string, steps: seq<Step>)
    decreases |steps|
  {
    steps == [] || (!ASecondBecomesPossible(w, task, steps[0])
                    && ASecondIsNeverPossible(NextW(w, task, steps[0]), task, steps[1..]))
  }

  /** Over a whole run no verdict is announced twice, nor can be, if and only if no step of it was such a
      crash or such a recording. */
  lemma {:induction false} AtMostOneRowIff(w: Watched, task: string, steps: seq<Step>)
    requires Inv(w.sys) && CanAll(w.sys, task, steps) && OneRow(w.sys) && RowInv(w)
    ensures OneRowThroughout(w, task, steps) <==> ASecondIsNeverPossible(w, task, steps)
    decreases |steps|
  {
    hide Inv, Next, Can, OneRow, RowInv, ASecondBecomesPossible;
    if steps != [] {
      var t := NextW(w, task, steps[0]);
      assert t.sys == Next(w.sys, task, steps[0]);
      NextKeepsInv(w.sys, task, steps[0]);
      OneStepIff(w, task, steps[0]);
      if OneRow(t.sys) { AtMostOneRowIff(t, task, steps[1..]); }
    }
  }

  /** In particular from the beginning. */
  lemma AtMostOneRowFromTheStart(task: string, steps: seq<Step>)
    requires CanAll(INIT, task, steps)
    ensures OneRowThroughout(START, task, steps) <==> ASecondIsNeverPossible(START, task, steps)
  {
    hide CanAll, OneRowThroughout, ASecondIsNeverPossible;
    AtMostOneRowIff(START, task, steps);
  }

  // ---- the record and the row -----------------------------------------------------------------------

  /** The queue of a settling step after its first `i` operations, with what each write came to. */
  ghost function Moment(s: Sys, task: string, settles: Step, oks: seq<bool>, i: nat): Sys
    requires i <= |oks|
  {
    if i == 0 then Next(s, task, settles) else Next(Moment(s, task, settles, oks, i - 1), task, Does(oks[i - 1]))
  }

  /** The journal has a new row for the report, and the index on disk no record of it. */
  ghost predicate RowIsAhead(s: Sys, t: Sys, r: Report) {
    |t.rows| > |s.rows| && r.id in t.rows[|s.rows|..] && !Holds(t.disk, r)
  }

  lemma NothingElseIsPending(s: Sys, p: Packet)
    requires Inv(s) && s.attached && s.todo == []
    ensures Pending(Taken(s.mem, p)) == [p.id]
  {
    hide Current;
    NonePending(s.mem);
    WithoutRoleKeeps(s.mem, p.role);
    AllDone(WithoutRole(s.mem, p.role), Verdict(p.id, p.role, p.report, false));
  }

  lemma {:induction false} AllDone(vs: seq<Verdict>, last: Verdict)
    requires (forall v <- vs :: v.announced) && !last.announced
    ensures Pending(vs + [last]) == [last.id]
    decreases |vs|
  {
    if vs == [] {
      assert [last][1..] == [];
    } else {
      assert vs[0] in vs && forall v <- vs[1..] :: v in vs;
      AllDone(vs[1..], last);
      assert (vs + [last])[1..] == vs[1..] + [last];
    }
  }

  lemma QueueOfSettling(s: Sys, task: string, step: Step)
    requires Inv(s) && s.todo == [] && Records(s, task, step)
    ensures Next(s, task, step) ==
      s.(mem := Taken(s.mem, s.packet.value),
         todo := (if s.attached then [Announce(s.packet.value.id)] else []) + [Flush, Consume])
  {
    hide Pending, Judged, Taken, Current;
    if s.attached {
      NothingElseIsPending(s, s.packet.value);
      assert Announcements([s.packet.value.id]) == [Announce(s.packet.value.id)];
    } else {
      assert [] + [Flush, Consume] == [Flush, Consume];
    }
  }

  /** What every moment of a recording looks like. */
  ghost predicate MomentIs(s: Sys, t: Sys, r: Report, oks: seq<bool>, i: nat) {
    && (t.rows == s.rows || (t.rows == s.rows + [r.id] && s.attached && i > 0 && oks != [] && oks[0]))
    && (t.disk == s.disk || Holds(t.disk, r))
    && Holds(t.mem, r)
  }

  /** The next operation of the queue `q` of a recording. */
  lemma OneMoment(s: Sys, task: string, r: Report, q: seq<Op>, oks: seq<bool>, i: nat, t: Sys, u: Sys)
    requires q == (if s.attached then [Announce(r.id)] else []) + [Flush, Consume] && 0 < i <= |oks| == |q|
    requires MomentIs(s, t, r, oks, i - 1) && t.todo == q[i - 1..] && u == Next(t, task, Does(oks[i - 1]))
    requires i == 1 ==> t.disk == s.disk
    ensures MomentIs(s, u, r, oks, i) && u.todo == q[i..]
    ensures i == 1 && s.attached ==> u.disk == s.disk && (oks[0] ==> u.rows == s.rows + [r.id])
  {
    hide Marked, Holds;
    assert t.todo[0] == q[i - 1] && t.todo[1..] == q[i..];
    MarkedHolds(t.mem, r.id, r);
  }

  lemma {:induction false} EveryMoment(s: Sys, task: string, step: Step, oks: seq<bool>, i: nat)
    requires Inv(s) && s.todo == [] && Records(s, task, step)
    requires i <= |oks| == |Next(s, task, step).todo|
    ensures var t := Moment(s, task, step, oks, i);
      && MomentIs(s, t, ReportOf(s.packet.value), oks, i)
      && t.todo == Next(s, task, step).todo[i..]
      && (i == 0 ==> t.disk == s.disk)
      && (i == 1 && s.attached ==> t.disk == s.disk && (oks[0] ==> t.rows == s.rows + [s.packet.value.id]))
  {
    hide Pending, Judged, Taken, Current, Marked, Holds, Inv, Next;
    QueueOfSettling(s, task, step);
    var r := ReportOf(s.packet.value);
    TakenHolds(s.mem, s.packet.value, r);
    if i > 0 {
      EveryMoment(s, task, step, oks, i - 1);
      OneMoment(s, task, r, Next(s, task, step).todo, oks, i, Moment(s, task, step, oks, i - 1), Moment(s, task, step, oks, i));
    }
  }

  /** Recording a packet passes through a moment with its row out and no record on disk if and only if a
      catalog is attached, the journal takes the row, and no earlier record of the same report is there. */
  lemma RowBeforeRecordIff(s: Sys, task: string, step: Step, oks: seq<bool>)
    requires Inv(s) && s.todo == [] && Records(s, task, step) && |oks| == |Next(s, task, step).todo|
    ensures oks != []
    ensures var r := ReportOf(s.packet.value);
      (exists i :: 0 <= i <= |oks| && RowIsAhead(s, Moment(s, task, step, oks, i), r)) <==>
      s.attached && oks[0] && !Holds(s.disk, r)
  {
    hide Pending, Judged, Taken, Current, Marked, Holds, Inv, Next, Moment;
    QueueOfSettling(s, task, step);
    var r := ReportOf(s.packet.value);
    forall i | 0 <= i <= |oks| ensures RowIsAhead(s, Moment(s, task, step, oks, i), r) ==> s.attached && oks[0] && !Holds(s.disk, r) {
      EveryMoment(s, task, step, oks, i);
    }
    if s.attached && oks[0] && !Holds(s.disk, r) {
      EveryMoment(s, task, step, oks, 1);
      assert RowIsAhead(s, Moment(s, task, step, oks, 1), r);
    }
  }
}
