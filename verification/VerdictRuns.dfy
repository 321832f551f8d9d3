/** Verdict publication over whole runs. A settling step and an attaching catalog queue the durable
    operations they are about to perform; the process may die between any two of them. */
module VerdictRuns {
  import opened Options
  import opened VerdictLedger

  /** `Announce` appends one journal row and marks the verdict in memory. */
  datatype Op = Announce(id: string) | Flush | Consume

  datatype Sys = Sys(
    mem: seq<Verdict>, disk: seq<Verdict>, rows: seq<string>, attached: bool, packet: Option<Packet>, todo: seq<Op>)

  datatype Step =
    | Offers(packet: Packet)
    | Settles(step: string, declared: Option<string>)
    /** Any other store write on the run. */
    | Touches
    | Attaches
    /** The first queued operation; `ok` when the file it writes takes it. */
    | Does(ok: bool)
    /** The debounced save of the index. */
    | Saves
    | Dies

  const INIT := Sys([], [], [], false, None, [])

  function Announcements(ids: seq<string>): seq<Op> {
    seq(|ids|, i requires 0 <= i < |ids| => Announce(ids[i]))
  }

  /** What a store write queues: the announcements of whatever is pending, when somebody listens. */
  function Queued(attached: bool, vs: seq<Verdict>): seq<Op> {
    if attached then Announcements(Pending(vs)) else []
  }

  ghost function Next(s: Sys, task: string, step: Step): Sys {
    match step
    case Offers(p) => s.(packet := Some(p))
    case Settles(name, declared) =>
      if s.packet.None? then s
      else
        (match Judged(s.mem, s.packet.value, task, name, declared)
         case Unchanged => s.(todo := [Consume])
         case Refused(_) => s.(todo := Queued(s.attached, s.mem) + [Flush, Consume])
         case Recorded =>
           var vs := Taken(s.mem, s.packet.value);
           s.(mem := vs, todo := Queued(s.attached, vs) + [Flush, Consume]))
    case Touches => s.(todo := Queued(s.attached, s.mem))
    case Attaches => s.(attached := true, todo := Queued(true, s.mem))
    case Does(ok) =>
      if s.todo == [] then s
      else
        var rest := s.(todo := s.todo[1..]);
        (match s.todo[0]
         case Announce(id) => rest.(rows := if ok then s.rows + [id] else s.rows, mem := Marked(s.mem, id))
         case Flush => if ok then rest.(disk := s.mem) else rest
         case Consume => if ok then rest.(packet := None) else rest)
    case Saves => s.(disk := s.mem)
    case Dies => s.(mem := s.disk, attached := false, todo := [])
  }

  /** One stretch of synchronous code runs to its end; only a crash cuts it short. */
  predicate Can(s: Sys, step: Step) {
    match step
    case Does(_) => s.todo != []
    case Dies => true
    case _ => s.todo == []
  }

  ghost function Run(s: Sys, task: string, steps: seq<Step>): Sys
    decreases |steps|
  {
    if steps == [] then s else Run(Next(s, task, steps[0]), task, steps[1..])
  }

  ghost predicate CanAll(s: Sys, task: string, steps: seq<Step>)
    decreases |steps|
  {
    steps == [] || (Can(s, steps[0]) && CanAll(Next(s, task, steps[0]), task, steps[1..]))
  }

  // ---- the invariant --------------------------------------------------------------------------------

  /** Whatever is queued to be announced is exactly what is pending, in order. */
  ghost predicate QueueInv(s: Sys) {
    s.attached ==>
      && |Pending(s.mem)| <= |s.todo|
      && s.todo[..|Pending(s.mem)|] == Announcements(Pending(s.mem))
      && forall op <- s.todo[|Pending(s.mem)|..] :: !op.Announce?
  }

  ghost predicate Inv(s: Sys) {
    && Current(s.mem) && Current(s.disk) && QueueInv(s)
    && (!s.attached ==> forall op <- s.todo :: !op.Announce?)
  }

  lemma NextKeepsInv(s: Sys, task: string, step: Step)
    requires Inv(s) && Can(s, step)
    ensures Inv(Next(s, task, step))
  {
    hide Pending, Marked;
    match step
    case Settles(name, declared) =>
      if s.packet.Some? && Judged(s.mem, s.packet.value, task, name, declared).Recorded? {
        TakingInKeepsOnePerRole(s.mem, s.packet.value, task, name, declared);
      }
      hide Current, Taken, Judged;
    case Does(_) => DoingKeepsInv(s, task, step);
    case _ => hide Current;
  }

  lemma DoingKeepsInv(s: Sys, task: string, step: Step)
    requires Inv(s) && step.Does? && s.todo != []
    ensures Inv(Next(s, task, step))
  {
    hide Pending, Current, Marked;
    if s.todo[0].Announce? {
      FirstQueued(s);
      var n := PlaceOfFirst(s.mem);
      MarkingTheFirst(s.mem, n);
      var after := Marked(s.mem, s.mem[n].id);
      assert s.todo[1..][..|Pending(after)|] == Announcements(Pending(after));
      assert s.todo[1..][|Pending(after)|..] == s.todo[|Pending(s.mem)|..];
    } else if s.attached {
      assert Pending(s.mem) == [];
      assert s.todo[1..][0..] == s.todo[1..];
    }
  }

  lemma FirstQueued(s: Sys)
    requires Inv(s) && s.todo != [] && s.todo[0].Announce?
    ensures s.attached && Pending(s.mem) != [] && s.todo[0] == Announce(Pending(s.mem)[0])
  {
    hide Pending, Current;
    assert s.todo[0] in s.todo;
    if s.attached {
      var k := |Pending(s.mem)|;
      assert s.todo == s.todo[..k] + s.todo[k..];
    }
  }

  /** Where the first pending verdict stands. */
  ghost function PlaceOfFirst(vs: seq<Verdict>): (n: nat)
    requires Pending(vs) != []
    ensures FirstAt(vs, n)
  {
    if !vs[0].announced then 0
    else
      var m := PlaceOfFirst(vs[1..]);
      assert forall i :: 0 < i < m + 1 ==> vs[i] == vs[1..][i - 1];
      m + 1
  }

  lemma {:induction false} RunKeepsInv(s: Sys, task: string, steps: seq<Step>)
    requires Inv(s) && CanAll(s, task, steps)
    ensures Inv(Run(s, task, steps))
    decreases |steps|
  {
    hide Inv, Next, Can;
    if steps != [] {
      NextKeepsInv(s, task, steps[0]);
      RunKeepsInv(Next(s, task, steps[0]), task, steps[1..]);
    }
  }

  /** The record says already what the packet reports. */
  ghost predicate IsOnRecord(vs: seq<Verdict>, p: Packet) {
    exists v :: v in vs && v.id == p.id && v.role == p.role && v.report == p.report
  }

  /** What a settling step leaves to be done: a repeat only has its packet removed; everything else is also
      announced, if somebody listens, and flushed before, and only a recorded packet changes the record. */
  lemma SettlingLeaves(s: Sys, task: string, step: Step)
    requires Inv(s) && step.Settles? && s.packet.Some? && s.todo == []
    ensures var t := Next(s, task, step);
      var p := s.packet.value;
      && t == s.(mem := t.mem, todo := t.todo)
      && (MayReport(p, task, step.step, step.declared) && IsOnRecord(s.mem, p) ==>
            t.todo == [Consume] && t.mem == s.mem)
      && (!(MayReport(p, task, step.step, step.declared) && IsOnRecord(s.mem, p)) ==>
            t.todo == Queued(s.attached, t.mem) + [Flush, Consume])
      && (MayReport(p, task, step.step, step.declared) && (forall v <- s.mem :: v.id != p.id) ==>
            forall v :: v in t.mem <==> (v in s.mem && v.role != p.role) || v == Verdict(p.id, p.role, p.report, false))
      && (!(MayReport(p, task, step.step, step.declared) && forall v <- s.mem :: v.id != p.id) ==> t.mem == s.mem)
  {
    hide Queued, Judged, Taken;
    var p := s.packet.value;
    JudgedMeans(s.mem, p, task, step.step, step.declared);
    TakenIs(s.mem, p);
  }

  lemma TakenIs(vs: seq<Verdict>, p: Packet)
    ensures forall v :: v in Taken(vs, p) <==> (v in vs && v.role != p.role) || v == Verdict(p.id, p.role, p.report, false)
  {
    WithoutRoleKeeps(vs, p.role);
    var last := Verdict(p.id, p.role, p.report, false);
    assert Taken(vs, p)[|WithoutRole(vs, p.role)|] == last;
  }

  /** And what each of those does: an announcement that the journal takes adds its row and is marked either
      way, a flush writes the record as it is, a removal takes the packet; refused, the last two do nothing. */
  lemma DoingLeaves(s: Sys, task: string, ok: bool)
    requires s.todo != []
    ensures var t := Next(s, task, Does(ok));
      && t.todo == s.todo[1..] && t.attached == s.attached
      && (match s.todo[0]
          case Announce(id) =>
            && t.rows == (if ok then s.rows + [id] else s.rows) && t.disk == s.disk && t.packet == s.packet
            && |t.mem| == |s.mem|
            && forall i :: 0 <= i < |s.mem| ==> t.mem[i] == s.mem[i].(announced := s.mem[i].announced || s.mem[i].id == id)
          case Flush => t.disk == (if ok then s.mem else s.disk) && t.mem == s.mem && t.rows == s.rows && t.packet == s.packet
          case Consume => t.packet == (if ok then None else s.packet) && t.mem == s.mem && t.rows == s.rows && t.disk == s.disk)
  {}

  /** A crash leaves the record on disk, the rows and the packet; whoever listened has to attach again. */
  lemma DyingLeaves(s: Sys, task: string)
    ensures var t := Next(s, task, Dies);
      t.mem == s.disk && t.disk == s.disk && t.rows == s.rows && t.packet == s.packet && !t.attached && t.todo == []
    ensures Next(s, task, Saves) == s.(disk := s.mem)
    ensures Next(s, task, Attaches) == s.(attached := true, todo := Announcements(Pending(s.mem)))
  {}

  // ---- at most one row ------------------------------------------------------------------------------

  /** No id has two rows, and what is still to be announced has none. */
  ghost predicate OneRow(s: Sys) {
    && (forall i, j :: 0 <= i < j < |s.rows| ==> s.rows[i] != s.rows[j])
    && forall v <- s.mem :: v.announced || v.id !in s.rows
  }

  /** What must hold before a step for a second row to stay impossible. A crash must not find a verdict
      that is still pending on disk although its row is out, and a packet that is recorded must not
      carry an id that already has a row. */
  ghost predicate NoSecondRow(s: Sys, task: string, step: Step) {
    match step
    case Dies => forall v <- s.disk :: v.announced || v.id !in s.rows
    case Settles(name, declared) =>
      s.packet.Some? && Judged(s.mem, s.packet.value, task, name, declared).Recorded? ==> s.packet.value.id !in s.rows
    case _ => true
  }

  lemma OneRowIff(s: Sys, task: string, step: Step)
    requires Inv(s) && Can(s, step) && OneRow(s)
    ensures OneRow(Next(s, task, step)) <==> NoSecondRow(s, task, step)
  {
    hide Pending, Current, QueueInv;
    match step
    case Settles(name, declared) =>
      if s.packet.Some? && Judged(s.mem, s.packet.value, task, name, declared).Recorded? {
        RecordingLeavesPending(s, s.packet.value);
      }
      hide Judged, Taken;
    case Does(_) =>
      if s.todo[0].Announce? { AnnouncingIsOnce(s, task, step); }
    case _ =>
  }

  lemma RecordingLeavesPending(s: Sys, p: Packet)
    requires OneRow(s)
    ensures (forall v <- Taken(s.mem, p) :: v.announced || v.id !in s.rows) <==> p.id !in s.rows
  {
    WithoutRoleKeeps(s.mem, p.role);
    assert Taken(s.mem, p)[|WithoutRole(s.mem, p.role)|] in Taken(s.mem, p);
  }

  lemma AnnouncingIsOnce(s: Sys, task: string, step: Step)
    requires Inv(s) && OneRow(s) && step.Does? && s.todo != [] && s.todo[0].Announce?
    ensures OneRow(Next(s, task, step))
  {
    hide Pending, QueueInv;
    FirstQueued(s);
    var n := PlaceOfFirst(s.mem);
    MarkingTheFirst(s.mem, n);
    var id := s.mem[n].id;
    assert s.mem[n] in s.mem;
    forall v | v in Marked(s.mem, id) ensures v.announced || (v.id !in s.rows && v.id != id) {
      var i :| 0 <= i < |s.mem| && Marked(s.mem, id)[i] == v;
      assert s.mem[i] in s.mem;
    }
  }

  // ---- at least one row -----------------------------------------------------------------------------

  /** Whatever is marked announced has its row. */
  ghost predicate Honest(s: Sys) {
    && (forall v <- s.mem :: v.announced ==> v.id in s.rows)
    && (forall v <- s.disk :: v.announced ==> v.id in s.rows)
  }

  ghost predicate JournalTakes(s: Sys, step: Step) {
    step == Does(false) && s.todo != [] && s.todo[0].Announce? ==> s.todo[0].id in s.rows
  }

  /** The mark follows the append whether or not the append reached the disk. */
  lemma HonestIff(s: Sys, task: string, step: Step)
    requires Inv(s) && Can(s, step) && Honest(s)
    ensures Honest(Next(s, task, step)) <==> JournalTakes(s, step)
  {
    hide Pending, Current, QueueInv;
    match step
    case Settles(name, declared) =>
      if s.packet.Some? { WithoutRoleKeeps(s.mem, s.packet.value.role); }
      hide Judged;
    case Does(_) =>
      if s.todo[0].Announce? { AnnouncingMarks(s, task, step); }
    case _ =>
  }

  lemma AnnouncingMarks(s: Sys, task: string, step: Step)
    requires Inv(s) && Honest(s) && step.Does? && s.todo != [] && s.todo[0].Announce?
    ensures Honest(Next(s, task, step)) <==> step.ok || s.todo[0].id in s.rows
  {
    hide Pending, QueueInv;
    FirstQueued(s);
    var n := PlaceOfFirst(s.mem);
    MarkingTheFirst(s.mem, n);
    var id := s.mem[n].id;
    var after := Marked(s.mem, id);
    assert after[n] in after && after[n].announced && after[n].id == id;
    forall v | v in after ensures v.id == id || v in s.mem {
      var i :| 0 <= i < |after| && after[i] == v;
    }
  }

  /** The journal takes every announcement; flushes and removals may fail. */
  ghost predicate RowsAreTaken(s: Sys, task: string, steps: seq<Step>)
    decreases |steps|
  {
    steps == [] || (JournalTakes(s, steps[0]) && RowsAreTaken(Next(s, task, steps[0]), task, steps[1..]))
  }

  lemma {:induction false} StaysHonest(s: Sys, task: string, steps: seq<Step>)
    requires Inv(s) && CanAll(s, task, steps) && Honest(s) && RowsAreTaken(s, task, steps)
    ensures Honest(Run(s, task, steps)) && Inv(Run(s, task, steps))
    decreases |steps|
  {
    hide Inv, Next, Can, Honest, JournalTakes;
    if steps != [] {
      NextKeepsInv(s, task, steps[0]);
      HonestIff(s, task, steps[0]);
      StaysHonest(Next(s, task, steps[0]), task, steps[1..]);
    }
  }

  /** While the journal takes its rows, every verdict in memory has its row once an attached catalog has
      nothing left to do, whatever flush or removal failed. */
  lemma NeverZeroOnceRecovered(task: string, steps: seq<Step>)
    requires CanAll(INIT, task, steps) && RowsAreTaken(INIT, task, steps)
    ensures var s := Run(INIT, task, steps);
      s.attached && s.todo == [] ==> forall v <- s.mem :: v.announced && v.id in s.rows
  {
    hide Run, CanAll, RowsAreTaken;
    StaysHonest(INIT, task, steps);
    var s := Run(INIT, task, steps);
    NonePending(s.mem);
  }

  // ---- the record and the row -----------------------------------------------------------------------

  /** The two durable writes come in the other order when somebody listens: a store write announces at
      once, and the index is flushed only then. After a crash in between the journal names a verdict no
      record holds, and the packet, still there, is recorded and announced again. */
  lemma RowBeforeRecord(task: string, step: string, p: Packet)
    requires p.matchesSchema && p.taskId == task && p.stepId == step
    ensures var steps := [Attaches, Offers(p), Settles(step, Some(p.role)), Does(true)];
      var s := Run(INIT, task, steps);
      && CanAll(INIT, task, steps) && s.rows == [p.id] && s.disk == []
      && var again := [Dies, Attaches, Settles(step, Some(p.role)), Does(true), Does(true), Does(true)];
         var t := Run(s, task, again);
         CanAll(s, task, again) && t.rows == [p.id, p.id] && t.disk == t.mem && t.packet == None
  {
    var v := Verdict(p.id, p.role, p.report, false);
    var s1 := INIT.(attached := true);
    assert Next(INIT, task, Attaches) == s1;
    var s2 := s1.(packet := Some(p));
    Recording(s2, task, step, p);
    var s3 := s2.(mem := [v], todo := [Announce(p.id), Flush, Consume]);
    var s4 := s3.(mem := [v.(announced := true)], rows := [p.id], todo := [Flush, Consume]);
    assert Marked([v], p.id) == [v.(announced := true)];
    Steps4(INIT, task, Attaches, Offers(p), Settles(step, Some(p.role)), Does(true));
    assert Run(INIT, task, [Attaches, Offers(p), Settles(step, Some(p.role)), Does(true)]) == s4;
    var t1 := s4.(mem := [], attached := false, todo := []);
    var t2 := t1.(attached := true);
    assert Next(t1, task, Attaches) == t2;
    Recording(t2, task, step, p);
    var t3 := t2.(mem := [v], todo := [Announce(p.id), Flush, Consume]);
    var t4 := t3.(mem := [v.(announced := true)], rows := [p.id, p.id], todo := [Flush, Consume]);
    assert t3.todo[1..] == [Flush, Consume] && t4.todo[1..] == [Consume] && [Consume][1..] == [];
    assert Next(t3, task, Does(true)) == t4;
    var t5 := t4.(disk := t4.mem, todo := [Consume]);
    var t6 := t5.(packet := None, todo := []);
    Steps4(s4, task, Dies, Attaches, Settles(step, Some(p.role)), Does(true));
    Steps2(t4, task, Does(true), Does(true));
    InTwo(s4, task, [Dies, Attaches, Settles(step, Some(p.role)), Does(true)], [Does(true), Does(true)]);
    assert [Dies, Attaches, Settles(step, Some(p.role)), Does(true), Does(true), Does(true)]
      == [Dies, Attaches, Settles(step, Some(p.role)), Does(true)] + [Does(true), Does(true)];
  }

  lemma Recording(s: Sys, task: string, step: string, p: Packet)
    requires p.matchesSchema && p.taskId == task && p.stepId == step
    requires s.mem == [] && s.packet == Some(p) && s.attached
    ensures var v := Verdict(p.id, p.role, p.report, false);
      Next(s, task, Settles(step, Some(p.role))) == s.(mem := [v], todo := [Announce(p.id), Flush, Consume])
  {
    var v := Verdict(p.id, p.role, p.report, false);
    assert Taken([], p) == [v];
    assert [v][1..] == [] && Pending([v]) == [p.id];
    assert Announcements([p.id]) == [Announce(p.id)];
  }

  lemma Steps2(s: Sys, task: string, a: Step, b: Step)
    ensures Run(s, task, [a, b]) == Next(Next(s, task, a), task, b)
    ensures CanAll(s, task, [a, b]) <==> Can(s, a) && Can(Next(s, task, a), b)
  {
    hide Next, Can;
    assert [a, b][1..] == [b] && [b][1..] == [];
    var t := Next(s, task, a);
    assert Run(t, task, [b]) == Next(t, task, b) && (CanAll(t, task, [b]) <==> Can(t, b));
  }

  lemma Steps4(s: Sys, task: string, a: Step, b: Step, c: Step, d: Step)
    ensures Run(s, task, [a, b, c, d]) == Next(Next(Next(Next(s, task, a), task, b), task, c), task, d)
    ensures CanAll(s, task, [a, b, c, d]) <==>
      && Can(s, a) && Can(Next(s, task, a), b) && Can(Next(Next(s, task, a), task, b), c)
      && Can(Next(Next(Next(s, task, a), task, b), task, c), d)
  {
    hide Next, Can;
    Steps2(s, task, a, b);
    Steps2(Next(Next(s, task, a), task, b), task, c, d);
    InTwo(s, task, [a, b], [c, d]);
    assert [a, b, c, d] == [a, b] + [c, d];
  }

  lemma {:induction false} InTwo(s: Sys, task: string, a: seq<Step>, b: seq<Step>)
    ensures Run(s, task, a + b) == Run(Run(s, task, a), task, b)
    ensures CanAll(s, task, a + b) <==> CanAll(s, task, a) && CanAll(Run(s, task, a), task, b)
    decreases |a|
  {
    hide Next, Can;
    if a == [] {
      assert a + b == b;
    } else {
      assert (a + b)[1..] == a[1..] + b;
      InTwo(Next(s, task, a[0]), task, a[1..], b);
    }
  }
}
