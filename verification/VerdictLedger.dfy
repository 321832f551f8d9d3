/** Reviewer verdicts on one run: one current packet per role, recorded first and announced second. */
module VerdictLedger {
  import opened Options

  /** `report` stands for everything the packet says beside its id and role. */
  datatype Verdict = Verdict(id: string, role: string, report: nat, announced: bool)

  datatype Packet = Packet(matchesSchema: bool, taskId: string, stepId: string, id: string, role: string, report: nat)

  datatype Refusal = NotASchemaMatch | OtherTask | OtherStep | NoRoleDeclared | OtherRole | IdCarriesAnotherReport

  datatype Ingestion = Recorded | Unchanged | Refused(why: Refusal)

  function Find(vs: seq<Verdict>, id: string): Option<Verdict> {
    if vs == [] then None else if vs[0].id == id then Some(vs[0]) else Find(vs[1..], id)
  }

  function WithoutRole(vs: seq<Verdict>, role: string): seq<Verdict> {
    if vs == [] then [] else (if vs[0].role == role then [] else [vs[0]]) + WithoutRole(vs[1..], role)
  }

  function Judged(vs: seq<Verdict>, p: Packet, task: string, step: string, declared: Option<string>): Ingestion {
    if !p.matchesSchema then Refused(NotASchemaMatch)
    else if p.taskId != task then Refused(OtherTask)
    else if p.stepId != step then Refused(OtherStep)
    else if declared.None? then Refused(NoRoleDeclared)
    else if p.role != declared.value then Refused(OtherRole)
    else
      match Find(vs, p.id)
      case Some(v) => if v.role == p.role && v.report == p.report then Unchanged else Refused(IdCarriesAnotherReport)
      case None => Recorded
  }

  /** The verdicts after a packet was taken in: its role's earlier packet goes, every other stays. */
  function Taken(vs: seq<Verdict>, p: Packet): seq<Verdict> {
    WithoutRole(vs, p.role) + [Verdict(p.id, p.role, p.report, false)]
  }

  // ---- one current packet per role ------------------------------------------------------------------

  ghost predicate Current(vs: seq<Verdict>) {
    forall i, j :: 0 <= i < j < |vs| ==> vs[i].role != vs[j].role && vs[i].id != vs[j].id
  }

  lemma WithoutRoleKeeps(vs: seq<Verdict>, role: string)
    ensures forall v :: v in WithoutRole(vs, role) <==> v in vs && v.role != role
    ensures Current(vs) ==> Current(WithoutRole(vs, role))
  {
    WithoutRoleHolds(vs, role);
    if Current(vs) { WithoutRoleIsCurrent(vs, role); }
  }

  lemma {:induction false} WithoutRoleHolds(vs: seq<Verdict>, role: string)
    ensures forall v :: v in WithoutRole(vs, role) <==> v in vs && v.role != role
    decreases |vs|
  {
    if vs != [] {
      WithoutRoleHolds(vs[1..], role);
      assert vs == [vs[0]] + vs[1..];
    }
  }

  lemma {:induction false} WithoutRoleIsCurrent(vs: seq<Verdict>, role: string)
    requires Current(vs)
    ensures Current(WithoutRole(vs, role))
    decreases |vs|
  {
    if vs != [] {
      var rest := WithoutRole(vs[1..], role);
      WithoutRoleIsCurrent(vs[1..], role);
      WithoutRoleHolds(vs[1..], role);
      forall v | v in rest ensures v.role != vs[0].role && v.id != vs[0].id {
        var i :| 0 < i < |vs| && vs[i] == v;
      }
    }
  }

  lemma {:induction false} FindMeans(vs: seq<Verdict>, id: string)
    ensures Find(vs, id).None? <==> forall v <- vs :: v.id != id
    ensures Find(vs, id).Some? ==> Find(vs, id).value in vs && Find(vs, id).value.id == id
    decreases |vs|
  {
    if vs != [] {
      FindMeans(vs[1..], id);
      assert vs == [vs[0]] + vs[1..];
    }
  }

  /** A packet gets past the checks of who reports on what: its form, the task, the step that settled and the
      role this step declares. */
  ghost predicate MayReport(p: Packet, task: string, step: string, declared: Option<string>) {
    p.matchesSchema && p.taskId == task && p.stepId == step && declared == Some(p.role)
  }

  /** What is made of a packet, and exactly when: each refusal is given for the first check that fails, a
      packet that passes them is new when no current verdict has its id, and a repeat when the one that
      has it says the same. */
  ghost predicate IsJudgement(j: Ingestion, vs: seq<Verdict>, p: Packet, task: string, step: string, declared: Option<string>) {
    && (j == Refused(NotASchemaMatch) <==> !p.matchesSchema)
    && (j == Refused(OtherTask) <==> p.matchesSchema && p.taskId != task)
    && (j == Refused(OtherStep) <==> p.matchesSchema && p.taskId == task && p.stepId != step)
    && (j == Refused(NoRoleDeclared) <==> p.matchesSchema && p.taskId == task && p.stepId == step && declared == None)
    && (j == Refused(OtherRole) <==>
          p.matchesSchema && p.taskId == task && p.stepId == step && declared != None && declared != Some(p.role))
    && (j == Recorded <==> MayReport(p, task, step, declared) && forall v <- vs :: v.id != p.id)
    && (j == Unchanged <==>
          MayReport(p, task, step, declared) && exists v :: v in vs && v.id == p.id && v.role == p.role && v.report == p.report)
    && (j == Refused(IdCarriesAnotherReport) <==>
          MayReport(p, task, step, declared) && exists v :: v in vs && v.id == p.id && (v.role != p.role || v.report != p.report))
  }

  lemma JudgedMeans(vs: seq<Verdict>, p: Packet, task: string, step: string, declared: Option<string>)
    requires Current(vs)
    ensures IsJudgement(Judged(vs, p, task, step, declared), vs, p, task, step, declared)
  {
    FindMeans(vs, p.id);
    if Find(vs, p.id).Some? { OneHolder(vs, Find(vs, p.id).value); }
  }

  lemma OneHolder(vs: seq<Verdict>, v: Verdict)
    requires Current(vs) && v in vs
    ensures forall w <- vs :: w.id == v.id ==> w == v
  {
    var i :| 0 <= i < |vs| && vs[i] == v;
    forall w | w in vs && w.id == v.id ensures w == v {
      var k :| 0 <= k < |vs| && vs[k] == w;
    }
  }

  /** Recording keeps one packet per role and per id, replaces exactly the reporting role's, and leaves
      every other role's as it was; everything else that can happen to a packet changes nothing. */
  lemma TakingInKeepsOnePerRole(vs: seq<Verdict>, p: Packet, task: string, step: string, declared: Option<string>)
    requires Current(vs) && Judged(vs, p, task, step, declared).Recorded?
    ensures var after := Taken(vs, p);
      && Current(after)
      && (forall v: Verdict :: v.role != p.role ==> (v in after <==> v in vs))
      && (forall v <- after :: v.role == p.role ==> v == Verdict(p.id, p.role, p.report, false))
  {
    WithoutRoleKeeps(vs, p.role);
    FindMeans(vs, p.id);
  }

  /** Reporting again what is on the record changes nothing; reporting something else under its id is
      refused, whatever its role. */
  lemma SameIdAgain(vs: seq<Verdict>, p: Packet, task: string, step: string, v: Verdict)
    requires Current(vs) && v in vs && p.id == v.id && p.matchesSchema && p.taskId == task && p.stepId == step
    ensures Judged(vs, p, task, step, Some(p.role))
      == if p.role == v.role && p.report == v.report then Unchanged else Refused(IdCarriesAnotherReport)
  {
    FindMeans(vs, p.id);
    var found := Find(vs, p.id).value;
    var i :| 0 <= i < |vs| && vs[i] == found;
    var j :| 0 <= j < |vs| && vs[j] == v;
  }

  /** Only while it is current: an id nobody holds now is recorded, whatever was reported under it before. */
  lemma ReplacedIdComesBack(vs: seq<Verdict>, p: Packet, task: string, step: string)
    requires forall v <- vs :: v.id != p.id
    requires p.matchesSchema && p.taskId == task && p.stepId == step
    ensures Judged(vs, p, task, step, Some(p.role)).Recorded?
  {
    FindMeans(vs, p.id);
  }

  /** And recording a packet for a role takes the id of the role's earlier packet out of use. */
  lemma ReplacedIdIsFree(vs: seq<Verdict>, p: Packet, before: Verdict)
    requires Current(vs) && before in vs && before.role == p.role && before.id != p.id
    ensures forall v <- Taken(vs, p) :: v.id != before.id
  {
    WithoutRoleKeeps(vs, p.role);
    forall v | v in Taken(vs, p) ensures v.id != before.id {
      if v in vs && v.role != p.role {
        var i :| 0 <= i < |vs| && vs[i] == v;
        var k :| 0 <= k < |vs| && vs[k] == before;
        assert i < k || k < i;
      }
    }
  }

  // ---- announcing -----------------------------------------------------------------------------------

  function Pending(vs: seq<Verdict>): seq<string> {
    if vs == [] then [] else (if vs[0].announced then [] else [vs[0].id]) + Pending(vs[1..])
  }

  function AllAnnounced(vs: seq<Verdict>): seq<Verdict> {
    seq(|vs|, i requires 0 <= i < |vs| => vs[i].(announced := true))
  }

  /** The rows that reach the journal, for the ids whose append it takes. */
  function RowsFor(ids: seq<string>, takes: set<string>): seq<string> {
    if ids == [] then [] else (if ids[0] in takes then [ids[0]] else []) + RowsFor(ids[1..], takes)
  }

  function Marked(vs: seq<Verdict>, id: string): seq<Verdict> {
    seq(|vs|, i requires 0 <= i < |vs| => if vs[i].id == id then vs[i].(announced := true) else vs[i])
  }

  lemma {:induction false} FirstPending(vs: seq<Verdict>, n: nat)
    requires n < |vs| && !vs[n].announced && forall i :: 0 <= i < n ==> vs[i].announced
    ensures Pending(vs) == [vs[n].id] + Pending(vs[n + 1..])
    decreases n
  {
    if n > 0 {
      FirstPending(vs[1..], n - 1);
      assert vs[1..][n..] == vs[n + 1..];
    }
  }

  lemma {:induction false} NonePending(vs: seq<Verdict>)
    ensures Pending(vs) == [] <==> forall v <- vs :: v.announced
    decreases |vs|
  {
    if vs != [] {
      NonePending(vs[1..]);
      assert vs == [vs[0]] + vs[1..];
    }
  }

  lemma {:induction false} PendingAfterDone(vs: seq<Verdict>, n: nat)
    requires n <= |vs| && forall i :: 0 <= i < n ==> vs[i].announced
    ensures Pending(vs) == Pending(vs[n..])
    decreases n
  {
    if n > 0 {
      PendingAfterDone(vs[1..], n - 1);
      assert vs[1..][n - 1..] == vs[n..];
    }
  }

  ghost predicate FirstAt(vs: seq<Verdict>, n: nat) {
    n < |vs| && !vs[n].announced && forall i :: 0 <= i < n ==> vs[i].announced
  }

  lemma MarkedAt(vs: seq<Verdict>, n: nat)
    requires Current(vs) && n < |vs|
    ensures Marked(vs, vs[n].id) == vs[n := vs[n].(announced := true)]
    ensures Current(Marked(vs, vs[n].id))
  {
    forall i | 0 <= i < |vs| && i != n ensures vs[i].id != vs[n].id {}
  }

  /** Marking the first pending verdict leaves exactly the others pending. */
  lemma MarkingTheFirst(vs: seq<Verdict>, n: nat)
    requires Current(vs) && FirstAt(vs, n)
    ensures var after := Marked(vs, vs[n].id);
      && Current(after) && Pending(vs) == [vs[n].id] + Pending(after)
      && AllAnnounced(after) == AllAnnounced(vs)
  {
    hide Current, Marked, Pending;
    var after := Marked(vs, vs[n].id);
    MarkedAt(vs, n);
    FirstPending(vs, n);
    PendingAfterDone(after, n + 1);
    assert after[n + 1..] == vs[n + 1..];
  }

  lemma OneMoreRow(id: string, rest: seq<string>, takes: set<string>)
    ensures RowsFor([id] + rest, takes) == (if id in takes then [id] else []) + RowsFor(rest, takes)
  {
    assert ([id] + rest)[1..] == rest;
  }

  class Ledger {
    const runId: string
    var verdicts: seq<Verdict>
    /** The ids of the announcement rows in the event journal. */
    var rows: seq<string>
    /** The verdicts in the index file. */
    var onDisk: seq<Verdict>
    /** Whether the event catalog listens to the store. */
    var attached: bool
    var packet: Option<Packet>

    /** A store write: in memory at once, announced to the listeners at once, on disk later. */
    method Update(vs: seq<Verdict>, takes: set<string>)
      requires Current(vs)
      modifies this`verdicts, this`rows
      ensures if attached then verdicts == AllAnnounced(vs) && rows == old(rows) + RowsFor(Pending(vs), takes)
              else verdicts == vs && rows == old(rows)
      decreases |Pending(vs)|, 2
    {
      verdicts := vs;
      if attached { Announce(takes); }
    }

    /** One row per pending verdict, each followed by its mark. The mark is a store write, so it comes
        back here before it returns; the record is read again on every pass. */
    method Announce(takes: set<string>)
      requires attached && Current(verdicts)
      modifies this`verdicts, this`rows
      ensures verdicts == AllAnnounced(old(verdicts)) && rows == old(rows) + RowsFor(Pending(old(verdicts)), takes)
      decreases |Pending(verdicts)|, 1
    {
      hide Pending, AllAnnounced, Marked, Current, RowsFor;
      ghost var v0, r0 := verdicts, rows;
      NoneLeft(v0);
      NonePending(v0);
      NonePending(AllAnnounced(v0));
      var done: set<string> := {};
      while true
        invariant Current(verdicts)
        invariant (verdicts == v0 && rows == r0 && done == {})
          || (done != {} && verdicts == AllAnnounced(v0) && rows == r0 + RowsFor(Pending(v0), takes))
        decreases |Pending(verdicts)|
      {
        var n := FirstUndone(verdicts, done);
        if n == |verdicts| {
          if done == {} { NothingToAnnounce(verdicts, takes); }
          return;
        }
        var next := verdicts[n];
        done := done + {next.id};
        MarkingTheFirst(verdicts, n);
        if next.id in takes { rows := rows + [next.id]; }
        OneMoreRow(next.id, Pending(Marked(verdicts, next.id)), takes);
        Mark(next.id, takes);
      }
    }

    method FirstUndone(vs: seq<Verdict>, done: set<string>) returns (n: nat)
      ensures n <= |vs| && forall i :: 0 <= i < n ==> vs[i].announced || vs[i].id in done
      ensures n < |vs| ==> !vs[n].announced && vs[n].id !in done
    {
      n := 0;
      while n < |vs| && (vs[n].announced || vs[n].id in done)
        invariant n <= |vs| && forall i :: 0 <= i < n ==> vs[i].announced || vs[i].id in done
      {
        n := n + 1;
      }
    }

    method Mark(id: string, takes: set<string>)
      requires attached && Current(verdicts) && Current(Marked(verdicts, id))
      requires exists v :: v in verdicts && v.id == id && !v.announced
      requires |Pending(Marked(verdicts, id))| < |Pending(verdicts)|
      modifies this`verdicts, this`rows
      ensures verdicts == AllAnnounced(Marked(old(verdicts), id))
      ensures rows == old(rows) + RowsFor(Pending(Marked(old(verdicts), id)), takes)
      decreases |Pending(verdicts)|, 0
    {
      Update(Marked(verdicts, id), takes);
    }

    /** A step settles: its packet, if it left one, is judged, recorded, flushed and consumed. */
    method Ingest(step: string, declared: Option<string>, takes: set<string>,
        flushes: bool) returns (o: Option<Ingestion>)
      requires Current(verdicts)
      modifies this
      ensures Current(verdicts) && attached == old(attached)
      ensures old(packet).None? <==> o.None?
      ensures o.Some? ==> packet == None && IsJudgement(o.value, old(verdicts), old(packet).value, runId, step, declared)
      ensures var vs := if o == Some(Recorded) then Taken(old(verdicts), old(packet).value) else old(verdicts);
        if attached && o.Some? && !o.value.Unchanged? then
          verdicts == AllAnnounced(vs) && rows == old(rows) + RowsFor(Pending(vs), takes)
        else verdicts == vs && rows == old(rows)
      ensures onDisk == if flushes && o.Some? && !o.value.Unchanged? then verdicts else old(onDisk)
    {
      hide IsJudgement, Judged, Taken, Current, Pending, AllAnnounced, RowsFor;
      if packet.None? { return None; }
      var judged := Judged(verdicts, packet.value, runId, step, declared);
      JudgedMeans(verdicts, packet.value, runId, step, declared);
      if judged.Unchanged? {
        packet := None;
        return Some(Unchanged);
      }
      if judged.Recorded? {
        TakingInKeepsOnePerRole(verdicts, packet.value, runId, step, declared);
        NoneLeft(Taken(verdicts, packet.value));
        Update(Taken(verdicts, packet.value), takes);
      } else {
        NoneLeft(verdicts);
        // the note about the refusal is a store write too
        Update(verdicts, takes);
      }
      if flushes { onDisk := verdicts; }
      packet := None;
      o := Some(judged);
    }
  }

  lemma NoneLeft(vs: seq<Verdict>)
    requires Current(vs)
    ensures Current(AllAnnounced(vs)) && forall v <- AllAnnounced(vs) :: v.announced
  {}

  lemma NothingToAnnounce(vs: seq<Verdict>, takes: set<string>)
    requires forall v <- vs :: v.announced
    ensures AllAnnounced(vs) == vs && RowsFor(Pending(vs), takes) == []
  {
    NonePending(vs);
    assert forall i :: 0 <= i < |vs| ==> vs[i] in vs;
  }
}
