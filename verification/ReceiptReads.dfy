/** The run index and the read that answers from it whether a run was created under a predicted id: when
    its "did not happen" can be believed, and when not. */
module ReceiptReads {
  import opened Options
  import Receipts

  datatype Verdict = Happened(ref: Receipts.ResultRef) | DidNotHappen | CannotTell(reason: string)

  datatype IndexedRun = IndexedRun(id: string, createdAt: int, archived: bool)

  // ---- the index ------------------------------------------------------------------------------------

  const MAX_RUNS_KEPT := 300
  const MAX_ARCHIVED_KEPT := 500

  function Cap(archived: bool): nat { if archived then MAX_ARCHIVED_KEPT else MAX_RUNS_KEPT }

  /** Run `i` is listed before run `k` of the same pool: newer, or as new and stored first. */
  predicate ListedBefore(runs: seq<IndexedRun>, i: nat, k: nat)
    requires i < |runs| && k < |runs|
  {
    && runs[i].archived == runs[k].archived
    && (runs[i].createdAt > runs[k].createdAt || (runs[i].createdAt == runs[k].createdAt && i < k))
  }

  function Ahead(runs: seq<IndexedRun>, k: nat): set<nat>
    requires k < |runs|
  {
    set i: nat | i < |runs| && ListedBefore(runs, i, k)
  }

  /** Archived and live runs are pruned apart, each pool down to its newest. */
  function Pruned(runs: seq<IndexedRun>, n: nat): seq<IndexedRun>
    requires n <= |runs|
  {
    if n == 0 then []
    else Pruned(runs, n - 1) + if |Ahead(runs, n - 1)| < Cap(runs[n - 1].archived) then [runs[n - 1]] else []
  }

  /** What happens to the index: a run is created, archived or restored, or deleted, or the file is gone.
      `Deleted` also stands for a creation that a crash kept from being saved. */
  datatype Change = Created(run: IndexedRun) | Filed(id: string, archived: bool) | Deleted(id: string) | Emptied

  function Without(runs: seq<IndexedRun>, id: string): (r: seq<IndexedRun>)
    ensures forall run :: run in r <==> run in runs && run.id != id
  {
    if runs == [] then []
    else
      assert forall run :: run in runs <==> run == runs[0] || run in runs[1..];
      (if runs[0].id == id then [] else [runs[0]]) + Without(runs[1..], id)
  }

  function FiledAs(runs: seq<IndexedRun>, id: string, archived: bool): (r: seq<IndexedRun>)
    ensures |r| == |runs| && forall i :: 0 <= i < |runs| ==> r[i] == if runs[i].id == id then runs[i].(archived := archived) else runs[i]
  {
    seq(|runs|, i requires 0 <= i < |runs| => if runs[i].id == id then runs[i].(archived := archived) else runs[i])
  }

  function Changed(runs: seq<IndexedRun>, change: Change): seq<IndexedRun> {
    match change
    case Created(run) => var all := Without(runs, run.id) + [run]; Pruned(all, |all|)
    case Filed(id, archived) => FiledAs(runs, id, archived)
    case Deleted(id) => Without(runs, id)
    case Emptied => []
  }

  lemma {:induction false} PrunedHolds(runs: seq<IndexedRun>, n: nat)
    requires n <= |runs|
    ensures forall i :: 0 <= i < n && |Ahead(runs, i)| < Cap(runs[i].archived) ==> runs[i] in Pruned(runs, n)
    ensures forall run <- Pruned(runs, n) ::
      exists i :: 0 <= i < n && runs[i] == run && |Ahead(runs, i)| < Cap(runs[i].archived)
  {
    hide Ahead;
    if n > 0 { PrunedHolds(runs, n - 1); }
  }

  lemma AheadGrows(runs: seq<IndexedRun>, i: nat, k: nat)
    requires i < |runs| && k < |runs| && ListedBefore(runs, i, k)
    ensures |Ahead(runs, i)| < |Ahead(runs, k)|
  {
    assert Ahead(runs, i) + {i} <= Ahead(runs, k) && i !in Ahead(runs, i);
    SubsetSize(Ahead(runs, i) + {i}, Ahead(runs, k));
  }

  lemma {:induction false} SubsetSize(a: set<nat>, b: set<nat>)
    requires a <= b
    ensures |a| <= |b|
    decreases a
  {
    if a != {} {
      var x :| x in a;
      SubsetSize(a - {x}, b - {x});
    }
  }

  /** What a change leaves: a deletion takes that run only, a filing alters where it is kept only, a loss of
      the file takes all, and a creation adds the run and may prune older ones of its pool. */
  lemma ChangeMeans(runs: seq<IndexedRun>, id: string, archived: bool, run: IndexedRun)
    ensures forall r :: r in Changed(runs, Deleted(id)) <==> r in runs && r.id != id
    ensures Changed(runs, Emptied) == []
    ensures |Changed(runs, Filed(id, archived))| == |runs|
    ensures forall i :: 0 <= i < |runs| ==>
      Changed(runs, Filed(id, archived))[i] ==
      IndexedRun(runs[i].id, runs[i].createdAt, if runs[i].id == id then archived else runs[i].archived)
    ensures forall r <- Changed(runs, Created(run)) :: r == run || (r in runs && r.id != run.id)
  {
    hide Ahead, Cap;
    var all := Without(runs, run.id) + [run];
    PrunedHolds(all, |all|);
  }

  predicate DistinctIds(runs: seq<IndexedRun>) { forall j, k :: 0 <= j < k < |runs| ==> runs[j].id != runs[k].id }

  /** Pruning drops a run exactly when its pool lists as many as it keeps before it, and everything kept
      there is at least as new. */
  lemma PruningMeans(runs: seq<IndexedRun>, i: nat)
    requires i < |runs| && DistinctIds(runs)
    ensures runs[i] in Pruned(runs, |runs|) <==> |Ahead(runs, i)| < (if runs[i].archived then 500 else 300)
    ensures runs[i] !in Pruned(runs, |runs|) ==>
      forall run <- Pruned(runs, |runs|) :: run.archived == runs[i].archived ==> run.createdAt >= runs[i].createdAt
  {
    hide Ahead, Pruned, Cap;
    CapIs(runs[i].archived);
    PrunedHolds(runs, |runs|);
    forall run | run in Pruned(runs, |runs|) && run.archived == runs[i].archived && run.createdAt < runs[i].createdAt
      ensures |Ahead(runs, i)| < Cap(runs[i].archived)
    {
      KeptMeansAhead(runs, i, run);
    }
  }

  lemma CapIs(archived: bool)
    ensures Cap(archived) == if archived then 500 else 300
  {}

  lemma KeptMeansAhead(runs: seq<IndexedRun>, i: nat, run: IndexedRun)
    requires i < |runs| && run in Pruned(runs, |runs|)
    requires run.archived == runs[i].archived && run.createdAt < runs[i].createdAt
    ensures |Ahead(runs, i)| < Cap(runs[i].archived)
  {
    hide Ahead, Pruned, Cap;
    PrunedHolds(runs, |runs|);
    var k :| 0 <= k < |runs| && runs[k] == run && |Ahead(runs, k)| < Cap(runs[k].archived);
    AheadGrows(runs, i, k);
  }

  // ---- the read -------------------------------------------------------------------------------------

  /** The oldest creation date of one retention pool. */
  function OldestOf(runs: seq<IndexedRun>, archived: bool): Option<int> {
    if runs == [] then None
    else
      var before := OldestOf(runs[..|runs| - 1], archived);
      var run := runs[|runs| - 1];
      if run.archived == archived && (before.None? || run.createdAt < before.value) then Some(run.createdAt) else before
  }

  /** The later of the two pools' oldest dates: the index can answer for nothing older. */
  function Bound(runs: seq<IndexedRun>): Option<int> {
    var live, kept := OldestOf(runs, false), OldestOf(runs, true);
    if live.None? then kept else if kept.None? || kept.value <= live.value then live else kept
  }

  function RunLookup(runs: seq<IndexedRun>, predicted: string, startedAt: int): Verdict {
    if exists run :: run in runs && run.id == predicted then Happened(Receipts.ResultRef("run", predicted))
    else if Bound(runs).None? || startedAt < Bound(runs).value then CannotTell("run index pruned")
    else DidNotHappen
  }

  method Reconcile(runs: seq<IndexedRun>, predicted: string, startedAt: int) returns (v: Verdict)
    ensures v == RunLookup(runs, predicted, startedAt)
  {
    if exists run :: run in runs && run.id == predicted { return Happened(Receipts.ResultRef("run", predicted)); }
    var bound: Option<int> := None;
    var pools := [false, true];
    for p := 0 to 2
      invariant bound == if p == 0 then None else if p == 1 then OldestOf(runs, false) else Bound(runs)
    {
      var oldest: Option<int> := None;
      for i := 0 to |runs|
        invariant oldest == OldestOf(runs[..i], pools[p])
      {
        assert runs[..i + 1][..i] == runs[..i];
        if runs[i].archived != pools[p] { continue; }
        if oldest.None? || runs[i].createdAt < oldest.value { oldest := Some(runs[i].createdAt); }
      }
      assert runs[..|runs|] == runs;
      if oldest.Some? && (bound.None? || oldest.value > bound.value) { bound := oldest; }
    }
    if bound.None? || startedAt < bound.value { return CannotTell("run index pruned"); }
    v := DidNotHappen;
  }

  lemma {:induction false} OldestMeans(runs: seq<IndexedRun>, archived: bool)
    ensures var o := OldestOf(runs, archived);
      && (o.None? <==> forall run <- runs :: run.archived != archived)
      && (o.Some? ==> (exists run :: run in runs && run.archived == archived && run.createdAt == o.value)
                      && forall run <- runs :: run.archived == archived ==> run.createdAt >= o.value)
    decreases |runs|
  {
    if runs != [] {
      OldestMeans(runs[..|runs| - 1], archived);
      assert runs == runs[..|runs| - 1] + [runs[|runs| - 1]];
    }
  }

  predicate HasOneBy(runs: seq<IndexedRun>, archived: bool, at: int) {
    exists run :: run in runs && run.archived == archived && run.createdAt <= at
  }

  /** The run is not there, and each pool that holds anything still holds a run no newer than the attempt,
      and one of them does. */
  predicate Denies(runs: seq<IndexedRun>, predicted: string, startedAt: int) {
    && (forall run <- runs :: run.id != predicted) && runs != []
    && (forall run <- runs :: HasOneBy(runs, run.archived, startedAt))
  }

  /** "Did not happen" is answered if and only if that is so. */
  lemma DeniedIff(runs: seq<IndexedRun>, predicted: string, startedAt: int)
    ensures RunLookup(runs, predicted, startedAt).DidNotHappen? <==> Denies(runs, predicted, startedAt)
    ensures RunLookup(runs, predicted, startedAt).Happened? <==> exists run :: run in runs && run.id == predicted
  {
    OldestMeans(runs, false);
    OldestMeans(runs, true);
    hide OldestOf;
    if runs != [] {
      assert runs[0] in runs;
      assert OldestOf(runs, runs[0].archived).Some?;
    }
  }

  // ---- what pruning and restoring do to it ----------------------------------------------------------

  /** Asked with the date of an attempt made before the run was created, the read does not deny a run
      right after pruning took it. */
  lemma PruningIsNotDenied(runs: seq<IndexedRun>, i: nat, startedAt: int)
    requires i < |runs| && DistinctIds(runs)
    requires startedAt < runs[i].createdAt
    ensures !RunLookup(Pruned(runs, |runs|), runs[i].id, startedAt).DidNotHappen?
  {
    var kept := Pruned(runs, |runs|);
    PruningMeans(runs, i);
    DeniedIff(kept, runs[i].id, startedAt);
    if runs[i] !in kept && Denies(kept, runs[i].id, startedAt) { SomeoneIsKept(runs, i); }
  }

  /** A pool that lost a run to pruning is not empty. */
  lemma SomeoneIsKept(runs: seq<IndexedRun>, i: nat)
    requires i < |runs|
    ensures exists run :: run in Pruned(runs, |runs|) && run.archived == runs[i].archived
    decreases |Ahead(runs, i)|
  {
    hide Cap;
    PrunedHolds(runs, |runs|);
    assert Cap(runs[i].archived) > 0 by { CapIsPositive(runs[i].archived); }
    if |Ahead(runs, i)| >= Cap(runs[i].archived) {
      var k :| k in Ahead(runs, i);
      AheadGrows(runs, k, i);
      SomeoneIsKept(runs, k);
    }
  }

  lemma CapIsPositive(archived: bool)
    ensures Cap(archived) > 0
  {}

  /** Restoring an archived run, whose date stays what it was, brings an old date back into the live pool.
      From then on the read denies every absent run exactly when what is left archived does not forbid it. */
  lemma RestoringDenies(runs: seq<IndexedRun>, predicted: string, startedAt: int, past: IndexedRun)
    requires past in runs && past.createdAt <= startedAt && forall run <- runs :: run.id != predicted
    ensures var restored := Changed(runs, Filed(past.id, false));
      RunLookup(restored, predicted, startedAt).DidNotHappen? <==>
      ((exists run :: run in restored && run.archived) ==> HasOneBy(restored, true, startedAt))
  {
    var restored := Changed(runs, Filed(past.id, false));
    DeniedIff(restored, predicted, startedAt);
    var i :| 0 <= i < |runs| && runs[i] == past;
    assert restored[i] == past.(archived := false) && restored[i] in restored;
    assert HasOneBy(restored, false, startedAt);
  }

  const NEW := IndexedRun("new", 150, false)
  const PAST := IndexedRun("past", 50, true)
  const BACK := IndexedRun("past", 50, false)

  /** A live run newer than the attempt and an older one brought back: the attempt's run was pruned, and
      asked with the attempt's own date the read denies it. */
  lemma PrunedRunIsDenied()
    ensures RunLookup([NEW, PAST], "pruned", 100).CannotTell?
    ensures Changed([NEW, PAST], Filed("past", false)) == [NEW, BACK]
    ensures RunLookup([NEW, BACK], "pruned", 100).DidNotHappen?
  {
    hide RunLookup;
    DeniedIff([NEW, BACK], "pruned", 100);
    assert BACK in [NEW, BACK] && HasOneBy([NEW, BACK], false, 100);
    DeniedIff([NEW, PAST], "pruned", 100);
    assert NEW in [NEW, PAST] && !HasOneBy([NEW, PAST], false, 100);
    NotFound([NEW, PAST], "pruned", 100);
  }

  lemma NotFound(runs: seq<IndexedRun>, predicted: string, startedAt: int)
    requires forall run <- runs :: run.id != predicted
    ensures !RunLookup(runs, predicted, startedAt).Happened?
  {}

  /** A miss in a damaged journal asks with the present instead, and then absence always reads as "did
      not happen", pruned or not. */
  lemma AskedNowAbsenceIsDenied(runs: seq<IndexedRun>, predicted: string, now: int)
    requires runs != [] && (forall run <- runs :: run.createdAt <= now && run.id != predicted)
    ensures RunLookup(runs, predicted, now).DidNotHappen?
  {
    DeniedIff(runs, predicted, now);
  }
}
