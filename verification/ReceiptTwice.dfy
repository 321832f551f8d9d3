/** Two runs in which one key's effect takes place twice: a fresh loss dropped with an old mark, and a
    pruned run denied. */
module ReceiptTwice {
  import opened Options
  import opened Receipts
  import opened ReceiptReads
  import opened ReceiptRuns
  import opened ReceiptSafety
  import opened ReceiptPromises

  // ---- when a mark is older than a loss it covers ---------------------------------------------------

  lemma {:induction false} MarkedBefore(lines: seq<Line>, start: Option<int>, x: int)
    ensures var at := MarkedAt(lines, start);
      at.Some? && at.value < x <==> (start.Some? && start.value < x) || exists line :: line in lines && line.Damage? && line.at < x
    decreases |lines|
  {
    if lines != [] {
      MarkedBefore(lines[..|lines| - 1], start, x);
      var last := lines[|lines| - 1];
      assert forall line :: line in lines <==> line in lines[..|lines| - 1] || line == last;
    }
  }

  /** The mark a load leaves for losses it finds now is older than they are exactly when the journal
      already carries an older one. */
  lemma MarkIsOlderIff(journal: Text, now: int)
    requires journal != EMPTY && (Bad(journal.lines) > 0 || journal.tail.Some?)
    ensures var m := Load(journal, None, now);
      && m.quarantined > 0 && m.damageAt.Some? && m.damageAt.value <= now
      && (m.damageAt.value < now <==> exists line :: line in journal.lines && line.Damage? && line.at < now)
  {
    MarkedBefore(journal.lines, None, now);
  }

  /** So a compaction less than the age floor after that load drops the mark of what it had just found
      exactly when an older mark, itself past the floor, stood in the journal. */
  lemma FreshLossIsDroppedIff(s: Sys, now: int, step: Step)
    requires s.disk != EMPTY && (Bad(s.disk.lines) > 0 || s.disk.tail.Some?) && SnapInv(s)
    requires step.Compact? && step.now - MAX_AGE_MS <= now
    ensures var t := Next(Next(s, Restart(now, Normal)), step);
      t.mem.quarantined == 0 <==> exists line :: line in s.disk.lines && line.Damage? && line.at < step.now - MAX_AGE_MS
  {
    hide Kept, Entries, Survivors, Scans, Bad, Marks, Folded, SnapInv;
    ShortcutTaken(s, now);
    MarkedBefore(s.disk.lines, None, step.now - MAX_AGE_MS);
  }

  // ---- runs in pieces -------------------------------------------------------------------------------

  lemma {:induction false} InPieces(s: Sys, a: seq<Step>, b: seq<Step>)
    ensures Run(s, a + b) == Run(Run(s, a), b)
    ensures CanAll(s, a + b) <==> CanAll(s, a) && CanAll(Run(s, a), b)
    decreases |a|
  {
    hide Next, Can;
    if a == [] {
      assert a + b == b;
    } else {
      assert (a + b)[1..] == a[1..] + b;
      InPieces(Next(s, a[0]), a[1..], b);
    }
  }

  lemma {:induction false} First(s: Sys, steps: seq<Step>, t: Sys)
    requires steps != [] && Can(s, steps[0]) && Next(s, steps[0]) == t
    ensures Run(s, steps) == Run(t, steps[1..]) && (CanAll(s, steps) <==> CanAll(t, steps[1..]))
  {
    hide Next, Can;
  }

  lemma {:induction false} SmallIndexIsKept(runs: seq<IndexedRun>, n: nat)
    requires n <= |runs| <= MAX_RUNS_KEPT
    ensures Pruned(runs, n) == runs[..n]
  {
    hide Ahead;
    if n > 0 {
      SmallIndexIsKept(runs, n - 1);
      FewAhead(runs, n - 1);
      assert runs[..n] == runs[..n - 1] + [runs[n - 1]];
    }
  }

  lemma FewAhead(runs: seq<IndexedRun>, k: nat)
    requires k < |runs|
    ensures |Ahead(runs, k)| < |runs|
  {
    assert Ahead(runs, k) <= Indices(|runs|) - {k};
    SubsetSize(Ahead(runs, k), Indices(|runs|) - {k});
  }

  ghost function Indices(n: nat): (r: set<nat>)
    ensures |r| == n && forall i: nat :: i in r <==> i < n
  {
    if n == 0 then {} else Indices(n - 1) + {n - 1}
  }

  // ---- a fresh loss goes with an old mark -----------------------------------------------------------

  const LATER := MAX_AGE_MS + 1
  const PAST := IndexedRun("past", 0, false)
  const TORN := Write(false, Text([], Some(Garbage)), 1)

  function Whole(generation: nat): Write { Write(true, EMPTY, generation) }

  function Fresh(m: Store, disk: Text, gens: set<nat>, since: nat): Sys {
    Sys(m, disk, None, gens, since, false, false, [PAST], multiset{}, multiset{}, {}, {})
  }

  /** A torn write; the restart dates the damage at 0 and the shutdown writes the mark. Much later the
      next process loads it. */
  function MarkSteps(a: Request): seq<Step> {
    [Indexing(Created(PAST)), Call(a, 0, None, TORN), Restart(0, Normal), Compact(0, [], {}, true, false, 2, true),
     Restart(LATER, Normal)]
  }

  function Marked(): Sys { Fresh(Store(map[], map[], 1, Some(0), true, false), Text([Header(2), Damage(1, 0)], None), {1, 2}, 2) }

  function TornLine(): Sys { Fresh(NOTHING, Text([], Some(Garbage)), {1}, 0) }

  function TornLineCounted(): Sys {
    Fresh(Store(map[], map[], 1, Some(0), true, true), Text([], Some(Garbage)), {1}, 1)
  }

  function MarkWritten(): Sys {
    Fresh(Store(map[], map[], 1, Some(0), true, false), Text([Header(2), Damage(1, 0)], None), {1, 2}, 0).(closed := true)
  }

  lemma {:induction false} UntilMarked(a: Request)
    requires a.reconcile.RunByKey? ==> a.reconcile == Predicate.RunByKey(PredictedRun(a.key))
    ensures CanAll(INIT, MarkSteps(a)) && Run(INIT, MarkSteps(a)) == Marked()
  {
    hide Run, CanAll, Can, Next, Fresh;
    var steps := MarkSteps(a);
    FirstRun();
    TearsALine(a);
    CountsIt();
    MarkIsWritten();
    MarkIsLoaded();
    First(INIT, steps, Fresh(NOTHING, EMPTY, {}, 0));
    First(Fresh(NOTHING, EMPTY, {}, 0), steps[1..], TornLine());
    First(TornLine(), steps[2..], TornLineCounted());
    First(TornLineCounted(), steps[3..], MarkWritten());
    First(MarkWritten(), steps[4..], Marked());
    NoMore(Marked(), steps[5..]);
  }

  lemma NoMore(s: Sys, steps: seq<Step>)
    requires steps == []
    ensures Run(s, steps) == s && CanAll(s, steps)
  {}

  lemma FirstRun()
    ensures Can(INIT, Indexing(Created(PAST))) && Next(INIT, Indexing(Created(PAST))) == Fresh(NOTHING, EMPTY, {}, 0)
  {
    var none: seq<IndexedRun> := [];
    assert Without(none, PAST.id) + [PAST] == [PAST];
    SmallIndexIsKept([PAST], 1);
    assert [PAST][..1] == [PAST];
  }

  lemma TearsALine(a: Request)
    requires a.reconcile.RunByKey? ==> a.reconcile == Predicate.RunByKey(PredictedRun(a.key))
    ensures var s := Fresh(NOTHING, EMPTY, {}, 0);
      Can(s, Call(a, 0, None, TORN)) && Next(s, Call(a, 0, None, TORN)) == TornLine()
  {}

  lemma CountsIt()
    ensures Can(TornLine(), Restart(0, Normal)) && Next(TornLine(), Restart(0, Normal)) == TornLineCounted()
  {}

  lemma NothingToCompact(generation: nat, damage: seq<Line>, cutoff: int)
    ensures NewestFirst([], map[]) && Kept(map[], [], cutoff, {}) == map[]
    ensures [Header(generation)] + damage + Entries(Survivors([], map[])) == [Header(generation)] + damage
  {
    var none: map<Key, Receipt> := map[];
    assert forall k :: k !in Kept(none, [], cutoff, {});
  }

  lemma MarkIsWritten()
    ensures var step := Compact(0, [], {}, true, false, 2, true);
      Can(TornLineCounted(), step) && Next(TornLineCounted(), step) == MarkWritten()
  {
    NothingToCompact(2, [Damage(1, 0)], -MAX_AGE_MS);
  }

  lemma MarkIsLoaded()
    ensures Can(MarkWritten(), Restart(LATER, Normal)) && Next(MarkWritten(), Restart(LATER, Normal)) == Marked()
  {
    MarkedLines();
  }

  lemma MarkedLines()
    ensures var lines := [Header(2), Damage(1, 0)];
      Folded(lines) == map[] && Bad(lines) == 0 && Marks(lines) == 1 && MarkedAt(lines, None) == Some(0) && NotBlank(lines) == 2
  {
    var lines := [Header(2), Damage(1, 0)];
    assert lines[..1] == [Header(2)] && [Header(2)][..0] == [];
  }

  /** The process is asked for `b`, whose run the index truly lacks, and its intent is torn; then for `k`,
      whose intent the torn line swallows. The effect of `k` takes place and the process dies; the restart
      counts the new loss under the old date. */
  function LossSteps(b: Request, k: Request): seq<Step> {
    [Call(b, LATER, None, Whole(3)), Asked(b.key, true, None, TORN.(generation := 3)), Call(k, LATER, None, Whole(4)),
     Asked(k.key, true, None, Whole(4)), TakesPlace(k.key, LATER), Restart(LATER, Normal)]
  }

  predicate CreatesOwnRun(req: Request) { req.reconcile == Predicate.RunByKey(PredictedRun(req.key)) }

  function Asks(s: Sys, req: Request): Sys { s.(mem := s.mem.(live := map[req.key := Asking(req, LATER)])) }

  function IntentTorn(): Sys {
    Fresh(Store(map[], map[], 1, Some(0), true, false), Text([Header(2), Damage(1, 0)], Some(Garbage)), {1, 2, 3}, 2)
  }

  function Swallowed(k: Request, applied: bool): Sys {
    var intent := Intent(k, LATER);
    Fresh(Store(map[k.key := intent], map[k.key := Running(intent, applied)], 1, Some(0), true, false),
          Text([Header(2), Damage(1, 0), Garbage], None), {1, 2, 3, 4}, 3).(
      ran := multiset{k.key}, applied := if applied then multiset{k.key} else multiset{},
      index := if applied then [PAST, IndexedRun(PredictedRun(k.key), LATER, false)] else [PAST])
  }

  function Lost(k: Request): Sys {
    Swallowed(k, true).(mem := Store(map[], map[], 2, Some(0), true, false))
  }

  lemma OnlyThePast(req: Request)
    requires CreatesOwnRun(req)
    ensures RunLookup([PAST], req.reconcile.predictedRunId, LATER).DidNotHappen?
  {
    assert req.reconcile.predictedRunId[0] == '/' && PAST.id[0] == 'p';
    assert HasOneBy([PAST], false, LATER) by { assert PAST in [PAST]; }
    DeniedIff([PAST], req.reconcile.predictedRunId, LATER);
  }

  lemma CallAsks(s: Sys, req: Request, w: Write)
    requires CreatesOwnRun(req) && s.mem.live == map[] && s.mem.receipts == map[] && s.mem.quarantined > 0 && !s.due
    requires w.done && w.generation !in s.gens
    ensures Can(s, Call(req, LATER, None, w)) && Next(s, Call(req, LATER, None, w)) == Asks(s, req)
  {}

  lemma TornIntent(b: Request)
    requires CreatesOwnRun(b)
    ensures var step := Asked(b.key, true, None, TORN.(generation := 3));
      Can(Asks(Marked(), b), step) && Next(Asks(Marked(), b), step) == IntentTorn()
  {
    hide RunLookup;
    OnlyThePast(b);
  }

  lemma SwallowedIntent(k: Request)
    requires CreatesOwnRun(k)
    ensures var step := Asked(k.key, true, None, Whole(4));
      Can(Asks(IntentTorn(), k), step) && Next(Asks(IntentTorn(), k), step) == Swallowed(k, false)
  {
    hide RunLookup;
    OnlyThePast(k);
  }

  lemma RunIsIndexed(k: Request)
    ensures var run := IndexedRun(PredictedRun(k.key), LATER, false); Changed([PAST], Created(run)) == [PAST, run]
  {
    var run := IndexedRun(PredictedRun(k.key), LATER, false);
    assert run.id[0] == '/' && PAST.id[0] == 'p';
    assert Without([PAST], run.id) == [PAST];
    assert [PAST] + [run] == [PAST, run] == [PAST, run][..2];
    SmallIndexIsKept([PAST, run], 2);
  }

  lemma RunIsCreated(k: Request)
    requires CreatesOwnRun(k)
    ensures var step := TakesPlace(k.key, LATER);
      Can(Swallowed(k, false), step) && Next(Swallowed(k, false), step) == Swallowed(k, true)
  {
    hide Changed, PredictedRun;
    RunIsIndexed(k);
    var t := Next(Swallowed(k, false), TakesPlace(k.key, LATER));
    assert t.mem == Swallowed(k, true).mem && t.index == Swallowed(k, true).index && t.applied == multiset{k.key};
  }

  lemma LossIsCounted(k: Request)
    ensures Can(Swallowed(k, true), Restart(LATER, Normal)) && Next(Swallowed(k, true), Restart(LATER, Normal)) == Lost(k)
  {
    hide Load, Scans;
    LoadsTheLoss();
    var s := Swallowed(k, true);
    assert s.disk == Text([Header(2), Damage(1, 0), Garbage], None) && s.snap.None?;
    assert Moved(s, Restart(LATER, Normal)) ==
      s.(closed := false, mem := Load(s.disk, None, LATER), since := Scans(s.disk, None));
    var t := Next(s, Restart(LATER, Normal));
    assert t.mem == Lost(k).mem && t.since == Lost(k).since && t.due == Lost(k).due && t.closed == Lost(k).closed;
    assert t.index == Lost(k).index && t.ran == Lost(k).ran && t.applied == Lost(k).applied && t.disk == Lost(k).disk;
    assert t.gens == Lost(k).gens && t.forgotten == Lost(k).forgotten && t.denied == Lost(k).denied && t.snap == Lost(k).snap;
  }

  lemma LoadsTheLoss()
    ensures var journal := Text([Header(2), Damage(1, 0), Garbage], None);
      Load(journal, None, LATER) == Store(map[], map[], 2, Some(0), true, false) && Scans(journal, None) == 3
  {
    LostLines();
  }

  lemma LostLines()
    ensures var lines := [Header(2), Damage(1, 0), Garbage];
      Folded(lines) == map[] && Bad(lines) == 1 && Marks(lines) == 1 && MarkedAt(lines, None) == Some(0) && NotBlank(lines) == 3
  {
    var lines := [Header(2), Damage(1, 0), Garbage];
    MarkedLines();
    assert lines[..2] == [Header(2), Damage(1, 0)];
  }

  lemma {:induction false} UntilLost(b: Request, k: Request)
    requires CreatesOwnRun(b) && CreatesOwnRun(k)
    ensures CanAll(Marked(), LossSteps(b, k)) && Run(Marked(), LossSteps(b, k)) == Lost(k)
  {
    hide Run, CanAll, Can, Next, Asks, Swallowed, Lost;
    var steps := LossSteps(b, k);
    CallAsks(Marked(), b, Whole(3));
    TornIntent(b);
    CallAsks(IntentTorn(), k, Whole(4));
    SwallowedIntent(k);
    RunIsCreated(k);
    LossIsCounted(k);
    First(Marked(), steps, Asks(Marked(), b));
    First(Asks(Marked(), b), steps[1..], IntentTorn());
    First(IntentTorn(), steps[2..], Asks(IntentTorn(), k));
    First(Asks(IntentTorn(), k), steps[3..], Swallowed(k, false));
    First(Swallowed(k, false), steps[4..], Swallowed(k, true));
    First(Swallowed(k, true), steps[5..], Lost(k));
    NoMore(Lost(k), steps[6..]);
  }

  /** The shutdown drops the mark, both losses with it; the next process is asked for `k` once more. */
  function AgainSteps(k: Request): seq<Step> {
    [Compact(LATER, [], {}, true, false, 6, true), Restart(LATER, Normal), Call(k, LATER, None, Whole(7)),
     TakesPlace(k.key, LATER)]
  }

  function Cleared(k: Request): Sys {
    Lost(k).(mem := Store(map[], map[], 0, None, true, false), disk := Text([Header(6)], None), gens := {1, 2, 3, 4, 6},
             since := 0, closed := true, forgotten := {k.key})
  }

  lemma MarkIsDropped(k: Request)
    ensures var step := Compact(LATER, [], {}, true, false, 6, true);
      Can(Lost(k), step) && Next(Lost(k), step) == Cleared(k)
  {
    NothingToCompact(6, [], 1);
    var none: map<Key, Receipt> := map[];
    assert (set x | x in multiset{k.key} && x !in none) == {k.key};
  }

  lemma HeaderOnly()
    ensures var lines := [Header(6)];
      Folded(lines) == map[] && Bad(lines) == 0 && Marks(lines) == 0 && MarkedAt(lines, None) == None && NotBlank(lines) == 1
  {
    assert [Header(6)][..0] == [];
  }

  lemma {:induction false} RunsAgain(k: Request)
    requires CreatesOwnRun(k)
    ensures CanAll(Lost(k), AgainSteps(k)) && Run(Lost(k), AgainSteps(k)).applied[k.key] == 2
  {
    hide Run, CanAll, Next, Can;
    var steps := AgainSteps(k);
    MarkIsDropped(k);
    First(Lost(k), steps, Cleared(k));
    var loaded := Cleared(k).(closed := false, since := 1);
    ClearedLoads(k);
    First(Cleared(k), steps[1..], loaded);
    StartsOver(k);
    var started := Next(loaded, steps[2]);
    First(loaded, steps[2..], started);
    First(started, steps[3..], Next(started, steps[3]));
    NoMore(Next(started, steps[3]), steps[4..]);
  }

  lemma ClearedLoads(k: Request)
    ensures Can(Cleared(k), Restart(LATER, Normal))
    ensures Next(Cleared(k), Restart(LATER, Normal)) == Cleared(k).(closed := false, since := 1)
  {
    HeaderOnly();
  }

  lemma StartsOver(k: Request)
    requires CreatesOwnRun(k)
    ensures var s := Cleared(k).(closed := false, since := 1);
      var t := Next(s, Call(k, LATER, None, Whole(7)));
      && Can(s, Call(k, LATER, None, Whole(7))) && Can(t, TakesPlace(k.key, LATER))
      && Next(t, TakesPlace(k.key, LATER)).applied[k.key] == 2
  {
    hide Changed;
  }

  /** With every read telling the truth, the mark of a fresh loss goes with an old one and one key's effect
      takes place twice: damage is dated by the earliest loss, not by each. */
  lemma {:induction false} EffectTakesPlaceTwice(a: Request, b: Request, k: Request)
    requires CreatesOwnRun(a) && CreatesOwnRun(b) && CreatesOwnRun(k)
    ensures var steps := MarkSteps(a) + LossSteps(b, k) + AgainSteps(k);
      CanAll(INIT, steps) && Run(INIT, steps).applied[k.key] == 2
  {
    hide Run, CanAll, Can, Next, Fresh, Lost;
    UntilMarked(a);
    UntilLost(b, k);
    RunsAgain(k);
    InPieces(INIT, MarkSteps(a), LossSteps(b, k));
    InPieces(INIT, MarkSteps(a) + LossSteps(b, k), AgainSteps(k));
  }

  // ---- a pruned run is denied -----------------------------------------------------------------------

  function Name(n: nat): (name: string)
    ensures |name| == n + 1 && name[0] == 'x'
  {
    if n == 0 then "x" else "x" + Name(n - 1)
  }

  /** A run somebody else creates. */
  function Other(n: nat): IndexedRun { IndexedRun(Name(n), 1, false) }

  function Others(n: nat): (runs: seq<IndexedRun>)
    ensures |runs| == n && forall i :: 0 <= i < n ==> runs[i] == Other(i)
  {
    if n == 0 then [] else Others(n - 1) + [Other(n - 1)]
  }

  function Own(k: Request): IndexedRun { IndexedRun(PredictedRun(k.key), 0, false) }

  /** The index after the operation's run and `n` others. */
  function IndexAfter(k: Request, n: nat): seq<IndexedRun> {
    if n < MAX_RUNS_KEPT then [Own(k)] + Others(n) else Others(n)
  }

  lemma {:induction false} OldestIsPruned(runs: seq<IndexedRun>, n: nat)
    requires 1 <= n <= |runs| == MAX_RUNS_KEPT + 1 && (forall run <- runs :: !run.archived)
    requires forall i :: 0 < i < |runs| ==> runs[0].createdAt < runs[i].createdAt
    ensures Pruned(runs, n) == runs[1..n]
  {
    hide Ahead;
    if n == 1 {
      AllAhead(runs);
      assert Pruned(runs, 0) == [];
    } else {
      OldestIsPruned(runs, n - 1);
      NotAhead(runs, n - 1);
      assert runs[1..n] == runs[1..n - 1] + [runs[n - 1]];
    }
  }

  lemma AllAhead(runs: seq<IndexedRun>)
    requires runs != [] && (forall run <- runs :: !run.archived)
    requires forall i :: 0 < i < |runs| ==> runs[0].createdAt < runs[i].createdAt
    ensures |Ahead(runs, 0)| == |runs| - 1
  {
    assert Ahead(runs, 0) == Indices(|runs|) - {0};
  }

  lemma NotAhead(runs: seq<IndexedRun>, k: nat)
    requires 0 < k < |runs| && runs[0].createdAt < runs[k].createdAt
    ensures |Ahead(runs, k)| < |runs| - 1
  {
    assert Ahead(runs, k) <= Indices(|runs|) - {k} - {0};
    SubsetSize(Ahead(runs, k), Indices(|runs|) - {k} - {0});
  }

  lemma {:induction false} NothingTaken(runs: seq<IndexedRun>, id: string)
    requires forall run <- runs :: run.id != id
    ensures Without(runs, id) == runs
    decreases |runs|
  {
    if runs != [] {
      assert runs[0] in runs && forall run <- runs[1..] :: run in runs;
      NothingTaken(runs[1..], id);
    }
  }

  lemma OthersAreNamed(n: nat)
    ensures forall run <- Others(n) :: !run.archived && run.createdAt == 1 && run.id != Other(n).id && run.id[0] == 'x'
  {
    forall run | run in Others(n)
      ensures !run.archived && run.createdAt == 1 && run.id != Other(n).id && run.id[0] == 'x'
    {
      var i :| 0 <= i < n && Others(n)[i] == run;
    }
  }

  lemma OneMoreOther(k: Request, n: nat)
    requires n < MAX_RUNS_KEPT
    ensures Changed(IndexAfter(k, n), Created(Other(n))) == IndexAfter(k, n + 1)
  {
    hide Pruned, Without, Others, Name, Other, PredictedRun;
    var runs := IndexAfter(k, n);
    OwnIsNoOther(k, n);
    NothingTaken(runs, Other(n).id);
    var all := runs + [Other(n)];
    AllButOwn(k, n);
    if n + 1 < MAX_RUNS_KEPT {
      SmallIndexIsKept(all, |all|);
      assert all[..|all|] == all;
    } else {
      OldestIsPruned(all, |all|);
    }
  }

  lemma OwnIsNoOther(k: Request, n: nat)
    ensures forall run <- [Own(k)] + Others(n) :: run.id != Other(n).id
  {
    OthersAreNamed(n);
    assert Own(k).id[0] == '/' && Other(n).id[0] == 'x';
    hide Others, Name;
  }

  lemma AllButOwn(k: Request, n: nat)
    ensures var all := [Own(k)] + Others(n) + [Other(n)];
      && all == [Own(k)] + Others(n + 1) && |all| == n + 2 && all[1..|all|] == Others(n + 1)
      && (forall run <- all :: !run.archived) && forall i :: 0 < i < |all| ==> all[0].createdAt < all[i].createdAt
  {
    hide Name;
    var all := [Own(k)] + Others(n) + [Other(n)];
    assert all == [Own(k)] + Others(n + 1);
  }

  function Creations(from: nat, n: nat): seq<Step>
    decreases n
  {
    if n == 0 then [] else [Indexing(Created(Other(from)))] + Creations(from + 1, n - 1)
  }

  lemma {:induction false} OthersCrowdItOut(s: Sys, k: Request, from: nat, n: nat)
    requires s.index == IndexAfter(k, from) && from + n <= MAX_RUNS_KEPT && !s.due
    ensures CanAll(s, Creations(from, n)) && Run(s, Creations(from, n)) == s.(index := IndexAfter(k, from + n))
    decreases n
  {
    hide Changed, IndexAfter, Other;
    if n > 0 {
      OneMoreOther(k, from);
      NotPredicted(from);
      var t := s.(index := IndexAfter(k, from + 1));
      OthersCrowdItOut(t, k, from + 1, n - 1);
      InPieces(s, [Indexing(Created(Other(from)))], Creations(from + 1, n - 1));
    }
  }

  lemma NotPredicted(n: nat)
    ensures !IsPredicted(Other(n).id)
  {}

  function BeforeCrowding(k: Request): seq<Step> { [Call(k, 0, None, Whole(1)), TakesPlace(k.key, 0)] }

  function AfterCrowding(k: Request): seq<Step> {
    [Restart(1, Unreadable), Call(k, 1, None, Whole(2)), Asked(k.key, true, None, Whole(2)), TakesPlace(k.key, 1)]
  }

  lemma {:induction false} TakesPlaceOnce(k: Request)
    requires CreatesOwnRun(k)
    ensures CanAll(INIT, BeforeCrowding(k))
    ensures var t := Run(INIT, BeforeCrowding(k));
      && t.index == [Own(k)] && t.applied == multiset{k.key} && !t.due && t.forgotten == {} && t.denied == {} && t.gens == {1}
  {
    hide Run, CanAll;
    var steps := BeforeCrowding(k);
    var t := Next(INIT, steps[0]);
    FirstOwnRun(k);
    First(INIT, steps, t);
    First(t, steps[1..], Next(t, steps[1]));
    NoMore(Next(t, steps[1]), steps[2..]);
  }

  lemma FirstOwnRun(k: Request)
    ensures Changed([], Created(Own(k))) == [Own(k)]
  {
    var none: seq<IndexedRun> := [];
    assert Without(none, Own(k).id) + [Own(k)] == [Own(k)];
    SmallIndexIsKept([Own(k)], 1);
    assert [Own(k)][..1] == [Own(k)];
  }

  lemma OthersDeny(k: Request)
    ensures Denies(Others(MAX_RUNS_KEPT), PredictedRun(k.key), 1)
  {
    var runs := Others(MAX_RUNS_KEPT);
    forall run | run in runs ensures run.id != PredictedRun(k.key) && !run.archived && run.createdAt == 1 {
      var i :| 0 <= i < |runs| && runs[i] == run;
    }
    assert runs[0] in runs;
    assert HasOneBy(runs, false, 1);
  }

  /** The next process, which could not read the journal, is asked for `k`. */
  ghost predicate Doubtful(s: Sys, k: Request, asking: bool) {
    && s.index == Others(MAX_RUNS_KEPT) && s.applied == multiset{k.key} && s.gens == {1} && s.forgotten == {}
    && s.mem == NOTHING.(quarantined := 1, damageAt := Some(1),
                         live := if asking then map[k.key := Asking(k, 1)] else map[])
  }

  lemma StartsUnread(s: Sys, k: Request)
    requires s.index == Others(MAX_RUNS_KEPT) && s.applied == multiset{k.key} && s.gens == {1} && s.forgotten == {}
    ensures var t := Next(s, Restart(1, Unreadable)); Doubtful(t, k, false) && t.denied == s.denied
    ensures Can(s, Restart(1, Unreadable))
  {
    hide Others, Load, Scans;
  }

  lemma AsksAgain(s: Sys, k: Request)
    requires CreatesOwnRun(k) && Doubtful(s, k, false)
    ensures var t := Next(s, Call(k, 1, None, Whole(2))); Doubtful(t, k, true) && t.denied == s.denied
    ensures Can(s, Call(k, 1, None, Whole(2)))
  {
    hide Others, FirstAttempt, Chunk;
  }

  lemma DeniesIt(s: Sys, k: Request)
    requires CreatesOwnRun(k) && Doubtful(s, k, true)
    ensures var step := Asked(k.key, true, None, Whole(2));
      var t := Next(s, step);
      && Can(s, step) && t.denied == s.denied + {k.key} && t.forgotten == {} && t.applied == multiset{k.key}
      && k.key in t.mem.live && t.mem.live[k.key] == Running(Intent(k, 1), false)
  {
    hide Others, RunLookup, Denies, Chunk, Join;
    OthersDeny(k);
    DeniedIff(s.index, PredictedRun(k.key), 1);
  }

  lemma {:induction false} TakesPlaceAgain(s: Sys, k: Request)
    requires CreatesOwnRun(k) && s.index == Others(MAX_RUNS_KEPT) && s.applied == multiset{k.key} && s.gens == {1}
    requires s.forgotten == {}
    ensures CanAll(s, AfterCrowding(k))
    ensures var t := Run(s, AfterCrowding(k)); t.applied[k.key] == 2 && t.forgotten == {} && t.denied == s.denied + {k.key}
  {
    hide Run, CanAll, Next, Can, Others, Doubtful;
    var steps := AfterCrowding(k);
    StartsUnread(s, k);
    var t := Next(s, steps[0]);
    First(s, steps, t);
    AsksAgain(t, k);
    var u := Next(t, steps[1]);
    First(t, steps[1..], u);
    DeniesIt(u, k);
    var v := Next(u, steps[2]);
    First(u, steps[2..], v);
    RunsOnceMore(v, k);
    First(v, steps[3..], Next(v, steps[3]));
    NoMore(Next(v, steps[3]), steps[4..]);
  }

  lemma RunsOnceMore(s: Sys, k: Request)
    requires k.key in s.mem.live && s.mem.live[k.key] == Running(Intent(k, 1), false) && s.applied == multiset{k.key}
    ensures var t := Next(s, TakesPlace(k.key, 1));
      t.applied[k.key] == 2 && t.forgotten == s.forgotten && t.denied == s.denied && Can(s, TakesPlace(k.key, 1))
  {
    hide Changed;
  }

  lemma IndexEnds(k: Request)
    ensures IndexAfter(k, 0) == [Own(k)] && IndexAfter(k, MAX_RUNS_KEPT) == Others(MAX_RUNS_KEPT)
  {
    assert Others(0) == [];
  }

  /** A run is created and pruned as the index fills; the journal cannot be read at the next start, so the
      retry is asked about with its own date, the index denies the run, and its effect takes place again.
      Nothing was forgotten. */
  lemma {:induction false} PrunedRunIsCreatedTwice(k: Request)
    requires CreatesOwnRun(k)
    ensures var steps := BeforeCrowding(k) + Creations(0, MAX_RUNS_KEPT) + AfterCrowding(k);
      var t := Run(INIT, steps);
      CanAll(INIT, steps) && t.applied[k.key] == 2 && t.forgotten == {} && t.denied == {k.key}
  {
    hide Run, CanAll, Next, Can, BeforeCrowding, Creations, AfterCrowding, Others, IndexAfter;
    TakesPlaceOnce(k);
    var s := Run(INIT, BeforeCrowding(k));
    IndexEnds(k);
    OthersCrowdItOut(s, k, 0, MAX_RUNS_KEPT);
    InPieces(INIT, BeforeCrowding(k), Creations(0, MAX_RUNS_KEPT));
    var t := Run(s, Creations(0, MAX_RUNS_KEPT));
    TakesPlaceAgain(t, k);
    InPieces(INIT, BeforeCrowding(k) + Creations(0, MAX_RUNS_KEPT), AfterCrowding(k));
  }
}
