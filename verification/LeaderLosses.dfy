/** Which rows pass the leader by: neither handed over nor named nor waiting, and before the place from
    which anything is still pushed. `Told` is what the leader got; the history of the scan itself plays
    no part in what is stated here. */
module LeaderLosses {
  import opened Options
  import opened Text
  import opened JournalRows
  import opened Journal
  import J = JournalRuns
  import opened JournalFollow
  import opened LeaderRecord
  import opened LeaderPush
  import opened LeaderScan
  import opened LeaderRuns
  import opened LeaderPushRuns
  import opened LeaderPromises

  // ---- what it means to lose a row ------------------------------------------------------------------

  /** Row `k` of the running journal lies before the scan's place or before a cursor the client has. */
  ghost predicate PassedOver(s: Sys, k: nat) {
    || (s.push.ctl.position.Some? && k <= s.push.ctl.position.value)
    || Behind(s.push.offered, (s.j.gen, k))
  }

  /** It waits for the next push: counted, kept back with the echoes, or in a gap still to be stated. */
  ghost predicate Expected(s: Sys, k: nat) {
    || (s.j.gen, k) in s.push.over + s.push.kept
    || (s.push.ctl.gap.Some? && k <= s.push.ctl.gap.value)
  }

  ghost predicate Lost(s: Sys, k: nat) {
    0 < k && PassedOver(s, k) && (s.j.gen, k) !in Told(s) && !Expected(s, k)
  }

  /** Row `k` is owed and evicted, no gap that waits names it, and the session's scan has not moved. */
  predicate Unnoticed(ctl: Controller, m: State, k: nat)
    requires Valid(m)
  {
    && ctl.position.None?
    && Max(ctl.floor, if ctl.gap.Some? then ctl.gap.value else 0) < k <= m.latest - |m.rows|
  }

  /** A round of the controller gets past its page while `p` is unnoticed, and nobody was told of it. */
  ghost predicate StepsOver(s: Sys, step: Step, p: Place)
    requires Valid(s.j.mem)
  {
    && step.Pushing? && p.0 == s.j.gen && p !in Told(s)
    && var ctl := Raised(s.push.ctl, s.record, s.j.mem);
    && Unnoticed(ctl, s.j.mem, p.1)
    && GetsPast(ScanOf(ctl, s.j.mem), step.own, step.handover)
  }

  // ---- cursors and the floor are told of ------------------------------------------------------------

  /** Each row up to `n` was told of, or lies before a cursor some push handed over. */
  ghost predicate Accounted(s: Sys, g: nat, n: nat) {
    forall k | 0 < k <= n :: (g, k) in Told(s) || Behind(s.push.offered, (g, k))
  }

  ghost predicate HeldAreAccounted(s: Sys) { forall t <- s.held :: Accounted(s, t.0, t.1.position) }

  ghost predicate GapIsGone(s: Sys) {
    s.push.ctl.gap.Some? ==> s.push.ctl.gap.value + |s.j.mem.rows| <= s.j.mem.latest
  }

  ghost predicate ToldInv(s: Sys) {
    HeldAreAccounted(s) && Accounted(s, s.j.gen, s.push.ctl.floor) && GapIsGone(s)
  }

  ghost predicate TellsMore(s: Sys, t: Sys) { Told(s) <= Told(t) && s.push.offered <= t.push.offered }

  lemma AccountedStays(s: Sys, t: Sys, g: nat, n: nat)
    requires Accounted(s, g, n) && TellsMore(s, t)
    ensures Accounted(t, g, n)
  {
    hide Told, Behind;
    forall k | 0 < k <= n ensures (g, k) in Told(t) || Behind(t.push.offered, (g, k)) {
      if (g, k) !in Told(s) { StillBehind(s.push.offered, t.push.offered, (g, k)); }
    }
  }

  lemma HeldStay(s: Sys, t: Sys)
    requires HeldAreAccounted(s) && TellsMore(s, t) && t.held == s.held
    ensures HeldAreAccounted(t)
  {
    hide Accounted, TellsMore;
    forall x | x in t.held ensures Accounted(t, x.0, x.1.position) { AccountedStays(s, t, x.0, x.1.position); }
  }

  lemma OneMoreIsAccounted(s: Sys, t: Sys, token: (nat, Cursor))
    requires HeldAreAccounted(s) && TellsMore(s, t) && t.held == s.held + {token}
    requires Accounted(t, token.0, token.1.position)
    ensures HeldAreAccounted(t)
  {
    hide Accounted, TellsMore;
    forall x | x in t.held ensures Accounted(t, x.0, x.1.position) {
      if x in s.held { AccountedStays(s, t, x.0, x.1.position); }
    }
  }

  lemma InitIsTold(project: seq<Unit>, epoch: Epoch)
    ensures ToldInv(Init(project, epoch))
  {}

  /** A step that says nothing and leaves controller and retained rows alone. */
  lemma ToldStays(s: Sys, t: Sys)
    requires ToldInv(s) && TellsMore(s, t) && t.held == s.held && t.push.ctl == s.push.ctl && t.j.gen == s.j.gen
    requires s.j.mem.latest - |s.j.mem.rows| <= t.j.mem.latest - |t.j.mem.rows|
    ensures ToldInv(t)
  {
    hide HeldAreAccounted, Accounted, TellsMore;
    HeldStay(s, t);
    AccountedStays(s, t, s.j.gen, s.push.ctl.floor);
  }

  lemma AppendOnlyEvicts(j: J.Sys, append: J.Step)
    requires append.Append?
    ensures var k := J.Next(j, append);
      j.mem.latest - |j.mem.rows| <= k.mem.latest - |k.mem.rows|
  {
    hide Evict, NewRow;
    EvictKeeps(j.mem.rows + [NewRow(j.mem, append.event, append.now)], append.now.ms - MIN_RETENTION_MS);
  }

  lemma SilentStepsKeepTold(s: Sys, step: Step)
    requires Inv(s) && ToldInv(s) && Can(s, step)
    requires step.Appending? || step.Issuing? || step.Delivering? || step.Reacting?
    ensures ToldInv(Next(s, step))
  {
    hide J.Inv, J.Allowed, J.Next, ToldInv, Told, Inv, Next;
    InvJournal(s);
    LittleChanges(s, step);
    EvictsAtMost(s, step);
    ToldOfParts(s, Next(s, step));
    ToldStays(s, Next(s, step));
  }

  lemma EvictsAtMost(s: Sys, step: Step)
    requires J.Inv(s.j) && Can(s, step)
    requires step.Appending? || step.Issuing? || step.Delivering? || step.Reacting?
    ensures var t := Next(s, step);
      s.j.mem.latest - |s.j.mem.rows| <= t.j.mem.latest - |t.j.mem.rows|
  {
    hide J.Inv, J.Allowed, J.Next;
    if step.Appending? { AppendOnlyEvicts(s.j, step.append); }
  }

  lemma ToldOfParts(s: Sys, t: Sys)
    requires s.read == t.read && s.stated == t.stated && s.notOwed == t.notOwed && s.push.pushed == t.push.pushed
    requires s.push.omitted == t.push.omitted && s.push.echoed == t.push.echoed && s.push.offered == t.push.offered
    ensures Told(s) == Told(t) && TellsMore(s, t)
  {}

  lemma AckingKeepsTold(s: Sys, step: Step)
    requires Inv(s) && ToldInv(s) && Can(s, step) && step.Acking?
    ensures ToldInv(Next(s, step))
  {
    hide J.Inv, Told, ControllerInv, LeftOutInv, HeldAreCovered, Next, HeldAreAccounted, Accounted, GapIsGone, TellsMore;
    HeldIsOurs(s, step.token);
    AckStep(s, step);
    ToldOfParts(s, Next(s, step));
    ToldStays(s, Next(s, step));
  }

  lemma ReadingKeepsTold(s: Sys, step: Step)
    requires Inv(s) && ToldInv(s) && Can(s, step) && step.Reading? && J.Trustworthy(s.j)
    ensures ToldInv(Next(s, step))
  {
    hide ToldInv, AfterRead, ControllerInv, LeftOutInv;
    var token := if step.from.Some? then step.from.value else (s.memGen, s.record.acked.cursor);
    assert token in s.held && J.MintedBy(s.j, token.1, token.0);
    J.ReadMeans(s.j, token.1, token.0, step.limit);
    var r := Read(s.j.mem, Some(Decoded(token.1)), step.limit);
    hide Read, J.Trustworthy, HeldAreCovered;
    if r.Page? { PageIsTold(s, token, r); }
    if r.TooOld? {
      GapFacts(s.j, token.1, step.limit);
      GapIsTold(s, token, r);
    }
  }

  lemma PageIsTold(s: Sys, token: (nat, Cursor), r: ReadResult)
    requires ToldInv(s) && token in s.held && r.Page?
    requires J.MintedBy(s.j, token.1, token.0) && J.Replays(s.j, token.1, token.0, r)
    ensures ToldInv(AfterRead(s, token, r))
  {
    hide Behind;
    var t := AfterRead(s, token, r);
    assert Accounted(t, token.0, r.next.position) by {
      AccountedStays(s, t, token.0, token.1.position);
    }
    hide Told, HeldAreAccounted, Accounted, J.Replays, RowsBetween;
    OneMoreIsAccounted(s, t, (token.0, r.next));
    AccountedStays(s, t, s.j.gen, s.push.ctl.floor);
  }

  lemma GapIsTold(s: Sys, token: (nat, Cursor), r: ReadResult)
    requires ToldInv(s) && token in s.held && r.TooOld? && token.0 <= s.j.gen
    ensures ToldInv(AfterRead(s, token, r))
  {
    hide Behind;
    var t := AfterRead(s, token, r);
    assert Accounted(t, s.j.gen, r.resume.position) by {
      AccountedStays(s, t, token.0, token.1.position);
      forall k | 0 < k <= r.resume.position ensures (s.j.gen, k) in Told(t) || Behind(t.push.offered, (s.j.gen, k)) {
        if !(token.0 == s.j.gen && k <= token.1.position) {
          assert (s.j.gen, k) in GapBetween(s.j, token.0, token.1.position, r.resume.position);
        }
      }
    }
    hide Told, HeldAreAccounted, Accounted, GapBetween;
    OneMoreIsAccounted(s, t, (s.j.gen, r.resume));
    AccountedStays(s, t, s.j.gen, s.push.ctl.floor);
  }

  /** The place the record says is owed after. */
  lemma OwedIsAccounted(s: Sys)
    requires J.Inv(s.j) && J.Trustworthy(s.j) && HeldAreCovered(s) && Anchored(s, s.record, s.memGen)
    requires HeldAreAccounted(s)
    ensures Accounted(s, s.j.gen, Owed(s.record, s.j.mem))
  {
    var c := s.record.acked.cursor;
    assert (s.memGen, c) in s.held && J.MintedBy(s.j, c, s.memGen) && Accounted(s, s.memGen, c.position);
    SameEpochSameCreation(s.j, c, s.memGen);
    hide J.Inv, HeldAreCovered, HeldAreAccounted, Told, Behind, J.MintedBy;
  }

  lemma StartedIsTold(s: Sys)
    requires J.Inv(s.j) && J.Trustworthy(s.j) && HeldAreCovered(s) && Anchored(s, s.record, s.memGen)
    requires HeldAreAccounted(s)
    ensures Valid(s.j.mem) && ToldInv(Started(s))
  {
    hide J.Inv, J.Trustworthy, J.SuffixOf, InOrder, Told, HeldAreCovered, HeldAreAccounted, Owed, J.Current, Behind;
    OwedIsAccounted(s);
    Shape(s.j);
    FirstIsLatestMinusKept(s.j.mem);
    ToldOfParts(s, Started(s));
    HeldStay(s, Started(s));
    AccountedStays(s, Started(s), s.j.gen, Owed(s.record, s.j.mem));
  }

  lemma RestartingKeepsTold(s: Sys, step: Step)
    requires Inv(s) && ToldInv(s) && Can(s, step) && step.Restarting? && J.Trustworthy(Next(s, step).j)
    ensures ToldInv(Next(s, step))
  {
    hide J.Allowed, J.Next, J.Inv, ControllerInv, LeftOutInv, J.Trustworthy, Resumed, J.Grows, J.MintedBy, Accounted,
         Told, Behind, ToldInv, HeldAreAccounted;
    var j := J.Next(s.j, step.restart);
    J.NextKeepsInv(s.j, step.restart);
    J.NextGrows(s.j, step.restart);
    J.InvMeansValid(j);
    var t := Reopened(s, j, step.damaged, step.saved);
    ReopenedIsHeld(s, t, j, step);
    ReopenedIsTold(s, t, j, step);
    StartedIsTold(t);
  }

  lemma ReopenedIsTold(s: Sys, t: Sys, j: J.Sys, step: Step)
    requires ToldInv(s) && step.Restarting? && Valid(j.mem) && t == Reopened(s, j, step.damaged, step.saved)
    ensures HeldAreAccounted(t)
  {
    hide Behind;
    assert TellsMore(s, t);
    if s.file.Holds? && !step.damaged {
      hide Told, Accounted;
      HeldStay(s, t);
    } else {
      assert Accounted(t, j.gen, j.mem.latest);
      hide Told, Accounted, HeldAreAccounted, TellsMore;
      OneMoreIsAccounted(s, t, (j.gen, CursorAt(j.mem, j.mem.latest)));
    }
  }

  lemma ReopenedIsHeld(s: Sys, t: Sys, j: J.Sys, step: Step)
    requires Inv(s) && step.Restarting? && J.Grows(s.j, j) && J.Inv(j) && Valid(j.mem)
    requires t == Reopened(s, j, step.damaged, step.saved)
    ensures HeldAreCovered(t) && Anchored(t, t.record, t.memGen)
  {
    hide ControllerInv, LeftOutInv, J.Inv;
    if s.file.Holds? && !step.damaged {
      StillCovered(s, t);
    } else {
      LatestIsMinted(j);
      hide J.Grows;
      OneMoreHeld(s, t, (j.gen, CursorAt(j.mem, j.mem.latest)));
    }
  }

  lemma LatestIsMinted(j: J.Sys)
    requires J.Inv(j)
    ensures J.MintedBy(j, CursorAt(j.mem, j.mem.latest), j.gen)
  {
    hide J.FileInv, J.MintInv;
    ResumeIsMinted(j, CursorAt(j.mem, j.mem.latest));
  }

  lemma RaisedIsTold(s: Sys)
    requires Inv(s) && ToldInv(s) && J.Trustworthy(s.j)
    ensures ToldInv(Raising(s)) && Told(Raising(s)) == Told(s)
  {
    hide J.Inv, J.Trustworthy, Told, HeldAreCovered, ControllerInv, LeftOutInv, HeldAreAccounted, Accounted, TellsMore, Owed;
    OwedIsAccounted(s);
    ToldOfParts(s, Raising(s));
    HeldStay(s, Raising(s));
    AccountedStays(s, Raising(s), s.j.gen, s.push.ctl.floor);
    AccountedStays(s, Raising(s), s.j.gen, Owed(s.record, s.j.mem));
  }

  /** A push hands over the cursor before which it leaves everything. */
  lemma ScanKeepsTold(s: Sys, own: set<seq<Unit>>, h: Handover, scan: Scan)
    requires ToldInv(s)
    requires scan.Passed? ==> scan.ctl.floor == s.push.ctl.floor
                              && (scan.ctl.gap == s.push.ctl.gap
                                  || (scan.ctl.gap.Some? && scan.ctl.gap.value + |s.j.mem.rows| <= s.j.mem.latest))
    ensures ToldInv(AfterScan(s, own, h, scan))
  {
    hide HeldAreAccounted, Accounted, Places, Handed, KeptBack, Recovered, Told, Behind;
    var t := AfterScan(s, own, h, scan);
    ScanTellsMore(s, own, h, scan);
    if t.held == s.held {
      HeldStay(s, t);
    } else {
      var token := (s.j.gen, scan.dispatch.next);
      CursorIsAccounted(t, token);
      OneMoreIsAccounted(s, t, token);
    }
    AccountedStays(s, t, s.j.gen, s.push.ctl.floor);
  }

  lemma ScanTellsMore(s: Sys, own: set<seq<Unit>>, h: Handover, scan: Scan)
    ensures TellsMore(s, AfterScan(s, own, h, scan))
  {
    hide Places, Handed, KeptBack, Recovered;
  }

  lemma CursorIsAccounted(t: Sys, token: (nat, Cursor))
    requires token in t.push.offered
    ensures Accounted(t, token.0, token.1.position)
  {
    hide Told, Behind;
    forall k | 0 < k <= token.1.position ensures Behind(t.push.offered, (token.0, k)) {
      BehindToken(t.push.offered, token, (token.0, k));
    }
  }

  lemma PassingGap(s: Sys)
    requires Inv(s) && Valid(s.j.mem) && ScanOf(s.push.ctl, s.j.mem).Passed?
    ensures var ctl := ScanOf(s.push.ctl, s.j.mem).ctl;
      && ctl.floor == s.push.ctl.floor
      && (ctl.gap == s.push.ctl.gap || (ctl.gap.Some? && ctl.gap.value + |s.j.mem.rows| <= s.j.mem.latest))
  {
    hide Inv, ScanOf, ScanPage, Exactly, J.Inv, InOrder, Increasing;
    InvJournal(s);
    var n := ScanReads(s.j, s.push.ctl);
    if Start(s.push.ctl, s.j.mem) >= |J.Current(s.j)| - |s.j.mem.rows| {
      PageIsSplit(s.push.ctl, s.j.mem, J.Current(s.j), Start(s.push.ctl, s.j.mem), n);
    }
  }

  lemma PushingKeepsTold(s: Sys, step: Step)
    requires Inv(s) && ToldInv(s) && Can(s, step) && step.Pushing? && J.Trustworthy(s.j)
    ensures ToldInv(Next(s, step))
  {
    hide Inv, ToldInv, J.Inv, J.Trustworthy, AfterScan, ScanOf, GetsPast, Told, Looking, Raising;
    InvJournal(s);
    RaisedKeepsInv(s);
    RaisedIsTold(s);
    LookingKeepsInv(s);
    LookingIsTold(s);
    SameScan(s);
    var scan := ScanOf(Raising(s).push.ctl, s.j.mem);
    if scan.Passed? { PassingGap(Looking(s)); }
    ScanKeepsTold(Looking(s), step.own, step.handover, scan);
  }

  lemma NextKeepsTold(s: Sys, step: Step)
    requires Inv(s) && ToldInv(s) && Can(s, step) && J.Trustworthy(s.j) && J.Trustworthy(Next(s, step).j)
    ensures ToldInv(Next(s, step))
  {
    hide Inv, ToldInv, J.Trustworthy, J.Inv;
    InvJournal(s);
    match step
    case Reading(_, _) => ReadingKeepsTold(s, step);
    case Acking(_, _) => AckingKeepsTold(s, step);
    case Restarting(_, _, _) => RestartingKeepsTold(s, step);
    case Starting => StartingKeepsTold(s);
    case Pushing(_, _) => PushingKeepsTold(s, step);
    case _ => SilentStepsKeepTold(s, step);
  }

  lemma StartingKeepsTold(s: Sys)
    requires Inv(s) && ToldInv(s) && J.Trustworthy(s.j)
    ensures Valid(s.j.mem) && ToldInv(Started(s))
  {
    hide J.Inv, J.Trustworthy, HeldAreCovered, HeldAreAccounted, ControllerInv, LeftOutInv;
    StartedIsTold(s);
  }

  lemma {:induction false} RunKeepsTold(s: Sys, steps: seq<Step>)
    requires Inv(s) && ToldInv(s) && CanAll(s, steps) && J.Trustworthy(Run(s, steps).j)
    ensures Inv(Run(s, steps)) && ToldInv(Run(s, steps))
    decreases |steps|
  {
    hide HeldAreCovered, Anchored, J.Grows, Next, Can, J.Inv, J.Trustworthy, ToldInv;
    if steps != [] {
      JournalStays(s, steps[0]);
      var t := Next(s, steps[0]);
      TrustAlong(s, steps);
      NextKeepsInv(s, steps[0]);
      NextKeepsTold(s, steps[0]);
      RunKeepsTold(t, steps[1..]);
    }
  }

  /** If the journal is trustworthy after a run, it was before it and after its first step. */
  lemma TrustAlong(s: Sys, steps: seq<Step>)
    requires J.Inv(s.j) && CanAll(s, steps) && steps != [] && J.Trustworthy(Run(s, steps).j)
    ensures J.Trustworthy(s.j) && J.Trustworthy(Next(s, steps[0]).j)
  {
    hide J.Grows, Next, Can, J.Inv, J.Trustworthy;
    JournalStays(s, steps[0]);
    var t := Next(s, steps[0]);
    GrowsToTheEnd(t, steps[1..]);
    J.GrowsOn(s.j, t.j, Run(s, steps).j);
    LeaderRuns.TrustGoesBack(s.j, Run(s, steps).j);
    LeaderRuns.TrustGoesBack(t.j, Run(s, steps).j);
  }

  // ---- what a round loses ---------------------------------------------------------------------------

  /** What a round that gets past the page it read from place `at` does to row `k`. */
  ghost predicate MovedAt(s: Sys, t: Sys, at: nat, k: nat) {
    var p := (s.j.gen, k);
    && t.j == s.j && Told(s) <= Told(t)
    && (PassedOver(s, k) || k <= at ==> PassedOver(t, k))
    && (at < k && s.push.ctl.floor < k && PassedOver(t, k) && !Behind(s.push.offered, p) ==> p in Told(t) || Expected(t, k))
    && (Expected(s, k) ==> p in Told(t) || Expected(t, k))
    && (k <= at && !Expected(s, k) && p !in Told(s) ==> p !in Told(t) && !Expected(t, k))
  }

  ghost predicate NewlyLost(s: Sys, t: Sys, k: nat) { Lost(t, k) && !Lost(s, k) }

  ghost predicate LostThere(s: Sys, k: nat)
    requires Valid(s.j.mem)
  {
    && Unnoticed(s.push.ctl, s.j.mem, k) && (s.j.gen, k) !in Told(s)
    && !Behind(s.push.offered, (s.j.gen, k))
  }

  lemma MovingLoses(s: Sys, t: Sys, at: nat, k: nat)
    requires Inv(s) && ToldInv(s) && Valid(s.j.mem) && at == Start(s.push.ctl, s.j.mem) && MovedAt(s, t, at, k)
    ensures NewlyLost(s, t, k) <==> LostThere(s, k)
  {
    hide J.Inv, HeldAreCovered, LeftOutInv, FloorInv, PlaceInv, HeldAreAccounted, Told, Behind;
    if s.push.ctl.position.None? { NothingWaits(s); }
  }

  lemma WaitsBehindThePlace(s: Sys, p: Place)
    requires CountInv(s) && p in s.push.over + s.push.kept
    ensures s.push.ctl.position.Some?
  {
    assert p.0 == s.j.gen;
  }

  lemma NothingWaits(s: Sys)
    requires CountInv(s) && s.push.ctl.position.None?
    ensures s.push.over + s.push.kept == {}
  {
    if p :| p in s.push.over + s.push.kept { WaitsBehindThePlace(s, p); }
  }

  lemma WaitingMoves(
    s: Sys, t: Sys, own: set<seq<Unit>>, at: nat, c: nat, to: nat, echoes: set<Place>, before: set<Place>, after: set<Place>,
    k: nat)
    requires Parts(s.j, own, s.push.ctl.floor, at, c, to, {}, echoes, before, after)
    requires s.push.ctl.position.Some? ==> s.push.ctl.position.value <= at
    requires OnlyWaiting(s, t) && t.push.over == s.push.over + before + after && t.push.kept == s.push.kept + echoes
    requires t.push.ctl.position == Some(to) && t.push.ctl.gap == s.push.ctl.gap
    ensures MovedAt(s, t, at, k)
  {
    hide IsRoutine, IsEcho, IsPushable, Behind;
    ToldOfParts(s, t);
    hide Told;
  }

  lemma HandingMoves(
    s: Sys, own: set<seq<Unit>>, h: Handover, at: nat, d: Dispatch, through: nat, before: seq<Row>, after: seq<Row>, k: nat)
    requires d.gap == s.push.ctl.gap && (s.push.ctl.position.Some? ==> s.push.ctl.position.value <= at) && 0 < k
    requires Parts(s.j, own, s.push.ctl.floor, at, d.next.position, through, Places(s.j.gen, Handed(d.events, own)),
                   Places(s.j.gen, KeptBack(d.events, own)), Places(s.j.gen, before), Places(s.j.gen, after))
    ensures MovedAt(s, HandedOver(s, own, h, d, through, before, after), at, k)
  {
    hide IsRoutine, IsEcho, IsPushable, Places, Handed, KeptBack, Behind;
    BehindOneMore(s.push.offered, (s.j.gen, d.next), (s.j.gen, k));
  }

  lemma BehindOneMore(offered: set<(nat, Cursor)>, token: (nat, Cursor), p: Place)
    ensures Behind(offered + {token}, p) <==> Behind(offered, p) || (token.0 == p.0 && p.1 <= token.1.position)
  {
    if token.0 == p.0 && p.1 <= token.1.position { BehindToken(offered + {token}, token, p); }
    else if Behind(offered, p) { StillBehind(offered, offered + {token}, p); }
  }

  /** A scan whose place was evicted owes a gap up to what is retained, and loses nothing. */
  lemma LostPlaceLosesNothing(s: Sys, t: Sys, gone: nat, k: nat)
    requires Inv(s) && Valid(s.j.mem) && GapIsGone(s) && gone == s.j.mem.latest - |s.j.mem.rows|
    requires s.push.ctl.position.Some? && s.push.ctl.position.value < gone && OnlyWaiting(s, t)
    requires t.push.ctl == s.push.ctl.(position := Some(gone), omitted := 0, gap := Some(gone)) && t.push.kept == s.push.kept
    ensures !NewlyLost(s, t, k) && !LostThere(s, k)
  {
    hide J.Inv, HeldAreCovered, LeftOutInv, FloorInv, PlaceInv, Behind;
    ToldOfParts(s, t);
    hide Told;
  }

  lemma PassedLoses(s: Sys, own: set<seq<Unit>>, h: Handover, at: nat, n: nat, over: seq<Row>, k: nat)
    requires Inv(s) && ToldInv(s) && Valid(s.j.mem) && at == Start(s.push.ctl, s.j.mem) && at + n <= |J.Current(s.j)|
    requires Increasing(over) && Exactly(over, J.Current(s.j), Max(at, s.push.ctl.floor), at + n, false)
    requires Exactly([], J.Current(s.j), Max(at, s.push.ctl.floor), at + n, true)
    ensures var ctl := s.push.ctl.(position := Some(at + n), omitted := s.push.ctl.omitted + |over|);
      NewlyLost(s, AfterScan(s, own, h, Passed(ctl, over)), k) <==> LostThere(s, k)
  {
    hide Inv, ToldInv, AfterScan, J.Inv, Parts, Exactly, Increasing, NewlyLost, LostThere, OnlyWaiting, MovedAt, Places;
    InvJournal(s);
    PlacesCount(s.j.gen, over);
    PartsOfQuietPage(s.j, s.push.ctl.floor, at, at + n, over);
    AfterPassing(s, at + n, over);
    var ctl := s.push.ctl.(position := Some(at + n), omitted := s.push.ctl.omitted + |over|);
    PassedAnyway(s, own, h, ctl, over);
    var t := AfterScan(s, {}, Failed, Passed(ctl, over));
    var none: set<Place> := {};
    WaitingMoves(s, t, {}, at, at + n, at + n, none, Places(s.j.gen, over), none, k);
    MovingLoses(s, t, at, k);
  }

  lemma OutgoingLoses(s: Sys, own: set<seq<Unit>>, h: Handover, scan: Scan, k: nat)
    requires Inv(s) && ToldInv(s) && Valid(s.j.mem) && scan == ScanOf(s.push.ctl, s.j.mem) && scan.Outgoing?
    requires GetsPast(scan, own, h) && Start(s.push.ctl, s.j.mem) + |s.j.mem.rows| >= s.j.mem.latest && 0 < k
    ensures NewlyLost(s, AfterScan(s, own, h, scan), k) <==> LostThere(s, k)
  {
    hide Inv, ToldInv, J.Inv, Parts, ScanOf, NewlyLost, LostThere, MovedAt, Places, EchoesOnly, HandedOver, Start;
    var d := scan.dispatch;
    var at := Start(s.push.ctl, s.j.mem);
    DispatchParts(s, own);
    DispatchNamesTheGap(s);
    AtThePlace(s.push.ctl, s.j.mem);
    if HandsOver(scan, own) {
      HandingMoves(s, own, h, at, d, scan.through, scan.before, scan.after, k);
    } else {
      EchoesMove(s, own, at, d, scan.through, scan.before, scan.after, k);
    }
    MovingLoses(s, AfterScan(s, own, h, scan), at, k);
  }

  lemma AtThePlace(ctl: Controller, m: State)
    requires Valid(m)
    ensures ctl.position.Some? ==> ctl.position.value <= Start(ctl, m)
  {}

  lemma EchoesMove(
    s: Sys, own: set<seq<Unit>>, at: nat, d: Dispatch, through: nat, before: seq<Row>, after: seq<Row>, k: nat)
    requires Handed(d.events, own) == [] && s.push.ctl.gap.None?
    requires s.push.ctl.position.Some? ==> s.push.ctl.position.value <= at
    requires Parts(s.j, own, s.push.ctl.floor, at, d.next.position, through, Places(s.j.gen, Handed(d.events, own)),
                   Places(s.j.gen, KeptBack(d.events, own)), Places(s.j.gen, before), Places(s.j.gen, after))
    ensures MovedAt(s, EchoesOnly(s, own, d, through, before, after), at, k)
  {
    hide Parts, MovedAt, KeptBack;
    assert Places(s.j.gen, Handed(d.events, own)) == {};
    hide Places, Handed;
    WaitingMoves(s, EchoesOnly(s, own, d, through, before, after), own, at, d.next.position, through,
                 Places(s.j.gen, KeptBack(d.events, own)), Places(s.j.gen, before), Places(s.j.gen, after), k);
  }

  lemma DispatchNamesTheGap(s: Sys)
    requires Inv(s) && Valid(s.j.mem) && ScanOf(s.push.ctl, s.j.mem).Outgoing?
    ensures ScanOf(s.push.ctl, s.j.mem).dispatch.gap == s.push.ctl.gap
  {
    hide Inv, ScanOf, ScanPage, Exactly, J.Inv, InOrder, Increasing;
    InvJournal(s);
    var n := ScanReads(s.j, s.push.ctl);
    PageIsSplit(s.push.ctl, s.j.mem, J.Current(s.j), Start(s.push.ctl, s.j.mem), n);
  }

  lemma ScanLoses(s: Sys, own: set<seq<Unit>>, h: Handover, k: nat)
    requires Inv(s) && ToldInv(s) && Valid(s.j.mem) && GetsPast(ScanOf(s.push.ctl, s.j.mem), own, h) && 0 < k
    ensures NewlyLost(s, AfterScan(s, own, h, ScanOf(s.push.ctl, s.j.mem)), k) <==> LostThere(s, k)
  {
    hide Inv, ToldInv, AfterScan, ScanOf, ScanPage, J.Inv, InOrder, NewlyLost, LostThere, Exactly, Increasing;
    InvJournal(s);
    var ctl := s.push.ctl;
    var n := ScanReads(s.j, ctl);
    var at := Start(ctl, s.j.mem);
    var gone := |J.Current(s.j)| - |s.j.mem.rows|;
    if at < gone {
      LostPlaceLoses(s, own, h, gone, k);
    } else {
      PageIsSplit(ctl, s.j.mem, J.Current(s.j), at, n);
      match ScanOf(ctl, s.j.mem)
      case Passed(c, over) => PassedLoses(s, own, h, at, n, over, k);
      case Outgoing(_, _, _, _) => OutgoingLoses(s, own, h, ScanOf(ctl, s.j.mem), k);
    }
  }

  lemma LostPlaceLoses(s: Sys, own: set<seq<Unit>>, h: Handover, gone: nat, k: nat)
    requires Inv(s) && ToldInv(s) && Valid(s.j.mem) && gone == s.j.mem.latest - |s.j.mem.rows| > Start(s.push.ctl, s.j.mem)
    ensures var ctl := s.push.ctl.(position := Some(gone), omitted := 0, gap := Some(gone));
      NewlyLost(s, AfterScan(s, own, h, Passed(ctl, [])), k) <==> LostThere(s, k)
  {
    hide Inv, NewlyLost, LostThere, Told, HeldAreAccounted, Accounted;
    var ctl := s.push.ctl.(position := Some(gone), omitted := 0, gap := Some(gone));
    LostPlaceLosesNothing(s, AfterScan(s, own, h, Passed(ctl, [])), gone, k);
  }

  lemma RoundLoses(s: Sys, step: Step, t: Sys, k: nat)
    requires Inv(s) && ToldInv(s) && J.Trustworthy(s.j) && Can(s, step) && step.Pushing? && t == Next(s, step) && 0 < k
    ensures Valid(s.j.mem)
    ensures NewlyLost(s, t, k) <==> StepsOver(s, step, (s.j.gen, k)) && !Behind(s.push.offered, (s.j.gen, k))
  {
    hide Inv, ToldInv, J.Inv, J.Trustworthy, AfterScan, ScanOf, GetsPast, Told, Behind, Raised, HeldAreAccounted, SteppedOver,
         Unnoticed;
    InvJournal(s);
    RaisedKeepsInv(s);
    RaisedIsTold(s);
    LookingKeepsInv(s);
    LookingIsTold(s);
    OnlyTheFloorRises(s);
    var scan := ScanOf(Raising(s).push.ctl, s.j.mem);
    if GetsPast(scan, step.own, step.handover) {
      ScanLoses(Looking(s), step.own, step.handover, k);
      SameLosses(s, Looking(s), k);
    } else {
      SameLosses(s, Raising(s), k);
    }
  }

  /** In every reachable state, a round loses a row of the running journal, for good unless a later pull
      names it, if and only if it gets past its page while the row is owed, evicted and unnoticed, and
      nobody was told of it. */
  lemma RoundLosesIff(project: seq<Unit>, epoch: Epoch, steps: seq<Step>, s: Sys, step: Step, k: nat)
    requires J.Inv(Init(project, epoch).j) && CanAll(Init(project, epoch), steps) && s == Run(Init(project, epoch), steps)
    requires J.Inv(s.j) && J.Trustworthy(s.j) && Can(s, step) && step.Pushing? && 0 < k
    ensures Valid(s.j.mem)
    ensures NewlyLost(s, Next(s, step), k) <==>
      StepsOver(s, step, (s.j.gen, k)) && !Behind(s.push.offered, (s.j.gen, k))
  {
    hide Inv, ToldInv, J.Inv, J.Trustworthy, Next, Run, CanAll, NewlyLost, StepsOver, Behind;
    InitInv(project, epoch);
    InitIsTold(project, epoch);
    RunKeepsTold(Init(project, epoch), steps);
    RoundLoses(s, step, Next(s, step), k);
  }

  lemma LookingIsTold(s: Sys)
    requires Valid(s.j.mem) && ToldInv(Raising(s))
    ensures ToldInv(Looking(s)) && Told(Looking(s)) == Told(s)
  {
    hide HeldAreAccounted, Accounted, SteppedOver, Raised;
    ToldOfParts(Raising(s), Looking(s));
    ToldOfParts(s, Looking(s));
    HeldStay(Raising(s), Looking(s));
    AccountedStays(Raising(s), Looking(s), s.j.gen, Raising(s).push.ctl.floor);
  }

  lemma OnlyTheFloorRises(s: Sys)
    requires Valid(s.j.mem)
    ensures forall t <- {Raising(s), Looking(s)} ::
      && t == s.(push := s.push.(ctl := t.push.ctl, skipped := t.push.skipped))
      && t.push.ctl == s.push.ctl.(floor := t.push.ctl.floor)
  {
    hide SteppedOver, Told;
  }

  lemma SameLosses(s: Sys, t: Sys, k: nat)
    requires t == s.(push := s.push.(ctl := t.push.ctl, skipped := t.push.skipped))
    requires t.push.ctl == s.push.ctl.(floor := t.push.ctl.floor)
    ensures Lost(s, k) <==> Lost(t, k)
  {
    hide Behind;
    ToldOfParts(s, t);
    hide Told;
  }

  // ---- nothing else passes a row --------------------------------------------------------------------

  /** No other step moves past a row, and after one that begins a session no row is unnoticed. */
  lemma OnlyRoundsPass(s: Sys, step: Step, t: Sys)
    requires Inv(s) && Can(s, step) && !step.Pushing? && t == Next(s, step)
    ensures Valid(t.j.mem) && forall k | 0 < k && PassedOver(t, k) :: t.j.gen == s.j.gen && PassedOver(s, k)
    ensures step.Starting? || step.Restarting? ==> forall k :: !Unnoticed(t.push.ctl, t.j.mem, k)
  {
    hide Inv, J.Inv, J.Next, J.Allowed, Unnoticed, J.Grows, Next, Behind, Can;
    InvJournal(s);
    JournalStays(s, step);
    Shape(t.j);
    OthersKeepThePlace(s, step);
    forall k | 0 < k && PassedOver(t, k) ensures t.j.gen == s.j.gen && PassedOver(s, k) {
      if t.j.gen != s.j.gen { NotYetOffered(s, t.j.gen, k); }
    }
    if step.Starting? || step.Restarting? {
      BeginsResumed(s, step);
      forall k ensures !Unnoticed(t.push.ctl, t.j.mem, k) { ResumedNotices(t.record, t.j.mem, k); }
    }
  }

  lemma OthersKeepThePlace(s: Sys, step: Step)
    requires J.Inv(s.j) && Can(s, step) && !step.Pushing?
    ensures var t := Next(s, step);
      && t.push.offered == s.push.offered && s.j.gen <= t.j.gen
      && (t.push.ctl.position == s.push.ctl.position || t.push.ctl.position.None?)
      && (t.j.gen != s.j.gen ==> t.push.ctl.position.None?)
  {
    hide J.Inv, J.Allowed, Read, AckOf, GapBetween, Begin, RowsBetween, Valid, Evict;
  }

  lemma BeginsResumed(s: Sys, step: Step)
    requires J.Inv(s.j) && Can(s, step) && (step.Starting? || step.Restarting?)
    ensures var t := Next(s, step); Valid(t.j.mem) && t.push.ctl == Resumed(t.record, t.j.mem)
  {
    hide J.Inv, J.Allowed, J.Next, J.Grows, Resumed;
    JournalStays(s, step);
    J.InvMeansValid(Next(s, step).j);
  }

  /** A cursor of a later creation is not there yet. */
  lemma NotYetOffered(s: Sys, g: nat, k: nat)
    requires Inv(s) && g > s.j.gen
    ensures !Behind(s.push.offered, (g, k))
  {
    hide J.Inv, ControllerInv, LeftOutKinds, Covered, J.MintedBy;
    forall t <- s.push.offered ensures t.0 <= s.j.gen {
      assert t in s.held;
      MintedInTime(s.j, t.1, t.0);
    }
  }

  lemma ResumedNotices(r: Record, m: State, k: nat)
    requires Valid(m)
    ensures !Unnoticed(Resumed(r, m), m, k)
  {
    hide Valid;
    FirstIsLatestMinusKept(m);
  }

  // ---- over whole runs ------------------------------------------------------------------------------

  /** The rows the leader was handed, or was told are gone, or is not owed. */
  function Heard(s: Sys): set<Place> { s.read + s.stated + s.notOwed + s.push.pushed }

  /** What one step adds: the rows of its page, push or gap, or those a record begun at the head leaves out. */
  ghost function Settles(s: Sys, step: Step): set<Place>
    requires J.Inv(s.j) && Can(s, step)
  {
    J.InvMeansValid(s.j);
    match step
    case Reading(from, limit) =>
      var token := if from.Some? then from.value else (s.memGen, s.record.acked.cursor);
      var at := token.1.position;
      (match Read(s.j.mem, Some(Decoded(token.1)), limit)
       case Rejected(_) => {}
       case Page(events, _, _, _, _) => RowsBetween(token.0, at, at + |events|)
       case TooOld(_, _, resume) => GapBetween(s.j, token.0, at, resume.position))
    case Pushing(own, h) =>
      var scan := ScanOf(Raised(s.push.ctl, s.record, s.j.mem), s.j.mem);
      if HandsOver(scan, own) && !h.Failed? then
        Places(s.j.gen, Handed(scan.dispatch.events, own)) + Recovered(s, scan.dispatch.gap)
      else {}
    case Restarting(restart, damaged, _) =>
      var j := J.Next(s.j, restart);
      if s.file.Holds? && !damaged then {} else RowsBetween(j.gen, 0, j.mem.latest)
    case _ => {}
  }

  ghost predicate SettledIn(s: Sys, steps: seq<Step>, p: Place)
    requires J.Inv(s.j) && CanAll(s, steps)
    decreases |steps|
  {
    steps != [] && (p in Settles(s, steps[0]) || (JournalStays(s, steps[0]); SettledIn(Next(s, steps[0]), steps[1..], p)))
  }

  /** Some round steps over `p` untold, and neither that round nor a later step settles it. */
  ghost predicate PassedInSilence(s: Sys, steps: seq<Step>, p: Place)
    requires J.Inv(s.j) && CanAll(s, steps)
    decreases |steps|
  {
    steps != [] && (J.InvMeansValid(s.j); JournalStays(s, steps[0]);
      || (StepsOver(s, steps[0], p) && !SettledIn(s, steps, p))
      || PassedInSilence(Next(s, steps[0]), steps[1..], p))
  }

  lemma HeardGrows(s: Sys, step: Step)
    requires J.Inv(s.j) && Can(s, step)
    ensures Heard(Next(s, step)) == Heard(s) + Settles(s, step)
  {
    hide J.Inv, J.Allowed, J.Next, Read, AckOf, GapBetween, RowsBetween, Resumed, Begin, ScanOf, Places, Handed, KeptBack, Raised,
         SteppedOver, Recovered, GetsPast, HandsOver, Told;
    if step.Pushing? { RoundSettles(s, step); }
  }

  lemma RoundSettles(s: Sys, step: Step)
    requires J.Inv(s.j) && Can(s, step) && step.Pushing?
    ensures Heard(Next(s, step)) == Heard(s) + Settles(s, step)
  {
    hide J.Inv, GapBetween, RowsBetween, ScanOf, Places, Handed, KeptBack, Raised, SteppedOver, Told;
  }

  lemma OnlyStepsOverAreSkipped(s: Sys, step: Step, p: Place)
    requires J.Inv(s.j) && Valid(s.j.mem) && Can(s, step) && p in Next(s, step).push.skipped && p !in s.push.skipped
    ensures StepsOver(s, step, p)
  {
    hide J.Inv, J.Allowed, J.Next, Read, AckOf, GapBetween, Resumed, Begin, ScanOf, Places, Handed, KeptBack, Raised, Recovered,
         GetsPast, HandsOver;
    assert Told(Raising(s)) == Told(s) by { ToldOfParts(s, Raising(s)); }
    hide Told;
  }

  lemma {:induction false} HeardIff(s: Sys, steps: seq<Step>, p: Place)
    requires J.Inv(s.j) && CanAll(s, steps)
    ensures p in Heard(Run(s, steps)) <==> p in Heard(s) || SettledIn(s, steps, p)
    decreases |steps|
  {
    hide J.Inv, Next, Can, Settles, Heard;
    if steps != [] {
      JournalStays(s, steps[0]);
      HeardGrows(s, steps[0]);
      HeardIff(Next(s, steps[0]), steps[1..], p);
    }
  }

  lemma {:induction false} SkippedWasPassed(s: Sys, steps: seq<Step>, p: Place)
    requires J.Inv(s.j) && CanAll(s, steps) && p !in Heard(Run(s, steps))
    requires p in Run(s, steps).push.skipped && p !in s.push.skipped
    ensures PassedInSilence(s, steps, p)
    decreases |steps|
  {
    hide J.Inv, Next, Can, Settles, Heard, StepsOver;
    JournalStays(s, steps[0]);
    J.InvMeansValid(s.j);
    HeardIff(s, steps, p);
    if p in Next(s, steps[0]).push.skipped {
      OnlyStepsOverAreSkipped(s, steps[0], p);
    } else {
      SkippedWasPassed(Next(s, steps[0]), steps[1..], p);
    }
  }

  lemma {:induction false} PassedIsNotHeard(s: Sys, steps: seq<Step>, p: Place)
    requires J.Inv(s.j) && CanAll(s, steps) && PassedInSilence(s, steps, p)
    ensures p !in Heard(Run(s, steps))
    decreases |steps|
  {
    hide J.Inv, Next, Can, Settles, SettledIn;
    JournalStays(s, steps[0]);
    J.InvMeansValid(s.j);
    HeardIff(s, steps, p);
    if PassedInSilence(Next(s, steps[0]), steps[1..], p) {
      PassedIsNotHeard(Next(s, steps[0]), steps[1..], p);
    }
  }

  /** The promise to a leader that acknowledges, exactly: a significant row that is not its own doing was
      handed to it or named, except where a round stepped over it untold and nothing settled it since. */
  lemma NeverHeardIff(project: seq<Unit>, epoch: Epoch, steps: seq<Step>, t: Sys, n: nat)
    requires J.Inv(Init(project, epoch).j) && CanAll(Init(project, epoch), steps) && t == Run(Init(project, epoch), steps)
    requires J.Trustworthy(t.j) && 0 < n <= t.record.acked.through
    requires IsPushable(t.j, (t.memGen, n)) && !IsEcho(t.j, (t.memGen, n), t.push.issued)
    ensures (t.memGen, n) !in Heard(t) <==> PassedInSilence(Init(project, epoch), steps, (t.memGen, n))
  {
    hide Inv, J.Inv, J.Trustworthy, CanAll, Run, PassedInSilence;
    var s := Init(project, epoch);
    InitInv(project, epoch);
    RunKeepsInv(s, steps);
    OthersReachTheLeader(t, n);
    if (t.memGen, n) !in Heard(t) { SkippedWasPassed(s, steps, (t.memGen, n)); }
    if PassedInSilence(s, steps, (t.memGen, n)) { PassedIsNotHeard(s, steps, (t.memGen, n)); }
  }
}
