/** What pushing promises by itself: what one push hands over and counts, and that pushing reaches the
    head. */
module LeaderPushRuns {
  import opened Options
  import opened Text
  import opened JournalRows
  import opened Journal
  import J = JournalRuns
  import opened JournalFollow
  import opened LeaderRecord
  import opened LeaderPush
  import opened LeaderScan
  import opened LeaderRuns

  // ---- one push -------------------------------------------------------------------------------------

  ghost function ScanBefore(s: Sys): Scan
    requires Valid(s.j.mem)
  {
    ScanOf(Raising(s).push.ctl, s.j.mem)
  }

  /** `t` is the state after a push of `scan` that reached the leader. */
  ghost predicate IsPush(s: Sys, own: set<seq<Unit>>, h: Handover, scan: Scan, t: Sys) {
    && Inv(s) && J.Trustworthy(s.j) && own <= s.push.issued && !h.Failed?
    && Valid(s.j.mem) && scan == ScanBefore(s) && HandsOver(scan, own) && t == Next(s, Pushing(own, h))
  }

  /** The parts of a dispatched page, from a state whose scan is about to start. */
  lemma DispatchParts(t: Sys, own: set<seq<Unit>>)
    requires Inv(t) && Valid(t.j.mem) && ScanOf(t.push.ctl, t.j.mem).Outgoing?
    ensures var scan := ScanOf(t.push.ctl, t.j.mem);
      var d := scan.dispatch;
      && Parts(t.j, own, t.push.ctl.floor, Start(t.push.ctl, t.j.mem), d.next.position, scan.through,
               Places(t.j.gen, Handed(d.events, own)), Places(t.j.gen, KeptBack(d.events, own)),
               Places(t.j.gen, scan.before), Places(t.j.gen, scan.after))
      && d.omitted == t.push.ctl.omitted + |Places(t.j.gen, scan.before)|
  {
    hide Inv, ScanOf, ScanPage, Exactly, J.Inv, Parts, InOrder, Increasing;
    InvJournal(t);
    var n := ScanReads(t.j, t.push.ctl);
    var at := Start(t.push.ctl, t.j.mem);
    PageIsSplit(t.push.ctl, t.j.mem, J.Current(t.j), at, n);
    var scan := ScanOf(t.push.ctl, t.j.mem);
    PartsOfPage(t.j, own, t.push.ctl.floor, at, scan.through, scan.dispatch, scan.before, scan.after);
    PlacesCount(t.j.gen, scan.before);
  }

  lemma HandoverFields(t: Sys, own: set<seq<Unit>>, h: Handover, scan: Scan)
    requires HandsOver(scan, own) && !h.Failed?
    ensures var u := AfterScan(t, own, h, scan);
      && u.held == t.held + {(t.j.gen, scan.dispatch.next)}
      && u.push.pushed == t.push.pushed + Places(t.j.gen, Handed(scan.dispatch.events, own))
      && u.push.omitted == t.push.omitted + t.push.over + Places(t.j.gen, scan.before)
      && u.push.skipped == t.push.skipped
  {
    hide Handed, KeptBack, Places, Recovered;
  }

  lemma PartsDecide(
    j: J.Sys, own: set<seq<Unit>>, floor: nat, at: nat, c: nat, to: nat,
    handed: set<Place>, echoes: set<Place>, before: set<Place>, after: set<Place>, k: nat)
    requires Parts(j, own, floor, at, c, to, handed, echoes, before, after) && Max(at, floor) < k <= c
    ensures IsPushable(j, (j.gen, k)) && !IsEcho(j, (j.gen, k), own) <==> (j.gen, k) in handed
    ensures (j.gen, k) in handed + echoes + before
  {}

  /** The rows between the start of a scan and a cursor that are handed over. */
  ghost predicate HandsOverExactly(j: J.Sys, own: set<seq<Unit>>, from: nat, c: nat, handed: set<Place>) {
    forall k :: from < k <= c ==> (IsPushable(j, (j.gen, k)) && !IsEcho(j, (j.gen, k), own) <==> (j.gen, k) in handed)
  }

  lemma DispatchDecides(t: Sys, own: set<seq<Unit>>)
    requires Inv(t) && Valid(t.j.mem) && ScanOf(t.push.ctl, t.j.mem).Outgoing?
    ensures var d := ScanOf(t.push.ctl, t.j.mem).dispatch;
      HandsOverExactly(t.j, own, Max(Start(t.push.ctl, t.j.mem), t.push.ctl.floor), d.next.position,
                       Places(t.j.gen, Handed(d.events, own)))
  {
    hide Inv, ScanOf, Parts, J.Inv, IsPushable, IsEcho, Places, Handed, KeptBack, Start;
    DispatchParts(t, own);
    var scan := ScanOf(t.push.ctl, t.j.mem);
    var at := Start(t.push.ctl, t.j.mem);
    forall k | Max(at, t.push.ctl.floor) < k <= scan.dispatch.next.position
      ensures IsPushable(t.j, (t.j.gen, k)) && !IsEcho(t.j, (t.j.gen, k), own) <==>
              (t.j.gen, k) in Places(t.j.gen, Handed(scan.dispatch.events, own))
    {
      PartsDecide(t.j, own, t.push.ctl.floor, at, scan.dispatch.next.position, scan.through,
                  Places(t.j.gen, Handed(scan.dispatch.events, own)), Places(t.j.gen, KeptBack(scan.dispatch.events, own)),
                  Places(t.j.gen, scan.before), Places(t.j.gen, scan.after), k);
    }
  }

  lemma HandedWithin(t: Sys, own: set<seq<Unit>>)
    requires Inv(t) && Valid(t.j.mem) && ScanOf(t.push.ctl, t.j.mem).Outgoing?
    ensures var d := ScanOf(t.push.ctl, t.j.mem).dispatch;
      forall p <- Places(t.j.gen, Handed(d.events, own)) ::
        p.0 == t.j.gen && Max(Start(t.push.ctl, t.j.mem), t.push.ctl.floor) < p.1 <= d.next.position
  {
    hide Inv, ScanOf, ScanPage, Exactly, J.Inv, InOrder, Increasing, Places, Handed;
    InvJournal(t);
    var n := ScanReads(t.j, t.push.ctl);
    var at := Start(t.push.ctl, t.j.mem);
    PageIsSplit(t.push.ctl, t.j.mem, J.Current(t.j), at, n);
    var d := ScanOf(t.push.ctl, t.j.mem).dispatch;
    HandedAre(t.j.gen, d.events, own, J.Current(t.j), Max(at, t.push.ctl.floor), d.next.position);
    PlacesAre(t.j.gen, d.events, J.Current(t.j), Max(at, t.push.ctl.floor), d.next.position, true);
  }

  /** One push: between where its scan began and the cursor it names, every owed row that is significant
      and not an echo is handed over, and no other is; nor is any that was acknowledged in this journal. */
  lemma PushMeans(s: Sys, own: set<seq<Unit>>, h: Handover, scan: Scan, t: Sys)
    requires IsPush(s, own, h, scan, t)
    ensures Valid(s.j.mem) && scan.Outgoing? && (s.j.gen, scan.dispatch.next) in t.held
    ensures var handed := Places(s.j.gen, Handed(scan.dispatch.events, own));
      var ctl := Raising(s).push.ctl;
      && t.push.pushed == s.push.pushed + handed
      && HandsOverExactly(s.j, own, Max(Start(ctl, s.j.mem), ctl.floor), scan.dispatch.next.position, handed)
      && (forall p <- handed :: p.0 == s.j.gen && Max(Start(ctl, s.j.mem), ctl.floor) < p.1 <= scan.dispatch.next.position)
      && (s.record.acked.epoch == s.j.mem.epoch && s.record.acked.through <= s.j.mem.latest ==>
            forall p <- handed :: p.1 > s.record.acked.through)
  {
    hide Inv, ScanOf, J.Trustworthy, J.Inv, Places, Handed, KeptBack, Looking, Raising, Start, HandsOverExactly, AllPending,
         AfterScan;
    LookingKeepsInv(s);
    SameScan(s);
    DispatchDecides(Looking(s), own);
    HandedWithin(Looking(s), own);
    FloorIsRaised(s);
    HandoverFields(Looking(s), own, h, scan);
  }

  lemma FloorIsRaised(s: Sys)
    ensures s.record.acked.epoch == s.j.mem.epoch && s.record.acked.through <= s.j.mem.latest ==>
      Raising(s).push.ctl.floor >= s.record.acked.through
  {
    RaisedMeans(s.push.ctl, s.record, s.j.mem);
  }

  lemma OverIsRoutine(s: Sys)
    requires Inv(s) && Valid(s.j.mem)
    ensures forall p <- s.push.over :: IsRoutine(s.j, p) && p.0 == s.j.gen && p.1 <= Start(s.push.ctl, s.j.mem)
    ensures |s.push.over| == s.push.ctl.omitted
  {
    hide J.Inv, HeldAreCovered, FloorInv, PlaceInv, IsRoutine;
  }

  lemma DispatchCounts(t: Sys) returns (omitted: set<Place>)
    requires Inv(t) && Valid(t.j.mem) && ScanOf(t.push.ctl, t.j.mem).Outgoing?
    ensures var scan := ScanOf(t.push.ctl, t.j.mem);
      && omitted == t.push.over + Places(t.j.gen, scan.before) && |omitted| == scan.dispatch.omitted
      && (forall p <- omitted :: IsRoutine(t.j, p) && p.0 == t.j.gen && p.1 <= scan.dispatch.next.position)
      && (AllPending(t, Start(t.push.ctl, t.j.mem)) ==>
            CountsAll(t, omitted, t.push.ctl.floor, scan.dispatch.next.position, Known(t)))
  {
    hide Inv, ScanOf, J.Inv, IsPushable, IsRoutine, IsEcho, Places, Handed, KeptBack, Start, AllParts;
    DispatchParts(t, {});
    OverIsRoutine(t);
    var before := Places(t.j.gen, ScanOf(t.push.ctl, t.j.mem).before);
    omitted := t.push.over + before;
    assert t.push.over !! before;
    if AllPending(t, Start(t.push.ctl, t.j.mem)) { AllAreCounted(t, omitted); }
  }

  /** Every owed routine row up to `c` that is in none of `known` and that the waiting gap does not name. */
  ghost predicate CountsAll(s: Sys, omitted: set<Place>, floor: nat, c: nat, known: set<Place>) {
    forall k | floor < k <= c && IsRoutine(s.j, (s.j.gen, k)) && (s.j.gen, k) !in known
               && !(s.push.ctl.gap.Some? && k <= s.push.ctl.gap.value) :: (s.j.gen, k) in omitted
  }

  lemma AllAreCounted(t: Sys, omitted: set<Place>)
    requires Inv(t) && Valid(t.j.mem) && ScanOf(t.push.ctl, t.j.mem).Outgoing?
    requires AllPending(t, Start(t.push.ctl, t.j.mem))
    requires omitted == t.push.over + Places(t.j.gen, ScanOf(t.push.ctl, t.j.mem).before)
    ensures CountsAll(t, omitted, t.push.ctl.floor, ScanOf(t.push.ctl, t.j.mem).dispatch.next.position, Known(t))
  {
    hide Inv, ScanOf, J.Inv, IsRoutine, IsPushable, Places, Handed, KeptBack, Start, Known, Parts, PartKinds;
    var scan := ScanOf(t.push.ctl, t.j.mem);
    var at := Start(t.push.ctl, t.j.mem);
    DispatchParts(t, {});
    forall k | t.push.ctl.floor < k <= scan.dispatch.next.position && IsRoutine(t.j, (t.j.gen, k)) && (t.j.gen, k) !in Known(t)
               && !(t.push.ctl.gap.Some? && k <= t.push.ctl.gap.value)
      ensures (t.j.gen, k) in omitted
    {
      if k <= at { RoutineIsOver(t, at, k); }
      else {
        RoutineIsBefore(t.j, t.push.ctl.floor, at, scan.dispatch.next.position, scan.through,
                        Places(t.j.gen, Handed(scan.dispatch.events, {})), Places(t.j.gen, KeptBack(scan.dispatch.events, {})),
                        Places(t.j.gen, scan.before), Places(t.j.gen, scan.after), k);
      }
    }
  }

  lemma RoutineIsOver(t: Sys, at: nat, k: nat)
    requires Inv(t) && AllPending(t, at) && 0 < k <= at && IsRoutine(t.j, (t.j.gen, k)) && (t.j.gen, k) !in Known(t)
    requires !(t.push.ctl.gap.Some? && k <= t.push.ctl.gap.value)
    ensures (t.j.gen, k) in t.push.over
  {
    hide J.Inv, HeldAreCovered, ControllerInv, Known, InLog, EventAt, RoutineSuccess;
    assert Pending(t, k);
    assert forall p <- t.push.kept :: p in t.push.echoed + t.push.kept;
  }

  lemma RoutineIsBefore(
    j: J.Sys, floor: nat, at: nat, c: nat, to: nat,
    handed: set<Place>, echoes: set<Place>, before: set<Place>, after: set<Place>, k: nat)
    requires Parts(j, {}, floor, at, c, to, handed, echoes, before, after) && Max(at, floor) < k <= c
    requires IsRoutine(j, (j.gen, k))
    ensures (j.gen, k) in before
  {
    hide InLog, EventAt, RoutineSuccess, OwnDoing;
    assert (j.gen, k) in handed + echoes + before;
  }

  /** The count a push states is the number of routine rows that come to lie behind its cursor, and no
      owed one that is not known in another way is left out of it. */
  lemma OmittedCountIsExact(s: Sys, own: set<seq<Unit>>, h: Handover, scan: Scan, t: Sys) returns (omitted: set<Place>)
    requires IsPush(s, own, h, scan, t)
    ensures scan.Outgoing? && t.push.omitted == s.push.omitted + omitted && |omitted| == scan.dispatch.omitted
    ensures forall p <- omitted :: IsRoutine(s.j, p) && p.0 == s.j.gen && p.1 <= scan.dispatch.next.position
    ensures CountsAll(s, omitted, Raising(s).push.ctl.floor, scan.dispatch.next.position, Told(s) + t.push.skipped)
  {
    hide Inv, ScanOf, J.Trustworthy, J.Inv, IsRoutine, Places, Handed, KeptBack, Start, AllPending, AfterScan, Looking,
         Raising, Known, Told;
    LookingKeepsInv(s);
    SameScan(s);
    omitted := DispatchCounts(Looking(s));
    HandoverFields(Looking(s), own, h, scan);
    LookingKnows(s);
  }

  lemma LookingKnows(s: Sys)
    requires Valid(s.j.mem)
    ensures Known(Looking(s)) == Told(s) + Looking(s).push.skipped && Looking(s).push.ctl.gap == s.push.ctl.gap
  {}

  // ---- pushing reaches the head ---------------------------------------------------------------------

  /** How many rounds are left at most: one per outstanding row, one for a lost place, one for a gap. */
  ghost function Left(ctl: Controller, m: State): nat
    requires Valid(m) && Start(ctl, m) <= m.latest
  {
    var gone := m.latest - |m.rows|;
    var start := Start(ctl, m);
    m.latest - Max(start, gone) + (if start < gone then 1 else 0) + (if ctl.gap.Some? || start < gone then 1 else 0)
  }

  ghost predicate InReach(s: Sys) { Valid(s.j.mem) && Start(s.push.ctl, s.j.mem) <= s.j.mem.latest }

  lemma AlwaysInReach(s: Sys)
    requires Inv(s)
    ensures InReach(s)
  {
    Shape(s.j);
    hide J.Inv, J.SuffixOf, InOrder, HeldAreCovered, LeftOutInv, PlaceInv, CountInv;
  }

  lemma ScanMoves(s: Sys, own: set<seq<Unit>>)
    requires Inv(s) && InReach(s)
    ensures var t := AfterScan(s, own, Taken, ScanOf(s.push.ctl, s.j.mem));
      && t.j == s.j && t.push.issued == s.push.issued && InReach(t)
      && (Left(t.push.ctl, s.j.mem) < Left(s.push.ctl, s.j.mem) || Left(t.push.ctl, s.j.mem) == 0)
      && (t.push.ctl.position.None? ==> Start(t.push.ctl, s.j.mem) == 0)
  {
    hide Inv, ScanOf, ScanPage, J.Inv, InOrder, Exactly, Places, Handed, KeptBack, Increasing, Recovered;
    InvJournal(s);
    Shape(s.j);
    var n := ScanReads(s.j, s.push.ctl);
    var at := Start(s.push.ctl, s.j.mem);
    if at >= |J.Current(s.j)| - |s.j.mem.rows| {
      PageIsSplit(s.push.ctl, s.j.mem, J.Current(s.j), at, n);
    }
  }

  lemma RoundMoves(s: Sys, own: set<seq<Unit>>)
    requires Inv(s) && J.Trustworthy(s.j) && own <= s.push.issued
    ensures J.Inv(s.j) && InReach(s)
    ensures var t := Next(s, Pushing(own, Taken));
      && Inv(t) && t.j == s.j && t.push.issued == s.push.issued && InReach(t)
      && AllPending(t, Start(t.push.ctl, s.j.mem))
      && (Left(t.push.ctl, s.j.mem) < Left(s.push.ctl, s.j.mem) || Left(t.push.ctl, s.j.mem) == 0)
  {
    hide Inv, Looking, Raising, ScanOf, AfterScan, J.Trustworthy, Left, Start, AllPending, J.Inv;
    AlwaysInReach(s);
    InvJournal(s);
    RaisedKeepsInv(s);
    LookingKeepsInv(s);
    SameScan(s);
    SameLeft(s);
    var scan := ScanOf(Raising(s).push.ctl, s.j.mem);
    var t := Next(s, Pushing(own, Taken));
    if GetsPast(scan, own, Taken) {
      ScanMoves(Looking(s), own);
      assert t == AfterScan(Looking(s), own, Taken, scan);
    } else {
      ScanMoves(Raising(s), own);
      NothingHappens(Raising(s), own, Taken);
      assert t == Raising(s);
    }
    PushingKeepsInv(s, Pushing(own, Taken));
    PlacePending(t);
  }

  lemma SameLeft(s: Sys)
    requires InReach(s)
    ensures InReach(Looking(s)) && Left(Looking(s).push.ctl, s.j.mem) == Left(s.push.ctl, s.j.mem)
    ensures InReach(Raising(s)) && Left(Raising(s).push.ctl, s.j.mem) == Left(s.push.ctl, s.j.mem)
    ensures Raising(s).j == s.j && Raising(s).push.issued == s.push.issued
  {
    hide SteppedOver, Told;
  }

  lemma PlacePending(t: Sys)
    requires Inv(t) && Valid(t.j.mem) && (t.push.ctl.position.Some? || Start(t.push.ctl, t.j.mem) == 0)
    ensures AllPending(t, Start(t.push.ctl, t.j.mem))
  {
    hide J.Inv, HeldAreCovered, FloorInv, CountInv, LeftOutInv, Pending;
  }

  ghost predicate OnlyPushes(steps: seq<Step>, issued: set<seq<Unit>>) {
    forall step <- steps :: step.Pushing? && step.own <= issued && step.handover.Taken?
  }

  /** While a client takes what it is handed and nothing new happens, as many rounds as there are rows,
      and two for a lost place, leave no row outstanding: each is known, or a routine success or an echo
      that waits for the next cursor. */
  lemma {:induction false} PushesReachTheHead(s: Sys, steps: seq<Step>)
    requires Inv(s) && J.Trustworthy(s.j) && OnlyPushes(steps, s.push.issued) && steps != []
    requires InReach(s) && |steps| >= Left(s.push.ctl, s.j.mem)
    ensures J.Inv(s.j) && CanAll(s, steps)
    ensures var t := Run(s, steps);
      && Inv(t) && t.j == s.j && t.push.ctl.gap.None? && AllPending(t, |J.Current(s.j)|)
    decreases |steps|
  {
    hide Inv, J.Trustworthy, Left, Start, AllPending, J.Inv, Next;
    assert steps[0] in steps && forall step <- steps[1..] :: step in steps;
    RoundMoves(s, steps[0].own);
    assert steps[0] == Pushing(steps[0].own, Taken);
    var t := Next(s, steps[0]);
    if |steps| == 1 {
      NothingLeft(t);
    } else {
      PushesReachTheHead(t, steps[1..]);
    }
  }

  lemma NothingLeft(t: Sys)
    requires Inv(t) && InReach(t) && Left(t.push.ctl, t.j.mem) == 0 && AllPending(t, Start(t.push.ctl, t.j.mem))
    ensures t.push.ctl.gap.None? && AllPending(t, |J.Current(t.j)|)
  {
    Shape(t.j);
    hide J.Inv, J.SuffixOf, InOrder, HeldAreCovered, LeftOutInv, PlaceInv, CountInv, AllPending;
  }

  /** And what is not outstanding was not lost: a significant row that is nobody's echo was handed over
      or named. */
  lemma NothingSignificantWaits(t: Sys, k: nat)
    requires Inv(t) && t.push.ctl.gap.None? && AllPending(t, |J.Current(t.j)|) && 0 < k <= |J.Current(t.j)|
    requires IsPushable(t.j, (t.j.gen, k)) && !IsEcho(t.j, (t.j.gen, k), t.push.issued)
    ensures (t.j.gen, k) in t.read + t.push.pushed + t.stated + t.notOwed + t.push.skipped
  {
    hide J.Inv, ControllerInv, HeldAreCovered, IsEcho;
    assert Pending(t, k);
  }
}
