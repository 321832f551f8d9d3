/** At most one effect per operation key, and a settled outcome that stays settled. */
module ReceiptSafety {
  import opened Options
  import opened Receipts
  import opened ReceiptReads
  import opened ReceiptRuns

  // ---- what an append does to the file --------------------------------------------------------------

  /** The lines still tell that something happened under the key, or that something was lost. */
  ghost predicate Tells(lines: seq<Line>, k: Key) { k in Folded(lines) || Bad(lines) > 0 || Marks(lines) > 0 }

  ghost predicate Remembers(m: Store, k: Key) { k in m.receipts || m.quarantined > 0 }

  function Added(file: Text, more: Text): seq<Line> {
    if more.lines == [] then []
    else if file.tail.None? then more.lines
    else [Merged(file.tail.value, more.lines[0])] + more.lines[1..]
  }

  lemma JoinAdds(file: Text, more: Text)
    ensures Join(file, more).lines == file.lines + Added(file, more)
  {}

  lemma TellsStill(lines: seq<Line>, more: seq<Line>, k: Key)
    requires Tells(lines, k)
    ensures Tells(lines + more, k)
  {
    hide Folded, Bad, Marks;
    FoldedAdds(lines, more);
  }

  /** A complete append tells of its key, even when a torn line swallows its first piece. */
  lemma DoneTells(s: Sys, r: Receipt, w: Write)
    requires w.done
    ensures Tells(Appended(s, r, w).disk.lines, r.key)
  {
    var chunk := Chunk(s.mem, r, w.generation);
    var more := Added(s.disk, Text(chunk, None));
    JoinAdds(s.disk, Text(chunk, None));
    assert more[..|more| - 1] + [more[|more| - 1]] == more;
    assert r.key in Folded(more) || Bad(more) > 0;
    hide Folded, Bad, Marks, Chunk;
    FoldedAdds(s.disk.lines, more);
  }

  // ---- the invariant --------------------------------------------------------------------------------

  /** Whatever ran is remembered in memory and told of on disk, unless retention let go of it. */
  ghost predicate RanInv(s: Sys) {
    forall k <- s.ran :: k in s.forgotten || (Remembers(s.mem, k) && Tells(s.disk.lines, k))
  }

  ghost predicate LiveInv(s: Sys) { forall k <- s.mem.live :: LiveAs(s, k, s.mem.live[k]) }

  ghost predicate LiveAs(s: Sys, k: Key, a: Activity) {
    match a
    case Running(intent, applied) =>
      && intent.key == k && k in s.ran && k in s.mem.receipts && s.mem.receipts[k].outcome.None?
      && (k in s.forgotten + s.denied || applied || s.applied[k] == 0)
    case Settling(intent) => intent.key == k
    case Asking(req, _) => req.key == k && k !in s.mem.receipts
  }

  ghost predicate AppliedInv(s: Sys) {
    && (forall k <- s.applied :: k in s.forgotten + s.denied || s.applied[k] == 1)
    && (forall k <- s.applied :: k in s.ran)
  }

  ghost predicate Keyed(m: map<Key, Receipt>) { forall k <- m :: m[k].key == k }

  ghost predicate MemInv(s: Sys) {
    (s.mem.quarantined > 0 ==> s.mem.damageAt.Some?) && Keyed(s.mem.receipts)
  }

  /** A snapshot whose generation heads the journal covers it; no other journal will carry that id. */
  ghost predicate SnapInv(s: Sys) {
    s.snap.Some? ==>
      && s.snap.value.generation in s.gens
      && (s.disk.lines == [] ==> s.disk.tail != Some(Header(s.snap.value.generation)))
      && (s.disk.lines != [] && s.disk.lines[0] == Header(s.snap.value.generation) ==> Covers(s.disk, s.snap.value))
  }

  ghost predicate Inv(s: Sys) { RanInv(s) && LiveInv(s) && AppliedInv(s) && MemInv(s) && SnapInv(s) }

  // ---- appends --------------------------------------------------------------------------------------

  ghost predicate CanAppend(s: Sys, r: Receipt, w: Write) {
    w.generation !in s.gens && (!w.done ==> IsPart(w.part, Chunk(s.mem, r, w.generation)))
  }

  lemma AppendKeepsSnap(s: Sys, r: Receipt, w: Write)
    requires SnapInv(s) && CanAppend(s, r, w)
    ensures SnapInv(Appended(s, r, w))
  {
    hide Folded, Bad, Marks, MarkedAt;
    var more := if w.done then Text(Chunk(s.mem, r, w.generation), None) else w.part;
    JoinAdds(s.disk, more);
    if s.snap.Some? {
      var t := Appended(s, r, w);
      if s.disk.lines != [] {
        assert t.disk.lines[0] == s.disk.lines[0];
        if Covers(s.disk, s.snap.value) {
          assert t.disk.lines[..s.snap.value.offset] == s.disk.lines[..s.snap.value.offset];
        }
      }
    }
  }

  lemma AppendTells(s: Sys, r: Receipt, w: Write, k: Key)
    requires Tells(s.disk.lines, k)
    ensures Tells(Appended(s, r, w).disk.lines, k)
  {
    hide Tells, Chunk;
    var more := if w.done then Text(Chunk(s.mem, r, w.generation), None) else w.part;
    JoinAdds(s.disk, more);
    TellsStill(s.disk.lines, Added(s.disk, more), k);
  }

  lemma AppendKeepsRan(s: Sys, r: Receipt, w: Write)
    requires RanInv(s)
    ensures RanInv(Appended(s, r, w))
  {
    hide Tells, Chunk;
    forall k | k in s.ran && k !in s.forgotten ensures Tells(Appended(s, r, w).disk.lines, k) {
      AppendTells(s, r, w, k);
    }
    hide Join;
  }

  lemma SameChunk(a: Store, b: Store, r: Receipt, generation: nat)
    requires a.needsNewline == b.needsNewline && a.started == b.started
    ensures Chunk(a, r, generation) == Chunk(b, r, generation)
  {}

  lemma RecordKeepsInv(s: Sys, r: Receipt, w: Write)
    requires Inv(s) && CanAppend(s, r, w) && r.key !in s.mem.live
    ensures Inv(Recorded(s, r, w))
  {
    hide Tells, Chunk, Join, IsPart, Covers;
    var t := s.(mem := s.mem.(receipts := s.mem.receipts[r.key := r]));
    SameChunk(s.mem, t.mem, r, w.generation);
    AppendKeepsRan(t, r, w);
    AppendKeepsSnap(t, r, w);
  }

  lemma BusyKeepsInv(s: Sys, k: Key, a: Activity)
    requires Inv(s) && LiveAs(s, k, a)
    ensures Inv(Busy(s, k, a))
  {
    hide Tells, Covers;
  }

  lemma IdleKeepsInv(s: Sys, k: Key)
    requires Inv(s)
    ensures Inv(Idle(s, k))
  {
    hide Tells, Covers;
  }

  /** The effect starts only for a key whose effect never took place, or that was forgotten. */
  lemma FirstAttemptKeepsInv(s: Sys, req: Request, startedAt: int, refusal: Option<string>, w: Write)
    requires Inv(s) && CanAppend(s, FirstLine(req, startedAt, refusal), w) && req.key !in s.mem.live
    requires refusal.None? && w.done ==> req.key in s.forgotten + s.denied || s.applied[req.key] == 0
    ensures Inv(FirstAttempt(s, req, startedAt, refusal, w).sys)
  {
    var r := FirstLine(req, startedAt, refusal);
    if refusal.Some? {
      RecordKeepsInv(s, r, w);
    } else {
      StartKeepsInv(s, r, w);
    }
  }

  lemma StartKeepsInv(s: Sys, intent: Receipt, w: Write)
    requires Inv(s) && CanAppend(s, intent, w) && intent.key !in s.mem.live && intent.outcome.None?
    requires w.done ==> intent.key in s.forgotten + s.denied || s.applied[intent.key] == 0
    ensures Inv(Appended(s, intent, w))
    ensures w.done ==>
      var t := Appended(s, intent, w);
      Inv(Busy(t.(mem := t.mem.(receipts := t.mem.receipts[intent.key := intent]), ran := t.ran + multiset{intent.key}),
               intent.key, Running(intent, false)))
  {
    hide Tells, Chunk, Join, IsPart, Covers;
    AppendKeepsRan(s, intent, w);
    AppendKeepsSnap(s, intent, w);
    if w.done {
      DoneTells(s, intent, w);
      StartedKeepsInv(Appended(s, intent, w), intent);
    }
  }

  lemma StartedKeepsInv(t: Sys, intent: Receipt)
    requires Inv(t) && Tells(t.disk.lines, intent.key) && intent.key !in t.mem.live && intent.outcome.None?
    requires intent.key in t.forgotten + t.denied || t.applied[intent.key] == 0
    ensures Inv(Busy(t.(mem := t.mem.(receipts := t.mem.receipts[intent.key := intent]), ran := t.ran + multiset{intent.key}),
                     intent.key, Running(intent, false)))
  {
    hide Tells, Covers;
  }

  // ---- every step -----------------------------------------------------------------------------------

  lemma CallKeepsInv(s: Sys, step: Step)
    requires Inv(s) && Can(s, step) && step.Call?
    ensures Inv(Moved(s, step))
  {
    hide Tells, Chunk, Join, IsPart, Covers, FirstAttempt, SnapInv;
    var req := step.request;
    if req.key in s.mem.receipts {
      if req.key !in s.mem.live { BusyKeepsInv(s, req.key, Settling(s.mem.receipts[req.key])); }
    } else if req.key !in s.mem.live {
      if s.mem.quarantined > 0 {
        BusyKeepsInv(s, req.key, Asking(req, step.now));
      } else {
        assert !Remembers(s.mem, req.key);
        FirstAttemptKeepsInv(s, req, step.now, step.refusal, step.write);
      }
    }
  }

  lemma EndsKeepsInv(s: Sys, step: Step)
    requires Inv(s) && Can(s, step) && step.Ends?
    ensures Inv(Moved(s, step))
  {
    hide Tells, Chunk, Join, IsPart, Covers, Recorded;
    var k := step.key;
    if k in s.mem.live && s.mem.live[k].Running? {
      assert LiveAs(s, k, s.mem.live[k]);
      match step.report
      case Throws => BusyKeepsInv(s, k, Settling(s.mem.live[k].intent));
      case Reports(outcome) =>
        IdleKeepsInv(s, k);
        var r := s.mem.live[k].intent.(outcome := Some(outcome), reconcile := None);
        SameChunk(s.mem, Idle(s, k).mem, r, step.write.generation);
        RecordKeepsInv(Idle(s, k), r, step.write);
    }
  }

  lemma AskedKeepsInv(s: Sys, step: Step)
    requires Inv(s) && Can(s, step) && step.Asked?
    ensures Inv(Moved(s, step))
  {
    hide Tells, Chunk, Join, IsPart, Covers, Recorded, FirstAttempt, RunLookup, VerdictOn, RanInv, AppliedInv, SnapInv, MemInv;
    var k := step.key;
    if k in s.mem.live && !s.mem.live[k].Running? {
      assert LiveAs(s, k, s.mem.live[k]);
      IdleKeepsInv(s, k);
      var t := Idle(s, k);
      var r := Writes(s, step).value;
      SameChunk(s.mem, t.mem, r, step.write.generation);
      var verdict := VerdictOn(s, s.mem.live[k], step.answered);
      match s.mem.live[k]
      case Settling(intent) => RecordKeepsInv(t, r, step.write);
      case Asking(req, startedAt) =>
        if verdict.DidNotHappen? {
          DoubtedKeepsInv(t, k, step.refusal, step.write);
          FirstAttemptKeepsInv(Doubted(t, k, step.refusal, step.write), req, startedAt, step.refusal, step.write);
        } else { RecordKeepsInv(t, r, step.write); }
    }
  }

  lemma DoubtedKeepsInv(s: Sys, k: Key, refusal: Option<string>, w: Write)
    requires Inv(s)
    ensures Inv(Doubted(s, k, refusal, w))
  {
    hide Tells, Covers;
  }

  lemma SmallStepsKeepInv(s: Sys, step: Step)
    requires Inv(s) && (step.TakesPlace? || step.Background? || step.Indexing?)
    ensures Inv(Moved(s, step))
  {
    hide Tells, Covers, Changed;
    if step.TakesPlace? {
      if step.key in s.mem.live {
        assert LiveAs(s, step.key, s.mem.live[step.key]);
      }
    } else if step.Background? && step.key in s.mem.receipts && step.key !in s.mem.live {
      BusyKeepsInv(s, step.key, Settling(s.mem.receipts[step.key].(outcome := None)));
    }
  }

  // ---- compaction -----------------------------------------------------------------------------------

  ghost predicate Distinct(order: seq<Receipt>) {
    forall i, j :: 0 <= i < j < |order| ==> order[i].key != order[j].key
  }

  /** Entries that fold to exactly the listed receipts that are kept. */
  ghost predicate FoldsTo(lines: seq<Line>, order: seq<Receipt>, kept: map<Key, Receipt>) {
    && (forall k <- Folded(lines) :: k in kept && Folded(lines)[k] in order && Folded(lines)[k].key == k)
    && (forall r <- order :: r.key in kept ==> r.key in Folded(lines))
    && Bad(lines) == 0 && Marks(lines) == 0 && forall a :: MarkedAt(lines, a) == a
  }

  /** The surviving entries fold back to exactly what was kept. */
  lemma {:induction false} SurvivorsFold(order: seq<Receipt>, kept: map<Key, Receipt>)
    requires Distinct(order)
    ensures FoldsTo(Entries(Survivors(order, kept)), order, kept)
    decreases |order|
  {
    hide FoldsTo;
    if order == [] {
      NoEntries(kept);
    } else {
      SurvivorsFold(order[1..], kept);
      var front := Entries(Survivors(order[1..], kept));
      assert Entries(Survivors(order, kept)) == front + if order[0].key in kept then [Entry(order[0])] else [];
      OneMoreSurvivor(front, order, kept);
    }
  }

  lemma NoEntries(kept: map<Key, Receipt>)
    ensures FoldsTo([], [], kept) && Entries([]) == []
  {}

  lemma OneMoreSurvivor(front: seq<Line>, order: seq<Receipt>, kept: map<Key, Receipt>)
    requires order != [] && FoldsTo(front, order[1..], kept)
    ensures FoldsTo(front + (if order[0].key in kept then [Entry(order[0])] else []), order, kept)
  {
    hide Folded, Bad, Marks, MarkedAt;
    OneMoreEntry(front, order[0]);
    assert order == [order[0]] + order[1..];
    assert front + [] == front;
  }

  lemma OneMoreEntry(front: seq<Line>, r: Receipt)
    ensures var lines := front + [Entry(r)];
      && Folded(lines) == Folded(front)[r.key := r]
      && Bad(lines) == Bad(front) && Marks(lines) == Marks(front)
          && forall a :: MarkedAt(lines, a) == MarkedAt(front, a)
  {
    assert (front + [Entry(r)])[..|front|] == front;
  }

  lemma OneLine(line: Line)
    requires !line.Entry? && !line.Garbage?
    ensures Folded([line]) == map[] && Bad([line]) == 0 && Marks([line]) == if line.Damage? then line.lines else 0
    ensures MarkedAt([line], None) == if line.Damage? then Some(line.at) else None
  {
    assert [line][..0] == [];
  }

  lemma KeptIsListed(s: Sys, order: seq<Receipt>, kept: map<Key, Receipt>)
    requires NewestFirst(order, s.mem.receipts) && Keyed(s.mem.receipts)
    requires forall k <- kept :: k in s.mem.receipts && kept[k] == s.mem.receipts[k]
    ensures Folded(Entries(Survivors(order, kept))) == kept
    ensures var lines := Entries(Survivors(order, kept));
      Bad(lines) == 0 && Marks(lines) == 0 && forall a :: MarkedAt(lines, a) == a
  {
    hide Folded, Bad, Marks, MarkedAt, Survivors, Entries;
    assert Distinct(order);
    SurvivorsFold(order, kept);
    var folded := Folded(Entries(Survivors(order, kept)));
    forall k | k in kept ensures k in folded { assert s.mem.receipts[k] in order; }
    forall k | k in folded ensures k in kept && folded[k] == kept[k] {
      assert folded[k] in order;
    }
  }

  ghost predicate CompactedTo(lines: seq<Line>, generation: nat, damage: Option<Line>, kept: map<Key, Receipt>) {
    && lines != [] && lines[0] == Header(generation)
    && Folded(lines) == kept && Bad(lines) == 0
    && match damage
       case None => Marks(lines) == 0 && MarkedAt(lines, None) == None
       case Some(d) => d.Damage? && Marks(lines) == d.lines && MarkedAt(lines, None) == Some(d.at)
  }

  lemma CompactedLines(entries: seq<Line>, generation: nat, damage: Option<Line>, kept: map<Key, Receipt>)
    requires Folded(entries) == kept && Bad(entries) == 0 && Marks(entries) == 0
    requires (forall a :: MarkedAt(entries, a) == a) && (damage.Some? ==> damage.value.Damage?)
    ensures CompactedTo([Header(generation)] + (if damage.Some? then [damage.value] else []) + entries, generation,
        damage, kept)
  {
    var head := [Header(generation)] + if damage.Some? then [damage.value] else [];
    OneLine(Header(generation));
    if damage.Some? {
      OneLine(damage.value);
      FoldedAdds([Header(generation)], [damage.value]);
      MarkedAdds([Header(generation)], [damage.value], None);
    }
    FoldedAdds(head, entries);
    MarkedAdds(head, entries, None);
    assert map[] + kept == kept;
  }

  lemma IntentsAreKept(receipts: map<Key, Receipt>, order: seq<Receipt>, cutoff: int, live: set<ResultRef>, k: Key)
    requires NewestFirst(order, receipts) && k in receipts && receipts[k].outcome.None?
    ensures k in Kept(receipts, order, cutoff, live)
  {
    hide ProjectOf, Rank;
  }

  /** What compaction leaves in memory and, if it could be written, on disk. */
  lemma CompactDisk(s: Sys, step: Step)
    requires Inv(s) && Can(s, step) && step.Compact? && step.journal
    ensures var t := Moved(s, step);
      var damage := if t.mem.quarantined > 0 then Some(Damage(t.mem.quarantined, t.mem.damageAt.value)) else None;
      && (t.mem.quarantined > 0 ==> t.mem.damageAt.Some?)
      && CompactedTo(t.disk.lines, step.generation, damage, t.mem.receipts) && t.disk.tail.None?
      && t.snap == if step.snapshot then Some(Snapshot(step.generation, |t.disk.lines|, t.mem.receipts, damage))
          else s.snap
  {
    hide NewestFirst, Folded, Bad, Marks, MarkedAt, CompactedTo, RanInv, LiveInv, AppliedInv, SnapInv, Gone, Entries,
        Survivors;
    var kept := Kept(s.mem.receipts, step.order, step.now - MAX_AGE_MS, step.live);
    KeptIsListed(s, step.order, kept);
    var t := Moved(s, step);
    var damage := if t.mem.quarantined > 0 then Some(Damage(t.mem.quarantined, t.mem.damageAt.value)) else None;
    CompactedLines(Entries(Survivors(step.order, kept)), step.generation, damage, kept);
  }

  lemma CompactKeepsSnap(s: Sys, step: Step)
    requires Inv(s) && Can(s, step) && step.Compact?
    ensures SnapInv(Moved(s, step))
  {
    hide NewestFirst, Folded, Bad, Marks, MarkedAt, RanInv, LiveInv, AppliedInv, Gone, Entries, Survivors, Kept;
    if step.journal {
      CompactDisk(s, step);
      var t := Moved(s, step);
      assert t.disk.lines[..|t.disk.lines|] == t.disk.lines;
    }
  }

  lemma CompactKeepsRan(s: Sys, step: Step)
    requires Inv(s) && Can(s, step) && step.Compact?
    ensures RanInv(Moved(s, step))
  {
    hide NewestFirst, Folded, Bad, Marks, MarkedAt, LiveInv, AppliedInv, SnapInv, Gone, Entries, Survivors, Kept;
    var t := Moved(s, step);
    if step.journal {
      CompactDisk(s, step);
    }
  }

  lemma CompactKeepsLive(s: Sys, step: Step)
    requires Inv(s) && Can(s, step) && step.Compact?
    ensures LiveInv(Moved(s, step)) && MemInv(Moved(s, step)) && AppliedInv(Moved(s, step))
  {
    hide NewestFirst, Tells, RanInv, SnapInv, Gone, Entries, Survivors;
    var t := Moved(s, step);
    forall k | k in t.mem.live ensures LiveAs(t, k, t.mem.live[k]) {
      assert LiveAs(s, k, s.mem.live[k]);
      if s.mem.live[k].Running? {
        IntentsAreKept(s.mem.receipts, step.order, step.now - MAX_AGE_MS, step.live, k);
      }
    }
  }

  // ---- restart --------------------------------------------------------------------------------------

  lemma {:induction false} MarksAreDated(lines: seq<Line>, start: Option<int>)
    ensures Marks(lines) > 0 || start.Some? ==> MarkedAt(lines, start).Some?
    decreases |lines|
  {
    if lines != [] { MarksAreDated(lines[..|lines| - 1], start); }
  }

  lemma {:induction false} FoldIsKeyed(lines: seq<Line>)
    ensures Keyed(Folded(lines))
    decreases |lines|
  {
    if lines != [] { FoldIsKeyed(lines[..|lines| - 1]); }
  }

  lemma LoadRemembers(journal: Text, now: int, k: Key)
    requires Tells(journal.lines, k)
    ensures Remembers(Load(journal, None, now), k)
  {}

  lemma RestartKeepsInv(s: Sys, step: Step)
    requires Inv(s) && step.Restart?
    ensures Inv(Moved(s, step))
  {
    hide Tells, Covers, Folded, Bad, Marks, MarkedAt;
    match step.opening
    case Normal =>
      ShortcutTaken(s, step.now);
      forall k | k in s.ran && k !in s.forgotten ensures Remembers(Load(s.disk, None, step.now), k) {
        LoadRemembers(s.disk, step.now, k);
      }
      MarksAreDated(s.disk.lines, None);
      FoldIsKeyed(s.disk.lines);
      assert map[] + Folded(s.disk.lines) == Folded(s.disk.lines);
    case Unreadable =>
    case Deleted =>
  }

  lemma ShortcutTaken(s: Sys, now: int)
    requires SnapInv(s)
    ensures Load(s.disk, s.snap, now) == Load(s.disk, None, now)
  {
    hide Covers, Folded, Bad, Marks, MarkedAt;
    if s.snap.Some? { SnapshotIsAShortcut(s.disk, s.snap.value, now); }
  }

  lemma DueKeepsInv(s: Sys, due: bool)
    requires Inv(s)
    ensures Inv(s.(due := due))
  {
    hide Tells, Covers;
  }

  lemma NextKeepsInv(s: Sys, step: Step)
    requires Inv(s) && Can(s, step)
    ensures Inv(Next(s, step))
  {
    hide Inv, Moved, Can;
    MovedKeepsInv(s, step);
    DueKeepsInv(Moved(s, step), Next(s, step).due);
  }

  lemma MovedKeepsInv(s: Sys, step: Step)
    requires Inv(s) && Can(s, step)
    ensures Inv(Moved(s, step))
  {
    hide RanInv, LiveInv, AppliedInv, MemInv, SnapInv, Moved, Can;
    match step
    case Call(_, _, _, _) => CallKeepsInv(s, step);
    case Ends(_, _, _) => EndsKeepsInv(s, step);
    case Asked(_, _, _, _) => AskedKeepsInv(s, step);
    case Compact(_, _, _, _, _, _, _) => CompactKeepsSnap(s, step); CompactKeepsRan(s, step); CompactKeepsLive(s, step);
    case Restart(_, _) => RestartKeepsInv(s, step);
    case _ => SmallStepsKeepInv(s, step);
  }

  lemma {:induction false} RunKeepsInv(s: Sys, steps: seq<Step>)
    requires Inv(s) && CanAll(s, steps)
    ensures Inv(Run(s, steps))
    decreases |steps|
  {
    hide Inv, Next, Can;
    if steps != [] {
      NextKeepsInv(s, steps[0]);
      RunKeepsInv(Next(s, steps[0]), steps[1..]);
    }
  }
}
