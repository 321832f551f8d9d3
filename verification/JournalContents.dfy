/** What the rows of a journal are made of, in every state a run can reach: only of what was appended.
    Hence every page fits its bytes, and a journal fed by the event catalog holds catalog rows. */
module JournalContents {
  import opened Options
  import opened Text
  import opened JournalRows
  import opened Journal
  import opened JournalRuns
  import Json
  import Catalog

  /** Every row ever recorded, in whatever creation of the journal, satisfies `p`. */
  ghost predicate AllRows(s: Sys, p: Row -> bool) {
    forall g, i :: 0 <= g < |s.logs| && 0 <= i < |s.logs[g]| ==> p(s.logs[g][i])
  }

  /** What a step appends, if anything, satisfies `p`. */
  ghost predicate Appends(s: Sys, step: Step, p: Row -> bool) {
    step.Append? && Admissible(step.event) && step.durable ==> p(NewRow(s.mem, step.event, step.now))
  }

  ghost predicate AllAppend(s: Sys, steps: seq<Step>, p: Row -> bool)
    decreases |steps|
  {
    steps == [] || (Appends(s, steps[0], p) && AllAppend(Next(s, steps[0]), steps[1..], p))
  }

  lemma StepKeepsRows(s: Sys, step: Step, p: Row -> bool)
    requires Inv(s) && Allowed(s, step) && AllRows(s, p) && Appends(s, step, p)
    ensures AllRows(Next(s, step), p)
  {
    hide Admissible, Opened, FileInv, MintInv, Appended, NewRow, Damaged;
    var t := Next(s, step);
    if step.Append? && t != s {
      var row := NewRow(s.mem, step.event, step.now);
      assert t.logs == s.logs[..|s.logs| - 1] + [Current(s) + [row]];
    }
  }

  /** A run never invents or alters a row. */
  lemma {:induction false} RunKeepsRows(s: Sys, steps: seq<Step>, p: Row -> bool)
    requires Inv(s) && AllAllowed(s, steps) && AllRows(s, p) && AllAppend(s, steps, p)
    ensures AllRows(Run(s, steps), p) && Inv(Run(s, steps))
    decreases |steps|
  {
    hide Inv, Next, Allowed, AllRows, Appends;
    if steps != [] {
      NextKeepsInv(s, steps[0]);
      StepKeepsRows(s, steps[0], p);
      RunKeepsRows(Next(s, steps[0]), steps[1..], p);
    }
  }

  // ---- every page fits ------------------------------------------------------------------------------

  predicate FitsAPage(r: Row) { RowBytes(r) <= PAGE_BYTES }

  lemma {:induction false} DecimalIsAscii(n: nat)
    ensures forall p <- Json.Decimal(n) :: p < 0x80
  {
    if n >= 10 { DecimalIsAscii(n / 10); }
  }

  lemma {:induction false} AsciiUnits(points: seq<Point>)
    requires forall p <- points :: p < 0x80
    ensures |Units(points)| == |points|
  {
    if points != [] {
      assert points[0] in points && forall p <- points[1..] :: p in points;
      AsciiUnits(points[1..]);
    }
  }

  lemma NewRowFits(m: State, e: Event, now: Instant)
    requires Admissible(e) && |m.project| <= 64 && |now.iso| <= 27 && m.latest + 1 <= MAX_SAFE_INTEGER
    ensures FitsAPage(NewRow(m, e, now))
  {
    hide Admissible, RowJson, Size, Json.Decimal, Units;
    SafeIntegerCost(m.latest + 1);
    DecimalIsAscii(m.latest + 1);
    AsciiUnits(Json.Decimal(m.latest + 1));
    AsciiCost(Json.Decimal(m.latest + 1));
    RowFitsAPage(NewRow(m, e, now));
  }

  /** The clock's text has the length ISO timestamps have. */
  ghost predicate IsoClock(steps: seq<Step>) {
    forall step <- steps :: step.Append? ==> |step.now.iso| <= 27
  }

  lemma StepCounts(s: Sys, step: Step)
    requires Inv(s) && Allowed(s, step)
    ensures Next(s, step).mem.latest <= s.mem.latest + 1 && Next(s, step).mem.project == s.mem.project
  {
    hide Admissible, FileInv, MintInv;
    if step.Restart? && Opened(Damaged(s.files, step.damage), s.mem.project).Load? {
      assert FileInv(s);
      LoadFindsTheLog(s, step);
    }
  }

  lemma {:induction false} FitsAllAlong(s: Sys, steps: seq<Step>)
    requires Inv(s) && AllAllowed(s, steps) && IsoClock(steps)
    requires |s.mem.project| <= 64 && s.mem.latest + |steps| <= MAX_SAFE_INTEGER
    ensures AllAppend(s, steps, FitsAPage)
    decreases |steps|
  {
    hide Inv, Next, Allowed, Admissible, FitsAPage, NewRow;
    if steps != [] {
      assert steps[0] in steps && forall step <- steps[1..] :: step in steps;
      NextKeepsInv(s, steps[0]);
      StepCounts(s, steps[0]);
      if steps[0].Append? && Admissible(steps[0].event) { NewRowFits(s.mem, steps[0].event, steps[0].now); }
      FitsAllAlong(Next(s, steps[0]), steps[1..]);
    }
  }

  /** In every state a journal can reach, whatever was appended, evicted, lost or recreated, every page
      from every place stays within its bytes, a page of one row included. */
  lemma EveryPageFits(project: seq<Unit>, epoch: Epoch, steps: seq<Step>, position: nat, limit: nat)
    requires AllAllowed(Init(project, epoch), steps) && IsoClock(steps)
    requires |project| <= 64 && |steps| <= MAX_SAFE_INTEGER && limit >= 1
    requires var m := Run(Init(project, epoch), steps).mem; m.latest - |m.rows| <= position <= m.latest
    ensures var m := Run(Init(project, epoch), steps).mem;
      Valid(m) && PageAfter(m, position, limit).Page? && SumBytes(PageAfter(m, position, limit).events) <= PAGE_BYTES
  {
    hide Run, AllAllowed, AllAppend, PageAfter, SumBytes, RowBytes, LogInv, FileInv, MintInv, Trustworthy;
    var s := Init(project, epoch);
    InitInv(project, epoch);
    FitsAllAlong(s, steps);
    RunKeepsRows(s, steps, FitsAPage);
    var t := Run(s, steps);
    InvMeansValid(t);
    RetainedFit(t);
    PageFitsItsBytes(t.mem, position, limit);
  }

  lemma RetainedFit(t: Sys)
    requires Inv(t) && AllRows(t, FitsAPage)
    ensures forall r <- t.mem.rows :: RowBytes(r) <= PAGE_BYTES
  {
    hide RowBytes, Numbered, FileInv, MintInv;
    forall r | r in t.mem.rows ensures FitsAPage(r) {
      var i :| 0 <= i < |t.mem.rows| && t.mem.rows[i] == r;
      assert r == t.logs[t.gen][|Current(t)| - |t.mem.rows| + i];
    }
  }

  // ---- catalog rows ---------------------------------------------------------------------------------

  predicate FromCatalog(r: Row) { Catalog.IsCatalogEvent(r.event) }

  /** A journal whose appends all come from the event catalog replays catalog rows only. */
  lemma CatalogRowsOnly(s: Sys, steps: seq<Step>)
    requires Inv(s) && AllAllowed(s, steps) && AllRows(s, FromCatalog)
    requires forall step <- steps :: step.Append? ==> Catalog.IsCatalogEvent(step.event)
    ensures AllRows(Run(s, steps), FromCatalog)
  {
    AppendsAreCatalog(s, steps);
    RunKeepsRows(s, steps, FromCatalog);
  }

  lemma {:induction false} AppendsAreCatalog(s: Sys, steps: seq<Step>)
    requires forall step <- steps :: step.Append? ==> Catalog.IsCatalogEvent(step.event)
    ensures AllAppend(s, steps, FromCatalog)
    decreases |steps|
  {
    hide Next, Admissible, Catalog.IsCatalogEvent;
    if steps != [] {
      assert steps[0] in steps && forall step <- steps[1..] :: step in steps;
      AppendsAreCatalog(Next(s, steps[0]), steps[1..]);
    }
  }
}
