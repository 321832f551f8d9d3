/** The journal over whole runs: appends, evictions, restarts with intact or damaged files, and
    recreation, in any order, between the pages of a reader that follows `nextCursor`.

    `Sys` carries history the program does not keep: `gen` counts the creations, `logs[g]` is every
    row creation `g` ever recorded, and `minted` says which creation handed out cursors under which
    epoch. A cursor means a place in the log of the creation that minted it. */
module JournalRuns {
  import opened Options
  import opened Text
  import opened JournalRows
  import opened Journal

  datatype Sys = Sys(mem: State, files: Files, gen: nat, logs: seq<seq<Row>>, minted: set<(Epoch, nat)>)

  /** What happens to the files while no process runs. */
  datatype Damage = Intact | RowsDeleted | IndexDeleted | IndexDamaged | RowsDamaged(lines: seq<Line>)

  datatype Step =
    /** `rewritten` when the dead lines at the head of the file were compacted away. */
    | Append(event: Event, now: Instant, durable: bool, rewritten: bool)
    /** `newEpoch` is the random epoch a new journal would get. A new journal empties the rows file
        first and replaces the index file second; `indexWritten` is false when the process died or
        the disk refused between the two. */
    | Restart(damage: Damage, now: Instant, newEpoch: Epoch, indexWritten: bool)

  function Damaged(f: Files, d: Damage): Files {
    match d
    case Intact => f
    case RowsDeleted => f.(rows := None)
    case IndexDeleted => f.(index := NoIndex)
    case IndexDamaged => f.(index := BadIndex)
    case RowsDamaged(lines) => f.(rows := Some(lines))
  }

  function Lines(rows: seq<Row>): seq<Line> {
    seq(|rows|, i requires 0 <= i < |rows| => Parsed(rows[i]))
  }

  ghost function Init(project: seq<Unit>, epoch: Epoch): Sys {
    Sys(State(project, epoch, [], 0), Files(IndexOf(project, epoch), Some([])), 0, [[]], {(epoch, 0)})
  }

  ghost function Next(s: Sys, step: Step): Sys {
    match step
    case Append(e, now, durable, rewritten) =>
      if !Admissible(e) || !durable || s.files.rows.None? || s.logs == [] then s
      else
        var row := NewRow(s.mem, e, now);
        var mem := Appended(s.mem, e, now);
        var file := s.files.rows.value + [Parsed(row)];
        s.(mem := mem, files := s.files.(rows := Some(if rewritten then Lines(mem.rows) else file)),
           logs := s.logs[..|s.logs| - 1] + [Current(s) + [row]])
    case Restart(damage, now, newEpoch, indexWritten) =>
      var f := Damaged(s.files, damage);
      match Opened(f, s.mem.project)
      case Load(epoch, rows) =>
        s.(mem := State(s.mem.project, epoch, Evict(rows, now.ms - MIN_RETENTION_MS), LastSeq(rows)),
           files := f, minted := s.minted + {(epoch, s.gen)})
      case StartFresh =>
        Sys(State(s.mem.project, newEpoch, [], 0),
            Files(if indexWritten then IndexOf(s.mem.project, newEpoch) else f.index, Some([])),
            s.gen + 1, s.logs + [[]], s.minted + {(newEpoch, s.gen + 1)})
  }

  /** The log of the running creation. */
  ghost function Current(s: Sys): seq<Row> {
    if s.logs == [] then [] else s.logs[|s.logs| - 1]
  }

  ghost function Run(s: Sys, steps: seq<Step>): Sys
    decreases |steps|
  {
    if steps == [] then s else Run(Next(s, steps[0]), steps[1..])
  }

  // ---- what every run keeps -------------------------------------------------------------------------

  ghost predicate Numbered(log: seq<Row>, project: seq<Unit>) {
    forall i :: 0 <= i < |log| ==> log[i].journalSeq == i + 1 && OwnRow(log[i], project)
  }

  ghost predicate SuffixOf(rows: seq<Row>, log: seq<Row>) {
    |rows| <= |log| && rows == log[|log| - |rows|..]
  }

  ghost predicate Inv(s: Sys) { LogInv(s) && FileInv(s) && MintInv(s) }

  /** The retained rows are the last ones of a log whose n-th row is number n, and never none of them. */
  ghost predicate LogInv(s: Sys) {
    && |s.logs| == s.gen + 1
    && Numbered(Current(s), s.mem.project)
    && s.mem.latest == |Current(s)|
    && SuffixOf(s.mem.rows, Current(s))
    && (s.mem.rows == [] ==> Current(s) == [])
  }

  /** The file holds the end of the same log, and is empty only while nothing was recorded. */
  ghost predicate FileInv(s: Sys) {
    && s.files.rows.Some?
    && (forall l <- s.files.rows.value :: l.Parsed?)
    && SuffixOf(RowsOf(s.files.rows.value), Current(s))
    && (s.files.rows.value == [] ==> Current(s) == [])
  }

  /** An index that is not the running journal's is that of an earlier creation. */
  ghost predicate MintInv(s: Sys) {
    && (s.mem.epoch, s.gen) in s.minted
    && (forall m <- s.minted :: m.1 <= s.gen)
    && (s.files.index.IndexOf? && s.files.index.epoch != s.mem.epoch ==>
          exists g: nat :: g < s.gen && (s.files.index.epoch, g) in s.minted)
    && (Trustworthy(s) ==> forall m <- s.minted :: m.1 == s.gen ==> m.0 == s.mem.epoch)
  }

  /** The files were not replaced by someone else's rows, and epochs are not reused: what the journal
      takes for granted about its random ids and its directory. */
  ghost predicate Allowed(s: Sys, step: Step) {
    step.Restart? ==>
      && (forall m <- s.minted :: m.0 != step.newEpoch)
      && (step.damage.RowsDamaged? ==> !Readable(step.damage.lines, s.mem.project))
  }

  ghost predicate AllAllowed(s: Sys, steps: seq<Step>)
    decreases |steps|
  {
    steps == [] || (Allowed(s, steps[0]) && AllAllowed(Next(s, steps[0]), steps[1..]))
  }

  lemma InvMeansValid(s: Sys)
    requires Inv(s)
    ensures Valid(s.mem)
  {}

  lemma InitInv(project: seq<Unit>, epoch: Epoch)
    ensures Inv(Init(project, epoch)) && Trustworthy(Init(project, epoch))
  {
    hide EventId;
    var s := Init(project, epoch);
    assert Current(s) == [];
    EmptyFile();
    assert forall m <- s.minted :: m == (epoch, 0);
  }

  lemma EmptyFile()
    ensures RowsOf([]) == []
  {}

  lemma AppendKeepsInv(s: Sys, step: Step)
    requires Inv(s) && step.Append?
    ensures Inv(Next(s, step))
  {
    if Admissible(step.event) && step.durable {
      AppendKeepsLog(s, step);
      AppendKeepsFile(s, step);
      hide LogInv, FileInv;
    }
  }

  lemma AppendKeepsLog(s: Sys, step: Step)
    requires LogInv(s) && s.files.rows.Some? && step.Append? && Admissible(step.event) && step.durable
    ensures LogInv(Next(s, step)) && Current(Next(s, step)) == Current(s) + [NewRow(s.mem, step.event, step.now)]
  {
    hide EventId, Evict, Admissible;
    var row := NewRow(s.mem, step.event, step.now);
    RetainedAfterAppend(s.mem.rows, row, Current(s), step.now.ms - MIN_RETENTION_MS);
  }

  lemma AppendKeepsFile(s: Sys, step: Step)
    requires LogInv(s) && FileInv(s) && step.Append? && Admissible(step.event) && step.durable
    ensures FileInv(Next(s, step))
  {
    hide EventId, Evict, Admissible, Numbered;
    AppendKeepsLog(s, step);
    var row := NewRow(s.mem, step.event, step.now);
    RetainedAfterAppend(s.mem.rows, row, Current(s), step.now.ms - MIN_RETENTION_MS);
    LinesAfterAppend(s.files.rows.value, row, Current(s));
    var kept := Evict(s.mem.rows + [row], step.now.ms - MIN_RETENTION_MS);
    assert RowsOf(Lines(kept)) == kept;
  }

  lemma RetainedAfterAppend(rows: seq<Row>, row: Row, log: seq<Row>, cutoff: int)
    requires SuffixOf(rows, log)
    ensures SuffixOf(Evict(rows + [row], cutoff), log + [row]) && Evict(rows + [row], cutoff) != []
  {
    EvictKeeps(rows + [row], cutoff);
    assert SuffixOf(rows + [row], log + [row]);
    SuffixOfSuffix(Evict(rows + [row], cutoff), rows + [row], log + [row]);
  }

  lemma LinesAfterAppend(lines: seq<Line>, row: Row, log: seq<Row>)
    requires (forall l <- lines :: l.Parsed?) && SuffixOf(RowsOf(lines), log)
    ensures forall l <- lines + [Parsed(row)] :: l.Parsed?
    ensures SuffixOf(RowsOf(lines + [Parsed(row)]), log + [row])
  {
    assert RowsOf(lines + [Parsed(row)]) == RowsOf(lines) + [row];
  }

  lemma SuffixOfSuffix(a: seq<Row>, b: seq<Row>, c: seq<Row>)
    requires SuffixOf(a, b) && SuffixOf(b, c)
    ensures SuffixOf(a, c)
  {}

  lemma LoadKeepsInv(s: Sys, step: Step)
    requires Inv(s) && step.Restart? && Allowed(s, step) && Opened(Damaged(s.files, step.damage), s.mem.project).Load?
    ensures Inv(Next(s, step))
  {
    LoadFindsTheLog(s, step);
    assert Trustworthy(Next(s, step)) ==> Trustworthy(s);
  }

  lemma LoadFindsTheLog(s: Sys, step: Step)
    requires LogInv(s) && FileInv(s) && step.Restart? && Allowed(s, step)
    requires Opened(Damaged(s.files, step.damage), s.mem.project).Load?
    ensures Damaged(s.files, step.damage) == s.files && Current(Next(s, step)) == Current(s)
    ensures LogInv(Next(s, step)) && FileInv(Next(s, step))
  {
    hide EventId, Evict, Numbered;
    var rows := RowsOf(s.files.rows.value);
    EvictKeeps(rows, step.now.ms - MIN_RETENTION_MS);
    SuffixOfSuffix(Evict(rows, step.now.ms - MIN_RETENTION_MS), rows, Current(s));
    assert LastSeq(rows) == |Current(s)| by { LastOfLog(rows, s); }
  }

  lemma LastOfLog(rows: seq<Row>, s: Sys)
    requires LogInv(s) && SuffixOf(rows, Current(s)) && (rows == [] ==> Current(s) == [])
    ensures LastSeq(rows) == |Current(s)|
  {
    hide EventId;
    if rows != [] { assert rows[|rows| - 1] == Current(s)[|Current(s)| - 1]; }
  }

  lemma FreshKeepsInv(s: Sys, step: Step)
    requires Inv(s) && step.Restart? && Allowed(s, step)
        && Opened(Damaged(s.files, step.damage), s.mem.project).StartFresh?
    ensures Inv(Next(s, step))
  {
    hide Opened;
    var t := Next(s, step);
    assert Current(t) == [] && RowsOf([]) == [];
    if t.files.index.IndexOf? && t.files.index.epoch != t.mem.epoch {
      assert t.files.index == s.files.index;
      if s.files.index.epoch == s.mem.epoch {
        assert s.gen < t.gen && (t.files.index.epoch, s.gen) in t.minted;
      } else {
        var g: nat :| g < s.gen && (s.files.index.epoch, g) in s.minted;
        assert g < t.gen && (t.files.index.epoch, g) in t.minted;
      }
    }
  }

  lemma NextKeepsInv(s: Sys, step: Step)
    requires Inv(s) && Allowed(s, step)
    ensures Inv(Next(s, step))
  {
    match step
    case Append(_, _, _, _) => AppendKeepsInv(s, step);
    case Restart(damage, _, _, _) =>
      match Opened(Damaged(s.files, damage), s.mem.project)
      case Load(_, _) => LoadKeepsInv(s, step);
      case StartFresh => FreshKeepsInv(s, step);
  }

  /** In every reachable state the numbers have no hole: the retained rows are the last ones of a log
      whose n-th row is number n, and a restart finds the same log on disk. */
  lemma {:induction false} RunKeepsInv(s: Sys, steps: seq<Step>)
    requires Inv(s) && AllAllowed(s, steps)
    ensures Inv(Run(s, steps))
    decreases |steps|
  {
    if steps != [] {
      NextKeepsInv(s, steps[0]);
      RunKeepsInv(Next(s, steps[0]), steps[1..]);
    }
  }

  /** A log only grows, and a creation that is over never changes again. */
  ghost predicate Grows(s: Sys, t: Sys) {
    && s.gen <= t.gen && |s.logs| <= |t.logs|
    && (forall g :: 0 <= g < |s.logs| ==> |s.logs[g]| <= |t.logs[g]| && s.logs[g] == t.logs[g][..|s.logs[g]|])
    && s.minted <= t.minted && s.mem.project == t.mem.project
  }

  lemma {:induction false} RunGrows(s: Sys, steps: seq<Step>)
    requires Inv(s) && AllAllowed(s, steps)
    ensures Grows(s, Run(s, steps))
    decreases |steps|
  {
    if steps != [] {
      NextKeepsInv(s, steps[0]);
      NextGrows(s, steps[0]);
      RunGrows(Next(s, steps[0]), steps[1..]);
      GrowsOn(s, Next(s, steps[0]), Run(s, steps));
    }
  }

  lemma NextGrows(s: Sys, step: Step)
    requires Inv(s)
    ensures Grows(s, Next(s, step))
  {}

  lemma GrowsOn(s: Sys, t: Sys, u: Sys)
    requires Grows(s, t) && Grows(t, u)
    ensures Grows(s, u)
  {
    forall g | 0 <= g < |s.logs|
      ensures |s.logs[g]| <= |u.logs[g]| && s.logs[g] == u.logs[g][..|s.logs[g]|]
    {
      assert s.logs[g] == t.logs[g][..|s.logs[g]|];
      assert t.logs[g] == u.logs[g][..|t.logs[g]|];
    }
  }

  // ---- can a cursor be believed? --------------------------------------------------------------------

  /** No epoch was ever used by two creations, so a cursor's epoch tells whose cursor it is. */
  ghost predicate Trustworthy(s: Sys) {
    forall m, n :: m in s.minted && n in s.minted && m.0 == n.0 ==> m.1 == n.1
  }

  /** The one restart that breaks it: the index on disk is not the running journal's, because an
      earlier creation emptied the rows file and never got to replace the index. */
  ghost predicate LoadsForeignIndex(s: Sys, step: Step) {
    step.Restart? && Opened(Damaged(s.files, step.damage), s.mem.project).Load?
    && s.files.index.IndexOf? && s.files.index.epoch != s.mem.epoch
  }

  lemma TrustworthyIff(s: Sys, step: Step)
    requires Inv(s) && Allowed(s, step) && Trustworthy(s)
    ensures Trustworthy(Next(s, step)) <==> !LoadsForeignIndex(s, step)
  {
    var t := Next(s, step);
    if LoadsForeignIndex(s, step) {
      var e := s.files.index.epoch;
      var g: nat :| g < s.gen && (e, g) in s.minted;
      assert (e, g) in t.minted && (e, s.gen) in t.minted && (e, g).1 != (e, s.gen).1;
    } else if step.Restart? && Opened(Damaged(s.files, step.damage), s.mem.project).Load? {
      assert t.minted == s.minted;
    }
  }

  ghost predicate IndexAlwaysWritten(steps: seq<Step>) {
    forall step <- steps :: step.Restart? ==> step.indexWritten
  }

  ghost predicate IndexIsCurrent(s: Sys) {
    s.files.index.IndexOf? ==> s.files.index.epoch == s.mem.epoch
  }

  /** While every new journal gets its index onto the disk, no cursor is ever mistaken for another
      creation's. */
  lemma {:induction false} TrustworthyRun(s: Sys, steps: seq<Step>)
    requires Inv(s) && Trustworthy(s) && IndexIsCurrent(s)
    requires AllAllowed(s, steps) && IndexAlwaysWritten(steps)
    ensures Trustworthy(Run(s, steps)) && IndexIsCurrent(Run(s, steps))
    decreases |steps|
  {
    if steps != [] {
      assert steps[0] in steps && forall step <- steps[1..] :: step in steps;
      NextKeepsInv(s, steps[0]);
      TrustworthyIff(s, steps[0]);
      TrustworthyRun(Next(s, steps[0]), steps[1..]);
    }
  }

  // ---- what one read means --------------------------------------------------------------------------

  /** `c` is a cursor creation `g` handed out, at a place its log has reached. */
  ghost predicate MintedBy(s: Sys, c: Cursor, g: nat) {
    c.project == s.mem.project && (c.epoch, g) in s.minted && g < |s.logs| && c.position <= |s.logs[g]|
  }

  /** A read either replays the log strictly after the cursor, or says the rows are gone: the journal
      was recreated or the place was evicted. It never does anything else to a cursor it minted. */
  ghost predicate Replays(s: Sys, c: Cursor, g: nat, r: ReadResult)
    requires MintedBy(s, c, g)
  {
    && (r.TooOld? <==> g != s.gen || c.position < |Current(s)| - |s.mem.rows|)
    && (!r.TooOld? ==>
          && r.Page?
          && c.position + |r.events| <= |s.logs[g]|
          && r.events == s.logs[g][c.position..c.position + |r.events|]
          && r.next == Cursor(c.project, c.epoch, c.position + |r.events|)
          && (r.hasMore <==> c.position + |r.events| < |s.logs[g]|)
          && (r.events == [] <==> c.position == |s.logs[g]|))
  }

  lemma ReadMeans(s: Sys, c: Cursor, g: nat, limit: nat)
    requires Inv(s) && Trustworthy(s) && MintedBy(s, c, g) && limit >= 1
    ensures Valid(s.mem) && Replays(s, c, g, Read(s.mem, Some(Decoded(c)), limit))
  {
    InvMeansValid(s);
    assert (c.epoch, g) in s.minted && (s.mem.epoch, s.gen) in s.minted;
    assert c.epoch == s.mem.epoch <==> g == s.gen;
    hide Numbered, Trustworthy;
    if g == s.gen && c.position >= |Current(s)| - |s.mem.rows| { PageMeans(s, c, limit); }
  }

  lemma PageMeans(s: Sys, c: Cursor, limit: nat)
    requires Inv(s) && MintedBy(s, c, s.gen) && limit >= 1 && c.epoch == s.mem.epoch
    requires c.position >= |Current(s)| - |s.mem.rows|
    ensures Valid(s.mem) && Replays(s, c, s.gen, PageAfter(s.mem, c.position, limit))
  {
    hide PageAfter, PageEnd, IsPage, RowBytes, SumBytes, FileInv, MintInv, Numbered, Valid;
    InvMeansValid(s);
    PageSlice(s.mem, Current(s), c.position, limit);
  }

  lemma PageSlice(m: State, log: seq<Row>, position: nat, limit: nat)
    requires Valid(m) && SuffixOf(m.rows, log) && m.latest == |log| && limit >= 1
    requires |log| - |m.rows| <= position <= |log|
    ensures var r := PageAfter(m, position, limit);
      && r.Page? && position + |r.events| <= |log|
      && r.events == log[position..position + |r.events|]
      && r.next == CursorAt(m, position + |r.events|)
      && (r.hasMore <==> position + |r.events| < |log|)
      && (r.events == [] <==> position == |log|)
  {
    hide PageAfter, PageEnd, IsPage, RowBytes, SumBytes, Valid;
    PageProperties(m, position, limit);
    SliceOfSuffix(m.rows, log, position - (m.latest - |m.rows|), |PageAfter(m, position, limit).events|);
  }

  lemma SliceOfSuffix(rows: seq<Row>, log: seq<Row>, from: nat, n: nat)
    requires SuffixOf(rows, log) && from + n <= |rows|
    ensures var at := |log| - |rows| + from;
      rows[from..from + n] == log[at..at + n]
  {}
}
