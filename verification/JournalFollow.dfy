/** A reader that follows `nextCursor` page after page while the journal lives on between the pages. */
module JournalFollow {
  import opened Options
  import opened Text
  import opened JournalRows
  import opened Journal
  import opened JournalRuns

  /** One round of the reader: whatever happens to the journal first, then one read. */
  datatype Round = Round(before: seq<Step>, limit: nat)

  datatype Stop = Reached(cursor: Cursor) | Gap(resume: Cursor) | Refused

  datatype Journey = Journey(end: Sys, rows: seq<Row>, stop: Stop)

  ghost function Follow(s: Sys, c: Cursor, rounds: seq<Round>): Journey
    requires Inv(s) && RoundsAllowed(s, c, rounds)
    decreases |rounds|
  {
    if rounds == [] then Journey(s, [], Reached(c))
    else
      RunKeepsInv(s, rounds[0].before);
      var t := Run(s, rounds[0].before);
      match Read(t.mem, Some(Decoded(c)), rounds[0].limit)
      case Rejected(_) => Journey(t, [], Refused)
      case TooOld(_, _, resume) => Journey(t, [], Gap(resume))
      case Page(events, next, _, _, _) =>
        var rest := Follow(t, next, rounds[1..]);
        rest.(rows := events + rest.rows)
  }

  ghost predicate RoundsAllowed(s: Sys, c: Cursor, rounds: seq<Round>)
    requires Inv(s)
    decreases |rounds|
  {
    rounds == [] ||
      (&& rounds[0].limit >= 1 && AllAllowed(s, rounds[0].before)
       && (RunKeepsInv(s, rounds[0].before);
           var t := Run(s, rounds[0].before);
           var r := Read(t.mem, Some(Decoded(c)), rounds[0].limit);
           r.Page? ==> RoundsAllowed(t, r.next, rounds[1..])))
  }

  lemma TrustGoesBack(s: Sys, t: Sys)
    requires Grows(s, t) && Trustworthy(t)
    ensures Trustworthy(s)
  {}

  lemma {:induction false} FollowGrows(s: Sys, c: Cursor, rounds: seq<Round>)
    requires Inv(s) && RoundsAllowed(s, c, rounds)
    ensures Grows(s, Follow(s, c, rounds).end) && Inv(Follow(s, c, rounds).end)
    decreases |rounds|
  {
    hide Inv, Grows, Read, Run, AllAllowed;
    if rounds == [] {
      GrowsItself(s);
    } else {
      var t := Run(s, rounds[0].before);
      RunKeepsInv(s, rounds[0].before);
      RunGrows(s, rounds[0].before);
      InvMeansValid(t);
      var r := Read(t.mem, Some(Decoded(c)), rounds[0].limit);
      if r.Page? {
        FollowGrows(t, r.next, rounds[1..]);
        GrowsOn(s, t, Follow(s, c, rounds).end);
      }
    }
  }

  lemma GrowsItself(s: Sys)
    ensures Grows(s, s)
  {}

  lemma MintedLater(s: Sys, t: Sys, c: Cursor, g: nat)
    requires MintedBy(s, c, g) && Grows(s, t)
    ensures MintedBy(t, c, g)
  {}

  /** What a journey promises about the log of the creation that minted the starting cursor. */
  ghost predicate Exact(j: Journey, c: Cursor, g: nat)
    requires MintedBy(j.end, c, g)
  {
    var at := c.position + |j.rows|;
    && at <= |j.end.logs[g]|
    && j.rows == j.end.logs[g][c.position..at]
    && (match j.stop
        case Refused => false
        case Reached(next) => next == Cursor(c.project, c.epoch, at)
        case Gap(resume) =>
          && (g != j.end.gen || at < |Current(j.end)| - |j.end.mem.rows|)
          && resume.project == j.end.mem.project && resume.epoch == j.end.mem.epoch
          && resume.position == |Current(j.end)| - |j.end.mem.rows|)
  }

  /** With appends, evictions and recreations between the pages, the rows collected are the log
      strictly after the start, in order, each once; the journey stops short only at an explicit gap,
      whose resume cursor stands right before the oldest retained row. */
  lemma {:induction false} FollowIsExact(s: Sys, c: Cursor, g: nat, rounds: seq<Round>)
    requires Inv(s) && RoundsAllowed(s, c, rounds) && MintedBy(s, c, g)
    requires Trustworthy(Follow(s, c, rounds).end)
    ensures MintedBy(Follow(s, c, rounds).end, c, g) && Exact(Follow(s, c, rounds), c, g)
    decreases |rounds|
  {
    hide Inv, Grows, Read, Run, AllAllowed, Trustworthy, Replays, MintedBy;
    FollowGrows(s, c, rounds);
    var j := Follow(s, c, rounds);
    MintedLater(s, j.end, c, g);
    if rounds == [] {
      NothingRead(j, c, g);
    } else {
      var t := Run(s, rounds[0].before);
      RunKeepsInv(s, rounds[0].before);
      RunGrows(s, rounds[0].before);
      MintedLater(s, t, c, g);
      InvMeansValid(t);
      var r := Read(t.mem, Some(Decoded(c)), rounds[0].limit);
      if r.Page? { FollowGrows(t, r.next, rounds[1..]); } else { GrowsItself(t); }
      TrustGoesBack(t, j.end);
      ReadMeans(t, c, g, rounds[0].limit);
      if r.Page? {
        NextIsMinted(t, c, g, r);
        FollowIsExact(t, r.next, g, rounds[1..]);
        OnePageMore(t, c, g, r, Follow(t, r.next, rounds[1..]));
      } else {
        StopsAtGap(t, c, g, r);
        ResumeOf(t, c, rounds[0].limit);
      }
    }
  }

  lemma NothingRead(j: Journey, c: Cursor, g: nat)
    requires MintedBy(j.end, c, g) && j.rows == [] && j.stop == Reached(c)
    ensures Exact(j, c, g)
  {}

  lemma NextIsMinted(t: Sys, c: Cursor, g: nat, r: ReadResult)
    requires MintedBy(t, c, g) && Replays(t, c, g, r) && r.Page?
    ensures MintedBy(t, r.next, g) && r.next.position == c.position + |r.events|
  {}

  lemma OnePageMore(t: Sys, c: Cursor, g: nat, r: ReadResult, rest: Journey)
    requires MintedBy(t, c, g) && Replays(t, c, g, r) && r.Page? && Grows(t, rest.end)
    requires MintedBy(rest.end, r.next, g) && Exact(rest, r.next, g)
    ensures MintedBy(rest.end, c, g) && Exact(rest.(rows := r.events + rest.rows), c, g)
  {
    var log := rest.end.logs[g];
    var a, b := c.position, c.position + |r.events|;
    assert t.logs[g] == log[..|t.logs[g]|];
    assert r.events == log[a..b] by { SliceOfPrefix(log, |t.logs[g]|, a, b); }
    assert log[a..b] + log[b..b + |rest.rows|] == log[a..b + |rest.rows|];
  }

  lemma SliceOfPrefix(log: seq<Row>, n: nat, a: nat, b: nat)
    requires a <= b <= n <= |log|
    ensures log[..n][a..b] == log[a..b]
  {}

  lemma StopsAtGap(t: Sys, c: Cursor, g: nat, r: ReadResult)
    requires MintedBy(t, c, g) && Replays(t, c, g, r) && !r.Page?
    ensures r.TooOld? && (g != t.gen || c.position < |Current(t)| - |t.mem.rows|)
  {}

  lemma ResumeOf(t: Sys, c: Cursor, limit: nat)
    requires Inv(t) && Read(t.mem, Some(Decoded(c)), limit).TooOld?
    ensures Read(t.mem, Some(Decoded(c)), limit).resume == CursorAt(t.mem, |Current(t)| - |t.mem.rows|)
    ensures Oldest(t.mem).Some? ==> Oldest(t.mem).value == |Current(t)| - |t.mem.rows| + 1
  {
    hide PageAfter, Numbered, FileInv, MintInv;
    InvMeansValid(t);
    FirstIsLatestMinusKept(t.mem);
  }

  lemma FirstIsLatestMinusKept(m: State)
    requires Valid(m)
    ensures FirstRetained(m) == m.latest - |m.rows| + 1
    ensures Oldest(m).Some? ==> Oldest(m).value == m.latest - |m.rows| + 1
  {}

  /** A gap's resume cursor is one the running journal mints, and from it nothing retained is missed. */
  lemma ResumeReadsOn(s: Sys, c: Cursor, limit: nat, next: nat)
    requires Inv(s) && Trustworthy(s) && next >= 1
    requires Read(s.mem, Some(Decoded(c)), limit).TooOld?
    ensures var resume := Read(s.mem, Some(Decoded(c)), limit).resume;
      && MintedBy(s, resume, s.gen)
      && var r := Read(s.mem, Some(Decoded(resume)), next);
         r.Page? && r.events == s.mem.rows[..|r.events|] && (s.mem.rows != [] ==> r.events != [])
  {
    hide PageAfter, IsPage, PageEnd, SumBytes, RowBytes, Numbered, FileInv, Trustworthy;
    ResumeOf(s, c, limit);
    InvMeansValid(s);
    PageProperties(s.mem, FirstRetained(s.mem) - 1, next);
  }

  /** The raw read without a cursor starts at the oldest retained row. */
  lemma ReadWithoutCursor(s: Sys, limit: nat)
    requires Inv(s) && limit >= 1
    ensures var r := Read(s.mem, None, limit);
      && r.Page? && |r.events| <= |s.mem.rows| && r.events == s.mem.rows[..|r.events|]
      && (s.mem.rows != [] ==> r.events != [])
      && r.next == CursorAt(s.mem, |Current(s)| - |s.mem.rows| + |r.events|)
      && (r.hasMore <==> |r.events| < |s.mem.rows|)
  {
    hide PageAfter, IsPage, PageEnd, SumBytes, RowBytes, Numbered, FileInv, MintInv;
    InvMeansValid(s);
    PageProperties(s.mem, FirstRetained(s.mem) - 1, limit);
  }

  // ---- termination ----------------------------------------------------------------------------------

  ghost predicate Quiet(rounds: seq<Round>) {
    forall r <- rounds :: r.before == [] && r.limit >= 1
  }

  lemma {:induction false} QuietIsAllowed(s: Sys, c: Cursor, rounds: seq<Round>)
    requires Inv(s) && Quiet(rounds)
    ensures RoundsAllowed(s, c, rounds)
    decreases |rounds|
  {
    hide Inv, Read;
    InvMeansValid(s);
    if rounds != [] {
      assert rounds[0] in rounds && forall r <- rounds[1..] :: r in rounds;
      var r := Read(s.mem, Some(Decoded(c)), rounds[0].limit);
      RunKeepsInv(s, rounds[0].before);
      if r.Page? { QuietIsAllowed(s, r.next, rounds[1..]); }
    }
  }

  /** While nothing is appended, `latest` minus the position bounds the number of pages: that many
      reads reach the head, and everything outstanding has been collected. */
  lemma {:induction false} DrainReachesHead(s: Sys, c: Cursor, rounds: seq<Round>)
    requires Inv(s) && Trustworthy(s) && MintedBy(s, c, s.gen) && Quiet(rounds)
    requires c.position >= |Current(s)| - |s.mem.rows| && |rounds| >= |Current(s)| - c.position
    ensures RoundsAllowed(s, c, rounds)
    ensures Follow(s, c, rounds) ==
      Journey(s, Current(s)[c.position..], Reached(Cursor(c.project, c.epoch, |Current(s)|)))
    decreases |rounds|
  {
    QuietIsAllowed(s, c, rounds);
    hide Inv, Read, Trustworthy, Replays, RoundsAllowed;
    if rounds != [] {
      assert rounds[0] in rounds && forall r <- rounds[1..] :: r in rounds;
      RunKeepsInv(s, rounds[0].before);
      ReadMeans(s, c, s.gen, rounds[0].limit);
      var r := Read(s.mem, Some(Decoded(c)), rounds[0].limit);
      OnePageOfMany(s, c, r);
      DrainReachesHead(s, r.next, rounds[1..]);
      FollowOnce(s, c, rounds, r);
    } else {
      assert |Current(s)| == c.position;
      assert Current(s)[c.position..] == [];
    }
  }

  lemma OnePageOfMany(s: Sys, c: Cursor, r: ReadResult)
    requires MintedBy(s, c, s.gen) && Replays(s, c, s.gen, r) && |s.logs| == s.gen + 1
    requires c.position >= |Current(s)| - |s.mem.rows|
    ensures r.Page? && MintedBy(s, r.next, s.gen)
    ensures r.next == Cursor(c.project, c.epoch, c.position + |r.events|)
    ensures r.events + Current(s)[r.next.position..] == Current(s)[c.position..]
    ensures c.position < |Current(s)| ==> r.next.position > c.position
  {}

  lemma FollowOnce(s: Sys, c: Cursor, rounds: seq<Round>, r: ReadResult)
    requires Inv(s) && RoundsAllowed(s, c, rounds) && rounds != [] && rounds[0].before == []
    requires r == Read(s.mem, Some(Decoded(c)), rounds[0].limit) && r.Page?
    ensures RoundsAllowed(s, r.next, rounds[1..])
    ensures Follow(s, c, rounds) ==
      var rest := Follow(s, r.next, rounds[1..]); rest.(rows := r.events + rest.rows)
  {
    hide Inv, Read;
  }

  // ---- where a skip is not announced ----------------------------------------------------------------

  /** The file of a running journal always reads back. */
  lemma FileReads(s: Sys)
    requires Inv(s)
    ensures Readable(s.files.rows.value, s.mem.project)
  {
    hide OwnRow, MintInv;
    var lines := s.files.rows.value;
    var rows := RowsOf(lines);
    forall i | 0 <= i < |lines|
      ensures lines[i].row == Current(s)[|Current(s)| - |lines| + i]
    {
      assert lines[i].row == rows[i];
    }
  }

  /** Two events; the rows file is deleted, and the next start empties it anew but the disk refuses the
      index, so the journal goes on without one and records two events; one more restart. */
  function SkipSteps(a: Event, b: Event, now: Instant): seq<Step> {
    [Append(a, now, true, false), Append(b, now, true, false), Restart(RowsDeleted, now, 1, false),
     Append(b, now, true, false), Append(a, now, true, false), Restart(Intact, now, 2, true)]
  }

  /** An append that evicts nothing. */
  lemma SmallAppend(s: Sys, e: Event, now: Instant)
    requires Inv(s) && Admissible(e) && |s.mem.rows| < RETAINED_ROWS
    ensures var t := Next(s, Append(e, now, true, false));
      var row := NewRow(s.mem, e, now);
      && Inv(t) && t.gen == s.gen && t.minted == s.minted && t.files.index == s.files.index
      && t.mem == State(s.mem.project, s.mem.epoch, s.mem.rows + [row], s.mem.latest + 1)
      && t.logs == s.logs[..s.gen] + [Current(s) + [row]]
      && t.files.rows == Some(s.files.rows.value + [Parsed(row)])
  {
    hide EventId, Admissible;
    NextKeepsInv(s, Append(e, now, true, false));
    hide Inv;
    assert |s.logs| == s.gen + 1;
  }

  /** A fresh creation whose index never reached the disk. */
  lemma Unindexed(s: Sys, now: Instant, newEpoch: Epoch)
    requires Inv(s) && forall m <- s.minted :: m.0 != newEpoch
    ensures var t := Next(s, Restart(RowsDeleted, now, newEpoch, false));
      && Inv(t) && t.gen == s.gen + 1 && t.minted == s.minted + {(newEpoch, s.gen + 1)}
      && t.files.index == s.files.index && t.mem == State(s.mem.project, newEpoch, [], 0) && t.logs == s.logs + [[]]
      && t.files.rows == Some([])
  {
    NextKeepsInv(s, Restart(RowsDeleted, now, newEpoch, false));
  }

  /** The next restart believes the index it finds. */
  lemma Reloaded(s: Sys, now: Instant, newEpoch: Epoch)
    requires Inv(s) && (forall m <- s.minted :: m.0 != newEpoch)
    requires s.files.index.IndexOf? && s.files.index.project == s.mem.project
    ensures var t := Next(s, Restart(Intact, now, newEpoch, true));
      && Inv(t) && t.gen == s.gen && t.minted == s.minted + {(s.files.index.epoch, s.gen)}
      && t.mem.project == s.mem.project && t.mem.epoch == s.files.index.epoch && t.logs == s.logs
      && (|s.files.rows.value| <= RETAINED_ROWS ==> |t.mem.rows| == |s.files.rows.value|)
  {
    FileReads(s);
    NextKeepsInv(s, Restart(Intact, now, newEpoch, true));
    hide Readable;
  }

  /** Then a reader that had taken row 1 of the first creation is handed row 2 of the second as the
      very next row: no gap is stated, and two rows it never saw are stepped over. */
  lemma SilentSkip(project: seq<Unit>, a: Event, b: Event, now: Instant)
    requires Admissible(a) && Admissible(b)
    ensures var s := Run(Init(project, 0), SkipSteps(a, b, now));
      && AllAllowed(Init(project, 0), SkipSteps(a, b, now)) && Inv(s) && !Trustworthy(s)
      && |s.logs| == 2 && |s.logs[0]| == 2 && |s.logs[1]| == 2
      && s.logs[0][0].event == a && s.logs[0][1].event == b && s.logs[1][0].event == b
      && MintedBy(s, Cursor(project, 0, 1), 0)
      && var r := Read(s.mem, Some(Decoded(Cursor(project, 0, 1))), PAGE_ROWS);
         r.Page? && |r.events| == 1 && r.events[0] == s.logs[1][1]
  {
    hide Admissible, EventId, RowBytes, Inv, Next, Read, Run, AllAllowed, Trustworthy, Allowed;
    var steps := SkipSteps(a, b, now);
    var s0 := Init(project, 0);
    InitInv(project, 0);
    BeforeTheGap(project, a, b, now);
    var s3 := Next(Next(Next(s0, steps[0]), steps[1]), steps[2]);
    AfterTheGap(s3, a, b, now);
    var s6 := Next(Next(Next(s3, steps[3]), steps[4]), steps[5]);
    RunOfSix(s0, steps);
    AllowedSix(s0, steps);
    SecondRow(s6);
    CursorOfTheFirst(s6, project);
  }

  /** Two rows of a first journal are gone, a second one is empty, and the index is still the first's. */
  ghost predicate Unmarked(s: Sys, project: seq<Unit>, a: Event, b: Event) {
    && Inv(s) && s.gen == 1 && s.minted == {(0, 0), (1, 1)} && s.files == Files(IndexOf(project, 0), Some([]))
    && s.mem == State(project, 1, [], 0) && |s.logs| == 2 && |s.logs[0]| == 2 && s.logs[1] == []
    && s.logs[0][0].event == a && s.logs[0][1].event == b
  }

  lemma BeforeTheGap(project: seq<Unit>, a: Event, b: Event, now: Instant)
    requires Admissible(a) && Admissible(b)
    ensures var steps := SkipSteps(a, b, now);
      var s1 := Next(Init(project, 0), steps[0]);
      var s2 := Next(s1, steps[1]);
      && Unmarked(Next(s2, steps[2]), project, a, b)
      && Allowed(Init(project, 0), steps[0]) && Allowed(s1, steps[1]) && Allowed(s2, steps[2])
  {
    hide Admissible, EventId, RowBytes, LogInv, FileInv, MintInv, Next;
    var steps := SkipSteps(a, b, now);
    InitInv(project, 0);
    SmallAppend(Init(project, 0), a, now);
    var s1 := Next(Init(project, 0), steps[0]);
    SmallAppend(s1, b, now);
    Unindexed(Next(s1, steps[1]), now, 1);
  }

  lemma AfterTheGap(s: Sys, a: Event, b: Event, now: Instant)
    requires Unmarked(s, s.mem.project, a, b) && Admissible(a) && Admissible(b)
    ensures var steps := SkipSteps(a, b, now);
      var s4 := Next(s, steps[3]);
      var s5 := Next(s4, steps[4]);
      var s6 := Next(s5, steps[5]);
      && Allowed(s, steps[3]) && Allowed(s4, steps[4]) && Allowed(s5, steps[5])
      && Inv(s6) && s6.gen == 1 && s6.mem.project == s.mem.project && s6.mem.epoch == 0 && |s6.mem.rows| == 2
      && (0, 0) in s6.minted && (0, 1) in s6.minted
      && |s6.logs| == 2 && s6.logs[0] == s.logs[0] && |s6.logs[1]| == 2 && s6.logs[1][0].event == b
  {
    hide Admissible, EventId, RowBytes, LogInv, FileInv, MintInv, Next;
    var steps := SkipSteps(a, b, now);
    SmallAppend(s, b, now);
    var s4 := Next(s, steps[3]);
    SmallAppend(s4, a, now);
    Reloaded(Next(s4, steps[4]), now, 2);
  }

  lemma CursorOfTheFirst(s: Sys, project: seq<Unit>)
    requires (0, 0) in s.minted && (0, 1) in s.minted && s.mem.project == project && |s.logs| == 2 && |s.logs[0]| == 2
    ensures !Trustworthy(s) && MintedBy(s, Cursor(project, 0, 1), 0)
  {
    assert (0, 0).1 != (0, 1).1;
  }

  lemma RunOfSix(s: Sys, steps: seq<Step>)
    requires |steps| == 6
    ensures Run(s, steps) == Next(Next(Next(Next(Next(Next(s, steps[0]), steps[1]), steps[2]), steps[3]), steps[4]),
        steps[5])
  {
    hide Next;
    var t := Next(Next(s, steps[0]), steps[1]);
    assert Run(s, steps) == Run(t, steps[2..]);
    var u := Next(Next(t, steps[2]), steps[3]);
    assert Run(t, steps[2..]) == Run(u, steps[4..]);
    assert Run(Next(u, steps[4]), steps[5..]) == Next(Next(u, steps[4]), steps[5]);
  }

  lemma AllowedSix(s: Sys, steps: seq<Step>)
    requires |steps| == 6
    requires Allowed(s, steps[0])
    requires var s1 := Next(s, steps[0]);
      var s2 := Next(s1, steps[1]);
      var s3 := Next(s2, steps[2]);
      var s4 := Next(s3, steps[3]);
      var s5 := Next(s4, steps[4]);
      Allowed(s1, steps[1]) && Allowed(s2, steps[2]) && Allowed(s3, steps[3]) && Allowed(s4, steps[4])
          && Allowed(s5, steps[5])
    ensures AllAllowed(s, steps)
  {
    hide Next, Allowed;
    var t := Next(Next(s, steps[0]), steps[1]);
    var u := Next(Next(t, steps[2]), steps[3]);
    assert AllAllowed(Next(u, steps[4]), steps[5..]);
    assert AllAllowed(u, steps[4..]);
    assert AllAllowed(Next(t, steps[2]), steps[3..]);
    assert AllAllowed(t, steps[2..]);
    assert AllAllowed(Next(s, steps[0]), steps[1..]);
  }

  lemma SecondRow(s: Sys)
    requires Inv(s) && |Current(s)| == 2 && s.gen == 1 && s.mem.epoch == 0
    requires |s.mem.rows| == 2
    ensures var r := Read(s.mem, Some(Decoded(Cursor(s.mem.project, 0, 1))), PAGE_ROWS);
      r.Page? && |r.events| == 1 && r.events[0] == s.logs[1][1]
  {
    hide Numbered, PageAfter, PageEnd, IsPage, SumBytes, RowBytes;
    InvMeansValid(s);
    PageProperties(s.mem, 1, PAGE_ROWS);
  }
}
