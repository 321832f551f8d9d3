/** The consumer's half of at-least-once delivery: rows come back duplicated and out of order, and are
    released once each in the journal's own order. */
module LeaderInbox {
  import opened Options
  import opened Text
  import opened JournalRows
  import opened Journal

  datatype Missing = Missing(fromSeq: nat, toSeq: nat)

  datatype Accepted = Accepted(deliver: seq<Row>, duplicates: nat, missing: Option<Missing>)

  /** What an inbox holds between two calls. */
  datatype Inbox = Inbox(project: seq<Unit>, delivered: nat, held: map<nat, Row>)

  ghost predicate Sound(s: Inbox) {
    forall n <- s.held :: n > s.delivered && s.held[n].journalSeq == n && OwnRow(s.held[n], s.project)
  }

  ghost predicate Settled(s: Inbox) {
    s.delivered + 1 !in s.held && Sound(s)
  }

  // ---- what a call has seen -------------------------------------------------------------------------

  predicate IsNew(s: Inbox, r: Row) { r.journalSeq > s.delivered && r.journalSeq !in s.held }

  /** The rows of a batch join the held ones; the first arrival of a number wins. */
  function Absorb(s: Inbox, rows: seq<Row>): Inbox
    decreases |rows|
  {
    if rows == [] then s
    else
      var before := Absorb(s, rows[..|rows| - 1]);
      var r := rows[|rows| - 1];
      if OwnRow(r, s.project) && IsNew(before, r) then before.(held := before.held[r.journalSeq := r]) else before
  }

  /** How many own rows of a batch were delivered, held, or seen earlier in the batch. */
  function Duplicates(s: Inbox, rows: seq<Row>): nat
    decreases |rows|
  {
    if rows == [] then 0
    else
      var r := rows[|rows| - 1];
      Duplicates(s, rows[..|rows| - 1])
      + if OwnRow(r, s.project) && !IsNew(Absorb(s, rows[..|rows| - 1]), r) then 1 else 0
  }

  /** The numbers an inbox accounts for after a batch. */
  ghost function Numbers(rows: seq<Row>, project: seq<Unit>): set<nat> {
    set r <- rows | OwnRow(r, project) :: r.journalSeq
  }

  lemma {:induction false} AbsorbCollects(s: Inbox, rows: seq<Row>)
    requires Sound(s)
    ensures var t := Absorb(s, rows);
      && t.project == s.project && t.delivered == s.delivered
      && (forall n :: n in t.held <==> n in s.held || (n > s.delivered && n in Numbers(rows, s.project)))
      && Sound(t)
      && (forall n <- s.held :: t.held[n] == s.held[n])
      && (forall n <- t.held :: n in s.held || t.held[n] in rows)
    decreases |rows|
  {
    hide OwnRow;
    if rows != [] {
      var front := rows[..|rows| - 1];
      AbsorbCollects(s, front);
      assert rows == front + [rows[|rows| - 1]];
      NumbersGrow(front, rows[|rows| - 1], s.project);
    }
  }

  lemma NumbersGrow(front: seq<Row>, r: Row, project: seq<Unit>)
    ensures Numbers(front + [r], project) ==
      Numbers(front, project) + if OwnRow(r, project) then {r.journalSeq} else {}
  {
    hide OwnRow;
    var rows := front + [r];
    forall n ensures n in Numbers(rows, project) <==> n in Numbers(front, project) + if OwnRow(r, project) then {r.journalSeq} else {} {
      if n in Numbers(front, project) {
        var x :| x in front && OwnRow(x, project) && x.journalSeq == n;
        assert x in rows;
      }
      if OwnRow(r, project) && n == r.journalSeq { assert r in rows; }
    }
  }

  // ---- release --------------------------------------------------------------------------------------

  datatype Released = Released(rows: seq<Row>, state: Inbox)

  function Release(s: Inbox): Released
    decreases |s.held|
  {
    if s.delivered + 1 in s.held then
      var r := s.held[s.delivered + 1];
      var rest := Release(s.(delivered := s.delivered + 1, held := s.held - {s.delivered + 1}));
      rest.(rows := [r] + rest.rows)
    else Released([], s)
  }

  /** The unbroken run that follows what was delivered, up to the first hole. */
  ghost predicate IsTheRun(s: Inbox, x: Released) {
    && Settled(x.state) && x.state.project == s.project && x.state.delivered == s.delivered + |x.rows|
    && (forall n :: s.delivered < n <= x.state.delivered ==> n in s.held)
    && (forall i :: 0 <= i < |x.rows| ==> s.delivered + 1 + i in s.held && x.rows[i] == s.held[s.delivered + 1 + i])
    && (forall n :: n in x.state.held <==> n in s.held && n > x.state.delivered)
    && (forall n <- x.state.held :: x.state.held[n] == s.held[n])
  }

  lemma {:induction false} ReleaseIsTheRun(s: Inbox)
    requires Sound(s)
    ensures IsTheRun(s, Release(s))
    decreases |s.held|
  {
    hide OwnRow, IsTheRun;
    if s.delivered + 1 in s.held {
      var t := s.(delivered := s.delivered + 1, held := s.held - {s.delivered + 1});
      ReleaseIsTheRun(t);
      OneMoreReleased(s, Release(t));
    } else {
      NothingReleased(s);
    }
  }

  lemma NothingReleased(s: Inbox)
    requires Sound(s) && s.delivered + 1 !in s.held
    ensures IsTheRun(s, Released([], s))
  {
    hide OwnRow;
  }

  lemma OneMoreReleased(s: Inbox, rest: Released)
    requires Sound(s) && s.delivered + 1 in s.held
    requires IsTheRun(s.(delivered := s.delivered + 1, held := s.held - {s.delivered + 1}), rest)
    ensures IsTheRun(s, rest.(rows := [s.held[s.delivered + 1]] + rest.rows))
  {
    hide OwnRow;
    var t := s.(delivered := s.delivered + 1, held := s.held - {s.delivered + 1});
    assert forall n :: t.delivered < n <= rest.state.delivered ==> n in t.held;
    var rows := [s.held[s.delivered + 1]] + rest.rows;
    var x := rest.(rows := rows);
    forall n | s.delivered < n <= x.state.delivered ensures n in s.held {
      if n > t.delivered { assert n in t.held; }
    }
    forall i | 0 <= i < |rows| ensures s.delivered + 1 + i in s.held && rows[i] == s.held[s.delivered + 1 + i] {
      if i > 0 { assert rows[i] == rest.rows[i - 1]; }
    }
  }

  function Accept(s: Inbox, rows: seq<Row>): Released { Release(Absorb(s, rows)) }

  // ---- many batches ---------------------------------------------------------------------------------

  function AcceptAll(s: Inbox, batches: seq<seq<Row>>): Released
    decreases |batches|
  {
    if batches == [] then Released([], s)
    else
      var first := Accept(s, batches[0]);
      var rest := AcceptAll(first.state, batches[1..]);
      rest.(rows := first.rows + rest.rows)
  }

  ghost predicate Genuine(rows: seq<Row>, log: seq<Row>, project: seq<Unit>) {
    forall r <- rows :: OwnRow(r, project) ==> 1 <= r.journalSeq <= |log| && r == log[r.journalSeq - 1]
  }

  ghost predicate HoldsFrom(s: Inbox, log: seq<Row>) {
    Settled(s) && s.delivered <= |log| && forall n <- s.held :: n <= |log| && s.held[n] == log[n - 1]
  }

  lemma OneBatch(s: Inbox, rows: seq<Row>, log: seq<Row>)
    requires HoldsFrom(s, log) && Genuine(rows, log, s.project)
    ensures var x := Accept(s, rows);
      && HoldsFrom(x.state, log) && x.state.project == s.project && s.delivered <= x.state.delivered
      && x.rows == log[s.delivered..x.state.delivered]
      && (forall n :: n > x.state.delivered ==>
            (n in x.state.held <==> n in s.held || n in Numbers(rows, s.project)))
      && (forall n :: s.delivered < n <= x.state.delivered ==> n in s.held || n in Numbers(rows, s.project))
  {
    hide OwnRow, Numbers, Absorb, Genuine, Release;
    AbsorbCollects(s, rows);
    GenuineHeld(s, rows, log);
    ReleasedFromLog(Absorb(s, rows), log);
  }

  lemma ReleasedFromLog(t: Inbox, log: seq<Row>)
    requires t.delivered <= |log|
    requires Sound(t) && forall n <- t.held :: n <= |log| && t.held[n] == log[n - 1]
    ensures var x := Release(t);
      && HoldsFrom(x.state, log) && x.state.project == t.project && t.delivered <= x.state.delivered
      && x.rows == log[t.delivered..x.state.delivered]
      && (forall n :: n in x.state.held <==> n in t.held && n > x.state.delivered)
      && (forall n :: t.delivered < n <= x.state.delivered ==> n in t.held)
  {
    hide OwnRow, Release;
    ReleaseIsTheRun(t);
    var x := Release(t);
    assert x.state.delivered > t.delivered ==> x.state.delivered in t.held;
  }

  lemma GenuineHeld(s: Inbox, rows: seq<Row>, log: seq<Row>)
    requires HoldsFrom(s, log) && Genuine(rows, log, s.project)
    ensures forall n <- Absorb(s, rows).held :: 1 <= n <= |log| && Absorb(s, rows).held[n] == log[n - 1]
  {
    hide OwnRow;
    AbsorbCollects(s, rows);
  }

  ghost function AllNumbers(batches: seq<seq<Row>>, project: seq<Unit>): set<nat>
    decreases |batches|
  {
    if batches == [] then {} else Numbers(batches[0], project) + AllNumbers(batches[1..], project)
  }

  /** Whatever is duplicated, reordered or split into batches: the rows released are the log from the
      starting place, in order, each once, up to the first number that never arrived; what arrived
      beyond it is held. */
  lemma {:induction false} ExactlyOnceInOrder(s: Inbox, batches: seq<seq<Row>>, log: seq<Row>)
    requires HoldsFrom(s, log) && forall b <- batches :: Genuine(b, log, s.project)
    ensures var x := AcceptAll(s, batches);
      var seen := s.held.Keys + AllNumbers(batches, s.project);
      && HoldsFrom(x.state, log) && x.state.project == s.project && s.delivered <= x.state.delivered
      && x.rows == log[s.delivered..x.state.delivered]
      && (forall n :: s.delivered < n <= x.state.delivered ==> n in seen)
      && (forall n :: n > x.state.delivered ==> (n in x.state.held <==> n in seen))
    decreases |batches|
  {
    hide Genuine, OwnRow, Numbers, Accept;
    if batches != [] {
      assert batches[0] in batches && forall b <- batches[1..] :: b in batches;
      OneBatch(s, batches[0], log);
      var first := Accept(s, batches[0]);
      ExactlyOnceInOrder(first.state, batches[1..], log);
      var x := AcceptAll(s, batches);
      assert log[s.delivered..first.state.delivered] + log[first.state.delivered..x.state.delivered]
             == log[s.delivered..x.state.delivered];
    }
  }

  /** Two leaders that saw the same numbers end in the same place with the same rows delivered, however
      differently the deliveries arrived. */
  lemma OrderDoesNotMatter(s: Inbox, a: seq<seq<Row>>, b: seq<seq<Row>>, log: seq<Row>)
    requires HoldsFrom(s, log) && (forall x <- a + b :: Genuine(x, log, s.project))
    requires AllNumbers(a, s.project) == AllNumbers(b, s.project)
    ensures AcceptAll(s, a) == AcceptAll(s, b)
  {
    hide Genuine, OwnRow, AllNumbers, AcceptAll;
    assert forall x <- a :: x in a + b;
    assert forall x <- b :: x in a + b;
    ExactlyOnceInOrder(s, a, log);
    ExactlyOnceInOrder(s, b, log);
    SameEnd(s, AcceptAll(s, a).state, AcceptAll(s, b).state, s.held.Keys + AllNumbers(a, s.project), log);
  }

  lemma SameEnd(s: Inbox, x: Inbox, y: Inbox, seen: set<nat>, log: seq<Row>)
    requires HoldsFrom(x, log) && HoldsFrom(y, log) && x.project == y.project
    requires s.delivered <= x.delivered && s.delivered <= y.delivered
    requires forall n :: (s.delivered < n <= x.delivered ==> n in seen) && (n > x.delivered ==> (n in x.held <==> n in seen))
    requires forall n :: (s.delivered < n <= y.delivered ==> n in seen) && (n > y.delivered ==> (n in y.held <==> n in seen))
    ensures x == y
  {
    hide OwnRow;
    assert x.delivered + 1 !in seen && y.delivered + 1 !in seen;
    assert x.held == y.held;
  }

  // ---- the class ------------------------------------------------------------------------------------

  /** The first missing range: from the next number to the one before the smallest held. */
  ghost predicate IsFirstGap(s: Inbox, missing: Option<Missing>) {
    match missing
    case None => s.held == map[]
    case Some(m) => m.fromSeq == s.delivered + 1 && m.fromSeq <= m.toSeq && m.toSeq + 1 in s.held
                    && forall n :: m.fromSeq <= n <= m.toSeq ==> n !in s.held
  }

  class LeaderInbox {
    const projectId: seq<Unit>
    var deliveredSeq: nat
    var held: map<nat, Row>

    ghost function View(): Inbox
      reads this
    {
      Inbox(projectId, deliveredSeq, held)
    }

    constructor (projectId: seq<Unit>, afterSeq: nat)
      ensures View() == Inbox(projectId, afterSeq, map[]) && Settled(View())
    {
      this.projectId := projectId;
      deliveredSeq := afterSeq;
      held := map[];
    }

    method Accept(rows: seq<Row>) returns (a: Accepted)
      requires Settled(View())
      modifies this
      ensures Settled(View()) && View() == Release(Absorb(old(View()), rows)).state
      ensures a.deliver == Release(Absorb(old(View()), rows)).rows
      ensures a.duplicates == Duplicates(old(View()), rows)
      ensures IsFirstGap(View(), a.missing)
    {
      hide OwnRow, Absorb, Duplicates, Release, Numbers;
      ghost var s := View();
      AbsorbCollects(s, rows);
      ReleaseIsTheRun(Absorb(s, rows));
      var duplicates := Take(rows);
      var deliver := Drain();
      if held == map[] { return Accepted(deliver, duplicates, None); }
      var firstHeld := Smallest(held.Keys);
      assert firstHeld in held;
      a := Accepted(deliver, duplicates, Some(Missing(deliveredSeq + 1, firstHeld - 1)));
    }

    /** The first loop of `Accept`. */
    method Take(rows: seq<Row>) returns (duplicates: nat)
      modifies this`held
      ensures View() == Absorb(old(View()), rows) && duplicates == Duplicates(old(View()), rows)
    {
      hide OwnRow;
      duplicates := 0;
      ghost var s := View();
      for i := 0 to |rows|
        invariant View() == Absorb(s, rows[..i]) && duplicates == Duplicates(s, rows[..i])
      {
        var row := rows[i];
        assert rows[..i + 1][..i] == rows[..i];
        if !OwnRow(row, projectId) { continue; }
        if row.journalSeq <= deliveredSeq || row.journalSeq in held {
          duplicates := duplicates + 1;
          continue;
        }
        held := held[row.journalSeq := row];
      }
      assert rows[..|rows|] == rows;
    }

    /** The second loop of `Accept`. */
    method Drain() returns (deliver: seq<Row>)
      requires forall n <- held :: held[n].journalSeq == n
      modifies this`deliveredSeq, this`held
      ensures View() == Release(old(View())).state && deliver == Release(old(View())).rows
    {
      ghost var s := View();
      deliver := [];
      while deliveredSeq + 1 in held
        invariant forall n <- held :: held[n].journalSeq == n
        invariant Release(s) == var rest := Release(View()); rest.(rows := deliver + rest.rows)
        decreases |held|
      {
        var next := held[deliveredSeq + 1];
        held := held - {next.journalSeq};
        deliveredSeq := next.journalSeq;
        deliver := deliver + [next];
      }
    }
  }

  method Smallest(keys: set<nat>) returns (least: nat)
    requires keys != {}
    ensures least in keys && forall n <- keys :: least <= n
  {
    var rest := keys;
    least :| least in rest;
    rest := rest - {least};
    while rest != {}
      invariant rest <= keys && least in keys
      invariant forall n <- keys :: n in rest || least <= n
      decreases rest
    {
      var n :| n in rest;
      if n < least { least := n; }
      rest := rest - {n};
    }
  }
}
