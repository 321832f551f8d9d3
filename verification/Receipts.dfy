/** The operation receipts: what one journal of receipt lines means, what a torn write does to it, how
    it is loaded, compacted and evicted from. */
module Receipts {
  import opened Options

  /** Twelve resumes of a five-hour window, and a day. */
  const MAX_AGE_MS := 12 * 5 * 60 * 60_000 + 24 * 60 * 60_000
  const MAX_KEPT := 50_000

  /** `<projectId>/<operationId>`. */
  type Key = string

  datatype ResultRef = ResultRef(kind: string, id: string)

  datatype Outcome = Ok(ref: ResultRef) | Rejected(code: string) | NotApplied(code: string) | Unverified(code: string)

  datatype Predicate =
    | RunByKey(predictedRunId: string)
    | ForgeSearch(repository: string, headBranch: string)
    | GitState(refName: string, sha: string)
    | NoPredicate

  /** An intent has no outcome yet. `digest` stands for the digest of the parsed payload. */
  datatype Receipt = Receipt(
    key: Key, action: string, digest: nat, outcome: Option<Outcome>, startedAt: int, reconcile: Option<Predicate>)

  // ---- keys -----------------------------------------------------------------------------------------

  function OperationKey(project: string, operation: string): Key { project + "/" + operation }

  function LastSlash(key: string): (n: nat)
    ensures n <= |key|
  {
    if key == "" then 0 else if key[|key| - 1] == '/' then |key| - 1 else LastSlash(key[..|key| - 1])
  }

  function ProjectOf(key: Key): string { key[..LastSlash(key)] }

  /** The id alphabet has no slash, so the split of a key is unambiguous. */
  lemma {:induction false} KeySplits(project: string, operation: string)
    requires '/' !in operation
    ensures ProjectOf(OperationKey(project, operation)) == project
    decreases |operation|
  {
    var key := OperationKey(project, operation);
    if operation == "" {
      assert key[|key| - 1] == '/';
    } else {
      var shorter := operation[..|operation| - 1];
      KeySplits(project, shorter);
      assert key[|key| - 1] == operation[|operation| - 1] && operation[|operation| - 1] in operation;
      assert key[..|key| - 1] == OperationKey(project, shorter);
    }
  }

  lemma KeysAreDistinct(p: string, o: string, q: string, r: string)
    requires '/' !in o && '/' !in r && OperationKey(p, o) == OperationKey(q, r)
    ensures p == q && o == r
  {
    KeySplits(p, o);
    KeySplits(q, r);
    assert OperationKey(p, o)[|p| + 1..] == o && OperationKey(q, r)[|q| + 1..] == r;
  }

  // ---- the journal's text ---------------------------------------------------------------------------

  datatype Line =
    | Blank
    | Entry(receipt: Receipt)
    | Header(generation: nat)
    | Damage(lines: nat, at: int)
    | Garbage

  /** Complete lines, and what stands after the last newline: nothing, or a torn line, which may hold a
      whole line that only lacks its newline. */
  datatype Text = Text(lines: seq<Line>, tail: Option<Line>)

  const EMPTY := Text([], None)

  /** What a line becomes when more text lands on it before its newline does. */
  function Merged(tail: Line, more: Line): Line { if more.Blank? then tail else Garbage }

  /** Appending text to a file: the first piece continues the torn line. */
  function Join(file: Text, more: Text): Text {
    match file.tail
    case None => Text(file.lines + more.lines, more.tail)
    case Some(t) =>
      if more.lines == [] then Text(file.lines, if more.tail.None? then Some(t) else Some(Garbage))
      else Text(file.lines + [Merged(t, more.lines[0])] + more.lines[1..], more.tail)
  }

  /** Writing nothing changes nothing, a torn line stays torn; and a piece that follows one spoils it. */
  lemma TornStaysTorn(file: Text, piece: Line)
    ensures Join(file, EMPTY) == file
    ensures file.tail.Some? ==> Join(file, Text([], Some(piece))) == Text(file.lines, Some(Garbage))
    ensures file.tail.Some? ==> Join(file, Text([Blank], None)) == Text(file.lines + [file.tail.value], None)
  {}

  /** What can be on disk of a write that failed: some of its lines, and perhaps a piece of the next. */
  predicate IsPart(part: Text, chunk: seq<Line>) {
    && |part.lines| <= |chunk| && part.lines == chunk[..|part.lines|]
    && (part.tail.Some? ==> |part.lines| < |chunk| && !chunk[|part.lines|].Blank?
                            && (part.tail.value == Garbage || part.tail.value == chunk[|part.lines|]))
  }

  // ---- reading it back ------------------------------------------------------------------------------

  /** Latest line per key wins. */
  function Folded(lines: seq<Line>): map<Key, Receipt> {
    if lines == [] then map[]
    else
      var before := Folded(lines[..|lines| - 1]);
      var last := lines[|lines| - 1];
      if last.Entry? then before[last.receipt.key := last.receipt] else before
  }

  /** The lines that read as nothing. */
  function Bad(lines: seq<Line>): nat {
    if lines == [] then 0 else Bad(lines[..|lines| - 1]) + if lines[|lines| - 1].Garbage? then 1 else 0
  }

  /** What earlier compactions carried over as lost. */
  function Marks(lines: seq<Line>): nat {
    if lines == [] then 0
    else Marks(lines[..|lines| - 1]) + if lines[|lines| - 1].Damage? then lines[|lines| - 1].lines else 0
  }

  function Earlier(a: Option<int>, b: int): Option<int> {
    if a.None? || b < a.value then Some(b) else a
  }

  function MarkedAt(lines: seq<Line>, start: Option<int>): Option<int> {
    if lines == [] then start
    else
      var before := MarkedAt(lines[..|lines| - 1], start);
      if lines[|lines| - 1].Damage? then Earlier(before, lines[|lines| - 1].at) else before
  }

  datatype Activity =
    /** The effect is running; whether it has taken place yet. */
    | Running(intent: Receipt, applied: bool)
    /** A dangling intent is being asked about. */
    | Settling(intent: Receipt)
    /** A miss in a damaged journal is being asked about. */
    | Asking(request: Request, startedAt: int)

  datatype Request = Request(key: Key, action: string, digest: nat, reconcile: Predicate)

  datatype Store = Store(
    receipts: map<Key, Receipt>, live: map<Key, Activity>, quarantined: nat, damageAt: Option<int>,
    started: bool, needsNewline: bool)

  const NOTHING := Store(map[], map[], 0, None, false, false)

  /** A load-time shortcut: the folded receipts of the first `offset` lines. */
  datatype Snapshot = Snapshot(generation: nat, offset: nat, receipts: map<Key, Receipt>, damage: Option<Line>)

  predicate Usable(journal: Text, snapshot: Option<Snapshot>) {
    && snapshot.Some? && journal.lines != [] && journal.lines[0] == Header(snapshot.value.generation)
    && snapshot.value.offset <= |journal.lines|
  }

  function Load(journal: Text, snapshot: Option<Snapshot>, now: int): Store {
    if journal == EMPTY then NOTHING
    else if Usable(journal, snapshot) then
      var s := snapshot.value;
      var marked := if s.damage.Some? && s.damage.value.Damage? then (s.damage.value.lines, Some(s.damage.value.at))
          else (0, None);
      Scanned(s.receipts, marked.0, marked.1, journal.lines[s.offset..], journal.tail, now)
    else Scanned(map[], 0, None, journal.lines, journal.tail, now)
  }

  function Scanned(receipts: map<Key, Receipt>, quarantined: nat, damageAt: Option<int>,
                   lines: seq<Line>, tail: Option<Line>, now: int): Store
  {
    var bad := Bad(lines) + if tail.Some? then 1 else 0;
    var at := MarkedAt(lines, damageAt);
    Store(receipts + Folded(lines), map[], quarantined + Marks(lines) + bad, if bad > 0 then Earlier(at, now) else at,
          true, tail.Some?)
  }

  /** The scan, line by line. */
  method LoadLines(start: Store, lines: seq<Line>, tail: Option<Line>, now: int) returns (s: Store)
    requires start.live == map[]
    ensures s == Scanned(start.receipts, start.quarantined, start.damageAt, lines, tail, now)
  {
    var receipts, quarantined, damageAt, bad := start.receipts, start.quarantined, start.damageAt, 0;
    for i := 0 to |lines|
      invariant receipts == start.receipts + Folded(lines[..i])
      invariant quarantined == start.quarantined + Marks(lines[..i]) && bad == Bad(lines[..i])
      invariant damageAt == MarkedAt(lines[..i], start.damageAt)
    {
      assert lines[..i + 1][..i] == lines[..i];
      match lines[i]
      case Blank =>
      case Entry(receipt) => receipts := receipts[receipt.key := receipt];
      case Header(_) =>
      case Damage(n, at) => quarantined, damageAt := quarantined + n, Earlier(damageAt, at);
      case Garbage => bad := bad + 1;
    }
    assert lines[..|lines|] == lines;
    if tail.Some? { bad := bad + 1; }
    if bad > 0 { quarantined, damageAt := quarantined + bad, Earlier(damageAt, now); }
    s := Store(receipts, map[], quarantined, damageAt, true, tail.Some?);
  }

  lemma {:induction false} FoldedAdds(a: seq<Line>, b: seq<Line>)
    ensures Folded(a + b) == Folded(a) + Folded(b)
    ensures Bad(a + b) == Bad(a) + Bad(b) && Marks(a + b) == Marks(a) + Marks(b)
    decreases |b|
  {
    if b == [] {
      assert a + b == a;
    } else {
      FoldedAdds(a, b[..|b| - 1]);
      assert (a + b)[..|a + b| - 1] == a + b[..|b| - 1];
    }
  }

  lemma {:induction false} MarkedAdds(a: seq<Line>, b: seq<Line>, start: Option<int>)
    ensures MarkedAt(a + b, start) == MarkedAt(b, MarkedAt(a, start))
    decreases |b|
  {
    if b == [] {
      assert a + b == a;
    } else {
      MarkedAdds(a, b[..|b| - 1], start);
      assert (a + b)[..|a + b| - 1] == a + b[..|b| - 1];
    }
  }

  // ---- the snapshot is only a shortcut --------------------------------------------------------------

  /** A snapshot that carries the journal's generation says exactly what the lines it covers say. */
  ghost predicate Covers(journal: Text, snapshot: Snapshot) {
    && snapshot.offset <= |journal.lines|
    && var front := journal.lines[..snapshot.offset];
       && snapshot.receipts == Folded(front) && Bad(front) == 0
       && match snapshot.damage
          case None => Marks(front) == 0 && MarkedAt(front, None) == None
          case Some(d) => d.Damage? && Marks(front) == d.lines && MarkedAt(front, None) == Some(d.at)
  }

  lemma SnapshotIsAShortcut(journal: Text, snapshot: Snapshot, now: int)
    requires Usable(journal, Some(snapshot)) ==> Covers(journal, snapshot)
    ensures Load(journal, Some(snapshot), now) == Load(journal, None, now)
  {
    if Usable(journal, Some(snapshot)) {
      var front, rest := journal.lines[..snapshot.offset], journal.lines[snapshot.offset..];
      assert front + rest == journal.lines;
      hide Folded, Bad, Marks, MarkedAt;
      FoldedAdds(front, rest);
      MarkedAdds(front, rest, None);
    }
  }

  // ---- retention ------------------------------------------------------------------------------------

  /** Every receipt once, newest first. */
  ghost predicate NewestFirst(order: seq<Receipt>, receipts: map<Key, Receipt>) {
    && (forall i :: 0 <= i < |order| ==> order[i].key in receipts && receipts[order[i].key] == order[i])
    && (forall k <- receipts :: receipts[k] in order)
    && (forall i, j :: 0 <= i < j < |order| ==> order[i].key != order[j].key && order[i].startedAt >= order[j].startedAt)
  }

  /** How many of a project's receipts stand before place `i`. */
  function Rank(order: seq<Receipt>, i: nat, project: string): nat
    requires i <= |order|
  {
    if i == 0 then 0 else Rank(order, i - 1, project) + if ProjectOf(order[i - 1].key) == project then 1 else 0
  }

  predicate Evictable(r: Receipt, cutoff: int, live: set<ResultRef>) {
    r.startedAt < cutoff && r.outcome.Some? && !(r.outcome.value.Ok? && r.outcome.value.ref in live)
  }

  predicate EvictedAt(order: seq<Receipt>, i: nat, cutoff: int, live: set<ResultRef>)
    requires i < |order|
  {
    Rank(order, i, ProjectOf(order[i].key)) >= MAX_KEPT && Evictable(order[i], cutoff, live)
  }

  ghost predicate Gone(order: seq<Receipt>, i: nat, cutoff: int, live: set<ResultRef>, k: Key)
    requires i <= |order|
  {
    exists j :: 0 <= j < i && order[j].key == k && EvictedAt(order, j, cutoff, live)
  }

  ghost function Kept(receipts: map<Key, Receipt>, order: seq<Receipt>, cutoff: int, live: set<ResultRef>): map<Key,
      Receipt> {
    map k | k in receipts && !Gone(order, |order|, cutoff, live, k) :: receipts[k]
  }

  lemma GoneStep(order: seq<Receipt>, i: nat, cutoff: int, live: set<ResultRef>, k: Key)
    requires i < |order|
    ensures Gone(order, i + 1, cutoff, live, k) <==>
      Gone(order, i, cutoff, live, k) || (order[i].key == k && EvictedAt(order, i, cutoff, live))
  {
    hide EvictedAt;
  }

  /** The eviction loop. */
  method Evict(receipts: map<Key, Receipt>, order: seq<Receipt>, cutoff: int, live: set<ResultRef>)
    returns (kept: map<Key, Receipt>)
    requires NewestFirst(order, receipts)
    ensures kept == Kept(receipts, order, cutoff, live)
  {
    hide NewestFirst, Evictable, ProjectOf, Rank, Gone;
    kept := receipts;
    var counts: map<string, nat> := map[];
    NoneYet(order, cutoff, live);
    for i := 0 to |order|
      invariant forall p :: (if p in counts then counts[p] else 0) == Rank(order, i, p)
      invariant forall k :: k in kept <==> k in receipts && !Gone(order, i, cutoff, live, k)
      invariant forall k <- kept :: kept[k] == receipts[k]
    {
      var r := order[i];
      var project := ProjectOf(r.key);
      var rank := if project in counts then counts[project] else 0;
      RankStep(order, i);
      forall k ensures Gone(order, i + 1, cutoff, live, k) <==>
                         Gone(order, i, cutoff, live, k) || (r.key == k && EvictedAt(order, i, cutoff, live)) {
        GoneStep(order, i, cutoff, live, k);
      }
      counts := counts[project := rank + 1];
      if rank < MAX_KEPT { continue; }
      if !Evictable(r, cutoff, live) { continue; }
      kept := kept - {r.key};
    }
  }

  lemma NoneYet(order: seq<Receipt>, cutoff: int, live: set<ResultRef>)
    ensures (forall p :: Rank(order, 0, p) == 0) && forall k :: !Gone(order, 0, cutoff, live, k)
  {}

  lemma RankStep(order: seq<Receipt>, i: nat)
    requires i < |order|
    ensures forall p :: Rank(order, i + 1, p) == Rank(order, i, p) + if ProjectOf(order[i].key) == p then 1 else 0
  {
    hide ProjectOf;
  }

  /** The places before `i` that belong to a project. */
  ghost function Peers(order: seq<Receipt>, i: nat, project: string): set<nat>
    requires i <= |order|
  {
    set j: nat | 0 <= j < i && ProjectOf(order[j].key) == project
  }

  lemma {:induction false} RankCounts(order: seq<Receipt>, i: nat, project: string)
    requires i <= |order|
    ensures Rank(order, i, project) == |Peers(order, i, project)|
  {
    hide ProjectOf;
    if i == 0 {
      assert Peers(order, i, project) == {};
    } else {
      RankCounts(order, i - 1, project);
      var before := Peers(order, i - 1, project);
      assert Peers(order, i, project) == if ProjectOf(order[i - 1].key) == project then before + {i - 1} else before;
    }
  }

  /** Only a settled receipt goes, only past the age floor, only while its project keeps at least the
      floor's number of receipts no older than it, and never while its result still exists. */
  lemma EvictionMeans(receipts: map<Key, Receipt>, order: seq<Receipt>, cutoff: int, live: set<ResultRef>, k: Key)
    requires NewestFirst(order, receipts) && k in receipts && k !in Kept(receipts, order, cutoff, live)
    ensures var r := receipts[k];
      && r.outcome.Some? && r.startedAt < cutoff && (r.outcome.value.Ok? ==> r.outcome.value.ref !in live)
      && exists newer: set<nat> :: |newer| >= MAX_KEPT
           && forall j <- newer :: j < |order| && order[j].key != k && order[j].startedAt >= r.startedAt
                                   && ProjectOf(order[j].key) == ProjectOf(k)
  {
    hide ProjectOf, Rank;
    var i :| 0 <= i < |order| && order[i].key == k && EvictedAt(order, i, cutoff, live);
    RankCounts(order, i, ProjectOf(k));
    assert |Peers(order, i, ProjectOf(k))| >= MAX_KEPT;
  }
}
