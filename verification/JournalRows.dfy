/** What one event costs on the wire. The journal bounds a replay page in bytes and also promises at
    least one row per page; the two agree because no admissible event can outgrow a page. */
module JournalRows {
  import opened Options
  import opened Text
  import opened Json

  const PAGE_BYTES := 40_000
  const MAX_SAFE_INTEGER := 9_007_199_254_740_991

  datatype Origin = Human | Leader | System

  datatype Subject = Subject(kind: seq<Unit>, id: seq<Unit>, version: Option<seq<Unit>>)

  datatype Source = Source(runId: seq<Unit>, runSeq: nat)

  datatype Gate = Gate(stepId: seq<Unit>, resultScope: seq<Unit>)

  /** What an emitter hands the journal. */
  datatype Event = Event(
    category: seq<Unit>, kind: seq<Unit>, subject: Subject, origin: Origin, causedBy: Option<seq<Unit>>,
    summary: seq<Unit>, source: Option<Source>, gate: Option<Gate>)

  /** A clock reading and its ISO text. */
  datatype Instant = Instant(ms: int, iso: seq<Unit>)

  datatype Row = Row(eventId: seq<Unit>, journalSeq: nat, ts: Instant, projectId: seq<Unit>, event: Event)

  ghost predicate AtMost(text: Option<seq<Unit>>, bound: nat) { text.Some? ==> |text.value| <= bound }

  /** What the append schema accepts. */
  predicate Admissible(e: Event) { WithinBounds(e) && MatchesPatterns(e) && LeaderNamesItsOperation(e) }

  predicate WithinBounds(e: Event) {
    && |e.category| == 4 && |e.kind| <= 64
    && |e.subject.kind| <= 64 && 1 <= |e.subject.id| <= 256
    && (e.subject.version.Some? ==> 1 <= |e.subject.version.value| <= 512)
    && (e.causedBy.Some? ==> 8 <= |e.causedBy.value| <= 128)
    && 1 <= |e.summary| <= 500
    && (e.source.Some? ==> 1 <= |e.source.value.runId| <= 128 && e.source.value.runSeq <= MAX_SAFE_INTEGER)
    && (e.gate.Some? ==> 1 <= |e.gate.value.stepId| <= 256 && |e.gate.value.resultScope| <= 7)
  }

  predicate MatchesPatterns(e: Event) {
    && IsCategory(e.category) && IsKind(e.kind) && IsSlug(e.subject.kind)
    && (e.causedBy.Some? ==> forall u <- e.causedBy.value :: IsOperationUnit(u))
    && (e.gate.Some? ==> e.gate.value.resultScope == ROUTINE || e.gate.value.resultScope == STAGE)
  }

  const ROUTINE: seq<Unit> := ['r' as int, 'o' as int, 'u' as int, 't' as int, 'i' as int, 'n' as int, 'e' as int]
  const STAGE: seq<Unit> := ['s' as int, 't' as int, 'a' as int, 'g' as int, 'e' as int]

  predicate IsLower(u: Unit) { 'a' as int <= u <= 'z' as int }

  predicate IsDigit(u: Unit) { '0' as int <= u <= '9' as int }

  /** `E-01` to `E-06`. */
  predicate IsCategory(text: seq<Unit>) {
    |text| == 4 && text[..3] == ['E' as int, '-' as int, '0' as int] && '1' as int <= text[3] <= '6' as int
  }

  predicate IsSeparator(u: Unit) { u == '.' as int || u == '_' as int || u == '-' as int }

  /** Words of lower-case letters and digits, the first of which begins with a letter, between single
      separators. */
  predicate IsKind(text: seq<Unit>) {
    && text != [] && IsLower(text[0]) && !IsSeparator(text[|text| - 1])
    && (forall u <- text :: IsLower(u) || IsDigit(u) || IsSeparator(u))
    && forall i :: 0 < i < |text| ==> !(IsSeparator(text[i - 1]) && IsSeparator(text[i]))
  }

  predicate IsSlug(text: seq<Unit>) {
    text != [] && IsLower(text[0]) && forall u <- text :: IsLower(u) || IsDigit(u) || u == '-' as int
  }

  predicate IsOperationUnit(u: Unit) {
    || IsLower(u) || IsDigit(u) || 'A' as int <= u <= 'Z' as int
    || u == '_' as int || u == '.' as int || u == ':' as int || u == '-' as int
  }

  /** A `leader` row without its operation id would defeat the echo guard it exists for. */
  predicate LeaderNamesItsOperation(e: Event) { e.origin != Leader || e.causedBy.Some? }

  predicate IsLetterOrFigure(u: Unit) { '0' as int <= u <= '9' as int || 'a' as int <= u <= 'z' as int }

  /** Kinds are built from a letter by letters, figures, and one `.`, `_` or `-` before another of those. */
  lemma KindByKind(t: seq<Unit>, u: Unit, v: Unit)
    requires IsKind(t)
    ensures IsKind(t + [u]) <==> IsLetterOrFigure(u)
    ensures IsKind(t + [u, v]) <==>
      IsLetterOrFigure(v) && (IsLetterOrFigure(u) || u == '.' as int || u == '_' as int || u == '-' as int)
  {
    var a, b := t + [u], t + [u, v];
    assert forall i :: 0 <= i < |t| ==> a[i] == t[i] && b[i] == t[i];
    assert a[|t|] == u && b[|t|] == u && b[|t| + 1] == v;
    assert u in a && u in b && v in b;
  }

  lemma OneUnit(u: Unit)
    ensures IsKind([u]) <==> 'a' as int <= u <= 'z' as int
    ensures IsSlug([u]) <==> 'a' as int <= u <= 'z' as int
  {
    assert u in [u];
  }

  lemma SlugBySlug(t: seq<Unit>, u: Unit)
    requires IsSlug(t)
    ensures IsSlug(t + [u]) <==> IsLetterOrFigure(u) || u == '-' as int
  {
    assert u in t + [u];
  }

  predicate InOperationIds(u: Unit) {
    || '0' as int <= u <= '9' as int || 'A' as int <= u <= 'Z' as int || 'a' as int <= u <= 'z' as int
    || u == '-' as int || u == '.' as int || u == ':' as int || u == '_' as int
  }

  /** What an append takes, from any event it takes: each text, number and scope it would take instead. */
  lemma TextByText(e: Event, t: seq<Unit>)
    requires Admissible(e)
    ensures Admissible(e.(summary := t)) <==> 1 <= |t| <= 500
    ensures Admissible(e.(subject := e.subject.(id := t))) <==> 1 <= |t| <= 256
    ensures Admissible(e.(subject := e.subject.(version := Some(t)))) <==> 1 <= |t| <= 512
    ensures Admissible(e.(subject := e.subject.(version := None)))
    ensures Admissible(e.(causedBy := Some(t))) <==> 8 <= |t| <= 128 && forall u <- t :: InOperationIds(u)
    ensures Admissible(e.(causedBy := None)) <==> e.origin != Leader
  {
    hide IsCategory, IsKind, IsSlug;
  }

  lemma PartByPart(e: Event, t: seq<Unit>, scope: seq<Unit>, n: nat)
    requires Admissible(e)
    ensures Admissible(e.(source := Some(Source(t, n)))) <==> 1 <= |t| <= 128 && n <= 0x1F_FFFF_FFFF_FFFF
    ensures Admissible(e.(gate := Some(Gate(t, scope)))) <==>
      1 <= |t| <= 256 && (Spells(scope, "routine") || Spells(scope, "stage"))
    ensures Admissible(e.(source := None, gate := None))
  {
    hide IsCategory, IsKind, IsSlug, IsOperationUnit;
    ScopeSpells(scope);
  }

  lemma ScopeSpells(scope: seq<Unit>)
    ensures scope == ROUTINE || scope == STAGE <==> Spells(scope, "routine") || Spells(scope, "stage")
  {
    assert |ROUTINE| == 7 && |STAGE| == 5;
  }

  lemma CategoryByCategory(e: Event, t: seq<Unit>)
    requires Admissible(e)
    ensures Admissible(e.(category := t)) <==>
      Spells(t, "E-01") || Spells(t, "E-02") || Spells(t, "E-03") || Spells(t, "E-04") || Spells(t, "E-05") || Spells(t, "E-06")
  {
    hide IsKind, IsSlug, IsOperationUnit;
    assert |t| == 4 ==> (t[..3] == ['E' as int, '-' as int, '0' as int]
                         <==> t[0] == 'E' as int && t[1] == '-' as int && t[2] == '0' as int);
  }

  /** The least that an append takes. */
  lemma LeastEvent(u: Unit, x: Unit)
    requires 'a' as int <= u <= 'z' as int
    ensures Admissible(Event(['E' as int, '-' as int, '0' as int, '3' as int], [u],
                             Subject([u], [x], None), System, None, [x], None, None))
  {
    hide IsKind, IsSlug;
    OneUnit(u);
  }

  function OriginText(o: Origin): seq<Unit> {
    match o
    case Human => ['h' as int, 'u' as int, 'm' as int, 'a' as int, 'n' as int]
    case Leader => ['l' as int, 'e' as int, 'a' as int, 'd' as int, 'e' as int, 'r' as int]
    case System => ['s' as int, 'y' as int, 's' as int, 't' as int, 'e' as int, 'm' as int]
  }

  const NULL: seq<Point> := ['n' as int, 'u' as int, 'l' as int, 'l' as int]

  function OrNull(text: Option<seq<Unit>>): seq<Point> {
    match text
    case None => NULL
    case Some(t) => Quote(t)
  }

  function SubjectJson(s: Subject): seq<Point> {
    Object(Member(Name("type"), Some(Quote(s.kind)))
           + Member(Name("id"), Some(Quote(s.id)))
           + Member(Name("version"), Some(OrNull(s.version))))
  }

  function SourceJson(s: Source): seq<Point> {
    Object(Member(Name("runId"), Some(Quote(s.runId))) + Member(Name("runSeq"), Some(Decimal(s.runSeq))))
  }

  function GateJson(g: Gate): seq<Point> {
    Object(Member(Name("stepId"), Some(Quote(g.stepId))) + Member(Name("resultScope"), Some(Quote(g.resultScope))))
  }

  function OptionalSource(s: Option<Source>): Option<seq<Point>> {
    match s
    case None => None
    case Some(v) => Some(SourceJson(v))
  }

  function OptionalGate(g: Option<Gate>): Option<seq<Point>> {
    match g
    case None => None
    case Some(v) => Some(GateJson(v))
  }

  function EnvelopeMembers(r: Row): seq<seq<Point>> {
    Member(Name("eventId"), Some(Quote(r.eventId)))
    + Member(Name("journalSeq"), Some(Decimal(r.journalSeq)))
    + Member(Name("ts"), Some(Quote(r.ts.iso)))
    + Member(Name("projectId"), Some(Quote(r.projectId)))
  }

  function AboutMembers(e: Event): seq<seq<Point>> {
    Member(Name("category"), Some(Quote(e.category)))
    + Member(Name("kind"), Some(Quote(e.kind)))
    + Member(Name("subject"), Some(SubjectJson(e.subject)))
  }

  function CauseMembers(e: Event): seq<seq<Point>> {
    Member(Name("origin"), Some(Quote(OriginText(e.origin))))
    + Member(Name("causedBy"), Some(OrNull(e.causedBy)))
    + Member(Name("summary"), Some(Quote(e.summary)))
  }

  function RoutingMembers(e: Event): seq<seq<Point>> {
    Member(Name("source"), OptionalSource(e.source)) + Member(Name("gate"), OptionalGate(e.gate))
  }

  function EventMembers(e: Event): seq<seq<Point>> { AboutMembers(e) + CauseMembers(e) + RoutingMembers(e) }

  /** The stored line of a row: `JSON.stringify(row)`. */
  function RowJson(r: Row): seq<Point> { Object(EnvelopeMembers(r) + EventMembers(r.event)) }

  // ---- the bound ------------------------------------------------------------------------------------

  lemma OrNullCost(text: Option<seq<Unit>>, bound: nat)
    requires AtMost(text, bound)
    ensures Size(OrNull(text)) <= 6 * bound + 4
  {
    match text
    case None => AsciiCost(NULL);
    case Some(t) => QuoteCost(t);
  }

  /** Adds one more member to a list whose cost is known. */
  lemma OneMoreMember(before: seq<seq<Point>>, name: string, value: Option<seq<Point>>, bound: nat)
    requires value.Some? ==> Size(value.value) <= bound
    ensures Cost(before + Member(Name(name), value)) <= Cost(before) + 4 * |name| + 4 + bound
  {
    hide Member, Name, Size;
    MemberCost(name, value, bound);
    CostAdds(before, Member(Name(name), value));
  }

  lemma SubjectCost(s: Subject)
    requires |s.kind| <= 64 && |s.id| <= 256 && AtMost(s.version, 512)
    ensures Size(SubjectJson(s)) <= 5_100
  {
    QuoteCost(s.kind);
    QuoteCost(s.id);
    OrNullCost(s.version, 512);
    hide Member, Name, Quote, OrNull, Size;
    var a := Member(Name("type"), Some(Quote(s.kind)));
    var b := a + Member(Name("id"), Some(Quote(s.id)));
    MemberCost("type", Some(Quote(s.kind)), 386);
    OneMoreMember(a, "id", Some(Quote(s.id)), 1538);
    OneMoreMember(b, "version", Some(OrNull(s.version)), 3076);
    ObjectCost(b + Member(Name("version"), Some(OrNull(s.version))));
  }

  lemma SourceCost(s: Source)
    requires |s.runId| <= 128 && s.runSeq <= MAX_SAFE_INTEGER
    ensures Size(SourceJson(s)) <= 850
  {
    QuoteCost(s.runId);
    SafeIntegerCost(s.runSeq);
    hide Member, Name, Quote, Decimal, Size;
    var a := Member(Name("runId"), Some(Quote(s.runId)));
    MemberCost("runId", Some(Quote(s.runId)), 770);
    OneMoreMember(a, "runSeq", Some(Decimal(s.runSeq)), 16);
    ObjectCost(a + Member(Name("runSeq"), Some(Decimal(s.runSeq))));
  }

  lemma SafeIntegerCost(n: nat)
    requires n <= MAX_SAFE_INTEGER
    ensures Size(Decimal(n)) <= 16
  {
    assert Power10(16) == 10_000_000_000_000_000 by { assert Power10(8) == 100_000_000; }
    DecimalCost(n, 16);
  }

  lemma GateCost(g: Gate)
    requires |g.stepId| <= 256 && |g.resultScope| <= 7
    ensures Size(GateJson(g)) <= 1_700
  {
    QuoteCost(g.stepId);
    QuoteCost(g.resultScope);
    hide Member, Name, Quote, Size;
    var a := Member(Name("stepId"), Some(Quote(g.stepId)));
    MemberCost("stepId", Some(Quote(g.stepId)), 1538);
    OneMoreMember(a, "resultScope", Some(Quote(g.resultScope)), 44);
    ObjectCost(a + Member(Name("resultScope"), Some(Quote(g.resultScope))));
  }

  lemma EnvelopeCost(r: Row)
    requires |r.eventId| <= 81 && r.journalSeq <= MAX_SAFE_INTEGER && |r.ts.iso| <= 27 && |r.projectId| <= 64
    ensures Cost(EnvelopeMembers(r)) <= 1_200
  {
    QuoteCost(r.eventId);
    SafeIntegerCost(r.journalSeq);
    QuoteCost(r.ts.iso);
    QuoteCost(r.projectId);
    hide Member, Name, Quote, Decimal, Size;
    var a := Member(Name("eventId"), Some(Quote(r.eventId)));
    var b := a + Member(Name("journalSeq"), Some(Decimal(r.journalSeq)));
    var c := b + Member(Name("ts"), Some(Quote(r.ts.iso)));
    MemberCost("eventId", Some(Quote(r.eventId)), 488);
    OneMoreMember(a, "journalSeq", Some(Decimal(r.journalSeq)), 16);
    OneMoreMember(b, "ts", Some(Quote(r.ts.iso)), 164);
    OneMoreMember(c, "projectId", Some(Quote(r.projectId)), 386);
  }

  lemma AboutCost(e: Event)
    requires Admissible(e)
    ensures Cost(AboutMembers(e)) <= 5_650
  {
    QuoteCost(e.category);
    QuoteCost(e.kind);
    SubjectCost(e.subject);
    hide Member, Name, Quote, SubjectJson, Size;
    var a := Member(Name("category"), Some(Quote(e.category)));
    var b := a + Member(Name("kind"), Some(Quote(e.kind)));
    MemberCost("category", Some(Quote(e.category)), 26);
    OneMoreMember(a, "kind", Some(Quote(e.kind)), 386);
    OneMoreMember(b, "subject", Some(SubjectJson(e.subject)), 5_100);
  }

  lemma CauseCost(e: Event)
    requires Admissible(e)
    ensures Cost(CauseMembers(e)) <= 3_950
  {
    assert |OriginText(e.origin)| <= 6;
    QuoteCost(OriginText(e.origin));
    OrNullCost(e.causedBy, 128);
    QuoteCost(e.summary);
    hide Member, Name, Quote, OrNull, OriginText, Size;
    var a := Member(Name("origin"), Some(Quote(OriginText(e.origin))));
    var b := a + Member(Name("causedBy"), Some(OrNull(e.causedBy)));
    MemberCost("origin", Some(Quote(OriginText(e.origin))), 38);
    OneMoreMember(a, "causedBy", Some(OrNull(e.causedBy)), 772);
    OneMoreMember(b, "summary", Some(Quote(e.summary)), 3_002);
  }

  lemma RoutingCost(e: Event)
    requires Admissible(e)
    ensures Cost(RoutingMembers(e)) <= 2_600
  {
    if e.source.Some? { SourceCost(e.source.value); }
    if e.gate.Some? { GateCost(e.gate.value); }
    hide Member, Name, SourceJson, GateJson, Size;
    var a := Member(Name("source"), OptionalSource(e.source));
    MemberCost("source", OptionalSource(e.source), 850);
    OneMoreMember(a, "gate", OptionalGate(e.gate), 1_700);
  }

  lemma EventCost(e: Event)
    requires Admissible(e)
    ensures Cost(EventMembers(e)) <= 12_200
  {
    AboutCost(e);
    CauseCost(e);
    RoutingCost(e);
    hide AboutMembers, CauseMembers, RoutingMembers, Size;
    CostAdds(AboutMembers(e), CauseMembers(e));
    CostAdds(AboutMembers(e) + CauseMembers(e), RoutingMembers(e));
  }

  /** No admissible event, whatever characters it is made of, becomes a row larger than a page. */
  lemma RowFitsAPage(r: Row)
    requires Admissible(r.event)
    requires |r.eventId| <= 81 && r.journalSeq <= MAX_SAFE_INTEGER && |r.ts.iso| <= 27 && |r.projectId| <= 64
    ensures Size(RowJson(r)) < PAGE_BYTES
  {
    hide EnvelopeMembers, EventMembers, Size;
    EnvelopeCost(r);
    EventCost(r.event);
    CostAdds(EnvelopeMembers(r), EventMembers(r.event));
    ObjectCost(EnvelopeMembers(r) + EventMembers(r.event));
  }
}
