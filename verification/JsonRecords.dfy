/** The stored line of a journal row, and the text of a finding, read back field by field. */
module JsonRecords {
  import opened Options
  import opened Text
  import opened Json
  import opened JsonReading
  import opened JournalRows
  import opened Findings
  import Catalog

  // ---- fields ---------------------------------------------------------------------------------------

  type Fields = seq<(string, Value)>

  function FieldsOf(es: seq<Entry>): Fields { seq(|es|, i requires 0 <= i < |es| => (es[i].name, es[i].value)) }

  /** The value is an object of these members, in this order, and of no other. */
  ghost predicate HasExactly(v: Value, fields: Fields) {
    && v.Obj? && |v.members| == |fields|
    && forall i :: 0 <= i < |fields| ==> Spells(v.members[i].0, fields[i].0) && v.members[i].1 == fields[i].1
  }

  /** The text reads back as such an object, whatever follows it. */
  ghost predicate TellsExactly(text: seq<Point>, fields: Fields) {
    exists v :: HasExactly(v, fields) && ReadsAs(text, v)
  }

  /** A member that may be left out. */
  function Maybe(name: string, value: Option<Value>): Fields { if value.None? then [] else [(name, value.value)] }

  function Texted(text: Option<seq<Unit>>): Option<Value> { if text.None? then None else Some(Str(text.value)) }

  function Numbered(n: Option<nat>): Option<Value> { if n.None? then None else Some(Num(n.value)) }

  function NullOr(text: Option<seq<Unit>>): Value { if text.None? then Null else Str(text.value) }

  // ---- lists of members -----------------------------------------------------------------------------

  ghost predicate Stand(parts: seq<seq<Point>>, es: seq<Entry>, fields: Fields) {
    parts == Texts(es) && fields == FieldsOf(es) && forall e <- es :: Sound(e)
  }

  /** These texts of members stand for these fields. */
  ghost predicate StandFor(parts: seq<seq<Point>>, fields: Fields) { exists es :: Stand(parts, es, fields) }

  ghost predicate Means(text: Option<seq<Point>>, v: Option<Value>) {
    (text.Some? <==> v.Some?) && (text.Some? ==> ReadsAs(text.value, v.value))
  }

  lemma MemberStands(name: string, text: Option<seq<Point>>, v: Option<Value>)
    requires PlainName(name) && Means(text, v)
    ensures StandFor(Member(Name(name), text), Maybe(name, v))
  {
    hide ReadsAs, PlainName, Name;
    if text.None? {
      assert Stand([], [], []);
    } else {
      var e := Entry(name, text.value, v.value);
      assert Texts([e]) == [TextOf(e)] && FieldsOf([e]) == [(name, v.value)];
      assert Stand(Member(Name(name), text), [e], Maybe(name, v));
    }
  }

  lemma BothStand(a: seq<seq<Point>>, f: Fields, b: seq<seq<Point>>, g: Fields)
    requires StandFor(a, f) && StandFor(b, g)
    ensures StandFor(a + b, f + g)
  {
    hide Sound, TextOf;
    var x :| Stand(a, x, f);
    var y :| Stand(b, y, g);
    assert Stand(a + b, x + y, f + g);
  }

  /** One more member. */
  lemma And(a: seq<seq<Point>>, f: Fields, name: string, text: Option<seq<Point>>, v: Option<Value>)
    requires StandFor(a, f) && PlainName(name) && Means(text, v)
    ensures StandFor(a + Member(Name(name), text), f + Maybe(name, v))
  {
    hide StandFor, Member, Maybe, Name, PlainName, Means;
    MemberStands(name, text, v);
    BothStand(a, f, Member(Name(name), text), Maybe(name, v));
  }

  lemma ObjectTells(parts: seq<seq<Point>>, fields: Fields)
    requires StandFor(parts, fields) && fields != []
    ensures TellsExactly(Object(parts), fields)
  {
    hide Object, ReadsAs, PlainName;
    var es: seq<Entry> :| Stand(parts, es, fields);
    ObjectReadsBack(es);
    var v := Obj(Found(es));
    forall i | 0 <= i < |fields| ensures Spells(v.members[i].0, fields[i].0) {
      assert es[i] in es && Sound(es[i]);
      PlainSpells(es[i].name);
    }
    assert HasExactly(v, fields);
  }

  lemma PlainSpells(name: string)
    requires PlainName(name)
    ensures Spells(Units(Name(name)), name)
  {
    hide Spells;
    Catalog.WordsSpell(Units(Name(name)), name);
  }

  lemma QuoteMeans(text: seq<Unit>)
    ensures Means(Some(Quote(text)), Some(Str(text)))
  {
    hide ReadsAs, Quote;
    QuoteReadsBack(text);
  }

  lemma QuotedMeans(text: Option<seq<Unit>>)
    ensures Means(Quoted(text), Texted(text))
  {
    hide ReadsAs, Quote;
    if text.Some? { QuoteReadsBack(text.value); }
  }

  lemma DecimalMeans(n: nat)
    ensures Means(Some(Decimal(n)), Some(Num(n)))
  {
    hide ReadsAs, Decimal;
    DecimalReadsBack(n);
  }

  // ---- a finding ------------------------------------------------------------------------------------

  lemma FindingNames()
    ensures PlainName("id") && PlainName("severity") && PlainName("file") && PlainName("line") && PlainName("title")
    ensures PlainName("body") && PlainName("fingerprint")
  {}

  lemma LineMeans(line: Option<nat>)
    ensures Means(LineNumber(line), Numbered(line))
  {
    hide ReadsAs, Decimal;
    if line.Some? { DecimalReadsBack(line.value); }
  }

  /** The text of a finding holds its fields under their names, the optional ones exactly when they are
      there, and nothing else. */
  lemma FindingReadsBack(f: Finding)
    ensures TellsExactly(FindingJson(f),
      [("id", Str(f.id)), ("severity", Str(f.severity))] + Maybe("file", Texted(f.file)) + Maybe("line", Numbered(f.line))
      + [("title", Str(f.title))] + Maybe("body", Texted(f.body)) + Maybe("fingerprint", Texted(f.fingerprint)))
  {
    hide StandFor, Member, Name, PlainName, Means, Quoted, LineNumber, Quote, Texted, Numbered, Object;
    FindingNames();
    QuoteMeans(f.id);
    QuoteMeans(f.severity);
    QuotedMeans(f.file);
    LineMeans(f.line);
    QuoteMeans(f.title);
    QuotedMeans(f.body);
    QuotedMeans(f.fingerprint);
    MemberStands("id", Some(Quote(f.id)), Some(Str(f.id)));
    var a := Member(Name("id"), Some(Quote(f.id)));
    And(a, [("id", Str(f.id))], "severity", Some(Quote(f.severity)), Some(Str(f.severity)));
    var b := a + Member(Name("severity"), Some(Quote(f.severity)));
    var g := [("id", Str(f.id)), ("severity", Str(f.severity))];
    assert [("id", Str(f.id))] + [("severity", Str(f.severity))] == g;
    And(b, g, "file", Quoted(f.file), Texted(f.file));
    var c := b + Member(Name("file"), Quoted(f.file));
    var h := g + Maybe("file", Texted(f.file));
    And(c, h, "line", LineNumber(f.line), Numbered(f.line));
    var d := c + Member(Name("line"), LineNumber(f.line));
    And(d, h + Maybe("line", Numbered(f.line)), "title", Some(Quote(f.title)), Some(Str(f.title)));
    var e := d + Member(Name("title"), Some(Quote(f.title)));
    var i := h + Maybe("line", Numbered(f.line)) + [("title", Str(f.title))];
    And(e, i, "body", Quoted(f.body), Texted(f.body));
    var k := e + Member(Name("body"), Quoted(f.body));
    And(k, i + Maybe("body", Texted(f.body)), "fingerprint", Quoted(f.fingerprint), Texted(f.fingerprint));
    ObjectTells(Members(f), i + Maybe("body", Texted(f.body)) + Maybe("fingerprint", Texted(f.fingerprint)));
  }

  // ---- a journal row --------------------------------------------------------------------------------

  lemma EnvelopeNames()
    ensures PlainName("eventId") && PlainName("journalSeq") && PlainName("ts") && PlainName("projectId")
  {}

  lemma AboutNames()
    ensures PlainName("category") && PlainName("kind") && PlainName("subject") && PlainName("origin")
  {}

  lemma CauseNames()
    ensures PlainName("causedBy") && PlainName("summary") && PlainName("source") && PlainName("gate")
  {}

  lemma RowNames()
    ensures PlainName("eventId") && PlainName("journalSeq") && PlainName("ts") && PlainName("projectId")
    ensures PlainName("category") && PlainName("kind") && PlainName("subject") && PlainName("origin")
    ensures PlainName("causedBy") && PlainName("summary") && PlainName("source") && PlainName("gate")
  {
    hide PlainName;
    EnvelopeNames();
    AboutNames();
    CauseNames();
  }

  lemma PartNames()
    ensures PlainName("type") && PlainName("id") && PlainName("version") && PlainName("runId") && PlainName("runSeq")
    ensures PlainName("stepId") && PlainName("resultScope")
  {}

  lemma NullReads()
    ensures ReadsAs(NULL, Null)
  {
    forall rest | EndsNumber(rest) ensures ReadValue(NULL + rest) == Some((Null, rest)) {
      assert (NULL + rest)[..4] == NULL == Name("null") && (NULL + rest)[4..] == rest;
    }
  }

  lemma NullOrMeans(text: Option<seq<Unit>>)
    ensures Means(Some(OrNull(text)), Some(NullOr(text)))
  {
    hide ReadsAs, Quote;
    NullReads();
    if text.Some? { QuoteReadsBack(text.value); }
  }

  /** The object that a list of members reads back as. */
  lemma TheObject(text: seq<Point>, fields: Fields) returns (v: Value)
    requires TellsExactly(text, fields)
    ensures HasExactly(v, fields) && Means(Some(text), Some(v))
  {
    hide HasExactly, ReadsAs;
    v :| HasExactly(v, fields) && ReadsAs(text, v);
  }

  function SubjectFields(s: Subject): Fields {
    [("type", Str(s.kind)), ("id", Str(s.id)), ("version", NullOr(s.version))]
  }

  function SourceFields(s: Source): Fields { [("runId", Str(s.runId)), ("runSeq", Num(s.runSeq))] }

  function GateFields(g: Gate): Fields { [("stepId", Str(g.stepId)), ("resultScope", Str(g.resultScope))] }

  lemma SubjectTells(s: Subject)
    ensures TellsExactly(SubjectJson(s), SubjectFields(s))
  {
    hide StandFor, Member, Name, PlainName, Means, Quote, OrNull, NullOr, Object;
    PartNames();
    QuoteMeans(s.kind);
    QuoteMeans(s.id);
    NullOrMeans(s.version);
    MemberStands("type", Some(Quote(s.kind)), Some(Str(s.kind)));
    var a := Member(Name("type"), Some(Quote(s.kind)));
    And(a, [("type", Str(s.kind))], "id", Some(Quote(s.id)), Some(Str(s.id)));
    var b := a + Member(Name("id"), Some(Quote(s.id)));
    var g := [("type", Str(s.kind))] + [("id", Str(s.id))];
    And(b, g, "version", Some(OrNull(s.version)), Some(NullOr(s.version)));
    ObjectTells(b + Member(Name("version"), Some(OrNull(s.version))), g + [("version", NullOr(s.version))]);
    assert g + [("version", NullOr(s.version))] == SubjectFields(s);
  }

  lemma SourceTells(s: Source)
    ensures TellsExactly(SourceJson(s), SourceFields(s))
  {
    hide StandFor, Member, Name, PlainName, Means, Quote, Decimal, Object;
    PartNames();
    QuoteMeans(s.runId);
    DecimalMeans(s.runSeq);
    MemberStands("runId", Some(Quote(s.runId)), Some(Str(s.runId)));
    var a := Member(Name("runId"), Some(Quote(s.runId)));
    And(a, [("runId", Str(s.runId))], "runSeq", Some(Decimal(s.runSeq)), Some(Num(s.runSeq)));
    ObjectTells(a + Member(Name("runSeq"), Some(Decimal(s.runSeq))), [("runId", Str(s.runId))] + [("runSeq", Num(s.runSeq))]);
    assert [("runId", Str(s.runId))] + [("runSeq", Num(s.runSeq))] == SourceFields(s);
  }

  lemma GateTells(g: Gate)
    ensures TellsExactly(GateJson(g), GateFields(g))
  {
    hide StandFor, Member, Name, PlainName, Means, Quote, Object;
    PartNames();
    QuoteMeans(g.stepId);
    QuoteMeans(g.resultScope);
    MemberStands("stepId", Some(Quote(g.stepId)), Some(Str(g.stepId)));
    var a := Member(Name("stepId"), Some(Quote(g.stepId)));
    And(a, [("stepId", Str(g.stepId))], "resultScope", Some(Quote(g.resultScope)), Some(Str(g.resultScope)));
    ObjectTells(a + Member(Name("resultScope"), Some(Quote(g.resultScope))),
                [("stepId", Str(g.stepId))] + [("resultScope", Str(g.resultScope))]);
    assert [("stepId", Str(g.stepId))] + [("resultScope", Str(g.resultScope))]
      == GateFields(g);
  }

  /** The source of a row, when it names one. */
  ghost predicate IsSource(v: Option<Value>, s: Option<Source>) {
    && (v.Some? <==> s.Some?)
    && (s.Some? ==> HasExactly(v.value, SourceFields(s.value)))
  }

  ghost predicate IsGate(v: Option<Value>, g: Option<Gate>) {
    && (v.Some? <==> g.Some?)
    && (g.Some? ==> HasExactly(v.value, GateFields(g.value)))
  }

  lemma TheParts(e: Event) returns (subject: Value, source: Option<Value>, gate: Option<Value>)
    ensures HasExactly(subject, SubjectFields(e.subject))
    ensures IsSource(source, e.source) && IsGate(gate, e.gate)
    ensures Means(Some(SubjectJson(e.subject)), Some(subject)) && Means(OptionalSource(e.source), source)
    ensures Means(OptionalGate(e.gate), gate)
  {
    hide HasExactly, TellsExactly, ReadsAs, SubjectJson, SourceJson, GateJson, NullOr;
    SubjectTells(e.subject);
    subject := TheObject(SubjectJson(e.subject), SubjectFields(e.subject));
    source, gate := None, None;
    if e.source.Some? {
      SourceTells(e.source.value);
      var v := TheObject(SourceJson(e.source.value), SourceFields(e.source.value));
      source := Some(v);
    }
    if e.gate.Some? {
      GateTells(e.gate.value);
      var v := TheObject(GateJson(e.gate.value), GateFields(e.gate.value));
      gate := Some(v);
    }
  }

  function EnvelopeFields(r: Row): Fields {
    [("eventId", Str(r.eventId)), ("journalSeq", Num(r.journalSeq)), ("ts", Str(r.ts.iso)), ("projectId", Str(r.projectId))]
  }

  lemma EnvelopeStands(r: Row)
    ensures StandFor(EnvelopeMembers(r), EnvelopeFields(r))
  {
    hide StandFor, Member, Name, PlainName, Means, Quote, Decimal;
    RowNames();
    QuoteMeans(r.eventId);
    DecimalMeans(r.journalSeq);
    QuoteMeans(r.ts.iso);
    QuoteMeans(r.projectId);
    MemberStands("eventId", Some(Quote(r.eventId)), Some(Str(r.eventId)));
    var a, f := Member(Name("eventId"), Some(Quote(r.eventId))), [("eventId", Str(r.eventId))];
    And(a, f, "journalSeq", Some(Decimal(r.journalSeq)), Some(Num(r.journalSeq)));
    var b, g := a + Member(Name("journalSeq"), Some(Decimal(r.journalSeq))), f + [("journalSeq", Num(r.journalSeq))];
    And(b, g, "ts", Some(Quote(r.ts.iso)), Some(Str(r.ts.iso)));
    var c, h := b + Member(Name("ts"), Some(Quote(r.ts.iso))), g + [("ts", Str(r.ts.iso))];
    And(c, h, "projectId", Some(Quote(r.projectId)), Some(Str(r.projectId)));
    assert h + [("projectId", Str(r.projectId))] == EnvelopeFields(r);
  }

  lemma AboutStands(e: Event, subject: Value)
    requires Means(Some(SubjectJson(e.subject)), Some(subject))
    ensures StandFor(AboutMembers(e), [("category", Str(e.category)), ("kind", Str(e.kind)), ("subject", subject)])
  {
    hide StandFor, Member, Name, PlainName, Means, Quote, SubjectJson;
    RowNames();
    QuoteMeans(e.category);
    QuoteMeans(e.kind);
    MemberStands("category", Some(Quote(e.category)), Some(Str(e.category)));
    var a, f := Member(Name("category"), Some(Quote(e.category))), [("category", Str(e.category))];
    And(a, f, "kind", Some(Quote(e.kind)), Some(Str(e.kind)));
    var b, g := a + Member(Name("kind"), Some(Quote(e.kind))), f + [("kind", Str(e.kind))];
    And(b, g, "subject", Some(SubjectJson(e.subject)), Some(subject));
    assert g + [("subject", subject)] == [("category", Str(e.category)), ("kind", Str(e.kind)), ("subject", subject)];
  }

  /** The origin is one of three words. */
  function OriginWord(o: Origin): string {
    match o
    case Human => "human"
    case Leader => "leader"
    case System => "system"
  }

  function CauseFields(e: Event): Fields {
    [("origin", Str(OriginText(e.origin))), ("causedBy", NullOr(e.causedBy)), ("summary", Str(e.summary))]
  }

  lemma CauseStands(e: Event)
    ensures StandFor(CauseMembers(e), CauseFields(e))
  {
    hide StandFor, Member, Name, PlainName, Means, Quote, OrNull, NullOr, OriginText;
    RowNames();
    QuoteMeans(OriginText(e.origin));
    NullOrMeans(e.causedBy);
    QuoteMeans(e.summary);
    MemberStands("origin", Some(Quote(OriginText(e.origin))), Some(Str(OriginText(e.origin))));
    var a, f := Member(Name("origin"), Some(Quote(OriginText(e.origin)))), [("origin", Str(OriginText(e.origin)))];
    And(a, f, "causedBy", Some(OrNull(e.causedBy)), Some(NullOr(e.causedBy)));
    var b, g := a + Member(Name("causedBy"), Some(OrNull(e.causedBy))), f + [("causedBy", NullOr(e.causedBy))];
    And(b, g, "summary", Some(Quote(e.summary)), Some(Str(e.summary)));
    assert g + [("summary", Str(e.summary))] == CauseFields(e);
  }

  lemma RoutingStands(e: Event, source: Option<Value>, gate: Option<Value>)
    requires Means(OptionalSource(e.source), source) && Means(OptionalGate(e.gate), gate)
    ensures StandFor(RoutingMembers(e), Maybe("source", source) + Maybe("gate", gate))
  {
    hide StandFor, Member, Name, PlainName, Means, Maybe, OptionalSource, OptionalGate;
    RowNames();
    MemberStands("source", OptionalSource(e.source), source);
    And(Member(Name("source"), OptionalSource(e.source)), Maybe("source", source), "gate", OptionalGate(e.gate), gate);
  }

  lemma OriginIsItsWord(o: Origin)
    ensures Spells(OriginText(o), OriginWord(o))
  {}

  /** The stored line of a row reads back as the row: each field under its name, the source and the gate
      exactly when the row has them, and nothing else. */
  lemma RowReadsBack(r: Row) returns (subject: Value, source: Option<Value>, gate: Option<Value>, origin: seq<Unit>)
    ensures var e := r.event;
      && HasExactly(subject, SubjectFields(e.subject))
      && IsSource(source, e.source) && IsGate(gate, e.gate) && Spells(origin, OriginWord(e.origin))
      && TellsExactly(RowJson(r),
        [("eventId", Str(r.eventId)), ("journalSeq", Num(r.journalSeq)), ("ts", Str(r.ts.iso)), ("projectId", Str(r.projectId))]
        + [("category", Str(e.category)), ("kind", Str(e.kind)), ("subject", subject)]
        + [("origin", Str(origin)), ("causedBy", NullOr(e.causedBy)), ("summary", Str(e.summary))]
        + Maybe("source", source) + Maybe("gate", gate))
  {
    hide StandFor, HasExactly, TellsExactly, Means, Object, Maybe, NullOr, Spells, OriginText, EnvelopeMembers, AboutMembers,
         CauseMembers, RoutingMembers, IsSource, IsGate;
    var e := r.event;
    subject, source, gate := TheParts(e);
    origin := OriginText(e.origin);
    OriginIsItsWord(e.origin);
    EnvelopeStands(r);
    AboutStands(e, subject);
    CauseStands(e);
    RoutingStands(e, source, gate);
    var a, b, c, d := EnvelopeMembers(r), AboutMembers(e), CauseMembers(e), RoutingMembers(e);
    var f, g := EnvelopeFields(r), [("category", Str(e.category)), ("kind", Str(e.kind)), ("subject", subject)];
    var h := [("origin", Str(origin)), ("causedBy", NullOr(e.causedBy)), ("summary", Str(e.summary))];
    var i := Maybe("source", source) + Maybe("gate", gate);
    BothStand(b, g, c, h);
    BothStand(b + c, g + h, d, i);
    BothStand(a, f, b + c + d, g + h + i);
    ObjectTells(a + (b + c + d), f + (g + h + i));
    assert f + (g + h + i) == f + g + h + Maybe("source", source) + Maybe("gate", gate);
  }
}
