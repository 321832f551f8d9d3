/** The three rules that span a reviewer's whole packet (`checkFindingRules`). */
module Findings {
  import opened Options
  import opened Text
  import opened Json

  const MAX_BYTES := 16 * 1024

  /** One finding; the optional fields are the ones a producer may leave out. */
  datatype Finding = Finding(
    id: seq<Unit>, severity: seq<Unit>, file: Option<seq<Unit>>, line: Option<nat>,
    title: seq<Unit>, body: Option<seq<Unit>>, fingerprint: Option<seq<Unit>>)

  datatype Packet = Packet(findings: Option<seq<Finding>>, omitted: Option<nat>)

  datatype Issue = MissingCount | CountAlone | TooLarge | DuplicateId

  // ---- the serialized list --------------------------------------------------------------------------

  function LineNumber(line: Option<nat>): Option<seq<Point>> {
    match line
    case None => None
    case Some(n) => Some(Decimal(n))
  }

  /** The members of a finding's object, in the order its schema lists them. */
  function Members(f: Finding): seq<seq<Point>> {
    Member(Name("id"), Some(Quote(f.id)))
    + Member(Name("severity"), Some(Quote(f.severity)))
    + Member(Name("file"), Quoted(f.file))
    + Member(Name("line"), LineNumber(f.line))
    + Member(Name("title"), Some(Quote(f.title)))
    + Member(Name("body"), Quoted(f.body))
    + Member(Name("fingerprint"), Quoted(f.fingerprint))
  }

  function FindingJson(f: Finding): seq<Point> {
    Object(Members(f))
  }

  function FindingsJson(fs: seq<Finding>): seq<seq<Point>> {
    if fs == [] then [] else [FindingJson(fs[0])] + FindingsJson(fs[1..])
  }

  /** `JSON.stringify(findings)`, as the code units of the string it returns. */
  function Stringified(fs: seq<Finding>): seq<Unit> {
    Units(['[' as int] + Join(FindingsJson(fs)) + [']' as int])
  }

  // ---- the rules ------------------------------------------------------------------------------------

  ghost predicate CountedTogether(p: Packet) { p.findings.Some? <==> p.omitted.Some? }

  ghost predicate FitsItsBound(p: Packet) {
    p.findings.Some? ==> |Utf8(Stringified(p.findings.value))| <= MAX_BYTES
  }

  ghost predicate UniqueIds(fs: seq<Finding>) {
    forall i, j :: 0 <= i < j < |fs| ==> fs[i].id != fs[j].id
  }

  ghost predicate NamedApart(p: Packet) { p.findings.Some? ==> UniqueIds(p.findings.value) }

  ghost predicate Acceptable(p: Packet) { CountedTogether(p) && FitsItsBound(p) && NamedApart(p) }

  ghost function When(broken: bool, issue: Issue): seq<Issue> { if broken then [issue] else [] }

  method CheckFindingRules(p: Packet) returns (issues: seq<Issue>)
    ensures issues == [] <==> Acceptable(p)
    // each broken rule is reported once, in this order
    ensures issues == When(p.findings.Some? && p.omitted.None?, MissingCount)
                      + When(p.findings.None? && p.omitted.Some?, CountAlone)
                      + When(!FitsItsBound(p), TooLarge)
                      + When(!NamedApart(p), DuplicateId)
  {
    hide Utf8, Stringified;
    issues := [];
    if p.findings.Some? && p.omitted.None? { issues := issues + [MissingCount]; }
    if p.findings.None? && p.omitted.Some? { issues := issues + [CountAlone]; }
    if p.findings.None? { return; }
    var fs := p.findings.value;
    var bytes := ByteLength(Stringified(fs));
    if bytes > MAX_BYTES { issues := issues + [TooLarge]; }
    ghost var before := issues;
    var ids: set<seq<Unit>> := {};
    var i := 0;
    while i < |fs|
      invariant 0 <= i <= |fs| && issues == before
      invariant ids == IdsOf(fs[..i])
      invariant UniqueIds(fs[..i])
    {
      OneMoreId(fs, i);
      if fs[i].id in ids {
        issues := issues + [DuplicateId];
        break;
      }
      ids := ids + {fs[i].id};
      i := i + 1;
    }
    assert fs[..|fs|] == fs;
  }

  function IdsOf(fs: seq<Finding>): set<seq<Unit>> { set f <- fs :: f.id }

  lemma OneMoreId(fs: seq<Finding>, i: nat)
    requires i < |fs| && UniqueIds(fs[..i])
    ensures IdsOf(fs[..i + 1]) == IdsOf(fs[..i]) + {fs[i].id}
    ensures fs[i].id in IdsOf(fs[..i]) ==> !UniqueIds(fs)
    ensures fs[i].id !in IdsOf(fs[..i]) ==> UniqueIds(fs[..i + 1])
  {
    assert fs[..i + 1] == fs[..i] + [fs[i]];
    assert forall j :: 0 <= j < i ==> fs[j] in fs[..i];
    if fs[i].id in IdsOf(fs[..i]) {
      var f :| f in fs[..i] && f.id == fs[i].id;
      var j :| 0 <= j < i && fs[j] == f;
      assert fs[j].id == fs[i].id;
    }
  }

  // ---- the decision does not depend on the order of the findings ------------------------------------

  ghost function Total(fs: seq<Finding>): nat {
    if fs == [] then 0 else Size(FindingJson(fs[0])) + Total(fs[1..])
  }

  lemma {:induction false} TotalAdds(a: seq<Finding>, b: seq<Finding>)
    ensures Total(a + b) == Total(a) + Total(b)
  {
    if a == [] {
      assert a + b == b;
    } else {
      assert (a + b)[1..] == a[1..] + b;
      TotalAdds(a[1..], b);
    }
  }

  lemma {:induction false} SameTotal(a: seq<Finding>, b: seq<Finding>)
    requires multiset(a) == multiset(b)
    ensures Total(a) == Total(b) && |a| == |b|
    decreases |a|
  {
    hide FindingJson;
    assert |a| == |multiset(a)| == |multiset(b)| == |b|;
    if a != [] {
      assert a[0] in multiset(b);
      var k :| 0 <= k < |b| && b[k] == a[0];
      var rest := b[..k] + b[k + 1..];
      WithoutOne(a, b, k);
      SameTotal(a[1..], rest);
      TotalAdds(b[..k], b[k + 1..]);
      TotalAdds(b[..k], b[k..]);
      assert b[..k] + b[k..] == b && b[k..][1..] == b[k + 1..];
    }
  }

  lemma WithoutOne(a: seq<Finding>, b: seq<Finding>, k: nat)
    requires a != [] && k < |b| && multiset(a) == multiset(b) && b[k] == a[0]
    ensures multiset(a[1..]) == multiset(b[..k] + b[k + 1..])
  {
    assert a == [a[0]] + a[1..];
    assert b == b[..k] + ([b[k]] + b[k + 1..]);
    assert multiset(a) == multiset{a[0]} + multiset(a[1..]);
    assert multiset(b) == multiset(b[..k]) + (multiset{b[k]} + multiset(b[k + 1..]));
    assert multiset(a[1..]) == multiset(a) - multiset{a[0]};
    assert multiset(b[..k] + b[k + 1..]) == multiset(b) - multiset{b[k]};
  }

  lemma {:induction false} JoinSize(fs: seq<Finding>)
    ensures Size(Join(FindingsJson(fs))) == Total(fs) + if fs == [] then 0 else |fs| - 1
  {
    hide FindingJson;
    if fs != [] {
      JoinSize(fs[1..]);
      var rest := Join(FindingsJson(fs[1..]));
      assert FindingsJson(fs)[1..] == FindingsJson(fs[1..]);
      if |fs| == 1 {
        assert FindingsJson(fs) == [FindingJson(fs[0])];
      } else {
        EncodedLengthAdds(FindingJson(fs[0]) + [',' as int], rest);
        EncodedLengthAdds(FindingJson(fs[0]), [',' as int]);
        AsciiCost([',' as int]);
      }
    }
  }

  lemma QuotedIsClean(name: string, text: Option<seq<Unit>>)
    ensures Clean(Member(Name(name), Quoted(text)))
  {
    if text.Some? { EscapedHasNoSurrogates(Points(text.value)); }
    MemberIsClean(name, Quoted(text));
  }

  lemma FindingHasNoSurrogates(f: Finding)
    ensures NoSurrogates(FindingJson(f))
  {
    MembersAreClean(f);
    JoinHasNoSurrogates(Members(f));
  }

  lemma MembersAreClean(f: Finding)
    ensures Clean(Members(f))
  {
    QuotedIsClean("id", Some(f.id));
    QuotedIsClean("severity", Some(f.severity));
    QuotedIsClean("file", f.file);
    QuotedIsClean("title", Some(f.title));
    QuotedIsClean("body", f.body);
    QuotedIsClean("fingerprint", f.fingerprint);
    if f.line.Some? { DecimalHasNoSurrogates(f.line.value); }
    MemberIsClean("line", LineNumber(f.line));
    hide Member, Clean, Name, Quote, LineNumber;
    var a := Member(Name("id"), Some(Quote(f.id)));
    var b := a + Member(Name("severity"), Some(Quote(f.severity)));
    var c := b + Member(Name("file"), Quoted(f.file));
    var d := c + Member(Name("line"), LineNumber(f.line));
    var e := d + Member(Name("title"), Some(Quote(f.title)));
    var g := e + Member(Name("body"), Quoted(f.body));
    CleanAdds(a, Member(Name("severity"), Some(Quote(f.severity))));
    CleanAdds(b, Member(Name("file"), Quoted(f.file)));
    CleanAdds(c, Member(Name("line"), LineNumber(f.line)));
    CleanAdds(d, Member(Name("title"), Some(Quote(f.title))));
    CleanAdds(e, Member(Name("body"), Quoted(f.body)));
    CleanAdds(g, Member(Name("fingerprint"), Quoted(f.fingerprint)));
  }

  lemma {:induction false} FindingsHaveNoSurrogates(fs: seq<Finding>)
    ensures Clean(FindingsJson(fs))
  {
    hide FindingJson;
    if fs != [] {
      FindingHasNoSurrogates(fs[0]);
      FindingsHaveNoSurrogates(fs[1..]);
    }
  }

  /** The measured size: every finding's own text, a comma between two, and the brackets. */
  lemma StringifiedSize(fs: seq<Finding>)
    ensures |Utf8(Stringified(fs))| == Total(fs) + (if fs == [] then 0 else |fs| - 1) + 2
  {
    var inner := Join(FindingsJson(fs));
    var text := ['[' as int] + inner + [']' as int];
    FindingsHaveNoSurrogates(fs);
    JoinHasNoSurrogates(FindingsJson(fs));
    UnitsReadBack(text);
    EncodedLengthAdds(['[' as int] + inner, [']' as int]);
    EncodedLengthAdds(['[' as int], inner);
    AsciiCost(['[' as int]);
    AsciiCost([']' as int]);
    JoinSize(fs);
  }

  lemma {:induction false} UniqueByCount(fs: seq<Finding>)
    ensures UniqueIds(fs) <==> |IdsOf(fs)| == |fs|
    ensures |IdsOf(fs)| <= |fs|
    decreases |fs|
  {
    if fs != [] {
      var n := |fs| - 1;
      UniqueByCount(fs[..n]);
      assert fs[..n + 1] == fs;
      if UniqueIds(fs[..n]) {
        OneMoreId(fs, n);
      } else {
        var i, j :| 0 <= i < j < n && fs[..n][i].id == fs[..n][j].id;
        assert fs[i].id == fs[j].id;
        assert IdsOf(fs) <= IdsOf(fs[..n]) + {fs[n].id} by { assert fs == fs[..n] + [fs[n]]; }
        AtMostOneMore(IdsOf(fs), IdsOf(fs[..n]), fs[n].id);
      }
    }
  }

  lemma AtMostOneMore(big: set<seq<Unit>>, small: set<seq<Unit>>, id: seq<Unit>)
    requires big <= small + {id}
    ensures |big| <= |small| + 1
  {
    assert big - {id} <= small;
    Smaller(big - {id}, small);
  }

  lemma {:induction false} Smaller(a: set<seq<Unit>>, b: set<seq<Unit>>)
    requires a <= b
    ensures |a| <= |b|
  {
    if a != {} {
      var x :| x in a;
      Smaller(a - {x}, b - {x});
    }
  }

  lemma AcceptedInAnyOrder(p: Packet, q: Packet)
    requires p.findings.Some? && q.findings.Some? && p.omitted == q.omitted
    requires multiset(p.findings.value) == multiset(q.findings.value)
    ensures Acceptable(p) <==> Acceptable(q)
  {
    hide Utf8, Stringified;
    var a, b := p.findings.value, q.findings.value;
    SameTotal(a, b);
    StringifiedSize(a);
    StringifiedSize(b);
    UniqueByCount(a);
    UniqueByCount(b);
    SameIds(a, b);
  }

  lemma SameIds(a: seq<Finding>, b: seq<Finding>)
    requires multiset(a) == multiset(b)
    ensures IdsOf(a) == IdsOf(b)
  {
    assert forall f :: f in a <==> f in multiset(a);
    assert forall f :: f in b <==> f in multiset(b);
  }
}
