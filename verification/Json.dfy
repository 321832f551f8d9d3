/** JSON text as the code points of the string `JSON.stringify` returns: members, objects, lists. */
module Json {
  import opened Options
  import opened Text

  /** A member's name. */
  function Name(s: string): seq<Point> {
    seq(|s|, i requires 0 <= i < |s| => s[i] as int)
  }

  function Decimal(n: nat): seq<Point> {
    if n < 10 then ['0' as int + n] else Decimal(n / 10) + ['0' as int + n % 10]
  }

  function Join(parts: seq<seq<Point>>): seq<Point> {
    if parts == [] then []
    else if |parts| == 1 then parts[0]
    else parts[0] + [',' as int] + Join(parts[1..])
  }

  function Member(name: seq<Point>, value: Option<seq<Point>>): seq<seq<Point>> {
    match value
    case None => []
    case Some(v) => [['\"' as int] + name + ['\"' as int, ':' as int] + v]
  }

  function Quoted(text: Option<seq<Unit>>): Option<seq<Point>> {
    match text
    case None => None
    case Some(t) => Some(Quote(t))
  }

  function Object(members: seq<seq<Point>>): seq<Point> {
    ['{' as int] + Join(members) + ['}' as int]
  }

  ghost predicate NoSurrogates(points: seq<Point>) { forall p <- points :: !IsSurrogate(p) }

  lemma {:induction false} EscapedHasNoSurrogates(points: seq<Point>)
    ensures NoSurrogates(EscapeAll(points))
  {
    if points != [] {
      EscapedHasNoSurrogates(points[1..]);
      assert NoSurrogates(Escape(points[0]));
    }
  }

  lemma {:induction false} DecimalHasNoSurrogates(n: nat)
    ensures NoSurrogates(Decimal(n))
  {
    if n >= 10 { DecimalHasNoSurrogates(n / 10); }
  }

  lemma {:induction false} JoinHasNoSurrogates(parts: seq<seq<Point>>)
    requires Clean(parts)
    ensures NoSurrogates(Join(parts))
  {
    if |parts| > 1 {
      assert parts[0] in parts && forall part <- parts[1..] :: part in parts;
      JoinHasNoSurrogates(parts[1..]);
    } else if |parts| == 1 {
      assert parts[0] in parts;
    }
  }

  ghost predicate Clean(parts: seq<seq<Point>>) { forall part <- parts :: NoSurrogates(part) }

  lemma CleanAdds(a: seq<seq<Point>>, b: seq<seq<Point>>)
    requires Clean(a) && Clean(b)
    ensures Clean(a + b)
  {}

  lemma MemberIsClean(name: string, value: Option<seq<Point>>)
    requires value.Some? ==> NoSurrogates(value.value)
    ensures Clean(Member(Name(name), value))
  {}

  // ---- what objects cost ----------------------------------------------------------------------------

  /** The bytes of some members, each with one byte for a separator. */
  ghost function Cost(parts: seq<seq<Point>>): nat {
    if parts == [] then 0 else Size(parts[0]) + 1 + Cost(parts[1..])
  }

  lemma {:induction false} CostAdds(a: seq<seq<Point>>, b: seq<seq<Point>>)
    ensures Cost(a + b) == Cost(a) + Cost(b)
  {
    if a == [] {
      assert a + b == b;
    } else {
      assert (a + b)[1..] == a[1..] + b;
      CostAdds(a[1..], b);
    }
  }

  lemma {:induction false} JoinCost(parts: seq<seq<Point>>)
    ensures Size(Join(parts)) <= Cost(parts)
  {
    if |parts| > 1 {
      JoinCost(parts[1..]);
      EncodedLengthAdds(parts[0] + [',' as int], Join(parts[1..]));
      EncodedLengthAdds(parts[0], [',' as int]);
      AsciiCost([',' as int]);
    }
  }

  lemma ObjectCost(parts: seq<seq<Point>>)
    ensures Size(Object(parts)) <= Cost(parts) + 2
  {
    JoinCost(parts);
    EncodedLengthAdds(['{' as int] + Join(parts), ['}' as int]);
    EncodedLengthAdds(['{' as int], Join(parts));
    AsciiCost(['{' as int]);
    AsciiCost(['}' as int]);
  }

  lemma {:induction false} FourBytesEach(points: seq<Point>)
    ensures Size(points) <= 4 * |points|
  {
    if points != [] { FourBytesEach(points[1..]); }
  }

  lemma MemberCost(name: string, value: Option<seq<Point>>, bound: nat)
    requires value.Some? ==> Size(value.value) <= bound
    ensures Cost(Member(Name(name), value)) <= 4 * |name| + 4 + bound
  {
    if value.Some? {
      var quote, colon := ['\"' as int], ['\"' as int, ':' as int];
      FourBytesEach(Name(name));
      AsciiCost(quote);
      AsciiCost(colon);
      EncodedLengthAdds(quote + Name(name) + colon, value.value);
      EncodedLengthAdds(quote + Name(name), colon);
      EncodedLengthAdds(quote, Name(name));
      assert Member(Name(name), value)[1..] == [];
    }
  }

  ghost function Power10(n: nat): nat { if n == 0 then 1 else 10 * Power10(n - 1) }

  lemma {:induction false} DecimalCost(n: nat, digits: nat)
    requires digits > 0 && n < Power10(digits)
    ensures Size(Decimal(n)) <= digits
    decreases digits
  {
    AsciiCost(['0' as int + n % 10]);
    if n >= 10 {
      DecimalCost(n / 10, digits - 1);
      EncodedLengthAdds(Decimal(n / 10), ['0' as int + n % 10]);
    }
  }
}
