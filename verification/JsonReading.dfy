/** Reading JSON text back: what is written of a string, a number and an object is what a reader finds. */
module JsonReading {
  import opened Options
  import opened Text
  import opened Json

  datatype Value = Null | Str(text: seq<Unit>) | Num(n: nat) | Obj(members: seq<(seq<Unit>, Value)>)

  // ---- the reader -----------------------------------------------------------------------------------

  function HexValue(p: Point): Option<nat> {
    if '0' as int <= p <= '9' as int then Some(p - '0' as int)
    else if 'a' as int <= p <= 'f' as int then Some(p - 'a' as int + 10)
    else None
  }

  function FourHex(t: seq<Point>): Option<Point>
    requires |t| == 4
  {
    var a, b, c, d := HexValue(t[0]), HexValue(t[1]), HexValue(t[2]), HexValue(t[3]);
    if a.Some? && b.Some? && c.Some? && d.Some? then HexIsAPoint(a.value, b.value, c.value, d.value)
    else None
  }

  function HexIsAPoint(a: nat, b: nat, c: nat, d: nat): Option<Point> {
    var n := ((a * 16 + b) * 16 + c) * 16 + d;
    if n < 0x1_0000 then Some(n) else None
  }

  /** One escape sequence after its backslash, and how much of the text it takes. */
  function Unescaped(t: seq<Point>): Option<(Point, nat)> {
    if t == [] then None
    else if t[0] == '\"' as int || t[0] == '\\' as int || t[0] == '/' as int then Some((t[0], 1))
    else if t[0] == 'b' as int then Some((8, 1))
    else if t[0] == 't' as int then Some((9, 1))
    else if t[0] == 'n' as int then Some((10, 1))
    else if t[0] == 'f' as int then Some((12, 1))
    else if t[0] == 'r' as int then Some((13, 1))
    else if t[0] == 'u' as int && |t| >= 5 && FourHex(t[1..5]).Some? then Some((FourHex(t[1..5]).value, 5))
    else None
  }

  /** The text up to the closing quote, and what follows it. */
  function ReadText(t: seq<Point>): (r: Option<(seq<Point>, seq<Point>)>)
    ensures r.Some? ==> |r.value.1| < |t|
    decreases |t|
  {
    if t == [] || t[0] < 0x20 then None
    else if t[0] == '\"' as int then Some(([], t[1..]))
    else if t[0] == '\\' as int then
      var e := Unescaped(t[1..]);
      if e.None? || e.value.1 > |t| - 1 then None
      else
        var more := ReadText(t[1 + e.value.1..]);
        if more.None? then None else Some(([e.value.0] + more.value.0, more.value.1))
    else
      var more := ReadText(t[1..]);
      if more.None? then None else Some(([t[0]] + more.value.0, more.value.1))
  }

  predicate IsFigure(p: Point) { '0' as int <= p <= '9' as int }

  function Figures(t: seq<Point>): (n: nat)
    ensures n <= |t|
  {
    if t == [] || !IsFigure(t[0]) then 0 else 1 + Figures(t[1..])
  }

  /** In decimal, the last figure counting once. */
  function NumberOf(figures: seq<Point>): nat
    requires forall p <- figures :: IsFigure(p)
  {
    if figures == [] then 0
    else
      var last := figures[|figures| - 1];
      assert last in figures && IsFigure(last);
      NumberOf(figures[..|figures| - 1]) * 10 + (last - '0' as int)
  }

  lemma {:induction false} FiguresAreFigures(t: seq<Point>)
    ensures forall p <- t[..Figures(t)] :: IsFigure(p)
  {
    if t != [] && IsFigure(t[0]) {
      FiguresAreFigures(t[1..]);
      assert t[..Figures(t)] == [t[0]] + t[1..][..Figures(t[1..])];
    }
  }

  function ReadValue(t: seq<Point>): (r: Option<(Value, seq<Point>)>)
    ensures r.Some? ==> |r.value.1| < |t|
    decreases |t|, 1
  {
    if t == [] then None
    else if t[0] == '\"' as int then
      var text := ReadText(t[1..]);
      if text.None? then None else Some((Str(Units(text.value.0)), text.value.1))
    else if IsFigure(t[0]) then
      FiguresAreFigures(t);
      Some((Num(NumberOf(t[..Figures(t)])), t[Figures(t)..]))
    else if |t| >= 4 && t[..4] == Name("null") then Some((Null, t[4..]))
    else if t[0] == '{' as int then
      if |t| >= 2 && t[1] == '}' as int then Some((Obj([]), t[2..]))
      else
        var members := ReadMembers(t[1..]);
        if members.None? then None else Some((Obj(members.value.0), members.value.1))
    else None
  }

  /** One member and those after it, up to the closing brace. */
  function ReadMembers(t: seq<Point>): (r: Option<(seq<(seq<Unit>, Value)>, seq<Point>)>)
    ensures r.Some? ==> |r.value.1| < |t|
    decreases |t|, 0
  {
    if t == [] || t[0] != '\"' as int then None
    else
      var name := ReadText(t[1..]);
      if name.None? || name.value.1 == [] || name.value.1[0] != ':' as int then None
      else
        var value := ReadValue(name.value.1[1..]);
        if value.None? || value.value.1 == [] then None
        else
          var member := (Units(name.value.0), value.value.0);
          var rest := value.value.1;
          if rest[0] == '}' as int then Some(([member], rest[1..]))
          else if rest[0] == ',' as int then
            var more := ReadMembers(rest[1..]);
            if more.None? then None else Some(([member] + more.value.0, more.value.1))
          else None
  }

  // ---- strings --------------------------------------------------------------------------------------

  lemma HexReads(d: int)
    requires 0 <= d < 16
    ensures HexValue(HexDigit(d)) == Some(d)
  {}

  lemma HexAddsUp(u: nat)
    ensures u == ((u / 0x1000 * 16 + u / 0x100 % 16) * 16 + u / 16 % 16) * 16 + u % 16
  {
    var a, b := u / 16, u / 0x100;
    assert u == a * 16 + u % 16 && a == b * 16 + a % 16 && b == u / 0x1000 * 16 + b % 16;
  }

  lemma FourHexReads(u: Unit)
    ensures FourHex(UnicodeEscape(u)[2..]) == Some(u)
  {
    HexReads(u / 0x1000);
    HexReads(u / 0x100 % 16);
    HexReads(u / 16 % 16);
    HexReads(u % 16);
    HexAddsUp(u);
    hide HexDigit, HexValue;
  }

  lemma UnicodeEscapeReads(u: Unit, rest: seq<Point>)
    ensures Unescaped(UnicodeEscape(u)[1..] + rest) == Some((u, 5))
  {
    FourHexReads(u);
    ShapeOfEscape(u);
    hide UnicodeEscape, FourHex;
    var t := UnicodeEscape(u)[1..] + rest;
    assert t[1..5] == UnicodeEscape(u)[2..];
  }

  lemma EscapeReads(p: Point, t: seq<Point>)
    ensures ReadText(Escape(p) + t) == match ReadText(t) case None => None case Some(more) => Some(([p] + more.0, more.1))
  {
    hide UnicodeEscape;
    if p < 0x1_0000 { ShapeOfEscape(p); }
    var whole := Escape(p) + t;
    if |Escape(p)| == 1 {
      assert whole[1..] == t;
    } else if |Escape(p)| == 2 {
      assert whole[0] == '\\' as int && whole[1..][0] == Escape(p)[1] && whole[2..] == t;
      assert Unescaped(whole[1..]) == Some((p, 1));
    } else {
      UnicodeEscapeReads(p, t);
      assert whole[0] == '\\' as int && whole[1..] == UnicodeEscape(p)[1..] + t && whole[6..] == t;
    }
  }

  lemma ShapeOfEscape(u: Unit)
    ensures |UnicodeEscape(u)| == 6 && UnicodeEscape(u)[0] == '\\' as int && UnicodeEscape(u)[1] == 'u' as int
  {}

  lemma {:induction false} EscapedReads(points: seq<Point>, rest: seq<Point>)
    ensures ReadText(EscapeAll(points) + ['\"' as int] + rest) == Some((points, rest))
    decreases |points|
  {
    hide Escape, Unescaped;
    var tail := ['\"' as int] + rest;
    if points == [] {
      assert EscapeAll(points) + ['\"' as int] + rest == tail && tail[1..] == rest;
    } else {
      var t := EscapeAll(points[1..]) + ['\"' as int] + rest;
      assert EscapeAll(points) + ['\"' as int] + rest == Escape(points[0]) + t;
      EscapeReads(points[0], t);
      EscapedReads(points[1..], rest);
      assert points == [points[0]] + points[1..];
    }
  }

  /** Walking a text by code points and writing them back gives the text, lone surrogates included. */
  lemma {:induction false} PointsWriteBack(text: seq<Unit>)
    ensures Units(Points(text)) == text
    decreases |text|
  {
    if text != [] {
      if StartsWithPair(text) {
        PointsWriteBack(text[2..]);
        assert Points(text)[1..] == Points(text[2..]);
        assert text == [text[0], text[1]] + text[2..];
      } else {
        PointsWriteBack(text[1..]);
        assert Points(text)[1..] == Points(text[1..]);
      }
    }
  }

  // ---- values ---------------------------------------------------------------------------------------

  predicate EndsNumber(rest: seq<Point>) { rest == [] || !IsFigure(rest[0]) }

  /** Whatever follows that is no figure, the reader takes exactly this text and finds this value. */
  ghost predicate ReadsAs(text: seq<Point>, v: Value) {
    forall rest | EndsNumber(rest) :: ReadValue(text + rest) == Some((v, rest))
  }

  /** A JSON string reads back as the text it was made from, whatever code units it holds. */
  lemma QuoteReadsBack(text: seq<Unit>)
    ensures ReadsAs(Quote(text), Str(text))
  {
    hide EscapeAll, Points;
    forall rest | EndsNumber(rest) ensures ReadValue(Quote(text) + rest) == Some((Str(text), rest)) {
      var t := Quote(text) + rest;
      assert t[1..] == EscapeAll(Points(text)) + ['\"' as int] + rest;
      EscapedReads(Points(text), rest);
      PointsWriteBack(text);
    }
  }

  lemma {:induction false} DecimalFigures(n: nat)
    ensures (forall p <- Decimal(n) :: IsFigure(p)) && Decimal(n) != [] && NumberOf(Decimal(n)) == n
  {
    var d := Decimal(n);
    if n >= 10 {
      DecimalFigures(n / 10);
      assert d[..|d| - 1] == Decimal(n / 10);
    } else {
      assert d[..0] == [];
    }
  }

  lemma {:induction false} SpanOfFigures(figures: seq<Point>, rest: seq<Point>)
    requires (forall p <- figures :: IsFigure(p)) && EndsNumber(rest)
    ensures Figures(figures + rest) == |figures|
    decreases |figures|
  {
    if figures == [] {
      assert figures + rest == rest;
    } else {
      assert figures[0] in figures && forall p <- figures[1..] :: p in figures;
      assert (figures + rest)[1..] == figures[1..] + rest;
      SpanOfFigures(figures[1..], rest);
    }
  }

  lemma DecimalReadsBack(n: nat)
    ensures ReadsAs(Decimal(n), Num(n))
  {
    hide Decimal, Figures, NumberOf;
    DecimalFigures(n);
    forall rest | EndsNumber(rest) ensures ReadValue(Decimal(n) + rest) == Some((Num(n), rest)) {
      var t := Decimal(n) + rest;
      SpanOfFigures(Decimal(n), rest);
      assert t[0] == Decimal(n)[0] && Decimal(n)[0] in Decimal(n);
      assert t[..|Decimal(n)|] == Decimal(n) && t[|Decimal(n)|..] == rest;
    }
  }

  // ---- objects --------------------------------------------------------------------------------------

  /** A member to be written: its name, its text, and the value the text stands for. */
  datatype Entry = Entry(name: string, text: seq<Point>, value: Value)

  predicate PlainName(name: string) { forall c <- name :: 0x20 <= c as int < 0x80 && c != '\"' && c != '\\' }

  ghost predicate Sound(e: Entry) { PlainName(e.name) && ReadsAs(e.text, e.value) }

  function TextOf(e: Entry): seq<Point> { ['\"' as int] + Name(e.name) + ['\"' as int, ':' as int] + e.text }

  function Texts(es: seq<Entry>): seq<seq<Point>> { seq(|es|, i requires 0 <= i < |es| => TextOf(es[i])) }

  function Found(es: seq<Entry>): seq<(seq<Unit>, Value)> {
    seq(|es|, i requires 0 <= i < |es| => (Units(Name(es[i].name)), es[i].value))
  }

  lemma {:induction false} PlainReads(points: seq<Point>, rest: seq<Point>)
    requires forall p <- points :: 0x20 <= p < 0x80 && p != '\"' as int && p != '\\' as int
    ensures ReadText(points + ['\"' as int] + rest) == Some((points, rest))
    decreases |points|
  {
    var t := points + ['\"' as int] + rest;
    if points == [] {
      assert t == ['\"' as int] + rest && t[1..] == rest;
    } else {
      assert points[0] in points && forall p <- points[1..] :: p in points;
      assert t[1..] == points[1..] + ['\"' as int] + rest;
      PlainReads(points[1..], rest);
      assert points == [points[0]] + points[1..];
    }
  }

  lemma NameReads(name: string, rest: seq<Point>)
    requires PlainName(name)
    ensures ReadText(Name(name) + ['\"' as int] + rest) == Some((Name(name), rest))
  {
    forall p | p in Name(name) ensures 0x20 <= p < 0x80 && p != '\"' as int && p != '\\' as int {
      var i :| 0 <= i < |name| && p == name[i] as int;
      assert name[i] in name;
    }
    PlainReads(Name(name), rest);
  }

  lemma OneMember(t: seq<Point>, name: seq<Point>, after: seq<Point>, v: Value, rest: seq<Point>)
    requires t != [] && t[0] == '\"' as int && ReadText(t[1..]) == Some((name, after))
    requires after != [] && after[0] == ':' as int && ReadValue(after[1..]) == Some((v, rest)) && rest != []
    ensures ReadMembers(t) ==
      if rest[0] == '}' as int then Some(([(Units(name), v)], rest[1..]))
      else if rest[0] == ',' as int then
        match ReadMembers(rest[1..]) case None => None case Some(more) => Some(([(Units(name), v)] + more.0, more.1))
      else None
  {
    hide ReadText, ReadValue, Units;
  }

  /** One member, and what the reader makes of what follows it. */
  lemma MemberReads(e: Entry, rest: seq<Point>)
    requires Sound(e) && EndsNumber(rest) && rest != []
    ensures ReadMembers(TextOf(e) + rest) ==
      var member := (Units(Name(e.name)), e.value);
      if rest[0] == '}' as int then Some(([member], rest[1..]))
      else if rest[0] == ',' as int then
        match ReadMembers(rest[1..]) case None => None case Some(more) => Some(([member] + more.0, more.1))
      else None
  {
    hide ReadValue, ReadText, Name, ReadMembers, Units;
    var t := TextOf(e) + rest;
    var after := [':' as int] + e.text + rest;
    assert t[1..] == Name(e.name) + ['\"' as int] + after;
    NameReads(e.name, after);
    assert after[1..] == e.text + rest;
    assert ReadValue(e.text + rest) == Some((e.value, rest));
    OneMember(t, Name(e.name), after, e.value, rest);
  }

  lemma {:induction false} MembersRead(es: seq<Entry>, rest: seq<Point>)
    requires es != [] && forall e <- es :: Sound(e)
    ensures ReadMembers(Join(Texts(es)) + ['}' as int] + rest) == Some((Found(es), rest))
    decreases |es|
  {
    hide ReadMembers, Sound, TextOf, Name;
    assert es[0] in es && forall e <- es[1..] :: e in es;
    assert Texts(es)[1..] == Texts(es[1..]) && Texts(es)[0] == TextOf(es[0]);
    var t := Join(Texts(es)) + ['}' as int] + rest;
    var last := ['}' as int] + rest;
    if |es| == 1 {
      assert t == TextOf(es[0]) + last && last[1..] == rest;
      MemberReads(es[0], last);
      assert Found(es) == [(Units(Name(es[0].name)), es[0].value)];
    } else {
      var more := Join(Texts(es[1..])) + ['}' as int] + rest;
      var tail := [',' as int] + more;
      assert t == TextOf(es[0]) + tail && tail[1..] == more;
      MemberReads(es[0], tail);
      MembersRead(es[1..], rest);
      assert Found(es) == [(Units(Name(es[0].name)), es[0].value)] + Found(es[1..]);
    }
  }

  /** An object reads back as its members, in order. */
  lemma ObjectReadsBack(es: seq<Entry>)
    requires es != [] && forall e <- es :: Sound(e)
    ensures ReadsAs(Object(Texts(es)), Obj(Found(es)))
  {
    hide ReadMembers, Sound;
    forall rest | EndsNumber(rest) ensures ReadValue(Object(Texts(es)) + rest) == Some((Obj(Found(es)), rest)) {
      var t := Object(Texts(es)) + rest;
      assert t[1..] == Join(Texts(es)) + ['}' as int] + rest;
      MembersRead(es, rest);
      StartsWithAName(es);
      assert t[1] == Join(Texts(es))[0];
    }
  }

  lemma StartsWithAName(es: seq<Entry>)
    requires es != []
    ensures Join(Texts(es)) != [] && Join(Texts(es))[0] == '\"' as int
  {
    assert Texts(es)[0] == TextOf(es[0]);
  }
}
