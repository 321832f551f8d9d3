/** Links and frames of the mockup pages: persisted axes travel on them, authored keys stay pinned, and
    the compare page frames one screen page twice. */
module AirLinks {
  import opened Options
  import opened AirView

  // ---- carrying -------------------------------------------------------------------------------------

  function CarryOn(q: Query, s: Values, axes: seq<Axis>): Query
    decreases |axes|
  {
    if axes == [] then q
    else
      var a := axes[0];
      CarryOn(if a !in s || s[a] == Default(a) || Get(q, Name(a)).Some? then q else Put(q, Name(a), s[a]), s, axes[1..])
  }

  /** Persisted axes off their default travel unless the address already states the key. */
  function Carry(q: Query, s: Values): Query { CarryOn(q, s, PERSISTED) }

  lemma {:induction false} GetCarried(q: Query, s: Values, axes: seq<Axis>, k: string)
    ensures Get(CarryOn(q, s, axes), k) ==
      if Get(q, k).None? && AxisNamed(k).Some? && k == Name(AxisNamed(k).value) && AxisNamed(k).value in axes
         && AxisNamed(k).value in s && s[AxisNamed(k).value] != Default(AxisNamed(k).value)
      then Some(s[AxisNamed(k).value]) else Get(q, k)
    decreases |axes|
  {
    hide Get, Put, AxisNamed, Name, Default;
    if axes != [] {
      var a := axes[0];
      NamesAreDistinct(a);
      assert axes == [a] + axes[1..];
      if a in s { GetAfterPut(q, Name(a), s[a], k); }
      GetCarried(if a !in s || s[a] == Default(a) || Get(q, Name(a)).Some? then q else Put(q, Name(a), s[a]), s,
          axes[1..], k);
    }
  }

  /** What a carried address says: every authored key as authored; a persisted axis it did not state, if
      the page holds it off its default; nothing else, so page keys never travel. */
  lemma CarryMeans(q: Query, s: Values, k: string)
    ensures Get(q, k).Some? ==> Get(Carry(q, s), k) == Get(q, k)
    ensures Get(q, k).None? && Get(Carry(q, s), k).Some? ==>
      && AxisNamed(k).Some? && Persists(AxisNamed(k).value) && AxisNamed(k).value in s
      && Get(Carry(q, s), k) == Some(s[AxisNamed(k).value]) && s[AxisNamed(k).value] != Default(AxisNamed(k).value)
  {
    hide Get, Put, AxisNamed, Name, Default;
    GetCarried(q, s, PERSISTED, k);
  }

  lemma CarriedAxis(q: Query, s: Values, a: Axis)
    ensures Get(Carry(q, s), Name(a)) ==
      if Get(q, Name(a)).None? && Persists(a) && a in s && s[a] != Default(a) then Some(s[a]) else Get(q, Name(a))
  {
    NamesAreDistinct(a);
    GetCarried(q, s, PERSISTED, Name(a));
    hide Get, AxisNamed, Name, Default;
    assert a in PERSISTED <==> Persists(a);
  }

  // ---- links ----------------------------------------------------------------------------------------

  /** A same-folder page with its query and hash, or any other text. */
  datatype Href = Local(file: string, query: Query, hash: string) | Elsewhere(text: string)

  /** `compare` is the link's data-air-compare; `authored` is what the first pass saw in it. */
  datatype Link = Link(href: Href, compare: Option<string>, authored: Option<Href>)

  function WithKeys(q: Query, s: Values, axes: seq<Axis>): Query
    decreases |axes|
  {
    if axes == [] then q
    else
      var a := axes[0];
      WithKeys(if a in s && s[a] != "" then Put(q, Name(a), s[a]) else q, s, axes[1..])
  }

  /** Where "Compare at 1280" points: the target page, with this page's own keys when it is this page. */
  function CompareQuery(target: Page, here: Page, s: Values): Query {
    var q := Put([], "page", PageKey(target));
    if target == here then WithKeys(q, s, TRAVELS) else q
  }

  function CompareHref(target: string, here: Page, s: Values): Option<Href> {
    if PageNamed(target) == NoPage then None
    else Some(Local("compare.html", CompareQuery(PageNamed(target), here, s), ""))
  }

  function Authored(l: Link): Href { if l.authored.Some? then l.authored.value else l.href }

  /** One link after one pass: rebuilt from what it was authored with. */
  function Synced(l: Link, here: Page, s: Values): Link {
    var seen := l.(authored := Some(Authored(l)));
    var href := if l.compare.None? then Some(Authored(l)) else CompareHref(l.compare.value, here, s);
    if href.Some? && href.value.Local? then seen.(href := href.value.(query := Carry(href.value.query, s))) else seen
  }

  /** A link to the compare page, after a pass: to the page it names, with this page's own section, state,
      table and cta when it is this page, and the persisted axes carried as on any link; one that names no
      page stays as it is. */
  lemma CompareLinkIs(l: Link, here: Page, s: Values)
    requires l.compare.Some?
    ensures var now := Synced(l, here, s);
      var target := PageNamed(l.compare.value);
      && now.compare == l.compare
      && (target == NoPage ==> now.href == l.href)
      && (target != NoPage ==> now.href == Local("compare.html", Carry(CompareQuery(target, here, s), s), ""))
  {
    hide Carry, CompareQuery, PageNamed;
  }

  /** Whatever passes came before, a pass leaves what it would have left on the link as authored. */
  lemma SyncForgetsHistory(l: Link, here: Page, before: Values, now: Values)
    ensures Synced(Synced(l, here, before), here, now) == Synced(l, here, now)
  {
    hide Carry, CompareQuery;
  }

  lemma SyncTwiceIsOnce(l: Link, here: Page, s: Values)
    ensures Synced(Synced(l, here, s), here, s) == Synced(l, here, s)
  {
    hide Carry, CompareQuery;
  }

  function SyncedOver(l: Link, here: Page, states: seq<Values>): Link {
    if states == [] then l else Synced(SyncedOver(l, here, states[..|states| - 1]), here, states[|states| - 1])
  }

  /** An ordinary same-folder link, after any number of passes over any states: the authored address
      carried under the last state, authored keys pinned and unauthored page keys absent. */
  lemma {:induction false} LinksAreHistoryIndependent(l: Link, here: Page, states: seq<Values>, k: string)
    requires l.compare.None? && l.authored.None? && l.href.Local? && states != []
    ensures var s := states[|states| - 1];
      var now := SyncedOver(l, here, states);
      && now.href == l.href.(query := Carry(l.href.query, s)) && now.authored == Some(l.href) && now.compare.None?
      && (Get(l.href.query, k).Some? ==> Get(now.href.query, k) == Get(l.href.query, k))
      && (Get(l.href.query, k).None? && (AxisNamed(k).None? || !Persists(AxisNamed(k).value)) ==>
            Get(now.href.query, k) == None)
    decreases |states|
  {
    hide Get, AxisNamed, Carry;
    var front := states[..|states| - 1];
    CarryMeans(l.href.query, states[|states| - 1], k);
    if front == [] {
      assert SyncedOver(l, here, front) == l;
    } else {
      LinksAreHistoryIndependent(l, here, front, k);
    }
  }

  // ---- the compare page -----------------------------------------------------------------------------

  function AskedOrDefault(a: Axis, q: Query, p: Page): string {
    var asked := Get(q, Name(a));
    if asked.Some? && Allows(a, asked.value, p) then asked.value else Default(a)
  }

  /** The open points the target page offers. */
  function OpenOf(p: Page): seq<Axis> { if p == Tasks then [Table, Cta] else [] }

  function WithOpen(f: Query, q: Query, p: Page, open: seq<Axis>): Query
    decreases |open|
  {
    if open == [] then f else WithOpen(Put(f, Name(open[0]), AskedOrDefault(open[0], q, p)), q, p, open[1..])
  }

  function FramedPage(q: Query): Page {
    match Get(q, "page")
    case None => Tasks
    case Some(k) => if PageNamed(k) == NoPage then Tasks else PageNamed(k)
  }

  /** The compare page frames the page its address names, and the tasks page when it names none. */
  lemma FramesWhatIsNamed(q: Query, p: Page)
    ensures Get(q, "page") == Some(PageKey(p)) && p != NoPage ==> FramedPage(q) == p
    ensures (forall r: Page :: r != NoPage ==> Get(q, "page") != Some(PageKey(r))) ==> FramedPage(q) == Tasks
  {
    hide Get;
    if FramedPage(q) != Tasks { assert Get(q, "page") == Some(PageKey(FramedPage(q))); }
  }

  /** The address one of the two frames is given. */
  function FrameQuery(q: Query, today: bool): Query {
    var p := FramedPage(q);
    var section := Get(q, Name(Section));
    var asked := Get(q, Name(State));
    var a := if section.Some? && section.value in SectionsOf(p) then Put([], Name(Section), section.value) else [];
    var b := if asked.Some? && asked.value in StatesOf(p) then Put(a, Name(State), asked.value) else a;
    Put(WithOpen(b, q, p, OpenOf(p)), Name(V), if today then "today" else "air")
  }

  lemma {:induction false} GetWithKeys(q: Query, s: Values, axes: seq<Axis>, k: string)
    ensures Get(WithKeys(q, s, axes), k) ==
      if AxisNamed(k).Some? && k == Name(AxisNamed(k).value) && AxisNamed(k).value in axes && AxisNamed(k).value in s
         && s[AxisNamed(k).value] != ""
      then Some(s[AxisNamed(k).value]) else Get(q, k)
    decreases |axes|
  {
    hide Get, Put, AxisNamed, Name;
    if axes != [] {
      var a := axes[0];
      NamesAreDistinct(a);
      assert axes == [a] + axes[1..];
      if a in s { GetAfterPut(q, Name(a), s[a], k); }
      GetWithKeys(if a in s && s[a] != "" then Put(q, Name(a), s[a]) else q, s, axes[1..], k);
    }
  }

  /** The page's own keys that "Compare at 1280" takes along. */
  predicate Travels(a: Axis) { a.Section? || a.State? || a.Table? || a.Cta? }

  /** A link to the compare page names its target, and takes this page's own keys along only to compare
      this very page. */
  lemma CompareTakes(target: Page, here: Page, s: Values, a: Axis)
    ensures var q := CompareQuery(target, here, s);
      && Get(q, "page") == Some(PageKey(target))
      && Get(q, Name(a)) == if target == here && Travels(a) && a in s && s[a] != "" then Some(s[a]) else None
  {
    hide Get, Put, AxisNamed, Name, WithKeys, PageKey;
    NamesAreDistinct(a);
    assert a in TRAVELS <==> Travels(a);
    PageIsNoAxisName();
    GetAfterPut([], "page", PageKey(target), "page");
    GetAfterPut([], "page", PageKey(target), Name(a));
    EmptyQuery(Name(a));
    var base := Put([], "page", PageKey(target));
    GetWithKeys(base, s, TRAVELS, "page");
    GetWithKeys(base, s, TRAVELS, Name(a));
  }

  lemma PageIsNoAxisName()
    ensures AxisNamed("page").None?
  {}

  lemma EmptyQuery(k: string)
    ensures Get([], k) == None
  {}

  /** What the compare page finds in its own address when the link of screen page `p` brought it there. */
  lemma CompareAddress(p: Page, s: Values, a: Axis)
    requires p != NoPage
    ensures var q := Carry(CompareQuery(p, p, s), s);
      && FramedPage(q) == p
      && Get(q, Name(a)) ==
           if Travels(a) && a in s && s[a] != "" then Some(s[a])
           else if Persists(a) && a in s && s[a] != Default(a) then Some(s[a]) else None
  {
    hide Get, Put, AxisNamed, Name, Default, WithKeys, Carry, CarryOn, PageKey, PageNamed;
    NamesAreDistinct(a);
    PageIsNoAxis(p);
    var base := Put([], "page", PageKey(p));
    NothingInEmpty(Name(a));
    GetAfterPut([], "page", PageKey(p), "page");
    GetAfterPut([], "page", PageKey(p), Name(a));
    GetWithKeys(base, s, TRAVELS, "page");
    GetWithKeys(base, s, TRAVELS, Name(a));
    CarryMeans(CompareQuery(p, p, s), s, "page");
    CarriedAxis(CompareQuery(p, p, s), s, a);
    Travellers(a);
  }

  lemma PageIsNoAxis(p: Page)
    ensures AxisNamed("page").None? && (p != NoPage ==> PageNamed(PageKey(p)) == p)
  {}

  lemma Travellers(a: Axis)
    ensures a in TRAVELS <==> Travels(a)
  {}

  /** What one frame's address says. */
  lemma FrameAddress(q: Query, today: bool, a: Axis)
    ensures var p := FramedPage(q);
      Get(FrameQuery(q, today), Name(a)) ==
        match a
        case V => Some(if today then "today" else "air")
        case Section => (var x := Get(q, Name(Section)); if x.Some? && x.value in SectionsOf(p) then x else None)
        case State => (var x := Get(q, Name(State)); if x.Some? && x.value in StatesOf(p) then x else None)
        case Table => if p == Tasks then Some(AskedOrDefault(Table, q, p)) else None
        case Cta => if p == Tasks then Some(AskedOrDefault(Cta, q, p)) else None
        case _ => None
  {
    var p := FramedPage(q);
    var section, asked := Get(q, Name(Section)), Get(q, Name(State));
    hide Get, Put, AxisNamed, FramedPage, SectionsOf, StatesOf, AskedOrDefault;
    assert Get([], Name(a)).None? by { NothingInEmpty(Name(a)); }
    var f0: Query := if section.Some? && section.value in SectionsOf(p) then Put([], Name(Section), section.value)
        else [];
    if section.Some? { GetAfterPut([], Name(Section), section.value, Name(a)); }
    var f1 := if asked.Some? && asked.value in StatesOf(p) then Put(f0, Name(State), asked.value) else f0;
    if asked.Some? { GetAfterPut(f0, Name(State), asked.value, Name(a)); }
    var f2 := WithOpen(f1, q, p, OpenOf(p));
    GetOpen(f1, q, p, a);
    GetAfterPut(f2, Name(V), if today then "today" else "air", Name(a));
    NamesAreDistinct(a);
  }

  lemma NothingInEmpty(k: string)
    ensures Get([], k) == None
  {}

  lemma GetOpen(f: Query, q: Query, p: Page, a: Axis)
    ensures Get(WithOpen(f, q, p, OpenOf(p)), Name(a)) ==
      if p == Tasks && (a.Table? || a.Cta?) then Some(AskedOrDefault(a, q, p)) else Get(f, Name(a))
  {
    hide Get, Put, AskedOrDefault;
    NamesAreDistinct(a);
    if p == Tasks {
      var g := Put(f, Name(Table), AskedOrDefault(Table, q, p));
      GetAfterPut(f, Name(Table), AskedOrDefault(Table, q, p), Name(a));
      GetAfterPut(g, Name(Cta), AskedOrDefault(Cta, q, p), Name(a));
      assert [Table, Cta][1..] == [Cta] && [Cta][1..] == [];
    }
  }

  /** "Compare at 1280", end to end. From screen page `p` in any state it can be in, the link leads to a
      compare page, under any storage, whose two frames resolve section, state, table and cta to this
      page's values, one view each, the drawer closed, and the other axes as the compare page has them. */
  lemma CompareIsFaithful(p: Page, s: Values, storage: Option<map<string, string>>, today: bool, a: Axis)
    requires p != NoPage && ValidFor(s, p) && OptionsOn(a, p).Some?
    ensures var link := Carry(CompareQuery(p, p, s), s);
      var compare := Loaded(NoPage, false, link, storage);
      var frame := Carry(FrameQuery(link, today), compare);
      var shown := Resolve(a, p, true, frame, None);
      && FramedPage(link) == p
      && (Travels(a) ==> shown == s[a])
      && (a.V? ==> shown == if today then "today" else "air")
      && (a.Drawer? ==> shown == "")
      && (Persists(a) && !a.V? ==> a in compare && shown == compare[a])
  {
    hide Get, CompareQuery, FrameQuery, FramedPage, Carry, Name, Allows, OptionsOn, Resolve, Loaded, Default, ValidFor;
    var link := Carry(CompareQuery(p, p, s), s);
    LoadedIsValid(NoPage, false, link, storage);
    CompareAddress(p, s, a);
    if Travels(a) {
      InState(p, s, a);
      TravellingAxis(p, s, link, Loaded(NoPage, false, link, storage), today, a);
    } else {
      StayingAxis(p, link, Loaded(NoPage, false, link, storage), today, a);
    }
  }

  lemma InState(p: Page, s: Values, a: Axis)
    requires ValidFor(s, p) && OptionsOn(a, p).Some?
    ensures a in s
  {}

  lemma TravellingAxis(p: Page, s: Values, q: Query, compare: Values, today: bool, a: Axis)
    requires ValidFor(s, p) && a in s && Travels(a) && FramedPage(q) == p && OptionsOn(a, p).Some?
    requires Get(q, Name(a)) == if s[a] != "" then Some(s[a]) else None
    ensures Resolve(a, p, true, Carry(FrameQuery(q, today), compare), None) == s[a]
  {
    hide Get, FrameQuery, FramedPage, Carry, AxisNamed, Name;
    FrameAddress(q, today, a);
    CarriedAxis(FrameQuery(q, today), compare, a);
    assert Allows(a, s[a], p);
  }

  lemma StayingAxis(p: Page, q: Query, compare: Values, today: bool, a: Axis)
    requires ValidFor(compare, NoPage) && !Travels(a) && FramedPage(q) == p && p != NoPage && OptionsOn(a, p).Some?
    ensures var shown := Resolve(a, p, true, Carry(FrameQuery(q, today), compare), None);
      && (a.V? ==> shown == if today then "today" else "air")
      && (a.Drawer? ==> shown == "")
      && (Persists(a) && !a.V? ==> a in compare && shown == compare[a])
  {
    hide Get, FrameQuery, FramedPage, Carry, AxisNamed, Name;
    FrameAddress(q, today, a);
    CarriedAxis(FrameQuery(q, today), compare, a);
    if Persists(a) && !a.V? { assert OptionsOn(a, NoPage) == OptionsOn(a, p) && Allows(a, compare[a], NoPage); }
  }

  /** The compare page holds an axis as this page does unless this page has it at its default, which is
      not carried, and storage says something else. */
  lemma CompareHoldsTheAxisIff(p: Page, s: Values, storage: Option<map<string, string>>, a: Axis)
    requires p != NoPage && ValidFor(s, p) && Persists(a) && !a.V?
    ensures var link := Carry(CompareQuery(p, p, s), s);
      var compare := Loaded(NoPage, false, link, storage);
      var kept := Stored(storage, StorageKey(a));
      && a in s && a in compare
      && (compare[a] == s[a] <==>
            s[a] != Default(a) || kept.None? || !Allows(a, kept.value, NoPage) || kept.value == Default(a))
  {
    hide Get, CompareQuery, FramedPage, Carry, AxisNamed, Name, Loaded;
    var link := Carry(CompareQuery(p, p, s), s);
    CompareAddress(p, s, a);
    LoadedValues(NoPage, link, storage);
    assert OptionsOn(a, NoPage).Some? && OptionsOn(a, NoPage) == OptionsOn(a, p);
    InState(p, s, a);
    HoldsIff(link, storage, a, s[a]);
  }

  lemma HoldsIff(q: Query, storage: Option<map<string, string>>, a: Axis, v: string)
    requires Persists(a) && !a.V? && Allows(a, v, NoPage) && Get(q, Name(a)) == if v != Default(a) then Some(v)
        else None
    ensures var kept := Stored(storage, StorageKey(a));
      LoadedValue(NoPage, q, storage, a) == v <==>
        v != Default(a) || kept.None? || !Allows(a, kept.value, NoPage) || kept.value == Default(a)
  {
    hide Get, Name, Allows;
  }
}
