/** The view state of the mockup pages: axes resolved from the address, then storage, then a default;
    written back to both; carried on links and frames; and framed twice by the compare page. */
module AirView {
  import opened Options

  // ---- query strings --------------------------------------------------------------------------------

  /** The pairs of a query string in order, with the meaning URLSearchParams gives them. */
  type Query = seq<(string, string)>

  function Get(q: Query, k: string): Option<string> {
    if q == [] then None else if q[0].0 == k then Some(q[0].1) else Get(q[1..], k)
  }

  function Delete(q: Query, k: string): Query {
    if q == [] then [] else (if q[0].0 == k then [] else [q[0]]) + Delete(q[1..], k)
  }

  /** The first pair of that name takes the value and every other one goes. */
  function Put(q: Query, k: string, v: string): Query {
    if q == [] then [(k, v)] else if q[0].0 == k then [(k, v)] + Delete(q[1..], k) else [q[0]] + Put(q[1..], k, v)
  }

  lemma {:induction false} GetAfterDelete(q: Query, k: string, other: string)
    ensures Get(Delete(q, k), other) == if other == k then None else Get(q, other)
    decreases |q|
  {
    if q != [] {
      GetAfterDelete(q[1..], k, other);
      if q[0].0 == k { assert Delete(q, k) == Delete(q[1..], k); }
      else { assert Delete(q, k)[1..] == Delete(q[1..], k); }
    }
  }

  lemma {:induction false} GetAfterPut(q: Query, k: string, v: string, other: string)
    ensures Get(Put(q, k, v), other) == if other == k then Some(v) else Get(q, other)
    decreases |q|
  {
    if q == [] {
      assert Put(q, k, v)[1..] == [];
    } else {
      GetAfterPut(q[1..], k, v, other);
      GetAfterDelete(q[1..], k, other);
      assert Put(q, k, v)[1..] == if q[0].0 == k then Delete(q[1..], k) else Put(q[1..], k, v);
    }
  }

  // ---- pages and axes -------------------------------------------------------------------------------

  /** `NoPage` is any page of the folder that is not one of the five screens. */
  datatype Page = NoPage | Tasks | Thread | Changes | Settings | Inbox

  datatype Axis = Theme | Accent | Density | Width | V | Table | Cta | Drawer | State | Section

  type Values = map<Axis, string>

  const PERSISTED: seq<Axis> := [Theme, Accent, Density, Width, V]
  /** The keys "Compare at 1280" takes along. */
  const TRAVELS: seq<Axis> := [Section, State, Table, Cta]

  function PageKey(p: Page): string {
    match p
    case NoPage => ""
    case Tasks => "tasks"
    case Thread => "thread"
    case Changes => "changes"
    case Settings => "settings"
    case Inbox => "inbox"
  }

  function PageNamed(key: string): Page {
    if key == "tasks" then Tasks else if key == "thread" then Thread else if key == "changes" then Changes
    else if key == "settings" then Settings else if key == "inbox" then Inbox else NoPage
  }

  function Name(a: Axis): string {
    match a
    case Theme => "theme"
    case Accent => "accent"
    case Density => "density"
    case Width => "width"
    case V => "v"
    case Table => "table"
    case Cta => "cta"
    case Drawer => "drawer"
    case State => "state"
    case Section => "section"
  }

  function AxisNamed(key: string): Option<Axis> {
    if key == "theme" then Some(Theme) else if key == "accent" then Some(Accent)
    else if key == "density" then Some(Density) else if key == "width" then Some(Width)
    else if key == "v" then Some(V) else if key == "table" then Some(Table) else if key == "cta" then Some(Cta)
    else if key == "drawer" then Some(Drawer) else if key == "state" then Some(State)
    else if key == "section" then Some(Section) else None
  }

  lemma NamesAreDistinct(a: Axis)
    ensures AxisNamed(Name(a)) == Some(a) && Name(a) != "page"
  {}

  function Default(a: Axis): string {
    match a
    case Theme => "dark"
    case Accent => "lime"
    case Density => "comfortable"
    case Width => "narrow"
    case V => "air"
    case Table => "a"
    case Cta => "a"
    case Drawer => ""
    case State => ""
    case Section => "agents"
  }

  predicate Persists(a: Axis) { a.Theme? || a.Accent? || a.Density? || a.Width? || a.V? }

  function StorageKey(a: Axis): string
    requires Persists(a)
  {
    match a
    case Theme => "air-mock-theme"
    case Accent => "air-mock-accent"
    case Density => "air-mock-density"
    case Width => "air-mock-width"
    case V => "air-mock-view"
  }

  function StatesOf(p: Page): seq<string> {
    match p
    case Thread => ["loading", "dialog"]
    case Settings => ["error"]
    case Inbox => ["empty", "error"]
    case _ => []
  }

  function SectionsOf(p: Page): seq<string> {
    if p == Settings then ["agents", "appearance", "accounts"] else []
  }

  /** The values a page allows for an axis, or none when the axis does not apply there. */
  function OptionsOn(a: Axis, p: Page): Option<seq<string>> {
    match a
    case Theme => Some(["dark", "light"])
    case Accent => Some(["lime", "violet"])
    case Density => Some(["roomy", "comfortable", "compact", "ultra"])
    case Width => Some(["narrow", "wide"])
    case V => if p == NoPage then None else Some(["today", "air"])
    case Table => if p == Tasks then Some(["a", "b"]) else None
    case Cta => if p == Tasks then Some(["a", "b"]) else None
    case Drawer => if p == Tasks then Some(["", "open"]) else None
    case State => if p in {Thread, Inbox, Settings} then Some([""] + StatesOf(p)) else None
    case Section => if p == Settings then Some(SectionsOf(p)) else None
  }

  predicate Allows(a: Axis, v: string, p: Page) { OptionsOn(a, p).Some? && v in OptionsOn(a, p).value }

  lemma DefaultsAreAllowed(a: Axis, p: Page)
    ensures OptionsOn(a, p).Some? ==> Allows(a, Default(a), p)
  {}

  // ---- resolving ------------------------------------------------------------------------------------

  /** The address names an allowed value. */
  predicate Asked(q: Query, a: Axis, p: Page) { Get(q, Name(a)).Some? && Allows(a, Get(q, Name(a)).value, p) }

  /** What storage gives back: nothing for any key when reading throws. */
  function Stored(storage: Option<map<string, string>>, k: string): Option<string> {
    if storage.Some? && k in storage.value then Some(storage.value[k]) else None
  }

  function Resolve(a: Axis, p: Page, framed: bool, q: Query, storage: Option<map<string, string>>): (v: string)
    requires OptionsOn(a, p).Some?
    ensures Allows(a, v, p)
  {
    DefaultsAreAllowed(a, p);
    if Asked(q, a, p) then Get(q, Name(a)).value
    else
      var kept := if Persists(a) && !framed then Stored(storage, StorageKey(a)) else None;
      if kept.Some? && Allows(a, kept.value, p) then kept.value else Default(a)
  }

  /** Every axis of the page, as the page resolves it while loading. */
  function Loaded(p: Page, framed: bool, q: Query, storage: Option<map<string, string>>): Values {
    map a: Axis | OptionsOn(a, p).Some? :: Resolve(a, p, framed, q, storage)
  }

  ghost predicate ValidFor(s: Values, p: Page) {
    && (forall a :: a in s <==> OptionsOn(a, p).Some?)
    && forall a <- s :: Allows(a, s[a], p)
  }

  lemma LoadedIsValid(p: Page, framed: bool, q: Query, storage: Option<map<string, string>>)
    ensures ValidFor(Loaded(p, framed, q, storage), p)
  {}

  // ---- writing back ---------------------------------------------------------------------------------

  function WithPersisted(q: Query, s: Values, axes: seq<Axis>): Query
    decreases |axes|
  {
    if axes == [] then q
    else WithPersisted(if axes[0] in s then Put(q, Name(axes[0]), s[axes[0]]) else q, s, axes[1..])
  }

  /** The address after axis `a` took its new value. */
  function Remembered(q: Query, s: Values, a: Axis): Query
    requires a in s
  {
    var kept := WithPersisted(q, s, PERSISTED);
    if s[a] == Default(a) && !Persists(a) then Delete(kept, Name(a)) else Put(kept, Name(a), s[a])
  }

  lemma {:induction false} GetPersisted(q: Query, s: Values, axes: seq<Axis>, b: Axis)
    ensures Get(WithPersisted(q, s, axes), Name(b)) == if b in axes && b in s then Some(s[b]) else Get(q, Name(b))
    decreases |axes|
  {
    hide Get, Put;
    if axes != [] {
      var a := axes[0];
      NamesAreDistinct(a);
      NamesAreDistinct(b);
      assert axes == [a] + axes[1..];
      if a in s { GetAfterPut(q, Name(a), s[a], Name(b)); }
      GetPersisted(if a in s then Put(q, Name(a), s[a]) else q, s, axes[1..], b);
    }
  }

  lemma GetRemembered(q: Query, s: Values, a: Axis, b: Axis)
    requires a in s
    ensures Get(Remembered(q, s, a), Name(b)) ==
      if b == a then (if s[a] == Default(a) && !Persists(a) then None else Some(s[a]))
      else if Persists(b) && b in s then Some(s[b])
      else Get(q, Name(b))
  {
    hide Get, Put, Delete, WithPersisted;
    NamesAreDistinct(a);
    NamesAreDistinct(b);
    GetPersisted(q, s, PERSISTED, b);
    var kept := WithPersisted(q, s, PERSISTED);
    GetAfterDelete(kept, Name(a), Name(b));
    GetAfterPut(kept, Name(a), s[a], Name(b));
    assert b in PERSISTED <==> Persists(b);
  }

  /** The address alone tells the value of a page key. */
  predicate Agrees(q: Query, s: Values, p: Page, b: Axis)
    requires OptionsOn(b, p).Some? && b in s
  {
    Resolve(b, p, true, q, None) == s[b]
  }

  ghost predicate PageKeysAgree(q: Query, s: Values, p: Page, but: Option<Axis>)
    requires ValidFor(s, p)
  {
    forall b <- s :: !Persists(b) && but != Some(b) ==> Agrees(q, s, p, b)
  }

  /** After one successful write the address says exactly the state, whatever is in storage, if and only
      if it already told every other page key. */
  lemma AddressTellsIff(p: Page, q: Query, s: Values, a: Axis, storage: Option<map<string, string>>)
    requires ValidFor(s, p) && a in s
    ensures Loaded(p, false, Remembered(q, s, a), storage) == s <==> PageKeysAgree(q, s, p, Some(a))
    ensures PageKeysAgree(q, s, p, Some(a)) ==> PageKeysAgree(Remembered(q, s, a), s, p, None)
  {
    hide Remembered, Get, Resolve, Loaded, Allows, OptionsOn;
    var after := Remembered(q, s, a);
    LoadedIsValid(p, false, after, storage);
    forall b | b in s
      ensures LoadedValue(p, after, storage, b) == s[b] <==> Persists(b) || b == a || Agrees(q, s, p, b)
      ensures !Persists(b) && (b == a || Agrees(q, s, p, b)) ==> Agrees(after, s, p, b)
    {
      OneAxisTold(p, q, s, a, b, storage);
    }
    LoadedValues(p, after, storage);
    var l := Loaded(p, false, after, storage);
    assert l == s <==> forall b <- s :: LoadedValue(p, after, storage, b) == s[b];
  }

  ghost function LoadedValue(p: Page, q: Query, storage: Option<map<string, string>>, b: Axis): string
    requires OptionsOn(b, p).Some?
  {
    Resolve(b, p, false, q, storage)
  }

  lemma LoadedValues(p: Page, q: Query, storage: Option<map<string, string>>)
    ensures var l := Loaded(p, false, q, storage);
      (forall b :: b in l <==> OptionsOn(b, p).Some?) && forall b <- l :: l[b] == LoadedValue(p, q, storage, b)
  {
    hide Resolve, OptionsOn;
  }

  lemma OneAxisTold(p: Page, q: Query, s: Values, a: Axis, b: Axis, storage: Option<map<string, string>>)
    requires ValidFor(s, p) && a in s && b in s
    ensures var after := Remembered(q, s, a);
      && (LoadedValue(p, after, storage, b) == s[b] <==> Persists(b) || b == a || Agrees(q, s, p, b))
      && (!Persists(b) && (b == a || Agrees(q, s, p, b)) ==> Agrees(after, s, p, b))
  {
    hide Remembered, Get, Allows, OptionsOn, Name, StorageKey, Stored, Default;
    GetRemembered(q, s, a, b);
    DefaultsAreAllowed(b, p);
  }

  // ---- a whole page ---------------------------------------------------------------------------------

  datatype View = View(url: Query, storage: map<string, string>, values: Values, urlRefused: bool, storageRefused: bool)

  datatype Ask = Ask(key: string, value: string, urlTakes: bool, storageTakes: bool)

  predicate Accepts(v: View, p: Page, ask: Ask) {
    var a := AxisNamed(ask.key);
    a.Some? && a.value in v.values && Allows(a.value, ask.value, p) && v.values[a.value] != ask.value
  }

  function AfterSet(v: View, p: Page, framed: bool, ask: Ask): View {
    if !Accepts(v, p, ask) then v
    else
      var a := AxisNamed(ask.key).value;
      var s := v.values[a := ask.value];
      if framed then v.(values := s)
      else
        View(if ask.urlTakes then Remembered(v.url, s, a) else v.url,
             if Persists(a) && ask.storageTakes then v.storage[StorageKey(a) := ask.value] else v.storage,
             s, v.urlRefused || !ask.urlTakes, v.storageRefused || (Persists(a) && !ask.storageTakes))
  }

  function AfterSets(v: View, p: Page, framed: bool, asks: seq<Ask>): View
    decreases |asks|
  {
    if asks == [] then v else AfterSets(AfterSet(v, p, framed, asks[0]), p, framed, asks[1..])
  }

  lemma SetKeepsValid(v: View, p: Page, framed: bool, ask: Ask)
    requires ValidFor(v.values, p)
    ensures ValidFor(AfterSet(v, p, framed, ask).values, p)
  {
    hide Allows, OptionsOn, Remembered, AxisNamed;
  }

  /** Every value a page can reach is one it allows. */
  lemma {:induction false} ReachableIsValid(v: View, p: Page, framed: bool, asks: seq<Ask>)
    requires ValidFor(v.values, p)
    ensures ValidFor(AfterSets(v, p, framed, asks).values, p)
    decreases |asks|
  {
    hide ValidFor, AfterSet;
    if asks != [] {
      SetKeepsValid(v, p, framed, asks[0]);
      ReachableIsValid(AfterSet(v, p, framed, asks[0]), p, framed, asks[1..]);
    }
  }

  lemma LoadedPageKeysAgree(p: Page, q: Query, storage: Option<map<string, string>>)
    ensures ValidFor(Loaded(p, false, q, storage), p) && PageKeysAgree(q, Loaded(p, false, q, storage), p, None)
  {
    LoadedIsValid(p, false, q, storage);
  }

  lemma {:induction false} AddressFollows(v: View, p: Page, asks: seq<Ask>, storage: Option<map<string, string>>)
    requires ValidFor(v.values, p) && PageKeysAgree(v.url, v.values, p, None)
    requires forall ask <- asks :: ask.urlTakes
    ensures var w := AfterSets(v, p, false, asks);
      && ValidFor(w.values, p) && PageKeysAgree(w.url, w.values, p, None)
      && (Loaded(p, false, v.url, storage) == v.values || Accepted(v, p, asks) ==>
            Loaded(p, false, w.url, storage) == w.values)
    decreases |asks|
  {
    hide Loaded, AxisNamed, Remembered, Allows, OptionsOn, Agrees;
    if asks != [] {
      assert asks[0] in asks && forall ask <- asks[1..] :: ask in asks;
      var w := AfterSet(v, p, false, asks[0]);
      SetKeepsValid(v, p, false, asks[0]);
      if Accepts(v, p, asks[0]) {
        var a := AxisNamed(asks[0].key).value;
        SameOtherKeys(v.url, v.values, p, a, asks[0].value);
        AddressTellsIff(p, v.url, w.values, a, storage);
      }
      AddressFollows(w, p, asks[1..], storage);
    }
  }

  lemma SameOtherKeys(q: Query, s: Values, p: Page, a: Axis, v: string)
    requires ValidFor(s, p) && a in s && Allows(a, v, p) && PageKeysAgree(q, s, p, None)
    ensures ValidFor(s[a := v], p) && PageKeysAgree(q, s[a := v], p, Some(a))
  {
    hide Allows, OptionsOn, Resolve;
    forall b | b in s && !Persists(b) && b != a ensures Agrees(q, s[a := v], p, b) {
      assert Agrees(q, s, p, b);
    }
  }

  /** Whether some call of the run was accepted. */
  predicate Accepted(v: View, p: Page, asks: seq<Ask>)
    decreases |asks|
  {
    asks != [] && (Accepts(v, p, asks[0]) || Accepted(AfterSet(v, p, false, asks[0]), p, asks[1..]))
  }

  /** From any page that just loaded: after a run with an accepted call, whose address writes went
      through, loading the address again under any storage at all gives exactly the current state. */
  lemma AddressTellsTheState(p: Page, q: Query, before: Option<map<string, string>>, asks: seq<Ask>,
                             kept: map<string, string>, storage: Option<map<string, string>>)
    requires var v := View(q, kept, Loaded(p, false, q, before), false, false);
      (forall ask <- asks :: ask.urlTakes) && Accepted(v, p, asks)
    ensures var v := View(q, kept, Loaded(p, false, q, before), false, false);
      var w := AfterSets(v, p, false, asks);
      Loaded(p, false, w.url, storage) == w.values
  {
    hide Loaded, AfterSets, Accepted, PageKeysAgree;
    LoadedPageKeysAgree(p, q, before);
    AddressFollows(View(q, kept, Loaded(p, false, q, before), false, false), p, asks, storage);
  }

  /** A frame writes neither storage nor the address, and what it loads depends on its address alone. */
  lemma {:induction false} FramesWriteNothing(v: View, p: Page, asks: seq<Ask>)
    ensures var w := AfterSets(v, p, true, asks);
      && w.url == v.url && w.storage == v.storage && w.urlRefused == v.urlRefused
          && w.storageRefused == v.storageRefused
    decreases |asks|
  {
    hide Accepts, AxisNamed;
    if asks != [] { FramesWriteNothing(AfterSet(v, p, true, asks[0]), p, asks[1..]); }
  }

  lemma FramesReadTheirAddress(p: Page, q: Query, a: Option<map<string, string>>, b: Option<map<string, string>>)
    ensures Loaded(p, true, q, a) == Loaded(p, true, q, b)
  {}
}
