/** What a page takes from its address, what from storage, and what of a choice reaches the next page. */
module AirStores {
  import opened Options
  import opened AirView

  /** Storage holds an allowed value for a persisted axis. */
  predicate Kept(storage: Option<map<string, string>>, a: Axis, p: Page) {
    Persists(a) && storage.Some? && StorageKey(a) in storage.value && Allows(a, storage.value[StorageKey(a)], p)
  }

  /** Of two sources the address comes first; storage counts on a top-level page only; a value that the page
      does not allow counts as none. */
  lemma LoadOrder(p: Page, framed: bool, q: Query, storage: Option<map<string, string>>, a: Axis)
    requires OptionsOn(a, p).Some?
    ensures a in Loaded(p, framed, q, storage)
    ensures var v := Loaded(p, framed, q, storage)[a];
      && (Asked(q, a, p) ==> Get(q, Name(a)) == Some(v))
      && (!Asked(q, a, p) && !framed && Kept(storage, a, p) ==> v == storage.value[StorageKey(a)])
      && (!Asked(q, a, p) && (framed || !Kept(storage, a, p)) ==> v == Default(a))
  {
    hide Get, Name, Allows, OptionsOn;
  }

  // ---- from one page to the next --------------------------------------------------------------------

  /** Some call of the run chose a value for `a` and was accepted. */
  predicate Chosen(v: View, p: Page, asks: seq<Ask>, a: Axis)
    decreases |asks|
  {
    asks != [] && ((AxisNamed(asks[0].key) == Some(a) && Accepts(v, p, asks[0]))
                   || Chosen(AfterSet(v, p, false, asks[0]), p, asks[1..], a))
  }

  ghost predicate StoredAs(v: View, a: Axis)
    requires Persists(a)
  {
    a in v.values && StorageKey(a) in v.storage && v.storage[StorageKey(a)] == v.values[a]
  }

  lemma KeysAreDistinct(a: Axis, b: Axis)
    requires Persists(a) && Persists(b) && a != b
    ensures StorageKey(a) != StorageKey(b)
  {}

  lemma SetStores(v: View, p: Page, ask: Ask, a: Axis)
    requires Persists(a) && (AxisNamed(ask.key) == Some(a) ==> ask.storageTakes)
    ensures (AxisNamed(ask.key) == Some(a) && Accepts(v, p, ask)) || StoredAs(v, a) ==> StoredAs(AfterSet(v, p, false, ask), a)
  {
    hide Allows, Remembered, AxisNamed, StorageKey;
    if Accepts(v, p, ask) && AxisNamed(ask.key) != Some(a) {
      var b := AxisNamed(ask.key).value;
      if Persists(b) { KeysAreDistinct(a, b); }
    }
  }

  lemma {:induction false} RunStores(v: View, p: Page, asks: seq<Ask>, a: Axis)
    requires Persists(a) && forall ask <- asks :: AxisNamed(ask.key) == Some(a) ==> ask.storageTakes
    ensures Chosen(v, p, asks, a) || StoredAs(v, a) ==> StoredAs(AfterSets(v, p, false, asks), a)
    decreases |asks|
  {
    hide Accepts, AxisNamed, StoredAs, AfterSet;
    if asks != [] {
      assert asks[0] in asks && forall ask <- asks[1..] :: ask in asks;
      SetStores(v, p, asks[0], a);
      RunStores(AfterSet(v, p, false, asks[0]), p, asks[1..], a);
    }
  }

  /** After any run in which a persisted axis was chosen, and storage took its choices, every page that has
      the axis and whose address says nothing allowed about it shows the value this page shows. */
  lemma NextPageShowsTheChoice(v: View, p: Page, asks: seq<Ask>, a: Axis, next: Page, q: Query)
    requires ValidFor(v.values, p) && Persists(a) && OptionsOn(a, next).Some? && !Asked(q, a, next)
    requires Chosen(v, p, asks, a) && forall ask <- asks :: AxisNamed(ask.key) == Some(a) ==> ask.storageTakes
    ensures var w := AfterSets(v, p, false, asks);
      var l := Loaded(next, false, q, Some(w.storage));
      a in w.values && a in l && l[a] == w.values[a]
  {
    hide AfterSets, Chosen, AxisNamed, ValidFor, Allows, Asked, Loaded;
    RunStores(v, p, asks, a);
    ReachableIsValid(v, p, false, asks);
    var w := AfterSets(v, p, false, asks);
    assert Allows(a, w.values[a], p) by { ValueIsAllowed(w.values, p, a); }
    AllowedEverywhere(a, w.values[a], p, next);
    LoadOrder(next, false, q, Some(w.storage), a);
  }

  lemma ValueIsAllowed(s: Values, p: Page, a: Axis)
    requires ValidFor(s, p) && a in s
    ensures Allows(a, s[a], p)
  {}

  lemma AllowedEverywhere(a: Axis, v: string, p: Page, next: Page)
    requires Persists(a) && Allows(a, v, p) && OptionsOn(a, next).Some?
    ensures Allows(a, v, next)
  {}

  // ---- the pages as they are opened -----------------------------------------------------------------

  const COMMON: Values := map[Theme := "dark", Accent := "lime", Density := "comfortable", Width := "narrow"]

  /** What each page shows when nothing was ever chosen. */
  function Opened(p: Page): Values {
    match p
    case NoPage => COMMON
    case Tasks => COMMON[V := "air"][Table := "a"][Cta := "a"][Drawer := ""]
    case Settings => COMMON[V := "air"][State := ""][Section := "agents"]
    case Thread => COMMON[V := "air"][State := ""]
    case Inbox => COMMON[V := "air"][State := ""]
    case Changes => COMMON[V := "air"]
  }

  lemma OpenedAxis(p: Page, a: Axis)
    ensures a in Opened(p) <==> OptionsOn(a, p).Some?
    ensures a in Opened(p) ==> Opened(p)[a] == Default(a)
  {}

  lemma FirstVisit(p: Page, framed: bool)
    ensures Loaded(p, framed, [], Some(map[])) == Opened(p)
  {
    hide Loaded, Opened, OptionsOn, Default, Name;
    var l := Loaded(p, framed, [], Some(map[]));
    LoadedIsValid(p, framed, [], Some(map[]));
    forall a: Axis ensures (a in l <==> a in Opened(p)) && (a in l ==> l[a] == Opened(p)[a]) {
      OpenedAxis(p, a);
      if OptionsOn(a, p).Some? { LoadOrder(p, framed, [], Some(map[]), a); }
    }
  }

  /** What it shows when everything was chosen on earlier pages. */
  lemma LaterVisit()
    ensures Loaded(Changes, false, [], Some(map[
        "air-mock-theme" := "light", "air-mock-accent" := "violet", "air-mock-density" := "ultra", "air-mock-width" := "wide",
        "air-mock-view" := "today"])) ==
      map[Theme := "light", Accent := "violet", Density := "ultra", Width := "wide", V := "today"]
  {
    hide Loaded;
    var kept := map["air-mock-theme" := "light", "air-mock-accent" := "violet", "air-mock-density" := "ultra",
                    "air-mock-width" := "wide", "air-mock-view" := "today"];
    LoadedIsValid(Changes, false, [], Some(kept));
    forall a: Axis | OptionsOn(a, Changes).Some? ensures a in Loaded(Changes, false, [], Some(kept)) {
      LoadOrder(Changes, false, [], Some(kept), a);
    }
    LoadOrder(Changes, false, [], Some(kept), Theme);
    LoadOrder(Changes, false, [], Some(kept), Accent);
    LoadOrder(Changes, false, [], Some(kept), Density);
    LoadOrder(Changes, false, [], Some(kept), Width);
    LoadOrder(Changes, false, [], Some(kept), V);
  }

  /** What each page offers for its own keys. */
  lemma PagesOffer(p: Page)
    ensures OptionsOn(State, p) ==
      match p
      case Thread => Some(["", "loading", "dialog"])
      case Settings => Some(["", "error"])
      case Inbox => Some(["", "empty", "error"])
      case _ => None
    ensures OptionsOn(Section, p) == if p == Settings then Some(["agents", "appearance", "accounts"]) else None
    ensures OptionsOn(Table, p) == if p == Tasks then Some(["a", "b"]) else None
    ensures OptionsOn(Cta, p) == OptionsOn(Table, p)
    ensures OptionsOn(Drawer, p) == if p == Tasks then Some(["", "open"]) else None
    ensures OptionsOn(Theme, p) == Some(["dark", "light"]) && OptionsOn(Accent, p) == Some(["lime", "violet"])
    ensures OptionsOn(Density, p) == Some(["roomy", "comfortable", "compact", "ultra"])
    ensures OptionsOn(Width, p) == Some(["narrow", "wide"])
    ensures OptionsOn(V, p) == if p == NoPage then None else Some(["today", "air"])
  {
    assert [""] + StatesOf(Thread) == ["", "loading", "dialog"] && [""] + StatesOf(Settings) == ["", "error"];
    assert [""] + StatesOf(Inbox) == ["", "empty", "error"];
  }
}
