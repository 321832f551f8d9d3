/** One loaded page of the mockup, with the fields its script updates in place. */
module AirPage {
  import opened Options
  import opened AirView
  import opened AirLinks

  const AXES: seq<Axis> := [Theme, Accent, Density, Width, V, Table, Cta, Drawer, State, Section]

  lemma EveryAxis(a: Axis)
    ensures a in AXES
  {
    assert AXES[0].Theme? && AXES[1].Accent? && AXES[2].Density? && AXES[3].Width? && AXES[4].V?;
    assert AXES[5].Table? && AXES[6].Cta? && AXES[7].Drawer? && AXES[8].State? && AXES[9].Section?;
  }

  class Air {
    const page: Page
    const framed: bool
    var url: Query
    var storage: map<string, string>
    var values: Values
    var urlRefused: bool
    var storageRefused: bool
    var links: seq<Link>

    ghost function Seen(): View
      reads this
    {
      View(url, storage, values, urlRefused, storageRefused)
    }

    ghost predicate Ok()
      reads this
    {
      ValidFor(values, page)
    }

    /** `readable` says whether storage can be read at all. */
    constructor Load(page: Page, framed: bool, params: Query, storage: map<string, string>, readable: bool,
        links: seq<Link>)
      ensures Ok() && this.page == page && this.framed == framed && this.url == params && this.storage == storage
      ensures values == Loaded(page, framed, params, if readable then Some(storage) else None)
      ensures this.links == links && !urlRefused
      // storage is known to refuse once it was asked for an axis the address leaves open
      ensures storageRefused <==>
        !readable && !framed && exists a :: Persists(a) && OptionsOn(a, page).Some? && !Asked(params, a, page)
    {
      hide Resolve, OptionsOn, Asked, Stored, Persists;
      this.page, this.framed, this.url, this.storage, this.links := page, framed, params, storage, links;
      this.urlRefused := false;
      var kept := if readable then Some(storage) else None;
      var found: Values := map[];
      var asked := false;
      for i := 0 to |AXES|
        invariant forall a :: a in found <==> a in AXES[..i] && OptionsOn(a, page).Some?
        invariant forall a <- found :: found[a] == Resolve(a, page, framed, params, kept)
        invariant asked <==>
          !framed && exists a :: a in AXES[..i] && Persists(a) && OptionsOn(a, page).Some? && !Asked(params, a, page)
      {
        var a := AXES[i];
        assert AXES[..i + 1] == AXES[..i] + [a];
        if OptionsOn(a, page).Some? {
          found := found[a := Resolve(a, page, framed, params, kept)];
          if Persists(a) && !framed && !Asked(params, a, page) { asked := true; }
        }
      }
      forall a: Axis ensures a in AXES { EveryAxis(a); }
      assert AXES[..|AXES|] == AXES;
      LoadedIsValid(page, framed, params, kept);
      this.values := found;
      this.storageRefused := asked && !readable;
    }

    /** Storage first, then the address bar, each on its own. */
    method Remember(a: Axis, urlTakes: bool, storageTakes: bool)
      requires a in values
      modifies this`url, this`storage, this`urlRefused, this`storageRefused
      ensures url == if urlTakes then Remembered(old(url), values, a) else old(url)
      ensures storage == if Persists(a) && storageTakes then old(storage)[StorageKey(a) := values[a]] else old(storage)
      ensures urlRefused == (old(urlRefused) || !urlTakes)
      ensures storageRefused == (old(storageRefused) || (Persists(a) && !storageTakes))
    {
      if Persists(a) {
        if storageTakes { storage := storage[StorageKey(a) := values[a]]; } else { storageRefused := true; }
      }
      var next := url;
      for i := 0 to |PERSISTED|
        invariant WithPersisted(next, values, PERSISTED[i..]) == WithPersisted(url, values, PERSISTED)
      {
        assert PERSISTED[i..][1..] == PERSISTED[i + 1..];
        if PERSISTED[i] in values { next := Put(next, Name(PERSISTED[i]), values[PERSISTED[i]]); }
      }
      next := if values[a] == Default(a) && !Persists(a) then Delete(next, Name(a)) else Put(next, Name(a), values[a]);
      if urlTakes { url := next; } else { urlRefused := true; }
    }

    /** Every link is rebuilt from the address it was authored with. */
    method Sync()
      modifies this`links
      ensures |links| == |old(links)|
      ensures forall i :: 0 <= i < |links| ==> links[i] == Synced(old(links)[i], page, values)
    {
      hide Synced;
      for i := 0 to |links|
        invariant |links| == |old(links)|
        invariant forall j :: 0 <= j < i ==> links[j] == Synced(old(links)[j], page, values)
        invariant forall j :: i <= j < |links| ==> links[j] == old(links)[j]
      {
        links := links[i := Synced(links[i], page, values)];
      }
    }

    method Set(ask: Ask) returns (changed: bool)
      requires Ok()
      modifies this
      ensures Ok() && changed == Accepts(old(Seen()), page, ask)
      ensures Seen() == AfterSet(old(Seen()), page, framed, ask)
      ensures |links| == |old(links)|
      ensures forall i :: 0 <= i < |links| ==>
        links[i] == if changed then Synced(old(links)[i], page, values) else old(links)[i]
    {
      hide Allows, OptionsOn, Remembered, Synced, AxisNamed;
      var axis := AxisNamed(ask.key);
      if axis.None? || axis.value !in values || !Allows(axis.value, ask.value, page) || values[axis.value] == ask.value {
        return false;
      }
      values := values[axis.value := ask.value];
      if !framed { Remember(axis.value, ask.urlTakes, ask.storageTakes); }
      Sync();
      changed := true;
    }
  }
}
