/**
 * The page registry built by one discovery pass (`FindPagesResult`) and its
 * only update, `addPageData`: a conflict-checked registration of a data-module
 * path and/or a static-data value under a data key of a route.
 */
module Registry {
  import opened Wrappers
  import opened Text
  import opened OrderedMaps
  import opened Values

  /** A registration request (`PageData`). */
  datatype PageData = PageData(
    pageId: string,
    key: Option<string>,
    dataPath: Option<string>,
    staticData: Value)

  /** What the registry holds for one route: data-module paths and static data, both by data key. */
  datatype PageEntry = PageEntry(data: OMap<string, string>, staticData: OMap<string, Value>)

  /** `FindPagesResult`: route id to entry, in first-registration order. */
  type Pages = OMap<string, PageEntry>

  datatype AddError =
    | InvalidPageId(pageId: string)
    | DataConflict(key: string)
    | StaticDataConflict(key: string)

  /** The registry after a call, together with the error the call threw, if any. */
  datatype AddOutcome = AddOutcome(pages: Pages, error: Option<AddError>)

  const DefaultKey: string := "main"

  /** The names a plain `{}` inherits from `Object.prototype`; reading any of them yields a truthy value. */
  const ObjectPrototypeKeys: set<string> := {
    "constructor", "__defineGetter__", "__defineSetter__", "hasOwnProperty",
    "__lookupGetter__", "__lookupSetter__", "isPrototypeOf", "propertyIsEnumerable",
    "toString", "valueOf", "__proto__", "toLocaleString"}

  /** `pageData.key ?? 'main'` */
  function KeyOf(req: PageData): string {
    req.key.GetOr(DefaultKey)
  }

  /** `if (pageData.dataPath)`: a present, non-empty path. */
  predicate HasDataPath(req: PageData) {
    req.dataPath.Some? && req.dataPath.value != ""
  }

  /** `if (pageData.staticData)` */
  predicate HasStaticData(req: PageData) {
    Truthy(req.staticData)
  }

  function NewEntry(): PageEntry {
    PageEntry(Empty(), Empty())
  }

  /** `result[pageId]`, or the fresh entry the call would create. */
  function EntryOf(pages: Pages, id: string): PageEntry {
    if id in pages.m then pages.m[id] else NewEntry()
  }

  /**
   * Both maps are well formed, and every stored data path and static-data
   * value is truthy (only truthy values are ever written).
   */
  ghost predicate EntryValid(e: PageEntry) {
    && e.data.Valid() && e.staticData.Valid()
    && (forall k :: k in e.data.m ==> e.data.m[k] != "")
    && (forall k :: k in e.staticData.m ==> Truthy(e.staticData.m[k]))
  }

  ghost predicate PagesValid(p: Pages) {
    p.Valid() && forall id :: id in p.m ==> EntryValid(p.m[id])
  }

  /** `exist.data[key]` is truthy: an own truthy value or, failing an own property, an inherited one. */
  predicate DataTaken(data: OMap<string, string>, key: string, inherited: set<string>) {
    if key in data.m then data.m[key] != "" else key in inherited
  }

  /** `exist.staticData[key]` is truthy. */
  predicate StaticTaken(sd: OMap<string, Value>, key: string, inherited: set<string>) {
    if key in sd.m then Truthy(sd.m[key]) else key in inherited
  }

  /** The route already holds a data path under `key`. */
  predicate DataRegistered(p: Pages, id: string, key: string) {
    id in p.m && DataTaken(p.m[id].data, key, {})
  }

  /** The route already holds static data under `key`. */
  predicate StaticRegistered(p: Pages, id: string, key: string) {
    id in p.m && StaticTaken(p.m[id].staticData, key, {})
  }

  /** Nothing is removed: route order is kept, and every stored value stays. */
  ghost predicate Grows(a: Pages, b: Pages) {
    && |a.keys| <= |b.keys| && b.keys[..|a.keys|] == a.keys
    && forall id :: id in a.m ==>
         id in b.m && Extends(a.m[id].data, b.m[id].data) && Extends(a.m[id].staticData, b.m[id].staticData)
  }

  lemma GrowsTransitive(a: Pages, b: Pages, c: Pages)
    requires Grows(a, b) && Grows(b, c)
    ensures Grows(a, c)
  {
    assert c.keys[..|a.keys|] == c.keys[..|b.keys|][..|a.keys|];
    forall id | id in a.m
      ensures Extends(a.m[id].data, c.m[id].data) && Extends(a.m[id].staticData, c.m[id].staticData)
    {
      ExtendsTransitive(a.m[id].data, b.m[id].data, c.m[id].data);
      ExtendsTransitive(a.m[id].staticData, b.m[id].staticData, c.m[id].staticData);
    }
  }

  /**
   * The part of `addPageData` that works on the route's entry: the data
   * write, then the static-data write, each refused when its key is taken.
   */
  function UpdateEntry(entry: PageEntry, req: PageData, inherited: set<string>): (r: (PageEntry, Option<AddError>))
    requires EntryValid(entry)
    ensures EntryValid(r.0)
    ensures Extends(entry.data, r.0.data) && Extends(entry.staticData, r.0.staticData)
    ensures r.1.None? || r.1 == Some(DataConflict(KeyOf(req))) || r.1 == Some(StaticDataConflict(KeyOf(req)))
    ensures r.1 == Some(DataConflict(KeyOf(req))) <==>
      HasDataPath(req) && DataTaken(entry.data, KeyOf(req), inherited)
    ensures r.1 == Some(StaticDataConflict(KeyOf(req))) <==>
      && HasStaticData(req)
      && !(HasDataPath(req) && DataTaken(entry.data, KeyOf(req), inherited))
      && StaticTaken(entry.staticData, KeyOf(req), inherited)
    ensures (r.1.None? || r.1 == Some(StaticDataConflict(KeyOf(req)))) && HasDataPath(req) ==>
      KeyOf(req) in r.0.data.m && r.0.data.m[KeyOf(req)] == req.dataPath.value
    ensures r.1.None? && HasStaticData(req) ==>
      KeyOf(req) in r.0.staticData.m && r.0.staticData.m[KeyOf(req)] == req.staticData
    ensures !HasDataPath(req) && !HasStaticData(req) ==> r == (entry, None)
    ensures r.1 == Some(DataConflict(KeyOf(req))) ==> r.0 == entry
    // a field without a truthy value writes nothing in its namespace
    ensures !HasDataPath(req) ==> r.0.data == entry.data
    ensures !HasStaticData(req) ==> r.0.staticData == entry.staticData
    // only the request's key can appear
    ensures r.0.data.m.Keys <= entry.data.m.Keys + {KeyOf(req)}
    ensures r.0.staticData.m.Keys <= entry.staticData.m.Keys + {KeyOf(req)}
  {
    var key := KeyOf(req);
    if HasDataPath(req) && DataTaken(entry.data, key, inherited) then (entry, Some(DataConflict(key)))
    else
      var entry1 := if HasDataPath(req) then WriteData(entry, key, req.dataPath.value) else entry;
      if HasStaticData(req) && StaticTaken(entry1.staticData, key, inherited) then
        (entry1, Some(StaticDataConflict(key)))
      else
        var entry2 := if HasStaticData(req) then WriteStatic(entry1, key, req.staticData) else entry1;
        (entry2, None)
  }

  /** `exist.data[key] = dataPath` on a key that is free. */
  function WriteData(entry: PageEntry, key: string, path: string): (r: PageEntry)
    requires EntryValid(entry) && path != "" && key !in entry.data.m
    ensures EntryValid(r) && Extends(entry.data, r.data) && r.staticData == entry.staticData
    ensures key in r.data.m && r.data.m[key] == path
    ensures r.data.m.Keys == entry.data.m.Keys + {key}
  {
    var d := Put(entry.data, key, path);
    assert Extends(entry.data, d) by { PutFreshExtends(entry.data, key, path); }
    assert forall k :: k in d.m ==> d.m[k] != "";
    entry.(data := d)
  }

  /** `exist.staticData[key] = staticData` on a key that is free. */
  function WriteStatic(entry: PageEntry, key: string, v: Value): (r: PageEntry)
    requires EntryValid(entry) && Truthy(v) && key !in entry.staticData.m
    ensures EntryValid(r) && Extends(entry.staticData, r.staticData) && r.data == entry.data
    ensures key in r.staticData.m && r.staticData.m[key] == v
    ensures r.staticData.m.Keys == entry.staticData.m.Keys + {key}
  {
    var st := Put(entry.staticData, key, v);
    assert Extends(entry.staticData, st) by { PutFreshExtends(entry.staticData, key, v); }
    assert forall k :: k in st.m ==> Truthy(st.m[k]) by { PutKeepsTruthy(entry.staticData, key, v); }
    entry.(staticData := st)
  }

  lemma PutKeepsTruthy(o: OMap<string, Value>, key: string, v: Value)
    requires o.Valid() && Truthy(v)
    requires forall k :: k in o.m ==> Truthy(o.m[k])
    ensures forall k :: k in Put(o, key, v).m ==> Truthy(Put(o, key, v).m[k])
  {
  }

  /** Replacing a route's entry by a larger one, or adding a new route, grows the registry. */
  lemma PutEntryGrows(pages: Pages, id: string, e: PageEntry)
    requires PagesValid(pages) && EntryValid(e)
    requires id in pages.m ==> Extends(pages.m[id].data, e.data) && Extends(pages.m[id].staticData, e.staticData)
    ensures PagesValid(Put(pages, id, e)) && Grows(pages, Put(pages, id, e))
    ensures forall x :: x in pages.m && x != id ==> Put(pages, id, e).m[x] == pages.m[x]
    ensures forall x :: x in Put(pages, id, e).m ==> x in pages.m || x == id
    ensures id in Put(pages, id, e).m && Put(pages, id, e).m[id] == e
  {
    PutEntryValid(pages, id, e);
    PutEntryExtends(pages, id, e);
  }

  lemma PutEntryValid(pages: Pages, id: string, e: PageEntry)
    requires PagesValid(pages) && EntryValid(e)
    ensures PagesValid(Put(pages, id, e))
  {
    var q := Put(pages, id, e);
    forall x | x in q.m ensures EntryValid(q.m[x]) {
      if x != id { assert q.m[x] == pages.m[x]; }
    }
  }

  lemma PutEntryExtends(pages: Pages, id: string, e: PageEntry)
    requires PagesValid(pages)
    requires id in pages.m ==> Extends(pages.m[id].data, e.data) && Extends(pages.m[id].staticData, e.staticData)
    ensures Grows(pages, Put(pages, id, e))
  {
    var q := Put(pages, id, e);
    assert q.keys[..|pages.keys|] == pages.keys;
    forall x | x in pages.m
      ensures x in q.m && Extends(pages.m[x].data, q.m[x].data) && Extends(pages.m[x].staticData, q.m[x].staticData)
    {
      if x != id {
        assert q.m[x] == pages.m[x];
        ExtendsReflexive(pages.m[x].data);
        ExtendsReflexive(pages.m[x].staticData);
      }
    }
  }

  /**
   * The body of `addPageData`, parameterised by the set of names a lookup
   * finds on the prototype of the `data`/`staticData` objects.
   */
  function Register(pages: Pages, req: PageData, inherited: set<string>): (r: AddOutcome)
    requires PagesValid(pages)
    ensures PagesValid(r.pages)
    ensures Grows(pages, r.pages)
    ensures !StartsWith(req.pageId, "/") ==> r == AddOutcome(pages, Some(InvalidPageId(req.pageId)))
    ensures StartsWith(req.pageId, "/") ==>
      && req.pageId in r.pages.m
      && r.pages.keys == (if req.pageId in pages.m then pages.keys else pages.keys + [req.pageId])
      && var u := UpdateEntry(EntryOf(pages, req.pageId), req, inherited);
         r.pages.m[req.pageId] == u.0 && r.error == u.1
    ensures forall id :: id in pages.m && id != req.pageId ==> r.pages.m[id] == pages.m[id]
    ensures forall id :: id in r.pages.m ==> id in pages.m || id == req.pageId
  {
    if !StartsWith(req.pageId, "/") then AddOutcome(pages, Some(InvalidPageId(req.pageId)))
    else
      var id := req.pageId;
      var u := UpdateEntry(EntryOf(pages, id), req, inherited);
      PutEntryGrows(pages, id, u.0);
      AddOutcome(Put(pages, id, u.0), u.1)
  }

  /**
   * `addPageData`, with the key lookup treating `data` and `staticData` as
   * maps without a prototype (see AddPageDataAsWritten for the lookup as the
   * code performs it).
   */
  function AddPageData(pages: Pages, req: PageData): (r: AddOutcome)
    requires PagesValid(pages)
    ensures PagesValid(r.pages)
    ensures Grows(pages, r.pages)
    // an id without a leading slash is refused and changes nothing
    ensures r.error == Some(InvalidPageId(req.pageId)) <==> !StartsWith(req.pageId, "/")
    ensures !StartsWith(req.pageId, "/") ==> r.pages == pages
    // otherwise the route exists afterwards, appended if it is new, even when the call fails
    ensures StartsWith(req.pageId, "/") ==>
      && req.pageId in r.pages.m
      && r.pages.keys == (if req.pageId in pages.m then pages.keys else pages.keys + [req.pageId])
    // no other route changes
    ensures forall id :: id in pages.m && id != req.pageId ==> r.pages.m[id] == pages.m[id]
    ensures forall id :: id in r.pages.m ==> id in pages.m || id == req.pageId
    // the two conflicts, each in its own namespace
    ensures r.error == Some(DataConflict(KeyOf(req))) <==>
      StartsWith(req.pageId, "/") && HasDataPath(req) && DataRegistered(pages, req.pageId, KeyOf(req))
    ensures r.error == Some(StaticDataConflict(KeyOf(req))) <==>
      && StartsWith(req.pageId, "/") && HasStaticData(req)
      && !(HasDataPath(req) && DataRegistered(pages, req.pageId, KeyOf(req)))
      && StaticRegistered(pages, req.pageId, KeyOf(req))
    // no other error is thrown, and a data conflict leaves the route's entry as it was
    ensures || r.error.None? || r.error == Some(InvalidPageId(req.pageId))
            || r.error == Some(DataConflict(KeyOf(req))) || r.error == Some(StaticDataConflict(KeyOf(req)))
    ensures r.error == Some(DataConflict(KeyOf(req))) ==>
      req.pageId in r.pages.m && r.pages.m[req.pageId] == EntryOf(pages, req.pageId)
    // a successful call stores each truthy field under the key
    ensures r.error.None? ==> StartsWith(req.pageId, "/")
    ensures r.error.None? && HasDataPath(req) ==>
      && req.pageId in r.pages.m && KeyOf(req) in r.pages.m[req.pageId].data.m
      && r.pages.m[req.pageId].data.m[KeyOf(req)] == req.dataPath.value
    ensures r.error.None? && HasStaticData(req) ==>
      && req.pageId in r.pages.m && KeyOf(req) in r.pages.m[req.pageId].staticData.m
      && r.pages.m[req.pageId].staticData.m[KeyOf(req)] == req.staticData
    // a field without a truthy value writes nothing in its namespace
    ensures StartsWith(req.pageId, "/") && !HasDataPath(req) ==>
      r.pages.m[req.pageId].data == EntryOf(pages, req.pageId).data
    ensures StartsWith(req.pageId, "/") && !HasStaticData(req) ==>
      r.pages.m[req.pageId].staticData == EntryOf(pages, req.pageId).staticData
    // no other key of the route changes
    ensures StartsWith(req.pageId, "/") ==>
      && r.pages.m[req.pageId].data.m.Keys <= EntryOf(pages, req.pageId).data.m.Keys + {KeyOf(req)}
      && r.pages.m[req.pageId].staticData.m.Keys <= EntryOf(pages, req.pageId).staticData.m.Keys + {KeyOf(req)}
  {
    var r := Register(pages, req, {});
    assert DataRegistered(pages, req.pageId, KeyOf(req)) <==>
      DataTaken(EntryOf(pages, req.pageId).data, KeyOf(req), {});
    assert StaticRegistered(pages, req.pageId, KeyOf(req)) <==>
      StaticTaken(EntryOf(pages, req.pageId).staticData, KeyOf(req), {});
    r
  }

  /** `addPageData` exactly as the code runs it: lookups on `{}` also see `Object.prototype`. */
  function AddPageDataAsWritten(pages: Pages, req: PageData): (r: AddOutcome)
    requires PagesValid(pages)
    ensures PagesValid(r.pages) && Grows(pages, r.pages)
    ensures !StartsWith(req.pageId, "/") ==> r == AddOutcome(pages, Some(InvalidPageId(req.pageId)))
    // a call that succeeds does what the corrected call does
    ensures r.error.None? ==> r == AddPageData(pages, req)
    // every request the corrected call refuses is refused here too
    ensures AddPageData(pages, req).error.Some? ==> r.error.Some?
    ensures KeyOf(req) !in ObjectPrototypeKeys ==> r == AddPageData(pages, req)
    ensures StartsWith(req.pageId, "/") && HasDataPath(req) && KeyOf(req) in ObjectPrototypeKeys
              && !(req.pageId in pages.m && KeyOf(req) in pages.m[req.pageId].data.m) ==>
              r.error == Some(DataConflict(KeyOf(req)))
  {
    UpdateIgnoresOtherInherited(EntryOf(pages, req.pageId), req, ObjectPrototypeKeys);
    UpdateInheritedRefusesMore(EntryOf(pages, req.pageId), req, ObjectPrototypeKeys);
    Register(pages, req, ObjectPrototypeKeys)
  }

  /**
   * Inherited names only make more keys look taken: an update that succeeds
   * with them is the update without them, and one that fails without them
   * fails with them.
   */
  lemma UpdateInheritedRefusesMore(entry: PageEntry, req: PageData, inherited: set<string>)
    requires EntryValid(entry)
    ensures UpdateEntry(entry, req, inherited).1.None? ==> UpdateEntry(entry, req, inherited) == UpdateEntry(entry, req, {})
    ensures UpdateEntry(entry, req, {}).1.Some? ==> UpdateEntry(entry, req, inherited).1.Some?
  {
    var key := KeyOf(req);
    assert DataTaken(entry.data, key, {}) ==> DataTaken(entry.data, key, inherited);
    forall d: OMap<string, Value> | true
      ensures StaticTaken(d, key, {}) ==> StaticTaken(d, key, inherited)
    {
    }
  }

  /** Inherited names other than the request's key do not change the update. */
  lemma UpdateIgnoresOtherInherited(entry: PageEntry, req: PageData, inherited: set<string>)
    requires EntryValid(entry)
    ensures KeyOf(req) !in inherited ==> UpdateEntry(entry, req, inherited) == UpdateEntry(entry, req, {})
  {
    var key := KeyOf(req);
    if key !in inherited {
      assert DataTaken(entry.data, key, inherited) == DataTaken(entry.data, key, {});
      forall d: OMap<string, Value> | true
        ensures StaticTaken(d, key, inherited) == StaticTaken(d, key, {})
      {
      }
    }
  }

  /**
   * The lookup as written refuses the data key `constructor` on a brand-new
   * route, which the corrected registration accepts.
   */
  lemma AsWrittenRefusesConstructorKey()
    ensures var req := PageData("/", Some("constructor"), Some("./index.js"), Undefined);
      && AddPageDataAsWritten(Empty(), req).error == Some(DataConflict("constructor"))
      && AddPageData(Empty(), req).error == None
  {
    var req := PageData("/", Some("constructor"), Some("./index.js"), Undefined);
    assert StartsWith(req.pageId, "/");
    assert KeyOf(req) == "constructor" && HasDataPath(req) && !HasStaticData(req);
    ConstructorInherited();
  }

  lemma ConstructorInherited()
    ensures "constructor" in ObjectPrototypeKeys
  {
  }

  /** Under the stored-values-are-truthy invariant, a key is taken exactly when it is present. */
  lemma TakenIffPresent(p: Pages, id: string, key: string)
    requires PagesValid(p)
    ensures DataRegistered(p, id, key) <==> id in p.m && key in p.m[id].data.m
    ensures StaticRegistered(p, id, key) <==> id in p.m && key in p.m[id].staticData.m
  {
  }

  /**
   * Registration is not atomic: a data path stored by a call whose static
   * data then conflicts stays in the registry after the error.
   */
  lemma DataWriteSurvivesStaticConflict(pages: Pages, req: PageData)
    requires PagesValid(pages)
    requires StartsWith(req.pageId, "/") && HasDataPath(req) && HasStaticData(req)
    requires !DataRegistered(pages, req.pageId, KeyOf(req))
    requires StaticRegistered(pages, req.pageId, KeyOf(req))
    ensures AddPageData(pages, req).error == Some(StaticDataConflict(KeyOf(req)))
    ensures AddPageData(pages, req).pages.m[req.pageId].data.m[KeyOf(req)] == req.dataPath.value
  {
  }

  /** A request for a new route carrying neither field still creates the route, with empty maps. */
  lemma EmptyRequestCreatesEntry(pages: Pages, req: PageData)
    requires PagesValid(pages)
    requires StartsWith(req.pageId, "/") && req.pageId !in pages.m
    requires !HasDataPath(req) && !HasStaticData(req)
    ensures AddPageData(pages, req) == AddOutcome(Put(pages, req.pageId, NewEntry()), None)
    ensures AddPageData(pages, req).pages.keys == pages.keys + [req.pageId]
  {
  }

  /** A data path and static data under one fresh key are both accepted by a single call. */
  lemma BothFieldsUnderOneKey(pages: Pages, req: PageData)
    requires PagesValid(pages)
    requires StartsWith(req.pageId, "/") && HasDataPath(req) && HasStaticData(req)
    requires !DataRegistered(pages, req.pageId, KeyOf(req))
    requires !StaticRegistered(pages, req.pageId, KeyOf(req))
    ensures AddPageData(pages, req).error == None
    ensures var e := AddPageData(pages, req).pages.m[req.pageId];
      e.data.m[KeyOf(req)] == req.dataPath.value && e.staticData.m[KeyOf(req)] == req.staticData
  {
  }

  /** Registering the same key of the same route twice always conflicts, in either namespace. */
  lemma SameKeyTwiceConflicts(pages: Pages, first: PageData, second: PageData)
    requires PagesValid(pages)
    requires first.pageId == second.pageId && KeyOf(first) == KeyOf(second)
    requires AddPageData(pages, first).error == None
    ensures HasDataPath(first) && HasDataPath(second) ==>
      AddPageData(AddPageData(pages, first).pages, second).error == Some(DataConflict(KeyOf(second)))
    ensures var p1 := AddPageData(pages, first).pages;
      HasStaticData(first) && HasStaticData(second) ==>
        AddPageData(p1, second).error ==
          if HasDataPath(second) && DataRegistered(p1, second.pageId, KeyOf(second))
          then Some(DataConflict(KeyOf(second)))
          else Some(StaticDataConflict(KeyOf(second)))
  {
  }

  /** Registering two distinct keys of one route never conflicts when neither was taken before. */
  lemma DistinctKeysNeverConflict(pages: Pages, first: PageData, second: PageData)
    requires PagesValid(pages)
    requires StartsWith(first.pageId, "/") && first.pageId == second.pageId
    requires KeyOf(first) != KeyOf(second)
    requires !DataRegistered(pages, first.pageId, KeyOf(first))
    requires !StaticRegistered(pages, first.pageId, KeyOf(first))
    requires !DataRegistered(pages, second.pageId, KeyOf(second))
    requires !StaticRegistered(pages, second.pageId, KeyOf(second))
    ensures AddPageData(pages, first).error == None
    ensures AddPageData(AddPageData(pages, first).pages, second).error == None
  {
    var id := first.pageId;
    var p1 := AddPageData(pages, first).pages;
    TakenIffPresent(pages, id, KeyOf(second));
    TakenIffPresent(p1, id, KeyOf(second));
    assert !DataRegistered(p1, id, KeyOf(second));
    assert !StaticRegistered(p1, id, KeyOf(second));
  }
}
