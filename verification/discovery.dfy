/**
 * One discovery pass: the helpers handed to a page-finding strategy (cached
 * file reads, static-data extraction) and `collectPagesData`, which runs
 * either a custom strategy or the default one and folds the pages through
 * `addPageData`.
 *
 * A strategy is represented by the registrations it performs, in order; the
 * file system by a map from path to content; the front-matter and docblock
 * parsers by functions passed in.
 */
module Discovery {
  import opened Wrappers
  import opened Text
  import opened OrderedMaps
  import opened Values
  import opened Paths
  import opened Registry

  // ---------------------------------------------------------------------
  // Collecting pages

  /** `findPages`: a custom strategy (given as its registrations) or none. */
  datatype FindPages = Custom(registrations: seq<PageData>) | UseDefault

  /**
   * One `addPageData` call of a pass, with the key lookup as the code
   * performs it: the grown registry, or the error that aborts the pass.
   */
  function Step(pages: Pages, req: PageData): (r: Result<Pages, AddError>)
    requires PagesValid(pages)
    ensures r.Ok? ==> PagesValid(r.value) && Grows(pages, r.value)
  {
    var o := AddPageDataAsWritten(pages, req);
    if o.error.Some? then Err(o.error.value) else Ok(o.pages)
  }

  /** A successful step is the corrected registration, which succeeded too. */
  lemma StepAgrees(pages: Pages, req: PageData)
    requires PagesValid(pages) && Step(pages, req).Ok?
    ensures AddPageData(pages, req).error.None?
    ensures Step(pages, req).value == AddPageData(pages, req).pages
  {
    var o := AddPageDataAsWritten(pages, req);
    assert o == AddPageData(pages, req);
  }

  /** A successful step appends the route when it is new and keeps the order otherwise. */
  lemma StepKeys(pages: Pages, req: PageData)
    requires PagesValid(pages) && Step(pages, req).Ok?
    ensures Step(pages, req).value.keys ==
      (if req.pageId in pages.keys then pages.keys else pages.keys + [req.pageId])
  {
    StepAgrees(pages, req);
    var o := AddPageData(pages, req);
    assert pages.Valid();
  }

  /** A successful step stores what it was given under the request's key. */
  lemma StepStores(pages: Pages, req: PageData)
    requires PagesValid(pages) && Step(pages, req).Ok?
    ensures var p := Step(pages, req).value;
      && req.pageId in p.m
      && (HasDataPath(req) ==>
            KeyOf(req) in p.m[req.pageId].data.m && p.m[req.pageId].data.m[KeyOf(req)] == req.dataPath.value)
      && (HasStaticData(req) ==>
            KeyOf(req) in p.m[req.pageId].staticData.m && p.m[req.pageId].staticData.m[KeyOf(req)] == req.staticData)
  {
    StepAgrees(pages, req);
    var o := AddPageData(pages, req);
  }

  /** A successful step found its data key free, and leaves it taken. */
  lemma StepTakesDataKey(pages: Pages, req: PageData)
    requires PagesValid(pages) && Step(pages, req).Ok? && HasDataPath(req)
    ensures !DataRegistered(pages, req.pageId, KeyOf(req))
    ensures DataRegistered(Step(pages, req).value, req.pageId, KeyOf(req))
  {
    StepAgrees(pages, req);
    var o := AddPageData(pages, req);
  }

  /** A step with an id that does not start with `/` fails with `InvalidPageId` for that id. */
  lemma StepFailsOnInvalidId(pages: Pages, req: PageData)
    requires PagesValid(pages) && !StartsWith(req.pageId, "/")
    ensures Step(pages, req) == Err(InvalidPageId(req.pageId))
  {
    var o := AddPageDataAsWritten(pages, req);
  }

  /** Once a data key is taken, growing the registry keeps it taken. */
  lemma GrowsKeepsDataRegistered(a: Pages, b: Pages, id: string, key: string)
    requires PagesValid(a) && PagesValid(b) && Grows(a, b)
    requires DataRegistered(a, id, key)
    ensures DataRegistered(b, id, key)
  {
    assert id in a.m && EntryValid(b.m[id]);
    assert Extends(a.m[id].data, b.m[id].data);
  }

  /** `addPageData` applied to each request in turn; the first error aborts the pass. */
  function AddAll(pages: Pages, reqs: seq<PageData>): (r: Result<Pages, AddError>)
    requires PagesValid(pages)
    ensures r.Ok? ==> PagesValid(r.value) && Grows(pages, r.value)
    decreases |reqs|
  {
    if |reqs| == 0 then Ok(pages)
    else
      match Step(pages, reqs[0])
      case Err(e) => Err(e)
      case Ok(next) =>
        var rest := AddAll(next, reqs[1..]);
        if rest.Ok? then GrowsTransitive(pages, next, rest.value); rest else rest
  }

  function PageIds(reqs: seq<PageData>): (r: seq<string>)
    ensures |r| == |reqs| && forall i :: 0 <= i < |reqs| ==> r[i] == reqs[i].pageId
  {
    seq(|reqs|, i requires 0 <= i < |reqs| => reqs[i].pageId)
  }

  /** `keys` followed by each id of `ids` not seen before, in order of first appearance. */
  function AppendNew(keys: seq<string>, ids: seq<string>): seq<string>
    decreases |ids|
  {
    if |ids| == 0 then keys
    else AppendNew(if ids[0] in keys then keys else keys + [ids[0]], ids[1..])
  }

  /** `AppendNew` over the ids of a request sequence, one request at a time. */
  lemma AppendNewIdsCons(keys: seq<string>, reqs: seq<PageData>)
    requires |reqs| > 0
    ensures AppendNew(keys, PageIds(reqs)) ==
      AppendNew(if reqs[0].pageId in keys then keys else keys + [reqs[0].pageId], PageIds(reqs[1..]))
  {
    assert PageIds(reqs)[1..] == PageIds(reqs[1..]);
  }

  /** The routes of a successful pass are the registered ids, in order of first registration. */
  lemma {:induction false} AddAllRouteOrder(pages: Pages, reqs: seq<PageData>)
    requires PagesValid(pages)
    requires AddAll(pages, reqs).Ok?
    ensures AddAll(pages, reqs).value.keys == AppendNew(pages.keys, PageIds(reqs))
    decreases |reqs|
  {
    if |reqs| > 0 {
      var next := Step(pages, reqs[0]).value;
      StepKeys(pages, reqs[0]);
      AddAllRouteOrder(next, reqs[1..]);
      AppendNewIdsCons(pages.keys, reqs);
    }
  }

  /** A successful pass starts with a successful step and continues from its result. */
  lemma AddAllUnfold(pages: Pages, reqs: seq<PageData>)
    requires PagesValid(pages) && |reqs| > 0 && AddAll(pages, reqs).Ok?
    ensures Step(pages, reqs[0]).Ok?
    ensures AddAll(pages, reqs) == AddAll(Step(pages, reqs[0]).value, reqs[1..])
  {
  }

  /*
   * The shifts below move an index of `reqs` to the same request in
   * `reqs[1..]`. They are kept apart from the pass lemmas so that those
   * proofs need no arithmetic next to the registry's definitions.
   */

  lemma ShiftOne(reqs: seq<PageData>, i: nat) returns (rest: seq<PageData>, a: nat)
    requires 0 < i < |reqs|
    ensures rest == reqs[1..] && |rest| < |reqs| && a < |rest| && rest[a] == reqs[i]
  {
    rest, a := reqs[1..], i - 1;
  }

  lemma ShiftPair(reqs: seq<PageData>, i: nat, j: nat) returns (rest: seq<PageData>, a: nat, b: nat)
    requires 0 < i < j < |reqs|
    ensures rest == reqs[1..] && |rest| < |reqs| && a < b < |rest| && rest[a] == reqs[i] && rest[b] == reqs[j]
  {
    rest, a, b := reqs[1..], i - 1, j - 1;
  }

  /** The registration `req` holds in `p`: its data path and static data under its key. */
  ghost predicate Holds(p: Pages, req: PageData) {
    && req.pageId in p.m
    && (HasDataPath(req) ==>
          KeyOf(req) in p.m[req.pageId].data.m && p.m[req.pageId].data.m[KeyOf(req)] == req.dataPath.value)
    && (HasStaticData(req) ==>
          KeyOf(req) in p.m[req.pageId].staticData.m && p.m[req.pageId].staticData.m[KeyOf(req)] == req.staticData)
  }

  /** Growing the registry keeps every registration that held. */
  lemma GrowsKeepsHolds(a: Pages, b: Pages, req: PageData)
    requires Grows(a, b) && Holds(a, req)
    ensures Holds(b, req)
  {
    assert Extends(a.m[req.pageId].data, b.m[req.pageId].data);
    assert Extends(a.m[req.pageId].staticData, b.m[req.pageId].staticData);
  }

  /** A successful pass keeps every data path and static-data value it was given. */
  lemma {:induction false} AddAllKeepsEveryRegistration(pages: Pages, reqs: seq<PageData>, i: nat)
    requires PagesValid(pages)
    requires AddAll(pages, reqs).Ok? && i < |reqs|
    ensures Holds(AddAll(pages, reqs).value, reqs[i])
    decreases |reqs|
  {
    AddAllUnfold(pages, reqs);
    var next := Step(pages, reqs[0]).value;
    if i == 0 {
      StepStores(pages, reqs[0]);
      GrowsKeepsHolds(next, AddAll(next, reqs[1..]).value, reqs[0]);
    } else {
      var rest, a := ShiftOne(reqs, i);
      AddAllKeepsEveryRegistration(next, rest, a);
    }
  }

  /** A request that succeeds in a pass found its data key free when the pass started. */
  lemma {:induction false} AddAllFoundKeysFree(pages: Pages, reqs: seq<PageData>, i: nat)
    requires PagesValid(pages)
    requires AddAll(pages, reqs).Ok? && i < |reqs| && HasDataPath(reqs[i])
    ensures !DataRegistered(pages, reqs[i].pageId, KeyOf(reqs[i]))
    decreases |reqs|
  {
    AddAllUnfold(pages, reqs);
    var next := Step(pages, reqs[0]).value;
    if i == 0 {
      StepTakesDataKey(pages, reqs[0]);
    } else {
      var rest, a := ShiftOne(reqs, i);
      AddAllFoundKeysFree(next, rest, a);
      if DataRegistered(pages, reqs[i].pageId, KeyOf(reqs[i])) {
        GrowsKeepsDataRegistered(pages, next, reqs[i].pageId, KeyOf(reqs[i]));
      }
    }
  }

  /** Same route, same data key, both with a data path. */
  predicate SameDataSlot(a: PageData, b: PageData) {
    a.pageId == b.pageId && KeyOf(a) == KeyOf(b) && HasDataPath(a) && HasDataPath(b)
  }

  /** In a successful pass, no two requests put a data path under the same key of the same route. */
  lemma {:induction false} AddAllDataKeysDistinct(pages: Pages, reqs: seq<PageData>, i: nat, j: nat)
    requires PagesValid(pages)
    requires AddAll(pages, reqs).Ok? && i < j < |reqs|
    ensures !SameDataSlot(reqs[i], reqs[j])
    decreases |reqs|
  {
    AddAllUnfold(pages, reqs);
    var next := Step(pages, reqs[0]).value;
    if i == 0 {
      var rest, b := ShiftOne(reqs, j);
      if SameDataSlot(reqs[0], reqs[j]) {
        StepTakesDataKey(pages, reqs[0]);
        AddAllFoundKeysFree(next, rest, b);
      }
    } else {
      var rest, a, b := ShiftPair(reqs, i, j);
      AddAllDataKeysDistinct(next, rest, a, b);
    }
  }

  /** A pass that registers the same data key of the same route twice fails. */
  lemma AddAllRejectsDuplicateData(pages: Pages, reqs: seq<PageData>, i: nat, j: nat)
    requires PagesValid(pages)
    requires i < j < |reqs|
    requires reqs[i].pageId == reqs[j].pageId && KeyOf(reqs[i]) == KeyOf(reqs[j])
    requires HasDataPath(reqs[i]) && HasDataPath(reqs[j])
    ensures AddAll(pages, reqs).Err?
  {
    if AddAll(pages, reqs).Ok? {
      AddAllDataKeysDistinct(pages, reqs, i, j);
      assert SameDataSlot(reqs[i], reqs[j]);
    }
  }

  /** Once a static-data key is taken, growing the registry keeps it taken. */
  lemma GrowsKeepsStaticRegistered(a: Pages, b: Pages, id: string, key: string)
    requires PagesValid(a) && PagesValid(b) && Grows(a, b)
    requires StaticRegistered(a, id, key)
    ensures StaticRegistered(b, id, key)
  {
    assert id in a.m && EntryValid(b.m[id]);
    assert Extends(a.m[id].staticData, b.m[id].staticData);
  }

  /** A successful step with static data found its key free, and leaves it taken. */
  lemma StepTakesStaticKey(pages: Pages, req: PageData)
    requires PagesValid(pages) && Step(pages, req).Ok? && HasStaticData(req)
    ensures !StaticRegistered(pages, req.pageId, KeyOf(req))
    ensures StaticRegistered(Step(pages, req).value, req.pageId, KeyOf(req))
  {
    StepAgrees(pages, req);
    var o := AddPageData(pages, req);
  }

  /** A request with static data that succeeds in a pass found its key free when the pass started. */
  lemma {:induction false} AddAllFoundStaticKeysFree(pages: Pages, reqs: seq<PageData>, i: nat)
    requires PagesValid(pages)
    requires AddAll(pages, reqs).Ok? && i < |reqs| && HasStaticData(reqs[i])
    ensures !StaticRegistered(pages, reqs[i].pageId, KeyOf(reqs[i]))
    decreases |reqs|
  {
    AddAllUnfold(pages, reqs);
    var next := Step(pages, reqs[0]).value;
    if i == 0 {
      StepTakesStaticKey(pages, reqs[0]);
    } else {
      var rest, a := ShiftOne(reqs, i);
      AddAllFoundStaticKeysFree(next, rest, a);
      if StaticRegistered(pages, reqs[i].pageId, KeyOf(reqs[i])) {
        GrowsKeepsStaticRegistered(pages, next, reqs[i].pageId, KeyOf(reqs[i]));
      }
    }
  }

  /** Same route, same key, both with static data. */
  predicate SameStaticSlot(a: PageData, b: PageData) {
    a.pageId == b.pageId && KeyOf(a) == KeyOf(b) && HasStaticData(a) && HasStaticData(b)
  }

  /** In a successful pass, no two requests put static data under the same key of the same route. */
  lemma {:induction false} AddAllStaticKeysDistinct(pages: Pages, reqs: seq<PageData>, i: nat, j: nat)
    requires PagesValid(pages)
    requires AddAll(pages, reqs).Ok? && i < j < |reqs|
    ensures !SameStaticSlot(reqs[i], reqs[j])
    decreases |reqs|
  {
    AddAllUnfold(pages, reqs);
    var next := Step(pages, reqs[0]).value;
    if i == 0 {
      var rest, b := ShiftOne(reqs, j);
      if SameStaticSlot(reqs[0], reqs[j]) {
        StepTakesStaticKey(pages, reqs[0]);
        AddAllFoundStaticKeysFree(next, rest, b);
      }
    } else {
      var rest, a, b := ShiftPair(reqs, i, j);
      AddAllStaticKeysDistinct(next, rest, a, b);
    }
  }

  /** A pass that registers static data under the same key of the same route twice fails. */
  lemma AddAllRejectsDuplicateStatic(pages: Pages, reqs: seq<PageData>, i: nat, j: nat)
    requires PagesValid(pages)
    requires i < j < |reqs|
    requires reqs[i].pageId == reqs[j].pageId && KeyOf(reqs[i]) == KeyOf(reqs[j])
    requires HasStaticData(reqs[i]) && HasStaticData(reqs[j])
    ensures AddAll(pages, reqs).Err?
  {
    if AddAll(pages, reqs).Ok? {
      AddAllStaticKeysDistinct(pages, reqs, i, j);
      assert SameStaticSlot(reqs[i], reqs[j]);
    }
  }

  /** `req` registers the data path `v` under key `k` of route `id`. */
  predicate DataGiven(req: PageData, id: string, k: string, v: string) {
    req.pageId == id && KeyOf(req) == k && HasDataPath(req) && req.dataPath.value == v
  }

  /** `req` registers the static data `v` under key `k` of route `id`. */
  predicate StaticGiven(req: PageData, id: string, k: string, v: Value) {
    req.pageId == id && KeyOf(req) == k && HasStaticData(req) && req.staticData == v
  }

  lemma DataGivenShift(reqs: seq<PageData>, j: nat, id: string, k: string, v: string)
    requires 0 < |reqs| && j < |reqs[1..]| && DataGiven(reqs[1..][j], id, k, v)
    ensures j + 1 < |reqs| && DataGiven(reqs[j + 1], id, k, v)
  {
  }

  lemma StaticGivenShift(reqs: seq<PageData>, j: nat, id: string, k: string, v: Value)
    requires 0 < |reqs| && j < |reqs[1..]| && StaticGiven(reqs[1..][j], id, k, v)
    ensures j + 1 < |reqs| && StaticGiven(reqs[j + 1], id, k, v)
  {
  }

  /** A data path a successful step leaves in the registry was there before, or is the request's own. */
  lemma StepDataOrigin(pages: Pages, req: PageData, id: string, k: string)
    requires PagesValid(pages) && Step(pages, req).Ok?
    requires id in Step(pages, req).value.m && k in Step(pages, req).value.m[id].data.m
    ensures var v := Step(pages, req).value.m[id].data.m[k];
      || (id in pages.m && k in pages.m[id].data.m && pages.m[id].data.m[k] == v)
      || DataGiven(req, id, k, v)
  {
    StepAgrees(pages, req);
    var after := AddPageData(pages, req).pages;
    var v := after.m[id].data.m[k];
    if id != req.pageId {
      assert id in pages.m && after.m[id] == pages.m[id];
    } else if k == KeyOf(req) && HasDataPath(req) {
      assert v == req.dataPath.value;
      assert DataGiven(req, id, k, v);
    } else {
      // the key was already there: a new entry starts empty, and only `KeyOf(req)` can be added
      assert k in EntryOf(pages, id).data.m;
      assert id in pages.m;
      assert Extends(pages.m[id].data, after.m[id].data);
    }
  }

  /** Static data a successful step leaves in the registry was there before, or is the request's own. */
  lemma StepStaticOrigin(pages: Pages, req: PageData, id: string, k: string)
    requires PagesValid(pages) && Step(pages, req).Ok?
    requires id in Step(pages, req).value.m && k in Step(pages, req).value.m[id].staticData.m
    ensures var v := Step(pages, req).value.m[id].staticData.m[k];
      || (id in pages.m && k in pages.m[id].staticData.m && pages.m[id].staticData.m[k] == v)
      || StaticGiven(req, id, k, v)
  {
    StepAgrees(pages, req);
    var after := AddPageData(pages, req).pages;
    var v := after.m[id].staticData.m[k];
    if id != req.pageId {
      assert id in pages.m && after.m[id] == pages.m[id];
    } else if k == KeyOf(req) && HasStaticData(req) {
      assert v == req.staticData;
      assert StaticGiven(req, id, k, v);
    } else {
      // the key was already there: a new entry starts empty, and only `KeyOf(req)` can be added
      assert k in EntryOf(pages, id).staticData.m;
      assert id in pages.m;
      assert Extends(pages.m[id].staticData, after.m[id].staticData);
    }
  }

  /** One step back in `AddAllDataOrigin`: from an origin within `reqs[1..]`, or the first step's, to one within `reqs`. */
  lemma DataOriginStep(pages: Pages, reqs: seq<PageData>, id: string, k: string, v: string, later: Option<nat>)
    returns (origin: Option<nat>)
    requires |reqs| > 0
    requires later.None? ==>
      || (id in pages.m && k in pages.m[id].data.m && pages.m[id].data.m[k] == v)
      || DataGiven(reqs[0], id, k, v)
    requires later.Some? ==> later.value < |reqs[1..]| && DataGiven(reqs[1..][later.value], id, k, v)
    ensures origin.None? ==> id in pages.m && k in pages.m[id].data.m && pages.m[id].data.m[k] == v
    ensures origin.Some? ==> origin.value < |reqs| && DataGiven(reqs[origin.value], id, k, v)
  {
    if later.Some? {
      var j := later.value;
      DataGivenShift(reqs, j, id, k, v);
      origin := Some(j + 1);
    } else if id in pages.m && k in pages.m[id].data.m && pages.m[id].data.m[k] == v {
      origin := None;
    } else {
      origin := Some(0);
    }
  }

  /**
   * A data path a successful pass leaves in the registry was there before
   * the pass (`origin` is `None`) or was given by the request `origin` names.
   */
  lemma {:induction false} AddAllDataOrigin(pages: Pages, reqs: seq<PageData>, id: string, k: string)
    returns (origin: Option<nat>)
    requires PagesValid(pages) && AddAll(pages, reqs).Ok?
    requires id in AddAll(pages, reqs).value.m && k in AddAll(pages, reqs).value.m[id].data.m
    ensures var v := AddAll(pages, reqs).value.m[id].data.m[k];
      && (origin.None? ==> id in pages.m && k in pages.m[id].data.m && pages.m[id].data.m[k] == v)
      && (origin.Some? ==> origin.value < |reqs| && DataGiven(reqs[origin.value], id, k, v))
    decreases |reqs|
  {
    if |reqs| == 0 {
      origin := None;
    } else {
      AddAllUnfold(pages, reqs);
      var next := Step(pages, reqs[0]).value;
      var v := AddAll(pages, reqs).value.m[id].data.m[k];
      assert v == AddAll(next, reqs[1..]).value.m[id].data.m[k];
      var later := AddAllDataOrigin(next, reqs[1..], id, k);
      if later.None? {
        StepDataOrigin(pages, reqs[0], id, k);
      }
      origin := DataOriginStep(pages, reqs, id, k, v, later);
    }
  }

  /** One step back in `AddAllStaticOrigin`: from an origin within `reqs[1..]`, or the first step's, to one within `reqs`. */
  lemma StaticOriginStep(pages: Pages, reqs: seq<PageData>, id: string, k: string, v: Value, later: Option<nat>)
    returns (origin: Option<nat>)
    requires |reqs| > 0
    requires later.None? ==>
      || (id in pages.m && k in pages.m[id].staticData.m && pages.m[id].staticData.m[k] == v)
      || StaticGiven(reqs[0], id, k, v)
    requires later.Some? ==> later.value < |reqs[1..]| && StaticGiven(reqs[1..][later.value], id, k, v)
    ensures origin.None? ==> id in pages.m && k in pages.m[id].staticData.m && pages.m[id].staticData.m[k] == v
    ensures origin.Some? ==> origin.value < |reqs| && StaticGiven(reqs[origin.value], id, k, v)
  {
    if later.Some? {
      var j := later.value;
      StaticGivenShift(reqs, j, id, k, v);
      origin := Some(j + 1);
    } else if id in pages.m && k in pages.m[id].staticData.m && pages.m[id].staticData.m[k] == v {
      origin := None;
    } else {
      origin := Some(0);
    }
  }

  /**
   * Static data a successful pass leaves in the registry was there before
   * the pass (`origin` is `None`) or was given by the request `origin` names.
   */
  lemma {:induction false} AddAllStaticOrigin(pages: Pages, reqs: seq<PageData>, id: string, k: string)
    returns (origin: Option<nat>)
    requires PagesValid(pages) && AddAll(pages, reqs).Ok?
    requires id in AddAll(pages, reqs).value.m && k in AddAll(pages, reqs).value.m[id].staticData.m
    ensures var v := AddAll(pages, reqs).value.m[id].staticData.m[k];
      && (origin.None? ==> id in pages.m && k in pages.m[id].staticData.m && pages.m[id].staticData.m[k] == v)
      && (origin.Some? ==> origin.value < |reqs| && StaticGiven(reqs[origin.value], id, k, v))
    decreases |reqs|
  {
    if |reqs| == 0 {
      origin := None;
    } else {
      AddAllUnfold(pages, reqs);
      var next := Step(pages, reqs[0]).value;
      var v := AddAll(pages, reqs).value.m[id].staticData.m[k];
      assert v == AddAll(next, reqs[1..]).value.m[id].staticData.m[k];
      var later := AddAllStaticOrigin(next, reqs[1..], id, k);
      if later.None? {
        StepStaticOrigin(pages, reqs[0], id, k);
      }
      origin := StaticOriginStep(pages, reqs, id, k, v, later);
    }
  }

  /** The stored data path under key `k` of route `id` was there before the pass or came from a request. */
  lemma AddAllDataFrom(pages: Pages, reqs: seq<PageData>, id: string, k: string)
    requires PagesValid(pages) && AddAll(pages, reqs).Ok?
    requires id in AddAll(pages, reqs).value.m && k in AddAll(pages, reqs).value.m[id].data.m
    ensures var v := AddAll(pages, reqs).value.m[id].data.m[k];
      || (id in pages.m && k in pages.m[id].data.m && pages.m[id].data.m[k] == v)
      || exists i :: 0 <= i < |reqs| && DataGiven(reqs[i], id, k, v)
  {
    var v := AddAll(pages, reqs).value.m[id].data.m[k];
    var origin := AddAllDataOrigin(pages, reqs, id, k);
    if origin.Some? {
      assert DataGiven(reqs[origin.value], id, k, v);
    }
  }

  /** The stored static data under key `k` of route `id` was there before the pass or came from a request. */
  lemma AddAllStaticFrom(pages: Pages, reqs: seq<PageData>, id: string, k: string)
    requires PagesValid(pages) && AddAll(pages, reqs).Ok?
    requires id in AddAll(pages, reqs).value.m && k in AddAll(pages, reqs).value.m[id].staticData.m
    ensures var v := AddAll(pages, reqs).value.m[id].staticData.m[k];
      || (id in pages.m && k in pages.m[id].staticData.m && pages.m[id].staticData.m[k] == v)
      || exists i :: 0 <= i < |reqs| && StaticGiven(reqs[i], id, k, v)
  {
    var v := AddAll(pages, reqs).value.m[id].staticData.m[k];
    var origin := AddAllStaticOrigin(pages, reqs, id, k);
    if origin.Some? {
      assert StaticGiven(reqs[origin.value], id, k, v);
    }
  }

  /** A pass stores nothing but what was there before and what its requests gave. */
  lemma AddAllStoresOnlyRequests(pages: Pages, reqs: seq<PageData>)
    requires PagesValid(pages) && AddAll(pages, reqs).Ok?
    ensures var after := AddAll(pages, reqs).value;
      forall id, k :: id in after.m && k in after.m[id].data.m ==>
        || (id in pages.m && k in pages.m[id].data.m && pages.m[id].data.m[k] == after.m[id].data.m[k])
        || exists i :: 0 <= i < |reqs| && DataGiven(reqs[i], id, k, after.m[id].data.m[k])
    ensures var after := AddAll(pages, reqs).value;
      forall id, k :: id in after.m && k in after.m[id].staticData.m ==>
        || (id in pages.m && k in pages.m[id].staticData.m && pages.m[id].staticData.m[k] == after.m[id].staticData.m[k])
        || exists i :: 0 <= i < |reqs| && StaticGiven(reqs[i], id, k, after.m[id].staticData.m[k])
  {
    forall id, k | id in AddAll(pages, reqs).value.m && k in AddAll(pages, reqs).value.m[id].data.m {
      AddAllDataFrom(pages, reqs, id, k);
    }
    forall id, k | id in AddAll(pages, reqs).value.m && k in AddAll(pages, reqs).value.m[id].staticData.m {
      AddAllStaticFrom(pages, reqs, id, k);
    }
  }

  /**
   * A failed pass failed at one request: every request before it succeeded,
   * and the pass reports that request's error.
   */
  lemma {:induction false} AddAllFirstError(pages: Pages, reqs: seq<PageData>) returns (k: nat)
    requires PagesValid(pages)
    requires AddAll(pages, reqs).Err?
    ensures k < |reqs| && AddAll(pages, reqs[..k]).Ok?
    ensures Step(AddAll(pages, reqs[..k]).value, reqs[k]) == Err(AddAll(pages, reqs).error)
    decreases |reqs|
  {
    var first := Step(pages, reqs[0]);
    if first.Err? {
      k := 0;
      FailsAtHead(pages, reqs);
    } else {
      var k' := AddAllFirstError(first.value, reqs[1..]);
      k := k' + 1;
      FailsLater(pages, reqs, first.value, k');
    }
  }

  lemma FailsAtHead(pages: Pages, reqs: seq<PageData>)
    requires PagesValid(pages) && |reqs| > 0 && Step(pages, reqs[0]).Err?
    ensures AddAll(pages, reqs[..0]) == Ok(pages)
    ensures AddAll(pages, reqs) == Err(Step(pages, reqs[0]).error)
  {
    assert reqs[..0] == [];
  }

  /** The whole pass and each prefix of it past the first request run on from that request's result. */
  lemma FailsLater(pages: Pages, reqs: seq<PageData>, next: Pages, k: nat)
    requires PagesValid(pages) && |reqs| > 0 && Step(pages, reqs[0]) == Ok(next)
    requires k < |reqs| - 1
    ensures AddAll(pages, reqs) == AddAll(next, reqs[1..])
    ensures AddAll(pages, reqs[..k + 1]) == AddAll(next, reqs[1..][..k])
    ensures reqs[k + 1] == reqs[1..][k]
  {
    PrefixTail(reqs, k);
    AddAllCons(pages, reqs);
    AddAllCons(pages, reqs[..k + 1]);
  }

  /** The first request of a pass decides whether the rest runs. */
  lemma AddAllCons(pages: Pages, reqs: seq<PageData>)
    requires PagesValid(pages) && |reqs| > 0
    ensures Step(pages, reqs[0]).Err? ==> AddAll(pages, reqs) == Err(Step(pages, reqs[0]).error)
    ensures Step(pages, reqs[0]).Ok? ==> AddAll(pages, reqs) == AddAll(Step(pages, reqs[0]).value, reqs[1..])
  {
  }

  lemma PrefixTail(reqs: seq<PageData>, k: nat)
    requires k < |reqs|
    ensures |reqs[..k + 1]| > 0 && reqs[..k + 1][0] == reqs[0] && reqs[..k + 1][1..] == reqs[1..][..k]
  {
  }

  /** A pass containing an id without a leading slash fails. */
  lemma {:induction false} AddAllRejectsInvalidId(pages: Pages, reqs: seq<PageData>, i: nat)
    requires PagesValid(pages)
    requires i < |reqs| && !StartsWith(reqs[i].pageId, "/")
    ensures AddAll(pages, reqs).Err?
    decreases |reqs|
  {
    AddAllCons(pages, reqs);
    if i == 0 {
      StepFailsOnInvalidId(pages, reqs[0]);
    } else if Step(pages, reqs[0]).Ok? {
      var rest, a := ShiftOne(reqs, i);
      AddAllRejectsInvalidId(Step(pages, reqs[0]).value, rest, a);
    }
  }

  /**
   * `collectPagesData`: a custom strategy's registrations alone, or else
   * every page the default strategy found, through `addPageData` in order.
   */
  function CollectPagesData(findPages: FindPages, defaultFound: seq<PageData>): (r: Result<Pages, AddError>)
    ensures r.Ok? ==> PagesValid(r.value)
    // with a custom strategy the routes are exactly those it registered
    ensures findPages.Custom? && r.Ok? ==>
      r.value.keys == AppendNew([], PageIds(findPages.registrations))
    // otherwise they are exactly those the default strategy found
    ensures findPages.UseDefault? && r.Ok? ==> r.value.keys == AppendNew([], PageIds(defaultFound))
    ensures findPages.Custom? ==> r == AddAll(Empty(), findPages.registrations)
    ensures findPages.UseDefault? ==> r == AddAll(Empty(), defaultFound)
  {
    var reqs := PassRequests(findPages, defaultFound);
    var r := AddAll(Empty(), reqs);
    if r.Ok? then AddAllRouteOrder(Empty(), reqs); r else r
  }

  /** The requests a pass runs: the custom strategy's registrations, or what the default strategy found. */
  function PassRequests(findPages: FindPages, defaultFound: seq<PageData>): seq<PageData> {
    if findPages.Custom? then findPages.registrations else defaultFound
  }

  /**
   * A successful pass holds exactly its requests: every request's data
   * path and static data are stored under its route and key, and every
   * stored value was given by some request under that route and key.
   */
  lemma CollectPagesDataExactly(findPages: FindPages, defaultFound: seq<PageData>)
    requires CollectPagesData(findPages, defaultFound).Ok?
    ensures var reqs, r := PassRequests(findPages, defaultFound), CollectPagesData(findPages, defaultFound).value;
      forall i :: 0 <= i < |reqs| ==> Holds(r, reqs[i])
    ensures var reqs, r := PassRequests(findPages, defaultFound), CollectPagesData(findPages, defaultFound).value;
      forall id, k :: id in r.m && k in r.m[id].data.m ==>
        exists i :: 0 <= i < |reqs| && DataGiven(reqs[i], id, k, r.m[id].data.m[k])
    ensures var reqs, r := PassRequests(findPages, defaultFound), CollectPagesData(findPages, defaultFound).value;
      forall id, k :: id in r.m && k in r.m[id].staticData.m ==>
        exists i :: 0 <= i < |reqs| && StaticGiven(reqs[i], id, k, r.m[id].staticData.m[k])
  {
    var reqs := PassRequests(findPages, defaultFound);
    assert CollectPagesData(findPages, defaultFound) == AddAll(Empty(), reqs);
    forall i | 0 <= i < |reqs| {
      AddAllKeepsEveryRegistration(Empty(), reqs, i);
    }
    AddAllStoresOnlyRequests(Empty(), reqs);
  }

  /**
   * The pass runs the lookup as written: a custom strategy registering a
   * data path under the key `constructor` of a new route fails.
   */
  lemma PassRefusesConstructorKey()
    ensures var req := PageData("/", Some("constructor"), Some("./index.js"), Undefined);
      CollectPagesData(Custom([req]), []) == Err(DataConflict("constructor"))
  {
    AsWrittenRefusesConstructorKey();
  }

  // ---------------------------------------------------------------------
  // Cached reads

  datatype HelperError = ReadFailed(path: string) | UnexpectedExtension(ext: string)

  /** `fs.readFile(filePath, 'utf-8')` against a fixed file system. */
  function ReadFile(disk: map<string, string>, path: string): Result<string, HelperError> {
    if path in disk then Ok(disk[path]) else Err(ReadFailed(path))
  }

  /** The per-pass cache of read results, with a count of the underlying reads performed. */
  datatype ReadCache = ReadCache(entries: map<string, Result<string, HelperError>>, readCount: nat)

  /** Every cached result is what the file system holds, and one read happened per cached path. */
  ghost predicate CacheSound(disk: map<string, string>, c: ReadCache) {
    && (forall p :: p in c.entries ==> c.entries[p] == ReadFile(disk, p))
    && c.readCount == |c.entries|
  }

  const EmptyCache: ReadCache := ReadCache(map[], 0)

  /** `readFileWithCache`: the first request for a path reads it, later ones reuse the result. */
  function ReadFileWithCache(disk: map<string, string>, c: ReadCache, path: string)
    : (r: (Result<string, HelperError>, ReadCache))
    ensures CacheSound(disk, c) ==> CacheSound(disk, r.1) && r.0 == ReadFile(disk, path)
    ensures r.1.entries.Keys == c.entries.Keys + {path}
    ensures r.1.readCount == c.readCount + (if path in c.entries then 0 else 1)
    ensures path in c.entries ==> r == (c.entries[path], c)
  {
    if path in c.entries then (c.entries[path], c)
    else
      var v := ReadFile(disk, path);
      assert |c.entries[path := v]| == |c.entries| + 1;
      (v, ReadCache(c.entries[path := v], c.readCount + 1))
  }

  /** Reading several paths in turn through the cache. */
  function ReadAll(disk: map<string, string>, c: ReadCache, paths: seq<string>)
    : (r: (seq<Result<string, HelperError>>, ReadCache))
    ensures |r.0| == |paths|
    decreases |paths|
  {
    if |paths| == 0 then ([], c)
    else
      var first := ReadFileWithCache(disk, c, paths[0]);
      var rest := ReadAll(disk, first.1, paths[1..]);
      ([first.0] + rest.0, rest.1)
  }

  /** The distinct paths of a sequence of requests. */
  function PathSet(paths: seq<string>): (r: set<string>)
    ensures forall p :: p in r <==> p in paths
  {
    if |paths| == 0 then {} else {paths[0]} + PathSet(paths[1..])
  }

  /** Reading through a sound cache keeps it sound and caches exactly the requested paths. */
  lemma ReadAllCaches(disk: map<string, string>, c: ReadCache, paths: seq<string>)
    requires CacheSound(disk, c)
    ensures var r := ReadAll(disk, c, paths);
      && CacheSound(disk, r.1)
      && r.1.entries.Keys == c.entries.Keys + PathSet(paths)
  {
    ReadAllSound(disk, c, paths);
    ReadAllKeys(disk, c, paths);
  }

  lemma {:induction false} ReadAllSound(disk: map<string, string>, c: ReadCache, paths: seq<string>)
    requires CacheSound(disk, c)
    ensures CacheSound(disk, ReadAll(disk, c, paths).1)
    decreases |paths|
  {
    if |paths| > 0 {
      var first := ReadFileWithCache(disk, c, paths[0]);
      assert ReadAll(disk, c, paths).1 == ReadAll(disk, first.1, paths[1..]).1 by {
        ReadAllStep(disk, c, paths);
      }
      ReadAllSound(disk, first.1, paths[1..]);
    }
  }

  lemma {:induction false} ReadAllKeys(disk: map<string, string>, c: ReadCache, paths: seq<string>)
    ensures ReadAll(disk, c, paths).1.entries.Keys == c.entries.Keys + PathSet(paths)
    decreases |paths|
  {
    if |paths| > 0 {
      var first := ReadFileWithCache(disk, c, paths[0]);
      var rest := ReadAll(disk, first.1, paths[1..]);
      assert ReadAll(disk, c, paths).1 == rest.1 by {
        ReadAllStep(disk, c, paths);
      }
      var k0, k1, ks := c.entries.Keys, {paths[0]}, PathSet(paths[1..]);
      assert rest.1.entries.Keys == (k0 + k1) + ks by {
        ReadAllKeys(disk, first.1, paths[1..]);
      }
      assert PathSet(paths) == k1 + ks by {
        PathSetCons(paths);
      }
      assert (k0 + k1) + ks == k0 + (k1 + ks);
    }
  }

  lemma ReadAllStep(disk: map<string, string>, c: ReadCache, paths: seq<string>)
    requires |paths| > 0
    ensures var first := ReadFileWithCache(disk, c, paths[0]);
      var rest := ReadAll(disk, first.1, paths[1..]);
      ReadAll(disk, c, paths) == ([first.0] + rest.0, rest.1)
  {
  }

  lemma PathSetCons(paths: seq<string>)
    requires |paths| > 0
    ensures PathSet(paths) == {paths[0]} + PathSet(paths[1..])
  {
  }

  /** Every request of a read sequence sees the file's content, cached or not. */
  lemma {:induction false} ReadAllResults(disk: map<string, string>, c: ReadCache, paths: seq<string>, i: nat)
    requires CacheSound(disk, c) && i < |paths|
    ensures ReadAll(disk, c, paths).0[i] == ReadFile(disk, paths[i])
    decreases |paths|
  {
    if i == 0 {
      ReadAllFirst(disk, c, paths);
    } else {
      var next := ReadFileWithCache(disk, c, paths[0]).1;
      ReadAllShift(disk, c, paths, i);
      ReadAllResults(disk, next, paths[1..], i - 1);
    }
  }

  lemma ReadAllFirst(disk: map<string, string>, c: ReadCache, paths: seq<string>)
    requires CacheSound(disk, c) && |paths| > 0
    ensures ReadAll(disk, c, paths).0[0] == ReadFile(disk, paths[0])
  {
  }

  lemma ReadAllShift(disk: map<string, string>, c: ReadCache, paths: seq<string>, i: nat)
    requires 0 < i < |paths|
    ensures ReadAll(disk, c, paths).0[i] == ReadAll(disk, ReadFileWithCache(disk, c, paths[0]).1, paths[1..]).0[i - 1]
  {
  }

  /**
   * However often each path is requested, a fresh pass performs one
   * underlying read per distinct path.
   */
  lemma ReadCountIsDistinctPaths(disk: map<string, string>, paths: seq<string>)
    ensures ReadAll(disk, EmptyCache, paths).1.readCount == |PathSet(paths)|
  {
    ReadAllCaches(disk, EmptyCache, paths);
    assert EmptyCache.entries.Keys + PathSet(paths) == PathSet(paths);
  }

  // ---------------------------------------------------------------------
  // Static data

  /** The opaque parsers: gray-matter's front matter, and jest-docblock's `extract` and `parse`. */
  datatype Parsers = Parsers(
    frontMatter: string -> Record,
    docblockExtract: string -> string,
    docblockParse: string -> Record)

  predicate IsMarkdownExt(ext: string) {
    ext == "md" || ext == "mdx"
  }

  predicate IsScriptExt(ext: string) {
    ext == "js" || ext == "jsx" || ext == "ts" || ext == "tsx"
  }

  /** `extractStaticData`: parse by extension, then stamp `sourceType`. */
  function ExtractStaticData(content: string, ext: string, parsers: Parsers): (r: Result<Record, HelperError>)
    ensures r.Ok? <==> IsMarkdownExt(ext) || IsScriptExt(ext)
    ensures r.Err? ==> r.error == UnexpectedExtension(ext)
    ensures r.Ok? ==>
      var parsed := if IsMarkdownExt(ext) then parsers.frontMatter(content)
                    else parsers.docblockParse(parsers.docblockExtract(content));
      && Get(r.value, "sourceType") == Some(Str(if IsMarkdownExt(ext) then "md" else "js"))
      // every other parsed field is kept, in its place
      && (forall k :: k in parsed.m && k != "sourceType" ==> k in r.value.m && r.value.m[k] == parsed.m[k])
      && r.value.m.Keys == parsed.m.Keys + {"sourceType"}
      && r.value.keys == (if "sourceType" in parsed.m then parsed.keys else parsed.keys + ["sourceType"])
  {
    if IsMarkdownExt(ext) then
      Ok(Stamp(parsers.frontMatter(content), "md"))
    else if IsScriptExt(ext) then
      Ok(Stamp(parsers.docblockParse(parsers.docblockExtract(content)), "js"))
    else
      Err(UnexpectedExtension(ext))
  }

  /** `sourceType` set on a parsed record; every other field stays where it was. */
  function Stamp(parsed: Record, kind: string): (r: Record)
    ensures Get(r, "sourceType") == Some(Str(kind))
    ensures forall k :: k in parsed.m && k != "sourceType" ==> k in r.m && r.m[k] == parsed.m[k]
    ensures r.m.Keys == parsed.m.Keys + {"sourceType"}
    ensures r.keys == (if "sourceType" in parsed.m then parsed.keys else parsed.keys + ["sourceType"])
  {
    Put(parsed, "sourceType", Str(kind))
  }

  /**
   * `extractStaticDataWithCache`: a cached read of the file, then extraction
   * by the extension of its path. The file is read even when its extension
   * is then refused.
   */
  function ExtractStaticDataWithCache(disk: map<string, string>, c: ReadCache, path: string, parsers: Parsers)
    : (r: (Result<Record, HelperError>, ReadCache))
    ensures r.1 == ReadFileWithCache(disk, c, path).1
    ensures CacheSound(disk, c) ==>
      r.0 == (if path in disk then ExtractStaticData(disk[path], ExtOf(path), parsers)
              else Err(ReadFailed(path)))
  {
    var read := ReadFileWithCache(disk, c, path);
    match read.0
    case Err(e) => (Err(e), read.1)
    case Ok(content) => (ExtractStaticData(content, ExtOf(path), parsers), read.1)
  }

  /**
   * A page file's `sourceType` follows from its file name alone: "md" for
   * `.md`/`.mdx`, "js" for `.js`/`.jsx`/`.ts`/`.tsx`; any other extension is
   * refused, after the file has been read.
   */
  lemma StaticDataSourceTypeByFileName(disk: map<string, string>, c: ReadCache, dir: string, stem: string, ext: string, parsers: Parsers)
    requires CacheSound(disk, c)
    requires dir == "" || dir[|dir| - 1] == '/'
    requires |stem| > 0 && '/' !in stem && '.' !in ext && '/' !in ext
    requires dir + stem + "." + ext in disk
    ensures var r := ExtractStaticDataWithCache(disk, c, dir + stem + "." + ext, parsers).0;
      && (r.Ok? <==> IsMarkdownExt(ext) || IsScriptExt(ext))
      && (r.Ok? ==> Get(r.value, "sourceType") == Some(Str(if IsMarkdownExt(ext) then "md" else "js")))
      && (r.Err? ==> r.error == UnexpectedExtension(ext))
  {
    ExtOfFileName(dir, stem, ext);
  }
}
