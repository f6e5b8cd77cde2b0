/**
 * The plan and addon cache of the billing integration
 * (organisations/chargebee/cache.py).
 *
 * The provider's listing endpoint is a function from a list request to the
 * page it answers. Because nothing bounds how many pages a provider may
 * chain, every listing carries a `fuel` bound on the number of requests and
 * yields `None` when the bound is reached before a page without a next
 * offset arrives. The cache backend is the single cache entry
 * `chargebee_items`, absent or holding the plan and addon maps.
 */
module ItemCache {
  import opened Wrappers
  import opened Metadata

  /** `ChargebeeItem.PLAN` or `ChargebeeItem.ADDON`. */
  datatype ItemKind = PlanItem | AddonItem

  /** A listed plan or addon: its id and its `meta_data`, `None` when absent or null. */
  datatype Item = Item(id: string, metaData: Option<MetaDict>)

  /** One page of a listing: its entries and `next_offset`. */
  datatype Page = Page(entries: seq<Item>, nextOffset: Option<string>)

  /** `ListParams(limit=…, offset=…)` sent to the listing endpoint of `kind`. */
  datatype ListRequest = ListRequest(kind: ItemKind, limit: int, offset: Option<string>)

  /** The page size every listing request asks for. */
  const PageLimit: int := 100

  /** The listing endpoints: the page the provider answers to each request. */
  type Provider = ListRequest -> Page

  /** The entries a listing produced, in order, and the requests it issued. */
  datatype Listing = Listing(entries: seq<Item>, requests: seq<ListRequest>)

  /** `next_offset` is truthy: present and not the empty string. */
  predicate HasNext(p: Page) {
    p.nextOffset.Some? && p.nextOffset.value != ""
  }

  /**
   * `get_item_generator` from `offset` on: request a page, emit its entries,
   * and continue from its `next_offset` while that is truthy.
   */
  function ListFrom(provider: Provider, kind: ItemKind, offset: Option<string>, fuel: nat): (r: Option<Listing>)
    ensures r.Some? ==> 1 <= |r.value.requests| <= fuel
    ensures r.Some? ==> r.value.requests[0] == ListRequest(kind, PageLimit, offset)
    decreases fuel
  {
    if fuel == 0 then None
    else
      var request := ListRequest(kind, PageLimit, offset);
      var page := provider(request);
      if HasNext(page) then
        match ListFrom(provider, kind, page.nextOffset, fuel - 1)
        case None => None
        case Some(rest) => Some(Listing(page.entries + rest.entries, [request] + rest.requests))
      else
        Some(Listing(page.entries, [request]))
  }

  /** The whole listing of `kind`: the first request carries no offset. */
  function ListItems(provider: Provider, kind: ItemKind, fuel: nat): Option<Listing> {
    ListFrom(provider, kind, None, fuel)
  }

  /**
   * `pages` are the pages a listing starting at `offset` receives, in
   * order: the first answers `offset`, each later one answers its
   * predecessor's `next_offset`, every page but the last has a truthy one,
   * and the last has none.
   */
  ghost predicate IsRun(provider: Provider, kind: ItemKind, offset: Option<string>, pages: seq<Page>) {
    && |pages| > 0
    && pages[0] == provider(ListRequest(kind, PageLimit, offset))
    && (forall i :: 0 <= i < |pages| - 1 ==> HasNext(pages[i]))
    && (forall i :: 0 < i < |pages| ==> pages[i] == provider(ListRequest(kind, PageLimit, pages[i - 1].nextOffset)))
    && !HasNext(pages[|pages| - 1])
  }

  /** The entries of the pages, concatenated in order. */
  function Concat(pages: seq<Page>): seq<Item>
    decreases |pages|
  {
    if |pages| == 0 then [] else pages[0].entries + Concat(pages[1..])
  }

  /** The request that fetched each page of a run starting at `offset`. */
  function RunRequests(kind: ItemKind, offset: Option<string>, pages: seq<Page>): seq<ListRequest> {
    seq(|pages|, i requires 0 <= i < |pages| => ListRequest(kind, PageLimit, if i == 0 then offset else pages[i - 1].nextOffset))
  }

  /** The rest of a run after its first page is a run from that page's offset. */
  lemma RunTail(provider: Provider, kind: ItemKind, offset: Option<string>, pages: seq<Page>)
    requires IsRun(provider, kind, offset, pages)
    requires HasNext(pages[0])
    ensures |pages| > 1
    ensures IsRun(provider, kind, pages[0].nextOffset, pages[1..])
  {
    var tail := pages[1..];
    assert |pages| > 1;
    forall i | 0 < i < |tail|
      ensures tail[i] == provider(ListRequest(kind, PageLimit, tail[i - 1].nextOffset))
    {
      assert tail[i] == pages[i + 1] && tail[i - 1] == pages[i];
    }
    forall i | 0 <= i < |tail| - 1
      ensures HasNext(tail[i])
    {
      assert tail[i] == pages[i + 1];
    }
  }

  /**
   * Given enough fuel, a listing over a run returns every entry of every
   * page, in order, after one request per page: the first with the
   * starting offset, each later one with the previous page's `next_offset`.
   */
  lemma {:induction false} ListingOfRun(provider: Provider, kind: ItemKind, offset: Option<string>, pages: seq<Page>, fuel: nat)
    requires IsRun(provider, kind, offset, pages)
    requires |pages| <= fuel
    ensures ListFrom(provider, kind, offset, fuel) == Some(Listing(Concat(pages), RunRequests(kind, offset, pages)))
    decreases |pages|
  {
    var request := ListRequest(kind, PageLimit, offset);
    if HasNext(pages[0]) {
      RunTail(provider, kind, offset, pages);
      var tail := pages[1..];
      ListingOfRun(provider, kind, pages[0].nextOffset, tail, fuel - 1);
      var rest := RunRequests(kind, pages[0].nextOffset, tail);
      assert RunRequests(kind, offset, pages) == [request] + rest by {
        var all := RunRequests(kind, offset, pages);
        forall i | 0 < i < |pages| ensures all[i] == rest[i - 1] {
          assert tail[i - 1] == pages[i];
          if i > 1 {
            assert tail[i - 2] == pages[i - 1];
          }
        }
      }
    } else {
      assert |pages| == 1;
      assert pages[1..] == [];
      assert Concat(pages) == pages[0].entries;
      assert RunRequests(kind, offset, pages) == [request];
    }
  }

  /** Every listing that ends within its fuel went over a run of exactly as many pages as it issued requests. */
  lemma {:induction false} ListingIsRun(provider: Provider, kind: ItemKind, offset: Option<string>, fuel: nat)
    requires ListFrom(provider, kind, offset, fuel).Some?
    ensures exists pages :: (IsRun(provider, kind, offset, pages)
      && |pages| == |ListFrom(provider, kind, offset, fuel).value.requests|
      && ListFrom(provider, kind, offset, fuel) == Some(Listing(Concat(pages), RunRequests(kind, offset, pages))))
    decreases fuel
  {
    var request := ListRequest(kind, PageLimit, offset);
    var page := provider(request);
    if HasNext(page) {
      ListingIsRun(provider, kind, page.nextOffset, fuel - 1);
      var rest := ListFrom(provider, kind, page.nextOffset, fuel - 1).value;
      var tail :| IsRun(provider, kind, page.nextOffset, tail)
        && |tail| == |rest.requests|
        && Some(rest) == Some(Listing(Concat(tail), RunRequests(kind, page.nextOffset, tail)));
      var pages := [page] + tail;
      assert pages[1..] == tail;
      assert IsRun(provider, kind, offset, pages) by {
        forall i | 0 < i < |pages| ensures pages[i] == provider(ListRequest(kind, PageLimit, pages[i - 1].nextOffset)) {
          if i > 1 {
            assert pages[i] == tail[i - 1] && pages[i - 1] == tail[i - 2];
          }
        }
        forall i | 0 <= i < |pages| - 1 ensures HasNext(pages[i]) {
          if i > 0 {
            assert pages[i] == tail[i - 1];
          }
        }
      }
      ListingOfRun(provider, kind, offset, pages, fuel);
    } else {
      var pages := [page];
      assert Concat(pages) == page.entries by {
        assert pages[1..] == [];
      }
      ListingOfRun(provider, kind, offset, pages, fuel);
    }
  }

  /** More fuel changes nothing once a listing ends. */
  lemma {:induction false} ListingFuelMonotone(provider: Provider, kind: ItemKind, offset: Option<string>, fuel: nat, more: nat)
    requires ListFrom(provider, kind, offset, fuel).Some?
    requires fuel <= more
    ensures ListFrom(provider, kind, offset, more) == ListFrom(provider, kind, offset, fuel)
  {
    ListingIsRun(provider, kind, offset, fuel);
    var pages :| IsRun(provider, kind, offset, pages)
      && |pages| == |ListFrom(provider, kind, offset, fuel).value.requests|
      && ListFrom(provider, kind, offset, fuel) == Some(Listing(Concat(pages), RunRequests(kind, offset, pages)));
    ListingOfRun(provider, kind, offset, pages, more);
  }

  /**
   * The two-page listing of the unit test: five entries with `next_offset`
   * 5, then five with none, give ten entries from two requests.
   */
  lemma TwoPageListing(provider: Provider, first: seq<Item>, second: seq<Item>)
    requires provider(ListRequest(PlanItem, PageLimit, None)) == Page(first, Some("5"))
    requires provider(ListRequest(PlanItem, PageLimit, Some("5"))) == Page(second, None)
    ensures ListItems(provider, PlanItem, 2) == Some(Listing(first + second,
              [ListRequest(PlanItem, PageLimit, None), ListRequest(PlanItem, PageLimit, Some("5"))]))
  {
    var page := Page(first, Some("5"));
    assert HasNext(page);
    assert page.nextOffset == Some("5");
    assert ListFrom(provider, PlanItem, Some("5"), 1) == Some(Listing(second, [ListRequest(PlanItem, PageLimit, Some("5"))]));
    assert ListFrom(provider, PlanItem, None, 2) == Some(Listing(first + second,
      [ListRequest(PlanItem, PageLimit, None)] + [ListRequest(PlanItem, PageLimit, Some("5"))]));
    assert [ListRequest(PlanItem, PageLimit, None)] + [ListRequest(PlanItem, PageLimit, Some("5"))]
        == [ListRequest(PlanItem, PageLimit, None), ListRequest(PlanItem, PageLimit, Some("5"))];
  }

  /** The metadata an entry contributes: its `meta_data`, or `{}` when there is none. */
  function MetadataOf(item: Item): (m: ObjMetadata)
    ensures item.metaData.None? ==> m == NoMetadata
    ensures item.metaData.Some? ==> m == FromDict(item.metaData.value)
  {
    FromDict(item.metaData.GetOr(map[]))
  }

  /** No later entry has the same id as entry `i`. */
  ghost predicate LastWithId(items: seq<Item>, i: int)
    requires 0 <= i < |items|
  {
    forall j :: i < j < |items| ==> items[j].id != items[i].id
  }

  /** The ids of the entries. */
  function Ids(items: seq<Item>): set<string> {
    set i | 0 <= i < |items| :: items[i].id
  }

  lemma IdsOfSnoc(items: seq<Item>)
    requires |items| > 0
    ensures Ids(items) == Ids(items[..|items| - 1]) + {items[|items| - 1].id}
  {
    var init := items[..|items| - 1];
    forall id | id in Ids(items) ensures id in Ids(init) + {items[|items| - 1].id} {
      var i :| 0 <= i < |items| && items[i].id == id;
      if i < |items| - 1 {
        assert init[i] == items[i];
      }
    }
    forall id | id in Ids(init) ensures id in Ids(items) {
      var i :| 0 <= i < |init| && init[i].id == id;
      assert items[i] == init[i];
    }
  }

  /**
   * The `fetch_plans` / `fetch_addons` loop: each entry is stored under its
   * id, so for a repeated id the last entry wins.
   */
  function BuildItemMap(items: seq<Item>): (m: map<string, ObjMetadata>)
    ensures m.Keys == Ids(items)
    decreases |items|
  {
    if |items| == 0 then map[]
    else
      var init := items[..|items| - 1];
      var last := items[|items| - 1];
      var m := BuildItemMap(init)[last.id := MetadataOf(last)];
      IdsOfSnoc(items);
      m
  }

  /** For a repeated id the entry listed last wins. */
  lemma {:induction false} BuildItemMapLastWins(items: seq<Item>, i: int)
    requires 0 <= i < |items| && LastWithId(items, i)
    ensures BuildItemMap(items)[items[i].id] == MetadataOf(items[i])
    decreases |items|
  {
    var init := items[..|items| - 1];
    if i < |items| - 1 {
      assert items[|items| - 1].id != items[i].id;
      assert LastWithId(init, i) by {
        forall j | i < j < |init| ensures init[j].id != init[i].id {
          assert init[j] == items[j] && init[i] == items[i];
        }
      }
      BuildItemMapLastWins(init, i);
      assert init[i] == items[i];
    }
  }

  /** Fetched items and the requests fetching them issued. */
  datatype Fetched<T> = Fetched(value: T, requests: seq<ListRequest>)

  /** `fetch_plans` (kind `PlanItem`) and `fetch_addons` (kind `AddonItem`). */
  function FetchItems(provider: Provider, kind: ItemKind, fuel: nat): (r: Option<Fetched<map<string, ObjMetadata>>>)
    ensures r.Some? <==> ListItems(provider, kind, fuel).Some?
  {
    match ListItems(provider, kind, fuel)
    case None => None
    case Some(listing) => Some(Fetched(BuildItemMap(listing.entries), listing.requests))
  }

  /** The cached entry: the plan map and the addon map. */
  datatype CacheItems = CacheItems(plans: map<string, ObjMetadata>, addons: map<string, ObjMetadata>)

  /** `refresh`: fetch the plans, then the addons, and store both under the one cache key. */
  function Refresh(provider: Provider, fuel: nat): (r: Option<Fetched<CacheItems>>)
    ensures r.Some? <==> ListItems(provider, PlanItem, fuel).Some? && ListItems(provider, AddonItem, fuel).Some?
    ensures r.Some? ==> r.value.value.plans == BuildItemMap(ListItems(provider, PlanItem, fuel).value.entries)
    ensures r.Some? ==> r.value.value.addons == BuildItemMap(ListItems(provider, AddonItem, fuel).value.entries)
  {
    match (FetchItems(provider, PlanItem, fuel), FetchItems(provider, AddonItem, fuel))
    case (Some(plans), Some(addons)) =>
      Some(Fetched(CacheItems(plans.value, addons.value), plans.requests + addons.requests))
    case _ => None
  }

  /** A cache access: what it returned, the cache entry afterwards, and the requests it issued. */
  datatype Access<T> = Access(value: T, cache: Option<CacheItems>, requests: seq<ListRequest>)

  /** `_get_items`: the cached entry on a hit; on a miss, refresh and return what was stored. */
  function GetItems(cache: Option<CacheItems>, provider: Provider, fuel: nat): (r: Option<Access<CacheItems>>)
    ensures cache.Some? ==> r == Some(Access(cache.value, cache, []))
    ensures r.Some? ==> r.value.cache == Some(r.value.value)
    ensures r.Some? && |r.value.requests| > 0 ==> cache.None?
    ensures cache.None? ==> (r.Some? <==> Refresh(provider, fuel).Some?)
  {
    match cache
    case Some(items) => Some(Access(items, cache, []))
    case None =>
      match Refresh(provider, fuel)
      case None => None
      case Some(fetched) => Some(Access(fetched.value, Some(fetched.value), fetched.requests))
  }

  /** The `plans` property. */
  function Plans(cache: Option<CacheItems>, provider: Provider, fuel: nat): (r: Option<Access<map<string, ObjMetadata>>>)
    ensures r.Some? <==> GetItems(cache, provider, fuel).Some?
    ensures r.Some? ==> r.value.cache.Some? && r.value.value == r.value.cache.value.plans
  {
    match GetItems(cache, provider, fuel)
    case None => None
    case Some(a) => Some(Access(a.value.plans, a.cache, a.requests))
  }

  /** The `addons` property. */
  function Addons(cache: Option<CacheItems>, provider: Provider, fuel: nat): (r: Option<Access<map<string, ObjMetadata>>>)
    ensures r.Some? <==> GetItems(cache, provider, fuel).Some?
    ensures r.Some? ==> r.value.cache.Some? && r.value.value == r.value.cache.value.addons
  {
    match GetItems(cache, provider, fuel)
    case None => None
    case Some(a) => Some(Access(a.value.addons, a.cache, a.requests))
  }

  /** After one access, the next one is a hit: it issues no request and returns the same items. */
  lemma SecondAccessHits(cache: Option<CacheItems>, provider: Provider, fuel: nat, laterProvider: Provider, laterFuel: nat)
    requires GetItems(cache, provider, fuel).Some?
    ensures var first := GetItems(cache, provider, fuel).value;
            GetItems(first.cache, laterProvider, laterFuel) == Some(Access(first.value, first.cache, []))
  {
  }

  /**
   * A miss over complete plan and addon runs: the cache then holds the maps
   * built from every page's entries, after the plan requests followed by
   * the addon requests.
   */
  lemma MissRefreshesFromRuns(provider: Provider, fuel: nat, planPages: seq<Page>, addonPages: seq<Page>)
    requires IsRun(provider, PlanItem, None, planPages) && |planPages| <= fuel
    requires IsRun(provider, AddonItem, None, addonPages) && |addonPages| <= fuel
    ensures GetItems(None, provider, fuel) == Some(Access(
              CacheItems(BuildItemMap(Concat(planPages)), BuildItemMap(Concat(addonPages))),
              Some(CacheItems(BuildItemMap(Concat(planPages)), BuildItemMap(Concat(addonPages)))),
              RunRequests(PlanItem, None, planPages) + RunRequests(AddonItem, None, addonPages)))
  {
    ListingOfRun(provider, PlanItem, None, planPages, fuel);
    ListingOfRun(provider, AddonItem, None, addonPages, fuel);
  }

  /**
   * The cache unit test: one plan and one addon whose metadata carry an
   * unknown key besides the three entitlements; each map has one entry and
   * the unknown key is gone.
   */
  lemma CacheExample(provider: Provider, planMeta: MetaDict, addonMeta: MetaDict)
    requires planMeta == map["seats" := 10, "api_calls" := 100, "projects" := 10, "some_unknown_key" := 1]
    requires addonMeta == map["seats" := 1, "api_calls" := 10, "projects" := 1, "some_unknown_key" := 1]
    requires provider(ListRequest(PlanItem, PageLimit, None)) == Page([Item("plan_id", Some(planMeta))], None)
    requires provider(ListRequest(AddonItem, PageLimit, None)) == Page([Item("addon_id", Some(addonMeta))], None)
    ensures Plans(None, provider, 1).Some?
    ensures Plans(None, provider, 1).value.value == map["plan_id" := ObjMetadata(10, 100, 10, None)]
    ensures Plans(None, provider, 1).value.cache.value.addons == map["addon_id" := ObjMetadata(1, 10, 1, None)]
  {
    var plans := [Item("plan_id", Some(planMeta))];
    var addons := [Item("addon_id", Some(addonMeta))];
    assert ListItems(provider, PlanItem, 1) == Some(Listing(plans, [ListRequest(PlanItem, PageLimit, None)]));
    assert ListItems(provider, AddonItem, 1) == Some(Listing(addons, [ListRequest(AddonItem, PageLimit, None)]));
    assert BuildItemMap(plans) == map["plan_id" := MetadataOf(plans[0])] by {
      assert plans[..0] == [];
    }
    assert BuildItemMap(addons) == map["addon_id" := MetadataOf(addons[0])] by {
      assert addons[..0] == [];
    }
  }
}
