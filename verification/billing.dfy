/**
 * The billing decisions of the Chargebee integration
 * (organisations/chargebee/chargebee.py).
 *
 * The remote client is not called: every call it would make is answered by
 * a parameter holding what the provider returned, data or an API error, and
 * every operation returns the requests it issued together with its result
 * or the exception it raised. The addon ids of
 * organisations/chargebee/constants.py, which is not part of this model,
 * are a parameter record.
 */
module Billing {
  import opened Wrappers
  import opened Metadata
  import opened ItemCache

  /** `chargebee.api_error.APIError`, reduced to its `api_error_code`. */
  datatype ApiError = ApiError(code: string)

  /** The provider's answer to one call: the data, or the API error the client raised. */
  datatype Response<T> = Ok(data: T) | Err(error: ApiError)

  /** The API error codes that mean the payment itself failed. */
  const PaymentErrorCodes: seq<string> := [
    "payment_processing_failed",
    "payment_method_verification_failed",
    "payment_method_not_present",
    "payment_gateway_currency_incompatible",
    "payment_intent_invalid",
    "payment_intent_invalid_amount"
  ]

  /** The payment method recorded for subscriptions bought through Chargebee. */
  const ChargebeePaymentMethod: string := "CHARGEBEE"

  const DefaultMaxSeats: int := 1
  const DefaultMaxApiCalls: int := 50000

  /** `ADDITIONAL_SEAT_ADDON_ID`, `ADDITIONAL_API_START_UP_ADDON_ID`, `ADDITIONAL_API_SCALE_UP_ADDON_ID`. */
  datatype AddonIds = AddonIds(seat: string, apiStartUp: string, apiScaleUp: string)

  /** One `UpdateAddonParams(id=…, quantity=…)`. */
  datatype AddonUpdate = AddonUpdate(id: string, quantity: int)

  /** The calls the billing operations make on the client. */
  datatype Request =
    | RetrieveHostedPage(hostedPageId: string)
    | RetrievePlan(planId: string)
    | RetrieveSubscription(subscriptionId: string)
    | UpdateSubscription(subscriptionId: string, addons: seq<AddonUpdate>, prorate: bool, invoiceImmediately: bool)
    | CancelSubscription(subscriptionId: string, endOfTerm: bool)

  /** The exceptions the billing operations raise. */
  datatype BillingError =
    | ApiFailure(error: ApiError)              // an API error nobody catches
    | MissingKey(key: string)                  // a `KeyError` from a dictionary lookup
    | NoQuantity(addonId: string)              // the `TypeError` of `None + 1`
    | CannotCancelChargebeeSubscription(message: string)
    | UpgradeSeatsPaymentFailure
    | UpgradeSeatsError(message: string)
    | UpgradeAPIUsagePaymentFailure
    | UpgradeAPIUsageError(message: string)

  /** The requests an operation issued, in order, and what it returned or raised. */
  datatype Outcome<T> = Outcome(requests: seq<Request>, result: Result<T, BillingError>)

  // ---------------------------------------------------------------------------
  // Plan limits

  /** `get_max_seats_for_plan`: the `seats` entry, 1 when absent. */
  function MaxSeats(meta: MetaDict): (r: int)
    ensures SeatsKey in meta ==> r == meta[SeatsKey]
    ensures SeatsKey !in meta ==> r == DefaultMaxSeats
  {
    if SeatsKey in meta then meta[SeatsKey] else DefaultMaxSeats
  }

  /** `get_max_api_calls_for_plan`: the `api_calls` entry, 50000 when absent. */
  function MaxApiCalls(meta: MetaDict): (r: int)
    ensures ApiCallsKey in meta ==> r == meta[ApiCallsKey]
    ensures ApiCallsKey !in meta ==> r == DefaultMaxApiCalls
  {
    if ApiCallsKey in meta then meta[ApiCallsKey] else DefaultMaxApiCalls
  }

  /** Each limit reads its own key only: an entry under any other key changes neither. */
  lemma LimitsReadOwnKey(meta: MetaDict, key: string, value: int)
    ensures key != SeatsKey ==> MaxSeats(meta[key := value]) == MaxSeats(meta)
    ensures key != ApiCallsKey ==> MaxApiCalls(meta[key := value]) == MaxApiCalls(meta)
    ensures MaxSeats(map[]) == 1 && MaxApiCalls(map[]) == 50000
  {
  }

  // ---------------------------------------------------------------------------
  // Hosted pages and plans

  /** The `subscription` entry of a hosted page (its `id`, `plan_id` and `created_at`). */
  datatype HostedSubscription = HostedSubscription(id: string, planId: string, createdAt: int)

  /** The `customer` entry of a hosted page. */
  datatype Customer = Customer(id: string)

  /** `hosted_page.content`: a dictionary where `subscription` and `customer` may each be absent. */
  datatype PageContent = PageContent(subscription: Option<HostedSubscription>, customer: Option<Customer>)

  /** A hosted page; `content` is `None` when the page carries none. */
  datatype HostedPage = HostedPage(content: Option<PageContent>)

  /** A retrieved plan; `metaData` is `None` when the attribute is missing or null. */
  datatype Plan = Plan(metaData: Option<MetaDict>)

  /** `get_subscription_from_hosted_page`. */
  function SubscriptionFromHostedPage(page: HostedPage): (r: Option<HostedSubscription>)
    ensures r.Some? <==> page.content.Some? && page.content.value.subscription.Some?
    ensures r.Some? ==> r == page.content.value.subscription
  {
    match page.content
    case None => None
    case Some(content) => content.subscription
  }

  /** `get_customer_id_from_hosted_page`. */
  function CustomerIdFromHostedPage(page: HostedPage): (r: Option<string>)
    ensures r.Some? <==> page.content.Some? && page.content.value.customer.Some?
    ensures r.Some? ==> r.value == page.content.value.customer.value.id
  {
    match page.content
    case None => None
    case Some(content) =>
      match content.customer
      case None => None
      case Some(customer) => Some(customer.id)
  }

  /**
   * `get_plan_meta_data`: no request for an empty plan id; otherwise the
   * retrieved plan's metadata, `{}` when it has none. An API error of the
   * retrieval propagates.
   */
  function PlanMetaData(planId: string, retrieved: Response<Plan>): (r: Outcome<MetaDict>)
    ensures planId == "" ==> r == Outcome([], Success(map[]))
    ensures planId != "" ==> r.requests == [RetrievePlan(planId)]
    ensures r.result.Failure? <==> planId != "" && retrieved.Err?
    ensures r.result.Failure? ==> r.result.error == ApiFailure(retrieved.error)
    ensures r.result.Success? && planId != "" ==> r.result.value == retrieved.data.metaData.GetOr(map[])
  {
    if planId == "" then Outcome([], Success(map[]))
    else
      match retrieved
      case Err(e) => Outcome([RetrievePlan(planId)], Failure(ApiFailure(e)))
      case Ok(plan) => Outcome([RetrievePlan(planId)], Success(plan.metaData.GetOr(map[])))
  }

  /** The dictionary `get_subscription_data_from_hosted_page` returns when there is a subscription. */
  datatype SubscriptionData = SubscriptionData(
    subscriptionId: string,
    plan: string,
    subscriptionDate: int,
    maxSeats: int,
    maxApiCalls: int,
    customerId: Option<string>,
    paymentMethod: string)

  /**
   * `get_subscription_data_from_hosted_page`: `None` stands for the empty
   * dictionary returned when the hosted page has no subscription.
   */
  function SubscriptionDataFromHostedPage(hostedPageId: string, page: Response<HostedPage>, plan: Response<Plan>): (r: Outcome<Option<SubscriptionData>>)
    ensures |r.requests| >= 1 && r.requests[0] == RetrieveHostedPage(hostedPageId)
    ensures page.Err? ==> r == Outcome([RetrieveHostedPage(hostedPageId)], Failure(ApiFailure(page.error)))
    ensures page.Ok? && SubscriptionFromHostedPage(page.data).None? ==> r == Outcome([RetrieveHostedPage(hostedPageId)], Success(None))
    ensures r.result.Success? && r.result.value.Some? ==>
      && page.Ok? && SubscriptionFromHostedPage(page.data).Some?
      && var s := SubscriptionFromHostedPage(page.data).value;
         var meta := PlanMetaData(s.planId, plan);
         && meta.result.Success?
         && r.result.value.value == SubscriptionData(s.id, s.planId, s.createdAt, MaxSeats(meta.result.value), MaxApiCalls(meta.result.value),
                                                    CustomerIdFromHostedPage(page.data), ChargebeePaymentMethod)
         && r.requests == [RetrieveHostedPage(hostedPageId)] + meta.requests
    ensures page.Ok? && SubscriptionFromHostedPage(page.data).Some? ==>
      var meta := PlanMetaData(SubscriptionFromHostedPage(page.data).value.planId, plan);
      && (meta.result.Success? ==> r.result.Success? && r.result.value.Some?)
      && (meta.result.Failure? ==> r == Outcome([RetrieveHostedPage(hostedPageId)] + meta.requests, Failure(meta.result.error)))
  {
    match page
    case Err(e) => Outcome([RetrieveHostedPage(hostedPageId)], Failure(ApiFailure(e)))
    case Ok(hostedPage) =>
      match SubscriptionFromHostedPage(hostedPage)
      case None => Outcome([RetrieveHostedPage(hostedPageId)], Success(None))
      case Some(s) =>
        var meta := PlanMetaData(s.planId, plan);
        var requests := [RetrieveHostedPage(hostedPageId)] + meta.requests;
        match meta.result
        case Failure(e) => Outcome(requests, Failure(e))
        case Success(m) =>
          Outcome(requests, Success(Some(SubscriptionData(s.id, s.planId, s.createdAt, MaxSeats(m), MaxApiCalls(m),
                                                          CustomerIdFromHostedPage(hostedPage), ChargebeePaymentMethod))))
  }

  /** A subscription on a plan without metadata gets the default limits. */
  lemma HostedPageDefaultLimits(hostedPageId: string, page: Response<HostedPage>, plan: Response<Plan>)
    requires page.Ok? && SubscriptionFromHostedPage(page.data).Some?
    requires plan.Ok? && plan.data.metaData.None?
    ensures var r := SubscriptionDataFromHostedPage(hostedPageId, page, plan).result;
            r.Success? && r.value.Some? && r.value.value.maxSeats == 1 && r.value.value.maxApiCalls == 50000
  {
  }

  // ---------------------------------------------------------------------------
  // Subscription metadata

  /** One addon entry of a subscription; `quantity` is `None` when absent or null. */
  datatype AddonEntry = AddonEntry(id: string, quantity: Option<int>)

  /** The dictionary form of a retrieved subscription: its plan and its addons, in order. */
  datatype SubscriptionDict = SubscriptionDict(planId: string, addons: seq<AddonEntry>)

  /** `addon.get("quantity") or 1`: a missing or zero quantity counts as one. */
  function Quantity(a: AddonEntry): (q: int)
    ensures q != 0
    ensures a.quantity.None? || a.quantity == Some(0) ==> q == 1
    ensures a.quantity.Some? && a.quantity.value != 0 ==> q == a.quantity.value
  {
    if a.quantity.Some? && a.quantity.value != 0 then a.quantity.value else 1
  }

  /** The three entitlements, to state field-wise sums once. */
  datatype Entitlement = Seats | ApiCalls | Projects

  function Field(m: ObjMetadata, f: Entitlement): int {
    match f
    case Seats => m.seats
    case ApiCalls => m.apiCalls
    case Projects => m.projects
  }

  /** Reference sum: entitlement `f` over the known addons, each times its quantity. */
  function AddonTotal(addons: seq<AddonEntry>, table: map<string, ObjMetadata>, f: Entitlement): int
    decreases |addons|
  {
    if |addons| == 0 then 0
    else
      var a := addons[|addons| - 1];
      AddonTotal(addons[..|addons| - 1], table, f) + (if a.id in table then Field(table[a.id], f) * Quantity(a) else 0)
  }

  /** Every addon of the subscription is in the addon table. */
  predicate AllKnown(addons: seq<AddonEntry>, table: map<string, ObjMetadata>) {
    forall i :: 0 <= i < |addons| ==> addons[i].id in table
  }

  /** Addon `j` is the first one missing from the addon table. */
  predicate FirstMissing(addons: seq<AddonEntry>, table: map<string, ObjMetadata>, j: int) {
    && 0 <= j < |addons|
    && addons[j].id !in table
    && forall i :: 0 <= i < j ==> addons[i].id in table
  }

  /**
   * The addon loop of `extract_subscription_metadata`: add each addon's
   * metadata times its quantity, in order, and raise `KeyError` at the
   * first addon the table lacks.
   */
  function ComposeAddons(base: ObjMetadata, addons: seq<AddonEntry>, table: map<string, ObjMetadata>): (r: Result<ObjMetadata, BillingError>)
    ensures r.Success? <==> AllKnown(addons, table)
    ensures r.Success? ==> r.value.chargebeeEmail == base.chargebeeEmail
    ensures r.Success? ==> forall f :: Field(r.value, f) == Field(base, f) + AddonTotal(addons, table, f)
    ensures r.Failure? ==> exists j :: FirstMissing(addons, table, j) && r.error == MissingKey(addons[j].id)
    decreases |addons|
  {
    if |addons| == 0 then Success(base)
    else
      var init := addons[..|addons| - 1];
      var a := addons[|addons| - 1];
      assert forall i :: 0 <= i < |init| ==> init[i] == addons[i];
      match ComposeAddons(base, init, table)
      case Failure(e) =>
        assert !AllKnown(addons, table) by {
          var j :| FirstMissing(init, table, j);
          assert addons[j] == init[j];
        }
        Failure(e)
      case Success(m) =>
        if a.id !in table then
          assert FirstMissing(addons, table, |addons| - 1);
          Failure(MissingKey(a.id))
        else
          Success(Add(m, Scale(table[a.id], Quantity(a))))
  }

  /**
   * `extract_subscription_metadata` over the cached plan and addon maps
   * (what `ItemCache.Plans` and `ItemCache.Addons` return): the plan's
   * metadata with the customer's email, plus every addon times its quantity.
   */
  function ExtractSubscriptionMetadata(subscription: SubscriptionDict, email: string, items: CacheItems): (r: Result<ObjMetadata, BillingError>)
    ensures subscription.planId !in items.plans ==> r == Failure(MissingKey(subscription.planId))
    ensures r.Success? <==> subscription.planId in items.plans && AllKnown(subscription.addons, items.addons)
    ensures r.Success? ==> r.value.chargebeeEmail == Some(email)
    ensures r.Success? ==> forall f :: Field(r.value, f) == Field(items.plans[subscription.planId], f) + AddonTotal(subscription.addons, items.addons, f)
  {
    if subscription.planId !in items.plans then Failure(MissingKey(subscription.planId))
    else
      var plan := items.plans[subscription.planId].(chargebeeEmail := Some(email));
      ComposeAddons(plan, subscription.addons, items.addons)
  }

  /** Without addons, the subscription's metadata is its plan's, with the email set. */
  lemma NoAddonsGivesPlan(planId: string, email: string, items: CacheItems)
    requires planId in items.plans
    ensures ExtractSubscriptionMetadata(SubscriptionDict(planId, []), email, items) == Success(items.plans[planId].(chargebeeEmail := Some(email)))
  {
  }

  /** A plan with one seat and one seat addon bought three times: four seats. */
  lemma SeatsExample(items: CacheItems)
    requires items.plans == map["plan" := ObjMetadata(1, 0, 0, None)]
    requires items.addons == map["seat" := ObjMetadata(1, 0, 0, None)]
    ensures ExtractSubscriptionMetadata(SubscriptionDict("plan", [AddonEntry("seat", Some(3))]), "a@b.c", items).Success?
    ensures ExtractSubscriptionMetadata(SubscriptionDict("plan", [AddonEntry("seat", Some(3))]), "a@b.c", items).value.seats == 4
  {
    var addons := [AddonEntry("seat", Some(3))];
    assert addons[..0] == [];
  }

  /** What `Subscription.retrieve` returns: the subscription as a dictionary and the customer's email. */
  datatype RetrievedSubscription = RetrievedSubscription(subscription: SubscriptionDict, customerEmail: string)

  /** Python's `str.isspace` for one character. */
  predicate IsWhitespace(c: char) {
    || ('\t' <= c <= '\r') || ('\U{1C}' <= c <= '\U{1F}') || c == ' ' || c == '\U{85}' || c == '\U{A0}'
    || c == '\U{1680}' || ('\U{2000}' <= c <= '\U{200A}') || c == '\U{2028}' || c == '\U{2029}'
    || c == '\U{202F}' || c == '\U{205F}' || c == '\U{3000}'
  }

  /** `not (subscription_id and subscription_id.strip() != "")`: `None`, empty or only whitespace. */
  predicate IsBlankId(subscriptionId: Option<string>): (b: bool)
    ensures subscriptionId.None? ==> b
    ensures subscriptionId == Some("") ==> b
    ensures subscriptionId.Some? && (exists i :: 0 <= i < |subscriptionId.value| && !IsWhitespace(subscriptionId.value[i])) ==> !b
  {
    subscriptionId.None? || forall i :: 0 <= i < |subscriptionId.value| ==> IsWhitespace(subscriptionId.value[i])
  }

  /**
   * `get_subscription_metadata_from_id`: `None` without any request for a
   * blank id, `None` when retrieval raises an API error; otherwise the
   * extracted metadata. A `KeyError` of the extraction is not suppressed.
   */
  function SubscriptionMetadataFromId(subscriptionId: Option<string>, retrieved: Response<RetrievedSubscription>, items: CacheItems): (r: Outcome<Option<ObjMetadata>>)
    ensures IsBlankId(subscriptionId) ==> r == Outcome([], Success(None))
    ensures !IsBlankId(subscriptionId) ==> r.requests == [RetrieveSubscription(subscriptionId.value)]
    ensures !IsBlankId(subscriptionId) && retrieved.Err? ==> r.result == Success(None)
    ensures r.result.Success? && r.result.value.Some? ==>
      && retrieved.Ok?
      && ExtractSubscriptionMetadata(retrieved.data.subscription, retrieved.data.customerEmail, items) == Success(r.result.value.value)
    ensures r.result.Failure? <==>
      (!IsBlankId(subscriptionId) && retrieved.Ok?
       && ExtractSubscriptionMetadata(retrieved.data.subscription, retrieved.data.customerEmail, items).Failure?)
    ensures !IsBlankId(subscriptionId) && retrieved.Ok? ==>
      var extracted := ExtractSubscriptionMetadata(retrieved.data.subscription, retrieved.data.customerEmail, items);
      && (extracted.Success? ==> r.result == Success(Some(extracted.value)))
      && (extracted.Failure? ==> r.result == Failure(extracted.error))
  {
    if IsBlankId(subscriptionId) then Outcome([], Success(None))
    else
      var requests := [RetrieveSubscription(subscriptionId.value)];
      match retrieved
      case Err(_) => Outcome(requests, Success(None))
      case Ok(s) =>
        match ExtractSubscriptionMetadata(s.subscription, s.customerEmail, items)
        case Failure(e) => Outcome(requests, Failure(e))
        case Success(m) => Outcome(requests, Success(Some(m)))
  }

  /** Blank ids include the empty string and whitespace-only strings. */
  lemma BlankIdsMakeNoRequest(items: CacheItems, retrieved: Response<RetrievedSubscription>)
    ensures SubscriptionMetadataFromId(Some(""), retrieved, items).requests == []
    ensures SubscriptionMetadataFromId(Some(" \t\n"), retrieved, items) == Outcome([], Success(None))
    ensures SubscriptionMetadataFromId(Some(" sub_1 "), retrieved, items).requests == [RetrieveSubscription(" sub_1 ")]
  {
    assert !IsWhitespace(" sub_1 "[1]);
  }

  // ---------------------------------------------------------------------------
  // Subscription changes

  /** `cancel_subscription`: cancel at the end of the term; any API error becomes `CannotCancelChargebeeSubscription`. */
  function CancelSubscriptionAtTermEnd(subscriptionId: string, error: Option<ApiError>): (r: Outcome<()>)
    ensures r.requests == [CancelSubscription(subscriptionId, true)]
    ensures r.result.Success? <==> error.None?
    ensures r.result.Failure? ==> r.result.error.CannotCancelChargebeeSubscription?
  {
    var requests := [CancelSubscription(subscriptionId, true)];
    match error
    case None => Outcome(requests, Success(()))
    case Some(_) => Outcome(requests, Failure(CannotCancelChargebeeSubscription("Cannot cancel CB subscription for subscription id: " + subscriptionId)))
  }

  /** The exception a failed seat upgrade raises. */
  function SeatsError(e: ApiError, subscriptionId: string): (r: BillingError)
    ensures r == UpgradeSeatsPaymentFailure <==> e.code in PaymentErrorCodes
    ensures r != UpgradeSeatsPaymentFailure ==> r.UpgradeSeatsError?
  {
    if e.code in PaymentErrorCodes then UpgradeSeatsPaymentFailure
    else UpgradeSeatsError("Failed to add additional seat to CB subscription for subscription id: " + subscriptionId)
  }

  /** The exception a failed API-call upgrade raises. */
  function ApiUsageError(e: ApiError, subscriptionId: string): (r: BillingError)
    ensures r == UpgradeAPIUsagePaymentFailure <==> e.code in PaymentErrorCodes
    ensures r != UpgradeAPIUsagePaymentFailure ==> r.UpgradeAPIUsageError?
  {
    if e.code in PaymentErrorCodes then UpgradeAPIUsagePaymentFailure
    else UpgradeAPIUsageError("Failed to add additional API calls to CB subscription for subscription id: " + subscriptionId)
  }

  /** The quantity of the first addon with id `addonId`, `Some(0)` when there is none. */
  function CurrentQuantity(addons: seq<AddonEntry>, addonId: string): (r: Option<int>)
    ensures (forall i :: 0 <= i < |addons| ==> addons[i].id != addonId) ==> r == Some(0)
    ensures r.None? ==> exists i :: 0 <= i < |addons| && addons[i].id == addonId && addons[i].quantity.None?
    decreases |addons|
  {
    if |addons| == 0 then Some(0)
    else if addons[0].id == addonId then addons[0].quantity
    else CurrentQuantity(addons[1..], addonId)
  }

  /** `next(…, 0)` finds the first matching addon, and yields 0 when no addon matches. */
  lemma {:induction false} CurrentQuantityIsFirstMatch(addons: seq<AddonEntry>, addonId: string)
    ensures (forall i :: 0 <= i < |addons| ==> addons[i].id != addonId) ==> CurrentQuantity(addons, addonId) == Some(0)
    ensures forall j :: (0 <= j < |addons| && addons[j].id == addonId && (forall i :: 0 <= i < j ==> addons[i].id != addonId)
      ==> CurrentQuantity(addons, addonId) == addons[j].quantity)
    decreases |addons|
  {
    if |addons| > 0 {
      var tail := addons[1..];
      CurrentQuantityIsFirstMatch(tail, addonId);
      forall j | 0 <= j < |addons| && addons[j].id == addonId && (forall i :: 0 <= i < j ==> addons[i].id != addonId)
        ensures CurrentQuantity(addons, addonId) == addons[j].quantity
      {
        if j > 0 {
          assert tail[j - 1] == addons[j];
          assert forall i :: 0 <= i < j - 1 ==> tail[i] == addons[i + 1];
        }
      }
      if forall i :: 0 <= i < |addons| ==> addons[i].id != addonId {
        assert forall i :: 0 <= i < |tail| ==> tail[i] == addons[i + 1];
      }
    }
  }

  /** A subscription as `Subscription.retrieve` returns it: its addons (`addons or []`). */
  datatype SubscriptionObject = SubscriptionObject(addons: seq<AddonEntry>)

  /**
   * `add_single_seat`: read the subscription, then set the seat addon's
   * quantity to the current one plus one, prorated and not invoiced at
   * once. An API error of either call is classified by its code.
   */
  function AddSingleSeat(ids: AddonIds, subscriptionId: string, retrieved: Response<SubscriptionObject>, updateError: Option<ApiError>): (r: Outcome<()>)
    ensures |r.requests| >= 1 && r.requests[0] == RetrieveSubscription(subscriptionId)
    ensures retrieved.Err? ==> r == Outcome([RetrieveSubscription(subscriptionId)], Failure(SeatsError(retrieved.error, subscriptionId)))
    ensures retrieved.Ok? && CurrentQuantity(retrieved.data.addons, ids.seat).Some? ==>
      r.requests == [RetrieveSubscription(subscriptionId),
                     UpdateSubscription(subscriptionId, [AddonUpdate(ids.seat, CurrentQuantity(retrieved.data.addons, ids.seat).value + 1)], true, false)]
    ensures r.result.Success? <==> retrieved.Ok? && CurrentQuantity(retrieved.data.addons, ids.seat).Some? && updateError.None?
    ensures retrieved.Ok? && CurrentQuantity(retrieved.data.addons, ids.seat).None? ==>
      r == Outcome([RetrieveSubscription(subscriptionId)], Failure(NoQuantity(ids.seat)))
    ensures retrieved.Ok? && CurrentQuantity(retrieved.data.addons, ids.seat).Some? && updateError.Some? ==>
      r.result == Failure(SeatsError(updateError.value, subscriptionId))
  {
    var requests := [RetrieveSubscription(subscriptionId)];
    match retrieved
    case Err(e) => Outcome(requests, Failure(SeatsError(e, subscriptionId)))
    case Ok(subscription) =>
      match CurrentQuantity(subscription.addons, ids.seat)
      case None => Outcome(requests, Failure(NoQuantity(ids.seat)))
      case Some(current) =>
        var update := UpdateSubscription(subscriptionId, [AddonUpdate(ids.seat, current + 1)], true, false);
        match updateError
        case Some(e) => Outcome(requests + [update], Failure(SeatsError(e, subscriptionId)))
        case None => Outcome(requests + [update], Success(()))
  }

  /** A subscription without the seat addon asks for one seat addon. */
  lemma FirstExtraSeat(ids: AddonIds, subscriptionId: string, addons: seq<AddonEntry>, updateError: Option<ApiError>)
    requires forall i :: 0 <= i < |addons| ==> addons[i].id != ids.seat
    ensures AddSingleSeat(ids, subscriptionId, Ok(SubscriptionObject(addons)), updateError).requests
         == [RetrieveSubscription(subscriptionId), UpdateSubscription(subscriptionId, [AddonUpdate(ids.seat, 1)], true, false)]
  {
    CurrentQuantityIsFirstMatch(addons, ids.seat);
  }

  /**
   * `add_100k_api_calls`: nothing is sent for a zero count; otherwise the
   * addon's quantity is set to `count`, not prorated.
   */
  function Add100kApiCalls(addonId: string, subscriptionId: string, count: int, invoiceImmediately: bool, updateError: Option<ApiError>): (r: Outcome<()>)
    ensures count == 0 ==> r == Outcome([], Success(()))
    ensures count != 0 ==> r.requests == [UpdateSubscription(subscriptionId, [AddonUpdate(addonId, count)], false, invoiceImmediately)]
    ensures r.result.Success? <==> count == 0 || updateError.None?
    ensures r.result.Failure? ==> r.result.error == ApiUsageError(updateError.value, subscriptionId)
  {
    if count == 0 then Outcome([], Success(()))
    else
      var requests := [UpdateSubscription(subscriptionId, [AddonUpdate(addonId, count)], false, invoiceImmediately)];
      match updateError
      case Some(e) => Outcome(requests, Failure(ApiUsageError(e, subscriptionId)))
      case None => Outcome(requests, Success(()))
  }

  /** `add_100k_api_calls_start_up`: its `invoice_immediately` argument is not passed on. */
  function Add100kApiCallsStartUp(ids: AddonIds, subscriptionId: string, count: int, invoiceImmediately: bool, updateError: Option<ApiError>): (r: Outcome<()>)
    ensures count == 0 ==> r == Outcome([], Success(()))
    ensures count != 0 ==> r.requests == [UpdateSubscription(subscriptionId, [AddonUpdate(ids.apiStartUp, count)], false, false)]
    ensures r.result.Success? <==> count == 0 || updateError.None?
    ensures r.result.Failure? ==> r.result.error == ApiUsageError(updateError.value, subscriptionId)
  {
    Add100kApiCalls(ids.apiStartUp, subscriptionId, count, false, updateError)
  }

  /** `add_100k_api_calls_scale_up`: its `invoice_immediately` argument is not passed on. */
  function Add100kApiCallsScaleUp(ids: AddonIds, subscriptionId: string, count: int, invoiceImmediately: bool, updateError: Option<ApiError>): (r: Outcome<()>)
    ensures count == 0 ==> r == Outcome([], Success(()))
    ensures count != 0 ==> r.requests == [UpdateSubscription(subscriptionId, [AddonUpdate(ids.apiScaleUp, count)], false, false)]
    ensures r.result.Success? <==> count == 0 || updateError.None?
    ensures r.result.Failure? ==> r.result.error == ApiUsageError(updateError.value, subscriptionId)
  {
    Add100kApiCalls(ids.apiScaleUp, subscriptionId, count, false, updateError)
  }

  /**
   * Each wrapper is `add_100k_api_calls` for its addon with `invoice_immediately`
   * left at its default, whatever flag the wrapper itself was given.
   */
  lemma WrappersDelegate(ids: AddonIds, subscriptionId: string, count: int, invoiceImmediately: bool, updateError: Option<ApiError>)
    ensures Add100kApiCallsStartUp(ids, subscriptionId, count, invoiceImmediately, updateError)
         == Add100kApiCalls(ids.apiStartUp, subscriptionId, count, false, updateError)
    ensures Add100kApiCallsScaleUp(ids, subscriptionId, count, invoiceImmediately, updateError)
         == Add100kApiCalls(ids.apiScaleUp, subscriptionId, count, false, updateError)
  {
  }

  /** The wrappers ignore `invoice_immediately`: both values give the same outcome. */
  lemma WrappersIgnoreInvoiceFlag(ids: AddonIds, subscriptionId: string, count: int, updateError: Option<ApiError>)
    ensures Add100kApiCallsStartUp(ids, subscriptionId, count, true, updateError) == Add100kApiCallsStartUp(ids, subscriptionId, count, false, updateError)
    ensures Add100kApiCallsScaleUp(ids, subscriptionId, count, true, updateError) == Add100kApiCallsScaleUp(ids, subscriptionId, count, false, updateError)
  {
  }

  /** Exactly the six listed codes are payment failures. */
  lemma PaymentCodesClassify(subscriptionId: string)
    ensures SeatsError(ApiError("payment_intent_invalid_amount"), subscriptionId) == UpgradeSeatsPaymentFailure
    ensures SeatsError(ApiError("resource_not_found"), subscriptionId).UpgradeSeatsError?
    ensures ApiUsageError(ApiError("payment_method_not_present"), subscriptionId) == UpgradeAPIUsagePaymentFailure
    ensures |PaymentErrorCodes| == 6
  {
    assert PaymentErrorCodes[5] == "payment_intent_invalid_amount";
    assert PaymentErrorCodes[2] == "payment_method_not_present";
  }
}
