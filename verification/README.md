# Analytics rollups and Chargebee billing, modelled in Dafny

This project models three parts of the Flagsmith API server.

1. **Analytics bucketing** (`api/app_analytics/tasks.py`). Raw API-usage and
   feature-evaluation events carry a count, a label set and a creation time.
   They are rolled up into bucket rows. There is one bucket row per
   environment, dimension (resource or feature name), label set, bucket size
   and bucket start. A run processes the fully elapsed buckets before the
   one that contains "now". Each run upserts the summed counts, overwriting
   the old total. A rollup can cascade: with `source_bucket_size` set, it
   reads finer bucket rows instead of raw events. A daily sweep deletes raw
   and bucket rows that are older than their retention periods.
2. **Chargebee billing decisions** (`api/organisations/chargebee/chargebee.py`):
   - plan limits and their defaults;
   - reading hosted pages;
   - composing a subscription's entitlements from its plan and its addons;
   - blank subscription ids;
   - cancelling a subscription;
   - seat and API-call upgrades, and how their API errors are classified.
3. **The plan and addon cache** (`api/organisations/chargebee/cache.py`):
   - the paginated listing generator;
   - the maps built from it, where the last entry for an id wins;
   - the lazily filled, single-key cache.

Modules:
- `Wrappers`: `Option` and `Result`.
- `Bucketing`: time, bucket starts and the windows of a run.
- `Analytics`: events, bucket keys and the reference sums over them.
- `Aggregation`: the source queries, the upsert and the populate job.
- `RollupProperties`: what a run writes, what it leaves alone, and idempotence.
- `Cascade`: the cascading query as written and corrected, and correctness of the corrected one.
- `Retention`: the cleanup sweep.
- `Metadata`: the entitlement record.
- `ItemCache`: listing and cache.
- `Billing`: the billing operations.

How the outside world enters the model:
- Time is an integer count of UTC seconds.
- A provider call becomes a parameter that holds its answer, either the data or an API error.
- Each billing operation returns the requests it issued together with its result or the exception it raised.
- The listing endpoint is a function from request to page.
- The cache is an `Option` of the stored plan and addon maps.

## Model

| member | source | states |
|---|---|---|
| Bucketing.StartOfCurrentBucket | api/app_analytics/tasks.py:151-159 | Sizes above 60 minutes fail with the bucket-size error, and only those. Otherwise the result is a whole minute whose minute-of-hour is a multiple of the size, lies in the same hour as now, and satisfies start <= now < start + size. |
| Bucketing.StartFacts | api/app_analytics/tasks.py:155-158 | Truncating to the minute and moving back by minute % size minutes gives a bucket boundary in the same hour, at most now and less than one bucket before it. |
| Bucketing.StartIsLatestBoundary | api/app_analytics/tasks.py:151-159 | No bucket boundary lies between the computed start and now. This holds for every size from 1 to 60, not only the divisors of 60. |
| Bucketing.WindowCount | api/app_analytics/tasks.py:169-170 | run_every // bucket_size windows, with Python floor division; none when that is negative. |
| Bucketing.TimeBuckets | api/app_analytics/tasks.py:162-177 | Fails exactly when the size exceeds 60. Otherwise it gives run_every // size windows of size minutes each, newest first, contiguous and non-overlapping; the newest ends at the start of the open bucket. |
| Bucketing.WindowsEndingAt | api/app_analytics/tasks.py:170-175 | `count` windows, each `width` wide; the first ends at `end` and each later one ends where the previous one starts. |
| Bucketing.WindowsGeometry | api/app_analytics/tasks.py:170-175 | Window i is (end - (i+1)w, end - iw]: w wide, and ending where the next-newer window starts. |
| Bucketing.WindowsTile | api/app_analytics/tasks.py:165-175 | An instant lies in one window of a run exactly when it lies in (S - n*size, S], where S is the open bucket's start; it then lies in exactly one window. Nothing in the open bucket is processed. |
| Bucketing.WindowsInsideSpan | api/app_analytics/tasks.py:170-175 | An instant in some window lies inside the span the windows tile. |
| Bucketing.SpanCovered | api/app_analytics/tasks.py:170-175 | Every instant of the span lies in some window. |
| Bucketing.CoveringWindow | api/app_analytics/tasks.py:170-175 | The window holding an instant of the span is found by index. |
| Bucketing.WindowsDisjoint | api/app_analytics/tasks.py:170-175 | No instant lies in two windows. |
| Bucketing.ExampleQuarterHours | api/app_analytics/tasks.py:162-177 | With 15-minute buckets, an hourly run and now = 10:47, the windows are (10:30,10:45], (10:15,10:30], (10:00,10:15] and (09:45,10:00]. |
| Analytics.RawSumSplit | api/app_analytics/tasks.py:235-241 | Summing raw counts over (lo, hi] splits at any point between lo and hi. |
| Analytics.RawSumWithoutEvents | api/app_analytics/tasks.py:235-241 | A group with no event in the range sums to zero. |
| Analytics.BucketSumSplit | api/app_analytics/tasks.py:230-234 | Bucket totals over a range of starts split at any point. |
| Analytics.BucketSumOnlyReadsItsSize | api/app_analytics/tasks.py:231 | Bucket totals of one size do not depend on rows of any other size. |
| Analytics.BucketSumWithoutRows | api/app_analytics/tasks.py:230-234 | With no row of the group in range, the total is zero. |
| Aggregation.RawSource | api/app_analytics/tasks.py:225-241 | A group appears exactly when it has an event in (start, end], and it then holds that group's total. |
| Aggregation.BucketSource | api/app_analytics/tasks.py:229-234 | Corrected cascading query: a group appears exactly when it has a row of the source size starting in [start, end), holding the sum of those rows. |
| Aggregation.SourceData | api/app_analytics/tasks.py:220-265 | A truthy source_bucket_size (neither None nor 0) reads buckets, through the corrected `[start, end)` query; otherwise raw events of (start, end] are read. |
| Aggregation.Upserts | api/app_analytics/tasks.py:189-197 | One key per group, at the window start, of the target size, holding the group's count. No other key is written. |
| Aggregation.UpsertWindow | api/app_analytics/tasks.py:189-197 | update_or_create: each group's key is added or overwritten with the fresh count, and every other row keeps its value. |
| Aggregation.Populate | api/app_analytics/tasks.py:185-197 | No row is removed. New rows have the target size and start at a window start. Rows of other sizes or at other instants are unchanged. |
| Aggregation.PopulateBucket | api/app_analytics/tasks.py:180-197 | Fails exactly for a size above 60, before writing anything. Otherwise no row is removed; new rows have the target size, start at a window start of the run and lie before the open bucket; every row not of the target size or not at a window start keeps its count. |
| Aggregation.PopulateApiUsageBucket | api/app_analytics/tasks.py:180-197 | Only the API-usage bucket table changes, and it changes as PopulateBucket says. |
| Aggregation.PopulateFeatureEvaluationBucket | api/app_analytics/tasks.py:200-217 | Only the feature-evaluation bucket table changes, and it changes as PopulateBucket says. |
| RollupProperties.SourceDataReadsOnlySourceRows | api/app_analytics/tasks.py:229-241 | Two stores that agree on the rows of the source size yield the same source data. |
| RollupProperties.Writes | api/app_analytics/tasks.py:189-197 | Everything a run writes has the target size. |
| RollupProperties.WritesReadOnlySourceRows | api/app_analytics/tasks.py:185-197 | A run's writes depend only on the source rows. |
| RollupProperties.WritingOtherSizeKeepsSource | api/app_analytics/tasks.py:229-234 | Writing rows of the target size leaves a source of a different size unchanged. |
| RollupProperties.PopulateIsStorePlusWrites | api/app_analytics/tasks.py:185-197 | A pass that does not read its own size leaves the store overlaid with its writes. |
| RollupProperties.PopulateIdempotent | api/app_analytics/tasks.py:189-197 | Running the same windows twice over unchanged sources equals running them once, because totals are overwritten, not added. |
| RollupProperties.PopulateApiUsageIdempotent | api/app_analytics/tasks.py:180-197 | populate_api_usage_bucket run twice at the same instant equals one run. |
| RollupProperties.PopulateFeatureEvaluationIdempotent | api/app_analytics/tasks.py:200-217 | populate_feature_evaluation_bucket run twice at the same instant equals one run. |
| RollupProperties.PopulateFromRaw | api/app_analytics/tasks.py:185-241 | After a raw run, every group with events in a window has a row at that window's start holding the group's total. A row at a window start whose group had no events there keeps its old value. |
| RollupProperties.PopulateWritesWindowSum | api/app_analytics/tasks.py:189-197 | PopulateFromRaw for one window and one group. |
| RollupProperties.PopulateAddsNoEmptyGroup | api/app_analytics/tasks.py:189-241 | A group without events in a window gets no new row there. |
| RollupProperties.PopulateNewRowFromEvents | api/app_analytics/tasks.py:189-241 | Every row a raw run adds belongs to a window whose group has events there, and it holds their total. |
| RollupProperties.PopulateRawRows | api/app_analytics/tasks.py:185-197 | After a raw run, added rows come from events, and every group with events has its rows. |
| RollupProperties.TimeBucketsDistinctStarts | api/app_analytics/tasks.py:170-175 | The windows of a run start at distinct instants. |
| RollupProperties.PopulateBucketSums | api/app_analytics/tasks.py:180-197 | After a full populate call from raw events, every elapsed window holds each active group's sum. |
| RollupProperties.SummationExample | api/app_analytics/tasks.py:235-241 | Two events of one group in one window, with counts 3 and 4, give one row of 7. |
| RollupProperties.LabelsNeverMerge | api/app_analytics/tasks.py:237 | Events that differ only in their labels give separate groups, each with its own count. |
| Cascade.AsWrittenBucketSource | api/app_analytics/tasks.py:225-234 | The query as written sums rows that start in (start, end]. These are the raw events of (start + fine, end + fine]. |
| Cascade.AsWrittenSourceData | api/app_analytics/tasks.py:220-265 | The source query as written applies the same (start, end] filter to raw rows and bucket rows. |
| Cascade.OneRowBucketSource | api/app_analytics/tasks.py:229-234 | The corrected query sees a row that starts inside [start, end). |
| Cascade.OneRowAsWrittenMissesStart | api/app_analytics/tasks.py:225-234 | The query as written misses a row stamped at the window start. |
| Cascade.AsWrittenCascadeShifted | api/app_analytics/tasks.py:225-234 | An event at 00:05 is rolled into the 00:00 quarter-hour row. The raw query and the corrected cascade count it in the hourly window (00:00, 01:00]; the query as written finds nothing. |
| Cascade.OneEventSource | api/app_analytics/tasks.py:235-241 | A single event in a window forms a single group with the event's count. |
| Cascade.OffBoundaryHasNoRow | api/app_analytics/tasks.py:195 | Inside a fine window, only its start can hold a fine row. |
| Cascade.OneBlock | api/app_analytics/tasks.py:229-241 | For one fine window, the bucket sum equals the raw total. |
| Cascade.FirstBlocks | api/app_analytics/tasks.py:229-241 | For the first j fine windows, the bucket sum equals the raw total. |
| Cascade.EventHasFineRow | api/app_analytics/tasks.py:189-197 | Every event of the span has a fine row for its group. |
| Cascade.FineRowHasEvent | api/app_analytics/tasks.py:189-197 | Every fine row of the span stems from an event of the span. |
| Cascade.CascadeSameGroups | api/app_analytics/tasks.py:229-241 | The corrected cascade and the raw query find the same groups. |
| Cascade.CascadeMatchesDirect | api/app_analytics/tasks.py:229-241 | When the fine rows are a faithful fine rollup, the coarse bucket built from them equals the one built from raw events, group by group. |
| Cascade.SpanWindows | api/app_analytics/tasks.py:170-175 | The windows of a fine run over the span are its fine blocks. |
| Cascade.FineWindowsDistinct | api/app_analytics/tasks.py:170-175 | Fine blocks start at distinct instants. |
| Cascade.FineRowFromBlock | api/app_analytics/tasks.py:189-197 | A row written for a fine block lies on a fine boundary and holds its window's raw total. |
| Cascade.FineRunSound | api/app_analytics/tasks.py:185-197 | After a fine run into a span with no fine rows, every fine row of the span is sound. |
| Cascade.FineRunRowSound | api/app_analytics/tasks.py:185-197 | One fine row after the run came from its block's events. |
| Cascade.FineRunRowComplete | api/app_analytics/tasks.py:185-197 | Every group with events in a fine block has its row. |
| Cascade.FineRunComplete | api/app_analytics/tasks.py:185-197 | The fine rows of the span are complete. |
| Cascade.CascadeEndToEnd | api/app_analytics/tasks.py:180-241 | Roll raw events up into fine buckets over a coarse window's span, then run the coarse query on those rows (source_bucket_size = fine). The result is exactly the coarse query over raw events. |
| Cascade.CascadeFromFineBlocks | api/app_analytics/tasks.py:180-241 | CascadeEndToEnd, for any sequence of the span's fine blocks. |
| Cascade.CascadeOverFineRows | api/app_analytics/tasks.py:229-241 | Any store whose new fine rows come from events, with a row for every active group, feeds the coarse pass the raw totals. |
| Cascade.CascadeReadsMatchingRows | api/app_analytics/tasks.py:229-241 | Sound and complete fine rows make the bucket query equal the raw query. |
| Retention.KeepRaw | api/app_analytics/tasks.py:58-65 | Every survivor was in the table and was created at or after the cutoff, and there are no more survivors than rows. |
| Retention.KeepBuckets | api/app_analytics/tasks.py:68-76 | A row survives exactly when it starts at or after the cutoff, with its count unchanged. |
| Retention.Cutoff | api/app_analytics/tasks.py:59-60 | The cutoff lies `days` days before now, and not after now for a non-negative period. |
| Retention.CleanUp | api/app_analytics/tasks.py:56-76 | Raw tables are swept at now minus the raw retention period, and bucket tables at now minus the bucket retention period. |
| Retention.KeepRawCounts | api/app_analytics/tasks.py:58-65 | Each recent event keeps its multiplicity, and each older one is gone. |
| Retention.KeptIff | api/app_analytics/tasks.py:58-65 | An event survives exactly when it was present and is not older than the cutoff. |
| Retention.KeepRawIsSubsequence | api/app_analytics/tasks.py:58-65 | Survivors keep their original order. |
| Retention.KeepRawIdempotent | api/app_analytics/tasks.py:58-65 | Sweeping twice with the same cutoff deletes nothing more. |
| Retention.KeepRawAllRecent | api/app_analytics/tasks.py:58-65 | A table whose events are all recent is left unchanged. |
| Retention.CleanUpIdempotent | api/app_analytics/tasks.py:56-76 | Running the whole sweep twice at the same instant equals running it once. |
| Retention.KeepBucketsIdempotent | api/app_analytics/tasks.py:68-76 | Sweeping a bucket table twice with the same cutoff deletes nothing more. |
| Retention.RecentRawSumsSurvive | api/app_analytics/tasks.py:58-65 | Raw totals over windows starting at or after the cutoff are unchanged by the sweep. |
| Retention.RecentBucketSumsSurvive | api/app_analytics/tasks.py:68-76 | Bucket totals over starts at or after the cutoff are unchanged by the sweep. |
| Metadata.FromDict | api/organisations/chargebee/cache.py:40 | Each of seats, api_calls and projects is the dictionary's entry, or 0 when absent; no email is set. |
| Metadata.FromDictReadsKnownKeys | api/organisations/chargebee/cache.py:39-40 | Construction takes seats, api_calls and projects from the dictionary and ignores everything else. |
| Metadata.FromDictIgnoresUnknownKey | api/tests/unit/organisations/chargebee/test_unit_chargebee_cache.py:49-104 | An unknown metadata key does not change the constructed entitlements. |
| ItemCache.ListFrom | api/organisations/chargebee/cache.py:52-65 | A finished listing made between 1 and fuel requests, and the first asked for 100 entries at the starting offset. |
| ItemCache.ListingOfRun | api/organisations/chargebee/cache.py:52-65 | Over a run of pages, the listing yields every entry of every page, in order, after one request per page. Each request after the first carries the previous page's next_offset. |
| ItemCache.ListingIsRun | api/organisations/chargebee/cache.py:52-65 | Every finished listing went over a run of exactly as many pages as requests. |
| ItemCache.ListingFuelMonotone | api/organisations/chargebee/cache.py:52-65 | More fuel does not change a finished listing. |
| ItemCache.TwoPageListing | api/tests/unit/organisations/chargebee/test_unit_chargebee_cache.py:15-46 | A page with next_offset "5" followed by a last page gives both pages' entries from two requests. |
| ItemCache.BuildItemMap | api/organisations/chargebee/cache.py:35-49 | The map's keys are exactly the listed ids. |
| ItemCache.MetadataOf | api/organisations/chargebee/cache.py:39-40 | An entry without meta_data contributes no entitlements; otherwise its metadata is built from its dictionary. |
| ItemCache.BuildItemMapLastWins | api/organisations/chargebee/cache.py:37-40 | For a repeated id, the entry listed last wins, with its meta_data (or {}) as metadata. |
| ItemCache.FetchItems | api/organisations/chargebee/cache.py:35-49 | Fetching succeeds exactly when the listing finishes. |
| ItemCache.Refresh | api/organisations/chargebee/cache.py:16-19 | The stored plans and addons are the maps built from the full plan and addon listings. |
| ItemCache.GetItems | api/organisations/chargebee/cache.py:29-33 | A hit returns the cached entry without any request. Afterwards the cache holds what was returned. Requests are issued only on a miss, and a miss succeeds exactly when the refresh does. |
| ItemCache.Plans | api/organisations/chargebee/cache.py:21-23 | Returns the plans part of the entry the cache holds afterwards. |
| ItemCache.Addons | api/organisations/chargebee/cache.py:25-27 | Returns the addons part of the entry the cache holds afterwards. |
| ItemCache.SecondAccessHits | api/organisations/chargebee/cache.py:29-33 | After one access, the next is a hit: no request is made and the same items are returned. |
| ItemCache.MissRefreshesFromRuns | api/organisations/chargebee/cache.py:16-33 | A miss over complete runs stores the maps built from every page, after the plan requests followed by the addon requests. |
| ItemCache.CacheExample | api/tests/unit/organisations/chargebee/test_unit_chargebee_cache.py:49-104 | One plan and one addon with an unknown extra key: each map has one entry, and the unknown key is dropped. |
| Billing.MaxSeats | api/organisations/chargebee/chargebee.py:100-101 | The seats entry, or 1 when absent. |
| Billing.MaxApiCalls | api/organisations/chargebee/chargebee.py:104-105 | The api_calls entry, or 50000 when absent. |
| Billing.LimitsReadOwnKey | api/organisations/chargebee/chargebee.py:100-105 | Each limit depends on its own key only. The empty dictionary gives 1 and 50000. |
| Billing.SubscriptionFromHostedPage | api/organisations/chargebee/chargebee.py:82-88 | Present exactly when the page has content with a subscription, and then it is that subscription. |
| Billing.CustomerIdFromHostedPage | api/organisations/chargebee/chargebee.py:91-97 | Present exactly when the page has content with a customer, and then it is that customer's id. |
| Billing.PlanMetaData | api/organisations/chargebee/chargebee.py:108-118 | An empty plan id gives {} with no request. Otherwise one retrieve request is made, its API error propagates, and missing metadata gives {}. |
| Billing.SubscriptionDataFromHostedPage | api/organisations/chargebee/chargebee.py:58-74 | The hosted page is retrieved first. Without a subscription the result is empty. A plan-retrieval error propagates after the plan request. Otherwise the result is present and carries the subscription id, the plan, its limits, the customer id and the Chargebee payment method. |
| Billing.HostedPageDefaultLimits | api/organisations/chargebee/chargebee.py:58-74 | A plan without metadata gives 1 seat and 50000 API calls. |
| Billing.Quantity | api/organisations/chargebee/chargebee.py:168 | A missing or zero quantity counts as 1, and any other quantity as itself. |
| Billing.ComposeAddons | api/organisations/chargebee/chargebee.py:167-174 | Success comes exactly when every addon is known. Each entitlement is then the base plus the sum of addon times quantity, and the email is kept. On failure, the error is a KeyError for the first unknown addon. |
| Billing.ExtractSubscriptionMetadata | api/organisations/chargebee/chargebee.py:156-174 | An unknown plan raises KeyError. Success comes exactly when the plan and every addon are known. The result is the plan's entitlements plus the addon totals, with the customer's email. |
| Billing.NoAddonsGivesPlan | api/organisations/chargebee/chargebee.py:156-174 | Without addons, the result is the plan's metadata with the email. |
| Billing.SeatsExample | api/organisations/chargebee/chargebee.py:165-172 | A plan with 1 seat and a seat addon with quantity 3 gives 4 seats. |
| Billing.SubscriptionMetadataFromId | api/organisations/chargebee/chargebee.py:177-195 | A blank id (None, empty or whitespace) gives None without a request. Otherwise one retrieval is made; an API error gives None, a successful extraction gives its metadata, and a KeyError from extraction propagates as that error. |
| Billing.IsBlankId | api/organisations/chargebee/chargebee.py:180 | None and the empty string are blank; an id with any non-whitespace character is not. |
| Billing.BlankIdsMakeNoRequest | api/organisations/chargebee/chargebee.py:180-182 | "" and " \t\n" are blank. " sub_1 " is not blank and is sent unstripped. |
| Billing.CancelSubscriptionAtTermEnd | api/organisations/chargebee/chargebee.py:198-207 | One cancel request at the end of the term. Success exactly without an API error; any error becomes CannotCancelChargebeeSubscription. |
| Billing.SeatsError | api/organisations/chargebee/chargebee.py:239-254 | A payment failure exactly for the six payment codes, and an UpgradeSeatsError otherwise. |
| Billing.ApiUsageError | api/organisations/chargebee/chargebee.py:292-307 | A payment failure exactly for the six payment codes, and an UpgradeAPIUsageError otherwise. |
| Billing.CurrentQuantity | api/organisations/chargebee/chargebee.py:215-223 | 0 when no addon has the id; no quantity only when a matching addon has none. |
| Billing.CurrentQuantityIsFirstMatch | api/organisations/chargebee/chargebee.py:215-223 | The quantity of the first addon with the seat id, or 0 when none matches. |
| Billing.AddSingleSeat | api/organisations/chargebee/chargebee.py:210-254 | The subscription is retrieved first; a retrieval error is classified. The seat addon is then set to the current quantity plus one, prorated and not invoiced immediately. Success exactly when both calls succeed and the current quantity is known; a seat addon with no quantity fails after the retrieval alone, as `None + 1` does. |
| Billing.FirstExtraSeat | api/organisations/chargebee/chargebee.py:215-237 | A subscription without the seat addon asks for quantity 1. |
| Billing.Add100kApiCalls | api/organisations/chargebee/chargebee.py:269-307 | A count of 0 sends nothing. Otherwise one update sets the addon's quantity to the count, without proration. An error is classified. |
| Billing.Add100kApiCallsStartUp | api/organisations/chargebee/chargebee.py:257-260 | A count of 0 sends nothing; otherwise one non-prorated update sets the start-up addon to the count without invoicing immediately; an error is classified as for add_100k_api_calls. |
| Billing.Add100kApiCallsScaleUp | api/organisations/chargebee/chargebee.py:263-266 | A count of 0 sends nothing; otherwise one non-prorated update sets the scale-up addon to the count without invoicing immediately; an error is classified as for add_100k_api_calls. |
| Billing.WrappersDelegate | api/organisations/chargebee/chargebee.py:257-266 | Each wrapper equals add_100k_api_calls for its addon with invoice_immediately false, whatever flag it was given. |
| Billing.WrappersIgnoreInvoiceFlag | api/organisations/chargebee/chargebee.py:257-266 | The invoice_immediately argument of the wrappers has no effect. |
| Billing.PaymentCodesClassify | api/organisations/chargebee/chargebee.py:48-55 | Six payment codes. A listed code is a payment failure; an unlisted one is a generic error. |

## Left out

- Event tracking (the `track_*` handlers) and the recurring-task registration of `populate_bucket` (app_analytics/tasks.py:35-50). They only record raw events and schedule the two populate calls with fixed arguments.
- Database transactions, concurrency and the ORM: tables are maps and sequences.
- Time below one second; instants are whole UTC seconds.
- Bucketing.StartOfCurrentBucket: a bucket size of zero or less is excluded by a precondition. The source then divides by zero or takes a negative modulus, and it never calls the function that way.
- Retention.CleanUp: one `now` stands for the four separate `timezone.now()` calls. The retention periods are parameters.
- organisations/chargebee/metadata.py is not part of this model. `ChargebeeObjMetadata` is assumed to have three counted fields, 0 when absent, and an optional email. `+` is assumed to keep the left operand's email.
- organisations/chargebee/constants.py is not part of this model. The addon ids are a parameter record.
- `int()` parsing of metadata values: values are already integers.
- The thin client wrappers (`get_portal_url`, `get_customer_id_from_subscription_id`, `get_hosted_page_url_for_subscription_upgrade`, `get_hosted_page`, `_convert_chargebee_subscription_to_dictionary`), `datetime.fromtimestamp`, and logging. Dates stay integers, and converting a subscription to a dictionary is the record `SubscriptionDict`.
- Hosted-page subscriptions with missing keys: a present subscription always has its id, plan id and creation time.
- Billing.ExtractSubscriptionMetadata takes the resolved plan and addon maps. The lazy lookup that provides them is `ItemCache.Plans` / `ItemCache.Addons`. Setting `chargebee_email` on the cached plan object is modelled as copying the plan's metadata with the email set.
- Billing.IsWhitespace covers the ASCII and Unicode characters Python's `str.isspace` accepts, written out as a list. It does not use Unicode database lookups.
- ItemCache.ListFrom: listing errors of the provider are not modelled. A `fuel` bound on the number of requests replaces the unbounded generator loop, and a listing that needs more requests yields `None`.
- ItemCache.GetItems: eviction between the refresh and the re-read, and a cache backend that fails to store, are not modelled. The value read back is the value stored.
- The frontend, `client.py` and the other test files.
- A coarse bucket built from fine buckets is evidently meant to equal one built from raw events. The code selects fine rows by `(start, end]` on their start instants, which shifts the coarse window by one fine bucket (see Findings). The query as written is `Cascade.AsWrittenBucketSource` / `Cascade.AsWrittenSourceData`; the rollup job itself is modelled with the corrected `[start, end)` query, as the following lines say.
- Aggregation.SourceData: with a truthy `source_bucket_size` it uses the corrected bucket query `Aggregation.BucketSource` (`[start, end)` on row starts), not the `(start, end]` filter of tasks.py:225-228; the as-written query is `Cascade.AsWrittenSourceData`.
- Aggregation.Populate: reads its windows through `Aggregation.SourceData`, so a cascading run uses the corrected bucket query; its frame does not depend on the query, but it is proved only for this one.
- Aggregation.PopulateBucket: uses the corrected bucket query through `Aggregation.Populate`.
- Aggregation.PopulateApiUsageBucket: uses the corrected bucket query through `Aggregation.PopulateBucket`.
- Aggregation.PopulateFeatureEvaluationBucket: uses the corrected bucket query through `Aggregation.PopulateBucket`.
- RollupProperties.PopulateIdempotent: proved for the job with the corrected bucket query; the as-written job is not run twice in the model.

## Findings

| source | as written | input that shows it | evidently intended | confidence | as-written member | corrected member |
|---|---|---|---|---|---|---|
| api/app_analytics/tasks.py:225-234 | With `source_bucket_size` set, bucket rows are selected with `created_at > start and created_at <= end`. Bucket rows are stamped with their window START, so the coarse window (a, b] reads the fine rows of (a + fine, b + fine]: the first fine bucket of the window is dropped and the one after it is taken. The feature-evaluation query (lines 249-260) has the same filter. | One event with count 1 at 00:05, rolled into the 15-minute row stamped 00:00. The hourly window (00:00, 01:00] built from that row finds nothing, while the same window built from raw events finds a count of 1. | Select fine rows whose start lies in [start, end), so that a cascaded coarse bucket equals one built from raw events. | not executed | Cascade.AsWrittenCascadeShifted | Cascade.CascadeEndToEnd |
