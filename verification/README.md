# Neon: disk-usage eviction, generation numbers and range sums, in Dafny

This project models three small cores of the Neon storage system and proves
properties of them.

- **Disk-usage based eviction in the pageserver.** The modules are
  `DiskUsage`, `EvictionCandidates`, `EvictionIteration` and `Sorting`. They
  cover:
  - the pressure predicate over the filesystem's total and available bytes;
  - the per-tenant split of resident layers into the `Above` and `Below`
    partitions of the tenant's `min_resident_size`;
  - the final candidate order;
  - phase 1 of an eviction iteration, which plans how many candidates to
    evict;
  - the accounting of phase 2.
- **The attachment service's generation numbers.** The modules are
  `AttachmentService` and `Hex`. They cover:
  - the tenants map;
  - the re-attach, validate, attach-hook and inspect handlers, as methods of
    a `Service` class that owns the map;
  - the hex-keyed form of the map in the state file, and loading it.
- **The range-sum setting of the persistent range-query tests.** The module is
  `RangeSum`. It covers:
  - the `K(u8)` key helpers;
  - a naive array-backed storage with range add/assign, range sums and frozen
    snapshots;
  - the scenario `test_storage` asserts.

State that the source changes in place is modelled with classes and loops:
- the handlers' map;
- the partition loop with its running `cumsum`;
- the phase-1 loop with `usage_planned`, `warned` and `evicted_amount`;
- the storage's element array.

The pure parts are functions, with lemmas about them. Each loop is proved
equal to a specification function, and the properties are proved of that
function.

Where Rust's debug-build arithmetic panics, the result is `None` or the error
branch is modelled. This applies to the u8 and usize underflow in the key
helpers and the i32 overflow in `sum`.

Usage. The Rust `Usage` is a `Copy` struct that the iteration copies freely
(into `usage_planned`, `warned` and `usage_assumed`). So it is a value here,
and `add_available_bytes` returns the updated value.

The relative sort key. `relative_last_activity` is `(total - i) as f32 /
total as f32`. Here it is the exact fraction `(total - i) / total`, compared
by cross-multiplication. While a tenant has at most 2^24 layers, `total` and
`total - i` are exact in f32, and the one rounding of the quotient is
monotone. The exact order is then one of the orders the unstable sort may
produce. Beyond 2^24 layers the casts round too, and the model does not
follow them.

## Model

| member | source | states |
|---|---|---|
| DiskUsage.Usage.UsagePct | pageserver/src/disk_usage_eviction_task.rs:960-962 | the used percentage is at most 100. It is 0 when the capacity is 0 or the free space covers it. Otherwise it is the floor of 100·used/total |
| DiskUsage.Usage.HasPressure | pageserver/src/disk_usage_eviction_task.rs:960-976 | defined as available < min_avail_bytes or the used percentage at or above max_usage_pct; PressureIff restates it without the division |
| DiskUsage.PressureIff | pageserver/src/disk_usage_eviction_task.rs:960-976 | pressure holds iff available < min_avail_bytes, or max_usage_pct is 0, or available < total and used·100 ≥ max_usage_pct·total (the percentage threshold without the truncating division) |
| DiskUsage.Usage.AddAvailableBytes | pageserver/src/disk_usage_eviction_task.rs:978-980 | raises the available bytes by exactly the argument and leaves capacity and config unchanged |
| DiskUsage.UsagePctAntitone | pageserver/src/disk_usage_eviction_task.rs:960-980 | adding available bytes never raises the used percentage |
| DiskUsage.NoPressureIsStable | pageserver/src/disk_usage_eviction_task.rs:960-980 | once there is no pressure, adding available bytes keeps it that way |
| DiskUsage.MaxUsagePctPressure | pageserver/src/disk_usage_eviction_task.rs:1020-1058 | the unit test's sequence: with max 85% of 100000 bytes there is pressure at 100%, 86%, 85.001% and exactly 85%, and none at 84.999%, 84% and below |
| EvictionCandidates.HighestLayerCountLosesFirst | pageserver/src/disk_usage_eviction_task.rs:108-115 | defined as false for AbsoluteAccessed and the flag for RelativeAccessed |
| EvictionCandidates.Fudge | pageserver/src/disk_usage_eviction_task.rs:772-791 | the fudge is 0 or 1, and it is 0 exactly when the order is RelativeAccessed with highest_layer_count_loses_first set (false for AbsoluteAccessed) |
| EvictionCandidates.Total | pageserver/src/disk_usage_eviction_task.rs:793-798 | defined as len − fudge when that is positive and 1 otherwise (checked_sub, filter, unwrap_or(1)); its bounds are in TotalBounds |
| EvictionCandidates.TotalBounds | pageserver/src/disk_usage_eviction_task.rs:793-798 | the divider is at least 1, equals len − fudge whenever that is positive and is 1 otherwise; with a fudge of 0 or 1 every position i < len of the walk is at most it, so total − i never underflows |
| EvictionCandidates.MaxLayerSize | pageserver/src/disk_usage_eviction_task.rs:718-730 | an upper bound of the max_layer_size of every active timeline, attained by one of them, or 0 |
| EvictionCandidates.ResidentLayers | pageserver/src/disk_usage_eviction_task.rs:718-730 | defined as the resident layers of the active timelines, in listing order. Inactive timelines add nothing. GatherTenantLayers computes it |
| EvictionCandidates.GatherTenantLayers | pageserver/src/disk_usage_eviction_task.rs:717-731 | the timeline loop yields exactly the resident layers of the active timelines and their largest max_layer_size |
| EvictionCandidates.TenantLayersByRecency | pageserver/src/disk_usage_eviction_task.rs:766-767 | the tenant's layers are permuted into descending last_activity_ts order |
| EvictionCandidates.MostRecentFirst | pageserver/src/disk_usage_eviction_task.rs:766-767 | the sort key Reverse(last_activity_ts): a layer goes no later than another when it was used no earlier. MostRecentFirstIsTotalPreorder states it is a valid sort order |
| EvictionCandidates.MostRecentFirstIsTotalPreorder | pageserver/src/disk_usage_eviction_task.rs:766-767 | the Reverse(last_activity_ts) key is a total preorder |
| EvictionCandidates.PartitionLayers | pageserver/src/disk_usage_eviction_task.rs:800-834 | the walk yields one candidate per layer |
| EvictionCandidates.PartitionTenantLayers | pageserver/src/disk_usage_eviction_task.rs:768-834 | the cumsum loop pushes exactly the candidates of the partition specification |
| EvictionCandidates.SumSizesPrefixMonotone | pageserver/src/disk_usage_eviction_task.rs:827-833 | the running size sum only grows along the walk |
| EvictionCandidates.PartitionOf | pageserver/src/disk_usage_eviction_task.rs:827-831 | defined as Above exactly when the cumsum exceeds min_resident_size, and Below otherwise, the equal case included. PartitionShape states what this gives per layer |
| EvictionCandidates.PartitionShape | pageserver/src/disk_usage_eviction_task.rs:800-834 | layer i is Below iff the more recent layers sum to at most min_resident_size. The most recent layer is Below. Below never follows Above. The relative activity lies in [0,1], is 1 for the most recent layer, and is 0 under AbsoluteAccessed |
| EvictionCandidates.MinResidentSize | pageserver/src/disk_usage_eviction_task.rs:748-762 | defined as the tenant's override when set, else the largest layer size of its active timelines |
| EvictionCandidates.BelowIsReservation | pageserver/src/disk_usage_eviction_task.rs:748-834 | the Below layers are the most recent ones and, unless every layer is Below, their sizes exceed the tenant's min_resident_size (its override, else the max layer size) |
| EvictionCandidates.TenantCandidates | pageserver/src/disk_usage_eviction_task.rs:697-834 | defined as nothing for a tenant skipped as shutting down or unavailable, and otherwise its layers, most recent first, partitioned against its min_resident_size. CollectTenantCandidates computes it |
| EvictionCandidates.AllCandidates | pageserver/src/disk_usage_eviction_task.rs:691-834 | defined as the tenants' candidate lists joined in tenant order, as pushed before the final sort. CollectEvictionCandidates computes it, and EvictionCandidates sorts it |
| EvictionCandidates.EvictBefore | pageserver/src/disk_usage_eviction_task.rs:840-851 | defined as the (partition, key) order: Above goes before Below. Within a partition the key is last_activity_ts under AbsoluteAccessed, and relative_last_activity, compared exactly, otherwise. EvictionLeIsTotalPreorder states it is a valid sort order |
| EvictionCandidates.EvictionLe | pageserver/src/disk_usage_eviction_task.rs:840-851 | EvictBefore for a fixed eviction order, as the comparator the sort takes |
| EvictionCandidates.FractionLeTransitive | pageserver/src/disk_usage_eviction_task.rs:846-850 | comparing relative activities by cross-multiplication is transitive |
| EvictionCandidates.EvictionLeIsTotalPreorder | pageserver/src/disk_usage_eviction_task.rs:840-851 | the final (partition, key) order is a total preorder for both orders |
| EvictionCandidates.EvictionCandidates | pageserver/src/disk_usage_eviction_task.rs:837-851 | the result is a permutation of all pushed candidates, sorted by (partition, key) |
| EvictionCandidates.CandidateOrder | pageserver/src/disk_usage_eviction_task.rs:837-851 | after the sort every Above candidate precedes every Below one, and under AbsoluteAccessed each partition is in ascending last_activity_ts |
| EvictionCandidates.CollectTenantCandidates | pageserver/src/disk_usage_eviction_task.rs:716-834 | for a tenant that is not skipped, gathering, picking min_resident_size (the override, else the largest layer), sorting and partitioning push exactly that tenant's specified candidates |
| EvictionCandidates.CollectEvictionCandidates | pageserver/src/disk_usage_eviction_task.rs:682-854 | the tenant loop with partitioning and the final sort returns exactly the specified sorted candidate list |
| Sorting.Insert | pageserver/src/disk_usage_eviction_task.rs:840-851 | inserting into a sorted list keeps it sorted and adds exactly the element |
| Sorting.SortBy | pageserver/src/disk_usage_eviction_task.rs:840-851 | sort_unstable_by_key: a sorted permutation of the input |
| EvictionIteration.FirstBelow | pageserver/src/disk_usage_eviction_task.rs:396-399 | none iff every candidate is Above; otherwise the first Below position, with only Above before it |
| EvictionIteration.CandidateSizes | pageserver/src/disk_usage_eviction_task.rs:387-402 | defined as the total file size of the candidates, summed front to back. CandidateSizesAreLayerSizes ties it to SumSizes |
| EvictionIteration.LayersOf | pageserver/src/disk_usage_eviction_task.rs:387-402 | the candidates' layers, one per candidate and in the same order |
| EvictionIteration.CandidateSizesAreLayerSizes | pageserver/src/disk_usage_eviction_task.rs:387-402 | summing candidate sizes is summing their layers' sizes with SumSizes. The two sums are one concept over two element types |
| EvictionIteration.PlannedAfter | pageserver/src/disk_usage_eviction_task.rs:384-402 | defined as usage_planned after the first k candidates: usage_pre credited with exactly their sizes. SelectVictims and FallbackOnlyWhenAboveExhausted are stated through it |
| EvictionIteration.PlannedUsageAfter | pageserver/src/disk_usage_eviction_task.rs:405-414 | defined from the first Below position among the selected n: none gives (usage after n, no fallback); some b gives (usage after b, fallback usage after n); FallbackOnlyWhenAboveExhausted states what this means |
| EvictionIteration.SelectVictims | pageserver/src/disk_usage_eviction_task.rs:383-414 | selects a prefix no longer than the candidates. Every selected candidate was taken under pressure. If it stops early, the planned usage has no pressure. The planned usage records the point where the walk first reached into Below |
| EvictionIteration.SelectionIsUnique | pageserver/src/disk_usage_eviction_task.rs:383-403 | the prefix length satisfying the loop's exit conditions is unique: the shortest prefix that relieves pressure, or all candidates |
| EvictionIteration.FallbackOnlyWhenAboveExhausted | pageserver/src/disk_usage_eviction_task.rs:396-414 | fallback_to_global_lru is set iff a Below candidate was selected. Then respecting_tenant_min_resident_size is the usage planned just before the first Below candidate, still under pressure, after every Above candidate |
| EvictionIteration.PlannerFallbackOnlyWhenAboveExhausted | pageserver/src/disk_usage_eviction_task.rs:383-414 | the same facts for the candidate list that collection actually produces: there the Above-before-Below shape holds by construction, so only pressure on the selected prefix is needed |
| EvictionIteration.EvictLayers | pageserver/src/disk_usage_eviction_task.rs:441-461 | the assumed usage is credited with exactly the sizes of the layers evicted. Failed evictions are counted and summed. Panicked tasks are neither |
| EvictionIteration.SizesReporting | pageserver/src/disk_usage_eviction_task.rs:441-461 | defined as the total size of the evicted candidates whose task gave a given result. EvictLayers credits the Evicted sizes and sums the EvictionFailed ones with it |
| EvictionIteration.CountReporting | pageserver/src/disk_usage_eviction_task.rs:441-461 | defined as the number of tasks that gave a given result. EvictLayers counts the failures with it |
| EvictionIteration.AllEvictedIsAsPlanned | pageserver/src/disk_usage_eviction_task.rs:401-447 | when every eviction succeeds, the assumed usage equals the planned one and nothing failed |
| EvictionIteration.IterationImpl | pageserver/src/disk_usage_eviction_task.rs:323-558 | no pressure gives NoPressure with nothing selected. Otherwise phase 1's selection and planned usage as above, and phase 2 evicts exactly the selected prefix |
| Hex.EncodeBytes | control_plane/src/bin/attachment_service.rs:69 | hex encoding writes two digits per byte |
| Hex.TenantIdToHex | control_plane/src/bin/attachment_service.rs:69 | a tenant id is written as 32 hex digits |
| Hex.DigitValue | control_plane/src/bin/attachment_service.rs:85 | a character with a digit value has one below 16 |
| Hex.DecodePairs | control_plane/src/bin/attachment_service.rs:85 | decoding digit pairs yields half as many bytes |
| Hex.TenantIdFromHex | control_plane/src/bin/attachment_service.rs:85 | an odd length is OddLength; an even length other than 32 is InvalidStringLength |
| Hex.DigitRoundTrip | control_plane/src/bin/attachment_service.rs:69-85 | each lower-case digit decodes to its value |
| Hex.DigitAccepted | control_plane/src/bin/attachment_service.rs:85 | decoding accepts a character iff it is a hex digit of either case |
| Hex.UpperDigitRoundTrip | control_plane/src/bin/attachment_service.rs:85 | each upper-case digit decodes to the same value as its lower-case twin |
| Hex.DecodeEncodeBytes | control_plane/src/bin/attachment_service.rs:69-85 | decoding the encoding of any bytes gives them back |
| Hex.HexRoundTrip | control_plane/src/bin/attachment_service.rs:69-85 | TenantId::from_hex(hex::encode(id)) == id |
| Hex.HexRoundTripAll | control_plane/src/bin/attachment_service.rs:69-85 | the same, for all tenant ids at once |
| Hex.HexInjective | control_plane/src/bin/attachment_service.rs:69 | distinct tenant ids have distinct hex forms |
| Hex.NonDigitRejected | control_plane/src/bin/attachment_service.rs:85 | a string with a character that is not a hex digit is rejected |
| AttachmentService.Unsharded | control_plane/src/bin/attachment_service.rs:177-178 | defined as the tenant with shard number and count 0. Re-attach answers with these ids |
| AttachmentService.ReAttached | control_plane/src/bin/attachment_service.rs:173-182 | re-attach keeps the set of tenants |
| AttachmentService.ReAttachedEffect | control_plane/src/bin/attachment_service.rs:173-182 | every tenant on the calling node gets its generation incremented by exactly 1. Every other tenant is unchanged. No generation decreases |
| AttachmentService.AttachHooked | control_plane/src/bin/attachment_service.rs:228-256 | attach-hook adds the tenant to the map if it was unknown and touches no other key |
| AttachmentService.AttachHookedEffect | control_plane/src/bin/attachment_service.rs:228-257 | the tenant's pageserver becomes the requested node. Attaching increments the generation by exactly 1, so an unknown tenant's first attach gets 1. Detaching keeps it. No other tenant changes and no generation decreases |
| AttachmentService.ValidateResponse | control_plane/src/bin/attachment_service.rs:200-215 | defined over the requests in order, appending an answer for each known tenant with valid iff the stored generation equals the requested one; its meaning is stated by the lemmas below |
| AttachmentService.KnownIndices | control_plane/src/bin/attachment_service.rs:200-215 | the increasing positions of exactly the requests that name a known tenant |
| AttachmentService.ValidateAnswersInOrder | control_plane/src/bin/attachment_service.rs:200-215 | the response has exactly one answer per request naming a known tenant, and the k-th answer is for the k-th such request, carrying its id and valid iff its generation is the stored one |
| AttachmentService.ValidateResponseMeaning | control_plane/src/bin/attachment_service.rs:200-215 | the response has exactly one answer per request naming a known tenant, in request order, each with valid iff the requested generation is the stored one; requests for unknown tenants get no answer |
| AttachmentService.ValidateAnswersRequests | control_plane/src/bin/attachment_service.rs:200-215 | there are no more answers than requests, and every answer comes from a request for a known tenant, valid iff the generations match (multiplicity and order are stated by ValidateAnswersInOrder) |
| AttachmentService.ValidateAnswersAllKnown | control_plane/src/bin/attachment_service.rs:200-215 | every request for a known tenant is answered with its validity, and a request list naming only unknown tenants gets no answers |
| AttachmentService.StaleGenerationRefused | control_plane/src/bin/attachment_service.rs:173-215 | a generation handed out by attach-hook validates, and stops validating once its node re-attaches |
| AttachmentService.ToHexMap | control_plane/src/bin/attachment_service.rs:64-74 | every key written decodes to a tenant of the input, and carries that tenant's value |
| AttachmentService.ToHexMapEntry | control_plane/src/bin/attachment_service.rs:69-72 | every tenant is written under its hex form with its value |
| AttachmentService.DecodedIds | control_plane/src/bin/attachment_service.rs:82-89 | every key's decoded tenant id is among the decoded ids |
| AttachmentService.FromHexMap | control_plane/src/bin/attachment_service.rs:76-90 | fails iff some key is not a valid tenant id, with the error of such a key; otherwise its keys are exactly the decoded ids |
| AttachmentService.ToHexMapIdDecoded | control_plane/src/bin/attachment_service.rs:64-90 | each tenant of the map is among the ids its hex map decodes to |
| AttachmentService.ToHexMapDecodedIds | control_plane/src/bin/attachment_service.rs:64-90 | the keys written all decode, and they decode to exactly the original tenants |
| AttachmentService.ToHexMapValueOf | control_plane/src/bin/attachment_service.rs:64-90 | the value read back for a tenant is the one written |
| AttachmentService.HexMapRoundTrip | control_plane/src/bin/attachment_service.rs:64-90 | from_hex_map inverts to_hex_map on the tenants map |
| AttachmentService.LoadOrNew | control_plane/src/bin/attachment_service.rs:110-138 | a missing state file gives the empty map. An unreadable file fails. A stored file loads iff all its keys are tenant ids. When it loads, the result is exactly the map from_hex_map decodes from it |
| AttachmentService.SaveThenLoad | control_plane/src/bin/attachment_service.rs:64-138 | a file saved from a tenants map loads back as exactly that map |
| AttachmentService.Service.constructor | control_plane/src/bin/attachment_service.rs:148-152 | the service starts from the loaded map |
| AttachmentService.Service.ReAttach | control_plane/src/bin/attachment_service.rs:164-187 | the new map is the re-attach transition and no generation decreases. A failed save is an error. Otherwise the response lists exactly the tenants on the node with their new generations, each once |
| AttachmentService.Service.Validate | control_plane/src/bin/attachment_service.rs:191-218 | the answers, in request order, are those of the validate specification; the map is not modified |
| AttachmentService.Service.AttachHook | control_plane/src/bin/attachment_service.rs:222-274 | the new map is the attach-hook transition and no generation decreases. A failed save is an error. Otherwise the response is the new generation when attaching and none when detaching |
| AttachmentService.Attachment | control_plane/src/bin/attachment_service.rs:286 | defined as some (generation, pageserver) when the tenant is known and has a pageserver, else none |
| AttachmentService.Service.Inspect | control_plane/src/bin/attachment_service.rs:276-289 | the answer is Attachment of the current map: some (generation, node) iff the tenant is known and attached, with its stored values; the map is not modified |
| RangeSum.Index | libs/persistent_range_query/tests/rsq_test.rs:12-14 | defined iff the key is not below the range, and then start + index = key |
| RangeSum.ElementRange | libs/persistent_range_query/tests/rsq_test.rs:16-18 | defined iff the u8 additions do not overflow; then it is the one-key range at start + (index mod 256) |
| RangeSum.ElementRangeIndex | libs/persistent_range_query/tests/rsq_test.rs:11-19 | without overflow, the element range at position i holds exactly the keys whose index is i, and its start has index i |
| RangeSum.IndexElementRange | libs/persistent_range_query/tests/rsq_test.rs:11-19 | the element range at a key's index is the range holding just that key |
| RangeSum.Sum | libs/persistent_range_query/tests/rsq_test.rs:22-24 | fails iff the range is reversed or the i32 product overflows |
| RangeSum.SumIsTotalOfCopies | libs/persistent_range_query/tests/rsq_test.rs:21-25 | when neither the range nor i32 rules it out, the sum of same elements is the total of (end − start) copies of v |
| RangeSum.TotalOfCopies | libs/persistent_range_query/tests/rsq_test.rs:21-25 | n copies of v sum to v·n |
| RangeSum.Midpoint | libs/persistent_range_query/tests/rsq_test.rs:28-30 | defined iff the range is not reversed, and then between start and end |
| RangeSum.MidpointSplits | libs/persistent_range_query/tests/rsq_test.rs:27-31 | for a non-empty range the midpoint lies in [start, end). For two or more keys it leaves both halves non-empty, the left one smaller by at most one |
| RangeSum.ApplyOne | libs/persistent_range_query/tests/rsq_test.rs:39-46 | defined as the element after one modification: Add(d) adds d and Assign(v) replaces it by v |
| RangeSum.Apply | libs/persistent_range_query/tests/rsq_test.rs:39-46 | defined as applying the modification to positions lo..hi and leaving the others as they are, keeping the length. ApplyAddTotal and ApplyAssignTotal state what it does to the sum |
| RangeSum.ApplyAddTotal | libs/persistent_range_query/tests/rsq_test.rs:39-40 | an Add(v) over lo..hi raises the total by v·(hi − lo) |
| RangeSum.ApplyAssignTotal | libs/persistent_range_query/tests/rsq_test.rs:43-44 | an Assign(v) over lo..hi replaces that range's sum by v·(hi − lo) |
| RangeSum.AssignOverrides | libs/persistent_range_query/tests/rsq_test.rs:43-44 | an assign erases any earlier modification of the same range |
| RangeSum.AddsCombine | libs/persistent_range_query/tests/rsq_test.rs:39-47 | two adds over a range are one add of their sum |
| RangeSum.NaiveStorage.constructor | libs/persistent_range_query/tests/rsq_test.rs:36 | a fresh storage with every element equal to the initial value |
| RangeSum.NaiveStorage.Modify | libs/persistent_range_query/tests/rsq_test.rs:39-46 | the elements become the modification applied to the range, and the others stay as they were |
| RangeSum.NaiveStorage.Get | libs/persistent_range_query/tests/rsq_test.rs:37-50 | the sum of the range's elements |
| RangeSum.NaiveStorage.Freeze | libs/persistent_range_query/tests/rsq_test.rs:41-50 | a snapshot with the same elements in an array of its own, which later modifications of the storage cannot reach |
| RangeSum.ModifyThenSum | libs/persistent_range_query/tests/rsq_test.rs:39-47 | one step of the test: modify, then the sum over all keys |
| RangeSum.TestStorageContents | libs/persistent_range_query/tests/rsq_test.rs:36-47 | the elements after each of the test's modifications |
| RangeSum.TestStorageSums | libs/persistent_range_query/tests/rsq_test.rs:36-50 | the totals 0, 9, 33 and 39, the 4..6 sum of 24, and the frozen 4..6 sum of 3 |
| RangeSum.TestStorage | libs/persistent_range_query/tests/rsq_test.rs:33-56 | the naive storage produces the six sums the test asserts, the frozen one included |

## Left out

- Phase 2's concurrency is not modelled: the `JoinSet` with its limit of 1000, the 5-second per-layer timeout, the nag loop, `yield_now` and cancellation. Each spawned eviction's report is an input, and the reports are summed in candidate order; the sums do not depend on the order.
- The periodic task loop, `launch_disk_usage_global_eviction_task` and the `State` mutex's `try_lock` are left out: they exist for timing and concurrency.
- `IterationOutcome::Cancelled` and the cancellation checks in `collect_eviction_candidates` are left out: cancellation is not modelled.
- `filesystem_level_usage::get` (statvfs) is left out: the usage before the iteration is a parameter.
- The tenant and timeline listing through the tenant manager is a foreign call. Its result is the input `seq<TenantInfo>`; a tenant that is gone or shutting down is flagged `skipped`.
- `DiskUsage.Usage.UsagePct`: the f64 computation is modelled as an exact integer floor. It agrees with the unit test's points, but not with f64 rounding in every case. For example, with 34 of 100 bytes available (66% used), f64 computes 65.99999999999999, which truncates to 65 while the model gives 66. So with max_usage_pct 66 the source reports no pressure and the model reports pressure.
- `EvictionCandidates.PartitionLayers`: `relative_last_activity` is an exact fraction, not a `FiniteF32`. Its invalid-value warning never fires, because the fraction always lies in [0, 1].
- `Sorting.SortBy`: both `sort_unstable_by_key` calls are modelled as a pure insertion sort returning a new sequence, not an in-place sort of the `Vec`. It yields one admissible order among ties.
- `DiskUsage.Usage.AddAvailableBytes`: u64 overflow of `avail_bytes += bytes` is not modelled, since sizes are unbounded naturals. The i128 `cumsum` cannot overflow in practice and is a natural too.
- `AttachmentService.Service.ReAttach` and `AttachmentService.Service.AttachHook` do not model u32 overflow of `generation += 1`, since generations are unbounded naturals.
- `AttachmentService.Service.ReAttach`: the response order is HashMap iteration order, so the model does not fix it. The contract states the response's contents and that each tenant appears once.
- HTTP routing, JSON request and response plumbing, `save` and `load` file I/O, the `RwLock`, `main` and signal handling are left out. The outcome of `save` is a boolean parameter, and the state file is the `StateFile` value that was read.
- `AttachmentService.FromHexMap`: two keys that decode to the same tenant (hex digits of different case) are possible. Which value survives then depends on iteration order; the model picks one of their values and states nothing about which.
- `Hex.TenantIdFromHex`: the hex crate and utils/id.rs are not part of this model. Their behaviour is taken from the error kinds the attachment service relies on: odd length, wrong length, invalid character. Lengths are counted in characters, whereas Rust counts bytes, so non-ASCII input is not modelled exactly.
- `Hex.EncodeBytes` states the length of the encoding, and lower case only through the round trip, not digit by digit.
- `RangeSum.NaiveStorage.Modify`: the i32 overflow of stored values under `Add` is not modelled, since elements are unbounded integers. `Get` and `Modify` require the range to lie within the storage's keys.
- The `PersistentSegmentTree` and `NaiveVecStorage` implementations are not part of this model. The storage here is a reference that meets the contract `test_storage` asserts; the segment tree's equivalence to it is not stated.
- `pageserver/pagebench/src/getpage_latest_lsn.rs` is left out. It is a benchmark driver (network clients, threads, randomness).
- The Python regression tests are left out: they drive servers end to end, and the code they exercise is not part of this model.
- `pgxn/neon/neon_utils.h` is left out: it holds declarations only.
