# A verified model of the evolve-sdk-python network core

This project models four small, sequential parts of the Zepben evolve SDK in
Dafny:

- **Terminals** (`terminal.dfy`, module `Terminals`). A terminal has a
  set-once link to its owning conducting equipment and a weak link to the
  connectivity node it is plugged into. The weak link is modelled as a
  handle into an arena of nodes, each with a liveness flag. Following a link
  to a released node yields "no node" and does not fail.
- **Customer agreements** (`customer_agreement.dfy`, module
  `CustomerAgreements`). An agreement holds a collection of pricing
  structures keyed by mRID. The collection is either absent (`None`) or a
  non-empty set. Pure step functions say what add, remove and clear do to
  that storage. The `CustomerAgreement` class's methods are proved to
  perform exactly those steps.
- **Metrics store** (`metrics_store.dfy`, module `MetricsStores`).
  - Meter readings are grouped into fixed-width time buckets.
  - Bucket arithmetic uses Python's floored `%`, modelled explicitly for
    every width: positive, negative, and zero (a zero width raises
    `ZeroDivisionError`).
  - The sorted bucket list is proved to be the unique ascending listing of
    the bucket times.
  - Python dicts iterate in insertion order, so each dict is modelled as a
    map plus the order in which its keys were first inserted.
- **Streaming** (`streaming.dfy`, module `Streaming`). `retrieve_network`
  walks a stream of records into a fresh equipment container. For each
  record, the first present field in the order `es, ec, pt, acls, br, bv,
  ai, si, up, mt` selects one insert routine. The if/elif chain is a method
  proved against a reference function driven by that priority list.

`wrappers.dfy` (module `Wrappers`) holds `Option`, `Result` and `Outcome`,
plus the Python exceptions the code raises.

Within a bucket, `ascending_iteration` (documented as yielding meters by
bucket time in ascending order) yields the meters in the bucket dict's
insertion order, and that is what is modelled. In Python,
`ascending_iteration` and `__iter__` are generators, so each call builds a
fresh generator. The model returns the whole sequence from each call and
proves that every call on an unchanged store returns the same sequence, and
that it is non-empty once the store holds a reading. `disconnect` is named
as the inverse of `connect`, but as written it fails (see Findings).

## Model

| member | source | states |
|---|---|---|
| Terminals.Deref | src/zepben/evolve/model/cim/iec61970/base/core/terminal.py:71-76 | Following a weak link yields the node exactly when the link is set and the node is alive. Otherwise it yields no node, and it never fails. |
| Terminals.DerefAfterRelease | src/zepben/evolve/model/cim/iec61970/base/core/terminal.py:47-49 | After the owner releases a node, every link to it reads as no node. Every other link reads as before. |
| Terminals.DerefAfterAllocate | src/zepben/evolve/model/cim/iec61970/base/core/terminal.py:47-49 | Creating a node changes no existing link, and the new node's handle reads as that node. |
| Terminals.NodeArena.Release | src/zepben/evolve/model/cim/iec61970/base/core/terminal.py:47-49 | The owner dropping a node marks that node dead and leaves every other node alone. |
| Terminals.NodeArena.Allocate | src/zepben/evolve/model/cim/iec61970/base/core/terminal.py:47-49 | A new node is live, is appended to the arena, and gets the next handle. |
| Terminals.Terminal.constructor | src/zepben/evolve/model/cim/iec61970/base/core/terminal.py:51-54 | A new terminal has the given owner, and the given node link when one is given. |
| Terminals.Terminal.SetConductingEquipment | src/zepben/evolve/model/cim/iec61970/base/core/terminal.py:64-69 | The owner assignment succeeds exactly when the link is unset or already holds the same object, and then the link holds it. Otherwise it raises `ValueError` and the link is unchanged. |
| Terminals.SetOwner | src/zepben/evolve/model/cim/iec61970/base/core/terminal.py:66-69 | Defines the owner assignment as a value: the new link when the link is unset or already holds the same object, `ValueError` otherwise. There is no contract of its own; `SetConductingEquipment` is proved to agree with it, and `SetOwnerOnceSet`, `OwnerIsSetOnce` and `OwnerIsFirstAssigned` are about it. |
| Terminals.SetOwnerOnceSet | src/zepben/evolve/model/cim/iec61970/base/core/terminal.py:66-69 | Once an owner is set, re-assigning it succeeds and any other assignment raises `ValueError`. |
| Terminals.OwnerIsSetOnce | src/zepben/evolve/model/cim/iec61970/base/core/terminal.py:64-69 | Once set, the owner survives any sequence of later assignment attempts. |
| Terminals.OwnerIsFirstAssigned | src/zepben/evolve/model/cim/iec61970/base/core/terminal.py:64-69 | Starting unset, the owner after any sequence of attempts is the first non-`None` equipment assigned. |
| Terminals.Terminal.ConnectivityNode | src/zepben/evolve/model/cim/iec61970/base/core/terminal.py:71-76 | The getter yields the linked node while it is alive, and no node when the link was never set or the node is gone. |
| Terminals.Terminal.SetConnectivityNode | src/zepben/evolve/model/cim/iec61970/base/core/terminal.py:78-80 | Setting a node re-points the link. Setting `None` raises `TypeError` (from `weakref.ref(None)`) and leaves the link unchanged. |
| Terminals.Terminal.Connected | src/zepben/evolve/model/cim/iec61970/base/core/terminal.py:82-86 | True exactly when the link is set and its node is alive. |
| Terminals.Terminal.ConnectivityNodeId | src/zepben/evolve/model/cim/iec61970/base/core/terminal.py:88-90 | The node's mRID exactly when the terminal is connected, otherwise `None`. |
| Terminals.Terminal.OtherTerminals | src/zepben/evolve/model/cim/iec61970/base/core/terminal.py:106-107 | The equipment's terminals with every copy of this terminal removed and nothing else dropped (as multisets and by membership). Reading it with no owner set raises `AttributeError`. |
| Terminals.Without | src/zepben/evolve/model/cim/iec61970/base/core/terminal.py:107 | Defines the comprehension `[t for t in s if t is not x]` recursively. There is no contract of its own; `WithoutCounts`, `WithoutMembers` and `WithoutAppend` state what it keeps. |
| Terminals.WithoutCounts | src/zepben/evolve/model/cim/iec61970/base/core/terminal.py:107 | The filter removes all and only the copies of the excluded element: every other element keeps its multiplicity, and the length drops by exactly the number of copies. |
| Terminals.WithoutMembers | src/zepben/evolve/model/cim/iec61970/base/core/terminal.py:107 | An element survives the filter exactly when it occurs and is not the excluded one. |
| Terminals.WithoutAppend | src/zepben/evolve/model/cim/iec61970/base/core/terminal.py:107 | The filter distributes over concatenation, so the kept elements stay in their original order. |
| Terminals.Terminal.Connect | src/zepben/evolve/model/cim/iec61970/base/core/terminal.py:109-110 | `connect` re-points the link to the given node unconditionally. |
| Terminals.Terminal.DisconnectAsWritten | src/zepben/evolve/model/cim/iec61970/base/core/terminal.py:112-113 | `disconnect` as written raises `TypeError` and leaves the link as it was. |
| Terminals.Terminal.Disconnect | src/zepben/evolve/model/cim/iec61970/base/core/terminal.py:112-113 | `disconnect` as intended leaves the terminal with no link. |
| CustomerAgreements.Count | src/zepben/cimbend/cim/iec61968/customers/customer_agreement.py:43-49 | The count is the number of members, with absent storage counted as 0. Under the storage invariant it is 0 exactly when the storage is absent. |
| CustomerAgreements.CustomerAgreement.NumPricingStructures | src/zepben/cimbend/cim/iec61968/customers/customer_agreement.py:43-49 | The agreement's count is its number of pricing structures, and it is 0 exactly when the storage is absent. |
| CustomerAgreements.CustomerAgreement.PricingStructures | src/zepben/cimbend/cim/iec61968/customers/customer_agreement.py:51-56 | The pricing structures are the stored set, or none when the storage is absent. |
| CustomerAgreements.GetByMrid | src/zepben/cimbend/cim/iec61968/customers/customer_agreement.py:58-67 | Lookup succeeds exactly when some member has the mRID and returns that member; it is the only possible result. Otherwise lookup raises `KeyError`. |
| CustomerAgreements.AddStep | src/zepben/cimbend/cim/iec61968/customers/customer_agreement.py:69-79 | Defines the add step: a duplicate mRID raises `ValueError` with the storage unchanged, and otherwise the storage gains `ps`. There is no contract of its own; `AddStepSpec` states its properties. |
| CustomerAgreements.RemoveStep | src/zepben/cimbend/cim/iec61968/customers/customer_agreement.py:81-95 | Defines the remove step: `KeyError` for absent storage or a non-member, and storage that becomes absent when the last member goes. There is no contract of its own; `RemoveStepSpec` states its properties. |
| CustomerAgreements.Apply | src/zepben/cimbend/cim/iec61968/customers/customer_agreement.py:69-103 | One add, remove or clear as a step; clear always makes the storage absent. There is no contract of its own; `RunKeepsWellFormed` and `RunCount` are about runs of it. |
| CustomerAgreements.Run | src/zepben/cimbend/cim/iec61968/customers/customer_agreement.py:69-103 | The storage after a sequence of operations, failed ones leaving it as it was. There is no contract of its own; `RunKeepsWellFormed` and `RunCount` state its properties. |
| CustomerAgreements.CustomerAgreement.GetPricingStructure | src/zepben/cimbend/cim/iec61968/customers/customer_agreement.py:58-67 | The agreement returns the member with the mRID, or raises `KeyError` when none has it. |
| CustomerAgreements.AddStepSpec | src/zepben/cimbend/cim/iec61968/customers/customer_agreement.py:69-79 | A duplicate mRID raises `ValueError` and leaves the storage untouched. Otherwise storage is allocated if needed, exactly `ps` is added, the count rises by one and the invariant holds. |
| CustomerAgreements.CustomerAgreement.AddPricingStructure | src/zepben/cimbend/cim/iec61968/customers/customer_agreement.py:69-79 | The new storage and the outcome are exactly those of the add step, and the invariant is kept. |
| CustomerAgreements.RemoveStepSpec | src/zepben/cimbend/cim/iec61968/customers/customer_agreement.py:81-95 | Removing from absent storage, or removing a non-member, raises `KeyError` and changes nothing. Otherwise exactly that member is removed, the count drops by one, and removing the last member makes the storage absent. |
| CustomerAgreements.CustomerAgreement.RemovePricingStructure | src/zepben/cimbend/cim/iec61968/customers/customer_agreement.py:81-95 | The new storage and the outcome are exactly those of the remove step, and the invariant is kept. |
| CustomerAgreements.CustomerAgreement.ClearPricingStructures | src/zepben/cimbend/cim/iec61968/customers/customer_agreement.py:97-103 | Clearing makes the storage absent and the count 0. |
| CustomerAgreements.CustomerAgreement.constructor | src/zepben/cimbend/cim/iec61968/customers/customer_agreement.py:41 | A new agreement has absent storage. |
| CustomerAgreements.RunKeepsWellFormed | src/zepben/cimbend/cim/iec61968/customers/customer_agreement.py:69-103 | After any sequence of adds, removes and clears, no two members share an mRID and the storage is never an allocated empty set. |
| CustomerAgreements.RunCount | src/zepben/cimbend/cim/iec61968/customers/customer_agreement.py:69-95 | Without clears, the final count is the initial count plus successful adds minus successful removes. |
| MetricsStores.MetricsStore.constructor | src/zepben/model/metrics_store.py:28-32 | A fresh store has the given width, no buckets, no bucket times and no meters. |
| MetricsStores.PyMod | src/zepben/model/metrics_store.py:38 | Python's `%` takes the sign of the divisor: in `[0, d)` for positive `d`, in `(d, 0]` for negative `d`. The dividend minus the remainder is a multiple of `d`. |
| MetricsStores.BucketOf | src/zepben/model/metrics_store.py:34-38 | Defines `_get_bucket` as `t - t % d` with Python's floored `%`, and `ZeroDivisionError` for a zero width. There is no contract of its own; `BucketBounds`, `BucketBoundsNegative`, `SameWindowSameBucket` and `BucketIsOwnBucket` state its properties. |
| MetricsStores.BucketBounds | src/zepben/model/metrics_store.py:34-38 | For a positive width, the bucket is a multiple of the width, is at most the timestamp, and is less than one width before it. |
| MetricsStores.BucketBoundsNegative | src/zepben/model/metrics_store.py:34-38 | For a negative width, the bucket is a multiple of the width, is at least the timestamp, and is less than one width after it. |
| MetricsStores.SameWindowSameBucket | src/zepben/model/metrics_store.py:34-38 | Two timestamps in the same window `[k*d, k*d + d)` share the bucket `k*d`. |
| MetricsStores.BucketIsOwnBucket | src/zepben/model/metrics_store.py:34-38 | A bucket start falls in its own bucket, so bucketing is idempotent. |
| MetricsStores.DefaultBucketExamples | src/zepben/model/metrics_store.py:28-38 | With the default width of 5000, timestamps 1000 and 4999 go to bucket 0, and 5000 and 6000 go to bucket 5000. |
| MetricsStores.MetricsStore.GetBucket | src/zepben/model/metrics_store.py:34-38 | The store's bucket for a timestamp is a multiple of its width and starts the window holding the timestamp. A zero width raises `ZeroDivisionError`. |
| MetricsStores.SortedSeq | src/zepben/model/metrics_store.py:71-72 | `sorted` of a set of bucket times is strictly ascending and has exactly the set's elements, each once. |
| MetricsStores.SortedSeqUnique | src/zepben/model/metrics_store.py:71-72 | Any strictly ascending listing of a set's elements equals its sorted list. |
| MetricsStores.TwoBucketsAscending | src/zepben/model/metrics_store.py:71-72 | The bucket times 0 and 5000 are listed as 0, then 5000. |
| MetricsStores.MetricsStore.Buckets | src/zepben/model/metrics_store.py:62-72 | `buckets` holds the bucket times present, each once, in strictly ascending order. |
| MetricsStores.MetricsStore.Meters | src/zepben/model/metrics_store.py:40-49 | `meters` is every bucket's meters, buckets in creation order. Its length is the sum of the buckets' meter counts, and it holds the same meters as the ascending iteration. |
| MetricsStores.FlattenLength | src/zepben/model/metrics_store.py:40-49 | The flattened meters are exactly as many as the buckets' meter counts add up to. |
| MetricsStores.Flatten | src/zepben/model/metrics_store.py:46-49 | Defines the meters of the listed buckets, bucket by bucket in the listed order, each bucket's in insertion order. There is no contract of its own; `FlattenLength`, `FlattenAppend`, `FlattenPermutation` and `FlattenNonEmpty` state its properties. |
| MetricsStores.FlattenNonEmpty | src/zepben/model/metrics_store.py:79-81 | A listed bucket holding at least one meter makes the flattened meters non-empty. |
| MetricsStores.NonEmptyStoreYieldsMeters | src/zepben/model/metrics_store.py:74-90 | A store holding any bucket (so, having filed a reading) yields at least one meter when its buckets are listed in ascending order. |
| MetricsStores.FlattenPermutation | src/zepben/model/metrics_store.py:40-49 | Listing the same buckets in another order yields the same meters, as a multiset. |
| MetricsStores.InsertionOrderPermutesAscending | src/zepben/model/metrics_store.py:40-49 | Traversing buckets in creation order and in ascending order yields the same meters, as a multiset. |
| MetricsStores.FlattenAppend | src/zepben/model/metrics_store.py:79-81 | Traversing two lists of buckets one after the other yields the first list's meters followed by the second's. |
| MetricsStores.Traverse | src/zepben/model/metrics_store.py:79-81 | The nested loop over the listed buckets and then over each bucket's meters yields exactly the flattened meters of those buckets, in order. |
| MetricsStores.MetricsStore.AscendingIteration | src/zepben/model/metrics_store.py:74-81 | `ascending_iteration` yields each bucket's meters, buckets in ascending time. Every call on an unchanged store yields the same sequence, and it is non-empty whenever the store holds a bucket. |
| MetricsStores.MetricsStore.Iterate | src/zepben/model/metrics_store.py:51-54 | `__iter__` yields the same sequence as `ascending_iteration`, which is non-empty whenever the store holds a bucket. |
| MetricsStores.MetricsStore.StoreMeterReading | src/zepben/model/metrics_store.py:83-90 | A zero width raises `ZeroDivisionError` and changes nothing. Otherwise the reading is filed under its bucket, and only that bucket changes. The bucket times gain that bucket and still equal the store's keys. A new bucket is appended to the creation order. |
| MetricsStores.AddToBucketSpec | src/zepben/model/metrics_store.py:85-89 | The bucket reuses the meter already present for the mRID, or creates exactly one new meter at the end. That meter gains the reading, and every other meter is unchanged. |
| MetricsStores.AddToBucket | src/zepben/model/metrics_store.py:85-89 | Defines the bucket-level part of `store_meter_reading`: take the meter for the mRID or a new one, add the reading, and put it back. There is no contract of its own; `AddToBucketSpec` states its properties. |
| MetricsStores.Put | src/zepben/model/metrics_store.py:89 | Defines dict assignment `bucket[mrid] = meter`: a new key goes to the end of the key order, and an existing key keeps its place. There is no contract of its own; `AddToBucketSpec` states its effect. |
| MetricsStores.InsertKeepsShape | src/zepben/model/metrics_store.py:86-90 | Writing a well-formed bucket keeps the store's shape: every key is listed once in creation order, a new key goes at the end, and every bucket still holds a meter. |
| Streaming.DispatchSpec | src/zepben/model/streaming.py:36-55 | A record triggers a call exactly when it carries a known field. The call uses the present known field earliest in the priority order, with that field's payload. |
| Streaming.Dispatch | src/zepben/model/streaming.py:36-55 | Defines the insert call one record triggers, through the chain over the priority list. There is no contract of its own; `DispatchSpec` states its properties. |
| Streaming.DispatchFrom | src/zepben/model/streaming.py:36-55 | Defines the if/elif chain from a position of the priority list on: the first present field there, with its payload, or no call. There is no contract of its own; `DispatchFromFirstIndex` relates it to `FirstIndex`. |
| Streaming.FirstIndex | src/zepben/model/streaming.py:36-55 | The index it returns is the first position of the priority list, from the given one on, whose field is present, or the list's length when there is none. |
| Streaming.DispatchFromFirstIndex | src/zepben/model/streaming.py:36-55 | The chain dispatches the field at the first present index, with its payload, and makes no call when no index is present. |
| Streaming.DispatchPicks | src/zepben/model/streaming.py:36-55 | A present known field that outranks every other present known field is the one dispatched, and it is the record's only call. |
| Streaming.DispatchSkips | src/zepben/model/streaming.py:36-55 | A record with none of the ten known fields triggers no call. |
| Streaming.SkippedRecordNoCalls | src/zepben/model/streaming.py:36-55 | A record without a known field is skipped silently: no call and no error. |
| Streaming.SkippedRecordAddsNothing | src/zepben/model/streaming.py:35-55 | Removing a record that has no known field from anywhere in the stream leaves the calls unchanged. |
| Streaming.DispatchAllAppend | src/zepben/model/streaming.py:35-55 | Calls happen in stream order: two consecutive parts of a stream make the first part's calls, then the second's. |
| Streaming.DispatchAll | src/zepben/model/streaming.py:35-55 | Defines the calls a stream triggers, record by record in stream order. There is no contract of its own; `DispatchAllAppend`, `DispatchAllIsKnownRecords` and `SkippedRecordAddsNothing` state its properties. |
| Streaming.DispatchAllIsKnownRecords | src/zepben/model/streaming.py:35-55 | There is one call per record carrying a known field, and the k-th call is the dispatch of the k-th such record. |
| Streaming.InsertRecord | src/zepben/model/streaming.py:36-55 | The if/elif chain appends exactly the record's dispatched call, or nothing, to the container's log. |
| Streaming.RetrieveNetwork | src/zepben/model/streaming.py:33-56 | The result is a new container holding a new metrics store of the default width, created empty. Its calls are the dispatches of the whole stream, in order. The store is still empty at the end only because the insert routines are assumed not to touch it (see Left out). |
| Streaming.EquipmentContainer.constructor | src/zepben/model/streaming.py:33 | A new container holds the given metrics store and has made no calls. |
| Streaming.EquipmentContainer.AddPb | src/zepben/model/streaming.py:36-55 | Stands in for the ten `add_pb_*` calls: each call appends the field that selected it and its payload to the container's log, and changes nothing else. |
| Streaming.MixedStreamCalls | src/zepben/model/streaming.py:35-55 | A record with both `mt` and `ec` is dispatched as `ec`, and a following record with only an unknown field adds nothing. |
| Streaming.ConsumerOutranksMeter | src/zepben/model/streaming.py:38-55 | A record carrying only `ec` and `mt` is dispatched as `ec`, with the `ec` payload. |

## Left out

- Python garbage collection is not modelled. `weakref` liveness is an explicit flag in the node arena, and the network container's release of a node is `NodeArena.Release`.
- The truthiness of a live connectivity node is not modelled. `connected` and `__init__` test it with `if`, and the model assumes every live node is truthy, since connectivity_node.py is not part of this model.
- `Terminal.get_switch` and `Terminal.base_voltage` are left out. They only delegate to `ConnectivityNode` and `ConductingEquipment` methods that are not part of this model.
- `Terminal.phases`, `sequence_number` and `traced_phases` are left out. They are plain defaults of foreign types (`PhaseCode`, `TracedPhases`) with no logic here.
- The `ConductingEquipment` class is reduced to its mRID and its ordered terminal list. conducting_equipment.py is not part of this model.
- The exception raised by `require` is assumed to be `ValueError`. It is the duplicate-mRID failure of `add_pricing_structure`, and util.py is not part of this model. `get_by_mrid` is likewise assumed to raise `KeyError`, as its docstring says.
- The fluent `return self` of the agreement's methods is not modelled. The methods return an outcome instead.
- CustomerAgreements.CustomerAgreement.constructor: only agreements created with absent storage are modelled. `CustomerAgreement` is a dataclass, so its generated `__init__` also accepts `customer` and `_pricing_structures` arguments. Passing an allocated empty set, or a set with two members sharing an mRID, would break the storage invariant that every method here requires. The `customer` field is not modelled.
- A pricing structure is reduced to a value with an mRID and a name, so set membership is value equality.
- `pricing_structures` is a generator over the stored set. It is modelled as returning that set, since the set has no order to keep.
- The protobuf distinction between absent and empty is not modelled. Only the `None` versus set distinction of the storage is.
- `MetricsStore.__next__` is left out. As a generator inside `__next__`, its behaviour is a quirk of the iterator protocol rather than a contract.
- `MetricsStore._ordered_buckets` is left out. It is initialised and never read.
- The internals of `Meter.add_reading` are left out. meter_reading.py is not part of this model, so adding a reading is modelled as appending it to the meter's readings.
- Meters are values, not shared objects, so aliasing is not modelled. `meters`, `ascending_iteration` and `__iter__` hand out the live `Meter` objects, and a later `store_meter_reading` for the same bucket and mRID changes such an object in place. A caller holding an earlier result therefore sees the new reading. The model's returned sequences are snapshots and do not show that.
- MetricsStores.MetricsStore.AscendingIteration: the model does not capture generator laziness. The generators `ascending_iteration` and `__iter__` are modelled as methods returning the whole sequence they would yield, with one shared nested-loop `Traverse`.
- The RPC call is not modelled, and the model does not stream records as they arrive. `retrieve_network` takes the already-received stream as a sequence.
- Streaming.RetrieveNetwork: the insert routines are assumed to change only the container's record of calls, not its metrics store. The `add_pb_*` bodies are not part of this model and `add_pb_meter` may touch the store, so only its emptiness at creation comes from `retrieve_network` itself.
- The bodies of `EquipmentContainer.add_pb_*` are left out. They are not part of this model, so the ten routines are one logging method, `AddPb`, that records the field that selected it and the payload.
- Record payloads are abstracted as strings. They are unseen protobuf messages.
- generate_pb.py is left out: it is a build script that drives the protobuf compiler.
- phase_shunt_connection_kind.py is left out: it is an enum whose only behaviour is a slice of its name.
- organisation_role.py is left out: it only holds data.

## Findings

| source | as written | input that shows it | evidently intended | confidence | as-written member | corrected member |
|---|---|---|---|---|---|---|
| src/zepben/evolve/model/cim/iec61970/base/core/terminal.py:112-113 | `disconnect` assigns `None` through the `connectivity_node` setter, which wraps its argument with `weakref.ref`. That raises `TypeError` for `None`, so the call fails and the link still points at the old node. | A terminal connected to a live node, then `disconnect()` is called: it raises, and `connected` is still true (`Terminals.DisconnectScenario`). | `disconnect` clears the link, so the terminal afterwards reads as unconnected with no node id. | not executed | Terminals.Terminal.DisconnectAsWritten | Terminals.Terminal.Disconnect |
