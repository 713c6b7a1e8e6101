# wrkr, modelled and proved in Dafny

wrkr is a load-testing tool: scripts describe scenarios, virtual users run them against HTTP and gRPC
services, metrics are collected and checked against thresholds. This project models the parts of it where a
mistake would be hardest to see from outside, and proves what they promise.

* **Wire codec** (`Words`, `Values`, `Utf8`, `Primitives`, `Schema`, `Coercion`, `Decoding`, `Encoding`,
  `Merging`, `Conversions`, `RoundTrip`, `WireFormat`, `MethodCodec`). The hand-written Protocol Buffers encoder
  and decoder for dynamic values. Decoding is a function that imperative methods over buffers compute. Encoding
  is a relation between a value and bytes, true of every order a hash map may be iterated in, and the imperative
  encoder is proved to stay inside it and to fail exactly when the value is not encodable. `Conversions` says
  what a value is received as where another kind was asked for, `WireFormat` which bytes stand for which value.
* **Schema builder** (`SchemaBuilder`). The memoised depth-first search over message descriptors with cycle
  detection, against the plain unfolding of a message type.
* **Load control** (`Schedule`, `Pacer`, `Gate`, `GateOverflow`, `PeakGauge`, `Startup`). Piecewise-linear ramps in
  saturating 128-bit arithmetic with their inverse, the lock-free arrival pacer, the shared iteration gate, the
  gauge of active users with its peak, and the barrier and start-signal protocol. The concurrent parts are
  step relations in which each atomic access is one step, and the results hold over every interleaving of any
  number of virtual users.
* **Shared store** (`SharedStore`). The mutex-guarded map with watch channels whose notification is sent
  after the lock is released.
* **Lua bridge** (`LuaTables`, `LuaBridge`, `LuaRoundTrip`, `HostRoundTrip`, `LuaForms`). Lua tables to values
  and back, whatever order tables and hash maps are visited in, and what a script finds in the result.
* **Configuration** (`Strings`, `Thresholds`, `ThresholdGrammar`, `ThresholdSets`, `Scenarios`, `ScenarioYaml`).
  Option resolution, the exported document and its import, threshold keys and threshold sets.
* **Metrics** (`TagSets`, `Metrics`). The interner, sorted tag sets, and filtered and grouped sums.

`Wrappers`, `Arithmetic` and `Sets` hold options, results and facts about integers and finite sets.
`dafny verify dfyconfig.toml` checks everything.

Where the code departs from the Protocol Buffers "Encoding" specification the model follows the code: a
repeated submessage replaces the earlier one instead of merging with it (`wrkr-grpc/src/wire/decode.rs:100-103`),
integer map keys are always plain varints (`wrkr-grpc/src/wire/map.rs:107-131`), packed enums stay numbers
(`wrkr-grpc/src/wire/packed.rs:43`), a map entry without a key or a value is an error
(`wrkr-grpc/src/wire/map.rs:76-77`), field numbers are cut to 32 bits, and a field numbered 0 is never looked up.

Properties that turned out to hold only in part are stated with their exact condition:

* A value survives encoding and decoding if and only if it is canonical (`RoundTrip.EncodeDecode`): empty lists
  and maps vanish, enum names come back as the name of their number, numbers are narrowed to their kind.
* Numbers, texts and truth values sent where another kind is asked for arrive as `Conversions` says, and a value can
  be sent exactly when it may arrive as something (`Conversions.SendableIffArrives`, `Conversions.MessageSendable`).
* Packed and unpacked enum lists differ as soon as a number has a name (`Merging.PackedEnumAgrees`,
  `Merging.PackedEnumWitness`).
* The result of `lua_to_value` depends on the iteration order if and only if a table that reaches the result
  mixes positive integer keys with keys of unsupported types and nothing else: visiting the integers first
  loses every entry (`LuaBridge.OneOutcomeIffDetermined`, `LuaTables.AmbiguousOrders`).
* A threshold key survives printing and parsing if and only if it is canonical, and threshold sets survive an
  export if and only if their keys are canonical and distinct and none is empty (`Thresholds.ParseRender`,
  `ThresholdSets.ExportImport`).
* Pacer counters describe the arrivals offered exactly until one of them wraps (`Pacer.NoArrivalUnaccounted`,
  `Pacer.BacklogIsBounded`, `Pacer.RefusalIsFinal`).
* The iteration budget holds in every run exactly as long as the gate's counter cannot wrap under a caller
  (`GateOverflow.BudgetHoldsIff`), and grouped sums add up to the plain one exactly when no group but a single
  one can saturate (`Metrics.GroupedSumsPartition`).
* A host value survives the way to Lua and back if and only if it comes home (`HostRoundTrip.HostRoundTrips`).
  That depends on the Lua state: LuaJIT holds every number as a double and the host reads integral doubles as
  integers, so there 2.0 inside a table comes back as the integer 2, and integers that no double holds change
  (`HostRoundTrip.IntegralDoubleWitness`, `HostRoundTrip.WideKeysWitness`). In the text representation of integers
  no integer comes home.
* An increment shows in a sum by its full amount exactly when neither the counter nor the sum passes 2^64 - 1
  (`Metrics.CountingShows`).

Floating-point payloads are bit patterns. The host's conversions between widths, integers and text are a
parameter (`Values.Floats`), of which the round trip assumes only that narrowing undoes widening (`Values.Lawful`).
What a Lua table gives back for an integer or a double put into it is a parameter too (`LuaRoundTrip.Numbers`), of
which the bridge assumes only that putting back what was read changes nothing (`LuaRoundTrip.Settles`).
Rust's binary search may return any of several equal elements, so the schedule takes the search as a parameter
and its results hold for every search of that kind. Durations are nanoseconds within the range of Rust's
`Duration`. Text in the codec and the bridge is UTF-8 bytes; in configuration it is sequences of Unicode
scalar values.

## Model
| member | source | states |
|---|---|---|
| `Primitives.WriteVarint` | wrkr-grpc/src/wire/primitives.rs:36-42 | appends exactly the little-endian base-128 form of the number |
| `Primitives.ReadVarint` | wrkr-grpc/src/wire/primitives.rs:44-63 | the shifting loop consumes exactly a varint of at most ten bytes and yields its value cut to 64 bits; otherwise the stated error |
| `Primitives.VarintRoundTrip` | wrkr-grpc/src/wire/primitives.rs:36-63 | reading undoes writing for every 64-bit number and every suffix, leaving the suffix |
| `Primitives.VarintShortest` | wrkr-grpc/src/wire/primitives.rs:36-42 | the written form is at most ten bytes and no varint that reads as the same number is shorter |
| `Primitives.ReadableIffTerminated` | wrkr-grpc/src/wire/primitives.rs:44-63 | a varint is readable if and only if one of the first ten bytes has a clear high bit |
| `Primitives.ZigzagBijection` | wrkr-grpc/src/wire/primitives.rs:105-111 | zigzag encoding and decoding are inverse bijections between signed and unsigned 64-bit numbers |
| `Primitives.TagRoundTrip` | wrkr-grpc/src/wire/primitives.rs:25-34 | a written tag reads back, leaving the suffix, for every field number and wire type but the all-zero tag |
| `Primitives.ReadTag` | wrkr-grpc/src/wire/decode.rs:63-75 | reads a varint, rejects 0 and unknown wire types, cuts the number to 32 bits, moves past exactly the tag |
| `Primitives.LenDelimitedRoundTrip` | wrkr-grpc/src/wire/primitives.rs:65-76 | a length-delimited block reads back, leaving the suffix |
| `Primitives.ReadLenDelimited` | wrkr-grpc/src/wire/primitives.rs:70-76 | yields the block and moves past it, or fails when the length exceeds what is left |
| `Primitives.SkipValue` | wrkr-grpc/src/wire/primitives.rs:78-103 | moves past exactly the bytes a value of the wire type spans, or fails |
| `Coercion.ParseShown` | wrkr-grpc/src/wire/coerce.rs:33-74 | decimal text of every signed and unsigned 64-bit number parses back to it |
| `Coercion.ParsesWhatIsWritten` | wrkr-grpc/src/wire/coerce.rs:11-74 | text parses to a 64-bit number if and only if it writes it: an optional sign, then digits with that place value; a minus only for signed numbers |
| `Coercion.ShownIsDecimal` | wrkr-grpc/src/wire/coerce.rs:33-42 | numbers are shown as their decimal text: a minus below zero, then digits with that place value and no leading zero |
| `Utf8.TextEncodesScalars` | wrkr-grpc/src/wire/scalar.rs:28-37 | bytes are text if and only if they are the UTF-8 encodings of Unicode scalar values, one after the other |
| `Conversions.SendableIffArrives` | wrkr-grpc/src/wire/scalar.rs:153-249 | a plain field can be sent for a value if and only if some value may be received for it |
| `Conversions.KeySendableIffArrives` | wrkr-grpc/src/wire/map.rs:160-210 | the same of map keys |
| `Conversions.MessageSendable` | wrkr-grpc/src/wire/encode.rs:6-86 | for every value whose message could be received as something the encoder does not fail |
| `Decoding.DecodeScalarValue` | wrkr-grpc/src/wire/scalar.rs:13-150 | the imperative scalar reader computes `DecodeValue`, consumes exactly its bytes, and recurses into submessages |
| `Decoding.DecodePackedValues` | wrkr-grpc/src/wire/packed.rs:29-118 | the packed loop collects exactly the elements of the block, or its first error |
| `Decoding.DecodeMapKey` | wrkr-grpc/src/wire/map.rs:82-137 | map keys are read as plain varints whatever their integer kind |
| `Decoding.DecodeMapEntry` | wrkr-grpc/src/wire/map.rs:46-80 | a body of well-formed records is read as the last key with the last value in it; without a key the error is the missing key, without a value the missing value; records of other numbers change nothing; any other body fails |
| `Decoding.EntryIsItsRecords` | wrkr-grpc/src/wire/map.rs:46-80 | the same of the function the loop computes |
| `Decoding.DecodeMapEntryIntoObject` | wrkr-grpc/src/wire/map.rs:11-44 | one entry record is inserted into the map under construction |
| `Decoding.MergeDecodedField` | wrkr-grpc/src/wire/decode.rs:93-160 | what one occurrence does to the object under construction, every repair branch included |
| `Decoding.OccurrenceJoins` | wrkr-grpc/src/wire/decode.rs:93-160 | a single value replaces the one before, list items are appended, map entries united and overridden; what has another form gives way or comes first |
| `Decoding.DecodeFieldValue` | wrkr-grpc/src/wire/decode.rs:162-189 | one record of a field: a scalar, a packed list or a single element |
| `Decoding.DecodeMessageBody` | wrkr-grpc/src/wire/decode.rs:54-91 | the record loop over the buffer, updating the object in place, computes `DecodeMessage`; it ends because nested input is shorter |
| `Merging.AbsorbIsMerge` | wrkr-grpc/src/wire/decode.rs:93-160 | absorbing a record equals merging in what that record alone decodes to; in every reachable object lists hold arrays and maps hold maps, so no repair branch fires |
| `Merging.DecodePrefix` | wrkr-grpc/src/wire/decode.rs:54-91 | once a prefix is read, the rest is read from the fields it left |
| `Merging.ConcatenationMerges` | wrkr-grpc/src/wire/decode.rs:54-160 | when `a` decodes, `a + b` decodes if and only if `b` does, to the merge of both: last scalar and submessage wins, lists append, maps unite right-biased; else with the same error |
| `Merging.ConcatenationJoins` | wrkr-grpc/src/wire/decode.rs:54-160 | the same field by field: of what both parts hold, the later scalar or submessage, both lists in order, or both maps with the later entries winning |
| `Merging.SkipPassesDecoded` | wrkr-grpc/src/wire/primitives.rs:78-103 | skipping a value of some wire type passes over exactly the bytes decoding it consumes, for every kind |
| `Merging.UnknownTransparent` | wrkr-grpc/src/wire/decode.rs:62-88 | unknown well-formed records between two records change nothing of the decoded message |
| `Merging.UnknownRecord` | wrkr-grpc/src/wire/decode.rs:62-88 | any tag with an unknown number followed by bytes its wire type spans is such a record |
| `Merging.OldReaderProjects` | wrkr-grpc/src/wire/decode.rs:62-88 | a reader with an older schema decodes exactly the fields it knows of what a newer reader decodes |
| `Merging.PackedIsRepeated` | wrkr-grpc/src/wire/packed.rs:29-118 | for every packable kind but enum, the packed decoder equals the scalar decoder repeated to the end, errors included |
| `Merging.PackedEnumNamed` | wrkr-grpc/src/wire/packed.rs:29-118 | packed enums are the unpacked ones before naming and narrowing to 32 bits |
| `Merging.PackedEnumAgrees` | wrkr-grpc/src/wire/packed.rs:43 | packed and unpacked enum lists agree if and only if no packed number has a name or exceeds 32 bits |
| `Merging.PackedEnumWitness` | wrkr-grpc/src/wire/packed.rs:43 | a concrete packed enum record that reads differently from its unpacked form |
| `Merging.MixedListInOrder` | wrkr-grpc/src/wire/decode.rs:174-189 | a list field sent as any mix of packed and single records holds all their items in order |
| `Merging.PackedRecordRead` | wrkr-grpc/src/wire/packed.rs:29-118 | one length-delimited record of a packable list field, enums aside, holds exactly the items laid end to end in it |
| `Merging.PackedEnumsRead` | wrkr-grpc/src/wire/packed.rs:43 | of an enum list it holds the numbers, unnamed and uncut |
| `Merging.EntryRecordRead` | wrkr-grpc/src/wire/map.rs:11-80 | a record of a map field holding an entry of well-formed records adds its last key with its last value, or fails for the missing one |
| `Encoding.EncodeScalarField` | wrkr-grpc/src/wire/scalar.rs:153-249 | fails exactly on values that are not encodable; else appends a tag and body related to the value |
| `Encoding.EncodeMapKey` | wrkr-grpc/src/wire/map.rs:160-210 | appends the tag and varint or text of a key, or the exact error for a key of the wrong kind |
| `Encoding.EncodeMapEntry` | wrkr-grpc/src/wire/map.rs:139-158 | appends one length-delimited entry |
| `Encoding.EncodeEntries` | wrkr-grpc/src/wire/encode.rs:51-86 | the entry loop, in any order of the hash map, appends bytes of the whole map or fails exactly when an entry cannot be encoded |
| `Encoding.EncodeField` | wrkr-grpc/src/wire/encode.rs:37-86 | single, repeated and map fields, with their error cases |
| `Encoding.EncodeMessage` | wrkr-grpc/src/wire/encode.rs:6-35 | succeeds if and only if the value is encodable, with bytes that encode it in some order of every hash map in it |
| `RoundTrip.BodyReadsBack` | wrkr-grpc/src/wire/scalar.rs:13-249 | one value of any kind reads back from its body, canonical and as what may be received for it, mutually with messages |
| `RoundTrip.EntryReadsBack` | wrkr-grpc/src/wire/map.rs:46-210 | an encoded map entry is one record holding its key and value |
| `RoundTrip.MessageReadsBack` | wrkr-grpc/src/wire/decode.rs:54-91 | every encoded message decodes to a canonical value, and to itself when canonical |
| `RoundTrip.EncodeDecode` | wrkr-grpc/src/wire/encode.rs:6-86 | whatever the encoder writes, in any hash-map order, decodes to a canonical value that is what was sent up to the kinds of the fields: field by field, item by item and entry by entry, numbers by their bits or their text, truth, text, bytes, enums and keys as `Conversions` says; and it decodes to the value encoded if and only if that value is canonical |
| `RoundTrip.CanonicalEncodes` | wrkr-grpc/src/wire/encode.rs:6-86 | encoding never fails on a canonical value |
| `RoundTrip.EncodeThenDecode` | wrkr-grpc/src/wire/decode.rs:54-160 | the two imperative halves run one after the other return the canonical value they were given |
| `WireFormat.VarintsAreRead` | wrkr-grpc/src/wire/primitives.rs:44-63 | exactly the runs of at most ten bytes of which only the last has a clear high bit are read as varints, each byte for its power of 128, cut to 64 bits |
| `WireFormat.BlocksAreRead` | wrkr-grpc/src/wire/primitives.rs:70-76 | exactly a varint and as many bytes behind it as it says are read as a block |
| `WireFormat.TagsAreRead` | wrkr-grpc/src/wire/primitives.rs:8-34 | exactly a non-zero varint with a known wire type in its low three bits is a tag |
| `WireFormat.SkipsAreSpans` | wrkr-grpc/src/wire/primitives.rs:78-103 | skipping passes over exactly a varint, eight bytes, a block or four bytes |
| `WireFormat.PrimsAreRead` | wrkr-grpc/src/wire/scalar.rs:13-128 | a plain field is read exactly under the wire type of its kind and from the bytes that stand for its value: residues modulo 2^64 and 2^32, zigzag, little-endian places, malformed text as the empty text |
| `WireFormat.EnumsAreRead` | wrkr-grpc/src/wire/scalar.rs:130-140 | an enum is a varint whose low 32 bits are shown by name if they have one |
| `WireFormat.MessagesAreRead` | wrkr-grpc/src/wire/scalar.rs:142-149 | a submessage is a block that decodes as a message |
| `WireFormat.KeysAreRead` | wrkr-grpc/src/wire/map.rs:82-137 | a key is read exactly from a varint, whatever its integer kind, or from a block of well-formed text |
| `WireFormat.TagErrors` | wrkr-grpc/src/wire/decode.rs:63-75 | what a failure to read a tag says: no varint, zero, or an unknown wire type |
| `WireFormat.PrimErrors` | wrkr-grpc/src/wire/scalar.rs:13-128 | what a failure to read a plain field says: the wrong wire type first, then too few bytes or no varint |
| `WireFormat.KeyErrors` | wrkr-grpc/src/wire/map.rs:82-137 | what a failure to read a key says: a kind that is no key, the wrong wire type, or the bytes |
| `WireFormat.SentStandsForReceived` | wrkr-grpc/src/wire/scalar.rs:153-249 | what is sent for a plain field are bytes that stand for a value that may be received for it |
| `MethodCodec.EncodeValueForMethod` | wrkr-grpc/src/wire.rs:33-40 | the entry point succeeds if and only if the value is encodable for the method |
| `MethodCodec.DecodeValueForMethod` | wrkr-grpc/src/wire/decode.rs:11-52 | the method-level record loop, looking each field up through the index into the output list, decodes as by the by-number table |
| `MethodCodec.BuildAndEcho` | wrkr-grpc/src/proto.rs:397-432 | schema builder, encoder and decoder composed: builds if and only if the type has no defect, then sends if and only if the value is encodable, and reads back what was sent unchanged if and only if it is canonical |
| `SchemaBuilder.BuildKind` | wrkr-grpc/src/proto.rs:278-311 | the unfolding of the kind, or an error explained by the reachable defect it names; the in-progress set is restored |
| `SchemaBuilder.BuildMessageMeta` | wrkr-grpc/src/proto.rs:313-355 | memoised depth-first search: cached and built metadata equals the plain unfolding, and the cache stays sound |
| `SchemaBuilder.BuildShape` | wrkr-grpc/src/proto.rs:357-395 | a map has the kind of its entry's field named key for its keys and the unfolding of the one named value for its values, a repeated field is a list, any other single; or an error explained by the reachable defect it names |
| `SchemaBuilder.BuildMethod` | wrkr-grpc/src/proto.rs:397-432 | succeeds if and only if no cycle and no malformed map is reachable from input or output, else names one that is; every field of the request is there by its name and every field of the reply in order, with its number and its described shape |
| `SchemaBuilder.IndexByNumber` | wrkr-grpc/src/proto.rs:417-424 | the index gives for each number the row the by-number table has |
| `SchemaBuilder.UnfoldsOnce` | wrkr-grpc/src/proto.rs:313-355 | a message has at most one unfolding, so memoisation cannot be observed |
| `SchemaBuilder.UnfoldingIsGood` | wrkr-grpc/src/proto.rs:334-350 | by-name and by-number tables agree at every level |
| `SchemaBuilder.UnfoldingHasNoDefect` | wrkr-grpc/src/proto.rs:323-328 | a type from which a cycle or a malformed map is reachable has no unfolding |
| `SharedStore.Store.SetLocked` | wrkr-shared/src/store.rs:27-36 | inserts the value and reports whether the key has a channel |
| `SharedStore.Store.IncrLocked` | wrkr-shared/src/store.rs:59-72 | adds to the number held, 0 for anything else, clamped to 64 bits, and touches no other key |
| `SharedStore.Store.DeleteLocked` | wrkr-shared/src/store.rs:51-57 | removes the key and notifies nobody |
| `SharedStore.Store.WaitLocked` | wrkr-shared/src/store.rs:86-108 | returns at once when the key is present, else subscribes at the current version |
| `SharedStore.Store.Notify` | wrkr-shared/src/store.rs:38-41 | sends the wrapped successor of the last value to the subscribers |
| `SharedStore.Store.Set` | wrkr-shared/src/store.rs:27-41 | set without interruption: the map updated and the channel advanced |
| `SharedStore.NoLostWakeup` | wrkr-shared/src/store.rs:27-120 | over every interleaving of set, incr, delete and wait by any number of tasks, a waiter blocked on a present key has an unseen version or some writer is between unlocking and sending; a channel's receivers are exactly those waiting for its key |
| `SharedStore.ReturnsOnlyWhenPresent` | wrkr-shared/src/store.rs:86-120 | wait_for_key returns only at a step of its own that finds its key present: an earlier step wrote the key and no delete lies in between |
| `SharedStore.WaiterIsNeverStuck` | wrkr-shared/src/store.rs:110-119 | once nobody is mid-send, a waiter on a present key can wake and its next look returns |
| `SharedStore.WindowWitness` | wrkr-shared/src/store.rs:38-41 | the mid-send disjunct is needed: a reachable state with a blocked waiter, its key present and nothing unseen |
| `SharedStore.IncrementsAddUp` | wrkr-shared/src/store.rs:59-84 | over every interleaving, while nobody sets or deletes a key it holds what it held before plus everything added since, unless a sum on the way leaves 64 bits |
| `SharedStore.SendReachesWaiters` | wrkr-shared/src/store.rs:38-41 | a send is one new version with the number sent for those who wait for the key, and is dropped when nobody does |
| `SharedStore.UninterruptedSet` | wrkr-shared/src/store.rs:27-41 | the steps of a writer, run alone, store the value and send one new version, the wrapping successor of the last, to those who wait |
| `SharedStore.WaitLooksFirst` | wrkr-shared/src/store.rs:86-108 | waiting for a present key returns at once and subscribes nobody, for an absent one it subscribes at the current version |
| `Schedule.NewRamp` | wrkr-core/src/schedule.rs:24-37 | the loop accumulates the clamped running sums of the durations |
| `Schedule.InterpolateBetween` | wrkr-core/src/schedule.rs:92-108 | the interpolated target lies between the stage targets, also when the 128-bit product saturates |
| `Schedule.TargetMovesOneWay` | wrkr-core/src/schedule.rs:54-108 | inside a stage the target moves one way only, in the direction of the stage, saturation or not |
| `Schedule.InterpolateEnd` | wrkr-core/src/schedule.rs:92-108 | a stage ends on its target when the product does not saturate |
| `Schedule.TargetInStage` | wrkr-core/src/schedule.rs:54-108 | strictly between time zero and the end the target lies between the two targets of the stage, for every result a binary search may return |
| `Schedule.TargetNeverExceedsSpawned` | wrkr-core/src/run.rs:258-267 | no time asks for more virtual users than are spawned |
| `Schedule.SnapshotAddsUp` | wrkr-core/src/schedule.rs:110-157 | a snapshot exists if and only if there are stages; its targets are those of its stage, elapsed plus remaining is the stage length, and once some time has elapsed of a schedule of positive length its target lies between them |
| `Schedule.NeverOversleeps` | wrkr-core/src/schedule.rs:159-235 | for every schedule and every inactive user, the target stays below the user for the whole recheck interval |
| `Schedule.WakesWithinAMillisecond` | wrkr-lua/src/vu.rs:126-130 | sleeping at least a millisecond, a user wakes at most a millisecond after the moment it is due |
| `Schedule.RecheckIsTight` | wrkr-core/src/schedule.rs:222-235 | in a rising stage that reaches the user, with lasting stages and below the 50 ms cap, the user is due when the wait ends or one nanosecond later |
| `Schedule.StageLine` | wrkr-core/src/schedule.rs:54-108 | a stage's line gives the target throughout the stage, its end included |
| `Schedule.TargetRoundsTowardStart` | wrkr-core/src/schedule.rs:54-108 | strictly inside a rising or falling stage, where the product fits, the target is the point on the line between the stage targets rounded toward the one it starts from |
| `Schedule.TargetWhereClamped` | wrkr-core/src/schedule.rs:92-108 | where the product does not fit, the target has moved as far as the largest or smallest 128-bit product carries it |
| `Schedule.EndsAddUp` | wrkr-core/src/schedule.rs:24-37 | every stage ends after the durations up to it added up, or at the largest duration there is |
| `Schedule.PositiveStagesLast` | wrkr-core/src/schedule.rs:24-37 | positive durations whose sum is not clamped make every stage last |
| `Schedule.RampFollowsStages` | wrkr-core/src/schedule.rs:54-108 | with lasting, unclamped stages the target is the polygon through the stage targets, neighbouring stages agreeing where they meet, and stays on the last target afterwards |
| `Schedule.WaitsOutTheStage` | wrkr-core/src/schedule.rs:190-222 | a user the current stage does not bring in stays inactive to the end of the stage, and waits exactly until then or for the 50 ms cap |
| `Schedule.RecheckElsewhere` | wrkr-core/src/schedule.rs:159-206 | no wait exceeds 50 ms; an active user looks again after 1 ms, anyone at once when the ramp is over, and after 50 ms when there is none |
| `Schedule.SomeSearch` | wrkr-core/src/schedule.rs:70-77 | the search the results are stated for exists |
| `Pacer.ArrivalPacer.UpdateDue` | wrkr-core/src/pacer.rs:54-80 | an uninterrupted update schedules what fits in the backlog, drops the rest and adjusts the active users |
| `Pacer.ArrivalPacer.UpdateActiveVus` | wrkr-core/src/pacer.rs:82-101 | the active number is the backlog plus one, within the pre-allocated number and the limit, and the pre-allocated number without a backlog |
| `Pacer.ArrivalPacer.ClaimNext` | wrkr-core/src/pacer.rs:103-132 | one uninterrupted pass takes a token, or stops when done and drained, or sleeps |
| `Pacer.BacklogIsBounded` | wrkr-core/src/pacer.rs:54-132 | over every interleaving, claimed <= scheduled <= claimed + max(max_vus, 1) in every state so far, if and only if fewer than 2^64 arrivals have been scheduled |
| `Pacer.GrantsAreClaims` | wrkr-core/src/pacer.rs:118-129 | in every run one claim granted is one token claimed |
| `Pacer.NoArrivalUnaccounted` | wrkr-core/src/pacer.rs:54-80 | between updates scheduled plus dropped equals the arrivals offered, if and only if neither counter has wrapped; modulo 2^64 always |
| `Pacer.RefusalIsFinal` | wrkr-core/src/pacer.rs:103-111 | once any claim was refused, done holds and no token is left for ever; every arrival offered was granted or dropped, if and only if the counter never wrapped, and then claimed equals scheduled |
| `Pacer.RefusedMeansDrained` | wrkr-core/src/pacer.rs:103-111 | a refused virtual user means the pacer is done and no token is left |
| `Pacer.DropsOnlyWhenFull` | wrkr-core/src/pacer.rs:61-77 | an arrival is dropped only when the backlog the producer saw was full |
| `Pacer.ActiveStaysInRange` | wrkr-core/src/pacer.rs:82-101 | the number of active users stays between the pre-allocated number and the limit |
| `Pacer.ActiveFollowsBacklog` | wrkr-core/src/pacer.rs:82-101 | in every run the number stored is that of the backlog between the claims the producer saw and what it has scheduled |
| `Pacer.UninterruptedUpdate` | wrkr-core/src/pacer.rs:54-101 | the producer's atomic steps, run alone, are the method |
| `Pacer.UninterruptedClaim` | wrkr-core/src/pacer.rs:103-132 | a claimer's atomic steps, run alone, are the method |
| `Pacer.LooksAgain` | wrkr-core/src/pacer.rs:103-132 | one who woke up or missed its swap looks again: undisturbed it gets what a fresh call would, and may call again |
| `Gate.IterationGate.StartAt` | wrkr-core/src/gate.rs:23-31 | the first deadline stays |
| `Gate.IterationGate.Next` | wrkr-core/src/gate.rs:37-69 | a call goes on before the deadline, if there is one, and below the iteration limit, if there is one; with neither only the first does; and what it counts |
| `Gate.NeverOverBudget` | wrkr-core/src/gate.rs:37-69 | over every interleaving the iterations granted never exceed the iteration limit, nor one when there is no limit at all |
| `GateOverflow.BudgetHoldsIff` | wrkr-core/src/gate.rs:55-64 | with an iteration limit (or no limit at all, and then 1), no run grants more if and only if it is 0 or, with the number of users, at most 2^64 |
| `Gate.ExactlyTheBudget` | wrkr-lua/src/vu.rs:110-118 | without a duration, one user leaving means the iteration limit (1 when there is none) was granted; all leaving without error means exactly that many iterations were run |
| `Gate.NothingAfterDeadline` | wrkr-core/src/gate.rs:39-53 | with a duration, a call that reads the clock at or after the deadline is never granted |
| `Gate.DurationAloneGrants` | wrkr-core/src/gate.rs:39-67 | with a duration and no iteration limit, only a call that reads the clock at or after the deadline is refused |
| `Gate.RefusedInTimeMeansUsedUp` | wrkr-core/src/gate.rs:55-67 | a call in time is refused only once the whole limit has been granted |
| `Gate.FailureEndsTheLoop` | wrkr-lua/src/vu.rs:110-118 | a virtual user whose iteration fails is out for good |
| `Gate.DeadlineIsFinal` | wrkr-core/src/gate.rs:23-31 | the deadline never changes once fixed, against racing lazy initialisation too |
| `Gate.UninterruptedNext` | wrkr-core/src/gate.rs:37-69 | a virtual user's atomic steps, run alone, are the method |
| `PeakGauge.PeakCoversAll` | wrkr-core/src/vu.rs:119-140 | over every interleaving of users entering and leaving, the gauge is the number of users counted, and the peak is no lower than the count of any user that has entered and no higher than the highest |
| `PeakGauge.QuietPeakIsExact` | wrkr-core/src/vu.rs:126-138 | whenever nobody is raising it, the peak is exactly the highest count any user ever reached |
| `PeakGauge.HighestIsReached` | wrkr-core/src/vu.rs:91-99 | that highest count is the gauge of some state of the run, and no state so far has a higher one |
| `PeakGauge.UninterruptedRaise` | wrkr-core/src/vu.rs:126-138 | undisturbed, a user is in after at most one swap, the peak raised to its count if that is higher |
| `Startup.SpawnVus` | wrkr-core/src/run.rs:258-401 | the nested spawning loops create, scenario by scenario, each of its users exactly once, numbered without gaps (up to the largest number there is); the barrier counts on exactly those and the runner if and only if there are fewer than 2^64 - 1 |
| `Startup.NoIterationBeforeAllReady` | wrkr-core/src/run.rs:425-450 | no iteration is run before every user has initialised, without an error |
| `Startup.FailureStopsTheRun` | wrkr-lua/src/vu.rs:47-68 | if any initialisation fails, no iteration is ever run |
| `Startup.OneStartInstant` | wrkr-core/src/run.rs:444-450 | every running user measures from the runner's one start instant and every gate's deadline comes from it |
| `Startup.FallbacksUnreachable` | wrkr-lua/src/vu.rs:72-77 | the fallback clock and the lazily taken deadline are never used |
| `Startup.NobodyIsStuck` | wrkr-core/src/run.rs:425-450 | until the runner and every user are through, one of them can go on |
| `Startup.ProgressComesToAnEnd` | wrkr-core/src/run.rs:425-450 | every such step brings one of them closer and holds nobody up |
| `Startup.StartSucceedsIffNoFailure` | wrkr-core/src/run.rs:425-450 | a start that is over: without a failure every user runs and the runner has started, with one nobody runs and the runner has given up |
| `Startup.ErrorWasReported` | wrkr-lua/src/vu.rs:47-68 | the error the runner gives up with is one that a failed initialisation reported |
| `Startup.OpenMeansAll` | wrkr-core/src/run.rs:269-276 | the counting barrier is open if and only if every user and the runner have arrived |
| `LuaTables.PassCollects` | wrkr-lua/src/value_util.rs:84-150 | the single pass never fails, and whatever the order its variables hold exactly the pairs seen |
| `LuaTables.MovedIsStored` | wrkr-lua/src/value_util.rs:42-73 | upgrading to a map moves in exactly what was stored so far |
| `LuaTables.FoldedIsLevel` | wrkr-lua/src/value_util.rs:84-175 | what a pass returns depends on the order only through whether it made a map |
| `LuaTables.OrderDoesNotMatter` | wrkr-lua/src/value_util.rs:84-175 | for keys that are not ambiguous every order gives the same result |
| `LuaTables.AmbiguousOrders` | wrkr-lua/src/value_util.rs:139-174 | positive integer keys among unsupported ones: one order yields an empty map and another the full map |
| `LuaBridge.LuaToValue` | wrkr-lua/src/value_util.rs:13-205 | the imperative conversion returns one of the outcomes of the relation, each table visited in an arbitrary order |
| `LuaBridge.TableToValue` | wrkr-lua/src/value_util.rs:18-175 | the table loop, with its flags, slots, object and map, in any order |
| `LuaBridge.FailsExactly` | wrkr-lua/src/value_util.rs:18-202 | whether a conversion fails never depends on the order, and is exactly `Fails`: depth, an unsupported value, or a list with gaps |
| `LuaBridge.OneOutcomeIffDetermined` | wrkr-lua/src/value_util.rs:18-202 | the outcome does not depend on any iteration order if and only if no table that reaches the result has ambiguous keys |
| `LuaBridge.StorableIsDetermined` | wrkr-lua/src/value_util.rs:84-150 | trees with integer, text and boolean keys are always determined |
| `LuaRoundTrip.ValueToLua` | wrkr-lua/src/value_util.rs:207-288 | the imperative conversion returns one of the outcomes of the relation, hash maps in any order, numbers and integer keys as the Lua state holds them |
| `LuaRoundTrip.RoundTrip` | wrkr-lua/src/value_util.rs:13-288 | whenever a Lua value of some state converts, its conversion goes back into that state within the same depth, and is the original if and only if its text is well-formed and all its keys are of a stored type |
| `HostRoundTrip.BuildFailsExactly` | wrkr-lua/src/value_util.rs:207-288 | in both integer representations building fails exactly on values nested too deep |
| `HostRoundTrip.HostRoundTrips` | wrkr-lua/src/value_util.rs:13-288 | in both integer representations, and for every way a Lua state holds numbers, a value built into Lua and read back is the original if and only if it comes home (no bytes, no unsigned numbers, integers only as integers, in containers no null and only numbers, integer keys and indices the state gives back unchanged, no empty object, maps that need to be maps) and is shallow enough to be read |
| `HostRoundTrip.IntegralDoubleWitness` | wrkr-lua/src/value_util.rs:250 | where a state reads integral doubles as integers, an object holding 2.0 comes back holding the integer 2 |
| `HostRoundTrip.WideKeysWitness` | wrkr-lua/src/value_util.rs:266-280 | where a state has only doubles, 2^53 and 2^53 + 1 become one key, and no map with both ever comes back |
| `HostRoundTrip.SomeStates` | wrkr-lua/Cargo.toml:13-14 | states that keep every number exactly exist, and so do states of the kind the two witnesses speak of |
| `LuaForms.BuiltIsFound` | wrkr-lua/src/value_util.rs:207-288 | whatever value_to_lua makes of a value, a script finds the value in it: scalars and bytes as they are, integers as integers or their decimal text, every non-null value under its index, name or key unless another goes under the same key, and nothing else |
| `Strings.SplitJoin` | wrkr-core/src/thresholds.rs:66 | pieces without the separator are what their join splits into |
| `Thresholds.ParseThresholdMetricKey` | wrkr-core/src/thresholds.rs:46-107 | the parsing loop computes `ParseKey`, the first error included |
| `Thresholds.ParsedIsCanonical` | wrkr-core/src/thresholds.rs:46-107 | whatever parses is canonical: trimmed name, simple unique tags in the order of their keys |
| `Thresholds.ParseRender` | wrkr/src/scenario_yaml.rs:458-470 | parse(render(k)) == k if and only if k is canonical |
| `Thresholds.RenderIsInjective` | wrkr/src/scenario_yaml.rs:458-470 | different canonical keys print differently |
| `ThresholdGrammar.ParsesWhatIsSpelled` | wrkr-core/src/thresholds.rs:46-107 | a text is read as a key if and only if it spells that key: a name, padded, and behind it perhaps braces with parts between commas, each blank or word=word, padded, at least one tag and no key twice |
| `ThresholdGrammar.ErrorsSayWhatIsWrong` | wrkr-core/src/thresholds.rs:46-107 | every error is reported for what it says, a selector error for the first part that is wrong |
| `ThresholdSets.RenderThresholds` | wrkr/src/scenario_yaml.rs:442-456 | the export loop builds the map in which a later equal key replaces an earlier one |
| `ThresholdSets.ExportSays` | wrkr/src/scenario_yaml.rs:442-456 | the last set under a printed key is the one exported: a single expression by itself, none or several as a list |
| `ThresholdSets.ParseThresholdsMap` | wrkr/src/scenario_yaml.rs:472-499 | the import loop, in key order, with its errors |
| `ThresholdSets.ExportImport` | wrkr/src/scenario_yaml.rs:442-499 | export then import loses and changes no set if and only if keys are canonical and distinct and every set has an expression |
| `Scenarios.ScenariosFromOptions` | wrkr-core/src/run.rs:30-202 | option resolution with command-line overrides, first error included |
| `Scenarios.ScenarioFromOptions` | wrkr-core/src/run.rs:37-175 | one scenario, an override turning a ramp into a constant scenario |
| `Scenarios.LargestTarget` | wrkr-core/src/run.rs:98-101 | the maximum of the stage targets and the start, attained by one of them |
| `Scenarios.ResolvedIsRunnable` | wrkr-core/src/run.rs:30-202 | whatever resolves is at least one scenario, each satisfying what the pacer and the schedules rely on |
| `Scenarios.OverridesFlattenRamps` | wrkr-core/src/run.rs:47-73 | with any override every scenario is constant and each override wins |
| `Scenarios.TopLevelOnlyFillsIn` | wrkr-core/src/run.rs:53-85 | over whole sets of options: top-level options matter only where neither the command line nor some scenario says anything |
| `Scenarios.ScenariosAreAsWritten` | wrkr-core/src/run.rs:30-175 | every resolved scenario says what its options say, the command line first, the top level last, then the default; each executor under its names |
| `Scenarios.TopLevelIsAsWritten` | wrkr-core/src/run.rs:177-202 | without scenarios there is one constant one, run once unless iterations or a duration are given |
| `Scenarios.ResolvesIffAcceptable` | wrkr-core/src/run.rs:30-175 | scenarios resolve if and only if each is acceptable: a known executor, numbers that are not 0, a ramp that takes time and goes somewhere |
| `Scenarios.FirstRefusalDecides` | wrkr-core/src/run.rs:30-175 | the error is that of the first scenario that is not acceptable, and says what is wrong with it |
| `Scenarios.TotalIsRampEnd` | wrkr-core/src/run.rs:106-112 | a scenario's total duration is where its schedule ends |
| `ScenarioYaml.BuildDoc` | wrkr/src/scenario_yaml.rs:328-407 | the document of one scenario, repeated tags collapsing to the last |
| `ScenarioYaml.LastTagStays` | wrkr/src/scenario_yaml.rs:328-407 | the document keeps the last value of a repeated tag |
| `ScenarioYaml.BuildDocs` | wrkr/src/scenario_yaml.rs:409-422 | one document for each scenario, in order |
| `ScenarioYaml.LoadScenarios` | wrkr/src/scenario_yaml.rs:245-267 | every scenario of a document read in order, with its default name |
| `ScenarioYaml.ExportAndResolve` | wrkr/src/scenario_yaml.rs:245-422 | resolving, exporting, importing and resolving again, run one after the other, give the same configurations or the first error |
| `ScenarioYaml.IntoOptions` | wrkr/src/scenario_yaml.rs:280-326 | the options a document is read as, tags in key order |
| `ScenarioYaml.OneComesBack` | wrkr/src/scenario_yaml.rs:280-407 | one configuration comes back from its document if and only if it is runnable |
| `ScenarioYaml.ExportIsFixpoint` | wrkr/src/scenario_yaml.rs:280-422 | exporting and resolving the import with no overrides gives the same configurations if and only if there are some and all are runnable |
| `ScenarioYaml.ResolvedSurvivesExport` | wrkr/src/scenario_yaml.rs:280-422 | for every options and overrides that resolve, the import of the export resolves to the same configurations and exports to the same document |
| `TagSets.Interner.GetOrIntern` | wrkr-metrics/src/key.rs:39-61 | an old name keeps its number, a new one gets the next; numbers given out before stay |
| `TagSets.Interner.Resolve` | wrkr-metrics/src/key.rs:63-66 | a number resolves to a name if and only if that name has the number |
| `TagSets.InternerIsInjective` | wrkr-metrics/src/key.rs:39-61 | different names have different numbers |
| `TagSets.Get` | wrkr-metrics/src/tags.rs:35-39 | binary search on a sorted set finds the first value under the key |
| `TagSets.Project` | wrkr-metrics/src/tags.rs:41-54 | the projection of a sorted set to the group keys |
| `TagSets.SameGroup` | wrkr-metrics/src/tags.rs:41-54 | two sets have the same projection if and only if they agree on every key |
| `TagSets.GroupKeysIncrease` | wrkr-metrics/src/agg.rs:156-161 | sorting and deduplicating keeps exactly the keys, in strictly increasing order |
| `TagSets.ResolveTags` | wrkr-metrics/src/registry.rs:68-75 | interns all names and sorts; the result is always sorted |
| `TagSets.ResolvedText` | wrkr-metrics/src/registry.rs:68-75 | looking a key up in a resolved set finds the number of the text listed under it, and nothing when none is |
| `TagSets.ResolvedLookup` | wrkr-metrics/src/registry.rs:68-75 | in a resolved set of tags with different keys, a key's value is the one it was given |
| `Metrics.Registry.Register` | wrkr-metrics/src/registry.rs:39-54 | a registered name keeps its first definition; a new one gets the next position (cut to 32 bits), its kind and no series |
| `Metrics.Registry.GetHandle` | wrkr-metrics/src/registry.rs:77-94 | makes a missing series at zero of the metric kind and returns a handle to it; none for an unknown metric |
| `Metrics.Registry.Increment` | wrkr-metrics/src/metrics.rs:116-120 | a wrapping addition through a counter handle, ignored by handles of other kinds |
| `Metrics.CountingShows` | wrkr-metrics/src/agg.rs:171-194 | counting n > 0 in a series raises the plain sum the code returns, and what it returns for the group of the series, by n if and only if neither the counter nor that sum passes 2^64 - 1; other groups, and sums that do not select the series, stay as they are; whatever orders the sums took |
| `Metrics.FoldOf` | wrkr-metrics/src/registry.rs:118-132 | on a valid registry, the saturated sum over one metric, 0 for an unknown one |
| `Metrics.SumOf` | wrkr-metrics/src/agg.rs:171-194 | on a valid registry, the grouped sums over one metric, none for an unknown one |
| `Metrics.FoldCounterSum` | wrkr-metrics/src/registry.rs:118-132 | the saturated sum of the selected counters, in any order of the series |
| `Metrics.SumCounter` | wrkr-metrics/src/agg.rs:171-194 | exactly the groups with a non-zero sum, each the saturated sum of its own series, in any order |
| `Metrics.GroupedSumsPartition` | wrkr-metrics/src/agg.rs:171-198 | the grouped values add up to the plain sum over the same filters, whatever orders the two took, if and only if the total fits in 64 bits or there is at most one group |
| `Metrics.GroupedIsUnique` | wrkr-metrics/src/agg.rs:171-194 | a grouped sum never depends on the order of the series, saturated or not |
| `Metrics.GroupsAgreeOnText` | wrkr-metrics/src/agg.rs:156-169 | two series named by tags are in one group if and only if they have the same text, or none, under the name of every group key |
| `Metrics.FiltersGoByText` | wrkr-metrics/src/agg.rs:13-29 | each filter selects exactly the series that have, or lack, the key or the text under it |
| `Metrics.FiltersNarrow` | wrkr-metrics/src/agg.rs:163-165 | a series passes a list of filters if and only if it passes each part of it; the empty list lets everything pass |
| `Metrics.GroupsAgreeOnKeys` | wrkr-metrics/src/agg.rs:156-169 | two series are in one group if and only if they agree on every group key |

## Left out
- Eventual wake-up of those who sleep on a `Notify`: the code tests first and registers afterwards, so a notification may fall in between; nothing is stated about progress there.
- Memory ordering: relaxed atomic accesses are interleaved as if sequentially consistent.
- Pacer.ArrivalPacer.UpdateDue: requires a limit of at least one virtual user, because `clamp` panics at 0; resolution guarantees it (`Scenarios.ResolvedIsRunnable`).
- Gate.NeverOverBudget: requires that limit and virtual users together do not exceed 2^64, because the 64-bit counter wraps beyond that; `GateOverflow.BudgetHoldsIff` shows the condition is exact, a duration of zero aside.
- Gate.ExactlyTheBudget: requires the same of the counter.
- Startup.SpawnVus: adds up in 64 bits and wraps, because a build without overflow checks does; with them the program aborts instead.
- Startup: a virtual user that panics while initialising, and poisoned mutexes.
- Schedule.RecheckIsTight: states dueness only below the 50 ms cap and without saturation, because a capped or clamped wait is not tight.
- RoundTrip.EncodeDecode: outputs of 2^64 bytes and more, whose lengths no 64-bit varint holds.
- What `incr` hands back to its caller, a second read that other tasks may have come before, and `barrier_wait`.
- SharedStore: the watch channel's version is unbounded, where the library's wraps after 2^63 sends.
- Service and method name look-up, request paths, descriptor compilation and prost-reflect's own checks, which `SchemaBuilder.ValidPool` states as what a pool guarantees.
- LuaBridge.LuaToValue: keys that are not well-formed UTF-8 are not part of the model, because their replacement may make two keys equal; cyclic tables are not either, they only ever exceed the depth.
- LuaBridge.TableToValue: leaves out the same keys.
- LuaTables.PassCollects: does not model running out of memory for a huge index.
- LuaForms.BuiltIsFound: requires vectors of fewer than 2^63 elements, because Rust has no longer ones.
- HostRoundTrip.HostRoundTrips: requires vectors of fewer than 2^63 elements, because Rust has no longer ones, and a Lua state that settles, because any that reads back what it holds does; how exactly a state rounds is a parameter.
- LuaRoundTrip.RoundTrip: is stated for the integer representation; its Lua values hold only numbers the state gives back, because others do not occur in its tables.
- Order-sensitive threshold selectors, threshold expressions and their evaluation.
- Serialisation of the YAML document: durations and scalars are taken as written and read back unchanged; default scenario names are parameters.
- Races between threads that create a series or intern a name: the registry is sequential.
- Metrics.Registry.Register: keeps the registry valid up to 2^32 definitions, because positions are cut to 32 bits.
- PeakGauge.PeakCoversAll: requires fewer than 2^63 virtual users, because the gauge is a signed 64-bit counter that wraps beyond that.
- TagSets.Interner.GetOrIntern: numbers are injective up to 2^32 names, because positions are cut to 32 bits.
- Other gauges, rates, histograms, running statistics, the progress reporter and the fractional carry of the pacer task.
- The RampingVus and RampingArrivalRate loops of a virtual user beyond the schedule and pacer calls they make.
- Command line, output, HTTP and gRPC transport, the script loader and debugger, the test server and the measuring tools.
