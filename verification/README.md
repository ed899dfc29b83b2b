# Verified model of the agent gateway's event and stream logic

The project models four parts of the gateway in Dafny and proves what they keep on every input, every stream and every
interleaving.

**Streaming observers** (`tool_observer.rs`). The Chat Completions observer turns a stream of partial tool-call deltas
into at most 16 drafts through a two-key hash index, fallback scans and a character cap. The model is a table and a step
per delta (`ChatStream`). An invariant over all streams (`ChatStreamSafety`) gives distinct idempotency keys and a
stable index. A history per draft (`ChatStreamHistory`) gives conservation of deltas. A refinement
(`ChatStreamGroupBy`) says exactly when the observer is a group-by on (choice, index). `ChatStreamObserver` holds the
mutable table and its loops. The Responses observer deduplicates reports by key and merges them (`ResponsesStream`,
`ResponsesMerge`, `ResponsesKeys`). What a chunk or an event says is told apart from how it is written
(`JsonWire`, `ChatWire`, `ResponsesWire`), and both observers are proved to read back what was said. Both read the same
event-stream frames (`SseFrames`); `SseStandard` compares these with the frames of the WHATWG HTML Living Standard.

**Step conflicts** (`step_state.rs` over `app_redis.rs`). `StepState` has the percent codec, fingerprint and store key;
`RedisStore` has a store with a clock and expiry; `StepConflict` is a machine whose runs are all interleavings of
gateways, expiry and lost replies.

**Atomic store scripts** (`app_redis.rs`). `RateWindow` proves the fixed-window counter and `SessionLock` the
token-checked lock.

**Event pipeline** (`adapter.rs`, `policy.rs`, `service.rs`). `EventTokens` and `Adapter` have the taxonomy,
`PolicyGate` and `AdapterTables` the policy gate, type by type, `Redaction` and `PolicyMetadata` the metadata edits,
`JsonSize`, `JsonText` and `MetadataLimit` the byte counts, and `EventPipeline` with `EventPipelineSafety` the loop over
a batch. Header context, agent names, step store, policy and sink are arbitrary inputs of each event.

`Text`, `Json`, `Wrappers` and `Runs` hold strings, JSON values, options and folds over runs.

## Where the code differs from what one might expect

- A provider id can move to another draft (`ProviderIdMoves`), an index cannot (`ProviderIdRemappedExactly` and
  `IndexedNeverRemapped`).
- The truncation flag can be set with nothing lost (`EmptyFragmentSetsFlag`); `TruncatedWithoutLoss` says exactly when.
- One id under two indexes joins two calls in one draft (`ReusedIdMergesSlots`); `GroupByExactlyWhenClean` says exactly
  when calls stay apart.
- The status in the metadata of a merged function call can lag behind its status field (`TwoReportsLag`,
  `StatusMetadataLags`), and the merge order can show in it and in the sequence number (`MergeCommutesExactly`).
- A response id that extends another by `:item` or `:call` can make the keys of two calls collide
  (`ReceivableKeysMeet`, `KeysIdentifyCallsExactly`, `ReceivableKeysIdentifyCallsExactly`).
- A key that expires between SET and GET gives a conflict verdict for the same step (`ExpiryGivesFalseConflict`,
  `GetDecidesExactly`).
- The frame parser departs from sections 9.2.5 and 9.2.6 of the WHATWG HTML Living Standard in four ways: it keeps a
  byte order mark (`BomHidesData`), does not end lines at a lone CR (`LoneCrIsData`), ignores a bare `data` line
  (`BareDataIsIgnored`) and flushes an unterminated last frame (`LastFrameIsFlushed`). `ConformsExactlyWhenFaithful`
  and `FaithfulTexts` say exactly when it agrees; only where both of their conditions fail can departures cancel
  (`DeparturesCanCancel`). The model follows the code.
- Native events and unmapped LangGraph events are gated as the client says (`ClientDecidesElsewhere`).
- A client's own `sinkStatus` entry is overwritten, and so are `registeredAgentName`, `selfReportedAgentName`,
  `selfReportedAgentNameSource` and `agentNameConflict` when a name conflict is noted (`OverwrittenKeys`). A denied
  event or an audit whose full record does not fit keeps none of the client's entries. In all other cases every other
  entry survives (`ClientMetadataSurvives`, `ClientMetadataSurvivesAudit`).
- An allowed event can pass the first size check and still be refused after attachment (`PassesFirstCheckOnly`);
  `AllowedEmittedExactly` says exactly when.

## Model

Specification functions without a row of their own (`Apply`, `Merge`, `Encode`, `CountOne`, `Adapt`, `Settle` and their
kin) are tied to the code by the methods below that compute them and constrained by the lemmas about them.

| member | source | states |
|---|---|---|
| `SseFrames.ParseSseDataFrames` | ai-gateway/src/agent/tool_observer.rs:1257-1284 | the line loop computes `Frames`: data lines joined by LF, a frame at each blank line and at the end of the body |
| `SseFrames.ParsePrinted` | scripts/provider_mock/mock_native_anthropic_base.py:143-148 | every printed list of frames, with or without event lines, parses to that list with the CR at each line end dropped, for all strings |
| `SseFrames.RoundTrip` | scripts/mock_openai_8011.py:126-130 | parsing undoes printing if and only if no line of a frame ends in CR |
| `SseFrames.DropLineCrsFixedPoint` | ai-gateway/src/agent/tool_observer.rs:1262-1262 | dropping line-end CRs changes a frame exactly when one of its lines ends in CR, and never lengthens it |
| `SseFrames.CrLfKeepsLines` | ai-gateway/src/agent/tool_observer.rs:1262-1262 | rewriting LF as CR LF leaves the lines alone if and only if the text has no CR LF yet |
| `SseFrames.CrLfInvariance` | ai-gateway/src/agent/tool_observer.rs:1257-1284 | frames do not change when LF becomes CR LF |
| `SseFrames.IgnoredLineInText` | ai-gateway/src/agent/tool_observer.rs:1270-1275 | a whole line that is neither blank nor a data line can be added or removed anywhere between lines |
| `SseStandard.ConformsExactlyWhenFaithful` | ai-gateway/src/agent/tool_observer.rs:1257-1284 | with no data line after the last blank line, the frames are those of the WHATWG standard if and only if no data line has a CR, no ignored line hides a data field behind a byte order mark, a CR or a missing colon, and no blank line between CRs splits a frame |
| `SseStandard.FaithfulTexts` | ai-gateway/src/agent/tool_observer.rs:1257-1284 | where those conditions hold, the frames are the standard's if and only if no data line follows the last blank line |
| `SseStandard.PlainTextsConform` | ai-gateway/src/agent/tool_observer.rs:1257-1284 | without byte order mark, with CR only before LF and without a line that is just "data", the same if and only if |
| `SseStandard.BomHidesData` | ai-gateway/src/agent/tool_observer.rs:1258-1262 | a byte order mark hides the first data line, whatever its value |
| `SseStandard.LoneCrIsData` | ai-gateway/src/agent/tool_observer.rs:1262-1262 | a lone CR becomes data and two CRs end no frame, whatever the value |
| `SseStandard.BareDataIsIgnored` | ai-gateway/src/agent/tool_observer.rs:1273-1275 | a data line without colon is ignored |
| `SseStandard.LastFrameIsFlushed` | ai-gateway/src/agent/tool_observer.rs:1279-1281 | pending data at the end becomes a frame, whatever its value |
| `SseStandard.DeparturesCanCancel` | ai-gateway/src/agent/tool_observer.rs:1257-1284 | two departures at once can give the standard's frames, so neither condition can be dropped from the other's theorem |
| `ChatStream.UniqueDraftCandidate` | ai-gateway/src/agent/tool_observer.rs:388-403 | finds the index of the one matching draft, and nothing when there are none or several |
| `ChatStream.LookupHit` | ai-gateway/src/agent/tool_observer.rs:346-360 | the index lookup returns the draft of one of the keys, and misses only if no key is there |
| `ChatStream.RegisterKeys` | ai-gateway/src/agent/tool_observer.rs:405-413 | afterwards all given keys point to the draft and all others are as before |
| `ChatStream.RouteBounded` | ai-gateway/src/agent/tool_observer.rs:279-307 | a delta goes to an existing draft or to the next free position |
| `ChatStreamSafety.FallbackScansMiss` | ai-gateway/src/agent/tool_observer.rs:346-386 | in every reachable table, a miss of the hash index makes all linear scans miss, except the unique same-name alias |
| `ChatStreamSafety.RouteExactly` | ai-gateway/src/agent/tool_observer.rs:346-386 | in every reachable table a delta goes to the draft of its index, else of its id, else to the only unindexed draft of its name, else to a new one while there are fewer than 16 |
| `ChatStreamSafety.RouteFits` | ai-gateway/src/agent/tool_observer.rs:346-403 | a routed delta stays within its choice and within 16 drafts, and goes to the draft that owns its index |
| `ChatStreamSafety.DeliverEffect` | ai-gateway/src/agent/tool_observer.rs:298-317 | what one delivery changes: one draft gains missing index and id, its keys point to it, everything else stays |
| `ChatStreamSafety.InvStep` | ai-gateway/src/agent/tool_observer.rs:250-344 | each delta and finish reason keeps the index sound: in bounds, same choice, owners registered, ids known |
| `ChatStreamSafety.RunInv` | ai-gateway/src/agent/tool_observer.rs:204-344 | that invariant holds after every stream |
| `ChatStreamSafety.IndexedNeverRemapped` | ai-gateway/src/agent/tool_observer.rs:405-413 | a (choice, index) key keeps its draft through every continuation of the stream |
| `ChatStreamSafety.ProviderIdRemappedExactly` | ai-gateway/src/agent/tool_observer.rs:405-413 | a provider id leaves its draft if and only if a delta brings it together with an index that another draft owns |
| `ChatStreamSafety.ProviderIdMoves` | ai-gateway/src/agent/tool_observer.rs:405-413 | a stream of three deltas in which an id does move, for any two ids |
| `ChatStreamSafety.KeyPartInjective` | ai-gateway/src/agent/tool_observer.rs:479-487 | key parts with an index or an id are equal only for the same index, or the same id without index |
| `ChatStreamSafety.IdempotencyKeysDistinct` | ai-gateway/src/agent/tool_observer.rs:479-487 | for every stream: at most 16 drafts, each with an index or id, with pairwise different idempotency keys |
| `ChatStreamHistory.DraftsSummarizeHistories` | ai-gateway/src/agent/tool_observer.rs:272-342 | each draft is the summary (first values, joined arguments, counters) of exactly the events that reached it |
| `ChatStreamHistory.OverflowMeansFull` | ai-gateway/src/agent/tool_observer.rs:438-453 | overflow of a history means a full buffer, no overflow means nothing was cut |
| `ChatStreamHistory.TruncationFlag` | ai-gateway/src/agent/tool_observer.rs:438-453 | the buffer is the first 16384 characters of the routed fragments, all of them exactly if they are no more; an unset flag means all of them, a set flag a full buffer |
| `ChatStreamHistory.TruncatedWithoutLoss` | ai-gateway/src/agent/tool_observer.rs:438-443 | the flag is set with nothing lost if and only if the fragments fill the buffer exactly and another one came after it was full |
| `ChatStreamHistory.EmptyFragmentSetsFlag` | ai-gateway/src/agent/tool_observer.rs:438-443 | such a stream: a filling fragment, then an empty one |
| `ChatStreamHistory.DeltasConserved` | ai-gateway/src/agent/tool_observer.rs:272-311 | chunks over all drafts are the keyed deltas minus those dropped at the cap of 16 |
| `ChatStreamHistory.ChunkCountersAddUp` | ai-gateway/src/agent/tool_observer.rs:294-311 | the stored counters add up to at most that number, and to exactly that number if and only if no draft got more chunks than a counter holds |
| `ChatStreamGroupBy.GroupByExactlyWhenClean` | ai-gateway/src/agent/tool_observer.rs:250-413 | on indexed streams, deltas go to the draft of their (choice, index) throughout if and only if no delta brings an id that a draft of its choice already carried to a (choice, index) without draft |
| `ChatStreamGroupBy.ChunksOfSlot` | ai-gateway/src/agent/tool_observer.rs:272-332 | a draft then takes exactly the chunks of its (choice, index) |
| `ChatStreamGroupBy.HistoryOfSlot` | ai-gateway/src/agent/tool_observer.rs:272-342 | what reaches a draft is its deltas and the finish reasons of its choice from its first delta on |
| `ChatStreamGroupBy.GroupByRefinement` | ai-gateway/src/agent/tool_observer.rs:250-453 | the k-th draft is the k-th distinct (choice, index), and every field of it comes from that slot: first id, name and type, first 16384 characters of its fragments, truncation flag, number of chunks, finish reason and done mark |
| `ChatStreamGroupBy.ConsistentIdsAreClean` | ai-gateway/src/agent/tool_observer.rs:346-403 | streams in which no id is used with two indexes of a choice meet that condition |
| `ChatStreamGroupBy.ReusedIdMergesSlots` | ai-gateway/src/agent/tool_observer.rs:346-403 | one id under two indexes: the second index gets no draft of its own |
| `ChatStreamObserver.AppendArguments` | ai-gateway/src/agent/tool_observer.rs:438-453 | the character loop appends up to the cap and flags truncation |
| `ChatStreamObserver.AbsorbDelta` | ai-gateway/src/agent/tool_observer.rs:309-331 | the field-by-field update of a draft |
| `ChatStreamObserver.ApplyFinishReason` | ai-gateway/src/agent/tool_observer.rs:335-342 | drafts of the choice without a finish reason get it, the others stay |
| `ChatStreamObserver.DraftTable.constructor` | ai-gateway/src/agent/tool_observer.rs:212-214 | a new table is empty |
| `ChatStreamObserver.DraftTable.FindDraftIndex` | ai-gateway/src/agent/tool_observer.rs:346-386 | the lookup with its fallback scans |
| `ChatStreamObserver.DraftTable.RegisterKeyAliases` | ai-gateway/src/agent/tool_observer.rs:405-413 | the loop that points all keys of a delta to its draft |
| `ChatStreamObserver.DraftTable.ObserveDelta` | ai-gateway/src/agent/tool_observer.rs:274-332 | one delta changes the table as the specification says |
| `ChatStreamObserver.DraftTable.HandTo` | ai-gateway/src/agent/tool_observer.rs:298-331 | creates the draft if needed, registers its keys and absorbs the delta |
| `ChatStreamObserver.DraftTable.ObserveToolCalls` | ai-gateway/src/agent/tool_observer.rs:272-333 | the loop over the tool calls of a choice |
| `ChatStreamObserver.DraftTable.ObserveChoice` | ai-gateway/src/agent/tool_observer.rs:261-342 | one choice changes the table by the events of what it says: its number or else its position, its deltas in order, then its finish reason, in any way of writing them |
| `ChatStreamObserver.DraftTable.ObserveFrame` | ai-gateway/src/agent/tool_observer.rs:250-344 | the same for the loop over the choices of a frame |
| `ChatStreamObserver.ScanStream` | ai-gateway/src/agent/tool_observer.rs:212-238 | the loop over the frames, with [DONE] noted and unparsable frames skipped |
| `ChatStreamObserver.ObservedCalls` | ai-gateway/src/agent/tool_observer.rs:239-248 | one observed call per draft |
| `ChatStreamObserver.ObserveStreamToolCalls` | ai-gateway/src/agent/tool_observer.rs:204-248 | nothing for a body over a megabyte; otherwise the drafts of the events that the first 128 frames say, with distinct keys, complete exactly when not truncated and finished or done |
| `ChatStreamObserver.ReadsStream` | ai-gateway/src/agent/tool_observer.rs:212-238 | the scan finds exactly the events of what the frames say, each marked if a [DONE] came before it |
| `ChatStreamObserver.ChoicesStayApart` | ai-gateway/src/agent/tool_observer.rs:261-265 | one call under two choice numbers is two drafts, whatever its index and id |
| `ChatWire.ReadsFrame` | ai-gateway/src/agent/tool_observer.rs:250-344 | however a chunk writes its choices, numbers, deltas and finish reasons, it is read as exactly their events in order, a choice without number going by its position |
| `ChatWire.PrintedFrame` | ai-gateway/src/agent/tool_observer.rs:250-344 | the events of a printed chunk are those of what was printed, for every list of choices |
| `ChatWire.PrintedStream` | ai-gateway/src/agent/tool_observer.rs:212-238 | every printed stream says, in its first 128 frames, what was printed |
| `JsonWire.ReadsText` | ai-gateway/src/agent/tool_observer.rs:1352-1358 | a text is read back from behind any white space around it; absent and null read as none |
| `JsonWire.ReadsNumber` | ai-gateway/src/agent/tool_observer.rs:1360-1372 | a u32 is read back from a JSON integer and from padded decimal text |
| `ChatStreamObserver.DraftsDoneOnlyIfStreamIs` | ai-gateway/src/agent/tool_observer.rs:455-487 | a draft is marked done only if the stream said [DONE] |
| `ResponsesStream.MergeMetadata` | ai-gateway/src/agent/tool_observer.rs:689-729 | the metadata loops compute the merged map |
| `ResponsesStream.MergeDuplicate` | ai-gateway/src/agent/tool_observer.rs:627-673 | the in-place merge computes `Merge` |
| `ResponsesMerge.MergedFields` | ai-gateway/src/agent/tool_observer.rs:689-729 | every single metadata field after a merge |
| `ResponsesMerge.MergedValues` | ai-gateway/src/agent/tool_observer.rs:627-673 | the merged item of any list of reports: last index and ids, last real name and status, else the first |
| `ResponsesMerge.MergedMetadataValues` | ai-gateway/src/agent/tool_observer.rs:689-719 | id fields of the metadata come from the last report that has them, argument fields from the first |
| `ResponsesMerge.MergedStatusMetadata` | ai-gateway/src/agent/tool_observer.rs:702-711 | over any list of reports, the status field of the metadata is the last real status, else that of the first report |
| `ResponsesMerge.FactsAreDisjunctions` | ai-gateway/src/agent/tool_observer.rs:675-687 | real name, real status, call id and output index are there exactly if some merged report had them |
| `ResponsesMerge.RichnessNeverDecreases` | ai-gateway/src/agent/tool_observer.rs:675-687 | a merge is at least as rich as both its reports |
| `ResponsesMerge.KeyedMerge` | ai-gateway/src/agent/tool_observer.rs:597-625 | deduplication by key, for every merge that keeps keys |
| `ResponsesMerge.StreamIsMerged` | ai-gateway/src/agent/tool_observer.rs:589-625 | at most 16 items with distinct keys in first-report order, each the merge of all its reports before the sixteenth item |
| `ResponsesMerge.MergedSequence` | ai-gateway/src/agent/tool_observer.rs:637-641 | the merged sequence number is that of the last report that was richer than all before it merged |
| `ResponsesMerge.DecodedReports` | ai-gateway/src/agent/tool_observer.rs:785-908 | decoded function calls have the shape the commutation results ask for; `EventIsReported` says which values they carry |
| `ResponsesMerge.FieldsCommute` | ai-gateway/src/agent/tool_observer.rs:627-673 | for agreeing reports of one key all fields but sequence and metadata are independent of order; the sequence is, exactly if richness or sequences settle it |
| `ResponsesMerge.FieldCommutes` | ai-gateway/src/agent/tool_observer.rs:689-729 | every metadata field but status is independent of the order |
| `ResponsesMerge.StatusCommutes` | ai-gateway/src/agent/tool_observer.rs:702-711 | the status field is, exactly without a status gap |
| `ResponsesMerge.MergeCommutesExactly` | ai-gateway/src/agent/tool_observer.rs:627-729 | two agreeing reports of one key merge to the same item in both orders if and only if those conditions hold |
| `ResponsesMerge.OrderDoesNotMatter` | ai-gateway/src/agent/tool_observer.rs:627-729 | any number of agreeing reports, in any order and repetition, give the same name, status, ids, output index and argument metadata, and the same status metadata if and only if one has a real status or the first ones have the same |
| `ResponsesMerge.StatusMetadataLags` | ai-gateway/src/agent/tool_observer.rs:702-711 | over any list of reports, metadata status and item status come apart if and only if the first report has no status and only placeholders follow |
| `ResponsesMerge.TwoReportsLag` | ai-gateway/src/agent/tool_observer.rs:702-711 | the shortest such list |
| `ResponsesKeys.FunctionCallKeyShared` | ai-gateway/src/agent/tool_observer.rs:1321-1350 | unless one response id extends the other ambiguously, keys are equal if and only if response and item id, else call id, else sequence agree |
| `ResponsesKeys.KeysIdentifyCallsExactly` | ai-gateway/src/agent/tool_observer.rs:1321-1350 | for two response ids, equal keys always mean the same call if and only if neither extends the other by :item or :call followed by the end or a colon |
| `ResponsesKeys.ReceivableKeysIdentifyCallsExactly` | ai-gateway/src/agent/tool_observer.rs:1321-1350 | the same for ids as the decoders read them, with no white space at the seam: if and only if |
| `ResponsesKeys.ReceivableKeysMeet` | ai-gateway/src/agent/tool_observer.rs:1321-1350 | each such extension is completed by ids that can be received |
| `ResponsesKeys.ReportIdsAreReceivable` | ai-gateway/src/agent/tool_observer.rs:1352-1358 | the ids of every decoded call are trimmed and not empty |
| `ResponsesKeys.ColonFreeIdsAreSafe` | ai-gateway/src/agent/tool_observer.rs:1321-1350 | response ids without colon never do |
| `ResponsesKeys.AmbiguousKeysMeet` | ai-gateway/src/agent/tool_observer.rs:1321-1350 | every such extension lets two calls of different responses share a key |
| `ResponsesKeys.FunctionCallKeyIsApart` | ai-gateway/src/agent/tool_observer.rs:1300-1350 | no function-call key equals a key of another event type |
| `ResponsesKeys.ReportsHaveProperKeys` | ai-gateway/src/agent/tool_observer.rs:731-1126 | every report of every event has the key of its kind |
| `ResponsesKeys.SameKeySameKind` | ai-gateway/src/agent/tool_observer.rs:1300-1350 | reports that share a key are all function calls or none is |
| `ResponsesKeys.ItemsAreUniform` | ai-gateway/src/agent/tool_observer.rs:589-673 | each item is the merge of function calls only, or the first report of another kind |
| `ResponsesKeys.ObserveReport` | ai-gateway/src/agent/tool_observer.rs:616-621 | one report is merged into its item or appended |
| `ResponsesKeys.ObserveFrame` | ai-gateway/src/agent/tool_observer.rs:604-621 | one frame contributes its report, if any |
| `ResponsesKeys.ObserveFrames` | ai-gateway/src/agent/tool_observer.rs:597-625 | the loop that stops at 16 items equals reading all frames |
| `ResponsesKeys.FullStays` | ai-gateway/src/agent/tool_observer.rs:601-603 | frames after the sixteenth item change nothing |
| `ResponsesKeys.ObservedFacts` | ai-gateway/src/agent/tool_observer.rs:589-687 | in every body, the four facts of an observed function call are the OR over the reports with its key |
| `ResponsesKeys.ObserveStreamItems` | ai-gateway/src/agent/tool_observer.rs:589-625 | nothing for a body over a megabyte; otherwise the merged reports of what the first 128 frames say, at most 16 items with distinct keys and those facts |
| `ResponsesKeys.ReadsEvents` | ai-gateway/src/agent/tool_observer.rs:597-625 | the reports of a stream are those of the events its frames say |
| `ResponsesKeys.SameCallSameKey` | ai-gateway/src/agent/tool_observer.rs:1321-1350 | an arguments event and an item event of one response and item id, or of one call id without item id, have one key |
| `ResponsesKeys.OneCallOneItem` | ai-gateway/src/agent/tool_observer.rs:589-673 | however many such events tell of one call, and in whatever order, it is one item, the merge of their reports |
| `ResponsesKeys.ArgumentsThenItem` | ai-gateway/src/agent/tool_observer.rs:627-673 | arguments and then the finished item give one item with the name and status of the item and the ids of either |
| `ResponsesWire.EventIsReported` | ai-gateway/src/agent/tool_observer.rs:731-1126 | every event is reported exactly as it says: response id, sequence, output index, item id, call id, name, status and arguments, each from its first place or else its second |
| `ResponsesWire.EventClasses` | ai-gateway/src/agent/tool_observer.rs:731-783 | which nine event types are observed, and as what |
| `ResponsesWire.ReportedExactly` | ai-gateway/src/agent/tool_observer.rs:731-783 | an event is reported if and only if its type is observed, a done item is an MCP call or a named function call, and reasoning has text |
| `ResponsesWire.PrintedEvent` | ai-gateway/src/agent/tool_observer.rs:731-783 | every event with all its members at both levels can be written so that it says them |
| `ResponsesWire.CallMetadataTells` | ai-gateway/src/agent/tool_observer.rs:823-845 | the metadata of a function call gives its ids, status, and the summary, hash and length of its arguments |
| `ResponsesWire.McpMetadataTells` | ai-gateway/src/agent/tool_observer.rs:955-980 | the metadata of an MCP call gives its ids, status, server, and whether it has output and error |
| `ResponsesWire.ResponseMetadataTells` | ai-gateway/src/agent/tool_observer.rs:983-1126 | the metadata of reasoning depends on its text only through the length; completion and error metadata give status and flags |
| `StepState.EncodeComponent` | ai-gateway/src/agent/step_state.rs:55-75 | fast path and loop both compute the encoding |
| `StepState.PlainTextUnchanged` | ai-gateway/src/agent/step_state.rs:56-61 | text without reserved characters is its own encoding |
| `StepState.DecodeInverts` | ai-gateway/src/agent/step_state.rs:55-87 | decoding undoes encoding for all strings |
| `StepState.EncodeInjective` | ai-gateway/src/agent/step_state.rs:55-87 | different values have different encodings |
| `StepState.NoDelimiter` | ai-gateway/src/agent/step_state.rs:77-87 | no encoding contains a delimiter |
| `StepState.KindTextInverts` | ai-gateway/src/agent/context.rs:82-99 | step kinds have different names, free of delimiters |
| `StepState.FingerprintIdentifiesStep` | ai-gateway/src/agent/step_state.rs:28-38 | equal fingerprints if and only if the steps are equal, with missing texts empty and a missing kind unknown |
| `StepState.StateKeyInjective` | ai-gateway/src/agent/step_state.rs:41-53 | equal store keys mean equal workspace, agent, run and step, for all strings |
| `StepConflict.DetectStepConflict` | ai-gateway/src/agent/step_state.rs:89-113 | an undisturbed check: disabled, without store, refused, or decided by what the key then holds, a mismatch being strict or a warning as configured |
| `StepConflict.InvStep` | ai-gateway/src/agent/step_state.rs:89-113 | every command of every gateway keeps the protocol invariant |
| `StepConflict.RunInv` | ai-gateway/src/agent/step_state.rs:89-113 | it holds after every interleaving, with expiry and lost replies |
| `StepConflict.HistoryGrows` | ai-gateway/src/agent/step_state.rs:89-113 | lifetimes and verdicts are never rewritten |
| `StepConflict.LifetimeValueFixed` | ai-gateway/src/app_redis.rs:253-274 | within one lifetime of a key its value and deadline never change |
| `StepConflict.RequestsIdentifySteps` | ai-gateway/src/agent/service.rs:551-585 | requests share a key, or a fingerprint, exactly if their steps, or normalized inputs, are equal |
| `StepConflict.LifetimeAgreement` | ai-gateway/src/agent/step_state.rs:89-113 | all no-conflict verdicts of one lifetime are for the same step with the same normalized input |
| `StepConflict.GetDecidesExactly` | ai-gateway/src/agent/step_state.rs:102-112 | in every reachable state a GET gives a conflict if and only if no unexpired lifetime began with its request; before the blocking lifetime expires, if and only if that one had another normalized input |
| `StepConflict.ConflictReasons` | ai-gateway/src/agent/step_state.rs:102-112 | so each logged conflict had another input on the key, or its blocking lifetime ran out before the GET |
| `StepConflict.ExpiryGivesFalseConflict` | ai-gateway/src/agent/step_state.rs:102-112 | the second reason occurs: the same step reported twice conflicts with itself after expiry |
| `RedisStore.AppRedis.GetString` | ai-gateway/src/app_redis.rs:224-234 | the live value of the key |
| `RedisStore.AppRedis.SetNxEx` | ai-gateway/src/app_redis.rs:253-274 | sets value and deadline exactly if the key is not live and the time to live is valid |
| `RedisStore.ValueLasts` | ai-gateway/src/app_redis.rs:253-274 | what it stores can be read for exactly the given seconds |
| `RedisStore.AppRedis.DelIfValue` | ai-gateway/src/app_redis.rs:276-293 | deletes exactly if the key holds the expected value |
| `RedisStore.NumberTexts` | ai-gateway/src/app_redis.rs:53-53 | the texts that INCR takes for a number are exactly the decimal texts of 64-bit integers |
| `RedisStore.AppRedis.Incr` | ai-gateway/src/app_redis.rs:53-53 | counts up, keeps the deadline, refuses other texts and the largest number |
| `RedisStore.AppRedis.Pttl` | ai-gateway/src/app_redis.rs:55-55 | time left, or -1 and -2 |
| `RedisStore.AppRedis.IdentityRateLimitCount` | ai-gateway/src/app_redis.rs:45-80 | the script computes `CountOne` |
| `RateWindow.OpenerFacts` | ai-gateway/src/app_redis.rs:53-62 | every call lies within the window of the call that opened it |
| `RateWindow.OpenersApart` | ai-gateway/src/app_redis.rs:53-62 | a later window opens only after the earlier one is over |
| `RateWindow.WindowState` | ai-gateway/src/app_redis.rs:53-62 | after each call the key holds the position in the window and its end |
| `RateWindow.CountsPositions` | ai-gateway/src/app_redis.rs:53-62 | from an empty key, replies count 1, 2, 3 in each window, with a deadline that never moves and no repair |
| `RateWindow.LostDeadlineIsRepaired` | ai-gateway/src/app_redis.rs:53-62 | from a live count without deadline, the first call counts on, sets a full window and reports one repair; later calls keep that deadline |
| `RateWindow.WindowLimit` | ai-gateway/src/middleware/identity_rate_limit.rs:62-77 | at most N calls of one window are admitted |
| `RateWindow.AtMostTwoWindows` | ai-gateway/src/config/identity_rate_limit.rs:20-21 | a stretch of one window length meets at most two windows |
| `RateWindow.IntervalLimit` | ai-gateway/src/config/identity_rate_limit.rs:20-21 | and at most 2N-1 calls in it are admitted |
| `RateWindow.IntervalLimitAttained` | ai-gateway/src/config/identity_rate_limit.rs:20-21 | for every limit and window some run admits 2N-1 |
| `SessionLock.InvStep` | ai-gateway/src/app_redis.rs:7-13 | acquire with or without reply, release, expiry and time keep the lock invariant |
| `SessionLock.RunInv` | ai-gateway/src/agent/tools/mcp_streamable_http/session.rs:94-118 | it holds after every run |
| `SessionLock.MutualExclusion` | ai-gateway/src/agent/tools/mcp_streamable_http/session.rs:94-118 | lost replies included, at most one claim is unexpired and unreleased, and the store holds its token: a late release takes nothing away |
| `EventTokens.HasNotCompletionTokens` | ai-gateway/src/agent/adapter.rs:615-624 | the loop finds the token "not" before a completion word |
| `EventTokens.NegatedSuffixIsTokenPair` | ai-gateway/src/agent/adapter.rs:596-624 | a "not" segment before a delimited completion word is such a token pair |
| `EventTokens.SuffixNegationIsRedundant` | ai-gateway/src/agent/adapter.rs:596-613 | for all strings the suffix test adds nothing to the token tests |
| `EventTokens.CompletionIsPlainSuffix` | ai-gateway/src/agent/adapter.rs:662-689 | for unambiguous types the completion test is: is, or ends in a delimiter and, one of three words |
| `Adapter.CopyKeysExactly` | ai-gateway/src/agent/adapter.rs:755-790 | a listed raw field is copied exactly where the metadata has no such key, and nothing else changes |
| `Adapter.CopyAllowlistedRawFields` | ai-gateway/src/agent/adapter.rs:755-790 | the loop does that for the allowlist |
| `PolicyGate.GovernedTaxonomy` | ai-gateway/src/agent/adapter.rs:52-245 | type, kind, phase, stage, source and confidence come from the mapping table or the guess alone; `AdapterTables` states both without naming them |
| `PolicyGate.TaxonomyIndependentOfClient` | ai-gateway/src/agent/adapter.rs:52-245 | for five sources they depend on the raw type (and n8n node type) only |
| `PolicyGate.TablesGateProperly` | ai-gateway/src/agent/adapter.rs:302-565 | every table row is pre-action exactly for the four gated types; the rows themselves are stated in `AdapterTables` |
| `PolicyGate.PolicyCheckedExactlyForGatedTypes` | ai-gateway/src/agent/service.rs:150-157 | policy is asked if and only if the adapted type is one of four; the raw types are stated in `AdapterTables` |
| `PolicyGate.LangGraphKnownTypes` | ai-gateway/src/agent/adapter.rs:25-50 | mapped LangGraph types are gated the same way |
| `PolicyGate.ClientDecidesElsewhere` | ai-gateway/src/agent/adapter.rs:9-50 | native and unmapped LangGraph events keep the client's taxonomy, so the client decides |
| `PolicyGate.NegatedTypesAreNotCompleted` | ai-gateway/src/agent/adapter.rs:567-594 | a type with a completion word right after "not" is never mapped; completed guesses end in a completion word |
| `PolicyGate.AdaptKeepsMetadata` | ai-gateway/src/agent/adapter.rs:691-790 | no adapter drops or overwrites an entry of the client's metadata |
| `AdapterTables.OpenAiAgentsTypes` | ai-gateway/src/agent/adapter.rs:302-349 | the adapted type, kind, phase and stage of each of the six listed raw types, and the guess for all others |
| `AdapterTables.OpenAiAgentsPolicy` | ai-gateway/src/agent/adapter.rs:302-349 | policy is asked if and only if the raw type is tool_called, handoff_requested or tool_approval_requested, or is unlisted and looks gated |
| `AdapterTables.N8nTypes` | ai-gateway/src/agent/adapter.rs:358-431 | the same for n8n, with and without a tool node |
| `AdapterTables.N8nPolicy` | ai-gateway/src/agent/adapter.rs:358-431 | policy is asked if and only if a tool node starts, the run waits, or the type is unlisted and looks gated |
| `AdapterTables.CrewAiTypes` | ai-gateway/src/agent/adapter.rs:433-492 | the same for the eight CrewAI types |
| `AdapterTables.CrewAiPolicy` | ai-gateway/src/agent/adapter.rs:433-492 | policy is asked if and only if tool usage starts, or the type is unlisted and looks gated |
| `AdapterTables.MastraTypes` | ai-gateway/src/agent/adapter.rs:494-565 | the same for the ten Mastra types |
| `AdapterTables.MastraPolicy` | ai-gateway/src/agent/adapter.rs:494-565 | policy is asked if and only if a tool or model call starts, or the type is unlisted and looks gated |
| `AdapterTables.LangGraphTypes` | ai-gateway/src/agent/adapter.rs:247-300 | the same for the eleven LangGraph types; all others keep the taxonomy of the client |
| `AdapterTables.LangGraphPolicy` | ai-gateway/src/agent/adapter.rs:247-300 | policy is asked if and only if a tool or model starts, or the type is unlisted and the client says so |
| `AdapterTables.UnknownSourcePolicy` | ai-gateway/src/agent/adapter.rs:168-195 | for unknown sources the guess decides alone |
| `AdapterTables.AlephantPolicy` | ai-gateway/src/agent/adapter.rs:9-15 | for native events the client decides |
| `AdapterTables.GuessIsRight` | ai-gateway/src/agent/adapter.rs:567-690 | the guess, read off tokens and last segment: nothing if incomplete or negated, else tool, model, approval, checkpoint or completed step, in this order |
| `AdapterTables.GuessIsGated` | ai-gateway/src/agent/adapter.rs:567-690 | a guess is gated if and only if an unfinished tool or model call, or else an approval, is named and nothing is negated |
| `EventTokens.CompletionIsLastSegment` | ai-gateway/src/agent/adapter.rs:662-679 | the fifteen suffix tests ask whether the last segment is a completion word |
| `AdapterTables.EnvelopeIdentity` | ai-gateway/src/agent/service.rs:395-468 | for each source, agent, run, step, parent and node are the client's or else the raw fields of that framework; id, name, tool call, attempt and hash are the client's |
| `AdapterTables.AdaptedEntry` | ai-gateway/src/agent/adapter.rs:691-790 | each entry of the adapted metadata is the client's, else the note of the framework, else the common note, else the listed raw field |
| `Redaction.RedactCleans` | ai-gateway/src/agent/redaction.rs:21-51 | after redaction no sensitive key at any depth holds anything but the placeholder |
| `Redaction.RedactFixesClean` | ai-gateway/src/agent/redaction.rs:21-51 | redaction changes a value if and only if it is not clean |
| `Redaction.RedactTwice` | ai-gateway/src/agent/redaction.rs:21-51 | redacting twice is redacting once |
| `Redaction.SensitiveAnywhere` | ai-gateway/src/agent/redaction.rs:46-51 | a key is sensitive wherever a listed word stands in it, in any letter case |
| `Redaction.NineWordsDecide` | ai-gateway/src/agent/redaction.rs:4-18 | nine of the thirteen words decide which keys are sensitive |
| `Redaction.PrepareKeeps` | ai-gateway/src/agent/service.rs:402-414 | each entry keeps its key, redacted where it must be, unless a name conflict takes the key |
| `Redaction.NoteTakesFourKeys` | ai-gateway/src/agent/service.rs:470-494 | the note of a name conflict sets exactly four keys and leaves all others |
| `PolicyMetadata.FirstFree` | ai-gateway/src/agent/service.rs:207-214 | the numbered search ends at the first free number, within the number of untried keys |
| `PolicyMetadata.FreeKey` | ai-gateway/src/agent/service.rs:199-215 | the key found is unused and extends the base |
| `PolicyMetadata.AvailableOriginalKey` | ai-gateway/src/agent/service.rs:199-215 | the loop finds that key within map size plus one tries |
| `PolicyMetadata.FreePolicyKey` | ai-gateway/src/agent/policy.rs:332-347 | the key found is unused |
| `PolicyMetadata.AvailablePolicyOriginalKey` | ai-gateway/src/agent/policy.rs:332-347 | two names first, then the numbered search |
| `PolicyMetadata.PreserveOriginalField` | ai-gateway/src/agent/service.rs:188-197 | computes `Preserve` |
| `PolicyMetadata.PreserveKeeps` | ai-gateway/src/agent/service.rs:188-197 | afterwards the source key is free, its entry sits under a key that extends the original name, all others keep theirs |
| `PolicyMetadata.DecisionMeaning` | ai-gateway/src/agent/policy.rs:187-231 | allowed if and only if the number is 1 or 5, or is none of 1 to 5 and the flag is set; which number gives which text |
| `PolicyMetadata.ScopeMeaning` | ai-gateway/src/agent/policy.rs:208-211 | which scope number gives which name |
| `PolicyMetadata.EntryTellsResponse` | ai-gateway/src/agent/policy.rs:279-308 | the policy entry gives back the reason, blocker, hint, id, scope and revision of the answer |
| `PolicyMetadata.CompactEntryTellsResponse` | ai-gateway/src/agent/policy.rs:310-330 | the compact entry gives the same without hint, its free texts cut to 128 characters |
| `PolicyMetadata.UnavailableRecordsTell` | ai-gateway/src/agent/service.rs:159-186 | both audit records say that policy was unavailable, with failed status, error severity and neither allowed nor denied |
| `PolicyMetadata.CompactRecordsTell` | ai-gateway/src/agent/policy.rs:310-326 | compact records say that metadata is missing and why |
| `PolicyMetadata.FreePolicyKeyIsFirst` | ai-gateway/src/agent/policy.rs:332-347 | the displaced policy entry gets the first of two names that is free, or else the first free number |
| `PolicyMetadata.AttachPolicyDecision` | ai-gateway/src/agent/policy.rs:279-308 | computes `AttachDecision`, metadata that is no object being wrapped |
| `PolicyMetadata.AttachPolicyUnavailable` | ai-gateway/src/agent/service.rs:159-186 | computes `AttachUnavailable` |
| `PolicyMetadata.DecisionLosesNothing` | ai-gateway/src/agent/policy.rs:279-308 | every earlier entry survives with its value, each in its own place; an earlier policy entry under a key that extends policy_original or policy_client_original |
| `PolicyMetadata.UnavailableLosesNothing` | ai-gateway/src/agent/service.rs:159-197 | the same for policy, status and severity, under keys that extend policy_original, status_original and severity_original |
| `PolicyMetadata.SinkStatusReplaces` | ai-gateway/src/agent/service.rs:376-385 | the sink status overwrites an entry of that name and touches nothing else |
| `PolicyMetadata.AttachedKeeps` | ai-gateway/src/agent/service.rs:328-330 | decision and sink status together keep every entry but an earlier sink status |
| `PolicyMetadata.UnavailableKeeps` | ai-gateway/src/agent/service.rs:302-303 | so do audit and sink status |
| `JsonText.SizeIsTextLength` | ai-gateway/src/agent/service.rs:141-143 | the counted size of every value is the UTF-8 length of its compact JSON text, escapes included, in whatever order keys are written |
| `JsonSize.TotalWithout` | ai-gateway/src/agent/service.rs:141-143 | the size of an object does not depend on the order of its entries |
| `JsonSize.AddField` | ai-gateway/src/agent/service.rs:141-143 | a new entry adds exactly its own bytes |
| `JsonSize.SetField` | ai-gateway/src/agent/service.rs:141-143 | setting an entry adds its bytes and takes away those of the one before |
| `MetadataLimit.CompactDenialBound` | ai-gateway/src/agent/policy.rs:311-330 | the compact record of any denial takes at most 2637 bytes with its sink status |
| `MetadataLimit.LargestDenialSize` | ai-gateway/src/agent/policy.rs:311-330 | some denial takes exactly 2637 bytes |
| `MetadataLimit.DenialsFitExactlyFrom` | ai-gateway/src/agent/policy.rs:311-330 | all compact denials fit a limit if and only if it is at least 2637 bytes |
| `MetadataLimit.CompactUnavailableSize` | ai-gateway/src/agent/service.rs:217-233 | the compact audit record takes exactly 360 bytes |
| `MetadataLimit.AttachedSize` | ai-gateway/src/agent/service.rs:328-330 | the exact size of the record for every object and decision: plus the entries, plus the growth of a moved key, minus a replaced sink status |
| `MetadataLimit.PolicyEntrySize` | ai-gateway/src/agent/policy.rs:294-307 | the exact size of any decision's entry |
| `MetadataLimit.SkippedEntrySize` | ai-gateway/src/agent/policy.rs:257-277 | the entry of a skipped event takes 212 bytes |
| `EventPipeline.Passed` | ai-gateway/src/agent/service.rs:273-354 | the number of events before the first failure |
| `EventPipeline.EventSink.constructor` | ai-gateway/src/agent/service.rs:340-351 | a new sink has no records |
| `EventPipeline.EventSink.Append` | ai-gateway/src/agent/service.rs:340-351 | a record is taken if the sink is up, otherwise nothing changes |
| `EventPipeline.SettleEvent` | ai-gateway/src/agent/service.rs:298-338 | policy, attachment, size checks and compact fallback of one event |
| `EventPipeline.RuleOn` | ai-gateway/src/agent/service.rs:274-338 | the loop body up to emission computes the ruling, which `StoppedExactly` decides without it |
| `EventPipeline.EmitBatch` | ai-gateway/src/agent/service.rs:271-366 | the loop leaves exactly the specified records and reply |
| `EventPipeline.HandleAgentEvents` | ai-gateway/src/agent/service.rs:271-366 | the same for the rulings of the gateway, whose records and replies the lemmas below decide |
| `EventPipelineSafety.RecordsFollowBatch` | ai-gateway/src/agent/service.rs:271-366 | records are the batch's first events in order under their identity, plus one audit exactly if the reply is policy-unavailable; accepted means all were emitted, counted and decided |
| `EventPipelineSafety.EmissionsCompose` | ai-gateway/src/agent/service.rs:271-354 | a batch cut in two leaves the same records |
| `EventPipelineSafety.RepliesCompose` | ai-gateway/src/agent/service.rs:271-366 | and its replies combine to the same reply |
| `EventPipelineSafety.EverythingEmittedFits` | ai-gateway/src/agent/service.rs:137-148 | every emitted metadata fits the limit |
| `EventPipelineSafety.DenialIsRecorded` | ai-gateway/src/agent/service.rs:331-338 | from 2637 bytes on (the default is 8192) a denied event is never refused for size after the first check |
| `EventPipelineSafety.UnavailableIsRecorded` | ai-gateway/src/agent/service.rs:301-309 | an unavailable policy is put on record if and only if the limit is at least 360 bytes or the full record fits |
| `EventPipelineSafety.AllowedEmittedExactly` | ai-gateway/src/agent/service.rs:328-334 | any event with an allowed decision and any metadata is emitted if and only if that size fits, and otherwise refused for size |
| `EventPipelineSafety.AuditHeadroom` | ai-gateway/src/agent/service.rs:325-334 | without policy check and earlier entries: if and only if the metadata leaves 242 bytes |
| `EventPipelineSafety.PassesFirstCheckOnly` | ai-gateway/src/agent/service.rs:274-334 | metadata within 241 bytes of the limit passes the first check and is refused after attachment |
| `EventPipelineSafety.SettledDecision` | ai-gateway/src/agent/service.rs:298-328 | what is emitted carries the policy's decision, an audit means policy was asked and unavailable |
| `EventPipelineSafety.GatedEventsAreDecided` | ai-gateway/src/agent/service.rs:298-328 | for five sources, gated types are emitted only with the decision of the policy and allowed exactly on numbers 1 and 5 or by the flag; all others only as skipped |
| `EventPipelineSafety.AllowedMeansPolicyAllowed` | ai-gateway/src/agent/service.rs:356-365 | an accepted batch is allowed if and only if policy is disabled or its number or flag allows, for each gated event |
| `EventPipelineSafety.StoppedExactly` | ai-gateway/src/agent/service.rs:274-338 | if and only if for each of the four errors, for emission and for the audit, from size, configuration, step answer and policy answer, in their order |
| `EventPipelineSafety.StoppedInBatch` | ai-gateway/src/agent/service.rs:271-297 | an event stopped by an early check leaves no record, nor does any after it, and if all before it passed the batch is answered with exactly that error |
| `EventPipelineSafety.RecordSaysWho` | ai-gateway/src/agent/service.rs:281-293 | a record carries the identity of its event and exactly the conflicts that were let through as warnings |
| `EventPipelineSafety.RecordKeepsMetadata` | ai-gateway/src/agent/service.rs:328-338 | an emitted record carries all metadata if that fits, else it is the compact record of a denial |
| `EventPipelineSafety.AuditKeepsMetadata` | ai-gateway/src/agent/service.rs:302-309 | an audit record carries all metadata if that fits, else it is the compact audit record |
| `EventPipelineSafety.ClientMetadataSurvives` | ai-gateway/src/agent/service.rs:274-338 | from request to sink, for every emitted event and configuration: if the full record fits, it has every entry of the client that is not overwritten, redacted where that is on, each in its own place, a policy entry under a key that extends one of two names; otherwise the event was denied and the record is the compact one |
| `EventPipelineSafety.ClientMetadataSurvivesAudit` | ai-gateway/src/agent/service.rs:298-322 | the same for the audit record of an unavailable policy |
| `EventPipelineSafety.OverwrittenKeys` | ai-gateway/src/agent/service.rs:376-385 | under a sink status, and under four keys when a name conflict is noted, a full record has the gateway's value |

## Left out

- ChatStreamObserver.ObserveStreamToolCalls: does not state argument summary, hash, character count, validity flag and metadata object of a call, which are copies and library results of the draft it does state.
- PolicyMetadata.AvailableOriginalKey: counts tries with an unbounded number; it stays below map size plus two, so the 32-bit counter of the code cannot run over in any object of fewer than four billion entries.
- SseStandard.ConformsExactlyWhenFaithful: says nothing of texts with data pending at the end; `FaithfulTexts` decides those that meet its condition, and where both conditions fail the outcome can be either.
- EventPipelineSafety.AuditHeadroom: is the special case with a fixed number; `AllowedEmittedExactly` has no such conditions.
- Connections, reconnects, timeouts and log transport; a failed command appears as a refusal, a lost reply or a sink that is down. A record whose emission is reported as failed counts as not emitted.
- JSON, UTF-8 and header parsing, SHA-256, UUIDs and clocks; parsed values, digests, ids and times are given.
- Authentication, method, batch-size and body-size checks before the batch loop.
- Agent-name resolution and the comparison of header context with the event; their results are given.
- Building the policy request, and the violations, warnings and messages of the reply.
- Event fields that no branch reads: version, sequence, timestamps, handoff id, agent name, workspace and virtual key.
- The two observers of non-streamed bodies.
- The in-memory limiter, the client-address limiter and the in-flight counter.
- `app.rs`, configuration loading, middleware wiring and command-line code, which would only add easy members.
