# Verified models of the feature-flag providers

The repository holds OpenFeature providers and hooks. Most of them forward to an SDK; the parts modelled here are
those that hold state, arithmetic or transformations of their own. Each is a Dafny module of functions that say what
one call or callback does, classes and methods that do it the way the source does (fields updated in place, loops),
and lemmas about the functions. `dafny verify dfyconfig.toml` checks the whole project.

* **flagd `$ref` expansion** (`Json`, `RefExpansion`, `RefExactness`, `RefOccurrence`, `RefTransform`, `RefParser`).
  `transform` replaces text in a serialized document. Against a model of `JSON.stringify` and `replaceAll`, one round
  of its loop is proved to be a substitution on the tree for exactly the keys that need no escaping and the bodies
  without replacement sequences, and what happens for escaped keys is settled; the whole loop leaves no reference when
  no body refers backward, and is one simultaneous substitution when no body refers to a later key.
* **flagd fractional bucketing** (`Fractional`). Exact numbers of hashes per bucket, fairness, monotonicity, scaling.
* **Debounce hook and cache** (`ExpiringCache`, `DebounceHook`). The cache's fields are tied to the history of its
  calls; what `get` finds is characterized by that history alone, and the debounce guarantee follows. Two comments
  promise otherwise, and the model follows the code: every `set` restarts the time to live
  (`libs/hooks/debounce/src/lib/utils/fixed-size-expiring-cache.ts:20-25`), and the stages of a key share one time to
  live although they are described as independent (`DebounceHook.StagesShareTheClock`).
* **WASM reference table** (`RefTable`). Reference-counted ids, their pool, and NaN boxing.
* **Connection protocols**. `FlagdConnection`, `FlagdEffects` and `FlagdObjects`: the reconnect loop of the flagd
  stream together with the provider's STALE/ERROR/READY events. `OfrepProtocol`, `OfrepDetection`, `OfrepClose`,
  `OfrepEffects` and `OfrepObjects`: fetch generations, SSE against polling, and close in the OFREP web provider, with
  the shutdown of its API. `SseProtocol`, `SseEffects` and `SseObjects`: grace period, coalescing and inactivity of its
  SSE manager; `OfrepSse` puts the two together. The `Effects` modules say what each input does, and over runs which
  inputs lead to which requests, reports and delays. Every `await` is a point where anything else may come in between, every timer a pending event with a due time;
  theorems hold for every run of such steps, with `now` and all responses arbitrary.
* **Multi-provider** (`Strategies`, `Comparison`, `MultiProvider`, `StatusTracker`). The evaluation loop with its hooks
  refines a declarative description of each strategy; the tracker's emitted events replay to the most critical
  status. What a provider or hook does when called is a function of what it is called with.
* **Context conversion** (`ContextGraph`). Cyclic object graphs become trees; which paths survive is settled exactly.
* **Event publisher** (`EventPublisher`). Conservation of events under interleaved flushes and failures.
* **Fallback hash** (`FnvHash`). Two FNV-1a passes; each step is undone by a modular inverse.

Objects whose callbacks interleave record the run that has led to their state (`Valid()`), so that the theorems
about runs apply to them; their methods promise what these theorems give.

Where the code does not do what one would expect, the exact condition is proved, and where useful a run that gets
there is given: replacement sequences and escaped keys (`RefOccurrence.RoundIsSubstitutionExactly`,
`RefExactness.EscapedKeyHitsAnother`), bodies that make the order of evaluators show or leave references behind
(`RefTransform.OrderIsIrrelevantExactly`, `RefTransform.NoReferenceLeftExactly`), a rejected first flagd connection
that never counts as initialized (`FlagdConnection.RejectedIsNeverInitialized`), a reconnect loop that survives close
(`FlagdConnection.CloseEndsTheLoopExactly`), generations mixed up in local-cache-first mode
(`OfrepProtocol.LocalCacheFirstMixesGenerations`), responses that drop a newer SSE manager
(`OfrepDetection.ManagerIsDroppedExactly`, `OfrepDetection.DetectionCanEnd`), change detection that a suspended call
switches on again after close (`OfrepClose.CloseIsFinalExactly`), unusable event streams that end polling
(`OfrepSse.ChangeLeavesDarkExactly`), event sources left open by a fatal error (`SseProtocol.RunIsTidyExactly`), a
status filter that never filters (`StatusTracker.EveryProviderStaysEligible`), undefined values in comparisons
(`Comparison.SameInAnyOrderExactly`), `_meta` against `privateAttributes` and attributes dropped because object
literals inherit their names (`ContextGraph.MetaDependsOnOrderExactly`, `ContextGraph.SpecialKeys`), and failures,
restarts and stops of the event publisher (`EventPublisher.RejectionKeepsOrderExactly`,
`EventPublisher.OneRunnerExactly`, `EventPublisher.RejectedAfterStopStays`).

## Model

| member | source | states |
|---|---|---|
| Json.TextUnique | libs/shared/flagd-core/src/lib/parser.ts:97-100 | serialized values form a prefix code: a text is that of one value only, whatever follows it |
| Json.SerializeInjective | libs/shared/flagd-core/src/lib/parser.ts:97-100 | different trees have different texts |
| Json.LiteralIsReadBack | libs/shared/flagd-core/src/lib/parser.ts:97-101 | a string literal as written, read by an independent reader of JSON escapes, is the string again |
| RefExpansion.NoMatchInLiteral | libs/shared/flagd-core/src/lib/parser.ts:101-103 | the search pattern cannot start at a brace inside a string literal |
| RefExpansion.SkipLiteral | libs/shared/flagd-core/src/lib/parser.ts:101-103 | replacing leaves every string literal alone: no match inside it or across its end |
| RefExpansion.MatchIsReference | libs/shared/flagd-core/src/lib/parser.ts:101-103 | an object whose text starts with the pattern of a key is the reference that the pattern spells: to the key itself if it needs no escaping |
| RefExpansion.ScanValue | libs/shared/flagd-core/src/lib/parser.ts:101-103 | replacing in the text of any value, in any position of a document, yields the text of the value with the references that the pattern spells substituted |
| RefExpansion.RoundSubstitutesWhatItSpells | libs/shared/flagd-core/src/lib/parser.ts:99-104 | for a body without replacement sequences, one `replaceAll` is one tree substitution, on every document, for the references that `JSON.stringify` writes with the evaluator's key as it stands |
| RefExpansion.ReplaceIsSubstitute | libs/shared/flagd-core/src/lib/parser.ts:99-104 | for a key that needs no escaping these are the references to that key |
| RefExactness.DirectiveChangesTemplate | libs/shared/flagd-core/src/lib/parser.ts:103 | a replacement text with a replacement sequence never expands to itself |
| RefExactness.DirectiveBreaksRound | libs/shared/flagd-core/src/lib/parser.ts:103 | hence such a body is not inserted as it is: a document shows the difference |
| RefExactness.EscapedKeyMissesItself | libs/shared/flagd-core/src/lib/parser.ts:101 | the reference to a key that needs JSON escaping, as a document of its own, is left in place by that key's round |
| RefExactness.EscapedKeyHitsAnother | libs/shared/flagd-core/src/lib/parser.ts:101-104 | a key that reads like the escaped spelling of another one has the references to that other one substituted instead, on every document, if and only if the body has no replacement sequence |
| RefOccurrence.ControlKeyNeverOccurs | libs/shared/flagd-core/src/lib/parser.ts:101-103 | a key with a control character is found in no document |
| RefOccurrence.SpelledKeyOccurs | libs/shared/flagd-core/src/lib/parser.ts:101-103 | a key that reads like the escaped spelling of another one is found in some document |
| RefOccurrence.OwnReferenceExactly | libs/shared/flagd-core/src/lib/parser.ts:99-104 | with the reference to itself for a body, the round of a key that needs escaping leaves all documents as they are, as it should, if and only if its pattern occurs in none |
| RefOccurrence.RoundIsSubstitutionExactly | libs/shared/flagd-core/src/lib/parser.ts:99-104 | a round is a substitution on all documents if and only if the key needs no escaping and the body has no replacement sequence, or the key needs escaping and the body is its own reference and its pattern occurs in no document |
| RefOccurrence.SequenceInserts | libs/shared/flagd-core/src/lib/parser.ts:101-104 | in a text with one match, a body with one replacement sequence inserts a dollar for `$$`, the match for `$&`, what stands before it for ``$` ``, what follows it for `$'`, and otherwise itself |
| RefTransform.RoundsAreSimultaneous | libs/shared/flagd-core/src/lib/parser.ts:99-104 | when no body mentions a later key or is the string of one, substituting one key after the other is substituting all at once |
| RefTransform.OrderIsIrrelevantExactly | libs/shared/flagd-core/src/lib/parser.ts:99-104 | the enumeration order of the evaluators makes no difference, on any document, if and only if no body mentions the key of another one or is the string of that key (evaluators that are their own reference aside) |
| RefTransform.NoReferenceLeftExactly | libs/shared/flagd-core/src/lib/parser.ts:99-104 | no reference to a defined evaluator remains, in any document, if and only if no body mentions its own key or an earlier one or is the string of such a key |
| RefTransform.MentionsDependOnOrder | libs/shared/flagd-core/src/lib/parser.ts:99-104 | whenever a body mentions the key of another evaluator, two orders give different results on some document |
| RefTransform.StringBodiesDependOnOrder | libs/shared/flagd-core/src/lib/parser.ts:99-104 | the same whenever a body is the string of another key, since it can complete a reference around it |
| RefParser.ReferenceBecomesBody | libs/shared/flagd-core/src/lib/parser.ts:99-104 | after all rounds, a position that held the reference to an evaluator holds its body, if that is apart from all keys |
| RefParser.Transform | libs/shared/flagd-core/src/lib/parser.ts:89-107 | throws exactly on null; returns the text untouched without evaluators or with falsy ones; otherwise the text after one `replaceAll` for each own key, index or character of `$evaluators`, in order. For clean, distinct evaluators it is the text of a tree in which every reference whose body is apart from all keys has become that body, everything apart from all keys has stayed, and, if no body refers backward, no reference is left; if no body mentions a later key, of the simultaneous substitution |
| Fractional.ToBucketingList | libs/shared/flagd-core/src/lib/targeting/fractional.ts:78-121 | succeeds exactly if every entry is a pair or a single of a scalar variant and an integral weight, with a variant for each (null for a missing one), its weight clamped at zero or one by default, and the total |
| Fractional.Evaluate | libs/shared/flagd-core/src/lib/targeting/fractional.ts:10-76 | null without a flag key, or without a targeting key where one is needed; otherwise of the entries, with the first string or flag key and targeting key as the hashed text, the variant of the one bucket between whose bounds the hash lies, or null if an entry is malformed or the total not within 1..2147483647 |
| Fractional.Scan | libs/shared/flagd-core/src/lib/targeting/fractional.ts:61-75 | scaling and the loop over running sums pick the bucket whose interval holds the hash, and never fall through for a positive total |
| Fractional.PickedIffInShare | libs/shared/flagd-core/src/lib/targeting/fractional.ts:61-73 | a bucket is picked if and only if the hash lies between the rounded-up proportions of the running sums |
| Fractional.ExactlyOneBucket | libs/shared/flagd-core/src/lib/targeting/fractional.ts:64-75 | every hash picks exactly one bucket |
| Fractional.ShareSize | libs/shared/flagd-core/src/lib/targeting/fractional.ts:61-73 | exactly ceil(2^32*C[i+1]/T) - ceil(2^32*C[i]/T) of the 2^32 hashes pick bucket i |
| Fractional.ShareIsFair | libs/shared/flagd-core/src/lib/targeting/fractional.ts:61-73 | each share is within one hash of its exact proportion |
| Fractional.PositiveWeightsAreReachable | libs/shared/flagd-core/src/lib/targeting/fractional.ts:53-59 | up to MAX_WEIGHT a positive weight gets at least two hashes; weight zero gets none |
| Fractional.LastUnitShare | libs/shared/flagd-core/src/lib/targeting/fractional.ts:61-73 | a last bucket of weight one gets exactly floor(2^32/T) hashes |
| Fractional.ReachedUpToTheLimitExactly | libs/shared/flagd-core/src/lib/targeting/fractional.ts:53-73 | for all weights of total T, every positive weight gets a hash if and only if T is at most 2^32, and two if and only if T is at most 2^31 |
| Fractional.LargerSumsNeverMoveLater | libs/shared/flagd-core/src/lib/targeting/fractional.ts:61-73 | with equal totals, pointwise larger running sums never move a hash to a later bucket |
| Fractional.GrowingTheFirstArmKeepsItsMembers | libs/shared/flagd-core/src/lib/targeting/fractional.ts:61-73 | growing the first arm at the cost of others keeps everyone in it |
| Fractional.CommonFactorMovesNothing | libs/shared/flagd-core/src/lib/targeting/fractional.ts:61-73 | multiplying all weights by a common factor moves no hash |
| ExpiringCache.FixedSizeExpiringCache.constructor | libs/hooks/debounce/src/lib/utils/fixed-size-expiring-cache.ts:31-40 | an empty cache with the given limits |
| ExpiringCache.NewCache | libs/hooks/debounce/src/lib/utils/fixed-size-expiring-cache.ts:31-40 | refuses exactly limits below one |
| ExpiringCache.FixedSizeExpiringCache.Get | libs/hooks/debounce/src/lib/utils/fixed-size-expiring-cache.ts:48-60 | answers with the value last set if and only if that set is due in the history, and keeps the map tied to the history |
| ExpiringCache.FixedSizeExpiringCache.Set | libs/hooks/debounce/src/lib/utils/fixed-size-expiring-cache.ts:69-82 | adds one set to the history the map is tied to |
| ExpiringCache.FixedSizeExpiringCache.EvictOldest | libs/hooks/debounce/src/lib/utils/fixed-size-expiring-cache.ts:87-94 | removes the first key of a non-empty map and nothing else |
| ExpiringCache.EvictedIsNotDue | libs/hooks/debounce/src/lib/utils/fixed-size-expiring-cache.ts:69-82 | the key evicted for a new one has had maxItems other keys set after it, so nothing due is lost |
| ExpiringCache.RunKeepsInv | libs/hooks/debounce/src/lib/utils/fixed-size-expiring-cache.ts:48-94 | after every history the map holds distinct keys in expiry order, their last values, and every key that is due |
| ExpiringCache.GetFindsWhatIsDue | libs/hooks/debounce/src/lib/utils/fixed-size-expiring-cache.ts:48-94 | after every history of gets and sets, a key is found if and only if less than ttl has passed since it was last set and fewer than maxItems other keys have been set since |
| ExpiringCache.SizeIsBounded | libs/hooks/debounce/src/lib/utils/fixed-size-expiring-cache.ts:69-94 | the map never exceeds maxItems |
| DebounceHook.DebounceHook.constructor | libs/hooks/debounce/src/lib/debounce-hook.ts:85-105 | a hook with no calls yet and an empty cache |
| DebounceHook.DebounceHook.MaybeSkipAndCache | libs/hooks/debounce/src/lib/debounce-hook.ts:139-204 | runs the inner stage unless its slot is cached; passes on the inner outcome if run, and if skipped what the last call that really ran this stage for this key returned or threw |
| DebounceHook.DebounceHook.CacheSuccess | libs/hooks/debounce/src/lib/debounce-hook.ts:210-218 | one set of the entry in which the stage's slot is the success |
| DebounceHook.DebounceHook.CacheError | libs/hooks/debounce/src/lib/debounce-hook.ts:220-224 | likewise for an error, if errors are cached; otherwise nothing |
| DebounceHook.SkippedRepeatsLastRun | libs/hooks/debounce/src/lib/debounce-hook.ts:139-204 | every skipped call returns the context that the last call to really run that stage for that key returned, or throws the error it threw, and that only if errors are cached |
| DebounceHook.DebounceGuarantee | libs/hooks/debounce/src/lib/debounce-hook.ts:139-224 | after a cached run, the inner stage runs again for the key only when the debounce time has passed or maxCacheItems other keys were written |
| DebounceHook.SkippedExactlyWhen | libs/hooks/debounce/src/lib/debounce-hook.ts:139-224 | a stage is skipped if and only if its slot is in the entry and the entry, whichever stage renewed it, is due |
| DebounceHook.StagesShareTheClock | libs/hooks/debounce/src/lib/debounce-hook.ts:210-224 | another stage can keep a stage skipped beyond its own debounce time |
| RefTable.Go.constructor | libs/providers/go-feature-flag/src/lib/wasm/wasm_exec.js:538-550 | the initial table satisfies the invariant |
| RefTable.Go.BoxValue | libs/providers/go-feature-flag/src/lib/wasm/wasm_exec.js:228-277 | keeps the invariant, adds one reference, and gives a word that unboxes to the value (-0 to 0) |
| RefTable.Go.BoxTabled | libs/providers/go-feature-flag/src/lib/wasm/wasm_exec.js:253-276 | keeps the invariant and adds one reference; the word carries the id and the type flag |
| RefTable.Go.GiveId | libs/providers/go-feature-flag/src/lib/wasm/wasm_exec.js:253-262 | the id is that of the value, or reused from the pool, or new |
| RefTable.Go.FinalizeRef | libs/providers/go-feature-flag/src/lib/wasm/wasm_exec.js:371-386 | keeps the invariant for every word; releases the id when its last reference goes |
| RefTable.LiveXorPooled | libs/providers/go-feature-flag/src/lib/wasm/wasm_exec.js:253-263 | every id from 7 up is either live or in the pool, and there once |
| RefTable.BoxAddsOne | libs/providers/go-feature-flag/src/lib/wasm/wasm_exec.js:253-263 | boxing adds one to the count of that value and moves no other |
| RefTable.FinalizeTakesOne | libs/providers/go-feature-flag/src/lib/wasm/wasm_exec.js:371-386 | finalizing takes one from the value the word names, and from no other |
| RefTable.RoundTrip | libs/providers/go-feature-flag/src/lib/wasm/wasm_exec.js:209-277 | unboxing a boxed value gives it back, except that -0 becomes 0 |
| RefTable.ReferenceBits | libs/providers/go-feature-flag/src/lib/wasm/wasm_exec.js:264-276 | the low half of a reference is the id, and its high half the head of a NaN with flag 2 for strings, 3 for symbols, 4 for functions and 1 for objects |
| RefTable.UnboxMeans | libs/providers/go-feature-flag/src/lib/wasm/wasm_exec.js:209-221 | either zero stands for undefined, any other double for itself, and a NaN for the entry of the table at its low half |
| RefTable.RunIsValid | libs/providers/go-feature-flag/src/lib/wasm/wasm_exec.js:228-263 | the invariant (ids and values inverse, ids accounted for) holds in every run of boxes and finalizations of any words |
| RefTable.HeldIsBalance | libs/providers/go-feature-flag/src/lib/wasm/wasm_exec.js:253-263 | in every run a value's count is its boxes minus its finalizations, and it has an id exactly while that is positive |
| RefTable.HeldReferenceStays | libs/providers/go-feature-flag/src/lib/wasm/wasm_exec.js:209-277 | while it is positive, an old reference keeps unboxing to the value |
| FlagdConnection.StepKeepsInv | libs/providers/flagd/src/lib/service/in-process/grpc/grpc-fetch.ts:101-213 | every callback keeps the agreement between connection, promise, timers and the provider's error state |
| FlagdConnection.RunKeepsInv | libs/providers/flagd/src/lib/service/in-process/grpc/grpc-fetch.ts:83-213 | so it holds in every reachable state |
| FlagdConnection.ExactlyOneOutstanding | libs/providers/flagd/src/lib/service/in-process/grpc/grpc-fetch.ts:101-213 | from connect until close or a fatal status exactly one readiness wait, stream or reconnect timer is outstanding; after a fatal status none |
| FlagdConnection.StatusEventsAlternate | libs/providers/flagd/src/lib/flagd-provider.ts:124-159 | STALE and READY strictly alternate from STALE on; ERROR comes at most once between them, right after STALE and not before the grace period has passed |
| FlagdConnection.ReconnectDelay | libs/providers/flagd/src/lib/service/in-process/grpc/grpc-fetch.ts:202-213 | only an error reported by a stream delays the reconnect, by the maximal backoff |
| FlagdConnection.RejectedIsNeverInitialized | libs/providers/flagd/src/lib/service/in-process/grpc/grpc-fetch.ts:83-93 | after a rejected first connection no configuration change is ever reported |
| FlagdConnection.CloseIsSilentExactly | libs/providers/flagd/src/lib/flagd-provider.ts:82-86 | close silences the provider for good if and only if it does not come during the wait for the first readiness |
| FlagdConnection.CloseEndsTheLoopExactly | libs/providers/flagd/src/lib/service/in-process/grpc/grpc-fetch.ts:95-99 | over all continuations close ends the reconnect loop if and only if no readiness wait and no reconnect timer is pending; otherwise one of them is outstanding for ever |
| FlagdEffects.EventsExactly | libs/providers/flagd/src/lib/flagd-provider.ts:124-159 | what each callback emits: STALE, with a grace timer, for an error unless interrupted already; READY for a payload while interrupted; ERROR whenever the grace timer fires; nothing else; and one configuration change exactly for a changed payload after the first connection has succeeded |
| FlagdEffects.ErrorFollowsExactly | libs/providers/flagd/src/lib/flagd-provider.ts:130-159 | over every run, the STALE of an interruption is followed by its ERROR if and only if its grace timer fires and no payload and no close has come before it |
| FlagdEffects.ConnectionChangesExactly | libs/providers/flagd/src/lib/service/in-process/grpc/grpc-fetch.ts:101-213 | what each callback leaves outstanding and what becomes of the promise; the loop ends on a configured fatal status before the first connection has succeeded and on no other error, after which one reconnect is due at once, or after the maximal backoff for an error of the stream |
| FlagdObjects.FlagdProvider.ClearErrorTimer | libs/providers/flagd/src/lib/flagd-provider.ts:154-159 | the object moves as the proved step does: the stored grace timer is gone, and with it the pending ERROR |
| FlagdObjects.FlagdProvider.HandleReconnect | libs/providers/flagd/src/lib/flagd-provider.ts:124-128 | the object moves as the step of `StatusEventsAlternate` does: READY, and no grace timer left |
| FlagdObjects.FlagdProvider.HandleError | libs/providers/flagd/src/lib/flagd-provider.ts:130-148 | emits STALE and arms the grace timer, once per interruption |
| FlagdObjects.FlagdProvider.OnGraceTimer | libs/providers/flagd/src/lib/flagd-provider.ts:138-147 | appends exactly one ERROR to the events if still interrupted, and otherwise nothing |
| FlagdObjects.FlagdProvider.OnConnected | libs/providers/flagd/src/lib/flagd-provider.ts:65-80 | initialization ends without error state and grace timer, and without an event of its own |
| FlagdObjects.GrpcFetch.Connect | libs/providers/flagd/src/lib/service/in-process/grpc/grpc-fetch.ts:83-93 | extends the recorded run by the connect step, so one thing is outstanding and the event trace is well formed |
| FlagdObjects.GrpcFetch.CloseStreamIfDefined | libs/providers/flagd/src/lib/service/common/grpc-util.ts:13-26 | detaches the stored stream |
| FlagdObjects.GrpcFetch.Listen | libs/providers/flagd/src/lib/service/in-process/grpc/grpc-fetch.ts:101-176 | either a readiness wait is outstanding, or a synchronous throw is handled as an error |
| FlagdObjects.GrpcFetch.OnReady | libs/providers/flagd/src/lib/service/in-process/grpc/grpc-fetch.ts:113-165 | extends the run by the readiness callback: an error, or a new stored stream |
| FlagdObjects.GrpcFetch.OnData | libs/providers/flagd/src/lib/service/in-process/grpc/grpc-fetch.ts:126-151 | extends the run by a payload, keeping the trace of events well formed |
| FlagdObjects.GrpcFetch.HandleData | libs/providers/flagd/src/lib/service/in-process/grpc/grpc-fetch.ts:126-151 | a payload settles the first connection or reports a reconnect, and marks the connection up |
| FlagdObjects.GrpcFetch.OnStreamError | libs/providers/flagd/src/lib/service/in-process/grpc/grpc-fetch.ts:152-163 | extends the run by a stream error, which throttles the next reconnect |
| FlagdObjects.GrpcFetch.HandleError | libs/providers/flagd/src/lib/service/in-process/grpc/grpc-fetch.ts:178-200 | fatal before initialization ends the loop; everything else schedules a reconnect |
| FlagdObjects.GrpcFetch.OnReconnectTimer | libs/providers/flagd/src/lib/service/in-process/grpc/grpc-fetch.ts:202-213 | extends the run by listening again, no longer as the first connection |
| FlagdObjects.GrpcFetch.OnGraceTimer | libs/providers/flagd/src/lib/flagd-provider.ts:138-147 | extends the run by the end of the grace period: in every reachable state that appends exactly one ERROR at its time |
| FlagdObjects.GrpcFetch.Close | libs/providers/flagd/src/lib/flagd-provider.ts:82-86 | clears the grace timer and detaches the stream; the loop ends exactly if nothing else was pending |
| OfrepProtocol.StepKeepsGenerations | libs/providers/ofrep-web/src/lib/ofrep-web-provider.ts:296-364 | outside local-cache-first mode every step keeps each request tied to the context its generation installed, and never lowers the applied revision |
| OfrepProtocol.FlagsBelongToTheirRevision | libs/providers/ofrep-web/src/lib/ofrep-web-provider.ts:176-357 | over every interleaving: requests match their generation, the revision of the flag cache never decreases, and after a 200 for the current revision the cache belongs to the current context until the next change |
| OfrepProtocol.NeverBothSseAndPolling | libs/providers/ofrep-web/src/lib/ofrep-web-provider.ts:475-588 | at no yield point do an SSE manager and a polling timer coexist; at most one polling timer exists; retry timers are pending only with polling disabled, with delay min(1000*2^n, 60000) |
| OfrepProtocol.FailureFallsBack | libs/providers/ofrep-web/src/lib/ofrep-web-provider.ts:539-571 | a failure of a current manager ends with polling and no manager if polling is enabled, and otherwise with one more retry timer |
| OfrepProtocol.LocalCacheFirstMixesGenerations | libs/providers/ofrep-web/src/lib/ofrep-web-provider.ts:176-201 | in local-cache-first mode a run exists after which flags of an older context count as current |
| OfrepDetection.ManagerIsDroppedExactly | libs/providers/ofrep-web/src/lib/ofrep-web-provider.ts:475-571 | in every step, a manager is dropped by exactly these: close, a failure with polling enabled, and a response or finished store whose caller adjusts SSE and that has no event streams |
| OfrepDetection.OvertakenResponseDropsExactly | libs/providers/ofrep-web/src/lib/ofrep-web-provider.ts:332-334 | the 200 of an overtaken request drops a newer manager if and only if a context change or an SSE retry awaits it |
| OfrepDetection.ManagerSurvivesExactly | libs/providers/ofrep-web/src/lib/ofrep-web-provider.ts:475-571 | in every run a manager is kept over a stretch if and only if none of those inputs comes in it |
| OfrepDetection.DetectionCanEnd | libs/providers/ofrep-web/src/lib/ofrep-web-provider.ts:176-201 | from every initialized SSE provider without polling a run of two changes, answered in the wrong order, ends without manager, timer or suspended call |
| OfrepDetection.RetryTimersChangeExactly | libs/providers/ofrep-web/src/lib/ofrep-web-provider.ts:475-578 | for every step: the inputs that add one retry timer, those that clear the stored or firing one (the retry is due, SSE is connected, close), and that all others leave the timers alone |
| OfrepDetection.OneRetryTimerExactly | libs/providers/ofrep-web/src/lib/ofrep-web-provider.ts:551-578 | in a run there is never more than one retry timer if and only if between any two inputs that schedule a retry comes one that clears it |
| OfrepDetection.RefreshesNeverOverlap | libs/providers/ofrep-web/src/lib/ofrep-web-provider.ts:438-468 | over every run exactly one refresh is suspended while `_isFetching` is set, and none otherwise |
| OfrepEffects.RefreshRequestsExactly | libs/providers/ofrep-web/src/lib/ofrep-web-provider.ts:438-448 | a poll or visibility appends exactly the request for the current context and sets `_isFetching`, if and only if nothing is being refreshed and no later time to retry was named; otherwise the state is unchanged |
| OfrepEffects.RequestsExactly | libs/providers/ofrep-web/src/lib/ofrep-web-provider.ts:176-201 | for each input, exactly which fetch, cache read or store it starts, with which context and revision, and which suspended call it ends |
| OfrepEffects.FlagsChangeExactly | libs/providers/ofrep-web/src/lib/ofrep-web-provider.ts:296-363 | for each input, the context and revision, whose flags are cached and for which revision they count, whether streams are known, until when requests are held back, and whether a refresh is running |
| OfrepEffects.DetectionChangesExactly | libs/providers/ofrep-web/src/lib/ofrep-web-provider.ts:475-571 | for each input, whether SSE or polling is on afterwards: streams given to a caller connect SSE or drop it, a context change left without starts polling, a failure falls back to it, and close ends both |
| OfrepEffects.FirstRetryDelay | libs/providers/ofrep-web/src/lib/ofrep-web-provider.ts:553-557 | over every run, the first retry, and the first since SSE was connected, waits one second |
| OfrepEffects.NextRetryDelay | libs/providers/ofrep-web/src/lib/ofrep-web-provider.ts:553-569 | every further one in a row waits twice as long as the one before, up to a minute |
| OfrepEffects.RequestsAreHeldExactly | libs/providers/ofrep-web/src/lib/ofrep-web-provider.ts:358-361 | over every run, a change, poll or visibility starts nothing if and only if the last failure to name a time named a later one, or a refresh is suspended (which does not hold back a change) |
| OfrepClose.CloseIsFinalExactly | libs/providers/ofrep-web/src/lib/ofrep-web-provider.ts:231-241 | the API being shut down, over all continuations nothing switches polling or SSE on after close if and only if nothing of this is suspended: where polling is possible, a context change past its response headers; where SSE is possible, a cache read, a store with event streams, or a request past its headers that can bring or repeat them to a caller that adjusts SSE. Retry timers and requests without headers never do |
| OfrepObjects.OFREPWebProvider.OnContextChange | libs/providers/ofrep-web/src/lib/ofrep-web-provider.ts:176-201 | extends the recorded run by a change up to its first await: a new revision and one read or fetch for it, unless rate limited |
| OfrepObjects.OFREPWebProvider.OnResponse | libs/providers/ofrep-web/src/lib/ofrep-web-provider.ts:313-363 | extends the run by a response, never leaving SSE and polling on together |
| OfrepObjects.OFREPWebProvider.OnPersisted | libs/providers/ofrep-web/src/lib/ofrep-web-provider.ts:342-356 | extends the run by a finished store, after which the caller goes on with the streams of its own response |
| OfrepObjects.OFREPWebProvider.OnResult | libs/providers/ofrep-web/src/lib/ofrep-web-provider.ts:193-200 | what each caller does with a result: adjusts SSE and polling, or ends its refresh |
| OfrepObjects.OFREPWebProvider.OnCacheRead | libs/providers/ofrep-web/src/lib/ofrep-web-provider.ts:623-648 | extends the run by a finished cache read: a stored entry and a background fetch, or a fetch for the given context |
| OfrepObjects.OFREPWebProvider.RefreshFlagsInBackground | libs/providers/ofrep-web/src/lib/ofrep-web-provider.ts:590-595 | a background fetch unless rate limited |
| OfrepObjects.OFREPWebProvider.RefreshFlags | libs/providers/ofrep-web/src/lib/ofrep-web-provider.ts:438-468 | requests the flags of the current context and revision, unless a refresh is suspended or the server has asked to wait until later |
| OfrepObjects.OFREPWebProvider.ConnectSseIfAvailable | libs/providers/ofrep-web/src/lib/ofrep-web-provider.ts:475-506 | SSE replaces polling and retries, or an existing manager is disposed of |
| OfrepObjects.OFREPWebProvider.HandleSseError | libs/providers/ofrep-web/src/lib/ofrep-web-provider.ts:539-571 | fallback to polling, or a retry with backoff |
| OfrepObjects.OFREPWebProvider.OnSseError | libs/providers/ofrep-web/src/lib/ofrep-web-provider.ts:539-571 | extends the run by a failure; with polling enabled it ends with polling and no manager |
| OfrepObjects.OFREPWebProvider.OnSseRefetch | libs/providers/ofrep-web/src/lib/ofrep-web-provider.ts:511-524 | extends the run by a refetch for the current context |
| OfrepObjects.OFREPWebProvider.OnPollingTimer | libs/providers/ofrep-web/src/lib/ofrep-web-provider.ts:584-588 | extends the run by a poll, which makes that request under the same condition; at most one refresh is suspended |
| OfrepObjects.OFREPWebProvider.OnVisibilityChange | libs/providers/ofrep-web/src/lib/ofrep-web-provider.ts:662-667 | extends the run by a refresh on visibility, which makes that request under the same condition; at most one refresh is suspended |
| OfrepObjects.OFREPWebProvider.ReceiveResponse | libs/providers/ofrep-web/src/lib/ofrep-web-provider.ts:313-363 | a 304 changes no flags, a 200 is applied only for the current revision, a failure may rate limit |
| OfrepObjects.OFREPWebProvider.OnFailure | libs/providers/ofrep-web/src/lib/ofrep-web-provider.ts:358-363 | a failure may rate limit, ends a refresh, and makes a failed SSE retry schedule the next one |
| OfrepObjects.OFREPWebProvider.OnRetryTimer | libs/providers/ofrep-web/src/lib/ofrep-web-provider.ts:560-570 | extends the run by a retry, which fetches for the current context |
| OfrepObjects.OFREPWebProvider.StartPolling | libs/providers/ofrep-web/src/lib/ofrep-web-provider.ts:584-588 | arms a new polling timer |
| OfrepObjects.OFREPWebProvider.StopPolling | libs/providers/ofrep-web/src/lib/ofrep-web-provider.ts:650-655 | clears the stored polling timer |
| OfrepObjects.OFREPWebProvider.ClearSseRetry | libs/providers/ofrep-web/src/lib/ofrep-web-provider.ts:573-578 | clears the stored retry timer |
| OfrepObjects.OFREPWebProvider.OnClose | libs/providers/ofrep-web/src/lib/ofrep-web-provider.ts:231-241 | extends the run by close, after which there is no manager and no polling timer and requests are refused; it is final exactly as `CloseIsFinalExactly` says |
| OfrepObjects.OFREPWebProvider.OnHeaders | libs/shared/ofrep-core/src/lib/api/ofrep-api.ts:115-124 | extends the run by the arrival of a response's headers, from where on a shutdown no longer aborts the request |
| OfrepSse.ConnectsNothingExactly | libs/providers/ofrep-web/src/lib/sse-manager.ts:91-127 | `connect` ends without a connection if and only if no stream is of type `sse` and resolves to a URL |
| OfrepSse.ConnectLeavesDarkExactly | libs/providers/ofrep-web/src/lib/ofrep-web-provider.ts:475-506 | provider and manager together: after `_connectSseIfAvailable` there is neither a polling timer nor a connection if and only if streams were taken of which none is usable, or none were taken and there was no polling |
| OfrepSse.ChangeLeavesDarkExactly | libs/providers/ofrep-web/src/lib/ofrep-web-provider.ts:193-200 | the same for the result of a context change: streams of which none is usable end polling even where it is possible, and otherwise there is nothing only where polling is impossible and was off |
| OfrepSse.DarkManagerIsSilent | libs/providers/ofrep-web/src/lib/sse-manager.ts:91-152 | such a manager brings nothing back: no event source reports to it, and no timer of it fires but an idle one that opens nothing |
| SseProtocol.StepKeepsInv | libs/providers/ofrep-web/src/lib/sse-manager.ts:91-315 | every callback keeps the invariants of grace period, debouncing and connections |
| SseProtocol.GraceTimerIffStale | libs/providers/ofrep-web/src/lib/sse-manager.ts:168-228 | in every reachable state exactly one grace timer is pending while stale and none otherwise; there are no connections or exactly one per URL |
| SseProtocol.StaleReportsAreSeparated | libs/providers/ofrep-web/src/lib/sse-manager.ts:194-264 | between two STALE reports there is a recovery, an error report or a disconnect |
| SseProtocol.GraceErrorIsDue | libs/providers/ofrep-web/src/lib/sse-manager.ts:210-227 | the grace timer fires no earlier than 30 s after the STALE report it belongs to |
| SseProtocol.MessagesAreCoalesced | libs/providers/ofrep-web/src/lib/sse-manager.ts:230-264 | a debounce timer is pending exactly while a refetch message is unanswered, due 50 ms after the last one and holding its metadata |
| SseProtocol.BurstIsAnsweredOnce | libs/providers/ofrep-web/src/lib/sse-manager.ts:253-260 | when it fires, one refetch with that metadata answers the burst and nothing stays unanswered |
| SseProtocol.DisposedStaysClosed | libs/providers/ofrep-web/src/lib/sse-manager.ts:149-171 | in every run, from `dispose` on there is no connection, and no event source is open but those that had lost theirs before; none at all if there were no such ones |
| SseProtocol.StepKeepsTidyExactly | libs/providers/ofrep-web/src/lib/sse-manager.ts:91-315 | of all steps, only a fatal error that meets another open event source leaves one that belongs to no connection |
| SseProtocol.RunIsTidyExactly | libs/providers/ofrep-web/src/lib/sse-manager.ts:91-315 | in a run every open event source belongs to a connection throughout if and only if no fatal error meets another one |
| SseProtocol.FatalErrorLeavesOthersOpen | libs/providers/ofrep-web/src/lib/sse-manager.ts:194-208 | after a fatal error every other event source stays open without a connection, and its messages still have to be answered by a refetch |
| SseProtocol.ForgottenSourceIsReachable | libs/providers/ofrep-web/src/lib/sse-manager.ts:194-208 | a run of a manager with two streams ends without a connection while the message of a forgotten event source still has to be answered |
| SseEffects.ConnectFollowsStreams | libs/providers/ofrep-web/src/lib/sse-manager.ts:91-127 | after `connect` there is exactly one connection for each URL to which an SSE stream resolves; the old ones are kept if and only if there were some and to exactly these URLs, and otherwise closed and replaced by new ones |
| SseEffects.SameUrlsExactly | libs/providers/ofrep-web/src/lib/sse-manager.ts:114-116 | comparing sizes and looking up each URL compares the sets |
| SseEffects.ReportsExactly | libs/providers/ofrep-web/src/lib/sse-manager.ts:91-315 | what each callback reports: STALE for a transient error unless stale already, ERROR for a fatal one and at the end of the grace period, one refetch at the end of a burst, a full one on resuming |
| SseEffects.SourcesChangeExactly | libs/providers/ofrep-web/src/lib/sse-manager.ts:132-315 | which connections each callback closes, forgets or opens, and whether URLs are kept: by the inactivity timeout, and not by `disconnect` or an error |
| SseEffects.SettingsStayExactly | libs/providers/ofrep-web/src/lib/sse-manager.ts:132-287 | nothing but `dispose` disposes, nothing but `disconnect` and `dispose` stop watching visibility, and only `connect` changes the delay |
| SseEffects.ConnectAdjusts | libs/providers/ofrep-web/src/lib/sse-manager.ts:91-127 | of `connect`: the delay is that of the streams if one is of type `sse`, and unless the connections are kept visibility is watched exactly if there is a URL, and the inactivity timer is cleared |
| SseEffects.InactivityDelayMeans | libs/providers/ofrep-web/src/lib/sse-manager.ts:98-101 | the client's delay, or that of the first SSE stream that has one, or 120 seconds |
| SseEffects.InactivityTimerExactly | libs/providers/ofrep-web/src/lib/sse-manager.ts:289-320 | over every run, an inactivity timer is pending exactly since the page was last hidden and until it is shown, the timer fires or the connections are replaced, and due after the delay that counted then |
| SseEffects.InactivityCloses | libs/providers/ofrep-web/src/lib/sse-manager.ts:291-297 | it fires no earlier, and closes all connections but keeps their URLs |
| SseEffects.ResumeReportsExactly | libs/providers/ofrep-web/src/lib/sse-manager.ts:300-315 | over every run, showing the page reports a full refetch and connects to all URLs again if and only if the inactivity timeout closed the connections and nothing has ended that since |
| SseObjects.SseManager.Connect | libs/providers/ofrep-web/src/lib/sse-manager.ts:91-127 | extends the recorded run by connecting, after which, unless disposed of, the connections are one for each URL of an SSE stream that resolves, and no others |
| SseObjects.SseManager.Disconnect | libs/providers/ofrep-web/src/lib/sse-manager.ts:132-144 | extends the run by disconnecting, after which there is no connection and no grace timer |
| SseObjects.SseManager.Dispose | libs/providers/ofrep-web/src/lib/sse-manager.ts:149-152 | extends the run by disposing, so that `DisposedStaysClosed` applies |
| SseObjects.SseManager.ConnectToUrl | libs/providers/ofrep-web/src/lib/sse-manager.ts:168-192 | opens and stores one connection unless disposed |
| SseObjects.SseManager.OnOpen | libs/providers/ofrep-web/src/lib/sse-manager.ts:175-181 | extends the run by an open event, which ends the grace period |
| SseObjects.SseManager.HandleError | libs/providers/ofrep-web/src/lib/sse-manager.ts:194-228 | extends the run by a fatal or transient error, with one grace timer exactly while stale |
| SseObjects.SseManager.OnGraceTimer | libs/providers/ofrep-web/src/lib/sse-manager.ts:214-226 | extends the run by the end of the grace period: no connection is left and the error is reported |
| SseObjects.SseManager.HandleMessage | libs/providers/ofrep-web/src/lib/sse-manager.ts:230-264 | extends the run by a message, which ends the grace period and replaces the pending refetch |
| SseObjects.SseManager.OnDebounceTimer | libs/providers/ofrep-web/src/lib/sse-manager.ts:256-260 | extends the run by the refetch of a burst, so that `BurstIsAnsweredOnce` applies |
| SseObjects.SseManager.StartInactivityTimer | libs/providers/ofrep-web/src/lib/sse-manager.ts:289-298 | extends the run by hiding, which replaces the inactivity timer |
| SseObjects.SseManager.OnInactivityTimer | libs/providers/ofrep-web/src/lib/sse-manager.ts:291-297 | extends the run by the inactivity timeout: connections are closed, URLs kept |
| SseObjects.SseManager.CancelInactivityTimer | libs/providers/ofrep-web/src/lib/sse-manager.ts:300-315 | extends the run by showing: one connection per URL again if inactivity had closed them |
| SseObjects.ResolveUrls | libs/providers/ofrep-web/src/lib/sse-manager.ts:103-107 | the set of URLs is that of the SSE streams that resolve |
| Strategies.CollectProviderErrors | libs/providers/multi-provider/src/lib/strategies/BaseEvaluationStrategy.ts:112-125 | the errors of exactly the resolutions that have one, in order |
| Strategies.EveryErrorIsReported | libs/providers/multi-provider/src/lib/strategies/BaseEvaluationStrategy.ts:112-125 | if all have one, there is one report for each, with its provider, code and message |
| Strategies.ErrorsAreReportedExactly | libs/providers/multi-provider/src/lib/strategies/BaseEvaluationStrategy.ts:98-125 | something is reported if and only if some resolution has an error |
| Strategies.DecisiveAnswerWins | libs/providers/multi-provider/src/lib/multi-provider.ts:159-193 | after the first decisive answer nobody is asked; the result is its details, or all errors so far if it is an error |
| Strategies.NoDecisiveAnswer | libs/providers/multi-provider/src/lib/multi-provider.ts:159-193 | without one everybody is asked and all errors are raised together; with no answers at all the last one is undefined and a TypeError results |
| Strategies.FirstMatchMeans | libs/providers/multi-provider/src/lib/strategies/FirstMatchStrategy.ts:11-35 | first match is the first answer that is not "flag not found", whatever it is |
| Strategies.FirstSuccessfulMeans | libs/providers/multi-provider/src/lib/strategies/FirstSuccessfulStrategy.ts:12-31 | first successful is the first answer without an error |
| Strategies.StrategiesAgree | libs/providers/multi-provider/src/lib/strategies/FirstSuccessfulStrategy.ts:12-31 | whenever first match succeeds, first successful gives the same result |
| Comparison.DetermineFinalResult | libs/providers/multi-provider/src/lib/strategies/ComparisonStrategy.ts:27-70 | the loop yields errors, the missing-fallback error, the fallback's details on a mismatch (reporting it), or the first details |
| Comparison.MismatchExactly | libs/providers/multi-provider/src/lib/strategies/ComparisonStrategy.ts:46-50 | there is a mismatch if and only if a value after the first defined one differs from it |
| Comparison.ComparisonMeans | libs/providers/multi-provider/src/lib/strategies/ComparisonStrategy.ts:27-70 | a result exists if and only if nobody erred and the fallback answered, a general error naming the missing fallback otherwise; for defined values it is the common one, or the fallback's on any disagreement |
| Comparison.OrderDoesNotChangeTheValue | libs/providers/multi-provider/src/lib/strategies/ComparisonStrategy.ts:27-70 | for defined values and a fallback that answers once, reordering the providers does not change the value |
| Comparison.SameInAnyOrderExactly | libs/providers/multi-provider/src/lib/strategies/ComparisonStrategy.ts:27-70 | without errors and with one fallback that answered, the value is the same under every reordering if and only if all values are defined, or none is, or two defined ones differ, or the fallback's is undefined |
| Comparison.UndefinedValuesDependOnOrder | libs/providers/multi-provider/src/lib/strategies/ComparisonStrategy.ts:46-50 | in all other cases undefined answers first and undefined answers last give different values |
| MultiProvider.RunBeforeHooks | libs/providers/multi-provider/src/lib/hook-executor.ts:9-21 | exactly the hooks up to the first that throws are called, or all, each with the context as the ones before it have extended it |
| MultiProvider.RunAfterHooks | libs/providers/multi-provider/src/lib/hook-executor.ts:23-33 | exactly the hooks up to the first that throws are called, or all, in order |
| MultiProvider.RunErrorHooks | libs/providers/multi-provider/src/lib/hook-executor.ts:35-48 | every error hook runs once, in order, whatever the others throw |
| MultiProvider.RunFinallyHooks | libs/providers/multi-provider/src/lib/hook-executor.ts:50-68 | every finally hook runs once, in order, whatever the others throw |
| MultiProvider.LastHookWins | libs/providers/multi-provider/src/lib/hook-executor.ts:9-21 | the provider's context has, for each key given by hooks, the value of the last to give it |
| MultiProvider.OtherKeysAreShared | libs/providers/multi-provider/src/lib/multi-provider.ts:254-259 | and for all other keys what the shared context has |
| MultiProvider.EvaluateProviderAndHooks | libs/providers/multi-provider/src/lib/multi-provider.ts:244-281 | accounts for every call: before hooks, provider, after hooks, each with what the ones before it returned, up to the first that throws. If the last of them throws, the details are the default value with its code or GENERAL, and all error hooks follow; otherwise they are the provider's resolution with key and metadata. All finally hooks come last |
| MultiProvider.ThrowsBecomeErrorCodes | libs/providers/multi-provider/src/lib/multi-provider.ts:349-366 | in every such account, the details are an error if and only if a before hook, the provider or an after hook called in it throws, and then of that one |
| MultiProvider.EvaluateProviderEntry | libs/providers/multi-provider/src/lib/multi-provider.ts:196-242 | an ineligible provider (not ready or fatal) is passed over without a call; otherwise its calls are accounted for, and its outcome says whether to go on |
| MultiProvider.EvaluateEntries | libs/providers/multi-provider/src/lib/multi-provider.ts:159-180 | the loop evaluates exactly the entries up to the first decisive one, or all in parallel, with the calls of each accounted for |
| MultiProvider.FilterGiven | libs/providers/multi-provider/src/lib/multi-provider.ts:182-185 | the non-null resolutions, in order |
| MultiProvider.Determine | libs/providers/multi-provider/src/lib/strategies/FirstMatchStrategy.ts:25-35 | the strategy's conclusion: the last answer decides, or the comparison |
| MultiProvider.FlagResolutionProxy | libs/providers/multi-provider/src/lib/multi-provider.ts:142-194 | the declarative result of the strategy, with the calls of everybody asked accounted for and nobody else called; a general error without hook context |
| MultiProvider.FirstMatchDecides | libs/providers/multi-provider/src/lib/multi-provider.ts:142-281 | the first eligible provider whose outcome is not "flag not found" decides, nobody after it is asked, and an error raises all errors so far |
| MultiProvider.FirstSuccessDecides | libs/providers/multi-provider/src/lib/multi-provider.ts:142-281 | the first eligible provider without an error decides and nobody after it is asked |
| MultiProvider.NobodyDecidesInTurn | libs/providers/multi-provider/src/lib/multi-provider.ts:142-281 | otherwise all eligible providers are asked and all their errors raised, one for each; with none eligible a TypeError |
| MultiProvider.RaisedInTurn | libs/providers/multi-provider/src/lib/multi-provider.ts:182-193 | in turn nothing else is ever raised; "no result" is unreachable |
| MultiProvider.TypeErrorMeansNoProviders | libs/providers/multi-provider/src/lib/multi-provider.ts:205-217 | with statuses as recorded by the tracker, the TypeError occurs if and only if no provider is registered |
| StatusTracker.StatusFromProviderStatuses | libs/providers/multi-provider/src/lib/status-tracker.ts:37-49 | the most critical of the recorded statuses, ready if there are none |
| StatusTracker.StatusesAreLastReports | libs/providers/multi-provider/src/lib/status-tracker.ts:14-31 | the recorded status of a provider is what it last reported |
| StatusTracker.RunKeepsInv | libs/providers/multi-provider/src/lib/status-tracker.ts:14-66 | over every sequence of provider events the emitted events imply the aggregate status, without repetition |
| StatusTracker.EventsReplayToStatus | libs/providers/multi-provider/src/lib/status-tracker.ts:14-66 | the status implied by the last emitted event is the most critical last report, and no event announces a status already implied |
| StatusTracker.ChangesArePassedOn | libs/providers/multi-provider/src/lib/status-tracker.ts:14-31 | over every sequence of events, exactly as many configuration changes are emitted as were received |
| StatusTracker.EveryProviderStaysEligible | libs/providers/multi-provider/src/lib/status-tracker.ts:14-35 | not-ready and fatal are never recorded, so no provider is ever passed over |
| StatusTracker.StatusTracker.ChangeProviderStatus | libs/providers/multi-provider/src/lib/status-tracker.ts:51-66 | records the status and emits one event exactly if the aggregate changed to one that is announced |
| StatusTracker.StatusTracker.Handle | libs/providers/multi-provider/src/lib/status-tracker.ts:14-31 | extends the run by one event |
| ContextGraph.ConvertAttributes | libs/providers/launchdarkly-client/src/lib/translate-context.ts:34-60 | terminates on every finite graph; puts the conversion at the key, or nothing if that would close a cycle |
| ContextGraph.ConvertEntries | libs/providers/launchdarkly-client/src/lib/translate-context.ts:49-55 | the nested object holds exactly the entries whose conversion exists |
| ContextGraph.PathIsKeptExactly | libs/providers/launchdarkly-client/src/lib/translate-context.ts:34-60 | a path survives, with the same leaf, if and only if the objects along it are new and pairwise distinct |
| ContextGraph.TranslateContextCommon | libs/providers/launchdarkly-client/src/lib/translate-context.ts:72-117 | the loop over the entries yields the fold that `CommonIsExpected` characterizes |
| ContextGraph.CommonIsExpected | libs/providers/launchdarkly-client/src/lib/translate-context.ts:72-117 | at every key the result is what a description without order gives, save that at `_meta` the later of its two sources counts |
| ContextGraph.AttributeIsKeptExactly | libs/providers/launchdarkly-client/src/lib/translate-context.ts:112 | a path from an ordinary attribute survives if and only if the objects along it, the context first, are pairwise distinct |
| ContextGraph.SpecialKeys | libs/providers/launchdarkly-client/src/lib/translate-context.ts:77-110 | the key prefers the targeting key; typed attributes survive only with their type; attributes named like inherited members are dropped |
| ContextGraph.OrdinaryMeans | libs/providers/launchdarkly-client/src/lib/translate-context.ts:72-117 | which keys are not copied like ordinary attributes: the five with a meaning and the twelve names that object literals inherit |
| ContextGraph.PrivateAttributesBecomeMeta | libs/providers/launchdarkly-client/src/lib/translate-context.ts:98-103 | private attributes without a `_meta` become one that holds them |
| ContextGraph.LaterMetaWins | libs/providers/launchdarkly-client/src/lib/translate-context.ts:98-112 | with both `_meta` and `privateAttributes`, the result holds the private attributes if they come later or `_meta` closes a cycle, and the conversion of `_meta` otherwise |
| ContextGraph.MetaDependsOnOrderExactly | libs/providers/launchdarkly-client/src/lib/translate-context.ts:98-112 | the order of the entries shows at `_meta` if and only if both are given and do not come to the same |
| ContextGraph.OrderShowsOnlyAtMeta | libs/providers/launchdarkly-client/src/lib/translate-context.ts:93-114 | and it shows nowhere else |
| ContextGraph.DefaultKindExactly | libs/providers/launchdarkly-client/src/lib/translate-context.ts:128-154 | a context has the default kind if and only if it gives none, that one, or itself; a kind of another type is not replaced |
| EventPublisher.RunConserves | libs/providers/go-feature-flag/src/lib/service/event-publisher.ts:89-119 | in every run the added events are those in the buffer, in flight and delivered, as often as they were added |
| EventPublisher.SendsExactly | libs/providers/go-feature-flag/src/lib/service/event-publisher.ts:89-119 | exactly an add that reaches the limit, a start, a stop and the runner's timer send, each the whole buffer; only acceptance delivers and only rejection puts back |
| EventPublisher.RunnerMovesExactly | libs/providers/go-feature-flag/src/lib/service/event-publisher.ts:47-82 | for each step, which batch the runner waits for, when it is about to go on, and when it sleeps on a new timer; a stop clears the timer stored last |
| EventPublisher.LimitMeans | libs/providers/go-feature-flag/src/lib/service/event-publisher.ts:91 | the limit is 10000 unless another number but zero is set |
| EventPublisher.StopHandsOverEverything | libs/providers/go-feature-flag/src/lib/service/event-publisher.ts:71-82 | after a stop, up to its await, the buffer is empty and everything added is in flight or delivered |
| EventPublisher.RejectedAfterStopStays | libs/providers/go-feature-flag/src/lib/service/event-publisher.ts:71-119 | after a stop that leaves no timer, until the next add or start, nothing more is sent: rejected batches stay in the buffer, which is empty in the end if and only if every batch was accepted |
| EventPublisher.BatchesSpellWhatWasAdded | libs/providers/go-feature-flag/src/lib/service/event-publisher.ts:89-119 | without failures the batches in order of sending, then the buffer, spell the added sequence |
| EventPublisher.UndeliveredIsOrdered | libs/providers/go-feature-flag/src/lib/service/event-publisher.ts:89-119 | until something is rejected, distinct events in flight and in the buffer stand in the order in which they were added |
| EventPublisher.RejectionKeepsOrderExactly | libs/providers/go-feature-flag/src/lib/service/event-publisher.ts:113-117 | the first rejection keeps that order if and only if the buffer is empty and no later batch is in flight |
| EventPublisher.RejectionReorders | libs/providers/go-feature-flag/src/lib/service/event-publisher.ts:113-117 | for every limit from two on, a run ends with a rejected event behind a later one |
| EventPublisher.BelowLimitExactly | libs/providers/go-feature-flag/src/lib/service/event-publisher.ts:89-97 | the buffer is below the limit after every add if and only if the limit is positive |
| EventPublisher.ExactlyOneRunner | libs/providers/go-feature-flag/src/lib/service/event-publisher.ts:47-82 | unless a restart overtakes the previous runner, exactly one runner is at work while running and no timer is left after a stop |
| EventPublisher.OneRunnerExactly | libs/providers/go-feature-flag/src/lib/service/event-publisher.ts:47-82 | in a run there is one runner whenever the publisher runs, and no timer after a stop, if and only if every restart finds the previous runner finished |
| EventPublisher.RestartIsCleanExactly | libs/providers/go-feature-flag/src/lib/service/event-publisher.ts:47-65 | from any stopped state a restart adds a runner, so it gives one again if and only if the previous one has finished |
| EventPublisher.RestartDoublesTheRunner | libs/providers/go-feature-flag/src/lib/service/event-publisher.ts:47-82 | from any running state, a stop followed by a start gives one runner if the runner was asleep, and two if it was waiting for a batch or about to go on |
| EventPublisher.StopClearsOneTimer | libs/providers/go-feature-flag/src/lib/service/event-publisher.ts:71-80 | a stop clears one timer at most, so of two sleeping runners one goes on |
| EventPublisher.EventPublisher.PublishEvents | libs/providers/go-feature-flag/src/lib/service/event-publisher.ts:104-112 | the part before the await: the buffer becomes a batch |
| EventPublisher.EventPublisher.OnSettled | libs/providers/go-feature-flag/src/lib/service/event-publisher.ts:111-119 | extends the recorded run by an answer: the batch is delivered or put back, and no event is lost or doubled |
| EventPublisher.EventPublisher.AddEvent | libs/providers/go-feature-flag/src/lib/service/event-publisher.ts:89-97 | extends the run by an event; the buffer stays below a positive limit, and no event is lost or doubled |
| EventPublisher.EventPublisher.Start | libs/providers/go-feature-flag/src/lib/service/event-publisher.ts:47-53 | extends the run by starting one runner, unless already running |
| EventPublisher.EventPublisher.OnTimer | libs/providers/go-feature-flag/src/lib/service/event-publisher.ts:59-65 | extends the run by the runner waking and publishing |
| EventPublisher.EventPublisher.ContinueRunner | libs/providers/go-feature-flag/src/lib/service/event-publisher.ts:59-65 | extends the run by the runner going to sleep again, if still running |
| EventPublisher.EventPublisher.Stop | libs/providers/go-feature-flag/src/lib/service/event-publisher.ts:71-82 | extends the run by stopping: everything added has been handed over |
| FnvHash.Fnv1a32 | libs/providers/ofrep-web/src/lib/store/storage.ts:69-76 | the loop computes the 32-bit FNV-1a hash of the input from the offset: unit by unit, exclusive or and a multiplication by 16777619 modulo 2^32 |
| FnvHash.FnvHash | libs/providers/ofrep-web/src/lib/store/storage.ts:68-80 | eight hex digits of the FNV-1a hash from 0x811c9dc5, then eight of the one from 0x27d4eb2f |
| FnvHash.ImulIsUndone | libs/providers/ofrep-web/src/lib/store/storage.ts:73 | multiplying by the prime modulo 2^32 is undone by its inverse |
| FnvHash.XorIsBitwise | libs/providers/ofrep-web/src/lib/store/storage.ts:72 | a bit of the exclusive or is set if and only if it differs in the two words |
| FnvHash.MixTellsApart | libs/providers/ofrep-web/src/lib/store/storage.ts:72-73 | a step keeps different states different, and different units lead to different states |
| FnvHash.PassIsInjective | libs/providers/ofrep-web/src/lib/store/storage.ts:69-76 | a pass over any input keeps different offsets different |
| FnvHash.Hex8OfWord | libs/providers/ofrep-web/src/lib/store/storage.ts:79 | every word is written as eight lowercase hex digits that are worth it |
| FnvHash.HalvesAlwaysDiffer | libs/providers/ofrep-web/src/lib/store/storage.ts:68-80 | the hash is sixteen lowercase hex digits whose halves always differ |
| FnvHash.OneUnitChangesBothHalves | libs/providers/ofrep-web/src/lib/store/storage.ts:68-80 | inputs of one length that differ in exactly one unit differ in both halves |

## Left out

- ContextGraph.ConvertAttributes: the output object is a value passed along and returned, not an object filled in place, so sharing of output objects is not captured; a nested own key `__proto__`, which would set a prototype, is treated like any other.
- Multi-contexts (`kind: 'multi'`): each nested context is translated as a single one is; only single contexts are modelled.
- Comparison.DetermineFinalResult: values are compared with equality, so NaN agrees with itself here and does not in JavaScript.
- MultiProvider.EvaluateProviderAndHooks: the logger cannot throw, and hooks act on the context only through what they return.
- Provider calls, timers, responses and clocks are inputs: any outcome in any order. The hash in `fractional` is an arbitrary 32-bit value.
- Surrogates: strings of `Json` are sequences of characters without unpaired surrogates, which `JSON.stringify` would escape.
- `parse` around `transform`: schema validation, JSON syntax errors and the construction of flags and metadata.
- The IEEE rounding of a weight sum beyond 2^53 in `toBucketingList`; sums up to `MAX_WEIGHT` are exact and larger ones are refused either way.
- Asynchronous inner hooks of the debounce hook: their continuation writes back a snapshot taken before the await, so stages of one key can overwrite each other.
- BigInt values in the reference table, and the rest of the WASM glue code.
- Streams of the flagd connection that end without an error, the RPC and file variants of the service, and its resolvers.
- The OFREP object is constructed as `initialize` leaves it with change detection off; runs of the protocol start from any initialized state, in local-cache-first mode also with the background refresh of a cache hit still suspended.
- Responses of the OFREP API: until the shutdown headers and body may come at once; after it a request whose headers had come is answered in any way, although some answers (a 304, an error status) would have been dealt with as soon as the headers came.
- Documents in which the pattern of an escaped key matches a part of an object only: what the replacement makes of them is not described, only that they exist or not (`RefOccurrence.Occurs`).
- Interleavings before the OFREP provider's `initialize` has finished, its network-first fallback to the persisted cache, entity tags, and the contents of flags and events.
- Local-cache-first mode: the generation property is false there, as a lemma shows, and nothing else is claimed about generations in it.
- URL resolution of event streams (a stream comes with the URL it resolves to, or none), parsing of SSE payloads, callbacks of the SSE manager that call back into it, and EventSource constructors that throw.
- Storage of the OFREP provider beyond the fallback hash: SHA-256, local storage, expiry and schema checks.
- Name registration, tracking, initialization and closing of the multi-provider, and its web twin, whose logic is the same.
- Providers that only map results of an SDK, configuration merging, OpenTelemetry hooks.
