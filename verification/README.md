# Verified model of the whiteboard runtime

A Dafny model of the collaborative whiteboard runtime, with proofs. `dafny verify dfyconfig.toml` checks all of it.

The shared document is a set of Yjs roots: one envelope per actor and element, tombstones, an order array, a page
and files. `ElementStore`, `CanonicalScene`, `SceneLaws` and the class in `CanonicalAuthority` model how the authority
writes, merges and reads them; `Replication` runs any number of sessions, several per actor if need be, over
unordered, repeated, lossy delivery of partial updates. There Yjs is an order of the writes of a key in which a write
comes after those that its session knew. Every equality test of the authority compares serialized texts, so `Json` proves that the serializer is injective up
to key order, and `SemanticHash` that a changed byte always changes the hash.

Only one runtime may serve documents at a time. `AuthorityGuard` and `MutualExclusion` model the singleton lease over
a database session lock with its timing, and find the exact relation between safety window, freshness and answer
latency that makes it exclusive. `Readiness` and `ReadinessRuns` model the serialized probe queue with its epochs;
`SessionRegistry`, `ConnectionPolicy` and `Tallies` the live sessions, the document index and the quotas;
`RollingWindow`, `IngressPolicies`, `KeyedBudgets` and `IngressGate` the sliding budgets, each against its full
history. `WriterFencing` and `WriterRuns` model writer leases and fences over several nodes, `ArtifactQueue` and
`ArtifactRuns` the command queue over several workers, and `JsonValues`, `PortableScene`, `ArtifactEnvelope` and
`ArtifactPipeline` the way of a scene through the signed snapshot envelope into a new generation. `Varuint`,
`JsonDepth`, `AwarenessFrames` and `FrameDecoders` compare the two decoders of raw frames. `Ipv6Prefix` and
`HandQueue` are two small cores from elsewhere in the repository.

Objects whose methods update their fields are classes here, with the same fields. Each method is proved against a
function of the old state, and the lemmas are about those functions: one lemma per step for what every step keeps,
then the claims over all runs. Runs are sequences of steps of arbitrary length in which a step that cannot happen
changes nothing.

What is a parameter: the clock; `localeCompare`, as the order of injective real collation keys; fresh tokens and
identifiers, as counters; the answers of the database and of probes; and, in the snapshot pipeline, text and binary
codecs, SHA-256, HMAC, dates, the content rule for strings and the Yjs encoding, under the laws that
`PortableScene.Laws` lists. No law makes a hash injective. That scenes can be read back from their JSON value, which
the laws demand, is `PortableScene.AcceptedSceneIsItsValue`; `LawfulEnvironment.LawsCanHold` builds codecs, an order
and a store format that meet all the laws together.

Four results are not what the surrounding documentation suggests. Mutual exclusion of the guard needs probe answers
faster than the safety window minus the freshness bound, because the confirmation is stamped when the answer arrives
(`MutualExclusion.MutualExclusionIff`). The tenant operation budget and the reconnect throttle forget the last instant
of a key when a call prunes it, so a clock that steps back can go unnoticed: a budget over a window, on a clock that
falls back by a drift below the window, is a budget over exactly the window less the drift
(`KeyedBudgets.BudgetSpansWindowLessDrift`), and over its own window only on a clock that never goes back
(`KeyedBudgets.TenantBudgetHoldsIff`, `ConnectionPolicy.ReconnectThrottleHoldsIff`). The per-socket budgets refuse such
a clock themselves. Sessions of one actor may give one key the same revision with different values, or a later write a
lower revision: a write leaves the order of revisions right exactly when its session knows the last write of the key
(`Replication.SafeToWriteIff`), which all runs guarantee only for one session per actor
(`Replication.RevisionsMergeIff`); sessions converge all the same (`Replication.Convergence`). And a node that
remembers a lease of a generation that was swapped away can never complete a drain again (`WriterRuns.MayDrainIff`).

## Model

| member | source | states |
|---|---|---|
| `Json.StringifyPrefix` | packages/collaboration-client/src/canonicalAuthority.ts:904-918 | texts of JSON values never run into one another: equal concatenations have equal values and equal remainders |
| `Json.StringifyInjective` | packages/collaboration-client/src/canonicalAuthority.ts:904-918 | equal JSON texts come from the same value with the same property order |
| `Json.StableIsStringifyOfNormalized` | packages/collaboration-client/src/canonicalAuthority.ts:904-918 | the stable text is the ordinary JSON text after sorting the keys of every object |
| `Json.NormalizeKeepsMeaning` | packages/collaboration-client/src/canonicalAuthority.ts:911-916 | sorting keys does not change the value |
| `Json.MeaningDeterminesNormalForm` | packages/collaboration-client/src/canonicalAuthority.ts:911-916 | objects that hold the same value have the same sorted form |
| `Json.StableTextIffSameValue` | packages/collaboration-client/src/canonicalAuthority.ts:904-918 | two values have the same stable text exactly when they are the same JSON value up to key order |
| `Json.StableInjectiveOnCanonical` | packages/collaboration-client/src/canonicalAuthority.ts:904-918 | on values with sorted keys the stable text is injective |
| `JsonValues.StableTextOf` | packages/collaboration-client/src/canonicalAuthority.ts:904-918 | every object that holds a value has the stable text of that value |
| `JsonValues.LengthIgnoresKeyOrder` | packages/collaboration-client/src/canonicalAuthority.ts:865-870 | the byte length of a JSON text does not depend on the key order, so size limits do not either |
| `JsonValues.RepresentDenotes` | packages/collaboration-client/src/canonicalAuthority.ts:871-875 | every JSON value is held by some object |
| `SemanticHash.ComputeHash` | packages/collaboration-client/src/canonicalAuthority.ts:449-460 | the loop computes the 64-bit FNV-1a fold of the bytes |
| `SemanticHash.UndoMultiply` | packages/collaboration-client/src/canonicalAuthority.ts:457 | multiplying by the prime modulo 2^64 has an inverse |
| `SemanticHash.MixInjective` | packages/collaboration-client/src/canonicalAuthority.ts:456 | equal results of the exclusive or with byte values determine each other |
| `SemanticHash.AbsorbInjective` | packages/collaboration-client/src/canonicalAuthority.ts:455-458 | one turn of the loop is injective in the state for a fixed byte, and in the byte for a fixed state |
| `SemanticHash.FoldInjective` | packages/collaboration-client/src/canonicalAuthority.ts:455-458 | different states stay different under the same remaining bytes |
| `SemanticHash.OneByteChangesHash` | packages/collaboration-client/src/canonicalAuthority.ts:449-460 | byte strings that differ in exactly one byte never have the same hash |
| `ElementStore.EnvelopeKeyInjective` | packages/collaboration-client/src/canonicalAuthority.ts:692-694 | envelope keys of different (actor, element) pairs differ |
| `ElementStore.WinnerExists` | packages/collaboration-client/src/canonicalAuthority.ts:729-743 | an element with any envelope has a winner, in whatever order envelopes are read |
| `ElementStore.WinnerIsLive` | packages/collaboration-client/src/canonicalAuthority.ts:744-750 | the resolved value of an element is the value of its winner |
| `ElementStore.ConsiderKeepsBest` | packages/collaboration-client/src/canonicalAuthority.ts:733-743 | one turn of the resolution loop keeps the best envelope seen per element |
| `ElementStore.BestIsResolved` | packages/collaboration-client/src/canonicalAuthority.ts:744-750 | the non-tombstone winners are the resolved map |
| `ElementStore.WriteWins` | packages/collaboration-client/src/canonicalAuthority.ts:660-675 | a write becomes the resolved value of its element and changes no other element |
| `ElementStore.WriteRaisesOwnRevision` | packages/collaboration-client/src/canonicalAuthority.ts:669 | the revision a write uses exceeds every revision stored for the element |
| `ElementStore.WriteAllLaw` | packages/collaboration-client/src/canonicalAuthority.ts:660-675 | after a batch of writes to distinct elements each has its written value, the others their old one |
| `Replication.MergeCommutes` | packages/collaboration-client/src/canonicalAuthority.ts:660-694 | merging two consistent element roots key by key does not depend on their order, and merging a root with itself gives that root |
| `Replication.MergeAssociates` | packages/collaboration-client/src/canonicalAuthority.ts:660-694 | nor on the grouping |
| `Replication.MergeResolves` | packages/collaboration-client/src/canonicalAuthority.ts:729-751 | the winner in a merge is the better one of the winners of the parts |
| `Replication.NextInv` | packages/collaboration-client/src/canonicalAuthority.ts:660-694 | writes of any number of sessions, partial updates and their deliveries keep each root the last of the writes it knows |
| `Replication.RunInv` | packages/collaboration-client/src/canonicalAuthority.ts:660-675 | so does every run |
| `Replication.SafeToWriteIff` | packages/collaboration-client/src/canonicalAuthority.ts:660-694 | as long as writes have known the last write of their key, whatever valid element a session writes next leaves merging by revision right exactly when its root holds the last write of the key |
| `Replication.ReplicasConsistent` | packages/collaboration-client/src/canonicalAuthority.ts:660-694 | in a run whose writes all know the last write of their key, two roots that hold the same key at the same revision hold the same envelope, each envelope is stored under its own key, and merging by revision gives what Yjs gives |
| `Replication.SinglesAreAbreast` | packages/collaboration-client/src/canonicalAuthority.ts:660-694 | with one session per actor every write knows the last write of its key |
| `Replication.Convergence` | packages/collaboration-client/src/canonicalAuthority.ts:660-694 | in every run two sessions, also of one actor, that know the same writes hold the same root, so they read the same elements, whatever updates brought the writes, in whatever order, and however often |
| `Replication.RevisionsMergeIff` | packages/collaboration-client/src/canonicalAuthority.ts:660-694 | merging two roots by revision gives what Yjs gives, in all runs of some sessions, exactly when no actor has two of them |
| `Replication.DeliveredOnce` | packages/collaboration-client/src/canonicalAuthority.ts:660-694 | an update whose writes have all arrived changes nothing when it is delivered again |
| `CanonicalScene.SameStableText` | packages/collaboration-client/src/canonicalAuthority.ts:248-250 | the comparisons of stable texts of orders and pages are equality tests |
| `CanonicalScene.ReadIdsExactlyOnce` | packages/collaboration-client/src/canonicalAuthority.ts:774-787 | reading lists each live element exactly once, whatever duplicates or dead ids the order array holds |
| `SceneLaws.ReplaceElements` | packages/collaboration-client/src/canonicalAuthority.ts:620-640 | after a replacement every element resolves as the new scene says |
| `SceneLaws.ReplaceThenRead` | packages/collaboration-client/src/canonicalAuthority.ts:202-208 | after replaceScene from any well-formed store, reading gives back exactly the scene |
| `SceneLaws.DeltaMergesElements` | packages/collaboration-client/src/canonicalAuthority.ts:232-246 | after a delta an element is the local value where it changed, absent where it was dropped, and the current one elsewhere |
| `SceneLaws.DeltaMergesOrder` | packages/collaboration-client/src/canonicalAuthority.ts:248-264 | on a local reorder the read order is the local order restricted to live ids, then the remote-only ids |
| `SceneLaws.DeltaKeepsOrder` | packages/collaboration-client/src/canonicalAuthority.ts:248-264 | without a local reorder what was live is read in the same order as before; changed elements that had been deleted meanwhile are read as well, where the order array has them or sorted behind it |
| `SceneLaws.NoDeltaNoChange` | packages/collaboration-client/src/canonicalAuthority.ts:214-285 | an unchanged scene as delta changes nothing at all |
| `SceneLaws.DeltaFromCurrent` | packages/collaboration-client/src/canonicalAuthority.ts:214-285 | a delta from the current scene reads back as the next scene |
| `SceneLaws.FilesMerged` | packages/collaboration-client/src/canonicalAuthority.ts:269-283 | the two file loops together are the three-way merge of the files |
| `SceneLaws.InitializeThenRead` | packages/collaboration-client/src/canonicalAuthority.ts:160-171 | a freshly initialized document reads back its scene |
| `SceneLaws.KnownIffLive` | packages/collaboration-client/src/canonicalAuthority.ts:291-293 | an element is found in the read scene exactly when it resolves |
| `SceneLaws.ReadIdsRestrict` | packages/collaboration-client/src/canonicalAuthority.ts:774-787 | ids that stay live keep their relative reading order, whatever else is live |
| `SceneLaws.PutThenRead` | packages/collaboration-client/src/canonicalAuthority.ts:287-308 | a put of a known element reads back as the validated candidate scene, with the element replaced in its place |
| `SceneLaws.PutKnownThenRead` | packages/collaboration-client/src/canonicalAuthority.ts:301-307 | a put of a known element replaces it in its place and changes nothing else |
| `SceneLaws.PutNewThenRead` | packages/collaboration-client/src/canonicalAuthority.ts:301-307 | a put of a new element reads it with its value among the others in their order, and last if the order array held all others and not yet its id |
| `SceneLaws.DeleteThenRead` | packages/collaboration-client/src/canonicalAuthority.ts:310-316 | after a delete the scene is read without the element and otherwise as before |
| `CanonicalAuthority.Authority.Open` | packages/collaboration-client/src/canonicalAuthority.ts:132-158 | the checks of scope, actor and stored scope, and an object that starts with the roots of its document |
| `CanonicalAuthority.Authority.ResolveElementMap` | packages/collaboration-client/src/canonicalAuthority.ts:729-751 | the two loops compute the resolved element map |
| `CanonicalAuthority.Authority.ComputeRevision` | packages/collaboration-client/src/canonicalAuthority.ts:666-669 | one more than the highest revision stored for the element, or one |
| `CanonicalAuthority.Authority.WriteElementEnvelope` | packages/collaboration-client/src/canonicalAuthority.ts:660-675 | stores the next envelope under the actor's key and changes nothing else |
| `CanonicalAuthority.Authority.ReadElementIds` | packages/collaboration-client/src/canonicalAuthority.ts:774-784 | the order loop and the sorted rest give the read order |
| `CanonicalAuthority.Authority.GetScene` | packages/collaboration-client/src/canonicalAuthority.ts:177-182 | the scene that the roots read as, or the first error |
| `CanonicalAuthority.Authority.BootstrapEnvelopes` | packages/collaboration-client/src/canonicalAuthority.ts:593-602 | one envelope of revision zero per element |
| `CanonicalAuthority.Authority.Initialize` | packages/collaboration-client/src/canonicalAuthority.ts:160-171 | writes scope and scene once; afterwards it is an error |
| `CanonicalAuthority.Authority.WriteChanged` | packages/collaboration-client/src/canonicalAuthority.ts:233-241 | writes exactly the elements whose text differs from the baseline |
| `CanonicalAuthority.Authority.WriteDropped` | packages/collaboration-client/src/canonicalAuthority.ts:242-246 | writes a tombstone for exactly the elements that were dropped |
| `CanonicalAuthority.Authority.Bury` | packages/collaboration-client/src/canonicalAuthority.ts:636-640 | writes a tombstone for exactly the live elements that are not wanted, in whatever order |
| `CanonicalAuthority.Authority.ReplaceElementRoots` | packages/collaboration-client/src/canonicalAuthority.ts:625-640 | the element part of a replacement |
| `CanonicalAuthority.Authority.WriteOrder` | packages/collaboration-client/src/canonicalAuthority.ts:642-647 | rewrites the order array only when it differs |
| `CanonicalAuthority.Authority.ReplaceRoots` | packages/collaboration-client/src/canonicalAuthority.ts:620-658 | all five roots after a replacement |
| `CanonicalAuthority.Authority.ReplaceScene` | packages/collaboration-client/src/canonicalAuthority.ts:202-208 | the errors in order, and no change on any of them |
| `CanonicalAuthority.Authority.SetChangedFiles` | packages/collaboration-client/src/canonicalAuthority.ts:270-278 | sets the files that changed |
| `CanonicalAuthority.Authority.DeleteDroppedFiles` | packages/collaboration-client/src/canonicalAuthority.ts:279-283 | deletes the files that were dropped, which completes the merge |
| `CanonicalAuthority.Authority.MergeElementRoots` | packages/collaboration-client/src/canonicalAuthority.ts:233-246 | the element part of a delta |
| `CanonicalAuthority.Authority.MergeOrderAndPage` | packages/collaboration-client/src/canonicalAuthority.ts:248-268 | the order and page part of a delta |
| `CanonicalAuthority.Authority.MergeRoots` | packages/collaboration-client/src/canonicalAuthority.ts:232-284 | all roots after a delta |
| `CanonicalAuthority.Authority.ApplySceneDelta` | packages/collaboration-client/src/canonicalAuthority.ts:214-285 | the errors in order, no change on any of them, and the merged roots otherwise |
| `CanonicalAuthority.Authority.PutElement` | packages/collaboration-client/src/canonicalAuthority.ts:287-308 | the errors in order, and the roots that `SceneLaws.PutThenRead` and `SceneLaws.PutNewThenRead` read |
| `CanonicalAuthority.Authority.DeleteElement` | packages/collaboration-client/src/canonicalAuthority.ts:310-316 | writes the tombstone that `SceneLaws.DeleteThenRead` reads, or reports the error |
| `AuthorityGuard.ProviderAuthorityGuard.Acquire` | services/whiteboard-runtime/src/providerAuthorityGuard.ts:114-121 | starts a lock query, or a probe when a session is already held |
| `AuthorityGuard.ProviderAuthorityGuard.OnAcquireAnswer` | services/whiteboard-runtime/src/providerAuthorityGuard.ts:124-140 | keeps the session on success and sleeps through the safety window; the error otherwise |
| `AuthorityGuard.ProviderAuthorityGuard.OnWake` | services/whiteboard-runtime/src/providerAuthorityGuard.ts:137-140 | after the window the session is probed |
| `AuthorityGuard.ProviderAuthorityGuard.Probe` | services/whiteboard-runtime/src/providerAuthorityGuard.ts:174-176 | probes a held session, an error without one |
| `AuthorityGuard.ProviderAuthorityGuard.OnProbeAnswer` | services/whiteboard-runtime/src/providerAuthorityGuard.ts:215-237 | stamps the confirmation on arrival, or clears the local authority |
| `AuthorityGuard.ProviderAuthorityGuard.Release` | services/whiteboard-runtime/src/providerAuthorityGuard.ts:178-184 | clears the local authority before the unlock is sent |
| `AuthorityGuard.ProviderAuthorityGuard.OnReleaseAnswer` | services/whiteboard-runtime/src/providerAuthorityGuard.ts:186-204 | reports a lock that was already lost |
| `AuthorityGuard.ProviderAuthorityGuard.AssertHeld` | services/whiteboard-runtime/src/providerAuthorityGuard.ts:160-172 | the three checks: session, confirmation, freshness, including a clock that went back |
| `MutualExclusion.StepInv` | services/whiteboard-runtime/src/providerAuthorityGuard.ts:114-238 | every step of any number of guards, the database and the clock keeps the lease invariant |
| `MutualExclusion.ExecInv` | services/whiteboard-runtime/src/providerAuthorityGuard.ts:114-238 | so does every run |
| `MutualExclusion.WideWindowIsSafe` | services/whiteboard-runtime/src/providerAuthorityGuard.ts:160-172 | no run lets two guards assert authority at one instant if the window exceeds freshness plus answer latency |
| `MutualExclusion.NarrowWindowFails` | services/whiteboard-runtime/src/providerAuthorityGuard.ts:137-140 | otherwise some run does |
| `MutualExclusion.MutualExclusionIff` | services/whiteboard-runtime/src/providerAuthorityGuard.ts:114-172 | mutual exclusion in all runs holds exactly when the window exceeds freshness plus answer latency |
| `MutualExclusion.DefaultsNeedFastAnswers` | services/whiteboard-runtime/src/providerAuthorityGuard.ts:99-101 | with the default values exactly the answers faster than 250 ms are safe |
| `Readiness.RuntimeReadinessCoordinator.Activate` | services/whiteboard-runtime/src/runtimeReadinessCoordinator.ts:68-74 | runs, under a new epoch, with no health |
| `Readiness.RuntimeReadinessCoordinator.BeginDrain` | services/whiteboard-runtime/src/runtimeReadinessCoordinator.ts:76-82 | drains, under a new epoch, with no health |
| `Readiness.RuntimeReadinessCoordinator.MarkStopped` | services/whiteboard-runtime/src/runtimeReadinessCoordinator.ts:84-90 | stops, under a new epoch, with no health |
| `Readiness.RuntimeReadinessCoordinator.FailClosed` | services/whiteboard-runtime/src/runtimeReadinessCoordinator.ts:92-97 | a new epoch with no health |
| `Readiness.RuntimeReadinessCoordinator.MarkCheckpointFailed` | services/whiteboard-runtime/src/runtimeReadinessCoordinator.ts:99-105 | fails closed and remembers the checkpoint |
| `Readiness.RuntimeReadinessCoordinator.MarkCheckpointRecovered` | services/whiteboard-runtime/src/runtimeReadinessCoordinator.ts:107-110 | repairs the checkpoint without a new epoch |
| `Readiness.RuntimeReadinessCoordinator.ReadinessNow` | services/whiteboard-runtime/src/runtimeReadinessCoordinator.ts:116-125 | reports ready only while the authority is held, and fails closed otherwise |
| `Readiness.RuntimeReadinessCoordinator.AssertAdmissionReady` | services/whiteboard-runtime/src/runtimeReadinessCoordinator.ts:127-146 | admits exactly when ready, held and, for a writer, enabled; each error under exactly its condition |
| `Readiness.RuntimeReadinessCoordinator.Snap` | services/whiteboard-runtime/src/runtimeReadinessCoordinator.ts:233-273 | the snapshot and its reason |
| `Readiness.RuntimeReadinessCoordinator.EnqueueProbe` | services/whiteboard-runtime/src/runtimeReadinessCoordinator.ts:171-176 | chains a probe with the current epoch |
| `Readiness.RuntimeReadinessCoordinator.ExecuteNext` | services/whiteboard-runtime/src/runtimeReadinessCoordinator.ts:180-188 | a stale probe is dropped unsent |
| `Readiness.RuntimeReadinessCoordinator.ApplyDependencies` | services/whiteboard-runtime/src/runtimeReadinessCoordinator.ts:148-159 | what a dependency answer changes |
| `Readiness.RuntimeReadinessCoordinator.ApplyAuthority` | services/whiteboard-runtime/src/runtimeReadinessCoordinator.ts:161-169 | what an authority answer changes |
| `Readiness.RuntimeReadinessCoordinator.Settle` | services/whiteboard-runtime/src/runtimeReadinessCoordinator.ts:189-219 | a late answer is stale, a failure of a current probe fails closed, any other current answer is applied |
| `ReadinessRuns.StepHealth` | services/whiteboard-runtime/src/runtimeReadinessCoordinator.ts:68-231 | dependency health is lost by exactly the clearing events and gained by exactly the applied healthy answers |
| `ReadinessRuns.BackedIff` | services/whiteboard-runtime/src/runtimeReadinessCoordinator.ts:148-231 | over every interleaving, dependency health means that a probe requested after the last clearing event came back healthy |
| `ReadinessRuns.ReadyIff` | services/whiteboard-runtime/src/runtimeReadinessCoordinator.ts:233-273 | over every interleaving, ready exactly when such a probe exists, every checkpoint failure was repaired and the last reported mode is not off |
| `ReadinessRuns.HealthyAnswerIsFresh` | services/whiteboard-runtime/src/runtimeReadinessCoordinator.ts:225-227 | no clearing event lies between a request and the answer that is applied for it |
| `ReadinessRuns.EarlierProbesAreDiscarded` | services/whiteboard-runtime/src/runtimeReadinessCoordinator.ts:181-198 | a probe requested before a clearing event changes nothing any more, queued or in flight, whatever it answers |
| `ReadinessRuns.AlwaysRecoverable` | services/whiteboard-runtime/src/runtimeReadinessCoordinator.ts:57-231 | from every reachable state some continuation is ready again |
| `ConnectionPolicy.AdmittedInv` | services/whiteboard-runtime/src/runtimePolicy.ts:86-109 | one more admission keeps every counter equal to the unreleased admissions and within its quota |
| `ConnectionPolicy.ReleasedInv` | services/whiteboard-runtime/src/runtimePolicy.ts:111-119 | so does a release |
| `ConnectionPolicy.ReleaseOnce` | services/whiteboard-runtime/src/runtimePolicy.ts:111-114 | a second call of a release closure changes nothing |
| `ConnectionPolicy.AdmitThenRelease` | services/whiteboard-runtime/src/runtimePolicy.ts:106-119 | releasing what was just admitted restores every counter |
| `ConnectionPolicy.DocumentKeyInjective` | services/whiteboard-runtime/src/runtimePolicy.ts:435-437 | document keys agree exactly for the same tenant, document and generation |
| `ConnectionPolicy.ActorKeyInjective` | services/whiteboard-runtime/src/runtimePolicy.ts:435-437 | actor keys agree exactly for the same tenant and actor |
| `Tallies.TallyAdd` | services/whiteboard-runtime/src/runtimePolicy.ts:439-441 | incrementing a counter counts one more live entry |
| `Tallies.TallyRemove` | services/whiteboard-runtime/src/runtimePolicy.ts:443-447 | decrementing counts one fewer, and drops the key with the last |
| `ConnectionPolicy.RuntimeConnectionPolicy.ConsumeReconnectAttempt` | services/whiteboard-runtime/src/runtimePolicy.ts:126-142 | the clock check, the storm check and the recorded attempt |
| `ConnectionPolicy.RuntimeConnectionPolicy.Acquire` | services/whiteboard-runtime/src/runtimePolicy.ts:74-120 | the errors in order; an attempt is recorded even when a quota then denies it; all counters on success |
| `ConnectionPolicy.RuntimeConnectionPolicy.CheckQuotas` | services/whiteboard-runtime/src/runtimePolicy.ts:86-104 | the first quota that one more connection would exceed |
| `ConnectionPolicy.RuntimeConnectionPolicy.Release` | services/whiteboard-runtime/src/runtimePolicy.ts:112-119 | the release closure |
| `SessionRegistry.CanonicalKeyInjective` | services/whiteboard-runtime/src/runtimeSessionRegistry.ts:367-369 | canonical keys agree exactly for the same tenant, document and generation |
| `SessionRegistry.NextInv` | services/whiteboard-runtime/src/runtimeSessionRegistry.ts:106-332 | reserving, committing and closing, by key or by handle, keep index, counters, leases and totals in agreement with the live sessions |
| `SessionRegistry.RunInv` | services/whiteboard-runtime/src/runtimeSessionRegistry.ts:106-332 | so does every run |
| `SessionRegistry.OneToOne` | services/whiteboard-runtime/src/runtimeSessionRegistry.ts:213-264 | in every run live sessions share a provider name exactly when they share the document, and then its writer fence |
| `SessionRegistry.IndexIsLive` | services/whiteboard-runtime/src/runtimeSessionRegistry.ts:241-283 | in every run the index holds exactly the provider names in use, with the number of their sessions |
| `SessionRegistry.WithinQuotas` | services/whiteboard-runtime/src/runtimePolicy.ts:89-104 | in every run the live sessions of an actor, a document, a tenant and in all exceed no quota |
| `SessionRegistry.RoomForOneMore` | services/whiteboard-runtime/src/runtimePolicy.ts:86-104 | in every run the quotas admit one more session exactly when the live sessions leave room for it, also within the tenant limit of its own scope |
| `SessionRegistry.AdmittedWithinTenant` | services/whiteboard-runtime/src/runtimePolicy.ts:95-102 | whenever a session is admitted, the live sessions of its tenant are within both tenant limits |
| `SessionRegistry.NothingLost` | services/whiteboard-runtime/src/runtimeSessionRegistry.ts:137-149 | in every run accepted reservations are the released, the rolled back and the live ones |
| `SessionRegistry.ClosedIsGone` | services/whiteboard-runtime/src/runtimeSessionRegistry.ts:309-319 | closing a session makes its handle stale |
| `SessionRegistry.StaleHandle` | services/whiteboard-runtime/src/runtimeSessionRegistry.ts:285-315 | a stale handle never closes or commits anything, also not a newer session under the same key |
| `SessionRegistry.RuntimeSessionRegistry.Reserve` | services/whiteboard-runtime/src/runtimeSessionRegistry.ts:106-150 | the checks in order; a denial is counted and changes nothing else; a reservation installs session, index and admission together |
| `SessionRegistry.RuntimeSessionRegistry.Admit` | services/whiteboard-runtime/src/runtimeSessionRegistry.ts:121-139 | the admission part of a reservation |
| `SessionRegistry.RuntimeSessionRegistry.CommitSession` | services/whiteboard-runtime/src/runtimeSessionRegistry.ts:153-160 | marks a session active by key |
| `SessionRegistry.RuntimeSessionRegistry.CommitExact` | services/whiteboard-runtime/src/runtimeSessionRegistry.ts:301-307 | marks it active by handle |
| `SessionRegistry.RuntimeSessionRegistry.CloseExact` | services/whiteboard-runtime/src/runtimeSessionRegistry.ts:309-332 | closes the session of a handle, and nothing if the handle is stale |
| `SessionRegistry.RuntimeSessionRegistry.CloseSession` | services/whiteboard-runtime/src/runtimeSessionRegistry.ts:166-183 | release and rollback by key |
| `RollingWindow.Prune` | services/whiteboard-runtime/src/runtimePolicy.ts:386-391 | shifting old events off the front leaves exactly the recent ones and their weight |
| `RollingWindow.PruneTwice` | services/whiteboard-runtime/src/runtimePolicy.ts:386-391 | pruning again later is pruning the whole history then |
| `RollingWindow.AppendKeepsWithin` | services/whiteboard-runtime/src/runtimePolicy.ts:268-276 | a budget checked at each event against the window that ends there holds in every window |
| `IngressPolicies.ConsumedRefines` | services/whiteboard-runtime/src/runtimePolicy.ts:252-282 | one call on the stored state decides as the rule over everything accepted does |
| `IngressPolicies.RunRefines` | services/whiteboard-runtime/src/runtimePolicy.ts:252-282 | after any calls the stored state is what the whole history prunes to |
| `IngressPolicies.WholeHistoryDecides` | services/whiteboard-runtime/src/runtimePolicy.ts:252-282 | the next call is decided by the whole history, and no window ever exceeds its limits |
| `IngressPolicies.RuntimeIngressPolicy.Consume` | services/whiteboard-runtime/src/runtimePolicy.ts:252-282 | the errors in order, what each of them stores, and what remains of the budgets |
| `IngressPolicies.RuntimeIngressPolicy.Observe` | services/whiteboard-runtime/src/runtimePolicy.ts:259-267 | prunes at a clock that runs and stores the observation of a known socket |
| `IngressPolicies.RuntimeIngressPolicy.Charge` | services/whiteboard-runtime/src/runtimePolicy.ts:268-281 | charges both budgets and stores the charge if they allow |
| `IngressPolicies.RuntimeIngressPolicy.Release` | services/whiteboard-runtime/src/runtimePolicy.ts:284-289 | forgets a socket |
| `KeyedBudgets.PruneKeys` | services/whiteboard-runtime/src/runtimePolicy.ts:201-212 | prunes all keys in any order, or stops where the clock is behind |
| `KeyedBudgets.RunInv` | services/whiteboard-runtime/src/runtimePolicy.ts:179-212 | in every run on a clock that falls back by at most a drift below the window, what is kept of a key is the end of everything accepted for it and lacks only what was out of the window at the highest reading; no stretch of the window less the drift exceeds the limit |
| `KeyedBudgets.WholeHistoryDecides` | services/whiteboard-runtime/src/runtimePolicy.ts:179-212 | a call that the whole history of the window allows is accepted unless the clock is seen to be behind, and an accepted call is allowed by the whole history of the window less the drift; without drift the two are one rule and the clock check passes |
| `KeyedBudgets.BudgetSpansWindowLessDrift` | services/whiteboard-runtime/src/runtimePolicy.ts:179-212 | all runs on a clock of some drift below the window keep every stretch of a given length within the limit exactly when that length is at most the window less the drift, also if every call spends one |
| `KeyedBudgets.BudgetHoldsIff` | services/whiteboard-runtime/src/runtimePolicy.ts:179-212 | all runs keep every window within the limit exactly when the clock never goes back |
| `KeyedBudgets.TenantBudgetHoldsIff` | services/whiteboard-runtime/src/runtimePolicy.ts:189-211 | the same for the tenant budget of a minute |
| `ConnectionPolicy.ReconnectThrottleHoldsIff` | services/whiteboard-runtime/src/runtimePolicy.ts:126-155 | the same for the reconnect throttle |
| `KeyedBudgets.RuntimeTenantOperationPolicy.Consume` | services/whiteboard-runtime/src/runtimePolicy.ts:179-199 | the errors in order and the events kept |
| `IngressGate.NextInv` | services/whiteboard-runtime/src/rawWebSocketIngressGate.ts:173-223 | frames, completions and closing keep what the socket stores equal to what its whole history prunes to |
| `IngressGate.WholeHistoryDecides` | services/whiteboard-runtime/src/rawWebSocketIngressGate.ts:173-223 | an open socket decides about every frame, denial by denial, by everything it admitted, and no window or queue exceeds its limits |
| `IngressGate.StrictFramesPass` | services/whiteboard-runtime/src/rawWebSocketIngressGate.ts:200-204 | a frame that the strict inspector takes is not denied for its awareness update |
| `IngressGate.SocketGate.Inspect` | services/whiteboard-runtime/src/rawWebSocketIngressGate.ts:403-410 | runs the awareness inspection on the bytes of the frame, if it is configured |
| `IngressGate.SocketGate.IsAuthenticationFrame` | services/whiteboard-runtime/src/rawWebSocketIngressGate.ts:393-395 | an envelope of the authentication type |
| `IngressGate.ClosedForGood` | services/whiteboard-runtime/src/rawWebSocketIngressGate.ts:152-174 | a denial is final |
| `IngressGate.SocketGate.AdmitFrame` | services/whiteboard-runtime/src/rawWebSocketIngressGate.ts:173-223 | the denials in order; each closes the socket |
| `IngressGate.SocketGate.Observe` | services/whiteboard-runtime/src/rawWebSocketIngressGate.ts:185-186 | prunes the window |
| `IngressGate.SocketGate.Check` | services/whiteboard-runtime/src/rawWebSocketIngressGate.ts:187-215 | rate, awareness and queue denials |
| `IngressGate.SocketGate.Record` | services/whiteboard-runtime/src/rawWebSocketIngressGate.ts:216-222 | books the frame |
| `IngressGate.SocketGate.ReleaseState` | services/whiteboard-runtime/src/rawWebSocketIngressGate.ts:129-141 | closes and empties the socket |
| `IngressGate.SocketGate.CompleteProcessing` | services/whiteboard-runtime/src/rawWebSocketIngressGate.ts:285-291 | takes one processed frame off the queue |
| `WriterFencing.SharedRuntimeCoordinator.GetDocument` | apps/whiteboard-spike/server/excalidrawRuntimeHarness.ts:727-740 | the first scope to name a document fixes its generation |
| `WriterFencing.SharedRuntimeCoordinator.EnsureWriterLease` | apps/whiteboard-spike/server/excalidrawRuntimeHarness.ts:549-569 | keeps an own lease, takes a free or expired one, leaves another alone |
| `WriterFencing.SharedRuntimeCoordinator.ForceWriterTakeover` | apps/whiteboard-spike/server/excalidrawRuntimeHarness.ts:571-590 | refuses while another lease is active |
| `WriterFencing.SharedRuntimeCoordinator.Mutate` | apps/whiteboard-spike/server/excalidrawRuntimeHarness.ts:609-614 | advances the watermark of the current generation only |
| `WriterFencing.SharedRuntimeCoordinator.Flush` | apps/whiteboard-spike/server/excalidrawRuntimeHarness.ts:617-650 | persists exactly for the current writer, fence and generation |
| `WriterFencing.SharedRuntimeCoordinator.ReleaseWriterLeases` | apps/whiteboard-spike/server/excalidrawRuntimeHarness.ts:669-675 | frees exactly the documents that the node writes |
| `WriterFencing.SharedRuntimeCoordinator.SwapGeneration` | apps/whiteboard-spike/server/excalidrawRuntimeHarness.ts:695-716 | a new generation with a new fence and no writer |
| `WriterFencing.ExcalidrawRuntimeNode.JoinAsWriter` | apps/whiteboard-spike/server/excalidrawRuntimeHarness.ts:808-814 | remembers a lease it was granted |
| `WriterFencing.ExcalidrawRuntimeNode.TakeWriterLease` | apps/whiteboard-spike/server/excalidrawRuntimeHarness.ts:850-854 | remembers a lease it took |
| `WriterFencing.ExcalidrawRuntimeNode.FlushLeases` | apps/whiteboard-spike/server/excalidrawRuntimeHarness.ts:875-878 | flushes all remembered leases in any order, exactly if each is current |
| `WriterFencing.ExcalidrawRuntimeNode.Drain` | apps/whiteboard-spike/server/excalidrawRuntimeHarness.ts:864-907 | completes exactly when every remembered lease can be flushed, has then persisted each of its documents, and leaves the node the writer of nothing either way |
| `WriterFencing.ExcalidrawRuntimeNode.Crash` | apps/whiteboard-spike/server/excalidrawRuntimeHarness.ts:909-915 | frees the leases without flushing |
| `WriterFencing.EvolveTransitive` | apps/whiteboard-spike/server/excalidrawRuntimeHarness.ts:549-716 | the order in which documents change composes |
| `WriterRuns.StepEvolves` | apps/whiteboard-spike/server/excalidrawRuntimeHarness.ts:549-716 | every step respects that order |
| `WriterRuns.StepInv` | apps/whiteboard-spike/server/excalidrawRuntimeHarness.ts:549-716 | every step keeps the persisted watermark behind the watermark and every writer remembering its lease |
| `WriterRuns.RunEvolves` | apps/whiteboard-spike/server/excalidrawRuntimeHarness.ts:549-716 | so does every run |
| `WriterRuns.RunInv` | apps/whiteboard-spike/server/excalidrawRuntimeHarness.ts:806-862 | in every run each writer remembers the lease that its drain will flush |
| `WriterRuns.NothingFalls` | apps/whiteboard-spike/server/excalidrawRuntimeHarness.ts:592-716 | the fence never falls, and inside a generation neither watermark does |
| `WriterRuns.GrantedOnce` | apps/whiteboard-spike/server/excalidrawRuntimeHarness.ts:558-568 | a fence of a document is granted to at most one node, ever |
| `WriterRuns.SupersededForever` | apps/whiteboard-spike/server/excalidrawRuntimeHarness.ts:624-638 | once another node was granted a fence, the older one never flushes again |
| `WriterRuns.SwapFences` | apps/whiteboard-spike/server/excalidrawRuntimeHarness.ts:695-709 | a generation swap fences all writers before it |
| `WriterRuns.WriterWasGranted` | apps/whiteboard-spike/server/excalidrawRuntimeHarness.ts:558-568 | whoever writes was granted the current fence in an earlier step |
| `WriterRuns.DrainFlushesAll` | apps/whiteboard-spike/server/excalidrawRuntimeHarness.ts:864-907 | in every run a drain that completes has flushed every document that the node wrote, and the node then writes none |
| `WriterRuns.MayDrainIff` | apps/whiteboard-spike/server/excalidrawRuntimeHarness.ts:850-907 | in every run some later drain of a node can complete exactly if no lease that it remembers is of a generation that was swapped away |
| `WriterRuns.SwappedNeverDrains` | apps/whiteboard-spike/server/excalidrawRuntimeHarness.ts:873-906 | once one is, no drain of the node ever completes again, whatever else happens |
| `ArtifactQueue.PostgresArtifactQueue.Candidate` | services/whiteboard-runtime/src/artifactQueue.ts:175-184 | the first claimable row in order that nobody has locked |
| `ArtifactQueue.PostgresArtifactQueue.Claim` | services/whiteboard-runtime/src/artifactQueue.ts:164-242 | claims the first claimable unlocked row in order with a fresh token, and nothing only if there is none; the claim stands even when reading the job back fails |
| `ArtifactQueue.PostgresArtifactQueue.PublishSnapshot` | services/whiteboard-runtime/src/artifactQueue.ts:285-347 | inserts the snapshot and finishes the row together, or changes nothing |
| `ArtifactQueue.PostgresArtifactQueue.CompleteRestore` | services/whiteboard-runtime/src/artifactQueue.ts:349-432 | writes the checkpoint, with its provider name and the next writer fence, and finishes the row together, or changes nothing |
| `ArtifactQueue.PostgresArtifactQueue.Fail` | services/whiteboard-runtime/src/artifactQueue.ts:434-475 | retries below five attempts, else fails or quarantines; changes nothing for a lost fence |
| `ArtifactRuns.StepInv` | services/whiteboard-runtime/src/artifactQueue.ts:164-475 | every step of any number of workers keeps rows, leases, claims and commits in agreement |
| `ArtifactRuns.RunInv` | services/whiteboard-runtime/src/artifactQueue.ts:164-475 | so does every run |
| `ArtifactRuns.AtMostFiveClaims` | services/whiteboard-runtime/src/artifactQueue.ts:177-191 | in every run a command is claimed at most five times, and a pending one fewer |
| `ArtifactRuns.AtMostOneCommit` | services/whiteboard-runtime/src/artifactQueue.ts:293-424 | in every run at most one publish or restore of a command commits |
| `ArtifactRuns.SucceededIffCommitted` | services/whiteboard-runtime/src/artifactQueue.ts:327-338 | a row has succeeded exactly when one did |
| `ArtifactRuns.TerminalIsFinal` | services/whiteboard-runtime/src/artifactQueue.ts:164-475 | a succeeded, failed or quarantined row never changes again |
| `ArtifactRuns.ClaimSupersedes` | services/whiteboard-runtime/src/artifactQueue.ts:186-198 | a new claim supersedes every earlier job of the command |
| `ArtifactRuns.OldTokenChangesNothing` | services/whiteboard-runtime/src/artifactQueue.ts:293-475 | whatever a superseded worker still attempts changes nothing, forever |
| `PortableScene.AcceptedSceneIsItsValue` | packages/collaboration-client/src/canonicalAuthority.ts:462-532 | an accepted scene is determined by its JSON value |
| `PortableScene.ImportUndoesExport` | packages/collaboration-client/src/portableScene.ts:47-120 | an exported file, written again in whatever key order, imports as the same scene |
| `PortableScene.ImportIsAccepted` | packages/collaboration-client/src/portableScene.ts:109-119 | whatever imports is a valid scene |
| `PortableScene.PassiveIsShallow` | packages/collaboration-client/src/portableScene.ts:122-163 | the content check also bounds depth and property names |
| `PortableScene.PortableWellFormed` | packages/collaboration-client/src/portableScene.ts:56-64 | the file repeats no property |
| `ArtifactPipeline.BindingRemoved` | services/whiteboard-runtime/src/artifactEnvelope.ts:174-175 | deleting the binding from the sealed object gives the object that was signed |
| `ArtifactPipeline.SignatureHolds` | services/whiteboard-runtime/src/artifactEnvelope.ts:158-182 | the signature of a created envelope verifies with the signing key |
| `ArtifactPipeline.HeaderValid` | services/whiteboard-runtime/src/artifactEnvelope.ts:237-291 | its header is valid for its own scope, and a scope mismatch for any other |
| `ArtifactPipeline.EnvelopeShallow` | services/whiteboard-runtime/src/artifactEnvelope.ts:340-354 | a created envelope passes the depth and property name check |
| `ArtifactPipeline.ContentHolds` | services/whiteboard-runtime/src/artifactEnvelope.ts:183-228 | its checksums, both scenes and the watermark agree |
| `ArtifactPipeline.CreatedVerifies` | services/whiteboard-runtime/src/artifactEnvelope.ts:70-235 | whatever creation returns verifies under the same scope and gives back the state, its scene and its hash |
| `ArtifactPipeline.OnlyForItsScope` | services/whiteboard-runtime/src/artifactEnvelope.ts:264-270 | it verifies for no other tenant, document or generation |
| `ArtifactPipeline.VerifiedIsAccepted` | services/whiteboard-runtime/src/artifactEnvelope.ts:189-228 | whatever bytes verify carry a valid scene whose hash is the hash of the state they carry |
| `ArtifactPipeline.RestoreReadsBack` | services/whiteboard-runtime/src/artifactWorker.ts:182-203 | whatever bytes verify, restoring them into any valid scope reads back as the verified scene |
| `ArtifactPipeline.SnapshotThenRestore` | services/whiteboard-runtime/src/artifactWorker.ts:141-207 | a snapshot of one generation restored into another reads back as the same scene with the same hash, under the same tenant and document |
| `ArtifactPipeline.RestoreKeepsScene` | services/whiteboard-runtime/src/artifactWorker.ts:172-207 | a restore job succeeds exactly when it is bound to the next generation, that number is a safe integer, and the queue still holds the lease and takes a checkpoint of that size; it then writes for that generation, and nothing else, a checkpoint that reads as the scene of the snapshot |
| `Varuint.StrictReadsEncoding` | services/whiteboard-runtime/src/rawHocuspocusAwareness.ts:299-326 | every safe integer is read back from its encoding, whatever follows |
| `Varuint.StrictAcceptsOnlyEncodings` | services/whiteboard-runtime/src/rawHocuspocusAwareness.ts:299-326 | whatever the strict reader accepts is the encoding of what it returns, in at most eight bytes |
| `Varuint.StrictIffEncoding` | services/whiteboard-runtime/src/rawHocuspocusAwareness.ts:299-326 | it accepts exactly the encodings of the safe integers |
| `Varuint.EncodeStandsFor` | services/whiteboard-runtime/src/rawHocuspocusAwareness.ts:299-326 | an encoding is a terminated run of groups that stands for its number |
| `Varuint.EncodeIsShortest` | services/whiteboard-runtime/src/rawHocuspocusAwareness.ts:315-317 | no encoding of a number is shorter, and any other one is longer |
| `Varuint.LenientAgrees` | services/whiteboard-runtime/src/rawWebSocketIngressGate.ts:502-517 | the lenient reader returns the same number and offset on everything the strict one accepts |
| `Varuint.LenientStandsForFrom` | services/whiteboard-runtime/src/rawWebSocketIngressGate.ts:502-517 | whatever the lenient reader accepts stands for the safe integer it returns |
| `Varuint.DifferOnPaddingOnly` | services/whiteboard-runtime/src/rawWebSocketIngressGate.ts:502-517 | the two readers differ on padded encodings only |
| `Varuint.CheckedSumIsExact` | services/whiteboard-runtime/src/rawWebSocketIngressGate.ts:511-512 | the safe-integer check on a rounded sum is the check on the exact sum |
| `JsonDepth.Visit` | services/whiteboard-runtime/src/rawHocuspocusAwareness.ts:181-205 | one visit replaces a node by its children and loses nothing |
| `JsonDepth.RunWalk` | services/whiteboard-runtime/src/rawHocuspocusAwareness.ts:171-207 | the work-stack loop computes the recursive walk |
| `JsonDepth.WalkIff` | services/whiteboard-runtime/src/rawHocuspocusAwareness.ts:171-207 | the walk succeeds exactly when nodes, depth and values are within bounds, and returns the deepest depth |
| `JsonDepth.OneStateIff` | services/whiteboard-runtime/src/runtimePolicy.ts:333-377 | the same for a single state |
| `AwarenessFrames.GateAgrees` | services/whiteboard-runtime/src/rawWebSocketIngressGate.ts:403-488 | under equal limits every frame that the strict inspector takes passes the gate, and both find the same payload and state bytes |
| `AwarenessFrames.StatesPass` | services/whiteboard-runtime/src/runtimePolicy.ts:315-384 | a state that passes the strict check passes the envelope policy |
| `AwarenessFrames.StateAlike` | services/whiteboard-runtime/src/rawWebSocketIngressGate.ts:437-462 | the state loop of the gate reads the one state of a strict update at the same bytes |
| `FrameDecoders.ByteCursor.ReadVarUint` | services/whiteboard-runtime/src/rawHocuspocusAwareness.ts:299-326 | the loop is the strict reader, and moves the cursor past the number |
| `FrameDecoders.ByteCursor.ReadLengthDelimited` | services/whiteboard-runtime/src/rawHocuspocusAwareness.ts:284-297 | a length and that many bytes, or the error |
| `FrameDecoders.InspectAwarenessUpdate` | services/whiteboard-runtime/src/rawHocuspocusAwareness.ts:122-169 | the update decoder, error by error |
| `FrameDecoders.InspectRawHocuspocusAwareness` | services/whiteboard-runtime/src/rawHocuspocusAwareness.ts:62-120 | the frame decoder, error by error |
| `FrameDecoders.ReadVarUint` | services/whiteboard-runtime/src/rawWebSocketIngressGate.ts:502-517 | the loop is the lenient reader |
| `FrameDecoders.DecodeState` | services/whiteboard-runtime/src/rawWebSocketIngressGate.ts:438-461 | one turn of the state loop |
| `FrameDecoders.DecodeStates` | services/whiteboard-runtime/src/rawWebSocketIngressGate.ts:433-462 | the state loop |
| `FrameDecoders.ValidateAwarenessEnvelope` | services/whiteboard-runtime/src/runtimePolicy.ts:315-384 | size, state count and walk |
| `FrameDecoders.InspectPayload` | services/whiteboard-runtime/src/rawWebSocketIngressGate.ts:411-487 | the payload checks, denial by denial |
| `FrameDecoders.ReadFrameEnvelope` | services/whiteboard-runtime/src/rawWebSocketIngressGate.ts:490-500 | address and type |
| `FrameDecoders.InspectRawAwarenessFrame` | services/whiteboard-runtime/src/rawWebSocketIngressGate.ts:403-488 | the gate's check, denial by denial |
| `Ipv6Prefix.HexIsGroup` | functions/api/[[path]].ts:236-240 | a word prints as one to four hexadecimal digits that parse back |
| `Ipv6Prefix.BestRunIsLeftmostLongest` | functions/api/[[path]].ts:241-252 | the chosen run is the leftmost of the longest runs of zero words |
| `Ipv6Prefix.ParseUndoesCompress` | functions/api/[[path]].ts:211-257 | every list of eight words is parsed back from its compressed form |
| `Ipv6Prefix.ParsedWords` | functions/api/[[path]].ts:211-237 | whatever parses is eight 16-bit words |
| `Ipv6Prefix.CompressInjective` | functions/api/[[path]].ts:239-257 | different addresses print differently |
| `Ipv6Prefix.SamePrefixIff` | functions/api/[[path]].ts:200-209 | two IPv6 addresses, however written, share a client prefix exactly when their top 56 bits agree |
| `Ipv6Prefix.CompressIPv6` | functions/api/[[path]].ts:239-257 | the best-run loops compute the compressed form |
| `Ipv6Prefix.MaskInPlace` | functions/api/[[path]].ts:204-207 | clears everything behind the first 56 bits, in place |
| `Ipv6Prefix.CanonicalIpv6Prefix` | functions/api/[[path]].ts:200-209 | the IPv6 branch |
| `HandQueue.ProjectHandQueue` | apps/media-ux-spike/src/mediaModel.ts:211-251 | the loop computes the fold |
| `HandQueue.FoldInv` | apps/media-ux-spike/src/mediaModel.ts:222-240 | what the fold knows of every participant after each event |
| `HandQueue.QueuedIff` | apps/media-ux-spike/src/mediaModel.ts:222-248 | a participant is queued at r exactly when r is their first raise after their last lower |
| `HandQueue.QueueIsOrdered` | apps/media-ux-spike/src/mediaModel.ts:243-247 | each queued participant is listed once, in the order of the raises |
| `HandQueue.OrderIndependent` | apps/media-ux-spike/src/mediaModel.ts:211-251 | the same events in any order and any number of deliveries give the same queue and last sequence |
| `HandQueue.LastIsMax` | apps/media-ux-spike/src/mediaModel.ts:229-230 | the last sequence is the highest of all events |
| `HandQueue.DuplicatesCounted` | apps/media-ux-spike/src/mediaModel.ts:224-227 | duplicates are the deliveries beyond the first of each event |

## Left out

- ElementStore.NextRevision: revisions are unbounded, where the stored ones are safe integers.
- Undo and redo, which belong to the Yjs undo manager and may write older revisions again.
- `applyRemoteUpdate`, the Yjs wire format and the merge of concurrent edits of the order array, page and file roots: convergence is stated for the element root, whose winners the authority computes itself.
- Replication.MergeResolves: stated for roots that agree on equal revisions, as in the runs of `Replication.ReplicasConsistent`.
- Corrupt stored texts: a stored text is represented by the value that it parses to, so parse failures of roots do not occur.
- Numbers are represented by their printed text, and string contents by UTF-16 code units.
- File and element ids that are names of members of `Object.prototype`, which `in` finds in every object.
- SceneLaws.PutNewThenRead: the position of a new element whose stale id is still in the order array, or that meets live ids the array lacks, is given by `SceneLaws.ReadIdsRestrict` only relative to the others.
- CanonicalAuthority.Authority.GetScene: a stored element whose own id is not the id of its envelope is an error here, where the source reads it under its own id; the operations here never store one.
- MutualExclusion.MutualExclusionIff: one clock is shared by all guards; drift between clocks is not modelled, and a backend is identified with its session.
- Readiness: the values that probes carry beside the mode and the health flags.
- ConnectionPolicy.RuntimeConnectionPolicy.ConsumeReconnectAttempt: the last observed instant of an actor is the last attempt kept, so it is not a field of its own.
- SessionRegistry.RuntimeSessionRegistry.Reserve: the clean-up of an exception between admission and installation, where nothing throws.
- IngressGate.SocketGate.AdmitFrame: transport closing and the count of unauthenticated sockets.
- Grants, credentials, telemetry, cost and quota assessments of the runtime harness; connections appear only through the leases and mutations that they cause.
- The two string encodings of document scopes in the harness: documents and leases are keyed by the scope itself.
- SQL text, pools, row locks and lost connections: a statement or transaction takes effect completely or not at all.
- ArtifactQueue.PostgresArtifactQueue.Claim: the worker name check and the tenant column, which every row keeps from its creation.
- Polling, logging and object storage of the artifact worker; stored bytes come back unchanged.
- ArtifactEnvelope: which of two codes a nesting or property name violation reports when both occur.
- JSON objects in `parse` results have no key order; property names that look like integers are therefore not special.
- `__proto__` and shared references inside decoded awareness states, which parsing never produces.
- Ipv6Prefix.CanonicalIpv6Prefix: trimming, zone suffixes and the IPv4 branch.
- The React, calendar, media and API code outside the modules above.
