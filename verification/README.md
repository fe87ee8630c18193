# A verified model of the delivery protocols and the group matcher

This project models, in Dafny, the parts of the emergency-notification repository where a mistake would
be hardest to see, and proves what those parts are for. To check the proofs, run
`dafny verify dfyconfig.toml` in this directory.

**The receipt lifecycle** (`ReceiptClaims`, `ReceiptProtocol`, `ReceiptInvariant`, `ReceiptSteps`,
`ReceiptTheorems`, `ReceiptInvalidation`, `ReceiptProgress`, `ReceiptPlans`, `ReceiptOutcomes`,
`ReceiptBatch`, `PollSchedule`, `ExpoProtocol`). The durable store, the resend scheduler and any number
of runners of `ExpoReceiptLifecycle` are one step relation: every `await` is a boundary between two
steps, a request may take effect late, again or never, a reply may be lost, a runner may crash between
any two steps and leases expire under it. The store and the scheduler do what the comments on their
interfaces promise; their clocks only advance, a runner's clock is arbitrary. An inductive invariant is
kept by every step, and the theorems follow for every run: evidence is unique and rests on one staged
action that never changes, a resend and an expiry exclude each other, conflicts are sticky and leave one
winner, polling is bounded, and from every reachable state every attempt can still be brought to its
end. Which receipt leads to which plan is told by the raw slot, both ways, and from every reachable
polling task that holds its lease the plan is carried to the row it leaves: completed, polled again,
sent again or ended.

**The send protocol** (`PermitLedger`, `SendOutcomes`, `ExpoSend`, `DirectSend`, `SendProtocol`,
`SendSafety`, `SendTheorems`, `SendVerdicts`, `SendRecords`, `SendProof`, `SendDelivery`,
`PushClassifiers`, `ExpoQueue`). The abstract idea, an irreversible permit per attempt in front of a provider without
idempotency, is a small machine of its own. The three ledgered adapters (Expo, direct APNs or FCM, SES)
are one step relation with an adapter tag, and every run of each is a run of the abstract ledger: the
provider is reached at most once per attempt, by the holder of its permit. What is reported agrees with
what is recorded, what is recorded is read back unchanged, and what is definitely reported is proved by
the provider's own answer or by a check that kept the attempt from it. The coalescing queue of the Expo
adapter is a class; its chunk routine is a method proved to give every entry what the one-entry routine
of the protocol gives it, and over a whole run of the queue every call that is handed over is resolved
once.

**The group matcher** (`Segmentation`, `CompactTokens`, `BuildingNames`, `MarkerTrie`, `TextSpans`,
`DigitPatterns`, `Facilities`, `FacilityIndex`, `BuildingBits`, `IndexedIdentity`, `Markers`,
`SplitAlias`, `TopRanked`, `BuildingMatches`, `AliasPrefilter`, `ScoreMeaning`, `ScoreExamples`,
`BuildingDraft`, `DraftMeaning`, `DraftCheck`, `DraftRebuild`, `DraftLoops`, `DraftValidation`,
`SourceRules`, `SourceDrafts`). Each fast structure is proved equal to a declarative counterpart:
reachable-offset scans to the existence of a cutting, the trie to prefix tests, the capped alias lookup
to the set of facilities with a matching alias, the bit sets to aliases in evidence, the kept top three
and top two to a lead over all groups and all facilities. `buildDraft` and `validateDraftForDomain` are
methods with the source's loops, proved against `BuildingDraft.Build` and `DraftCheck.Validates`; the
build is idempotent, every fresh draft passes the validator, and the validator accepts exactly the
drafts that are their own rebuild up to the order of their lists. Who is in which list of a draft is
told by the tests on that group alone. `SourceRules` puts the source's scores, reason codes, index
lookups and comparators into these theorems: what the source proposes is the best match by score both
ways, and what it drafts passes its own validator.

**Self-contained algorithms** (`ShardBalance`, `StableJson`, `JsonReading`, `HtmlEscape`, `Utf16`):
longest-processing-time balancing with its 4/3 bound, the canonical JSON text under fingerprints with a
reader for it, and HTML escaping.

Where the code and its comments differ, or a comment is loose, the model follows the code:

- The comment on `balanceShards` says the shards finish within one file of each other. It is the last
  file of the heavier shard; and asking for no shards throws unless there are no files
  (`ReduceOfEmptyArray`).
- The store's comment says that only the matching decision clears a pending action. For a pending resend
  `#scheduleResend` may also decide a terminal expiry, so the model counts that as matching.

Two tests of the source for a whole building do not agree everywhere: the bit-set test of the population
classification is stricter than the test of one facility that scoring uses, because it asks for one
alias that is both in evidence and alone accounts for the field (`IndexedIdentity.IndexedIdentityIff`).
They differ on the facility "Yew Middle School" and the group yew.mid.dle.school.staff@example.org with
the display name "yew mid dle school staff" (`SplitAlias.SplitAliasDiffers`).

Assumptions that stand for the environment or for other code: word lists, tokenisation, Unicode checks
and the locale's comparators are parameters (comparators need only be orders, and total on identifiers
where sorted lists are compared), while `Markers` gives the source's own lists and its tokeniser on
ASCII text; callers give `buildDraft` facilities that differ in identifier, code and normalised name and
groups that differ in identifier and email, as scripts/ops/groups-inventory-google.ts:140-150 and
scripts/ops/groups-inventory-input.ts:39-84 check; a claim token is the identity of the call it was
granted to; a deployment has one adapter in front of one ledger. Bigint bit sets are sets of positions,
and reason lists that the source sorts and dedupes are sets.

## Model

| member | source | states |
|---|---|---|
| ExpoProtocol.ParseOutcome | workers/push/protocol.ts:366-459 | an untrusted value parses to an outcome exactly when it is that outcome's canonical record and the outcome's reason, kind, state and flags are legal for the phase |
| PollSchedule.RetryDelay | workers/push/receipt-lifecycle.ts:850-871 | fails exactly for a random value outside [0,1]; otherwise the delay lies between 1 ms and an hour and is at least four fifths of the exponential |
| PollSchedule.ExponentialRange | workers/push/receipt-lifecycle.ts:850-871 | the un-jittered back-off stays between a minute and an hour for every attempt number |
| PollSchedule.DelayIsJittered | workers/push/receipt-lifecycle.ts:850-871 | the delay is the exponential times 0.8 to 1.2, linearly in the random value, to the nearest millisecond and at most an hour |
| PollSchedule.BackoffDoubles | workers/push/receipt-lifecycle.ts:850-871 | the un-jittered back-off is a minute for the first poll and doubles with each poll up to an hour |
| PollSchedule.EarliestDueAfterBackoff | workers/push/receipt-lifecycle.ts:38-41 | closed form of the earliest time the n-th poll can fall due, whatever the jitter |
| PollSchedule.DueBelowHorizonBoundsAttempt | workers/push/receipt-lifecycle.ts:38-41 | a poll due before the horizon is at most the 35th |
| ReceiptClaims.PollNeverEndsUnstaged | workers/push/receipt-lifecycle.ts:1087-1240 | for every transport answer, clock and random value a poll completes only on the canonical accepted record of its own receipt, reschedules with an allowed reason, or stages an action the action parser takes; the unstaged terminal branch is unreachable |
| ReceiptPlans.SlotTells | workers/push/receipt-lifecycle.ts:1107-1140 | a slot is taken for the receipt it canonically records under the claim's own receipt ID, and for an invalid one otherwise |
| ReceiptPlans.CompletesIff | workers/push/receipt-lifecycle.ts:1142-1149 | a poll completes exactly when the slot is the canonical accepted record of the claim's own receipt |
| ReceiptPlans.ResendsIff | workers/push/receipt-lifecycle.ts:1150-1176 | a resend is staged exactly for a canonical rate-limit record with an attempt left and a retry time before the expiry, as the next attempt, with that delay, time and expiry |
| ReceiptPlans.EndsIff | workers/push/receipt-lifecycle.ts:1150-1231 | which record stages which end: a definite failure its own reason and flag, a rate limit the expiry exactly if the retry would come too late and the exhausted retries if no attempt is left |
| ReceiptPlans.ReschedulesIff | workers/push/receipt-lifecycle.ts:1090-1238 | a poll is repeated, with this reason, exactly for a failed query of that reason or a record that decides nothing |
| ReceiptSteps.StepKeepsInvariant | workers/push/receipt-lifecycle.ts:100-112 | every step of store, scheduler and runners keeps the invariant |
| ReceiptSteps.RunKeepsInvariant | workers/push/receipt-lifecycle.ts:207-236 | so does every run |
| ReceiptTheorems.EvidenceIsUnique | workers/push/receipt-lifecycle.ts:1320-1482 | all evidence ever asked for one attempt is one piece, and it is what the attempt's staged action settles as |
| ReceiptTheorems.StagedActionNeverChanges | workers/push/receipt-lifecycle.ts:1320-1346 | no continuation of a run ever stages a second, different action for an attempt, although the store would let a valid lease restage |
| ReceiptTheorems.ResendExcludesExpiry | workers/push/receipt-lifecycle.ts:1379-1438 | once the scheduler keeps a resend, the attempt's only evidence is the rate-limit failure; resend and expiry are never both recorded |
| ReceiptTheorems.FinalAgreesWithEvidence | workers/push/receipt-lifecycle.ts:1268-1287 | a completed attempt has no evidence; any other final decision has its own evidence on record, and a final resend is kept by the scheduler |
| ReceiptTheorems.TerminalDecisionsFollowEvidence | workers/push/receipt-lifecycle.ts:1440-1482 | a terminal decision is asked for only after its evidence and only to settle a staged action |
| ReceiptTheorems.InvalidationFollowsEvidence | workers/push/receipt-lifecycle.ts:1440-1482 | an endpoint is invalidated only for a staged device-not-registered failure whose evidence was asked for |
| ReceiptInvalidation.UnregisteredIsInvalidated | workers/push/receipt-lifecycle.ts:1440-1482 | no attempt is closed for an unregistered device, nor asked to be, before the invalidation of its endpoint was asked for |
| ReceiptTheorems.ConflictLeavesOneWinner | workers/push/receipt-lifecycle.ts:207-236 | of two finished attempts bound to one receipt ID, at least one ended as the reference conflict |
| ReceiptTheorems.ConflictIsSticky | workers/push/receipt-lifecycle.ts:207-236 | after a conflict no stale claim can complete, reschedule or resend the attempt in any continuation, and its only action and evidence are the conflict's |
| ReceiptTheorems.DuplicateClaimIsConflict | workers/push/receipt-lifecycle.ts:1050-1066 | an open row whose receipt ID another row shares is already in conflict in the store, so the batch-level check never stages a conflict the store does not hold |
| ReceiptTheorems.LeaseGuardsRow | workers/push/receipt-lifecycle.ts:207-236 | a step leases a row only if it is due, open and under no live lease, marks it as conflicting, or changes it by the decision of the live lease's holder |
| ReceiptTheorems.PollingIsBounded | workers/push/receipt-lifecycle.ts:748-871 | in every run the poll number never exceeds 36 and due times stay between 15 minutes and 23 hours 45 minutes after the record |
| ReceiptTheorems.DueTimesRise | workers/push/receipt-lifecycle.ts:1289-1318 | over any part of a run due times and poll numbers rise together and strictly, bindings never change, and final rows stand still |
| ReceiptTheorems.StoreClaimsParse | workers/push/receipt-lifecycle.ts:748-848 | every claim the store can hand out is taken by the claim parser exactly when the runner's clock agrees with due time, lease window and a staged horizon |
| ReceiptTheorems.RunGrows | workers/push/receipt-lifecycle.ts:207-236 | staged actions, evidence, kept resends and bindings are never lost or changed by a continuation |
| ReceiptOutcomes.AcceptedReceiptCompletes | workers/push/receipt-lifecycle.ts:1142-1149 | from any reachable polling task that holds its lease, an accepted receipt and the commit leave the row complete and record no evidence |
| ReceiptOutcomes.UndecidedReceiptIsPolledAgain | workers/push/receipt-lifecycle.ts:1289-1318 | a receipt that decides nothing leaves the row open, due later by the jittered delay but not past the horizon, with the next poll number and its reason |
| ReceiptOutcomes.FailedReceiptEnds | workers/push/receipt-lifecycle.ts:1440-1482 | a definite failure is staged, put on evidence, its endpoint invalidated if the device is gone, and the row closed with that reason |
| ReceiptOutcomes.RateLimitedEnds | workers/push/receipt-lifecycle.ts:1150-1198 | a rate-limited push that cannot be sent again ends, on evidence, as expired or as exhausted, whichever its times and attempts say |
| ReceiptOutcomes.RateLimitedIsSentAgain | workers/push/receipt-lifecycle.ts:1379-1438 | one that can be sent again is handed to the scheduler: kept and closed as rescheduled if the scheduler's clock is before the expiry, closed as expired otherwise |
| ReceiptOutcomes.DueAttemptEnds | workers/push/receipt-lifecycle.ts:1040-1085 | a due attempt in conflict ends in the conflict, and one past its horizon as unknown with the reason its last poll left |
| ReceiptOutcomes.DueAttemptIsPolled | workers/push/receipt-lifecycle.ts:1040-1085 | any other due attempt is polled under a fresh lease |
| ReceiptOutcomes.DeliveredPushCompletes | workers/push/receipt-lifecycle.ts:949-1266 | the claim, the triage, the accepted receipt and the commit, in that order, complete a delivered push that is due |
| ReceiptOutcomes.ScheduledAttemptFallsDue | workers/push/receipt-lifecycle.ts:207-236 | an accepted attempt that was scheduled is due a quarter of an hour after it was recorded |
| ReceiptProgress.EveryAttemptCanFinish | workers/push/receipt-lifecycle.ts:949-1266 | from every reachable state, whatever crashed or expired, some continuation brings any given attempt to a final decision: nothing the store or scheduler rejects blocks it |
| ReceiptProgress.TriageFinishes | workers/push/receipt-lifecycle.ts:1040-1085 | a fresh claim past the horizon can be carried through staging, side effects and decision |
| ReceiptProgress.AwaitingResendFinishes | workers/push/receipt-lifecycle.ts:1379-1438 | the scheduler can always answer a staged resend: what it may already keep for the attempt is that very request |
| ReceiptBatch.CountBy | workers/push/receipt-lifecycle.ts:994-1001 | the counting maps hold, for every key, how many claims have it |
| ReceiptBatch.ParseClaims | workers/push/receipt-lifecycle.ts:967-993 | keeps each valid claim once and no other, and counts exactly the invalid ones |
| ReceiptBatch.Triage | workers/push/receipt-lifecycle.ts:1007-1085 | every claim is routed by what the whole batch holds, and the pollable list is the claims routed to polling, in the order of the batch |
| ReceiptBatch.PolledDiffer | workers/push/receipt-lifecycle.ts:1036-1092 | however a batch repeats attempts and receipt IDs, the claims asked about repeat neither, are open and before their horizon |
| ReceiptBatch.TriageFollowsRoute | workers/push/receipt-lifecycle.ts:1036-1085 | the lifecycle's triage step of a claim is its route in the batch, with the duplicate flag being that its receipt ID repeats there |
| ReceiptBatch.Chunks | workers/push/protocol.ts:682-694 | throws exactly for a size outside 1 to 1000; the chunks joined are the values, all full but a non-empty last one |
| ReceiptBatch.ParseTickets | workers/push/protocol.ts:473-583 | one outcome per message, missing data or too much of it is invalid throughout, and exactly the references that repeat are degraded |
| ReceiptBatch.TicketIff | workers/push/protocol.ts:473-529 | for each outcome the one ticket it is made from: an ID that is a safe reference, a named error, any other error, or anything else |
| ReceiptBatch.TicketsAreCanonical | workers/push/protocol.ts:473-530 | whatever a ticket maps to is accepted unchanged by the outcome parser in the ticket phase |
| PermitLedger.NextKeepsAtMostOnce | workers/push/adapter.ts:111-127 | a step of the abstract ledger keeps at-most-once |
| PermitLedger.RunIsSafe | workers/push/adapter.ts:111-127 | in every run of the abstract ledger no attempt is sent twice and only the permit holder sends |
| PermitLedger.NothingIsTakenBack | workers/email/ses-adapter.ts:114-125 | a permit or a crossing, once there, is there in every later state, unchanged |
| SendSafety.StepKeepsInvariant | workers/push/adapter.ts:733-856 | every step of every adapter keeps the invariant and extends the state |
| SendSafety.RunKeepsInvariant | workers/push/direct-adapter.ts:380-468 | so does every run |
| SendSafety.StepRefinesLedger | workers/push/adapter.ts:622-668 | every step of every adapter is a step of the abstract ledger |
| SendSafety.RecordReadsBack | workers/push/direct-adapter.ts:263-304 | a record in the ledger reads back as something its holder said, and writing that again gives the record |
| SendSafety.CheckFailureWritesBack | workers/push/direct-adapter.ts:615-656 | what the last checks refuse with is readable from the ledger |
| SendSafety.AnswerWritesBack | workers/email/ses-adapter.ts:531-610 | what is made of any provider answer is readable from the ledger |
| SendSafety.AcceptedAnswer | workers/email/ses-adapter.ts:368-417 | an accepted completion can only come from an answer in which the provider accepted under that reference |
| SendTheorems.RunRefinesLedger | workers/push/adapter.ts:111-127 | seen through its permits, every run of every adapter is a run of the abstract ledger |
| SendTheorems.SentAtMostOnce | workers/push/adapter.ts:622-668 | over all interleavings, redeliveries and crashes the provider boundary is crossed at most once per attempt, by the permit's holder, for the fingerprint the permit is for |
| SendTheorems.CrossesOnlyChecked | workers/push/direct-adapter.ts:615-656 | in every run a provider send is made only by a call that holds its permit, and for Expo only for an eligible entry at two clock reads before its expiry, for a direct push only when authorized and eligible |
| SendTheorems.ClaimsOnlyPrepared | workers/push/direct-adapter.ts:496-613 | a direct push asks for its permit only if it was in time, authorized, eligible and ready |
| SendTheorems.LedgerIsIrrevocable | workers/email/ses-adapter.ts:114-125 | in any continuation a claim keeps its holder and fingerprint and a completion its record |
| SendTheorems.DefiniteReportsAgree | workers/push/adapter.ts:579-668 | any two definite answers for an attempt, from a send or replayed, agree; for the push adapters they are the same completion |
| SendTheorems.DefiniteReportMatchesRecord | workers/email/ses-adapter.ts:531-610 | a definite answer agrees with the ledger's record, which can be read |
| SendTheorems.AcceptedMeansAccepted | workers/push/adapter.ts:622-668 | accepted is answered only if the provider accepted that attempt's one send under that reference |
| SendTheorems.ReplayIsExact | workers/push/direct-adapter.ts:670-690 | a replayed or recovered answer is what the holder asked to be recorded, without loss |
| SendTheorems.DirectRunContradicts | workers/push/direct-adapter.ts:496-613 | a concrete run in which a redelivered direct push, judged before its claim, is called failed although the first delivery was accepted |
| SendTheorems.SesRunContradicts | workers/email/ses-adapter.ts:517-531 | a concrete run in which a claim that threw is called safe to retry although another delivery is accepted |
| SendTheorems.ExpoNeverContradicts | workers/push/adapter.ts:622-668 | no run of the Expo adapter ever gives two different definite answers to the work it was given |
| SendTheorems.ContradictionsAreOutsideTheClaim | workers/push/direct-adapter.ts:408-468 | in any run two contradicting answers are a direct adapter's with one from before the claim, or the SES adapter's with one for a claim that threw against one that rests on a permit; nothing else contradicts |
| SendTheorems.NeverContradictsIffExpo | workers/push/direct-adapter.ts:408-468 | an adapter never contradicts itself, pre-claim and failed-claim answers included, exactly if it is the Expo adapter |
| SendVerdicts.DefiniteIff | workers/email/ses-adapter.ts:548-610 | for each adapter what is recorded and what is answered is definite exactly if the provider's answer itself proves the verdict, and then it is that verdict; a thrown, malformed or ambiguous answer proves none |
| SendVerdicts.RetryIff | workers/push/direct-adapter.ts:106-122 | an attempt is answered as safe to repeat exactly if the answer says so, with its reason; the SES adapter then records a failure |
| SendVerdicts.ExpoAnswerIff | workers/push/adapter.ts:463-491 | the one transport result that is called accepted, each definite failure, and expired |
| SendVerdicts.ExpoFailureIff | workers/push/adapter.ts:419-432 | a failure is one the client threw as such, a rate-limited ticket, or, called ambiguous, any other throw |
| SendVerdicts.ExpoUnknownIff | workers/push/adapter.ts:463-491 | an unknown outcome keeps the ticket's own reason only for the canonical ticket that names it |
| SendVerdicts.SesUnknownIff | workers/email/ses-adapter.ts:548-597 | an unknown SES outcome is an ambiguous dispatch error with its code, another error, or a response without a well-formed message ID |
| SendVerdicts.ParsesIff | workers/push/direct-protocol.ts:184-310 | the parser takes exactly the accepted, terminal, retryable, unknown, invalidating and expired outcomes of the provider, each as it is |
| SendVerdicts.DirectDefiniteIff | workers/push/direct-adapter.ts:653-668 | a direct send is definite exactly if its outcome is a canonical accepted, failed, retryable or expired one |
| SendVerdicts.CheckIff | workers/push/adapter.ts:736-803 | the last checks let a send pass, refuse it with a code and disposition, expire it after an hour, or leave it unknown, each under its exact condition |
| SendVerdicts.PreparationTells | workers/push/direct-adapter.ts:496-613 | what the preparation of a direct push comes to, in its order: clock, expiry, authorization, eligibility, what was prepared |
| SendRecords.ExpoTrustsIff | workers/push/adapter.ts:225-358 | the Expo adapter reads back exactly the records of its own outcomes and failures |
| SendRecords.DirectTrustsIff | workers/push/direct-adapter.ts:186-304 | so do the direct adapters, with the time a device unregistered |
| SendRecords.SesTrustsIff | workers/email/ses-adapter.ts:419-478 | the SES adapter reads back exactly the outcomes of SES that did not expire |
| SendProof.StepKeepsProof | workers/push/adapter.ts:733-856 | every step keeps that what a call asks to be recorded comes from the answer to its own send or from a failed check without a send |
| SendProof.RunKeepsProof | workers/push/direct-adapter.ts:380-468 | so does every run |
| SendProof.DefiniteIsProved | workers/email/ses-adapter.ts:548-610 | in every run a definite report that rests on the permit is proved by the recorded answer to the attempt's one send, or by a check that kept the attempt from the provider for good |
| SendProof.RetryIsProved | workers/push/direct-adapter.ts:615-668 | in every run an attempt is reported safe to repeat only if the answer to its one send, or a check before it, says so |
| SendProof.AnswerIsRecorded | workers/email/ses-adapter.ts:548-610 | what the provider answered is what is asked to be recorded, and what the ledger holds once it holds anything |
| SendProof.ConflictsAreOtherWork | workers/push/adapter.ts:622-668 | a claim is turned down as a conflict exactly if the attempt's permit is for other work |
| SendDelivery.UndisturbedSend | workers/push/adapter.ts:622-668 | from any state the undisturbed first delivery crosses once, records what is made of the answer and answers it |
| SendDelivery.UndisturbedRefusal | workers/push/direct-adapter.ts:615-656 | a failed check is recorded and answered, and nothing is sent |
| SendDelivery.Redelivery | workers/push/adapter.ts:622-668 | after any run a later delivery does not reach the provider: it gets the record, no definite answer while there is none, or is turned down for other work |
| SendDelivery.Recovery | workers/push/adapter.ts:578-620 | recovery answers what a later delivery would be answered and changes nothing |
| SendDelivery.RecordingThrows | workers/push/adapter.ts:651-662 | if recording throws, the push adapters answer unknown and SES what it knows |
| SendDelivery.ClaimThrowsTells | workers/email/ses-adapter.ts:517-529 | a claim that throws is ambiguous for the push adapters and safe to retry for SES; nothing is sent |
| SendDelivery.DeniedClaim | workers/email/ses-adapter.ts:531-537 | what the SES ledger's policy denies is refused for good, without a permit |
| ExpoSend.WrittenCompletionsParseBack | workers/push/adapter.ts:225-358 | every completion the Expo adapter can write parses back to itself |
| ExpoSend.AcceptedOnlyByTransport | workers/push/adapter.ts:419-519 | a completion says accepted only for the transport's canonical accepted ticket with that reference |
| DirectSend.ClassifyApns | workers/push/apns-transport.ts:141-207 | every classified APNs response is a fixed point of the outcome parser |
| DirectSend.ParseFcmError | workers/push/fcm-transport.ts:132-189 | the loop over the details finds exactly the specified error, with its flags, or rejects |
| DirectSend.ClassifiedFcmParses | workers/push/fcm-transport.ts:191-253 | every classified FCM response is a fixed point of the outcome parser |
| PushClassifiers.ApnsAcceptedIff | workers/push/apns-transport.ts:166-170 | accepted exactly for an empty 200 that carries a message ID |
| PushClassifiers.ApnsRetryableIff | workers/push/apns-transport.ts:192-197 | retryable exactly for a readable error of status 429, as throttled, or 500 and above, as a server error |
| PushClassifiers.ApnsInvalidatingIff | workers/push/apns-transport.ts:175-191 | the endpoint is invalidated exactly for an unregistered device with a time, or a 400 that names a bad token |
| PushClassifiers.ApnsTerminalIff | workers/push/apns-transport.ts:198-206 | terminal exactly for the remaining readable errors, with the credential, topic or payload as reason |
| PushClassifiers.ApnsUnknownIff | workers/push/apns-transport.ts:141-178 | unknown exactly for everything else |
| PushClassifiers.LastCode | workers/push/fcm-transport.ts:152-182 | the error code is that of the last detail that has one |
| PushClassifiers.FcmAcceptedIff | workers/push/fcm-transport.ts:198-218 | accepted exactly for a 200 that names the message, under the digest of that name |
| PushClassifiers.FcmErrorTells | workers/push/fcm-transport.ts:219-252 | what every readable error is taken for, in the order of the tests |
| PushClassifiers.FcmRetryableIff | workers/push/fcm-transport.ts:239-248 | retryable exactly for throttling and server errors, with that reason |
| PushClassifiers.FcmInvalidatingIff | workers/push/fcm-transport.ts:223-238 | the endpoint is invalidated exactly for an unregistered device, or a bad argument in a request this side had validated |
| PushClassifiers.FcmTerminalOrUnknown | workers/push/fcm-transport.ts:191-253 | terminal exactly for the remaining readable errors, with the credential or the payload as reason; unknown exactly for what is neither a message name nor a readable error |
| DirectSend.WrittenCompletionsParseBack | workers/push/direct-adapter.ts:186-304 | every completion the direct adapter can write parses back to itself |
| ExpoQueue.Queue.constructor | workers/push/adapter.ts:525-577 | an empty queue with no timer is valid |
| ExpoQueue.Queue.Enqueue | workers/push/adapter.ts:688-703 | an entry waits, or completes a full chunk that goes out at once in order; nothing is lost, doubled or reordered |
| ExpoQueue.Queue.ScheduleFlush | workers/push/adapter.ts:705-711 | the timer is set afterwards |
| ExpoQueue.Queue.TimerFires | workers/push/adapter.ts:705-711 | everything that waits goes out as one chunk and the timer is clear |
| ExpoQueue.Queue.Dispatch | workers/push/adapter.ts:718-729 | the waiting entries are handed over as one chunk of legal size |
| ExpoQueue.Queue.FlushPendingChunks | workers/push/adapter.ts:713-731 | restores fewer than 100 waiting and the timer set exactly when some wait |
| ExpoQueue.SendChunk | workers/push/adapter.ts:733-856 | every entry gets exactly what the one-entry routine of the protocol gives it, and exactly the entries that routine lets through are sent, once and in order |
| ExpoQueue.SentInTime | workers/push/adapter.ts:736-803 | an entry is sent exactly if it is eligible and both clock reads were before its expiry; none is sent at or past it |
| ExpoQueue.FirstChecks | workers/push/adapter.ts:736-755 | the first clock read settles every entry but the fresh ones, which are listed with their places |
| ExpoQueue.SecondChecks | workers/push/adapter.ts:756-802 | eligibility and the second clock read settle every entry but those to be sent |
| ExpoQueue.Send | workers/push/adapter.ts:803-842 | each remaining entry is sent once and its own slot takes the answer |
| ExpoQueue.SettleChunk | workers/push/adapter.ts:843-856 | every entry's own promise is resolved, in order, with what the one-entry routine gives it |
| ExpoQueue.Run | workers/push/adapter.ts:688-856 | over any run of calls and timer firings nothing is lost, doubled or reordered, every call handed over is resolved exactly once as its place in its chunk demands, and after the timer nothing waits |
| ShardBalance.SortIsStableAndDescending | scripts/test.ts:71-73 | the sort gives the one stable order by falling weight |
| ShardBalance.GreedyWithinTwice | scripts/test.ts:78-84 | in any order the greedy rule loads no shard beyond (2m - 1)/m of any placement's heaviest |
| ShardBalance.LargeLastItemFits | scripts/test.ts:78-84 | if three least items exceed the cap, the least item still fits on the lightest shard |
| ShardBalance.GreedyWithinFourThirds | scripts/test.ts:78-84 | longest first, the greedy rule loads no shard beyond (4m - 1)/3m of any placement's heaviest |
| ShardBalance.GreedyWithinLastItem | scripts/test.ts:78-84 | any shard exceeds any other by at most its own last item |
| ShardBalance.SortKeepsLoads | scripts/test.ts:71-73 | every placement of the unsorted files has a placement of the sorted ones with the same loads |
| ShardBalance.BalancedPartitions | scripts/test.ts:70-86 | every file is on exactly one shard |
| ShardBalance.BalancedWithinOneFile | scripts/test.ts:64-86 | any two shards differ by at most the last file of the heavier |
| ShardBalance.BalancedWithinFourThirds | scripts/test.ts:64-86 | 3m times any shard's size is at most (4m - 1) times the heaviest shard of every assignment of the files |
| ShardBalance.FourThirdsIsTight | scripts/test.ts:64-86 | sizes 3, 3, 2, 2, 2 on two shards meet the bound exactly |
| ShardBalance.ReduceToLightest | scripts/test.ts:79-81 | finds the first of the lightest shards |
| ShardBalance.PlaceOne | scripts/test.ts:78-84 | one turn of the loop is one greedy placement, in place |
| ShardBalance.BalanceShards | scripts/test.ts:70-86 | the method computes the specified shards and throws exactly for no shards and some files |
| Segmentation.ReachableIsKnown | scripts/ops/groups-inventory-classification.ts:116-163 | the scan knows, when it reaches an offset, exactly the states some cutting of the text up to it leads to |
| Segmentation.ScanStep | scripts/ops/groups-inventory-classification.ts:116-163 | following every piece that begins at an offset makes the scan ready for the next |
| Segmentation.FollowedByAll | scripts/ops/groups-inventory-classification.ts:1616-1663 | so does following them one state at a time |
| CompactTokens.NumberEnd | scripts/ops/groups-inventory-classification.ts:112-114 | a digit pattern that matches consumes something and stays inside the token |
| DigitPatterns.NumberEndIsMatch | scripts/ops/groups-inventory-classification.ts:112-114 | a number ends where the source's regular expression, with the backtracking of ECMAScript, matches |
| DigitPatterns.AfterDigits | scripts/ops/groups-inventory-classification.ts:112-114 | before a pattern that fails at digits backtracking helps nothing: all digits are taken or there is no match |
| CompactTokens.IsFullyConsumed | scripts/ops/groups-inventory-classification.ts:978-995 | accepts exactly the concatenations of markers and numbers |
| CompactTokens.IsNamedToken | scripts/ops/groups-inventory-classification.ts:116-205 | accepts exactly the tokens that can be cut into neutral and target pieces with at least one target |
| BuildingNames.NameStates | scripts/ops/groups-inventory-classification.ts:1261-1329 | the carried flags tell whether exactly one alias and whether a workforce word was read |
| BuildingNames.WholeBuildingFieldState | scripts/ops/groups-inventory-classification.ts:1261-1329 | the state is what the cuttings of the field into words, years and exactly one facility alias say |
| BuildingNames.StaffStates | scripts/ops/groups-inventory-classification.ts:1616-1663 | the two bits tell whether a prefix and a staff word were read, incidental words only after a prefix |
| BuildingNames.IsStaffToken | scripts/ops/groups-inventory-classification.ts:1616-1663 | accepts exactly the tokens with such a cutting that holds both |
| MarkerTrie.Trie.constructor | scripts/ops/groups-inventory-classification.ts:334-350 | the trie holds exactly the non-empty markers |
| MarkerTrie.Trie.Add | scripts/ops/groups-inventory-classification.ts:338-348 | adds one marker and keeps the others |
| MarkerTrie.Trie.EndOffsets | scripts/ops/groups-inventory-classification.ts:352-366 | lists, in increasing order, exactly the ends of markers found at the offset |
| TextSpans.SpansCoverRange | scripts/ops/groups-inventory-classification.ts:1447-1464 | the greedy walk accepts exactly when every position of the range is covered |
| TextSpans.MergedTextSpans | scripts/ops/groups-inventory-classification.ts:1506-1521 | covers the same positions with separate spans from left to right |
| TextSpans.MaskTextSpans | scripts/ops/groups-inventory-classification.ts:1523-1532 | replaces exactly the covered positions and keeps the length |
| Facilities.AliasesAreDistinctive | scripts/ops/groups-inventory-classification.ts:1113-1241 | every automatic alias has three letters or more and is no concatenation of generic words |
| Facilities.MoreAliasesNameMore | scripts/ops/groups-inventory-classification.ts:1261-1329 | a name stays a building's name when more aliases are allowed, in any order |
| Facilities.SequenceIsIncluded | scripts/ops/groups-inventory-classification.ts:242-253 | a contained token sequence, joined, stands in the joined field |
| Facilities.TokenIsIncluded | scripts/ops/groups-inventory-classification.ts:1243-1259 | so does whatever stands in one of the tokens |
| Facilities.ScoredFacilitiesAreContexts | scripts/ops/groups-inventory-report.ts:137-207 | a facility none of whose aliases stands in a field scores at most 20 and is not eligible |
| FacilityIndex.IndexAliases | scripts/ops/groups-inventory-classification.ts:368-400 | each alias maps to the exact set of its facilities, the first 64 of them, and whether there are more or a closed one |
| FacilityIndex.ContextMatches.AddMatches | scripts/ops/groups-inventory-classification.ts:577-634 | bits stay exact and contexts stay within the cap |
| FacilityIndex.ContextMatches.OverflowIsExact | scripts/ops/groups-inventory-classification.ts:577-634 | overflow is set exactly when more than 64 facilities match, and otherwise the contexts are all of them |
| FacilityIndex.AutomaticContexts | scripts/ops/groups-inventory-classification.ts:642-677 | without overflow the contexts are exactly the facilities with an alias in a field; overflow and the closed flag are exact always |
| FacilityIndex.ContextsForTokens | scripts/ops/groups-inventory-classification.ts:577-634 | the bits are exactly the facilities with a token sequence or prefix alias, the contexts too when no more than 64 match |
| BuildingBits.KeysAreInjective | scripts/ops/groups-inventory-classification.ts:402-407 | index keys determine their alias or token sequence |
| BuildingBits.StandsForOne | scripts/ops/groups-inventory-classification.ts:408-520 | a key stands for one alias only |
| BuildingBits.AddEvidence | scripts/ops/groups-inventory-classification.ts:486-500 | the inconsistency throw is unreachable, and the entry keeps its alias |
| BuildingBits.BuildEvidenceIndex | scripts/ops/groups-inventory-classification.ts:501-520 | building the index never throws and sets a facility's bit under each of its keys and no other |
| BuildingBits.BoundaryEvidence | scripts/ops/groups-inventory-classification.ts:679-710 | finds exactly the indexed keys that stand in a token or are a run of tokens |
| BuildingBits.FieldBits | scripts/ops/groups-inventory-classification.ts:717-743 | the two bit sets are exactly the facilities behind a key whose alias alone names the field |
| BuildingBits.HasIndexedIdentity | scripts/ops/groups-inventory-classification.ts:745-775 | accepts exactly when some facility has, in both fields, an alias in evidence that alone names the field, a workforce word in one |
| BuildingBits.IndexedIdentityIsIdentity | scripts/ops/groups-inventory-report.ts:61-114 | whatever the bit sets accept, the test of that facility accepts |
| IndexedIdentity.NamedByOne | scripts/ops/groups-inventory-classification.ts:1261-1329 | a building's name holds an alias that alone makes it one |
| IndexedIdentity.IndexedIdentityIff | scripts/ops/groups-inventory-classification.ts:745-775 | the bit sets accept exactly when each field has an alias of the facility that is in evidence there and alone names it, in one field with a workforce word; so the two tests agree exactly when that holds or the facility's own test rejects |
| IndexedIdentity.BoundariesDecide | scripts/ops/groups-inventory-classification.ts:745-775 | in particular they agree on every group in whose fields the facility's aliases respect the token boundaries |
| Markers.TokensOfSeparated | scripts/ops/groups-inventory-model.ts:559-567 | words with one separator between them are read back as the tokens |
| SplitAlias.SplitAliasDiffers | scripts/ops/groups-inventory-report.ts:61-114 | with the source's word lists, in every academic year, a concrete facility and group that the facility's test accepts and the bit sets reject |
| TopRanked.RetainBest | scripts/ops/groups-inventory-report.ts:226-241 | keeps the first entries of the list with the new one inserted |
| TopRanked.TakeThenInsert | scripts/ops/groups-inventory-report.ts:226-241 | what was dropped before could not have been among the best after |
| TopRanked.RankedIsRanked | scripts/ops/groups-inventory-report.ts:226-241 | the whole stream so inserted is sorted |
| TopRanked.RankedKeepsAll | scripts/ops/groups-inventory-report.ts:226-241 | and has the same members, without new repetitions |
| TopRanked.SortedIsUnique | scripts/ops/groups-inventory-report.ts:209-224 | a comparator that tells values apart leaves one sorted order |
| BuildingMatches.ScoreGroup | scripts/ops/groups-inventory-report.ts:460-483 | one group's turn keeps both tables the best of their full streams and finds a closed facility exactly when one scores |
| BuildingMatches.FrontTellsLeader | scripts/ops/groups-inventory-report.ts:249-252 | the kept front says exactly whether an entry leads every other of the whole stream by 30 |
| BuildingMatches.StrongCandidateIff | scripts/ops/groups-inventory-report.ts:485-552 | a group is proposed exactly if it is eligible with 110 or more and leads by 30 over every other group for the facility and every other facility for the group |
| BuildingMatches.ProposalsAreInjective | scripts/ops/groups-inventory-report.ts:485-552 | no group is proposed for two facilities |
| AliasPrefilter.AliasesAreCompact | scripts/ops/groups-inventory-classification.ts:447-460 | no facility with an automatic alias is missing from the index |
| AliasPrefilter.PrefilterLosesNothing | scripts/ops/groups-inventory-classification.ts:642-677 | a facility that scores 90 is among the contexts found |
| AliasPrefilter.ContextsScoreAll | scripts/ops/groups-inventory-report.ts:460-481 | scoring only the contexts gives what scoring every facility would |
| AliasPrefilter.ScoreGap | scripts/ops/groups-inventory-report.ts:137-207 | a score is between 0 and 20 or between 90 and 210 |
| ScoreMeaning.ReasonIff | scripts/ops/groups-inventory-report.ts:137-207 | each of the seven reason codes is given exactly where its test on the facility and the group holds, and none twice |
| ScoreMeaning.ScoreIsSum | scripts/ops/groups-inventory-report.ts:137-207 | a score is the sum of the points of its reason codes: 100, 90, 100, 20 and nothing for the others |
| ScoreMeaning.WholeBuildingReaches | scripts/ops/groups-inventory-report.ts:137-207 | a group that names the whole building scores 110 or more, and may be proposed unless it has a role's word or an old one's |
| ScoreMeaning.WholeBuildingIff | scripts/ops/groups-inventory-report.ts:61-114 | which groups name a whole building: both fields readable, an alias in evidence and a cutting into one alias in each, a workforce word in one |
| ScoreExamples.CodeScores | scripts/ops/groups-inventory-report.ts:137-207 | with the source's word lists a group named by its school's code scores 120 and may be proposed |
| ScoreExamples.StemScores | scripts/ops/groups-inventory-report.ts:137-207 | one named by the stem of the school's name scores 110 and may be proposed |
| ScoreExamples.WholeNameScores | scripts/ops/groups-inventory-report.ts:137-207 | one named by the whole name in one word scores 120 and may be proposed |
| ScoreExamples.PrefixIsCode | scripts/ops/groups-inventory-classification.ts:1184-1214 | a code that begins a word of the school's own name counts as its code |
| ScoreExamples.WeakStemHasNoAlias | scripts/ops/groups-inventory-classification.ts:1155-1182 | a school whose stem is a compass point has no automatic alias |
| ScoreExamples.AggregateHasNoAlias | scripts/ops/groups-inventory-classification.ts:1155-1182 | nor has one whose name speaks of the organisation |
| ScoreExamples.NoSiteHasNoAlias | scripts/ops/groups-inventory-classification.ts:1155-1182 | nor one without a word for a kind of building |
| AliasPrefilter.ScoresAreRules | scripts/ops/groups-inventory-report.ts:137-207 | the source's scores and contexts meet what the matching theorem asks of them |
| AliasPrefilter.StrongCandidateByScore | scripts/ops/groups-inventory-report.ts:460-552 | the strong candidates in terms of the source's scores over all groups and all facilities |
| BuildingDraft.EligibleAgain | scripts/ops/groups-inventory-report.ts:374-387 | nothing that was kept is left out a second time |
| BuildingDraft.BuildIsIdempotent | scripts/ops/groups-inventory-report.ts:336-681 | rebuilding from a draft's own facilities and groups gives the same draft but for the total and the omitted count |
| BuildingDraft.CountsAddUpIff | scripts/ops/groups-inventory-input.ts:1130-1140 | the validator's count check holds of a fresh draft exactly when the groups left out differ in identifier |
| DraftMeaning.InventoryIff | scripts/ops/groups-inventory-report.ts:374-387 | a group is drafted exactly if it was given, can be written down and is of no population |
| DraftMeaning.ListedIff | scripts/ops/groups-inventory-report.ts:388-440 | a drafted group is listed as restricted, ambiguous or unassigned, and is matchable, exactly by the tests on that group |
| DraftMeaning.StaleIff | scripts/ops/groups-inventory-report.ts:593-610 | a group is reported as perhaps stale exactly if it has a stale signal or names a closed facility, with exactly those reasons |
| DraftMeaning.ListsAreSorted | scripts/ops/groups-inventory-report.ts:611-660 | the inventory, the mappings and every list of the report are sorted by their comparators |
| DraftMeaning.CandidatesAreBest | scripts/ops/groups-inventory-report.ts:485-493 | a facility's candidates are its best three, in order, and all that score if they are fewer |
| DraftMeaning.OutcomeIff | scripts/ops/groups-inventory-report.ts:486-552 | the outcome, the best score and every reason of an assessment, each under its exact condition on the candidates |
| DraftMeaning.ReportedIff | scripts/ops/groups-inventory-report.ts:615-628 | a facility is reported missing exactly if active and without candidates, and uncertain exactly if it has candidates and no source |
| DraftCheck.RepairDoesNothing | scripts/ops/groups-inventory-report.ts:554-586 | with different facility identifiers the repair loop finds and changes nothing |
| DraftCheck.FreshAssessmentOk | scripts/ops/groups-inventory-input.ts:219-275 | a fresh assessment has at most three candidates of different groups, with falling scores between 90 and 210 that start at the best score, and fits its outcome |
| DraftCheck.FreshMappingsOk | scripts/ops/groups-inventory-input.ts:529-622 | a fresh mapping has a source exactly if strong, from the inventory and equal to its top candidate |
| DraftCheck.FreshNothingQuarantined | scripts/ops/groups-inventory-input.ts:698-717 | a fresh draft offers no restricted, stale or ambiguous group |
| DraftCheck.FreshStaleOk | scripts/ops/groups-inventory-input.ts:958-1007 | its stale report is complete, without repetition and overstates nothing |
| DraftCheck.FreshListOk | scripts/ops/groups-inventory-input.ts:886-957 | a reported group list of a fresh draft repeats nothing, is inventory and is the expected one |
| DraftCheck.FreshUnassignedOk | scripts/ops/groups-inventory-input.ts:914-928 | so is the unassigned list, although it is sorted by email and compared by identifier |
| DraftCheck.FreshSourcesDiffer | scripts/ops/groups-inventory-input.ts:576-603 | no two fresh mappings select a group of the same identifier or email |
| DraftCheck.MatchesItself | scripts/ops/groups-inventory-input.ts:622-697 | a draft without repeated groups or facilities passes the comparison with a rebuild that kept its inventory and mappings |
| DraftCheck.WarningsDiffer | scripts/ops/groups-inventory-input.ts:1141-1148 | its warnings do not repeat |
| DraftCheck.FreshDraftValidates | scripts/ops/groups-inventory-input.ts:407-1234 | every draft built from different facilities and groups passes every structural check of the validator |
| DraftRebuild.ListOkIff | scripts/ops/groups-inventory-input.ts:886-957 | the check of a reported list comes to its being the expected list up to order |
| DraftRebuild.StaleOkIff | scripts/ops/groups-inventory-input.ts:958-1007 | the check of the stale report comes to its being the rebuilt one up to order |
| DraftRebuild.WarningsOkIff | scripts/ops/groups-inventory-input.ts:1141-1186 | the check of the warnings comes to their being the rebuild's up to order |
| DraftRebuild.MatchesIff | scripts/ops/groups-inventory-input.ts:622-697 | the comparison with the rebuild comes to the same groups and the same mappings, assessments and sources included |
| DraftRebuild.AcceptedIsRebuild | scripts/ops/groups-inventory-input.ts:407-1234 | an accepted draft is its own rebuild: inventory, mappings, lists, hints, duplicates, warnings and counts |
| DraftRebuild.ValidatesIffOwnRebuild | scripts/ops/groups-inventory-input.ts:407-1234 | the validator accepts a draft exactly if nothing in it repeats, its counts add up and building it again says the same up to order |
| DraftLoops.ScoreEligible | scripts/ops/groups-inventory-report.ts:409-483 | the pass computes the exact ambiguous and inactive sets, and tables of the matchable groups only |
| DraftLoops.MapFacility | scripts/ops/groups-inventory-report.ts:486-552 | one turn of the mapping loop gives the specified mapping |
| DraftLoops.CollectProposals | scripts/ops/groups-inventory-report.ts:554-561 | the map lists, for every proposed group, the places of its proposers, keys in first-proposal order |
| DraftLoops.RepairDuplicates | scripts/ops/groups-inventory-report.ts:562-586 | changes in place exactly the mappings whose group is proposed twice and reports each such group once; throws only for a group that is not eligible |
| DraftLoops.CollectStale | scripts/ops/groups-inventory-report.ts:593-612 | the loop lists exactly the groups with a stale signal or a closed facility, with their reasons |
| DraftLoops.SourcesAreFound | scripts/ops/groups-inventory-report.ts:566-571 | every proposed group is eligible, so the throw is unreachable |
| DraftLoops.BuildDraft | scripts/ops/groups-inventory-report.ts:336-681 | the loops compute the specified draft |
| DraftValidation.CheckInventory | scripts/ops/groups-inventory-input.ts:498-515 | accepts exactly an inventory without repeated identifier or email and of the stated size |
| DraftValidation.CheckMapping | scripts/ops/groups-inventory-input.ts:529-617 | tells the first check of the loop's turn that a mapping fails, if it fails one |
| DraftValidation.CheckMappings | scripts/ops/groups-inventory-input.ts:523-621 | accepts exactly mappings that are sound and repeat no facility and no source; otherwise the error is the first failed check of the first mapping that fails |
| DraftValidation.CheckRebuilt | scripts/ops/groups-inventory-input.ts:622-697 | accepts exactly a draft whose inventory and mappings come out of the rebuild as they are |
| DraftValidation.CheckStale | scripts/ops/groups-inventory-input.ts:958-1007 | accepts exactly the derived stale groups with their derived reasons |
| DraftValidation.ValidateDraft | scripts/ops/groups-inventory-input.ts:407-1234 | throws nothing exactly for the drafts that satisfy the specification, which, with rules like the source's, are the drafts that are their own rebuild up to the order of their lists |
| SourceRules.SortedUniqueHasNoRepeats | scripts/ops/groups-inventory-model.ts:556-557 | keeps every text, each once |
| SourceRules.LookUp | scripts/ops/groups-inventory-classification.ts:642-677 | for a group's two fields the index yields different facilities an alias points to, all of them unless it overflows, and exact flags |
| SourceRules.ContextsOf | scripts/ops/groups-inventory-classification.ts:642-677 | without an overflow the contexts of a group are exactly the facilities one of whose aliases stands in a field |
| SourceRules.SourceOrders | scripts/ops/groups-inventory-report.ts:209-224 | the comparators built from the locale's are orders |
| SourceRules.SourceAreRatings | scripts/ops/groups-inventory-report.ts:137-207 | the source's scores, reason codes, contexts and comparators meet what the validator's theorem asks of ratings |
| SourceRules.SourceDraftValidates | scripts/ops/groups-inventory-report.ts:334-660 | whatever the source drafts of different facilities and different groups passes its own validator |
| SourceRules.SourceProposesBestMatch | scripts/ops/groups-inventory-report.ts:485-552 | a mapping proposes a group exactly if the facility is active and the group eligible for it with a score of at least 110 and 30 above that of every other matchable group and every other facility |
| SourceDrafts.SourceListsIff | scripts/ops/groups-inventory-report.ts:374-440 | who is drafted, restricted, ambiguous and matchable by the source's own tests and aliases, with no index, cap or context list in the statement |
| SourceDrafts.SourceStaleIff | scripts/ops/groups-inventory-report.ts:593-610 | who is reported as perhaps stale and for which reasons, in the same terms |
| SourceDrafts.SourceOffersIff | scripts/ops/groups-inventory-report.ts:460-483 | a matchable group is scored for a facility exactly if it has 90 points for it |
| SourceDrafts.SourceMissingIff | scripts/ops/groups-inventory-report.ts:615-628 | which facilities are reported missing or uncertain, by the scores of all matchable groups |
| SourceDrafts.SourceAcceptsIff | scripts/ops/groups-inventory-input.ts:407-1234 | the source's validator accepts exactly the drafts that are their own rebuild up to order |
| StableJson.EscapeUnique | workers/shared/attempt.ts:142-147 | an escaped string followed by its closing quote determines the string and what follows |
| StableJson.StableUnique | workers/shared/attempt.ts:142-153 | the text of a value, wherever it stands, determines the value up to key order and what follows |
| StableJson.SameHasOneText | workers/push/receipt-lifecycle.ts:397-407 | values equal up to key order have one text |
| StableJson.StableIsCanonical | workers/shared/attempt.ts:142-161 | two values have the same text exactly if they are equal up to key order, so the text under a fingerprint is injective |
| StableJson.StableIsWellFormed | workers/shared/attempt.ts:142-153 | the text is well-formed UTF-16 even for strings with lone surrogates |
| JsonReading.StableIsRead | workers/shared/attempt.ts:142-153 | read by the grammar of RFC 8259, sections 3 to 5 and 7, without whitespace, the text gives back the value, with the keys of every object in code-unit order |
| JsonReading.EscapeIsRead | workers/shared/attempt.ts:142-153 | an escaped string decodes, by section 7 of RFC 8259, to the string and stops at its quotation mark |
| JsonReading.EscapeShape | workers/shared/attempt.ts:142-153 | only what must be escaped is, by a letter where there is one, otherwise in lower-case hexadecimal |
| JsonReading.KeyBeforeIff | workers/shared/attempt.ts:142-153 | a key comes before another exactly if it is a proper prefix or has the smaller unit where they first differ |
| HtmlEscape.EscapeIsSubstitution | workers/email/email-message.ts:112-119 | five replacements in turn are one simultaneous substitution |
| HtmlEscape.EntityTexts | workers/email/email-message.ts:112-119 | the five characters and the ASCII text each is written as |
| HtmlEscape.EscapedIsSafe | workers/email/email-message.ts:112-119 | no raw angle bracket or quote is left and every ampersand starts one of the five entities |
| HtmlEscape.EscapeRoundTrips | workers/email/email-message.ts:112-119 | decoding the entities gives back every input |

## Left out

- BuildingBits.IndexedIdentityIsIdentity: one direction only, because the other is false of the code; IndexedIdentity.IndexedIdentityIff says exactly when it holds and SplitAlias.SplitAliasDiffers gives an input on which it fails.
- DraftCheck.FreshDraftValidates: for drafts still under review; confirmed or rejected decisions, review notes, edited neighborhoods, field syntax, collection bounds and the summary counts of the validator are not modelled.
- DraftRebuild.ValidatesIffOwnRebuild: of comparators that are orders and rules with the source's codes; the warnings among the hints are not compared, and the limit warning must not depend on the order in which the facilities are listed.
- DraftValidation.CheckMapping: the throws of the assessment parser are one error.
- DraftValidation.ValidateDraft: which check after the mapping loop an error comes from is not stated; the comparisons that the source writes as expressions are calls of the specification's predicates.
- SourceRules.SourceDraftValidates: population classes, role restriction, stale markers and neighborhood hints stay parameters, and the locale is any order that tells texts apart.
- Markers: the tokeniser and the Unicode check are those of ASCII text; other text counts as unsupported.
- ExpoQueue.Run: chunks are sent in turn, so how the sends of two chunks interleave is not modelled; each call is resolved in its own chunk only.
- DraftLoops.BuildDraft: sets and maps the source computes by filter and map expressions are functions; sorting is the library's stable sort; the metrics counter is not modelled.
- BuildingMatches.ScoreGroup: the kept lists are values that are replaced, so aliasing between the lists of a table is not captured.
- MarkerTrie.Trie.EndOffsets: nodes are indices into a list instead of objects.
- SendTheorems.DefiniteReportsAgree: answers given before a claim (direct) and for a claim that threw (SES) are not covered, because they can contradict; SendTheorems.ContradictionsAreOutsideTheClaim says which answers do and SendTheorems.NeverContradictsIffExpo for which adapters.
- SendProof.DefiniteIsProved: of answers that rest on the permit; SendVerdicts.PreparationTells and SendDelivery.ClaimThrowsTells say what the others are.
- SendDelivery.UndisturbedSend: a run without interference from other calls, crashes or lost replies.
- ReceiptOutcomes.DeliveredPushCompletes: a continuation without interference from other runners, from any reachable state.
- ReceiptTheorems.StoreClaimsParse: target hashes, lease-token syntax and prototype checks of the parser are not modelled.
- ReceiptProgress.EveryAttemptCanFinish: a possible continuation, not a promise that the runners take it; nothing is said about time or fairness.
- Receipt store: one row per attempt ID, a schedule with another fingerprint rejects; decidedAt is audit data; the send attempts a resend creates are new attempts and not followed further.
- Send protocol: the awaits of the direct adapter's preparation are one step, as are those of the last checks; a clock that throws there ends the call as a crash does; a clock that throws for a whole Expo chunk is a flag that any single entry may meet.
- SES ledger: its right to release a claim on proof that nothing was sent is never used by the adapter and not modelled; a call that the ledger turns down as conflicting or denied is not compared with other answers.
- StableJson: numbers are their canonical text; undefined, NaN, infinities and minus zero do not occur; SHA-256 is not modelled, so injectivity is of the text and not of the hash.
- HtmlEscape: renderParagraphs and the message layout.
- ShardBalance: file sizes are a parameter; the file-system call that reads them is not modelled.
- Population classification, written-grade scanning, neighborhood proposals and stale-year parsing: parameters of the draft, as their results and not their word lists matter to the matching.
- Network, HTTP/2, SQS, SNS and AWS clients, TTL derivation and the pre-send expiry checks of the APNs and FCM transports, environment parsing, logging and command lines.
- WorkerAttemptProcessor and the retry policy are not part of this model.
