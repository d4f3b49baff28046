# Charge point protocols, verified

A Dafny model of the stateful protocols of an OCPP charge point library written in Rust, and proofs of
what they guarantee over whole runs. `dafny verify dfyconfig.toml` checks everything.

| module | what it models |
|---|---|
| `StatusNotifiers`, `StatusPipeline`, `NotifierOrder` | connector status reporting: debounce over dedup over the CSMS call, fed by the bounded offline queue |
| `LogUploads`, `LogOutcomes`, `SecurityLog` | the log upload tickets of use case N01, and the text of the uploaded security log |
| `Utf8`, `CustomerInformation` | splitting a report into chunks at character boundaries |
| `SignRequests`, `SignRoundTrip` | outstanding certificate signing requests: back-off, stop count, correlation of answers |
| `RenewalStores`, `RenewalKeys`, `RenewalBackups` | renewing a certificate: which key is used, which certificate a discard puts back |
| `AuthorizationCaches`, `Authorization` | the authorization cache, and where an acceptance may come from |
| `BootReason` | the recorded reset cause across crashes and reboots |
| `BasicAuth` | rotating a password with a way back |
| `Redaction` | keeping userinfo out of the log |

Objects the source updates in place are classes whose methods are proved against functions on values.
Concurrent code is a state machine: `Enabled` and `Next` give the steps, one per stretch of code between
two awaits, `Runs` and `Execute` give whole runs, and the theorems quantify over every run. Machines and
classes are tied together by the functions they share (`IsDuplicate`, `Pushed`, `QueueAfterSend`, `Ticked`,
`WithKey`, `Remembered`, ...). What the environment decides - whether a send arrives, a read works, a
CSMS accepts, how long a window is - is a parameter of the step.

## What does not hold of the code

Some promises fail on some runs. Each has a lemma with such a run or input, and the exact condition is
proved as an if-and-only-if, named at the end of its entry.

- **Statuses converge** unless the queue overflows, or an acknowledgement is lost *and* a debounce window
  is set. A send that reaches the CSMS but returns an error stays queued; if the connector moves back
  meanwhile, the debounce drops the retry and dedup suppresses the one report that would have corrected
  the CSMS (`LostAcknowledgementDiverges`). An overflow while a reconnect's flush is sending evicts the
  report in flight, and the pop after its send then removes one never sent (`OverflowDiverges`); and in
  a queue of any capacity enough reports about one connector push out the only one about another
  (`FloodDiverges`). Exactly these mishaps matter, whatever the capacity: `ConvergenceIff`.
- **An idle worker means nothing is in flight** exactly if the last accepted `GetLog` found room in the
  channel, whose refusal at capacity (256 by default) `handle_get_log` does not look at
  (`FullChannelStrandsTheLastRequest`): `IdleMeansSettled`.
- **A recorded key stays**, while reads succeed, exactly if no renewal already in flight for the purpose
  holds another key (`RivalCanReplaceKey`, `OverlapReplacesKey`): `KeyStaysIff`.
- **Work on one purpose leaves the other's slot alone** unless a key is recorded over a record that could
  not be read but can be written: `OtherSlotSurvivesIff`.
- **A backup is taken at most once** exactly if its removal could be written: `TakenOnceIff`.
- **A discard before the renewal was installed leaves the certificate store as it was** exactly if, up to
  the discard's install, which comes an await after the backup is taken, nothing was put in place of the
  certificate the sweep read or the last thing put there was that same certificate
  (`LateSigningIsUndone`): `DiscardChangesNothingIff`.
- **A boot clears only the reset its own accepted notification carried** exactly if it could read it and no
  reset was recorded between the load and the clear (`ResetsCanBeLost`): `ClearsOnlyWhatWasCarriedIff`.
  The wirings the crate ships register the reset handler only after provisioning has returned
  (`src/setup.rs:177-206`, `src/connect.rs:429-447`, `src/connect.rs:544-560`), so a reset recorded that
  early needs the builder's calls in another order or `handle_reset` called directly.
- **The first notification accepted after a reset was recorded carries it** exactly if it belongs to a later
  boot that could read it, and the recording boot did not clear it. A reset scheduled for when the
  station is idle leaves time for a reconnect, whose notification carries the running boot's reason
  (`ReconnectComesFirst`): `FirstAcceptedCarriesIff`.
- **Every CSMS decision is remembered**, as `src/authorization.rs:353-355` promises, unless the actor's
  full mailbox refuses the write; an older acceptance then survives (`RefusedWriteKeepsOldAcceptance`).
  `RememberedIff` for one decision, `CacheIsUpToDateIff` for every entry of every run.
- **An accepted `ClearCache` empties the cache** exactly if the mailbox takes it or the cache was empty:
  `ClearCacheClearsIff`.
- **Userinfo is masked** exactly if it holds no slash: `UserinfoIsMaskedIff`. Idempotence needs no such
  condition: it holds for every text.
- **An address without userinfo is left alone**, a later `@` included (`src/connect.rs:51`), exactly if no
  `@` stands between `//` and the next slash, or only the mask before the last one: `LeftAloneIff`. A query
  right behind the host ends no authority here, so `ws://h?a@b` becomes `ws://***@b`
  (`SignInQueryTakesTheHost`).

## Model

| member | source | states |
|---|---|---|
| `StatusPipeline.ConvergenceIff` | src/availability.rs:103-289 | For every queue capacity and every choice of permitted mishaps: all drained runs end with the CSMS right about every reported connector iff overflow is not permitted and lost acknowledgements are not permitted together with a debounce window |
| `StatusPipeline.Convergence` | src/availability.rs:103-289 | The run-by-run half: in every drained state each reported connector whose last report was not lost to overflow has its current status in the cache, and without an unacknowledged send of another status the CSMS heard it; a run without overflow, and without lost acknowledgements or without debounce, ends with the CSMS right about all |
| `StatusPipeline.CanDrain` | src/offline_queue.rs:331-390 | From every state some run drains the pipeline without further mishap, telling the CSMS nothing about connectors with no report on its way |
| `StatusPipeline.FloodDiverges` | src/offline_queue.rs:198-215 | For every capacity, a run without debounce and lost acknowledgement that drains with the CSMS never told about a connector |
| `StatusPipeline.DeliveredExactlyTheChanges` | src/availability.rs:103-124 | In every run the cache is the last status delivered per connector, and the deliveries are the reports dedup answered `Ok` with adjacent repeats removed |
| `StatusPipeline.SupersededHasSuccessor` | src/availability.rs:173-185 | A report the debounce finds overtaken always has a newer one of its connector queued behind it |
| `StatusPipeline.StepPreserves` | src/offline_queue.rs:331-390 | Every step keeps what the pipeline owes: the reports on their way end in each connector's current status, or the cache already holds it |
| `StatusPipeline.DeliveryPreserved` | src/availability.rs:110-123 | Every step keeps cache = last delivery, and what the CSMS heard differs from it only by unacknowledged sends |
| `StatusPipeline.HistoryPreserved` | src/offline_queue.rs:358-388 | Without debounce and overflow, an unacknowledged report stays the head of the queue until it is resent |
| `StatusPipeline.RunIsGood` | src/offline_queue.rs:549-573 | The invariants of the pipeline hold after every run |
| `StatusPipeline.LostAcknowledgementDiverges` | src/availability.rs:262-287 | For every capacity, a run without overflow that drains with the CSMS wrong: lost acknowledgement, then a debounced retry |
| `StatusPipeline.OverflowDiverges` | src/offline_queue.rs:198-261 | A run without debounce and lost acknowledgement that drains with the CSMS wrong: one overflow loses two reports |
| `StatusPipeline.DebounceIsExact` | src/availability.rs:262-287 | In every run a report is sent with no look at its connector, no window being set, or after two looks around the wait that both found the reported status or an unknown connector; one is dropped at the first look that finds another status |
| `StatusNotifiers.DedupedStatusNotifier.NotifyStatus` | src/availability.rs:103-124 | The inner notifier is called iff the status differs from the cached one; the cache changes only on success, and after `Ok` it holds the status |
| `StatusNotifiers.OfflineQueue.Push` | src/offline_queue.rs:198-215 | Drops iff full and hands back what it drops: under `DropOldest` that followed by the new queue, under `DropNewest` the new queue followed by that, is the old queue followed by the message |
| `StatusNotifiers.OfflineQueue.PopFront` | src/offline_queue.rs:256-261 | Removes the front, whatever it is by then, and forgets its failed attempts |
| `StatusNotifiers.OfflineQueue.RecordFailedAttempt` | src/offline_queue.rs:241-243 | Counts one more, wrapping at 32 bits |
| `StatusNotifiers.OfflineQueue.PeekFront` | src/offline_queue.rs:252-254 | The front, if any, without removing it |
| `NotifierOrder.MinimumStatusDurationNotifier.NotifyStatus` | src/availability.rs:244-289 | The call reaches the CSMS iff no window is set or the connector had not moved on before nor after the wait, and the cache holds another status; a drop answers `Ok` and leaves the cache alone |
| `NotifierOrder.DebounceForwardsIff` | src/availability.rs:251-287 | One call changes cache and CSMS iff the status held or was unknown at both looks (or no window), is new and is accepted, and then by exactly that report |
| `NotifierOrder.DebounceOutsideStaysHonest` | src/builder.rs:1021-1028 | With debounce outside dedup, no sequence of calls makes the cache claim what the CSMS never got |
| `NotifierOrder.SwappedIsHonestIff` | src/availability.rs:200-204 | Swapped, a call keeps the cache honest iff the debounce passes it or it was a duplicate |
| `NotifierOrder.SwappedSuppressesUnheard` | src/availability.rs:202-204 | After any calls, a new status that bounces once and then settles is delivered in the order built; in the swapped order it never reaches the CSMS, and an honest cache ends up claiming a status the CSMS does not have |
| `LogUploads.AcceptedAreConserved` | src/diagnostics.rs:301-378 | In every state of every interleaving: requests answered `Accepted` = final statuses + 1 if in flight |
| `LogUploads.SettledBalances` | src/diagnostics.rs:206-231 | The conservation law follows from who is due a final status, whatever the list of requests |
| `LogUploads.IdleMeansSettled` | src/diagnostics.rs:315-377 | With queue empty and worker idle: in flight iff the last accepted request was refused by the channel; every other request has exactly one final status if its successor was answered `Accepted` and none if `AcceptedCanceled` |
| `LogUploads.ReportsAreInOrder` | src/diagnostics.rs:346-411 | Per request `Uploading` at most once, then at most one final status; reports never go back to an older request; no retry starts after a supersede nor beyond the retries asked for |
| `LogOutcomes.FinalTellsTheOutcome` | src/diagnostics.rs:355-437 | In every run, a request with a final status was reported `Uploaded` iff its last attempt succeeded and `UploadFailure` iff all failed, which are then retries + 1; none came after a success |
| `LogUploads.StartsOnlyTheNewest` | src/diagnostics.rs:347-354 | A dequeued upload is announced iff it is the newest request and alone in the queue |
| `LogUploads.RunIsGood` | src/diagnostics.rs:346-437 | The invariants relating tickets, queue, worker and reports hold after every run |
| `LogUploads.FullChannelStrandsTheLastRequest` | src/sync.rs:111-124 | For every capacity, a run that ends idle with an upload still counted as in flight |
| `LogUploads.LogUploadState.Claim` | src/diagnostics.rs:206-214 | The ticket is fresh and current, an upload is in flight, and the answer says whether one was before |
| `LogUploads.LogUploadState.IsCurrent` | src/diagnostics.rs:217-219 | Whether the ticket is the latest claimed |
| `LogUploads.LogUploadState.Finish` | src/diagnostics.rs:223-230 | Clears the flag only for the current ticket |
| `LogUploads.Chan.Send` | src/sync.rs:111-124 | Refuses iff full, otherwise appends |
| `LogUploads.Chan.Recv` | src/sync.rs:134-145 | Takes the oldest value |
| `LogUploads.HandleGetLog` | src/diagnostics.rs:301-326 | Rejected iff incapable or without a location, and then nothing changes; an acceptance claims the next ticket, queues it if there is room, and is `AcceptedCanceled` iff an upload was in flight |
| `LogUploads.UploadWithRetries` | src/diagnostics.rs:403-437 | Succeeds iff some attempt within the retries does and no look before it found the upload superseded; no attempt is made past a success or such a look |
| `SecurityLog.LogReadsBack` | src/diagnostics.rs:134-155 | Splitting the rendered log on newlines and tabs gives every entry back, in order, as exactly three fields: its time or `-`, its name or its text escaped character by character, its techInfo with separators replaced |
| `SecurityLog.LineHasThreeFields` | src/diagnostics.rs:147-152 | One line splits into exactly timestamp, type and sanitized techInfo, and holds no newline |
| `SecurityLog.EscapedReads` | src/diagnostics.rs:148-151 | Each character of a vendor's type is written so that it can be read back: as itself, by its short escape or by its code |
| `SecurityLog.RenderSecurityLog` | src/diagnostics.rs:134-155 | The loop renders every entry once, in order |
| `SecurityLog.Sanitized` | src/diagnostics.rs:142-147 | Same length; tab, newline and carriage return become a space, every other character stays in place |
| `CustomerInformation.SplitIsOptimal` | src/customer_information.rs:271-292 | No split of the text into valid pieces within the limit, whatever the limit, has fewer pieces |
| `CustomerInformation.PiecesAreFewest` | src/customer_information.rs:277-290 | The greedy pieces are at most as many as any sequence of valid pieces within the limit that joins to the text |
| `CustomerInformation.LaterStartNeedsNoMore` | src/customer_information.rs:277-290 | Starting at a later character boundary never needs more pieces |
| `CustomerInformation.PiecesAreSound` | src/customer_information.rs:277-291 | For every limit: the pieces join to the text, each is valid and non-empty, and only a single character may exceed the limit |
| `CustomerInformation.SplitIsASplit` | src/customer_information.rs:271-292 | From four bytes on, the limit is always kept |
| `CustomerInformation.AllButLastAreNearlyFull` | src/customer_information.rs:278-287 | Every piece but the last has at least limit - 3 bytes |
| `CustomerInformation.PieceCountBound` | src/customer_information.rs:271-292 | n bytes make at most n / (limit - 3) pieces, rounded up |
| `CustomerInformation.ChunksRoundTrip` | src/customer_information.rs:254-266 | For every valid text: chunks are valid text of at most 512 bytes, numbered from 0, `tbc` false exactly on the last; a receiver gets the text back whatever follows; at most n / 509 chunks, rounded up |
| `CustomerInformation.SplitAtCharBoundaries` | src/customer_information.rs:271-292 | The loop computes the greedy split |
| `CustomerInformation.FindPieceEnd` | src/customer_information.rs:278-286 | The inner loop finds the last boundary within the limit, or the end of the first character |
| `Utf8.BoundarySplits` | src/customer_information.rs:279-287 | The one-octet boundary test holds iff both sides of the cut are valid UTF-8 |
| `Utf8.EncodedIsChar` | src/customer_information.rs:285 | Every scalar value encodes to a well-formed character that decodes to it |
| `Utf8.CharIsEncoded` | src/customer_information.rs:285 | Every well-formed character is the encoding of a scalar value |
| `Utf8.ValidIsText` | src/customer_information.rs:271 | Every valid octet sequence is the encoding of a text |
| `Utf8.TextIsValid` | src/customer_information.rs:271 | The encoding of every text is valid |
| `Utf8.BoundaryNearby` | src/customer_information.rs:279-281 | Valid text has a boundary at most three octets before any position |
| `SignRequests.BackOffDoubles` | src/certificates.rs:162-168 | The back-off is min(wait * 2^n, 2^32 - 1) for every n |
| `SignRequests.ResendSchedule` | src/certificate_renewal.rs:580-623 | With no answer and a fixed policy, from any resend count, resend n has gone out after m passes iff m has reached the sum of the waits up to it, each rounded up to whole ticks; never more than the stop count |
| `SignRequests.DueExactlyOnTime` | src/certificates.rs:326-338 | The pass that completes the current wait, and only that one, makes the resend due; saturation never hides it |
| `SignRequests.SupersedingWaitsAgain` | src/certificates.rs:282-292 | A superseding request, resend or not, keeps the resend count and waits out its whole back-off again |
| `SignRequests.RestartBeginsAnew` | src/certificates.rs:365-372 | A restart begins the whole schedule anew for the same request |
| `SignRequests.SwitchedOffNeverMoves` | src/certificates.rs:313-316 | Either variable at zero: nothing is due and no wait is counted |
| `SignRequests.MatchesIff` | src/certificates.rs:376-390 | A pending slot takes an answer iff the ids agree or one side has none |
| `SignRequests.WrapsAt64Bits` | src/certificates.rs:258-264 | Ids stay within 64 bits, keep their value there and come round modulo 2^64 |
| `SignRequests.PendingSignRequests.RecordSignCertificateSent` | src/certificates.rs:407-419 | Only an accepted request is recorded |
| `SignRequests.PendingSignRequests.NextRequestId` | src/certificates.rs:258-264 | Hands out the id and moves on, wrapping at 64 bits |
| `SignRequests.PendingSignRequests.RecordSent` | src/certificates.rs:282-292 | Supersedes the purpose's slot, inheriting its resend count; the other slot is untouched |
| `SignRequests.PendingSignRequests.DueForResend` | src/certificates.rs:307-342 | Advances both slots and returns the purposes whose back-off expired |
| `SignRequests.DueOnceInOrder` | src/certificates.rs:319-339 | Those are exactly the due ones, each once, in slot order |
| `SignRequests.PendingSignRequests.Restart` | src/certificates.rs:365-372 | Wait and resend count of a pending request start over |
| `SignRequests.PendingSignRequests.Clear` | src/certificates.rs:393-396 | Empties one slot |
| `SignRequests.PendingSignRequests.HandleCertificateSigned` | src/certificates.rs:443-519 | The chain is given to the store, and the slot cleared, iff the answer is solicited and no longer than a configured maximum; otherwise nothing changes |
| `SignRoundTrip.InstallsAreSolicited` | src/certificates.rs:282-396 | In every run, per purpose: install attempts + 1 while pending never exceed accepted requests, and resends since the last restart or clear never exceed the largest stop count in force |
| `SignRoundTrip.SupersededAnswerIsRefused` | src/certificates.rs:376-390 | With ids on both sides and fewer than 2^64 issued, an answer to any superseded request is refused and changes nothing |
| `SignRoundTrip.AnswerTouchesOnlyWhatItAnswers` | src/certificates.rs:451-487 | An answer changes something iff it is solicited and fits; it then uses up its slot and leaves the other purpose alone |
| `SignRoundTrip.StoppedStaysSolicited` | src/certificates.rs:303-355 | Once stopped, no ticks move the slot, and its own answer still counts as solicited |
| `SignRoundTrip.IdsFollow` | src/certificates.rs:248-264 | Ids are handed out from 1 on, each the one after the last |
| `SignRoundTrip.WireIdsDiffer` | src/certificates.rs:258-264 | Any two of the first 2^64 ids differ |
| `RenewalKeys.KeyStaysIff` | src/certificate_renewal.rs:393-424 | With reads working, a recorded key stays and every later request uses it, in every run, iff no renewal of the purpose in flight holds another key |
| `RenewalKeys.RunKeepsKey` | src/certificate_renewal.rs:275-352 | Rejections, errors, failed writes, stashes, confirms, discards and reboots all keep the key |
| `RenewalKeys.RecordedKeysWereAccepted` | src/certificate_renewal.rs:405-424 | In every run a recorded key is one the CSMS accepted a request for |
| `RenewalKeys.LookUpSigns` | src/certificate_renewal.rs:393-412 | A request is sent with the recorded key if readable, else with the generated one, else not at all |
| `RenewalKeys.RivalCanReplaceKey` | src/certificate_renewal.rs:393-424 | From any state with such a rival there is a run that replaces the key |
| `RenewalKeys.AloneMeansNoRival` | src/certificate_renewal.rs:296-313 | A key recorded with no other renewal of the purpose in flight has no rival, and a reboot leaves none |
| `RenewalKeys.OverlapReplacesKey` | src/certificate_renewal.rs:393-424 | Two overlapping first renewals reach a state with a rival |
| `RenewalBackups.DiscardTakesLatestStash` | src/certificate_renewal.rs:657-659 | After every run, reads and writes failing at will, a discard takes exactly the latest stash not resolved since, does nothing if there is none or it is unreadable, and no more are taken than stashed or left behind by a failed removal |
| `RenewalBackups.DiscardRestoresLatestStash` | src/certificate_renewal.rs:646-681 | Whatever happens between taking and installing, a discard installs the certificate owed when it was taken, for its purpose only, once |
| `RenewalBackups.DiscardChangesNothingIff` | src/certificate_renewal.rs:646-681 | For every run and every discard under way: it leaves the certificate store as it was iff its install is refused, nothing was put in place of the certificate since the sweep read it, or the last thing put there was the same certificate |
| `RenewalBackups.LateSigningIsUndone` | src/certificate_renewal.rs:657-664 | A run in which a certificate signed between taking and installing is replaced by the one before it |
| `RenewalBackups.StepKeepsBackup` | src/certificate_renewal.rs:319-352 | Every step, with any storage failure, keeps the stored backup equal to the one owed by the history, and what was taken equal to what was owed |
| `RenewalStores.OtherSlotSurvivesIff` | src/certificate_renewal.rs:197-352 | Recording a key leaves the other slot alone iff the read worked, the write failed, or it was empty; stashing, taking and confirming always do |
| `RenewalStores.TakenOnceIff` | src/certificate_renewal.rs:329-352 | A backup is gone after being taken iff the write worked; the key always stays |
| `RenewalStores.RenewalStore.KeyPairFor` | src/certificate_renewal.rs:275-290 | The recorded key, or none if unreadable |
| `RenewalStores.RenewalStore.RecordKeyPair` | src/certificate_renewal.rs:296-313 | Stores the key, keeping the purpose's backup |
| `RenewalStores.RenewalStore.StashBackup` | src/certificate_renewal.rs:319-325 | Stores a backup only beside a recorded key |
| `RenewalStores.RenewalStore.TakeBackup` | src/certificate_renewal.rs:329-339 | Returns the backup and removes it |
| `RenewalStores.RenewalStore.Confirm` | src/certificate_renewal.rs:345-352 | Removes the backup, keeping the key |
| `RenewalStores.DiscardCertificateRenewal` | src/certificate_renewal.rs:646-681 | Installs the readable backup and says whether that worked; the backup is taken |
| `RenewalStores.RenewCertificate` | src/certificate_renewal.rs:393-424 | Uses the recorded key if one can be read, else the generated one; records it only when accepted |
| `Authorization.AcceptanceNeedsEvidence` | src/authorization.rs:397-484 | In every run, every decision is an acceptance iff its evidence is there: for a contract a CSMS answer accepting token and certificate; else the CSMS, the first list entry for the token, an unexpired cache entry or the unknown-id switch; the CSMS is left out only where it is disabled, and a cached status is the latest recorded CSMS decision |
| `Authorization.LocalDecisionsNeedEvidence` | src/authorization.rs:125-223 | Both local decisions accept iff the list's first entry for the token does, or it is silent and the cache does, or (offline only) both are silent and the switch is on |
| `Authorization.DisabledMeansLocal` | src/authorization.rs:403-446 | With remote authorization disabled: no CSMS call, cache untouched, contracts refused |
| `Authorization.CacheIsUpToDateIff` | src/authorization.rs:517-530 | In every run an entry repeats the CSMS's latest word on its token iff the latest write for the token was taken, or the one refused said the same |
| `Authorization.AnsweredRequestIsRemembered` | src/authorization.rs:397-484 | A whole answered request: asked once, decided on that answer, cached with that status and the time of the request |
| `Authorization.ClearCacheClearsIff` | src/authorization.rs:324-333 | An accepted `ClearCache` leaves an empty cache iff the mailbox took it or it was empty; a rejected one changes nothing |
| `Authorization.RememberedIff` | src/authorization.rs:517-530 | A decision is in the cache iff its write was taken or the same entry was there already, and the cache contradicts it iff the write was refused while an older entry did |
| `Authorization.UpToDateIfNoneRefused` | src/authorization.rs:353-355 | A run without refused writes ends with the whole cache up to date |
| `Authorization.RefusedWriteKeepsOldAcceptance` | src/authorization.rs:517-530 | With default switches, a run in which a token the CSMS has since rejected is accepted offline |
| `AuthorizationCaches.RememberedIsFaithful` | src/state/authorization_cache.rs:100-117 | Remembering replaces the token's decision, invents none, keeps the bound and one entry per token |
| `AuthorizationCaches.RememberedKeepsTheLatest` | src/state/authorization_cache.rs:106-115 | The other decisions stay, in their order, while there is room; in a full cache exactly the latest that fit |
| `AuthorizationCaches.WithoutSplices` | src/state/authorization_cache.rs:106-107 | Taking a token out leaves everything around it in place |
| `AuthorizationCaches.UnknownNeverExpires` | src/state/authorization_cache.rs:188-196 | Unknown age, time or lifetime, or a lifetime of 0, never expires |
| `AuthorizationCaches.ExpiryIsInclusive` | src/state/authorization_cache.rs:188-198 | An entry is expired iff its full lifetime has passed, the last instant included |
| `AuthorizationCaches.FindIsMembership` | src/state/authorization_cache.rs:131-145 | The entry found is the one held for the token |
| `AuthorizationCaches.WithoutForgets` | src/state/authorization_cache.rs:162-167 | Forgetting removes exactly the token's entry |
| `AuthorizationCaches.AuthorizationCache.Remember` | src/state/authorization_cache.rs:100-117 | The loops compute the cache specified |
| `AuthorizationCaches.AuthorizationCache.Lookup` | src/state/authorization_cache.rs:131-145 | The token's entry unless expired |
| `AuthorizationCaches.AuthorizationCache.Forget` | src/state/authorization_cache.rs:162-167 | Removes the token's entry and says whether there was one |
| `AuthorizationCaches.AuthorizationCache.Clear` | src/state/authorization_cache.rs:149-153 | Empties the cache and counts what it held |
| `BootReason.ClearsOnlyWhatWasCarriedIff` | src/builder.rs:769-791 | Wherever a boot clears a stored reset, its accepted notification carried that reset iff the load worked and no reset was recorded since |
| `BootReason.FirstAcceptedCarriesIff` | src/builder.rs:716-791 | For a reset recorded in any phase of any run, and any crashes, reboots, reconnects and refusals after it: the first accepted notification carries it iff it was written, belongs to a later boot, that boot could read it, and the recording boot did not clear it |
| `BootReason.ReconnectComesFirst` | src/connection.rs:57-105 | A run, all storage working, in which the first notification accepted after a reset carries the running boot's own reason |
| `BootReason.StoredIsCarriedIff` | src/builder.rs:716-791 | A reset stored when the station goes down stays stored until an acceptance, and the first one carries it iff that boot could read it |
| `BootReason.NothingIsLost` | src/builder.rs:716-791 | If loads work and no reset comes before a boot's clear, none is cleared that nothing carried, and every recorded reset is stored, was carried, or was replaced by a later one |
| `BootReason.OneReasonPerBoot` | src/connection.rs:57-105 | All notifications of one boot, reconnects included, carry the same reason |
| `BootReason.NoneAfterClear` | src/builder.rs:784-791 | After an effective clear, every boot reports none until the next reset |
| `BootReason.ResetsCanBeLost` | src/builder.rs:726-747 | Runs in which a reset is cleared although nothing carried it: recorded before the clear, or unreadable |
| `BootReason.RegisterUntilAccepted` | src/provisioning.rs:169-219 | One notification per answer up to the first acceptance and none after it, each with the same reason; after a refusal the wait asked for, after the k-th failure in a row min(2^(k-1), 30) seconds |
| `BootReason.WaitsEscalate` | src/provisioning.rs:178-217 | After a refusal the interval asked for; after the k-th failure in a row 1, 2, 4, 8, 16, then 30 seconds |
| `BootReason.Provision` | src/builder.rs:769-791 | Every notification carries what was loaded, and storage is cleared only if one was accepted |
| `BootReason.BootReasonStore.Save` | src/persistence.rs:3387-3407 | Stores the cause iff the write works |
| `BootReason.BootReasonStore.Load` | src/persistence.rs:3422-3453 | The stored cause, or none if unreadable |
| `BootReason.BootReasonStore.Clear` | src/persistence.rs:3413-3417 | Empties the store iff the write works |
| `BasicAuth.RollbackRestores` | src/basic_auth_credential.rs:56-121 | After every run over any slots, a rollback succeeds iff there is a way back and storage works, puts back exactly the password before the latest rotation, cannot succeed twice, and lands on a proven password if every rotation was settled before the next |
| `BasicAuth.SlotFollowsOperations` | src/basic_auth_credential.rs:56-121 | After every run over any slots, a slot holds the password of its latest written rotation, or the one before it once rolled back, beside the way back there is |
| `BasicAuth.RotationTakesEffect` | src/basic_auth_credential.rs:61-66 | A written rotation puts the new password in force |
| `BasicAuth.ConfirmationIsFinal` | src/basic_auth_credential.rs:87-98 | A written confirmation keeps the password and removes the way back |
| `BasicAuth.LabelReadsBack` | src/basic_auth_credential.rs:39-41 | A label is the fixed prefix and the slot in decimal without leading zeros |
| `BasicAuth.WayBackIff` | src/basic_auth_credential.rs:56-67 | A written rotation can be rolled back iff there was a readable password before it |
| `BasicAuth.SlotsAreIndependent` | src/basic_auth_credential.rs:39-41 | No operation touches another slot's record |
| `BasicAuth.LabelsDiffer` | src/basic_auth_credential.rs:39-41 | Two labels are equal iff the slots are |
| `BasicAuth.KeyStore.Rotate` | src/basic_auth_credential.rs:56-67 | The new password is in force and the one before it kept, if readable |
| `BasicAuth.KeyStore.Current` | src/basic_auth_credential.rs:79-81 | The password in force, if readable |
| `BasicAuth.KeyStore.Confirm` | src/basic_auth_credential.rs:87-98 | Drops the previous password |
| `BasicAuth.KeyStore.Rollback` | src/basic_auth_credential.rs:106-121 | Succeeds iff a previous password is readable and the write works |
| `Redaction.UserinfoIsMaskedIff` | src/connect.rs:45-65 | An address redacts to scheme, mask, host and path iff its userinfo holds no slash |
| `Redaction.RedactionHidesUserinfo` | src/connect.rs:45-65 | Addresses differing only in slash-free userinfo redact to the same text |
| `Redaction.RedactionIsIdempotent` | src/connect.rs:45-65 | Redacting any text twice is redacting it once |
| `Redaction.LeftAloneIff` | src/connect.rs:48-64 | Any text is left alone iff it holds no `//`, no `@` before the next slash, or only the mask before the last such `@` |
| `Redaction.SignInQueryTakesTheHost` | src/connect.rs:51-53 | An address without userinfo whose query follows the host directly and holds an `@` loses its host and the query up to there |
| `Redaction.RedactedForm` | src/connect.rs:51-63 | Slash-free userinfo, whatever `@` it holds, is replaced and everything else kept |
| `Redaction.RedactedEndpoint` | src/connect.rs:45-65 | The pushes build the redacted text |

## Left out

- The per-version wire adapters and the tables mapping one enumeration to another.
- The resynchronisation sweep (`report_all_connector_statuses`): it sends from a snapshot past the cache.
- The `connector_state` passed along with a status, and reading `MinimumStatusDuration`: the window is a parameter of each step and may change between any two.
- The attempt cap of `flush_offline_queue_with_attempts`, which the status queue does not use, the registration gate, and a flush future dropped half way.
- The endless worker and sweep loops as loops: they are the steps of the machines, one per stretch between awaits.
- StatusNotifiers.OfflineQueue.RecordFailedAttempt: at the largest count the source's own `+ 1` overflows, which a checked build refuses; the model wraps.
- LogUploads.LogUploadState.Claim: tickets are unbounded, where the source counts in 64 bits.
- `filtered_entries` and `log_filename`, and the contents of an upload other than the security log.
- Which characters Rust's `Debug` counts as printable: each character says so itself.
- Gathering and rendering the customer information before it is split.
- The sweep's timing (`is_due_for_renewal`), X.509 and CSR contents, OCSP, and the security events raised beside a refusal.
- BootReason.RegisterUntilAccepted: takes the answers the station lives to see as a sequence, and does not model the clock synchronisation beside them.
- The JSON encoding of stored records: a corrupt record is a failed read.
- `withhold_chain_unless_allowed`, `AuthorizationCache::replace`, and the persistence of cache and list.
- Dialing, TLS, registration wiring, device-model internals and the other functional blocks of the crate.
