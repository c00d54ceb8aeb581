# OpenFotos: ledger, publication and the protocols around them

OpenFotos lets photographers upload events from a desktop application and publish them as galleries.
This project models the parts of it that keep books and keep promises, and proves that they do, or
exactly when they do not. `dafny verify dfyconfig.toml` checks all of it.

**The event ledger and publication** (`Ledger` and the modules named after it, `Publication*`, `EventStore`,
`GalleryOrder`). One event holds contributions (batches), each batch holds photos, each photo holds up to
three objects: original, preview, thumbnail. Every command is one transaction on these rows: a function from
the rows to the new rows and the caller's answer in `Ledger`, and the same thing in place on the fields of
`EventStore.Store`, method by method: each keeps the invariants and says what it means for its caller
(`CommandFacts`). Apart from those functions, and on the rows, it is proved of every command when it is refused
(`CommandRefusals`), what it writes and what it leaves alone (`CommandEffects`), and what the rows remember over
runs (`CommandHistory`). Commands that work before they take the event lock are two steps, so anything may run
between the halves. Two invariants carry the results:

- `LedgerInvariant.LedgerInv`: the four counters are sums over the objects, and the state of a batch says what
  its objects are.
- `Publication.PublicationInv`: a manifest of the current generation freezes the originals, a readiness flag
  that is set is true, and a published gallery is whole.

`LedgerRuns` runs all 28 kinds of step in any order. Two of them can break an invariant, and for both the exact
condition is proved: committing the outcome of a derivative inspection whose row was excluded, or verified and
relied on, meanwhile; and moving a contribution with unready photos out of an archived section. `LedgerGaps`
says what follows, and `LedgerExample` is a run of a new event that leads on to both. `LedgerGuarantees` and
`PublicationGuarantees` hold what readers of the books and of the gallery may rely on.

**Protocols**: idempotency claims with leases and takeover (`Idempotency`), rotating refresh tokens and a client
that loses replies (`Sessions`), fixed-window limits (`RateLimits`).

**The desktop**: the incremental inventory scan against a scan from scratch, frozen batches (`Inventory`,
`DirectoryWalk`), and the upload loop against a server and a store that anything may happen to (`UploadLoop`);
`UploadLedger` shows that its server is the ledger.

**Algorithms**: blocked selection of the closest cross-identity pairs, the calibrated threshold, and what is
measured at it, for any rounding (`NegativePairs`) and in binary32 of IEEE 754 (`SinglePrecision`), gallery order
and navigation (`Gallery`), the slug search (`Slugs`), rendition sizes (`Rendition`). `Prelude.dfy` holds the sums over finite sets (`Tallies`) that several of them use.

Where the code and what one would expect of it disagree, the code is modelled: see the exact conditions and
the examples in the table (`LedgerGaps`, `LedgerExample`, `PublicationGuarantees.ErasureIsUndone`,
`RateLimits.BackwardsClockExample`, `SinglePrecision.TwoFacesExample`, `Sessions.TwoLostRepliesSignOut`,
`Rendition.PanoramaExample`).

## Model

| member | source | states |
|---|---|---|
| Lifecycle.DecisionsFollowTheTable | packages/contracts/src/openfotos_contracts/states.py:46-60 | the decisions that commands take on their own never leave the table of allowed transitions |
| Lifecycle.ManualPublicationIff | apps/server/src/openfotos_server/events/event_lifecycle.py:69-118 | an event that is not published yet is published by hand exactly from review or the archive, with an active section, a future expiry, a committed manifest and both readiness flags of the current generation, and a confirmed policy |
| Lifecycle.ManualTransitionIff | apps/server/src/openfotos_server/events/event_lifecycle.py:69-118 | for every target: from which states, and with what evidence, an event is moved there by hand |
| LedgerGuarantees.RunTellsBatchStates | apps/server/src/openfotos_server/events/ingestion_services.py:1209-1218 | in every state of every run without a write to an excluded derivative, while its objects are on record, a contribution is in flight if and only if one of its originals is neither verified nor excluded; complete, not included and withdrawn say what its objects are; a derivative that is not excluded stands beside a verified original |
| LedgerInvariant.ReserveKeepsLedger | apps/server/src/openfotos_server/events/ingestion_services.py:127-261 | reservation, with every refusal, keeps counters equal to the sums over objects and batch states equal to what their originals say |
| LedgerInvariant.VerifyKeepsLedger | apps/server/src/openfotos_server/events/ingestion_services.py:396-439 | so does the locked half of verification, for whatever the store showed before |
| LedgerInvariant.LeaseKeepsLedger | apps/server/src/openfotos_server/events/ingestion_services.py:287-361 | so do upload leases, which bring failed originals back to reserved |
| LedgerInvariant.ExcludeKeepsLedger | apps/server/src/openfotos_server/events/ingestion_services.py:897-967 | so does excluding an original, which may complete its contribution |
| LedgerSteps.ReleasableAreHeldOriginals | apps/server/src/openfotos_server/events/ingestion_services.py:801-814 | in a contribution without verified objects the sum over all variants that cancellation gives back is the sum over its reserved originals |
| LedgerSteps.CancelKeepsLedger | apps/server/src/openfotos_server/events/ingestion_services.py:766-835 | cancellation keeps the ledger invariant |
| LedgerSteps.PublishKeepsLedger | apps/server/src/openfotos_server/events/ingestion_services.py:574-617 | publication, which excludes whole contributions in flight, keeps the ledger invariant |
| LedgerSteps.RegisterKeepsLedger | apps/server/src/openfotos_server/events/derivative_services.py:275-358 | registering derivatives keeps the ledger invariant, with the event state read before |
| LedgerSteps.DerivativeKeepsLedgerIff | apps/server/src/openfotos_server/events/derivative_services.py:508-531 | committing a derivative keeps the ledger invariant if and only if its row is not excluded |
| LedgerSteps.PurgeKeepsLedger | apps/server/src/openfotos_server/events/retention_services.py:230-285 | a purge, which deletes the objects and zeroes the counters, keeps the ledger invariant |
| LedgerRuns.StepKeepsLedgerIff | apps/server/src/openfotos_server/events/ingestion_services.py:127-1091 | any of the 28 kinds of step keeps the ledger invariant if and only if it does not write to an excluded derivative |
| CommandRefusals.RefusedIff | apps/server/src/openfotos_server/events/ingestion_services.py:127-1091 | for every one of the 28 kinds of step: while the counters are right it is refused if and only if something speaks against it, stated on the rows, and the error that the caller sees is one thing that does |
| CommandEffects.CommandWrites | apps/server/src/openfotos_server/events/ingestion_services.py:127-1091 | which rows an answered command leaves different and how, row by row; a refused one writes nothing, except that a mismatch and a contradicting analysis are recorded |
| CommandEffects.CommandKeeps | apps/server/src/openfotos_server/events/ingestion_services.py:127-1091 | the only kinds of step that touch each table and each field of the event row |
| CommandEffects.CommandFulfils | apps/server/src/openfotos_server/events/ingestion_services.py:127-1091 | the three together, for every step of a system whose counters are right: what every caller may rely on |
| CommandHistory.RepeatedReservation | apps/server/src/openfotos_server/events/ingestion_services.py:140-162 | for every ledger: a contribution whose id is on record is answered as done if and only if it was recorded with the same workstation, section and manifest and its section is active; otherwise it is refused; nothing changes |
| CommandHistory.AcceptedAgain | apps/server/src/openfotos_server/events/ingestion_services.py:140-162 | a contribution that was accepted once is accepted again after any run in which it was neither moved nor purged, while its section is active |
| CommandHistory.OthersStayRefused | apps/server/src/openfotos_server/events/ingestion_services.py:152-162 | and after any such run another workstation's contribution, or another manifest, under the same id is refused |
| LedgerGuarantees.RunConserves | apps/server/src/openfotos_server/events/ingestion_services.py:179-967 | in every state of every interleaving without such a write the four counters are the sums and numbers of held and verified originals, and verified <= reserved <= limit |
| LedgerGuarantees.NeverRefusedByTheDatabase | apps/server/src/openfotos_server/events/models.py:311-326 | while the counters are right, no command of any kind is refused by a CHECK constraint |
| LedgerGuarantees.PhotoCountsOnce | apps/server/src/openfotos_server/events/ingestion_services.py:364-439 | after one successful completion of a photo, any other completion, after any later run without a write to an excluded derivative and with any view of the store, leaves the ledger unchanged |
| LedgerGuarantees.ContributionChargesOnce | apps/server/src/openfotos_server/events/ingestion_services.py:152-162 | after a reservation, repeating it after any run without a write to an excluded derivative leaves the ledger unchanged |
| LedgerGuarantees.RunRemembers | apps/server/src/openfotos_server/events/ingestion_services.py:127-1091 | over every run without a write to an excluded derivative contributions stay recorded, settled photos stay settled, and verified or excluded originals never go back |
| Publication.PairGate | apps/server/src/openfotos_server/events/ingestion_services.py:470-476 | the count of verified previews and thumbnails is twice the number of photos if and only if every photo has both |
| Publication.FaceGate | apps/server/src/openfotos_server/events/ingestion_services.py:477-482 | the count of terminal analyses of the same bytes and model equals the number of photos if and only if every photo has one |
| PublicationSteps.PublishKeepsPublication | apps/server/src/openfotos_server/events/ingestion_services.py:524-698 | publication establishes the publication invariant: readiness, manifest and gallery all tell the truth |
| PublicationSteps.CommittedTotals | apps/server/src/openfotos_server/events/ingestion_services.py:1074-1091 | whatever ran since the manifest was prepared, committing it finds its totals equal to the verified counters, and those equal to the reserved ones |
| PublicationSteps.RefreshDerivativesKeepsPublication | apps/server/src/openfotos_server/events/derivative_services.py:549-603 | derivative readiness is granted only when every visible photo has its verified pair |
| PublicationSteps.RefreshFacesKeepsPublication | apps/server/src/openfotos_server/events/face_services.py:314-348 | face readiness is granted only when every visible photo has its terminal analysis |
| PublicationSteps.FacesKeepPublication | apps/server/src/openfotos_server/events/face_services.py:61-311 | submitting, failing and resetting an analysis keep readiness truthful and are refused once the event is public |
| PublicationSteps.HideKeepsPublication | apps/server/src/openfotos_server/events/gallery_services.py:212-305 | hiding a photo keeps the publication invariant |
| PublicationSteps.RestoreKeepsPublication | apps/server/src/openfotos_server/events/gallery_services.py:308-365 | restoring a photo keeps the publication invariant |
| PublicationSteps.ArchiveKeepsPublication | apps/server/src/openfotos_server/events/sub_event_services.py:126-155 | archiving and reviving a section keep the publication invariant |
| PublicationSteps.ReopenKeepsPublication | apps/server/src/openfotos_server/events/portfolio_services.py:383-396 | reopening intake and unpublishing leave nothing current from the old generation |
| PublicationSteps.TransitionKeepsPublication | apps/server/src/openfotos_server/events/services.py:22-74 | manual transitions keep the publication invariant |
| PublicationSteps.DerivativeKeepsPublicationIff | apps/server/src/openfotos_server/events/derivative_services.py:508-531 | committing a derivative keeps the publication invariant if and only if it is not a mismatch on a verified row of a visible photo that readiness or publication relies on |
| PublicationSteps.ReassignKeepsPublicationIff | apps/server/src/openfotos_server/events/sub_event_services.py:158-184 | moving a contribution keeps the publication invariant if and only if it does not show photos out of an archived section that lack what a readiness flag promises |
| LedgerRuns.StepKeepsSafetyIff | apps/server/src/openfotos_server/events/ingestion_services.py:127-1091 | from a state where both invariants hold, a step leads to such a state if and only if it is harmless in the two ways above |
| LedgerRuns.RunIsSafe | apps/server/src/openfotos_server/events/ingestion_services.py:127-1091 | both invariants hold in every state of every harmless run |
| LedgerGuarantees.RunKeepsPromises | apps/server/src/openfotos_server/events/derivative_services.py:548-603 | in every state of every harmless run a readiness flag that is set names the current generation and is true of every visible photo, and a current manifest is the committed one of the current generation |
| PublicationGuarantees.PublicationSnapshot | apps/server/src/openfotos_server/events/ingestion_services.py:546-681 | the photos visible after publication are exactly those that the gate counted; each is in the gallery with pair and analysis; nothing stays reserved that is not verified |
| PublicationGuarantees.PublicationManifest | apps/server/src/openfotos_server/events/ingestion_services.py:619-678 | the publication manifest counts the stored originals of complete contributions in active sections: the photos shown and those hidden by hand |
| PublicationGuarantees.GalleryStaysWhole | apps/server/src/openfotos_server/events/gallery_services.py:53-85 | over every harmless run during which the event stays public, the gallery is one and the same set of photos, each with verified original, preview, thumbnail and terminal analysis |
| PublicationGuarantees.PublicRows | apps/server/src/openfotos_server/events/gallery_services.py:53-85 | in every state of every harmless run in which the event is public, on the rows: each photo that is not hidden, stored, and in an active section has its preview and thumbnail stored and an analysis of its own bytes with the event's model; the gallery lists exactly these photos |
| PublicationGuarantees.RunKeepsManifests | apps/server/src/openfotos_server/events/ingestion_services.py:1030-1091 | over every run without a purge manifests never disappear, never change their totals and stay committed; there is one per generation |
| PublicationGuarantees.CancelledIsLeftOnlyByFinalizing | apps/server/src/openfotos_server/events/ingestion_services.py:1074-1091 | a quarantined event leaves that state if and only if the second half of a finalization commits |
| PublicationGuarantees.PublicEndsIff | apps/server/src/openfotos_server/events/ingestion_services.py:1074-1091 | a public event stops being public exactly by unpublishing or a manual return to review while it is published, by a privacy request, and by the late second half of a finalization, which looks at no state |
| PublicationGuarantees.ErasureIsUndone | apps/server/src/openfotos_server/events/ingestion_services.py:993-1091 | a privacy request between the two halves of finalizing is overwritten by the state chosen in the first half |
| LedgerGaps.AdjacentHalves | apps/server/src/openfotos_server/events/derivative_services.py:493-531 | with nothing between its halves derivative verification does harm if and only if the row is excluded |
| LedgerGaps.LateMismatchBreaksPair | apps/server/src/openfotos_server/events/derivative_services.py:508-531 | a late mismatch takes the pair of a visible photo away although readiness stays set |
| LedgerGaps.LateMismatchReleasesTwice | apps/server/src/openfotos_server/events/ingestion_services.py:801-835 | after a late mismatch on an excluded derivative, cancelling its contribution takes the derivative's bytes and one photo off the reserved counters, unless a CHECK constraint refuses |
| LedgerExample.LateMismatchExample | apps/server/src/openfotos_server/events/ingestion_services.py:801-835 | a run of a new event, step by step, after which a late mismatch and a cancellation leave the counters at six bytes in one photo while eleven bytes in two are held |
| LedgerGaps.UnreadyGoesPublic | apps/server/src/openfotos_server/events/sub_event_services.py:158-184 | a contribution moved out of an archived section can go public unready |
| LedgerExample.UnreadyExample | apps/server/src/openfotos_server/events/sub_event_services.py:158-184 | the same event, led on by steps into review: moving a contribution out of an archived section and publishing by hand shows a photo without a preview |
| GalleryOrder.GalleryFollowsCaptureOrder | apps/server/src/openfotos_server/events/derivative_services.py:583-586 | once readiness is granted, the gallery lists exactly in the order of capture time (missing last), filename and id |
| CommandHistory.TimesAreRegistered | apps/server/src/openfotos_server/events/derivative_services.py:313-323 | in every state of every run of a new event, the capture time of a photo is the one that was last registered for it and not purged since |
| CommandHistory.TimeIsFinal | apps/server/src/openfotos_server/events/derivative_services.py:313-320 | once a capture time was registered, a different one is refused after any run without a purge |
| CommandHistory.GalleryFollowsRegisteredTimes | apps/server/src/openfotos_server/events/derivative_services.py:583-586 | whenever a run of a new event has led to derivative readiness, the gallery lists by the capture times registered in that run (missing last), filename and id |
| CommandHistory.HiddenAfterFive | apps/server/src/openfotos_server/events/gallery_services.py:242-258 | in an event under way, a photo whose derivatives keep failing can be hidden by hand exactly from the fifth report on, unless its analysis was given up as well |
| EventStore.Store.ReserveContribution | apps/server/src/openfotos_server/events/ingestion_services.py:127-261 | a contribution on record is done if and only if workstation, section and manifest are the recorded ones and the section is active, and changes nothing; a new one is refused exactly for a listed reason, or its batch, photos, originals and charges are on record as sent; both invariants stay |
| EventStore.Store.IssueLeases | apps/server/src/openfotos_server/events/ingestion_services.py:287-361 | touches nothing but pending originals of the contribution; while it is in flight each chosen one is awaited again until the given time; both invariants stay |
| EventStore.Store.VerifyUpload | apps/server/src/openfotos_server/events/ingestion_services.py:396-439 | the locked half of verification, with failure on mismatch and completion of the batch; both invariants stay |
| EventStore.Store.ExcludeOriginal | apps/server/src/openfotos_server/events/ingestion_services.py:897-967 | excludes one original and gives back its bytes; both invariants stay |
| EventStore.Store.CancelContribution | apps/server/src/openfotos_server/events/ingestion_services.py:766-835 | withdraws a contribution and gives back what its objects hold; both invariants stay |
| EventStore.Store.PublicationStatus | apps/server/src/openfotos_server/events/ingestion_services.py:458-520 | ready if and only if a policy is confirmed, a section is active, and every included photo, at least one, has both verified derivatives and its terminal analysis; an event that may still be published can be published exactly then |
| EventStore.Store.CommitPublicationSnapshot | apps/server/src/openfotos_server/events/ingestion_services.py:524-698 | gate, exclusion of unfinished contributions, manifest and event row; afterwards the photos that the gate counted are the visible ones and the gallery, nothing stays reserved that is not verified, and both invariants hold |
| EventStore.Store.CloseEventIntake | apps/server/src/openfotos_server/events/ingestion_services.py:714-733 | once it succeeds no contribution is recorded and no lease is given any more; both invariants stay |
| EventStore.Store.ReopenEventIntake | apps/server/src/openfotos_server/events/ingestion_services.py:854-883 | the next generation has nothing current, and no worker that prepared a manifest before can commit it |
| EventStore.Store.UnpublishForUpload | apps/server/src/openfotos_server/events/portfolio_services.py:383-406 | a published event, and no other, gets a next generation in which nothing is current and no earlier worker can commit |
| EventStore.Store.PrepareManifest | apps/server/src/openfotos_server/events/ingestion_services.py:993-1037 | the first half of finalizing: on record are the totals of the verified originals; both invariants stay, with one more worker on its way |
| EventStore.Store.CommitManifest | apps/server/src/openfotos_server/events/ingestion_services.py:1074-1091 | the second half, for a worker that prepared: the committed totals equal the verified and the reserved counters, whatever ran in between; both invariants stay |
| EventStore.Store.RegisterAssetDerivatives | apps/server/src/openfotos_server/events/derivative_services.py:275-358 | both rows are on record with the registered bytes, the photo has the capture time that was given, or else the one it had, and any other one is refused from then on; no other row changes, and repeating the command changes nothing; both invariants stay |
| EventStore.Store.CommitDerivative | apps/server/src/openfotos_server/events/derivative_services.py:508-531 | the invariants hold afterwards if and only if the row was neither excluded nor, on a mismatch, one that readiness or publication relied on; a match and only a match verifies the row |
| EventStore.Store.AssignPositions | apps/server/src/openfotos_server/events/derivative_services.py:583-586 | numbers the visible photos in sorted order: each gets its rank |
| EventStore.Store.RefreshDerivativeReadiness | apps/server/src/openfotos_server/events/derivative_services.py:549-603 | ready if and only if the manifest is the current committed one and every visible photo, at least one, has its verified pair; positions are the ranks; both invariants stay |
| EventStore.Store.RefreshFaceReadiness | apps/server/src/openfotos_server/events/face_services.py:314-348 | ready if and only if the manifest is the current committed one and every visible photo, at least one, has its terminal analysis; both invariants stay |
| EventStore.Store.SubmitFaceAnalysis | apps/server/src/openfotos_server/events/face_services.py:61-192 | an accepted analysis is the one on record and is accepted again without a change; a different one of an analysed photo never is; both invariants stay |
| EventStore.Store.ReportFaceAnalysisFailure | apps/server/src/openfotos_server/events/face_services.py:195-269 | a failure never takes an analysis away and counts at most to the limit; both invariants stay |
| EventStore.Store.ResetFaceAnalysis | apps/server/src/openfotos_server/events/face_services.py:272-311 | afterwards any analysis of the right bytes and model is accepted as if it were the first; both invariants stay |
| EventStore.Store.ExcludeFromGallery | apps/server/src/openfotos_server/events/gallery_services.py:212-305 | takes exactly this photo out of sight, and readiness with it; both invariants stay |
| EventStore.Store.RestoreToGallery | apps/server/src/openfotos_server/events/gallery_services.py:308-365 | shows this photo, and no other, exactly if its original is verified in an active section; readiness and review have to be earned again; both invariants stay |
| EventStore.Store.SetSectionArchived | apps/server/src/openfotos_server/events/sub_event_services.py:126-155 | archiving takes exactly the photos of the section out of sight, reviving shows those that are stored and not hidden; readiness is lost; both invariants stay |
| EventStore.Store.ReassignContribution | apps/server/src/openfotos_server/events/sub_event_services.py:158-184 | the invariants hold afterwards if and only if the move does not show photos that lack what a readiness flag promises; the stored photos of the contribution become visible, and no others |
| EventStore.Store.TransitionEvent | apps/server/src/openfotos_server/events/services.py:22-74 | publishing by hand succeeds exactly with all the evidence; whenever the event is public afterwards, every visible photo has everything and is in the gallery; both invariants stay |
| EventStore.Store.PurgeRecords | apps/server/src/openfotos_server/events/retention_services.py:230-285 | nothing is visible, held or counted any more, and a contribution on record is never charged again; both invariants stay |
| Idempotency.CommandsAreSerial | apps/server/src/openfotos_server/events/api.py:127-190 | of two commands started under one actor and key, the earlier one had let its claim go unanswered or had lost it after its protection ran out |
| Idempotency.UnexpiredRecordAnswers | apps/server/src/openfotos_server/events/api.py:152-211 | while a record is unexpired no second command starts: a different request conflicts, the same one is told to wait exactly while no response is stored, and otherwise gets the stored response |
| Idempotency.DisplacedIsHarmless | apps/server/src/openfotos_server/events/api.py:215-241 | a claimant whose record was taken over can never again overwrite or delete a record |
| Idempotency.AnswerIsOwn | apps/server/src/openfotos_server/events/api.py:215-230 | a stored response is the one that its own claimant computed, and never changes |
| Idempotency.CompletedReplays | apps/server/src/openfotos_server/events/api.py:193-212 | after completion and until expiry every repetition replays that response and every other request under the key conflicts |
| Idempotency.ReplayedWasComputed | apps/server/src/openfotos_server/events/api.py:193-230 | whoever is told a response, after any run, is told one that the claimant of the same key and request handed in when it completed |
| Idempotency.Records.LookUp | apps/server/src/openfotos_server/events/api.py:142-157 | an expired record is replaced by a claim that lasts its time to live but at most fifteen minutes; a live one answers conflict, in progress or its response, exactly as its request and response say; only an unknown key goes unanswered; other records stay |
| Idempotency.Records.Insert | apps/server/src/openfotos_server/events/api.py:158-211 | creates a record, which the claimant then owns, or the one inserted meanwhile answers, expired or not, exactly as its request and response say; no record changes |
| Idempotency.Records.Complete | apps/server/src/openfotos_server/events/api.py:215-230 | writes the response if and only if the record is still the claimant's pending one; a claim completes at most once |
| Idempotency.Records.Release | apps/server/src/openfotos_server/events/api.py:233-241 | deletes only the claimant's own pending record: the claimant owns nothing any more, and every other claim stands as before |
| NegativePairs.ClosestNegativeDistances | packages/vision/src/openfotos_vision/benchmark.py:752-774 | returns the `count` smallest distances over all cross-identity pairs i < j, or nothing when there are fewer, for every block size |
| NegativePairs.SelectionIsIndependentOfBlocks | packages/vision/src/openfotos_vision/benchmark.py:752-774 | the multiset of selected distances does not depend on the block size |
| NegativePairs.SimilaritiesArePairs | packages/vision/src/openfotos_vision/benchmark.py:752-774 | what is selected from are the similarities of all pairs of faces of different people, each pair once: every value as often as there are such pairs |
| NegativePairs.SmallestOfUnion | packages/vision/src/openfotos_vision/benchmark.py:767-771 | keeping only the smallest of each block and of the union loses none of the overall smallest |
| NegativePairs.ComparisonsAreDistances | packages/vision/src/openfotos_vision/benchmark.py:847-851 | the closed form is the number of cross-identity pairs |
| NegativePairs.SelectionBounds | packages/vision/src/openfotos_vision/benchmark.py:743-749 | below the largest of the k + 1 smallest distances at most k are accepted, from it on more than k |
| NegativePairs.ThresholdForFalseAcceptRate | packages/vision/src/openfotos_vision/benchmark.py:724-749 | whatever rounding does to distances and to the product with the rate, the threshold accepts at most the allowed number of cross-identity pairs and every larger number of the grid accepts more: it is the next number below the distance of the first rejected similarity; 2 when all may be accepted, negative exactly when more pairs than allowed have distance zero, an error without pairs |
| NegativePairs.MeasuredWithinIff | packages/vision/src/openfotos_vision/benchmark.py:821-844 | the false accepts measured at a threshold are at most the allowed number if and only if the limit computed from it lies above the first rejected similarity |
| NegativePairs.CalibrateAndMeasure | packages/vision/src/openfotos_vision/benchmark.py:159-167 | calibrating and measuring on the same pairs: within the allowance if and only if all pairs are allowed or the limit computed from the threshold comes back above the first rejected similarity |
| NegativePairs.ExactSubtractionIff | packages/vision/src/openfotos_vision/benchmark.py:724-844 | without rounding that holds if and only if the first rejected similarity is at most one, or exceeds one by less than the next number below zero is below zero |
| SinglePrecision.MeasuredInSinglePrecisionIff | packages/vision/src/openfotos_vision/benchmark.py:724-844 | in the single precision that the code uses it holds if and only if the first rejected similarity is below a half, or below three quarters with an odd significand; otherwise the limit rounds back and the first rejected pair is counted |
| SinglePrecision.CalibrateInSinglePrecision | packages/vision/src/openfotos_vision/benchmark.py:159-167 | the same of the whole calibration step: whenever not all pairs are allowed, this decides whether the false accepts measured on the calibration pairs stay within the allowance |
| SinglePrecision.TwoFacesExample | packages/vision/src/openfotos_vision/benchmark.py:724-844 | two people with one embedding, and two with similarity 0.9: calibrated for no false accept, measuring counts the pair; with similarity 0.4 it does not |
| NegativePairs.NegativeMatches | packages/vision/src/openfotos_vision/benchmark.py:821-844 | counts the cross-identity similarities that reach the limit computed from the distance; without rounding these are the pairs within the distance if and only if it is from 0 up to, not including, 2, or below 0 and none counts, or from 2 on and all count |
| Inventory.RescanIsFreshIff | apps/desktop/src/openfotos_desktop/ingestion/scanner.py:75-183 | from a truthful table, a completed scan of an unfrozen batch finds exactly what a scan of an empty table finds, if and only if no reused row's file changed during the scan |
| Inventory.RescanAfterCancelledIff | apps/desktop/src/openfotos_desktop/ingestion/scanner.py:75-183 | after any number of cancelled scans, a completed one finds what a scan of an empty table finds, if and only if no row that they left for reuse changed during it |
| Inventory.FrozenScan | apps/desktop/src/openfotos_desktop/ingestion/scanner.py:102-173 | a scan of a frozen batch adds and removes no row; rows that were reached are what the visit made of them, the others lose their source, checksum kept, unless they were rejected; it finds nothing to review if and only if every accepted row was seen with its snapshot |
| Inventory.Batch.Rescan | apps/desktop/src/openfotos_desktop/ingestion/scanner.py:75-183 | refuses contributions known to the server; a cancelled scan pauses with the reached rows revisited; a completed one leaves exactly the visited paths, or in a frozen batch marks every unreached row that was not rejected as missing its source; after a missing file the batch needs review and cannot be approved |
| Inventory.ScanLeft | apps/desktop/src/openfotos_desktop/ingestion/checkpoint.py:1496-1524 | row by row, what a completed scan leaves: revisited rows, and unreached ones deleted or, when frozen, blocked with their checksum kept |
| Inventory.MissingFileBlocks | apps/desktop/src/openfotos_desktop/ingestion/checkpoint.py:1507-1524 | a frozen batch that lacks a file blocks: no allowance lets it be approved |
| Inventory.Batch.StartScan | apps/desktop/src/openfotos_desktop/ingestion/checkpoint.py:715-735 | a scan starts if and only if the contribution is not reserved, uploading, complete or not included |
| Inventory.Batch.Visit | apps/desktop/src/openfotos_desktop/ingestion/scanner.py:103-146 | an unchanged row is only marked as seen, another one is validated anew, a frozen batch ignores new files |
| Inventory.Batch.Approve | apps/desktop/src/openfotos_desktop/ingestion/checkpoint.py:1624-1655 | approves and freezes exactly a reviewed batch of the event's profile without blockers or issues, with accepted photos within the allowance |
| Inventory.Batch.MarkReserved | apps/desktop/src/openfotos_desktop/ingestion/checkpoint.py:894-963 | hands an approved batch over to the upload: from then on every accepted photo has its checkpoints, new ones start from nothing, and repeating the hand-over loses no progress |
| DirectoryWalk.Walk | apps/desktop/src/openfotos_desktop/ingestion/scanner.py:257-303 | the walk with a pending stack yields every file below the folder exactly as often as it is there, and reports every unreadable entry |
| UploadLoop.Uploader.UploadOriginals | apps/desktop/src/openfotos_desktop/batch_sync.py:323-410 | whatever happens to requests, files, store and server, no checkpoint is ever ahead of the server; the loop stops within the attempts left, five per item, and ends as its last round does; where every request is answered, nobody cancels or interferes and every awaited photo may be leased and uploaded, it ends regularly with every awaited photo stored |
| UploadLoop.Uploader.UploadRound | apps/desktop/src/openfotos_desktop/batch_sync.py:339-403 | one round, end by end: cancelled only by the user, no work if and only if the server awaits none of the requested originals that it may lease, broken if and only if an upload of the wave fails for good; otherwise each leased original spends an attempt and is as its upload left it, and all else is as the sync found it |
| UploadLoop.Uploader.UploadOne | apps/desktop/src/openfotos_desktop/batch_sync.py:412-460 | counts the attempt first; file check, PUT, 412 and completion decide in the source's order; what it takes for verified is settled on the server |
| UploadLoop.TransferFollows | apps/desktop/src/openfotos_desktop/batch_sync.py:412-460 | whatever happens before, between and during its requests, an upload only advances the server, and a confirmed photo is stored, or was dropped or purged since |
| UploadLoop.ConfirmedIff | apps/desktop/src/openfotos_desktop/batch_sync.py:412-460 | an upload is confirmed if and only if the file is unchanged, the PUT went through with the right bytes or found an object, and the completion succeeded, was recorded and answered |
| UploadLoop.FailsForGoodIff | apps/desktop/src/openfotos_desktop/batch_sync.py:412-460 | an upload fails for good if and only if the file changed, other bytes were sent, the store refused for good, or the completion was refused for good or its answer could not be recorded |
| UploadLoop.WelcomedRound | apps/desktop/src/openfotos_desktop/batch_sync.py:339-403 | in a round in which every request is answered and every awaited photo may be leased and uploaded, whatever is still open is tried and some of it stored, or the loop is finished |
| UploadLoop.PlainUploadStores | apps/desktop/src/openfotos_desktop/batch_sync.py:412-460 | an upload that nothing disturbs stores an awaited photo, unless a wrong object lies under its key |
| UploadLoop.LostReplyIsFound | apps/desktop/src/openfotos_desktop/batch_sync.py:423-455 | when only the reply of a completion is lost, the attempt may be repeated and the next sync finds the photo settled, whatever happens in between |
| UploadLoop.CutPutIsMadeGood | apps/desktop/src/openfotos_desktop/batch_sync.py:423-441 | a PUT that was cut after the store had kept the bytes is made good by the next attempt, which is told 412 and completes |
| UploadLedger.CompletionIsTheLedgers | apps/server/src/openfotos_server/events/ingestion_services.py:364-444 | the completion of the upload loop moves a photo and answers exactly as the ledger's, for any photo and any earlier view of the store |
| UploadLedger.LeaseIsTheLedgers | apps/server/src/openfotos_server/events/ingestion_services.py:317-350 | a lease moves a photo's state as the loop takes it to |
| UploadLedger.RunIsAnEvent | apps/server/src/openfotos_server/events/ingestion_services.py:127-1091 | any run without a write to an excluded derivative moves a recorded photo as one event of the loop's world may: the server only advances |
| UploadLedger.AnswersStayTrue | apps/server/src/openfotos_server/events/api.py:215-259 | a photo whose completion succeeded is stored, or was dropped or purged since, after any later such run: a recorded answer may be replayed |
| UploadLoop.Uploader.SyncBatch | apps/desktop/src/openfotos_desktop/batch_sync.py:1122-1153 | after it a photo stored on the server is verified here and a dropped one excluded, and no checkpoint is ahead of the server |
| UploadLoop.WaveBudget | apps/desktop/src/openfotos_desktop/batch_sync.py:353-403 | each wave lowers the attempts left by its number of uploads |
| Sessions.AcceptedIff | apps/server/src/openfotos_server/events/desktop_auth.py:134-182 | exactly the current refresh token, and within grace the previous one, of a live session are accepted |
| Sessions.DeadForever | apps/server/src/openfotos_server/events/desktop_auth.py:134-201 | a displaced or revoked token is never accepted again, over every run |
| Sessions.RefreshDisplaces | apps/server/src/openfotos_server/events/desktop_auth.py:185-201 | a refresh keeps the used current token as previous one and displaces any earlier one at once |
| Sessions.LateReuseRevokes | apps/server/src/openfotos_server/events/desktop_auth.py:169-182 | late reuse of the previous token ends the session for good |
| Sessions.DenialMeans | apps/server/src/openfotos_server/events/desktop_auth.py:134-182 | a denied refresh changes nothing, except that late reuse revokes the session of the reused token |
| Sessions.IssueMeans | apps/server/src/openfotos_server/events/desktop_auth.py:96-115 | a sign-in opens a session with fresh tokens and its time to live, and revokes the installation's others and no more |
| Sessions.SessionsEnd | apps/server/src/openfotos_server/events/desktop_auth.py:96-201 | however often it is refreshed, a session ends at the time to live after its sign-in |
| Sessions.SignOutMeans | apps/server/src/openfotos_server/events/desktop_auth.py:209-233 | a sign-out revokes the session that the token names, current or previous, and no other; its tokens are dead |
| Sessions.ConnectedIff | apps/server/src/openfotos_server/events/desktop_auth.py:134-201 | a client that retries within the grace stays connected if and only if it never loses two replies in a row; otherwise its token is dead |
| Sessions.RefreshesUntilAnswered | apps/desktop/src/openfotos_desktop/api_client.py:82-123 | of the requests refused with one access token, the server sees the refreshes whose replies were lost before the first answered one, and that one |
| Sessions.RefreshedOnceIff | apps/desktop/src/openfotos_desktop/api_client.py:82-123 | it sees exactly one if and only if the first that reaches it is answered, by tokens or a denial, or no other reaches it |
| Sessions.PassagesAreAttempts | apps/desktop/src/openfotos_desktop/api_client.py:82-123 | through the lock the desktop is the client of the refresh protocol, attempt by attempt |
| Sessions.TwoLostRepliesSignOut | apps/desktop/src/openfotos_desktop/api_client.py:82-123 | two replies lost in a row before an answer leave a dead token, and the next answer signs the desktop out |
| Sessions.SessionTable.Issue | apps/server/src/openfotos_server/events/desktop_auth.py:96-115 | the new session has its time to live and is not revoked; all earlier sessions of the installation are, and no other session changes |
| Sessions.SessionTable.SignOut | apps/server/src/openfotos_server/events/desktop_auth.py:209-233 | the session that the token names is revoked and its tokens are dead; every other session stays as it is |
| Sessions.SessionTable.SessionForPrevious | apps/server/src/openfotos_server/events/desktop_auth.py:169-182 | finds the live session for a previous token within its grace; otherwise no session has that previous token any more |
| Sessions.SessionTable.Refresh | apps/server/src/openfotos_server/events/desktop_auth.py:134-166 | who gets tokens named a live session, whose current token they now are and whose replaced one is kept as previous; a denial hands out nothing |
| RateLimits.AdmittedIff | apps/server/src/openfotos_server/events/rate_limits.py:168-215 | for any order of times an attempt is let through if and only if fewer than `limit` attempts precede it in an uninterrupted streak of its window |
| RateLimits.WindowBound | apps/server/src/openfotos_server/events/rate_limits.py:168-215 | with a clock that does not run backwards, a window lets through all of its attempts up to exactly `limit` |
| RateLimits.SlidingBound | apps/server/src/openfotos_server/events/rate_limits.py:168-215 | no interval of a window's length lets more than twice the limit through |
| RateLimits.WindowCount | apps/server/src/openfotos_server/events/rate_limits.py:168-215 | for any order of times a window lets through up to `limit` attempts of each of its uninterrupted streaks: its bound holds if and only if these add up to no more than `limit` |
| RateLimits.BackwardsClockExample | apps/server/src/openfotos_server/events/rate_limits.py:187-192 | a clock that steps back lets more than the limit through in one window |
| RateLimits.RetryLeavesWindow | apps/server/src/openfotos_server/events/rate_limits.py:74-76 | waiting as long as told always leaves the window, at most one second later than it ends |
| RateLimits.Limiter.ConsumeAttempt | apps/server/src/openfotos_server/events/rate_limits.py:168-215 | forgets other windows, rejects without counting at the limit, counts otherwise |
| Gallery.LinksAreNeighbours | apps/server/src/openfotos_server/events/gallery_services.py:403-439 | in a listing by position (missing last) and id, the next and previous links of every photo are its neighbours |
| Gallery.LinksUndoEachOther | apps/server/src/openfotos_server/events/gallery_services.py:403-439 | the two links undo each other |
| Gallery.ListingIsUnique | apps/server/src/openfotos_server/events/gallery_services.py:82-85 | a gallery has exactly one such listing |
| Slugs.AssignSlug | apps/server/src/openfotos_server/events/portfolio_services.py:280-300 | the slug is the first free candidate, is unused, and is a slug of at most 200 characters (while the number of taken slugs has at most 198 digits); it is found after at most one try more than slugs are taken, or two if the base comes again as a candidate |
| Slugs.RecursIff | apps/server/src/openfotos_server/events/portfolio_services.py:289-297 | a base comes again with a number if and only if it has at least 199 characters and ends with that suffix |
| Slugs.RecursExample | apps/server/src/openfotos_server/events/portfolio_services.py:289-297 | with one such slug taken, two candidates are rejected |
| Slugs.SuffixedAreDistinct | apps/server/src/openfotos_server/events/portfolio_services.py:295-297 | candidates with different numbers differ, however much of the base was cut off |
| Slugs.CandidatesAreSlugs | apps/server/src/openfotos_server/events/models.py:37-41 | every candidate matches the slug pattern and has at most 200 characters, while its number has at most 198 digits |
| Slugs.BaseKeepsWords | apps/server/src/openfotos_server/events/portfolio_services.py:283-287 | a name keeps its words in order while they fit, and a name without words becomes event |
| Slugs.SlugsStay | apps/server/src/openfotos_server/events/portfolio_services.py:283-285 | a name that is a slug already is used as it stands |
| Rendition.LongEdgeIsExact | apps/server/src/openfotos_server/events/derivative_services.py:643-647 | the renderer's size satisfies the exact long-edge rule for every original |
| Rendition.RenditionAcceptedIff | apps/server/src/openfotos_server/events/derivative_services.py:639-658 | the server accepts a rendition if and only if the original is portrait or square, or not longer than the long edge, or rounding its short side moved the ratio of long to short side by at most 0.03 |
| Rendition.TurnedIsJudgedAlike | apps/server/src/openfotos_server/events/derivative_services.py:648-658 | an original that the server recorded turned is judged alike |
| Rendition.FiveToOne | apps/desktop/src/openfotos_desktop/derivatives.py:235-239 | up to five to one an original keeps its shape as a thumbnail, up to ten to one as a preview |
| Rendition.PanoramaExample | apps/server/src/openfotos_server/events/derivative_services.py:648-658 | a landscape panorama of less than six to one has a thumbnail whose short side drifts too far, and the server refuses it; upright, and a longer one that drifts less, are accepted |

## Left out

- Authentication, tenancy, installations and their revocation: a command is modelled after it found its event; which rows belong to other events is a set of foreign ids.
- Audit rows, labels, devices, timestamps and failure codes: no modelled decision reads them.
- The object store: for the ledger's commands what it answers is a parameter (a head, a refusal, an acceptance); only the upload loop models what lies under a photo's key. Orphaned keys are not modelled. Digests are abstract numbers that differ when contents differ.
- The unlocked first half of verifying an original: it only reads, so the locked half is proved for every photo and every head at every time.
- Privacy erasure: the quarantine is a step that may also repeat, and the purge is a step that may happen at any time; its due date and the deletion of visitor data are not modelled.
- Preview policy contents and the two-phase upload of its mark: a policy is confirmed or not; profile ids, capture-time ranges and declared dimensions of derivatives are not checked in the ledger.
- Portal capabilities, PINs, share links and expiry: a future expiry is a parameter of the manual transition.
- Event settings that an administrator may edit (storage limit, profile, face model): constants of an event.
- Upload leases for derivatives: they only read and sign, and write no row.
- CreateSection, ReportDerivativeFailure, ConfirmPolicy and RequestErasure are steps of the runs; their one-line writes are stated in `CommandEffects` and not repeated as methods of the store.
- `_execute_mutation` as one routine: its claim, completion and release are modelled as separate steps, because other workers run between them.
- Failure buckets that are not consumed (`register_failure`, `clear_failures`) and the settings lookup of limits: the counted attempt is the one with a bound to prove.
- Access tokens' expiry and the request that carries them: only their role behind the refresh lock is modelled. A transaction sees one time.
- Relocating a selection, removing selections and the ids and selection attribution of inventory rows.
- Validation of image contents: a verdict is an uninterpreted function of path and snapshot; that a stable snapshot determines the verdict is the assumption `Inventory.Honest`.
- The order in which directory entries are listed: entries are taken in listing order, and the walk is proved on the collection of what it yields.
- The batch state that the desktop keeps while uploading, derivative and face stages, and their retries: their attempt counts are overwritten from the server, so they have no measure of their own.
- UploadLoop.Uploader.UploadOriginals: waves are sequential here; the uploads of one wave touch different photos. Waiting times between attempts are left out.
- NegativePairs.ThresholdForFalseAcceptRate: distances and the product with the rate may be rounded in any way; that the distances lie on a grid with a next number below each is required of the arithmetic, and proved of single precision.
- SinglePrecision.MeasuredInSinglePrecisionIff: similarities are given numbers of single precision, the same when calibrating and when measuring; how the dot products behind them are rounded is not modelled.
- Rendition.RenditionAcceptedIff: long edges from 34 on, which both profiles exceed; the scale and the ratios are computed exactly; floating-point rounding of them is not modelled.
- RateLimits.RetryLeavesWindow: times are whole microseconds after the epoch, for which the conversion to seconds is exact.
- Slugs: normalization of a name to lowercase letters, digits and hyphens is taken as done.
- Cover images, branding, portfolio pages, search results, signed URLs, the Qt interface, migrations and administration: no state with a law of its own.
