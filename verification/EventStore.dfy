/** The event's rows as the server's commands update them in place. Each method is proved against the ledger's
    transaction, keeps both invariants (two of them exactly under their harm condition), and says what it means
    for its caller. The ledger invariant makes every CHECK constraint hold, so no method needs a rollback. */
module EventStore {
  import opened Prelude
  import opened Tallies
  import opened Lifecycle
  import opened Ledger
  import opened LedgerInvariant
  import opened LedgerSteps
  import opened Publication
  import opened LedgerGuarantees
  import opened LedgerRuns
  import opened PublicationSteps
  import opened PublicationGuarantees
  import opened CommandFacts
  import opened CommandRefusals
  import opened CommandEffects
  import opened CommandHistory
  import opened GalleryOrder

  class Store {
    const profile: nat
    const faceModel: nat
    const byteLimit: nat
    const foreignBatches: set<BatchId>
    const foreignAssets: set<AssetId>

    var state: EventState
    var intake: IntakeState
    var generation: nat
    var policy: bool
    var reservedBytes: int
    var reservedCount: int
    var verifiedBytes: int
    var verifiedCount: int
    var derivativesReady: Option<nat>
    var facesReady: Option<nat>
    var manifest: Option<nat>

    var archived: map<SectionId, bool>
    var batches: map<BatchId, Batch>
    var assets: map<AssetId, Asset>
    var objects: map<ObjectKey, StoredObject>
    var faces: map<AssetId, Face>
    var manifests: map<nat, Manifest>

    /** The generations for which some worker is between the two halves of finalizing. */
    ghost var finalizing: set<nat>

    function EventRow(): Event
      reads this
    {
      Event(state, intake, generation, profile, faceModel, policy, byteLimit, reservedBytes, reservedCount,
            verifiedBytes, verifiedCount, derivativesReady, facesReady, manifest)
    }

    function Rows(): Tables
      reads this
    {
      Tables(archived, batches, assets, objects, faces)
    }

    function View(): Ledger
      reads this
    {
      Ledger(EventRow(), Rows(), manifests, foreignBatches, foreignAssets)
    }

    ghost function Sys(): System
      reads this
    {
      System(View(), finalizing)
    }

    /** The counters and batch states tell the truth, and so do manifests, readiness flags and the gallery. */
    ghost predicate Valid()
      reads this
    {
      SafeInv(Sys())
    }

    /** A new event has no contributions. */
    constructor (profile: nat, faceModel: nat, byteLimit: nat, sections: map<SectionId, bool>)
      ensures Valid() && Initial(Sys()) && archived == sections
    {
      this.profile, this.faceModel, this.byteLimit := profile, faceModel, byteLimit;
      foreignBatches, foreignAssets := {}, {};
      state, intake, generation, policy := Draft, Open, 1, false;
      reservedBytes, reservedCount, verifiedBytes, verifiedCount := 0, 0, 0, 0;
      derivativesReady, facesReady, manifest := None, None, None;
      archived, batches, assets, objects, faces, manifests := sections, map[], map[], map[], map[], map[];
      finalizing := {};
      new;
      InitialIsSafe(Sys());
    }

    /** The rows of a new contribution: its batch, its photos and their originals. */
    method CreateRows(c: Contribution)
      modifies this`batches, this`assets, this`objects
      ensures Rows() == WithContribution(old(Rows()), c, generation)
    {
      hide NewAssets, NewOriginals;
      batches := batches[c.batch := Batch(c.section, c.installation, generation, Some(c.digest), InFlight)];
      assets := assets + NewAssets(c);
      objects := objects + NewOriginals(c);
    }

    method ChargeEvent(bytes: nat, count: nat, next: EventState)
      modifies this`policy, this`reservedBytes, this`reservedCount, this`state
      ensures EventRow() == old(EventRow()).(
        policy := true, reservedBytes := old(reservedBytes) + bytes, reservedCount := old(reservedCount) + count,
        state := next)
    {
      policy := true;
      reservedBytes := reservedBytes + bytes;
      reservedCount := reservedCount + count;
      state := next;
    }

    /** The rows first, then the event. */
    method RecordContribution(c: Contribution, bytes: nat, next: EventState)
      modifies this`batches, this`assets, this`objects, this`policy, this`reservedBytes, this`reservedCount, this`state
      ensures Rows() == WithContribution(old(Rows()), c, old(generation))
      ensures EventRow() == old(EventRow()).(
        policy := true, reservedBytes := old(reservedBytes) + bytes, reservedCount := old(reservedCount) + |c.items|,
        state := next)
    {
      hide WithContribution;
      CreateRows(c);
      ChargeEvent(bytes, |c.items|, next);
    }

    /** Reserves a contribution: new rows, and its bytes and photos on the event. */
    method ReserveContribution(c: Contribution) returns (reply: Reply)
      requires Valid() && c.items != map[]
      modifies this
      ensures Valid() && Outcome(View(), reply) == Reserve(old(View()), c)
      ensures Fulfils(old(View()), Reserving(c), Outcome(View(), reply))
      ensures old(c.batch in batches) ==>
        && View() == old(View())
        && (reply == Done <==> old(RecordedAs(Rows(), c) && IsActive(Rows(), c.section)))
      ensures reply == Done ==> RecordedAs(Rows(), c) && IsActive(Rows(), c.section)
      ensures finalizing == old(finalizing)
    {
      hide Fulfils, LedgerInv, PublicationInv, Total, WithinConstraints, WithContribution;
      ghost var served := Reserve(View(), c);
      assert SafeInv(System(served.ledger, finalizing)) && Fulfils(View(), Reserving(c), served) by {
        StepIsSafe(Sys(), Reserving(c));
      }
      ReservationIsNeverRefused(View(), c);
      if Reserve(View(), c).reply == Done { ReservationRecords(View(), c); }
      if !(c.section in archived && !archived[c.section]) {
        return Rejected(SectionNotFound);
      }
      if c.batch in batches {
        var existing := batches[c.batch];
        if existing.installation == c.installation && existing.section == c.section && existing.digest == Some(c.digest) {
          return Done;
        }
        return Rejected(IdempotencyConflict);
      }
      if c.batch in foreignBatches {
        return Rejected(IdempotencyConflict);
      }
      if state == Published {
        return Rejected(EventPublished);
      }
      if intake != Open {
        return Rejected(IntakeClosed);
      }
      var decision := ForContribution(state);
      if decision.Refuse? {
        return Rejected(Error.Lifecycle(decision.violation));
      }
      if c.profile != profile {
        return Rejected(ProfileMismatch);
      }
      var bytes := SumUp(c.items.Keys, map a | a in c.items :: c.items[a].spec.bytes);
      if reservedBytes + bytes > byteLimit {
        return Rejected(StorageLimit);
      }
      if reservedCount + |c.items| > EVENT_ORIGINAL_ASSET_LIMIT {
        return Rejected(AssetLimit);
      }
      if exists a :: a in c.items && (a in assets || a in foreignAssets) {
        return Rejected(IdempotencyConflict);
      }
      RecordContribution(c, bytes, decision.state);
      reply := Done;
    }

    method IssueLeases(b: BatchId, installation: nat, chosen: set<AssetId>, until: nat) returns (reply: Reply)
      requires Valid()
      modifies this`objects
      ensures Valid() && Outcome(View(), reply) == Lease(old(View()), b, installation, chosen, until)
      ensures Fulfils(old(View()), Leasing(b, installation, chosen, until), Outcome(View(), reply))
      ensures objects.Keys == old(objects).Keys
      ensures forall k :: k in objects && objects[k] != old(objects)[k] ==>
        && k.variant == Original && k.asset in chosen && InBatch(Rows(), k.asset, b) && old(IsPending(Rows(), k.asset))
        && objects[k] == StoredObject(old(objects)[k].spec, Reserved, Some(until))
      ensures reply == Done && batches[b].state == InFlight ==>
        forall a :: a in chosen && InBatch(Rows(), a, b) && old(IsPending(Rows(), a)) ==>
          objects[ObjectKey(a, Original)] == StoredObject(old(objects)[ObjectKey(a, Original)].spec, Reserved, Some(until))
    {
      hide Fulfils, LedgerInv, PublicationInv, Leased, InActiveSection;
      ghost var served := Lease(View(), b, installation, chosen, until);
      assert
        && SafeInv(System(served.ledger, finalizing))
        && Fulfils(View(), Leasing(b, installation, chosen, until), served)
      by {
        StepIsSafe(Sys(), Leasing(b, installation, chosen, until));
      }
      LeasesRenew(View(), b, installation, chosen, until);
      if intake != Open || state == Published {
        return Rejected(EventPublished);
      }
      if b !in batches || batches[b].installation != installation {
        return Rejected(BatchNotFound);
      }
      if !InActiveSection(Rows(), b) {
        return Rejected(SectionArchived);
      }
      if batches[b].state != InFlight {
        return Done;
      }
      objects := Leased(Rows(), b, chosen, until);
      reply := Done;
    }

    /** A batch in flight becomes complete when nothing of it is pending. */
    method CompleteBatchIfTerminal(b: BatchId)
      requires b in batches
      modifies this`batches
      ensures Rows() == CompleteIfTerminal(old(Rows()), b)
    {
      var remaining := set a | a in assets && InBatch(Rows(), a, b) && IsPending(Rows(), a);
      assert forall a :: InBatch(Rows(), a, b) && IsPending(Rows(), a) ==> a in remaining;
      if batches[b].state == InFlight && remaining == {} {
        batches := batches[b := batches[b].(state := Complete)];
      }
    }

    /** Writes a terminal state and looks whether that completes the batch. */
    method SettleOriginal(k: ObjectKey, settled: ObjectState, b: BatchId)
      requires k in objects && b in batches
      modifies this`objects, this`batches
      ensures Rows() == CompleteIfTerminal(WithObject(old(Rows()), k, old(objects)[k].(state := settled)), b)
    {
      objects := objects[k := objects[k].(state := settled)];
      CompleteBatchIfTerminal(b);
    }

    method CountVerified(bytes: nat)
      modifies this`verifiedBytes, this`verifiedCount
      ensures EventRow() == old(EventRow()).(
        verifiedBytes := old(verifiedBytes) + bytes, verifiedCount := old(verifiedCount) + 1)
    {
      verifiedBytes := verifiedBytes + bytes;
      verifiedCount := verifiedCount + 1;
    }

    /** The locked half of verification, with what the store showed before. */
    method VerifyUpload(a: AssetId, head: Spec) returns (reply: Reply)
      requires Valid()
      modifies this
      ensures Valid() && Outcome(View(), reply) == VerifyCommit(old(View()), a, head)
      ensures Fulfils(old(View()), Verifying(a, head), Outcome(View(), reply))
      ensures finalizing == old(finalizing)
    {
      hide Fulfils, LedgerInv, PublicationInv, WithinConstraints, CompleteIfTerminal;
      ghost var served := VerifyCommit(View(), a, head);
      assert SafeInv(System(served.ledger, finalizing)) && Fulfils(View(), Verifying(a, head), served) by {
        StepIsSafe(Sys(), Verifying(a, head));
      }
      VerifyIsNeverRefused(View(), a, head);
      var k := ObjectKey(a, Original);
      if a !in assets || assets[a].batch !in batches || k !in objects {
        return Rejected(AssetNotFound);
      }
      var locked := objects[k];
      if locked.state == Verified {
        return Done;
      }
      if locked.state == Excluded {
        return Rejected(AssetExcluded);
      }
      if head != locked.spec {
        objects := objects[k := locked.(state := Failed, lease := None)];
        return Rejected(ObjectMismatch);
      }
      CountVerified(locked.spec.bytes);
      SettleOriginal(k, Verified, assets[a].batch);
      reply := Done;
    }

    method ReleaseOne(bytes: nat)
      modifies this`reservedBytes, this`reservedCount
      ensures EventRow() == old(EventRow()).(
        reservedBytes := old(reservedBytes) - bytes, reservedCount := old(reservedCount) - 1)
    {
      reservedBytes := reservedBytes - bytes;
      reservedCount := reservedCount - 1;
    }

    method ExcludeOriginal(a: AssetId, now: nat, storeAnswers: bool) returns (reply: Reply)
      requires Valid()
      modifies this
      ensures Valid() && Outcome(View(), reply) == ExcludeAsset(old(View()), a, now, storeAnswers)
      ensures Fulfils(old(View()), Excluding(a, now, storeAnswers), Outcome(View(), reply))
      ensures finalizing == old(finalizing)
    {
      hide Fulfils, LedgerInv, PublicationInv, WithinConstraints, CompleteIfTerminal, WithObject;
      ghost var served := ExcludeAsset(View(), a, now, storeAnswers);
      assert SafeInv(System(served.ledger, finalizing)) && Fulfils(View(), Excluding(a, now, storeAnswers), served) by {
        StepIsSafe(Sys(), Excluding(a, now, storeAnswers));
      }
      ExclusionIsNeverRefused(View(), a, now, storeAnswers);
      var k := ObjectKey(a, Original);
      if a !in assets || assets[a].batch !in batches || k !in objects {
        return Rejected(AssetNotFound);
      }
      var locked := objects[k];
      if locked.state == Verified {
        return Rejected(AssetImmutable);
      }
      if locked.state == Excluded {
        return Done;
      }
      if LeaseIsActive(locked, now) {
        return Rejected(LeaseActive);
      }
      if !storeAnswers {
        return Rejected(ObjectStoreUnavailable);
      }
      ReleaseOne(locked.spec.bytes);
      SettleOriginal(k, Excluded, assets[a].batch);
      reply := Done;
    }

    /** Withdraws a contribution and gives back what its objects, of all variants, still hold. */
    method CancelContribution(b: BatchId, now: nat, storeAnswers: bool) returns (reply: Reply)
      requires Valid()
      modifies this
      ensures Valid() && Outcome(View(), reply) == CancelBatch(old(View()), b, now, storeAnswers)
      ensures Fulfils(old(View()), Cancelling(b, now, storeAnswers), Outcome(View(), reply))
      ensures finalizing == old(finalizing)
    {
      hide Fulfils, LedgerInv, PublicationInv, Total, WithinConstraints, LeaseIsActive, BatchObjects, Releasable,
           WithdrawnBatch;
      ghost var served := CancelBatch(View(), b, now, storeAnswers);
      assert SafeInv(System(served.ledger, finalizing)) && Fulfils(View(), Cancelling(b, now, storeAnswers), served) by {
        StepIsSafe(Sys(), Cancelling(b, now, storeAnswers));
      }
      CancellationIsNeverRefused(View(), b, now, storeAnswers);
      if b !in batches {
        return Rejected(BatchNotFound);
      }
      if batches[b].state == Withdrawn {
        return Done;
      }
      var uploads := BatchObjects(Rows(), b);
      BatchObjectsExist(Rows(), b);
      if exists k :: k in uploads && objects[k].state == Verified {
        return Rejected(BatchHasVerifiedAssets);
      }
      if exists k :: k in uploads && LeaseIsActive(objects[k], now) {
        return Rejected(LeaseActive);
      }
      if !storeAnswers {
        return Rejected(ObjectStoreUnavailable);
      }
      ReleaseAndWithdraw(b);
      reply := Done;
    }

    /** Gives the held bytes back and withdraws the batch. */
    method ReleaseAndWithdraw(b: BatchId)
      requires b in batches
      modifies this`objects, this`batches, this`reservedBytes, this`reservedCount
      ensures Rows() == WithdrawnBatch(old(Rows()), b)
      ensures
        var released := Releasable(old(Rows()), b);
        && released <= Sizes(old(objects)).Keys
        && EventRow() == old(EventRow()).(
             reservedBytes := old(reservedBytes) - Total(released, Sizes(old(objects))),
             reservedCount := old(reservedCount) - |released|)
    {
      hide Total, Releasable, WithdrawnBatch;
      BatchObjectsExist(Rows(), b);
      var released := Releasable(Rows(), b);
      var bytes := SumUp(released, Sizes(objects));
      reservedBytes := reservedBytes - bytes;
      reservedCount := reservedCount - |released|;
      Withdraw(b);
    }

    method Withdraw(b: BatchId)
      requires b in batches
      modifies this`objects, this`batches
      ensures Rows() == WithdrawnBatch(old(Rows()), b)
    {
      objects := map k | k in objects ::
        if InBatch(Rows(), k.asset, b) then objects[k].(state := Excluded) else objects[k];
      batches := batches[b := batches[b].(state := Withdrawn)];
    }

    /** Counts the gate. It is open exactly when every included photo, and at least one, has its pair and its
        analysis; an event that may still be published can be published exactly then. */
    method PublicationStatus() returns (ready: bool)
      requires Valid()
      ensures ready <==> Publishable(EventRow(), Rows())
      ensures state !in {Published, Archived, Cancelled, Broken} && generation !in manifests ==>
        (ready <==> Publish(View(), true).reply == Done)
    {
      hide LedgerInv, PublicationInv, IncludedPhotos, VerifiedDerivatives, AnalysedPhotos, HasActiveSection, Publishable,
           Publish;
      GateMeans(EventRow(), Rows());
      if state !in {Published, Archived, Cancelled, Broken} && generation !in manifests { GateIsPublication(View()); }
      var included := IncludedPhotos(Rows());
      var derivatives := |VerifiedDerivatives(Rows(), included)|;
      var analysed := |AnalysedPhotos(Rows(), faceModel, included)|;
      ready := |included| != 0 && |included| * 2 == derivatives && |included| == analysed && policy
               && HasActiveSection(Rows());
    }

    /** Publishes: closes every unfinished contribution and commits the snapshot of the completed ones. */
    method CommitPublicationSnapshot(storeAccepts: bool) returns (reply: Reply)
      requires Valid()
      modifies this
      ensures Valid() && Outcome(View(), reply) == Publish(old(View()), storeAccepts)
      ensures Fulfils(old(View()), Publishing(storeAccepts), Outcome(View(), reply))
      ensures finalizing == old(finalizing)
      ensures reply == Done && old(state) != Published ==>
        && VisiblePhotos(Rows()) == old(IncludedPhotos(Rows())) == GalleryPhotos(Rows()) != {}
        && reservedBytes == verifiedBytes && reservedCount == verifiedCount
    {
      hide Fulfils, LedgerInv, PublicationInv, Total, WithinConstraints, WithoutUnfinished, IncludedPhotos,
           VerifiedDerivatives, AnalysedPhotos, HasActiveSection, Snapshotted, VisiblePhotos, GalleryPhotos;
      ghost var served := Publish(View(), storeAccepts);
      assert SafeInv(System(served.ledger, finalizing)) && Fulfils(View(), Publishing(storeAccepts), served) by {
        StepIsSafe(Sys(), Publishing(storeAccepts));
      }
      if state != Published && Publish(View(), storeAccepts).reply == Done { PublicationSnapshot(Sys(), storeAccepts); }
      PublicationIsNeverRefused(View(), storeAccepts);
      if state == Published {
        return if manifest.None? then Rejected(SnapshotMissing) else Done;
      }
      if state in {Archived, Cancelled, Broken} {
        return Rejected(EventNotPublishable);
      }
      var included := IncludedPhotos(Rows());
      if included == {} {
        return Rejected(EmptyManifest);
      }
      if |VerifiedDerivatives(Rows(), included)| != 2 * |included| {
        return Rejected(MissingDerivatives);
      }
      if |AnalysedPhotos(Rows(), faceModel, included)| != |included| {
        return Rejected(MissingFaces);
      }
      if !policy {
        return Rejected(MissingPolicy);
      }
      if !HasActiveSection(Rows()) {
        return Rejected(MissingSection);
      }
      if generation in manifests {
        return Rejected(SnapshotExists);
      }
      if !storeAccepts {
        return Rejected(ObjectStoreUnavailable);
      }
      CloseAndSnapshot();
      reply := Done;
    }

    /** Everything that publication writes. */
    method CloseAndSnapshot()
      modifies this
      ensures View() == Snapshotted(old(View())) && finalizing == old(finalizing)
    {
      hide Total, WithoutUnfinished, StoredIn, PublishableBatches, DroppedObjects, HeldOriginals, StoredOriginals, Sizes;
      var heldBytes, heldCount := SumOfDropped(HeldOriginals(objects));
      var storedBytes, storedCount := SumOfDropped(StoredOriginals(objects));
      DropUnfinished();
      var snapshot := Snapshot();
      TakeSnapshot(snapshot, heldBytes, heldCount, storedBytes, storedCount);
    }

    /** Bytes and number of the given objects that belong to unfinished contributions. */
    method SumOfDropped(keys: set<ObjectKey>) returns (bytes: nat, count: nat)
      ensures DroppedObjects(Rows()) * keys <= Sizes(objects).Keys
      ensures bytes == Total(DroppedObjects(Rows()) * keys, Sizes(objects)) && count == |DroppedObjects(Rows()) * keys|
    {
      DroppedObjectsExist(Rows());
      var gone := DroppedObjects(Rows()) * keys;
      bytes := SumUp(gone, Sizes(objects));
      count := |gone|;
    }

    /** Deletes the analyses, excludes the objects and closes the batches of unfinished contributions. */
    method DropUnfinished()
      modifies this`objects, this`batches, this`faces
      ensures Rows() == WithoutUnfinished(old(Rows()))
    {
      hide FacesKept, ObjectsDropped, BatchesLeft, DroppedObjects, InFlightBatches;
      var unfinished, dropped := InFlightBatches(Rows()), DroppedObjects(Rows());
      var before := Rows();
      faces := FacesKept(before, unfinished);
      objects := ObjectsDropped(before, dropped);
      batches := BatchesLeft(before.batches);
    }

    /** The totals of the completed contributions in active sections. */
    method Snapshot() returns (m: Manifest)
      ensures
        var listed := StoredIn(Rows(), PublishableBatches(Rows()));
        m == Manifest(Committed, |listed|, Total(listed, Sizes(objects)))
    {
      var listed := StoredIn(Rows(), PublishableBatches(Rows()));
      var bytes := SumUp(listed, Sizes(objects));
      m := Manifest(Committed, |listed|, bytes);
    }

    method TakeSnapshot(m: Manifest, heldBytes: nat, heldCount: nat, storedBytes: nat, storedCount: nat)
      modifies this`manifests, this`intake, this`state, this`reservedBytes, this`reservedCount, this`verifiedBytes,
               this`verifiedCount, this`derivativesReady, this`facesReady, this`manifest
      ensures manifests == old(manifests)[generation := m]
      ensures EventRow() == old(EventRow()).(
        intake := Closed, state := Published,
        reservedBytes := old(reservedBytes) - heldBytes, reservedCount := old(reservedCount) - heldCount,
        verifiedBytes := old(verifiedBytes) - storedBytes, verifiedCount := old(verifiedCount) - storedCount,
        derivativesReady := Some(generation), facesReady := Some(generation), manifest := Some(generation))
    {
      reservedBytes := reservedBytes - heldBytes;
      reservedCount := reservedCount - heldCount;
      verifiedBytes := verifiedBytes - storedBytes;
      verifiedCount := verifiedCount - storedCount;
      manifests := manifests[generation := m];
      manifest := Some(generation);
      derivativesReady := Some(generation);
      facesReady := Some(generation);
      intake := Closed;
      state := Published;
    }

    method CloseEventIntake() returns (reply: Reply)
      requires Valid()
      modifies this`intake
      ensures Valid() && Outcome(View(), reply) == CloseIntake(old(View()))
      ensures Fulfils(old(View()), Closing, Outcome(View(), reply))
      ensures reply == Done ==>
        && (forall c: Contribution :: c.items != map[] ==> Reserve(View(), c).ledger == View())
        && (forall b, installation, chosen, until :: Lease(View(), b, installation, chosen, until).ledger == View())
    {
      hide Fulfils, LedgerInv, PublicationInv, Reserve, Lease;
      ghost var served := CloseIntake(View());
      assert SafeInv(System(served.ledger, finalizing)) && Fulfils(View(), Closing, served) by {
        StepIsSafe(Sys(), Closing);
      }
      if CloseIntake(View()).reply == Done { ClosedMeansClosed(CloseIntake(View()).ledger); }
      if intake == Closed {
        return Done;
      }
      if state !in {Draft, Uploading} {
        return Rejected(EventNotUploadingNow);
      }
      intake := Closed;
      reply := Done;
    }

    /** Opens the next generation: nothing of the old one is current any more. */
    method OpenNextGeneration()
      modifies this`generation, this`intake, this`state, this`manifest, this`derivativesReady, this`facesReady
      ensures EventRow() == NextGeneration(old(EventRow()))
    {
      generation := generation + 1;
      intake := Open;
      manifest := None;
      derivativesReady := None;
      facesReady := None;
      state := Uploading;
    }

    method ReopenEventIntake() returns (reply: Reply)
      requires Valid()
      modifies this
      ensures Valid() && Outcome(View(), reply) == ReopenIntake(old(View()))
      ensures Fulfils(old(View()), Reopening, Outcome(View(), reply))
      ensures finalizing == old(finalizing)
      ensures View() != old(View()) ==>
        && NothingCurrent(Sys())
        && forall g :: g in finalizing ==> FinalizeCommit(View(), g).reply == Rejected(StaleGeneration)
    {
      hide Fulfils, LedgerInv, PublicationInv, NothingCurrent, FinalizeCommit;
      ghost var served := ReopenIntake(View());
      assert SafeInv(System(served.ledger, finalizing)) && Fulfils(View(), Reopening, served) by {
        StepIsSafe(Sys(), Reopening);
      }
      NewGenerationIsFresh(Sys());
      if intake == Open {
        return Done;
      }
      var decision := ForReopenedIntake(state);
      if decision.Refuse? {
        return Rejected(Error.Lifecycle(decision.violation));
      }
      OpenNextGeneration();
      reply := Done;
    }

    method UnpublishForUpload() returns (reply: Reply)
      requires Valid()
      modifies this
      ensures Valid() && Outcome(View(), reply) == Unpublish(old(View()))
      ensures Fulfils(old(View()), Unpublishing, Outcome(View(), reply))
      ensures finalizing == old(finalizing)
      ensures View() != old(View()) ==>
        && NothingCurrent(Sys())
        && forall g :: g in finalizing ==> FinalizeCommit(View(), g).reply == Rejected(StaleGeneration)
    {
      hide Fulfils, LedgerInv, PublicationInv, NothingCurrent, FinalizeCommit;
      ghost var served := Unpublish(View());
      assert SafeInv(System(served.ledger, finalizing)) && Fulfils(View(), Unpublishing, served) by {
        StepIsSafe(Sys(), Unpublishing);
      }
      NewGenerationIsFresh(Sys());
      if state != Published {
        return Rejected(EventNotPublished);
      }
      OpenNextGeneration();
      reply := Done;
    }

    /** The first half of finalizing: a manifest for the current generation, unless there is one. */
    method PrepareManifest() returns (reply: Reply)
      requires Valid()
      modifies this`manifests, this`finalizing
      ensures Valid() && Outcome(View(), reply) == FinalizeBegin(old(View()))
      ensures Fulfils(old(View()), Step.Preparing, Outcome(View(), reply))
      ensures finalizing == old(finalizing) + (if old(StartsFinalizing(View())) then {generation} else {})
    {
      hide Fulfils, LedgerInv, PublicationInv, StoredOriginals, EveryOriginalTerminal;
      PreparingIsSafe(Sys());
      if intake != Closed {
        return Rejected(IntakeOpen);
      }
      if state == Processing && manifest == Some(generation) {
        return Done;
      }
      var decision := ForFinalizedIngestion(state);
      if decision.Refuse? {
        return Rejected(Error.Lifecycle(decision.violation));
      }
      if !EveryOriginalTerminal(Rows()) {
        return Rejected(ContributionsNotTerminal);
      }
      var stored := StoredOriginals(objects);
      if stored == {} {
        return Rejected(EmptyManifest);
      }
      if generation !in manifests {
        StoredOriginalsExist(objects);
        var bytes := SumUp(stored, Sizes(objects));
        manifests := manifests[generation := Manifest(Prepared, |stored|, bytes)];
      }
      finalizing := finalizing + {generation};
      reply := Done;
    }

    method MakeCurrent(g: nat)
      modifies this`manifest, this`state
      ensures EventRow() == old(EventRow()).(manifest := Some(g), state := Processing)
    {
      manifest := Some(g);
      state := Processing;
    }

    /** The second half, for the generation that was prepared. */
    method CommitManifest(g: nat) returns (reply: Reply)
      requires Valid() && g in finalizing
      modifies this`manifests, this`manifest, this`state
      ensures Valid() && Outcome(View(), reply) == FinalizeCommit(old(View()), g)
      ensures Fulfils(old(View()), Finalizing(g), Outcome(View(), reply))
      ensures reply == Done ==>
        && manifest == Some(g) && g == generation && g in manifests && manifests[g].state == Committed
        && manifests[g].assetCount == verifiedCount == reservedCount
        && manifests[g].originalBytes == verifiedBytes == reservedBytes
    {
      hide Fulfils, LedgerInv, PublicationInv;
      ghost var served := FinalizeCommit(View(), g);
      assert SafeInv(System(served.ledger, finalizing)) && Fulfils(View(), Finalizing(g), served) by {
        StepIsSafe(Sys(), Finalizing(g));
      }
      if FinalizeCommit(View(), g).reply == Done { CommittedTotals(Sys(), g); }
      if g !in manifests || intake != Closed || generation != g {
        return Rejected(StaleGeneration);
      }
      manifests := manifests[g := manifests[g].(state := Committed)];
      MakeCurrent(g);
      reply := Done;
    }

    method RegisterAssetDerivatives(
      a: AssetId, source: nat, observed: EventState, captured: Option<int>, preview: Spec, thumbnail: Spec)
      returns (reply: Reply)
      requires Valid()
      modifies this`assets, this`objects
      ensures Valid()
      ensures Outcome(View(), reply) == RegisterDerivatives(old(View()), a, source, observed, captured, preview, thumbnail)
      ensures Fulfils(old(View()), Registering(a, source, observed, captured, preview, thumbnail),
                      Outcome(View(), reply))
      ensures forall k :: k in old(objects) ==> k in objects && objects[k] == old(objects)[k]
      ensures reply == Done ==>
        && ObjectKey(a, Preview) in objects && objects[ObjectKey(a, Preview)].spec == preview
        && ObjectKey(a, Thumbnail) in objects && objects[ObjectKey(a, Thumbnail)].spec == thumbnail
        && RegisterDerivatives(View(), a, source, observed, captured, preview, thumbnail) == Outcome(View(), Done)
      ensures reply == Done ==>
        && a in old(assets) && a in assets && SameElsewhere(old(assets), assets, {a})
        && assets[a].captured == (if captured.Some? then captured else old(assets)[a].captured)
        && forall source, observed, other: Option<int>, p, q ::
             (other.Some? && assets[a].captured.Some? && other != assets[a].captured) ==>
             RegisterDerivatives(View(), a, source, observed, other, p, q).reply.Rejected?
    {
      hide Fulfils, LedgerInv, PublicationInv, InActiveSection, WithDerivatives, IsVerified;
      ghost var registered := RegisterDerivatives(View(), a, source, observed, captured, preview, thumbnail);
      assert
        && SafeInv(System(registered.ledger, finalizing))
        && Fulfils(View(), Registering(a, source, observed, captured, preview, thumbnail), registered)
      by {
        StepIsSafe(Sys(), Registering(a, source, observed, captured, preview, thumbnail));
      }
      RegistrationMeans(View(), a, source, observed, captured, preview, thumbnail);
      if registered.reply == Done { RegistrationSetsTime(View(), a, source, observed, captured, preview, thumbnail); }
      var p, q := ObjectKey(a, Preview), ObjectKey(a, Thumbnail);
      if !policy {
        return Rejected(PolicyNotConfirmed);
      }
      if a !in assets {
        return Rejected(AssetNotFound);
      }
      if !InActiveSection(Rows(), assets[a].batch) {
        return Rejected(SectionArchived);
      }
      if assets[a].sha != source {
        return Rejected(SourceMismatch);
      }
      if !IsVerified(Rows(), a, Original) {
        return Rejected(OriginalNotVerified);
      }
      if observed in {Published, Archived, Cancelled} {
        return Rejected(EventNotProcessing);
      }
      if captured.Some? && assets[a].captured.Some? && captured != assets[a].captured {
        return Rejected(DerivativeConflict);
      }
      if (p in objects && objects[p].spec != preview) || (q in objects && objects[q].spec != thumbnail) {
        return Rejected(DerivativeConflict);
      }
      StoreDerivatives(a, captured, preview, thumbnail);
      reply := Done;
    }

    /** A row that exists already stays as it is. */
    method AddObject(k: ObjectKey, spec: Spec)
      modifies this`objects
      ensures objects == if k in old(objects) then old(objects) else old(objects)[k := StoredObject(spec, Reserved, None)]
    {
      if k !in objects { objects := objects[k := StoredObject(spec, Reserved, None)]; }
    }

    method StoreDerivatives(a: AssetId, captured: Option<int>, preview: Spec, thumbnail: Spec)
      requires a in assets
      modifies this`assets, this`objects
      ensures Rows() == WithDerivatives(old(Rows()), a, captured, preview, thumbnail)
    {
      AddPair(a, preview, thumbnail);
      var asset := assets[a];
      if captured.Some? { asset := asset.(captured := captured); }
      assets := assets[a := asset.(derivativeFailed := false)];
    }

    method AddPair(a: AssetId, preview: Spec, thumbnail: Spec)
      modifies this`objects
      ensures objects == map[ObjectKey(a, Preview) := StoredObject(preview, Reserved, None),
                             ObjectKey(a, Thumbnail) := StoredObject(thumbnail, Reserved, None)] + old(objects)
    {
      AddObject(ObjectKey(a, Preview), preview);
      AddObject(ObjectKey(a, Thumbnail), thumbnail);
    }

    /** Writes the outcome of an inspection that was made before the row was locked. */
    method CommitDerivative(k: ObjectKey, matches: bool) returns (reply: Reply)
      requires Valid() && k.variant != Original
      modifies this`objects
      ensures Valid() <==> old(k in objects ==> objects[k].state != Excluded && !BreaksPair(View(), k, matches))
      ensures Outcome(View(), reply) == DerivativeCommit(old(View()), k, matches)
      ensures Fulfils(old(View()), CommittingDerivative(k, matches), Outcome(View(), reply))
      ensures k in objects ==> (objects[k].state == Verified <==> matches)
      ensures forall j :: j in objects && j != k ==> objects[j] == old(objects)[j]
    {
      hide Fulfils, LedgerInv, PublicationInv, BreaksPair;
      StepKeepsSafetyIff(Sys(), CommittingDerivative(k, matches));
      CommandFulfils(Sys(), CommittingDerivative(k, matches));
      if k !in objects {
        return Rejected(DerivativeNotFound);
      }
      objects := objects[k := objects[k].(state := if matches then Verified else Failed)];
      reply := if matches then Done else Rejected(DerivativeMismatch);
    }

    method FirstInOrder(t: Tables, photos: set<AssetId>) returns (first: AssetId)
      requires photos != {} && photos <= t.assets.Keys
      ensures first in photos && forall a :: a in photos ==> a == first || SortsBefore(t, first, a)
    {
      first :| first in photos;
      var left := photos - {first};
      while left != {}
        invariant left <= photos && first in photos - left
        invariant forall a :: a in photos - left ==> a == first || SortsBefore(t, first, a)
        decreases left
      {
        var a :| a in left;
        SortIsTotal(t, a, first);
        forall x | x in photos - left && SortsBefore(t, first, x)
          ensures SortsBefore(t, a, first) ==> SortsBefore(t, a, x)
        {
          SortIsTotal(t, first, x);
        }
        if SortsBefore(t, a, first) { first := a; }
        left := left - {a};
      }
    }

    /** Numbers the photos from 1 on, in the order of capture time, filename and id. */
    method AssignPositions(photos: set<AssetId>)
      requires photos == VisiblePhotos(Rows())
      modifies this`assets
      ensures assets == Positioned(old(Rows()))
    {
      hide IsVisible, SortsBefore, Rank, Positioned;
      var t := Rows();
      var left, position := photos, 1;
      VisibleAreKnown(t);
      NobodyPositioned(t);
      while left != {}
        invariant left <= photos && position == |photos - left| + 1
        invariant forall a, b :: a in photos - left && b in left ==> SortsBefore(t, a, b)
        invariant assets == PositionedSome(t, photos - left)
        decreases left
      {
        var first := FirstInOrder(t, left);
        NextRank(t, photos, left, first);
        assets := assets[first := assets[first].(position := Some(position))];
        assert photos - (left - {first}) == (photos - left) + {first};
        left := left - {first};
        position := position + 1;
      }
      assert photos - left == photos;
      EveryonePositioned(t);
    }

    method WriteDerivativeReadiness() returns (ready: bool)
      modifies this`assets, this`derivativesReady, this`state
      ensures Outcome(View(), Done) == RefreshDerivatives(old(View()))
      ensures ready <==>
        && old(CurrentManifest(View())) && old(VisiblePhotos(Rows())) != {}
        && |old(VerifiedDerivatives(Rows(), VisiblePhotos(Rows())))| == 2 * |old(VisiblePhotos(Rows()))|
    {
      hide VisiblePhotos, VerifiedDerivatives, Positioned;
      if !(manifest == Some(generation) && generation in manifests && manifests[generation].state == Committed) {
        return false;
      }
      var photos := VisiblePhotos(Rows());
      if photos == {} {
        derivativesReady := None;
        return false;
      }
      if |VerifiedDerivatives(Rows(), photos)| != |photos| * 2 {
        derivativesReady := None;
        state := ForDerivativeReadiness(state, false);
        return false;
      }
      AssignPositions(photos);
      derivativesReady := Some(generation);
      state := ForDerivativeReadiness(state, true);
      ready := true;
    }

    method RefreshDerivativeReadiness() returns (ready: bool)
      requires Valid()
      modifies this`assets, this`derivativesReady, this`state
      ensures Valid() && Outcome(View(), Done) == RefreshDerivatives(old(View()))
      ensures Fulfils(old(View()), RefreshingDerivatives, Outcome(View(), Done))
      ensures ready <==>
        && CurrentManifest(View()) && old(VisiblePhotos(Rows())) != {}
        && forall a :: a in old(VisiblePhotos(Rows())) ==> old(HasPair(Rows(), a))
    {
      hide Fulfils, SafeInv, RefreshDerivatives, VisiblePhotos, VerifiedDerivatives, HasPair;
      ghost var served := RefreshDerivatives(View());
      assert SafeInv(System(served.ledger, finalizing)) && Fulfils(View(), RefreshingDerivatives, served) by {
        StepIsSafe(Sys(), RefreshingDerivatives);
      }
      PairGate(Rows(), VisiblePhotos(Rows()));
      ready := WriteDerivativeReadiness();
    }

    method RefreshFaceReadiness() returns (ready: bool)
      requires Valid()
      modifies this`facesReady
      ensures Valid() && Outcome(View(), Done) == RefreshFaces(old(View()))
      ensures Fulfils(old(View()), RefreshingFaces, Outcome(View(), Done))
      ensures ready <==>
        && CurrentManifest(View()) && VisiblePhotos(Rows()) != {}
        && forall a :: a in VisiblePhotos(Rows()) ==> HasFaces(Rows(), faceModel, a)
    {
      hide Fulfils, LedgerInv, PublicationInv, VisiblePhotos, AnalysedPhotos, HasFaces;
      ghost var served := RefreshFaces(View());
      assert SafeInv(System(served.ledger, finalizing)) && Fulfils(View(), RefreshingFaces, served) by {
        StepIsSafe(Sys(), RefreshingFaces);
      }
      FaceReadinessMeans(View());
      var photos := VisiblePhotos(Rows());
      ready := manifest == Some(generation) && generation in manifests && manifests[generation].state == Committed
               && photos != {} && |AnalysedPhotos(Rows(), faceModel, photos)| == |photos|;
      facesReady := if ready then Some(generation) else None;
    }

    method StoreFace(a: AssetId, face: Face)
      modifies this`faces, this`facesReady
      ensures View() == SetFace(old(View()), a, face)
    {
      faces := faces[a := face];
      facesReady := None;
    }

    method SubmitFaceAnalysis(a: AssetId, section: SectionId, d: FaceDocument) returns (reply: Reply)
      requires Valid()
      modifies this`faces, this`facesReady
      ensures Valid() && Outcome(View(), reply) == SubmitFace(old(View()), a, section, d)
      ensures Fulfils(old(View()), SubmittingFace(a, section, d), Outcome(View(), reply))
      ensures reply == Done ==>
        && IsAnalysed(Rows(), a) && faces[a].document == Some(d.document)
        && SubmitFace(View(), a, section, d) == Outcome(View(), Done)
      ensures old(IsAnalysed(Rows(), a)) && old(faces)[a].document != Some(d.document) ==> reply != Done
      ensures View() != old(View()) ==> facesReady.None?
    {
      hide Fulfils, LedgerInv, PublicationInv, InActiveSection, IsVerified, SetFace, IsAnalysed;
      ghost var served := SubmitFace(View(), a, section, d);
      assert SafeInv(System(served.ledger, finalizing)) && Fulfils(View(), SubmittingFace(a, section, d), served) by {
        StepIsSafe(Sys(), SubmittingFace(a, section, d));
      }
      SubmissionMeans(View(), a, section, d);
      var allowed := ProcessingAllowed(View(), a, section);
      if allowed.Rejected? {
        return allowed;
      }
      if d.model != faceModel {
        return Rejected(ModelMismatch);
      }
      if d.source != assets[a].sha {
        return Rejected(SourceMismatch);
      }
      var analysed := Face(if d.hasUsableFace then Indexed else NoUsableFace, d.source, d.model, Some(d.document), 1);
      if a !in faces {
        StoreFace(a, analysed);
        return Done;
      }
      var face := faces[a];
      if face.state in {Indexed, NoUsableFace} {
        if face.document == Some(d.document) {
          return Done;
        }
        StoreFace(a, face.(state := Conflict, attempts := face.attempts + 1));
        return Rejected(FaceConflict);
      }
      if face.state == Conflict {
        return Rejected(FaceConflict);
      }
      if face.attempts >= MAX_ATTEMPTS {
        return Rejected(FaceAttemptsExhausted);
      }
      StoreFace(a, analysed.(attempts := face.attempts + 1));
      reply := Done;
    }

    method ReportFaceAnalysisFailure(a: AssetId, section: SectionId) returns (reply: Reply)
      requires Valid()
      modifies this`faces, this`facesReady
      ensures Valid() && Outcome(View(), reply) == ReportFaceFailure(old(View()), a, section)
      ensures Fulfils(old(View()), ReportingFace(a, section), Outcome(View(), reply))
      ensures old(IsAnalysed(Rows(), a)) ==> View() == old(View())
      ensures View() != old(View()) ==>
        && a in faces && faces[a].state == FaceFailed && 1 <= faces[a].attempts <= MAX_ATTEMPTS && facesReady.None?
    {
      hide Fulfils, LedgerInv, PublicationInv, InActiveSection, IsVerified, SetFace, IsAnalysed;
      ghost var served := ReportFaceFailure(View(), a, section);
      assert SafeInv(System(served.ledger, finalizing)) && Fulfils(View(), ReportingFace(a, section), served) by {
        StepIsSafe(Sys(), ReportingFace(a, section));
      }
      FailureMeans(View(), a, section);
      var allowed := ProcessingAllowed(View(), a, section);
      if allowed.Rejected? {
        return allowed;
      }
      var face := if a in faces then faces[a] else Face(Pending, assets[a].sha, faceModel, None, 0);
      if face.state in {Indexed, NoUsableFace} {
        return Done;
      }
      if face.state == Conflict {
        return Rejected(FaceConflict);
      }
      if face.attempts < MAX_ATTEMPTS {
        StoreFace(a, face.(state := FaceFailed, attempts := face.attempts + 1));
      }
      reply := Done;
    }

    method ResetFaceAnalysis(a: AssetId) returns (reply: Reply)
      requires Valid()
      modifies this`faces, this`facesReady
      ensures Valid() && Outcome(View(), reply) == ResetFace(old(View()), a)
      ensures Fulfils(old(View()), ResettingFace(a), Outcome(View(), reply))
      ensures reply == Done ==> a in assets && !IsAnalysed(Rows(), a) && facesReady.None?
      ensures reply == Done ==>
        forall section, d: FaceDocument ::
          (d.model == faceModel && d.source == assets[a].sha && ProcessingAllowed(View(), a, section) == Done)
          ==> SubmitFace(View(), a, section, d).reply == Done
    {
      hide Fulfils, LedgerInv, PublicationInv, SubmitFace, ProcessingAllowed;
      ghost var served := ResetFace(View(), a);
      assert SafeInv(System(served.ledger, finalizing)) && Fulfils(View(), ResettingFace(a), served) by {
        StepIsSafe(Sys(), ResettingFace(a));
      }
      ResetMeans(View(), a);
      if state in {Published, Archived, Cancelled} {
        return Rejected(EventNotProcessing);
      }
      if a !in faces || a !in assets {
        return Rejected(FaceNotFound);
      }
      StoreFace(a, Face(Pending, assets[a].sha, faceModel, None, 0));
      reply := Done;
    }

    /** Readiness has to be granted again. */
    method ClearReadiness()
      modifies this`derivativesReady, this`facesReady
      ensures EventRow() == old(EventRow()).(derivativesReady := None, facesReady := None)
    {
      derivativesReady := None;
      facesReady := None;
    }

    /** Hides a photo or shows it again; either way it has no position. */
    method SetHidden(a: AssetId, value: bool)
      requires a in assets
      modifies this`assets
      ensures Rows() == old(Rows()).(assets := old(assets)[a := old(assets)[a].(hidden := value, position := None)])
    {
      assets := assets[a := assets[a].(hidden := value, position := None)];
    }

    method ExcludeFromGallery(a: AssetId) returns (reply: Reply)
      requires Valid()
      modifies this`assets, this`derivativesReady, this`facesReady
      ensures Valid() && Outcome(View(), reply) == HidePhoto(old(View()), a)
      ensures Fulfils(old(View()), Hiding(a), Outcome(View(), reply))
      ensures VisiblePhotos(Rows()) == old(VisiblePhotos(Rows())) - (if reply == Done then {a} else {})
      ensures View() != old(View()) ==> derivativesReady.None? && facesReady.None?
    {
      hide Fulfils, LedgerInv, PublicationInv, RetriesExhausted, VisiblePhotos;
      ghost var served := HidePhoto(View(), a);
      assert SafeInv(System(served.ledger, finalizing)) && Fulfils(View(), Hiding(a), served) by {
        StepIsSafe(Sys(), Hiding(a));
      }
      HidingMeans(View(), a);
      if state !in {Uploading, Processing, Review} {
        return Rejected(EventNotReviewable);
      }
      if a !in assets {
        return Rejected(AssetNotFound);
      }
      if assets[a].hidden {
        return Done;
      }
      if !RetriesExhausted(Rows(), a) {
        return Rejected(RetriesRemaining);
      }
      SetHidden(a, true);
      ClearReadiness();
      reply := Done;
    }

    /** An event under review goes back to processing when readiness is taken away. */
    method AwaitReadiness()
      modifies this`derivativesReady, this`facesReady, this`state
      ensures EventRow() == old(EventRow()).(
        derivativesReady := None, facesReady := None, state := ForDerivativeReadiness(old(state), false))
    {
      ClearReadiness();
      state := ForDerivativeReadiness(state, false);
    }

    method WriteRestored(a: AssetId) returns (reply: Reply)
      modifies this`assets, this`derivativesReady, this`facesReady, this`state
      ensures Outcome(View(), reply) == RestorePhoto(old(View()), a)
    {
      hide ForDerivativeReadiness;
      if state !in {Uploading, Processing, Review} {
        return Rejected(EventNotReviewable);
      }
      if a !in assets {
        return Rejected(AssetNotFound);
      }
      if !assets[a].hidden {
        return Done;
      }
      SetHidden(a, false);
      AwaitReadiness();
      reply := Done;
    }

    method RestoreToGallery(a: AssetId) returns (reply: Reply)
      requires Valid()
      modifies this`assets, this`derivativesReady, this`facesReady, this`state
      ensures Valid() && Outcome(View(), reply) == RestorePhoto(old(View()), a)
      ensures Fulfils(old(View()), Restoring(a), Outcome(View(), reply))
      ensures VisiblePhotos(Rows()) - {a} == old(VisiblePhotos(Rows())) - {a}
      ensures reply == Done ==>
        && a in assets
        && (a in VisiblePhotos(Rows()) <==> InActiveSection(Rows(), assets[a].batch) && IsVerified(Rows(), a, Original))
      ensures View() != old(View()) ==> derivativesReady.None? && facesReady.None? && state != Review
    {
      hide Fulfils, SafeInv, RestorePhoto, VisiblePhotos, InActiveSection, IsVerified;
      ghost var served := RestorePhoto(View(), a);
      assert SafeInv(System(served.ledger, finalizing)) && Fulfils(View(), Restoring(a), served) by {
        StepIsSafe(Sys(), Restoring(a));
      }
      RestoringMeans(View(), a);
      reply := WriteRestored(a);
    }

    method SetSectionArchived(section: SectionId, value: bool) returns (reply: Reply)
      requires Valid()
      modifies this`archived, this`derivativesReady, this`facesReady
      ensures Valid() && Outcome(View(), reply) == SetArchived(old(View()), section, value)
      ensures Fulfils(old(View()), Archiving(section, value), Outcome(View(), reply))
      ensures forall a :: (a in VisiblePhotos(Rows()) && !InSection(Rows(), a, section)) <==>
        (a in old(VisiblePhotos(Rows())) && !InSection(Rows(), a, section))
      ensures reply == Done ==>
        forall a :: InSection(Rows(), a, section) ==>
          a in assets && (a in VisiblePhotos(Rows()) <==> !value && !assets[a].hidden && IsVerified(Rows(), a, Original))
      ensures View() != old(View()) ==> derivativesReady.None? && facesReady.None?
    {
      hide Fulfils, LedgerInv, PublicationInv, VisiblePhotos, IsVerified, InSection;
      ghost var served := SetArchived(View(), section, value);
      assert SafeInv(System(served.ledger, finalizing)) && Fulfils(View(), Archiving(section, value), served) by {
        StepIsSafe(Sys(), Archiving(section, value));
      }
      ArchivingMeans(View(), section, value);
      if state in {Published, Archived, Cancelled} {
        return Rejected(StructureLocked);
      }
      if section !in archived {
        return Rejected(SectionNotFound);
      }
      if archived[section] == value {
        return Done;
      }
      archived := archived[section := value];
      ClearReadiness();
      reply := Done;
    }

    /** Readiness stays as it is. */
    method ReassignContribution(b: BatchId, section: SectionId) returns (reply: Reply)
      requires Valid()
      modifies this`batches
      ensures Valid() <==> !ShowsUnready(old(View()), b, section)
      ensures Outcome(View(), reply) == Reassign(old(View()), b, section)
      ensures Fulfils(old(View()), Reassigning(b, section), Outcome(View(), reply))
      ensures reply == Done ==>
        && InActiveSection(Rows(), b)
        && forall a :: a in VisiblePhotos(Rows()) <==>
             || a in old(VisiblePhotos(Rows()))
             || (InBatch(Rows(), a, b) && !assets[a].hidden && IsVerified(Rows(), a, Original))
    {
      hide Fulfils, LedgerInv, PublicationInv, VisiblePhotos, ShowsUnready;
      StepKeepsSafetyIff(Sys(), Reassigning(b, section));
      CommandFulfils(Sys(), Reassigning(b, section));
      ReassigningMeans(View(), b, section);
      if state in {Published, Archived, Cancelled} {
        return Rejected(StructureLocked);
      }
      if !(section in archived && !archived[section]) {
        return Rejected(SectionNotFound);
      }
      if b !in batches {
        return Rejected(BatchNotFound);
      }
      batches := batches[b := batches[b].(section := section)];
      reply := Done;
    }

    method WriteTransition(target: EventState, expiryIsFuture: bool) returns (reply: Reply)
      modifies this`state
      ensures Outcome(View(), reply) == Transition(old(View()), target, expiryIsFuture)
    {
      hide ForManualTransition, HasActiveSection;
      var current :=
        if manifest.Some? && manifest.value in manifests
        then Some((manifests[manifest.value].state, manifest.value)) else None;
      var decision := ForManualTransition(state, target,
        Facts(intake, generation, current, expiryIsFuture, derivativesReady, facesReady, policy, HasActiveSection(Rows())));
      if decision.Refuse? {
        return Rejected(Error.Lifecycle(decision.violation));
      }
      state := decision.state;
      reply := Done;
    }

    method TransitionEvent(target: EventState, expiryIsFuture: bool) returns (reply: Reply)
      requires Valid()
      modifies this`state
      ensures Valid() && Outcome(View(), reply) == Transition(old(View()), target, expiryIsFuture)
      ensures Fulfils(old(View()), Transitioning(target, expiryIsFuture), Outcome(View(), reply))
      ensures reply == Done ==> state == target && CanTransition(old(state), target)
      ensures target == Published ==>
        (reply == Done <==>
           old(state == Published || (state in {Review, Archived} && expiryIsFuture && HasEvidence(View()))))
      ensures IsPublic(EventRow()) ==>
        && VisiblePhotos(Rows()) == GalleryPhotos(Rows())
        && forall a :: a in VisiblePhotos(Rows()) ==> HasPair(Rows(), a) && HasFaces(Rows(), faceModel, a)
    {
      hide Fulfils, SafeInv, Transition, VisiblePhotos, GalleryPhotos, HasPair, HasFaces, HasEvidence, CanTransition,
           IsPublic;
      TransitionIsSafe(Sys(), target, expiryIsFuture);
      TransitionMeans(View(), target, expiryIsFuture);
      reply := WriteTransition(target, expiryIsFuture);
    }

    method DeleteMedia()
      modifies this`objects, this`faces, this`assets, this`batches
      ensures Rows() == old(Rows()).(
        objects := map[], faces := map[], assets := Redacted(old(assets)), batches := Forgotten(old(batches)))
    {
      hide Redacted, Forgotten;
      objects := map[];
      faces := map[];
      assets := Redacted(assets);
      batches := Forgotten(batches);
    }

    method ForgetEvent()
      modifies this`policy, this`manifest, this`derivativesReady, this`facesReady, this`reservedBytes,
               this`reservedCount, this`verifiedBytes, this`verifiedCount
      ensures EventRow() == old(EventRow()).(
        policy := false, manifest := None, derivativesReady := None, facesReady := None,
        reservedBytes := 0, reservedCount := 0, verifiedBytes := 0, verifiedCount := 0)
    {
      policy, manifest, derivativesReady, facesReady := false, None, None, None;
      reservedBytes, reservedCount, verifiedBytes, verifiedCount := 0, 0, 0, 0;
    }

    method DeleteRecords()
      modifies this
      ensures View() == Purge(old(View())).ledger && finalizing == old(finalizing)
    {
      hide Redacted, Forgotten;
      DeleteMedia();
      manifests := map[];
      ForgetEvent();
    }

    /** Deletes the media records and zeroes the counters. */
    method PurgeRecords()
      requires Valid()
      modifies this
      ensures Valid() && Outcome(View(), Done) == Purge(old(View()))
      ensures Fulfils(old(View()), Step.Purging, Outcome(View(), Done))
      ensures finalizing == old(finalizing)
      ensures VisiblePhotos(Rows()) == {} && HeldOriginals(objects) == {}
      ensures reservedBytes == verifiedBytes == 0 && reservedCount == verifiedCount == 0
      ensures forall c: Contribution :: c.items != map[] && c.batch in old(batches) ==> Reserve(View(), c).ledger == View()
    {
      hide Fulfils, LedgerInv, PublicationInv, VisiblePhotos, HeldOriginals, Reserve;
      ghost var served := Purge(View());
      assert SafeInv(System(served.ledger, finalizing)) && Fulfils(View(), Step.Purging, served) by {
        StepIsSafe(Sys(), Step.Purging);
      }
      PurgeMeans(View());
      DeleteRecords();
    }
  }

  /** A step that cannot do harm leads to a safe system and does what its caller may rely on. */
  lemma StepIsSafe(sys: System, step: Step)
    requires SafeInv(sys) && Enabled(sys, step)
    requires !step.CommittingDerivative? && !step.Reassigning? && !step.Preparing?
    ensures SafeInv(System(Execute(sys.ledger, step).ledger, sys.finalizing))
    ensures Fulfils(sys.ledger, step, Execute(sys.ledger, step))
  {
    hide LedgerInv, PublicationInv, Execute, Fulfils;
    OrdinaryStepKeepsSafety(sys, step);
    CommandFulfils(sys, step);
  }

  lemma PreparingIsSafe(sys: System)
    requires SafeInv(sys)
    ensures
      var prepared := FinalizeBegin(sys.ledger).ledger;
      SafeInv(System(prepared,
        if StartsFinalizing(sys.ledger) then sys.finalizing + {sys.ledger.event.generation} else sys.finalizing))
    ensures Fulfils(sys.ledger, Step.Preparing, FinalizeBegin(sys.ledger))
  {
    hide Fulfils, LedgerInv, PublicationInv, FinalizeBegin, StartsFinalizing;
    OrdinaryStepKeepsSafety(sys, Step.Preparing);
    CommandFulfils(sys, Step.Preparing);
  }

  lemma WholeWhenPublic(sys: System)
    requires SafeInv(sys)
    ensures IsPublic(sys.ledger.event) ==>
      && VisiblePhotos(sys.ledger.rows) == GalleryPhotos(sys.ledger.rows)
      && forall a :: a in VisiblePhotos(sys.ledger.rows) ==>
           HasPair(sys.ledger.rows, a) && HasFaces(sys.ledger.rows, sys.ledger.event.faceModel, a)
  {
    hide LedgerInv, PublicationInv, VisiblePhotos, GalleryPhotos, HasPair, HasFaces, IsPublic;
    if IsPublic(sys.ledger.event) { PublicIsWhole(sys); }
  }

  lemma TransitionIsSafe(sys: System, target: EventState, expiryIsFuture: bool)
    requires SafeInv(sys)
    ensures
      var next := System(Transition(sys.ledger, target, expiryIsFuture).ledger, sys.finalizing);
      && SafeInv(next)
      && Fulfils(sys.ledger, Transitioning(target, expiryIsFuture), Transition(sys.ledger, target, expiryIsFuture))
      && (IsPublic(next.ledger.event) ==>
            && VisiblePhotos(next.ledger.rows) == GalleryPhotos(next.ledger.rows)
            && forall a :: a in VisiblePhotos(next.ledger.rows) ==>
                 HasPair(next.ledger.rows, a) && HasFaces(next.ledger.rows, next.ledger.event.faceModel, a))
  {
    hide Fulfils, SafeInv, Transition, VisiblePhotos, GalleryPhotos, HasPair, HasFaces, IsPublic;
    StepIsSafe(sys, Transitioning(target, expiryIsFuture));
    WholeWhenPublic(System(Transition(sys.ledger, target, expiryIsFuture).ledger, sys.finalizing));
  }

  lemma BatchObjectsExist(t: Tables, b: BatchId)
    ensures BatchObjects(t, b) <= t.objects.Keys && Releasable(t, b) <= t.objects.Keys
  {}

  lemma DroppedObjectsExist(t: Tables)
    ensures DroppedObjects(t) <= t.objects.Keys
  {}

  lemma StoredOriginalsExist(objects: map<ObjectKey, StoredObject>)
    ensures StoredOriginals(objects) <= objects.Keys
  {}

  lemma VisibleAreKnown(t: Tables)
    ensures VisiblePhotos(t) <= t.assets.Keys
  {}

  /** The photos of `done` have their ranks as positions; the others are as they were. */
  function PositionedSome(t: Tables, done: set<AssetId>): map<AssetId, Asset> {
    map a | a in t.assets :: if a in done then t.assets[a].(position := Some(Rank(t, a))) else t.assets[a]
  }

  lemma NobodyPositioned(t: Tables)
    ensures PositionedSome(t, {}) == t.assets
  {}

  lemma EveryonePositioned(t: Tables)
    ensures PositionedSome(t, VisiblePhotos(t)) == Positioned(t)
  {}

  /** The first photo that is left has as many before it as were numbered. */
  lemma NextRank(t: Tables, photos: set<AssetId>, left: set<AssetId>, first: AssetId)
    requires photos == VisiblePhotos(t) && left <= photos && first in left
    requires forall a, b :: a in photos - left && b in left ==> SortsBefore(t, a, b)
    requires forall a :: a in left ==> a == first || SortsBefore(t, first, a)
    ensures Rank(t, first) == |photos - left| + 1
    ensures PositionedSome(t, (photos - left) + {first})
         == PositionedSome(t, photos - left)[first := t.assets[first].(position := Some(Rank(t, first)))]
    ensures forall a, b :: a in (photos - left) + {first} && b in left - {first} ==> SortsBefore(t, a, b)
  {
    hide IsVisible;
    forall a | a in photos ensures SortsBefore(t, a, first) <==> a in photos - left {
      SortIsTotal(t, first, a);
    }
    assert Sooner(t, first) == photos - left;
  }
}
