/** What the invariants buy: conservation, charging once, manifests that stay, and a gallery that stays whole. */
module LedgerGuarantees {
  import opened Prelude
  import opened Tallies
  import opened Lifecycle
  import opened Ledger
  import opened LedgerInvariant
  import opened LedgerSteps
  import opened Publication
  import opened PublicationSteps
  import opened LedgerRuns

  // ------------------------------------------------------------- conservation

  /** In every state of every clean run of a new event the counters equal the sums over its objects. */
  lemma RunConserves(sys: System, steps: seq<Step>)
    requires Initial(sys) && CleanRun(sys, steps)
    ensures
      var e, objects := Run(sys, steps).ledger.event, Run(sys, steps).ledger.rows.objects;
      && e.reservedBytes == Total(HeldOriginals(objects), Sizes(objects)) && e.reservedCount == |HeldOriginals(objects)|
      && e.verifiedBytes == Total(StoredOriginals(objects), Sizes(objects)) && e.verifiedCount == |StoredOriginals(objects)|
      && e.verifiedBytes <= e.reservedBytes <= e.byteLimit
      && e.verifiedCount <= e.reservedCount <= EVENT_ORIGINAL_ASSET_LIMIT
  {
    hide Total, Structured, PublicationInv, Execute, RevivesExcluded, Initial;
    InitialIsSafe(sys);
    RunKeepsLedger(sys, steps);
    CountedIsWithinConstraints(Run(sys, steps).ledger.event, Run(sys, steps).ledger.rows.objects);
  }

  /** In every state of every clean run of a new event, while a contribution's objects are on record: it is in
      flight exactly when one of its originals is neither verified nor excluded, and its state tells what its
      objects are. */
  lemma RunTellsBatchStates(sys: System, steps: seq<Step>, b: BatchId)
    requires Initial(sys) && CleanRun(sys, steps)
    requires
      var t := Run(sys, steps).ledger.rows;
      b in t.batches && exists a :: InBatch(t, a, b) && HasObject(t, a, Original)
    ensures
      var t := Run(sys, steps).ledger.rows;
      && (t.batches[b].state == InFlight <==> exists a :: InBatch(t, a, b) && IsPending(t, a))
      && (t.batches[b].state == Complete ==> forall a :: InBatch(t, a, b) ==> HasObject(t, a, Original) && !IsPending(t, a))
      && (t.batches[b].state in {NotIncluded, Withdrawn} ==>
            forall k :: k in BatchObjects(t, b) ==> t.objects[k].state == Excluded)
      && (forall k :: k in BatchObjects(t, b) && k.variant != Original && t.objects[k].state != Excluded ==>
            IsVerified(t, k.asset, Original))
  {
    hide Total, Structured, Counted, PublicationInv, Execute, RevivesExcluded, Initial;
    InitialIsSafe(sys);
    RunKeepsLedger(sys, steps);
    BatchStateTells(Run(sys, steps).ledger.rows, b);
  }

  /** In every state of every harmless run of a new event: a readiness flag that is set names the current
      generation and every visible photo has what it promises; a current manifest is the committed one of the
      current generation; and a public gallery is whole. */
  lemma RunKeepsPromises(sys: System, steps: seq<Step>)
    requires Initial(sys) && HarmlessRun(sys, steps)
    ensures
      var s := Run(sys, steps).ledger;
      var e, t := s.event, s.rows;
      && (e.derivativesReady.Some? ==>
            e.derivativesReady.value == e.generation && forall a :: a in VisiblePhotos(t) ==> HasPair(t, a))
      && (e.facesReady.Some? ==>
            e.facesReady.value == e.generation && forall a :: a in VisiblePhotos(t) ==> HasFaces(t, e.faceModel, a))
      && (e.manifest.Some? ==>
            && e.manifest.value == e.generation && e.generation in s.manifests
            && s.manifests[e.generation].state == Committed)
      && (IsPublic(e) ==>
            forall a :: a in VisiblePhotos(t) ==> HasPair(t, a) && HasFaces(t, e.faceModel, a))
  {
    hide LedgerInv, Execute, Harmless, Initial, HasPair, HasFaces, IsVisible, EveryOriginalTerminal;
    InitialIsSafe(sys);
    RunIsSafe(sys, steps);
  }

  lemma VerifyIsNeverRefused(s: Ledger, a: AssetId, head: Spec)
    requires LedgerInv(s)
    ensures VerifyCommit(s, a, head).reply != Rejected(ConstraintViolated)
  {
    hide Total, Structured, CompleteIfTerminal;
    var e, objects, k := s.event, s.rows.objects, ObjectKey(a, Original);
    if k in objects && objects[k].state in {Reserved, Failed} {
      var held, stored := HeldOriginals(objects), StoredOriginals(objects);
      var e' := e.(verifiedBytes := e.verifiedBytes + objects[k].spec.bytes, verifiedCount := e.verifiedCount + 1);
      TalliedAfterVerifying(e, held, stored, Sizes(objects), k, e');
      TalliedIsWithinConstraints(e', held, stored + {k}, Sizes(objects));
    }
  }

  lemma LeavingStaysWithinConstraints(e: Event, held: set<ObjectKey>, stored: set<ObjectKey>, sizes: map<ObjectKey, nat>,
                                      gone: set<ObjectKey>, e': Event)
    requires Tallied(e, held, stored, sizes) && stored <= held && gone <= held
    requires e'.byteLimit == e.byteLimit
    requires e'.reservedBytes == e.reservedBytes - Total(gone, sizes)
    requires e'.reservedCount == e.reservedCount - |gone|
    requires e'.verifiedBytes == e.verifiedBytes - Total(gone * stored, sizes)
    requires e'.verifiedCount == e.verifiedCount - |gone * stored|
    ensures WithinConstraints(e')
  {
    hide Total;
    TalliedAfterLeaving(e, held, stored, sizes, gone, e');
    TalliedIsWithinConstraints(e', held - gone, stored - gone, sizes);
  }

  lemma ExclusionIsNeverRefused(s: Ledger, a: AssetId, now: nat, storeAnswers: bool)
    requires LedgerInv(s)
    ensures ExcludeAsset(s, a, now, storeAnswers).reply != Rejected(ConstraintViolated)
  {
    hide Total, Structured, CompleteIfTerminal;
    var e, objects, k := s.event, s.rows.objects, ObjectKey(a, Original);
    if k in objects && objects[k].state in {Reserved, Failed} {
      var held, stored := HeldOriginals(objects), StoredOriginals(objects);
      SmallTotals(k, Sizes(objects));
      assert {k} * stored == {};
      LeavingStaysWithinConstraints(e, held, stored, Sizes(objects), {k},
        e.(reservedBytes := e.reservedBytes - objects[k].spec.bytes, reservedCount := e.reservedCount - 1));
    }
  }

  lemma CancellationIsNeverRefused(s: Ledger, b: BatchId, now: nat, storeAnswers: bool)
    requires LedgerInv(s)
    ensures CancelBatch(s, b, now, storeAnswers).reply != Rejected(ConstraintViolated)
  {
    hide Total, Structured, WithdrawnBatch, Releasable, LeaseIsActive, WithinConstraints, BatchObjects;
    var e, t := s.event, s.rows;
    if CancelBatch(s, b, now, storeAnswers).reply == Rejected(ConstraintViolated) {
      var held, stored, gone := HeldOriginals(t.objects), StoredOriginals(t.objects), Releasable(t, b);
      ReleasableAreHeldOriginals(t, b);
      assert gone * stored == {};
      EmptyTotal(Sizes(t.objects));
      LeavingStaysWithinConstraints(e, held, stored, Sizes(t.objects), gone,
        e.(reservedBytes := e.reservedBytes - Total(gone, Sizes(t.objects)), reservedCount := e.reservedCount - |gone|));
    }
  }

  lemma PublicationIsNeverRefused(s: Ledger, storeAccepts: bool)
    requires LedgerInv(s)
    ensures Publish(s, storeAccepts).reply != Rejected(ConstraintViolated)
  {
    hide Total, Structured, WithoutUnfinished, IncludedPhotos, VerifiedDerivatives, AnalysedPhotos, HasActiveSection,
         StoredIn, PublishableBatches, DroppedObjects;
    var e, t := s.event, s.rows;
    if Publish(s, storeAccepts).reply == Rejected(ConstraintViolated) {
      var held, stored := HeldOriginals(t.objects), StoredOriginals(t.objects);
      var gone := DroppedObjects(t) * held;
      assert gone * stored == DroppedObjects(t) * stored;
      LeavingStaysWithinConstraints(e, held, stored, Sizes(t.objects), gone,
        e.(reservedBytes := e.reservedBytes - Total(gone, Sizes(t.objects)), reservedCount := e.reservedCount - |gone|,
           verifiedBytes := e.verifiedBytes - Total(gone * stored, Sizes(t.objects)),
           verifiedCount := e.verifiedCount - |gone * stored|));
    }
  }

  lemma ReservationIsNeverRefused(s: Ledger, c: Contribution)
    requires LedgerInv(s) && c.items != map[]
    ensures Reserve(s, c).reply != Rejected(ConstraintViolated)
  {
    hide Total, Structured, WithContribution;
    CountedIsWithinConstraints(s.event, s.rows.objects);
  }

  lemma OthersAreNotRefused(s: Ledger, step: Step)
    requires !step.Reserving? && !step.Verifying? && !step.Excluding? && !step.Cancelling? && !step.Publishing?
    requires step.CommittingDerivative? ==> step.key.variant != Original
    ensures Execute(s, step).reply != Rejected(ConstraintViolated)
  {
    hide HasActiveSection, EveryOriginalTerminal, VisiblePhotos, VerifiedDerivatives, AnalysedPhotos, Positioned, Leased,
         InActiveSection, IsVerified, WithDerivatives, RetriesExhausted, StoredOriginals, OriginalsManifest,
         ForManualTransition, WithObject;
  }

  /** No transaction ever relies on the database's CHECK constraints: while the counters are right none is refused by them. */
  lemma NeverRefusedByTheDatabase(sys: System, step: Step)
    requires LedgerInv(sys.ledger) && Enabled(sys, step)
    ensures Execute(sys.ledger, step).reply != Rejected(ConstraintViolated)
  {
    hide LedgerInv, Reserve, VerifyCommit, ExcludeAsset, CancelBatch, Publish;
    var s := sys.ledger;
    match step
    case Reserving(c) => ReservationIsNeverRefused(s, c);
    case Verifying(a, head) => VerifyIsNeverRefused(s, a, head);
    case Excluding(a, now, answers) => ExclusionIsNeverRefused(s, a, now, answers);
    case Cancelling(b, now, answers) => CancellationIsNeverRefused(s, b, now, answers);
    case Publishing(accepts) => PublicationIsNeverRefused(s, accepts);
    case _ => {
      hide Execute;
      OthersAreNotRefused(s, step);
    }
  }

  // ------------------------------------------------------------- charging once

  /** A photo that was recorded and waits for nothing. */
  predicate Settled(t: Tables, a: AssetId) {
    a in t.assets && !IsPending(t, a)
  }

  /** What is verified stays so unless publication excludes it, and what is excluded stays excluded. */
  predicate Advances(before: ObjectState, now: ObjectState) {
    (before == Verified ==> now in {Verified, Excluded}) && (before == Excluded ==> now == Excluded)
  }

  /** Settled photos stay settled, recorded contributions stay recorded, and originals only advance: one that
      a purge took does not come back. */
  ghost predicate Remembers(t: Tables, t': Tables) {
    && t.batches.Keys <= t'.batches.Keys
    && (forall a :: a in t.assets ==> a in t'.assets && (Settled(t, a) ==> Settled(t', a)))
    && (forall k :: k in t'.objects && k.variant == Original && k.asset in t.assets ==>
          k in t.objects && Advances(t.objects[k].state, t'.objects[k].state))
  }

  lemma RemembersItself(t: Tables)
    ensures Remembers(t, t)
  {}

  lemma ContributionIsRemembered(t: Tables, c: Contribution, generation: nat)
    requires Linked(t) && forall a :: a in c.items ==> a !in t.assets
    ensures Remembers(t, WithContribution(t, c, generation))
  {
    var t' := WithContribution(t, c, generation);
    NewObjects(t, c, generation);
    KnownRowsStay(t, c, generation);
    hide WithContribution, Linked;
    SameOriginals(t, t');
  }

  lemma KnownRowsStay(t: Tables, c: Contribution, generation: nat)
    ensures t.batches.Keys <= WithContribution(t, c, generation).batches.Keys
    ensures t.assets.Keys <= WithContribution(t, c, generation).assets.Keys
  {}

  lemma SameOriginals(t: Tables, t': Tables)
    requires t.batches.Keys <= t'.batches.Keys && t.assets.Keys <= t'.assets.Keys
    requires forall k :: k in t.objects ==> k in t'.objects && t'.objects[k] == t.objects[k]
    requires forall k :: k in t'.objects && k !in t.objects ==> k.asset !in t.assets
    ensures Remembers(t, t')
  {}

  lemma ReserveRemembers(s: Ledger, c: Contribution)
    requires Linked(s.rows) && c.items != map[]
    ensures Remembers(s.rows, Reserve(s, c).ledger.rows)
  {
    hide Total, WithinConstraints, WithContribution, Remembers, Linked;
    RemembersItself(s.rows);
    if Reserve(s, c).ledger != s {
      ContributionIsRemembered(s.rows, c, s.event.generation);
    }
  }

  lemma LeaseRemembers(s: Ledger, b: BatchId, installation: nat, chosen: set<AssetId>, until: nat)
    ensures Remembers(s.rows, Lease(s, b, installation, chosen, until).ledger.rows)
  {}

  lemma OneOriginalIsRemembered(t: Tables, k: ObjectKey, o: StoredObject, b: BatchId)
    requires k in t.objects && k.variant == Original && t.objects[k].state in {Reserved, Failed} && b in t.batches
    ensures Remembers(t, WithObject(t, k, o)) && Remembers(t, CompleteIfTerminal(WithObject(t, k, o), b))
  {}

  lemma VerifyRemembers(s: Ledger, a: AssetId, head: Spec)
    ensures Remembers(s.rows, VerifyCommit(s, a, head).ledger.rows)
  {
    hide WithinConstraints, Remembers, CompleteIfTerminal, WithObject;
    RemembersItself(s.rows);
    var t, k := s.rows, ObjectKey(a, Original);
    if VerifyCommit(s, a, head).ledger != s {
      OneOriginalIsRemembered(t, k, t.objects[k].(state := Failed, lease := None), t.assets[a].batch);
      OneOriginalIsRemembered(t, k, t.objects[k].(state := Verified), t.assets[a].batch);
    }
  }

  lemma ExclusionRemembers(s: Ledger, a: AssetId, now: nat, storeAnswers: bool)
    ensures Remembers(s.rows, ExcludeAsset(s, a, now, storeAnswers).ledger.rows)
  {
    hide WithinConstraints, LeaseIsActive, Remembers, CompleteIfTerminal, WithObject;
    RemembersItself(s.rows);
    var t, k := s.rows, ObjectKey(a, Original);
    if ExcludeAsset(s, a, now, storeAnswers).ledger != s {
      OneOriginalIsRemembered(t, k, t.objects[k].(state := Excluded), t.assets[a].batch);
    }
  }

  lemma CancellationRemembers(s: Ledger, b: BatchId, now: nat, storeAnswers: bool)
    requires Linked(s.rows)
    ensures Remembers(s.rows, CancelBatch(s, b, now, storeAnswers).ledger.rows)
  {
    hide Total, WithinConstraints, LeaseIsActive, Releasable, WithdrawnBatch, BatchesClosed, Remembers;
    RemembersItself(s.rows);
    if b in s.rows.batches {
      CancelClosesBatch(s.rows, b);
      ClosedRemembers(s.rows, WithdrawnBatch(s.rows, b), {b});
    }
  }

  lemma PublicationRemembers(s: Ledger, storeAccepts: bool)
    requires Linked(s.rows)
    ensures Remembers(s.rows, Publish(s, storeAccepts).ledger.rows)
  {
    hide Total, WithinConstraints, IncludedPhotos, VerifiedDerivatives, AnalysedPhotos, HasActiveSection, StoredIn,
         PublishableBatches, DroppedObjects, HeldOriginals, StoredOriginals, WithoutUnfinished, BatchesClosed, Remembers;
    RemembersItself(s.rows);
    PublicationClosesBatches(s.rows);
    ClosedRemembers(s.rows, WithoutUnfinished(s.rows), InFlightBatches(s.rows));
  }

  lemma ClosedRemembers(t: Tables, t': Tables, closed: set<BatchId>)
    requires BatchesClosed(t, t', closed)
    ensures Remembers(t, t')
  {}

  lemma RegisteredIsRemembered(t: Tables, a: AssetId, captured: Option<int>, preview: Spec, thumbnail: Spec)
    requires a in t.assets && IsVerified(t, a, Original)
    ensures Remembers(t, WithDerivatives(t, a, captured, preview, thumbnail))
  {}

  lemma RegistrationRemembers(s: Ledger, step: Step)
    requires step.Registering?
    ensures Remembers(s.rows, Execute(s, step).ledger.rows)
  {
    hide InActiveSection, IsVerified, WithDerivatives, Remembers;
    RemembersItself(s.rows);
    if Execute(s, step).ledger != s {
      RegisteredIsRemembered(s.rows, step.asset, step.captured, step.preview, step.thumbnail);
    }
  }

  lemma DerivativeRemembers(s: Ledger, k: ObjectKey, matches: bool)
    requires k.variant != Original
    ensures Remembers(s.rows, DerivativeCommit(s, k, matches).ledger.rows)
  {}

  lemma PurgeRemembers(s: Ledger)
    ensures Remembers(s.rows, Purge(s).ledger.rows)
  {}

  lemma UploadStepRemembers(s: Ledger, step: Step)
    requires Linked(s.rows)
    requires step.Reserving? || step.Leasing? || step.Verifying? || step.Excluding? || step.Cancelling?
    requires step.Reserving? ==> step.contribution.items != map[]
    ensures Remembers(s.rows, Execute(s, step).ledger.rows)
  {
    hide Remembers, Linked, Reserve, Lease, VerifyCommit, ExcludeAsset, CancelBatch;
    match step
    case Reserving(c) => ReserveRemembers(s, c);
    case Leasing(b, installation, chosen, until) => LeaseRemembers(s, b, installation, chosen, until);
    case Verifying(a, head) => VerifyRemembers(s, a, head);
    case Excluding(a, now, answers) => ExclusionRemembers(s, a, now, answers);
    case Cancelling(b, now, answers) => CancellationRemembers(s, b, now, answers);
  }

  lemma LaterStepRemembers(s: Ledger, step: Step)
    requires Linked(s.rows)
    requires step.Publishing? || step.Registering? || step.CommittingDerivative? || step.Purging?
    requires step.CommittingDerivative? ==> step.key.variant != Original
    ensures Remembers(s.rows, Execute(s, step).ledger.rows)
  {
    hide Remembers, Linked, Publish, RegisterDerivatives, Purge, DerivativeCommit;
    match step
    case Publishing(accepts) => PublicationRemembers(s, accepts);
    case Registering(_, _, _, _, _, _) => RegistrationRemembers(s, step);
    case CommittingDerivative(k, matches) => DerivativeRemembers(s, k, matches);
    case Purging => PurgeRemembers(s);
  }

  lemma StepRemembers(s: Ledger, step: Step)
    requires Linked(s.rows)
    requires step.Reserving? ==> step.contribution.items != map[]
    requires step.CommittingDerivative? ==> step.key.variant != Original
    ensures Remembers(s.rows, Execute(s, step).ledger.rows)
  {
    hide Execute;
    if step.Reserving? || step.Leasing? || step.Verifying? || step.Excluding? || step.Cancelling? {
      hide Remembers;
      UploadStepRemembers(s, step);
    } else if TouchesObjects(step) {
      hide Remembers;
      LaterStepRemembers(s, step);
    } else {
      OtherStepsLeaveObjects(s, step);
    }
  }

  lemma KeptIsLinked(s: Ledger)
    requires LedgerInv(s)
    ensures Linked(s.rows)
  {}

  lemma {:induction false} RunRemembers(sys: System, steps: seq<Step>)
    requires LedgerInv(sys.ledger) && CleanRun(sys, steps)
    ensures Remembers(sys.ledger.rows, Run(sys, steps).ledger.rows)
    decreases |steps|
  {
    hide LedgerInv, Execute, RevivesExcluded, Remembers;
    RemembersItself(sys.ledger.rows);
    if steps != [] {
      KeptIsLinked(sys.ledger);
      StepKeepsLedgerIff(sys, steps[0]);
      if Enabled(sys, steps[0]) { StepRemembers(sys.ledger, steps[0]); }
      RunRemembers(Next(sys, steps[0]), steps[1..]);
      RemembersOnward(sys.ledger.rows, Next(sys, steps[0]).ledger.rows, Run(sys, steps).ledger.rows);
    }
  }

  lemma RemembersOnward(t: Tables, t': Tables, t'': Tables)
    requires Remembers(t, t') && Remembers(t', t'')
    ensures Remembers(t, t'')
  {}

  lemma VerifiedIsSettled(s: Ledger, a: AssetId, head: Spec)
    requires VerifyCommit(s, a, head).reply == Done
    ensures Settled(VerifyCommit(s, a, head).ledger.rows, a)
  {}

  lemma SettledStays(s: Ledger, a: AssetId, head: Spec)
    requires Settled(s.rows, a)
    ensures VerifyCommit(s, a, head).ledger == s
  {}

  /** Once one completion of a photo succeeded, every other one, at any later time and whatever it saw in
      the store, leaves the ledger as it is: concurrent completions count once. */
  lemma PhotoCountsOnce(sys: System, a: AssetId, head: Spec, steps: seq<Step>, again: Spec)
    requires LedgerInv(sys.ledger) && VerifyCommit(sys.ledger, a, head).reply == Done
    requires CleanRun(Next(sys, Verifying(a, head)), steps)
    ensures
      var later := Run(Next(sys, Verifying(a, head)), steps).ledger;
      VerifyCommit(later, a, again).ledger == later
  {
    hide LedgerInv, VerifyCommit, RevivesExcluded, Settled;
    VerifyKeepsLedger(sys.ledger, a, head);
    VerifiedIsSettled(sys.ledger, a, head);
    hide Execute;
    RunRemembers(Next(sys, Verifying(a, head)), steps);
    assert a in Next(sys, Verifying(a, head)).ledger.rows.assets by { hide *; }
    SettledStays(Run(Next(sys, Verifying(a, head)), steps).ledger, a, again);
  }

  lemma ReservedIsRecorded(s: Ledger, c: Contribution)
    requires c.items != map[] && Reserve(s, c).reply == Done
    ensures c.batch in Reserve(s, c).ledger.rows.batches
  {}

  lemma RecordedIsNotCharged(s: Ledger, c: Contribution)
    requires c.items != map[] && c.batch in s.rows.batches
    ensures Reserve(s, c).ledger == s
  {}

  /** A contribution is charged once: repeating it after any run changes nothing. */
  lemma ContributionChargesOnce(sys: System, c: Contribution, steps: seq<Step>)
    requires LedgerInv(sys.ledger) && c.items != map[] && Reserve(sys.ledger, c).reply == Done
    requires CleanRun(Next(sys, Reserving(c)), steps)
    ensures
      var later := Run(Next(sys, Reserving(c)), steps).ledger;
      Reserve(later, c).ledger == later
  {
    hide LedgerInv, Reserve, RevivesExcluded, Settled;
    ReserveKeepsLedger(sys.ledger, c);
    ReservedIsRecorded(sys.ledger, c);
    hide Execute;
    RunRemembers(Next(sys, Reserving(c)), steps);
    RecordedIsNotCharged(Run(Next(sys, Reserving(c)), steps).ledger, c);
  }
}
