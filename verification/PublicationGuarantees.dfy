/** What readers of a published event may rely on, and where the code falls short of it. */
module PublicationGuarantees {
  import opened Prelude
  import opened Tallies
  import opened Lifecycle
  import opened Ledger
  import opened LedgerInvariant
  import opened LedgerSteps
  import opened Publication
  import opened PublicationSteps
  import opened LedgerRuns

  // ------------------------------------------------------------- the moment of publication

  /** The photos of the publication manifest: stored, in a completed contribution of an active section,
      hidden or not. */
  function ManifestPhotos(t: Tables): set<AssetId> {
    set a | a in t.assets && t.assets[a].batch in PublishableBatches(t) && IsVerified(t, a, Original)
  }

  lemma PublishedEvent(s: Ledger, storeAccepts: bool)
    requires s.event.state != Published && Publish(s, storeAccepts).reply == Done
    ensures
      var s' := Publish(s, storeAccepts).ledger;
      && s'.rows == WithoutUnfinished(s.rows) && s'.event.state == Published && s'.event.intake == Closed
      && s'.event.derivativesReady == s'.event.facesReady == s'.event.manifest == Some(s.event.generation)
      && IncludedPhotos(s.rows) != {}
      && s.event.generation in s'.manifests
      && var listed := StoredIn(s'.rows, PublishableBatches(s'.rows));
         s'.manifests[s.event.generation] == Manifest(Committed, |listed|, Total(listed, Sizes(s'.rows.objects)))
  {}

  /** Publication shows exactly the photos that its gate counted; each of them is in the gallery with its
      pair and its analysis, and nothing stays reserved that is not verified. */
  lemma PublicationSnapshot(sys: System, storeAccepts: bool)
    requires SafeInv(sys)
    requires sys.ledger.event.state != Published && Publish(sys.ledger, storeAccepts).reply == Done
    ensures
      var s, s' := sys.ledger, Publish(sys.ledger, storeAccepts).ledger;
      && s'.event.state == Published && s'.event.intake == Closed
      && VisiblePhotos(s'.rows) == IncludedPhotos(s.rows) == GalleryPhotos(s'.rows) != {}
      && (forall a :: a in VisiblePhotos(s'.rows) ==> HasPair(s'.rows, a) && HasFaces(s'.rows, s'.event.faceModel, a))
      && s'.event.derivativesReady == s'.event.facesReady == s'.event.manifest == Some(s.event.generation)
      && s'.event.reservedBytes == s'.event.verifiedBytes && s'.event.reservedCount == s'.event.verifiedCount
  {
    var s, s' := sys.ledger, Publish(sys.ledger, storeAccepts).ledger;
    assert SafeInv(With(sys, Publish(s, storeAccepts))) by {
      hide LedgerInv, PublicationInv, Publish;
      PublishKeepsLedger(s, storeAccepts);
      PublishKeepsPublication(sys, storeAccepts);
    }
    PublishedEvent(s, storeAccepts);
    hide Publish;
    PublishedPhotos(s.rows, s.event.faceModel) by { hide PublicationInv; }
    WholeGallery(With(sys, Publish(s, storeAccepts)));
    SettledCounters(With(sys, Publish(s, storeAccepts)));
  }

  lemma SettledCounters(sys: System)
    requires SafeInv(sys) && IsPublic(sys.ledger.event)
    ensures sys.ledger.event.reservedBytes == sys.ledger.event.verifiedBytes
    ensures sys.ledger.event.reservedCount == sys.ledger.event.verifiedCount
  {
    hide Structured, Total;
    TerminalHeldIsStored(sys.ledger.rows);
  }

  /** In a public event the gallery lists every visible photo. */
  lemma WholeGallery(sys: System)
    requires SafeInv(sys) && IsPublic(sys.ledger.event)
    ensures VisiblePhotos(sys.ledger.rows) == GalleryPhotos(sys.ledger.rows)
    ensures forall a :: a in VisiblePhotos(sys.ledger.rows) ==>
      HasPair(sys.ledger.rows, a) && HasFaces(sys.ledger.rows, sys.ledger.event.faceModel, a)
  {}

  lemma ListedPhotos(t: Tables)
    ensures StoredIn(t, PublishableBatches(t)) == OriginalKeys(ManifestPhotos(t))
  {}

  lemma UnfinishedAreNotListed(t: Tables)
    requires Structured(t)
    ensures ManifestPhotos(WithoutUnfinished(t)) == ManifestPhotos(t)
    ensures IncludedPhotos(t) == set a | a in ManifestPhotos(t) && !t.assets[a].hidden
  {
    hide ObjectFits, BatchFits;
    var t' := WithoutUnfinished(t);
    assert PublishableBatches(t') == PublishableBatches(t);
    assert forall a :: a in t.assets && t.assets[a].batch in PublishableBatches(t) ==>
      IsVerified(t', a, Original) == IsVerified(t, a, Original);
  }

  /** The publication manifest counts the stored originals of the completed contributions in active
      sections: the photos shown, and those hidden by hand. */
  lemma PublicationManifest(s: Ledger, storeAccepts: bool)
    requires Structured(s.rows)
    requires s.event.state != Published && Publish(s, storeAccepts).reply == Done
    ensures
      var s', g := Publish(s, storeAccepts).ledger, s.event.generation;
      && g in s'.manifests
      && s'.manifests[g].assetCount == |ManifestPhotos(s.rows)|
      && s'.manifests[g].originalBytes == Total(OriginalKeys(ManifestPhotos(s.rows)), Sizes(s'.rows.objects))
      && IncludedPhotos(s.rows) == set a | a in ManifestPhotos(s.rows) && !s.rows.assets[a].hidden
  {
    hide Total, Structured, Publish, WithoutUnfinished, StoredIn, PublishableBatches, ManifestPhotos;
    PublishedEvent(s, storeAccepts);
    var t' := Publish(s, storeAccepts).ledger.rows;
    ListedPhotos(t');
    UnfinishedAreNotListed(s.rows);
    OriginalKeysSize(ManifestPhotos(t'));
  }

  lemma {:induction false} OriginalKeysSize(ids: set<AssetId>)
    ensures |OriginalKeys(ids)| == |ids|
    decreases ids
  {
    if ids == {} {
      assert OriginalKeys(ids) == {};
    } else {
      var a :| a in ids;
      OriginalKeysSize(ids - {a});
      assert OriginalKeys(ids) == OriginalKeys(ids - {a}) + {ObjectKey(a, Original)};
    }
  }

  // ------------------------------------------------------------- while the event is public

  ghost predicate SameGallery(t: Tables, t': Tables) {
    forall a :: (a in t'.assets && IsVisible(t', a)) <==> (a in t.assets && IsVisible(t, a))
  }

  /** A step that leaves a public event public. */
  ghost predicate StaysPublic(sys: System, step: Step) {
    && Enabled(sys, step) && IsPublic(sys.ledger.event) && IsPublic(Next(sys, step).ledger.event)
    && !step.Purging?
  }

  lemma UploadStepsKeepGallery(sys: System, step: Step)
    requires SafeInv(sys) && StaysPublic(sys, step)
    requires step.Reserving? || step.Leasing? || step.Verifying? || step.Excluding?
    ensures SameGallery(sys.ledger.rows, Next(sys, step).ledger.rows)
  {
    hide LedgerInv, Total, WithContribution, CompleteIfTerminal, WithinConstraints, LeaseIsActive;
    var t := sys.ledger.rows;
    assert EveryOriginalTerminal(t);
    assert forall a :: !IsPending(t, a);
  }

  lemma CancellingKeepsGallery(sys: System, step: Step)
    requires StaysPublic(sys, step) && step.Cancelling?
    ensures SameGallery(sys.ledger.rows, Next(sys, step).ledger.rows)
  {
    hide Total, Releasable, WithinConstraints, LeaseIsActive, IsPublic;
    var t, t', b := sys.ledger.rows, Next(sys, step).ledger.rows, step.batch;
    if t' != t {
      forall a | IsVerified(t, a, Original) ensures !InBatch(t, a, b) {
        assert InBatch(t, a, b) ==> ObjectKey(a, Original) in BatchObjects(t, b);
      }
    }
  }

  lemma PublishingChangesNothing(sys: System, step: Step)
    requires StaysPublic(sys, step) && step.Publishing?
    ensures Next(sys, step).ledger == sys.ledger
  {}

  lemma DerivativesKeepGallery(sys: System, step: Step)
    requires StaysPublic(sys, step)
    requires step.Registering? || step.CommittingDerivative? || step.ReportingDerivative?
    ensures SameGallery(sys.ledger.rows, Next(sys, step).ledger.rows)
  {
    hide IsPublic;
    var t := sys.ledger.rows;
    if step.Registering? {
      hide WithDerivatives, IsVerified;
      if Next(sys, step).ledger != sys.ledger {
        RegisteringKeepsGallery(t, step.asset, step.captured, step.preview, step.thumbnail);
      }
    }
  }

  lemma RegisteringKeepsGallery(t: Tables, a: AssetId, captured: Option<int>, preview: Spec, thumbnail: Spec)
    requires a in t.assets
    ensures SameGallery(t, WithDerivatives(t, a, captured, preview, thumbnail))
  {}

  lemma EventStepsKeepRows(sys: System, step: Step)
    requires Enabled(sys, step) && OnlyEventRow(step)
    ensures Next(sys, step).ledger.rows == sys.ledger.rows
  {
    hide HasActiveSection, EveryOriginalTerminal, VisiblePhotos, AnalysedPhotos, OriginalsManifest, StoredOriginals;
  }

  lemma ReviewStepsKeepGallery(sys: System, step: Step)
    requires StaysPublic(sys, step)
    requires step.SubmittingFace? || step.ReportingFace? || step.ResettingFace? || step.Hiding? || step.Restoring?
             || step.CreatingSection? || step.Archiving? || step.Reassigning?
    ensures Next(sys, step).ledger == sys.ledger
  {
    hide RetriesExhausted, InActiveSection, IsVerified;
  }

  lemma RefreshingKeepsGallery(sys: System)
    requires StaysPublic(sys, RefreshingDerivatives)
    ensures SameGallery(sys.ledger.rows, Next(sys, RefreshingDerivatives).ledger.rows)
  {
    hide VisiblePhotos, VerifiedDerivatives, IsVisible, Positioned;
    PositionsLeaveGallery(sys.ledger.rows, 0);
  }

  lemma GalleryIsItself(t: Tables)
    ensures SameGallery(t, t)
  {}

  lemma PublicStepKeepsGallery(sys: System, step: Step)
    requires SafeInv(sys) && StaysPublic(sys, step)
    ensures SameGallery(sys.ledger.rows, Next(sys, step).ledger.rows)
  {
    hide SafeInv, SameGallery, Next, IsPublic;
    GalleryIsItself(sys.ledger.rows);
    if step.Reserving? || step.Leasing? || step.Verifying? || step.Excluding? {
      UploadStepsKeepGallery(sys, step);
    } else if step.Cancelling? {
      CancellingKeepsGallery(sys, step);
    } else if step.Publishing? {
      PublishingChangesNothing(sys, step);
    } else if step.Registering? || step.CommittingDerivative? || step.ReportingDerivative? {
      DerivativesKeepGallery(sys, step);
    } else if OnlyEventRow(step) {
      EventStepsKeepRows(sys, step);
    } else if step.RefreshingDerivatives? {
      RefreshingKeepsGallery(sys);
    } else {
      ReviewStepsKeepGallery(sys, step);
    }
  }

  /** A run during which the event is public in every state and nothing is purged. */
  ghost predicate PublicRun(sys: System, steps: seq<Step>)
    decreases |steps|
  {
    steps == [] || (StaysPublic(sys, steps[0]) && PublicRun(Next(sys, steps[0]), steps[1..]))
  }

  lemma {:induction false} PublicRunKeepsGallery(sys: System, steps: seq<Step>)
    requires SafeInv(sys) && HarmlessRun(sys, steps) && PublicRun(sys, steps)
    ensures SameGallery(sys.ledger.rows, Run(sys, steps).ledger.rows)
    ensures SafeInv(Run(sys, steps)) && (IsPublic(sys.ledger.event) ==> IsPublic(Run(sys, steps).ledger.event))
    decreases |steps|
  {
    hide SafeInv, Next, Harmless, IsVisible, IsPublic;
    if steps != [] {
      StepKeepsSafetyIff(sys, steps[0]);
      PublicStepKeepsGallery(sys, steps[0]);
      PublicRunKeepsGallery(Next(sys, steps[0]), steps[1..]);
    }
  }

  /** Main result: as long as an event is public, its gallery is the same set of photos, all of them shown,
      each with its verified original, preview and thumbnail and a terminal analysis. */
  lemma GalleryStaysWhole(sys: System, steps: seq<Step>)
    requires SafeInv(sys) && IsPublic(sys.ledger.event)
    requires HarmlessRun(sys, steps) && PublicRun(sys, steps)
    ensures
      var t, t' := sys.ledger.rows, Run(sys, steps).ledger.rows;
      && GalleryPhotos(t') == VisiblePhotos(t') == VisiblePhotos(t) == GalleryPhotos(t)
      && forall a :: a in GalleryPhotos(t') ==>
           && IsVerified(t', a, Original) && HasPair(t', a)
           && HasFaces(t', Run(sys, steps).ledger.event.faceModel, a)
  {
    hide SafeInv, Next, Harmless, HarmlessRun, PublicRun, Run, HasPair, HasFaces, IsPublic;
    PublicRunKeepsGallery(sys, steps);
    WholeGallery(sys);
    WholeGallery(Run(sys, steps));
    assert VisiblePhotos(Run(sys, steps).ledger.rows) == VisiblePhotos(sys.ledger.rows);
  }

  /** The state of the object's row, if there is one. */
  predicate RowIs(t: Tables, a: AssetId, v: Variant, state: ObjectState) {
    ObjectKey(a, v) in t.objects && t.objects[ObjectKey(a, v)].state == state
  }

  /** A photo that is not hidden, with its original stored, in a section that is not archived. */
  predicate IsShown(t: Tables, a: AssetId) {
    && a in t.assets && !t.assets[a].hidden && RowIs(t, a, Original, Verified)
    && t.assets[a].batch in t.batches
    && t.batches[t.assets[a].batch].section in t.archived && !t.archived[t.batches[t.assets[a].batch].section]
  }

  /** Main result, on the rows: in every state of every harmless run of a new event in which the event is public, every
      photo that is shown has its preview and thumbnail stored, and an analysis of its own bytes with the event's
      model that found faces or none; and the gallery lists exactly the photos that are shown. */
  lemma PublicRows(sys: System, steps: seq<Step>)
    requires Initial(sys) && HarmlessRun(sys, steps) && Run(sys, steps).ledger.event.state in {Published, Archived}
    ensures
      var s := Run(sys, steps).ledger;
      var t := s.rows;
      && (forall a :: IsShown(t, a) ==>
            && RowIs(t, a, Preview, Verified) && RowIs(t, a, Thumbnail, Verified)
            && a in t.faces && t.faces[a].state in {Indexed, NoUsableFace}
            && t.faces[a].source == t.assets[a].sha && t.faces[a].model == s.event.faceModel)
      && forall a :: a in GalleryPhotos(t) <==> IsShown(t, a)
  {
    hide SafeInv, Next, Harmless, Run, Initial;
    InitialIsSafe(sys);
    RunIsSafe(sys, steps);
    WholeGallery(Run(sys, steps));
    forall a ensures IsShown(Run(sys, steps).ledger.rows, a) <==> a in VisiblePhotos(Run(sys, steps).ledger.rows) {}
  }

  // ------------------------------------------------------------- manifests

  /** Manifests never disappear, never change their totals, and stay committed. */
  ghost predicate ManifestsStay(s: Ledger, s': Ledger) {
    forall h :: h in s.manifests ==>
      && h in s'.manifests
      && s'.manifests[h].(state := s.manifests[h].state) == s.manifests[h]
      && (s.manifests[h].state == Committed ==> s'.manifests[h].state == Committed)
  }

  lemma PublishingKeepsManifests(s: Ledger, storeAccepts: bool)
    ensures ManifestsStay(s, Publish(s, storeAccepts).ledger)
  {
    hide Total, WithoutUnfinished, IncludedPhotos, VerifiedDerivatives, AnalysedPhotos, HasActiveSection, WithinConstraints,
         StoredIn, PublishableBatches, DroppedObjects, HeldOriginals, StoredOriginals;
  }

  lemma StepKeepsManifests(sys: System, step: Step)
    requires Enabled(sys, step) && !step.Purging?
    ensures ManifestsStay(sys.ledger, Next(sys, step).ledger)
  {
    hide StartsFinalizing;
    if step.Publishing? {
      hide Publish;
      PublishingKeepsManifests(sys.ledger, step.storeAccepts);
    } else if step.Preparing? || step.Finalizing? {
      hide EveryOriginalTerminal, StoredOriginals, OriginalsManifest;
    } else {
      hide ManifestsStay;
      OtherStepsKeepManifests(sys.ledger, step);
    }
  }

  lemma OtherStepsKeepManifests(s: Ledger, step: Step)
    requires !step.Purging? && !step.Publishing? && !step.Preparing? && !step.Finalizing?
    requires step.Reserving? ==> step.contribution.items != map[]
    requires step.CommittingDerivative? ==> step.key.variant != Original
    ensures Execute(s, step).ledger.manifests == s.manifests
  {
    hide Total, WithinConstraints, HasActiveSection, EveryOriginalTerminal, VisiblePhotos, VerifiedDerivatives, Positioned,
         AnalysedPhotos, WithContribution, Leased, CompleteIfTerminal, BatchObjects, Releasable, WithdrawnBatch,
         InActiveSection, IsVerified, WithDerivatives, RetriesExhausted, ProcessingAllowed, LeaseIsActive;
  }

  lemma {:induction false} RunKeepsManifests(sys: System, steps: seq<Step>)
    requires Step.Purging !in steps
    ensures ManifestsStay(sys.ledger, Run(sys, steps).ledger)
    decreases |steps|
  {
    hide Enabled;
    if steps != [] {
      if Enabled(sys, steps[0]) { StepKeepsManifests(sys, steps[0]); }
      hide Next;
      RunKeepsManifests(Next(sys, steps[0]), steps[1..]);
    }
  }

  // ------------------------------------------------------------- erasure requests

  /** Only commands on the event row move an event out of the states that end its uploads. */
  lemma OthersKeepFinalStates(sys: System, step: Step)
    requires sys.ledger.event.state in {Published, Archived, Cancelled} && Enabled(sys, step) && !OnlyEventRow(step)
    ensures Next(sys, step).ledger.event.state == sys.ledger.event.state
  {
    hide Total, WithinConstraints, HasActiveSection, VisiblePhotos, VerifiedDerivatives, Positioned,
         AnalysedPhotos, WithContribution, Leased, CompleteIfTerminal, BatchObjects, Releasable, WithdrawnBatch,
         InActiveSection, IsVerified, WithDerivatives, RetriesExhausted, ProcessingAllowed, LeaseIsActive,
         IncludedPhotos, StartsFinalizing, Snapshotted;
  }

  /** A quarantined event leaves that state exactly when a finalization that was prepared before commits. */
  lemma CancelledIsLeftOnlyByFinalizing(sys: System, step: Step)
    requires sys.ledger.event.state == Cancelled && Enabled(sys, step)
    ensures Next(sys, step).ledger.event.state != Cancelled
      <==> step.Finalizing? && FinalizeCommit(sys.ledger, step.generation).reply == Done
  {
    hide HasActiveSection, EveryOriginalTerminal, VisiblePhotos, AnalysedPhotos, StoredOriginals, StartsFinalizing,
         OriginalsManifest;
    if !OnlyEventRow(step) {
      hide Next;
      OthersKeepFinalStates(sys, step);
    }
  }

  /** Exactly these steps take a public event out of the public: unpublishing or a manual return to review while
      it is published, a privacy request, and the late second half of a finalization, which looks at no state. */
  lemma PublicEndsIff(sys: System, step: Step)
    requires IsPublic(sys.ledger.event) && Enabled(sys, step)
    ensures !IsPublic(Next(sys, step).ledger.event) <==>
      || (sys.ledger.event.state == Published && step.Unpublishing?)
      || (sys.ledger.event.state == Published && step.Transitioning? && step.target == Review)
      || step.RequestingErasure?
      || (step.Finalizing? && FinalizeCommit(sys.ledger, step.generation).reply == Done)
  {
    hide HasActiveSection, EveryOriginalTerminal, VisiblePhotos, AnalysedPhotos, StoredOriginals, StartsFinalizing,
         OriginalsManifest;
    if !OnlyEventRow(step) {
      hide Next;
      OthersKeepFinalStates(sys, step);
    }
  }

  /** An erasure request between the two halves of finalizing is undone by the second half. */
  lemma ErasureIsUndone(sys: System)
    requires StartsFinalizing(sys.ledger)
    ensures
      var quarantined := Next(Next(sys, Step.Preparing), RequestingErasure);
      && quarantined.ledger.event.state == Cancelled
      && Next(quarantined, Finalizing(sys.ledger.event.generation)).ledger.event.state == Processing
  {
    hide EveryOriginalTerminal, StoredOriginals, OriginalsManifest;
  }
}
