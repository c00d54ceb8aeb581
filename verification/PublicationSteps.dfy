/** Every transaction keeps the publication invariant, with two exceptions, each with its exact condition:
    a late mismatch on a verified derivative, and moving a contribution out of an archived section. */
module PublicationSteps {
  import opened Prelude
  import opened Tallies
  import opened Lifecycle
  import opened Ledger
  import opened LedgerInvariant
  import opened LedgerSteps
  import opened Publication

  ghost function With(sys: System, o: Outcome): System {
    sys.(ledger := o.ledger)
  }

  ghost predicate SafeInv(sys: System) {
    LedgerInv(sys.ledger) && PublicationInv(sys)
  }

  // ------------------------------------------------------------- originals

  lemma ReserveKeepsPublication(sys: System, c: Contribution)
    requires SafeInv(sys) && c.items != map[]
    ensures PublicationInv(With(sys, Reserve(sys.ledger, c)))
  {
    hide Total, LedgerInv, WithContribution;
    var sys' := With(sys, Reserve(sys.ledger, c));
    if sys' != sys {
      assert NothingCurrent(sys');
      NothingCurrentSuffices(sys');
    }
  }

  lemma LeaseKeepsPublication(sys: System, b: BatchId, installation: nat, chosen: set<AssetId>, until: nat)
    requires SafeInv(sys)
    ensures PublicationInv(With(sys, Lease(sys.ledger, b, installation, chosen, until)))
  {
    hide LedgerInv, PublicationInv, IsVerified, Leased, EveryOriginalTerminal, GalleryHolds, FacesHold;
    var sys' := With(sys, Lease(sys.ledger, b, installation, chosen, until));
    LeaseKeepsStates(sys.ledger.rows, b, chosen, until);
    if sys' != sys {
      var t, t' := sys.ledger.rows, sys'.ledger.rows;
      assert t' == t.(objects := Leased(t, b, chosen, until));
      ManifestExcludesUploads(sys);
      GalleryHoldsWhenVerifiedStay(t, t', sys.ledger.event.faceModel);
      UndisturbedKeepsPublication(sys, sys');
    }
  }

  lemma LeaseKeepsStates(t: Tables, b: BatchId, chosen: set<AssetId>, until: nat)
    ensures
      var t' := t.(objects := Leased(t, b, chosen, until));
      && (forall a, v :: IsVerified(t', a, v) == IsVerified(t, a, v))
      && (EveryOriginalTerminal(t) ==> EveryOriginalTerminal(t'))
      && t'.objects.Keys == t.objects.Keys
  {}

  /** Only the objects table differs, and the same objects are verified. */
  lemma GalleryHoldsWhenVerifiedStay(t: Tables, t': Tables, model: nat)
    requires t'.(objects := t.objects) == t
    requires forall a, v :: IsVerified(t', a, v) == IsVerified(t, a, v)
    ensures GalleryHolds(t, t') && FacesHold(t, t', model)
  {}

  /** A current manifest excludes the states in which contributions arrive. */
  lemma ManifestExcludesUploads(sys: System)
    requires PublicationInv(sys)
    ensures sys.ledger.event.manifest.Some? ==> sys.ledger.event.state !in {Draft, Uploading}
  {}

  lemma VerifyKeepsPublication(sys: System, a: AssetId, head: Spec)
    requires SafeInv(sys)
    ensures PublicationInv(With(sys, VerifyCommit(sys.ledger, a, head)))
  {
    hide Total, LedgerInv, CompleteIfTerminal;
    var sys' := With(sys, VerifyCommit(sys.ledger, a, head));
    if sys' != sys {
      assert !EveryOriginalTerminal(sys.ledger.rows);
      PendingMeansNothingCurrent(sys);
      assert NothingCurrent(sys');
      NothingCurrentSuffices(sys');
    }
  }

  lemma ExcludeKeepsPublication(sys: System, a: AssetId, now: nat, storeAnswers: bool)
    requires SafeInv(sys)
    ensures PublicationInv(With(sys, ExcludeAsset(sys.ledger, a, now, storeAnswers)))
  {
    hide Total, LedgerInv, CompleteIfTerminal;
    var sys' := With(sys, ExcludeAsset(sys.ledger, a, now, storeAnswers));
    if sys' != sys {
      assert !EveryOriginalTerminal(sys.ledger.rows);
      PendingMeansNothingCurrent(sys);
      assert NothingCurrent(sys');
      NothingCurrentSuffices(sys');
    }
  }

  lemma CancelKeepsPublication(sys: System, b: BatchId, now: nat, storeAnswers: bool)
    requires SafeInv(sys)
    ensures PublicationInv(With(sys, CancelBatch(sys.ledger, b, now, storeAnswers)))
  {
    hide Total, LedgerInv, PublicationInv, Releasable, WithinConstraints;
    var sys' := With(sys, CancelBatch(sys.ledger, b, now, storeAnswers));
    if sys' != sys {
      var t, t' := sys.ledger.rows, sys'.ledger.rows;
      forall a, v ensures IsVerified(t', a, v) == IsVerified(t, a, v) {
        if IsVerified(t, a, v) { assert InBatch(t, a, b) ==> ObjectKey(a, v) in BatchObjects(t, b); }
      }
      GalleryHoldsWhenVerifiedStay(t.(batches := t'.batches), t', sys.ledger.event.faceModel);
      ManifestExcludesUploads(sys);
      UndisturbedKeepsPublication(sys, sys');
    }
  }

  // ------------------------------------------------------------- publication

  /** Publishing leaves exactly the counted photos visible, and every original terminal. */
  lemma PublishedPhotos(t: Tables, model: nat)
    requires Structured(t)
    ensures VisiblePhotos(WithoutUnfinished(t)) == IncludedPhotos(t)
    ensures EveryOriginalTerminal(WithoutUnfinished(t))
    ensures forall a :: a in IncludedPhotos(t) ==>
      && (HasPair(t, a) ==> HasPair(WithoutUnfinished(t), a))
      && (HasFaces(t, model, a) ==> HasFaces(WithoutUnfinished(t), model, a))
  {}

  lemma PublishKeepsPublication(sys: System, storeAccepts: bool)
    requires SafeInv(sys)
    ensures PublicationInv(With(sys, Publish(sys.ledger, storeAccepts)))
  {
    hide Total, Structured, Counted, WithoutUnfinished, StoredIn, PublishableBatches, HasActiveSection, IncludedPhotos,
         VerifiedDerivatives, AnalysedPhotos, EveryOriginalTerminal, WithinConstraints, PairsComplete, FacesComplete,
         DroppedObjects, HeldOriginals, StoredOriginals;
    var s, sys' := sys.ledger, With(sys, Publish(sys.ledger, storeAccepts));
    if sys' != sys {
      PublishedIsWhole(s.rows, s.event.faceModel);
      IncludedHasObjects(s.rows);
    }
  }

  lemma PublishedIsWhole(t: Tables, model: nat)
    requires Structured(t)
    requires |VerifiedDerivatives(t, IncludedPhotos(t))| == 2 * |IncludedPhotos(t)|
    requires |AnalysedPhotos(t, model, IncludedPhotos(t))| == |IncludedPhotos(t)|
    ensures EveryOriginalTerminal(WithoutUnfinished(t))
    ensures PairsComplete(WithoutUnfinished(t)) && FacesComplete(WithoutUnfinished(t), model)
  {
    hide Structured, WithoutUnfinished, IncludedPhotos, VerifiedDerivatives, AnalysedPhotos, EveryOriginalTerminal,
         HasPair, HasFaces, VisiblePhotos, IsVisible;
    PublishedPhotos(t, model);
    PairGate(t, IncludedPhotos(t));
    FaceGate(t, model, IncludedPhotos(t));
    VisibleMembers(WithoutUnfinished(t));
  }

  lemma IncludedHasObjects(t: Tables)
    requires IncludedPhotos(t) != {}
    ensures t.objects != map[]
  {}

  lemma CloseKeepsPublication(sys: System)
    requires SafeInv(sys)
    ensures PublicationInv(With(sys, CloseIntake(sys.ledger)))
  {}

  lemma ReopenKeepsPublication(sys: System)
    requires SafeInv(sys)
    ensures PublicationInv(With(sys, ReopenIntake(sys.ledger)))
    ensures PublicationInv(With(sys, Unpublish(sys.ledger)))
  {}

  // ------------------------------------------------------------- finalizing

  ghost function Preparing(sys: System): System {
    System(FinalizeBegin(sys.ledger).ledger,
           if StartsFinalizing(sys.ledger) then sys.finalizing + {sys.ledger.event.generation} else sys.finalizing)
  }

  lemma PrepareKeepsPublication(sys: System)
    requires SafeInv(sys)
    ensures PublicationInv(Preparing(sys))
  {
    hide Total, Structured;
  }

  lemma FinalizeKeepsPublication(sys: System, g: nat)
    requires SafeInv(sys) && g in sys.finalizing
    ensures PublicationInv(With(sys, FinalizeCommit(sys.ledger, g)))
  {}

  /** Whatever ran since the manifest was prepared, committing it finds totals that equal the verified
      counters, and those equal the reserved ones. */
  lemma CommittedTotals(sys: System, g: nat)
    requires SafeInv(sys) && g in sys.finalizing
    requires FinalizeCommit(sys.ledger, g).reply == Done
    ensures
      var s' := FinalizeCommit(sys.ledger, g).ledger;
      && s'.event.manifest == Some(g) && g == s'.event.generation && g in s'.manifests
      && s'.manifests[g].state == Committed
      && s'.manifests[g].assetCount == s'.event.verifiedCount == s'.event.reservedCount
      && s'.manifests[g].originalBytes == s'.event.verifiedBytes == s'.event.reservedBytes
  {
    hide Total, Structured;
    TerminalHeldIsStored(sys.ledger.rows);
  }

  // ------------------------------------------------------------- derivatives

  lemma RegisterKeepsPublication(sys: System, a: AssetId, source: nat, observed: EventState, captured: Option<int>,
                                 preview: Spec, thumbnail: Spec)
    requires SafeInv(sys)
    ensures PublicationInv(With(sys, RegisterDerivatives(sys.ledger, a, source, observed, captured, preview, thumbnail)))
  {
    hide LedgerInv, PublicationInv;
    var sys' := With(sys, RegisterDerivatives(sys.ledger, a, source, observed, captured, preview, thumbnail));
    if sys' != sys {
      var t, t' := sys.ledger.rows, sys'.ledger.rows;
      RegisteredRows(t, a, captured, preview, thumbnail);
      forall x, v ensures IsVerified(t, x, v) == IsVerified(t', x, v) {}
      ManifestExcludesUploads(sys);
      UndisturbedKeepsPublication(sys, sys');
    }
  }

  lemma FailureReportKeepsPublication(sys: System, a: AssetId)
    requires SafeInv(sys)
    ensures PublicationInv(With(sys, ReportDerivativeFailure(sys.ledger, a)))
  {}

  /** A late mismatch takes a photo's verified derivative away while somebody relies on it. */
  ghost predicate BreaksPair(s: Ledger, k: ObjectKey, matches: bool) {
    && !matches && k in s.rows.objects && s.rows.objects[k].state == Verified
    && IsVisible(s.rows, k.asset) && HasPair(s.rows, k.asset)
    && (s.event.derivativesReady.Some? || IsPublic(s.event))
  }

  lemma DerivativeKeepsPublicationIff(sys: System, k: ObjectKey, matches: bool)
    requires SafeInv(sys) && k.variant != Original
    ensures PublicationInv(With(sys, DerivativeCommit(sys.ledger, k, matches))) <==> !BreaksPair(sys.ledger, k, matches)
  {
    hide LedgerInv;
    var s, sys' := sys.ledger, With(sys, DerivativeCommit(sys.ledger, k, matches));
    var t, t' := s.rows, sys'.ledger.rows;
    assert forall a, v :: ObjectKey(a, v) != k ==> IsVerified(t', a, v) == IsVerified(t, a, v);
    assert forall a :: a in t.assets ==> (IsVisible(t', a) <==> IsVisible(t, a));
    if BreaksPair(s, k, matches) {
      assert !HasPair(t', k.asset) && IsVisible(t', k.asset);
      assert !PairsComplete(t');
    } else {
      DerivativeKeeps(sys, k, matches);
    }
  }

  lemma DerivativeKeeps(sys: System, k: ObjectKey, matches: bool)
    requires SafeInv(sys) && k.variant != Original && !BreaksPair(sys.ledger, k, matches)
    ensures PublicationInv(With(sys, DerivativeCommit(sys.ledger, k, matches)))
  {
    hide LedgerInv, PublicationInv;
    var s, sys' := sys.ledger, With(sys, DerivativeCommit(sys.ledger, k, matches));
    var t, t' := s.rows, sys'.ledger.rows;
    assert forall a, v :: ObjectKey(a, v) != k ==> IsVerified(t', a, v) == IsVerified(t, a, v);
    if s.event.derivativesReady.Some? || IsPublic(s.event) {
      assert GalleryHolds(t, t');
    }
    ManifestExcludesUploads(sys);
    FacesNeedNoPairs(sys, sys');
  }

  /** Face readiness does not depend on derivatives. */
  lemma FacesNeedNoPairs(sys: System, sys': System)
    requires PublicationInv(sys)
    requires
      var s, s' := sys.ledger, sys'.ledger;
      && sys' == sys.(ledger := s.(rows := s'.rows))
      && s'.rows.(objects := s.rows.objects) == s.rows
      && (EveryOriginalTerminal(s.rows) ==> EveryOriginalTerminal(s'.rows))
      && (s.rows.objects == map[] ==> s'.rows.objects == map[])
      && (forall a :: a in s'.rows.assets ==> (IsVisible(s'.rows, a) <==> IsVisible(s.rows, a)))
      && (s.event.derivativesReady.Some? || IsPublic(s.event) ==> GalleryHolds(s.rows, s'.rows))
    ensures PublicationInv(sys')
  {}

  /** Readiness is granted only when every visible photo really has its verified pair. */
  lemma RefreshDerivativesKeepsPublication(sys: System)
    requires SafeInv(sys)
    ensures PublicationInv(With(sys, RefreshDerivatives(sys.ledger)))
  {
    hide LedgerInv, VisiblePhotos, VerifiedDerivatives, Positioned, IsVisible, HasPair, HasFaces;
    var s, sys' := sys.ledger, With(sys, RefreshDerivatives(sys.ledger));
    var t, t' := s.rows, sys'.ledger.rows;
    PairGate(t, VisiblePhotos(t));
    VisibleMembers(t);
    PositionsLeaveGallery(t, s.event.faceModel);
    if t' != t {
      assert PairsComplete(t');
    }
  }

  lemma PositionsLeaveGallery(t: Tables, model: nat)
    ensures
      var t' := t.(assets := Positioned(t));
      && (forall a :: a in t'.assets <==> a in t.assets)
      && (forall a :: IsVisible(t', a) == IsVisible(t, a) && HasPair(t', a) == HasPair(t, a)
                      && HasFaces(t', model, a) == HasFaces(t, model, a))
  {}

  lemma VisibleMembers(t: Tables)
    ensures forall a :: a in VisiblePhotos(t) <==> a in t.assets && IsVisible(t, a)
  {}

  // ------------------------------------------------------------- faces

  lemma RefreshFacesKeepsPublication(sys: System)
    requires SafeInv(sys)
    ensures PublicationInv(With(sys, RefreshFaces(sys.ledger)))
  {
    hide LedgerInv;
    var t := sys.ledger.rows;
    FaceGate(t, sys.ledger.event.faceModel, VisiblePhotos(t));
  }

  lemma SetFaceKeepsPublication(sys: System, a: AssetId, face: Face)
    requires PublicationInv(sys) && !IsPublic(sys.ledger.event)
    ensures PublicationInv(sys.(ledger := SetFace(sys.ledger, a, face)))
  {}

  lemma FacesKeepPublication(sys: System, a: AssetId, section: SectionId, d: FaceDocument)
    requires SafeInv(sys)
    ensures PublicationInv(With(sys, SubmitFace(sys.ledger, a, section, d)))
    ensures PublicationInv(With(sys, ReportFaceFailure(sys.ledger, a, section)))
    ensures PublicationInv(With(sys, ResetFace(sys.ledger, a)))
  {
    hide LedgerInv, PublicationInv, SetFace, IsVerified, InActiveSection;
    var s := sys.ledger;
    if !IsPublic(s.event) {
      forall face: Face ensures PublicationInv(sys.(ledger := SetFace(s, a, face))) {
        SetFaceKeepsPublication(sys, a, face);
      }
    }
  }

  // ------------------------------------------------------------- sections and hiding

  lemma HideKeepsPublication(sys: System, a: AssetId)
    requires SafeInv(sys)
    ensures PublicationInv(With(sys, HidePhoto(sys.ledger, a)))
  {}

  lemma RestoreKeepsPublication(sys: System, a: AssetId)
    requires SafeInv(sys)
    ensures PublicationInv(With(sys, RestorePhoto(sys.ledger, a)))
  {}

  lemma CreateSectionKeepsPublication(sys: System, section: SectionId)
    requires SafeInv(sys)
    ensures PublicationInv(With(sys, CreateSection(sys.ledger, section)))
  {}

  lemma ArchiveKeepsPublication(sys: System, section: SectionId, archived: bool)
    requires SafeInv(sys)
    ensures PublicationInv(With(sys, SetArchived(sys.ledger, section, archived)))
  {}

  /** Moving a contribution out of an archived section shows photos that nobody has checked. */
  ghost predicate ShowsUnready(s: Ledger, b: BatchId, section: SectionId) {
    var t := s.rows;
    && Reassign(s, b, section).reply == Done
    && !InActiveSection(t, b)
    && exists a :: InBatch(t, a, b) && !t.assets[a].hidden && IsVerified(t, a, Original)
                   && ((s.event.derivativesReady.Some? && !HasPair(t, a))
                       || (s.event.facesReady.Some? && !HasFaces(t, s.event.faceModel, a)))
  }

  lemma ReassignKeepsPublicationIff(sys: System, b: BatchId, section: SectionId)
    requires SafeInv(sys)
    ensures PublicationInv(With(sys, Reassign(sys.ledger, b, section))) <==> !ShowsUnready(sys.ledger, b, section)
  {
    hide LedgerInv;
    var s, sys' := sys.ledger, With(sys, Reassign(sys.ledger, b, section));
    var t, t' := s.rows, sys'.ledger.rows;
    if Reassign(s, b, section).reply == Done {
      forall a | a in t.assets
        ensures IsVisible(t', a) <==>
          IsVisible(t, a) || (InBatch(t, a, b) && !t.assets[a].hidden && IsVerified(t, a, Original))
      {}
      assert forall a :: HasPair(t', a) == HasPair(t, a) && HasFaces(t', s.event.faceModel, a) == HasFaces(t, s.event.faceModel, a);
      if ShowsUnready(s, b, section) {
        var a :| InBatch(t, a, b) && !t.assets[a].hidden && IsVerified(t, a, Original)
                 && ((s.event.derivativesReady.Some? && !HasPair(t, a))
                     || (s.event.facesReady.Some? && !HasFaces(t, s.event.faceModel, a)));
        assert IsVisible(t', a);
      } else {
        assert s.event.derivativesReady.Some? ==> PairsComplete(t');
        assert s.event.facesReady.Some? ==> FacesComplete(t', s.event.faceModel);
      }
    }
  }

  // ------------------------------------------------------------- the event row

  lemma TransitionKeepsPublication(sys: System, target: EventState, expiryIsFuture: bool)
    requires SafeInv(sys)
    ensures PublicationInv(With(sys, Transition(sys.ledger, target, expiryIsFuture)))
  {
    hide LedgerInv, PairsComplete, FacesComplete, EveryOriginalTerminal, HasActiveSection;
  }

  lemma PolicyAndErasureKeepPublication(sys: System)
    requires SafeInv(sys)
    ensures PublicationInv(With(sys, ConfirmPolicy(sys.ledger)))
    ensures PublicationInv(With(sys, RequestErasure(sys.ledger)))
  {}

  lemma PurgeKeepsPublication(sys: System)
    requires SafeInv(sys)
    ensures PublicationInv(With(sys, Purge(sys.ledger)))
  {}
}
