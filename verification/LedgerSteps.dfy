/** The remaining transactions on objects keep the ledger invariant, with one exception: committing
    a derivative whose row is excluded. */
module LedgerSteps {
  import opened Prelude
  import opened Tallies
  import opened Lifecycle
  import opened Ledger
  import opened LedgerInvariant

  // ------------------------------------------------------------ whole batches close

  /** Rows after every object of the batches in `closed` was excluded and the batches left flight. */
  ghost predicate BatchesClosed(t: Tables, t': Tables, closed: set<BatchId>) {
    && t'.archived == t.archived && t'.assets == t.assets
    && t'.batches.Keys == t.batches.Keys && t'.objects.Keys == t.objects.Keys
    && (forall b :: b in t.batches && b !in closed ==> t'.batches[b] == t.batches[b])
    && (forall b :: b in t.batches && b in closed ==>
          t'.batches[b].section == t.batches[b].section && t'.batches[b].state in {NotIncluded, Withdrawn})
    && (forall k :: k in t.objects ==>
          && t'.objects[k].spec == t.objects[k].spec
          && (BatchOf(t, k.asset) !in closed ==> t'.objects[k] == t.objects[k])
          && (BatchOf(t, k.asset) in closed ==> t'.objects[k].state == Excluded))
  }

  ghost function BatchOf(t: Tables, a: AssetId): BatchId {
    if a in t.assets then t.assets[a].batch else 0
  }

  lemma ClosedObjectFits(t: Tables, t': Tables, closed: set<BatchId>, k: ObjectKey)
    requires BatchesClosed(t, t', closed) && k in t.objects && ObjectFits(t, k)
    ensures ObjectFits(t', k)
  {}

  lemma ClosedBatchFits(t: Tables, t': Tables, closed: set<BatchId>, b: BatchId)
    requires BatchesClosed(t, t', closed) && BatchFits(t, b)
    ensures BatchFits(t', b)
  {
    BatchStays(t, t', b);
  }

  lemma ClosingKeepsStructure(t: Tables, t': Tables, closed: set<BatchId>)
    requires Structured(t) && BatchesClosed(t, t', closed)
    ensures Structured(t')
  {
    hide ObjectFits, BatchFits;
    forall k | k in t'.objects ensures ObjectFits(t', k) { ClosedObjectFits(t, t', closed, k); }
    forall a, b | InBatch(t', a, b) && HasObject(t', a, Original) ensures BatchFits(t', b) {
      assert InBatch(t, a, b) && HasObject(t, a, Original);
      ClosedBatchFits(t, t', closed, b);
    }
  }

  /** The held originals of closed batches are exactly what leaves the counters. */
  lemma ClosingCounts(t: Tables, t': Tables, closed: set<BatchId>, gone: set<ObjectKey>)
    requires BatchesClosed(t, t', closed)
    requires forall k :: k in gone <==> k in HeldOriginals(t.objects) && BatchOf(t, k.asset) in closed
    ensures HeldOriginals(t'.objects) == HeldOriginals(t.objects) - gone
    ensures StoredOriginals(t'.objects) == StoredOriginals(t.objects) - gone
    ensures Sizes(t'.objects) == Sizes(t.objects)
  {}

  /** In a batch without verified objects every object that is not excluded is a held original: the sum
      over all variants that a cancellation gives back is the sum over the reserved originals. */
  lemma ReleasableAreHeldOriginals(t: Tables, b: BatchId)
    requires Structured(t)
    requires forall k :: k in BatchObjects(t, b) ==> t.objects[k].state != Verified
    ensures forall k :: k in Releasable(t, b) <==> k in HeldOriginals(t.objects) && BatchOf(t, k.asset) == b
    ensures Releasable(t, b) !! StoredOriginals(t.objects)
  {}

  lemma CancelClosesBatch(t: Tables, b: BatchId)
    requires Linked(t) && b in t.batches
    ensures BatchesClosed(t, WithdrawnBatch(t, b), {b})
  {}

  lemma CancelKeepsLedger(s: Ledger, b: BatchId, now: nat, storeAnswers: bool)
    requires LedgerInv(s)
    ensures LedgerInv(CancelBatch(s, b, now, storeAnswers).ledger)
  {
    hide Total, Structured, WithinConstraints, LeaseIsActive, BatchesClosed, WithdrawnBatch, Linked, Releasable;
    var t, s' := s.rows, CancelBatch(s, b, now, storeAnswers).ledger;
    if s' != s {
      var t', gone := WithdrawnBatch(t, b), Releasable(t, b);
      ReleasableAreHeldOriginals(t, b);
      StructuredIsLinked(t);
      CancelClosesBatch(t, b);
      ClosingKeepsStructure(t, t', {b});
      ClosingCounts(t, t', {b}, gone);
      assert gone * StoredOriginals(t.objects) == {};
      EmptyTotal(Sizes(t.objects));
      TalliedAfterLeaving(s.event, HeldOriginals(t.objects), StoredOriginals(t.objects), Sizes(t.objects), gone, s'.event);
    }
  }

  lemma EmptyTotal<K>(weight: map<K, nat>)
    ensures Total({}, weight) == 0
  {}

  lemma PublicationClosesBatches(t: Tables)
    requires Linked(t)
    ensures BatchesClosed(t, WithoutUnfinished(t), InFlightBatches(t))
  {}

  lemma PublicationCounts(e: Event, t: Tables, e': Event)
    requires Linked(t) && Counted(e, t.objects)
    requires e'.byteLimit == e.byteLimit
    requires
      var held, stored := DroppedObjects(t) * HeldOriginals(t.objects), DroppedObjects(t) * StoredOriginals(t.objects);
      && e'.reservedBytes == e.reservedBytes - Total(held, Sizes(t.objects))
      && e'.reservedCount == e.reservedCount - |held|
      && e'.verifiedBytes == e.verifiedBytes - Total(stored, Sizes(t.objects))
      && e'.verifiedCount == e.verifiedCount - |stored|
    ensures Counted(e', WithoutUnfinished(t).objects)
  {
    hide Total, WithoutUnfinished, BatchesClosed;
    PublicationClosesBatches(t);
    var held, stored := HeldOriginals(t.objects), StoredOriginals(t.objects);
    var gone := DroppedObjects(t) * held;
    assert gone * stored == DroppedObjects(t) * stored;
    ClosingCounts(t, WithoutUnfinished(t), InFlightBatches(t), gone);
    TalliedAfterLeaving(e, held, stored, Sizes(t.objects), gone, e');
  }

  lemma PublishKeepsLedger(s: Ledger, storeAccepts: bool)
    requires LedgerInv(s)
    ensures LedgerInv(Publish(s, storeAccepts).ledger)
  {
    hide Total, Structured, Counted, Linked, WithinConstraints, WithoutUnfinished, IncludedPhotos, VerifiedDerivatives,
         AnalysedPhotos, HasActiveSection, BatchesClosed, StoredIn, PublishableBatches;
    var t, s' := s.rows, Publish(s, storeAccepts).ledger;
    if s' != s {
      StructuredIsLinked(t);
      PublicationClosesBatches(t);
      ClosingKeepsStructure(t, WithoutUnfinished(t), InFlightBatches(t));
      PublicationCounts(s.event, t, s'.event);
    }
  }

  // ------------------------------------------------------------ derivatives

  lemma RegisteredRows(t: Tables, a: AssetId, captured: Option<int>, preview: Spec, thumbnail: Spec)
    requires a in t.assets && IsVerified(t, a, Original)
    ensures
      var t' := WithDerivatives(t, a, captured, preview, thumbnail);
      && (forall k :: k in t.objects ==> k in t'.objects && t'.objects[k] == t.objects[k])
      && (forall k :: k in t'.objects && k !in t.objects ==>
            k.asset == a && k.variant != Original && t'.objects[k].state == Reserved)
      && (forall x, b :: InBatch(t', x, b) <==> InBatch(t, x, b))
      && HeldOriginals(t'.objects) == HeldOriginals(t.objects)
      && StoredOriginals(t'.objects) == StoredOriginals(t.objects)
      && (forall k :: k in t.objects ==> Sizes(t'.objects)[k] == Sizes(t.objects)[k])
  {}

  lemma RegisteredObjectFits(t: Tables, a: AssetId, captured: Option<int>, preview: Spec, thumbnail: Spec, k: ObjectKey)
    requires Structured(t) && a in t.assets && IsVerified(t, a, Original)
    requires k in WithDerivatives(t, a, captured, preview, thumbnail).objects
    ensures ObjectFits(WithDerivatives(t, a, captured, preview, thumbnail), k)
  {}

  lemma RegistrationKeepsStructure(t: Tables, a: AssetId, captured: Option<int>, preview: Spec, thumbnail: Spec)
    requires Structured(t) && a in t.assets && IsVerified(t, a, Original)
    ensures Structured(WithDerivatives(t, a, captured, preview, thumbnail))
  {
    hide ObjectFits, BatchFits;
    var t' := WithDerivatives(t, a, captured, preview, thumbnail);
    RegisteredRows(t, a, captured, preview, thumbnail);
    forall k | k in t'.objects ensures ObjectFits(t', k) {
      RegisteredObjectFits(t, a, captured, preview, thumbnail, k);
    }
    assert Linked(t');
    forall x, b | InBatch(t', x, b) && HasObject(t', x, Original) ensures BatchFits(t', b) {
      assert InBatch(t, x, b) && HasObject(t, x, Original);
      BatchStays(t, t', b);
    }
  }

  lemma TalliedFrame(e: Event, held: set<ObjectKey>, stored: set<ObjectKey>, sizes: map<ObjectKey, nat>,
                     sizes': map<ObjectKey, nat>)
    requires Tallied(e, held, stored, sizes)
    requires sizes.Keys <= sizes'.Keys && forall k :: k in sizes ==> sizes'[k] == sizes[k]
    ensures Tallied(e, held, stored, sizes')
  {
    TotalFrame(held, sizes, sizes');
    TotalFrame(stored, sizes, sizes');
  }

  lemma RegisterKeepsLedger(s: Ledger, a: AssetId, source: nat, observed: EventState, captured: Option<int>,
                            preview: Spec, thumbnail: Spec)
    requires LedgerInv(s)
    ensures LedgerInv(RegisterDerivatives(s, a, source, observed, captured, preview, thumbnail).ledger)
  {
    hide Total, Structured, WithDerivatives, InActiveSection;
    var t, s' := s.rows, RegisterDerivatives(s, a, source, observed, captured, preview, thumbnail).ledger;
    if s' != s {
      var t' := WithDerivatives(t, a, captured, preview, thumbnail);
      RegisteredRows(t, a, captured, preview, thumbnail);
      RegistrationKeepsStructure(t, a, captured, preview, thumbnail);
      TalliedFrame(s.event, HeldOriginals(t.objects), StoredOriginals(t.objects), Sizes(t.objects), Sizes(t'.objects));
    }
  }

  lemma CommittedObjectFits(t: Tables, k: ObjectKey, o: StoredObject, j: ObjectKey)
    requires Structured(t) && k.variant != Original && k in t.objects && j in t.objects
    requires t.objects[k].state != Excluded && o.state != Excluded
    ensures ObjectFits(WithObject(t, k, o), j)
  {}

  lemma DerivativeKeepsStructure(t: Tables, k: ObjectKey, o: StoredObject)
    requires Structured(t) && k.variant != Original && k in t.objects
    requires t.objects[k].state != Excluded && o.state != Excluded
    ensures Structured(WithObject(t, k, o))
  {
    hide ObjectFits, BatchFits;
    var t' := WithObject(t, k, o);
    forall j | j in t'.objects ensures ObjectFits(t', j) { CommittedObjectFits(t, k, o, j); }
    forall x, b | InBatch(t', x, b) && HasObject(t', x, Original) ensures BatchFits(t', b) {
      assert InBatch(t, x, b) && HasObject(t, x, Original);
      BatchStays(t, t', b);
    }
  }

  lemma DerivativeKeepsCounts(e: Event, t: Tables, k: ObjectKey, o: StoredObject)
    requires Counted(e, t.objects) && k.variant != Original && k in t.objects && o.spec == t.objects[k].spec
    ensures Counted(e, WithObject(t, k, o).objects)
  {
    var t' := WithObject(t, k, o);
    assert Sizes(t'.objects) == Sizes(t.objects);
    assert HeldOriginals(t'.objects) == HeldOriginals(t.objects);
    assert StoredOriginals(t'.objects) == StoredOriginals(t.objects);
  }

  /** Committing a derivative keeps the ledger invariant exactly when its row is not excluded. */
  lemma DerivativeKeepsLedgerIff(s: Ledger, k: ObjectKey, matches: bool)
    requires LedgerInv(s) && k.variant != Original && k in s.rows.objects
    ensures LedgerInv(DerivativeCommit(s, k, matches).ledger) <==> s.rows.objects[k].state != Excluded
  {
    hide Total, Counted;
    var t, s' := s.rows, DerivativeCommit(s, k, matches).ledger;
    assert ObjectFits(t, k);
    if t.objects[k].state == Excluded {
      assert !ObjectFits(s'.rows, k);
    } else {
      DerivativeKeepsStructure(t, k, s'.rows.objects[k]);
      DerivativeKeepsCounts(s.event, t, k, s'.rows.objects[k]);
    }
  }

  // ------------------------------------------------------------ transactions that leave the objects alone

  predicate SameCounters(e: Event, e': Event) {
    && e'.byteLimit == e.byteLimit
    && e'.reservedBytes == e.reservedBytes && e'.reservedCount == e.reservedCount
    && e'.verifiedBytes == e.verifiedBytes && e'.verifiedCount == e.verifiedCount
  }

  ghost predicate LeavesObjects(s: Ledger, s': Ledger) {
    SameStructure(s.rows, s'.rows) && SameCounters(s.event, s'.event)
  }

  lemma LeavingObjectsKeepsLedger(s: Ledger, s': Ledger)
    requires LedgerInv(s) && LeavesObjects(s, s')
    ensures LedgerInv(s')
  {
    hide Structured;
    StructureFrame(s.rows, s'.rows);
  }

  lemma SameStructureAsItself(t: Tables)
    requires Linked(t)
    ensures SameStructure(t, t)
  {}

  lemma FailureReportLeavesObjects(s: Ledger, a: AssetId)
    requires Linked(s.rows)
    ensures LeavesObjects(s, ReportDerivativeFailure(s, a).ledger)
  {}

  lemma RefreshLeavesObjects(s: Ledger)
    requires Linked(s.rows)
    ensures LeavesObjects(s, RefreshDerivatives(s).ledger)
  {
    hide VisiblePhotos, VerifiedDerivatives, IsVisible, Rank;
  }

  lemma SetFaceLeavesObjects(s: Ledger, a: AssetId, face: Face)
    requires Linked(s.rows)
    ensures LeavesObjects(s, SetFace(s, a, face))
  {}

  lemma SubmissionLeavesObjects(s: Ledger, a: AssetId, section: SectionId, d: FaceDocument)
    requires Linked(s.rows)
    ensures LeavesObjects(s, SubmitFace(s, a, section, d).ledger)
  {
    hide LeavesObjects, SetFace, InActiveSection, IsVerified;
    LeavingNothing(s);
    forall face ensures LeavesObjects(s, SetFace(s, a, face)) { SetFaceLeavesObjects(s, a, face); }
  }

  lemma LeavingNothing(s: Ledger)
    requires Linked(s.rows)
    ensures LeavesObjects(s, s)
  {}

  lemma FaceReportLeavesObjects(s: Ledger, a: AssetId, section: SectionId)
    requires Linked(s.rows)
    ensures LeavesObjects(s, ReportFaceFailure(s, a, section).ledger)
  {
    hide LeavesObjects, SetFace, InActiveSection, IsVerified;
    LeavingNothing(s);
    forall face ensures LeavesObjects(s, SetFace(s, a, face)) { SetFaceLeavesObjects(s, a, face); }
  }

  lemma FaceResetLeavesObjects(s: Ledger, a: AssetId)
    requires Linked(s.rows)
    ensures LeavesObjects(s, ResetFace(s, a).ledger)
  {}

  lemma HidingLeavesObjects(s: Ledger, a: AssetId)
    requires Linked(s.rows)
    ensures LeavesObjects(s, HidePhoto(s, a).ledger)
  {
    hide RetriesExhausted;
  }

  lemma RestoringLeavesObjects(s: Ledger, a: AssetId)
    requires Linked(s.rows)
    ensures LeavesObjects(s, RestorePhoto(s, a).ledger)
  {}

  lemma CreationLeavesObjects(s: Ledger, section: SectionId)
    requires Linked(s.rows)
    ensures LeavesObjects(s, CreateSection(s, section).ledger)
  {}

  lemma ArchivingLeavesObjects(s: Ledger, section: SectionId, archived: bool)
    requires Linked(s.rows)
    ensures LeavesObjects(s, SetArchived(s, section, archived).ledger)
  {}

  lemma ReassigningLeavesObjects(s: Ledger, b: BatchId, section: SectionId)
    requires Linked(s.rows)
    ensures LeavesObjects(s, Reassign(s, b, section).ledger)
  {}

  // ------------------------------------------------------------ purge

  lemma PurgeKeepsLedger(s: Ledger)
    requires LedgerInv(s)
    ensures LedgerInv(Purge(s).ledger)
  {}
}
