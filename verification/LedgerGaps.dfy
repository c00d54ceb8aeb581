/** The commands that are not harmless: what goes wrong, and when exactly. */
module LedgerGaps {
  import opened Prelude
  import opened Tallies
  import opened Lifecycle
  import opened Ledger
  import opened LedgerInvariant
  import opened LedgerSteps
  import opened Publication
  import opened PublicationSteps
  import opened LedgerRuns

  // ------------------------------------------------------------- the two halves of derivative verification

  /** With nothing between its halves, verifying a derivative does harm exactly when the row is excluded; a
      verified one is only lost to another worker's late mismatch. */
  lemma AdjacentHalves(s: Ledger, k: ObjectKey, matches: bool)
    requires k.variant != Original && k in s.rows.objects && s.rows.objects[k].state != Verified
    ensures Harmless(s, CommittingDerivative(k, matches)) <==> s.rows.objects[k].state != Excluded
  {}

  /** Two workers, one match and one mismatch: the photo's pair is gone while it is relied on. */
  lemma LateMismatchBreaksPair(s: Ledger, k: ObjectKey)
    requires k.variant != Original && k in s.rows.objects && IsVisible(s.rows, k.asset) && HasPair(s.rows, k.asset)
    requires s.event.derivativesReady.Some? && s.event.state == Review
    ensures
      var late := DerivativeCommit(s, k, false).ledger;
      late.event == s.event && IsVisible(late.rows, k.asset) && !HasPair(late.rows, k.asset)
  {}

  // ------------------------------------------------------------- bytes that are given back twice

  /** A late mismatch moves an excluded derivative to FAILED; cancelling its contribution then releases the
      derivative's bytes as if they had been reserved. Only the CHECK constraints stand in the way. */
  lemma LateMismatchReleasesTwice(s: Ledger, k: ObjectKey, now: nat)
    requires LedgerInv(s)
    requires k.variant != Original && k in s.rows.objects && s.rows.objects[k].state == Excluded
    requires k.asset in s.rows.assets && s.rows.assets[k.asset].batch in s.rows.batches
    requires s.rows.batches[s.rows.assets[k.asset].batch].state == NotIncluded
    requires forall j :: j in s.rows.objects ==> !LeaseIsActive(s.rows.objects[j], now)
    ensures
      var e, bytes := s.event, s.rows.objects[k].spec.bytes;
      var late := DerivativeCommit(s, k, false).ledger;
      var cancelled := CancelBatch(late, s.rows.assets[k.asset].batch, now, true);
      && (cancelled.reply == Done <==> e.reservedBytes - bytes >= e.verifiedBytes && e.reservedCount - 1 >= e.verifiedCount)
      && (cancelled.reply == Done ==>
            && cancelled.ledger.event.reservedBytes == e.reservedBytes - bytes
            && cancelled.ledger.event.reservedCount == e.reservedCount - 1
            && Sizes(cancelled.ledger.rows.objects) == Sizes(s.rows.objects)
            && HeldOriginals(cancelled.ledger.rows.objects) == HeldOriginals(s.rows.objects)
            && !Counted(cancelled.ledger.event, cancelled.ledger.rows.objects))
  {
    hide Total, Structured, Releasable, BatchObjects, LeaseIsActive, WithdrawnBatch;
    var t, b := s.rows, s.rows.assets[k.asset].batch;
    OnlyTheLateRow(t, k);
    CountedIsWithinConstraints(s.event, t.objects);
    var late := DerivativeCommit(s, k, false).ledger;
    StaleLeases(t, k, now);
    SmallTotals(k, Sizes(t.objects));
    HeldDespiteLateRow(t, k);
    assert late.rows == LateRow(t, k) && Sizes(late.rows.objects) == Sizes(t.objects);
  }

  function LateRow(t: Tables, k: ObjectKey): Tables
    requires k in t.objects
  {
    WithObject(t, k, t.objects[k].(state := Failed))
  }

  /** Every object of a contribution that was not included is excluded, so only the late row counts. */
  lemma OnlyTheLateRow(t: Tables, k: ObjectKey)
    requires Structured(t) && k.variant != Original && k in t.objects
    requires k.asset in t.assets && t.assets[k.asset].batch in t.batches
    requires t.batches[t.assets[k.asset].batch].state == NotIncluded
    ensures forall j :: j in BatchObjects(t, t.assets[k.asset].batch) ==> t.objects[j].state == Excluded
    ensures Releasable(LateRow(t, k), t.assets[k.asset].batch) == {k}
    ensures
      forall j :: j in BatchObjects(LateRow(t, k), t.assets[k.asset].batch) ==> LateRow(t, k).objects[j].state != Verified
  {}

  lemma StaleLeases(t: Tables, k: ObjectKey, now: nat)
    requires k in t.objects && forall j :: j in t.objects ==> !LeaseIsActive(t.objects[j], now)
    ensures forall b, j :: j in BatchObjects(LateRow(t, k), b) ==> !LeaseIsActive(LateRow(t, k).objects[j], now)
  {}

  lemma HeldDespiteLateRow(t: Tables, k: ObjectKey)
    requires k in t.objects && k.variant != Original && k.asset in t.assets
    requires t.assets[k.asset].batch in t.batches
    requires forall j :: j in BatchObjects(t, t.assets[k.asset].batch) ==> t.objects[j].state == Excluded
    ensures
      var withdrawn := WithdrawnBatch(LateRow(t, k), t.assets[k.asset].batch);
      HeldOriginals(withdrawn.objects) == HeldOriginals(t.objects) && Sizes(withdrawn.objects) == Sizes(t.objects)
  {}

  // ------------------------------------------------------------- unready photos in public

  /** When moving a contribution shows unready photos in an event that could be published by hand, the
      published gallery is not whole. */
  lemma UnreadyGoesPublic(sys: System, b: BatchId, section: SectionId)
    requires SafeInv(sys) && ShowsUnready(sys.ledger, b, section)
    requires sys.ledger.event.state == Review && Transition(sys.ledger, Published, true).reply == Done
    ensures
      var public := Transition(Reassign(sys.ledger, b, section).ledger, Published, true);
      && public.reply == Done && public.ledger.event.state == Published
      && !GalleryFits(public.ledger)
  {
    hide LedgerInv, PublicationInv;
    var s := sys.ledger;
    var t, t' := s.rows, Reassign(s, b, section).ledger.rows;
    var a :| InBatch(t, a, b) && !t.assets[a].hidden && IsVerified(t, a, Original)
             && ((s.event.derivativesReady.Some? && !HasPair(t, a))
                 || (s.event.facesReady.Some? && !HasFaces(t, s.event.faceModel, a)));
    assert t'.archived == t.archived;
    assert IsVisible(t', a);
    assert HasPair(t', a) == HasPair(t, a) && HasFaces(t', s.event.faceModel, a) == HasFaces(t, s.event.faceModel, a);
  }
}
