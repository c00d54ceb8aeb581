/** What commands write: which rows an answered command leaves different, and how; all others stay as they are. */
module CommandEffects {
  import opened Prelude
  import opened Tallies
  import opened Lifecycle
  import opened Ledger
  import opened LedgerInvariant
  import opened Publication
  import opened LedgerRuns
  import opened CommandFacts
  import opened CommandRefusals
  import LedgerGuarantees

  /** The rows outside `keys` are the same. */
  ghost predicate SameElsewhere<K(!new), V>(before: map<K, V>, now: map<K, V>, keys: set<K>) {
    && (forall k :: k !in keys ==> (k in now <==> k in before))
    && (forall k :: k !in keys && k in before && k in now ==> now[k] == before[k])
  }

  /** The row of `k` is `row`, and the others are the same. */
  ghost predicate RowWritten<K(!new), V>(before: map<K, V>, now: map<K, V>, k: K, row: V) {
    k in now && now[k] == row && SameElsewhere(before, now, {k})
  }

  // ------------------------------------------------------------- contributions and uploads

  /** A new contribution is on record as it was sent; one that was there already changes nothing. */
  ghost predicate ContributionWritten(s: Ledger, c: Contribution, s': Ledger) {
    var e, t, e', t' := s.event, s.rows, s'.event, s'.rows;
    if c.batch in t.batches then s' == s
    else
      && RowWritten(t.batches, t'.batches, c.batch,
           Batch(c.section, c.installation, e.generation, Some(c.digest), InFlight))
      && SameElsewhere(t.assets, t'.assets, c.items.Keys)
      && SameElsewhere(t.objects, t'.objects, OriginalKeys(c.items.Keys))
      && (forall a :: a in c.items ==>
            && a in t'.assets && HasObject(t', a, Original)
            && t'.assets[a] == Asset(c.batch, c.items[a].sha, None, c.items[a].name, false, None, false, 0)
            && t'.objects[ObjectKey(a, Original)] == StoredObject(c.items[a].spec, Reserved, None))
      && e'.policy && e'.state == Uploading
      && e'.reservedBytes == e.reservedBytes + BytesOf(c) && e'.reservedCount == e.reservedCount + |c.items|
  }

  lemma ReservationWrites(s: Ledger, c: Contribution)
    requires c.items != map[] && Reserve(s, c).reply.Done?
    ensures ContributionWritten(s, c, Reserve(s, c).ledger)
  {
    hide WithinConstraints, Total;
    if c.batch !in s.rows.batches { RowsOfContribution(s.rows, c, s.event.generation); }
    hide WithContribution, SameElsewhere, OriginalKeys;
  }

  lemma RowsOfContribution(t: Tables, c: Contribution, generation: nat)
    ensures
      var t' := WithContribution(t, c, generation);
      && RowWritten(t.batches, t'.batches, c.batch, Batch(c.section, c.installation, generation, Some(c.digest), InFlight))
      && SameElsewhere(t.assets, t'.assets, c.items.Keys)
      && SameElsewhere(t.objects, t'.objects, OriginalKeys(c.items.Keys))
      && forall a :: a in c.items ==>
           && a in t'.assets && HasObject(t', a, Original)
           && t'.assets[a] == Asset(c.batch, c.items[a].sha, None, c.items[a].name, false, None, false, 0)
           && t'.objects[ObjectKey(a, Original)] == StoredObject(c.items[a].spec, Reserved, None)
  {
    forall a | a in c.items
      ensures ObjectKey(a, Original) in WithContribution(t, c, generation).objects
           && WithContribution(t, c, generation).objects[ObjectKey(a, Original)]
              == StoredObject(c.items[a].spec, Reserved, None)
    {
      assert ObjectKey(a, Original) in OriginalKeys(c.items.Keys);
    }
  }

  /** The chosen originals of a contribution in flight that still have to arrive are awaited until then. */
  ghost predicate LeasesWritten(s: Ledger, b: BatchId, chosen: set<AssetId>, until: nat, s': Ledger) {
    var t, t' := s.rows, s'.rows;
    && t'.objects.Keys == t.objects.Keys
    && forall k :: k in t.objects ==>
         t'.objects[k] ==
           if && InFlightIn(t, b) && k.variant == Original && k.asset in chosen
              && InBatch(t, k.asset, b) && IsPending(t, k.asset)
           then StoredObject(t.objects[k].spec, Reserved, Some(until)) else t.objects[k]
  }

  predicate InFlightIn(t: Tables, b: BatchId) {
    b in t.batches && t.batches[b].state == InFlight
  }

  lemma LeaseWrites(s: Ledger, b: BatchId, installation: nat, chosen: set<AssetId>, until: nat)
    requires Lease(s, b, installation, chosen, until).reply.Done?
    ensures LeasesWritten(s, b, chosen, until, Lease(s, b, installation, chosen, until).ledger)
  {
    hide InActiveSection;
  }

  /** An original was settled; that completes its contribution when nothing else of it is pending. */
  ghost predicate Settles(t: Tables, t': Tables, a: AssetId, state: ObjectState)
    requires OnRecord(t, a)
  {
    var k, b := ObjectKey(a, Original), t.assets[a].batch;
    && RowWritten(t.objects, t'.objects, k, t.objects[k].(state := state))
    && RowWritten(t.batches, t'.batches, b,
         if InFlightIn(t, b) && forall x :: x != a && InBatch(t, x, b) ==> !IsPending(t, x)
         then t.batches[b].(state := Complete) else t.batches[b])
  }

  lemma SettlingWrites(t: Tables, a: AssetId, state: ObjectState)
    requires OnRecord(t, a) && state in {Verified, Excluded}
    ensures
      var k := ObjectKey(a, Original);
      Settles(t, CompleteIfTerminal(WithObject(t, k, t.objects[k].(state := state)), t.assets[a].batch), a, state)
  {
    var k, b := ObjectKey(a, Original), t.assets[a].batch;
    var t1 := WithObject(t, k, t.objects[k].(state := state));
    forall x ensures InBatch(t1, x, b) && IsPending(t1, x) <==> x != a && InBatch(t, x, b) && IsPending(t, x) {}
  }

  ghost predicate CompletionWritten(s: Ledger, a: AssetId, s': Ledger)
    requires OnRecord(s.rows, a)
  {
    var t, bytes := s.rows, s.rows.objects[ObjectKey(a, Original)].spec.bytes;
    if !IsPending(t, a) then s' == s
    else
      && Settles(t, s'.rows, a, Verified)
      && s'.event.verifiedBytes == s.event.verifiedBytes + bytes && s'.event.verifiedCount == s.event.verifiedCount + 1
  }

  /** Not the right object: the original failed and is leased no more. */
  ghost predicate MismatchWritten(s: Ledger, a: AssetId, s': Ledger)
    requires OnRecord(s.rows, a)
  {
    var k := ObjectKey(a, Original);
    && s' == s.(rows := s.rows.(objects := s'.rows.objects))
    && RowWritten(s.rows.objects, s'.rows.objects, k, StoredObject(s.rows.objects[k].spec, Failed, None))
  }

  lemma VerificationWrites(s: Ledger, a: AssetId, head: Spec)
    ensures
      var (s', reply) := (VerifyCommit(s, a, head).ledger, VerifyCommit(s, a, head).reply);
      && (reply.Done? ==> OnRecord(s.rows, a) && CompletionWritten(s, a, s'))
      && (reply == Reply.Rejected(ObjectMismatch) ==> OnRecord(s.rows, a) && MismatchWritten(s, a, s'))
  {
    if OnRecord(s.rows, a) { SettlingWrites(s.rows, a, Verified); }
    hide CompleteIfTerminal, WithinConstraints, Settles;
  }

  ghost predicate ExclusionWritten(s: Ledger, a: AssetId, s': Ledger)
    requires OnRecord(s.rows, a)
  {
    var t, bytes := s.rows, s.rows.objects[ObjectKey(a, Original)].spec.bytes;
    if !IsPending(t, a) then s' == s
    else
      && Settles(t, s'.rows, a, Excluded)
      && s'.event.reservedBytes == s.event.reservedBytes - bytes && s'.event.reservedCount == s.event.reservedCount - 1
  }

  lemma ExclusionWrites(s: Ledger, a: AssetId, now: nat, storeAnswers: bool)
    requires ExcludeAsset(s, a, now, storeAnswers).reply.Done?
    ensures OnRecord(s.rows, a) && ExclusionWritten(s, a, ExcludeAsset(s, a, now, storeAnswers).ledger)
  {
    if OnRecord(s.rows, a) { SettlingWrites(s.rows, a, Excluded); }
    hide CompleteIfTerminal, WithinConstraints, Settles, LeaseIsActive;
  }

  /** Every object of the contribution is excluded, whatever its variant, and the contribution withdrawn. */
  ghost predicate CancellationWritten(s: Ledger, b: BatchId, s': Ledger)
    requires b in s.rows.batches
  {
    var t, t' := s.rows, s'.rows;
    if t.batches[b].state == Withdrawn then s' == s
    else
      && RowWritten(t.batches, t'.batches, b, t.batches[b].(state := Withdrawn))
      && SameElsewhere(t.objects, t'.objects, BatchObjects(t, b))
      && forall k :: k in BatchObjects(t, b) ==> k in t'.objects && t'.objects[k] == t.objects[k].(state := Excluded)
  }

  lemma CancellationWrites(s: Ledger, b: BatchId, now: nat, storeAnswers: bool)
    requires CancelBatch(s, b, now, storeAnswers).reply.Done?
    ensures b in s.rows.batches && CancellationWritten(s, b, CancelBatch(s, b, now, storeAnswers).ledger)
  {
    hide WithinConstraints, LeaseIsActive, Total, InBatch, Releasable;
  }

  // ------------------------------------------------------------- publication and intake

  /** The photo belongs to a contribution that is still in flight. */
  predicate IsUnfinished(t: Tables, a: AssetId) {
    a in t.assets && InFlightIn(t, t.assets[a].batch)
  }

  /** Contributions in flight are closed as not included, their objects excluded, their analyses deleted; the event
      is published with everything current. */
  ghost predicate PublicationWritten(s: Ledger, s': Ledger) {
    var e, t, e', t' := s.event, s.rows, s'.event, s'.rows;
    && t'.batches.Keys == t.batches.Keys && t'.objects.Keys == t.objects.Keys
    && (forall b :: b in t.batches ==>
          t'.batches[b] == if InFlightIn(t, b) then t.batches[b].(state := NotIncluded) else t.batches[b])
    && (forall k :: k in t.objects ==>
          t'.objects[k] == if IsUnfinished(t, k.asset) then StoredObject(t.objects[k].spec, Excluded, None) else t.objects[k])
    && (forall a :: a in t'.faces <==> a in t.faces && !IsUnfinished(t, a))
    && (forall a :: a in t'.faces ==> t'.faces[a] == t.faces[a])
    && e'.state == Published && e'.intake == Closed
    && e'.manifest == e'.derivativesReady == e'.facesReady == Some(e.generation)
    && e.generation !in s.manifests && SameElsewhere(s.manifests, s'.manifests, {e.generation})
    && e.generation in s'.manifests && s'.manifests[e.generation].state == Committed
  }

  lemma PublicationWrites(s: Ledger, storeAccepts: bool)
    requires Publish(s, storeAccepts).reply.Done?
    ensures
      var s' := Publish(s, storeAccepts).ledger;
      if s.event.state == Published then s' == s else PublicationWritten(s, s')
  {
    hide WithinConstraints, Total, IncludedPhotos, VerifiedDerivatives, AnalysedPhotos, HasActiveSection, StoredIn,
         PublishableBatches, HeldOriginals, StoredOriginals;
    UnfinishedRows(s.rows);
    hide WithoutUnfinished, DroppedObjects, IsUnfinished, InFlightIn;
  }

  lemma UnfinishedRows(t: Tables)
    ensures
      var t' := WithoutUnfinished(t);
      && t'.batches.Keys == t.batches.Keys && t'.objects.Keys == t.objects.Keys
      && (forall b :: b in t.batches ==>
            t'.batches[b] == if InFlightIn(t, b) then t.batches[b].(state := NotIncluded) else t.batches[b])
      && (forall k :: k in t.objects ==>
            t'.objects[k] ==
              if IsUnfinished(t, k.asset) then StoredObject(t.objects[k].spec, Excluded, None) else t.objects[k])
      && (forall a :: a in t'.faces <==> a in t.faces && !IsUnfinished(t, a))
      && (forall a :: a in t'.faces ==> t'.faces[a] == t.faces[a])
  {}

  /** The next generation begins: uploads are open, and nothing is current. */
  predicate GenerationOpened(e: Event, e': Event) {
    && e'.generation == e.generation + 1 && e'.intake == Open && e'.state == Uploading
    && e'.manifest.None? && e'.derivativesReady.None? && e'.facesReady.None?
  }

  ghost predicate IntakeStepWritten(s: Ledger, step: Step, s': Ledger) {
    match step
    case Closing => s' == s.(event := s.event.(intake := Closed))
    case Reopening => if s.event.intake == Open then s' == s else GenerationOpened(s.event, s'.event)
    case Unpublishing => GenerationOpened(s.event, s'.event)
    case _ => true
  }

  lemma IntakeStepWrites(s: Ledger, step: Step)
    requires (step.Closing? || step.Reopening? || step.Unpublishing?) && Execute(s, step).reply.Done?
    ensures IntakeStepWritten(s, step, Execute(s, step).ledger)
  {}

  /** The prepared manifest counts the verified originals; one that is there already stays. */
  ghost predicate ManifestPrepared(s: Ledger, s': Ledger) {
    var g := s.event.generation;
    if g in s.manifests || s.event.state == Processing then s' == s
    else
      RowWritten(s.manifests, s'.manifests, g,
        Manifest(Prepared, |StoredOriginals(s.rows.objects)|, Total(StoredOriginals(s.rows.objects), Sizes(s.rows.objects))))
  }

  ghost predicate ManifestCommitted(s: Ledger, g: nat, s': Ledger) {
    && g in s.manifests && RowWritten(s.manifests, s'.manifests, g, s.manifests[g].(state := Committed))
    && s'.event.manifest == Some(g) && s'.event.state == Processing
  }

  lemma FinalizationWrites(s: Ledger, g: nat)
    ensures FinalizeBegin(s).reply.Done? ==> ManifestPrepared(s, FinalizeBegin(s).ledger)
    ensures FinalizeCommit(s, g).reply.Done? ==> ManifestCommitted(s, g, FinalizeCommit(s, g).ledger)
  {
    hide EveryOriginalTerminal, Total;
  }

  // ------------------------------------------------------------- derivatives

  /** Both derivatives are on record, and a capture time that was given; whatever was there stays. */
  ghost predicate RegistrationWritten(
    s: Ledger, a: AssetId, captured: Option<int>, preview: Spec, thumbnail: Spec, s': Ledger)
  {
    var t, t', p, q := s.rows, s'.rows, ObjectKey(a, Preview), ObjectKey(a, Thumbnail);
    && a in t.assets && p in t'.objects && q in t'.objects
    && t'.objects[p] == (if p in t.objects then t.objects[p] else StoredObject(preview, Reserved, None))
    && t'.objects[q] == (if q in t.objects then t.objects[q] else StoredObject(thumbnail, Reserved, None))
    && t'.objects[p].spec == preview && t'.objects[q].spec == thumbnail
    && SameElsewhere(t.objects, t'.objects, {p, q})
    && RowWritten(t.assets, t'.assets, a,
         t.assets[a].(captured := if captured.None? then t.assets[a].captured else captured, derivativeFailed := false))
  }

  lemma RegistrationWrites(
    s: Ledger, a: AssetId, source: nat, observed: EventState, captured: Option<int>, preview: Spec, thumbnail: Spec)
    requires RegisterDerivatives(s, a, source, observed, captured, preview, thumbnail).reply.Done?
    ensures RegistrationWritten(s, a, captured, preview, thumbnail,
              RegisterDerivatives(s, a, source, observed, captured, preview, thumbnail).ledger)
  {
    hide InActiveSection, IsVerified;
  }

  ghost predicate DerivativeStepWritten(s: Ledger, step: Step, s': Ledger) {
    var t, t' := s.rows, s'.rows;
    match step
    case ReportingDerivative(a) =>
      && a in t.assets
      && RowWritten(t.assets, t'.assets, a,
           t.assets[a].(derivativeFailed := true, derivativeAttempts := t.assets[a].derivativeAttempts + 1))
    case CommittingDerivative(k, matches) =>
      && k in t.objects
      && RowWritten(t.objects, t'.objects, k, t.objects[k].(state := if matches then Verified else Failed))
    case _ => true
  }

  lemma DerivativeStepWrites(s: Ledger, step: Step)
    requires step.ReportingDerivative? || step.CommittingDerivative?
    requires step.CommittingDerivative? ==> step.key.variant != Original
    requires Execute(s, step).reply
          == if step.CommittingDerivative? && !step.matches then Rejected(DerivativeMismatch) else Done
    ensures DerivativeStepWritten(s, step, Execute(s, step).ledger)
  {
    hide InActiveSection;
  }

  /** Readiness is granted with positions, or taken away; an event without visible photos keeps its state. */
  ghost predicate ReadinessWritten(s: Ledger, s': Ledger) {
    var e, t, photos := s.event, s.rows, VisiblePhotos(s.rows);
    if !CurrentManifest(s) then s' == s
    else if photos == {} then s' == s.(event := e.(derivativesReady := None))
    else if exists a :: a in photos && !HasPair(t, a) then
      s' == s.(event := e.(derivativesReady := None, state := if e.state == Review then Processing else e.state))
    else
      && s'.event == e.(derivativesReady := Some(e.generation), state := if e.state == Processing then Review else e.state)
      && s'.rows == t.(assets := s'.rows.assets) && s'.rows.assets.Keys == t.assets.Keys
      && forall a :: a in t.assets ==>
           && (a !in photos ==> s'.rows.assets[a] == t.assets[a])
           && (a in photos ==> s'.rows.assets[a] == t.assets[a].(position := Some(Rank(t, a))))
  }

  lemma RefreshWrites(s: Ledger)
    ensures ReadinessWritten(s, RefreshDerivatives(s).ledger)
  {
    PairGate(s.rows, VisiblePhotos(s.rows));
    assert forall a :: a in s.rows.assets ==> (a in VisiblePhotos(s.rows) <==> IsVisible(s.rows, a));
    hide VisiblePhotos, IsVisible, VerifiedDerivatives, Rank, HasPair;
  }

  // ------------------------------------------------------------- faces

  /** An accepted analysis is on record with its outcome, bytes and model; it counts as one more attempt. */
  ghost predicate AnalysisWritten(s: Ledger, a: AssetId, d: FaceDocument, s': Ledger) {
    var t := s.rows;
    if IsAnalysed(t, a) then s' == s
    else
      && RowWritten(t.faces, s'.rows.faces, a,
           Face(if d.hasUsableFace then Indexed else NoUsableFace, d.source, d.model, Some(d.document),
                if a in t.faces then t.faces[a].attempts + 1 else 1))
      && s'.event.facesReady.None?
  }

  /** A second opinion is not stored, but puts the photo in conflict. */
  ghost predicate ConflictWritten(s: Ledger, a: AssetId, s': Ledger) {
    var t := s.rows;
    if !IsAnalysed(t, a) then s' == s
    else
      && RowWritten(t.faces, s'.rows.faces, a, t.faces[a].(state := Conflict, attempts := t.faces[a].attempts + 1))
      && s'.event.facesReady.None?
  }

  lemma SubmissionWrites(s: Ledger, a: AssetId, section: SectionId, d: FaceDocument)
    ensures
      var (s', reply) := (SubmitFace(s, a, section, d).ledger, SubmitFace(s, a, section, d).reply);
      && (reply.Done? ==> AnalysisWritten(s, a, d, s'))
      && (reply == Rejected(FaceConflict) ==> ConflictWritten(s, a, s'))
  {
    AnalysisRefusedIff(s, a, section);
    OnlyTheseRefuseAnalysis(s, a, section);
    hide ProcessingAllowed, RefusesAnalysis;
  }

  ghost predicate FaceReportWritten(s: Ledger, a: AssetId, s': Ledger) {
    var e, t := s.event, s.rows;
    if a !in t.faces then
      && a in t.assets
      && RowWritten(t.faces, s'.rows.faces, a, Face(FaceFailed, t.assets[a].sha, e.faceModel, None, 1))
      && s'.event.facesReady.None?
    else if t.faces[a].state in {Pending, FaceFailed} && t.faces[a].attempts < MAX_ATTEMPTS then
      && RowWritten(t.faces, s'.rows.faces, a, t.faces[a].(state := FaceFailed, attempts := t.faces[a].attempts + 1))
      && s'.event.facesReady.None?
    else s' == s
  }

  lemma FaceReportWrites(s: Ledger, a: AssetId, section: SectionId)
    requires ReportFaceFailure(s, a, section).reply.Done?
    ensures FaceReportWritten(s, a, ReportFaceFailure(s, a, section).ledger)
  {
    AnalysisRefusedIff(s, a, section);
    hide ProcessingAllowed, RefusesAnalysis;
  }

  // ------------------------------------------------------------- review, sections and the event row

  ghost predicate ReviewStepWritten(s: Ledger, step: Step, s': Ledger) {
    var e, t, e', t' := s.event, s.rows, s'.event, s'.rows;
    match step
    case ResettingFace(a) =>
      && a in t.assets && e'.facesReady.None?
      && RowWritten(t.faces, t'.faces, a, Face(Pending, t.assets[a].sha, e.faceModel, None, 0))
    case Hiding(a) =>
      && a in t.assets
      && (if t.assets[a].hidden then s' == s
          else RowWritten(t.assets, t'.assets, a, t.assets[a].(hidden := true, position := None))
               && e'.derivativesReady.None? && e'.facesReady.None?)
    case Restoring(a) =>
      && a in t.assets
      && (if !t.assets[a].hidden then s' == s
          else RowWritten(t.assets, t'.assets, a, t.assets[a].(hidden := false, position := None))
               && e'.derivativesReady.None? && e'.facesReady.None?
               && e'.state == if e.state == Review then Processing else e.state)
    case CreatingSection(section) => RowWritten(t.archived, t'.archived, section, false)
    case Archiving(section, archived) =>
      && section in t.archived
      && (if t.archived[section] == archived then s' == s
          else RowWritten(t.archived, t'.archived, section, archived) && e'.derivativesReady.None? && e'.facesReady.None?)
    case Reassigning(b, section) =>
      b in t.batches && RowWritten(t.batches, t'.batches, b, t.batches[b].(section := section))
    case _ => true
  }

  lemma ReviewStepWrites(s: Ledger, step: Step)
    requires IsReviewStep(step) && Execute(s, step).reply.Done?
    ensures ReviewStepWritten(s, step, Execute(s, step).ledger)
  {
    hide RetriesExhausted;
  }

  /** A purge leaves ids and structure, and nothing that tells about the photos. */
  ghost predicate PurgeWritten(s: Ledger, s': Ledger) {
    var t, t' := s.rows, s'.rows;
    && t'.objects == map[] && t'.faces == map[] && s'.manifests == map[]
    && t'.assets.Keys == t.assets.Keys && t'.batches.Keys == t.batches.Keys
    && (forall a :: a in t.assets ==>
          t'.assets[a] == Asset(t.assets[a].batch, 0, None, 0, false, None, false, t.assets[a].derivativeAttempts))
    && (forall b :: b in t.batches ==> t'.batches[b] == t.batches[b].(digest := None))
    && !s'.event.policy && s'.event.manifest.None? && s'.event.derivativesReady.None? && s'.event.facesReady.None?
    && s'.event.reservedBytes == s'.event.verifiedBytes == 0 && s'.event.reservedCount == s'.event.verifiedCount == 0
  }

  ghost predicate EventStepWritten(s: Ledger, step: Step, s': Ledger) {
    match step
    case RefreshingFaces =>
      var granted := CurrentManifest(s) && VisiblePhotos(s.rows) != {}
                     && forall a :: a in VisiblePhotos(s.rows) ==> HasFaces(s.rows, s.event.faceModel, a);
      s' == s.(event := s.event.(facesReady := if granted then Some(s.event.generation) else None))
    case Transitioning(target, _) => s' == s.(event := s.event.(state := target))
    case ConfirmingPolicy => s' == s.(event := s.event.(policy := true))
    case RequestingErasure => s' == s.(event := s.event.(state := Cancelled, intake := Closed))
    case Purging => PurgeWritten(s, s')
    case _ => true
  }

  lemma EventStepWrites(s: Ledger, step: Step)
    requires step.RefreshingFaces? || step.Transitioning? || step.ConfirmingPolicy? || step.RequestingErasure?
             || step.Purging?
    requires Execute(s, step).reply.Done?
    ensures EventStepWritten(s, step, Execute(s, step).ledger)
  {
    FaceReadinessMeans(s);
    hide VisiblePhotos, AnalysedPhotos, HasFaces, HasActiveSection;
  }

  // ------------------------------------------------------------- all commands

  /** What an answered command writes. */
  ghost predicate Written(s: Ledger, step: Step, s': Ledger) {
    match step
    case Reserving(c) => ContributionWritten(s, c, s')
    case Leasing(b, _, chosen, until) => LeasesWritten(s, b, chosen, until, s')
    case Verifying(a, _) => OnRecord(s.rows, a) && CompletionWritten(s, a, s')
    case Excluding(a, _, _) => OnRecord(s.rows, a) && ExclusionWritten(s, a, s')
    case Cancelling(b, _, _) => b in s.rows.batches && CancellationWritten(s, b, s')
    case Publishing(_) => if s.event.state == Published then s' == s else PublicationWritten(s, s')
    case Preparing => ManifestPrepared(s, s')
    case Finalizing(g) => ManifestCommitted(s, g, s')
    case Registering(a, _, _, captured, p, q) => RegistrationWritten(s, a, captured, p, q, s')
    case RefreshingDerivatives => ReadinessWritten(s, s')
    case SubmittingFace(a, _, d) => AnalysisWritten(s, a, d, s')
    case ReportingFace(a, _) => FaceReportWritten(s, a, s')
    case _ =>
      && IntakeStepWritten(s, step, s') && DerivativeStepWritten(s, step, s') && ReviewStepWritten(s, step, s')
      && EventStepWritten(s, step, s')
  }

  /** What a refused one writes: nothing, except that three refusals record what they found. */
  ghost predicate RefusalWritten(s: Ledger, step: Step, error: Error, s': Ledger) {
    if step.Verifying? && error == ObjectMismatch then OnRecord(s.rows, step.asset) && MismatchWritten(s, step.asset, s')
    else if step.CommittingDerivative? && error == DerivativeMismatch then DerivativeStepWritten(s, step, s')
    else if step.SubmittingFace? && error == FaceConflict then ConflictWritten(s, step.asset, s')
    else s' == s
  }

  lemma UploadStepWrites(s: Ledger, step: Step)
    requires step.Reserving? || step.Leasing? || step.Verifying? || step.Excluding? || step.Cancelling? || step.Publishing?
    requires step.Reserving? ==> step.contribution.items != map[]
    ensures Execute(s, step).reply.Done? ==> Written(s, step, Execute(s, step).ledger)
  {
    hide Reserve, Lease, VerifyCommit, ExcludeAsset, CancelBatch, Publish, ContributionWritten, LeasesWritten,
         CompletionWritten, ExclusionWritten, CancellationWritten, PublicationWritten, OnRecord;
    if Execute(s, step).reply.Done? {
      match step
      case Reserving(c) => ReservationWrites(s, c);
      case Leasing(b, installation, chosen, until) => LeaseWrites(s, b, installation, chosen, until);
      case Verifying(a, head) => VerificationWrites(s, a, head);
      case Excluding(a, now, answers) => ExclusionWrites(s, a, now, answers);
      case Cancelling(b, now, answers) => CancellationWrites(s, b, now, answers);
      case Publishing(accepts) => PublicationWrites(s, accepts);
    }
  }

  ghost predicate IsLaterStep(step: Step) {
    step.Preparing? || step.Finalizing? || step.Registering? || step.RefreshingDerivatives? || step.SubmittingFace?
    || step.ReportingFace?
  }

  lemma LaterStepWrites(s: Ledger, step: Step)
    requires IsLaterStep(step)
    ensures Execute(s, step).reply.Done? ==> Written(s, step, Execute(s, step).ledger)
  {
    hide FinalizeBegin, FinalizeCommit, RegisterDerivatives, RefreshDerivatives, SubmitFace, ReportFaceFailure,
         ManifestPrepared, ManifestCommitted, RegistrationWritten, ReadinessWritten, AnalysisWritten, FaceReportWritten;
    if Execute(s, step).reply.Done? {
      match step
      case Preparing => FinalizationWrites(s, 0);
      case Finalizing(g) => FinalizationWrites(s, g);
      case Registering(a, source, observed, captured, p, q) =>
        RegistrationWrites(s, a, source, observed, captured, p, q);
      case RefreshingDerivatives => RefreshWrites(s);
      case SubmittingFace(a, section, d) => SubmissionWrites(s, a, section, d);
      case ReportingFace(a, section) => FaceReportWrites(s, a, section);
    }
  }

  lemma OtherStepWrites(s: Ledger, step: Step)
    requires !IsLaterStep(step) && !step.Reserving? && !step.Leasing? && !step.Verifying? && !step.Excluding?
             && !step.Cancelling? && !step.Publishing?
    requires step.CommittingDerivative? ==> step.key.variant != Original
    ensures Execute(s, step).reply.Done? ==> Written(s, step, Execute(s, step).ledger)
  {
    if Execute(s, step).reply.Done? {
      assert IntakeStepWritten(s, step, Execute(s, step).ledger) by {
        hide Execute;
        if step.Closing? || step.Reopening? || step.Unpublishing? { IntakeStepWrites(s, step); }
      }
      assert DerivativeStepWritten(s, step, Execute(s, step).ledger) by {
        if step.ReportingDerivative? || step.CommittingDerivative? { DerivativeStepWrites(s, step); }
      }
      hide Execute, IntakeStepWritten, DerivativeStepWritten;
      if IsReviewStep(step) { ReviewStepWrites(s, step); }
      if step.RefreshingFaces? || step.Transitioning? || step.ConfirmingPolicy? || step.RequestingErasure? || step.Purging? {
        EventStepWrites(s, step);
      }
    }
  }

  lemma RecordedRefusal(s: Ledger, step: Step)
    requires step.Verifying? || step.SubmittingFace? || (step.CommittingDerivative? && step.key.variant != Original)
    ensures
      var (s', reply) := (Execute(s, step).ledger, Execute(s, step).reply);
      reply.Rejected? ==> RefusalWritten(s, step, reply.error, s')
  {
    hide OnRecord, MismatchWritten, ConflictWritten, CompleteIfTerminal, WithinConstraints, ProcessingAllowed;
    if step.Verifying? {
      VerificationWrites(s, step.asset, step.head);
    } else if step.SubmittingFace? {
      SubmissionWrites(s, step.asset, step.section, step.document);
    }
  }

  lemma UploadIsRefused(s: Ledger, step: Step)
    requires step.Reserving? || step.Leasing? || step.Excluding? || step.Cancelling? || step.Publishing?
    requires step.Reserving? ==> step.contribution.items != map[]
    ensures Execute(s, step).reply.Rejected? ==> Execute(s, step).ledger == s
  {
    hide Total, WithinConstraints, HasActiveSection, VerifiedDerivatives, AnalysedPhotos, Leased, BatchObjects, Releasable,
         InActiveSection, LeaseIsActive, IncludedPhotos, Snapshotted, WithContribution, CompleteIfTerminal, WithdrawnBatch;
  }

  lemma OtherIsRefused(s: Ledger, step: Step)
    requires !step.Reserving? && !step.Leasing? && !step.Verifying? && !step.Excluding? && !step.Cancelling?
             && !step.Publishing? && !step.SubmittingFace? && !step.CommittingDerivative?
    ensures Execute(s, step).reply.Rejected? ==> Execute(s, step).ledger == s
  {
    hide HasActiveSection, VisiblePhotos, VerifiedDerivatives, AnalysedPhotos, Positioned, InActiveSection, IsVerified,
         RetriesExhausted, ForDerivativeReadiness, ForManualTransition, Redacted, Forgotten, EveryOriginalTerminal,
         StoredOriginals, OriginalsManifest, ProcessingAllowed, WithDerivatives;
  }

  lemma RefusalWrites(s: Ledger, step: Step)
    requires step.Reserving? ==> step.contribution.items != map[]
    requires step.CommittingDerivative? ==> step.key.variant != Original
    ensures
      var (s', reply) := (Execute(s, step).ledger, Execute(s, step).reply);
      reply.Rejected? ==> RefusalWritten(s, step, reply.error, s')
  {
    hide Execute;
    if step.Verifying? || step.SubmittingFace? || step.CommittingDerivative? {
      hide RefusalWritten;
      RecordedRefusal(s, step);
    } else if step.Reserving? || step.Leasing? || step.Excluding? || step.Cancelling? || step.Publishing? {
      UploadIsRefused(s, step);
    } else {
      OtherIsRefused(s, step);
    }
  }

  /** Main result: an answered command writes exactly this. */
  lemma CommandWrites(sys: System, step: Step)
    requires Enabled(sys, step)
    ensures
      var (s', reply) := (Execute(sys.ledger, step).ledger, Execute(sys.ledger, step).reply);
      match reply
      case Done => Written(sys.ledger, step, s')
      case Rejected(error) => RefusalWritten(sys.ledger, step, error, s')
  {
    hide Execute, Written, RefusalWritten;
    RefusalWrites(sys.ledger, step);
    if IsLaterStep(step) {
      LaterStepWrites(sys.ledger, step);
    } else if step.Reserving? || step.Leasing? || step.Verifying? || step.Excluding? || step.Cancelling? || step.Publishing? {
      UploadStepWrites(sys.ledger, step);
    } else {
      OtherStepWrites(sys.ledger, step);
    }
  }

  // ------------------------------------------------------------- what commands leave alone

  /** The only commands that touch each table. */
  ghost predicate TablesKept(s: Ledger, step: Step, s': Ledger) {
    var t, t' := s.rows, s'.rows;
    && s'.foreignBatches == s.foreignBatches && s'.foreignAssets == s.foreignAssets
    && (t'.archived == t.archived || step.CreatingSection? || step.Archiving?)
    && (t'.batches == t.batches || step.Reserving? || step.Verifying? || step.Excluding? || step.Cancelling?
        || step.Publishing? || step.Reassigning? || step.Purging?)
    && (t'.assets == t.assets || step.Reserving? || step.Registering? || step.ReportingDerivative?
        || step.RefreshingDerivatives? || step.Hiding? || step.Restoring? || step.Purging?)
    && (t'.objects == t.objects || step.Reserving? || step.Leasing? || step.Verifying? || step.Excluding?
        || step.Cancelling? || step.Publishing? || step.Registering? || step.CommittingDerivative? || step.Purging?)
    && (t'.faces == t.faces || step.Publishing? || step.SubmittingFace? || step.ReportingFace? || step.ResettingFace?
        || step.Purging?)
    && (s'.manifests == s.manifests || step.Publishing? || step.Preparing? || step.Finalizing? || step.Purging?)
  }

  /** The only commands that touch each field of the event row. */
  ghost predicate EventKept(e: Event, step: Step, e': Event) {
    && e'.profile == e.profile && e'.faceModel == e.faceModel && e'.byteLimit == e.byteLimit
    && ((e'.reservedBytes == e.reservedBytes && e'.reservedCount == e.reservedCount)
        || step.Reserving? || step.Excluding? || step.Cancelling? || step.Publishing? || step.Purging?)
    && ((e'.verifiedBytes == e.verifiedBytes && e'.verifiedCount == e.verifiedCount)
        || step.Verifying? || step.Publishing? || step.Purging?)
    && (e'.generation == e.generation || step.Reopening? || step.Unpublishing?)
    && (e'.intake == e.intake || step.Publishing? || step.Closing? || step.Reopening? || step.Unpublishing?
        || step.RequestingErasure?)
    && (e'.state == e.state || step.Reserving? || step.Publishing? || step.Reopening? || step.Unpublishing?
        || step.Finalizing? || step.RefreshingDerivatives? || step.Restoring? || step.Transitioning?
        || step.RequestingErasure?)
    && (e'.policy == e.policy || step.Reserving? || step.ConfirmingPolicy? || step.Purging?)
    && (e'.manifest == e.manifest || step.Publishing? || step.Reopening? || step.Unpublishing? || step.Finalizing?
        || step.Purging?)
    && (e'.derivativesReady == e.derivativesReady || step.Publishing? || step.Reopening? || step.Unpublishing?
        || step.RefreshingDerivatives? || step.Hiding? || step.Restoring? || step.Archiving? || step.Purging?)
    && (e'.facesReady == e.facesReady || step.Publishing? || step.Reopening? || step.Unpublishing?
        || step.RefreshingFaces? || step.SubmittingFace? || step.ReportingFace? || step.ResettingFace? || step.Hiding?
        || step.Restoring? || step.Archiving? || step.Purging?)
  }

  lemma ReservationKeeps(s: Ledger, step: Step)
    requires step.Reserving? && step.contribution.items != map[]
    ensures TablesKept(s, step, Execute(s, step).ledger) && EventKept(s.event, step, Execute(s, step).ledger.event)
  {
    hide Total, WithinConstraints, NewAssets, NewOriginals;
  }

  lemma UploadStepKeeps(s: Ledger, step: Step)
    requires step.Leasing? || step.Verifying?
    ensures TablesKept(s, step, Execute(s, step).ledger) && EventKept(s.event, step, Execute(s, step).ledger.event)
  {
    hide WithinConstraints, Leased, InActiveSection;
  }

  lemma DepartureStepKeeps(s: Ledger, step: Step)
    requires step.Excluding? || step.Cancelling? || step.Publishing?
    ensures TablesKept(s, step, Execute(s, step).ledger) && EventKept(s.event, step, Execute(s, step).ledger.event)
  {
    hide Total, WithinConstraints, HasActiveSection, VerifiedDerivatives, AnalysedPhotos, BatchObjects, Releasable,
         LeaseIsActive, IncludedPhotos, StoredIn, PublishableBatches, DroppedObjects, HeldOriginals, StoredOriginals,
         ObjectsDropped, BatchesLeft, FacesKept;
  }

  /** Nothing but an analysis and the readiness that depends on it. */
  ghost predicate OnlyFaces(s: Ledger, s': Ledger) {
    s' == s.(rows := s.rows.(faces := s'.rows.faces), event := s.event.(facesReady := s'.event.facesReady))
  }

  lemma SubmissionKeeps(s: Ledger, a: AssetId, section: SectionId, d: FaceDocument)
    ensures OnlyFaces(s, SubmitFace(s, a, section, d).ledger)
  {
    hide ProcessingAllowed;
  }

  lemma FaceReportKeeps(s: Ledger, a: AssetId, section: SectionId)
    ensures OnlyFaces(s, ReportFaceFailure(s, a, section).ledger)
  {
    hide ProcessingAllowed;
  }

  lemma FaceStepKeeps(s: Ledger, step: Step)
    requires step.SubmittingFace? || step.ReportingFace?
    ensures TablesKept(s, step, Execute(s, step).ledger) && EventKept(s.event, step, Execute(s, step).ledger.event)
  {
    assert OnlyFaces(s, Execute(s, step).ledger) by {
      hide SubmitFace, ReportFaceFailure, OnlyFaces;
      match step
      case SubmittingFace(a, section, d) => SubmissionKeeps(s, a, section, d);
      case ReportingFace(a, section) => FaceReportKeeps(s, a, section);
    }
    hide Execute;
  }

  lemma FinalizingStepKeeps(s: Ledger, step: Step)
    requires step.Preparing? || step.Finalizing?
    ensures TablesKept(s, step, Execute(s, step).ledger) && EventKept(s.event, step, Execute(s, step).ledger.event)
  {
    hide EveryOriginalTerminal, StoredOriginals, OriginalsManifest;
  }

  lemma DerivativeStepKeeps(s: Ledger, step: Step)
    requires step.Registering? || step.RefreshingDerivatives?
    ensures TablesKept(s, step, Execute(s, step).ledger) && EventKept(s.event, step, Execute(s, step).ledger.event)
  {
    hide VisiblePhotos, VerifiedDerivatives, Positioned, InActiveSection, IsVerified, ForDerivativeReadiness;
  }

  lemma OtherStepKeeps(s: Ledger, step: Step)
    requires !IsLaterStep(step) && !step.Reserving? && !step.Leasing? && !step.Verifying? && !step.Excluding?
             && !step.Cancelling? && !step.Publishing?
    requires step.CommittingDerivative? ==> step.key.variant != Original
    ensures TablesKept(s, step, Execute(s, step).ledger) && EventKept(s.event, step, Execute(s, step).ledger.event)
  {
    hide HasActiveSection, VisiblePhotos, AnalysedPhotos, InActiveSection, RetriesExhausted, ForDerivativeReadiness,
         ForManualTransition, Redacted, Forgotten;
  }

  /** No command touches anything else. */
  lemma CommandKeeps(s: Ledger, step: Step)
    requires step.Reserving? ==> step.contribution.items != map[]
    requires step.CommittingDerivative? ==> step.key.variant != Original
    ensures TablesKept(s, step, Execute(s, step).ledger)
    ensures EventKept(s.event, step, Execute(s, step).ledger.event)
  {
    hide Execute, TablesKept, EventKept;
    if step.SubmittingFace? || step.ReportingFace? {
      FaceStepKeeps(s, step);
    } else if step.Preparing? || step.Finalizing? {
      FinalizingStepKeeps(s, step);
    } else if step.Registering? || step.RefreshingDerivatives? {
      DerivativeStepKeeps(s, step);
    } else if step.Reserving? {
      ReservationKeeps(s, step);
    } else if step.Leasing? || step.Verifying? {
      UploadStepKeeps(s, step);
    } else if step.Excluding? || step.Cancelling? || step.Publishing? {
      DepartureStepKeeps(s, step);
    } else {
      OtherStepKeeps(s, step);
    }
  }

  // ------------------------------------------------------------- what callers may rely on

  /** The command is refused exactly when something speaks against it, the error says what; it writes what it should
      and nothing else. */
  ghost predicate Fulfils(s: Ledger, step: Step, o: Outcome) {
    && match o.reply {
         case Done => Written(s, step, o.ledger) && forall error :: !Refuses(s, step, error)
         case Rejected(error) => RefusalWritten(s, step, error, o.ledger) && Refuses(s, step, error)
       }
    && TablesKept(s, step, o.ledger) && EventKept(s.event, step, o.ledger.event)
  }

  /** Main result: so does every command while the counters are right. */
  lemma CommandFulfils(sys: System, step: Step)
    requires LedgerInv(sys.ledger) && Enabled(sys, step)
    ensures Fulfils(sys.ledger, step, Execute(sys.ledger, step))
  {
    hide LedgerInv, Execute, Written, RefusalWritten, TablesKept, EventKept;
    AnswersIff(sys, step);
    CommandWrites(sys, step);
    CommandKeeps(sys.ledger, step);
  }
}
