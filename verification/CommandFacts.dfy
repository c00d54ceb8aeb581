/** What the commands on one event mean for their callers. */
module CommandFacts {
  import opened Prelude
  import opened Tallies
  import opened Lifecycle
  import opened Ledger
  import opened LedgerInvariant
  import opened LedgerSteps
  import opened Publication
  import opened PublicationSteps
  import opened LedgerRuns
  import LedgerGuarantees

  // ------------------------------------------------------------- leases

  /** A lease touches nothing but pending originals of the contribution; while it is in flight, each chosen one
      is awaited again until the given time. */
  lemma LeasesRenew(s: Ledger, b: BatchId, installation: nat, chosen: set<AssetId>, until: nat)
    ensures
      var o := Lease(s, b, installation, chosen, until);
      var before, now := s.rows.objects, o.ledger.rows.objects;
      && now.Keys == before.Keys
      && (forall k :: k in now && now[k] != before[k] ==>
            && k.variant == Original && k.asset in chosen && InBatch(s.rows, k.asset, b) && IsPending(s.rows, k.asset)
            && now[k] == StoredObject(before[k].spec, Reserved, Some(until)))
      && (o.reply == Done && s.rows.batches[b].state == InFlight ==>
            forall a :: a in chosen && InBatch(s.rows, a, b) && IsPending(s.rows, a) ==>
              now[ObjectKey(a, Original)] == StoredObject(before[ObjectKey(a, Original)].spec, Reserved, Some(until)))
  {
    hide InActiveSection;
  }

  // ------------------------------------------------------------- publication

  /** Everything that publication asks for, photo by photo. */
  ghost predicate Publishable(e: Event, t: Tables) {
    && IncludedPhotos(t) <= t.assets.Keys
    && e.policy && (exists section :: section in t.archived && !t.archived[section])
    && IncludedPhotos(t) != {}
    && forall a :: a in IncludedPhotos(t) ==>
         && StoredAs(t, ObjectKey(a, Preview)) && StoredAs(t, ObjectKey(a, Thumbnail))
         && a in t.faces && t.faces[a].state in {Indexed, NoUsableFace}
         && t.faces[a].source == t.assets[a].sha && t.faces[a].model == e.faceModel
  }

  predicate StoredAs(t: Tables, k: ObjectKey) {
    k in t.objects && t.objects[k].state == Verified
  }

  lemma IncludedInRows(t: Tables, model: nat)
    ensures IncludedPhotos(t) <= t.assets.Keys
    ensures forall a :: a in IncludedPhotos(t) ==>
      && (HasPair(t, a) <==> StoredAs(t, ObjectKey(a, Preview)) && StoredAs(t, ObjectKey(a, Thumbnail)))
      && (HasFaces(t, model, a) <==>
            && a in t.faces && t.faces[a].state in {Indexed, NoUsableFace}
            && t.faces[a].source == t.assets[a].sha && t.faces[a].model == model)
  {}

  /** The counted gate is that. */
  lemma GateMeans(e: Event, t: Tables)
    ensures ReadyToPublish(e, t) <==> Publishable(e, t)
  {
    hide IncludedPhotos, VerifiedDerivatives, AnalysedPhotos, HasPair, HasFaces, StoredAs;
    IncludedInRows(t, e.faceModel);
    PairGate(t, IncludedPhotos(t));
    FaceGate(t, e.faceModel, IncludedPhotos(t));
  }

  /** An event that may still be published, and has no snapshot of its generation, can be published exactly then. */
  lemma GateIsPublication(s: Ledger)
    requires LedgerInv(s) && s.event.state !in {Published, Archived, Cancelled, Broken}
    requires s.event.generation !in s.manifests
    ensures Publish(s, true).reply == Done <==> ReadyToPublish(s.event, s.rows)
  {
    hide LedgerInv, IncludedPhotos, VerifiedDerivatives, AnalysedPhotos, HasActiveSection, Snapshotted, WithinConstraints;
    LedgerGuarantees.PublicationIsNeverRefused(s, true);
  }

  // ------------------------------------------------------------- intake and generations

  /** While intake is closed no contribution is recorded and no lease is given. */
  lemma ClosedMeansClosed(s: Ledger)
    requires s.event.intake == Closed
    ensures forall c: Contribution :: c.items != map[] ==> Reserve(s, c).ledger == s
    ensures forall b, installation, chosen, until :: Lease(s, b, installation, chosen, until).ledger == s
  {
    hide Total, WithContribution, InActiveSection, Leased;
  }

  /** With a new generation nothing is current, and no worker that prepared before can commit. */
  lemma NewGenerationIsFresh(sys: System)
    requires PublicationInv(sys)
    ensures
      var next := sys.(ledger := WithEvent(sys.ledger, NextGeneration(sys.ledger.event)));
      && NothingCurrent(next)
      && forall g :: g in sys.finalizing ==> FinalizeCommit(next.ledger, g).reply == Rejected(StaleGeneration)
  {
    hide PairsComplete, FacesComplete, EveryOriginalTerminal;
  }

  // ------------------------------------------------------------- derivatives

  /** Registering leaves both rows on record with the registered bytes, touches no row that was there, and
      repeating it changes nothing. */
  lemma RegistrationMeans(s: Ledger, a: AssetId, source: nat, observed: EventState, captured: Option<int>,
                          preview: Spec, thumbnail: Spec)
    ensures
      var o := RegisterDerivatives(s, a, source, observed, captured, preview, thumbnail);
      var before, now := s.rows.objects, o.ledger.rows.objects;
      && (forall k :: k in before ==> k in now && now[k] == before[k])
      && (o.reply == Done ==>
            && ObjectKey(a, Preview) in now && now[ObjectKey(a, Preview)].spec == preview
            && ObjectKey(a, Thumbnail) in now && now[ObjectKey(a, Thumbnail)].spec == thumbnail
            && IsVerified(s.rows, a, Original) && s.rows.assets[a].sha == source)
      && (o.reply == Done ==>
            RegisterDerivatives(o.ledger, a, source, observed, captured, preview, thumbnail) == Outcome(o.ledger, Done))
  {
    var o := RegisterDerivatives(s, a, source, observed, captured, preview, thumbnail);
    if o.reply == Done {
      RegisteredTwice(s.rows, a, captured, preview, thumbnail);
    }
  }

  lemma RegisteredTwice(t: Tables, a: AssetId, captured: Option<int>, preview: Spec, thumbnail: Spec)
    requires a in t.assets
    ensures
      var t' := WithDerivatives(t, a, captured, preview, thumbnail);
      a in t'.assets && WithDerivatives(t', a, captured, preview, thumbnail) == t'
  {}

  /** The readiness of derivatives, photo by photo. */
  ghost predicate CurrentManifest(s: Ledger) {
    && s.event.manifest == Some(s.event.generation) && s.event.generation in s.manifests
    && s.manifests[s.event.generation].state == Committed
  }

  lemma FaceReadinessMeans(s: Ledger)
    ensures
      RefreshFaces(s).ledger.event.facesReady == Some(s.event.generation)
      <==> && CurrentManifest(s) && VisiblePhotos(s.rows) != {}
           && forall a :: a in VisiblePhotos(s.rows) ==> HasFaces(s.rows, s.event.faceModel, a)
  {
    hide VisiblePhotos, AnalysedPhotos, HasFaces;
    FaceGate(s.rows, s.event.faceModel, VisiblePhotos(s.rows));
  }

  // ------------------------------------------------------------- faces

  predicate IsAnalysed(t: Tables, a: AssetId) {
    a in t.faces && t.faces[a].state in {Indexed, NoUsableFace}
  }

  /** An accepted analysis is the one on record, and sending it again changes nothing; a different one of an
      analysed photo is never accepted; other photos are left alone. */
  lemma SubmissionMeans(s: Ledger, a: AssetId, section: SectionId, d: FaceDocument)
    ensures
      var o := SubmitFace(s, a, section, d);
      && (o.reply == Done ==>
            && IsAnalysed(o.ledger.rows, a) && o.ledger.rows.faces[a].document == Some(d.document)
            && SubmitFace(o.ledger, a, section, d) == Outcome(o.ledger, Done))
      && (IsAnalysed(s.rows, a) && s.rows.faces[a].document != Some(d.document) ==> o.reply != Done)
      && (forall x :: x != a && x in s.rows.faces ==>
            x in o.ledger.rows.faces && o.ledger.rows.faces[x] == s.rows.faces[x])
      && (o.ledger != s ==> o.ledger.event.facesReady.None?)
  {}

  /** A reported failure never takes an analysis away, and counts at most to the limit. */
  lemma FailureMeans(s: Ledger, a: AssetId, section: SectionId)
    ensures
      var o := ReportFaceFailure(s, a, section);
      && (IsAnalysed(s.rows, a) ==> o.ledger == s)
      && (o.ledger != s ==>
            && o.reply == Done && a in o.ledger.rows.faces && o.ledger.rows.faces[a].state == FaceFailed
            && 1 <= o.ledger.rows.faces[a].attempts <= MAX_ATTEMPTS
            && o.ledger.event.facesReady.None?)
  {
    hide InActiveSection, IsVerified;
  }

  /** After a reset every analysis of the right bytes and model is accepted, as if it were the first. */
  lemma ResetMeans(s: Ledger, a: AssetId)
    ensures
      var s' := ResetFace(s, a).ledger;
      ResetFace(s, a).reply == Done ==>
        && !IsAnalysed(s'.rows, a) && s'.event.facesReady.None?
        && forall section, d: FaceDocument ::
             (d.model == s'.event.faceModel && d.source == s'.rows.assets[a].sha && ProcessingAllowed(s', a, section) == Done)
             ==> SubmitFace(s', a, section, d).reply == Done
  {
    hide InActiveSection, IsVerified;
  }

  // ------------------------------------------------------------- what is visible

  lemma HidingMeans(s: Ledger, a: AssetId)
    ensures
      var o := HidePhoto(s, a);
      && VisiblePhotos(o.ledger.rows) == VisiblePhotos(s.rows) - (if o.reply == Done then {a} else {})
      && (o.ledger != s ==>
            o.ledger.event.derivativesReady.None? && o.ledger.event.facesReady.None? && RetriesExhausted(s.rows, a))
  {
    hide RetriesExhausted;
  }

  /** A restored photo is visible exactly when its original is verified in an active section. */
  lemma RestoringMeans(s: Ledger, a: AssetId)
    ensures
      var o := RestorePhoto(s, a);
      && VisiblePhotos(o.ledger.rows) - {a} == VisiblePhotos(s.rows) - {a}
      && (o.reply == Done ==>
            && a in o.ledger.rows.assets
            && (a in VisiblePhotos(o.ledger.rows) <==>
                  InActiveSection(o.ledger.rows, o.ledger.rows.assets[a].batch) && IsVerified(o.ledger.rows, a, Original)))
      && (o.ledger != s ==>
            && o.ledger.event.derivativesReady.None? && o.ledger.event.facesReady.None?
            && o.ledger.event.state != Review)
  {}

  predicate InSection(t: Tables, a: AssetId, section: SectionId) {
    a in t.assets && t.assets[a].batch in t.batches && t.batches[t.assets[a].batch].section == section
  }

  /** Archiving takes exactly the section's photos out of sight; reviving shows those that are stored and not
      hidden. */
  lemma ArchivingMeans(s: Ledger, section: SectionId, archived: bool)
    ensures
      var o := SetArchived(s, section, archived);
      var t' := o.ledger.rows;
      && (forall a :: a in VisiblePhotos(t') && !InSection(t', a, section) <==>
                      a in VisiblePhotos(s.rows) && !InSection(t', a, section))
      && (o.reply == Done ==>
            forall a :: InSection(t', a, section) ==>
              a in t'.assets
              && (a in VisiblePhotos(t') <==> !archived && !t'.assets[a].hidden && IsVerified(t', a, Original)))
      && (o.ledger != s ==> o.ledger.event.derivativesReady.None? && o.ledger.event.facesReady.None?)
  {}

  /** A moved contribution is in an active section: all its photos that are stored and not hidden are visible. */
  lemma ReassigningMeans(s: Ledger, b: BatchId, section: SectionId)
    ensures
      var o := Reassign(s, b, section);
      o.reply == Done ==>
        && InActiveSection(o.ledger.rows, b)
        && forall a :: a in VisiblePhotos(o.ledger.rows) <==>
             || a in VisiblePhotos(s.rows)
             || (InBatch(s.rows, a, b) && !s.rows.assets[a].hidden && IsVerified(s.rows, a, Original))
  {}

  // ------------------------------------------------------------- the event row

  /** What publishing by hand takes. */
  ghost predicate HasEvidence(s: Ledger) {
    && HasActiveSection(s.rows) && CurrentManifest(s) && s.event.policy
    && s.event.derivativesReady == s.event.facesReady == Some(s.event.generation)
  }

  lemma TransitionMeans(s: Ledger, target: EventState, expiryIsFuture: bool)
    ensures
      var o := Transition(s, target, expiryIsFuture);
      && (o.reply == Done ==> o.ledger.event.state == target && CanTransition(s.event.state, target))
      && (target == Published ==>
            (o.reply == Done <==>
               || s.event.state == Published
               || (s.event.state in {Review, Archived} && expiryIsFuture && HasEvidence(s))))
  {
    hide HasActiveSection;
  }

  /** In a public event of a safe system every visible photo has everything, and the gallery lists it. */
  lemma PublicIsWhole(sys: System)
    requires SafeInv(sys) && IsPublic(sys.ledger.event)
    ensures VisiblePhotos(sys.ledger.rows) == GalleryPhotos(sys.ledger.rows)
    ensures forall a :: a in VisiblePhotos(sys.ledger.rows) ==>
      HasPair(sys.ledger.rows, a) && HasFaces(sys.ledger.rows, sys.ledger.event.faceModel, a)
  {}

  /** After a purge nothing is visible or held, and a contribution that was recorded before is still refused or
      taken for recorded: it is never charged again. */
  lemma PurgeMeans(s: Ledger)
    ensures
      var s' := Purge(s).ledger;
      && VisiblePhotos(s'.rows) == {} && HeldOriginals(s'.rows.objects) == {}
      && s'.event.reservedBytes == s'.event.verifiedBytes == 0 && s'.event.reservedCount == s'.event.verifiedCount == 0
      && forall c: Contribution :: c.items != map[] && c.batch in s.rows.batches ==> Reserve(s', c).ledger == s'
  {
    hide Redacted, WithContribution, Total;
  }
}
