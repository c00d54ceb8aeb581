/** Why commands are refused: a command is refused exactly when something speaks against it, and the error that
    its caller sees is one thing that does. */
module CommandRefusals {
  import opened Prelude
  import opened Tallies
  import opened Lifecycle
  import opened Ledger
  import opened LedgerInvariant
  import opened Publication
  import opened LedgerRuns
  import opened CommandFacts
  import LedgerGuarantees

  // ------------------------------------------------------------- contributions and uploads

  predicate IsActive(t: Tables, section: SectionId) {
    section in t.archived && !t.archived[section]
  }

  /** The contribution is on record with this workstation, section and manifest. */
  predicate RecordedAs(t: Tables, c: Contribution) {
    && c.batch in t.batches
    && t.batches[c.batch].installation == c.installation
    && t.batches[c.batch].section == c.section
    && t.batches[c.batch].digest == Some(c.digest)
  }

  ghost function BytesOf(c: Contribution): nat {
    Total(c.items.Keys, map a | a in c.items :: c.items[a].spec.bytes)
  }

  /** Its id, or one of its photos' ids, belongs to something else. */
  predicate IdsAreTaken(s: Ledger, c: Contribution) {
    if c.batch in s.rows.batches then !RecordedAs(s.rows, c)
    else c.batch in s.foreignBatches || exists a :: a in c.items && (a in s.rows.assets || a in s.foreignAssets)
  }

  /** A contribution that is on record already is never turned away for the state of the event. */
  ghost predicate RefusesContribution(s: Ledger, c: Contribution, error: Error) {
    var e, isNew := s.event, c.batch !in s.rows.batches;
    match error
    case SectionNotFound => !IsActive(s.rows, c.section)
    case IdempotencyConflict => IdsAreTaken(s, c)
    case EventPublished => isNew && e.state == Published
    case IntakeClosed => isNew && e.intake == Closed
    case Lifecycle(violation) => isNew && violation == EventNotUploading && e.state !in {Draft, Uploading}
    case ProfileMismatch => isNew && c.profile != e.profile
    case StorageLimit => isNew && e.reservedBytes + BytesOf(c) > e.byteLimit
    case AssetLimit => isNew && e.reservedCount + |c.items| > EVENT_ORIGINAL_ASSET_LIMIT
    case _ => false
  }

  lemma ContributionRefusedIff(s: Ledger, c: Contribution)
    requires LedgerInv(s) && c.items != map[]
    ensures Reserve(s, c).reply.Rejected? ==> RefusesContribution(s, c, Reserve(s, c).reply.error)
    ensures Reserve(s, c).reply.Done? ==> forall error :: !RefusesContribution(s, c, error)
  {
    hide LedgerInv, Total, WithContribution, WithinConstraints;
    LedgerGuarantees.ReservationIsNeverRefused(s, c);
  }

  ghost predicate RefusesLease(s: Ledger, b: BatchId, installation: nat, error: Error) {
    match error
    case EventPublished => s.event.intake == Closed || s.event.state == Published
    case BatchNotFound => b !in s.rows.batches || s.rows.batches[b].installation != installation
    case SectionArchived => b in s.rows.batches && !IsActive(s.rows, s.rows.batches[b].section)
    case _ => false
  }

  lemma LeaseRefusedIff(s: Ledger, b: BatchId, installation: nat, chosen: set<AssetId>, until: nat)
    ensures
      var reply := Lease(s, b, installation, chosen, until).reply;
      && (reply.Rejected? ==> RefusesLease(s, b, installation, reply.error))
      && (reply.Done? ==> forall error :: !RefusesLease(s, b, installation, error))
  {
    hide Leased;
  }

  /** The photo's original is on record. */
  predicate OnRecord(t: Tables, a: AssetId) {
    a in t.assets && t.assets[a].batch in t.batches && HasObject(t, a, Original)
  }

  function LeasedUntil(o: StoredObject): nat {
    match o.lease case Some(until) => until case None => 0
  }

  ghost predicate RefusesCompletion(s: Ledger, a: AssetId, head: Spec, error: Error) {
    var t, k := s.rows, ObjectKey(a, Original);
    match error
    case AssetNotFound => !OnRecord(t, a)
    case AssetExcluded => OnRecord(t, a) && t.objects[k].state == Excluded
    case ObjectMismatch => OnRecord(t, a) && IsPending(t, a) && head != t.objects[k].spec
    case _ => false
  }

  lemma CompletionRefusedIff(s: Ledger, a: AssetId, head: Spec)
    requires LedgerInv(s)
    ensures VerifyCommit(s, a, head).reply.Rejected? ==> RefusesCompletion(s, a, head, VerifyCommit(s, a, head).reply.error)
    ensures VerifyCommit(s, a, head).reply.Done? ==> forall error :: !RefusesCompletion(s, a, head, error)
  {
    hide LedgerInv, CompleteIfTerminal, WithObject, WithinConstraints;
    LedgerGuarantees.VerifyIsNeverRefused(s, a, head);
  }

  ghost predicate RefusesExclusion(s: Ledger, a: AssetId, now: nat, storeAnswers: bool, error: Error) {
    var t, k := s.rows, ObjectKey(a, Original);
    match error
    case AssetNotFound => !OnRecord(t, a)
    case AssetImmutable => OnRecord(t, a) && t.objects[k].state == Verified
    case LeaseActive => OnRecord(t, a) && IsPending(t, a) && LeasedUntil(t.objects[k]) > now
    case ObjectStoreUnavailable => OnRecord(t, a) && IsPending(t, a) && !storeAnswers
    case _ => false
  }

  lemma ExclusionRefusedIff(s: Ledger, a: AssetId, now: nat, storeAnswers: bool)
    requires LedgerInv(s)
    ensures
      var reply := ExcludeAsset(s, a, now, storeAnswers).reply;
      && (reply.Rejected? ==> RefusesExclusion(s, a, now, storeAnswers, reply.error))
      && (reply.Done? ==> forall error :: !RefusesExclusion(s, a, now, storeAnswers, error))
  {
    hide LedgerInv, CompleteIfTerminal, WithObject, WithinConstraints;
    LedgerGuarantees.ExclusionIsNeverRefused(s, a, now, storeAnswers);
  }

  ghost predicate RefusesCancellation(s: Ledger, b: BatchId, now: nat, storeAnswers: bool, error: Error) {
    var t := s.rows;
    var open := b in t.batches && t.batches[b].state != Withdrawn;
    match error
    case BatchNotFound => b !in t.batches
    case BatchHasVerifiedAssets => open && exists k :: k in BatchObjects(t, b) && t.objects[k].state == Verified
    case LeaseActive => open && exists k :: k in BatchObjects(t, b) && LeasedUntil(t.objects[k]) > now
    case ObjectStoreUnavailable => open && !storeAnswers
    case _ => false
  }

  lemma CancellationRefusedIff(s: Ledger, b: BatchId, now: nat, storeAnswers: bool)
    requires LedgerInv(s)
    ensures
      var reply := CancelBatch(s, b, now, storeAnswers).reply;
      && (reply.Rejected? ==> RefusesCancellation(s, b, now, storeAnswers, reply.error))
      && (reply.Done? ==> forall error :: !RefusesCancellation(s, b, now, storeAnswers, error))
  {
    hide LedgerInv, Total, WithdrawnBatch, WithinConstraints, InBatch;
    LedgerGuarantees.CancellationIsNeverRefused(s, b, now, storeAnswers);
  }

  // ------------------------------------------------------------- publication and intake

  ghost predicate RefusesPublication(s: Ledger, storeAccepts: bool, error: Error) {
    var e, t := s.event, s.rows;
    var closed := e.state in {Archived, Cancelled, Broken};
    var tries := !closed && e.state != Published;
    match error
    case SnapshotMissing => e.state == Published && e.manifest.None?
    case EventNotPublishable => closed
    case EmptyManifest => tries && IncludedPhotos(t) == {}
    case MissingDerivatives => tries && exists a :: a in IncludedPhotos(t) && !HasPair(t, a)
    case MissingFaces => tries && exists a :: a in IncludedPhotos(t) && !HasFaces(t, e.faceModel, a)
    case MissingPolicy => tries && !e.policy
    case MissingSection => tries && forall section :: !IsActive(t, section)
    case SnapshotExists => tries && e.generation in s.manifests
    case ObjectStoreUnavailable => tries && !storeAccepts
    case _ => false
  }

  lemma PublicationRefusedIff(s: Ledger, storeAccepts: bool)
    requires LedgerInv(s)
    ensures
      var reply := Publish(s, storeAccepts).reply;
      && (reply.Rejected? ==> RefusesPublication(s, storeAccepts, reply.error))
      && (reply.Done? ==> forall error :: !RefusesPublication(s, storeAccepts, error))
  {
    hide LedgerInv, IncludedPhotos, VerifiedDerivatives, AnalysedPhotos, HasPair, HasFaces, Snapshotted, WithinConstraints,
         HasActiveSection;
    LedgerGuarantees.PublicationIsNeverRefused(s, storeAccepts);
    PairGate(s.rows, IncludedPhotos(s.rows));
    FaceGate(s.rows, s.event.faceModel, IncludedPhotos(s.rows));
    SomeSectionIsActive(s.rows);
  }

  lemma SomeSectionIsActive(t: Tables)
    ensures HasActiveSection(t) <==> exists section :: IsActive(t, section)
  {
    if section :| IsActive(t, section) { assert !t.archived[section]; }
    if section :| section in t.archived && !t.archived[section] { assert IsActive(t, section); }
  }

  ghost predicate RefusesIntakeStep(e: Event, step: Step, error: Error) {
    match step
    case Closing => error == EventNotUploadingNow && e.intake == Open && e.state !in {Draft, Uploading}
    case Reopening =>
      error == Error.Lifecycle(EventNotReopenable) && e.intake == Closed && e.state in {Published, Archived, Cancelled}
    case Unpublishing => error == EventNotPublished && e.state != Published
    case _ => false
  }

  ghost predicate RefusesPreparing(s: Ledger, error: Error) {
    var e := s.event;
    var tries := e.intake == Closed && !(e.state == Processing && e.manifest == Some(e.generation));
    match error
    case IntakeOpen => e.intake == Open
    case Lifecycle(violation) => tries && violation == EventNotUploading && e.state != Uploading
    case ContributionsNotTerminal => tries && exists a :: IsPending(s.rows, a)
    case EmptyManifest => tries && forall a :: !IsVerified(s.rows, a, Original)
    case _ => false
  }

  lemma PreparingRefusedIff(s: Ledger)
    ensures FinalizeBegin(s).reply.Rejected? ==> RefusesPreparing(s, FinalizeBegin(s).reply.error)
    ensures FinalizeBegin(s).reply.Done? ==> forall error :: !RefusesPreparing(s, error)
  {
    OriginalsTerminal(s.rows);
    hide EveryOriginalTerminal, StoredOriginals, OriginalsManifest, IsPending, IsVerified;
  }

  lemma OriginalsTerminal(t: Tables)
    ensures EveryOriginalTerminal(t) <==> forall a :: !IsPending(t, a)
    ensures StoredOriginals(t.objects) == {} <==> forall a :: !IsVerified(t, a, Original)
  {
    forall k | k in t.objects && k.variant == Original
      ensures IsPending(t, k.asset) <==> t.objects[k].state in {Reserved, Failed}
      ensures IsVerified(t, k.asset, Original) <==> k in StoredOriginals(t.objects)
    {
      assert k == ObjectKey(k.asset, Original);
    }
    forall a | IsVerified(t, a, Original) ensures StoredOriginals(t.objects) != {} {
      assert ObjectKey(a, Original) in StoredOriginals(t.objects);
    }
  }

  // ------------------------------------------------------------- derivatives and faces

  ghost predicate RefusesRegistration(
    s: Ledger, a: AssetId, source: nat, observed: EventState, captured: Option<int>, preview: Spec, thumbnail: Spec,
    error: Error)
  {
    var t, p, q := s.rows, ObjectKey(a, Preview), ObjectKey(a, Thumbnail);
    match error
    case PolicyNotConfirmed => !s.event.policy
    case EventNotProcessing => observed in {Published, Archived, Cancelled}
    case AssetNotFound => a !in t.assets
    case SectionArchived => a in t.assets && !InActiveSection(t, t.assets[a].batch)
    case SourceMismatch => a in t.assets && t.assets[a].sha != source
    case OriginalNotVerified => !IsVerified(t, a, Original)
    case DerivativeConflict =>
      || (a in t.assets && captured.Some? && t.assets[a].captured.Some? && captured != t.assets[a].captured)
      || (p in t.objects && t.objects[p].spec != preview)
      || (q in t.objects && t.objects[q].spec != thumbnail)
    case _ => false
  }

  lemma RegistrationRefusedIff(
    s: Ledger, a: AssetId, source: nat, observed: EventState, captured: Option<int>, preview: Spec, thumbnail: Spec)
    ensures
      var reply := RegisterDerivatives(s, a, source, observed, captured, preview, thumbnail).reply;
      && (reply.Rejected? ==> RefusesRegistration(s, a, source, observed, captured, preview, thumbnail, reply.error))
      && (reply.Done? ==> forall error :: !RefusesRegistration(s, a, source, observed, captured, preview, thumbnail, error))
  {
    hide WithDerivatives, InActiveSection, IsVerified;
  }

  ghost predicate RefusesDerivativeStep(t: Tables, step: Step, error: Error) {
    match step
    case ReportingDerivative(a) =>
      || (error == AssetNotFound && a !in t.assets)
      || (error == SectionArchived && a in t.assets && !InActiveSection(t, t.assets[a].batch))
    case CommittingDerivative(k, matches) =>
      || (error == DerivativeNotFound && k !in t.objects)
      || (error == DerivativeMismatch && k in t.objects && !matches)
    case _ => false
  }

  /** The photo may not be analysed. */
  ghost predicate RefusesAnalysis(s: Ledger, a: AssetId, section: SectionId, error: Error) {
    var t := s.rows;
    match error
    case EventNotProcessing => s.event.state in {Published, Archived, Cancelled}
    case AssetNotFound => !InSection(t, a, section)
    case SectionArchived => InSection(t, a, section) && !IsActive(t, section)
    case OriginalNotVerified => InSection(t, a, section) && !IsVerified(t, a, Original)
    case _ => false
  }

  ghost predicate RefusesSubmission(s: Ledger, a: AssetId, section: SectionId, d: FaceDocument, error: Error) {
    var t := s.rows;
    match error
    case ModelMismatch => d.model != s.event.faceModel
    case SourceMismatch => a in t.assets && d.source != t.assets[a].sha
    case FaceConflict =>
      a in t.faces && (t.faces[a].state == Conflict || (IsAnalysed(t, a) && t.faces[a].document != Some(d.document)))
    case FaceAttemptsExhausted =>
      a in t.faces && t.faces[a].state in {Pending, FaceFailed} && t.faces[a].attempts >= MAX_ATTEMPTS
    case _ => RefusesAnalysis(s, a, section, error)
  }

  lemma AnalysisRefusedIff(s: Ledger, a: AssetId, section: SectionId)
    ensures
      var reply := ProcessingAllowed(s, a, section);
      && (reply.Rejected? ==> RefusesAnalysis(s, a, section, reply.error))
      && (reply.Done? ==> a in s.rows.assets && forall error :: !RefusesAnalysis(s, a, section, error))
  {
    hide IsVerified;
  }

  lemma SubmissionRefusedIff(s: Ledger, a: AssetId, section: SectionId, d: FaceDocument)
    ensures
      var reply := SubmitFace(s, a, section, d).reply;
      && (reply.Rejected? ==> RefusesSubmission(s, a, section, d, reply.error))
      && (reply.Done? ==> forall error :: !RefusesSubmission(s, a, section, d, error))
  {
    AnalysisRefusedIff(s, a, section);
    OnlyTheseRefuseAnalysis(s, a, section);
    hide RefusesAnalysis, ProcessingAllowed, SetFace;
  }

  lemma OnlyTheseRefuseAnalysis(s: Ledger, a: AssetId, section: SectionId)
    ensures forall error :: RefusesAnalysis(s, a, section, error) ==>
      error in {EventNotProcessing, AssetNotFound, SectionArchived, OriginalNotVerified}
  {}

  ghost predicate RefusesFaceReport(s: Ledger, a: AssetId, section: SectionId, error: Error) {
    || RefusesAnalysis(s, a, section, error)
    || (error == FaceConflict && a in s.rows.faces && s.rows.faces[a].state == Conflict)
  }

  lemma FaceReportRefusedIff(s: Ledger, a: AssetId, section: SectionId)
    ensures
      var reply := ReportFaceFailure(s, a, section).reply;
      && (reply.Rejected? ==> RefusesFaceReport(s, a, section, reply.error))
      && (reply.Done? ==> forall error :: !RefusesFaceReport(s, a, section, error))
  {
    AnalysisRefusedIff(s, a, section);
    hide RefusesAnalysis, ProcessingAllowed, SetFace;
  }

  // ------------------------------------------------------------- review, sections and the event row

  predicate IsFailed(t: Tables, k: ObjectKey) {
    k in t.objects && t.objects[k].state == Failed
  }

  /** Five failures were reported, and the photo still lacks a derivative. */
  predicate DerivativesGivenUp(t: Tables, a: AssetId) {
    && a in t.assets && t.assets[a].derivativeAttempts >= 5
    && (t.assets[a].derivativeFailed || IsFailed(t, ObjectKey(a, Preview)) || IsFailed(t, ObjectKey(a, Thumbnail)))
  }

  /** Five analyses failed or contradicted each other. */
  predicate FacesGivenUp(t: Tables, a: AssetId) {
    a in t.faces && t.faces[a].state in {FaceFailed, Conflict} && t.faces[a].attempts >= 5
  }

  ghost predicate RefusesReviewStep(s: Ledger, step: Step, error: Error) {
    var e, t := s.event, s.rows;
    var final, reviewed := e.state in {Published, Archived, Cancelled}, e.state in {Uploading, Processing, Review};
    match step
    case ResettingFace(a) =>
      || (error == EventNotProcessing && final) || (error == FaceNotFound && (a !in t.faces || a !in t.assets))
    case Hiding(a) =>
      || (error == EventNotReviewable && !reviewed) || (error == AssetNotFound && a !in t.assets)
      || (&& error == RetriesRemaining && a in t.assets && !t.assets[a].hidden
          && !DerivativesGivenUp(t, a) && !FacesGivenUp(t, a))
    case Restoring(a) => (error == EventNotReviewable && !reviewed) || (error == AssetNotFound && a !in t.assets)
    case CreatingSection(section) =>
      || (error == StructureLocked && final)
      || (error == SectionLimit && (|t.archived| >= MAX_SECTIONS || section in t.archived))
    case Archiving(section, _) =>
      || (error == StructureLocked && final) || (error == SectionNotFound && section !in t.archived)
    case Reassigning(b, section) =>
      || (error == StructureLocked && final)
      || (error == SectionNotFound && !IsActive(t, section)) || (error == BatchNotFound && b !in t.batches)
    case _ => false
  }

  ghost predicate RefusesTransition(s: Ledger, target: EventState, expiryIsFuture: bool, violation: Violation) {
    var e := s.event;
    var allowed := target != e.state && target in Targets(e.state);
    var publishes := allowed && target == Published;
    match violation
    case InvalidTransition => target != e.state && target !in Targets(e.state)
    case ReopenRequired =>
      allowed && target == Uploading
      && (e.state in {Processing, Review} || (e.manifest.Some? && e.manifest.value in s.manifests))
    case FinalizationRequired =>
      || ((publishes || (allowed && target == Processing)) && !CurrentManifest(s))
      || (allowed && target == Processing && e.intake == Open)
    case SectionRequired => publishes && forall section :: !IsActive(s.rows, section)
    case FutureExpiryRequired => publishes && !expiryIsFuture
    case DerivativesRequired => publishes && e.derivativesReady != Some(e.generation)
    case FaceIndexRequired => publishes && e.facesReady != Some(e.generation)
    case PolicyRequired => publishes && !e.policy
    case _ => false
  }

  lemma TransitionRefusedIff(s: Ledger, target: EventState, expiryIsFuture: bool)
    ensures
      var reply := Transition(s, target, expiryIsFuture).reply;
      && (reply.Rejected? ==> reply.error.Lifecycle? && RefusesTransition(s, target, expiryIsFuture, reply.error.violation))
      && (reply.Done? ==> forall violation :: !RefusesTransition(s, target, expiryIsFuture, violation))
  {
    SomeSectionIsActive(s.rows);
    hide HasActiveSection;
  }

  ghost predicate RefusesPolicy(s: Ledger) {
    && !s.event.policy
    && (s.event.state in {Review, Published, Archived, Cancelled}
        || exists k :: k in s.rows.objects && k.variant != Original)
  }

  // ------------------------------------------------------------- all commands

  /** What speaks against a command. */
  ghost predicate Refuses(s: Ledger, step: Step, error: Error) {
    match step
    case Reserving(c) => RefusesContribution(s, c, error)
    case Leasing(b, installation, _, _) => RefusesLease(s, b, installation, error)
    case Verifying(a, head) => RefusesCompletion(s, a, head, error)
    case Excluding(a, now, answers) => RefusesExclusion(s, a, now, answers, error)
    case Cancelling(b, now, answers) => RefusesCancellation(s, b, now, answers, error)
    case Publishing(accepts) => RefusesPublication(s, accepts, error)
    case Preparing => RefusesPreparing(s, error)
    case Finalizing(g) =>
      error == StaleGeneration && (g !in s.manifests || s.event.intake == Open || s.event.generation != g)
    case Registering(a, source, observed, captured, p, q) =>
      RefusesRegistration(s, a, source, observed, captured, p, q, error)
    case SubmittingFace(a, section, d) => RefusesSubmission(s, a, section, d, error)
    case ReportingFace(a, section) => RefusesFaceReport(s, a, section, error)
    case Transitioning(target, future) => error.Lifecycle? && RefusesTransition(s, target, future, error.violation)
    case ConfirmingPolicy => error == PolicyLocked && RefusesPolicy(s)
    case _ =>
      || RefusesIntakeStep(s.event, step, error) || RefusesDerivativeStep(s.rows, step, error)
      || RefusesReviewStep(s, step, error)
  }

  /** The answer names one thing that speaks against the command, or nothing does. */
  ghost predicate AnswersTruly(s: Ledger, step: Step)
    requires step.Reserving? ==> step.contribution.items != map[]
    requires step.CommittingDerivative? ==> step.key.variant != Original
  {
    match Execute(s, step).reply
    case Rejected(error) => Refuses(s, step, error)
    case Done => forall error :: !Refuses(s, step, error)
  }

  lemma UploadStepAnswersTruly(sys: System, step: Step)
    requires LedgerInv(sys.ledger) && Enabled(sys, step)
    requires step.Reserving? || step.Leasing? || step.Verifying? || step.Excluding? || step.Cancelling? || step.Publishing?
    ensures AnswersTruly(sys.ledger, step)
  {
    hide LedgerInv, Reserve, Lease, VerifyCommit, ExcludeAsset, CancelBatch, Publish, RefusesContribution, RefusesLease,
         RefusesCompletion, RefusesExclusion, RefusesCancellation, RefusesPublication;
    match step
    case Reserving(c) => ContributionRefusedIff(sys.ledger, c);
    case Leasing(b, installation, chosen, until) => LeaseRefusedIff(sys.ledger, b, installation, chosen, until);
    case Verifying(a, head) => CompletionRefusedIff(sys.ledger, a, head);
    case Excluding(a, now, answers) => ExclusionRefusedIff(sys.ledger, a, now, answers);
    case Cancelling(b, now, answers) => CancellationRefusedIff(sys.ledger, b, now, answers);
    case Publishing(accepts) => PublicationRefusedIff(sys.ledger, accepts);
  }

  lemma LaterStepAnswersTruly(s: Ledger, step: Step)
    requires step.Preparing? || step.Registering? || step.SubmittingFace? || step.ReportingFace? || step.Transitioning?
    ensures AnswersTruly(s, step)
  {
    hide FinalizeBegin, RegisterDerivatives, SubmitFace, ReportFaceFailure, Transition, RefusesPreparing,
         RefusesRegistration, RefusesSubmission, RefusesFaceReport, RefusesTransition;
    match step
    case Preparing => PreparingRefusedIff(s);
    case Registering(a, source, observed, captured, p, q) =>
      RegistrationRefusedIff(s, a, source, observed, captured, p, q);
    case SubmittingFace(a, section, d) => SubmissionRefusedIff(s, a, section, d);
    case ReportingFace(a, section) => FaceReportRefusedIff(s, a, section);
    case Transitioning(target, future) => TransitionRefusedIff(s, target, future);
  }

  ghost predicate IsReviewStep(step: Step) {
    step.ResettingFace? || step.Hiding? || step.Restoring? || step.CreatingSection? || step.Archiving? || step.Reassigning?
  }

  lemma ReviewStepAnswersTruly(s: Ledger, step: Step)
    requires IsReviewStep(step)
    ensures AnswersTruly(s, step)
  {
    hide SetFace, ForDerivativeReadiness;
  }

  lemma EventStepAnswersTruly(s: Ledger, step: Step)
    requires step.Closing? || step.Reopening? || step.Unpublishing? || step.Finalizing? || step.ConfirmingPolicy?
    ensures AnswersTruly(s, step)
  {
    if step.Finalizing? || step.ConfirmingPolicy? {
      hide RefusesIntakeStep, RefusesDerivativeStep, RefusesReviewStep;
    } else {
      hide RefusesPolicy;
    }
  }

  lemma DerivativeStepAnswersTruly(s: Ledger, step: Step)
    requires step.ReportingDerivative? || step.CommittingDerivative?
    requires step.CommittingDerivative? ==> step.key.variant != Original
    ensures AnswersTruly(s, step)
  {
    hide InActiveSection, WithObject;
  }

  lemma NothingRefuses(s: Ledger, step: Step)
    requires step.RefreshingDerivatives? || step.RefreshingFaces? || step.RequestingErasure? || step.Purging?
    ensures AnswersTruly(s, step)
  {
    hide VisiblePhotos, VerifiedDerivatives, AnalysedPhotos, Positioned, Redacted, Forgotten, ForDerivativeReadiness;
  }

  lemma AnswersIff(sys: System, step: Step)
    requires LedgerInv(sys.ledger) && Enabled(sys, step)
    ensures AnswersTruly(sys.ledger, step)
  {
    hide LedgerInv, Execute, AnswersTruly;
    if step.Preparing? || step.Registering? || step.SubmittingFace? || step.ReportingFace? || step.Transitioning? {
      LaterStepAnswersTruly(sys.ledger, step);
    } else if IsReviewStep(step) {
      ReviewStepAnswersTruly(sys.ledger, step);
    } else if step.Closing? || step.Reopening? || step.Unpublishing? || step.Finalizing? || step.ConfirmingPolicy? {
      EventStepAnswersTruly(sys.ledger, step);
    } else if step.ReportingDerivative? || step.CommittingDerivative? {
      DerivativeStepAnswersTruly(sys.ledger, step);
    } else if step.RefreshingDerivatives? || step.RefreshingFaces? || step.RequestingErasure? || step.Purging? {
      NothingRefuses(sys.ledger, step);
    } else {
      UploadStepAnswersTruly(sys, step);
    }
  }

  /** Main result: while the counters are right a command is refused if and only if something speaks against it, and
      the error that its caller sees is one thing that does. */
  lemma RefusedIff(sys: System, step: Step)
    requires LedgerInv(sys.ledger) && Enabled(sys, step)
    ensures
      var s, reply := sys.ledger, Execute(sys.ledger, step).reply;
      && (reply.Rejected? <==> exists error :: Refuses(s, step, error))
      && (reply.Rejected? ==> Refuses(s, step, reply.error))
  {
    hide LedgerInv, Execute, Refuses;
    AnswersIff(sys, step);
    var reply := Execute(sys.ledger, step).reply;
    assert reply.Rejected? ==> Refuses(sys.ledger, step, reply.error);
  }
}
