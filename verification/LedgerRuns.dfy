/** Runs: any interleaving of the transactions, and what holds in every state that they reach. */
module LedgerRuns {
  import opened Prelude
  import opened Tallies
  import opened Lifecycle
  import opened Ledger
  import opened LedgerInvariant
  import opened LedgerSteps
  import opened Publication
  import opened PublicationSteps

  datatype Step =
    | Reserving(contribution: Contribution)
    | Leasing(batch: BatchId, installation: nat, chosen: set<AssetId>, until: nat)
    | Verifying(asset: AssetId, head: Spec)
    | Excluding(asset: AssetId, now: nat, storeAnswers: bool)
    | Cancelling(batch: BatchId, now: nat, storeAnswers: bool)
    | Publishing(storeAccepts: bool)
    | Closing
    | Reopening
    | Unpublishing
    | Preparing
    | Finalizing(generation: nat)
    | Registering(asset: AssetId, source: nat, observed: EventState, captured: Option<int>, preview: Spec, thumbnail: Spec)
    | ReportingDerivative(asset: AssetId)
    | CommittingDerivative(key: ObjectKey, matches: bool)
    | RefreshingDerivatives
    | RefreshingFaces
    | SubmittingFace(asset: AssetId, section: SectionId, document: FaceDocument)
    | ReportingFace(asset: AssetId, section: SectionId)
    | ResettingFace(asset: AssetId)
    | Hiding(asset: AssetId)
    | Restoring(asset: AssetId)
    | CreatingSection(section: SectionId)
    | Archiving(section: SectionId, archived: bool)
    | Reassigning(batch: BatchId, section: SectionId)
    | Transitioning(target: EventState, expiryIsFuture: bool)
    | ConfirmingPolicy
    | RequestingErasure
    | Purging

  /** What the API can be asked to do: contributions are not empty, derivative commands name derivatives,
      and only a worker that prepared a manifest goes on to commit it. */
  ghost predicate Enabled(sys: System, step: Step) {
    && (step.Reserving? ==> step.contribution.items != map[])
    && (step.CommittingDerivative? ==> step.key.variant != Original)
    && (step.Finalizing? ==> step.generation in sys.finalizing)
  }

  ghost function Execute(s: Ledger, step: Step): Outcome
    requires step.Reserving? ==> step.contribution.items != map[]
    requires step.CommittingDerivative? ==> step.key.variant != Original
  {
    match step
    case Reserving(c) => Reserve(s, c)
    case Leasing(b, installation, chosen, until) => Lease(s, b, installation, chosen, until)
    case Verifying(a, head) => VerifyCommit(s, a, head)
    case Excluding(a, now, answers) => ExcludeAsset(s, a, now, answers)
    case Cancelling(b, now, answers) => CancelBatch(s, b, now, answers)
    case Publishing(accepts) => Publish(s, accepts)
    case Closing => CloseIntake(s)
    case Reopening => ReopenIntake(s)
    case Unpublishing => Unpublish(s)
    case Preparing => FinalizeBegin(s)
    case Finalizing(g) => FinalizeCommit(s, g)
    case Registering(a, source, observed, captured, p, q) => RegisterDerivatives(s, a, source, observed, captured, p, q)
    case ReportingDerivative(a) => ReportDerivativeFailure(s, a)
    case CommittingDerivative(k, matches) => DerivativeCommit(s, k, matches)
    case RefreshingDerivatives => RefreshDerivatives(s)
    case RefreshingFaces => RefreshFaces(s)
    case SubmittingFace(a, section, d) => SubmitFace(s, a, section, d)
    case ReportingFace(a, section) => ReportFaceFailure(s, a, section)
    case ResettingFace(a) => ResetFace(s, a)
    case Hiding(a) => HidePhoto(s, a)
    case Restoring(a) => RestorePhoto(s, a)
    case CreatingSection(section) => CreateSection(s, section)
    case Archiving(section, archived) => SetArchived(s, section, archived)
    case Reassigning(b, section) => Reassign(s, b, section)
    case Transitioning(target, future) => Transition(s, target, future)
    case ConfirmingPolicy => ConfirmPolicy(s)
    case RequestingErasure => RequestErasure(s)
    case Purging => Purge(s)
  }

  ghost function Next(sys: System, step: Step): System {
    if !Enabled(sys, step) then sys
    else System(
           Execute(sys.ledger, step).ledger,
           if step == Step.Preparing && StartsFinalizing(sys.ledger)
           then sys.finalizing + {sys.ledger.event.generation} else sys.finalizing)
  }

  ghost function Run(sys: System, steps: seq<Step>): System
    decreases |steps|
  {
    if steps == [] then sys else Run(Next(sys, steps[0]), steps[1..])
  }

  /** A new event: no contributions yet. */
  ghost predicate Initial(sys: System) {
    var s := sys.ledger;
    && sys.finalizing == {} && s.manifests == map[]
    && s.event.state == Draft && s.event.intake == Open && s.event.generation == 1
    && s.event.reservedBytes == s.event.verifiedBytes == 0 && s.event.reservedCount == s.event.verifiedCount == 0
    && s.event.derivativesReady.None? && s.event.facesReady.None? && s.event.manifest.None?
    && s.rows.batches == map[] && s.rows.assets == map[] && s.rows.objects == map[] && s.rows.faces == map[]
  }

  // ------------------------------------------------------------- one step

  /** The two commands that can do harm, and when: a derivative whose row was excluded or, while relied on,
      verified meanwhile; and a contribution moved out of an archived section unready. */
  ghost predicate Harmless(s: Ledger, step: Step) {
    match step
    case CommittingDerivative(k, matches) =>
      (k in s.rows.objects ==> s.rows.objects[k].state != Excluded) && !BreaksPair(s, k, matches)
    case Reassigning(b, section) => !ShowsUnready(s, b, section)
    case _ => true
  }

  lemma ObjectStepKeepsLedger(s: Ledger, step: Step)
    requires LedgerInv(s)
    requires step.Reserving? || step.Leasing? || step.Verifying? || step.Excluding? || step.Cancelling?
             || step.Publishing? || step.Registering? || step.Purging?
    requires step.Reserving? ==> step.contribution.items != map[]
    ensures LedgerInv(Execute(s, step).ledger)
  {
    hide LedgerInv, Reserve, Lease, VerifyCommit, ExcludeAsset, CancelBatch, Publish, RegisterDerivatives, Purge;
    match step
    case Reserving(c) => ReserveKeepsLedger(s, c);
    case Leasing(b, installation, chosen, until) => LeaseKeepsLedger(s, b, installation, chosen, until);
    case Verifying(a, head) => VerifyKeepsLedger(s, a, head);
    case Excluding(a, now, answers) => ExcludeKeepsLedger(s, a, now, answers);
    case Cancelling(b, now, answers) => CancelKeepsLedger(s, b, now, answers);
    case Publishing(accepts) => PublishKeepsLedger(s, accepts);
    case Registering(a, source, observed, captured, p, q) => RegisterKeepsLedger(s, a, source, observed, captured, p, q);
    case Purging => PurgeKeepsLedger(s);
  }

  ghost predicate TouchesObjects(step: Step) {
    step.Reserving? || step.Leasing? || step.Verifying? || step.Excluding? || step.Cancelling?
    || step.Publishing? || step.Registering? || step.Purging? || step.CommittingDerivative?
  }

  ghost predicate OnlyEventRow(step: Step) {
    step.Closing? || step.Reopening? || step.Unpublishing? || step.Preparing? || step.Finalizing? || step.RefreshingFaces?
    || step.Transitioning? || step.ConfirmingPolicy? || step.RequestingErasure?
  }

  lemma EventStepsLeaveObjects(s: Ledger, step: Step)
    requires Linked(s.rows) && OnlyEventRow(step)
    ensures LeavesObjects(s, Execute(s, step).ledger)
  {
    hide HasActiveSection, EveryOriginalTerminal, VisiblePhotos, AnalysedPhotos, OriginalsManifest, StoredOriginals;
    hide SameStructure;
    SameStructureAsItself(s.rows);
  }

  /** The other steps leave the objects, the counters, and who belongs to which batch alone. */
  lemma OtherStepsLeaveObjects(s: Ledger, step: Step)
    requires Linked(s.rows) && !TouchesObjects(step)
    ensures LeavesObjects(s, Execute(s, step).ledger)
  {
    hide LeavesObjects, ReportDerivativeFailure, RefreshDerivatives, SubmitFace, ReportFaceFailure, ResetFace, HidePhoto,
         RestorePhoto, CreateSection, SetArchived, Reassign;
    match step
    case ReportingDerivative(a) => FailureReportLeavesObjects(s, a);
    case RefreshingDerivatives => RefreshLeavesObjects(s);
    case SubmittingFace(a, section, d) => SubmissionLeavesObjects(s, a, section, d);
    case ReportingFace(a, section) => FaceReportLeavesObjects(s, a, section);
    case ResettingFace(a) => FaceResetLeavesObjects(s, a);
    case Hiding(a) => HidingLeavesObjects(s, a);
    case Restoring(a) => RestoringLeavesObjects(s, a);
    case CreatingSection(section) => CreationLeavesObjects(s, section);
    case Archiving(section, archived) => ArchivingLeavesObjects(s, section, archived);
    case Reassigning(b, section) => ReassigningLeavesObjects(s, b, section);
    case _ => EventStepsLeaveObjects(s, step);
  }

  lemma OtherStepKeepsLedger(s: Ledger, step: Step)
    requires LedgerInv(s) && !TouchesObjects(step)
    ensures LedgerInv(Execute(s, step).ledger)
  {
    hide Execute, Structured, LeavesObjects;
    StructuredIsLinked(s.rows);
    OtherStepsLeaveObjects(s, step);
    LeavingObjectsKeepsLedger(s, Execute(s, step).ledger);
  }

  // ------------------------------------------------------------- every run

  lemma UploadStepsKeepPublication(sys: System, step: Step)
    requires SafeInv(sys) && Enabled(sys, step)
    requires step.Reserving? || step.Leasing? || step.Verifying? || step.Excluding? || step.Cancelling?
             || step.Registering? || step.ReportingDerivative? || step.Purging?
    ensures PublicationInv(Next(sys, step))
  {
    hide SafeInv, PublicationInv, Reserve, Lease, VerifyCommit, ExcludeAsset, CancelBatch, RegisterDerivatives,
         ReportDerivativeFailure, Purge;
    match step
    case Reserving(c) => ReserveKeepsPublication(sys, c);
    case Leasing(b, installation, chosen, until) => LeaseKeepsPublication(sys, b, installation, chosen, until);
    case Verifying(a, head) => VerifyKeepsPublication(sys, a, head);
    case Excluding(a, now, answers) => ExcludeKeepsPublication(sys, a, now, answers);
    case Cancelling(b, now, answers) => CancelKeepsPublication(sys, b, now, answers);
    case Registering(a, source, observed, captured, p, q) =>
      RegisterKeepsPublication(sys, a, source, observed, captured, p, q);
    case ReportingDerivative(a) => FailureReportKeepsPublication(sys, a);
    case Purging => PurgeKeepsPublication(sys);
  }

  lemma EventStepsKeepPublication(sys: System, step: Step)
    requires SafeInv(sys) && Enabled(sys, step)
    requires OnlyEventRow(step) || step.Publishing? || step.RefreshingDerivatives?
    ensures PublicationInv(Next(sys, step))
  {
    hide SafeInv, PublicationInv, Publish, CloseIntake, ReopenIntake, Unpublish, FinalizeBegin, StartsFinalizing,
         FinalizeCommit, RefreshDerivatives, RefreshFaces, Transition, ConfirmPolicy, RequestErasure;
    match step
    case Publishing(accepts) => PublishKeepsPublication(sys, accepts);
    case Closing => CloseKeepsPublication(sys);
    case Reopening => ReopenKeepsPublication(sys);
    case Unpublishing => ReopenKeepsPublication(sys);
    case Preparing => PrepareKeepsPublication(sys);
    case Finalizing(g) => FinalizeKeepsPublication(sys, g);
    case RefreshingDerivatives => RefreshDerivativesKeepsPublication(sys);
    case RefreshingFaces => RefreshFacesKeepsPublication(sys);
    case Transitioning(target, future) => TransitionKeepsPublication(sys, target, future);
    case ConfirmingPolicy => PolicyAndErasureKeepPublication(sys);
    case RequestingErasure => PolicyAndErasureKeepPublication(sys);
  }

  lemma ReviewStepsKeepPublication(sys: System, step: Step)
    requires SafeInv(sys) && Enabled(sys, step)
    requires step.SubmittingFace? || step.ReportingFace? || step.ResettingFace? || step.Hiding? || step.Restoring?
             || step.CreatingSection? || step.Archiving?
    ensures PublicationInv(Next(sys, step))
  {
    hide SafeInv, PublicationInv, SubmitFace, ReportFaceFailure, ResetFace, HidePhoto, RestorePhoto, CreateSection,
         SetArchived;
    match step
    case SubmittingFace(a, section, d) => FacesKeepPublication(sys, a, section, d);
    case ReportingFace(a, section) => FacesKeepPublication(sys, a, section, FaceDocument(0, 0, 0, false));
    case ResettingFace(a) => FacesKeepPublication(sys, a, 0, FaceDocument(0, 0, 0, false));
    case Hiding(a) => HideKeepsPublication(sys, a);
    case Restoring(a) => RestoreKeepsPublication(sys, a);
    case CreatingSection(section) => CreateSectionKeepsPublication(sys, section);
    case Archiving(section, archived) => ArchiveKeepsPublication(sys, section, archived);
  }

  lemma OrdinaryStepKeepsSafety(sys: System, step: Step)
    requires SafeInv(sys) && Enabled(sys, step) && !step.CommittingDerivative? && !step.Reassigning?
    ensures SafeInv(Next(sys, step))
  {
    hide LedgerInv, PublicationInv, Execute, StartsFinalizing;
    if TouchesObjects(step) {
      ObjectStepKeepsLedger(sys.ledger, step);
    } else {
      OtherStepKeepsLedger(sys.ledger, step);
    }
    if OnlyEventRow(step) || step.Publishing? || step.RefreshingDerivatives? {
      EventStepsKeepPublication(sys, step);
    } else if step.SubmittingFace? || step.ReportingFace? || step.ResettingFace? || step.Hiding? || step.Restoring?
              || step.CreatingSection? || step.Archiving? {
      ReviewStepsKeepPublication(sys, step);
    } else {
      UploadStepsKeepPublication(sys, step);
    }
  }

  /** From a safe state, a step leads to a safe state exactly when it is harmless. */
  lemma StepKeepsSafetyIff(sys: System, step: Step)
    requires SafeInv(sys) && Enabled(sys, step)
    ensures SafeInv(Next(sys, step)) <==> Harmless(sys.ledger, step)
  {
    hide LedgerInv, PublicationInv, BreaksPair, ShowsUnready, OnlyEventRow;
    match step
    case CommittingDerivative(k, matches) => {
      if k in sys.ledger.rows.objects { DerivativeKeepsLedgerIff(sys.ledger, k, matches); }
      DerivativeKeepsPublicationIff(sys, k, matches);
    }
    case Reassigning(b, section) => {
      OtherStepKeepsLedger(sys.ledger, step);
      ReassignKeepsPublicationIff(sys, b, section);
    }
    case _ => {
      hide Execute;
      OrdinaryStepKeepsSafety(sys, step);
    }
  }

  /** A derivative whose row was excluded meanwhile. */
  ghost predicate RevivesExcluded(s: Ledger, step: Step) {
    step.CommittingDerivative? && step.key in s.rows.objects && s.rows.objects[step.key].state == Excluded
  }

  /** The ledger alone: a step keeps it exactly when it does not write to an excluded derivative. */
  lemma StepKeepsLedgerIff(sys: System, step: Step)
    requires LedgerInv(sys.ledger)
    ensures LedgerInv(Next(sys, step).ledger) <==> !(Enabled(sys, step) && RevivesExcluded(sys.ledger, step))
  {
    hide LedgerInv, StartsFinalizing;
    if !Enabled(sys, step) {
    } else if step.CommittingDerivative? {
      if step.key in sys.ledger.rows.objects { DerivativeKeepsLedgerIff(sys.ledger, step.key, step.matches); }
    } else if TouchesObjects(step) {
      hide Execute;
      ObjectStepKeepsLedger(sys.ledger, step);
    } else {
      hide Execute;
      OtherStepKeepsLedger(sys.ledger, step);
    }
  }

  /** No step of the run writes to an excluded derivative. */
  ghost predicate CleanRun(sys: System, steps: seq<Step>)
    decreases |steps|
  {
    steps == []
    || (!(Enabled(sys, steps[0]) && RevivesExcluded(sys.ledger, steps[0])) && CleanRun(Next(sys, steps[0]), steps[1..]))
  }

  lemma {:induction false} RunKeepsLedger(sys: System, steps: seq<Step>)
    requires LedgerInv(sys.ledger) && CleanRun(sys, steps)
    ensures LedgerInv(Run(sys, steps).ledger)
    decreases |steps|
  {
    hide LedgerInv, Execute, RevivesExcluded;
    if steps != [] {
      StepKeepsLedgerIff(sys, steps[0]);
      RunKeepsLedger(Next(sys, steps[0]), steps[1..]);
    }
  }

  lemma InitialIsSafe(sys: System)
    requires Initial(sys)
    ensures SafeInv(sys)
  {}

  ghost predicate HarmlessRun(sys: System, steps: seq<Step>)
    decreases |steps|
  {
    steps == []
    || ((Enabled(sys, steps[0]) ==> Harmless(sys.ledger, steps[0])) && HarmlessRun(Next(sys, steps[0]), steps[1..]))
  }

  /** Main result: however the transactions of a new event interleave, every state is safe as long as no
      late derivative commit or reassignment does harm. */
  lemma {:induction false} RunIsSafe(sys: System, steps: seq<Step>)
    requires SafeInv(sys) && HarmlessRun(sys, steps)
    ensures SafeInv(Run(sys, steps))
    decreases |steps|
  {
    hide SafeInv, Execute, Harmless;
    if steps != [] {
      if Enabled(sys, steps[0]) { StepKeepsSafetyIff(sys, steps[0]); }
      RunIsSafe(Next(sys, steps[0]), steps[1..]);
    }
  }
}
