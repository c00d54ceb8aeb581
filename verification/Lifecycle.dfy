/** The event state machine: pure decisions from a current state and frozen facts. */
module Lifecycle {
  import opened Prelude

  datatype EventState = Draft | Uploading | Processing | Review | Published | Archived | Broken | Cancelled

  datatype IntakeState = Open | Closed

  datatype ManifestState = Prepared | Committed

  datatype Violation =
    | EventNotUploading
    | EventNotReopenable
    | InvalidTransition
    | ReopenRequired
    | FinalizationRequired
    | SectionRequired
    | FutureExpiryRequired
    | DerivativesRequired
    | FaceIndexRequired
    | PolicyRequired

  datatype Decision = Move(state: EventState) | Refuse(violation: Violation)

  /** What a manual transition may look at; gathered while the event row is locked. */
  datatype Facts = Facts(
    intake: IntakeState,
    generation: nat,
    manifest: Option<(ManifestState, nat)>,
    expiryIsFuture: bool,
    derivativesReady: Option<nat>,
    facesReady: Option<nat>,
    policyConfirmed: bool,
    hasActiveSection: bool)
  {
    predicate CurrentManifestIsCommitted() {
      manifest.Some? && manifest.value.0 == Committed && manifest.value.1 == generation
    }
  }

  function Targets(current: EventState): set<EventState> {
    match current
    case Draft => {Uploading, Cancelled}
    case Uploading => {Processing, Broken}
    case Processing => {Uploading, Review, Broken}
    case Review => {Uploading, Published, Processing}
    case Published => {Archived, Review}
    case Archived => {Published}
    case Broken => {Uploading, Processing, Cancelled}
    case Cancelled => {}
  }

  predicate CanTransition(current: EventState, target: EventState) {
    target == current || target in Targets(current)
  }

  function ForContribution(current: EventState): Decision {
    if current in {Draft, Uploading} then Move(Uploading) else Refuse(EventNotUploading)
  }

  function ForReopenedIntake(current: EventState): Decision {
    if current in {Published, Archived, Cancelled} then Refuse(EventNotReopenable) else Move(Uploading)
  }

  function ForFinalizedIngestion(current: EventState): Decision {
    if current == Uploading then Move(Processing) else Refuse(EventNotUploading)
  }

  function ForDerivativeReadiness(current: EventState, ready: bool): EventState {
    if ready && current == Processing then Review
    else if !ready && current == Review then Processing
    else current
  }

  function ForManualTransition(current: EventState, target: EventState, facts: Facts): Decision {
    if target == current then Move(current)
    else if !CanTransition(current, target) then Refuse(InvalidTransition)
    else if target == Uploading && (current in {Processing, Review} || facts.manifest.Some?) then
      Refuse(ReopenRequired)
    else if target == Processing && (facts.intake != Closed || !facts.CurrentManifestIsCommitted()) then
      Refuse(FinalizationRequired)
    else if target == Published then
      if !facts.hasActiveSection then Refuse(SectionRequired)
      else if !facts.expiryIsFuture then Refuse(FutureExpiryRequired)
      else if !facts.CurrentManifestIsCommitted() then Refuse(FinalizationRequired)
      else if facts.derivativesReady != Some(facts.generation) then Refuse(DerivativesRequired)
      else if facts.facesReady != Some(facts.generation) then Refuse(FaceIndexRequired)
      else if !facts.policyConfirmed then Refuse(PolicyRequired)
      else Move(Published)
    else Move(target)
  }

  /** Every automatic decision stays within the table of allowed transitions. */
  lemma DecisionsFollowTheTable(current: EventState, ready: bool)
    ensures ForContribution(current).Move? ==> CanTransition(current, ForContribution(current).state)
    ensures ForReopenedIntake(current).Move? ==> CanTransition(current, ForReopenedIntake(current).state)
    ensures ForFinalizedIngestion(current).Move? ==> CanTransition(current, ForFinalizedIngestion(current).state)
    ensures CanTransition(current, ForDerivativeReadiness(current, ready))
  {}

  /** Where a manual transition may come from, target by target; publication is the one that takes evidence. */
  lemma ManualTransitionIff(current: EventState, target: EventState, facts: Facts)
    ensures ForManualTransition(current, target, facts) == Move(target) <==>
      || target == current
      || match target
         case Draft => false
         case Uploading => current in {Draft, Broken} && facts.manifest.None?
         case Processing =>
           current in {Uploading, Review, Broken} && facts.intake == Closed && facts.CurrentManifestIsCommitted()
         case Review => current in {Processing, Published}
         case Published =>
           && current in {Review, Archived}
           && facts.hasActiveSection && facts.expiryIsFuture && facts.CurrentManifestIsCommitted()
           && facts.derivativesReady == facts.facesReady == Some(facts.generation)
           && facts.policyConfirmed
         case Archived => current == Published
         case Broken => current in {Uploading, Processing}
         case Cancelled => current in {Draft, Broken}
    ensures ForManualTransition(current, target, facts).Move? ==> ForManualTransition(current, target, facts).state == target
  {}

  /** An event is published by hand exactly with all the evidence for its current generation. */
  lemma ManualPublicationIff(current: EventState, facts: Facts)
    ensures ForManualTransition(current, Published, facts) == Move(Published) <==>
      || current == Published
      || (&& current in {Review, Archived}
          && facts.hasActiveSection && facts.expiryIsFuture && facts.CurrentManifestIsCommitted()
          && facts.derivativesReady == facts.facesReady == Some(facts.generation)
          && facts.policyConfirmed)
  {}
}
