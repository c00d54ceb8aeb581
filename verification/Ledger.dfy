/** One event's rows and every command that changes them, each as one transaction.

    A transaction either changes the rows or leaves them as they were; the reply says which error
    the caller sees. Work that a command does before it takes the event lock is a separate step
    (the functions named ...Begin), so that anything may run between the two. */
module Ledger {
  import opened Prelude
  import opened Tallies
  import opened Lifecycle

  type AssetId = nat
  type BatchId = nat
  type SectionId = nat

  const EVENT_ORIGINAL_ASSET_LIMIT: nat := 10_000
  const MAX_SECTIONS: nat := 50
  const MAX_ATTEMPTS: nat := 5

  datatype Variant = Original | Preview | Thumbnail

  datatype ObjectState = Reserved | Verified | Failed | Excluded

  datatype BatchState = InFlight | Complete | NotIncluded | Withdrawn

  datatype FaceState = Pending | FaceFailed | Conflict | Indexed | NoUsableFace

  /** The database admits one object per asset and variant. */
  datatype ObjectKey = ObjectKey(asset: AssetId, variant: Variant)

  /** What an object must look like in the store: its length, and its checksums and content type. */
  datatype Spec = Spec(bytes: nat, digest: nat)

  datatype StoredObject = StoredObject(spec: Spec, state: ObjectState, lease: Option<nat>)

  /** A purge forgets the digest of the contribution's manifest. */
  datatype Batch = Batch(
    section: SectionId, installation: nat, generation: nat, digest: Option<nat>, state: BatchState)

  /** `name` stands for the natural order of the original filename. */
  datatype Asset = Asset(
    batch: BatchId, sha: nat, captured: Option<int>, name: int,
    hidden: bool, position: Option<nat>,
    derivativeFailed: bool, derivativeAttempts: nat)

  datatype Face = Face(state: FaceState, source: nat, model: nat, document: Option<nat>, attempts: nat)

  datatype Manifest = Manifest(state: ManifestState, assetCount: nat, originalBytes: nat)

  datatype Event = Event(
    state: EventState, intake: IntakeState, generation: nat,
    profile: nat, faceModel: nat, policy: bool, byteLimit: nat,
    reservedBytes: int, reservedCount: int, verifiedBytes: int, verifiedCount: int,
    derivativesReady: Option<nat>, facesReady: Option<nat>, manifest: Option<nat>)

  datatype Tables = Tables(
    archived: map<SectionId, bool>,
    batches: map<BatchId, Batch>,
    assets: map<AssetId, Asset>,
    objects: map<ObjectKey, StoredObject>,
    faces: map<AssetId, Face>)

  /** `manifests` is keyed by generation: the database admits one manifest per event and generation.
      The foreign ids belong to other events; batch and asset ids are unique across all of them. */
  datatype Ledger = Ledger(
    event: Event, rows: Tables, manifests: map<nat, Manifest>,
    foreignBatches: set<BatchId>, foreignAssets: set<AssetId>)

  datatype Item = Item(spec: Spec, sha: nat, name: int)

  /** A validated contribution: one to ten thousand photos with distinct ids. */
  datatype Contribution = Contribution(
    batch: BatchId, section: SectionId, installation: nat, profile: nat, digest: nat,
    items: map<AssetId, Item>)

  datatype FaceDocument = FaceDocument(source: nat, model: nat, document: nat, hasUsableFace: bool)

  datatype Error =
    | SectionNotFound | SectionArchived | SectionLimit | IdempotencyConflict | EventPublished | IntakeClosed
    | IntakeOpen | Lifecycle(violation: Violation) | ProfileMismatch | StorageLimit | AssetLimit
    | ConstraintViolated | BatchNotFound | AssetNotFound | AssetExcluded | AssetImmutable | ObjectMismatch
    | LeaseActive | ObjectStoreUnavailable | BatchHasVerifiedAssets | EventNotPublishable | EmptyManifest
    | MissingDerivatives | MissingFaces | MissingPolicy | MissingSection | SnapshotMissing | SnapshotExists
    | EventNotUploadingNow | ContributionsNotTerminal | StaleGeneration | EventNotPublished
    | PolicyNotConfirmed | PolicyLocked | SourceMismatch | OriginalNotVerified | EventNotProcessing
    | DerivativeConflict | DerivativeNotFound | DerivativeMismatch | ModelMismatch | FaceConflict
    | FaceAttemptsExhausted | FaceNotFound | EventNotReviewable | RetriesRemaining | StructureLocked

  datatype Reply = Done | Rejected(error: Error)

  datatype Outcome = Outcome(ledger: Ledger, reply: Reply)

  // ----------------------------------------------------------------- queries

  predicate HasObject(t: Tables, a: AssetId, v: Variant) {
    ObjectKey(a, v) in t.objects
  }

  predicate IsVerified(t: Tables, a: AssetId, v: Variant) {
    HasObject(t, a, v) && t.objects[ObjectKey(a, v)].state == Verified
  }

  /** An original that still has to arrive. */
  predicate IsPending(t: Tables, a: AssetId) {
    HasObject(t, a, Original) && t.objects[ObjectKey(a, Original)].state in {Reserved, Failed}
  }

  predicate InBatch(t: Tables, a: AssetId, b: BatchId) {
    a in t.assets && t.assets[a].batch == b
  }

  predicate InActiveSection(t: Tables, b: BatchId) {
    b in t.batches && t.batches[b].section in t.archived && !t.archived[t.batches[b].section]
  }

  /** A gallery photo as the readiness checks see it. */
  predicate IsVisible(t: Tables, a: AssetId) {
    && a in t.assets
    && !t.assets[a].hidden
    && InActiveSection(t, t.assets[a].batch)
    && IsVerified(t, a, Original)
  }

  function VisiblePhotos(t: Tables): set<AssetId> {
    set a | a in t.assets && IsVisible(t, a)
  }

  /** The photos that the publication gate counts: visible and in a completed batch. */
  function IncludedPhotos(t: Tables): set<AssetId> {
    set a | a in t.assets && IsVisible(t, a) && t.batches[t.assets[a].batch].state == Complete
  }

  predicate HasPair(t: Tables, a: AssetId) {
    IsVerified(t, a, Preview) && IsVerified(t, a, Thumbnail)
  }

  predicate HasFaces(t: Tables, model: nat, a: AssetId) {
    && a in t.faces && a in t.assets
    && t.faces[a].state in {Indexed, NoUsableFace}
    && t.faces[a].source == t.assets[a].sha
    && t.faces[a].model == model
  }

  /** The photos that the public gallery lists. */
  function GalleryPhotos(t: Tables): set<AssetId> {
    set a | a in t.assets && IsVisible(t, a) && HasPair(t, a)
  }

  function VerifiedDerivatives(t: Tables, photos: set<AssetId>): set<ObjectKey> {
    set k | k in t.objects && k.asset in photos && k.variant != Original && t.objects[k].state == Verified
  }

  function AnalysedPhotos(t: Tables, model: nat, photos: set<AssetId>): set<AssetId> {
    set a | a in photos && HasFaces(t, model, a)
  }

  function InFlightBatches(t: Tables): set<BatchId> {
    set b | b in t.batches && t.batches[b].state == InFlight
  }

  function HasActiveSection(t: Tables): bool {
    exists s :: s in t.archived && !t.archived[s]
  }

  function Sizes(objects: map<ObjectKey, StoredObject>): map<ObjectKey, nat> {
    map k | k in objects :: objects[k].spec.bytes
  }

  /** The objects of one batch, all variants. */
  function BatchObjects(t: Tables, b: BatchId): set<ObjectKey> {
    set k | k in t.objects && InBatch(t, k.asset, b)
  }

  /** Originals that occupy the event's allowance. */
  function HeldOriginals(objects: map<ObjectKey, StoredObject>): set<ObjectKey> {
    set k | k in objects && k.variant == Original && objects[k].state != Excluded
  }

  function StoredOriginals(objects: map<ObjectKey, StoredObject>): set<ObjectKey> {
    set k | k in objects && k.variant == Original && objects[k].state == Verified
  }

  /** The verified originals of the given batches, as a manifest counts them. */
  function StoredIn(t: Tables, batches: set<BatchId>): set<ObjectKey> {
    set k | k in StoredOriginals(t.objects) && k.asset in t.assets && t.assets[k.asset].batch in batches
  }

  function PublishableBatches(t: Tables): set<BatchId> {
    set b | b in t.batches && t.batches[b].state == Complete && InActiveSection(t, b)
  }

  predicate EveryOriginalTerminal(t: Tables) {
    forall k :: k in t.objects && k.variant == Original ==> t.objects[k].state in {Verified, Excluded}
  }

  predicate LeaseIsActive(o: StoredObject, now: nat) {
    o.lease.Some? && o.lease.value > now
  }

  /** The CHECK constraints on the event row. */
  predicate WithinConstraints(e: Event) {
    && 0 <= e.verifiedBytes <= e.reservedBytes <= e.byteLimit
    && 0 <= e.verifiedCount <= e.reservedCount <= EVENT_ORIGINAL_ASSET_LIMIT
  }

  // ------------------------------------------------------------- transactions

  ghost function Fail(s: Ledger, error: Error): Outcome {
    Outcome(s, Rejected(error))
  }

  /** Commits `next` unless the database refuses the event row; then nothing changes. */
  ghost function Save(s: Ledger, next: Ledger): Outcome {
    if WithinConstraints(next.event) then Outcome(next, Done) else Fail(s, ConstraintViolated)
  }

  ghost function WithEvent(s: Ledger, event: Event): Ledger {
    s.(event := event)
  }

  function WithObject(t: Tables, k: ObjectKey, o: StoredObject): Tables {
    t.(objects := t.objects[k := o])
  }

  /** A batch becomes complete with its last original. */
  ghost function CompleteIfTerminal(t: Tables, b: BatchId): Tables
    requires b in t.batches
  {
    if t.batches[b].state == InFlight && !exists a :: InBatch(t, a, b) && IsPending(t, a)
    then t.(batches := t.batches[b := t.batches[b].(state := Complete)])
    else t
  }

  ghost function Reserve(s: Ledger, c: Contribution): Outcome
    requires c.items != map[]
  {
    var e, t := s.event, s.rows;
    var sizes := map a | a in c.items :: c.items[a].spec.bytes;
    var bytes := Total(c.items.Keys, sizes);
    if !(c.section in t.archived && !t.archived[c.section]) then Fail(s, SectionNotFound)
    else if c.batch in t.batches then
      var existing := t.batches[c.batch];
      if existing.installation == c.installation && existing.section == c.section && existing.digest == Some(c.digest)
      then Outcome(s, Done)
      else Fail(s, IdempotencyConflict)
    else if c.batch in s.foreignBatches then Fail(s, IdempotencyConflict)
    else if e.state == Published then Fail(s, EventPublished)
    else if e.intake != Open then Fail(s, IntakeClosed)
    else if ForContribution(e.state).Refuse? then Fail(s, Lifecycle(ForContribution(e.state).violation))
    else if c.profile != e.profile then Fail(s, ProfileMismatch)
    else if e.reservedBytes + bytes > e.byteLimit then Fail(s, StorageLimit)
    else if e.reservedCount + |c.items| > EVENT_ORIGINAL_ASSET_LIMIT then Fail(s, AssetLimit)
    else if exists a :: a in c.items && (a in t.assets || a in s.foreignAssets) then Fail(s, IdempotencyConflict)
    else
      Save(s, s.(
        rows := WithContribution(t, c, e.generation),
        event := e.(
          policy := true,
          reservedBytes := e.reservedBytes + bytes,
          reservedCount := e.reservedCount + |c.items|,
          state := ForContribution(e.state).state)))
  }

  function NewAssets(c: Contribution): map<AssetId, Asset> {
    map a | a in c.items :: Asset(c.batch, c.items[a].sha, None, c.items[a].name, false, None, false, 0)
  }

  function WithContribution(t: Tables, c: Contribution, generation: nat): Tables {
    t.(batches := t.batches[c.batch := Batch(c.section, c.installation, generation, Some(c.digest), InFlight)],
       assets := t.assets + NewAssets(c),
       objects := t.objects + NewOriginals(c))
  }

  function OriginalKeys(ids: set<AssetId>): set<ObjectKey> {
    set a | a in ids :: ObjectKey(a, Original)
  }

  function NewOriginals(c: Contribution): map<ObjectKey, StoredObject> {
    map k | k in OriginalKeys(c.items.Keys) :: StoredObject(c.items[k.asset].spec, Reserved, None)
  }

  /** Renews the upload leases of the chosen originals that still have to arrive. */
  ghost function Lease(s: Ledger, b: BatchId, installation: nat, chosen: set<AssetId>, until: nat): Outcome {
    var e, t := s.event, s.rows;
    if e.intake != Open || e.state == Published then Fail(s, EventPublished)
    else if b !in t.batches || t.batches[b].installation != installation then Fail(s, BatchNotFound)
    else if !InActiveSection(t, b) then Fail(s, SectionArchived)
    else if t.batches[b].state != InFlight then Outcome(s, Done)
    else Outcome(s.(rows := t.(objects := Leased(t, b, chosen, until))), Done)
  }

  predicate TakesLease(t: Tables, b: BatchId, chosen: set<AssetId>, k: ObjectKey) {
    k.variant == Original && k.asset in chosen && InBatch(t, k.asset, b) && IsPending(t, k.asset)
  }

  function Leased(t: Tables, b: BatchId, chosen: set<AssetId>, until: nat): map<ObjectKey, StoredObject> {
    map k | k in t.objects ::
      if TakesLease(t, b, chosen, k)
      then t.objects[k].(state := Reserved, lease := Some(until))
      else t.objects[k]
  }

  /** The locked half of verification: `head` is what the store showed at some earlier moment. The unlocked
      half only reads, so any head may arrive here at any time. */
  ghost function VerifyCommit(s: Ledger, a: AssetId, head: Spec): Outcome {
    var e, t := s.event, s.rows;
    var k := ObjectKey(a, Original);
    if a !in t.assets || t.assets[a].batch !in t.batches || k !in t.objects then Fail(s, AssetNotFound)
    else
      var o := t.objects[k];
      if o.state == Verified then Outcome(s, Done)
      else if o.state == Excluded then Fail(s, AssetExcluded)
      else if head != o.spec then
        Outcome(s.(rows := WithObject(t, k, o.(state := Failed, lease := None))), Rejected(ObjectMismatch))
      else
        Save(s, s.(
          event := e.(
            verifiedBytes := e.verifiedBytes + o.spec.bytes,
            verifiedCount := e.verifiedCount + 1),
          rows := CompleteIfTerminal(WithObject(t, k, o.(state := Verified)), t.assets[a].batch)))
  }

  ghost function ExcludeAsset(s: Ledger, a: AssetId, now: nat, storeAnswers: bool): Outcome {
    var e, t := s.event, s.rows;
    var k := ObjectKey(a, Original);
    if a !in t.assets || t.assets[a].batch !in t.batches || k !in t.objects then Fail(s, AssetNotFound)
    else
      var o := t.objects[k];
      if o.state == Verified then Fail(s, AssetImmutable)
      else if o.state == Excluded then Outcome(s, Done)
      else if LeaseIsActive(o, now) then Fail(s, LeaseActive)
      else if !storeAnswers then Fail(s, ObjectStoreUnavailable)
      else
        Save(s, s.(
          event := e.(
            reservedBytes := e.reservedBytes - o.spec.bytes,
            reservedCount := e.reservedCount - 1),
          rows := CompleteIfTerminal(WithObject(t, k, o.(state := Excluded)), t.assets[a].batch)))
  }

  /** What a cancellation gives back: every object of the batch, of any variant, that is not excluded. */
  function Releasable(t: Tables, b: BatchId): set<ObjectKey> {
    set k | k in BatchObjects(t, b) && t.objects[k].state != Excluded
  }

  function WithdrawnBatch(t: Tables, b: BatchId): Tables
    requires b in t.batches
  {
    t.(objects := map k | k in t.objects ::
         if InBatch(t, k.asset, b) then t.objects[k].(state := Excluded) else t.objects[k],
       batches := t.batches[b := t.batches[b].(state := Withdrawn)])
  }

  ghost function CancelBatch(s: Ledger, b: BatchId, now: nat, storeAnswers: bool): Outcome {
    var e, t := s.event, s.rows;
    if b !in t.batches then Fail(s, BatchNotFound)
    else if t.batches[b].state == Withdrawn then Outcome(s, Done)
    else if exists k :: k in BatchObjects(t, b) && t.objects[k].state == Verified then Fail(s, BatchHasVerifiedAssets)
    else if exists k :: k in BatchObjects(t, b) && LeaseIsActive(t.objects[k], now) then Fail(s, LeaseActive)
    else if !storeAnswers then Fail(s, ObjectStoreUnavailable)
    else
      var released := Releasable(t, b);
      Save(s, s.(
        event := e.(
          reservedBytes := e.reservedBytes - Total(released, Sizes(t.objects)),
          reservedCount := e.reservedCount - |released|),
        rows := WithdrawnBatch(t, b)))
  }

  /** The publication gate, as counted. */
  predicate ReadyToPublish(e: Event, t: Tables) {
    var included := IncludedPhotos(t);
    && included != {}
    && |VerifiedDerivatives(t, included)| == 2 * |included|
    && |AnalysedPhotos(t, e.faceModel, included)| == |included|
    && e.policy
    && HasActiveSection(t)
  }

  function DroppedObjects(t: Tables): set<ObjectKey> {
    set k | k in t.objects && k.asset in t.assets && t.assets[k.asset].batch in InFlightBatches(t)
  }

  predicate IsOf(assets: map<AssetId, Asset>, a: AssetId, batches: set<BatchId>) {
    a in assets && assets[a].batch in batches
  }

  function ObjectsDropped(t: Tables, dropped: set<ObjectKey>): map<ObjectKey, StoredObject> {
    map k | k in t.objects :: if k in dropped then t.objects[k].(state := Excluded, lease := None) else t.objects[k]
  }

  function BatchesLeft(batches: map<BatchId, Batch>): map<BatchId, Batch> {
    map b | b in batches ::
      if batches[b].state == InFlight then batches[b].(state := NotIncluded) else batches[b]
  }

  function FacesKept(t: Tables, closed: set<BatchId>): map<AssetId, Face> {
    map a | a in t.faces && !IsOf(t.assets, a, closed) :: t.faces[a]
  }

  /** Closes every unfinished contribution and excludes all of its objects. */
  function WithoutUnfinished(t: Tables): Tables {
    t.(objects := ObjectsDropped(t, DroppedObjects(t)),
       batches := BatchesLeft(t.batches),
       faces := FacesKept(t, InFlightBatches(t)))
  }

  ghost function Publish(s: Ledger, storeAccepts: bool): Outcome {
    var e, t := s.event, s.rows;
    var included := IncludedPhotos(t);
    if e.state == Published then
      if e.manifest.None? then Fail(s, SnapshotMissing) else Outcome(s, Done)
    else if e.state in {Archived, Cancelled, Broken} then Fail(s, EventNotPublishable)
    else if included == {} then Fail(s, EmptyManifest)
    else if |VerifiedDerivatives(t, included)| != 2 * |included| then Fail(s, MissingDerivatives)
    else if |AnalysedPhotos(t, e.faceModel, included)| != |included| then Fail(s, MissingFaces)
    else if !e.policy then Fail(s, MissingPolicy)
    else if !HasActiveSection(t) then Fail(s, MissingSection)
    else if e.generation in s.manifests then Fail(s, SnapshotExists)
    else if !storeAccepts then Fail(s, ObjectStoreUnavailable)
    else Save(s, Snapshotted(s))
  }

  /** The published state: unfinished contributions are gone from the counters, and everything is current. */
  ghost function Snapshotted(s: Ledger): Ledger {
    var e, t := s.event, s.rows;
    var dropped := DroppedObjects(t);
    var held, stored := dropped * HeldOriginals(t.objects), dropped * StoredOriginals(t.objects);
    var after := WithoutUnfinished(t);
    var listed := StoredIn(after, PublishableBatches(after));
    s.(
      event := e.(
        intake := Closed,
        state := Published,
        reservedBytes := e.reservedBytes - Total(held, Sizes(t.objects)),
        reservedCount := e.reservedCount - |held|,
        verifiedBytes := e.verifiedBytes - Total(stored, Sizes(t.objects)),
        verifiedCount := e.verifiedCount - |stored|,
        derivativesReady := Some(e.generation),
        facesReady := Some(e.generation),
        manifest := Some(e.generation)),
      rows := after,
      manifests := s.manifests[e.generation := Manifest(Committed, |listed|, Total(listed, Sizes(after.objects)))])
  }

  ghost function CloseIntake(s: Ledger): Outcome {
    if s.event.intake == Closed then Outcome(s, Done)
    else if s.event.state !in {Draft, Uploading} then Fail(s, EventNotUploadingNow)
    else Outcome(WithEvent(s, s.event.(intake := Closed)), Done)
  }

  function NextGeneration(e: Event): Event {
    e.(generation := e.generation + 1, intake := Open, state := Uploading,
       manifest := None, derivativesReady := None, facesReady := None)
  }

  ghost function ReopenIntake(s: Ledger): Outcome {
    if s.event.intake == Open then Outcome(s, Done)
    else if ForReopenedIntake(s.event.state).Refuse? then
      Fail(s, Lifecycle(ForReopenedIntake(s.event.state).violation))
    else Outcome(WithEvent(s, NextGeneration(s.event)), Done)
  }

  ghost function Unpublish(s: Ledger): Outcome {
    if s.event.state != Published then Fail(s, EventNotPublished)
    else Outcome(WithEvent(s, NextGeneration(s.event)), Done)
  }

  ghost function OriginalsManifest(t: Tables): Manifest {
    var stored := StoredOriginals(t.objects);
    Manifest(Prepared, |stored|, Total(stored, Sizes(t.objects)))
  }

  /** Prepares the manifest of the current generation; the committing half follows later. */
  ghost function FinalizeBegin(s: Ledger): Outcome {
    var e, t := s.event, s.rows;
    if e.intake != Closed then Fail(s, IntakeOpen)
    else if e.state == Processing && e.manifest == Some(e.generation) then Outcome(s, Done)
    else if ForFinalizedIngestion(e.state).Refuse? then Fail(s, Lifecycle(ForFinalizedIngestion(e.state).violation))
    else if !EveryOriginalTerminal(t) then Fail(s, ContributionsNotTerminal)
    else if StoredOriginals(t.objects) == {} then Fail(s, EmptyManifest)
    else if e.generation in s.manifests then Outcome(s, Done)
    else Outcome(s.(manifests := s.manifests[e.generation := OriginalsManifest(t)]), Done)
  }

  /** True when FinalizeBegin leaves a worker that will try to commit. */
  ghost predicate StartsFinalizing(s: Ledger) {
    && FinalizeBegin(s).reply == Done
    && !(s.event.state == Processing && s.event.manifest == Some(s.event.generation))
  }

  /** Commits the manifest prepared for generation `g`; the new state was chosen while preparing. */
  ghost function FinalizeCommit(s: Ledger, g: nat): Outcome {
    if g !in s.manifests || s.event.intake != Closed || s.event.generation != g then Fail(s, StaleGeneration)
    else
      Outcome(s.(
        manifests := s.manifests[g := s.manifests[g].(state := Committed)],
        event := s.event.(manifest := Some(g), state := Processing)), Done)
  }

  /** Registers both derivatives of a photo. The event row is not locked: `observed` is the state
      that the command read before. */
  ghost function RegisterDerivatives(
    s: Ledger, a: AssetId, source: nat, observed: EventState, captured: Option<int>,
    preview: Spec, thumbnail: Spec): Outcome
  {
    var t := s.rows;
    var p, q := ObjectKey(a, Preview), ObjectKey(a, Thumbnail);
    if !s.event.policy then Fail(s, PolicyNotConfirmed)
    else if a !in t.assets then Fail(s, AssetNotFound)
    else if !InActiveSection(t, t.assets[a].batch) then Fail(s, SectionArchived)
    else if t.assets[a].sha != source then Fail(s, SourceMismatch)
    else if !IsVerified(t, a, Original) then Fail(s, OriginalNotVerified)
    else if observed in {Published, Archived, Cancelled} then Fail(s, EventNotProcessing)
    else if captured.Some? && t.assets[a].captured.Some? && captured != t.assets[a].captured then
      Fail(s, DerivativeConflict)
    else if p in t.objects && t.objects[p].spec != preview then Fail(s, DerivativeConflict)
    else if q in t.objects && t.objects[q].spec != thumbnail then Fail(s, DerivativeConflict)
    else
      Outcome(s.(rows := WithDerivatives(t, a, captured, preview, thumbnail)), Done)
  }

  /** Rows that exist already stay as they are. */
  function WithDerivatives(t: Tables, a: AssetId, captured: Option<int>, preview: Spec, thumbnail: Spec): Tables
    requires a in t.assets
  {
    var added := map[ObjectKey(a, Preview) := StoredObject(preview, Reserved, None),
                     ObjectKey(a, Thumbnail) := StoredObject(thumbnail, Reserved, None)];
    t.(objects := added + t.objects,
       assets := t.assets[a := t.assets[a].(
         derivativeFailed := false,
         captured := if captured.Some? then captured else t.assets[a].captured)])
  }

  ghost function ReportDerivativeFailure(s: Ledger, a: AssetId): Outcome {
    var t := s.rows;
    if a !in t.assets then Fail(s, AssetNotFound)
    else if !InActiveSection(t, t.assets[a].batch) then Fail(s, SectionArchived)
    else
      var failed := t.assets[a].(derivativeFailed := true, derivativeAttempts := t.assets[a].derivativeAttempts + 1);
      Outcome(s.(rows := t.(assets := t.assets[a := failed])), Done)
  }

  /** The locked half writes the state decided before, whatever the row says now. The unlocked half stops only at a row
      that is verified already. */
  ghost function DerivativeCommit(s: Ledger, k: ObjectKey, matches: bool): Outcome
    requires k.variant != Original
  {
    var t := s.rows;
    if k !in t.objects then Fail(s, DerivativeNotFound)
    else if matches then Outcome(s.(rows := WithObject(t, k, t.objects[k].(state := Verified))), Done)
    else Outcome(s.(rows := WithObject(t, k, t.objects[k].(state := Failed))), Rejected(DerivativeMismatch))
  }

  /** Gallery order: capture time (missing last), filename, id. */
  predicate SortsBefore(t: Tables, a: AssetId, b: AssetId)
    requires a in t.assets && b in t.assets
  {
    var x, y := t.assets[a], t.assets[b];
    if x.captured != y.captured then
      x.captured.Some? && (y.captured.None? || x.captured.value < y.captured.value)
    else x.name < y.name || (x.name == y.name && a < b)
  }

  /** One more than the number of visible photos sorted before `a`. */
  function Rank(t: Tables, a: AssetId): nat
    requires a in t.assets
  {
    |set b | b in VisiblePhotos(t) && SortsBefore(t, b, a)| + 1
  }

  function Positioned(t: Tables): map<AssetId, Asset> {
    map a | a in t.assets ::
      if IsVisible(t, a) then t.assets[a].(position := Some(Rank(t, a))) else t.assets[a]
  }

  ghost function RefreshDerivatives(s: Ledger): Outcome {
    var e, t := s.event, s.rows;
    var photos := VisiblePhotos(t);
    if !(e.manifest == Some(e.generation) && e.generation in s.manifests
         && s.manifests[e.generation].state == Committed) then Outcome(s, Done)
    else if photos == {} then Outcome(WithEvent(s, e.(derivativesReady := None)), Done)
    else if |VerifiedDerivatives(t, photos)| != |photos| * 2 then
      Outcome(WithEvent(s, e.(derivativesReady := None, state := ForDerivativeReadiness(e.state, false))), Done)
    else
      Outcome(s.(
        event := e.(derivativesReady := Some(e.generation), state := ForDerivativeReadiness(e.state, true)),
        rows := t.(assets := Positioned(t))), Done)
  }

  ghost function RefreshFaces(s: Ledger): Outcome {
    var e, t := s.event, s.rows;
    var photos := VisiblePhotos(t);
    var current := e.manifest == Some(e.generation) && e.generation in s.manifests
                   && s.manifests[e.generation].state == Committed;
    var ready := current && photos != {} && |AnalysedPhotos(t, e.faceModel, photos)| == |photos|;
    Outcome(WithEvent(s, e.(facesReady := if ready then Some(e.generation) else None)), Done)
  }

  function ProcessingAllowed(s: Ledger, a: AssetId, section: SectionId): Reply {
    var e, t := s.event, s.rows;
    if e.state in {Published, Archived, Cancelled} then Rejected(EventNotProcessing)
    else if a !in t.assets || t.assets[a].batch !in t.batches
            || t.batches[t.assets[a].batch].section != section then Rejected(AssetNotFound)
    else if !InActiveSection(t, t.assets[a].batch) then Rejected(SectionArchived)
    else if !IsVerified(t, a, Original) then Rejected(OriginalNotVerified)
    else Done
  }

  ghost function SetFace(s: Ledger, a: AssetId, face: Face): Ledger {
    s.(rows := s.rows.(faces := s.rows.faces[a := face]), event := s.event.(facesReady := None))
  }

  /** Stores an analysis. A different analysis of a photo that already has one is a conflict, which
      stays on record although the caller gets an error. */
  ghost function SubmitFace(s: Ledger, a: AssetId, section: SectionId, d: FaceDocument): Outcome {
    var e, t := s.event, s.rows;
    var allowed := ProcessingAllowed(s, a, section);
    var analysed := Face(if d.hasUsableFace then Indexed else NoUsableFace, d.source, d.model, Some(d.document), 1);
    if allowed.Rejected? then Fail(s, allowed.error)
    else if d.model != e.faceModel then Fail(s, ModelMismatch)
    else if d.source != t.assets[a].sha then Fail(s, SourceMismatch)
    else if a !in t.faces then Outcome(SetFace(s, a, analysed), Done)
    else
      var face := t.faces[a];
      if face.state in {Indexed, NoUsableFace} then
        if face.document == Some(d.document) then Outcome(s, Done)
        else
          Outcome(SetFace(s, a, face.(state := Conflict, attempts := face.attempts + 1)), Rejected(FaceConflict))
      else if face.state == Conflict then Fail(s, FaceConflict)
      else if face.attempts >= MAX_ATTEMPTS then Fail(s, FaceAttemptsExhausted)
      else Outcome(SetFace(s, a, analysed.(attempts := face.attempts + 1)), Done)
  }

  ghost function ReportFaceFailure(s: Ledger, a: AssetId, section: SectionId): Outcome {
    var e, t := s.event, s.rows;
    var allowed := ProcessingAllowed(s, a, section);
    if allowed.Rejected? then Fail(s, allowed.error)
    else
      var face := if a in t.faces then t.faces[a] else Face(Pending, t.assets[a].sha, e.faceModel, None, 0);
      if face.state in {Indexed, NoUsableFace} then Outcome(s, Done)
      else if face.state == Conflict then Fail(s, FaceConflict)
      else if face.attempts >= MAX_ATTEMPTS then Outcome(s, Done)
      else Outcome(SetFace(s, a, face.(state := FaceFailed, attempts := face.attempts + 1)), Done)
  }

  ghost function ResetFace(s: Ledger, a: AssetId): Outcome {
    var e, t := s.event, s.rows;
    if e.state in {Published, Archived, Cancelled} then Fail(s, EventNotProcessing)
    else if a !in t.faces || a !in t.assets then Fail(s, FaceNotFound)
    else Outcome(SetFace(s, a, Face(Pending, t.assets[a].sha, e.faceModel, None, 0)), Done)
  }

  predicate RetriesExhausted(t: Tables, a: AssetId)
    requires a in t.assets
  {
    var derivativeFailed :=
      || t.assets[a].derivativeFailed
      || (HasObject(t, a, Preview) && t.objects[ObjectKey(a, Preview)].state == Failed)
      || (HasObject(t, a, Thumbnail) && t.objects[ObjectKey(a, Thumbnail)].state == Failed);
    var faceFailed := a in t.faces && t.faces[a].state in {FaceFailed, Conflict};
    || (derivativeFailed && t.assets[a].derivativeAttempts >= MAX_ATTEMPTS)
    || (faceFailed && t.faces[a].attempts >= MAX_ATTEMPTS)
  }

  ghost function HidePhoto(s: Ledger, a: AssetId): Outcome {
    var e, t := s.event, s.rows;
    if e.state !in {Uploading, Processing, Review} then Fail(s, EventNotReviewable)
    else if a !in t.assets then Fail(s, AssetNotFound)
    else if t.assets[a].hidden then Outcome(s, Done)
    else if !RetriesExhausted(t, a) then Fail(s, RetriesRemaining)
    else
      Outcome(s.(
        rows := t.(assets := t.assets[a := t.assets[a].(hidden := true, position := None)]),
        event := e.(derivativesReady := None, facesReady := None)), Done)
  }

  ghost function RestorePhoto(s: Ledger, a: AssetId): Outcome {
    var e, t := s.event, s.rows;
    if e.state !in {Uploading, Processing, Review} then Fail(s, EventNotReviewable)
    else if a !in t.assets then Fail(s, AssetNotFound)
    else if !t.assets[a].hidden then Outcome(s, Done)
    else
      Outcome(s.(
        rows := t.(assets := t.assets[a := t.assets[a].(hidden := false, position := None)]),
        event := e.(derivativesReady := None, facesReady := None,
                    state := ForDerivativeReadiness(e.state, false))), Done)
  }

  predicate StructureIsLocked(e: Event) {
    e.state in {Published, Archived, Cancelled}
  }

  ghost function CreateSection(s: Ledger, section: SectionId): Outcome {
    if StructureIsLocked(s.event) then Fail(s, StructureLocked)
    else if |s.rows.archived| >= MAX_SECTIONS || section in s.rows.archived then Fail(s, SectionLimit)
    else Outcome(s.(rows := s.rows.(archived := s.rows.archived[section := false])), Done)
  }

  ghost function SetArchived(s: Ledger, section: SectionId, archived: bool): Outcome {
    var e, t := s.event, s.rows;
    if StructureIsLocked(e) then Fail(s, StructureLocked)
    else if section !in t.archived then Fail(s, SectionNotFound)
    else if t.archived[section] == archived then Outcome(s, Done)
    else
      Outcome(s.(
        rows := t.(archived := t.archived[section := archived]),
        event := e.(derivativesReady := None, facesReady := None)), Done)
  }

  /** Moves a contribution to another active section. Readiness stays as it is. */
  ghost function Reassign(s: Ledger, b: BatchId, section: SectionId): Outcome {
    var e, t := s.event, s.rows;
    if StructureIsLocked(e) then Fail(s, StructureLocked)
    else if !(section in t.archived && !t.archived[section]) then Fail(s, SectionNotFound)
    else if b !in t.batches then Fail(s, BatchNotFound)
    else Outcome(s.(rows := t.(batches := t.batches[b := t.batches[b].(section := section)])), Done)
  }

  ghost function Transition(s: Ledger, target: EventState, expiryIsFuture: bool): Outcome {
    var e := s.event;
    var manifest :=
      if e.manifest.Some? && e.manifest.value in s.manifests
      then Some((s.manifests[e.manifest.value].state, e.manifest.value)) else None;
    var facts := Facts(e.intake, e.generation, manifest, expiryIsFuture, e.derivativesReady, e.facesReady,
                       e.policy, HasActiveSection(s.rows));
    var decision := ForManualTransition(e.state, target, facts);
    if decision.Refuse? then Fail(s, Lifecycle(decision.violation))
    else Outcome(WithEvent(s, e.(state := decision.state)), Done)
  }

  ghost function ConfirmPolicy(s: Ledger): Outcome {
    if s.event.policy then Outcome(s, Done)
    else if s.event.state in {Review, Published, Archived, Cancelled} then Fail(s, PolicyLocked)
    else if exists k :: k in s.rows.objects && k.variant != Original then Fail(s, PolicyLocked)
    else Outcome(WithEvent(s, s.event.(policy := true)), Done)
  }

  /** A privacy request quarantines the event at once. */
  ghost function RequestErasure(s: Ledger): Outcome {
    Outcome(WithEvent(s, s.event.(state := Cancelled, intake := Closed)), Done)
  }

  function Redacted(assets: map<AssetId, Asset>): map<AssetId, Asset> {
    map a | a in assets ::
      assets[a].(sha := 0, captured := None, name := 0, hidden := false, position := None, derivativeFailed := false)
  }

  function Forgotten(batches: map<BatchId, Batch>): map<BatchId, Batch> {
    map b | b in batches :: batches[b].(digest := None)
  }

  /** Deletes the event's media records and zeroes its counters. */
  ghost function Purge(s: Ledger): Outcome {
    Outcome(s.(
      rows := s.rows.(
        objects := map[], faces := map[],
        assets := Redacted(s.rows.assets), batches := Forgotten(s.rows.batches)),
      manifests := map[],
      event := s.event.(
        policy := false, manifest := None, derivativesReady := None, facesReady := None,
        reservedBytes := 0, reservedCount := 0, verifiedBytes := 0, verifiedCount := 0)), Done)
  }
}
