/** A run of a new event, step by step, and two ways on from it: into a state in which the counters are wrong, and
    into one in which an unready photo goes public. */
module LedgerExample {
  import opened Prelude
  import opened Tallies
  import opened Lifecycle
  import opened Ledger
  import opened LedgerInvariant
  import opened LedgerSteps
  import opened Publication
  import opened PublicationSteps
  import opened LedgerGuarantees
  import opened LedgerRuns
  import opened LedgerGaps
  import opened CommandFacts

  // ------------------------------------------------------------- the run

  /** A contribution of one photo. */
  function Single(b: BatchId, section: SectionId, a: AssetId, bytes: nat): (c: Contribution)
    ensures c.items.Keys == {a} && c.items != map[]
  {
    var items := map[a := Item(Spec(bytes, a), a, a)];
    assert a in items;
    Contribution(b, section, 0, 0, b, items)
  }

  /** One photo that will be published. */
  function First(): Contribution { Single(2, 0, 20, 4) }

  /** Two photos of which one will not arrive in time. */
  function Second(): Contribution {
    Contribution(1, 0, 0, 0, 1, map[10 := Item(Spec(100, 10), 10, 10), 11 := Item(Spec(6, 11), 11, 11)])
  }

  /** One photo for the next generation, in another section. */
  function Third(): Contribution { Single(3, 1, 30, 7) }

  /** Up to step 12: contribution 2 is complete when the event is published and contribution 1 is not; then the
      event is unpublished, and contribution 3 begins. From there on: its photo arrives, its section is archived,
      and the event is finalized and found ready without it. */
  function StepAt(i: nat): Step {
    match i
    case 0 => Reserving(First())
    case 1 => Reserving(Second())
    case 2 => Verifying(20, Spec(4, 20))
    case 3 => Verifying(10, Spec(100, 10))
    case 4 => Registering(20, 20, EventState.Uploading, None, Spec(1, 1), Spec(1, 2))
    case 5 => Registering(10, 10, EventState.Uploading, None, Spec(5, 3), Spec(1, 4))
    case 6 => CommittingDerivative(ObjectKey(20, Preview), true)
    case 7 => CommittingDerivative(ObjectKey(20, Thumbnail), true)
    case 8 => SubmittingFace(20, 0, FaceDocument(20, 0, 1, true))
    case 9 => Publishing(true)
    case 10 => Unpublishing
    case 11 => Reserving(Third())
    case 12 => Verifying(30, Spec(7, 30))
    case 13 => Archiving(1, true)
    case 14 => Step.Closing
    case 15 => Step.Preparing
    case 16 => Finalizing(2)
    case 17 => RefreshingDerivatives
    case _ => RefreshingFaces
  }

  function Steps(n: nat): seq<Step> {
    if n == 0 then [] else Steps(n - 1) + [StepAt(n - 1)]
  }

  function New(): System {
    var event := Event(Draft, Open, 1, 0, 0, false, 1000, 0, 0, 0, 0, None, None, None);
    System(Ledger(event, Tables(map[0 := false, 1 := false], map[], map[], map[], map[]), map[], {}, {}), {})
  }

  /** The state after the first `n` steps. */
  ghost function Reached(n: nat): System {
    if n == 0 then New() else Next(Reached(n - 1), StepAt(n - 1))
  }

  lemma {:induction false} RunOneMore(sys: System, steps: seq<Step>, step: Step)
    ensures Run(sys, steps + [step]) == Next(Run(sys, steps), step)
    decreases |steps|
  {
    hide Next;
    if steps == [] {
      assert [step][1..] == [];
    } else {
      assert (steps + [step])[1..] == steps[1..] + [step];
      RunOneMore(Next(sys, steps[0]), steps[1..], step);
    }
  }

  lemma {:induction false} ReachedByRun(n: nat)
    ensures Reached(n) == Run(New(), Steps(n)) && Initial(New())
  {
    hide Next, StepAt;
    if n > 0 {
      ReachedByRun(n - 1);
      RunOneMore(New(), Steps(n - 1), StepAt(n - 1));
    }
  }

  // ------------------------------------------------------------- what the rows hold

  function K(a: AssetId): ObjectKey { ObjectKey(a, Original) }

  function Stored(bytes: nat, digest: nat, state: ObjectState): StoredObject {
    StoredObject(Spec(bytes, digest), state, None)
  }

  predicate IsPhoto(t: Tables, a: AssetId, b: BatchId) {
    a in t.assets && t.assets[a].batch == b && t.assets[a].sha == a && !t.assets[a].hidden && t.assets[a].captured.None?
  }

  predicate IsBatch(t: Tables, b: BatchId, section: SectionId, state: BatchState) {
    b in t.batches && t.batches[b].section == section && t.batches[b].state == state
  }

  /** The three photos of the first generation and the states of their originals. */
  ghost predicate Holds(t: Tables, second: BatchState, of20: ObjectState, of10: ObjectState, of11: ObjectState) {
    && t.archived == map[0 := false, 1 := false]
    && t.batches.Keys == {1, 2} && IsBatch(t, 1, 0, second)
    && IsBatch(t, 2, 0, if of20 == Reserved then InFlight else Complete)
    && t.assets.Keys == {20, 10, 11} && IsPhoto(t, 20, 2) && IsPhoto(t, 10, 1) && IsPhoto(t, 11, 1)
    && K(20) in t.objects && t.objects[K(20)] == Stored(4, 20, of20)
    && K(10) in t.objects && t.objects[K(10)] == Stored(100, 10, of10)
    && K(11) in t.objects && t.objects[K(11)] == Stored(6, 11, of11)
    && (forall k :: k in t.objects ==> k.asset in {20, 10, 11} && t.objects[k].lease.None?)
  }

  ghost predicate HasDerivative(t: Tables, a: AssetId, v: Variant, bytes: nat, state: ObjectState) {
    var k := ObjectKey(a, v);
    k in t.objects && t.objects[k].spec.bytes == bytes && t.objects[k].state == state
  }

  ghost predicate HasNone(t: Tables, a: AssetId) {
    ObjectKey(a, Preview) !in t.objects && ObjectKey(a, Thumbnail) !in t.objects
  }

  /** An event in its uploading state, with nothing current. */
  ghost predicate Uploads(sys: System, generation: nat) {
    var s, e := sys.ledger, sys.ledger.event;
    && SafeInv(sys) && sys.finalizing == {} && s.foreignBatches == s.foreignAssets == {}
    && e.state == EventState.Uploading && e.intake == Open && e.generation == generation && e.policy
    && e.profile == e.faceModel == 0 && e.byteLimit == 1000
    && (forall g :: g in s.manifests ==> g < generation)
  }

  /** Originals only, and nothing analysed. */
  ghost predicate Bare(t: Tables) {
    t.faces == map[] && forall k :: k in t.objects ==> k.variant == Original
  }

  ghost predicate Loading(sys: System, of20: ObjectState, of10: ObjectState) {
    Uploads(sys, 1) && Holds(sys.ledger.rows, InFlight, of20, of10, Reserved) && Bare(sys.ledger.rows)
  }

  // ------------------------------------------------------------- reservations

  ghost function Weight(c: Contribution): nat {
    Total(c.items.Keys, map a | a in c.items :: c.items[a].spec.bytes)
  }

  lemma OnePhoto(b: BatchId, section: SectionId, a: AssetId, bytes: nat)
    ensures
      var c := Single(b, section, a, bytes);
      Weight(c) == bytes && |c.items| == 1
  {
    var c := Single(b, section, a, bytes);
    SmallTotals(a, map x | x in c.items :: c.items[x].spec.bytes);
    assert |c.items.Keys| == |c.items|;
  }

  lemma TwoPhotos(c: Contribution, a: AssetId, b: AssetId)
    requires a != b && c.items.Keys == {a, b}
    ensures Weight(c) == c.items[a].spec.bytes + c.items[b].spec.bytes && |c.items| == 2
  {
    var sizes := map x | x in c.items :: c.items[x].spec.bytes;
    assert {a, b} - {a} == {b} && |c.items.Keys| == |c.items|;
    TotalTakesOut({a, b}, sizes, a);
    SmallTotals(b, sizes);
  }

  /** The rows that a contribution adds, and those that it leaves. */
  lemma Adds(t: Tables, c: Contribution, g: nat)
    requires Linked(t) && c.batch !in t.batches && forall a :: a in c.items ==> a !in t.assets
    ensures
      var t' := WithContribution(t, c, g);
      && t'.archived == t.archived && t'.faces == t.faces && t'.batches.Keys == t.batches.Keys + {c.batch}
      && IsBatch(t', c.batch, c.section, InFlight) && (forall b :: b in t.batches ==> t'.batches[b] == t.batches[b])
      && t'.assets.Keys == t.assets.Keys + c.items.Keys && (forall a :: a in t.assets ==> t'.assets[a] == t.assets[a])
      && (forall a :: a in c.items ==>
            && t'.assets[a].batch == c.batch && t'.assets[a].sha == c.items[a].sha && !t'.assets[a].hidden
            && t'.assets[a].captured.None?)
      && (forall k :: k in t'.objects <==> (k in t.objects || (k.asset in c.items && k.variant == Original)))
      && (forall k :: k in t.objects ==> t'.objects[k] == t.objects[k])
      && (forall a :: a in c.items ==> t'.objects[K(a)] == StoredObject(c.items[a].spec, Reserved, None))
  {
    NewObjects(t, c, g);
  }

  /** A reservation in an uploading event, or the first one. */
  lemma ReservesSafely(sys: System, c: Contribution)
    requires SafeInv(sys) && c.section in sys.ledger.rows.archived && !sys.ledger.rows.archived[c.section]
    requires c.batch !in sys.ledger.rows.batches && c.batch !in sys.ledger.foreignBatches && c.items != map[]
    requires sys.ledger.event.state in {Draft, EventState.Uploading} && sys.ledger.event.intake == Open
    requires c.profile == sys.ledger.event.profile
    requires sys.ledger.event.reservedBytes + Weight(c) <= sys.ledger.event.byteLimit
    requires sys.ledger.event.reservedCount + |c.items| <= EVENT_ORIGINAL_ASSET_LIMIT
    requires forall a :: a in c.items ==> a !in sys.ledger.rows.assets && a !in sys.ledger.foreignAssets
    ensures
      var s, e, sys' := sys.ledger, sys.ledger.event, Next(sys, Reserving(c));
      && SafeInv(sys') && sys'.finalizing == sys.finalizing
      && sys'.ledger == s.(
           rows := WithContribution(s.rows, c, e.generation),
           event := e.(policy := true, reservedBytes := e.reservedBytes + Weight(c),
                       reservedCount := e.reservedCount + |c.items|, state := EventState.Uploading))
  {
    hide Total, WithContribution, Structured, PublicationInv, Counted;
    CountedIsWithinConstraints(sys.ledger.event, sys.ledger.rows.objects);
    OrdinaryStepKeepsSafety(sys, Reserving(c)) by { hide Reserve; }
  }

  ghost predicate HoldsFirst(t: Tables) {
    && t.archived == map[0 := false, 1 := false] && t.batches.Keys == {2} && IsBatch(t, 2, 0, InFlight)
    && t.assets.Keys == {20} && IsPhoto(t, 20, 2) && t.objects.Keys == {K(20)}
    && t.objects[K(20)] == Stored(4, 20, Reserved) && t.faces == map[]
  }

  ghost predicate Begun(sys: System) {
    && Uploads(sys, 1) && sys.ledger.event.reservedBytes == 4 && sys.ledger.event.reservedCount == 1
    && HoldsFirst(sys.ledger.rows)
  }

  lemma FirstRows(t: Tables)
    requires t == Tables(map[0 := false, 1 := false], map[], map[], map[], map[])
    ensures HoldsFirst(WithContribution(t, First(), 1))
  {
    hide Weight, WithContribution;
    Adds(t, First(), 1);
  }

  lemma Begins()
    ensures Begun(Next(New(), Reserving(First())))
  {
    OnePhoto(2, 0, 20, 4);
    InitialIsSafe(New());
    FirstRows(New().ledger.rows);
    hide Weight, WithContribution, SafeInv, Next, HoldsFirst;
    ReservesSafely(New(), First());
  }

  lemma SecondInFigures()
    ensures
      var c := Second();
      && c.items.Keys == {10, 11} && c.items != map[] && Weight(c) == 106 && |c.items| == 2
      && c.items[10] == Item(Spec(100, 10), 10, 10) && c.items[11] == Item(Spec(6, 11), 11, 11)
      && c.batch == 1 && c.section == 0 && c.profile == 0
  {
    assert Second().items.Keys == {10, 11} && 10 in Second().items;
    TwoPhotos(Second(), 10, 11);
  }

  lemma SecondRows(t: Tables)
    requires Linked(t) && HoldsFirst(t)
    ensures Holds(WithContribution(t, Second(), 1), InFlight, Reserved, Reserved, Reserved)
    ensures Bare(WithContribution(t, Second(), 1))
  {
    SecondInFigures();
    hide Weight, WithContribution, Second, Linked;
    Adds(t, Second(), 1);
  }

  lemma Continues(sys: System)
    requires Begun(sys)
    ensures Loading(Next(sys, Reserving(Second())), Reserved, Reserved)
  {
    SecondInFigures();
    StructuredIsLinked(sys.ledger.rows);
    SecondRows(sys.ledger.rows);
    hide Weight, WithContribution, LedgerInv, PublicationInv, Next, Linked, Holds, Bare, Second;
    ReservesSafely(sys, Second());
  }

  // ------------------------------------------------------------- originals arrive

  /** A completion that matches. */
  lemma VerifiesSafely(sys: System, a: AssetId, head: Spec)
    requires SafeInv(sys) && a in sys.ledger.rows.assets && sys.ledger.rows.assets[a].batch in sys.ledger.rows.batches
    requires K(a) in sys.ledger.rows.objects && sys.ledger.rows.objects[K(a)] == StoredObject(head, Reserved, None)
    ensures
      var t, sys' := sys.ledger.rows, Next(sys, Verifying(a, head));
      && SafeInv(sys') && sys'.finalizing == sys.finalizing
      && sys'.ledger.rows ==
           CompleteIfTerminal(WithObject(t, K(a), StoredObject(head, ObjectState.Verified, None)), t.assets[a].batch)
      && sys'.ledger == sys.ledger.(rows := sys'.ledger.rows, event := sys.ledger.event.(
           verifiedBytes := sys.ledger.event.verifiedBytes + head.bytes,
           verifiedCount := sys.ledger.event.verifiedCount + 1))
  {
    hide LedgerInv, PublicationInv, CompleteIfTerminal, WithinConstraints;
    VerifyIsNeverRefused(sys.ledger, a, head);
    OrdinaryStepKeepsSafety(sys, Verifying(a, head));
  }

  lemma Photo20Arrives(t: Tables)
    requires Holds(t, InFlight, Reserved, Reserved, Reserved) && Bare(t)
    ensures Bare(CompleteIfTerminal(WithObject(t, K(20), Stored(4, 20, ObjectState.Verified)), 2))
    ensures
      Holds(CompleteIfTerminal(WithObject(t, K(20), Stored(4, 20, ObjectState.Verified)), 2),
            InFlight, ObjectState.Verified, Reserved, Reserved)
  {
    var t' := WithObject(t, K(20), Stored(4, 20, ObjectState.Verified));
    assert !exists a :: InBatch(t', a, 2) && IsPending(t', a);
  }

  lemma Photo10Arrives(t: Tables)
    requires Holds(t, InFlight, ObjectState.Verified, Reserved, Reserved) && Bare(t)
    ensures Bare(CompleteIfTerminal(WithObject(t, K(10), Stored(100, 10, ObjectState.Verified)), 1))
    ensures
      Holds(CompleteIfTerminal(WithObject(t, K(10), Stored(100, 10, ObjectState.Verified)), 1),
            InFlight, ObjectState.Verified, ObjectState.Verified, Reserved)
  {
    var t' := WithObject(t, K(10), Stored(100, 10, ObjectState.Verified));
    assert InBatch(t', 11, 1) && IsPending(t', 11);
  }

  lemma Arrives(sys: System)
    requires Loading(sys, Reserved, Reserved)
    ensures Loading(Next(sys, Verifying(20, Spec(4, 20))), ObjectState.Verified, Reserved)
  {
    Photo20Arrives(sys.ledger.rows);
    hide SafeInv, Next, CompleteIfTerminal, WithObject, Bare;
    VerifiesSafely(sys, 20, Spec(4, 20));
  }

  lemma ArrivesToo(sys: System)
    requires Loading(sys, ObjectState.Verified, Reserved)
    ensures Loading(Next(sys, Verifying(10, Spec(100, 10))), ObjectState.Verified, ObjectState.Verified)
  {
    Photo10Arrives(sys.ledger.rows);
    hide SafeInv, Next, CompleteIfTerminal, WithObject, Bare;
    VerifiesSafely(sys, 10, Spec(100, 10));
  }

  // ------------------------------------------------------------- derivatives and faces

  ghost predicate Loaded(sys: System) {
    Uploads(sys, 1) && Holds(sys.ledger.rows, InFlight, ObjectState.Verified, ObjectState.Verified, Reserved)
  }

  ghost predicate Rendered(t: Tables, preview: ObjectState, thumbnail: ObjectState) {
    && HasDerivative(t, 20, Preview, 1, preview) && HasDerivative(t, 20, Thumbnail, 1, thumbnail)
    && HasDerivative(t, 10, Preview, 5, Reserved)
  }

  lemma RegisteredHolds(t: Tables, a: AssetId, preview: Spec, thumbnail: Spec)
    requires Holds(t, InFlight, ObjectState.Verified, ObjectState.Verified, Reserved) && a in {20, 10}
    ensures
      var t' := WithDerivatives(t, a, None, preview, thumbnail);
      Holds(t', InFlight, ObjectState.Verified, ObjectState.Verified, Reserved) && t'.faces == t.faces
  {}

  lemma DerivativeRows(t: Tables, a: AssetId, other: AssetId, preview: Spec, thumbnail: Spec)
    requires a != other && a in t.assets && HasNone(t, a)
    ensures
      var t' := WithDerivatives(t, a, None, preview, thumbnail);
      && HasDerivative(t', a, Preview, preview.bytes, Reserved) && HasDerivative(t', a, Thumbnail, thumbnail.bytes, Reserved)
      && (HasNone(t, other) ==> HasNone(t', other))
      && (forall v, bytes, state :: HasDerivative(t, other, v, bytes, state) ==> HasDerivative(t', other, v, bytes, state))
  {}

  lemma RegistersSafely(sys: System, a: AssetId, preview: Spec, thumbnail: Spec)
    requires Loaded(sys) && a in {20, 10} && HasNone(sys.ledger.rows, a)
    ensures
      var sys' := Next(sys, Registering(a, a, EventState.Uploading, None, preview, thumbnail));
      && SafeInv(sys') && a in sys.ledger.rows.assets
      && sys' == sys.(ledger := sys.ledger.(rows := WithDerivatives(sys.ledger.rows, a, None, preview, thumbnail)))
  {
    hide LedgerInv, PublicationInv, WithDerivatives;
    OrdinaryStepKeepsSafety(sys, Registering(a, a, EventState.Uploading, None, preview, thumbnail));
  }

  lemma RegistersOne(sys: System, a: AssetId, preview: Spec, thumbnail: Spec)
    requires Loaded(sys) && a in {20, 10} && HasNone(sys.ledger.rows, a)
    ensures
      var sys' := Next(sys, Registering(a, a, EventState.Uploading, None, preview, thumbnail));
      && Loaded(sys') && a in sys.ledger.rows.assets && sys'.ledger.rows.faces == sys.ledger.rows.faces
      && sys'.ledger.rows == WithDerivatives(sys.ledger.rows, a, None, preview, thumbnail)
  {
    RegisteredHolds(sys.ledger.rows, a, preview, thumbnail);
    hide SafeInv, Next, WithDerivatives, Holds, HasNone;
    RegistersSafely(sys, a, preview, thumbnail);
  }

  lemma Registers(sys: System)
    requires Loaded(sys) && HasNone(sys.ledger.rows, 20) && HasNone(sys.ledger.rows, 10)
    ensures
      var one := Next(sys, Registering(20, 20, EventState.Uploading, None, Spec(1, 1), Spec(1, 2)));
      var two := Next(one, Registering(10, 10, EventState.Uploading, None, Spec(5, 3), Spec(1, 4)));
      && Loaded(two) && Rendered(two.ledger.rows, Reserved, Reserved) && two.ledger.rows.faces == sys.ledger.rows.faces
  {
    var one := Next(sys, Registering(20, 20, EventState.Uploading, None, Spec(1, 1), Spec(1, 2)));
    hide Loaded, Next, WithDerivatives, HasNone, HasDerivative;
    RegistersOne(sys, 20, Spec(1, 1), Spec(1, 2));
    DerivativeRows(sys.ledger.rows, 20, 10, Spec(1, 1), Spec(1, 2));
    RegistersOne(one, 10, Spec(5, 3), Spec(1, 4));
    DerivativeRows(one.ledger.rows, 10, 20, Spec(5, 3), Spec(1, 4));
  }

  lemma CommitsSafely(sys: System, v: Variant)
    requires Loaded(sys) && v != Original && HasDerivative(sys.ledger.rows, 20, v, 1, Reserved)
    ensures
      var k, sys' := ObjectKey(20, v), Next(sys, CommittingDerivative(ObjectKey(20, v), true));
      && Loaded(sys')
      && sys'.ledger.rows ==
           WithObject(sys.ledger.rows, k, sys.ledger.rows.objects[k].(state := ObjectState.Verified))
  {
    hide LedgerInv, PublicationInv;
    StepKeepsSafetyIff(sys, CommittingDerivative(ObjectKey(20, v), true));
  }

  lemma Commits(sys: System)
    requires Loaded(sys) && Rendered(sys.ledger.rows, Reserved, Reserved)
    ensures
      var one := Next(sys, CommittingDerivative(ObjectKey(20, Preview), true));
      var two := Next(one, CommittingDerivative(ObjectKey(20, Thumbnail), true));
      && Loaded(two) && Rendered(two.ledger.rows, ObjectState.Verified, ObjectState.Verified)
      && two.ledger.rows.faces == sys.ledger.rows.faces
  {
    hide Loaded, Next;
    CommitsSafely(sys, Preview);
    CommitsSafely(Next(sys, CommittingDerivative(ObjectKey(20, Preview), true)), Thumbnail);
  }

  ghost predicate Publishable20(sys: System) {
    && Loaded(sys) && Rendered(sys.ledger.rows, ObjectState.Verified, ObjectState.Verified)
    && HasFaces(sys.ledger.rows, 0, 20)
  }

  lemma Analyses(sys: System)
    requires Loaded(sys) && Rendered(sys.ledger.rows, ObjectState.Verified, ObjectState.Verified)
    requires 20 !in sys.ledger.rows.faces
    ensures Publishable20(Next(sys, SubmittingFace(20, 0, FaceDocument(20, 0, 1, true))))
  {
    hide LedgerInv, PublicationInv;
    OrdinaryStepKeepsSafety(sys, SubmittingFace(20, 0, FaceDocument(20, 0, 1, true)));
  }

  // ------------------------------------------------------------- publication

  /** After publication: photo 20 is shown, contribution 1 was left out. */
  ghost predicate Left(t: Tables) {
    && Holds(t, NotIncluded, ObjectState.Verified, ObjectState.Excluded, ObjectState.Excluded)
    && HasPair(t, 20) && HasFaces(t, 0, 20) && HasDerivative(t, 10, Preview, 5, ObjectState.Excluded)
  }

  lemma LeavesTheRest(t: Tables)
    requires Holds(t, InFlight, ObjectState.Verified, ObjectState.Verified, Reserved)
    requires Rendered(t, ObjectState.Verified, ObjectState.Verified) && HasFaces(t, 0, 20)
    ensures Left(WithoutUnfinished(t))
  {
    assert InFlightBatches(t) == {1};
  }

  lemma OnlyPhoto20(t: Tables)
    requires Holds(t, InFlight, ObjectState.Verified, ObjectState.Verified, Reserved)
    ensures IncludedPhotos(t) == {20} && HasActiveSection(t)
  {
    assert 0 in t.archived && !t.archived[0];
  }

  lemma GateIsOpen(t: Tables)
    requires Holds(t, InFlight, ObjectState.Verified, ObjectState.Verified, Reserved)
    requires Rendered(t, ObjectState.Verified, ObjectState.Verified) && HasFaces(t, 0, 20)
    ensures IncludedPhotos(t) != {} && HasActiveSection(t)
    ensures |VerifiedDerivatives(t, IncludedPhotos(t))| == 2 * |IncludedPhotos(t)|
    ensures |AnalysedPhotos(t, 0, IncludedPhotos(t))| == |IncludedPhotos(t)|
  {
    OnlyPhoto20(t);
    PairGate(t, {20});
    FaceGate(t, 0, {20});
    hide VerifiedDerivatives, AnalysedPhotos, IncludedPhotos, HasActiveSection, HasFaces, Holds;
  }

  ghost predicate Resuming(sys: System) {
    Uploads(sys, 2) && Left(sys.ledger.rows)
  }

  lemma PublicationSucceeds(s: Ledger)
    requires LedgerInv(s) && s.event.state == EventState.Uploading && s.event.policy && s.event.generation !in s.manifests
    requires IncludedPhotos(s.rows) != {} && HasActiveSection(s.rows)
    requires |VerifiedDerivatives(s.rows, IncludedPhotos(s.rows))| == 2 * |IncludedPhotos(s.rows)|
    requires |AnalysedPhotos(s.rows, s.event.faceModel, IncludedPhotos(s.rows))| == |IncludedPhotos(s.rows)|
    ensures Publish(s, true) == Outcome(Snapshotted(s), Done)
  {
    hide LedgerInv, Snapshotted, IncludedPhotos, VerifiedDerivatives, AnalysedPhotos, HasActiveSection, WithinConstraints;
    PublicationIsNeverRefused(s, true);
  }

  lemma SnapshotKeeps(s: Ledger)
    ensures
      var s', e, e' := Snapshotted(s), s.event, Snapshotted(s).event;
      && s'.rows == WithoutUnfinished(s.rows) && s'.manifests.Keys == s.manifests.Keys + {e.generation}
      && s'.foreignBatches == s.foreignBatches && s'.foreignAssets == s.foreignAssets
      && e'.state == Published && e'.generation == e.generation && e'.policy == e.policy
      && e'.profile == e.profile && e'.faceModel == e.faceModel && e'.byteLimit == e.byteLimit
  {
    hide WithoutUnfinished, DroppedObjects, HeldOriginals, StoredOriginals, StoredIn, PublishableBatches, Total;
  }

  lemma ReadyFacts(sys: System)
    requires Publishable20(sys)
    ensures Uploads(sys, 1) && LedgerInv(sys.ledger) && 1 !in sys.ledger.manifests
    ensures IncludedPhotos(sys.ledger.rows) != {} && HasActiveSection(sys.ledger.rows)
    ensures |VerifiedDerivatives(sys.ledger.rows, IncludedPhotos(sys.ledger.rows))| == 2 * |IncludedPhotos(sys.ledger.rows)|
    ensures |AnalysedPhotos(sys.ledger.rows, 0, IncludedPhotos(sys.ledger.rows))| == |IncludedPhotos(sys.ledger.rows)|
    ensures Left(WithoutUnfinished(sys.ledger.rows))
  {
    GateIsOpen(sys.ledger.rows);
    LeavesTheRest(sys.ledger.rows);
    hide LedgerInv, PublicationInv, Holds, HasFaces, Rendered, IncludedPhotos, VerifiedDerivatives, AnalysedPhotos,
         HasActiveSection, Left, WithoutUnfinished;
  }

  ghost predicate Public(sys: System) {
    var s, e := sys.ledger, sys.ledger.event;
    && SafeInv(sys) && sys.finalizing == {} && s.foreignBatches == s.foreignAssets == {}
    && e.state == Published && e.generation == 1 && e.policy
    && e.profile == e.faceModel == 0 && e.byteLimit == 1000 && (forall g :: g in s.manifests ==> g < 2)
    && Left(s.rows)
  }

  lemma SnapshotIsPublic(sys: System)
    requires Uploads(sys, 1) && Left(WithoutUnfinished(sys.ledger.rows))
    requires SafeInv(System(Snapshotted(sys.ledger), {}))
    ensures Public(System(Snapshotted(sys.ledger), {}))
  {
    hide SafeInv, Snapshotted, Left, WithoutUnfinished;
    SnapshotKeeps(sys.ledger);
    forall g | g in Snapshotted(sys.ledger).manifests ensures g < 2 {
      assert g in Snapshotted(sys.ledger).manifests.Keys;
    }
  }

  lemma Publishes(sys: System)
    requires Publishable20(sys)
    ensures Public(Next(sys, Publishing(true)))
  {
    hide LedgerInv, PublicationInv, Publishable20, IncludedPhotos, VerifiedDerivatives, AnalysedPhotos, HasActiveSection,
         Left, Publish, Snapshotted, WithoutUnfinished, Public;
    ReadyFacts(sys);
    PublicationSucceeds(sys.ledger);
    OrdinaryStepKeepsSafety(sys, Publishing(true));
    SnapshotIsPublic(sys);
  }

  lemma Unpublishes(sys: System)
    requires Public(sys)
    ensures Resuming(Next(sys, Unpublishing))
  {
    hide LedgerInv, PublicationInv, Left;
    OrdinaryStepKeepsSafety(sys, Unpublishing);
  }

  // ------------------------------------------------------------- the next generation

  /** With contribution 3, whose photo is not rendered. */
  ghost predicate Waits(t: Tables, third: BatchState, of30: ObjectState, archived: bool) {
    && t.archived == map[0 := false, 1 := archived]
    && t.batches.Keys == {1, 2, 3} && IsBatch(t, 1, 0, NotIncluded) && IsBatch(t, 2, 0, Complete) && IsBatch(t, 3, 1, third)
    && t.assets.Keys == {20, 10, 11, 30} && IsPhoto(t, 20, 2) && IsPhoto(t, 10, 1) && IsPhoto(t, 11, 1) && IsPhoto(t, 30, 3)
    && K(20) in t.objects && t.objects[K(20)] == Stored(4, 20, ObjectState.Verified)
    && K(10) in t.objects && t.objects[K(10)].state == ObjectState.Excluded
    && K(11) in t.objects && t.objects[K(11)].state == ObjectState.Excluded
    && K(30) in t.objects && t.objects[K(30)] == Stored(7, 30, of30) && HasNone(t, 30)
    && HasPair(t, 20) && HasFaces(t, 0, 20) && HasDerivative(t, 10, Preview, 5, ObjectState.Excluded)
    && (forall k :: k in t.objects ==> k.asset in {20, 10, 11, 30} && t.objects[k].lease.None?)
  }

  lemma ThirdRows(t: Tables)
    requires Linked(t) && Left(t)
    ensures Waits(WithContribution(t, Third(), 2), InFlight, Reserved, false)
  {
    hide Weight, WithContribution, Linked;
    Adds(t, Third(), 2);
  }

  lemma HeldOnlyFirst(t: Tables)
    requires Left(t)
    ensures HeldOriginals(t.objects) == StoredOriginals(t.objects) == {K(20)} && Sizes(t.objects).Keys == t.objects.Keys
    ensures Sizes(t.objects)[K(20)] == 4
  {}

  /** The counters can only say what is held. */
  lemma ResumingInFigures(sys: System)
    requires Resuming(sys)
    ensures
      var e := sys.ledger.event;
      e.reservedBytes == e.verifiedBytes == 4 && e.reservedCount == e.verifiedCount == 1
  {
    HeldOnlyFirst(sys.ledger.rows);
    SmallTotals(K(20), Sizes(sys.ledger.rows.objects));
    hide Structured, PublicationInv, Left, Total, HeldOriginals, StoredOriginals, Sizes;
  }

  ghost predicate Resumed(sys: System) {
    var e := sys.ledger.event;
    && Uploads(sys, 2) && Waits(sys.ledger.rows, InFlight, Reserved, false)
    && e.reservedBytes == 11 && e.reservedCount == 2 && e.verifiedBytes == 4 && e.verifiedCount == 1
  }

  lemma Resumes(sys: System)
    requires Resuming(sys)
    ensures Resumed(Next(sys, Reserving(Third())))
  {
    ResumingInFigures(sys);
    OnePhoto(3, 1, 30, 7);
    StructuredIsLinked(sys.ledger.rows);
    ThirdRows(sys.ledger.rows);
    ThirdIsNew(sys.ledger.rows);
    hide Weight, WithContribution, LedgerInv, PublicationInv, Next, Linked, Left, Waits;
    ReservesSafely(sys, Third());
  }

  lemma ThirdIsNew(t: Tables)
    requires Left(t)
    ensures 1 in t.archived && !t.archived[1] && 3 !in t.batches && 30 !in t.assets
  {}

  // ------------------------------------------------------------- the first way on: wrong books

  /** A late mismatch on a derivative, and the cancellation of its contribution. */
  ghost function AfterLateMismatch(sys: System, k: ObjectKey, b: BatchId): Ledger {
    Next(Next(sys, CommittingDerivative(k, false)), Cancelling(b, 0, true)).ledger
  }

  /** What the counters say of the originals that are held, and what those are. */
  ghost predicate Books(s: Ledger, saidBytes: int, saidCount: int, heldBytes: int, heldCount: int) {
    && s.event.reservedBytes == saidBytes && s.event.reservedCount == saidCount
    && Total(HeldOriginals(s.rows.objects), Sizes(s.rows.objects)) == heldBytes
    && |HeldOriginals(s.rows.objects)| == heldCount
  }

  lemma LateFigures(sys: System, k: ObjectKey)
    requires SafeInv(sys) && k.variant != Original && k in sys.ledger.rows.objects
    requires sys.ledger.rows.objects[k].state == ObjectState.Excluded
    requires k.asset in sys.ledger.rows.assets && sys.ledger.rows.assets[k.asset].batch in sys.ledger.rows.batches
    requires sys.ledger.rows.batches[sys.ledger.rows.assets[k.asset].batch].state == NotIncluded
    requires forall j :: j in sys.ledger.rows.objects ==> sys.ledger.rows.objects[j].lease.None?
    requires
      var e, bytes := sys.ledger.event, sys.ledger.rows.objects[k].spec.bytes;
      e.reservedBytes - bytes >= e.verifiedBytes && e.reservedCount - 1 >= e.verifiedCount
    ensures
      var e, bytes := sys.ledger.event, sys.ledger.rows.objects[k].spec.bytes;
      && Books(sys.ledger, e.reservedBytes, e.reservedCount, e.reservedBytes, e.reservedCount)
      && Books(AfterLateMismatch(sys, k, sys.ledger.rows.assets[k.asset].batch),
               e.reservedBytes - bytes, e.reservedCount - 1, e.reservedBytes, e.reservedCount)
  {
    hide Structured, PublicationInv, DerivativeCommit, CancelBatch, HeldOriginals, Total, Sizes;
    LateMismatchReleasesTwice(sys.ledger, k, 0);
  }

  lemma ResumedLeaks(sys: System)
    requires Resumed(sys)
    ensures Books(sys.ledger, 11, 2, 11, 2) && Books(AfterLateMismatch(sys, ObjectKey(10, Preview), 1), 6, 1, 11, 2)
  {
    hide SafeInv, AfterLateMismatch, Books, HasPair, HasFaces;
    LateFigures(sys, ObjectKey(10, Preview));
  }

  // ------------------------------------------------------------- the second way on: an unready photo

  /** Generation 2 without new uploads: contribution 3 arrived, and its section is archived. */
  ghost predicate Settled(sys: System) {
    var s, e := sys.ledger, sys.ledger.event;
    && SafeInv(sys) && e.generation == 2 && e.policy && e.faceModel == 0
    && Waits(s.rows, Complete, ObjectState.Verified, true)
  }

  lemma Photo30Arrives(t: Tables)
    requires Waits(t, InFlight, Reserved, false)
    ensures
      Waits(CompleteIfTerminal(WithObject(t, K(30), Stored(7, 30, ObjectState.Verified)), 3),
            Complete, ObjectState.Verified, false)
  {
    var t' := WithObject(t, K(30), Stored(7, 30, ObjectState.Verified));
    assert !exists a :: InBatch(t', a, 3) && IsPending(t', a);
  }

  lemma LastArrives(sys: System)
    requires Resumed(sys)
    ensures
      var sys' := Next(sys, Verifying(30, Spec(7, 30)));
      Uploads(sys', 2) && Waits(sys'.ledger.rows, Complete, ObjectState.Verified, false)
  {
    Photo30Arrives(sys.ledger.rows);
    hide SafeInv, Next, CompleteIfTerminal, WithObject, HasPair, HasFaces, HasDerivative, HasNone;
    VerifiesSafely(sys, 30, Spec(7, 30));
  }

  lemma IsArchived(sys: System)
    requires Uploads(sys, 2) && Waits(sys.ledger.rows, Complete, ObjectState.Verified, false)
    ensures Settled(Next(sys, Archiving(1, true))) && Uploads(Next(sys, Archiving(1, true)), 2)
  {
    hide LedgerInv, PublicationInv;
    OrdinaryStepKeepsSafety(sys, Archiving(1, true));
  }

  lemma IsClosed(sys: System)
    requires Settled(sys) && Uploads(sys, 2)
    ensures
      var closed := Next(sys, Step.Closing);
      Closes(closed) && closed.finalizing == {} && 2 !in closed.ledger.manifests
  {
    hide LedgerInv, PublicationInv, Waits;
    OrdinaryStepKeepsSafety(sys, Step.Closing);
  }

  ghost predicate Closes(sys: System) {
    Settled(sys) && sys.ledger.event.intake == Closed && sys.ledger.event.state == EventState.Uploading
  }

  lemma IsPrepared(sys: System)
    requires Closes(sys) && sys.finalizing == {} && 2 !in sys.ledger.manifests
    ensures
      var prepared := Next(sys, Step.Preparing);
      Closes(prepared) && prepared.finalizing == {2} && 2 in prepared.ledger.manifests
  {
    hide LedgerInv, PublicationInv, EveryOriginalTerminal, StoredOriginals, Waits, OriginalsManifest;
    AllTerminal(sys.ledger.rows);
    OrdinaryStepKeepsSafety(sys, Step.Preparing);
  }

  lemma AllTerminal(t: Tables)
    requires Waits(t, Complete, ObjectState.Verified, true)
    ensures EveryOriginalTerminal(t) && StoredOriginals(t.objects) != {}
  {
    assert K(20) in StoredOriginals(t.objects);
  }

  lemma IsFinalized(sys: System)
    requires Closes(sys) && sys.finalizing == {2} && 2 in sys.ledger.manifests
    ensures
      var final := Next(sys, Finalizing(2));
      Settled(final) && CurrentManifest(final.ledger) && final.ledger.event.state == Processing
  {
    hide LedgerInv, PublicationInv, Waits;
    OrdinaryStepKeepsSafety(sys, Finalizing(2));
  }

  lemma OnlyPhoto20Visible(t: Tables)
    requires Waits(t, Complete, ObjectState.Verified, true)
    ensures VisiblePhotos(t) == {20}
    ensures |VerifiedDerivatives(t, {20})| == 2 && |AnalysedPhotos(t, 0, {20})| == 1
  {
    PairGate(t, {20});
    FaceGate(t, 0, {20});
    hide VerifiedDerivatives, AnalysedPhotos;
  }

  lemma PositionsLeaveWaiting(t: Tables)
    requires Waits(t, Complete, ObjectState.Verified, true)
    ensures Waits(t.(assets := Positioned(t)), Complete, ObjectState.Verified, true)
  {
    hide IsVisible, Rank;
  }

  ghost predicate InReview(sys: System) {
    && Settled(sys) && CurrentManifest(sys.ledger) && sys.ledger.event.state == Review
    && sys.ledger.event.derivativesReady == Some(2)
  }

  lemma IsRendered(sys: System)
    requires Settled(sys) && CurrentManifest(sys.ledger) && sys.ledger.event.state == Processing
    ensures InReview(Next(sys, RefreshingDerivatives))
  {
    hide LedgerInv, PublicationInv, Waits, VisiblePhotos, VerifiedDerivatives, AnalysedPhotos, Positioned;
    OnlyPhoto20Visible(sys.ledger.rows);
    PositionsLeaveWaiting(sys.ledger.rows);
    OrdinaryStepKeepsSafety(sys, RefreshingDerivatives);
  }

  lemma IsAnalysedToo(sys: System)
    requires InReview(sys)
    ensures
      var ready := Next(sys, RefreshingFaces);
      InReview(ready) && ready.ledger.event.facesReady == Some(2)
  {
    hide LedgerInv, PublicationInv, Waits, VisiblePhotos, VerifiedDerivatives, AnalysedPhotos;
    OnlyPhoto20Visible(sys.ledger.rows);
    OrdinaryStepKeepsSafety(sys, RefreshingFaces);
  }

  lemma Photo30IsUnready(t: Tables)
    requires Waits(t, Complete, ObjectState.Verified, true)
    ensures InBatch(t, 30, 3) && !t.assets[30].hidden && IsVerified(t, 30, Original) && !HasPair(t, 30)
    ensures 3 in t.batches && !InActiveSection(t, 3) && 0 in t.archived && !t.archived[0] && HasActiveSection(t)
  {
    assert 0 in t.archived && !t.archived[0];
  }

  /** Moving contribution 3 into the active section and publishing by hand shows photo 30, which has no pair. */
  lemma ReviewedGoesPublic(sys: System)
    requires InReview(sys) && sys.ledger.event.facesReady == Some(2)
    ensures ShowsUnready(sys.ledger, 3, 0)
    ensures
      var public := Transition(Reassign(sys.ledger, 3, 0).ledger, Published, true);
      public.reply == Done && public.ledger.event.state == Published && !GalleryFits(public.ledger)
  {
    hide SafeInv, GalleryFits, Waits, HasPair, HasFaces, InActiveSection, HasActiveSection, IsVerified;
    Photo30IsUnready(sys.ledger.rows);
    UnreadyGoesPublic(sys, 3, 0);
  }

  // ------------------------------------------------------------- both ways, from the beginning

  lemma OneMore(n: nat)
    ensures Reached(n + 1) == Next(Reached(n), StepAt(n))
  {}

  lemma UpToRegistration()
    ensures
      && Loaded(Reached(6)) && Rendered(Reached(6).ledger.rows, Reserved, Reserved) && 20 !in Reached(6).ledger.rows.faces
  {
    hide Reached, Next, New, First, Second, Begun, Uploads, Holds, Rendered;
    assert Reached(0) == New() by { StartsNew(); }
    OneMore(0);
    Begins();
    OneMore(1);
    Continues(Reached(1));
    OneMore(2);
    Arrives(Reached(2));
    OneMore(3);
    ArrivesToo(Reached(3));
    OneMore(4);
    OneMore(5);
    Registers(Reached(4));
  }

  lemma StartsNew()
    ensures Reached(0) == New()
  {}

  lemma UpToResumption()
    ensures Resumed(Reached(12))
  {
    hide Reached, Next, Third, Loaded, Rendered, Publishable20, Public, Resuming, Resumed;
    UpToRegistration();
    OneMore(6);
    OneMore(7);
    Commits(Reached(6));
    OneMore(8);
    Analyses(Reached(8));
    OneMore(9);
    Publishes(Reached(9));
    OneMore(10);
    Unpublishes(Reached(10));
    OneMore(11);
    Resumes(Reached(11));
  }

  lemma UpToReview()
    ensures InReview(Reached(19)) && Reached(19).ledger.event.facesReady == Some(2)
  {
    hide Reached, Next, Resumed, Uploads, Waits, Settled, Closes, InReview, CurrentManifest;
    UpToResumption();
    OneMore(12);
    LastArrives(Reached(12));
    OneMore(13);
    IsArchived(Reached(13));
    OneMore(14);
    IsClosed(Reached(14));
    OneMore(15);
    IsPrepared(Reached(15));
    OneMore(16);
    IsFinalized(Reached(16));
    OneMore(17);
    IsRendered(Reached(17));
    OneMore(18);
    IsAnalysedToo(Reached(18));
  }

  /** The books end up wrong: a worker inspects a preview before publication and writes a mismatch after step 12,
      and the preview's contribution is cancelled. Eleven bytes in two photos are still held, the counters say six
      bytes in one. */
  lemma LateMismatchExample()
    ensures Reached(12) == Run(New(), Steps(12)) && Initial(New())
    ensures
      var t, k := Reached(6).ledger.rows, ObjectKey(10, Preview);
      k in t.objects && t.objects[k].state != Verified && k.asset in t.assets && InActiveSection(t, t.assets[k.asset].batch)
    ensures Books(Reached(12).ledger, 11, 2, 11, 2)
    ensures Books(AfterLateMismatch(Reached(12), ObjectKey(10, Preview), 1), 6, 1, 11, 2)
  {
    hide Reached, Next, New, Steps, Run, Initial, SafeInv, AfterLateMismatch, Books, Resumed;
    ReachedByRun(12);
    UpToRegistration();
    UpToResumption();
    ResumedLeaks(Reached(12));
  }

  /** An unready photo goes public: after step 19 the event is under review and safe, contribution 3 is moved out
      of the archived section, and the event is published by hand. */
  lemma UnreadyExample()
    ensures Reached(19) == Run(New(), Steps(19)) && Initial(New())
    ensures SafeInv(Reached(19)) && ShowsUnready(Reached(19).ledger, 3, 0)
    ensures
      var public := Transition(Reassign(Reached(19).ledger, 3, 0).ledger, Published, true);
      public.reply == Done && public.ledger.event.state == Published && !GalleryFits(public.ledger)
  {
    hide Reached, Next, New, Steps, Run, Initial, SafeInv, ShowsUnready, Transition, Reassign, GalleryFits, Waits,
         CurrentManifest;
    ReachedByRun(19);
    UpToReview();
    ReviewedGoesPublic(Reached(19));
  }
}
