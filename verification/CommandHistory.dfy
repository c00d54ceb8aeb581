/** What the rows remember over runs: who sent a contribution, what was registered for a photo, and how often its
    processing failed. */
module CommandHistory {
  import opened Prelude
  import opened Tallies
  import opened Lifecycle
  import opened Ledger
  import opened LedgerInvariant
  import opened Publication
  import opened LedgerRuns
  import opened CommandFacts
  import opened CommandRefusals
  import opened CommandEffects
  import opened GalleryOrder
  import Gallery

  // ------------------------------------------------------------- contributions

  /** A contribution leaves only what is in flight, and is never taken up again. */
  predicate Proceeds(before: BatchState, now: BatchState) {
    now == before || before == InFlight || now == Withdrawn
  }

  /** The same sender, section, generation and manifest. */
  predicate SameContribution(before: Batch, now: Batch) {
    now == before.(state := now.state) && Proceeds(before.state, now.state)
  }

  predicate LeavesContribution(step: Step, b: BatchId) {
    !step.Purging? && !(step.Reassigning? && step.batch == b)
  }

  lemma StepLeavesContribution(sys: System, step: Step, b: BatchId)
    requires b in sys.ledger.rows.batches && LeavesContribution(step, b) && Enabled(sys, step)
    ensures
      var t' := Execute(sys.ledger, step).ledger.rows;
      b in t'.batches && SameContribution(sys.ledger.rows.batches[b], t'.batches[b])
  {
    hide Execute, EventKept, OnRecord, IsPending, LeasesWritten, ManifestPrepared, ManifestCommitted,
         RegistrationWritten, ReadinessWritten, AnalysisWritten, ConflictWritten, FaceReportWritten, IntakeStepWritten,
         DerivativeStepWritten, EventStepWritten;
    CommandKeeps(sys.ledger, step);
    CommandWrites(sys, step);
  }

  lemma {:induction false} RunLeavesContribution(sys: System, steps: seq<Step>, b: BatchId)
    requires b in sys.ledger.rows.batches
    requires forall i :: 0 <= i < |steps| ==> LeavesContribution(steps[i], b)
    ensures
      var t' := Run(sys, steps).ledger.rows;
      b in t'.batches && SameContribution(sys.ledger.rows.batches[b], t'.batches[b])
    decreases |steps|
  {
    hide Execute, Enabled, StartsFinalizing;
    if steps != [] {
      if Enabled(sys, steps[0]) { StepLeavesContribution(sys, steps[0], b); }
      RunLeavesContribution(Next(sys, steps[0]), steps[1..], b);
    }
  }

  /** For every ledger: a contribution whose id is on record is answered as done exactly when it was recorded with
      the same workstation, section and manifest, and its section is active; either way nothing changes. */
  lemma RepeatedReservation(s: Ledger, c: Contribution)
    requires c.items != map[] && c.batch in s.rows.batches
    ensures Reserve(s, c).ledger == s
    ensures Reserve(s, c).reply == Done <==> RecordedAs(s.rows, c) && IsActive(s.rows, c.section)
    ensures Reserve(s, c).reply == Rejected(SectionNotFound) <==> !IsActive(s.rows, c.section)
    ensures Reserve(s, c).reply == Rejected(IdempotencyConflict) <==> IsActive(s.rows, c.section) && !RecordedAs(s.rows, c)
  {
    hide Total, WithContribution;
  }

  /** Main result: a contribution that was accepted once is accepted again, whatever ran since, while its section is
      active, unless it was moved or purged. */
  lemma AcceptedAgain(sys: System, c: Contribution, steps: seq<Step>)
    requires c.items != map[] && Reserve(sys.ledger, c).reply == Done
    requires forall i :: 0 <= i < |steps| ==> LeavesContribution(steps[i], c.batch)
    ensures
      var later := Run(Next(sys, Reserving(c)), steps).ledger;
      && RecordedAs(later.rows, c)
      && Reserve(later, c) == Outcome(later, if IsActive(later.rows, c.section) then Done else Rejected(SectionNotFound))
  {
    ReservationRecords(sys.ledger, c);
    var first := Next(sys, Reserving(c));
    assert first.ledger == Reserve(sys.ledger, c).ledger by { hide Reserve; }
    hide Reserve, Run, Next;
    RunLeavesContribution(first, steps, c.batch);
    RepeatedReservation(Run(first, steps).ledger, c);
  }

  lemma ReservationRecords(s: Ledger, c: Contribution)
    requires c.items != map[] && Reserve(s, c).reply == Done
    ensures RecordedAs(Reserve(s, c).ledger.rows, c)
  {
    ReservationWrites(s, c);
    if c.batch in s.rows.batches { RepeatedReservation(s, c); }
    hide Reserve;
  }

  /** Nobody else's contribution is ever taken for it. */
  lemma OthersStayRefused(sys: System, c: Contribution, steps: seq<Step>, other: Contribution)
    requires c.items != map[] && other.items != map[] && Reserve(sys.ledger, c).reply == Done
    requires other.batch == c.batch
    requires other.installation != c.installation || other.digest != c.digest
    requires forall i :: 0 <= i < |steps| ==> LeavesContribution(steps[i], c.batch)
    ensures
      var later := Run(Next(sys, Reserving(c)), steps).ledger;
      Reserve(later, other).reply.Rejected? && Reserve(later, other).ledger == later
  {
    hide Reserve, Run, Next;
    AcceptedAgain(sys, c, steps);
    RepeatedReservation(Run(Next(sys, Reserving(c)), steps).ledger, other);
  }

  // ------------------------------------------------------------- capture times

  /** The capture time that is known of a photo after a step. */
  ghost function Noted(s: Ledger, step: Step, a: AssetId, known: Option<int>): Option<int> {
    if step.Purging? then None
    else if step.Registering? && step.asset == a && step.captured.Some? && Execute(s, step).reply == Done then step.captured
    else known
  }

  /** The time that was last registered for a photo in a run, and not purged since. */
  ghost function RegisteredTime(sys: System, steps: seq<Step>, a: AssetId, known: Option<int>): Option<int>
    decreases |steps|
  {
    if steps == [] then known
    else RegisteredTime(Next(sys, steps[0]), steps[1..], a, Noted(sys.ledger, steps[0], a, known))
  }

  ghost function KnownTime(t: Tables, a: AssetId): Option<int> {
    if a in t.assets then t.assets[a].captured else None
  }

  /** Until a purge, a photo stays what was sent. */
  predicate SamePhoto(before: Asset, now: Asset) {
    now.batch == before.batch && now.sha == before.sha && now.name == before.name
  }

  lemma NewPhotosAreNew(s: Ledger, c: Contribution)
    requires c.items != map[] && Reserve(s, c).reply == Done && c.batch !in s.rows.batches
    ensures forall a :: a in c.items ==> a !in s.rows.assets
  {}

  /** The step sets the time that it should, and keeps the photo otherwise. */
  ghost predicate NotesTime(s: Ledger, step: Step, a: AssetId)
    requires step.Reserving? ==> step.contribution.items != map[]
    requires step.CommittingDerivative? ==> step.key.variant != Original
  {
    var t, t' := s.rows, Execute(s, step).ledger.rows;
    && KnownTime(t', a) == Noted(s, step, a, KnownTime(t, a))
    && (a in t.assets ==> a in t'.assets && (!step.Purging? ==> SamePhoto(t.assets[a], t'.assets[a])))
  }

  lemma ReservationNotesTime(s: Ledger, step: Step, a: AssetId)
    requires step.Reserving? && step.contribution.items != map[]
    ensures NotesTime(s, step, a)
  {
    var c := step.contribution;
    RefusalWrites(s, step);
    if Reserve(s, c).reply == Done {
      ReservationWrites(s, c);
      if c.batch !in s.rows.batches { NewPhotosAreNew(s, c); }
    }
    hide Reserve;
  }

  lemma RegistrationNotesTime(s: Ledger, step: Step, a: AssetId)
    requires step.Registering?
    ensures NotesTime(s, step, a)
  {
    if Execute(s, step).reply == Done {
      RegistrationWrites(s, step.asset, step.source, step.observed, step.captured, step.preview, step.thumbnail);
    }
    RefusalWrites(s, step);
    hide RegisterDerivatives;
  }

  lemma RefreshNotesTime(s: Ledger, step: Step, a: AssetId)
    requires step.RefreshingDerivatives?
    ensures NotesTime(s, step, a)
  {
    hide RefreshDerivatives, VisiblePhotos, HasPair, Rank;
    RefreshWrites(s);
  }

  lemma ReviewNotesTime(s: Ledger, step: Step, a: AssetId)
    requires step.ReportingDerivative? || step.Hiding? || step.Restoring? || step.Purging?
    ensures NotesTime(s, step, a)
  {
    hide InActiveSection, RetriesExhausted, ForDerivativeReadiness;
  }

  lemma StepNotesTime(s: Ledger, step: Step, a: AssetId)
    requires step.Reserving? ==> step.contribution.items != map[]
    requires step.CommittingDerivative? ==> step.key.variant != Original
    ensures NotesTime(s, step, a)
  {
    hide Execute;
    if step.Reserving? {
      ReservationNotesTime(s, step, a);
    } else if step.Registering? {
      RegistrationNotesTime(s, step, a);
    } else if step.RefreshingDerivatives? {
      RefreshNotesTime(s, step, a);
    } else if step.ReportingDerivative? || step.Hiding? || step.Restoring? || step.Purging? {
      ReviewNotesTime(s, step, a);
    } else {
      CommandKeeps(s, step);
    }
  }

  lemma {:induction false} RunNotesTimes(sys: System, steps: seq<Step>, a: AssetId)
    ensures KnownTime(Run(sys, steps).ledger.rows, a) == RegisteredTime(sys, steps, a, KnownTime(sys.ledger.rows, a))
    decreases |steps|
  {
    hide Execute, KnownTime;
    if steps != [] {
      if Enabled(sys, steps[0]) { StepNotesTime(sys.ledger, steps[0], a); }
      RunNotesTimes(Next(sys, steps[0]), steps[1..], a);
    }
  }

  lemma {:induction false} PhotosStay(sys: System, steps: seq<Step>, a: AssetId)
    requires a in sys.ledger.rows.assets && Step.Purging !in steps
    ensures
      var t' := Run(sys, steps).ledger.rows;
      && a in t'.assets && SamePhoto(sys.ledger.rows.assets[a], t'.assets[a])
      && (sys.ledger.rows.assets[a].captured.Some? ==> t'.assets[a].captured == sys.ledger.rows.assets[a].captured)
    decreases |steps|
  {
    hide Execute, StartsFinalizing;
    if steps != [] {
      if Enabled(sys, steps[0]) {
        StepNotesTime(sys.ledger, steps[0], a);
        if sys.ledger.rows.assets[a].captured.Some? { TimesAreKept(sys.ledger, steps[0], a); }
      }
      PhotosStay(Next(sys, steps[0]), steps[1..], a);
    }
  }

  /** A registration never contradicts a known time. */
  lemma TimesAreKept(s: Ledger, step: Step, a: AssetId)
    requires a in s.rows.assets && s.rows.assets[a].captured.Some? && !step.Purging?
    ensures Noted(s, step, a, s.rows.assets[a].captured) == s.rows.assets[a].captured
  {
    hide InActiveSection, IsVerified, WithDerivatives;
  }

  /** Main result: in every state of every run of a new event, the capture time of a photo is the one last registered
      for it and not purged. */
  lemma TimesAreRegistered(sys: System, steps: seq<Step>, a: AssetId)
    requires Initial(sys) && a in Run(sys, steps).ledger.rows.assets
    ensures Run(sys, steps).ledger.rows.assets[a].captured == RegisteredTime(sys, steps, a, None)
  {
    hide Run, Next;
    RunNotesTimes(sys, steps, a);
  }

  lemma RegistrationNotes(s: Ledger, step: Step)
    requires step.Registering? && step.captured.Some? && Execute(s, step).reply == Done
    ensures
      var t' := Execute(s, step).ledger.rows;
      step.asset in t'.assets && t'.assets[step.asset].captured == step.captured
  {
    RegistrationWrites(s, step.asset, step.source, step.observed, step.captured, step.preview, step.thumbnail);
    hide RegisterDerivatives;
  }

  lemma OtherTimeIsRefused(s: Ledger, step: Step)
    requires step.Registering? && step.captured.Some? && step.asset in s.rows.assets
    requires s.rows.assets[step.asset].captured.Some? && s.rows.assets[step.asset].captured != step.captured
    ensures Execute(s, step).reply.Rejected?
  {
    RegistrationRefusedIff(s, step.asset, step.source, step.observed, step.captured, step.preview, step.thumbnail);
    assert RefusesRegistration(s, step.asset, step.source, step.observed, step.captured, step.preview, step.thumbnail,
                               DerivativeConflict);
    hide RegisterDerivatives;
  }

  /** A registration records the time that it was given, and from then on every other one is refused. */
  lemma RegistrationSetsTime(s: Ledger, a: AssetId, source: nat, observed: EventState, captured: Option<int>,
                             preview: Spec, thumbnail: Spec)
    requires RegisterDerivatives(s, a, source, observed, captured, preview, thumbnail).reply == Done
    ensures
      var s' := RegisterDerivatives(s, a, source, observed, captured, preview, thumbnail).ledger;
      && a in s.rows.assets && a in s'.rows.assets && SameElsewhere(s.rows.assets, s'.rows.assets, {a})
      && s'.rows.assets[a].captured == (if captured.Some? then captured else s.rows.assets[a].captured)
      && forall source, observed, other: Option<int>, p, q ::
           (other.Some? && s'.rows.assets[a].captured.Some? && other != s'.rows.assets[a].captured) ==>
           RegisterDerivatives(s', a, source, observed, other, p, q).reply.Rejected?
  {
    RegistrationWrites(s, a, source, observed, captured, preview, thumbnail);
    var s' := RegisterDerivatives(s, a, source, observed, captured, preview, thumbnail).ledger;
    hide RegisterDerivatives;
    forall source, observed, other: Option<int>, p, q |
      other.Some? && s'.rows.assets[a].captured.Some? && other != s'.rows.assets[a].captured
      ensures RegisterDerivatives(s', a, source, observed, other, p, q).reply.Rejected?
    {
      OtherTimeIsRefused(s', Registering(a, source, observed, other, p, q));
    }
  }

  /** Once a time was registered, no other one is accepted until a purge. */
  lemma TimeIsFinal(sys: System, step: Step, steps: seq<Step>, again: Step)
    requires step.Registering? && step.captured.Some? && Execute(sys.ledger, step).reply == Done
    requires Step.Purging !in steps
    requires again.Registering? && again.asset == step.asset && again.captured.Some? && again.captured != step.captured
    ensures Execute(Run(Next(sys, step), steps).ledger, again).reply.Rejected?
  {
    hide Execute, Run;
    RegistrationNotes(sys.ledger, step);
    PhotosStay(Next(sys, step), steps, step.asset);
    OtherTimeIsRefused(Run(Next(sys, step), steps).ledger, again);
  }

  // ------------------------------------------------------------- the gallery follows them

  /** By the time registered in the run (missing last), filename and id. */
  ghost predicate TakenBefore(sys: System, steps: seq<Step>, a: AssetId, b: AssetId)
    requires a in Run(sys, steps).ledger.rows.assets && b in Run(sys, steps).ledger.rows.assets
  {
    var x, y := RegisteredTime(sys, steps, a, None), RegisteredTime(sys, steps, b, None);
    var assets := Run(sys, steps).ledger.rows.assets;
    if x != y then x.Some? && (y.None? || x.value < y.value)
    else assets[a].name < assets[b].name || (assets[a].name == assets[b].name && a < b)
  }

  /** A listing of the visible photos in the order in which they were taken. */
  ghost predicate InOrderTaken(sys: System, steps: seq<Step>, listing: seq<AssetId>) {
    var t := Run(sys, steps).ledger.rows;
    && (forall i :: 0 <= i < |listing| ==> listing[i] in VisiblePhotos(t) && listing[i] in t.assets)
    && (forall i, j :: 0 <= i < j < |listing| ==> TakenBefore(sys, steps, listing[i], listing[j]))
    && (forall a :: a in VisiblePhotos(t) ==> a in listing)
  }

  /** Main result: whenever a run of a new event has led to derivative readiness, the gallery lists its photos by the
      capture times that were registered in that run. */
  lemma GalleryFollowsRegisteredTimes(sys: System, steps: seq<Step>, listing: seq<AssetId>)
    requires Initial(sys) && CurrentManifest(Run(sys, steps).ledger)
    requires RefreshDerivatives(Run(sys, steps).ledger).ledger.event.derivativesReady.Some?
    ensures
      var rows := RefreshDerivatives(Run(sys, steps).ledger).ledger.rows;
      Gallery.IsListing(GalleryPositions(rows), listing) <==> InOrderTaken(sys, steps, listing)
  {
    hide Initial, RefreshDerivatives, Run, GalleryPositions;
    var s := Run(sys, steps).ledger;
    GalleryFollowsCaptureOrder(s, listing);
    forall a | a in s.rows.assets ensures s.rows.assets[a].captured == RegisteredTime(sys, steps, a, None) {
      TimesAreRegistered(sys, steps, a);
    }
    VisibleAreAssets(s.rows);
    hide VisiblePhotos, RegisteredTime;
    assert IsSorted(s.rows, listing) <==> InOrderTaken(sys, steps, listing);
  }

  lemma VisibleAreAssets(t: Tables)
    ensures VisiblePhotos(t) <= t.assets.Keys
  {}

  // ------------------------------------------------------------- failures

  function Reports(a: AssetId, n: nat): seq<Step> {
    seq(n, _ => ReportingDerivative(a))
  }

  /** Each reported failure counts. */
  lemma {:induction false} ReportsCount(sys: System, a: AssetId, n: nat)
    requires a in sys.ledger.rows.assets && InActiveSection(sys.ledger.rows, sys.ledger.rows.assets[a].batch)
    ensures
      var t, t' := sys.ledger.rows, Run(sys, Reports(a, n)).ledger.rows;
      && Run(sys, Reports(a, n)).ledger == sys.ledger.(rows := t.(assets := t'.assets))
      && a in t'.assets && t'.assets[a].hidden == t.assets[a].hidden
      && t'.assets[a].derivativeAttempts == t.assets[a].derivativeAttempts + n
      && (t'.assets[a].derivativeFailed <==> n > 0 || t.assets[a].derivativeFailed)
    decreases n
  {
    if n > 0 {
      assert Reports(a, n)[1..] == Reports(a, n - 1);
      var sys' := Next(sys, ReportingDerivative(a));
      assert sys'.ledger == ReportDerivativeFailure(sys.ledger, a).ledger;
      ReportsCount(sys', a, n - 1);
    }
  }

  /** A photo whose derivatives keep failing can be hidden by hand exactly after the fifth report, unless its
      analysis failed as often. */
  lemma HiddenAfterFive(sys: System, a: AssetId, n: nat)
    requires a in sys.ledger.rows.assets && InActiveSection(sys.ledger.rows, sys.ledger.rows.assets[a].batch)
    requires sys.ledger.event.state in {Uploading, Processing, Review} && !sys.ledger.rows.assets[a].hidden && n > 0
    requires a in sys.ledger.rows.faces ==>
      sys.ledger.rows.faces[a].state !in {FaceFailed, Conflict} || sys.ledger.rows.faces[a].attempts < 5
    ensures HidePhoto(Run(sys, Reports(a, n)).ledger, a).reply == Done
       <==> sys.ledger.rows.assets[a].derivativeAttempts + n >= 5
  {
    ReportsCount(sys, a, n);
    hide Run;
  }
}
