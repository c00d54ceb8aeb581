/** Manifests, readiness and the published gallery: what the flags on the event row promise. */
module Publication {
  import opened Prelude
  import opened Tallies
  import opened Lifecycle
  import opened Ledger
  import opened LedgerInvariant

  /** The ledger and the generations for which some worker is between the two halves of finalizing. */
  datatype System = System(ledger: Ledger, finalizing: set<nat>)

  // ------------------------------------------------------------- counting gates

  function KeysOf(photos: set<AssetId>, v: Variant): set<ObjectKey> {
    set a | a in photos :: ObjectKey(a, v)
  }

  function PairKeys(photos: set<AssetId>): set<ObjectKey> {
    KeysOf(photos, Preview) + KeysOf(photos, Thumbnail)
  }

  lemma {:induction false} KeysOfSize(photos: set<AssetId>, v: Variant)
    ensures |KeysOf(photos, v)| == |photos|
    decreases photos
  {
    if photos == {} {
      assert KeysOf(photos, v) == {};
    } else {
      var a :| a in photos;
      KeysOfSize(photos - {a}, v);
      assert KeysOf(photos, v) == KeysOf(photos - {a}, v) + {ObjectKey(a, v)};
    }
  }

  lemma PairKeysSize(photos: set<AssetId>)
    ensures |PairKeys(photos)| == 2 * |photos|
  {
    KeysOfSize(photos, Preview);
    KeysOfSize(photos, Thumbnail);
    assert KeysOf(photos, Preview) !! KeysOf(photos, Thumbnail);
  }

  /** One row per asset and variant: twice as many verified rows as photos means that every photo has both. */
  lemma PairGate(t: Tables, photos: set<AssetId>)
    ensures |VerifiedDerivatives(t, photos)| == 2 * |photos| <==> forall a :: a in photos ==> HasPair(t, a)
  {
    var verified, all := VerifiedDerivatives(t, photos), PairKeys(photos);
    PairKeysSize(photos);
    SubsetSize(verified, all);
    if verified == all {
      forall a | a in photos ensures HasPair(t, a) {
        assert ObjectKey(a, Preview) in all && ObjectKey(a, Thumbnail) in all;
      }
    }
    if forall a :: a in photos ==> HasPair(t, a) {
      forall k | k in all ensures k in verified {
        assert HasPair(t, k.asset);
      }
      assert verified == all;
    }
  }

  lemma FaceGate(t: Tables, model: nat, photos: set<AssetId>)
    ensures |AnalysedPhotos(t, model, photos)| == |photos| <==> forall a :: a in photos ==> HasFaces(t, model, a)
  {
    SubsetSize(AnalysedPhotos(t, model, photos), photos);
    if forall a :: a in photos ==> HasFaces(t, model, a) {
      assert AnalysedPhotos(t, model, photos) == photos;
    }
  }

  // ------------------------------------------------------------- the invariant

  predicate TotalsMatch(m: Manifest, e: Event) {
    m.assetCount == e.verifiedCount && m.originalBytes == e.verifiedBytes
  }

  /** A manifest of the current generation freezes the originals; the current manifest is a committed one. */
  ghost predicate ManifestsFit(s: Ledger) {
    var e, g := s.event, s.event.generation;
    && (forall h :: h in s.manifests ==> h <= g)
    && (g in s.manifests ==> e.intake == Closed && EveryOriginalTerminal(s.rows))
    && (e.manifest.Some? ==>
          && e.manifest.value == g && g in s.manifests && s.manifests[g].state == Committed
          && e.state !in {Draft, Uploading})
    && (g in s.manifests && s.manifests[g].state == Committed ==> e.manifest == Some(g))
    && (g in s.manifests && s.manifests[g].state == Prepared ==> TotalsMatch(s.manifests[g], e))
  }

  /** What a worker that is finalizing the current generation may still rely on. */
  ghost predicate FinalizersFit(sys: System) {
    var s, g := sys.ledger, sys.ledger.event.generation;
    && (forall h :: h in sys.finalizing ==> h <= g)
    && (g in sys.finalizing ==>
          && s.event.intake == Closed && EveryOriginalTerminal(s.rows)
          && (if g in s.manifests then TotalsMatch(s.manifests[g], s.event) else s.rows.objects == map[]))
  }

  ghost predicate PairsComplete(t: Tables) {
    forall a :: a in t.assets && IsVisible(t, a) ==> HasPair(t, a)
  }

  ghost predicate FacesComplete(t: Tables, model: nat) {
    forall a :: a in t.assets && IsVisible(t, a) ==> HasFaces(t, model, a)
  }

  /** A readiness flag that is set names the current generation and tells the truth. */
  ghost predicate ReadinessFits(s: Ledger) {
    var e, g := s.event, s.event.generation;
    && (e.derivativesReady.Some? ==> e.derivativesReady.value == g && g in s.manifests && PairsComplete(s.rows))
    && (e.facesReady.Some? ==> e.facesReady.value == g && g in s.manifests && FacesComplete(s.rows, e.faceModel))
  }

  predicate IsPublic(e: Event) {
    e.state in {Published, Archived}
  }

  /** A published or archived gallery is whole: each visible photo has everything. */
  ghost predicate GalleryFits(s: Ledger) {
    IsPublic(s.event) ==>
      EveryOriginalTerminal(s.rows) && PairsComplete(s.rows) && FacesComplete(s.rows, s.event.faceModel)
  }

  ghost predicate PublicationInv(sys: System) {
    ManifestsFit(sys.ledger) && FinalizersFit(sys) && ReadinessFits(sys.ledger) && GalleryFits(sys.ledger)
  }

  // ------------------------------------------------------------- two ways to keep it

  /** No manifest is current, nobody is finalizing this generation, and nothing is promised. */
  ghost predicate NothingCurrent(sys: System) {
    var e := sys.ledger.event;
    && (forall h :: h in sys.ledger.manifests || h in sys.finalizing ==> h < e.generation)
    && e.manifest.None? && e.derivativesReady.None? && e.facesReady.None?
    && !IsPublic(e)
  }

  lemma NothingCurrentSuffices(sys: System)
    requires NothingCurrent(sys)
    ensures PublicationInv(sys)
  {}

  /** While an original is pending, nothing is current. */
  lemma PendingMeansNothingCurrent(sys: System)
    requires PublicationInv(sys) && !EveryOriginalTerminal(sys.ledger.rows)
    ensures NothingCurrent(sys)
  {}

  /** No photo becomes visible, and none loses its pair. */
  ghost predicate GalleryHolds(t: Tables, t': Tables) {
    forall a :: a in t'.assets && IsVisible(t', a) ==>
      a in t.assets && IsVisible(t, a) && (HasPair(t, a) ==> HasPair(t', a))
  }

  ghost predicate FacesHold(t: Tables, t': Tables, model: nat) {
    forall a :: a in t'.assets && IsVisible(t', a) && HasFaces(t, model, a) ==> HasFaces(t', model, a)
  }

  /** The steps that leave manifests and verified counters alone. */
  ghost predicate Undisturbed(sys: System, sys': System) {
    var s, s' := sys.ledger, sys'.ledger;
    var e, e' := s.event, s'.event;
    && sys'.finalizing == sys.finalizing && s'.manifests == s.manifests
    && e'.generation == e.generation && e'.intake == e.intake && e'.manifest == e.manifest
    && e'.verifiedBytes == e.verifiedBytes && e'.verifiedCount == e.verifiedCount && e'.faceModel == e.faceModel
    && (EveryOriginalTerminal(s.rows) ==> EveryOriginalTerminal(s'.rows))
    && (s.rows.objects == map[] ==> s'.rows.objects == map[])
    && (e'.manifest.Some? ==> e'.state !in {Draft, Uploading})
    && (e'.derivativesReady.Some? ==> e'.derivativesReady == e.derivativesReady && GalleryHolds(s.rows, s'.rows))
    && (e'.facesReady.Some? ==>
          e'.facesReady == e.facesReady && GalleryHolds(s.rows, s'.rows) && FacesHold(s.rows, s'.rows, e.faceModel))
    && (IsPublic(e') ==> IsPublic(e) && GalleryHolds(s.rows, s'.rows) && FacesHold(s.rows, s'.rows, e.faceModel))
  }

  lemma UndisturbedKeepsPublication(sys: System, sys': System)
    requires PublicationInv(sys) && Undisturbed(sys, sys')
    ensures PublicationInv(sys')
  {}
}
