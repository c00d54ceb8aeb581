/** The positions that a readiness refresh assigns, and the order in which the gallery then lists. */
module GalleryOrder {
  import opened Prelude
  import opened Tallies
  import opened Lifecycle
  import opened Ledger
  import opened Publication
  import Gallery

  lemma SortIsTotal(t: Tables, a: AssetId, b: AssetId)
    requires a in t.assets && b in t.assets
    ensures a == b || (SortsBefore(t, a, b) <==> !SortsBefore(t, b, a))
    ensures !SortsBefore(t, a, a)
    ensures forall x :: x in t.assets && SortsBefore(t, x, a) && SortsBefore(t, a, b) ==> SortsBefore(t, x, b)
  {}

  function Sooner(t: Tables, a: AssetId): set<AssetId>
    requires a in t.assets
  {
    set b | b in VisiblePhotos(t) && SortsBefore(t, b, a)
  }

  /** Ranks tell visible photos apart and agree with the order. */
  lemma RankIsOrder(t: Tables, a: AssetId, b: AssetId)
    requires a in VisiblePhotos(t) && b in VisiblePhotos(t)
    ensures Rank(t, a) < Rank(t, b) <==> SortsBefore(t, a, b)
    ensures Rank(t, a) == Rank(t, b) <==> a == b
    ensures 1 <= Rank(t, a) <= |VisiblePhotos(t)|
  {
    hide IsVisible;
    EarlierRank(t, a, b);
    EarlierRank(t, b, a);
    SortIsTotal(t, a, b);
    assert Sooner(t, a) <= VisiblePhotos(t) - {a};
    SubsetSize(Sooner(t, a), VisiblePhotos(t) - {a});
  }

  lemma EarlierRank(t: Tables, a: AssetId, b: AssetId)
    requires a in VisiblePhotos(t) && b in VisiblePhotos(t)
    ensures SortsBefore(t, a, b) ==> Rank(t, a) < Rank(t, b)
  {
    hide IsVisible, SortsBefore;
    SortIsTotal(t, a, b);
    if SortsBefore(t, a, b) {
      assert Sooner(t, a) + {a} <= Sooner(t, b);
      assert a !in Sooner(t, a);
      SubsetSize(Sooner(t, a) + {a}, Sooner(t, b));
    }
  }

  /** A listing of the visible photos by capture time, filename and id. */
  ghost predicate IsSorted(t: Tables, listing: seq<AssetId>) {
    && (forall i :: 0 <= i < |listing| ==> listing[i] in VisiblePhotos(t))
    && (forall i, j :: 0 <= i < j < |listing| ==> SortsBefore(t, listing[i], listing[j]))
    && (forall a :: a in VisiblePhotos(t) ==> a in listing)
  }

  function GalleryPositions(t: Tables): map<AssetId, Option<nat>> {
    map a | a in GalleryPhotos(t) :: t.assets[a].position
  }

  /** Main result: once derivative readiness was granted, the gallery lists its photos exactly in the order
      of capture time, filename and id. */
  lemma GalleryFollowsCaptureOrder(s: Ledger, listing: seq<AssetId>)
    requires RefreshDerivatives(s).ledger.event.derivativesReady.Some?
    requires s.event.manifest == Some(s.event.generation) && s.event.generation in s.manifests
    requires s.manifests[s.event.generation].state == Committed
    ensures Gallery.IsListing(GalleryPositions(RefreshDerivatives(s).ledger.rows), listing) <==> IsSorted(s.rows, listing)
  {
    var t, t' := s.rows, RefreshDerivatives(s).ledger.rows;
    assert t' == t.(assets := Positioned(t)) && |VerifiedDerivatives(t, VisiblePhotos(t))| == 2 * |VisiblePhotos(t)| by {
      hide VisiblePhotos, VerifiedDerivatives, Positioned;
    }
    hide RefreshDerivatives;
    PairGate(t, VisiblePhotos(t));
    PositionsAreRanks(t);
    hide VisiblePhotos, GalleryPositions, SortsBefore, Rank;
    var p := GalleryPositions(t');
    forall a, b | a in VisiblePhotos(t) && b in VisiblePhotos(t)
      ensures Gallery.Before(p, a, b) <==> SortsBefore(t, a, b)
    {
      RankIsOrder(t, a, b);
    }
  }

  lemma PositionsAreRanks(t: Tables)
    requires forall a :: a in VisiblePhotos(t) ==> HasPair(t, a)
    ensures
      var p := GalleryPositions(t.(assets := Positioned(t)));
      && p.Keys == VisiblePhotos(t)
      && forall a :: a in VisiblePhotos(t) ==> p[a] == Some(Rank(t, a))
  {}
}
