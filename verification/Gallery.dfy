/** The gallery's order and its previous and next links. */
module Gallery {
  import opened Prelude

  type PhotoId = nat

  /** The photos of a gallery with their positions; positions may be missing and may repeat. */
  type Positions = map<PhotoId, Option<nat>>

  /** The listing order: by position, missing positions last, then by id. */
  predicate Before(p: Positions, a: PhotoId, b: PhotoId)
    requires a in p && b in p
  {
    if p[a] == p[b] then a < b
    else p[a].Some? && (p[b].None? || p[a].value < p[b].value)
  }

  /** A listing of the whole gallery. */
  predicate IsListing(p: Positions, listing: seq<PhotoId>) {
    && (forall i :: 0 <= i < |listing| ==> listing[i] in p)
    && (forall i, j :: 0 <= i < j < |listing| ==> Before(p, listing[i], listing[j]))
    && (forall a :: a in p ==> a in listing)
  }

  // ------------------------------------------------------------- queries that stop at the first row

  ghost predicate Leads(p: Positions, rows: set<PhotoId>, n: PhotoId)
    requires rows <= p.Keys
  {
    n in rows && forall x :: x in rows ==> x == n || Before(p, n, x)
  }

  ghost predicate Trails(p: Positions, rows: set<PhotoId>, n: PhotoId)
    requires rows <= p.Keys
  {
    n in rows && forall x :: x in rows ==> x == n || Before(p, x, n)
  }

  lemma OneMoreRow(p: Positions, rows: set<PhotoId>, a: PhotoId, n: PhotoId)
    requires rows <= p.Keys && a in rows && n in rows - {a}
    ensures Leads(p, rows - {a}, n) ==> Leads(p, rows, if Before(p, a, n) then a else n)
    ensures Trails(p, rows - {a}, n) ==> Trails(p, rows, if Before(p, n, a) then a else n)
  {
    forall x | x in rows && x != a && x != n
      ensures Leads(p, rows - {a}, n) ==> Before(p, n, x)
      ensures Trails(p, rows - {a}, n) ==> Before(p, x, n)
    {
      assert x in rows - {a};
    }
  }

  /** The first row of an ordered query. Where all positions are missing this is the order by id. */
  ghost function First(p: Positions, rows: set<PhotoId>): (r: Option<PhotoId>)
    requires rows <= p.Keys
    ensures r.None? <==> rows == {}
    ensures r.Some? ==> Leads(p, rows, r.value)
  {
    if rows == {} then None
    else
      var a :| a in rows;
      var rest := First(p, rows - {a});
      if rest.None? then
        assert rows == {a};
        Some(a)
      else
        OneMoreRow(p, rows, a, rest.value);
        if Before(p, a, rest.value) then Some(a) else rest
  }

  /** The first row of the same query in descending order. */
  ghost function Last(p: Positions, rows: set<PhotoId>): (r: Option<PhotoId>)
    requires rows <= p.Keys
    ensures r.None? <==> rows == {}
    ensures r.Some? ==> Trails(p, rows, r.value)
  {
    if rows == {} then None
    else
      var a :| a in rows;
      var rest := Last(p, rows - {a});
      if rest.None? then
        assert rows == {a};
        Some(a)
      else
        OneMoreRow(p, rows, a, rest.value);
        if Before(p, rest.value, a) then Some(a) else rest
  }

  function Unplaced(p: Positions): set<PhotoId> {
    set b | b in p && p[b].None?
  }

  function Placed(p: Positions): set<PhotoId> {
    set b | b in p && p[b].Some?
  }

  ghost function Previous(p: Positions, a: PhotoId): Option<PhotoId>
    requires a in p
  {
    if p[a].None? then
      var sooner := Last(p, set b | b in Unplaced(p) && b < a);
      if sooner.Some? then sooner else Last(p, Placed(p))
    else
      Last(p, set b | b in Placed(p) && (p[b].value < p[a].value || (p[b].value == p[a].value && b < a)))
  }

  ghost function Next(p: Positions, a: PhotoId): Option<PhotoId>
    requires a in p
  {
    if p[a].None? then
      First(p, set b | b in Unplaced(p) && b > a)
    else
      var later := First(p, set b | b in Placed(p) && (p[b].value > p[a].value || (p[b].value == p[a].value && b > a)));
      if later.Some? then later else First(p, Unplaced(p))
  }

  // ------------------------------------------------------------- the links are the neighbours

  lemma Earliest(p: Positions, rows: set<PhotoId>, n: Option<PhotoId>)
    requires rows <= p.Keys
    requires n.None? ==> rows == {}
    requires n.Some? ==> Leads(p, rows, n.value)
    ensures First(p, rows) == n
  {}

  lemma Latest(p: Positions, rows: set<PhotoId>, n: Option<PhotoId>)
    requires rows <= p.Keys
    requires n.None? ==> rows == {}
    requires n.Some? ==> Trails(p, rows, n.value)
    ensures Last(p, rows) == n
  {}

  /** The next link leads to the earliest of all photos listed after this one. */
  lemma NextIsEarliestAfter(p: Positions, a: PhotoId)
    requires a in p
    ensures Next(p, a) == First(p, set b | b in p && Before(p, a, b))
  {
    var after := set b | b in p && Before(p, a, b);
    if p[a].None? {
      assert after == set b | b in Unplaced(p) && b > a;
    } else {
      var later := set b | b in Placed(p) && (p[b].value > p[a].value || (p[b].value == p[a].value && b > a));
      assert after == later + Unplaced(p);
      Earliest(p, after, Next(p, a));
    }
  }

  lemma PreviousIsLatestBefore(p: Positions, a: PhotoId)
    requires a in p
    ensures Previous(p, a) == Last(p, set b | b in p && Before(p, b, a))
  {
    var before := set b | b in p && Before(p, b, a);
    if p[a].None? {
      var sooner := set b | b in Unplaced(p) && b < a;
      assert before == sooner + Placed(p);
      Latest(p, before, Previous(p, a));
    } else {
      assert before == set b | b in Placed(p) && (p[b].value < p[a].value || (p[b].value == p[a].value && b < a));
    }
  }

  /** In a listing, the index tells the order. */
  lemma IndexIsOrder(p: Positions, l: seq<PhotoId>)
    requires IsListing(p, l)
    ensures forall i, j :: 0 <= i < |l| && 0 <= j < |l| ==> (Before(p, l[i], l[j]) <==> i < j) && (l[i] == l[j] <==> i == j)
  {}

  /** Main result: in a listing of the gallery, the links of every photo are its neighbours. */
  lemma LinksAreNeighbours(p: Positions, l: seq<PhotoId>, i: nat)
    requires IsListing(p, l) && i < |l|
    ensures Next(p, l[i]) == if i + 1 < |l| then Some(l[i + 1]) else None
    ensures Previous(p, l[i]) == if 0 < i then Some(l[i - 1]) else None
  {
    NextIsEarliestAfter(p, l[i]);
    PreviousIsLatestBefore(p, l[i]);
    IndexIsOrder(p, l);
    var after, before := set b | b in p && Before(p, l[i], b), set b | b in p && Before(p, b, l[i]);
    forall x | x in p
      ensures x in after ==> i + 1 < |l| && (x == l[i + 1] || Before(p, l[i + 1], x))
      ensures x in before ==> 0 < i && (x == l[i - 1] || Before(p, x, l[i - 1]))
    {
      var j :| 0 <= j < |l| && l[j] == x;
    }
    Earliest(p, after, if i + 1 < |l| then Some(l[i + 1]) else None);
    Latest(p, before, if 0 < i then Some(l[i - 1]) else None);
  }

  /** Every gallery has a listing, and only one. */
  lemma {:induction false} ListingExists(p: Positions) returns (listing: seq<PhotoId>)
    ensures IsListing(p, listing)
    decreases p.Keys
  {
    if p == map[] {
      listing := [];
    } else {
      var a := Last(p, p.Keys).value;
      var rest := p - {a};
      assert rest.Keys == p.Keys - {a};
      var shorter := ListingExists(rest);
      listing := shorter + [a];
      forall b | b in p ensures b in listing {
        if b != a { assert b in rest; }
      }
    }
  }

  lemma EmptyListing(p: Positions, l: seq<PhotoId>)
    requires IsListing(p, l)
    ensures l == [] <==> p == map[]
  {
    if l != [] { assert l[0] in p; }
    if p != map[] {
      var a :| a in p;
      assert a in l;
    }
  }

  lemma ListingStartsWithFirst(p: Positions, l: seq<PhotoId>)
    requires IsListing(p, l) && p != map[]
    ensures l != [] && First(p, p.Keys) == Some(l[0])
  {}

  lemma {:induction false} ListingIsUnique(p: Positions, l: seq<PhotoId>, m: seq<PhotoId>)
    requires IsListing(p, l) && IsListing(p, m)
    ensures l == m
    decreases p.Keys
  {
    hide First, Before;
    hide IsListing;
    EmptyListing(p, l);
    EmptyListing(p, m);
    if p != map[] {
      ListingStartsWithFirst(p, l);
      ListingStartsWithFirst(p, m);
      AfterTheFirst(p, l);
      AfterTheFirst(p, m);
      ListingIsUnique(p - {l[0]}, l[1..], m[1..]);
      SameHeadAndTail(l, m);
    }
  }

  lemma SameHeadAndTail(l: seq<PhotoId>, m: seq<PhotoId>)
    requires l != [] && m != [] && l[0] == m[0] && l[1..] == m[1..]
    ensures l == m
  {}

  lemma AfterTheFirst(p: Positions, l: seq<PhotoId>)
    requires IsListing(p, l) && l != []
    ensures IsListing(p - {l[0]}, l[1..])
  {}

  /** The two links undo each other. */
  lemma LinksUndoEachOther(p: Positions, a: PhotoId, b: PhotoId)
    requires a in p && b in p
    ensures Next(p, a) == Some(b) <==> Previous(p, b) == Some(a)
  {
    var l := ListingExists(p);
    assert a in l && b in l;
    var i :| 0 <= i < |l| && l[i] == a;
    var j :| 0 <= j < |l| && l[j] == b;
    IndexIsOrder(p, l);
    LinksAreNeighbours(p, l, i);
    LinksAreNeighbours(p, l, j);
  }
}
