/** The ledger invariant: how the rows hang together, and what the four counters stand for. */
module LedgerInvariant {
  import opened Prelude
  import opened Tallies
  import opened Lifecycle
  import opened Ledger

  // -------------------------------------------------------------- the invariant

  /** Foreign keys point at rows. */
  ghost predicate Linked(t: Tables) {
    && (forall k :: k in t.objects ==> k.asset in t.assets)
    && (forall a :: a in t.assets ==> t.assets[a].batch in t.batches)
    && (forall b :: b in t.batches ==> t.batches[b].section in t.archived)
  }

  /** Every original of a batch is on record: true until a purge takes them all at once. */
  ghost predicate OriginalsKept(t: Tables, b: BatchId) {
    forall a :: InBatch(t, a, b) ==> HasObject(t, a, Original)
  }

  ghost predicate HasPending(t: Tables, b: BatchId) {
    exists a :: InBatch(t, a, b) && IsPending(t, a)
  }

  /** A batch in flight waits for something. */
  ghost predicate BatchFits(t: Tables, b: BatchId) {
    && OriginalsKept(t, b)
    && (b in t.batches && t.batches[b].state == InFlight ==> HasPending(t, b))
  }

  /** A batch's state tells what its objects may be. */
  predicate Allows(batch: BatchState, v: Variant, state: ObjectState) {
    && (batch in {NotIncluded, Withdrawn} ==> state == Excluded)
    && (batch == Complete && v == Original ==> state in {Verified, Excluded})
  }

  /** A derivative is excluded exactly when its original is; otherwise its original is verified. */
  predicate Follows(derivative: ObjectState, original: ObjectState) {
    original == if derivative == Excluded then Excluded else Verified
  }

  ghost predicate ObjectFits(t: Tables, k: ObjectKey)
    requires k in t.objects
  {
    && k.asset in t.assets && t.assets[k.asset].batch in t.batches
    && HasObject(t, k.asset, Original)
    && Allows(t.batches[t.assets[k.asset].batch].state, k.variant, t.objects[k].state)
    && (k.variant != Original ==> Follows(t.objects[k].state, t.objects[ObjectKey(k.asset, Original)].state))
  }

  ghost predicate Structured(t: Tables) {
    && Linked(t)
    && (forall k :: k in t.objects ==> ObjectFits(t, k))
    && (forall a, b :: InBatch(t, a, b) && HasObject(t, a, Original) ==> BatchFits(t, b))
  }

  /** The counters, against the sets of objects that they count. */
  ghost predicate Tallied(e: Event, held: set<ObjectKey>, stored: set<ObjectKey>, sizes: map<ObjectKey, nat>) {
    && held <= sizes.Keys && stored <= sizes.Keys
    && e.reservedBytes == Total(held, sizes)
    && e.reservedCount == |held|
    && e.verifiedBytes == Total(stored, sizes)
    && e.verifiedCount == |stored|
    && e.reservedBytes <= e.byteLimit
    && e.reservedCount <= EVENT_ORIGINAL_ASSET_LIMIT
  }

  ghost predicate Counted(e: Event, objects: map<ObjectKey, StoredObject>) {
    Tallied(e, HeldOriginals(objects), StoredOriginals(objects), Sizes(objects))
  }

  ghost predicate LedgerInv(s: Ledger) {
    Structured(s.rows) && Counted(s.event, s.rows.objects)
  }

  // ----------------------------------------------------- consequences

  /** Counters that count right never violate a CHECK constraint. */
  lemma TalliedIsWithinConstraints(e: Event, held: set<ObjectKey>, stored: set<ObjectKey>, sizes: map<ObjectKey, nat>)
    requires Tallied(e, held, stored, sizes) && stored <= held
    ensures WithinConstraints(e)
  {
    TotalOfSubset(stored, held, sizes);
    SubsetSize(stored, held);
  }

  lemma CountedIsWithinConstraints(e: Event, objects: map<ObjectKey, StoredObject>)
    requires Counted(e, objects)
    ensures WithinConstraints(e)
  {
    TalliedIsWithinConstraints(e, HeldOriginals(objects), StoredOriginals(objects), Sizes(objects));
  }

  /** Once every original is terminal, nothing is reserved but what is verified. */
  lemma TerminalHeldIsStored(t: Tables)
    requires EveryOriginalTerminal(t)
    ensures HeldOriginals(t.objects) == StoredOriginals(t.objects)
  {}

  /** What a batch's state tells while its objects are on record: it is in flight exactly when an original is
      neither verified nor excluded, and a derivative that is not excluded stands beside a verified original. */
  lemma BatchStateTells(t: Tables, b: BatchId)
    requires Structured(t) && b in t.batches
    requires exists a :: InBatch(t, a, b) && HasObject(t, a, Original)
    ensures t.batches[b].state == InFlight <==> HasPending(t, b)
    ensures t.batches[b].state == Complete ==> forall a :: InBatch(t, a, b) ==> HasObject(t, a, Original) && !IsPending(t, a)
    ensures t.batches[b].state in {NotIncluded, Withdrawn} ==>
      forall k :: k in BatchObjects(t, b) ==> t.objects[k].state == Excluded
    ensures forall k :: k in BatchObjects(t, b) && k.variant != Original && t.objects[k].state != Excluded ==>
      IsVerified(t, k.asset, Original)
  {}

  // ----------------------------------------------------- arithmetic of the counters

  /** Originals leave: exclusion, cancellation and publication. */
  lemma TalliedAfterLeaving(e: Event, held: set<ObjectKey>, stored: set<ObjectKey>, sizes: map<ObjectKey, nat>,
                            gone: set<ObjectKey>, e': Event)
    requires Tallied(e, held, stored, sizes)
    requires gone <= held
    requires e'.byteLimit == e.byteLimit
    requires e'.reservedBytes == e.reservedBytes - Total(gone, sizes)
    requires e'.reservedCount == e.reservedCount - |gone|
    requires e'.verifiedBytes == e.verifiedBytes - Total(gone * stored, sizes)
    requires e'.verifiedCount == e.verifiedCount - |gone * stored|
    ensures Tallied(e', held - gone, stored - gone, sizes)
  {
    hide Total;
    TotalOfSubset(gone, held, sizes);
    SubsetSize(gone, held);
    TotalOfSubset(gone * stored, stored, sizes);
    SubsetSize(gone * stored, stored);
    assert stored - gone * stored == stored - gone;
  }

  /** New originals arrive: reservation. */
  lemma TalliedAfterArriving(e: Event, held: set<ObjectKey>, stored: set<ObjectKey>, sizes: map<ObjectKey, nat>,
                             arriving: set<ObjectKey>, sizes': map<ObjectKey, nat>, e': Event)
    requires Tallied(e, held, stored, sizes)
    requires arriving !! held && held + stored + arriving <= sizes'.Keys
    requires forall k :: k in held + stored ==> sizes'[k] == sizes[k]
    requires e'.byteLimit == e.byteLimit
    requires e'.reservedBytes == e.reservedBytes + Total(arriving, sizes') <= e.byteLimit
    requires e'.reservedCount == e.reservedCount + |arriving| <= EVENT_ORIGINAL_ASSET_LIMIT
    requires e'.verifiedBytes == e.verifiedBytes && e'.verifiedCount == e.verifiedCount
    ensures Tallied(e', held + arriving, stored, sizes')
  {
    TotalOfUnion(held, arriving, sizes');
    TotalFrame(held, sizes, sizes');
    TotalFrame(stored, sizes, sizes');
  }

  /** One held original is verified. */
  lemma TalliedAfterVerifying(e: Event, held: set<ObjectKey>, stored: set<ObjectKey>, sizes: map<ObjectKey, nat>,
                              k: ObjectKey, e': Event)
    requires Tallied(e, held, stored, sizes)
    requires k in held && k !in stored
    requires e'.byteLimit == e.byteLimit
    requires e'.reservedBytes == e.reservedBytes && e'.reservedCount == e.reservedCount
    requires e'.verifiedBytes == e.verifiedBytes + sizes[k] && e'.verifiedCount == e.verifiedCount + 1
    ensures Tallied(e', held, stored + {k}, sizes)
  {
    TotalTakesOut(stored + {k}, sizes, k);
    assert stored + {k} - {k} == stored;
  }

  lemma {:induction false} TotalReindexed(ids: set<AssetId>, v: map<AssetId, nat>, w: map<ObjectKey, nat>)
    requires ids <= v.Keys && OriginalKeys(ids) <= w.Keys
    requires forall a :: a in ids ==> w[ObjectKey(a, Original)] == v[a]
    ensures Total(OriginalKeys(ids), w) == Total(ids, v) && |OriginalKeys(ids)| == |ids|
    decreases ids
  {
    if ids == {} {
      assert OriginalKeys(ids) == {};
    } else {
      var a :| a in ids;
      var k := ObjectKey(a, Original);
      TotalTakesOut(ids, v, a);
      TotalTakesOut(OriginalKeys(ids), w, k);
      assert OriginalKeys(ids - {a}) == OriginalKeys(ids) - {k};
      TotalReindexed(ids - {a}, v, w);
    }
  }

  // ------------------------------------------------------------ rows whose structure stays

  /** A batch whose photos, state and pending originals carry over keeps what the invariant says of it. */
  lemma BatchStays(t: Tables, t': Tables, b: BatchId)
    requires BatchFits(t, b)
    requires forall x :: InBatch(t', x, b) <==> InBatch(t, x, b)
    requires forall x :: InBatch(t, x, b) && HasObject(t, x, Original) ==> HasObject(t', x, Original)
    requires b in t'.batches && t'.batches[b].state == InFlight ==>
      || HasPending(t', b)
      || (&& b in t.batches && t.batches[b].state == InFlight
          && forall x :: InBatch(t, x, b) && IsPending(t, x) ==> IsPending(t', x))
    ensures BatchFits(t', b)
  {}

  /** Nothing that the structure of the rows depends on differs. */
  ghost predicate SameStructure(t: Tables, t': Tables) {
    && t'.objects == t.objects
    && t'.assets.Keys == t.assets.Keys
    && (forall a :: a in t.assets ==> t'.assets[a].batch == t.assets[a].batch)
    && t'.batches.Keys == t.batches.Keys
    && (forall b :: b in t.batches ==> t'.batches[b].state == t.batches[b].state)
    && (forall b :: b in t'.batches ==> t'.batches[b].section in t'.archived)
  }

  lemma StructureFrame(t: Tables, t': Tables)
    requires Structured(t) && SameStructure(t, t')
    ensures Structured(t')
  {
    hide BatchFits;
    forall k | k in t'.objects ensures ObjectFits(t', k) {
      assert ObjectFits(t, k);
    }
    forall a, b | InBatch(t', a, b) && HasObject(t', a, Original) ensures BatchFits(t', b) {
      assert InBatch(t, a, b) && HasObject(t, a, Original);
      assert forall x :: InBatch(t', x, b) <==> InBatch(t, x, b);
      BatchStays(t, t', b);
    }
  }

  // ------------------------------------------------------------ a new contribution

  /** The objects with a contribution, told apart by whether they were there before. */
  lemma NewObjects(t: Tables, c: Contribution, generation: nat)
    requires Linked(t)
    requires forall a :: a in c.items ==> a !in t.assets
    ensures
      var objects' := WithContribution(t, c, generation).objects;
      && (forall k :: k in objects' <==> (k in t.objects || (k.asset in c.items && k.variant == Original)))
      && (forall k :: k in t.objects ==> k.asset !in c.items && objects'[k] == t.objects[k])
      && (forall k :: k in objects' && k !in t.objects ==>
            objects'[k] == StoredObject(c.items[k.asset].spec, Reserved, None))
  {}

  lemma NewMembers(t: Tables, c: Contribution, generation: nat)
    requires Linked(t) && c.batch !in t.batches
    requires forall a :: a in c.items ==> a !in t.assets
    ensures
      var t' := WithContribution(t, c, generation);
      && (forall a :: InBatch(t', a, c.batch) <==> a in c.items)
      && (forall a, b :: b != c.batch ==> (InBatch(t', a, b) <==> InBatch(t, a, b)))
      && t'.assets.Keys == t.assets.Keys + c.items.Keys
      && (forall a :: a in t.assets ==> t'.assets[a] == t.assets[a])
      && (forall a :: a in c.items ==> t'.assets[a].batch == c.batch)
  {}

  lemma NewObjectFits(t: Tables, c: Contribution, generation: nat, k: ObjectKey)
    requires Structured(t)
    requires c.batch !in t.batches && forall a :: a in c.items ==> a !in t.assets
    requires k in WithContribution(t, c, generation).objects
    ensures ObjectFits(WithContribution(t, c, generation), k)
  {
    NewObjects(t, c, generation);
    NewMembers(t, c, generation);
    if k in t.objects {
      assert ObjectFits(t, k);
    } else {
      assert k == ObjectKey(k.asset, Original);
    }
  }

  lemma NewBatchFits(t: Tables, c: Contribution, generation: nat)
    requires Linked(t) && c.items != map[]
    requires c.batch !in t.batches && forall a :: a in c.items ==> a !in t.assets
    ensures BatchFits(WithContribution(t, c, generation), c.batch)
  {
    var t' := WithContribution(t, c, generation);
    NewObjects(t, c, generation);
    NewMembers(t, c, generation);
    forall a | a in c.items ensures IsPending(t', a) {
      assert ObjectKey(a, Original) !in t.objects;
    }
    var x :| x in c.items;
    assert InBatch(t', x, c.batch) && IsPending(t', x);
  }

  lemma OldBatchFits(t: Tables, c: Contribution, generation: nat, b: BatchId)
    requires Linked(t) && BatchFits(t, b) && b != c.batch
    requires c.batch !in t.batches && forall a :: a in c.items ==> a !in t.assets
    ensures BatchFits(WithContribution(t, c, generation), b)
  {
    hide BatchFits;
    NewObjects(t, c, generation);
    NewMembers(t, c, generation);
    BatchStays(t, WithContribution(t, c, generation), b);
  }

  lemma ContributionIsLinked(t: Tables, c: Contribution, generation: nat)
    requires Linked(t) && c.section in t.archived && c.batch !in t.batches
    requires forall a :: a in c.items ==> a !in t.assets
    ensures Linked(WithContribution(t, c, generation))
  {
    NewObjects(t, c, generation);
    NewMembers(t, c, generation);
  }

  lemma ContributionKeepsStructure(t: Tables, c: Contribution, generation: nat)
    requires Structured(t)
    requires c.items != map[] && c.section in t.archived
    requires c.batch !in t.batches && forall a :: a in c.items ==> a !in t.assets
    ensures Structured(WithContribution(t, c, generation))
  {
    hide ObjectFits, BatchFits, Linked, WithContribution;
    var t' := WithContribution(t, c, generation);
    ContributionIsLinked(t, c, generation);
    NewObjects(t, c, generation);
    NewMembers(t, c, generation);
    forall k | k in t'.objects ensures ObjectFits(t', k) {
      NewObjectFits(t, c, generation, k);
    }
    forall a, b | InBatch(t', a, b) && HasObject(t', a, Original) ensures BatchFits(t', b) {
      if b == c.batch {
        NewBatchFits(t, c, generation);
      } else {
        assert InBatch(t, a, b) && HasObject(t, a, Original);
        OldBatchFits(t, c, generation, b);
      }
    }
  }

  lemma ArrivingOriginals(t: Tables, c: Contribution, generation: nat)
    requires Linked(t)
    requires c.batch !in t.batches && forall a :: a in c.items ==> a !in t.assets
    ensures
      var t' := WithContribution(t, c, generation);
      var arriving, sizes' := OriginalKeys(c.items.Keys), Sizes(t'.objects);
      && HeldOriginals(t'.objects) == HeldOriginals(t.objects) + arriving
      && StoredOriginals(t'.objects) == StoredOriginals(t.objects)
      && arriving !! HeldOriginals(t.objects)
      && HeldOriginals(t.objects) + StoredOriginals(t.objects) + arriving <= sizes'.Keys
      && (forall k :: k in HeldOriginals(t.objects) + StoredOriginals(t.objects) ==> sizes'[k] == Sizes(t.objects)[k])
      && (forall a :: a in c.items ==> sizes'[ObjectKey(a, Original)] == c.items[a].spec.bytes)
  {
    hide WithContribution;
    NewObjects(t, c, generation);
    var t', arriving := WithContribution(t, c, generation), OriginalKeys(c.items.Keys);
    assert forall k :: k in arriving <==> k.asset in c.items && k.variant == Original;
    forall k ensures k in HeldOriginals(t'.objects) <==> k in HeldOriginals(t.objects) || k in arriving {}
    forall k ensures k in StoredOriginals(t'.objects) <==> k in StoredOriginals(t.objects) {}
  }

  lemma ContributionIsCounted(e: Event, t: Tables, c: Contribution, generation: nat, e': Event)
    requires Linked(t) && Counted(e, t.objects)
    requires c.batch !in t.batches && forall a :: a in c.items ==> a !in t.assets
    requires e'.byteLimit == e.byteLimit && e'.verifiedBytes == e.verifiedBytes && e'.verifiedCount == e.verifiedCount
    requires
      var sizes := map a | a in c.items :: c.items[a].spec.bytes;
      e'.reservedBytes == e.reservedBytes + Total(c.items.Keys, sizes) <= e.byteLimit
    requires e'.reservedCount == e.reservedCount + |c.items| <= EVENT_ORIGINAL_ASSET_LIMIT
    ensures Counted(e', WithContribution(t, c, generation).objects)
  {
    hide Total, WithContribution;
    var t', arriving := WithContribution(t, c, generation), OriginalKeys(c.items.Keys);
    ArrivingOriginals(t, c, generation);
    var sizes := map a | a in c.items :: c.items[a].spec.bytes;
    TotalReindexed(c.items.Keys, sizes, Sizes(t'.objects));
    TalliedAfterArriving(e, HeldOriginals(t.objects), StoredOriginals(t.objects), Sizes(t.objects),
                         arriving, Sizes(t'.objects), e');
  }

  lemma StructuredIsLinked(t: Tables)
    requires Structured(t)
    ensures Linked(t)
  {}

  lemma ReserveKeepsLedger(s: Ledger, c: Contribution)
    requires LedgerInv(s) && c.items != map[]
    ensures LedgerInv(Reserve(s, c).ledger)
  {
    hide Total, Structured, Counted, WithContribution, Linked;
    var t, s' := s.rows, Reserve(s, c).ledger;
    if s' != s {
      StructuredIsLinked(t);
      ContributionKeepsStructure(t, c, s.event.generation);
      ContributionIsCounted(s.event, t, c, s.event.generation, s'.event);
    }
  }

  // ------------------------------------------------------------ originals change state

  /** Rows after pending originals changed state, the batches not yet looked at again. */
  ghost predicate OriginalsMoved(t: Tables, t': Tables) {
    && t'.objects.Keys == t.objects.Keys
    && t'.(objects := t.objects) == t
    && (forall k :: k in t.objects && t'.objects[k] != t.objects[k] ==> k.variant == Original && IsPending(t, k.asset))
  }

  lemma MovedObjectFits(t: Tables, t': Tables, k: ObjectKey)
    requires Structured(t) && OriginalsMoved(t, t') && k in t.objects
    ensures ObjectFits(t', k)
  {}

  lemma PendingStaysPending(t: Tables, t': Tables)
    requires Structured(t) && OriginalsMoved(t, t')
    requires forall a :: IsPending(t, a) ==> IsPending(t', a)
    ensures Structured(t')
  {
    hide ObjectFits, BatchFits;
    forall k | k in t'.objects ensures ObjectFits(t', k) { MovedObjectFits(t, t', k); }
    forall a, b | InBatch(t', a, b) && HasObject(t', a, Original) ensures BatchFits(t', b) {
      assert InBatch(t, a, b) && HasObject(t, a, Original);
      BatchStays(t, t', b);
    }
  }

  lemma PendingIsHeld(t: Tables, t': Tables)
    requires OriginalsMoved(t, t')
    requires forall a :: IsPending(t, a) ==> IsPending(t', a)
    ensures HeldOriginals(t'.objects) == HeldOriginals(t.objects)
    ensures StoredOriginals(t'.objects) == StoredOriginals(t.objects)
  {}

  lemma CompletedObjectFits(t: Tables, b: BatchId, k: ObjectKey)
    requires b in t.batches && k in t.objects && ObjectFits(t, k)
    ensures ObjectFits(CompleteIfTerminal(t, b), k)
  {
    if CompleteIfTerminal(t, b) != t && k.variant == Original && InBatch(t, k.asset, b) {
      assert k == ObjectKey(k.asset, Original);
      assert !IsPending(t, k.asset);
      assert t.objects[k].state.Verified? || t.objects[k].state.Excluded?;
    }
  }

  /** Looking at a batch again completes it when nothing of it is pending any more. */
  lemma CompletedBatchFits(t: Tables, t': Tables, b: BatchId, x: BatchId)
    requires OriginalsMoved(t, t') && b in t.batches && BatchFits(t, x)
    requires forall a :: IsPending(t, a) && !InBatch(t, a, b) ==> IsPending(t', a)
    ensures BatchFits(CompleteIfTerminal(t', b), x)
  {
    var u := CompleteIfTerminal(t', b);
    if x == b && u.batches[b].state == InFlight {
      var y :| InBatch(t', y, b) && IsPending(t', y);
      assert InBatch(u, y, b) && IsPending(u, y);
    }
    BatchStays(t, u, x);
  }

  lemma SecondLook(t: Tables, t': Tables, b: BatchId)
    requires Structured(t) && OriginalsMoved(t, t')
    requires b in t.batches
    requires forall a :: IsPending(t, a) && !InBatch(t, a, b) ==> IsPending(t', a)
    ensures Structured(CompleteIfTerminal(t', b))
    ensures CompleteIfTerminal(t', b).objects == t'.objects
  {
    hide ObjectFits, BatchFits;
    var u := CompleteIfTerminal(t', b);
    forall k | k in u.objects ensures ObjectFits(u, k) {
      MovedObjectFits(t, t', k);
      CompletedObjectFits(t', b, k);
    }
    forall a, x | InBatch(u, a, x) && HasObject(u, a, Original) ensures BatchFits(u, x) {
      assert InBatch(t, a, x) && HasObject(t, a, Original);
      CompletedBatchFits(t, t', b, x);
    }
  }

  lemma LeaseKeepsLedger(s: Ledger, b: BatchId, installation: nat, chosen: set<AssetId>, until: nat)
    requires LedgerInv(s)
    ensures LedgerInv(Lease(s, b, installation, chosen, until).ledger)
  {
    hide Total, Structured, InActiveSection;
    var t := s.rows;
    var t' := t.(objects := Leased(t, b, chosen, until));
    assert OriginalsMoved(t, t');
    PendingStaysPending(t, t');
    PendingIsHeld(t, t');
    assert Sizes(t'.objects) == Sizes(t.objects);
  }

  lemma VerifiedSets(t: Tables, k: ObjectKey)
    requires k in t.objects && k.variant == Original && t.objects[k].state in {Reserved, Failed}
    ensures
      var t' := WithObject(t, k, t.objects[k].(state := Verified));
      && OriginalsMoved(t, t') && Sizes(t'.objects) == Sizes(t.objects)
      && HeldOriginals(t'.objects) == HeldOriginals(t.objects)
      && StoredOriginals(t'.objects) == StoredOriginals(t.objects) + {k}
  {}

  lemma FailedSets(t: Tables, k: ObjectKey)
    requires k in t.objects && k.variant == Original && t.objects[k].state in {Reserved, Failed}
    ensures
      var t' := WithObject(t, k, t.objects[k].(state := Failed, lease := None));
      && OriginalsMoved(t, t') && Sizes(t'.objects) == Sizes(t.objects)
      && (forall a :: IsPending(t, a) ==> IsPending(t', a))
  {}

  lemma VerifyKeepsLedger(s: Ledger, a: AssetId, head: Spec)
    requires LedgerInv(s)
    ensures LedgerInv(VerifyCommit(s, a, head).ledger)
  {
    hide Total, Structured, CompleteIfTerminal, WithinConstraints, OriginalsMoved, WithObject;
    var t, s', k := s.rows, VerifyCommit(s, a, head).ledger, ObjectKey(a, Original);
    if s' != s {
      var o := t.objects[k];
      if head != o.spec {
        var t' := WithObject(t, k, o.(state := Failed, lease := None));
        FailedSets(t, k);
        PendingStaysPending(t, t');
        PendingIsHeld(t, t');
      } else {
        VerifiedSets(t, k);
        OthersStayPending(t, k, o.(state := Verified), a);
        SecondLook(t, WithObject(t, k, o.(state := Verified)), t.assets[a].batch);
        TalliedAfterVerifying(s.event, HeldOriginals(t.objects), StoredOriginals(t.objects), Sizes(t.objects), k, s'.event);
      }
    }
  }

  lemma OthersStayPending(t: Tables, k: ObjectKey, o: StoredObject, a: AssetId)
    requires k == ObjectKey(a, Original)
    ensures forall x :: x != a && IsPending(t, x) ==> IsPending(WithObject(t, k, o), x)
  {}

  lemma ExcludeKeepsLedger(s: Ledger, a: AssetId, now: nat, storeAnswers: bool)
    requires LedgerInv(s)
    ensures LedgerInv(ExcludeAsset(s, a, now, storeAnswers).ledger)
  {
    hide Total, Structured, CompleteIfTerminal, WithinConstraints;
    var t, s', k := s.rows, ExcludeAsset(s, a, now, storeAnswers).ledger, ObjectKey(a, Original);
    if s' != s {
      var t' := WithObject(t, k, t.objects[k].(state := Excluded));
      assert OriginalsMoved(t, t');
      SecondLook(t, t', t.assets[a].batch);
      assert Sizes(t'.objects) == Sizes(t.objects);
      var held, stored := HeldOriginals(t.objects), StoredOriginals(t.objects);
      assert HeldOriginals(t'.objects) == held - {k};
      assert StoredOriginals(t'.objects) == stored - {k};
      SmallTotals(k, Sizes(t.objects));
      assert {k} * stored == {};
      TalliedAfterLeaving(s.event, held, stored, Sizes(t.objects), {k}, s'.event);
    }
  }

  lemma SmallTotals<K>(k: K, weight: map<K, nat>)
    requires k in weight
    ensures Total({k}, weight) == weight[k] && Total({}, weight) == 0
  {}
}
