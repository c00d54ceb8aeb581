/** The desktop's inventory of a contribution: an incremental scan that marks what it sees and sweeps the rest. */
module Inventory {
  import opened Prelude
  import opened Tallies

  /** Normalized paths. */
  type Path = nat

  datatype Snapshot = Snapshot(size: nat, modified: nat, changed: nat)

  datatype Status = Accepted | Rejected | Blocking

  datatype Reason = Fine | ChangedDuringScan | SourceMissing | Other(code: nat)

  datatype Verdict = Verdict(status: Status, reason: Reason, checksum: nat)

  datatype Item = Item(snapshot: Snapshot, verdict: Verdict, generation: nat)

  /** One discovered file: its snapshot, what validation said, and the snapshot after validation. */
  datatype Candidate = Candidate(path: Path, before: Snapshot, verdict: Verdict, after: Option<Snapshot>)

  datatype BatchState = Draft | Scanning | Paused | NeedsReview | Approved | Reserved | Uploading | Complete | NotIncluded

  type Items = map<Path, Item>

  predicate Unchanged(item: Item, snapshot: Snapshot) {
    item.snapshot == snapshot && item.verdict.status in {Accepted, Rejected}
  }

  /** The file did not change while it was validated. */
  predicate Settled(c: Candidate) {
    c.after == Some(c.before)
  }

  function Fresh(c: Candidate, generation: nat): Item {
    Item(
      if c.after.Some? then c.after.value else c.before,
      if Settled(c) then c.verdict else Verdict(Blocking, ChangedDuringScan, 0),
      generation)
  }

  /** What a visit does to the row of its path: an unchanged row is only marked as seen. */
  function Visited(row: Option<Item>, c: Candidate, generation: nat): Item {
    if row.Some? && Unchanged(row.value, c.before) then row.value.(generation := generation) else Fresh(c, generation)
  }

  function Row(items: Items, p: Path): Option<Item> {
    if p in items then Some(items[p]) else None
  }

  function Paths(candidates: seq<Candidate>): set<Path> {
    set i | 0 <= i < |candidates| :: candidates[i].path
  }

  /** The table after visiting the candidates in turn; a path counts once, and a frozen batch takes no new ones. */
  function Walked(items: Items, candidates: seq<Candidate>, frozen: bool, generation: nat): Items {
    if candidates == [] then items
    else
      var n := |candidates| - 1;
      var c := candidates[n];
      var before := Walked(items, candidates[..n], frozen, generation);
      if c.path in Paths(candidates[..n]) || (frozen && c.path !in before) then before
      else before[c.path := Visited(Row(before, c.path), c, generation)]
  }

  /** Sweeps the rows that were not seen: they go, or block when the batch is frozen. */
  function Swept(items: Items, frozen: bool, generation: nat): Items {
    if frozen then
      map p | p in items ::
        if items[p].generation != generation && items[p].verdict.status != Rejected
        then items[p].(verdict := Verdict(Blocking, SourceMissing, items[p].verdict.checksum)) else items[p]
    else
      map p | p in items && items[p].generation == generation :: items[p]
  }

  /** The candidate that counts for a path: the first one. */
  ghost function First(candidates: seq<Candidate>, p: Path): Candidate
    requires p in Paths(candidates)
  {
    if candidates[0].path == p then candidates[0] else First(Rest(candidates, p), p)
  }

  ghost function Rest(candidates: seq<Candidate>, p: Path): (r: seq<Candidate>)
    requires p in Paths(candidates) && candidates[0].path != p
    ensures |r| < |candidates| && p in Paths(r)
  {
    var i :| 0 <= i < |candidates| && candidates[i].path == p;
    assert candidates[1..][i - 1].path == p;
    candidates[1..]
  }

  // ------------------------------------------------------------- what a walk leaves behind

  lemma PathsOfPrefix(candidates: seq<Candidate>)
    requires candidates != []
    ensures Paths(candidates) == Paths(candidates[..|candidates| - 1]) + {candidates[|candidates| - 1].path}
  {}

  /** A later candidate does not change which one counts. */
  lemma {:induction false} FirstOfPrefix(candidates: seq<Candidate>, p: Path)
    requires candidates != []
    ensures p in Paths(candidates[..|candidates| - 1]) ==>
      p in Paths(candidates) && First(candidates, p) == First(candidates[..|candidates| - 1], p)
    ensures p !in Paths(candidates[..|candidates| - 1]) && p == candidates[|candidates| - 1].path ==>
      p in Paths(candidates) && First(candidates, p) == candidates[|candidates| - 1]
    decreases |candidates|
  {
    PathsOfPrefix(candidates);
    var n := |candidates| - 1;
    if n > 0 && candidates[0].path != p {
      var rest := candidates[1..];
      assert rest[..|rest| - 1] == candidates[..n][1..];
      FirstOfPrefix(rest, p);
      FromSecond(candidates[..n], p);
      FromSecond(candidates, p);
    } else if n > 0 {
      assert candidates[..n][0].path == p;
    }
  }

  lemma FromSecond(candidates: seq<Candidate>, p: Path)
    requires candidates != [] && candidates[0].path != p
    ensures p in Paths(candidates) <==> p in Paths(candidates[1..])
    ensures p in Paths(candidates) ==> First(candidates, p) == First(candidates[1..], p)
  {}

  /** Row by row: a path that was visited holds what its first candidate made of its old row; the others are
      as they were. */
  lemma {:induction false} WalkedRow(items: Items, candidates: seq<Candidate>, frozen: bool, generation: nat, p: Path)
    ensures Row(Walked(items, candidates, frozen, generation), p)
         == if p in Paths(candidates) && (p in items || !frozen)
            then Some(Visited(Row(items, p), First(candidates, p), generation)) else Row(items, p)
    decreases |candidates|
  {
    if candidates != [] {
      WalkedRow(items, candidates[..|candidates| - 1], frozen, generation, p);
      PathsOfPrefix(candidates);
      FirstOfPrefix(candidates, p);
    }
  }

  // ------------------------------------------------------------- a rescan and a scan from scratch

  /** What validation says of a file with this path and snapshot. */
  type Truth = (Path, Snapshot) -> Verdict

  /** Every row that a scan would reuse says what validation would say again. */
  predicate Truthful(items: Items, truth: Truth) {
    forall p :: p in items && items[p].verdict.status in {Accepted, Rejected} ==>
      items[p].verdict == truth(p, items[p].snapshot)
  }

  /** The snapshot of a file that stays unchanged during validation determines the verdict. */
  predicate Honest(candidates: seq<Candidate>, truth: Truth) {
    forall i :: 0 <= i < |candidates| && Settled(candidates[i]) ==>
      candidates[i].verdict == truth(candidates[i].path, candidates[i].before)
  }

  lemma {:induction false} FirstIsCandidate(candidates: seq<Candidate>, p: Path)
    requires p in Paths(candidates)
    ensures First(candidates, p) in candidates && First(candidates, p).path == p
    decreases |candidates|
  {
    if candidates[0].path != p {
      FromSecond(candidates, p);
      FirstIsCandidate(candidates[1..], p);
    }
  }

  /** A walk of any length, completed or cancelled, leaves a truthful table truthful. */
  lemma WalkKeepsTruth(items: Items, candidates: seq<Candidate>, frozen: bool, generation: nat, truth: Truth)
    requires Truthful(items, truth) && Honest(candidates, truth)
    ensures Truthful(Walked(items, candidates, frozen, generation), truth)
  {}

  /** What the table says about the files, apart from when it last looked. */
  function Findings(items: Items): map<Path, (Snapshot, Verdict)> {
    map p | p in items :: (items[p].snapshot, items[p].verdict)
  }

  predicate SeenBefore(items: Items, generation: nat) {
    forall p :: p in items ==> items[p].generation < generation
  }

  /** The rows after a completed scan of a batch that is not frozen: the visited paths, no others. */
  lemma ScannedRow(items: Items, candidates: seq<Candidate>, generation: nat, p: Path)
    requires SeenBefore(items, generation)
    ensures Row(Swept(Walked(items, candidates, false, generation), false, generation), p)
         == if p in Paths(candidates) then Some(Visited(Row(items, p), First(candidates, p), generation)) else None
  {
    WalkedRow(items, candidates, false, generation, p);
    var walked := Walked(items, candidates, false, generation);
    assert p in walked ==> Row(walked, p) == Some(walked[p]);
  }

  ghost function Scan(items: Items, candidates: seq<Candidate>, generation: nat): Items {
    Swept(Walked(items, candidates, false, generation), false, generation)
  }

  /** A path whose old row is reused although its file changed while a scan from scratch looked at it. */
  ghost predicate MissedChange(items: Items, candidates: seq<Candidate>, p: Path) {
    && p in Paths(candidates) && p in items && Unchanged(items[p], First(candidates, p).before)
    && !Settled(First(candidates, p))
  }

  /** Main result: a completed scan of a truthful table finds exactly what a scan of an empty table finds,
      unless a file whose row was reused changed during that very scan. */
  lemma RescanIsFreshIff(items: Items, candidates: seq<Candidate>, generation: nat, generation': nat, truth: Truth)
    requires Truthful(items, truth) && Honest(candidates, truth) && SeenBefore(items, generation)
    ensures Findings(Scan(items, candidates, generation)) == Findings(Scan(map[], candidates, generation'))
       <==> forall p :: !MissedChange(items, candidates, p)
  {
    var again, scratch := Scan(items, candidates, generation), Scan(map[], candidates, generation');
    forall p
      ensures p in again <==> p in scratch
      ensures p in again ==> (Findings(again)[p] == Findings(scratch)[p] <==> !MissedChange(items, candidates, p))
      ensures p !in again ==> !MissedChange(items, candidates, p)
    {
      ScannedRow(items, candidates, generation, p);
      ScannedRow(map[], candidates, generation', p);
      assert (p in again ==> Row(again, p) == Some(again[p])) && (p in scratch ==> Row(scratch, p) == Some(scratch[p]));
      if p in Paths(candidates) {
        FirstIsCandidate(candidates, p);
      }
    }
    if p :| MissedChange(items, candidates, p) {
      assert Findings(again)[p] != Findings(scratch)[p];
    }
  }

  /** Scans that were cancelled, one after the other, each with the prefix of candidates that it got to. */
  ghost function Cancelled(items: Items, walks: seq<seq<Candidate>>, generation: nat): Items
    decreases |walks|
  {
    if walks == [] then items
    else Cancelled(Walked(items, walks[0], false, generation + 1), walks[1..], generation + 1)
  }

  lemma {:induction false} CancelledKeepsTruth(items: Items, walks: seq<seq<Candidate>>, generation: nat, truth: Truth)
    requires Truthful(items, truth) && SeenBefore(items, generation + 1)
    requires forall i :: 0 <= i < |walks| ==> Honest(walks[i], truth)
    ensures Truthful(Cancelled(items, walks, generation), truth)
    ensures SeenBefore(Cancelled(items, walks, generation), generation + |walks| + 1)
    decreases |walks|
  {
    if walks != [] {
      WalkKeepsTruth(items, walks[0], false, generation + 1, truth);
      WalkIsNotAhead(items, walks[0], false, generation + 1);
      CancelledKeepsTruth(Walked(items, walks[0], false, generation + 1), walks[1..], generation + 1, truth);
    }
  }

  lemma WalkIsNotAhead(items: Items, candidates: seq<Candidate>, frozen: bool, generation: nat)
    requires SeenBefore(items, generation)
    ensures SeenBefore(Walked(items, candidates, frozen, generation), generation + 1)
  {}

  /** However many scans were cancelled before, a completed one finds what a scan from scratch finds, unless a
      file whose row the cancelled ones left for reuse changed during that very scan. */
  lemma RescanAfterCancelledIff(items: Items, walks: seq<seq<Candidate>>, candidates: seq<Candidate>, generation: nat,
                                truth: Truth)
    requires Truthful(items, truth) && SeenBefore(items, generation + 1)
    requires forall i :: 0 <= i < |walks| ==> Honest(walks[i], truth)
    requires Honest(candidates, truth)
    ensures
      var left := Cancelled(items, walks, generation);
      var again := Scan(left, candidates, generation + |walks| + 1);
      Findings(again) == Findings(Scan(map[], candidates, 1)) <==> forall p :: !MissedChange(left, candidates, p)
  {
    CancelledKeepsTruth(items, walks, generation, truth);
    RescanIsFreshIff(Cancelled(items, walks, generation), candidates, generation + |walks| + 1, 1, truth);
  }

  // ------------------------------------------------------------- the rows that a scan leaves

  /** What a visit must make of a row: the same row with the new mark when the file is unchanged, else what validation
      said, unless the file changed meanwhile. */
  ghost predicate Revisited(row: Option<Item>, c: Candidate, generation: nat, now: Item) {
    if row.Some? && row.value.snapshot == c.before && row.value.verdict.status != Blocking
    then now == row.value.(generation := generation)
    else
      && now.generation == generation
      && now.snapshot == (match c.after case Some(after) => after case None => c.before)
      && now.verdict == (if c.after == Some(c.before) then c.verdict else Verdict(Blocking, ChangedDuringScan, 0))
  }

  /** A walk changes the rows of the paths that it reached. */
  ghost predicate WalkLeaves(items: Items, candidates: seq<Candidate>, frozen: bool, generation: nat, now: Items) {
    forall p ::
      if p in Paths(candidates) && (p in items || !frozen)
      then p in now && Revisited(Row(items, p), First(candidates, p), generation, now[p])
      else Row(now, p) == Row(items, p)
  }

  /** A completed scan sweeps the others: they go, or, when the batch is frozen, lose their source. */
  ghost predicate ScanLeaves(items: Items, candidates: seq<Candidate>, frozen: bool, generation: nat, now: Items) {
    if frozen then
      && now.Keys == items.Keys
      && forall p :: p in items ==>
           if p in Paths(candidates) then Revisited(Some(items[p]), First(candidates, p), generation, now[p])
           else if items[p].verdict.status == Rejected then now[p] == items[p]
           else now[p] == items[p].(verdict := Verdict(Blocking, SourceMissing, items[p].verdict.checksum))
    else
      && now.Keys == Paths(candidates)
      && forall p :: p in now ==> Revisited(Row(items, p), First(candidates, p), generation, now[p])
  }

  lemma WalkLeft(items: Items, candidates: seq<Candidate>, frozen: bool, generation: nat)
    ensures WalkLeaves(items, candidates, frozen, generation, Walked(items, candidates, frozen, generation))
  {
    var walked := Walked(items, candidates, frozen, generation);
    forall p
      ensures Row(walked, p) == if p in Paths(candidates) && (p in items || !frozen)
                                then Some(Visited(Row(items, p), First(candidates, p), generation)) else Row(items, p)
    {
      WalkedRow(items, candidates, frozen, generation, p);
    }
    hide Walked, Paths, First;
  }

  lemma ScanLeft(items: Items, candidates: seq<Candidate>, frozen: bool, generation: nat)
    requires SeenBefore(items, generation)
    ensures ScanLeaves(items, candidates, frozen, generation,
                       Swept(Walked(items, candidates, frozen, generation), frozen, generation))
  {
    WalkLeft(items, candidates, frozen, generation);
    hide Walked, Paths, First;
    var walked := Walked(items, candidates, frozen, generation);
    var swept := Swept(walked, frozen, generation);
    forall p ensures p in walked <==> p in items || (p in Paths(candidates) && !frozen) {
      assert p in walked <==> Row(walked, p).Some?;
    }
  }

  /** A frozen batch lost a file that it needs. */
  ghost predicate LacksFile(items: Items, candidates: seq<Candidate>) {
    exists p :: p in items && items[p].verdict.status != Rejected && p !in Paths(candidates)
  }

  lemma MissingFileBlocks(items: Items, candidates: seq<Candidate>, generation: nat, now: Items)
    requires ScanLeaves(items, candidates, true, generation, now) && LacksFile(items, candidates)
    ensures BlockingRows(now) != {} && !Intact(items, candidates)
    ensures forall byteLimit :: !IsUploadable(now, byteLimit)
  {
    var p :| p in items && items[p].verdict.status != Rejected && p !in Paths(candidates);
    assert p in BlockingRows(now);
  }

  // ------------------------------------------------------------- frozen batches

  /** The rows whose files were looked at again because they differed. */
  ghost function Revalidated(items: Items, candidates: seq<Candidate>): set<Path> {
    set p | p in items && p in Paths(candidates) && !Unchanged(items[p], First(candidates, p).before)
  }

  /** The rows that a sweep takes away or blocks. */
  function Lost(items: Items, frozen: bool, generation: nat): set<Path> {
    set p | p in items && items[p].generation != generation && (frozen ==> items[p].verdict.status != Rejected)
  }

  function BlockingRows(items: Items): set<Path> {
    set p | p in items && items[p].verdict.status == Blocking
  }

  /** Every accepted row was seen with its snapshot; a rejected one was, or is gone; and none was blocking. */
  ghost predicate Intact(items: Items, candidates: seq<Candidate>) {
    forall p :: p in items ==>
      && items[p].verdict.status != Blocking
      && (p in Paths(candidates) ==> First(candidates, p).before == items[p].snapshot)
      && (items[p].verdict.status == Accepted ==> p in Paths(candidates))
  }

  ghost function KnownRow(items: Items, candidates: seq<Candidate>, generation: nat, p: Path): Item
    requires p in items
  {
    if p in Paths(candidates) then Visited(Some(items[p]), First(candidates, p), generation) else items[p]
  }

  /** A scan of a frozen batch adds no row and removes none; it finds nothing to review exactly when the batch
      is intact, and then no row changes, checksums included. */
  lemma FrozenScan(items: Items, candidates: seq<Candidate>, generation: nat)
    requires SeenBefore(items, generation)
    ensures
      var walked := Walked(items, candidates, true, generation);
      var swept := Swept(walked, true, generation);
      && swept.Keys == walked.Keys == items.Keys
      && ScanLeaves(items, candidates, true, generation, swept)
      && (LacksFile(items, candidates) ==> BlockingRows(swept) != {})
      && ((Revalidated(items, candidates) == {} && Lost(walked, true, generation) == {} && BlockingRows(swept) == {})
            <==> Intact(items, candidates))
      && (Intact(items, candidates) ==> Findings(swept) == Findings(items))
  {
    var walked := Walked(items, candidates, true, generation);
    var swept := Swept(walked, true, generation);
    forall p
      ensures p in walked <==> p in items
      ensures p in items ==> walked[p] == KnownRow(items, candidates, generation, p)
    {
      WalkedRow(items, candidates, true, generation, p);
      assert (p in walked ==> Row(walked, p) == Some(walked[p])) && (p in items ==> Row(items, p) == Some(items[p]));
    }
    ScanLeft(items, candidates, true, generation);
    hide ScanLeaves, LacksFile, Intact, Walked, Swept, Paths, BlockingRows;
    FrozenRows(items, candidates, generation, walked);
    if LacksFile(items, candidates) { MissingFileBlocks(items, candidates, generation, swept); }
  }

  lemma FrozenRows(items: Items, candidates: seq<Candidate>, generation: nat, walked: Items)
    requires SeenBefore(items, generation) && walked.Keys == items.Keys
    requires forall p :: p in items ==> walked[p] == KnownRow(items, candidates, generation, p)
    ensures
      var swept := Swept(walked, true, generation);
      && ((Revalidated(items, candidates) == {} && Lost(walked, true, generation) == {} && BlockingRows(swept) == {})
            <==> Intact(items, candidates))
      && (Intact(items, candidates) ==> Findings(swept) == Findings(items))
  {
    var swept := Swept(walked, true, generation);
    var revalidated, lost := Revalidated(items, candidates), Lost(walked, true, generation);
    if revalidated == {} && lost == {} && BlockingRows(swept) == {} {
      forall p | p in items
        ensures items[p].verdict.status != Blocking
        ensures p in Paths(candidates) ==> First(candidates, p).before == items[p].snapshot
        ensures items[p].verdict.status == Accepted ==> p in Paths(candidates)
      {
        assert p !in revalidated && p !in lost && p !in BlockingRows(swept);
      }
    }
    if Intact(items, candidates) {
      assert forall p :: p in items ==> swept[p].verdict == items[p].verdict && swept[p].snapshot == items[p].snapshot;
    }
  }

  function AcceptedRows(items: Items): set<Path> {
    set p | p in items && items[p].verdict.status == Accepted
  }

  function SizesOf(items: Items): map<Path, nat> {
    map p | p in items :: items[p].snapshot.size
  }

  /** No row blocks, some photo was accepted, and the accepted ones are within the allowance. */
  ghost predicate IsUploadable(items: Items, byteLimit: nat) {
    && (forall p :: p in items ==> items[p].verdict.status != Blocking)
    && (exists p :: p in items && items[p].verdict.status == Accepted)
    && Total(AcceptedRows(items), SizesOf(items)) <= byteLimit
  }

  /** What is to be done for a photo once its batch is reserved. */
  datatype Kind = Original | Preview | Thumbnail | Faces

  datatype Work = Work(path: Path, kind: Kind)

  datatype WorkState = Waiting | Running | Done | Failed | Excluded

  datatype Checkpoint = Checkpoint(state: WorkState, attempts: nat)

  function WorkOf(photos: set<Path>): set<Work> {
    set p, kind: Kind | p in photos :: Work(p, kind)
  }

  // ------------------------------------------------------------- the scan

  /** The local record of one contribution. */
  class Batch {
    var state: BatchState
    var frozen: bool
    var generation: nat
    var items: Items
    var checkpoints: map<Work, Checkpoint>

    predicate Valid()
      reads this
    {
      SeenBefore(items, generation + 1)
    }

    constructor ()
      ensures Valid() && state == Draft && !frozen && items == map[] && checkpoints == map[]
    {
      state, frozen, generation, items, checkpoints := Draft, false, 0, map[], map[];
    }

    /** A scan starts unless the server knows the contribution already. */
    method StartScan() returns (ok: bool)
      modifies this`state, this`generation
      ensures ok <==> old(state) !in {Reserved, Uploading, Complete, NotIncluded}
      ensures ok ==> state == Scanning && generation == old(generation) + 1
      ensures !ok ==> state == old(state) && generation == old(generation)
    {
      if state in {Reserved, Uploading, Complete, NotIncluded} {
        return false;
      }
      generation := generation + 1;
      state := Scanning;
      ok := true;
    }

    /** Visits one candidate; tells whether a row was looked at again because its file differed. */
    method Visit(c: Candidate) returns (changed: bool)
      modifies this`items
      ensures items == if frozen && c.path !in old(items) then old(items)
                       else old(items)[c.path := Visited(Row(old(items), c.path), c, generation)]
      ensures changed <==> c.path in old(items) && !Unchanged(old(items)[c.path], c.before)
    {
      if frozen && c.path !in items {
        return false;
      }
      if c.path in items && Unchanged(items[c.path], c.before) {
        items := items[c.path := items[c.path].(generation := generation)];
        return false;
      }
      changed := c.path in items;
      items := items[c.path := Fresh(c, generation)];
    }

    /** Visits candidates up to the point where the scan ends or is cancelled; counts the rows that differed. */
    method VisitUntil(candidates: seq<Candidate>, stop: nat) returns (changed: nat)
      requires stop <= |candidates|
      modifies this`items
      ensures items == Walked(old(items), candidates[..stop], frozen, generation)
      ensures changed == |Revalidated(old(items), candidates[..stop])|
    {
      hide Walked, Paths, Revalidated, Unchanged, Visited;
      ghost var first := items;
      NoCandidates(first, frozen, generation);
      assert candidates[..0] == [];
      var seen: set<Path> := {};
      changed := 0;
      for i := 0 to stop
        invariant seen == Paths(candidates[..i])
        invariant items == Walked(first, candidates[..i], frozen, generation)
        invariant changed == |Revalidated(first, candidates[..i])|
      {
        var c := candidates[i];
        OneMoreCandidate(first, candidates, i, frozen, generation);
        if c.path !in seen {
          seen := seen + {c.path};
          var differs := Visit(c);
          if differs { changed := changed + 1; }
        }
      }
    }

    /** Sweeps after a completed walk and decides whether somebody must look at the batch. */
    method Finish(candidates: seq<Candidate>, changed: nat, issues: nat, ghost first: Items)
      requires SeenBefore(first, generation)
      requires items == Walked(first, candidates, frozen, generation) && changed == |Revalidated(first, candidates)|
      modifies this`items, this`state
      ensures items == Swept(old(items), frozen, generation)
      ensures state == if frozen && issues == 0 && Intact(first, candidates) then Approved else NeedsReview
    {
      hide Walked, Swept, Intact, Revalidated, Lost, BlockingRows, Paths;
      var total := changed + |Lost(items, frozen, generation)|;
      if frozen { FrozenScan(first, candidates, generation); }
      items := Swept(items, frozen, generation);
      var review := !frozen || total > 0 || |BlockingRows(items)| > 0 || issues > 0;
      state := if review then NeedsReview else Approved;
    }

    /** Approves a reviewed batch and freezes it: from then on no scan adds or removes a row. */
    method Approve(issues: nat, profileMatches: bool, byteLimit: nat) returns (ok: bool)
      requires Valid()
      modifies this`state, this`frozen
      ensures Valid()
      ensures ok <==>
        old(state) == NeedsReview && issues == 0 && profileMatches && IsUploadable(items, byteLimit)
      ensures if ok then state == Approved && frozen else state == old(state) && frozen == old(frozen)
    {
      var accepted := AcceptedRows(items);
      ApprovalRows(items, byteLimit);
      var bytes := SumUp(accepted, SizesOf(items));
      ok := state == NeedsReview && |BlockingRows(items)| == 0 && issues == 0 && accepted != {} && profileMatches
            && bytes <= byteLimit;
      if ok {
        state := Approved;
        frozen := true;
      }
    }

    /** Hands an approved batch over to the upload; after that no scan starts any more. Every accepted photo has
        its checkpoints from then on, and repeating the hand-over loses no progress. */
    method MarkReserved() returns (ok: bool)
      modifies this`state, this`checkpoints
      ensures ok <==> old(state) in {Approved, Reserved, Uploading}
      ensures ok ==> state == (if old(state) == Approved then Reserved else old(state)) && state in {Reserved, Uploading}
      ensures ok ==>
        forall p, kind :: p in items && items[p].verdict.status == Accepted ==> Work(p, kind) in checkpoints
      ensures forall w :: w in old(checkpoints) ==> w in checkpoints && checkpoints[w] == old(checkpoints)[w]
      ensures forall w :: w in checkpoints && w !in old(checkpoints) ==>
        && ok && w.path in items && items[w.path].verdict.status == Accepted
        && checkpoints[w] == Checkpoint(Waiting, 0)
      ensures !ok ==> state == old(state)
    {
      if state !in {Approved, Reserved, Uploading} {
        return false;
      }
      if state == Approved { state := Reserved; }
      var created := map w | w in WorkOf(AcceptedRows(items)) :: Checkpoint(Waiting, 0);
      checkpoints := created + checkpoints;
      ok := true;
    }

    /** Scans the discovered candidates, of which the first `reached` are visited before a cancellation.
        `issues` counts the blocking issues that discovery reported. */
    method Rescan(candidates: seq<Candidate>, reached: nat, issues: nat) returns (ok: bool)
      requires Valid()
      modifies this
      ensures Valid() && frozen == old(frozen)
      ensures ok <==> old(state) !in {Reserved, Uploading, Complete, NotIncluded}
      ensures !ok ==> state == old(state) && items == old(items)
      ensures ok ==> generation == old(generation) + 1
      ensures ok && reached < |candidates| ==>
        state == Paused && items == Walked(old(items), candidates[..reached], frozen, generation)
      ensures ok && reached < |candidates| ==> WalkLeaves(old(items), candidates[..reached], frozen, generation, items)
      ensures ok && reached >= |candidates| ==>
        items == Swept(Walked(old(items), candidates, frozen, generation), frozen, generation)
      ensures ok && reached >= |candidates| ==> ScanLeaves(old(items), candidates, frozen, generation, items)
      ensures ok && reached >= |candidates| && frozen && LacksFile(old(items), candidates) ==>
        state == NeedsReview && forall byteLimit :: !IsUploadable(items, byteLimit)
      ensures ok && reached >= |candidates| ==>
        state == if frozen && issues == 0 && Intact(old(items), candidates) then Approved else NeedsReview
    {
      hide Walked, Intact, Revalidated, Paths, Swept, SeenBefore, ScanLeaves, WalkLeaves, LacksFile, BlockingRows,
           IsUploadable;
      ok := StartScan();
      if !ok {
        return;
      }
      ghost var first := items;
      var stop := if reached < |candidates| then reached else |candidates|;
      var changed := VisitUntil(candidates, stop);
      WalkIsNotAhead(first, candidates[..stop], frozen, generation);
      WalkLeft(first, candidates[..stop], frozen, generation);
      if reached < |candidates| {
        state := Paused;
        return;
      }
      assert candidates[..stop] == candidates;
      SweepIsNotAhead(items, frozen, generation);
      Finish(candidates, changed, issues, first);
      ScanLeft(first, candidates, frozen, generation);
      if frozen && LacksFile(first, candidates) { MissingFileBlocks(first, candidates, generation, items); }
    }
  }

  lemma ApprovalRows(items: Items, byteLimit: nat)
    ensures forall p :: p in AcceptedRows(items) <==> p in items && items[p].verdict.status == Accepted
    ensures SizesOf(items).Keys == items.Keys && forall p :: p in items ==> SizesOf(items)[p] == items[p].snapshot.size
    ensures IsUploadable(items, byteLimit) <==>
      && |BlockingRows(items)| == 0 && AcceptedRows(items) != {}
      && Total(AcceptedRows(items), SizesOf(items)) <= byteLimit
  {
    if BlockingRows(items) != {} {
      var p :| p in BlockingRows(items);
      assert |BlockingRows(items) - {p}| == |BlockingRows(items)| - 1;
    } else {
      forall p | p in items ensures items[p].verdict.status != Blocking { assert p !in BlockingRows(items); }
    }
    assert AcceptedRows(items) != {} <==> exists p :: p in AcceptedRows(items);
  }

  lemma SweepIsNotAhead(items: Items, frozen: bool, generation: nat)
    requires SeenBefore(items, generation + 1)
    ensures SeenBefore(Swept(items, frozen, generation), generation + 1)
  {}

  lemma NoCandidates(items: Items, frozen: bool, generation: nat)
    ensures Paths([]) == {} && Walked(items, [], frozen, generation) == items && |Revalidated(items, [])| == 0
  {}

  /** What one more candidate adds to a walk. */
  lemma OneMoreCandidate(items: Items, candidates: seq<Candidate>, i: nat, frozen: bool, generation: nat)
    requires i < |candidates|
    ensures
      var c, before, after := candidates[i], candidates[..i], candidates[..i + 1];
      var walked := Walked(items, before, frozen, generation);
      && Paths(after) == Paths(before) + {c.path}
      && (c.path !in Paths(before) ==> Row(walked, c.path) == Row(items, c.path))
      && Walked(items, after, frozen, generation) ==
           (if c.path in Paths(before) || (frozen && c.path !in walked) then walked
            else walked[c.path := Visited(Row(walked, c.path), c, generation)])
      && |Revalidated(items, after)| == |Revalidated(items, before)| +
           (if c.path !in Paths(before) && c.path in items && !Unchanged(items[c.path], c.before) then 1 else 0)
  {
    hide Unchanged, Visited;
    var c, before, after := candidates[i], candidates[..i], candidates[..i + 1];
    assert after[..|after| - 1] == before && after[|after| - 1] == c;
    PathsOfPrefix(after);
    WalkedRow(items, before, frozen, generation, c.path);
    forall p ensures p in Paths(before) ==> First(after, p) == First(before, p)
             ensures p !in Paths(before) && p == c.path ==> First(after, p) == c {
      FirstOfPrefix(after, p);
    }
    OneMoreRevalidated(items, before, after, c);
  }

  lemma OneMoreRevalidated(items: Items, before: seq<Candidate>, after: seq<Candidate>, c: Candidate)
    requires Paths(after) == Paths(before) + {c.path}
    requires forall p :: p in Paths(before) ==> First(after, p) == First(before, p)
    requires c.path !in Paths(before) ==> First(after, c.path) == c
    ensures |Revalidated(items, after)| == |Revalidated(items, before)| +
      (if c.path !in Paths(before) && c.path in items && !Unchanged(items[c.path], c.before) then 1 else 0)
  {
    hide Paths, Unchanged, First;
    var more := c.path !in Paths(before) && c.path in items && !Unchanged(items[c.path], c.before);
    assert Revalidated(items, after) == Revalidated(items, before) + if more then {c.path} else {};
  }
}
