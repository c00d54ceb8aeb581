/** The upload loop for originals against a server and an object store that anything may happen to: sync, ask
    for leases, upload a wave, and again. */
module UploadLoop {
  import opened Prelude
  import opened Tallies

  const MAX_ATTEMPTS: nat := 5

  type Id = nat

  datatype Local = Pending | Uploading | Verified | Failed | Excluded

  /** The state of an original on the server; a purge takes it off the record. */
  datatype Server = Waiting | Rejected | Stored | Dropped | Purged

  /** One photo beyond the desktop: its state, the object under its key (and whether that is the one reserved),
      and whether the answer of a successful completion is on record under its operation key. */
  datatype Remote = Remote(state: Server, blob: Option<bool>, recorded: bool)

  // ------------------------------------------------------------- the server's side

  datatype Reply = Done | Refused(retryable: bool)

  /** What the others do to a photo: commands that move its state, changes in the store, records that expire, and
      the second halves of completions that looked at the store before. */
  datatype Event =
    | Moved(to: Server)
    | ObjectChanged(blob: Option<bool>)
    | RecordGone
    | Completing(matches: bool, deletes: bool, kept: bool)

  /** The server never takes back what it stored, except that publication drops unfinished contributions; what
      a purge took does not come back. */
  predicate Advances(before: Server, now: Server) {
    && (before == Stored ==> now in {Stored, Dropped, Purged})
    && (before == Dropped ==> now in {Dropped, Purged})
    && (before == Purged ==> now == Purged)
  }

  predicate IsSettled(s: Server) { s in {Stored, Dropped, Purged} }

  /** The locked half of a completion, after the store showed an object that matches or not. An unwanted object
      is deleted first, unless the store refuses; an answer may fail to be recorded. */
  function Locked(r: Remote, matches: bool, deletes: bool, kept: bool): (Remote, Reply) {
    match r.state
    case Stored => (r.(recorded := r.recorded || kept), Done)
    case Purged => (r, Refused(false))
    case Dropped => if deletes then (r.(blob := None), Refused(false)) else (r, Refused(true))
    case _ =>
      if matches then (r.(state := Stored, recorded := r.recorded || kept), Done)
      else if deletes then (r.(state := Rejected, blob := None), Refused(false))
      else (r, Refused(true))
  }

  function Happens(r: Remote, e: Event): Remote {
    match e
    case Moved(to) => if Advances(r.state, to) then r.(state := to) else r
    case ObjectChanged(blob) => r.(blob := blob)
    case RecordGone => r.(recorded := false)
    case Completing(matches, deletes, kept) => Locked(r, matches, deletes, kept).0
  }

  function Drift(r: Remote, events: seq<Event>): Remote
    decreases |events|
  {
    if events == [] then r else Drift(Happens(r, events[0]), events[1..])
  }

  /** A completion as the server executes it: whether the store answers, what happens before the row is locked,
      whether an unwanted object can be deleted, and whether the answer is recorded. */
  datatype Request = Request(answers: bool, between: seq<Event>, deletes: bool, kept: bool)

  function Complete(r: Remote, request: Request): (Remote, Reply) {
    if r.recorded then (r, Done)
    else if IsSettled(r.state) then Locked(r, false, request.deletes, request.kept)
    else if !request.answers || r.blob.None? then (r, Refused(true))
    else Locked(Drift(r, request.between), r.blob.value, request.deletes, request.kept)
  }

  // ------------------------------------------------------------- one upload

  datatype Source = Unchanged | Changed | Unreadable

  datatype Put = Cut | Answered(status: nat, intact: bool)

  /** A completion request is refused or lost on its way, or executed; then its answer may be lost. */
  datatype Reach = NotReached(retryable: bool) | Reached(request: Request, lost: Option<bool>)

  /** One upload as the world lets it go: the file, the PUT and what the store keeps of it, the completion, and
      what happens to the photo meanwhile. */
  datatype Exchange = Exchange(
    source: Source, before: seq<Event>, put: Put, keeps: Option<bool>, pause: seq<Event>, completion: Reach)

  datatype Result = Confirmed | Failing(retryable: bool)

  /** The store never overwrites. */
  function AfterPut(r: Remote, keeps: Option<bool>): Remote {
    if r.blob.None? then r.(blob := keeps) else r
  }

  predicate IsRetryable(status: nat) { status in {408, 429} || status >= 500 }

  predicate IsAccepted(status: nat) { status in {200, 201, 204, 412} }

  function Asked(r: Remote, completion: Reach): (Remote, Result) {
    match completion
    case NotReached(retryable) => (r, Failing(retryable))
    case Reached(request, lost) =>
      var (after, reply) := Complete(r, request);
      if lost.Some? then (after, Failing(lost.value))
      else if reply.Refused? then (after, Failing(reply.retryable))
      else if r.recorded || request.kept then (after, Confirmed)
      else (after, Failing(false))
  }

  function Transfer(r: Remote, x: Exchange): (Remote, Result) {
    var found := Drift(r, x.before);
    var put := AfterPut(found, x.keeps);
    if x.source != Unchanged then (found, Failing(x.source == Unreadable))
    else if x.put.Cut? then (put, Failing(true))
    else if x.put.status != 412 && !x.put.intact then (put, Failing(false))
    else if !IsAccepted(x.put.status) then (put, Failing(IsRetryable(x.put.status)))
    else Asked(Drift(put, x.pause), x.completion)
  }

  // ------------------------------------------------------------- what the server keeps

  /** An answer is on record only for what was stored. */
  predicate Fits(r: Remote) { r.recorded ==> IsSettled(r.state) }

  /** From one moment to a later one. */
  predicate Follows(before: Remote, now: Remote) {
    Advances(before.state, now.state) && (Fits(before) ==> Fits(now))
  }

  lemma LockedFollows(r: Remote, matches: bool, deletes: bool, kept: bool)
    ensures Follows(r, Locked(r, matches, deletes, kept).0)
    ensures Locked(r, matches, deletes, kept).1 == Done ==> IsSettled(Locked(r, matches, deletes, kept).0.state)
  {}

  lemma {:induction false} DriftFollows(r: Remote, events: seq<Event>)
    ensures Follows(r, Drift(r, events))
    decreases |events|
  {
    if events != [] {
      if events[0].Completing? { LockedFollows(r, events[0].matches, events[0].deletes, events[0].kept); }
      DriftFollows(Happens(r, events[0]), events[1..]);
    }
  }

  lemma CompletionFollows(r: Remote, request: Request)
    requires Fits(r)
    ensures Follows(r, Complete(r, request).0)
    ensures Complete(r, request).1 == Done ==> IsSettled(Complete(r, request).0.state)
  {
    hide Locked, Drift;
    LockedFollows(r, false, request.deletes, request.kept);
    DriftFollows(r, request.between);
    if r.blob.Some? {
      LockedFollows(Drift(r, request.between), r.blob.value, request.deletes, request.kept);
    }
  }

  /** Whatever happens meanwhile, the server only advances, and an upload that the desktop takes for confirmed is
      stored, or was stored and dropped or purged since. */
  lemma TransferFollows(r: Remote, x: Exchange)
    requires Fits(r)
    ensures Follows(r, Transfer(r, x).0)
    ensures Transfer(r, x).1 == Confirmed ==> IsSettled(Transfer(r, x).0.state)
  {
    hide Complete, Drift;
    var found := Drift(r, x.before);
    DriftFollows(r, x.before);
    DriftFollows(AfterPut(found, x.keeps), x.pause);
    if x.completion.Reached? {
      CompletionFollows(Drift(AfterPut(found, x.keeps), x.pause), x.completion.request);
    }
  }

  /** The photo as the completion request finds it. */
  function Found(r: Remote, x: Exchange): Remote {
    Drift(AfterPut(Drift(r, x.before), x.keeps), x.pause)
  }

  /** The request that completes a photo succeeds: its answer is on record, the photo is stored already, or the
      store shows the right object and nobody drops or purges the photo before the row is locked. */
  predicate Succeeds(r: Remote, request: Request) {
    || r.recorded
    || r.state == Stored
    || (&& !IsSettled(r.state) && request.answers && r.blob.Some?
        && var locked := Drift(r, request.between).state;
           locked == Stored || (!IsSettled(locked) && r.blob.value))
  }

  /** Exactly when an upload is confirmed: the file is unchanged, the PUT went through or found the object there
      already, and the completion succeeded, was answered, and its answer is on record. */
  lemma ConfirmedIff(r: Remote, x: Exchange)
    ensures Transfer(r, x).1 == Confirmed <==>
      && x.source == Unchanged
      && x.put.Answered? && (x.put.status == 412 || (x.put.intact && x.put.status in {200, 201, 204}))
      && x.completion.Reached? && x.completion.lost.None?
      && Succeeds(Found(r, x), x.completion.request)
      && (Found(r, x).recorded || x.completion.request.kept)
  {
    hide Drift;
  }

  /** The completion is refused for good: the photo was purged, or it was dropped or the store showed a wrong object,
      and what is unwanted was deleted. */
  predicate RefusedForGood(r: Remote, request: Request) {
    && !r.recorded
    && (|| r.state == Purged
        || (r.state == Dropped && request.deletes)
        || (&& r.state in {Waiting, Rejected} && request.answers && r.blob.Some?
            && var locked := Drift(r, request.between).state;
               || locked == Purged
               || (request.deletes && (locked == Dropped || (locked in {Waiting, Rejected} && r.blob == Some(false))))))
  }

  /** Exactly when an upload fails for good, so that the loop gives up: the file changed, other bytes were sent, the
      store refused for good, or the completion was refused for good or its answer could not be recorded. */
  lemma FailsForGoodIff(r: Remote, x: Exchange)
    ensures Transfer(r, x).1 == Failing(false) <==>
      || x.source == Changed
      || (&& x.source == Unchanged && x.put.Answered?
          && (|| (x.put.status != 412 && !x.put.intact)
              || (x.put.status !in {200, 201, 204, 412, 408, 429} && x.put.status < 500)
              || (&& x.put.status in {200, 201, 204, 412}
                  && match x.completion
                     case NotReached(retryable) => !retryable
                     case Reached(request, Some(retryable)) => !retryable
                     case Reached(request, None) =>
                       || RefusedForGood(Found(r, x), request)
                       || (Succeeds(Found(r, x), request) && !Found(r, x).recorded && !request.kept))))
  {
    hide Drift;
  }

  /** An upload that nothing disturbs stores an awaited photo, unless a wrong object lies under its key. */
  lemma PlainUploadStores(r: Remote, x: Exchange)
    requires r.state in {Waiting, Rejected} && Fits(r) && r.blob != Some(false)
    requires x == Exchange(Unchanged, [], Answered(200, true), Some(true), [], Reached(Request(true, [], true, true), None))
    ensures Transfer(r, x) == (Remote(Stored, Some(true), true), Confirmed)
  {}

  /** A reply that was lost does not lose the photo: if the completion succeeded, the next sync finds it settled,
      whatever happens in between, and the attempt counts as one that may be repeated. */
  lemma LostReplyIsFound(r: Remote, x: Exchange, later: seq<Event>)
    requires Fits(r)
    requires x.source == Unchanged && x.put.Answered? && IsAccepted(x.put.status) && (x.put.status == 412 || x.put.intact)
    requires x.completion.Reached? && x.completion.lost == Some(true) && Succeeds(Found(r, x), x.completion.request)
    ensures Transfer(r, x).1 == Failing(true)
    ensures IsSettled(Drift(Transfer(r, x).0, later).state)
  {
    hide Drift;
    var found := Drift(r, x.before);
    DriftFollows(r, x.before);
    DriftFollows(AfterPut(found, x.keeps), x.pause);
    CompletionFollows(Found(r, x), x.completion.request);
    DriftFollows(Transfer(r, x).0, later);
  }

  /** A PUT that was cut after the store had kept the right bytes is made good by the next attempt, which is told
      412 and completes. */
  lemma CutPutIsMadeGood(r: Remote, x: Exchange, y: Exchange)
    requires r.state in {Waiting, Rejected} && !r.recorded && r.blob.None?
    requires x.source == Unchanged && x.before == [] && x.put.Cut? && x.keeps == Some(true)
    requires y.source == Unchanged && y.before == y.pause == [] && y.put.Answered? && y.put.status == 412
    requires y.completion == Reached(Request(true, [], true, true), None)
    ensures Transfer(r, x).1 == Failing(true)
    ensures Transfer(Transfer(r, x).0, y).1 == Confirmed && Transfer(Transfer(r, x).0, y).0.state == Stored
  {}

  // ------------------------------------------------------------- the desktop's side

  predicate IsTerminal(s: Local) { s in {Verified, Excluded} }

  /** What a sync makes of a checkpoint. */
  function Synced(local: Local, server: Server): Local {
    match server
    case Stored => Verified
    case Rejected => Failed
    case Dropped => Excluded
    case Waiting => local
    case Purged => local
  }

  /** A checkpoint is not ahead of the server. */
  predicate Behind(local: Local, server: Server) {
    && (local == Verified ==> IsSettled(server))
    && (local == Excluded ==> server in {Dropped, Purged})
  }

  ghost predicate NotAhead(local: map<Id, Local>, remote: map<Id, Remote>)
    requires local.Keys == remote.Keys
  {
    forall id :: id in remote ==> Fits(remote[id]) && Behind(local[id], remote[id].state)
  }

  function SyncedAll(local: map<Id, Local>, remote: map<Id, Remote>): map<Id, Local> {
    map id | id in local :: if id in remote then Synced(local[id], remote[id].state) else local[id]
  }

  lemma SyncIsNotAhead(local: map<Id, Local>, remote: map<Id, Remote>)
    requires local.Keys == remote.Keys && NotAhead(local, remote)
    ensures NotAhead(SyncedAll(local, remote), remote)
  {}

  lemma OneIsNotAhead(local: map<Id, Local>, remote: map<Id, Remote>, id: Id, now: Local, r: Remote)
    requires local.Keys == remote.Keys && NotAhead(local, remote) && id in local && Fits(r) && Behind(now, r.state)
    ensures NotAhead(local[id := now], remote[id := r])
  {}

  lemma MemberFits(local: map<Id, Local>, remote: map<Id, Remote>, id: Id)
    requires local.Keys == remote.Keys && NotAhead(local, remote) && id in local
    ensures Fits(remote[id])
  {}

  function DriftAll(remote: map<Id, Remote>, events: map<Id, seq<Event>>): map<Id, Remote> {
    map id | id in remote :: if id in events then Drift(remote[id], events[id]) else remote[id]
  }

  lemma DriftIsNotAhead(local: map<Id, Local>, remote: map<Id, Remote>, events: map<Id, seq<Event>>)
    requires local.Keys == remote.Keys && NotAhead(local, remote)
    ensures DriftAll(remote, events).Keys == remote.Keys && NotAhead(local, DriftAll(remote, events))
  {
    hide Drift;
    forall id | id in events && id in remote ensures Follows(remote[id], Drift(remote[id], events[id])) {
      DriftFollows(remote[id], events[id]);
    }
  }

  /** A lease brings a rejected original back. */
  function LeasedAll(remote: map<Id, Remote>, leases: set<Id>): map<Id, Remote> {
    map id | id in remote ::
      if id in leases && remote[id].state == Rejected then remote[id].(state := Waiting) else remote[id]
  }

  lemma LeaseIsNotAhead(local: map<Id, Local>, remote: map<Id, Remote>, leases: set<Id>)
    requires local.Keys == remote.Keys && NotAhead(local, remote)
    ensures LeasedAll(remote, leases).Keys == remote.Keys && NotAhead(local, LeasedAll(remote, leases))
  {}

  /** The originals that are neither stored nor excluded. */
  function Open(local: map<Id, Local>): set<Id> {
    set id | id in local && !IsTerminal(local[id])
  }

  /** Those of them that have attempts left. */
  function Retryable(local: map<Id, Local>, attempts: map<Id, nat>): set<Id>
    requires local.Keys == attempts.Keys
  {
    set id | id in Open(local) && attempts[id] < MAX_ATTEMPTS
  }

  ghost predicate AllSettled(remote: map<Id, Remote>) {
    forall id :: id in remote ==> IsSettled(remote[id].state)
  }

  /** A finished batch is settled on the server, photo by photo. */
  lemma FinishedIsSettled(local: map<Id, Local>, remote: map<Id, Remote>)
    requires local.Keys == remote.Keys && NotAhead(local, remote) && Open(local) == {}
    ensures AllSettled(remote)
  {
    forall id | id in remote ensures IsSettled(remote[id].state) {
      assert id !in Open(local) && Behind(local[id], remote[id].state);
    }
  }

  /** Some original used all its attempts, and every open one did. */
  predicate UsedUp(local: map<Id, Local>, attempts: map<Id, nat>)
    requires local.Keys == attempts.Keys
  {
    Open(local) != {} && forall id :: id in Open(local) ==> attempts[id] >= MAX_ATTEMPTS
  }

  lemma NothingRetryable(local: map<Id, Local>, attempts: map<Id, nat>)
    requires local.Keys == attempts.Keys && Retryable(local, attempts) == {} && Open(local) != {}
    ensures UsedUp(local, attempts)
  {
    forall id | id in Open(local) ensures attempts[id] >= MAX_ATTEMPTS {
      assert id in Retryable(local, attempts) <==> attempts[id] < MAX_ATTEMPTS;
    }
  }

  // ------------------------------------------------------------- attempts

  function Remaining(attempts: map<Id, nat>): map<Id, nat> {
    map id | id in attempts :: if attempts[id] < MAX_ATTEMPTS then MAX_ATTEMPTS - attempts[id] else 0
  }

  /** The attempts that are left over all items. */
  ghost function Budget(attempts: map<Id, nat>): nat {
    Total(attempts.Keys, Remaining(attempts))
  }

  lemma OneAttempt(attempts: map<Id, nat>, id: Id)
    requires id in attempts && attempts[id] < MAX_ATTEMPTS
    ensures Budget(attempts[id := attempts[id] + 1]) == Budget(attempts) - 1
  {
    var later := attempts[id := attempts[id] + 1];
    assert later.Keys == attempts.Keys;
    TotalTakesOut(attempts.Keys, Remaining(attempts), id);
    TotalTakesOut(later.Keys, Remaining(later), id);
    TotalFrame(attempts.Keys - {id}, Remaining(attempts), Remaining(later));
  }

  lemma {:induction false} BudgetBound(ids: set<Id>, attempts: map<Id, nat>)
    requires ids <= attempts.Keys
    ensures Total(ids, Remaining(attempts)) <= MAX_ATTEMPTS * |ids|
    decreases ids
  {
    if ids != {} {
      var id :| id in ids;
      TotalTakesOut(ids, Remaining(attempts), id);
      BudgetBound(ids - {id}, attempts);
    }
  }

  /** The attempts after one more for each of `sent`. */
  function Counted(attempts: map<Id, nat>, sent: set<Id>): map<Id, nat> {
    map id | id in attempts :: if id in sent then attempts[id] + 1 else attempts[id]
  }

  /** A wave uses up as many attempts as it has uploads. */
  lemma {:induction false} WaveBudget(attempts: map<Id, nat>, sent: set<Id>)
    requires sent <= attempts.Keys && forall id :: id in sent ==> attempts[id] < MAX_ATTEMPTS
    ensures Budget(Counted(attempts, sent)) == Budget(attempts) - |sent|
    decreases sent
  {
    if sent == {} {
      assert Counted(attempts, sent) == attempts;
    } else {
      var id :| id in sent;
      WaveBudget(attempts, sent - {id});
      var before := Counted(attempts, sent - {id});
      OneAttempt(before, id);
      assert Counted(attempts, sent) == before[id := before[id] + 1];
    }
  }

  lemma NothingSent(attempts: map<Id, nat>)
    ensures Counted(attempts, {}) == attempts
  {}

  lemma OneMoreSent(attempts: map<Id, nat>, sent: set<Id>, id: Id)
    requires id in attempts && id !in sent
    ensures
      var before, now := Counted(attempts, sent), Counted(attempts, sent + {id});
      before.Keys == attempts.Keys && now == before[id := before[id] + 1]
  {}

  lemma AtMostFiveEach(attempts: map<Id, nat>)
    ensures Budget(attempts) <= MAX_ATTEMPTS * |attempts|
  {
    BudgetBound(attempts.Keys, attempts);
    assert |attempts.Keys| == |attempts|;
  }

  // ------------------------------------------------------------- a wave

  /** How one upload leaves the checkpoint and the photo, and whether it fails for good. */
  predicate Went(r: Remote, x: Exchange, checkpoint: Local, now: Remote) {
    && now == Transfer(r, x).0
    && checkpoint == if Transfer(r, x).1 == Confirmed then Verified else Failed
  }

  predicate FailsForGood(r: Remote, x: Exchange) {
    Transfer(r, x).1 == Failing(false)
  }

  // ------------------------------------------------------------- the loop

  /** One round of the world: what happens to the photos before the sync, whether the sync and the lease request
      are answered, whether the user cancelled, and which originals may get a lease and how their upload goes. */
  datatype Round = Round(
    events: map<Id, seq<Event>>, syncAnswers: bool, cancelled: bool, leasesAnswer: bool, granted: map<Id, Exchange>)

  datatype Outcome = Finished | Cancelled | Exhausted | NoWork | Broken | Unanswered

  /** The checkpoints with their attempts, and the photos beyond the desktop. */
  datatype Desk = Desk(local: map<Id, Local>, attempts: map<Id, nat>, remote: map<Id, Remote>)
  {
    ghost predicate Fits() { local.Keys == attempts.Keys == remote.Keys }
  }

  /** What a round comes across: the photos when it asks, the checkpoints that it then knows, which of them may be
      tried, which leases it asks for, and what it uploads. */
  datatype Course = Course(
    seen: map<Id, Remote>, known: map<Id, Local>, pending: set<Id>, requested: set<Id>, sent: set<Id>)

  /** A sync takes over what the server decided, and leaves the other checkpoints alone. */
  predicate TakesOver(before: Local, server: Server, now: Local) {
    now == match server
      case Stored => Verified
      case Dropped => Excluded
      case Rejected => Failed
      case _ => before
  }

  /** First everybody else moves, then the sync takes over what the server decided. */
  ghost predicate Meets(d: Desk, round: Round, seen: map<Id, Remote>, known: map<Id, Local>)
    requires d.Fits()
  {
    && seen.Keys == known.Keys == d.local.Keys
    && (forall id :: id in seen ==>
          seen[id] == if id in round.events then Drift(d.remote[id], round.events[id]) else d.remote[id])
    && (forall id :: id in known ==>
          if round.syncAnswers then TakesOver(d.local[id], seen[id].state, known[id]) else known[id] == d.local[id])
  }

  /** The originals that are neither stored nor excluded and have attempts left. */
  ghost predicate Tries(known: map<Id, Local>, attempts: map<Id, nat>, pending: set<Id>)
    requires known.Keys == attempts.Keys
  {
    forall id :: id in pending <==> id in known && known[id] !in {Verified, Excluded} && attempts[id] < 5
  }

  predicate Asks(round: Round, c: Course) {
    round.syncAnswers && c.pending != {} && !round.cancelled
  }

  /** Leases are asked for as many of them as may be transferred at once, and given to those that the server awaits. */
  ghost predicate Leases(round: Round, limit: nat, c: Course) {
    && c.requested <= c.pending
    && (Asks(round, c) ==> |c.requested| == if |c.pending| < limit then |c.pending| else limit)
    && (forall id :: id in c.sent <==>
          && Asks(round, c) && round.leasesAnswer && id in c.requested && id in round.granted
          && id in c.seen && c.seen[id].state in {Waiting, Rejected})
  }

  /** A lease makes a photo wait again. */
  function Awaited(r: Remote): Remote {
    r.(state := Waiting)
  }

  /** How a round ends, in the order in which it finds out. */
  ghost predicate Ends(round: Round, c: Course, outcome: Option<Outcome>)
    requires c.sent <= c.seen.Keys && c.sent <= round.granted.Keys
  {
    match outcome
    case Some(Unanswered) => !round.syncAnswers || (c.pending != {} && !round.cancelled && !round.leasesAnswer)
    case Some(Finished) => round.syncAnswers && forall id :: id in c.known ==> c.known[id] in {Verified, Excluded}
    case Some(Exhausted) =>
      round.syncAnswers && c.pending == {} && exists id :: id in c.known && c.known[id] !in {Verified, Excluded}
    case Some(Cancelled) => round.syncAnswers && c.pending != {} && round.cancelled
    case Some(NoWork) => round.syncAnswers && !round.cancelled && round.leasesAnswer && c.pending != {} && c.sent == {}
    case Some(Broken) =>
      round.syncAnswers && !round.cancelled && round.leasesAnswer
      && exists id :: id in c.sent && FailsForGood(Awaited(c.seen[id]), round.granted[id])
    case None =>
      round.syncAnswers && !round.cancelled && round.leasesAnswer && c.sent != {}
      && forall id :: id in c.sent ==> !FailsForGood(Awaited(c.seen[id]), round.granted[id])
  }

  /** A round that gets leases spends one attempt on each; otherwise it leaves what it came across. */
  ghost predicate Leaves(d: Desk, round: Round, c: Course, d': Desk, outcome: Option<Outcome>)
    requires d.Fits() && c.seen.Keys == c.known.Keys == d.local.Keys && c.sent <= c.seen.Keys && c.sent <= round.granted.Keys
  {
    && d'.Fits() && d'.local.Keys == d.local.Keys
    && forall id :: id in d.local ==>
         if SentWave(outcome) && id in c.sent
         then d'.attempts[id] == d.attempts[id] + 1
              && Went(Awaited(c.seen[id]), round.granted[id], d'.local[id], d'.remote[id])
         else d'.attempts[id] == d.attempts[id] && d'.local[id] == c.known[id] && d'.remote[id] == c.seen[id]
  }

  ghost predicate RoundGoes(d: Desk, round: Round, limit: nat, c: Course, d': Desk, outcome: Option<Outcome>) {
    && d.Fits() && Meets(d, round, c.seen, c.known) && Tries(c.known, d.attempts, c.pending) && Leases(round, limit, c)
    && Ends(round, c, outcome) && Leaves(d, round, c, d', outcome)
  }

  // ------------------------------------------------------------- a world in which everything works

  predicate IsAwaited(r: Remote) { r.state in {Waiting, Rejected} }

  /** The upload of a photo as it lies there is confirmed and stores it. */
  predicate Stores(r: Remote, x: Exchange) {
    Transfer(r, x).1 == Confirmed && Transfer(r, x).0.state == Stored
  }

  /** Every request is answered, nobody cancels or interferes, and each awaited photo may be leased and is stored when
      it is uploaded. */
  ghost predicate Welcomes(round: Round, remote: map<Id, Remote>) {
    && round.syncAnswers && round.leasesAnswer && !round.cancelled
    && (forall id :: id in round.events ==> round.events[id] == [])
    && (forall id :: id in remote && IsAwaited(remote[id]) ==>
          id in round.granted && Stores(Awaited(remote[id]), round.granted[id]))
  }

  /** No awaited photo has used up its attempts, and none was purged. */
  ghost predicate MayFinish(d: Desk) {
    d.Fits() && forall id :: id in d.remote ==>
      d.remote[id].state != Purged && (IsAwaited(d.remote[id]) ==> d.attempts[id] < MAX_ATTEMPTS)
  }

  /** Each awaited photo is as it was at first, or stored; the others are as they were. */
  ghost predicate OnCourse(first: Desk, d: Desk) {
    && first.Fits() && d.Fits() && d.remote.Keys == first.remote.Keys
    && forall id :: id in first.remote ==>
         || (d.remote[id] == first.remote[id] && d.attempts[id] == first.attempts[id])
         || (IsAwaited(first.remote[id]) && d.remote[id].state == Stored)
  }

  /** Whatever is still open can be tried, and if anything is, some of it is uploaded. */
  lemma WelcomedCourse(first: Desk, d: Desk, round: Round, limit: nat, c: Course)
    requires limit > 0 && MayFinish(first) && OnCourse(first, d) && Welcomes(round, first.remote)
    requires Meets(d, round, c.seen, c.known) && Tries(c.known, d.attempts, c.pending) && Leases(round, limit, c)
    ensures c.seen == d.remote
    ensures forall id :: id in c.known && c.known[id] !in {Verified, Excluded} ==> id in c.pending
    ensures forall id :: id in c.pending ==> id in first.remote && c.seen[id] == first.remote[id] && IsAwaited(c.seen[id])
    ensures c.pending != {} ==> c.sent != {}
    ensures c.sent <= c.pending
  {
    hide Welcomes;
    Uninterfered(d, round, first.remote, c);
    if c.pending != {} {
      assert |c.requested| > 0;
      var x :| x in c.requested;
      assert IsAwaited(first.remote[x]);
      WelcomesIt(round, first.remote, x);
      assert x in c.sent;
    }
  }

  lemma Uninterfered(d: Desk, round: Round, remote: map<Id, Remote>, c: Course)
    requires Welcomes(round, remote) && d.Fits() && Meets(d, round, c.seen, c.known)
    ensures c.seen == d.remote && round.syncAnswers && round.leasesAnswer && !round.cancelled
  {
    hide Stores;
    forall id | id in d.remote ensures c.seen[id] == d.remote[id] {
      assert Drift(d.remote[id], []) == d.remote[id];
    }
  }

  lemma WelcomesIt(round: Round, remote: map<Id, Remote>, id: Id)
    requires Welcomes(round, remote) && id in remote && IsAwaited(remote[id])
    ensures id in round.granted && Stores(Awaited(remote[id]), round.granted[id])
  {}

  lemma WelcomedRound(first: Desk, d: Desk, round: Round, limit: nat, c: Course, d': Desk, outcome: Option<Outcome>)
    requires limit > 0 && MayFinish(first) && OnCourse(first, d) && Welcomes(round, first.remote)
    requires RoundGoes(d, round, limit, c, d', outcome)
    ensures outcome in {None, Some(Finished)} && OnCourse(first, d')
  {
    hide Transfer, Welcomes, MayFinish;
    WelcomedCourse(first, d, round, limit, c);
    Uninterfered(d, round, first.remote, c);
    hide Meets, Tries, Leases;
    forall id | id in c.sent
      ensures id in round.granted && Stores(Awaited(c.seen[id]), round.granted[id])
    {
      WelcomesIt(round, first.remote, id);
    }
  }

  /** The loop is welcome throughout. */
  ghost predicate WelcomesAll(world: seq<Round>, d: Desk) {
    MayFinish(d) && forall k :: 0 <= k < |world| ==> Welcomes(world[k], d.remote)
  }

  /** Every photo that was awaited is stored; the others are as they were. */
  ghost predicate AllStored(before: map<Id, Remote>, now: map<Id, Remote>) {
    && now.Keys == before.Keys
    && forall id :: id in now ==>
         if IsAwaited(before[id]) then now[id].state == Stored else now[id].state == before[id].state
  }

  /** The loop ends as its last round does. */
  ghost predicate IsOutcomeOfRound(world: seq<Round>, limit: nat, d': Desk, outcome: Outcome) {
    exists d, k, c :: 0 <= k < |world| && RoundGoes(d, world[k], limit, c, d', Some(outcome))
  }

  /** The round uploaded something. */
  predicate SentWave(outcome: Option<Outcome>) {
    outcome.None? || outcome.value == Broken
  }

  class Uploader {
    var local: map<Id, Local>
    var attempts: map<Id, nat>
    var remote: map<Id, Remote>

    /** No checkpoint is ahead of the server. */
    ghost predicate Valid()
      reads this
    {
      local.Keys == attempts.Keys == remote.Keys && NotAhead(local, remote)
    }

    function View(): Desk
      reads this
    {
      Desk(local, attempts, remote)
    }

    /** A reserved contribution: nothing is known of its originals yet, whatever became of them. */
    constructor (remote: map<Id, Remote>)
      requires forall id :: id in remote ==> Fits(remote[id])
      ensures Valid() && this.remote == remote
      ensures forall id :: id in remote ==> local[id] == Pending && attempts[id] == 0
    {
      this.remote := remote;
      local := map id | id in remote :: Pending;
      attempts := map id | id in remote :: 0;
    }

    method SyncBatch()
      requires Valid()
      modifies this`local
      ensures Valid() && local == SyncedAll(old(local), remote)
      ensures forall id :: id in local ==>
        && (remote[id].state == Stored ==> local[id] == Verified)
        && (remote[id].state == Dropped ==> local[id] == Excluded)
        && (remote[id].state == Rejected ==> local[id] == Failed)
        && (remote[id].state in {Waiting, Purged} ==> local[id] == old(local)[id])
    {
      SyncIsNotAhead(local, remote);
      local := map id | id in local :: Synced(local[id], remote[id].state);
    }

    method Meanwhile(id: Id, events: seq<Event>)
      requires id in remote
      modifies this`remote
      ensures remote == old(remote)[id := Drift(old(remote)[id], events)]
    {
      for i := 0 to |events|
        invariant id in remote && remote == old(remote)[id := remote[id]]
        invariant Drift(remote[id], events[i..]) == Drift(old(remote)[id], events)
      {
        remote := remote[id := Happens(remote[id], events[i])];
        assert events[i..][1..] == events[i + 1..];
      }
      assert events[|events|..] == [];
    }

    /** Asks the server to complete the photo. */
    method RequestCompletion(id: Id, completion: Reach) returns (result: Result)
      requires id in remote
      modifies this`remote
      ensures id in remote && remote == old(remote)[id := remote[id]]
      ensures (remote[id], result) == Asked(old(remote)[id], completion)
    {
      hide Complete;
      if completion.NotReached? {
        assert remote == remote[id := remote[id]];
        return Failing(completion.retryable);
      }
      var known := remote[id].recorded;
      var (after, reply) := Complete(remote[id], completion.request);
      remote := remote[id := after];
      if completion.lost.Some? {
        return Failing(completion.lost.value);
      }
      if reply.Refused? {
        return Failing(reply.retryable);
      }
      return if known || completion.request.kept then Confirmed else Failing(false);
    }

    /** Checks the file, puts it and completes the photo. */
    method TransferOne(id: Id, x: Exchange) returns (result: Result)
      requires id in remote
      modifies this`remote
      ensures id in remote && remote == old(remote)[id := remote[id]]
      ensures (remote[id], result) == Transfer(old(remote)[id], x)
    {
      hide Drift, Asked;
      Meanwhile(id, x.before);
      if x.source != Unchanged {
        return Failing(x.source == Unreadable);
      }
      if remote[id].blob.None? {
        remote := remote[id := remote[id].(blob := x.keeps)];
      }
      if x.put.Cut? {
        return Failing(true);
      }
      if x.put.status != 412 && !x.put.intact {
        return Failing(false);
      }
      if x.put.status !in {200, 201, 204, 412} {
        return Failing(x.put.status in {408, 429} || x.put.status >= 500);
      }
      Meanwhile(id, x.pause);
      result := RequestCompletion(id, x.completion);
    }

    /** One upload: counts the attempt before anything else. What it takes for confirmed is settled on the server. */
    method UploadOne(id: Id, x: Exchange) returns (result: Result)
      requires Valid() && id in local
      modifies this
      ensures Valid() && local.Keys == old(local).Keys
      ensures attempts == old(attempts)[id := old(attempts)[id] + 1]
      ensures id in remote && remote == old(remote)[id := remote[id]]
      ensures local == old(local)[id := local[id]] && Went(old(remote)[id], x, local[id], remote[id])
      ensures (remote[id], result) == Transfer(old(remote)[id], x)
      ensures local[id] == if result == Confirmed then Verified else Failed
      ensures result == Failing(false) <==> FailsForGood(old(remote)[id], x)
      ensures result == Confirmed ==> IsSettled(remote[id].state)
    {
      hide Transfer, NotAhead, Fits, IsSettled, Behind;
      MemberFits(local, remote, id);
      ghost var checkpoints := local;
      local := local[id := Uploading];
      attempts := attempts[id := attempts[id] + 1];
      TransferFollows(remote[id], x);
      result := TransferOne(id, x);
      local := local[id := if result == Confirmed then Verified else Failed];
      ConfirmedIsBehind(result, remote[id]);
      OneIsNotAhead(checkpoints, old(remote), id, local[id], remote[id]);
      assert local == checkpoints[id := local[id]];
    }

    /** Uploads everything that got a lease; every upload of the wave ends before the loop goes on. */
    method UploadWave(leases: set<Id>, granted: map<Id, Exchange>) returns (broken: bool)
      requires Valid() && leases <= local.Keys && leases <= granted.Keys
      modifies this
      ensures Valid() && local.Keys == old(local).Keys
      ensures attempts == Counted(old(attempts), leases)
      ensures forall id :: id in local && id !in leases ==> local[id] == old(local)[id] && remote[id] == old(remote)[id]
      ensures forall id :: id in leases ==> Went(old(remote)[id], granted[id], local[id], remote[id])
      ensures broken <==> exists id :: id in leases && FailsForGood(old(remote)[id], granted[id])
    {
      hide Counted, Transfer, NotAhead, IsSettled, Went, FailsForGood;
      var left := leases;
      broken := false;
      NothingSent(attempts);
      assert leases - left == {};
      while left != {}
        invariant left <= leases && Valid() && local.Keys == old(local).Keys
        invariant attempts == Counted(old(attempts), leases - left)
        invariant forall id :: id in local && id !in leases - left ==>
          local[id] == old(local)[id] && remote[id] == old(remote)[id]
        invariant forall id :: id in leases - left ==> Went(old(remote)[id], granted[id], local[id], remote[id])
        invariant broken <==> exists id :: id in leases - left && FailsForGood(old(remote)[id], granted[id])
        decreases left
      {
        var id :| id in left;
        OneMoreSent(old(attempts), leases - left, id);
        assert leases - (left - {id}) == (leases - left) + {id};
        var result := UploadOne(id, granted[id]);
        if result == Failing(false) { broken := true; }
        left := left - {id};
      }
      assert leases - left == leases;
    }

    /** What the others did, and a sync if it is answered. */
    method SyncFirst(round: Round)
      requires Valid()
      modifies this`local, this`remote
      ensures Valid() && Meets(old(View()), round, remote, local)
    {
      hide NotAhead, Drift;
      DriftIsNotAhead(local, remote, round.events);
      remote := DriftAll(remote, round.events);
      if round.syncAnswers { SyncBatch(); }
    }

    /** Leases and uploads what the server awaits of the requested originals. */
    method UploadLeased(round: Round, sent: set<Id>) returns (broken: bool)
      requires Valid() && sent != {} && sent <= Open(local) && sent <= round.granted.Keys
      requires forall id :: id in sent ==> remote[id].state in {Waiting, Rejected} && attempts[id] < MAX_ATTEMPTS
      modifies this
      ensures Valid() && local.Keys == old(local).Keys
      ensures forall id :: id in local ==>
        if id in sent
        then attempts[id] == old(attempts)[id] + 1 && Went(Awaited(old(remote)[id]), round.granted[id], local[id], remote[id])
        else attempts[id] == old(attempts)[id] && local[id] == old(local)[id] && remote[id] == old(remote)[id]
      ensures broken <==> exists id :: id in sent && FailsForGood(Awaited(old(remote)[id]), round.granted[id])
      ensures Budget(attempts) == Budget(old(attempts)) - |sent|
      ensures broken ==> Open(local) != {}
    {
      hide NotAhead, Budget, Counted, Open, Went, FailsForGood, LeasedAll;
      OpenIsKnown(local);
      LeaseIsNotAhead(local, remote, sent);
      LeasedMeans(remote, sent);
      CountedMeans(attempts, sent);
      WaveBudget(attempts, sent);
      remote := LeasedAll(remote, sent);
      ghost var leased := remote;
      broken := UploadWave(sent, round.granted);
      if broken { FailedForGood(sent, leased, round.granted, local, remote); }
    }

    /** Asks for leases and uploads what it got. */
    method LeaseAndUpload(round: Round, limit: nat, pending: set<Id>, ghost d: Desk)
      returns (outcome: Option<Outcome>, ghost course: Course)
      requires Valid() && limit > 0 && round.syncAnswers && !round.cancelled && pending != {} && pending <= Open(local)
      requires d.Fits() && d.attempts == attempts && d.local.Keys == local.Keys && Meets(d, round, remote, local)
      requires Tries(local, attempts, pending) && forall id :: id in pending ==> attempts[id] < MAX_ATTEMPTS
      modifies this
      ensures Valid() && local.Keys == old(local).Keys
      ensures RoundGoes(d, round, limit, course, View(), outcome)
      ensures SentWave(outcome) ==> Budget(attempts) < Budget(old(attempts))
      ensures !SentWave(outcome) ==> attempts == old(attempts)
      ensures outcome in {None, Some(Broken), Some(NoWork), Some(Unanswered)}
      ensures outcome.Some? ==> Open(local) != {}
    {
      hide NotAhead, Budget, Went, FailsForGood, Meets, Tries, Open, RoundGoes;
      var requested := AtMost(pending, limit);
      course := Course(remote, local, pending, requested, {});
      if !round.leasesAnswer {
        NothingLeased(d, round, limit, course);
        return Some(Unanswered), course;
      }
      var sent := Grantable(remote, requested * round.granted.Keys);
      if sent == {} {
        NothingLeased(d, round, limit, course);
        return Some(NoWork), course;
      }
      course := course.(sent := sent);
      var broken := UploadLeased(round, sent);
      WaveSent(d, round, limit, course, View(), broken);
      outcome := if broken then Some(Broken) else None;
    }

    /** One round of the loop; nothing when the loop goes on. */
    method UploadRound(round: Round, limit: nat) returns (outcome: Option<Outcome>, ghost course: Course)
      requires Valid() && limit > 0
      modifies this
      ensures Valid() && local.Keys == old(local).Keys
      ensures RoundGoes(old(View()), round, limit, course, View(), outcome)
      ensures SentWave(outcome) ==> Budget(attempts) < Budget(old(attempts))
      ensures !SentWave(outcome) ==> attempts == old(attempts)
      ensures outcome == Some(Finished) ==> Open(local) == {}
      ensures outcome == Some(Exhausted) ==> UsedUp(local, attempts)
      ensures outcome.Some? && outcome.value !in {Finished, Unanswered} ==> Open(local) != {}
    {
      hide NotAhead, Budget, Meets, Retryable, Open, Tries, UsedUp, RoundGoes;
      SyncFirst(round);
      MetKeys(old(View()), round, remote, local);
      var pending := Retryable(local, attempts);
      PendingMeans(local, attempts);
      course := Course(remote, local, pending, {}, {});
      if !Asks(round, course) { NothingAsked(old(View()), round, limit, course); }
      if !round.syncAnswers {
        return Some(Unanswered), course;
      }
      if pending == {} {
        if Open(local) == {} {
          return Some(Finished), course;
        }
        NothingRetryable(local, attempts);
        return Some(Exhausted), course;
      }
      if round.cancelled {
        return Some(Cancelled), course;
      }
      outcome, course := LeaseAndUpload(round, limit, pending, old(View()));
    }

    /** Uploads until every original is stored or excluded, or the loop must stop. At most as many waves run as
        attempts are left at the start, so `world` need not say more. Whatever happens to the requests, on the
        server and in the store, no checkpoint is ever ahead of the server, and a finished batch is settled there. */
    method UploadOriginals(world: seq<Round>, limit: nat) returns (outcome: Outcome, rounds: nat)
      requires Valid() && limit > 0 && Budget(attempts) < |world|
      modifies this
      ensures Valid() && local.Keys == old(local).Keys
      ensures rounds + Budget(attempts) <= Budget(old(attempts)) <= MAX_ATTEMPTS * |old(attempts)|
      ensures outcome == Finished <==> Open(local) == {} && outcome != Unanswered
      ensures outcome == Finished ==> AllSettled(remote)
      ensures outcome == Exhausted ==> UsedUp(local, attempts)
      ensures IsOutcomeOfRound(world, limit, View(), outcome)
      ensures WelcomesAll(world, old(View())) ==> outcome == Finished && AllStored(old(remote), remote)
    {
      hide NotAhead, Budget, UsedUp, Open, AllSettled, RoundGoes, OnCourse, WelcomesAll, AllStored, IsOutcomeOfRound;
      AtMostFiveEach(attempts);
      StartsOnCourse(View(), world);
      ghost var before := View();
      rounds := 0;
      var result, course := UploadRound(world[0], limit);
      StaysOnCourse(before, world, before, 0, limit, course, View(), result);
      ghost var last := 0;
      while result == None
        invariant Valid() && local.Keys == old(local).Keys
        invariant rounds + Budget(attempts) + (if SentWave(result) then 1 else 0) <= Budget(old(attempts))
        invariant result == Some(Finished) ==> Open(local) == {}
        invariant result == Some(Exhausted) ==> UsedUp(local, attempts)
        invariant result.Some? && result.value !in {Finished, Unanswered} ==> Open(local) != {}
        invariant 0 <= last < |world| && RoundGoes(before, world[last], limit, course, View(), result)
        invariant WelcomesAll(world, old(View())) ==> result in {None, Some(Finished)} && OnCourse(old(View()), View())
        decreases Budget(attempts), result == None
      {
        rounds := rounds + 1;
        before, last := View(), rounds;
        result, course := UploadRound(world[rounds], limit);
        StaysOnCourse(old(View()), world, before, last, limit, course, View(), result);
      }
      outcome := result.value;
      if outcome == Broken { rounds := rounds + 1; }
      if outcome == Finished { FinishedIsSettled(local, remote); }
      LastRound(world, limit, before, last, course, View(), outcome);
      if WelcomesAll(world, old(View())) { SettledOnCourse(old(View()), View()); }
    }
  }

  lemma StartsOnCourse(d: Desk, world: seq<Round>)
    ensures WelcomesAll(world, d) ==> OnCourse(d, d)
  {}

  lemma StaysOnCourse(first: Desk, world: seq<Round>, d: Desk, k: nat, limit: nat, c: Course, d': Desk,
                      outcome: Option<Outcome>)
    requires k < |world| && limit > 0 && RoundGoes(d, world[k], limit, c, d', outcome)
    ensures WelcomesAll(world, first) && OnCourse(first, d) ==> outcome in {None, Some(Finished)} && OnCourse(first, d')
  {
    hide OnCourse, RoundGoes, Welcomes, MayFinish;
    if WelcomesAll(world, first) && OnCourse(first, d) { WelcomedRound(first, d, world[k], limit, c, d', outcome); }
  }

  lemma LastRound(world: seq<Round>, limit: nat, d: Desk, k: nat, c: Course, d': Desk, outcome: Outcome)
    requires k < |world| && RoundGoes(d, world[k], limit, c, d', Some(outcome))
    ensures IsOutcomeOfRound(world, limit, d', outcome)
  {}

  lemma SettledOnCourse(first: Desk, d: Desk)
    requires OnCourse(first, d) && AllSettled(d.remote)
    ensures AllStored(first.remote, d.remote)
  {}

  lemma MetKeys(d: Desk, round: Round, seen: map<Id, Remote>, known: map<Id, Local>)
    requires d.Fits() && Meets(d, round, seen, known)
    ensures seen.Keys == known.Keys == d.local.Keys
  {}

  lemma PendingMeans(known: map<Id, Local>, attempts: map<Id, nat>)
    requires known.Keys == attempts.Keys
    ensures Tries(known, attempts, Retryable(known, attempts))
    ensures Retryable(known, attempts) <= Open(known)
    ensures forall id :: id in Retryable(known, attempts) ==> attempts[id] < MAX_ATTEMPTS
    ensures Open(known) == {} <==> forall id :: id in known ==> known[id] in {Verified, Excluded}
  {
    if Open(known) == {} {
      forall id | id in known ensures known[id] in {Verified, Excluded} { assert id !in Open(known); }
    }
  }

  /** A round that asks for no leases. */
  lemma NothingAsked(d: Desk, round: Round, limit: nat, c: Course)
    requires d.Fits() && Meets(d, round, c.seen, c.known) && Tries(c.known, d.attempts, c.pending)
    requires c.requested == c.sent == {} && !Asks(round, c)
    ensures RoundGoes(d, round, limit, c, Desk(c.known, d.attempts, c.seen), Some(
              if !round.syncAnswers then Unanswered else if c.pending != {} then Cancelled
              else if Open(c.known) == {} then Finished else Exhausted))
  {
    hide Meets, Tries;
    MetKeys(d, round, c.seen, c.known);
    if Open(c.known) == {} {
      forall id | id in c.known ensures c.known[id] in {Verified, Excluded} { assert id !in Open(c.known); }
    } else {
      var id :| id in Open(c.known);
    }
  }

  /** A round that asks, but gets no lease. */
  lemma NothingLeased(d: Desk, round: Round, limit: nat, c: Course)
    requires d.Fits() && Meets(d, round, c.seen, c.known) && Tries(c.known, d.attempts, c.pending)
    requires Asks(round, c) && c.requested <= c.pending && c.sent == {}
    requires |c.requested| == if |c.pending| < limit then |c.pending| else limit
    requires round.leasesAnswer ==> Grantable(c.seen, c.requested * round.granted.Keys) == {}
    ensures RoundGoes(d, round, limit, c, Desk(c.known, d.attempts, c.seen), Some(
              if round.leasesAnswer then NoWork else Unanswered))
  {
    hide Meets, Tries;
    MetKeys(d, round, c.seen, c.known);
    if round.leasesAnswer {
      forall id
        ensures !(id in c.requested && id in round.granted && id in c.seen && c.seen[id].state in {Waiting, Rejected})
      {
        assert id !in Grantable(c.seen, c.requested * round.granted.Keys);
      }
    }
  }

  /** A round that uploads a wave. */
  lemma WaveSent(d: Desk, round: Round, limit: nat, c: Course, d': Desk, broken: bool)
    requires d.Fits() && Meets(d, round, c.seen, c.known) && Tries(c.known, d.attempts, c.pending)
    requires Asks(round, c) && round.leasesAnswer && c.requested <= c.pending
    requires |c.requested| == if |c.pending| < limit then |c.pending| else limit
    requires c.sent == Grantable(c.seen, c.requested * round.granted.Keys) != {}
    requires d'.Fits() && d'.local.Keys == d.local.Keys == c.seen.Keys == c.known.Keys
    requires forall id :: id in d.local ==>
      if id in c.sent
      then d'.attempts[id] == d.attempts[id] + 1
           && Went(Awaited(c.seen[id]), round.granted[id], d'.local[id], d'.remote[id])
      else d'.attempts[id] == d.attempts[id] && d'.local[id] == c.known[id] && d'.remote[id] == c.seen[id]
    requires broken <==> exists id :: id in c.sent && FailsForGood(Awaited(c.seen[id]), round.granted[id])
    ensures RoundGoes(d, round, limit, c, d', if broken then Some(Broken) else None)
  {
    hide Meets, Tries, Went, FailsForGood;
  }

  lemma LeasedMeans(remote: map<Id, Remote>, leases: set<Id>)
    requires forall id :: id in leases ==> id in remote && remote[id].state in {Waiting, Rejected}
    ensures
      var leased := LeasedAll(remote, leases);
      leased.Keys == remote.Keys
      && forall id :: id in remote ==> leased[id] == if id in leases then Awaited(remote[id]) else remote[id]
  {}

  lemma CountedMeans(attempts: map<Id, nat>, sent: set<Id>)
    requires sent <= attempts.Keys
    ensures
      var counted := Counted(attempts, sent);
      counted.Keys == attempts.Keys
      && forall id :: id in attempts ==> counted[id] == if id in sent then attempts[id] + 1 else attempts[id]
  {}

  lemma ConfirmedIsBehind(result: Result, r: Remote)
    requires result == Confirmed ==> IsSettled(r.state)
    ensures Behind(if result == Confirmed then Verified else Failed, r.state)
  {}

  lemma FailedForGood(leases: set<Id>, before: map<Id, Remote>, granted: map<Id, Exchange>, local: map<Id, Local>,
                      remote: map<Id, Remote>)
    requires leases <= before.Keys && leases <= granted.Keys && leases <= local.Keys && leases <= remote.Keys
    requires forall id :: id in leases ==> Went(before[id], granted[id], local[id], remote[id])
    requires exists id :: id in leases && FailsForGood(before[id], granted[id])
    ensures Open(local) != {}
  {
    var id :| id in leases && FailsForGood(before[id], granted[id]);
    hide Transfer;
    assert Went(before[id], granted[id], local[id], remote[id]);
    assert id in Open(local);
  }

  lemma OpenIsKnown(local: map<Id, Local>)
    ensures Open(local) <= local.Keys
  {}

  /** The server leases only what still has to arrive. */
  function Grantable(remote: map<Id, Remote>, ids: set<Id>): set<Id> {
    set id | id in ids && id in remote && remote[id].state in {Waiting, Rejected}
  }

  /** `limit` of the ids, or all of them when there are no more. */
  method AtMost(ids: set<Id>, limit: nat) returns (some: set<Id>)
    ensures some <= ids && |some| == if |ids| < limit then |ids| else limit
  {
    some := {};
    var left := ids;
    while left != {} && |some| < limit
      invariant some + left == ids && some !! left && |some| <= limit
      invariant |some| + |left| == |ids|
      decreases left
    {
      var id :| id in left;
      some := some + {id};
      left := left - {id};
    }
  }
}
