/** Idempotency claims: one record per actor and key, owned by the worker that created it. */
module Idempotency {
  import opened Prelude

  const PENDING_TTL: nat := 900

  type RecordId = nat

  datatype Key = Key(actor: nat, key: nat)

  datatype Request = Request(operation: nat, digest: nat)

  datatype Response = Response(status: nat, body: nat)

  /** A row without a response is pending: its command has started and has not ended. */
  datatype Row = Row(key: Key, request: Request, response: Option<Response>, expires: nat)

  datatype Table = Table(rows: map<RecordId, Row>, nextId: RecordId)

  /** What a worker holds while it runs the command. */
  datatype Claim = Claim(id: RecordId, key: Key, request: Request)

  datatype Answer = Claimed(claim: Claim) | Replayed(response: Response) | Conflict | InProgress | Absent

  function Min(a: nat, b: nat): nat { if a < b then a else b }

  /** The database admits one row per key, and never reuses an id. */
  ghost predicate ValidTable(t: Table) {
    && (forall id :: id in t.rows ==> id < t.nextId)
    && (forall i, j :: i in t.rows && j in t.rows && t.rows[i].key == t.rows[j].key ==> i == j)
  }

  ghost function Find(t: Table, key: Key): Option<RecordId> {
    if exists id :: id in t.rows && t.rows[id].key == key
    then var id :| id in t.rows && t.rows[id].key == key; Some(id)
    else None
  }

  function ReplayOrReject(row: Row, request: Request): Answer {
    if row.request != request then Conflict
    else if row.response.None? then InProgress
    else Replayed(row.response.value)
  }

  function Inserted(t: Table, key: Key, request: Request, now: nat, ttl: nat): Table {
    Table(t.rows[t.nextId := Row(key, request, None, now + Min(ttl, PENDING_TTL))], t.nextId + 1)
  }

  function Without(t: Table, id: RecordId): Table {
    t.(rows := t.rows - {id})
  }

  /** The first half of claiming: an expired row is replaced at once, a live one answers. */
  ghost function Looked(t: Table, key: Key, request: Request, now: nat, ttl: nat): (Table, Answer) {
    var found := Find(t, key);
    if found.None? then (t, Absent)
    else if t.rows[found.value].expires <= now then
      (Inserted(Without(t, found.value), key, request, now, ttl), Claimed(Claim(t.nextId, key, request)))
    else (t, ReplayOrReject(t.rows[found.value], request))
  }

  /** The second half, after a look that found nothing: somebody may have inserted a row since, and
      then that row answers, even when it has expired. */
  ghost function Reinserted(t: Table, key: Key, request: Request, now: nat, ttl: nat): (Table, Answer) {
    var found := Find(t, key);
    if found.Some? then (t, ReplayOrReject(t.rows[found.value], request))
    else (Inserted(t, key, request, now, ttl), Claimed(Claim(t.nextId, key, request)))
  }

  predicate Owns(t: Table, claim: Claim) {
    && claim.id in t.rows
    && t.rows[claim.id].key == claim.key && t.rows[claim.id].request == claim.request
    && t.rows[claim.id].response.None?
  }

  function Completed(t: Table, claim: Claim, response: Response, now: nat, ttl: nat): Table {
    if Owns(t, claim)
    then t.(rows := t.rows[claim.id := Row(claim.key, claim.request, Some(response), now + ttl)])
    else t
  }

  function Released(t: Table, claim: Claim): Table {
    if Owns(t, claim) then Without(t, claim.id) else t
  }

  /** What the caller of a request must be told while the key has this row: a different request is a conflict, the same
      one gets the stored response, or is told to wait while there is none. */
  ghost predicate Tells(row: Row, request: Request, answer: Answer) {
    && (answer == Conflict <==> row.request != request)
    && (answer == InProgress <==> row.request == request && row.response.None?)
    && (forall r :: answer == Replayed(r) <==> row.request == request && row.response == Some(r))
    && !answer.Claimed? && !answer.Absent?
  }

  /** A claim protects its command for its time to live, but not longer than fifteen minutes. */
  predicate StartsCommand(row: Row, key: Key, request: Request, now: nat, ttl: nat) {
    row == Row(key, request, None, now + if ttl < 900 then ttl else 900)
  }

  /** The table of records, as the commands change it. */
  class Records {
    const ttl: nat
    var rows: map<RecordId, Row>
    var nextId: RecordId

    function View(): Table
      reads this
    {
      Table(rows, nextId)
    }

    constructor (ttl: nat)
      ensures View() == Table(map[], 0) && this.ttl == ttl
    {
      this.ttl, rows, nextId := ttl, map[], 0;
    }

    method Create(key: Key, request: Request, now: nat) returns (claim: Claim)
      modifies this
      ensures View() == Inserted(old(View()), key, request, now, ttl)
      ensures claim == Claim(old(nextId), key, request)
    {
      claim := Claim(nextId, key, request);
      rows := rows[nextId := Row(key, request, None, now + Min(ttl, PENDING_TTL))];
      nextId := nextId + 1;
    }

    method LookUp(key: Key, request: Request, now: nat) returns (answer: Answer)
      requires ValidTable(View())
      modifies this
      ensures (View(), answer) == Looked(old(View()), key, request, now, ttl)
      ensures ValidTable(View())
      ensures answer.Claimed? ==> Owns(View(), answer.claim) && answer.claim.id !in old(rows)
      ensures !answer.Claimed? ==> View() == old(View())
      ensures answer.Absent? <==> forall id :: id in old(rows) ==> old(rows)[id].key != key
      ensures forall id :: id in old(rows) && old(rows)[id].key == key ==>
        if old(rows)[id].expires <= now then answer.Claimed? && id !in rows else Tells(old(rows)[id], request, answer)
      ensures answer.Claimed? ==> StartsCommand(rows[answer.claim.id], key, request, now, ttl)
      ensures forall id :: id in old(rows) && old(rows)[id].key != key ==> id in rows && rows[id] == old(rows)[id]
    {
      hide Tells, StartsCommand, Owns;
      LookedMeans(View(), key, request, now, ttl);
      var matches := set id | id in rows && rows[id].key == key;
      assert forall id :: id in rows && rows[id].key == key ==> id in matches;
      if matches == {} {
        return Absent;
      }
      var id :| id in matches;
      if rows[id].expires <= now {
        rows := rows - {id};
        var claim := Create(key, request, now);
        return Claimed(claim);
      }
      answer := ReplayOrReject(rows[id], request);
    }

    method Insert(key: Key, request: Request, now: nat) returns (answer: Answer)
      requires ValidTable(View())
      modifies this
      ensures (View(), answer) == Reinserted(old(View()), key, request, now, ttl)
      ensures ValidTable(View())
      ensures answer.Claimed? ==> Owns(View(), answer.claim) && answer.claim.id !in old(rows)
      ensures !answer.Claimed? ==> View() == old(View()) && exists id :: id in rows && rows[id].key == key
      ensures forall id :: id in old(rows) ==>
        && id in rows && rows[id] == old(rows)[id]
        && (rows[id].key == key ==> Tells(rows[id], request, answer))
      ensures answer.Claimed? ==> StartsCommand(rows[answer.claim.id], key, request, now, ttl)
    {
      hide Tells, StartsCommand, Owns;
      ReinsertedMeans(View(), key, request, now, ttl);
      var matches := set id | id in rows && rows[id].key == key;
      assert forall id :: id in rows && rows[id].key == key ==> id in matches;
      if matches == {} {
        var claim := Create(key, request, now);
        return Claimed(claim);
      }
      var id :| id in matches;
      answer := ReplayOrReject(rows[id], request);
    }

    /** Fails, and changes nothing, when the row is no longer the claimant's pending one. */
    method Complete(claim: Claim, response: Response, now: nat) returns (ok: bool)
      modifies this`rows
      ensures View() == Completed(old(View()), claim, response, now, ttl)
      ensures ok == Owns(old(View()), claim)
      ensures !Owns(View(), claim)
      ensures ok ==> rows == old(rows)[claim.id := Row(claim.key, claim.request, Some(response), now + ttl)]
      ensures !ok ==> rows == old(rows)
    {
      if claim.id !in rows {
        return false;
      }
      var row := rows[claim.id];
      if row.key != claim.key || row.request != claim.request || row.response.Some? {
        return false;
      }
      rows := rows[claim.id := row.(response := Some(response), expires := now + ttl)];
      ok := true;
    }

    method Release(claim: Claim)
      modifies this`rows
      ensures View() == Released(old(View()), claim)
      ensures !Owns(View(), claim)
      ensures forall other: Claim :: other.id != claim.id ==> Owns(View(), other) == old(Owns(View(), other))
      ensures rows == if old(Owns(View(), claim)) then old(rows) - {claim.id} else old(rows)
    {
      rows := map id | id in rows &&
        !(id == claim.id && rows[id].key == claim.key && rows[id].request == claim.request && rows[id].response.None?)
        :: rows[id];
      assert Owns(old(View()), claim) ==> rows == old(rows) - {claim.id};
    }
  }

  lemma LookedMeans(t: Table, key: Key, request: Request, now: nat, ttl: nat)
    requires ValidTable(t)
    ensures
      var (t', answer) := Looked(t, key, request, now, ttl);
      && ValidTable(t')
      && (answer.Absent? <==> forall id :: id in t.rows ==> t.rows[id].key != key)
      && (forall id :: id in t.rows && t.rows[id].key == key ==>
            if t.rows[id].expires <= now then answer.Claimed? && id !in t'.rows else Tells(t.rows[id], request, answer))
      && (answer.Claimed? ==>
            && Owns(t', answer.claim) && answer.claim.id !in t.rows
            && StartsCommand(t'.rows[answer.claim.id], key, request, now, ttl))
      && (forall id :: id in t.rows && t.rows[id].key != key ==> id in t'.rows && t'.rows[id] == t.rows[id])
  {}

  lemma ReinsertedMeans(t: Table, key: Key, request: Request, now: nat, ttl: nat)
    requires ValidTable(t)
    ensures
      var (t', answer) := Reinserted(t, key, request, now, ttl);
      && ValidTable(t')
      && (forall id :: id in t.rows ==>
            && id in t'.rows && t'.rows[id] == t.rows[id]
            && (t.rows[id].key == key ==> Tells(t.rows[id], request, answer)))
      && (answer.Claimed? ==>
            && Owns(t', answer.claim) && answer.claim.id !in t.rows
            && StartsCommand(t'.rows[answer.claim.id], key, request, now, ttl))
  {}

  // ------------------------------------------------------------- runs

  /** How a claim ended, if not by completing. */
  datatype Ending = LetGo | TakenOver(at: nat)

  /** What became of a started command: its answer once completed, and until when its record protects it. */
  datatype Fate = Fate(key: Key, request: Request, answer: Option<Response>, until: nat, ending: Option<Ending>)

  /** The table and the history of every claim that was ever handed out. */
  datatype System = System(table: Table, log: map<RecordId, Fate>, ttl: nat)

  datatype Step =
    | Looking(key: Key, request: Request, now: nat)
    | Inserting(key: Key, request: Request, now: nat)
    | Completing(id: RecordId, response: Response, now: nat)
    | Releasing(id: RecordId)

  function ClaimOf(sys: System, id: RecordId): Claim
    requires id in sys.log
  {
    Claim(id, sys.log[id].key, sys.log[id].request)
  }

  ghost function Answered(sys: System, step: Step): (Table, Answer)
    requires step.Looking? || step.Inserting?
  {
    if step.Looking? then Looked(sys.table, step.key, step.request, step.now, sys.ttl)
    else Reinserted(sys.table, step.key, step.request, step.now, sys.ttl)
  }

  /** The step hands a new claim to its worker, who starts the command. */
  ghost predicate Starts(sys: System, step: Step) {
    (step.Looking? || step.Inserting?) && Answered(sys, step).1.Claimed?
  }

  ghost function Next(sys: System, step: Step): System {
    var t, log := sys.table, sys.log;
    match step
    case Completing(id, response, now) =>
      if id in log && Owns(t, ClaimOf(sys, id))
      then sys.(table := Completed(t, ClaimOf(sys, id), response, now, sys.ttl),
                log := log[id := log[id].(answer := Some(response), until := now + sys.ttl)])
      else sys
    case Releasing(id) =>
      if id in log && Owns(t, ClaimOf(sys, id))
      then sys.(table := Released(t, ClaimOf(sys, id)), log := log[id := log[id].(ending := Some(LetGo))])
      else sys
    case Looking(key, request, now) =>
      if !Starts(sys, step) then sys
      else Started(sys, step, Ended(log, Find(t, key), now))
    case Inserting(key, request, now) =>
      if !Starts(sys, step) then sys else Started(sys, step, log)
  }

  /** A claim that is handed out over an expired row takes that row over. */
  function Ended(log: map<RecordId, Fate>, found: Option<RecordId>, now: nat): map<RecordId, Fate> {
    if found.Some? && found.value in log
    then log[found.value := log[found.value].(ending := Some(TakenOver(now)))]
    else log
  }

  ghost function Started(sys: System, step: Step, log: map<RecordId, Fate>): System
    requires step.Looking? || step.Inserting?
  {
    sys.(table := Answered(sys, step).0,
         log := log[sys.table.nextId :=
           Fate(step.key, step.request, None, step.now + Min(sys.ttl, PENDING_TTL), None)])
  }

  ghost function Run(sys: System, steps: seq<Step>): System
    decreases |steps|
  {
    if steps == [] then sys else Run(Next(sys, steps[0]), steps[1..])
  }

  ghost predicate Initial(sys: System) {
    sys.table.rows == map[] && sys.log == map[]
  }

  /** Two claims of one key: the earlier one let go, or its protection had run out when it was taken over. */
  predicate Over(fate: Fate) {
    && fate.ending.Some?
    && (fate.ending.value.TakenOver? ==> fate.ending.value.at >= fate.until)
    && (fate.ending.value.LetGo? ==> fate.answer.None?)
  }

  /** The row of a claim says exactly what became of the claim. */
  ghost predicate RowTells(sys: System, id: RecordId)
    requires id in sys.log
  {
    var fate := sys.log[id];
    && (id in sys.table.rows <==> fate.ending.None?)
    && (id in sys.table.rows ==> sys.table.rows[id] == Row(fate.key, fate.request, fate.answer, fate.until))
    && (fate.ending.Some? ==> Over(fate))
  }

  ghost predicate Inv(sys: System) {
    && ValidTable(sys.table)
    && (forall id :: id in sys.table.rows ==> id in sys.log)
    && (forall id :: id in sys.log ==> id < sys.table.nextId && RowTells(sys, id))
    && (forall i, j :: i in sys.log && j in sys.log && i < j && sys.log[i].key == sys.log[j].key ==>
          sys.log[i].ending.Some?)
  }

  lemma InsertKeepsInv(sys: System, step: Step)
    requires Inv(sys) && step.Inserting?
    ensures Inv(Next(sys, step))
  {
    var sys' := Next(sys, step);
    forall id | id in sys'.log ensures id < sys'.table.nextId && RowTells(sys', id) {
      assert id in sys.log ==> RowTells(sys, id);
    }
  }

  /** Taking over an expired row is letting the row go and inserting a new one. */
  lemma TakingOverKeepsInv(sys: System, id: RecordId, now: nat)
    requires Inv(sys) && id in sys.table.rows && sys.table.rows[id].expires <= now
    ensures Inv(sys.(table := Without(sys.table, id), log := Ended(sys.log, Some(id), now)))
  {}

  lemma LookKeepsInv(sys: System, step: Step)
    requires Inv(sys) && step.Looking?
    ensures Inv(Next(sys, step))
  {
    var found := Find(sys.table, step.key);
    if Starts(sys, step) {
      TakingOverKeepsInv(sys, found.value, step.now);
      var vacated := sys.(table := Without(sys.table, found.value), log := Ended(sys.log, found, step.now));
      assert Find(vacated.table, step.key).None?;
      InsertKeepsInv(vacated, Inserting(step.key, step.request, step.now));
      assert Next(sys, step) == Next(vacated, Inserting(step.key, step.request, step.now)) by { hide Find, Inv; }
    }
  }

  lemma EndKeepsInv(sys: System, step: Step)
    requires Inv(sys) && (step.Completing? || step.Releasing?)
    ensures Inv(Next(sys, step))
  {
    var sys' := Next(sys, step);
    forall id | id in sys'.log ensures id < sys'.table.nextId && RowTells(sys', id) {
      assert RowTells(sys, id);
    }
  }

  lemma StepKeepsInv(sys: System, step: Step)
    requires Inv(sys)
    ensures Inv(Next(sys, step))
  {
    hide Inv, Next;
    if step.Looking? {
      LookKeepsInv(sys, step);
    } else if step.Inserting? {
      InsertKeepsInv(sys, step);
    } else {
      EndKeepsInv(sys, step);
    }
  }

  lemma {:induction false} RunKeepsInv(sys: System, steps: seq<Step>)
    requires Inv(sys)
    ensures Inv(Run(sys, steps))
    decreases |steps|
  {
    hide Inv, Next;
    if steps != [] {
      StepKeepsInv(sys, steps[0]);
      RunKeepsInv(Next(sys, steps[0]), steps[1..]);
    }
  }

  lemma InitialIsInv(sys: System)
    requires Initial(sys)
    ensures Inv(sys)
  {}

  // ------------------------------------------------------------- one command at a time

  /** While a record is unexpired, no second command of its key starts: the caller gets the stored answer
      or is told to wait or that the key is taken. */
  lemma UnexpiredRecordAnswers(sys: System, id: RecordId, step: Step)
    requires Inv(sys) && id in sys.table.rows
    requires step.Looking? || step.Inserting?
    requires step.key == sys.table.rows[id].key && step.now < sys.table.rows[id].expires
    ensures Next(sys, step) == sys && !Starts(sys, step)
    ensures Tells(sys.table.rows[id], step.request, Answered(sys, step).1)
  {}

  /** Main result: in every state of every run, of two commands started under one key the earlier one had
      let its claim go without an answer, or had lost it when its protection was over. */
  lemma CommandsAreSerial(sys: System, steps: seq<Step>, i: RecordId, j: RecordId)
    requires Initial(sys)
    requires i in Run(sys, steps).log && j in Run(sys, steps).log && i < j
    requires Run(sys, steps).log[i].key == Run(sys, steps).log[j].key
    ensures Over(Run(sys, steps).log[i])
  {
    hide Run, Initial;
    InitialIsInv(sys);
    RunKeepsInv(sys, steps);
    assert RowTells(Run(sys, steps), i);
  }

  // ------------------------------------------------------------- ownership

  /** Only a claimant's own completion writes its answer, and what replays is that answer. */
  lemma AnswerIsOwn(sys: System, step: Step, id: RecordId)
    requires Inv(sys) && id in sys.log
    ensures id in Next(sys, step).log
    ensures Next(sys, step).log[id].answer != sys.log[id].answer
       ==> step.Completing? && step.id == id && Next(sys, step).log[id].answer == Some(step.response)
    ensures sys.log[id].answer.Some? ==> Next(sys, step).log[id].answer == sys.log[id].answer
    ensures id in Next(sys, step).table.rows ==> Next(sys, step).table.rows[id].response == Next(sys, step).log[id].answer
  {
    assert RowTells(sys, id);
    StepKeepsInv(sys, step);
    assert RowTells(Next(sys, step), id);
  }

  /** An ended claim stays ended. */
  lemma {:induction false} EndedStays(sys: System, id: RecordId, steps: seq<Step>)
    requires Inv(sys) && id in sys.log && sys.log[id].ending.Some?
    ensures Inv(Run(sys, steps)) && id in Run(sys, steps).log && Run(sys, steps).log[id] == sys.log[id]
    decreases |steps|
  {
    hide Inv, Next;
    if steps != [] {
      EndedStaysOnce(sys, id, steps[0]);
      StepKeepsInv(sys, steps[0]);
      EndedStays(Next(sys, steps[0]), id, steps[1..]);
    }
  }

  lemma EndedStaysOnce(sys: System, id: RecordId, step: Step)
    requires Inv(sys) && id in sys.log && sys.log[id].ending.Some?
    ensures id in Next(sys, step).log && Next(sys, step).log[id] == sys.log[id]
  {}

  /** A claimant whose record was taken over can never again overwrite or delete anything. */
  lemma DisplacedIsHarmless(sys: System, id: RecordId, steps: seq<Step>, response: Response, now: nat)
    requires Inv(sys) && id in sys.log && sys.log[id].ending.Some?
    ensures
      var later := Run(sys, steps);
      Next(later, Completing(id, response, now)) == later && Next(later, Releasing(id)) == later
  {
    hide Run;
    EndedStays(sys, id, steps);
    assert RowTells(Run(sys, steps), id);
  }

  // ------------------------------------------------------------- replay

  predicate StepBefore(step: Step, deadline: nat) {
    match step
    case Looking(_, _, now) => now < deadline
    case Inserting(_, _, now) => now < deadline
    case _ => true
  }

  lemma AnswerStaysOnce(sys: System, id: RecordId, step: Step)
    requires Inv(sys) && id in sys.table.rows && sys.table.rows[id].response.Some?
    requires StepBefore(step, sys.table.rows[id].expires)
    ensures id in Next(sys, step).table.rows && Next(sys, step).table.rows[id] == sys.table.rows[id]
  {}

  lemma {:induction false} AnswerStays(sys: System, id: RecordId, steps: seq<Step>)
    requires Inv(sys) && id in sys.table.rows && sys.table.rows[id].response.Some?
    requires forall k :: 0 <= k < |steps| ==> StepBefore(steps[k], sys.table.rows[id].expires)
    ensures Inv(Run(sys, steps))
    ensures id in Run(sys, steps).table.rows && Run(sys, steps).table.rows[id] == sys.table.rows[id]
    decreases |steps|
  {
    hide Inv, Next;
    if steps != [] {
      AnswerStaysOnce(sys, id, steps[0]);
      StepKeepsInv(sys, steps[0]);
      AnswerStays(Next(sys, steps[0]), id, steps[1..]);
    }
  }

  /** Main result: once a command completed, and until its record expires, every repetition of the request
      gets that very response, and every other request under the key is a conflict. */
  lemma CompletedReplays(sys: System, id: RecordId, response: Response, now: nat, steps: seq<Step>, again: Step)
    requires Inv(sys) && id in sys.log && Owns(sys.table, ClaimOf(sys, id))
    requires forall k :: 0 <= k < |steps| ==> StepBefore(steps[k], now + sys.ttl)
    requires (again.Looking? || again.Inserting?) && StepBefore(again, now + sys.ttl)
    requires again.key == sys.log[id].key
    ensures
      var later := Run(Next(sys, Completing(id, response, now)), steps);
      && Next(later, again) == later
      && Answered(later, again).1 == if again.request == sys.log[id].request then Replayed(response) else Conflict
  {
    var done := Next(sys, Completing(id, response, now));
    StepKeepsInv(sys, Completing(id, response, now));
    assert done.table.rows[id] == Row(sys.log[id].key, sys.log[id].request, Some(response), now + sys.ttl);
    hide Inv, Run, Next;
    AnswerStays(done, id, steps);
    UnexpiredRecordAnswers(Run(done, steps), id, again);
  }

  // ------------------------------------------------------------- nothing is made up

  /** Every answer on record was given by a completing step of its claimant. */
  lemma {:induction false} AnswersWereGiven(sys: System, steps: seq<Step>, id: RecordId)
    requires Inv(sys) && id in Run(sys, steps).log && Run(sys, steps).log[id].answer.Some?
    ensures
      var r := Run(sys, steps).log[id].answer.value;
      || (id in sys.log && sys.log[id].answer == Some(r))
      || exists k :: 0 <= k < |steps| && Gives(steps[k], id, r)
    decreases |steps|
  {
    hide Inv, Next;
    if steps != [] {
      var next := Next(sys, steps[0]);
      StepKeepsInv(sys, steps[0]);
      AnswersWereGiven(next, steps[1..], id);
      var r := Run(sys, steps).log[id].answer.value;
      if id in sys.log {
        AnswerIsOwn(sys, steps[0], id);
      } else if id in next.log {
        NewClaimsAreOpen(sys, steps[0], id);
      }
      if !(id in sys.log && sys.log[id].answer == Some(r)) && !Gives(steps[0], id, r) {
        var k :| 0 <= k < |steps[1..]| && Gives(steps[1..][k], id, r);
        assert Gives(steps[k + 1], id, r);
      }
    }
  }

  predicate Gives(step: Step, id: RecordId, response: Response) {
    step.Completing? && step.id == id && step.response == response
  }

  lemma NewClaimsAreOpen(sys: System, step: Step, id: RecordId)
    requires id !in sys.log && id in Next(sys, step).log
    ensures Next(sys, step).log[id].answer.None?
  {}

  lemma ReplayIsOnRecord(sys: System, step: Step, response: Response) returns (id: RecordId)
    requires Inv(sys) && (step.Looking? || step.Inserting?) && Answered(sys, step).1 == Replayed(response)
    ensures id in sys.log && sys.log[id].key == step.key && sys.log[id].request == step.request
    ensures sys.log[id].answer == Some(response)
  {
    id := Find(sys.table, step.key).value;
    assert RowTells(sys, id);
  }

  /** Main result: whoever is told a response, after any run, is told what the claimant of the same key and the same
      request handed in when it completed. */
  lemma ReplayedWasComputed(sys: System, steps: seq<Step>, step: Step, response: Response)
    requires Initial(sys) && (step.Looking? || step.Inserting?)
    requires Answered(Run(sys, steps), step).1 == Replayed(response)
    ensures
      var log := Run(sys, steps).log;
      exists id, k :: 0 <= k < |steps| && id in log && Gives(steps[k], id, response)
                      && log[id].key == step.key && log[id].request == step.request
  {
    hide Run, Answered, Inv, Gives;
    assert sys.log == map[];
    InitialIsInv(sys);
    RunKeepsInv(sys, steps);
    var id := ReplayIsOnRecord(Run(sys, steps), step, response);
    AnswersWereGiven(sys, steps, id);
  }
}
