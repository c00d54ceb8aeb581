/** The upload loop's view of the server is the ledger's: one photo's state, what completes and leases it, and how
    it moves while anything else runs. */
module UploadLedger {
  import opened Prelude
  import opened Ledger
  import opened LedgerInvariant
  import opened LedgerRuns
  import opened LedgerGuarantees
  import opened Publication
  import U = UploadLoop

  /** The state of a photo as the desktop sees it. */
  function StateOf(t: Tables, a: AssetId): U.Server {
    var k := ObjectKey(a, Original);
    if k !in t.objects then U.Purged
    else match t.objects[k].state
      case Reserved => U.Waiting
      case Failed => U.Rejected
      case Verified => U.Stored
      case Excluded => U.Dropped
  }

  predicate Shows(t: Tables, a: AssetId, head: Spec) {
    HasObject(t, a, Original) && head == t.objects[ObjectKey(a, Original)].spec
  }

  /** The loop's completion is the ledger's: for any photo and any earlier view of the store, the locked half
      moves the photo's state and answers as the loop takes it to. */
  lemma CompletionIsTheLedgers(s: Ledger, a: AssetId, head: Spec, r: U.Remote, kept: bool)
    requires LedgerInv(s) && r.state == StateOf(s.rows, a)
    ensures
      var completed := VerifyCommit(s, a, head);
      var (after, reply) := U.Locked(r, Shows(s.rows, a, head), true, kept);
      && after.state == StateOf(completed.ledger.rows, a)
      && (reply == U.Done <==> completed.reply == Done)
  {
    hide Counted, WithinConstraints, BatchFits;
    var k := ObjectKey(a, Original);
    VerifyIsNeverRefused(s, a, head);
    if k in s.rows.objects { assert ObjectFits(s.rows, k); }
  }

  /** So is its lease. */
  lemma LeaseIsTheLedgers(s: Ledger, b: BatchId, installation: nat, chosen: set<AssetId>, until: nat, a: AssetId)
    requires InActiveSection(s.rows, b) && s.rows.batches[b].state == InFlight
    requires Lease(s, b, installation, chosen, until).reply == Done
    requires a in chosen && InBatch(s.rows, a, b)
    ensures
      var before, now := StateOf(s.rows, a), StateOf(Lease(s, b, installation, chosen, until).ledger.rows, a);
      now == if before == U.Rejected then U.Waiting else before
  {}

  /** Whatever else runs, however long, moves a recorded photo as one event of the loop's world may. */
  lemma RunIsAnEvent(sys: System, steps: seq<Step>, a: AssetId, r: U.Remote)
    requires LedgerInv(sys.ledger) && CleanRun(sys, steps)
    requires a in sys.ledger.rows.assets && r.state == StateOf(sys.ledger.rows, a)
    ensures
      var now := StateOf(Run(sys, steps).ledger.rows, a);
      U.Advances(r.state, now) && U.Happens(r, U.Moved(now)).state == now
  {
    hide LedgerInv, CleanRun, Run;
    RunRemembers(sys, steps);
    var t' := Run(sys, steps).ledger.rows;
    assert ObjectKey(a, Original) in t'.objects ==> ObjectKey(a, Original) in sys.ledger.rows.objects;
  }

  /** An answer that is on record stays true: a photo whose completion succeeded is stored, or was dropped or
      purged since, after any later run. */
  lemma AnswersStayTrue(sys: System, a: AssetId, head: Spec, steps: seq<Step>)
    requires LedgerInv(sys.ledger) && VerifyCommit(sys.ledger, a, head).reply == Done
    requires CleanRun(Next(sys, Verifying(a, head)), steps)
    ensures U.IsSettled(StateOf(Run(Next(sys, Verifying(a, head)), steps).ledger.rows, a))
  {
    hide LedgerInv, VerifyCommit, CleanRun, Run;
    var done := Next(sys, Verifying(a, head));
    VerifyKeepsLedger(sys.ledger, a, head);
    CompletedIsStored(sys.ledger, a, head);
    RunIsAnEvent(done, steps, a, U.Remote(U.Stored, None, true));
  }

  lemma CompletedIsStored(s: Ledger, a: AssetId, head: Spec)
    requires VerifyCommit(s, a, head).reply == Done
    ensures
      var t := VerifyCommit(s, a, head).ledger.rows;
      a in t.assets && StateOf(t, a) == U.Stored
  {}
}
