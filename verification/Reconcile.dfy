/**
 Reconciliation of submissions and governance logs with receipts and projections
 (service/src/reconcile/worker.ts).
 */
module Reconcile {
  import opened Prelude
  import opened ChainEvents
  import opened IdentityProjections
  import opened GovernanceLedger

  // ----- what a record is compared with -----

  datatype ReceiptStatus = ReceiptSuccess | ReceiptReverted | ReceiptFailed | ReceiptOther

  /** The answer of the node: an error, no receipt, or a receipt. */
  datatype Receipt = NodeError | NoReceipt | Receipt(status: ReceiptStatus, blockNumber: Option<nat>)

  datatype Confirmation = Confirmation(txHash: Hex, blockNumber: nat)

  datatype SignalKey = SignalKey(sourceId: nat, signalId: nat)

  datatype SignalIdentity = SignalIdentity(
    orderId: nat, sourceId: nat, signalId: nat, submitter: nat, payloadHash: nat, idempotencyKey: nat)

  datatype Signal = Signal(identity: SignalIdentity, submittedAt: Option<Confirmation>)

  /** Projected orders by plan and order, each with its signals. */
  type Projection = map<(nat, nat), map<SignalKey, Signal>>

  // ----- records -----

  datatype SubmissionStatus = SignatureReceived | Broadcasting | Submitted | Indexing | Confirmed | Failed | Expired

  datatype RetryState = NotApplicable | Retryable | NotRetryable | DeadLettered

  datatype AttemptStatus = AttemptPrepared | AttemptSubmitted | AttemptConfirmed | AttemptFailed

  datatype ErrorCode = TransactionReverted | ReconcileTimeout | OtherError(code: nat)

  datatype Attempt = Attempt(
    txHash: Option<Hex>, status: AttemptStatus, blockNumber: Option<nat>, errorCode: Option<ErrorCode>,
    retryable: bool, retryState: RetryState, deadLetter: bool, updatedAt: int, body: nat)

  /** `createdAt` is None when the stored time does not parse. */
  datatype Submission = Submission(
    planId: nat, identity: SignalIdentity, createdAt: Option<int>, txHash: Option<Hex>, status: SubmissionStatus,
    broadcastStatus: SubmissionStatus, fields: ReconcileFields, blockNumber: Option<nat>, errorCode: Option<ErrorCode>,
    retryable: bool, retryState: RetryState, deadLetter: bool, attempts: seq<Attempt>, updatedAt: int)

  datatype ReceiptNote = ReceiptNotChecked | ReceiptMissing | ReceiptUnknown | ReceiptOk | ReceiptBad | ReceiptTimeout

  datatype ProjectionNote = ProjectionNotChecked | ProjectionMissing | ProjectionPresent

  datatype Kind = PendingOutcome | IndexingOutcome | ConfirmedOutcome | FailedOutcome | StalePending

  datatype ReconcileFields = ReconcileFields(
    kind: Option<Kind>, lastCheckedAt: int, receiptStatus: ReceiptNote, projectionStatus: ProjectionNote)

  datatype Resolution = Resolution(
    kind: Kind, checkedAt: int, fields: ReconcileFields, blockNumber: Option<nat>, errorCode: Option<ErrorCode>, retryable: bool)

  // ----- resolving an outcome -----

  predicate TimedOut(createdAt: Option<int>, now: int, timeoutMs: int)
  {
    timeoutMs > 0 && createdAt.Some? && now - createdAt.value >= timeoutMs
  }

  function Pending(now: int, note: ReceiptNote, block: Option<nat>): Resolution
  {
    Resolution(PendingOutcome, now, ReconcileFields(Some(PendingOutcome), now, note, ProjectionNotChecked), block, None, true)
  }

  function Stale(now: int): Resolution
  {
    Resolution(StalePending, now, ReconcileFields(Some(StalePending), now, ReceiptTimeout, ProjectionNotChecked),
               None, Some(ReconcileTimeout), true)
  }

  function ConfirmedBy(now: int, block: Option<nat>): Resolution
  {
    Resolution(ConfirmedOutcome, now, ReconcileFields(Some(ConfirmedOutcome), now, ReceiptOk, ProjectionPresent), block, None, false)
  }

  /** The projection is asked twice, before and after the receipt; None is the node's error, which skips the record. */
  function ResolveOutcome(txHash: Option<Hex>, createdAt: Option<int>, before: Option<Confirmation>, receipt: Receipt,
                          after: Option<Confirmation>, now: int, timeoutMs: int): Option<Resolution>
  {
    if txHash.None? then
      if TimedOut(createdAt, now, timeoutMs) then Some(Stale(now)) else Some(Pending(now, ReceiptNotChecked, None))
    else if before.Some? then Some(ConfirmedBy(now, Some(before.value.blockNumber)))
    else
      match receipt
      case NodeError => None
      case NoReceipt =>
        if TimedOut(createdAt, now, timeoutMs) then Some(Stale(now)) else Some(Pending(now, ReceiptMissing, None))
      case Receipt(status, block) =>
        if status == ReceiptReverted || status == ReceiptFailed then
          Some(Resolution(FailedOutcome, now, ReconcileFields(Some(FailedOutcome), now, ReceiptBad, ProjectionNotChecked),
                          block, Some(TransactionReverted), false))
        else if status != ReceiptSuccess then Some(Pending(now, ReceiptUnknown, block))
        else if after.None? then
          Some(Resolution(IndexingOutcome, now, ReconcileFields(Some(IndexingOutcome), now, ReceiptOk, ProjectionMissing),
                          block, None, false))
        else Some(ConfirmedBy(now, Some(after.value.blockNumber)))
  }

  // ----- submissions -----

  /** The projected signal has all identity fields of the submission and came with its transaction. */
  predicate Matches(p: Projection, s: Submission)
  {
    && (s.planId, s.identity.orderId) in p
    && var signals := p[(s.planId, s.identity.orderId)];
       var key := SignalKey(s.identity.sourceId, s.identity.signalId);
       && key in signals && signals[key].identity == s.identity && signals[key].submittedAt.Some?
       && (s.txHash.Some? ==> signals[key].submittedAt.value.txHash.value == s.txHash.value.value)
  }

  function SubmissionConfirmation(p: Projection, s: Submission): Option<Confirmation>
  {
    if Matches(p, s) then p[(s.planId, s.identity.orderId)][SignalKey(s.identity.sourceId, s.identity.signalId)].submittedAt
    else None
  }

  predicate IsReconcileable(s: Submission)
  {
    if s.status == Failed then s.txHash.Some?
    else s.status == Broadcasting || s.status == SubmissionStatus.Submitted || s.status == Indexing
  }

  function SubmissionStatusFrom(o: Resolution, s: Submission): SubmissionStatus
  {
    match o.kind
    case ConfirmedOutcome => Confirmed
    case FailedOutcome => Failed
    case StalePending => Failed
    case IndexingOutcome => Indexing
    case PendingOutcome => if s.txHash.Some? then SubmissionStatus.Submitted else s.status
  }

  function Latest<T>(first: Option<T>, second: Option<T>): Option<T> { if first.Some? then first else second }

  function AttemptFrom(a: Attempt, o: Resolution): Attempt
  {
    var status := match o.kind
      case ConfirmedOutcome => AttemptConfirmed
      case FailedOutcome => AttemptFailed
      case StalePending => AttemptFailed
      case _ => AttemptSubmitted;
    var dead := status == AttemptFailed && !o.retryable;
    a.(status := status, blockNumber := Latest(o.blockNumber, a.blockNumber), errorCode := Latest(o.errorCode, a.errorCode),
       retryable := o.retryable, deadLetter := dead, updatedAt := o.checkedAt,
       retryState := if dead then DeadLettered else if o.retryable then Retryable
                     else if status == AttemptFailed then NotRetryable else NotApplicable)
  }

  function AttemptOf(a: Attempt, txHash: Option<Hex>, o: Resolution): Attempt
  {
    if a.txHash == txHash then AttemptFrom(a, o) else a
  }

  function UpdatedAttempts(s: Submission, o: Resolution): seq<Attempt>
  {
    if s.txHash.None? then s.attempts
    else seq(|s.attempts|, i requires 0 <= i < |s.attempts| => AttemptOf(s.attempts[i], s.txHash, o))
  }

  function UpdatedSubmission(s: Submission, o: Resolution): Submission
  {
    var status := SubmissionStatusFrom(o, s);
    var dead := status == Failed && !o.retryable;
    s.(status := status,
       broadcastStatus := if status == Confirmed then Confirmed else if status == Failed then Failed else s.broadcastStatus,
       fields := o.fields, blockNumber := Latest(o.blockNumber, s.blockNumber), errorCode := Latest(o.errorCode, s.errorCode),
       retryable := o.retryable, deadLetter := dead, attempts := UpdatedAttempts(s, o), updatedAt := o.checkedAt,
       retryState := if dead then DeadLettered else if o.retryable then Retryable
                     else if status == Failed || status == Expired then NotRetryable else NotApplicable)
  }

  /** What one check of one record meets. */
  datatype Surroundings = Surroundings(before: Projection, receipt: Receipt, after: Projection, now: int, timeoutMs: int)

  function Resolve(s: Submission, e: Surroundings): Option<Resolution>
  {
    ResolveOutcome(s.txHash, s.createdAt, SubmissionConfirmation(e.before, s), e.receipt, SubmissionConfirmation(e.after, s),
                   e.now, e.timeoutMs)
  }

  /** A record that cannot be reconciled, or whose node call throws, is left alone. */
  function Checked(s: Submission, e: Surroundings): Submission
  {
    if !IsReconcileable(s) || Resolve(s, e).None? then s else UpdatedSubmission(s, Resolve(s, e).value)
  }

  function Checks(s: Submission, es: seq<Surroundings>): Submission
  {
    if |es| == 0 then s else Checked(Checks(s, es[..|es| - 1]), es[|es| - 1])
  }

  predicate Reverted(r: Receipt) { r.Receipt? && (r.status == ReceiptReverted || r.status == ReceiptFailed) }

  /** The check read the receipt: there is a transaction and the projection did not know it yet. */
  predicate ReadsReceipt(s: Submission, e: Surroundings)
  {
    IsReconcileable(s) && s.txHash.Some? && !Matches(e.before, s)
  }

  /** Exactly when a check confirms a record. */
  lemma ConfirmsExactly(s: Submission, e: Surroundings)
    requires IsReconcileable(s)
    ensures Checked(s, e).status == Confirmed <==>
            s.txHash.Some? &&
            (Matches(e.before, s) || (e.receipt.Receipt? && e.receipt.status == ReceiptSuccess && Matches(e.after, s)))
  {
  }

  /** A check gives a record up for good exactly when its receipt says that it reverted. */
  lemma DeadLettersExactly(s: Submission, e: Surroundings)
    requires IsReconcileable(s) && Resolve(s, e).Some?
    ensures Checked(s, e).deadLetter <==> ReadsReceipt(s, e) && Reverted(e.receipt)
    ensures Checked(s, e).deadLetter <==> Checked(s, e).retryState == DeadLettered
    ensures Checked(s, e).deadLetter ==> Checked(s, e).status == Failed && Checked(s, e).errorCode == Some(TransactionReverted)
  {
  }

  /** A failed record with a transaction heals as soon as its signal is projected. */
  lemma FailedHeals(s: Submission, e: Surroundings)
    requires s.status == Failed && s.txHash.Some? && Matches(e.before, s)
    ensures Checked(s, e).status == Confirmed && !Checked(s, e).deadLetter && !Checked(s, e).retryable
    ensures Checked(s, e).retryState == NotApplicable
  {
  }

  /** Checks never touch what the record is: its signal, its transaction and its list of attempts. */
  lemma {:induction false} ChecksKeepIdentity(s: Submission, es: seq<Surroundings>)
    ensures var r := Checks(s, es);
      && r.planId == s.planId && r.identity == s.identity && r.txHash == s.txHash && r.createdAt == s.createdAt
      && |r.attempts| == |s.attempts|
      && forall i :: 0 <= i < |s.attempts| ==>
           && r.attempts[i].txHash == s.attempts[i].txHash && r.attempts[i].body == s.attempts[i].body
           && (s.txHash.None? || s.attempts[i].txHash != s.txHash ==> r.attempts[i] == s.attempts[i])
  {
    if |es| > 0 { ChecksKeepIdentity(s, es[..|es| - 1]); }
  }

  /** Confirmed is absorbing: a confirmed record is never changed again. */
  lemma {:induction false} ConfirmedForGood(s: Submission, es: seq<Surroundings>)
    requires s.status == Confirmed
    ensures Checks(s, es) == s
  {
    if |es| > 0 { ConfirmedForGood(s, es[..|es| - 1]); }
  }

  ghost predicate EverMatched(s: Submission, es: seq<Surroundings>)
  {
    exists i :: 0 <= i < |es| && (Matches(es[i].before, s) || Matches(es[i].after, s))
  }

  lemma SameRecordMatches(p: Projection, s: Submission, t: Submission)
    requires t.planId == s.planId && t.identity == s.identity && t.txHash == s.txHash
    ensures Matches(p, t) <==> Matches(p, s)
  {
  }

  /**
   Over any sequence of checks, receipts and projections, a record that ends confirmed was
   confirmed to begin with or has a transaction and was met by a projection with its signal,
   all identity fields and that transaction included.
   */
  lemma {:induction false} ConfirmedOnlyByFact(s: Submission, es: seq<Surroundings>)
    requires Checks(s, es).status == Confirmed
    ensures s.status == Confirmed || (s.txHash.Some? && EverMatched(s, es))
  {
    if |es| > 0 {
      var front, e := es[..|es| - 1], es[|es| - 1];
      var t := Checks(s, front);
      ChecksKeepIdentity(s, front);
      if t.status == Confirmed {
        ConfirmedOnlyByFact(s, front);
        if s.status != Confirmed {
          var i :| 0 <= i < |front| && (Matches(front[i].before, s) || Matches(front[i].after, s));
          assert es[i] == front[i];
        }
      } else {
        ConfirmsExactly(t, e);
        SameRecordMatches(e.before, s, t);
        SameRecordMatches(e.after, s, t);
        assert es[|es| - 1] == e;
      }
    }
  }

  /** The three ways a record says that it was given up agree. */
  ghost predicate Agrees(s: Submission)
  {
    && (s.deadLetter <==> s.retryState == DeadLettered)
    && (s.deadLetter ==> s.status == Failed && !s.retryable)
    && (s.status == Confirmed ==> s.broadcastStatus == Confirmed && !s.retryable)
  }

  lemma {:induction false} ChecksAgree(s: Submission, es: seq<Surroundings>)
    requires Agrees(s)
    ensures Agrees(Checks(s, es))
  {
    if |es| > 0 { ChecksAgree(s, es[..|es| - 1]); }
  }

  // ----- governance logs -----

  /** The identity projection shows what the log asked for, done by the log's transaction. */
  predicate IdentityMatches(b: Binding, log: TxLog)
  {
    match log.request
    case RegisterIdentity(subjectId, account, _, _, _) =>
      b.subjectId == subjectId && b.account == account &&
      (log.txHash.Some? ==> b.registeredAt.txHash.value == log.txHash.value)
    case RevokeIdentity(bindingId, subjectId, _, _) =>
      b.subjectId == subjectId && b.bindingId == bindingId && b.status == BindingRevoked && b.revokedAt.Some? &&
      (log.txHash.Some? ==> b.revokedAt.value.txHash.value == log.txHash.value)
  }

  function GovernanceConfirmation(bindings: seq<Binding>, log: TxLog): Option<Confirmation>
  {
    if |bindings| == 0 then None
    else if IdentityMatches(bindings[0], log) then
      var at := if log.request.RegisterIdentity? then bindings[0].registeredAt else bindings[0].revokedAt.value;
      Some(Confirmation(at.txHash, at.blockNumber))
    else GovernanceConfirmation(bindings[1..], log)
  }

  predicate GovernanceReconcileable(log: TxLog)
  {
    && (if log.status == TxFailed then log.txHash.Some? else log.status != TxConfirmed)
    && log.broadcastStatus != SimulatedTx
  }

  function GovernanceUpdate(log: TxLog, kind: Kind): TxLog
  {
    match kind
    case ConfirmedOutcome => log.(status := TxConfirmed, broadcastStatus := BroadcastConfirmed)
    case FailedOutcome => log.(status := TxFailed, broadcastStatus := BroadcastFailed)
    case StalePending => log.(status := TxFailed, broadcastStatus := BroadcastFailed)
    case IndexingOutcome =>
      log.(status := TxIndexing, broadcastStatus := if log.broadcastStatus == InBroadcast then BroadcastSubmitted else log.broadcastStatus)
    case PendingOutcome =>
      log.(status := TxPending, broadcastStatus := if log.broadcastStatus == InBroadcast then BroadcastSubmitted else log.broadcastStatus)
  }

  function CheckedLog(log: TxLog, before: seq<Binding>, receipt: Receipt, after: seq<Binding>, now: int, timeoutMs: int): TxLog
  {
    var hash := if log.txHash.Some? then Some(Hex(log.txHash.value, 0)) else None;
    var o := ResolveOutcome(hash, Some(log.createdAt), GovernanceConfirmation(before, log), receipt,
                            GovernanceConfirmation(after, log), now, timeoutMs);
    if !GovernanceReconcileable(log) || o.None? then log else GovernanceUpdate(log, o.value.kind)
  }

  lemma {:induction false} ConfirmationIsMatch(bindings: seq<Binding>, log: TxLog)
    ensures GovernanceConfirmation(bindings, log).Some? <==> exists b :: b in bindings && IdentityMatches(b, log)
  {
    if |bindings| > 0 {
      ConfirmationIsMatch(bindings[1..], log);
      assert bindings == [bindings[0]] + bindings[1..];
      assert bindings[0] in bindings;
    }
  }

  /**
   A governance log is confirmed only by the identity projection showing its own transaction;
   a confirmed or simulated one is left alone; and what makes the paged scan safe: ids,
   creation time and request stay.
   */
  lemma GovernanceCheckIsSound(log: TxLog, before: seq<Binding>, receipt: Receipt, after: seq<Binding>, now: int, timeoutMs: int)
    ensures var r := CheckedLog(log, before, receipt, after, now, timeoutMs);
      && SameIdentity(r, log) && r.request == log.request && r.txHash == log.txHash
      && (log.status == TxConfirmed || log.broadcastStatus == SimulatedTx ==> r == log)
      && (r.status == TxConfirmed && log.status != TxConfirmed ==>
            && log.txHash.Some? && r.broadcastStatus == BroadcastConfirmed
            && exists b :: (b in before || b in after) && IdentityMatches(b, log))
      && (r.status == TxFailed && log.status != TxFailed ==> r.broadcastStatus == BroadcastFailed)
  {
    ConfirmationIsMatch(before, log);
    ConfirmationIsMatch(after, log);
  }

  // ----- the pass -----

  datatype PassSummary = PassSummary(submissionsChecked: nat, updated: nat, failed: nat)

  class ReconcileWorker {
    var submissions: map<nat, Submission>
    var checking: bool

    constructor ()
      ensures submissions == map[] && !checking
    {
      submissions, checking := map[], false;
    }

    /** A second call while one is under way returns at once with an empty summary. */
    method RunOnce(surroundings: nat -> Surroundings) returns (summary: PassSummary)
      modifies this
      ensures old(checking) ==> submissions == old(submissions) && checking && summary == PassSummary(0, 0, 0)
      ensures !old(checking) ==>
        && !checking
        && submissions == PassOver(old(submissions), old(submissions).Keys, surroundings)
        && summary == SummaryOf(old(submissions), old(submissions).Keys, surroundings)
    {
      if checking { return PassSummary(0, 0, 0); }
      checking := true;
      summary := RunReconcilePass(surroundings);
      checking := false;
    }

    /** One record; `None` is a record that was not checked. */
    method ReconcileSubmission(id: nat, e: Surroundings) returns (outcome: Option<Option<Submission>>)
      requires id in submissions
      modifies this`submissions
      ensures submissions == old(submissions)[id := Checked(old(submissions)[id], e)]
      ensures outcome == OutcomeAt(old(submissions)[id], e)
    {
      var submission := submissions[id];
      assert submissions[id := submission] == submissions;
      if !IsReconcileable(submission) {
        return None;
      }
      var resolution := Resolve(submission, e);
      if resolution.None? {
        return Some(None);
      }
      var updated := UpdatedSubmission(submission, resolution.value);
      submissions := submissions[id := updated];
      outcome := Some(Some(updated));
    }

    /** One broken record costs a count and nothing else. */
    method RunReconcilePass(surroundings: nat -> Surroundings) returns (summary: PassSummary)
      modifies this`submissions
      ensures submissions == PassOver(old(submissions), old(submissions).Keys, surroundings)
      ensures summary == SummaryOf(old(submissions), old(submissions).Keys, surroundings)
    {
      ghost var was := submissions;
      summary := PassSummary(0, 0, 0);
      var rest := submissions.Keys;
      ghost var done: set<nat> := {};
      while rest != {}
        invariant rest <= was.Keys && done == was.Keys - rest
        invariant submissions == PassOver(was, done, surroundings)
        invariant summary == SummaryOf(was, done, surroundings)
        decreases |rest|
      {
        var id :| id in rest;
        CountOneMore(was, done, surroundings, id);
        PassOneMore(was, done, surroundings, id);
        rest := rest - {id};
        done := done + {id};
        var outcome := ReconcileSubmission(id, surroundings(id));
        summary := Counted(summary, outcome);
      }
      assert done == was.Keys;
    }
  }

  function OutcomeAt(s: Submission, e: Surroundings): Option<Option<Submission>>
  {
    if !IsReconcileable(s) then None
    else if Resolve(s, e).None? then Some(None)
    else Some(Some(UpdatedSubmission(s, Resolve(s, e).value)))
  }

  function Counted(p: PassSummary, outcome: Option<Option<Submission>>): PassSummary
  {
    match outcome
    case None => p
    case Some(None) => p.(submissionsChecked := p.submissionsChecked + 1, failed := p.failed + 1)
    case Some(Some(updated)) =>
      PassSummary(p.submissionsChecked + 1, p.updated + 1, p.failed + if updated.status == Failed then 1 else 0)
  }

  function Eligible(subs: map<nat, Submission>, ids: set<nat>): set<nat>
    requires ids <= subs.Keys
  {
    set id | id in ids && IsReconcileable(subs[id])
  }

  function Resolved(subs: map<nat, Submission>, ids: set<nat>, e: nat -> Surroundings): set<nat>
    requires ids <= subs.Keys
  {
    set id | id in ids && IsReconcileable(subs[id]) && Resolve(subs[id], e(id)).Some?
  }

  predicate CountsFailed(s: Submission, e: Surroundings)
  {
    IsReconcileable(s) && (Resolve(s, e).None? || UpdatedSubmission(s, Resolve(s, e).value).status == Failed)
  }

  function Failing(subs: map<nat, Submission>, ids: set<nat>, e: nat -> Surroundings): set<nat>
    requires ids <= subs.Keys
  {
    set id | id in ids && CountsFailed(subs[id], e(id))
  }

  /** The store once the records in `done` have been checked. */
  function PassOver(subs: map<nat, Submission>, done: set<nat>, e: nat -> Surroundings): map<nat, Submission>
  {
    map id | id in subs :: if id in done then Checked(subs[id], e(id)) else subs[id]
  }

  /** How many records were checked, were updated, and ended failed or broken. */
  function SummaryOf(subs: map<nat, Submission>, done: set<nat>, e: nat -> Surroundings): PassSummary
    requires done <= subs.Keys
  {
    PassSummary(|Eligible(subs, done)|, |Resolved(subs, done, e)|, |Failing(subs, done, e)|)
  }

  lemma PassOneMore(subs: map<nat, Submission>, done: set<nat>, e: nat -> Surroundings, id: nat)
    requires id in subs && id !in done
    ensures PassOver(subs, done, e)[id] == subs[id]
    ensures PassOver(subs, done, e)[id := Checked(subs[id], e(id))] == PassOver(subs, done + {id}, e)
  {
  }

  // ----- passes -----

  /** The store after a sequence of passes. */
  function Passes(subs: map<nat, Submission>, es: seq<nat -> Surroundings>): map<nat, Submission>
  {
    if |es| == 0 then subs
    else
      var before := Passes(subs, es[..|es| - 1]);
      PassOver(before, before.Keys, es[|es| - 1])
  }

  /** What the passes are for one record. */
  function ChecksOf(es: seq<nat -> Surroundings>, id: nat): seq<Surroundings>
  {
    if |es| == 0 then [] else ChecksOf(es[..|es| - 1], id) + [es[|es| - 1](id)]
  }

  lemma {:induction false} PassesAreChecks(subs: map<nat, Submission>, es: seq<nat -> Surroundings>, id: nat)
    requires id in subs
    ensures id in Passes(subs, es) && Passes(subs, es)[id] == Checks(subs[id], ChecksOf(es, id))
  {
    if |es| > 0 {
      PassesAreChecks(subs, es[..|es| - 1], id);
      var front, last := ChecksOf(es[..|es| - 1], id), es[|es| - 1](id);
      assert (front + [last])[..|front|] == front;
    }
  }

  lemma {:induction false} ChecksOfAt(es: seq<nat -> Surroundings>, id: nat, i: nat)
    requires i < |ChecksOf(es, id)|
    ensures |ChecksOf(es, id)| == |es| && ChecksOf(es, id)[i] == es[i](id)
  {
    ChecksOfSize(es, id);
    if i < |es| - 1 { ChecksOfAt(es[..|es| - 1], id, i); }
  }

  lemma {:induction false} ChecksOfSize(es: seq<nat -> Surroundings>, id: nat)
    ensures |ChecksOf(es, id)| == |es|
  {
    if |es| > 0 { ChecksOfSize(es[..|es| - 1], id); }
  }

  /**
   Over any sequence of passes, whatever happens to the other records: a record that ends
   confirmed was confirmed from the start, or it has a transaction and in some pass the
   projection showed its signal with that transaction.
   */
  lemma PassesConfirmOnlyByFact(subs: map<nat, Submission>, es: seq<nat -> Surroundings>, id: nat)
    requires id in subs && id in Passes(subs, es) && Passes(subs, es)[id].status == Confirmed
    ensures subs[id].status == Confirmed ||
      (subs[id].txHash.Some? &&
       exists i :: 0 <= i < |es| && (Matches(es[i](id).before, subs[id]) || Matches(es[i](id).after, subs[id])))
  {
    PassesAreChecks(subs, es, id);
    var checks := ChecksOf(es, id);
    ConfirmedOnlyByFact(subs[id], checks);
    if subs[id].status != Confirmed {
      var i :| 0 <= i < |checks| && (Matches(checks[i].before, subs[id]) || Matches(checks[i].after, subs[id]));
      ChecksOfAt(es, id, i);
    }
  }

  lemma EligibleOneMore(subs: map<nat, Submission>, ids: set<nat>, id: nat)
    requires ids <= subs.Keys && id in subs && id !in ids
    ensures |Eligible(subs, ids + {id})| == |Eligible(subs, ids)| + if IsReconcileable(subs[id]) then 1 else 0
  {
    assert Eligible(subs, ids + {id}) == Eligible(subs, ids) + if IsReconcileable(subs[id]) then {id} else {};
  }

  lemma ResolvedOneMore(subs: map<nat, Submission>, ids: set<nat>, e: nat -> Surroundings, id: nat)
    requires ids <= subs.Keys && id in subs && id !in ids
    ensures |Resolved(subs, ids + {id}, e)|
         == |Resolved(subs, ids, e)| + if IsReconcileable(subs[id]) && Resolve(subs[id], e(id)).Some? then 1 else 0
  {
    assert Resolved(subs, ids + {id}, e) == Resolved(subs, ids, e) +
      if IsReconcileable(subs[id]) && Resolve(subs[id], e(id)).Some? then {id} else {};
  }

  lemma FailingOneMore(subs: map<nat, Submission>, ids: set<nat>, e: nat -> Surroundings, id: nat)
    requires ids <= subs.Keys && id in subs && id !in ids
    ensures |Failing(subs, ids + {id}, e)| == |Failing(subs, ids, e)| + if CountsFailed(subs[id], e(id)) then 1 else 0
  {
    assert Failing(subs, ids + {id}, e) == Failing(subs, ids, e) + if CountsFailed(subs[id], e(id)) then {id} else {};
  }

  lemma CountOneMore(subs: map<nat, Submission>, ids: set<nat>, e: nat -> Surroundings, id: nat)
    requires ids <= subs.Keys && id in subs && id !in ids
    ensures var more := ids + {id};
      Counted(SummaryOf(subs, ids, e), OutcomeAt(subs[id], e(id)))
      == SummaryOf(subs, more, e)
  {
    EligibleOneMore(subs, ids, id);
    ResolvedOneMore(subs, ids, e, id);
    FailingOneMore(subs, ids, e, id);
  }
}
