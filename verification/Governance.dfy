/** Reviews, identity registration and the revocation saga (service/src/governance/service.ts). */
module Governance {
  import opened Prelude
  import opened Sorting
  import opened GovernanceLedger

  datatype GovernanceError =
    | RoleRequired | InvalidBody | ReviewNotFound | SubjectTypeMismatch | SubjectMismatch
    | InvalidTransition | ReviewNotApproved

  datatype Role = Administrator | StoreOperator | OtherRole

  /** A request body for a review; absent optional fields are taken from the stored review. */
  datatype ReviewRecord = ReviewRecord(
    reviewId: Option<nat>, subjectId: Option<nat>, status: Option<ReviewStatus>, riskLevel: Option<nat>,
    riskTags: Option<seq<nat>>, publicSummary: Option<nat>, internalNotes: Option<nat>, metadataURI: Option<nat>,
    metadata: Option<nat>, policy: Option<nat>)

  datatype RegisterRecord = RegisterRecord(
    reviewId: Option<nat>, subjectId: Option<nat>, account: Option<nat>, profile: nat)

  datatype RevokeRecord = RevokeRecord(
    reviewId: Option<nat>, subjectId: Option<nat>, bindingId: Option<nat>, reason: Option<nat>,
    publicSummary: Option<nat>, internalNotes: Option<nat>, metadataURI: Option<nat>, metadata: Option<nat>)

  /** What a call finds around it: who calls, the clock, a new id, and what the chain adapter would answer. */
  datatype Call = Call(role: Role, admin: nat, now: nat, newId: nat, answer: Broadcast)

  /** Throwing counts as a failed broadcast. */
  datatype Broadcast = Answered(status: BroadcastStatus, txHash: Option<nat>) | AdapterThrew

  datatype Outcome = Refused(error: GovernanceError) | Duplicate(log: TxLog) | Recorded(log: TxLog)

  const UNKNOWN_RISK: nat := 0
  const EMPTY_TEXT: nat := 0
  const DEFAULT_REASON: nat := 1

  predicate CanTransition(from: ReviewStatus, to: ReviewStatus)
  {
    from == to ||
    match from
    case Draft => to != Draft
    case Submitted => to != Submitted
    case ApprovedForBroadcast => to == Restricted || to == Revoked
    case Approved => to == Restricted || to == Revoked
    case Restricted => to == ApprovedForBroadcast || to == Approved || to == Rejected || to == Revoked
    case Rejected => to == Draft || to == Submitted || to == Revoked
    case Revoked => false
  }

  predicate Approving(s: ReviewStatus) { s == ApprovedForBroadcast || s == Approved || s == Restricted }

  function OrElse<T>(first: Option<T>, second: T): T { if first.Some? then first.value else second }

  function Either<T>(first: Option<T>, second: Option<T>): Option<T> { if first.Some? then first else second }

  /** The material that is hashed: the tags in ascending order. */
  function HashInput(m: ReviewMaterial): ReviewMaterial { m.(riskTags := Sort(m.riskTags, (a: nat, b: nat) => a < b)) }

  // ----- reviews -----

  type Reviews = map<nat, Review>

  function ReviewOf(reviews: Reviews, id: Option<nat>): Option<Review>
  {
    if id.Some? && id.value in reviews then Some(reviews[id.value]) else None
  }

  function CheckReview(reviews: Reviews, subjectType: SubjectType, rec: ReviewRecord): Result<Option<Review>, GovernanceError>
  {
    var existing := ReviewOf(reviews, rec.reviewId);
    if rec.reviewId.Some? && existing.None? then Err(ReviewNotFound)
    else if existing.Some? && existing.value.material.subjectType != subjectType then Err(SubjectTypeMismatch)
    else if rec.subjectId.None? then Err(InvalidBody)
    else if existing.Some? && existing.value.material.subjectId != rec.subjectId.value then Err(SubjectMismatch)
    else if rec.status.None? then Err(InvalidBody)
    else if existing.Some? && !CanTransition(existing.value.material.status, rec.status.value) then Err(InvalidTransition)
    else Ok(existing)
  }

  function NewReview(existing: Option<Review>, subjectType: SubjectType, rec: ReviewRecord, call: Call): Review
    requires rec.subjectId.Some? && rec.status.Some?
  {
    var was := if existing.Some? then existing.value.material
      else ReviewMaterial(subjectType, rec.subjectId.value, rec.status.value, UNKNOWN_RISK, [], EMPTY_TEXT, None, None);
    var material := ReviewMaterial(subjectType, rec.subjectId.value, rec.status.value, OrElse(rec.riskLevel, was.riskLevel),
      OrElse(rec.riskTags, was.riskTags), OrElse(rec.publicSummary, was.publicSummary),
      Either(rec.metadata, was.metadata), Either(rec.policy, was.policy));
    Review(
      if existing.Some? then existing.value.reviewId else call.newId,
      material,
      OrElse(rec.internalNotes, if existing.Some? then existing.value.internalNotes else EMPTY_TEXT),
      if rec.metadataURI.Some? then Given(rec.metadataURI.value)
      else if existing.Some? then existing.value.metadataURI else OfReview(HashInput(material)),
      call.admin,
      if existing.Some? then existing.value.createdAt else call.now,
      call.now)
  }

  predicate MayReview(subjectType: SubjectType, role: Role)
  {
    role == Administrator || (subjectType == Supplier && role == StoreOperator)
  }

  function SaveReview(reviews: Reviews, subjectType: SubjectType, rec: ReviewRecord, call: Call): Result<Review, GovernanceError>
  {
    if !MayReview(subjectType, call.role) then Err(RoleRequired)
    else
      match CheckReview(reviews, subjectType, rec)
      case Err(error) => Err(error)
      case Ok(existing) => Ok(NewReview(existing, subjectType, rec, call))
  }

  predicate Newer(l: Review, r: Review)
  {
    l.updatedAt > r.updatedAt || (l.updatedAt == r.updatedAt && l.reviewId > r.reviewId)
  }

  predicate About(r: Review, subjectType: SubjectType, subjectId: nat)
  {
    r.material.subjectType == subjectType && r.material.subjectId == subjectId
  }

  /** The review of a subject that was updated last. */
  ghost predicate IsLatest(reviews: Reviews, subjectType: SubjectType, subjectId: nat, found: Option<Review>)
  {
    match found
    case None => forall id :: id in reviews ==> !About(reviews[id], subjectType, subjectId)
    case Some(r) =>
      && (exists id :: id in reviews && reviews[id] == r)
      && About(r, subjectType, subjectId)
      && forall id :: id in reviews && About(reviews[id], subjectType, subjectId) ==> !Newer(reviews[id], r)
  }

  /** The review a request speaks of: the one it names, or else the subject's latest. */
  ghost predicate Resolves(reviews: Reviews, reviewId: Option<nat>, subjectId: nat, found: Result<Option<Review>, GovernanceError>)
  {
    if reviewId.Some? then
      found ==
        if reviewId.value !in reviews then Err(ReviewNotFound)
        else if !About(reviews[reviewId.value], Supplier, subjectId) then Err(SubjectMismatch)
        else Ok(Some(reviews[reviewId.value]))
    else found.Ok? && IsLatest(reviews, Supplier, subjectId, found.value)
  }

  function RevokedReview(review: Review, rec: RevokeRecord, call: Call): Review
  {
    if review.material.status == Revoked then review
    else
      var summary := OrElse(rec.publicSummary, OrElse(rec.reason, review.material.publicSummary));
      review.(material := review.material.(status := Revoked, publicSummary := summary),
              internalNotes := OrElse(rec.internalNotes, review.internalNotes),
              metadataURI := if rec.metadataURI.Some? then Given(rec.metadataURI.value) else review.metadataURI,
              reviewer := call.admin, updatedAt := call.now)
  }

  // ----- the ledger -----

  predicate Reusable(l: TxLog)
  {
    l.broadcastStatus == SimulatedTx || l.broadcastStatus == BroadcastSubmitted || l.broadcastStatus == BroadcastConfirmed
  }

  predicate Answers(l: TxLog, request: Request) { l.request == request && Reusable(l) }

  predicate NewerLog(l: TxLog, r: TxLog)
  {
    l.createdAt > r.createdAt || (l.createdAt == r.createdAt && l.logId > r.logId)
  }

  function FirstAnswer(logs: seq<TxLog>, request: Request): Option<TxLog>
  {
    if |logs| == 0 then None
    else if Answers(logs[0], request) then Some(logs[0])
    else FirstAnswer(logs[1..], request)
  }

  function ReusableDuplicate(logs: seq<TxLog>, request: Request): Option<TxLog>
  {
    FirstAnswer(Sort(logs, NewerLog), request)
  }

  function StatusOf(b: Broadcast): BroadcastStatus { if b.Answered? then b.status else BroadcastFailed }

  function LogStatusOf(s: BroadcastStatus): TxStatus
  {
    match s
    case SimulatedTx => TxPending
    case BroadcastSubmitted => TxPending
    case BroadcastConfirmed => TxIndexing
    case InBroadcast => TxBroadcasting
    case BroadcastFailed => TxFailed
  }

  function NewLog(request: Request, call: Call): TxLog
  {
    TxLog(call.newId, call.newId, call.now, request, LogStatusOf(StatusOf(call.answer)), StatusOf(call.answer),
          if call.answer.Answered? then call.answer.txHash else None, call.admin)
  }

  function RegistrationRequest(review: Review, subjectId: nat, account: nat, profile: nat, publicBase: bool): Request
  {
    var descriptor := Descriptor(subjectId, account, HashInput(review.material), profile);
    RegisterIdentity(subjectId, account, descriptor, if publicBase then OfDescriptor(descriptor) else review.metadataURI,
                     Some(review.reviewId))
  }

  function RevocationRequest(revoked: Option<Review>, bindingId: nat, subjectId: nat, rec: RevokeRecord): Request
  {
    var reason := ReasonMaterial(subjectId, OrElse(rec.reason, OrElse(rec.publicSummary, DEFAULT_REASON)), rec.metadata,
      if revoked.Some? then Some(HashInput(revoked.value.material)) else None);
    RevokeIdentity(bindingId, subjectId, reason, if revoked.Some? then Some(revoked.value.reviewId) else None)
  }

  class GovernanceService {
    const store: InMemoryGovernanceStore
    const descriptorPublicBase: bool
    /** Every request the adapter was asked to broadcast. */
    ghost var broadcasts: seq<Request>

    constructor (store: InMemoryGovernanceStore, descriptorPublicBase: bool)
      ensures this.store == store && this.descriptorPublicBase == descriptorPublicBase && broadcasts == []
    {
      this.store, this.descriptorPublicBase, broadcasts := store, descriptorPublicBase, [];
    }

    method ReviewSubject(subjectType: SubjectType, rec: ReviewRecord, call: Call) returns (r: Result<Review, GovernanceError>)
      modifies store`reviews
      ensures r == SaveReview(old(store.reviews), subjectType, rec, call)
      ensures store.reviews == if r.Ok? then old(store.reviews)[r.value.reviewId := r.value] else old(store.reviews)
    {
      if !MayReview(subjectType, call.role) { return Err(RoleRequired); }
      var existing := CheckReview(store.reviews, subjectType, rec);
      if existing.Err? { return Err(existing.error); }
      var review := NewReview(existing.value, subjectType, rec, call);
      store.PutReview(review);
      r := Ok(review);
    }

    method FindLatestReview(subjectType: SubjectType, subjectId: nat) returns (found: Option<Review>)
      ensures IsLatest(store.reviews, subjectType, subjectId, found)
    {
      found := None;
      var rest := store.reviews.Keys;
      while rest != {}
        invariant rest <= store.reviews.Keys
        invariant found.None? ==> forall id :: id in store.reviews && id !in rest ==> !About(store.reviews[id], subjectType, subjectId)
        invariant found.Some? ==> exists id :: id in store.reviews && store.reviews[id] == found.value
        invariant found.Some? ==> About(found.value, subjectType, subjectId)
        invariant found.Some? ==>
          forall id | id in store.reviews && id !in rest && About(store.reviews[id], subjectType, subjectId) ::
            !Newer(store.reviews[id], found.value)
        decreases |rest|
      {
        var id :| id in rest;
        rest := rest - {id};
        var review := store.reviews[id];
        if About(review, subjectType, subjectId) && (found.None? || Newer(review, found.value)) {
          found := Some(review);
        }
      }
    }

    method ResolveReview(reviewId: Option<nat>, subjectId: nat) returns (found: Result<Option<Review>, GovernanceError>)
      ensures Resolves(store.reviews, reviewId, subjectId, found)
    {
      if reviewId.Some? {
        if reviewId.value !in store.reviews { return Err(ReviewNotFound); }
        if !About(store.reviews[reviewId.value], Supplier, subjectId) { return Err(SubjectMismatch); }
        return Ok(Some(store.reviews[reviewId.value]));
      }
      var latest := FindLatestReview(Supplier, subjectId);
      found := Ok(latest);
    }

    /** Answers from a reusable log if there is one, and else broadcasts and records. */
    method BroadcastOnce(request: Request, call: Call) returns (o: Outcome)
      modifies this`broadcasts, store`identityLogs
      ensures o == OutcomeOf(old(store.identityLogs), request, call)
      ensures store.identityLogs == Recording(old(store.identityLogs), request, call)
      ensures broadcasts == old(broadcasts) + if o.Recorded? then [request] else []
    {
      var duplicate := ReusableDuplicate(store.identityLogs, request);
      if duplicate.Some? { return Duplicate(duplicate.value); }
      broadcasts := broadcasts + [request];
      var log := NewLog(request, call);
      store.AppendIdentityTxLog(log);
      o := Recorded(log);
    }

    /**
     A registration is refused, or made from a stored review of the subject that is in an
     approving status; only such a request is ever broadcast.
     */
    method RegisterIdentity(rec: RegisterRecord, call: Call) returns (o: Outcome, ghost review: Option<Review>)
      modifies this`broadcasts, store`identityLogs
      ensures call.role != Administrator ==> o == Refused(RoleRequired)
      ensures o.Refused? ==> store.identityLogs == old(store.identityLogs) && broadcasts == old(broadcasts)
      ensures !o.Refused? ==>
        && rec.subjectId.Some? && rec.account.Some?
        && review.Some? && Approving(review.value.material.status)
        && Resolves(store.reviews, rec.reviewId, rec.subjectId.value, Ok(review))
        && var request := RegistrationRequest(review.value, rec.subjectId.value, rec.account.value, rec.profile, descriptorPublicBase);
           && o == OutcomeOf(old(store.identityLogs), request, call)
           && State(store.reviews, store.identityLogs) == Do(old(State(store.reviews, store.identityLogs)), Register(request, call))
           && broadcasts == old(broadcasts) + if o.Recorded? then [request] else []
    {
      review := None;
      if call.role != Administrator { o := Refused(RoleRequired); return; }
      if rec.subjectId.None? || rec.account.None? { o := Refused(InvalidBody); return; }
      var found := ResolveReview(rec.reviewId, rec.subjectId.value);
      if found.Err? { o := Refused(found.error); return; }
      if found.value.None? { o := Refused(ReviewNotApproved); return; }
      review := found.value;
      if !Approving(found.value.value.material.status) { o := Refused(ReviewNotApproved); return; }
      var request := RegistrationRequest(found.value.value, rec.subjectId.value, rec.account.value, rec.profile, descriptorPublicBase);
      o := BroadcastOnce(request, call);
    }

    /**
     The saga: mark the review revoked, broadcast, and put the review back if the broadcast
     failed. `target` is the review the request resolved to.
     */
    method RevokeIdentity(rec: RevokeRecord, call: Call) returns (o: Outcome, ghost target: Option<Review>)
      requires KeyedById(store.reviews)
      modifies this`broadcasts, store
      ensures o.Refused? ==>
        store.reviews == old(store.reviews) && store.identityLogs == old(store.identityLogs) && broadcasts == old(broadcasts)
      ensures !o.Refused? ==>
        && rec.subjectId.Some? && rec.bindingId.Some? && call.role == Administrator
        && Resolves(old(store.reviews), rec.reviewId, rec.subjectId.value, Ok(target))
        && var act := Revoke(target, rec, call, rec.bindingId.value, rec.subjectId.value);
           && o == OutcomeOf(old(store.identityLogs), RequestOf(act), call)
           && State(store.reviews, store.identityLogs) == Do(old(State(store.reviews, store.identityLogs)), act)
           && broadcasts == old(broadcasts) + if o.Recorded? then [RequestOf(act)] else []
    {
      target := None;
      if call.role != Administrator { o := Refused(RoleRequired); return; }
      if rec.subjectId.None? || rec.bindingId.None? { o := Refused(InvalidBody); return; }
      var found := ResolveReview(rec.reviewId, rec.subjectId.value);
      if found.Err? { o := Refused(found.error); return; }
      var review := found.value;
      target := review;
      var revoked: Option<Review> := None;
      if review.Some? {
        AnyStatusCanBeRevoked(review.value.material.status);
        revoked := Some(RevokedReview(review.value, rec, call));
        if review.value.material.status != Revoked { store.PutReview(revoked.value); }
      }
      var request := RevocationRequest(revoked, rec.bindingId.value, rec.subjectId.value, rec);
      o := BroadcastOnce(request, call);
      if o.Recorded? && o.log.broadcastStatus == BroadcastFailed && review.Some? && review.value.material.status != Revoked {
        store.PutReview(review.value);
      }
    }
  }

  // ----- what calls do -----

  datatype State = State(reviews: Reviews, logs: seq<TxLog>)

  /** A call that was not refused. */
  datatype Act =
    | Save(subjectType: SubjectType, rec: ReviewRecord, saving: Call)
    | Register(request: Request, registering: Call)
    | Revoke(target: Option<Review>, revoke: RevokeRecord, revoking: Call, bindingId: nat, subjectId: nat)

  function Recording(logs: seq<TxLog>, request: Request, call: Call): seq<TxLog>
  {
    if ReusableDuplicate(logs, request).Some? then logs else logs + [NewLog(request, call)]
  }

  function OutcomeOf(logs: seq<TxLog>, request: Request, call: Call): Outcome
  {
    var duplicate := ReusableDuplicate(logs, request);
    if duplicate.Some? then Duplicate(duplicate.value) else Recorded(NewLog(request, call))
  }

  function RequestOf(a: Act): Request
    requires a.Revoke?
  {
    RevocationRequest(if a.target.None? then None else Some(RevokedReview(a.target.value, a.revoke, a.revoking)),
                      a.bindingId, a.subjectId, a.revoke)
  }

  /** What a revocation leaves of the reviews: the target revoked, unless a broadcast was tried and failed. */
  function RevokedReviews(s: State, a: Act): Reviews
    requires a.Revoke?
  {
    var o := OutcomeOf(s.logs, RequestOf(a), a.revoking);
    if a.target.None? || (o.Recorded? && o.log.broadcastStatus == BroadcastFailed) then s.reviews
    else s.reviews[a.target.value.reviewId := RevokedReview(a.target.value, a.revoke, a.revoking)]
  }

  function Do(s: State, a: Act): State
  {
    match a
    case Save(subjectType, rec, call) =>
      var saved := SaveReview(s.reviews, subjectType, rec, call);
      if saved.Ok? then s.(reviews := s.reviews[saved.value.reviewId := saved.value]) else s
    case Register(request, call) => s.(logs := Recording(s.logs, request, call))
    case Revoke(_, _, call, _, _) => State(RevokedReviews(s, a), Recording(s.logs, RequestOf(a), call))
  }

  function Run(s: State, acts: seq<Act>): State
  {
    if |acts| == 0 then s else Do(Run(s, acts[..|acts| - 1]), acts[|acts| - 1])
  }

  ghost predicate KeyedById(reviews: Reviews) { forall id :: id in reviews ==> reviews[id].reviewId == id }

  /** New ids are new, and a revocation's target is a stored review. */
  ghost predicate Legal(s: State, a: Act)
  {
    && (a.Save? && a.rec.reviewId.None? ==> a.saving.newId !in s.reviews)
    && (a.Revoke? && a.target.Some? ==> a.target.value.reviewId in s.reviews && s.reviews[a.target.value.reviewId] == a.target.value)
  }

  ghost predicate LegalRun(s: State, acts: seq<Act>)
  {
    |acts| > 0 ==> LegalRun(s, acts[..|acts| - 1]) && Legal(Run(s, acts[..|acts| - 1]), acts[|acts| - 1])
  }

  lemma AnyStatusCanBeRevoked(s: ReviewStatus)
    ensures CanTransition(s, Revoked)
  {
  }

  lemma {:induction false} FirstAnswerFinds(logs: seq<TxLog>, request: Request)
    ensures FirstAnswer(logs, request).Some? <==> exists l :: l in logs && Answers(l, request)
    ensures FirstAnswer(logs, request).Some? ==> FirstAnswer(logs, request).value in logs && Answers(FirstAnswer(logs, request).value, request)
  {
    if |logs| > 0 {
      FirstAnswerFinds(logs[1..], request);
      assert logs == [logs[0]] + logs[1..];
      assert logs[0] in logs;
    }
  }

  lemma DuplicateIsStored(logs: seq<TxLog>, request: Request)
    ensures ReusableDuplicate(logs, request).Some? <==> exists l :: l in logs && Answers(l, request)
    ensures ReusableDuplicate(logs, request).Some? ==>
      ReusableDuplicate(logs, request).value in logs && Answers(ReusableDuplicate(logs, request).value, request)
  {
    SortPermutes(logs, NewerLog);
    FirstAnswerFinds(Sort(logs, NewerLog), request);
  }

  // ----- main results -----

  lemma StepKeepsRevoked(s: State, a: Act, id: nat)
    requires KeyedById(s.reviews) && Legal(s, a)
    ensures KeyedById(Do(s, a).reviews)
    ensures id in s.reviews ==>
      && id in Do(s, a).reviews
      && CanTransition(s.reviews[id].material.status, Do(s, a).reviews[id].material.status)
      && Do(s, a).reviews[id].material.subjectId == s.reviews[id].material.subjectId
  {
  }

  /** Revoked is absorbing: once a review is revoked at the end of a call, no sequence of calls brings it back. */
  lemma {:induction false} RevokedForGood(s: State, acts: seq<Act>, id: nat)
    requires KeyedById(s.reviews) && LegalRun(s, acts)
    requires id in s.reviews && s.reviews[id].material.status == Revoked
    ensures KeyedById(Run(s, acts).reviews)
    ensures id in Run(s, acts).reviews && Run(s, acts).reviews[id].material.status == Revoked
  {
    if |acts| > 0 {
      RevokedForGood(s, acts[..|acts| - 1], id);
      StepKeepsRevoked(Run(s, acts[..|acts| - 1]), acts[|acts| - 1], id);
    }
  }

  /**
   The compensation is exact: a revocation leaves the reviews as they were if and only if its
   broadcast was tried and failed, or there was nothing left to revoke.
   */
  lemma {:induction false} RevocationCompensates(s: State, a: Act)
    requires a.Revoke? && KeyedById(s.reviews) && Legal(s, a)
    ensures var o := OutcomeOf(s.logs, RequestOf(a), a.revoking);
      Do(s, a).reviews == s.reviews <==>
        a.target.None? || a.target.value.material.status == Revoked || (o.Recorded? && o.log.broadcastStatus == BroadcastFailed)
    ensures a.target.Some? && Do(s, a).reviews != s.reviews ==> Do(s, a).reviews[a.target.value.reviewId].material.status == Revoked
  {
    if a.target.Some? {
      var id := a.target.value.reviewId;
      assert s.reviews[id := s.reviews[id]] == s.reviews;
    }
  }

  function CountAnswers(logs: seq<TxLog>, request: Request): nat
  {
    if |logs| == 0 then 0
    else CountAnswers(logs[..|logs| - 1], request) + if Answers(logs[|logs| - 1], request) then 1 else 0
  }

  lemma {:induction false} NoAnswers(logs: seq<TxLog>, request: Request)
    ensures CountAnswers(logs, request) == 0 <==> forall l :: l in logs ==> !Answers(l, request)
  {
    if |logs| > 0 {
      NoAnswers(logs[..|logs| - 1], request);
      assert logs == logs[..|logs| - 1] + [logs[|logs| - 1]];
      assert logs[|logs| - 1] in logs;
    }
  }

  lemma RecordingKeepsOne(logs: seq<TxLog>, request: Request, call: Call, other: Request)
    requires CountAnswers(logs, other) <= 1
    ensures CountAnswers(Recording(logs, request, call), other) <= 1
  {
    DuplicateIsStored(logs, request);
    NoAnswers(logs, request);
    var added := logs + [NewLog(request, call)];
    assert added[..|logs|] == logs;
  }

  /** Over any sequence of calls a request has at most one log with a successful broadcast. */
  lemma {:induction false} OneSuccessfulBroadcast(s: State, acts: seq<Act>, request: Request)
    requires CountAnswers(s.logs, request) <= 1
    ensures CountAnswers(Run(s, acts).logs, request) <= 1
  {
    if |acts| > 0 {
      var front, a := acts[..|acts| - 1], acts[|acts| - 1];
      OneSuccessfulBroadcast(s, front, request);
      match a
      case Save(_, _, _) =>
      case Register(r, call) => RecordingKeepsOne(Run(s, front).logs, r, call, request);
      case Revoke(_, _, call, _, _) => RecordingKeepsOne(Run(s, front).logs, RequestOf(a), call, request);
    }
  }
}
