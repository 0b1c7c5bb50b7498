/**
 The governance store with its reviews and its transaction ledger, and the paged scan of
 the ledger while it is being rewritten (service/src/governance/store.ts and the scan loop
 of service/src/reconcile/worker.ts). Time stamps and ids are numbers: string comparison
 with `>` and the locale comparison are taken to be one total order on them.
 */
module GovernanceLedger {
  import opened Prelude
  import opened Sorting

  datatype SubjectType = Zhixu | Supplier

  datatype ReviewStatus = Draft | Submitted | ApprovedForBroadcast | Approved | Restricted | Rejected | Revoked

  /** The fields a review hash is computed from. */
  datatype ReviewMaterial = ReviewMaterial(
    subjectType: SubjectType, subjectId: nat, status: ReviewStatus, riskLevel: nat, riskTags: seq<nat>,
    publicSummary: nat, metadata: Option<nat>, policy: Option<nat>)

  datatype Review = Review(
    reviewId: nat, material: ReviewMaterial, internalNotes: nat, metadataURI: Uri, reviewer: nat,
    createdAt: nat, updatedAt: nat)

  datatype TxStatus = TxPending | TxBroadcasting | TxIndexing | TxConfirmed | TxFailed

  datatype BroadcastStatus = SimulatedTx | InBroadcast | BroadcastSubmitted | BroadcastConfirmed | BroadcastFailed

  /** Where a document can be read: given by the caller, or derived from the digest of some material. */
  datatype Uri =
    | Given(text: nat)
    | OfReview(review: ReviewMaterial)
    | OfDescriptor(descriptor: Descriptor)
    | OfReason(reason: ReasonMaterial)

  datatype Descriptor = Descriptor(subjectId: nat, account: nat, review: ReviewMaterial, profile: nat)

  datatype ReasonMaterial = ReasonMaterial(subjectId: nat, reason: nat, metadata: Option<nat>, review: Option<ReviewMaterial>)

  /** Digests are free constructors over their material: equal digests mean equal material. */
  datatype Request =
    | RegisterIdentity(subjectId: nat, account: nat, descriptor: Descriptor, uri: Uri, reviewId: Option<nat>)
    | RevokeIdentity(bindingId: nat, subjectId: nat, reason: ReasonMaterial, reviewId: Option<nat>)

  datatype TxLog = TxLog(
    logId: nat, txLogId: nat, createdAt: nat, request: Request, status: TxStatus, broadcastStatus: BroadcastStatus,
    txHash: Option<nat>, detail: nat)

  predicate IsOpen(l: TxLog) { l.status != TxConfirmed }

  predicate Earlier(l: TxLog, r: TxLog)
  {
    l.createdAt < r.createdAt || (l.createdAt == r.createdAt && l.logId < r.logId)
  }

  datatype ScanCursor = ScanCursor(createdAt: nat, logId: nat)

  predicate IsAfter(l: TxLog, after: Option<ScanCursor>)
  {
    after.None? || l.createdAt > after.value.createdAt ||
    (l.createdAt == after.value.createdAt && l.logId > after.value.logId)
  }

  function CursorOf(l: TxLog): ScanCursor { ScanCursor(l.createdAt, l.logId) }

  function OpenLogs(logs: seq<TxLog>): seq<TxLog> { Sort(Filter(logs, IsOpen), Earlier) }

  function OpenAfter(logs: seq<TxLog>, after: Option<ScanCursor>): seq<TxLog>
  {
    Filter(OpenLogs(logs), (l: TxLog) => IsAfter(l, after))
  }

  function Page(logs: seq<TxLog>, after: Option<ScanCursor>, limit: int): seq<TxLog>
  {
    var found := OpenAfter(logs, after);
    found[..Min(Max(limit, 0), |found|)]
  }

  predicate SameLog(item: TxLog, log: TxLog) { item.txLogId == log.txLogId || item.logId == log.logId }

  function UpdateLog(logs: seq<TxLog>, log: TxLog): seq<TxLog>
  {
    if |logs| == 0 then []
    else if SameLog(logs[0], log) then [log] + logs[1..]
    else [logs[0]] + UpdateLog(logs[1..], log)
  }

  class InMemoryGovernanceStore {
    var reviews: map<nat, Review>
    var identityLogs: seq<TxLog>

    constructor ()
      ensures reviews == map[] && identityLogs == []
    {
      reviews, identityLogs := map[], [];
    }

    method PutReview(review: Review)
      modifies this`reviews
      ensures reviews == old(reviews)[review.reviewId := review]
    {
      reviews := reviews[review.reviewId := review];
    }

    method AppendIdentityTxLog(log: TxLog)
      modifies this`identityLogs
      ensures identityLogs == old(identityLogs) + [log]
    {
      identityLogs := identityLogs + [log];
    }

    method UpdateTxLog(log: TxLog)
      modifies this`identityLogs
      ensures identityLogs == UpdateLog(old(identityLogs), log)
    {
      var i := 0;
      while i < |identityLogs| && !SameLog(identityLogs[i], log)
        invariant 0 <= i <= |identityLogs|
        invariant UpdateLog(identityLogs, log) == identityLogs[..i] + UpdateLog(identityLogs[i..], log)
      {
        assert identityLogs[i..][1..] == identityLogs[i + 1..];
        i := i + 1;
      }
      if i < |identityLogs| {
        assert identityLogs[i..][1..] == identityLogs[i + 1..];
        identityLogs := identityLogs[i := log];
      } else {
        assert identityLogs[..i] + [] == identityLogs;
      }
    }

    /** The first logs in key order that are open and stand behind the cursor, and all of them if the page is not full. */
    method ListOpenIdentityTxLogsPage(after: Option<ScanCursor>, limit: int) returns (page: seq<TxLog>)
      ensures page == Page(identityLogs, after, limit)
      ensures DistinctIds(identityLogs) ==> IsPage(identityLogs, after, limit, page)
    {
      page := Page(identityLogs, after, limit);
      if DistinctIds(identityLogs) { PageIsStart(identityLogs, after, limit); }
    }
  }

  // ----- pages -----

  ghost predicate DistinctIds(logs: seq<TxLog>)
  {
    forall i, j :: 0 <= i < j < |logs| ==> logs[i].logId != logs[j].logId
  }

  ghost predicate Eligible(logs: seq<TxLog>, after: Option<ScanCursor>, l: TxLog)
  {
    l in logs && IsOpen(l) && IsAfter(l, after)
  }

  /** A page is in key order, holds only eligible logs, is not too long, and leaves out none but later ones of a full page. */
  ghost predicate IsPage(logs: seq<TxLog>, after: Option<ScanCursor>, limit: int, page: seq<TxLog>)
  {
    && StrictlyOrdered(page, Earlier)
    && (forall l :: l in page ==> Eligible(logs, after, l))
    && |page| <= Max(limit, 0)
    && (forall l | Eligible(logs, after, l) && l !in page :: |page| == Max(limit, 0) && forall p :: p in page ==> Earlier(p, l))
  }

  lemma {:induction false} FilterDistinct(logs: seq<TxLog>, keep: TxLog -> bool)
    requires DistinctIds(logs)
    ensures DistinctIds(Filter(logs, keep))
  {
    if |logs| > 0 {
      FilterDistinct(logs[..|logs| - 1], keep);
      FilterMembers(logs[..|logs| - 1], keep);
      var f := Filter(logs[..|logs| - 1], keep);
      forall i | 0 <= i < |f| ensures f[i].logId != logs[|logs| - 1].logId { assert f[i] in f; }
    }
  }

  lemma OpenLogsStrict(logs: seq<TxLog>)
    requires DistinctIds(logs)
    ensures StrictlyOrdered(OpenLogs(logs), Earlier)
    ensures forall l :: l in OpenLogs(logs) <==> l in logs && IsOpen(l)
  {
    var open := Filter(logs, IsOpen);
    FilterDistinct(logs, IsOpen);
    FilterMembers(logs, IsOpen);
    SortPermutes(open, Earlier);
    forall a, b | a in open && b in open && a != b ensures Earlier(a, b) || Earlier(b, a) {
      var i :| 0 <= i < |open| && open[i] == a;
      var j :| 0 <= j < |open| && open[j] == b;
    }
    SortStrict(open, Earlier);
  }

  lemma OpenAfterStrict(logs: seq<TxLog>, after: Option<ScanCursor>)
    requires DistinctIds(logs)
    ensures StrictlyOrdered(OpenAfter(logs, after), Earlier)
    ensures forall l :: l in OpenAfter(logs, after) <==> Eligible(logs, after, l)
  {
    OpenLogsStrict(logs);
    FilterStrict(OpenLogs(logs), Earlier, (l: TxLog) => IsAfter(l, after));
    FilterMembers(OpenLogs(logs), (l: TxLog) => IsAfter(l, after));
  }

  lemma PageIsStart(logs: seq<TxLog>, after: Option<ScanCursor>, limit: int)
    requires DistinctIds(logs)
    ensures IsPage(logs, after, limit, Page(logs, after, limit))
  {
    var found, page := OpenAfter(logs, after), Page(logs, after, limit);
    OpenAfterStrict(logs, after);
    assert forall l :: l in page ==> l in found;
    assert forall i :: 0 <= i < |page| ==> page[i] == found[i] && page[i] in page;
    forall l | Eligible(logs, after, l) && l !in page
      ensures |page| == Max(limit, 0) && forall p :: p in page ==> Earlier(p, l)
    {
      var j :| 0 <= j < |found| && found[j] == l;
    }
  }

  // ----- the scan -----

  predicate SameIdentity(l: TxLog, r: TxLog)
  {
    l.logId == r.logId && l.txLogId == r.txLogId && l.createdAt == r.createdAt
  }

  ghost predicate HasId(logs: seq<TxLog>, id: nat) { exists l :: l in logs && l.logId == id }

  /** Log ids are unique, and both ids of a log are one. */
  ghost predicate Consistent(logs: seq<TxLog>)
  {
    DistinctIds(logs) && forall l :: l in logs ==> l.txLogId == l.logId
  }

  /** Logs that were handed out may be rewritten, but for their ids and creation times; new logs may be appended. */
  ghost predicate Evolves(yielded: seq<TxLog>, before: seq<TxLog>, after: seq<TxLog>)
  {
    && |after| >= |before|
    && forall i :: 0 <= i < |before| ==> after[i] == before[i] || (SameIdentity(after[i], before[i]) && HasId(yielded, before[i].logId))
  }

  /** The logs handed out stem from the ledger. */
  ghost predicate StemFrom(yielded: seq<TxLog>, logs: seq<TxLog>)
  {
    forall y :: y in yielded ==> exists l :: l in logs && SameIdentity(l, y)
  }

  /** What the consumer and the service may do to the ledger after each log handed out, as long as it has room for `bound` logs. */
  ghost predicate WellBehaved(rewrite: (seq<TxLog>, seq<TxLog>) -> seq<TxLog>, bound: nat)
  {
    forall yielded, logs | Consistent(logs) && StemFrom(yielded, logs) && |logs| <= bound ::
      var next := rewrite(yielded, logs);
      Evolves(yielded, logs, next) && Consistent(next) && |next| <= bound
  }

  lemma EvolvesOn(yielded: seq<TxLog>, more: seq<TxLog>, a: seq<TxLog>, b: seq<TxLog>, c: seq<TxLog>)
    requires Evolves(yielded, a, b) && Evolves(more, b, c) && forall l :: l in yielded ==> l in more
    ensures Evolves(more, a, c)
  {
    forall i | 0 <= i < |a| ensures c[i] == a[i] || (SameIdentity(c[i], a[i]) && HasId(more, a[i].logId)) {
      assert HasId(yielded, a[i].logId) ==> HasId(more, a[i].logId);
    }
  }

  lemma StillStems(ys: seq<TxLog>, yielded: seq<TxLog>, before: seq<TxLog>, after: seq<TxLog>)
    requires StemFrom(ys, before) && Evolves(yielded, before, after)
    ensures StemFrom(ys, after)
  {
    forall y | y in ys ensures exists l :: l in after && SameIdentity(l, y) {
      var l :| l in before && SameIdentity(l, y);
      var i :| 0 <= i < |before| && before[i] == l;
      assert after[i] in after && SameIdentity(after[i], y);
    }
  }

  lemma SameIdSameLog(logs: seq<TxLog>, a: TxLog, b: TxLog)
    requires DistinctIds(logs) && a in logs && b in logs && a.logId == b.logId
    ensures a == b
  {
    var i :| 0 <= i < |logs| && logs[i] == a;
    var j :| 0 <= j < |logs| && logs[j] == b;
    assert i == j;
  }

  /** How far the scan has come: what was open at its start has been handed out, or is still to come and untouched. */
  ghost predicate Scanned(start: seq<TxLog>, now: seq<TxLog>, yielded: seq<TxLog>)
  {
    && Consistent(now) && Evolves(yielded, start, now) && StemFrom(yielded, now)
    && StrictlyOrdered(yielded, Earlier)
    && (forall y | y in yielded && HasId(start, y.logId) :: y in OpenLogs(start))
    && (forall l | l in OpenLogs(start) && l !in yielded :: IsAfter(l, LastCursor(yielded)))
  }

  function LastCursor(yielded: seq<TxLog>): Option<ScanCursor>
  {
    if |yielded| == 0 then None else Some(CursorOf(yielded[|yielded| - 1]))
  }

  lemma ScanStarts(start: seq<TxLog>)
    requires Consistent(start)
    ensures Scanned(start, start, [])
  {
  }

  /** A log handed out is not behind the cursor. */
  lemma YieldedIsNotAfter(yielded: seq<TxLog>, y: TxLog, l: TxLog)
    requires StrictlyOrdered(yielded, Earlier) && y in yielded && SameIdentity(y, l)
    ensures !IsAfter(l, LastCursor(yielded))
  {
    var j :| 0 <= j < |yielded| && yielded[j] == y;
    assert j < |yielded| - 1 ==> Earlier(yielded[j], yielded[|yielded| - 1]);
  }

  /** An eligible log that was there at the start is as it was then. */
  lemma EligibleIsUntouched(start: seq<TxLog>, now: seq<TxLog>, yielded: seq<TxLog>, l: TxLog)
    requires Consistent(start) && Scanned(start, now, yielded)
    requires Eligible(now, LastCursor(yielded), l) && HasId(start, l.logId)
    ensures l in OpenLogs(start)
  {
    OpenLogsStrict(start);
    var s :| s in start && s.logId == l.logId;
    var i :| 0 <= i < |start| && start[i] == s;
    assert now[i] in now && now[i].logId == l.logId;
    SameIdSameLog(now, now[i], l);
    if now[i] != start[i] {
      var y :| y in yielded && y.logId == l.logId;
      var m :| m in now && SameIdentity(m, y);
      SameIdSameLog(now, m, l);
      YieldedIsNotAfter(yielded, y, l);
    }
  }

  /** What was open at the start and is still to come is eligible. */
  lemma RestIsEligible(start: seq<TxLog>, now: seq<TxLog>, yielded: seq<TxLog>, l: TxLog)
    requires Consistent(start) && Scanned(start, now, yielded) && l in OpenLogs(start) && l !in yielded
    ensures Eligible(now, LastCursor(yielded), l)
  {
    OpenLogsStrict(start);
    var i :| 0 <= i < |start| && start[i] == l;
    if now[i] != start[i] {
      var y :| y in yielded && y.logId == l.logId;
      assert HasId(start, y.logId);
      SameIdSameLog(start, y, l);
    }
    assert now[i] in now;
  }

  /** The logs of a page are handed out one by one; the ledger evolves after each. */
  method YieldPage(store: InMemoryGovernanceStore, page: seq<TxLog>, before: seq<TxLog>,
                   rewrite: (seq<TxLog>, seq<TxLog>) -> seq<TxLog>, bound: nat) returns (yielded: seq<TxLog>)
    requires WellBehaved(rewrite, bound) && |store.identityLogs| <= bound
    requires Consistent(store.identityLogs) && StemFrom(before + page, store.identityLogs)
    modifies store`identityLogs
    ensures yielded == before + page
    ensures Evolves(yielded, old(store.identityLogs), store.identityLogs)
    ensures Consistent(store.identityLogs) && StemFrom(yielded, store.identityLogs) && |store.identityLogs| <= bound
  {
    ghost var start := store.identityLogs;
    yielded := before;
    var i := 0;
    while i < |page|
      invariant 0 <= i <= |page| && yielded == before + page[..i]
      invariant Evolves(yielded, start, store.identityLogs) && |store.identityLogs| <= bound
      invariant Consistent(store.identityLogs) && StemFrom(before + page, store.identityLogs)
    {
      ghost var handedOut := yielded;
      yielded := yielded + [page[i]];
      ghost var was := store.identityLogs;
      assert forall y :: y in yielded ==> y in before + page;
      store.identityLogs := rewrite(yielded, store.identityLogs);
      EvolvesOn(handedOut, yielded, start, was, store.identityLogs);
      StillStems(before + page, yielded, was, store.identityLogs);
      i := i + 1;
    }
    assert page[..i] == page;
  }

  /** After a page has been handed out the scan has come to its end. */
  lemma ScannedOn(start: seq<TxLog>, was: seq<TxLog>, yielded: seq<TxLog>, page: seq<TxLog>, now: seq<TxLog>, limit: int)
    requires Consistent(start) && Scanned(start, was, yielded) && limit >= 1
    requires IsPage(was, LastCursor(yielded), limit, page) && page != []
    requires Evolves(yielded + page, was, now) && Consistent(now) && StemFrom(yielded + page, now)
    ensures Scanned(start, now, yielded + page)
  {
    var all := yielded + page;
    EvolvesOn(yielded, all, start, was, now);
    OrderedOn(yielded, page);
    forall y | y in all && HasId(start, y.logId) ensures y in OpenLogs(start) {
      if y in page { EligibleIsUntouched(start, was, yielded, y); }
    }
    forall l | l in OpenLogs(start) && l !in all ensures IsAfter(l, LastCursor(all)) {
      RestIsEligible(start, was, yielded, l);
      assert page[|page| - 1] in page && all[|all| - 1] == page[|page| - 1];
    }
  }

  lemma OrderedOn(yielded: seq<TxLog>, page: seq<TxLog>)
    requires StrictlyOrdered(yielded, Earlier) && StrictlyOrdered(page, Earlier)
    requires forall l :: l in page ==> IsAfter(l, LastCursor(yielded))
    ensures StrictlyOrdered(yielded + page, Earlier)
  {
    var all := yielded + page;
    forall i, j | 0 <= i < j < |all| ensures Earlier(all[i], all[j]) {
      if i < |yielded| <= j {
        assert page[j - |yielded|] in page;
        assert i < |yielded| - 1 ==> Earlier(yielded[i], yielded[|yielded| - 1]);
      }
    }
  }

  /** An incomplete page ends the scan: nothing that was open at the start is left. */
  lemma NothingLeft(start: seq<TxLog>, was: seq<TxLog>, yielded: seq<TxLog>, page: seq<TxLog>, limit: int)
    requires Consistent(start) && Scanned(start, was, yielded) && limit >= 1
    requires IsPage(was, LastCursor(yielded), limit, page) && |page| < limit
    ensures forall l :: l in OpenLogs(start) ==> l in yielded + page
  {
    forall l | l in OpenLogs(start) && l !in yielded ensures l in page {
      RestIsEligible(start, was, yielded, l);
    }
  }

  /** The logs handed out that were there when the scan began. */
  ghost function FromStart(start: seq<TxLog>, yielded: seq<TxLog>): seq<TxLog>
  {
    if |yielded| == 0 then []
    else
      var last := yielded[|yielded| - 1];
      FromStart(start, yielded[..|yielded| - 1]) + if HasId(start, last.logId) then [last] else []
  }

  lemma {:induction false} FromStartMembers(start: seq<TxLog>, yielded: seq<TxLog>)
    requires StrictlyOrdered(yielded, Earlier)
    ensures StrictlyOrdered(FromStart(start, yielded), Earlier)
    ensures forall l :: l in FromStart(start, yielded) <==> l in yielded && HasId(start, l.logId)
  {
    if |yielded| > 0 {
      var front, last := yielded[..|yielded| - 1], yielded[|yielded| - 1];
      FromStartMembers(start, front);
      assert yielded == front + [last];
      var f := FromStart(start, front);
      forall i | 0 <= i < |f| ensures Earlier(f[i], last) {
        assert f[i] in f;
        var j :| 0 <= j < |front| && front[j] == f[i];
        assert Earlier(yielded[j], yielded[|yielded| - 1]);
      }
    }
  }

  lemma AllHandedOut(start: seq<TxLog>, now: seq<TxLog>, yielded: seq<TxLog>)
    requires Consistent(start) && Scanned(start, now, yielded) && forall l :: l in OpenLogs(start) ==> l in yielded
    ensures FromStart(start, yielded) == OpenLogs(start)
    ensures |now| == |start| ==> yielded == OpenLogs(start)
  {
    OpenLogsStrict(start);
    FromStartMembers(start, yielded);
    forall l | l in OpenLogs(start) ensures HasId(start, l.logId) {}
    StrictOrderUnique(FromStart(start, yielded), OpenLogs(start), Earlier);
    if |now| == |start| {
      forall y | y in yielded ensures y in OpenLogs(start) {
        var m :| m in now && SameIdentity(m, y);
        var i :| 0 <= i < |now| && now[i] == m;
        assert start[i] in start && start[i].logId == y.logId;
      }
      StrictOrderUnique(yielded, OpenLogs(start), Earlier);
    }
  }

  lemma {:induction false} DistinctWithin(ys: seq<TxLog>, ids: set<nat>)
    requires StrictlyOrdered(ys, Earlier) && forall y :: y in ys ==> y.logId in ids
    requires forall i, j :: 0 <= i < j < |ys| ==> ys[i].logId != ys[j].logId
    ensures |ys| <= |ids|
  {
    if |ys| > 0 {
      var front, last := ys[..|ys| - 1], ys[|ys| - 1];
      assert last in ys;
      forall y | y in front ensures y.logId in ids - {last.logId} {
        var i :| 0 <= i < |front| && front[i] == y;
        assert ys[i] == y && y in ys;
      }
      DistinctWithin(front, ids - {last.logId});
    }
  }

  function IdSet(logs: seq<TxLog>): set<nat> { set l | l in logs :: l.logId }

  lemma {:induction false} IdSetSize(logs: seq<TxLog>)
    ensures |IdSet(logs)| <= |logs|
  {
    if |logs| > 0 {
      IdSetSize(logs[..|logs| - 1]);
      assert logs == logs[..|logs| - 1] + [logs[|logs| - 1]];
      assert IdSet(logs) == IdSet(logs[..|logs| - 1]) + {logs[|logs| - 1].logId};
    }
  }

  /** No log is handed out twice, so that a ledger of bounded length ends the scan. */
  lemma ScanIsBounded(start: seq<TxLog>, now: seq<TxLog>, yielded: seq<TxLog>)
    requires Scanned(start, now, yielded)
    ensures |yielded| <= |now|
  {
    forall i, j | 0 <= i < j < |yielded| ensures yielded[i].logId != yielded[j].logId {
      assert yielded[i] in yielded && yielded[j] in yielded;
      var l :| l in now && SameIdentity(l, yielded[i]);
      var m :| m in now && SameIdentity(m, yielded[j]);
      if l.logId == m.logId { SameIdSameLog(now, l, m); }
      assert Earlier(yielded[i], yielded[j]);
    }
    forall y | y in yielded ensures y.logId in IdSet(now) {
      var l :| l in now && SameIdentity(l, y);
      assert l.logId in IdSet(now);
    }
    DistinctWithin(yielded, IdSet(now));
    IdSetSize(now);
  }

  /**
   The paged scan. With a page size of at least one it hands out, in the order of
   (createdAt, logId), each log that was open when it began exactly once and as it was then,
   although the logs handed out are rewritten and new ones appended meanwhile; whatever else
   it hands out was appended. With a smaller page size it hands out nothing.
   */
  method IterateOpenGovernanceLogs(store: InMemoryGovernanceStore, pageSize: int,
                                   rewrite: (seq<TxLog>, seq<TxLog>) -> seq<TxLog>, bound: nat) returns (yielded: seq<TxLog>)
    requires Consistent(store.identityLogs) && WellBehaved(rewrite, bound) && |store.identityLogs| <= bound
    modifies store`identityLogs
    ensures pageSize < 1 ==> yielded == []
    ensures pageSize >= 1 ==> FromStart(old(store.identityLogs), yielded) == OpenLogs(old(store.identityLogs))
    ensures pageSize >= 1 && |store.identityLogs| == |old(store.identityLogs)| ==> yielded == OpenLogs(old(store.identityLogs))
    ensures Scanned(old(store.identityLogs), store.identityLogs, yielded)
  {
    ghost var start := store.identityLogs;
    yielded := [];
    ScanStarts(start);
    var ended := false;
    while !ended
      invariant Scanned(start, store.identityLogs, yielded) && |yielded| <= bound && |store.identityLogs| <= bound
      invariant pageSize < 1 ==> yielded == []
      invariant ended && pageSize >= 1 ==> forall l :: l in OpenLogs(start) ==> l in yielded
      decreases bound - |yielded|, !ended
    {
      yielded, ended := ScanPage(store, pageSize, yielded, rewrite, bound, start);
      ScanIsBounded(start, store.identityLogs, yielded);
    }
    if pageSize >= 1 { AllHandedOut(start, store.identityLogs, yielded); }
  }

  /** One round of the scan: a page, and whether it was the last. */
  method ScanPage(store: InMemoryGovernanceStore, pageSize: int, before: seq<TxLog>,
                  rewrite: (seq<TxLog>, seq<TxLog>) -> seq<TxLog>, bound: nat, ghost start: seq<TxLog>)
    returns (yielded: seq<TxLog>, ended: bool)
    requires Consistent(start) && Scanned(start, store.identityLogs, before)
    requires WellBehaved(rewrite, bound) && |store.identityLogs| <= bound
    modifies store`identityLogs
    ensures Scanned(start, store.identityLogs, yielded) && |store.identityLogs| <= bound
    ensures pageSize < 1 ==> ended && yielded == before
    ensures |yielded| >= |before| && (!ended ==> |yielded| > |before|)
    ensures ended && pageSize >= 1 ==> forall l :: l in OpenLogs(start) ==> l in yielded
  {
    ghost var was := store.identityLogs;
    var page := store.ListOpenIdentityTxLogsPage(LastCursor(before), pageSize);
    if |page| == 0 {
      if pageSize >= 1 {
        NothingLeft(start, was, before, page, pageSize);
        assert before + page == before;
      }
      return before, true;
    }
    PageStems(before, page, was, LastCursor(before), pageSize);
    yielded := YieldPage(store, page, before, rewrite, bound);
    ScannedOn(start, was, before, page, store.identityLogs, pageSize);
    ended := |page| < pageSize;
    if ended { NothingLeft(start, was, before, page, pageSize); }
  }

  lemma PageStems(yielded: seq<TxLog>, page: seq<TxLog>, logs: seq<TxLog>, after: Option<ScanCursor>, limit: int)
    requires StemFrom(yielded, logs) && IsPage(logs, after, limit, page)
    ensures StemFrom(yielded + page, logs)
  {
    forall y | y in page ensures exists l :: l in logs && SameIdentity(l, y) {
      assert Eligible(logs, after, y) && SameIdentity(y, y);
    }
  }
}
