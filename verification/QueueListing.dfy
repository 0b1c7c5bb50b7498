/**
 The order in which the store lists the queue: by creation time, rows of one millisecond by
 step id (service/src/storage/sqlite-projection-store.ts). The queue of `PendingSteps` stands
 in the order in which its rows were saved.
 */
module QueueListing {
  import opened Prelude
  import opened Sorting
  import opened ChainEvents
  import opened PendingSteps
  import opened TrimOrder

  /** A queue row with the time it was stamped with. */
  datatype StoredStep = StoredStep(step: Step, createdAt: int)

  /** Step ids are compared by their digests. */
  function ListedBefore(digest: StepId -> nat): (StoredStep, StoredStep) -> bool
  {
    (l: StoredStep, r: StoredStep) =>
      l.createdAt < r.createdAt || (l.createdAt == r.createdAt && digest(l.step.id) < digest(r.step.id))
  }

  /** What a listing of rows saved in this order returns. */
  function Listing(saved: seq<StoredStep>, digest: StepId -> nat): seq<StoredStep> { Sort(saved, ListedBefore(digest)) }

  ghost predicate DistinctDigests(saved: seq<StoredStep>, digest: StepId -> nat)
  {
    forall i, j :: 0 <= i < j < |saved| ==> digest(saved[i].step.id) != digest(saved[j].step.id)
  }

  /** Every row has a later creation time than the rows saved before it, or the same time and a greater digest. */
  ghost predicate StampedInOrder(saved: seq<StoredStep>, digest: StepId -> nat)
  {
    forall i, j :: 0 <= i < j < |saved| ==>
      saved[i].createdAt < saved[j].createdAt ||
      (saved[i].createdAt == saved[j].createdAt && digest(saved[i].step.id) < digest(saved[j].step.id))
  }

  /** Exact condition: the rows are listed in the order in which they were saved if and only if they are stamped in it. */
  lemma ListedInSaveOrderExactly(saved: seq<StoredStep>, digest: StepId -> nat)
    requires DistinctDigests(saved, digest)
    ensures Listing(saved, digest) == saved <==> StampedInOrder(saved, digest)
  {
    var before := ListedBefore(digest);
    forall a, b | a in saved && b in saved && a != b ensures before(a, b) || before(b, a) {
      var i :| 0 <= i < |saved| && saved[i] == a;
      var j :| 0 <= j < |saved| && saved[j] == b;
      assert i < j || j < i;
    }
    SortStrict(saved, before);
    SortPermutes(saved, before);
    if StampedInOrder(saved, digest) {
      StrictOrderUnique(Listing(saved, digest), saved, before);
    } else {
      assert !StrictlyOrdered(saved, before);
    }
  }

  /** Two listings of one queue. */
  ghost predicate SameRows(q: Queue, p: Queue)
  {
    ValidQueue(q) && ValidQueue(p) && forall id :: Look(q, id) == Look(p, id)
  }

  lemma SameMembers(q: Queue, p: Queue)
    requires SameRows(q, p)
    ensures forall s :: s in q <==> s in p
  {
    forall s ensures s in q <==> s in p {
      LookMembers(q, s.id);
      LookMembers(p, s.id);
    }
  }

  /** Which rows a trim leaves does not depend on the order in which they are listed. */
  lemma TrimIgnoresListing(q: Queue, p: Queue, a: nat)
    requires SameRows(q, p) && KeysDetermineEvents(q)
    ensures SameRows(Trim(q, a), Trim(p, a))
  {
    SameMembers(q, p);
    TrimCarries(q, q, a);
    TrimCarries(q, p, a);
    forall id ensures Look(Trim(q, a), id) == Look(Trim(p, a), id) {
      TrimLeaves(q, a, id);
      TrimLeaves(p, a, id);
      if Look(q, id).None? {
        ReplacedAlike(q, p, a, id);
        LookMembers(Trim(q, a), id);
        LookMembers(Trim(p, a), id);
        if Look(Trim(q, a), id).Some? { SameIdSameRow(q, Look(Trim(q, a), id).value, Look(Trim(p, a), id).value); }
      }
    }
  }

  lemma ReplacedAlike(q: Queue, p: Queue, a: nat, id: StepId)
    requires forall s :: s in q <==> s in p
    ensures FirstReplacement(q, a, id).Some? <==> FirstReplacement(p, a, id).Some?
    ensures FirstReplacement(q, a, id).Some? ==> FirstReplacement(q, a, id).value.attempts == FirstReplacement(p, a, id).value.attempts == 0
  {
    ReplacementSource(q, a, id);
    ReplacementSource(p, a, id);
  }

  /** Fresh rows of one id carry the same events. */
  lemma SameIdSameRow(q: Queue, s: Step, t: Step)
    requires KeysDetermineEvents(q) && WellFormedStep(s) && WellFormedStep(t) && s.id == t.id && s.attempts == t.attempts
    requires forall e :: e in s.events || e in t.events ==> CarriedBy(q, e)
    ensures s == t
  {
    if s.id.SignalsId? { SameKeysSameEvents(q, s.events, t.events); }
  }

  /** Trimming at a, listing the queue in whatever order, and trimming at b leaves the rows that one trim leaves. */
  lemma RelistedTrimsCompose(q: Queue, p: Queue, a: nat, b: nat)
    requires ValidQueue(q) && KeysDetermineEvents(q) && SameRows(Trim(q, a), p)
    ensures SameRows(Trim(p, b), Trim(q, if a <= b then a else b))
  {
    var t, m := Trim(q, a), if a <= b then a else b;
    TrimCarries(q, q, a);
    StillDetermine(q, t);
    TrimIgnoresListing(t, p, b);
    TrimmedEventsAreWithin(q, m);
    forall id ensures Look(Trim(p, b), id) == Look(Trim(q, m), id) {
      TrimsComposeRows(q, a, b, id);
      assert Look(Trim(t, b), id) == Look(Trim(p, b), id);
    }
  }

  lemma StillDetermine(q: Queue, t: Queue)
    requires KeysDetermineEvents(q) && forall s, e :: s in t && e in s.events ==> CarriedBy(q, e)
    ensures KeysDetermineEvents(t)
  {
    forall u, v, e, f | u in t && v in t && e in u.events && f in v.events && ChainEventKey(e) == ChainEventKey(f)
      ensures e == f
    {
      assert CarriedBy(q, e) && CarriedBy(q, f);
    }
  }
}
