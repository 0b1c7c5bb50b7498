/**
 The time window of webhook verification and the bounded nonce cache behind it
 (service/src/notifications/webhook-dispatcher.ts). Whether the MAC of a request is right
 is part of the request.
 */
module ReplayGuard {
  import opened Prelude

  /** `now` is in milliseconds, the timestamp header in seconds. */
  datatype Request = Request(nonce: nat, timestamp: nat, now: int, macOk: bool)

  datatype Entry = Entry(nonce: nat, timestampMs: int)

  datatype Limits = Limits(toleranceMs: nat, maxTracked: nat)

  predicate InWindow(now: int, timestampMs: int, toleranceMs: nat)
  {
    now - timestampMs <= toleranceMs && timestampMs - now <= toleranceMs
  }

  const MAX_TIMESTAMP: nat := 9_999_999_999

  predicate Verified(l: Limits, r: Request)
  {
    r.timestamp <= MAX_TIMESTAMP && InWindow(r.now, r.timestamp * 1000, l.toleranceMs) && r.macOk
  }

  function Find(seen: seq<Entry>, nonce: nat): Option<int>
  {
    if |seen| == 0 then None
    else if seen[0].nonce == nonce then Some(seen[0].timestampMs)
    else Find(seen[1..], nonce)
  }

  function Delete(seen: seq<Entry>, nonce: nat): seq<Entry>
  {
    if |seen| == 0 then []
    else if seen[0].nonce == nonce then seen[1..]
    else [seen[0]] + Delete(seen[1..], nonce)
  }

  predicate Replayed(l: Limits, seen: seq<Entry>, nonce: nat, now: int)
  {
    Find(seen, nonce).Some? && InWindow(now, Find(seen, nonce).value, l.toleranceMs)
  }

  /** The cache once a fresh nonce is recorded; the oldest entry makes room. */
  function Recorded(l: Limits, seen: seq<Entry>, e: Entry): seq<Entry>
  {
    var added := Delete(seen, e.nonce) + [e];
    if |added| > l.maxTracked then added[1..] else added
  }

  class WebhookReplayGuard {
    const limits: Limits
    var seen: seq<Entry>

    constructor (limits: Limits)
      ensures this.limits == limits && seen == []
    {
      this.limits := limits;
      seen := [];
    }

    method Observe(nonce: nat, timestampMs: int, now: int) returns (recorded: bool)
      modifies this
      ensures recorded == !Replayed(limits, old(seen), nonce, now)
      ensures seen == if recorded then Recorded(limits, old(seen), Entry(nonce, timestampMs)) else old(seen)
    {
      var previous := Find(seen, nonce);
      if previous.Some? && InWindow(now, previous.value, limits.toleranceMs) {
        return false;
      }
      seen := Delete(seen, nonce) + [Entry(nonce, timestampMs)];
      if |seen| > limits.maxTracked {
        seen := seen[1..];
      }
      recorded := true;
    }

    /** What a receiver does: verify first, then ask the guard. */
    method Receive(r: Request) returns (accepted: bool)
      modifies this
      ensures accepted == Accepts(limits, old(seen), r)
      ensures seen == After(limits, old(seen), [r])
    {
      assert [r][..0] == [];
      if !Verified(limits, r) {
        return false;
      }
      accepted := Observe(r.nonce, r.timestamp * 1000, r.now);
    }
  }

  // ----- runs -----

  predicate Accepts(l: Limits, seen: seq<Entry>, r: Request)
  {
    Verified(l, r) && !Replayed(l, seen, r.nonce, r.now)
  }

  function After(l: Limits, seen: seq<Entry>, rs: seq<Request>): seq<Entry>
  {
    if |rs| == 0 then seen
    else
      var before, r := After(l, seen, rs[..|rs| - 1]), rs[|rs| - 1];
      if Accepts(l, before, r) then Recorded(l, before, Entry(r.nonce, r.timestamp * 1000)) else before
  }

  /** The nonces other than `nonce` that the run accepts. */
  function Others(l: Limits, seen: seq<Entry>, rs: seq<Request>, nonce: nat): set<nat>
  {
    if |rs| == 0 then {}
    else
      var front, r := rs[..|rs| - 1], rs[|rs| - 1];
      Others(l, seen, front, nonce) +
        if r.nonce != nonce && Accepts(l, After(l, seen, front), r) then {r.nonce} else {}
  }

  ghost predicate Unique(seen: seq<Entry>)
  {
    forall i, j :: 0 <= i < j < |seen| ==> seen[i].nonce != seen[j].nonce
  }

  /** The clock of the run starts at `start` and never goes back. */
  ghost predicate Monotone(start: int, rs: seq<Request>)
  {
    forall i :: 0 <= i < |rs| ==> start <= rs[i].now && (i > 0 ==> rs[i - 1].now <= rs[i].now)
  }

  lemma {:induction false} DeleteKeepsUnique(seen: seq<Entry>, nonce: nat)
    requires Unique(seen)
    ensures Unique(Delete(seen, nonce))
    ensures forall e :: e in Delete(seen, nonce) <==> e in seen && e.nonce != nonce
    ensures |Delete(seen, nonce)| <= |seen|
  {
    if |seen| > 0 {
      assert seen == [seen[0]] + seen[1..];
      DeleteKeepsUnique(seen[1..], nonce);
      assert forall e :: e in seen[1..] ==> e.nonce != seen[0].nonce;
      var rest := Delete(seen[1..], nonce);
      assert forall i :: 0 <= i < |rest| ==> rest[i] in rest;
    }
  }

  lemma {:induction false} FindMember(seen: seq<Entry>, e: Entry)
    requires Unique(seen) && e in seen
    ensures Find(seen, e.nonce) == Some(e.timestampMs)
  {
    assert seen == [seen[0]] + seen[1..];
    if seen[0] != e {
      assert e in seen[1..];
      FindMember(seen[1..], e);
    }
  }

  /** The cache stays a map within its capacity. */
  lemma RecordedFits(l: Limits, seen: seq<Entry>, e: Entry)
    requires Unique(seen) && |seen| <= l.maxTracked
    ensures Unique(Recorded(l, seen, e)) && |Recorded(l, seen, e)| <= l.maxTracked
  {
    DeleteKeepsUnique(seen, e.nonce);
    var d := Delete(seen, e.nonce);
    assert forall i :: 0 <= i < |d| ==> d[i] in d;
  }

  lemma {:induction false} CapacityHolds(l: Limits, rs: seq<Request>)
    ensures Unique(After(l, [], rs)) && |After(l, [], rs)| <= l.maxTracked
  {
    if |rs| > 0 {
      CapacityHolds(l, rs[..|rs| - 1]);
      var r := rs[|rs| - 1];
      RecordedFits(l, After(l, [], rs[..|rs| - 1]), Entry(r.nonce, r.timestamp * 1000));
    }
  }

  /** The entry is there, and only nonces of `others` were recorded after it. */
  ghost predicate Held(seen: seq<Entry>, e: Entry, others: set<nat>)
  {
    exists p :: 0 <= p < |seen| && seen[p] == e && forall q :: p < q < |seen| ==> seen[q].nonce in others
  }

  lemma {:induction false} HeldAfterDelete(seen: seq<Entry>, e: Entry, others: set<nat>, nonce: nat)
    requires Unique(seen) && Held(seen, e, others) && nonce != e.nonce
    ensures Held(Delete(seen, nonce), e, others)
  {
    var p :| 0 <= p < |seen| && seen[p] == e && forall q :: p < q < |seen| ==> seen[q].nonce in others;
    var d := Delete(seen, nonce);
    if p == 0 {
      DeleteKeepsUnique(seen, nonce);
      DeleteKeepsUnique(seen[1..], nonce);
      assert d == [e] + Delete(seen[1..], nonce);
      forall q | 0 < q < |d| ensures d[q].nonce in others {
        assert d[q] in Delete(seen[1..], nonce);
        assert d[q] in seen[1..];
      }
    } else {
      var tail := seen[1..];
      assert tail[p - 1] == e && forall q :: p - 1 < q < |tail| ==> tail[q] == seen[q + 1];
      if seen[0].nonce != nonce {
        HeldAfterDelete(tail, e, others, nonce);
        var d1 := Delete(tail, nonce);
        var p1 :| 0 <= p1 < |d1| && d1[p1] == e && forall q :: p1 < q < |d1| ==> d1[q].nonce in others;
        assert d[p1 + 1] == e && forall q :: p1 + 1 < q < |d| ==> d[q] == d1[q - 1];
      }
    }
  }

  lemma {:induction false} UniqueWithin(seen: seq<Entry>, nonces: set<nat>)
    requires Unique(seen) && forall i :: 0 <= i < |seen| ==> seen[i].nonce in nonces
    ensures |seen| <= |nonces|
  {
    if |seen| > 0 {
      var front, last := seen[..|seen| - 1], seen[|seen| - 1];
      UniqueWithin(front, nonces - {last.nonce});
    }
  }

  /** Recording another nonce pushes the entry out only once the capacity is used up by nonces recorded after it. */
  lemma HeldAfterRecord(l: Limits, seen: seq<Entry>, e: Entry, others: set<nat>, other: Entry)
    requires Unique(seen) && Held(seen, e, others) && other.nonce != e.nonce
    requires |others + {other.nonce}| < l.maxTracked && |seen| <= l.maxTracked
    ensures Held(Recorded(l, seen, other), e, others + {other.nonce})
  {
    HeldAfterDelete(seen, e, others, other.nonce);
    DeleteKeepsUnique(seen, other.nonce);
    var d := Delete(seen, other.nonce);
    var p :| 0 <= p < |d| && d[p] == e && forall q :: p < q < |d| ==> d[q].nonce in others;
    var added := d + [other];
    assert added[p] == e && forall q :: p < q < |added| ==> added[q].nonce in others + {other.nonce};
    if |added| > l.maxTracked {
      assert forall i :: 0 <= i < |d| ==> d[i] in d;
      if p == 0 {
        UniqueWithin(added[1..], others + {other.nonce});
        assert false;
      }
      assert added[1..][p - 1] == e;
    }
  }

  /** Either the entry is still held, or the clock has left its window for good. */
  lemma {:induction false} HeldOrExpired(l: Limits, seen: seq<Entry>, r: Request, mid: seq<Request>, k: nat)
    requires Unique(seen) && |seen| <= l.maxTracked && Accepts(l, seen, r) && Monotone(r.now, mid)
    requires k <= |mid|
    requires var start := After(l, seen, [r]); |Others(l, start, mid[..k], r.nonce)| < l.maxTracked
    ensures var start := After(l, seen, [r]);
      var state := After(l, start, mid[..k]);
      && Unique(state) && |state| <= l.maxTracked
      && (Held(state, Entry(r.nonce, r.timestamp * 1000), Others(l, start, mid[..k], r.nonce)) ||
          (k > 0 && mid[k - 1].now > r.timestamp * 1000 + l.toleranceMs))
  {
    var start := After(l, seen, [r]);
    var e := Entry(r.nonce, r.timestamp * 1000);
    assert [r][..0] == [];
    if k == 0 {
      RecordedFits(l, seen, e);
      assert mid[..0] == [];
      assert start[|start| - 1] == e;
    } else {
      var front, x := mid[..k - 1], mid[k - 1];
      assert mid[..k][..k - 1] == front;
      var others := Others(l, start, front, r.nonce);
      SubsetSmaller(others, Others(l, start, mid[..k], r.nonce));
      HeldOrExpired(l, seen, r, mid, k - 1);
      var before := After(l, start, front);
      if Accepts(l, before, x) {
        RecordedFits(l, before, Entry(x.nonce, x.timestamp * 1000));
        if Held(before, e, others) {
          if x.nonce != r.nonce {
            HeldAfterRecord(l, before, e, others, Entry(x.nonce, x.timestamp * 1000));
          } else {
            FindMember(before, e);
            assert x.now > r.timestamp * 1000 + l.toleranceMs;
          }
        }
      }
    }
  }

  lemma SubsetSmaller(a: set<nat>, b: set<nat>)
    requires a <= b
    ensures |a| <= |b|
  {
    assert b == a + (b - a);
  }

  /**
   Single use. Once a (nonce, timestamp) pair was accepted it is not accepted again, whatever
   comes in between, as long as fewer than `maxTracked` other nonces were accepted
   meanwhile; the same nonce may have come back with another timestamp.
   */
  lemma {:induction false} SingleUse(l: Limits, seen: seq<Entry>, r: Request, mid: seq<Request>, again: Request)
    requires Unique(seen) && |seen| <= l.maxTracked && Accepts(l, seen, r)
    requires Monotone(r.now, mid + [again])
    requires again.nonce == r.nonce && again.timestamp == r.timestamp
    requires |Others(l, After(l, seen, [r]), mid, r.nonce)| < l.maxTracked
    ensures !Accepts(l, After(l, After(l, seen, [r]), mid), again)
  {
    assert mid[..|mid|] == mid;
    assert forall i :: 0 <= i < |mid| ==> (mid + [again])[i] == mid[i];
    assert (mid + [again])[|mid|] == again;
    HeldOrExpired(l, seen, r, mid, |mid|);
    var state := After(l, After(l, seen, [r]), mid);
    var e := Entry(r.nonce, r.timestamp * 1000);
    if Held(state, e, Others(l, After(l, seen, [r]), mid, r.nonce)) {
      FindMember(state, e);
    }
  }

  lemma {:induction false} AbsentNonce(seen: seq<Entry>, nonce: nat)
    requires forall i :: 0 <= i < |seen| ==> seen[i].nonce != nonce
    ensures Find(seen, nonce) == None && Delete(seen, nonce) == seen
  {
    if |seen| > 0 { AbsentNonce(seen[1..], nonce); }
  }

  function EntryOf(r: Request): Entry { Entry(r.nonce, r.timestamp * 1000) }

  function EntriesOf(rs: seq<Request>): (es: seq<Entry>)
    ensures |es| == |rs| && forall i :: 0 <= i < |rs| ==> es[i] == EntryOf(rs[i])
  {
    if |rs| == 0 then [] else EntriesOf(rs[..|rs| - 1]) + [EntryOf(rs[|rs| - 1])]
  }

  /** Requests with pairwise different nonces, all of them verified. */
  ghost predicate Various(l: Limits, rs: seq<Request>)
  {
    && (forall i :: 0 <= i < |rs| ==> Verified(l, rs[i]))
    && (forall i, j :: 0 <= i < j < |rs| ==> rs[i].nonce != rs[j].nonce)
  }

  /** One more fresh nonce is accepted; it pushes the oldest out once the cache is full. */
  lemma FreshIsRecorded(l: Limits, seen: seq<Entry>, r: Request)
    requires Verified(l, r) && forall i :: 0 <= i < |seen| ==> seen[i].nonce != r.nonce
    ensures Accepts(l, seen, r)
    ensures Recorded(l, seen, EntryOf(r)) ==
      if |seen| + 1 > l.maxTracked then (seen + [EntryOf(r)])[1..] else seen + [EntryOf(r)]
  {
    AbsentNonce(seen, r.nonce);
  }

  /** As long as the capacity is not used up the cache holds the first request and the others in their order. */
  lemma {:induction false} Filling(l: Limits, all: seq<Request>, k: nat)
    requires Various(l, all) && l.maxTracked >= 1 && k < |all| == l.maxTracked + 1
    ensures After(l, [EntryOf(all[0])], all[1..k + 1]) ==
      if k < l.maxTracked then EntriesOf(all[..k + 1]) else EntriesOf(all[..k + 1])[1..]
  {
    if k == 0 {
      assert all[1..1] == [] && all[..1] == [all[0]];
    } else {
      Filling(l, all, k - 1);
      Slices(all, k);
      FillingStep(l, all, k);
    }
  }

  lemma Slices(all: seq<Request>, k: nat)
    requires 0 < k < |all|
    ensures |all[1..k + 1]| == k && all[1..k + 1][..k - 1] == all[1..k] && all[1..k + 1][k - 1] == all[k]
    ensures all[1..k + 1] == all[1..k] + [all[k]]
  {
  }

  lemma FillingStep(l: Limits, all: seq<Request>, k: nat)
    requires Various(l, all) && 0 < k < |all| == l.maxTracked + 1
    ensures var before := EntriesOf(all[..k]);
      && Accepts(l, before, all[k])
      && Recorded(l, before, EntryOf(all[k])) ==
           if k < l.maxTracked then EntriesOf(all[..k + 1]) else EntriesOf(all[..k + 1])[1..]
  {
    var before := EntriesOf(all[..k]);
    forall i | 0 <= i < |before| ensures before[i].nonce != all[k].nonce {
      assert before[i] == EntryOf(all[i]);
    }
    FreshIsRecorded(l, before, all[k]);
    assert all[..k + 1][..k] == all[..k];
  }

  function NoncesOf(rs: seq<Request>): set<nat> { set r | r in rs :: r.nonce }

  /** Each of the others is accepted and counts once. */
  lemma {:induction false} OthersCounted(l: Limits, all: seq<Request>, k: nat)
    requires Various(l, all) && l.maxTracked >= 1 && k < |all| == l.maxTracked + 1
    ensures var others := Others(l, [EntryOf(all[0])], all[1..k + 1], all[0].nonce);
      |others| == k && others == NoncesOf(all[1..k + 1])
  {
    if k == 0 {
      assert all[1..1] == [];
    } else {
      OthersCounted(l, all, k - 1);
      Slices(all, k);
      Filling(l, all, k - 1);
      FillingStep(l, all, k);
      NewNonce(all, k);
      OneMoreOther(l, [EntryOf(all[0])], all[1..k], all[k], all[0].nonce);
    }
  }

  lemma OneMoreOther(l: Limits, seen: seq<Entry>, front: seq<Request>, x: Request, nonce: nat)
    requires Accepts(l, After(l, seen, front), x) && x.nonce != nonce
    requires Others(l, seen, front, nonce) == NoncesOf(front) && x.nonce !in NoncesOf(front)
    ensures Others(l, seen, front + [x], nonce) == NoncesOf(front + [x])
    ensures |Others(l, seen, front + [x], nonce)| == |Others(l, seen, front, nonce)| + 1
  {
    assert (front + [x])[..|front|] == front;
    assert NoncesOf(front + [x]) == NoncesOf(front) + {x.nonce};
  }

  lemma NewNonce(all: seq<Request>, k: nat)
    requires 0 < k < |all| && forall i, j :: 0 <= i < j < |all| ==> all[i].nonce != all[j].nonce
    ensures all[k].nonce != all[0].nonce && all[k].nonce !in NoncesOf(all[1..k])
  {
    forall r | r in all[1..k] ensures r.nonce != all[k].nonce {
      var i :| 0 <= i < k - 1 && all[1..k][i] == r;
      assert all[i + 1] == r;
    }
  }

  /**
   The bound on the others is tight for every capacity: as many other nonces as the cache
   holds push the first one out, and its pair is accepted again.
   */
  lemma OthersEvict(l: Limits, r: Request, others: seq<Request>, again: Request)
    requires l.maxTracked >= 1 && |others| == l.maxTracked && Various(l, [r] + others)
    requires Verified(l, again) && again.nonce == r.nonce && again.timestamp == r.timestamp
    ensures Accepts(l, [], r)
    ensures |Others(l, After(l, [], [r]), others, r.nonce)| == l.maxTracked
    ensures Accepts(l, After(l, After(l, [], [r]), others), again)
  {
    var all := [r] + others;
    FirstRecorded(l, r, others);
    assert all[1..] == others && all[0] == r;
    CacheIsFull(l, all);
    var seen := EntriesOf(all)[1..];
    forall i | 0 <= i < |seen| ensures seen[i].nonce != again.nonce {
      assert all[0].nonce != all[i + 1].nonce;
    }
    FreshIsRecorded(l, seen, again);
  }

  lemma CacheIsFull(l: Limits, all: seq<Request>)
    requires Various(l, all) && l.maxTracked >= 1 && |all| == l.maxTracked + 1
    ensures After(l, [EntryOf(all[0])], all[1..]) == EntriesOf(all)[1..]
    ensures |Others(l, [EntryOf(all[0])], all[1..], all[0].nonce)| == l.maxTracked
  {
    var k := |all| - 1;
    assert all[1..k + 1] == all[1..] && all[..k + 1] == all;
    Filling(l, all, k);
    OthersCounted(l, all, k);
  }

  lemma FirstRecorded(l: Limits, r: Request, others: seq<Request>)
    requires l.maxTracked >= 1 && Various(l, [r] + others)
    ensures Accepts(l, [], r) && After(l, [], [r]) == [EntryOf(r)]
  {
    assert ([r] + others)[0] == r;
    assert [r][..0] == [];
    FreshIsRecorded(l, [], r);
  }
}
