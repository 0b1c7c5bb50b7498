/**
 Chain events, their order and the tombstone replay
 (service/src/indexer/events.ts, service/src/shared/types.ts and the duplicate
 counter of service/src/indexer/replay.ts).
 */
module ChainEvents {
  import opened Prelude
  import opened Sorting

  /**
   A hex string: the number it spells and the choice of upper and lower case it spells
   it with. Lower-casing forgets the second part; a locale comparison looks at the
   letters first and at their case only to break a tie.
   */
  datatype Hex = Hex(value: nat, casing: nat)

  /** Decoded arguments; None is an argument that is missing or malformed. */
  datatype Payload =
    | IdentityRegistered(bindingId: Option<nat>, subjectId: Option<nat>, account: Option<nat>,
                         descriptorHash: Option<nat>, descriptorURI: string, registrar: Option<nat>)
    | IdentityRevoked(bindingId: Option<nat>, reasonHash: Option<nat>, reasonURI: string)
    | SignalSubmitted(data: nat)
    | OrderFact(data: nat)
    | Undecodable

  datatype Log = Log(contract: Hex, txIndex: Option<nat>, txHash: Hex, logIndex: nat, payload: Payload)

  datatype Block = Block(salt: nat, logs: seq<Log>)

  /** A block hash commits to the block and, through the parent hash, to all before it. */
  datatype Hash = Root | Link(parent: Hash, block: Block)

  datatype Event = Event(chainId: nat, blockNumber: nat, log: Log, removed: bool, blockHash: Option<Hash>)

  datatype Key = Key(chainId: nat, contract: nat, blockNumber: nat, txHash: nat, logIndex: nat)

  function ChainEventKey(e: Event): Key
  {
    Key(e.chainId, e.log.contract.value, e.blockNumber, e.log.txHash.value, e.log.logIndex)
  }

  function LocaleCompare(l: Hex, r: Hex): int
  {
    if l.value != r.value then l.value - r.value else l.casing - r.casing
  }

  function CompareChainPointers(l: Event, r: Event): int
  {
    if l.chainId != r.chainId then l.chainId - r.chainId
    else if l.blockNumber != r.blockNumber then (if l.blockNumber < r.blockNumber then -1 else 1)
    else if l.log.txIndex.Some? && r.log.txIndex.Some? && l.log.txIndex != r.log.txIndex then
      l.log.txIndex.value - r.log.txIndex.value
    else if l.log.logIndex != r.log.logIndex then l.log.logIndex - r.log.logIndex
    else LocaleCompare(l.log.txHash, r.log.txHash)
  }

  function CompareChainEvents(l: Event, r: Event): int
  {
    var position := CompareChainPointers(l, r);
    if position != 0 then position else LocaleCompare(l.log.contract, r.log.contract)
  }

  predicate Before(l: Event, r: Event) { CompareChainEvents(l, r) < 0 }

  function SortChainEvents(events: seq<Event>): seq<Event> { Sort(events, Before) }

  /** Swapping the arguments swaps the sign; a tie means one event position. */
  lemma CompareIsAntisymmetric(l: Event, r: Event)
    ensures CompareChainEvents(l, r) < 0 <==> CompareChainEvents(r, l) > 0
    ensures CompareChainEvents(l, r) == 0 <==> CompareChainEvents(r, l) == 0
    ensures CompareChainEvents(l, r) == 0 ==> ChainEventKey(l) == ChainEventKey(r)
  {
  }

  // ----- the order on logs -----

  /** The comparator has no cycle among these events. */
  ghost predicate Acyclic(xs: seq<Event>)
  {
    forall a, b, c :: a in xs && b in xs && c in xs && Before(a, b) && Before(b, c) ==> Before(a, c)
  }

  ghost predicate AllIndexed(xs: seq<Event>) { forall e :: e in xs ==> e.log.txIndex.Some? }

  ghost predicate NoneIndexed(xs: seq<Event>) { forall e :: e in xs ==> e.log.txIndex.None? }

  /** Within one block, a later transaction carries later logs. */
  ghost predicate LogsFollowTransactions(xs: seq<Event>)
  {
    forall a, b | a in xs && b in xs && a.chainId == b.chainId && a.blockNumber == b.blockNumber &&
                  a.log.txIndex.Some? && b.log.txIndex.Some? && a.log.txIndex.value < b.log.txIndex.value ::
      a.log.logIndex < b.log.logIndex
  }

  lemma TransactionOrderIsAcyclic(xs: seq<Event>)
    requires AllIndexed(xs) || NoneIndexed(xs) || LogsFollowTransactions(xs)
    ensures Acyclic(xs)
  {
    forall a, b, c | a in xs && b in xs && c in xs && Before(a, b) && Before(b, c)
      ensures Before(a, c)
    {
      if LogsFollowTransactions(xs) {
        assert a.log.logIndex == c.log.logIndex && a.chainId == c.chainId && a.blockNumber == c.blockNumber ==>
            a.log.txIndex.None? || c.log.txIndex.None? || a.log.txIndex == c.log.txIndex;
      }
    }
  }

  // ----- last delivery wins -----

  /** What the deliveries under one key amount to, by the last of them in arrival order. */
  datatype Fate = Never | Tombstoned | Live(event: Event)

  function FateOf(xs: seq<Event>, k: Key): Fate
  {
    if |xs| == 0 then Never
    else if ChainEventKey(xs[|xs| - 1]) == k then
      (if xs[|xs| - 1].removed then Tombstoned else Live(xs[|xs| - 1]))
    else FateOf(xs[..|xs| - 1], k)
  }

  /** Deliveries of one position tie in the comparator (tombstones may differ among themselves). */
  ghost predicate Coherent(xs: seq<Event>)
  {
    forall a, b :: a in xs && b in xs && ChainEventKey(a) == ChainEventKey(b) && !(a.removed && b.removed) ==>
      CompareChainEvents(a, b) == 0
  }

  lemma {:induction false} InsertKeepsFate(acc: seq<Event>, e: Event, k: Key)
    requires Coherent(acc + [e])
    ensures FateOf(Insert(acc, e, Before), k) == FateOf(acc + [e], k)
  {
    assert (acc + [e])[..|acc|] == acc;
    if |acc| > 0 && Before(e, acc[|acc| - 1]) {
      var front, last := acc[..|acc| - 1], acc[|acc| - 1];
      assert forall y :: y in front + [e] ==> y in acc + [e];
      InsertKeepsFate(front, e, k);
      assert (front + [e])[..|front|] == front;
      var r := Insert(front, e, Before);
      assert (r + [last])[..|r|] == r;
      assert last in acc + [e] && e in acc + [e];
    }
  }

  lemma {:induction false} SortKeepsFate(xs: seq<Event>, k: Key)
    requires Coherent(xs)
    ensures FateOf(SortChainEvents(xs), k) == FateOf(xs, k)
  {
    if |xs| > 0 {
      var front, last := xs[..|xs| - 1], xs[|xs| - 1];
      SortKeepsFate(front, k);
      SortPermutes(front, Before);
      var acc := SortChainEvents(front);
      assert forall y :: y in acc + [last] ==> y in xs;
      InsertKeepsFate(acc, last, k);
      assert (acc + [last])[..|acc|] == acc;
    }
  }

  // ----- the replay scan over an insertion-ordered map -----

  ghost predicate DistinctKeys(m: seq<Event>)
  {
    forall i, j :: 0 <= i < j < |m| ==> ChainEventKey(m[i]) != ChainEventKey(m[j])
  }

  function MapDelete(m: seq<Event>, k: Key): seq<Event>
  {
    if |m| == 0 then []
    else if ChainEventKey(m[0]) == k then m[1..]
    else [m[0]] + MapDelete(m[1..], k)
  }

  function MapSet(m: seq<Event>, e: Event): seq<Event>
  {
    if |m| == 0 then [e]
    else if ChainEventKey(m[0]) == ChainEventKey(e) then [e] + m[1..]
    else [m[0]] + MapSet(m[1..], e)
  }

  /** The head of a map has a key of its own. */
  lemma HeadKey(m: seq<Event>)
    requires DistinctKeys(m) && |m| > 0
    ensures DistinctKeys(m[1..])
    ensures forall x :: x in m <==> x == m[0] || x in m[1..]
    ensures forall x :: x in m[1..] ==> ChainEventKey(x) != ChainEventKey(m[0])
  {
    assert m == [m[0]] + m[1..];
  }

  lemma HeadOn(e: Event, r: seq<Event>)
    requires DistinctKeys(r) && forall x :: x in r ==> ChainEventKey(x) != ChainEventKey(e)
    ensures DistinctKeys([e] + r)
  {
    assert forall i :: 0 <= i < |r| ==> r[i] in r;
  }

  lemma {:induction false} MapDeleteMembers(m: seq<Event>, k: Key)
    requires DistinctKeys(m)
    ensures DistinctKeys(MapDelete(m, k))
    ensures forall x :: x in MapDelete(m, k) <==> x in m && ChainEventKey(x) != k
  {
    if |m| > 0 {
      HeadKey(m);
      MapDeleteMembers(m[1..], k);
      if ChainEventKey(m[0]) != k { HeadOn(m[0], MapDelete(m[1..], k)); }
    }
  }

  lemma {:induction false} MapSetMembers(m: seq<Event>, e: Event)
    requires DistinctKeys(m)
    ensures DistinctKeys(MapSet(m, e))
    ensures forall x :: x in MapSet(m, e) <==> x == e || (x in m && ChainEventKey(x) != ChainEventKey(e))
  {
    if |m| > 0 {
      HeadKey(m);
      MapSetMembers(m[1..], e);
      if ChainEventKey(m[0]) == ChainEventKey(e) {
        HeadOn(e, m[1..]);
      } else {
        HeadOn(m[0], MapSet(m[1..], e));
      }
    }
  }

  function Scan(xs: seq<Event>): seq<Event>
  {
    if |xs| == 0 then []
    else
      var last := xs[|xs| - 1];
      var m := Scan(xs[..|xs| - 1]);
      if last.removed then MapDelete(m, ChainEventKey(last)) else MapSet(m, last)
  }

  function RemovedIds(xs: seq<Event>): set<Key>
  {
    if |xs| == 0 then {}
    else
      var last := xs[|xs| - 1];
      var ids := RemovedIds(xs[..|xs| - 1]);
      if last.removed then ids + {ChainEventKey(last)} else ids - {ChainEventKey(last)}
  }

  function TombstoneCount(xs: seq<Event>): nat
  {
    if |xs| == 0 then 0
    else TombstoneCount(xs[..|xs| - 1]) + if xs[|xs| - 1].removed then 1 else 0
  }

  lemma {:induction false} ScanIsLastDelivery(xs: seq<Event>)
    ensures DistinctKeys(Scan(xs))
    ensures forall x :: x in Scan(xs) <==> FateOf(xs, ChainEventKey(x)) == Live(x)
    ensures forall k :: k in RemovedIds(xs) <==> FateOf(xs, k) == Tombstoned
  {
    if |xs| > 0 {
      var front, last := xs[..|xs| - 1], xs[|xs| - 1];
      ScanIsLastDelivery(front);
      MapDeleteMembers(Scan(front), ChainEventKey(last));
      MapSetMembers(Scan(front), last);
    }
  }

  datatype ReplaySummary = ReplaySummary(
    activeEvents: seq<Event>, activeEventCount: nat, removedEventCount: nat, removedLogsFiltered: bool)

  function Active(events: seq<Event>): seq<Event>
  {
    SortChainEvents(Scan(SortChainEvents(events)))
  }

  lemma {:induction false} InsertKeepsTombstoneCount(acc: seq<Event>, e: Event)
    ensures TombstoneCount(Insert(acc, e, Before)) == TombstoneCount(acc) + if e.removed then 1 else 0
  {
    assert (acc + [e])[..|acc|] == acc;
    if |acc| > 0 && Before(e, acc[|acc| - 1]) {
      var front, last := acc[..|acc| - 1], acc[|acc| - 1];
      InsertKeepsTombstoneCount(front, e);
      var r := Insert(front, e, Before);
      assert (r + [last])[..|r|] == r;
    }
  }

  lemma {:induction false} SortKeepsTombstoneCount(xs: seq<Event>)
    ensures TombstoneCount(SortChainEvents(xs)) == TombstoneCount(xs)
  {
    if |xs| > 0 {
      SortKeepsTombstoneCount(xs[..|xs| - 1]);
      InsertKeepsTombstoneCount(SortChainEvents(xs[..|xs| - 1]), xs[|xs| - 1]);
    }
  }

  /**
   The replay: sort, then scan with a map of active events and a set of tombstoned ids,
   then sort what is left. The summary is stated against the arrival order of `events`.
   */
  method BuildActiveChainEventReplaySummary(events: seq<Event>) returns (summary: ReplaySummary)
    ensures summary.activeEvents == Active(events)
    ensures summary.activeEventCount == |Active(events)|
    ensures summary.removedEventCount == TombstoneCount(events)
    ensures Coherent(events) ==>
      (summary.removedLogsFiltered <==> exists e :: e in events && FateOf(events, ChainEventKey(e)) == Tombstoned)
  {
    var sorted := SortChainEvents(events);
    var activeByEventId: seq<Event> := [];
    var removedEventIds: set<Key> := {};
    var removedEventCount := 0;
    var i := 0;
    while i < |sorted|
      invariant 0 <= i <= |sorted|
      invariant activeByEventId == Scan(sorted[..i])
      invariant removedEventIds == RemovedIds(sorted[..i])
      invariant removedEventCount == TombstoneCount(sorted[..i])
    {
      var event := sorted[i];
      var eventId := ChainEventKey(event);
      assert sorted[..i + 1][..i] == sorted[..i];
      i := i + 1;
      if event.removed {
        removedEventIds := removedEventIds + {eventId};
        removedEventCount := removedEventCount + 1;
        activeByEventId := MapDelete(activeByEventId, eventId);
        continue;
      }
      removedEventIds := removedEventIds - {eventId};
      activeByEventId := MapSet(activeByEventId, event);
    }
    assert sorted[..i] == sorted;
    SortKeepsTombstoneCount(events);
    if Coherent(events) {
      TombstonesOfSorted(events);
    }
    var activeEvents := SortChainEvents(activeByEventId);
    summary := ReplaySummary(activeEvents, |activeEvents|, removedEventCount, removedEventIds != {});
  }

  lemma TombstonesOfSorted(events: seq<Event>)
    requires Coherent(events)
    ensures RemovedIds(SortChainEvents(events)) != {} <==>
            exists e :: e in events && FateOf(events, ChainEventKey(e)) == Tombstoned
  {
    var sorted := SortChainEvents(events);
    ScanIsLastDelivery(sorted);
    forall k ensures FateOf(sorted, k) == FateOf(events, k) { SortKeepsFate(events, k); }
    if RemovedIds(sorted) != {} {
      var k :| k in RemovedIds(sorted);
      FateHasWitness(events, k);
    }
    if e :| e in events && FateOf(events, ChainEventKey(e)) == Tombstoned {
      assert ChainEventKey(e) in RemovedIds(sorted);
    }
  }

  lemma {:induction false} FateHasWitness(xs: seq<Event>, k: Key)
    ensures FateOf(xs, k) != Never <==> exists e :: e in xs && ChainEventKey(e) == k
    ensures FateOf(xs, k).Live? ==> FateOf(xs, k).event in xs && ChainEventKey(FateOf(xs, k).event) == k
  {
    if |xs| > 0 {
      FateHasWitness(xs[..|xs| - 1], k);
      assert xs == xs[..|xs| - 1] + [xs[|xs| - 1]];
      assert xs[|xs| - 1] in xs;
    }
  }

  // ----- main results on the replay -----

  /** The replay keeps exactly the events whose last delivery is not a tombstone. */
  ghost predicate FollowsLastDelivery(xs: seq<Event>)
  {
    && DistinctKeys(Active(xs))
    && forall e :: e in Active(xs) <==> FateOf(xs, ChainEventKey(e)) == Live(e)
  }

  lemma ActiveMembers(xs: seq<Event>)
    ensures DistinctKeys(Active(xs))
    ensures forall e :: e in Active(xs) <==> FateOf(SortChainEvents(xs), ChainEventKey(e)) == Live(e)
  {
    var scanned := Scan(SortChainEvents(xs));
    ScanIsLastDelivery(SortChainEvents(xs));
    SortPermutes(scanned, Before);
    var r := Active(xs);
    forall i, j | 0 <= i < j < |r| ensures ChainEventKey(r[i]) != ChainEventKey(r[j]) {
      NoRepeats(scanned, r, i, j);
      assert r[i] in r && r[j] in r;
    }
  }

  lemma CoherentReplayIsLastDelivery(xs: seq<Event>)
    requires Coherent(xs)
    ensures FollowsLastDelivery(xs)
  {
    ActiveMembers(xs);
    forall e ensures FateOf(SortChainEvents(xs), ChainEventKey(e)) == FateOf(xs, ChainEventKey(e)) {
      SortKeepsFate(xs, ChainEventKey(e));
    }
  }

  /** Two deliveries of one position that do not tie are replayed wrongly in one of the two arrival orders. */
  lemma IncoherentPairMisreplays(a: Event, b: Event)
    requires ChainEventKey(a) == ChainEventKey(b) && Before(a, b) && !(a.removed && b.removed)
    ensures !FollowsLastDelivery([b, a])
  {
    var xs := [b, a];
    assert xs[..1] == [b] && [b][..0] == [];
    assert Sort([b], Before) == [b];
    assert SortChainEvents(xs) == Insert([b], a, Before) == [a, b];
    assert [a, b][..1] == [a] && [a][..0] == [];
    ActiveMembers(xs);
    assert FateOf([a, b], ChainEventKey(b)) == if b.removed then Tombstoned else Live(b);
    assert FateOf(xs, ChainEventKey(b)) == if a.removed then Tombstoned else Live(a);
    assert !b.removed ==> b in Active(xs);
    assert b.removed ==> a !in Active(xs);
  }

  /**
   Exact condition: every log made of the deliveries in `xs`, in whatever arrival order,
   is replayed by last delivery if and only if deliveries of one position tie.
   */
  lemma ReplayIsLastDeliveryExactly(xs: seq<Event>)
    ensures Coherent(xs) <==>
            forall ys: seq<Event> :: (forall e :: e in ys ==> e in xs) ==> FollowsLastDelivery(ys)
  {
    if Coherent(xs) {
      forall ys: seq<Event> | forall e :: e in ys ==> e in xs ensures FollowsLastDelivery(ys) {
        CoherentReplayIsLastDelivery(ys);
      }
    } else {
      var a, b :| a in xs && b in xs && ChainEventKey(a) == ChainEventKey(b) && !(a.removed && b.removed) &&
        CompareChainEvents(a, b) != 0;
      CompareIsAntisymmetric(a, b);
      var ys := if Before(a, b) then [b, a] else [a, b];
      if Before(a, b) { IncoherentPairMisreplays(a, b); } else { IncoherentPairMisreplays(b, a); }
      assert (forall e :: e in ys ==> e in xs) && !FollowsLastDelivery(ys);
    }
  }

  lemma DistinctKeysStrict(m: seq<Event>)
    requires DistinctKeys(m) && Acyclic(m)
    ensures StrictlyOrdered(SortChainEvents(m), Before)
  {
    forall a, b | a in m && b in m && a != b ensures Before(a, b) || Before(b, a) {
      CompareIsAntisymmetric(a, b);
      var i :| 0 <= i < |m| && m[i] == a;
      var j :| 0 <= j < |m| && m[j] == b;
      assert ChainEventKey(a) != ChainEventKey(b) by { assert i != j; }
    }
    forall a, b | a in m && b in m && Before(a, b) ensures !Before(b, a) {
      CompareIsAntisymmetric(a, b);
    }
    forall a, b, c | a in m && b in m && c in m && !Before(a, b) && !Before(b, c) ensures !Before(a, c) {
      CompareIsAntisymmetric(a, b);
      CompareIsAntisymmetric(b, c);
      CompareIsAntisymmetric(a, c);
      if a != b && b != c {
        assert Before(b, a) && Before(c, b);
        assert Before(c, a);
      }
    }
    SortStrict(m, Before);
  }

  lemma ActiveIsStrictlyOrdered(xs: seq<Event>)
    requires Acyclic(xs)
    ensures StrictlyOrdered(Active(xs), Before)
  {
    var scanned := Scan(SortChainEvents(xs));
    ScanIsLastDelivery(SortChainEvents(xs));
    SortPermutes(xs, Before);
    forall e | e in scanned ensures e in xs {
      FateHasWitness(SortChainEvents(xs), ChainEventKey(e));
    }
    DistinctKeysStrict(scanned);
  }

  /** The replay is determined by what each key's last delivery was: nothing else about the log matters. */
  lemma ActiveDeterminedByFates(xs: seq<Event>, ys: seq<Event>)
    requires Coherent(xs) && Coherent(ys) && Acyclic(xs) && Acyclic(ys)
    requires forall k :: FateOf(xs, k) == FateOf(ys, k)
    ensures Active(xs) == Active(ys)
  {
    CoherentReplayIsLastDelivery(xs);
    CoherentReplayIsLastDelivery(ys);
    ActiveIsStrictlyOrdered(xs);
    ActiveIsStrictlyOrdered(ys);
    StrictAreEqual(Active(xs), Active(ys));
  }

  function OfKey(xs: seq<Event>, k: Key): seq<Event>
  {
    if |xs| == 0 then []
    else OfKey(xs[..|xs| - 1], k) + if ChainEventKey(xs[|xs| - 1]) == k then [xs[|xs| - 1]] else []
  }

  lemma {:induction false} FateOfKey(xs: seq<Event>, k: Key)
    ensures |OfKey(xs, k)| == 0 <==> FateOf(xs, k) == Never
    ensures |OfKey(xs, k)| > 0 ==>
      var last := OfKey(xs, k)[|OfKey(xs, k)| - 1];
      FateOf(xs, k) == if last.removed then Tombstoned else Live(last)
  {
    if |xs| > 0 { FateOfKey(xs[..|xs| - 1], k); }
  }

  /** The comparator leads no three live deliveries around in a circle. */
  ghost predicate NoLiveCycle(xs: seq<Event>)
  {
    forall a, b, c | a in xs && b in xs && c in xs && !a.removed && !b.removed && !c.removed ::
      !(Before(a, b) && Before(b, c) && Before(c, a))
  }

  /** Logs that agree on the deliveries of each key and differ at most in how the keys interleave. */
  ghost predicate SameDeliveries(xs: seq<Event>, ys: seq<Event>)
  {
    forall k :: OfKey(xs, k) == OfKey(ys, k)
  }

  ghost predicate MadeOf(ys: seq<Event>, xs: seq<Event>) { forall e :: e in ys ==> e in xs }

  /** Every log made of the deliveries in `xs` replays the same however its keys interleave. */
  ghost predicate InterleavingIsIrrelevant(xs: seq<Event>)
  {
    forall ys, zs | MadeOf(ys, xs) && MadeOf(zs, xs) && SameDeliveries(ys, zs) :: Active(ys) == Active(zs)
  }

  /** Distinct live events that no cycle leads around are acyclically ordered. */
  lemma NoLiveCycleIsAcyclic(m: seq<Event>)
    requires DistinctKeys(m) && NoLiveCycle(m) && forall e :: e in m ==> !e.removed
    ensures Acyclic(m)
  {
    forall a, b, c | a in m && b in m && c in m && Before(a, b) && Before(b, c) ensures Before(a, c) {
      CompareIsAntisymmetric(a, b);
      CompareIsAntisymmetric(a, c);
      var i :| 0 <= i < |m| && m[i] == a;
      var j :| 0 <= j < |m| && m[j] == c;
      assert i != j ==> ChainEventKey(a) != ChainEventKey(c);
    }
  }

  lemma ActiveIsStrict(xs: seq<Event>, ys: seq<Event>)
    requires Coherent(xs) && NoLiveCycle(xs) && MadeOf(ys, xs)
    ensures StrictlyOrdered(Active(ys), Before)
    ensures FollowsLastDelivery(ys)
  {
    CoherentReplayIsLastDelivery(ys);
    LiveAmong(ys);
    DistinctKeysStrict(Scan(SortChainEvents(ys)));
  }

  lemma NoCycleNoInterleaving(xs: seq<Event>, ys: seq<Event>, zs: seq<Event>)
    requires Coherent(xs) && NoLiveCycle(xs) && MadeOf(ys, xs) && MadeOf(zs, xs) && SameDeliveries(ys, zs)
    ensures Active(ys) == Active(zs)
  {
    ActiveIsStrict(xs, ys);
    ActiveIsStrict(xs, zs);
    forall k ensures FateOf(ys, k) == FateOf(zs, k) {
      FateOfKey(ys, k);
      FateOfKey(zs, k);
    }
    StrictAreEqual(Active(ys), Active(zs));
  }

  lemma OfKeyTriple(a: Event, b: Event, c: Event, k: Key)
    ensures OfKey([a, b, c], k) ==
      (if ChainEventKey(a) == k then [a] else []) + (if ChainEventKey(b) == k then [b] else []) +
      (if ChainEventKey(c) == k then [c] else [])
  {
    assert [a, b, c][..2] == [a, b] && [a, b][..1] == [a] && [a][..0] == [];
    assert OfKey([a], k) == OfKey([], k) + if ChainEventKey(a) == k then [a] else [];
    assert OfKey([a, b], k) == OfKey([a], k) + if ChainEventKey(b) == k then [b] else [];
  }

  /**
   Without an acyclic order the interleaving does matter: three live events that the
   comparator puts in a cycle replay differently in two arrival orders.
   */
  lemma CycleBreaksReplay(a: Event, b: Event, c: Event)
    requires Before(a, b) && Before(b, c) && Before(c, a)
    requires !a.removed && !b.removed && !c.removed
    requires ChainEventKey(a) != ChainEventKey(b) && ChainEventKey(b) != ChainEventKey(c) && ChainEventKey(a) != ChainEventKey(c)
    ensures Active([a, b, c]) == [a, b, c] && Active([b, c, a]) == [b, c, a]
    ensures !AllIndexed([a, b, c]) && !NoneIndexed([a, b, c])
  {
    SortedTriple(a, b, c);
    SortedTriple(b, c, a);
    ScannedTriple(a, b, c);
    ScannedTriple(b, c, a);
    CompareIsAntisymmetric(a, b);
    CompareIsAntisymmetric(c, a);
  }

  /**
   Exact condition: the replay of the logs made of coherent deliveries ignores how their keys
   interleave if and only if the comparator has no cycle among the live ones.
   */
  lemma InterleavingExactly(xs: seq<Event>)
    requires Coherent(xs)
    ensures InterleavingIsIrrelevant(xs) <==> NoLiveCycle(xs)
  {
    if NoLiveCycle(xs) {
      forall ys, zs | MadeOf(ys, xs) && MadeOf(zs, xs) && SameDeliveries(ys, zs) ensures Active(ys) == Active(zs) {
        NoCycleNoInterleaving(xs, ys, zs);
      }
    } else {
      var a, b, c :| a in xs && b in xs && c in xs && !a.removed && !b.removed && !c.removed &&
        Before(a, b) && Before(b, c) && Before(c, a);
      assert ChainEventKey(a) != ChainEventKey(b) && ChainEventKey(b) != ChainEventKey(c) && ChainEventKey(a) != ChainEventKey(c);
      forall k ensures OfKey([a, b, c], k) == OfKey([b, c, a], k) {
        OfKeyTriple(a, b, c, k);
        OfKeyTriple(b, c, a, k);
      }
      CycleBreaksReplay(a, b, c);
      assert [a, b, c][0] == a && [b, c, a][0] == b;
      assert MadeOf([a, b, c], xs) && MadeOf([b, c, a], xs) && SameDeliveries([a, b, c], [b, c, a]);
    }
  }

  lemma SortedTriple(a: Event, b: Event, c: Event)
    requires Before(a, b) && Before(b, c)
    ensures SortChainEvents([a, b, c]) == [a, b, c]
  {
    CompareIsAntisymmetric(a, b);
    CompareIsAntisymmetric(b, c);
    assert [a, b, c][..2] == [a, b] && [a, b][..1] == [a] && [a][..0] == [];
    assert Sort([a], Before) == [a];
    assert Sort([a, b], Before) == Insert([a], b, Before) == [a, b];
    assert Sort([a, b, c], Before) == Insert([a, b], c, Before) == [a, b, c];
  }

  lemma ScannedTriple(a: Event, b: Event, c: Event)
    requires !a.removed && !b.removed && !c.removed
    requires ChainEventKey(a) != ChainEventKey(b) && ChainEventKey(b) != ChainEventKey(c) && ChainEventKey(a) != ChainEventKey(c)
    ensures Scan([a, b, c]) == [a, b, c]
  {
    assert [a, b, c][..2] == [a, b] && [a, b][..1] == [a] && [a][..0] == [];
    assert Scan([a]) == [a];
    assert [a][1..] == [] && [a, b][1..] == [b] && [b][1..] == [];
    assert MapSet([a], b) == [a] + MapSet([], b) == [a, b];
    assert Scan([a, b]) == [a, b];
    assert MapSet([b], c) == [b] + MapSet([], c) == [b, c];
    assert MapSet([a, b], c) == [a] + MapSet([b], c);
  }

  /** A mixed log really has such a cycle: transaction indices 1, none and 2 with log indices 9, 5 and 1. */
  lemma MixedIndicesCycle(contract: Hex, hash: Hex, p: Payload)
    ensures var a := Event(1, 7, Log(contract, Some(1), hash, 9, p), false, None);
            var b := Event(1, 7, Log(contract, Some(2), hash, 1, p), false, None);
            var c := Event(1, 7, Log(contract, None, hash, 5, p), false, None);
            Before(a, b) && Before(b, c) && Before(c, a) && Active([a, b, c]) != Active([b, c, a])
  {
    var a := Event(1, 7, Log(contract, Some(1), hash, 9, p), false, None);
    var b := Event(1, 7, Log(contract, Some(2), hash, 1, p), false, None);
    var c := Event(1, 7, Log(contract, None, hash, 5, p), false, None);
    CycleBreaksReplay(a, b, c);
    assert [a, b, c][0] == a && [b, c, a][0] == b;
  }

  lemma {:induction false} FateOfConcat(xs: seq<Event>, ys: seq<Event>, k: Key)
    ensures FateOf(xs + ys, k) == if FateOf(ys, k) == Never then FateOf(xs, k) else FateOf(ys, k)
  {
    if |ys| == 0 {
      assert xs + ys == xs;
    } else {
      assert (xs + ys)[..|xs + ys| - 1] == xs + ys[..|ys| - 1];
      FateOfConcat(xs, ys[..|ys| - 1], k);
    }
  }

  /** A log of live events with one event per key: every event is its key's fate. */
  ghost predicate LiveAndFunctional(xs: seq<Event>)
  {
    && (forall e :: e in xs ==> !e.removed)
    && (forall a, b :: a in xs && b in xs && ChainEventKey(a) == ChainEventKey(b) ==> a == b)
  }

  lemma LiveFates(xs: seq<Event>, k: Key)
    requires LiveAndFunctional(xs)
    ensures FateOf(xs, k) != Tombstoned
    ensures forall e :: FateOf(xs, k) == Live(e) <==> e in xs && ChainEventKey(e) == k
    ensures Coherent(xs)
  {
    FateHasWitness(xs, k);
    NoTombstones(xs, k);
    forall a, b | a in xs && b in xs && ChainEventKey(a) == ChainEventKey(b)
      ensures CompareChainEvents(a, b) == 0
    {
      assert a == b;
    }
  }

  lemma {:induction false} NoTombstones(xs: seq<Event>, k: Key)
    requires forall e :: e in xs ==> !e.removed
    ensures FateOf(xs, k) != Tombstoned
  {
    if |xs| > 0 { NoTombstones(xs[..|xs| - 1], k); }
  }

  /** Two live logs with the same events replay alike, whatever their order and repetitions. */
  lemma ActiveOfSameEvents(xs: seq<Event>, ys: seq<Event>)
    requires LiveAndFunctional(xs) && Acyclic(xs)
    requires forall e :: e in xs <==> e in ys
    ensures Active(xs) == Active(ys)
    ensures forall e :: e in Active(xs) <==> e in xs
  {
    forall k ensures FateOf(xs, k) == FateOf(ys, k) {
      LiveFates(xs, k);
      LiveFates(ys, k);
      if FateOf(xs, k).Live? { assert FateOf(ys, k) == Live(FateOf(xs, k).event); }
      if FateOf(ys, k).Live? { assert FateOf(xs, k) == Live(FateOf(ys, k).event); }
    }
    var k0 := Key(0, 0, 0, 0, 0);
    LiveFates(xs, k0);
    LiveFates(ys, k0);
    assert Acyclic(ys);
    ActiveDeterminedByFates(xs, ys);
    CoherentReplayIsLastDelivery(xs);
    forall e ensures e in Active(xs) <==> e in xs {
      LiveFates(xs, ChainEventKey(e));
    }
  }

  /** Compaction: a replay may start from the active events of the log so far. */
  lemma CompactionIsSound(xs: seq<Event>, ys: seq<Event>)
    requires Coherent(xs + ys) && NoLiveCycle(xs + ys)
    ensures Active(Active(xs) + ys) == Active(xs + ys)
  {
    assert forall e :: e in xs ==> e in xs + ys;
    CoherentReplayIsLastDelivery(xs);
    forall e | e in Active(xs) + ys ensures e in xs + ys {
      FateHasWitness(xs, ChainEventKey(e));
    }
    CompactKeepsFates(xs, ys);
    ActiveOfCompacted(xs, ys);
  }

  /** Replaying a replay changes nothing, whatever the deliveries of one position look like. */
  lemma ReplayIsIdempotent(xs: seq<Event>)
    requires NoLiveCycle(xs)
    ensures Active(Active(xs)) == Active(xs)
  {
    var m, r := Scan(SortChainEvents(xs)), Active(xs);
    LiveAmong(xs);
    NoLiveCycleIsAcyclic(m);
    DistinctKeysStrict(m);
    ActiveMembers(xs);
    ActiveOfSameEvents(r, r);
    ActiveIsStrictlyOrdered(r);
    StrictAreEqual(Active(r), r);
  }

  /** What the scan keeps are distinct live deliveries of the log. */
  lemma LiveAmong(xs: seq<Event>)
    ensures var m := Scan(SortChainEvents(xs));
      && DistinctKeys(m) && (forall e :: e in m <==> e in Active(xs)) && LiveAndFunctional(Active(xs))
      && (forall e :: e in m ==> e in xs && !e.removed)
      && (NoLiveCycle(xs) ==> NoLiveCycle(m) && Acyclic(Active(xs)))
  {
    var m := Scan(SortChainEvents(xs));
    ScanIsLastDelivery(SortChainEvents(xs));
    SortPermutes(xs, Before);
    SortPermutes(m, Before);
    forall e | e in m ensures e in xs && !e.removed {
      FateHasWitness(SortChainEvents(xs), ChainEventKey(e));
      FateIsLive(SortChainEvents(xs), ChainEventKey(e));
    }
    if NoLiveCycle(xs) { NoLiveCycleIsAcyclic(m); }
  }

  lemma StrictAreEqual(xs: seq<Event>, ys: seq<Event>)
    requires StrictlyOrdered(xs, Before) && StrictlyOrdered(ys, Before) && forall e :: e in xs <==> e in ys
    ensures xs == ys
  {
    forall a, b | a in xs && b in xs && Before(a, b) ensures !Before(b, a) {
      CompareIsAntisymmetric(a, b);
    }
    StrictOrderUnique(xs, ys, Before);
  }

  lemma {:induction false} FateIsLive(xs: seq<Event>, k: Key)
    ensures FateOf(xs, k).Live? ==> !FateOf(xs, k).event.removed
  {
    if |xs| > 0 { FateIsLive(xs[..|xs| - 1], k); }
  }

  /** Compaction keeps every live fate; it may forget a tombstone. */
  lemma CompactKeepsFates(xs: seq<Event>, ys: seq<Event>)
    requires Coherent(xs)
    ensures forall e :: FateOf(Active(xs) + ys, ChainEventKey(e)) == Live(e) <==> FateOf(xs + ys, ChainEventKey(e)) == Live(e)
  {
    CoherentReplayIsLastDelivery(xs);
    forall e | e in Active(xs) ensures !e.removed { FateIsLive(xs, ChainEventKey(e)); }
    assert LiveAndFunctional(Active(xs));
    forall e
      ensures FateOf(Active(xs) + ys, ChainEventKey(e)) == Live(e) <==> FateOf(xs + ys, ChainEventKey(e)) == Live(e)
    {
      var k := ChainEventKey(e);
      FateOfConcat(Active(xs), ys, k);
      FateOfConcat(xs, ys, k);
      LiveFates(Active(xs), k);
    }
  }

  lemma ActiveOfCompacted(xs: seq<Event>, ys: seq<Event>)
    requires Coherent(xs + ys) && NoLiveCycle(xs + ys)
    requires forall e :: e in Active(xs) + ys ==> e in xs + ys
    requires forall e :: FateOf(Active(xs) + ys, ChainEventKey(e)) == Live(e) <==> FateOf(xs + ys, ChainEventKey(e)) == Live(e)
    ensures Active(Active(xs) + ys) == Active(xs + ys)
  {
    ActiveIsStrict(xs + ys, Active(xs) + ys);
    ActiveIsStrict(xs + ys, xs + ys);
    StrictAreEqual(Active(Active(xs) + ys), Active(xs + ys));
  }

  // ----- duplicate deliveries -----

  function LiveCount(xs: seq<Event>): nat
  {
    if |xs| == 0 then 0
    else LiveCount(xs[..|xs| - 1]) + if xs[|xs| - 1].removed then 0 else 1
  }

  /** The anomaly count is the number of live deliveries beyond the first of each key. */
  method CountDuplicateActiveEventAnomalies(events: seq<Event>) returns (anomalies: nat)
    ensures anomalies + |set e | e in events && !e.removed :: ChainEventKey(e)| == LiveCount(events)
  {
    anomalies := 0;
    var seenActive: set<Key> := {};
    var i := 0;
    while i < |events|
      invariant 0 <= i <= |events|
      invariant seenActive == set e | e in events[..i] && !e.removed :: ChainEventKey(e)
      invariant anomalies + |seenActive| == LiveCount(events[..i])
    {
      var event := events[i];
      assert events[..i + 1] == events[..i] + [event];
      assert events[..i + 1][..i] == events[..i];
      i := i + 1;
      if event.removed {
        continue;
      }
      var key := ChainEventKey(event);
      if key in seenActive {
        anomalies := anomalies + 1;
      }
      assert seenActive + {key} == if key in seenActive then seenActive else seenActive + {key};
      seenActive := seenActive + {key};
    }
    assert events[..i] == events;
  }
}
