/**
 The durable projection store (service/src/storage/sqlite-projection-store.ts): event
 table, cursor with compare-and-set, snapshots, sync state and pending queue.
 */
module ProjectionStore {
  import opened Prelude
  import opened Sorting
  import opened ChainEvents
  import opened IdentityProjections
  import opened PendingSteps

  /** `next` is the next block to index; `hash` is the hash of the block below it. */
  datatype Cursor = Cursor(next: nat, finalized: nat, hash: Option<Hash>)

  /**
   `order` stands for the order snapshot: it is the list of events the order projections
   were folded from, so that equal lists mean equal snapshots whatever the fold computes.
   `finalized` is the finality bound of the sync state.
   */
  datatype Store = Store(
    rows: seq<Event>, cursor: Option<Cursor>, order: seq<Event>, identity: IdentitySnapshot,
    finalized: Option<nat>, queue: Queue)

  const EMPTY_STORE := Store([], None, [], EMPTY_IDENTITY, None, [])

  // ----- the event table -----

  predicate HasKey(rows: seq<Event>, k: Key)
  {
    |rows| > 0 && (ChainEventKey(rows[|rows| - 1]) == k || HasKey(rows[..|rows| - 1], k))
  }

  function Coalesce<T>(first: Option<T>, second: Option<T>): Option<T>
  {
    if first.Some? then first else second
  }

  /** What a row becomes when an event of its key arrives: a tombstone marks it, a live event revives it. */
  function Merge(row: Event, e: Event): Event
  {
    if e.removed then row.(removed := true, blockHash := Coalesce(e.blockHash, row.blockHash))
    else if row.removed then
      row.(removed := false, blockHash := Coalesce(e.blockHash, row.blockHash),
           log := row.log.(payload := e.log.payload, txIndex := Coalesce(row.log.txIndex, e.log.txIndex)))
    else row
  }

  function MergeRows(rows: seq<Event>, e: Event): seq<Event>
  {
    if |rows| == 0 then []
    else
      var last := rows[|rows| - 1];
      MergeRows(rows[..|rows| - 1], e) + [if ChainEventKey(last) == ChainEventKey(e) then Merge(last, e) else last]
  }

  function AppendRow(rows: seq<Event>, e: Event): seq<Event>
  {
    if HasKey(rows, ChainEventKey(e)) then MergeRows(rows, e) else rows + [e]
  }

  function AppendRows(rows: seq<Event>, events: seq<Event>): seq<Event>
  {
    if |events| == 0 then rows
    else AppendRow(AppendRows(rows, events[..|events| - 1]), events[|events| - 1])
  }

  /** What a listing of the table returns. */
  function Listed(rows: seq<Event>): seq<Event> { SortChainEvents(rows) }

  function RowsUpTo(rows: seq<Event>, block: int): seq<Event>
  {
    Filter(rows, (e: Event) => e.blockNumber <= block)
  }

  function RowsFrom(events: seq<Event>, block: int): seq<Event>
  {
    Filter(events, (e: Event) => e.blockNumber >= block)
  }

  lemma {:induction false} HasKeyMembers(rows: seq<Event>, k: Key)
    ensures HasKey(rows, k) <==> exists e :: e in rows && ChainEventKey(e) == k
  {
    if |rows| > 0 {
      HasKeyMembers(rows[..|rows| - 1], k);
      assert rows == rows[..|rows| - 1] + [rows[|rows| - 1]];
      assert rows[|rows| - 1] in rows;
    }
  }

  lemma RowsUpToMembers(rows: seq<Event>, block: int)
    ensures forall e :: e in RowsUpTo(rows, block) <==> e in rows && e.blockNumber <= block
  {
    FilterMembers(rows, (e: Event) => e.blockNumber <= block);
  }

  /**
   What a deletion leaves and counts: exactly the rows up to the block stay, keys stay distinct,
   and the rows that go are as many as lie above.
   */
  lemma DeletesExactlyAbove(rows: seq<Event>, block: int)
    ensures forall e :: e in RowsUpTo(rows, block) <==> e in rows && e.blockNumber <= block
    ensures DistinctKeys(rows) ==> DistinctKeys(RowsUpTo(rows, block))
    ensures |rows| - |RowsUpTo(rows, block)| == |RowsFrom(rows, block + 1)|
  {
    RowsUpToMembers(rows, block);
    if DistinctKeys(rows) { KeptKeysDistinct(rows, block); }
    SplitAtBlock(rows, block);
  }

  lemma {:induction false} SplitAtBlock(rows: seq<Event>, block: int)
    ensures |RowsUpTo(rows, block)| + |RowsFrom(rows, block + 1)| == |rows|
  {
    if |rows| > 0 { SplitAtBlock(rows[..|rows| - 1], block); }
  }

  lemma {:induction false} KeptKeysDistinct(rows: seq<Event>, block: int)
    requires DistinctKeys(rows)
    ensures DistinctKeys(RowsUpTo(rows, block))
  {
    if |rows| > 0 {
      var front, last := rows[..|rows| - 1], rows[|rows| - 1];
      KeptKeysDistinct(front, block);
      RowsUpToMembers(front, block);
      var kept := RowsUpTo(front, block);
      forall i | 0 <= i < |kept| ensures ChainEventKey(kept[i]) != ChainEventKey(last) {
        assert kept[i] in kept;
      }
    }
  }

  lemma {:induction false} MergeRowsKeys(rows: seq<Event>, e: Event)
    ensures |MergeRows(rows, e)| == |rows|
    ensures forall i :: 0 <= i < |rows| ==>
              MergeRows(rows, e)[i] == if ChainEventKey(rows[i]) == ChainEventKey(e) then Merge(rows[i], e) else rows[i]
  {
    if |rows| > 0 { MergeRowsKeys(rows[..|rows| - 1], e); }
  }

  /** The event key is the table's primary key. */
  lemma {:induction false} TableKeysStayDistinct(rows: seq<Event>, events: seq<Event>)
    requires DistinctKeys(rows)
    ensures DistinctKeys(AppendRows(rows, events))
  {
    if |events| > 0 {
      var front, e := events[..|events| - 1], events[|events| - 1];
      TableKeysStayDistinct(rows, front);
      var t := AppendRows(rows, front);
      MergeRowsKeys(t, e);
      HasKeyMembers(t, ChainEventKey(e));
      forall i | 0 <= i < |t| ensures t[i] in t {}
    }
  }

  /** The table knows of each key whether its last delivery was live, however often it was removed and came back. */
  lemma {:induction false} TableFollowsLastDelivery(events: seq<Event>, k: Key)
    ensures FateOf(events, k).Live? <==>
            exists r :: r in AppendRows([], events) && ChainEventKey(r) == k && !r.removed
    ensures FateOf(events, k).Never? <==> !HasKey(AppendRows([], events), k)
  {
    if |events| > 0 {
      var front, e := events[..|events| - 1], events[|events| - 1];
      TableFollowsLastDelivery(front, k);
      var t := AppendRows([], front);
      var none: seq<Event> := [];
      TableKeysStayDistinct(none, front);
      HasKeyMembers(t, k);
      HasKeyMembers(AppendRow(t, e), k);
      HasKeyMembers(t, ChainEventKey(e));
      AppendedLiveness(t, e, k);
    }
  }

  lemma AppendedLiveness(t: seq<Event>, e: Event, k: Key)
    requires DistinctKeys(t)
    ensures ChainEventKey(e) != k ==> forall r :: ChainEventKey(r) == k ==> (r in AppendRow(t, e) <==> r in t)
    ensures ChainEventKey(e) == k ==> exists r :: r in AppendRow(t, e) && ChainEventKey(r) == k
    ensures ChainEventKey(e) == k ==> forall r :: r in AppendRow(t, e) && ChainEventKey(r) == k ==> r.removed == e.removed
  {
    var a := AppendRow(t, e);
    HasKeyMembers(t, ChainEventKey(e));
    MergeRowsKeys(t, e);
    if HasKey(t, ChainEventKey(e)) {
      var i :| 0 <= i < |t| && ChainEventKey(t[i]) == ChainEventKey(e);
      assert a[i] in a;
      forall r | ChainEventKey(r) == k && ChainEventKey(e) != k ensures r in a <==> r in t {
        if r in a { var j :| 0 <= j < |a| && a[j] == r; assert t[j] in t; }
        if r in t { var j :| 0 <= j < |t| && t[j] == r; assert a[j] in a; }
      }
    } else {
      assert e in a;
    }
  }

  /** Appending live events, one event per key, adds exactly those events. */
  lemma {:induction false} AppendedMembers(rows: seq<Event>, events: seq<Event>)
    requires LiveAndFunctional(rows + events)
    ensures forall e :: e in AppendRows(rows, events) <==> e in rows || e in events
  {
    if |events| > 0 {
      var front, last := events[..|events| - 1], events[|events| - 1];
      assert events == front + [last];
      assert forall e :: e in rows + front ==> e in rows + events;
      AppendedMembers(rows, front);
      var t := AppendRows(rows, front);
      HasKeyMembers(t, ChainEventKey(last));
      MergeRowsKeys(t, last);
      forall e | e in t ensures e in rows + events {}
      assert last in rows + events;
      if HasKey(t, ChainEventKey(last)) {
        assert MergeRows(t, last) == t by {
          forall i | 0 <= i < |t| ensures MergeRows(t, last)[i] == t[i] { assert t[i] in t; }
        }
      }
    }
  }

  // ----- the store -----

  predicate MayWriteCursor(s: Store, expected: Option<nat>)
  {
    expected.None? || s.cursor.None? || s.cursor.value.next == expected.value
  }

  function Reset(s: Store, deploymentBlock: nat, events: seq<Event>, c: Cursor, identity: IdentitySnapshot): Store
  {
    var kept := RowsFrom(events, deploymentBlock);
    s.(rows := AppendRows([], kept), order := Active(kept), identity := identity, cursor := Some(c), finalized := Some(c.finalized))
  }

  class SqliteProjectionStore {
    var rows: seq<Event>
    var cursor: Option<Cursor>
    var order: seq<Event>
    var identity: IdentitySnapshot
    var finalized: Option<nat>
    var queue: Queue

    function View(): Store reads this { Store(rows, cursor, order, identity, finalized, queue) }

    constructor ()
      ensures View() == EMPTY_STORE
    {
      rows, cursor, order, identity, finalized, queue := [], None, [], EMPTY_IDENTITY, None, [];
    }

    /** A transaction that throws puts back what the store held when it began. */
    method Restore(saved: Store)
      modifies this
      ensures View() == saved
    {
      rows, cursor, order, identity, finalized, queue :=
        saved.rows, saved.cursor, saved.order, saved.identity, saved.finalized, saved.queue;
    }

    method SaveCursor(c: Cursor, expectNextBlock: Option<nat>) returns (saved: bool)
      modifies this`cursor
      ensures saved == MayWriteCursor(old(View()), expectNextBlock)
      ensures cursor == if saved then Some(c) else old(cursor)
    {
      if expectNextBlock.Some? {
        if cursor.Some? && cursor.value.next == expectNextBlock.value {
          cursor := Some(c);
          return true;
        }
        if cursor.Some? {
          return false;
        }
      }
      cursor := Some(c);
      saved := true;
    }

    method DeleteEventsAfterBlock(block: int) returns (deleted: nat)
      modifies this`rows
      ensures rows == RowsUpTo(old(rows), block) && deleted == |old(rows)| - |rows|
    {
      FilterMembers(rows, (e: Event) => e.blockNumber <= block);
      deleted := |rows| - |RowsUpTo(rows, block)|;
      rows := RowsUpTo(rows, block);
    }

    method AppendEvent(event: Event)
      modifies this`rows
      ensures rows == AppendRow(old(rows), event)
    {
      rows := if HasKey(rows, ChainEventKey(event)) then MergeRows(rows, event) else rows + [event];
    }

    method AppendEvents(events: seq<Event>)
      modifies this`rows
      ensures rows == AppendRows(old(rows), events)
    {
      var i := 0;
      while i < |events|
        invariant 0 <= i <= |events|
        invariant rows == AppendRows(old(rows), events[..i])
      {
        assert events[..i + 1][..i] == events[..i];
        AppendEvent(events[i]);
        i := i + 1;
      }
      assert events[..i] == events;
    }

    method SaveSnapshots(orderEvents: seq<Event>, identitySnapshot: IdentitySnapshot)
      modifies this`order, this`identity
      ensures order == orderEvents && identity == identitySnapshot
    {
      order, identity := orderEvents, identitySnapshot;
    }

    method SaveSyncState(bound: nat)
      modifies this`finalized
      ensures finalized == Some(bound)
    {
      finalized := Some(bound);
    }

    method SavePendingPostCommitStep(id: StepId, events: seq<Event>)
      modifies this`queue
      ensures queue == SaveStep(old(queue), id, events)
    {
      queue := SaveStep(queue, id, events);
    }

    method RecordPendingPostCommitAttempt(id: StepId)
      modifies this`queue
      ensures queue == RecordAttempt(old(queue), id)
    {
      queue := RecordAttempt(queue, id);
    }

    method DeletePendingPostCommitStep(id: StepId)
      modifies this`queue
      ensures queue == DropStep(old(queue), id)
    {
      queue := DropStep(queue, id);
    }

    /** Replaces the whole table, both snapshots, the cursor and the sync state, or throws and changes nothing. */
    method ResetFromEvents(deploymentBlock: nat, events: seq<Event>, c: Cursor, replays: seq<Event> -> bool)
      returns (ok: bool)
      modifies this
      ensures var kept := RowsFrom(events, deploymentBlock);
        && ok == (replays(Active(kept)) && RebuildIdentity(kept).Ok?)
        && View() == if ok then Reset(old(View()), deploymentBlock, events, c, RebuildIdentity(kept).value) else old(View())
    {
      var kept := RowsFrom(events, deploymentBlock);
      var replay := BuildActiveChainEventReplaySummary(kept);
      if !replays(replay.activeEvents) { return false; }
      var identitySnapshot := RebuildIdentityProjections(kept);
      if identitySnapshot.Err? { return false; }
      Replace(kept, replay.activeEvents, identitySnapshot.value, c);
      ok := true;
    }

    method Replace(kept: seq<Event>, orderEvents: seq<Event>, identitySnapshot: IdentitySnapshot, c: Cursor)
      modifies this
      ensures View() == Store(AppendRows([], kept), Some(c), orderEvents, identitySnapshot, Some(c.finalized), old(queue))
    {
      rows := [];
      AppendEvents(kept);
      SaveSnapshots(orderEvents, identitySnapshot);
      var _ := SaveCursor(c, None);
      SaveSyncState(c.finalized);
    }
  }
}
