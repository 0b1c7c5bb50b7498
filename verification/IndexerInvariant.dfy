/** The indexer's durable invariant, kept by every sub-step of a round. */
module IndexerInvariant {
  import opened Prelude
  import opened Sorting
  import opened ChainEvents
  import opened EventSource
  import opened IdentityProjections
  import opened PendingSteps
  import opened PendingSweep
  import opened ProjectionStore
  import opened IndexerModel
  import opened IndexerAncestor

  /** Both snapshots are the replay of the stored events. */
  ghost predicate SnapshotsMatch(s: Store)
  {
    s.order == Active(Listed(s.rows)) && RebuildIdentity(Listed(s.rows)) == Ok(s.identity)
  }

  /** The rows below n are events of this chain. */
  ghost predicate RowsBelow(cfg: Config, rows: seq<Event>, chain: Chain, n: nat)
  {
    forall e :: e in rows && e.blockNumber < n ==> OnChain(cfg, chain, e)
  }

  /** The rows below n are exactly the chain's events from the deployment block on. */
  ghost predicate Covers(cfg: Config, rows: seq<Event>, chain: Chain, n: nat)
  {
    forall e: Event | e.blockNumber < n :: e in rows <==> OnChain(cfg, chain, e) && cfg.deploymentBlock <= e.blockNumber
  }

  ghost predicate TableOk(cfg: Config, rows: seq<Event>)
  {
    forall e :: e in rows ==> !e.removed && cfg.deploymentBlock <= e.blockNumber
  }

  /** The chain that the cursor's hash commits to. */
  function CursorChain(c: Cursor): Chain
  {
    if c.hash.Some? then ChainOf(c.hash.value) else []
  }

  ghost predicate CursorOk(cfg: Config, rows: seq<Event>, c: Cursor)
  {
    && 1 <= c.next && cfg.deploymentBlock <= c.next <= Max(cfg.deploymentBlock, c.finalized + 1)
    && c.hash.Some?
    && |CursorChain(c)| == c.next
    && WellFormedChain(CursorChain(c))
    && RowsBelow(cfg, rows, CursorChain(c), c.next)
  }

  ghost predicate StoreOk(cfg: Config, s: Store)
  {
    && TableOk(cfg, s.rows)
    && SnapshotsMatch(s)
    && ValidQueue(s.queue)
    && (s.cursor.None? ==> s.rows == [])
    && (s.cursor.Some? ==> CursorOk(cfg, s.rows, s.cursor.value))
  }

  /** What one process alone keeps: its cursor in memory, if it has one, is the durable cursor. */
  ghost predicate Inv(cfg: Config, w: World)
  {
    StoreOk(cfg, w.store) && (w.memory.Some? ==> w.memory == w.store.cursor) && w.casFailures == 0
  }

  // ----- chains -----

  lemma PrefixEvents(cfg: Config, chain: Chain, n: nat, e: Event)
    requires e.blockNumber < n <= |chain|
    ensures OnChain(cfg, chain[..n], e) <==> OnChain(cfg, chain, e)
  {
    assert chain[..n][..e.blockNumber + 1] == chain[..e.blockNumber + 1];
    HashOfPrefix(chain[..n], chain, e.blockNumber);
  }

  lemma PrefixCovers(cfg: Config, chain: Chain, n: nat, rows: seq<Event>)
    requires n <= |chain|
    ensures RowsBelow(cfg, rows, chain[..n], n) <==> RowsBelow(cfg, rows, chain, n)
    ensures Covers(cfg, rows, chain[..n], n) <==> Covers(cfg, rows, chain, n)
  {
    forall e: Event | e.blockNumber < n ensures OnChain(cfg, chain[..n], e) <==> OnChain(cfg, chain, e) {
      PrefixEvents(cfg, chain, n, e);
    }
  }

  /** The cursor a round writes carries the hash of the block below it. */
  lemma HashedCursor(cfg: Config, rows: seq<Event>, chain: Chain, c: Cursor)
    requires WellFormedChain(chain) && 1 <= c.next <= |chain| && c.hash == Some(HashAt(chain, c.next - 1))
    ensures CursorChain(c) == chain[..c.next] && |CursorChain(c)| == c.next && WellFormedChain(CursorChain(c))
    ensures RowsBelow(cfg, rows, CursorChain(c), c.next) <==> RowsBelow(cfg, rows, chain, c.next)
    ensures Covers(cfg, rows, CursorChain(c), c.next) <==> Covers(cfg, rows, chain, c.next)
  {
    ChainOfHash(chain, c.next - 1);
    PrefixCovers(cfg, chain, c.next, rows);
  }

  // ----- the queue -----

  /** Sub-steps that touch nothing durable but the queue. */
  ghost predicate OnlyQueue(w: World, v: World)
  {
    && v.store == w.store.(queue := v.store.queue)
    && v.memory == w.memory && v.casFailures == w.casFailures
    && (ValidQueue(w.store.queue) ==> ValidQueue(v.store.queue))
  }

  lemma OnlyQueueKeepsInv(cfg: Config, w: World, v: World)
    requires Inv(cfg, w) && OnlyQueue(w, v)
    ensures Inv(cfg, v)
  {
  }

  lemma SavedOnlyQueue(w: World, id: StepId, events: seq<Event>)
    requires WellFormedStep(PendingSteps.Step(id, events, 0))
    ensures OnlyQueue(w, Saved(w, id, events)) && OnlyQueue(w, Persisted(w, id, events))
  {
    if ValidQueue(w.store.queue) {
      SaveKeepsValid(w.store.queue, id, events);
      RecordKeepsValid(SaveStep(w.store.queue, id, events), id);
    }
  }

  lemma PrePersistedOnlyQueue(cfg: Config, w: World, events: seq<Event>)
    ensures OnlyQueue(w, PrePersisted(cfg, w, events))
  {
    if |events| > 0 { SavedOnlyQueue(w, PendingPostCommitStepId(events), events); }
  }

  lemma NotifiedOnlyQueue(cfg: Config, w: World, env: Env, events: seq<Event>)
    ensures OnlyQueue(w, PrePersisted(cfg, w, events)) && OnlyQueue(w, Notified(cfg, w, env, events))
  {
    if |events| > 0 { SavedOnlyQueue(w, PendingPostCommitStepId(events), events); }
  }

  lemma AutomatedOnlyQueue(cfg: Config, w: World, env: Env)
    ensures OnlyQueue(w, Automated(cfg, w, env))
  {
    SavedOnlyQueue(w, AutomationId, []);
  }

  lemma WithdrawnOnlyQueue(cfg: Config, w: World, events: seq<Event>)
    ensures OnlyQueue(w, Withdrawn(cfg, w, events))
  {
    if ValidQueue(w.store.queue) { DropKeepsValid(w.store.queue, PendingPostCommitStepId(events)); }
  }

  lemma SettledOnlyQueue(cfg: Config, w: World, env: Env, events: seq<Event>)
    ensures OnlyQueue(w, NotificationSettled(cfg, w, env, events))
  {
    NotifiedOnlyQueue(cfg, w, env, events);
    WithdrawnOnlyQueue(cfg, Notified(cfg, w, env, events), events);
  }

  /** All the queue steps around a notification at once. */
  lemma NotificationOnlyQueue(cfg: Config, w: World, env: Env, events: seq<Event>)
    ensures OnlyQueue(w, PrePersisted(cfg, w, events)) && OnlyQueue(w, Notified(cfg, w, env, events))
    ensures OnlyQueue(w, Automated(cfg, w, env)) && OnlyQueue(w, Withdrawn(cfg, w, events))
    ensures OnlyQueue(w, NotificationSettled(cfg, w, env, events))
  {
    NotifiedOnlyQueue(cfg, w, env, events);
    AutomatedOnlyQueue(cfg, w, env);
    WithdrawnOnlyQueue(cfg, w, events);
    SettledOnlyQueue(cfg, w, env, events);
  }

  lemma SweepOnlyQueue(cfg: Config, w: World, env: Env, n: nat)
    requires n <= |w.store.queue|
    ensures OnlyQueue(w, SweptPartly(cfg, w, env, n))
  {
    var q := w.store.queue;
    if ValidQueue(q) { SweepKeepsValid(q, Begin(q, w.handled, w.dead), n, SweepEnvOf(cfg, w, env)); }
  }

  lemma SweptOnlyQueue(cfg: Config, w: World, env: Env)
    ensures OnlyQueue(w, Swept(cfg, w, env))
  {
    SweepOnlyQueue(cfg, w, env, |w.store.queue|);
  }

  lemma TrimOnlyQueue(cfg: Config, w: World, a: nat)
    ensures OnlyQueue(w, Linked(cfg, w, a))
  {
    var q := w.store.queue;
    assert q[..|q|] == q;
    if ValidQueue(q) { TrimPassKeepsValid(q, |q|, a); }
  }

  // ----- the check before an append -----

  /** A check that passed: the rows below the block to continue from are events of the current chain. */
  ghost predicate Passed(cfg: Config, w: World, env: Env, from: nat)
  {
    && Inv(cfg, w)
    && w.store.cursor.Some? && w.store.cursor.value.next == from
    && RowsBelow(cfg, w.store.rows, env.chain, from)
  }

  lemma UniformBelowCursor(cfg: Config, rows: seq<Event>, chain: Chain, n: nat)
    requires RowsBelow(cfg, rows, chain, n)
    ensures UniformHashes(rows, n)
  {
    forall a, b | a in rows && b in rows && a.blockNumber == b.blockNumber < n ensures a.blockHash == b.blockHash {
      assert OnChain(cfg, chain, a) && OnChain(cfg, chain, b);
    }
  }

  /** Below a canonical anchor the stored chain and the current one are the same. */
  lemma AnchorJoins(cfg: Config, rows: seq<Event>, stored: Chain, chain: Chain, anchor: Event, e: Event)
    requires OnChain(cfg, stored, anchor) && Canonical(chain, anchor) && e.blockNumber <= anchor.blockNumber
    ensures OnChain(cfg, stored, e) <==> OnChain(cfg, chain, e)
  {
    OnChainTransfers(cfg, stored, chain, anchor.blockNumber, e);
  }

  /** What a rollback transaction leaves, if it commits. */
  lemma TransactionShape(cfg: Config, w: World, env: Env, from: nat, anchor: Event)
    requires w.store.cursor.Some? && w.store.cursor.value.next == from
    ensures var f := RollbackTransaction(cfg, w, env, from, anchor);
      if f.Stop? then f.world == w
      else
        && f.value && f.world.store.rows == RowsUpTo(w.store.rows, anchor.blockNumber)
        && f.world.store.cursor == Some(AnchorCursor(cfg, anchor))
        && f.world.store.queue == w.store.queue
  {
  }

  lemma CommitKeepsInv(cfg: Config, w: World, env: Env, from: nat, anchor: Event, rows: seq<Event>, order: seq<Event>,
                       identity: IdentitySnapshot)
    requires ValidQueue(w.store.queue) && WellFormedChain(env.chain)
    requires w.store.cursor.Some? && w.store.cursor.value.next == from
    requires Canonical(env.chain, anchor) && cfg.deploymentBlock <= anchor.blockNumber
    requires TableOk(cfg, rows) && RowsBelow(cfg, rows, env.chain, anchor.blockNumber + 1)
    requires order == Active(Listed(rows)) && RebuildIdentity(Listed(rows)) == Ok(identity)
    ensures var f := CommitRollback(cfg, w, from, anchor, rows, order, identity);
      f.Go? && f.value && f.world.store.rows == rows && Passed(cfg, f.world, env, anchor.blockNumber + 1)
  {
    HashedCursor(cfg, rows, env.chain, AnchorCursor(cfg, anchor));
  }

  lemma RollbackKeepsInv(cfg: Config, w: World, env: Env, from: nat, anchor: Event)
    requires Inv(cfg, w) && WellFormedChain(env.chain)
    requires w.store.cursor.Some? && w.store.cursor.value.next == from
    requires CanonicalAnchor(cfg, w.store.rows, env.chain, from, anchor)
    ensures match RollbackTransaction(cfg, w, env, from, anchor)
            case Stop(w1, _) => w1 == w
            case Go(w1, written) => written && Passed(cfg, w1, env, anchor.blockNumber + 1)
  {
    var a := anchor.blockNumber;
    var stored := CursorChain(w.store.cursor.value);
    var rows := RowsUpTo(w.store.rows, a);
    RowsUpToMembers(w.store.rows, a);
    forall e | e in rows && e.blockNumber < a + 1 ensures OnChain(cfg, env.chain, e) {
      AnchorJoins(cfg, w.store.rows, stored, env.chain, anchor, e);
    }
    if ReplayOutcome(env, rows).None? {
      CommitKeepsInv(cfg, w, env, from, anchor, rows, Active(Listed(rows)), RebuildIdentity(Listed(rows)).value);
    }
  }

  lemma CheckKeepsInv(cfg: Config, w: World, env: Env, from: nat)
    requires Inv(cfg, w) && WellFormedChain(env.chain)
    requires w.store.cursor.Some? && w.store.cursor.value.next == from
    ensures match RollbackOnReorg(cfg, w, env, from)
            case Stop(w1, _) => w1 == w
            case Go(w1, eff) => Passed(cfg, w1, env, eff)
  {
    var c := w.store.cursor.value;
    if Unchecked(cfg, w, from) {
    } else if from > |env.chain| {
    } else if HashMatches(w, env, from) {
      HashedCursor(cfg, w.store.rows, env.chain, c);
    } else {
      AncestorFoundExactly(cfg, w.store.rows, env.chain, from);
      match FindAncestor(cfg, w.store.rows, env.chain, from)
      case Found(anchor) =>
        RollbackKeepsInv(cfg, w, env, from, anchor);
        var f := RollbackTransaction(cfg, w, env, from, anchor);
        if f.Go? {
          TrimOnlyQueue(cfg, f.world, anchor.blockNumber);
          OnlyQueueKeepsInv(cfg, f.world, Linked(cfg, f.world, anchor.blockNumber));
        }
      case NoEvents =>
        assert forall e :: e in w.store.rows ==> e.removed && !e.removed;
      case _ =>
    }
  }

  // ----- the append -----

  /** The rows after an append: those below `from`, and the events read. */
  lemma AppendedRows(cfg: Config, w: World, env: Env, from: nat, finalized: nat)
    requires Passed(cfg, w, env, from) && WellFormedChain(env.chain)
    ensures var rows := CommittedRows(w, from, ReadEvents(cfg, env.chain, from, finalized));
      forall e :: e in rows <==>
        if e.blockNumber < from then e in w.store.rows else OnChain(cfg, env.chain, e) && e.blockNumber <= finalized
  {
    var events := ReadEvents(cfg, env.chain, from, finalized);
    var base := RowsUpTo(w.store.rows, from - 1);
    RowsUpToMembers(w.store.rows, from - 1);
    ReadEventsMembers(cfg, env.chain, from, finalized);
    ChainEventsAreOrderly(cfg, env.chain, base + events);
    AppendedMembers(base, events);
  }

  lemma AppendKeepsInv(cfg: Config, w: World, env: Env, from: nat, finalized: nat, reported: nat)
    requires Passed(cfg, w, env, from) && WellFormedChain(env.chain)
    ensures match EventsTransaction(w, env, from, ReadEvents(cfg, env.chain, from, finalized), reported)
            case Stop(w1, _) => w1 == w
            case Go(w1, _) =>
              && Passed(cfg, w1, env, from)
              && (forall e :: e in w1.store.rows <==>
                    if e.blockNumber < from then e in w.store.rows else OnChain(cfg, env.chain, e) && e.blockNumber <= finalized)
  {
    AppendedRows(cfg, w, env, from, finalized);
    var f := EventsTransaction(w, env, from, ReadEvents(cfg, env.chain, from, finalized), reported);
    if f.Go? {
      var c := w.store.cursor.value;
      forall e | e in f.world.store.rows && e.blockNumber < c.next ensures OnChain(cfg, CursorChain(c), e) {
        assert e in w.store.rows;
      }
    }
  }

  /** Writing a cursor for the current chain keeps the invariant, and never meets a second writer. */
  lemma AdvanceKeepsInv(cfg: Config, w: World, env: Env, from: nat, c: Cursor)
    requires Passed(cfg, w, env, from) && WellFormedChain(env.chain)
    requires from <= c.next <= |env.chain| && c.next <= Max(cfg.deploymentBlock, c.finalized + 1)
    requires c.hash == Some(HashAt(env.chain, c.next - 1)) && RowsBelow(cfg, w.store.rows, env.chain, c.next)
    ensures var f := SaveCursorAdvancingFrom(w, c, from);
      && f == Go(w.(store := w.store.(cursor := Some(c)), memory := Some(c), casFailures := 0), Unit)
      && Passed(cfg, f.world, env, c.next)
  {
    HashedCursor(cfg, w.store.rows, env.chain, c);
  }

  lemma LaggingKeepsInv(cfg: Config, w: World, env: Env, from: nat, finalized: nat)
    requires Passed(cfg, w, env, from) && WellFormedChain(env.chain)
    ensures Inv(cfg, Lagging(cfg, w, env, from, finalized).world)
    ensures Lagging(cfg, w, env, from, finalized).Go? ==> Passed(cfg, Lagging(cfg, w, env, from, finalized).world, env, from)
    ensures Lagging(cfg, w, env, from, finalized).world.store.rows == w.store.rows
  {
    var reported := Reported(w, finalized);
    if from <= |env.chain| {
      var c := Cursor(from, reported, Some(HashAt(env.chain, from - 1)));
      AdvanceKeepsInv(cfg, w, env, from, c);
      var w1 := SaveCursorAdvancingFrom(w, c, from).world;
      var w2 := w1.(store := w1.store.(finalized := Some(reported)));
      NotificationOnlyQueue(cfg, w2, env, []);
      OnlyQueueKeepsInv(cfg, w2, Automated(cfg, w2, env));
    }
  }

  lemma NotifiedPasses(cfg: Config, w: World, env: Env, from: nat, events: seq<Event>)
    requires Passed(cfg, w, env, from)
    ensures Passed(cfg, Notified(cfg, w, env, events), env, from) && Passed(cfg, Automated(cfg, w, env), env, from)
  {
    NotificationOnlyQueue(cfg, w, env, events);
    OnlyQueueKeepsInv(cfg, w, Notified(cfg, w, env, events));
    OnlyQueueKeepsInv(cfg, w, Automated(cfg, w, env));
  }

  /** The rows once an append is committed, whatever happens to queue and cursor after it. */
  ghost predicate Appended(cfg: Config, rows: seq<Event>, env: Env, from: nat, finalized: nat, before: seq<Event>)
  {
    forall e :: e in rows <==>
      if e.blockNumber < from then e in before else OnChain(cfg, env.chain, e) && e.blockNumber <= finalized
  }

  lemma MoveKeepsInv(cfg: Config, w: World, env: Env, from: nat, c: Cursor)
    requires Passed(cfg, w, env, from) && WellFormedChain(env.chain)
    requires from <= c.next <= |env.chain| && c.next <= Max(cfg.deploymentBlock, c.finalized + 1)
    requires c.hash == Some(HashAt(env.chain, c.next - 1)) && RowsBelow(cfg, w.store.rows, env.chain, c.next)
    ensures var f := SaveCursorAdvancingFrom(w, c, from);
      && f.Go?
      && var v := Automated(cfg, f.world, env);
         && Passed(cfg, v, env, c.next) && v.store.cursor == Some(c)
         && v.store.rows == w.store.rows && v.store.finalized == w.store.finalized
  {
    AdvanceKeepsInv(cfg, w, env, from, c);
    var moved := SaveCursorAdvancingFrom(w, c, from).world;
    AutomatedOnlyQueue(cfg, moved, env);
    OnlyQueueKeepsInv(cfg, moved, Automated(cfg, moved, env));
  }

  lemma AppendMoves(cfg: Config, w: World, env: Env, from: nat, finalized: nat, reported: nat, active: seq<Event>)
    requires Passed(cfg, w, env, from) && WellFormedChain(env.chain) && from <= finalized <= reported
    requires RowsBelow(cfg, w.store.rows, env.chain, finalized + 1) && finalized < |env.chain|
    ensures var f := AfterAppend(cfg, w, env, from, finalized, reported, active);
      && f.Go? && Passed(cfg, f.world, env, finalized + 1)
      && f.world.store.cursor == Some(ReadCursor(env, finalized, reported))
      && f.world.store.rows == w.store.rows && f.world.store.finalized == w.store.finalized
  {
    NotifiedPasses(cfg, w, env, from, active);
    NotifiedOnlyQueue(cfg, w, env, active);
    MoveKeepsInv(cfg, Notified(cfg, w, env, active), env, from, ReadCursor(env, finalized, reported));
  }

  lemma AppendStops(cfg: Config, w: World, env: Env, from: nat, finalized: nat, reported: nat, active: seq<Event>)
    requires Inv(cfg, w) && finalized >= |env.chain|
    ensures var f := AfterAppend(cfg, w, env, from, finalized, reported, active);
      && f.Stop? && f.fault == SourceFault && Inv(cfg, f.world) && f.world.store.cursor == w.store.cursor
  {
    NotifiedOnlyQueue(cfg, w, env, active);
    OnlyQueueKeepsInv(cfg, w, Notified(cfg, w, env, active));
  }

  lemma AppendingKeepsInv(cfg: Config, w: World, env: Env, from: nat, finalized: nat)
    requires Passed(cfg, w, env, from) && WellFormedChain(env.chain) && from <= finalized
    ensures Inv(cfg, Appending(cfg, w, env, from, finalized).world)
    ensures var f := Appending(cfg, w, env, from, finalized);
      && (f.Go? ==>
            && Passed(cfg, f.world, env, finalized + 1)
            && f.world.store.cursor.value.finalized == Reported(w, finalized)
            && f.world.store.finalized == Some(Reported(w, finalized))
            && Appended(cfg, f.world.store.rows, env, from, finalized, w.store.rows))
      && (f.Stop? ==> f.world.store.cursor == w.store.cursor && f.fault != SecondWriter)
  {
    var reported := Reported(w, finalized);
    var events := ReadEvents(cfg, env.chain, from, finalized);
    AppendKeepsInv(cfg, w, env, from, finalized, reported);
    var f1 := EventsTransaction(w, env, from, events, reported);
    if f1.Go? {
      assert Appended(cfg, f1.world.store.rows, env, from, finalized, w.store.rows);
      if finalized < |env.chain| {
        AppendMoves(cfg, f1.world, env, from, finalized, reported, Active(events));
      } else {
        AppendStops(cfg, f1.world, env, from, finalized, reported, Active(events));
      }
    }
  }
}
