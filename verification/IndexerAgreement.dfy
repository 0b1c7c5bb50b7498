/** Agreement of all stores after a rollback, and the bounds of the cursor and of finality. */
module IndexerAgreement {
  import opened Prelude
  import opened Sorting
  import opened ChainEvents
  import opened EventSource
  import opened IdentityProjections
  import opened PendingSteps
  import opened PendingSweep
  import opened ProjectionStore
  import opened IndexerModel
  import opened IndexerAncestor
  import opened IndexerInvariant
  import opened IndexerCoverage
  import Deliveries

  // ----- after a rollback -----

  /** Nothing anywhere refers to a block above a, and everything says that a is the last block indexed. */
  ghost predicate AgreesOn(cfg: Config, w: World, a: nat, hash: Option<Hash>)
  {
    && (forall e :: e in w.store.rows ==> e.blockNumber <= a)
    && (forall s, e :: s in w.store.queue && e in s.events ==> e.blockNumber <= a)
    && (cfg.hasProcessor ==> Deliveries.Settled(w.ledger, cfg.chainId, a))
    && SnapshotsMatch(w.store)
    && w.store.cursor == Some(Cursor(Max(a + 1, cfg.deploymentBlock), a, hash))
    && w.memory == w.store.cursor
    && w.store.finalized == Some(a)
    && w.casFailures == 0
  }

  /** Nothing durable has changed. */
  ghost predicate NothingDurable(w: World, v: World)
  {
    v.store == w.store && v.ledger == w.ledger && v.handled == w.handled && v.dead == w.dead
  }

  lemma CommitAgrees(cfg: Config, w: World, from: nat, anchor: Event, rows: seq<Event>, order: seq<Event>, identity: IdentitySnapshot)
    requires ValidQueue(w.store.queue) && MayWriteCursor(w.store, Some(from)) && anchor.blockHash.Some?
    requires forall e :: e in rows ==> e.blockNumber <= anchor.blockNumber
    requires order == Active(Listed(rows)) && RebuildIdentity(Listed(rows)) == Ok(identity)
    ensures var f := CommitRollback(cfg, w, from, anchor, rows, order, identity);
      var v := Linked(cfg, f.world, anchor.blockNumber);
      f.Go? && f.value && v.store.rows == rows && AgreesOn(cfg, v, anchor.blockNumber, anchor.blockHash)
  {
    TrimmedEventsAreWithin(w.store.queue, anchor.blockNumber);
    Deliveries.InvalidationIsComplete(w.ledger, cfg.chainId, anchor.blockNumber);
  }

  lemma DeferredChangesNothing(cfg: Config, w: World, from: nat)
    ensures NothingDurable(w, Deferred(cfg, w, from).world)
  {
  }

  /**
   A rollback is all or nothing, in any state, also with a second writer: either every store
   agrees on the ancestor and the deleted rows are exactly those above it, or nothing
   durable has changed.
   */
  lemma RollbackAgrees(cfg: Config, w: World, env: Env, from: nat)
    requires ValidQueue(w.store.queue)
    ensures var f := RollbackToCommonAncestor(cfg, w, env, from);
      NothingDurable(w, f.world) ||
      (match FindAncestor(cfg, w.store.rows, env.chain, from)
       case Found(anchor) =>
         && f.Go? && f.value == Max(anchor.blockNumber + 1, cfg.deploymentBlock)
         && AgreesOn(cfg, f.world, anchor.blockNumber, anchor.blockHash)
         && (forall e :: e in f.world.store.rows <==> e in w.store.rows && e.blockNumber <= anchor.blockNumber)
       case _ => false)
  {
    match FindAncestor(cfg, w.store.rows, env.chain, from)
    case Found(anchor) =>
      AncestorFoundExactly(cfg, w.store.rows, env.chain, from);
      var rows := RowsUpTo(w.store.rows, anchor.blockNumber);
      RowsUpToMembers(w.store.rows, anchor.blockNumber);
      DeferredChangesNothing(cfg, w, from);
      if ReplayOutcome(env, rows).None? && MayWriteCursor(w.store, Some(from)) {
        CommitAgrees(cfg, w, from, anchor, rows, Active(Listed(rows)), RebuildIdentity(Listed(rows)).value);
      }
    case _ =>
  }

  /** The cursor has moved since it was read: the rollback leaves the store as it was and takes over the durable cursor. */
  lemma LostRaceChangesNothing(cfg: Config, w: World, env: Env, from: nat)
    requires ValidQueue(w.store.queue)
    requires w.store.cursor.Some? && w.store.cursor.value.next != from
    ensures var f := RollbackToCommonAncestor(cfg, w, env, from);
      && NothingDurable(w, f.world)
      && (f.Go? && FindAncestor(cfg, w.store.rows, env.chain, from).Found? ==>
            && f.value == Max(w.store.cursor.value.next, cfg.deploymentBlock)
            && f.world.casFailures == w.casFailures + 1 < CURSOR_CAS_FAILURE_LIMIT)
  {
    var r := FindAncestor(cfg, w.store.rows, env.chain, from);
    if r.Found? { TransactionLoses(cfg, w, env, from, r.anchor); }
  }

  lemma TransactionLoses(cfg: Config, w: World, env: Env, from: nat, anchor: Event)
    requires w.store.cursor.Some? && w.store.cursor.value.next != from
    ensures var f := RollbackTransaction(cfg, w, env, from, anchor);
      f.world == w && (f.Go? ==> !f.value)
  {
  }

  /** In a reachable state the rollback deletes exactly the rows that are not canonical, below the cursor no other. */
  lemma RollbackDeletesNonCanonical(cfg: Config, w: World, env: Env, from: nat, e: Event)
    requires Inv(cfg, w) && WellFormedChain(env.chain)
    requires w.store.cursor.Some? && w.store.cursor.value.next == from
    requires !Unchecked(cfg, w, from) && from <= |env.chain| && !HashMatches(w, env, from)
    requires FindAncestor(cfg, w.store.rows, env.chain, from).Found? && RollbackOnReorg(cfg, w, env, from).Go?
    requires e in w.store.rows && e.blockNumber < from
    ensures e in RollbackOnReorg(cfg, w, env, from).world.store.rows <==> Canonical(env.chain, e)
  {
    var stored := CursorChain(w.store.cursor.value);
    UniformBelowCursor(cfg, w.store.rows, stored, from);
    AncestorFoundExactly(cfg, w.store.rows, env.chain, from);
    var anchor := FindAncestor(cfg, w.store.rows, env.chain, from).anchor;
    RowsUpToMembers(w.store.rows, anchor.blockNumber);
    RollbackKeepsInv(cfg, w, env, from, anchor);
    assert OnChain(cfg, stored, e);
    if Canonical(env.chain, e) {
      assert CanonicalAnchor(cfg, w.store.rows, env.chain, from, e);
      AncestorSearchIsExact(cfg, w.store.rows, env.chain, from, e);
    }
    if e.blockNumber <= anchor.blockNumber {
      AnchorJoins(cfg, w.store.rows, stored, env.chain, anchor, e);
    }
  }

  /** If rows exist but none below the cursor is canonical, the round fails and leaves everything as it was. */
  lemma DeepReorgFails(cfg: Config, w: World, env: Env, from: nat)
    requires Inv(cfg, w) && WellFormedChain(env.chain) && w.store.rows != []
    requires w.store.cursor.Some? && w.store.cursor.value.next == from
    requires !Unchecked(cfg, w, from) && from <= |env.chain| && !HashMatches(w, env, from)
    requires forall e :: e in w.store.rows && e.blockNumber < from ==> !Canonical(env.chain, e)
    ensures RollbackOnReorg(cfg, w, env, from).Stop? && RollbackOnReorg(cfg, w, env, from).world == w
    ensures RollbackOnReorg(cfg, w, env, from).fault ==
            if exists e :: e in w.store.rows && e.blockNumber < from then ReorgTooDeep else NoBlockHashes
  {
    AncestorFoundExactly(cfg, w.store.rows, env.chain, from);
    SomeMember(w.store.rows);
    var stored := CursorChain(w.store.cursor.value);
    assert forall e :: e in w.store.rows && e.blockNumber < from ==> OnChain(cfg, stored, e);
    assert forall e :: e in w.store.rows && e.blockNumber < from ==> IsAnchor(e, cfg.deploymentBlock, from);
  }

  // ----- bounds -----

  /** In every reachable state the cursor is at most one past the finality bound it records. */
  lemma CursorWithinFinality(cfg: Config, ops: seq<Op>, states: seq<World>, n: nat, c: Cursor)
    requires IsRun(cfg, ops, states) && OnGoodChains(ops) && n <= |ops| && states[n].store.cursor == Some(c)
    ensures cfg.deploymentBlock <= c.next <= Max(cfg.deploymentBlock, c.finalized + 1)
  {
    EveryRunKeepsInv(cfg, ops, states, n);
    CursorBound(cfg, states[n]);
  }

  lemma CursorBound(cfg: Config, w: World)
    requires Inv(cfg, w) && w.store.cursor.Some?
    ensures var c := w.store.cursor.value;
      cfg.deploymentBlock <= c.next <= Max(cfg.deploymentBlock, c.finalized + 1)
  {
  }

  /** A process that writes alone never meets the failure of a compare-and-set. */
  lemma SingleWriterNeverLoses(cfg: Config, ops: seq<Op>, states: seq<World>, n: nat, env: Env, v: World, fault: Fault)
    requires IsRun(cfg, ops, states) && OnGoodChains(ops) && n <= |ops| && WellFormedChain(env.chain)
    requires Refresh(cfg, states[n], env) == Stop(v, fault)
    ensures states[n].casFailures == 0 && fault != SecondWriter
  {
    var w := states[n];
    EveryRunKeepsInv(cfg, ops, states, n);
    RoundStart(cfg, w);
    if w.store.cursor.Some? {
      var from := w.store.cursor.value.next;
      CheckKeepsInv(cfg, w, env, from);
      CheckMeetsNoWriter(cfg, w, env, from);
      var f := RollbackOnReorg(cfg, w, env, from);
      if f.Go? {
        SweptPasses(cfg, f.world, env, f.value);
        ContinueMeetsNoWriter(cfg, Swept(cfg, f.world, env), env, f.value);
      }
    }
  }

  lemma CheckMeetsNoWriter(cfg: Config, w: World, env: Env, from: nat)
    requires Inv(cfg, w) && w.store.cursor.Some? && w.store.cursor.value.next == from
    ensures RollbackOnReorg(cfg, w, env, from).Stop? ==> RollbackOnReorg(cfg, w, env, from).fault != SecondWriter
  {
    var r := FindAncestor(cfg, w.store.rows, env.chain, from);
    if r.Found? { TransactionMeetsNoWriter(cfg, w, env, from, r.anchor); }
  }

  lemma TransactionMeetsNoWriter(cfg: Config, w: World, env: Env, from: nat, anchor: Event)
    requires w.store.cursor.Some? && w.store.cursor.value.next == from
    ensures var f := RollbackTransaction(cfg, w, env, from, anchor);
      if f.Stop? then f.fault != SecondWriter else f.value
  {
  }

  lemma ContinueMeetsNoWriter(cfg: Config, w: World, env: Env, from: nat)
    requires Passed(cfg, w, env, from) && WellFormedChain(env.chain)
    ensures Continue(cfg, w, env, from).Stop? ==> Continue(cfg, w, env, from).fault != SecondWriter
  {
    if from <= Finalized(cfg, env) { AppendingKeepsInv(cfg, w, env, from, Finalized(cfg, env)); }
  }

  /**
   A round without a rollback moves neither value back, also on a lagging node; a round that
   appends moves the cursor strictly forward, to just above what it read.
   */
  lemma RoundsMoveForward(cfg: Config, w: World, env: Env, f: Flow<Unit>)
    requires Inv(cfg, w) && WellFormedChain(env.chain) && w.store.cursor.Some?
    requires RollbackOnReorg(cfg, w, env, w.store.cursor.value.next) == Go(w, w.store.cursor.value.next)
    requires f == Refresh(cfg, w, env)
    ensures var c, d := w.store.cursor.value, f.world.store.cursor;
      && d.Some? && c.next <= d.value.next && c.finalized <= d.value.finalized
      && (f.Go? ==>
            && d.value.finalized == Max(c.finalized, Finalized(cfg, env))
            && d.value.next == Max(c.next, Finalized(cfg, env) + 1)
            && f.world.store.finalized == Some(d.value.finalized))
  {
    var from := w.store.cursor.value.next;
    RoundStart(cfg, w);
    CheckKeepsInv(cfg, w, env, from);
    SweptPasses(cfg, w, env, from);
    ContinueMovesForward(cfg, Swept(cfg, w, env), env, from);
  }

  lemma ContinueMovesForward(cfg: Config, w: World, env: Env, from: nat)
    requires Passed(cfg, w, env, from) && WellFormedChain(env.chain)
    ensures var c, f := w.store.cursor.value, Continue(cfg, w, env, from);
      var d := f.world.store.cursor;
      && d.Some? && c.next <= d.value.next && c.finalized <= d.value.finalized
      && (f.Go? ==>
            && d.value.finalized == Max(c.finalized, Finalized(cfg, env))
            && d.value.next == Max(c.next, Finalized(cfg, env) + 1)
            && f.world.store.finalized == Some(d.value.finalized))
  {
    var finalized := Finalized(cfg, env);
    if finalized < from {
      var c := Cursor(from, Reported(w, finalized), if from > 0 && from <= |env.chain| then Some(HashAt(env.chain, from - 1)) else None);
      var w1 := SaveCursorAdvancingFrom(w, c, from).world;
      NotificationOnlyQueue(cfg, w1.(store := w1.store.(finalized := Some(Reported(w, finalized)))), env, []);
    } else {
      AppendingKeepsInv(cfg, w, env, from, finalized);
    }
  }

  /** A rollback's lowered bound is not raised again from older state: only this round's own reading counts. */
  lemma LoweredBoundStays(cfg: Config, w: World, env: Env, anchor: Event, v: World)
    requires Inv(cfg, w) && WellFormedChain(env.chain) && w.store.cursor.Some?
    requires var from := w.store.cursor.value.next;
      !Unchecked(cfg, w, from) && from <= |env.chain| && !HashMatches(w, env, from)
    requires FindAncestor(cfg, w.store.rows, env.chain, w.store.cursor.value.next) == Found(anchor)
    requires Refresh(cfg, w, env) == Go(v, Unit)
    ensures v.store.cursor.Some? && v.store.cursor.value.finalized == Max(anchor.blockNumber, Finalized(cfg, env))
    ensures v.store.finalized == Some(v.store.cursor.value.finalized)
  {
    var from := w.store.cursor.value.next;
    RoundStart(cfg, w);
    CheckKeepsInv(cfg, w, env, from);
    RollbackAgrees(cfg, w, env, from);
    var f := RollbackOnReorg(cfg, w, env, from);
    RollbackBound(cfg, w, env, from, anchor);
    SweptPasses(cfg, f.world, env, f.value);
    ContinueMovesForward(cfg, Swept(cfg, f.world, env), env, f.value);
  }

  lemma RollbackBound(cfg: Config, w: World, env: Env, from: nat, anchor: Event)
    requires Inv(cfg, w) && w.store.cursor.Some? && w.store.cursor.value.next == from
    requires FindAncestor(cfg, w.store.rows, env.chain, from) == Found(anchor)
    requires RollbackToCommonAncestor(cfg, w, env, from).Go?
    ensures RollbackToCommonAncestor(cfg, w, env, from).world.store.cursor == Some(AnchorCursor(cfg, anchor))
  {
  }
}
