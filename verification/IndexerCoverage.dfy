/**
 Incremental indexing equals replaying the canonical log: in every reachable state the
 rows below the cursor are the events of the chain the cursor's hash commits to, and after
 a round they are those of the current chain and both snapshots are their replay.
 */
module IndexerCoverage {
  import opened Prelude
  import opened Sorting
  import opened ChainEvents
  import opened EventSource
  import opened IdentityProjections
  import opened PendingSteps
  import opened PendingSweep
  import opened ProjectionStore
  import opened IndexerModel
  import opened IndexerAncestor
  import opened IndexerInvariant

  /** No event of the cursor's own chain below the cursor is missing from the table. */
  ghost predicate Complete(cfg: Config, s: Store)
  {
    s.cursor.Some? ==> Covers(cfg, s.rows, CursorChain(s.cursor.value), s.cursor.value.next)
  }

  /** A reorg is detected, the table is empty, and the new chain has events below `from`. */
  ghost predicate BlindReorg(cfg: Config, w: World, env: Env, from: nat)
  {
    && !Unchecked(cfg, w, from) && from <= |env.chain| && !HashMatches(w, env, from)
    && w.store.rows == [] && ReadEvents(cfg, env.chain, cfg.deploymentBlock, from - 1) != []
  }

  lemma EmptyTableCovers(cfg: Config, chain: Chain, from: nat)
    requires from > 0
    ensures Covers(cfg, [], chain, from) <==> ReadEvents(cfg, chain, cfg.deploymentBlock, from - 1) == []
  {
    var log := ReadEvents(cfg, chain, cfg.deploymentBlock, from - 1);
    ReadEventsMembers(cfg, chain, cfg.deploymentBlock, from - 1);
    if log != [] {
      assert log[0] in log;
      assert log[0] !in [];
    }
  }

  lemma NothingStored(cfg: Config, rows: seq<Event>)
    requires TableOk(cfg, rows) && forall e :: e in rows ==> e.removed
    ensures rows == []
  {
    SomeMember(rows);
  }

  lemma SomeMember(rows: seq<Event>)
    ensures rows != [] ==> exists e :: e in rows
  {
    if rows != [] { assert rows[0] in rows; }
  }

  lemma RollbackCovers(cfg: Config, w: World, env: Env, from: nat, anchor: Event)
    requires Inv(cfg, w) && Complete(cfg, w.store) && WellFormedChain(env.chain)
    requires w.store.cursor.Some? && w.store.cursor.value.next == from
    requires CanonicalAnchor(cfg, w.store.rows, env.chain, from, anchor)
    ensures match RollbackTransaction(cfg, w, env, from, anchor)
            case Stop(_, _) => true
            case Go(w1, _) => Complete(cfg, w1.store) && Covers(cfg, w1.store.rows, env.chain, anchor.blockNumber + 1)
  {
    TransactionShape(cfg, w, env, from, anchor);
    AnchorCursorCovers(cfg, w.store.rows, CursorChain(w.store.cursor.value), env.chain, from, anchor);
  }

  lemma AnchorCursorCovers(cfg: Config, rows: seq<Event>, stored: Chain, chain: Chain, from: nat, anchor: Event)
    requires WellFormedChain(chain) && Covers(cfg, rows, stored, from) && CanonicalAnchor(cfg, rows, chain, from, anchor)
    ensures var c := AnchorCursor(cfg, anchor);
      && c.next == anchor.blockNumber + 1
      && Covers(cfg, RowsUpTo(rows, anchor.blockNumber), chain, c.next)
      && Covers(cfg, RowsUpTo(rows, anchor.blockNumber), CursorChain(c), c.next)
  {
    KeptRowsCover(cfg, rows, stored, chain, from, anchor);
    HashedCursor(cfg, RowsUpTo(rows, anchor.blockNumber), chain, AnchorCursor(cfg, anchor));
  }

  lemma KeptRowsCover(cfg: Config, rows: seq<Event>, stored: Chain, chain: Chain, from: nat, anchor: Event)
    requires Covers(cfg, rows, stored, from) && anchor in rows && anchor.blockNumber < from && Canonical(chain, anchor)
    ensures Covers(cfg, RowsUpTo(rows, anchor.blockNumber), chain, anchor.blockNumber + 1)
  {
    RowsUpToMembers(rows, anchor.blockNumber);
    assert OnChain(cfg, stored, anchor);
    forall e: Event | e.blockNumber < anchor.blockNumber + 1
      ensures e in RowsUpTo(rows, anchor.blockNumber) <==> OnChain(cfg, chain, e) && cfg.deploymentBlock <= e.blockNumber
    {
      AnchorJoins(cfg, rows, stored, chain, anchor, e);
    }
  }

  /**
   The exact condition of the check: it hands over a table that covers the current chain
   below the block to continue from, unless a reorg met an empty table and left events behind.
   */
  lemma CheckCoversExactly(cfg: Config, w: World, env: Env, from: nat)
    requires Inv(cfg, w) && Complete(cfg, w.store) && WellFormedChain(env.chain)
    requires w.store.cursor.Some? && w.store.cursor.value.next == from
    ensures match RollbackOnReorg(cfg, w, env, from)
            case Stop(w1, _) => w1 == w
            case Go(w1, eff) =>
              Complete(cfg, w1.store) && (Covers(cfg, w1.store.rows, env.chain, eff) <==> !BlindReorg(cfg, w, env, from))
  {
    if Unchecked(cfg, w, from) {
      NothingBelowDeployment(cfg, w, env, from);
    } else if from > |env.chain| {
    } else if HashMatches(w, env, from) {
      HashedCursor(cfg, w.store.rows, env.chain, w.store.cursor.value);
    } else {
      ReorgCovers(cfg, w, env, from);
    }
  }

  lemma NothingBelowDeployment(cfg: Config, w: World, env: Env, from: nat)
    requires Inv(cfg, w) && w.store.cursor.Some? && w.store.cursor.value.next == from && Unchecked(cfg, w, from)
    ensures Covers(cfg, w.store.rows, env.chain, from)
  {
  }

  /** A detected reorg: rolled back to an ancestor, stopped, or met with an empty table. */
  lemma ReorgCovers(cfg: Config, w: World, env: Env, from: nat)
    requires Inv(cfg, w) && Complete(cfg, w.store) && WellFormedChain(env.chain)
    requires w.store.cursor.Some? && w.store.cursor.value.next == from
    requires !Unchecked(cfg, w, from) && from <= |env.chain| && !HashMatches(w, env, from)
    ensures match RollbackToCommonAncestor(cfg, w, env, from)
            case Stop(w1, _) => w1 == w
            case Go(w1, eff) =>
              Complete(cfg, w1.store) && (Covers(cfg, w1.store.rows, env.chain, eff) <==> !BlindReorg(cfg, w, env, from))
  {
    AncestorFoundExactly(cfg, w.store.rows, env.chain, from);
    match FindAncestor(cfg, w.store.rows, env.chain, from)
    case Found(anchor) =>
      LinkedCovers(cfg, w, env, from, anchor);
      SomeMember(w.store.rows);
    case NoEvents =>
      NothingStored(cfg, w.store.rows);
      EmptyTableCovers(cfg, env.chain, from);
    case _ =>
  }

  lemma LinkedCovers(cfg: Config, w: World, env: Env, from: nat, anchor: Event)
    requires Inv(cfg, w) && Complete(cfg, w.store) && WellFormedChain(env.chain)
    requires w.store.cursor.Some? && w.store.cursor.value.next == from
    requires CanonicalAnchor(cfg, w.store.rows, env.chain, from, anchor)
    ensures w.store.rows != []
    ensures match RollbackTransaction(cfg, w, env, from, anchor)
            case Stop(w1, _) => w1 == w
            case Go(w1, written) =>
              var v := Linked(cfg, w1, anchor.blockNumber);
              && written && AnchorCursor(cfg, anchor).next == anchor.blockNumber + 1
              && Complete(cfg, v.store) && Covers(cfg, v.store.rows, env.chain, anchor.blockNumber + 1)
  {
    TransactionShape(cfg, w, env, from, anchor);
    RollbackCovers(cfg, w, env, from, anchor);
  }

  lemma LaggingCovers(cfg: Config, w: World, env: Env, from: nat, finalized: nat)
    requires Passed(cfg, w, env, from) && WellFormedChain(env.chain)
    requires Complete(cfg, w.store) && Covers(cfg, w.store.rows, env.chain, from)
    ensures Complete(cfg, Lagging(cfg, w, env, from, finalized).world.store)
  {
    var reported := Reported(w, finalized);
    LaggingKeepsInv(cfg, w, env, from, finalized);
    if from <= |env.chain| {
      var c := Cursor(from, reported, Some(HashAt(env.chain, from - 1)));
      AdvanceKeepsInv(cfg, w, env, from, c);
      HashedCursor(cfg, w.store.rows, env.chain, c);
      var w2 := SaveCursorAdvancingFrom(w, c, from).world;
      var w3 := w2.(store := w2.store.(finalized := Some(reported)));
      NotificationOnlyQueue(cfg, w3, env, []);
    }
  }

  /** An append that is committed but not yet followed by the cursor. */
  lemma CommittedCovers(cfg: Config, w: World, env: Env, from: nat, finalized: nat, reported: nat)
    requires Passed(cfg, w, env, from) && WellFormedChain(env.chain) && from <= finalized
    requires Complete(cfg, w.store) && Covers(cfg, w.store.rows, env.chain, from)
    ensures var f := EventsTransaction(w, env, from, ReadEvents(cfg, env.chain, from, finalized), reported);
      && Complete(cfg, f.world.store)
      && (f.Go? ==> Covers(cfg, f.world.store.rows, env.chain, finalized + 1))
  {
    AppendKeepsInv(cfg, w, env, from, finalized, reported);
  }

  /** The cursor of an append, written once the append is committed and notified. */
  lemma CursorCovers(cfg: Config, w: World, env: Env, from: nat, c: Cursor)
    requires Passed(cfg, w, env, from) && WellFormedChain(env.chain) && from <= c.next <= |env.chain|
    requires c.next <= c.finalized + 1 && c.hash == Some(HashAt(env.chain, c.next - 1))
    requires RowsBelow(cfg, w.store.rows, env.chain, c.next)
    ensures var f := SaveCursorAdvancingFrom(w, c, from);
      && f.Go? && Passed(cfg, f.world, env, c.next)
      && f.world.store.rows == w.store.rows
      && (Complete(cfg, f.world.store) <==> Covers(cfg, w.store.rows, env.chain, c.next))
  {
    AdvanceKeepsInv(cfg, w, env, from, c);
    HashedCursor(cfg, w.store.rows, env.chain, c);
  }

  ghost predicate Kept(cfg: Config, w: World, complete: bool)
  {
    StoreOk(cfg, w.store) && (complete ==> Complete(cfg, w.store))
  }

  /** A committed append that is not yet followed by the cursor. */
  ghost predicate Committed(cfg: Config, w: World, env: Env, from: nat, finalized: nat, covered: bool)
  {
    && Passed(cfg, w, env, from) && from <= finalized
    && RowsBelow(cfg, w.store.rows, env.chain, finalized + 1)
    && (covered ==> Complete(cfg, w.store) && Covers(cfg, w.store.rows, env.chain, finalized + 1))
  }

  lemma AppendCommits(cfg: Config, w: World, env: Env, from: nat, finalized: nat, reported: nat)
    requires Passed(cfg, w, env, from) && WellFormedChain(env.chain) && from <= finalized
    requires EventsTransaction(w, env, from, ReadEvents(cfg, env.chain, from, finalized), reported).Go?
    ensures var w1 := EventsTransaction(w, env, from, ReadEvents(cfg, env.chain, from, finalized), reported).world;
      Committed(cfg, w1, env, from, finalized, Complete(cfg, w.store) && Covers(cfg, w.store.rows, env.chain, from))
  {
    AppendKeepsInv(cfg, w, env, from, finalized, reported);
    if Complete(cfg, w.store) && Covers(cfg, w.store.rows, env.chain, from) {
      CommittedCovers(cfg, w, env, from, finalized, reported);
    }
  }

  lemma MovedCovers(cfg: Config, w: World, env: Env, from: nat, finalized: nat, reported: nat, covered: bool)
    requires Committed(cfg, w, env, from, finalized, covered) && WellFormedChain(env.chain)
    requires finalized < |env.chain| && finalized <= reported
    ensures var f := SaveCursorAdvancingFrom(w, ReadCursor(env, finalized, reported), from);
      f.Go? && Kept(cfg, f.world, covered) && f.world.store.rows == w.store.rows
  {
    CursorCovers(cfg, w, env, from, ReadCursor(env, finalized, reported));
  }

  lemma ToldIsCommitted(cfg: Config, w: World, env: Env, from: nat, finalized: nat, active: seq<Event>, covered: bool)
    requires Committed(cfg, w, env, from, finalized, covered)
    ensures Committed(cfg, Notified(cfg, w, env, active), env, from, finalized, covered)
    ensures Kept(cfg, PrePersisted(cfg, w, active), covered)
  {
    NotifiedOnlyQueue(cfg, w, env, active);
    OnlyQueueKeepsInv(cfg, w, Notified(cfg, w, env, active));
    OnlyQueueKeepsInv(cfg, w, PrePersisted(cfg, w, active));
  }

  lemma AfterAppendCovers(cfg: Config, w: World, env: Env, from: nat, finalized: nat, reported: nat, active: seq<Event>, covered: bool)
    requires Committed(cfg, w, env, from, finalized, covered) && WellFormedChain(env.chain) && finalized <= reported
    ensures var f := AfterAppend(cfg, w, env, from, finalized, reported, active);
      Kept(cfg, f.world, covered) && f.world.store.rows == w.store.rows
  {
    ToldIsCommitted(cfg, w, env, from, finalized, active, covered);
    NotifiedOnlyQueue(cfg, w, env, active);
    var told := Notified(cfg, w, env, active);
    if finalized < |env.chain| {
      MovedCovers(cfg, told, env, from, finalized, reported, covered);
      var moved := SaveCursorAdvancingFrom(told, ReadCursor(env, finalized, reported), from).world;
      AutomatedOnlyQueue(cfg, moved, env);
    }
  }

  lemma CrashedAfterAppendKeeps(cfg: Config, w: World, env: Env, from: nat, finalized: nat, reported: nat, active: seq<Event>,
                                p: CrashPoint, covered: bool)
    requires Committed(cfg, w, env, from, finalized, covered) && WellFormedChain(env.chain) && finalized <= reported
    ensures Kept(cfg, CrashedAfterAppend(cfg, w, env, from, finalized, reported, active, p), covered)
  {
    ToldIsCommitted(cfg, w, env, from, finalized, active, covered);
    var told := Notified(cfg, w, env, active);
    CommittedIsKept(cfg, w, env, from, finalized, covered);
    CommittedIsKept(cfg, told, env, from, finalized, covered);
    if finalized < |env.chain| {
      MovedCovers(cfg, told, env, from, finalized, reported, covered);
    }
    CrashedAfterAppendStates(cfg, w, env, from, finalized, reported, active, p);
  }

  lemma CommittedIsKept(cfg: Config, w: World, env: Env, from: nat, finalized: nat, covered: bool)
    requires Committed(cfg, w, env, from, finalized, covered)
    ensures Kept(cfg, w, covered)
  {
  }

  /** The four states a crash after the events transaction may leave. */
  lemma CrashedAfterAppendStates(cfg: Config, w: World, env: Env, from: nat, finalized: nat, reported: nat, active: seq<Event>,
                                 p: CrashPoint)
    ensures var v := CrashedAfterAppend(cfg, w, env, from, finalized, reported, active, p);
      var told := Notified(cfg, w, env, active);
      || v == w || v == PrePersisted(cfg, w, active) || v == told
      || (finalized < |env.chain| && v == SaveCursorAdvancingFrom(told, ReadCursor(env, finalized, reported), from).world)
  {
  }

  lemma AppendingCovers(cfg: Config, w: World, env: Env, from: nat, finalized: nat)
    requires Passed(cfg, w, env, from) && WellFormedChain(env.chain) && from <= finalized
    requires Complete(cfg, w.store) && Covers(cfg, w.store.rows, env.chain, from)
    ensures var f := Appending(cfg, w, env, from, finalized);
      && Complete(cfg, f.world.store)
      && (f.Go? ==> Covers(cfg, f.world.store.rows, env.chain, finalized + 1))
  {
    var reported := Reported(w, finalized);
    var events := ReadEvents(cfg, env.chain, from, finalized);
    var f1 := EventsTransaction(w, env, from, events, reported);
    if f1.Go? {
      AppendCommits(cfg, w, env, from, finalized, reported);
      AfterAppendCovers(cfg, f1.world, env, from, finalized, reported, Active(events), true);
    }
  }

  // ----- the rebuild -----

  lemma AllKept(xs: seq<Event>, block: nat)
    requires forall e :: e in xs ==> e.blockNumber >= block
    ensures RowsFrom(xs, block) == xs
  {
    FilterAll(xs, (e: Event) => e.blockNumber >= block);
  }

  /** A committed rebuild leaves exactly the canonical events of its range and their replay. */
  lemma ReplacedIsCanonical(cfg: Config, w: World, env: Env, finalized: nat)
    requires Inv(cfg, w) && WellFormedChain(env.chain) && cfg.deploymentBlock <= finalized < |env.chain|
    requires RebuildIdentity(ReadEvents(cfg, env.chain, cfg.deploymentBlock, finalized)).Ok?
    ensures var events := ReadEvents(cfg, env.chain, cfg.deploymentBlock, finalized);
      && RowsFrom(events, cfg.deploymentBlock) == events
      && var v := Replaced(cfg, w, events, ReadCursor(env, finalized, finalized)).(memory := None);
         && Passed(cfg, v, env, finalized + 1) && Complete(cfg, v.store)
         && Covers(cfg, v.store.rows, env.chain, finalized + 1)
         && (forall e :: e in v.store.rows ==> e.blockNumber <= finalized)
  {
    var events := ReadEvents(cfg, env.chain, cfg.deploymentBlock, finalized);
    ReadEventsMembers(cfg, env.chain, cfg.deploymentBlock, finalized);
    AllKept(events, cfg.deploymentBlock);
    var rows := AppendRows([], events);
    assert [] + events == events;
    ChainEventsAreOrderly(cfg, env.chain, events);
    AppendedMembers([], events);
    SortPermutes(rows, Before);
    ActiveOfSameEvents(events, Listed(rows));
    HashedCursor(cfg, rows, env.chain, ReadCursor(env, finalized, finalized));
  }

  lemma CursorResetKeeps(cfg: Config, w: World, env: Env, finalized: nat)
    requires Inv(cfg, w) && WellFormedChain(env.chain) && finalized < cfg.deploymentBlock
    ensures var f := CursorReset(cfg, w, env, finalized);
      if f.Stop? then f.world == w else Passed(cfg, f.world, env, cfg.deploymentBlock) && Complete(cfg, f.world.store)
  {
    if cfg.deploymentBlock <= |env.chain| {
      var c := Cursor(cfg.deploymentBlock, finalized, Some(HashAt(env.chain, cfg.deploymentBlock - 1)));
      HashedCursor(cfg, w.store.rows, env.chain, c);
    }
  }

  lemma EmptyRebuildKeeps(cfg: Config, w: World, env: Env, finalized: nat)
    requires Inv(cfg, w) && WellFormedChain(env.chain) && finalized < cfg.deploymentBlock
    ensures var f := EmptyRebuild(cfg, w, env, finalized);
      if f.Stop? then f.world == w else Passed(cfg, f.world, env, cfg.deploymentBlock) && Complete(cfg, f.world.store)
  {
    CursorResetKeeps(cfg, w, env, finalized);
  }

  /** The states a rebuild passes through, up to its commit. */
  lemma BeforeCommitKeeps(cfg: Config, w: World, env: Env, finalized: nat, events: seq<Event>)
    requires Inv(cfg, w)
    ensures var w1 := PrePersisted(cfg, Marked(w, finalized), events);
      Inv(cfg, Marked(w, finalized)) && Inv(cfg, w1) && Inv(cfg, Withdrawn(cfg, w1, events)) &&
      w1.store.rows == w.store.rows && w1.store.cursor == w.store.cursor
  {
    var w0 := Marked(w, finalized);
    NotificationOnlyQueue(cfg, w0, env, events);
    OnlyQueueKeepsInv(cfg, w0, PrePersisted(cfg, w0, events));
    NotificationOnlyQueue(cfg, PrePersisted(cfg, w0, events), env, events);
    OnlyQueueKeepsInv(cfg, PrePersisted(cfg, w0, events), Withdrawn(cfg, PrePersisted(cfg, w0, events), events));
  }

  /** The commit of a rebuild and the queue steps after it, with the memory still to be written. */
  lemma AfterCommitKeeps(cfg: Config, w: World, env: Env, finalized: nat, m: Option<Cursor>)
    requires Inv(cfg, w) && WellFormedChain(env.chain) && cfg.deploymentBlock <= finalized < |env.chain|
    requires RebuildIdentity(ReadEvents(cfg, env.chain, cfg.deploymentBlock, finalized)).Ok?
    requires m.Some? ==> m.value == ReadCursor(env, finalized, finalized)
    ensures var events := ReadEvents(cfg, env.chain, cfg.deploymentBlock, finalized);
      && RowsFrom(events, cfg.deploymentBlock) == events
      && var v := Replaced(cfg, w, events, ReadCursor(env, finalized, finalized));
         var settled := NotificationSettled(cfg, v, env, Active(events));
         && SettledRebuild(cfg, v.(memory := m), env, finalized)
         && SettledRebuild(cfg, settled.(memory := m), env, finalized)
         && SettledRebuild(cfg, Automated(cfg, settled, env).(memory := m), env, finalized)
  {
    ReplacedIsCanonical(cfg, w, env, finalized);
    var events := ReadEvents(cfg, env.chain, cfg.deploymentBlock, finalized);
    var v := Replaced(cfg, w, events, ReadCursor(env, finalized, finalized));
    var settled := NotificationSettled(cfg, v, env, Active(events));
    NotificationOnlyQueue(cfg, v, env, Active(events));
    NotificationOnlyQueue(cfg, settled, env, Active(events));
  }

  ghost predicate SettledRebuild(cfg: Config, w: World, env: Env, finalized: nat)
  {
    && Passed(cfg, w, env, finalized + 1) && Complete(cfg, w.store)
    && Covers(cfg, w.store.rows, env.chain, finalized + 1)
    && (forall e :: e in w.store.rows ==> e.blockNumber <= finalized)
  }

  lemma CommitRebuildKeeps(cfg: Config, w: World, env: Env, finalized: nat)
    requires Inv(cfg, w) && WellFormedChain(env.chain) && cfg.deploymentBlock <= finalized < |env.chain|
    requires RebuildIdentity(ReadEvents(cfg, env.chain, cfg.deploymentBlock, finalized)).Ok?
    ensures var f := CommitRebuild(cfg, w, env, finalized, ReadEvents(cfg, env.chain, cfg.deploymentBlock, finalized));
      if f.Go? then SettledRebuild(cfg, f.world, env, finalized)
      else f.world == Withdrawn(cfg, w, Active(ReadEvents(cfg, env.chain, cfg.deploymentBlock, finalized)))
  {
    AfterCommitKeeps(cfg, w, env, finalized, Some(ReadCursor(env, finalized, finalized)));
  }

  /** A state that still has what w had. */
  ghost predicate NoWorse(cfg: Config, w: World, v: World)
  {
    Inv(cfg, v) && (Complete(cfg, w.store) ==> Complete(cfg, v.store))
  }

  lemma BeforeCommitKept(cfg: Config, w: World, env: Env, finalized: nat, active: seq<Event>)
    requires Inv(cfg, w)
    ensures var w0 := Marked(w, finalized);
      var w1 := PrePersisted(cfg, w0, active);
      NoWorse(cfg, w, w0) && NoWorse(cfg, w, w1) && NoWorse(cfg, w, Withdrawn(cfg, w1, active))
  {
    BeforeCommitKeeps(cfg, w, env, finalized, active);
  }

  lemma RebuildKeeps(cfg: Config, w: World, env: Env)
    requires Inv(cfg, w) && WellFormedChain(env.chain)
    ensures Inv(cfg, Rebuild(cfg, w, env).world)
    ensures Complete(cfg, w.store) ==> Complete(cfg, Rebuild(cfg, w, env).world.store)
    ensures Rebuild(cfg, w, env).Go? && cfg.deploymentBlock <= Finalized(cfg, env) ==>
      SettledRebuild(cfg, Rebuild(cfg, w, env).world, env, Finalized(cfg, env))
  {
    var finalized := Finalized(cfg, env);
    if finalized < cfg.deploymentBlock {
      EmptyRebuildKeeps(cfg, w, env, finalized);
    } else {
      if Rebuild(cfg, w, env).Go? { FullRebuildSettles(cfg, w, env, finalized); } else { FullRebuildStops(cfg, w, env, finalized); }
    }
  }

  lemma FullRebuildSettles(cfg: Config, w: World, env: Env, finalized: nat)
    requires Inv(cfg, w) && WellFormedChain(env.chain) && cfg.deploymentBlock <= finalized == Finalized(cfg, env)
    requires Rebuild(cfg, w, env).Go?
    ensures SettledRebuild(cfg, Rebuild(cfg, w, env).world, env, finalized)
  {
    var active := Active(ReadEvents(cfg, env.chain, cfg.deploymentBlock, finalized));
    BeforeCommitKept(cfg, w, env, finalized, active);
    CommitRebuildKeeps(cfg, PrePersisted(cfg, Marked(w, finalized), active), env, finalized);
  }

  lemma FullRebuildStops(cfg: Config, w: World, env: Env, finalized: nat)
    requires Inv(cfg, w) && cfg.deploymentBlock <= finalized == Finalized(cfg, env)
    requires Rebuild(cfg, w, env).Stop?
    ensures NoWorse(cfg, w, Rebuild(cfg, w, env).world)
  {
    var active := Active(ReadEvents(cfg, env.chain, cfg.deploymentBlock, finalized));
    BeforeCommitKept(cfg, w, env, finalized, active);
    StoppedRebuild(cfg, w, env, finalized);
  }

  /** A rebuild that stops has marked the sync state and, at most, queued its step and withdrawn it. */
  lemma StoppedRebuild(cfg: Config, w: World, env: Env, finalized: nat)
    requires cfg.deploymentBlock <= finalized == Finalized(cfg, env) && Rebuild(cfg, w, env).Stop?
    ensures var w0 := Marked(w, finalized);
      var active := Active(ReadEvents(cfg, env.chain, cfg.deploymentBlock, finalized));
      Rebuild(cfg, w, env).world == w0 || Rebuild(cfg, w, env).world == Withdrawn(cfg, PrePersisted(cfg, w0, active), active)
  {
  }

  // ----- the incremental round -----

  /** Where a round continues from, and its chain is good there. */
  lemma RoundStart(cfg: Config, w: World)
    requires Inv(cfg, w)
    ensures CurrentCursor(w) == w.store.cursor
    ensures w.store.cursor.Some? ==> FromBlock(cfg, w.store.cursor.value) == w.store.cursor.value.next
  {
  }

  ghost predicate Blind(cfg: Config, w: World, env: Env)
  {
    w.store.cursor.Some? && BlindReorg(cfg, w, env, w.store.cursor.value.next)
  }

  lemma SweptPasses(cfg: Config, w: World, env: Env, from: nat)
    requires Passed(cfg, w, env, from)
    ensures Passed(cfg, Swept(cfg, w, env), env, from)
    ensures Swept(cfg, w, env).store.rows == w.store.rows && Swept(cfg, w, env).store.cursor == w.store.cursor
    ensures Complete(cfg, Swept(cfg, w, env).store) <==> Complete(cfg, w.store)
  {
    SweptOnlyQueue(cfg, w, env);
    OnlyQueueKeepsInv(cfg, w, Swept(cfg, w, env));
  }

  /** A round of one process alone keeps the invariant, whatever fault stops it. */
  lemma RefreshKeepsInv(cfg: Config, w: World, env: Env)
    requires Inv(cfg, w) && WellFormedChain(env.chain)
    ensures Inv(cfg, Refresh(cfg, w, env).world)
  {
    RoundStart(cfg, w);
    if w.store.cursor.None? {
      RebuildKeeps(cfg, w, env);
    } else {
      CheckKeepsInv(cfg, w, env, w.store.cursor.value.next);
      var f := RollbackOnReorg(cfg, w, env, w.store.cursor.value.next);
      if f.Go? {
        SweptPasses(cfg, f.world, env, f.value);
        ContinueKeepsInv(cfg, Swept(cfg, f.world, env), env, f.value);
      }
    }
  }

  lemma ContinueKeepsInv(cfg: Config, w: World, env: Env, from: nat)
    requires Passed(cfg, w, env, from) && WellFormedChain(env.chain)
    ensures Inv(cfg, Continue(cfg, w, env, from).world)
  {
    var finalized := Finalized(cfg, env);
    if finalized < from {
      LaggingKeepsInv(cfg, w, env, from, finalized);
    } else {
      AppendingKeepsInv(cfg, w, env, from, finalized);
    }
  }

  lemma RefreshKeepsComplete(cfg: Config, w: World, env: Env)
    requires Inv(cfg, w) && Complete(cfg, w.store) && WellFormedChain(env.chain) && !Blind(cfg, w, env)
    ensures Complete(cfg, Refresh(cfg, w, env).world.store)
  {
    RoundStart(cfg, w);
    if w.store.cursor.None? {
      RebuildKeeps(cfg, w, env);
    } else {
      var from := w.store.cursor.value.next;
      CheckKeepsInv(cfg, w, env, from);
      CheckCoversExactly(cfg, w, env, from);
      var f := RollbackOnReorg(cfg, w, env, from);
      if f.Go? {
        SweptPasses(cfg, f.world, env, f.value);
        if Finalized(cfg, env) < f.value {
          LaggingCovers(cfg, Swept(cfg, f.world, env), env, f.value, Finalized(cfg, env));
        } else {
          AppendingCovers(cfg, Swept(cfg, f.world, env), env, f.value, Finalized(cfg, env));
        }
      }
    }
  }

  /** The condition matters: a completed round after a blind reorg lacks every event it left behind. */
  lemma BlindRoundLosesEvents(cfg: Config, w: World, env: Env, v: World, e: Event)
    requires Inv(cfg, w) && WellFormedChain(env.chain) && Blind(cfg, w, env) && Refresh(cfg, w, env) == Go(v, Unit)
    requires OnChain(cfg, env.chain, e) && cfg.deploymentBlock <= e.blockNumber < w.store.cursor.value.next
    ensures e !in v.store.rows
    ensures v.store.cursor.Some? && v.store.cursor.value.next >= w.store.cursor.value.next
  {
    var from := w.store.cursor.value.next;
    RoundStart(cfg, w);
    CheckKeepsInv(cfg, w, env, from);
    EmptyTableHasNoAncestor(cfg, env.chain, from);
    assert RollbackOnReorg(cfg, w, env, from) == Go(w, from);
    SweptPasses(cfg, w, env, from);
    NothingIsReadBelow(cfg, Swept(cfg, w, env), env, from, e);
  }

  lemma NothingIsReadBelow(cfg: Config, w: World, env: Env, from: nat, e: Event)
    requires Passed(cfg, w, env, from) && WellFormedChain(env.chain) && e !in w.store.rows && e.blockNumber < from
    requires Continue(cfg, w, env, from).Go?
    ensures var s := Continue(cfg, w, env, from).world.store; e !in s.rows && s.cursor.Some? && s.cursor.value.next >= from
  {
    if Finalized(cfg, env) < from {
      LaggingKeepsInv(cfg, w, env, from, Finalized(cfg, env));
    } else {
      AppendingKeepsInv(cfg, w, env, from, Finalized(cfg, env));
    }
  }

  lemma EmptyTableHasNoAncestor(cfg: Config, chain: Chain, from: nat)
    ensures FindAncestor(cfg, [], chain, from) == NoEvents
  {
    AncestorFoundExactly(cfg, [], chain, from);
  }

  /** The table holds the canonical log of [deploymentBlock, to], so its replay is the replay of that log. */
  lemma CanonicalReplay(cfg: Config, rows: seq<Event>, chain: Chain, to: nat)
    requires WellFormedChain(chain) && Covers(cfg, rows, chain, to + 1)
    requires forall e :: e in rows ==> e.blockNumber <= to
    ensures Active(Listed(rows)) == Active(ReadEvents(cfg, chain, cfg.deploymentBlock, to))
  {
    var log := ReadEvents(cfg, chain, cfg.deploymentBlock, to);
    ReadEventsMembers(cfg, chain, cfg.deploymentBlock, to);
    SortPermutes(rows, Before);
    ChainEventsAreOrderly(cfg, chain, log);
    ActiveOfSameEvents(log, Listed(rows));
  }

  ghost predicate IsReplayOf(s: Store, log: seq<Event>)
  {
    s.order == Active(log) && RebuildIdentity(log) == Ok(s.identity)
  }

  /**
   Incremental equals rebuild. After a completed round that appended, the rows are the
   canonical events of [deploymentBlock, nextBlock - 1], and both snapshots are a
   from-scratch replay of that log.
   */
  lemma IncrementalEqualsReplay(cfg: Config, w: World, env: Env, w1: World, from: nat, v: World)
    requires Inv(cfg, w) && Complete(cfg, w.store) && WellFormedChain(env.chain)
    requires w.store.cursor.Some? && !Blind(cfg, w, env)
    requires RollbackOnReorg(cfg, w, env, w.store.cursor.value.next) == Go(w1, from) && from <= Finalized(cfg, env)
    requires Refresh(cfg, w, env) == Go(v, Unit)
    ensures v.store.cursor.Some? && v.store.cursor.value.next == Finalized(cfg, env) + 1
    ensures forall e :: e in v.store.rows <==>
              OnChain(cfg, env.chain, e) && cfg.deploymentBlock <= e.blockNumber < Finalized(cfg, env) + 1
    ensures IsReplayOf(v.store, ReadEvents(cfg, env.chain, cfg.deploymentBlock, Finalized(cfg, env)))
  {
    var next := w.store.cursor.value.next;
    var finalized := Finalized(cfg, env);
    RoundStart(cfg, w);
    CheckKeepsInv(cfg, w, env, next);
    CheckCoversExactly(cfg, w, env, next);
    SweptPasses(cfg, w1, env, from);
    assert Refresh(cfg, w, env) == Appending(cfg, Swept(cfg, w1, env), env, from, finalized);
    AppendingKeepsInv(cfg, Swept(cfg, w1, env), env, from, finalized);
    AppendingCovers(cfg, Swept(cfg, w1, env), env, from, finalized);
    CanonicalReplay(cfg, v.store.rows, env.chain, finalized);
  }

  /** The same for a committed rebuild; with the lemma above, a round and a rebuild save the same snapshots. */
  lemma RebuildIsReplay(cfg: Config, w: World, env: Env, v: World)
    requires Inv(cfg, w) && WellFormedChain(env.chain)
    requires cfg.deploymentBlock <= Finalized(cfg, env) && Rebuild(cfg, w, env) == Go(v, Unit)
    ensures v.store.cursor.Some? && v.store.cursor.value.next == Finalized(cfg, env) + 1
    ensures forall e :: e in v.store.rows <==>
              OnChain(cfg, env.chain, e) && cfg.deploymentBlock <= e.blockNumber < Finalized(cfg, env) + 1
    ensures IsReplayOf(v.store, ReadEvents(cfg, env.chain, cfg.deploymentBlock, Finalized(cfg, env)))
  {
    FullRebuildSettles(cfg, w, env, Finalized(cfg, env));
    CanonicalReplay(cfg, v.store.rows, env.chain, Finalized(cfg, env));
  }

  // ----- crashes -----

  lemma PartlyLinkedOnlyQueue(cfg: Config, w: World, a: nat, n: nat, invalidated: bool)
    requires n <= |w.store.queue|
    ensures OnlyQueue(w, PartlyLinked(cfg, w, a, n, invalidated))
  {
    if ValidQueue(w.store.queue) { TrimPassKeepsValid(w.store.queue, n, a); }
  }

  lemma PartlyLinkedKeeps(cfg: Config, w: World, env: Env, from: nat, anchor: Event, rows: nat, invalidated: bool)
    requires Inv(cfg, w) && WellFormedChain(env.chain)
    requires w.store.cursor.Some? && w.store.cursor.value.next == from
    requires CanonicalAnchor(cfg, w.store.rows, env.chain, from, anchor)
    requires RollbackTransaction(cfg, w, env, from, anchor).Go?
    ensures var w1 := RollbackTransaction(cfg, w, env, from, anchor).world;
      Kept(cfg, PartlyLinked(cfg, w1, anchor.blockNumber, Min(rows, |w1.store.queue|), invalidated), Complete(cfg, w.store))
  {
    RollbackKept(cfg, w, env, from, anchor);
    var w1 := RollbackTransaction(cfg, w, env, from, anchor).world;
    var n := Min(rows, |w1.store.queue|);
    PartlyLinkedOnlyQueue(cfg, w1, anchor.blockNumber, n, invalidated);
    OnlyQueueKeepsKept(cfg, w1, PartlyLinked(cfg, w1, anchor.blockNumber, n, invalidated), Complete(cfg, w.store));
  }

  lemma RollbackKept(cfg: Config, w: World, env: Env, from: nat, anchor: Event)
    requires Inv(cfg, w) && WellFormedChain(env.chain)
    requires w.store.cursor.Some? && w.store.cursor.value.next == from
    requires CanonicalAnchor(cfg, w.store.rows, env.chain, from, anchor)
    requires RollbackTransaction(cfg, w, env, from, anchor).Go?
    ensures Kept(cfg, RollbackTransaction(cfg, w, env, from, anchor).world, Complete(cfg, w.store))
  {
    RollbackKeepsInv(cfg, w, env, from, anchor);
    if Complete(cfg, w.store) { RollbackCovers(cfg, w, env, from, anchor); }
  }

  lemma OnlyQueueKeepsKept(cfg: Config, w: World, v: World, complete: bool)
    requires Kept(cfg, w, complete) && OnlyQueue(w, v)
    ensures Kept(cfg, v, complete)
  {
  }

  lemma CrashedRollbackKeeps(cfg: Config, w: World, env: Env, from: nat, rows: nat, invalidated: bool)
    requires Inv(cfg, w) && WellFormedChain(env.chain)
    requires w.store.cursor.Some? && w.store.cursor.value.next == from
    ensures Kept(cfg, CrashedRollback(cfg, w, env, from, rows, invalidated), Complete(cfg, w.store))
  {
    if !(Unchecked(cfg, w, from) || from > |env.chain| || HashMatches(w, env, from)) {
      AncestorFoundExactly(cfg, w.store.rows, env.chain, from);
      var r := FindAncestor(cfg, w.store.rows, env.chain, from);
      if r.Found? && RollbackTransaction(cfg, w, env, from, r.anchor).Go? {
        PartlyLinkedKeeps(cfg, w, env, from, r.anchor, rows, invalidated);
      }
    }
  }

  lemma CrashedAppendingKeeps(cfg: Config, w: World, env: Env, from: nat, finalized: nat, p: CrashPoint)
    requires Passed(cfg, w, env, from) && WellFormedChain(env.chain) && from <= finalized
    ensures Kept(cfg, CrashedAppending(cfg, w, env, from, finalized, p), Complete(cfg, w.store) && Covers(cfg, w.store.rows, env.chain, from))
  {
    var reported := Reported(w, finalized);
    var events := ReadEvents(cfg, env.chain, from, finalized);
    var f1 := EventsTransaction(w, env, from, events, reported);
    if f1.Go? {
      AppendCommits(cfg, w, env, from, finalized, reported);
      CrashedAfterAppendKeeps(cfg, f1.world, env, from, finalized, reported, Active(events), p,
                              Complete(cfg, w.store) && Covers(cfg, w.store.rows, env.chain, from));
    }
  }

  lemma CrashedLaggingKeeps(cfg: Config, w: World, env: Env, from: nat, finalized: nat, p: CrashPoint)
    requires Passed(cfg, w, env, from) && WellFormedChain(env.chain)
    ensures Kept(cfg, CrashedLagging(w, env, from, finalized, p), Complete(cfg, w.store) && Covers(cfg, w.store.rows, env.chain, from))
  {
    if p.AfterCursor? && from <= |env.chain| {
      var c := Cursor(from, Reported(w, finalized), Some(HashAt(env.chain, from - 1)));
      AdvanceKeepsInv(cfg, w, env, from, c);
      HashedCursor(cfg, w.store.rows, env.chain, c);
    }
  }

  lemma CommittedThenLost(cfg: Config, w: World, env: Env, finalized: nat)
    requires Inv(cfg, w) && WellFormedChain(env.chain) && cfg.deploymentBlock <= finalized < |env.chain|
    requires RebuildIdentity(ReadEvents(cfg, env.chain, cfg.deploymentBlock, finalized)).Ok?
    ensures var events := ReadEvents(cfg, env.chain, cfg.deploymentBlock, finalized);
      && RowsFrom(events, cfg.deploymentBlock) == events
      && var v := Replaced(cfg, w, events, ReadCursor(env, finalized, finalized));
         Kept(cfg, v, true) && Kept(cfg, NotificationSettled(cfg, v, env, Active(events)), true)
  {
    AfterCommitKeeps(cfg, w, env, finalized, None);
  }

  lemma CrashedReplacementKeeps(cfg: Config, w: World, env: Env, finalized: nat, p: CrashPoint)
    requires Inv(cfg, w) && WellFormedChain(env.chain) && cfg.deploymentBlock <= finalized
    ensures Kept(cfg, CrashedReplacement(cfg, w, env, finalized, p), Complete(cfg, w.store))
  {
    var events := ReadEvents(cfg, env.chain, cfg.deploymentBlock, finalized);
    var w1 := PrePersisted(cfg, Marked(w, finalized), Active(events));
    BeforeCommitKept(cfg, w, env, finalized, Active(events));
    if RebuildIdentity(events).Ok? && finalized < |env.chain| {
      CrashedCommitKeeps(cfg, w1, env, finalized, p, Complete(cfg, w.store));
    }
  }

  lemma CrashedCommitKeeps(cfg: Config, w: World, env: Env, finalized: nat, p: CrashPoint, complete: bool)
    requires Inv(cfg, w) && WellFormedChain(env.chain) && cfg.deploymentBlock <= finalized < |env.chain|
    requires var events := ReadEvents(cfg, env.chain, cfg.deploymentBlock, finalized);
      RebuildIdentity(events).Ok? && Kept(cfg, w, complete) && Kept(cfg, Withdrawn(cfg, w, Active(events)), complete)
    ensures Kept(cfg, CrashedCommit(cfg, w, env, finalized, ReadEvents(cfg, env.chain, cfg.deploymentBlock, finalized), p), complete)
  {
    CommittedThenLost(cfg, w, env, finalized);
  }

  lemma CrashedRebuildKeeps(cfg: Config, w: World, env: Env, p: CrashPoint)
    requires Inv(cfg, w) && WellFormedChain(env.chain)
    ensures Inv(cfg, CrashedRebuild(cfg, w, env, p))
    ensures Complete(cfg, w.store) ==> Complete(cfg, CrashedRebuild(cfg, w, env, p).store)
  {
    var finalized := Finalized(cfg, env);
    if finalized < cfg.deploymentBlock {
      CursorResetKeeps(cfg, w, env, finalized);
    } else {
      CrashedReplacementKeeps(cfg, w, env, finalized, p);
    }
  }

  lemma CrashedRefreshKeeps(cfg: Config, w: World, env: Env, p: CrashPoint)
    requires Inv(cfg, w) && WellFormedChain(env.chain)
    ensures Inv(cfg, CrashedRefresh(cfg, w, env, p))
    ensures Complete(cfg, w.store) && !Blind(cfg, w, env) ==> Complete(cfg, CrashedRefresh(cfg, w, env, p).store)
  {
    RoundStart(cfg, w);
    if w.store.cursor.None? {
      CrashedRebuildKeeps(cfg, w, env, p);
    } else {
      var from := w.store.cursor.value.next;
      if p.InTrim? {
        CrashedRollbackKeeps(cfg, w, env, from, p.rows, p.invalidated);
      } else {
        CheckKeepsInv(cfg, w, env, from);
        if Complete(cfg, w.store) { CheckCoversExactly(cfg, w, env, from); }
        var f := RollbackOnReorg(cfg, w, env, from);
        if f.Go? {
          CrashedContinueKeeps(cfg, f.world, env, f.value, p);
        }
      }
    }
  }

  lemma CrashedContinueKeeps(cfg: Config, w: World, env: Env, from: nat, p: CrashPoint)
    requires Passed(cfg, w, env, from) && WellFormedChain(env.chain)
    ensures var covered := Complete(cfg, w.store) && Covers(cfg, w.store.rows, env.chain, from);
      var finalized := Finalized(cfg, env);
      && (p.InSweep? ==> Kept(cfg, CrashedSweep(cfg, w, env, p.rows, p.handedOver), Complete(cfg, w.store)))
      && (finalized < from ==> Kept(cfg, CrashedLagging(Swept(cfg, w, env), env, from, finalized, p), covered))
      && (from <= finalized ==> Kept(cfg, CrashedAppending(cfg, Swept(cfg, w, env), env, from, finalized, p), covered))
  {
    var finalized := Finalized(cfg, env);
    SweptPasses(cfg, w, env, from);
    if p.InSweep? { SweepOnlyQueue(cfg, w, env, Min(p.rows, |w.store.queue|)); }
    if finalized < from {
      CrashedLaggingKeeps(cfg, Swept(cfg, w, env), env, from, finalized, p);
    } else {
      CrashedAppendingKeeps(cfg, Swept(cfg, w, env), env, from, finalized, p);
    }
  }

  // ----- every run -----

  ghost predicate BlindOp(cfg: Config, w: World, op: Op)
  {
    (op.DoRefresh? || op.CrashInRefresh?) && Blind(cfg, w, op.env)
  }

  /** The operation replaces the table, or resets the cursor below it; a crash counts once the replacement is committed. */
  ghost predicate Restores(cfg: Config, w: World, op: Op)
  {
    (op.DoRebuild? && Rebuild(cfg, w, op.env).Go?) || (op.CrashInRebuild? && CommittedBefore(cfg, op.env, op.point))
  }

  ghost predicate CommittedBefore(cfg: Config, env: Env, p: CrashPoint)
  {
    var finalized := Finalized(cfg, env);
    var events := ReadEvents(cfg, env.chain, cfg.deploymentBlock, finalized);
    && cfg.deploymentBlock <= finalized < |env.chain| && !p.AfterMark? && !p.AfterPrePersist?
    && RebuildIdentity(events).Ok? && Replaceable(cfg, env, events)
  }

  lemma RebuiltIsComplete(cfg: Config, w: World, env: Env)
    requires Inv(cfg, w) && WellFormedChain(env.chain) && Rebuild(cfg, w, env).Go?
    ensures Complete(cfg, Rebuild(cfg, w, env).world.store)
  {
    if Finalized(cfg, env) < cfg.deploymentBlock {
      EmptyRebuildKeeps(cfg, w, env, Finalized(cfg, env));
    } else {
      FullRebuildSettles(cfg, w, env, Finalized(cfg, env));
    }
  }

  lemma CrashedRebuiltIsComplete(cfg: Config, w: World, env: Env, p: CrashPoint)
    requires Inv(cfg, w) && WellFormedChain(env.chain) && CommittedBefore(cfg, env, p)
    ensures Complete(cfg, CrashedRebuild(cfg, w, env, p).store)
  {
    var finalized := Finalized(cfg, env);
    var active := Active(ReadEvents(cfg, env.chain, cfg.deploymentBlock, finalized));
    BeforeCommitKept(cfg, w, env, finalized, active);
    CommittedThenLost(cfg, PrePersisted(cfg, Marked(w, finalized), active), env, finalized);
    CommittedStates(cfg, w, env, p);
  }

  lemma CommittedStates(cfg: Config, w: World, env: Env, p: CrashPoint)
    requires CommittedBefore(cfg, env, p)
    ensures var finalized := Finalized(cfg, env);
      var events := ReadEvents(cfg, env.chain, cfg.deploymentBlock, finalized);
      var v := Replaced(cfg, PrePersisted(cfg, Marked(w, finalized), Active(events)), events, ReadCursor(env, finalized, finalized));
      var r := CrashedRebuild(cfg, w, env, p).store;
      r == v.store || r == NotificationSettled(cfg, v, env, Active(events)).store
  {
  }

  /** Whatever the table had lost before, it is complete afterwards. */
  lemma RestoredIsComplete(cfg: Config, w: World, op: Op)
    requires Inv(cfg, w) && WellFormedChain(op.env.chain) && Restores(cfg, w, op)
    ensures Complete(cfg, Next(cfg, w, op).store)
  {
    if op.DoRebuild? { RebuiltIsComplete(cfg, w, op.env); } else { CrashedRebuiltIsComplete(cfg, w, op.env, op.point); }
  }

  lemma StepKeepsInv(cfg: Config, w: World, op: Op)
    requires Inv(cfg, w) && WellFormedChain(op.env.chain)
    ensures Inv(cfg, Next(cfg, w, op))
    ensures Complete(cfg, w.store) && !BlindOp(cfg, w, op) ==> Complete(cfg, Next(cfg, w, op).store)
  {
    match op
    case DoRefresh(env) =>
      RefreshKeepsInv(cfg, w, env);
      if Complete(cfg, w.store) && !Blind(cfg, w, env) { RefreshKeepsComplete(cfg, w, env); }
    case DoRebuild(env) => RebuildKeeps(cfg, w, env);
    case CrashInRefresh(env, p) => CrashedRefreshKeeps(cfg, w, env, p);
    case CrashInRebuild(env, p) => CrashedRebuildKeeps(cfg, w, env, p);
  }

  ghost predicate OnGoodChains(ops: seq<Op>) { forall i :: 0 <= i < |ops| ==> WellFormedChain(ops[i].env.chain) }

  lemma StartIsGood(cfg: Config)
    ensures Inv(cfg, START) && Complete(cfg, START.store)
  {
    assert RebuildIdentity([]) == Fold([]) == Ok(EMPTY_IDENTITY);
  }

  /**
   Every state reachable by rounds, rollbacks, rebuilds and crashes between their sub-steps:
   what is stored below the cursor belongs to the chain of the cursor's hash, the snapshots
   are the replay of the rows, and no compare-and-set has failed.
   */
  lemma {:induction false} EveryRunKeepsInv(cfg: Config, ops: seq<Op>, states: seq<World>, n: nat)
    requires IsRun(cfg, ops, states) && OnGoodChains(ops) && n <= |ops|
    ensures Inv(cfg, states[n])
  {
    if n == 0 {
      StartIsGood(cfg);
    } else {
      EveryRunKeepsInv(cfg, ops, states, n - 1);
      StepKeepsInv(cfg, states[n - 1], ops[n - 1]);
    }
  }

  /**
   In every such state, unless a reorg met an empty table since the last rebuild, the rows below
   the cursor are exactly the events of the chain that the cursor's hash commits to.
   */
  lemma {:induction false} EveryRunIsCovered(cfg: Config, ops: seq<Op>, states: seq<World>, since: nat, n: nat)
    requires IsRun(cfg, ops, states) && OnGoodChains(ops) && since <= n <= |ops|
    requires since > 0 ==> Restores(cfg, states[since - 1], ops[since - 1])
    requires forall i :: since <= i < n ==> !BlindOp(cfg, states[i], ops[i])
    ensures Complete(cfg, states[n].store)
  {
    if n == 0 {
      StartIsGood(cfg);
    } else {
      EveryRunKeepsInv(cfg, ops, states, n - 1);
      if n == since {
        RestoredIsComplete(cfg, states[n - 1], ops[n - 1]);
      } else {
        EveryRunIsCovered(cfg, ops, states, since, n - 1);
        StepKeepsInv(cfg, states[n - 1], ops[n - 1]);
      }
    }
  }
}
