/**
 Which crashes leave a queue that later rounds can trust: after a crash every queued event is a
 row below the cursor unless a batch was queued ahead of the cursor, or a trim was cut short.
 */
module IndexerCrashes {
  import opened Prelude
  import opened Sorting
  import opened ChainEvents
  import opened EventSource
  import opened IdentityProjections
  import opened PendingSteps
  import opened PendingSweep
  import opened ProjectionStore
  import opened IndexerModel
  import opened IndexerAncestor
  import opened IndexerInvariant
  import opened IndexerCoverage
  import opened IndexerDelivery

  // ----- a crash in an append -----

  /** The batch of the append is not left in the queue ahead of the cursor. */
  ghost predicate AppendCrashIsSafe(cfg: Config, env: Env, active: seq<Event>, p: CrashPoint)
  {
    || !HasNotification(cfg, active)
    || p.AfterEvents?
    || (!p.AfterSave? && (!p.AfterNotify? || Returned(env.notified, POST_COMMIT_STEP_MAX_ATTEMPTS)))
  }

  /** A batch above the cursor that was just queued. */
  lemma QueuedAhead(w: World, id: StepId, active: seq<Event>, rows: seq<Event>, c: Cursor)
    requires ValidQueue(w.store.queue) && Look(w.store.queue, id).Some? && id == PendingPostCommitStepId(active)
    requires |active| > 0 && forall e :: e in active ==> e.blockNumber >= c.next
    ensures !AllQueued(w.store.queue, BelowCursor(rows, Some(c)))
  {
    LookMembers(w.store.queue, id);
    var s := Look(w.store.queue, id).value;
    assert WellFormedStep(s);
    assert KeysOf(s.events)[0] == ChainEventKey(s.events[0]) && KeysOf(active)[0] == ChainEventKey(active[0]);
    assert s.events[0] in s.events && active[0] in active;
    assert !BelowCursor(rows, Some(c))(s.events[0]);
  }

  lemma PersistingQueues(w: World, active: seq<Event>)
    ensures var id := PendingPostCommitStepId(active);
      Look(Saved(w, id, active).store.queue, id).Some? && Look(Persisted(w, id, active).store.queue, id).Some?
  {
    var id := PendingPostCommitStepId(active);
    LookAfterSave(w.store.queue, id, active, id);
    LookAfterRecord(SaveStep(w.store.queue, id, active), id, id);
  }

  /** The state after the events transaction, and what later steps add to its queue. */
  ghost predicate AheadOf(w: World, active: seq<Event>, from: nat)
  {
    && ValidQueue(w.store.queue) && QueueInTable(w.store) && w.store.finalized.Some?
    && w.store.cursor.Some? && w.store.cursor.value.next == from
    && forall e :: e in active ==> e in w.store.rows && e.blockNumber >= from
  }

  lemma SavedAheadBreaks(cfg: Config, w: World, active: seq<Event>, from: nat)
    requires AheadOf(w, active, from) && HasNotification(cfg, active)
    ensures !QueueInTable(PrePersisted(cfg, w, active).store)
    ensures !QueueInTable(Persisted(w, PendingPostCommitStepId(active), active).store)
  {
    var id := PendingPostCommitStepId(active);
    PersistingQueues(w, active);
    SavedOnlyQueue(w, id, active);
    QueuedAhead(Saved(w, id, active), id, active, w.store.rows, w.store.cursor.value);
    QueuedAhead(Persisted(w, id, active), id, active, w.store.rows, w.store.cursor.value);
  }

  /** Once the cursor has followed, the batch is in the table below it. */
  lemma FollowedKeeps(cfg: Config, w: World, env: Env, from: nat, c: Cursor, active: seq<Event>)
    requires AheadOf(w, active, from) && from <= c.next && forall e :: e in active ==> e.blockNumber < c.next
    ensures var told := Notified(cfg, w, env, active);
      QueueInTable(SaveCursorAdvancingFrom(told, c, from).world.store)
  {
    var P := BelowCursor(w.store.rows, Some(c));
    AllQueuedWeaker(w.store.queue, BelowCursor(w.store.rows, w.store.cursor), P);
    NotifiedEvents(cfg, w, env, active, P);
    NotifiedOnlyQueue(cfg, w, env, active);
  }

  lemma CrashedAfterAppendExactly(cfg: Config, w: World, env: Env, from: nat, finalized: nat, reported: nat, active: seq<Event>,
                                  p: CrashPoint)
    requires AheadOf(w, active, from) && from <= finalized < |env.chain|
    requires forall e :: e in active ==> e.blockNumber <= finalized
    ensures QueueInTable(CrashedAfterAppend(cfg, w, env, from, finalized, reported, active, p).store) <==>
            AppendCrashIsSafe(cfg, env, active, p)
  {
    if HasNotification(cfg, active) { SavedAheadBreaks(cfg, w, active, from); }
    FollowedKeeps(cfg, w, env, from, ReadCursor(env, finalized, reported), active);
  }

  lemma CrashedAppendingExactly(cfg: Config, w: World, env: Env, from: nat, finalized: nat, p: CrashPoint)
    requires Passed(cfg, w, env, from) && QueueInTable(w.store) && WellFormedChain(env.chain)
    requires from <= finalized < |env.chain|
    ensures var events := ReadEvents(cfg, env.chain, from, finalized);
      QueueInTable(CrashedAppending(cfg, w, env, from, finalized, p).store) <==>
        EventsTransaction(w, env, from, events, Reported(w, finalized)).Stop? || AppendCrashIsSafe(cfg, env, Active(events), p)
  {
    var reported := Reported(w, finalized);
    var events := ReadEvents(cfg, env.chain, from, finalized);
    AppendKeepsInv(cfg, w, env, from, finalized, reported);
    var f := EventsTransaction(w, env, from, events, reported);
    if f.Go? {
      ReadIsActive(cfg, env.chain, from, finalized);
      AllQueuedWeaker(w.store.queue, BelowCursor(w.store.rows, w.store.cursor), BelowCursor(f.world.store.rows, f.world.store.cursor));
      CrashedAfterAppendExactly(cfg, f.world, env, from, finalized, reported, Active(events), p);
    }
  }

  lemma CrashedLaggingSafe(cfg: Config, w: World, env: Env, from: nat, finalized: nat, p: CrashPoint)
    requires Passed(cfg, w, env, from) && QueueInTable(w.store)
    ensures QueueInTable(CrashedLagging(w, env, from, finalized, p).store)
  {
    if p.AfterCursor? && from <= |env.chain| {
      var c := Cursor(from, Reported(w, finalized), if from > 0 then Some(HashAt(env.chain, from - 1)) else None);
      AllQueuedWeaker(w.store.queue, BelowCursor(w.store.rows, w.store.cursor), BelowCursor(w.store.rows, Some(c)));
    }
  }

  lemma CrashedSweepSafe(cfg: Config, w: World, env: Env, rows: nat, handedOver: bool)
    requires QueueInTable(w.store)
    ensures QueueInTable(CrashedSweep(cfg, w, env, rows, handedOver).store)
  {
    var q, n := w.store.queue, Min(rows, |w.store.queue|);
    SweepAddsNoEvent(q, Begin(q, w.handled, w.dead), n, SweepEnvOf(cfg, w, env), BelowCursor(w.store.rows, w.store.cursor));
    if NoEventQueued(q) {
      SweepAddsNoEvent(q, Begin(q, w.handled, w.dead), n, SweepEnvOf(cfg, w, env), NoEvent());
    }
  }

  // ----- a crash in a rollback -----

  /** Every row the trim did not come to lies at or below the ancestor. */
  ghost predicate RestIsWithin(q: Queue, n: nat, a: nat)
  {
    forall i, e | n <= i < |q| && e in q[i].events :: e.blockNumber <= a
  }

  /** A trim that stopped after n rows has cleared the queue exactly if the other rows needed none. */
  lemma PartTrimExactly(q: Queue, n: nat, a: nat)
    requires ValidQueue(q) && n <= |q|
    ensures AllQueued(TrimPass(q, q[..n], a), (e: Event) => e.blockNumber <= a) <==> RestIsWithin(q, n, a)
  {
    var t, P := TrimPass(q, q[..n], a), (e: Event) => e.blockNumber <= a;
    if RestIsWithin(q, n, a) {
      TrimPassKeepsValid(q, n, a);
      forall s, e | s in t && e in s.events ensures P(e) { TrimmedRowWithin(q, n, a, s, e); }
    } else {
      var i, e :| n <= i < |q| && e in q[i].events && e.blockNumber > a;
      UntrimmedStays(q, n, a, i);
      assert q[i] in t && !P(e);
    }
  }

  lemma TrimmedRowWithin(q: Queue, n: nat, a: nat, s: PendingSteps.Step, e: Event)
    requires ValidQueue(q) && n <= |q| && RestIsWithin(q, n, a)
    requires ValidQueue(TrimPass(q, q[..n], a)) && s in TrimPass(q, q[..n], a) && e in s.events
    ensures e.blockNumber <= a
  {
    TrimPassRows(q, n, a, s.id);
    if Look(q, s.id).Some? {
      LookMembers(q, s.id);
      StepWithin(s, a);
      EventsUpToMembers(s.events, a);
      LookMembers(q[..n], s.id);
      var i :| 0 <= i < |q| && q[i] == s;
      assert i < n ==> q[..n][i] == s;
    } else {
      ReplacementSource(q[..n], a, s.id);
      var o :| o in q[..n] && s == PendingSteps.Step(s.id, EventsUpTo(o.events, a), 0);
      EventsUpToMembers(o.events, a);
    }
  }

  lemma UntrimmedStays(q: Queue, n: nat, a: nat, i: nat)
    requires ValidQueue(q) && n <= i < |q|
    ensures q[i] in TrimPass(q, q[..n], a)
  {
    assert q[i] in q;
    EarlierIdsDiffer(q, i + 1);
    LookMembers(q[..i], q[i].id);
    LookMembers(q[..n], q[i].id);
    assert forall s :: s in q[..n] ==> s in q[..i];
    TrimPassRows(q, n, a, q[i].id);
    LookMembers(TrimPass(q, q[..n], a), q[i].id);
  }

  /** A committed rollback is left with rows that still reach above its ancestor. */
  ghost predicate CutShort(cfg: Config, w: World, env: Env, from: nat, rows: nat)
  {
    && !Unchecked(cfg, w, from) && from <= |env.chain| && !HashMatches(w, env, from)
    && var r := FindAncestor(cfg, w.store.rows, env.chain, from);
       && r.Found? && RollbackTransaction(cfg, w, env, from, r.anchor).Go?
       && !RestIsWithin(w.store.queue, Min(rows, |w.store.queue|), r.anchor.blockNumber)
  }

  lemma PartlyLinkedExactly(cfg: Config, w: World, env: Env, from: nat, anchor: Event, n: nat, invalidated: bool)
    requires Inv(cfg, w) && QueueInTable(w.store) && n <= |w.store.queue|
    requires w.store.cursor.Some? && w.store.cursor.value.next == from
    requires CanonicalAnchor(cfg, w.store.rows, env.chain, from, anchor)
    requires RollbackTransaction(cfg, w, env, from, anchor).Go?
    ensures var w1 := RollbackTransaction(cfg, w, env, from, anchor).world;
      && w1.store.queue == w.store.queue
      && (QueueInTable(PartlyLinked(cfg, w1, anchor.blockNumber, n, invalidated).store) <==>
            RestIsWithin(w.store.queue, n, anchor.blockNumber))
  {
    TransactionShape(cfg, w, env, from, anchor);
    RollbackSetsBound(cfg, w, env, from, anchor);
    PartTrimInTable(w.store.queue, w.store.rows, w.store.cursor, n, anchor.blockNumber, Some(AnchorCursor(cfg, anchor)));
  }

  lemma RollbackSetsBound(cfg: Config, w: World, env: Env, from: nat, anchor: Event)
    requires w.store.cursor.Some? && w.store.cursor.value.next == from
    requires RollbackTransaction(cfg, w, env, from, anchor).Go?
    ensures RollbackTransaction(cfg, w, env, from, anchor).world.store.finalized.Some?
  {
  }

  lemma PartTrimInTable(q: Queue, rows: seq<Event>, c: Option<Cursor>, n: nat, a: nat, d: Option<Cursor>)
    requires ValidQueue(q) && n <= |q| && AllQueued(q, BelowCursor(rows, c)) && d.Some? && d.value.next == a + 1
    ensures AllQueued(TrimPass(q, q[..n], a), BelowCursor(RowsUpTo(rows, a), d)) <==> RestIsWithin(q, n, a)
  {
    RowsUpToMembers(rows, a);
    PartTrimExactly(q, n, a);
    TrimPassAddsNoEvent(q, n, a, BelowCursor(rows, c));
    var t := TrimPass(q, q[..n], a);
    var within, below := (e: Event) => e.blockNumber <= a, BelowCursor(RowsUpTo(rows, a), d);
    forall s, e | s in t && e in s.events ensures within(e) <==> below(e) {
      assert BelowCursor(rows, c)(e);
    }
    assert AllQueued(t, within) <==> AllQueued(t, below);
  }

  lemma CrashedRollbackExactly(cfg: Config, w: World, env: Env, from: nat, rows: nat, invalidated: bool)
    requires Inv(cfg, w) && QueueInTable(w.store) && WellFormedChain(env.chain)
    requires w.store.cursor.Some? && w.store.cursor.value.next == from
    ensures QueueInTable(CrashedRollback(cfg, w, env, from, rows, invalidated).store) <==> !CutShort(cfg, w, env, from, rows)
  {
    if !(Unchecked(cfg, w, from) || from > |env.chain| || HashMatches(w, env, from)) {
      AncestorFoundExactly(cfg, w.store.rows, env.chain, from);
      var r := FindAncestor(cfg, w.store.rows, env.chain, from);
      if r.Found? && RollbackTransaction(cfg, w, env, from, r.anchor).Go? {
        TransactionShape(cfg, w, env, from, r.anchor);
        PartlyLinkedExactly(cfg, w, env, from, r.anchor, Min(rows, |w.store.queue|), invalidated);
      }
    }
  }

  // ----- a crash in the first rebuild -----

  /** The rebuild's batch is queued, and neither the table nor the cursor is there yet. */
  ghost predicate QueuedBeforeCommit(cfg: Config, env: Env, p: CrashPoint)
  {
    var finalized := Finalized(cfg, env);
    var events := ReadEvents(cfg, env.chain, cfg.deploymentBlock, finalized);
    && p.AfterPrePersist? && cfg.deploymentBlock <= finalized < |env.chain|
    && RebuildIdentity(events).Ok? && HasNotification(cfg, Active(events))
  }

  lemma CrashedRebuildExactly(cfg: Config, w: World, env: Env, p: CrashPoint)
    requires Inv(cfg, w) && QueueInTable(w.store) && w.store.cursor.None? && WellFormedChain(env.chain)
    ensures QueueInTable(CrashedRebuild(cfg, w, env, p).store) <==> !QueuedBeforeCommit(cfg, env, p)
  {
    var finalized := Finalized(cfg, env);
    NoSignalsQueued(w.store);
    forall t | t in w.store.queue ensures t.events == [] { assert WellFormedStep(t); }
    if cfg.deploymentBlock <= finalized {
      CrashedReplacementExactly(cfg, w, env, finalized, p);
    } else {
      var v := CrashedRebuild(cfg, w, env, p);
      assert v.store.queue == w.store.queue;
    }
  }

  lemma CrashedReplacementExactly(cfg: Config, w: World, env: Env, finalized: nat, p: CrashPoint)
    requires Inv(cfg, w) && w.store.cursor.None? && WellFormedChain(env.chain) && cfg.deploymentBlock <= finalized
    requires finalized == Finalized(cfg, env)
    requires forall t :: t in w.store.queue ==> t.id.AutomationId? && t.events == []
    ensures QueueInTable(CrashedReplacement(cfg, w, env, finalized, p).store) <==> !QueuedBeforeCommit(cfg, env, p)
  {
    var events := ReadEvents(cfg, env.chain, cfg.deploymentBlock, finalized);
    if !p.AfterMark? && RebuildIdentity(events).Ok? && finalized < |env.chain| {
      CrashedCommitExactly(cfg, w, env, finalized, p);
    } else {
      assert CrashedReplacement(cfg, w, env, finalized, p) == Marked(w, finalized);
    }
  }

  lemma CrashedCommitExactly(cfg: Config, w: World, env: Env, finalized: nat, p: CrashPoint)
    requires Inv(cfg, w) && w.store.cursor.None? && WellFormedChain(env.chain) && cfg.deploymentBlock <= finalized < |env.chain|
    requires forall t :: t in w.store.queue ==> t.id.AutomationId? && t.events == []
    requires RebuildIdentity(ReadEvents(cfg, env.chain, cfg.deploymentBlock, finalized)).Ok?
    ensures var events := ReadEvents(cfg, env.chain, cfg.deploymentBlock, finalized);
      var w1 := PrePersisted(cfg, Marked(w, finalized), Active(events));
      QueueInTable(CrashedCommit(cfg, w1, env, finalized, events, p).store) <==>
        !(p.AfterPrePersist? && HasNotification(cfg, Active(events)))
  {
    var events := ReadEvents(cfg, env.chain, cfg.deploymentBlock, finalized);
    var w0 := Marked(w, finalized);
    if p.AfterPrePersist? {
      PrePersistExactly(cfg, w0, Active(events));
    } else if Replaceable(cfg, env, events) {
      CommittedQueues(cfg, w, env, finalized);
    } else {
      AbortRestoresQueue(cfg, w0, Active(events));
    }
  }

  lemma PrePersistExactly(cfg: Config, w: World, active: seq<Event>)
    requires w.store.cursor.None? && w.store.finalized.Some? && forall t :: t in w.store.queue ==> t.events == []
    requires ValidQueue(w.store.queue) && forall t :: t in w.store.queue ==> t.id.AutomationId?
    ensures QueueInTable(PrePersisted(cfg, w, active).store) <==> !HasNotification(cfg, active)
  {
    if HasNotification(cfg, active) {
      var id := PendingPostCommitStepId(active);
      LookMembers(w.store.queue, id);
      var added := PendingSteps.Step(id, active, 0);
      assert added in Saved(w, id, active).store.queue && active[0] in added.events;
      assert !BelowCursor(w.store.rows, w.store.cursor)(active[0]);
    }
  }

  /** After the commit, and after the notification was settled, the batch is in the table. */
  lemma CommittedQueues(cfg: Config, w: World, env: Env, finalized: nat)
    requires Inv(cfg, w) && WellFormedChain(env.chain) && cfg.deploymentBlock <= finalized < |env.chain|
    requires forall t :: t in w.store.queue ==> t.events == []
    requires RebuildIdentity(ReadEvents(cfg, env.chain, cfg.deploymentBlock, finalized)).Ok?
    ensures var events := ReadEvents(cfg, env.chain, cfg.deploymentBlock, finalized);
      && RowsFrom(events, cfg.deploymentBlock) == events
      && var v := Replaced(cfg, PrePersisted(cfg, Marked(w, finalized), Active(events)), events, ReadCursor(env, finalized, finalized));
         QueueInTable(v.store) && QueueInTable(NotificationSettled(cfg, v, env, Active(events)).store)
  {
    var events := ReadEvents(cfg, env.chain, cfg.deploymentBlock, finalized);
    var w0 := Marked(w, finalized);
    BeforeCommitKept(cfg, w, env, finalized, Active(events));
    var w1 := PrePersisted(cfg, w0, Active(events));
    ReplacedIsCanonical(cfg, w1, env, finalized);
    ReadIsActive(cfg, env.chain, cfg.deploymentBlock, finalized);
    var v := Replaced(cfg, w1, events, ReadCursor(env, finalized, finalized));
    SettledQueueKeeps(cfg, w0, v, env, Active(events));
  }

  lemma SettledQueueKeeps(cfg: Config, w: World, v: World, env: Env, active: seq<Event>)
    requires v.store.queue == PrePersisted(cfg, w, active).store.queue && v.store.finalized.Some?
    requires forall t :: t in w.store.queue ==> t.events == []
    requires forall e :: e in active ==> BelowCursor(v.store.rows, v.store.cursor)(e)
    ensures QueueInTable(v.store) && QueueInTable(NotificationSettled(cfg, v, env, active).store)
  {
    NotifiedEvents(cfg, w, env, active, BelowCursor(v.store.rows, v.store.cursor));
    NotifiedEvents(cfg, v, env, active, BelowCursor(v.store.rows, v.store.cursor));
    SettledOnlyQueue(cfg, v, env, active);
  }

  // ----- a crash anywhere in a round -----

  /**
   The exact condition on a crash, read off the state and the crash point: no rollback was cut
   short of a row it had to trim, no batch of an append was left queued with the cursor behind
   it, and no batch of a first rebuild was queued without its commit.
   */
  ghost predicate CrashIsSafe(cfg: Config, w: World, env: Env, p: CrashPoint)
  {
    match w.store.cursor
    case None => !QueuedBeforeCommit(cfg, env, p)
    case Some(c) =>
      if p.InTrim? then !CutShort(cfg, w, env, c.next, p.rows)
      else
        match RollbackOnReorg(cfg, w, env, c.next)
        case Stop(_, _) => true
        case Go(w1, eff) =>
          var v, finalized := Swept(cfg, w1, env), Finalized(cfg, env);
          var events := ReadEvents(cfg, env.chain, eff, finalized);
          || p.InSweep? || finalized < eff
          || EventsTransaction(v, env, eff, events, Reported(v, finalized)).Stop?
          || AppendCrashIsSafe(cfg, env, Active(events), p)
  }

  lemma LostQueue(w: World)
    ensures QueueInTable(Lost(w).store) <==> QueueInTable(w.store)
  {
  }

  lemma CrashExactly(cfg: Config, w: World, env: Env, p: CrashPoint)
    requires Inv(cfg, w) && QueueInTable(w.store) && WellFormedChain(env.chain)
    ensures QueueInTable(CrashedRefresh(cfg, w, env, p).store) <==> CrashIsSafe(cfg, w, env, p)
  {
    RoundStart(cfg, w);
    if w.store.cursor.None? {
      CrashedRebuildExactly(cfg, w, env, p);
    } else {
      var from := w.store.cursor.value.next;
      if p.InTrim? {
        CrashedRollbackExactly(cfg, w, env, from, p.rows, p.invalidated);
        LostQueue(CrashedRollback(cfg, w, env, from, p.rows, p.invalidated));
      } else {
        CheckKeepsInv(cfg, w, env, from);
        CheckKeepsQueueInTable(cfg, w, env, from);
        var f := RollbackOnReorg(cfg, w, env, from);
        if f.Go? {
          CrashedContinueExactly(cfg, f.world, env, f.value, p);
        }
      }
    }
  }

  lemma CrashedContinueExactly(cfg: Config, w: World, env: Env, from: nat, p: CrashPoint)
    requires Passed(cfg, w, env, from) && QueueInTable(w.store) && WellFormedChain(env.chain)
    ensures var v, finalized := Swept(cfg, w, env), Finalized(cfg, env);
      var events := ReadEvents(cfg, env.chain, from, finalized);
      && (p.InSweep? ==> QueueInTable(CrashedSweep(cfg, w, env, p.rows, p.handedOver).store))
      && (finalized < from ==> QueueInTable(CrashedLagging(v, env, from, finalized, p).store))
      && (from <= finalized ==>
            (QueueInTable(CrashedAppending(cfg, v, env, from, finalized, p).store) <==>
               EventsTransaction(v, env, from, events, Reported(v, finalized)).Stop? || AppendCrashIsSafe(cfg, env, Active(events), p)))
  {
    if p.InSweep? { CrashedSweepSafe(cfg, w, env, p.rows, p.handedOver); }
    SweptPasses(cfg, w, env, from);
    SweepKeepsQueueInTable(cfg, w, env);
    var v, finalized := Swept(cfg, w, env), Finalized(cfg, env);
    if finalized < from {
      CrashedLaggingSafe(cfg, v, env, from, finalized, p);
    } else {
      CrashedAppendingExactly(cfg, v, env, from, finalized, p);
    }
  }

  // ----- runs -----

  /** A round, or a crash in a round that the condition calls safe. */
  ghost predicate SafeOp(cfg: Config, w: World, op: Op)
  {
    op.DoRefresh? || (op.CrashInRefresh? && CrashIsSafe(cfg, w, op.env, op.point))
  }

  ghost predicate SafeRun(cfg: Config, ops: seq<Op>, states: seq<World>)
    requires |ops| < |states|
  {
    forall i :: 0 <= i < |ops| ==> SafeOp(cfg, states[i], ops[i])
  }

  lemma {:induction false} SafeRunsKeepQueueInTable(cfg: Config, ops: seq<Op>, states: seq<World>, n: nat)
    requires IsRun(cfg, ops, states) && OnGoodChains(ops) && SafeRun(cfg, ops, states) && n <= |ops|
    ensures Inv(cfg, states[n]) && QueueInTable(states[n].store)
  {
    if n == 0 {
      StartIsGood(cfg);
    } else {
      SafeRunsKeepQueueInTable(cfg, ops, states, n - 1);
      StepKeepsInv(cfg, states[n - 1], ops[n - 1]);
      SafeStep(cfg, states[n - 1], ops[n - 1]);
    }
  }

  lemma SafeStep(cfg: Config, w: World, op: Op)
    requires Inv(cfg, w) && QueueInTable(w.store) && WellFormedChain(op.env.chain) && SafeOp(cfg, w, op)
    ensures QueueInTable(Next(cfg, w, op).store)
  {
    if op.DoRefresh? { RefreshKeepsQueueInTable(cfg, w, op.env); } else { CrashExactly(cfg, w, op.env, op.point); }
  }

  /**
   No ghost delivery. After any run of rounds and safe crashes, through however many reorgs,
   every event that the next round's sweep hands to the processor is on that round's chain and
   at or below the persisted finality bound.
   */
  lemma NoGhostDelivery(cfg: Config, ops: seq<Op>, states: seq<World>, env: Env, from: nat, w1: World, eff: nat,
                        s: PendingSteps.Step, e: Event)
    requires IsRun(cfg, ops, states) && OnGoodChains(ops) && SafeRun(cfg, ops, states) && WellFormedChain(env.chain)
    requires states[|ops|].store.cursor.Some? && from == FromBlock(cfg, states[|ops|].store.cursor.value)
    requires RollbackOnReorg(cfg, states[|ops|], env, from) == Go(w1, eff)
    requires s in w1.store.queue && HandsOver(s, SweepEnvOf(cfg, w1, env)) && e in s.events
    ensures OnChain(cfg, env.chain, e) && w1.store.finalized.Some? && e.blockNumber <= w1.store.finalized.value
  {
    var w := states[|ops|];
    SafeRunsKeepQueueInTable(cfg, ops, states, |ops|);
    RoundStart(cfg, w);
    CheckKeepsInv(cfg, w, env, from);
    CheckKeepsQueueInTable(cfg, w, env, from);
    HandedOverIsInTable(cfg, w1, env, eff, s, e);
  }

  lemma HandedOverIsInTable(cfg: Config, w: World, env: Env, from: nat, s: PendingSteps.Step, e: Event)
    requires Passed(cfg, w, env, from) && QueueInTable(w.store)
    requires s in w.store.queue && HandsOver(s, SweepEnvOf(cfg, w, env)) && e in s.events
    ensures OnChain(cfg, env.chain, e) && w.store.finalized.Some? && e.blockNumber <= w.store.finalized.value
  {
    EventQueued(w.store.queue, s, e);
    assert BelowCursor(w.store.rows, w.store.cursor)(e);
    MaxBlockBounds(s.events);
  }

  lemma EventQueued(q: Queue, s: PendingSteps.Step, e: Event)
    requires s in q && e in s.events
    ensures !NoEventQueued(q)
  {
    assert !NoEvent()(e);
  }
}
