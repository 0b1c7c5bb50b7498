/**
 No event below the cursor is forgotten: whatever crashes happen, it was taken by a processor
 call that returned, or sits in a queued step, or was given up after the sweep's budget.
 */
module IndexerAtLeastOnce {
  import opened Prelude
  import opened Sorting
  import opened ChainEvents
  import opened EventSource
  import opened IdentityProjections
  import opened PendingSteps
  import opened PendingSweep
  import opened ProjectionStore
  import opened IndexerModel
  import opened IndexerAncestor
  import opened IndexerInvariant
  import opened IndexerCoverage
  import opened IndexerDelivery
  import Deliveries

  ghost predicate AccountedFor(w: World, k: Key)
  {
    KeyQueued(w.store.queue, k) || k in w.handled || k in w.dead
  }

  /** Every row below the cursor was taken by a processor call, or is queued, or was given up by the sweep. */
  ghost predicate NothingForgotten(w: World)
  {
    forall e :: e in w.store.rows && w.store.cursor.Some? && e.blockNumber < w.store.cursor.value.next ==>
      AccountedFor(w, ChainEventKey(e))
  }

  /** Sub-steps after which everything accounted for still is. */
  ghost predicate Remembers(w: World, v: World)
  {
    forall k :: AccountedFor(w, k) ==> AccountedFor(v, k)
  }

  lemma SavedRemembers(w: World, id: StepId, events: seq<Event>)
    ensures Remembers(w, Saved(w, id, events)) && Remembers(w, Persisted(w, id, events))
    ensures id.SignalsId? ==> forall k :: k in id.keys ==>
      AccountedFor(Saved(w, id, events), k) && AccountedFor(Persisted(w, id, events), k)
  {
    var q := w.store.queue;
    forall i ensures Look(q, i).Some? ==> Look(SaveStep(q, id, events), i).Some? && Look(RecordAttempt(SaveStep(q, id, events), id), i).Some? {
      LookAfterSave(q, id, events, i);
      LookAfterRecord(SaveStep(q, id, events), id, i);
    }
    LookAfterSave(q, id, events, id);
    LookAfterRecord(SaveStep(q, id, events), id, id);
    forall k | AccountedFor(w, k) ensures AccountedFor(Saved(w, id, events), k) && AccountedFor(Persisted(w, id, events), k) {
      if KeyQueued(q, k) {
        var i :| Look(q, i).Some? && i.SignalsId? && k in i.keys;
      }
    }
  }

  lemma KeysOfMembers(events: seq<Event>, e: Event)
    requires e in events
    ensures ChainEventKey(e) in KeysOf(events) && ChainEventKey(e) in KeySet(events)
  {
    var i :| 0 <= i < |events| && events[i] == e;
    assert KeysOf(events)[i] == ChainEventKey(e);
  }

  /** A batch that was notified is accounted for, one way or the other. */
  lemma NotifiedRemembers(cfg: Config, w: World, env: Env, events: seq<Event>)
    ensures Remembers(w, Notified(cfg, w, env, events)) && Remembers(w, PrePersisted(cfg, w, events))
    ensures Remembers(w, Automated(cfg, w, env))
    ensures cfg.hasProcessor ==> forall e :: e in events ==>
      AccountedFor(Notified(cfg, w, env, events), ChainEventKey(e)) && AccountedFor(PrePersisted(cfg, w, events), ChainEventKey(e))
  {
    SavedRemembers(w, PendingPostCommitStepId(events), events);
    SavedRemembers(w, AutomationId, []);
    forall e | e in events ensures ChainEventKey(e) in KeysOf(events) && ChainEventKey(e) in KeySet(events) {
      KeysOfMembers(events, e);
    }
  }

  /** Withdrawing a step forgets the keys of that step alone. */
  lemma WithdrawnForgetsOnly(cfg: Config, w: World, active: seq<Event>, k: Key)
    requires AccountedFor(w, k) && (k in KeySet(active) ==> k in w.handled)
    ensures AccountedFor(Withdrawn(cfg, w, active), k)
  {
    if KeyQueued(w.store.queue, k) {
      var id :| Look(w.store.queue, id).Some? && id.SignalsId? && k in id.keys;
      LookAfterDrop(w.store.queue, PendingPostCommitStepId(active), id);
    }
  }

  lemma SettledRemembers(cfg: Config, w: World, env: Env, active: seq<Event>)
    ensures Remembers(w, NotificationSettled(cfg, w, env, active))
  {
    NotifiedRemembers(cfg, w, env, active);
    var told := Notified(cfg, w, env, active);
    if HasNotification(cfg, active) && Returned(env.notified, POST_COMMIT_STEP_MAX_ATTEMPTS) {
      forall k | AccountedFor(w, k) ensures AccountedFor(Withdrawn(cfg, told, active), k) {
        WithdrawnForgetsOnly(cfg, told, active, k);
      }
    }
  }

  lemma SweptRemembers(cfg: Config, w: World, env: Env, n: nat)
    requires ValidQueue(w.store.queue) && n <= |w.store.queue|
    ensures Remembers(w, SweptPartly(cfg, w, env, n))
  {
    forall k | AccountedFor(w, k) ensures AccountedFor(SweptPartly(cfg, w, env, n), k) {
      SweepLosesNoKey(w.store.queue, w.handled, w.dead, n, SweepEnvOf(cfg, w, env), k);
    }
  }

  /** After a rollback to block a, the keys up to a are still accounted for, however far the trim got. */
  lemma RollbackRemembers(cfg: Config, w: World, env: Env, from: nat, anchor: Event, n: nat, k: Key)
    requires ValidQueue(w.store.queue) && n <= |w.store.queue|
    requires AccountedFor(w, k) && k.blockNumber <= anchor.blockNumber
    requires RollbackTransaction(cfg, w, env, from, anchor).Go?
    ensures var w1 := RollbackTransaction(cfg, w, env, from, anchor).world;
      AccountedFor(w1.(store := w1.store.(queue := TrimPass(w1.store.queue, w1.store.queue[..n], anchor.blockNumber))), k)
  {
    TrimKeys(w.store.queue, n, anchor.blockNumber, k);
  }

  // ----- a round -----

  /** A rollback, with its trim stopped after n rows. */
  lemma RollbackForgetsNothing(cfg: Config, w: World, env: Env, from: nat, anchor: Event, n: nat)
    requires Inv(cfg, w) && NothingForgotten(w) && WellFormedChain(env.chain)
    requires w.store.cursor.Some? && w.store.cursor.value.next == from
    requires CanonicalAnchor(cfg, w.store.rows, env.chain, from, anchor)
    requires RollbackTransaction(cfg, w, env, from, anchor).Go? && n <= |w.store.queue|
    ensures var w1 := RollbackTransaction(cfg, w, env, from, anchor).world;
      && w1.store.queue == w.store.queue
      && NothingForgotten(w1.(store := w1.store.(queue := TrimPass(w1.store.queue, w1.store.queue[..n], anchor.blockNumber))))
  {
    RollbackKeepsInv(cfg, w, env, from, anchor);
    var w1 := RollbackTransaction(cfg, w, env, from, anchor).world;
    var v := w1.(store := w1.store.(queue := TrimPass(w1.store.queue, w1.store.queue[..n], anchor.blockNumber)));
    RowsUpToMembers(w.store.rows, anchor.blockNumber);
    forall e | e in v.store.rows ensures AccountedFor(v, ChainEventKey(e)) {
      RollbackRemembers(cfg, w, env, from, anchor, n, ChainEventKey(e));
    }
  }

  lemma LedgerIsNoMemory(w: World, ledger: Deliveries.Ledger)
    ensures NothingForgotten(w) <==> NothingForgotten(w.(ledger := ledger))
  {
    assert forall k :: AccountedFor(w, k) <==> AccountedFor(w.(ledger := ledger), k);
  }

  lemma CheckForgetsNothing(cfg: Config, w: World, env: Env, from: nat)
    requires Inv(cfg, w) && NothingForgotten(w) && WellFormedChain(env.chain)
    requires w.store.cursor.Some? && w.store.cursor.value.next == from
    ensures NothingForgotten(RollbackOnReorg(cfg, w, env, from).world)
  {
    CheckKeepsInv(cfg, w, env, from);
    if !Unchecked(cfg, w, from) && from <= |env.chain| && !HashMatches(w, env, from) {
      AncestorFoundExactly(cfg, w.store.rows, env.chain, from);
      var r := FindAncestor(cfg, w.store.rows, env.chain, from);
      if r.Found? { LinkedForgetsNothing(cfg, w, env, from, r.anchor); }
    }
  }

  lemma LinkedForgetsNothing(cfg: Config, w: World, env: Env, from: nat, anchor: Event)
    requires Inv(cfg, w) && NothingForgotten(w) && WellFormedChain(env.chain)
    requires w.store.cursor.Some? && w.store.cursor.value.next == from
    requires CanonicalAnchor(cfg, w.store.rows, env.chain, from, anchor)
    ensures match RollbackTransaction(cfg, w, env, from, anchor)
            case Stop(w1, _) => w1 == w
            case Go(w1, written) => written && NothingForgotten(Linked(cfg, w1, anchor.blockNumber))
  {
    TransactionShape(cfg, w, env, from, anchor);
    if RollbackTransaction(cfg, w, env, from, anchor).Go? {
      RollbackForgetsNothing(cfg, w, env, from, anchor, |w.store.queue|);
      LinkedIsTrimmed(cfg, RollbackTransaction(cfg, w, env, from, anchor).world, anchor.blockNumber);
    }
  }

  lemma LinkedIsTrimmed(cfg: Config, w: World, a: nat)
    ensures NothingForgotten(w.(store := w.store.(queue := TrimPass(w.store.queue, w.store.queue[..|w.store.queue|], a)))) <==>
            NothingForgotten(Linked(cfg, w, a))
  {
    var q := w.store.queue;
    assert q[..|q|] == q;
    LedgerIsNoMemory(w.(store := w.store.(queue := Trim(q, a))), Linked(cfg, w, a).ledger);
  }

  lemma SweptForgetsNothing(cfg: Config, w: World, env: Env, n: nat)
    requires Inv(cfg, w) && NothingForgotten(w) && n <= |w.store.queue|
    ensures NothingForgotten(SweptPartly(cfg, w, env, n))
  {
    SweptRemembers(cfg, w, env, n);
  }

  /** Everything the processor should learn of rows below n is accounted for. */
  ghost predicate AccountedBelow(w: World, n: nat)
  {
    forall e :: e in w.store.rows && e.blockNumber < n ==> AccountedFor(w, ChainEventKey(e))
  }

  /** The states of an append: nothing below the old cursor is forgotten, and once notified nothing below the new one. */
  lemma AppendForgetsNothing(cfg: Config, w: World, env: Env, from: nat, finalized: nat)
    requires Passed(cfg, w, env, from) && NothingForgotten(w) && WellFormedChain(env.chain) && cfg.hasProcessor
    requires EventsTransaction(w, env, from, ReadEvents(cfg, env.chain, from, finalized), Reported(w, finalized)).Go?
    ensures var events := ReadEvents(cfg, env.chain, from, finalized);
      var w1 := EventsTransaction(w, env, from, events, Reported(w, finalized)).world;
      && AccountedBelow(w1, from)
      && AccountedBelow(PrePersisted(cfg, w1, Active(events)), from)
      && AccountedBelow(Notified(cfg, w1, env, Active(events)), finalized + 1)
  {
    var reported := Reported(w, finalized);
    var events := ReadEvents(cfg, env.chain, from, finalized);
    AppendKeepsInv(cfg, w, env, from, finalized, reported);
    var w1 := EventsTransaction(w, env, from, events, reported).world;
    assert forall k :: AccountedFor(w, k) ==> AccountedFor(w1, k);
    NotifiedRemembers(cfg, w1, env, Active(events));
    ReadIsActive(cfg, env.chain, from, finalized);
  }

  /** The states between the two ends of an append. */
  lemma AppendStagesForgetNothing(cfg: Config, w: World, env: Env, from: nat, finalized: nat)
    requires Passed(cfg, w, env, from) && NothingForgotten(w) && WellFormedChain(env.chain) && cfg.hasProcessor
    requires from <= finalized
    requires EventsTransaction(w, env, from, ReadEvents(cfg, env.chain, from, finalized), Reported(w, finalized)).Go?
    ensures var events := ReadEvents(cfg, env.chain, from, finalized);
      var w1 := EventsTransaction(w, env, from, events, Reported(w, finalized)).world;
      var w2 := Notified(cfg, w1, env, Active(events));
      && NothingForgotten(w1) && NothingForgotten(PrePersisted(cfg, w1, Active(events))) && NothingForgotten(w2)
      && (finalized < |env.chain| ==>
            var c := ReadCursor(env, finalized, Reported(w, finalized));
            var f := SaveCursorAdvancingFrom(w2, c, from);
            f.Go? && NothingForgotten(f.world) && NothingForgotten(Automated(cfg, f.world, env)))
  {
    var reported := Reported(w, finalized);
    var events := ReadEvents(cfg, env.chain, from, finalized);
    AppendForgetsNothing(cfg, w, env, from, finalized);
    AppendKeepsInv(cfg, w, env, from, finalized, reported);
    var w1 := EventsTransaction(w, env, from, events, reported).world;
    NotificationOnlyQueue(cfg, w1, env, Active(events));
    var w2 := Notified(cfg, w1, env, Active(events));
    if finalized < |env.chain| {
      AdvanceForgetsNothing(cfg, w2, env, from, ReadCursor(env, finalized, reported));
    }
  }

  lemma AppendingForgetsNothing(cfg: Config, w: World, env: Env, from: nat, finalized: nat)
    requires Passed(cfg, w, env, from) && NothingForgotten(w) && WellFormedChain(env.chain) && cfg.hasProcessor
    requires from <= finalized
    ensures NothingForgotten(Appending(cfg, w, env, from, finalized).world)
  {
    if EventsTransaction(w, env, from, ReadEvents(cfg, env.chain, from, finalized), Reported(w, finalized)).Go? {
      AppendStagesForgetNothing(cfg, w, env, from, finalized);
    }
  }

  lemma CrashedAppendingForgetsNothing(cfg: Config, w: World, env: Env, from: nat, finalized: nat, p: CrashPoint)
    requires Passed(cfg, w, env, from) && NothingForgotten(w) && WellFormedChain(env.chain) && cfg.hasProcessor
    requires from <= finalized
    ensures NothingForgotten(CrashedAppending(cfg, w, env, from, finalized, p))
  {
    if EventsTransaction(w, env, from, ReadEvents(cfg, env.chain, from, finalized), Reported(w, finalized)).Go? {
      AppendStagesForgetNothing(cfg, w, env, from, finalized);
    }
  }

  lemma AdvanceForgetsNothing(cfg: Config, w: World, env: Env, from: nat, c: Cursor)
    requires AccountedBelow(w, c.next) && w.store.cursor.Some? && w.store.cursor.value.next == from
    ensures var f := SaveCursorAdvancingFrom(w, c, from);
      f.Go? && NothingForgotten(f.world) && NothingForgotten(Automated(cfg, f.world, env))
  {
    var w1 := SaveCursorAdvancingFrom(w, c, from).world;
    assert forall k :: AccountedFor(w, k) ==> AccountedFor(w1, k);
    NotifiedRemembers(cfg, w1, env, []);
    NotificationOnlyQueue(cfg, w1, env, []);
  }

  lemma LaggingForgetsNothing(cfg: Config, w: World, env: Env, from: nat, finalized: nat)
    requires Passed(cfg, w, env, from) && NothingForgotten(w) && WellFormedChain(env.chain)
    ensures NothingForgotten(Lagging(cfg, w, env, from, finalized).world)
    ensures forall p :: NothingForgotten(CrashedLagging(w, env, from, finalized, p))
  {
    var reported := Reported(w, finalized);
    if from <= |env.chain| {
      var c := Cursor(from, reported, Some(HashAt(env.chain, from - 1)));
      AdvanceForgetsNothing(cfg, w, env, from, c);
      var w1 := SaveCursorAdvancingFrom(w, c, from).world;
      var w2 := w1.(store := w1.store.(finalized := Some(reported)));
      assert forall k :: AccountedFor(w1, k) ==> AccountedFor(w2, k);
      NotifiedRemembers(cfg, w2, env, []);
      NotificationOnlyQueue(cfg, w2, env, []);
    }
  }

  // ----- a rebuild -----

  /** An abort before the commit withdraws a step that was in the queue before the rebuild began. */
  ghost predicate WithdrawsQueued(cfg: Config, w: World, env: Env)
  {
    var finalized := Finalized(cfg, env);
    var events := ReadEvents(cfg, env.chain, cfg.deploymentBlock, finalized);
    && cfg.deploymentBlock <= finalized < |env.chain|
    && RebuildIdentity(events).Ok? && !Replaceable(cfg, env, events)
    && HasNotification(cfg, Active(events))
    && Look(w.store.queue, PendingPostCommitStepId(Active(events))).Some?
  }

  /** The row under an id after an abort. */
  lemma AbortedRow(cfg: Config, w: World, active: seq<Event>, i: StepId)
    ensures var q := Withdrawn(cfg, PrePersisted(cfg, w, active), active).store.queue;
      Look(q, i) == if HasNotification(cfg, active) && i == PendingPostCommitStepId(active) then None else Look(w.store.queue, i)
  {
    var id := PendingPostCommitStepId(active);
    LookAfterSave(w.store.queue, id, active, i);
    LookAfterDrop(SaveStep(w.store.queue, id, active), id, i);
  }

  /** Exactly then does an aborted rebuild change the queue: a row that was there before is gone. */
  lemma AbortLosesExactly(cfg: Config, w: World, env: Env)
    requires Rebuild(cfg, w, env).Stop? && Rebuild(cfg, w, env).fault == ReplayFault
    ensures var q := Rebuild(cfg, w, env).world.store.queue;
      && (WithdrawsQueued(cfg, w, env) <==> exists id :: Look(q, id) != Look(w.store.queue, id))
      && (WithdrawsQueued(cfg, w, env) <==> exists id :: Look(w.store.queue, id).Some? && Look(q, id).None?)
  {
    var finalized := Finalized(cfg, env);
    var active := Active(ReadEvents(cfg, env.chain, cfg.deploymentBlock, finalized));
    var w0 := Marked(w, finalized);
    var q := Withdrawn(cfg, PrePersisted(cfg, w0, active), active).store.queue;
    assert Rebuild(cfg, w, env).world.store.queue == q;
    AbortedRow(cfg, w0, active, PendingPostCommitStepId(active));
    forall i ensures Look(q, i) != Look(w.store.queue, i) ==> HasNotification(cfg, active) && i == PendingPostCommitStepId(active) {
      AbortedRow(cfg, w0, active, i);
    }
  }

  lemma PrePersistQueues(cfg: Config, w: World, events: seq<Event>, e: Event)
    requires e in events && cfg.hasProcessor
    ensures KeyQueued(PrePersisted(cfg, w, events).store.queue, ChainEventKey(e))
  {
    var id := PendingPostCommitStepId(events);
    KeysOfMembers(events, e);
    LookAfterSave(w.store.queue, id, events, id);
  }

  /** A committed rebuild, after its commit and after the steps that follow it. */
  lemma CommitForgetsNothing(cfg: Config, w: World, env: Env, finalized: nat)
    requires Inv(cfg, w) && WellFormedChain(env.chain) && cfg.deploymentBlock <= finalized < |env.chain| && cfg.hasProcessor
    requires RebuildIdentity(ReadEvents(cfg, env.chain, cfg.deploymentBlock, finalized)).Ok?
    ensures var events := ReadEvents(cfg, env.chain, cfg.deploymentBlock, finalized);
      var w1 := PrePersisted(cfg, w, Active(events));
      && RowsFrom(events, cfg.deploymentBlock) == events
      && var v := Replaced(cfg, w1, events, ReadCursor(env, finalized, finalized));
         var settled := NotificationSettled(cfg, v, env, Active(events));
         NothingForgotten(v) && NothingForgotten(settled) && NothingForgotten(Automated(cfg, settled, env))
  {
    var events := ReadEvents(cfg, env.chain, cfg.deploymentBlock, finalized);
    var active := Active(events);
    NotificationOnlyQueue(cfg, w, env, active);
    var w1 := PrePersisted(cfg, w, active);
    OnlyQueueKeepsInv(cfg, w, w1);
    ReplacedIsCanonical(cfg, w1, env, finalized);
    ReadIsActive(cfg, env.chain, cfg.deploymentBlock, finalized);
    var v := Replaced(cfg, w1, events, ReadCursor(env, finalized, finalized));
    forall e | e in v.store.rows ensures AccountedFor(v, ChainEventKey(e)) {
      PrePersistQueues(cfg, w, active, e);
    }
    SettlingForgetsNothing(cfg, v, env, active);
  }

  lemma SettlingForgetsNothing(cfg: Config, v: World, env: Env, active: seq<Event>)
    requires NothingForgotten(v)
    ensures var settled := NotificationSettled(cfg, v, env, active);
      NothingForgotten(settled) && NothingForgotten(Automated(cfg, settled, env))
  {
    var settled := NotificationSettled(cfg, v, env, active);
    SettledRemembers(cfg, v, env, active);
    NotificationOnlyQueue(cfg, v, env, active);
    NotifiedRemembers(cfg, settled, env, []);
    NotificationOnlyQueue(cfg, settled, env, []);
  }

  /** The key is in a queued batch other than this one. */
  ghost predicate QueuedElsewhere(q: Queue, id: StepId, k: Key)
  {
    exists i :: i != id && Look(q, i).Some? && i.SignalsId? && k in i.keys
  }

  /** The key of a row below the cursor for which only the step with this id accounts. */
  ghost predicate OnlyIn(w: World, id: StepId, e: Event)
  {
    && e in w.store.rows && w.store.cursor.Some? && e.blockNumber < w.store.cursor.value.next
    && id.SignalsId? && ChainEventKey(e) in id.keys
    && ChainEventKey(e) !in w.handled && ChainEventKey(e) !in w.dead && !QueuedElsewhere(w.store.queue, id, ChainEventKey(e))
  }

  /** What an abort would withdraw is all that accounts for some row. */
  ghost predicate Forgets(cfg: Config, w: World, active: seq<Event>)
  {
    var id := PendingPostCommitStepId(active);
    HasNotification(cfg, active) && Look(w.store.queue, id).Some? && exists e :: OnlyIn(w, id, e)
  }

  /** The abort forgets a row exactly then. */
  lemma WithdrawalForgetsExactly(cfg: Config, w: World, active: seq<Event>)
    requires NothingForgotten(w)
    ensures NothingForgotten(Withdrawn(cfg, PrePersisted(cfg, w, active), active)) <==> !Forgets(cfg, w, active)
  {
    var id := PendingPostCommitStepId(active);
    var v := Withdrawn(cfg, PrePersisted(cfg, w, active), active);
    PrePersistedOnlyQueue(cfg, w, active);
    WithdrawnOnlyQueue(cfg, PrePersisted(cfg, w, active), active);
    if HasNotification(cfg, active) {
      forall e | e in w.store.rows && w.store.cursor.Some? && e.blockNumber < w.store.cursor.value.next
        ensures AccountedFor(v, ChainEventKey(e)) <==> !(Look(w.store.queue, id).Some? && OnlyIn(w, id, e))
      {
        WithdrawnKey(cfg, w, active, e);
      }
    }
  }

  lemma WithdrawnKey(cfg: Config, w: World, active: seq<Event>, e: Event)
    requires HasNotification(cfg, active) && AccountedFor(w, ChainEventKey(e))
    requires e in w.store.rows && w.store.cursor.Some? && e.blockNumber < w.store.cursor.value.next
    ensures var id := PendingPostCommitStepId(active);
      AccountedFor(Withdrawn(cfg, PrePersisted(cfg, w, active), active), ChainEventKey(e)) <==>
        !(Look(w.store.queue, id).Some? && OnlyIn(w, id, e))
  {
    var id, k := PendingPostCommitStepId(active), ChainEventKey(e);
    var v := Withdrawn(cfg, PrePersisted(cfg, w, active), active);
    forall i ensures Look(v.store.queue, i) == if i == id then None else Look(w.store.queue, i) {
      AbortedRow(cfg, w, active, i);
    }
    if KeyQueued(w.store.queue, k) {
      var i :| Look(w.store.queue, i).Some? && i.SignalsId? && k in i.keys;
      assert i != id ==> Look(v.store.queue, i).Some?;
    }
    if QueuedElsewhere(w.store.queue, id, k) {
      var i :| i != id && Look(w.store.queue, i).Some? && i.SignalsId? && k in i.keys;
      assert Look(v.store.queue, i).Some?;
    }
    if KeyQueued(v.store.queue, k) {
      var i :| Look(v.store.queue, i).Some? && i.SignalsId? && k in i.keys;
      assert i != id && Look(w.store.queue, i).Some?;
    }
  }

  /** What may be withdrawn without a loss. */
  ghost predicate MayAbort(cfg: Config, w: World, env: Env)
  {
    var finalized := Finalized(cfg, env);
    var events := ReadEvents(cfg, env.chain, cfg.deploymentBlock, finalized);
    cfg.deploymentBlock <= finalized < |env.chain| && RebuildIdentity(events).Ok? && !Replaceable(cfg, env, events) ==>
      !Forgets(cfg, w, Active(events))
  }

  lemma MarkRemembers(w: World, finalized: nat)
    ensures NothingForgotten(w) <==> NothingForgotten(Marked(w, finalized))
  {
    assert forall k :: AccountedFor(w, k) <==> AccountedFor(Marked(w, finalized), k);
  }

  lemma PrePersistForgetsNothing(cfg: Config, w: World, env: Env, active: seq<Event>)
    requires NothingForgotten(w)
    ensures NothingForgotten(PrePersisted(cfg, w, active))
  {
    PrePersistedOnlyQueue(cfg, w, active);
    NotifiedRemembers(cfg, w, env, active);
  }

  lemma MarkForgets(cfg: Config, w: World, finalized: nat, active: seq<Event>)
    ensures Forgets(cfg, Marked(w, finalized), active) <==> Forgets(cfg, w, active)
  {
    var id, v := PendingPostCommitStepId(active), Marked(w, finalized);
    assert forall e :: OnlyIn(v, id, e) <==> OnlyIn(w, id, e);
  }

  lemma CursorResetForgetsNothing(cfg: Config, w: World, env: Env, finalized: nat)
    requires Inv(cfg, w) && NothingForgotten(w)
    ensures NothingForgotten(CursorReset(cfg, w, env, finalized).world)
    ensures NothingForgotten(EmptyRebuild(cfg, w, env, finalized).world)
  {
    MarkRemembers(CursorReset(cfg, w, env, finalized).world, finalized);
  }

  lemma CommitRebuildForgetsNothing(cfg: Config, w: World, env: Env, finalized: nat)
    requires Inv(cfg, w) && WellFormedChain(env.chain) && cfg.deploymentBlock <= finalized < |env.chain| && cfg.hasProcessor
    requires RebuildIdentity(ReadEvents(cfg, env.chain, cfg.deploymentBlock, finalized)).Ok?
    ensures var events := ReadEvents(cfg, env.chain, cfg.deploymentBlock, finalized);
      var f := CommitRebuild(cfg, PrePersisted(cfg, w, Active(events)), env, finalized, events);
      if f.Go? then NothingForgotten(f.world) else f.world == Withdrawn(cfg, PrePersisted(cfg, w, Active(events)), Active(events))
  {
    CommitForgetsNothing(cfg, w, env, finalized);
    var events := ReadEvents(cfg, env.chain, cfg.deploymentBlock, finalized);
    var f := CommitRebuild(cfg, PrePersisted(cfg, w, Active(events)), env, finalized, events);
    MemoryIsNoMemory(f.world, None);
    var v := Replaced(cfg, PrePersisted(cfg, w, Active(events)), events, ReadCursor(env, finalized, finalized));
    MemoryIsNoMemory(Automated(cfg, NotificationSettled(cfg, v, env, Active(events)), env), None);
  }

  /** A rebuild forgets a row exactly if it aborts with a step that is all that accounts for one. */
  lemma RebuildForgetsExactly(cfg: Config, w: World, env: Env)
    requires Inv(cfg, w) && NothingForgotten(w) && WellFormedChain(env.chain) && cfg.hasProcessor
    ensures NothingForgotten(Rebuild(cfg, w, env).world) <==> MayAbort(cfg, w, env)
  {
    var finalized := Finalized(cfg, env);
    if finalized < cfg.deploymentBlock {
      CursorResetForgetsNothing(cfg, w, env, finalized);
    } else {
      var events := ReadEvents(cfg, env.chain, cfg.deploymentBlock, finalized);
      var w0 := Marked(w, finalized);
      MarkRemembers(w, finalized);
      MarkForgets(cfg, w, finalized, Active(events));
      if RebuildIdentity(events).Ok? && finalized < |env.chain| {
        WithdrawalForgetsExactly(cfg, w0, Active(events));
        CommitRebuildForgetsNothing(cfg, w0, env, finalized);
      }
    }
  }

  lemma MemoryIsNoMemory(w: World, m: Option<Cursor>)
    ensures NothingForgotten(w) <==> NothingForgotten(w.(memory := m))
    ensures NothingForgotten(w) <==> NothingForgotten(Lost(w))
  {
    assert forall k :: AccountedFor(w, k) <==> AccountedFor(w.(memory := m), k);
    assert forall k :: AccountedFor(w, k) <==> AccountedFor(Lost(w), k);
  }

  predicate BeforeAbort(p: CrashPoint) { p.AfterMark? || p.AfterPrePersist? }

  lemma CrashedCommitForgetsExactly(cfg: Config, w: World, env: Env, finalized: nat, p: CrashPoint)
    requires Inv(cfg, w) && NothingForgotten(w) && WellFormedChain(env.chain) && cfg.hasProcessor
    requires cfg.deploymentBlock <= finalized < |env.chain| && !p.AfterMark?
    requires RebuildIdentity(ReadEvents(cfg, env.chain, cfg.deploymentBlock, finalized)).Ok?
    ensures var events := ReadEvents(cfg, env.chain, cfg.deploymentBlock, finalized);
      NothingForgotten(CrashedCommit(cfg, PrePersisted(cfg, w, Active(events)), env, finalized, events, p)) <==>
        p.AfterPrePersist? || Replaceable(cfg, env, events) || !Forgets(cfg, w, Active(events))
  {
    var events := ReadEvents(cfg, env.chain, cfg.deploymentBlock, finalized);
    CommitForgetsNothing(cfg, w, env, finalized);
    PrePersistForgetsNothing(cfg, w, env, Active(events));
    WithdrawalForgetsExactly(cfg, w, Active(events));
  }

  lemma CrashedReplacementForgetsExactly(cfg: Config, w: World, env: Env, finalized: nat, p: CrashPoint)
    requires Inv(cfg, w) && NothingForgotten(w) && WellFormedChain(env.chain) && cfg.hasProcessor
    requires cfg.deploymentBlock <= finalized == Finalized(cfg, env)
    ensures NothingForgotten(CrashedReplacement(cfg, w, env, finalized, p)) <==> BeforeAbort(p) || MayAbort(cfg, w, env)
  {
    var events := ReadEvents(cfg, env.chain, cfg.deploymentBlock, finalized);
    var w0 := Marked(w, finalized);
    MarkRemembers(w, finalized);
    MarkForgets(cfg, w, finalized, Active(events));
    if RebuildIdentity(events).Ok? && finalized < |env.chain| && !p.AfterMark? {
      CrashedCommitForgetsExactly(cfg, w0, env, finalized, p);
    }
  }

  lemma CrashedRebuildForgetsExactly(cfg: Config, w: World, env: Env, p: CrashPoint)
    requires Inv(cfg, w) && NothingForgotten(w) && WellFormedChain(env.chain) && cfg.hasProcessor
    ensures NothingForgotten(CrashedRebuild(cfg, w, env, p)) <==> BeforeAbort(p) || MayAbort(cfg, w, env)
  {
    var finalized := Finalized(cfg, env);
    if finalized < cfg.deploymentBlock {
      CursorResetForgetsNothing(cfg, w, env, finalized);
      MemoryIsNoMemory(CursorReset(cfg, w, env, finalized).world, None);
      MemoryIsNoMemory(w, None);
    } else {
      CrashedReplacementForgetsExactly(cfg, w, env, finalized, p);
      MemoryIsNoMemory(CrashedReplacement(cfg, w, env, finalized, p), None);
    }
  }

  /** A table without a cursor owes nothing yet. */
  lemma FirstRebuildMayAbort(cfg: Config, w: World, env: Env)
    requires w.store.cursor.None?
    ensures MayAbort(cfg, w, env)
  {
  }

  // ----- every run -----

  lemma RefreshForgetsNothing(cfg: Config, w: World, env: Env)
    requires Inv(cfg, w) && NothingForgotten(w) && WellFormedChain(env.chain) && cfg.hasProcessor
    ensures NothingForgotten(Refresh(cfg, w, env).world)
  {
    RoundStart(cfg, w);
    if w.store.cursor.None? {
      FirstRebuildMayAbort(cfg, w, env);
      RebuildForgetsExactly(cfg, w, env);
    } else {
      var from := w.store.cursor.value.next;
      CheckKeepsInv(cfg, w, env, from);
      CheckForgetsNothing(cfg, w, env, from);
      var f := RollbackOnReorg(cfg, w, env, from);
      if f.Go? {
        SweptPasses(cfg, f.world, env, f.value);
        SweptForgetsNothing(cfg, f.world, env, |f.world.store.queue|);
        if Finalized(cfg, env) < f.value {
          LaggingForgetsNothing(cfg, Swept(cfg, f.world, env), env, f.value, Finalized(cfg, env));
        } else {
          AppendingForgetsNothing(cfg, Swept(cfg, f.world, env), env, f.value, Finalized(cfg, env));
        }
      }
    }
  }

  lemma CrashedSweepForgetsNothing(cfg: Config, w: World, env: Env, rows: nat, handedOver: bool)
    requires Inv(cfg, w) && NothingForgotten(w)
    ensures NothingForgotten(CrashedSweep(cfg, w, env, rows, handedOver))
  {
    var n := Min(rows, |w.store.queue|);
    var w1 := SweptPartly(cfg, w, env, n);
    SweptForgetsNothing(cfg, w, env, n);
    assert forall k, more: set<Key> :: AccountedFor(w1, k) ==> AccountedFor(w1.(handled := w1.handled + more), k);
  }

  lemma CrashedRollbackForgetsNothing(cfg: Config, w: World, env: Env, from: nat, rows: nat, invalidated: bool)
    requires Inv(cfg, w) && NothingForgotten(w) && WellFormedChain(env.chain)
    requires w.store.cursor.Some? && w.store.cursor.value.next == from
    ensures NothingForgotten(CrashedRollback(cfg, w, env, from, rows, invalidated))
  {
    if !(Unchecked(cfg, w, from) || from > |env.chain| || HashMatches(w, env, from)) {
      AncestorFoundExactly(cfg, w.store.rows, env.chain, from);
      var r := FindAncestor(cfg, w.store.rows, env.chain, from);
      if r.Found? && RollbackTransaction(cfg, w, env, from, r.anchor).Go? {
        RollbackKeepsInv(cfg, w, env, from, r.anchor);
        var n := Min(rows, |w.store.queue|);
        RollbackForgetsNothing(cfg, w, env, from, r.anchor, n);
        var w1 := RollbackTransaction(cfg, w, env, from, r.anchor).world;
        LedgerIsNoMemory(w1.(store := w1.store.(queue := TrimPass(w1.store.queue, w1.store.queue[..n], r.anchor.blockNumber))),
                         CrashedRollback(cfg, w, env, from, rows, invalidated).ledger);
      }
    }
  }

  lemma CrashedContinueForgetsNothing(cfg: Config, w: World, env: Env, from: nat, p: CrashPoint)
    requires Passed(cfg, w, env, from) && NothingForgotten(w) && WellFormedChain(env.chain) && cfg.hasProcessor
    ensures var finalized := Finalized(cfg, env);
      && (p.InSweep? ==> NothingForgotten(CrashedSweep(cfg, w, env, p.rows, p.handedOver)))
      && (finalized < from ==> NothingForgotten(CrashedLagging(Swept(cfg, w, env), env, from, finalized, p)))
      && (from <= finalized ==> NothingForgotten(CrashedAppending(cfg, Swept(cfg, w, env), env, from, finalized, p)))
  {
    if p.InSweep? { CrashedSweepForgetsNothing(cfg, w, env, p.rows, p.handedOver); }
    SweptPasses(cfg, w, env, from);
    SweptForgetsNothing(cfg, w, env, |w.store.queue|);
    if Finalized(cfg, env) < from {
      LaggingForgetsNothing(cfg, Swept(cfg, w, env), env, from, Finalized(cfg, env));
    } else {
      CrashedAppendingForgetsNothing(cfg, Swept(cfg, w, env), env, from, Finalized(cfg, env), p);
    }
  }

  lemma CrashedRefreshForgetsNothing(cfg: Config, w: World, env: Env, p: CrashPoint)
    requires Inv(cfg, w) && NothingForgotten(w) && WellFormedChain(env.chain) && cfg.hasProcessor
    ensures NothingForgotten(CrashedRefresh(cfg, w, env, p))
  {
    RoundStart(cfg, w);
    forall v: World ensures NothingForgotten(v) <==> NothingForgotten(Lost(v)) { MemoryIsNoMemory(v, None); }
    if w.store.cursor.None? {
      FirstRebuildMayAbort(cfg, w, env);
      CrashedRebuildForgetsExactly(cfg, w, env, p);
    } else {
      var from := w.store.cursor.value.next;
      if p.InTrim? {
        CrashedRollbackForgetsNothing(cfg, w, env, from, p.rows, p.invalidated);
      } else {
        CheckKeepsInv(cfg, w, env, from);
        CheckForgetsNothing(cfg, w, env, from);
        var f := RollbackOnReorg(cfg, w, env, from);
        if f.Go? { CrashedContinueForgetsNothing(cfg, f.world, env, f.value, p); }
      }
    }
  }

  /** The rebuild aborts, and the step it withdraws is all that accounts for some row below the cursor. */
  ghost predicate LossyOp(cfg: Config, w: World, op: Op)
  {
    (op.DoRebuild? || (op.CrashInRebuild? && !BeforeAbort(op.point))) && !MayAbort(cfg, w, op.env)
  }

  lemma StepForgetsExactly(cfg: Config, w: World, op: Op)
    requires Inv(cfg, w) && NothingForgotten(w) && WellFormedChain(op.env.chain) && cfg.hasProcessor
    ensures NothingForgotten(Next(cfg, w, op)) <==> !LossyOp(cfg, w, op)
  {
    match op
    case DoRefresh(env) => RefreshForgetsNothing(cfg, w, env);
    case DoRebuild(env) => RebuildForgetsExactly(cfg, w, env);
    case CrashInRefresh(env, p) => CrashedRefreshForgetsNothing(cfg, w, env, p);
    case CrashInRebuild(env, p) => CrashedRebuildForgetsExactly(cfg, w, env, p);
  }

  ghost predicate NeverLossy(cfg: Config, ops: seq<Op>, states: seq<World>, n: nat)
    requires n <= |ops| < |states|
  {
    forall i :: 0 <= i < n ==> !LossyOp(cfg, states[i], ops[i])
  }

  /**
   At least once. In every state reachable by rounds, rollbacks, rebuilds and crashes
   anywhere between their sub-steps, each event below the cursor was taken by a processor
   call that returned, or sits in a queued step, or was in a step given up after its budget.
   */
  lemma {:induction false} AtLeastOnce(cfg: Config, ops: seq<Op>, states: seq<World>, n: nat)
    requires cfg.hasProcessor && IsRun(cfg, ops, states) && OnGoodChains(ops) && n <= |ops| && NeverLossy(cfg, ops, states, n)
    ensures NothingForgotten(states[n])
  {
    if n > 0 {
      AtLeastOnce(cfg, ops, states, n - 1);
      EveryRunKeepsInv(cfg, ops, states, n - 1);
      StepForgetsExactly(cfg, states[n - 1], ops[n - 1]);
    }
  }

  /** The condition is exact: the first lossy operation of a run does forget an event. */
  lemma AtLeastOnceExactly(cfg: Config, ops: seq<Op>, states: seq<World>)
    requires cfg.hasProcessor && IsRun(cfg, ops, states) && OnGoodChains(ops)
    ensures (forall n :: 0 <= n <= |ops| ==> NothingForgotten(states[n])) <==> NeverLossy(cfg, ops, states, |ops|)
  {
    if NeverLossy(cfg, ops, states, |ops|) {
      forall n | 0 <= n <= |ops| ensures NothingForgotten(states[n]) { AtLeastOnce(cfg, ops, states, n); }
    } else {
      var i :| 0 <= i < |ops| && LossyOp(cfg, states[i], ops[i]);
      EveryRunKeepsInv(cfg, ops, states, i);
      if NothingForgotten(states[i]) {
        StepForgetsExactly(cfg, states[i], ops[i]);
        assert !NothingForgotten(states[i + 1]);
      }
    }
  }
}
