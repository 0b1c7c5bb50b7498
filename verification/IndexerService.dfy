/**
 The indexer service: its fields, its transactions on the store and its loops, each method
 proved equal to the function of IndexerModel of the same step.
 */
module IndexerService {
  import opened Prelude
  import opened Sorting
  import opened ChainEvents
  import opened EventSource
  import opened IdentityProjections
  import opened PendingSteps
  import opened PendingSweep
  import opened ProjectionStore
  import opened IndexerModel
  import Deliveries

  datatype Checked = Continues(from: nat) | Throws(fault: Fault)

  class IndexerService {
    const cfg: Config
    const store: SqliteProjectionStore
    const source: ViemChainEventSource
    const notifications: Deliveries.NotificationLedger
    var cursor: Option<Cursor>
    var consecutiveCursorCasFailures: nat
    ghost var handled: set<Key>
    ghost var dead: set<Key>

    ghost function View(): World reads this, store, notifications
    {
      World(store.View(), cursor, consecutiveCursorCasFailures, handled, dead, notifications.deliveries)
    }

    ghost predicate Wired() { source.cfg == cfg }

    constructor (cfg: Config, store: SqliteProjectionStore, source: ViemChainEventSource,
                 notifications: Deliveries.NotificationLedger)
      requires source.cfg == cfg
      ensures Wired() && View() == World(store.View(), None, 0, {}, {}, notifications.deliveries)
      ensures this.cfg == cfg && this.store == store && this.source == source && this.notifications == notifications
    {
      this.cfg, this.store, this.source, this.notifications := cfg, store, source, notifications;
      cursor, consecutiveCursorCasFailures, handled, dead := None, 0, {}, {};
    }

    // ----- the check before an append -----

    method RollbackOnReorg(env: Env, from: nat) returns (r: Checked)
      modifies this, store, notifications
      ensures var f := IndexerModel.RollbackOnReorg(cfg, old(View()), env, from);
        View() == f.world && r == if f.Go? then Continues(f.value) else Throws(f.fault)
    {
      var storedCursor := store.cursor;
      if storedCursor.None? || storedCursor.value.hash.None? || from < cfg.deploymentBlock + 1 {
        return Continues(from);
      }
      if from > |env.chain| {
        return Throws(SourceFault);
      }
      if storedCursor.value.hash == Some(HashAt(env.chain, from - 1)) {
        return Continues(from);
      }
      r := RollbackToCommonAncestor(env, from);
    }

    method FindAncestor(env: Env, from: nat) returns (found: Search)
      ensures found == IndexerModel.FindAncestor(cfg, store.rows, env.chain, from)
    {
      var candidates := Anchors(store.rows, BacktrackFloor(cfg, from), from);
      var seenBlocks: set<nat> := {};
      var i := 0;
      while i < |candidates|
        invariant 0 <= i <= |candidates|
        invariant FirstUnseen(candidates, env.chain, {}) == FirstUnseen(candidates[i..], env.chain, seenBlocks)
      {
        var event := candidates[i];
        assert candidates[i..][1..] == candidates[i + 1..];
        i := i + 1;
        if event.blockNumber in seenBlocks {
          continue;
        }
        if Canonical(env.chain, event) {
          return Found(event);
        }
        seenBlocks := seenBlocks + {event.blockNumber};
      }
      var anchors := Anchors(store.rows, cfg.deploymentBlock, from);
      i := 0;
      while i < |anchors|
        invariant 0 <= i <= |anchors|
        invariant FirstCanonical(anchors, env.chain) == FirstCanonical(anchors[i..], env.chain)
      {
        assert anchors[i..][1..] == anchors[i + 1..];
        if Canonical(env.chain, anchors[i]) {
          return Found(anchors[i]);
        }
        i := i + 1;
      }
      if |anchors| > 0 {
        return NoneCanonical;
      }
      var hasStoredEvents := exists e :: e in store.rows && !e.removed;
      found := if hasStoredEvents then Hashless else NoEvents;
    }

    method RollbackToCommonAncestor(env: Env, from: nat) returns (r: Checked)
      modifies this, store, notifications
      ensures var f := IndexerModel.RollbackToCommonAncestor(cfg, old(View()), env, from);
        View() == f.world && r == if f.Go? then Continues(f.value) else Throws(f.fault)
    {
      var found := FindAncestor(env, from);
      match found {
        case NoneCanonical => return Throws(ReorgTooDeep);
        case Hashless => return Throws(NoBlockHashes);
        case NoEvents => return Continues(from);
        case Found(anchor) => r := ApplyReorgRollback(env, from, anchor);
      }
    }

    /** Replays the stored events and saves both snapshots; on a fault nothing is saved. */
    method RebuildSnapshots(env: Env) returns (fault: Option<Fault>)
      modifies store`order, store`identity
      ensures fault == ReplayOutcome(env, store.rows)
      ensures fault.None? ==>
        store.order == Active(Listed(store.rows)) && Ok(store.identity) == RebuildIdentity(Listed(store.rows))
    {
      var events := Listed(store.rows);
      var replay := BuildActiveChainEventReplaySummary(events);
      if !env.replays(replay.activeEvents) {
        return Some(ReplayFault);
      }
      var identitySnapshot := RebuildIdentityProjections(events);
      if identitySnapshot.Err? {
        return Some(IdentityFault);
      }
      store.SaveSnapshots(replay.activeEvents, identitySnapshot.value);
      fault := None;
    }

    /** The transaction deletes, rebuilds and moves the cursor, or throws and leaves the store as it was. */
    method ApplyReorgRollback(env: Env, from: nat, anchor: Event) returns (r: Checked)
      requires IndexerModel.FindAncestor(cfg, store.rows, env.chain, from) == Found(anchor)
      modifies this, store, notifications
      ensures var f := IndexerModel.RollbackToCommonAncestor(cfg, old(View()), env, from);
        View() == f.world && r == if f.Go? then Continues(f.value) else Throws(f.fault)
    {
      var fault, written := RollbackTransaction(env, from, anchor);
      if fault.Some? {
        return Throws(fault.value);
      }
      if !written {
        r := DeferToDurableCursor(from);
        return;
      }
      LinkAfterRollback(anchor.blockNumber);
      r := Continues(AnchorCursor(cfg, anchor).next);
    }

    method RollbackTransaction(env: Env, from: nat, anchor: Event) returns (fault: Option<Fault>, written: bool)
      modifies this, store
      ensures var f := IndexerModel.RollbackTransaction(cfg, old(View()), env, from, anchor);
        View() == f.world && if f.Go? then fault.None? && written == f.value else fault == Some(f.fault)
    {
      ghost var w := View();
      var saved := store.View();
      var _ := store.DeleteEventsAfterBlock(anchor.blockNumber);
      ghost var rows := store.rows;
      fault := RebuildSnapshots(env);
      assert store.rows == rows && rows == RowsUpTo(w.store.rows, anchor.blockNumber);
      if fault.Some? {
        store.Restore(saved);
        return fault, false;
      }
      ghost var order, identity := store.order, store.identity;
      written := MoveCursorBack(saved, from, anchor);
      assert IndexerModel.RollbackTransaction(cfg, w, env, from, anchor) == CommitRollback(cfg, w, from, anchor, rows, order, identity);
    }

    /** The second half of the transaction: sync state and cursor, or everything as it was saved. */
    method MoveCursorBack(saved: Store, from: nat, anchor: Event) returns (written: bool)
      requires saved.cursor == store.cursor && saved.queue == store.queue
      modifies this, store
      ensures var f := CommitRollback(cfg, old(View()).(store := saved), from, anchor, old(store.rows), old(store.order), old(store.identity));
        f.Go? && View() == f.world && written == f.value
    {
      store.SaveSyncState(anchor.blockNumber);
      var c := AnchorCursor(cfg, anchor);
      written := store.SaveCursor(c, Some(from));
      if !written {
        store.Restore(saved);
        return;
      }
      consecutiveCursorCasFailures := 0;
      cursor := Some(c);
      handled, dead := KeysBelow(handled, anchor.blockNumber), KeysBelow(dead, anchor.blockNumber);
    }

    method LinkAfterRollback(ancestorBlock: nat)
      modifies store`queue, notifications
      ensures View() == Linked(cfg, old(View()), ancestorBlock)
    {
      if cfg.hasProcessor {
        var _ := notifications.InvalidateDeliveriesAboveBlock(cfg.chainId, ancestorBlock);
      }
      TrimPendingPostCommitStepsAfterReorg(ancestorBlock);
    }

    method DeferToDurableCursor(from: nat) returns (r: Checked)
      modifies this
      ensures var f := Deferred(cfg, old(View()), from);
        View() == f.world && r == if f.Go? then Continues(f.value) else Throws(f.fault)
    {
      var current := store.cursor;
      consecutiveCursorCasFailures := consecutiveCursorCasFailures + 1;
      if consecutiveCursorCasFailures >= CURSOR_CAS_FAILURE_LIMIT {
        return Throws(SecondWriter);
      }
      match current {
        case None => return Continues(from);
        case Some(c) =>
          var next := if c.next > cfg.deploymentBlock then c.next else cfg.deploymentBlock;
          cursor := Some(c.(next := next));
          return Continues(next);
      }
    }

    method TrimPendingPostCommitStepsAfterReorg(ancestorBlock: nat)
      modifies store`queue
      ensures store.queue == Trim(old(store.queue), ancestorBlock)
    {
      var pendingSteps := store.queue;
      var i := 0;
      while i < |pendingSteps|
        invariant 0 <= i <= |pendingSteps|
        invariant store.queue == TrimPass(pendingSteps, pendingSteps[..i], ancestorBlock)
      {
        var step := pendingSteps[i];
        assert pendingSteps[..i + 1][..i] == pendingSteps[..i];
        i := i + 1;
        if step.id.AutomationId? || |step.events| == 0 {
          continue;
        }
        var surviving := EventsUpTo(step.events, ancestorBlock);
        if |surviving| == |step.events| {
          continue;
        }
        store.DeletePendingPostCommitStep(step.id);
        if |surviving| > 0 {
          store.SavePendingPostCommitStep(PendingPostCommitStepId(surviving), surviving);
        }
      }
      assert pendingSteps[..i] == pendingSteps;
    }

    // ----- the sweep -----

    method SweepPendingPostCommitSteps(env: Env) returns (summary: SweepSummary)
      modifies this`handled, this`dead, store`queue
      ensures View() == Swept(cfg, old(View()), env)
      ensures summary.swept == |old(store.queue)|
      ensures summary.swept == summary.delivered + summary.failed + summary.waitingFinality
    {
      ghost var w := View();
      ghost var sweepEnv := SweepEnvOf(cfg, w, env);
      ghost var start := Begin(w.store.queue, handled, dead);
      var pendingSteps := store.queue;
      summary := SweepSummary(0, 0, 0, 0);
      var i := 0;
      while i < |pendingSteps|
        invariant 0 <= i <= |pendingSteps|
        invariant SweepState(store.queue, handled, dead, summary) == SweepFrom(start, pendingSteps[..i], sweepEnv)
        invariant View() == w.(store := w.store.(queue := store.queue), handled := handled, dead := dead)
      {
        assert pendingSteps[..i + 1][..i] == pendingSteps[..i];
        summary := SweepOne(pendingSteps[i], env, summary);
        i := i + 1;
      }
      assert pendingSteps[..i] == pendingSteps;
      SweepConserves(start, pendingSteps, sweepEnv);
    }

    /** One listed step: delivered steps leave the queue, failed ones count an attempt until the budget is spent. */
    method SweepOne(step: PendingSteps.Step, env: Env, start: SweepSummary) returns (summary: SweepSummary)
      modifies this`handled, this`dead, store`queue
      ensures SweepState(store.queue, handled, dead, summary)
           == SweepStep(old(SweepState(store.queue, handled, dead, start)), step, SweepEnvOf(cfg, old(View()), env))
      ensures View() == old(View()).(store := old(View()).store.(queue := store.queue), handled := handled, dead := dead)
    {
      summary := start.(swept := start.swept + 1);
      var outcome := DeliverPendingPostCommitStep(step, env);
      match outcome {
        case Delivered =>
          store.DeletePendingPostCommitStep(step.id);
          handled := handled + KeySet(step.events);
          summary := summary.(delivered := summary.delivered + 1);
        case WaitingFinality =>
          summary := summary.(waitingFinality := summary.waitingFinality + 1);
        case Failed =>
          summary := summary.(failed := summary.failed + 1);
          if step.attempts + 1 >= PENDING_POST_COMMIT_MAX_SWEEP_ATTEMPTS {
            store.DeletePendingPostCommitStep(step.id);
            dead := dead + KeySet(step.events);
          } else {
            store.RecordPendingPostCommitAttempt(step.id);
          }
      }
    }

    method DeliverPendingPostCommitStep(step: PendingSteps.Step, env: Env) returns (outcome: Attempted)
      ensures outcome == Deliver(step, SweepEnvOf(cfg, View(), env))
    {
      if step.id.SignalsId? {
        if !cfg.hasProcessor || |step.events| == 0 {
          return Failed;
        }
        if store.finalized.Some? && MaxBlock(step.events) > store.finalized.value {
          return WaitingFinality;
        }
        return if env.delivers(step.id) then Delivered else Failed;
      }
      outcome := if cfg.hasAutomation && env.delivers(step.id) then Delivered else Failed;
    }

    // ----- after a commit -----

    /** Up to three attempts; on exhaustion the step goes to the durable queue. */
    method RunPostCommitStepWithBoundedRetry(id: StepId, events: seq<Event>, attempt: nat -> bool) returns (delivered: bool)
      modifies store`queue
      ensures delivered == Returned(attempt, POST_COMMIT_STEP_MAX_ATTEMPTS)
      ensures View() == if delivered then old(View()) else Persisted(old(View()), id, events)
    {
      var n := 0;
      while n < POST_COMMIT_STEP_MAX_ATTEMPTS
        invariant 0 <= n <= POST_COMMIT_STEP_MAX_ATTEMPTS
        invariant !Returned(attempt, n)
        invariant View() == old(View())
      {
        if attempt(n) {
          ReturnedStays(attempt, n + 1, POST_COMMIT_STEP_MAX_ATTEMPTS);
          return true;
        }
        n := n + 1;
      }
      store.SavePendingPostCommitStep(id, events);
      store.RecordPendingPostCommitAttempt(id);
      delivered := false;
    }

    method ProcessSignalNotifications(env: Env, events: seq<Event>)
      modifies this`handled, store`queue
      ensures View() == Notified(cfg, old(View()), env, events)
    {
      if !cfg.hasProcessor || |events| == 0 {
        return;
      }
      var delivered := RunPostCommitStepWithBoundedRetry(PendingPostCommitStepId(events), events, env.notified);
      if delivered {
        handled := handled + KeySet(events);
      }
    }

    method ProcessProjectionAutomation(env: Env)
      modifies store`queue
      ensures View() == Automated(cfg, old(View()), env)
    {
      if cfg.hasAutomation {
        var _ := RunPostCommitStepWithBoundedRetry(AutomationId, [], env.automated);
      }
    }

    // ----- the incremental round -----

    method SaveCursorAdvancingFrom(c: Cursor, expectNextBlock: nat) returns (fault: Option<Fault>)
      modifies this`cursor, this`consecutiveCursorCasFailures, store`cursor
      ensures var f := IndexerModel.SaveCursorAdvancingFrom(old(View()), c, expectNextBlock);
        View() == f.world && fault == if f.Go? then None else Some(f.fault)
    {
      var saved := store.SaveCursor(c, Some(expectNextBlock));
      if !saved {
        cursor := store.cursor;
        consecutiveCursorCasFailures := consecutiveCursorCasFailures + 1;
        if consecutiveCursorCasFailures >= CURSOR_CAS_FAILURE_LIMIT {
          return Some(SecondWriter);
        }
        return None;
      }
      consecutiveCursorCasFailures := 0;
      cursor := Some(c);
      fault := None;
    }

    method AppendTransaction(env: Env, from: nat, events: seq<Event>, reported: nat) returns (fault: Option<Fault>)
      modifies store
      ensures var f := EventsTransaction(old(View()), env, from, events, reported);
        View() == f.world && fault == if f.Go? then None else Some(f.fault)
    {
      ghost var w := View();
      var saved := store.View();
      if from > 0 {
        if store.cursor.Some? && store.cursor.value.next == from {
          var _ := store.DeleteEventsAfterBlock(from - 1);
        }
      }
      store.AppendEvents(events);
      ghost var rows := store.rows;
      assert rows == CommittedRows(w, from, events);
      fault := RebuildSnapshots(env);
      assert store.rows == rows;
      if fault.Some? {
        store.Restore(saved);
        return;
      }
      store.SaveSyncState(reported);
    }

    method GetFinalizedBlock(env: Env) returns (finalized: nat)
      ensures finalized == Finalized(cfg, env)
    {
      var latest := if |env.chain| == 0 then 0 else |env.chain| - 1;
      finalized := FinalizedBlock(latest, cfg.finalityConfirmations);
      if env.target.Some? && env.target.value < finalized { finalized := env.target.value; }
    }

    method RefreshFromCursor(env: Env) returns (fault: Option<Fault>)
      requires Wired()
      modifies this, store, source, notifications
      ensures var f := Refresh(cfg, old(View()), env);
        View() == f.world && fault == if f.Go? then None else Some(f.fault)
    {
      var finalized := GetFinalizedBlock(env);
      var current := if cursor.Some? then cursor else store.cursor;
      if current.None? {
        fault := RebuildFromDeploymentBlock(env);
        return;
      }
      var from := if current.value.next > cfg.deploymentBlock then current.value.next else cfg.deploymentBlock;
      var checked := RollbackOnReorg(env, from);
      if checked.Throws? {
        return Some(checked.fault);
      }
      var _ := SweepPendingPostCommitSteps(env);
      var reported := Max(finalized, Max(BoundOf(store.cursor), BoundOf(cursor)));
      if finalized < checked.from {
        fault := ConfirmCursor(env, checked.from, reported, finalized);
      } else {
        fault := AppendFrom(env, checked.from, reported, finalized);
      }
    }

    method ConfirmCursor(env: Env, from: nat, reported: nat, finalized: nat) returns (fault: Option<Fault>)
      requires reported == Reported(View(), finalized)
      modifies this, store
      ensures var f := Lagging(cfg, old(View()), env, from, finalized);
        View() == f.world && fault == if f.Go? then None else Some(f.fault)
    {
      if from > |env.chain| {
        return Some(SourceFault);
      }
      var hash := if from > 0 then Some(HashAt(env.chain, from - 1)) else None;
      fault := SaveCursorAdvancingFrom(Cursor(from, reported, hash), from);
      if fault.Some? {
        return;
      }
      store.SaveSyncState(reported);
      ProcessProjectionAutomation(env);
    }

    method AppendFrom(env: Env, from: nat, reported: nat, finalized: nat) returns (fault: Option<Fault>)
      requires Wired() && reported == Reported(View(), finalized)
      modifies this, store, source
      ensures var f := Appending(cfg, old(View()), env, from, finalized);
        View() == f.world && fault == if f.Go? then None else Some(f.fault)
    {
      var events := source.Read(env.chain, from, finalized);
      var replay := BuildActiveChainEventReplaySummary(events);
      fault := AppendTransaction(env, from, events, reported);
      if fault.Some? {
        return;
      }
      ProcessSignalNotifications(env, replay.activeEvents);
      if finalized >= |env.chain| {
        return Some(SourceFault);
      }
      var next := ReadCursor(env, finalized, reported);
      fault := SaveCursorAdvancingFrom(next, from);
      if fault.Some? {
        return;
      }
      ProcessProjectionAutomation(env);
    }

    // ----- the rebuild -----

    method RebuildFromDeploymentBlock(env: Env) returns (fault: Option<Fault>)
      requires Wired()
      modifies this, store, source
      ensures var f := Rebuild(cfg, old(View()), env);
        View() == f.world && fault == if f.Go? then None else Some(f.fault)
    {
      var finalized := GetFinalizedBlock(env);
      if finalized < cfg.deploymentBlock {
        fault := ResetCursor(env, finalized);
        return;
      }
      ghost var w := View();
      store.SaveSyncState(finalized);
      var events := source.Read(env.chain, cfg.deploymentBlock, finalized);
      var replay := BuildActiveChainEventReplaySummary(events);
      var identitySnapshot := RebuildIdentityProjections(events);
      if identitySnapshot.Err? {
        store.SaveSyncState(finalized);
        return Some(IdentityFault);
      }
      if finalized >= |env.chain| {
        store.SaveSyncState(finalized);
        return Some(SourceFault);
      }
      assert View() == Marked(w, finalized);
      fault := ReplaceProjections(env, finalized, events, replay.activeEvents);
    }

    method ResetCursor(env: Env, finalized: nat) returns (fault: Option<Fault>)
      modifies this, store
      ensures var f := EmptyRebuild(cfg, old(View()), env, finalized);
        View() == f.world && fault == if f.Go? then None else Some(f.fault)
    {
      if cfg.deploymentBlock > |env.chain| {
        return Some(SourceFault);
      }
      var hash := if cfg.deploymentBlock > 0 then Some(HashAt(env.chain, cfg.deploymentBlock - 1)) else None;
      var c := Cursor(cfg.deploymentBlock, finalized, hash);
      var _ := store.SaveCursor(c, None);
      cursor := Some(c);
      store.SaveSyncState(finalized);
      fault := None;
    }

    /** The step is queued before the commit; an abort withdraws it and marks the store degraded. */
    method ReplaceProjections(env: Env, finalized: nat, events: seq<Event>, active: seq<Event>) returns (fault: Option<Fault>)
      requires finalized < |env.chain| && active == Active(events) && store.finalized == Some(finalized)
      modifies this, store
      ensures var f := CommitRebuild(cfg, PrePersisted(cfg, old(View()), active), env, finalized, events);
        View() == f.world && fault == if f.Go? then None else Some(f.fault)
    {
      PrePersistRebuildNotificationStep(active);
      ghost var w := View();
      var c := ReadCursor(env, finalized, finalized);
      var committed := store.ResetFromEvents(cfg.deploymentBlock, events, c, env.replays);
      if !committed {
        assert View() == w && !Replaceable(cfg, env, events);
        DropPendingPostCommitStep(active);
        store.SaveSyncState(finalized);
        return Some(ReplayFault);
      }
      handled, dead := {}, {};
      assert Replaceable(cfg, env, events) && View() == Replaced(cfg, w, events, c);
      FinishRebuild(env, active, c);
      fault := None;
    }

    method PrePersistRebuildNotificationStep(active: seq<Event>)
      modifies store`queue
      ensures View() == PrePersisted(cfg, old(View()), active)
    {
      if cfg.hasProcessor && |active| > 0 {
        store.SavePendingPostCommitStep(PendingPostCommitStepId(active), active);
      }
    }

    method DropPendingPostCommitStep(active: seq<Event>)
      modifies store`queue
      ensures View() == Withdrawn(cfg, old(View()), active)
    {
      if cfg.hasProcessor && |active| > 0 {
        store.DeletePendingPostCommitStep(PendingPostCommitStepId(active));
      }
    }

    method FinishRebuild(env: Env, active: seq<Event>, c: Cursor)
      modifies this`handled, this`cursor, store`queue
      ensures View() == Automated(cfg, NotificationSettled(cfg, old(View()), env, active), env).(memory := Some(c))
    {
      NotifyAndWithdraw(env, active);
      ProcessProjectionAutomation(env);
      cursor := Some(c);
    }

    method NotifyAndWithdraw(env: Env, active: seq<Event>)
      modifies this`handled, store`queue
      ensures View() == NotificationSettled(cfg, old(View()), env, active)
    {
      if cfg.hasProcessor && |active| > 0 {
        var stepId := PendingPostCommitStepId(active);
        var delivered := RunPostCommitStepWithBoundedRetry(stepId, active, env.notified);
        if delivered {
          handled := handled + KeySet(active);
          store.DeletePendingPostCommitStep(stepId);
        }
      }
    }
  }

  lemma {:induction false} ReturnedStays(attempt: nat -> bool, m: nat, n: nat)
    requires m <= n && Returned(attempt, m)
    ensures Returned(attempt, n)
  {
    if m < n { ReturnedStays(attempt, m, n - 1); }
  }
}
