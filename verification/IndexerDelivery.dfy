/** Crash-free rounds never hand over an event that left the chain or is not yet final. */
module IndexerDelivery {
  import opened Prelude
  import opened Sorting
  import opened ChainEvents
  import opened EventSource
  import opened IdentityProjections
  import opened PendingSteps
  import opened PendingSweep
  import opened ProjectionStore
  import opened IndexerModel
  import opened IndexerAncestor
  import opened IndexerInvariant
  import opened IndexerCoverage
  import Deliveries

  ghost function BelowCursor(rows: seq<Event>, cursor: Option<Cursor>): Event -> bool
  {
    (e: Event) => cursor.Some? && e in rows && e.blockNumber < cursor.value.next
  }

  ghost function NoEvent(): Event -> bool { (e: Event) => false }

  ghost predicate NoEventQueued(q: Queue) { AllQueued(q, NoEvent()) }

  /** Every queued event is a row below the cursor, and there is a finality bound to hold it against. */
  ghost predicate QueueInTable(s: Store)
  {
    && AllQueued(s.queue, BelowCursor(s.rows, s.cursor))
    && (s.finalized.Some? || NoEventQueued(s.queue))
  }

  lemma AllQueuedWeaker(q: Queue, P: Event -> bool, R: Event -> bool)
    requires AllQueued(q, P) && forall e :: P(e) ==> R(e)
    ensures AllQueued(q, R)
  {
  }

  lemma TrimmedInTable(rows: seq<Event>, q: Queue, c: Option<Cursor>, a: nat, d: Option<Cursor>)
    requires ValidQueue(q) && AllQueued(q, BelowCursor(rows, c)) && d.Some? && d.value.next == a + 1
    ensures AllQueued(Trim(q, a), BelowCursor(RowsUpTo(rows, a), d))
  {
    assert q[..|q|] == q;
    TrimPassAddsNoEvent(q, |q|, a, BelowCursor(rows, c));
    TrimmedEventsAreWithin(q, a);
    RowsUpToMembers(rows, a);
    forall s, e | s in Trim(q, a) && e in s.events ensures BelowCursor(RowsUpTo(rows, a), d)(e) {
      assert BelowCursor(rows, c)(e);
    }
  }

  lemma RollbackKeepsQueueInTable(cfg: Config, w: World, env: Env, from: nat, anchor: Event)
    requires Inv(cfg, w) && QueueInTable(w.store)
    requires w.store.cursor.Some? && w.store.cursor.value.next == from
    requires CanonicalAnchor(cfg, w.store.rows, env.chain, from, anchor)
    ensures var f := RollbackTransaction(cfg, w, env, from, anchor);
      f.Go? ==> QueueInTable(Linked(cfg, f.world, anchor.blockNumber).store)
  {
    var f := RollbackTransaction(cfg, w, env, from, anchor);
    if f.Go? {
      var a := anchor.blockNumber;
      TrimmedInTable(w.store.rows, w.store.queue, w.store.cursor, a, f.world.store.cursor);
    }
  }

  lemma CheckKeepsQueueInTable(cfg: Config, w: World, env: Env, from: nat)
    requires Inv(cfg, w) && QueueInTable(w.store) && WellFormedChain(env.chain)
    requires w.store.cursor.Some? && w.store.cursor.value.next == from
    ensures QueueInTable(RollbackOnReorg(cfg, w, env, from).world.store)
  {
    CheckKeepsInv(cfg, w, env, from);
    if !Unchecked(cfg, w, from) && from <= |env.chain| && !HashMatches(w, env, from) {
      AncestorFoundExactly(cfg, w.store.rows, env.chain, from);
      var r := FindAncestor(cfg, w.store.rows, env.chain, from);
      if r.Found? {
        RollbackKeepsQueueInTable(cfg, w, env, from, r.anchor);
        RollbackKeepsInv(cfg, w, env, from, r.anchor);
      }
    }
  }

  lemma SweepKeepsQueueInTable(cfg: Config, w: World, env: Env)
    requires QueueInTable(w.store)
    ensures QueueInTable(Swept(cfg, w, env).store)
  {
    var q := w.store.queue;
    SweepAddsNoEvent(q, Begin(q, w.handled, w.dead), |q|, SweepEnvOf(cfg, w, env),
                     BelowCursor(w.store.rows, w.store.cursor));
    if NoEventQueued(q) {
      SweepAddsNoEvent(q, Begin(q, w.handled, w.dead), |q|, SweepEnvOf(cfg, w, env), NoEvent());
    }
  }

  lemma PersistedEvents(w: World, id: StepId, events: seq<Event>, P: Event -> bool)
    requires AllQueued(w.store.queue, P) && forall e :: e in events ==> P(e)
    ensures AllQueued(Saved(w, id, events).store.queue, P) && AllQueued(Persisted(w, id, events).store.queue, P)
  {
    var saved := Saved(w, id, events).store.queue;
    RecordAttemptMembers(saved, id);
  }

  lemma NotifiedEvents(cfg: Config, w: World, env: Env, events: seq<Event>, P: Event -> bool)
    requires AllQueued(w.store.queue, P) && forall e :: e in events ==> P(e)
    ensures AllQueued(Notified(cfg, w, env, events).store.queue, P)
    ensures AllQueued(Automated(cfg, w, env).store.queue, P)
    ensures AllQueued(PrePersisted(cfg, w, events).store.queue, P)
    ensures AllQueued(Withdrawn(cfg, w, events).store.queue, P)
    ensures AllQueued(NotificationSettled(cfg, w, env, events).store.queue, P)
  {
    PersistedEvents(w, PendingPostCommitStepId(events), events, P);
    PersistedEvents(w, AutomationId, [], P);
    DropStepMembers(w.store.queue, PendingPostCommitStepId(events));
  }

  /** The events a round reads are the ones its replay activates. */
  lemma ReadIsActive(cfg: Config, chain: Chain, from: nat, to: nat)
    requires WellFormedChain(chain)
    ensures var events := ReadEvents(cfg, chain, from, to);
      forall e :: e in Active(events) <==> OnChain(cfg, chain, e) && from <= e.blockNumber <= to
  {
    var events := ReadEvents(cfg, chain, from, to);
    ReadEventsMembers(cfg, chain, from, to);
    ChainEventsAreOrderly(cfg, chain, events);
    ActiveOfSameEvents(events, events);
  }

  lemma AppendingKeepsQueueInTable(cfg: Config, w: World, env: Env, from: nat, finalized: nat)
    requires Passed(cfg, w, env, from) && QueueInTable(w.store) && WellFormedChain(env.chain)
    requires from <= finalized == Finalized(cfg, env)
    ensures QueueInTable(Appending(cfg, w, env, from, finalized).world.store)
  {
    var reported := Reported(w, finalized);
    var events := ReadEvents(cfg, env.chain, from, finalized);
    var f1 := EventsTransaction(w, env, from, events, reported);
    AppendKeepsInv(cfg, w, env, from, finalized, reported);
    if f1.Go? {
      ReadIsActive(cfg, env.chain, from, finalized);
      var rows := f1.world.store.rows;
      var P := BelowCursor(rows, Some(ReadCursor(env, finalized, reported)));
      AllQueuedWeaker(w.store.queue, BelowCursor(w.store.rows, w.store.cursor), P);
      NotifiedEvents(cfg, f1.world, env, Active(events), P);
      NotifiedPasses(cfg, f1.world, env, from, Active(events));
      AdvanceKeepsQueueInTable(cfg, Notified(cfg, f1.world, env, Active(events)), env, from,
                               ReadCursor(env, finalized, reported));
    }
  }

  lemma AdvanceKeepsQueueInTable(cfg: Config, w: World, env: Env, from: nat, c: Cursor)
    requires Passed(cfg, w, env, from) && WellFormedChain(env.chain) && w.store.finalized.Some?
    requires AllQueued(w.store.queue, BelowCursor(w.store.rows, Some(c)))
    ensures var w1 := SaveCursorAdvancingFrom(w, c, from).world;
      QueueInTable(w1.store) && QueueInTable(Automated(cfg, w1, env).store)
  {
    var w1 := SaveCursorAdvancingFrom(w, c, from).world;
    assert w1.store.cursor == Some(c);
    NotifiedEvents(cfg, w1, env, [], BelowCursor(w1.store.rows, w1.store.cursor));
  }

  lemma LaggingKeepsQueueInTable(cfg: Config, w: World, env: Env, from: nat, finalized: nat)
    requires Passed(cfg, w, env, from) && QueueInTable(w.store) && WellFormedChain(env.chain)
    ensures QueueInTable(Lagging(cfg, w, env, from, finalized).world.store)
  {
    var reported := Reported(w, finalized);
    if from <= |env.chain| {
      var c := Cursor(from, reported, Some(HashAt(env.chain, from - 1)));
      var w1 := SaveCursorAdvancingFrom(w, c, from).world;
      var w2 := w1.(store := w1.store.(finalized := Some(reported)));
      AllQueuedWeaker(w.store.queue, BelowCursor(w.store.rows, w.store.cursor), BelowCursor(w2.store.rows, w2.store.cursor));
      NotifiedEvents(cfg, w2, env, [], BelowCursor(w2.store.rows, w2.store.cursor));
    }
  }

  /** A rebuild on a table without a cursor queues nothing but rows, and an abort withdraws them. */
  lemma FirstRebuildKeepsQueueInTable(cfg: Config, w: World, env: Env)
    requires Inv(cfg, w) && QueueInTable(w.store) && w.store.cursor.None? && WellFormedChain(env.chain)
    ensures QueueInTable(Rebuild(cfg, w, env).world.store)
  {
    var finalized := Finalized(cfg, env);
    NoSignalsQueued(w.store);
    if cfg.deploymentBlock <= finalized {
      var events := ReadEvents(cfg, env.chain, cfg.deploymentBlock, finalized);
      var w1 := PrePersisted(cfg, Marked(w, finalized), Active(events));
      if RebuildIdentity(events).Ok? && finalized < |env.chain| {
        if Replaceable(cfg, env, events) {
          CommittedRebuildQueue(cfg, w, env, finalized);
        } else {
          AbortRestoresQueue(cfg, Marked(w, finalized), Active(events));
        }
      }
    }
  }

  lemma NoSignalsQueued(s: Store)
    requires s.cursor.None? && QueueInTable(s) && ValidQueue(s.queue)
    ensures forall t :: t in s.queue ==> t.id.AutomationId?
  {
    forall t | t in s.queue ensures t.id.AutomationId? {
      assert WellFormedStep(t);
      SomeMember(t.events);
      assert forall e :: e in t.events ==> BelowCursor(s.rows, s.cursor)(e);
    }
  }

  lemma AbortRestoresQueue(cfg: Config, w: World, active: seq<Event>)
    requires forall t :: t in w.store.queue ==> t.id.AutomationId?
    requires ValidQueue(w.store.queue)
    ensures var v := Withdrawn(cfg, PrePersisted(cfg, w, active), active);
      forall t :: t in v.store.queue ==> t in w.store.queue && t.events == []
  {
    DropStepMembers(PrePersisted(cfg, w, active).store.queue, PendingPostCommitStepId(active));
    forall t | t in w.store.queue ensures t.events == [] { assert WellFormedStep(t); }
  }

  lemma CommittedRebuildQueue(cfg: Config, w: World, env: Env, finalized: nat)
    requires Inv(cfg, w) && WellFormedChain(env.chain) && cfg.deploymentBlock <= finalized < |env.chain|
    requires forall t :: t in w.store.queue ==> t.id.AutomationId?
    requires RebuildIdentity(ReadEvents(cfg, env.chain, cfg.deploymentBlock, finalized)).Ok?
    ensures var events := ReadEvents(cfg, env.chain, cfg.deploymentBlock, finalized);
      && RowsFrom(events, cfg.deploymentBlock) == events
      && var w1 := PrePersisted(cfg, Marked(w, finalized), Active(events));
         var w2 := NotificationSettled(cfg, Replaced(cfg, w1, events, ReadCursor(env, finalized, finalized)), env, Active(events));
         QueueInTable(Automated(cfg, w2, env).store)
  {
    var events := ReadEvents(cfg, env.chain, cfg.deploymentBlock, finalized);
    BeforeCommitKeeps(cfg, w, env, finalized, Active(events));
    var w0 := Marked(w, finalized);
    var w1 := PrePersisted(cfg, w0, Active(events));
    ReplacedIsCanonical(cfg, w1, env, finalized);
    ReadIsActive(cfg, env.chain, cfg.deploymentBlock, finalized);
    var v := Replaced(cfg, w1, events, ReadCursor(env, finalized, finalized));
    forall t | t in w.store.queue ensures t.events == [] { assert WellFormedStep(t); }
    assert v.store.queue == w1.store.queue && v.store.finalized.Some?;
    SettledEvents(cfg, w0, v, env, Active(events), BelowCursor(v.store.rows, v.store.cursor));
    SettledQueueInTable(cfg, v, env, Active(events));
  }

  lemma SettledQueueInTable(cfg: Config, v: World, env: Env, active: seq<Event>)
    requires v.store.finalized.Some?
    requires AllQueued(Automated(cfg, NotificationSettled(cfg, v, env, active), env).store.queue, BelowCursor(v.store.rows, v.store.cursor))
    ensures QueueInTable(Automated(cfg, NotificationSettled(cfg, v, env, active), env).store)
  {
    NotificationOnlyQueue(cfg, v, env, active);
    NotificationOnlyQueue(cfg, NotificationSettled(cfg, v, env, active), env, active);
  }

  lemma SettledEvents(cfg: Config, w: World, v: World, env: Env, active: seq<Event>, P: Event -> bool)
    requires v.store.queue == PrePersisted(cfg, w, active).store.queue
    requires forall t :: t in w.store.queue ==> t.events == []
    requires forall e :: e in active ==> P(e)
    ensures AllQueued(Automated(cfg, NotificationSettled(cfg, v, env, active), env).store.queue, P)
  {
    NotifiedEvents(cfg, w, env, active, P);
    NotifiedEvents(cfg, v, env, active, P);
    NotifiedEvents(cfg, NotificationSettled(cfg, v, env, active), env, [], P);
  }

  lemma RefreshKeepsQueueInTable(cfg: Config, w: World, env: Env)
    requires Inv(cfg, w) && QueueInTable(w.store) && WellFormedChain(env.chain)
    ensures QueueInTable(Refresh(cfg, w, env).world.store)
  {
    RoundStart(cfg, w);
    if w.store.cursor.None? {
      FirstRebuildKeepsQueueInTable(cfg, w, env);
    } else {
      var from := w.store.cursor.value.next;
      CheckKeepsInv(cfg, w, env, from);
      CheckKeepsQueueInTable(cfg, w, env, from);
      var f := RollbackOnReorg(cfg, w, env, from);
      if f.Go? {
        SweptPasses(cfg, f.world, env, f.value);
        SweepKeepsQueueInTable(cfg, f.world, env);
        if Finalized(cfg, env) < f.value {
          LaggingKeepsQueueInTable(cfg, Swept(cfg, f.world, env), env, f.value, Finalized(cfg, env));
        } else {
          AppendingKeepsQueueInTable(cfg, Swept(cfg, f.world, env), env, f.value, Finalized(cfg, env));
        }
      }
    }
  }
}
