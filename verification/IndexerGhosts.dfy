/**
 When a sweep hands over an event that left the chain: exactly when a batch within the bound
 carries a hash that is not canonical. Crash-free rounds never come there; of the crashes, the
 ones that leave a batch queued above the cursor do, and the one in the middle of a trim.
 */
module IndexerGhosts {
  import opened Prelude
  import opened Sorting
  import opened ChainEvents
  import opened EventSource
  import opened IdentityProjections
  import opened PendingSteps
  import opened PendingSweep
  import opened ProjectionStore
  import opened IndexerModel
  import opened IndexerAncestor
  import opened IndexerInvariant
  import opened IndexerCoverage
  import opened IndexerDelivery
  import Deliveries

  // ----- what every operation keeps of the queued events -----

  ghost predicate QueueAll(w: World, P: Event -> bool) { AllQueued(w.store.queue, P) }

  lemma TrimmedAll(q: Queue, n: nat, a: nat, P: Event -> bool)
    requires n <= |q| && AllQueued(q, P)
    ensures AllQueued(TrimPass(q, q[..n], a), P) && AllQueued(Trim(q, a), P)
  {
    TrimPassAddsNoEvent(q, n, a, P);
    TrimPassAddsNoEvent(q, |q|, a, P);
    assert q[..|q|] == q;
  }

  lemma CheckKeepsAll(cfg: Config, w: World, env: Env, from: nat, P: Event -> bool)
    requires QueueAll(w, P)
    ensures QueueAll(RollbackOnReorg(cfg, w, env, from).world, P)
  {
    TrimmedAllAnywhere(w.store.queue, P);
  }

  lemma TrimmedAllAnywhere(q: Queue, P: Event -> bool)
    requires AllQueued(q, P)
    ensures forall a: nat :: AllQueued(Trim(q, a), P)
  {
    forall a: nat ensures AllQueued(Trim(q, a), P) { TrimmedAll(q, |q|, a, P); }
  }

  lemma CrashedRollbackKeepsAll(cfg: Config, w: World, env: Env, from: nat, rows: nat, invalidated: bool, P: Event -> bool)
    requires QueueAll(w, P)
    ensures QueueAll(CrashedRollback(cfg, w, env, from, rows, invalidated), P)
  {
    var q, n := w.store.queue, Min(rows, |w.store.queue|);
    forall a: nat ensures AllQueued(TrimPass(q, q[..n], a), P) { TrimmedAll(q, n, a, P); }
  }

  lemma SweepKeepsAll(cfg: Config, w: World, env: Env, n: nat, P: Event -> bool)
    requires QueueAll(w, P) && n <= |w.store.queue|
    ensures QueueAll(SweptPartly(cfg, w, env, n), P)
  {
    SweepAddsNoEvent(w.store.queue, Begin(w.store.queue, w.handled, w.dead), n, SweepEnvOf(cfg, w, env), P);
  }

  lemma CursorKeepsAll(cfg: Config, w: World, c: Cursor, from: nat, env: Env, P: Event -> bool)
    requires QueueAll(w, P)
    ensures var v := SaveCursorAdvancingFrom(w, c, from).world;
      QueueAll(v, P) && QueueAll(Automated(cfg, v, env), P)
  {
    NotifiedEvents(cfg, SaveCursorAdvancingFrom(w, c, from).world, env, [], P);
  }

  lemma LaggingKeepsAll(cfg: Config, w: World, env: Env, from: nat, finalized: nat, P: Event -> bool)
    requires QueueAll(w, P)
    ensures QueueAll(Lagging(cfg, w, env, from, finalized).world, P)
  {
    if from <= |env.chain| {
      var c := Cursor(from, Reported(w, finalized), if from > 0 then Some(HashAt(env.chain, from - 1)) else None);
      CursorKeepsAll(cfg, w, c, from, env, P);
      var w1 := SaveCursorAdvancingFrom(w, c, from).world;
      NotifiedEvents(cfg, w1.(store := w1.store.(finalized := Some(Reported(w, finalized)))), env, [], P);
    }
  }

  lemma CrashedLaggingKeepsAll(w: World, env: Env, from: nat, finalized: nat, p: CrashPoint, P: Event -> bool)
    requires QueueAll(w, P)
    ensures QueueAll(CrashedLagging(w, env, from, finalized, p), P)
  {
  }

  lemma AfterAppendKeepsAll(cfg: Config, w: World, env: Env, from: nat, finalized: nat, reported: nat, active: seq<Event>,
                            p: CrashPoint, P: Event -> bool)
    requires QueueAll(w, P) && forall e :: e in active ==> P(e)
    ensures QueueAll(AfterAppend(cfg, w, env, from, finalized, reported, active).world, P)
    ensures QueueAll(CrashedAfterAppend(cfg, w, env, from, finalized, reported, active, p), P)
  {
    NotifiedEvents(cfg, w, env, active, P);
    if finalized < |env.chain| {
      CursorKeepsAll(cfg, Notified(cfg, w, env, active), ReadCursor(env, finalized, reported), from, env, P);
    }
  }

  lemma ContinueKeepsAll(cfg: Config, w: World, env: Env, from: nat, p: CrashPoint, P: Event -> bool)
    requires QueueAll(w, P) && WellFormedChain(env.chain) && forall e :: OnChain(cfg, env.chain, e) ==> P(e)
    ensures QueueAll(Continue(cfg, w, env, from).world, P)
    ensures var finalized := Finalized(cfg, env);
      QueueAll(if finalized < from then CrashedLagging(w, env, from, finalized, p)
               else CrashedAppending(cfg, w, env, from, finalized, p), P)
  {
    var finalized := Finalized(cfg, env);
    LaggingKeepsAll(cfg, w, env, from, finalized, P);
    CrashedLaggingKeepsAll(w, env, from, finalized, p, P);
    var events := ReadEvents(cfg, env.chain, from, finalized);
    ReadIsActive(cfg, env.chain, from, finalized);
    var f := EventsTransaction(w, env, from, events, Reported(w, finalized));
    AfterAppendKeepsAll(cfg, f.world, env, from, finalized, Reported(w, finalized), Active(events), p, P);
  }

  lemma CommitKeepsAll(cfg: Config, w: World, env: Env, finalized: nat, events: seq<Event>, p: CrashPoint, P: Event -> bool)
    requires QueueAll(w, P) && finalized < |env.chain| && forall e :: e in Active(events) ==> P(e)
    ensures QueueAll(CommitRebuild(cfg, w, env, finalized, events).world, P)
    ensures QueueAll(CrashedCommit(cfg, w, env, finalized, events, p), P)
  {
    NotifiedEvents(cfg, w, env, Active(events), P);
    if Replaceable(cfg, env, events) {
      var v := Replaced(cfg, w, events, ReadCursor(env, finalized, finalized));
      NotifiedEvents(cfg, v, env, Active(events), P);
      NotifiedEvents(cfg, NotificationSettled(cfg, v, env, Active(events)), env, [], P);
    }
  }

  lemma ReplacementKeepsAll(cfg: Config, w: World, env: Env, finalized: nat, p: CrashPoint, P: Event -> bool)
    requires QueueAll(w, P) && WellFormedChain(env.chain) && forall e :: OnChain(cfg, env.chain, e) ==> P(e)
    ensures finalized < |env.chain| ==>
      var events := ReadEvents(cfg, env.chain, cfg.deploymentBlock, finalized);
      QueueAll(CommitRebuild(cfg, PrePersisted(cfg, Marked(w, finalized), Active(events)), env, finalized, events).world, P)
    ensures QueueAll(CrashedReplacement(cfg, w, env, finalized, p), P)
  {
    var events := ReadEvents(cfg, env.chain, cfg.deploymentBlock, finalized);
    var w0 := Marked(w, finalized);
    ReadIsActive(cfg, env.chain, cfg.deploymentBlock, finalized);
    NotifiedEvents(cfg, w0, env, Active(events), P);
    if finalized < |env.chain| {
      CommitKeepsAll(cfg, PrePersisted(cfg, w0, Active(events)), env, finalized, events, p, P);
    }
  }

  lemma RebuildKeepsAll(cfg: Config, w: World, env: Env, p: CrashPoint, P: Event -> bool)
    requires QueueAll(w, P) && WellFormedChain(env.chain) && forall e :: OnChain(cfg, env.chain, e) ==> P(e)
    ensures QueueAll(Rebuild(cfg, w, env).world, P) && QueueAll(CrashedRebuild(cfg, w, env, p), P)
  {
    ReplacementKeepsAll(cfg, w, env, Finalized(cfg, env), p, P);
  }

  lemma RefreshKeepsAll(cfg: Config, w: World, env: Env, p: CrashPoint, P: Event -> bool)
    requires QueueAll(w, P) && WellFormedChain(env.chain) && forall e :: OnChain(cfg, env.chain, e) ==> P(e)
    ensures QueueAll(Refresh(cfg, w, env).world, P) && QueueAll(CrashedRefresh(cfg, w, env, p), P)
  {
    match CurrentCursor(w)
    case None => RebuildKeepsAll(cfg, w, env, p, P);
    case Some(c) =>
      var from := FromBlock(cfg, c);
      CheckKeepsAll(cfg, w, env, from, P);
      if p.InTrim? { CrashedRollbackKeepsAll(cfg, w, env, from, p.rows, p.invalidated, P); }
      var f := RollbackOnReorg(cfg, w, env, from);
      if f.Go? {
        SweepKeepsAll(cfg, f.world, env, |f.world.store.queue|, P);
        if p.InSweep? { SweepKeepsAll(cfg, f.world, env, Min(p.rows, |f.world.store.queue|), P); }
        ContinueKeepsAll(cfg, Swept(cfg, f.world, env), env, f.value, p, P);
      }
  }

  lemma StepKeepsAll(cfg: Config, w: World, op: Op, P: Event -> bool)
    requires QueueAll(w, P) && WellFormedChain(op.env.chain) && forall e :: OnChain(cfg, op.env.chain, e) ==> P(e)
    ensures QueueAll(Next(cfg, w, op), P)
  {
    match op
    case DoRefresh(env) => RefreshKeepsAll(cfg, w, env, AfterEvents, P);
    case DoRebuild(env) => RebuildKeepsAll(cfg, w, env, AfterEvents, P);
    case CrashInRefresh(env, p) => RefreshKeepsAll(cfg, w, env, p, P);
    case CrashInRebuild(env, p) => RebuildKeepsAll(cfg, w, env, p, P);
  }

  // ----- the exact condition -----

  /** The event is an event of the chain that its own block hash commits to. */
  ghost predicate Genuine(cfg: Config, e: Event)
  {
    e.blockHash.Some? && OnChain(cfg, ChainOf(e.blockHash.value), e)
  }

  lemma OnChainIsGenuine(cfg: Config, chain: Chain, e: Event)
    requires OnChain(cfg, chain, e)
    ensures Genuine(cfg, e)
  {
    ChainOfHash(chain, e.blockNumber);
    PrefixEvents(cfg, chain, e.blockNumber + 1, e);
  }

  /** Such an event is on a chain exactly if its hash is that chain's. */
  lemma GenuineIsCanonical(cfg: Config, chain: Chain, e: Event)
    requires Genuine(cfg, e)
    ensures OnChain(cfg, chain, e) <==> Canonical(chain, e)
  {
    if Canonical(chain, e) {
      OnChainTransfers(cfg, ChainOf(e.blockHash.value), chain, e.blockNumber, e);
    }
  }

  lemma {:induction false} QueuedAreGenuine(cfg: Config, ops: seq<Op>, states: seq<World>, n: nat)
    requires IsRun(cfg, ops, states) && OnGoodChains(ops) && n <= |ops|
    ensures QueueAll(states[n], (e: Event) => Genuine(cfg, e))
  {
    if n > 0 {
      QueuedAreGenuine(cfg, ops, states, n - 1);
      var op := ops[n - 1];
      forall e | OnChain(cfg, op.env.chain, e) ensures Genuine(cfg, e) { OnChainIsGenuine(cfg, op.env.chain, e); }
      StepKeepsAll(cfg, states[n - 1], op, (e: Event) => Genuine(cfg, e));
    }
  }

  /** What a sweep from this state hands to the processor. */
  ghost predicate HandedOver(cfg: Config, w: World, env: Env, e: Event)
  {
    exists s :: s in w.store.queue && HandsOver(s, SweepEnvOf(cfg, w, env)) && e in s.events
  }

  /**
   After any run at all, crashes and rebuilds included: the sweep of the next round hands over
   nothing that left the chain if and only if every event of the batches within the bound
   carries a canonical hash; and nothing above the bound in any case.
   */
  lemma GhostFreeExactly(cfg: Config, ops: seq<Op>, states: seq<World>, env: Env, from: nat, w1: World, eff: nat)
    requires IsRun(cfg, ops, states) && OnGoodChains(ops)
    requires RollbackOnReorg(cfg, states[|ops|], env, from) == Go(w1, eff)
    ensures (forall e :: HandedOver(cfg, w1, env, e) ==> OnChain(cfg, env.chain, e)) <==>
            (forall e :: HandedOver(cfg, w1, env, e) ==> Canonical(env.chain, e))
    ensures forall e :: HandedOver(cfg, w1, env, e) && w1.store.finalized.Some? ==> e.blockNumber <= w1.store.finalized.value
  {
    var P := (e: Event) => Genuine(cfg, e);
    QueuedAreGenuine(cfg, ops, states, |ops|);
    CheckKeepsAll(cfg, states[|ops|], env, from, P);
    forall e | HandedOver(cfg, w1, env, e)
      ensures OnChain(cfg, env.chain, e) <==> Canonical(env.chain, e)
      ensures w1.store.finalized.Some? ==> e.blockNumber <= w1.store.finalized.value
    {
      var s :| s in w1.store.queue && HandsOver(s, SweepEnvOf(cfg, w1, env)) && e in s.events;
      assert P(e);
      GenuineIsCanonical(cfg, env.chain, e);
      MaxBlockBounds(s.events);
    }
  }
}
