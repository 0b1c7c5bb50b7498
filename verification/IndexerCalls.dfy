/**
 The processor calls of a round that return: their batches are what the round adds to the
 handled keys, and all their events are final for the processor.
 */
module IndexerCalls {
  import opened Prelude
  import opened Sorting
  import opened ChainEvents
  import opened EventSource
  import opened IdentityProjections
  import opened PendingSteps
  import opened PendingSweep
  import opened ProjectionStore
  import opened IndexerModel
  import opened IndexerAncestor
  import opened IndexerInvariant
  import opened IndexerCoverage
  import opened IndexerDelivery
  import opened IndexerGhosts

  // ----- the calls that return -----

  /** A processor call that returned: its batch, and the finality bound it read from the store. */
  datatype Call = Call(events: seq<Event>, finalized: Option<nat>)

  function CallOf(s: PendingSteps.Step, env: SweepEnv): seq<Call>
  {
    if s.id.SignalsId? && Deliver(s, env) == Delivered then [Call(s.events, env.finalized)] else []
  }

  function SweepCalls(listed: seq<PendingSteps.Step>, env: SweepEnv): seq<Call>
  {
    if |listed| == 0 then [] else SweepCalls(listed[..|listed| - 1], env) + CallOf(listed[|listed| - 1], env)
  }

  function NotifyCalls(cfg: Config, w: World, env: Env, active: seq<Event>): seq<Call>
  {
    if HasNotification(cfg, active) && Returned(env.notified, POST_COMMIT_STEP_MAX_ATTEMPTS) then [Call(active, w.store.finalized)]
    else []
  }

  function SweptCalls(cfg: Config, w: World, env: Env, n: nat): seq<Call>
    requires n <= |w.store.queue|
  {
    SweepCalls(w.store.queue[..n], SweepEnvOf(cfg, w, env))
  }

  function ContinueCalls(cfg: Config, w: World, env: Env, from: nat): seq<Call>
  {
    var finalized := Finalized(cfg, env);
    var events := ReadEvents(cfg, env.chain, from, finalized);
    if finalized < from then []
    else
      match EventsTransaction(w, env, from, events, Reported(w, finalized))
      case Stop(_, _) => []
      case Go(w1, _) => NotifyCalls(cfg, w1, env, Active(events))
  }

  function RebuildCalls(cfg: Config, w: World, env: Env): seq<Call>
  {
    var finalized := Finalized(cfg, env);
    var events := ReadEvents(cfg, env.chain, cfg.deploymentBlock, finalized);
    if finalized < cfg.deploymentBlock || RebuildIdentity(events).Err? || finalized >= |env.chain| || !Replaceable(cfg, env, events) then []
    else
      var w1 := PrePersisted(cfg, Marked(w, finalized), Active(events));
      NotifyCalls(cfg, Replaced(cfg, w1, events, ReadCursor(env, finalized, finalized)), env, Active(events))
  }

  /** A crash before the notification, or in the middle of the sweep, leaves out what would have followed. */
  function RoundCalls(cfg: Config, w: World, env: Env, crash: Option<CrashPoint>): seq<Call>
  {
    match CurrentCursor(w)
    case None => if crash.Some? && BeforeSettling(crash.value) then [] else RebuildCalls(cfg, w, env)
    case Some(c) =>
      if crash.Some? && crash.value.InTrim? then []
      else
        match RollbackOnReorg(cfg, w, env, FromBlock(cfg, c))
        case Stop(_, _) => []
        case Go(w1, from) =>
          var q := w1.store.queue;
          if crash.Some? && crash.value.InSweep? then
            var n := Min(crash.value.rows, |q|);
            SweptCalls(cfg, w1, env, n) + if crash.value.handedOver && n < |q| then CallOf(q[n], SweepEnvOf(cfg, w1, env)) else []
          else
            SweptCalls(cfg, w1, env, |q|) +
              if crash.Some? && (crash.value.AfterEvents? || crash.value.AfterSave?) then []
              else ContinueCalls(cfg, Swept(cfg, w1, env), env, from)
  }

  predicate BeforeSettling(p: CrashPoint) { p.AfterMark? || p.AfterPrePersist? || p.AfterReset? }

  function Calls(cfg: Config, w: World, op: Op): seq<Call>
  {
    match op
    case DoRefresh(env) => RoundCalls(cfg, w, env, None)
    case DoRebuild(env) => RebuildCalls(cfg, w, env)
    case CrashInRefresh(env, p) => RoundCalls(cfg, w, env, Some(p))
    case CrashInRebuild(env, p) => if BeforeSettling(p) then [] else RebuildCalls(cfg, w, env)
  }

  // ----- what the calls account for -----

  ghost predicate InCalls(k: Key, calls: seq<Call>) { exists c :: c in calls && k in KeySet(c.events) }

  /** Every key handled afterwards was handled before or is in the batch of one of these calls, and those are all handled. */
  ghost predicate HandledBy(before: World, after: World, calls: seq<Call>)
  {
    && (forall k :: k in after.handled ==> k in before.handled || InCalls(k, calls))
    && (forall k :: InCalls(k, calls) ==> k in after.handled)
  }

  lemma HandledThen(u: World, v: World, w: World, xs: seq<Call>, ys: seq<Call>)
    requires HandledBy(u, v, xs) && HandledBy(v, w, ys) && v.handled <= w.handled
    ensures HandledBy(u, w, xs + ys)
  {
    forall k | InCalls(k, xs + ys) ensures k in w.handled {
      var c :| c in xs + ys && k in KeySet(c.events);
      assert c in xs ==> InCalls(k, xs);
      assert c in ys ==> InCalls(k, ys);
    }
    forall k | k in w.handled ensures k in u.handled || InCalls(k, xs + ys) {
      if k in v.handled && k !in u.handled {
        var c :| c in xs && k in KeySet(c.events);
        assert c in xs + ys;
      } else if k !in v.handled {
        var c :| c in ys && k in KeySet(c.events);
        assert c in xs + ys;
      }
    }
  }

  lemma DeliveredKeys(s: PendingSteps.Step, env: SweepEnv, k: Key)
    requires WellFormedStep(s) && Deliver(s, env) == Delivered && k in KeySet(s.events)
    ensures InCalls(k, CallOf(s, env))
  {
    if s.id.SignalsId? { assert Call(s.events, env.finalized) in CallOf(s, env); }
  }

  lemma InCallsConcat(k: Key, xs: seq<Call>, ys: seq<Call>)
    ensures InCalls(k, xs + ys) <==> InCalls(k, xs) || InCalls(k, ys)
  {
    if c :| c in xs && k in KeySet(c.events) { assert c in xs + ys; }
    if c :| c in ys && k in KeySet(c.events) { assert c in xs + ys; }
  }

  lemma {:induction false} SweepHandles(st: SweepState, listed: seq<PendingSteps.Step>, env: SweepEnv, k: Key)
    requires forall s :: s in listed ==> WellFormedStep(s)
    ensures k in SweepFrom(st, listed, env).handled <==> k in st.handled || InCalls(k, SweepCalls(listed, env))
  {
    if |listed| > 0 {
      var front, last := listed[..|listed| - 1], listed[|listed| - 1];
      assert last in listed;
      SweepHandles(st, front, env, k);
      InCallsConcat(k, SweepCalls(front, env), CallOf(last, env));
      if Deliver(last, env) == Delivered && k in KeySet(last.events) { DeliveredKeys(last, env, k); }
    }
  }

  lemma SweptHandles(cfg: Config, w: World, env: Env, n: nat)
    requires ValidQueue(w.store.queue) && n <= |w.store.queue|
    ensures HandledBy(w, SweptPartly(cfg, w, env, n), SweptCalls(cfg, w, env, n))
  {
    var q := w.store.queue;
    forall k ensures k in SweptPartly(cfg, w, env, n).handled <==> k in w.handled || InCalls(k, SweptCalls(cfg, w, env, n)) {
      SweepHandles(Begin(q, w.handled, w.dead), q[..n], SweepEnvOf(cfg, w, env), k);
    }
  }

  lemma CrashedSweepHandles(cfg: Config, w: World, env: Env, rows: nat, handedOver: bool)
    requires ValidQueue(w.store.queue)
    ensures var q, n := w.store.queue, Min(rows, |w.store.queue|);
      HandledBy(w, CrashedSweep(cfg, w, env, rows, handedOver),
                SweptCalls(cfg, w, env, n) + if handedOver && n < |q| then CallOf(q[n], SweepEnvOf(cfg, w, env)) else [])
  {
    var q, n := w.store.queue, Min(rows, |w.store.queue|);
    SweptHandles(cfg, w, env, n);
    var v := CrashedSweep(cfg, w, env, rows, handedOver);
    var more := if handedOver && n < |q| then CallOf(q[n], SweepEnvOf(cfg, w, env)) else [];
    forall k ensures k in v.handled <==> k in SweptPartly(cfg, w, env, n).handled || InCalls(k, more) {
      if k in v.handled && k !in SweptPartly(cfg, w, env, n).handled {
        assert q[n] in q;
        DeliveredKeys(q[n], SweepEnvOf(cfg, w, env), k);
      }
    }
    HandledThen(w, SweptPartly(cfg, w, env, n), v, SweptCalls(cfg, w, env, n), more);
  }

  lemma NotifiedHandles(cfg: Config, w: World, env: Env, active: seq<Event>)
    ensures HandledBy(w, Notified(cfg, w, env, active), NotifyCalls(cfg, w, env, active))
    ensures HandledBy(w, NotificationSettled(cfg, w, env, active), NotifyCalls(cfg, w, env, active))
    ensures w.handled <= Notified(cfg, w, env, active).handled
  {
    if HasNotification(cfg, active) && Returned(env.notified, POST_COMMIT_STEP_MAX_ATTEMPTS) {
      assert Call(active, w.store.finalized) in NotifyCalls(cfg, w, env, active);
    }
  }

  lemma CursorHandlesNothing(cfg: Config, w: World, c: Cursor, expected: nat, env: Env)
    ensures var v := SaveCursorAdvancingFrom(w, c, expected).world;
      v.handled == w.handled && Automated(cfg, v, env).handled == w.handled
  {
  }

  lemma AppendHandles(cfg: Config, w: World, env: Env, from: nat, finalized: nat, reported: nat, active: seq<Event>, p: CrashPoint)
    ensures HandledBy(w, AfterAppend(cfg, w, env, from, finalized, reported, active).world, NotifyCalls(cfg, w, env, active))
    ensures HandledBy(w, CrashedAfterAppend(cfg, w, env, from, finalized, reported, active, p),
                      if p.AfterEvents? || p.AfterSave? then [] else NotifyCalls(cfg, w, env, active))
    ensures w.handled <= AfterAppend(cfg, w, env, from, finalized, reported, active).world.handled
    ensures w.handled <= CrashedAfterAppend(cfg, w, env, from, finalized, reported, active, p).handled
  {
    NotifiedHandles(cfg, w, env, active);
    if finalized < |env.chain| {
      CursorHandlesNothing(cfg, Notified(cfg, w, env, active), ReadCursor(env, finalized, reported), from, env);
    }
  }

  lemma ContinueHandles(cfg: Config, w: World, env: Env, from: nat, p: CrashPoint)
    ensures HandledBy(w, Continue(cfg, w, env, from).world, ContinueCalls(cfg, w, env, from))
    ensures w.handled <= Continue(cfg, w, env, from).world.handled
    ensures var finalized := Finalized(cfg, env);
      var v := if finalized < from then CrashedLagging(w, env, from, finalized, p) else CrashedAppending(cfg, w, env, from, finalized, p);
      HandledBy(w, v, if p.AfterEvents? || p.AfterSave? then [] else ContinueCalls(cfg, w, env, from)) && w.handled <= v.handled
  {
    var finalized := Finalized(cfg, env);
    if finalized < from {
      LaggingHandles(cfg, w, env, from, finalized, p);
    } else {
      var events := ReadEvents(cfg, env.chain, from, finalized);
      var f := EventsTransaction(w, env, from, events, Reported(w, finalized));
      AppendHandles(cfg, f.world, env, from, finalized, Reported(w, finalized), Active(events), p);
    }
  }

  lemma LaggingHandles(cfg: Config, w: World, env: Env, from: nat, finalized: nat, p: CrashPoint)
    ensures Lagging(cfg, w, env, from, finalized).world.handled == w.handled
    ensures CrashedLagging(w, env, from, finalized, p).handled == w.handled
  {
  }

  lemma RebuildHandles(cfg: Config, w: World, env: Env, p: CrashPoint)
    ensures HandledBy(w, Rebuild(cfg, w, env).world, RebuildCalls(cfg, w, env))
    ensures HandledBy(w, CrashedRebuild(cfg, w, env, p), if BeforeSettling(p) then [] else RebuildCalls(cfg, w, env))
  {
    var finalized := Finalized(cfg, env);
    if finalized < cfg.deploymentBlock {
      NothingToRebuild(cfg, w, env, p);
    } else {
      ReplacementHandles(cfg, w, env, finalized, p);
    }
  }

  lemma NothingToRebuild(cfg: Config, w: World, env: Env, p: CrashPoint)
    requires Finalized(cfg, env) < cfg.deploymentBlock
    ensures Rebuild(cfg, w, env).world.handled == w.handled == CrashedRebuild(cfg, w, env, p).handled
    ensures RebuildCalls(cfg, w, env) == []
  {
  }

  lemma ReplacementHandles(cfg: Config, w: World, env: Env, finalized: nat, p: CrashPoint)
    requires finalized == Finalized(cfg, env) && cfg.deploymentBlock <= finalized
    ensures HandledBy(w, Rebuild(cfg, w, env).world, RebuildCalls(cfg, w, env))
    ensures HandledBy(w, CrashedReplacement(cfg, w, env, finalized, p), if BeforeSettling(p) then [] else RebuildCalls(cfg, w, env))
  {
    var events := ReadEvents(cfg, env.chain, cfg.deploymentBlock, finalized);
    if RebuildIdentity(events).Err? || finalized >= |env.chain| {
      assert RebuildCalls(cfg, w, env) == [];
    } else {
      CommitHandles(cfg, w, PrePersisted(cfg, Marked(w, finalized), Active(events)), env, finalized, events, p);
    }
  }

  lemma CommitHandles(cfg: Config, w: World, w1: World, env: Env, finalized: nat, events: seq<Event>, p: CrashPoint)
    requires finalized < |env.chain| && w1.handled == w.handled
    ensures var calls := if Replaceable(cfg, env, events)
        then NotifyCalls(cfg, Replaced(cfg, w1, events, ReadCursor(env, finalized, finalized)), env, Active(events)) else [];
      && HandledBy(w, CommitRebuild(cfg, w1, env, finalized, events).world, calls)
      && (!p.AfterMark? ==>
            HandledBy(w, CrashedCommit(cfg, w1, env, finalized, events, p), if BeforeSettling(p) then [] else calls))
  {
    if Replaceable(cfg, env, events) {
      ReplacedHandles(cfg, w, w1, env, finalized, events);
    } else {
      assert Withdrawn(cfg, w1, Active(events)).handled == w.handled;
    }
  }

  lemma ReplacedHandles(cfg: Config, w: World, w1: World, env: Env, finalized: nat, events: seq<Event>)
    requires finalized < |env.chain| && Replaceable(cfg, env, events)
    ensures var v := Replaced(cfg, w1, events, ReadCursor(env, finalized, finalized));
      var settled, calls := NotificationSettled(cfg, v, env, Active(events)), NotifyCalls(cfg, v, env, Active(events));
      HandledBy(w, v, []) && HandledBy(w, settled, calls) && HandledBy(w, Automated(cfg, settled, env), calls)
  {
    var v := Replaced(cfg, w1, events, ReadCursor(env, finalized, finalized));
    NotifiedHandles(cfg, v, env, Active(events));
  }

  lemma RollbackHandlesNothing(cfg: Config, w: World, env: Env, from: nat, rows: nat, invalidated: bool)
    ensures RollbackOnReorg(cfg, w, env, from).world.handled <= w.handled
    ensures CrashedRollback(cfg, w, env, from, rows, invalidated).handled <= w.handled
  {
  }

  lemma StepHandles(cfg: Config, w: World, op: Op)
    requires Inv(cfg, w) && WellFormedChain(op.env.chain)
    ensures HandledBy(w, Next(cfg, w, op), Calls(cfg, w, op))
  {
    match op
    case DoRefresh(env) => RoundHandles(cfg, w, env, AfterNotify);
    case DoRebuild(env) => RebuildHandles(cfg, w, env, AfterNotify);
    case CrashInRefresh(env, p) => RoundHandles(cfg, w, env, p);
    case CrashInRebuild(env, p) => RebuildHandles(cfg, w, env, p);
  }

  lemma RoundHandles(cfg: Config, w: World, env: Env, p: CrashPoint)
    requires Inv(cfg, w) && WellFormedChain(env.chain)
    ensures HandledBy(w, Refresh(cfg, w, env).world, RoundCalls(cfg, w, env, None))
    ensures HandledBy(w, CrashedRefresh(cfg, w, env, p), RoundCalls(cfg, w, env, Some(p)))
  {
    RoundStart(cfg, w);
    match CurrentCursor(w)
    case None => RebuildHandles(cfg, w, env, p);
    case Some(c) =>
      CheckKeepsInv(cfg, w, env, c.next);
      CheckedRoundHandles(cfg, w, env, c, p);
  }

  lemma CheckedRoundHandles(cfg: Config, w: World, env: Env, c: Cursor, p: CrashPoint)
    requires CurrentCursor(w) == Some(c) && ValidQueue(RollbackOnReorg(cfg, w, env, FromBlock(cfg, c)).world.store.queue)
    ensures HandledBy(w, Refresh(cfg, w, env).world, RoundCalls(cfg, w, env, None))
    ensures HandledBy(w, CrashedRefresh(cfg, w, env, p), RoundCalls(cfg, w, env, Some(p)))
  {
    var from := FromBlock(cfg, c);
    if p.InTrim? { RollbackHandlesNothing(cfg, w, env, from, p.rows, p.invalidated); }
    RollbackHandlesNothing(cfg, w, env, from, 0, false);
    var f := RollbackOnReorg(cfg, w, env, from);
    if f.Go? { AfterCheckHandles(cfg, w, f.world, env, f.value, p); }
  }

  lemma AfterCheckHandles(cfg: Config, w: World, w1: World, env: Env, from: nat, p: CrashPoint)
    requires ValidQueue(w1.store.queue) && w1.handled <= w.handled
    ensures var q, v, finalized := w1.store.queue, Swept(cfg, w1, env), Finalized(cfg, env);
      var swept := SweptCalls(cfg, w1, env, |q|);
      && HandledBy(w, Continue(cfg, v, env, from).world, swept + ContinueCalls(cfg, v, env, from))
      && HandledBy(w, if finalized < from then CrashedLagging(v, env, from, finalized, p) else CrashedAppending(cfg, v, env, from, finalized, p),
                   swept + if p.AfterEvents? || p.AfterSave? then [] else ContinueCalls(cfg, v, env, from))
      && (p.InSweep? ==>
            HandledBy(w, CrashedSweep(cfg, w1, env, p.rows, p.handedOver),
                      SweptCalls(cfg, w1, env, Min(p.rows, |q|)) +
                        if p.handedOver && Min(p.rows, |q|) < |q| then CallOf(q[Min(p.rows, |q|)], SweepEnvOf(cfg, w1, env)) else []))
  {
    var q, v, finalized := w1.store.queue, Swept(cfg, w1, env), Finalized(cfg, env);
    SweptHandles(cfg, w1, env, |q|);
    ContinueHandles(cfg, v, env, from, p);
    var swept := SweptCalls(cfg, w1, env, |q|);
    assert HandledBy(w, v, swept);
    HandledThen(w, v, Continue(cfg, v, env, from).world, swept, ContinueCalls(cfg, v, env, from));
    HandledThen(w, v, if finalized < from then CrashedLagging(v, env, from, finalized, p) else CrashedAppending(cfg, v, env, from, finalized, p),
                swept, if p.AfterEvents? || p.AfterSave? then [] else ContinueCalls(cfg, v, env, from));
    if p.InSweep? { CrashedSweepHandles(cfg, w1, env, p.rows, p.handedOver); }
  }

  // ----- every event of a call is final -----

  ghost predicate FinalCall(c: Call, P: Event -> bool)
  {
    forall e :: e in c.events ==> P(e) && (c.finalized.Some? ==> e.blockNumber <= c.finalized.value)
  }

  ghost predicate FinalCalls(calls: seq<Call>, P: Event -> bool) { forall c :: c in calls ==> FinalCall(c, P) }

  lemma {:induction false} SweepCallsAreFinal(listed: seq<PendingSteps.Step>, env: SweepEnv, P: Event -> bool)
    requires forall s, e :: s in listed && e in s.events ==> P(e)
    ensures FinalCalls(SweepCalls(listed, env), P)
  {
    if |listed| > 0 {
      var last := listed[|listed| - 1];
      SweepCallsAreFinal(listed[..|listed| - 1], env, P);
      assert last in listed;
      MaxBlockBounds(last.events);
    }
  }

  lemma SweptCallsAreFinal(cfg: Config, w: World, env: Env, n: nat, P: Event -> bool)
    requires QueueAll(w, P) && n <= |w.store.queue|
    ensures FinalCalls(SweptCalls(cfg, w, env, n), P)
    ensures n < |w.store.queue| ==> FinalCalls(CallOf(w.store.queue[n], SweepEnvOf(cfg, w, env)), P)
  {
    SweepCallsAreFinal(w.store.queue[..n], SweepEnvOf(cfg, w, env), P);
    if n < |w.store.queue| { MaxBlockBounds(w.store.queue[n].events); }
  }

  /** A read that reaches no further than the bound saved with it. */
  lemma NotifyCallsAreFinal(cfg: Config, w: World, env: Env, from: nat, to: nat, P: Event -> bool)
    requires WellFormedChain(env.chain) && w.store.finalized.Some? && to <= w.store.finalized.value
    requires forall e :: OnChain(cfg, env.chain, e) ==> P(e)
    ensures FinalCalls(NotifyCalls(cfg, w, env, Active(ReadEvents(cfg, env.chain, from, to))), P)
  {
    ReadIsActive(cfg, env.chain, from, to);
  }

  lemma ContinueCallsAreFinal(cfg: Config, w: World, env: Env, from: nat, P: Event -> bool)
    requires WellFormedChain(env.chain) && forall e :: OnChain(cfg, env.chain, e) ==> P(e)
    ensures FinalCalls(ContinueCalls(cfg, w, env, from), P)
  {
    var finalized := Finalized(cfg, env);
    var f := EventsTransaction(w, env, from, ReadEvents(cfg, env.chain, from, finalized), Reported(w, finalized));
    if f.Go? { NotifyCallsAreFinal(cfg, f.world, env, from, finalized, P); }
  }

  lemma RebuildCallsAreFinal(cfg: Config, w: World, env: Env, P: Event -> bool)
    requires WellFormedChain(env.chain) && forall e :: OnChain(cfg, env.chain, e) ==> P(e)
    ensures FinalCalls(RebuildCalls(cfg, w, env), P)
  {
    var finalized := Finalized(cfg, env);
    var events := ReadEvents(cfg, env.chain, cfg.deploymentBlock, finalized);
    if RebuildIdentity(events).Ok? && finalized < |env.chain| && Replaceable(cfg, env, events) {
      var w1 := PrePersisted(cfg, Marked(w, finalized), Active(events));
      NotifyCallsAreFinal(cfg, Replaced(cfg, w1, events, ReadCursor(env, finalized, finalized)), env, cfg.deploymentBlock, finalized, P);
    }
  }

  /** What a round or a sweep hands over lies within the bound that the processor reads from the store. */
  lemma CallsAreFinal(cfg: Config, w: World, op: Op, P: Event -> bool)
    requires QueueAll(w, P) && WellFormedChain(op.env.chain) && forall e :: OnChain(cfg, op.env.chain, e) ==> P(e)
    ensures FinalCalls(Calls(cfg, w, op), P)
  {
    var env := op.env;
    RebuildCallsAreFinal(cfg, w, env, P);
    if CurrentCursor(w).Some? {
      var from := FromBlock(cfg, CurrentCursor(w).value);
      CheckKeepsAll(cfg, w, env, from, P);
      var f := RollbackOnReorg(cfg, w, env, from);
      if f.Go? {
        SweptCallsAreFinal(cfg, f.world, env, |f.world.store.queue|, P);
        ContinueCallsAreFinal(cfg, Swept(cfg, f.world, env), env, f.value, P);
        if op.CrashInRefresh? && op.point.InSweep? {
          SweptCallsAreFinal(cfg, f.world, env, Min(op.point.rows, |f.world.store.queue|), P);
        }
      }
    }
  }
}
