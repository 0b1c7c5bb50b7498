/** The indexer with the delivery ledger beside it: at-least-once delivery is at-least-once recording. */
module IndexerRecords {
  import opened Prelude
  import opened Sorting
  import opened ChainEvents
  import opened EventSource
  import opened IdentityProjections
  import opened PendingSteps
  import opened PendingSweep
  import opened ProjectionStore
  import opened IndexerModel
  import opened IndexerAncestor
  import opened IndexerInvariant
  import opened IndexerCoverage
  import opened IndexerDelivery
  import opened IndexerGhosts
  import opened IndexerAtLeastOnce
  import opened IndexerCalls
  import Deliveries

  // ----- the ledger beside the indexer -----

  /** What happens to the delivery ledger: a processor call that returns, or one operation of any other kind, crashed calls included. */
  datatype LedgerAct =
    | Processed(events: seq<Event>, finalized: Option<nat>, dispatch: Deliveries.DeliveryId -> Deliveries.Dispatch)
    | Other(act: Deliveries.Act)

  type Routing = Event -> seq<Deliveries.Intent>

  function Do(b: Deliveries.Book, a: LedgerAct, route: Routing): Deliveries.Book
  {
    match a
    case Processed(events, finalized, dispatch) => Deliveries.Process(b, events, finalized, route, dispatch)
    case Other(act) => Deliveries.Step(b, act)
  }

  function DoAll(b: Deliveries.Book, acts: seq<LedgerAct>, route: Routing): Deliveries.Book
  {
    if |acts| == 0 then b else Do(DoAll(b, acts[..|acts| - 1], route), acts[|acts| - 1], route)
  }

  lemma OtherKeepsRecords(b: Deliveries.Book, a: Deliveries.Act)
    ensures b.ledger.Keys <= Deliveries.Step(b, a).ledger.Keys
  {
  }

  lemma DoKeepsRecords(b: Deliveries.Book, a: LedgerAct, route: Routing)
    ensures b.ledger.Keys <= Do(b, a, route).ledger.Keys
  {
    match a
    case Processed(events, finalized, dispatch) =>
      Deliveries.CarryAllRecords(b, Deliveries.IntentsOf(Active(events), finalized, route), dispatch);
    case Other(act) => OtherKeepsRecords(b, act);
  }

  /** No operation removes a record. */
  lemma {:induction false} RecordsStay(b: Deliveries.Book, acts: seq<LedgerAct>, route: Routing)
    ensures b.ledger.Keys <= DoAll(b, acts, route).ledger.Keys
  {
    if |acts| > 0 {
      RecordsStay(b, acts[..|acts| - 1], route);
      DoKeepsRecords(DoAll(b, acts[..|acts| - 1], route), acts[|acts| - 1], route);
    }
  }

  /** A record for every receiver of the event, if it is a signal. */
  ghost predicate RecordedFor(b: Deliveries.Book, route: Routing, e: Event)
  {
    e.log.payload.SignalSubmitted? ==> forall i :: i in route(e) ==> i.id in b.ledger
  }

  lemma {:induction false} ProcessedIsRecorded(b: Deliveries.Book, acts: seq<LedgerAct>, route: Routing, a: LedgerAct, e: Event)
    requires a in acts && a.Processed? && e in Active(a.events)
    requires a.finalized.Some? ==> e.blockNumber <= a.finalized.value
    ensures RecordedFor(DoAll(b, acts, route), route, e)
  {
    var front, last := acts[..|acts| - 1], acts[|acts| - 1];
    var before := DoAll(b, front, route);
    if last == a {
      if e.log.payload.SignalSubmitted? {
        forall i | i in route(e) ensures i.id in DoAll(b, acts, route).ledger {
          Deliveries.ProcessedSignalsAreRecorded(before, a.events, a.finalized, route, a.dispatch, e, i);
        }
      }
    } else {
      assert acts == front + [last];
      ProcessedIsRecorded(b, front, route, a, e);
      DoKeepsRecords(before, last, route);
    }
  }

  /** The calls that returned are among what happened to the ledger. */
  ghost predicate Witnessed(calls: seq<Call>, acts: seq<LedgerAct>)
  {
    forall c | c in calls :: exists a :: a in acts && a.Processed? && a.events == c.events && a.finalized == c.finalized
  }

  /**
   The indexer with the ledger beside it. Each operation of the indexer comes with what happens
   to the ledger meanwhile, in any order: at least the processor calls that return, and
   otherwise anything, operators and calls cut short included.
   */
  ghost predicate IsJointRun(cfg: Config, route: Routing, ops: seq<Op>, states: seq<World>, acts: seq<seq<LedgerAct>>,
                             books: seq<Deliveries.Book>)
  {
    && IsRun(cfg, ops, states) && |acts| == |ops| && |books| == |ops| + 1
    && forall i :: 0 <= i < |ops| ==> Witnessed(Calls(cfg, states[i], ops[i]), acts[i]) && books[i + 1] == DoAll(books[i], acts[i], route)
  }

  /** An event of a chain that the run met. */
  ghost predicate Met(cfg: Config, ops: seq<Op>, e: Event)
  {
    exists i :: 0 <= i < |ops| && OnChain(cfg, ops[i].env.chain, e)
  }

  /** An event with this key was recorded. */
  ghost predicate KeyRecorded(cfg: Config, ops: seq<Op>, b: Deliveries.Book, route: Routing, k: Key)
  {
    exists e :: Met(cfg, ops, e) && ChainEventKey(e) == k && RecordedFor(b, route, e)
  }

  /** A batch of live events replays at least one event of each of its keys. */
  lemma ReplayedEvent(events: seq<Event>, k: Key) returns (e: Event)
    requires k in KeySet(events) && forall x :: x in events ==> !x.removed
    ensures e in Active(events) && e in events && ChainEventKey(e) == k
  {
    var sorted := SortChainEvents(events);
    SortPermutes(events, Before);
    var i :| 0 <= i < |events| && ChainEventKey(events[i]) == k;
    assert events[i] in sorted;
    FateHasWitness(sorted, k);
    NoTombstones(sorted, k);
    e := FateOf(sorted, k).event;
    ActiveMembers(events);
  }

  lemma CallIsRecorded(cfg: Config, ops: seq<Op>, b: Deliveries.Book, acts: seq<LedgerAct>, route: Routing, calls: seq<Call>, k: Key)
    requires Witnessed(calls, acts) && InCalls(k, calls) && FinalCalls(calls, MetIn(cfg, ops))
    ensures KeyRecorded(cfg, ops, DoAll(b, acts, route), route, k)
  {
    var P := MetIn(cfg, ops);
    var c :| c in calls && k in KeySet(c.events);
    assert FinalCall(c, P);
    forall x | x in c.events ensures !x.removed { assert P(x); }
    var e := ReplayedEvent(c.events, k);
    assert P(e);
    var a :| a in acts && a.Processed? && a.events == c.events && a.finalized == c.finalized;
    ProcessedIsRecorded(b, acts, route, a, e);
  }

  ghost function MetIn(cfg: Config, ops: seq<Op>): Event -> bool { (e: Event) => Met(cfg, ops, e) }

  lemma ChainIsMet(cfg: Config, ops: seq<Op>, i: nat)
    requires i < |ops|
    ensures forall e :: OnChain(cfg, ops[i].env.chain, e) ==> MetIn(cfg, ops)(e)
  {
  }

  lemma {:induction false} QueuedAreMet(cfg: Config, ops: seq<Op>, states: seq<World>, n: nat)
    requires IsRun(cfg, ops, states) && OnGoodChains(ops) && n <= |ops|
    ensures QueueAll(states[n], MetIn(cfg, ops))
  {
    if n > 0 {
      QueuedAreMet(cfg, ops, states, n - 1);
      ChainIsMet(cfg, ops, n - 1);
      StepKeepsAll(cfg, states[n - 1], ops[n - 1], MetIn(cfg, ops));
    }
  }

  /** Whatever a processor call took is recorded, over every run. */
  lemma {:induction false} HandledIsRecorded(cfg: Config, route: Routing, ops: seq<Op>, states: seq<World>, acts: seq<seq<LedgerAct>>,
                                             books: seq<Deliveries.Book>, n: nat, k: Key)
    requires IsJointRun(cfg, route, ops, states, acts, books) && OnGoodChains(ops) && n <= |ops|
    requires k in states[n].handled
    ensures KeyRecorded(cfg, ops, books[n], route, k)
  {
    if n > 0 {
      var w, op, P := states[n - 1], ops[n - 1], MetIn(cfg, ops);
      EveryRunKeepsInv(cfg, ops, states, n - 1);
      StepHandles(cfg, w, op);
      QueuedAreMet(cfg, ops, states, n - 1);
      ChainIsMet(cfg, ops, n - 1);
      CallsAreFinal(cfg, w, op, P);
      if InCalls(k, Calls(cfg, w, op)) {
        CallIsRecorded(cfg, ops, books[n - 1], acts[n - 1], route, Calls(cfg, w, op), k);
      } else {
        HandledIsRecorded(cfg, route, ops, states, acts, books, n - 1, k);
        RecordsStay(books[n - 1], acts[n - 1], route);
        var e :| Met(cfg, ops, e) && ChainEventKey(e) == k && RecordedFor(books[n - 1], route, e);
        assert RecordedFor(books[n], route, e);
      }
    }
  }

  // ----- the rows below the cursor -----

  /** The cursor is the hash of a block of this chain. */
  ghost predicate CursorOn(c: Option<Cursor>, chain: Chain)
  {
    c.Some? && 1 <= c.value.next <= |chain| && c.value.hash == Some(HashAt(chain, c.value.next - 1))
  }

  /** A step leaves the cursor where it is or puts it on its own chain. */
  ghost predicate CursorFollows(w: World, v: World, chain: Chain)
  {
    v.store.cursor == w.store.cursor || CursorOn(v.store.cursor, chain) || (v.store.cursor.Some? && v.store.cursor.value.hash.None?)
  }

  lemma TransactionFollows(cfg: Config, w: World, env: Env, from: nat, anchor: Event)
    requires Canonical(env.chain, anchor) && cfg.deploymentBlock <= anchor.blockNumber
    ensures CursorFollows(w, RollbackTransaction(cfg, w, env, from, anchor).world, env.chain)
  {
    assert CursorOn(Some(AnchorCursor(cfg, anchor)), env.chain);
  }

  lemma CheckFollows(cfg: Config, w: World, env: Env, from: nat, rows: nat, invalidated: bool)
    ensures CursorFollows(w, RollbackOnReorg(cfg, w, env, from).world, env.chain)
    ensures CursorFollows(w, CrashedRollback(cfg, w, env, from, rows, invalidated), env.chain)
  {
    AncestorFoundExactly(cfg, w.store.rows, env.chain, from);
    var r := FindAncestor(cfg, w.store.rows, env.chain, from);
    if r.Found? {
      TransactionFollows(cfg, w, env, from, r.anchor);
      RollbackFollows(cfg, w, env, from, r.anchor, rows, invalidated);
    }
  }

  lemma RollbackFollows(cfg: Config, w: World, env: Env, from: nat, anchor: Event, rows: nat, invalidated: bool)
    requires FindAncestor(cfg, w.store.rows, env.chain, from) == Found(anchor)
    ensures var c := RollbackTransaction(cfg, w, env, from, anchor).world.store.cursor;
      && RollbackToCommonAncestor(cfg, w, env, from).world.store.cursor == c
      && CrashedRollback(cfg, w, env, from, rows, invalidated).store.cursor in {c, w.store.cursor}
  {
  }

  lemma SaveFollows(cfg: Config, w: World, env: Env, c: Cursor, from: nat)
    requires CursorOn(Some(c), env.chain) || c.hash.None?
    ensures var v := SaveCursorAdvancingFrom(w, c, from).world;
      CursorFollows(w, v, env.chain) && CursorFollows(w, Automated(cfg, v, env), env.chain)
  {
  }

  lemma AppendFollows(cfg: Config, w: World, env: Env, from: nat, finalized: nat, reported: nat, active: seq<Event>, p: CrashPoint)
    ensures CursorFollows(w, AfterAppend(cfg, w, env, from, finalized, reported, active).world, env.chain)
    ensures CursorFollows(w, CrashedAfterAppend(cfg, w, env, from, finalized, reported, active, p), env.chain)
  {
    if finalized < |env.chain| {
      SaveFollows(cfg, Notified(cfg, w, env, active), env, ReadCursor(env, finalized, reported), from);
    }
  }

  lemma LaggingFollows(cfg: Config, w: World, env: Env, from: nat, finalized: nat, p: CrashPoint)
    ensures CursorFollows(w, Lagging(cfg, w, env, from, finalized).world, env.chain)
    ensures CursorFollows(w, CrashedLagging(w, env, from, finalized, p), env.chain)
  {
    if from <= |env.chain| {
      var c := Cursor(from, Reported(w, finalized), if from > 0 then Some(HashAt(env.chain, from - 1)) else None);
      SaveFollows(cfg, w, env, c, from);
      var f := SaveCursorAdvancingFrom(w, c, from);
      assert Automated(cfg, f.world.(store := f.world.store.(finalized := Some(Reported(w, finalized)))), env).store.cursor == f.world.store.cursor;
    }
  }

  lemma ContinueFollows(cfg: Config, w: World, env: Env, from: nat, p: CrashPoint)
    ensures CursorFollows(w, Continue(cfg, w, env, from).world, env.chain)
    ensures var finalized := Finalized(cfg, env);
      CursorFollows(w, if finalized < from then CrashedLagging(w, env, from, finalized, p) else CrashedAppending(cfg, w, env, from, finalized, p), env.chain)
  {
    var finalized := Finalized(cfg, env);
    LaggingFollows(cfg, w, env, from, finalized, p);
    var events := ReadEvents(cfg, env.chain, from, finalized);
    AppendFollows(cfg, EventsTransaction(w, env, from, events, Reported(w, finalized)).world, env, from, finalized, Reported(w, finalized), Active(events), p);
  }

  lemma RebuildFollows(cfg: Config, w: World, env: Env, p: CrashPoint)
    ensures CursorFollows(w, Rebuild(cfg, w, env).world, env.chain)
    ensures CursorFollows(w, CrashedRebuild(cfg, w, env, p), env.chain)
  {
    var finalized := Finalized(cfg, env);
    if finalized < cfg.deploymentBlock {
      ResetFollows(cfg, w, env, finalized);
    } else {
      ReplacementFollows(cfg, w, env, finalized, p);
    }
  }

  lemma ResetFollows(cfg: Config, w: World, env: Env, finalized: nat)
    ensures CursorFollows(w, CursorReset(cfg, w, env, finalized).world, env.chain)
    ensures EmptyRebuild(cfg, w, env, finalized).world.store.cursor == CursorReset(cfg, w, env, finalized).world.store.cursor
  {
  }

  lemma ReplacementFollows(cfg: Config, w: World, env: Env, finalized: nat, p: CrashPoint)
    requires finalized == Finalized(cfg, env) && cfg.deploymentBlock <= finalized
    ensures CursorFollows(w, Rebuild(cfg, w, env).world, env.chain)
    ensures CursorFollows(w, CrashedReplacement(cfg, w, env, finalized, p), env.chain)
  {
    var events := ReadEvents(cfg, env.chain, cfg.deploymentBlock, finalized);
    if RebuildIdentity(events).Ok? && finalized < |env.chain| {
      CommitFollows(cfg, PrePersisted(cfg, Marked(w, finalized), Active(events)), env, finalized, events, p);
    }
  }

  lemma CommitFollows(cfg: Config, w: World, env: Env, finalized: nat, events: seq<Event>, p: CrashPoint)
    requires finalized < |env.chain|
    ensures CursorFollows(w, CommitRebuild(cfg, w, env, finalized, events).world, env.chain)
    ensures CursorFollows(w, CrashedCommit(cfg, w, env, finalized, events, p), env.chain)
  {
    if Replaceable(cfg, env, events) {
      var v := Replaced(cfg, w, events, ReadCursor(env, finalized, finalized));
      assert CursorOn(v.store.cursor, env.chain);
      assert NotificationSettled(cfg, v, env, Active(events)).store.cursor == v.store.cursor;
    }
  }

  lemma StepFollows(cfg: Config, w: World, op: Op)
    requires Inv(cfg, w) && WellFormedChain(op.env.chain)
    ensures CursorFollows(w, Next(cfg, w, op), op.env.chain)
  {
    match op
    case DoRefresh(env) => RoundFollows(cfg, w, env, AfterNotify);
    case DoRebuild(env) => RebuildFollows(cfg, w, env, AfterNotify);
    case CrashInRefresh(env, p) => RoundFollows(cfg, w, env, p);
    case CrashInRebuild(env, p) => RebuildFollows(cfg, w, env, p);
  }

  lemma RoundFollows(cfg: Config, w: World, env: Env, p: CrashPoint)
    ensures CursorFollows(w, Refresh(cfg, w, env).world, env.chain)
    ensures CursorFollows(w, CrashedRefresh(cfg, w, env, p), env.chain)
  {
    match CurrentCursor(w)
    case None => RebuildFollows(cfg, w, env, p);
    case Some(c) =>
      var from := FromBlock(cfg, c);
      if p.InTrim? { CheckFollows(cfg, w, env, from, p.rows, p.invalidated); }
      CheckFollows(cfg, w, env, from, 0, false);
      var f := RollbackOnReorg(cfg, w, env, from);
      if f.Go? { ContinueFollows(cfg, Swept(cfg, f.world, env), env, f.value, p); }
  }

  lemma {:induction false} CursorIsMet(cfg: Config, ops: seq<Op>, states: seq<World>, n: nat)
    requires IsRun(cfg, ops, states) && OnGoodChains(ops) && n <= |ops| && states[n].store.cursor.Some?
    ensures exists i :: 0 <= i < |ops| && CursorOn(states[n].store.cursor, ops[i].env.chain)
  {
    if n > 0 {
      EveryRunKeepsInv(cfg, ops, states, n - 1);
      EveryRunKeepsInv(cfg, ops, states, n);
      StepFollows(cfg, states[n - 1], ops[n - 1]);
      if states[n].store.cursor == states[n - 1].store.cursor { CursorIsMet(cfg, ops, states, n - 1); }
    }
  }

  /** Every row below the cursor is an event of a chain that the run met. */
  lemma RowsAreMet(cfg: Config, ops: seq<Op>, states: seq<World>, n: nat, e: Event)
    requires IsRun(cfg, ops, states) && OnGoodChains(ops) && n <= |ops|
    requires e in states[n].store.rows && states[n].store.cursor.Some? && e.blockNumber < states[n].store.cursor.value.next
    ensures Met(cfg, ops, e)
  {
    EveryRunKeepsInv(cfg, ops, states, n);
    CursorIsMet(cfg, ops, states, n);
    var i :| 0 <= i < |ops| && CursorOn(states[n].store.cursor, ops[i].env.chain);
    RowIsOnChain(cfg, states[n].store, ops[i].env.chain, e);
  }

  lemma RowIsOnChain(cfg: Config, s: Store, chain: Chain, e: Event)
    requires CursorOn(s.cursor, chain) && WellFormedChain(chain) && CursorOk(cfg, s.rows, s.cursor.value)
    requires e in s.rows && e.blockNumber < s.cursor.value.next
    ensures OnChain(cfg, chain, e)
  {
    HashedCursor(cfg, s.rows, chain, s.cursor.value);
    PrefixEvents(cfg, chain, s.cursor.value.next, e);
  }

  // ----- at least once, on records -----

  /** Events of one position, that is of one log of one transaction, have the same receivers on every chain the run met. */
  ghost predicate PositionsFixReceivers(cfg: Config, route: Routing, ops: seq<Op>)
  {
    forall a, b | Met(cfg, ops, a) && Met(cfg, ops, b) && ChainEventKey(a) == ChainEventKey(b) :: SameReceivers(route, a, b)
  }

  ghost predicate SameReceivers(route: Routing, a: Event, b: Event)
  {
    && a.log.payload.SignalSubmitted? == b.log.payload.SignalSubmitted?
    && forall i :: i in route(a) ==> exists j :: j in route(b) && j.id == i.id
  }

  /**
   At least once, on records: in every reachable state each event below the cursor has a record
   for every one of its receivers, or sits in a queued step, or was in a step given up after its
   budget, whatever else happened to the ledger.
   */
  lemma RecordedAtLeastOnce(cfg: Config, route: Routing, ops: seq<Op>, states: seq<World>, acts: seq<seq<LedgerAct>>,
                            books: seq<Deliveries.Book>, n: nat, e: Event)
    requires cfg.hasProcessor && IsJointRun(cfg, route, ops, states, acts, books) && OnGoodChains(ops) && n <= |ops|
    requires NeverLossy(cfg, ops, states, n) && PositionsFixReceivers(cfg, route, ops)
    requires e in states[n].store.rows && states[n].store.cursor.Some? && e.blockNumber < states[n].store.cursor.value.next
    ensures RecordedFor(books[n], route, e) || KeyQueued(states[n].store.queue, ChainEventKey(e)) || ChainEventKey(e) in states[n].dead
  {
    var k := ChainEventKey(e);
    AtLeastOnce(cfg, ops, states, n);
    assert AccountedFor(states[n], k);
    if k in states[n].handled {
      HandledIsRecorded(cfg, route, ops, states, acts, books, n, k);
      RowsAreMet(cfg, ops, states, n, e);
      var f :| Met(cfg, ops, f) && ChainEventKey(f) == k && RecordedFor(books[n], route, f);
      assert SameReceivers(route, e, f);
    }
  }
}
