/** Short runs from an empty store that show each loss the other modules give the exact condition of. */
module IndexerWitness {
  import opened Prelude
  import opened Sorting
  import opened ChainEvents
  import opened EventSource
  import opened IdentityProjections
  import opened PendingSteps
  import opened PendingSweep
  import opened ProjectionStore
  import opened IndexerModel
  import opened IndexerAncestor
  import opened IndexerInvariant
  import opened IndexerCoverage
  import opened IndexerAtLeastOnce
  import opened IndexerGhosts

  /** One indexed contract, no confirmations to wait for, a notification processor and no automation. */
  const CFG := Config(1, 0, [7], 0, true, false)

  const GENESIS := Block(0, [])

  /** A log of the contract that is a signal. */
  predicate IsSignal(log: Log) { log.contract.value == 7 && log.payload.SignalSubmitted? }

  function Signalled(log: Log): Chain { [GENESIS, Block(1, [log])] }

  function SignalEvent(log: Log): Event
  {
    Event(1, 1, log, false, Some(Link(Link(Root, GENESIS), Block(1, [log]))))
  }

  /** Every order projection succeeds, no call of the processor returns. */
  ghost predicate Deaf(env: Env, chain: Chain)
  {
    env.chain == chain && env.target == None && (forall xs :: env.replays(xs)) && (forall n :: !env.notified(n))
  }

  const GENESIS_CURSOR := Cursor(1, 0, Some(Link(Root, GENESIS)))

  /** The state after a first round on the bare genesis block. */
  const INDEXED_GENESIS :=
    World(Store([], Some(GENESIS_CURSOR), [], EMPTY_IDENTITY, Some(0), []), Some(GENESIS_CURSOR), 0, {}, {}, map[])

  // ----- evaluating small logs -----

  lemma NothingRead(from: nat, to: nat)
    ensures ReadEvents(CFG, [GENESIS], from, to) == []
  {
    var events := ReadEvents(CFG, [GENESIS], from, to);
    ReadEventsMembers(CFG, [GENESIS], from, to);
    SomeMember(events);
  }

  lemma SignalHash(log: Log)
    ensures HashAt(Signalled(log), 1) == Link(Link(Root, GENESIS), Block(1, [log]))
    ensures HashAt(Signalled(log), 0) == Link(Root, GENESIS)
  {
    assert Signalled(log)[0] == GENESIS && Signalled(log)[1] == Block(1, [log]);
  }

  lemma {:induction false} NoLogs(chain: Chain, from: nat, until: nat)
    requires until <= |chain| && forall b :: from <= b < until ==> chain[b].logs == []
    ensures LogsBetween(CFG, chain, 7, from, until) == []
  {
    if from < until {
      NoLogs(chain, from, until - 1);
      assert LogsAt(CFG, chain, 7, until - 1) == [];
    }
  }

  lemma OneLogAt(chain: Chain, b: nat, log: Log)
    requires b < |chain| && chain[b].logs == [log] && IsSignal(log)
    ensures LogsAt(CFG, chain, 7, b) == [EventOf(CFG, chain, b, log)]
  {
    var e := EventOf(CFG, chain, b, log);
    assert LogsOfBlock(CFG, chain, 7, b, 1) == LogsOfBlock(CFG, chain, 7, b, 0) + [e] == [e];
  }

  /** A read that ends with the only log of its range. */
  lemma OneRead(chain: Chain, from: nat, b: nat, log: Log)
    requires from <= b < |chain| && chain[b].logs == [log] && IsSignal(log)
    requires forall c :: from <= c < b ==> chain[c].logs == []
    ensures ReadEvents(CFG, chain, from, b) == [EventOf(CFG, chain, b, log)]
  {
    var e := EventOf(CFG, chain, b, log);
    NoLogs(chain, from, b);
    OneLogAt(chain, b, log);
    assert LogsBetween(CFG, chain, 7, from, b + 1) == [] + [e] == [e];
    assert [e][..0] == [];
    assert Filter([e], Decodable) == Filter([], Decodable) + [e] == [e];
    assert ReadContracts(CFG, chain, 1, from, b) == ReadContracts(CFG, chain, 0, from, b) + [e] == [e];
  }

  lemma SignalRead(log: Log, from: nat)
    requires IsSignal(log) && from <= 1
    ensures ReadEvents(CFG, Signalled(log), from, 1) == [SignalEvent(log)]
  {
    SignalHash(log);
    assert Signalled(log)[0].logs == [] && Signalled(log)[1].logs == [log];
    OneRead(Signalled(log), from, 1, log);
  }

  lemma OneEventSorts(e: Event)
    requires !e.removed
    ensures Listed([e]) == [e] && Active([e]) == [e]
  {
    assert [e][..0] == [];
    assert Sort([e], Before) == Insert([], e, Before) == [e];
    assert Scan([e]) == MapSet([], e) == [e];
  }

  lemma OneEventIsStored(e: Event)
    ensures AppendRows([], [e]) == [e] && RowsFrom([e], 0) == [e] && KeysOf([e]) == [ChainEventKey(e)]
  {
    assert [e][..0] == [];
    assert AppendRows([], [e]) == AppendRow([], e) == [e];
    assert Filter([e], (x: Event) => x.blockNumber >= 0) == [] + [e];
  }

  lemma OneEventReplays(e: Event)
    requires !e.removed && e.log.payload.SignalSubmitted?
    ensures Listed([e]) == [e] && Active([e]) == [e] && RebuildIdentity([e]) == Ok(EMPTY_IDENTITY)
    ensures AppendRows([], [e]) == [e] && RowsFrom([e], 0) == [e] && KeysOf([e]) == [ChainEventKey(e)]
  {
    OneEventSorts(e);
    OneEventIsStored(e);
    assert [e][..0] == [];
    assert Fold([]) == Ok(EMPTY_IDENTITY) && Fold([e]) == Apply(EMPTY_IDENTITY, e) == Ok(EMPTY_IDENTITY);
  }

  lemma NoEventReplays()
    ensures Listed([]) == [] && Active([]) == [] && RebuildIdentity([]) == Ok(EMPTY_IDENTITY)
    ensures AppendRows([], []) == [] && RowsFrom([], 0) == []
  {
  }

  // ----- a first round on the genesis block -----

  lemma GenesisRound(env: Env)
    requires Deaf(env, [GENESIS])
    ensures Refresh(CFG, START, env) == Go(INDEXED_GENESIS, Unit)
  {
    NothingRead(0, 0);
    NoEventReplays();
    assert Finalized(CFG, env) == 0 && HashAt([GENESIS], 0) == Link(Root, GENESIS);
    var w1 := PrePersisted(CFG, Marked(START, 0), []);
    assert w1 == Marked(START, 0) && Replaceable(CFG, env, []);
    assert CommitRebuild(CFG, w1, env, 0, []) == Go(INDEXED_GENESIS, Unit);
  }

  /** The blind reorg is reachable: an empty genesis block is indexed and then replaced by one with a log. */
  lemma BlindReorgIsReachable(env: Env, reorg: Env, log: Log, states: seq<World>)
    requires Deaf(env, [GENESIS]) && IsSignal(log) && reorg.chain == [Block(1, [log])]
    requires IsRun(CFG, [DoRefresh(env)], states)
    ensures BlindReorg(CFG, states[1], reorg, 1) && RollbackOnReorg(CFG, states[1], reorg, 1) == Go(states[1], 1)
    ensures !Covers(CFG, states[1].store.rows, reorg.chain, 1)
  {
    GenesisRound(env);
    assert states[1] == Next(CFG, states[0], [DoRefresh(env)][0]) == INDEXED_GENESIS;
    BlindOnGenesis(reorg, log);
  }

  lemma BlindOnGenesis(reorg: Env, log: Log)
    requires IsSignal(log) && reorg.chain == [Block(1, [log])]
    ensures BlindReorg(CFG, INDEXED_GENESIS, reorg, 1) && RollbackOnReorg(CFG, INDEXED_GENESIS, reorg, 1) == Go(INDEXED_GENESIS, 1)
    ensures !Covers(CFG, [], reorg.chain, 1)
  {
    var e := Event(1, 0, log, false, Some(HashAt(reorg.chain, 0)));
    assert reorg.chain[0].logs == [log];
    assert OnChain(CFG, reorg.chain, e);
    ReadEventsMembers(CFG, reorg.chain, 0, 0);
    EmptyTableHasNoAncestor(CFG, reorg.chain, 1);
    EmptyTableCovers(CFG, reorg.chain, 1);
  }

  // ----- a ghost -----

  /** The state a crash leaves when the batch was queued after three failed calls and the cursor has not followed. */
  function QueuedAhead(log: Log): World
  {
    var e := SignalEvent(log);
    World(Store([e], Some(GENESIS_CURSOR), [e], EMPTY_IDENTITY, Some(1), [Queued(e)]), None, 0, {}, {}, map[])
  }

  function Queued(e: Event): PendingSteps.Step { PendingSteps.Step(SignalsId([ChainEventKey(e)]), [e], 1) }

  lemma PersistedOnce(w: World, e: Event)
    requires w.store.queue == [] || w.store.queue == [PendingSteps.Step(SignalsId([ChainEventKey(e)]), [e], 0)]
    ensures Persisted(w, SignalsId([ChainEventKey(e)]), [e]) == w.(store := w.store.(queue := [Queued(e)]))
  {
    var id := SignalsId([ChainEventKey(e)]);
    var saved := PendingSteps.Step(id, [e], 0);
    assert [saved][..0] == [];
    assert SaveStep(w.store.queue, id, [e]) == [saved];
    assert RecordAttempt([saved], id) == RecordAttempt([], id) + [Queued(e)] == [Queued(e)];
  }

  lemma NeverReturned(attempt: nat -> bool, n: nat)
    requires forall i :: !attempt(i)
    ensures !Returned(attempt, n)
  {
  }

  lemma SignalCommitted(env: Env, log: Log)
    requires Deaf(env, Signalled(log)) && IsSignal(log)
    ensures var w, e := INDEXED_GENESIS, SignalEvent(log);
      EventsTransaction(w, env, 1, [e], 1) ==
        Go(w.(store := w.store.(rows := [e], order := [e], identity := EMPTY_IDENTITY, finalized := Some(1))), Unit)
  {
    OneEventReplays(SignalEvent(log));
    assert RowsUpTo([], 0) == [] && CommittedRows(INDEXED_GENESIS, 1, [SignalEvent(log)]) == [SignalEvent(log)];
  }

  lemma CrashedAfterNotify(env: Env, log: Log)
    requires Deaf(env, Signalled(log)) && IsSignal(log)
    ensures Lost(CrashedAppending(CFG, INDEXED_GENESIS, env, 1, 1, AfterNotify)) == QueuedAhead(log)
  {
    var w, e := INDEXED_GENESIS, SignalEvent(log);
    SignalRead(log, 1);
    SignalCommitted(env, log);
    OneEventSorts(e);
    assert Reported(w, 1) == 1;
    ToldInVain(EventsTransaction(w, env, 1, [e], 1).world, env, e);
  }

  lemma ToldInVain(w: World, env: Env, e: Event)
    requires w.store.queue == [] && forall n :: !env.notified(n)
    ensures CrashedAfterAppend(CFG, w, env, 1, 1, 1, [e], AfterNotify) == w.(store := w.store.(queue := [Queued(e)]))
  {
    IdOfOne(e);
    NeverReturned(env.notified, POST_COMMIT_STEP_MAX_ATTEMPTS);
    PersistedOnce(w, e);
    assert Notified(CFG, w, env, [e]) == Persisted(w, SignalsId([ChainEventKey(e)]), [e]);
  }

  lemma IdOfOne(e: Event)
    ensures PendingPostCommitStepId([e]) == SignalsId([ChainEventKey(e)])
  {
    assert [e][..0] == [];
  }

  lemma CrashQueuesAhead(env: Env, log: Log)
    requires Deaf(env, Signalled(log)) && IsSignal(log)
    ensures CrashedRefresh(CFG, INDEXED_GENESIS, env, AfterNotify) == QueuedAhead(log)
  {
    SignalHash(log);
    GenesisStillThere(env);
    assert Finalized(CFG, env) == 1;
    CrashedAfterNotify(env, log);
    CrashAfterCheck(INDEXED_GENESIS, env, GENESIS_CURSOR);
  }

  lemma CrashAfterCheck(w: World, env: Env, c: Cursor)
    requires CurrentCursor(w) == Some(c) && c.next == Finalized(CFG, env) == 1
    requires RollbackOnReorg(CFG, w, env, 1) == Go(w, 1) && Swept(CFG, w, env) == w
    ensures CrashedRefresh(CFG, w, env, AfterNotify) == Lost(CrashedAppending(CFG, w, env, 1, 1, AfterNotify))
  {
    assert FromBlock(CFG, c) == 1;
  }

  /** The check passes and there is nothing to sweep. */
  lemma GenesisStillThere(env: Env)
    requires |env.chain| == 2 && HashAt(env.chain, 0) == Link(Root, GENESIS)
    ensures RollbackOnReorg(CFG, INDEXED_GENESIS, env, 1) == Go(INDEXED_GENESIS, 1)
    ensures Swept(CFG, INDEXED_GENESIS, env) == INDEXED_GENESIS
  {
    assert INDEXED_GENESIS.store.queue[..0] == [];
  }

  /**
   A ghost delivery from an empty store: the batch of block 1 is queued, the process dies before
   the cursor follows, block 1 is replaced, and the next round hands the old batch over. Its
   check sees nothing: the cursor's block is still canonical.
   */
  lemma GhostAfterCrash(env: Env, crash: Env, reorg: Env, log: Log, states: seq<World>)
    requires Deaf(env, [GENESIS]) && Deaf(crash, Signalled(log)) && IsSignal(log) && reorg.chain == [GENESIS, Block(2, [])]
    requires IsRun(CFG, [DoRefresh(env), CrashInRefresh(crash, AfterNotify)], states)
    ensures RollbackOnReorg(CFG, states[2], reorg, 1) == Go(states[2], 1)
    ensures HandedOver(CFG, states[2], reorg, SignalEvent(log)) && !OnChain(CFG, reorg.chain, SignalEvent(log))
  {
    var ops := [DoRefresh(env), CrashInRefresh(crash, AfterNotify)];
    var e := SignalEvent(log);
    GenesisRound(env);
    CrashQueuesAhead(crash, log);
    assert states[1] == Next(CFG, states[0], ops[0]) == INDEXED_GENESIS;
    assert states[2] == Next(CFG, states[1], ops[1]) == QueuedAhead(log);
    assert HashAt(reorg.chain, 0) == Link(Root, GENESIS);
    assert [e][..0] == [] && MaxBlock([e]) == 1;
    assert Queued(e) in states[2].store.queue && HandsOver(Queued(e), SweepEnvOf(CFG, states[2], reorg));
    assert reorg.chain[1].logs == [];
  }

  // ----- a forgotten event -----

  /** An order projection, the same in every round: what `second` does goes only behind what `first` did. */
  ghost predicate Accepted(first: Log, second: Log, xs: seq<Event>)
  {
    forall e | e in xs && e.log == second :: exists f :: f in xs && f.log == first
  }

  ghost predicate Meets(env: Env, chain: Chain, first: Log, second: Log)
  {
    && env.chain == chain && env.target == None && forall xs :: env.replays(xs) <==> Accepted(first, second, xs)
  }

  /** The chain with both logs, and the one that replaces it: the second log stands where it stood, the first is gone. */
  function Followed(first: Log, second: Log): Chain { [GENESIS, Block(1, [first]), Block(2, [second])] }

  function Replacing(second: Log): Chain { [GENESIS, Block(1, []), Block(2, [second])] }

  function SecondEvent(first: Log, second: Log): Event
  {
    Event(1, 2, second, false, Some(Link(Link(Link(Root, GENESIS), Block(1, [first])), Block(2, [second]))))
  }

  function MovedEvent(second: Log): Event
  {
    Event(1, 2, second, false, Some(Link(Link(Link(Root, GENESIS), Block(1, [])), Block(2, [second]))))
  }

  lemma FollowedHashes(first: Log, second: Log)
    ensures HashAt(Followed(first, second), 1) == Link(Link(Root, GENESIS), Block(1, [first]))
    ensures SecondEvent(first, second).blockHash == Some(HashAt(Followed(first, second), 2))
    ensures MovedEvent(second).blockHash == Some(HashAt(Replacing(second), 2))
  {
    assert HashAt(Followed(first, second), 0) == Link(Root, GENESIS) == HashAt(Replacing(second), 0);
    assert HashAt(Replacing(second), 1) == Link(Link(Root, GENESIS), Block(1, []));
  }

  /** The state after a first round that indexed the first log and notified it. */
  function Opened(first: Log): World
  {
    var e := SignalEvent(first);
    var c := Cursor(2, 1, e.blockHash);
    World(Store([e], Some(c), [e], EMPTY_IDENTITY, Some(1), []), Some(c), 0, {ChainEventKey(e)}, {}, map[])
  }

  /** The state after a second round that indexed the second log and could not notify it. */
  function Waiting(first: Log, second: Log): World
  {
    var d, e := SignalEvent(first), SecondEvent(first, second);
    var c := Cursor(3, 2, e.blockHash);
    World(Store([d, e], Some(c), [d, e], EMPTY_IDENTITY, Some(2), [Queued(e)]), Some(c), 0, {ChainEventKey(d)}, {}, map[])
  }

  lemma OneKey(e: Event)
    ensures KeySet([e]) == {ChainEventKey(e)} && KeysOf([e]) == [ChainEventKey(e)]
  {
    assert [e][..0] == [];
    assert KeysOf([e]) == KeysOf([]) + [ChainEventKey(e)] == [ChainEventKey(e)];
  }

  lemma FirstAccepted(env: Env, chain: Chain, first: Log, second: Log, e: Event)
    requires Meets(env, chain, first, second) && first != second && e.log == first
    ensures env.replays([e])
  {
  }

  lemma OpeningRound(env: Env, first: Log, second: Log)
    requires Meets(env, Signalled(first), first, second) && env.notified(0) && IsSignal(first) && first != second
    ensures Refresh(CFG, START, env) == Go(Opened(first), Unit)
  {
    var e := SignalEvent(first);
    SignalHash(first);
    SignalRead(first, 0);
    OneEventReplays(e);
    FirstAccepted(env, Signalled(first), first, second, e);
    OneKey(e);
    var w0 := Marked(START, 1);
    var w1 := PrePersisted(CFG, w0, [e]);
    var saved := PendingSteps.Step(SignalsId([ChainEventKey(e)]), [e], 0);
    assert w1 == w0.(store := w0.store.(queue := [saved]));
    NotifiedFirst(env, w1, e);
    assert Rebuild(CFG, START, env) == CommitRebuild(CFG, w1, env, 1, [e]);
  }

  lemma NotifiedFirst(env: Env, w: World, e: Event)
    requires env.notified(0) && |env.chain| > 1 && env.replays([e]) && !e.removed && e.log.payload.SignalSubmitted?
    requires w.store.queue == [PendingSteps.Step(SignalsId([ChainEventKey(e)]), [e], 0)]
    ensures var c := ReadCursor(env, 1, 1);
      CommitRebuild(CFG, w, env, 1, [e]) ==
        Go(w.(store := Store([e], Some(c), [e], EMPTY_IDENTITY, Some(1), []), memory := Some(c),
              handled := {ChainEventKey(e)}, dead := {}), Unit)
  {
    OneEventReplays(e);
    var c := ReadCursor(env, 1, 1);
    var v := Replaced(CFG, w, [e], c);
    assert v == w.(store := Store([e], Some(c), [e], EMPTY_IDENTITY, Some(1), w.store.queue), handled := {}, dead := {});
    SettledFirst(env, v, e);
  }

  lemma SettledFirst(env: Env, v: World, e: Event)
    requires env.notified(0) && v.handled == {}
    requires v.store.queue == [PendingSteps.Step(SignalsId([ChainEventKey(e)]), [e], 0)]
    ensures NotificationSettled(CFG, v, env, [e]) == v.(store := v.store.(queue := []), handled := {ChainEventKey(e)})
  {
    OneKey(e);
    var q, id := v.store.queue, SignalsId([ChainEventKey(e)]);
    assert q[..0] == [];
    assert DropStep(q, id) == DropStep([], id) + [] == [];
    assert Returned(env.notified, 1) && Returned(env.notified, 2) && Returned(env.notified, POST_COMMIT_STEP_MAX_ATTEMPTS);
  }

  /** Two events of different blocks in their order. */
  lemma TwoEventsReplay(d: Event, e: Event)
    requires !d.removed && !e.removed && d.log.payload.SignalSubmitted? && e.log.payload.SignalSubmitted?
    requires d.chainId == e.chainId && d.blockNumber < e.blockNumber
    ensures Listed([d, e]) == [d, e] && Active([d, e]) == [d, e] && RebuildIdentity([d, e]) == Ok(EMPTY_IDENTITY)
    ensures AppendRows([d], [e]) == [d, e]
  {
    assert [d, e][..1] == [d] && [d][..0] == [] && [e][..0] == [];
    OneEventReplays(d);
    assert Sort([d], Before) == [d];
    assert Sort([d, e], Before) == Insert([d], e, Before) == [d, e];
    assert Scan([d]) == [d];
    assert Scan([d, e]) == MapSet([d], e) == [d] + MapSet([], e) == [d, e];
    assert Fold([d]) == Ok(EMPTY_IDENTITY) && Fold([d, e]) == Apply(EMPTY_IDENTITY, e);
    assert !HasKey([d], ChainEventKey(e));
    assert AppendRows([d], [e]) == AppendRow([d], e) == [d, e];
  }

  lemma WaitingRound(env: Env, first: Log, second: Log)
    requires Meets(env, Followed(first, second), first, second) && (forall n :: !env.notified(n))
    requires IsSignal(first) && IsSignal(second) && first != second
    ensures Refresh(CFG, Opened(first), env) == Go(Waiting(first, second), Unit)
  {
    var w, d, e := Opened(first), SignalEvent(first), SecondEvent(first, second);
    FollowedHashes(first, second);
    assert Followed(first, second)[2].logs == [second];
    OneRead(Followed(first, second), 2, 2, second);
    OpenedStillThere(env, first, second);
    OneEventSorts(e);
    SecondCommitted(env, first, second);
    SecondQueued(env, first, second);
    assert Finalized(CFG, env) == 2 && Reported(w, 2) == 2;
    assert Appending(CFG, w, env, 2, 2) == Go(Waiting(first, second), Unit);
    RoundAfterCheck(w, env, w.memory.value, 2);
  }

  lemma OpenedStillThere(env: Env, first: Log, second: Log)
    requires Meets(env, Followed(first, second), first, second)
    ensures var w := Opened(first);
      RollbackOnReorg(CFG, w, env, 2) == Go(w, 2) && Swept(CFG, w, env) == w
  {
    FollowedHashes(first, second);
    assert Opened(first).store.queue[..0] == [];
  }

  lemma RoundAfterCheck(w: World, env: Env, c: Cursor, from: nat)
    requires CurrentCursor(w) == Some(c) && c.next == from == Finalized(CFG, env)
    requires RollbackOnReorg(CFG, w, env, from) == Go(w, from) && Swept(CFG, w, env) == w
    ensures Refresh(CFG, w, env) == Appending(CFG, w, env, from, from)
  {
    assert FromBlock(CFG, c) == from;
  }

  lemma OneRowBelow(d: Event)
    requires d.blockNumber <= 1
    ensures RowsUpTo([d], 1) == [d]
  {
    FilterAppend([], d, (e: Event) => e.blockNumber <= 1);
    assert [] + [d] == [d];
  }

  lemma SecondCommitted(env: Env, first: Log, second: Log)
    requires Meets(env, Followed(first, second), first, second) && IsSignal(first) && IsSignal(second) && first != second
    ensures var w, d, e := Opened(first), SignalEvent(first), SecondEvent(first, second);
      EventsTransaction(w, env, 2, [e], 2) ==
        Go(w.(store := w.store.(rows := [d, e], order := [d, e], finalized := Some(2))), Unit)
  {
    var w, d, e := Opened(first), SignalEvent(first), SecondEvent(first, second);
    TwoEventsReplay(d, e);
    OneRowBelow(d);
    assert CommittedRows(w, 2, [e]) == AppendRows(RowsUpTo([d], 1), [e]);
    assert d in [d, e] && d.log == first;
    assert env.replays([d, e]);
  }

  lemma SecondQueued(env: Env, first: Log, second: Log)
    requires Meets(env, Followed(first, second), first, second) && (forall n :: !env.notified(n))
    requires IsSignal(first) && IsSignal(second)
    ensures var w, d, e := Opened(first), SignalEvent(first), SecondEvent(first, second);
      AfterAppend(CFG, w.(store := w.store.(rows := [d, e], order := [d, e], finalized := Some(2))), env, 2, 2, 2, [e]) ==
        Go(Waiting(first, second), Unit)
  {
    var w, d, e := Opened(first), SignalEvent(first), SecondEvent(first, second);
    var w1 := w.(store := w.store.(rows := [d, e], order := [d, e], finalized := Some(2)));
    FollowedHashes(first, second);
    IdOfOne(e);
    NeverReturned(env.notified, POST_COMMIT_STEP_MAX_ATTEMPTS);
    PersistedOnce(w1, e);
    assert Notified(CFG, w1, env, [e]) == Persisted(w1, SignalsId([ChainEventKey(e)]), [e]);
  }

  /**
   An event forgotten from an empty store, by one projection that never changes: two logs are
   indexed, the batch of the second waits in the queue, and a rebuild on a chain without the
   first aborts. The step it withdraws is the old batch's, whose event still stands below the
   cursor; when the old chain comes back the next check finds nothing to do.
   */
  lemma AbortForgetsEvent(first: Log, second: Log, opening: Env, waiting: Env, abort: Env, states: seq<World>)
    requires IsSignal(first) && IsSignal(second) && first != second
    requires Meets(opening, Signalled(first), first, second) && opening.notified(0)
    requires Meets(waiting, Followed(first, second), first, second) && forall n :: !waiting.notified(n)
    requires Meets(abort, Replacing(second), first, second)
    requires IsRun(CFG, [DoRefresh(opening), DoRefresh(waiting), DoRebuild(abort)], states)
    ensures NothingForgotten(states[2]) && LossyOp(CFG, states[2], DoRebuild(abort))
    ensures var e := SecondEvent(first, second);
      e in states[3].store.rows && OnChain(CFG, waiting.chain, e) && !AccountedFor(states[3], ChainEventKey(e))
    ensures RollbackOnReorg(CFG, states[3], waiting, 3) == Go(states[3], 3) && states[3].store.queue == []
  {
    var ops := [DoRefresh(opening), DoRefresh(waiting), DoRebuild(abort)];
    OpeningRound(opening, first, second);
    WaitingRound(waiting, first, second);
    assert states[1] == Next(CFG, states[0], ops[0]) == Opened(first);
    assert states[2] == Next(CFG, states[1], ops[1]) == Waiting(first, second);
    assert states[3] == Next(CFG, states[2], ops[2]);
    WaitingIsAccounted(first, second);
    AbortWithdraws(abort, first, second);
    Abandoned(waiting, first, second);
  }

  lemma Abandoned(waiting: Env, first: Log, second: Log)
    requires waiting.chain == Followed(first, second) && IsSignal(second)
    ensures var e, w := SecondEvent(first, second), Waiting(first, second);
      var v := w.(store := w.store.(queue := []));
      && OnChain(CFG, waiting.chain, e) && !AccountedFor(v, ChainEventKey(e))
      && RollbackOnReorg(CFG, v, waiting, 3) == Go(v, 3)
  {
    FollowedHashes(first, second);
    assert waiting.chain[2].logs == [second];
    assert ChainEventKey(SecondEvent(first, second)) != ChainEventKey(SignalEvent(first));
  }

  lemma MovedIsRead(first: Log, second: Log)
    requires IsSignal(second)
    ensures ReadEvents(CFG, Replacing(second), 0, 2) == [MovedEvent(second)]
  {
    FollowedHashes(first, second);
    var chain := Replacing(second);
    assert chain[0].logs == [] && chain[1].logs == [] && chain[2].logs == [second];
    OneRead(chain, 0, 2, second);
  }

  lemma MovedIsRefused(abort: Env, first: Log, second: Log)
    requires Meets(abort, Replacing(second), first, second) && IsSignal(second) && first != second
    ensures !Replaceable(CFG, abort, [MovedEvent(second)])
    ensures RebuildIdentity([MovedEvent(second)]).Ok? && Active([MovedEvent(second)]) == [MovedEvent(second)]
  {
    var e := MovedEvent(second);
    OneEventReplays(e);
    assert e in [e] && !Accepted(first, second, [e]);
    assert !abort.replays([e]);
  }

  lemma AbortWithdraws(abort: Env, first: Log, second: Log)
    requires Meets(abort, Replacing(second), first, second) && IsSignal(second) && first != second
    ensures var w := Waiting(first, second);
      && Rebuild(CFG, w, abort).world == w.(store := w.store.(queue := []))
      && LossyOp(CFG, w, DoRebuild(abort))
  {
    var w, e := Waiting(first, second), MovedEvent(second);
    MovedIsRead(first, second);
    MovedIsRefused(abort, first, second);
    OnlyQueued(first, second);
    WithdrawnLeavesNothing(w, SecondEvent(first, second), e);
    AbortedRebuild(w, abort, e);
  }

  /** A rebuild up to block 2 that reads one event and is refused. */
  lemma AbortedRebuild(w: World, abort: Env, e: Event)
    requires abort.target == None && |abort.chain| == 3 && w.store.finalized == Some(2)
    requires ReadEvents(CFG, abort.chain, 0, 2) == [e] && RebuildIdentity([e]).Ok? && Active([e]) == [e]
    requires !Replaceable(CFG, abort, [e])
    ensures Rebuild(CFG, w, abort) == Stop(Withdrawn(CFG, PrePersisted(CFG, w, [e]), [e]), ReplayFault)
    ensures LossyOp(CFG, w, DoRebuild(abort)) <==> Forgets(CFG, w, [e])
  {
    assert Finalized(CFG, abort) == 2 && Marked(w, 2) == w;
  }

  lemma WithdrawnLeavesNothing(w: World, queued: Event, moved: Event)
    requires w.store.queue == [Queued(queued)] && ChainEventKey(queued) == ChainEventKey(moved)
    ensures Withdrawn(CFG, PrePersisted(CFG, w, [moved]), [moved]) == w.(store := w.store.(queue := []))
  {
    OneKey(moved);
    var id := SignalsId([ChainEventKey(moved)]);
    assert [Queued(queued)][..0] == [];
    assert PrePersisted(CFG, w, [moved]) == w;
    assert DropStep([Queued(queued)], id) == [];
  }

  lemma WaitingIsAccounted(first: Log, second: Log)
    ensures NothingForgotten(Waiting(first, second))
  {
    var e := SecondEvent(first, second);
    var id := SignalsId([ChainEventKey(e)]);
    assert Look([Queued(e)], id) == Some(Queued(e));
    assert KeyQueued([Queued(e)], ChainEventKey(e));
  }

  lemma OnlyQueued(first: Log, second: Log)
    ensures Forgets(CFG, Waiting(first, second), [MovedEvent(second)])
  {
    var e := SecondEvent(first, second);
    var id := SignalsId([ChainEventKey(e)]);
    OneKey(e);
    OneKey(MovedEvent(second));
    assert [Queued(e)][..0] == [];
    forall i | i != id ensures Look([Queued(e)], i).None? {
      assert Look([Queued(e)], i) == Look([], i);
    }
    assert ChainEventKey(e) != ChainEventKey(SignalEvent(first));
    assert OnlyIn(Waiting(first, second), id, e);
  }
}
