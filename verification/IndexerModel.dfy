/**
 The indexer's rounds as functions on its whole state, sub-step by sub-step, with the
 states that a crash between two sub-steps leaves (service/src/indexer/service.ts).
 */
module IndexerModel {
  import opened Prelude
  import opened Sorting
  import opened ChainEvents
  import opened EventSource
  import opened IdentityProjections
  import opened PendingSteps
  import opened PendingSweep
  import opened ProjectionStore
  import Deliveries

  /**
   What one round meets: the chain, fixed for the round, a target block if the caller gave
   one, which event lists the order projections accept, and which processor calls return.
   */
  datatype Env = Env(
    chain: Chain, target: Option<nat>, replays: seq<Event> -> bool, delivers: StepId -> bool,
    notified: nat -> bool, automated: nat -> bool)

  /**
   The durable store, the two fields the process keeps in memory, the delivery ledger, and
   the history the delivery theorems speak of: the keys whose batch a processor call took,
   or the sweep gave up, since the table last held less than them.
   */
  datatype World = World(
    store: Store, memory: Option<Cursor>, casFailures: nat, handled: set<Key>, dead: set<Key>, ledger: Deliveries.Ledger)

  datatype Fault = SourceFault | ReplayFault | IdentityFault | SecondWriter | ReorgTooDeep | NoBlockHashes

  datatype Flow<+T> = Go(world: World, value: T) | Stop(world: World, fault: Fault)

  datatype Unit = Unit

  const MAX_REORG_BACKTRACK_BLOCKS: nat := 1000
  const CURSOR_CAS_FAILURE_LIMIT: nat := 3
  const POST_COMMIT_STEP_MAX_ATTEMPTS: nat := 3

  function Finalized(cfg: Config, env: Env): nat
  {
    var bound := FinalizedBlock(if |env.chain| == 0 then 0 else |env.chain| - 1, cfg.finalityConfirmations);
    if env.target.Some? && env.target.value < bound then env.target.value else bound
  }

  // ----- the ancestor search -----

  predicate IsAnchor(e: Event, floor: nat, from: nat)
  {
    !e.removed && e.blockHash.Some? && floor <= e.blockNumber < from
  }

  predicate Later(l: Event, r: Event) { l.blockNumber > r.blockNumber }

  function Anchors(rows: seq<Event>, floor: nat, from: nat): seq<Event>
  {
    Sort(Filter(Listed(rows), (e: Event) => IsAnchor(e, floor, from)), Later)
  }

  predicate Canonical(chain: Chain, e: Event)
  {
    e.blockNumber < |chain| && e.blockHash == Some(HashAt(chain, e.blockNumber))
  }

  /** The window search asks about each block once, through the first of its events. */
  function FirstUnseen(candidates: seq<Event>, chain: Chain, seen: set<nat>): Option<Event>
  {
    if |candidates| == 0 then None
    else if candidates[0].blockNumber in seen then FirstUnseen(candidates[1..], chain, seen)
    else if Canonical(chain, candidates[0]) then Some(candidates[0])
    else FirstUnseen(candidates[1..], chain, seen + {candidates[0].blockNumber})
  }

  function FirstCanonical(candidates: seq<Event>, chain: Chain): Option<Event>
  {
    if |candidates| == 0 then None
    else if Canonical(chain, candidates[0]) then Some(candidates[0])
    else FirstCanonical(candidates[1..], chain)
  }

  datatype Search = Found(anchor: Event) | NoneCanonical | Hashless | NoEvents

  function BacktrackFloor(cfg: Config, from: nat): nat
  {
    if from > MAX_REORG_BACKTRACK_BLOCKS && from - MAX_REORG_BACKTRACK_BLOCKS > cfg.deploymentBlock
    then from - MAX_REORG_BACKTRACK_BLOCKS else cfg.deploymentBlock
  }

  function FindAncestor(cfg: Config, rows: seq<Event>, chain: Chain, from: nat): Search
  {
    var inWindow := FirstUnseen(Anchors(rows, BacktrackFloor(cfg, from), from), chain, {});
    if inWindow.Some? then Found(inWindow.value)
    else
      var all := Anchors(rows, cfg.deploymentBlock, from);
      var any := FirstCanonical(all, chain);
      if any.Some? then Found(any.value)
      else if |all| > 0 then NoneCanonical
      else if exists e :: e in rows && !e.removed then Hashless
      else NoEvents
  }

  // ----- rollback -----

  function KeysBelow(keys: set<Key>, block: nat): set<Key> { set k | k in keys && k.blockNumber <= block }

  function AnchorCursor(cfg: Config, anchor: Event): Cursor
  {
    Cursor(Max(anchor.blockNumber + 1, cfg.deploymentBlock), anchor.blockNumber, anchor.blockHash)
  }

  /** Whether both projections can be rebuilt from the stored events. */
  function ReplayOutcome(env: Env, rows: seq<Event>): Option<Fault>
  {
    if !env.replays(Active(Listed(rows))) then Some(ReplayFault)
    else if RebuildIdentity(Listed(rows)).Err? then Some(IdentityFault)
    else None
  }

  /** The rollback transaction; the value says whether the cursor could be written. */
  function RollbackTransaction(cfg: Config, w: World, env: Env, from: nat, anchor: Event): Flow<bool>
  {
    var rows := RowsUpTo(w.store.rows, anchor.blockNumber);
    var fault := ReplayOutcome(env, rows);
    if fault.Some? then Stop(w, fault.value)
    else CommitRollback(cfg, w, from, anchor, rows, Active(Listed(rows)), RebuildIdentity(Listed(rows)).value)
  }

  function CommitRollback(cfg: Config, w: World, from: nat, anchor: Event, rows: seq<Event>, order: seq<Event>,
                          identity: IdentitySnapshot): Flow<bool>
  {
    if !MayWriteCursor(w.store, Some(from)) then Go(w, false)
    else
      var c := AnchorCursor(cfg, anchor);
      var store := Store(rows, Some(c), order, identity, Some(anchor.blockNumber), w.store.queue);
      Go(World(store, Some(c), 0, KeysBelow(w.handled, anchor.blockNumber), KeysBelow(w.dead, anchor.blockNumber), w.ledger),
         true)
  }

  /** The steps linked to a rollback: deliveries above the ancestor are invalidated, the queue is trimmed. */
  function Linked(cfg: Config, w: World, ancestor: nat): World
  {
    w.(ledger := if cfg.hasProcessor then Deliveries.Invalidate(w.ledger, cfg.chainId, ancestor) else w.ledger,
       store := w.store.(queue := Trim(w.store.queue, ancestor)))
  }

  /** The cursor was moved by somebody else: take over the durable one, or give up after three times in a row. */
  function Deferred(cfg: Config, w: World, from: nat): Flow<nat>
  {
    var counted := w.(casFailures := w.casFailures + 1);
    if counted.casFailures >= CURSOR_CAS_FAILURE_LIMIT then Stop(counted, SecondWriter)
    else
      match w.store.cursor
      case None => Go(counted, from)
      case Some(c) =>
        var next := Max(c.next, cfg.deploymentBlock);
        Go(counted.(memory := Some(c.(next := next))), next)
  }

  function RollbackToCommonAncestor(cfg: Config, w: World, env: Env, from: nat): Flow<nat>
  {
    match FindAncestor(cfg, w.store.rows, env.chain, from)
    case NoneCanonical => Stop(w, ReorgTooDeep)
    case Hashless => Stop(w, NoBlockHashes)
    case NoEvents => Go(w, from)
    case Found(anchor) =>
      match RollbackTransaction(cfg, w, env, from, anchor)
      case Stop(w1, fault) => Stop(w1, fault)
      case Go(w1, written) =>
        if written then Go(Linked(cfg, w1, anchor.blockNumber), AnchorCursor(cfg, anchor).next)
        else Deferred(cfg, w1, from)
  }

  /** Nothing below `from` can be compared with the chain. */
  predicate Unchecked(cfg: Config, w: World, from: nat)
  {
    w.store.cursor.None? || w.store.cursor.value.hash.None? || from < cfg.deploymentBlock + 1
  }

  predicate HashMatches(w: World, env: Env, from: nat)
    requires 0 < from <= |env.chain|
  {
    w.store.cursor.Some? && w.store.cursor.value.hash == Some(HashAt(env.chain, from - 1))
  }

  /** The check before an append; the value is the block to continue from. */
  function RollbackOnReorg(cfg: Config, w: World, env: Env, from: nat): Flow<nat>
  {
    if Unchecked(cfg, w, from) then Go(w, from)
    else if from > |env.chain| then Stop(w, SourceFault)
    else if HashMatches(w, env, from) then Go(w, from)
    else RollbackToCommonAncestor(cfg, w, env, from)
  }

  // ----- the sweep -----

  function SweepEnvOf(cfg: Config, w: World, env: Env): SweepEnv
  {
    SweepEnv(w.store.finalized, cfg.hasProcessor, cfg.hasAutomation, env.delivers)
  }

  function SweptPartly(cfg: Config, w: World, env: Env, n: nat): World
    requires n <= |w.store.queue|
  {
    var st := SweepFrom(Begin(w.store.queue, w.handled, w.dead), w.store.queue[..n], SweepEnvOf(cfg, w, env));
    w.(store := w.store.(queue := st.queue), handled := st.handled, dead := st.dead)
  }

  function Swept(cfg: Config, w: World, env: Env): World { SweptPartly(cfg, w, env, |w.store.queue|) }

  // ----- after a commit -----

  /** One of the first n attempts returns. */
  predicate Returned(attempt: nat -> bool, n: nat) { n > 0 && (Returned(attempt, n - 1) || attempt(n - 1)) }

  function Saved(w: World, id: StepId, events: seq<Event>): World
  {
    w.(store := w.store.(queue := SaveStep(w.store.queue, id, events)))
  }

  function Persisted(w: World, id: StepId, events: seq<Event>): World
  {
    w.(store := w.store.(queue := RecordAttempt(SaveStep(w.store.queue, id, events), id)))
  }

  function Dropped(w: World, id: StepId): World
  {
    w.(store := w.store.(queue := DropStep(w.store.queue, id)))
  }

  predicate HasNotification(cfg: Config, events: seq<Event>) { cfg.hasProcessor && |events| > 0 }

  function Notified(cfg: Config, w: World, env: Env, events: seq<Event>): World
  {
    if !HasNotification(cfg, events) then w
    else if Returned(env.notified, POST_COMMIT_STEP_MAX_ATTEMPTS) then w.(handled := w.handled + KeySet(events))
    else Persisted(w, PendingPostCommitStepId(events), events)
  }

  function Automated(cfg: Config, w: World, env: Env): World
  {
    if !cfg.hasAutomation || Returned(env.automated, POST_COMMIT_STEP_MAX_ATTEMPTS) then w
    else Persisted(w, AutomationId, [])
  }

  // ----- the incremental round -----

  function SaveCursorAdvancingFrom(w: World, c: Cursor, expected: nat): Flow<Unit>
  {
    if MayWriteCursor(w.store, Some(expected)) then
      Go(w.(store := w.store.(cursor := Some(c)), memory := Some(c), casFailures := 0), Unit)
    else
      var counted := w.(memory := w.store.cursor, casFailures := w.casFailures + 1);
      if counted.casFailures >= CURSOR_CAS_FAILURE_LIMIT then Stop(counted, SecondWriter) else Go(counted, Unit)
  }

  function BoundOf(c: Option<Cursor>): nat { if c.Some? then c.value.finalized else 0 }

  /** A finality reading below a persisted one is not taken over. */
  function Reported(w: World, finalized: nat): nat
  {
    Max(finalized, Max(BoundOf(w.store.cursor), BoundOf(w.memory)))
  }

  function CommittedRows(w: World, from: nat, events: seq<Event>): seq<Event>
  {
    var mine := from > 0 && w.store.cursor.Some? && w.store.cursor.value.next == from;
    AppendRows(if mine then RowsUpTo(w.store.rows, from - 1) else w.store.rows, events)
  }

  function EventsTransaction(w: World, env: Env, from: nat, events: seq<Event>, reported: nat): Flow<Unit>
  {
    var rows := CommittedRows(w, from, events);
    var fault := ReplayOutcome(env, rows);
    if fault.Some? then Stop(w, fault.value)
    else
      Go(w.(store := w.store.(rows := rows, order := Active(Listed(rows)), identity := RebuildIdentity(Listed(rows)).value,
                              finalized := Some(reported))), Unit)
  }

  /** Nothing final to read: the cursor is confirmed where it is. */
  function Lagging(cfg: Config, w: World, env: Env, from: nat, finalized: nat): Flow<Unit>
  {
    var reported := Reported(w, finalized);
    if from > |env.chain| then Stop(w, SourceFault)
    else
      var c := Cursor(from, reported, if from > 0 then Some(HashAt(env.chain, from - 1)) else None);
      match SaveCursorAdvancingFrom(w, c, from)
      case Stop(w1, fault) => Stop(w1, fault)
      case Go(w1, _) => Go(Automated(cfg, w1.(store := w1.store.(finalized := Some(reported))), env), Unit)
  }

  function Appending(cfg: Config, w: World, env: Env, from: nat, finalized: nat): Flow<Unit>
  {
    var events := ReadEvents(cfg, env.chain, from, finalized);
    match EventsTransaction(w, env, from, events, Reported(w, finalized))
    case Stop(w1, fault) => Stop(w1, fault)
    case Go(w1, _) => AfterAppend(cfg, w1, env, from, finalized, Reported(w, finalized), Active(events))
  }

  /** Notify first, then move the cursor. */
  function AfterAppend(cfg: Config, w: World, env: Env, from: nat, finalized: nat, reported: nat, active: seq<Event>): Flow<Unit>
  {
    var told := Notified(cfg, w, env, active);
    if finalized >= |env.chain| then Stop(told, SourceFault)
    else
      match SaveCursorAdvancingFrom(told, ReadCursor(env, finalized, reported), from)
      case Stop(w1, fault) => Stop(w1, fault)
      case Go(w1, _) => Go(Automated(cfg, w1, env), Unit)
  }

  /** The cursor behind a read up to `finalized`. */
  function ReadCursor(env: Env, finalized: nat, reported: nat): Cursor
    requires finalized < |env.chain|
  {
    Cursor(finalized + 1, reported, Some(HashAt(env.chain, finalized)))
  }

  function Continue(cfg: Config, w: World, env: Env, from: nat): Flow<Unit>
  {
    var finalized := Finalized(cfg, env);
    if finalized < from then Lagging(cfg, w, env, from, finalized) else Appending(cfg, w, env, from, finalized)
  }

  function CurrentCursor(w: World): Option<Cursor> { if w.memory.Some? then w.memory else w.store.cursor }

  function FromBlock(cfg: Config, c: Cursor): nat { Max(c.next, cfg.deploymentBlock) }

  function Refresh(cfg: Config, w: World, env: Env): Flow<Unit>
  {
    match CurrentCursor(w)
    case None => Rebuild(cfg, w, env)
    case Some(c) =>
      match RollbackOnReorg(cfg, w, env, FromBlock(cfg, c))
      case Stop(w1, fault) => Stop(w1, fault)
      case Go(w1, from) => Continue(cfg, Swept(cfg, w1, env), env, from)
  }

  // ----- the rebuild -----

  function Marked(w: World, finalized: nat): World { w.(store := w.store.(finalized := Some(finalized))) }

  function PrePersisted(cfg: Config, w: World, active: seq<Event>): World
  {
    if HasNotification(cfg, active) then Saved(w, PendingPostCommitStepId(active), active) else w
  }

  function Withdrawn(cfg: Config, w: World, active: seq<Event>): World
  {
    if HasNotification(cfg, active) then Dropped(w, PendingPostCommitStepId(active)) else w
  }

  /** The whole table is replaced; what was handled before is history of another table. */
  function Replaced(cfg: Config, w: World, events: seq<Event>, c: Cursor): World
    requires RebuildIdentity(RowsFrom(events, cfg.deploymentBlock)).Ok?
  {
    w.(store := Reset(w.store, cfg.deploymentBlock, events, c, RebuildIdentity(RowsFrom(events, cfg.deploymentBlock)).value),
       handled := {}, dead := {})
  }

  function NotificationSettled(cfg: Config, w: World, env: Env, active: seq<Event>): World
  {
    var told := Notified(cfg, w, env, active);
    if Returned(env.notified, POST_COMMIT_STEP_MAX_ATTEMPTS) then Withdrawn(cfg, told, active) else told
  }

  /** Nothing final at or above the deployment block: only the cursor and the sync state are written. */
  function CursorReset(cfg: Config, w: World, env: Env, finalized: nat): Flow<Unit>
  {
    if cfg.deploymentBlock > |env.chain| then Stop(w, SourceFault)
    else
      var hash := if cfg.deploymentBlock > 0 then Some(HashAt(env.chain, cfg.deploymentBlock - 1)) else None;
      var c := Cursor(cfg.deploymentBlock, finalized, hash);
      Go(w.(store := w.store.(cursor := Some(c)), memory := Some(c)), Unit)
  }

  function EmptyRebuild(cfg: Config, w: World, env: Env, finalized: nat): Flow<Unit>
  {
    match CursorReset(cfg, w, env, finalized)
    case Stop(w1, fault) => Stop(w1, fault)
    case Go(w1, _) => Go(Marked(w1, finalized), Unit)
  }

  predicate Replaceable(cfg: Config, env: Env, events: seq<Event>)
  {
    var kept := RowsFrom(events, cfg.deploymentBlock);
    env.replays(Active(kept)) && RebuildIdentity(kept).Ok?
  }

  function Rebuild(cfg: Config, w: World, env: Env): Flow<Unit>
  {
    var finalized := Finalized(cfg, env);
    if finalized < cfg.deploymentBlock then EmptyRebuild(cfg, w, env, finalized)
    else
      var w0 := Marked(w, finalized);
      var events := ReadEvents(cfg, env.chain, cfg.deploymentBlock, finalized);
      if RebuildIdentity(events).Err? then Stop(w0, IdentityFault)
      else if finalized >= |env.chain| then Stop(w0, SourceFault)
      else
        CommitRebuild(cfg, PrePersisted(cfg, w0, Active(events)), env, finalized, events)
  }

  function CommitRebuild(cfg: Config, w: World, env: Env, finalized: nat, events: seq<Event>): Flow<Unit>
    requires finalized < |env.chain|
  {
    if !Replaceable(cfg, env, events) then Stop(Withdrawn(cfg, w, Active(events)), ReplayFault)
    else
      var c := ReadCursor(env, finalized, finalized);
      var settled := NotificationSettled(cfg, Replaced(cfg, w, events, c), env, Active(events));
      Go(Automated(cfg, settled, env).(memory := Some(c)), Unit)
  }

  // ----- crashes -----

  /** Where in a round the process dies. Sweeps and trims may stop after any number of rows. */
  datatype CrashPoint =
    | InTrim(rows: nat, invalidated: bool)
    | InSweep(rows: nat, handedOver: bool)
    | AfterEvents | AfterSave | AfterNotify | AfterCursor
    | AfterMark | AfterPrePersist | AfterReset | AfterSettle

  function Lost(w: World): World { w.(memory := None, casFailures := 0) }

  /** A rollback whose linked steps stop after the invalidation, perhaps, and after n trimmed rows. */
  function PartlyLinked(cfg: Config, w: World, ancestor: nat, n: nat, invalidated: bool): World
    requires n <= |w.store.queue|
  {
    w.(ledger := if invalidated && cfg.hasProcessor then Deliveries.Invalidate(w.ledger, cfg.chainId, ancestor) else w.ledger,
       store := w.store.(queue := TrimPass(w.store.queue, w.store.queue[..n], ancestor)))
  }

  /** Dead in the middle of the rollback, or before it when there is none. */
  function CrashedRollback(cfg: Config, w: World, env: Env, from: nat, rows: nat, invalidated: bool): World
  {
    if Unchecked(cfg, w, from) || from > |env.chain| || HashMatches(w, env, from) then w
    else
      match FindAncestor(cfg, w.store.rows, env.chain, from)
      case Found(anchor) =>
        (match RollbackTransaction(cfg, w, env, from, anchor)
         case Go(w1, true) =>
           PartlyLinked(cfg, w1, anchor.blockNumber, Min(rows, |w1.store.queue|), invalidated)
         case _ => w)
      case _ => w
  }

  /** Dead in the middle of the sweep, possibly after a call returned and before its row was deleted. */
  function CrashedSweep(cfg: Config, w: World, env: Env, rows: nat, handedOver: bool): World
  {
    var n := Min(rows, |w.store.queue|);
    var w1 := SweptPartly(cfg, w, env, n);
    if handedOver && n < |w.store.queue| && Deliver(w.store.queue[n], SweepEnvOf(cfg, w, env)) == Delivered then
      w1.(handled := w1.handled + KeySet(w.store.queue[n].events))
    else w1
  }

  function CrashedAppending(cfg: Config, w: World, env: Env, from: nat, finalized: nat, p: CrashPoint): World
  {
    var events := ReadEvents(cfg, env.chain, from, finalized);
    match EventsTransaction(w, env, from, events, Reported(w, finalized))
    case Stop(w1, _) => w1
    case Go(w1, _) => CrashedAfterAppend(cfg, w1, env, from, finalized, Reported(w, finalized), Active(events), p)
  }

  function CrashedAfterAppend(cfg: Config, w: World, env: Env, from: nat, finalized: nat, reported: nat, active: seq<Event>,
                              p: CrashPoint): World
  {
    if p.AfterEvents? then w
    else if p.AfterSave? then PrePersisted(cfg, w, active)
    else
      var told := Notified(cfg, w, env, active);
      if p.AfterNotify? || finalized >= |env.chain| then told
      else SaveCursorAdvancingFrom(told, ReadCursor(env, finalized, reported), from).world
  }

  function CrashedLagging(w: World, env: Env, from: nat, finalized: nat, p: CrashPoint): World
  {
    if p.AfterCursor? && from <= |env.chain| then
      var hash := if from > 0 then Some(HashAt(env.chain, from - 1)) else None;
      SaveCursorAdvancingFrom(w, Cursor(from, Reported(w, finalized), hash), from).world
    else w
  }

  function CrashedRefresh(cfg: Config, w: World, env: Env, p: CrashPoint): World
  {
    match CurrentCursor(w)
    case None => CrashedRebuild(cfg, w, env, p)
    case Some(c) =>
      var from := FromBlock(cfg, c);
      if p.InTrim? then Lost(CrashedRollback(cfg, w, env, from, p.rows, p.invalidated))
      else
        match RollbackOnReorg(cfg, w, env, from)
        case Stop(w1, _) => Lost(w1)
        case Go(w1, eff) =>
          var finalized := Finalized(cfg, env);
          if p.InSweep? then Lost(CrashedSweep(cfg, w1, env, p.rows, p.handedOver))
          else if finalized < eff then Lost(CrashedLagging(Swept(cfg, w1, env), env, eff, finalized, p))
          else Lost(CrashedAppending(cfg, Swept(cfg, w1, env), env, eff, finalized, p))
  }

  function CrashedRebuild(cfg: Config, w: World, env: Env, p: CrashPoint): World
  {
    var finalized := Finalized(cfg, env);
    if finalized < cfg.deploymentBlock then
      Lost(if p.AfterCursor? then CursorReset(cfg, w, env, finalized).world else w)
    else Lost(CrashedReplacement(cfg, w, env, finalized, p))
  }

  function CrashedReplacement(cfg: Config, w: World, env: Env, finalized: nat, p: CrashPoint): World
  {
    var w0 := Marked(w, finalized);
    var events := ReadEvents(cfg, env.chain, cfg.deploymentBlock, finalized);
    if p.AfterMark? || RebuildIdentity(events).Err? || finalized >= |env.chain| then w0
    else
      CrashedCommit(cfg, PrePersisted(cfg, w0, Active(events)), env, finalized, events, p)
  }

  function CrashedCommit(cfg: Config, w: World, env: Env, finalized: nat, events: seq<Event>, p: CrashPoint): World
    requires finalized < |env.chain|
  {
    if p.AfterPrePersist? then w
    else if !Replaceable(cfg, env, events) then Withdrawn(cfg, w, Active(events))
    else
      var replaced := Replaced(cfg, w, events, ReadCursor(env, finalized, finalized));
      if p.AfterReset? then replaced else NotificationSettled(cfg, replaced, env, Active(events))
  }

  // ----- runs -----

  datatype Op =
    | DoRefresh(env: Env) | DoRebuild(env: Env)
    | CrashInRefresh(env: Env, point: CrashPoint) | CrashInRebuild(env: Env, point: CrashPoint)

  function Next(cfg: Config, w: World, op: Op): World
  {
    match op
    case DoRefresh(env) => Refresh(cfg, w, env).world
    case DoRebuild(env) => Rebuild(cfg, w, env).world
    case CrashInRefresh(env, p) => CrashedRefresh(cfg, w, env, p)
    case CrashInRebuild(env, p) => CrashedRebuild(cfg, w, env, p)
  }

  const START := World(EMPTY_STORE, None, 0, {}, {}, map[])

  /** The states of a run, one more than it has operations. */
  ghost predicate IsRun(cfg: Config, ops: seq<Op>, states: seq<World>)
  {
    && |states| == |ops| + 1 && states[0] == START
    && forall i :: 0 <= i < |ops| ==> states[i + 1] == Next(cfg, states[i], ops[i])
  }
}
