/** The background sweep over the pending queue (service/src/indexer/service.ts). */
module PendingSweep {
  import opened Prelude
  import opened ChainEvents
  import opened PendingSteps

  /** What one sweep meets: the persisted finality bound, the processors present and whether their calls return. */
  datatype SweepEnv = SweepEnv(
    finalized: Option<nat>, hasProcessor: bool, hasAutomation: bool, delivers: StepId -> bool)

  datatype Attempted = Delivered | WaitingFinality | Failed

  datatype SweepSummary = SweepSummary(swept: nat, delivered: nat, failed: nat, waitingFinality: nat)

  const PENDING_POST_COMMIT_MAX_SWEEP_ATTEMPTS: nat := 16

  function MaxBlock(events: seq<Event>): nat
  {
    if |events| == 0 then 0 else Max(MaxBlock(events[..|events| - 1]), events[|events| - 1].blockNumber)
  }

  lemma {:induction false} MaxBlockBounds(events: seq<Event>)
    ensures forall e :: e in events ==> e.blockNumber <= MaxBlock(events)
  {
    if |events| > 0 {
      MaxBlockBounds(events[..|events| - 1]);
      assert events == events[..|events| - 1] + [events[|events| - 1]];
    }
  }

  predicate AboveFinality(s: Step, env: SweepEnv)
  {
    env.finalized.Some? && MaxBlock(s.events) > env.finalized.value
  }

  /** The step's batch reaches the notification processor. */
  predicate HandsOver(s: Step, env: SweepEnv)
  {
    s.id.SignalsId? && env.hasProcessor && |s.events| > 0 && !AboveFinality(s, env)
  }

  function Deliver(s: Step, env: SweepEnv): Attempted
  {
    if s.id.SignalsId? then
      if !env.hasProcessor || |s.events| == 0 then Failed
      else if AboveFinality(s, env) then WaitingFinality
      else if env.delivers(s.id) then Delivered else Failed
    else if env.hasAutomation && env.delivers(s.id) then Delivered
    else Failed
  }

  function KeySet(events: seq<Event>): set<Key> { set k | k in KeysOf(events) }

  /** A sweep in progress. `handled` and `dead` collect the keys whose batch was taken or given up. */
  datatype SweepState = SweepState(queue: Queue, handled: set<Key>, dead: set<Key>, summary: SweepSummary)

  function SweepStep(st: SweepState, s: Step, env: SweepEnv): SweepState
  {
    var m := st.summary.(swept := st.summary.swept + 1);
    match Deliver(s, env)
    case Delivered =>
      SweepState(DropStep(st.queue, s.id), st.handled + KeySet(s.events), st.dead, m.(delivered := m.delivered + 1))
    case WaitingFinality =>
      st.(summary := m.(waitingFinality := m.waitingFinality + 1))
    case Failed =>
      if s.attempts + 1 >= PENDING_POST_COMMIT_MAX_SWEEP_ATTEMPTS then
        SweepState(DropStep(st.queue, s.id), st.handled, st.dead + KeySet(s.events), m.(failed := m.failed + 1))
      else
        SweepState(RecordAttempt(st.queue, s.id), st.handled, st.dead, m.(failed := m.failed + 1))
  }

  function SweepFrom(st: SweepState, listed: seq<Step>, env: SweepEnv): SweepState
  {
    if |listed| == 0 then st
    else SweepStep(SweepFrom(st, listed[..|listed| - 1], env), listed[|listed| - 1], env)
  }

  function Begin(q: Queue, handled: set<Key>, dead: set<Key>): SweepState
  {
    SweepState(q, handled, dead, SweepSummary(0, 0, 0, 0))
  }

  function Sweep(q: Queue, env: SweepEnv): Queue { SweepFrom(Begin(q, {}, {}), q, env).queue }

  /** Every listed step is counted once, under what became of it. */
  lemma {:induction false} SweepConserves(st: SweepState, listed: seq<Step>, env: SweepEnv)
    requires st.summary == SweepSummary(0, 0, 0, 0)
    ensures var m := SweepFrom(st, listed, env).summary;
      m.swept == |listed| && m.swept == m.delivered + m.failed + m.waitingFinality
  {
    if |listed| > 0 { SweepConserves(st, listed[..|listed| - 1], env); }
  }

  /** What a sweep makes of one row. */
  function RowAfter(s: Step, env: SweepEnv): Option<Step>
  {
    match Deliver(s, env)
    case Delivered => None
    case WaitingFinality => Some(s)
    case Failed =>
      if s.attempts + 1 >= PENDING_POST_COMMIT_MAX_SWEEP_ATTEMPTS then None else Some(s.(attempts := s.attempts + 1))
  }

  function SweptRow(q: Queue, n: nat, env: SweepEnv, id: StepId): Option<Step>
    requires n <= |q|
  {
    match Look(q, id)
    case None => None
    case Some(s) => if Look(q[..n], id).None? then Some(s) else RowAfter(s, env)
  }

  /** After n rows the sweep has settled exactly those n, each by its own outcome. */
  lemma {:induction false} SweepRows(q: Queue, handled: set<Key>, dead: set<Key>, n: nat, env: SweepEnv, id: StepId)
    requires ValidQueue(q) && n <= |q|
    ensures Look(SweepFrom(Begin(q, handled, dead), q[..n], env).queue, id) == SweptRow(q, n, env, id)
  {
    if n == 0 {
      assert q[..0] == [];
    } else {
      assert q[..n][..n - 1] == q[..n - 1];
      SweepRows(q, handled, dead, n - 1, env, id);
      assert q[n - 1] in q;
      EarlierIdsDiffer(q, n);
      SweepStepRow(SweepFrom(Begin(q, handled, dead), q[..n - 1], env), q[n - 1], env, id);
      SweptRowStep(q, n, env, id);
    }
  }

  lemma SweepStepRow(st: SweepState, s: Step, env: SweepEnv, id: StepId)
    ensures id != s.id ==> Look(SweepStep(st, s, env).queue, id) == Look(st.queue, id)
    ensures id == s.id && Look(st.queue, id) == Some(s) ==> Look(SweepStep(st, s, env).queue, id) == RowAfter(s, env)
  {
    LookAfterDrop(st.queue, s.id, id);
    LookAfterRecord(st.queue, s.id, id);
    SweptQueue(st, s, env);
  }

  /** A swept step is dropped, counted or left. */
  lemma SweptQueue(st: SweepState, s: Step, env: SweepEnv)
    ensures SweepStep(st, s, env).queue ==
      match Deliver(s, env)
      case Delivered => DropStep(st.queue, s.id)
      case WaitingFinality => st.queue
      case Failed =>
        if s.attempts + 1 >= PENDING_POST_COMMIT_MAX_SWEEP_ATTEMPTS then DropStep(st.queue, s.id) else RecordAttempt(st.queue, s.id)
  {
  }

  lemma SweptRowStep(q: Queue, n: nat, env: SweepEnv, id: StepId)
    requires 0 < n <= |q| && Look(q, q[n - 1].id) == Some(q[n - 1]) && Look(q[..n - 1], q[n - 1].id).None?
    ensures id != q[n - 1].id ==> SweptRow(q, n, env, id) == SweptRow(q, n - 1, env, id)
    ensures SweptRow(q, n - 1, env, q[n - 1].id) == Some(q[n - 1])
    ensures SweptRow(q, n, env, q[n - 1].id) == RowAfter(q[n - 1], env)
  {
    assert q[..n][..n - 1] == q[..n - 1];
  }

  /** The rows before row n - 1 do not carry its id. */
  lemma {:induction false} EarlierIdsDiffer(q: Queue, n: nat)
    requires UniqueIds(q) && 0 < n <= |q|
    ensures Look(q[..n - 1], q[n - 1].id).None?
  {
    if n < |q| {
      assert q[..|q| - 1][..n - 1] == q[..n - 1];
      EarlierIdsDiffer(q[..|q| - 1], n);
    }
  }

  /** A whole sweep settles every row. */
  lemma SweepSettles(q: Queue, env: SweepEnv, id: StepId)
    requires ValidQueue(q)
    ensures Look(Sweep(q, env), id) == match Look(q, id) case None => None case Some(s) => RowAfter(s, env)
  {
    assert q[..|q|] == q;
    SweepRows(q, {}, {}, |q|, env, id);
  }

  lemma {:induction false} SweepKeepsValid(q: Queue, st: SweepState, n: nat, env: SweepEnv)
    requires n <= |q| && ValidQueue(st.queue)
    ensures ValidQueue(SweepFrom(st, q[..n], env).queue)
  {
    if n == 0 {
      assert q[..0] == [];
    } else {
      assert q[..n][..n - 1] == q[..n - 1];
      SweepKeepsValid(q, st, n - 1, env);
      SweepStepKeepsValid(SweepFrom(st, q[..n - 1], env), q[n - 1], env);
    }
  }

  lemma SweepStepKeepsValid(st: SweepState, s: Step, env: SweepEnv)
    requires ValidQueue(st.queue)
    ensures ValidQueue(SweepStep(st, s, env).queue)
  {
    DropKeepsValid(st.queue, s.id);
    RecordKeepsValid(st.queue, s.id);
    SweptQueue(st, s, env);
  }

  /** A sweep puts no event into the queue that was not there. */
  lemma {:induction false} SweepAddsNoEvent(q: Queue, st: SweepState, n: nat, env: SweepEnv, P: Event -> bool)
    requires n <= |q| && AllQueued(st.queue, P)
    ensures AllQueued(SweepFrom(st, q[..n], env).queue, P)
  {
    if n == 0 {
      assert q[..0] == [];
    } else {
      assert q[..n][..n - 1] == q[..n - 1];
      SweepAddsNoEvent(q, st, n - 1, env, P);
      SweepStepAddsNoEvent(SweepFrom(st, q[..n - 1], env), q[n - 1], env, P);
    }
  }

  lemma SweepStepAddsNoEvent(st: SweepState, s: Step, env: SweepEnv, P: Event -> bool)
    requires AllQueued(st.queue, P)
    ensures AllQueued(SweepStep(st, s, env).queue, P)
  {
    DropStepMembers(st.queue, s.id);
    RecordAttemptMembers(st.queue, s.id);
    SweptQueue(st, s, env);
  }

  /** A queued key is still queued after n rows, or its batch was taken by the processor or given up. */
  lemma {:induction false} SweepLosesNoKey(q: Queue, handled: set<Key>, dead: set<Key>, n: nat, env: SweepEnv, k: Key)
    requires ValidQueue(q) && n <= |q|
    ensures var st := SweepFrom(Begin(q, handled, dead), q[..n], env);
      && handled <= st.handled && dead <= st.dead
      && (KeyQueued(q, k) ==> KeyQueued(st.queue, k) || k in st.handled || k in st.dead)
  {
    if n == 0 {
      assert q[..0] == [];
    } else {
      assert q[..n][..n - 1] == q[..n - 1];
      SweepLosesNoKey(q, handled, dead, n - 1, env, k);
      assert q[n - 1] in q;
      SweepStepLosesNoKey(SweepFrom(Begin(q, handled, dead), q[..n - 1], env), q[n - 1], env, k);
    }
  }

  lemma SweepStepLosesNoKey(st: SweepState, s: Step, env: SweepEnv, k: Key)
    requires WellFormedStep(s)
    ensures var after := SweepStep(st, s, env);
      && st.handled <= after.handled && st.dead <= after.dead
      && (KeyQueued(st.queue, k) ==> KeyQueued(after.queue, k) || k in after.handled || k in after.dead)
  {
    SweptQueue(st, s, env);
    if KeyQueued(st.queue, k) {
      var id :| Look(st.queue, id).Some? && id.SignalsId? && k in id.keys;
      LookAfterDrop(st.queue, s.id, id);
      LookAfterRecord(st.queue, s.id, id);
      assert id == s.id ==> k in KeySet(s.events);
    }
  }

  // ----- sweeping again and again -----

  function Sweeps(q: Queue, envs: seq<SweepEnv>): Queue
  {
    if |envs| == 0 then q else Sweep(Sweeps(q, envs[..|envs| - 1]), envs[|envs| - 1])
  }

  function Failures(s: Step, envs: seq<SweepEnv>): nat
  {
    if |envs| == 0 then 0
    else Failures(s, envs[..|envs| - 1]) + if Deliver(s, envs[|envs| - 1]) == Failed then 1 else 0
  }

  lemma {:induction false} SweepsKeepValid(q: Queue, envs: seq<SweepEnv>)
    requires ValidQueue(q)
    ensures ValidQueue(Sweeps(q, envs))
  {
    if |envs| > 0 {
      var r := Sweeps(q, envs[..|envs| - 1]);
      SweepsKeepValid(q, envs[..|envs| - 1]);
      assert r[..|r|] == r;
      SweepKeepsValid(r, Begin(r, {}, {}), |r|, envs[|envs| - 1]);
    }
  }

  ghost predicate NeverDelivered(s: Step, envs: seq<SweepEnv>)
  {
    |envs| > 0 ==> Deliver(s, envs[|envs| - 1]) != Delivered && NeverDelivered(s, envs[..|envs| - 1])
  }

  /** The row of a step after some failures: gone once max(1, 16 - k) of them happened, k being its first attempts. */
  function BudgetRow(s: Step, failures: nat): Option<Step>
  {
    if failures >= Max(1, PENDING_POST_COMMIT_MAX_SWEEP_ATTEMPTS - s.attempts) then None
    else Some(s.(attempts := s.attempts + failures))
  }

  /**
   Over any sweeps that never deliver it, a step that starts with k attempts is gone once
   max(1, 16 - k) of them failed and until then has counted exactly the failures: waiting
   for finality consumes nothing.
   */
  lemma {:induction false} BudgetCountsFailuresOnly(q: Queue, envs: seq<SweepEnv>, s: Step)
    requires ValidQueue(q) && Look(q, s.id) == Some(s) && NeverDelivered(s, envs)
    ensures Look(Sweeps(q, envs), s.id) == BudgetRow(s, Failures(s, envs))
  {
    if |envs| > 0 {
      var front, last := envs[..|envs| - 1], envs[|envs| - 1];
      BudgetCountsFailuresOnly(q, front, s);
      SweepsKeepValid(q, front);
      BudgetStep(Sweeps(q, front), s, Failures(s, front), last);
    }
  }

  lemma BudgetStep(r: Queue, s: Step, failures: nat, env: SweepEnv)
    requires ValidQueue(r) && Deliver(s, env) != Delivered && Look(r, s.id) == BudgetRow(s, failures)
    ensures Look(Sweep(r, env), s.id) == BudgetRow(s, failures + if Deliver(s, env) == Failed then 1 else 0)
  {
    SweepSettles(r, env, s.id);
    OneMoreSweep(s, failures, env);
  }

  /** Attempts so far do not change what becomes of a step in a sweep, only whether a failure is its last. */
  lemma OneMoreSweep(s: Step, failures: nat, env: SweepEnv)
    ensures var now := s.(attempts := s.attempts + failures);
      && Deliver(now, env) == Deliver(s, env)
      && RowAfter(now, env) ==
           match Deliver(s, env)
           case Delivered => None
           case WaitingFinality => Some(now)
           case Failed =>
             if s.attempts + failures + 1 >= PENDING_POST_COMMIT_MAX_SWEEP_ATTEMPTS then None
             else Some(s.(attempts := s.attempts + failures + 1))
  {
  }
}
