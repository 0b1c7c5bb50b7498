/**
 The dock keeper: candidates from routes and projections, capped submission and the
 redelivery window (service/src/dock-automation/service.ts). Identities are numbers, zero
 standing for a malformed or zero identity.
 */
module DockKeeper {
  import opened Prelude

  datatype Config = Config(enabled: bool, chainId: nat, maxCandidatesPerRun: nat, redeliveryWindowMs: int)

  datatype OrderMode = New | Existing | Malformed

  datatype InputBinding = InputBinding(bindingHash: nat, localHookId: nat, targetSourceId: nat, targetSignalId: nat)

  datatype OutputBinding = OutputBinding(
    bindingHash: nat, localSourceId: nat, localSignalId: nat, targetSourceId: nat, targetSignalId: nat)

  datatype Route = Route(
    chainId: nat, localPlanId: nat, localOrderId: nat, targetPlanId: nat, linkedOrderId: nat, routeId: nat, routeHash: nat,
    interfaceName: string, orderMode: OrderMode, inputs: seq<InputBinding>, outputs: seq<OutputBinding>, openCalldata: Option<nat>)

  datatype Dock = Dock(
    chainId: nat, routeId: nat, localPlanId: nat, localOrderId: nat, instanceId: nat, stateMachine: nat,
    inputDeliveries: set<nat>, outputDeliveries: set<nat>)

  datatype Order = Order(
    chainId: nat, planId: nat, orderId: nat, contract: nat, readyHooks: set<nat>, signals: set<(nat, nat)>)

  datatype Snapshot = Snapshot(docks: seq<Dock>, orders: seq<Order>)

  // ----- validation -----

  predicate ValidInput(b: InputBinding)
  {
    b.bindingHash != 0 && b.localHookId != 0 && b.targetSourceId != 0 && b.targetSignalId != 0
  }

  predicate ValidOutput(b: OutputBinding)
  {
    b.bindingHash != 0 && b.localSourceId != 0 && b.localSignalId != 0 && b.targetSourceId != 0 && b.targetSignalId != 0
  }

  predicate ValidRoute(r: Route, chainId: nat)
  {
    && r.chainId == chainId
    && r.localPlanId != 0 && r.localOrderId != 0 && r.targetPlanId != 0 && r.linkedOrderId != 0
    && r.routeId != 0 && r.routeHash != 0 && r.interfaceName != "" && r.orderMode != Malformed
    && (forall i :: 0 <= i < |r.inputs| ==> ValidInput(r.inputs[i]))
    && (forall i :: 0 <= i < |r.outputs| ==> ValidOutput(r.outputs[i]))
    && (r.orderMode == New ==> |r.inputs| > 0 && r.openCalldata.Some?)
  }

  // ----- readiness -----

  predicate IsOrder(c: Config, o: Order, planId: nat, orderId: nat, stateMachine: Option<nat>)
  {
    o.chainId == c.chainId && o.planId == planId && o.orderId == orderId &&
    (stateMachine.Some? ==> o.contract == stateMachine.value)
  }

  function MatchingOrders(c: Config, orders: seq<Order>, planId: nat, orderId: nat, stateMachine: Option<nat>): seq<Order>
  {
    if |orders| == 0 then []
    else
      MatchingOrders(c, orders[..|orders| - 1], planId, orderId, stateMachine) +
      if IsOrder(c, orders[|orders| - 1], planId, orderId, stateMachine) then [orders[|orders| - 1]] else []
  }

  /** The order of a plan, if the match is unique. */
  function OrderFor(c: Config, s: Snapshot, planId: nat, orderId: nat, stateMachine: Option<nat>): Option<Order>
  {
    var matches := MatchingOrders(c, s.orders, planId, orderId, stateMachine);
    if |matches| == 1 then Some(matches[0]) else None
  }

  ghost function MatchIndices(c: Config, orders: seq<Order>, planId: nat, orderId: nat, stateMachine: Option<nat>): set<nat>
  {
    set i: nat | i < |orders| && IsOrder(c, orders[i], planId, orderId, stateMachine)
  }

  lemma {:induction false} MatchesAreMembers(c: Config, orders: seq<Order>, planId: nat, orderId: nat, m: Option<nat>)
    ensures forall o :: o in MatchingOrders(c, orders, planId, orderId, m) <==> o in orders && IsOrder(c, o, planId, orderId, m)
  {
    if |orders| > 0 {
      MatchesAreMembers(c, orders[..|orders| - 1], planId, orderId, m);
      assert orders == orders[..|orders| - 1] + [orders[|orders| - 1]];
    }
  }

  lemma {:induction false} MatchesAreIndexed(c: Config, orders: seq<Order>, planId: nat, orderId: nat, m: Option<nat>)
    ensures |MatchingOrders(c, orders, planId, orderId, m)| == |MatchIndices(c, orders, planId, orderId, m)|
  {
    if |orders| > 0 {
      var n := |orders| - 1;
      MatchesAreIndexed(c, orders[..n], planId, orderId, m);
      assert MatchIndices(c, orders, planId, orderId, m)
          == MatchIndices(c, orders[..n], planId, orderId, m) + if IsOrder(c, orders[n], planId, orderId, m) then {n} else {};
    }
  }

  /** Never a silent first of several: an order is found exactly if one and only one projected order fits. */
  lemma OrderForIsUnique(c: Config, s: Snapshot, planId: nat, orderId: nat, m: Option<nat>)
    ensures OrderFor(c, s, planId, orderId, m).Some? <==> |MatchIndices(c, s.orders, planId, orderId, m)| == 1
    ensures OrderFor(c, s, planId, orderId, m).Some? ==>
      var o := OrderFor(c, s, planId, orderId, m).value;
      o in s.orders && IsOrder(c, o, planId, orderId, m)
  {
    MatchesAreIndexed(c, s.orders, planId, orderId, m);
    MatchesAreMembers(c, s.orders, planId, orderId, m);
    var matches := MatchingOrders(c, s.orders, planId, orderId, m);
    assert |matches| == 1 ==> matches[0] in matches;
  }

  predicate HookReady(c: Config, s: Snapshot, r: Route, hookId: nat, stateMachine: Option<nat>)
  {
    var order := OrderFor(c, s, r.localPlanId, r.localOrderId, stateMachine);
    order.Some? && hookId in order.value.readyHooks
  }

  predicate EntranceHookReady(c: Config, s: Snapshot, r: Route)
  {
    |r.inputs| > 0 && HookReady(c, s, r, r.inputs[0].localHookId, None)
  }

  predicate TargetFactExists(c: Config, s: Snapshot, r: Route, b: OutputBinding)
  {
    var order := OrderFor(c, s, r.targetPlanId, r.linkedOrderId, None);
    order.Some? && (b.targetSourceId, b.targetSignalId) in order.value.signals
  }

  // ----- candidates -----

  datatype Key =
    | OpenKey(chainId: nat, routeId: nat, localPlanId: nat, localOrderId: nat)
    | InputKey(instanceId: nat, bindingHash: nat)
    | OutputKey(instanceId: nat, bindingHash: nat)

  datatype Candidate = Candidate(key: Key, data: nat)

  predicate IsDockOf(c: Config, d: Dock, r: Route)
  {
    d.chainId == c.chainId && d.routeId == r.routeId && d.localPlanId == r.localPlanId && d.localOrderId == r.localOrderId
  }

  function FindDock(c: Config, docks: seq<Dock>, r: Route): Option<Dock>
  {
    if |docks| == 0 then None
    else if IsDockOf(c, docks[0], r) then Some(docks[0])
    else FindDock(c, docks[1..], r)
  }

  predicate InputDue(c: Config, s: Snapshot, r: Route, d: Dock, i: nat)
    requires i < |r.inputs|
  {
    i != 0 && r.inputs[i].bindingHash !in d.inputDeliveries &&
    HookReady(c, s, r, r.inputs[i].localHookId, Some(d.stateMachine))
  }

  predicate OutputDue(c: Config, s: Snapshot, r: Route, d: Dock, i: nat)
    requires i < |r.outputs|
  {
    r.outputs[i].bindingHash !in d.outputDeliveries && TargetFactExists(c, s, r, r.outputs[i])
  }

  function InputCandidates(c: Config, s: Snapshot, r: Route, d: Dock, n: nat): seq<Candidate>
    requires n <= |r.inputs|
  {
    if n == 0 then []
    else InputCandidates(c, s, r, d, n - 1) +
         if InputDue(c, s, r, d, n - 1) then
           [Candidate(InputKey(d.instanceId, r.inputs[n - 1].bindingHash), r.inputs[n - 1].localHookId)]
         else []
  }

  function OutputCandidates(c: Config, s: Snapshot, r: Route, d: Dock, n: nat): seq<Candidate>
    requires n <= |r.outputs|
  {
    if n == 0 then []
    else OutputCandidates(c, s, r, d, n - 1) +
         if OutputDue(c, s, r, d, n - 1) then [Candidate(OutputKey(d.instanceId, r.outputs[n - 1].bindingHash), 0)] else []
  }

  function RouteCandidates(c: Config, s: Snapshot, r: Route): seq<Candidate>
  {
    if r.orderMode != New then []
    else
      match FindDock(c, s.docks, r)
      case None =>
        if r.openCalldata.Some? && EntranceHookReady(c, s, r) then
          [Candidate(OpenKey(c.chainId, r.routeId, r.localPlanId, r.localOrderId), r.openCalldata.value)]
        else []
      case Some(d) => InputCandidates(c, s, r, d, |r.inputs|) + OutputCandidates(c, s, r, d, |r.outputs|)
  }

  function Candidates(c: Config, s: Snapshot, routes: seq<Route>): seq<Candidate>
  {
    if |routes| == 0 then []
    else Candidates(c, s, routes[..|routes| - 1]) + RouteCandidates(c, s, routes[|routes| - 1])
  }

  /** An input is sent only for a binding behind the entrance, not yet delivered, whose hook is ready. */
  lemma {:induction false} InputsAreDue(c: Config, s: Snapshot, r: Route, d: Dock, n: nat, x: Candidate)
    requires n <= |r.inputs| && x in InputCandidates(c, s, r, d, n)
    ensures exists i: nat :: 0 < i < n && InputDue(c, s, r, d, i) && x.key == InputKey(d.instanceId, r.inputs[i].bindingHash)
  {
    if x in InputCandidates(c, s, r, d, n - 1) {
      InputsAreDue(c, s, r, d, n - 1, x);
    }
  }

  // ----- submitting -----

  datatype Summary = Summary(
    openCandidates: nat, inputCandidates: nat, outputCandidates: nat, submitted: nat, deduplicated: nat, skipped: nat)

  datatype Attempt = Attempt(key: Key, at: int)

  /** The keeper's memory, the history of its attempts, and the run's summary. */
  datatype State = State(last: map<Key, int>, attempts: seq<Attempt>, summary: Summary)

  /** The clock and the submitter, by the number of attempts and refusals so far. */
  datatype World = World(clock: nat -> int, succeeds: nat -> bool)

  const ZERO := Summary(0, 0, 0, 0, 0, 0)

  function Processed(m: Summary): nat { m.openCandidates + m.inputCandidates + m.outputCandidates }

  function Count(m: Summary, k: Key): Summary
  {
    match k
    case OpenKey(_, _, _, _) => m.(openCandidates := m.openCandidates + 1)
    case InputKey(_, _) => m.(inputCandidates := m.inputCandidates + 1)
    case OutputKey(_, _) => m.(outputCandidates := m.outputCandidates + 1)
  }

  predicate InWindow(c: Config, last: map<Key, int>, k: Key, now: int)
  {
    k in last && now - last[k] < c.redeliveryWindowMs
  }

  function Submit(c: Config, st: State, x: Candidate, now: int, ok: bool): State
  {
    var m := Count(st.summary, x.key);
    if InWindow(c, st.last, x.key, now) then st.(summary := m.(deduplicated := m.deduplicated + 1))
    else
      State(st.last[x.key := now], st.attempts + [Attempt(x.key, now)],
            if ok then m.(submitted := m.submitted + 1) else m.(skipped := m.skipped + 1))
  }

  function Walk(c: Config, st: State, xs: seq<Candidate>, w: World): State
  {
    if |xs| == 0 then st
    else
      var before := Walk(c, st, xs[..|xs| - 1], w);
      if before.summary.submitted >= c.maxCandidatesPerRun then before
      else
        var tick := Processed(before.summary);
        Submit(c, before, xs[|xs| - 1], w.clock(tick), w.succeeds(tick))
  }

  lemma {:induction false} WalkConcat(c: Config, st: State, xs: seq<Candidate>, ys: seq<Candidate>, w: World)
    ensures Walk(c, st, xs + ys, w) == Walk(c, Walk(c, st, xs, w), ys, w)
  {
    if |ys| == 0 {
      assert xs + ys == xs;
    } else {
      assert (xs + ys)[..|xs + ys| - 1] == xs + ys[..|ys| - 1];
      WalkConcat(c, st, xs, ys[..|ys| - 1], w);
    }
  }

  lemma {:induction false} WalkStops(c: Config, st: State, xs: seq<Candidate>, w: World)
    requires st.summary.submitted >= c.maxCandidatesPerRun
    ensures Walk(c, st, xs, w) == st
  {
    if |xs| > 0 { WalkStops(c, st, xs[..|xs| - 1], w); }
  }

  /** Every candidate of a run is accounted for once, and no more are submitted than the cap allows. */
  lemma {:induction false} RunConserves(c: Config, last: map<Key, int>, log: seq<Attempt>, xs: seq<Candidate>, w: World)
    ensures var m := Walk(c, State(last, log, ZERO), xs, w).summary;
      && Processed(m) == m.submitted + m.deduplicated + m.skipped
      && m.submitted <= c.maxCandidatesPerRun
      && Processed(m) <= |xs|
      && (m.submitted < c.maxCandidatesPerRun ==> Processed(m) == |xs|)
  {
    if |xs| > 0 { RunConserves(c, last, log, xs[..|xs| - 1], w); }
  }

  // ----- the rate over all runs -----

  /** The memory holds the time of each key's latest attempt, and attempts of one key are a window apart. */
  ghost predicate Spaced(c: Config, last: map<Key, int>, log: seq<Attempt>)
  {
    && (forall i :: 0 <= i < |log| ==> log[i].key in last && log[i].at <= last[log[i].key])
    && (forall i, j :: 0 <= i < j < |log| && log[i].key == log[j].key ==> log[j].at - log[i].at >= c.redeliveryWindowMs)
  }

  lemma SubmitKeepsSpacing(c: Config, st: State, x: Candidate, now: int, ok: bool)
    requires c.redeliveryWindowMs >= 0 && Spaced(c, st.last, st.attempts)
    ensures Spaced(c, Submit(c, st, x, now, ok).last, Submit(c, st, x, now, ok).attempts)
  {
  }

  lemma {:induction false} WalkKeepsSpacing(c: Config, st: State, xs: seq<Candidate>, w: World)
    requires c.redeliveryWindowMs >= 0 && Spaced(c, st.last, st.attempts)
    ensures Spaced(c, Walk(c, st, xs, w).last, Walk(c, st, xs, w).attempts)
  {
    if |xs| > 0 {
      var before := Walk(c, st, xs[..|xs| - 1], w);
      WalkKeepsSpacing(c, st, xs[..|xs| - 1], w);
      var tick := Processed(before.summary);
      SubmitKeepsSpacing(c, before, xs[|xs| - 1], w.clock(tick), w.succeeds(tick));
    }
  }

  /** One run's input: its routes and projections, its clock and its submitter. */
  datatype Run = Run(snapshot: Snapshot, routes: seq<Route>, world: World)

  function AllRuns(c: Config, runs: seq<Run>): State
  {
    if |runs| == 0 then State(map[], [], ZERO)
    else
      var before, r := AllRuns(c, runs[..|runs| - 1]), runs[|runs| - 1];
      Walk(c, before.(summary := ZERO), Candidates(c, r.snapshot, r.routes), r.world)
  }

  lemma {:induction false} AttemptsAreSpaced(c: Config, runs: seq<Run>)
    requires c.redeliveryWindowMs >= 0
    ensures Spaced(c, AllRuns(c, runs).last, AllRuns(c, runs).attempts)
  {
    if |runs| > 0 {
      var before, r := AllRuns(c, runs[..|runs| - 1]), runs[|runs| - 1];
      AttemptsAreSpaced(c, runs[..|runs| - 1]);
      WalkKeepsSpacing(c, before.(summary := ZERO), Candidates(c, r.snapshot, r.routes), r.world);
    }
  }

  /** The attempts of one key, oldest first. */
  function TimesOf(log: seq<Attempt>, k: Key): seq<int>
  {
    if |log| == 0 then []
    else TimesOf(log[..|log| - 1], k) + if log[|log| - 1].key == k then [log[|log| - 1].at] else []
  }

  lemma {:induction false} TimesAreAttempts(log: seq<Attempt>, k: Key)
    ensures forall t :: t in TimesOf(log, k) ==> Attempt(k, t) in log
  {
    if |log| > 0 {
      TimesAreAttempts(log[..|log| - 1], k);
      assert log == log[..|log| - 1] + [log[|log| - 1]];
    }
  }

  lemma {:induction false} TimesAreSpaced(c: Config, log: seq<Attempt>, k: Key)
    requires forall i, j :: 0 <= i < j < |log| && log[i].key == log[j].key ==> log[j].at - log[i].at >= c.redeliveryWindowMs
    ensures forall i :: 0 < i < |TimesOf(log, k)| ==> TimesOf(log, k)[i] - TimesOf(log, k)[i - 1] >= c.redeliveryWindowMs
  {
    if |log| > 0 {
      var front, last := log[..|log| - 1], log[|log| - 1];
      TimesAreSpaced(c, front, k);
      TimesAreAttempts(front, k);
      var times := TimesOf(front, k);
      if last.key == k && |times| > 0 {
        assert Attempt(k, times[|times| - 1]) in front;
        var n :| 0 <= n < |front| && front[n] == Attempt(k, times[|times| - 1]);
        assert log[n] == front[n] && log[|log| - 1] == last;
      }
    }
  }

  lemma {:induction false} SpanOfTimes(window: nat, times: seq<int>)
    requires |times| > 0 && forall i :: 0 < i < |times| ==> times[i] - times[i - 1] >= window
    ensures times[|times| - 1] - times[0] >= (|times| - 1) * window
  {
    if |times| > 1 {
      SpanOfTimes(window, times[..|times| - 1]);
      assert (|times| - 1) * window == (|times| - 2) * window + window;
    }
  }

  /**
   The rate bound over all runs, whatever the clock does: n attempts of one key span at least
   n - 1 windows, so that attempts whose times span L are at most L / window + 1.
   */
  lemma AttemptRate(c: Config, runs: seq<Run>, k: Key)
    requires c.redeliveryWindowMs > 0
    ensures var times := TimesOf(AllRuns(c, runs).attempts, k);
      |times| > 0 ==>
        var span := times[|times| - 1] - times[0];
        span >= 0 && |times| <= span / c.redeliveryWindowMs + 1
  {
    AttemptsAreSpaced(c, runs);
    TimesAreSpaced(c, AllRuns(c, runs).attempts, k);
    var times := TimesOf(AllRuns(c, runs).attempts, k);
    if |times| > 0 {
      SpanOfTimes(c.redeliveryWindowMs, times);
      DivideSpan(times[|times| - 1] - times[0], |times| - 1, c.redeliveryWindowMs);
    }
  }

  lemma DivideSpan(span: int, n: nat, window: nat)
    requires window > 0 && span >= n * window
    ensures span >= 0 && n <= span / window
  {
    assert n * window >= 0;
    assert span < (span / window + 1) * window;
    if span / window < n { ProductGrows(span / window + 1, n, window); }
  }

  lemma {:induction false} ProductGrows(a: nat, b: nat, window: nat)
    requires a <= b
    ensures a * window <= b * window
  {
    assert b * window == a * window + (b - a) * window;
  }

  // ----- the worker -----

  class DockAutomationWorker {
    const config: Config
    const hasSubmitter: bool
    var lastBroadcastAt: map<Key, int>
    var checking: bool
    ghost var attempts: seq<Attempt>

    constructor (config: Config, hasSubmitter: bool)
      ensures this.config == config && this.hasSubmitter == hasSubmitter
      ensures lastBroadcastAt == map[] && !checking && attempts == []
    {
      this.config, this.hasSubmitter := config, hasSubmitter;
      lastBroadcastAt, checking, attempts := map[], false, [];
    }

    /** A run that is refused, empty or stopped by a malformed route attempts nothing. */
    method RunOnce(run: Run) returns (r: Result<Summary, nat>)
      modifies this
      ensures checking == old(checking)
      ensures !config.enabled || old(checking) ==> r == Ok(ZERO)
      ensures r.Err? ==> r.error < |run.routes| && !ValidRoute(run.routes[r.error], config.chainId)
      ensures !config.enabled || old(checking) || r.Err? || !hasSubmitter ==>
        lastBroadcastAt == old(lastBroadcastAt) && attempts == old(attempts)
      ensures config.enabled && !old(checking) && r.Ok? ==>
        forall i :: 0 <= i < |run.routes| ==> ValidRoute(run.routes[i], config.chainId)
      ensures config.enabled && !old(checking) && r.Ok? && hasSubmitter ==>
        State(lastBroadcastAt, attempts, r.value) ==
        Walk(config, old(State(lastBroadcastAt, attempts, ZERO)), Candidates(config, run.snapshot, run.routes), run.world)
    {
      if !config.enabled || checking { return Ok(ZERO); }
      checking := true;
      var n := 0;
      while n < |run.routes| && ValidRoute(run.routes[n], config.chainId)
        invariant 0 <= n <= |run.routes|
        invariant forall i :: 0 <= i < n ==> ValidRoute(run.routes[i], config.chainId)
      {
        n := n + 1;
      }
      if n < |run.routes| {
        checking := false;
        return Err(n);
      }
      var summary := ZERO;
      if hasSubmitter {
        summary := ProcessRoutes(run);
      }
      checking := false;
      r := Ok(summary);
    }

    method ProcessRoutes(run: Run) returns (summary: Summary)
      modifies this`lastBroadcastAt, this`attempts
      ensures State(lastBroadcastAt, attempts, summary) ==
        Walk(config, old(State(lastBroadcastAt, attempts, ZERO)), Candidates(config, run.snapshot, run.routes), run.world)
    {
      ghost var start := State(lastBroadcastAt, attempts, ZERO);
      var routes, s := run.routes, run.snapshot;
      summary := ZERO;
      var n := 0;
      while n < |routes|
        invariant 0 <= n <= |routes|
        invariant State(lastBroadcastAt, attempts, summary) == Walk(config, start, Candidates(config, s, routes[..n]), run.world)
      {
        if summary.submitted >= config.maxCandidatesPerRun {
          RunStops(config, start, run, n);
          return;
        }
        RunContinues(config, start, run, n);
        summary := ProcessRoute(run, routes[n], summary);
        n := n + 1;
      }
      assert routes[..n] == routes;
    }

    method ProcessRoute(run: Run, route: Route, start: Summary) returns (summary: Summary)
      modifies this`lastBroadcastAt, this`attempts
      ensures State(lastBroadcastAt, attempts, summary) ==
        Walk(config, old(State(lastBroadcastAt, attempts, start)), RouteCandidates(config, run.snapshot, route), run.world)
    {
      summary := start;
      if route.orderMode != New { return; }
      var dock := FindDock(config, run.snapshot.docks, route);
      if dock.None? {
        if route.openCalldata.Some? && EntranceHookReady(config, run.snapshot, route) {
          var x := Candidate(OpenKey(config.chainId, route.routeId, route.localPlanId, route.localOrderId), route.openCalldata.value);
          summary := ProcessCandidate(run.world, x, summary);
        }
        return;
      }
      var d := dock.value;
      ghost var before := State(lastBroadcastAt, attempts, start);
      ghost var inputs := InputCandidates(config, run.snapshot, route, d, |route.inputs|);
      summary := ProcessInputs(run, route, d, summary);
      WalkConcat(config, before, inputs, OutputCandidates(config, run.snapshot, route, d, |route.outputs|), run.world);
      summary := ProcessOutputs(run, route, d, summary);
    }

    method ProcessInputs(run: Run, route: Route, d: Dock, start: Summary) returns (summary: Summary)
      modifies this`lastBroadcastAt, this`attempts
      ensures State(lastBroadcastAt, attempts, summary) ==
        Walk(config, old(State(lastBroadcastAt, attempts, start)), InputCandidates(config, run.snapshot, route, d, |route.inputs|), run.world)
    {
      ghost var before := State(lastBroadcastAt, attempts, start);
      summary := start;
      var i := 0;
      while i < |route.inputs|
        invariant 0 <= i <= |route.inputs|
        invariant State(lastBroadcastAt, attempts, summary) ==
          Walk(config, before, InputCandidates(config, run.snapshot, route, d, i), run.world)
      {
        var binding := route.inputs[i];
        ghost var done := InputCandidates(config, run.snapshot, route, d, i);
        if summary.submitted >= config.maxCandidatesPerRun {
          InputsExtend(config, run.snapshot, route, d, i, |route.inputs|);
          WalkStopsAt(config, before, done, InputCandidates(config, run.snapshot, route, d, |route.inputs|), run.world);
          return;
        }
        i := i + 1;
        if !InputDue(config, run.snapshot, route, d, i - 1) {
          assert done + [] == done;
          continue;
        }
        var x := Candidate(InputKey(d.instanceId, binding.bindingHash), binding.localHookId);
        WalkConcat(config, before, done, [x], run.world);
        summary := ProcessCandidate(run.world, x, summary);
      }
    }

    method ProcessOutputs(run: Run, route: Route, d: Dock, start: Summary) returns (summary: Summary)
      modifies this`lastBroadcastAt, this`attempts
      ensures State(lastBroadcastAt, attempts, summary) ==
        Walk(config, old(State(lastBroadcastAt, attempts, start)), OutputCandidates(config, run.snapshot, route, d, |route.outputs|), run.world)
    {
      ghost var before := State(lastBroadcastAt, attempts, start);
      summary := start;
      var i := 0;
      while i < |route.outputs|
        invariant 0 <= i <= |route.outputs|
        invariant State(lastBroadcastAt, attempts, summary) ==
          Walk(config, before, OutputCandidates(config, run.snapshot, route, d, i), run.world)
      {
        var x := Candidate(OutputKey(d.instanceId, route.outputs[i].bindingHash), 0);
        ghost var done := OutputCandidates(config, run.snapshot, route, d, i);
        if summary.submitted >= config.maxCandidatesPerRun {
          OutputsExtend(config, run.snapshot, route, d, i, |route.outputs|);
          WalkStopsAt(config, before, done, OutputCandidates(config, run.snapshot, route, d, |route.outputs|), run.world);
          return;
        }
        i := i + 1;
        if !OutputDue(config, run.snapshot, route, d, i - 1) {
          assert done + [] == done;
          continue;
        }
        WalkConcat(config, before, done, [x], run.world);
        summary := ProcessCandidate(run.world, x, summary);
      }
    }

    method ProcessCandidate(world: World, x: Candidate, start: Summary) returns (summary: Summary)
      modifies this`lastBroadcastAt, this`attempts
      ensures State(lastBroadcastAt, attempts, summary) == Walk(config, old(State(lastBroadcastAt, attempts, start)), [x], world)
    {
      ghost var before := State(lastBroadcastAt, attempts, start);
      assert [x][..0] == [];
      assert Walk(config, before, [], world) == before;
      summary := start;
      if summary.submitted >= config.maxCandidatesPerRun { return; }
      var tick := Processed(start);
      summary := Count(start, x.key);
      var now := world.clock(tick);
      if x.key in lastBroadcastAt && now - lastBroadcastAt[x.key] < config.redeliveryWindowMs {
        summary := summary.(deduplicated := summary.deduplicated + 1);
        return;
      }
      lastBroadcastAt := lastBroadcastAt[x.key := now];
      attempts := attempts + [Attempt(x.key, now)];
      if world.succeeds(tick) {
        summary := summary.(submitted := summary.submitted + 1);
      } else {
        summary := summary.(skipped := summary.skipped + 1);
      }
    }
  }

  lemma WalkStopsAt(c: Config, st: State, done: seq<Candidate>, all: seq<Candidate>, w: World)
    requires done <= all && Walk(c, st, done, w).summary.submitted >= c.maxCandidatesPerRun
    ensures Walk(c, st, all, w) == Walk(c, st, done, w)
  {
    assert all == done + all[|done|..];
    WalkConcat(c, st, done, all[|done|..], w);
    WalkStops(c, Walk(c, st, done, w), all[|done|..], w);
  }

  lemma {:induction false} InputsExtend(c: Config, s: Snapshot, r: Route, d: Dock, i: nat, n: nat)
    requires i <= n <= |r.inputs|
    ensures InputCandidates(c, s, r, d, i) <= InputCandidates(c, s, r, d, n)
  {
    if i < n { InputsExtend(c, s, r, d, i, n - 1); }
  }

  lemma {:induction false} OutputsExtend(c: Config, s: Snapshot, r: Route, d: Dock, i: nat, n: nat)
    requires i <= n <= |r.outputs|
    ensures OutputCandidates(c, s, r, d, i) <= OutputCandidates(c, s, r, d, n)
  {
    if i < n { OutputsExtend(c, s, r, d, i, n - 1); }
  }

  lemma {:induction false} CandidatesExtend(c: Config, s: Snapshot, routes: seq<Route>, n: nat)
    requires n <= |routes|
    ensures Candidates(c, s, routes[..n]) <= Candidates(c, s, routes)
  {
    if n == |routes| {
      assert routes[..n] == routes;
    } else {
      CandidatesExtend(c, s, routes[..|routes| - 1], n);
      assert routes[..|routes| - 1][..n] == routes[..n];
    }
  }

  lemma RunStops(c: Config, st: State, run: Run, n: nat)
    requires n <= |run.routes|
    requires Walk(c, st, Candidates(c, run.snapshot, run.routes[..n]), run.world).summary.submitted >= c.maxCandidatesPerRun
    ensures Walk(c, st, Candidates(c, run.snapshot, run.routes), run.world)
         == Walk(c, st, Candidates(c, run.snapshot, run.routes[..n]), run.world)
  {
    CandidatesExtend(c, run.snapshot, run.routes, n);
    WalkStopsAt(c, st, Candidates(c, run.snapshot, run.routes[..n]), Candidates(c, run.snapshot, run.routes), run.world);
  }

  lemma RunContinues(c: Config, st: State, run: Run, n: nat)
    requires n < |run.routes|
    ensures Walk(c, st, Candidates(c, run.snapshot, run.routes[..n + 1]), run.world)
         == Walk(c, Walk(c, st, Candidates(c, run.snapshot, run.routes[..n]), run.world),
                 RouteCandidates(c, run.snapshot, run.routes[n]), run.world)
  {
    assert run.routes[..n + 1][..n] == run.routes[..n];
    WalkConcat(c, st, Candidates(c, run.snapshot, run.routes[..n]), RouteCandidates(c, run.snapshot, run.routes[n]), run.world);
  }
}
