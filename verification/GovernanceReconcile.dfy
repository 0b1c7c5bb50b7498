/**
 The governance service and the reconciliation worker on one ledger
 (service/src/governance/service.ts, service/src/reconcile/worker.ts).
 */
module GovernanceReconcile {
  import opened Prelude
  import opened ChainEvents
  import opened IdentityProjections
  import opened GovernanceLedger
  import opened Governance
  import opened Reconcile

  /** What the worker's check of the log at a position meets. */
  datatype Check = Check(index: nat, before: seq<Binding>, receipt: Receipt, after: seq<Binding>, now: int, timeoutMs: int)

  function CheckOf(l: TxLog, c: Check): TxLog { CheckedLog(l, c.before, c.receipt, c.after, c.now, c.timeoutMs) }

  datatype Op = Serve(act: Act) | Reconciling(check: Check)

  function Next(s: State, op: Op): State
  {
    match op
    case Serve(act) => Do(s, act)
    case Reconciling(c) => if c.index < |s.logs| then s.(logs := s.logs[c.index := CheckOf(s.logs[c.index], c)]) else s
  }

  ghost predicate IsRun(ops: seq<Op>, states: seq<State>)
  {
    |states| == |ops| + 1 && forall i :: 0 <= i < |ops| ==> states[i + 1] == Next(states[i], ops[i])
  }

  // ----- the worker as the consumer of the paged scan -----

  /** An update by ids replaces the log of that id, where it stands. */
  lemma {:induction false} UpdateReplaces(logs: seq<TxLog>, log: TxLog)
    requires Consistent(logs) && log.txLogId == log.logId
    ensures |UpdateLog(logs, log)| == |logs|
    ensures forall i :: 0 <= i < |logs| ==> UpdateLog(logs, log)[i] == if logs[i].logId == log.logId then log else logs[i]
  {
    if |logs| > 0 {
      assert logs[0] in logs;
      assert forall l :: l in logs[1..] ==> l in logs;
      assert forall i :: 0 <= i < |logs| - 1 ==> logs[1..][i] == logs[i + 1];
      UpdateReplaces(logs[1..], log);
    }
  }

  /** The worker writes its check of the log handed out last. */
  function WorkerRewrite(checks: nat -> Check): (seq<TxLog>, seq<TxLog>) -> seq<TxLog>
  {
    (yielded: seq<TxLog>, logs: seq<TxLog>) =>
      if |yielded| == 0 || !GovernanceReconcileable(yielded[|yielded| - 1]) then logs
      else UpdateLog(logs, CheckOf(yielded[|yielded| - 1], checks(yielded[|yielded| - 1].logId)))
  }

  /** So the scan's promise holds while the worker rewrites what it is handed. */
  lemma WorkerIsWellBehaved(checks: nat -> Check, bound: nat)
    ensures WellBehaved(WorkerRewrite(checks), bound)
  {
    forall yielded: seq<TxLog>, logs: seq<TxLog> | Consistent(logs) && StemFrom(yielded, logs) && |logs| <= bound
      ensures var next := WorkerRewrite(checks)(yielded, logs);
        Evolves(yielded, logs, next) && Consistent(next) && |next| <= bound
    {
      WorkerStep(checks, yielded, logs);
    }
  }

  lemma WorkerStep(checks: nat -> Check, yielded: seq<TxLog>, logs: seq<TxLog>)
    requires Consistent(logs) && StemFrom(yielded, logs)
    ensures var next := WorkerRewrite(checks)(yielded, logs);
      Evolves(yielded, logs, next) && Consistent(next) && |next| == |logs|
  {
    if |yielded| == 0 || !GovernanceReconcileable(yielded[|yielded| - 1]) {
      assert WorkerRewrite(checks)(yielded, logs) == logs;
    } else {
      var c := checks(yielded[|yielded| - 1].logId);
      assert WorkerRewrite(checks)(yielded, logs) == UpdateLog(logs, CheckOf(yielded[|yielded| - 1], c));
      WorkerEvolves(yielded, logs, c);
    }
  }

  lemma WorkerEvolves(yielded: seq<TxLog>, logs: seq<TxLog>, c: Check)
    requires Consistent(logs) && StemFrom(yielded, logs) && |yielded| > 0
    ensures var next := UpdateLog(logs, CheckOf(yielded[|yielded| - 1], c));
      Evolves(yielded, logs, next) && Consistent(next) && |next| == |logs|
  {
    var y := yielded[|yielded| - 1];
    assert y in yielded;
    var x := CheckOf(y, c);
    GovernanceCheckIsSound(y, c.before, c.receipt, c.after, c.now, c.timeoutMs);
    var l :| l in logs && SameIdentity(l, y);
    UpdateReplaces(logs, x);
    var next := UpdateLog(logs, x);
    forall i | 0 <= i < |logs| && next[i] != logs[i] ensures SameIdentity(next[i], logs[i]) && HasId(yielded, logs[i].logId) {
      assert logs[i] in logs;
      SameIdSameLog(logs, logs[i], l);
    }
    forall m | m in next ensures m.txLogId == m.logId {
      var i :| 0 <= i < |next| && next[i] == m;
      assert logs[i] in logs;
    }
  }

  // ----- one successful log per request -----

  function One(b: bool): nat { if b then 1 else 0 }

  lemma {:induction false} CountReplaced(logs: seq<TxLog>, i: nat, l: TxLog, q: Request)
    requires i < |logs|
    ensures CountAnswers(logs[i := l], q) + One(Answers(logs[i], q)) == CountAnswers(logs, q) + One(Answers(l, q))
  {
    var n := |logs| - 1;
    if i < n {
      CountReplaced(logs[..n], i, l, q);
      assert logs[i := l][..n] == logs[..n][i := l];
    } else {
      assert logs[i := l][..n] == logs[..n];
    }
  }

  /** The check brings a log of the request back while another one answers it. */
  ghost predicate Doubles(s: State, op: Op, q: Request)
  {
    op.Reconciling? && op.check.index < |s.logs| &&
    var l := s.logs[op.check.index];
    l.request == q && !Reusable(l) && Reusable(CheckOf(l, op.check)) && CountAnswers(s.logs, q) == 1
  }

  /** Exactly then does a step make a second successful log. */
  lemma StepKeepsOneExactly(s: State, op: Op, q: Request)
    requires CountAnswers(s.logs, q) <= 1
    ensures CountAnswers(Next(s, op).logs, q) <= 1 <==> !Doubles(s, op, q)
  {
    match op
    case Serve(Save(_, _, _)) =>
    case Serve(Register(r, call)) => RecordingKeepsOne(s.logs, r, call, q);
    case Serve(Revoke(target, rec, call, bindingId, subjectId)) => RecordingKeepsOne(s.logs, RequestOf(op.act), call, q);
    case Reconciling(c) =>
      if c.index < |s.logs| {
        GovernanceCheckIsSound(s.logs[c.index], c.before, c.receipt, c.after, c.now, c.timeoutMs);
        CountReplaced(s.logs, c.index, CheckOf(s.logs[c.index], c), q);
      }
  }

  /** Over runs of both: a request never has two successful logs if and only if no check brings a log back beside another. */
  lemma {:induction false} OneSuccessExactly(ops: seq<Op>, states: seq<State>, q: Request)
    requires IsRun(ops, states) && CountAnswers(states[0].logs, q) <= 1
    ensures (forall n :: 0 <= n <= |ops| ==> CountAnswers(states[n].logs, q) <= 1) <==>
            (forall n :: 0 <= n < |ops| ==> !Doubles(states[n], ops[n], q))
  {
    if forall n :: 0 <= n < |ops| ==> !Doubles(states[n], ops[n], q) {
      forall n | 0 <= n <= |ops| ensures CountAnswers(states[n].logs, q) <= 1 {
        NeverDoubled(ops, states, q, n);
      }
    } else {
      var n :| 0 <= n < |ops| && Doubles(states[n], ops[n], q);
      StepKeepsOneExactly(states[n], ops[n], q);
      assert CountAnswers(states[n + 1].logs, q) > 1;
    }
  }

  lemma {:induction false} NeverDoubled(ops: seq<Op>, states: seq<State>, q: Request, n: nat)
    requires IsRun(ops, states) && CountAnswers(states[0].logs, q) <= 1 && n <= |ops|
    requires forall m :: 0 <= m < |ops| ==> !Doubles(states[m], ops[m], q)
    ensures CountAnswers(states[n].logs, q) <= 1
  {
    if n > 0 {
      NeverDoubled(ops, states, q, n - 1);
      StepKeepsOneExactly(states[n - 1], ops[n - 1], q);
    }
  }

  // ----- what a caller can look at beforehand -----

  /** A log that does not answer its request now but that a check can bring back: it may still be in broadcast, or it failed with a transaction. */
  predicate Revivable(l: TxLog)
  {
    !Reusable(l) && GovernanceReconcileable(l) && (l.broadcastStatus == InBroadcast || l.txHash.Some?)
  }

  predicate Alive(l: TxLog) { Reusable(l) || Revivable(l) }

  /** A binding that shows what the request asked for, done by the transaction. */
  function BindingFor(request: Request, txHash: nat): Binding
  {
    var at := Provenance(0, Hex(0, 0), 0, None, Hex(txHash, 0), 0);
    match request
    case RegisterIdentity(subjectId, account, _, _, _) =>
      Binding(0, 0, subjectId, account, 0, "", 0, BindingActive, at, at, None, None, None)
    case RevokeIdentity(bindingId, subjectId, _, _) =>
      Binding(0, bindingId, subjectId, 0, 0, "", 0, BindingRevoked, at, at, None, None, Some(at))
  }

  /** A check that brings back what can be brought back: the projection shows the transaction, or nothing has been seen yet. */
  function ReviveCheck(l: TxLog, i: nat): Check
  {
    Check(i, if l.txHash.Some? then [BindingFor(l.request, l.txHash.value)] else [], NoReceipt, [], 0, 0)
  }

  lemma ReviveCheckRevives(l: TxLog, i: nat)
    requires Revivable(l)
    ensures Reusable(CheckOf(l, ReviveCheck(l, i))) && CheckOf(l, ReviveCheck(l, i)).request == l.request
  {
    if l.txHash.Some? {
      var b := BindingFor(l.request, l.txHash.value);
      assert IdentityMatches(b, l);
      assert GovernanceConfirmation([b], l).Some?;
    }
  }

  /** Exactly the revivable logs can be brought back by a check; what is not alive stays so. */
  lemma RevivableExactly(l: TxLog)
    requires !Reusable(l)
    ensures (exists c :: Reusable(CheckOf(l, c))) <==> Revivable(l)
    ensures !Revivable(l) ==> forall c :: !Alive(CheckOf(l, c))
  {
    if Revivable(l) {
      ReviveCheckRevives(l, 0);
    }
  }

  function CountAlive(logs: seq<TxLog>, q: Request): nat
  {
    if |logs| == 0 then 0
    else CountAlive(logs[..|logs| - 1], q) + One(logs[|logs| - 1].request == q && Alive(logs[|logs| - 1]))
  }

  lemma {:induction false} AliveReplaced(logs: seq<TxLog>, i: nat, l: TxLog, q: Request)
    requires i < |logs|
    ensures CountAlive(logs[i := l], q) + One(logs[i].request == q && Alive(logs[i]))
         == CountAlive(logs, q) + One(l.request == q && Alive(l))
  {
    var n := |logs| - 1;
    if i < n {
      AliveReplaced(logs[..n], i, l, q);
      assert logs[i := l][..n] == logs[..n][i := l];
    } else {
      assert logs[i := l][..n] == logs[..n];
    }
  }

  lemma {:induction false} AnswersAreAlive(logs: seq<TxLog>, q: Request)
    ensures CountAnswers(logs, q) <= CountAlive(logs, q)
  {
    if |logs| > 0 { AnswersAreAlive(logs[..|logs| - 1], q); }
  }

  /** The service broadcasts a request of which a log is still alive, and the new log is alive too. */
  ghost predicate RecordsBeside(logs: seq<TxLog>, request: Request, call: Call, q: Request)
  {
    request == q && ReusableDuplicate(logs, request).None? && Alive(NewLog(request, call)) && CountAlive(logs, q) == 1
  }

  ghost predicate Beside(s: State, op: Op, q: Request)
  {
    op.Serve? &&
    match op.act
    case Save(_, _, _) => false
    case Register(r, call) => RecordsBeside(s.logs, r, call, q)
    case Revoke(_, _, call, _, _) => RecordsBeside(s.logs, RequestOf(op.act), call, q)
  }

  lemma RecordingAlive(logs: seq<TxLog>, request: Request, call: Call, q: Request)
    requires CountAlive(logs, q) <= 1
    ensures CountAlive(Recording(logs, request, call), q) <= 1 <==> !RecordsBeside(logs, request, call, q)
  {
    var added := logs + [NewLog(request, call)];
    assert added[..|logs|] == logs;
  }

  /** At most one log of a request stays alive exactly as long as the service does not broadcast it beside a live one. */
  lemma StepKeepsOneAliveExactly(s: State, op: Op, q: Request)
    requires CountAlive(s.logs, q) <= 1
    ensures CountAlive(Next(s, op).logs, q) <= 1 <==> !Beside(s, op, q)
  {
    match op
    case Serve(Save(_, _, _)) =>
    case Serve(Register(r, call)) => RecordingAlive(s.logs, r, call, q);
    case Serve(Revoke(target, rec, call, bindingId, subjectId)) => RecordingAlive(s.logs, RequestOf(op.act), call, q);
    case Reconciling(c) =>
      if c.index < |s.logs| {
        var l := s.logs[c.index];
        GovernanceCheckIsSound(l, c.before, c.receipt, c.after, c.now, c.timeoutMs);
        if !Reusable(l) { RevivableExactly(l); }
        AliveReplaced(s.logs, c.index, CheckOf(l, c), q);
      }
  }

  /** With that guard in front of the service, no run of service and worker makes a second successful log. */
  lemma {:induction false} GuardedRunsKeepOne(ops: seq<Op>, states: seq<State>, q: Request, n: nat)
    requires IsRun(ops, states) && CountAlive(states[0].logs, q) <= 1 && n <= |ops|
    requires forall m :: 0 <= m < |ops| ==> !Beside(states[m], ops[m], q)
    ensures CountAlive(states[n].logs, q) <= 1 && CountAnswers(states[n].logs, q) <= 1
  {
    if n > 0 {
      GuardedRunsKeepOne(ops, states, q, n - 1);
      StepKeepsOneAliveExactly(states[n - 1], ops[n - 1], q);
    }
    AnswersAreAlive(states[n].logs, q);
  }

  function Checks(logs: seq<TxLog>, cs: seq<Check>): seq<TxLog>
  {
    if |cs| == 0 then logs
    else
      var before, c := Checks(logs, cs[..|cs| - 1]), cs[|cs| - 1];
      if c.index < |before| then before[c.index := CheckOf(before[c.index], c)] else before
  }

  lemma {:induction false} ChecksKeepOneAlive(logs: seq<TxLog>, cs: seq<Check>, q: Request)
    requires CountAlive(logs, q) <= 1
    ensures CountAlive(Checks(logs, cs), q) <= 1
  {
    if |cs| > 0 {
      var before, c := Checks(logs, cs[..|cs| - 1]), cs[|cs| - 1];
      ChecksKeepOneAlive(logs, cs[..|cs| - 1], q);
      if c.index < |before| {
        var l := before[c.index];
        GovernanceCheckIsSound(l, c.before, c.receipt, c.after, c.now, c.timeoutMs);
        if !Reusable(l) { RevivableExactly(l); }
        AliveReplaced(before, c.index, CheckOf(l, c), q);
      }
    }
  }

  lemma {:induction false} TwoAlive(logs: seq<TxLog>, q: Request) returns (i: nat, j: nat)
    requires CountAlive(logs, q) >= 2
    ensures i < j < |logs| && logs[i].request == q && logs[j].request == q && Alive(logs[i]) && Alive(logs[j])
  {
    var n := |logs| - 1;
    if logs[n].request == q && Alive(logs[n]) {
      i := OneAlive(logs[..n], q);
      j := n;
    } else {
      i, j := TwoAlive(logs[..n], q);
    }
  }

  lemma {:induction false} OneAlive(logs: seq<TxLog>, q: Request) returns (i: nat)
    requires CountAlive(logs, q) >= 1
    ensures i < |logs| && logs[i].request == q && Alive(logs[i])
  {
    var n := |logs| - 1;
    if logs[n].request == q && Alive(logs[n]) { i := n; } else { i := OneAlive(logs[..n], q); }
  }

  lemma {:induction false} TwoAnswers(logs: seq<TxLog>, q: Request, i: nat, j: nat)
    requires i < j < |logs| && Answers(logs[i], q) && Answers(logs[j], q)
    ensures CountAnswers(logs, q) >= 2
  {
    var n := |logs| - 1;
    if j < n { TwoAnswers(logs[..n], q, i, j); } else { OneAnswer(logs[..n], q, i); }
  }

  lemma {:induction false} OneAnswer(logs: seq<TxLog>, q: Request, i: nat)
    requires i < |logs| && Answers(logs[i], q)
    ensures CountAnswers(logs, q) >= 1
  {
    var n := |logs| - 1;
    if i < n { OneAnswer(logs[..n], q, i); }
  }

  /**
   The exact condition on a ledger: no sequence of checks ever makes two successful logs of a
   request if and only if at most one of its logs answers it, is in broadcast, or failed with
   a transaction.
   */
  lemma ChecksNeverDoubleExactly(logs: seq<TxLog>, q: Request)
    ensures (forall cs :: CountAnswers(Checks(logs, cs), q) <= 1) <==> CountAlive(logs, q) <= 1
  {
    if CountAlive(logs, q) <= 1 {
      forall cs ensures CountAnswers(Checks(logs, cs), q) <= 1 {
        ChecksKeepOneAlive(logs, cs, q);
        AnswersAreAlive(Checks(logs, cs), q);
      }
    } else {
      var i, j := TwoAlive(logs, q);
      var cs := DoublingChecks(logs, i, j);
      DoublingChecksDouble(logs, q, i, j);
      assert CountAnswers(Checks(logs, cs), q) >= 2;
    }
  }

  function DoublingChecks(logs: seq<TxLog>, i: nat, j: nat): seq<Check>
    requires i < |logs| && j < |logs|
  {
    (if Reusable(logs[i]) then [] else [ReviveCheck(logs[i], i)]) +
    (if Reusable(logs[j]) then [] else [ReviveCheck(logs[j], j)])
  }

  lemma DoublingChecksDouble(logs: seq<TxLog>, q: Request, i: nat, j: nat)
    requires i < j < |logs| && logs[i].request == q && logs[j].request == q && Alive(logs[i]) && Alive(logs[j])
    ensures CountAnswers(Checks(logs, DoublingChecks(logs, i, j)), q) >= 2
  {
    var first := if Reusable(logs[i]) then [] else [ReviveCheck(logs[i], i)];
    var second := if Reusable(logs[j]) then [] else [ReviveCheck(logs[j], j)];
    RevivingOne(logs, logs, i);
    var mid := Checks(logs, first);
    RevivingOne(logs, mid, j);
    ChecksConcat(logs, first, second);
    var end := Checks(mid, second);
    assert end[i] == mid[i];
    TwoAnswers(end, q, i, j);
  }

  /** Reviving the log at i, if it needs it, in a ledger that still has it. */
  lemma RevivingOne(logs: seq<TxLog>, now: seq<TxLog>, i: nat)
    requires i < |logs| == |now| && now[i] == logs[i] && Alive(logs[i])
    ensures var r := Checks(now, if Reusable(logs[i]) then [] else [ReviveCheck(logs[i], i)]);
      && |r| == |now| && Answers(r[i], logs[i].request) && forall k :: 0 <= k < |now| && k != i ==> r[k] == now[k]
  {
    if Revivable(logs[i]) {
      ReviveCheckRevives(logs[i], i);
      var c := ReviveCheck(logs[i], i);
      assert [c][..0] == [] && Checks(now, []) == now;
    }
  }

  lemma {:induction false} ChecksConcat(logs: seq<TxLog>, cs: seq<Check>, ds: seq<Check>)
    ensures Checks(logs, cs + ds) == Checks(Checks(logs, cs), ds)
  {
    if |ds| == 0 {
      assert cs + ds == cs;
    } else {
      assert (cs + ds)[..|cs + ds| - 1] == cs + ds[..|ds| - 1];
      ChecksConcat(logs, cs, ds[..|ds| - 1]);
    }
  }

  const NO_REVIEWS: Reviews := map[]

  function TimeoutCheck(now: int): Check { Check(0, [], NoReceipt, [], now, 60_000) }

  function ShownCheck(q: Request, hash: nat, now: int): Check { Check(0, [BindingFor(q, hash)], NoReceipt, [], now, 60_000) }

  /** Submitted, failed by timeout, asked for and broadcast again, then the first transaction turns up in the projection. */
  function HealingOps(q: Request, call: Call, again: Call, now: int): seq<Op>
  {
    [Serve(Register(q, call)), Reconciling(TimeoutCheck(now)), Serve(Register(q, again)), Reconciling(ShownCheck(q, 1, now))]
  }

  lemma TimesOut(q: Request, call: Call, now: int)
    requires call.answer == Answered(BroadcastSubmitted, Some(1)) && now - call.now >= 60_000
    ensures var failed := CheckOf(NewLog(q, call), TimeoutCheck(now));
      !Reusable(failed) && failed.txHash == Some(1) && failed.request == q && GovernanceReconcileable(failed)
  {
  }

  /** It does happen: from an empty ledger service and worker come to two successful logs of one request. */
  lemma HealedLogDoubles(q: Request, call: Call, again: Call, now: int, states: seq<State>)
    requires call.answer == Answered(BroadcastSubmitted, Some(1)) && again.answer == Answered(BroadcastSubmitted, Some(2))
    requires now - call.now >= 60_000
    requires IsRun(HealingOps(q, call, again, now), states) && states[0] == State(NO_REVIEWS, [])
    ensures CountAnswers(states[3].logs, q) == 1 && CountAnswers(states[4].logs, q) == 2
  {
    var ops := HealingOps(q, call, again, now);
    var first, second := NewLog(q, call), NewLog(q, again);
    var failed := CheckOf(first, TimeoutCheck(now));
    TimesOut(q, call, now);
    assert states[1] == Next(states[0], ops[0]) && states[2] == Next(states[1], ops[1]);
    assert states[3] == Next(states[2], ops[2]) && states[4] == Next(states[3], ops[3]);
    FirstBroadcast([], q, call);
    assert states[1].logs == [first];
    assert states[2].logs == [failed];
    FirstBroadcast([failed], q, again);
    assert states[3].logs == [failed, second];
    ShownIsConfirmed(failed, 1, now);
    CountTwo(failed, second, q);
    CountTwo(CheckOf(failed, ShownCheck(q, 1, now)), second, q);
    assert states[4].logs == [CheckOf(failed, ShownCheck(q, 1, now)), second];
  }

  /** Nothing reusable is there, so that the request is broadcast. */
  lemma FirstBroadcast(logs: seq<TxLog>, q: Request, call: Call)
    requires forall l :: l in logs ==> !Answers(l, q)
    ensures Recording(logs, q, call) == logs + [NewLog(q, call)]
  {
    DuplicateIsStored(logs, q);
  }

  lemma ShownIsConfirmed(l: TxLog, hash: nat, now: int)
    requires l.txHash == Some(hash) && GovernanceReconcileable(l)
    ensures Reusable(CheckOf(l, ShownCheck(l.request, hash, now))) && CheckOf(l, ShownCheck(l.request, hash, now)).request == l.request
  {
    var b := BindingFor(l.request, hash);
    assert IdentityMatches(b, l);
    assert GovernanceConfirmation([b], l).Some?;
  }

  lemma CountTwo(a: TxLog, b: TxLog, q: Request)
    ensures CountAnswers([a, b], q) == One(Answers(a, q)) + One(Answers(b, q))
  {
    assert [a, b][..1] == [a] && [a][..0] == [];
    assert CountAnswers([a], q) == CountAnswers([], q) + One(Answers(a, q));
  }
}
