/** The notification delivery ledger (service/src/notifications/service.ts). */
module Deliveries {
  import opened Prelude
  import opened ChainEvents

  datatype Status = Pending | Sent | Failed | Skipped | DeadLetter | Invalidated

  datatype Reason =
    | AdapterMissing | AttemptsExhausted | ReorgRolledBack
    | Unroutable(code: nat) | Operator(text: nat)

  /** `body` stands for the fields that are fixed when the record is made. */
  datatype Delivery = Delivery(
    body: nat, chainId: nat, proofBlock: nat, status: Status, attempts: nat,
    reason: Option<Reason>, lastError: Option<nat>)

  /** A delivery id is a digest of the event's position and of the receiver. */
  datatype DeliveryId = DeliveryId(event: Key, receiver: nat)

  type Ledger = map<DeliveryId, Delivery>

  /** A call of the transport, and whether it reported success. */
  datatype Send = Send(id: DeliveryId, ok: bool)

  /** The ledger together with the history of transport calls. */
  datatype Book = Book(ledger: Ledger, sends: seq<Send>)

  /** How a dispatch goes: no transport is wired, it answers, or it throws. */
  datatype Dispatch = NoDispatcher | Answers(ok: bool, error: Option<nat>) | Throws(message: nat)

  const MAX_AUTOMATIC_DELIVERY_ATTEMPTS: nat := 5

  function Put(b: Book, id: DeliveryId, d: Delivery): Book { b.(ledger := b.ledger[id := d]) }

  function DispatchPrepared(b: Book, id: DeliveryId, pending: Delivery, how: Dispatch): Book
  {
    match how
    case NoDispatcher => Put(b, id, pending.(status := Skipped, reason := Some(AdapterMissing)))
    case Answers(ok, error) =>
      Put(b.(sends := b.sends + [Send(id, ok)]), id,
          pending.(status := if ok then Sent else Failed, attempts := pending.attempts + 1,
                   lastError := if error.Some? then error else pending.lastError))
    case Throws(message) =>
      Put(b.(sends := b.sends + [Send(id, false)]), id,
          pending.(status := Failed, attempts := pending.attempts + 1, lastError := Some(message)))
  }

  predicate Exhausted(d: Delivery)
  {
    d.status == Failed && d.attempts >= MAX_AUTOMATIC_DELIVERY_ATTEMPTS
  }

  predicate Dispatchable(b: Book, id: DeliveryId)
  {
    id in b.ledger ==> b.ledger[id].status in {Pending, Failed} && !Exhausted(b.ledger[id])
  }

  /** The record as the dispatch leaves it just before the transport call. */
  function PendingRecord(b: Book, id: DeliveryId, base: Delivery): Delivery
  {
    (if id in b.ledger then b.ledger[id] else base).(status := Pending)
  }

  function DispatchSignal(b: Book, id: DeliveryId, base: Delivery, how: Dispatch): Book
  {
    if id in b.ledger && b.ledger[id].status !in {Pending, Failed} then b
    else if id in b.ledger && Exhausted(b.ledger[id]) then
      Put(b, id, b.ledger[id].(status := DeadLetter, reason := Some(AttemptsExhausted)))
    else
      var pending := PendingRecord(b, id, base);
      DispatchPrepared(Put(b, id, pending), id, pending, how)
  }

  function SaveSkipped(b: Book, id: DeliveryId, base: Delivery, reason: Reason): Book
  {
    if id in b.ledger && b.ledger[id].status != Pending then b
    else Put(b, id, base.(status := Skipped, reason := Some(reason)))
  }

  /** The outcome of looking the receiver up again for a manual dispatch. */
  datatype Resolution = Resolved(how: Dispatch) | Unresolved(reason: Reason)

  function Redispatch(b: Book, id: DeliveryId, res: Resolution): Book
    requires id in b.ledger
  {
    var pending := b.ledger[id].(status := Pending, reason := None, lastError := None);
    match res
    case Unresolved(reason) => Put(b, id, pending.(status := Skipped, reason := Some(reason)))
    case Resolved(how) => DispatchPrepared(Put(b, id, pending), id, pending, how)
  }

  predicate Retryable(b: Book, id: DeliveryId)
  {
    id in b.ledger && b.ledger[id].status !in {Sent, DeadLetter, Invalidated}
  }

  function Retry(b: Book, id: DeliveryId, res: Resolution): Book
  {
    if Retryable(b, id) then Redispatch(b, id, res) else b
  }

  function Reopen(b: Book, id: DeliveryId, res: Resolution): Book
  {
    if id in b.ledger && b.ledger[id].status == DeadLetter then Redispatch(b, id, res) else b
  }

  function DeadLetterByHand(b: Book, id: DeliveryId, reason: Option<Reason>): Book
  {
    if id !in b.ledger then b
    else Put(b, id, b.ledger[id].(status := DeadLetter, reason := if reason.Some? then reason else b.ledger[id].reason))
  }

  predicate Stale(d: Delivery, chainId: nat, block: nat)
  {
    d.status != Invalidated && d.chainId == chainId && d.proofBlock > block
  }

  function InvalidatedRecord(d: Delivery): Delivery { d.(status := Invalidated, reason := Some(ReorgRolledBack)) }

  function Invalidate(ledger: Ledger, chainId: nat, block: nat): Ledger
  {
    map id | id in ledger :: if Stale(ledger[id], chainId, block) then InvalidatedRecord(ledger[id]) else ledger[id]
  }

  /** Every delivery of the chain that points above the block is invalidated. */
  ghost predicate Settled(ledger: Ledger, chainId: nat, block: nat)
  {
    forall id | id in ledger && ledger[id].chainId == chainId && ledger[id].proofBlock > block ::
      ledger[id].status == Invalidated
  }

  /** After an invalidation nothing but invalidated records of the chain points above the block. */
  lemma InvalidationIsComplete(ledger: Ledger, chainId: nat, block: nat)
    ensures Settled(Invalidate(ledger, chainId, block), chainId, block)
    ensures Invalidate(Invalidate(ledger, chainId, block), chainId, block) == Invalidate(ledger, chainId, block)
  {
  }

  // ----- processing a batch of events -----

  /** What the routing of one event to one receiver decided. */
  datatype Intent = Skip(id: DeliveryId, base: Delivery, reason: Reason) | Push(id: DeliveryId, base: Delivery)

  predicate Notifiable(e: Event, finalized: Option<nat>)
  {
    e.log.payload.SignalSubmitted? && (finalized.None? || e.blockNumber <= finalized.value)
  }

  function Carry(b: Book, intent: Intent, dispatch: DeliveryId -> Dispatch): Book
  {
    match intent
    case Skip(id, base, reason) => SaveSkipped(b, id, base, reason)
    case Push(id, base) => DispatchSignal(b, id, base, dispatch(id))
  }

  function CarryAll(b: Book, intents: seq<Intent>, dispatch: DeliveryId -> Dispatch): Book
  {
    if |intents| == 0 then b
    else Carry(CarryAll(b, intents[..|intents| - 1], dispatch), intents[|intents| - 1], dispatch)
  }

  /** The intents of a batch: its active, finalized signals in replay order, each with its receivers. */
  function IntentsOf(events: seq<Event>, finalized: Option<nat>, route: Event -> seq<Intent>): seq<Intent>
  {
    if |events| == 0 then []
    else IntentsOf(events[..|events| - 1], finalized, route) +
         if Notifiable(events[|events| - 1], finalized) then route(events[|events| - 1]) else []
  }

  function Process(b: Book, events: seq<Event>, finalized: Option<nat>, route: Event -> seq<Intent>,
                   dispatch: DeliveryId -> Dispatch): Book
  {
    CarryAll(b, IntentsOf(Active(events), finalized, route), dispatch)
  }

  lemma {:induction false} CarryAllConcat(b: Book, xs: seq<Intent>, ys: seq<Intent>, dispatch: DeliveryId -> Dispatch)
    ensures CarryAll(b, xs + ys, dispatch) == CarryAll(CarryAll(b, xs, dispatch), ys, dispatch)
  {
    if |ys| == 0 {
      assert xs + ys == xs;
    } else {
      assert (xs + ys)[..|xs + ys| - 1] == xs + ys[..|ys| - 1];
      CarryAllConcat(b, xs, ys[..|ys| - 1], dispatch);
    }
  }

  lemma {:induction false} CarryAllRecords(b: Book, intents: seq<Intent>, dispatch: DeliveryId -> Dispatch)
    ensures forall id :: id in b.ledger ==> id in CarryAll(b, intents, dispatch).ledger
    ensures forall i :: i in intents ==> i.id in CarryAll(b, intents, dispatch).ledger
  {
    if |intents| > 0 {
      CarryAllRecords(b, intents[..|intents| - 1], dispatch);
      assert intents == intents[..|intents| - 1] + [intents[|intents| - 1]];
    }
  }

  lemma {:induction false} IntentsMembers(events: seq<Event>, finalized: Option<nat>, route: Event -> seq<Intent>)
    ensures forall e, i :: e in events && Notifiable(e, finalized) && i in route(e) ==> i in IntentsOf(events, finalized, route)
  {
    if |events| > 0 {
      IntentsMembers(events[..|events| - 1], finalized, route);
      assert events == events[..|events| - 1] + [events[|events| - 1]];
    }
  }

  /** A processor call that returns leaves a record for every receiver of every active finalized signal. */
  lemma ProcessedSignalsAreRecorded(b: Book, events: seq<Event>, finalized: Option<nat>, route: Event -> seq<Intent>,
                                    dispatch: DeliveryId -> Dispatch, e: Event, i: Intent)
    requires e in Active(events) && Notifiable(e, finalized) && i in route(e)
    ensures i.id in Process(b, events, finalized, route, dispatch).ledger
  {
    IntentsMembers(Active(events), finalized, route);
    CarryAllRecords(b, IntentsOf(Active(events), finalized, route), dispatch);
  }

  datatype RunSummary = RunSummary(deliveryIntents: nat, sent: nat, failed: nat, skipped: nat, existing: nat)

  class NotificationLedger {
    var deliveries: Ledger
    ghost var sends: seq<Send>

    ghost function View(): Book reads this { Book(deliveries, sends) }

    constructor ()
      ensures View() == Book(map[], [])
    {
      deliveries := map[];
      sends := [];
    }

    method SaveSkippedSignalDelivery(id: DeliveryId, base: Delivery, reason: Reason) returns (record: Delivery)
      modifies this
      ensures View() == SaveSkipped(old(View()), id, base, reason)
      ensures id in deliveries && record == deliveries[id]
    {
      if id in deliveries && deliveries[id].status != Pending {
        return deliveries[id];
      }
      record := base.(status := Skipped, reason := Some(reason));
      deliveries := deliveries[id := record];
    }

    method DispatchSignalTransportDelivery(id: DeliveryId, base: Delivery, how: Dispatch) returns (record: Delivery)
      modifies this
      ensures View() == DispatchSignal(old(View()), id, base, how)
      ensures id in deliveries && record == deliveries[id]
    {
      if id in deliveries && deliveries[id].status != Pending && deliveries[id].status != Failed {
        return deliveries[id];
      }
      if id in deliveries && deliveries[id].status == Failed && deliveries[id].attempts >= MAX_AUTOMATIC_DELIVERY_ATTEMPTS {
        record := deliveries[id].(status := DeadLetter, reason := Some(AttemptsExhausted));
        deliveries := deliveries[id := record];
        return;
      }
      var pending := (if id in deliveries then deliveries[id] else base).(status := Pending);
      deliveries := deliveries[id := pending];
      record := DispatchPreparedDelivery(id, pending, how);
    }

    method DispatchPreparedDelivery(id: DeliveryId, pending: Delivery, how: Dispatch) returns (record: Delivery)
      modifies this
      ensures View() == DispatchPrepared(old(View()), id, pending, how)
      ensures id in deliveries && record == deliveries[id]
    {
      match how {
        case NoDispatcher =>
          record := pending.(status := Skipped, reason := Some(AdapterMissing));
        case Answers(ok, error) =>
          sends := sends + [Send(id, ok)];
          record := pending.(status := if ok then Sent else Failed, attempts := pending.attempts + 1,
                             lastError := if error.Some? then error else pending.lastError);
        case Throws(message) =>
          sends := sends + [Send(id, false)];
          record := pending.(status := Failed, attempts := pending.attempts + 1, lastError := Some(message));
      }
      deliveries := deliveries[id := record];
    }

    method RedispatchAs(id: DeliveryId, res: Resolution) returns (record: Delivery)
      requires id in deliveries
      modifies this
      ensures View() == Redispatch(old(View()), id, res)
      ensures id in deliveries && record == deliveries[id]
    {
      var pending := deliveries[id].(status := Pending, reason := None, lastError := None);
      deliveries := deliveries[id := pending];
      match res {
        case Unresolved(reason) =>
          record := pending.(status := Skipped, reason := Some(reason));
          deliveries := deliveries[id := record];
        case Resolved(how) =>
          record := DispatchPreparedDelivery(id, pending, how);
      }
    }

    method RetryDelivery(id: DeliveryId, res: Resolution) returns (retried: bool)
      modifies this
      ensures View() == Retry(old(View()), id, res)
      ensures retried == Retryable(old(View()), id)
    {
      if id !in deliveries { return false; }
      if deliveries[id].status in {Sent, DeadLetter, Invalidated} { return false; }
      var _ := RedispatchAs(id, res);
      retried := true;
    }

    method ReopenDelivery(id: DeliveryId, res: Resolution) returns (reopened: bool)
      modifies this
      ensures View() == Reopen(old(View()), id, res)
      ensures reopened <==> id in old(deliveries) && old(deliveries)[id].status == DeadLetter
    {
      if id !in deliveries || deliveries[id].status != DeadLetter { return false; }
      var _ := RedispatchAs(id, res);
      reopened := true;
    }

    method DeadLetterDelivery(id: DeliveryId, reason: Option<Reason>)
      modifies this
      ensures View() == DeadLetterByHand(old(View()), id, reason)
    {
      if id in deliveries {
        var d := deliveries[id];
        deliveries := deliveries[id := d.(status := DeadLetter, reason := if reason.Some? then reason else d.reason)];
      }
    }

    /** Marks every stale record and returns how many it marked. */
    method InvalidateDeliveriesAboveBlock(chainId: nat, block: nat) returns (invalidated: nat)
      modifies this`deliveries
      ensures deliveries == Invalidate(old(deliveries), chainId, block)
      ensures invalidated == |set id | id in old(deliveries) && Stale(old(deliveries)[id], chainId, block)|
    {
      invalidated := 0;
      var listed := deliveries;
      var rest := listed.Keys;
      while rest != {}
        invariant rest <= listed.Keys && deliveries.Keys == listed.Keys
        invariant forall id :: id in rest ==> deliveries[id] == listed[id]
        invariant forall id :: id in listed && id !in rest ==>
          deliveries[id] == if Stale(listed[id], chainId, block) then InvalidatedRecord(listed[id]) else listed[id]
        invariant invalidated == |set id | id in listed && id !in rest && Stale(listed[id], chainId, block)|
        decreases |rest|
      {
        var id :| id in rest;
        ghost var marked := set i | i in listed && i !in rest && Stale(listed[i], chainId, block);
        rest := rest - {id};
        var d := listed[id];
        if d.status == Invalidated || d.chainId != chainId || d.proofBlock <= block {
          assert marked == set i | i in listed && i !in rest && Stale(listed[i], chainId, block);
          continue;
        }
        assert marked + {id} == set i | i in listed && i !in rest && Stale(listed[i], chainId, block);
        deliveries := deliveries[id := InvalidatedRecord(d)];
        invalidated := invalidated + 1;
      }
      assert (set id | id in listed && Stale(listed[id], chainId, block))
          == set id | id in listed && id !in rest && Stale(listed[id], chainId, block);
    }

    /** Dispatches the intents of one event, adding their outcomes to the summary. */
    method DispatchIntents(intents: seq<Intent>, dispatch: DeliveryId -> Dispatch, start: RunSummary)
      returns (summary: RunSummary)
      modifies this
      ensures View() == CarryAll(old(View()), intents, dispatch)
      ensures summary == Tally(start, old(View()), intents, dispatch)
    {
      summary := start;
      var i := 0;
      while i < |intents|
        invariant 0 <= i <= |intents|
        invariant View() == CarryAll(old(View()), intents[..i], dispatch)
        invariant summary == Tally(start, old(View()), intents[..i], dispatch)
      {
        assert intents[..i + 1][..i] == intents[..i];
        var record;
        match intents[i] {
          case Skip(id, base, reason) => record := SaveSkippedSignalDelivery(id, base, reason);
          case Push(id, base) => record := DispatchSignalTransportDelivery(id, base, dispatch(id));
        }
        summary := UpdateIntentSummary(summary, record);
        i := i + 1;
      }
      assert intents[..i] == intents;
    }

    /** The processor: the active final signals in replay order, each for all its receivers. */
    method ProcessSignalSubmittedEvents(events: seq<Event>, finalized: Option<nat>, route: Event -> seq<Intent>,
                                        dispatch: DeliveryId -> Dispatch) returns (summary: RunSummary)
      modifies this
      ensures View() == Process(old(View()), events, finalized, route, dispatch)
      ensures summary == Tally(RunSummary(0, 0, 0, 0, 0), old(View()), IntentsOf(Active(events), finalized, route), dispatch)
    {
      var replay := BuildActiveChainEventReplaySummary(events);
      var active := replay.activeEvents;
      summary := RunSummary(0, 0, 0, 0, 0);
      var n := 0;
      while n < |active|
        invariant 0 <= n <= |active|
        invariant View() == CarryAll(old(View()), IntentsOf(active[..n], finalized, route), dispatch)
        invariant summary == Tally(RunSummary(0, 0, 0, 0, 0), old(View()), IntentsOf(active[..n], finalized, route), dispatch)
      {
        EventCarries(old(View()), active, n, finalized, route, dispatch);
        if Notifiable(active[n], finalized) {
          summary := DispatchIntents(route(active[n]), dispatch, summary);
        }
        n := n + 1;
      }
      assert active[..n] == active;
    }
  }

  function Outcomes(s: RunSummary): nat { s.sent + s.failed + s.skipped + s.existing }

  function UpdateIntentSummary(s: RunSummary, d: Delivery): RunSummary
  {
    var counted := s.(deliveryIntents := s.deliveryIntents + 1);
    match d.status
    case Sent => counted.(sent := s.sent + 1)
    case Failed => counted.(failed := s.failed + 1)
    case Skipped => counted.(skipped := s.skipped + 1)
    case DeadLetter => counted.(existing := s.existing + 1)
    case _ => counted
  }

  /** The summary of dispatching the intents: each is counted by the status its record then has. */
  function Tally(start: RunSummary, b: Book, intents: seq<Intent>, dispatch: DeliveryId -> Dispatch): RunSummary
  {
    if |intents| == 0 then start
    else
      var front, last := intents[..|intents| - 1], intents[|intents| - 1];
      UpdateIntentSummary(Tally(start, b, front, dispatch), Carry(CarryAll(b, front, dispatch), last, dispatch).ledger[last.id])
  }

  lemma {:induction false} TallyConcat(start: RunSummary, b: Book, xs: seq<Intent>, ys: seq<Intent>, dispatch: DeliveryId -> Dispatch)
    ensures Tally(start, b, xs + ys, dispatch) == Tally(Tally(start, b, xs, dispatch), CarryAll(b, xs, dispatch), ys, dispatch)
  {
    if |ys| == 0 {
      assert xs + ys == xs;
    } else {
      assert (xs + ys)[..|xs + ys| - 1] == xs + ys[..|ys| - 1];
      TallyConcat(start, b, xs, ys[..|ys| - 1], dispatch);
      CarryAllConcat(b, xs, ys[..|ys| - 1], dispatch);
    }
  }

  /** One more event of a batch. */
  lemma EventCarries(b: Book, active: seq<Event>, n: nat, finalized: Option<nat>, route: Event -> seq<Intent>,
                     dispatch: DeliveryId -> Dispatch)
    requires n < |active|
    ensures var done, more := IntentsOf(active[..n], finalized, route), IntentsOf(active[..n + 1], finalized, route);
      var next := if Notifiable(active[n], finalized) then route(active[n]) else [];
      && CarryAll(b, more, dispatch) == CarryAll(CarryAll(b, done, dispatch), next, dispatch)
      && Tally(RunSummary(0, 0, 0, 0, 0), b, more, dispatch)
         == Tally(Tally(RunSummary(0, 0, 0, 0, 0), b, done, dispatch), CarryAll(b, done, dispatch), next, dispatch)
  {
    var done := IntentsOf(active[..n], finalized, route);
    var next := if Notifiable(active[n], finalized) then route(active[n]) else [];
    assert active[..n + 1][..n] == active[..n];
    assert IntentsOf(active[..n + 1], finalized, route) == done + next;
    CarryAllConcat(b, done, next, dispatch);
    TallyConcat(RunSummary(0, 0, 0, 0, 0), b, done, next, dispatch);
  }

  /**
   A summary counts every intent once, under at most one outcome; what is counted under none
   was invalidated by an earlier reorg. Every transport call shows up as sent or failed.
   */
  lemma {:induction false} SummaryCoversSends(b: Book, intents: seq<Intent>, dispatch: DeliveryId -> Dispatch)
    ensures var m := Tally(RunSummary(0, 0, 0, 0, 0), b, intents, dispatch);
      && m.deliveryIntents == |intents|
      && Outcomes(m) <= m.deliveryIntents
      && |CarryAll(b, intents, dispatch).sends| - |b.sends| <= m.sent + m.failed
  {
    if |intents| > 0 {
      SummaryCoversSends(b, intents[..|intents| - 1], dispatch);
      CarrySends(CarryAll(b, intents[..|intents| - 1], dispatch), intents[|intents| - 1], dispatch);
    }
  }

  /** An intent makes at most one transport call, and one that does ends sent or failed. */
  lemma CarrySends(b: Book, i: Intent, dispatch: DeliveryId -> Dispatch)
    ensures var r := Carry(b, i, dispatch);
      i.id in r.ledger && (r.sends == b.sends || (|r.sends| == |b.sends| + 1 && r.ledger[i.id].status in {Sent, Failed}))
  {
  }

  // ----- runs -----

  /** One operation on the ledger, or the part of one that a crash lets happen. */
  datatype Act =
    | DoSkip(id: DeliveryId, base: Delivery, reason: Reason)
    | DoPush(id: DeliveryId, base: Delivery, how: Dispatch)
    | DoInvalidate(chainId: nat, block: nat)
    | PushCrash(id: DeliveryId, base: Delivery, called: Option<bool>)
    | DoRetry(id: DeliveryId, res: Resolution)
    | DoReopen(id: DeliveryId, res: Resolution)
    | RedispatchCrash(id: DeliveryId, reopening: bool, called: Option<bool>)
    | DoDeadLetter(id: DeliveryId, why: Option<Reason>)

  /** The record is saved as pending, the transport may have been called, the result is not saved. */
  function CrashedDispatch(b: Book, id: DeliveryId, pending: Delivery, called: Option<bool>): Book
  {
    var saved := Put(b, id, pending);
    if called.Some? then saved.(sends := saved.sends + [Send(id, called.value)]) else saved
  }

  function Step(b: Book, a: Act): Book
  {
    match a
    case DoSkip(id, base, reason) => SaveSkipped(b, id, base, reason)
    case DoPush(id, base, how) => DispatchSignal(b, id, base, how)
    case DoInvalidate(chainId, block) => b.(ledger := Invalidate(b.ledger, chainId, block))
    case PushCrash(id, base, called) =>
      if Dispatchable(b, id) then CrashedDispatch(b, id, PendingRecord(b, id, base), called) else DispatchSignal(b, id, base, NoDispatcher)
    case DoRetry(id, res) => Retry(b, id, res)
    case DoReopen(id, res) => Reopen(b, id, res)
    case RedispatchCrash(id, reopening, called) =>
      if (if reopening then id in b.ledger && b.ledger[id].status == DeadLetter else Retryable(b, id)) then
        CrashedDispatch(b, id, b.ledger[id].(status := Pending, reason := None, lastError := None), called)
      else b
    case DoDeadLetter(id, why) => DeadLetterByHand(b, id, why)
  }

  function Run(b: Book, acts: seq<Act>): Book
  {
    if |acts| == 0 then b else Step(Run(b, acts[..|acts| - 1]), acts[|acts| - 1])
  }

  /** A fresh record has never been attempted. */
  predicate FreshBase(a: Act)
  {
    (a.DoSkip? || a.DoPush? || a.PushCrash?) ==> a.base.status == Pending && a.base.attempts == 0
  }

  /** The indexer's own operations. */
  predicate Automatic(a: Act) { a.DoSkip? || a.DoPush? || a.DoInvalidate? || a.PushCrash? }

  predicate CrashFree(a: Act) { !a.PushCrash? && !a.RedispatchCrash? }

  function CountSends(sends: seq<Send>, id: DeliveryId): nat
  {
    if |sends| == 0 then 0
    else CountSends(sends[..|sends| - 1], id) + if sends[|sends| - 1].id == id then 1 else 0
  }

  function CountSuccesses(sends: seq<Send>, id: DeliveryId): nat
  {
    if |sends| == 0 then 0
    else CountSuccesses(sends[..|sends| - 1], id) + if sends[|sends| - 1] == Send(id, true) then 1 else 0
  }

  lemma CountAppend(sends: seq<Send>, s: Send, id: DeliveryId)
    ensures CountSends(sends + [s], id) == CountSends(sends, id) + if s.id == id then 1 else 0
    ensures CountSuccesses(sends + [s], id) == CountSuccesses(sends, id) + if s == Send(id, true) then 1 else 0
  {
    assert (sends + [s])[..|sends|] == sends;
  }

  /** What crash-free automatic operation keeps for one id: attempts count the sends, and a success ends them. */
  ghost predicate Accounted(b: Book, id: DeliveryId)
  {
    if id !in b.ledger then CountSends(b.sends, id) == 0 && CountSuccesses(b.sends, id) == 0
    else
      var d := b.ledger[id];
      && d.status != Pending
      && d.attempts == CountSends(b.sends, id) <= MAX_AUTOMATIC_DELIVERY_ATTEMPTS
      && CountSuccesses(b.sends, id) <= 1
      && (d.status == Sent ==> CountSuccesses(b.sends, id) == 1)
      && (CountSuccesses(b.sends, id) == 1 ==> d.status == Sent || d.status == Invalidated)
  }

  lemma DispatchCounts(b: Book, id: DeliveryId, pending: Delivery, how: Dispatch, other: DeliveryId)
    ensures var r := DispatchPrepared(b, id, pending, how);
      && (other != id ==> CountSends(r.sends, other) == CountSends(b.sends, other) &&
                          CountSuccesses(r.sends, other) == CountSuccesses(b.sends, other))
      && (how.NoDispatcher? ==> r.sends == b.sends)
      && (!how.NoDispatcher? ==> CountSends(r.sends, id) == CountSends(b.sends, id) + 1)
      && CountSuccesses(r.sends, id) == CountSuccesses(b.sends, id) + if how.Answers? && how.ok then 1 else 0
  {
    match how
    case NoDispatcher =>
    case Answers(ok, _) => CountAppend(b.sends, Send(id, ok), id); CountAppend(b.sends, Send(id, ok), other);
    case Throws(_) => CountAppend(b.sends, Send(id, false), id); CountAppend(b.sends, Send(id, false), other);
  }

  lemma PushKeepsAccount(b: Book, pushed: DeliveryId, base: Delivery, how: Dispatch, id: DeliveryId)
    requires Accounted(b, id) && base.status == Pending && base.attempts == 0
    ensures Accounted(DispatchSignal(b, pushed, base, how), id)
  {
    var pending := PendingRecord(b, pushed, base);
    if Dispatchable(b, pushed) {
      DispatchKeepsAccount(b, pushed, pending, how, id);
    } else if pushed != id {
      assert DispatchSignal(b, pushed, base, how).sends == b.sends;
    }
  }

  /** A dispatch of a record with attempts to spare. */
  lemma DispatchKeepsAccount(b: Book, pushed: DeliveryId, pending: Delivery, how: Dispatch, id: DeliveryId)
    requires Accounted(b, id) && pending.status == Pending
    requires pushed == id ==>
      && pending.attempts == CountSends(b.sends, id) < MAX_AUTOMATIC_DELIVERY_ATTEMPTS && CountSuccesses(b.sends, id) == 0
    ensures Accounted(DispatchPrepared(Put(b, pushed, pending), pushed, pending, how), id)
  {
    var r := DispatchPrepared(Put(b, pushed, pending), pushed, pending, how);
    DispatchCounts(Put(b, pushed, pending), pushed, pending, how, id);
    if pushed != id {
      AccountedElsewhere(b, r, id);
    } else {
      DispatchedRecord(b, id, pending, how);
    }
  }

  lemma AccountedElsewhere(b: Book, r: Book, id: DeliveryId)
    requires Accounted(b, id) && (id in r.ledger <==> id in b.ledger) && (id in b.ledger ==> r.ledger[id] == b.ledger[id])
    requires CountSends(r.sends, id) == CountSends(b.sends, id) && CountSuccesses(r.sends, id) == CountSuccesses(b.sends, id)
    ensures Accounted(r, id)
  {
  }

  lemma DispatchedRecord(b: Book, id: DeliveryId, pending: Delivery, how: Dispatch)
    ensures var r := DispatchPrepared(Put(b, id, pending), id, pending, how);
      && id in r.ledger
      && r.ledger[id].attempts == pending.attempts + (if how.NoDispatcher? then 0 else 1)
      && r.ledger[id].status ==
           if how.NoDispatcher? then Skipped else if how.Answers? && how.ok then Sent else Failed
  {
  }

  lemma AutomaticStepKeepsAccount(b: Book, a: Act, id: DeliveryId)
    requires Accounted(b, id) && Automatic(a) && CrashFree(a) && FreshBase(a)
    ensures Accounted(Step(b, a), id)
  {
    if a.DoPush? { PushKeepsAccount(b, a.id, a.base, a.how, id); }
  }

  /** At most five sends and at most one success per delivery, over every crash-free automatic run. */
  lemma {:induction false} AutomaticRunsSendAtMostFive(acts: seq<Act>, id: DeliveryId)
    requires forall a :: a in acts ==> Automatic(a) && CrashFree(a) && FreshBase(a)
    ensures Accounted(Run(Book(map[], []), acts), id)
    ensures var b := Run(Book(map[], []), acts);
      CountSends(b.sends, id) <= MAX_AUTOMATIC_DELIVERY_ATTEMPTS && CountSuccesses(b.sends, id) <= 1
  {
    if |acts| > 0 {
      var front, last := acts[..|acts| - 1], acts[|acts| - 1];
      assert last in acts;
      AutomaticRunsSendAtMostFive(front, id);
      AutomaticStepKeepsAccount(Run(Book(map[], []), front), last, id);
    }
  }

  ghost predicate WithinBudget(b: Book, id: DeliveryId)
  {
    id in b.ledger ==>
      b.ledger[id].attempts <= MAX_AUTOMATIC_DELIVERY_ATTEMPTS &&
      (b.ledger[id].status == Pending ==> b.ledger[id].attempts < MAX_AUTOMATIC_DELIVERY_ATTEMPTS)
  }

  lemma StepKeepsBudget(b: Book, a: Act, id: DeliveryId)
    requires WithinBudget(b, id) && Automatic(a) && FreshBase(a)
    ensures WithinBudget(Step(b, a), id)
  {
  }

  /** The attempt counter respects the budget even when automatic operations crash half way. */
  lemma {:induction false} AttemptsStayWithinBudget(acts: seq<Act>, id: DeliveryId)
    requires forall a :: a in acts ==> Automatic(a) && FreshBase(a)
    ensures WithinBudget(Run(Book(map[], []), acts), id)
  {
    if |acts| > 0 {
      assert acts[|acts| - 1] in acts;
      AttemptsStayWithinBudget(acts[..|acts| - 1], id);
      StepKeepsBudget(Run(Book(map[], []), acts[..|acts| - 1]), acts[|acts| - 1], id);
    }
  }

  /** What a dispatch of `moved` leaves of the record and the send count of an id that is settled. */
  ghost predicate Undisturbed(b: Book, r: Book, id: DeliveryId)
    requires id in b.ledger
  {
    id in r.ledger && r.ledger[id] == b.ledger[id] && CountSends(r.sends, id) == CountSends(b.sends, id)
  }

  lemma DispatchLeavesOthers(b: Book, moved: DeliveryId, pending: Delivery, how: Dispatch, id: DeliveryId)
    requires id in b.ledger && moved != id
    ensures Undisturbed(b, DispatchPrepared(Put(b, moved, pending), moved, pending, how), id)
  {
    DispatchCounts(Put(b, moved, pending), moved, pending, how, id);
  }

  lemma CrashLeavesOthers(b: Book, moved: DeliveryId, pending: Delivery, called: Option<bool>, id: DeliveryId)
    requires id in b.ledger && moved != id
    ensures Undisturbed(b, CrashedDispatch(b, moved, pending, called), id)
  {
    if called.Some? { CountAppend(b.sends, Send(moved, called.value), id); }
  }

  lemma RedispatchLeavesOthers(b: Book, moved: DeliveryId, res: Resolution, id: DeliveryId)
    requires id in b.ledger && moved in b.ledger && moved != id
    ensures Undisturbed(b, Redispatch(b, moved, res), id)
  {
    var pending := b.ledger[moved].(status := Pending, reason := None, lastError := None);
    if res.Resolved? { DispatchLeavesOthers(b, moved, pending, res.how, id); }
  }

  /** No step but an invalidation and the operator's dead-lettering touches a sent or invalidated delivery. */
  lemma SettledIsUndisturbed(b: Book, a: Act, id: DeliveryId)
    requires !a.DoDeadLetter? && !a.DoInvalidate? && id in b.ledger && b.ledger[id].status in {Sent, Invalidated}
    ensures Undisturbed(b, Step(b, a), id)
  {
    match a
    case DoPush(moved, base, how) =>
      if moved != id { DispatchLeavesOthers(b, moved, PendingRecord(b, moved, base), how, id); }
    case PushCrash(moved, base, called) =>
      if moved != id { CrashLeavesOthers(b, moved, PendingRecord(b, moved, base), called, id); }
    case DoRetry(moved, res) =>
      if Retryable(b, moved) { RedispatchLeavesOthers(b, moved, res, id); }
    case DoReopen(moved, res) =>
      if moved in b.ledger && moved != id { RedispatchLeavesOthers(b, moved, res, id); }
    case RedispatchCrash(moved, _, called) =>
      if moved in b.ledger && moved != id {
        CrashLeavesOthers(b, moved, b.ledger[moved].(status := Pending, reason := None, lastError := None), called, id);
      }
    case _ =>
  }

  lemma StepWithoutDeadLetter(b: Book, a: Act, id: DeliveryId)
    requires !a.DoDeadLetter? && id in b.ledger && b.ledger[id].status in {Sent, Invalidated}
    ensures var r := Step(b, a);
      && id in r.ledger
      && r.ledger[id].status in {Sent, Invalidated}
      && (b.ledger[id].status == Invalidated ==> r.ledger[id] == b.ledger[id])
      && CountSends(r.sends, id) == CountSends(b.sends, id)
  {
    if !a.DoInvalidate? { SettledIsUndisturbed(b, a, id); }
  }

  // ----- when a settled delivery comes back -----

  predicate DeadLetters(a: Act, id: DeliveryId) { a.DoDeadLetter? && a.id == id }

  predicate Reopens(a: Act, id: DeliveryId)
  {
    (a.DoReopen? && a.id == id) || (a.RedispatchCrash? && a.reopening && a.id == id)
  }

  /** A reorg below the block that the delivery proves. */
  predicate Voids(a: Act, d: Delivery) { a.DoInvalidate? && d.chainId == a.chainId && d.proofBlock > a.block }

  ghost predicate IsSettled(b: Book, id: DeliveryId) { id in b.ledger && b.ledger[id].status in {Sent, Invalidated} }

  ghost predicate AtRest(b: Book, id: DeliveryId)
  {
    id in b.ledger && b.ledger[id].status in {Sent, Invalidated, DeadLetter}
  }

  /** The reopening finds the delivery dead-lettered. */
  ghost predicate TakesEffect(b: Book, a: Act, id: DeliveryId)
  {
    id in b.ledger && b.ledger[id].status == DeadLetter && Reopens(a, id)
  }

  /** No step but an operator's own wakes a dead-lettered delivery. */
  lemma DeadIsUndisturbed(b: Book, a: Act, id: DeliveryId)
    requires id in b.ledger && b.ledger[id].status == DeadLetter
    requires !a.DoDeadLetter? && !a.DoInvalidate? && !Reopens(a, id)
    ensures Undisturbed(b, Step(b, a), id)
  {
    match a
    case DoPush(moved, base, how) =>
      if moved != id { DispatchLeavesOthers(b, moved, PendingRecord(b, moved, base), how, id); }
    case PushCrash(moved, base, called) =>
      if moved != id { CrashLeavesOthers(b, moved, PendingRecord(b, moved, base), called, id); }
    case DoRetry(moved, res) =>
      if Retryable(b, moved) { RedispatchLeavesOthers(b, moved, res, id); }
    case DoReopen(moved, res) =>
      if moved in b.ledger { RedispatchLeavesOthers(b, moved, res, id); }
    case RedispatchCrash(moved, _, called) =>
      if moved in b.ledger && moved != id {
        CrashLeavesOthers(b, moved, b.ledger[moved].(status := Pending, reason := None, lastError := None), called, id);
      }
    case _ =>
  }

  /** A delivery at rest stays at rest and unsent but for a reopening that takes effect. */
  lemma RestStep(b: Book, a: Act, id: DeliveryId)
    requires AtRest(b, id) && !TakesEffect(b, a, id)
    ensures var r := Step(b, a);
      && AtRest(r, id) && CountSends(r.sends, id) == CountSends(b.sends, id)
      && r.ledger[id].chainId == b.ledger[id].chainId && r.ledger[id].proofBlock == b.ledger[id].proofBlock
      && (r.ledger[id].status == DeadLetter <==>
            DeadLetters(a, id) || (b.ledger[id].status == DeadLetter && !Voids(a, b.ledger[id])))
  {
    if !a.DoDeadLetter? && !a.DoInvalidate? {
      if b.ledger[id].status == DeadLetter { DeadIsUndisturbed(b, a, id); } else { SettledIsUndisturbed(b, a, id); }
      RestUndisturbed(b, Step(b, a), id);
    }
  }

  lemma RestUndisturbed(b: Book, r: Book, id: DeliveryId)
    requires AtRest(b, id) && Undisturbed(b, r, id)
    ensures AtRest(r, id) && r.ledger[id] == b.ledger[id] && CountSends(r.sends, id) == CountSends(b.sends, id)
  {
  }

  lemma RunOneMore(b: Book, acts: seq<Act>, n: nat)
    requires n < |acts|
    ensures Run(b, acts[..n + 1]) == Step(Run(b, acts[..n]), acts[n])
  {
    assert acts[..n + 1][..n] == acts[..n];
  }

  /** Some earlier step dead-lettered the delivery, and no reorg voided it since. */
  ghost predicate DeadSince(acts: seq<Act>, n: nat, id: DeliveryId, d: Delivery)
    requires n <= |acts|
  {
    exists i :: 0 <= i < n && DeadLetters(acts[i], id) && NotVoided(acts, i + 1, n, d)
  }

  ghost predicate NotVoided(acts: seq<Act>, from: nat, until: nat, d: Delivery)
    requires until <= |acts|
  {
    forall k :: from <= k < until ==> !Voids(acts[k], d)
  }

  lemma DeadSinceOneMore(acts: seq<Act>, n: nat, id: DeliveryId, d: Delivery)
    requires n < |acts|
    ensures DeadSince(acts, n + 1, id, d) <==> DeadLetters(acts[n], id) || (DeadSince(acts, n, id, d) && !Voids(acts[n], d))
  {
    if DeadLetters(acts[n], id) {
      assert NotVoided(acts, n + 1, n + 1, d);
    } else if DeadSince(acts, n, id, d) && !Voids(acts[n], d) {
      var i :| 0 <= i < n && DeadLetters(acts[i], id) && NotVoided(acts, i + 1, n, d);
      assert NotVoided(acts, i + 1, n + 1, d);
    }
    if DeadSince(acts, n + 1, id, d) && !DeadLetters(acts[n], id) {
      var i :| 0 <= i < n + 1 && DeadLetters(acts[i], id) && NotVoided(acts, i + 1, n + 1, d);
      assert NotVoided(acts, i + 1, n, d);
    }
  }

  ghost predicate NoneTakesEffect(b: Book, acts: seq<Act>, n: nat, id: DeliveryId)
    requires n <= |acts|
  {
    forall j :: 0 <= j < n ==> !TakesEffect(Run(b, acts[..j]), acts[j], id)
  }

  /** Up to the first reopening that takes effect, being dead-lettered is read off the operations alone. */
  lemma {:induction false} RestsUntilReopened(b: Book, acts: seq<Act>, n: nat, id: DeliveryId)
    requires IsSettled(b, id) && n <= |acts| && NoneTakesEffect(b, acts, n, id)
    ensures var r := Run(b, acts[..n]);
      && AtRest(r, id) && CountSends(r.sends, id) == CountSends(b.sends, id)
      && r.ledger[id].chainId == b.ledger[id].chainId && r.ledger[id].proofBlock == b.ledger[id].proofBlock
      && (r.ledger[id].status == DeadLetter <==> DeadSince(acts, n, id, b.ledger[id]))
  {
    if n > 0 {
      RestsUntilReopened(b, acts, n - 1, id);
      RunOneMore(b, acts, n - 1);
      RestStep(Run(b, acts[..n - 1]), acts[n - 1], id);
      DeadSinceOneMore(acts, n - 1, id, b.ledger[id]);
    }
  }

  /**
   Exact condition for staying settled, crashes and manual retries included: a sent or
   invalidated delivery is sent or invalidated after every step if and only if the operator
   never dead-letters that delivery.
   */
  lemma SettledForGood(b: Book, acts: seq<Act>, id: DeliveryId)
    requires IsSettled(b, id)
    ensures (forall n :: 0 <= n <= |acts| ==> IsSettled(Run(b, acts[..n]), id)) <==> (forall a :: a in acts ==> !DeadLetters(a, id))
  {
    if forall a :: a in acts ==> !DeadLetters(a, id) {
      forall n | 0 <= n <= |acts| ensures IsSettled(Run(b, acts[..n]), id) {
        NeverDeadLettered(b, acts, n, id);
      }
    } else {
      var a :| a in acts && DeadLetters(a, id);
      var i :| 0 <= i < |acts| && acts[i] == a;
      RunOneMore(b, acts, i);
      assert !(IsSettled(Run(b, acts[..i]), id) && IsSettled(Run(b, acts[..i + 1]), id));
    }
  }

  /** Then an invalidated delivery also keeps its whole record, and neither is handed to the transport again. */
  lemma {:induction false} NeverDeadLettered(b: Book, acts: seq<Act>, n: nat, id: DeliveryId)
    requires IsSettled(b, id) && n <= |acts| && forall a :: a in acts ==> !DeadLetters(a, id)
    ensures var r := Run(b, acts[..n]);
      && IsSettled(r, id)
      && (b.ledger[id].status == Invalidated ==> r.ledger[id] == b.ledger[id])
      && CountSends(r.sends, id) == CountSends(b.sends, id)
  {
    if n > 0 {
      assert acts[n - 1] in acts;
      NeverDeadLettered(b, acts, n - 1, id);
      RunOneMore(b, acts, n - 1);
      if !acts[n - 1].DoDeadLetter? { StepWithoutDeadLetter(Run(b, acts[..n - 1]), acts[n - 1], id); }
    }
  }

  /** The delivery is dead-lettered and later reopened, and no reorg voids it in between. */
  ghost predicate DeadLetteredThenReopened(acts: seq<Act>, id: DeliveryId, d: Delivery)
  {
    exists j :: 0 <= j < |acts| && Reopens(acts[j], id) && DeadSince(acts, j, id, d)
  }

  lemma {:induction false} FirstEffect(b: Book, acts: seq<Act>, id: DeliveryId, j: nat) returns (first: nat)
    requires j < |acts| && TakesEffect(Run(b, acts[..j]), acts[j], id)
    ensures first <= j && TakesEffect(Run(b, acts[..first]), acts[first], id) && NoneTakesEffect(b, acts, first, id)
  {
    if i :| 0 <= i < j && TakesEffect(Run(b, acts[..i]), acts[i], id) {
      first := FirstEffect(b, acts, id, i);
    } else {
      first := j;
    }
  }

  /**
   Exact condition for coming back: a reopening of a settled delivery takes effect if and only
   if the operations dead-letter it and then reopen it with no reorg voiding it in between.
   Without that it is never sent again.
   */
  lemma ComesBackExactly(b: Book, acts: seq<Act>, id: DeliveryId)
    requires IsSettled(b, id)
    ensures !NoneTakesEffect(b, acts, |acts|, id) <==> DeadLetteredThenReopened(acts, id, b.ledger[id])
    ensures !DeadLetteredThenReopened(acts, id, b.ledger[id]) ==> CountSends(Run(b, acts).sends, id) == CountSends(b.sends, id)
  {
    if !NoneTakesEffect(b, acts, |acts|, id) {
      var j :| 0 <= j < |acts| && TakesEffect(Run(b, acts[..j]), acts[j], id);
      var first := FirstEffect(b, acts, id, j);
      RestsUntilReopened(b, acts, first, id);
      assert DeadSince(acts, first, id, b.ledger[id]);
    } else {
      forall j | 0 <= j < |acts| && Reopens(acts[j], id) ensures !DeadSince(acts, j, id, b.ledger[id]) {
        RestsUntilReopened(b, acts, j, id);
        assert !TakesEffect(Run(b, acts[..j]), acts[j], id);
      }
      assert acts[..|acts|] == acts;
      RestsUntilReopened(b, acts, |acts|, id);
    }
  }

  /** The reopening hands the delivery to the transport. */
  predicate CallsTransport(a: Act)
  {
    if a.DoReopen? then a.res.Resolved? && !a.res.how.NoDispatcher? else a.RedispatchCrash? && a.called.Some?
  }

  /** A reopening that takes effect is a further send exactly when it reaches the transport. */
  lemma EffectSends(b: Book, a: Act, id: DeliveryId)
    requires TakesEffect(b, a, id)
    ensures CountSends(Step(b, a).sends, id) == CountSends(b.sends, id) + if CallsTransport(a) then 1 else 0
  {
    var pending := b.ledger[id].(status := Pending, reason := None, lastError := None);
    if a.DoReopen? && a.res.Resolved? { DispatchCounts(Put(b, id, pending), id, pending, a.res.how, id); }
    if a.RedispatchCrash? && a.called.Some? { CountAppend(b.sends, Send(id, a.called.value), id); }
  }

  /** The dead-lettering does matter: dead-lettering and reopening sends an invalidated delivery out again. */
  lemma DeadLetterRevivesInvalidated(b: Book, id: DeliveryId, why: Option<Reason>, ok: bool)
    requires id in b.ledger && b.ledger[id].status == Invalidated
    ensures var r := Run(b, [DoDeadLetter(id, why), DoReopen(id, Resolved(Answers(ok, None)))]);
      && CountSends(r.sends, id) == CountSends(b.sends, id) + 1
      && id in r.ledger && r.ledger[id].status == if ok then Sent else Failed
  {
    var acts := [DoDeadLetter(id, why), DoReopen(id, Resolved(Answers(ok, None)))];
    assert acts[..1] == [acts[0]] && [acts[0]][..0] == [];
    var dead := DeadLetterByHand(b, id, why);
    assert Run(b, [acts[0]]) == Step(Run(b, []), acts[0]) == dead;
    var pending := dead.ledger[id].(status := Pending, reason := None, lastError := None);
    DispatchCounts(Put(dead, id, pending), id, pending, Answers(ok, None), id);
  }
}
