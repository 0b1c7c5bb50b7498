/**
 The durable queue of pending post-commit steps: its rows, the trim after a reorg and the
 sweep (service/src/indexer/service.ts; the row operations are those of
 service/src/storage/sqlite-projection-store.ts).
 */
module PendingSteps {
  import opened Prelude
  import opened ChainEvents

  /** Step ids are digests of the batch's event keys, or of the bare kind; equal digests mean equal contents. */
  datatype StepId = SignalsId(keys: seq<Key>) | AutomationId

  /** A queue row; the id tells the kind. */
  datatype Step = Step(id: StepId, events: seq<Event>, attempts: nat)

  type Queue = seq<Step>

  function KeysOf(events: seq<Event>): (keys: seq<Key>)
    ensures |keys| == |events| && forall i :: 0 <= i < |keys| ==> keys[i] == ChainEventKey(events[i])
  {
    if |events| == 0 then [] else KeysOf(events[..|events| - 1]) + [ChainEventKey(events[|events| - 1])]
  }

  function PendingPostCommitStepId(events: seq<Event>): StepId { SignalsId(KeysOf(events)) }

  /** The row with this id, if there is one. */
  function Look(q: Queue, id: StepId): Option<Step>
  {
    if |q| == 0 then None
    else if q[|q| - 1].id == id then Some(q[|q| - 1])
    else Look(q[..|q| - 1], id)
  }

  function DropStep(q: Queue, id: StepId): Queue
  {
    if |q| == 0 then []
    else DropStep(q[..|q| - 1], id) + if q[|q| - 1].id == id then [] else [q[|q| - 1]]
  }

  /** Insert, doing nothing on an id that is already there. */
  function SaveStep(q: Queue, id: StepId, events: seq<Event>): Queue
  {
    if Look(q, id).Some? then q else q + [Step(id, events, 0)]
  }

  function RecordAttempt(q: Queue, id: StepId): Queue
  {
    if |q| == 0 then []
    else
      var last := q[|q| - 1];
      RecordAttempt(q[..|q| - 1], id) + [if last.id == id then last.(attempts := last.attempts + 1) else last]
  }

  ghost predicate WellFormedStep(s: Step)
  {
    match s.id
    case SignalsId(keys) => keys == KeysOf(s.events) && |keys| > 0
    case AutomationId => s.events == []
  }

  /** Ids are unique, and they are the ids of what the rows carry. */
  ghost predicate ValidQueue(q: Queue)
  {
    UniqueIds(q) && forall s :: s in q ==> WellFormedStep(s) && Look(q, s.id) == Some(s)
  }

  ghost predicate UniqueIds(q: Queue)
  {
    |q| > 0 ==> Look(q[..|q| - 1], q[|q| - 1].id).None? && UniqueIds(q[..|q| - 1])
  }

  lemma {:induction false} LookMembers(q: Queue, id: StepId)
    ensures Look(q, id).Some? ==> Look(q, id).value in q && Look(q, id).value.id == id
    ensures Look(q, id).None? <==> forall s :: s in q ==> s.id != id
  {
    if |q| > 0 {
      LookMembers(q[..|q| - 1], id);
      assert q == q[..|q| - 1] + [q[|q| - 1]];
    }
  }

  lemma {:induction false} LookAfterDrop(q: Queue, gone: StepId, id: StepId)
    ensures Look(DropStep(q, gone), id) == if id == gone then None else Look(q, id)
  {
    if |q| > 0 {
      var front, last := q[..|q| - 1], q[|q| - 1];
      LookAfterDrop(front, gone, id);
      var r := DropStep(front, gone);
      assert (r + [last])[..|r|] == r;
      assert r + [] == r;
    }
  }

  lemma LookAfterSave(q: Queue, saved: StepId, events: seq<Event>, id: StepId)
    ensures Look(SaveStep(q, saved, events), id)
         == if id == saved && Look(q, id).None? then Some(Step(saved, events, 0)) else Look(q, id)
  {
    var added := Step(saved, events, 0);
    assert (q + [added])[..|q|] == q;
  }

  lemma {:induction false} LookAfterRecord(q: Queue, counted: StepId, id: StepId)
    ensures Look(RecordAttempt(q, counted), id) ==
      match Look(q, id)
      case None => None
      case Some(s) => Some(if id == counted then s.(attempts := s.attempts + 1) else s)
  {
    if |q| > 0 {
      var front, last := q[..|q| - 1], q[|q| - 1];
      LookAfterRecord(front, counted, id);
      var r := RecordAttempt(front, counted);
      var x := if last.id == counted then last.(attempts := last.attempts + 1) else last;
      assert (r + [x])[..|r|] == r;
    }
  }

  lemma {:induction false} DropStepMembers(q: Queue, gone: StepId)
    ensures forall s :: s in DropStep(q, gone) <==> s in q && s.id != gone
  {
    if |q| > 0 {
      DropStepMembers(q[..|q| - 1], gone);
      assert q == q[..|q| - 1] + [q[|q| - 1]];
    }
  }

  lemma {:induction false} RecordAttemptMembers(q: Queue, counted: StepId)
    ensures forall t :: t in RecordAttempt(q, counted) ==>
      exists s :: s in q && t == if s.id == counted then s.(attempts := s.attempts + 1) else s
  {
    if |q| > 0 {
      RecordAttemptMembers(q[..|q| - 1], counted);
      assert q == q[..|q| - 1] + [q[|q| - 1]];
      assert q[|q| - 1] in q;
    }
  }

  lemma {:induction false} OpsKeepUniqueIds(q: Queue, id: StepId)
    requires UniqueIds(q)
    ensures UniqueIds(DropStep(q, id)) && UniqueIds(RecordAttempt(q, id))
  {
    if |q| > 0 {
      var front, last := q[..|q| - 1], q[|q| - 1];
      OpsKeepUniqueIds(front, id);
      LookAfterDrop(front, id, last.id);
      LookAfterRecord(front, id, last.id);
      var d, r := DropStep(front, id), RecordAttempt(front, id);
      var x := if last.id == id then last.(attempts := last.attempts + 1) else last;
      assert (d + [last])[..|d|] == d && d + [] == d && (r + [x])[..|r|] == r;
    }
  }

  lemma DropKeepsValid(q: Queue, gone: StepId)
    requires ValidQueue(q)
    ensures ValidQueue(DropStep(q, gone))
  {
    OpsKeepUniqueIds(q, gone);
    DropStepMembers(q, gone);
    forall s | s in DropStep(q, gone) ensures Look(DropStep(q, gone), s.id) == Some(s) {
      LookAfterDrop(q, gone, s.id);
    }
  }

  lemma SaveKeepsValid(q: Queue, saved: StepId, events: seq<Event>)
    requires ValidQueue(q) && WellFormedStep(Step(saved, events, 0))
    ensures ValidQueue(SaveStep(q, saved, events))
  {
    var r := SaveStep(q, saved, events);
    assert Look(q, saved).None? ==> r[..|r| - 1] == q;
    forall s | s in r ensures WellFormedStep(s) && Look(r, s.id) == Some(s) {
      LookAfterSave(q, saved, events, s.id);
      if s in q { assert Look(q, s.id) == Some(s); }
    }
  }

  lemma RecordKeepsValid(q: Queue, counted: StepId)
    requires ValidQueue(q)
    ensures ValidQueue(RecordAttempt(q, counted))
  {
    var r := RecordAttempt(q, counted);
    RecordAttemptMembers(q, counted);
    OpsKeepUniqueIds(q, counted);
    forall t | t in r ensures WellFormedStep(t) && Look(r, t.id) == Some(t) {
      var s :| s in q && t == if s.id == counted then s.(attempts := s.attempts + 1) else s;
      RecordedRow(q, counted, s);
    }
  }

  lemma RecordedRow(q: Queue, counted: StepId, s: Step)
    requires Look(q, s.id) == Some(s) && WellFormedStep(s)
    ensures var t := if s.id == counted then s.(attempts := s.attempts + 1) else s;
      WellFormedStep(t) && Look(RecordAttempt(q, counted), t.id) == Some(t)
  {
    LookAfterRecord(q, counted, s.id);
  }

  /** Key k is in the payload of a queued batch. */
  ghost predicate KeyQueued(q: Queue, k: Key)
  {
    exists id :: Look(q, id).Some? && id.SignalsId? && k in id.keys
  }

  /** All queued events satisfy P. */
  ghost predicate AllQueued(q: Queue, P: Event -> bool)
  {
    forall s, e :: s in q && e in s.events ==> P(e)
  }

  // ----- trim after a reorg -----

  function EventsUpTo(events: seq<Event>, ancestor: nat): seq<Event>
  {
    if |events| == 0 then []
    else EventsUpTo(events[..|events| - 1], ancestor) +
         if events[|events| - 1].blockNumber <= ancestor then [events[|events| - 1]] else []
  }

  lemma {:induction false} EventsUpToMembers(events: seq<Event>, ancestor: nat)
    ensures forall e :: e in EventsUpTo(events, ancestor) <==> e in events && e.blockNumber <= ancestor
    ensures |EventsUpTo(events, ancestor)| <= |events|
    ensures |EventsUpTo(events, ancestor)| == |events| <==> forall e :: e in events ==> e.blockNumber <= ancestor
    ensures |EventsUpTo(events, ancestor)| == |events| ==> EventsUpTo(events, ancestor) == events
  {
    if |events| > 0 {
      EventsUpToMembers(events[..|events| - 1], ancestor);
      assert events == events[..|events| - 1] + [events[|events| - 1]];
    }
  }

  /** One step of the trim: a batch that lost events is dropped and, unless emptied, saved anew. */
  function TrimStep(q: Queue, step: Step, ancestor: nat): Queue
  {
    if step.id.AutomationId? || |step.events| == 0 then q
    else
      var surviving := EventsUpTo(step.events, ancestor);
      if |surviving| == |step.events| then q
      else if |surviving| == 0 then DropStep(q, step.id)
      else SaveStep(DropStep(q, step.id), PendingPostCommitStepId(surviving), surviving)
  }

  /** The trim pass over the rows listed when it started. */
  function TrimPass(q: Queue, listed: seq<Step>, ancestor: nat): Queue
  {
    if |listed| == 0 then q
    else TrimStep(TrimPass(q, listed[..|listed| - 1], ancestor), listed[|listed| - 1], ancestor)
  }

  function Trim(q: Queue, ancestor: nat): Queue { TrimPass(q, q, ancestor) }

  // What a trim does to ids alone.

  function KeysUpTo(keys: seq<Key>, ancestor: nat): seq<Key>
  {
    if |keys| == 0 then []
    else KeysUpTo(keys[..|keys| - 1], ancestor) +
         if keys[|keys| - 1].blockNumber <= ancestor then [keys[|keys| - 1]] else []
  }

  predicate Within(id: StepId, ancestor: nat)
  {
    id.SignalsId? ==> KeysUpTo(id.keys, ancestor) == id.keys
  }

  function TrimmedId(id: StepId, ancestor: nat): StepId
  {
    if id.SignalsId? then SignalsId(KeysUpTo(id.keys, ancestor)) else id
  }

  lemma {:induction false} KeysUpToMembers(keys: seq<Key>, ancestor: nat)
    ensures forall k :: k in KeysUpTo(keys, ancestor) <==> k in keys && k.blockNumber <= ancestor
    ensures |KeysUpTo(keys, ancestor)| <= |keys|
    ensures |KeysUpTo(keys, ancestor)| == |keys| ==> KeysUpTo(keys, ancestor) == keys
  {
    if |keys| > 0 {
      KeysUpToMembers(keys[..|keys| - 1], ancestor);
      assert keys == keys[..|keys| - 1] + [keys[|keys| - 1]];
    }
  }

  lemma KeysUpToAppend(keys: seq<Key>, k: Key, ancestor: nat)
    ensures KeysUpTo(keys + [k], ancestor) == KeysUpTo(keys, ancestor) + if k.blockNumber <= ancestor then [k] else []
  {
    assert (keys + [k])[..|keys|] == keys;
  }

  /** Filtering by two bounds, in either order, is filtering by the lower one. */
  lemma {:induction false} KeysUpToTwice(keys: seq<Key>, a: nat, b: nat)
    ensures KeysUpTo(KeysUpTo(keys, a), b) == KeysUpTo(keys, if a <= b then a else b)
  {
    if |keys| > 0 {
      var front, last := keys[..|keys| - 1], keys[|keys| - 1];
      KeysUpToTwice(front, a, b);
      KeysUpToAppend(KeysUpTo(front, a), last, b);
      assert KeysUpTo(front, a) + [] == KeysUpTo(front, a);
      assert forall xs: seq<Key> :: xs + [] == xs;
    }
  }

  lemma {:induction false} KeysOfSurvivors(events: seq<Event>, ancestor: nat)
    ensures KeysOf(EventsUpTo(events, ancestor)) == KeysUpTo(KeysOf(events), ancestor)
  {
    if |events| > 0 {
      var front, last := events[..|events| - 1], events[|events| - 1];
      KeysOfSurvivors(front, ancestor);
      assert KeysOf(events)[..|events| - 1] == KeysOf(front);
      var r := EventsUpTo(front, ancestor);
      assert (r + [last])[..|r|] == r;
      assert r + [] == r;
    }
  }

  /** A signal batch loses an event exactly when its id loses a key. */
  lemma StepWithin(s: Step, ancestor: nat)
    requires WellFormedStep(s)
    ensures Within(s.id, ancestor) <==> |EventsUpTo(s.events, ancestor)| == |s.events|
    ensures s.id.SignalsId? ==>
      TrimmedId(s.id, ancestor) == PendingPostCommitStepId(EventsUpTo(s.events, ancestor))
  {
    if s.id.SignalsId? {
      KeysOfSurvivors(s.events, ancestor);
      KeysUpToMembers(s.id.keys, ancestor);
    }
  }

  /** What the first batch in `listed` that trims down to `id` leaves behind. */
  function FirstReplacement(listed: seq<Step>, ancestor: nat, id: StepId): Option<Step>
  {
    if |listed| == 0 then None
    else
      var earlier := FirstReplacement(listed[..|listed| - 1], ancestor, id);
      var s := listed[|listed| - 1];
      if earlier.Some? then earlier
      else if s.id.SignalsId? && !Within(s.id, ancestor) && TrimmedId(s.id, ancestor) == id && |id.keys| > 0 then
        Some(Step(id, EventsUpTo(s.events, ancestor), 0))
      else None
  }

  /** The row under `id` once the trim has visited the first n rows. */
  function TrimmedRow(q: Queue, n: nat, ancestor: nat, id: StepId): Option<Step>
    requires n <= |q|
  {
    if Look(q, id).Some? then
      (if Within(id, ancestor) || Look(q[..n], id).None? then Look(q, id) else None)
    else FirstReplacement(q[..n], ancestor, id)
  }

  lemma {:induction false} TrimPassRows(q: Queue, n: nat, ancestor: nat, id: StepId)
    requires ValidQueue(q) && n <= |q|
    ensures Look(TrimPass(q, q[..n], ancestor), id) == TrimmedRow(q, n, ancestor, id)
  {
    if n == 0 {
      assert q[..0] == [];
    } else {
      assert q[..n][..n - 1] == q[..n - 1];
      TrimPassRows(q, n - 1, ancestor, id);
      assert q[n - 1] in q;
      TrimStepRow(q, n, TrimPass(q, q[..n - 1], ancestor), ancestor, id);
    }
  }

  lemma TrimStepRow(q: Queue, n: nat, before: Queue, ancestor: nat, id: StepId)
    requires 0 < n <= |q| && WellFormedStep(q[n - 1]) && Look(q, q[n - 1].id) == Some(q[n - 1])
    requires Look(before, id) == TrimmedRow(q, n - 1, ancestor, id)
    ensures Look(TrimStep(before, q[n - 1], ancestor), id) == TrimmedRow(q, n, ancestor, id)
  {
    var step := q[n - 1];
    assert q[..n][..n - 1] == q[..n - 1];
    StepWithin(step, ancestor);
    if Within(step.id, ancestor) {
      assert TrimStep(before, step, ancestor) == before;
    } else {
      var surviving := EventsUpTo(step.events, ancestor);
      var newId := TrimmedId(step.id, ancestor);
      EventsUpToMembers(step.events, ancestor);
      KeysUpToTwice(step.id.keys, ancestor, ancestor);
      LookAfterDrop(before, step.id, id);
      LookAfterSave(DropStep(before, step.id), newId, surviving, id);
      assert Within(newId, ancestor) && |newId.keys| == |surviving|;
    }
  }

  /**
   What a trim leaves, row by row: a batch wholly at or below the ancestor and every
   automation step stays as it is, any other batch is gone, and the surviving part of a
   trimmed batch stands under its own id with no attempts, unless that id was taken.
   */
  lemma TrimLeaves(q: Queue, ancestor: nat, id: StepId)
    requires ValidQueue(q)
    ensures Look(Trim(q, ancestor), id) ==
      if Look(q, id).Some? then (if Within(id, ancestor) then Look(q, id) else None)
      else FirstReplacement(q, ancestor, id)
  {
    assert q[..|q|] == q;
    TrimPassRows(q, |q|, ancestor, id);
  }

  lemma {:induction false} ReplacementSource(listed: seq<Step>, ancestor: nat, id: StepId)
    ensures FirstReplacement(listed, ancestor, id).Some? <==>
      exists s :: s in listed && s.id.SignalsId? && !Within(s.id, ancestor) && TrimmedId(s.id, ancestor) == id && |id.keys| > 0
    ensures FirstReplacement(listed, ancestor, id).Some? ==>
      exists s :: s in listed && FirstReplacement(listed, ancestor, id).value == Step(id, EventsUpTo(s.events, ancestor), 0)
  {
    if |listed| > 0 {
      ReplacementSource(listed[..|listed| - 1], ancestor, id);
      assert listed == listed[..|listed| - 1] + [listed[|listed| - 1]];
      assert listed[|listed| - 1] in listed;
    }
  }

  lemma {:induction false} TrimPassKeepsValid(q: Queue, n: nat, ancestor: nat)
    requires ValidQueue(q) && n <= |q|
    ensures ValidQueue(TrimPass(q, q[..n], ancestor))
  {
    if n == 0 {
      assert q[..0] == [];
    } else {
      var step := q[n - 1];
      assert q[..n][..n - 1] == q[..n - 1];
      TrimPassKeepsValid(q, n - 1, ancestor);
      var before := TrimPass(q, q[..n - 1], ancestor);
      assert step in q;
      StepWithin(step, ancestor);
      if !Within(step.id, ancestor) {
        var surviving := EventsUpTo(step.events, ancestor);
        DropKeepsValid(before, step.id);
        if |surviving| > 0 {
          SaveKeepsValid(DropStep(before, step.id), PendingPostCommitStepId(surviving), surviving);
        }
      }
    }
  }

  /** Half way through a trim or after it, queued events are events that were queued before. */
  lemma {:induction false} TrimPassAddsNoEvent(q: Queue, n: nat, ancestor: nat, P: Event -> bool)
    requires n <= |q| && AllQueued(q, P)
    ensures AllQueued(TrimPass(q, q[..n], ancestor), P)
  {
    if n == 0 {
      assert q[..0] == [];
    } else {
      var step := q[n - 1];
      assert q[..n][..n - 1] == q[..n - 1];
      TrimPassAddsNoEvent(q, n - 1, ancestor, P);
      assert step in q;
      EventsUpToMembers(step.events, ancestor);
      DropStepMembers(TrimPass(q, q[..n - 1], ancestor), step.id);
    }
  }

  /** After a trim no queued event lies above the ancestor. */
  lemma TrimmedEventsAreWithin(q: Queue, ancestor: nat)
    requires ValidQueue(q)
    ensures ValidQueue(Trim(q, ancestor))
    ensures forall s, e :: s in Trim(q, ancestor) && e in s.events ==> e.blockNumber <= ancestor
  {
    assert q[..|q|] == q;
    TrimPassKeepsValid(q, |q|, ancestor);
    forall s, e | s in Trim(q, ancestor) && e in s.events ensures e.blockNumber <= ancestor {
      TrimLeaves(q, ancestor, s.id);
      LookMembers(q, s.id);
      if Look(q, s.id).Some? {
        StepWithin(s, ancestor);
        EventsUpToMembers(s.events, ancestor);
      } else {
        ReplacementSource(q, ancestor, s.id);
        var t :| t in q && s == Step(s.id, EventsUpTo(t.events, ancestor), 0);
        EventsUpToMembers(t.events, ancestor);
      }
    }
  }

  /** A trim drops exactly the keys above the ancestor; half way through it has dropped no other. */
  lemma TrimKeys(q: Queue, n: nat, ancestor: nat, k: Key)
    requires ValidQueue(q) && n <= |q|
    ensures k.blockNumber <= ancestor ==> (KeyQueued(TrimPass(q, q[..n], ancestor), k) <==> KeyQueued(q, k))
    ensures n == |q| && k.blockNumber > ancestor ==> !KeyQueued(TrimPass(q, q[..n], ancestor), k)
  {
    var r := TrimPass(q, q[..n], ancestor);
    if KeyQueued(q, k) && k.blockNumber <= ancestor {
      var id :| Look(q, id).Some? && id.SignalsId? && k in id.keys;
      TrimKeepsKey(q, n, ancestor, id, k);
    }
    if KeyQueued(r, k) {
      var id :| Look(r, id).Some? && id.SignalsId? && k in id.keys;
      TrimAddsNoKey(q, n, ancestor, id, k);
    }
  }

  lemma TrimKeepsKey(q: Queue, n: nat, ancestor: nat, id: StepId, k: Key)
    requires ValidQueue(q) && n <= |q| && k.blockNumber <= ancestor
    requires Look(q, id).Some? && id.SignalsId? && k in id.keys
    ensures KeyQueued(TrimPass(q, q[..n], ancestor), k)
  {
    TrimPassRows(q, n, ancestor, id);
    if !Within(id, ancestor) && Look(q[..n], id).Some? {
      var newId := TrimmedId(id, ancestor);
      KeysUpToMembers(id.keys, ancestor);
      KeysUpToTwice(id.keys, ancestor, ancestor);
      TrimPassRows(q, n, ancestor, newId);
      LookMembers(q[..n], id);
      ReplacementSource(q[..n], ancestor, newId);
      assert |newId.keys| > 0 && Within(newId, ancestor);
    }
  }

  lemma TrimAddsNoKey(q: Queue, n: nat, ancestor: nat, id: StepId, k: Key)
    requires ValidQueue(q) && n <= |q|
    requires Look(TrimPass(q, q[..n], ancestor), id).Some? && id.SignalsId? && k in id.keys
    ensures KeyQueued(q, k)
    ensures n == |q| ==> k.blockNumber <= ancestor
  {
    TrimPassRows(q, n, ancestor, id);
    KeysUpToMembers(id.keys, ancestor);
    if Look(q, id).Some? {
      if n == |q| { assert q[..n] == q; }
    } else {
      ReplacementSource(q[..n], ancestor, id);
      var s :| s in q[..n] && s.id.SignalsId? && !Within(s.id, ancestor) && TrimmedId(s.id, ancestor) == id && |id.keys| > 0;
      KeysUpToMembers(s.id.keys, ancestor);
      assert s in q && Look(q, s.id).Some?;
    }
  }

  /** Trimming twice to one block is trimming once. */
  lemma TrimIsIdempotent(q: Queue, ancestor: nat)
    requires ValidQueue(q)
    ensures Trim(Trim(q, ancestor), ancestor) == Trim(q, ancestor)
  {
    TrimmedEventsAreWithin(q, ancestor);
    NothingToTrim(Trim(q, ancestor), Trim(q, ancestor), ancestor);
  }

  lemma {:induction false} NothingToTrim(q: Queue, listed: seq<Step>, ancestor: nat)
    requires forall s, e :: s in listed && e in s.events ==> e.blockNumber <= ancestor
    ensures TrimPass(q, listed, ancestor) == q
  {
    if |listed| > 0 {
      var step := listed[|listed| - 1];
      assert step in listed;
      EventsUpToMembers(step.events, ancestor);
      NothingToTrim(q, listed[..|listed| - 1], ancestor);
    }
  }

  function AttemptsOf(q: Queue, id: StepId): Option<nat>
  {
    match Look(q, id) case None => None case Some(s) => Some(s.attempts)
  }

  /** Trimming to a and then to b leaves the ids and attempts that trimming to the lower of the two leaves. */
  lemma TrimsCompose(q: Queue, a: nat, b: nat, id: StepId)
    requires ValidQueue(q)
    ensures AttemptsOf(Trim(Trim(q, a), b), id) == AttemptsOf(Trim(q, if a <= b then a else b), id)
  {
    TrimmedEventsAreWithin(q, a);
    if a <= b {
      NothingToTrim(Trim(q, a), Trim(q, a), b);
    } else {
      var t := Trim(q, a);
      TrimLeaves(q, a, id);
      TrimLeaves(q, b, id);
      TrimLeaves(t, b, id);
      if id.SignalsId? { KeysUpToTwice(id.keys, b, a); }
      ReplacementSource(q, b, id);
      ReplacementSource(t, b, id);
      ReplacementSource(q, a, id);
      if Within(id, b) {
        assert Within(id, a);
        TrimmedBelow(q, a, b, id);
      } else {
        OnlyWithin(q, b, id);
        OnlyWithin(t, b, id);
      }
    }
  }

  /** Replacements lie at or below the ancestor. */
  lemma OnlyWithin(listed: seq<Step>, ancestor: nat, id: StepId)
    requires !Within(id, ancestor)
    ensures FirstReplacement(listed, ancestor, id).None?
  {
    ReplacementSource(listed, ancestor, id);
    if s :| s in listed && s.id.SignalsId? && !Within(s.id, ancestor) && TrimmedId(s.id, ancestor) == id && |id.keys| > 0 {
      KeysUpToTwice(s.id.keys, ancestor, ancestor);
    }
  }

  lemma TrimmedBelow(q: Queue, a: nat, b: nat, id: StepId)
    requires ValidQueue(q) && b < a && Within(id, b) && Within(id, a)
    ensures Look(q, id).None? && Look(Trim(q, a), id).None? ==>
      (FirstReplacement(Trim(q, a), b, id).Some? <==> FirstReplacement(q, b, id).Some?)
    ensures Look(q, id).None? && Look(Trim(q, a), id).Some? ==> FirstReplacement(q, b, id).Some?
  {
    var t := Trim(q, a);
    ReplacementSource(q, b, id);
    ReplacementSource(t, b, id);
    TrimLeaves(q, a, id);
    ReplacementSource(q, a, id);
    if Look(q, id).None? && Look(t, id).Some? {
      var s :| s in q && s.id.SignalsId? && !Within(s.id, a) && TrimmedId(s.id, a) == id && |id.keys| > 0;
      LowerReplacement(s.id, a, b, id);
    }
    if Look(q, id).None? && Look(t, id).None? {
      if s :| s in q && s.id.SignalsId? && !Within(s.id, b) && TrimmedId(s.id, b) == id && |id.keys| > 0 {
        ReplacementSurvives(q, a, b, s, id);
      }
      if s :| s in t && s.id.SignalsId? && !Within(s.id, b) && TrimmedId(s.id, b) == id && |id.keys| > 0 {
        ReplacementHasOrigin(q, a, b, s, id);
      }
    }
  }

  /** A batch trimmed to `id` at a, where `id` lies within b < a, is trimmed to `id` at b too. */
  lemma LowerReplacement(from: StepId, a: nat, b: nat, id: StepId)
    requires b < a && Within(id, b) && from.SignalsId? && !Within(from, a) && TrimmedId(from, a) == id
    ensures !Within(from, b) && TrimmedId(from, b) == id
  {
    KeysUpToTwice(from.keys, a, b);
    KeysUpToTwice(from.keys, b, a);
  }

  lemma ReplacementSurvives(q: Queue, a: nat, b: nat, s: Step, id: StepId)
    requires ValidQueue(q) && b < a && s in q && s.id.SignalsId? && !Within(s.id, b) && TrimmedId(s.id, b) == id && |id.keys| > 0
    requires Look(Trim(q, a), id).None?
    ensures FirstReplacement(Trim(q, a), b, id).Some?
  {
    var t := Trim(q, a);
    var mid := TrimmedId(s.id, a);
    KeysUpToTwice(s.id.keys, a, b);
    KeysUpToTwice(s.id.keys, a, a);
    KeysUpToMembers(s.id.keys, a);
    KeysUpToMembers(s.id.keys, b);
    assert id.keys[0] in KeysUpTo(s.id.keys, b);
    assert |mid.keys| > 0;
    TrimLeaves(q, a, mid);
    ReplacementSource(q, a, mid);
    assert Look(t, mid).Some?;
    LookMembers(t, mid);
    ReplacementSource(t, b, id);
    assert Look(t, mid).value in t && TrimmedId(mid, b) == id;
  }

  lemma ReplacementHasOrigin(q: Queue, a: nat, b: nat, s: Step, id: StepId)
    requires ValidQueue(q) && b < a && s in Trim(q, a)
    requires s.id.SignalsId? && !Within(s.id, b) && TrimmedId(s.id, b) == id && |id.keys| > 0
    ensures FirstReplacement(q, b, id).Some?
  {
    TrimLeaves(q, a, s.id);
    LookMembers(q, s.id);
    ReplacementSource(q, b, id);
    LookMembers(Trim(q, a), s.id);
    if Look(q, s.id).None? {
      ReplacementSource(q, a, s.id);
      var o :| o in q && o.id.SignalsId? && !Within(o.id, a) && TrimmedId(o.id, a) == s.id && |s.id.keys| > 0;
      KeysUpToTwice(o.id.keys, a, b);
      KeysUpToTwice(o.id.keys, b, a);
      assert !Within(o.id, b) && TrimmedId(o.id, b) == id;
    } else {
      assert Look(q, s.id).value in q;
    }
  }
}
