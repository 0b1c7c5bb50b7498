/** The identity binding projection (service/src/indexer/identity-projections.ts). */
module IdentityProjections {
  import opened Prelude
  import opened ChainEvents

  datatype Provenance = Provenance(
    chainId: nat, contract: Hex, blockNumber: nat, txIndex: Option<nat>, txHash: Hex, logIndex: nat)

  datatype BindingStatus = BindingActive | BindingRevoked

  datatype Binding = Binding(
    registryAddress: nat, bindingId: nat, subjectId: nat, account: nat, descriptorHash: nat, descriptorURI: string,
    registrar: nat, status: BindingStatus, registeredAt: Provenance, updatedAt: Provenance,
    revokeReasonHash: Option<nat>, revokeReasonURI: Option<string>, revokedAt: Option<Provenance>)

  datatype IdentityKey = IdentityKey(chainId: nat, registry: nat, bindingId: nat)

  datatype IdentitySnapshot = IdentitySnapshot(
    eventCount: nat, bindings: map<IdentityKey, Binding>, lastEvent: Option<Provenance>)

  /** A required event argument is missing or malformed. */
  datatype ProjectionError = MalformedArgument

  type IdentityResult = Result<IdentitySnapshot, ProjectionError>

  function ProvenanceOf(e: Event): Provenance
  {
    Provenance(e.chainId, e.log.contract, e.blockNumber, e.log.txIndex, e.log.txHash, e.log.logIndex)
  }

  function KeyOf(e: Event, bindingId: nat): IdentityKey
  {
    IdentityKey(e.chainId, e.log.contract.value, bindingId)
  }

  predicate IsIdentityEvent(e: Event)
  {
    e.log.payload.IdentityRegistered? || e.log.payload.IdentityRevoked?
  }

  function RegisteredBinding(e: Event): Result<Binding, ProjectionError>
    requires e.log.payload.IdentityRegistered?
  {
    var p := e.log.payload;
    if p.bindingId.None? || p.subjectId.None? || p.account.None? || p.descriptorHash.None? || p.registrar.None? then
      Err(MalformedArgument)
    else
      Ok(Binding(e.log.contract.value, p.bindingId.value, p.subjectId.value, p.account.value, p.descriptorHash.value,
                 p.descriptorURI, p.registrar.value, BindingActive, ProvenanceOf(e), ProvenanceOf(e), None, None, None))
  }

  /** One step of the replay; a revocation of an unknown binding is counted but changes no binding. */
  function Apply(s: IdentitySnapshot, e: Event): IdentityResult
  {
    match e.log.payload
    case IdentityRegistered(_, _, _, _, _, _) =>
      (match RegisteredBinding(e)
       case Err(error) => Err(error)
       case Ok(binding) =>
         Ok(IdentitySnapshot(s.eventCount + 1, s.bindings[KeyOf(e, binding.bindingId) := binding], Some(ProvenanceOf(e)))))
    case IdentityRevoked(bindingId, reasonHash, reasonURI) =>
      if bindingId.None? then Err(MalformedArgument)
      else
        var k := KeyOf(e, bindingId.value);
        if k !in s.bindings then Ok(s.(eventCount := s.eventCount + 1, lastEvent := Some(ProvenanceOf(e))))
        else if reasonHash.None? then Err(MalformedArgument)
        else
          var revoked := s.bindings[k].(status := BindingRevoked, revokeReasonHash := reasonHash,
            revokeReasonURI := Some(reasonURI), revokedAt := Some(ProvenanceOf(e)), updatedAt := ProvenanceOf(e));
          Ok(IdentitySnapshot(s.eventCount + 1, s.bindings[k := revoked], Some(ProvenanceOf(e))))
    case _ => Ok(s)
  }

  const EMPTY_IDENTITY := IdentitySnapshot(0, map[], None)

  function Fold(xs: seq<Event>): IdentityResult
  {
    if |xs| == 0 then Ok(EMPTY_IDENTITY)
    else
      match Fold(xs[..|xs| - 1])
      case Err(error) => Err(error)
      case Ok(s) => Apply(s, xs[|xs| - 1])
  }

  function RebuildIdentity(events: seq<Event>): IdentityResult { Fold(Active(events)) }

  lemma {:induction false} FoldFailsForGood(xs: seq<Event>, n: nat)
    requires n <= |xs| && Fold(xs[..n]).Err?
    ensures Fold(xs).Err?
    decreases |xs|
  {
    if n < |xs| {
      assert xs[..|xs| - 1][..n] == xs[..n];
      FoldFailsForGood(xs[..|xs| - 1], n);
    } else {
      assert xs[..n] == xs;
    }
  }

  /** One identity event applied to the bindings. */
  method ApplyBinding(bindings: map<IdentityKey, Binding>, event: Event)
    returns (r: Result<map<IdentityKey, Binding>, ProjectionError>)
    requires IsIdentityEvent(event)
    ensures Apply(IdentitySnapshot(0, bindings, None), event) ==
      if r.Err? then Err(r.error) else Ok(IdentitySnapshot(1, r.value, Some(ProvenanceOf(event))))
  {
    if event.log.payload.IdentityRegistered? {
      var binding := RegisteredBinding(event);
      if binding.Err? {
        return Err(binding.error);
      }
      return Ok(bindings[KeyOf(event, binding.value.bindingId) := binding.value]);
    }
    var p := event.log.payload;
    if p.bindingId.None? {
      return Err(MalformedArgument);
    }
    var k := KeyOf(event, p.bindingId.value);
    if k !in bindings {
      return Ok(bindings);
    }
    if p.reasonHash.None? {
      return Err(MalformedArgument);
    }
    r := Ok(bindings[k := bindings[k].(status := BindingRevoked, revokeReasonHash := p.reasonHash,
      revokeReasonURI := Some(p.reasonURI), revokedAt := Some(ProvenanceOf(event)), updatedAt := ProvenanceOf(event))]);
  }

  /** What an identity event does to the bindings does not depend on the count and the last event. */
  lemma ApplyIgnoresCount(s: IdentitySnapshot, e: Event)
    requires IsIdentityEvent(e)
    ensures Apply(s, e) ==
      match Apply(IdentitySnapshot(0, s.bindings, None), e)
      case Err(error) => Err(error)
      case Ok(t) => Ok(IdentitySnapshot(s.eventCount + 1, t.bindings, Some(ProvenanceOf(e))))
  {
  }

  lemma FoldOneMore(xs: seq<Event>, i: nat, s: IdentitySnapshot)
    requires i < |xs| && Fold(xs[..i]) == Ok(s)
    ensures Fold(xs[..i + 1]) ==
      if !IsIdentityEvent(xs[i]) then Ok(s)
      else
        match Apply(IdentitySnapshot(0, s.bindings, None), xs[i])
        case Err(error) => Err(error)
        case Ok(t) => Ok(IdentitySnapshot(s.eventCount + 1, t.bindings, Some(ProvenanceOf(xs[i]))))
  {
    assert xs[..i + 1][..i] == xs[..i];
    if IsIdentityEvent(xs[i]) { ApplyIgnoresCount(s, xs[i]); }
  }

  /** The replay loop over a mutable map of bindings; Err stands for the exception it throws. */
  method RebuildIdentityProjections(events: seq<Event>) returns (r: IdentityResult)
    ensures r.Ok? <==> RebuildIdentity(events).Ok?
    ensures r.Ok? ==> r == RebuildIdentity(events)
  {
    var summary := BuildActiveChainEventReplaySummary(events);
    var active := summary.activeEvents;
    var bindings: map<IdentityKey, Binding> := map[];
    var eventCount := 0;
    var lastEvent: Option<Provenance> := None;
    var i := 0;
    while i < |active|
      invariant 0 <= i <= |active|
      invariant Fold(active[..i]) == Ok(IdentitySnapshot(eventCount, bindings, lastEvent))
    {
      FoldOneMore(active, i, IdentitySnapshot(eventCount, bindings, lastEvent));
      var event := active[i];
      i := i + 1;
      if !IsIdentityEvent(event) {
        continue;
      }
      var applied := ApplyBinding(bindings, event);
      if applied.Err? {
        FoldFailsForGood(active, i);
        return Err(applied.error);
      }
      bindings := applied.value;
      eventCount := eventCount + 1;
      lastEvent := Some(ProvenanceOf(event));
    }
    assert active[..i] == active;
    r := Ok(IdentitySnapshot(eventCount, bindings, lastEvent));
  }

  // ----- what the snapshot means -----

  ghost predicate Registers(e: Event, k: IdentityKey)
  {
    e.log.payload.IdentityRegistered? && e.log.payload.bindingId.Some? && KeyOf(e, e.log.payload.bindingId.value) == k
  }

  ghost predicate Revokes(e: Event, k: IdentityKey)
  {
    e.log.payload.IdentityRevoked? && e.log.payload.bindingId.Some? && KeyOf(e, e.log.payload.bindingId.value) == k
  }

  /** The position of the last registration of k, or -1. */
  ghost function LastRegistered(xs: seq<Event>, k: IdentityKey): (i: int)
    ensures -1 <= i < |xs|
    ensures i >= 0 ==> Registers(xs[i], k)
    ensures forall j :: i < j < |xs| ==> !Registers(xs[j], k)
  {
    if |xs| == 0 then -1
    else if Registers(xs[|xs| - 1], k) then |xs| - 1
    else LastRegistered(xs[..|xs| - 1], k)
  }

  /** The position of the last revocation of k, or -1. */
  ghost function LastRevoked(xs: seq<Event>, k: IdentityKey): (i: int)
    ensures -1 <= i < |xs|
    ensures i >= 0 ==> Revokes(xs[i], k)
    ensures forall j :: i < j < |xs| ==> !Revokes(xs[j], k)
  {
    if |xs| == 0 then -1
    else if Revokes(xs[|xs| - 1], k) then |xs| - 1
    else LastRevoked(xs[..|xs| - 1], k)
  }

  /** Everything a binding records about the registration at xs[i]. */
  ghost predicate RecordsRegistration(b: Binding, e: Event)
    requires e.log.payload.IdentityRegistered?
  {
    && b.registryAddress == e.log.contract.value
    && e.log.payload.bindingId == Some(b.bindingId)
    && e.log.payload.subjectId == Some(b.subjectId)
    && e.log.payload.account == Some(b.account)
    && e.log.payload.descriptorHash == Some(b.descriptorHash)
    && e.log.payload.descriptorURI == b.descriptorURI
    && e.log.payload.registrar == Some(b.registrar)
    && b.registeredAt == ProvenanceOf(e)
  }

  lemma {:induction false} BindingExists(xs: seq<Event>, k: IdentityKey)
    requires Fold(xs).Ok?
    ensures k in Fold(xs).value.bindings <==> LastRegistered(xs, k) >= 0
  {
    if |xs| > 0 { BindingExists(xs[..|xs| - 1], k); }
  }

  /**
   A binding exists exactly for the keys that were ever registered. It describes the last
   registration, and it is revoked, by the last revocation, exactly when one follows.
   */
  lemma {:induction false} BindingMeaning(xs: seq<Event>, k: IdentityKey)
    requires Fold(xs).Ok?
    ensures k in Fold(xs).value.bindings <==> LastRegistered(xs, k) >= 0
    ensures k in Fold(xs).value.bindings ==>
      var b, reg, rev := Fold(xs).value.bindings[k], LastRegistered(xs, k), LastRevoked(xs, k);
      && RecordsRegistration(b, xs[reg])
      && (b.status == BindingRevoked <==> rev > reg)
      && b.revokedAt == (if rev > reg then Some(ProvenanceOf(xs[rev])) else None)
      && b.revokeReasonHash == (if rev > reg then xs[rev].log.payload.reasonHash else None)
      && b.updatedAt == ProvenanceOf(xs[if rev > reg then rev else reg])
  {
    BindingExists(xs, k);
    if |xs| > 0 {
      BindingMeaning(xs[..|xs| - 1], k);
    }
  }

  /** The i-th event does not stop the replay. */
  ghost predicate Acceptable(xs: seq<Event>, i: int)
    requires 0 <= i < |xs|
  {
    match xs[i].log.payload
    case IdentityRegistered(_, _, _, _, _, _) => RegisteredBinding(xs[i]).Ok?
    case IdentityRevoked(bindingId, reasonHash, _) =>
      bindingId.Some? &&
      (reasonHash.Some? || LastRegistered(xs[..i], KeyOf(xs[i], bindingId.value)) < 0)
    case _ => true
  }

  /** The rebuild succeeds exactly when every event is complete, or revokes a binding never registered before it. */
  lemma {:induction false} RebuildSucceedsExactly(xs: seq<Event>)
    ensures Fold(xs).Ok? <==> forall i :: 0 <= i < |xs| ==> Acceptable(xs, i)
  {
    if |xs| > 0 {
      var n := |xs| - 1;
      var front := xs[..n];
      RebuildSucceedsExactly(front);
      forall i | 0 <= i < n ensures Acceptable(front, i) <==> Acceptable(xs, i) {
        assert front[i] == xs[i] && front[..i] == xs[..i];
      }
      if Fold(front).Ok? {
        var p := xs[n].log.payload;
        if p.IdentityRevoked? && p.bindingId.Some? {
          BindingMeaning(front, KeyOf(xs[n], p.bindingId.value));
        }
        assert Fold(xs).Ok? <==> Acceptable(xs, n);
      } else {
        var i :| 0 <= i < n && !Acceptable(front, i);
        assert !Acceptable(xs, i);
      }
    }
  }
}
