/**
 When the state alone rules out a ghost delivery: whatever chain the next round meets, its
 sweep hands over nothing that is not on it.
 */
module IndexerGhostFree {
  import opened Prelude
  import opened Sorting
  import opened ChainEvents
  import opened EventSource
  import opened IdentityProjections
  import opened PendingSteps
  import opened PendingSweep
  import opened ProjectionStore
  import opened IndexerModel
  import opened IndexerAncestor
  import opened IndexerInvariant
  import opened IndexerDelivery
  import opened IndexerGhosts

  /** The next round's check fails, or its sweep hands over events of that round's chain only. */
  ghost predicate SweepIsCanonical(cfg: Config, w: World, env: Env)
    requires w.store.cursor.Some?
  {
    var f := RollbackOnReorg(cfg, w, env, w.store.cursor.value.next);
    f.Go? ==> forall e :: HandedOver(cfg, f.world, env, e) ==> OnChain(cfg, env.chain, e)
  }

  /** A batch that a sweep from this state hands over. */
  predicate WithinBound(cfg: Config, w: World, s: PendingSteps.Step)
  {
    && s.id.SignalsId? && cfg.hasProcessor && |s.events| > 0
    && (w.store.finalized.Some? ==> MaxBlock(s.events) <= w.store.finalized.value)
  }

  ghost function OnCursor(cfg: Config, w: World): Event -> bool
    requires w.store.cursor.Some?
  {
    var c := w.store.cursor.value;
    (e: Event) => OnChain(cfg, CursorChain(c), e)
  }

  /** A stored event below the cursor's block that a rollback can return to. */
  ghost predicate MayReturnTo(cfg: Config, w: World, r: Event)
    requires w.store.cursor.Some?
  {
    && r in w.store.rows && IsAnchor(r, cfg.deploymentBlock, w.store.cursor.value.next)
    && r.blockNumber + 1 < w.store.cursor.value.next
    && RebuildIdentity(Listed(RowsUpTo(w.store.rows, r.blockNumber))).Ok?
  }

  /** No check stands between this state and a sweep: nothing can be compared with the chain, or nothing can be rolled back. */
  predicate Unguarded(cfg: Config, w: World)
    requires w.store.cursor.Some?
  {
    Unchecked(cfg, w, w.store.cursor.value.next) || w.store.rows == []
  }

  /**
   The condition on the state alone. Batches within the bound hold events of the chain that the
   cursor's hash commits to, so that they lie below the cursor, and so do the batches that a trim
   back to a stored event leaves; without a check in between there is no batch within the bound.
   */
  ghost predicate Trustworthy(cfg: Config, w: World)
    requires w.store.cursor.Some?
  {
    if Unguarded(cfg, w) then forall s :: s in w.store.queue ==> !WithinBound(cfg, w, s)
    else
      && (forall s, e | s in w.store.queue && WithinBound(cfg, w, s) && e in s.events :: OnCursor(cfg, w)(e))
      && (cfg.hasProcessor ==>
            forall r | MayReturnTo(cfg, w, r) :: AllQueued(Trim(w.store.queue, r.blockNumber), OnCursor(cfg, w)))
  }

  lemma HandsOverExactly(cfg: Config, w: World, env: Env, s: PendingSteps.Step)
    ensures HandsOver(s, SweepEnvOf(cfg, w, env)) <==> WithinBound(cfg, w, s)
  {
  }

  lemma {:induction false} HashOfChainOf(h: Hash)
    requires h.Link?
    ensures |ChainOf(h)| > 0 && HashAt(ChainOf(h), |ChainOf(h)| - 1) == h
  {
    var n := |ChainOf(h.parent)|;
    assert ChainOf(h)[n] == h.block;
    if h.parent.Link? {
      HashOfChainOf(h.parent);
      assert ChainOf(h)[..n] == ChainOf(h.parent)[..n];
      HashOfPrefix(ChainOf(h), ChainOf(h.parent), n - 1);
    }
  }

  /** The hash the cursor carries is that of the last block of its chain. */
  lemma CursorHash(cfg: Config, w: World)
    requires Inv(cfg, w) && w.store.cursor.Some?
    ensures var c := w.store.cursor.value;
      1 <= c.next == |CursorChain(c)| && c.hash == Some(HashAt(CursorChain(c), c.next - 1)) && WellFormedChain(CursorChain(c))
  {
    var c := w.store.cursor.value;
    assert ChainOf(Root) == [] && c.hash.value.Link?;
    HashOfChainOf(c.hash.value);
  }

  // ----- the condition is enough -----

  lemma MatchedIsCanonical(cfg: Config, w: World, env: Env, e: Event)
    requires Inv(cfg, w) && w.store.cursor.Some? && WellFormedChain(env.chain)
    requires w.store.cursor.value.next <= |env.chain| && HashMatches(w, env, w.store.cursor.value.next)
    requires OnCursor(cfg, w)(e)
    ensures OnChain(cfg, env.chain, e)
  {
    var c := w.store.cursor.value;
    HashedCursor(cfg, w.store.rows, env.chain, c);
    PrefixEvents(cfg, env.chain, c.next, e);
  }

  /** The ancestor of a failed comparison lies below the cursor's own block. */
  lemma AncestorIsBelow(cfg: Config, w: World, env: Env, anchor: Event)
    requires Inv(cfg, w) && w.store.cursor.Some? && WellFormedChain(env.chain)
    requires var n := w.store.cursor.value.next;
      n <= |env.chain| && !HashMatches(w, env, n) && CanonicalAnchor(cfg, w.store.rows, env.chain, n, anchor)
    ensures anchor.blockNumber + 1 < w.store.cursor.value.next && OnCursor(cfg, w)(anchor)
  {
    CursorHash(cfg, w);
  }

  lemma TrustworthyIsEnough(cfg: Config, w: World, env: Env)
    requires Inv(cfg, w) && w.store.cursor.Some? && WellFormedChain(env.chain) && Trustworthy(cfg, w)
    ensures SweepIsCanonical(cfg, w, env)
  {
    var n := w.store.cursor.value.next;
    var f := RollbackOnReorg(cfg, w, env, n);
    if f.Go? {
      forall e | HandedOver(cfg, f.world, env, e) ensures OnChain(cfg, env.chain, e) {
        var s :| s in f.world.store.queue && HandsOver(s, SweepEnvOf(cfg, f.world, env)) && e in s.events;
        HandsOverExactly(cfg, f.world, env, s);
        if Unchecked(cfg, w, n) {
        } else if HashMatches(w, env, n) {
          assert w.store.rows != [];
          MatchedIsCanonical(cfg, w, env, e);
        } else {
          RolledBackIsCanonical(cfg, w, env, s, e);
        }
      }
    }
  }

  /** What the check leaves of queue and bound when it rolls back. */
  lemma RolledBackWorld(cfg: Config, w: World, env: Env, anchor: Event)
    requires w.store.cursor.Some?
    requires var n := w.store.cursor.value.next;
      && !Unchecked(cfg, w, n) && n <= |env.chain| && !HashMatches(w, env, n)
      && FindAncestor(cfg, w.store.rows, env.chain, n) == Found(anchor)
    ensures var f := RollbackOnReorg(cfg, w, env, w.store.cursor.value.next);
      && (f.Go? <==> ReplayOutcome(env, RowsUpTo(w.store.rows, anchor.blockNumber)).None?)
      && (f.Go? ==> f.world.store.queue == Trim(w.store.queue, anchor.blockNumber) && f.world.store.finalized == Some(anchor.blockNumber))
  {
  }

  lemma RolledBackIsCanonical(cfg: Config, w: World, env: Env, s: PendingSteps.Step, e: Event)
    requires Inv(cfg, w) && w.store.cursor.Some? && WellFormedChain(env.chain) && Trustworthy(cfg, w)
    requires var n := w.store.cursor.value.next;
      && !Unchecked(cfg, w, n) && n <= |env.chain| && !HashMatches(w, env, n)
      && RollbackOnReorg(cfg, w, env, n).Go?
      && s in RollbackOnReorg(cfg, w, env, n).world.store.queue && WithinBound(cfg, RollbackOnReorg(cfg, w, env, n).world, s)
    requires e in s.events
    ensures OnChain(cfg, env.chain, e)
  {
    var n := w.store.cursor.value.next;
    AncestorFoundExactly(cfg, w.store.rows, env.chain, n);
    var r := FindAncestor(cfg, w.store.rows, env.chain, n);
    if r.Found? {
      RolledBackWorld(cfg, w, env, r.anchor);
      AncestorIsBelow(cfg, w, env, r.anchor);
      TrimmedIsCanonical(cfg, w, env, r.anchor, s, e);
    } else {
      EmptyIfNone(cfg, w);
    }
  }

  lemma EmptyIfNone(cfg: Config, w: World)
    requires Inv(cfg, w)
    ensures (forall e :: e in w.store.rows ==> e.removed) <==> w.store.rows == []
  {
    if w.store.rows != [] { assert w.store.rows[0] in w.store.rows; }
  }

  lemma TrimmedIsCanonical(cfg: Config, w: World, env: Env, anchor: Event, s: PendingSteps.Step, e: Event)
    requires Inv(cfg, w) && w.store.cursor.Some? && Trustworthy(cfg, w) && cfg.hasProcessor
    requires !Unchecked(cfg, w, w.store.cursor.value.next) && CanonicalAnchor(cfg, w.store.rows, env.chain, w.store.cursor.value.next, anchor)
    requires anchor.blockNumber + 1 < w.store.cursor.value.next && OnCursor(cfg, w)(anchor)
    requires RebuildIdentity(Listed(RowsUpTo(w.store.rows, anchor.blockNumber))).Ok?
    requires s in Trim(w.store.queue, anchor.blockNumber) && e in s.events
    ensures OnChain(cfg, env.chain, e)
  {
    assert w.store.rows != [];
    assert MayReturnTo(cfg, w, anchor);
    TrimmedEventsAreWithin(w.store.queue, anchor.blockNumber);
    assert OnCursor(cfg, w)(e);
    AnchorJoins(cfg, w.store.rows, CursorChain(w.store.cursor.value), env.chain, anchor, e);
  }

  // ----- and needed -----

  /** The chain with all blocks from `keep` on replaced by empty ones. */
  function Fork(c: Chain, keep: nat): Chain
    requires keep < |c|
  {
    c[..keep] + seq(|c| - keep, i => Block(c[keep].salt + 1, []))
  }

  lemma ForkDiffers(cfg: Config, c: Chain, keep: nat, height: nat)
    requires keep < |c| && height < |c|
    ensures HashAt(Fork(c, keep), height) == HashAt(c, height) <==> height < keep
  {
    var d := Fork(c, keep);
    assert d[keep].salt == c[keep].salt + 1;
    if height < keep {
      assert d[..height + 1] == c[..height + 1];
      HashOfPrefix(d, c, height);
    } else if HashAt(d, height) == HashAt(c, height) {
      SameHashSamePrefix(d, c, height);
    }
  }

  lemma ForkIsWellFormed(c: Chain, keep: nat)
    requires keep < |c| && WellFormedChain(c)
    ensures WellFormedChain(Fork(c, keep))
  {
  }

  lemma ForkEvents(cfg: Config, c: Chain, keep: nat, e: Event)
    requires keep < |c| && OnChain(cfg, Fork(c, keep), e)
    ensures e.blockNumber < keep && OnChain(cfg, c, e)
  {
    var d := Fork(c, keep);
    assert forall b :: keep <= b < |c| ==> d[b].logs == [];
    ForkDiffers(cfg, c, keep, e.blockNumber);
    assert d[e.blockNumber] == c[e.blockNumber];
  }

  /** Everything goes well on this chain. */
  function Smooth(chain: Chain): Env
  {
    Env(chain, None, (xs: seq<Event>) => true, (id: StepId) => true, (n: nat) => true, (n: nat) => true)
  }

  lemma UncheckedGhost(cfg: Config, w: World, s: PendingSteps.Step)
    requires w.store.cursor.Some? && Unchecked(cfg, w, w.store.cursor.value.next)
    requires s in w.store.queue && WithinBound(cfg, w, s)
    ensures !SweepIsCanonical(cfg, w, Smooth([]))
  {
    IsAGhost(cfg, w, Smooth([]), w, w.store.cursor.value.next, s, s.events[0]);
  }

  lemma EmptyTableGhost(cfg: Config, w: World, s: PendingSteps.Step) returns (env: Env)
    requires Inv(cfg, w) && w.store.cursor.Some? && !Unchecked(cfg, w, w.store.cursor.value.next) && w.store.rows == []
    requires s in w.store.queue && WithinBound(cfg, w, s)
    ensures WellFormedChain(env.chain) && !SweepIsCanonical(cfg, w, env)
  {
    CursorHash(cfg, w);
    var c, n := CursorChain(w.store.cursor.value), w.store.cursor.value.next;
    env := Smooth(Fork(c, 0));
    ForkIsWellFormed(c, 0);
    ForkDiffers(cfg, c, 0, n - 1);
    AncestorFoundExactly(cfg, w.store.rows, env.chain, n);
    assert RollbackOnReorg(cfg, w, env, n) == Go(w, n);
    if OnChain(cfg, env.chain, s.events[0]) { ForkEvents(cfg, c, 0, s.events[0]); }
    IsAGhost(cfg, w, env, w, n, s, s.events[0]);
  }

  lemma IsAGhost(cfg: Config, w: World, env: Env, v: World, from: nat, s: PendingSteps.Step, e: Event)
    requires w.store.cursor.Some? && RollbackOnReorg(cfg, w, env, w.store.cursor.value.next) == Go(v, from)
    requires s in v.store.queue && WithinBound(cfg, v, s) && e in s.events && !OnChain(cfg, env.chain, e)
    ensures !SweepIsCanonical(cfg, w, env)
  {
    HandsOverExactly(cfg, v, env, s);
    assert HandedOver(cfg, v, env, e);
  }

  /** The check passes on the cursor's own chain. */
  lemma OwnChainMatches(cfg: Config, w: World)
    requires Inv(cfg, w) && w.store.cursor.Some?
    ensures var env, n := Smooth(CursorChain(w.store.cursor.value)), w.store.cursor.value.next;
      WellFormedChain(env.chain) && RollbackOnReorg(cfg, w, env, n) == Go(w, n)
  {
    CursorHash(cfg, w);
    MatchesGo(cfg, w, Smooth(CursorChain(w.store.cursor.value)), w.store.cursor.value.next);
  }

  lemma MatchesGo(cfg: Config, w: World, env: Env, from: nat)
    requires 1 <= from <= |env.chain| && HashMatches(w, env, from)
    ensures RollbackOnReorg(cfg, w, env, from) == Go(w, from)
  {
  }

  lemma MatchedGhost(cfg: Config, w: World, s: PendingSteps.Step, e: Event)
    requires Inv(cfg, w) && w.store.cursor.Some?
    requires s in w.store.queue && WithinBound(cfg, w, s) && e in s.events && !OnCursor(cfg, w)(e)
    ensures var env := Smooth(CursorChain(w.store.cursor.value));
      WellFormedChain(env.chain) && !SweepIsCanonical(cfg, w, env)
  {
    OwnChainMatches(cfg, w);
    IsAGhost(cfg, w, Smooth(CursorChain(w.store.cursor.value)), w, w.store.cursor.value.next, s, e);
  }

  /** On the chain that forks behind r the ancestor is r's block. */
  lemma ForkReturnsTo(cfg: Config, w: World, r: Event)
    requires Inv(cfg, w) && w.store.cursor.Some? && MayReturnTo(cfg, w, r)
    ensures var c, n := CursorChain(w.store.cursor.value), w.store.cursor.value.next;
      && n == |c| && r.blockNumber + 1 < n
      && var f := FindAncestor(cfg, w.store.rows, Fork(c, r.blockNumber + 1), n);
         f.Found? && f.anchor.blockNumber == r.blockNumber
  {
    CursorHash(cfg, w);
    var c, n := CursorChain(w.store.cursor.value), w.store.cursor.value.next;
    var d := Fork(c, r.blockNumber + 1);
    ForkDiffers(cfg, c, r.blockNumber + 1, r.blockNumber);
    assert OnChain(cfg, c, r);
    assert CanonicalAnchor(cfg, w.store.rows, d, n, r);
    UniformBelowCursor(cfg, w.store.rows, c, n);
    AncestorSearchIsExact(cfg, w.store.rows, d, n, r);
    var a := FindAncestor(cfg, w.store.rows, d, n).anchor;
    assert OnChain(cfg, c, a);
    ForkDiffers(cfg, c, r.blockNumber + 1, a.blockNumber);
  }

  lemma TrimmedGhost(cfg: Config, w: World, r: Event, s: PendingSteps.Step, e: Event) returns (env: Env)
    requires Inv(cfg, w) && w.store.cursor.Some? && !Unguarded(cfg, w) && cfg.hasProcessor && MayReturnTo(cfg, w, r)
    requires s in Trim(w.store.queue, r.blockNumber) && e in s.events && !OnCursor(cfg, w)(e)
    ensures WellFormedChain(env.chain) && !SweepIsCanonical(cfg, w, env)
  {
    CursorHash(cfg, w);
    var c, a := CursorChain(w.store.cursor.value), r.blockNumber;
    env := Smooth(Fork(c, a + 1));
    ForkIsWellFormed(c, a + 1);
    var f := ForkedCheck(cfg, w, r);
    WithinAfterTrim(cfg, w, f.world, a, s);
    if OnChain(cfg, env.chain, e) { ForkEvents(cfg, c, a + 1, e); }
    IsAGhost(cfg, w, env, f.world, f.value, s, e);
  }

  lemma SmoothReplays(chain: Chain, rows: seq<Event>)
    requires RebuildIdentity(Listed(rows)).Ok?
    ensures ReplayOutcome(Smooth(chain), rows).None?
  {
  }

  /** The check on the chain that forks behind r goes back to r's block. */
  lemma ForkedCheck(cfg: Config, w: World, r: Event) returns (f: Flow<nat>)
    requires Inv(cfg, w) && w.store.cursor.Some? && !Unguarded(cfg, w) && MayReturnTo(cfg, w, r)
    ensures var c := CursorChain(w.store.cursor.value);
      && r.blockNumber + 1 < |c|
      && f == RollbackOnReorg(cfg, w, Smooth(Fork(c, r.blockNumber + 1)), w.store.cursor.value.next)
      && f.Go? && f.world.store.queue == Trim(w.store.queue, r.blockNumber) && f.world.store.finalized == Some(r.blockNumber)
  {
    ForkReturnsTo(cfg, w, r);
    var c, n, a := CursorChain(w.store.cursor.value), w.store.cursor.value.next, r.blockNumber;
    var env := Smooth(Fork(c, a + 1));
    ForkMismatches(cfg, w, a + 1);
    SmoothReplays(env.chain, RowsUpTo(w.store.rows, a));
    f := CheckBackTo(cfg, w, env, a);
  }

  lemma CheckBackTo(cfg: Config, w: World, env: Env, a: nat) returns (f: Flow<nat>)
    requires w.store.cursor.Some?
    requires var n := w.store.cursor.value.next;
      && !Unchecked(cfg, w, n) && n <= |env.chain| && !HashMatches(w, env, n)
      && FindAncestor(cfg, w.store.rows, env.chain, n).Found? && FindAncestor(cfg, w.store.rows, env.chain, n).anchor.blockNumber == a
    requires ReplayOutcome(env, RowsUpTo(w.store.rows, a)).None?
    ensures f == RollbackOnReorg(cfg, w, env, w.store.cursor.value.next)
    ensures f.Go? && f.world.store.queue == Trim(w.store.queue, a) && f.world.store.finalized == Some(a)
  {
    var n := w.store.cursor.value.next;
    RolledBackWorld(cfg, w, env, FindAncestor(cfg, w.store.rows, env.chain, n).anchor);
    f := RollbackOnReorg(cfg, w, env, n);
  }

  lemma ForkMismatches(cfg: Config, w: World, keep: nat)
    requires Inv(cfg, w) && w.store.cursor.Some? && keep < w.store.cursor.value.next
    ensures var c, n := CursorChain(w.store.cursor.value), w.store.cursor.value.next;
      keep < |c| == n == |Fork(c, keep)| && !HashMatches(w, Smooth(Fork(c, keep)), n)
  {
    CursorHash(cfg, w);
    ForkDiffers(cfg, CursorChain(w.store.cursor.value), keep, w.store.cursor.value.next - 1);
  }

  /** After the rollback the bound is the ancestor, so that every batch the trim left is within it. */
  lemma WithinAfterTrim(cfg: Config, w: World, v: World, a: nat, s: PendingSteps.Step)
    requires ValidQueue(w.store.queue) && cfg.hasProcessor
    requires v.store.queue == Trim(w.store.queue, a) && v.store.finalized == Some(a)
    requires s in v.store.queue && |s.events| > 0
    ensures WithinBound(cfg, v, s)
  {
    TrimmedEventsAreWithin(w.store.queue, a);
    MaxBlockWithin(s.events, a);
    assert WellFormedStep(s);
  }

  lemma {:induction false} MaxBlockWithin(events: seq<Event>, a: nat)
    requires forall e :: e in events ==> e.blockNumber <= a
    ensures MaxBlock(events) <= a
  {
    if |events| > 0 {
      assert events[|events| - 1] in events;
      MaxBlockWithin(events[..|events| - 1], a);
    }
  }

  /**
   Exact condition on the state alone: no next chain makes the sweep hand over a ghost if and
   only if the state is trustworthy.
   */
  lemma NeverAGhostExactly(cfg: Config, w: World)
    requires Inv(cfg, w) && w.store.cursor.Some?
    ensures (forall env: Env | WellFormedChain(env.chain) :: SweepIsCanonical(cfg, w, env)) <==> Trustworthy(cfg, w)
  {
    if Trustworthy(cfg, w) {
      forall env: Env | WellFormedChain(env.chain) ensures SweepIsCanonical(cfg, w, env) {
        TrustworthyIsEnough(cfg, w, env);
      }
    } else {
      var env := GhostlyChain(cfg, w);
    }
  }

  lemma GhostlyChain(cfg: Config, w: World) returns (env: Env)
    requires Inv(cfg, w) && w.store.cursor.Some? && !Trustworthy(cfg, w)
    ensures WellFormedChain(env.chain) && !SweepIsCanonical(cfg, w, env)
  {
    if Unguarded(cfg, w) {
      var s :| s in w.store.queue && WithinBound(cfg, w, s);
      if Unchecked(cfg, w, w.store.cursor.value.next) {
        UncheckedGhost(cfg, w, s);
        env := Smooth([]);
      } else {
        env := EmptyTableGhost(cfg, w, s);
      }
    } else if s, e :| s in w.store.queue && WithinBound(cfg, w, s) && e in s.events && !OnCursor(cfg, w)(e) {
      MatchedGhost(cfg, w, s, e);
      env := Smooth(CursorChain(w.store.cursor.value));
    } else {
      var r :| MayReturnTo(cfg, w, r) && !AllQueued(Trim(w.store.queue, r.blockNumber), OnCursor(cfg, w));
      var s, e :| s in Trim(w.store.queue, r.blockNumber) && e in s.events && !OnCursor(cfg, w)(e);
      env := TrimmedGhost(cfg, w, r, s, e);
    }
  }

  /** A queue in the table is trustworthy. */
  lemma TableIsTrustworthy(cfg: Config, w: World)
    requires Inv(cfg, w) && w.store.cursor.Some? && QueueInTable(w.store)
    ensures Trustworthy(cfg, w)
  {
    forall s, e | s in w.store.queue && e in s.events ensures OnCursor(cfg, w)(e) && !Unguarded(cfg, w) {
      QueuedRow(cfg, w, s, e);
    }
    forall s | s in w.store.queue && WithinBound(cfg, w, s) ensures !Unguarded(cfg, w) {
      QueuedRow(cfg, w, s, s.events[0]);
    }
    forall a: nat ensures AllQueued(Trim(w.store.queue, a), OnCursor(cfg, w)) {
      TrimmedAll(w.store.queue, |w.store.queue|, a, OnCursor(cfg, w));
    }
  }

  lemma QueuedRow(cfg: Config, w: World, s: PendingSteps.Step, e: Event)
    requires Inv(cfg, w) && w.store.cursor.Some? && QueueInTable(w.store) && s in w.store.queue && e in s.events
    ensures OnCursor(cfg, w)(e) && !Unguarded(cfg, w)
  {
    assert BelowCursor(w.store.rows, w.store.cursor)(e);
    assert cfg.deploymentBlock <= e.blockNumber < w.store.cursor.value.next;
  }
}
