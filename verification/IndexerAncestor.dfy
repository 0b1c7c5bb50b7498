/** The two-phase search for the common ancestor of the stored events and the chain. */
module IndexerAncestor {
  import opened Prelude
  import opened Sorting
  import opened ChainEvents
  import opened EventSource
  import opened ProjectionStore
  import opened IndexerModel

  /** Stored events of one block carry one block hash. */
  ghost predicate UniformHashes(rows: seq<Event>, from: nat)
  {
    forall a, b :: a in rows && b in rows && a.blockNumber == b.blockNumber < from ==> a.blockHash == b.blockHash
  }

  lemma AnchorsMembers(rows: seq<Event>, floor: nat, from: nat)
    ensures forall e :: e in Anchors(rows, floor, from) <==> e in rows && IsAnchor(e, floor, from)
    ensures Ordered(Anchors(rows, floor, from), Later)
  {
    var kept := Filter(Listed(rows), (e: Event) => IsAnchor(e, floor, from));
    SortPermutes(rows, Before);
    FilterMembers(Listed(rows), (e: Event) => IsAnchor(e, floor, from));
    SortPermutes(kept, Later);
    SortOrders(kept, Later);
  }

  lemma OrderedTail(c: seq<Event>, e: Event)
    requires |c| > 0 && Ordered(c, Later)
    ensures Ordered(c[1..], Later)
    ensures e in c ==> e == c[0] || e in c[1..]
    ensures e in c ==> e.blockNumber <= c[0].blockNumber
  {
    assert c == [c[0]] + c[1..];
    if e in c {
      var i :| 0 <= i < |c| && c[i] == e;
      assert i > 0 ==> !Later(c[i], c[0]);
    }
  }

  lemma {:induction false} FirstCanonicalFinds(c: seq<Event>, chain: Chain, e: Event)
    requires Ordered(c, Later) && e in c && Canonical(chain, e)
    ensures FirstCanonical(c, chain).Some? && e.blockNumber <= FirstCanonical(c, chain).value.blockNumber
  {
    OrderedTail(c, e);
    if !Canonical(chain, c[0]) { FirstCanonicalFinds(c[1..], chain, e); }
  }

  lemma {:induction false} FirstCanonicalIsOne(c: seq<Event>, chain: Chain)
    ensures FirstCanonical(c, chain).Some? ==>
      FirstCanonical(c, chain).value in c && Canonical(chain, FirstCanonical(c, chain).value)
  {
    if |c| > 0 { FirstCanonicalIsOne(c[1..], chain); }
  }

  lemma {:induction false} FirstUnseenIsOne(c: seq<Event>, chain: Chain, seen: set<nat>)
    ensures FirstUnseen(c, chain, seen).Some? ==>
      FirstUnseen(c, chain, seen).value in c && Canonical(chain, FirstUnseen(c, chain, seen).value)
  {
    if |c| > 0 {
      FirstUnseenIsOne(c[1..], chain, seen);
      FirstUnseenIsOne(c[1..], chain, seen + {c[0].blockNumber});
    }
  }

  lemma {:induction false} FirstUnseenFinds(c: seq<Event>, chain: Chain, seen: set<nat>, e: Event)
    requires Ordered(c, Later) && e in c && Canonical(chain, e) && e.blockNumber !in seen
    requires forall a, b :: a in c && b in c && a.blockNumber == b.blockNumber ==> a.blockHash == b.blockHash
    ensures FirstUnseen(c, chain, seen).Some? && e.blockNumber <= FirstUnseen(c, chain, seen).value.blockNumber
  {
    OrderedTail(c, e);
    if c[0].blockNumber in seen {
      FirstUnseenFinds(c[1..], chain, seen, e);
    } else if !Canonical(chain, c[0]) {
      assert c[0] in c && e.blockNumber != c[0].blockNumber;
      FirstUnseenFinds(c[1..], chain, seen + {c[0].blockNumber}, e);
    }
  }

  ghost predicate CanonicalAnchor(cfg: Config, rows: seq<Event>, chain: Chain, from: nat, e: Event)
  {
    e in rows && IsAnchor(e, cfg.deploymentBlock, from) && Canonical(chain, e)
  }

  /** Found or not does not depend on the window: an ancestor is found if and only if some anchor is canonical. */
  lemma AncestorFoundExactly(cfg: Config, rows: seq<Event>, chain: Chain, from: nat)
    ensures var r := FindAncestor(cfg, rows, chain, from);
      && (r.Found? <==> exists e :: CanonicalAnchor(cfg, rows, chain, from, e))
      && (r.Found? ==> CanonicalAnchor(cfg, rows, chain, from, r.anchor))
      && (r.NoEvents? ==> forall e :: e in rows ==> e.removed)
      && (r.NoneCanonical? ==> exists e :: e in rows && IsAnchor(e, cfg.deploymentBlock, from))
      && (r.Hashless? ==> (exists e :: e in rows && !e.removed) && forall e :: e in rows ==> !IsAnchor(e, cfg.deploymentBlock, from))
  {
    var floor := BacktrackFloor(cfg, from);
    AnchorsMembers(rows, floor, from);
    AnchorsMembers(rows, cfg.deploymentBlock, from);
    FirstUnseenIsOne(Anchors(rows, floor, from), chain, {});
    FirstCanonicalIsOne(Anchors(rows, cfg.deploymentBlock, from), chain);
    var all := Anchors(rows, cfg.deploymentBlock, from);
    assert |all| > 0 ==> all[0] in all;
    var r := FindAncestor(cfg, rows, chain, from);
    assert r.Found? ==> CanonicalAnchor(cfg, rows, chain, from, r.anchor);
    forall e | CanonicalAnchor(cfg, rows, chain, from, e) ensures FindAncestor(cfg, rows, chain, from).Found? {
      FirstCanonicalFinds(all, chain, e);
    }
  }

  /** The ancestor is the greatest stored block below `from` whose hash is canonical. */
  lemma AncestorSearchIsExact(cfg: Config, rows: seq<Event>, chain: Chain, from: nat, e: Event)
    requires UniformHashes(rows, from) && CanonicalAnchor(cfg, rows, chain, from, e)
    ensures var r := FindAncestor(cfg, rows, chain, from);
      r.Found? && CanonicalAnchor(cfg, rows, chain, from, r.anchor) && e.blockNumber <= r.anchor.blockNumber
  {
    AncestorFoundExactly(cfg, rows, chain, from);
    var floor := BacktrackFloor(cfg, from);
    AnchorsMembers(rows, floor, from);
    AnchorsMembers(rows, cfg.deploymentBlock, from);
    FirstCanonicalFinds(Anchors(rows, cfg.deploymentBlock, from), chain, e);
    FirstUnseenIsOne(Anchors(rows, floor, from), chain, {});
    if e.blockNumber >= floor {
      FirstUnseenFinds(Anchors(rows, floor, from), chain, {}, e);
    }
  }
}
