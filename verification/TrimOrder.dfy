/**
 The order of the queue after trims, and when trimming twice is trimming once row for row
 (service/src/indexer/service.ts). A row saved later stands later here; QueueListing says when
 the store lists the rows so.
 */
module TrimOrder {
  import opened Prelude
  import opened ChainEvents
  import opened PendingSteps

  type Ids = seq<StepId>

  function IdsOf(q: Queue): (ids: Ids)
    ensures |ids| == |q| && forall i :: 0 <= i < |q| ==> ids[i] == q[i].id
  {
    if |q| == 0 then [] else IdsOf(q[..|q| - 1]) + [q[|q| - 1].id]
  }

  predicate Blank(id: StepId) { id == SignalsId([]) }

  /** The ids that a trim leaves alone. */
  function Kept(ids: Ids, a: nat): Ids
  {
    if |ids| == 0 then []
    else Kept(ids[..|ids| - 1], a) + if Within(ids[|ids| - 1], a) then [ids[|ids| - 1]] else []
  }

  /** What the other ids become, in their order. */
  function Targets(ids: Ids, a: nat): Ids
  {
    if |ids| == 0 then []
    else Targets(ids[..|ids| - 1], a) + if Within(ids[|ids| - 1], a) then [] else [TrimmedId(ids[|ids| - 1], a)]
  }

  /** Saving one id after another: an emptied batch, and an id that is already there, adds nothing. */
  function Dedupe(xs: Ids, base: Ids): Ids
  {
    if |xs| == 0 then []
    else
      var r, x := Dedupe(xs[..|xs| - 1], base), xs[|xs| - 1];
      if Blank(x) || x in base || x in r then r else r + [x]
  }

  function TrimmedIds(ids: Ids, a: nat): Ids
  {
    Kept(ids, a) + Dedupe(Targets(ids, a), Kept(ids, a))
  }

  function Without(ids: Ids, gone: StepId): Ids
  {
    if |ids| == 0 then []
    else Without(ids[..|ids| - 1], gone) + if ids[|ids| - 1] == gone then [] else [ids[|ids| - 1]]
  }

  // ----- the order after one trim -----

  lemma {:induction false} LookIds(q: Queue, id: StepId)
    ensures Look(q, id).Some? <==> id in IdsOf(q)
  {
    if |q| > 0 {
      LookIds(q[..|q| - 1], id);
      assert IdsOf(q) == IdsOf(q[..|q| - 1]) + [q[|q| - 1].id];
    }
  }

  lemma IdsAppend(q: Queue, s: Step)
    ensures IdsOf(q + [s]) == IdsOf(q) + [s.id]
  {
    assert (q + [s])[..|q|] == q;
  }

  lemma {:induction false} DroppedIds(q: Queue, gone: StepId)
    ensures IdsOf(DropStep(q, gone)) == Without(IdsOf(q), gone)
  {
    if |q| > 0 {
      var front, last := q[..|q| - 1], q[|q| - 1];
      DroppedIds(front, gone);
      assert IdsOf(q)[..|q| - 1] == IdsOf(front);
      IdsAppend(DropStep(front, gone), last);
      assert DropStep(front, gone) + [] == DropStep(front, gone);
      assert Without(IdsOf(front), gone) + [] == Without(IdsOf(front), gone);
    }
  }

  lemma {:induction false} WithoutConcat(xs: Ids, ys: Ids, gone: StepId)
    ensures Without(xs + ys, gone) == Without(xs, gone) + Without(ys, gone)
  {
    if |ys| == 0 {
      assert xs + ys == xs;
    } else {
      assert (xs + ys)[..|xs + ys| - 1] == xs + ys[..|ys| - 1];
      WithoutConcat(xs, ys[..|ys| - 1], gone);
    }
  }

  lemma {:induction false} WithoutAbsent(xs: Ids, gone: StepId)
    requires gone !in xs
    ensures Without(xs, gone) == xs
  {
    if |xs| > 0 {
      WithoutAbsent(xs[..|xs| - 1], gone);
      assert xs == xs[..|xs| - 1] + [xs[|xs| - 1]];
    }
  }

  /** A trim visits a row: it stays, or it goes and its trimmed id is saved at the end. */
  lemma VisitedIds(before: Queue, s: Step, a: nat)
    requires WellFormedStep(s)
    ensures IdsOf(TrimStep(before, s, a)) ==
      if Within(s.id, a) then IdsOf(before)
      else
        var r, t := Without(IdsOf(before), s.id), TrimmedId(s.id, a);
        if Blank(t) || t in r then r else r + [t]
  {
    StepWithin(s, a);
    if !Within(s.id, a) {
      var surviving := EventsUpTo(s.events, a);
      EventsUpToMembers(s.events, a);
      DroppedIds(before, s.id);
      LookIds(DropStep(before, s.id), TrimmedId(s.id, a));
      IdsAppend(DropStep(before, s.id), Step(TrimmedId(s.id, a), surviving, 0));
      assert |surviving| == |KeysOf(surviving)|;
    }
  }

  lemma {:induction false} KeptMembers(ids: Ids, a: nat)
    ensures forall x :: x in Kept(ids, a) <==> x in ids && Within(x, a)
  {
    if |ids| > 0 {
      KeptMembers(ids[..|ids| - 1], a);
      assert ids == ids[..|ids| - 1] + [ids[|ids| - 1]];
    }
  }

  lemma {:induction false} TargetsWithin(ids: Ids, a: nat)
    ensures forall x :: x in Targets(ids, a) ==> Within(x, a)
  {
    if |ids| > 0 {
      TargetsWithin(ids[..|ids| - 1], a);
      var last := ids[|ids| - 1];
      if last.SignalsId? { KeysUpToTwice(last.keys, a, a); }
    }
  }

  lemma {:induction false} DedupeMembers(xs: Ids, base: Ids)
    ensures forall x :: x in Dedupe(xs, base) <==> x in xs && !Blank(x) && x !in base
  {
    if |xs| > 0 {
      DedupeMembers(xs[..|xs| - 1], base);
      assert xs == xs[..|xs| - 1] + [xs[|xs| - 1]];
    }
  }

  lemma {:induction false} UniqueRows(q: Queue, n: nat)
    requires UniqueIds(q) && n < |q|
    ensures q[n].id !in IdsOf(q)[..n] && q[n].id !in IdsOf(q)[n + 1..]
  {
    var ids := IdsOf(q);
    if n == |q| - 1 {
      LookIds(q[..n], q[n].id);
      assert IdsOf(q[..n]) == ids[..n];
    } else {
      var front, last := q[..|q| - 1], q[|q| - 1];
      UniqueRows(front, n);
      LookIds(front, last.id);
      assert IdsOf(front) == ids[..|q| - 1];
      assert ids[..n] == IdsOf(front)[..n];
      assert ids[n + 1..] == IdsOf(front)[n + 1..] + [last.id];
      assert IdsOf(front)[n] in IdsOf(front);
    }
  }

  /** Half way through: the rows kept so far, the rows not visited yet, the ids saved so far. */
  function PartlyTrimmed(ids: Ids, n: nat, a: nat): Ids
    requires n <= |ids|
  {
    Kept(ids[..n], a) + ids[n..] + Dedupe(Targets(ids[..n], a), Kept(ids, a))
  }

  lemma {:induction false} TrimPassOrder(q: Queue, n: nat, a: nat)
    requires ValidQueue(q) && n <= |q|
    ensures IdsOf(TrimPass(q, q[..n], a)) == PartlyTrimmed(IdsOf(q), n, a)
  {
    if n == 0 {
      NothingTrimmed(q, a);
    } else {
      TrimPassOrder(q, n - 1, a);
      TrimPassStep(q, n, a);
    }
  }

  lemma TrimPassStep(q: Queue, n: nat, a: nat)
    requires ValidQueue(q) && 0 < n <= |q| && IdsOf(TrimPass(q, q[..n - 1], a)) == PartlyTrimmed(IdsOf(q), n - 1, a)
    ensures IdsOf(TrimPass(q, q[..n], a)) == PartlyTrimmed(IdsOf(q), n, a)
  {
    var before := TrimPass(q, q[..n - 1], a);
    assert q[n - 1] in q;
    OneMoreVisit(q, n, a);
    UniqueRows(q, n - 1);
    VisitKeepsOrder(before, q[n - 1], IdsOf(q), n, a);
  }

  lemma VisitKeepsOrder(before: Queue, s: Step, ids: Ids, n: nat, a: nat)
    requires WellFormedStep(s) && 0 < n <= |ids| && ids[n - 1] == s.id
    requires ids[n - 1] !in ids[..n - 1] && ids[n - 1] !in ids[n..]
    requires IdsOf(before) == PartlyTrimmed(ids, n - 1, a)
    ensures IdsOf(TrimStep(before, s, a)) == PartlyTrimmed(ids, n, a)
  {
    VisitedIds(before, s, a);
    PartlyTrimmedStep(ids, n, a);
  }

  lemma NothingTrimmed(q: Queue, a: nat)
    ensures IdsOf(TrimPass(q, q[..0], a)) == PartlyTrimmed(IdsOf(q), 0, a)
  {
    var ids := IdsOf(q);
    assert q[..0] == [] && ids[..0] == [] && ids[0..] == ids;
    assert [] + ids == ids && ids + [] == ids;
  }

  lemma OneMoreVisit(q: Queue, n: nat, a: nat)
    requires 0 < n <= |q|
    ensures TrimPass(q, q[..n], a) == TrimStep(TrimPass(q, q[..n - 1], a), q[n - 1], a)
  {
    assert q[..n][..n - 1] == q[..n - 1] && q[..n][n - 1] == q[n - 1];
  }

  lemma PartlyTrimmedStep(ids: Ids, n: nat, a: nat)
    requires 0 < n <= |ids| && ids[n - 1] !in ids[..n - 1] && ids[n - 1] !in ids[n..]
    ensures PartlyTrimmed(ids, n, a) ==
      if Within(ids[n - 1], a) then PartlyTrimmed(ids, n - 1, a)
      else
        var r, t := Without(PartlyTrimmed(ids, n - 1, a), ids[n - 1]), TrimmedId(ids[n - 1], a);
        if Blank(t) || t in r then r else r + [t]
  {
    var x := ids[n - 1];
    var kept, rest := Kept(ids[..n - 1], a), ids[n..];
    var saved := Dedupe(Targets(ids[..n - 1], a), Kept(ids, a));
    assert ids[..n][..n - 1] == ids[..n - 1] && ids[..n][n - 1] == x;
    TailSplits(ids, n);
    if Within(x, a) {
      assert Targets(ids[..n], a) == Targets(ids[..n - 1], a) + [] == Targets(ids[..n - 1], a);
      MiddleStays(kept, x, rest, saved);
    } else {
      KeptMembers(ids[..n - 1], a);
      TargetsWithin(ids[..n - 1], a);
      DedupeMembers(Targets(ids[..n - 1], a), Kept(ids, a));
      MiddleLeaves(kept, x, rest, saved);
      NewIdSaved(ids, n, a);
    }
  }

  lemma TailSplits(ids: Ids, n: nat)
    requires 0 < n <= |ids|
    ensures ids[n - 1..] == [ids[n - 1]] + ids[n..]
    ensures ids == ids[..n - 1] + [ids[n - 1]] + ids[n..]
  {
  }

  lemma MiddleStays(kept: Ids, x: StepId, rest: Ids, saved: Ids)
    ensures (kept + [x]) + rest + saved == kept + ([x] + rest) + saved
  {
  }

  lemma MiddleLeaves(kept: Ids, x: StepId, rest: Ids, saved: Ids)
    requires x !in kept && x !in rest && x !in saved
    ensures Without(kept + ([x] + rest) + saved, x) == kept + rest + saved
  {
    WithoutConcat(kept + ([x] + rest), saved, x);
    WithoutConcat(kept, [x] + rest, x);
    WithoutConcat([x], rest, x);
    assert [x][..0] == [] && Without([x], x) == [];
    WithoutAbsent(kept, x);
    WithoutAbsent(rest, x);
    WithoutAbsent(saved, x);
    assert [] + rest == rest;
  }

  /** What is saved for a visited row does not depend on the rows still to be visited. */
  lemma NewIdSaved(ids: Ids, n: nat, a: nat)
    requires 0 < n <= |ids| && !Within(ids[n - 1], a)
    ensures var kept, saved := Kept(ids[..n - 1], a), Dedupe(Targets(ids[..n - 1], a), Kept(ids, a));
      var r, t := kept + ids[n..] + saved, TrimmedId(ids[n - 1], a);
      PartlyTrimmed(ids, n, a) == if Blank(t) || t in r then r else r + [t]
  {
    var x, t := ids[n - 1], TrimmedId(ids[n - 1], a);
    var base, targets := Kept(ids, a), Targets(ids[..n - 1], a);
    var kept, saved := Kept(ids[..n - 1], a), Dedupe(targets, base);
    assert ids[..n][..n - 1] == ids[..n - 1] && ids[..n][n - 1] == x;
    Append(kept, t);
    Append(targets, t);
    SameCollisions(ids, n, a);
    SavedLast(kept, ids[n..], saved, t);
  }

  lemma SavedLast(kept: Ids, rest: Ids, saved: Ids, t: StepId)
    ensures kept + rest + (saved + [t]) == (kept + rest + saved) + [t]
  {
  }

  lemma SameCollisions(ids: Ids, n: nat, a: nat)
    requires 0 < n <= |ids| && !Within(ids[n - 1], a)
    ensures var t := TrimmedId(ids[n - 1], a);
      t in Kept(ids, a) <==> t in Kept(ids[..n - 1], a) || t in ids[n..]
  {
    var x := ids[n - 1];
    if x.SignalsId? { KeysUpToTwice(x.keys, a, a); }
    KeptMembers(ids, a);
    KeptMembers(ids[..n - 1], a);
    TailSplits(ids, n);
  }

  /** The order after a trim: the untouched rows in their order, then the new ids in the order of the rows they first came from. */
  lemma TrimmedOrder(q: Queue, a: nat)
    requires ValidQueue(q)
    ensures IdsOf(Trim(q, a)) == TrimmedIds(IdsOf(q), a)
  {
    var ids := IdsOf(q);
    TrimPassOrder(q, |q|, a);
    assert q[..|q|] == q;
    assert ids[..|ids|] == ids && ids[|ids|..] == [];
    assert Kept(ids, a) + [] == Kept(ids, a);
  }

  // ----- the order after two trims -----

  /**
   When a trim at b follows one at a > b, the rows that lose events are visited in three groups:
   first those that the trim at a already brought down to b, then those it left alone, last
   those it shortened but not enough.
   */
  function Rank(id: StepId, a: nat, b: nat): nat
  {
    if Within(id, a) then 1 else if Within(TrimmedId(id, a), b) then 0 else 2
  }

  function Group(ids: Ids, a: nat, b: nat, rank: nat): Ids
  {
    if |ids| == 0 then []
    else
      var last := ids[|ids| - 1];
      Group(ids[..|ids| - 1], a, b, rank) +
        if !Within(last, b) && Rank(last, a, b) == rank then [TrimmedId(last, b)] else []
  }

  function Visits(ids: Ids, a: nat, b: nat): Ids
  {
    Group(ids, a, b, 0) + Group(ids, a, b, 1) + Group(ids, a, b, 2)
  }

  /** The elements that lie within b, or the others. */
  function Part(xs: Ids, b: nat, within: bool): Ids
  {
    if |xs| == 0 then []
    else Part(xs[..|xs| - 1], b, within) + if Within(xs[|xs| - 1], b) == within then [xs[|xs| - 1]] else []
  }

  function Lowered(xs: Ids, b: nat): Ids
  {
    if |xs| == 0 then [] else Lowered(xs[..|xs| - 1], b) + [TrimmedId(xs[|xs| - 1], b)]
  }

  lemma Append(xs: Ids, x: StepId)
    ensures (xs + [x])[..|xs|] == xs && (xs + [x])[|xs|] == x
    ensures xs + [] == xs
  {
  }

  lemma {:induction false} DedupeConcat(xs: Ids, ys: Ids, base: Ids)
    ensures Dedupe(xs + ys, base) == Dedupe(xs, base) + Dedupe(ys, base + Dedupe(xs, base))
  {
    if |ys| == 0 {
      assert xs + ys == xs;
    } else {
      assert (xs + ys)[..|xs + ys| - 1] == xs + ys[..|ys| - 1];
      DedupeConcat(xs, ys[..|ys| - 1], base);
    }
  }

  lemma {:induction false} DedupePart(xs: Ids, base: Ids, b: nat, within: bool)
    ensures Part(Dedupe(xs, base), b, within) == Dedupe(Part(xs, b, within), base)
  {
    if |xs| > 0 {
      var front, x := xs[..|xs| - 1], xs[|xs| - 1];
      DedupePart(front, base, b, within);
      DedupeMembers(front, base);
      DedupeMembers(Part(front, b, within), base);
      PartMembers(front, b, within);
      Append(Dedupe(front, base), x);
      Append(Part(front, b, within), x);
    }
  }

  lemma {:induction false} PartMembers(xs: Ids, b: nat, within: bool)
    ensures forall x :: x in Part(xs, b, within) <==> x in xs && Within(x, b) == within
  {
    if |xs| > 0 {
      PartMembers(xs[..|xs| - 1], b, within);
      assert xs == xs[..|xs| - 1] + [xs[|xs| - 1]];
    }
  }

  lemma {:induction false} DedupeBase(xs: Ids, base: Ids, other: Ids)
    requires forall x :: x in xs ==> (x in base <==> x in other)
    ensures Dedupe(xs, base) == Dedupe(xs, other)
  {
    if |xs| > 0 {
      assert xs == xs[..|xs| - 1] + [xs[|xs| - 1]];
      DedupeBase(xs[..|xs| - 1], base, other);
    }
  }

  /** What collides with `base` lowers to something that is dropped anyway; nothing is empty. */
  ghost predicate Covered(xs: Ids, base: Ids, b: nat, other: Ids)
  {
    forall x :: x in xs ==> !Blank(x) && (x in base ==> Blank(TrimmedId(x, b)) || TrimmedId(x, b) in other)
  }

  lemma CoveredFront(front: Ids, x: StepId, base: Ids, b: nat, other: Ids)
    requires Covered(front + [x], base, b, other)
    ensures Covered(front, base, b, other) && !Blank(x)
    ensures x in base ==> Blank(TrimmedId(x, b)) || TrimmedId(x, b) in other
  {
    assert x in front + [x];
    assert forall y :: y in front ==> y in front + [x];
  }

  lemma {:induction false} DedupeLowered(xs: Ids, base: Ids, b: nat, other: Ids)
    requires Covered(xs, base, b, other)
    ensures Dedupe(Lowered(Dedupe(xs, base), b), other) == Dedupe(Lowered(xs, b), other)
  {
    if |xs| > 0 {
      var front, x := xs[..|xs| - 1], xs[|xs| - 1];
      assert xs == front + [x];
      CoveredFront(front, x, base, b, other);
      DedupeLowered(front, base, b, other);
      if x in Dedupe(front, base) { SkippedIsCovered(front, base, x, b, other); }
      OneMoreLowered(Dedupe(front, base), Lowered(front, b), x, b, other, x in base || x in Dedupe(front, base));
    }
  }

  lemma SkippedIsCovered(front: Ids, base: Ids, x: StepId, b: nat, other: Ids)
    requires x in Dedupe(front, base)
    ensures Blank(TrimmedId(x, b)) || TrimmedId(x, b) in other || TrimmedId(x, b) in Dedupe(Lowered(front, b), other)
  {
    DedupeMembers(front, base);
    LoweredMember(front, x, b);
    DedupeMembers(Lowered(front, b), other);
  }

  lemma OneMoreLowered(d: Ids, lowered: Ids, x: StepId, b: nat, other: Ids, skipped: bool)
    requires Dedupe(Lowered(d, b), other) == Dedupe(lowered, other)
    requires skipped ==>
      Blank(TrimmedId(x, b)) || TrimmedId(x, b) in other || TrimmedId(x, b) in Dedupe(lowered, other)
    ensures Dedupe(Lowered(if skipped then d else d + [x], b), other) == Dedupe(lowered + [TrimmedId(x, b)], other)
  {
    Append(lowered, TrimmedId(x, b));
    if !skipped {
      Append(d, x);
      Append(Lowered(d, b), TrimmedId(x, b));
    }
  }

  lemma {:induction false} LoweredMember(xs: Ids, x: StepId, b: nat)
    requires x in xs
    ensures TrimmedId(x, b) in Lowered(xs, b)
  {
    assert xs == xs[..|xs| - 1] + [xs[|xs| - 1]];
    if x != xs[|xs| - 1] { LoweredMember(xs[..|xs| - 1], x, b); }
  }

  lemma TwiceTrimmed(id: StepId, a: nat, b: nat)
    requires b < a
    ensures TrimmedId(TrimmedId(id, a), b) == TrimmedId(id, b)
    ensures Within(id, b) ==> Within(id, a)
    ensures Within(TrimmedId(id, a), a)
    ensures Within(TrimmedId(id, a), b) && !Within(id, a) ==> TrimmedId(id, a) == TrimmedId(id, b) && !Within(id, b)
  {
    if id.SignalsId? {
      KeysUpToTwice(id.keys, a, b);
      KeysUpToTwice(id.keys, b, a);
      KeysUpToTwice(id.keys, a, a);
    }
  }

  lemma {:induction false} FirstGroupIsPart(ids: Ids, a: nat, b: nat)
    requires b < a
    ensures Part(Targets(ids, a), b, true) == Group(ids, a, b, 0)
  {
    if |ids| > 0 {
      FirstGroupIsPart(ids[..|ids| - 1], a, b);
      TwiceTrimmed(ids[|ids| - 1], a, b);
      Append(Targets(ids[..|ids| - 1], a), TrimmedId(ids[|ids| - 1], a));
    }
  }

  lemma {:induction false} MiddleGroupIsKept(ids: Ids, a: nat, b: nat)
    requires b < a
    ensures Targets(Kept(ids, a), b) == Group(ids, a, b, 1)
    ensures Kept(Kept(ids, a), b) == Kept(ids, b)
  {
    if |ids| > 0 {
      MiddleGroupIsKept(ids[..|ids| - 1], a, b);
      TwiceTrimmed(ids[|ids| - 1], a, b);
      Append(Kept(ids[..|ids| - 1], a), ids[|ids| - 1]);
    }
  }

  lemma {:induction false} LastGroupIsPart(ids: Ids, a: nat, b: nat)
    requires b < a
    ensures Lowered(Part(Targets(ids, a), b, false), b) == Group(ids, a, b, 2)
  {
    if |ids| > 0 {
      var front, x := ids[..|ids| - 1], ids[|ids| - 1];
      LastGroupIsPart(front, a, b);
      TwiceTrimmed(x, a, b);
      Append(Targets(front, a), TrimmedId(x, a));
      Append(Part(Targets(front, a), b, false), TrimmedId(x, a));
    }
  }

  lemma Groups(ids: Ids, a: nat, b: nat)
    requires b < a
    ensures Part(Targets(ids, a), b, true) == Group(ids, a, b, 0)
    ensures Targets(Kept(ids, a), b) == Group(ids, a, b, 1)
    ensures Lowered(Part(Targets(ids, a), b, false), b) == Group(ids, a, b, 2)
    ensures Kept(Kept(ids, a), b) == Kept(ids, b)
  {
    FirstGroupIsPart(ids, a, b);
    MiddleGroupIsKept(ids, a, b);
    LastGroupIsPart(ids, a, b);
  }

  lemma {:induction false} KeptIsPart(xs: Ids, b: nat)
    ensures Kept(xs, b) == Part(xs, b, true)
    ensures Targets(xs, b) == Lowered(Part(xs, b, false), b)
  {
    if |xs| > 0 {
      KeptIsPart(xs[..|xs| - 1], b);
      Append(Part(xs[..|xs| - 1], b, false), xs[|xs| - 1]);
    }
  }

  lemma {:induction false} KeptConcat(xs: Ids, ys: Ids, b: nat)
    ensures Kept(xs + ys, b) == Kept(xs, b) + Kept(ys, b)
    ensures Targets(xs + ys, b) == Targets(xs, b) + Targets(ys, b)
  {
    if |ys| == 0 {
      assert xs + ys == xs;
    } else {
      assert (xs + ys)[..|xs + ys| - 1] == xs + ys[..|ys| - 1];
      KeptConcat(xs, ys[..|ys| - 1], b);
    }
  }

  /** The order after two trims: the rows untouched by both, then the new ids in the order of the three groups. */
  lemma TwoTrimsOrder(ids: Ids, a: nat, b: nat)
    requires b < a
    ensures TrimmedIds(TrimmedIds(ids, a), b) == Kept(ids, b) + Dedupe(Visits(ids, a, b), Kept(ids, b))
  {
    var kb := Kept(ids, b);
    var g0, g1, g2 := Group(ids, a, b, 0), Group(ids, a, b, 1), Group(ids, a, b, 2);
    SecondTrim(ids, a, b);
    var n1 := Dedupe(g0, kb);
    DedupeMembers(g1, kb + n1);
    LastGroup(ids, a, b, kb + n1 + Dedupe(g1, kb + n1));
    Assemble(kb, g0, g1, g2, Lowered(Dedupe(Part(Targets(ids, a), b, false), Kept(ids, a)), b));
  }

  /** What the second trim keeps, and what it visits. */
  lemma SecondTrim(ids: Ids, a: nat, b: nat)
    requires b < a
    ensures Kept(TrimmedIds(ids, a), b) == Kept(ids, b) + Dedupe(Group(ids, a, b, 0), Kept(ids, b))
    ensures Targets(TrimmedIds(ids, a), b)
         == Group(ids, a, b, 1) + Lowered(Dedupe(Part(Targets(ids, a), b, false), Kept(ids, a)), b)
  {
    var ka, ta := Kept(ids, a), Targets(ids, a);
    var na := Dedupe(ta, ka);
    Groups(ids, a, b);
    KeptConcat(ka, na, b);
    KeptIsPart(na, b);
    DedupePart(ta, ka, b, true);
    DedupePart(ta, ka, b, false);
    FirstGroup(ids, a, b);
  }

  lemma Assemble(kb: Ids, g0: Ids, g1: Ids, g2: Ids, last: Ids)
    requires var n1 := Dedupe(g0, kb);
      var base := kb + n1 + Dedupe(g1, kb + n1);
      Dedupe(last, base) == Dedupe(g2, base)
    ensures var n1 := Dedupe(g0, kb);
      (kb + n1) + Dedupe(g1 + last, kb + n1) == kb + Dedupe(g0 + g1 + g2, kb)
  {
    var n1 := Dedupe(g0, kb);
    var d1 := Dedupe(g1, kb + n1);
    DedupeConcat(g1, last, kb + n1);
    DedupeConcat(g0, g1, kb);
    DedupeConcat(g0 + g1, g2, kb);
    Associate(kb, n1, d1, Dedupe(g2, kb + n1 + d1));
  }

  lemma Associate(kb: Ids, n1: Ids, d1: Ids, d2: Ids)
    ensures kb + (n1 + d1) == kb + n1 + d1
    ensures (kb + n1) + (d1 + d2) == kb + ((n1 + d1) + d2)
  {
  }

  lemma FirstGroup(ids: Ids, a: nat, b: nat)
    requires b < a
    ensures Dedupe(Group(ids, a, b, 0), Kept(ids, a)) == Dedupe(Group(ids, a, b, 0), Kept(ids, b))
  {
    Groups(ids, a, b);
    PartMembers(Targets(ids, a), b, true);
    KeptMembers(ids, a);
    KeptMembers(ids, b);
    forall x | x in Group(ids, a, b, 0) ensures x in Kept(ids, a) <==> x in Kept(ids, b) {
      TwiceTrimmed(x, a, b);
    }
    DedupeBase(Group(ids, a, b, 0), Kept(ids, a), Kept(ids, b));
  }

  /** The last group: what collides with a row the first trim left alone was visited with that row. */
  lemma LastGroup(ids: Ids, a: nat, b: nat, base: Ids)
    requires b < a && forall x :: x in Group(ids, a, b, 1) ==> Blank(x) || x in base
    ensures Dedupe(Lowered(Dedupe(Part(Targets(ids, a), b, false), Kept(ids, a)), b), base) == Dedupe(Group(ids, a, b, 2), base)
  {
    var xs := Part(Targets(ids, a), b, false);
    Groups(ids, a, b);
    PartMembers(Targets(ids, a), b, false);
    forall x | x in xs && x in Kept(ids, a) ensures Blank(TrimmedId(x, b)) || TrimmedId(x, b) in base {
      KeptIsPart(Kept(ids, a), b);
      PartMembers(Kept(ids, a), b, false);
      LoweredMember(Part(Kept(ids, a), b, false), x, b);
    }
    DedupeLowered(xs, Kept(ids, a), b, base);
  }

  // ----- when two trims are one, row for row -----

  lemma RowsByOrder(q: Queue, r: Queue)
    requires ValidQueue(q) && ValidQueue(r) && forall id :: Look(q, id) == Look(r, id)
    ensures q == r <==> IdsOf(q) == IdsOf(r)
  {
    if IdsOf(q) == IdsOf(r) {
      forall i | 0 <= i < |q| ensures q[i] == r[i] {
        assert q[i] in q && r[i] in r && IdsOf(q)[i] == IdsOf(r)[i];
      }
    }
  }

  /** Queued events with one key are one event. */
  ghost predicate KeysDetermineEvents(q: Queue)
  {
    forall s, t, e, f | s in q && t in q && e in s.events && f in t.events && ChainEventKey(e) == ChainEventKey(f) :: e == f
  }

  ghost predicate CarriedBy(q: Queue, e: Event) { exists s :: s in q && e in s.events }

  lemma SameKeysSameEvents(q: Queue, xs: seq<Event>, ys: seq<Event>)
    requires KeysDetermineEvents(q) && KeysOf(xs) == KeysOf(ys)
    requires forall e :: e in xs || e in ys ==> CarriedBy(q, e)
    ensures xs == ys
  {
    assert |xs| == |KeysOf(xs)| == |KeysOf(ys)| == |ys|;
    forall i | 0 <= i < |xs| ensures xs[i] == ys[i] {
      assert ChainEventKey(xs[i]) == KeysOf(xs)[i] == KeysOf(ys)[i] == ChainEventKey(ys[i]);
      assert CarriedBy(q, xs[i]) && CarriedBy(q, ys[i]);
    }
  }

  lemma TrimCarries(q: Queue, t: Queue, a: nat)
    requires ValidQueue(t) && forall s, e :: s in t && e in s.events ==> CarriedBy(q, e)
    ensures ValidQueue(Trim(t, a)) && forall s, e :: s in Trim(t, a) && e in s.events ==> CarriedBy(q, e)
  {
    var P := (e: Event) => CarriedBy(q, e);
    assert t[..|t|] == t;
    TrimmedEventsAreWithin(t, a);
    TrimPassAddsNoEvent(t, |t|, a, P);
    forall s, e | s in Trim(t, a) && e in s.events ensures CarriedBy(q, e) {
      assert P(e);
    }
  }

  /** The rows after two trims, their events included, are those after one trim to the lower block. */
  lemma TrimsComposeRows(q: Queue, a: nat, b: nat, id: StepId)
    requires ValidQueue(q) && KeysDetermineEvents(q)
    ensures Look(Trim(Trim(q, a), b), id) == Look(Trim(q, if a <= b then a else b), id)
  {
    var two, one := Trim(Trim(q, a), b), Trim(q, if a <= b then a else b);
    TrimCarries(q, q, a);
    TrimCarries(q, Trim(q, a), b);
    TrimCarries(q, q, if a <= b then a else b);
    TrimsCompose(q, a, b, id);
    LookMembers(two, id);
    LookMembers(one, id);
    if Look(two, id).Some? && id.SignalsId? {
      SameKeysSameEvents(q, Look(two, id).value.events, Look(one, id).value.events);
    }
  }

  /**
   Exact condition for equality row for row: trimming at a and then at b is trimming at b
   alone if and only if visiting the rows group by group saves the new ids in the order in
   which visiting them in queue order does. With a <= b it always is.
   */
  lemma TrimsComposeExactly(q: Queue, a: nat, b: nat)
    requires ValidQueue(q) && KeysDetermineEvents(q)
    ensures a <= b ==> Trim(Trim(q, a), b) == Trim(q, a)
    ensures var ids := IdsOf(q);
      b < a ==>
        (Trim(Trim(q, a), b) == Trim(q, b) <==>
           Dedupe(Visits(ids, a, b), Kept(ids, b)) == Dedupe(Targets(ids, b), Kept(ids, b)))
  {
    TrimmedEventsAreWithin(q, a);
    if a <= b {
      NothingToTrim(Trim(q, a), Trim(q, a), b);
    } else {
      var ids := IdsOf(q);
      TrimmedEventsAreWithin(q, b);
      TrimmedEventsAreWithin(Trim(q, a), b);
      forall id ensures Look(Trim(Trim(q, a), b), id) == Look(Trim(q, b), id) { TrimsComposeRows(q, a, b, id); }
      RowsByOrder(Trim(Trim(q, a), b), Trim(q, b));
      TrimmedOrder(q, a);
      TrimmedOrder(q, b);
      TrimmedOrder(Trim(q, a), b);
      TwoTrimsOrder(ids, a, b);
      SameTails(Kept(ids, b), Dedupe(Visits(ids, a, b), Kept(ids, b)), Dedupe(Targets(ids, b), Kept(ids, b)));
    }
  }

  lemma SameTails(base: Ids, xs: Ids, ys: Ids)
    ensures base + xs == base + ys <==> xs == ys
  {
    if base + xs == base + ys {
      assert xs == (base + xs)[|base|..] == (base + ys)[|base|..] == ys;
    }
  }

  /** No row that loses events stands before one of an earlier group. */
  ghost predicate NoInversion(ids: Ids, a: nat, b: nat)
  {
    forall i, j | 0 <= i < j < |ids| && !Within(ids[i], b) && !Within(ids[j], b) :: Rank(ids[i], a, b) <= Rank(ids[j], a, b)
  }

  /** The trimmed ids are pairwise different, none is empty and none is there already. */
  ghost predicate NoCollapse(ids: Ids, b: nat)
  {
    var ts := Targets(ids, b);
    && (forall i :: 0 <= i < |ts| ==> !Blank(ts[i]) && ts[i] !in Kept(ids, b))
    && (forall i, j :: 0 <= i < j < |ts| ==> ts[i] != ts[j])
  }

  lemma {:induction false} GroupMembers(ids: Ids, a: nat, b: nat, rank: nat)
    ensures forall x :: x in Group(ids, a, b, rank) ==> x in Targets(ids, b)
    ensures Group(ids, a, b, rank) != [] <==> exists i :: 0 <= i < |ids| && !Within(ids[i], b) && Rank(ids[i], a, b) == rank
  {
    if |ids| > 0 {
      var front, last := ids[..|ids| - 1], ids[|ids| - 1];
      GroupMembers(front, a, b, rank);
      if i :| 0 <= i < |ids| && !Within(ids[i], b) && Rank(ids[i], a, b) == rank {
        assert i < |front| ==> front[i] == ids[i];
      }
      if i :| 0 <= i < |front| && !Within(front[i], b) && Rank(front[i], a, b) == rank {
        assert ids[i] == front[i];
      }
      assert Group(front, a, b, rank) + [] == Group(front, a, b, rank);
      assert ids[|ids| - 1] == last;
    }
  }

  lemma {:induction false} NoInversionVisitsInOrder(ids: Ids, a: nat, b: nat)
    requires NoInversion(ids, a, b)
    ensures Visits(ids, a, b) == Targets(ids, b)
  {
    if |ids| > 0 {
      var front, x := ids[..|ids| - 1], ids[|ids| - 1];
      assert forall i :: 0 <= i < |front| ==> front[i] == ids[i];
      NoInversionVisitsInOrder(front, a, b);
      var g0, g1, g2 := Group(front, a, b, 0), Group(front, a, b, 1), Group(front, a, b, 2);
      if Within(x, b) {
        assert g0 + [] == g0 && g1 + [] == g1 && g2 + [] == g2;
        assert Targets(front, b) + [] == Targets(front, b);
      } else {
        GroupMembers(front, a, b, 1);
        GroupMembers(front, a, b, 2);
        AppendToGroup(g0, g1, g2, TrimmedId(x, b), Rank(x, a, b));
      }
    }
  }

  /** A new last element ends up last if the groups behind its own are empty. */
  lemma AppendToGroup(g0: Ids, g1: Ids, g2: Ids, t: StepId, rank: nat)
    requires rank <= 2 && (rank < 2 ==> g2 == []) && (rank < 1 ==> g1 == [])
    ensures (if rank == 0 then g0 + [t] else g0 + []) + (if rank == 1 then g1 + [t] else g1 + []) + (if rank == 2 then g2 + [t] else g2 + [])
         == g0 + g1 + g2 + [t]
  {
  }

  lemma {:induction false} DedupeIdle(xs: Ids, base: Ids)
    requires forall i :: 0 <= i < |xs| ==> !Blank(xs[i]) && xs[i] !in base
    requires forall i, j :: 0 <= i < j < |xs| ==> xs[i] != xs[j]
    ensures Dedupe(xs, base) == xs
  {
    if |xs| > 0 {
      DedupeIdle(xs[..|xs| - 1], base);
      assert xs == xs[..|xs| - 1] + [xs[|xs| - 1]];
    }
  }

  lemma {:induction false} DedupeShrinks(xs: Ids, base: Ids)
    ensures |Dedupe(xs, base)| <= |xs|
    ensures |Dedupe(xs, base)| == |xs| ==> Dedupe(xs, base) == xs
  {
    if |xs| > 0 {
      DedupeShrinks(xs[..|xs| - 1], base);
      assert xs == xs[..|xs| - 1] + [xs[|xs| - 1]];
    }
  }

  lemma {:induction false} VisitsEachOnce(ids: Ids, a: nat, b: nat)
    ensures |Visits(ids, a, b)| == |Targets(ids, b)|
  {
    if |ids| > 0 { VisitsEachOnce(ids[..|ids| - 1], a, b); }
  }

  lemma LastIsNew(g0: Ids, g1: Ids, g2: Ids, t: StepId, rank: nat, ts: Ids)
    requires rank <= 2 && t !in g1 && t !in g2
    requires (if rank == 0 then g0 + [t] else g0) + (if rank == 1 then g1 + [t] else g1) + (if rank == 2 then g2 + [t] else g2) == ts + [t]
    ensures (rank < 2 ==> g2 == []) && (rank < 1 ==> g1 == [])
  {
    var h0 := if rank == 0 then g0 + [t] else g0;
    if rank < 2 {
      EndsIn(h0 + if rank == 1 then g1 + [t] else g1, g2, ts, t);
    }
    if rank == 0 {
      assert h0 + g1 + [] == h0 + g1;
      EndsIn(h0, g1, ts, t);
    }
  }

  lemma LastIn(xs: Ids, ys: Ids)
    requires ys != []
    ensures xs + ys != [] && (xs + ys)[|xs + ys| - 1] in ys
  {
  }

  lemma EndsIn(xs: Ids, ys: Ids, ts: Ids, t: StepId)
    requires xs + ys == ts + [t] && t !in ys
    ensures ys == []
  {
    if ys != [] {
      LastIn(xs, ys);
    }
  }

  lemma {:induction false} InOrderHasNoInversion(ids: Ids, a: nat, b: nat)
    requires Visits(ids, a, b) == Targets(ids, b)
    requires forall i, j :: 0 <= i < j < |Targets(ids, b)| ==> Targets(ids, b)[i] != Targets(ids, b)[j]
    ensures NoInversion(ids, a, b)
  {
    if |ids| > 0 {
      var front, x := ids[..|ids| - 1], ids[|ids| - 1];
      var g0, g1, g2 := Group(front, a, b, 0), Group(front, a, b, 1), Group(front, a, b, 2);
      if Within(x, b) {
        assert g0 + [] == g0 && g1 + [] == g1 && g2 + [] == g2;
        assert Targets(front, b) + [] == Targets(front, b);
        InOrderHasNoInversion(front, a, b);
      } else {
        LastOfGroup(front, x, a, b);
        InOrderHasNoInversion(front, a, b);
      }
      assert forall i :: 0 <= i < |front| ==> front[i] == ids[i];
    }
  }

  lemma LastOfGroup(front: Ids, x: StepId, a: nat, b: nat)
    requires !Within(x, b) && Visits(front + [x], a, b) == Targets(front + [x], b)
    requires var ts := Targets(front + [x], b); forall i, j :: 0 <= i < j < |ts| ==> ts[i] != ts[j]
    ensures Visits(front, a, b) == Targets(front, b)
    ensures var ts := Targets(front, b); forall i, j :: 0 <= i < j < |ts| ==> ts[i] != ts[j]
    ensures forall i :: 0 <= i < |front| && !Within(front[i], b) ==> Rank(front[i], a, b) <= Rank(x, a, b)
  {
    var g0, g1, g2 := Group(front, a, b, 0), Group(front, a, b, 1), Group(front, a, b, 2);
    var ts, t, rank := Targets(front, b), TrimmedId(x, b), Rank(x, a, b);
    Append(front, x);
    DistinctLast(ts, t);
    GroupMembers(front, a, b, 1);
    GroupMembers(front, a, b, 2);
    assert g0 + [] == g0 && g1 + [] == g1 && g2 + [] == g2;
    LastIsNew(g0, g1, g2, t, rank, ts);
    AppendToGroup(g0, g1, g2, t, rank);
    SameFront(g0 + g1 + g2, ts, t);
  }

  lemma DistinctLast(ts: Ids, t: StepId)
    requires var all := ts + [t]; forall i, j :: 0 <= i < j < |all| ==> all[i] != all[j]
    ensures t !in ts && forall i, j :: 0 <= i < j < |ts| ==> ts[i] != ts[j]
  {
    var all := ts + [t];
    assert forall i :: 0 <= i < |ts| ==> all[i] == ts[i];
    assert all[|ts|] == t;
  }

  lemma SameFront(xs: Ids, ys: Ids, t: StepId)
    requires xs + [t] == ys + [t]
    ensures xs == ys
  {
    assert xs == (xs + [t])[..|xs|] == (ys + [t])[..|xs|];
    assert |xs + [t]| == |ys + [t]|;
  }

  /** As long as no trimmed batches collapse, the order is kept exactly if no row stands before one of an earlier group. */
  lemma OrderExactly(ids: Ids, a: nat, b: nat)
    ensures NoInversion(ids, a, b) ==> Dedupe(Visits(ids, a, b), Kept(ids, b)) == Dedupe(Targets(ids, b), Kept(ids, b))
    ensures NoCollapse(ids, b) ==>
      (Dedupe(Visits(ids, a, b), Kept(ids, b)) == Dedupe(Targets(ids, b), Kept(ids, b)) <==> NoInversion(ids, a, b))
  {
    if NoInversion(ids, a, b) { NoInversionVisitsInOrder(ids, a, b); }
    if NoCollapse(ids, b) && Dedupe(Visits(ids, a, b), Kept(ids, b)) == Dedupe(Targets(ids, b), Kept(ids, b)) {
      DedupeIdle(Targets(ids, b), Kept(ids, b));
      VisitsEachOnce(ids, a, b);
      DedupeShrinks(Visits(ids, a, b), Kept(ids, b));
      InOrderHasNoInversion(ids, a, b);
    }
  }

  /** Two batches with blocks (5, 15) and (6, 25): trimmed at 20 and then at 10 they change places. */
  lemma TrimsMayReorder(q: Queue, k5: Key, k15: Key, k6: Key, k25: Key)
    requires ValidQueue(q) && IdsOf(q) == [SignalsId([k5, k15]), SignalsId([k6, k25])]
    requires k5.blockNumber == 5 && k15.blockNumber == 15 && k6.blockNumber == 6 && k25.blockNumber == 25
    ensures IdsOf(Trim(Trim(q, 20), 10)) == [SignalsId([k6]), SignalsId([k5])]
    ensures IdsOf(Trim(q, 10)) == [SignalsId([k5]), SignalsId([k6])]
  {
    var x, y := SignalsId([k5, k15]), SignalsId([k6, k25]);
    WitnessIds(k5, k15, k6, k25);
    TrimmedOrder(q, 10);
    TrimmedOrder(q, 20);
    TrimmedEventsAreWithin(q, 20);
    TrimmedOrder(Trim(q, 20), 10);
    BothShorten(x, y, 10);
    SecondShortens(x, y, 20);
    FirstShortens(x, SignalsId([k6]), 10);
  }

  lemma WitnessIds(k5: Key, k15: Key, k6: Key, k25: Key)
    requires k5.blockNumber == 5 && k15.blockNumber == 15 && k6.blockNumber == 6 && k25.blockNumber == 25
    ensures var x, y := SignalsId([k5, k15]), SignalsId([k6, k25]);
      && Within(x, 20) && !Within(y, 20) && TrimmedId(y, 20) == SignalsId([k6]) && Within(SignalsId([k6]), 10)
      && !Within(x, 10) && TrimmedId(x, 10) == SignalsId([k5]) && !Within(y, 10) && TrimmedId(y, 10) == SignalsId([k6])
  {
    IdOfTwo(k5, k15, 20);
    IdOfTwo(k6, k25, 20);
    IdOfTwo(k5, k15, 10);
    IdOfTwo(k6, k25, 10);
    assert [k6][..0] == [];
    assert KeysUpTo([k6], 10) == KeysUpTo([], 10) + [k6] == [k6];
  }

  lemma IdOfTwo(k: Key, l: Key, a: nat)
    requires k.blockNumber <= a
    ensures l.blockNumber <= a ==> Within(SignalsId([k, l]), a)
    ensures l.blockNumber > a ==> !Within(SignalsId([k, l]), a) && TrimmedId(SignalsId([k, l]), a) == SignalsId([k])
  {
    KeysOfTwo(k, l, a);
    assert [k] + [l] == [k, l] && [k] + [] == [k];
    assert [k] != [k, l];
  }

  lemma KeysOfTwo(k: Key, l: Key, a: nat)
    ensures KeysUpTo([k, l], a) == (if k.blockNumber <= a then [k] else []) + (if l.blockNumber <= a then [l] else [])
  {
    assert [k, l][..1] == [k] && [k][..0] == [];
    assert KeysUpTo([k], a) == KeysUpTo([], a) + if k.blockNumber <= a then [k] else [];
  }

  lemma TwoIds(x: StepId, y: StepId, a: nat)
    ensures Kept([x, y], a) == (if Within(x, a) then [x] else []) + (if Within(y, a) then [y] else [])
    ensures Targets([x, y], a) == (if Within(x, a) then [] else [TrimmedId(x, a)]) + (if Within(y, a) then [] else [TrimmedId(y, a)])
  {
    assert [x, y][..1] == [x] && [x][..0] == [];
    assert Kept([x], a) == Kept([], a) + if Within(x, a) then [x] else [];
    assert Targets([x], a) == Targets([], a) + if Within(x, a) then [] else [TrimmedId(x, a)];
  }

  lemma BothShorten(x: StepId, y: StepId, a: nat)
    requires !Within(x, a) && !Within(y, a)
    requires !Blank(TrimmedId(x, a)) && !Blank(TrimmedId(y, a)) && TrimmedId(x, a) != TrimmedId(y, a)
    ensures TrimmedIds([x, y], a) == [TrimmedId(x, a), TrimmedId(y, a)]
  {
    TwoIds(x, y, a);
    assert Kept([x, y], a) == [] && Targets([x, y], a) == [TrimmedId(x, a), TrimmedId(y, a)];
    DedupeIdle([TrimmedId(x, a), TrimmedId(y, a)], []);
  }

  lemma SecondShortens(x: StepId, y: StepId, a: nat)
    requires Within(x, a) && !Within(y, a) && !Blank(TrimmedId(y, a)) && TrimmedId(y, a) != x
    ensures TrimmedIds([x, y], a) == [x, TrimmedId(y, a)]
  {
    TwoIds(x, y, a);
    assert Kept([x, y], a) == [x] && Targets([x, y], a) == [TrimmedId(y, a)];
    DedupeOne(TrimmedId(y, a), [x]);
  }

  lemma FirstShortens(x: StepId, y: StepId, a: nat)
    requires !Within(x, a) && Within(y, a) && !Blank(TrimmedId(x, a)) && TrimmedId(x, a) != y
    ensures TrimmedIds([x, y], a) == [y, TrimmedId(x, a)]
  {
    TwoIds(x, y, a);
    DedupeOne(TrimmedId(x, a), [y]);
    JoinTwo(y, TrimmedId(x, a), [x, y], a);
  }

  lemma JoinTwo(k: StepId, t: StepId, ids: Ids, a: nat)
    requires Kept(ids, a) == [] + [k] && Targets(ids, a) == [t] + [] && Dedupe([t], [k]) == [t]
    ensures TrimmedIds(ids, a) == [k, t]
  {
    assert [] + [k] == [k] && [t] + [] == [t];
  }

  lemma DedupeOne(x: StepId, base: Ids)
    requires !Blank(x) && x !in base
    ensures Dedupe([x], base) == [x]
  {
    assert [x][..0] == [];
  }
}
