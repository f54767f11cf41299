/** The component pass pairs in sequence order: earlier steps with earlier ones, and the latest stay over. */
module AlignmentOrder {
  import opened Options
  import opened Ordering
  import opened ReplayModel
  import opened Alignment
  import opened AlignmentFacts
  import opened AlignmentTheorems

  lemma {:induction false} KeptAscends(p: ReplayStep -> bool, s: seq<ReplayStep>)
    requires SortedBy(SequenceLe, s)
    ensures SortedBy(SequenceLe, Kept(p, s))
  {
    if s != [] {
      KeptAscends(p, s[1..]);
      forall x | x in Kept(p, s[1..]) ensures SequenceLe(s[0], x) {
        InKept(p, s[1..], x);
        var i :| 0 <= i < |s[1..]| && s[1..][i] == x;
        assert s[i + 1] == x;
      }
    }
  }

  lemma GroupAscends(k: Id, steps: seq<ReplayStep>)
    ensures SortedBy(SequenceLe, Group(k, steps))
  {
    assert TotalPreorder(SequenceLe);
    StableSortSorts(SequenceLe, steps);
    KeptAscends((s: ReplayStep) => s.componentId == Some(k), StableSort(SequenceLe, steps));
  }

  /** A component pair joins the steps at one position of the two groups. */
  lemma {:induction false} PositionOf(components: seq<int>, b: seq<ReplayStep>, c: seq<ReplayStep>, p: StepPair) returns (i: nat)
    requires UniqueIds(b) && UniqueIds(c) && p in PairsOnComponents(components, b, c)
    ensures Joins(p, ByComponent) && p.baseline.value.componentId.Some? && p.baseline.value.componentId.value in components
    ensures var k := p.baseline.value.componentId.value;
      && p.candidate.value.componentId == Some(k)
      && i < |Group(k, b)| && i < |Group(k, c)| && p.baseline.value == Group(k, b)[i] && p.candidate.value == Group(k, c)[i]
  {
    var last := |components| - 1;
    if p in PairsOnComponents(components[..last], b, c) {
      hide Group, Zip;
      i := PositionOf(components[..last], b, c, p);
    } else {
      var k := components[last];
      GroupFacts(k, b);
      GroupFacts(k, c);
      hide Group;
      var zipped := Zip(Group(k, b), Group(k, c));
      assert p in zipped;
      i :| 0 <= i < |zipped| && zipped[i] == p;
      assert Group(k, b)[i] in Group(k, b) && Group(k, c)[i] in Group(k, c);
    }
  }

  /** Component pairs come from the third pass, over what the first two left. */
  lemma FromThirdPass(b: seq<ReplayStep>, c: seq<ReplayStep>, p: StepPair)
    requires UniqueIds(b) && UniqueIds(c) && p in Align(b, c) && p.how.ByComponent?
    ensures var r := RunPasses(b, c);
      p in PairsByComponent(r.b2, r.c2) && UniqueIds(r.b2) && UniqueIds(r.c2)
  {
    var r := RunPasses(b, c);
    PassesSplit(b, c);
    MembersOfPermutation(Align(b, c), Unsorted(b, c));
    hide PairsByKey, PairsByComponent, Left, StableSort, Unsorted, UniqueIds, TakesFrom, Removed, Added;
    KeyPassTakes(BySourceEvent, EventKey, b, c);
    KeyPassTakes(BySequenceNumber, SequenceKey, r.b1, r.c1);
    InUnsorted(b, c, p);
    InRemovedOrAdded(r.b3, p);
    InRemovedOrAdded(r.c3, p);
  }

  lemma PassKeepsOrder(b: seq<ReplayStep>, c: seq<ReplayStep>, p: StepPair, q: StepPair)
    requires UniqueIds(b) && UniqueIds(c) && p in PairsByComponent(b, c) && q in PairsByComponent(b, c)
    requires Joins(p, ByComponent) && Joins(q, ByComponent) && p.baseline.value.componentId == q.baseline.value.componentId
    ensures p.baseline.value.sequenceNumber < q.baseline.value.sequenceNumber ==>
      p.candidate.value.sequenceNumber <= q.candidate.value.sequenceNumber
  {
    hide PairsOnComponents, SharedComponents, Group, UniqueIds;
    var i := PositionOf(SharedComponents(b, c), b, c, p);
    var j := PositionOf(SharedComponents(b, c), b, c, q);
    var k := p.baseline.value.componentId.value;
    GroupAscends(k, b);
    GroupAscends(k, c);
    if i > j { assert SequenceLe(Group(k, b)[j], Group(k, b)[i]); }
    if i < j { assert SequenceLe(Group(k, c)[i], Group(k, c)[j]); }
  }

  /** Two pairs of one component never cross. */
  lemma ComponentPairsInOrder(b: seq<ReplayStep>, c: seq<ReplayStep>, p: StepPair, q: StepPair)
    requires UniqueIds(b) && UniqueIds(c) && p in Align(b, c) && q in Align(b, c)
    requires Joins(p, ByComponent) && Joins(q, ByComponent) && p.baseline.value.componentId == q.baseline.value.componentId
    ensures p.baseline.value.sequenceNumber < q.baseline.value.sequenceNumber ==>
      p.candidate.value.sequenceNumber <= q.candidate.value.sequenceNumber
  {
    hide RunPasses, Align, UniqueIds, PairsByComponent;
    FromThirdPass(b, c, p);
    FromThirdPass(b, c, q);
    PassKeepsOrder(RunPasses(b, c).b2, RunPasses(b, c).c2, p, q);
  }

  lemma PassLeavesLatest(b: seq<ReplayStep>, c: seq<ReplayStep>, p: StepPair, x: ReplayStep)
    requires UniqueIds(b) && UniqueIds(c) && p in PairsByComponent(b, c) && Joins(p, ByComponent)
    requires x.componentId == p.baseline.value.componentId
    ensures x in b && x !in Side(BaselineOf, PairsByComponent(b, c)) ==> p.baseline.value.sequenceNumber <= x.sequenceNumber
    ensures x in c && x !in Side(CandidateOf, PairsByComponent(b, c)) ==> p.candidate.value.sequenceNumber <= x.sequenceNumber
  {
    var components := SharedComponents(b, c);
    hide SharedComponents, Group, UniqueIds, Side;
    var i := PositionOf(components, b, c, p);
    var k := p.baseline.value.componentId.value;
    GroupFacts(k, b);
    GroupFacts(k, c);
    GroupAscends(k, b);
    GroupAscends(k, c);
    if x in b && x !in Side(BaselineOf, PairsByComponent(b, c)) {
      var j :| 0 <= j < |Group(k, b)| && Group(k, b)[j] == x;
      if j < i { TakenEarlier(components, b, c, k, j); }
      assert i <= j ==> i == j || SequenceLe(Group(k, b)[i], Group(k, b)[j]);
    }
    if x in c && x !in Side(CandidateOf, PairsByComponent(b, c)) {
      var j :| 0 <= j < |Group(k, c)| && Group(k, c)[j] == x;
      if j < i { TakenEarlier(components, b, c, k, j); }
      assert i <= j ==> i == j || SequenceLe(Group(k, c)[i], Group(k, c)[j]);
    }
  }

  /** Every position both groups of a shared component have is paired. */
  lemma {:induction false} TakenEarlier(components: seq<int>, b: seq<ReplayStep>, c: seq<ReplayStep>, k: int, j: nat)
    requires k in components && j < |Group(k, b)| && j < |Group(k, c)|
    ensures Group(k, b)[j] in Side(BaselineOf, PairsOnComponents(components, b, c))
    ensures Group(k, c)[j] in Side(CandidateOf, PairsOnComponents(components, b, c))
  {
    hide Group, Side;
    var last := |components| - 1;
    var front, zipped := PairsOnComponents(components[..last], b, c), Zip(Group(components[last], b), Group(components[last], c));
    SideConcat(BaselineOf, front, zipped);
    SideConcat(CandidateOf, front, zipped);
    if k == components[last] {
      var pair := zipped[j];
      assert pair in zipped && BaselineOf(pair) == Some(Group(k, b)[j]) && CandidateOf(pair) == Some(Group(k, c)[j]);
      InSide(BaselineOf, zipped, Group(k, b)[j]);
      InSide(CandidateOf, zipped, Group(k, c)[j]);
    } else {
      assert components == components[..last] + [components[last]];
      TakenEarlier(components[..last], b, c, k, j);
    }
  }

  /** What stays over of a component that was paired is never earlier than what was paired. */
  lemma LeftoversComeLater(b: seq<ReplayStep>, c: seq<ReplayStep>, p: StepPair, x: ReplayStep)
    requires UniqueIds(b) && UniqueIds(c) && p in Align(b, c) && Joins(p, ByComponent)
    requires x.componentId == p.baseline.value.componentId
    ensures StepPair(Unmatched, Some(x), None) in Align(b, c) ==> p.baseline.value.sequenceNumber <= x.sequenceNumber
    ensures StepPair(Unmatched, None, Some(x)) in Align(b, c) ==> p.candidate.value.sequenceNumber <= x.sequenceNumber
  {
    FromThirdPass(b, c, p);
    LeftOver(b, c, x);
    hide RunPasses, Align, UniqueIds, PairsByComponent, Side;
    PassLeavesLatest(RunPasses(b, c).b2, RunPasses(b, c).c2, p, x);
  }

  lemma LeftOver(b: seq<ReplayStep>, c: seq<ReplayStep>, x: ReplayStep)
    requires UniqueIds(b) && UniqueIds(c)
    ensures var r := RunPasses(b, c);
      && (StepPair(Unmatched, Some(x), None) in Align(b, c) ==> x in r.b2 && x !in Side(BaselineOf, PairsByComponent(r.b2, r.c2)))
      && (StepPair(Unmatched, None, Some(x)) in Align(b, c) ==> x in r.c2 && x !in Side(CandidateOf, PairsByComponent(r.b2, r.c2)))
  {
    var r := RunPasses(b, c);
    PassesSplit(b, c);
    UnmatchedAreLeft(b, c, x, x);
    hide PairsByKey, PairsByComponent, Left, Side, Align, Joins, TakesFrom, UniqueIds;
    ComponentPassTakes(r.b2, r.c2);
    PassSplits(BaselineOf, r.b2, r.p3);
    PassSplits(CandidateOf, r.c2, r.p3);
  }
}
