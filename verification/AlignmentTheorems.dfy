/** What the matcher guarantees as a whole. */
module AlignmentTheorems {
  import opened Options
  import opened Ordering
  import opened ReplayModel
  import opened Alignment
  import opened AlignmentFacts

  // ---------- partition ----------

  /** Step by step: what each pass takes and leaves of one side adds up to what it was given. */
  lemma PassSplits(of: StepPair -> Option<ReplayStep>, steps: seq<ReplayStep>, pairs: seq<StepPair>)
    requires UniqueIds(steps) && TakesFrom(of, pairs, steps)
    ensures UniqueIds(Left(of, steps, pairs))
    ensures multiset(Side(of, pairs)) + multiset(Left(of, steps, pairs)) == multiset(steps)
    ensures forall x :: x in Left(of, steps, pairs) <==> x in steps && x !in Side(of, pairs)
  {
    TakenAndLeft(steps, Side(of, pairs));
  }

  lemma PassesSplit(b: seq<ReplayStep>, c: seq<ReplayStep>)
    requires UniqueIds(b) && UniqueIds(c)
    ensures var r := RunPasses(b, c);
      && UniqueIds(r.b1) && UniqueIds(r.b2) && UniqueIds(r.b3) && UniqueIds(r.c1) && UniqueIds(r.c2) && UniqueIds(r.c3)
      && multiset(Side(BaselineOf, r.p1)) + multiset(Side(BaselineOf, r.p2)) + multiset(Side(BaselineOf, r.p3)) + multiset(r.b3) == multiset(b)
      && multiset(Side(CandidateOf, r.p1)) + multiset(Side(CandidateOf, r.p2)) + multiset(Side(CandidateOf, r.p3)) + multiset(r.c3) == multiset(c)
  {
    hide PairsByKey, PairsByComponent, Left, Side, UniqueIds, TakesFrom, Joins;
    var r := RunPasses(b, c);
    KeyPassTakes(BySourceEvent, EventKey, b, c);
    PassSplits(BaselineOf, b, r.p1);
    PassSplits(CandidateOf, c, r.p1);
    KeyPassTakes(BySequenceNumber, SequenceKey, r.b1, r.c1);
    PassSplits(BaselineOf, r.b1, r.p2);
    PassSplits(CandidateOf, r.c1, r.p2);
    ComponentPassTakes(r.b2, r.c2);
    PassSplits(BaselineOf, r.b2, r.p3);
    PassSplits(CandidateOf, r.c2, r.p3);
  }

  lemma {:induction false} UnmatchedSides(steps: seq<ReplayStep>)
    ensures Side(BaselineOf, Removed(steps)) == steps && Side(CandidateOf, Removed(steps)) == []
    ensures Side(BaselineOf, Added(steps)) == [] && Side(CandidateOf, Added(steps)) == steps
  {
    if steps != [] { UnmatchedSides(steps[1..]); }
  }

  lemma UnsortedSide(of: StepPair -> Option<ReplayStep>, b: seq<ReplayStep>, c: seq<ReplayStep>)
    ensures var r := RunPasses(b, c);
      Side(of, Unsorted(b, c)) == Side(of, r.p1) + Side(of, r.p2) + Side(of, r.p3) + Side(of, Removed(r.b3)) + Side(of, Added(r.c3))
  {
    hide RunPasses, Side;
    var r := RunPasses(b, c);
    SideConcat(of, r.p1 + r.p2 + r.p3 + Removed(r.b3), Added(r.c3));
    SideConcat(of, r.p1 + r.p2 + r.p3, Removed(r.b3));
    SideConcat(of, r.p1 + r.p2, r.p3);
    SideConcat(of, r.p1, r.p2);
  }

  /** Every baseline step and every candidate step occurs in exactly one pair. */
  lemma AlignmentPartitions(b: seq<ReplayStep>, c: seq<ReplayStep>)
    requires UniqueIds(b) && UniqueIds(c)
    ensures multiset(Side(BaselineOf, Align(b, c))) == multiset(b)
    ensures multiset(Side(CandidateOf, Align(b, c))) == multiset(c)
  {
    hide RunPasses, Side, Unsorted, StableSort;
    var r := RunPasses(b, c);
    SideOfPermutation(BaselineOf, Align(b, c), Unsorted(b, c));
    SideOfPermutation(CandidateOf, Align(b, c), Unsorted(b, c));
    UnsortedSide(BaselineOf, b, c);
    UnsortedSide(CandidateOf, b, c);
    UnmatchedSides(r.b3);
    UnmatchedSides(r.c3);
    PassesSplit(b, c);
  }

  // ---------- what a pair means ----------

  /** A pair is what its method says; no pair is empty. */
  ghost predicate Justified(p: StepPair) {
    match p.how
    case BySourceEvent => Joins(p, p.how) && p.baseline.value.sourceEventId == p.candidate.value.sourceEventId
    case BySequenceNumber => Joins(p, p.how) && p.baseline.value.sequenceNumber == p.candidate.value.sequenceNumber
    case ByComponent => Joins(p, p.how) && p.baseline.value.componentId.Some?
                        && p.baseline.value.componentId == p.candidate.value.componentId
    case Unmatched => p.baseline.Some? != p.candidate.Some?
  }

  lemma AlignmentJustified(b: seq<ReplayStep>, c: seq<ReplayStep>, p: StepPair)
    requires UniqueIds(b) && UniqueIds(c) && p in Align(b, c)
    ensures Justified(p)
  {
    hide RunPasses, StableSort;
    var r := RunPasses(b, c);
    MembersOfPermutation(Align(b, c), Unsorted(b, c));
    PassesSplit(b, c);
    UnsortedJustified(b, c, p);
  }

  lemma UnsortedJustified(b: seq<ReplayStep>, c: seq<ReplayStep>, p: StepPair)
    requires UniqueIds(b) && UniqueIds(c) && p in Unsorted(b, c)
    ensures Justified(p)
  {
    hide PairsByKey, PairsByComponent, Left;
    var r := RunPasses(b, c);
    PassesSplit(b, c);
    KeyPassTakes(BySourceEvent, EventKey, b, c);
    KeyPassTakes(BySequenceNumber, SequenceKey, r.b1, r.c1);
    ComponentPassTakes(r.b2, r.c2);
    assert p in r.p1 || p in r.p2 || p in r.p3 || p in Removed(r.b3) || p in Added(r.c3);
  }

  lemma AlignmentSorted(b: seq<ReplayStep>, c: seq<ReplayStep>)
    ensures SortedBy(PairLe, Align(b, c))
  {
    StableSortSorts(PairLe, Unsorted(b, c));
  }

  /** A pair with a baseline step comes before one without; the former are in order of its sequence number, the latter
      of the candidate's. */
  predicate InReportOrder(p: StepPair, q: StepPair) {
    && (q.baseline.Some? ==> p.baseline.Some? && p.baseline.value.sequenceNumber <= q.baseline.value.sequenceNumber)
    && (p.baseline.None? && p.candidate.Some? && q.candidate.Some? ==>
          q.baseline.None? && p.candidate.value.sequenceNumber <= q.candidate.value.sequenceNumber)
  }

  lemma AlignmentInReportOrder(b: seq<ReplayStep>, c: seq<ReplayStep>)
    ensures SortedBy(InReportOrder, Align(b, c))
  {
    AlignmentSorted(b, c);
    hide Align;
    forall p, q | PairLe(p, q) ensures InReportOrder(p, q) { }
    hide PairLe, InReportOrder;
  }

  // ---------- maximality ----------

  ghost predicate UniqueKey(key: ReplayStep -> int, steps: seq<ReplayStep>) {
    forall x, y :: x in steps && y in steps && key(x) == key(y) ==> x == y
  }

  lemma KeyPassExhausts(how: Method, key: ReplayStep -> int, b: seq<ReplayStep>, c: seq<ReplayStep>, x: ReplayStep, y: ReplayStep)
    requires UniqueKey(key, b) && UniqueKey(key, c)
    requires x in b && y in c && key(x) == key(y)
    ensures x in Side(BaselineOf, PairsByKey(how, key, b, c)) && y in Side(CandidateOf, PairsByKey(how, key, b, c))
    ensures StepPair(how, Some(x), Some(y)) in PairsByKey(how, key, b, c)
  {
    var bi, ci := IndexBy(key, b), IndexBy(key, c);
    IndexSound(key, b);
    IndexSound(key, c);
    var keys, pairs := SharedKeys(bi, ci), PairsByKey(how, key, b, c);
    hide IndexBy, SharedKeys;
    var i :| 0 <= i < |keys| && keys[i] == key(x);
    var p := StepPair(how, Some(x), Some(y));
    assert pairs[i] == p && p in pairs;
    assert BaselineOf(p) == Some(x) && CandidateOf(p) == Some(y);
    InSide(BaselineOf, pairs, x);
    InSide(CandidateOf, pairs, y);
  }

  /** No unmatched baseline step shares a component with an unmatched candidate step; with unique
      source events (sequence numbers) per side, none shares its event (its number) either. */
  lemma AlignmentIsMaximal(b: seq<ReplayStep>, c: seq<ReplayStep>, x: ReplayStep, y: ReplayStep)
    requires UniqueIds(b) && UniqueIds(c)
    requires StepPair(Unmatched, Some(x), None) in Align(b, c) && StepPair(Unmatched, None, Some(y)) in Align(b, c)
    ensures x.componentId.None? || x.componentId != y.componentId
    ensures UniqueKey(EventKey, b) && UniqueKey(EventKey, c) ==> x.sourceEventId != y.sourceEventId
    ensures UniqueKey(SequenceKey, b) && UniqueKey(SequenceKey, c) ==> x.sequenceNumber != y.sequenceNumber
  {
    LeftoversOf(b, c, x, y);
    var r := RunPasses(b, c);
    hide RunPasses, UniqueIds, Align;
    if x.sourceEventId == y.sourceEventId && UniqueKey(EventKey, b) && UniqueKey(EventKey, c) {
      KeyPassExhausts(BySourceEvent, EventKey, b, c, x, y);
    }
    if x.sequenceNumber == y.sequenceNumber && UniqueKey(SequenceKey, b) && UniqueKey(SequenceKey, c) {
      KeyPassExhausts(BySequenceNumber, SequenceKey, r.b1, r.c1, x, y);
    }
    if x.componentId.Some? && x.componentId == y.componentId {
      ComponentExhausts(r.b2, r.c2, x, y);
    }
  }

  lemma ComponentExhausts(b: seq<ReplayStep>, c: seq<ReplayStep>, x: ReplayStep, y: ReplayStep)
    requires UniqueIds(b) && UniqueIds(c) && x in b && y in c
    requires x.componentId.Some? && x.componentId == y.componentId
    ensures x in Side(BaselineOf, PairsByComponent(b, c)) || y in Side(CandidateOf, PairsByComponent(b, c))
  {
    var k := x.componentId.value;
    assert k in Components(b) && k in Components(c);
    hide Group, Side;
    ComponentUsedUp(SharedComponents(b, c), b, c, k);
    GroupFacts(k, b);
    GroupFacts(k, c);
  }

  /** Unmatched steps went through all three passes untaken. */
  lemma LeftoversOf(b: seq<ReplayStep>, c: seq<ReplayStep>, x: ReplayStep, y: ReplayStep)
    requires UniqueIds(b) && UniqueIds(c)
    requires StepPair(Unmatched, Some(x), None) in Align(b, c) && StepPair(Unmatched, None, Some(y)) in Align(b, c)
    ensures var r := RunPasses(b, c);
      && x in b && x !in Side(BaselineOf, PairsByKey(BySourceEvent, EventKey, b, c))
      && x in r.b1 && x !in Side(BaselineOf, PairsByKey(BySequenceNumber, SequenceKey, r.b1, r.c1))
      && x in r.b2 && x !in Side(BaselineOf, PairsByComponent(r.b2, r.c2))
      && y in c && y !in Side(CandidateOf, PairsByKey(BySourceEvent, EventKey, b, c))
      && y in r.c1 && y !in Side(CandidateOf, PairsByKey(BySequenceNumber, SequenceKey, r.b1, r.c1))
      && y in r.c2 && y !in Side(CandidateOf, PairsByComponent(r.b2, r.c2))
      && UniqueIds(r.b2) && UniqueIds(r.c2)
      && (forall z :: z in r.b1 ==> z in b) && (forall z :: z in r.c1 ==> z in c)
  {
    var r := RunPasses(b, c);
    PassesSplit(b, c);
    UnmatchedAreLeft(b, c, x, y);
    hide PairsByKey, PairsByComponent, Left, Side, Align, Joins, TakesFrom, UniqueIds;
    KeyPassTakes(BySourceEvent, EventKey, b, c);
    PassSplits(BaselineOf, b, r.p1);
    PassSplits(CandidateOf, c, r.p1);
    KeyPassTakes(BySequenceNumber, SequenceKey, r.b1, r.c1);
    PassSplits(BaselineOf, r.b1, r.p2);
    PassSplits(CandidateOf, r.c1, r.p2);
    ComponentPassTakes(r.b2, r.c2);
    PassSplits(BaselineOf, r.b2, r.p3);
    PassSplits(CandidateOf, r.c2, r.p3);
  }

  lemma InUnsorted(b: seq<ReplayStep>, c: seq<ReplayStep>, p: StepPair)
    ensures var r := RunPasses(b, c);
      p in Unsorted(b, c) <==> p in r.p1 || p in r.p2 || p in r.p3 || p in Removed(r.b3) || p in Added(r.c3)
  {
    hide RunPasses, Removed, Added;
    var r := RunPasses(b, c);
    assert p in r.p1 + r.p2 <==> p in r.p1 || p in r.p2;
    assert p in r.p1 + r.p2 + r.p3 + Removed(r.b3) <==> p in r.p1 + r.p2 + r.p3 || p in Removed(r.b3);
  }

  lemma InRemovedOrAdded(steps: seq<ReplayStep>, p: StepPair)
    ensures p in Removed(steps) <==> exists s :: s in steps && p == StepPair(Unmatched, Some(s), None)
    ensures p in Added(steps) <==> exists s :: s in steps && p == StepPair(Unmatched, None, Some(s))
  {
    var removed, added := Removed(steps), Added(steps);
    if s :| s in steps && p == StepPair(Unmatched, Some(s), None) {
      var i :| 0 <= i < |steps| && steps[i] == s;
      assert removed[i] == p;
    }
    if s :| s in steps && p == StepPair(Unmatched, None, Some(s)) {
      var i :| 0 <= i < |steps| && steps[i] == s;
      assert added[i] == p;
    }
  }

  lemma UnmatchedAreLeft(b: seq<ReplayStep>, c: seq<ReplayStep>, x: ReplayStep, y: ReplayStep)
    requires UniqueIds(b) && UniqueIds(c)
    ensures StepPair(Unmatched, Some(x), None) in Align(b, c) ==> x in RunPasses(b, c).b3
    ensures StepPair(Unmatched, None, Some(y)) in Align(b, c) ==> y in RunPasses(b, c).c3
  {
    var r := RunPasses(b, c);
    PassesSplit(b, c);
    MembersOfPermutation(Align(b, c), Unsorted(b, c));
    hide PairsByKey, PairsByComponent, Left, StableSort, Unsorted, UniqueIds, TakesFrom, Removed, Added;
    KeyPassTakes(BySourceEvent, EventKey, b, c);
    KeyPassTakes(BySequenceNumber, SequenceKey, r.b1, r.c1);
    ComponentPassTakes(r.b2, r.c2);
    var p, q := StepPair(Unmatched, Some(x), None), StepPair(Unmatched, None, Some(y));
    InUnsorted(b, c, p);
    InUnsorted(b, c, q);
    InRemovedOrAdded(r.b3, p);
    InRemovedOrAdded(r.c3, q);
    InRemovedOrAdded(r.b3, q);
    InRemovedOrAdded(r.c3, p);
  }
}
