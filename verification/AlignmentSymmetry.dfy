/** Runs over the same source events align one to one; swapping the sides mirrors the result. */
module AlignmentSymmetry {
  import opened Ordering
  import opened ReplayModel
  import opened Alignment
  import opened AlignmentFacts
  import opened AlignmentTheorems

  // ---------- the same source events on both sides ----------

  ghost predicate Replays(event: Id, steps: seq<ReplayStep>) {
    exists s :: s in steps && s.sourceEventId == event
  }

  ghost predicate SameEvents(b: seq<ReplayStep>, c: seq<ReplayStep>) {
    && (forall x :: x in b ==> Replays(x.sourceEventId, c))
    && (forall y :: y in c ==> Replays(y.sourceEventId, b))
  }

  /** Empty sides make no pairs. */
  lemma NoPairs(how: Method, key: ReplayStep -> int)
    ensures PairsByKey(how, key, [], []) == [] && PairsByComponent([], []) == []
  {
    KeyPassTakes(how, key, [], []);
    ComponentPassTakes([], []);
    NoSides(PairsByKey(how, key, [], []));
    NoSides(PairsByComponent([], []));
  }

  lemma NoSides(pairs: seq<StepPair>)
    requires TakesFrom(BaselineOf, pairs, []) && forall p :: p in pairs ==> p.baseline.Some?
    ensures pairs == []
  {
    SideOfFull(BaselineOf, pairs);
    NoMembers(Side(BaselineOf, pairs));
  }

  lemma FirstPassTakesAll(b: seq<ReplayStep>, c: seq<ReplayStep>)
    requires UniqueIds(b) && UniqueIds(c) && UniqueKey(EventKey, b) && UniqueKey(EventKey, c) && SameEvents(b, c)
    ensures RunPasses(b, c).b1 == [] && RunPasses(b, c).c1 == []
  {
    var p1 := PairsByKey(BySourceEvent, EventKey, b, c);
    assert RunPasses(b, c).b1 == Left(BaselineOf, b, p1) && RunPasses(b, c).c1 == Left(CandidateOf, c, p1);
    hide RunPasses, PairsByKey, Left, Side, UniqueIds, UniqueKey, TakesFrom, Joins;
    KeyPassTakes(BySourceEvent, EventKey, b, c);
    PassSplits(BaselineOf, b, p1);
    PassSplits(CandidateOf, c, p1);
    forall x | x in b ensures x in Side(BaselineOf, p1) {
      assert Replays(x.sourceEventId, c);
      var y :| y in c && y.sourceEventId == x.sourceEventId;
      KeyPassExhausts(BySourceEvent, EventKey, b, c, x, y);
    }
    forall y | y in c ensures y in Side(CandidateOf, p1) {
      assert Replays(y.sourceEventId, b);
      var x :| x in b && x.sourceEventId == y.sourceEventId;
      KeyPassExhausts(BySourceEvent, EventKey, b, c, x, y);
    }
    NoMembers(Left(BaselineOf, b, p1));
    NoMembers(Left(CandidateOf, c, p1));
  }

  lemma NoMembers<T>(s: seq<T>)
    ensures (forall x :: x in s ==> false) ==> s == []
  {
    if s != [] { assert s[0] in s; }
  }

  /** Two runs over the same source events, each event once per run: every pair joins the two
      steps of one event, and every step is in one. */
  lemma SameEventsAlignOneToOne(b: seq<ReplayStep>, c: seq<ReplayStep>)
    requires UniqueIds(b) && UniqueIds(c) && UniqueKey(EventKey, b) && UniqueKey(EventKey, c) && SameEvents(b, c)
    ensures forall p :: p in Align(b, c) ==>
      && Joins(p, BySourceEvent) && p.baseline.value in b && p.candidate.value in c
      && p.baseline.value.sourceEventId == p.candidate.value.sourceEventId
    ensures |Align(b, c)| == |b| == |c|
  {
    OnlyFirstPass(b, c);
    var p1 := PairsByKey(BySourceEvent, EventKey, b, c);
    MembersOfPermutation(Align(b, c), p1);
    hide Align, UniqueIds, UniqueKey, SameEvents, PairsByKey, Side;
    KeyPassTakes(BySourceEvent, EventKey, b, c);
    forall p | p in p1 ensures p.baseline.value in b && p.candidate.value in c {
      InSide(BaselineOf, p1, p.baseline.value);
      InSide(CandidateOf, p1, p.candidate.value);
    }
    AlignmentPartitions(b, c);
    SideOfFullAlign(b, c);
  }

  lemma OnlyFirstPass(b: seq<ReplayStep>, c: seq<ReplayStep>)
    requires UniqueIds(b) && UniqueIds(c) && UniqueKey(EventKey, b) && UniqueKey(EventKey, c) && SameEvents(b, c)
    ensures Unsorted(b, c) == PairsByKey(BySourceEvent, EventKey, b, c)
  {
    FirstPassTakesAll(b, c);
    NoPairs(BySequenceNumber, SequenceKey);
    hide PairsByKey, PairsByComponent, Side, UniqueIds, UniqueKey, SameEvents, TakesFrom;
    var r := RunPasses(b, c);
    assert r.b2 == [] && r.c2 == [] && r.b3 == [] && r.c3 == [];
    assert Unsorted(b, c) == r.p1;
  }

  lemma SideOfFullAlign(b: seq<ReplayStep>, c: seq<ReplayStep>)
    requires forall p :: p in Align(b, c) ==> p.baseline.Some? && p.candidate.Some?
    requires multiset(Side(BaselineOf, Align(b, c))) == multiset(b)
    requires multiset(Side(CandidateOf, Align(b, c))) == multiset(c)
    ensures |Align(b, c)| == |b| == |c|
  {
    hide Align;
    SideOfFull(BaselineOf, Align(b, c));
    SideOfFull(CandidateOf, Align(b, c));
    MembersOfPermutation(Side(BaselineOf, Align(b, c)), b);
    MembersOfPermutation(Side(CandidateOf, Align(b, c)), c);
  }

  /** A run compared with itself pairs every step with itself. */
  lemma SelfAlignment(s: seq<ReplayStep>)
    requires UniqueIds(s) && UniqueKey(EventKey, s)
    ensures forall p :: p in Align(s, s) ==> Joins(p, BySourceEvent) && p.baseline == p.candidate
  {
    forall x | x in s ensures Replays(x.sourceEventId, s) { }
    hide Align, UniqueIds, Replays;
    SameEventsAlignOneToOne(s, s);
    forall p | p in Align(s, s) ensures p.baseline == p.candidate {
      var x, y := p.baseline.value, p.candidate.value;
      assert EventKey(x) == EventKey(y);
      assert x in s && y in s;
    }
  }

  // ---------- swapping the sides ----------

  function Flip(p: StepPair): StepPair { StepPair(p.how, p.candidate, p.baseline) }

  lemma {:induction false} FlipSides(pairs: seq<StepPair>)
    ensures Side(BaselineOf, Mapped(Flip, pairs)) == Side(CandidateOf, pairs)
    ensures Side(CandidateOf, Mapped(Flip, pairs)) == Side(BaselineOf, pairs)
  {
    if pairs != [] { FlipSides(pairs[1..]); }
  }

  lemma FlipKeyPass(how: Method, key: ReplayStep -> int, b: seq<ReplayStep>, c: seq<ReplayStep>)
    ensures PairsByKey(how, key, c, b) == Mapped(Flip, PairsByKey(how, key, b, c))
  {
    var bi, ci := IndexBy(key, b), IndexBy(key, c);
    assert bi.Keys * ci.Keys == ci.Keys * bi.Keys;
    assert SharedKeys(bi, ci) == SharedKeys(ci, bi);
  }

  lemma FlipZip(b: seq<ReplayStep>, c: seq<ReplayStep>)
    ensures Zip(c, b) == Mapped(Flip, Zip(b, c))
  {
  }

  lemma {:induction false} FlipComponents(components: seq<int>, b: seq<ReplayStep>, c: seq<ReplayStep>)
    ensures PairsOnComponents(components, c, b) == Mapped(Flip, PairsOnComponents(components, b, c))
  {
    hide Zip, Group;
    if components != [] {
      var last := |components| - 1;
      FlipComponents(components[..last], b, c);
      FlipZip(Group(components[last], b), Group(components[last], c));
      MappedConcat(Flip, PairsOnComponents(components[..last], b, c), Zip(Group(components[last], b), Group(components[last], c)));
    }
  }

  lemma FlipComponentPass(b: seq<ReplayStep>, c: seq<ReplayStep>)
    ensures PairsByComponent(c, b) == Mapped(Flip, PairsByComponent(b, c))
  {
    assert Components(b) * Components(c) == Components(c) * Components(b);
    FlipComponents(SharedComponents(b, c), b, c);
  }

  lemma FlipPasses(b: seq<ReplayStep>, c: seq<ReplayStep>)
    ensures var r, m := RunPasses(b, c), RunPasses(c, b);
      && m.p1 == Mapped(Flip, r.p1) && m.p2 == Mapped(Flip, r.p2) && m.p3 == Mapped(Flip, r.p3)
      && m.b3 == r.c3 && m.c3 == r.b3
  {
    hide PairsByKey, PairsByComponent, Side, Without, Mapped;
    var r, m := RunPasses(b, c), RunPasses(c, b);
    FlipKeyPass(BySourceEvent, EventKey, b, c);
    FlipSides(r.p1);
    assert m.b1 == r.c1 && m.c1 == r.b1;
    FlipKeyPass(BySequenceNumber, SequenceKey, r.b1, r.c1);
    FlipSides(r.p2);
    assert m.b2 == r.c2 && m.c2 == r.b2;
    FlipComponentPass(r.b2, r.c2);
    FlipSides(r.p3);
  }

  lemma FlipUnmatched(steps: seq<ReplayStep>)
    ensures Mapped(Flip, Removed(steps)) == Added(steps)
    ensures Mapped(Flip, Added(steps)) == Removed(steps)
  {
  }

  /** Swapping the runs mirrors the pairs, counted with multiplicity. */
  lemma AlignmentSwaps(b: seq<ReplayStep>, c: seq<ReplayStep>)
    ensures multiset(Align(c, b)) == multiset(Mapped(Flip, Align(b, c)))
  {
    var r := RunPasses(b, c);
    FlipPasses(b, c);
    FlipUnmatched(r.b3);
    FlipUnmatched(r.c3);
    hide RunPasses, Removed, Added, StableSort;
    MappedConcat(Flip, r.p1 + r.p2 + r.p3 + Removed(r.b3), Added(r.c3));
    MappedConcat(Flip, r.p1 + r.p2 + r.p3, Removed(r.b3));
    MappedConcat(Flip, r.p1 + r.p2, r.p3);
    MappedConcat(Flip, r.p1, r.p2);
    MappedPermutation(Flip, Align(b, c), Unsorted(b, c));
    hide Mapped;
  }
}
