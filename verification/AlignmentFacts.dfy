/** The matcher partitions both sides, pairs what it says it pairs, and leaves nothing it could match. */
module AlignmentFacts {
  import opened Options
  import opened Ordering
  import opened ReplayModel
  import opened Alignment

  // ---------- indexes and lists of pairs ----------

  lemma {:induction false} IndexSound(key: ReplayStep -> int, steps: seq<ReplayStep>)
    ensures forall k :: k in IndexBy(key, steps) ==> IndexBy(key, steps)[k] in steps && key(IndexBy(key, steps)[k]) == k
    ensures forall s :: s in steps ==> key(s) in IndexBy(key, steps)
  {
    if steps != [] {
      var last := |steps| - 1;
      IndexSound(key, steps[..last]);
      assert steps == steps[..last] + [steps[last]];
    }
  }

  lemma {:induction false} SideConcat(of: StepPair -> Option<ReplayStep>, x: seq<StepPair>, y: seq<StepPair>)
    ensures Side(of, x + y) == Side(of, x) + Side(of, y)
  {
    if x == [] {
      assert x + y == y;
    } else {
      var first := if of(x[0]).Some? then [of(x[0]).value] else [];
      assert (x + y)[0] == x[0] && (x + y)[1..] == x[1..] + y;
      assert Side(of, x + y) == first + Side(of, x[1..] + y) && Side(of, x) == first + Side(of, x[1..]);
      hide Side;
      SideConcat(of, x[1..], y);
      Associates(first, Side(of, x[1..]), Side(of, y));
    }
  }

  lemma {:induction false} SideOfPermutation(of: StepPair -> Option<ReplayStep>, x: seq<StepPair>, y: seq<StepPair>)
    requires multiset(x) == multiset(y)
    ensures multiset(Side(of, x)) == multiset(Side(of, y))
  {
    MembersOfPermutation(x, y);
    if x != [] {
      var i := TakeOut(x, y);
      var front, back := y[..i], y[i + 1..];
      SideOfPermutation(of, x[1..], front + back);
      SideConcat(of, front, back);
      SideSplit(of, y, i);
    }
  }

  lemma SideSplit(of: StepPair -> Option<ReplayStep>, y: seq<StepPair>, i: nat)
    requires i < |y|
    ensures Side(of, y) == Side(of, y[..i]) + (if of(y[i]).Some? then [of(y[i]).value] else []) + Side(of, y[i + 1..])
  {
    assert y == y[..i] + y[i..];
    var here := if of(y[i]).Some? then [of(y[i]).value] else [];
    SideFrom(of, y, i);
    hide Side;
    SideConcat(of, y[..i], y[i..]);
    Associates(Side(of, y[..i]), here, Side(of, y[i + 1..]));
  }

  lemma SideFrom(of: StepPair -> Option<ReplayStep>, y: seq<StepPair>, i: nat)
    requires i < |y|
    ensures Side(of, y[i..]) == (if of(y[i]).Some? then [of(y[i]).value] else []) + Side(of, y[i + 1..])
  {
    assert y[i..][0] == y[i] && y[i..][1..] == y[i + 1..];
  }

  lemma Associates<T>(a: seq<T>, b: seq<T>, c: seq<T>)
    ensures a + (b + c) == a + b + c
  {
  }

  lemma {:induction false} SideOfFull(of: StepPair -> Option<ReplayStep>, pairs: seq<StepPair>)
    requires forall i :: 0 <= i < |pairs| ==> of(pairs[i]).Some?
    ensures |Side(of, pairs)| == |pairs|
    ensures forall i :: 0 <= i < |pairs| ==> Side(of, pairs)[i] == of(pairs[i]).value
  {
    if pairs != [] { SideOfFull(of, pairs[1..]); }
  }

  lemma {:induction false} InSide(of: StepPair -> Option<ReplayStep>, pairs: seq<StepPair>, x: ReplayStep)
    ensures x in Side(of, pairs) <==> exists p :: p in pairs && of(p) == Some(x)
  {
    if pairs != [] {
      InSide(of, pairs[1..], x);
      assert pairs == [pairs[0]] + pairs[1..];
    }
  }

  // ---------- taking steps away ----------

  lemma {:induction false} UniqueIdsDistinct(steps: seq<ReplayStep>)
    requires UniqueIds(steps)
    ensures NoDuplicates(steps)
    ensures forall x, y :: x in steps && y in steps && x.id == y.id ==> x == y
  {
  }

  lemma {:induction false} CountDistinct<T(!new)>(s: seq<T>, x: T)
    requires NoDuplicates(s)
    ensures multiset(s)[x] == if x in s then 1 else 0
  {
    if s != [] {
      CountDistinct(s[1..], x);
      assert s == [s[0]] + s[1..];
    }
  }

  lemma {:induction false} KeptOrder<T(!new)>(p: T -> bool, s: seq<T>)
    requires NoDuplicates(s)
    ensures NoDuplicates(Kept(p, s))
  {
    if s != [] {
      KeptOrder(p, s[1..]);
      InKept(p, s[1..], s[0]);
    }
  }

  lemma {:induction false} WithoutUnique(steps: seq<ReplayStep>, ids: set<Id>)
    requires UniqueIds(steps)
    ensures UniqueIds(Without(steps, ids))
    ensures forall x :: x in Without(steps, ids) <==> x in steps && x.id !in ids
  {
    var keep := (s: ReplayStep) => s.id !in ids;
    forall x ensures x in Kept(keep, steps) <==> x in steps && x.id !in ids { InKept(keep, steps, x); }
    UniqueIdsDistinct(steps);
    KeptOrder(keep, steps);
    var r := Without(steps, ids);
    forall i, j | 0 <= i < j < |r| ensures r[i].id != r[j].id {
      assert r[i] in r && r[j] in r && r[i] != r[j];
    }
  }

  /** Taking distinct steps of a list away splits it. */
  lemma TakenAndLeft(steps: seq<ReplayStep>, taken: seq<ReplayStep>)
    requires UniqueIds(steps) && NoDuplicates(taken) && forall x :: x in taken ==> x in steps
    ensures UniqueIds(Without(steps, IdsOf(taken)))
    ensures forall x :: x in Without(steps, IdsOf(taken)) <==> x in steps && x !in taken
    ensures multiset(taken) + multiset(Without(steps, IdsOf(taken))) == multiset(steps)
  {
    hide Without;
    var left := Without(steps, IdsOf(taken));
    WithoutUnique(steps, IdsOf(taken));
    UniqueIdsDistinct(steps);
    UniqueIdsDistinct(left);
    forall x ensures multiset(taken)[x] + multiset(left)[x] == multiset(steps)[x] {
      CountDistinct(taken, x);
      CountDistinct(left, x);
      CountDistinct(steps, x);
    }
  }

  // ---------- each pass takes distinct steps of both sides ----------

  ghost predicate TakesFrom(of: StepPair -> Option<ReplayStep>, pairs: seq<StepPair>, steps: seq<ReplayStep>) {
    NoDuplicates(Side(of, pairs)) && forall x :: x in Side(of, pairs) ==> x in steps
  }

  ghost predicate Joins(p: StepPair, how: Method) {
    p.how == how && p.baseline.Some? && p.candidate.Some?
  }

  lemma KeyPassTakes(how: Method, key: ReplayStep -> int, b: seq<ReplayStep>, c: seq<ReplayStep>)
    ensures TakesFrom(BaselineOf, PairsByKey(how, key, b, c), b)
    ensures TakesFrom(CandidateOf, PairsByKey(how, key, b, c), c)
    ensures forall p :: p in PairsByKey(how, key, b, c) ==>
      Joins(p, how) && key(p.baseline.value) == key(p.candidate.value)
  {
    var bi, ci := IndexBy(key, b), IndexBy(key, c);
    IndexSound(key, b);
    IndexSound(key, c);
    hide IndexBy, SharedKeys;
    var keys, pairs := SharedKeys(bi, ci), PairsByKey(how, key, b, c);
    SideOfFull(BaselineOf, pairs);
    SideOfFull(CandidateOf, pairs);
    hide Side;
    DistinctByKey(key, Side(BaselineOf, pairs), keys);
    DistinctByKey(key, Side(CandidateOf, pairs), keys);
  }

  lemma DistinctByKey(key: ReplayStep -> int, steps: seq<ReplayStep>, keys: seq<int>)
    requires |steps| == |keys| && NoDuplicates(keys)
    requires forall i :: 0 <= i < |keys| ==> key(steps[i]) == keys[i]
    ensures NoDuplicates(steps)
  {
  }

  // ---------- the component pass ----------

  lemma GroupFacts(k: Id, steps: seq<ReplayStep>)
    requires UniqueIds(steps)
    ensures forall x :: x in Group(k, steps) <==> x in steps && x.componentId == Some(k)
    ensures NoDuplicates(Group(k, steps))
  {
    var sorted := StableSort(SequenceLe, steps);
    MembersOfPermutation(sorted, steps);
    var inComponent := (s: ReplayStep) => s.componentId == Some(k);
    forall x ensures x in Kept(inComponent, sorted) <==> x in steps && x.componentId == Some(k) {
      InKept(inComponent, sorted, x);
    }
    UniqueIdsDistinct(steps);
    DistinctPermutation(steps, sorted);
    KeptOrder(inComponent, sorted);
  }

  lemma DistinctPermutation<T(!new)>(a: seq<T>, b: seq<T>)
    requires NoDuplicates(a) && multiset(a) == multiset(b)
    ensures NoDuplicates(b)
  {
    forall i, j | 0 <= i < j < |b| ensures b[i] != b[j] {
      CountDistinct(a, b[i]);
      CountTwice(b, i, j);
    }
  }

  lemma CountTwice<T>(b: seq<T>, i: nat, j: nat)
    requires i < j < |b|
    ensures b[i] == b[j] ==> multiset(b)[b[i]] >= 2
  {
    assert b == b[..j] + b[j..];
    assert multiset(b) == multiset(b[..j]) + multiset(b[j..]);
    assert b[..j][i] in b[..j] && b[j..][0] in b[j..];
  }

  lemma ZipSides(b: seq<ReplayStep>, c: seq<ReplayStep>)
    ensures var n := if |b| <= |c| then |b| else |c|;
      Side(BaselineOf, Zip(b, c)) == b[..n] && Side(CandidateOf, Zip(b, c)) == c[..n]
  {
    SideOfFull(BaselineOf, Zip(b, c));
    SideOfFull(CandidateOf, Zip(b, c));
  }

  lemma ConcatDistinct<T(!new)>(a: seq<T>, b: seq<T>)
    requires NoDuplicates(a) && NoDuplicates(b) && forall x :: x in a ==> x !in b
    ensures NoDuplicates(a + b)
  {
    var r := a + b;
    forall i, j | 0 <= i < j < |r| ensures r[i] != r[j] {
      if i < |a| <= j { assert a[i] in a && b[j - |a|] in b; }
    }
  }

  ghost predicate InComponents(components: seq<int>, xs: seq<ReplayStep>) {
    forall x :: x in xs ==> exists k :: k in components && x.componentId == Some(k)
  }

  /** Distinct steps of `steps`, all belonging to the given components. */
  ghost predicate TakesGroups(of: StepPair -> Option<ReplayStep>, pairs: seq<StepPair>, components: seq<int>, steps: seq<ReplayStep>) {
    TakesFrom(of, pairs, steps) && InComponents(components, Side(of, pairs))
  }

  lemma {:induction false} ComponentsTake(components: seq<int>, b: seq<ReplayStep>, c: seq<ReplayStep>)
    requires UniqueIds(b) && UniqueIds(c) && NoDuplicates(components)
    ensures TakesGroups(BaselineOf, PairsOnComponents(components, b, c), components, b)
    ensures TakesGroups(CandidateOf, PairsOnComponents(components, b, c), components, c)
  {
    if components != [] {
      hide Zip, Group, TakesGroups;
      var last := |components| - 1;
      ComponentsTake(components[..last], b, c);
      ComponentTakes(components[last], b, c);
      var front, zipped := PairsOnComponents(components[..last], b, c), Zip(Group(components[last], b), Group(components[last], c));
      assert components == components[..last] + [components[last]];
      JoinGroups(BaselineOf, front, zipped, components[..last], components[last], b);
      JoinGroups(CandidateOf, front, zipped, components[..last], components[last], c);
    }
  }

  lemma ComponentTakes(k: int, b: seq<ReplayStep>, c: seq<ReplayStep>)
    requires UniqueIds(b) && UniqueIds(c)
    ensures TakesGroups(BaselineOf, Zip(Group(k, b), Group(k, c)), [k], b)
    ensures TakesGroups(CandidateOf, Zip(Group(k, b), Group(k, c)), [k], c)
  {
    hide Zip, Group, Side;
    GroupFacts(k, b);
    GroupFacts(k, c);
    ZipSides(Group(k, b), Group(k, c));
    assert k in [k];
  }

  lemma JoinGroups(of: StepPair -> Option<ReplayStep>, x: seq<StepPair>, y: seq<StepPair>, components: seq<int>, k: int, steps: seq<ReplayStep>)
    requires TakesGroups(of, x, components, steps) && TakesGroups(of, y, [k], steps) && k !in components
    ensures TakesGroups(of, x + y, components + [k], steps)
  {
    hide Side;
    SideConcat(of, x, y);
    JoinTakes(components, k, Side(of, x), Side(of, y));
  }

  lemma JoinTakes(components: seq<int>, k: int, xs: seq<ReplayStep>, ys: seq<ReplayStep>)
    requires NoDuplicates(xs) && NoDuplicates(ys) && InComponents(components, xs)
    requires k !in components && forall y :: y in ys ==> y.componentId == Some(k)
    ensures NoDuplicates(xs + ys) && InComponents(components + [k], xs + ys)
    ensures forall x :: x in xs + ys <==> x in xs || x in ys
  {
    ConcatDistinct(xs, ys);
    forall x | x in xs + ys ensures exists m :: m in components + [k] && x.componentId == Some(m) {
      if x in xs {
        var m :| m in components && x.componentId == Some(m);
        assert m in components + [k];
      } else {
        assert k in components + [k];
      }
    }
  }

  lemma {:induction false} ComponentPairsJoin(components: seq<int>, b: seq<ReplayStep>, c: seq<ReplayStep>, p: StepPair)
    requires UniqueIds(b) && UniqueIds(c) && p in PairsOnComponents(components, b, c)
    ensures Joins(p, ByComponent) && p.baseline.value.componentId.Some?
    ensures p.baseline.value.componentId == p.candidate.value.componentId
  {
    var last := |components| - 1;
    if p in PairsOnComponents(components[..last], b, c) {
      ComponentPairsJoin(components[..last], b, c, p);
    } else {
      GroupFacts(components[last], b);
      GroupFacts(components[last], c);
    }
  }

  /** One of the two sides of a shared component is used up. */
  lemma {:induction false} ComponentUsedUp(components: seq<int>, b: seq<ReplayStep>, c: seq<ReplayStep>, k: int)
    requires k in components
    ensures
      || (forall x :: x in Group(k, b) ==> x in Side(BaselineOf, PairsOnComponents(components, b, c)))
      || (forall x :: x in Group(k, c) ==> x in Side(CandidateOf, PairsOnComponents(components, b, c)))
  {
    hide Group;
    var last := |components| - 1;
    var front := PairsOnComponents(components[..last], b, c);
    var zipped := Zip(Group(components[last], b), Group(components[last], c));
    SideConcat(BaselineOf, front, zipped);
    SideConcat(CandidateOf, front, zipped);
    if k == components[last] {
      ZipSides(Group(k, b), Group(k, c));
    } else {
      assert components == components[..last] + [components[last]];
      ComponentUsedUp(components[..last], b, c, k);
    }
  }

  lemma ComponentPassTakes(b: seq<ReplayStep>, c: seq<ReplayStep>)
    requires UniqueIds(b) && UniqueIds(c)
    ensures TakesFrom(BaselineOf, PairsByComponent(b, c), b)
    ensures TakesFrom(CandidateOf, PairsByComponent(b, c), c)
    ensures forall p :: p in PairsByComponent(b, c) ==>
      && Joins(p, ByComponent) && p.baseline.value.componentId.Some?
      && p.baseline.value.componentId == p.candidate.value.componentId
  {
    var pairs := PairsByComponent(b, c);
    ComponentsTake(SharedComponents(b, c), b, c);
    forall p | p in pairs
      ensures Joins(p, ByComponent) && p.baseline.value.componentId.Some?
      ensures p.baseline.value.componentId == p.candidate.value.componentId
    {
      ComponentPairsJoin(SharedComponents(b, c), b, c, p);
    }
  }
}
