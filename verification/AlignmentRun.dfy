/** The matcher as it runs: indexes filled in loops, matched steps deleted from live dictionaries. */
module AlignmentRun {
  import opened Options
  import opened Ordering
  import opened ReplayModel
  import opened Alignment
  import opened AlignmentFacts
  import opened AlignmentTheorems

  /** `del remaining[id]`; the key must be there. */
  function Delete(steps: StepDict, id: Id): StepDict
    requires exists s :: s in steps && s.id == id
  {
    Kept((s: ReplayStep) => s.id != id, steps)
  }

  lemma {:induction false} DeleteTaken(steps: StepDict, ids: set<Id>, id: Id)
    ensures Kept((s: ReplayStep) => s.id != id, Without(steps, ids)) == Without(steps, ids + {id})
  {
    if steps != [] {
      DeleteTaken(steps[1..], ids, id);
      KeptConcat((s: ReplayStep) => s.id != id,
                 if steps[0].id !in ids then [steps[0]] else [], Without(steps[1..], ids));
      KeptOne((s: ReplayStep) => s.id != id, steps[0]);
    }
  }

  lemma {:induction false} NothingTaken(steps: StepDict)
    ensures Without(steps, {}) == steps
  {
    if steps != [] { NothingTaken(steps[1..]); }
  }

  /** In a list that takes distinct steps, the next one has not been deleted yet, and deleting it
      is taking one pair more. */
  lemma NextIsThere(of: StepPair -> Option<ReplayStep>, pairs: seq<StepPair>, n: nat, steps: StepDict)
    requires UniqueIds(steps) && TakesFrom(of, pairs, steps)
    requires n < |pairs| && of(pairs[n]).Some?
    ensures of(pairs[n]).value in Left(of, steps, pairs[..n])
    ensures Delete(Left(of, steps, pairs[..n]), of(pairs[n]).value.id) == Left(of, steps, pairs[..n] + [pairs[n]])
  {
    var s, before := of(pairs[n]).value, Side(of, pairs[..n]);
    assert pairs == pairs[..n] + [pairs[n]] + pairs[n + 1..];
    SideConcat(of, pairs[..n] + [pairs[n]], pairs[n + 1..]);
    SideConcat(of, pairs[..n], [pairs[n]]);
    assert Side(of, [pairs[n]]) == [s];
    hide Side, UniqueIds, Without;
    NotBefore(before, s, Side(of, pairs[n + 1..]));
    assert s in Side(of, pairs);
    TakenAndLeft(steps, before);
    DeleteTaken(steps, IdsOf(before), s.id);
    assert IdsOf(before + [s]) == IdsOf(before) + {s.id};
  }

  lemma NotBefore(before: seq<ReplayStep>, s: ReplayStep, after: seq<ReplayStep>)
    requires NoDuplicates(before + [s] + after)
    ensures s !in before && NoDuplicates(before)
    ensures forall x :: x in before || x == s ==> x in before + [s] + after
  {
    var all := before + [s] + after;
    assert all[|before|] == s;
    assert forall i :: 0 <= i < |before| ==> all[i] == before[i];
  }

  // ---------- indexes ----------

  method Index(steps: StepDict, key: ReplayStep -> int) returns (result: map<int, ReplayStep>)
    ensures result == IndexBy(key, steps)
  {
    result := map[];
    for i := 0 to |steps|
      invariant result == IndexBy(key, steps[..i])
    {
      assert steps[..i + 1][..i] == steps[..i];
      var k := key(steps[i]);
      if k !in result {
        result := result[k := steps[i]];
      }
    }
    assert steps[..|steps|] == steps;
  }

  method GroupByComponent(steps: StepDict) returns (groups: map<int, seq<ReplayStep>>)
    ensures groups.Keys == Components(steps)
    ensures forall k :: k in groups ==> groups[k] == Group(k, steps)
  {
    groups := map[];
    var sorted := StableSort(SequenceLe, steps);
    MembersOfPermutation(sorted, steps);
    for i := 0 to |sorted|
      invariant groups.Keys == Components(sorted[..i])
      invariant forall k :: k in groups ==> groups[k] == InComponent(k, sorted[..i])
    {
      var step := sorted[i];
      assert sorted[..i + 1] == sorted[..i] + [step];
      forall k ensures InComponent(k, sorted[..i + 1]) == InComponent(k, sorted[..i]) + if step.componentId == Some(k) then [step] else [] {
        InComponentAppend(k, sorted[..i], step);
      }
      if step.componentId.None? {
        continue;
      }
      var c := step.componentId.value;
      if c !in groups { NoneInComponent(c, sorted[..i]); }
      groups := groups[c := (if c in groups then groups[c] else []) + [step]];
    }
    assert sorted[..|sorted|] == sorted;
  }

  lemma InComponentAppend(k: Id, steps: seq<ReplayStep>, s: ReplayStep)
    ensures InComponent(k, steps + [s]) == InComponent(k, steps) + if s.componentId == Some(k) then [s] else []
  {
    KeptConcat((x: ReplayStep) => x.componentId == Some(k), steps, [s]);
    KeptOne((x: ReplayStep) => x.componentId == Some(k), s);
  }

  lemma {:induction false} NoneInComponent(k: Id, steps: seq<ReplayStep>)
    requires k !in Components(steps)
    ensures InComponent(k, steps) == []
  {
    if steps != [] {
      assert steps[0] in steps;
      NoneInComponent(k, steps[1..]);
    }
  }

  // ---------- the passes ----------

  /** Both dictionaries after the first `n` pairs of `all` were taken out of them. */
  ghost predicate LeftAfter(all: seq<StepPair>, n: nat, b: StepDict, c: StepDict, remainingB: StepDict, remainingC: StepDict)
    requires n <= |all|
  {
    remainingB == Left(BaselineOf, b, all[..n]) && remainingC == Left(CandidateOf, c, all[..n])
  }

  ghost predicate TakesBoth(all: seq<StepPair>, b: StepDict, c: StepDict) {
    && UniqueIds(b) && UniqueIds(c)
    && TakesFrom(BaselineOf, all, b) && TakesFrom(CandidateOf, all, c)
    && forall p :: p in all ==> p.baseline.Some? && p.candidate.Some?
  }

  lemma NothingLeftOut(all: seq<StepPair>, b: StepDict, c: StepDict)
    ensures LeftAfter(all, 0, b, c, b, c)
  {
    NothingTaken(b);
    NothingTaken(c);
    assert IdsOf(Side(BaselineOf, all[..0])) == {} && IdsOf(Side(CandidateOf, all[..0])) == {};
  }

  /** Record the next pair and delete both of its steps. */
  method TakePair(p: StepPair, pairs0: seq<StepPair>, remainingB0: StepDict, remainingC0: StepDict,
                  ghost all: seq<StepPair>, ghost n: nat, ghost b: StepDict, ghost c: StepDict)
    returns (pairs: seq<StepPair>, remainingB: StepDict, remainingC: StepDict)
    requires TakesBoth(all, b, c) && n < |all| && p == all[n] && p.baseline.Some? && p.candidate.Some?
    requires pairs0 == all[..n] && LeftAfter(all, n, b, c, remainingB0, remainingC0)
    ensures pairs == all[..n + 1] && LeftAfter(all, n + 1, b, c, remainingB, remainingC)
  {
    hide Left, TakesFrom, UniqueIds, Delete;
    NextIsThere(BaselineOf, all, n, b);
    NextIsThere(CandidateOf, all, n, c);
    assert all[..n + 1] == all[..n] + [all[n]];
    pairs := pairs0 + [p];
    remainingB := Delete(remainingB0, p.baseline.value.id);
    remainingC := Delete(remainingC0, p.candidate.value.id);
  }

  method KeyPass(how: Method, key: ReplayStep -> int, b: StepDict, c: StepDict)
    returns (pairs: seq<StepPair>, remainingB: StepDict, remainingC: StepDict)
    requires UniqueIds(b) && UniqueIds(c)
    ensures pairs == PairsByKey(how, key, b, c)
    ensures remainingB == Left(BaselineOf, b, pairs) && remainingC == Left(CandidateOf, c, pairs)
  {
    var bi := Index(b, key);
    var ci := Index(c, key);
    var keys := SharedKeys(bi, ci);
    ghost var all := PairsByKey(how, key, b, c);
    assert all == PairsOn(how, keys, bi, ci);
    KeyPassTakes(how, key, b, c);
    NothingLeftOut(all, b, c);
    hide LeftAfter, Left, TakesFrom, UniqueIds, IndexBy, PairsByKey, SharedKeys;
    pairs, remainingB, remainingC := [], b, c;
    for i := 0 to |keys|
      invariant pairs == all[..i] && LeftAfter(all, i, b, c, remainingB, remainingC)
    {
      var p := StepPair(how, Some(bi[keys[i]]), Some(ci[keys[i]]));
      pairs, remainingB, remainingC := TakePair(p, pairs, remainingB, remainingC, all, i, b, c);
    }
    assert all[..|all|] == all;
    LeftAfterAll(all, b, c, remainingB, remainingC);
  }

  lemma LeftAfterAll(all: seq<StepPair>, b: StepDict, c: StepDict, remainingB: StepDict, remainingC: StepDict)
    requires LeftAfter(all, |all|, b, c, remainingB, remainingC)
    ensures remainingB == Left(BaselineOf, b, all) && remainingC == Left(CandidateOf, c, all)
  {
    assert all[..|all|] == all;
  }

  lemma {:induction false} ComponentsPrefix(components: seq<int>, i: nat, b: StepDict, c: StepDict)
    requires i <= |components|
    ensures PairsOnComponents(components[..i], b, c) <= PairsOnComponents(components, b, c)
    decreases |components|
  {
    if i < |components| {
      var last := |components| - 1;
      ComponentsPrefix(components[..last], i, b, c);
      assert components[..last][..i] == components[..i];
    } else {
      assert components[..i] == components;
    }
  }

  method ComponentPass(b: StepDict, c: StepDict)
    returns (pairs: seq<StepPair>, remainingB: StepDict, remainingC: StepDict)
    requires UniqueIds(b) && UniqueIds(c)
    ensures pairs == PairsByComponent(b, c)
    ensures remainingB == Left(BaselineOf, b, pairs) && remainingC == Left(CandidateOf, c, pairs)
  {
    hide LeftAfter, Left, TakesBoth, UniqueIds, Group, Components, SharedComponents;
    var bGroups := GroupByComponent(b);
    var cGroups := GroupByComponent(c);
    var components := SharedComponents(b, c);
    ghost var all := PairsByComponent(b, c);
    assert all == PairsOnComponents(components, b, c);
    ComponentPassTakesBoth(b, c);
    NothingLeftOut(all, b, c);
    assert forall i :: 0 <= i < |components| ==> components[i] in components;
    hide PairsByComponent, PairsOnComponents;
    pairs, remainingB, remainingC := PairGroups(bGroups, cGroups, components, all, b, c);
    LeftAfterAll(all, b, c, remainingB, remainingC);
  }

  lemma ComponentPassTakesBoth(b: StepDict, c: StepDict)
    requires UniqueIds(b) && UniqueIds(c)
    ensures TakesBoth(PairsByComponent(b, c), b, c)
  {
    hide TakesFrom, UniqueIds, PairsByComponent;
    ComponentPassTakes(b, c);
  }

  method PairGroups(bGroups: map<int, seq<ReplayStep>>, cGroups: map<int, seq<ReplayStep>>, components: seq<int>,
                    ghost all: seq<StepPair>, b: StepDict, c: StepDict)
    returns (pairs: seq<StepPair>, remainingB: StepDict, remainingC: StepDict)
    requires TakesBoth(all, b, c) && all == PairsOnComponents(components, b, c)
    requires LeftAfter(all, 0, b, c, b, c)
    requires forall i :: 0 <= i < |components| ==> components[i] in bGroups && components[i] in cGroups
    requires forall k :: k in bGroups ==> bGroups[k] == Group(k, b)
    requires forall k :: k in cGroups ==> cGroups[k] == Group(k, c)
    ensures pairs == all && LeftAfter(all, |all|, b, c, remainingB, remainingC)
  {
    hide LeftAfter, TakesBoth, Group, Zip;
    pairs, remainingB, remainingC := [], b, c;
    for i := 0 to |components|
      invariant pairs == PairsOnComponents(components[..i], b, c) && |pairs| <= |all|
      invariant LeftAfter(all, |pairs|, b, c, remainingB, remainingC)
    {
      var k := components[i];
      ZipFollows(components, i, b, c);
      hide PairsOnComponents;
      pairs, remainingB, remainingC := ZipGroups(bGroups[k], cGroups[k], pairs, remainingB, remainingC, all, b, c);
    }
    assert components[..|components|] == components;
  }

  lemma ZipFollows(components: seq<int>, i: nat, b: StepDict, c: StepDict)
    requires i < |components|
    ensures var zipped := Zip(Group(components[i], b), Group(components[i], c));
      && PairsOnComponents(components[..i + 1], b, c) == PairsOnComponents(components[..i], b, c) + zipped
      && PairsOnComponents(components[..i], b, c) + zipped <= PairsOnComponents(components, b, c)
  {
    assert components[..i + 1][..i] == components[..i];
    ComponentsPrefix(components, i + 1, b, c);
  }

  /** The inner loop: `zip` over one shared component. */
  method ZipGroups(bList: seq<ReplayStep>, cList: seq<ReplayStep>,
                   pairs0: seq<StepPair>, remainingB0: StepDict, remainingC0: StepDict,
                   ghost all: seq<StepPair>, ghost b: StepDict, ghost c: StepDict)
    returns (pairs: seq<StepPair>, remainingB: StepDict, remainingC: StepDict)
    requires TakesBoth(all, b, c) && pairs0 + Zip(bList, cList) <= all
    requires LeftAfter(all, |pairs0|, b, c, remainingB0, remainingC0)
    ensures pairs == pairs0 + Zip(bList, cList)
    ensures LeftAfter(all, |pairs|, b, c, remainingB, remainingC)
  {
    hide LeftAfter, TakesBoth;
    var n := if |bList| <= |cList| then |bList| else |cList|;
    ghost var whole := pairs0 + Zip(bList, cList);
    assert whole == all[..|pairs0| + n];
    pairs, remainingB, remainingC := pairs0, remainingB0, remainingC0;
    for i := 0 to n
      invariant pairs == all[..|pairs0| + i]
      invariant LeftAfter(all, |pairs0| + i, b, c, remainingB, remainingC)
    {
      var p := StepPair(ByComponent, Some(bList[i]), Some(cList[i]));
      assert p == Zip(bList, cList)[i] == whole[|pairs0| + i] == all[|pairs0| + i];
      pairs, remainingB, remainingC := TakePair(p, pairs, remainingB, remainingC, all, |pairs0| + i, b, c);
    }
  }

  // ---------- all four ----------

  method AlignSteps(b: StepDict, c: StepDict) returns (pairs: seq<StepPair>)
    requires UniqueIds(b) && UniqueIds(c)
    ensures pairs == Align(b, c)
  {
    hide PairsByKey, PairsByComponent, Left, UniqueIds, StableSort;
    PassesSplit(b, c);
    ghost var r := RunPasses(b, c);
    var p1, b1, c1 := KeyPass(BySourceEvent, EventKey, b, c);
    var p2, b2, c2 := KeyPass(BySequenceNumber, SequenceKey, b1, c1);
    var p3, b3, c3 := ComponentPass(b2, c2);
    assert Passes(p1, b1, c1, p2, b2, c2, p3, b3, c3) == r;
    var rest := ReportUnmatched(b3, c3);
    pairs := p1 + p2 + p3 + rest;
    ConcatAssociates(p1 + p2 + p3, Removed(b3), Added(c3));
    pairs := StableSort(PairLe, pairs);
  }

  lemma ConcatAssociates<T>(x: seq<T>, y: seq<T>, z: seq<T>)
    ensures x + (y + z) == x + y + z
  {
  }

  method ReportUnmatched(remainingB: StepDict, remainingC: StepDict) returns (pairs: seq<StepPair>)
    ensures pairs == Removed(remainingB) + Added(remainingC)
  {
    pairs := [];
    for i := 0 to |remainingB|
      invariant pairs == Removed(remainingB)[..i]
    {
      pairs := pairs + [StepPair(Unmatched, Some(remainingB[i]), None)];
    }
    for i := 0 to |remainingC|
      invariant pairs == Removed(remainingB) + Added(remainingC)[..i]
    {
      pairs := pairs + [StepPair(Unmatched, None, Some(remainingC[i]))];
    }
  }
}
