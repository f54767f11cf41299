/** The search lists exactly the components within `maxDepth` dependency hops of the root,
    each once, at its true shortest distance. */
module BlastRadiusExactness {
  import opened Ordering
  import opened BlastRadius

  // ---------- distance, stated on chains ----------

  ghost predicate Depends(g: Graph, x: int, y: int) {
    exists e :: e in Dependents(g, x) && e.componentId == y
  }

  /** Every component of the chain depends on the one before it. */
  ghost predicate IsChain(g: Graph, p: seq<int>) {
    p != [] && forall i :: 0 <= i < |p| - 1 ==> Depends(g, p[i], p[i + 1])
  }

  ghost predicate ChainTo(g: Graph, root: int, v: int, p: seq<int>) {
    IsChain(g, p) && p[0] == root && p[|p| - 1] == v
  }

  ghost predicate Distance(g: Graph, root: int, v: int, hops: nat) {
    && (exists p :: ChainTo(g, root, v, p) && |p| == hops + 1)
    && (forall p :: ChainTo(g, root, v, p) ==> |p| >= hops + 1)
  }

  // ---------- the invariant of the search ----------

  function ItemOf(e: Entry): Item { Item(e.componentId, e.depth, e.path) }

  /** Everything discovered so far, in order: the root, then the entries. */
  function Log(root: int, st: State): (log: seq<Item>)
    ensures |log| == |st.entries| + 1 && log[0] == Item(root, 0, [root])
    ensures forall i :: 0 <= i < |st.entries| ==> log[i + 1] == ItemOf(st.entries[i])
  {
    [Item(root, 0, [root])] + seq(|st.entries|, i requires 0 <= i < |st.entries| => ItemOf(st.entries[i]))
  }

  ghost predicate ItemSound(g: Graph, root: int, maxDepth: nat, item: Item) {
    ChainTo(g, root, item.id, item.path) && |item.path| == item.depth + 1 && item.depth <= maxDepth
  }

  /** `id` was discovered no deeper than `depth`. */
  ghost predicate Reached(log: seq<Item>, id: int, depth: int) {
    exists i :: 0 <= i < |log| && log[i].id == id && log[i].depth <= depth
  }

  ghost predicate Expanded(g: Graph, maxDepth: nat, log: seq<Item>, item: Item) {
    item.depth < maxDepth ==> forall e :: e in Dependents(g, item.id) ==> Reached(log, e.componentId, item.depth + 1)
  }

  /** After `done` items were popped: the queue is the rest of the log, depths never decrease along
      it, and nothing lies more than one level below the item popped last. */
  ghost predicate Inv(g: Graph, root: int, maxDepth: nat, st: State, done: nat) {
    LogInv(g, root, maxDepth, Log(root, st), st.visited, st.queue, done)
  }

  ghost predicate LogInv(g: Graph, root: int, maxDepth: nat, log: seq<Item>, visited: set<int>, queue: seq<Item>, done: nat) {
    && done <= |log| && queue == log[done..]
    && IsIdSet(visited, log)
    && (forall i, j :: 0 <= i < j < |log| ==> log[i].id != log[j].id && log[i].depth <= log[j].depth)
    && (forall i :: 0 <= i < |log| ==> ItemSound(g, root, maxDepth, log[i]))
    && (forall i :: 1 <= i < |log| ==> log[i].depth >= 1)
    && (done > 0 ==> forall i :: 0 <= i < |log| ==> log[i].depth <= log[done - 1].depth + 1)
    && (done == 0 ==> |log| == 1)
  }

  lemma StartInv(g: Graph, root: int, maxDepth: nat)
    ensures Inv(g, root, maxDepth, Start(root), 0)
  {
    var log := Log(root, Start(root));
    assert log == [Item(root, 0, [root])];
    assert ChainTo(g, root, root, [root]);
  }

  lemma ChainGrows(g: Graph, root: int, v: int, p: seq<int>, w: int)
    requires ChainTo(g, root, v, p) && Depends(g, v, w)
    ensures ChainTo(g, root, w, p + [w])
  {
    var q := p + [w];
    forall i | 0 <= i < |q| - 1 ensures Depends(g, q[i], q[i + 1]) {
      if i < |p| - 1 { assert Depends(g, p[i], p[i + 1]); }
    }
  }

  /** Appending a sound item one level below the item popped last keeps the invariant. */
  lemma AppendKeeps(g: Graph, root: int, maxDepth: nat, log: seq<Item>, visited: set<int>, queue: seq<Item>, item: Item, done: nat)
    requires LogInv(g, root, maxDepth, log, visited, queue, done) && 0 < done <= |log|
    requires item.id !in visited && item.depth == log[done - 1].depth + 1
    requires ItemSound(g, root, maxDepth, item)
    ensures LogInv(g, root, maxDepth, log + [item], visited + {item.id}, queue + [item], done)
  {
    hide ItemSound, IsIdSet;
    var log' := log + [item];
    assert queue + [item] == log'[done..];
    NotInLog(visited, log, item.id);
    VisitedGrows(visited, log, item);
  }

  ghost predicate IsIdSet(visited: set<int>, log: seq<Item>) {
    forall id :: id in visited <==> exists i :: 0 <= i < |log| && log[i].id == id
  }

  lemma NotInLog(visited: set<int>, log: seq<Item>, id: int)
    requires IsIdSet(visited, log) && id !in visited
    ensures forall i :: 0 <= i < |log| ==> log[i].id != id
  {
  }

  lemma VisitedGrows(visited: set<int>, log: seq<Item>, item: Item)
    requires IsIdSet(visited, log)
    ensures IsIdSet(visited + {item.id}, log + [item])
  {
    var log' := log + [item];
    forall id ensures id in visited + {item.id} <==> exists i :: 0 <= i < |log'| && log'[i].id == id {
      if id in visited {
        var i :| 0 <= i < |log| && log[i].id == id;
        assert log'[i].id == id;
      }
      assert log'[|log|].id == item.id;
    }
  }

  lemma NextItemSound(g: Graph, root: int, maxDepth: nat, e: Edge, from: Item)
    requires ItemSound(g, root, maxDepth, from) && from.depth < maxDepth && e in Dependents(g, from.id)
    ensures ItemSound(g, root, maxDepth, ItemOf(EntryFor(e, from)))
  {
    assert Depends(g, from.id, e.componentId);
    ChainGrows(g, root, from.id, from.path, e.componentId);
  }

  lemma VisitOneKeeps(g: Graph, root: int, maxDepth: nat, e: Edge, from: Item, st: State, done: nat)
    requires Inv(g, root, maxDepth, st, done) && 0 < done <= |Log(root, st)| && from == Log(root, st)[done - 1]
    requires from.depth < maxDepth && e in Dependents(g, from.id)
    ensures var r := VisitOne(e, from, st);
      && Inv(g, root, maxDepth, r, done) && Log(root, st) <= Log(root, r)
      && Reached(Log(root, r), e.componentId, from.depth + 1)
  {
    var log := Log(root, st);
    if e.componentId in st.visited {
      var i :| 0 <= i < |log| && log[i].id == e.componentId;
      assert log[i].depth <= from.depth + 1;
    } else {
      var item := ItemOf(EntryFor(e, from));
      NextItemSound(g, root, maxDepth, e, from);
      var log' := Log(root, VisitOne(e, from, st));
      assert log' == log + [item] && log'[|log|].id == e.componentId;
      hide LogInv, ItemSound;
      AppendKeeps(g, root, maxDepth, log, st.visited, st.queue, item, done);
    }
  }

  lemma {:induction false} VisitAllKeeps(g: Graph, root: int, maxDepth: nat, edges: seq<Edge>, from: Item, st: State, done: nat)
    requires Inv(g, root, maxDepth, st, done) && 0 < done <= |Log(root, st)| && from == Log(root, st)[done - 1]
    requires from.depth < maxDepth && forall e :: e in edges ==> e in Dependents(g, from.id)
    ensures var r := VisitAll(edges, from, st);
      && Inv(g, root, maxDepth, r, done) && Log(root, st) <= Log(root, r)
      && forall e :: e in edges ==> Reached(Log(root, r), e.componentId, from.depth + 1)
  {
    hide Inv, VisitOne, Log;
    if edges != [] {
      var last := |edges| - 1;
      VisitAllKeeps(g, root, maxDepth, edges[..last], from, st, done);
      var mid := VisitAll(edges[..last], from, st);
      VisitOneKeeps(g, root, maxDepth, edges[last], from, mid, done);
      var r := VisitOne(edges[last], from, mid);
      forall e | e in edges ensures Reached(Log(root, r), e.componentId, from.depth + 1) {
        if e != edges[last] {
          assert e in edges[..last];
          ReachedGrows(Log(root, mid), Log(root, r), e.componentId, from.depth + 1);
        }
      }
    } else {
      assert Log(root, st) <= Log(root, st);
    }
  }

  lemma ReachedGrows(log: seq<Item>, log': seq<Item>, id: int, depth: int)
    requires log <= log' && Reached(log, id, depth)
    ensures Reached(log', id, depth)
  {
    var i :| 0 <= i < |log| && log[i].id == id && log[i].depth <= depth;
    assert log'[i] == log[i];
  }

  lemma PopKeeps(g: Graph, root: int, maxDepth: nat, st: State, done: nat)
    requires Inv(g, root, maxDepth, st, done) && st.queue != []
    ensures done < |Log(root, st)| && st.queue[0] == Log(root, st)[done]
    ensures Log(root, st.(queue := st.queue[1..])) == Log(root, st)
    ensures Inv(g, root, maxDepth, st.(queue := st.queue[1..]), done + 1)
  {
    var log := Log(root, st);
    assert log[done..][1..] == log[done + 1..];
    if done > 0 { assert log[done - 1].depth <= log[done].depth; }
  }

  lemma StepKeeps(g: Graph, root: int, maxDepth: nat, st: State, done: nat)
    requires Inv(g, root, maxDepth, st, done) && st.queue != []
    ensures var r := Step(g, maxDepth, st);
      && Inv(g, root, maxDepth, r, done + 1) && done < |Log(root, r)| && Log(root, st) <= Log(root, r)
      && Expanded(g, maxDepth, Log(root, r), Log(root, r)[done])
  {
    hide Inv, Log, VisitAll;
    PopKeeps(g, root, maxDepth, st, done);
    var head, rest := st.queue[0], st.(queue := st.queue[1..]);
    assert Log(root, st) <= Log(root, st);
    if head.depth < maxDepth {
      var edges := SortedDependents(g, head.id);
      MembersOfPermutation(edges, Dependents(g, head.id));
      VisitAllKeeps(g, root, maxDepth, edges, head, rest, done + 1);
    }
  }

  lemma ExpandedGrows(g: Graph, maxDepth: nat, log: seq<Item>, log': seq<Item>, item: Item)
    requires log <= log' && Expanded(g, maxDepth, log, item)
    ensures Expanded(g, maxDepth, log', item)
  {
    if item.depth < maxDepth {
      forall e | e in Dependents(g, item.id) ensures Reached(log', e.componentId, item.depth + 1) {
        ReachedGrows(log, log', e.componentId, item.depth + 1);
      }
    }
  }

  /** At the end of the search everything discovered has been expanded. */
  lemma {:induction false} RunExpandsAll(g: Graph, root: int, maxDepth: nat, st: State, done: nat)
    requires Inv(g, root, maxDepth, st, done)
    requires forall i :: 0 <= i < done ==> Expanded(g, maxDepth, Log(root, st), Log(root, st)[i])
    ensures var r := Run(g, maxDepth, st);
      && Inv(g, root, maxDepth, r, |Log(root, r)|)
      && forall i :: 0 <= i < |Log(root, r)| ==> Expanded(g, maxDepth, Log(root, r), Log(root, r)[i])
    decreases Unvisited(g, st), |st.queue|
  {
    if st.queue == [] {
      assert done == |Log(root, st)|;
    } else {
      hide Inv, Log, Step, Expanded;
      StepKeeps(g, root, maxDepth, st, done);
      StepShrinks(g, maxDepth, st);
      var next := Step(g, maxDepth, st);
      forall i | 0 <= i < done + 1 ensures Expanded(g, maxDepth, Log(root, next), Log(root, next)[i]) {
        if i < done { ExpandedGrows(g, maxDepth, Log(root, st), Log(root, next), Log(root, st)[i]); }
      }
      RunExpandsAll(g, root, maxDepth, next, done + 1);
    }
  }

  /** In a fully expanded log, every chain within the bound ends at something discovered no deeper. */
  lemma {:induction false} ChainsAreReached(g: Graph, root: int, maxDepth: nat, log: seq<Item>, p: seq<int>)
    requires Reached(log, root, 0)
    requires forall i :: 0 <= i < |log| ==> Expanded(g, maxDepth, log, log[i])
    requires IsChain(g, p) && p[0] == root && |p| <= maxDepth + 1
    ensures Reached(log, p[|p| - 1], |p| - 1)
  {
    if |p| > 1 {
      var front := p[..|p| - 1];
      assert forall i :: 0 <= i < |front| - 1 ==> Depends(g, front[i], front[i + 1]) by {
        forall i | 0 <= i < |front| - 1 ensures Depends(g, front[i], front[i + 1]) { assert Depends(g, p[i], p[i + 1]); }
      }
      ChainsAreReached(g, root, maxDepth, log, front);
      var u, v := front[|front| - 1], p[|p| - 1];
      var i :| 0 <= i < |log| && log[i].id == u && log[i].depth <= |front| - 1;
      assert Depends(g, p[|p| - 2], p[|p| - 1]);
      var e :| e in Dependents(g, u) && e.componentId == v;
      assert Expanded(g, maxDepth, log, log[i]);
      assert Reached(log, v, log[i].depth + 1);
    }
  }

  // ---------- the main results ----------

  lemma FinalLog(g: Graph, root: int, maxDepth: nat) returns (log: seq<Item>)
    ensures |log| == |Search(g, root, maxDepth)| + 1 && log[0] == Item(root, 0, [root])
    ensures forall i :: 0 <= i < |log| - 1 ==> log[i + 1] == ItemOf(Search(g, root, maxDepth)[i])
    ensures forall i :: 0 <= i < |log| ==> ItemSound(g, root, maxDepth, log[i])
    ensures forall i, j :: 0 <= i < j < |log| ==> log[i].id != log[j].id && log[i].depth <= log[j].depth
    ensures forall i :: 1 <= i < |log| ==> log[i].depth >= 1
    ensures forall i :: 0 <= i < |log| ==> Expanded(g, maxDepth, log, log[i])
  {
    StartInv(g, root, maxDepth);
    RunExpandsAll(g, root, maxDepth, Start(root), 0);
    log := Log(root, Run(g, maxDepth, Start(root)));
  }

  /** Every entry is a real dependent at its shortest distance, with a real chain as evidence. */
  lemma EntriesAreShortest(g: Graph, root: int, maxDepth: nat, e: Entry)
    requires e in Search(g, root, maxDepth)
    ensures 1 <= e.depth <= maxDepth && e.componentId != root
    ensures ChainTo(g, root, e.componentId, e.path) && |e.path| == e.depth + 1
    ensures Distance(g, root, e.componentId, e.depth)
  {
    hide Search;
    var log := FinalLog(g, root, maxDepth);
    var entries := Search(g, root, maxDepth);
    var k :| 0 <= k < |entries| && entries[k] == e;
    assert log[k + 1] == ItemOf(e) && ItemSound(g, root, maxDepth, log[k + 1]);
    assert log[0].id != log[k + 1].id;
    forall p | ChainTo(g, root, e.componentId, p) ensures |p| >= e.depth + 1 {
      if |p| <= maxDepth + 1 {
        assert Reached(log, root, 0);
        ChainsAreReached(g, root, maxDepth, log, p);
        var i :| 0 <= i < |log| && log[i].id == e.componentId && log[i].depth <= |p| - 1;
        assert i == k + 1;
      }
    }
  }

  /** The entries are exactly the components within reach, the root apart. */
  lemma EntriesAreComplete(g: Graph, root: int, maxDepth: nat, v: int)
    ensures (exists e :: e in Search(g, root, maxDepth) && e.componentId == v)
       <==> v != root && exists p :: ChainTo(g, root, v, p) && |p| <= maxDepth + 1
  {
    hide Search, Distance;
    var entries := Search(g, root, maxDepth);
    if exists e :: e in entries && e.componentId == v {
      var e :| e in entries && e.componentId == v;
      EntriesAreShortest(g, root, maxDepth, e);
    }
    if v != root && exists p :: ChainTo(g, root, v, p) && |p| <= maxDepth + 1 {
      var p :| ChainTo(g, root, v, p) && |p| <= maxDepth + 1;
      var log := FinalLog(g, root, maxDepth);
      assert Reached(log, root, 0);
      ChainsAreReached(g, root, maxDepth, log, p);
      var i :| 0 <= i < |log| && log[i].id == v && log[i].depth <= |p| - 1;
      assert log[i] == ItemOf(entries[i - 1]);
      assert entries[i - 1] in entries && entries[i - 1].componentId == v;
    }
  }

  /** No component is listed twice, and entries come in order of distance. */
  lemma EntriesAreDistinct(g: Graph, root: int, maxDepth: nat)
    ensures forall i, j :: 0 <= i < j < |Search(g, root, maxDepth)| ==>
      && Search(g, root, maxDepth)[i].componentId != Search(g, root, maxDepth)[j].componentId
      && Search(g, root, maxDepth)[i].depth <= Search(g, root, maxDepth)[j].depth
  {
    hide Search;
    var log := FinalLog(g, root, maxDepth);
    var entries := Search(g, root, maxDepth);
    forall i, j | 0 <= i < j < |entries|
      ensures entries[i].componentId != entries[j].componentId && entries[i].depth <= entries[j].depth
    {
      assert log[i + 1] == ItemOf(entries[i]) && log[j + 1] == ItemOf(entries[j]);
    }
  }

  // ---------- direct dependents ----------

  lemma DistanceOne(g: Graph, root: int, v: int)
    requires v != root
    ensures Distance(g, root, v, 1) <==> Depends(g, root, v)
  {
    if p :| ChainTo(g, root, v, p) && |p| == 2 { assert Depends(g, p[0], p[1]); }
    if Depends(g, root, v) { assert ChainTo(g, root, v, [root, v]) && |[root, v]| == 2; }
  }

  /** An entry counts as direct exactly when the root has an edge to it. */
  lemma DirectExactly(g: Graph, root: int, maxDepth: nat, e: Entry)
    ensures e in Direct(Search(g, root, maxDepth)) <==> e in Search(g, root, maxDepth) && Depends(g, root, e.componentId)
  {
    hide Search, Distance, Depends;
    InKept((x: Entry) => x.depth == 1, Search(g, root, maxDepth), e);
    if e in Search(g, root, maxDepth) {
      EntriesAreShortest(g, root, maxDepth, e);
      DistanceOne(g, root, e.componentId);
      OneDistance(g, root, e.componentId, e.depth);
    }
  }

  lemma OneDistance(g: Graph, root: int, v: int, hops: nat)
    requires Distance(g, root, v, hops)
    ensures Distance(g, root, v, 1) <==> hops == 1
  {
  }

  // ---------- what an entry shows ----------

  /** The component is described as an edge from the last component before it on its path describes it. */
  ghost predicate DescribedByEdge(g: Graph, e: Entry) {
    && |e.path| >= 2
    && exists edge :: edge in Dependents(g, e.path[|e.path| - 2])
         && edge.componentId == e.componentId && edge.componentType == e.componentType && edge.name == e.name && edge.slug == e.slug
  }

  ghost predicate EndsAtItself(item: Item) { item.path != [] && item.path[|item.path| - 1] == item.id }

  ghost predicate Described(g: Graph, st: State) {
    (forall item :: item in st.queue ==> EndsAtItself(item)) && (forall e :: e in st.entries ==> DescribedByEdge(g, e))
  }

  lemma {:induction false} VisitAllDescribed(g: Graph, edges: seq<Edge>, from: Item, st: State)
    requires EndsAtItself(from) && Described(g, st) && forall e :: e in edges ==> e in Dependents(g, from.id)
    ensures Described(g, VisitAll(edges, from, st))
  {
    if edges != [] {
      var last := |edges| - 1;
      VisitAllDescribed(g, edges[..last], from, st);
      assert edges == edges[..last] + [edges[last]];
      var entry := EntryFor(edges[last], from);
      assert entry.path[|entry.path| - 2] == from.id && DescribedByEdge(g, entry);
    }
  }

  lemma StepDescribed(g: Graph, maxDepth: nat, st: State)
    requires Described(g, st) && st.queue != []
    ensures Described(g, Step(g, maxDepth, st))
  {
    var head, rest := st.queue[0], st.(queue := st.queue[1..]);
    MembersOfPermutation(SortedDependents(g, head.id), Dependents(g, head.id));
    assert EndsAtItself(head) && Described(g, rest);
    hide EndsAtItself, Described, SortedDependents;
    VisitAllDescribed(g, SortedDependents(g, head.id), head, rest);
  }

  lemma {:induction false} RunDescribed(g: Graph, maxDepth: nat, st: State)
    requires Described(g, st)
    ensures Described(g, Run(g, maxDepth, st))
    decreases Unvisited(g, st), |st.queue|
  {
    hide Described, Unvisited, Step;
    if st.queue != [] {
      StepShrinks(g, maxDepth, st);
      StepDescribed(g, maxDepth, st);
      RunDescribed(g, maxDepth, Step(g, maxDepth, st));
    }
  }

  /** An entry shows the type, name and slug of an edge that leads to it from its predecessor on the path. */
  lemma EntriesNameEdges(g: Graph, root: int, maxDepth: nat, e: Entry)
    requires e in Search(g, root, maxDepth)
    ensures DescribedByEdge(g, e)
  {
    assert Described(g, Start(root));
    RunDescribed(g, maxDepth, Start(root));
  }
}
