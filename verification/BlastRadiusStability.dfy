/** The result does not depend on the repository's list order, and grows by a suffix with the depth bound. */
module BlastRadiusStability {
  import opened Ordering
  import opened BlastRadius

  // ---------- deeper searches extend shallower ones ----------

  /** Depths along a queue never decrease and span at most two levels. */
  ghost predicate TwoLevels(queue: seq<Item>) {
    && (forall i, j :: 0 <= i < j < |queue| ==> queue[i].depth <= queue[j].depth)
    && (forall i :: 0 <= i < |queue| ==> queue[i].depth <= queue[0].depth + 1)
  }

  lemma {:induction false} VisitAllAppends(edges: seq<Edge>, from: Item, st: State) returns (added: seq<Item>)
    ensures VisitAll(edges, from, st).queue == st.queue + added
    ensures forall i :: 0 <= i < |added| ==> added[i].depth == from.depth + 1
    ensures st.entries <= VisitAll(edges, from, st).entries
  {
    added := [];
    if edges != [] {
      var last := |edges| - 1;
      added := VisitAllAppends(edges[..last], from, st);
      var mid := VisitAll(edges[..last], from, st);
      if edges[last].componentId !in mid.visited {
        added := added + [Item(edges[last].componentId, from.depth + 1, from.path + [edges[last].componentId])];
      }
    }
  }

  lemma StepAppends(g: Graph, maxDepth: nat, st: State)
    requires st.queue != [] && TwoLevels(st.queue)
    ensures TwoLevels(Step(g, maxDepth, st).queue)
    ensures st.entries <= Step(g, maxDepth, st).entries
  {
    hide VisitAll;
    var head, rest := st.queue[0], st.(queue := st.queue[1..]);
    if head.depth < maxDepth {
      var added := VisitAllAppends(SortedDependents(g, head.id), head, rest);
    }
  }

  lemma {:induction false} RunAppends(g: Graph, maxDepth: nat, st: State)
    requires TwoLevels(st.queue)
    ensures st.entries <= Run(g, maxDepth, st).entries
    decreases Unvisited(g, st), |st.queue|
  {
    hide TwoLevels, Step;
    if st.queue != [] {
      StepShrinks(g, maxDepth, st);
      StepAppends(g, maxDepth, st);
      RunAppends(g, maxDepth, Step(g, maxDepth, st));
    }
  }

  /** Once the head has reached the bound, nothing more is discovered. */
  lemma {:induction false} Drains(g: Graph, maxDepth: nat, st: State)
    requires TwoLevels(st.queue) && (st.queue != [] ==> st.queue[0].depth >= maxDepth)
    ensures Run(g, maxDepth, st).entries == st.entries
    decreases Unvisited(g, st), |st.queue|
  {
    if st.queue != [] {
      StepShrinks(g, maxDepth, st);
      Drains(g, maxDepth, Step(g, maxDepth, st));
    }
  }

  lemma {:induction false} RunsInStep(g: Graph, maxDepth: nat, st: State)
    requires TwoLevels(st.queue)
    ensures Run(g, maxDepth, st).entries <= Run(g, maxDepth + 1, st).entries
    decreases Unvisited(g, st), |st.queue|
  {
    if st.queue == [] || st.queue[0].depth >= maxDepth {
      Drains(g, maxDepth, st);
      RunAppends(g, maxDepth + 1, st);
    } else {
      StepShrinks(g, maxDepth, st);
      StepAppends(g, maxDepth, st);
      assert Step(g, maxDepth, st) == Step(g, maxDepth + 1, st);
      RunsInStep(g, maxDepth, Step(g, maxDepth, st));
    }
  }

  /** The entries for one bound are a prefix of the entries for every larger bound. */
  lemma {:induction false} DeeperExtends(g: Graph, root: int, shallow: nat, deep: nat)
    requires shallow <= deep
    ensures Search(g, root, shallow) <= Search(g, root, deep)
    decreases deep - shallow
  {
    if shallow < deep {
      RunsInStep(g, shallow, Start(root));
      DeeperExtends(g, root, shallow + 1, deep);
    }
  }

  // ---------- list order does not matter ----------

  /** What the search reads of an edge. */
  function Shown(e: Edge): (int, ComponentType, string, string) { (e.componentId, e.componentType, e.name, e.slug) }

  /** A component is described alike on every edge that leads to it. */
  ghost predicate Described(g: Graph) {
    forall x, y, e, f ::
      e in Dependents(g, x) && f in Dependents(g, y) && e.componentId == f.componentId ==> Shown(e) == Shown(f)
  }

  ghost predicate SameEdges(g: Graph, h: Graph) {
    forall id :: multiset(Dependents(g, id)) == multiset(Dependents(h, id))
  }

  lemma {:induction false} VisitReadsShown(xs: seq<Edge>, ys: seq<Edge>, from: Item, st: State)
    requires |xs| == |ys| && forall i :: 0 <= i < |xs| ==> Shown(xs[i]) == Shown(ys[i])
    ensures VisitAll(xs, from, st) == VisitAll(ys, from, st)
  {
    if xs != [] {
      var last := |xs| - 1;
      VisitReadsShown(xs[..last], ys[..last], from, st);
    }
  }

  lemma IdsSorted(edges: seq<Edge>)
    requires SortedBy(EdgeLe, edges)
    ensures SortedBy(IntLe, Mapped((e: Edge) => e.componentId, edges))
  {
  }

  lemma SortedShown(g: Graph, h: Graph, id: int)
    requires Described(g) && SameEdges(g, h)
    ensures |SortedDependents(g, id)| == |SortedDependents(h, id)|
    ensures forall i :: 0 <= i < |SortedDependents(g, id)| ==> Shown(SortedDependents(g, id)[i]) == Shown(SortedDependents(h, id)[i])
  {
    var xs, ys := SortedDependents(g, id), SortedDependents(h, id);
    var idOf := (e: Edge) => e.componentId;
    MappedPermutation(idOf, xs, ys);
    StableSortSorts(EdgeLe, Dependents(g, id));
    StableSortSorts(EdgeLe, Dependents(h, id));
    MembersOfPermutation(xs, ys);
    MembersOfPermutation(xs, Dependents(g, id));
    MembersOfPermutation(ys, Dependents(h, id));
    IdsSorted(xs);
    IdsSorted(ys);
    hide SortedBy, SortedDependents, SameEdges, Mapped, EdgeLe;
    SortedIntsUnique(Mapped(idOf, xs), Mapped(idOf, ys));
    forall i | 0 <= i < |xs| ensures Shown(xs[i]) == Shown(ys[i]) {
      assert Mapped(idOf, xs)[i] == Mapped(idOf, ys)[i];
      assert xs[i] in xs && ys[i] in ys;
    }
  }

  lemma {:induction false} RunIgnoresListOrder(g: Graph, h: Graph, maxDepth: nat, st: State)
    requires Described(g) && SameEdges(g, h)
    ensures Run(g, maxDepth, st) == Run(h, maxDepth, st)
    decreases Unvisited(g, st), |st.queue|
  {
    hide Described, SameEdges;
    if st.queue != [] {
      var head := st.queue[0];
      SortedShown(g, h, head.id);
      VisitReadsShown(SortedDependents(g, head.id), SortedDependents(h, head.id), head, st.(queue := st.queue[1..]));
      assert Step(g, maxDepth, st) == Step(h, maxDepth, st);
      StepShrinks(g, maxDepth, st);
      RunIgnoresListOrder(g, h, maxDepth, Step(g, maxDepth, st));
    }
  }

  lemma ListOrderDoesNotMatter(g: Graph, h: Graph, root: int, maxDepth: nat)
    requires Described(g) && SameEdges(g, h)
    ensures Search(g, root, maxDepth) == Search(h, root, maxDepth)
  {
    RunIgnoresListOrder(g, h, maxDepth, Start(root));
  }

  // ---------- buckets ----------

  /** The buckets split the entries: each entry is in its own type's bucket and in no other,
      and sizes add up. */
  lemma BucketsPartition(byType: map<ComponentType, seq<Entry>>, entries: seq<Entry>, e: Entry, t: ComponentType)
    requires IsBucketing(byType, entries)
    ensures (t in byType && e in byType[t]) <==> (e in entries && e.componentType == t)
    ensures multiset(OfType(t, entries))[e] == if e.componentType == t then multiset(entries)[e] else 0
  {
    InKept((x: Entry) => x.componentType == t, entries, e);
    CountKept(t, entries, e);
  }

  lemma {:induction false} CountKept(t: ComponentType, entries: seq<Entry>, e: Entry)
    ensures multiset(OfType(t, entries))[e] == if e.componentType == t then multiset(entries)[e] else 0
  {
    if entries != [] {
      CountKept(t, entries[1..], e);
      assert entries == [entries[0]] + entries[1..];
    }
  }
}
