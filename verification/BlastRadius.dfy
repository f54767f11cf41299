/** Blast radius: bounded breadth-first search over dependent edges of a possibly cyclic multigraph. */
module BlastRadius {
  import opened Ordering

  datatype ComponentType = Agent | Workflow | Tool | McpServer | Api | SchemaComponent | Prompt | Model | Policy | Provider

  datatype Edge = Edge(componentId: int, componentType: ComponentType, name: string, slug: string, relationship: string)

  /** The repository: known components, and per component its direct dependents in any order. */
  datatype Graph = Graph(nodes: set<int>, dependents: map<int, seq<Edge>>)

  datatype Entry = Entry(componentId: int, componentType: ComponentType, name: string, slug: string,
                         depth: nat, path: seq<int>)

  datatype Report = Report(componentId: int, maxDepth: int, direct: seq<Entry>, transitive: seq<Entry>,
                           byType: map<ComponentType, seq<Entry>>)

  datatype Outcome = InvalidDepth | ComponentNotFound | Found(report: Report)

  function Dependents(g: Graph, id: int): seq<Edge> {
    if id in g.dependents then g.dependents[id] else []
  }

  predicate EdgeLe(x: Edge, y: Edge) { x.componentId <= y.componentId }

  function SortedDependents(g: Graph, id: int): (r: seq<Edge>)
    ensures multiset(r) == multiset(Dependents(g, id))
    ensures forall i, j :: 0 <= i < j < |r| ==> r[i].componentId <= r[j].componentId
  {
    StableSortSorts(EdgeLe, Dependents(g, id));
    StableSort(EdgeLe, Dependents(g, id))
  }

  // ---------- the search as a state machine ----------

  datatype Item = Item(id: int, depth: nat, path: seq<int>)

  datatype State = State(visited: set<int>, queue: seq<Item>, entries: seq<Entry>)

  function EntryFor(e: Edge, from: Item): Entry {
    Entry(e.componentId, e.componentType, e.name, e.slug, from.depth + 1, from.path + [e.componentId])
  }

  function VisitOne(e: Edge, from: Item, st: State): State {
    if e.componentId in st.visited then st
    else State(st.visited + {e.componentId},
               st.queue + [Item(e.componentId, from.depth + 1, from.path + [e.componentId])],
               st.entries + [EntryFor(e, from)])
  }

  function VisitAll(edges: seq<Edge>, from: Item, st: State): State {
    if edges == [] then st
    else VisitOne(edges[|edges| - 1], from, VisitAll(edges[..|edges| - 1], from, st))
  }

  function Step(g: Graph, maxDepth: nat, st: State): State
    requires st.queue != []
  {
    var head, rest := st.queue[0], st.(queue := st.queue[1..]);
    if head.depth >= maxDepth then rest else VisitAll(SortedDependents(g, head.id), head, rest)
  }

  ghost function Targets(g: Graph): set<int> {
    set id, e | id in g.dependents && e in g.dependents[id] :: e.componentId
  }

  ghost function Unvisited(g: Graph, st: State): nat { |Targets(g) - st.visited| }

  lemma {:induction false} VisitAllShrinks(g: Graph, edges: seq<Edge>, from: Item, st: State)
    requires forall e :: e in edges ==> e.componentId in Targets(g)
    ensures var r := VisitAll(edges, from, st);
      st.visited <= r.visited && (r == st || Unvisited(g, r) < Unvisited(g, st))
  {
    if edges != [] {
      var last := |edges| - 1;
      VisitAllShrinks(g, edges[..last], from, st);
      var mid, r := VisitAll(edges[..last], from, st), VisitAll(edges, from, st);
      if r != mid {
        assert Targets(g) - mid.visited == (Targets(g) - r.visited) + {edges[last].componentId};
      }
    }
  }

  lemma StepShrinks(g: Graph, maxDepth: nat, st: State)
    requires st.queue != []
    ensures var r := Step(g, maxDepth, st);
      Unvisited(g, r) < Unvisited(g, st) || (Unvisited(g, r) == Unvisited(g, st) && |r.queue| < |st.queue|)
  {
    var head := st.queue[0];
    var edges := SortedDependents(g, head.id);
    MembersOfPermutation(edges, Dependents(g, head.id));
    VisitAllShrinks(g, edges, head, st.(queue := st.queue[1..]));
  }

  /** The search from a state to its end; it ends on every graph, cycles and parallel edges included. */
  ghost function Run(g: Graph, maxDepth: nat, st: State): State
    decreases Unvisited(g, st), |st.queue|
  {
    if st.queue == [] then st
    else
      StepShrinks(g, maxDepth, st);
      Run(g, maxDepth, Step(g, maxDepth, st))
  }

  function Start(root: int): State { State({root}, [Item(root, 0, [root])], []) }

  ghost function Search(g: Graph, root: int, maxDepth: nat): seq<Entry> { Run(g, maxDepth, Start(root)).entries }

  // ---------- buckets ----------

  function OfType(t: ComponentType, entries: seq<Entry>): seq<Entry> {
    Kept((e: Entry) => e.componentType == t, entries)
  }

  function Direct(entries: seq<Entry>): seq<Entry> { Kept((e: Entry) => e.depth == 1, entries) }

  ghost predicate IsBucketing(byType: map<ComponentType, seq<Entry>>, entries: seq<Entry>) {
    && (forall t :: t in byType <==> exists e :: e in entries && e.componentType == t)
    && (forall t :: t in byType ==> byType[t] == OfType(t, entries))
  }

  lemma OfTypeAppend(t: ComponentType, entries: seq<Entry>, e: Entry)
    ensures OfType(t, entries + [e]) == OfType(t, entries) + if e.componentType == t then [e] else []
  {
    KeptConcat((x: Entry) => x.componentType == t, entries, [e]);
    KeptOne((x: Entry) => x.componentType == t, e);
  }

  lemma NoneOfType(t: ComponentType, entries: seq<Entry>)
    requires forall e :: e in entries ==> e.componentType != t
    ensures OfType(t, entries) == []
  {
    var kept := OfType(t, entries);
    if kept != [] {
      InKept((x: Entry) => x.componentType == t, entries, kept[0]);
      assert false;
    }
  }

  lemma BucketAppend(byType: map<ComponentType, seq<Entry>>, entries: seq<Entry>, entry: Entry)
    requires IsBucketing(byType, entries)
    ensures IsBucketing(byType[entry.componentType :=
        (if entry.componentType in byType then byType[entry.componentType] else []) + [entry]], entries + [entry])
  {
    forall t ensures OfType(t, entries + [entry]) == OfType(t, entries) + if entry.componentType == t then [entry] else [] {
      OfTypeAppend(t, entries, entry);
    }
    if entry.componentType !in byType { NoneOfType(entry.componentType, entries); }
    hide OfType;
    assert forall e :: e in entries + [entry] <==> e in entries || e == entry;
  }

  method GroupByType(entries: seq<Entry>) returns (byType: map<ComponentType, seq<Entry>>)
    ensures IsBucketing(byType, entries)
  {
    byType := map[];
    for i := 0 to |entries|
      invariant IsBucketing(byType, entries[..i])
    {
      var entry := entries[i];
      assert entries[..i + 1] == entries[..i] + [entry];
      BucketAppend(byType, entries[..i], entry);
      hide IsBucketing;
      byType := byType[entry.componentType :=
        (if entry.componentType in byType then byType[entry.componentType] else []) + [entry]];
    }
    assert entries[..|entries|] == entries;
  }

  // ---------- the search as it runs ----------

  method Compute(g: Graph, root: int, maxDepth: int) returns (r: Outcome)
    ensures r.InvalidDepth? <==> maxDepth < 1
    ensures r.ComponentNotFound? <==> maxDepth >= 1 && root !in g.nodes
    ensures r.Found? ==>
      && r.report.componentId == root && r.report.maxDepth == maxDepth
      && r.report.transitive == Search(g, root, maxDepth)
      && r.report.direct == Direct(r.report.transitive)
      && IsBucketing(r.report.byType, r.report.transitive)
  {
    if maxDepth < 1 {
      return InvalidDepth;
    }
    if root !in g.nodes {
      return ComponentNotFound;
    }
    var visited, queue := {root}, [Item(root, 0, [root])];
    var entries: seq<Entry> := [];
    while queue != []
      invariant Run(g, maxDepth, State(visited, queue, entries)).entries == Search(g, root, maxDepth)
      decreases Unvisited(g, State(visited, queue, entries)), |queue|
    {
      ghost var before := State(visited, queue, entries);
      StepShrinks(g, maxDepth, before);
      var current := queue[0];
      queue := queue[1..];
      if current.depth >= maxDepth {
        continue;
      }
      visited, queue, entries := Expand(g, current, visited, queue, entries);
      assert State(visited, queue, entries) == Step(g, maxDepth, before);
    }
    var byType := GroupByType(entries);
    r := Found(Report(root, maxDepth, Direct(entries), entries, byType));
  }

  /** The inner loop: one component's dependents, in ascending id order. */
  method Expand(g: Graph, current: Item, visited0: set<int>, queue0: seq<Item>, entries0: seq<Entry>)
    returns (visited: set<int>, queue: seq<Item>, entries: seq<Entry>)
    ensures State(visited, queue, entries)
         == VisitAll(SortedDependents(g, current.id), current, State(visited0, queue0, entries0))
  {
    visited, queue, entries := visited0, queue0, entries0;
    var edges := SortedDependents(g, current.id);
    for i := 0 to |edges|
      invariant State(visited, queue, entries) == VisitAll(edges[..i], current, State(visited0, queue0, entries0))
    {
      assert edges[..i + 1][..i] == edges[..i];
      var edge := edges[i];
      if edge.componentId in visited {
        continue;
      }
      visited := visited + {edge.componentId};
      var nextPath := current.path + [edge.componentId];
      entries := entries + [Entry(edge.componentId, edge.componentType, edge.name, edge.slug, current.depth + 1, nextPath)];
      queue := queue + [Item(edge.componentId, current.depth + 1, nextPath)];
    }
    assert edges[..|edges|] == edges;
  }
}
