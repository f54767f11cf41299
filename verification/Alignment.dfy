/** The four-pass step matcher: source event, sequence number, component, unmatched. */
module Alignment {
  import opened Options
  import opened Ordering
  import opened ReplayModel

  datatype Method = BySourceEvent | BySequenceNumber | ByComponent | Unmatched

  datatype StepPair = StepPair(how: Method, baseline: Option<ReplayStep>, candidate: Option<ReplayStep>)

  /** A dictionary from step id to step, in insertion order. */
  type StepDict = seq<ReplayStep>

  ghost predicate UniqueIds(steps: seq<ReplayStep>) {
    forall i, j :: 0 <= i < j < |steps| ==> steps[i].id != steps[j].id
  }

  // ---------- indexes ----------

  function EventKey(s: ReplayStep): int { s.sourceEventId }

  function SequenceKey(s: ReplayStep): int { s.sequenceNumber }

  /** First-seen wins. */
  function IndexBy(key: ReplayStep -> int, steps: seq<ReplayStep>): map<int, ReplayStep> {
    if steps == [] then map[]
    else
      var last := |steps| - 1;
      var front := IndexBy(key, steps[..last]);
      if key(steps[last]) in front then front else front[key(steps[last]) := steps[last]]
  }

  predicate SequenceLe(x: ReplayStep, y: ReplayStep) { x.sequenceNumber <= y.sequenceNumber }

  function InComponent(c: Id, steps: seq<ReplayStep>): seq<ReplayStep> {
    Kept((s: ReplayStep) => s.componentId == Some(c), steps)
  }

  /** One component's steps in ascending sequence order. */
  function Group(c: Id, steps: seq<ReplayStep>): seq<ReplayStep> { InComponent(c, StableSort(SequenceLe, steps)) }

  function Components(steps: seq<ReplayStep>): set<int> {
    set s | s in steps && s.componentId.Some? :: s.componentId.value
  }

  // ---------- the passes ----------

  function Without(steps: StepDict, ids: set<Id>): StepDict { Kept((s: ReplayStep) => s.id !in ids, steps) }

  /** The pairs on the given keys, in key order. */
  function PairsOn(how: Method, keys: seq<int>, b: map<int, ReplayStep>, c: map<int, ReplayStep>): seq<StepPair>
    requires forall i :: 0 <= i < |keys| ==> keys[i] in b && keys[i] in c
  {
    seq(|keys|, i requires 0 <= i < |keys| => StepPair(how, Some(b[keys[i]]), Some(c[keys[i]])))
  }

  function SharedKeys(b: map<int, ReplayStep>, c: map<int, ReplayStep>): (keys: seq<int>)
    ensures forall i :: 0 <= i < |keys| ==> keys[i] in b && keys[i] in c
    ensures forall k :: k in b && k in c ==> k in keys
    ensures NoDuplicates(keys)
  {
    var keys := SortedInts(b.Keys * c.Keys);
    assert forall i :: 0 <= i < |keys| ==> keys[i] in keys;
    keys
  }

  function PairsByKey(how: Method, key: ReplayStep -> int, b: StepDict, c: StepDict): seq<StepPair> {
    var bi, ci := IndexBy(key, b), IndexBy(key, c);
    PairsOn(how, SharedKeys(bi, ci), bi, ci)
  }

  /** `zip`: position by position, up to the shorter list. */
  function Zip(b: seq<ReplayStep>, c: seq<ReplayStep>): seq<StepPair> {
    var n := if |b| <= |c| then |b| else |c|;
    seq(n, i requires 0 <= i < n => StepPair(ByComponent, Some(b[i]), Some(c[i])))
  }

  function PairsOnComponents(components: seq<int>, b: StepDict, c: StepDict): seq<StepPair>
  {
    if components == [] then []
    else
      var last := |components| - 1;
      PairsOnComponents(components[..last], b, c) + Zip(Group(components[last], b), Group(components[last], c))
  }

  function SharedComponents(b: StepDict, c: StepDict): (r: seq<int>)
    ensures forall k :: k in r <==> k in Components(b) && k in Components(c)
    ensures NoDuplicates(r)
  {
    SortedInts(Components(b) * Components(c))
  }

  function PairsByComponent(b: StepDict, c: StepDict): seq<StepPair> {
    PairsOnComponents(SharedComponents(b, c), b, c)
  }

  function Removed(steps: StepDict): seq<StepPair> {
    Mapped((s: ReplayStep) => StepPair(Unmatched, Some(s), None), steps)
  }

  function Added(steps: StepDict): seq<StepPair> {
    Mapped((s: ReplayStep) => StepPair(Unmatched, None, Some(s)), steps)
  }

  function BaselineOf(p: StepPair): Option<ReplayStep> { p.baseline }

  function CandidateOf(p: StepPair): Option<ReplayStep> { p.candidate }

  /** The steps one side contributes to a list of pairs. */
  function Side(of: StepPair -> Option<ReplayStep>, pairs: seq<StepPair>): seq<ReplayStep> {
    if pairs == [] then []
    else (if of(pairs[0]).Some? then [of(pairs[0]).value] else []) + Side(of, pairs[1..])
  }

  function IdsOf(steps: seq<ReplayStep>): set<Id> { set s | s in steps :: s.id }

  /** What a list of pairs leaves of one side. */
  function Left(of: StepPair -> Option<ReplayStep>, steps: StepDict, pairs: seq<StepPair>): StepDict {
    Without(steps, IdsOf(Side(of, pairs)))
  }

  predicate PairLe(x: StepPair, y: StepPair) {
    var (xs, xn) := SortKey(x);
    var (ys, yn) := SortKey(y);
    xs < ys || (xs == ys && xn <= yn)
  }

  function SortKey(p: StepPair): (int, int) {
    if p.baseline.Some? then (0, p.baseline.value.sequenceNumber)
    else if p.candidate.Some? then (1, p.candidate.value.sequenceNumber)
    else (1, 0)
  }

  datatype Passes = Passes(p1: seq<StepPair>, b1: StepDict, c1: StepDict,
                           p2: seq<StepPair>, b2: StepDict, c2: StepDict,
                           p3: seq<StepPair>, b3: StepDict, c3: StepDict)

  function RunPasses(b: StepDict, c: StepDict): Passes {
    var p1 := PairsByKey(BySourceEvent, EventKey, b, c);
    var b1, c1 := Left(BaselineOf, b, p1), Left(CandidateOf, c, p1);
    var p2 := PairsByKey(BySequenceNumber, SequenceKey, b1, c1);
    var b2, c2 := Left(BaselineOf, b1, p2), Left(CandidateOf, c1, p2);
    var p3 := PairsByComponent(b2, c2);
    Passes(p1, b1, c1, p2, b2, c2, p3, Left(BaselineOf, b2, p3), Left(CandidateOf, c2, p3))
  }

  function Unsorted(b: StepDict, c: StepDict): seq<StepPair> {
    var r := RunPasses(b, c);
    r.p1 + r.p2 + r.p3 + Removed(r.b3) + Added(r.c3)
  }

  function Align(b: StepDict, c: StepDict): seq<StepPair> { StableSort(PairLe, Unsorted(b, c)) }
}
