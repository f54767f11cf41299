/** Directional soundness: a diff with only compatible changes keeps values flowing. */
module SchemaSoundness {
  import opened Options
  import opened SchemaModel
  import opened SchemaRules
  import opened SchemaDiff
  import opened SchemaDiffFacts
  import opened SchemaSemantics

  /** The side whose values travel: callers of the baseline, or the candidate's responses. */
  function Producer(d: Direction, b: Schema, c: Schema): Schema { if d.Output? then c else b }

  function Consumer(d: Direction, b: Schema, c: Schema): Schema { if d.Output? then b else c }

  /** The keyword presence a caller can check before trusting the verdict, at one shared node. */
  ghost predicate GuardedNode(x: Schema, y: Schema)
    requires x.Node? && y.Node?
  {
    && (y.enum.Some? ==> x.enum.Some?)
    && (y.typ.NoType? || AdmitsEveryKind(y) || (NonNullType(x).Some? && NonNullType(y).Some?))
    && (forall name :: name in y.required ==> name in y.properties || name in x.required)
  }

  ghost predicate Guarded(x: Schema, y: Schema)
    decreases x
  {
    x.Node? && y.Node? ==>
      && GuardedNode(x, y)
      && (forall k :: k in x.properties && k in y.properties ==> Guarded(x.properties[k], y.properties[k]))
      && (x.items.Some? && y.items.Some? ==> Guarded(x.items.value, y.items.value))
  }

  lemma TypePart(b: Schema, c: Schema, d: Direction, path: string)
    requires b.Node? && c.Node? && !d.Neutral?
    requires GuardedNode(Producer(d, b, c), Consumer(d, b, c))
    ensures AllCompatible(DiffType(b, c, d, path)) && AllCompatible(DiffNullability(b, c, d, path))
        ==> TypeFlows(Producer(d, b, c), Consumer(d, b, c))
  {
    var x, y := Producer(d, b, c), Consumer(d, b, c);
    var bt, ct := NonNullType(b), NonNullType(c);
    if bt.Some? && ct.Some? && bt != ct {
      assert DiffType(b, c, d, path)[0].classification.Breaking?;
    }
    if IsNullable(x) && !IsNullable(y) {
      assert !DiffNullability(b, c, d, path)[0].classification.Compatible?;
    }
  }

  lemma EnumPart(b: Schema, c: Schema, d: Direction, path: string)
    requires b.Node? && c.Node? && !d.Neutral?
    requires GuardedNode(Producer(d, b, c), Consumer(d, b, c))
    ensures AllCompatible(DiffEnum(b.enum, c.enum, d, path)) ==> EnumFlows(Producer(d, b, c), Consumer(d, b, c))
  {
    var bs, cs := EnumSet(b.enum), EnumSet(c.enum);
    forall v | if d.Input? then v in bs && v !in cs else v in cs && v !in bs
      ensures !AllCompatible(DiffEnum(b.enum, c.enum, d, path))
    {
      LostValueReported(b.enum, c.enum, d, path, v);
    }
  }

  lemma LostValueReported(be: Option<seq<Scalar>>, ce: Option<seq<Scalar>>, d: Direction, path: string, v: Scalar)
    requires !d.Neutral?
    requires if d.Input? then v in EnumSet(be) && v !in EnumSet(ce) else v in EnumSet(ce) && v !in EnumSet(be)
    ensures !AllCompatible(DiffEnum(be, ce, d, path))
  {
    hide DiffEnum, SortedScalars;
    EnumMovesReported(be, ce, d, path, v);
    var ch := if d.Input? then RemovedValue(v, d, path) else AddedValue(v, d, path);
    assert ch in DiffEnum(be, ce, d, path);
  }

  lemma ConstraintPart(b: Schema, c: Schema, d: Direction, path: string, key: ConstraintKey)
    requires b.Node? && c.Node? && !d.Neutral?
    ensures AllCompatible(DiffConstraint(b, c, d, path, key)) ==> ConstraintFlows(Producer(d, b, c), Consumer(d, b, c), key)
  {
    if ConstraintOf(b, key) != ConstraintOf(c, key) {
      var ch := DiffConstraint(b, c, d, path, key)[0];
      assert ch in DiffConstraint(b, c, d, path, key);
    }
  }

  /** Requiredness that moved against the flow is not compatible. */
  lemma RequiredPart(b: Schema, c: Schema, d: Direction, path: string, depth: nat, name: string)
    requires b.Node? && c.Node? && !d.Neutral?
    requires name in Consumer(d, b, c).properties
    requires name in Consumer(d, b, c).required && name !in Producer(d, b, c).required
    ensures !AllCompatible(DiffProperty(b, c, d, path, depth, name))
  {
    var ch := DiffProperty(b, c, d, path, depth, name)[0];
    if name in b.properties && name in c.properties {
      assert ch == DiffRequiredness(b, c, d, PropertyPath(path, name), name)[0];
    }
    assert ch in DiffProperty(b, c, d, path, depth, name);
  }

  lemma ItemsPart(b: Schema, c: Schema, d: Direction, path: string, depth: nat)
    requires b.Node? && c.Node?
    ensures AllCompatible(DiffItems(b, c, d, path, depth)) ==>
      && (b.items.None? <==> c.items.None?)
      && (b.items.Some? ==> AllCompatible(DiffAt(b.items.value, c.items.value, d, ItemPath(path), depth + 1)))
  {
    var at := ItemPath(path);
    if b.items.None? != c.items.None? {
      assert DiffItems(b, c, d, path, depth)[0].classification.Breaking?;
    } else if b.items.Some? {
      var nested := DiffAt(b.items.value, c.items.value, d, at, depth + 1);
      forall ch | ch in nested && !ch.classification.Compatible? ensures !AllCompatible(Relabel(nested, at, d)) {
        InRelabeled(nested, at, d, RelabelOne(ch, at, d));
      }
    }
  }

  /** A list of compatible changes splits into compatible parts. */
  lemma CompatibleParts(b: Schema, c: Schema, d: Direction, path: string, depth: nat)
    requires b.Node? && c.Node? && depth <= MAX_DEPTH && AllCompatible(DiffAt(b, c, d, path, depth))
    ensures AllCompatible(DiffType(b, c, d, path)) && AllCompatible(DiffNullability(b, c, d, path))
    ensures AllCompatible(DiffEnum(b.enum, c.enum, d, path))
    ensures forall key :: AllCompatible(DiffConstraint(b, c, d, path, key))
    ensures forall n :: n in b.properties || n in c.properties ==> AllCompatible(DiffProperty(b, c, d, path, depth, n))
    ensures AllCompatible(DiffItems(b, c, d, path, depth))
  {
    forall ch ensures ch in DiffAt(b, c, d, path, depth) <== InSomePart(b, c, d, path, depth, ch) {
      InNode(b, c, d, path, depth, ch);
    }
  }

  lemma {:induction false} CompatibleFlows(b: Schema, c: Schema, d: Direction, path: string, depth: nat)
    requires !d.Neutral? && Guarded(Producer(d, b, c), Consumer(d, b, c))
    ensures AllCompatible(DiffAt(b, c, d, path, depth)) ==> Flows(Producer(d, b, c), Consumer(d, b, c))
    decreases b, 2
  {
    if depth > MAX_DEPTH || b.Opaque? || c.Opaque? {
      var all := DiffAt(b, c, d, path, depth);
      assert all != [] ==> all[0].classification.Breaking?;
    } else if AllCompatible(DiffAt(b, c, d, path, depth)) {
      CompatibleNodesFlow(b, c, d, path, depth);
    }
  }

  lemma CompatibleNodesFlow(b: Schema, c: Schema, d: Direction, path: string, depth: nat)
    requires b.Node? && c.Node? && depth <= MAX_DEPTH
    requires !d.Neutral? && Guarded(Producer(d, b, c), Consumer(d, b, c))
    requires AllCompatible(DiffAt(b, c, d, path, depth))
    ensures Flows(Producer(d, b, c), Consumer(d, b, c))
    decreases b, 1
  {
    var x, y := Producer(d, b, c), Consumer(d, b, c);
    NodeFlows(b, c, d, path, depth);
    CompatibleParts(b, c, d, path, depth);
    forall k | k in x.properties && k in y.properties ensures Flows(x.properties[k], y.properties[k]) {
      PropertyFlows(b, c, d, path, depth, k);
    }
    ItemsPart(b, c, d, path, depth);
    if b.items.Some? {
      CompatibleFlows(b.items.value, c.items.value, d, ItemPath(path), depth + 1);
    }
    FlowsFromParts(x, y);
  }

  lemma PropertyFlows(b: Schema, c: Schema, d: Direction, path: string, depth: nat, k: string)
    requires b.Node? && c.Node? && !d.Neutral? && Guarded(Producer(d, b, c), Consumer(d, b, c))
    requires k in b.properties && k in c.properties && AllCompatible(DiffProperty(b, c, d, path, depth, k))
    ensures Flows(Producer(d, b, c).properties[k], Consumer(d, b, c).properties[k])
    decreases b, 0
  {
    var at := PropertyPath(path, k);
    AllCompatibleConcat(DiffRequiredness(b, c, d, at, k), DiffAt(b.properties[k], c.properties[k], d, at, depth + 1));
    CompatibleFlows(b.properties[k], c.properties[k], d, at, depth + 1);
  }

  lemma FlowsFromParts(x: Schema, y: Schema)
    requires x.Node? && y.Node? && TypeFlows(x, y) && EnumFlows(x, y)
    requires forall key :: ConstraintFlows(x, y, key)
    requires forall name :: name in y.required ==> name in x.required
    requires forall k :: k in x.properties && k in y.properties ==> Flows(x.properties[k], y.properties[k])
    requires y.items.Some? ==> x.items.Some? && Flows(x.items.value, y.items.value)
    ensures Flows(x, y)
  {
  }

  /** The keywords of one node flow. */
  lemma NodeFlows(b: Schema, c: Schema, d: Direction, path: string, depth: nat)
    requires b.Node? && c.Node? && !d.Neutral? && depth <= MAX_DEPTH
    requires GuardedNode(Producer(d, b, c), Consumer(d, b, c))
    requires AllCompatible(DiffAt(b, c, d, path, depth))
    ensures TypeFlows(Producer(d, b, c), Consumer(d, b, c))
    ensures EnumFlows(Producer(d, b, c), Consumer(d, b, c))
    ensures forall key :: ConstraintFlows(Producer(d, b, c), Consumer(d, b, c), key)
    ensures forall name :: name in Consumer(d, b, c).required ==> name in Producer(d, b, c).required
  {
    var x, y := Producer(d, b, c), Consumer(d, b, c);
    CompatibleParts(b, c, d, path, depth);
    TypePart(b, c, d, path);
    EnumPart(b, c, d, path);
    forall key ensures ConstraintFlows(x, y, key) { ConstraintPart(b, c, d, path, key); }
    forall name ensures name in y.properties && name in y.required ==> name in x.required {
      if name in y.properties && name in y.required && name !in x.required {
        RequiredPart(b, c, d, path, depth, name);
      }
    }
  }
}
