/** Which changes the differ's lists contain, list by list. */
module SchemaDiffFacts {
  import opened Ordering
  import opened Options
  import opened SchemaModel
  import opened SchemaRules
  import opened SchemaDiff

  lemma {:induction false} InRemoved(vs: seq<Scalar>, d: Direction, path: string, ch: Change)
    ensures ch in RemovedValuesOver(vs, d, path) <==> exists v :: v in vs && ch == RemovedValue(v, d, path)
  {
    if vs != [] {
      var last := |vs| - 1;
      InRemoved(vs[..last], d, path, ch);
      assert vs == vs[..last] + [vs[last]];
    }
  }

  lemma {:induction false} InAdded(vs: seq<Scalar>, d: Direction, path: string, ch: Change)
    ensures ch in AddedValuesOver(vs, d, path) <==> exists v :: v in vs && ch == AddedValue(v, d, path)
  {
    if vs != [] {
      var last := |vs| - 1;
      InAdded(vs[..last], d, path, ch);
      assert vs == vs[..last] + [vs[last]];
    }
  }

  lemma {:induction false} InConstraints(b: Schema, c: Schema, d: Direction, path: string, keys: seq<ConstraintKey>, ch: Change)
    requires b.Node? && c.Node?
    ensures ch in DiffConstraints(b, c, d, path, keys)
       <==> exists key :: key in keys && ch in DiffConstraint(b, c, d, path, key)
  {
    if keys != [] {
      var last := |keys| - 1;
      InConstraints(b, c, d, path, keys[..last], ch);
      assert keys == keys[..last] + [keys[last]];
    }
  }

  lemma {:induction false} InProperties(b: Schema, c: Schema, d: Direction, path: string, depth: nat, names: seq<string>, ch: Change)
    requires b.Node? && c.Node?
    requires forall n :: n in names ==> n in b.properties || n in c.properties
    ensures ch in DiffProperties(b, c, d, path, depth, names)
       <==> exists n :: n in names && ch in DiffProperty(b, c, d, path, depth, n)
  {
    if names != [] {
      var last := |names| - 1;
      InProperties(b, c, d, path, depth, names[..last], ch);
      assert names == names[..last] + [names[last]];
      assert ch in DiffProperties(b, c, d, path, depth, names)
        <==> ch in DiffProperties(b, c, d, path, depth, names[..last]) || ch in DiffProperty(b, c, d, path, depth, names[last]);
    }
  }

  lemma EveryKeyListed(key: ConstraintKey)
    ensures key in CONSTRAINT_KEYS
  {
    var i := match key
      case Minimum => 0 case Maximum => 1 case ExclusiveMinimum => 2 case ExclusiveMaximum => 3
      case MinLength => 4 case MaxLength => 5 case Pattern => 6 case MinItems => 7 case MaxItems => 8
      case UniqueItems => 9 case MultipleOf => 10 case MinProperties => 11 case MaxProperties => 12;
    assert CONSTRAINT_KEYS[i] == key;
  }

  /** A change the node itself makes, apart from its properties and items. */
  ghost predicate InOwnParts(b: Schema, c: Schema, d: Direction, path: string, ch: Change)
    requires b.Node? && c.Node?
  {
    || ch in DiffType(b, c, d, path)
    || ch in DiffNullability(b, c, d, path)
    || ch in DiffEnum(b.enum, c.enum, d, path)
    || (exists key :: ch in DiffConstraint(b, c, d, path, key))
  }

  ghost predicate InSomePart(b: Schema, c: Schema, d: Direction, path: string, depth: nat, ch: Change)
    requires b.Node? && c.Node?
  {
    || InOwnParts(b, c, d, path, ch)
    || (exists n :: (n in b.properties || n in c.properties) && ch in DiffProperty(b, c, d, path, depth, n))
    || ch in DiffItems(b, c, d, path, depth)
  }

  /** The change list of a pair of object nodes, part by part. */
  lemma InNode(b: Schema, c: Schema, d: Direction, path: string, depth: nat, ch: Change)
    requires b.Node? && c.Node? && depth <= MAX_DEPTH
    ensures ch in DiffAt(b, c, d, path, depth) <==> InSomePart(b, c, d, path, depth, ch)
  {
    hide MakeChange, Classify, DiffType, DiffNullability, DiffEnum, DiffConstraint, DiffItems;
    InSix(DiffType(b, c, d, path), DiffNullability(b, c, d, path), DiffEnum(b.enum, c.enum, d, path),
          DiffConstraints(b, c, d, path, CONSTRAINT_KEYS), DiffProperties(b, c, d, path, depth, SharedNames(b, c)),
          DiffItems(b, c, d, path, depth), ch);
    InAllConstraints(b, c, d, path, ch);
    InProperties(b, c, d, path, depth, SharedNames(b, c), ch);
  }

  lemma InAllConstraints(b: Schema, c: Schema, d: Direction, path: string, ch: Change)
    requires b.Node? && c.Node?
    ensures ch in DiffConstraints(b, c, d, path, CONSTRAINT_KEYS)
       <==> exists key :: ch in DiffConstraint(b, c, d, path, key)
  {
    InConstraints(b, c, d, path, CONSTRAINT_KEYS, ch);
    forall key ensures key in CONSTRAINT_KEYS { EveryKeyListed(key); }
  }

  lemma InEnum(be: Option<seq<Scalar>>, ce: Option<seq<Scalar>>, d: Direction, path: string, ch: Change)
    ensures ch in DiffEnum(be, ce, d, path) <==>
      || (exists v :: v in EnumSet(be) - EnumSet(ce) && ch == RemovedValue(v, d, path))
      || (exists v :: v in EnumSet(ce) - EnumSet(be) && ch == AddedValue(v, d, path))
      || ch in Narrowing(EnumSet(be), EnumSet(ce), d, path)
  {
    hide MakeChange, Classify, EnumSet, Narrowing;
    InRemoved(SortedScalars(EnumSet(be) - EnumSet(ce)), d, path, ch);
    InAdded(SortedScalars(EnumSet(ce) - EnumSet(be)), d, path, ch);
  }

  lemma EnumMovesReported(be: Option<seq<Scalar>>, ce: Option<seq<Scalar>>, d: Direction, path: string, v: Scalar)
    ensures v in EnumSet(be) && v !in EnumSet(ce) ==> RemovedValue(v, d, path) in DiffEnum(be, ce, d, path)
    ensures v !in EnumSet(be) && v in EnumSet(ce) ==> AddedValue(v, d, path) in DiffEnum(be, ce, d, path)
  {
    InRemoved(SortedScalars(EnumSet(be) - EnumSet(ce)), d, path, RemovedValue(v, d, path));
    InAdded(SortedScalars(EnumSet(ce) - EnumSet(be)), d, path, AddedValue(v, d, path));
  }

  lemma InRelabeled(nested: seq<Change>, at: string, d: Direction, ch: Change)
    ensures ch in Relabel(nested, at, d) <==> exists n :: n in nested && ch == RelabelOne(n, at, d)
  {
    var r := Relabel(nested, at, d);
    if ch in r {
      var i :| 0 <= i < |r| && r[i] == ch;
      assert nested[i] in nested;
    }
    if exists n :: n in nested && ch == RelabelOne(n, at, d) {
      var n :| n in nested && ch == RelabelOne(n, at, d);
      var i :| 0 <= i < |nested| && nested[i] == n;
      assert r[i] == ch;
    }
  }
}
