/** The differ is exact: no change reported if and only if the modelled keywords agree. */
module SchemaExactness {
  import opened Options
  import opened SchemaModel
  import opened SchemaRules
  import opened SchemaDiff
  import opened SchemaDiffFacts
  import opened SchemaNormalizer

  ghost predicate NodeAgrees(b: Schema, c: Schema)
    requires b.Node? && c.Node?
  {
    && (NonNullType(b).Some? && NonNullType(c).Some? ==> NonNullType(b) == NonNullType(c))
    && (IsNullable(b) <==> IsNullable(c))
    && EnumSet(b.enum) == EnumSet(c.enum)
    && (forall key :: ConstraintOf(b, key) == ConstraintOf(c, key))
    && b.properties.Keys == c.properties.Keys
    && (forall name :: name in b.properties ==> (name in b.required <==> name in c.required))
    && (b.items.Some? <==> c.items.Some?)
  }

  /** Agreement on every modelled keyword, at every depth. */
  ghost predicate Agree(b: Schema, c: Schema)
    decreases b
  {
    if b.Opaque? || c.Opaque? then b == c
    else
      && NodeAgrees(b, c)
      && (forall k :: k in b.properties ==> Agree(b.properties[k], c.properties[k]))
      && (b.items.Some? ==> Agree(b.items.value, c.items.value))
  }

  lemma EnumExact(be: Option<seq<Scalar>>, ce: Option<seq<Scalar>>, d: Direction, path: string)
    ensures DiffEnum(be, ce, d, path) == [] <==> EnumSet(be) == EnumSet(ce)
  {
    var bs, cs := EnumSet(be), EnumSet(ce);
    if bs == cs {
      EqualEnums(be, ce, d, path);
    } else {
      assert exists v :: v in bs - cs || v in cs - bs;
      var v :| v in bs - cs || v in cs - bs;
      EnumMovesReported(be, ce, d, path, v);
    }
  }

  lemma {:induction false} ConstraintsExact(b: Schema, c: Schema, d: Direction, path: string, keys: seq<ConstraintKey>)
    requires b.Node? && c.Node?
    ensures DiffConstraints(b, c, d, path, keys) == []
       <==> forall key :: key in keys ==> ConstraintOf(b, key) == ConstraintOf(c, key)
  {
    if keys != [] {
      var last := |keys| - 1;
      ConstraintsExact(b, c, d, path, keys[..last]);
      assert keys == keys[..last] + [keys[last]];
    }
  }

  lemma {:induction false} PropertiesExact(b: Schema, c: Schema, d: Direction, path: string, depth: nat, names: seq<string>)
    requires b.Node? && c.Node?
    requires forall n :: n in names ==> n in b.properties || n in c.properties
    ensures DiffProperties(b, c, d, path, depth, names) == []
       <==> forall n :: n in names ==> DiffProperty(b, c, d, path, depth, n) == []
  {
    if names != [] {
      var last := |names| - 1;
      PropertiesExact(b, c, d, path, depth, names[..last]);
      assert names == names[..last] + [names[last]];
      assert |DiffProperties(b, c, d, path, depth, names)|
          == |DiffProperties(b, c, d, path, depth, names[..last])| + |DiffProperty(b, c, d, path, depth, names[last])|;
    }
  }

  lemma EmptySix<T>(a1: seq<T>, a2: seq<T>, a3: seq<T>, a4: seq<T>, a5: seq<T>, a6: seq<T>)
    ensures a1 + a2 + a3 + a4 + a5 + a6 == [] <==> a1 == a2 == a3 == a4 == a5 == a6 == []
  {
    assert |a1 + a2 + a3 + a4 + a5 + a6| == |a1| + |a2| + |a3| + |a4| + |a5| + |a6|;
  }

  /** No change at a pair of nodes: none in any part. */
  lemma NodeExact(b: Schema, c: Schema, d: Direction, path: string, depth: nat)
    requires b.Node? && c.Node? && depth <= MAX_DEPTH
    ensures DiffAt(b, c, d, path, depth) == [] <==>
      && DiffType(b, c, d, path) == [] && DiffNullability(b, c, d, path) == []
      && EnumSet(b.enum) == EnumSet(c.enum)
      && (forall key :: ConstraintOf(b, key) == ConstraintOf(c, key))
      && (forall n :: n in b.properties || n in c.properties ==> DiffProperty(b, c, d, path, depth, n) == [])
      && DiffItems(b, c, d, path, depth) == []
  {
    hide Classify, MakeChange, DiffType, DiffNullability, DiffEnum, DiffConstraints, DiffItems, ConstraintOf;
    EmptySix(DiffType(b, c, d, path), DiffNullability(b, c, d, path), DiffEnum(b.enum, c.enum, d, path),
             DiffConstraints(b, c, d, path, CONSTRAINT_KEYS), DiffProperties(b, c, d, path, depth, SharedNames(b, c)),
             DiffItems(b, c, d, path, depth));
    EnumExact(b.enum, c.enum, d, path);
    ConstraintsExact(b, c, d, path, CONSTRAINT_KEYS);
    forall key ensures key in CONSTRAINT_KEYS { EveryKeyListed(key); }
    PropertiesExact(b, c, d, path, depth, SharedNames(b, c));
  }

  lemma {:induction false} DiffExact(b: Schema, c: Schema, d: Direction, path: string, depth: nat)
    requires Fits(b, depth)
    ensures DiffAt(b, c, d, path, depth) == [] <==> Agree(b, c)
    decreases b, 1
  {
    if b.Node? && c.Node? {
      NodeExact(b, c, d, path, depth);
      forall n | n in b.properties || n in c.properties
        ensures DiffProperty(b, c, d, path, depth, n) == [] <==> PropertyAgrees(b, c, n)
      {
        PropertyExact(b, c, d, path, depth, n);
      }
      if b.items.Some? && c.items.Some? {
        DiffExact(b.items.value, c.items.value, d, ItemPath(path), depth + 1);
      }
      AgreeByParts(b, c);
    }
  }

  ghost predicate PropertyAgrees(b: Schema, c: Schema, n: string)
    requires b.Node? && c.Node?
  {
    && n in b.properties && n in c.properties
    && (n in b.required <==> n in c.required)
    && Agree(b.properties[n], c.properties[n])
  }

  lemma AgreeByParts(b: Schema, c: Schema)
    requires b.Node? && c.Node?
    ensures Agree(b, c) <==>
      && (NonNullType(b).Some? && NonNullType(c).Some? ==> NonNullType(b) == NonNullType(c))
      && (IsNullable(b) <==> IsNullable(c))
      && EnumSet(b.enum) == EnumSet(c.enum)
      && (forall key :: ConstraintOf(b, key) == ConstraintOf(c, key))
      && (forall n :: n in b.properties || n in c.properties ==> PropertyAgrees(b, c, n))
      && (b.items.Some? <==> c.items.Some?)
      && (b.items.Some? && c.items.Some? ==> Agree(b.items.value, c.items.value))
  {
    if forall n :: n in b.properties || n in c.properties ==> PropertyAgrees(b, c, n) {
      assert b.properties.Keys == c.properties.Keys;
    }
  }

  lemma PropertyExact(b: Schema, c: Schema, d: Direction, path: string, depth: nat, n: string)
    requires b.Node? && c.Node? && Fits(b, depth)
    requires n in b.properties || n in c.properties
    ensures DiffProperty(b, c, d, path, depth, n) == [] <==> PropertyAgrees(b, c, n)
    decreases b, 0
  {
    if n in b.properties && n in c.properties {
      DiffExact(b.properties[n], c.properties[n], d, PropertyPath(path, n), depth + 1);
    }
  }

  // ---------- the depth bound is never met ----------

  /** What the differ reports in place of comparing a pair nested too deep: a type change showing nothing. */
  predicate Truncated(ch: Change) {
    (ch.changeType.TypeChanged? || ch.changeType.ArrayItemTypeChanged?) && ch.oldValue.NotShown? && ch.newValue.NotShown?
  }

  lemma OwnPartsNotTruncated(b: Schema, c: Schema, d: Direction, path: string, ch: Change)
    requires b.Node? && c.Node? && InOwnParts(b, c, d, path, ch)
    ensures !Truncated(ch)
  {
    hide Classify, DiffEnum, EnumSet, ClassifyConstraintChange, ConstraintTightened, ConstraintOf, NonNullType, IsNullable;
    InEnum(b.enum, c.enum, d, path, ch);
  }

  /** For schemas within the depth bound no comparison is truncated, at any nesting. */
  lemma {:induction false} NothingTruncated(b: Schema, c: Schema, d: Direction, path: string, depth: nat, ch: Change)
    requires Fits(b, depth) && ch in DiffAt(b, c, d, path, depth)
    ensures !Truncated(ch)
    decreases b, 1
  {
    if b.Node? && c.Node? {
      hide Classify, DiffAt, InOwnParts, PropertyPath, ItemPath, Truncated, Fits, DiffProperty;
      InNode(b, c, d, path, depth, ch);
      if InOwnParts(b, c, d, path, ch) {
        OwnPartsNotTruncated(b, c, d, path, ch);
      } else if ch in DiffItems(b, c, d, path, depth) {
        ItemsNotTruncated(b, c, d, path, depth, ch);
      } else {
        var n :| (n in b.properties || n in c.properties) && ch in DiffProperty(b, c, d, path, depth, n);
        PropertyNotTruncated(b, c, d, path, depth, n, ch);
      }
    }
  }

  lemma PropertyNotTruncated(b: Schema, c: Schema, d: Direction, path: string, depth: nat, n: string, ch: Change)
    requires b.Node? && c.Node? && Fits(b, depth) && (n in b.properties || n in c.properties)
    requires ch in DiffProperty(b, c, d, path, depth, n)
    ensures !Truncated(ch)
    decreases b, 0
  {
    hide Classify, DiffAt;
    if n in b.properties && n in c.properties && ch !in DiffRequiredness(b, c, d, PropertyPath(path, n), n) {
      NothingTruncated(b.properties[n], c.properties[n], d, PropertyPath(path, n), depth + 1, ch);
    }
  }

  lemma ItemsNotTruncated(b: Schema, c: Schema, d: Direction, path: string, depth: nat, ch: Change)
    requires b.Node? && c.Node? && Fits(b, depth) && ch in DiffItems(b, c, d, path, depth)
    ensures !Truncated(ch)
    decreases b, 0
  {
    hide Classify, DiffAt;
    if b.items.Some? && c.items.Some? {
      var nested := DiffAt(b.items.value, c.items.value, d, ItemPath(path), depth + 1);
      InRelabeled(nested, ItemPath(path), d, ch);
      var inner :| inner in nested && ch == RelabelOne(inner, ItemPath(path), d);
      NothingTruncated(b.items.value, c.items.value, d, ItemPath(path), depth + 1, inner);
    }
  }
}
