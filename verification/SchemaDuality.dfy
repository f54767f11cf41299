/** Symmetries of the differ: swapping the two schemas, changing the direction, and where
    changes of a node can sit. */
module SchemaDuality {
  import opened Ordering
  import opened Options
  import opened SchemaModel
  import opened SchemaRules
  import opened SchemaDiff
  import opened SchemaDiffFacts
  import opened SchemaVerdicts

  // ---------- the direction only decides verdicts ----------

  function Redirected(ch: Change, d: Direction): Change {
    var (cl, sv) := Verdict(ch, d);
    ch.(classification := cl, severity := sv)
  }

  function RedirectAll(s: seq<Change>, d: Direction): seq<Change> { Mapped((ch: Change) => Redirected(ch, d), s) }

  lemma RedirectConcat(a: seq<Change>, b: seq<Change>, d: Direction)
    ensures RedirectAll(a + b, d) == RedirectAll(a, d) + RedirectAll(b, d)
  {
    MappedConcat((ch: Change) => Redirected(ch, d), a, b);
  }

  lemma {:induction false} RedirectRemoved(vs: seq<Scalar>, d: Direction, d': Direction, path: string)
    ensures RedirectAll(RemovedValuesOver(vs, d, path), d') == RemovedValuesOver(vs, d', path)
  {
    hide Classify;
    if vs != [] {
      var last := |vs| - 1;
      RedirectRemoved(vs[..last], d, d', path);
      RedirectConcat(RemovedValuesOver(vs[..last], d, path), [RemovedValue(vs[last], d, path)], d');
    }
  }

  lemma {:induction false} RedirectAdded(vs: seq<Scalar>, d: Direction, d': Direction, path: string)
    ensures RedirectAll(AddedValuesOver(vs, d, path), d') == AddedValuesOver(vs, d', path)
  {
    hide Classify;
    if vs != [] {
      var last := |vs| - 1;
      RedirectAdded(vs[..last], d, d', path);
      RedirectConcat(AddedValuesOver(vs[..last], d, path), [AddedValue(vs[last], d, path)], d');
    }
  }

  lemma RedirectEnum(be: Option<seq<Scalar>>, ce: Option<seq<Scalar>>, d: Direction, d': Direction, path: string)
    ensures RedirectAll(DiffEnum(be, ce, d, path), d') == DiffEnum(be, ce, d', path)
  {
    hide Classify, SortedScalars, EnumSet, RemovedValuesOver, AddedValuesOver;
    var bs, cs := EnumSet(be), EnumSet(ce);
    var removed, added := RemovedValuesOver(SortedScalars(bs - cs), d, path), AddedValuesOver(SortedScalars(cs - bs), d, path);
    RedirectConcat(removed + added, Narrowing(bs, cs, d, path), d');
    RedirectConcat(removed, added, d');
    RedirectRemoved(SortedScalars(bs - cs), d, d', path);
    RedirectAdded(SortedScalars(cs - bs), d, d', path);
  }

  lemma {:induction false} RedirectConstraints(b: Schema, c: Schema, d: Direction, d': Direction, path: string, keys: seq<ConstraintKey>)
    requires b.Node? && c.Node?
    ensures RedirectAll(DiffConstraints(b, c, d, path, keys), d') == DiffConstraints(b, c, d', path, keys)
  {
    hide ClassifyConstraintChange, ConstraintTightened, ConstraintOf;
    if keys != [] {
      var last := |keys| - 1;
      RedirectConstraints(b, c, d, d', path, keys[..last]);
      RedirectConcat(DiffConstraints(b, c, d, path, keys[..last]), DiffConstraint(b, c, d, path, keys[last]), d');
      assert RedirectAll(DiffConstraint(b, c, d, path, keys[last]), d') == DiffConstraint(b, c, d', path, keys[last]);
    }
  }

  lemma RedirectTypeAndNull(b: Schema, c: Schema, d: Direction, d': Direction, path: string)
    requires b.Node? && c.Node?
    ensures RedirectAll(DiffType(b, c, d, path), d') == DiffType(b, c, d', path)
    ensures RedirectAll(DiffNullability(b, c, d, path), d') == DiffNullability(b, c, d', path)
  {
    hide Classify, NonNullType, IsNullable;
  }

  /** The list for another direction is the same list, verdicts apart: types, paths, values and order agree. */
  lemma {:induction false} DirectionOnlyDecidesVerdicts(b: Schema, c: Schema, d: Direction, d': Direction, path: string, depth: nat)
    ensures RedirectAll(DiffAt(b, c, d, path, depth), d') == DiffAt(b, c, d', path, depth)
    decreases b, 3
  {
    hide Classify;
    if depth <= MAX_DEPTH && b.Node? && c.Node? {
      RedirectNode(b, c, d, d', path, depth);
    }
  }

  lemma RedirectNode(b: Schema, c: Schema, d: Direction, d': Direction, path: string, depth: nat)
    requires depth <= MAX_DEPTH && b.Node? && c.Node?
    ensures RedirectAll(DiffAt(b, c, d, path, depth), d') == DiffAt(b, c, d', path, depth)
    decreases b, 2
  {
    hide RedirectAll, DiffType, DiffNullability, DiffEnum, DiffConstraints, DiffProperties, DiffItems;
    var a1, a2, a3, a4 := DiffType(b, c, d, path), DiffNullability(b, c, d, path),
                          DiffEnum(b.enum, c.enum, d, path), DiffConstraints(b, c, d, path, CONSTRAINT_KEYS);
    var a5, a6 := DiffProperties(b, c, d, path, depth, SharedNames(b, c)), DiffItems(b, c, d, path, depth);
    RedirectConcat(a1 + a2 + a3 + a4 + a5, a6, d');
    RedirectConcat(a1 + a2 + a3 + a4, a5, d');
    RedirectConcat(a1 + a2 + a3, a4, d');
    RedirectConcat(a1 + a2, a3, d');
    RedirectConcat(a1, a2, d');
    RedirectTypeAndNull(b, c, d, d', path);
    RedirectEnum(b.enum, c.enum, d, d', path);
    RedirectConstraints(b, c, d, d', path, CONSTRAINT_KEYS);
    RedirectProperties(b, c, d, d', path, depth, SharedNames(b, c));
    RedirectItems(b, c, d, d', path, depth);
  }

  lemma {:induction false} RedirectProperties(b: Schema, c: Schema, d: Direction, d': Direction, path: string, depth: nat, names: seq<string>)
    requires b.Node? && c.Node?
    requires forall n :: n in names ==> n in b.properties || n in c.properties
    ensures RedirectAll(DiffProperties(b, c, d, path, depth, names), d') == DiffProperties(b, c, d', path, depth, names)
    decreases b, 1, |names|
  {
    hide RedirectAll, DiffProperty;
    if names != [] {
      var last := |names| - 1;
      RedirectProperties(b, c, d, d', path, depth, names[..last]);
      RedirectProperty(b, c, d, d', path, depth, names[last]);
      RedirectConcat(DiffProperties(b, c, d, path, depth, names[..last]), DiffProperty(b, c, d, path, depth, names[last]), d');
    } else {
      RedirectNothing(d');
    }
  }

  lemma RedirectNothing(d: Direction)
    ensures RedirectAll([], d) == []
  {
  }

  lemma RedirectProperty(b: Schema, c: Schema, d: Direction, d': Direction, path: string, depth: nat, n: string)
    requires b.Node? && c.Node? && (n in b.properties || n in c.properties)
    ensures RedirectAll(DiffProperty(b, c, d, path, depth, n), d') == DiffProperty(b, c, d', path, depth, n)
    decreases b, 0
  {
    hide Classify, DiffAt, PropertyPath;
    if n in b.properties && n in c.properties {
      var at := PropertyPath(path, n);
      RedirectConcat(DiffRequiredness(b, c, d, at, n), DiffAt(b.properties[n], c.properties[n], d, at, depth + 1), d');
      RedirectRequiredness(b, c, d, d', at, n);
      hide RedirectAll, DiffRequiredness;
      DirectionOnlyDecidesVerdicts(b.properties[n], c.properties[n], d, d', at, depth + 1);
    }
  }

  lemma RedirectRequiredness(b: Schema, c: Schema, d: Direction, d': Direction, at: string, n: string)
    requires b.Node? && c.Node?
    ensures RedirectAll(DiffRequiredness(b, c, d, at, n), d') == DiffRequiredness(b, c, d', at, n)
  {
    hide Classify;
  }

  lemma RedirectItems(b: Schema, c: Schema, d: Direction, d': Direction, path: string, depth: nat)
    requires b.Node? && c.Node?
    ensures RedirectAll(DiffItems(b, c, d, path, depth), d') == DiffItems(b, c, d', path, depth)
    decreases b, 0
  {
    hide Classify, DiffAt, Relabel;
    if b.items.Some? && c.items.Some? {
      DirectionOnlyDecidesVerdicts(b.items.value, c.items.value, d, d', ItemPath(path), depth + 1);
      RedirectRelabeled(DiffAt(b.items.value, c.items.value, d, ItemPath(path), depth + 1), d, d', ItemPath(path));
    }
  }

  lemma RedirectRelabeled(nested: seq<Change>, d: Direction, d': Direction, at: string)
    ensures RedirectAll(Relabel(nested, at, d), d') == Relabel(RedirectAll(nested, d'), at, d')
  {
    hide Classify;
  }

  // ---------- swapping the schemas ----------

  function DualType(t: ChangeType): ChangeType {
    match t
    case FieldAdded => FieldRemoved
    case FieldRemoved => FieldAdded
    case RequiredFieldAdded => RequiredFieldRemoved
    case RequiredFieldRemoved => RequiredFieldAdded
    case NullableToNonNullable => NonNullableToNullable
    case NonNullableToNullable => NullableToNonNullable
    case EnumValueAdded => EnumValueRemoved
    case EnumValueRemoved => EnumValueAdded
    case _ => t
  }

  function Flipped(tightened: Option<bool>): Option<bool> {
    if tightened.Some? then Some(!tightened.value) else None
  }

  /** The change seen from the other side: added/removed, tightened/loosened and old/new exchanged,
      with the verdict the tables give the exchanged change. */
  function Dual(ch: Change, d: Direction): Change {
    if ch.changeType.ConstraintChanged? && ch.evidence.ConstraintEvidence? then
      var flipped := Flipped(ch.evidence.tightened);
      var (cl, sv) := ClassifyConstraintChange(d, flipped);
      Change(ConstraintChanged, ch.path, cl, sv, ch.newValue, ch.oldValue, ConstraintEvidence(ch.evidence.key, flipped))
    else if ch.changeType.ConstraintChanged? then ch
    else MakeChange(DualType(ch.changeType), ch.path, d, ch.newValue, ch.oldValue)
  }

  /** ENUM_NARROWED is reported for one direction of travel only. */
  predicate TwoSided(ch: Change) { !ch.changeType.EnumNarrowed? }

  function Plain(s: seq<Change>): seq<Change> { Kept(TwoSided, s) }

  function Mirror(s: seq<Change>, d: Direction): seq<Change> { Mapped((ch: Change) => Dual(ch, d), Plain(s)) }

  lemma PlainConcat(a: seq<Change>, b: seq<Change>)
    ensures Plain(a + b) == Plain(a) + Plain(b)
  {
    KeptConcat(TwoSided, a, b);
  }

  lemma MirrorConcat(a: seq<Change>, b: seq<Change>, d: Direction)
    ensures Mirror(a + b, d) == Mirror(a, d) + Mirror(b, d)
  {
    PlainConcat(a, b);
    MappedConcat((ch: Change) => Dual(ch, d), Plain(a), Plain(b));
  }

  /** `s` and the mirror of `t` hold the same two-sided changes, counted with multiplicity. */
  ghost predicate Mirrored(s: seq<Change>, t: seq<Change>, d: Direction) {
    multiset(Plain(s)) == multiset(Mirror(t, d))
  }

  lemma MirroredConcat(s: seq<Change>, s': seq<Change>, t: seq<Change>, t': seq<Change>, d: Direction)
    requires Mirrored(s, t, d) && Mirrored(s', t', d)
    ensures Mirrored(s + s', t + t', d)
  {
    hide Plain, Mirror;
    PlainConcat(s, s');
    MirrorConcat(t, t', d);
  }

  lemma MirroredNothing(d: Direction)
    ensures Mirrored([], [], d)
  {
  }

  lemma MirroredOne(ch: Change, ch': Change, d: Direction)
    requires TwoSided(ch) && TwoSided(ch') && ch == Dual(ch', d)
    ensures Mirrored([ch], [ch'], d)
  {
    hide Dual;
    KeptOne(TwoSided, ch);
    KeptOne(TwoSided, ch');
    assert Mirror([ch'], d) == [Dual(ch', d)];
  }

  lemma {:induction false} MirroredValues(vs: seq<Scalar>, d: Direction, path: string)
    ensures Plain(RemovedValuesOver(vs, d, path)) == Mirror(AddedValuesOver(vs, d, path), d)
    ensures Plain(AddedValuesOver(vs, d, path)) == Mirror(RemovedValuesOver(vs, d, path), d)
  {
    hide Classify;
    if vs != [] {
      var last := |vs| - 1;
      MirroredValues(vs[..last], d, path);
      var r, a := RemovedValue(vs[last], d, path), AddedValue(vs[last], d, path);
      PlainConcat(RemovedValuesOver(vs[..last], d, path), [r]);
      PlainConcat(AddedValuesOver(vs[..last], d, path), [a]);
      MirrorConcat(RemovedValuesOver(vs[..last], d, path), [r], d);
      MirrorConcat(AddedValuesOver(vs[..last], d, path), [a], d);
      KeptOne(TwoSided, r);
      KeptOne(TwoSided, a);
      assert Mirror([r], d) == [Dual(r, d)] == [a] && Mirror([a], d) == [Dual(a, d)] == [r];
    }
  }

  lemma NarrowingIsOneSided(bs: set<Scalar>, cs: set<Scalar>, d: Direction, path: string)
    ensures Plain(Narrowing(bs, cs, d, path)) == []
  {
    hide Classify;
    if Narrowing(bs, cs, d, path) != [] { KeptOne(TwoSided, Narrowing(bs, cs, d, path)[0]); }
  }

  lemma MirroredEnum(be: Option<seq<Scalar>>, ce: Option<seq<Scalar>>, d: Direction, path: string)
    ensures Mirrored(DiffEnum(ce, be, d, path), DiffEnum(be, ce, d, path), d)
  {
    var bs, cs := EnumSet(be), EnumSet(ce);
    var lost, gained := SortedScalars(bs - cs), SortedScalars(cs - bs);
    EnumPlain(be, ce, d, path);
    EnumPlain(ce, be, d, path);
    hide Classify, SortedScalars, EnumSet, RemovedValuesOver, AddedValuesOver, DiffEnum, Plain, Dual;
    MappedConcat((ch: Change) => Dual(ch, d), Plain(RemovedValuesOver(lost, d, path)), Plain(AddedValuesOver(gained, d, path)));
    MirroredValues(lost, d, path);
    MirroredValues(gained, d, path);
  }

  lemma EnumPlain(be: Option<seq<Scalar>>, ce: Option<seq<Scalar>>, d: Direction, path: string)
    ensures Plain(DiffEnum(be, ce, d, path))
         == Plain(RemovedValuesOver(SortedScalars(EnumSet(be) - EnumSet(ce)), d, path))
            + Plain(AddedValuesOver(SortedScalars(EnumSet(ce) - EnumSet(be)), d, path))
  {
    hide SortedScalars, EnumSet, RemovedValuesOver, AddedValuesOver, Plain, Narrowing;
    var bs, cs := EnumSet(be), EnumSet(ce);
    var r, a := RemovedValuesOver(SortedScalars(bs - cs), d, path), AddedValuesOver(SortedScalars(cs - bs), d, path);
    PlainConcat(r + a, Narrowing(bs, cs, d, path));
    PlainConcat(r, a);
    NarrowingIsOneSided(bs, cs, d, path);
  }

  lemma MirroredConstraint(b: Schema, c: Schema, d: Direction, path: string, key: ConstraintKey)
    requires b.Node? && c.Node?
    ensures Mirrored(DiffConstraint(c, b, d, path, key), DiffConstraint(b, c, d, path, key), d)
  {
    hide ClassifyConstraintChange, Mirrored, ConstraintOf;
    if ConstraintOf(b, key) == ConstraintOf(c, key) {
      MirroredNothing(d);
    } else {
      MirroredOne(DiffConstraint(c, b, d, path, key)[0], DiffConstraint(b, c, d, path, key)[0], d);
    }
  }

  lemma {:induction false} MirroredConstraints(b: Schema, c: Schema, d: Direction, path: string, keys: seq<ConstraintKey>)
    requires b.Node? && c.Node?
    ensures Mirrored(DiffConstraints(c, b, d, path, keys), DiffConstraints(b, c, d, path, keys), d)
  {
    hide Mirrored, DiffConstraint;
    if keys == [] {
      MirroredNothing(d);
    } else {
      var last := |keys| - 1;
      MirroredConstraints(b, c, d, path, keys[..last]);
      MirroredConstraint(b, c, d, path, keys[last]);
      MirroredConcat(DiffConstraints(c, b, d, path, keys[..last]), DiffConstraint(c, b, d, path, keys[last]),
                     DiffConstraints(b, c, d, path, keys[..last]), DiffConstraint(b, c, d, path, keys[last]), d);
    }
  }

  lemma MirroredType(b: Schema, c: Schema, d: Direction, path: string)
    requires b.Node? && c.Node?
    ensures Mirrored(DiffType(c, b, d, path), DiffType(b, c, d, path), d)
  {
    hide Classify, Mirrored, NonNullType;
    if DiffType(b, c, d, path) == [] {
      MirroredNothing(d);
    } else {
      MirroredOne(DiffType(c, b, d, path)[0], DiffType(b, c, d, path)[0], d);
    }
  }

  lemma MirroredNullability(b: Schema, c: Schema, d: Direction, path: string)
    requires b.Node? && c.Node?
    ensures Mirrored(DiffNullability(c, b, d, path), DiffNullability(b, c, d, path), d)
  {
    hide Classify, Mirrored, IsNullable;
    if IsNullable(b) == IsNullable(c) {
      MirroredNothing(d);
    } else {
      MirroredOne(DiffNullability(c, b, d, path)[0], DiffNullability(b, c, d, path)[0], d);
    }
  }

  lemma MirroredRequiredness(b: Schema, c: Schema, d: Direction, path: string, n: string)
    requires b.Node? && c.Node?
    ensures Mirrored(DiffRequiredness(c, b, d, path, n), DiffRequiredness(b, c, d, path, n), d)
  {
    hide Classify, Mirrored;
    if n in b.required <==> n in c.required {
      MirroredNothing(d);
    } else {
      MirroredOne(DiffRequiredness(c, b, d, path, n)[0], DiffRequiredness(b, c, d, path, n)[0], d);
    }
  }

  lemma MirroredProperty(b: Schema, c: Schema, d: Direction, path: string, depth: nat, n: string)
    requires b.Node? && c.Node? && (n in b.properties || n in c.properties)
    ensures Mirrored(DiffProperty(c, b, d, path, depth, n), DiffProperty(b, c, d, path, depth, n), d)
    decreases b, 0
  {
    hide Classify, Mirrored, DiffAt, DiffRequiredness;
    var at := PropertyPath(path, n);
    if n in b.properties && n in c.properties {
      MirroredRequiredness(b, c, d, at, n);
      SwapDuality(b.properties[n], c.properties[n], d, at, depth + 1);
      MirroredConcat(DiffRequiredness(c, b, d, at, n), DiffAt(c.properties[n], b.properties[n], d, at, depth + 1),
                     DiffRequiredness(b, c, d, at, n), DiffAt(b.properties[n], c.properties[n], d, at, depth + 1), d);
    } else {
      MirroredOne(DiffProperty(c, b, d, path, depth, n)[0], DiffProperty(b, c, d, path, depth, n)[0], d);
    }
  }

  lemma {:induction false} MirroredProperties(b: Schema, c: Schema, d: Direction, path: string, depth: nat, names: seq<string>)
    requires b.Node? && c.Node?
    requires forall n :: n in names ==> n in b.properties || n in c.properties
    ensures Mirrored(DiffProperties(c, b, d, path, depth, names), DiffProperties(b, c, d, path, depth, names), d)
    decreases b, 1, |names|
  {
    hide Mirrored, DiffProperty;
    if names == [] {
      MirroredNothing(d);
    } else {
      var last := |names| - 1;
      MirroredProperties(b, c, d, path, depth, names[..last]);
      MirroredProperty(b, c, d, path, depth, names[last]);
      MirroredConcat(DiffProperties(c, b, d, path, depth, names[..last]), DiffProperty(c, b, d, path, depth, names[last]),
                     DiffProperties(b, c, d, path, depth, names[..last]), DiffProperty(b, c, d, path, depth, names[last]), d);
    }
  }

  /** Relabelling acts on each change alone, keeps narrowings apart, and commutes with `Dual`. */
  lemma {:induction false} RelabelPlain(s: seq<Change>, at: string, d: Direction)
    ensures Plain(Relabel(s, at, d)) == Relabel(Plain(s), at, d)
  {
    hide Classify;
    if s != [] {
      RelabelPlain(s[1..], at, d);
      assert Relabel(s, at, d) == [RelabelOne(s[0], at, d)] + Relabel(s[1..], at, d);
      assert TwoSided(RelabelOne(s[0], at, d)) == TwoSided(s[0]);
    }
  }

  lemma RelabelDual(ch: Change, at: string, d: Direction)
    ensures RelabelOne(Dual(ch, d), at, d) == Dual(RelabelOne(ch, at, d), d)
  {
    hide Classify;
  }

  lemma RelabelIsMapped(s: seq<Change>, at: string, d: Direction)
    ensures Relabel(s, at, d) == Mapped((ch: Change) => RelabelOne(ch, at, d), s)
  {
    hide RelabelOne;
  }

  lemma MirroredRelabel(s: seq<Change>, t: seq<Change>, at: string, d: Direction)
    requires Mirrored(s, t, d)
    ensures Mirrored(Relabel(s, at, d), Relabel(t, at, d), d)
  {
    hide Dual, RelabelOne, Plain;
    var relabel := (ch: Change) => RelabelOne(ch, at, d);
    MappedPermutation(relabel, Plain(s), Mirror(t, d));
    RelabelPlain(s, at, d);
    RelabelPlain(t, at, d);
    RelabelIsMapped(Plain(s), at, d);
    assert Mapped(relabel, Mirror(t, d)) == Mirror(Relabel(t, at, d), d) by {
      forall ch ensures RelabelOne(Dual(ch, d), at, d) == Dual(RelabelOne(ch, at, d), d) { RelabelDual(ch, at, d); }
    }
  }

  lemma MirroredItems(b: Schema, c: Schema, d: Direction, path: string, depth: nat)
    requires b.Node? && c.Node?
    ensures Mirrored(DiffItems(c, b, d, path, depth), DiffItems(b, c, d, path, depth), d)
    decreases b, 0
  {
    hide Classify, Mirrored, DiffAt;
    var at := ItemPath(path);
    if b.items.None? && c.items.None? {
      MirroredNothing(d);
    } else if b.items.None? || c.items.None? {
      MirroredOne(DiffItems(c, b, d, path, depth)[0], DiffItems(b, c, d, path, depth)[0], d);
    } else {
      SwapDuality(b.items.value, c.items.value, d, at, depth + 1);
      MirroredRelabel(DiffAt(c.items.value, b.items.value, d, at, depth + 1),
                      DiffAt(b.items.value, c.items.value, d, at, depth + 1), at, d);
    }
  }

  /** Diffing the other way round reports the mirrored changes, as a multiset, ENUM_NARROWED apart. */
  lemma {:induction false} SwapDuality(b: Schema, c: Schema, d: Direction, path: string, depth: nat)
    ensures Mirrored(DiffAt(c, b, d, path, depth), DiffAt(b, c, d, path, depth), d)
    decreases b, 3
  {
    hide Classify, Mirrored;
    if depth <= MAX_DEPTH && b.Node? && c.Node? {
      SwapNode(b, c, d, path, depth);
    } else if DiffAt(b, c, d, path, depth) == [] {
      MirroredNothing(d);
    } else {
      MirroredOne(DiffAt(c, b, d, path, depth)[0], DiffAt(b, c, d, path, depth)[0], d);
    }
  }

  lemma SwapNode(b: Schema, c: Schema, d: Direction, path: string, depth: nat)
    requires depth <= MAX_DEPTH && b.Node? && c.Node?
    ensures Mirrored(DiffAt(c, b, d, path, depth), DiffAt(b, c, d, path, depth), d)
    decreases b, 2
  {
    hide Mirrored, DiffType, DiffNullability, DiffEnum, DiffConstraints, DiffProperties, DiffItems, SortedNames;
    assert SharedNames(b, c) == SharedNames(c, b) by {
      assert b.properties.Keys + c.properties.Keys == c.properties.Keys + b.properties.Keys;
    }
    var names := SharedNames(b, c);
    MirroredType(b, c, d, path);
    MirroredNullability(b, c, d, path);
    MirroredEnum(b.enum, c.enum, d, path);
    MirroredConstraints(b, c, d, path, CONSTRAINT_KEYS);
    MirroredProperties(b, c, d, path, depth, names);
    MirroredItems(b, c, d, path, depth);
    var x1, x2, x3, x4 := DiffType(c, b, d, path), DiffNullability(c, b, d, path),
                          DiffEnum(c.enum, b.enum, d, path), DiffConstraints(c, b, d, path, CONSTRAINT_KEYS);
    var y1, y2, y3, y4 := DiffType(b, c, d, path), DiffNullability(b, c, d, path),
                          DiffEnum(b.enum, c.enum, d, path), DiffConstraints(b, c, d, path, CONSTRAINT_KEYS);
    var x5, y5 := DiffProperties(c, b, d, path, depth, names), DiffProperties(b, c, d, path, depth, names);
    MirroredConcat(x1, x2, y1, y2, d);
    MirroredConcat(x1 + x2, x3, y1 + y2, y3, d);
    MirroredConcat(x1 + x2 + x3, x4, y1 + y2 + y3, y4, d);
    MirroredConcat(x1 + x2 + x3 + x4, x5, y1 + y2 + y3 + y4, y5, d);
    MirroredConcat(x1 + x2 + x3 + x4 + x5, DiffItems(c, b, d, path, depth),
                   y1 + y2 + y3 + y4 + y5, DiffItems(b, c, d, path, depth), d);
  }

  // ---------- paths ----------

  /** Every change of a subtree sits at the subtree's path or strictly below it; the ones at the
      path itself are the node's own. So relabelling an item node's TYPE_CHANGED reaches nothing else. */
  lemma {:induction false} ChangesSitBelow(b: Schema, c: Schema, d: Direction, path: string, depth: nat, ch: Change)
    requires ch in DiffAt(b, c, d, path, depth)
    ensures ch.path == path || |ch.path| > |path|
    ensures ch.path == path && depth <= MAX_DEPTH && b.Node? && c.Node? ==> InOwnParts(b, c, d, path, ch)
    decreases b, 1
  {
    hide Classify;
    if depth <= MAX_DEPTH && b.Node? && c.Node? {
      InNode(b, c, d, path, depth, ch);
      if !InOwnParts(b, c, d, path, ch) {
        ChildrenSitBelow(b, c, d, path, depth, ch);
      } else {
        OwnPartsWellClassified(b, c, d, path, ch);
      }
    }
  }

  lemma ChildrenSitBelow(b: Schema, c: Schema, d: Direction, path: string, depth: nat, ch: Change)
    requires b.Node? && c.Node?
    requires ch in DiffItems(b, c, d, path, depth)
      || exists n :: (n in b.properties || n in c.properties) && ch in DiffProperty(b, c, d, path, depth, n)
    ensures |ch.path| > |path|
    decreases b, 0
  {
    hide Classify, DiffAt;
    if ch in DiffItems(b, c, d, path, depth) {
      if b.items.Some? && c.items.Some? {
        var nested := DiffAt(b.items.value, c.items.value, d, ItemPath(path), depth + 1);
        InRelabeled(nested, ItemPath(path), d, ch);
        var inner :| inner in nested && ch == RelabelOne(inner, ItemPath(path), d);
        ChangesSitBelow(b.items.value, c.items.value, d, ItemPath(path), depth + 1, inner);
      }
    } else {
      var n :| (n in b.properties || n in c.properties) && ch in DiffProperty(b, c, d, path, depth, n);
      if n in b.properties && n in c.properties && ch !in DiffRequiredness(b, c, d, PropertyPath(path, n), n) {
        ChangesSitBelow(b.properties[n], c.properties[n], d, PropertyPath(path, n), depth + 1, ch);
      }
    }
  }
}
