/** The recursive schema differ: the specification functions, and the loops that build the lists. */
module SchemaDiff {
  import opened Ordering
  import opened Options
  import opened SchemaModel
  import opened SchemaRules

  const MAX_DEPTH: nat := 64

  function MakeChange(t: ChangeType, path: string, d: Direction, oldValue: Shown, newValue: Shown): Change
    requires t != ConstraintChanged
  {
    var (cl, sv) := Classify(t, d);
    Change(t, path, cl, sv, oldValue, newValue, NoEvidence)
  }

  // ---------- keyword readings ----------

  predicate Truthy(v: Scalar) {
    match v
    case NullValue => false
    case BoolValue(b) => b
    case NumberValue(r) => r != 0.0
    case TextValue(s) => s != ""
  }

  predicate IsNullable(s: Schema)
    requires s.Node?
  {
    (s.typ.TypeList? && "null" in s.typ.names) || Truthy(s.nullable)
  }

  function WithoutNull(names: seq<string>): (r: seq<string>)
    ensures forall n :: n in r <==> n in names && n != "null"
  {
    if names == [] then []
    else
      var rest := WithoutNull(names[1..]);
      assert names == [names[0]] + names[1..];
      if names[0] == "null" then rest else [names[0]] + rest
  }

  /** The declared type without "null"; one remaining name stands for the bare string. */
  function NonNullType(s: Schema): Option<seq<string>>
    requires s.Node?
  {
    match s.typ
    case NoType => None
    case OneType(name) => Some([name])
    case TypeList(names) => if WithoutNull(names) == [] then None else Some(WithoutNull(names))
  }

  // ---------- specification of the differ ----------

  function DiffAt(b: Schema, c: Schema, d: Direction, path: string, depth: nat): seq<Change>
    decreases b, 2, 0
  {
    if depth > MAX_DEPTH then [MakeChange(TypeChanged, path, d, NotShown, NotShown)]
    else if b.Opaque? || c.Opaque? then
      if b == c then [] else [MakeChange(TypeChanged, path, d, ShownSchema(b), ShownSchema(c))]
    else
      DiffType(b, c, d, path)
      + DiffNullability(b, c, d, path)
      + DiffEnum(b.enum, c.enum, d, path)
      + DiffConstraints(b, c, d, path, CONSTRAINT_KEYS)
      + DiffProperties(b, c, d, path, depth, SharedNames(b, c))
      + DiffItems(b, c, d, path, depth)
  }

  function DiffType(b: Schema, c: Schema, d: Direction, path: string): seq<Change>
    requires b.Node? && c.Node?
  {
    var bt, ct := NonNullType(b), NonNullType(c);
    if bt.Some? && ct.Some? && bt != ct
    then [MakeChange(TypeChanged, path, d, ShownType(bt.value), ShownType(ct.value))]
    else []
  }

  function DiffNullability(b: Schema, c: Schema, d: Direction, path: string): seq<Change>
    requires b.Node? && c.Node?
  {
    if IsNullable(b) && !IsNullable(c) then [MakeChange(NullableToNonNullable, path, d, NotShown, NotShown)]
    else if !IsNullable(b) && IsNullable(c) then [MakeChange(NonNullableToNullable, path, d, NotShown, NotShown)]
    else []
  }

  function ScalarRank(v: Scalar): int {
    match v case NullValue => 0 case BoolValue(_) => 1 case NumberValue(_) => 2 case TextValue(_) => 3
  }

  predicate ScalarLe(x: Scalar, y: Scalar) {
    match (x, y)
    case (BoolValue(a), BoolValue(b)) => a ==> b
    case (NumberValue(a), NumberValue(b)) => a <= b
    case (TextValue(a), TextValue(b)) => NameLe(a, b)
    case _ => ScalarRank(x) <= ScalarRank(y)
  }

  lemma ScalarOrder()
    ensures TotalOrder(ScalarLe)
  {
    forall x, y ensures (ScalarLe(x, y) || ScalarLe(y, x)) && (ScalarLe(x, y) && ScalarLe(y, x) ==> x == y) {
      if x.TextValue? && y.TextValue? { NameLeTotal(x.s, y.s); }
    }
    forall x, y, z | ScalarLe(x, y) && ScalarLe(y, z) ensures ScalarLe(x, z) {
      if x.TextValue? && y.TextValue? && z.TextValue? { NameLeTransitive(x.s, y.s, z.s); }
    }
  }

  function SortedScalars(s: set<Scalar>): (r: seq<Scalar>)
    ensures forall x :: x in r <==> x in s
    ensures |r| == |s|
  {
    ScalarOrder();
    SortedElements(s, ScalarLe)
  }

  function RemovedValue(v: Scalar, d: Direction, path: string): Change {
    MakeChange(EnumValueRemoved, path, d, ShownScalar(v), NotShown)
  }

  function AddedValue(v: Scalar, d: Direction, path: string): Change {
    MakeChange(EnumValueAdded, path, d, NotShown, ShownScalar(v))
  }

  function RemovedValuesOver(vs: seq<Scalar>, d: Direction, path: string): seq<Change> {
    if vs == [] then [] else RemovedValuesOver(vs[..|vs| - 1], d, path) + [RemovedValue(vs[|vs| - 1], d, path)]
  }

  function AddedValuesOver(vs: seq<Scalar>, d: Direction, path: string): seq<Change> {
    if vs == [] then [] else AddedValuesOver(vs[..|vs| - 1], d, path) + [AddedValue(vs[|vs| - 1], d, path)]
  }

  function Narrowing(bs: set<Scalar>, cs: set<Scalar>, d: Direction, path: string): seq<Change> {
    if cs != {} && cs < bs
    then [MakeChange(EnumNarrowed, path, d, ShownScalars(bs), ShownScalars(cs)).(evidence := RemovedValues(bs - cs))]
    else []
  }

  function DiffEnum(be: Option<seq<Scalar>>, ce: Option<seq<Scalar>>, d: Direction, path: string): seq<Change> {
    var bs, cs := EnumSet(be), EnumSet(ce);
    RemovedValuesOver(SortedScalars(bs - cs), d, path)
    + AddedValuesOver(SortedScalars(cs - bs), d, path)
    + Narrowing(bs, cs, d, path)
  }

  function DiffConstraint(b: Schema, c: Schema, d: Direction, path: string, key: ConstraintKey): seq<Change>
    requires b.Node? && c.Node?
  {
    var bv, cv := ConstraintOf(b, key), ConstraintOf(c, key);
    if bv == cv then []
    else
      var tightened := ConstraintTightened(key, bv, cv);
      var (cl, sv) := ClassifyConstraintChange(d, tightened);
      [Change(ConstraintChanged, path, cl, sv, ShownScalar(bv), ShownScalar(cv), ConstraintEvidence(key, tightened))]
  }

  function DiffConstraints(b: Schema, c: Schema, d: Direction, path: string, keys: seq<ConstraintKey>): seq<Change>
    requires b.Node? && c.Node?
  {
    if keys == [] then []
    else
      var last := |keys| - 1;
      DiffConstraints(b, c, d, path, keys[..last]) + DiffConstraint(b, c, d, path, keys[last])
  }

  function SharedNames(b: Schema, c: Schema): (names: seq<string>)
    requires b.Node? && c.Node?
    ensures forall n :: n in names <==> n in b.properties || n in c.properties
  {
    SortedNames(b.properties.Keys + c.properties.Keys)
  }

  function PropertyPath(path: string, name: string): string { path + ".properties." + name }

  function DiffRequiredness(b: Schema, c: Schema, d: Direction, path: string, name: string): seq<Change>
    requires b.Node? && c.Node?
  {
    if name !in b.required && name in c.required then [MakeChange(RequiredFieldAdded, path, d, NotShown, NotShown)]
    else if name in b.required && name !in c.required then [MakeChange(RequiredFieldRemoved, path, d, NotShown, NotShown)]
    else []
  }

  function DiffProperty(b: Schema, c: Schema, d: Direction, path: string, depth: nat, name: string): seq<Change>
    requires b.Node? && c.Node?
    requires name in b.properties || name in c.properties
    decreases b, 0, 0
  {
    var at := PropertyPath(path, name);
    if name !in c.properties then
      [MakeChange(if name in b.required then RequiredFieldRemoved else FieldRemoved, at, d,
                  ShownSchema(b.properties[name]), NotShown)]
    else if name !in b.properties then
      [MakeChange(if name in c.required then RequiredFieldAdded else FieldAdded, at, d,
                  NotShown, ShownSchema(c.properties[name]))]
    else
      DiffRequiredness(b, c, d, at, name)
      + DiffAt(b.properties[name], c.properties[name], d, at, depth + 1)
  }

  function DiffProperties(b: Schema, c: Schema, d: Direction, path: string, depth: nat, names: seq<string>): seq<Change>
    requires b.Node? && c.Node?
    requires forall n :: n in names ==> n in b.properties || n in c.properties
    decreases b, 1, |names|
  {
    if names == [] then []
    else
      var last := |names| - 1;
      DiffProperties(b, c, d, path, depth, names[..last]) + DiffProperty(b, c, d, path, depth, names[last])
  }

  function ItemPath(path: string): string { path + "[]" }

  /** The item node's own type change is reported as an array-item type change. */
  function RelabelOne(ch: Change, at: string, d: Direction): Change {
    if ch.path == at && ch.changeType == TypeChanged
    then MakeChange(ArrayItemTypeChanged, ch.path, d, ch.oldValue, ch.newValue)
    else ch
  }

  function Relabel(changes: seq<Change>, at: string, d: Direction): (r: seq<Change>)
    ensures |r| == |changes|
    ensures forall i :: 0 <= i < |r| ==> r[i] == RelabelOne(changes[i], at, d)
  {
    seq(|changes|, i requires 0 <= i < |changes| => RelabelOne(changes[i], at, d))
  }

  function ShownItems(items: Option<Schema>): Shown {
    if items.Some? then ShownSchema(items.value) else NotShown
  }

  function DiffItems(b: Schema, c: Schema, d: Direction, path: string, depth: nat): seq<Change>
    requires b.Node? && c.Node?
    decreases b, 0, 0
  {
    if b.items.None? && c.items.None? then []
    else if b.items.None? || c.items.None? then
      [MakeChange(ArrayItemTypeChanged, ItemPath(path), d, ShownItems(b.items), ShownItems(c.items))]
    else
      Relabel(DiffAt(b.items.value, c.items.value, d, ItemPath(path), depth + 1), ItemPath(path), d)
  }

  // ---------- the differ as it runs ----------

  method DiffSchemas(b: Schema, c: Schema, d: Direction, path: string, depth: nat) returns (changes: seq<Change>)
    ensures changes == DiffAt(b, c, d, path, depth)
    decreases b, 4
  {
    if depth > MAX_DEPTH {
      changes := [MakeChange(TypeChanged, path, d, NotShown, NotShown)];
    } else if b.Opaque? || c.Opaque? {
      changes := if b != c then [MakeChange(TypeChanged, path, d, ShownSchema(b), ShownSchema(c))] else [];
    } else {
      changes := NodeChanges(b, c, d, path);
      var more := PropertyChanges(b, c, d, path, depth);
      changes := changes + more;
      more := ItemChanges(b, c, d, path, depth);
      changes := changes + more;
    }
  }

  /** The changes of the node itself: type, nullability, enum, constraints. */
  method NodeChanges(b: Schema, c: Schema, d: Direction, path: string) returns (changes: seq<Change>)
    requires b.Node? && c.Node?
    ensures changes == DiffType(b, c, d, path) + DiffNullability(b, c, d, path)
                       + DiffEnum(b.enum, c.enum, d, path) + DiffConstraints(b, c, d, path, CONSTRAINT_KEYS)
  {
    changes := [];
    var bt, ct := NonNullType(b), NonNullType(c);
    if bt.Some? && ct.Some? && bt != ct {
      changes := changes + [MakeChange(TypeChanged, path, d, ShownType(bt.value), ShownType(ct.value))];
    }
    assert changes == DiffType(b, c, d, path);
    if IsNullable(b) && !IsNullable(c) {
      changes := changes + [MakeChange(NullableToNonNullable, path, d, NotShown, NotShown)];
    } else if !IsNullable(b) && IsNullable(c) {
      changes := changes + [MakeChange(NonNullableToNullable, path, d, NotShown, NotShown)];
    }
    assert changes == DiffType(b, c, d, path) + DiffNullability(b, c, d, path);
    var more := EnumChanges(b.enum, c.enum, d, path);
    changes := changes + more;
    more := ConstraintChanges(b, c, d, path);
    changes := changes + more;
  }

  method EnumChanges(be: Option<seq<Scalar>>, ce: Option<seq<Scalar>>, d: Direction, path: string)
    returns (changes: seq<Change>)
    ensures changes == DiffEnum(be, ce, d, path)
  {
    var bs, cs := EnumSet(be), EnumSet(ce);
    if bs == cs {
      EqualEnums(be, ce, d, path);
      return [];
    }
    var removed, added := SortedScalars(bs - cs), SortedScalars(cs - bs);
    changes := ReportRemoved(removed, d, path);
    var more := ReportAdded(added, d, path);
    changes := changes + more;
    more := [];
    if removed != [] && cs != {} && cs < bs {
      more := [MakeChange(EnumNarrowed, path, d, ShownScalars(bs), ShownScalars(cs)).(evidence := RemovedValues(bs - cs))];
    }
    assert cs < bs ==> |bs - cs| > 0;
    assert more == Narrowing(bs, cs, d, path);
    changes := changes + more;
  }

  lemma EqualEnums(be: Option<seq<Scalar>>, ce: Option<seq<Scalar>>, d: Direction, path: string)
    requires EnumSet(be) == EnumSet(ce)
    ensures DiffEnum(be, ce, d, path) == []
  {
    assert EnumSet(be) - EnumSet(ce) == {};
  }

  method ReportRemoved(removed: seq<Scalar>, d: Direction, path: string) returns (changes: seq<Change>)
    ensures changes == RemovedValuesOver(removed, d, path)
  {
    changes := [];
    for i := 0 to |removed|
      invariant changes == RemovedValuesOver(removed[..i], d, path)
    {
      assert removed[..i + 1][..i] == removed[..i];
      changes := changes + [RemovedValue(removed[i], d, path)];
    }
    assert removed[..|removed|] == removed;
  }

  method ReportAdded(added: seq<Scalar>, d: Direction, path: string) returns (changes: seq<Change>)
    ensures changes == AddedValuesOver(added, d, path)
  {
    changes := [];
    for i := 0 to |added|
      invariant changes == AddedValuesOver(added[..i], d, path)
    {
      assert added[..i + 1][..i] == added[..i];
      changes := changes + [AddedValue(added[i], d, path)];
    }
    assert added[..|added|] == added;
  }

  lemma NextConstraint(b: Schema, c: Schema, d: Direction, path: string, i: nat)
    requires b.Node? && c.Node? && i < |CONSTRAINT_KEYS|
    ensures DiffConstraints(b, c, d, path, CONSTRAINT_KEYS[..i + 1])
      == DiffConstraints(b, c, d, path, CONSTRAINT_KEYS[..i]) + DiffConstraint(b, c, d, path, CONSTRAINT_KEYS[i])
  {
    hide DiffConstraint;
    assert CONSTRAINT_KEYS[..i + 1][..i] == CONSTRAINT_KEYS[..i];
  }

  method ConstraintChanges(b: Schema, c: Schema, d: Direction, path: string) returns (changes: seq<Change>)
    requires b.Node? && c.Node?
    ensures changes == DiffConstraints(b, c, d, path, CONSTRAINT_KEYS)
  {
    hide ConstraintTightened, ClassifyConstraintChange, ConstraintOf;
    changes := [];
    for i := 0 to |CONSTRAINT_KEYS|
      invariant changes == DiffConstraints(b, c, d, path, CONSTRAINT_KEYS[..i])
    {
      NextConstraint(b, c, d, path, i);
      var key := CONSTRAINT_KEYS[i];
      var bv, cv := ConstraintOf(b, key), ConstraintOf(c, key);
      if bv == cv || (bv == NullValue && cv == NullValue) {
        continue;
      }
      var tightened := ConstraintTightened(key, bv, cv);
      var (cl, sv) := ClassifyConstraintChange(d, tightened);
      changes := changes + [Change(ConstraintChanged, path, cl, sv, ShownScalar(bv), ShownScalar(cv),
                                   ConstraintEvidence(key, tightened))];
    }
    assert CONSTRAINT_KEYS[..|CONSTRAINT_KEYS|] == CONSTRAINT_KEYS;
  }

  method PropertyChanges(b: Schema, c: Schema, d: Direction, path: string, depth: nat) returns (changes: seq<Change>)
    requires b.Node? && c.Node?
    ensures changes == DiffProperties(b, c, d, path, depth, SharedNames(b, c))
    decreases b, 3
  {
    var names := SharedNames(b, c);
    if b.properties == map[] && c.properties == map[] {
      assert b.properties.Keys + c.properties.Keys == {};
      assert |names| == 0;
      return [];
    }
    changes := PropertyChangesOver(b, c, d, path, depth, names);
  }

  method PropertyChangesOver(b: Schema, c: Schema, d: Direction, path: string, depth: nat, names: seq<string>)
    returns (changes: seq<Change>)
    requires b.Node? && c.Node?
    requires forall n :: n in names ==> n in b.properties || n in c.properties
    ensures changes == DiffProperties(b, c, d, path, depth, names)
    decreases b, 2
  {
    changes := [];
    for i := 0 to |names|
      invariant changes == DiffProperties(b, c, d, path, depth, names[..i])
    {
      assert names[..i + 1][..i] == names[..i];
      var more := PropertyChange(b, c, d, path, depth, names[i]);
      changes := changes + more;
    }
    assert names[..|names|] == names;
  }

  /** One turn of the loop over the property names. */
  method PropertyChange(b: Schema, c: Schema, d: Direction, path: string, depth: nat, name: string)
    returns (changes: seq<Change>)
    requires b.Node? && c.Node?
    requires name in b.properties || name in c.properties
    ensures changes == DiffProperty(b, c, d, path, depth, name)
    decreases b, 1
  {
    var at := PropertyPath(path, name);
    var wasRequired, nowRequired := name in b.required, name in c.required;
    if name in b.properties && name !in c.properties {
      return [MakeChange(if wasRequired then RequiredFieldRemoved else FieldRemoved, at, d,
                         ShownSchema(b.properties[name]), NotShown)];
    }
    if name !in b.properties && name in c.properties {
      return [MakeChange(if nowRequired then RequiredFieldAdded else FieldAdded, at, d,
                         NotShown, ShownSchema(c.properties[name]))];
    }
    changes := [];
    if !wasRequired && nowRequired {
      changes := changes + [MakeChange(RequiredFieldAdded, at, d, NotShown, NotShown)];
    } else if wasRequired && !nowRequired {
      changes := changes + [MakeChange(RequiredFieldRemoved, at, d, NotShown, NotShown)];
    }
    assert changes == DiffRequiredness(b, c, d, at, name);
    var nested := DiffSchemas(b.properties[name], c.properties[name], d, at, depth + 1);
    changes := changes + nested;
  }

  method ItemChanges(b: Schema, c: Schema, d: Direction, path: string, depth: nat) returns (changes: seq<Change>)
    requires b.Node? && c.Node?
    ensures changes == DiffItems(b, c, d, path, depth)
    decreases b, 1
  {
    if b.items.None? && c.items.None? {
      return [];
    }
    var at := ItemPath(path);
    if b.items.None? || c.items.None? {
      return [MakeChange(ArrayItemTypeChanged, at, d, ShownItems(b.items), ShownItems(c.items))];
    }
    var nested := DiffSchemas(b.items.value, c.items.value, d, at, depth + 1);
    changes := RelabelItemType(nested, at, d);
  }

  method RelabelItemType(nested: seq<Change>, at: string, d: Direction) returns (relabeled: seq<Change>)
    ensures relabeled == Relabel(nested, at, d)
  {
    hide Classify;
    relabeled := [];
    ghost var all := Relabel(nested, at, d);
    for i := 0 to |nested|
      invariant relabeled == all[..i]
    {
      assert all[i] == RelabelOne(nested[i], at, d) && all[..i + 1] == all[..i] + [all[i]];
      if nested[i].path == at && nested[i].changeType == TypeChanged {
        relabeled := relabeled
          + [MakeChange(ArrayItemTypeChanged, nested[i].path, d, nested[i].oldValue, nested[i].newValue)];
      } else {
        relabeled := relabeled + [nested[i]];
      }
    }
  }
}
