/** Swapping the compared values mirrors the difference list, multiplicities included. */
module ValueDiffDuality {
  import opened JsonValues
  import opened Ordering
  import opened ValueDiff
  import opened ValueDiffFacts
  import opened ValueDiffLocations

  /** `y` is the mirror of `x`, as multisets. */
  ghost predicate Mirrors(x: seq<FieldDifference>, y: seq<FieldDifference>) {
    multiset(Mapped(Swapped, x)) == multiset(y)
  }

  lemma MirrorsConcat(a: seq<FieldDifference>, b: seq<FieldDifference>, x: seq<FieldDifference>, y: seq<FieldDifference>)
    requires Mirrors(a, x) && Mirrors(b, y)
    ensures Mirrors(a + b, x + y)
  {
    MappedConcat(Swapped, a, b);
  }

  lemma MirrorsThree(
      a: seq<FieldDifference>, b: seq<FieldDifference>, c: seq<FieldDifference>,
      x: seq<FieldDifference>, y: seq<FieldDifference>, z: seq<FieldDifference>)
    requires Mirrors(a, y) && Mirrors(b, x) && Mirrors(c, z)
    ensures Mirrors(a + b + c, x + y + z)
  {
    MappedConcat(Swapped, a + b, c);
    MappedConcat(Swapped, a, b);
    assert multiset(x + y + z) == multiset(x) + multiset(y) + multiset(z);
  }

  lemma NamesMirror(names: seq<string>, path: seq<PathStep>)
    ensures Mirrors(RemovedFields(names, path), AddedFields(names, path))
    ensures Mirrors(AddedFields(names, path), RemovedFields(names, path))
  {
    hide Mapped;
    assert Mapped(Swapped, RemovedFields(names, path)) == AddedFields(names, path);
    assert Mapped(Swapped, AddedFields(names, path)) == RemovedFields(names, path);
  }

  lemma TailsMirror(from: nat, to: nat, path: seq<PathStep>)
    requires from <= to
    ensures Mirrors(RemovedTail(from, to, path), AddedTail(from, to, path))
    ensures Mirrors(AddedTail(from, to, path), RemovedTail(from, to, path))
  {
    hide Mapped;
    var removed, added := RemovedTail(from, to, path), AddedTail(from, to, path);
    forall i | 0 <= i < to - from ensures Swapped(removed[i]) == added[i] && Swapped(added[i]) == removed[i] {
      assert removed[i] == RemovedAt(path + [Position(from + i)]);
      assert added[i] == AddedAt(path + [Position(from + i)]);
    }
    assert Mapped(Swapped, removed) == added;
    assert Mapped(Swapped, added) == removed;
  }

  lemma {:induction false} FieldsMirror(names: seq<string>, a: Json, b: Json, path: seq<PathStep>, depth: nat, sensitive: string -> bool)
    requires a.JObject? && b.JObject? && depth <= MAX_DEPTH
    requires forall k :: k in names ==> k in a.fields && k in b.fields
    ensures Mirrors(SharedFields(names, a, b, path, depth, sensitive), SharedFields(names, b, a, path, depth, sensitive))
    decreases a, 0, |names|
  {
    hide Mirrors, SharedField;
    if names == [] {
      NothingMirrors();
    } else {
      var last := |names| - 1;
      FieldsMirror(names[..last], a, b, path, depth, sensitive);
      FieldMirrors(names[last], a, b, path, depth, sensitive);
      MirrorsConcat(SharedFields(names[..last], a, b, path, depth, sensitive), SharedField(names[last], a, b, path, depth, sensitive),
                    SharedFields(names[..last], b, a, path, depth, sensitive), SharedField(names[last], b, a, path, depth, sensitive));
    }
  }

  lemma NothingMirrors()
    ensures Mirrors([], [])
  {
  }

  lemma OneMirrors(d: FieldDifference)
    requires Swapped(d) == d
    ensures Mirrors([d], [d])
  {
    assert Mapped(Swapped, [d]) == [d];
  }

  lemma {:induction false} FieldMirrors(k: string, a: Json, b: Json, path: seq<PathStep>, depth: nat, sensitive: string -> bool)
    requires a.JObject? && b.JObject? && k in a.fields && k in b.fields
    ensures Mirrors(SharedField(k, a, b, path, depth, sensitive), SharedField(k, b, a, path, depth, sensitive))
    decreases a, 0, 0
  {
    hide Mirrors, PyEqual, Differences;
    PyEqualSymmetric(a.fields[k], b.fields[k]);
    NothingMirrors();
    OneMirrors(FieldDifference(ValueDifference, path + [Key(k)], NoReason, true));
    DiffMirrors(a.fields[k], b.fields[k], path + [Key(k)], depth + 1, sensitive);
  }

  lemma {:induction false} ElementsMirror(n: nat, a: Json, b: Json, path: seq<PathStep>, depth: nat, sensitive: string -> bool)
    requires a.JArray? && b.JArray? && n <= |a.elems| && n <= |b.elems|
    ensures Mirrors(SharedElements(n, a, b, path, depth, sensitive), SharedElements(n, b, a, path, depth, sensitive))
    decreases a, 0, n
  {
    hide Mirrors, Differences;
    if n == 0 {
      NothingMirrors();
    } else {
      var i, at := n - 1, path + [Position(n - 1)];
      ElementsMirror(i, a, b, path, depth, sensitive);
      DiffMirrors(a.elems[i], b.elems[i], at, depth + 1, sensitive);
      MirrorsConcat(SharedElements(i, a, b, path, depth, sensitive), Differences(a.elems[i], b.elems[i], at, depth + 1, sensitive),
                    SharedElements(i, b, a, path, depth, sensitive), Differences(b.elems[i], a.elems[i], at, depth + 1, sensitive));
    }
  }

  lemma {:induction false} ObjectMirrors(a: Json, b: Json, path: seq<PathStep>, depth: nat, sensitive: string -> bool)
    requires a.JObject? && b.JObject? && depth <= MAX_DEPTH
    ensures Mirrors(Differences(a, b, path, depth, sensitive), Differences(b, a, path, depth, sensitive))
    decreases a, 1
  {
    var lost, gained := SortedNames(a.fields.Keys - b.fields.Keys), SortedNames(b.fields.Keys - a.fields.Keys);
    var shared := SortedNames(a.fields.Keys * b.fields.Keys);
    assert b.fields.Keys * a.fields.Keys == a.fields.Keys * b.fields.Keys;
    assert Differences(a, b, path, depth, sensitive)
      == RemovedFields(lost, path) + AddedFields(gained, path) + SharedFields(shared, a, b, path, depth, sensitive);
    assert Differences(b, a, path, depth, sensitive)
      == RemovedFields(gained, path) + AddedFields(lost, path) + SharedFields(shared, b, a, path, depth, sensitive);
    hide Mirrors, Differences, SharedFields, RemovedFields, AddedFields, SortedNames;
    NamesMirror(lost, path);
    NamesMirror(gained, path);
    FieldsMirror(shared, a, b, path, depth, sensitive);
    MirrorsThree(RemovedFields(lost, path), AddedFields(gained, path), SharedFields(shared, a, b, path, depth, sensitive),
                 RemovedFields(gained, path), AddedFields(lost, path), SharedFields(shared, b, a, path, depth, sensitive));
  }

  lemma {:induction false} ArrayMirrors(a: Json, b: Json, path: seq<PathStep>, depth: nat, sensitive: string -> bool)
    requires a.JArray? && b.JArray? && depth <= MAX_DEPTH
    ensures Mirrors(Differences(a, b, path, depth, sensitive), Differences(b, a, path, depth, sensitive))
    decreases a, 1
  {
    var n, p, q := if |a.elems| <= |b.elems| then |a.elems| else |b.elems|, |a.elems|, |b.elems|;
    var s, t := SharedElements(n, a, b, path, depth, sensitive), SharedElements(n, b, a, path, depth, sensitive);
    assert Differences(a, b, path, depth, sensitive) == s + RemovedTail(n, p, path) + AddedTail(n, q, path);
    assert Differences(b, a, path, depth, sensitive) == t + RemovedTail(n, q, path) + AddedTail(n, p, path);
    ElementsMirror(n, a, b, path, depth, sensitive);
    hide Differences, SharedElements, RemovedTail, AddedTail;
    TailsMirror(n, p, path);
    TailsMirror(n, q, path);
    TailsSwap(s, RemovedTail(n, p, path), AddedTail(n, q, path), t, RemovedTail(n, q, path), AddedTail(n, p, path));
  }

  lemma TailsSwap(
      a: seq<FieldDifference>, b: seq<FieldDifference>, c: seq<FieldDifference>,
      x: seq<FieldDifference>, y: seq<FieldDifference>, z: seq<FieldDifference>)
    requires Mirrors(a, x) && Mirrors(b, z) && Mirrors(c, y)
    ensures Mirrors(a + b + c, x + y + z)
  {
    MappedConcat(Swapped, a + b, c);
    MappedConcat(Swapped, a, b);
    assert multiset(x + y + z) == multiset(x) + multiset(y) + multiset(z);
  }

  /** Comparing the other way round reports the same differences, each as often, with removal and
      addition exchanged. */
  lemma {:induction false} DiffMirrors(a: Json, b: Json, path: seq<PathStep>, depth: nat, sensitive: string -> bool)
    ensures Mirrors(Differences(a, b, path, depth, sensitive), Differences(b, a, path, depth, sensitive))
    decreases a, 2
  {
    if depth <= MAX_DEPTH && a.JObject? && b.JObject? {
      ObjectMirrors(a, b, path, depth, sensitive);
    } else if depth <= MAX_DEPTH && a.JArray? && b.JArray? {
      ArrayMirrors(a, b, path, depth, sensitive);
    } else {
      LeafMirrors(a, b, path, depth, sensitive);
    }
  }

  lemma LeafMirrors(a: Json, b: Json, path: seq<PathStep>, depth: nat, sensitive: string -> bool)
    requires depth > MAX_DEPTH || !Alike(a, b)
    ensures Mirrors(Differences(a, b, path, depth, sensitive), Differences(b, a, path, depth, sensitive))
  {
    LeafDifferences(a, b, path, depth, sensitive);
    LeafDifferences(b, a, path, depth, sensitive);
    PyEqualSymmetric(a, b);
    hide Mirrors, Differences, PyEqual;
    NothingMirrors();
    OneMirrors(FieldDifference(SchemaDifference, path, TypeDiffers, false));
    OneMirrors(FieldDifference(ValueDifference, path, NoReason, false));
  }

  /** One difference at a time. */
  lemma DiffSymmetric(a: Json, b: Json, path: seq<PathStep>, depth: nat, sensitive: string -> bool, d: FieldDifference)
    requires d in Differences(a, b, path, depth, sensitive)
    ensures Swapped(d) in Differences(b, a, path, depth, sensitive)
  {
    hide Differences, Mapped;
    DiffMirrors(a, b, path, depth, sensitive);
    var x, y := Differences(a, b, path, depth, sensitive), Differences(b, a, path, depth, sensitive);
    var i :| 0 <= i < |x| && x[i] == d;
    assert Mapped(Swapped, x)[i] == Swapped(d);
    MembersOfPermutation(Mapped(Swapped, x), y);
  }
}
