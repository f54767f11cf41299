/** The value differ is complete up to its depth bound, and symmetric. */
module ValueDiffFacts {
  import opened JsonValues
  import opened Ordering
  import opened ValueDiff

  /** Every value of the tree sits at depth 64 or less, counting from `depth`. */
  ghost predicate Within(v: Json, depth: nat)
    decreases v
  {
    && depth <= MAX_DEPTH
    && (v.JArray? ==> forall i :: 0 <= i < |v.elems| ==> Within(v.elems[i], depth + 1))
    && (v.JObject? ==> forall k :: k in v.fields ==> Within(v.fields[k], depth + 1))
  }

  /** Equal in structure and in scalar types; under a sensitive key, equal for Python's `==`. */
  ghost predicate SameValue(a: Json, b: Json, sensitive: string -> bool)
    decreases a
  {
    match (a, b)
    case (JArray(x), JArray(y)) => |x| == |y| && forall i :: 0 <= i < |x| ==> SameValue(x[i], y[i], sensitive)
    case (JObject(x), JObject(y)) =>
      && (forall k :: k in x <==> k in y)
      && (forall k :: k in x && k in y ==> if sensitive(k) then PyEqual(x[k], y[k]) else SameValue(x[k], y[k], sensitive))
    case _ => a == b
  }

  // ---------- emptiness, part by part ----------

  lemma {:induction false} NoSharedField(names: seq<string>, a: Json, b: Json, path: seq<PathStep>, depth: nat, sensitive: string -> bool)
    requires a.JObject? && b.JObject?
    requires forall k :: k in names ==> k in a.fields && k in b.fields
    ensures SharedFields(names, a, b, path, depth, sensitive) == []
       <==> forall k :: k in names ==> SharedField(k, a, b, path, depth, sensitive) == []
  {
    hide SharedField;
    if names != [] {
      var last := |names| - 1;
      NoSharedField(names[..last], a, b, path, depth, sensitive);
      assert names == names[..last] + [names[last]];
      assert |SharedFields(names, a, b, path, depth, sensitive)|
          == |SharedFields(names[..last], a, b, path, depth, sensitive)| + |SharedField(names[last], a, b, path, depth, sensitive)|;
    }
  }

  lemma {:induction false} NoSharedElement(n: nat, a: Json, b: Json, path: seq<PathStep>, depth: nat, sensitive: string -> bool)
    requires a.JArray? && b.JArray? && n <= |a.elems| && n <= |b.elems|
    ensures SharedElements(n, a, b, path, depth, sensitive) == []
       <==> forall i :: 0 <= i < n ==> Differences(a.elems[i], b.elems[i], path + [Position(i)], depth + 1, sensitive) == []
  {
    hide Differences;
    if n > 0 {
      NoSharedElement(n - 1, a, b, path, depth, sensitive);
      assert |SharedElements(n, a, b, path, depth, sensitive)|
          == |SharedElements(n - 1, a, b, path, depth, sensitive)|
             + |Differences(a.elems[n - 1], b.elems[n - 1], path + [Position(n - 1)], depth + 1, sensitive)|;
    }
  }

  lemma ObjectEmpty(a: Json, b: Json, path: seq<PathStep>, depth: nat, sensitive: string -> bool)
    requires a.JObject? && b.JObject? && depth <= MAX_DEPTH
    ensures Differences(a, b, path, depth, sensitive) == [] <==>
      && (forall k :: k in a.fields <==> k in b.fields)
      && (forall k :: k in a.fields && k in b.fields ==> SharedField(k, a, b, path, depth, sensitive) == [])
  {
    var lost, gained := SortedNames(a.fields.Keys - b.fields.Keys), SortedNames(b.fields.Keys - a.fields.Keys);
    var shared := SortedNames(a.fields.Keys * b.fields.Keys);
    NoSharedField(shared, a, b, path, depth, sensitive);
    hide SharedField, SharedFields, SortedNames;
    assert |Differences(a, b, path, depth, sensitive)|
        == |lost| + |gained| + |SharedFields(shared, a, b, path, depth, sensitive)|;
    assert (forall k :: k in a.fields <==> k in b.fields) <==> |lost| == 0 && |gained| == 0 by {
      assert forall k :: k in lost <==> k in a.fields && k !in b.fields;
      assert forall k :: k in gained <==> k in b.fields && k !in a.fields;
      if |lost| > 0 { assert lost[0] in lost; }
      if |gained| > 0 { assert gained[0] in gained; }
    }
  }

  lemma ArrayEmpty(a: Json, b: Json, path: seq<PathStep>, depth: nat, sensitive: string -> bool)
    requires a.JArray? && b.JArray? && depth <= MAX_DEPTH
    ensures Differences(a, b, path, depth, sensitive) == [] <==>
      && |a.elems| == |b.elems|
      && forall i :: 0 <= i < |a.elems| && i < |b.elems| ==>
           Differences(a.elems[i], b.elems[i], path + [Position(i)], depth + 1, sensitive) == []
  {
    var n := if |a.elems| <= |b.elems| then |a.elems| else |b.elems|;
    NoSharedElement(n, a, b, path, depth, sensitive);
    hide SharedElements;
    assert |Differences(a, b, path, depth, sensitive)|
        == |SharedElements(n, a, b, path, depth, sensitive)| + (|a.elems| - n) + (|b.elems| - n);
  }

  lemma ScalarEmpty(a: Json, b: Json, path: seq<PathStep>, depth: nat, sensitive: string -> bool)
    requires depth <= MAX_DEPTH && !(a.JObject? && b.JObject?) && !(a.JArray? && b.JArray?)
    ensures Differences(a, b, path, depth, sensitive) == [] <==> SameValue(a, b, sensitive)
  {
    assert Differences(a, b, path, depth, sensitive) == [] <==> SameType(a, b) && PyEqual(a, b);
  }

  lemma {:induction false} ObjectComplete(a: Json, b: Json, path: seq<PathStep>, depth: nat, sensitive: string -> bool)
    requires a.JObject? && b.JObject? && (Within(a, depth) || Within(b, depth))
    ensures Differences(a, b, path, depth, sensitive) == [] <==> SameValue(a, b, sensitive)
    decreases a, 0
  {
    hide Differences, PyEqual;
    ObjectEmpty(a, b, path, depth, sensitive);
    forall k | k in a.fields && k in b.fields
      ensures SharedField(k, a, b, path, depth, sensitive) == []
         <==> if sensitive(k) then PyEqual(a.fields[k], b.fields[k]) else SameValue(a.fields[k], b.fields[k], sensitive)
    {
      if !sensitive(k) { DiffComplete(a.fields[k], b.fields[k], path + [Key(k)], depth + 1, sensitive); }
    }
  }

  /** Within the depth bound on one side, no difference is reported exactly when the values are the same. */
  lemma {:induction false} DiffComplete(a: Json, b: Json, path: seq<PathStep>, depth: nat, sensitive: string -> bool)
    requires Within(a, depth) || Within(b, depth)
    ensures Differences(a, b, path, depth, sensitive) == [] <==> SameValue(a, b, sensitive)
    decreases a, 1
  {
    hide Differences;
    if a.JObject? && b.JObject? {
      ObjectComplete(a, b, path, depth, sensitive);
    } else if a.JArray? && b.JArray? {
      ArrayEmpty(a, b, path, depth, sensitive);
      forall i | 0 <= i < |a.elems| && i < |b.elems|
        ensures Differences(a.elems[i], b.elems[i], path + [Position(i)], depth + 1, sensitive) == []
           <==> SameValue(a.elems[i], b.elems[i], sensitive)
      {
        DiffComplete(a.elems[i], b.elems[i], path + [Position(i)], depth + 1, sensitive);
      }
    } else {
      ScalarEmpty(a, b, path, depth, sensitive);
    }
  }

  /** No key of the tree is sensitive. */
  ghost predicate NothingSensitive(v: Json, sensitive: string -> bool)
    decreases v
  {
    && (v.JArray? ==> forall i :: 0 <= i < |v.elems| ==> NothingSensitive(v.elems[i], sensitive))
    && (v.JObject? ==> forall k :: k in v.fields ==> !sensitive(k) && NothingSensitive(v.fields[k], sensitive))
  }

  lemma {:induction false} SameIsEqual(a: Json, b: Json, sensitive: string -> bool)
    requires NothingSensitive(a, sensitive)
    ensures SameValue(a, b, sensitive) <==> a == b
    decreases a
  {
    match (a, b)
    case (JArray(x), JArray(y)) =>
      forall i | 0 <= i < |x| && i < |y| ensures SameValue(x[i], y[i], sensitive) <==> x[i] == y[i] {
        SameIsEqual(x[i], y[i], sensitive);
      }
      assert x == y <==> |x| == |y| && forall i :: 0 <= i < |x| && i < |y| ==> x[i] == y[i];
    case (JObject(x), JObject(y)) =>
      forall k | k in x && k in y ensures SameValue(x[k], y[k], sensitive) <==> x[k] == y[k] {
        SameIsEqual(x[k], y[k], sensitive);
      }
      assert x == y <==> (forall k :: k in x <==> k in y) && forall k :: k in x && k in y ==> x[k] == y[k];
    case _ =>
  }

  lemma {:induction false} PyEqualReflexive(a: Json)
    ensures PyEqual(a, a)
    decreases a
  {
    match a
    case JArray(x) => forall i | 0 <= i < |x| ensures PyEqual(x[i], x[i]) { PyEqualReflexive(x[i]); }
    case JObject(x) => forall k | k in x ensures PyEqual(x[k], x[k]) { PyEqualReflexive(x[k]); }
    case _ =>
  }

  /** A value never differs from itself, at any nesting. */
  lemma {:induction false} SelfDiffEmpty(a: Json, path: seq<PathStep>, depth: nat, sensitive: string -> bool)
    ensures Differences(a, a, path, depth, sensitive) == []
    decreases a
  {
    if depth <= MAX_DEPTH {
      if a.JObject? {
        ObjectEmpty(a, a, path, depth, sensitive);
        forall k | k in a.fields ensures SharedField(k, a, a, path, depth, sensitive) == [] {
          PyEqualReflexive(a.fields[k]);
          SelfDiffEmpty(a.fields[k], path + [Key(k)], depth + 1, sensitive);
        }
      } else if a.JArray? {
        ArrayEmpty(a, a, path, depth, sensitive);
        forall i | 0 <= i < |a.elems| ensures Differences(a.elems[i], a.elems[i], path + [Position(i)], depth + 1, sensitive) == [] {
          SelfDiffEmpty(a.elems[i], path + [Position(i)], depth + 1, sensitive);
        }
      }
    }
  }

  lemma SingleFieldWithin(key: string, v: Json)
    requires !v.JArray? && !v.JObject?
    ensures Within(JObject(map[key := v]), 0)
  {
    assert Within(v, 1);
  }

  lemma SensitiveNumbersSame(key: string, n: int, sensitive: string -> bool)
    requires sensitive(key)
    ensures SameValue(JObject(map[key := JInt(n)]), JObject(map[key := JFloat(n as real)]), sensitive)
  {
    assert PyEqual(JInt(n), JFloat(n as real));
  }

  /** A gap inside the bound: under a sensitive key an integer may become the equal float unnoticed. */
  lemma SensitiveNumberGap(key: string, n: int, sensitive: string -> bool)
    requires sensitive(key)
    ensures var a, b := JObject(map[key := JInt(n)]), JObject(map[key := JFloat(n as real)]);
      a != b && Within(a, 0) && Differences(a, b, [], 0, sensitive) == []
  {
    hide Differences, SameValue, Within;
    var a, b := JObject(map[key := JInt(n)]), JObject(map[key := JFloat(n as real)]);
    assert a.fields[key] != b.fields[key];
    SingleFieldWithin(key, JInt(n));
    SensitiveNumbersSame(key, n, sensitive);
    DiffComplete(a, b, [], 0, sensitive);
  }

  // ---------- symmetry ----------

  function Swapped(d: FieldDifference): FieldDifference {
    match d.reason
    case FieldRemoved => d.(reason := FieldAdded)
    case FieldAdded => d.(reason := FieldRemoved)
    case _ => d
  }

  lemma {:induction false} PyEqualSymmetric(a: Json, b: Json)
    ensures PyEqual(a, b) == PyEqual(b, a)
    decreases a
  {
    match (a, b)
    case (JArray(x), JArray(y)) =>
      forall i | 0 <= i < |x| && i < |y| ensures PyEqual(x[i], y[i]) == PyEqual(y[i], x[i]) { PyEqualSymmetric(x[i], y[i]); }
    case (JObject(x), JObject(y)) =>
      forall k | k in x && k in y ensures PyEqual(x[k], y[k]) == PyEqual(y[k], x[k]) { PyEqualSymmetric(x[k], y[k]); }
    case _ =>
  }
}
