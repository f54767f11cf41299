/** Normalization before comparison: list keywords that are really sets, and the depth bound. */
module SchemaNormalizer {
  import opened Ordering
  import opened JsonValues
  import opened Options
  import opened SchemaModel
  import opened SchemaDiff
  import opened SchemaSemantics

  /** First occurrences, in order. */
  function Dedupe(s: seq<Scalar>): (r: seq<Scalar>)
    ensures SetOf(r) == SetOf(s) && NoDuplicates(r)
  {
    if s == [] then []
    else
      var last := |s| - 1;
      var front := Dedupe(s[..last]);
      assert s == s[..last] + [s[last]];
      assert s[last] in s[..last] <==> s[last] in SetOf(s[..last]);
      assert s[last] in front <==> s[last] in SetOf(front);
      assert SetOf(s) == SetOf(s[..last]) + {s[last]};
      assert SetOf(front + [s[last]]) == SetOf(front) + {s[last]};
      if s[last] in front then front else front + [s[last]]
  }

  /** Some beginning of `r` holds exactly the values of `s`. */
  ghost predicate HeldByPrefix(r: seq<Scalar>, s: seq<Scalar>) {
    exists n :: 0 <= n <= |r| && SetOf(r[..n]) == SetOf(s)
  }

  /** The values come in the order of their first occurrence: every beginning of the list is held by a
      beginning of the result. */
  lemma {:induction false} DedupeInOrder(s: seq<Scalar>, k: nat)
    requires k <= |s|
    ensures HeldByPrefix(Dedupe(s), s[..k])
  {
    var r := Dedupe(s);
    if k == |s| {
      assert r[..|r|] == r && s[..k] == s;
    } else {
      var front := Dedupe(s[..|s| - 1]);
      DedupeInOrder(s[..|s| - 1], k);
      assert s[..|s| - 1][..k] == s[..k];
      var n :| 0 <= n <= |front| && SetOf(front[..n]) == SetOf(s[..k]);
      assert r[..n] == front[..n];
    }
  }

  method CollapseDuplicates(value: seq<Scalar>) returns (seen: seq<Scalar>)
    ensures seen == Dedupe(value)
    ensures NoDuplicates(seen) && forall k :: 0 <= k <= |value| ==> HeldByPrefix(seen, value[..k])
  {
    forall k | 0 <= k <= |value| ensures HeldByPrefix(Dedupe(value), value[..k]) { DedupeInOrder(value, k); }
    seen := [];
    for i := 0 to |value|
      invariant seen == Dedupe(value[..i])
    {
      assert value[..i + 1][..i] == value[..i];
      if value[i] !in seen {
        seen := seen + [value[i]];
      }
    }
    assert value[..|value|] == value;
  }

  function NormalizeType(t: TypeKeyword): TypeKeyword {
    if t.TypeList? then
      var deduped := SortedNames(SetOf(t.names));
      if |deduped| == 1 then OneType(deduped[0]) else TypeList(deduped)
    else t
  }

  /** A keyword whose value is a bare scalar is itself normalized one level down. */
  predicate HasScalarKeyword(s: Schema)
    requires s.Node?
  {
    s.typ.OneType? || s.nullable != NullValue || s.constraints != map[]
  }

  /** `None` is SchemaNormalizationError. */
  function Normalize(s: Schema, depth: nat): (r: Option<Schema>)
    decreases s
  {
    if depth > MAX_DEPTH then None
    else match s
      case Opaque(_) => Some(s)
      case Node(typ, nullable, enum, constraints, properties, required, items, otherHeight) =>
        if HasScalarKeyword(s) && depth + 1 > MAX_DEPTH then None
        else if otherHeight.Some? && depth + 1 + otherHeight.value > MAX_DEPTH then None
        else if exists k :: k in properties && Normalize(properties[k], depth + 1).None? then None
        else if items.Some? && Normalize(items.value, depth + 1).None? then None
        else Some(Node(
          NormalizeType(typ),
          nullable,
          if enum.Some? then Some(Dedupe(enum.value)) else None,
          constraints,
          map k | k in properties :: Normalize(properties[k], depth + 1).value,
          SortedNames(SetOf(required)),
          if items.Some? then Normalize(items.value, depth + 1) else None,
          otherHeight))
  }

  // ---------- normalization preserves meaning ----------

  lemma NormalizeTypeKeepsMeaning(s: Schema, n: Schema, v: Json)
    requires s.Node? && n.Node? && n.typ == NormalizeType(s.typ) && n.nullable == s.nullable
    ensures TypeOk(s, v) <==> TypeOk(n, v)
  {
    if s.typ.TypeList? {
      var deduped := SortedNames(SetOf(s.typ.names));
      assert forall name :: name in deduped <==> name in s.typ.names;
      if |deduped| == 1 {
        assert forall name :: name in deduped <==> name == deduped[0];
      }
    }
  }

  /** A normalized node keyword by keyword: its children are the normalized children. */
  lemma NormalizedNode(s: Schema, depth: nat)
    requires s.Node? && Normalize(s, depth).Some?
    ensures var n := Normalize(s, depth).value;
      && n.Node? && n.typ == NormalizeType(s.typ) && n.nullable == s.nullable && n.constraints == s.constraints
      && n.enum == (if s.enum.Some? then Some(Dedupe(s.enum.value)) else None)
      && n.required == SortedNames(SetOf(s.required))
      && n.properties.Keys == s.properties.Keys && (n.items.Some? <==> s.items.Some?)
      && (forall k :: k in s.properties ==> Normalize(s.properties[k], depth + 1) == Some(n.properties[k]))
      && (s.items.Some? ==> Normalize(s.items.value, depth + 1) == n.items)
  {
    hide NormalizeType, HasScalarKeyword;
  }

  lemma OwnKeywordsKeepMeaning(s: Schema, n: Schema, v: Json, reading: Reading)
    requires s.Node? && n.Node? && n.constraints == s.constraints && n.required == SortedNames(SetOf(s.required))
    requires n.enum == if s.enum.Some? then Some(Dedupe(s.enum.value)) else None
    ensures EnumOk(s.enum, v) <==> EnumOk(n.enum, v)
    ensures ConstraintsOk(s, v, reading) <==> ConstraintsOk(n, v, reading)
    ensures RequiredOk(s, v) <==> RequiredOk(n, v)
  {
    assert forall name :: name in n.required <==> name in s.required;
    assert forall key :: ConstraintOf(n, key) == ConstraintOf(s, key);
  }

  lemma {:induction false} NormalizeKeepsMeaning(s: Schema, depth: nat, v: Json, closed: bool, reading: Reading)
    requires Normalize(s, depth).Some?
    ensures Conforms(s, v, closed, reading) <==> Conforms(Normalize(s, depth).value, v, closed, reading)
    decreases s
  {
    var n := Normalize(s, depth).value;
    if s.Node? {
      NormalizedNode(s, depth);
      NormalizeTypeKeepsMeaning(s, n, v);
      OwnKeywordsKeepMeaning(s, n, v, reading);
      hide Normalize, NormalizeType, TypeOk, EnumOk, ConstraintsOk, RequiredOk, Dedupe, SortedNames, SetOf;
      if v.JObject? {
        forall k | k in s.properties && k in v.fields
          ensures Conforms(s.properties[k], v.fields[k], closed, reading)
             <==> Conforms(n.properties[k], v.fields[k], closed, reading)
        {
          NormalizeKeepsMeaning(s.properties[k], depth + 1, v.fields[k], closed, reading);
        }
        assert forall k :: k in n.properties <==> k in s.properties;
      }
      if v.JArray? && s.items.Some? {
        forall i | 0 <= i < |v.elems|
          ensures Conforms(s.items.value, v.elems[i], closed, reading)
             <==> Conforms(n.items.value, v.elems[i], closed, reading)
        {
          NormalizeKeepsMeaning(s.items.value, depth + 1, v.elems[i], closed, reading);
        }
      }
    }
  }

  // ---------- the depth bound ----------

  /** Every node sits at depth 64 or less, counting from `depth`. */
  ghost predicate Fits(s: Schema, depth: nat)
    decreases s
  {
    depth <= MAX_DEPTH &&
    (s.Node? ==>
       && (forall k :: k in s.properties ==> Fits(s.properties[k], depth + 1))
       && (s.items.Some? ==> Fits(s.items.value, depth + 1)))
  }

  lemma {:induction false} NormalizedFits(s: Schema, depth: nat)
    requires Normalize(s, depth).Some?
    ensures Fits(Normalize(s, depth).value, depth)
    decreases s
  {
    if s.Node? {
      var n := Normalize(s, depth).value;
      forall k | k in n.properties ensures Fits(n.properties[k], depth + 1) {
        NormalizedFits(s.properties[k], depth + 1);
      }
      if s.items.Some? { NormalizedFits(s.items.value, depth + 1); }
    }
  }
}
