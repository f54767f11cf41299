/** List keywords are sets: permuting or repeating their entries, at any depth, changes nothing. */
module SchemaReordering {
  import opened Options
  import opened SchemaModel
  import opened SchemaDiff
  import opened SchemaNormalizer
  import opened SchemaExactness
  import opened CompatibilityAnalyzer

  ghost predicate SameTypes(s: TypeKeyword, t: TypeKeyword) {
    s == t || (s.TypeList? && t.TypeList? && SetOf(s.names) == SetOf(t.names))
  }

  /** `t` is `s` with the entries of `required`, `type` and `enum` lists permuted or repeated. */
  ghost predicate Reordered(s: Schema, t: Schema)
    decreases s
  {
    if s.Opaque? || t.Opaque? then s == t
    else
      && SameTypes(s.typ, t.typ) && s.nullable == t.nullable
      && (s.enum.Some? <==> t.enum.Some?) && EnumSet(s.enum) == EnumSet(t.enum)
      && s.constraints == t.constraints
      && SetOf(s.required) == SetOf(t.required)
      && s.otherHeight == t.otherHeight
      && s.properties.Keys == t.properties.Keys
      && (forall k :: k in s.properties ==> Reordered(s.properties[k], t.properties[k]))
      && (s.items.Some? <==> t.items.Some?)
      && (s.items.Some? ==> Reordered(s.items.value, t.items.value))
  }

  /** When a node normalizes: shallow enough, and so are its children. */
  ghost predicate Normalizes(s: Schema, depth: nat)
    requires s.Node?
  {
    && depth <= MAX_DEPTH
    && (HasScalarKeyword(s) ==> depth + 1 <= MAX_DEPTH)
    && (s.otherHeight.Some? ==> depth + 1 + s.otherHeight.value <= MAX_DEPTH)
    && (forall k :: k in s.properties ==> Normalize(s.properties[k], depth + 1).Some?)
    && (s.items.Some? ==> Normalize(s.items.value, depth + 1).Some?)
  }

  lemma NormalizesExactly(s: Schema, depth: nat)
    requires s.Node?
    ensures Normalize(s, depth).Some? <==> Normalizes(s, depth)
  {
    hide NormalizeType, HasScalarKeyword;
  }

  lemma SameScalarKeywords(s: Schema, t: Schema)
    requires s.Node? && t.Node? && SameTypes(s.typ, t.typ) && s.nullable == t.nullable && s.constraints == t.constraints
    ensures HasScalarKeyword(s) == HasScalarKeyword(t)
  {
  }

  lemma {:induction false} ReorderedNormalizes(s: Schema, t: Schema, depth: nat)
    requires Reordered(s, t)
    ensures Normalize(s, depth).Some? <==> Normalize(t, depth).Some?
    decreases s
  {
    hide Normalize, HasScalarKeyword, SameTypes, EnumSet, SetOf;
    if s.Node? {
      forall k | k in s.properties
        ensures Normalize(s.properties[k], depth + 1).Some? <==> Normalize(t.properties[k], depth + 1).Some?
      {
        ReorderedNormalizes(s.properties[k], t.properties[k], depth + 1);
      }
      if s.items.Some? { ReorderedNormalizes(s.items.value, t.items.value, depth + 1); }
      SameScalarKeywords(s, t);
      NormalizesExactly(s, depth);
      NormalizesExactly(t, depth);
      assert forall k :: k in t.properties ==> k in s.properties.Keys;
    }
  }

  lemma {:induction false} ReorderedAgree(s: Schema, t: Schema, depth: nat)
    requires Reordered(s, t) && Normalize(s, depth).Some? && Normalize(t, depth).Some?
    ensures Agree(Normalize(s, depth).value, Normalize(t, depth).value)
    decreases s
  {
    if s.Node? {
      ReorderedNodesAgree(s, t, depth);
      NormalizedNode(s, depth);
      NormalizedNode(t, depth);
      hide Normalize, SameTypes, EnumSet, SetOf, NodeAgrees;
      forall k | k in s.properties
        ensures Agree(Normalize(s.properties[k], depth + 1).value, Normalize(t.properties[k], depth + 1).value)
      {
        ReorderedAgree(s.properties[k], t.properties[k], depth + 1);
      }
      if s.items.Some? { ReorderedAgree(s.items.value, t.items.value, depth + 1); }
    }
  }

  lemma ReorderedNodesAgree(s: Schema, t: Schema, depth: nat)
    requires s.Node? && t.Node? && Reordered(s, t)
    requires Normalize(s, depth).Some? && Normalize(t, depth).Some?
    ensures NodeAgrees(Normalize(s, depth).value, Normalize(t, depth).value)
  {
    hide NonNullType, IsNullable;
    var ns, nt := Normalize(s, depth).value, Normalize(t, depth).value;
    assert ns.typ == nt.typ && ns.nullable == nt.nullable;
    assert NonNullType(ns) == NonNullType(nt) by { SameKeywordReadings(ns, nt); }
    assert IsNullable(ns) == IsNullable(nt) by { SameKeywordReadings(ns, nt); }
    assert EnumSet(ns.enum) == EnumSet(s.enum) && EnumSet(nt.enum) == EnumSet(t.enum);
    assert ns.required == nt.required;
  }

  lemma SameKeywordReadings(x: Schema, y: Schema)
    requires x.Node? && y.Node? && x.typ == y.typ && x.nullable == y.nullable
    ensures NonNullType(x) == NonNullType(y) && IsNullable(x) == IsNullable(y)
  {
  }

  lemma ReorderingIsNoChange(s: Schema, t: Schema, d: Direction, path: string)
    requires Reordered(s, t) && Normalize(s, 0).Some?
    ensures DiffDocuments(s, t, d, path) == Some([])
  {
    hide DiffAt, Reordered, Normalize, Agree, Fits;
    ReorderedNormalizes(s, t, 0);
    ReorderedAgree(s, t, 0);
    NormalizedFits(s, 0);
    DiffExact(Normalize(s, 0).value, Normalize(t, 0).value, d, path, 0);
  }
}
