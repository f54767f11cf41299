/** Exactly which recorded values the value differ tells apart from every other value. */
module ValueDiffExactness {
  import opened JsonValues
  import opened ValueDiff
  import opened ValueDiffFacts

  /** Which reals are floats. */
  type Floats = real -> bool

  /** Every float in the value is one. */
  ghost predicate Representable(v: Json, isFloat: Floats)
    decreases v
  {
    match v
    case JFloat(r) => isFloat(r)
    case JArray(x) => forall i :: 0 <= i < |x| ==> Representable(x[i], isFloat)
    case JObject(x) => forall k :: k in x ==> Representable(x[k], isFloat)
    case _ => true
  }

  /** No other value is equal to this one for Python's `==`: nothing in it is a boolean, an integral float
      or an integer some float or boolean equals. */
  ghost predicate TwinFree(v: Json, isFloat: Floats)
    decreases v
  {
    match v
    case JBool(_) => false
    case JInt(n) => !isFloat(n as real) && n != 0 && n != 1
    case JFloat(r) => r.Floor as real != r
    case JArray(x) => forall i :: 0 <= i < |x| ==> TwinFree(x[i], isFloat)
    case JObject(x) => forall k :: k in x ==> TwinFree(x[k], isFloat)
    case _ => true
  }

  /** Every value under a sensitive key is twin-free. */
  ghost predicate Unmistakable(v: Json, sensitive: string -> bool, isFloat: Floats)
    decreases v
  {
    match v
    case JArray(x) => forall i :: 0 <= i < |x| ==> Unmistakable(x[i], sensitive, isFloat)
    case JObject(x) => forall k :: k in x ==> if sensitive(k) then TwinFree(x[k], isFloat) else Unmistakable(x[k], sensitive, isFloat)
    case _ => true
  }

  lemma {:induction false} TwinFreeEqual(a: Json, b: Json, isFloat: Floats)
    requires TwinFree(a, isFloat) && PyEqual(a, b) && Representable(b, isFloat)
    ensures a == b
    decreases a
  {
    match (a, b)
    case (JArray(x), JArray(y)) =>
      forall i | 0 <= i < |x| ensures x[i] == y[i] { TwinFreeEqual(x[i], y[i], isFloat); }
      assert x == y;
    case (JObject(x), JObject(y)) =>
      forall k | k in x ensures x[k] == y[k] { TwinFreeEqual(x[k], y[k], isFloat); }
      assert x == y;
    case _ =>
  }

  /** Every other value has a twin: a different value Python's `==` does not tell from it. */
  lemma {:induction false} Twin(v: Json, isFloat: Floats) returns (w: Json)
    requires !TwinFree(v, isFloat) && Representable(v, isFloat)
    ensures w != v && PyEqual(v, w) && Representable(w, isFloat)
    decreases v
  {
    match v
    case JBool(b) => w := JInt(if b then 1 else 0);
    case JInt(n) => w := if isFloat(n as real) then JFloat(n as real) else JBool(n == 1);
    case JFloat(r) => w := JInt(r.Floor);
    case JArray(x) =>
      var i :| 0 <= i < |x| && !TwinFree(x[i], isFloat);
      var t := Twin(x[i], isFloat);
      w := JArray(x[i := t]);
      assert w.elems[i] != x[i];
      forall j | 0 <= j < |x| ensures PyEqual(x[j], w.elems[j]) { PyEqualReflexive(x[j]); }
    case JObject(x) =>
      var k :| k in x && !TwinFree(x[k], isFloat);
      var t := Twin(x[k], isFloat);
      w := JObject(x[k := t]);
      assert w.fields[k] != x[k];
      assert x.Keys == w.fields.Keys;
      forall j | j in x ensures PyEqual(x[j], w.fields[j]) { PyEqualReflexive(x[j]); }
  }

  lemma {:induction false} SameReflexive(a: Json, sensitive: string -> bool)
    ensures SameValue(a, a, sensitive)
    decreases a
  {
    match a
    case JArray(x) => forall i | 0 <= i < |x| ensures SameValue(x[i], x[i], sensitive) { SameReflexive(x[i], sensitive); }
    case JObject(x) =>
      forall k | k in x ensures if sensitive(k) then PyEqual(x[k], x[k]) else SameValue(x[k], x[k], sensitive) {
        PyEqualReflexive(x[k]);
        SameReflexive(x[k], sensitive);
      }
    case _ =>
  }

  lemma {:induction false} UnmistakableEqual(a: Json, b: Json, sensitive: string -> bool, isFloat: Floats)
    requires Unmistakable(a, sensitive, isFloat) && SameValue(a, b, sensitive) && Representable(b, isFloat)
    ensures a == b
    decreases a
  {
    match (a, b)
    case (JArray(x), JArray(y)) =>
      forall i | 0 <= i < |x| ensures x[i] == y[i] { UnmistakableEqual(x[i], y[i], sensitive, isFloat); }
      assert x == y;
    case (JObject(x), JObject(y)) =>
      forall k | k in x ensures x[k] == y[k] {
        if sensitive(k) { TwinFreeEqual(x[k], y[k], isFloat); } else { UnmistakableEqual(x[k], y[k], sensitive, isFloat); }
      }
      assert x.Keys == y.Keys;
      assert x == y;
    case _ =>
  }

  /** A different value the differ takes for the same. */
  lemma {:induction false} Mistaken(a: Json, sensitive: string -> bool, isFloat: Floats) returns (b: Json)
    requires !Unmistakable(a, sensitive, isFloat) && Representable(a, isFloat)
    ensures b != a && SameValue(a, b, sensitive) && Representable(b, isFloat)
    decreases a
  {
    match a
    case JArray(x) =>
      var i :| 0 <= i < |x| && !Unmistakable(x[i], sensitive, isFloat);
      var t := Mistaken(x[i], sensitive, isFloat);
      b := JArray(x[i := t]);
      assert b.elems[i] != x[i];
      forall j | 0 <= j < |x| ensures SameValue(x[j], b.elems[j], sensitive) { SameReflexive(x[j], sensitive); }
    case JObject(x) =>
      var k :| k in x && if sensitive(k) then !TwinFree(x[k], isFloat) else !Unmistakable(x[k], sensitive, isFloat);
      var t;
      if sensitive(k) { t := Twin(x[k], isFloat); } else { t := Mistaken(x[k], sensitive, isFloat); }
      b := JObject(x[k := t]);
      assert b.fields[k] != x[k];
      forall j | j in x
        ensures if sensitive(j) then PyEqual(x[j], b.fields[j]) else SameValue(x[j], b.fields[j], sensitive)
      {
        PyEqualReflexive(x[j]);
        SameReflexive(x[j], sensitive);
      }
  }

  /** For a value nested at most 64 deep, the difference list is empty exactly on equal values if and only
      if under its sensitive keys sit no boolean, no integral float and no integer that some float or
      boolean equals. Holds for any set of floats. */
  lemma DiffDecidesEqualityExactly(a: Json, path: seq<PathStep>, sensitive: string -> bool, isFloat: Floats)
    requires Within(a, 0) && Representable(a, isFloat)
    ensures (forall b :: Representable(b, isFloat) ==> (Differences(a, b, path, 0, sensitive) == [] <==> a == b))
       <==> Unmistakable(a, sensitive, isFloat)
  {
    hide Differences, Within, SameValue, Unmistakable, Representable;
    forall b ensures Differences(a, b, path, 0, sensitive) == [] <==> SameValue(a, b, sensitive) {
      DiffComplete(a, b, path, 0, sensitive);
    }
    if Unmistakable(a, sensitive, isFloat) {
      SameReflexive(a, sensitive);
      forall b | SameValue(a, b, sensitive) && Representable(b, isFloat) ensures a == b {
        UnmistakableEqual(a, b, sensitive, isFloat);
      }
    } else {
      var b := Mistaken(a, sensitive, isFloat);
      assert Representable(b, isFloat) && !(Differences(a, b, path, 0, sensitive) == [] <==> a == b);
    }
  }
}
