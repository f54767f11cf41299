/** Where each value difference sits: what a comparison reports at a path is decided by the two values found there. */
module ValueDiffLocations {
  import opened JsonValues
  import opened Ordering
  import opened Options
  import opened ValueDiff

  /** The value a path leads to. */
  function ValueAt(v: Json, route: seq<PathStep>): Option<Json>
    decreases |route|
  {
    if route == [] then Some(v)
    else match route[0]
      case Key(name) => if v.JObject? && name in v.fields then ValueAt(v.fields[name], route[1..]) else None
      case Position(i) => if v.JArray? && i < |v.elems| then ValueAt(v.elems[i], route[1..]) else None
  }

  /** Both values are compared member by member. */
  predicate Alike(x: Json, y: Json) { (x.JObject? && y.JObject?) || (x.JArray? && y.JArray?) }

  /** The comparison gets as far as the route: both values have something there, no key on the way is sensitive, and it
      is not nested deeper than 64. */
  predicate Compared(a: Json, b: Json, route: seq<PathStep>, depth: nat, sensitive: string -> bool) {
    && depth + |route| <= 64
    && (forall i :: 0 <= i < |route| && route[i].Key? ==> !sensitive(route[i].name))
    && ValueAt(a, route).Some? && ValueAt(b, route).Some?
  }

  /** The containers around the route's end are compared member by member. */
  predicate ParentsCompared(a: Json, b: Json, route: seq<PathStep>, depth: nat, sensitive: string -> bool)
    requires route != []
  {
    var parent := route[..|route| - 1];
    Compared(a, b, parent, depth, sensitive) && Alike(ValueAt(a, parent).value, ValueAt(b, parent).value)
  }

  predicate EndsSensitive(route: seq<PathStep>, sensitive: string -> bool) {
    route != [] && route[|route| - 1].Key? && sensitive(route[|route| - 1].name)
  }

  /** What is to be reported at a route: gone, new, of another type, of another value, or different under a sensitive key. */
  ghost predicate Due(a: Json, b: Json, route: seq<PathStep>, depth: nat, sensitive: string -> bool,
                      kind: DifferenceKind, reason: Reason, redacted: bool)
  {
    var x, y := ValueAt(a, route), ValueAt(b, route);
    match reason
    case FieldRemoved =>
      kind.SchemaDifference? && !redacted && route != [] && ParentsCompared(a, b, route, depth, sensitive) && x.Some? && y.None?
    case FieldAdded =>
      kind.SchemaDifference? && !redacted && route != [] && ParentsCompared(a, b, route, depth, sensitive) && x.None? && y.Some?
    case TypeDiffers =>
      kind.SchemaDifference? && !redacted && Compared(a, b, route, depth, sensitive) && !SameType(x.value, y.value)
    case NoReason =>
      && kind.ValueDifference? && x.Some? && y.Some? && !PyEqual(x.value, y.value)
      && if redacted then EndsSensitive(route, sensitive) && ParentsCompared(a, b, route, depth, sensitive)
         else Compared(a, b, route, depth, sensitive) && SameType(x.value, y.value) && !Alike(x.value, y.value)
  }

  // ---------- one step of the route ----------

  lemma DueThroughField(a: Json, b: Json, k: string, rest: seq<PathStep>, depth: nat, sensitive: string -> bool,
                        kind: DifferenceKind, reason: Reason, redacted: bool)
    requires a.JObject? && b.JObject? && k in a.fields && k in b.fields && !sensitive(k)
    ensures Due(a, b, [Key(k)] + rest, depth, sensitive, kind, reason, redacted)
       <==> Due(a.fields[k], b.fields[k], rest, depth + 1, sensitive, kind, reason, redacted)
  {
    hide PyEqual, SameType;
    var route, x, y := [Key(k)] + rest, a.fields[k], b.fields[k];
    ComparedThrough(a, b, x, y, Key(k), rest, depth, sensitive);
    if rest != [] {
      var parent := rest[..|rest| - 1];
      assert route[..|route| - 1] == [Key(k)] + parent;
      ComparedThrough(a, b, x, y, Key(k), parent, depth, sensitive);
    }
  }

  lemma DueThroughElement(a: Json, b: Json, i: nat, rest: seq<PathStep>, depth: nat, sensitive: string -> bool,
                          kind: DifferenceKind, reason: Reason, redacted: bool)
    requires a.JArray? && b.JArray? && i < |a.elems| && i < |b.elems|
    ensures Due(a, b, [Position(i)] + rest, depth, sensitive, kind, reason, redacted)
       <==> Due(a.elems[i], b.elems[i], rest, depth + 1, sensitive, kind, reason, redacted)
  {
    hide PyEqual, SameType;
    var route, x, y := [Position(i)] + rest, a.elems[i], b.elems[i];
    ComparedThrough(a, b, x, y, Position(i), rest, depth, sensitive);
    if rest != [] {
      var parent := rest[..|rest| - 1];
      assert route[..|route| - 1] == [Position(i)] + parent;
      ComparedThrough(a, b, x, y, Position(i), parent, depth, sensitive);
    }
  }

  lemma ComparedThrough(a: Json, b: Json, x: Json, y: Json, step: PathStep, rest: seq<PathStep>, depth: nat, sensitive: string -> bool)
    requires step.Key? ==> !sensitive(step.name)
    requires ValueAt(a, [step]) == Some(x) && ValueAt(b, [step]) == Some(y)
    ensures ValueAt(a, [step] + rest) == ValueAt(x, rest) && ValueAt(b, [step] + rest) == ValueAt(y, rest)
    ensures Compared(a, b, [step] + rest, depth, sensitive) <==> Compared(x, y, rest, depth + 1, sensitive)
  {
    var route := [step] + rest;
    assert route[1..] == rest && [step][1..] == [];
    assert forall i :: 0 <= i < |rest| ==> route[i + 1] == rest[i];
    if forall i :: 0 <= i < |route| && route[i].Key? ==> !sensitive(route[i].name) {
      forall i | 0 <= i < |rest| && rest[i].Key? ensures !sensitive(rest[i].name) { assert route[i + 1] == rest[i]; }
    }
  }

  // ---------- membership, list by list ----------

  lemma InRemovedFields(names: seq<string>, root: seq<PathStep>, d: FieldDifference)
    ensures d in RemovedFields(names, root) <==> exists k :: k in names && d == RemovedAt(root + [Key(k)])
  {
    var r := RemovedFields(names, root);
    if d in r { var i :| 0 <= i < |r| && r[i] == d; assert names[i] in names; }
    if k :| k in names && d == RemovedAt(root + [Key(k)]) { var i :| 0 <= i < |names| && names[i] == k; assert r[i] == d; }
  }

  lemma InAddedFields(names: seq<string>, root: seq<PathStep>, d: FieldDifference)
    ensures d in AddedFields(names, root) <==> exists k :: k in names && d == AddedAt(root + [Key(k)])
  {
    var r := AddedFields(names, root);
    if d in r { var i :| 0 <= i < |r| && r[i] == d; assert names[i] in names; }
    if k :| k in names && d == AddedAt(root + [Key(k)]) { var i :| 0 <= i < |names| && names[i] == k; assert r[i] == d; }
  }

  lemma {:induction false} InSharedFields(names: seq<string>, a: Json, b: Json, root: seq<PathStep>, depth: nat,
                                          sensitive: string -> bool, d: FieldDifference)
    requires a.JObject? && b.JObject? && forall k :: k in names ==> k in a.fields && k in b.fields
    ensures d in SharedFields(names, a, b, root, depth, sensitive)
       <==> exists k :: k in names && d in SharedField(k, a, b, root, depth, sensitive)
  {
    hide SharedField;
    if names != [] {
      var last := |names| - 1;
      InSharedFields(names[..last], a, b, root, depth, sensitive, d);
      assert names == names[..last] + [names[last]];
      assert d in SharedFields(names, a, b, root, depth, sensitive)
        <==> d in SharedFields(names[..last], a, b, root, depth, sensitive) || d in SharedField(names[last], a, b, root, depth, sensitive);
    }
  }

  lemma {:induction false} InSharedElements(n: nat, a: Json, b: Json, root: seq<PathStep>, depth: nat,
                                            sensitive: string -> bool, d: FieldDifference)
    requires a.JArray? && b.JArray? && n <= |a.elems| && n <= |b.elems|
    ensures d in SharedElements(n, a, b, root, depth, sensitive)
       <==> exists i :: 0 <= i < n && d in Differences(a.elems[i], b.elems[i], root + [Position(i)], depth + 1, sensitive)
  {
    hide Differences;
    if n > 0 {
      InSharedElements(n - 1, a, b, root, depth, sensitive, d);
      var front := SharedElements(n - 1, a, b, root, depth, sensitive);
      var last := Differences(a.elems[n - 1], b.elems[n - 1], root + [Position(n - 1)], depth + 1, sensitive);
      assert d in SharedElements(n, a, b, root, depth, sensitive) <==> d in front || d in last;
    }
  }

  lemma InTails(from: nat, to: nat, root: seq<PathStep>, d: FieldDifference)
    requires from <= to
    ensures d in RemovedTail(from, to, root) <==> exists i: nat :: from <= i < to && d == RemovedAt(root + [Position(i)])
    ensures d in AddedTail(from, to, root) <==> exists i: nat :: from <= i < to && d == AddedAt(root + [Position(i)])
  {
    var r, s := RemovedTail(from, to, root), AddedTail(from, to, root);
    if d in r { var j :| 0 <= j < |r| && r[j] == d; assert d == RemovedAt(root + [Position(from + j)]); }
    if d in s { var j :| 0 <= j < |s| && s[j] == d; assert d == AddedAt(root + [Position(from + j)]); }
    if i: nat :| from <= i < to && d == RemovedAt(root + [Position(i)]) { assert r[i - from] == d; }
    if i: nat :| from <= i < to && d == AddedAt(root + [Position(i)]) { assert s[i - from] == d; }
  }

  /** What the comparison of two objects reports for one key. */
  ghost predicate ReportedForKey(k: string, a: Json, b: Json, root: seq<PathStep>, depth: nat, sensitive: string -> bool, d: FieldDifference)
    requires a.JObject? && b.JObject?
  {
    if k in a.fields && k !in b.fields then d == RemovedAt(root + [Key(k)])
    else if k !in a.fields && k in b.fields then d == AddedAt(root + [Key(k)])
    else k in a.fields && k in b.fields && d in SharedField(k, a, b, root, depth, sensitive)
  }

  lemma InObject(a: Json, b: Json, root: seq<PathStep>, depth: nat, sensitive: string -> bool, d: FieldDifference)
    requires a.JObject? && b.JObject? && depth <= MAX_DEPTH
    ensures d in Differences(a, b, root, depth, sensitive) <==> exists k :: ReportedForKey(k, a, b, root, depth, sensitive, d)
  {
    ObjectParts(Differences(a, b, root, depth, sensitive), a, b, root, depth, sensitive, d);
  }

  lemma ObjectParts(all: seq<FieldDifference>, a: Json, b: Json, root: seq<PathStep>, depth: nat, sensitive: string -> bool, d: FieldDifference)
    requires a.JObject? && b.JObject?
    requires all == RemovedFields(SortedNames(a.fields.Keys - b.fields.Keys), root)
                    + AddedFields(SortedNames(b.fields.Keys - a.fields.Keys), root)
                    + SharedFields(SortedNames(a.fields.Keys * b.fields.Keys), a, b, root, depth, sensitive)
    ensures d in all <==> exists k :: ReportedForKey(k, a, b, root, depth, sensitive, d)
  {
    hide SharedField, SharedFields, RemovedFields, AddedFields, SortedNames;
    var lost, gained := SortedNames(a.fields.Keys - b.fields.Keys), SortedNames(b.fields.Keys - a.fields.Keys);
    var shared := SortedNames(a.fields.Keys * b.fields.Keys);
    var r, s, t := RemovedFields(lost, root), AddedFields(gained, root), SharedFields(shared, a, b, root, depth, sensitive);
    assert d in r + s + t <==> d in r || d in s || d in t;
    InRemovedFields(lost, root, d);
    InAddedFields(gained, root, d);
    InSharedFields(shared, a, b, root, depth, sensitive, d);
    if k :| k in lost && d == RemovedAt(root + [Key(k)]) { assert ReportedForKey(k, a, b, root, depth, sensitive, d); }
    if k :| k in gained && d == AddedAt(root + [Key(k)]) { assert ReportedForKey(k, a, b, root, depth, sensitive, d); }
    if k :| k in shared && d in SharedField(k, a, b, root, depth, sensitive) { assert ReportedForKey(k, a, b, root, depth, sensitive, d); }
    if k :| ReportedForKey(k, a, b, root, depth, sensitive, d) { assert k in lost || k in gained || k in shared; }
  }

  /** What the comparison of two arrays reports for one position. */
  ghost predicate ReportedForPosition(i: nat, a: Json, b: Json, root: seq<PathStep>, depth: nat, sensitive: string -> bool, d: FieldDifference)
    requires a.JArray? && b.JArray?
  {
    if |b.elems| <= i < |a.elems| then d == RemovedAt(root + [Position(i)])
    else if |a.elems| <= i < |b.elems| then d == AddedAt(root + [Position(i)])
    else i < |a.elems| && i < |b.elems| && d in Differences(a.elems[i], b.elems[i], root + [Position(i)], depth + 1, sensitive)
  }

  lemma InArray(a: Json, b: Json, root: seq<PathStep>, depth: nat, sensitive: string -> bool, d: FieldDifference)
    requires a.JArray? && b.JArray? && depth <= MAX_DEPTH
    ensures d in Differences(a, b, root, depth, sensitive) <==> exists i: nat :: ReportedForPosition(i, a, b, root, depth, sensitive, d)
  {
    ArrayParts(Differences(a, b, root, depth, sensitive), a, b, root, depth, sensitive, d);
  }

  lemma ArrayParts(all: seq<FieldDifference>, a: Json, b: Json, root: seq<PathStep>, depth: nat, sensitive: string -> bool, d: FieldDifference)
    requires a.JArray? && b.JArray?
    requires var n := if |a.elems| <= |b.elems| then |a.elems| else |b.elems|;
      all == SharedElements(n, a, b, root, depth, sensitive) + RemovedTail(n, |a.elems|, root) + AddedTail(n, |b.elems|, root)
    ensures d in all <==> exists i: nat :: ReportedForPosition(i, a, b, root, depth, sensitive, d)
  {
    hide Differences, SharedElements, RemovedTail, AddedTail;
    var n := if |a.elems| <= |b.elems| then |a.elems| else |b.elems|;
    var s, r, t := SharedElements(n, a, b, root, depth, sensitive), RemovedTail(n, |a.elems|, root), AddedTail(n, |b.elems|, root);
    assert d in s + r + t <==> d in s || d in r || d in t;
    InSharedElements(n, a, b, root, depth, sensitive, d);
    InTails(n, |a.elems|, root, d);
    InTails(n, |b.elems|, root, d);
    if d in s {
      var i :| 0 <= i < n && d in Differences(a.elems[i], b.elems[i], root + [Position(i)], depth + 1, sensitive);
      assert ReportedForPosition(i, a, b, root, depth, sensitive, d);
    }
    if d in r {
      var i: nat :| n <= i < |a.elems| && d == RemovedAt(root + [Position(i)]);
      assert ReportedForPosition(i, a, b, root, depth, sensitive, d);
    }
    if d in t {
      var i: nat :| n <= i < |b.elems| && d == AddedAt(root + [Position(i)]);
      assert ReportedForPosition(i, a, b, root, depth, sensitive, d);
    }
  }

  // ---------- the location theorem ----------

  lemma {:induction false} DifferencesSitBelow(a: Json, b: Json, root: seq<PathStep>, depth: nat, sensitive: string -> bool, d: FieldDifference)
    requires d in Differences(a, b, root, depth, sensitive)
    ensures root <= d.path
    decreases a, 1
  {
    hide PyEqual, SameType, SharedFields, SharedElements, RemovedFields, AddedFields, RemovedTail, AddedTail, SortedNames;
    if depth <= MAX_DEPTH && a.JObject? && b.JObject? {
      InObject(a, b, root, depth, sensitive, d);
      var k :| ReportedForKey(k, a, b, root, depth, sensitive, d);
      KeySitsBelow(k, a, b, root, depth, sensitive, d);
    } else if depth <= MAX_DEPTH && a.JArray? && b.JArray? {
      InArray(a, b, root, depth, sensitive, d);
      var i: nat :| ReportedForPosition(i, a, b, root, depth, sensitive, d);
      PositionSitsBelow(i, a, b, root, depth, sensitive, d);
    }
  }

  lemma KeySitsBelow(k: string, a: Json, b: Json, root: seq<PathStep>, depth: nat, sensitive: string -> bool, d: FieldDifference)
    requires a.JObject? && b.JObject? && ReportedForKey(k, a, b, root, depth, sensitive, d)
    ensures root + [Key(k)] <= d.path
    decreases a, 0
  {
    hide Differences, PyEqual;
    if k in a.fields && k in b.fields && !sensitive(k) {
      DifferencesSitBelow(a.fields[k], b.fields[k], root + [Key(k)], depth + 1, sensitive, d);
    }
  }

  lemma PositionSitsBelow(i: nat, a: Json, b: Json, root: seq<PathStep>, depth: nat, sensitive: string -> bool, d: FieldDifference)
    requires a.JArray? && b.JArray? && ReportedForPosition(i, a, b, root, depth, sensitive, d)
    ensures root + [Position(i)] <= d.path
    decreases a, 0
  {
    hide Differences;
    if i < |a.elems| && i < |b.elems| {
      DifferencesSitBelow(a.elems[i], b.elems[i], root + [Position(i)], depth + 1, sensitive, d);
    }
  }

  /** One step taken, the field at its key decides. */
  lemma KeyDecides(a: Json, b: Json, root: seq<PathStep>, step: PathStep, rest: seq<PathStep>, depth: nat, sensitive: string -> bool,
                   d: FieldDifference)
    requires a.JObject? && b.JObject? && d.path == root + [step] + rest
    ensures (exists k :: ReportedForKey(k, a, b, root, depth, sensitive, d))
       <==> step.Key? && ReportedForKey(step.name, a, b, root, depth, sensitive, d)
  {
    hide PyEqual, Differences;
    forall k | ReportedForKey(k, a, b, root, depth, sensitive, d) ensures step == Key(k) {
      KeySitsBelow(k, a, b, root, depth, sensitive, d);
      assert (root + [Key(k)])[|root|] == d.path[|root|] == step;
    }
  }

  lemma PositionDecides(a: Json, b: Json, root: seq<PathStep>, step: PathStep, rest: seq<PathStep>, depth: nat, sensitive: string -> bool,
                        d: FieldDifference)
    requires a.JArray? && b.JArray? && d.path == root + [step] + rest
    ensures (exists i: nat :: ReportedForPosition(i, a, b, root, depth, sensitive, d))
       <==> step.Position? && ReportedForPosition(step.i, a, b, root, depth, sensitive, d)
  {
    hide Differences;
    forall i: nat | ReportedForPosition(i, a, b, root, depth, sensitive, d) ensures step == Position(i) {
      PositionSitsBelow(i, a, b, root, depth, sensitive, d);
      assert (root + [Position(i)])[|root|] == d.path[|root|] == step;
    }
  }

  lemma LeafExactly(a: Json, b: Json, root: seq<PathStep>, route: seq<PathStep>, depth: nat, sensitive: string -> bool,
                    kind: DifferenceKind, reason: Reason, redacted: bool)
    requires depth > MAX_DEPTH || !Alike(a, b)
    ensures FieldDifference(kind, root + route, reason, redacted) in Differences(a, b, root, depth, sensitive)
       <==> Due(a, b, route, depth, sensitive, kind, reason, redacted)
  {
    LeafDifferences(a, b, root, depth, sensitive);
    hide PyEqual, SameType, Differences;
    if route != [] {
      NothingBelowLeaf(a, b, route, depth, sensitive, kind, reason, redacted);
      assert |root + route| > |root|;
    } else {
      assert root + route == root;
    }
  }

  lemma LeafDifferences(a: Json, b: Json, root: seq<PathStep>, depth: nat, sensitive: string -> bool)
    requires depth > MAX_DEPTH || !Alike(a, b)
    ensures Differences(a, b, root, depth, sensitive) ==
      if depth > MAX_DEPTH then []
      else if !SameType(a, b) then [FieldDifference(SchemaDifference, root, TypeDiffers, false)]
      else if !PyEqual(a, b) then [FieldDifference(ValueDifference, root, NoReason, false)]
      else []
  {
    hide PyEqual, SameType;
  }

  lemma NothingBelowLeaf(a: Json, b: Json, route: seq<PathStep>, depth: nat, sensitive: string -> bool,
                         kind: DifferenceKind, reason: Reason, redacted: bool)
    requires (depth > MAX_DEPTH || !Alike(a, b)) && route != []
    ensures !Due(a, b, route, depth, sensitive, kind, reason, redacted)
  {
    var parent := route[..|route| - 1];
    LeafNotCompared(a, b, route, depth, sensitive);
    if parent != [] { LeafNotCompared(a, b, parent, depth, sensitive); }
    assert !ParentsCompared(a, b, route, depth, sensitive);
    hide PyEqual, SameType, Compared, ParentsCompared;
  }

  lemma LeafNotCompared(a: Json, b: Json, route: seq<PathStep>, depth: nat, sensitive: string -> bool)
    requires (depth > MAX_DEPTH || !Alike(a, b)) && route != []
    ensures !Compared(a, b, route, depth, sensitive)
  {
  }

  lemma SharedKeyExactly(a: Json, b: Json, root: seq<PathStep>, k: string, rest: seq<PathStep>, depth: nat, sensitive: string -> bool,
                         kind: DifferenceKind, reason: Reason, redacted: bool)
    requires a.JObject? && b.JObject? && k in a.fields && k in b.fields && sensitive(k) && depth <= MAX_DEPTH
    ensures FieldDifference(kind, root + [Key(k)] + rest, reason, redacted) in SharedField(k, a, b, root, depth, sensitive)
       <==> Due(a, b, [Key(k)] + rest, depth, sensitive, kind, reason, redacted)
  {
    hide PyEqual, Differences, SameType;
    var route := [Key(k)] + rest;
    assert route[0] == Key(k);
    if rest != [] {
      assert route[..|route| - 1][0] == Key(k);
      assert |root + [Key(k)] + rest| != |root + [Key(k)]|;
    } else {
      assert route == [Key(k)] && route[..|route| - 1] == [] && root + [Key(k)] + rest == root + [Key(k)];
      assert ValueAt(a, route) == Some(a.fields[k]) && ValueAt(b, route) == Some(b.fields[k]);
    }
  }

  /** A key only one side has: the field is reported at that key, and nothing below it. */
  lemma LoneKeyExactly(a: Json, b: Json, root: seq<PathStep>, k: string, rest: seq<PathStep>, depth: nat, sensitive: string -> bool,
                       kind: DifferenceKind, reason: Reason, redacted: bool)
    requires a.JObject? && b.JObject? && !(k in a.fields && k in b.fields) && depth <= MAX_DEPTH
    ensures ReportedForKey(k, a, b, root, depth, sensitive, FieldDifference(kind, root + [Key(k)] + rest, reason, redacted))
       <==> Due(a, b, [Key(k)] + rest, depth, sensitive, kind, reason, redacted)
  {
    hide PyEqual, Differences, SameType;
    var route := [Key(k)] + rest;
    assert route[0] == Key(k);
    if rest != [] {
      assert route[..|route| - 1][0] == Key(k);
      assert |root + [Key(k)] + rest| != |root + [Key(k)]|;
    } else {
      assert route == [Key(k)] && route[..|route| - 1] == [] && root + [Key(k)] + rest == root + [Key(k)];
      assert route[1..] == [] && ParentsCompared(a, b, route, depth, sensitive);
      assert ValueAt(a, route) == if k in a.fields then Some(a.fields[k]) else None;
      assert ValueAt(b, route) == if k in b.fields then Some(b.fields[k]) else None;
    }
  }

  lemma LonePositionExactly(a: Json, b: Json, root: seq<PathStep>, i: nat, rest: seq<PathStep>, depth: nat, sensitive: string -> bool,
                            kind: DifferenceKind, reason: Reason, redacted: bool)
    requires a.JArray? && b.JArray? && !(i < |a.elems| && i < |b.elems|) && depth <= MAX_DEPTH
    ensures ReportedForPosition(i, a, b, root, depth, sensitive, FieldDifference(kind, root + [Position(i)] + rest, reason, redacted))
       <==> Due(a, b, [Position(i)] + rest, depth, sensitive, kind, reason, redacted)
  {
    hide PyEqual, Differences, SameType;
    var route := [Position(i)] + rest;
    assert route[0] == Position(i);
    if rest != [] {
      assert route[..|route| - 1][0] == Position(i);
      assert |root + [Position(i)] + rest| != |root + [Position(i)]|;
    } else {
      assert route == [Position(i)] && route[..|route| - 1] == [] && root + [Position(i)] + rest == root + [Position(i)];
      assert route[1..] == [] && ParentsCompared(a, b, route, depth, sensitive);
      assert ValueAt(a, route) == if i < |a.elems| then Some(a.elems[i]) else None;
      assert ValueAt(b, route) == if i < |b.elems| then Some(b.elems[i]) else None;
    }
  }

  /** A step the container does not take, or no step at all, leads to no difference of its own. */
  lemma NothingDue(a: Json, b: Json, route: seq<PathStep>, depth: nat, sensitive: string -> bool,
                   kind: DifferenceKind, reason: Reason, redacted: bool)
    requires Alike(a, b) && (route == [] || (a.JObject? && route[0].Position?) || (a.JArray? && route[0].Key?))
    ensures !Due(a, b, route, depth, sensitive, kind, reason, redacted)
  {
    hide PyEqual;
    if route != [] {
      var parent := route[..|route| - 1];
      if parent != [] { assert parent[0] == route[0]; }
    }
  }

  /** The location theorem: a comparison reports a difference at a path exactly when the two values the path leads to,
      or the absence of one of them, make it due. */
  lemma {:induction false} DifferenceExactly(a: Json, b: Json, root: seq<PathStep>, route: seq<PathStep>, depth: nat,
                                             sensitive: string -> bool, kind: DifferenceKind, reason: Reason, redacted: bool)
    ensures FieldDifference(kind, root + route, reason, redacted) in Differences(a, b, root, depth, sensitive)
       <==> Due(a, b, route, depth, sensitive, kind, reason, redacted)
    decreases a, 1
  {
    var d := FieldDifference(kind, root + route, reason, redacted);
    if depth > MAX_DEPTH || !Alike(a, b) {
      LeafExactly(a, b, root, route, depth, sensitive, kind, reason, redacted);
    } else if route == [] {
      NothingDue(a, b, route, depth, sensitive, kind, reason, redacted);
      NothingAtRoot(a, b, root, depth, sensitive, d);
    } else {
      var step, rest := route[0], route[1..];
      assert route == [step] + rest && root + route == root + [step] + rest;
      if a.JObject? {
        InObject(a, b, root, depth, sensitive, d);
        KeyDecides(a, b, root, step, rest, depth, sensitive, d);
        KeyExactly(a, b, root, step, rest, depth, sensitive, kind, reason, redacted);
      } else {
        InArray(a, b, root, depth, sensitive, d);
        PositionDecides(a, b, root, step, rest, depth, sensitive, d);
        PositionExactly(a, b, root, step, rest, depth, sensitive, kind, reason, redacted);
      }
    }
  }

  lemma NothingAtRoot(a: Json, b: Json, root: seq<PathStep>, depth: nat, sensitive: string -> bool, d: FieldDifference)
    requires depth <= MAX_DEPTH && Alike(a, b) && d.path == root + []
    ensures d !in Differences(a, b, root, depth, sensitive)
  {
    if a.JObject? {
      InObject(a, b, root, depth, sensitive, d);
      hide Differences;
      if k :| ReportedForKey(k, a, b, root, depth, sensitive, d) { KeySitsBelow(k, a, b, root, depth, sensitive, d); }
    } else {
      InArray(a, b, root, depth, sensitive, d);
      hide Differences;
      if i: nat :| ReportedForPosition(i, a, b, root, depth, sensitive, d) { PositionSitsBelow(i, a, b, root, depth, sensitive, d); }
    }
  }

  lemma KeyExactly(a: Json, b: Json, root: seq<PathStep>, step: PathStep, rest: seq<PathStep>, depth: nat,
                   sensitive: string -> bool, kind: DifferenceKind, reason: Reason, redacted: bool)
    requires a.JObject? && b.JObject? && depth <= MAX_DEPTH
    ensures step.Key? && ReportedForKey(step.name, a, b, root, depth, sensitive, FieldDifference(kind, root + [step] + rest, reason, redacted))
       <==> Due(a, b, [step] + rest, depth, sensitive, kind, reason, redacted)
    decreases a, 0
  {
    hide Differences, Due, PyEqual;
    if step.Position? {
      NothingDue(a, b, [step] + rest, depth, sensitive, kind, reason, redacted);
    } else if !(step.name in a.fields && step.name in b.fields) {
      LoneKeyExactly(a, b, root, step.name, rest, depth, sensitive, kind, reason, redacted);
    } else if sensitive(step.name) {
      SharedKeyExactly(a, b, root, step.name, rest, depth, sensitive, kind, reason, redacted);
    } else {
      DifferenceExactly(a.fields[step.name], b.fields[step.name], root + [step], rest, depth + 1, sensitive, kind, reason, redacted);
      DueThroughField(a, b, step.name, rest, depth, sensitive, kind, reason, redacted);
    }
  }

  lemma PositionExactly(a: Json, b: Json, root: seq<PathStep>, step: PathStep, rest: seq<PathStep>, depth: nat,
                        sensitive: string -> bool, kind: DifferenceKind, reason: Reason, redacted: bool)
    requires a.JArray? && b.JArray? && depth <= MAX_DEPTH
    ensures step.Position? && ReportedForPosition(step.i, a, b, root, depth, sensitive, FieldDifference(kind, root + [step] + rest, reason, redacted))
       <==> Due(a, b, [step] + rest, depth, sensitive, kind, reason, redacted)
    decreases a, 0
  {
    hide Differences, Due;
    if step.Key? {
      NothingDue(a, b, [step] + rest, depth, sensitive, kind, reason, redacted);
    } else if !(step.i < |a.elems| && step.i < |b.elems|) {
      LonePositionExactly(a, b, root, step.i, rest, depth, sensitive, kind, reason, redacted);
    } else {
      DifferenceExactly(a.elems[step.i], b.elems[step.i], root + [step], rest, depth + 1, sensitive, kind, reason, redacted);
      DueThroughElement(a, b, step.i, rest, depth, sensitive, kind, reason, redacted);
    }
  }

  /** Some difference of a kind is reported exactly when one is due at some route. */
  lemma SomeDifferenceExactly(a: Json, b: Json, root: seq<PathStep>, sensitive: string -> bool, kind: DifferenceKind)
    ensures (exists d :: d in Differences(a, b, root, 0, sensitive) && d.kind == kind)
       <==> exists route, reason, redacted :: Due(a, b, route, 0, sensitive, kind, reason, redacted)
  {
    hide Differences, Due;
    if d :| d in Differences(a, b, root, 0, sensitive) && d.kind == kind {
      DifferencesSitBelow(a, b, root, 0, sensitive, d);
      var route := d.path[|root|..];
      assert d.path == root + route;
      DifferenceExactly(a, b, root, route, 0, sensitive, kind, d.reason, d.redacted);
      assert Due(a, b, route, 0, sensitive, kind, d.reason, d.redacted);
    }
    if route, reason, redacted :| Due(a, b, route, 0, sensitive, kind, reason, redacted) {
      DifferenceExactly(a, b, root, route, 0, sensitive, kind, reason, redacted);
    }
  }
}
