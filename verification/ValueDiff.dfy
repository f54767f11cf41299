/** The recursive comparison of two recorded JSON values. Displayed old and new values are left out. */
module ValueDiff {
  import opened JsonValues
  import opened Ordering

  const MAX_DEPTH: nat := 64

  datatype DifferenceKind = SchemaDifference | ValueDifference

  datatype Reason = NoReason | TypeDiffers | FieldRemoved | FieldAdded

  datatype PathStep = Key(name: string) | Position(i: nat)

  datatype FieldDifference = FieldDifference(kind: DifferenceKind, path: seq<PathStep>, reason: Reason, redacted: bool)

  // ---------- Python's == and type() ----------

  predicate IsNumeric(v: Json) { v.JBool? || IsNumber(v) }

  function Numeric(v: Json): real
    requires IsNumeric(v)
  {
    if v.JBool? then (if v.b then 1.0 else 0.0) else NumberOf(v)
  }

  /** `a == b`: numbers and booleans compare by value, containers member by member. */
  predicate PyEqual(a: Json, b: Json)
    decreases a
  {
    if IsNumeric(a) && IsNumeric(b) then Numeric(a) == Numeric(b)
    else match (a, b)
      case (JNull, JNull) => true
      case (JString(x), JString(y)) => x == y
      case (JArray(x), JArray(y)) => |x| == |y| && forall i :: 0 <= i < |x| ==> PyEqual(x[i], y[i])
      case (JObject(x), JObject(y)) => x.Keys == y.Keys && forall k :: k in x ==> PyEqual(x[k], y[k])
      case _ => false
  }

  predicate SameType(a: Json, b: Json) {
    match (a, b)
    case (JNull, JNull) => true
    case (JBool(_), JBool(_)) => true
    case (JInt(_), JInt(_)) => true
    case (JFloat(_), JFloat(_)) => true
    case (JString(_), JString(_)) => true
    case (JArray(_), JArray(_)) => true
    case (JObject(_), JObject(_)) => true
    case _ => false
  }

  // ---------- specification ----------

  function RemovedAt(path: seq<PathStep>): FieldDifference { FieldDifference(SchemaDifference, path, FieldRemoved, false) }

  function AddedAt(path: seq<PathStep>): FieldDifference { FieldDifference(SchemaDifference, path, FieldAdded, false) }

  function RemovedFields(names: seq<string>, path: seq<PathStep>): seq<FieldDifference> {
    seq(|names|, i requires 0 <= i < |names| => RemovedAt(path + [Key(names[i])]))
  }

  function AddedFields(names: seq<string>, path: seq<PathStep>): seq<FieldDifference> {
    seq(|names|, i requires 0 <= i < |names| => AddedAt(path + [Key(names[i])]))
  }

  function RemovedTail(from: nat, to: nat, path: seq<PathStep>): seq<FieldDifference>
    requires from <= to
  {
    seq(to - from, i requires 0 <= i < to - from => RemovedAt(path + [Position(from + i)]))
  }

  function AddedTail(from: nat, to: nat, path: seq<PathStep>): seq<FieldDifference>
    requires from <= to
  {
    seq(to - from, i requires 0 <= i < to - from => AddedAt(path + [Position(from + i)]))
  }

  function Differences(a: Json, b: Json, path: seq<PathStep>, depth: nat, sensitive: string -> bool): seq<FieldDifference>
    decreases a, 2, 0
  {
    if depth > MAX_DEPTH then []
    else if a.JObject? && b.JObject? then
      RemovedFields(SortedNames(a.fields.Keys - b.fields.Keys), path)
      + AddedFields(SortedNames(b.fields.Keys - a.fields.Keys), path)
      + SharedFields(SortedNames(a.fields.Keys * b.fields.Keys), a, b, path, depth, sensitive)
    else if a.JArray? && b.JArray? then
      var n := if |a.elems| <= |b.elems| then |a.elems| else |b.elems|;
      SharedElements(n, a, b, path, depth, sensitive)
      + RemovedTail(n, |a.elems|, path) + AddedTail(n, |b.elems|, path)
    else if !SameType(a, b) then [FieldDifference(SchemaDifference, path, TypeDiffers, false)]
    else if !PyEqual(a, b) then [FieldDifference(ValueDifference, path, NoReason, false)]
    else []
  }

  /** One key both objects have: a sensitive one is compared whole, and shown redacted. */
  function SharedField(k: string, a: Json, b: Json, path: seq<PathStep>, depth: nat, sensitive: string -> bool): seq<FieldDifference>
    requires a.JObject? && b.JObject? && k in a.fields && k in b.fields
    decreases a, 0, 0
  {
    if sensitive(k) then
      if PyEqual(a.fields[k], b.fields[k]) then []
      else [FieldDifference(ValueDifference, path + [Key(k)], NoReason, true)]
    else Differences(a.fields[k], b.fields[k], path + [Key(k)], depth + 1, sensitive)
  }

  function SharedFields(names: seq<string>, a: Json, b: Json, path: seq<PathStep>, depth: nat, sensitive: string -> bool): seq<FieldDifference>
    requires a.JObject? && b.JObject?
    requires forall k :: k in names ==> k in a.fields && k in b.fields
    decreases a, 1, |names|
  {
    if names == [] then []
    else
      var last := |names| - 1;
      SharedFields(names[..last], a, b, path, depth, sensitive)
      + SharedField(names[last], a, b, path, depth, sensitive)
  }

  function SharedElements(n: nat, a: Json, b: Json, path: seq<PathStep>, depth: nat, sensitive: string -> bool): seq<FieldDifference>
    requires a.JArray? && b.JArray? && n <= |a.elems| && n <= |b.elems|
    decreases a, 1, n
  {
    if n == 0 then []
    else SharedElements(n - 1, a, b, path, depth, sensitive)
         + Differences(a.elems[n - 1], b.elems[n - 1], path + [Position(n - 1)], depth + 1, sensitive)
  }

  // ---------- the comparison as it runs ----------

  method DiffValues(a: Json, b: Json, path: seq<PathStep>, depth: nat, sensitive: string -> bool)
    returns (diffs: seq<FieldDifference>)
    ensures diffs == Differences(a, b, path, depth, sensitive)
    decreases a, 1
  {
    hide PyEqual, SharedFields, SharedElements;
    if depth > MAX_DEPTH {
      return [];
    }
    if a.JObject? && b.JObject? {
      diffs := DiffDict(a, b, path, depth, sensitive);
    } else if a.JArray? && b.JArray? {
      diffs := DiffList(a, b, path, depth, sensitive);
    } else if !SameType(a, b) {
      diffs := [FieldDifference(SchemaDifference, path, TypeDiffers, false)];
    } else if !PyEqual(a, b) {
      diffs := [FieldDifference(ValueDifference, path, NoReason, false)];
    } else {
      diffs := [];
    }
  }

  method DiffDict(a: Json, b: Json, path: seq<PathStep>, depth: nat, sensitive: string -> bool)
    returns (diffs: seq<FieldDifference>)
    requires a.JObject? && b.JObject? && depth <= MAX_DEPTH
    ensures diffs == Differences(a, b, path, depth, sensitive)
    decreases a, 0, 1
  {
    hide PyEqual;
    var lost, gained := SortedNames(a.fields.Keys - b.fields.Keys), SortedNames(b.fields.Keys - a.fields.Keys);
    var shared := SortedNames(a.fields.Keys * b.fields.Keys);
    diffs := ReportKeys(lost, gained, path);
    var more := CompareShared(shared, a, b, path, depth, sensitive);
    diffs := diffs + more;
  }

  /** The loop over the keys both objects have. */
  method CompareShared(names: seq<string>, a: Json, b: Json, path: seq<PathStep>, depth: nat, sensitive: string -> bool)
    returns (diffs: seq<FieldDifference>)
    requires a.JObject? && b.JObject?
    requires forall k :: k in names ==> k in a.fields && k in b.fields
    ensures diffs == SharedFields(names, a, b, path, depth, sensitive)
    decreases a, 0, 0
  {
    hide PyEqual, Differences;
    diffs := [];
    for i := 0 to |names|
      invariant diffs == SharedFields(names[..i], a, b, path, depth, sensitive)
    {
      assert names[..i + 1][..i] == names[..i];
      var k := names[i];
      if sensitive(k) {
        if !PyEqual(a.fields[k], b.fields[k]) {
          diffs := diffs + [FieldDifference(ValueDifference, path + [Key(k)], NoReason, true)];
        }
        continue;
      }
      var more := DiffValues(a.fields[k], b.fields[k], path + [Key(k)], depth + 1, sensitive);
      diffs := diffs + more;
    }
    assert names[..|names|] == names;
  }

  method ReportKeys(lost: seq<string>, gained: seq<string>, path: seq<PathStep>) returns (diffs: seq<FieldDifference>)
    ensures diffs == RemovedFields(lost, path) + AddedFields(gained, path)
  {
    diffs := [];
    for i := 0 to |lost|
      invariant diffs == RemovedFields(lost, path)[..i]
    {
      diffs := diffs + [RemovedAt(path + [Key(lost[i])])];
    }
    for i := 0 to |gained|
      invariant diffs == RemovedFields(lost, path) + AddedFields(gained, path)[..i]
    {
      diffs := diffs + [AddedAt(path + [Key(gained[i])])];
    }
  }

  method DiffList(a: Json, b: Json, path: seq<PathStep>, depth: nat, sensitive: string -> bool)
    returns (diffs: seq<FieldDifference>)
    requires a.JArray? && b.JArray? && depth <= MAX_DEPTH
    ensures diffs == Differences(a, b, path, depth, sensitive)
    decreases a, 0
  {
    hide PyEqual;
    var common := if |a.elems| <= |b.elems| then |a.elems| else |b.elems|;
    diffs := [];
    for i := 0 to common
      invariant diffs == SharedElements(i, a, b, path, depth, sensitive)
    {
      hide Differences;
      var more := DiffValues(a.elems[i], b.elems[i], path + [Position(i)], depth + 1, sensitive);
      diffs := diffs + more;
    }
    diffs := ReportTails(diffs, common, |a.elems|, |b.elems|, path);
  }

  method ReportTails(diffs0: seq<FieldDifference>, common: nat, aLength: nat, bLength: nat, path: seq<PathStep>)
    returns (diffs: seq<FieldDifference>)
    requires common <= aLength && common <= bLength
    ensures diffs == diffs0 + RemovedTail(common, aLength, path) + AddedTail(common, bLength, path)
  {
    diffs := diffs0;
    for i := common to aLength
      invariant diffs == diffs0 + RemovedTail(common, aLength, path)[..i - common]
    {
      diffs := diffs + [RemovedAt(path + [Position(i)])];
    }
    ghost var before := diffs;
    for i := common to bLength
      invariant diffs == before + AddedTail(common, bLength, path)[..i - common]
    {
      diffs := diffs + [AddedAt(path + [Position(i)])];
    }
  }
}
