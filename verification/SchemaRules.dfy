/** The classification tables: which detected change is compatible, and how severe it is. */
module SchemaRules {
  import opened Options
  import opened SchemaModel

  function Classify(t: ChangeType, d: Direction): (Classification, Severity)
    requires t != ConstraintChanged
  {
    match t
    case FieldAdded =>
      if d.Neutral? then (PotentiallyBreaking, Low) else (Compatible, Info)
    case FieldRemoved =>
      if d.Output? then (Breaking, High) else (PotentiallyBreaking, Medium)
    case RequiredFieldAdded =>
      (match d
       case Input => (Breaking, Critical)
       case Output => (Compatible, Info)
       case Neutral => (PotentiallyBreaking, Medium))
    case RequiredFieldRemoved =>
      (match d
       case Input => (Compatible, Low)
       case Output => (PotentiallyBreaking, Medium)
       case Neutral => (PotentiallyBreaking, Low))
    case TypeChanged => (Breaking, High)
    case ArrayItemTypeChanged => (Breaking, High)
    case NullableToNonNullable =>
      (match d
       case Input => (Breaking, High)
       case Output => (Compatible, Info)
       case Neutral => (PotentiallyBreaking, Medium))
    case NonNullableToNullable =>
      (match d
       case Input => (Compatible, Info)
       case Output => (PotentiallyBreaking, Medium)
       case Neutral => (PotentiallyBreaking, Low))
    case EnumValueAdded =>
      (match d
       case Input => (Compatible, Info)
       case Output => (PotentiallyBreaking, Medium)
       case Neutral => (PotentiallyBreaking, Low))
    case EnumValueRemoved =>
      (match d
       case Input => (Breaking, High)
       case Output => (Compatible, Low)
       case Neutral => (PotentiallyBreaking, Medium))
    case EnumNarrowed =>
      (match d
       case Input => (Breaking, High)
       case Output => (Compatible, Low)
       case Neutral => (PotentiallyBreaking, Medium))
    case ValueChanged => (PotentiallyBreaking, Medium)
    case DescriptionChanged => (Compatible, Info)
  }

  const TIGHTENS_WHEN_LARGER: set<ConstraintKey> :=
    { Minimum, ExclusiveMinimum, MinLength, MinItems, MinProperties }

  const TIGHTENS_WHEN_SMALLER: set<ConstraintKey> :=
    { Maximum, ExclusiveMaximum, MaxLength, MaxItems, MaxProperties }

  /** Some(true) stricter, Some(false) looser, None when the key or the values do not tell. */
  function ConstraintTightened(key: ConstraintKey, old_: Scalar, new_: Scalar): Option<bool> {
    if key in TIGHTENS_WHEN_LARGER && old_.NumberValue? && new_.NumberValue? then Some(new_.r > old_.r)
    else if key in TIGHTENS_WHEN_SMALLER && old_.NumberValue? && new_.NumberValue? then Some(new_.r < old_.r)
    else if key.UniqueItems? && old_ == BoolValue(false) && new_ == BoolValue(true) then Some(true)
    else if key.UniqueItems? && old_ == BoolValue(true) && new_ == BoolValue(false) then Some(false)
    else None
  }

  function ClassifyConstraintChange(d: Direction, tightened: Option<bool>): (Classification, Severity) {
    match (tightened, d)
    case (None, _) => (PotentiallyBreaking, Medium)
    case (Some(t), Input) => if t then (PotentiallyBreaking, Medium) else (Compatible, Info)
    case (Some(t), Output) => if t then (Compatible, Low) else (PotentiallyBreaking, Medium)
    case (Some(_), Neutral) => (PotentiallyBreaking, Low)
  }

  predicate AllCompatible(changes: seq<Change>) {
    forall ch :: ch in changes ==> ch.classification.Compatible?
  }

  predicate SomeCritical(changes: seq<Change>) {
    exists ch :: ch in changes && ch.severity.Critical?
  }

  /** The worst classification wins; no change at all is compatible. */
  function DeriveStatus(changes: seq<Change>): (status: CompatibilityStatus)
    ensures status.StatusCompatible? <==> AllCompatible(changes)
    ensures status.StatusBreaking? <==> exists ch :: ch in changes && ch.classification.Breaking?
  {
    if exists ch :: ch in changes && ch.classification.Breaking? then StatusBreaking
    else if exists ch :: ch in changes && ch.classification.PotentiallyBreaking? then StatusWarning
    else StatusCompatible
  }

  lemma AllCompatibleConcat(a: seq<Change>, b: seq<Change>)
    ensures AllCompatible(a + b) <==> AllCompatible(a) && AllCompatible(b)
  {
    assert forall ch :: ch in a + b <==> ch in a || ch in b;
  }

  function SeverityRank(s: Severity): nat {
    match s case Info => 0 case Low => 1 case Medium => 2 case High => 3 case Critical => 4
  }

  function ClassificationRank(cl: Classification): nat {
    match cl case Compatible => 0 case PotentiallyBreaking => 1 case Breaking => 2
  }

  /** The tables' verdict; `tightened` matters to constraint changes only. */
  function VerdictFor(t: ChangeType, d: Direction, tightened: Option<bool>): (Classification, Severity) {
    if t.ConstraintChanged? then ClassifyConstraintChange(d, tightened) else Classify(t, d)
  }

  /** NEUTRAL is not the strictest reading in general. It is at least as severe as both directions for
      exactly three of the types the directional table lists, for the two generic ones, which have one
      verdict for every direction, and for a constraint change that neither tightens nor loosens. A
      tightened bound weighs more on INPUT, a loosened one on OUTPUT. */
  lemma NeutralIsStrictestExactly(t: ChangeType, tightened: Option<bool>)
    ensures (forall d :: SeverityRank(VerdictFor(t, d, tightened).1) <= SeverityRank(VerdictFor(t, Neutral, tightened).1)
                      && ClassificationRank(VerdictFor(t, d, tightened).0) <= ClassificationRank(VerdictFor(t, Neutral, tightened).0))
       <==> if t.ConstraintChanged? then tightened.None?
            else t in {FieldAdded, TypeChanged, ArrayItemTypeChanged, ValueChanged, DescriptionChanged}
  {
    var input, output, neutral := VerdictFor(t, Input, tightened), VerdictFor(t, Output, tightened), VerdictFor(t, Neutral, tightened);
    assert forall d :: VerdictFor(t, d, tightened) == input || VerdictFor(t, d, tightened) == output
                    || VerdictFor(t, d, tightened) == neutral;
  }

  /** A NEUTRAL change that only widens, or a bound known to have moved one way. */
  predicate WarnsLow(t: ChangeType, d: Direction, tightened: Option<bool>) {
    && d.Neutral?
    && (t in {FieldAdded, RequiredFieldRemoved, NonNullableToNullable, EnumValueAdded} || (t.ConstraintChanged? && tightened.Some?))
  }

  /** What an input stops requiring, and an output stops producing. */
  predicate NotesLow(t: ChangeType, d: Direction) {
    (d.Input? && t.RequiredFieldRemoved?) || (d.Output? && t in {EnumValueRemoved, EnumNarrowed, ConstraintChanged})
  }

  /** How severity follows classification: breaking is HIGH, and CRITICAL only for a required field added to an input;
      a warning is MEDIUM or LOW; a compatible change is INFO or LOW. */
  lemma SeverityExactly(t: ChangeType, d: Direction, tightened: Option<bool>)
    ensures var (cl, sv) := VerdictFor(t, d, tightened);
      sv == match cl
            case Breaking => if d.Input? && t.RequiredFieldAdded? then Critical else High
            case PotentiallyBreaking => if WarnsLow(t, d, tightened) then Low else Medium
            case Compatible => if NotesLow(t, d) then Low else Info
  {
    match d case Input => case Output => case Neutral =>
  }
}
