/** Sample values, the samples and rows that carry them, and value conditions. */
module Values {

  datatype Option<+T> = None | Some(value: T)

  /** An `f64`: a real number, or NaN. Infinities and signed zero are not modelled. */
  datatype Value = NaN | Num(r: real)

  datatype Sample = Sample(ts: int, value: Value)

  /** One timestamp with one value per aggregation column; a sample is the one-column case. */
  datatype Row = Row(ts: int, values: seq<Value>)

  function RowTs(row: Row): int { row.ts }

  /**
   * The two floating-point operations whose rounding is left open: `round` is what the
   * machine makes of an exact running sum, `sqrt` its square root. Every theorem holds for
   * all choices of the two functions.
   */
  datatype Machine = Machine(round: real -> real, sqrt: real -> real)

  const I64_MAX: int := 0x7FFF_FFFF_FFFF_FFFF
  const U32_MAX: int := 0xFFFF_FFFF

  /** `i64::saturating_add_unsigned`. */
  function SaturatingAdd(x: int, d: int): int {
    if x + d > I64_MAX then I64_MAX else x + d
  }

  // -- conditions (`countif>5`) ----------------------------------------------

  datatype ComparisonOperator = Equal | NotEqual | Greater | GreaterOrEqual | Less | LessOrEqual

  datatype Filter = Filter(operator: ComparisonOperator, comparand: Value)

  /** Ordering is false on NaN; `==` and `!=` treat NaN as equal to itself. */
  predicate Compare(f: Filter, v: Value) {
    match f.operator
    case Equal => v == f.comparand
    case NotEqual => v != f.comparand
    case Greater => v.Num? && f.comparand.Num? && v.r > f.comparand.r
    case GreaterOrEqual => v.Num? && f.comparand.Num? && v.r >= f.comparand.r
    case Less => v.Num? && f.comparand.Num? && v.r < f.comparand.r
    case LessOrEqual => v.Num? && f.comparand.Num? && v.r <= f.comparand.r
  }

  /** `ValueComparisonFilter::default()`: `!= NaN`. */
  const ANYTHING: Filter := Filter(NotEqual, NaN)

  /** Where a number lies relative to another: below, at it, above. */
  datatype Side = Below | At | Above

  function SideOf(x: real, c: real): Side { if x < c then Below else if x == c then At else Above }

  function Admitted(operator: ComparisonOperator): set<Side> {
    match operator
    case Equal => {At}
    case NotEqual => {Below, Above}
    case Greater => {Above}
    case GreaterOrEqual => {At, Above}
    case Less => {Below}
    case LessOrEqual => {Below, At}
  }

  /** A condition said by sides; a NaN on either side only ever equals another NaN. */
  predicate Meets(f: Filter, v: Value) {
    if v.Num? && f.comparand.Num? then SideOf(v.r, f.comparand.r) in Admitted(f.operator)
    else (f.operator.Equal? && v.NaN? && f.comparand.NaN?) || (f.operator.NotEqual? && !(v.NaN? && f.comparand.NaN?))
  }

  lemma CompareMeaning(f: Filter, v: Value)
    ensures Compare(f, v) <==> Meets(f, v)
    ensures Compare(ANYTHING, v) <==> v.Num?
  {
  }
}
