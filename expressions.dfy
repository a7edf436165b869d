/** The logical expression nodes the aggregation layer consumes and produces. */
module Expressions {
  import opened Types

  /** The aggregate function classes. `OtherAgg` stands for any aggregate class the
      registry does not list (a surrogate such as Avg, or a newly added function). */
  datatype AggClass =
    | Count | CountDistinct | Max | MedianAbsoluteDeviation | Min | Percentile
    | SpatialCentroid | Sum | Values | Top | Rate | FromPartial | ToPartial
    | OtherAgg(otherName: string)

  /** The simple (unqualified) class name of an aggregate class. */
  function SimpleName(c: AggClass): string {
    match c
    case Count => "Count"
    case CountDistinct => "CountDistinct"
    case Max => "Max"
    case MedianAbsoluteDeviation => "MedianAbsoluteDeviation"
    case Min => "Min"
    case Percentile => "Percentile"
    case SpatialCentroid => "SpatialCentroid"
    case Sum => "Sum"
    case Values => "Values"
    case Top => "Top"
    case Rate => "Rate"
    case FromPartial => "FromPartial"
    case ToPartial => "ToPartial"
    case OtherAgg(n) => n
  }

  /** A constant after folding. */
  datatype LitValue = IntVal(i: int) | LongVal(l: int) | BoolVal(b: bool) | StrVal(s: string) | NullVal

  /** Expression nodes. Attributes and aliases carry the identifier (`id`) that makes two
      otherwise equal attributes distinct; every other node is compared by value. */
  datatype Expr =
    | FieldAttr(id: nat, name: string, typ: DataType)
    | MetadataAttr(id: nat, name: string, typ: DataType)
    | ReferenceAttr(id: nat, name: string, typ: DataType)
    | Alias(id: nat, name: string, child: Expr)
    | Literal(value: LitValue)
    | UnresolvedAttr(name: string)
    | Computed(name: string, typ: DataType, args: seq<Expr>)
    | Aggregate(source: string, clazz: AggClass, field: Expr, parameters: seq<Expr>)

  /** The data type of a literal follows its value. */
  function LitType(v: LitValue): DataType {
    match v
    case IntVal(_) => INTEGER
    case LongVal(_) => LONG
    case BoolVal(_) => BOOLEAN
    case StrVal(_) => KEYWORD
    case NullVal => NULL
  }

  /** The data type of an expression. An aggregate node reports the type of its field:
      that is what Top and its Min and Max surrogates do, the only aggregates whose own
      type this model reads; Count or Sum report other types, which are not modelled. */
  function TypeOf(e: Expr): DataType {
    match e
    case FieldAttr(_, _, t) => t
    case MetadataAttr(_, _, t) => t
    case ReferenceAttr(_, _, t) => t
    case Alias(_, _, c) => TypeOf(c)
    case Literal(v) => LitType(v)
    case UnresolvedAttr(_) => UNSUPPORTED
    case Computed(_, t, _) => t
    case Aggregate(_, _, f, _) => TypeOf(f)
  }

  /** True when no unresolved node occurs in the expression. */
  predicate IsResolved(e: Expr) {
    match e
    case UnresolvedAttr(_) => false
    case Alias(_, _, c) => IsResolved(c)
    case Computed(_, _, args) => forall i :: 0 <= i < |args| ==> IsResolved(args[i])
    case Aggregate(_, _, f, ps) => IsResolved(f) && forall i :: 0 <= i < |ps| ==> IsResolved(ps[i])
    case _ => true
  }

  /** Only literals fold to a constant at plan time. */
  predicate Foldable(e: Expr) {
    e.Literal?
  }

  /** Constant folding of a foldable expression. */
  function Fold(e: Expr): LitValue
    requires Foldable(e)
  {
    e.value
  }

  /** Removes one alias layer. */
  function Unwrap(e: Expr): Expr {
    if e.Alias? then e.child else e
  }
}
