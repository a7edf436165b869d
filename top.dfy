/** The Top aggregate: collects the top `limit` values of a field in ascending or
    descending order. Type resolution, folded parameters, physical supplier selection,
    the limit-1 surrogate and the serialised child layout. */
module TopAggregate {
  import opened Types
  import opened Expressions
  import opened Registry

  const ORDER_ASC: string := "ASC"
  const ORDER_DESC: string := "DESC"

  /** A Top node: source text, the field, and the two parameters. */
  datatype TopFn = TopFn(source: string, field: Expr, limit: Expr, order: Expr)

  /** The parameters after the field, in declaration order. */
  function Parameters(t: TopFn): seq<Expr> {
    [t.limit, t.order]
  }

  /** The children: the field followed by the parameters. */
  function Children(t: TopFn): (r: seq<Expr>)
    ensures |r| == 3 && r[0] == t.field && r[1..] == Parameters(t)
  {
    [t.field] + Parameters(t)
  }

  function LimitField(t: TopFn): (r: Expr)
    ensures r == Children(t)[1]
  {
    Parameters(t)[0]
  }

  function OrderField(t: TopFn): (r: Expr)
    ensures r == Children(t)[2]
  {
    Parameters(t)[1]
  }

  /** The node as a generic aggregate expression. */
  function AsExpr(t: TopFn): Expr {
    Aggregate(t.source, Top, t.field, Parameters(t))
  }

  /** The data type of a Top node: its field's. */
  function DataTypeOf(t: TopFn): (r: DataType)
    ensures r == TypeOf(Children(t)[0])
  {
    TypeOf(AsExpr(t))
  }

  /** Both parameters are constants of the shape the folding casts expect. */
  predicate WellFolded(t: TopFn) {
    LimitField(t).Literal? && LimitField(t).value.IntVal? &&
    OrderField(t).Literal? && OrderField(t).value.StrVal?
  }

  /** The folded limit: the integer constant that is the second child. */
  function LimitValue(t: TopFn): (r: int)
    requires WellFolded(t)
    ensures Children(t)[1] == Literal(IntVal(r))
  {
    Fold(LimitField(t)).i
  }

  /** The folded order: the string constant that is the third child. */
  function OrderRawValue(t: TopFn): (r: string)
    requires WellFolded(t)
    ensures Children(t)[2] == Literal(StrVal(r))
  {
    Fold(OrderField(t)).s
  }

  function UpperAscii(c: char): char {
    if 'a' <= c <= 'z' then (c as int - 32) as char else c
  }

  /** Case-insensitive string equality (ASCII case folding). */
  predicate EqualsIgnoreCase(a: string, b: string) {
    |a| == |b| && forall i :: 0 <= i < |a| ==> UpperAscii(a[i]) == UpperAscii(b[i])
  }

  /** True for ascending order. */
  predicate OrderValue(t: TopFn)
    requires WellFolded(t)
  {
    EqualsIgnoreCase(OrderRawValue(t), ORDER_ASC)
  }

  /** When the order spells ASC or DESC, it is ascending exactly when it does not spell
      DESC: no string spells both. */
  lemma OrderValueIsAscending(t: TopFn)
    requires WellFolded(t)
    requires EqualsIgnoreCase(OrderRawValue(t), ORDER_ASC) || EqualsIgnoreCase(OrderRawValue(t), ORDER_DESC)
    ensures OrderValue(t) <==> !EqualsIgnoreCase(OrderRawValue(t), ORDER_DESC)
  {
    var o := OrderRawValue(t);
    if EqualsIgnoreCase(o, ORDER_ASC) {
      assert |o| == 3 != |ORDER_DESC|;
    }
  }

  /** Argument position, for diagnostics. */
  datatype Ordinal = FIRST | SECOND | THIRD

  /** The type descriptions the type checks report as expected. */
  datatype Expectation = NumericExceptUnsignedLongOrCounter | IntegerExpected | StringExpected

  /** The text of an expected-type description. */
  function ExpectationText(x: Expectation): string {
    match x
    case NumericExceptUnsignedLongOrCounter => "numeric except unsigned_long or counter types"
    case IntegerExpected => "integer"
    case StringExpected => "string"
  }

  /** Why type resolution failed. */
  datatype Diagnostic =
    | UnresolvedChildren
    | WrongType(ordinal: Ordinal, expected: Expectation, found: DataType)
    | NotFoldable(notFoldable: Ordinal)
    | IsNull(isNull: Ordinal)
    | LimitNotPositive(limitSource: string, limit: int)
    | InvalidOrder(orderSource: string, order: string)

  datatype TypeResolution = TypeResolved | Failed(diagnostic: Diagnostic)

  /** The first failure of two checks, or success. */
  function And(a: TypeResolution, b: TypeResolution): TypeResolution {
    if a.Failed? then a else b
  }

  /** A type check; an expression of type NULL always passes. */
  function IsType(e: Expr, accepted: bool, ordinal: Ordinal, expected: Expectation): TypeResolution {
    if accepted || TypeOf(e) == NULL then TypeResolved else Failed(WrongType(ordinal, expected, TypeOf(e)))
  }

  function IsNotNullAndFoldable(e: Expr, ordinal: Ordinal): TypeResolution {
    if !Foldable(e) then Failed(NotFoldable(ordinal))
    else if TypeOf(e) == NULL || Fold(e) == NullVal then Failed(IsNull(ordinal))
    else TypeResolved
  }

  /** The field types Top accepts: boolean, datetime, or numeric other than unsigned long. */
  predicate AcceptedFieldType(dt: DataType) {
    dt == BOOLEAN || dt == DATETIME || (IsNumeric(dt) && dt != UNSIGNED_LONG)
  }

  predicate ChildrenResolved(t: TopFn) {
    forall i :: 0 <= i < |Children(t)| ==> IsResolved(Children(t)[i])
  }

  /** A Top node that type resolution accepts, stated directly: resolved children, an
      accepted (or null) field type, a positive integer limit constant and an order
      constant spelling ASC or DESC in any case. */
  predicate ValidTop(t: TopFn) {
    && ChildrenResolved(t)
    && (AcceptedFieldType(TypeOf(t.field)) || TypeOf(t.field) == NULL)
    && t.limit.Literal? && t.limit.value.IntVal? && t.limit.value.i > 0
    && t.order.Literal? && t.order.value.StrVal?
    && (EqualsIgnoreCase(t.order.value.s, ORDER_ASC) || EqualsIgnoreCase(t.order.value.s, ORDER_DESC))
  }

  /** The limit checks pass exactly for an integer constant. */
  lemma IntegerConstantChecks(e: Expr)
    ensures IsNotNullAndFoldable(e, SECOND).TypeResolved? && IsType(e, TypeOf(e) == INTEGER, SECOND, IntegerExpected).TypeResolved?
      <==> e.Literal? && e.value.IntVal?
  {
  }

  /** The order checks pass exactly for a string constant. */
  lemma StringConstantChecks(e: Expr)
    ensures IsNotNullAndFoldable(e, THIRD).TypeResolved? && IsType(e, IsString(TypeOf(e)), THIRD, StringExpected).TypeResolved?
      <==> e.Literal? && e.value.StrVal?
  {
  }

  /** The type and constant checks on the field and both parameters, chained so that the
      first failure wins: they pass exactly for an accepted (or null) field type and
      parameters that are an integer and a string constant. */
  function ParameterChecks(t: TopFn): (r: TypeResolution)
    ensures r == TypeResolved <==> (AcceptedFieldType(TypeOf(t.field)) || TypeOf(t.field) == NULL) && WellFolded(t)
    ensures r.Failed? ==> r.diagnostic.WrongType? || r.diagnostic.NotFoldable? || r.diagnostic.IsNull?
    ensures r.Failed? && r.diagnostic.WrongType? && r.diagnostic.ordinal == FIRST ==>
      !AcceptedFieldType(TypeOf(t.field)) && TypeOf(t.field) != NULL
  {
    var fieldType := IsType(t.field, AcceptedFieldType(TypeOf(t.field)), FIRST, NumericExceptUnsignedLongOrCounter);
    var limitConstant := IsNotNullAndFoldable(LimitField(t), SECOND);
    var limitType := IsType(LimitField(t), TypeOf(LimitField(t)) == INTEGER, SECOND, IntegerExpected);
    var orderConstant := IsNotNullAndFoldable(OrderField(t), THIRD);
    var orderType := IsType(OrderField(t), IsString(TypeOf(OrderField(t))), THIRD, StringExpected);
    IntegerConstantChecks(LimitField(t));
    StringConstantChecks(OrderField(t));
    And(And(And(And(fieldType, limitConstant), limitType), orderConstant), orderType)
  }

  /** Type resolution, with the diagnostic of the first check that fails. */
  function ResolveType(t: TopFn): (r: TypeResolution)
    ensures r == TypeResolved <==> ValidTop(t)
    ensures !ChildrenResolved(t) ==> r == Failed(UnresolvedChildren)
    ensures r == TypeResolved ==> WellFolded(t)
    ensures r.Failed? && r.diagnostic.LimitNotPositive? ==>
      WellFolded(t) && r.diagnostic.limit == LimitValue(t) && LimitValue(t) <= 0 && r.diagnostic.limitSource == t.source
    ensures r.Failed? && r.diagnostic.InvalidOrder? ==>
      WellFolded(t) && LimitValue(t) > 0 && r.diagnostic.order == OrderRawValue(t) && r.diagnostic.orderSource == t.source
      && !EqualsIgnoreCase(OrderRawValue(t), ORDER_ASC) && !EqualsIgnoreCase(OrderRawValue(t), ORDER_DESC)
    ensures r.Failed? && r.diagnostic.WrongType? && r.diagnostic.ordinal == FIRST ==>
      !AcceptedFieldType(TypeOf(t.field)) && TypeOf(t.field) != NULL
    ensures ChildrenResolved(t) && ParameterChecks(t).Failed? ==> r == ParameterChecks(t)
    ensures ChildrenResolved(t) && ParameterChecks(t) == TypeResolved && LimitValue(t) <= 0 ==>
      r == Failed(LimitNotPositive(t.source, LimitValue(t)))
    ensures ChildrenResolved(t) && ParameterChecks(t) == TypeResolved && LimitValue(t) > 0 ==>
      (!EqualsIgnoreCase(OrderRawValue(t), ORDER_ASC) && !EqualsIgnoreCase(OrderRawValue(t), ORDER_DESC) <==>
       r == Failed(InvalidOrder(t.source, OrderRawValue(t))))
  {
    if !ChildrenResolved(t) then Failed(UnresolvedChildren)
    else
      var checks := ParameterChecks(t);
      if checks.Failed? then checks
      else
        var limit := LimitValue(t);
        var order := OrderRawValue(t);
        if limit <= 0 then Failed(LimitNotPositive(t.source, limit))
        else if !EqualsIgnoreCase(order, ORDER_ASC) && !EqualsIgnoreCase(order, ORDER_DESC) then
          Failed(InvalidOrder(t.source, order))
        else TypeResolved
  }

  /** A well-typed Top over a field, with a constant limit of zero or less, reports that
      limit whatever the order. */
  lemma LimitNotPositiveReported(source: string, field: Expr, limit: int, order: string)
    requires field.FieldAttr? && AcceptedFieldType(field.typ) && limit <= 0
    ensures ResolveType(TopFn(source, field, Literal(IntVal(limit)), Literal(StrVal(order))))
      == Failed(LimitNotPositive(source, limit))
  {
    var t := TopFn(source, field, Literal(IntVal(limit)), Literal(StrVal(order)));
    assert ChildrenResolved(t);
  }

  /** With a positive limit, an order spelling neither ASC nor DESC is reported as given. */
  lemma InvalidOrderReported(source: string, field: Expr, limit: int, order: string)
    requires field.FieldAttr? && AcceptedFieldType(field.typ) && limit > 0
    requires !EqualsIgnoreCase(order, ORDER_ASC) && !EqualsIgnoreCase(order, ORDER_DESC)
    ensures ResolveType(TopFn(source, field, Literal(IntVal(limit)), Literal(StrVal(order))))
      == Failed(InvalidOrder(source, order))
  {
    var t := TopFn(source, field, Literal(IntVal(limit)), Literal(StrVal(order)));
    assert ChildrenResolved(t);
  }

  /** The value of a decimal digit, None for any other character. */
  function DigitOf(c: char): Option<nat> {
    if '0' <= c <= '9' then Some(c as int - '0' as int) else None
  }

  /** Decimal rendering of a natural number. */
  function NatToString(n: nat): (r: string)
    ensures |r| >= 1 && forall i :: 0 <= i < |r| ==> DigitOf(r[i]).Some?
    decreases n
  {
    var d := [(('0' as int) + n % 10) as char];
    if n < 10 then d else NatToString(n / 10) + d
  }

  /** Decimal rendering of an integer: a minus sign before a negative number's digits. */
  function IntToString(i: int): string {
    if i < 0 then "-" + NatToString(-i) else NatToString(i)
  }

  /** Reads a non-empty string of decimal digits, most significant first. */
  function ParseNat(s: string): Option<nat>
    decreases |s|
  {
    if s == [] then None
    else
      match DigitOf(s[|s| - 1])
      case None => None
      case Some(d) =>
        if |s| == 1 then Some(d)
        else
          match ParseNat(s[..|s| - 1])
          case None => None
          case Some(p) => Some(p * 10 + d)
  }

  /** Reads an optionally negative decimal integer. */
  function ParseInt(s: string): Option<int> {
    if |s| > 0 && s[0] == '-' then
      match ParseNat(s[1..])
      case None => None
      case Some(p) => Some(-(p as int))
    else
      match ParseNat(s)
      case None => None
      case Some(p) => Some(p as int)
  }

  /** Reading back the decimal rendering of a natural number gives the number. */
  lemma {:induction false} NatToStringParses(n: nat)
    ensures ParseNat(NatToString(n)) == Some(n)
    decreases n
  {
    var s := NatToString(n);
    if n >= 10 {
      NatToStringParses(n / 10);
      assert s[..|s| - 1] == NatToString(n / 10);
    }
  }

  /** Reading back the decimal rendering of an integer gives the integer. */
  lemma IntToStringParses(i: int)
    ensures ParseInt(IntToString(i)) == Some(i)
  {
    var s := IntToString(i);
    if i < 0 {
      NatToStringParses(-i);
      assert s[1..] == NatToString(-i);
    } else {
      NatToStringParses(i);
      assert DigitOf(s[0]).Some?;
    }
  }

  /** A text closed by a bracket after a prefix: the prefix, the text, then "]". */
  lemma Bracketed(p: string, x: string)
    ensures var r := p + x + "]"; StartsWith(r, p) && |r| > |p| && r[|r| - 1] == ']' && r[|p|..|r| - 1] == x
  {
    var r := p + x + "]";
    assert r[..|p|] == p;
    assert r[|p|..|r| - 1] == x;
  }

  /** The user-facing text of Top's own diagnostics. The limit message ends with the
      limit in decimal between brackets; the order message ends with the order as given. */
  function Message(d: Diagnostic): (r: string)
    requires d.UnresolvedChildren? || d.LimitNotPositive? || d.InvalidOrder?
    ensures d.UnresolvedChildren? ==> r == "Unresolved children"
    ensures d.LimitNotPositive? ==>
      var p := "Limit must be greater than 0 in [" + d.limitSource + "], found [";
      && StartsWith(r, p) && |r| > |p| && r[|r| - 1] == ']'
      && ParseInt(r[|p|..|r| - 1]) == Some(d.limit)
    ensures d.InvalidOrder? ==>
      var p := "Invalid order value in [" + d.orderSource + "], expected [ASC, DESC] but got [";
      && StartsWith(r, p) && |r| > |p| && r[|r| - 1] == ']' && r[|p|..|r| - 1] == d.order
  {
    match d
    case UnresolvedChildren => "Unresolved children"
    case LimitNotPositive(src, limit) =>
      var p := "Limit must be greater than 0 in [" + src + "], found [";
      Bracketed(p, IntToString(limit));
      IntToStringParses(limit);
      p + IntToString(limit) + "]"
    case InvalidOrder(src, order) =>
      var p := "Invalid order value in [" + src + "], expected [ASC, DESC] but got [";
      Bracketed(p, order);
      p + order + "]"
  }

  /** The physical aggregator suppliers Top can choose. */
  datatype SupplierKind = TopLong | TopInt | TopDouble | TopBoolean

  datatype AggregatorSupplier = AggregatorSupplier(kind: SupplierKind, inputChannels: seq<int>, limit: int, ascending: bool)

  /** Chooses the supplier for the field type; any other type is an internal error. */
  function Supplier(t: TopFn, inputChannels: seq<int>): (r: Result<AggregatorSupplier, Fault>)
    requires WellFolded(t)
    ensures r.Ok? <==> var dt := TypeOf(t.field); dt == LONG || dt == DATETIME || dt == INTEGER || dt == DOUBLE || dt == BOOLEAN
    ensures r.Err? ==> r.error == IllegalDataType(TypeOf(t.field))
    ensures r.Ok? ==> r.value.inputChannels == inputChannels && r.value.limit == LimitValue(t)
    ensures r.Ok? ==> (r.value.ascending <==> EqualsIgnoreCase(OrderRawValue(t), ORDER_ASC))
    ensures r.Ok? ==> (r.value.kind == TopLong <==> TypeOf(t.field) == LONG || TypeOf(t.field) == DATETIME)
    ensures r.Ok? ==> (r.value.kind == TopInt <==> TypeOf(t.field) == INTEGER)
    ensures r.Ok? ==> (r.value.kind == TopDouble <==> TypeOf(t.field) == DOUBLE)
    ensures r.Ok? ==> (r.value.kind == TopBoolean <==> TypeOf(t.field) == BOOLEAN)
  {
    var typ := TypeOf(t.field);
    if typ == LONG || typ == DATETIME then Ok(AggregatorSupplier(TopLong, inputChannels, LimitValue(t), OrderValue(t)))
    else if typ == INTEGER then Ok(AggregatorSupplier(TopInt, inputChannels, LimitValue(t), OrderValue(t)))
    else if typ == DOUBLE then Ok(AggregatorSupplier(TopDouble, inputChannels, LimitValue(t), OrderValue(t)))
    else if typ == BOOLEAN then Ok(AggregatorSupplier(TopBoolean, inputChannels, LimitValue(t), OrderValue(t)))
    else Err(IllegalDataType(typ))
  }

  /** The cheaper equivalent: Top with limit 1 is Min (ascending) or Max (descending)
      over the same field; any other limit has no surrogate. */
  function Surrogate(t: TopFn): (r: Option<Expr>)
    requires WellFolded(t)
    ensures r.Some? <==> LimitValue(t) == 1
    ensures r.Some? ==> r.value.Aggregate? && r.value.field == t.field && r.value.parameters == [] && r.value.source == t.source
    ensures r.Some? ==> (r.value.clazz == Min <==> OrderValue(t)) && (r.value.clazz == Max <==> !OrderValue(t))
    ensures r.Some? ==> TypeOf(r.value) == DataTypeOf(t)
  {
    if LimitValue(t) == 1 then
      if OrderValue(t) then Some(Aggregate(t.source, Min, t.field, []))
      else Some(Aggregate(t.source, Max, t.field, []))
    else None
  }

  /** For a resolved node: limit 1 and ASC give Min, limit 1 and DESC give Max, in any
      letter case; every other limit gives none. */
  lemma SurrogateOfResolved(t: TopFn)
    requires ResolveType(t) == TypeResolved
    ensures LimitValue(t) == 1 && EqualsIgnoreCase(OrderRawValue(t), "ASC") ==>
      Surrogate(t) == Some(Aggregate(t.source, Min, t.field, []))
    ensures LimitValue(t) == 1 && EqualsIgnoreCase(OrderRawValue(t), "DESC") ==>
      Surrogate(t) == Some(Aggregate(t.source, Max, t.field, []))
    ensures LimitValue(t) != 1 ==> Surrogate(t) == None
  {
    if LimitValue(t) == 1 && EqualsIgnoreCase(OrderRawValue(t), "DESC") {
      var o := OrderRawValue(t);
      assert UpperAscii(o[0]) == 'D' && UpperAscii('A') == 'A';
      assert !EqualsIgnoreCase(o, "ASC");
    }
  }

  /** Rebuilds the node from a new child list, position by position; a list shorter than
      three has no third element. */
  function ReplaceChildren(t: TopFn, newChildren: seq<Expr>): (r: Option<TopFn>)
    ensures r.Some? <==> |newChildren| >= 3
    ensures r.Some? ==> Children(r.value) == newChildren[..3] && r.value.source == t.source
  {
    if |newChildren| < 3 then None
    else Some(TopFn(t.source, newChildren[0], newChildren[1], newChildren[2]))
  }

  /** Replacing the children by the node's own children gives the node back. */
  lemma ReplaceOwnChildren(t: TopFn)
    ensures ReplaceChildren(t, Children(t)) == Some(t)
  {
  }

  /** One item of the plan stream. */
  datatype Token = SourceTok(text: string) | ExprTok(expr: Expr)

  /** Serialisation: the source, then children 0, 1 and 2. */
  function WriteTo(t: TopFn): (r: seq<Token>)
    ensures |r| == 4 && r[0] == SourceTok(t.source)
    ensures forall i :: 0 <= i < 3 ==> r[i + 1] == ExprTok(Children(t)[i])
  {
    var cs := Children(t);
    [SourceTok(t.source), ExprTok(cs[0]), ExprTok(cs[1]), ExprTok(cs[2])]
  }

  /** Deserialisation: reads the source and three expressions in order and passes them to
      the constructor as field, limit and order; returns the unread rest. */
  function ReadFrom(input: seq<Token>): (r: Option<(TopFn, seq<Token>)>)
    ensures r.Some? <==> |input| >= 4 && input[0].SourceTok? && input[1].ExprTok? && input[2].ExprTok? && input[3].ExprTok?
    ensures r.Some? ==> WriteTo(r.value.0) + r.value.1 == input
  {
    if |input| < 4 || !input[0].SourceTok? || !input[1].ExprTok? || !input[2].ExprTok? || !input[3].ExprTok? then None
    else Some((TopFn(input[0].text, input[1].expr, input[2].expr, input[3].expr), input[4..]))
  }

  /** Decoding what was encoded gives the same node and leaves what follows untouched. */
  lemma {:induction false} RoundTrip(t: TopFn, rest: seq<Token>)
    ensures ReadFrom(WriteTo(t) + rest) == Some((t, rest))
  {
    var w := WriteTo(t) + rest;
    assert w[..4] == WriteTo(t);
    assert w[4..] == rest;
  }
}
