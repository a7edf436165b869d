/** Agreement between the logical Top function, the mapper's key derivation and the
    static registry: what type resolution lets through can be mapped and supplied. */
module Consistency {
  import opened Types
  import opened Expressions
  import opened Registry
  import opened Mapping
  import opened TopAggregate

  /** The field types that reach the planner at run time (narrow numeric types are
      widened before planning). */
  predicate RuntimeTopType(dt: DataType) {
    dt == BOOLEAN || dt == DATETIME || dt == INTEGER || dt == LONG || dt == DOUBLE
  }

  /** Top, Min or Max over a run-time field type derives a registered key in either
      grouping mode, tagged with the field's value type. */
  lemma RuntimeKeyIsRegistered(e: Expr, grouping: bool)
    requires e.Aggregate? && (e.clazz == Top || e.clazz == Min || e.clazz == Max)
    requires RuntimeTopType(TypeOf(e.field))
    ensures AggDefOrNull(e, grouping).Ok?
    ensures AggDefOrNull(e, grouping).value.Some?
    ensures IsRegistered(AggDefOrNull(e, grouping).value.value)
    ensures AggDefOrNull(e, grouping).value.value.typ == TopTag(TypeOf(e.field))
  {
    var dt := TypeOf(e.field);
    var tag := TopTag(dt);
    assert DataTypeToString(dt, e.clazz) == Ok(tag);
    var types := TypeTable(e.clazz).value.0;
    assert types == ["Boolean", "Int", "Long", "Double"];
    assert tag in types by {
      if dt == BOOLEAN {
        assert types[0] == tag;
      } else if dt == INTEGER {
        assert types[1] == tag;
      } else if dt == DOUBLE {
        assert types[3] == tag;
      } else {
        assert types[2] == tag;
      }
    }
  }

  /** The value-type tag of a run-time Top field type. */
  function TopTag(dt: DataType): string {
    if dt == BOOLEAN then "Boolean" else if dt == INTEGER then "Int"
    else if dt == DOUBLE then "Double" else "Long"
  }

  /** A resolved Top over a run-time type derives a registered key in both grouping modes,
      and its supplier exists and is specialised for the same value-type tag as the key. */
  lemma ResolvedTopIsMappable(t: TopFn, grouping: bool, inputChannels: seq<int>)
    requires ResolveType(t) == TypeResolved && RuntimeTopType(TypeOf(t.field))
    ensures AggDefOrNull(AsExpr(t), grouping).Ok?
    ensures AggDefOrNull(AsExpr(t), grouping).value.Some?
    ensures IsRegistered(AggDefOrNull(AsExpr(t), grouping).value.value)
    ensures Supplier(t, inputChannels).Ok?
    ensures SupplierTag(Supplier(t, inputChannels).value.kind) == AggDefOrNull(AsExpr(t), grouping).value.value.typ
  {
    RuntimeKeyIsRegistered(AsExpr(t), grouping);
    SupplierMatchesTag(t, inputChannels);
  }

  /** Over a run-time type, the supplier exists and is named for the field's tag. */
  lemma SupplierMatchesTag(t: TopFn, inputChannels: seq<int>)
    requires WellFolded(t) && RuntimeTopType(TypeOf(t.field))
    ensures Supplier(t, inputChannels).Ok?
    ensures SupplierTag(Supplier(t, inputChannels).value.kind) == TopTag(TypeOf(t.field))
  {
  }

  /** The value-type tag in the name of each Top supplier class. */
  function SupplierTag(k: SupplierKind): string {
    match k
    case TopLong => "Long"
    case TopInt => "Int"
    case TopDouble => "Double"
    case TopBoolean => "Boolean"
  }

  /** The limit-1 surrogate of a resolved Top over a run-time type is itself mappable:
      its Min or Max key is registered in both grouping modes. */
  lemma SurrogateIsMappable(t: TopFn, grouping: bool)
    requires ResolveType(t) == TypeResolved && RuntimeTopType(TypeOf(t.field))
    requires LimitValue(t) == 1
    ensures Surrogate(t).Some?
    ensures AggDefOrNull(Surrogate(t).value, grouping).Ok?
    ensures AggDefOrNull(Surrogate(t).value, grouping).value.Some?
    ensures IsRegistered(AggDefOrNull(Surrogate(t).value, grouping).value.value)
  {
    assert WellFolded(t);
    var s := Surrogate(t).value;
    assert s.Aggregate? && (s.clazz == Min || s.clazz == Max) && s.field == t.field;
    RuntimeKeyIsRegistered(s, grouping);
  }

  /** Type resolution accepts narrow numeric fields that no physical Top exists for: a
      Top over a float field with a positive limit and a valid order resolves, yet neither
      a registry tag nor a supplier exists for it. */
  lemma FloatTopResolvesWithoutPhysicalForm(source: string, field: Expr, limit: int, order: string, inputChannels: seq<int>)
    requires field.FieldAttr? && field.typ == FLOAT
    requires limit > 0 && (EqualsIgnoreCase(order, ORDER_ASC) || EqualsIgnoreCase(order, ORDER_DESC))
    ensures var t := TopFn(source, field, Literal(IntVal(limit)), Literal(StrVal(order)));
      && ResolveType(t) == TypeResolved
      && DataTypeToString(FLOAT, Top) == Err(IllegalAggType(FLOAT))
      && Supplier(t, inputChannels) == Err(IllegalDataType(FLOAT))
  {
    var t := TopFn(source, field, Literal(IntVal(limit)), Literal(StrVal(order)));
    assert ChildrenResolved(t) by {
      assert forall i :: 0 <= i < 3 ==> IsResolved(Children(t)[i]);
    }
  }

  /** Mapping an aggregate whose key is registered goes to the registry entry the oracle
      supplied for that key's class name. */
  lemma MappingUsesRegistry(oracle: Oracle, e: Expr, grouping: bool, firstId: nat)
    requires BuildRegistry(oracle).Ok?
    requires e.Aggregate? && AggDefOrNull(e, grouping).Ok?
    requires IsRegistered(AggDefOrNull(e, grouping).value.value)
    ensures ComputeEntryForAgg(BuildRegistry(oracle).value, e, grouping, firstId)
      == IsToNE(oracle(KeyName(AggDefOrNull(e, grouping).value.value)).value, firstId)
  {
  }

  /** Rate has no non-grouping variant: mapping it without grouping cannot find a state. */
  lemma RateWithoutGroupingIsMissing(oracle: Oracle, e: Expr, firstId: nat)
    requires BuildRegistry(oracle).Ok?
    requires e.Aggregate? && e.clazz == Rate && AggDefOrNull(e, false).Ok?
    ensures ComputeEntryForAgg(BuildRegistry(oracle).value, e, false, firstId)
      == Err(CannotFindIntermediateState(AggDefOrNull(e, false).value.value))
  {
  }

  /** Sum over a long field: both grouping modes have registered keys. */
  lemma SumLongKeys(source: string, f: Expr)
    requires TypeOf(f) == LONG
    ensures AggDefOrNull(Aggregate(source, Sum, f, []), false) == Ok(Some(AggDef(Sum, "Long", "", false)))
    ensures AggDefOrNull(Aggregate(source, Sum, f, []), true) == Ok(Some(AggDef(Sum, "Long", "", true)))
    ensures IsRegistered(AggDef(Sum, "Long", "", false)) && IsRegistered(AggDef(Sum, "Long", "", true))
  {
    assert DataTypeToString(LONG, Sum) == Ok("Long");
    assert TypeTable(Sum).value.0 == NUMERIC && NUMERIC[1] == "Long";
  }

  /** Of the registered classes only SpatialCentroid lives in the spatial sub-package. */
  lemma OnlyCentroidIsSpatial(c: AggClass)
    requires !c.OtherAgg?
    ensures DeterminePackageName(c) == SPATIAL_PACKAGE <==> c == SpatialCentroid
  {
    var n := SimpleName(c);
    if c == SpatialCentroid {
      assert n[..7] == "Spatial";
    } else if |n| >= 7 {
      assert n[1] != 'p' || n[0] != 'S';
      assert n[..7][0] == n[0] && n[..7][1] == n[1];
    }
  }

  /** Outside the run-time types, a resolved Top (a narrow numeric or a null field) has no
      supplier. */
  lemma ResolvedWithoutSupplier(t: TopFn, inputChannels: seq<int>)
    requires ResolveType(t) == TypeResolved && !RuntimeTopType(TypeOf(t.field))
    ensures Supplier(t, inputChannels) == Err(IllegalDataType(TypeOf(t.field)))
    ensures TypeOf(t.field) in {BYTE, SHORT, HALF_FLOAT, FLOAT, SCALED_FLOAT, NULL}
  {
  }
}
