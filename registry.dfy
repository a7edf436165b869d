/** The static registry of AggregateMapper: which physical aggregator variants exist,
    what their class names are, and the table from variant key to intermediate state. */
module Registry {
  import opened Types
  import opened Expressions

  const NUMERIC: seq<string> := ["Int", "Long", "Double"]
  const SPATIAL: seq<string> := ["GeoPoint", "CartesianPoint"]

  /** Every aggregate class the registry is built from, in declaration order; surrogates
      such as Avg are not listed. */
  const AGG_FUNCTIONS: seq<AggClass> :=
    [Count, CountDistinct, Max, MedianAbsoluteDeviation, Min, Percentile,
     SpatialCentroid, Sum, Values, Top, Rate, FromPartial, ToPartial]

  const SPATIAL_PACKAGE: string := "org.elasticsearch.compute.aggregation.spatial"
  const AGG_PACKAGE: string := "org.elasticsearch.compute.aggregation"

  /** A variant key: aggregate class, value-type tag, extra-config tag and grouping mode. */
  datatype AggDef = AggDef(aggClazz: AggClass, typ: string, extra: string, grouping: bool)

  /** One column of an aggregator's intermediate state; an empty `dataType` means
      "derive the logical type from the element type". */
  datatype Desc = Desc(name: string, elementType: ElementType, dataType: string)

  /** A (class, type tag, extra tag) triple before the grouping split. */
  datatype Combo = Combo(clazz: AggClass, typ: string, extra: string)

  /** The exceptions the mapping layer throws. */
  datatype Fault =
    | UnknownAggregateType(clazz: AggClass)
    | DuplicateKey(key: AggDef)
    | IntermediateStateLookupFailed(className: string)
    | CannotFindIntermediateState(missing: AggDef)
    | IllegalAggType(dataType: DataType)
    | UnsupportedAggType(elementType: ElementType)
    | UnknownAgg(expr: Expr)
    | IllegalDataType(illegal: DataType)

  /** Reflection plus the static `intermediateStateDesc()` of the class it finds:
      from a fully qualified class name to that class's intermediate state, or None
      when the class or the method cannot be resolved. */
  type Oracle = string -> Option<seq<Desc>>

  /** The registry: variant key to intermediate state. */
  type Table = map<AggDef, seq<Desc>>

  predicate Distinct<T(==)>(s: seq<T>) {
    forall i, j :: 0 <= i < j < |s| ==> s[i] != s[j]
  }

  /** Aggregate classes that extend NumericAggregate. */
  predicate IsNumericAggregate(c: AggClass) {
    c == MedianAbsoluteDeviation || c == Percentile || c == Sum
  }

  /** The position of a listed class in AGG_FUNCTIONS. */
  function IndexOfClass(c: AggClass): (k: nat)
    requires !c.OtherAgg?
    ensures k < |AGG_FUNCTIONS| && AGG_FUNCTIONS[k] == c
  {
    match c
    case Count => 0
    case CountDistinct => 1
    case Max => 2
    case MedianAbsoluteDeviation => 3
    case Min => 4
    case Percentile => 5
    case SpatialCentroid => 6
    case Sum => 7
    case Values => 8
    case Top => 9
    case Rate => 10
    case FromPartial => 11
    case ToPartial => 12
  }

  /** The listed classes are exactly the named ones. */
  lemma ListedClasses(c: AggClass)
    ensures c in AGG_FUNCTIONS <==> !c.OtherAgg?
  {
    if !c.OtherAgg? {
      assert AGG_FUNCTIONS[IndexOfClass(c)] == c;
    }
  }

  /** IndexOfClass inverts indexing into AGG_FUNCTIONS. */
  lemma IndexOfListed(i: nat)
    requires i < |AGG_FUNCTIONS|
    ensures !AGG_FUNCTIONS[i].OtherAgg? && IndexOfClass(AGG_FUNCTIONS[i]) == i
  {
    if i == 0 {} else if i == 1 {} else if i == 2 {} else if i == 3 {} else if i == 4 {}
    else if i == 5 {} else if i == 6 {} else if i == 7 {} else if i == 8 {} else if i == 9 {}
    else if i == 10 {} else if i == 11 {} else {}
  }

  /** No class is listed twice. */
  lemma ClassesListedOnce()
    ensures Distinct(AGG_FUNCTIONS)
  {
    forall i, j | 0 <= i < j < |AGG_FUNCTIONS| ensures AGG_FUNCTIONS[i] != AGG_FUNCTIONS[j] {
      IndexOfListed(i);
      IndexOfListed(j);
    }
  }

  /** The per-class rule table (value-type tags, extra-config tags), decided by the first
      matching branch; None for a class the table does not know. */
  function TypeTable(c: AggClass): (r: Option<(seq<string>, seq<string>)>)
    ensures r.Some? <==> !c.OtherAgg?
    ensures r.Some? ==> |r.value.0| > 0 && |r.value.1| > 0 && Distinct(r.value.0) && Distinct(r.value.1)
  {
    if IsNumericAggregate(c) then Some((NUMERIC, [""]))
    else if c == Max || c == Min then Some((["Boolean", "Int", "Long", "Double"], [""]))
    else if c == Count then Some(([""], [""]))
    else if c == SpatialCentroid then Some((SPATIAL, ["SourceValues", "DocValues"]))
    else if c == Values then Some((["Int", "Long", "Double", "Boolean", "BytesRef"], [""]))
    else if c == Top then Some((["Boolean", "Int", "Long", "Double"], [""]))
    else if c == Rate then Some((NUMERIC, [""]))
    else if c == FromPartial || c == ToPartial then Some(([""], [""]))
    else if c == CountDistinct then
      assert NUMERIC + ["Boolean", "BytesRef"] == ["Int", "Long", "Double", "Boolean", "BytesRef"];
      Some((NUMERIC + ["Boolean", "BytesRef"], [""]))
    else None
  }

  /** Every value-type tag paired with every extra tag, type-major. */
  function Combinations(types: seq<string>, extras: seq<string>): (r: seq<(string, string)>)
    ensures |r| == |types| * |extras|
    ensures forall p :: p in r <==> p.0 in types && p.1 in extras
  {
    if types == [] then []
    else
      var rest := Combinations(types[1..], extras);
      assert forall t :: t in types <==> t == types[0] || t in types[1..];
      assert |types| * |extras| == |extras| + |types[1..]| * |extras|;
      var head := seq(|extras|, j requires 0 <= j < |extras| => (types[0], extras[j]));
      assert forall p :: p in head <==> p.0 == types[0] && p.1 in extras by {
        forall p: (string, string) | p.0 == types[0] && p.1 in extras ensures p in head {
          var j :| 0 <= j < |extras| && extras[j] == p.1;
          assert head[j] == p;
        }
      }
      head + rest
  }

  /** Combinations keeps the type-major order: pair (i, j) sits at index i * |extras| + j. */
  lemma {:induction false} CombinationsAt(types: seq<string>, extras: seq<string>, i: nat, j: nat)
    requires i < |types| && j < |extras|
    ensures i * |extras| + j < |Combinations(types, extras)|
    ensures Combinations(types, extras)[i * |extras| + j] == (types[i], extras[j])
  {
    var n := |extras|;
    if i > 0 {
      CombinationsAt(types[1..], extras, i - 1, j);
      assert i * n + j == n + ((i - 1) * n + j);
    }
  }

  /** Distinct tags give distinct pairs. */
  lemma {:induction false} CombinationsDistinct(types: seq<string>, extras: seq<string>)
    requires Distinct(types) && Distinct(extras)
    ensures Distinct(Combinations(types, extras))
  {
    if types != [] {
      var n := |extras|;
      var head := seq(n, j requires 0 <= j < n => (types[0], extras[j]));
      var rest := Combinations(types[1..], extras);
      DistinctTail(types);
      CombinationsDistinct(types[1..], extras);
      assert Distinct(head) by {
        forall a, b | 0 <= a < b < n ensures head[a] != head[b] {
          assert head[a].1 == extras[a] && head[b].1 == extras[b];
        }
      }
      assert forall x :: x in head ==> x.0 == types[0];
      assert forall x :: x in rest ==> x.0 in types[1..];
      DistinctConcat(head, rest);
      assert head + rest == Combinations(types, extras);
    }
  }


  /** The (class, type, extra) triples of one class; fails for a class the table does not know. */
  function TypeAndNames(c: AggClass): (r: Result<seq<Combo>, Fault>)
    ensures r.Ok? <==> !c.OtherAgg?
    ensures r.Err? ==> r.error == UnknownAggregateType(c)
    ensures r.Ok? ==> |r.value| == |TypeTable(c).value.0| * |TypeTable(c).value.1|
    ensures r.Ok? ==> forall x :: x in r.value <==>
      x.clazz == c && x.typ in TypeTable(c).value.0 && x.extra in TypeTable(c).value.1
    ensures r.Ok? ==> Distinct(r.value)
    ensures r.Ok? ==> forall i :: 0 <= i < |r.value| ==> r.value[i].clazz == c
  {
    match TypeTable(c)
    case None => Err(UnknownAggregateType(c))
    case Some((types, extras)) =>
      var combos := Combinations(types, extras);
      CombinationsDistinct(types, extras);
      var r := seq(|combos|, i requires 0 <= i < |combos| => Combo(c, combos[i].0, combos[i].1));
      assert forall x :: x in r <==> x.clazz == c && (x.typ, x.extra) in combos by {
        forall x ensures x in r <==> x.clazz == c && (x.typ, x.extra) in combos {
          if x.clazz == c && (x.typ, x.extra) in combos {
            var i :| 0 <= i < |combos| && combos[i] == (x.typ, x.extra);
            assert r[i] == x;
          }
        }
      }
      Ok(r)
  }

  /** The grouping and non-grouping keys of one triple; Rate has only the grouping one. */
  function GroupingAndNonGrouping(x: Combo): (r: seq<AggDef>)
    ensures forall d :: d in r <==>
      d.aggClazz == x.clazz && d.typ == x.typ && d.extra == x.extra && (d.grouping || x.clazz != Rate)
    ensures Distinct(r)
    ensures |r| == if x.clazz == Rate then 1 else 2
  {
    if x.clazz == Rate then [AggDef(x.clazz, x.typ, x.extra, true)]
    else [AggDef(x.clazz, x.typ, x.extra, true), AggDef(x.clazz, x.typ, x.extra, false)]
  }

  /** The flat map of GroupingAndNonGrouping over a sequence of triples. */
  function ExpandGrouping(xs: seq<Combo>): (r: seq<AggDef>)
    ensures forall d :: d in r <==>
      Combo(d.aggClazz, d.typ, d.extra) in xs && (d.grouping || d.aggClazz != Rate)
    ensures (forall i :: 0 <= i < |xs| ==> xs[i].clazz != Rate) ==> |r| == 2 * |xs|
    ensures (forall i :: 0 <= i < |xs| ==> xs[i].clazz == Rate) ==> |r| == |xs|
  {
    if xs == [] then []
    else
      assert forall x :: x in xs <==> x == xs[0] || x in xs[1..];
      GroupingAndNonGrouping(xs[0]) + ExpandGrouping(xs[1..])
  }

  lemma {:induction false} ExpandGroupingDistinct(xs: seq<Combo>)
    requires Distinct(xs)
    ensures Distinct(ExpandGrouping(xs))
  {
    if xs != [] {
      var head := GroupingAndNonGrouping(xs[0]);
      var rest := ExpandGrouping(xs[1..]);
      assert Distinct(xs[1..]) by {
        forall i, j | 0 <= i < j < |xs[1..]| ensures xs[1..][i] != xs[1..][j] {
          assert xs[1..][i] == xs[i + 1] && xs[1..][j] == xs[j + 1];
        }
      }
      ExpandGroupingDistinct(xs[1..]);
      var r := head + rest;
      forall a, b | 0 <= a < b < |r| ensures r[a] != r[b] {
        if b < |head| {
        } else if a < |head| {
          assert r[a] in head && r[b] in rest;
          assert Combo(r[b].aggClazz, r[b].typ, r[b].extra) in xs[1..];
          assert xs[0] !in xs[1..];
        } else {
          assert r[a] == rest[a - |head|] && r[b] == rest[b - |head|];
        }
      }
    }
  }

  /** Every listed class contributes two keys per triple, Rate one. */
  lemma ClassKeyCount(c: AggClass)
    requires !c.OtherAgg?
    ensures |ExpandGrouping(TypeAndNames(c).value)| == (if c == Rate then 1 else 2) * |TypeAndNames(c).value|
  {
  }

  /** The spatial class has four triples, each with a SourceValues or DocValues extra. */
  lemma SpatialCombinations()
    ensures |TypeAndNames(SpatialCentroid).value| == 4
    ensures forall x :: x in TypeAndNames(SpatialCentroid).value ==> x.extra in {"SourceValues", "DocValues"}
  {
    assert |TypeTable(SpatialCentroid).value.0| == 2 && |TypeTable(SpatialCentroid).value.1| == 2;
  }

  /** A key the registry is meant to hold, stated directly from the rule table. */
  predicate IsRegistered(d: AggDef) {
    && TypeTable(d.aggClazz).Some?
    && d.typ in TypeTable(d.aggClazz).value.0
    && d.extra in TypeTable(d.aggClazz).value.1
    && (d.grouping || d.aggClazz != Rate)
  }

  /** The keys of a sequence of classes, in order; the first unknown class aborts. */
  function DefsOf(cs: seq<AggClass>): (r: Result<seq<AggDef>, Fault>)
    ensures r.Ok? <==> forall c :: c in cs ==> !c.OtherAgg?
    ensures r.Ok? ==> forall d :: d in r.value <==> d.aggClazz in cs && IsRegistered(d)
  {
    if cs == [] then Ok([])
    else
      match TypeAndNames(cs[0])
      case Err(f) => Err(f)
      case Ok(combos) =>
        match DefsOf(cs[1..])
        case Err(f) => Err(f)
        case Ok(rest) =>
          assert forall c :: c in cs <==> c == cs[0] || c in cs[1..];
          Ok(ExpandGrouping(combos) + rest)
  }

  lemma DistinctTail<T>(s: seq<T>)
    requires s != [] && Distinct(s)
    ensures Distinct(s[1..]) && s[0] !in s[1..]
  {
    forall i, j | 0 <= i < j < |s[1..]| ensures s[1..][i] != s[1..][j] {
      assert s[1..][i] == s[i + 1] && s[1..][j] == s[j + 1];
    }
  }

  lemma DistinctCons<T>(s: seq<T>)
    requires s != [] && Distinct(s[1..]) && s[0] !in s[1..]
    ensures Distinct(s)
  {
    forall i, j | 0 <= i < j < |s| ensures s[i] != s[j] {
      if i == 0 {
        assert s[j] == s[1..][j - 1];
      } else {
        assert s[i] == s[1..][i - 1] && s[j] == s[1..][j - 1];
      }
    }
  }

  lemma DistinctConcat<T>(a: seq<T>, b: seq<T>)
    requires Distinct(a) && Distinct(b)
    requires forall x :: x in a ==> x !in b
    ensures Distinct(a + b)
  {
    var r := a + b;
    forall i, j | 0 <= i < j < |r| ensures r[i] != r[j] {
      if j < |a| {
        assert r[i] == a[i] && r[j] == a[j];
      } else if i < |a| {
        assert r[i] == a[i] && r[j] == b[j - |a|];
        assert a[i] in a && b[j - |a|] in b;
      } else {
        assert r[i] == b[i - |a|] && r[j] == b[j - |a|];
      }
    }
  }

  lemma {:induction false} DefsOfDistinct(cs: seq<AggClass>)
    requires Distinct(cs) && DefsOf(cs).Ok?
    ensures Distinct(DefsOf(cs).value)
  {
    if cs != [] {
      var combos := TypeAndNames(cs[0]).value;
      ExpandGroupingDistinct(combos);
      DistinctTail(cs);
      DefsOfDistinct(cs[1..]);
      var head := ExpandGrouping(combos);
      var rest := DefsOf(cs[1..]).value;
      assert DefsOf(cs).value == head + rest;
      assert forall x :: x in head ==> x.aggClazz == cs[0];
      assert forall x :: x in rest ==> x.aggClazz in cs[1..];
      DistinctConcat(head, rest);
    }
  }

  /** Every registry key, in the order the registry enumerates them. */
  function AllDefs(): (r: seq<AggDef>)
    ensures forall d :: d in r <==> IsRegistered(d)
    ensures Distinct(r)
  {
    ClassesListedOnce();
    assert DefsOf(AGG_FUNCTIONS).Ok? by {
      forall c | c in AGG_FUNCTIONS ensures !c.OtherAgg? {
        ListedClasses(c);
      }
    }
    DefsOfDistinct(AGG_FUNCTIONS);
    assert forall d: AggDef :: IsRegistered(d) ==> d.aggClazz in AGG_FUNCTIONS by {
      forall d: AggDef | IsRegistered(d) ensures d.aggClazz in AGG_FUNCTIONS {
        ListedClasses(d.aggClazz);
      }
    }
    DefsOf(AGG_FUNCTIONS).value
  }

  predicate StartsWith(s: string, prefix: string) {
    |prefix| <= |s| && s[..|prefix|] == prefix
  }

  /** The compute-module package of an aggregate class. */
  function DeterminePackageName(c: AggClass): (r: string)
    ensures r == SPATIAL_PACKAGE <==> StartsWith(SimpleName(c), "Spatial")
    ensures r == SPATIAL_PACKAGE || r == AGG_PACKAGE
  {
    if StartsWith(SimpleName(c), "Spatial") then SPATIAL_PACKAGE else AGG_PACKAGE
  }

  /** Concatenation of appended parts, as a string builder produces it. */
  function Concat(parts: seq<string>): string {
    if parts == [] then "" else Concat(parts[..|parts| - 1]) + parts[|parts| - 1]
  }

  lemma ConcatSeven(parts: seq<string>)
    requires |parts| == 7
    ensures Concat(parts) == parts[0] + parts[1] + parts[2] + parts[3] + parts[4] + parts[5] + parts[6]
  {
    var p := parts;
    assert p[..6][..5] == p[..5] && p[..5][..4] == p[..4] && p[..4][..3] == p[..3];
    assert p[..3][..2] == p[..2] && p[..2][..1] == p[..1] && p[..1][..0] == [];
    assert Concat(p[..1]) == p[0];
    assert Concat(p[..2]) == Concat(p[..1]) + p[1];
    assert Concat(p[..3]) == Concat(p[..2]) + p[2];
    assert Concat(p[..4]) == Concat(p[..3]) + p[3];
    assert Concat(p[..5]) == Concat(p[..4]) + p[4];
    assert Concat(p[..6]) == Concat(p[..5]) + p[5];
    assert Concat(p) == Concat(p[..6]) + p[6];
  }


  /** The pieces appended, in order, to build a physical aggregator's class name. */
  function AggNameParts(c: AggClass, typ: string, extra: string, grouping: bool): seq<string> {
    [DeterminePackageName(c), ".", SimpleName(c), typ, extra, if grouping then "Grouping" else "", "AggregatorFunction"]
  }

  /** The fully qualified class name of the physical aggregator of a variant. */
  function DetermineAggName(c: AggClass, typ: string, extra: string, grouping: bool): (r: string)
    ensures r == DeterminePackageName(c) + "." + SimpleName(c) + typ + extra
                 + (if grouping then "Grouping" else "") + "AggregatorFunction"
  {
    var parts := AggNameParts(c, typ, extra, grouping);
    ConcatSeven(parts);
    Concat(parts)
  }

  function KeyName(d: AggDef): string {
    DetermineAggName(d.aggClazz, d.typ, d.extra, d.grouping)
  }

  /** The grouping and non-grouping variants of one triple resolve to different classes. */
  lemma GroupingChangesName(c: AggClass, typ: string, extra: string)
    ensures |DetermineAggName(c, typ, extra, true)| == |DetermineAggName(c, typ, extra, false)| + 8
    ensures DetermineAggName(c, typ, extra, true) != DetermineAggName(c, typ, extra, false)
  {
  }

  /** Collecting keys into an unmodifiable map: each key's state comes from the oracle,
      a failed lookup or a repeated key aborts. */
  function Collect(defs: seq<AggDef>, oracle: Oracle, acc: Table): (r: Result<Table, Fault>)
    ensures r.Ok? ==> r.value.Keys == acc.Keys + (set d | d in defs)
    ensures r.Ok? ==> forall d :: d in defs ==> oracle(KeyName(d)).Some? && r.value[d] == oracle(KeyName(d)).value
    ensures r.Ok? ==> forall d :: d in acc ==> d !in defs && r.value[d] == acc[d]
    decreases |defs|
  {
    if defs == [] then Ok(acc)
    else
      var d := defs[0];
      var name := KeyName(d);
      assert forall x :: x in defs <==> x == d || x in defs[1..];
      match oracle(name)
      case None => Err(IntermediateStateLookupFailed(name))
      case Some(states) =>
        if d in acc then Err(DuplicateKey(d))
        else
          Collect(defs[1..], oracle, acc[d := states])
  }

  /** Collecting succeeds exactly when the keys are distinct, none is already collected
      and every key's class resolves. */
  lemma {:induction false} CollectSucceeds(defs: seq<AggDef>, oracle: Oracle, acc: Table)
    ensures Collect(defs, oracle, acc).Ok? <==>
      Distinct(defs) && forall d :: d in defs ==> d !in acc && oracle(KeyName(d)).Some?
    decreases |defs|
  {
    if defs != [] {
      var d := defs[0];
      assert forall x :: x in defs <==> x == d || x in defs[1..];
      if oracle(KeyName(d)).Some? && d !in acc {
        var next := acc[d := oracle(KeyName(d)).value];
        CollectSucceeds(defs[1..], oracle, next);
        if Collect(defs, oracle, acc).Ok? {
          DistinctCons(defs);
        }
        if Distinct(defs) {
          DistinctTail(defs);
        }
      }
    }
  }

  /** Builds the registry from every key; it comes up only when every class resolves. */
  function BuildRegistry(oracle: Oracle): (r: Result<Table, Fault>)
    ensures r.Ok? <==> forall d :: IsRegistered(d) ==> oracle(KeyName(d)).Some?
    ensures r.Ok? ==> forall d :: d in r.value <==> IsRegistered(d)
    ensures r.Ok? ==> forall d :: d in r.value ==> r.value[d] == oracle(KeyName(d)).value
  {
    var defs := AllDefs();
    CollectFromEmpty(defs, oracle);
    Collect(defs, oracle, map[])
  }

  /** Collecting distinct keys from an empty map succeeds exactly when every key's class
      resolves, and then holds exactly those keys with their states. */
  lemma CollectFromEmpty(defs: seq<AggDef>, oracle: Oracle)
    requires Distinct(defs)
    ensures Collect(defs, oracle, map[]).Ok? <==> forall d :: d in defs ==> oracle(KeyName(d)).Some?
    ensures Collect(defs, oracle, map[]).Ok? ==> forall d :: d in Collect(defs, oracle, map[]).value <==> d in defs
    ensures Collect(defs, oracle, map[]).Ok? ==>
      forall d :: d in Collect(defs, oracle, map[]).value ==> Collect(defs, oracle, map[]).value[d] == oracle(KeyName(d)).value
  {
    CollectSucceeds(defs, oracle, map[]);
    var r := Collect(defs, oracle, map[]);
    if r.Ok? {
      assert r.value.Keys == set d | d in defs;
    }
  }


  /** Registry lookup; a missing key is an error, never an absent value. */
  function GetNonNull(table: Table, d: AggDef): Result<seq<Desc>, Fault> {
    if d in table then Ok(table[d]) else Err(CannotFindIntermediateState(d))
  }

  /** A lookup in the built registry succeeds exactly on the registered keys and then
      returns the state the oracle gave for that key's class. */
  lemma RegistryLookup(oracle: Oracle, d: AggDef)
    requires BuildRegistry(oracle).Ok?
    ensures IsRegistered(d) ==> GetNonNull(BuildRegistry(oracle).value, d) == Ok(oracle(KeyName(d)).value)
    ensures !IsRegistered(d) ==> GetNonNull(BuildRegistry(oracle).value, d) == Err(CannotFindIntermediateState(d))
  {
  }
}
