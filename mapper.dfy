/** The per-planning-session part of AggregateMapper: type-tag rules, conversion of
    intermediate state to named references, and the cache from expression to references. */
module Mapping {
  import opened Types
  import opened Expressions
  import opened Registry

  /** Classes whose key never carries a value-type tag. */
  predicate IsUntyped(c: AggClass) {
    c == Count || c == ToPartial || c == FromPartial
  }

  /** The field types that have a physical aggregator variant. */
  predicate HasTag(t: DataType) {
    || t == BOOLEAN || t == INTEGER || t == COUNTER_INTEGER || t == LONG || t == DATETIME
    || t == COUNTER_LONG || t == DOUBLE || t == COUNTER_DOUBLE || t == KEYWORD || t == IP
    || t == VERSION || t == TEXT || t == GEO_POINT || t == CARTESIAN_POINT
  }

  /** The value-type tag of a field type, as the physical aggregators are named. */
  function DataTypeToString(t: DataType, c: AggClass): (r: Result<string, Fault>)
    ensures IsUntyped(c) ==> r == Ok("")
    ensures r.Ok? <==> IsUntyped(c) || HasTag(t)
    ensures r.Err? ==> r.error == IllegalAggType(t)
  {
    if c == Count then Ok("")
    else if c == ToPartial || c == FromPartial then Ok("")
    else if t == BOOLEAN then Ok("Boolean")
    else if t == INTEGER || t == COUNTER_INTEGER then Ok("Int")
    else if t == LONG || t == DATETIME || t == COUNTER_LONG then Ok("Long")
    else if t == DOUBLE || t == COUNTER_DOUBLE then Ok("Double")
    else if t == KEYWORD || t == IP || t == VERSION || t == TEXT then Ok("BytesRef")
    else if t == GEO_POINT then Ok("GeoPoint")
    else if t == CARTESIAN_POINT then Ok("CartesianPoint")
    else Err(IllegalAggType(t))
  }

  /** For a typed class, each tag is produced by exactly the field types listed for it,
      and no other tag is produced. */
  lemma DataTypeTags(t: DataType, c: AggClass)
    requires !IsUntyped(c)
    ensures DataTypeToString(t, c) == Ok("Boolean") <==> t == BOOLEAN
    ensures DataTypeToString(t, c) == Ok("Int") <==> t == INTEGER || t == COUNTER_INTEGER
    ensures DataTypeToString(t, c) == Ok("Long") <==> t == LONG || t == DATETIME || t == COUNTER_LONG
    ensures DataTypeToString(t, c) == Ok("Double") <==> t == DOUBLE || t == COUNTER_DOUBLE
    ensures DataTypeToString(t, c) == Ok("BytesRef") <==> t == KEYWORD || t == IP || t == VERSION || t == TEXT
    ensures DataTypeToString(t, c) == Ok("GeoPoint") <==> t == GEO_POINT
    ensures DataTypeToString(t, c) == Ok("CartesianPoint") <==> t == CARTESIAN_POINT
    ensures var r := DataTypeToString(t, c); r.Ok? ==>
      || r.value == "Boolean" || r.value == "Int" || r.value == "Long" || r.value == "Double"
      || r.value == "BytesRef" || r.value == "GeoPoint" || r.value == "CartesianPoint"
  {
  }

  /** The logical type of an intermediate-state element type. */
  function ToDataType(e: ElementType): (r: Result<DataType, Fault>)
    ensures r.Ok? <==> e in {EBOOLEAN, EBYTES_REF, EINT, ELONG, EDOUBLE}
    ensures r.Err? ==> r.error == UnsupportedAggType(e)
    ensures r.Ok? ==> r.value in {BOOLEAN, KEYWORD, INTEGER, LONG, DOUBLE}
  {
    match e
    case EBOOLEAN => Ok(BOOLEAN)
    case EBYTES_REF => Ok(KEYWORD)
    case EINT => Ok(INTEGER)
    case ELONG => Ok(LONG)
    case EDOUBLE => Ok(DOUBLE)
    case EFLOAT => Err(UnsupportedAggType(e))
    case ENULL => Err(UnsupportedAggType(e))
    case EDOC => Err(UnsupportedAggType(e))
    case ECOMPOSITE => Err(UnsupportedAggType(e))
    case EUNKNOWN => Err(UnsupportedAggType(e))
  }

  /** Distinct supported element types give distinct logical types. */
  lemma ToDataTypeInjective(e1: ElementType, e2: ElementType)
    requires ToDataType(e1).Ok? && ToDataType(e2).Ok?
    ensures ToDataType(e1) == ToDataType(e2) ==> e1 == e2
  {
  }

  /** The logical type derived from an element type carries the tag that names the
      same element type on an aggregator class. */
  lemma ToDataTypeMatchesTag(e: ElementType, c: AggClass)
    requires ToDataType(e).Ok? && !IsUntyped(c)
    ensures e == EBOOLEAN ==> DataTypeToString(ToDataType(e).value, c) == Ok("Boolean")
    ensures e == EBYTES_REF ==> DataTypeToString(ToDataType(e).value, c) == Ok("BytesRef")
    ensures e == EINT ==> DataTypeToString(ToDataType(e).value, c) == Ok("Int")
    ensures e == ELONG ==> DataTypeToString(ToDataType(e).value, c) == Ok("Long")
    ensures e == EDOUBLE ==> DataTypeToString(ToDataType(e).value, c) == Ok("Double")
  {
  }

  /** A descriptor whose logical type can be derived. */
  predicate Convertible(d: Desc) {
    d.dataType != "" || ToDataType(d.elementType).Ok?
  }

  /** Converts intermediate state to reference attributes with consecutive fresh ids
      starting at `firstId`; the first descriptor without a usable type aborts. */
  function IsToNE(descs: seq<Desc>, firstId: nat): (r: Result<seq<Expr>, Fault>)
    ensures r.Ok? <==> forall i :: 0 <= i < |descs| ==> Convertible(descs[i])
    ensures r.Err? ==> exists i :: 0 <= i < |descs| && !Convertible(descs[i]) && r.error == UnsupportedAggType(descs[i].elementType)
    ensures r.Ok? ==> |r.value| == |descs|
    ensures r.Ok? ==> forall i :: 0 <= i < |descs| ==>
      r.value[i].ReferenceAttr? && r.value[i].id == firstId + i && r.value[i].name == descs[i].name
    ensures r.Ok? ==> forall i :: 0 <= i < |descs| && descs[i].dataType != "" ==>
      r.value[i].typ == FromEs(descs[i].dataType)
    ensures r.Ok? ==> forall i :: 0 <= i < |descs| && descs[i].dataType == "" ==>
      Ok(r.value[i].typ) == ToDataType(descs[i].elementType)
    decreases |descs|
  {
    if descs == [] then Ok([])
    else
      var d := descs[0];
      var typ := if d.dataType == "" then ToDataType(d.elementType) else Ok(FromEs(d.dataType));
      if typ.Err? then
        assert !Convertible(descs[0]);
        Err(typ.error)
      else
        match IsToNE(descs[1..], firstId + 1)
        case Err(f) =>
          assert exists i :: 0 <= i < |descs| && !Convertible(descs[i]) && f == UnsupportedAggType(descs[i].elementType) by {
            var j :| 0 <= j < |descs[1..]| && !Convertible(descs[1..][j]) && f == UnsupportedAggType(descs[1..][j].elementType);
            assert descs[j + 1] == descs[1..][j];
          }
          Err(f)
        case Ok(rest) =>
          var r := [ReferenceAttr(firstId, d.name, typ.value)] + rest;
          assert forall i :: 1 <= i < |descs| ==> descs[i] == descs[1..][i - 1] && r[i] == rest[i - 1];
          Ok(r)
  }

  /** The variant key of an aggregate expression, None for any other expression. */
  function AggDefOrNull(e: Expr, grouping: bool): (r: Result<Option<AggDef>, Fault>)
    ensures !e.Aggregate? ==> r == Ok(None)
    ensures e.Aggregate? ==> (r.Ok? <==> DataTypeToString(TypeOf(e.field), e.clazz).Ok?)
    ensures e.Aggregate? && r.Ok? ==> r.value.Some? && r.value.value.aggClazz == e.clazz && r.value.value.grouping == grouping
    ensures e.Aggregate? && r.Ok? ==> Ok(r.value.value.typ) == DataTypeToString(TypeOf(e.field), e.clazz)
    ensures e.Aggregate? && r.Ok? ==> (r.value.value.extra == "SourceValues" <==> e.clazz == SpatialCentroid)
    ensures e.Aggregate? && r.Ok? ==> (r.value.value.extra == "" <==> e.clazz != SpatialCentroid)
  {
    if e.Aggregate? then
      match DataTypeToString(TypeOf(e.field), e.clazz)
      case Err(f) => Err(f)
      case Ok(tag) => Ok(Some(AggDef(e.clazz, tag, if e.clazz == SpatialCentroid then "SourceValues" else "", grouping)))
    else Ok(None)
  }

  predicate IsPassThroughAttribute(e: Expr) {
    e.FieldAttr? || e.MetadataAttr? || e.ReferenceAttr?
  }

  /** The intermediate references of one (alias-free) expression: an aggregate's registry
      state, nothing for a plain attribute, an error for anything else. */
  function ComputeEntryForAgg(table: Table, e: Expr, grouping: bool, firstId: nat): (r: Result<seq<Expr>, Fault>)
    ensures IsPassThroughAttribute(e) ==> r == Ok([])
    ensures !e.Aggregate? && !IsPassThroughAttribute(e) ==> r == Err(UnknownAgg(e))
    ensures e.Aggregate? && r.Ok? ==>
      && AggDefOrNull(e, grouping).Ok?
      && AggDefOrNull(e, grouping).value.value in table
      && Ok(r.value) == IsToNE(table[AggDefOrNull(e, grouping).value.value], firstId)
    ensures e.Aggregate? && AggDefOrNull(e, grouping).Err? ==> r == Err(AggDefOrNull(e, grouping).error)
    ensures e.Aggregate? && AggDefOrNull(e, grouping).Ok? && AggDefOrNull(e, grouping).value.value !in table ==>
      r == Err(CannotFindIntermediateState(AggDefOrNull(e, grouping).value.value))
    ensures r.Ok? ==> forall i :: 0 <= i < |r.value| ==> r.value[i].ReferenceAttr? && firstId <= r.value[i].id < firstId + |r.value|
  {
    match AggDefOrNull(e, grouping)
    case Err(f) => Err(f)
    case Ok(Some(aggDef)) =>
      (match GetNonNull(table, aggDef)
       case Err(f) => Err(f)
       case Ok(states) => IsToNE(states, firstId))
    case Ok(None) =>
      if IsPassThroughAttribute(e) then Ok([]) else Err(UnknownAgg(e))
  }

  /** The key an attribute map files an attribute under: its id. */
  function AttrId(e: Expr): nat {
    match e
    case FieldAttr(id, _, _) => id
    case MetadataAttr(id, _, _) => id
    case ReferenceAttr(id, _, _) => id
    case Alias(id, _, _) => id
    case _ => 0
  }

  /** The position of the entry filed under `id`, or -1. */
  function IndexOfId(acc: seq<Expr>, id: nat): (k: int)
    ensures -1 <= k < |acc|
    ensures k == -1 <==> forall i :: 0 <= i < |acc| ==> AttrId(acc[i]) != id
    ensures k >= 0 ==> AttrId(acc[k]) == id
  {
    if acc == [] then -1
    else if AttrId(acc[|acc| - 1]) == id then |acc| - 1
    else IndexOfId(acc[..|acc| - 1], id)
  }

  /** Insertion into an insertion-ordered attribute map: an attribute already present keeps
      its position and takes the new value, a new one goes last. */
  function Put(acc: seq<Expr>, x: Expr): seq<Expr> {
    var k := IndexOfId(acc, AttrId(x));
    if k < 0 then acc + [x] else acc[k := x]
  }

  /** The values of the attribute map after putting every element of `s`, in order. */
  function PutAll(acc: seq<Expr>, s: seq<Expr>): seq<Expr> {
    if s == [] then acc else Put(PutAll(acc, s[..|s| - 1]), s[|s| - 1])
  }

  predicate UniqueIds(s: seq<Expr>) {
    forall i, j :: 0 <= i < j < |s| ==> AttrId(s[i]) != AttrId(s[j])
  }

  function Ids(s: seq<Expr>): set<nat> {
    set i | 0 <= i < |s| :: AttrId(s[i])
  }

  lemma PutKeepsIds(acc: seq<Expr>, x: Expr)
    requires UniqueIds(acc)
    ensures UniqueIds(Put(acc, x))
    ensures Ids(Put(acc, x)) == Ids(acc) + {AttrId(x)}
    ensures x in Put(acc, x)
  {
    var k := IndexOfId(acc, AttrId(x));
    var r := Put(acc, x);
    if k < 0 {
      assert r[|acc|] == x;
      forall y | y in Ids(acc) + {AttrId(x)} ensures y in Ids(r) {
        if y in Ids(acc) {
          var i :| 0 <= i < |acc| && AttrId(acc[i]) == y;
          assert r[i] == acc[i];
        }
      }
    } else {
      assert r[k] == x;
      forall y | y in Ids(acc) ensures y in Ids(r) {
        var i :| 0 <= i < |acc| && AttrId(acc[i]) == y;
        if i != k { assert r[i] == acc[i]; }
      }
    }
  }

  /** The ids of a sequence are those of its prefix plus its last element's. */
  lemma IdsSnoc(s: seq<Expr>)
    requires s != []
    ensures Ids(s) == Ids(s[..|s| - 1]) + {AttrId(s[|s| - 1])}
  {
    var init := s[..|s| - 1];
    forall y | y in Ids(s) ensures y in Ids(init) + {AttrId(s[|s| - 1])} {
      var i :| 0 <= i < |s| && AttrId(s[i]) == y;
      if i < |s| - 1 { assert s[i] == init[i]; }
    }
    forall y | y in Ids(init) ensures y in Ids(s) {
      var i :| 0 <= i < |init| && AttrId(init[i]) == y;
      assert s[i] == init[i];
    }
  }

  /** Every value in a Put result is the value put or an earlier entry under another id. */
  lemma PutMembers(acc: seq<Expr>, x: Expr, y: Expr)
    requires UniqueIds(acc)
    requires y in Put(acc, x)
    ensures y == x || (y in acc && AttrId(y) != AttrId(x))
  {
    var k := IndexOfId(acc, AttrId(x));
    var r := Put(acc, x);
    var i :| 0 <= i < |r| && r[i] == y;
    if k < 0 {
      if i < |acc| { assert acc[i] == y; }
    } else if i != k {
      assert acc[i] == y;
      assert AttrId(acc[k]) == AttrId(x);
    }
  }

  /** `x` occurs in `s` and nothing after that occurrence is filed under the same id. */
  ghost predicate LastUnderId(s: seq<Expr>, x: Expr) {
    exists i :: 0 <= i < |s| && s[i] == x && forall j :: i < j < |s| ==> AttrId(s[j]) != AttrId(x)
  }

  lemma LastUnderIdSnoc(init: seq<Expr>, last: Expr, x: Expr)
    requires LastUnderId(init, x)
    requires AttrId(x) != AttrId(last)
    ensures LastUnderId(init + [last], x)
  {
    var s := init + [last];
    var i :| 0 <= i < |init| && init[i] == x && forall j :: i < j < |init| ==> AttrId(init[j]) != AttrId(x);
    assert s[i] == x;
    forall j | i < j < |s| ensures AttrId(s[j]) != AttrId(x) {
      if j < |init| { assert s[j] == init[j]; }
    }
  }

  /** The attribute map holds one entry per distinct attribute of the input, each the
      last value put under that attribute. */
  lemma {:induction false} DoMappingDeduplicates(s: seq<Expr>)
    ensures UniqueIds(PutAll([], s))
    ensures Ids(PutAll([], s)) == Ids(s)
    ensures |PutAll([], s)| <= |s|
    ensures forall x :: x in s ==> AttrId(x) in Ids(PutAll([], s))
    ensures forall x :: x in PutAll([], s) ==> LastUnderId(s, x)
  {
    if s != [] {
      var init := s[..|s| - 1];
      var last := s[|s| - 1];
      DoMappingDeduplicates(init);
      var acc := PutAll([], init);
      PutKeepsIds(acc, last);
      IdsSnoc(s);
      forall x | x in s ensures AttrId(x) in Ids(s) {
        var i :| 0 <= i < |s| && s[i] == x;
      }
      assert s == init + [last];
      forall x | x in Put(acc, last) ensures LastUnderId(s, x) {
        PutMembers(acc, last, x);
        if x == last {
          assert s[|s| - 1] == x;
        } else {
          LastUnderIdSnoc(init, last, x);
        }
      }
    }
  }

  /** The cache key of an expression: one alias layer removed and, on an aggregate node,
      the source text blanked, since two nodes of the same class with equal children are
      equal wherever in the query they were written. */
  function CacheKey(e: Expr): Expr {
    var u := Unwrap(e);
    if u.Aggregate? then u.(source := "") else u
  }

  /** Two aggregates share a key exactly when they agree on class, field and parameters,
      whatever their source text and whether they sit under an alias. */
  lemma SameAggregateSameKey(a: Expr, b: Expr)
    requires Unwrap(a).Aggregate? && Unwrap(b).Aggregate?
    ensures CacheKey(a) == CacheKey(b) <==>
      && Unwrap(a).clazz == Unwrap(b).clazz
      && Unwrap(a).field == Unwrap(b).field
      && Unwrap(a).parameters == Unwrap(b).parameters
  {
    if CacheKey(a) == CacheKey(b) {
      assert CacheKey(a).clazz == Unwrap(a).clazz && CacheKey(b).clazz == Unwrap(b).clazz;
    }
  }

  /** The entry computed for a key is the one computed for the expression it came from. */
  lemma KeyKeepsEntry(table: Table, e: Expr, grouping: bool, firstId: nat)
    ensures ComputeEntryForAgg(table, CacheKey(e), grouping, firstId) == ComputeEntryForAgg(table, Unwrap(e), grouping, firstId)
  {
  }

  /** The cache keys of a batch. */
  function KeysOf(aggregates: seq<Expr>): set<Expr> {
    set a | a in aggregates :: CacheKey(a)
  }

  lemma KeysOfPrefix(aggregates: seq<Expr>, i: nat)
    requires i < |aggregates|
    ensures KeysOf(aggregates[..i + 1]) == KeysOf(aggregates[..i]) + {CacheKey(aggregates[i])}
    ensures KeysOf(aggregates[..i + 1]) <= KeysOf(aggregates)
  {
    assert aggregates[..i + 1] == aggregates[..i] + [aggregates[i]];
    forall a | a in aggregates[..i + 1] ensures a in aggregates {
      var j :| 0 <= j < i + 1 && aggregates[..i + 1][j] == a;
      assert aggregates[j] == a;
    }
  }

  /** `entry` is what the mapper computes for `k` under `grouping` with ids from `lo` on free. */
  ghost predicate ComputedFrom(table: Table, k: Expr, entry: seq<Expr>, grouping: bool, lo: nat) {
    exists id: nat :: lo <= id && Ok(entry) == ComputeEntryForAgg(table, k, grouping, id)
  }

  lemma ComputedFromEarlier(table: Table, k: Expr, entry: seq<Expr>, grouping: bool, lo: nat, mid: nat)
    requires lo <= mid && ComputedFrom(table, k, entry, grouping, mid)
    ensures ComputedFrom(table, k, entry, grouping, lo)
  {
    var id: nat :| mid <= id && Ok(entry) == ComputeEntryForAgg(table, k, grouping, id);
  }

  /** The cache `now` holds the keys of `base` and of the batch `aggregates`, and every key
      `base` lacked has an entry computed under `grouping` from ids `lo` on. */
  ghost predicate GrewBy(table: Table, base: map<Expr, seq<Expr>>, now: map<Expr, seq<Expr>>,
                         aggregates: seq<Expr>, grouping: bool, lo: nat) {
    && now.Keys == base.Keys + KeysOf(aggregates)
    && forall k :: k in now && k !in base ==> ComputedFrom(table, k, now[k], grouping, lo)
  }

  /** One batch step, a hit or a stored miss, extends the growth by one expression. */
  lemma BatchStep(table: Table, base: map<Expr, seq<Expr>>, before: map<Expr, seq<Expr>>, after: map<Expr, seq<Expr>>,
                  aggregates: seq<Expr>, i: nat, grouping: bool, lo: nat, mid: nat)
    requires i < |aggregates| && lo <= mid
    requires CacheKey(aggregates[i]) in after
    requires GrewBy(table, base, before, aggregates[..i], grouping, lo)
    requires CacheKey(aggregates[i]) in before ==> after == before
    requires CacheKey(aggregates[i]) !in before ==>
      after == before[CacheKey(aggregates[i]) := after[CacheKey(aggregates[i])]]
      && ComputedFrom(table, CacheKey(aggregates[i]), after[CacheKey(aggregates[i])], grouping, mid)
    ensures GrewBy(table, base, after, aggregates[..i + 1], grouping, lo)
  {
    var key := CacheKey(aggregates[i]);
    KeysOfPrefix(aggregates, i);
    if key !in before {
      ComputedFromEarlier(table, key, after[key], grouping, lo, mid);
    }
  }

  /** A batch cut short at `i` grew the cache by no more than the whole batch would. */
  lemma GrewByPrefix(table: Table, base: map<Expr, seq<Expr>>, now: map<Expr, seq<Expr>>,
                     aggregates: seq<Expr>, i: nat, grouping: bool, lo: nat)
    requires i <= |aggregates|
    requires GrewBy(table, base, now, aggregates[..i], grouping, lo)
    ensures now.Keys <= base.Keys + KeysOf(aggregates)
    ensures forall k :: k in now && k !in base ==> ComputedFrom(table, k, now[k], grouping, lo)
  {
    if i < |aggregates| {
      KeysOfPrefix(aggregates, i);
    } else {
      assert aggregates[..i] == aggregates;
    }
  }

  /** `entry` is what the mapper computes for `k` under one grouping flag or the other. */
  ghost predicate IsComputedEntry(table: Table, k: Expr, entry: seq<Expr>) {
    exists grouping: bool :: ComputedFrom(table, k, entry, grouping, 0)
  }

  /** The cached references of each aggregate in a batch, concatenated in batch order. */
  function Entries(cache: map<Expr, seq<Expr>>, aggregates: seq<Expr>): seq<Expr>
    requires forall a :: a in aggregates ==> CacheKey(a) in cache
  {
    if aggregates == [] then []
    else
      var last := aggregates[|aggregates| - 1];
      Entries(cache, aggregates[..|aggregates| - 1]) + cache[CacheKey(last)]
  }

  lemma {:induction false} EntriesStable(c1: map<Expr, seq<Expr>>, c2: map<Expr, seq<Expr>>, aggregates: seq<Expr>)
    requires forall a :: a in aggregates ==> CacheKey(a) in c1
    requires forall k :: k in c1 ==> k in c2 && c2[k] == c1[k]
    ensures Entries(c1, aggregates) == Entries(c2, aggregates)
  {
    if aggregates != [] {
      EntriesStable(c1, c2, aggregates[..|aggregates| - 1]);
    }
  }

  /** One more aggregate, now cached, extends the entries of a batch prefix by its own. */
  lemma EntriesExtend(before: map<Expr, seq<Expr>>, after: map<Expr, seq<Expr>>, aggregates: seq<Expr>, i: nat)
    requires i < |aggregates|
    requires forall a :: a in aggregates[..i] ==> CacheKey(a) in before
    requires forall k :: k in before ==> k in after && after[k] == before[k]
    requires CacheKey(aggregates[i]) in after
    ensures forall a :: a in aggregates[..i + 1] ==> CacheKey(a) in after
    ensures Entries(after, aggregates[..i + 1]) == Entries(before, aggregates[..i]) + after[CacheKey(aggregates[i])]
  {
    EntriesStable(before, after, aggregates[..i]);
    assert aggregates[..i + 1][..i] == aggregates[..i];
  }

  /** Putting one more element of the entry extends the attribute map by one Put. */
  lemma PutAllSnoc(emitted: seq<Expr>, entry: seq<Expr>, j: nat)
    requires j < |entry|
    ensures PutAll([], emitted + entry[..j + 1]) == Put(PutAll([], emitted + entry[..j]), entry[j])
  {
    assert entry[..j + 1] == entry[..j] + [entry[j]];
    assert emitted + entry[..j + 1] == (emitted + entry[..j]) + [entry[j]];
    PutAllAppend(emitted + entry[..j], entry[j]);
  }

  lemma PutAllAppend(s: seq<Expr>, x: Expr)
    ensures PutAll([], s + [x]) == Put(PutAll([], s), x)
  {
    assert (s + [x])[..|s|] == s;
  }

  /** Files one expression's references into the attribute map, one at a time. */
  method PutEntries(acc: seq<Expr>, ghost emitted: seq<Expr>, entry: seq<Expr>) returns (r: seq<Expr>)
    requires acc == PutAll([], emitted)
    ensures r == PutAll([], emitted + entry)
  {
    r := acc;
    var j := 0;
    assert emitted + entry[..0] == emitted;
    while j < |entry|
      invariant 0 <= j <= |entry|
      invariant r == PutAll([], emitted + entry[..j])
    {
      PutAllSnoc(emitted, entry, j);
      r := Put(r, entry[j]);
      j := j + 1;
    }
    assert entry[..j] == entry;
  }

  /** The mapper's state after a batch, and the failure that stopped it, if any. */
  datatype BatchState = BatchState(cache: map<Expr, seq<Expr>>, nextId: nat, failure: Option<Fault>)

  /** Mapping a batch one expression at a time, front to back: a cached key changes
      nothing, a new key stores the entry computed from the next free id, and the first
      failure stops the batch with the state reached so far. */
  function MapAll(table: Table, cache: map<Expr, seq<Expr>>, nextId: nat, aggregates: seq<Expr>, grouping: bool): BatchState
    decreases |aggregates|
  {
    if aggregates == [] then BatchState(cache, nextId, None)
    else
      var key := CacheKey(aggregates[0]);
      if key in cache then MapAll(table, cache, nextId, aggregates[1..], grouping)
      else
        match ComputeEntryForAgg(table, Unwrap(aggregates[0]), grouping, nextId)
        case Err(f) => BatchState(cache, nextId, Some(f))
        case Ok(entry) => MapAll(table, cache[key := entry], nextId + |entry|, aggregates[1..], grouping)
  }

  /** A cached first expression leaves the batch state as the rest of the batch makes it. */
  lemma MapAllHit(table: Table, cache: map<Expr, seq<Expr>>, nextId: nat, rest: seq<Expr>, grouping: bool)
    requires rest != [] && CacheKey(rest[0]) in cache
    ensures MapAll(table, cache, nextId, rest, grouping) == MapAll(table, cache, nextId, rest[1..], grouping)
  {
  }

  /** A new first expression whose entry is computed is stored, and the rest goes on from there. */
  lemma MapAllMiss(table: Table, cache: map<Expr, seq<Expr>>, nextId: nat, rest: seq<Expr>, grouping: bool, r: Result<seq<Expr>, Fault>)
    requires rest != [] && CacheKey(rest[0]) !in cache
    requires r == ComputeEntryForAgg(table, Unwrap(rest[0]), grouping, nextId) && r.Ok?
    ensures MapAll(table, cache, nextId, rest, grouping)
      == MapAll(table, cache[CacheKey(rest[0]) := r.value], nextId + |r.value|, rest[1..], grouping)
  {
  }

  /** A new first expression whose computation fails stops the batch where it is. */
  lemma MapAllFail(table: Table, cache: map<Expr, seq<Expr>>, nextId: nat, rest: seq<Expr>, grouping: bool, r: Result<seq<Expr>, Fault>)
    requires rest != [] && CacheKey(rest[0]) !in cache
    requires r == ComputeEntryForAgg(table, Unwrap(rest[0]), grouping, nextId) && r.Err?
    ensures MapAll(table, cache, nextId, rest, grouping) == BatchState(cache, nextId, Some(r.error))
  {
  }

  /** A successful Map of the next expression, a hit or a stored miss, advances MapAll by
      that expression. */
  lemma MapAllAdvance(table: Table, before: map<Expr, seq<Expr>>, mid: nat, after: map<Expr, seq<Expr>>, afterId: nat,
                      aggregates: seq<Expr>, i: nat, grouping: bool, entry: seq<Expr>)
    requires i < |aggregates|
    requires CacheKey(aggregates[i]) in before ==> after == before && afterId == mid
    requires CacheKey(aggregates[i]) !in before ==>
      && Ok(entry) == ComputeEntryForAgg(table, Unwrap(aggregates[i]), grouping, mid)
      && after == before[CacheKey(aggregates[i]) := entry] && afterId == mid + |entry|
    ensures MapAll(table, before, mid, aggregates[i..], grouping) == MapAll(table, after, afterId, aggregates[i + 1..], grouping)
  {
    var key := CacheKey(aggregates[i]);
    assert aggregates[i..][0] == aggregates[i] && aggregates[i..][1..] == aggregates[i + 1..];
    if key in before {
      MapAllHit(table, before, mid, aggregates[i..], grouping);
      assert MapAll(table, before, mid, aggregates[i..], grouping) == MapAll(table, after, afterId, aggregates[i + 1..], grouping);
    } else {
      MapAllMiss(table, before, mid, aggregates[i..], grouping, Ok(entry));
      assert MapAll(table, before, mid, aggregates[i..], grouping) == MapAll(table, after, afterId, aggregates[i + 1..], grouping);
    }
  }

  /** A successful Map of the next expression of a batch keeps earlier entries and grows the
      cache by exactly that expression's key, with an entry the registry yields if it is new. */
  lemma BatchStepOk(table: Table, base: map<Expr, seq<Expr>>, baseId: nat, before: map<Expr, seq<Expr>>, mid: nat,
                    after: map<Expr, seq<Expr>>, afterId: nat, aggregates: seq<Expr>, i: nat,
                    grouping: bool, entry: seq<Expr>)
    requires i < |aggregates|
    requires baseId <= mid
    requires forall k :: k in base ==> k in before && before[k] == base[k]
    requires GrewBy(table, base, before, aggregates[..i], grouping, baseId)
    requires CacheKey(aggregates[i]) in before ==> after == before && afterId == mid
    requires CacheKey(aggregates[i]) !in before ==>
      && after == before[CacheKey(aggregates[i]) := entry] && afterId == mid + |entry|
      && ComputedFrom(table, CacheKey(aggregates[i]), entry, grouping, mid)
    ensures baseId <= afterId
    ensures forall k :: k in base ==> k in after && after[k] == base[k]
    ensures GrewBy(table, base, after, aggregates[..i + 1], grouping, baseId)
  {
    BatchStep(table, base, before, after, aggregates, i, grouping, baseId, mid);
  }

  /** A failing Map of the next expression ends the batch as MapAll says, having added only
      keys of the batch, each with an entry the registry yields. */
  lemma BatchStepFail(table: Table, base: map<Expr, seq<Expr>>, baseId: nat, before: map<Expr, seq<Expr>>, mid: nat,
                      after: map<Expr, seq<Expr>>, afterId: nat, aggregates: seq<Expr>, i: nat,
                      grouping: bool, f: Fault)
    requires i < |aggregates| && baseId <= mid
    requires forall k :: k in base ==> k in before && before[k] == base[k]
    requires GrewBy(table, base, before, aggregates[..i], grouping, baseId)
    requires MapAll(table, base, baseId, aggregates, grouping) == MapAll(table, before, mid, aggregates[i..], grouping)
    requires CacheKey(aggregates[i]) !in before && Err(f) == ComputeEntryForAgg(table, Unwrap(aggregates[i]), grouping, mid)
    requires after == before && afterId == mid
    ensures baseId <= afterId
    ensures forall k :: k in base ==> k in after && after[k] == base[k]
    ensures after.Keys <= base.Keys + KeysOf(aggregates)
    ensures forall k :: k in after && k !in base ==> ComputedFrom(table, k, after[k], grouping, baseId)
    ensures MapAll(table, base, baseId, aggregates, grouping) == BatchState(after, afterId, Some(f))
  {
    assert aggregates[i..][0] == aggregates[i];
    MapAllFail(table, before, mid, aggregates[i..], grouping, Err(f));
    GrewByPrefix(table, base, after, aggregates, i, grouping, baseId);
  }

  /** The batch loop's invariant after every expression gives DoMapping's outcome. */
  lemma BatchDone(table: Table, base: map<Expr, seq<Expr>>, baseId: nat, cache: map<Expr, seq<Expr>>, nextId: nat,
                  aggregates: seq<Expr>, emitted: seq<Expr>, grouping: bool)
    requires GrewBy(table, base, cache, aggregates[..|aggregates|], grouping, baseId)
    requires forall a :: a in aggregates[..|aggregates|] ==> CacheKey(a) in cache
    requires emitted == Entries(cache, aggregates[..|aggregates|])
    requires MapAll(table, base, baseId, aggregates, grouping) == MapAll(table, cache, nextId, aggregates[|aggregates|..], grouping)
    ensures cache.Keys == base.Keys + KeysOf(aggregates)
    ensures forall k :: k in cache && k !in base ==> ComputedFrom(table, k, cache[k], grouping, baseId)
    ensures MapAll(table, base, baseId, aggregates, grouping) == BatchState(cache, nextId, None)
    ensures forall a :: a in aggregates ==> CacheKey(a) in cache
    ensures emitted == Entries(cache, aggregates)
  {
    assert aggregates[..|aggregates|] == aggregates;
    assert aggregates[|aggregates|..] == [];
  }

  /** The per-session mapper and its cache. */
  class AggregateMapper {
    const registry: Table
    /** Cache key (see CacheKey) to its intermediate references. */
    var cache: map<Expr, seq<Expr>>
    /** The next fresh attribute id. */
    var nextId: nat

    /** Every cached reference is a reference attribute with an id already handed out, and
        every cached entry is one the registry yields for its key. */
    ghost predicate Valid()
      reads this
    {
      && (forall k, i :: k in cache && 0 <= i < |cache[k]| ==> cache[k][i].ReferenceAttr? && cache[k][i].id < nextId)
      && (forall k :: k in cache ==> IsComputedEntry(registry, k, cache[k]))
    }

    constructor (registry: Table)
      ensures Valid()
      ensures this.registry == registry && cache == map[] && nextId == 0
    {
      this.registry := registry;
      cache := map[];
      nextId := 0;
    }

    /** Cached mapping of one expression: a hit returns the stored entry whatever the
        grouping flag; a miss computes, stores and returns the entry; a failure stores nothing. */
    method Map(aggregate: Expr, grouping: bool) returns (r: Result<seq<Expr>, Fault>)
      requires Valid()
      modifies this
      ensures Valid()
      ensures CacheKey(aggregate) in old(cache) ==>
        r == Ok(old(cache)[CacheKey(aggregate)]) && cache == old(cache) && nextId == old(nextId)
      ensures CacheKey(aggregate) !in old(cache) ==>
        r == ComputeEntryForAgg(registry, Unwrap(aggregate), grouping, old(nextId))
      ensures CacheKey(aggregate) !in old(cache) && r.Ok? ==>
        && cache == old(cache)[CacheKey(aggregate) := r.value]
        && nextId == old(nextId) + |r.value|
        && ComputedFrom(registry, CacheKey(aggregate), r.value, grouping, old(nextId))
      ensures r.Err? ==> cache == old(cache) && nextId == old(nextId)
      ensures r.Ok? ==> CacheKey(aggregate) in cache && cache[CacheKey(aggregate)] == r.value
      ensures forall k :: k in old(cache) ==> k in cache && cache[k] == old(cache)[k]
    {
      var key := CacheKey(aggregate);
      if key in cache {
        r := Ok(cache[key]);
      } else {
        r := ComputeEntryForAgg(registry, Unwrap(aggregate), grouping, nextId);
        if r.Ok? {
          KeyKeepsEntry(registry, aggregate, grouping, nextId);
          assert ComputedFrom(registry, key, r.value, grouping, nextId);
          assert ComputedFrom(registry, key, r.value, grouping, 0);
          cache := cache[key := r.value];
          nextId := nextId + |r.value|;
        }
      }
    }

    /** Maps a batch: the references of every expression, filed into an attribute map. The
        cache gains exactly the batch's missing keys, each with an entry computed under this
        batch's grouping flag from ids not handed out before. */
    method DoMapping(aggregates: seq<Expr>, grouping: bool) returns (r: Result<seq<Expr>, Fault>)
      requires Valid()
      modifies this
      ensures Valid()
      ensures old(nextId) <= nextId
      ensures forall k :: k in old(cache) ==> k in cache && cache[k] == old(cache)[k]
      ensures cache.Keys <= old(cache).Keys + KeysOf(aggregates)
      ensures forall k :: k in cache && k !in old(cache) ==> ComputedFrom(registry, k, cache[k], grouping, old(nextId))
      ensures MapAll(registry, old(cache), old(nextId), aggregates, grouping) == BatchState(cache, nextId, if r.Err? then Some(r.error) else None)
      ensures r.Ok? ==> cache.Keys == old(cache).Keys + KeysOf(aggregates)
      ensures r.Ok? ==> forall a :: a in aggregates ==> CacheKey(a) in cache
      ensures r.Ok? ==> r.value == PutAll([], Entries(cache, aggregates))
    {
      ghost var base, baseId := cache, nextId;
      var acc: seq<Expr> := [];
      ghost var emitted: seq<Expr> := [];
      var i := 0;
      assert aggregates[0..] == aggregates;
      while i < |aggregates|
        invariant 0 <= i <= |aggregates|
        invariant Valid()
        invariant baseId <= nextId
        invariant forall k :: k in base ==> k in cache && cache[k] == base[k]
        invariant GrewBy(registry, base, cache, aggregates[..i], grouping, baseId)
        invariant forall a :: a in aggregates[..i] ==> CacheKey(a) in cache
        invariant emitted == Entries(cache, aggregates[..i])
        invariant acc == PutAll([], emitted)
        invariant MapAll(registry, base, baseId, aggregates, grouping) == MapAll(registry, cache, nextId, aggregates[i..], grouping)
      {
        var entry;
        entry, acc := MapNext(aggregates, i, grouping, base, baseId, emitted, acc);
        if entry.Err? {
          return Err(entry.error);
        }
        emitted := emitted + entry.value;
        i := i + 1;
      }
      BatchDone(registry, base, baseId, cache, nextId, aggregates, emitted, grouping);
      r := Ok(acc);
    }

    /** One step of a batch: maps the next expression and files its references into the
        attribute map; the batch loop's invariant moves one expression on, or the failure
        ends the batch as MapAll says. */
    method MapNext(aggregates: seq<Expr>, i: nat, grouping: bool, ghost base: map<Expr, seq<Expr>>, ghost baseId: nat,
                   ghost emitted: seq<Expr>, acc: seq<Expr>) returns (entry: Result<seq<Expr>, Fault>, acc': seq<Expr>)
      requires i < |aggregates|
      requires Valid()
      requires baseId <= nextId
      requires forall k :: k in base ==> k in cache && cache[k] == base[k]
      requires GrewBy(registry, base, cache, aggregates[..i], grouping, baseId)
      requires forall a :: a in aggregates[..i] ==> CacheKey(a) in cache
      requires emitted == Entries(cache, aggregates[..i])
      requires acc == PutAll([], emitted)
      requires MapAll(registry, base, baseId, aggregates, grouping) == MapAll(registry, cache, nextId, aggregates[i..], grouping)
      modifies this
      ensures Valid()
      ensures baseId <= nextId
      ensures forall k :: k in base ==> k in cache && cache[k] == base[k]
      ensures entry.Ok? ==> GrewBy(registry, base, cache, aggregates[..i + 1], grouping, baseId)
      ensures entry.Ok? ==> forall a :: a in aggregates[..i + 1] ==> CacheKey(a) in cache
      ensures entry.Ok? ==> emitted + entry.value == Entries(cache, aggregates[..i + 1])
      ensures entry.Ok? ==> acc' == PutAll([], emitted + entry.value)
      ensures entry.Ok? ==> MapAll(registry, base, baseId, aggregates, grouping) == MapAll(registry, cache, nextId, aggregates[i + 1..], grouping)
      ensures entry.Err? ==> cache.Keys <= base.Keys + KeysOf(aggregates)
      ensures entry.Err? ==> forall k :: k in cache && k !in base ==> ComputedFrom(registry, k, cache[k], grouping, baseId)
      ensures entry.Err? ==> MapAll(registry, base, baseId, aggregates, grouping) == BatchState(cache, nextId, Some(entry.error))
    {
      ghost var before, mid := cache, nextId;
      entry := Map(aggregates[i], grouping);
      if entry.Err? {
        BatchStepFail(registry, base, baseId, before, mid, cache, nextId, aggregates, i, grouping, entry.error);
        acc' := acc;
        return;
      }
      MapAllAdvance(registry, before, mid, cache, nextId, aggregates, i, grouping, entry.value);
      BatchStepOk(registry, base, baseId, before, mid, cache, nextId, aggregates, i, grouping, entry.value);
      EntriesExtend(before, cache, aggregates, i);
      acc' := PutEntries(acc, emitted, entry.value);
    }

    method MapNonGrouping(aggregates: seq<Expr>) returns (r: Result<seq<Expr>, Fault>)
      requires Valid()
      modifies this
      ensures Valid()
      ensures old(nextId) <= nextId
      ensures forall k :: k in old(cache) ==> k in cache && cache[k] == old(cache)[k]
      ensures cache.Keys <= old(cache).Keys + KeysOf(aggregates)
      ensures forall k :: k in cache && k !in old(cache) ==> ComputedFrom(registry, k, cache[k], false, old(nextId))
      ensures MapAll(registry, old(cache), old(nextId), aggregates, false) == BatchState(cache, nextId, if r.Err? then Some(r.error) else None)
      ensures r.Ok? ==> cache.Keys == old(cache).Keys + KeysOf(aggregates)
      ensures r.Ok? ==> forall a :: a in aggregates ==> CacheKey(a) in cache
      ensures r.Ok? ==> r.value == PutAll([], Entries(cache, aggregates))
    {
      r := DoMapping(aggregates, false);
    }

    method MapGrouping(aggregates: seq<Expr>) returns (r: Result<seq<Expr>, Fault>)
      requires Valid()
      modifies this
      ensures Valid()
      ensures old(nextId) <= nextId
      ensures forall k :: k in old(cache) ==> k in cache && cache[k] == old(cache)[k]
      ensures cache.Keys <= old(cache).Keys + KeysOf(aggregates)
      ensures forall k :: k in cache && k !in old(cache) ==> ComputedFrom(registry, k, cache[k], true, old(nextId))
      ensures MapAll(registry, old(cache), old(nextId), aggregates, true) == BatchState(cache, nextId, if r.Err? then Some(r.error) else None)
      ensures r.Ok? ==> cache.Keys == old(cache).Keys + KeysOf(aggregates)
      ensures r.Ok? ==> forall a :: a in aggregates ==> CacheKey(a) in cache
      ensures r.Ok? ==> r.value == PutAll([], Entries(cache, aggregates))
    {
      r := DoMapping(aggregates, true);
    }

    method MapNonGroupingOne(aggregate: Expr) returns (r: Result<seq<Expr>, Fault>)
      requires Valid()
      modifies this
      ensures Valid()
      ensures CacheKey(aggregate) in old(cache) ==>
        r == Ok(old(cache)[CacheKey(aggregate)]) && cache == old(cache) && nextId == old(nextId)
      ensures CacheKey(aggregate) !in old(cache) ==>
        r == ComputeEntryForAgg(registry, Unwrap(aggregate), false, old(nextId))
      ensures CacheKey(aggregate) !in old(cache) && r.Ok? ==>
        && cache == old(cache)[CacheKey(aggregate) := r.value]
        && nextId == old(nextId) + |r.value|
        && ComputedFrom(registry, CacheKey(aggregate), r.value, false, old(nextId))
      ensures r.Err? ==> cache == old(cache) && nextId == old(nextId)
      ensures r.Ok? ==> CacheKey(aggregate) in cache && cache[CacheKey(aggregate)] == r.value
      ensures forall k :: k in old(cache) ==> k in cache && cache[k] == old(cache)[k]
    {
      r := Map(aggregate, false);
    }

    method MapGroupingOne(aggregate: Expr) returns (r: Result<seq<Expr>, Fault>)
      requires Valid()
      modifies this
      ensures Valid()
      ensures CacheKey(aggregate) in old(cache) ==>
        r == Ok(old(cache)[CacheKey(aggregate)]) && cache == old(cache) && nextId == old(nextId)
      ensures CacheKey(aggregate) !in old(cache) ==>
        r == ComputeEntryForAgg(registry, Unwrap(aggregate), true, old(nextId))
      ensures CacheKey(aggregate) !in old(cache) && r.Ok? ==>
        && cache == old(cache)[CacheKey(aggregate) := r.value]
        && nextId == old(nextId) + |r.value|
        && ComputedFrom(registry, CacheKey(aggregate), r.value, true, old(nextId))
      ensures r.Err? ==> cache == old(cache) && nextId == old(nextId)
      ensures r.Ok? ==> CacheKey(aggregate) in cache && cache[CacheKey(aggregate)] == r.value
      ensures forall k :: k in old(cache) ==> k in cache && cache[k] == old(cache)[k]
    {
      r := Map(aggregate, true);
    }
  }

  /** An alias and its target share one cache entry: mapping the alias with grouping and
      then the target without it returns the same references. */
  method AliasSharesEntry(m: AggregateMapper, target: Expr, aliasId: nat, aliasName: string)
    returns (viaAlias: Result<seq<Expr>, Fault>, direct: Result<seq<Expr>, Fault>)
    requires m.Valid() && !target.Alias?
    modifies m
    ensures viaAlias.Ok? ==> direct == viaAlias
  {
    viaAlias := m.MapGroupingOne(Alias(aliasId, aliasName, target));
    direct := m.MapNonGroupingOne(target);
  }

  /** The same aggregate written twice in a query, under different source text, is mapped
      once: the second mapping returns the first one's references. */
  method RepeatedAggregateSharesEntry(m: AggregateMapper, first: Expr, second: Expr, grouping: bool)
    returns (r1: Result<seq<Expr>, Fault>, r2: Result<seq<Expr>, Fault>)
    requires m.Valid() && first.Aggregate? && second.Aggregate?
    requires first.clazz == second.clazz && first.field == second.field && first.parameters == second.parameters
    modifies m
    ensures r1.Ok? ==> r2 == r1
  {
    r1 := m.Map(first, grouping);
    SameAggregateSameKey(first, second);
    r2 := m.Map(second, grouping);
  }
}
