# Aggregate mapping and the Top aggregate of ES|QL

This project is a Dafny model of two parts of the ES|QL query planner in Elasticsearch.

**AggregateMapper** (`planner/AggregateMapper.java`) turns logical aggregate expressions into the intermediate-state columns that the compute engine's physical aggregators exchange. The model covers three things.

- **The static registry** (module `Registry`).
  - Every mappable aggregate class is expanded into its variant keys. A key is (class, value-type tag, extra-config tag, grouping mode), and each class takes its tags from a first-match rule table.
  - Each key is turned into the fully qualified class name of its physical aggregator.
  - A table is built from key to that aggregator's intermediate-state description.
- **The per-session mapper** (module `Mapping`).
  - Value-type tag derivation: the tag of a field type.
  - Element-type to logical-type conversion.
  - Conversion of state descriptions into reference attributes.
  - The mapper class (`Mapping.AggregateMapper`). Its cache goes from an alias-free expression to its references, and every cached entry is one the registry yields for its key. Batch mapping files the references into an attribute map keyed by attribute id.
- **Cross-module consequences** (module `Consistency`): what Top's type resolution accepts can reach a registered key and a physical supplier.

**Top** (`expression/function/aggregate/Top.java`, module `TopAggregate`) is the aggregate that collects the top `limit` values of a field, in ascending or descending order. The model covers:

- its child layout and folded parameters;
- type resolution, together with its diagnostics;
- choice of the physical supplier;
- the limit-1 surrogate (Min or Max);
- child replacement;
- the serialised form on the plan stream.

Module `Types` holds the logical data types, the compute element types and the `Result`/`Option` wrappers. Module `Expressions` holds the expression nodes that the two files consume.

Modelling decisions:

- **Exceptions.** Every exception the source throws becomes an `Err` carrying a `Fault` (or a `Diagnostic` for type resolution) that names the same condition.
- **The reflective step.** Building a class name, then `Class.forName`, then the static `intermediateStateDesc()` is modelled as an oracle parameter. The oracle maps a class name to the state description, or to `None` when the lookup fails.
- **Attribute ids.** Fresh attribute identifiers are minted from a counter field of the mapper.
- **Cache keys.** The cache is keyed by `Mapping.CacheKey`: the expression with one alias layer removed and, on an aggregate node, its source text blanked. A node's equality compares its class and its children, not where in the query it was written, so the same aggregate written twice shares one entry. Attributes carry their id, so two distinct attributes stay distinct keys.
- **`computeIfAbsent`.** A failing computation stores nothing.
- **`Alias.unwrap`.** It removes one alias layer, no more.
- **`isType`.** It lets an expression of type NULL pass, since a null literal is "typeless". The result is that a Top over a NULL field resolves.
- **`equalsIgnoreCase`.** It is modelled with ASCII case folding.
- **Expected-type descriptions.** The three texts that Top's type checks report as expected ("numeric except unsigned_long or counter types", "integer", "string") are the enumeration `TopAggregate.Expectation`; `TopAggregate.ExpectationText` gives their text.
- **Folding.** Only literals fold to a constant.

## Model

| member | source | states |
|---|---|---|
| Types.FromEs | x-pack/plugin/esql/src/main/java/org/elasticsearch/xpack/esql/planner/AggregateMapper.java:254 | a name that resolves to a known type is that type's index-mapping name |
| Types.FromEsEsName | x-pack/plugin/esql/src/main/java/org/elasticsearch/xpack/esql/planner/AggregateMapper.java:254 | looking a type up by its own index-mapping name gives that type back |
| Registry.ListedClasses | x-pack/plugin/esql/src/main/java/org/elasticsearch/xpack/esql/planner/AggregateMapper.java:59-76 | the listed aggregate classes are exactly the thirteen named ones |
| Registry.IndexOfClass | x-pack/plugin/esql/src/main/java/org/elasticsearch/xpack/esql/planner/AggregateMapper.java:59-76 | each named class has a position in the list, and the class at that position is the class itself |
| Registry.IndexOfListed | x-pack/plugin/esql/src/main/java/org/elasticsearch/xpack/esql/planner/AggregateMapper.java:59-76 | the position of the class at a given position is that position, so IndexOfClass inverts indexing |
| Registry.ClassesListedOnce | x-pack/plugin/esql/src/main/java/org/elasticsearch/xpack/esql/planner/AggregateMapper.java:59-76 | no class is listed twice |
| Registry.TypeTable | x-pack/plugin/esql/src/main/java/org/elasticsearch/xpack/esql/planner/AggregateMapper.java:144-170 | the rule table knows a class exactly when it is one of the thirteen mappable aggregate classes; both tag lists are then non-empty and duplicate-free |
| Registry.Combinations | x-pack/plugin/esql/src/main/java/org/elasticsearch/xpack/esql/planner/AggregateMapper.java:174-176 | the cross product: its length is the product of the list lengths, and a pair occurs exactly when its type is in the type list and its extra is in the extra list |
| Registry.CombinationsAt | x-pack/plugin/esql/src/main/java/org/elasticsearch/xpack/esql/planner/AggregateMapper.java:174-176 | the order is type-major: pair (i, j) is at position i·|extras| + j |
| Registry.CombinationsDistinct | x-pack/plugin/esql/src/main/java/org/elasticsearch/xpack/esql/planner/AggregateMapper.java:174-176 | duplicate-free tag lists give a duplicate-free product |
| Registry.TypeAndNames | x-pack/plugin/esql/src/main/java/org/elasticsearch/xpack/esql/planner/AggregateMapper.java:144-172 | succeeds exactly for the mappable classes, and otherwise fails with "unknown aggregate type" naming the class; on success, every (type, extra) combination of the rule table occurs once, tagged with the class |
| Registry.GroupingAndNonGrouping | x-pack/plugin/esql/src/main/java/org/elasticsearch/xpack/esql/planner/AggregateMapper.java:178-188 | Rate yields only its grouping key; every other class yields both a grouping and a non-grouping key, and nothing else |
| Registry.ExpandGrouping | x-pack/plugin/esql/src/main/java/org/elasticsearch/xpack/esql/planner/AggregateMapper.java:83-84 | the flat map of the grouping split holds exactly the keys of the input combinations in the allowed modes; it doubles the count without Rate and keeps it with Rate only |
| Registry.ExpandGroupingDistinct | x-pack/plugin/esql/src/main/java/org/elasticsearch/xpack/esql/planner/AggregateMapper.java:83-84 | distinct combinations give distinct keys |
| Registry.ClassKeyCount | x-pack/plugin/esql/src/main/java/org/elasticsearch/xpack/esql/planner/AggregateMapper.java:178-188 | a mappable class contributes two keys per combination, except Rate, which contributes one |
| Registry.SpatialCombinations | x-pack/plugin/esql/src/main/java/org/elasticsearch/xpack/esql/planner/AggregateMapper.java:153-155 | SpatialCentroid has four combinations, each with a SourceValues or DocValues extra |
| Registry.DefsOf | x-pack/plugin/esql/src/main/java/org/elasticsearch/xpack/esql/planner/AggregateMapper.java:82-84 | expanding a list of classes succeeds exactly when every class is mappable, and then yields exactly the registered keys of those classes |
| Registry.DefsOfDistinct | x-pack/plugin/esql/src/main/java/org/elasticsearch/xpack/esql/planner/AggregateMapper.java:82-84 | distinct classes yield a duplicate-free key list, so collecting it into a map can never meet a duplicate key |
| Registry.AllDefs | x-pack/plugin/esql/src/main/java/org/elasticsearch/xpack/esql/planner/AggregateMapper.java:60-84 | the key stream of the whole registry holds exactly the registered keys, without duplicates |
| Registry.DeterminePackageName | x-pack/plugin/esql/src/main/java/org/elasticsearch/xpack/esql/planner/AggregateMapper.java:239-245 | the spatial sub-package exactly when the simple class name starts with "Spatial", otherwise the aggregation package |
| Registry.DetermineAggName | x-pack/plugin/esql/src/main/java/org/elasticsearch/xpack/esql/planner/AggregateMapper.java:227-236 | the physical class name is the package, a dot, the simple name, the type tag, the extra tag, "Grouping" in grouping mode, and "AggregatorFunction" |
| Registry.GroupingChangesName | x-pack/plugin/esql/src/main/java/org/elasticsearch/xpack/esql/planner/AggregateMapper.java:233 | the grouping variant's name is eight characters longer than the non-grouping one, so the two modes never share a class |
| Registry.Collect | x-pack/plugin/esql/src/main/java/org/elasticsearch/xpack/esql/planner/AggregateMapper.java:85 | collecting keys into an unmodifiable map: on success the keys are the old ones plus the new ones, each new value is the looked-up state, and the old entries are untouched |
| Registry.CollectSucceeds | x-pack/plugin/esql/src/main/java/org/elasticsearch/xpack/esql/planner/AggregateMapper.java:85 | collecting succeeds exactly when the keys are distinct, none is already in the map, and every key's class name resolves; otherwise it fails on a duplicate key or a failed lookup |
| Registry.CollectFromEmpty | x-pack/plugin/esql/src/main/java/org/elasticsearch/xpack/esql/planner/AggregateMapper.java:85 | collecting distinct keys into an empty map succeeds exactly when every key resolves, and then holds exactly those keys, each with its looked-up state |
| Registry.BuildRegistry | x-pack/plugin/esql/src/main/java/org/elasticsearch/xpack/esql/planner/AggregateMapper.java:82-85 | the registry builds exactly when every registered key's class name resolves; its keys are then exactly the registered keys, each mapped to the state its class reports |
| Registry.RegistryLookup | x-pack/plugin/esql/src/main/java/org/elasticsearch/xpack/esql/planner/AggregateMapper.java:136-142 | a registered key finds its state; any other key fails with "cannot find intermediate state" naming the key |
| Mapping.DataTypeToString | x-pack/plugin/esql/src/main/java/org/elasticsearch/xpack/esql/planner/AggregateMapper.java:274-301 | Count, ToPartial and FromPartial are untyped; for other classes a tag exists exactly for the boolean, integer, long, date, double, counter, keyword, ip, version, text and point types, and any other type fails with "illegal agg type" naming it |
| Mapping.DataTypeTags | x-pack/plugin/esql/src/main/java/org/elasticsearch/xpack/esql/planner/AggregateMapper.java:274-301 | for a typed class each tag appears exactly for its listed field types (both directions), and no tag outside the seven listed ones is produced |
| Mapping.ToDataType | x-pack/plugin/esql/src/main/java/org/elasticsearch/xpack/esql/planner/AggregateMapper.java:262-271 | the five supported element types convert, and FLOAT, NULL, DOC, COMPOSITE and UNKNOWN fail with "unsupported agg type" |
| Mapping.ToDataTypeInjective | x-pack/plugin/esql/src/main/java/org/elasticsearch/xpack/esql/planner/AggregateMapper.java:262-271 | distinct supported element types give distinct logical types |
| Mapping.ToDataTypeMatchesTag | x-pack/plugin/esql/src/main/java/org/elasticsearch/xpack/esql/planner/AggregateMapper.java:262-301 | the logical type derived from an element type carries the value-type tag of that element type |
| Mapping.IsToNE | x-pack/plugin/esql/src/main/java/org/elasticsearch/xpack/esql/planner/AggregateMapper.java:248-258 | succeeds exactly when every description has a usable type, and otherwise fails naming the element type of one that does not; one reference attribute per description, in order, with its name, consecutive fresh ids, and its explicit type or else the one derived from its element type |
| Mapping.AggDefOrNull | x-pack/plugin/esql/src/main/java/org/elasticsearch/xpack/esql/planner/AggregateMapper.java:190-200 | no key for a non-aggregate; for an aggregate, the key exists exactly when its field type has a tag, and then carries the class, that tag, the grouping flag, and SourceValues exactly for SpatialCentroid |
| Mapping.ComputeEntryForAgg | x-pack/plugin/esql/src/main/java/org/elasticsearch/xpack/esql/planner/AggregateMapper.java:120-133 | plain attributes map to nothing; other non-aggregates fail with "unknown agg"; an aggregate whose field type has no tag fails with that error; an aggregate maps to its registry state converted to references, or fails when its key is missing; all references carry fresh ids in the minted range |
| Mapping.DoMappingDeduplicates | x-pack/plugin/esql/src/main/java/org/elasticsearch/xpack/esql/planner/AggregateMapper.java:107-109 | the attribute map holds one entry per distinct attribute id of the stream, every id in the stream is present, and each entry is the last value in the stream put under its id |
| Mapping.PutMembers | x-pack/plugin/esql/src/main/java/org/elasticsearch/xpack/esql/planner/AggregateMapper.java:108 | after a put, the map holds the value just put and otherwise only earlier entries filed under other ids |
| Mapping.LastUnderIdSnoc | x-pack/plugin/esql/src/main/java/org/elasticsearch/xpack/esql/planner/AggregateMapper.java:108 | a value last under its id stays last when a value with another id follows |
| Mapping.SameAggregateSameKey | x-pack/plugin/esql/src/main/java/org/elasticsearch/xpack/esql/planner/AggregateMapper.java:117 | two aggregates, aliased or not, share a cache key exactly when they agree on class, field and parameters, whatever their source text |
| Mapping.KeyKeepsEntry | x-pack/plugin/esql/src/main/java/org/elasticsearch/xpack/esql/planner/AggregateMapper.java:117-120 | the entry computed for a cache key is the entry computed for the alias-free expression it came from |
| Mapping.KeysOfPrefix | x-pack/plugin/esql/src/main/java/org/elasticsearch/xpack/esql/planner/AggregateMapper.java:106-109 | the keys of a batch prefix one longer add that expression's key, and stay within the keys of the whole batch |
| Mapping.ComputedFromEarlier | x-pack/plugin/esql/src/main/java/org/elasticsearch/xpack/esql/planner/AggregateMapper.java:116-118 | an entry computed from ids not yet handed out at a later point was computed from ids not handed out at an earlier one |
| Mapping.BatchStep | x-pack/plugin/esql/src/main/java/org/elasticsearch/xpack/esql/planner/AggregateMapper.java:106-109 | one more mapped expression, a hit or a stored miss, adds exactly its key to the batch's keys, and a new entry is one the registry yields under the batch's grouping flag from fresh ids |
| Mapping.GrewByPrefix | x-pack/plugin/esql/src/main/java/org/elasticsearch/xpack/esql/planner/AggregateMapper.java:106-109 | a batch stopped by a failure has added only keys of the batch, each with an entry the registry yields |
| Mapping.PutEntries | x-pack/plugin/esql/src/main/java/org/elasticsearch/xpack/esql/planner/AggregateMapper.java:108 | putting one aggregate's references one at a time extends the attribute map exactly as putting the whole emitted stream does |
| Mapping.PutAllAppend | x-pack/plugin/esql/src/main/java/org/elasticsearch/xpack/esql/planner/AggregateMapper.java:108 | putting one more attribute after a stream is putting it into the map built from that stream |
| Mapping.PutAllSnoc | x-pack/plugin/esql/src/main/java/org/elasticsearch/xpack/esql/planner/AggregateMapper.java:108 | the map built from a stream extended by one more reference of an entry is the earlier map with that reference put |
| Mapping.EntriesExtend | x-pack/plugin/esql/src/main/java/org/elasticsearch/xpack/esql/planner/AggregateMapper.java:106-110 | after one more aggregate is cached, with no earlier entry changed, the concatenated cached entries of the batch prefix grow by exactly that aggregate's entry |
| Mapping.AggregateMapper.constructor | x-pack/plugin/esql/src/main/java/org/elasticsearch/xpack/esql/planner/AggregateMapper.java:90-92 | a new mapper starts with an empty cache and no ids handed out |
| Mapping.AggregateMapper.Map | x-pack/plugin/esql/src/main/java/org/elasticsearch/xpack/esql/planner/AggregateMapper.java:116-118 | computeIfAbsent on the cache key: a hit returns the cached entry whatever the grouping mode and changes nothing; a miss returns the entry computed for the alias-free expression from the next free id, stores it, and hands out exactly its ids; a failure changes nothing; every cached entry stays one the registry yields for its key |
| Mapping.AggregateMapper.DoMapping | x-pack/plugin/esql/src/main/java/org/elasticsearch/xpack/esql/planner/AggregateMapper.java:106-110 | on success the cache gains exactly the batch's missing keys and the result is the attribute map built from the cached entries in batch order; in every case earlier entries are untouched, no key outside the batch is added, each new entry is the one the registry yields under this batch's grouping flag from ids not handed out before, and ids never go back |
| Mapping.AggregateMapper.MapNext | x-pack/plugin/esql/src/main/java/org/elasticsearch/xpack/esql/planner/AggregateMapper.java:107-108 | one iteration of the batch loop: maps the next expression and files its references; on success the cache has grown by exactly that expression's key, the attribute map is the one built from every reference emitted so far, and the rest of the batch is left as MapAll would do it; on failure the batch ends in the state MapAll gives, with only batch keys added |
| Mapping.BatchStepOk | x-pack/plugin/esql/src/main/java/org/elasticsearch/xpack/esql/planner/AggregateMapper.java:107-108 | a successful mapping of the next expression, hit or stored miss, keeps every entry the batch started with, never lowers the id counter, and leaves the cache grown by exactly the keys of the expressions mapped so far, each new one holding a registry-computed entry |
| Mapping.MapAllAdvance | x-pack/plugin/esql/src/main/java/org/elasticsearch/xpack/esql/planner/AggregateMapper.java:107-108 | a cache hit leaves state and ids alone and a miss stores the registry's entry and advances the ids by its length; either way the rest of the batch from the new state ends where MapAll from the old state ends |
| Mapping.BatchStepFail | x-pack/plugin/esql/src/main/java/org/elasticsearch/xpack/esql/planner/AggregateMapper.java:107-108 | a failing mapping of the next expression ends the batch where MapAll stops, with only keys of the batch added, each holding a registry-computed entry |
| Mapping.BatchDone | x-pack/plugin/esql/src/main/java/org/elasticsearch/xpack/esql/planner/AggregateMapper.java:106-110 | once every expression is mapped, the cache holds exactly the old keys plus the batch's keys, the state is the one MapAll reaches without failure, and the emitted references are the cached entries in batch order |
| Mapping.AggregateMapper.MapNonGrouping | x-pack/plugin/esql/src/main/java/org/elasticsearch/xpack/esql/planner/AggregateMapper.java:94-96 | batch mapping with the guarantees of DoMapping, every new entry computed in non-grouping mode |
| Mapping.AggregateMapper.MapGrouping | x-pack/plugin/esql/src/main/java/org/elasticsearch/xpack/esql/planner/AggregateMapper.java:102-104 | batch mapping with the guarantees of DoMapping, every new entry computed in grouping mode |
| Mapping.AggregateMapper.MapNonGroupingOne | x-pack/plugin/esql/src/main/java/org/elasticsearch/xpack/esql/planner/AggregateMapper.java:98-100 | single mapping in non-grouping mode: a hit gives the cached entry and changes nothing; a miss gives the entry the registry yields in non-grouping mode, stores it, keeps every other entry and hands out exactly its ids; a failure changes nothing |
| Mapping.AggregateMapper.MapGroupingOne | x-pack/plugin/esql/src/main/java/org/elasticsearch/xpack/esql/planner/AggregateMapper.java:112-114 | single mapping in grouping mode, with the same cases as MapNonGroupingOne; a new entry is the one the registry yields in grouping mode |
| Mapping.AliasSharesEntry | x-pack/plugin/esql/src/main/java/org/elasticsearch/xpack/esql/planner/AggregateMapper.java:117 | an alias and its target share one cache entry: once the alias has been mapped, the target maps to the same references even in the other grouping mode |
| Mapping.RepeatedAggregateSharesEntry | x-pack/plugin/esql/src/main/java/org/elasticsearch/xpack/esql/planner/AggregateMapper.java:117 | the same aggregate written twice with different source text maps once: the second mapping returns the first one's references |
| TopAggregate.Children | x-pack/plugin/esql/src/main/java/org/elasticsearch/xpack/esql/expression/function/aggregate/Top.java:55-70 | a Top node has three children: the field, then the limit and order parameters |
| TopAggregate.LimitField | x-pack/plugin/esql/src/main/java/org/elasticsearch/xpack/esql/expression/function/aggregate/Top.java:96-98 | the limit is the second child |
| TopAggregate.OrderField | x-pack/plugin/esql/src/main/java/org/elasticsearch/xpack/esql/expression/function/aggregate/Top.java:100-102 | the order is the third child |
| TopAggregate.DataTypeOf | x-pack/plugin/esql/src/main/java/org/elasticsearch/xpack/esql/expression/function/aggregate/Top.java:153-156 | the data type of a Top node is that of its first child, the field |
| TopAggregate.LimitValue | x-pack/plugin/esql/src/main/java/org/elasticsearch/xpack/esql/expression/function/aggregate/Top.java:104-106 | the folded limit is the integer of the constant that is the second child |
| TopAggregate.OrderRawValue | x-pack/plugin/esql/src/main/java/org/elasticsearch/xpack/esql/expression/function/aggregate/Top.java:108-110 | the folded order is the string of the constant that is the third child |
| TopAggregate.OrderValueIsAscending | x-pack/plugin/esql/src/main/java/org/elasticsearch/xpack/esql/expression/function/aggregate/Top.java:112-114 | for an order spelling ASC or DESC ignoring case, the order is ascending exactly when it does not spell DESC |
| TopAggregate.IntegerConstantChecks | x-pack/plugin/esql/src/main/java/org/elasticsearch/xpack/esql/expression/function/aggregate/Top.java:128-129 | the limit's not-null-and-foldable and integer checks both pass exactly for an integer constant |
| TopAggregate.StringConstantChecks | x-pack/plugin/esql/src/main/java/org/elasticsearch/xpack/esql/expression/function/aggregate/Top.java:130-131 | the order's not-null-and-foldable and string checks both pass exactly for a string constant |
| TopAggregate.ParameterChecks | x-pack/plugin/esql/src/main/java/org/elasticsearch/xpack/esql/expression/function/aggregate/Top.java:122-131 | the chained checks pass exactly for an accepted (or null) field type with an integer-constant limit and a string-constant order; a failure is a wrong type, a non-foldable or a null parameter, and a wrong type of the field means the field type is neither accepted nor null |
| TopAggregate.ResolveType | x-pack/plugin/esql/src/main/java/org/elasticsearch/xpack/esql/expression/function/aggregate/Top.java:116-151 | resolves exactly when the children are resolved, the field is boolean, datetime, numeric other than unsigned_long (or null), the limit is a positive integer constant, and the order is a string constant equal to ASC or DESC ignoring case; in order of the checks, unresolved children, the first failing type or constant check, a non-positive limit (with its value) and an order spelling neither ASC nor DESC (with its text) are each reported, and every such diagnostic means its check failed |
| TopAggregate.LimitNotPositiveReported | x-pack/plugin/esql/src/main/java/org/elasticsearch/xpack/esql/expression/function/aggregate/Top.java:137-142 | a well-typed Top over a field with a constant limit of zero or less fails with that limit and its source text, whatever the order |
| TopAggregate.InvalidOrderReported | x-pack/plugin/esql/src/main/java/org/elasticsearch/xpack/esql/expression/function/aggregate/Top.java:144-148 | with a positive limit, an order spelling neither ASC nor DESC fails with that order text and the source text |
| TopAggregate.Message | x-pack/plugin/esql/src/main/java/org/elasticsearch/xpack/esql/expression/function/aggregate/Top.java:117-148 | unresolved children read "Unresolved children"; the limit message names the source text and ends with the limit, in decimal, between brackets; the order message names the source text, lists [ASC, DESC], and ends with the order as given between brackets |
| TopAggregate.IntToStringParses | x-pack/plugin/esql/src/main/java/org/elasticsearch/xpack/esql/expression/function/aggregate/Top.java:141 | the decimal rendering of the limit in the message reads back as the same integer, negative values included |
| TopAggregate.Supplier | x-pack/plugin/esql/src/main/java/org/elasticsearch/xpack/esql/expression/function/aggregate/Top.java:168-184 | a supplier exists exactly for long, datetime, integer, double and boolean fields (long and datetime share the long supplier), and any other type fails with an illegal data type; it gets the input channels, the folded limit, and ascending exactly when the order is ASC ignoring case |
| TopAggregate.Surrogate | x-pack/plugin/esql/src/main/java/org/elasticsearch/xpack/esql/expression/function/aggregate/Top.java:186-199 | a surrogate exists exactly for limit 1: Min over the same field when ascending, Max when descending, with the same data type |
| TopAggregate.SurrogateOfResolved | x-pack/plugin/esql/src/main/java/org/elasticsearch/xpack/esql/expression/function/aggregate/Top.java:186-199 | for a resolved node, limit 1 with ASC gives Min and limit 1 with DESC gives Max, in any letter case, and every other limit gives none |
| TopAggregate.ReplaceChildren | x-pack/plugin/esql/src/main/java/org/elasticsearch/xpack/esql/expression/function/aggregate/Top.java:163-166 | a list of at least three children gives a node with those first three children and the same source; a shorter list fails |
| TopAggregate.ReplaceOwnChildren | x-pack/plugin/esql/src/main/java/org/elasticsearch/xpack/esql/expression/function/aggregate/Top.java:163-166 | replacing the children by the node's own children gives the node back |
| TopAggregate.WriteTo | x-pack/plugin/esql/src/main/java/org/elasticsearch/xpack/esql/expression/function/aggregate/Top.java:81-89 | the stream holds the source followed by the three children in order |
| TopAggregate.ReadFrom | x-pack/plugin/esql/src/main/java/org/elasticsearch/xpack/esql/expression/function/aggregate/Top.java:72-79 | reading succeeds exactly on a source followed by three expressions, and what is read written back, followed by the unread rest, is the input |
| TopAggregate.RoundTrip | x-pack/plugin/esql/src/main/java/org/elasticsearch/xpack/esql/expression/function/aggregate/Top.java:72-89 | reading back what was written gives the same node and leaves the rest of the stream unread |
| Consistency.RuntimeKeyIsRegistered | x-pack/plugin/esql/src/main/java/org/elasticsearch/xpack/esql/planner/AggregateMapper.java:190-200 | Top, Min or Max over a boolean, date, integer, long or double field derives a registered key in either grouping mode, tagged with the field's value type |
| Consistency.ResolvedTopIsMappable | x-pack/plugin/esql/src/main/java/org/elasticsearch/xpack/esql/expression/function/aggregate/Top.java:116-184 | a resolved Top over a run-time type has a registered key in both grouping modes, and a supplier whose value type is that key's tag |
| Consistency.SupplierMatchesTag | x-pack/plugin/esql/src/main/java/org/elasticsearch/xpack/esql/expression/function/aggregate/Top.java:168-184 | over a boolean, date, integer, long or double field, the supplier exists and is the one named for the field's value-type tag |
| Consistency.SurrogateIsMappable | x-pack/plugin/esql/src/main/java/org/elasticsearch/xpack/esql/expression/function/aggregate/Top.java:186-199 | the Min or Max surrogate of a resolved run-time Top has a registered key in both grouping modes |
| Consistency.FloatTopResolvesWithoutPhysicalForm | x-pack/plugin/esql/src/main/java/org/elasticsearch/xpack/esql/expression/function/aggregate/Top.java:122-128 | any Top over a float field with a positive integer limit and an ASC or DESC order passes type resolution, yet it has no value-type tag and no supplier |
| Consistency.ResolvedWithoutSupplier | x-pack/plugin/esql/src/main/java/org/elasticsearch/xpack/esql/expression/function/aggregate/Top.java:168-184 | a resolved Top whose field type is not a run-time type (a narrow numeric or null field) fails supplier selection with an illegal data type |
| Consistency.MappingUsesRegistry | x-pack/plugin/esql/src/main/java/org/elasticsearch/xpack/esql/planner/AggregateMapper.java:120-125 | mapping an aggregate whose key is registered converts exactly the state reported by that key's physical class |
| Consistency.RateWithoutGroupingIsMissing | x-pack/plugin/esql/src/main/java/org/elasticsearch/xpack/esql/planner/AggregateMapper.java:179-181 | Rate without grouping has no registered state, and mapping it fails with "cannot find intermediate state" |
| Consistency.SumLongKeys | x-pack/plugin/esql/src/main/java/org/elasticsearch/xpack/esql/planner/AggregateMapper.java:147-148 | Sum over a long field derives keys that are registered in both grouping modes |
| Consistency.OnlyCentroidIsSpatial | x-pack/plugin/esql/src/main/java/org/elasticsearch/xpack/esql/planner/AggregateMapper.java:239-245 | of the mappable classes, only SpatialCentroid resolves to the spatial sub-package |

## Left out

- The reflective lookup of `lookupIntermediateState` and `lookup` (lines 203-224): it is the oracle parameter of `Registry.BuildRegistry`. The contents of each physical aggregator's `intermediateStateDesc()` live in the compute module and are not part of this model.
- Registry.GetNonNull: it has no contract of its own. `Registry.RegistryLookup` states its behaviour on the built registry.
- Registry.DetermineAggName: the contract gives the name's layout but not concrete class-name strings. Those names follow from the layout by concatenation. `Registry.GroupingChangesName` and `Consistency.OnlyCentroidIsSpatial` state their consequences instead.
- Java's `isAssignableFrom` over the class hierarchy: registry membership is modelled over the thirteen listed classes. The `NumericAggregate` subclasses among them are MedianAbsoluteDeviation, Percentile and Sum.
- The static, lazily initialised registry and thread safety: the registry is a value, and the mapper takes it at construction.
- Attribute identity: `NameId` is global in the source. Here it is a counter per mapper, so ids are fresh only within one mapper.
- AttributeMap internals: the model keeps only its insertion-ordered behaviour for entries keyed by attribute id.
- Java streams: they are laziness, not behaviour, and are left out. The `toList()` views become sequences.
- TopAggregate.LimitValue: the `(int)` is an unboxing cast of the folded `Integer`, not a narrowing conversion, so nothing is truncated. An `IntVal` is an unbounded integer, while an INTEGER constant of the source lies in the 32-bit range; the model does not carry that bound. On a value that is not an `Integer` the cast throws; the precondition `WellFolded` stands for that case, which type resolution rules out before the value is read.
- Mapping.CacheKey: only the source text of the top-level aggregate is blanked. An aggregate nested inside a key's field or parameters keeps its source text, so two keys differing only there stay apart.
- TopAggregate.EqualsIgnoreCase: it folds only ASCII letters, while Java's `equalsIgnoreCase` also folds other Unicode letters.
- Folding: only literals fold. General constant folding of expressions belongs to the expression library, which is not part of this model.
- `DataType.java`, `TypeResolutions`, `Alias`, `Source` and the plan stream classes are not part of this model. Their behaviour is represented by what the two modelled files use: `fromEs`, `isType` (NULL passes), `isNotNullAndFoldable`, `isString`, one-level unwrap, and ordered tokens for the stream.
- The `@FunctionInfo` and `@Param` documentation annotations, `info()` and `getWriteableName()`: they are metadata with no behaviour.
- TopAggregate.Message: the messages for a wrong type, a non-foldable or a null parameter come from `TypeResolutions`, which is not part of this model; only Top's own three messages are rendered.
- The multi-project indexing integration test in the repository is unrelated to these two files and is not modelled.
