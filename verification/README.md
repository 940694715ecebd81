# Execute-group engine of ShardingSphere's SQL executor

This project models the execute-group engine (`AbstractExecuteGroupEngine`). The
engine sits between routing/rewriting and physical execution. It takes the execution
units of one logical statement and does three things:

1. **Partition.** It builds an insertion-ordered map from data-source name to the SQL
   units addressed at that source. Sources appear in first-seen order, and units keep
   their input order within a source.
2. **Generate.** It calls the concrete engine's per-data-source strategy once per map
   entry, in map order, and concatenates the input groups it returns. The first
   failing call fails the whole step.
3. **Decorate.** It folds the ordered rule-to-decorator map over the result. Each
   decorator gets its own rule and the previous decorator's output.

Modules:

- `Wrappers` (`wrappers.dfy`): `Result`, which stands for the source's `SQLException`.
- `ExecutionContext` (`execution_context.dfy`): `SQLUnit`, `ExecutionUnit` and `InputGroup<T>` as immutable datatypes.
- `SQLUnitGroups` (`sql_unit_groups.dfy`): the partition step.
  - The `LinkedHashMap` is an association list.
  - `Put` is one iteration of the grouping loop (get-or-create, then append).
  - `GroupBy` is the map after the whole loop.
  - `IsGrouping` is an independent relational specification: distinct keys, exactly the input's names, ordered by first occurrence, each key holding exactly its units in input order.
  - The lemmas prove that `GroupBy` is the unique map satisfying it, and that grouping conserves the SQL units.
- `Generation` (`generation.dfy`): `GenerateAll`, the concatenation over map entries with first-failure semantics.
- `Decoration` (`decoration.dfy`): `Decorated`, the left fold of the decorator map.
- `GroupEngine` (`execute_group_engine.dfy`): the class `ExecuteGroupEngine`.
  - It holds the resolved decorator map and the concrete strategy as `const` fields set by the constructor.
  - Its loop methods `Generate`, `GetSQLUnitGroups` and `Decorate` are proved against the specification functions above.

The strategy (`generateSQLExecuteGroups`, abstract in the source) and the decorators
are opaque function values supplied to the engine. Their input-group type `T`, the
rule type `R` and the error type `E` are type parameters.

## Model

| member | source | states |
|---|---|---|
| `SQLUnitGroups.IndexOf` | shardingsphere-infra/shardingsphere-infra-executor/src/main/java/org/apache/shardingsphere/infra/executor/sql/group/impl/AbstractExecuteGroupEngine.java:66-69 | the map lookup (`containsKey`/`get`) finds the position holding the key, and no earlier position holds it |
| `SQLUnitGroups.PutShape` | shardingsphere-infra/shardingsphere-infra-executor/src/main/java/org/apache/shardingsphere/infra/executor/sql/group/impl/AbstractExecuteGroupEngine.java:66-69 | one loop iteration either appends the SQL unit to the existing key's list or adds a new last entry holding just that unit |
| `SQLUnitGroups.PutKeepsGrouping` | shardingsphere-infra/shardingsphere-infra-executor/src/main/java/org/apache/shardingsphere/infra/executor/sql/group/impl/AbstractExecuteGroupEngine.java:65-70 | each loop iteration keeps the map a correct grouping of the units seen so far |
| `SQLUnitGroups.GroupByIsGrouping` | shardingsphere-infra/shardingsphere-infra-executor/src/main/java/org/apache/shardingsphere/infra/executor/sql/group/impl/AbstractExecuteGroupEngine.java:63-72 | the map's keys are pairwise distinct; every key is a unit's data source and every unit's data source is a key; keys are ordered by first occurrence; each key holds exactly that source's SQL units in input order |
| `SQLUnitGroups.GroupingIsUnique` | shardingsphere-infra/shardingsphere-infra-executor/src/main/java/org/apache/shardingsphere/infra/executor/sql/group/impl/AbstractExecuteGroupEngine.java:63-72 | any two maps that satisfy the grouping specification for the same input are equal, so grouping is deterministic |
| `SQLUnitGroups.GroupByCharacterised` | shardingsphere-infra/shardingsphere-infra-executor/src/main/java/org/apache/shardingsphere/infra/executor/sql/group/impl/AbstractExecuteGroupEngine.java:63-72 | a map satisfies the grouping specification if and only if it is the map the loop builds |
| `SQLUnitGroups.GroupByConserves` | shardingsphere-infra/shardingsphere-infra-executor/src/main/java/org/apache/shardingsphere/infra/executor/sql/group/impl/AbstractExecuteGroupEngine.java:65-70 | the flattened lists are a permutation of the input's SQL units, and the list lengths add up to the number of execution units |
| `SQLUnitGroups.GroupByTwoSources` | shardingsphere-infra/shardingsphere-infra-executor/src/main/java/org/apache/shardingsphere/infra/executor/sql/group/impl/AbstractExecuteGroupEngine.java:63-72 | units (dsA, SELECT 1), (dsB, SELECT 2), (dsA, SELECT 3) group as dsA: [SELECT 1, SELECT 3], then dsB: [SELECT 2] |
| `Generation.GenerateAllAppend` | shardingsphere-infra/shardingsphere-infra-executor/src/main/java/org/apache/shardingsphere/infra/executor/sql/group/impl/AbstractExecuteGroupEngine.java:56-59 | generating over consecutive runs of entries concatenates their results in map order; a failure in an earlier run wins |
| `Generation.GenerateAllSucceedsIff` | shardingsphere-infra/shardingsphere-infra-executor/src/main/java/org/apache/shardingsphere/infra/executor/sql/group/impl/AbstractExecuteGroupEngine.java:57-58 | generation succeeds if and only if the strategy succeeds for every entry |
| `Generation.GenerateAllFirstFailure` | shardingsphere-infra/shardingsphere-infra-executor/src/main/java/org/apache/shardingsphere/infra/executor/sql/group/impl/AbstractExecuteGroupEngine.java:57-58 | a failed generation carries exactly the error of the first failing entry, all earlier entries having succeeded; no partial groups are returned |
| `Decoration.DecoratedAppend` | shardingsphere-infra/shardingsphere-infra-executor/src/main/java/org/apache/shardingsphere/infra/executor/sql/group/impl/AbstractExecuteGroupEngine.java:77-83 | decoration composes: decorating with two consecutive runs of the map is decorating with the first run, then with the second |
| `Decoration.DecoratedFirst` | shardingsphere-infra/shardingsphere-infra-executor/src/main/java/org/apache/shardingsphere/infra/executor/sql/group/impl/AbstractExecuteGroupEngine.java:78-81 | the first decorator receives the generated groups with its own rule, and the rest of the chain receives only its output |
| `Decoration.DecoratedAt` | shardingsphere-infra/shardingsphere-infra-executor/src/main/java/org/apache/shardingsphere/infra/executor/sql/group/impl/AbstractExecuteGroupEngine.java:79-81 | decorator k receives only its own rule and the output of the decorators before it; the decorators after it receive only its output |
| `GroupEngine.ExecuteGroupEngine.constructor` | shardingsphere-infra/shardingsphere-infra-executor/src/main/java/org/apache/shardingsphere/infra/executor/sql/group/impl/AbstractExecuteGroupEngine.java:48-52 | the engine holds the resolved decorator map given at construction; the field is constant, so no later call changes it |
| `GroupEngine.ExecuteGroupEngine.GetSQLUnitGroups` | shardingsphere-infra/shardingsphere-infra-executor/src/main/java/org/apache/shardingsphere/infra/executor/sql/group/impl/AbstractExecuteGroupEngine.java:63-72 | the loop builds exactly `GroupBy` of its input, which is the unique grouping, and it conserves the SQL units as a multiset and in count |
| `GroupEngine.ExecuteGroupEngine.Decorate` | shardingsphere-infra/shardingsphere-infra-executor/src/main/java/org/apache/shardingsphere/infra/executor/sql/group/impl/AbstractExecuteGroupEngine.java:77-83 | the loop returns the left fold of the decorator map in map order; with an empty map it returns its input unchanged |
| `GroupEngine.ExecuteGroupEngine.Generate` | shardingsphere-infra/shardingsphere-infra-executor/src/main/java/org/apache/shardingsphere/infra/executor/sql/group/impl/AbstractExecuteGroupEngine.java:55-61 | the result is the decorated concatenation of the strategy's groups over the grouping map, or the first strategy failure; it succeeds if and only if every data source's strategy call succeeds |
| `GroupEngine.GenerateEmpty` | shardingsphere-infra/shardingsphere-infra-executor/src/main/java/org/apache/shardingsphere/infra/executor/sql/group/impl/AbstractExecuteGroupEngine.java:55-61 | with no execution units, the decorators still run, over the empty collection |
| `GroupEngine.GenerateFailsAtFirstFailingSource` | shardingsphere-infra/shardingsphere-infra-executor/src/main/java/org/apache/shardingsphere/infra/executor/sql/group/impl/AbstractExecuteGroupEngine.java:57-60 | a failed generate reports the error of the first data source, in grouping order, whose strategy call failed |

## Left out

- `StatementExecutorWrapper` is not part of this model. `route` is glue over the parser, router, metrics collection and rewriter. `getExecuteGroupEngine` is a factory that reads global configuration. `executeSQL` is a JDBC call. The no-rules fallback (one unit at the first data source, raw SQL, no parameters) is left out with it.
- Decorator registration and resolution (the static `ShardingSphereServiceLoader.register` block and `OrderedSPIRegistry.getRegisteredServices`) use service discovery. The constructor takes the already-resolved, ordered (rule, decorator) sequence instead. The map's keys are rule instances, so they are distinct. The fold does not depend on that, and the model does not state it.
- Concrete `generateSQLExecuteGroups` strategies and the maximum-connections-per-query bound live in subclasses, so no connection-count property is stated. The strategy is an opaque function that may fail.
- The strategy is taken to be stateless and deterministic: it is a pure function value, although the source's `generateSQLExecuteGroups` is an instance method of a subclass that may hold state. Two facts therefore appear only in the body of `Generate`, not in a contract: each map entry gets exactly one strategy call, and the calls happen in map order.
- What individual decorators do (sharding, encryption, shadow, metrics) is foreign code. Decorators are opaque total functions.
- Java collections are mutable, and a decorator could change its input collection in place. The model treats every collection as a value: each decorator returns a new sequence, and aliasing between stages is not captured.
- `SQLException` details are not modelled: a strategy failure is an `Err` carrying an arbitrary error value `E`. Concurrent execution of the resulting groups is also out of scope.
- The `LinkedHashMap` constructor's initial capacity and load factor affect performance only, not behaviour. They are not modelled.
- Statement parameters (`List<Object>`) are a small `Parameter` datatype. The engine never inspects them.
- GroupEngine.ExecuteGroupEngine.Generate: "no decorator runs after a failure" is visible in the method body, which returns before `Decorate`. Decorators are pure functions in the model, so no contract can observe whether they ran.
- An empty input still passes the empty collection through every decorator, so the result is the decorators' output on `[]`, not necessarily empty (`GroupEngine.GenerateEmpty`).
