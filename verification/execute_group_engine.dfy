/**
 * The execute-group engine: partition the execution units by data source,
 * let the concrete engine's strategy turn each partition into input groups,
 * concatenate them in partition order and pass the result through the
 * decoration chain.
 */
module GroupEngine {
  import opened Wrappers
  import opened ExecutionContext
  import opened SQLUnitGroups
  import opened Generation
  import opened Decoration

  /** What generate answers for the units: the decorated concatenation, or the first strategy failure. */
  function Generated<R, T, E>(decorators: Decorators<R, T>, strategy: Strategy<T, E>, units: seq<ExecutionUnit>)
    : Result<seq<InputGroup<T>>, E>
  {
    match GenerateAll(strategy, GroupBy(units))
    case Err(e) => Err(e)
    case Ok(groups) => Ok(Decorated(decorators, groups))
  }

  /**
   * An engine holds the resolved rule-to-decorator map, fixed when it is
   * built, and the per-data-source strategy of its concrete kind.
   */
  class ExecuteGroupEngine<R, T, E> {
    const decorators: Decorators<R, T>
    const strategy: Strategy<T, E>

    constructor (decorators: Decorators<R, T>, strategy: Strategy<T, E>)
      ensures this.decorators == decorators && this.strategy == strategy
    {
      this.decorators := decorators;
      this.strategy := strategy;
    }

    /**
     * Groups the units, generates each data source's input groups in order and
     * decorates the concatenation. A failing strategy call fails the whole
     * call: nothing generated so far is returned and no decorator runs.
     */
    method Generate(executionUnits: seq<ExecutionUnit>) returns (result: Result<seq<InputGroup<T>>, E>)
      ensures result == Generated(decorators, strategy, executionUnits)
      ensures result.Ok? <==> forall i :: 0 <= i < |GroupBy(executionUnits)| ==>
        GenerateEntry(strategy, GroupBy(executionUnits)[i]).Ok?
    {
      var sqlUnitGroups := GetSQLUnitGroups(executionUnits);
      var generated: seq<InputGroup<T>> := [];
      for i := 0 to |sqlUnitGroups|
        invariant GenerateAll(strategy, sqlUnitGroups[..i]) == Ok(generated)
      {
        var entryResult := strategy(sqlUnitGroups[i].0, sqlUnitGroups[i].1);
        assert sqlUnitGroups[..i + 1][..i] == sqlUnitGroups[..i];
        if entryResult.Err? {
          assert sqlUnitGroups[..i + 1] + sqlUnitGroups[i + 1..] == sqlUnitGroups;
          GenerateAllAppend(strategy, sqlUnitGroups[..i + 1], sqlUnitGroups[i + 1..]);
          GenerateAllSucceedsIff(strategy, sqlUnitGroups);
          return Err(entryResult.error);
        }
        generated := generated + entryResult.value;
      }
      assert sqlUnitGroups[..|sqlUnitGroups|] == sqlUnitGroups;
      GenerateAllSucceedsIff(strategy, sqlUnitGroups);
      var decorated := Decorate(generated);
      result := Ok(decorated);
    }

    /**
     * Builds the insertion-ordered map from data-source name to its SQL units:
     * a name seen for the first time gets an empty list, then the unit's SQL
     * unit is appended to its name's list.
     */
    static method GetSQLUnitGroups(executionUnits: seq<ExecutionUnit>) returns (result: Groups)
      ensures result == GroupBy(executionUnits)
      ensures multiset(FlattenGroups(result)) == multiset(SQLUnits(executionUnits))
      ensures |FlattenGroups(result)| == |executionUnits|
    {
      result := [];
      for i := 0 to |executionUnits|
        invariant result == GroupBy(executionUnits[..i])
      {
        var each := executionUnits[i];
        ghost var before := result;
        if each.dataSourceName !in Keys(result) {
          result := result + [(each.dataSourceName, [])];
          assert Keys(result)[|result| - 1] == each.dataSourceName;
        }
        var k := IndexOf(Keys(result), each.dataSourceName);
        result := result[k := (each.dataSourceName, result[k].1 + [each.sqlUnit])];
        assert result == Put(before, each);
        assert executionUnits[..i + 1][..i] == executionUnits[..i];
      }
      assert executionUnits[..|executionUnits|] == executionUnits;
      GroupByConserves(executionUnits);
    }

    /** Threads the input groups through every decorator, in map order. */
    method Decorate(inputGroups: seq<InputGroup<T>>) returns (result: seq<InputGroup<T>>)
      ensures result == Decorated(decorators, inputGroups)
      ensures decorators == [] ==> result == inputGroups
    {
      result := inputGroups;
      for i := 0 to |decorators|
        invariant result == Decorated(decorators[..i], inputGroups)
      {
        var (rule, decorator) := decorators[i];
        result := decorator(rule, result);
        assert decorators[..i + 1][..i] == decorators[..i];
      }
      assert decorators[..|decorators|] == decorators;
    }
  }

  /** Decoration runs even when there is nothing to execute. */
  lemma GenerateEmpty<R, T, E>(decorators: Decorators<R, T>, strategy: Strategy<T, E>)
    ensures Generated(decorators, strategy, []) == Ok(Decorated(decorators, []))
  {
  }

  /**
   * A failed generate carries only the error of the first data source, in
   * grouping order, whose strategy call failed; every source before it was
   * generated successfully.
   */
  lemma GenerateFailsAtFirstFailingSource<R, T, E>(
    decorators: Decorators<R, T>, strategy: Strategy<T, E>, units: seq<ExecutionUnit>)
    requires Generated(decorators, strategy, units).Err?
    ensures exists i :: FirstFailureAt(strategy, GroupBy(units), i, Generated(decorators, strategy, units).error)
  {
    GenerateAllFirstFailure(strategy, GroupBy(units));
  }
}
