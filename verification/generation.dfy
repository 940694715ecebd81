/**
 * The generate step: the per-data-source strategy is called once for each
 * entry of the grouping map, in map order, and the input groups it returns
 * are concatenated. The first failing call fails the whole step.
 */
module Generation {
  import opened Wrappers
  import opened ExecutionContext
  import opened SQLUnitGroups

  /**
   * The statement-kind-specific strategy a concrete engine supplies: the input
   * groups for one data source and its SQL units, or the error it raises.
   */
  type Strategy<T, E> = (string, seq<SQLUnit>) -> Result<seq<InputGroup<T>>, E>

  /** The strategy's answer for one entry of the grouping map. */
  function GenerateEntry<T, E>(strategy: Strategy<T, E>, entry: (string, seq<SQLUnit>)): Result<seq<InputGroup<T>>, E>
  {
    strategy(entry.0, entry.1)
  }

  /** The concatenation of the strategy's input groups over the entries, in order, or the first failure. */
  function GenerateAll<T, E>(strategy: Strategy<T, E>, groups: Groups): Result<seq<InputGroup<T>>, E>
  {
    if groups == [] then Ok([])
    else
      match GenerateAll(strategy, groups[..|groups| - 1])
      case Err(e) => Err(e)
      case Ok(prefix) =>
        match GenerateEntry(strategy, groups[|groups| - 1])
        case Err(e) => Err(e)
        case Ok(last) => Ok(prefix + last)
  }

  /** Generating over two consecutive runs of entries concatenates their results; a failure in the first run wins. */
  lemma {:induction false} GenerateAllAppend<T, E>(strategy: Strategy<T, E>, first: Groups, second: Groups)
    ensures GenerateAll(strategy, first + second) ==
      match GenerateAll(strategy, first)
      case Err(e) => Err(e)
      case Ok(a) =>
        match GenerateAll(strategy, second)
        case Err(e) => Err(e)
        case Ok(b) => Ok(a + b)
  {
    if second == [] {
      assert first + second == first;
      if GenerateAll(strategy, first).Ok? {
        assert GenerateAll(strategy, first).value + [] == GenerateAll(strategy, first).value;
      }
    } else {
      var n := |second|;
      assert (first + second)[..|first + second| - 1] == first + second[..n - 1];
      assert (first + second)[|first + second| - 1] == second[n - 1];
      GenerateAllAppend(strategy, first, second[..n - 1]);
      match GenerateAll(strategy, first)
      case Err(e) =>
      case Ok(a) =>
        match GenerateAll(strategy, second[..n - 1])
        case Err(e) =>
        case Ok(b) =>
          match GenerateEntry(strategy, second[n - 1])
          case Err(e) =>
          case Ok(c) =>
            assert a + b + c == a + (b + c);
    }
  }

  /** Generation succeeds exactly when the strategy succeeds for every entry. */
  lemma {:induction false} GenerateAllSucceedsIff<T, E>(strategy: Strategy<T, E>, groups: Groups)
    ensures GenerateAll(strategy, groups).Ok? <==>
      forall i :: 0 <= i < |groups| ==> GenerateEntry(strategy, groups[i]).Ok?
  {
    if groups != [] {
      var init := groups[..|groups| - 1];
      GenerateAllSucceedsIff(strategy, init);
      assert forall i :: 0 <= i < |init| ==> init[i] == groups[i];
    }
  }

  /** Entry i is the first entry whose strategy call fails, and it fails with `error`. */
  ghost predicate FirstFailureAt<T, E>(strategy: Strategy<T, E>, groups: Groups, i: int, error: E)
  {
    && 0 <= i < |groups|
    && GenerateEntry(strategy, groups[i]) == Err(error)
    && forall j :: 0 <= j < i ==> GenerateEntry(strategy, groups[j]).Ok?
  }

  /**
   * A failed generation reports the error of the first entry whose strategy
   * call failed: every earlier entry succeeded, and nothing of the groups
   * generated so far is returned.
   */
  lemma {:induction false} GenerateAllFirstFailure<T, E>(strategy: Strategy<T, E>, groups: Groups)
    requires GenerateAll(strategy, groups).Err?
    ensures exists i :: FirstFailureAt(strategy, groups, i, GenerateAll(strategy, groups).error)
  {
    var init := groups[..|groups| - 1];
    var error := GenerateAll(strategy, groups).error;
    assert forall j :: 0 <= j < |init| ==> init[j] == groups[j];
    if GenerateAll(strategy, init).Err? {
      GenerateAllFirstFailure(strategy, init);
      var i :| FirstFailureAt(strategy, init, i, GenerateAll(strategy, init).error);
      assert FirstFailureAt(strategy, groups, i, error);
    } else {
      GenerateAllSucceedsIff(strategy, init);
      assert FirstFailureAt(strategy, groups, |groups| - 1, error);
    }
  }
}
