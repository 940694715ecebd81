/**
 * The decoration chain: the resolved, ordered rule-to-decorator map is
 * folded over the generated input groups, each decorator getting its own
 * rule and the previous decorator's output.
 */
module Decoration {
  import opened ExecutionContext

  /** A decorator's transformation of input groups, given the one rule it is bound to. */
  type Decorator<-R, !T> = (R, seq<InputGroup<T>>) -> seq<InputGroup<T>>

  /** The resolved decorator map: (rule, decorator) entries in resolution order. */
  type Decorators<!R, !T> = seq<(R, Decorator<R, T>)>

  /** The left fold of the decorators over the input groups: the first entry is applied first. */
  function Decorated<R, T>(decorators: Decorators<R, T>, groups: seq<InputGroup<T>>): seq<InputGroup<T>>
  {
    if decorators == [] then groups
    else
      var (rule, decorator) := decorators[|decorators| - 1];
      decorator(rule, Decorated(decorators[..|decorators| - 1], groups))
  }

  /** Decorating with two consecutive runs of entries is decorating with the first, then with the second. */
  lemma {:induction false} DecoratedAppend<R, T>(first: Decorators<R, T>, second: Decorators<R, T>, groups: seq<InputGroup<T>>)
    ensures Decorated(first + second, groups) == Decorated(second, Decorated(first, groups))
  {
    if second == [] {
      assert first + second == first;
    } else {
      var n := |second|;
      assert (first + second)[..|first + second| - 1] == first + second[..n - 1];
      assert (first + second)[|first + second| - 1] == second[n - 1];
      DecoratedAppend(first, second[..n - 1], groups);
    }
  }

  /**
   * The first decorator sees the generated groups and only its own rule; the
   * rest of the chain sees only its output.
   */
  lemma DecoratedFirst<R, T>(rule: R, decorator: Decorator<R, T>, rest: Decorators<R, T>, groups: seq<InputGroup<T>>)
    ensures Decorated([(rule, decorator)] + rest, groups) == Decorated(rest, decorator(rule, groups))
  {
    DecoratedAppend([(rule, decorator)], rest, groups);
    assert [(rule, decorator)][..0] == [];
  }

  /**
   * Decorator k receives its own rule and the output of the decorators before
   * it, and its output is what the decorators after it receive.
   */
  lemma DecoratedAt<R, T>(decorators: Decorators<R, T>, k: nat, groups: seq<InputGroup<T>>)
    requires k < |decorators|
    ensures Decorated(decorators, groups) ==
      Decorated(decorators[k + 1..], decorators[k].1(decorators[k].0, Decorated(decorators[..k], groups)))
  {
    assert decorators == decorators[..k] + ([decorators[k]] + decorators[k + 1..]);
    DecoratedAppend(decorators[..k], [decorators[k]] + decorators[k + 1..], groups);
    DecoratedFirst(decorators[k].0, decorators[k].1, decorators[k + 1..], Decorated(decorators[..k], groups));
  }
}
