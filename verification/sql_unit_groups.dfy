/**
 * The partition step of the execute-group engine: execution units are
 * gathered into an insertion-ordered multimap from data-source name to that
 * source's SQL units. The multimap is an association list whose keys are
 * pairwise distinct and appear in the order they were first put.
 */
module SQLUnitGroups {
  import opened ExecutionContext

  /** An insertion-ordered map from data-source name to its SQL units. */
  type Groups = seq<(string, seq<SQLUnit>)>

  /** The keys of the map, in iteration order. */
  function Keys(groups: Groups): seq<string>
  {
    seq(|groups|, i requires 0 <= i < |groups| => groups[i].0)
  }

  /** The position of the first occurrence of `key`. */
  function IndexOf(keys: seq<string>, key: string): (r: nat)
    requires key in keys
    ensures r < |keys| && keys[r] == key && key !in keys[..r]
  {
    if keys[0] == key then 0
    else
      var r := 1 + IndexOf(keys[1..], key);
      assert keys[..r] == [keys[0]] + keys[1..][..r - 1];
      r
  }

  /**
   * One iteration of the grouping loop: create the key's empty list when the
   * map does not contain it yet, then append the unit's SQL unit to that list.
   */
  function Put(groups: Groups, unit: ExecutionUnit): Groups
  {
    var ds := unit.dataSourceName;
    var withKey := if ds in Keys(groups) then groups else groups + [(ds, [])];
    assert Keys(withKey)[|withKey| - 1] == ds || ds in Keys(groups);
    var k := IndexOf(Keys(withKey), ds);
    withKey[k := (ds, withKey[k].1 + [unit.sqlUnit])]
  }

  /** The map the grouping loop has built after visiting every unit, in order. */
  function GroupBy(units: seq<ExecutionUnit>): Groups
  {
    if units == [] then [] else Put(GroupBy(units[..|units| - 1]), units[|units| - 1])
  }

  /** Reference definition: the SQL units addressed at `ds`, in input order. */
  function UnitsOf(units: seq<ExecutionUnit>, ds: string): seq<SQLUnit>
  {
    if units == [] then []
    else
      var last := units[|units| - 1];
      UnitsOf(units[..|units| - 1], ds) + (if last.dataSourceName == ds then [last.sqlUnit] else [])
  }

  /** All SQL units of the map, entry after entry. */
  function FlattenGroups(groups: Groups): seq<SQLUnit>
  {
    if groups == [] then [] else FlattenGroups(groups[..|groups| - 1]) + groups[|groups| - 1].1
  }

  /** No data-source name is a key twice. */
  ghost predicate DistinctKeys(groups: Groups)
  {
    forall i, j :: 0 <= i < j < |groups| ==> groups[i].0 != groups[j].0
  }

  /** Every key is the data-source name of some unit. */
  ghost predicate KeysAreNames(units: seq<ExecutionUnit>, groups: Groups)
  {
    forall i :: 0 <= i < |groups| ==> groups[i].0 in Names(units)
  }

  /** Every unit's data-source name is a key. */
  ghost predicate NamesAreKeys(units: seq<ExecutionUnit>, groups: Groups)
  {
    forall j :: 0 <= j < |units| ==> units[j].dataSourceName in Keys(groups)
  }

  /** The keys are ordered by where their data source first occurs in the input. */
  ghost predicate FirstOccurrenceOrder(units: seq<ExecutionUnit>, groups: Groups)
    requires KeysAreNames(units, groups)
  {
    forall i, j :: 0 <= i < j < |groups| ==>
      IndexOf(Names(units), groups[i].0) < IndexOf(Names(units), groups[j].0)
  }

  /** Each key holds exactly the SQL units addressed at it, in input order. */
  ghost predicate ListsAreUnitsOf(units: seq<ExecutionUnit>, groups: Groups)
  {
    forall i :: 0 <= i < |groups| ==> groups[i].1 == UnitsOf(units, groups[i].0)
  }

  /**
   * `groups` is the grouping of `units`: its keys are pairwise distinct, they
   * are exactly the data-source names of the units, they are ordered by first
   * occurrence in the input, and each key holds exactly the SQL units
   * addressed at it, in input order.
   */
  ghost predicate IsGrouping(units: seq<ExecutionUnit>, groups: Groups)
  {
    && DistinctKeys(groups)
    && KeysAreNames(units, groups)
    && NamesAreKeys(units, groups)
    && FirstOccurrenceOrder(units, groups)
    && ListsAreUnitsOf(units, groups)
  }

  /** Appending an element does not move the first occurrence of a present key. */
  lemma {:induction false} IndexOfAppend(keys: seq<string>, extra: string, key: string)
    requires key in keys
    ensures IndexOf(keys + [extra], key) == IndexOf(keys, key)
  {
    if keys[0] != key {
      assert (keys + [extra])[1..] == keys[1..] + [extra];
      IndexOfAppend(keys[1..], extra, key);
    }
  }

  /** How the names, first occurrences and per-source lists change when one unit is appended. */
  lemma AppendUnitFacts(units: seq<ExecutionUnit>, unit: ExecutionUnit)
    ensures Names(units + [unit]) == Names(units) + [unit.dataSourceName]
    ensures forall key :: key in Names(units) ==>
      IndexOf(Names(units + [unit]), key) == IndexOf(Names(units), key)
    ensures forall key ::
      UnitsOf(units + [unit], key) == UnitsOf(units, key) + (if unit.dataSourceName == key then [unit.sqlUnit] else [])
  {
    var units' := units + [unit];
    assert Names(units') == Names(units) + [unit.dataSourceName];
    assert units'[..|units'| - 1] == units;
    forall key | key in Names(units)
      ensures IndexOf(Names(units'), key) == IndexOf(Names(units), key)
    {
      IndexOfAppend(Names(units), unit.dataSourceName, key);
    }
  }

  /** The predicates that only look at the keys agree on maps with the same keys. */
  lemma SameKeys(units: seq<ExecutionUnit>, groups: Groups, groups': Groups)
    requires Keys(groups) == Keys(groups')
    ensures DistinctKeys(groups) ==> DistinctKeys(groups')
    ensures NamesAreKeys(units, groups) ==> NamesAreKeys(units, groups')
    ensures KeysAreNames(units, groups) ==> KeysAreNames(units, groups')
    ensures KeysAreNames(units, groups) && FirstOccurrenceOrder(units, groups) ==>
      KeysAreNames(units, groups') && FirstOccurrenceOrder(units, groups')
  {
    assert forall i :: 0 <= i < |groups| ==> groups[i].0 == Keys(groups)[i] == groups'[i].0;
  }

  /** Keys that are names of the units stay names, in the same order, when a unit is appended. */
  lemma ExtendUnitsKeepsOrder(units: seq<ExecutionUnit>, unit: ExecutionUnit, groups: Groups)
    requires KeysAreNames(units, groups)
    ensures KeysAreNames(units + [unit], groups)
    ensures FirstOccurrenceOrder(units, groups) ==> FirstOccurrenceOrder(units + [unit], groups)
  {
    AppendUnitFacts(units, unit);
  }

  /** Appending a unit of a present key extends exactly that key's list. */
  lemma PresentKeepsLists(units: seq<ExecutionUnit>, groups: Groups, unit: ExecutionUnit, k: nat)
    requires DistinctKeys(groups) && ListsAreUnitsOf(units, groups)
    requires k < |groups| && groups[k].0 == unit.dataSourceName
    ensures ListsAreUnitsOf(units + [unit], groups[k := (unit.dataSourceName, groups[k].1 + [unit.sqlUnit])])
  {
    AppendUnitFacts(units, unit);
    var result := groups[k := (unit.dataSourceName, groups[k].1 + [unit.sqlUnit])];
    forall i | 0 <= i < |result| ensures result[i].1 == UnitsOf(units + [unit], result[i].0) {
      if i != k {
        assert groups[i].0 != groups[k].0;
      }
    }
  }

  /** Putting a unit whose data source is already a key only extends that key's list. */
  lemma PutPresentKeepsGrouping(units: seq<ExecutionUnit>, groups: Groups, unit: ExecutionUnit)
    requires IsGrouping(units, groups)
    requires unit.dataSourceName in Keys(groups)
    ensures IsGrouping(units + [unit], Put(groups, unit))
  {
    var units' := units + [unit];
    var ds := unit.dataSourceName;
    var k := IndexOf(Keys(groups), ds);
    var result := groups[k := (ds, groups[k].1 + [unit.sqlUnit])];
    assert Put(groups, unit) == result;
    assert Keys(result) == Keys(groups);
    ExtendUnitsKeepsOrder(units, unit, groups);
    assert NamesAreKeys(units', groups) by {
      forall j | 0 <= j < |units'| ensures units'[j].dataSourceName in Keys(groups) {
        if j < |units| {
          assert units'[j] == units[j];
        }
      }
    }
    SameKeys(units', groups, result);
    PresentKeepsLists(units, groups, unit, k);
  }

  /** Appending an entry for a data source that is not yet a name keeps the keys distinct and ordered. */
  lemma AbsentKeepsKeys(units: seq<ExecutionUnit>, groups: Groups, unit: ExecutionUnit, list: seq<SQLUnit>)
    requires DistinctKeys(groups) && KeysAreNames(units, groups) && FirstOccurrenceOrder(units, groups)
    requires unit.dataSourceName !in Names(units)
    ensures DistinctKeys(groups + [(unit.dataSourceName, list)])
    ensures KeysAreNames(units + [unit], groups + [(unit.dataSourceName, list)])
    ensures FirstOccurrenceOrder(units + [unit], groups + [(unit.dataSourceName, list)])
  {
    var units' := units + [unit];
    var ds := unit.dataSourceName;
    var result := groups + [(ds, list)];
    AppendUnitFacts(units, unit);
    assert Names(units')[|units|] == ds;
    assert IndexOf(Names(units'), ds) == |units| by {
      assert Names(units')[..|units|] == Names(units);
    }
    forall i, j | 0 <= i < j < |result|
      ensures IndexOf(Names(units'), result[i].0) < IndexOf(Names(units'), result[j].0)
    {
      assert groups[i].0 in Names(units);
      if j < |groups| {
        assert groups[j].0 in Names(units);
      }
    }
  }

  /** Appending an entry for a new data source holding just its SQL unit keeps every list exact. */
  lemma AbsentKeepsLists(units: seq<ExecutionUnit>, groups: Groups, unit: ExecutionUnit)
    requires KeysAreNames(units, groups) && ListsAreUnitsOf(units, groups)
    requires unit.dataSourceName !in Names(units)
    ensures ListsAreUnitsOf(units + [unit], groups + [(unit.dataSourceName, [unit.sqlUnit])])
  {
    var ds := unit.dataSourceName;
    var result := groups + [(ds, [unit.sqlUnit])];
    AppendUnitFacts(units, unit);
    UnitsOfAbsent(units, ds);
    forall i | 0 <= i < |result| ensures result[i].1 == UnitsOf(units + [unit], result[i].0) {
      if i < |groups| {
        assert groups[i].0 in Names(units);
      }
    }
  }

  /** Putting a unit with a new data source appends a fresh entry holding just its SQL unit. */
  lemma PutAbsentKeepsGrouping(units: seq<ExecutionUnit>, groups: Groups, unit: ExecutionUnit)
    requires IsGrouping(units, groups)
    requires unit.dataSourceName !in Keys(groups)
    ensures IsGrouping(units + [unit], Put(groups, unit))
  {
    var units' := units + [unit];
    var ds := unit.dataSourceName;
    var result := groups + [(ds, [unit.sqlUnit])];
    assert Put(groups, unit) == result by {
      var withKey := groups + [(ds, [])];
      assert Keys(withKey) == Keys(groups) + [ds];
      assert Keys(withKey)[..|groups|] == Keys(groups);
      assert IndexOf(Keys(withKey), ds) == |groups|;
      assert [] + [unit.sqlUnit] == [unit.sqlUnit];
    }
    NotAKeyNotAName(units, groups, ds);
    AbsentKeepsKeys(units, groups, unit, [unit.sqlUnit]);
    AbsentKeepsLists(units, groups, unit);
    AbsentCoversNames(units, groups, unit, [unit.sqlUnit]);
  }

  /** When every name is a key, a data source that is not a key names no unit. */
  lemma NotAKeyNotAName(units: seq<ExecutionUnit>, groups: Groups, ds: string)
    requires NamesAreKeys(units, groups) && ds !in Keys(groups)
    ensures ds !in Names(units)
  {
  }

  /** Appending an entry for the new unit's data source keeps every name a key. */
  lemma AbsentCoversNames(units: seq<ExecutionUnit>, groups: Groups, unit: ExecutionUnit, list: seq<SQLUnit>)
    requires NamesAreKeys(units, groups)
    ensures NamesAreKeys(units + [unit], groups + [(unit.dataSourceName, list)])
  {
    var units' := units + [unit];
    var result := groups + [(unit.dataSourceName, list)];
    assert Keys(result) == Keys(groups) + [unit.dataSourceName];
    forall j | 0 <= j < |units'| ensures units'[j].dataSourceName in Keys(result) {
      if j < |units| {
        assert units'[j] == units[j];
        assert units[j].dataSourceName in Keys(groups);
      } else {
        assert Keys(result)[|groups|] == unit.dataSourceName;
      }
    }
  }

  /** A data source that addresses no unit has an empty list. */
  lemma {:induction false} UnitsOfAbsent(units: seq<ExecutionUnit>, ds: string)
    requires ds !in Names(units)
    ensures UnitsOf(units, ds) == []
  {
    if units != [] {
      var init := units[..|units| - 1];
      assert Names(init) == Names(units)[..|units| - 1];
      assert Names(units)[|units| - 1] == units[|units| - 1].dataSourceName;
      UnitsOfAbsent(init, ds);
    }
  }

  /** One step of the grouping loop keeps the map a grouping of the units seen so far. */
  lemma PutKeepsGrouping(units: seq<ExecutionUnit>, groups: Groups, unit: ExecutionUnit)
    requires IsGrouping(units, groups)
    ensures IsGrouping(units + [unit], Put(groups, unit))
  {
    if unit.dataSourceName in Keys(groups) {
      PutPresentKeepsGrouping(units, groups, unit);
    } else {
      PutAbsentKeepsGrouping(units, groups, unit);
    }
  }

  /** The grouping loop's result satisfies the grouping specification. */
  lemma {:induction false} GroupByIsGrouping(units: seq<ExecutionUnit>)
    ensures IsGrouping(units, GroupBy(units))
  {
    if units != [] {
      var init, last := units[..|units| - 1], units[|units| - 1];
      assert units == init + [last];
      assert GroupBy(units) == Put(GroupBy(init), last);
      GroupByIsGrouping(init);
      PutKeepsGrouping(init, GroupBy(init), last);
    }
  }

  /** Extending one list by one SQL unit adds exactly that unit to the flattened map. */
  lemma {:induction false} FlattenExtend(groups: Groups, k: nat, sqlUnit: SQLUnit)
    requires k < |groups|
    ensures multiset(FlattenGroups(groups[k := (groups[k].0, groups[k].1 + [sqlUnit])]))
         == multiset(FlattenGroups(groups)) + multiset{sqlUnit}
  {
    var updated := groups[k := (groups[k].0, groups[k].1 + [sqlUnit])];
    var n := |groups|;
    var init := groups[..n - 1];
    if k == n - 1 {
      assert updated[..n - 1] == init;
    } else {
      assert updated[..n - 1] == init[k := (init[k].0, init[k].1 + [sqlUnit])];
      FlattenExtend(init, k, sqlUnit);
    }
  }

  /** What one Put does to the map: extend the key's list, or append a new entry. */
  lemma PutShape(groups: Groups, unit: ExecutionUnit)
    ensures unit.dataSourceName in Keys(groups) ==>
      var k := IndexOf(Keys(groups), unit.dataSourceName);
      Put(groups, unit) == groups[k := (groups[k].0, groups[k].1 + [unit.sqlUnit])]
    ensures unit.dataSourceName !in Keys(groups) ==>
      Put(groups, unit) == groups + [(unit.dataSourceName, [unit.sqlUnit])]
  {
    var ds := unit.dataSourceName;
    if ds !in Keys(groups) {
      var withKey := groups + [(ds, [])];
      assert Keys(withKey)[..|groups|] == Keys(groups);
      assert Keys(withKey)[|groups|] == ds;
      assert IndexOf(Keys(withKey), ds) == |groups|;
      assert [] + [unit.sqlUnit] == [unit.sqlUnit];
    }
  }

  /** One Put adds exactly its unit's SQL unit to the flattened map. */
  lemma PutConserves(groups: Groups, unit: ExecutionUnit)
    ensures multiset(FlattenGroups(Put(groups, unit))) == multiset(FlattenGroups(groups)) + multiset{unit.sqlUnit}
  {
    PutShape(groups, unit);
    if unit.dataSourceName in Keys(groups) {
      FlattenExtend(groups, IndexOf(Keys(groups), unit.dataSourceName), unit.sqlUnit);
    } else {
      assert (groups + [(unit.dataSourceName, [unit.sqlUnit])])[..|groups|] == groups;
    }
  }

  /**
   * Grouping neither loses nor duplicates a SQL unit: the flattened map is a
   * permutation of the input's SQL units, so the list lengths add up to the
   * number of execution units.
   */
  lemma {:induction false} GroupByConserves(units: seq<ExecutionUnit>)
    ensures multiset(FlattenGroups(GroupBy(units))) == multiset(SQLUnits(units))
    ensures |FlattenGroups(GroupBy(units))| == |units|
  {
    if units != [] {
      var init, last := units[..|units| - 1], units[|units| - 1];
      assert SQLUnits(units) == SQLUnits(init) + [last.sqlUnit];
      GroupByConserves(init);
      PutConserves(GroupBy(init), last);
    }
    assert |multiset(FlattenGroups(GroupBy(units)))| == |FlattenGroups(GroupBy(units))|;
  }

  /** The sequence lists distinct names strictly ordered by first occurrence in `names`. */
  ghost predicate RankedBy(keys: seq<string>, names: seq<string>)
  {
    && (forall i :: 0 <= i < |keys| ==> keys[i] in names)
    && (forall i, j :: 0 <= i < j < |keys| ==> IndexOf(names, keys[i]) < IndexOf(names, keys[j]))
  }

  /** The first element of a ranked sequence has the smallest rank. */
  lemma RankedHead(keys: seq<string>, names: seq<string>, x: string)
    requires RankedBy(keys, names) && keys != [] && x in keys
    ensures IndexOf(names, keys[0]) <= IndexOf(names, x)
    ensures x != keys[0] ==> IndexOf(names, keys[0]) < IndexOf(names, x) && x in keys[1..]
  {
    var i :| 0 <= i < |keys| && keys[i] == x;
    if i != 0 {
      assert keys[1..][i - 1] == x;
    }
  }

  /** Two sequences ranked by the same names and holding the same elements are equal. */
  lemma {:induction false} RankedUnique(a: seq<string>, b: seq<string>, names: seq<string>)
    requires RankedBy(a, names) && RankedBy(b, names)
    requires forall x :: x in a <==> x in b
    ensures a == b
  {
    if a != [] || b != [] {
      assert a != [] ==> a[0] in b;
      assert b != [] ==> b[0] in a;
      RankedHead(a, names, b[0]);
      RankedHead(b, names, a[0]);
      assert a[0] == b[0];
      forall x ensures x in a[1..] <==> x in b[1..] {
        if x in a[1..] {
          RankedHead(a, names, x);
          RankedHead(b, names, x);
        }
        if x in b[1..] {
          RankedHead(b, names, x);
          RankedHead(a, names, x);
        }
      }
      RankedUnique(a[1..], b[1..], names);
      assert a == [a[0]] + a[1..] && b == [b[0]] + b[1..];
    }
  }

  /** The keys of a grouping are ranked by the units' names and are exactly those names. */
  lemma GroupingKeys(units: seq<ExecutionUnit>, groups: Groups)
    requires IsGrouping(units, groups)
    ensures RankedBy(Keys(groups), Names(units))
    ensures forall x :: x in Keys(groups) <==> x in Names(units)
  {
    forall x ensures x in Keys(groups) <==> x in Names(units) {
      if x in Keys(groups) {
        var i :| 0 <= i < |groups| && Keys(groups)[i] == x;
        assert groups[i].0 in Names(units);
      }
      if x in Names(units) {
        var j :| 0 <= j < |units| && Names(units)[j] == x;
        assert units[j].dataSourceName in Keys(groups);
      }
    }
  }

  /**
   * The grouping specification determines the map completely: any two maps
   * that satisfy it for the same input are equal, so the grouping loop is
   * deterministic in the order of its input.
   */
  lemma GroupingIsUnique(units: seq<ExecutionUnit>, groups: Groups, groups': Groups)
    requires IsGrouping(units, groups) && IsGrouping(units, groups')
    ensures groups == groups'
  {
    GroupingKeys(units, groups);
    GroupingKeys(units, groups');
    RankedUnique(Keys(groups), Keys(groups'), Names(units));
    assert |groups| == |Keys(groups)| == |groups'|;
    forall i | 0 <= i < |groups| ensures groups[i] == groups'[i] {
      assert groups[i].0 == Keys(groups)[i] == groups'[i].0;
    }
  }

  /**
   * The grouping loop's map is the one and only map that satisfies the
   * grouping specification for its input.
   */
  lemma GroupByCharacterised(units: seq<ExecutionUnit>, groups: Groups)
    ensures IsGrouping(units, groups) <==> groups == GroupBy(units)
  {
    GroupByIsGrouping(units);
    if IsGrouping(units, groups) {
      GroupingIsUnique(units, groups, GroupBy(units));
    }
  }

  /**
   * Two statements for one data source around one for another: the first
   * source gets one entry holding both of its statements in input order.
   */
  lemma GroupByTwoSources()
    ensures
      var s1, s2, s3 := SQLUnit("SELECT 1", []), SQLUnit("SELECT 2", []), SQLUnit("SELECT 3", []);
      GroupBy([ExecutionUnit("dsA", s1), ExecutionUnit("dsB", s2), ExecutionUnit("dsA", s3)])
        == [("dsA", [s1, s3]), ("dsB", [s2])]
  {
    var s1, s2, s3 := SQLUnit("SELECT 1", []), SQLUnit("SELECT 2", []), SQLUnit("SELECT 3", []);
    var u1, u2, u3 := ExecutionUnit("dsA", s1), ExecutionUnit("dsB", s2), ExecutionUnit("dsA", s3);
    var units := [u1, u2, u3];
    assert "dsA" != "dsB" by {
      assert "dsA"[2] != "dsB"[2];
    }
    var g1: Groups := [("dsA", [s1])];
    var g2: Groups := [("dsA", [s1]), ("dsB", [s2])];
    assert units[..1] == [u1] && [u1][..0] == [];
    PutShape([], u1);
    assert GroupBy([u1]) == g1;
    assert Keys(g1) == ["dsA"];
    PutShape(g1, u2);
    assert units[..2] == [u1, u2] && [u1, u2][..1] == [u1];
    assert GroupBy([u1, u2]) == g2;
    assert Keys(g2) == ["dsA", "dsB"];
    assert IndexOf(Keys(g2), "dsA") == 0;
    PutShape(g2, u3);
    assert "dsA" in Keys(g2);
    assert [s1] + [s3] == [s1, s3];
    assert Put(g2, u3) == [("dsA", [s1, s3]), ("dsB", [s2])];
    assert GroupBy(units) == Put(g2, u3);
  }
}
