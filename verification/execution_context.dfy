/**
 * The values the execute-group engine consumes and produces: SQL units,
 * execution units and input groups. All of them are immutable.
 */
module ExecutionContext {

  /** A bound parameter value. The engine never inspects parameters; it only carries them. */
  datatype Parameter = IntParameter(i: int) | TextParameter(s: string) | NullParameter

  /** Physical SQL text together with its ordered bound parameters. */
  datatype SQLUnit = SQLUnit(sql: string, parameters: seq<Parameter>)

  /** A SQL unit addressed at one data source, as routing and rewriting produce it. */
  datatype ExecutionUnit = ExecutionUnit(dataSourceName: string, sqlUnit: SQLUnit)

  /** An ordered batch of execution inputs meant to run under one connection. */
  datatype InputGroup<T> = InputGroup(inputs: seq<T>)

  /** The data-source names of the execution units, in input order. */
  function Names(units: seq<ExecutionUnit>): seq<string>
  {
    seq(|units|, i requires 0 <= i < |units| => units[i].dataSourceName)
  }

  /** The SQL units of the execution units, in input order. */
  function SQLUnits(units: seq<ExecutionUnit>): seq<SQLUnit>
  {
    seq(|units|, i requires 0 <= i < |units| => units[i].sqlUnit)
  }
}
