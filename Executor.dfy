/**
 * The executor `QueryExecutor.execute` (src/core/executor.py): refuse empty code, build the
 * namespace the snippet runs in, run it, and shape the outcome dictionary.
 *
 * Python's `exec` is a parameter: given the code and the namespace, it either finishes
 * normally with the namespace as the snippet left it, or raises an `Exception` whose
 * type name, message and formatted traceback it reports.
 */
module Executor {
  import opened Wrappers

  /** The values a snippet can leave in its namespace, as far as the pipeline tells them apart. */
  datatype Value =
    | NoneValue
    | Frame(columns: seq<string>, rows: seq<seq<string>>)
    | Series(items: seq<string>)
    | Library(name: string)
    | Scalar(repr: string)

  type Namespace = map<string, Value>

  datatype RunOutcome =
    | Normal(scope: Namespace)
    | Raised(typeName: string, message: string, trace: string)

  type Interpreter = (string, Namespace) -> RunOutcome

  /** The outcome dictionary; `traceback` is `None` where the key is absent. */
  datatype Execution = Execution(success: bool, result: Value, error: Option<string>, traceback: Option<string>)

  const NoCodeError := "No query code provided"
  const ResultSlot := "result"

  /** The namespace handed to `exec`: the two tables, the two libraries and an unset result. */
  function InitialNamespace(df1: Value, df2: Value): (ns: Namespace)
    ensures ns.Keys == {"df1", "df2", "pd", "np", ResultSlot}
    ensures ns["df1"] == df1 && ns["df2"] == df2
    ensures ns["pd"] == Library("pandas") && ns["np"] == Library("numpy")
    ensures ns[ResultSlot] == NoneValue
  {
    map["df1" := df1, "df2" := df2, "pd" := Library("pandas"), "np" := Library("numpy"), ResultSlot := NoneValue]
  }

  /** Python's `scope.get("result")`. */
  function ResultOf(scope: Namespace): (v: Value)
    ensures ResultSlot in scope ==> v == scope[ResultSlot]
    ensures ResultSlot !in scope ==> v == NoneValue
  {
    if ResultSlot in scope then scope[ResultSlot] else NoneValue
  }

  /** `_process_result`: tables and series, like every other value, pass through unchanged. */
  function ProcessResult(v: Value): (r: Value)
    ensures r == v
  {
    v
  }

  /** The error text of a raised exception, `"<TypeName>: <message>"`. */
  function ErrorMessage(typeName: string, message: string): string {
    typeName + ": " + message
  }

  /** The outcome of `execute(code)`. */
  function ExecutionOf(code: string, run: Interpreter, df1: Value, df2: Value): (e: Execution)
    ensures code == "" ==> e == Execution(false, NoneValue, Some(NoCodeError), None)
    ensures e.success <==> code != "" && run(code, InitialNamespace(df1, df2)).Normal?
    ensures e.success ==> e.error.None? && e.traceback.None?
    ensures !e.success ==> e.result == NoneValue && e.error.Some? && |e.error.value| > 0
  {
    if code == "" then Execution(false, NoneValue, Some(NoCodeError), None)
    else
      match run(code, InitialNamespace(df1, df2))
      case Normal(scope) => Execution(true, ProcessResult(ResultOf(scope)), None, None)
      case Raised(t, m, trace) => Execution(false, NoneValue, Some(ErrorMessage(t, m)), Some(trace))
  }

  /** `QueryExecutor.execute`. The namespace is a local that `exec` rewrites; the tables are only read. */
  method Execute(code: string, run: Interpreter, df1: Value, df2: Value) returns (e: Execution)
    ensures e == ExecutionOf(code, run, df1, df2)
  {
    if code == "" {
      return Execution(false, NoneValue, Some(NoCodeError), None);
    }
    var scope := InitialNamespace(df1, df2);
    match run(code, scope) {
      case Normal(after) =>
        scope := after;
        var result := ResultOf(scope);
        e := Execution(true, ProcessResult(result), None, None);
      case Raised(t, m, trace) =>
        e := Execution(false, NoneValue, Some(ErrorMessage(t, m)), Some(trace));
    }
  }

  // ---------------------------------------------------------------------------
  // What the outcome means
  // ---------------------------------------------------------------------------

  /** Empty code is refused without running anything: the outcome does not depend on the interpreter. */
  lemma EmptyCodeRunsNothing(run1: Interpreter, run2: Interpreter, df1: Value, df2: Value)
    ensures ExecutionOf("", run1, df1, df2) == ExecutionOf("", run2, df1, df2)
    ensures ExecutionOf("", run1, df1, df2).traceback.None?
  {
  }

  /** A normal run reports the final value of the result slot. */
  lemma NormalRunReportsSlot(code: string, run: Interpreter, df1: Value, df2: Value)
    requires code != "" && run(code, InitialNamespace(df1, df2)).Normal?
    ensures ExecutionOf(code, run, df1, df2).result == ResultOf(run(code, InitialNamespace(df1, df2)).scope)
  {
  }

  /** A snippet that never assigns `result` succeeds with `None`: leaving the slot unset is not a failure. */
  lemma UnassignedResultSucceeds(code: string, run: Interpreter, df1: Value, df2: Value)
    requires code != ""
    requires run(code, InitialNamespace(df1, df2)).Normal?
    requires ResultOf(run(code, InitialNamespace(df1, df2)).scope) == NoneValue
    ensures ExecutionOf(code, run, df1, df2) == Execution(true, NoneValue, None, None)
  {
  }

  /** A raised exception, a syntax error of `exec` included, gives `"<TypeName>: <message>"` and its traceback. */
  lemma RaisedErrorFormat(code: string, run: Interpreter, df1: Value, df2: Value)
    requires code != "" && run(code, InitialNamespace(df1, df2)).Raised?
    ensures var r := run(code, InitialNamespace(df1, df2));
      ExecutionOf(code, run, df1, df2) == Execution(false, NoneValue, Some(r.typeName + ": " + r.message), Some(r.trace))
  {
  }

  /** A table result reaches the caller whole, however many rows it has. */
  lemma TablesNotTruncated(code: string, run: Interpreter, df1: Value, df2: Value, cols: seq<string>, rows: seq<seq<string>>)
    requires code != "" && run(code, InitialNamespace(df1, df2)).Normal?
    requires ResultOf(run(code, InitialNamespace(df1, df2)).scope) == Frame(cols, rows)
    ensures ExecutionOf(code, run, df1, df2).result == Frame(cols, rows)
  {
  }
}
