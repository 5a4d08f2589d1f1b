/**
 * The narrator `ReasoningEngine` (src/core/reasoning.py, and the copy in
 * hf-space/src/core/reasoning.py with the same logic): shorten the execution result for
 * the prompt, ask the gateway for a narrative, and return it unchanged.
 *
 * pandas' `to_string` and Python's `str` are parameters (`render`, `show`).
 */
module Reasoning {
  import opened Wrappers
  import opened Text
  import opened Gateway
  import opened Executor

  type Renderer = Value -> string

  const EmptyFrameText := "Empty DataFrame"
  /** Longer results than this are cut down to their head. */
  const TruncationThreshold: nat := 20
  const HeadLength: nat := 10

  /** Pandas' `DataFrame.empty`: no rows or no columns. */
  predicate IsEmptyFrame(columns: seq<string>, rows: seq<seq<string>>) {
    columns == [] || rows == []
  }

  /** The line that replaces the cut rows or items, reporting the full count. */
  function Footer(total: nat, unit: string): string {
    "\n... (Total " + NatToString(total) + " " + unit + ")"
  }

  /** `_format_result_for_llm`. */
  function FormatResult(v: Value, render: Renderer, show: Renderer): string {
    match v
    case Frame(columns, rows) =>
      if IsEmptyFrame(columns, rows) then EmptyFrameText
      else if |rows| > TruncationThreshold then render(Frame(columns, rows[..HeadLength])) + Footer(|rows|, "rows")
      else render(v)
    case Series(items) =>
      if |items| > TruncationThreshold then render(Series(items[..HeadLength])) + Footer(|items|, "items")
      else render(v)
    case _ => show(v)
  }

  /** The number of rows or items the renderer is asked to show. */
  function Shown(v: Value): nat {
    match v
    case Frame(_, rows) => |rows|
    case Series(items) => |items|
    case _ => 0
  }

  /** What the formatter passes to the renderer: the value itself up to the threshold, its first ten entries beyond it. */
  function RenderedPart(v: Value): (w: Value)
    ensures Shown(w) <= Shown(v)
    ensures Shown(v) <= TruncationThreshold ==> w == v
    ensures Shown(v) > TruncationThreshold ==> Shown(w) == HeadLength
  {
    match v
    case Frame(columns, rows) => if |rows| > TruncationThreshold then Frame(columns, rows[..HeadLength]) else v
    case Series(items) => if |items| > TruncationThreshold then Series(items[..HeadLength]) else v
    case _ => v
  }

  // ---------------------------------------------------------------------------
  // What the formatter promises
  // ---------------------------------------------------------------------------

  /** A table or series is rendered through its leading part, never more than twenty entries, with a footer exactly when it was cut. */
  lemma {:induction false} FormatIsHeadPlusFooter(v: Value, render: Renderer, show: Renderer)
    requires v.Series? || (v.Frame? && !IsEmptyFrame(v.columns, v.rows))
    ensures Shown(RenderedPart(v)) <= TruncationThreshold
    ensures v.Frame? ==> (RenderedPart(v).Frame? && RenderedPart(v).columns == v.columns
      && RenderedPart(v).rows == v.rows[..Shown(RenderedPart(v))])
    ensures v.Series? ==> RenderedPart(v).Series? && RenderedPart(v).items == v.items[..Shown(RenderedPart(v))]
    ensures FormatResult(v, render, show) == render(RenderedPart(v)) +
      (if Shown(v) > TruncationThreshold then Footer(Shown(v), if v.Frame? then "rows" else "items") else "")
  {
    if Shown(v) <= TruncationThreshold {
      assert RenderedPart(v) == v;
      if v.Frame? {
        assert v.rows[..|v.rows|] == v.rows;
      } else {
        assert v.items[..|v.items|] == v.items;
      }
    }
  }

  /** An empty table formats to the fixed text, whatever its columns. */
  lemma EmptyFrameFormat(columns: seq<string>, render: Renderer, show: Renderer)
    ensures FormatResult(Frame(columns, []), render, show) == "Empty DataFrame"
    ensures FormatResult(Frame([], []), render, show) == "Empty DataFrame"
  {
  }

  /** Twenty rows are not cut; twenty-one are cut to ten with the footer. */
  lemma {:induction false} TruncationBoundary(columns: seq<string>, rows: seq<seq<string>>, render: Renderer, show: Renderer)
    requires columns != [] && (|rows| == 20 || |rows| == 21)
    ensures |rows| == 20 ==> FormatResult(Frame(columns, rows), render, show) == render(Frame(columns, rows))
    ensures |rows| == 21 ==> (FormatResult(Frame(columns, rows), render, show) ==
      render(Frame(columns, rows[..10])) + "\n... (Total " + NatToString(21) + " rows)")
  {
  }

  /** An empty series is not special-cased: it goes to the renderer like any short series. */
  lemma EmptySeriesRendered(render: Renderer, show: Renderer)
    ensures FormatResult(Series([]), render, show) == render(Series([]))
  {
  }

  /** Any other value is shown with `str`. */
  lemma OtherValuesShown(v: Value, render: Renderer, show: Renderer)
    requires !v.Frame? && !v.Series?
    ensures FormatResult(v, render, show) == show(v)
  {
  }

  // ---------------------------------------------------------------------------
  // analyze_result
  // ---------------------------------------------------------------------------

  const AnalystSystemMessage := "You are a helpful Health Data Analyst."

  /** The narrative request: the question, the code and the formatted result. */
  function ReasoningPrompt(query: string, code: string, resultText: string): (p: string)
    ensures Contains(p, query) && Contains(p, code) && Contains(p, resultText)
  {
    Embeds3("Users asked: \"", query, "\"\nI executed this pandas code:\n```python\n", code,
      "\n```\nThe result was:\n", resultText,
      "\nPlease provide:\n1. A clear, natural language answer to the user's question.\n");
    "Users asked: \"" + query + "\"\nI executed this pandas code:\n```python\n" + code
      + "\n```\nThe result was:\n" + resultText
      + "\nPlease provide:\n1. A clear, natural language answer to the user's question.\n"
  }

  /** The answer dictionary: its only key is `response`. */
  datatype Analysis = Analysis(response: string)

  function NarrativeMessages(query: string, execution: Execution, code: string, render: Renderer, show: Renderer): (m: Messages)
    ensures m.system == AnalystSystemMessage
    ensures Contains(m.user, FormatResult(execution.result, render, show))
  {
    Messages(AnalystSystemMessage, ReasoningPrompt(query, code, FormatResult(execution.result, render, show)))
  }

  /** `analyze_result`: the gateway's text, whatever it is, is the response. */
  method AnalyzeResult(provider: Provider, query: string, execution: Execution, code: string, render: Renderer, show: Renderer)
    returns (a: Analysis)
    ensures a.response == GenerateText(provider, NarrativeMessages(query, execution, code, render, show))
  {
    var response := Generate(provider, NarrativeMessages(query, execution, code, render, show));
    a := Analysis(response);
  }

  /** The narrative is not checked: a gateway failure reaches the caller as the response text. */
  lemma NarrativeFailurePassedThrough(provider: Provider, m: Messages)
    requires Failover(provider, ModelsToTry, m, None).Failed?
    ensures StartsWith(GenerateText(provider, m), FailurePrefix)
  {
    FailureTextShape(Failover(provider, ModelsToTry, m, None));
  }
}
