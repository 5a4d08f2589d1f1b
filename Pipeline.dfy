/**
 * The orchestrator `HealthDataPipeline.run` (src/core/pipeline.py): plan, execute and narrate
 * one question, filling a record stage by stage and timing each stage.
 *
 * `time.perf_counter` is a clock `nat -> int`: the n-th reading of the run is `clock(n)`,
 * and readings never go backwards.
 */
module Pipeline {
  import opened Wrappers
  import opened Text
  import opened Validator
  import Gateway
  import opened Planner
  import opened Executor
  import opened Reasoning

  datatype Status = Pending | Success | Failed

  /** The keys of `timings_ms`. */
  datatype TimingKey = PlanningKey | ExecutionKey | ReasoningKey | TotalKey

  /** The key as the record spells it. */
  function KeyName(k: TimingKey): string {
    match k
    case PlanningKey => "planning"
    case ExecutionKey => "execution"
    case ReasoningKey => "reasoning"
    case TotalKey => "total"
  }
  const PlanningFailedPrefix := "Planning failed: "
  const ExecutionFailedPrefix := "Execution failed: "

  type Clock = nat -> int

  ghost predicate Monotone(clock: Clock) {
    forall i: nat, j: nat :: i <= j ==> clock(i) <= clock(j)
  }

  /** The three components the pipeline drives: the planner, the executor and the narrator. */
  datatype Stages = Stages(
    plan: string -> Plan,
    execute: string -> Execution,
    narrate: (string, Execution, string) -> Analysis)

  /** What the real components are built from: the gateway, the parser, the schema dump, the interpreter, the tables and the renderers. */
  datatype Collaborators = Collaborators(
    provider: Gateway.Provider, parse: Parser, schemaDump: string,
    run: Interpreter, df1: Value, df2: Value,
    render: Renderer, show: Renderer)

  /** The components of src/core/planner.py, executor.py and reasoning.py over the collaborators. */
  function RealStages(c: Collaborators): Stages {
    Stages(
      query => PlanOf(c.provider, c.parse, c.schemaDump, query),
      code => ExecutionOf(code, c.run, c.df1, c.df2),
      (query, execution, code) =>
        Analysis(Gateway.GenerateText(c.provider, NarrativeMessages(query, execution, code, c.render, c.show))))
  }

  /** Python's truthiness test `if plan.get("error")`: an error that is present and not empty. */
  predicate PlanFailed(plan: Plan) {
    plan.error.Some? && plan.error.value != ""
  }

  /** The stage timing keys recorded after the first `n` stages. */
  function StageKeys(n: nat): (ks: set<TimingKey>)
    requires n <= 3
    ensures TotalKey !in ks
    ensures PlanningKey in ks <==> n >= 1
    ensures ExecutionKey in ks <==> n >= 2
    ensures ReasoningKey in ks <==> n >= 3
  {
    if n == 0 then {} else if n == 1 then {PlanningKey}
    else if n == 2 then {PlanningKey, ExecutionKey} else {PlanningKey, ExecutionKey, ReasoningKey}
  }

  /** An absent timing counts as zero. */
  function TimingOf(timings: map<TimingKey, int>, key: TimingKey): int {
    if key in timings then timings[key] else 0
  }

  function StageSum(timings: map<TimingKey, int>): int {
    TimingOf(timings, PlanningKey) + TimingOf(timings, ExecutionKey) + TimingOf(timings, ReasoningKey)
  }

  /** What the stages produce for a question: its plan, the execution of the plan's code, and the
      narrative of that execution (each only matters when its stage is reached). */
  datatype Trace = Trace(plan: Plan, execution: Execution, narrative: Analysis)

  function TraceOf(st: Stages, query: string): Trace {
    var plan := st.plan(query);
    var execution := st.execute(plan.queryCode);
    Trace(plan, execution, st.narrate(query, execution, plan.queryCode))
  }

  /** How many stages start: planning always, execution after a plan without error, reasoning after a successful execution. */
  function Reached(tr: Trace): (n: nat)
    ensures 1 <= n <= 3
    ensures n == 1 <==> PlanFailed(tr.plan)
    ensures n == 3 <==> !PlanFailed(tr.plan) && tr.execution.success
  {
    if PlanFailed(tr.plan) then 1 else if !tr.execution.success then 2 else 3
  }

  /** The same count, read off the stages without the narrative. */
  function StagesReached(st: Stages, query: string): (n: nat)
    ensures 1 <= n <= 3
  {
    if PlanFailed(st.plan(query)) then 1
    else if !st.execute(st.plan(query).queryCode).success then 2
    else 3
  }

  /** Read off the stages or off their trace, the count is the same. */
  lemma StagesReachedIsReached(st: Stages, query: string)
    ensures StagesReached(st, query) == Reached(TraceOf(st, query))
  {
  }

  /** How long the stage keyed `k` takes: the n-th stage runs between readings `2n - 1` and `2n` of the clock. */
  function StageDuration(k: TimingKey, clock: Clock): int
    requires k != TotalKey
  {
    match k
    case PlanningKey => clock(2) - clock(1)
    case ExecutionKey => clock(4) - clock(3)
    case ReasoningKey => clock(6) - clock(5)
  }

  /** The timings of a run that starts `n` stages: the keys of those stages, each with its stage's
      duration, and the total, taken between reading 0 and reading `2n + 1`. */
  predicate TimesRun(timings: map<TimingKey, int>, n: nat, clock: Clock)
    requires n <= 3
  {
    && timings.Keys == StageKeys(n) + {TotalKey}
    && timings[TotalKey] == clock(2 * n + 1) - clock(0)
    && forall k :: k in timings && k != TotalKey ==> timings[k] == StageDuration(k, clock)
  }

  /** With a clock that never goes backwards, no timing is negative and the stages together take
      no longer than the total. */
  lemma RunTimingsSound(timings: map<TimingKey, int>, n: nat, clock: Clock)
    requires Monotone(clock) && 1 <= n <= 3 && TimesRun(timings, n, clock)
    ensures forall k :: k in timings ==> timings[k] >= 0
    ensures StageSum(timings) <= timings[TotalKey]
  {
    assert clock(0) <= clock(1) <= clock(2) <= clock(3);
    assert clock(3) <= clock(4) <= clock(5) <= clock(6) <= clock(7);
  }

  /** The record `run` returns: the dictionary with the eight keys it starts with. */
  datatype RunRecord = RunRecord(
    question: string, status: Status, timings: map<TimingKey, int>, pyCode: Option<string>,
    pySuccess: bool, result: Value, finalResponse: Option<string>, error: Option<string>)

  /** The record as `run` starts it: pending, no timings, every other field unset. */
  function InitialRecord(query: string): RunRecord {
    RunRecord(query, Pending, map[], None, false, NoneValue, None, None)
  }

  /** What the record says about the stages of a question: which ran, what each produced, and why the run failed. */
  predicate Reports(r: RunRecord, tr: Trace) {
    && r.pyCode == Some(tr.plan.queryCode)
    && (Reached(tr) == 1 ==>
          r.status == Failed && r.error == Some(PlanningFailedPrefix + tr.plan.error.value)
          && !r.pySuccess && r.result == NoneValue && r.finalResponse == None)
    && (Reached(tr) == 2 ==>
          r.status == Failed && r.error == Some(ExecutionFailedPrefix + OptionText(tr.execution.error))
          && !r.pySuccess && r.result == tr.execution.result && r.finalResponse == None)
    && (Reached(tr) == 3 ==>
          r.status == Success && r.error == None && r.pySuccess && r.result == tr.execution.result
          && r.finalResponse == Some(tr.narrative.response))
  }

  /** `HealthDataPipeline.run`: the record is filled stage by stage. A stage failure is the
      `ValueError` the source raises and catches; its text becomes the error. Clock readings 0 and
      `2n + 1` bracket the whole run, readings `2n - 1` and `2n` the n-th stage. */
  method Run(st: Stages, query: string, clock: Clock) returns (r: RunRecord)
    ensures r.question == query && r.status != Pending
    ensures Reports(r, TraceOf(st, query))
    ensures TimesRun(r.timings, StagesReached(st, query), clock)
  {
    ghost var tr := TraceOf(st, query);
    r := InitialRecord(query);
    var totalStart := clock(0);
    var totalEnd: int;

    var stageStart := clock(1);
    var plan := st.plan(query);
    r := r.(timings := r.timings[PlanningKey := clock(2) - stageStart]);
    r := r.(pyCode := Some(plan.queryCode));
    if plan.error.Some? && plan.error.value != "" {
      r := r.(status := Failed, error := Some(PlanningFailedPrefix + plan.error.value));
      totalEnd := clock(3);
    } else {
      stageStart := clock(3);
      var execution := st.execute(r.pyCode.value);
      r := r.(timings := r.timings[ExecutionKey := clock(4) - stageStart]);
      r := r.(pySuccess := execution.success, result := execution.result);
      if !r.pySuccess {
        r := r.(status := Failed, error := Some(ExecutionFailedPrefix + OptionText(execution.error)));
        totalEnd := clock(5);
      } else {
        stageStart := clock(5);
        var narrative := st.narrate(query, execution, r.pyCode.value);
        r := r.(timings := r.timings[ReasoningKey := clock(6) - stageStart]);
        r := r.(finalResponse := Some(narrative.response));
        r := r.(status := Success);
        totalEnd := clock(7);
      }
    }
    r := r.(timings := r.timings[TotalKey := totalEnd - totalStart]);
  }

  // ---------------------------------------------------------------------------
  // The pipeline over the real components
  // ---------------------------------------------------------------------------

  /** The real planner's errors are never empty, so the truthiness test fails exactly the plans that carry an error. */
  lemma RealPlanFailedIff(c: Collaborators, query: string)
    ensures PlanFailed(RealStages(c).plan(query)) <==> PlanOf(c.provider, c.parse, c.schemaDump, query).error.Some?
  {
  }

  /** With the real components, a gateway failure during planning stops the run after planning, with the sentinel in the error. */
  lemma {:induction false} GatewayFailureStopsAtPlanning(c: Collaborators, query: string)
    requires Gateway.Failover(c.provider, Gateway.ModelsToTry, PlanMessages(c.schemaDump, query), None).Failed?
    ensures StagesReached(RealStages(c), query) == 1
    ensures StartsWith(RealStages(c).plan(query).error.value, GatewayFailureSentinel)
  {
    GatewayFailurePlan(c.provider, c.parse, c.schemaDump, query);
    FailureTextHasSentinel(Gateway.Failover(c.provider, Gateway.ModelsToTry, PlanMessages(c.schemaDump, query), None));
  }

  /** The planner accepts empty code and the executor refuses it: such a run fails at execution with the executor's message. */
  lemma EmptyPlanFailsAtExecution(c: Collaborators, query: string)
    requires PlanOf(c.provider, c.parse, c.schemaDump, query) == Plan("", AcceptedExplanation, None)
    ensures StagesReached(RealStages(c), query) == 2
    ensures RealStages(c).execute(RealStages(c).plan(query).queryCode).error == Some(NoCodeError)
  {
    assert RealStages(c).plan(query).queryCode == "";
    assert RealStages(c).execute("") == ExecutionOf("", c.run, c.df1, c.df2);
  }

  /** The narrative is not checked: when the narrating gateway call fails, the run still succeeds and reports the sentinel text. */
  lemma {:induction false} NarrativeNotChecked(c: Collaborators, query: string)
    requires !PlanFailed(RealStages(c).plan(query))
    requires RealStages(c).execute(RealStages(c).plan(query).queryCode).success
    requires var plan := RealStages(c).plan(query);
      Gateway.Failover(c.provider, Gateway.ModelsToTry,
        NarrativeMessages(query, RealStages(c).execute(plan.queryCode), plan.queryCode, c.render, c.show), None).Failed?
    ensures StagesReached(RealStages(c), query) == 3
    ensures var plan := RealStages(c).plan(query);
      StartsWith(RealStages(c).narrate(query, RealStages(c).execute(plan.queryCode), plan.queryCode).response,
        Gateway.FailurePrefix)
  {
    var plan := RealStages(c).plan(query);
    var m := NarrativeMessages(query, RealStages(c).execute(plan.queryCode), plan.queryCode, c.render, c.show);
    NarrativeFailurePassedThrough(c.provider, m);
  }
}
