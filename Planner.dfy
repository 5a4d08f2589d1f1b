/**
 * The plan builder `QueryPlanner.generate_plan` (src/core/planner.py): ask the gateway for
 * code, then decide between three outcomes: the gateway failed, the code was rejected by
 * the validator, or the code is accepted.
 *
 * The schema description is an opaque string (the JSON dump of the schema constants).
 */
module Planner {
  import opened Wrappers
  import opened Text
  import opened Validator
  import opened Gateway

  /** The plan dictionary: exactly the keys `query_code`, `explanation` and `error`. */
  datatype Plan = Plan(queryCode: string, explanation: string, error: Option<string>)

  /** The text the planner looks for at the start of the gateway's answer (no colon). */
  const GatewayFailureSentinel := "ERROR_LLM_GEN_FAILED"

  const GatewayFailedExplanation := "LLM Generation failed after all fallbacks."
  const RejectedExplanation := "Query generation failed safety/syntax checks."
  const AcceptedExplanation := "Generated pandas query based on schema and health thresholds."

  const PromptHead := "You are an expert Python Data Analyst.\nDATASET SCHEMAS:\n"
  const GuideHead := "\nHEALTH METRIC INTERPRETATION GUIDE:\n"
  /** The guide line for obesity; the loader's binning puts a BMI of exactly 30 in Overweight. */
  const ObeseGuide := "- \"Obese\": BMI >= 30."
  const PromptTail := "\nAVAILABLE DATAFRAMES:\n- df1 (Health Metrics)\n- df2 (Physical Activity)\nRULES:\n3. Variable 'result' must contain the final answer.\n4. Return ONLY the python code inside markdown blocks.\n"

  /** The system prompt of a plan request: it embeds the schema dump and the interpretation guide. */
  function SystemPrompt(schemaDump: string): (p: string)
    ensures Contains(p, schemaDump)
    ensures Contains(p, ObeseGuide)
  {
    var p := PromptHead + schemaDump + GuideHead + ObeseGuide + PromptTail;
    ContainsMiddle(PromptHead, schemaDump, GuideHead + ObeseGuide + PromptTail);
    assert p == PromptHead + schemaDump + (GuideHead + ObeseGuide + PromptTail);
    ContainsMiddle(PromptHead + schemaDump + GuideHead, ObeseGuide, PromptTail);
    p
  }

  /** The three-way decision over the gateway's answer. */
  function PlanFromResponse(response: string, parse: Parser): (p: Plan)
    ensures StartsWith(response, GatewayFailureSentinel) ==>
      p == Plan("", GatewayFailedExplanation, Some(response))
    ensures !StartsWith(response, GatewayFailureSentinel) ==>
      (p.error.None? <==> Validate(CleanCode(response), parse).isSafe)
    ensures p.error.Some? ==> p.queryCode == "" && |p.error.value| > 0
    ensures p.error.None? ==> p.queryCode == CleanCode(response) && Validate(p.queryCode, parse).isSafe
  {
    if StartsWith(response, GatewayFailureSentinel) then
      Plan("", GatewayFailedExplanation, Some(response))
    else
      var code := CleanCode(response);
      var verdict := Validate(code, parse);
      if !verdict.isSafe then Plan("", RejectedExplanation, Some(verdict.reason))
      else Plan(code, AcceptedExplanation, None)
  }

  /** The messages of the one gateway call a plan makes: the schema prompt and the user's question. */
  function PlanMessages(schemaDump: string, query: string): (m: Messages)
    ensures m.user == query
    ensures Contains(m.system, schemaDump)
  {
    Messages(SystemPrompt(schemaDump), query)
  }

  /** The plan for `query`. */
  function PlanOf(provider: Provider, parse: Parser, schemaDump: string, query: string): Plan {
    PlanFromResponse(GenerateText(provider, PlanMessages(schemaDump, query)), parse)
  }

  /** `QueryPlanner.generate_plan`: one gateway call, then the decision. */
  method GeneratePlan(provider: Provider, parse: Parser, schemaDump: string, query: string) returns (plan: Plan)
    ensures plan == PlanOf(provider, parse, schemaDump, query)
    ensures plan.error.Some? ==> plan.queryCode == ""
    ensures plan.error.None? ==> Validate(plan.queryCode, parse).isSafe
  {
    var response := Generate(provider, PlanMessages(schemaDump, query));
    plan := PlanFromResponse(response, parse);
  }

  // ---------------------------------------------------------------------------
  // What a plan means
  // ---------------------------------------------------------------------------

  /** A plan is accepted exactly when the gateway answered without the sentinel and the extracted code passed validation. */
  lemma PlanAcceptedIff(response: string, parse: Parser)
    ensures PlanFromResponse(response, parse).error.None? <==>
      !StartsWith(response, GatewayFailureSentinel) && Validate(CleanCode(response), parse).isSafe
  {
  }

  /** A rejected plan reports the validator's reason verbatim. */
  lemma RejectedPlanCarriesReason(response: string, parse: Parser)
    requires !StartsWith(response, GatewayFailureSentinel)
    requires !Validate(CleanCode(response), parse).isSafe
    ensures PlanFromResponse(response, parse) ==
      Plan("", RejectedExplanation, Some(Validate(CleanCode(response), parse).reason))
  {
  }

  /** A reply that fails to parse gives a plan whose error is the syntax-error reason. */
  lemma UnparsableCodeRejected(response: string, parse: Parser)
    requires !StartsWith(response, GatewayFailureSentinel)
    requires parse(CleanCode(response)).None?
    ensures PlanFromResponse(response, parse).error == Some(SyntaxErrorReason)
  {
  }

  /** Every failure answer of the gateway starts with the planner's sentinel. */
  lemma FailureTextHasSentinel(o: Outcome)
    requires o.Failed?
    ensures StartsWith(Render(o), GatewayFailureSentinel)
  {
    assert Render(o)[..|GatewayFailureSentinel|] == FailurePrefix[..|GatewayFailureSentinel|];
  }

  /** When the gateway fails, the plan carries its failure text verbatim, and neither extraction nor validation matters. */
  lemma GatewayFailurePlan(provider: Provider, parse: Parser, schemaDump: string, query: string)
    requires Failover(provider, ModelsToTry, PlanMessages(schemaDump, query), None).Failed?
    ensures PlanOf(provider, parse, schemaDump, query) ==
      Plan("", GatewayFailedExplanation, Some(GenerateText(provider, PlanMessages(schemaDump, query))))
  {
    FailureTextHasSentinel(Failover(provider, ModelsToTry, PlanMessages(schemaDump, query), None));
  }

  /** A model whose own text starts with the sentinel is treated as a gateway failure: the check is textual. */
  lemma SentinelInCompletionIsFailure(provider: Provider, parse: Parser, schemaDump: string, query: string)
    requires Failover(provider, ModelsToTry, PlanMessages(schemaDump, query), None).Text?
    requires StartsWith(Failover(provider, ModelsToTry, PlanMessages(schemaDump, query), None).content, GatewayFailureSentinel)
    ensures PlanOf(provider, parse, schemaDump, query).error.Some?
    ensures PlanOf(provider, parse, schemaDump, query).explanation == GatewayFailedExplanation
  {
  }

  /** The planner does not refuse empty code: a reply that cleans to nothing is an accepted plan with empty code. */
  lemma EmptyCodeAccepted(response: string, parse: Parser)
    requires !StartsWith(response, GatewayFailureSentinel)
    requires CleanCode(response) == "" && parse("") == Some(Other([]))
    ensures PlanFromResponse(response, parse) == Plan("", AcceptedExplanation, None)
  {
    EmptyCodeIsSafe(parse);
  }
}
