# Health Data Analyst Agent — a Dafny model of the query pipeline

The agent answers a health question about two patient tables in five steps:

1. It asks a language model, through a gateway that fails over between models, for a pandas snippet.
2. It extracts the snippet from the model's markdown reply.
3. It vets the snippet against deny-lists of imports and calls.
4. It runs the snippet in a prepared namespace.
5. It asks the model again to narrate the result.

One orchestrator fills a result record stage by stage and times each stage. An evaluator scores answers. A loader adds a BMI category column to a table and checks the join key.

This project models the decision and shaping logic around the collaborators. Each collaborator becomes a parameter:

- **Chat completion provider:** a function from a request to either a completion or an error message.
- **`ast.parse`:** a function from code to an optional syntax tree.
- **`exec`:** a function from code and namespace to either the namespace as the code left it or a raised exception with its type, message and traceback.
- **pandas' `to_string` and Python's `str`:** renderers from values to text.
- **`time.perf_counter`:** a monotone integer clock.
- **ROUGE and semantic-similarity scorers:** functions.

Modules, one per component:

| module | component |
|---|---|
| `Wrappers` | `Option`, and `Checked` (pass or fail with a message) |
| `Text` | the Python `str` operations the core uses: `isspace`, `strip`, `lower`/`upper` (ASCII letters), `in`, `startswith`, `split()`, `str(int)` |
| `Validator` | `QueryValidator.validate` (breadth-first `ast.walk` and the deny-lists) and `QueryValidator.clean_code` (the fenced-block regexes) |
| `Gateway` | `GroqClient.generate`, the failover loop (both copies of the client) |
| `Planner` | `QueryPlanner.generate_plan` |
| `Executor` | `QueryExecutor.execute` and `_process_result` |
| `Reasoning` | `ReasoningEngine._format_result_for_llm` and `analyze_result` (both copies) |
| `Pipeline` | `HealthDataPipeline.run`, the result dictionary as a record value that the method updates stage by stage |
| `Evaluator` | the G-Eval judge, automated checks, human-review prompt and evaluation report |
| `Loader` | `DataLoader._feature_engineering` (BMI binning, in place on a table object) and `_validate_structure` |

Ten members are methods. Seven of them only call their collaborators and combine the results, and each is proved equal to the function that specifies it: `Planner.GeneratePlan`, `Executor.Execute`, `Reasoning.AnalyzeResult`, `Evaluator.ScoreDimension`, `Evaluator.RunGEval`, `Evaluator.Evaluate` and `Loader.FeatureEngineering` (the last updates a table object in place). The other three are the ones whose source loops or updates variables stage by stage:

- **`Gateway.Generate`** (the failover loop) is proved equal to the recursive definition `Gateway.Failover`.
- **`Evaluator.ScoreDimensions`** (the loop behind `run_g_eval`) is proved to score exactly the listed dimensions.
- **`Pipeline.Run`** fills its result record stage by stage. It is proved to report what the stages produced (`Pipeline.Reports`) and to time exactly the stages that started (`Pipeline.TimesRun`).

The lemmas about these functions state what the source promises.

Where the code and its documentation disagree, the model follows the code:

- **Imports:** for `from X import Y` only the alias `Y` is checked, never the module `X`.
- **`ALLOWED_MODULES`:** it is never consulted.
- **Empty code:**
  - Empty code parses and is accepted by the validator and the planner.
  - The executor refuses it: "No query code provided".
- **Narrative:** it is never checked. A gateway failure during narration still gives a `success` record.
- **Timings:** after a planning failure the `execution` timing key is absent, not zero.
- **Obesity threshold:** the planner's prompt calls a BMI of 30 or more obese. The loader's right-closed bins put exactly 30 in Overweight.
- **`analyze_result`:** it returns only `response`, and the documented `insights` key is never produced.

## Model

| member | source | states |
|---|---|---|
| Validator.Validate | hf-space/src/utils/validator.py:20-43 | code that fails to parse gives `(False, "Syntax Error in generated code")`; a safe verdict carries exactly "Code is safe"; a rejection carries a non-empty reason |
| Validator.FirstViolation | hf-space/src/utils/validator.py:25-41 | no violation exactly when no node in the sequence violates; otherwise the reason of the first violating node, with no violating node before it |
| Validator.FirstBlockedAlias | hf-space/src/utils/validator.py:27-30 | the reason `"Blocked import: " + alias` of the first alias whose first dotted component is blocked; none exactly when no alias is blocked |
| Validator.FirstComponent | hf-space/src/utils/validator.py:29 | `name.split('.')[0]`: a dot-free prefix of the name, followed by a dot when shorter than the name |
| Validator.Walk | hf-space/src/utils/validator.py:25 | `ast.walk` from a queue of trees: take the front node, yield it, queue its children at the back |
| Validator.NodeViolation | hf-space/src/utils/validator.py:27-41 | only imports and calls can break the policy |
| Validator.ViolationKinds | hf-space/src/utils/validator.py:27-41 | an import's reason starts with "Blocked import: ", a call's with "Blocked function call: " or "Blocked attribute call on: " |
| Validator.WalkLength | hf-space/src/utils/validator.py:25 | the walk yields exactly as many entries as there are nodes in the queued trees |
| Validator.WalkComplete | hf-space/src/utils/validator.py:25 | the breadth-first walk visits every node below every queued tree |
| Validator.WalkSound | hf-space/src/utils/validator.py:25 | the walk visits only nodes below the queued trees |
| Validator.ValidateSafeIff | hf-space/src/utils/validator.py:25-43 | parsed code is safe exactly when no node anywhere in its tree violates the policy |
| Validator.ValidateReportsFirstInWalk | hf-space/src/utils/validator.py:25-41 | a rejection reports the first violating node in walk order |
| Validator.BlockedImportRejected | hf-space/src/utils/validator.py:27-30 | an `Import`/`ImportFrom` anywhere whose alias has a blocked first component rejects the code |
| Validator.BlockedCallRejected | hf-space/src/utils/validator.py:33-36 | a call of a bare blocked name anywhere rejects the code |
| Validator.BlockedAttributeCallRejected | hf-space/src/utils/validator.py:38-41 | a call `m.attr(...)` anywhere, with `m` a bare blocked module name, rejects the code |
| Validator.EmptyCodeIsSafe | hf-space/src/utils/validator.py:20-43 | the empty string, which parses to an empty module, is accepted as "Code is safe" |
| Validator.ImportReportedBeforeAttributeCall | hf-space/src/utils/validator.py:25-41 | `import os; result = os.system(...)` is rejected with "Blocked import: os", the node the walk meets first |
| Validator.FromImportOfBlockedModuleAccepted | hf-space/src/utils/validator.py:27-36 | `from os import system; system('ls')` is accepted: the module of a from-import is never inspected |
| Validator.DeepReceiverChainAccepted | hf-space/src/utils/validator.py:38-41 | `os.path.join(...)` is accepted: only a bare-name receiver is checked |
| Validator.LibraryAttributeCallAccepted | hf-space/src/utils/validator.py:38-43 | `result = np.mean(df1['BMI'])` is accepted |
| Validator.OpenCallRejected | hf-space/src/utils/validator.py:33-36 | a `with open(...)` block is rejected for its call to `open` |
| Validator.CleanTreeAccepted | hf-space/src/utils/validator.py:25-43 | a tree in which no node violates is accepted with exactly "Code is safe" |
| Validator.CleanCode | hf-space/src/utils/validator.py:46-57 | the stripped body of the first python block, else of the first bare block, else the whole reply stripped; never longer than the reply |
| Validator.FencedSpanSpec | hf-space/src/utils/validator.py:48-55 | the match of `opener\s*(.*?)```` with DOTALL: the leftmost opener followed by a closing fence; the group starts past the blanks after it and ends at the first fence after that; no match exactly when no opener is followed by a fence |
| Validator.SkipSpaces | hf-space/src/utils/validator.py:48-55 | the greedy `\s*`: only blanks are skipped, and the next character is not one |
| Validator.ExtractsSingleBlock | hf-space/src/utils/validator.py:48-50 | a reply holding one ```` ```python ```` block, with no backtick before it or inside it, gives that block's body stripped |
| Validator.ExtractsBareBlock | hf-space/src/utils/validator.py:53-55 | a reply holding one bare ```` ``` ```` block, with no other backtick and a body not starting with `python`, gives that block's body stripped |
| Validator.UnfencedReplyStripped | hf-space/src/utils/validator.py:57 | a reply without a fence is returned stripped |
| Validator.BlockHasNoFence | hf-space/src/utils/validator.py:48-55 | the group of a match never contains a fence |
| Validator.CleanCodeHasNoFence | hf-space/src/utils/validator.py:46-57 | on input holding a fenced block, the extracted code contains no fence |
| Validator.SliceHasNoBlock | hf-space/src/utils/validator.py:48-55 | a slice of text that holds no block holds none either |
| Validator.CleanCodeIdempotent | hf-space/src/utils/validator.py:46-57 | `clean_code(clean_code(x)) == clean_code(x)` |
| Text.StripSpec | hf-space/src/utils/validator.py:48-57 | `str.strip()`: the slice of the input left once blanks are cut from both ends (everything cut is blank), with no blank at either end itself; empty exactly when the input is all blanks |
| Text.StripIdempotent | hf-space/src/utils/validator.py:57 | stripping twice is stripping once |
| Text.StripSkipsLeadingSpaces | hf-space/src/utils/validator.py:48-50 | blanks in front do not change the stripped text |
| Text.IndexOf | hf-space/src/utils/validator.py:48 | `s.find(pat, from)`: the first occurrence at or after `from`, none exactly when there is no occurrence there |
| Text.ContainsIff | src/utils/llm_client.py:54 | `pat in s` holds exactly when `pat` occurs at some index |
| Text.Words | src/utils/evaluator.py:86 | `split()`: non-empty words without blanks |
| Text.WordsCountRuns | src/utils/evaluator.py:86 | the number of words is the number of maximal non-blank runs |
| Text.Lower | src/utils/llm_client.py:39 | `lower()` character by character, length kept |
| Gateway.Generate | src/utils/llm_client.py:16-62 | the loop over the configured models returns exactly the text of the recursive failover definition |
| Gateway.IsFailoverError | src/utils/llm_client.py:39-54 | an error triggers failover when its lowercased message contains one of the seven signatures |
| Gateway.FailoverErrorIgnoresCase | src/utils/llm_client.py:39 | the test lowercases first, so a message and its lowercased copy are classified alike |
| Gateway.Failover | src/utils/llm_client.py:25-62 | the failover loop as a recursive definition: the first model's completion, the next model after an error with a trigger, the error otherwise, the last error once the list is used up |
| Gateway.TextComesFromAModel | src/utils/llm_client.py:27-36 | a text outcome is the completion of some model in the list |
| Gateway.Attempted | src/utils/llm_client.py:25-62 | the models the loop calls: never more than the list, and none exactly when the list is empty |
| Gateway.AttemptedExactly | src/utils/llm_client.py:25-60 | the k-th model is attempted exactly when every earlier model failed with a failover trigger |
| Gateway.AttemptedIsPrefix | src/utils/llm_client.py:25 | the attempted models are a prefix of the list, in order and each at most once, and non-empty when the list is |
| Gateway.ConfiguredAttempts | config/settings.py:13-18 | four distinct models are configured, and between one and four are attempted |
| Gateway.FirstSuccessReturned | src/utils/llm_client.py:27-36 | the first completion after failover errors is returned and no later model is called |
| Gateway.NonFailoverErrorStops | src/utils/llm_client.py:58-60 | an error with no trigger stops the loop with that error; no later model is called |
| Gateway.AllFailoverExhausts | src/utils/llm_client.py:39-56 | when every model fails with a trigger, all are attempted and the last model's error is kept |
| Gateway.OutcomeFromLastAttempt | src/utils/llm_client.py:36-62 | the outcome is decided by the last model attempted: its text, or the failure with its error |
| Gateway.FailedCarriesError | src/utils/llm_client.py:38-62 | a failure carries no error exactly when no model was configured |
| Gateway.FailureTextShape | src/utils/llm_client.py:62 | a failure text is `"ERROR_LLM_GEN_FAILED: "` followed by `str(last_error)` |
| Gateway.ConfiguredExhaustion | hf-space/src/utils/llm_client.py:30-67 | when all four configured models fail with triggers, the text ends with the error of "llama-3.2-11b-vision-preview" |
| Planner.SystemPrompt | src/core/planner.py:20-48 | the system prompt embeds the schema dump and the obesity guide line |
| Planner.PlanMessages | src/core/planner.py:50 | the one gateway request carries the user's question as user prompt and the schema prompt as system message |
| Planner.PlanFromResponse | src/core/planner.py:53-77 | the sentinel gives empty code, the failure explanation and the text verbatim; otherwise no error exactly when the cleaned code validates; an error implies empty code; no error implies the code is the cleaned reply and validates |
| Planner.GeneratePlan | src/core/planner.py:16-77 | one gateway call, then the decision; an error implies empty code; no error implies validated code |
| Planner.PlanAcceptedIff | src/core/planner.py:53-77 | a plan is accepted exactly when the reply lacks the sentinel and its cleaned code validates |
| Planner.RejectedPlanCarriesReason | src/core/planner.py:64-71 | a rejected plan has empty code and the validator's reason verbatim |
| Planner.UnparsableCodeRejected | src/core/planner.py:61-71 | code that fails to parse gives the syntax-error reason as the plan's error |
| Planner.FailureTextHasSentinel | src/core/planner.py:53 | every gateway failure text starts with the planner's sentinel |
| Planner.GatewayFailurePlan | src/core/planner.py:50-58 | a gateway failure gives the failure plan with the gateway text verbatim |
| Planner.SentinelInCompletionIsFailure | src/core/planner.py:53-58 | a completion that itself starts with the sentinel is treated as a gateway failure |
| Planner.EmptyCodeAccepted | src/core/planner.py:61-77 | a reply that cleans to nothing is an accepted plan with empty code |
| Executor.InitialNamespace | src/core/executor.py:40-46 | the namespace holds exactly `df1`, `df2`, `pd`, `np` and `result = None` |
| Executor.ResultOf | src/core/executor.py:52 | `scope.get("result")`: the slot's value, or `None` without it |
| Executor.ProcessResult | src/core/executor.py:72-84 | every value is passed through unchanged |
| Executor.ExecutionOf | src/core/executor.py:36-70 | empty code gives the no-code outcome with no traceback; success exactly when the code is non-empty and runs normally; success has no error; failure has result `None` and a non-empty error |
| Executor.Execute | src/core/executor.py:22-70 | the method's outcome is the outcome function's |
| Executor.EmptyCodeRunsNothing | src/core/executor.py:36-37 | the outcome for empty code does not depend on the interpreter, and has no traceback |
| Executor.NormalRunReportsSlot | src/core/executor.py:50-61 | a normal run reports the final value of the `result` slot |
| Executor.UnassignedResultSucceeds | src/core/executor.py:45-61 | code that runs normally and leaves the `result` slot unbound or `None` succeeds with `None`, no error and no traceback |
| Executor.RaisedErrorFormat | src/core/executor.py:63-70 | an exception gives `"<TypeName>: <message>"`, result `None` and its traceback |
| Executor.TablesNotTruncated | src/core/executor.py:72-84 | a table result reaches the caller whole |
| Reasoning.FormatResult | src/core/reasoning.py:49-64 | `_format_result_for_llm`: "Empty DataFrame" for an empty table, the first 10 entries plus the total-count footer beyond 20 entries, the whole render otherwise, and `str` for any other value |
| Reasoning.RenderedPart | src/core/reasoning.py:55-62 | the renderer gets the value itself up to 20 entries, its first 10 beyond that |
| Reasoning.FormatIsHeadPlusFooter | src/core/reasoning.py:49-62 | a non-empty table or a series formats as the render of its leading part, at most 20 entries, plus the total-count footer exactly when it was cut |
| Reasoning.EmptyFrameFormat | src/core/reasoning.py:52-53 | an empty table formats to "Empty DataFrame" |
| Reasoning.TruncationBoundary | hf-space/src/core/reasoning.py:72-74 | 20 rows are rendered whole; 21 rows give the first 10 plus "\n... (Total 21 rows)" |
| Reasoning.EmptySeriesRendered | src/core/reasoning.py:59-62 | an empty series is not special-cased |
| Reasoning.OtherValuesShown | hf-space/src/core/reasoning.py:81 | any other value formats to `str(result)` |
| Reasoning.ReasoningPrompt | src/core/reasoning.py:25-41 | the narrative prompt embeds the question, the code and the formatted result |
| Reasoning.NarrativeMessages | src/core/reasoning.py:20-43 | the narrative request uses the analyst system message and embeds the formatted result |
| Reasoning.AnalyzeResult | hf-space/src/core/reasoning.py:52-56 | the only key of the answer, `response`, is the gateway text unchanged |
| Reasoning.NarrativeFailurePassedThrough | src/core/reasoning.py:43-47 | a gateway failure reaches the caller as a response starting with the failure prefix |
| Pipeline.StagesReached | src/core/pipeline.py:38-61 | between one and three stages start |
| Pipeline.StagesReachedIsReached | src/core/pipeline.py:38-61 | the count read off the stages is the count of their trace |
| Pipeline.StageKeys | src/core/pipeline.py:39-58 | the stage timing keys form a prefix of planning, execution, reasoning, and never include total |
| Pipeline.Reached | src/core/pipeline.py:42-52 | one stage exactly when the plan carries a non-empty error; three exactly when it does not and the execution succeeds |
| Pipeline.Reports | src/core/pipeline.py:18-71 | what a record says of a trace: the plan's code; after a planning failure "Planning failed: " + the error and nothing executed; after an execution failure "Execution failed: " + the executor error and its result; after success no error, `py_success` True, the result and the narrative's response |
| Pipeline.TimesRun | src/core/pipeline.py:18-71 | the timings of a run that starts n stages: exactly their keys plus `total`, each stage timed by its own pair of clock readings, `total` from the first reading to the last |
| Pipeline.Run | src/core/pipeline.py:18-71 | the record keeps the question and is never pending; a planning failure gives "Planning failed: " + the plan error with nothing executed; an execution failure gives "Execution failed: " + the executor error with `py_success` False and the executor's result; success has no error, `py_success` True and the narrative's response; the timings hold exactly the started stages, each timed by its own pair of clock readings, plus `total` from the first reading to the last |
| Pipeline.RunTimingsSound | src/core/pipeline.py:33-69 | with a clock that never goes backwards, no timing is negative and the stage timings sum to at most `total` |
| Pipeline.RealPlanFailedIff | src/core/pipeline.py:42 | with the real planner, the truthiness test fails exactly the plans that carry an error |
| Pipeline.GatewayFailureStopsAtPlanning | src/core/pipeline.py:38-43 | a gateway failure during planning stops the run after planning, with the sentinel in the error |
| Pipeline.EmptyPlanFailsAtExecution | src/core/pipeline.py:46-53 | an accepted empty plan fails at execution with "No query code provided" |
| Pipeline.NarrativeNotChecked | src/core/pipeline.py:55-61 | a failed narration still gives a successful run whose response is the failure text |
| Evaluator.FirstScoreDigit | src/utils/evaluator.py:54 | `re.search(r'([1-5])')`: the first position holding a digit from 1 to 5 |
| Evaluator.JudgeScore | src/utils/evaluator.py:54-55 | the score is in 1..5: the first digit from 1 to 5, or 3 when there is none |
| Evaluator.JudgeScoreSkipsPrefix | src/utils/evaluator.py:54-55 | text without such a digit in front does not change the score |
| Evaluator.GatewayFailureIsScored | src/utils/evaluator.py:53-55 | a failed judge call is scored from the digits of its error text |
| Evaluator.Criterion | src/utils/evaluator.py:45-51 | `prompts.get(dimension, '')`: the fixed criterion text of each of the four dimensions, the empty text for any other |
| Evaluator.ScoreDimension | src/utils/evaluator.py:44-55 | the method's score is the dimension's score: the first digit 1-5 of the judge's reply, else 3 |
| Evaluator.JudgeMessages | src/utils/evaluator.py:51-52 | the judge request names the upper-cased dimension and its criterion, and embeds the question and the response |
| Evaluator.DimensionScore | src/utils/evaluator.py:44-55 | every dimension score is in 1..5 |
| Evaluator.ScoreDimensions | src/utils/evaluator.py:39-42 | the loop scores exactly the listed dimensions, each by its judge call |
| Evaluator.RunGEval | src/utils/evaluator.py:37-42 | exactly the four dimensions are scored, each in 1..5 |
| Evaluator.FourScores | src/utils/evaluator.py:38 | a score map over the four dimensions has four entries |
| Evaluator.RunAutomatedChecks | src/utils/evaluator.py:82-87 | `has_disclaimer` exactly when the lowercased response contains a disclaimer word; `word_count` is the number of maximal non-blank runs |
| Evaluator.HumanEvaluationPrompt | src/utils/evaluator.py:79-80 | the prompt starts with the review header and embeds the question and the response |
| Evaluator.ReferenceScores | src/utils/evaluator.py:28-29 | without a reference both entries are "N/A (No reference)"; with one they are the scorers' values |
| Evaluator.NoReferenceIgnoresScorers | src/utils/evaluator.py:28-29 | without a reference the scorers play no part |
| Evaluator.Evaluate | src/utils/evaluator.py:22-33 | the report holds exactly the four dimensions, each with its judge score in 1..5, the reference entries, the automated checks and the human prompt |
| Loader.Cut | src/data/loader.py:43-45 | `pd.cut` with right-closed bins: the bin `(e[i], e[i+1]]` holding the value, none when no bin does |
| Loader.CategoryOf | src/data/loader.py:43-45 | the label of the bin holding the value; a category only for values in (0, 100] |
| Loader.CategoryThresholds | src/data/loader.py:43-45 | (0,18.5] Underweight, (18.5,25] Normal, (25,30] Overweight, (30,100] Obese, nothing outside (0,100] |
| Loader.CategoryEdges | src/data/loader.py:43-45 | 18.5 is Underweight, 25 Normal, 30 Overweight, 100 Obese, 0 uncategorised |
| Loader.CategoryMonotone | src/data/loader.py:43-44 | over (0,100] every value has a category and a larger value never has a lower one |
| Loader.Categorized | src/data/loader.py:45 | one category cell per BMI cell; a missing or out-of-range BMI gives a missing category |
| Loader.FeatureEngineering | src/data/loader.py:38-46 | with a BMI column the category column is set in place (appended when new); without one the table is unchanged; the same table is returned |
| Loader.Table.constructor | src/data/loader.py:39-41 | a table built from matching names and columns keeps them and satisfies the table invariant |
| Loader.ValidateStructure | src/data/loader.py:48-55 | passes exactly when both tables have `Patient_Number`; otherwise the error names Dataset 1 when it lacks the key, else Dataset 2 |

## Left out

- I/O is outside the model: the Groq network client, CSV loading, the `lru_cache` on loading, and the schema module. The schema dump is an opaque string.
- The singleton `__new__` of the client is left out. It shares one client and has no effect on results.
- The provider is a deterministic function of the request. Temperature-driven variation between calls is not modelled.
- A completion whose content is `None` is not modelled: completions are always text.
- Log lines, `print`s and the pipeline's `verbose` traceback printing are left out. They have no effect on results.
- `str.lower`/`str.upper` are modelled on ASCII letters only. Whitespace is the set of characters `str.isspace` accepts.
- `ast.parse` is a parameter that either fails with a `SyntaxError` or gives a tree. The tree keeps `Import`, `ImportFrom`, `Call`, `Name` and `Attribute`; every other node is `Other` with its children. The model assumes `ast.walk` yields children in the order the tree lists them.
- `exec`, pandas and numpy are left out; `exec` is a parameter. The model makes no sandbox claim:
  - Python inserts `__builtins__` into the empty globals.
  - Only `Exception` subclasses are caught.
  - The tables are shared objects that a snippet can mutate in place.
- Executor.Execute: tables are values, so "never reassigns `self.df1`/`self.df2`" holds by construction, and in-place mutation of the shared tables by the snippet is not captured.
- Table rendering (`to_string`) and `str` are parameters. `len` of a table is its number of rows.
- Real-valued millisecond timings (the `* 1000` of seconds) are replaced by differences of an integer clock; the timing bounds assume the clock never goes backwards.
- Exceptions raised inside the planner or the narrator and caught by `run` are not modelled: the components are total functions.
- Pipeline.Run: it is stated over any three stage functions (`Stages`). The real components are connected by `RealStages` and the lemmas about it, and the per-run guarantees for the real components hold through that instance.
- Planner.GeneratePlan: "the gateway is called exactly once" is visible in its body but not stated as a contract, because calls are not observable in the model.
- Full prompt wording is abbreviated. Only what each prompt embeds is stated.
- `run_rouge` (a foreign library) and `run_semantic_proxy` (float parsing of a model reply) are scorer parameters.
- The `pipeline_result` argument of `evaluate` is unused by the source and does not appear.
- Dictionary key order of the record and the reports is not modelled.
- Loader.FeatureEngineering: it requires the BMI column to hold numbers or missing values, where `pd.cut` would raise on other content.
- The Streamlit UI, the FastAPI endpoints and the evaluation script are outside the core.
