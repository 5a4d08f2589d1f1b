/**
 * The model gateway `GroqClient.generate` (src/utils/llm_client.py, and the copy in
 * hf-space/src/utils/llm_client.py that differs only in what it logs): try the primary
 * model, then each fallback, until one completes; move on only after an error whose
 * message carries a failover signature; answer with a textual sentinel otherwise.
 *
 * The provider's completion call is a parameter: for each request it either completes
 * with some text or fails with an error message (`str(e)` of the exception).
 */
module Gateway {
  import opened Wrappers
  import opened Text

  /** The system and user messages of one chat completion. */
  datatype Messages = Messages(system: string, user: string)

  datatype Request = Request(model: string, messages: Messages, temperature: real, maxTokens: nat)

  datatype Reply = Completion(content: string) | ProviderError(message: string)

  type Provider = Request -> Reply

  const PrimaryModel := "llama-3.3-70b-versatile"
  const FallbackModels := ["llama-3.1-8b-instant", "mixtral-8x7b-32768", "llama-3.2-11b-vision-preview"]
  const ModelsToTry: seq<string> := [PrimaryModel] + FallbackModels
  const Temperature: real := 0.1
  const MaxTokens: nat := 800
  const DefaultSystemMessage := "You are a helpful assistant."

  const FailoverTriggers: seq<string> :=
    ["rate_limit", "429", "decommissioned", "not_found", "model_not_found", "503", "service_unavailable"]

  /** The sentinel that starts every failure answer. */
  const FailurePrefix := "ERROR_LLM_GEN_FAILED: "

  /** An error is worth retrying on the next model when its lowercased message carries a trigger. */
  predicate IsFailoverError(message: string) {
    ContainsAny(Lower(message), FailoverTriggers)
  }

  /** The test ignores case: a message and its lowercased copy are classified alike. */
  lemma FailoverErrorIgnoresCase(message: string)
    ensures IsFailoverError(Lower(message)) == IsFailoverError(message)
  {
    assert Lower(Lower(message)) == Lower(message);
  }

  function Ask(provider: Provider, model: string, m: Messages): Reply {
    provider(Request(model, m, Temperature, MaxTokens))
  }

  /** The outcome of the failover loop: some model's text, or the last error seen (`None` if no model was tried). */
  datatype Outcome = Text(content: string) | Failed(lastError: Option<string>)

  /** The text `generate` returns for an outcome. */
  function Render(o: Outcome): string {
    match o
    case Text(c) => c
    case Failed(e) => FailurePrefix + OptionText(e)
  }

  /** The failover loop over `models`, as a recursive definition. */
  function Failover(provider: Provider, models: seq<string>, m: Messages, lastError: Option<string>): Outcome
    decreases |models|
  {
    if models == [] then Failed(lastError)
    else
      match Ask(provider, models[0], m)
      case Completion(c) => Text(c)
      case ProviderError(e) =>
        if IsFailoverError(e) then Failover(provider, models[1..], m, Some(e)) else Failed(Some(e))
  }

  /** The models the loop actually calls, in order. */
  function Attempted(provider: Provider, models: seq<string>, m: Messages): (a: seq<string>)
    ensures |a| <= |models|
    ensures a == [] <==> models == []
    decreases |models|
  {
    if models == [] then []
    else
      match Ask(provider, models[0], m)
      case Completion(_) => [models[0]]
      case ProviderError(e) =>
        if IsFailoverError(e) then [models[0]] + Attempted(provider, models[1..], m) else [models[0]]
  }

  /** The text `generate(prompt, system_message)` returns. */
  function GenerateText(provider: Provider, m: Messages): string {
    Render(Failover(provider, ModelsToTry, m, None))
  }

  /** `GroqClient.generate`: the loop over the configured models. It never fails; a failure is a sentinel text. */
  method Generate(provider: Provider, m: Messages) returns (text: string)
    ensures text == GenerateText(provider, m)
  {
    var models := ModelsToTry;
    var lastError: Option<string> := None;
    var i := 0;
    var stopped := false;
    while i < |models| && !stopped
      invariant 0 <= i <= |models|
      invariant stopped ==> lastError.Some? && Failover(provider, models, m, None) == Failed(lastError)
      invariant !stopped ==> Failover(provider, models, m, None) == Failover(provider, models[i..], m, lastError)
      decreases |models| - i, if stopped then 0 else 1
    {
      var reply := Ask(provider, models[i], m);
      match reply {
        case Completion(content) =>
          return content;
        case ProviderError(e) =>
          lastError := Some(e);
          if IsFailoverError(e) {
            assert models[i..][1..] == models[i + 1..];
            i := i + 1;
          } else {
            stopped := true;
          }
      }
    }
    text := FailurePrefix + OptionText(lastError);
  }

  // ---------------------------------------------------------------------------
  // What the loop guarantees
  // ---------------------------------------------------------------------------

  /** A model is attempted exactly when every model before it failed with a failover signature. */
  lemma {:induction false} AttemptedExactly(provider: Provider, models: seq<string>, m: Messages, k: nat)
    requires k < |models|
    decreases |models|
    ensures k < |Attempted(provider, models, m)| <==>
      forall j :: 0 <= j < k ==> Ask(provider, models[j], m).ProviderError? && IsFailoverError(Ask(provider, models[j], m).message)
  {
    if k > 0 {
      AttemptedIsPrefix(provider, models[1..], m);
      AttemptedExactly(provider, models[1..], m, k - 1);
      assert forall j :: 1 <= j < k ==> models[j] == models[1..][j - 1];
    }
  }

  /** The attempted models are a prefix of the configured ones: tried in order, each at most once. */
  lemma {:induction false} AttemptedIsPrefix(provider: Provider, models: seq<string>, m: Messages)
    decreases |models|
    ensures var a := Attempted(provider, models, m); |a| <= |models| && a == models[..|a|]
    ensures models != [] ==> |Attempted(provider, models, m)| >= 1
  {
    if models != [] {
      AttemptedIsPrefix(provider, models[1..], m);
    }
  }

  /** The outcome is decided by the last attempted model: its completion, or its error. */
  lemma {:induction false} OutcomeFromLastAttempt(provider: Provider, models: seq<string>, m: Messages, lastError: Option<string>)
    requires models != []
    decreases |models|
    ensures var a := Attempted(provider, models, m);
      |a| >= 1 &&
      match Ask(provider, a[|a| - 1], m)
      case Completion(c) => Failover(provider, models, m, lastError) == Text(c)
      case ProviderError(e) => Failover(provider, models, m, lastError) == Failed(Some(e))
  {
    var a := Attempted(provider, models, m);
    match Ask(provider, models[0], m)
    case Completion(_) =>
      assert a == [models[0]];
    case ProviderError(e) =>
      if !IsFailoverError(e) {
        assert a == [models[0]];
      } else {
        var rest := models[1..];
        FailoverStep(provider, models, m, lastError);
        if rest == [] {
          assert a == [models[0]];
        } else {
          OutcomeFromLastAttempt(provider, rest, m, Some(e));
          var b := Attempted(provider, rest, m);
          assert a == [models[0]] + b;
          assert a[|a| - 1] == b[|b| - 1];
        }
      }
  }

  /** A text outcome is the completion of some model in the list: the loop never makes text up. */
  lemma {:induction false} TextComesFromAModel(provider: Provider, models: seq<string>, m: Messages, lastError: Option<string>)
    decreases |models|
    ensures Failover(provider, models, m, lastError).Text? ==> exists k :: (0 <= k < |models|
      && Ask(provider, models[k], m) == Completion(Failover(provider, models, m, lastError).content))
  {
    if models != [] && Ask(provider, models[0], m).ProviderError? && IsFailoverError(Ask(provider, models[0], m).message) {
      var rest := models[1..];
      FailoverStep(provider, models, m, lastError);
      TextComesFromAModel(provider, rest, m, Some(Ask(provider, models[0], m).message));
      if Failover(provider, models, m, lastError).Text? {
        var k :| 0 <= k < |rest| && Ask(provider, rest[k], m) == Completion(Failover(provider, models, m, lastError).content);
        assert rest[k] == models[k + 1];
      }
    }
  }

  /** With an empty list nothing is tried and the error is `None`; otherwise a failure always carries an error. */
  lemma FailedCarriesError(provider: Provider, models: seq<string>, m: Messages)
    ensures Failover(provider, models, m, None).Failed? ==>
      (Failover(provider, models, m, None).lastError.None? <==> models == [])
  {
    if models != [] {
      OutcomeFromLastAttempt(provider, models, m, None);
    }
  }

  /** The configured list has four distinct models, so at most four attempts, each on a different model. */
  lemma ConfiguredAttempts(provider: Provider, m: Messages)
    ensures |ModelsToTry| == 4
    ensures forall i, j :: 0 <= i < j < |ModelsToTry| ==> ModelsToTry[i] != ModelsToTry[j]
    ensures 1 <= |Attempted(provider, ModelsToTry, m)| <= 4
  {
    AttemptedIsPrefix(provider, ModelsToTry, m);
  }

  /** A successful completion is returned as is, and it is the first successful one. */
  lemma {:induction false} FirstSuccessReturned(provider: Provider, models: seq<string>, m: Messages, k: nat, lastError: Option<string>)
    requires k < |models| && Ask(provider, models[k], m).Completion?
    requires forall j :: 0 <= j < k ==> Ask(provider, models[j], m).ProviderError? && IsFailoverError(Ask(provider, models[j], m).message)
    decreases |models|
    ensures Failover(provider, models, m, lastError) == Text(Ask(provider, models[k], m).content)
    ensures Attempted(provider, models, m) == models[..k + 1]
  {
    if k > 0 {
      assert forall j :: 0 <= j < k - 1 ==> models[1..][j] == models[j + 1];
      FirstSuccessReturned(provider, models[1..], m, k - 1, Some(Ask(provider, models[0], m).message));
      assert [models[0]] + models[1..][..k] == models[..k + 1];
    }
  }

  /** An error without a failover signature ends the loop: no later model is tried and that error is reported. */
  lemma {:induction false} NonFailoverErrorStops(provider: Provider, models: seq<string>, m: Messages, k: nat, lastError: Option<string>)
    requires k < |models| && Ask(provider, models[k], m).ProviderError?
    requires !IsFailoverError(Ask(provider, models[k], m).message)
    requires forall j :: 0 <= j < k ==> Ask(provider, models[j], m).ProviderError? && IsFailoverError(Ask(provider, models[j], m).message)
    decreases |models|
    ensures Failover(provider, models, m, lastError) == Failed(Some(Ask(provider, models[k], m).message))
    ensures Attempted(provider, models, m) == models[..k + 1]
  {
    if k > 0 {
      assert forall j :: 0 <= j < k - 1 ==> models[1..][j] == models[j + 1];
      NonFailoverErrorStops(provider, models[1..], m, k - 1, Some(Ask(provider, models[0], m).message));
      assert [models[0]] + models[1..][..k] == models[..k + 1];
    }
  }

  /** A first model that fails with a failover signature hands the loop over to the rest of the list. */
  lemma FailoverStep(provider: Provider, models: seq<string>, m: Messages, lastError: Option<string>)
    requires models != [] && Ask(provider, models[0], m).ProviderError?
    requires IsFailoverError(Ask(provider, models[0], m).message)
    ensures Failover(provider, models, m, lastError)
      == Failover(provider, models[1..], m, Some(Ask(provider, models[0], m).message))
    ensures Attempted(provider, models, m) == [models[0]] + Attempted(provider, models[1..], m)
  {
  }

  /** When every model fails with a failover signature, all are tried and the last one's error is reported. */
  lemma {:induction false} AllFailoverExhausts(provider: Provider, models: seq<string>, m: Messages, lastError: Option<string>)
    requires models != []
    requires forall j :: 0 <= j < |models| ==> Ask(provider, models[j], m).ProviderError? && IsFailoverError(Ask(provider, models[j], m).message)
    ensures Failover(provider, models, m, lastError) == Failed(Some(Ask(provider, models[|models| - 1], m).message))
    ensures Attempted(provider, models, m) == models
  {
    var a := Attempted(provider, models, m);
    AttemptedExactly(provider, models, m, |models| - 1);
    AttemptedIsPrefix(provider, models, m);
    assert a == models;
    var last := Ask(provider, a[|a| - 1], m);
    assert last == ProviderError(Ask(provider, models[|models| - 1], m).message);
    OutcomeFromLastAttempt(provider, models, m, lastError);
  }

  /** Every failure answer starts with the sentinel, and the error text follows it verbatim. */
  lemma FailureTextShape(o: Outcome)
    requires o.Failed?
    ensures StartsWith(Render(o), FailurePrefix)
    ensures Render(o)[|FailurePrefix|..] == OptionText(o.lastError)
  {
  }

  /** With the configured list, when all four models fail over, the answer is the sentinel with the fourth model's error. */
  lemma ConfiguredExhaustion(provider: Provider, m: Messages)
    requires forall j :: 0 <= j < |ModelsToTry| ==>
      Ask(provider, ModelsToTry[j], m).ProviderError? && IsFailoverError(Ask(provider, ModelsToTry[j], m).message)
    ensures GenerateText(provider, m) == FailurePrefix + Ask(provider, ModelsToTry[3], m).message
    ensures ModelsToTry[3] == "llama-3.2-11b-vision-preview"
  {
    AllFailoverExhausts(provider, ModelsToTry, m, None);
  }
}
