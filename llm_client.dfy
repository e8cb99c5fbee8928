/** The model client: three configured Qwen profiles, the task-to-profile
    dispatch, a bounded retry loop and the JSON fallback chain. The network
    call itself is an oracle that may fail. */
module LlmClient {
  import opened Common
  import opened Text

  /** The three entries of `ModelManager.models`. */
  datatype Profile = Fast | Smart | Creative

  /** A configured `QwenLLM`: the fields its constructor stores. */
  datatype QwenLlm = QwenLlm(apiKey: string, modelName: string, temperature: real, maxTokens: nat)

  const KeyMissing := "请设置DASHSCOPE_API_KEY环境变量"
  const RetriesExhausted := "模型调用失败，已达到最大重试次数"
  const JsonFailure := "JSON解析失败"

  /** Python's `a or b` on strings: `a` unless it is empty. */
  function OrElse(a: string, b: string): (r: string)
    ensures r == a || r == b
    ensures r == "" <==> a == "" && b == ""
  {
    if a != "" then a else b
  }

  /** `QwenLLM(api_key, model_name, temperature, max_tokens)`; the
      configuration defaults `configKey` and `configModel` stand in for
      `Config.DASHSCOPE_API_KEY` and `Config.LLM_MODEL`. */
  function NewQwenLlm(apiKey: string, configKey: string, modelName: string, configModel: string,
                      temperature: real, maxTokens: nat): (r: Result<QwenLlm>)
    ensures r.Err? <==> apiKey == "" && configKey == ""
    ensures r.Err? ==> r.message == KeyMissing
    ensures r.Ok? ==> r.value.apiKey != ""
    ensures r.Ok? && apiKey != "" ==> r.value.apiKey == apiKey
    ensures r.Ok? && apiKey == "" ==> r.value.apiKey == configKey
    ensures r.Ok? ==> r.value.temperature == temperature && r.value.maxTokens == maxTokens
    ensures r.Ok? ==> r.value.modelName == OrElse(modelName, configModel)
  {
    var key := OrElse(apiKey, configKey);
    if key == "" then Err(KeyMissing)
    else Ok(QwenLlm(key, OrElse(modelName, configModel), temperature, maxTokens))
  }

  /** The model name, temperature and token limit of each profile. */
  function ModelName(p: Profile): string
  {
    match p
    case Fast => "qwen-turbo"
    case Smart => "qwen-plus"
    case Creative => "qwen-turbo"
  }

  function Temperature(p: Profile): real
  {
    if p == Creative then 0.7 else 0.1
  }

  function MaxTokens(p: Profile): nat
  {
    if p == Fast then 1500 else 2000
  }

  /** The table `_init_models` builds for a non-empty key. */
  function ProfileTable(key: string): (m: map<Profile, QwenLlm>)
    ensures m.Keys == {Fast, Smart, Creative}
    ensures forall p :: p in m ==> m[p] == QwenLlm(key, ModelName(p), Temperature(p), MaxTokens(p))
  {
    map p: Profile | p in {Fast, Smart, Creative} :: QwenLlm(key, ModelName(p), Temperature(p), MaxTokens(p))
  }

  /** fast is qwen-turbo with 1500 tokens, smart qwen-plus with 2000, creative
      qwen-turbo with 2000, and only creative runs at the high temperature. */
  lemma ProfileTableContents(key: string)
    ensures ProfileTable(key)[Fast] == QwenLlm(key, "qwen-turbo", 0.1, 1500)
    ensures ProfileTable(key)[Smart] == QwenLlm(key, "qwen-plus", 0.1, 2000)
    ensures ProfileTable(key)[Creative] == QwenLlm(key, "qwen-turbo", 0.7, 2000)
    ensures forall p: Profile :: p in ProfileTable(key) && (ProfileTable(key)[p].temperature > 0.1 <==> p == Creative)
  {
    forall p: Profile ensures p in ProfileTable(key) {
      assert p == Fast || p == Smart || p == Creative;
    }
  }

  /** `task_model_mapping.get(task_type, "fast")`. */
  function ProfileFor(task: string): (p: Profile)
    ensures p == Smart <==> task in {"summary", "analysis", "comparison"}
    ensures p == Creative <==> task in {"review", "writing"}
  {
    if task == "qa" || task == "explanation" || task == "translation" then Fast
    else if task == "summary" || task == "analysis" || task == "comparison" then Smart
    else if task == "review" || task == "writing" then Creative
    else Fast
  }

  /** Every task the source names, and every other string, reaches a profile. */
  lemma ProfileForTable(task: string)
    ensures ProfileFor("qa") == Fast && ProfileFor("explanation") == Fast && ProfileFor("translation") == Fast
    ensures ProfileFor("summary") == Smart && ProfileFor("analysis") == Smart && ProfileFor("comparison") == Smart
    ensures ProfileFor("review") == Creative && ProfileFor("writing") == Creative
    ensures task !in {"summary", "analysis", "comparison", "review", "writing"} ==> ProfileFor(task) == Fast
  {
  }

  /** One model call: the configured model, the prompt and the attempt
      number, so that repeated calls may answer differently. */
  type Caller = (QwenLlm, string, nat) -> Result<string>

  /** The result of the retry loop and how many calls it made. */
  datatype Outcome = Outcome(result: Result<string>, attempts: nat)

  /** The retry loop from attempt `i` on. */
  function RetryFrom(call: Caller, m: QwenLlm, prompt: string, maxRetries: int, i: nat): (o: Outcome)
    ensures i < maxRetries ==> i < o.attempts <= maxRetries
    ensures maxRetries <= i ==> o == Outcome(Err(RetriesExhausted), i)
    decreases maxRetries - i
  {
    if maxRetries <= i then Outcome(Err(RetriesExhausted), i)
    else
      match call(m, prompt, i)
      case Ok(v) => Outcome(Ok(v), i + 1)
      case Err(e) => if i == maxRetries - 1 then Outcome(Err(e), i + 1) else RetryFrom(call, m, prompt, maxRetries, i + 1)
  }

  /** From attempt `i`, the loop returns the answer of its last call, every
      earlier call failed, and only a failing last call uses up all attempts. */
  lemma {:induction false} RetryFromShape(call: Caller, m: QwenLlm, prompt: string, maxRetries: int, i: nat)
    requires i < maxRetries
    ensures var o := RetryFrom(call, m, prompt, maxRetries, i);
      && o.result == call(m, prompt, o.attempts - 1)
      && (forall j :: i <= j < o.attempts - 1 ==> call(m, prompt, j).Err?)
      && (o.result.Err? ==> o.attempts == maxRetries)
    decreases maxRetries - i
  {
    if call(m, prompt, i).Err? && i < maxRetries - 1 {
      RetryFromShape(call, m, prompt, maxRetries, i + 1);
    }
  }

  /** `call_with_retry` makes at most `max_retries` calls and returns the first
      success; when every call fails the last failure propagates; with
      `max_retries <= 0` no call is made and the generic failure is raised. */
  lemma RetryContract(call: Caller, m: QwenLlm, prompt: string, maxRetries: int)
    ensures maxRetries <= 0 ==> RetryFrom(call, m, prompt, maxRetries, 0) == Outcome(Err(RetriesExhausted), 0)
    ensures var o := RetryFrom(call, m, prompt, maxRetries, 0);
      maxRetries > 0 ==>
        && 1 <= o.attempts <= maxRetries
        && o.result == call(m, prompt, o.attempts - 1)
        && (forall j :: 0 <= j < o.attempts - 1 ==> call(m, prompt, j).Err?)
        && (o.result.Err? ==> o.attempts == maxRetries)
  {
    if maxRetries > 0 {
      RetryFromShape(call, m, prompt, maxRetries, 0);
    }
  }

  /** `ModelManager`: the API key it was given and the profile table. */
  class ModelManager {
    var apiKey: string
    var models: map<Profile, QwenLlm>

    /** Every profile is configured, as after a successful `_init_models`. */
    predicate Valid()
      reads this
    {
      Fast in models && Smart in models && Creative in models
    }

    /** `ModelManager(api_key)` once the key check has passed: a manager
        whose key resolves to "" raises in `_init_models` (see `Create`). */
    constructor (apiKey: string, configKey: string)
      requires OrElse(apiKey, configKey) != ""
      ensures this.apiKey == OrElse(apiKey, configKey)
      ensures models == ProfileTable(this.apiKey)
      ensures Valid()
    {
      this.apiKey := OrElse(apiKey, configKey);
      models := ProfileTable(OrElse(apiKey, configKey));
    }

    /** `ModelManager(api_key)` with its failure: the constructor raises
        `KeyMissing` when neither key is set. */
    static method Create(apiKey: string, configKey: string) returns (r: Result<ModelManager>)
      ensures r.Err? <==> apiKey == "" && configKey == ""
      ensures r.Err? ==> r.message == KeyMissing
      ensures r.Ok? ==> fresh(r.value) && r.value.Valid() && r.value.models == ProfileTable(OrElse(apiKey, configKey))
    {
      if OrElse(apiKey, configKey) == "" {
        return Err(KeyMissing);
      }
      var mm := new ModelManager(apiKey, configKey);
      return Ok(mm);
    }

    /** `_init_models`: build the three profiles, or raise when the key is
        empty, leaving `models` as it was. */
    method InitModels(configKey: string) returns (err: Option<string>)
      modifies this
      ensures apiKey == old(apiKey)
      ensures err.Some? <==> apiKey == "" && configKey == ""
      ensures err.Some? ==> err.value == KeyMissing && models == old(models)
      ensures err.None? ==> models == ProfileTable(OrElse(apiKey, configKey)) && Valid()
    {
      var fast := NewQwenLlm(apiKey, configKey, ModelName(Fast), "", Temperature(Fast), MaxTokens(Fast));
      var smart := NewQwenLlm(apiKey, configKey, ModelName(Smart), "", Temperature(Smart), MaxTokens(Smart));
      var creative := NewQwenLlm(apiKey, configKey, ModelName(Creative), "", Temperature(Creative), MaxTokens(Creative));
      if fast.Err? {
        return Some(fast.message);
      }
      models := map[Fast := fast.value, Smart := smart.value, Creative := creative.value];
      return None;
    }

    /** `get_model(task_type)`: the model of the task's profile. */
    function GetModel(task: string): (m: QwenLlm)
      reads this
      requires Valid()
      ensures m == models[ProfileFor(task)]
      ensures task !in {"summary", "analysis", "comparison", "review", "writing"} ==> m == models[Fast]
    {
      models[ProfileFor(task)]
    }

    /** `call_with_retry(task_type, prompt, max_retries)`. */
    method CallWithRetry(task: string, prompt: string, maxRetries: int, call: Caller)
      returns (r: Result<string>, attempts: nat)
      requires Valid()
      ensures Outcome(r, attempts) == RetryFrom(call, GetModel(task), prompt, maxRetries, 0)
    {
      var m := GetModel(task);
      var attempt: nat := 0;
      while attempt < maxRetries
        invariant attempt == 0 || attempt < maxRetries
        invariant RetryFrom(call, m, prompt, maxRetries, 0) == RetryFrom(call, m, prompt, maxRetries, attempt)
        decreases maxRetries - attempt
      {
        var res := call(m, prompt, attempt);
        if res.Ok? || attempt == maxRetries - 1 {
          return res, attempt + 1;
        }
        attempt := attempt + 1;
      }
      return Err(RetriesExhausted), attempt;
    }
  }

  // ----- `parse_json_response` -----

  /** A JSON value as `json.loads` returns it; numbers keep their text. */
  datatype Json =
    | JNull
    | JBool(b: bool)
    | JNumber(text: string)
    | JString(s: string)
    | JArray(items: seq<Json>)
    | JObject(members: seq<(string, Json)>)

  /** `json.loads`: None stands for `JSONDecodeError`. */
  type JsonParser = string -> Option<Json>

  /** The first position of `c` in `s`. */
  function FirstIndex(s: string, c: char): (r: Option<nat>)
    ensures r.Some? ==> r.value < |s| && s[r.value] == c && c !in s[..r.value]
    ensures r.None? <==> c !in s
  {
    if c !in s then None
    else if s[0] == c then Some(0)
    else
      var r := FirstIndex(s[1..], c);
      assert s[1..][..r.value] == s[1..r.value + 1];
      assert s[..r.value + 1] == [s[0]] + s[1..r.value + 1];
      Some(r.value + 1)
  }

  /** The last position of `c` in `s`. */
  function LastIndex(s: string, c: char): (r: Option<nat>)
    ensures r.Some? ==> r.value < |s| && s[r.value] == c && c !in s[r.value + 1..]
    ensures r.None? <==> c !in s
    decreases |s|
  {
    if c !in s then None
    else if s[|s| - 1] == c then Some(|s| - 1)
    else
      var r := LastIndex(s[..|s| - 1], c);
      assert s[r.value + 1..] == s[..|s| - 1][r.value + 1..] + [s[|s| - 1]];
      Some(r.value)
  }

  /** What `re.search(r'\{.*\}', s, re.DOTALL)` selects: from the first '{'
      to the last '}' after it. */
  function BraceSpan(s: string): (r: Option<string>)
    ensures r.Some? ==> |r.value| >= 2 && r.value[0] == '{' && r.value[|r.value| - 1] == '}'
  {
    match FirstIndex(s, '{')
    case None => None
    case Some(i) =>
      match LastIndex(s, '}')
      case None => None
      case Some(j) => if i < j then Some(s[i..j + 1]) else None
  }

  /** The regex finds a span exactly when some '{' precedes some '}'; the span
      is the widest one: no '{' before it and no '}' after it. */
  lemma BraceSpanSpec(s: string)
    ensures BraceSpan(s).Some? <==> exists i, j :: 0 <= i < j < |s| && s[i] == '{' && s[j] == '}'
    ensures BraceSpan(s).Some? ==> exists i, j :: 0 <= i < j < |s| && s[i] == '{' && s[j] == '}'
                                      && BraceSpan(s).value == s[i..j + 1] && '{' !in s[..i] && '}' !in s[j + 1..]
  {
    if exists i', j' :: 0 <= i' < j' < |s| && s[i'] == '{' && s[j'] == '}' {
      var i', j' :| 0 <= i' < j' < |s| && s[i'] == '{' && s[j'] == '}';
      BracePairFound(s, i', j');
    }
  }

  /** Any '{' before a '}' makes the span exist. */
  lemma BracePairFound(s: string, i': nat, j': nat)
    requires i' < j' < |s| && s[i'] == '{' && s[j'] == '}'
    ensures BraceSpan(s).Some?
  {
    assert s[i'] in s && s[j'] in s;
    var i := FirstIndex(s, '{').value;
    var j := LastIndex(s, '}').value;
    assert forall k :: 0 <= k < i ==> s[..i][k] == s[k];
    assert forall k :: j < k < |s| ==> s[j + 1..][k - j - 1] == s[k];
    assert i <= i' && j' <= j;
  }

  /** The record returned when no parse succeeds. */
  function ErrorRecord(response: string): Json
  {
    JObject([("error", JString(JsonFailure)), ("raw_response", JString(response))])
  }

  /** `parse_json_response(response)`. */
  function ParseJsonResponse(response: string, parse: JsonParser): (r: Json)
    ensures parse(response).Some? ==> r == parse(response).value
  {
    match parse(response)
    case Some(j) => j
    case None =>
      match BraceSpan(response)
      case Some(span) =>
        (match parse(span)
         case Some(j) => j
         case None => ErrorRecord(response))
      case None => ErrorRecord(response)
  }

  /** The fallback chain: the direct parse, then the brace span, then the
      error record whose `raw_response` is the input unchanged. */
  lemma ParseJsonFallbacks(response: string, parse: JsonParser)
    ensures parse(response).None? && BraceSpan(response).Some? && parse(BraceSpan(response).value).Some?
            ==> ParseJsonResponse(response, parse) == parse(BraceSpan(response).value).value
    ensures parse(response).None? && (BraceSpan(response).None? || parse(BraceSpan(response).value).None?)
            ==> ParseJsonResponse(response, parse) == ErrorRecord(response)
    ensures ErrorRecord(response).members[1] == ("raw_response", JString(response))
  {
  }
}
