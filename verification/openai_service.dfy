/** The OpenAI service: settings merge, the requests it builds, the token
    estimate, the model table and the fallbacks it answers with when the API
    call fails.

    Each API call is an opaque function parameter from the request to the
    reply, `None` when the call throws. The environment variable
    `OPENAI_MODEL` is the parameter `env`. */
module OpenAiService {
  import opened Js

  /** A message as the API receives it. */
  datatype Turn = Turn(role: string, content: string)

  /** The options object handed to `generateChatCompletion`: `None` for a
      key that is not there, `Some(f)` for a key that is, whatever its value
      (a key holding `undefined` still overrides in an object spread). */
  datatype Options = Options(
    model: Option<Field<string>>,
    temperature: Option<Field<real>>,
    maxTokens: Option<Field<int>>,
    topP: Option<Field<real>>,
    frequencyPenalty: Option<Field<real>>,
    presencePenalty: Option<Field<real>>)

  const NoOptions := Options(None, None, None, None, None, None)

  /** The merged settings of one completion call. */
  datatype Settings = Settings(
    model: string,
    temperature: Field<real>,
    maxTokens: Field<int>,
    topP: Field<real>,
    frequencyPenalty: Field<real>,
    presencePenalty: Field<real>)

  /** `process.env.OPENAI_MODEL || 'gpt-3.5-turbo'`. */
  function DefaultModel(env: Option<string>): (r: string)
    ensures r != ""
    ensures TruthyOpt(env) ==> r == env.value
  {
    OptOr(env, "gpt-3.5-turbo")
  }

  /** The service's default settings, with the default model. */
  function Defaults(env: Option<string>): Settings {
    Settings(DefaultModel(env), Val(0.7), Val(1000), Val(1.0), Val(0.0), Val(0.0))
  }

  /** One key of `{ ...defaults, ...options }`. */
  function Spread<T>(o: Option<Field<T>>, d: T): (r: Field<T>)
    ensures o.None? ==> r == Val(d)
    ensures o.Some? ==> r == o.value
  {
    if o.Some? then o.value else Val(d)
  }

  /** `{ ...this.defaultSettings, ...options, model: options.model || this.defaultModel }`. */
  function MergeSettings(o: Options, env: Option<string>): (r: Settings)
    ensures r.model != ""
    ensures r.model == if o.model.Some? && TruthyStr(o.model.value) then o.model.value.value else DefaultModel(env)
    ensures r.temperature == Spread(o.temperature, 0.7)
    ensures r.maxTokens == Spread(o.maxTokens, 1000)
    ensures r.topP == Spread(o.topP, 1.0)
    ensures r.frequencyPenalty == Spread(o.frequencyPenalty, 0.0)
    ensures r.presencePenalty == Spread(o.presencePenalty, 0.0)
  {
    var model := if o.model.Some? then StrOr(o.model.value, DefaultModel(env)) else DefaultModel(env);
    Settings(model, Spread(o.temperature, 0.7), Spread(o.maxTokens, 1000), Spread(o.topP, 1.0),
      Spread(o.frequencyPenalty, 0.0), Spread(o.presencePenalty, 0.0))
  }

  /** Every key of the merged settings, supplied as options. */
  function AsOptions(s: Settings): Options {
    Options(Some(Val(s.model)), Some(s.temperature), Some(s.maxTokens), Some(s.topP),
      Some(s.frequencyPenalty), Some(s.presencePenalty))
  }

  /** Without options the call runs on the defaults. */
  lemma MergeNoOptions(env: Option<string>)
    ensures MergeSettings(NoOptions, env) == Defaults(env)
  {
  }

  /** Merging is a closure: feeding merged settings back in as options gives
      them back unchanged, whatever the default model. */
  lemma MergeIdempotent(o: Options, env: Option<string>, env2: Option<string>)
    ensures MergeSettings(AsOptions(MergeSettings(o, env)), env2) == MergeSettings(o, env)
  {
  }

  /** `formatMessages`: role and content of each message, in order, and nothing else. */
  function FormatMessages<M>(ms: seq<M>, role: M -> string, content: M -> string): (r: seq<Turn>)
    ensures |r| == |ms|
    ensures forall k :: 0 <= k < |ms| ==> r[k] == Turn(role(ms[k]), content(ms[k]))
  {
    seq(|ms|, k requires 0 <= k < |ms| => Turn(role(ms[k]), content(ms[k])))
  }

  function RoleOf(t: Turn): string { t.role }
  function ContentOf(t: Turn): string { t.content }

  /** The controller has already projected its messages to role and content;
      formatting them again changes nothing. */
  lemma FormatTurnsIsIdentity(ts: seq<Turn>)
    ensures FormatMessages(ts, RoleOf, ContentOf) == ts
  {
  }

  /** A projection by way of turns equals the direct one. */
  lemma FormatTwiceIsOnce<M>(ms: seq<M>, role: M -> string, content: M -> string)
    ensures FormatMessages(FormatMessages(ms, role, content), RoleOf, ContentOf) == FormatMessages(ms, role, content)
  {
    FormatTurnsIsIdentity(FormatMessages(ms, role, content));
  }

  // ---------------------------------------------------------------------------
  // Chat completion

  datatype Usage = Usage(promptTokens: nat, completionTokens: nat, totalTokens: nat)

  /** What the API is sent for a completion (never streamed here). */
  datatype Request = Request(
    model: string, messages: seq<Turn>,
    temperature: Field<real>, maxTokens: Field<int>, topP: Field<real>,
    frequencyPenalty: Field<real>, presencePenalty: Field<real>)

  /** The first choice of the API's reply. */
  datatype Completion = Completion(content: string, usage: Option<Usage>, model: string, finishReason: string)

  function CompletionRequest(messages: seq<Turn>, o: Options, env: Option<string>): (r: Request)
    ensures r.messages == messages
    ensures var s := MergeSettings(o, env);
      r == Request(s.model, messages, s.temperature, s.maxTokens, s.topP, s.frequencyPenalty, s.presencePenalty)
  {
    var s := MergeSettings(o, env);
    FormatTurnsIsIdentity(messages);
    Request(s.model, FormatMessages(messages, RoleOf, ContentOf), s.temperature, s.maxTokens, s.topP,
      s.frequencyPenalty, s.presencePenalty)
  }

  /** `generateChatCompletion`: the API's first choice, or `None` when the
      call throws (the service rethrows as an `AI service error`). The
      response time comes from the clock and is not modelled. */
  function GenerateChatCompletion(messages: seq<Turn>, o: Options, env: Option<string>,
                                  api: Request -> Option<Completion>): Option<Completion>
  {
    api(CompletionRequest(messages, o, env))
  }

  // ---------------------------------------------------------------------------
  // Token estimate and model table

  /** `Math.ceil(text.length / 4)`, the length in UTF-16 code units. */
  function EstimateTokens(text: string): (t: nat)
    ensures 4 * t >= Length(text)
    ensures t > 0 ==> 4 * (t - 1) < Length(text)
  {
    CeilDiv(Length(text), 4)
  }

  /** The estimate is zero exactly for the empty string, grows with length
      and never by more than one token per four code units. */
  lemma EstimateTokensLaws(a: string, b: string)
    ensures EstimateTokens(a) == 0 <==> a == ""
    ensures Length(a) <= Length(b) ==> EstimateTokens(a) <= EstimateTokens(b)
    ensures EstimateTokens(a + b) <= EstimateTokens(a) + EstimateTokens(b)
  {
    LengthAppend(a, b);
  }

  /** Four emoji are eight code units, hence two tokens, not one. */
  lemma EstimateTokensCountsCodeUnits()
    ensures EstimateTokens("\U{1F600}\U{1F600}\U{1F600}\U{1F600}") == 2
  {
    var e := "\U{1F600}\U{1F600}";
    EmojiLength();
    LengthAppend(e, e);
    assert e + e == "\U{1F600}\U{1F600}\U{1F600}\U{1F600}";
  }

  /** `getModelMaxTokens`: the context size of four known models, 4096 for any
      other id containing `gpt`, the only ids its caller passes. An id naming
      an inherited property of the lookup object, such as `constructor`,
      would read that property instead; no such id contains `gpt`. */
  function ModelMaxTokens(id: string): (r: nat)
    ensures id == "gpt-4" ==> r == 8192
    ensures id == "gpt-4-32k" ==> r == 32768
    ensures id == "gpt-3.5-turbo" ==> r == 4096
    ensures id == "gpt-3.5-turbo-16k" ==> r == 16384
    ensures id !in KnownModels && Contains(id, "gpt") ==> r == 4096
  {
    if id == "gpt-4" then 8192
    else if id == "gpt-4-32k" then 32768
    else if id == "gpt-3.5-turbo" then 4096
    else if id == "gpt-3.5-turbo-16k" then 16384
    else 4096
  }

  const KnownModels: set<string> := {"gpt-4", "gpt-4-32k", "gpt-3.5-turbo", "gpt-3.5-turbo-16k"}

  /** Every limit is one of the four values of the table, and never below the default. */
  lemma ModelMaxTokensRange(id: string)
    ensures ModelMaxTokens(id) in {4096, 8192, 16384, 32768}
    ensures ModelMaxTokens(id) >= 4096
    ensures ModelMaxTokens(id) > 4096 ==> id in KnownModels
  {
  }

  // ---------------------------------------------------------------------------
  // Model list

  datatype ModelInfo = ModelInfo(id: string, name: string, maxTokens: nat)

  /** The display name: `gpt-` becomes `GPT-`, then everything is upper-cased. */
  function ModelName(id: string): (r: string)
    ensures r == Upper(id)
  {
    UpperReplaceFirst(id, "gpt-", "GPT-");
    Upper(ReplaceFirst(id, "gpt-", "GPT-"))
  }

  function Describe(id: string): ModelInfo {
    ModelInfo(id, ModelName(id), ModelMaxTokens(id))
  }

  /** The listed ids containing `gpt`, in order. */
  function GptIds(ids: seq<string>): (r: seq<string>)
    ensures |r| <= |ids|
    ensures forall k :: 0 <= k < |r| ==> Contains(r[k], "gpt") && r[k] in ids
    ensures forall id :: id in ids && Contains(id, "gpt") ==> id in r
    decreases |ids|
  {
    if |ids| == 0 then []
    else
      var rest := GptIds(ids[1..]);
      assert forall id :: id in ids[1..] ==> id in ids;
      if Contains(ids[0], "gpt") then [ids[0]] + rest else rest
  }

  /** `getAvailableModels`: `list` is the id list of the API, `None` when the
      call fails, in which case the list is empty. */
  function AvailableModels(list: Option<seq<string>>): (r: seq<ModelInfo>)
    ensures list.None? ==> r == []
    ensures list.Some? ==> |r| == |GptIds(list.value)|
    ensures list.Some? ==> forall k :: 0 <= k < |r| ==> r[k] == Describe(GptIds(list.value)[k])
  {
    match list
    case None => []
    case Some(ids) =>
      var g := GptIds(ids);
      seq(|g|, k requires 0 <= k < |g| => Describe(g[k]))
  }

  /** Every listed model is a `gpt` model the API named, its name is its
      upper-cased id, and no `gpt` model the API named is missing. */
  lemma AvailableModelsSound(ids: seq<string>)
    ensures var r := AvailableModels(Some(ids));
      && (forall k :: 0 <= k < |r| ==> r[k].id in ids && Contains(r[k].id, "gpt"))
      && (forall k :: 0 <= k < |r| ==> r[k].name == Upper(r[k].id) && r[k].maxTokens == ModelMaxTokens(r[k].id))
      && (forall id :: id in ids && Contains(id, "gpt") ==> exists k :: 0 <= k < |r| && r[k].id == id)
  {
    var r := AvailableModels(Some(ids));
    var g := GptIds(ids);
    forall id | id in ids && Contains(id, "gpt")
      ensures exists k :: 0 <= k < |r| && r[k].id == id
    {
      var k :| 0 <= k < |g| && g[k] == id;
      assert r[k].id == id;
    }
  }

  // ---------------------------------------------------------------------------
  // System prompt

  /** The context object of `generateSystemPrompt`. */
  datatype PromptContext = PromptContext(role: Field<string>, tone: Field<string>, expertise: Field<string>)

  const NoContext := PromptContext(Undefined, Undefined, Undefined)

  const PromptPrefix := "You are a helpful AI assistant. "
  const PromptSuffix := "Provide accurate, helpful, and engaging responses."

  /** A clause `before + value + after` when the value is truthy, nothing otherwise. */
  function Clause(f: Field<string>, before: string, after: string): (r: string)
    ensures TruthyStr(f) ==> r == before + f.value + after
    ensures !TruthyStr(f) ==> r == ""
  {
    if TruthyStr(f) then before + f.value + after else ""
  }

  function RoleClause(c: PromptContext): string { Clause(c.role, "You are acting as: ", ". ") }
  function ToneClause(c: PromptContext): string { Clause(c.tone, "Please respond in a ", " tone. ") }
  function ExpertiseClause(c: PromptContext): string { Clause(c.expertise, "You have expertise in: ", ". ") }

  /** `generateSystemPrompt`: the fixed opening, the role, tone and expertise
      clauses in that order, the fixed closing. */
  function SystemPrompt(c: PromptContext): (r: string)
    ensures StartsWith(r, PromptPrefix)
    ensures |r| >= |PromptPrefix| + |PromptSuffix| && r[|r| - |PromptSuffix|..] == PromptSuffix
    ensures r[|PromptPrefix|..|r| - |PromptSuffix|] == RoleClause(c) + ToneClause(c) + ExpertiseClause(c)
  {
    var middle := RoleClause(c) + ToneClause(c) + ExpertiseClause(c);
    var r := PromptPrefix + middle + PromptSuffix;
    assert r[..|PromptPrefix|] == PromptPrefix;
    assert r[|r| - |PromptSuffix|..] == PromptSuffix;
    assert r[|PromptPrefix|..|r| - |PromptSuffix|] == middle;
    r
  }

  /** The prompt is the bare opening and closing exactly when the context
      has no truthy role, tone or expertise. */
  lemma SystemPromptBareIff(c: PromptContext)
    ensures SystemPrompt(c) == PromptPrefix + PromptSuffix <==> !TruthyStr(c.role) && !TruthyStr(c.tone) && !TruthyStr(c.expertise)
  {
    var r := SystemPrompt(c);
    if TruthyStr(c.role) || TruthyStr(c.tone) || TruthyStr(c.expertise) {
      assert |RoleClause(c) + ToneClause(c) + ExpertiseClause(c)| > 0;
      assert |r| > |PromptPrefix + PromptSuffix|;
    } else {
      assert r == PromptPrefix + "" + PromptSuffix;
    }
  }

  // ---------------------------------------------------------------------------
  // Summary and sentiment

  /** A request with a fixed model, a system instruction and one user message. */
  datatype Prompted = Prompted(model: string, system: string, user: string, maxTokens: nat, temperature: real)

  /** One transcript line, `role: content`. */
  function Line(t: Turn): string {
    t.role + ": " + t.content
  }

  function Lines(ts: seq<Turn>): (r: seq<string>)
    ensures |r| == |ts|
    ensures forall k :: 0 <= k < |ts| ==> r[k] == Line(ts[k])
  {
    seq(|ts|, k requires 0 <= k < |ts| => Line(ts[k]))
  }

  /** The transcript sent for a summary: one line per message joined by newlines. */
  function Transcript(ts: seq<Turn>): string {
    Join(Lines(ts), "\n")
  }

  /** A transcript grows by a newline and one line per further message. */
  lemma TranscriptSnoc(ts: seq<Turn>, t: Turn)
    requires |ts| >= 1
    ensures Transcript(ts + [t]) == Transcript(ts) + "\n" + Line(t)
  {
    assert Lines(ts + [t]) == Lines(ts) + [Line(t)];
    JoinSnoc(Lines(ts), Line(t), "\n");
  }

  lemma TranscriptSingle(t: Turn)
    ensures Transcript([t]) == Line(t)
  {
  }

  /** What `generateSummary(messages, maxLength)` sends. */
  function SummaryRequest(ts: seq<Turn>, maxLength: nat): (r: Prompted)
    ensures r.model == "gpt-3.5-turbo" && r.temperature == 0.3
    ensures 4 * r.maxTokens >= maxLength && (r.maxTokens > 0 ==> 4 * (r.maxTokens - 1) < maxLength)
    ensures r.user == Transcript(ts)
  {
    Prompted("gpt-3.5-turbo",
      "Summarize the following conversation in " + NatToString(maxLength)
        + " characters or less. Focus on the main topics and key points.",
      Transcript(ts), CeilDiv(maxLength, 4), 0.3)
  }

  /** At the default length of 200 characters the summary may use 50 tokens. */
  lemma DefaultSummaryBudget(ts: seq<Turn>)
    ensures SummaryRequest(ts, 200).maxTokens == 50
  {
  }

  const SummaryUnavailable := "Conversation summary unavailable"

  /** `generateSummary`: the API's text, or the fixed fallback when the call fails. */
  function GenerateSummary(ts: seq<Turn>, maxLength: nat, api: Prompted -> Option<string>): (r: string)
    ensures api(SummaryRequest(ts, maxLength)).None? ==> r == SummaryUnavailable
    ensures api(SummaryRequest(ts, maxLength)).Some? ==> r == api(SummaryRequest(ts, maxLength)).value
  {
    api(SummaryRequest(ts, maxLength)).GetOr(SummaryUnavailable)
  }

  const SentimentInstruction :=
    "Analyze the sentiment of the following message and respond with only one word: positive, negative, or neutral."

  function SentimentRequest(message: string): (r: Prompted)
    ensures r.user == message && r.maxTokens == 10 && r.temperature == 0.0
  {
    Prompted("gpt-3.5-turbo", SentimentInstruction, message, 10, 0.0)
  }

  /** `analyzeSentiment`: the reply lower-cased and trimmed, `neutral` when the call fails. */
  function AnalyzeSentiment(message: string, api: Prompted -> Option<string>): (r: string)
    ensures api(SentimentRequest(message)).None? ==> r == "neutral"
    ensures Trimmed(r) && LowerCased(r)
  {
    match api(SentimentRequest(message))
    case None =>
      assert LowerCased("neutral");
      assert Trimmed("neutral");
      "neutral"
    case Some(c) =>
      LowerCasedIff(c);
      TrimmedIff(Lower(c));
      Trim(Lower(c))
  }

  /** The sentiment is the reply's normalized form: lower-casing and trimming
      commute, and a reply that is already one clean word comes back as is. */
  lemma SentimentOfCleanReply(message: string, api: Prompted -> Option<string>)
    requires api(SentimentRequest(message)).Some?
    ensures AnalyzeSentiment(message, api) == Lower(Trim(api(SentimentRequest(message)).value))
    ensures var c := api(SentimentRequest(message)).value;
      Trimmed(c) && LowerCased(c) ==> AnalyzeSentiment(message, api) == c
  {
    var c := api(SentimentRequest(message)).value;
    LowerTrimCommute(c);
    LowerCasedIff(c);
    TrimmedIff(c);
  }
}
