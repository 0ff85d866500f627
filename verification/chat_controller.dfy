/** The chat controller: sending a message, the history page, fetching,
    re-configuring, clearing, deleting and summarizing a chat, and the model
    list. Every handler runs after `protect`, so `requester` is the id of an
    authenticated user.

    The chat and user collections are sequences; a new chat's `_id` is the
    parameter `newId`, and the clock is `now`. Each OpenAI call is an opaque
    function parameter, `None` when the call fails. */
module ChatController {
  import opened Js
  import opened Http
  import opened ChatModel
  import OpenAiService
  import UserModel

  datatype Db = Db(chats: seq<Chat>, users: seq<UserModel.User>)

  datatype Pagination = Pagination(current: int, total: Option<int>, hasNext: bool, hasPrev: bool)

  /** The JSON bodies of the replies. */
  datatype ChatReply =
    | Sent(chat: Chat, content: string, usage: Option<OpenAiService.Usage>, model: string)
    | History(chats: seq<Chat>, pagination: Pagination)
    | ChatDoc(chat: Chat)
    | Cleared(message: string, chat: Chat)
    | Deleted(message: string)
    | SummaryOf(summary: string, messageCount: Option<nat>, totalTokens: Option<nat>)
    | Models(list: seq<OpenAiService.ModelInfo>)

  datatype Outcome = Outcome(response: Response<ChatReply>, db: Db)

  const ChatNotFound: Response<ChatReply> := Fail(404, "Chat not found")

  /** `Chat.findOne({ _id: id, userId })`: the first chat with that id owned by `u`. */
  function FindChat(chats: seq<Chat>, id: string, u: UserId): (r: Option<nat>)
    ensures r.Some? ==> r.value < |chats| && chats[r.value].id == id && chats[r.value].userId == u
    ensures r.None? <==> forall k :: 0 <= k < |chats| ==> !(chats[k].id == id && chats[k].userId == u)
    decreases |chats|
  {
    if |chats| == 0 then None
    else if chats[0].id == id && chats[0].userId == u then Some(0)
    else
      match FindChat(chats[1..], id, u)
      case None => None
      case Some(k) => Some(k + 1)
  }

  /** The collection once a saved chat is in place: a new one at the end. */
  function Place(chats: seq<Chat>, at: Option<nat>, c: Chat): (r: seq<Chat>)
    requires at.Some? ==> at.value < |chats|
    ensures at.None? ==> r == chats + [c]
    ensures at.Some? ==> |r| == |chats| && r[at.value] == c
    ensures at.Some? ==> forall k :: 0 <= k < |chats| && k != at.value ==> r[k] == chats[k]
  {
    match at
    case None => chats + [c]
    case Some(i) => chats[i := c]
  }

  /** Nobody else's chat changes, and every chat added belongs to `u`. */
  predicate OnlyOwnerTouched(before: seq<Chat>, after: seq<Chat>, u: UserId) {
    && |after| >= |before|
    && (forall k :: 0 <= k < |before| && before[k].userId != u ==> after[k] == before[k])
    && (forall k :: |before| <= k < |after| ==> after[k].userId == u)
  }

  /** Two steps that each touch only `u`'s chats, the first adding at most
      one chat that the second leaves owned by `u`, touch only `u`'s chats. */
  lemma OwnerTouchedTrans(a: seq<Chat>, b: seq<Chat>, c: seq<Chat>, u: UserId)
    requires OnlyOwnerTouched(a, b, u) && OnlyOwnerTouched(b, c, u)
    requires |b| <= |a| + 1 && |c| == |b|
    requires |b| > |a| ==> c[|a|].userId == u
    ensures OnlyOwnerTouched(a, c, u)
  {
  }

  lemma PlaceOwned(chats: seq<Chat>, at: Option<nat>, c: Chat, u: UserId)
    requires at.Some? ==> at.value < |chats| && chats[at.value].userId == u
    requires c.userId == u
    ensures OnlyOwnerTouched(chats, Place(chats, at, c), u)
  {
  }

  // ---------------------------------------------------------------------------
  // sendMessage

  datatype SettingsBody = SettingsBody(temperature: Field<real>, maxTokens: Field<int>, model: Field<string>)

  const NoSettings := SettingsBody(Undefined, Undefined, Undefined)

  datatype SendBody = SendBody(message: Field<string>, chatId: Field<string>, settings: Field<SettingsBody>)

  /** The settings of a chat `sendMessage` creates: `x || default` for each.
      `settings.model || 'gpt-3.5-turbo'` is computed as well, but the schema
      has no path to keep it. */
  function FreshSettings(b: SettingsBody): Settings {
    Settings(NumOr(b.temperature, 0.7), IntOr(b.maxTokens, 1000), 1.0)
  }

  /** A supplied value counts only when truthy: 0 gives the default. A model
      sent with the settings is not kept. */
  lemma FreshSettingsDefaults(b: SettingsBody)
    ensures FreshSettings(b).temperature == (if b.temperature.Val? && b.temperature.value != 0.0 then b.temperature.value else 0.7)
    ensures FreshSettings(b).maxTokens == (if b.maxTokens.Val? && b.maxTokens.value != 0 then b.maxTokens.value else 1000)
    ensures FreshSettings(b).topP == 1.0
    ensures FreshSettings(b) == FreshSettings(b.(model := Undefined))
    ensures FreshSettings(SettingsBody(Val(0.0), Val(0), Val(""))) == FreshSettings(NoSettings)
    ensures SettingsValid(FreshSettings(NoSettings))
  {
  }

  /** The chat a send goes to, and its position when it is already stored. */
  datatype Target = Target(chat: Chat, at: Option<nat>)

  /** The checks before the AI call: the message, then the chat. */
  function Locate(db: Db, u: UserId, body: SendBody, newId: string, now: nat): (r: Response<Target>)
    ensures r.Ok? ==> r.body.chat.userId == u
    ensures r.Ok? && r.body.at.Some? ==> r.body.at.value < |db.chats| && db.chats[r.body.at.value] == r.body.chat
    ensures r.Ok? ==> TruthyStr(body.message) && Trim(body.message.value) != ""
    ensures r.Fail? ==> (r.status == 400 <==> !TruthyStr(body.message) || Trim(body.message.value) == "")
  {
    if !TruthyStr(body.message) || Trim(body.message.value) == "" then Fail(400, "Message content is required")
    else if TruthyStr(body.chatId) then
      match FindChat(db.chats, body.chatId.value, u)
      case None => Fail(404, "Chat not found")
      case Some(i) => Ok(200, Target(db.chats[i], Some(i)))
    else
      match body.settings
      case Null => Fail(500, "Failed to send message")
      case Undefined => Ok(200, Target(NewChat(newId, u, FreshSettings(NoSettings), now), None))
      case Val(b) => Ok(200, Target(NewChat(newId, u, FreshSettings(b), now), None))
  }

  /** The user's message: trimmed content, tokens estimated on the text as sent. */
  function UserTurn(message: string, now: nat): Message {
    NewMessage(message, User, now, OpenAiService.EstimateTokens(message), NoMetadata)
  }

  function MessageRole(m: Message): string { RoleName(m.role) }
  function MessageContent(m: Message): string { m.content }

  /** `chat.messages.map(msg => ({ role, content }))`. */
  function Turns(ms: seq<Message>): seq<OpenAiService.Turn> {
    OpenAiService.FormatMessages(ms, MessageRole, MessageContent)
  }

  /** `{ model, temperature, max_tokens }` from the chat's settings;
      `chat.settings.model` is not a path of the schema, so the model is
      `undefined`. */
  function AiOptions(s: Settings): OpenAiService.Options {
    OpenAiService.Options(Some(Undefined), Some(Val(s.temperature)), Some(Val(s.maxTokens)), None, None, None)
  }

  /** `aiResponse.usage?.completion_tokens || 0`. */
  function CompletionTokens(usage: Option<OpenAiService.Usage>): nat {
    if usage.Some? then usage.value.completionTokens else 0
  }

  /** The assistant's message, through the same `trim` setter. */
  function AssistantTurn(ai: OpenAiService.Completion, s: Settings, now: nat): Message {
    NewMessage(ai.content, Assistant, now, CompletionTokens(ai.usage),
      Metadata(Some(ai.model), Some(s.temperature), Some(s.maxTokens)))
  }

  /** The reply of the API to the history with the user's message appended. */
  function AiReply(t: Target, message: string, now: nat, env: Option<string>,
                   api: OpenAiService.Request -> Option<OpenAiService.Completion>): Option<OpenAiService.Completion> {
    OpenAiService.GenerateChatCompletion(Turns(t.chat.messages + [UserTurn(message, now)]), AiOptions(t.chat.settings), env, api)
  }

  /** `User.findByIdAndUpdate(userId, { $inc, lastActive })`; a missing user is no error. */
  function AddUsage(users: seq<UserModel.User>, u: UserId, messages: nat, tokens: nat, now: nat): seq<UserModel.User> {
    match UserModel.FindById(users, u)
    case None => users
    case Some(i) =>
      var s := users[i].stats;
      users[i := users[i].(stats := UserModel.Stats(s.totalMessages + messages, s.totalTokens + tokens, now))]
  }

  /** Only the requester's counters move: by the given amounts, with
      `lastActive` set to now; every other document stays as it was. */
  lemma AddUsageSpec(users: seq<UserModel.User>, u: UserId, messages: nat, tokens: nat, now: nat)
    ensures var r := AddUsage(users, u, messages, tokens, now);
      && |r| == |users|
      && (UserModel.FindById(users, u).None? ==> r == users)
      && (UserModel.FindById(users, u).Some? ==>
        var i := UserModel.FindById(users, u).value;
        && r[i].stats == UserModel.Stats(users[i].stats.totalMessages + messages, users[i].stats.totalTokens + tokens, now)
        && r[i].(stats := users[i].stats) == users[i]
        && forall j :: 0 <= j < |users| && j != i ==> r[j] == users[j])
  {
  }

  /** The tokens a send adds to the user's total: both messages'. */
  function ExchangeTokens(message: string, ai: OpenAiService.Completion, s: Settings, now: nat): nat {
    UserTurn(message, now).tokens + AssistantTurn(ai, s, now).tokens
  }

  /** `sendMessage`. */
  function SendMessage(db: Db, u: UserId, body: SendBody, newId: string, now: nat, env: Option<string>,
                       api: OpenAiService.Request -> Option<OpenAiService.Completion>): (r: Outcome)
    ensures Locate(db, u, body, newId, now).Fail? ==>
      r == Outcome(Fail(Locate(db, u, body, newId, now).status, Locate(db, u, body, newId, now).error), db)
    ensures Locate(db, u, body, newId, now).Ok? ==>
      r == Exchange(db, u, Locate(db, u, body, newId, now).body, body.message.value, now, env, api)
    ensures OnlyOwnerTouched(db.chats, r.db.chats, u)
  {
    match Locate(db, u, body, newId, now)
    case Fail(status, error) => Outcome(Fail(status, error), db)
    case Ok(_, t) => Exchange(db, u, t, body.message.value, now, env, api)
  }

  /** What the user message, the AI call and the assistant message make of the target chat. */
  function Exchange(db: Db, u: UserId, t: Target, message: string, now: nat, env: Option<string>,
                    api: OpenAiService.Request -> Option<OpenAiService.Completion>): (r: Outcome)
    requires t.chat.userId == u
    requires t.at.Some? ==> t.at.value < |db.chats| && db.chats[t.at.value].userId == u
    ensures AiReply(t, message, now, env, api).None? ==> r == Outcome(Fail(500, "Failed to send message"), db)
    ensures r.response.Fail? ==> r.response.status == 500
    ensures r.response.Fail? && r.db.users == db.users ==> r.db == db
    ensures r.response.Ok? ==>
      var ai := AiReply(t, message, now, env, api);
      var um := UserTurn(message, now);
      && ai.Some?
      && var am := AssistantTurn(ai.value, t.chat.settings, now);
        && r.db.users == AddUsage(db.users, u, 2, ExchangeTokens(message, ai.value, t.chat.settings, now), now)
        && r.response.body.Sent?
        && r.response.body.content == ai.value.content
        && r.response.body.chat.messages == t.chat.messages + [um, am]
        && r.response.body.chat.userId == u
        && StatsConsistent(r.response.body.chat)
        && r.response.body.chat in r.db.chats
        && (|t.chat.messages| == 0 ==> r.response.body.chat.title == Trim(TitleFrom(um.content)))
        && (|t.chat.messages| > 0 ==> r.response.body.chat.title == t.chat.title)
    ensures OnlyOwnerTouched(db.chats, r.db.chats, u)
  {
    var um := UserTurn(message, now);
    var c1 := t.chat.(messages := t.chat.messages + [um]);
    match AiReply(t, message, now, env, api)
    case None => Outcome(Fail(500, "Failed to send message"), db)
    case Some(ai) =>
      var am := AssistantTurn(ai, t.chat.settings, now);
      var c2 := c1.(messages := c1.messages + [am]);
      assert c2.messages == t.chat.messages + [um, am];
      assert |t.chat.messages| == 0 ==> c2.messages[0] == um;
      Finish(db, u, t.at, c2, ExchangeTokens(message, ai, t.chat.settings, now), ai, now)
  }

  /** From the second push on: the title update (saving) when the list has
      just reached two, the user's counters, the final save. */
  function Finish(db: Db, u: UserId, at: Option<nat>, c: Chat, tokens: nat, ai: OpenAiService.Completion, now: nat): (r: Outcome)
    requires at.Some? ==> at.value < |db.chats| && db.chats[at.value].userId == u
    requires c.userId == u
    ensures r.response.Fail? && r.db.users == db.users ==> r.db == db
    ensures r.response.Fail? ==> r.response.status == 500
    ensures r.response.Ok? ==>
      && r.db.users == AddUsage(db.users, u, 2, tokens, now)
      && r.response.body.Sent?
      && r.response.body.content == ai.content
      && r.response.body.chat.messages == c.messages
      && r.response.body.chat.userId == u
      && StatsConsistent(r.response.body.chat)
      && r.response.body.chat in r.db.chats
      && (|c.messages| == 2 ==> r.response.body.chat.title == Trim(TitleFrom(c.messages[0].content)))
      && (|c.messages| != 2 ==> r.response.body.chat.title == c.title)
    ensures OnlyOwnerTouched(db.chats, r.db.chats, u)
  {
    if |c.messages| == 2 then Retitle(db, u, at, c, tokens, ai, now)
    else Commit(db, u, at, c, tokens, ai, now)
  }

  /** `await chat.updateTitle()`, which saves the chat (in its place, or as
      a new document), then the counters and the final save. */
  function Retitle(db: Db, u: UserId, at: Option<nat>, c: Chat, tokens: nat, ai: OpenAiService.Completion, now: nat): (r: Outcome)
    requires at.Some? ==> at.value < |db.chats| && db.chats[at.value].userId == u
    requires c.userId == u
    ensures r.response.Fail? ==> r == Outcome(Fail(500, "Failed to send message"), db)
    ensures r.response.Ok? ==>
      && r.db.users == AddUsage(db.users, u, 2, tokens, now)
      && r.response.body.Sent?
      && r.response.body.content == ai.content
      && r.response.body.chat.messages == c.messages
      && r.response.body.chat.userId == u
      && StatsConsistent(r.response.body.chat)
      && r.response.body.chat in r.db.chats
      && (|c.messages| > 0 ==> r.response.body.chat.title == Trim(TitleFrom(c.messages[0].content)))
    ensures OnlyOwnerTouched(db.chats, r.db.chats, u)
  {
    match UpdateTitle(c, now)
    case None => Outcome(Fail(500, "Failed to send message"), db)
    case Some(titled) =>
      UpdateTitleShape(c, now);
      var chats := Place(db.chats, at, titled);
      PlaceOwned(db.chats, at, titled, u);
      var r := Commit(db.(chats := chats), u, Some(if at.Some? then at.value else |db.chats|), titled, tokens, ai, now);
      OwnerTouchedTrans(db.chats, chats, r.db.chats, u);
      r
  }

  function Commit(db: Db, u: UserId, at: Option<nat>, c: Chat, tokens: nat, ai: OpenAiService.Completion, now: nat): (r: Outcome)
    requires at.Some? ==> at.value < |db.chats| && db.chats[at.value].userId == u
    requires c.userId == u
    ensures r.response.Fail? ==> r.db.chats == db.chats && r.response.status == 500
    ensures r.db.users == AddUsage(db.users, u, 2, tokens, now)
    ensures at.Some? ==> |r.db.chats| == |db.chats| && r.db.chats[at.value].userId == u
    ensures r.response.Ok? ==> Save(c, now).Some? && r.response.body == Sent(Save(c, now).value, ai.content, ai.usage, ai.model)
    ensures r.response.Ok? ==> r.db.chats == Place(db.chats, at, Save(c, now).value)
    ensures r.response.Ok? ==> Save(c, now).value in r.db.chats
    ensures OnlyOwnerTouched(db.chats, r.db.chats, u)
  {
    var users := AddUsage(db.users, u, 2, tokens, now);
    match Save(c, now)
    case None => Outcome(Fail(500, "Failed to send message"), db.(users := users))
    case Some(saved) =>
      PlaceOwned(db.chats, at, saved, u);
      var chats := Place(db.chats, at, saved);
      assert chats[if at.Some? then at.value else |db.chats|] == saved;
      Outcome(Ok(200, Sent(saved, ai.content, ai.usage, ai.model)), Db(chats, users))
  }

  /** A missing, empty or blank message is refused before any lookup, and nothing changes. */
  lemma BlankMessageRefused(db: Db, u: UserId, body: SendBody, newId: string, now: nat, env: Option<string>,
                            api: OpenAiService.Request -> Option<OpenAiService.Completion>)
    ensures var r := SendMessage(db, u, body, newId, now, env, api);
      && ((!TruthyStr(body.message) || Trim(body.message.value) == "") ==> r == Outcome(Fail(400, "Message content is required"), db))
      && (r.response.Fail? && r.response.status == 400 ==> !TruthyStr(body.message) || Trim(body.message.value) == "")
  {
  }

  /** A chat id that names no chat of the requester is answered 404 and nothing changes. */
  lemma ForeignChatRefused(db: Db, u: UserId, body: SendBody, newId: string, now: nat, env: Option<string>,
                           api: OpenAiService.Request -> Option<OpenAiService.Completion>)
    requires TruthyStr(body.message) && Trim(body.message.value) != "" && TruthyStr(body.chatId)
    requires forall k :: 0 <= k < |db.chats| ==> !(db.chats[k].id == body.chatId.value && db.chats[k].userId == u)
    ensures SendMessage(db, u, body, newId, now, env, api) == Outcome(ChatNotFound, db)
  {
  }

  /** A failed AI call stores nothing and counts nothing. */
  lemma AiFailureChangesNothing(db: Db, u: UserId, body: SendBody, newId: string, now: nat, env: Option<string>,
                                api: OpenAiService.Request -> Option<OpenAiService.Completion>)
    requires Locate(db, u, body, newId, now).Ok?
    requires AiReply(Locate(db, u, body, newId, now).body, body.message.value, now, env, api).None?
    ensures SendMessage(db, u, body, newId, now, env, api) == Outcome(Fail(500, "Failed to send message"), db)
  {
  }

  /** A successful send stores the chat with exactly two messages more, the
      user's (trimmed) and then the assistant's; the AI saw the whole history
      with the user's message; the reply carries the AI's text. The title is
      derived from the first message exactly when the chat had none before. */
  lemma SendAppendsExchange(db: Db, u: UserId, body: SendBody, newId: string, now: nat, env: Option<string>,
                            api: OpenAiService.Request -> Option<OpenAiService.Completion>)
    requires SendMessage(db, u, body, newId, now, env, api).response.Ok?
    ensures body.message.Val? && Locate(db, u, body, newId, now).Ok?
    ensures var t := Locate(db, u, body, newId, now).body;
      var um := UserTurn(body.message.value, now);
      var ai := AiReply(t, body.message.value, now, env, api);
      var r := SendMessage(db, u, body, newId, now, env, api);
      && ai.Some?
      && r.response.body.Sent?
      && r.response.body.content == ai.value.content
      && r.response.body.chat.messages == t.chat.messages + [um, AssistantTurn(ai.value, t.chat.settings, now)]
      && um.content == Trim(body.message.value) && um.role == User
      && r.response.body.chat.userId == u
      && StatsConsistent(r.response.body.chat)
      && (|t.chat.messages| == 0 ==> r.response.body.chat.title == TitleFrom(um.content))
      && (|t.chat.messages| > 0 ==> r.response.body.chat.title == t.chat.title)
      && r.response.body.chat in r.db.chats
  {
    var t := Locate(db, u, body, newId, now).body;
    var um := UserTurn(body.message.value, now);
    if |t.chat.messages| == 0 {
      TitleFromLaws(um.content);
      TrimmedIff(TitleFrom(um.content));
    }
  }

  /** The AI is called with the chat's temperature and token limit, and with
      the service's default model, whatever model the client asked for. */
  lemma SendUsesChatSettings(t: Target, message: string, now: nat, env: Option<string>,
                             api: OpenAiService.Request -> Option<OpenAiService.Completion>)
    ensures var req := OpenAiService.CompletionRequest(Turns(t.chat.messages + [UserTurn(message, now)]), AiOptions(t.chat.settings), env);
      && req.temperature == Val(t.chat.settings.temperature)
      && req.maxTokens == Val(t.chat.settings.maxTokens)
      && req.model == OpenAiService.DefaultModel(env)
      && |req.messages| == |t.chat.messages| + 1
      && req.messages[|t.chat.messages|] == OpenAiService.Turn("user", Trim(message))
  {
  }

  /** The users a successful send leaves behind: the requester's usage grows
      by the exchange, two messages and the tokens of both. */
  lemma SendUsers(db: Db, u: UserId, body: SendBody, newId: string, now: nat, env: Option<string>,
                  api: OpenAiService.Request -> Option<OpenAiService.Completion>)
    requires SendMessage(db, u, body, newId, now, env, api).response.Ok?
    ensures body.message.Val? && Locate(db, u, body, newId, now).Ok?
    ensures var t := Locate(db, u, body, newId, now).body;
      var ai := AiReply(t, body.message.value, now, env, api);
      && ai.Some?
      && SendMessage(db, u, body, newId, now, env, api).db.users
        == AddUsage(db.users, u, 2, ExchangeTokens(body.message.value, ai.value, t.chat.settings, now), now)
  {
  }

  /** The counters after an exchange: two more messages, and the estimate of
      the message as sent plus the completion tokens the API reported, or 0. */
  lemma UsageCounted(users: seq<UserModel.User>, u: UserId, message: string, ai: OpenAiService.Completion, settings: Settings, now: nat)
    requires UserModel.FindById(users, u).Some?
    ensures var i := UserModel.FindById(users, u).value;
      var s := users[i].stats;
      AddUsage(users, u, 2, ExchangeTokens(message, ai, settings, now), now)[i].stats ==
        UserModel.Stats(s.totalMessages + 2,
          s.totalTokens + OpenAiService.EstimateTokens(message) + CompletionTokens(ai.usage), now)
  {
    ExchangeTokensSum(message, ai, settings, now);
    AddUsageSpec(users, u, 2, ExchangeTokens(message, ai, settings, now), now);
  }

  lemma ExchangeTokensSum(message: string, ai: OpenAiService.Completion, settings: Settings, now: nat)
    ensures ExchangeTokens(message, ai, settings, now) == OpenAiService.EstimateTokens(message) + CompletionTokens(ai.usage)
  {
  }

  // ---------------------------------------------------------------------------
  // getChatHistory

  /** The query string: `page`, `limit` (as numbers) and `search`, each possibly absent. */
  datatype HistoryQuery = HistoryQuery(page: Option<int>, limit: Option<int>, search: Option<string>)

  /** `Math.ceil(total / limit)` as it reaches the JSON reply: a division by
      zero gives `Infinity` or `NaN`, both serialized as `null`. */
  function TotalPages(total: nat, limit: int): (r: Option<int>)
    ensures limit > 0 ==> r == Some(CeilDiv(total, limit))
    ensures limit == 0 ==> r.None?
  {
    if limit > 0 then Some(CeilDiv(total, limit))
    else if limit == 0 then None
    else Some(-(total / -limit))
  }

  function Abs(x: int): nat {
    if x < 0 then -x else x
  }

  /** `getChatHistory`. `matches` is the search term's regular expression
      test. MongoDB refuses a negative skip, which surfaces as a 500. */
  function GetChatHistory(db: Db, u: UserId, q: HistoryQuery, matches: Chat -> bool): (r: Response<ChatReply>)
    ensures r.Ok? ==> r.body.History? && forall c :: c in r.body.chats ==> c in db.chats && Listed(c, u)
  {
    var page := q.page.GetOr(1);
    var limit := q.limit.GetOr(20);
    var skip := (page - 1) * limit;
    var total := |Where(db.chats, c => Listed(c, u))|;
    var pagination := Pagination(page, TotalPages(total, limit), page * limit < total, page > 1);
    if TruthyOpt(q.search) then Ok(200, History(SearchChats(db.chats, u, matches), pagination))
    else if skip < 0 then Fail(500, "Failed to fetch chat history")
    else Ok(200, History(FindByUser(db.chats, u, skip, Abs(limit)), pagination))
  }

  lemma MulMono(a: int, b: int, l: int)
    requires a <= b && l >= 0
    ensures a * l <= b * l
  {
  }

  /** For positive page and limit: the listing starts `(page - 1) * limit`
      chats in and holds at most `limit` of them; there is a next page
      exactly when this page is not the last of `ceil(total / limit)`, and a
      previous one exactly when this is not the first. */
  lemma PaginationConsistent(db: Db, u: UserId, page: int, limit: int, matches: Chat -> bool)
    requires page >= 1 && limit >= 1
    ensures var total := |Where(db.chats, c => Listed(c, u))|;
      var r := GetChatHistory(db, u, HistoryQuery(Some(page), Some(limit), None), matches);
      && r.Ok?
      && r.body.chats == FindByUser(db.chats, u, (page - 1) * limit, limit)
      && |r.body.chats| <= limit
      && r.body.pagination.total == Some(CeilDiv(total, limit))
      && (r.body.pagination.hasNext <==> page < CeilDiv(total, limit))
      && (r.body.pagination.hasPrev <==> page >= 2)
  {
    var total := |Where(db.chats, c => Listed(c, u))|;
    PageArithmetic(total, page, limit);
    var skip: nat := (page - 1) * limit;
    var chats := FindByUser(db.chats, u, skip, limit);
    PageAtMostLimit(Remaining(total, skip), limit);
    assert GetChatHistory(db, u, HistoryQuery(Some(page), Some(limit), None), matches)
      == Ok(200, History(chats, Pagination(page, TotalPages(total, limit), page * limit < total, page > 1)));
  }

  lemma PageAtMostLimit(avail: nat, limit: nat)
    requires limit > 0
    ensures PageSize(avail, limit) <= limit
  {
  }

  /** The skip of a positive page is not negative, and a page is followed by
      another exactly when it is not the last of `ceil(total / limit)`. */
  lemma PageArithmetic(total: nat, page: int, limit: int)
    requires page >= 1 && limit >= 1
    ensures (page - 1) * limit >= 0
    ensures page * limit < total <==> page < CeilDiv(total, limit)
  {
    var n := CeilDiv(total, limit);
    MulMono(1, page, limit);
    if page < n {
      MulMono(page, n - 1, limit);
    } else {
      MulMono(n, page, limit);
    }
  }

  /** A search ignores `page` and `limit` for the listing, yet the pages
      reported still count every listed chat, not the hits. */
  lemma SearchIgnoresPaging(db: Db, u: UserId, q: HistoryQuery, matches: Chat -> bool)
    requires TruthyOpt(q.search)
    ensures var r := GetChatHistory(db, u, q, matches);
      && r.Ok?
      && r.body.chats == SearchChats(db.chats, u, matches)
      && r.body.pagination.total == TotalPages(|Where(db.chats, c => Listed(c, u))|, q.limit.GetOr(20))
  {
  }

  /** Page 0 asks for a negative skip and fails (unless searching). */
  lemma PageZeroFails(db: Db, u: UserId, limit: int, matches: Chat -> bool)
    requires limit >= 1
    ensures GetChatHistory(db, u, HistoryQuery(Some(0), Some(limit), None), matches) == Fail(500, "Failed to fetch chat history")
  {
    assert (0 - 1) * limit < 0;
    assert !TruthyOpt(None);
  }

  // ---------------------------------------------------------------------------
  // Per-chat handlers

  /** `getChat`: the owner's chat, deleted or not. */
  function GetChat(db: Db, u: UserId, id: string): (r: Response<ChatReply>)
    ensures r.Fail? <==> FindChat(db.chats, id, u).None?
    ensures r.Fail? ==> r == ChatNotFound
    ensures r.Ok? ==> r.body.ChatDoc? && r.body.chat.userId == u && r.body.chat.id == id && r.body.chat in db.chats
  {
    match FindChat(db.chats, id, u)
    case None => ChatNotFound
    case Some(i) => Ok(200, ChatDoc(db.chats[i]))
  }

  /** Settings the client sends: a key may be missing, `null` or a number. */
  datatype SettingsPatch = SettingsPatch(temperature: Field<real>, maxTokens: Field<int>, model: Field<string>)

  /** `Math.max(lo, Math.min(hi, x))`. */
  function Clamp(x: real, lo: real, hi: real): real {
    if x > hi then (if hi < lo then lo else hi) else if x < lo then lo else x
  }

  function ClampInt(x: int, lo: int, hi: int): int {
    if x > hi then (if hi < lo then lo else hi) else if x < lo then lo else x
  }

  /** The clamp lands in range, is the identity exactly on values in range, and is idempotent. */
  lemma ClampLaws(x: real, lo: real, hi: real, n: int, ilo: int, ihi: int)
    requires lo <= hi && ilo <= ihi
    ensures lo <= Clamp(x, lo, hi) <= hi
    ensures Clamp(x, lo, hi) == x <==> lo <= x <= hi
    ensures Clamp(Clamp(x, lo, hi), lo, hi) == Clamp(x, lo, hi)
    ensures ilo <= ClampInt(n, ilo, ihi) <= ihi
    ensures ClampInt(n, ilo, ihi) == n <==> ilo <= n <= ihi
    ensures ClampInt(ClampInt(n, ilo, ihi), ilo, ihi) == ClampInt(n, ilo, ihi)
  {
  }

  /** `null` reaches `Math.min` as 0. */
  function NumberOf(f: Field<real>): real {
    if f.Val? then f.value else 0.0
  }

  function IntegerOf(f: Field<int>): int {
    if f.Val? then f.value else 0
  }

  /** The assignments of `updateChatSettings`; the one to `settings.model`
      writes a path the schema lacks and is not kept. */
  function PatchSettings(s: Settings, p: SettingsPatch): (r: Settings)
    ensures r.topP == s.topP
    ensures p.temperature.Undefined? ==> r.temperature == s.temperature
    ensures !p.temperature.Undefined? ==> 0.0 <= r.temperature <= 2.0
    ensures p.maxTokens.Undefined? ==> r.maxTokens == s.maxTokens
    ensures !p.maxTokens.Undefined? ==> 1 <= r.maxTokens <= 4000
  {
    var t := if p.temperature.Undefined? then s.temperature else Clamp(NumberOf(p.temperature), 0.0, 2.0);
    var m := if p.maxTokens.Undefined? then s.maxTokens else ClampInt(IntegerOf(p.maxTokens), 1, 4000);
    Settings(t, m, s.topP)
  }

  /** Patching keeps valid settings valid, a value in range is stored as
      sent, and a model in the patch changes nothing: `chat.settings.model`
      is not a path of the schema, so the assignment is not kept. */
  lemma PatchSettingsLaws(s: Settings, p: SettingsPatch)
    ensures SettingsValid(s) ==> SettingsValid(PatchSettings(s, p))
    ensures p.temperature.Val? && 0.0 <= p.temperature.value <= 2.0 ==> PatchSettings(s, p).temperature == p.temperature.value
    ensures p.maxTokens.Val? && 1 <= p.maxTokens.value <= 4000 ==> PatchSettings(s, p).maxTokens == p.maxTokens.value
    ensures p.temperature == Null ==> PatchSettings(s, p).temperature == 0.0
    ensures p.maxTokens == Null ==> PatchSettings(s, p).maxTokens == 1
    ensures PatchSettings(s, p) == PatchSettings(s, p.(model := Undefined))
  {
  }

  /** `updateChatSettings`. A missing `settings` object throws on the first
      property read. */
  function UpdateChatSettings(db: Db, u: UserId, id: string, settings: Field<SettingsPatch>, now: nat): (r: Outcome)
    ensures FindChat(db.chats, id, u).None? ==> r == Outcome(ChatNotFound, db)
    ensures r.response.Fail? ==> r.db == db
    ensures |r.db.chats| == |db.chats|
    ensures r.response.Ok? ==> var i := FindChat(db.chats, id, u).value;
      && settings.Val?
      && r.response.body == ChatDoc(r.db.chats[i])
      && r.db.chats == db.chats[i := PreSave(db.chats[i].(settings := PatchSettings(db.chats[i].settings, settings.value)), now)]
    ensures OnlyOwnerTouched(db.chats, r.db.chats, u)
  {
    match FindChat(db.chats, id, u)
    case None => Outcome(ChatNotFound, db)
    case Some(i) =>
      if !settings.Val? then Outcome(Fail(500, "Failed to update chat settings"), db)
      else
        var c := db.chats[i];
        match Save(c.(settings := PatchSettings(c.settings, settings.value)), now)
        case None => Outcome(Fail(500, "Failed to update chat settings"), db)
        case Some(saved) => Outcome(Ok(200, ChatDoc(saved)), db.(chats := db.chats[i := saved]))
  }

  /** On a valid stored chat the update always succeeds. */
  lemma UpdateSettingsSucceeds(db: Db, u: UserId, id: string, p: SettingsPatch, now: nat)
    requires FindChat(db.chats, id, u).Some? && Valid(db.chats[FindChat(db.chats, id, u).value])
    ensures UpdateChatSettings(db, u, id, Val(p), now).response.Ok?
  {
    var c := db.chats[FindChat(db.chats, id, u).value];
    PatchSettingsLaws(c.settings, p);
    assert Valid(c.(settings := PatchSettings(c.settings, p))) by {
      assert c.(settings := PatchSettings(c.settings, p)).messages == c.messages;
    }
  }

  /** `clearChatMessages`. */
  function ClearChatMessages(db: Db, u: UserId, id: string, now: nat): (r: Outcome)
    ensures FindChat(db.chats, id, u).None? ==> r == Outcome(ChatNotFound, db)
    ensures r.response.Fail? ==> r.db == db
    ensures |r.db.chats| == |db.chats|
    ensures r.response.Ok? ==> var i := FindChat(db.chats, id, u).value;
      && r.db.chats[i].messages == [] && r.db.chats[i].stats.totalMessages == 0 && r.db.chats[i].stats.totalTokens == 0
      && r.response.body == Cleared("Chat messages cleared successfully", r.db.chats[i])
    ensures OnlyOwnerTouched(db.chats, r.db.chats, u)
  {
    match FindChat(db.chats, id, u)
    case None => Outcome(ChatNotFound, db)
    case Some(i) =>
      match ClearMessages(db.chats[i], now)
      case None => Outcome(Fail(500, "Failed to clear chat messages"), db)
      case Some(cleared) =>
        Outcome(Ok(200, Cleared("Chat messages cleared successfully", cleared)), db.(chats := db.chats[i := cleared]))
  }

  /** `deleteChat`: a soft delete. */
  function DeleteChat(db: Db, u: UserId, id: string, now: nat): (r: Outcome)
    ensures FindChat(db.chats, id, u).None? ==> r == Outcome(ChatNotFound, db)
    ensures r.response.Fail? ==> r.db == db
    ensures r.response.Ok? ==> r.response.body == Deleted("Chat deleted successfully")
    ensures |r.db.chats| == |db.chats|
    ensures OnlyOwnerTouched(db.chats, r.db.chats, u)
  {
    match FindChat(db.chats, id, u)
    case None => Outcome(ChatNotFound, db)
    case Some(i) =>
      match Save(db.chats[i].(isActive := false), now)
      case None => Outcome(Fail(500, "Failed to delete chat"), db)
      case Some(saved) => Outcome(Ok(200, Deleted("Chat deleted successfully")), db.(chats := db.chats[i := saved]))
  }

  /** Deleting keeps the document and its messages: only `isActive` (and the
      save's `lastActivity`) change. The chat drops out of the listing, yet
      `getChat`, which does not filter on `isActive`, still returns it. */
  lemma DeleteIsSoft(db: Db, u: UserId, id: string, now: nat)
    requires DeleteChat(db, u, id, now).response.Ok?
    requires forall k :: 0 <= k < |db.chats| ==> StatsConsistent(db.chats[k])
    ensures var i := FindChat(db.chats, id, u).value;
      var after := DeleteChat(db, u, id, now).db;
      && after.chats[i] == db.chats[i].(isActive := false, lastActivity := now)
      && !Listed(after.chats[i], u)
      && GetChat(after, u, id) == Ok(200, ChatDoc(after.chats[i]))
  {
    var i := FindChat(db.chats, id, u).value;
    var after := DeleteChat(db, u, id, now).db;
    assert after.chats[i].stats == db.chats[i].stats;
    FindChatSameKeys(db.chats, after.chats, id, u);
  }

  /** The lookup only reads ids and owners. */
  lemma {:induction false} FindChatSameKeys(a: seq<Chat>, b: seq<Chat>, id: string, u: UserId)
    requires |a| == |b|
    requires forall k :: 0 <= k < |a| ==> a[k].id == b[k].id && a[k].userId == b[k].userId
    ensures FindChat(a, id, u) == FindChat(b, id, u)
    decreases |a|
  {
    if |a| > 0 {
      FindChatSameKeys(a[1..], b[1..], id, u);
    }
  }

  /** `getChatSummary`. The summary service catches its own failures. */
  function GetChatSummary(db: Db, u: UserId, id: string, api: OpenAiService.Prompted -> Option<string>): (r: Response<ChatReply>)
    ensures FindChat(db.chats, id, u).None? ==> r == ChatNotFound
    ensures FindChat(db.chats, id, u).Some? ==> var c := db.chats[FindChat(db.chats, id, u).value];
      && r.Ok?
      && (|c.messages| == 0 ==> r.body == SummaryOf("No messages to summarize", None, None))
      && (|c.messages| > 0 ==> r.body == SummaryOf(OpenAiService.GenerateSummary(Turns(c.messages), 200, api),
                                                   Some(|c.messages|), Some(c.stats.totalTokens)))
  {
    match FindChat(db.chats, id, u)
    case None => ChatNotFound
    case Some(i) =>
      var c := db.chats[i];
      if |c.messages| == 0 then Ok(200, SummaryOf("No messages to summarize", None, None))
      else Ok(200, SummaryOf(OpenAiService.GenerateSummary(Turns(c.messages), 200, api), Some(|c.messages|), Some(c.stats.totalTokens)))
  }

  /** An empty chat is summarized without the AI: the reply is the same whatever the API does. */
  lemma EmptySummaryNeedsNoAi(db: Db, u: UserId, id: string, api1: OpenAiService.Prompted -> Option<string>,
                              api2: OpenAiService.Prompted -> Option<string>)
    requires FindChat(db.chats, id, u).Some? && |db.chats[FindChat(db.chats, id, u).value].messages| == 0
    ensures GetChatSummary(db, u, id, api1) == GetChatSummary(db, u, id, api2)
  {
  }

  /** `getAvailableModels`: the service never throws, so the reply is always 200. */
  function GetAvailableModels(list: Option<seq<string>>): (r: Response<ChatReply>)
    ensures r.Ok? && r.body.Models?
    ensures list.None? ==> r.body.list == []
  {
    Ok(200, Models(OpenAiService.AvailableModels(list)))
  }

  /** None of the per-chat handlers reads or writes another user's chat:
      for an id that names no chat of the requester, each answers 404 and
      changes nothing. */
  lemma PerChatOwnerScoped(db: Db, u: UserId, id: string, p: Field<SettingsPatch>, now: nat,
                           api: OpenAiService.Prompted -> Option<string>)
    requires forall k :: 0 <= k < |db.chats| ==> !(db.chats[k].id == id && db.chats[k].userId == u)
    ensures GetChat(db, u, id) == ChatNotFound
    ensures UpdateChatSettings(db, u, id, p, now) == Outcome(ChatNotFound, db)
    ensures ClearChatMessages(db, u, id, now) == Outcome(ChatNotFound, db)
    ensures DeleteChat(db, u, id, now) == Outcome(ChatNotFound, db)
    ensures GetChatSummary(db, u, id, api) == ChatNotFound
  {
  }
}
