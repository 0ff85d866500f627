# AI chat application: a Dafny model

This project models the decision logic of an AI chat application: an Express
and MongoDB server that keeps user accounts and chat documents and asks
OpenAI for replies, and a React client that talks to it.

On the server side the model covers:

- the User and Chat documents: their defaults, setters, validators, pre-save
  hooks, instance methods, virtuals and query statics;
- the authentication middleware (`protect`, `optionalAuth`, `authorize`) and
  the per-user fixed-window rate limiter `userRateLimit` with its sweep timer;
- the chat router: its middleware order and its route-matching order;
- the chat controller: sending a message, history pagination, fetching a
  chat, clamping settings, clearing, soft deletion, summaries and the model
  list;
- the account handlers of the auth controller and the profile, stats and
  search routes of the users router;
- the pure helpers of the OpenAI service and the fallbacks it gives when the
  API fails.

On the client side it covers the chat store of `ChatContext` (the
`chatReducer` and the dispatch sequences of the provider), the stand-alone
chat page and the dashboard's preferences, theme and logout.

The data lives in immutable values. A collection is a sequence in MongoDB's
natural order, so `findOne` returns the first match. The two chat list queries
sort it most recently active first. The rate-limiter store
is a map from user id to window. A reply is an HTTP status with a body or an
error string. The clock, `Math.random()`, JWT signing and verification,
bcrypt and every OpenAI call are parameters or opaque functions.
`RateLimiterHeap` restates the limiter with the JavaScript Map of object
references and proves it equal to the functional `RateLimiter.Step`.

The JavaScript the model relies on is stated once, in `Js`: absent and null
body fields, truthiness and `||`, `length` in UTF-16 code units, `trim`,
ASCII case mapping, `split(' ')`, `join`, `includes` and the decimal form of
a whole number.

## Model

| member | source | states |
|---|---|---|
| `Js.TrimEmptyIff` | server/controllers/chatController.js:13-17 | `message.trim()` is empty exactly when every character of the message is ECMAScript whitespace or a line terminator, so the guard refuses exactly the blank messages |
| `Js.TrimmedIff` | server/models/User.js:5-12 | the `trim` setter returns a string with no whitespace at either end, and leaves a string unchanged exactly when it already has none |
| `Js.TrimIdempotent` | server/models/Chat.js:3-8 | trimming a stored message content again changes nothing |
| `Js.LowerCasedIff` | server/models/User.js:13-20 | the `lowercase` setter leaves a string unchanged exactly when it holds no upper-case letter, and its result (also after trimming) holds none |
| `Js.LowerTrimCommute` | server/models/User.js:13-20 | lower-casing then trimming gives the same email as trimming then lower-casing, so the order in which the two setters run does not matter |
| `Js.ContainsIff` | server/services/openaiService.js:109-123 | `id.includes('gpt')` holds exactly when `gpt` occurs at some position of the id |
| `Js.UpperReplaceFirst` | server/services/openaiService.js:116 | replacing the first `gpt-` by `GPT-` before upper-casing gives the same display name as upper-casing alone |
| `Js.SplitSpace` | server/middleware/auth.js:11 | `split(' ')` yields at least one piece, and no piece holds a space |
| `Js.SplitJoinRoundTrip` | server/middleware/auth.js:11 | joining the pieces of `split(' ')` with a space gives the header back, so the split loses nothing |
| `Js.CeilDiv` | server/controllers/chatController.js:138 | `Math.ceil(a / b)` is the least whole number whose product with `b` reaches `a` |
| `Js.NatToStringRoundTrip` | server/middleware/auth.js:95 | the seconds interpolated into the 429 message are decimal digits that read back as the same number |
| `Js.Length` | server/services/openaiService.js:94 | `text.length` counts UTF-16 code units: at least one and at most two per character |
| `Js.LengthAppend` | server/services/openaiService.js:94 | the length of two texts joined is the sum of their lengths |
| `Js.LengthIsSizeIff` | server/services/openaiService.js:94 | the length equals the number of characters exactly when no character lies outside the Basic Multilingual Plane |
| `Js.EmojiLength` | server/models/User.js:10 | two emoji are four code units long, so they pass a `minlength` of 3 |
| `UserModel.NormalizeUsernameSpec` | server/models/User.js:5-12 | the stored username has no surrounding whitespace, and a username is stored as given exactly when it is already trimmed |
| `UserModel.NormalizeEmailSpec` | server/models/User.js:13-20 | the stored email is trimmed and lower-case, and an email is stored as given exactly when it is already both |
| `UserModel.NormalizeIdempotent` | server/models/User.js:5-20 | assigning an already stored username or email again stores the same string |
| `UserModel.Save` | server/models/User.js:84-95 | a save succeeds exactly when every schema validator passes; the saved document differs from the input at most in the password, which ends up hashed, a plaintext becoming the hash of that plaintext and an unmodified hash staying as it was |
| `UserModel.SaveIdempotent` | server/models/User.js:85-86 | saving a saved document again changes nothing: an unmodified password is not hashed a second time |
| `UserModel.Create` | server/controllers/authController.js:37-41 | `User.create` succeeds exactly when the trimmed username is 3 to 30 UTF-16 code units long, the normalized email matches the schema pattern and the password has at least 6 code units; the new user then has the normalized fields, a password only the given plaintext opens, no avatar, is offline, and has the default preferences and zero stats |
| `UserModel.CreatedUserNormalized` | server/models/User.js:5-20 | every created user is stored with a trimmed username and a trimmed lower-case email |
| `UserModel.UpdateLastSeen` | server/models/User.js:103-107 | the user is online and last seen now, and no other path changes |
| `UserModel.SetOffline` | server/models/User.js:110-114 | the user is offline and last seen now, and no other path changes |
| `UserModel.PresenceKeepsValid` | server/models/User.js:103-114 | the save after going online or offline succeeds on every valid document and keeps it normalized |
| `UserModel.OnlineThenOffline` | server/models/User.js:103-114 | going online and then offline leaves the document as it was apart from being offline and last seen at the second time |
| `UserModel.FindById` | server/routes/users.js:26 | a hit is a document with that id; a miss means no document has it |
| `UserModel.FindByUsername` | server/controllers/authController.js:150 | a hit is a document whose username equals the trimmed query; a miss means none does |
| `UserModel.FindByEmail` | server/controllers/authController.js:80 | a hit is a document whose email equals the trimmed lower-cased query; a miss means none does |
| `UserModel.WellFormedLookupsUnique` | server/models/User.js:5-20 | under the unique indexes an id, a username or an email picks out at most one document |
| `EmailPattern.DomainIff` | server/models/User.js:19 | the domain part `\w+([.-]?\w+)*(\.\w{2,3})+` accepts exactly the word runs that end in one label of two or three word characters |
| `EmailPattern.DomainRegexIsWordRuns` | server/models/User.js:19 | everything the repeated-label domain accepts is itself a run of words joined by single dots or hyphens |
| `EmailPattern.MatchesSplit` | server/models/User.js:19 | `local@domain` matches the pattern exactly when the local part is a word run and the domain is accepted |
| `EmailPattern.MatchShape` | server/models/User.js:19 | a matching address has exactly one `@`, and both parts start (and the domain ends) with a word character |
| `EmailPattern.ExampleSimple` | server/models/User.js:19 | `a@b.com` matches |
| `EmailPattern.ExampleDotted` | server/models/User.js:19 | `first.last@mail-host.co.uk` matches |
| `EmailPattern.ExampleNoLabel` | server/models/User.js:19 | `a@b` does not match: the domain needs a closing label |
| `EmailPattern.ExampleNoLocalPart` | server/models/User.js:19 | `@b.com` does not match: the local part must be non-empty |
| `RateLimiter.Current` | server/middleware/auth.js:83-89 | the window in force never ends before now: a stored window that has not expired, else a fresh one |
| `RateLimiter.RetryAfterSeconds` | server/middleware/auth.js:95 | the hint is the least number of whole seconds covering the remaining wait |
| `RateLimiter.Step` | server/middleware/auth.js:76-104 | a request without a user passes and changes nothing; otherwise no other user's entry changes, and a passed request leaves the user stored |
| `RateLimiter.MissingEntryStartsFresh` | server/middleware/auth.js:83 | a user with no entry starts at count zero with a window ending `windowMs` from now, and with a positive budget is let through |
| `RateLimiter.ResetOnlyAfterStrictExpiry` | server/middleware/auth.js:86-89 | a stored window stays in force exactly while `now <= resetTime`, and after that is replaced by a fresh one |
| `RateLimiter.LimitedLeavesWindow` | server/middleware/auth.js:92-97 | a request over budget is answered 429 with the rounded-up wait, at least one second while the window runs and zero at its last millisecond, and leaves the store as it was unless the window had expired |
| `RateLimiter.AcceptIncrements` | server/middleware/auth.js:99-101 | a request within budget passes and stores the window with its count raised by exactly one and the same reset time |
| `RateLimiter.CrossUserIndependent` | server/middleware/auth.js:81-101 | one user's request never changes the window another user's later request sees |
| `RateLimiter.StepPreservesBounded` | server/middleware/auth.js:76-104 | no count exceeds the budget and no window ends more than `windowMs` after now, and every request at the same or a later time keeps that so |
| `RateLimiter.Sweep` | server/middleware/auth.js:108-115 | the intended sweep keeps only stored entries, unchanged |
| `RateLimiter.SweepRemovesExactlyExpired` | server/middleware/auth.js:111-113 | a stored entry is removed exactly when `now > resetTime` |
| `RateLimiter.SweepLeavesNoExpired` | server/middleware/auth.js:108-115 | after a sweep no stored window has expired |
| `RateLimiter.SweptStep` | server/middleware/auth.js:83-89 | a store missing only expired entries gives the same decision and the same window in force as the full store, and the relation survives the request |
| `RateLimiter.SweepKeepsSweptOf` | server/middleware/auth.js:108-115 | sweeping again later keeps the store a copy of the full one missing only expired entries |
| `RateLimiter.SweepUnobservable` | server/middleware/auth.js:108-115 | over any trace with non-decreasing times, the limiter with the intended sweep makes every decision the never-sweeping one makes |
| `RateLimiter.ReaperHarmless` | server/middleware/auth.js:108-115 | from the same store, sweeping and not sweeping produce the same decisions, so the intended sweep only saves memory |
| `RateLimiter.AsWrittenNeverEvicts` | server/middleware/auth.js:108-115 | with the timer as written, in a process that survives its throwing callback, every entry present at the start and every user who sent a request is still stored at the end |
| `RateLimiter.AsWrittenKeepsStaleEntry` | server/middleware/auth.js:108-115 | a user seen at time 0 is still stored a day later with the timer as written, in a process that survives its throwing callback, and is gone with the intended sweep |
| `RateLimiter.BurstWithinWindow` | server/middleware/auth.js:86-101 | while a window runs, a burst that fits the remaining budget is let through in full and leaves the count raised by its length |
| `RateLimiter.OverBudgetRefused` | server/middleware/auth.js:92-97 | once the budget is used up and before the window ends, a request is refused with a wait of at least one second and changes nothing |
| `RateLimiter.AfterResetAccepted` | server/middleware/auth.js:86-101 | after the window has passed, the next request passes and opens a new window with count one |
| `RateLimiter.TwoPerSecondScenario` | server/middleware/auth.js:76-104 | with 2 requests per second, requests at 0, 100, 200 and 1100 ms are passed, passed, refused with one second, passed |
| `RateLimiter.AnonymousAlwaysProceed` | server/middleware/auth.js:77-79 | requests without a user all pass and never touch the store |
| `RateLimiterHeap.JsStepRefinesStep` | server/middleware/auth.js:83-101 | the statement-level limiter, with the Map holding references to objects mutated in place, keeps its heap well formed, decides as `Step` does and leaves the Map reaching exactly `Step`'s store |
| `RateLimiterHeap.JsStepKeepsWf` | server/middleware/auth.js:83-101 | after a request every stored reference is live, no two users share an object and fresh references stay fresh |
| `RateLimiterHeap.JsStepDecidesAsStep` | server/middleware/auth.js:86-97 | the in-place reset and the check on the object give `Step`'s decision |
| `RateLimiterHeap.JsStepMatchesStep` | server/middleware/auth.js:99-101 | after the in-place increment and the get-or-set line the Map reaches `Step`'s store |
| `RateLimiterHeap.JsStepViewKeys` | server/middleware/auth.js:101 | the get-or-set line leaves the Map holding exactly the users `Step` stores |
| `RateLimiterHeap.JsStepOthersUntouched` | server/middleware/auth.js:83-101 | another user's reference and object are neither replaced nor mutated |
| `RateLimiterHeap.JsRunRefinesRun` | server/middleware/auth.js:76-115 | over a whole trace the JavaScript limiter and the functional one give the same decisions and the same final store |
| `RateLimiterHeap.SecondIncrementPersists` | server/middleware/auth.js:99-101 | two requests from a new user leave a count of two: the increment on the object obtained from the Map is not lost |
| `AuthMiddleware.TokenOf` | server/middleware/auth.js:11 | the second piece of the header exists exactly when the header contains a space |
| `AuthMiddleware.SplitSpaceSingle` | server/middleware/auth.js:11 | the header splits into a single piece exactly when it has no space |
| `AuthMiddleware.TokenOfBearer` | server/middleware/auth.js:8-11 | the header `Bearer <token>` the client sends passes the prefix test and yields the token |
| `AuthMiddleware.Protect` | server/middleware/auth.js:4-36 | no Bearer header means `no token`; a refusal leaves the users as they were; a request let through had a non-empty token that verifies to a stored user, who is then saved online |
| `AuthMiddleware.ProtectOutcomes` | server/middleware/auth.js:4-36 | on a well-formed collection the four outcomes (no token, token failed, user not found, let through) each happen exactly under their own condition, a pass names the verified id, and the collection stays well formed |
| `AuthMiddleware.ProtectAcceptsIssuedToken` | server/middleware/auth.js:8-26 | a header built from a token that verifies for a stored user lets the request through as that user and marks them online |
| `AuthMiddleware.OptionalAuth` | server/middleware/auth.js:39-55 | the request always goes on; a user is set only for a Bearer header naming a stored document, and none without a Bearer header |
| `AuthMiddleware.OptionalAuthAgreesWithProtect` | server/middleware/auth.js:39-55 | where `protect` lets a request through, `optionalAuth` sets the same user and leaves the same collection |
| `AuthMiddleware.Authorize` | server/middleware/auth.js:58-70 | no user gives 401; with a user the request goes on exactly when its role is one of the allowed ones, and is otherwise refused 403 |
| `AuthMiddleware.AuthorizeRefusesEveryUser` | server/middleware/auth.js:64-66 | as the User schema has no role, every authenticated user is refused 403 |
| `OpenAiService.DefaultModel` | server/services/openaiService.js:9 | the default model is never empty: a truthy `OPENAI_MODEL`, else `gpt-3.5-turbo` |
| `OpenAiService.Spread` | server/services/openaiService.js:24-28 | a key given in the options overrides the default whatever its value, `undefined` included; a key not given keeps the default |
| `OpenAiService.MergeSettings` | server/services/openaiService.js:24-28 | the merged model is the truthy `options.model` or the default model, never empty, and every other key is the option when given and otherwise the service default (0.7, 1000, 1, 0, 0) |
| `OpenAiService.MergeNoOptions` | server/services/openaiService.js:10-16 | a call without options runs on the service defaults |
| `OpenAiService.MergeIdempotent` | server/services/openaiService.js:24-28 | merged settings fed back as options come out unchanged, whatever the default model then is |
| `OpenAiService.FormatMessages` | server/services/openaiService.js:84-89 | one turn per message, in order, holding exactly that message's role and content |
| `OpenAiService.FormatTurnsIsIdentity` | server/services/openaiService.js:84-89 | formatting messages that are already role and content pairs gives them back unchanged |
| `OpenAiService.FormatTwiceIsOnce` | server/services/openaiService.js:84-89 | formatting an already formatted list changes nothing |
| `OpenAiService.CompletionRequest` | server/services/openaiService.js:20-39 | the API is sent the messages unchanged, with the merged model, temperature, token limit, top-p and penalties |
| `OpenAiService.EstimateTokens` | server/services/openaiService.js:92-95 | the estimate is the least whole number of tokens that, at four UTF-16 code units each, covers the text |
| `OpenAiService.EstimateTokensLaws` | server/services/openaiService.js:92-95 | the estimate is zero exactly for the empty text, never shrinks as the length grows, and the estimate of two texts together is at most the sum of theirs |
| `OpenAiService.EstimateTokensCountsCodeUnits` | server/services/openaiService.js:94 | four emoji, eight code units, are estimated at two tokens |
| `OpenAiService.ModelMaxTokens` | server/services/openaiService.js:126-135 | the four known models get 8192, 32768, 4096 and 16384 tokens, and any other id containing `gpt` (the only ids `getAvailableModels` passes) gets 4096 |
| `OpenAiService.ModelMaxTokensRange` | server/services/openaiService.js:126-135 | every limit is one of the four table values and at least 4096, and a larger one only belongs to a known model |
| `OpenAiService.ModelName` | server/services/openaiService.js:116 | the display name is the id upper-cased |
| `OpenAiService.GptIds` | server/services/openaiService.js:113 | the filter keeps only listed ids containing `gpt` and keeps every one of them |
| `OpenAiService.AvailableModels` | server/services/openaiService.js:109-123 | a failed listing gives the empty list; otherwise one entry per `gpt` id, in order, describing it |
| `OpenAiService.AvailableModelsSound` | server/services/openaiService.js:109-123 | every entry is a `gpt` model the API named, with its upper-cased name and its context size, and no `gpt` model the API named is missing |
| `OpenAiService.Clause` | server/services/openaiService.js:141-151 | a truthy context value adds its sentence around the value; a falsy one adds nothing |
| `OpenAiService.SystemPrompt` | server/services/openaiService.js:138-156 | the prompt starts with the fixed opening, ends with the fixed closing, and between them holds exactly the role, tone and expertise sentences in that order |
| `OpenAiService.SystemPromptBareIff` | server/services/openaiService.js:138-156 | the prompt is only the opening and the closing exactly when role, tone and expertise are all falsy |
| `OpenAiService.Lines` | server/services/openaiService.js:196 | one `role: content` line per message, in order |
| `OpenAiService.TranscriptSnoc` | server/services/openaiService.js:196 | one more message adds a newline and its line at the end of the transcript |
| `OpenAiService.TranscriptSingle` | server/services/openaiService.js:196 | the transcript of one message is its line, with no newline |
| `OpenAiService.SummaryRequest` | server/services/openaiService.js:187-201 | the summary request uses `gpt-3.5-turbo` at temperature 0.3, a token budget of `ceil(maxLength / 4)` and the transcript as the user message |
| `OpenAiService.DefaultSummaryBudget` | server/services/openaiService.js:185 | at the default length of 200 characters the summary may use 50 tokens |
| `OpenAiService.GenerateSummary` | server/services/openaiService.js:185-208 | the summary is the API's text, or `Conversation summary unavailable` when the call fails |
| `OpenAiService.SentimentRequest` | server/services/openaiService.js:161-175 | the sentiment request sends the message as the user turn with a budget of 10 tokens at temperature 0 |
| `OpenAiService.AnalyzeSentiment` | server/services/openaiService.js:159-182 | the sentiment is `neutral` when the call fails, and is always trimmed and lower-case |
| `OpenAiService.SentimentOfCleanReply` | server/services/openaiService.js:177 | on success the sentiment is the reply trimmed and lower-cased, and a reply that is already clean comes back as is |
| `ChatModel.ParseRole` | server/models/Chat.js:9-13 | a role is accepted exactly when it is `user`, `assistant` or `system` |
| `ChatModel.RoleRoundTrip` | server/models/Chat.js:9-13 | every role's name parses back to that role, and an accepted name is the name of the role it parses to |
| `ChatModel.NewMessage` | server/models/Chat.js:3-8 | a cast message has its content trimmed, and keeps the given role and token count |
| `ChatModel.NewChat` | server/models/Chat.js:29-97 | a new chat is titled `New Chat`, has no messages, is active, belongs to the given user and carries the given settings with model `gpt-3.5-turbo` |
| `ChatModel.DefaultsValid` | server/models/Chat.js:36-66 | the schema defaults pass every validator |
| `ChatModel.SumTokensAppend` | server/models/Chat.js:122 | the token total of two message lists together is the sum of their totals |
| `ChatModel.PreSave` | server/models/Chat.js:120-125 | after the hook both counters agree with the message list and the activity time is now; nothing else changes |
| `ChatModel.Save` | server/models/Chat.js:120-125 | a save succeeds exactly when the title, the settings and every message pass validation, and stores the document with its counters recomputed |
| `ChatModel.SaveAgain` | server/models/Chat.js:120-125 | saving a saved chat again only moves the activity time |
| `ChatModel.ValidAppend` | server/models/Chat.js:3-8 | a chat with one more message is valid exactly when the chat was and the new message has non-empty content |
| `ChatModel.AddMessage` | server/models/Chat.js:128-138 | adding succeeds exactly when the chat was valid and the trimmed content is not empty, appends exactly the new message and leaves the counters consistent |
| `ChatModel.AddMessageAppendsOne` | server/models/Chat.js:128-138 | the earlier messages stay as they were, one message with the trimmed content and the role is added, and the token total does not move |
| `ChatModel.SliceFrom` | server/models/Chat.js:142 | `slice(start)`, negative starts included, always yields a tail of the list |
| `ChatModel.RecentMessages` | server/models/Chat.js:141-143 | the recent messages are always a tail of the message list |
| `ChatModel.RecentMessagesLast` | server/models/Chat.js:141-143 | for a positive limit they are the last `min(limit, n)` messages in their order |
| `ChatModel.RecentMessagesZeroIsAll` | server/models/Chat.js:142 | `slice(-0)` is `slice(0)`: a limit of 0 returns every message, not none |
| `ChatModel.ClearMessages` | server/models/Chat.js:146-151 | clearing succeeds exactly when the title and settings are valid, leaves no messages and both counters at zero, and changes nothing else |
| `ChatModel.ClearMessagesIdempotent` | server/models/Chat.js:146-151 | clearing a valid chat always succeeds, and clearing twice is clearing once |
| `ChatModel.TitleFromLaws` | server/models/Chat.js:157-159 | the derived title has at most 33 characters; it is the content itself when that fits in 30, and otherwise its first 30 characters followed by `...` |
| `ChatModel.UpdateTitleShape` | server/models/Chat.js:154-162 | a retitled chat keeps its owner and messages, has consistent counters, carries the derived title, and saves again without a validation error |
| `ChatModel.UpdateTitleExact` | server/models/Chat.js:154-162 | on a valid chat whose first message is stored, the save succeeds and the title is exactly the derived one |
| `ChatModel.RetitleValid` | server/models/Chat.js:36-41 | a title of at most 100 UTF-16 code units keeps a valid chat valid |
| `ChatModel.Summary` | server/models/Chat.js:105-112 | no messages give `No messages yet`; a first message of at most 50 characters is the summary; a longer one gives its first 50 characters followed by `...` |
| `ChatModel.MessageCountTracksStats` | server/models/Chat.js:115-125 | after adding a message `messageCount` has grown by one and equals the stored `totalMessages` |
| `ChatModel.Where` | server/models/Chat.js:168 | the filter keeps only chats of the collection that satisfy the condition, and every such chat |
| `ChatModel.WhereAppend` | server/models/Chat.js:168 | filtering two lists joined is filtering each and joining the results, so the order of the collection is kept and each chat is kept or dropped on its own |
| `ChatModel.WhereLaws` | server/models/Chat.js:168 | a list whose chats all pass is kept whole, and filtering twice is filtering once |
| `ChatModel.Page` | server/models/Chat.js:170-171 | the page is the window of the list that starts after `skip` chats and holds `limit` of them, or all that remain when fewer remain or the limit is 0 |
| `ChatModel.PagesTile` | server/models/Chat.js:170-171 | a page followed by the next one is exactly the page twice as long, so consecutive pages neither skip nor repeat a chat |
| `ChatModel.ByActivity` | server/models/Chat.js:166-169 | `sort({ lastActivity: -1 })` gives the same chats, as a multiset, with every chat at least as recently active as those after it |
| `ChatModel.ByActivityFixesSorted` | server/models/Chat.js:166-169 | a list already most recent first is left as it is, so sorting twice is sorting once |
| `ChatModel.LaterChatListedFirst` | server/models/Chat.js:166-169 | of a chat and a later-active one, the later one is listed first |
| `ChatModel.FindByUser` | server/models/Chat.js:165-173 | the chats found are the window of the user's active chats, sorted most recently active first, that starts after `skip` of them and holds `limit` of them (all remaining when fewer remain or the limit is 0); the page is itself most recent first |
| `ChatModel.SearchChats` | server/models/Chat.js:176-185 | a chat is found exactly when it belongs to the user, is active and matches the term, and the results are most recently active first |
| `ChatModel.FindByUserFirstPage` | server/models/Chat.js:165-173 | when the limit covers them all, the first page holds exactly the user's active chats |
| `ChatModel.QueriesOwnerScoped` | server/models/Chat.js:165-185 | neither query ever yields another user's chat or a deleted one |
| `ChatController.FindChat` | server/controllers/chatController.js:23 | a hit is a chat with that id owned by the requester; a miss means the requester owns no chat with that id |
| `ChatController.Place` | server/controllers/chatController.js:93 | saving a new chat appends it; saving a stored one replaces it in place and leaves every other chat as it was |
| `ChatController.PlaceOwned` | server/controllers/chatController.js:19-39 | putting the requester's chat in place changes no other user's chat |
| `ChatController.FreshSettingsDefaults` | server/controllers/chatController.js:31-38 | the temperature and token limit of a new chat are the supplied values only when truthy, else 0.7 and 1000, so 0 gives the defaults, which pass validation; a model sent with the settings is not kept, because the schema has no `settings.model` |
| `ChatController.Locate` | server/controllers/chatController.js:13-39 | a send gets past the checks only with a non-blank message and a chat of the requester (the stored one when an id is given); it is answered 400 exactly for a missing or blank message |
| `ChatController.AddUsageSpec` | server/controllers/chatController.js:85-91 | only the requester's counters move, by exactly the given message and token amounts with `lastActive` now; a missing user is no error and changes nothing |
| `ChatController.SendMessage` | server/controllers/chatController.js:8-112 | a refused send is answered with the check's error and changes nothing; an accepted one goes through the exchange; no other user's chat ever changes |
| `ChatController.Exchange` | server/controllers/chatController.js:41-103 | a failed AI call is a 500 that changes nothing; a success stores the chat with the user's and the assistant's messages appended, consistent counters and, for a first exchange, the title from the first message, and adds two messages and both token counts to the requester |
| `ChatController.Finish` | server/controllers/chatController.js:79-93 | the title is re-derived exactly when the chat has just reached two messages, the usage is counted, and the saved chat is in the collection |
| `ChatController.Commit` | server/controllers/chatController.js:85-103 | the usage is counted before the final save, so it persists even when that save fails; a successful save places the chat and replies with it and the AI's text |
| `ChatController.Retitle` | server/controllers/chatController.js:80-103 | after `updateTitle` the counters and the final save follow; a failed title save changes nothing and answers 500, a success replies with the chat under its derived title, and only the owner's chats are touched |
| `ChatController.BlankMessageRefused` | server/controllers/chatController.js:13-17 | a missing, empty or blank message is answered 400 before any lookup and changes nothing, and a 400 means exactly that |
| `ChatController.ForeignChatRefused` | server/controllers/chatController.js:22-28 | a well-formed chat id naming no chat of the requester is answered 404 and changes nothing |
| `ChatController.AiFailureChangesNothing` | server/controllers/chatController.js:58-62 | a failed AI call stores nothing and counts nothing |
| `ChatController.SendAppendsExchange` | server/controllers/chatController.js:41-103 | a successful send stores the chat with exactly two more messages, the trimmed user message then the assistant's; the reply carries the AI's text; the title is derived from the first message exactly when the chat had none before |
| `ChatController.SendUsesChatSettings` | server/controllers/chatController.js:52-62 | the AI sees the whole history plus the trimmed user message, with the chat's temperature and token limit, and always with the service's default model (`OPENAI_MODEL` or `gpt-3.5-turbo`), since `chat.settings.model` reads a path the schema lacks |
| `ChatController.SendUsers` | server/controllers/chatController.js:85-91 | after a successful send, the message was present and found its chat, the AI answered, and the users are the old ones with only the requester's usage raised by two messages and the tokens of both messages |
| `ChatController.UsageCounted` | server/controllers/chatController.js:41-91 | the exchange raises the requester's message count by two and their token count by the estimate of the message as sent plus the completion tokens the API reported, or 0, with `lastActive` set to now |
| `ChatController.TotalPages` | server/controllers/chatController.js:138 | for a positive limit the page count is `ceil(total / limit)`; a limit of 0 serializes as `null` |
| `ChatController.GetChatHistory` | server/controllers/chatController.js:117-150 | every chat listed belongs to the requester and is not deleted |
| `ChatController.PaginationConsistent` | server/controllers/chatController.js:120-142 | for positive page and limit the listing skips `(page - 1) * limit` chats and holds at most `limit`; there is a next page exactly when this is not the last of `ceil(total / limit)` and a previous one exactly when this is not the first |
| `ChatController.PageArithmetic` | server/controllers/chatController.js:122-139 | the skip of a positive page is not negative, and `page * limit < total` holds exactly when the page is not the last of `ceil(total / limit)` |
| `ChatController.SearchIgnoresPaging` | server/controllers/chatController.js:126-138 | a search lists every hit whatever the page and limit, while the page count still counts all listed chats |
| `ChatController.PageZeroFails` | server/controllers/chatController.js:122-130 | page 0 asks for a negative skip and is answered 500 |
| `ChatController.GetChat` | server/controllers/chatController.js:155-176 | the requester gets exactly their own chat with that well-formed id, deleted or not, and 404 when there is none |
| `ChatController.ClampLaws` | server/controllers/chatController.js:197-200 | the clamp lands in range, leaves exactly the in-range values unchanged and is idempotent |
| `ChatController.PatchSettings` | server/controllers/chatController.js:196-204 | a missing key keeps the setting; a present temperature ends in 0..2 and a present token limit in 1..4000; top-p never changes |
| `ChatController.PatchSettingsLaws` | server/controllers/chatController.js:196-204 | patching keeps valid settings valid, an in-range value is stored as sent, `null` is stored as the lower bound, and a model in the patch changes nothing, because `settings.model` is not a schema path |
| `ChatController.UpdateChatSettings` | server/controllers/chatController.js:181-216 | a foreign or missing chat is 404; a refusal changes nothing; a success requires a settings object, replies with the chat and stores it with only its settings patched and its activity time moved; no other user's chat changes |
| `ChatController.UpdateSettingsSucceeds` | server/controllers/chatController.js:195-206 | on a valid stored chat an update with a settings object always succeeds |
| `ChatController.ClearChatMessages` | server/controllers/chatController.js:221-247 | a foreign or missing chat is 404; a success leaves the chat with no messages and zero counters and replies with it; no other user's chat changes |
| `ChatController.DeleteChat` | server/controllers/chatController.js:252-279 | a foreign or missing chat is 404; a success replies `Chat deleted successfully`; no chat is removed and no other user's chat changes |
| `ChatController.DeleteIsSoft` | server/controllers/chatController.js:265-267 | a deleted chat keeps its messages and counters, only becomes inactive, drops out of the listing, and is still returned by `getChat` |
| `ChatController.FindChatSameKeys` | server/controllers/chatController.js:160 | the lookup reads only ids and owners, so it finds the same chat after any change that keeps them |
| `ChatController.GetChatSummary` | server/controllers/chatController.js:284-317 | a foreign or missing chat is 404; an empty chat gets `No messages to summarize`; otherwise the reply holds the service's summary of the messages, their count and the chat's token total |
| `ChatController.EmptySummaryNeedsNoAi` | server/controllers/chatController.js:297-301 | an empty chat's summary reply does not depend on the AI |
| `ChatController.GetAvailableModels` | server/controllers/chatController.js:322-332 | the model list is always answered 200, empty when the listing failed |
| `ChatController.PerChatOwnerScoped` | server/controllers/chatController.js:155-317 | for a well-formed chat id the requester does not own, every per-chat handler answers 404 and changes nothing |
| `ChatRoutes.MatchFrom` | server/routes/chat.js:22-31 | the route found is the first from the starting position whose method and pattern match, and a miss means none matches |
| `ChatRoutes.Select` | server/routes/chat.js:2-31 | the handler selected is that of a registered route matching method and path, literal segments matching in any letter case as the default router does, and there is none exactly when no route matches |
| `ChatRoutes.ModelsBeforeChatId` | server/routes/chat.js:24-27 | `GET /models` reaches the model list although `/:id` would match it too, because it is registered first |
| `ChatRoutes.ModelsInAnyCase` | server/routes/chat.js:2-24 | a single segment that lower-cases to `models` reaches the model list, whatever its letter case |
| `ChatRoutes.HistoryInAnyCase` | server/routes/chat.js:2-23 | a single segment that lower-cases to `history` reaches the history, whatever its letter case |
| `ChatRoutes.CapitalizedModelsIsTheList` | server/routes/chat.js:2-27 | `GET /Models` is the model list, not the chat with id `Models` |
| `ChatRoutes.HistoryRoute` | server/routes/chat.js:23 | `GET /history` reaches the history handler |
| `ChatRoutes.ChatIdRoute` | server/routes/chat.js:27 | any other single segment, one that lower-cases to neither `history` nor `models`, reaches `getChat` with that segment, as sent, as the id |
| `ChatRoutes.SettingsRoute` | server/routes/chat.js:28 | `PUT /:id/settings` reaches the settings handler with the id |
| `ChatRoutes.DeleteRoutes` | server/routes/chat.js:29-30 | `DELETE /:id/messages` and `DELETE /:id` reach their own handlers and do not shadow each other |
| `ChatRoutes.SummaryRoute` | server/routes/chat.js:31 | `GET /:id/summary` reaches the summary handler, not `getChat` |
| `ChatRoutes.SendRoute` | server/routes/chat.js:22 | `POST /send` reaches the send handler |
| `ChatRoutes.MountedUnfolds` | server/routes/chat.js:16-19 | as mounted, the limiter passes every request on without a trace and `protect` alone decides |
| `ChatRoutes.LimiterNeverCounts` | server/routes/chat.js:16-19 | as mounted, the limiter sees no user: it records nothing and no chat request is ever answered 429 |
| `ChatRoutes.ServeAll` | server/routes/chat.js:16-31 | one ending per request served |
| `ChatRoutes.LimiterNeverCountsOverTrace` | server/routes/chat.js:16-19 | over any sequence of requests the mounted limiter's Map never changes and no request is answered 429 |
| `ChatRoutes.NoBearerNoHandler` | server/routes/chat.js:19 | without a Bearer header every chat request is answered 401 `no token` and changes nothing |
| `ChatRoutes.AuthenticatedReachesRoute` | server/routes/chat.js:19-31 | a request `protect` lets through reaches the selected route as the authenticated user, or no route |
| `ChatRoutes.HandlersSeeAuthenticatedUser` | server/routes/chat.js:19-31 | only a request `protect` lets through reaches a handler, and it arrives with that user set |
| `ChatRoutes.IntendedUnfolds` | server/routes/chat.js:16-19 | with `protect` first, an authenticated request is either refused 429 by the limiter or reaches its route, with the limiter's store updated |
| `ChatRoutes.IntendedChainCounts` | server/routes/chat.js:16-19 | with `protect` first, the limiter records every authenticated request as the limiter's own step does, and answers 429 exactly when that step refuses |
| `ChatRoutes.IntendedChainLimits` | server/routes/chat.js:16-19 | with `protect` first, a user who has used up the 50 requests of a running window is refused 429 |
| `Accounts.Commit` | server/models/User.js:4-20 | a save against the collection succeeds exactly when the document validates and no other document holds its id, username or email, and stores the hashed document |
| `Accounts.Place` | server/controllers/authController.js:37-41 | a new document is appended; a saved one replaces the old version in place and leaves every other document as it was |
| `Accounts.CommitKeepsWellFormed` | server/models/User.js:4-20 | committing a normalized document keeps ids, usernames and emails unique and every document stored |
| `Accounts.FindEither` | server/controllers/authController.js:26-28 | the duplicate lookup finds nothing exactly when no document holds the normalized email or the normalized username |
| `Accounts.Register` | server/controllers/authController.js:14-63 | a body missing a field is 400 with nothing stored; a refusal stores nothing; a success is 201, appends exactly the created document and returns its public fields with a token signed for the new id |
| `Accounts.RegisterDuplicateIff` | server/controllers/authController.js:25-34 | a complete registration is refused as a duplicate exactly when some user already holds the normalized email or username |
| `Accounts.RegisterIndexNeverFires` | server/controllers/authController.js:25-41 | on a well-formed collection with an unused id, a complete registration that passes the duplicate check fails only when the new document does not validate |
| `Accounts.CommitCreated` | server/controllers/authController.js:37-41 | a created document whose id nobody holds, and whose username and email the duplicate lookup finds nowhere, passes the unique indexes and is saved as created |
| `Accounts.RegisterKeepsWellFormed` | server/controllers/authController.js:14-63 | registration keeps ids, usernames and emails unique and every stored document valid |
| `Accounts.Login` | server/controllers/authController.js:68-115 | a missing field is 400; a refusal changes nothing; a success means the normalized email found a document whose password matches, which is then marked online, and the reply carries its public fields, stats and a token for it |
| `Accounts.LoginFailuresIndistinguishable` | server/controllers/authController.js:82-95 | an unknown email and a wrong password get the very same 401 reply and change nothing |
| `Accounts.LoginKeepsWellFormed` | server/controllers/authController.js:97-98 | logging in keeps the collection well formed |
| `Accounts.FindByEmailUnique` | server/controllers/authController.js:80 | in a well-formed collection the email lookup finds the one document holding the normalized email |
| `Accounts.LoginFinds` | server/controllers/authController.js:80-108 | a login whose email finds a document with a matching password succeeds for that document and carries a token for it |
| `Accounts.CommitLastSeen` | server/models/User.js:103-107 | marking a stored user online saves without a validation or index error |
| `Accounts.RegisterThenLogin` | server/controllers/authController.js:14-115 | after a successful registration, logging in with the same email and password succeeds for the new account |
| `Accounts.MergePreferences` | server/controllers/authController.js:171-173 | every supplied preference key wins and every other key keeps its stored value |
| `Accounts.MergePreferencesLaws` | server/controllers/authController.js:171-173 | merging the same preferences twice is merging once, and an empty object changes nothing |
| `Accounts.ApplyProfile` | server/controllers/authController.js:167-173 | username and email change only when truthy, through their setters; `avatar` changes whenever it is present, `null` clearing it; preferences merge when present; nothing else changes |
| `Accounts.UpdateProfileWith` | server/controllers/authController.js:136-191 | a missing user is 404; a refusal stores nothing; a success means neither check refused and the updated document saved, and the reply carries its public fields and stats |
| `Accounts.AuthUpdateProfile` | server/controllers/authController.js:185-189 | the auth route's server error reads `Server error while updating profile` |
| `Accounts.UsersUpdateProfile` | server/routes/users.js:22-69 | the users route's server error reads `Server error` |
| `Accounts.ProfileRoutesAgree` | server/routes/users.js:22-69 | the two profile routes store the same collection and give the same reply except for the wording of a server error |
| `Accounts.TakenUsernameRefused` | server/routes/users.js:33-38 | a new username another document holds after trimming is refused 400 with nothing saved |
| `Accounts.TakenEmailRefused` | server/routes/users.js:40-45 | a new email another document holds after normalizing is refused 400 with nothing saved |
| `Accounts.UpdateProfileIndexNeverFires` | server/controllers/authController.js:148-175 | on a well-formed collection an update that passes both checks fails only when the document does not validate |
| `Accounts.UpdateProfileKeepsWellFormed` | server/controllers/authController.js:136-191 | a profile update keeps the collection well formed |
| `Accounts.UpdateProfileFieldRules` | server/controllers/authController.js:167-183 | after a successful update the username is the trimmed one sent (if truthy), the avatar follows the body, and the password, stats and id are as before |
| `Accounts.OwnEmailRefused` | server/routes/users.js:40-45 | as written, an email that differs from the caller's own as sent but normalizes to it is refused 400 `Email already registered` |
| `Accounts.OwnEmailRefusedAsWritten` | server/controllers/authController.js:158-165 | as written, re-sending one's own email with its first letter capitalized is refused, although no other user holds it |
| `Accounts.CapitalizedNormalizes` | server/models/User.js:17-18 | an email with its first letter capitalized differs from the stored one yet normalizes back to it |
| `Accounts.UpdateProfileIntended` | server/controllers/authController.js:136-191 | the corrected update stores nothing on a refusal, and on success stores and returns the updated document |
| `Accounts.UpdateProfileIntendedRefusesOnlyOthers` | server/controllers/authController.js:158-165 | the corrected check refuses an email exactly when another user holds its normalized form, and otherwise succeeds exactly when the updated document validates |
| `Accounts.ResendingOwnEmailChangesNothing` | server/controllers/authController.js:167-173 | a body that only re-sends what the setters turn into the stored email leaves the document as it was |
| `Accounts.OwnEmailAcceptedAsIntended` | server/controllers/authController.js:158-165 | with the corrected check, re-sending one's own email in any case or spacing succeeds and changes nothing |
| `Accounts.IntendedAcceptsNoChange` | server/controllers/authController.js:136-191 | with the corrected check, an update that leaves the document as it was succeeds and changes nothing |
| `Accounts.OwnEmailHeldByNoOther` | server/models/User.js:16 | in a well-formed collection no other user holds a user's email |
| `Accounts.ChangePassword` | server/controllers/authController.js:196-236 | a missing field is 400; a refusal changes nothing; a success means the current password matched and the new one has at least 6 UTF-16 code units, and stores only the hash of the new one |
| `Accounts.ChangePasswordThenCompare` | server/controllers/authController.js:214-225 | after a change exactly the new password opens the account |
| `Accounts.WrongCurrentPasswordRefused` | server/controllers/authController.js:214-221 | a wrong current password is refused 401 and changes nothing |
| `Accounts.ChangePasswordKeepsWellFormed` | server/controllers/authController.js:223-225 | changing a password keeps the collection well formed |
| `Accounts.GetProfile` | server/controllers/authController.js:120-131 | the reply is always 200; it holds the requester's document without its password exactly when it is stored, and `null` otherwise |
| `Accounts.GetStats` | server/routes/users.js:74-82 | the stats of the requester are returned, and a missing document throws into a 500 |
| `Accounts.Logout` | server/controllers/authController.js:241-255 | a success answers `Logged out successfully` and leaves the requester offline and last seen now, with every other document as it was; a failure changes nothing |
| `Accounts.LogoutSucceeds` | server/controllers/authController.js:241-255 | on a well-formed collection a stored user can always log out, is offline afterwards, and the collection stays well formed |
| `Accounts.Refresh` | server/controllers/authController.js:260-289 | a stored requester gets a new token signed for their id with their public fields, and a missing one 404 |
| `Accounts.SearchTerm` | server/routes/users.js:89-95 | the search is refused 400 exactly when `q` is missing or shorter than 2 UTF-16 code units once trimmed, and otherwise runs on the trimmed term |
| `ChatContext.InitialState` | client/src/contexts/ChatContext.js:7-12 | the store starts with no current chat, an empty history, not loading and no error |
| `ChatContext.SettersReplaceOneField` | client/src/contexts/ChatContext.js:14-34 | each of `SET_CURRENT_CHAT`, `SET_CHAT_HISTORY`, `SET_LOADING` and `SET_ERROR` makes its own field read back the payload and leaves the other three fields untouched |
| `ChatContext.LastWriteWins` | client/src/contexts/ChatContext.js:14-36 | two consecutive writes to the same field (the error written by either `SET_ERROR` or `CLEAR_ERROR`) leave the state the second alone would |
| `ChatContext.AddMessageAppends` | client/src/contexts/ChatContext.js:20-30 | `ADD_MESSAGE` appends the message after the current chat's messages and keeps its id, title and every other field; with no current chat it changes nothing |
| `ChatContext.AddMessagesAppendInOrder` | client/src/contexts/ChatContext.js:20-30 | a run of `ADD_MESSAGE` actions appends exactly their messages, in dispatch order, to the current chat, and is a no-op without one |
| `ChatContext.ClearErrorIdempotent` | client/src/contexts/ChatContext.js:35-36 | `CLEAR_ERROR` leaves no error, touches no other field, and a second one changes nothing |
| `ChatContext.UnknownActionIgnored` | client/src/contexts/ChatContext.js:37-38 | an action of an unknown type returns the state unchanged |
| `ChatContext.SendMessage` | client/src/contexts/ChatContext.js:45-72 | loading is raised first and dropped last and toggled nowhere in between; a failed post records the server's error or the fallback text as the error, raises it as the one toast and returns it; a successful one returns the chat and reply and raises no toast |
| `ChatContext.SendMessageFinalState` | client/src/contexts/ChatContext.js:45-72 | after sending, the store is not loading; a failure leaves the current chat and history as they were and holds the error; a success makes the returned chat current, keeps the error, and replaces the history only for a new chat whose history fetch succeeded |
| `ChatContext.SendMessageShowsLoading` | client/src/contexts/ChatContext.js:45-46 | while the request is outstanding the store reads as loading |
| `ChatContext.LoadChatSetsCurrent` | client/src/contexts/ChatContext.js:83-91 | a loaded chat becomes current with the rest of the store unchanged and no toast; a failed load leaves the store as it was and raises one error toast |
| `ChatContext.ClearChat` | client/src/contexts/ChatContext.js:93-102 | a failed clear raises only the failure toast; a successful one reloads the chat and ends with the success toast whatever the reload's outcome |
| `ChatContext.ClearThenFailedReloadToastsBoth` | client/src/contexts/ChatContext.js:83-102 | a successful clear followed by a failed reload shows the load failure and then the clear success |
| `ChatContext.DeleteChat` | client/src/contexts/ChatContext.js:104-114 | a failed delete raises only the failure toast; a successful one raises the success toast and its last dispatch clears the current chat |
| `ChatContext.DeleteChatClearsCurrent` | client/src/contexts/ChatContext.js:104-114 | after a successful delete no chat is current, loading and error are unchanged, and the history is the refetched one when that fetch succeeded; a failed delete leaves the store unchanged |
| `ChatPage.Mount` | client/src/pages/Chat.js:19-43 | mounting ends the user loading screen and leaves the messages, the input and the reply flag as they were |
| `ChatPage.GuestUnlessStoredUserParses` | client/src/pages/Chat.js:9-14 | from the initial page, the visitor is signed in exactly when both stored items are non-empty and the user document parses, is then shown the parsed user, and otherwise sees the default guest user |
| `ChatPage.Submit` | client/src/pages/Chat.js:89-106 | a blank input or a pending reply leaves the page unchanged; otherwise the trimmed input is appended as a user message stamped with the clock, the input is emptied and a reply becomes pending, with the user fields untouched |
| `ChatPage.Pick` | client/src/pages/Chat.js:75 | the reply index drawn from a random number in [0, 1) always names one of the five replies |
| `ChatPage.Reply` | client/src/pages/Chat.js:60-87 | the reply appends exactly one assistant message, marked as AI, with id one past the clock and content one of the canned replies, keeps the earlier messages and the input, and ends the pending state |
| `ChatPage.EveryReplyReachable` | client/src/pages/Chat.js:67-75 | each of the five canned replies is chosen for some random number |
| `ChatPage.NewChat` | client/src/pages/Chat.js:108-111 | a new chat empties the message list and the input and keeps the pending flag and the user |
| `ChatPage.InitialIdle` | client/src/pages/Chat.js:6-14 | the page opens with no pending reply, no messages and an input that cannot be submitted |
| `ChatPage.SubmitWaits` | client/src/pages/Chat.js:89-106 | a submit accepted on an idle page leaves whole exchanges followed by one user message awaiting its reply |
| `ChatPage.ReplyCompletes` | client/src/pages/Chat.js:60-87 | the reply to a waiting page restores whole user-then-assistant exchanges with nothing pending |
| `ChatPage.ExchangeKeepsAlternation` | client/src/pages/Chat.js:60-106 | from an idle page, a submit and its reply keep user and assistant messages alternating, starting with the user; a refused submit keeps the page idle |
| `ChatPage.WaitingRefusesSubmit` | client/src/pages/Chat.js:91 | while a reply is pending a further submit changes nothing |
| `ChatPage.NewChatWhileWaiting` | client/src/pages/Chat.js:85-111 | a new chat started while a reply is pending ends with the reply alone in the list, which then opens with an assistant message |
| `ChatPage.BackTarget` | client/src/pages/Chat.js:113-119 | the back button leads to the dashboard exactly when the visitor is signed in, and to the login page otherwise |
| `ChatPage.Sidebar` | client/src/pages/Chat.js:184 | the sidebar lists the first eight messages, or all of them when there are fewer, in order |
| `ChatPage.Preview` | client/src/pages/Chat.js:194 | an entry's text is the message's first forty characters, or the whole message when shorter, followed by an ellipsis |
| `ChatPage.PreviewLaws` | client/src/pages/Chat.js:194 | a message of at most forty characters is shown whole, messages agreeing on their first forty characters look the same, and equal previews mean equal shown prefixes |
| `ChatPage.AvatarLetter` | client/src/pages/Chat.js:210 | the avatar is one character: the upper-cased first letter of a non-empty user name, or `G` |
| `ChatPage.AvatarOfName` | client/src/pages/Chat.js:210 | for a named user the avatar is the upper-cased first letter of the name, and `G` for an empty name, a null name or no user |
| `ChatPage.DisplayName` | client/src/pages/Chat.js:214 | the shown name is never empty and is the user's own name whenever it is non-empty |
| `Dashboard.Toggle` | client/src/pages/Dashboard.js:564-566 | the quick toggle always yields one of the three themes, and any unrecognised stored theme becomes light |
| `Dashboard.ToggleCycle` | client/src/pages/Dashboard.js:564-566 | each of light, dark and auto returns to itself after exactly three toggles and not after one or two; any other value joins the cycle at light |
| `Dashboard.DarkClassCases` | client/src/pages/Dashboard.js:30-41 | the dark class is forced on by dark, follows the system preference exactly in auto mode, and is off for every other theme |
| `Dashboard.SystemChange` | client/src/pages/Dashboard.js:43-59 | outside auto mode a change of system preference leaves the dark class as it was |
| `Dashboard.ListenerKeepsClassCurrent` | client/src/pages/Dashboard.js:30-59 | once the theme effect has set the class, any later system change leaves the class the theme effect would choose for the new preference |
| `Dashboard.Mount` | client/src/pages/Dashboard.js:12-28 | the page redirects to the login page exactly when the login flag or the user item is missing or empty; otherwise it fails exactly when the user item does not parse, and else loads the parsed user with the saved theme and language, defaulting to auto and en |
| `Dashboard.Persist` | client/src/pages/Dashboard.js:30-41 | the theme and language effects store the two current values, keep every other stored item, and set the dark class as the theme decides |
| `Dashboard.OpenRestoresPreferences` | client/src/pages/Dashboard.js:12-65 | a signed-in visit stays on the page, shows the saved theme and language or the defaults, writes them back, sets the class accordingly and keeps every other stored item |
| `Dashboard.OpenTwiceSamePreferences` | client/src/pages/Dashboard.js:12-65 | a second signed-in visit in the same browser shows the preferences the first one showed |
| `Dashboard.SignedOutVisitResetsPreferences` | client/src/pages/Dashboard.js:8-41 | a signed-out visit goes to the login page after the first commit's effects have already stored auto and en over the saved preferences |
| `Dashboard.Logout` | client/src/pages/Dashboard.js:67-71 | logging out removes the login flag and the user item, keeps every other stored item, adds none, and leads to the login page |
| `Dashboard.LogoutThenOpenRedirects` | client/src/pages/Dashboard.js:12-19 | after a logout, opening the dashboard redirects to the login page |

## Left out

- MongoDB mechanics are not modelled: indexes, `populate` and timestamps. A query result is the collection filtered, then sorted most recently active first as `{ lastActivity: -1 }` asks, and `countDocuments` is the length of that filter.
- The `$regex` searches of `searchChats` and of the users router's search are not modelled as regular expressions. The match is the opaque `matches` parameter, and only the guard on the search term is modelled.
- JWT signing and verification are the opaque `sign` and `verify` parameters, so the token's expiry and secret are not modelled.
- bcrypt is an ideal hash: a hash remembers its plaintext, and salting and cost are not modelled.
- The OpenAI network calls are opaque parameters that answer `None` when the call throws.
- `generateStreamChatCompletion` is not modelled because its whole behaviour is the streamed network call.
- `validateAPIKey` is not modelled because it is one network call whose answer becomes a boolean.
- The clock, `setTimeout` delays and `Math.random()` are parameters. Elapsed times such as `responseTime` are not modelled, as they depend only on the clock.
- Concurrency is not modelled. Each handler runs to completion before the next starts, so the check-then-insert of registration and the limiter's read-modify-write are sequential here.
- Query-string coercion is not modelled: `page` and `limit` arrive as integers or absent, and non-numeric or fractional values (`NaN`) are not modelled.
- Case mapping is ASCII only, also in the router's case-insensitive matching, and `trim` removes the ECMAScript white space and line terminators.
- Strings are sequences of Unicode characters. `length` is modelled in UTF-16 code units by `Js.Length`, which the token estimate, the schema's length validators and the search guard use. The substring cuts listed below count characters instead.
- Console logging and the `useChat` guard's throw outside a provider are not modelled.
- UI rendering is not modelled: JSX, scrolling, focus, toast display, the markdown message view, the sidebar and settings components, and the profile and login forms.
- The dashboard's theme and language selects, `handleNewChat` (navigate to `/chat`) and the loading screen shown before the user loads are not modelled beyond the effects they trigger.
- `server/routes/auth.js` is not part of this model because it only wires handlers to paths.
- A chat id that is not a well-formed ObjectId (such as `abc`) makes `Chat.findOne` throw a cast error in the source, which the handlers' catch blocks answer with 500. Ids are opaque strings here, so such an id is answered 404 like any id naming no chat of the requester.
- `OpenAiService.ModelMaxTokens`: promises 4096 only for unknown ids containing `gpt`. An id naming an inherited property of the lookup object, such as `constructor`, reads that property in the source; no such id contains `gpt`, and `getAvailableModels` passes no other ids.
- `ChatModel.TitleFromLaws`: lengths and the 30-character cut are counted in characters, while `length` and `substring` count UTF-16 code units. The two agree on text inside the Basic Multilingual Plane. Beyond it, the source can cut a surrogate pair in half, and a lone surrogate is not a character here.
- `ChatModel.UpdateTitleExact`: the derived title is counted in characters, not UTF-16 code units, for the same reason as `ChatModel.TitleFromLaws`.
- `ChatModel.Summary`: the 50-character cut is counted in characters, not UTF-16 code units, for the same reason as `ChatModel.TitleFromLaws`.
- `ChatPage.Preview`: the 40-character cut is counted in characters, not UTF-16 code units, for the same reason as `ChatModel.TitleFromLaws`.
- `ChatPage.AvatarLetter`: takes the first character, where `charAt(0)` takes the first UTF-16 code unit, which is half of a surrogate pair for a name starting outside the Basic Multilingual Plane.
- `Dashboard.Open`: when the stored user does not parse, the theme and language effects of the first commit are taken to run after the throwing mount effect. React 18 skips a component's effects after the one that throws, and would then store neither value.
- `ChatModel.FindByUser` and `ChatModel.SearchChats`: chats with the same `lastActivity` are listed in the collection's order. MongoDB leaves the order of such ties unspecified.
- `ChatController.GetChatHistory`: states only that a successful reply lists the requester's active chats; the paging arithmetic is stated by `ChatController.PaginationConsistent`.

## Findings

| source | as written | input that shows it | evidently intended | confidence | as-written member | corrected member |
|---|---|---|---|---|---|---|
| server/middleware/auth.js:108-115 | the sweep timer names `userRequests`, which exists only inside the closure `userRateLimit` returns, so every tick throws a ReferenceError. With Node's defaults that uncaught exception ends the process at the first tick, a minute after the module loads. A process that survives it, through a process-level handler that is not part of this model, never evicts a window | a request from `u1` at time 0, then a sweep tick at 86400000 ms: the process exits by default, and if it survives the expired window is still stored | every tick removes the windows whose reset time has passed, which no later decision can observe | not executed | `RateLimiter.AsWrittenNeverEvicts`, `RateLimiter.AsWrittenKeepsStaleEntry` | `RateLimiter.Sweep`, `RateLimiter.ReaperHarmless`, `RateLimiter.SweepUnobservable` |
| server/routes/chat.js:16-19 | the limiter is mounted before `protect`, so it always sees no `req.user` and passes every request without counting | 51 authenticated requests from one user within 15 minutes: all 51 reach their handlers | the limiter runs after `protect` and refuses the 51st request of a window with 429 | not executed | `ChatRoutes.LimiterNeverCounts`, `ChatRoutes.LimiterNeverCountsOverTrace` | `ChatRoutes.IntendedChainCounts`, `ChatRoutes.IntendedChainLimits` |
| server/controllers/authController.js:158-165 | the duplicate check compares the email as sent with the stored, lower-cased one, but the lookup normalizes it, so a user re-sending their own email in another case is refused (the users router repeats the check) | stored email `bob@mail.io`, update with email `Bob@mail.io`: 400 "Email already registered" | only an email held by another user is refused | not executed | `Accounts.OwnEmailRefusedAsWritten`, `Accounts.OwnEmailRefused` | `Accounts.UpdateProfileIntendedRefusesOnlyOthers`, `Accounts.OwnEmailAcceptedAsIntended` |
