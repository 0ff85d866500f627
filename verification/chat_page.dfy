/** The stand-alone chat page: its local message list, the input box, the
    simulated assistant, guest detection and navigation.

    The page talks to no server. The clock (`Date.now()` and `new Date()`)
    and `Math.random()` are parameters; the stored `isLoggedIn` and `user`
    items are optional strings and `JSON.parse` is the partial `parse`. */
module ChatPage {
  import opened Js

  /** The parsed user object: `username` may be absent, null or a string. */
  datatype Profile = Profile(username: Field<string>, email: Field<string>)

  /** The two `role` strings the page writes, `'user'` and `'assistant'`. */
  datatype Speaker = UserRole | AssistantRole

  function RoleName(r: Speaker): string {
    match r
    case UserRole => "user"
    case AssistantRole => "assistant"
  }

  datatype PageMessage = PageMessage(id: int, content: string, role: Speaker, timestamp: nat, isAI: bool)

  datatype Page = Page(
    messages: seq<PageMessage>,
    input: string,
    isLoading: bool,
    user: Option<Profile>,
    isGuest: bool,
    isLoadingUser: bool)

  const GuestProfile: Profile := Profile(Val("Guest User"), Val("guest@example.com"))

  const Initial: Page := Page([], "", false, Some(GuestProfile), true, true)

  /** The five canned assistant replies. */
  const Responses: seq<string> := [
    "That's a fascinating question! Let me provide you with some insights. Based on what you've asked, I can see several interesting angles to explore. Here's what I think might be most relevant to your situation...",
    "I understand what you're looking for! This is a complex topic that deserves careful consideration. Let me break it down into key points: 1) First aspect - this involves understanding the fundamental principles, 2) Second aspect - here we need to consider practical applications, 3) Third aspect - this connects to broader implications. Would you like me to elaborate on any of these areas?",
    "Excellent question! I'd be happy to dive deeper into this topic. What I find particularly interesting is how this connects to current trends and future possibilities. There are several angles we could explore together. What specific aspect interests you most?",
    "Thanks for sharing that with me! I can see several fascinating connections here. This is the kind of question that opens up new ways of thinking. Let me provide you with a comprehensive overview that might spark some interesting ideas...",
    "I appreciate your curiosity about this topic! It's a complex subject that touches on many important areas. Let me give you a thoughtful analysis that considers multiple perspectives and potential implications..."
  ]

  /** The mount effect. With both stored items truthy and a user document
      that parses, the page shows that user; otherwise it stays in guest mode
      with the default guest user. Either way the loading screen ends. */
  function Mount(p: Page, isLoggedIn: Option<string>, userData: Option<string>, parse: string -> Option<Option<Profile>>): (r: Page)
    ensures r.messages == p.messages && r.input == p.input && r.isLoading == p.isLoading
    ensures !r.isLoadingUser
  {
    if TruthyOpt(isLoggedIn) && TruthyOpt(userData) then
      match parse(userData.value)
      case Some(u) => p.(user := u, isGuest := false, isLoadingUser := false)
      case None => p.(isLoadingUser := false)
    else p.(user := Some(GuestProfile), isGuest := true, isLoadingUser := false)
  }

  /** From the initial page, the visitor is a guest exactly when one of the
      two stored items is missing or empty or the user document does not
      parse; a guest sees the default guest user. */
  lemma GuestUnlessStoredUserParses(isLoggedIn: Option<string>, userData: Option<string>, parse: string -> Option<Option<Profile>>)
    ensures var r := Mount(Initial, isLoggedIn, userData, parse);
      && (!r.isGuest <==> TruthyOpt(isLoggedIn) && TruthyOpt(userData) && parse(userData.value).Some?)
      && (r.isGuest ==> r.user == Some(GuestProfile))
      && (!r.isGuest ==> r.user == parse(userData.value).value)
  {
  }

  /** The guard of `handleSubmit`. */
  predicate Accepts(p: Page) {
    Trim(p.input) != "" && !p.isLoading
  }

  /** `handleSubmit` up to the simulated delay: the trimmed input becomes a
      user message, the input is cleared, and `generateAIResponse` raises
      the loading flag before it waits. */
  function Submit(p: Page, now: nat): (r: Page)
    ensures !Accepts(p) ==> r == p
    ensures Accepts(p) ==>
      && r.messages == p.messages + [PageMessage(now, Trim(p.input), UserRole, now, false)]
      && r.input == ""
      && r.isLoading
      && r.user == p.user && r.isGuest == p.isGuest && r.isLoadingUser == p.isLoadingUser
  {
    if !Accepts(p) then p
    else
      var m := PageMessage(now, Trim(p.input), UserRole, now, false);
      p.(messages := p.messages + [m], input := "", isLoading := true)
  }

  /** `Math.floor(Math.random() * responses.length)`. */
  function Pick(random: real): (i: nat)
    requires 0.0 <= random < 1.0
    ensures i < |Responses|
  {
    (random * (|Responses| as real)).Floor
  }

  /** `generateAIResponse` after the delay: one assistant message with a
      canned reply, and loading ends. */
  function Reply(p: Page, random: real, now: nat): (r: Page)
    requires 0.0 <= random < 1.0
    ensures |r.messages| == |p.messages| + 1
    ensures r.messages[..|p.messages|] == p.messages
    ensures var m := r.messages[|p.messages|];
      m.content in Responses && m.role == AssistantRole && m.isAI && m.id == now + 1
    ensures !r.isLoading && r.input == p.input && r.isGuest == p.isGuest
  {
    var m := PageMessage(now + 1, Responses[Pick(random)], AssistantRole, now, true);
    assert (p.messages + [m])[..|p.messages|] == p.messages;
    p.(messages := p.messages + [m], isLoading := false)
  }

  /** Every canned reply can be chosen: the reply index is a function of the
      random number onto all five replies. */
  lemma EveryReplyReachable(i: nat)
    requires i < |Responses|
    ensures Pick(i as real / 5.0) == i
  {
  }

  /** `handleNewChat`: empties the list and the input, and nothing else. */
  function NewChat(p: Page): (r: Page)
    ensures r.messages == [] && r.input == ""
    ensures r.isLoading == p.isLoading && r.user == p.user && r.isGuest == p.isGuest
  {
    p.(messages := [], input := "")
  }

  /** User and assistant messages alternate, starting with the user. */
  predicate Alternates(ms: seq<PageMessage>) {
    && |ms| % 2 == 0
    && forall i :: 0 <= i < |ms| ==> (ms[i].role == UserRole <==> i % 2 == 0)
  }

  /** No reply is pending and the conversation is whole exchanges. */
  predicate Idle(p: Page) {
    !p.isLoading && Alternates(p.messages)
  }

  /** A reply is pending for the last message, which is the user's. */
  predicate Waiting(p: Page) {
    && p.isLoading
    && |p.messages| >= 1
    && Alternates(p.messages[..|p.messages| - 1])
    && p.messages[|p.messages| - 1].role == UserRole
  }

  /** The page opens idle, with an empty input that cannot be submitted. */
  lemma InitialIdle()
    ensures Idle(Initial) && !Accepts(Initial)
  {
  }

  /** An accepted submit on an idle page leaves it waiting for a reply. */
  lemma SubmitWaits(p: Page, now: nat)
    requires Idle(p) && Accepts(p)
    ensures Waiting(Submit(p, now))
  {
    var q := Submit(p, now);
    assert q.messages[..|q.messages| - 1] == p.messages;
  }

  /** The reply to a waiting page completes the exchange. */
  lemma ReplyCompletes(q: Page, random: real, later: nat)
    requires Waiting(q) && 0.0 <= random < 1.0
    ensures Idle(Reply(q, random, later))
  {
    var r := Reply(q, random, later);
    var n := |q.messages|;
    assert r.messages == q.messages + [r.messages[n]];
    AnswerCompletes(q.messages, r.messages[n]);
  }

  /** An assistant message after whole exchanges and one user message makes
      whole exchanges again. */
  lemma AnswerCompletes(ms: seq<PageMessage>, m: PageMessage)
    requires |ms| >= 1 && Alternates(ms[..|ms| - 1]) && ms[|ms| - 1].role == UserRole
    requires m.role == AssistantRole
    ensures Alternates(ms + [m])
  {
    var n := |ms|;
    var rs := ms + [m];
    forall i | 0 <= i < |rs|
      ensures rs[i].role == UserRole <==> i % 2 == 0
    {
      if i < n - 1 {
        assert rs[i] == ms[..n - 1][i];
      } else if i == n - 1 {
        assert rs[i] == ms[n - 1];
      }
    }
  }

  /** An accepted submit on an idle page waits for a reply, which completes
      the exchange; a refused submit keeps the page idle. */
  lemma ExchangeKeepsAlternation(p: Page, now: nat, random: real, later: nat)
    requires Idle(p) && 0.0 <= random < 1.0
    ensures var q := Submit(p, now);
      && (Accepts(p) ==> Waiting(q) && Idle(Reply(q, random, later)))
      && (!Accepts(p) ==> Idle(q))
  {
    if Accepts(p) {
      SubmitWaits(p, now);
      ReplyCompletes(Submit(p, now), random, later);
    }
  }

  /** While a reply is pending, a second submit is refused. */
  lemma WaitingRefusesSubmit(p: Page, now: nat)
    requires Waiting(p)
    ensures Submit(p, now) == p
  {
  }

  /** A new chat during a pending reply keeps the loading flag, so the reply
      lands alone in the emptied list: the list then starts with an
      assistant message. */
  lemma NewChatWhileWaiting(p: Page, random: real, later: nat)
    requires Waiting(p) && 0.0 <= random < 1.0
    ensures var r := Reply(NewChat(p), random, later);
      |r.messages| == 1 && r.messages[0].role == AssistantRole && !Alternates(r.messages)
  {
  }

  /** `handleBackToDashboard`. */
  function BackTarget(p: Page): (r: string)
    ensures r == "/login" || r == "/dashboard"
    ensures r == "/dashboard" <==> !p.isGuest
  {
    if p.isGuest then "/login" else "/dashboard"
  }

  /** `messages.slice(0, 8)`: the sidebar's entries. */
  function Sidebar(p: Page): (r: seq<PageMessage>)
    ensures |r| <= 8
    ensures |r| == if |p.messages| < 8 then |p.messages| else 8
    ensures r == p.messages[..|r|]
  {
    if |p.messages| < 8 then p.messages else p.messages[..8]
  }

  /** A sidebar entry's text: the first 40 characters and an ellipsis. */
  function Preview(content: string): (r: string)
    ensures 3 <= |r| <= 43 && r[|r| - 3..] == "..."
    ensures r[..|r| - 3] <= content
    ensures |r| == (if |content| < 40 then |content| else 40) + 3
  {
    var n := if |content| < 40 then |content| else 40;
    content[..n] + "..."
  }

  /** A message of at most 40 characters is shown whole, and two messages
      that agree on their first 40 characters look the same in the sidebar. */
  lemma PreviewLaws(a: string, b: string)
    ensures |a| <= 40 ==> Preview(a) == a + "..."
    ensures |a| >= 40 && |b| >= 40 && a[..40] == b[..40] ==> Preview(a) == Preview(b)
    ensures Preview(a) == Preview(b) ==> a[..(if |a| < 40 then |a| else 40)] == b[..(if |b| < 40 then |b| else 40)]
  {
    if |a| <= 40 {
      assert a[..|a|] == a;
    }
    if Preview(a) == Preview(b) {
      var n := if |a| < 40 then |a| else 40;
      assert Preview(a)[..n] == a[..n];
      assert Preview(b)[..n] == b[..n];
    }
  }

  /** `user?.username?.charAt(0)?.toUpperCase() || 'G'`. */
  function AvatarLetter(user: Option<Profile>): (r: string)
    ensures |r| == 1
    ensures r == "G" || (user.Some? && user.value.username.Val? && user.value.username.value != ""
      && r == [UpperChar(user.value.username.value[0])])
  {
    if user.Some? && user.value.username.Val? && user.value.username.value != "" then
      [UpperChar(user.value.username.value[0])]
    else "G"
  }

  /** The avatar is the first letter of the name, upper-cased, and `G` when
      there is no name. */
  lemma AvatarOfName(name: string)
    ensures AvatarLetter(Some(Profile(Val(name), Undefined)))
      == if name == "" then "G" else Upper(name[..1])
    ensures AvatarLetter(None) == "G" && AvatarLetter(Some(Profile(Null, Undefined))) == "G"
  {
  }

  /** `user?.username || 'Guest User'`. */
  function DisplayName(user: Option<Profile>): (r: string)
    ensures r != ""
    ensures user.Some? && TruthyStr(user.value.username) ==> r == user.value.username.value
  {
    if user.Some? then StrOr(user.value.username, "Guest User") else "Guest User"
  }
}
