/** The Chat document and its embedded messages: defaults, setters and
    validators, the pre-save hook that derives the counters, the instance
    methods, the `summary` and `messageCount` virtuals and the two query
    statics.

    A query's result is the collection sequence filtered, then sorted most
    recently active first. */
module ChatModel {
  import opened Js
  import UserModel

  type UserId = UserModel.UserId

  datatype Role = User | Assistant | System

  function RoleName(r: Role): string {
    match r
    case User => "user"
    case Assistant => "assistant"
    case System => "system"
  }

  /** The `enum` of a message's `role`: the three names and nothing else. */
  function ParseRole(s: string): (r: Option<Role>)
    ensures r.Some? <==> s in {"user", "assistant", "system"}
  {
    if s == "user" then Some(User)
    else if s == "assistant" then Some(Assistant)
    else if s == "system" then Some(System)
    else None
  }

  lemma RoleRoundTrip(r: Role, s: string)
    ensures ParseRole(RoleName(r)) == Some(r)
    ensures ParseRole(s).Some? ==> RoleName(ParseRole(s).value) == s
  {
  }

  datatype Metadata = Metadata(model: Option<string>, temperature: Option<real>, maxTokens: Option<int>)

  const NoMetadata := Metadata(None, None, None)

  datatype Message = Message(content: string, role: Role, timestamp: nat, tokens: nat, metadata: Metadata)

  /** A message as the schema casts it: the `trim` setter runs on `content`. */
  function NewMessage(content: string, role: Role, at: nat, tokens: nat, metadata: Metadata): (m: Message)
    ensures Trimmed(m.content)
    ensures m.content == Trim(content) && m.role == role && m.tokens == tokens
  {
    TrimmedIff(content);
    Message(Trim(content), role, at, tokens, metadata)
  }

  /** The paths of `settings`. There is no `settings.model`: under the
      default strict mode a value given for it is dropped when the document
      is built, and reading it gives `undefined`. */
  datatype Settings = Settings(temperature: real, maxTokens: int, topP: real)

  const DefaultSettings := Settings(0.7, 1000, 1.0)

  datatype ChatStats = ChatStats(totalMessages: nat, totalTokens: nat, averageResponseTime: nat)

  datatype Chat = Chat(
    id: string,
    userId: UserId,
    title: string,
    messages: seq<Message>,
    model: string,
    settings: Settings,
    stats: ChatStats,
    isActive: bool,
    tags: seq<string>,
    lastActivity: nat)

  /** `new Chat({ userId, settings })`: every other path at its default. */
  function NewChat(id: string, userId: UserId, settings: Settings, now: nat): (c: Chat)
    ensures c.title == "New Chat" && c.messages == [] && c.isActive
    ensures c.userId == userId && c.settings == settings && c.model == "gpt-3.5-turbo"
  {
    Chat(id, userId, "New Chat", [], "gpt-3.5-turbo", settings, ChatStats(0, 0, 0), true, [], now)
  }

  // ---------------------------------------------------------------------------
  // Validation and the pre-save hook

  /** `min`/`max` of the three settings. */
  predicate SettingsValid(s: Settings) {
    0.0 <= s.temperature <= 2.0 && 1 <= s.maxTokens <= 4000 && 0.0 <= s.topP <= 1.0
  }

  /** `content` is required: after the setter, an empty string fails. */
  predicate MessageValid(m: Message) {
    m.content != ""
  }

  /** Every validator of the Chat schema. */
  predicate Valid(c: Chat) {
    && Length(c.title) <= 100
    && SettingsValid(c.settings)
    && (forall k :: 0 <= k < |c.messages| ==> MessageValid(c.messages[k]))
  }

  /** The schema defaults pass validation. */
  lemma DefaultsValid(id: string, u: UserId, now: nat)
    ensures Valid(NewChat(id, u, DefaultSettings, now))
  {
  }

  /** Total of the messages' `tokens`. */
  function SumTokens(ms: seq<Message>): nat
    decreases |ms|
  {
    if |ms| == 0 then 0 else SumTokens(ms[..|ms| - 1]) + ms[|ms| - 1].tokens
  }

  lemma {:induction false} SumTokensAppend(a: seq<Message>, b: seq<Message>)
    ensures SumTokens(a + b) == SumTokens(a) + SumTokens(b)
    decreases |b|
  {
    if |b| > 0 {
      assert (a + b)[..|a + b| - 1] == a + b[..|b| - 1];
      SumTokensAppend(a, b[..|b| - 1]);
    } else {
      assert a + b == a;
    }
  }

  /** The counters agree with the message list. */
  predicate StatsConsistent(c: Chat) {
    c.stats.totalMessages == |c.messages| && c.stats.totalTokens == SumTokens(c.messages)
  }

  /** The pre-save hook: recount the messages and their tokens and touch
      `lastActivity`; nothing else changes. */
  function PreSave(c: Chat, now: nat): (r: Chat)
    ensures StatsConsistent(r) && r.lastActivity == now
    ensures r.stats.averageResponseTime == c.stats.averageResponseTime
    ensures r.(stats := c.stats, lastActivity := c.lastActivity) == c
  {
    c.(stats := c.stats.(totalMessages := |c.messages|, totalTokens := SumTokens(c.messages)), lastActivity := now)
  }

  /** `chat.save()`: validation, then the pre-save hook. `None` is a validation error. */
  function Save(c: Chat, now: nat): (r: Option<Chat>)
    ensures r.Some? <==> Valid(c)
    ensures r.Some? ==> r.value == PreSave(c, now)
  {
    if Valid(c) then Some(PreSave(c, now)) else None
  }

  /** Saving again only moves `lastActivity`. */
  lemma SaveAgain(c: Chat, t1: nat, t2: nat)
    requires Save(c, t1).Some?
    ensures Save(Save(c, t1).value, t2) == Some(PreSave(c, t2))
  {
  }

  // ---------------------------------------------------------------------------
  // Instance methods

  /** A chat with one more message is valid exactly when the chat was and the message is. */
  lemma ValidAppend(c: Chat, m: Message)
    ensures Valid(c.(messages := c.messages + [m])) <==> Valid(c) && MessageValid(m)
  {
    var ms := c.messages + [m];
    assert forall k :: 0 <= k < |c.messages| ==> ms[k] == c.messages[k];
    assert ms[|c.messages|] == m;
  }

  /** `addMessage(content, role, metadata)`: one message at the end, then save. */
  function AddMessage(c: Chat, content: string, role: Role, metadata: Metadata, now: nat): (r: Option<Chat>)
    ensures r.Some? <==> Valid(c) && Trim(content) != ""
    ensures r.Some? ==> r.value.messages == c.messages + [NewMessage(content, role, now, 0, metadata)]
    ensures r.Some? ==> StatsConsistent(r.value)
  {
    var m := NewMessage(content, role, now, 0, metadata);
    ValidAppend(c, m);
    Save(c.(messages := c.messages + [m]), now)
  }

  /** `addMessage` leaves the earlier messages as they were, adds exactly one,
      and adds nothing to the token count (the new message has 0 tokens). */
  lemma AddMessageAppendsOne(c: Chat, content: string, role: Role, metadata: Metadata, now: nat)
    requires AddMessage(c, content, role, metadata, now).Some?
    ensures var r := AddMessage(c, content, role, metadata, now).value;
      && |r.messages| == |c.messages| + 1
      && r.messages[..|c.messages|] == c.messages
      && r.messages[|c.messages|].content == Trim(content) && r.messages[|c.messages|].role == role
      && r.stats.totalTokens == SumTokens(c.messages)
  {
    var m := NewMessage(content, role, now, 0, metadata);
    var r := AddMessage(c, content, role, metadata, now).value;
    assert r.messages[..|c.messages|] == c.messages;
    SumTokensAppend(c.messages, [m]);
    assert SumTokens([m]) == 0 by {
      assert [m][..0] == [];
    }
  }

  /** `xs.slice(start)` with JavaScript's treatment of negative starts. */
  function SliceFrom<T>(xs: seq<T>, start: int): (r: seq<T>)
    ensures |r| <= |xs| && r == xs[|xs| - |r|..]
  {
    if start < 0 then (if |xs| + start < 0 then xs else xs[|xs| + start..])
    else if start > |xs| then []
    else xs[start..]
  }

  /** `getRecentMessages(limit)`: `messages.slice(-limit)`, always a tail of the list. */
  function RecentMessages(ms: seq<Message>, limit: int): (r: seq<Message>)
    ensures |r| <= |ms| && ms == ms[..|ms| - |r|] + r
  {
    var r := SliceFrom(ms, -limit);
    assert ms == ms[..|ms| - |r|] + ms[|ms| - |r|..];
    r
  }

  /** For a positive limit: the last `min(limit, n)` messages in their order. */
  lemma RecentMessagesLast(ms: seq<Message>, limit: int)
    requires limit >= 1
    ensures var r := RecentMessages(ms, limit);
      && |r| == (if limit < |ms| then limit else |ms|)
      && forall k :: 0 <= k < |r| ==> r[k] == ms[|ms| - |r| + k]
  {
  }

  /** `slice(-0)` is `slice(0)`: a limit of 0 returns every message, not none. */
  lemma RecentMessagesZeroIsAll(ms: seq<Message>)
    ensures RecentMessages(ms, 0) == ms
  {
  }

  /** `clearMessages`: no messages, both counters 0, then save. */
  function ClearMessages(c: Chat, now: nat): (r: Option<Chat>)
    ensures r.Some? <==> Length(c.title) <= 100 && SettingsValid(c.settings)
    ensures r.Some? ==> r.value.messages == [] && r.value.stats.totalMessages == 0 && r.value.stats.totalTokens == 0
    ensures r.Some? ==> r.value.(messages := c.messages, stats := c.stats, lastActivity := c.lastActivity) == c
  {
    Save(c.(messages := [], stats := c.stats.(totalMessages := 0, totalTokens := 0)), now)
  }

  /** Clearing a valid chat always succeeds, and clearing twice is clearing once. */
  lemma ClearMessagesIdempotent(c: Chat, t1: nat, t2: nat)
    requires Valid(c)
    ensures ClearMessages(c, t1).Some?
    ensures ClearMessages(ClearMessages(c, t1).value, t2) == ClearMessages(c, t2)
  {
  }

  /** The title `updateTitle` derives from the first message's content. */
  function TitleFrom(content: string): string {
    if |content| > 30 then content[..30] + "..." else content
  }

  /** At most 33 characters; the content itself when it fits in 30, otherwise
      its first 30 characters and an ellipsis. */
  lemma TitleFromLaws(s: string)
    ensures |TitleFrom(s)| <= 33
    ensures |s| <= 30 ==> TitleFrom(s) == s
    ensures |s| > 30 ==> |TitleFrom(s)| == 33 && TitleFrom(s)[..30] == s[..30] && TitleFrom(s)[30..] == "..."
    ensures Trimmed(s) ==> Trimmed(TitleFrom(s))
  {
    if |s| > 30 {
      var t := TitleFrom(s);
      assert t[0] == s[0];
      assert t[|t| - 1] == '.';
    }
  }

  /** `updateTitle`: with at least one message the title becomes the derived
      one (through the `trim` setter), then save. */
  function UpdateTitle(c: Chat, now: nat): Option<Chat> {
    if |c.messages| > 0 then Save(c.(title := Trim(TitleFrom(c.messages[0].content))), now)
    else Save(c, now)
  }

  /** A retitled chat keeps its owner and messages, has consistent counters,
      carries the derived title, and saves again. */
  lemma UpdateTitleShape(c: Chat, now: nat)
    ensures UpdateTitle(c, now).Some? ==>
      var t := UpdateTitle(c, now).value;
      && t.userId == c.userId && t.messages == c.messages && StatsConsistent(t)
      && (|c.messages| > 0 ==> t.title == Trim(TitleFrom(c.messages[0].content)))
      && Save(t, now).Some?
  {
    if |c.messages| > 0 {
      var d := c.(title := Trim(TitleFrom(c.messages[0].content)));
      if Save(d, now).Some? { SaveAgain(d, now, now); }
    } else if Save(c, now).Some? {
      SaveAgain(c, now, now);
    }
  }

  /** Stored message contents have passed the setter, so the setter on the
      title changes nothing and the title is exactly the derived one; it
      never breaks the limit of 100 code units. */
  lemma UpdateTitleExact(c: Chat, now: nat)
    requires |c.messages| > 0 && Trimmed(c.messages[0].content)
    requires Valid(c)
    ensures UpdateTitle(c, now).Some?
    ensures UpdateTitle(c, now).value.title == TitleFrom(c.messages[0].content)
  {
    var content := c.messages[0].content;
    var t := TitleFrom(content);
    assert Trim(t) == t && Length(t) <= 100 by {
      TitleFromLaws(content);
      TrimmedIff(t);
    }
    assert Valid(c.(title := t)) by {
      RetitleValid(c, t);
    }
    assert UpdateTitle(c, now) == Save(c.(title := t), now);
  }

  lemma RetitleValid(c: Chat, t: string)
    requires Valid(c) && Length(t) <= 100
    ensures Valid(c.(title := t))
  {
    assert c.(title := t).messages == c.messages;
  }

  /** The `summary` virtual. */
  function Summary(c: Chat): (r: string)
    ensures |c.messages| == 0 ==> r == "No messages yet"
    ensures |c.messages| > 0 && |c.messages[0].content| <= 50 ==> r == c.messages[0].content
    ensures |c.messages| > 0 && |c.messages[0].content| > 50 ==>
      |r| == 53 && r[..50] == c.messages[0].content[..50] && r[50..] == "..."
  {
    if |c.messages| == 0 then "No messages yet"
    else
      var content := c.messages[0].content;
      if |content| > 50 then content[..50] + "..." else content
  }

  /** The `messageCount` virtual. */
  function MessageCount(c: Chat): nat {
    |c.messages|
  }

  /** After a save the stored `totalMessages` equals `messageCount`, and a
      message added moves both by one. */
  lemma MessageCountTracksStats(c: Chat, content: string, role: Role, metadata: Metadata, now: nat)
    requires AddMessage(c, content, role, metadata, now).Some?
    ensures var r := AddMessage(c, content, role, metadata, now).value;
      MessageCount(r) == MessageCount(c) + 1 && r.stats.totalMessages == MessageCount(r)
  {
  }

  // ---------------------------------------------------------------------------
  // Queries

  /** The elements satisfying `p`, in order. */
  function Where(cs: seq<Chat>, p: Chat -> bool): (r: seq<Chat>)
    ensures |r| <= |cs|
    ensures forall k :: 0 <= k < |r| ==> p(r[k]) && r[k] in cs
    ensures forall c :: c in cs && p(c) ==> c in r
    decreases |cs|
  {
    if |cs| == 0 then []
    else
      var rest := Where(cs[1..], p);
      assert forall c :: c in cs[1..] ==> c in cs;
      if p(cs[0]) then [cs[0]] + rest else rest
  }

  /** Filtering distributes over concatenation: the order of the input is
      kept and every element is kept or dropped on its own. */
  lemma {:induction false} WhereAppend(a: seq<Chat>, b: seq<Chat>, p: Chat -> bool)
    ensures Where(a + b, p) == Where(a, p) + Where(b, p)
    decreases |a|
  {
    if |a| == 0 {
      assert a + b == b;
    } else {
      assert (a + b)[0] == a[0] && (a + b)[1..] == a[1..] + b;
      WhereAppend(a[1..], b, p);
    }
  }

  /** Filtering keeps a sequence whose elements all pass, and filtering
      twice is filtering once. */
  lemma {:induction false} WhereLaws(cs: seq<Chat>, p: Chat -> bool)
    ensures (forall k :: 0 <= k < |cs| ==> p(cs[k])) ==> Where(cs, p) == cs
    ensures Where(Where(cs, p), p) == Where(cs, p)
    decreases |cs|
  {
    if |cs| > 0 {
      WhereLaws(cs[1..], p);
      if forall k :: 0 <= k < |cs| ==> p(cs[k]) {
        assert forall k :: 0 <= k < |cs[1..]| ==> p(cs[1..][k]) by {
          forall k | 0 <= k < |cs[1..]| ensures p(cs[1..][k]) { assert cs[1..][k] == cs[k + 1]; }
        }
      }
      var rest := Where(cs[1..], p);
      if p(cs[0]) {
        assert ([cs[0]] + rest)[0] == cs[0] && ([cs[0]] + rest)[1..] == rest;
      }
    }
  }

  /** The owner's chats that are not deleted. */
  predicate Listed(c: Chat, u: UserId) {
    c.userId == u && c.isActive
  }

  /** How many of `n` elements remain after skipping `skip`. */
  function Remaining(n: nat, skip: nat): nat {
    if skip >= n then 0 else n - skip
  }

  /** How many elements a page of `limit` holds when `avail` remain; a limit
      of 0 takes them all. */
  function PageSize(avail: nat, limit: nat): nat {
    if limit == 0 || limit >= avail then avail else limit
  }

  /** `.skip(skip).limit(limit)`; MongoDB reads a limit of 0 as no limit. The
      page is the window of the sequence that starts after the skipped
      elements and holds as many as the limit allows. */
  function Page(cs: seq<Chat>, skip: nat, limit: nat): (r: seq<Chat>)
    ensures |r| == PageSize(Remaining(|cs|, skip), limit)
    ensures forall k :: 0 <= k < |r| ==> skip + k < |cs| && r[k] == cs[skip + k]
  {
    var rest := if skip >= |cs| then [] else cs[skip..];
    if limit == 0 || limit >= |rest| then rest else rest[..limit]
  }

  /** A page followed by the next one is the page holding both. */
  lemma PagesTile(cs: seq<Chat>, skip: nat, l1: nat, l2: nat)
    requires l1 > 0 && l2 > 0
    ensures Page(cs, skip, l1) + Page(cs, skip + l1, l2) == Page(cs, skip, l1 + l2)
  {
    var a, b, c := Page(cs, skip, l1), Page(cs, skip + l1, l2), Page(cs, skip, l1 + l2);
    if |a| < l1 {
      assert |b| == 0;
    }
    assert |a + b| == |c|;
    forall k | 0 <= k < |c|
      ensures (a + b)[k] == c[k]
    {
      if k >= |a| {
        assert (a + b)[k] == b[k - |a|];
      }
    }
  }

  // ---------------------------------------------------------------------------
  // The sort `{ lastActivity: -1 }`
  // ---------------------------------------------------------------------------

  /** Most recently active first. */
  predicate NewestFirst(cs: seq<Chat>) {
    forall i, j :: 0 <= i < j < |cs| ==> cs[i].lastActivity >= cs[j].lastActivity
  }

  lemma NewestFirstCons(c: Chat, cs: seq<Chat>)
    requires NewestFirst(cs)
    requires |cs| > 0 ==> c.lastActivity >= cs[0].lastActivity
    ensures NewestFirst([c] + cs)
  {
    var r := [c] + cs;
    forall i, j | 0 <= i < j < |r|
      ensures r[i].lastActivity >= r[j].lastActivity
    {
      assert r[j] == cs[j - 1];
      if i > 0 { assert r[i] == cs[i - 1]; }
    }
  }

  lemma NewestFirstTail(cs: seq<Chat>)
    requires |cs| > 0 && NewestFirst(cs)
    ensures NewestFirst(cs[1..])
  {
    forall i, j | 0 <= i < j < |cs[1..]|
      ensures cs[1..][i].lastActivity >= cs[1..][j].lastActivity
    {
      assert cs[1..][i] == cs[i + 1] && cs[1..][j] == cs[j + 1];
    }
  }

  /** Places `c` before the first chat that is not more recently active. */
  function Insert(c: Chat, cs: seq<Chat>): (r: seq<Chat>)
    requires NewestFirst(cs)
    ensures |r| == |cs| + 1 && multiset(r) == multiset(cs) + multiset{c}
    ensures r[0] == c || (|cs| > 0 && r[0] == cs[0])
    ensures NewestFirst(r)
    decreases |cs|
  {
    if |cs| == 0 || c.lastActivity >= cs[0].lastActivity then
      NewestFirstCons(c, cs);
      [c] + cs
    else
      NewestFirstTail(cs);
      var t := Insert(c, cs[1..]);
      NewestFirstCons(cs[0], t);
      assert cs == [cs[0]] + cs[1..];
      [cs[0]] + t
  }

  /** `.sort({ lastActivity: -1 })`: the same chats, most recently active
      first; chats equally recent stay in the collection's order. */
  function ByActivity(cs: seq<Chat>): (r: seq<Chat>)
    ensures |r| == |cs| && multiset(r) == multiset(cs)
    ensures NewestFirst(r)
    decreases |cs|
  {
    if |cs| == 0 then []
    else
      var r := Insert(cs[0], ByActivity(cs[1..]));
      assert cs == [cs[0]] + cs[1..];
      r
  }

  lemma SameMembers(a: seq<Chat>, b: seq<Chat>)
    requires multiset(a) == multiset(b)
    ensures forall c :: c in a <==> c in b
  {
    forall c ensures c in a <==> c in b {
      assert c in a <==> c in multiset(a);
      assert c in b <==> c in multiset(b);
    }
  }

  /** A list already in that order is left as it is, so sorting twice is
      sorting once. */
  lemma {:induction false} ByActivityFixesSorted(cs: seq<Chat>)
    ensures NewestFirst(cs) ==> ByActivity(cs) == cs
    ensures ByActivity(ByActivity(cs)) == ByActivity(cs)
    decreases |cs|
  {
    if |cs| > 0 && NewestFirst(cs) {
      NewestFirstTail(cs);
      ByActivityFixesSorted(cs[1..]);
      assert cs == [cs[0]] + cs[1..];
    }
    var r := ByActivity(cs);
    if |r| > 0 {
      NewestFirstTail(r);
      ByActivityFixesSorted(r[1..]);
      assert r == [r[0]] + r[1..];
    }
  }

  /** A chat created and then another: the later one is listed first. */
  lemma LaterChatListedFirst(a: Chat, b: Chat)
    requires a.lastActivity < b.lastActivity
    ensures ByActivity([a, b]) == [b, a]
  {
    assert [a, b][1..] == [b];
    assert [b][1..] == [];
  }

  /** `findByUser(userId, { limit, skip })`: a page of the owner's listed
      chats, most recently active first. */
  function FindByUser(cs: seq<Chat>, u: UserId, skip: nat, limit: nat): (r: seq<Chat>)
    ensures forall c :: c in r ==> c in cs && Listed(c, u)
    ensures NewestFirst(r)
    ensures var listed := ByActivity(Where(cs, c => Listed(c, u)));
      && |r| == PageSize(Remaining(|listed|, skip), limit)
      && forall k :: 0 <= k < |r| ==> skip + k < |listed| && r[k] == listed[skip + k]
  {
    var found := Where(cs, c => Listed(c, u));
    var listed := ByActivity(found);
    var r := Page(listed, skip, limit);
    PageOfSorted(listed, skip, limit);
    SameMembers(listed, found);
    r
  }

  lemma PageOfSorted(cs: seq<Chat>, skip: nat, limit: nat)
    requires NewestFirst(cs)
    ensures forall c :: c in Page(cs, skip, limit) ==> c in cs
    ensures NewestFirst(Page(cs, skip, limit))
  {
    var r := Page(cs, skip, limit);
    forall i, j | 0 <= i < j < |r|
      ensures r[i].lastActivity >= r[j].lastActivity
    {
      assert r[i] == cs[skip + i] && r[j] == cs[skip + j];
    }
  }

  /** `searchChats(userId, term)`: `matches` is the case-insensitive regular
      expression test on the title or on some message's content. */
  function SearchChats(cs: seq<Chat>, u: UserId, matches: Chat -> bool): (r: seq<Chat>)
    ensures forall c :: c in r <==> c in cs && Listed(c, u) && matches(c)
    ensures NewestFirst(r)
  {
    var found := Where(cs, c => Listed(c, u) && matches(c));
    var r := ByActivity(found);
    SameMembers(r, found);
    r
  }

  /** The first page holds the owner's listed chats from the start, up to the limit. */
  lemma FindByUserFirstPage(cs: seq<Chat>, u: UserId, limit: nat)
    requires limit == 0 || limit >= |Where(cs, c => Listed(c, u))|
    ensures forall c :: c in FindByUser(cs, u, 0, limit) <==> c in cs && Listed(c, u)
  {
    var found := Where(cs, c => Listed(c, u));
    var listed := ByActivity(found);
    assert Page(listed, 0, limit) == listed;
    SameMembers(listed, found);
  }

  /** Neither query ever yields someone else's chat or a deleted one. */
  lemma QueriesOwnerScoped(cs: seq<Chat>, u: UserId, skip: nat, limit: nat, matches: Chat -> bool, c: Chat)
    requires c in FindByUser(cs, u, skip, limit) || c in SearchChats(cs, u, matches)
    ensures c.userId == u && c.isActive
  {
  }
}
