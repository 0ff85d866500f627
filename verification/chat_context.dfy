/** The client's chat store: the `chatReducer` and the dispatch sequences of
    the provider's `sendMessage`, `fetchChatHistory`, `loadChat`, `clearChat`
    and `deleteChat`.

    The HTTP calls the provider makes are parameters: each says what the
    server answered, or that the request failed. A toast is recorded as a
    value in the order the provider raises it. */
module ChatContext {
  import opened Js

  datatype ClientMessage = ClientMessage(content: string, role: string, timestamp: nat)

  /** A chat document as the server serializes it; the reducer only looks
      inside `messages`. */
  datatype ClientChat = ClientChat(id: string, title: string, messages: seq<ClientMessage>)

  datatype State = State(currentChat: Option<ClientChat>, chatHistory: seq<ClientChat>, isLoading: bool, error: Option<string>)

  /** The six action types the reducer knows, and `Other` for every other
      type string, which takes the `default` branch. */
  datatype Action =
    | SetCurrentChat(chat: Option<ClientChat>)
    | SetChatHistory(chats: seq<ClientChat>)
    | AddMessage(message: ClientMessage)
    | SetLoading(loading: bool)
    | SetError(text: Option<string>)
    | ClearError
    | Other(kind: string)

  const Initial: State := State(None, [], false, None)

  function Reduce(s: State, a: Action): State {
    match a
    case SetCurrentChat(c) => s.(currentChat := c)
    case SetChatHistory(h) => s.(chatHistory := h)
    case AddMessage(m) =>
      if s.currentChat.Some? then
        s.(currentChat := Some(s.currentChat.value.(messages := s.currentChat.value.messages + [m])))
      else s
    case SetLoading(b) => s.(isLoading := b)
    case SetError(e) => s.(error := e)
    case ClearError => s.(error := None)
    case Other(_) => s
  }

  /** The state after the reducer has consumed `actions` in order. */
  function Run(s: State, actions: seq<Action>): State
    decreases |actions|
  {
    if actions == [] then s else Run(Reduce(s, actions[0]), actions[1..])
  }

  lemma {:induction false} RunAppend(s: State, a: seq<Action>, b: seq<Action>)
    ensures Run(s, a + b) == Run(Run(s, a), b)
    decreases |a|
  {
    if a == [] {
      assert a + b == b;
    } else {
      assert (a + b)[1..] == a[1..] + b;
      RunAppend(Reduce(s, a[0]), a[1..], b);
    }
  }

  lemma RunSingle(s: State, a: Action)
    ensures Run(s, [a]) == Reduce(s, a)
  {
    assert [a][1..] == [];
  }

  /** The store starts with no chat, no history, not loading and no error. */
  lemma InitialState()
    ensures Initial.currentChat.None? && Initial.chatHistory == []
    ensures !Initial.isLoading && Initial.error.None?
  {
  }

  /** Each `SET_*` action makes its field read back the payload and leaves the
      other three fields as they were. */
  lemma SettersReplaceOneField(s: State, c: Option<ClientChat>, h: seq<ClientChat>, b: bool, e: Option<string>)
    ensures var r := Reduce(s, SetCurrentChat(c));
      r.currentChat == c && r.chatHistory == s.chatHistory && r.isLoading == s.isLoading && r.error == s.error
    ensures var r := Reduce(s, SetChatHistory(h));
      r.currentChat == s.currentChat && r.chatHistory == h && r.isLoading == s.isLoading && r.error == s.error
    ensures var r := Reduce(s, SetLoading(b));
      r.currentChat == s.currentChat && r.chatHistory == s.chatHistory && r.isLoading == b && r.error == s.error
    ensures var r := Reduce(s, SetError(e));
      r.currentChat == s.currentChat && r.chatHistory == s.chatHistory && r.isLoading == s.isLoading && r.error == e
  {
  }

  /** The last of two writes to the same field wins. */
  lemma LastWriteWins(s: State, a: Action, b: Action)
    requires
      || (a.SetCurrentChat? && b.SetCurrentChat?)
      || (a.SetChatHistory? && b.SetChatHistory?)
      || (a.SetLoading? && b.SetLoading?)
      || ((a.SetError? || a.ClearError?) && (b.SetError? || b.ClearError?))
    ensures Reduce(Reduce(s, a), b) == Reduce(s, b)
  {
  }

  /** `ADD_MESSAGE` with a current chat appends the payload after the existing
      messages and touches nothing else; with no current chat it is a no-op. */
  lemma AddMessageAppends(s: State, m: ClientMessage)
    ensures s.currentChat.None? ==> Reduce(s, AddMessage(m)) == s
    ensures s.currentChat.Some? ==>
      var r := Reduce(s, AddMessage(m));
      && r.currentChat.Some?
      && r.currentChat.value.messages == s.currentChat.value.messages + [m]
      && r.currentChat.value.id == s.currentChat.value.id
      && r.currentChat.value.title == s.currentChat.value.title
      && r.chatHistory == s.chatHistory && r.isLoading == s.isLoading && r.error == s.error
  {
  }

  function AddAll(ms: seq<ClientMessage>): (r: seq<Action>)
    ensures |r| == |ms|
    ensures forall i :: 0 <= i < |ms| ==> r[i] == AddMessage(ms[i])
  {
    if ms == [] then [] else [AddMessage(ms[0])] + AddAll(ms[1..])
  }

  /** A run of `ADD_MESSAGE` actions appends their payloads in order to the
      current chat, and changes nothing when there is no current chat. */
  lemma {:induction false} AddMessagesAppendInOrder(s: State, ms: seq<ClientMessage>)
    ensures s.currentChat.None? ==> Run(s, AddAll(ms)) == s
    ensures s.currentChat.Some? ==>
      Run(s, AddAll(ms)) == s.(currentChat := Some(s.currentChat.value.(messages := s.currentChat.value.messages + ms)))
    decreases |ms|
  {
    if ms == [] {
      if s.currentChat.Some? {
        assert s.currentChat.value.messages + ms == s.currentChat.value.messages;
      }
    } else {
      var s' := Reduce(s, AddMessage(ms[0]));
      assert AddAll(ms)[0] == AddMessage(ms[0]);
      assert AddAll(ms)[1..] == AddAll(ms[1..]);
      assert Run(s, AddAll(ms)) == Run(s', AddAll(ms[1..]));
      AddMessagesAppendInOrder(s', ms[1..]);
      if s.currentChat.Some? {
        var c := s.currentChat.value;
        var c' := c.(messages := c.messages + [ms[0]]);
        assert s' == s.(currentChat := Some(c'));
        assert c.messages + [ms[0]] + ms[1..] == c.messages + ms;
        assert c'.(messages := c'.messages + ms[1..]) == c.(messages := c.messages + ms);
      }
    }
  }

  /** `CLEAR_ERROR` leaves no error, and a second one changes nothing more. */
  lemma ClearErrorIdempotent(s: State)
    ensures Reduce(s, ClearError).error.None?
    ensures Reduce(Reduce(s, ClearError), ClearError) == Reduce(s, ClearError)
    ensures Reduce(s, ClearError).(error := s.error) == s
  {
  }

  /** An action of any other type returns the state it was given. */
  lemma UnknownActionIgnored(s: State, kind: string)
    ensures Reduce(s, Other(kind)) == s
    ensures Run(s, [Other(kind)]) == s
  {
    RunSingle(s, Other(kind));
  }

  datatype Toast = Success(text: string) | Error(text: string)

  /** What one provider call does: the actions it dispatches, in order, and
      the toasts it raises, in order. */
  datatype Effects = Effects(dispatches: seq<Action>, toasts: seq<Toast>)

  /** The server's answer to a request: the response data, or a failure
      carrying `error.response?.data?.error`, if any. */
  datatype Answer<T> = Answered(data: T) | Failed(error: Option<string>)

  datatype Sent = Sent(chat: ClientChat, response: string)

  datatype SendResult = SendSucceeded(chat: ClientChat, response: string) | SendFailed(error: string)

  /** `fetchChatHistory`: a failure is logged and swallowed. */
  function FetchChatHistory(history: Answer<seq<ClientChat>>): seq<Action>
  {
    match history
    case Answered(h) => [SetChatHistory(h)]
    case Failed(_) => []
  }

  /** `sendMessage(message, chatId)`. `post` is the answer to `POST
      /api/chat/send`; `history` is the answer to the history fetch, which is
      made only for a new chat (a falsy `chatId`). */
  function SendMessage(chatId: Option<string>, post: Answer<Sent>, history: Answer<seq<ClientChat>>): (r: (Effects, SendResult))
    ensures |r.0.dispatches| >= 2
    ensures r.0.dispatches[0] == SetLoading(true)
    ensures r.0.dispatches[|r.0.dispatches| - 1] == SetLoading(false)
    ensures forall i :: 0 < i < |r.0.dispatches| - 1 ==> !r.0.dispatches[i].SetLoading?
    ensures post.Failed? ==>
      var msg := OptOr(post.error, "Failed to send message");
      && r.1 == SendFailed(msg)
      && r.0.toasts == [Error(msg)]
      && r.0.dispatches == [SetLoading(true), SetError(Some(msg)), SetLoading(false)]
    ensures post.Answered? ==> r.1 == SendSucceeded(post.data.chat, post.data.response) && r.0.toasts == []
  {
    match post
    case Failed(e) =>
      var msg := OptOr(e, "Failed to send message");
      (Effects([SetLoading(true), SetError(Some(msg)), SetLoading(false)], [Error(msg)]), SendFailed(msg))
    case Answered(Sent(chat, reply)) =>
      var refresh := if !TruthyOpt(chatId) then FetchChatHistory(history) else [];
      (Effects([SetLoading(true), SetCurrentChat(Some(chat))] + refresh + [SetLoading(false)], []), SendSucceeded(chat, reply))
  }

  /** Whatever the server answers, `sendMessage` leaves the store not
      loading. A failure records the server's message, or the fallback, as
      the error and keeps the current chat; a success makes the returned chat
      current, keeps the error, and replaces the history only for a new chat
      whose history fetch succeeded. */
  lemma SendMessageFinalState(s: State, chatId: Option<string>, post: Answer<Sent>, history: Answer<seq<ClientChat>>)
    ensures var f := Run(s, SendMessage(chatId, post, history).0.dispatches);
      && !f.isLoading
      && (post.Failed? ==>
          f == s.(isLoading := false, error := Some(OptOr(post.error, "Failed to send message"))))
      && (post.Answered? ==>
          && f.currentChat == Some(post.data.chat)
          && f.error == s.error
          && f.chatHistory == (if !TruthyOpt(chatId) && history.Answered? then history.data else s.chatHistory))
  {
    var d := SendMessage(chatId, post, history).0.dispatches;
    match post
    case Failed(e) =>
      var msg := OptOr(e, "Failed to send message");
      assert d == [SetLoading(true)] + [SetError(Some(msg))] + [SetLoading(false)];
      RunAppend(s, [SetLoading(true)] + [SetError(Some(msg))], [SetLoading(false)]);
      RunAppend(s, [SetLoading(true)], [SetError(Some(msg))]);
      RunSingle(s, SetLoading(true));
      RunSingle(Reduce(s, SetLoading(true)), SetError(Some(msg)));
      RunSingle(Reduce(Reduce(s, SetLoading(true)), SetError(Some(msg))), SetLoading(false));
    case Answered(Sent(chat, reply)) =>
      var refresh := if !TruthyOpt(chatId) then FetchChatHistory(history) else [];
      var head := [SetLoading(true), SetCurrentChat(Some(chat))];
      assert d == head + refresh + [SetLoading(false)];
      RunAppend(s, head + refresh, [SetLoading(false)]);
      RunAppend(s, head, refresh);
      assert head == [SetLoading(true)] + [SetCurrentChat(Some(chat))];
      RunAppend(s, [SetLoading(true)], [SetCurrentChat(Some(chat))]);
      RunSingle(s, SetLoading(true));
      var m := Reduce(Reduce(s, SetLoading(true)), SetCurrentChat(Some(chat)));
      RunSingle(Reduce(s, SetLoading(true)), SetCurrentChat(Some(chat)));
      if refresh != [] {
        RunSingle(m, refresh[0]);
      }
      RunSingle(Run(m, refresh), SetLoading(false));
  }

  /** While the request is outstanding the store shows it loading: the state
      after the first dispatch has `isLoading` set. */
  lemma SendMessageShowsLoading(s: State, chatId: Option<string>, post: Answer<Sent>, history: Answer<seq<ClientChat>>)
    ensures Reduce(s, SendMessage(chatId, post, history).0.dispatches[0]).isLoading
  {
  }

  /** `loadChat(chatId)`: the fetched chat becomes current; a failure only
      raises a toast. */
  function LoadChat(chat: Answer<ClientChat>): Effects
  {
    match chat
    case Answered(c) => Effects([SetCurrentChat(Some(c))], [])
    case Failed(_) => Effects([], [Error("Failed to load chat")])
  }

  /** A loaded chat replaces the current one and leaves the rest of the store
      alone; a failed load leaves the store as it was and raises one toast. */
  lemma LoadChatSetsCurrent(s: State, chat: Answer<ClientChat>)
    ensures var f := Run(s, LoadChat(chat).dispatches);
      && (chat.Answered? ==> f == s.(currentChat := Some(chat.data)) && LoadChat(chat).toasts == [])
      && (chat.Failed? ==> f == s && |LoadChat(chat).toasts| == 1 && LoadChat(chat).toasts[0].Error?)
  {
    if chat.Answered? {
      RunSingle(s, SetCurrentChat(Some(chat.data)));
    }
  }

  /** `clearChat(chatId)`: `cleared` says whether `DELETE
      /api/chat/:id/messages` succeeded, `reload` is the answer to the
      following `loadChat`. The success toast follows the reload whatever its
      outcome, since `loadChat` swallows its own failure. */
  function ClearChat(cleared: bool, reload: Answer<ClientChat>): (r: Effects)
    ensures !cleared ==> r == Effects([], [Error("Failed to clear chat")])
    ensures cleared ==> r.dispatches == LoadChat(reload).dispatches
    ensures cleared ==> |r.toasts| >= 1 && r.toasts[|r.toasts| - 1] == Success("Chat cleared successfully")
  {
    if !cleared then Effects([], [Error("Failed to clear chat")])
    else
      var l := LoadChat(reload);
      Effects(l.dispatches, l.toasts + [Success("Chat cleared successfully")])
  }

  /** A reload that fails after a successful clear raises both a failure and
      a success toast. */
  lemma ClearThenFailedReloadToastsBoth(e: Option<string>)
    ensures ClearChat(true, Failed(e)).toasts == [Error("Failed to load chat"), Success("Chat cleared successfully")]
  {
  }

  /** `deleteChat(chatId)`: `deleted` says whether `DELETE /api/chat/:id`
      succeeded; then the history is refetched and the current chat dropped. */
  function DeleteChat(deleted: bool, history: Answer<seq<ClientChat>>): (r: Effects)
    ensures !deleted ==> r == Effects([], [Error("Failed to delete chat")])
    ensures deleted ==> r.toasts == [Success("Chat deleted successfully")]
    ensures deleted ==> |r.dispatches| >= 1 && r.dispatches[|r.dispatches| - 1] == SetCurrentChat(None)
  {
    if !deleted then Effects([], [Error("Failed to delete chat")])
    else Effects(FetchChatHistory(history) + [SetCurrentChat(None)], [Success("Chat deleted successfully")])
  }

  /** After a successful delete no chat is current, loading and error are
      as they were, and the history is the refetched one when that fetch
      succeeded. A failed delete dispatches nothing. */
  lemma DeleteChatClearsCurrent(s: State, deleted: bool, history: Answer<seq<ClientChat>>)
    ensures var f := Run(s, DeleteChat(deleted, history).dispatches);
      && (!deleted ==> f == s)
      && (deleted ==>
          && f.currentChat.None?
          && f.isLoading == s.isLoading && f.error == s.error
          && f.chatHistory == (if history.Answered? then history.data else s.chatHistory))
  {
    var d := DeleteChat(deleted, history).dispatches;
    if deleted {
      var h := FetchChatHistory(history);
      RunAppend(s, h, [SetCurrentChat(None)]);
      if h != [] {
        RunSingle(s, h[0]);
      }
      RunSingle(Run(s, h), SetCurrentChat(None));
    }
  }
}
