/** The chat side (main.go:425-500): which Telegram updates start a query,
    what the query returns, and which single reply goes back to which chat. */
module TelegramBridge {
  import opened Outcomes
  import opened SseEvent
  import opened Aggregator

  /** Reply sent when the query fails (main.go:487). */
  const ErrorReplyText: string := "Ошибка обработки запроса."
  /** Reply sent when the answer is the empty string (main.go:494). */
  const NoAnswerReplyText: string := "Ассистент не смог предоставить ответ."

  /** The fields of an incoming message the handler reads: `Chat.ID` and `Text`. */
  datatype Message = Message(chatId: int, text: string)

  /** An update of the bot's feed; `message` is absent for updates of other kinds. */
  datatype Update = Update(message: Option<Message>)

  /** An outgoing `tgbotapi.NewMessage(chatId, text)`. */
  datatype Reply = Reply(chatId: int, text: string)

  /** The errors of `createAndRunAssistantWithStreaming`: the request could
      not be built or sent, or the stream failed. */
  datatype AskError = RequestFailed | StreamFailed(cause: StreamError)

  /** What the backend call yields for a query: an error before any response
      (marshalling, request construction or `client.Do`), or the response body. */
  datatype Backend = HttpFailure | Streamed(body: Body)

  /** `createAndRunAssistantWithStreaming` (main.go:425-466): one backend call,
      then the aggregator on its body. */
  function CreateAndRun(query: string, backend: string -> Backend, parse: Parser): (r: Result<string, AskError>)
    ensures r.Success? ==> r.value != ""
    ensures backend(query).HttpFailure? ==> r == Failure(RequestFailed)
    ensures backend(query).Streamed? ==>
      match Listen(backend(query).body, parse)
      case Success(answer) => r == Success(answer)
      case Failure(e) => r == Failure(StreamFailed(e))
  {
    match backend(query)
    case HttpFailure => Failure(RequestFailed)
    case Streamed(body) =>
      match Listen(body, parse)
      case Success(answer) => Success(answer)
      case Failure(e) => Failure(StreamFailed(e))
  }

  /** The dispatch filter (main.go:476): only updates with a message whose text is not empty. */
  predicate Dispatched(u: Update) {
    u.message.Some? && u.message.value.text != ""
  }

  /** The messages that are dispatched, in feed order. */
  function Dispatch(updates: seq<Update>): (ms: seq<Message>)
    ensures |ms| <= |updates|
    ensures forall i :: 0 <= i < |ms| ==> ms[i].text != ""
  {
    if updates == [] then []
    else (if Dispatched(updates[0]) then [updates[0].message.value] else []) + Dispatch(updates[1..])
  }

  /** Dispatch works update by update: the dispatched messages of a feed are
      those of its parts, in order. */
  lemma {:induction false} DispatchAppend(a: seq<Update>, b: seq<Update>)
    ensures Dispatch(a + b) == Dispatch(a) + Dispatch(b)
  {
    if a == [] {
      assert a + b == b;
    } else {
      assert (a + b)[0] == a[0] && (a + b)[1..] == a[1..] + b;
      DispatchAppend(a[1..], b);
    }
  }

  /** One update on its own: dispatched exactly when it has a message with text. */
  lemma DispatchOne(u: Update)
    ensures Dispatch([u]) == if Dispatched(u) then [u.message.value] else []
  {
    assert [u][1..] == [];
  }

  /** The reply of one task (main.go:484-500): the fixed error text to the
      message's chat on failure, the fixed "no answer" text on an empty answer,
      and the answer itself otherwise. */
  function ChooseReply(chatId: int, response: Result<string, AskError>): (m: Reply)
    ensures m.chatId == chatId
    ensures m.text == ErrorReplyText || m.text == NoAnswerReplyText || (response.Success? && m.text == response.value)
    ensures response.Failure? ==> m.text == ErrorReplyText
    ensures response.Success? && response.value != "" ==> m.text == response.value
    ensures response == Success("") ==> m.text == NoAnswerReplyText
  {
    match response
    case Failure(_) => Reply(chatId, ErrorReplyText)
    case Success(answer) =>
      if answer == "" then Reply(chatId, NoAnswerReplyText) else Reply(chatId, answer)
  }

  /** The whole goroutine for one message: query, then reply. */
  function TaskReply(m: Message, backend: string -> Backend, parse: Parser): Reply {
    ChooseReply(m.chatId, CreateAndRun(m.text, backend, parse))
  }

  /** The "no answer" branch (main.go:492-497) is dead: the query never succeeds
      with an empty string, so every reply goes to the message's own chat and
      is either the error text or the assistant's non-empty answer. */
  lemma NoAnswerBranchUnreachable(m: Message, backend: string -> Backend, parse: Parser)
    ensures CreateAndRun(m.text, backend, parse) != Success("")
    ensures TaskReply(m, backend, parse).chatId == m.chatId
    ensures TaskReply(m, backend, parse).text == ErrorReplyText
         || (TaskReply(m, backend, parse).text != ""
             && CreateAndRun(m.text, backend, parse) == Success(TaskReply(m, backend, parse).text))
  {
  }

  /** `handleTelegramUpdates` (main.go:475-505): every dispatched message gets
      exactly one reply, the one its own task computes, and nothing else is
      sent. Replies are listed in dispatch order; the goroutines may deliver
      them in any order. */
  method HandleUpdates(updates: seq<Update>, backend: string -> Backend, parse: Parser)
    returns (replies: seq<Reply>)
    ensures |replies| == |Dispatch(updates)|
    ensures forall i :: 0 <= i < |replies| ==> replies[i] == TaskReply(Dispatch(updates)[i], backend, parse)
  {
    replies := [];
    for n := 0 to |updates|
      invariant |replies| == |Dispatch(updates[..n])|
      invariant forall i :: 0 <= i < |replies| ==> replies[i] == TaskReply(Dispatch(updates[..n])[i], backend, parse)
    {
      var update := updates[n];
      assert updates[..n + 1] == updates[..n] + [update];
      DispatchAppend(updates[..n], [update]);
      DispatchOne(update);
      if update.message.Some? && update.message.value.text != "" {
        var message := update.message.value;
        var response := CreateAndRun(message.text, backend, parse);
        replies := replies + [ChooseReply(message.chatId, response)];
      }
    }
    assert updates[..|updates|] == updates;
  }
}
