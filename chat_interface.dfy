/**
 * The chat component (`ChatInterface`): the transcript, the input box, the
 * loading flag and the model choice, and `handleSendMessage`, which appends
 * the user's turn, awaits the backend and appends exactly one assistant turn
 * (the answer, or a sentence quoting the error). Message timestamps are not
 * modelled.
 */
module ChatInterface {
  import opened Wrappers
  import opened Text
  import Api
  import ChatPage

  datatype Role = User | Assistant

  datatype Message = Message(role: Role, content: string)

  /** What a `catch` clause receives: an `Error` instance with its message, or any other thrown value. */
  datatype Thrown = ErrorObject(message: string) | OtherValue

  const ErrorLead: string := "Sorry, I encountered an error: "
  const ErrorTail: string := ". Please try again."

  function ThrownMessage(e: Thrown): string {
    match e
    case ErrorObject(message) => message
    case OtherValue => "Unknown error"
  }

  /** The assistant text shown for a failed send. */
  function ErrorReply(e: Thrown): (text: string)
    ensures StartsWith(text, ErrorLead) && EndsWith(text, ErrorTail)
    ensures |text| == |ErrorLead| + |ThrownMessage(e)| + |ErrorTail|
  {
    ErrorLead + ThrownMessage(e) + ErrorTail
  }

  /** The error's message can be read back out of the reply. */
  lemma ErrorReplyQuotesMessage(e: Thrown)
    ensures var text := ErrorReply(e);
            text[|ErrorLead|..|text| - |ErrorTail|] == ThrownMessage(e)
  {
    var text := ErrorReply(e);
    assert text == ErrorLead + ThrownMessage(e) + ErrorTail;
  }

  /** The one assistant turn appended once the chat call settles. */
  function Reply(result: Result<Api.ChatResponse, string>): Message {
    match result
    case Success(data) => Message(Assistant, data.answer)
    case Failure(msg) => Message(Assistant, ErrorReply(ErrorObject(msg)))
  }

  /** The id passed to `onSessionChange`, if any: a non-empty one that differs from the id the request carried. */
  function SessionUpdate(current: string, result: Result<Api.ChatResponse, string>): Option<string> {
    if result.Success? && result.value.sessionId != "" && result.value.sessionId != current
    then Some(result.value.sessionId)
    else None
  }

  predicate Blank(text: string) {
    Trim(text) == ""
  }

  /** The component's own state. */
  datatype ChatState = ChatState(messages: seq<Message>, input: string, isLoading: bool)

  /** The part of `handleSendMessage` before the await: the user turn is appended and the input cleared. */
  function Begin(s: ChatState, sessionId: string, model: Api.ModelName): (ChatState, Option<Api.ChatRequest>) {
    if Blank(s.input) then (s, None)
    else (ChatState(s.messages + [Message(User, s.input)], "", true),
          Some(Api.ChatRequest(s.input, Some(sessionId), model)))
  }

  /** The part after the await: one assistant turn, and the loading flag cleared (`finally`). */
  function Complete(s: ChatState, result: Result<Api.ChatResponse, string>): ChatState {
    ChatState(s.messages + [Reply(result)], s.input, false)
  }

  /** A whole `handleSendMessage`: the new state, the request sent (if any) and the session id reported (if any). */
  function Send(s: ChatState, sessionId: string, model: Api.ModelName, response: Api.Response<Api.ChatResponse>)
    : (ChatState, Option<Api.ChatRequest>, Option<string>)
  {
    var (mid, request) := Begin(s, sessionId, model);
    if request.None? then (mid, None, None)
    else
      var result := Api.Chat(request.value, response).result;
      (Complete(mid, result), request, SessionUpdate(sessionId, result))
  }

  /** A blank input changes nothing and sends nothing. */
  lemma SendBlankIsNoOp(s: ChatState, sessionId: string, model: Api.ModelName, response: Api.Response<Api.ChatResponse>)
    requires Blank(s.input)
    ensures Send(s, sessionId, model, response) == (s, None, None)
  {
  }

  /**
   * An accepted send appends exactly two turns after the untouched earlier
   * ones: the untrimmed input as the user's, then the answer or the error
   * sentence as the assistant's; the input ends empty and loading ends off,
   * and the request carries the input, the session id and the model.
   */
  lemma SendAppendsExchange(s: ChatState, sessionId: string, model: Api.ModelName, response: Api.Response<Api.ChatResponse>)
    requires !Blank(s.input)
    ensures var (s', request, _) := Send(s, sessionId, model, response);
            var result := Api.Chat(Api.ChatRequest(s.input, Some(sessionId), model), response).result;
      && request == Some(Api.ChatRequest(s.input, Some(sessionId), model))
      && |s'.messages| == |s.messages| + 2
      && s'.messages[..|s.messages|] == s.messages
      && s'.messages[|s.messages|] == Message(User, s.input)
      && s'.messages[|s.messages| + 1].role == Assistant
      && (result.Success? ==> s'.messages[|s.messages| + 1].content == result.value.answer)
      && (result.Failure? ==> s'.messages[|s.messages| + 1].content == ErrorLead + result.error + ErrorTail)
      && s'.input == "" && !s'.isLoading
  {
    var (s', request, _) := Send(s, sessionId, model, response);
    assert s'.messages == s.messages + [Message(User, s.input)] + [Reply(Api.Chat(request.value, response).result)];
  }

  /** A session id is reported exactly when the call succeeded with a non-empty id other than the one sent. */
  lemma SessionReportedIff(s: ChatState, sessionId: string, model: Api.ModelName, response: Api.Response<Api.ChatResponse>)
    requires !Blank(s.input)
    ensures var (_, _, update) := Send(s, sessionId, model, response);
      update.Some? <==> (response.Ok? && response.body.Success?
                         && response.body.value.sessionId != "" && response.body.value.sessionId != sessionId)
    ensures var (_, _, update) := Send(s, sessionId, model, response);
      update.Some? ==> update.value == response.body.value.sessionId
  {
  }

  /** The transcript alternates user and assistant turns, starting with the user, and has whole exchanges only. */
  ghost predicate Paired(ms: seq<Message>) {
    |ms| % 2 == 0 && forall i :: 0 <= i < |ms| ==> ms[i].role == (if i % 2 == 0 then User else Assistant)
  }

  /** Sending keeps the transcript a sequence of whole user-then-assistant exchanges. */
  lemma SendKeepsPaired(s: ChatState, sessionId: string, model: Api.ModelName, response: Api.Response<Api.ChatResponse>)
    requires Paired(s.messages)
    ensures Paired(Send(s, sessionId, model, response).0.messages)
  {
    if !Blank(s.input) {
      var (mid, request) := Begin(s, sessionId, model);
      var reply := Reply(Api.Chat(request.value, response).result);
      assert Send(s, sessionId, model, response).0.messages == s.messages + [Message(User, s.input), reply];
      PairedExtend(s.messages, Message(User, s.input), reply);
    }
  }

  /** One more exchange after whole exchanges still makes whole exchanges. */
  lemma PairedExtend(ms: seq<Message>, question: Message, answer: Message)
    requires Paired(ms) && question.role == User && answer.role == Assistant
    ensures Paired(ms + [question, answer])
  {
    var ms' := ms + [question, answer];
    forall i | 0 <= i < |ms'|
      ensures ms'[i].role == (if i % 2 == 0 then User else Assistant)
    {
      if i < |ms| {
        assert ms'[i] == ms[i];
      }
    }
  }

  class ChatInterface {
    /** The parent page: its `sessionId` is the prop, its `HandleSessionChange` the `onSessionChange` callback. */
    const page: ChatPage.ChatPage
    var messages: seq<Message>
    var input: string
    var isLoading: bool
    var selectedModel: Api.ModelName

    function State(): ChatState
      reads this
    {
      ChatState(messages, input, isLoading)
    }

    /** While a send is in flight, the transcript ends with its user turn. */
    ghost predicate Valid()
      reads this
    {
      if isLoading then |messages| > 0 && Paired(messages[..|messages| - 1]) && messages[|messages| - 1].role == User
      else Paired(messages)
    }

    constructor (page: ChatPage.ChatPage)
      ensures this.page == page
      ensures messages == [] && input == "" && !isLoading && selectedModel == Api.FlashLite
      ensures Valid()
    {
      this.page := page;
      messages := [];
      input := "";
      isLoading := false;
      selectedModel := Api.FlashLite;
    }

    /** Typing into the input box, which is disabled while loading. */
    method SetInput(text: string)
      requires !isLoading
      modifies this`input
      ensures input == text
    {
      input := text;
    }

    method SelectModel(model: Api.ModelName)
      modifies this`selectedModel
      ensures selectedModel == model
    {
      selectedModel := model;
    }

    /** `handleSendMessage` up to the await; the send controls are disabled while loading. */
    method BeginSend() returns (request: Option<Api.ChatRequest>)
      requires !isLoading && Valid()
      modifies this`messages, this`input, this`isLoading
      ensures (State(), request) == Begin(old(State()), page.sessionId, selectedModel)
      ensures Valid()
    {
      if Blank(input) {
        return None;
      }
      request := Some(Api.ChatRequest(input, Some(page.sessionId), selectedModel));
      messages := messages + [Message(User, input)];
      input := "";
      isLoading := true;
      assert messages[..|messages| - 1] == old(messages);
    }

    /** `handleSendMessage` from the await on: the answer or the error text, the session update, loading off. */
    method CompleteSend(request: Api.ChatRequest, response: Api.Response<Api.ChatResponse>)
      requires isLoading && Valid() && request.sessionId.Some?
      modifies this`messages, this`isLoading, page, page.storage
      ensures var result := Api.Chat(request, response).result;
        && State() == Complete(old(State()), result)
        && match SessionUpdate(request.sessionId.value, result)
           case Some(id) =>
             page.sessionId == id && page.storage.items == old(page.storage.items)[ChatPage.SessionKey := id]
           case None =>
             page.sessionId == old(page.sessionId) && page.storage.items == old(page.storage.items)
      ensures Valid()
    {
      var result := Api.Chat(request, response).result;
      messages := messages + [Reply(result)];
      var update := SessionUpdate(request.sessionId.value, result);
      if update.Some? {
        page.HandleSessionChange(update.value);
      }
      isLoading := false;
      ghost var n := |old(messages)|;
      assert messages[..n] == old(messages) && messages[n] == Reply(result);
      forall i | 0 <= i < |messages|
        ensures messages[i].role == (if i % 2 == 0 then User else Assistant)
      {
        if i < n - 1 {
          assert messages[i] == old(messages)[..n - 1][i];
        }
      }
    }

    /** A whole `handleSendMessage`, with the backend's response given. */
    method HandleSendMessage(response: Api.Response<Api.ChatResponse>) returns (request: Option<Api.ChatRequest>)
      requires !isLoading && Valid()
      modifies this`messages, this`input, this`isLoading, page, page.storage
      ensures var (s', sent, update) := Send(old(State()), old(page.sessionId), old(selectedModel), response);
        && State() == s' && request == sent
        && match update
           case Some(id) =>
             page.sessionId == id && page.storage.items == old(page.storage.items)[ChatPage.SessionKey := id]
           case None =>
             page.sessionId == old(page.sessionId) && page.storage.items == old(page.storage.items)
      ensures Valid()
    {
      request := BeginSend();
      if request.Some? {
        CompleteSend(request.value, response);
      }
    }
  }
}
