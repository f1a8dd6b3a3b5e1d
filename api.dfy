/**
 * The client's transport layer (`ApiService`): the four backend operations,
 * the URLs they are sent to, the local guard on deletion and the
 * normalisation of a failed response into the message of a thrown `Error`.
 *
 * `fetch`, `FormData` and `response.json()` are not modelled: each operation
 * takes the backend's `Response` as a parameter and returns the request it
 * made (if any) together with its result, where `Failure(msg)` stands for a
 * thrown `Error` whose message is `msg`.
 */
module Api {
  import opened Wrappers
  import opened Text

  /** The backend address; written without a trailing slash. */
  const BaseUrl: string := "http://127.0.0.1:8000"

  /** The two models the chat request may name. */
  datatype ModelName = FlashLite | Flash {
    function Id(): string {
      match this
      case FlashLite => "gemini-2.5-flash-lite"
      case Flash => "gemini-2.5-flash"
    }
  }

  datatype ChatRequest = ChatRequest(question: string, sessionId: Option<string>, model: ModelName)
  datatype ChatResponse = ChatResponse(answer: string, sessionId: string, model: string)
  datatype UploadResponse = UploadResponse(message: string, fileId: string)
  datatype DeleteResponse = DeleteResponse(message: string)
  datatype DocumentInfo = DocumentInfo(fileId: string, filename: string)

  /** A JavaScript value read from a parsed JSON error body; `Obj` is any object or array, with its `String()` form. */
  datatype JsValue = Undefined | Null | Bool(b: bool) | Num(n: int) | Str(s: string) | Obj(text: string)

  /** JavaScript truthiness: `undefined`, `null`, `false`, `0` and `""` are falsy. */
  predicate Truthy(v: JsValue) {
    match v
    case Undefined => false
    case Null => false
    case Bool(b) => b
    case Num(n) => n != 0
    case Str(s) => s != ""
    case Obj(_) => true
  }

  /** `String(v)`, which is what `new Error(v)` keeps as the message. */
  function JsString(v: JsValue): string {
    match v
    case Undefined => "undefined"
    case Null => "null"
    case Bool(b) => if b then "true" else "false"
    case Num(n) => IntToString(n)
    case Str(s) => s
    case Obj(text) => text
  }

  /**
   * The body of a failed response as `response.json()` sees it: not JSON at
   * all, the JSON literal `null`, or another JSON value whose `detail` and
   * `message` properties are given (`Undefined` when absent).
   */
  datatype ErrorBody = NotJson | JsonNull | JsonValue(detail: JsValue, message: JsValue)

  /**
   * A backend response. `Ok` is a 2xx response whose body parses to a value,
   * or fails to parse with the given error message; `NotOk` is any other status.
   */
  datatype Response<T> =
    | Ok(body: Result<T, string>)
    | NotOk(status: nat, statusText: string, errorBody: ErrorBody)

  const StatusPrefix: string := "API error! status: "

  /** The generic message, carrying the status code. */
  function StatusMessage(status: nat): (m: string)
    ensures StartsWith(m, StatusPrefix) && |m| > |StatusPrefix|
  {
    StatusPrefix + NatToString(status)
  }

  /**
   * The message of the error thrown for a non-ok response: `detail` if truthy,
   * else `message` if truthy, else the generic message. Reading a property of
   * `null` throws, so a `null` body falls back like a non-JSON body: to
   * `statusText` when non-empty, else the generic message.
   */
  function ErrorMessage(status: nat, statusText: string, body: ErrorBody): string {
    match body
    case JsonValue(detail, message) =>
      if Truthy(detail) then JsString(detail)
      else if Truthy(message) then JsString(message)
      else StatusMessage(status)
    case _ => if statusText != "" then statusText else StatusMessage(status)
  }

  /** `handleResponse`: a non-ok response always throws; an ok one yields its parsed body. */
  function HandleResponse<T>(r: Response<T>): (res: Result<T, string>)
    ensures r.NotOk? ==> res.Failure?
    ensures r.Ok? ==> res == r.body
  {
    match r
    case Ok(body) => body
    case NotOk(status, statusText, errorBody) => Failure(ErrorMessage(status, statusText, errorBody))
  }

  /** A truthy `detail` is the message whatever `message` and `statusText` hold. */
  lemma DetailWins(status: nat, statusText: string, detail: JsValue, message: JsValue)
    requires Truthy(detail)
    ensures ErrorMessage(status, statusText, JsonValue(detail, message)) == JsString(detail)
  {
  }

  /** `statusText` is consulted only when the body is not a JSON value other than `null`. */
  lemma StatusTextOnlyWithoutJson(status: nat, text1: string, text2: string, detail: JsValue, message: JsValue)
    ensures ErrorMessage(status, text1, JsonValue(detail, message))
         == ErrorMessage(status, text2, JsonValue(detail, message))
  {
  }

  /** The message is never empty unless it was taken from an object whose string form is empty. */
  lemma ErrorMessageNonEmpty(status: nat, statusText: string, body: ErrorBody)
    ensures ErrorMessage(status, statusText, body) == "" ==>
              body.JsonValue? && (body.detail == Obj("") || (!Truthy(body.detail) && body.message == Obj("")))
  {
  }

  /** The status code can be read back from the generic message. */
  lemma StatusMessageCarriesStatus(status: nat)
    ensures var m := StatusMessage(status);
            AllDigits(m[|StatusPrefix|..]) && DigitsValue(m[|StatusPrefix|..]) == status
  {
    var m := StatusMessage(status);
    assert m[|StatusPrefix|..] == NatToString(status);
    NatToStringRoundTrip(status);
  }

  datatype HttpMethod = Get | Post | Delete

  /** The four backend operations the client calls. */
  datatype Endpoint = ChatEndpoint | UploadEndpoint | ListEndpoint | DeleteEndpoint(fileId: string)

  function Path(e: Endpoint): string {
    match e
    case ChatEndpoint => "/chat"
    case UploadEndpoint => "/upload-docs"
    case ListEndpoint => "/list-docs"
    case DeleteEndpoint(fileId) => "/delete-docs/" + fileId
  }

  function MethodOf(e: Endpoint): HttpMethod {
    match e
    case ChatEndpoint => Post
    case UploadEndpoint => Post
    case ListEndpoint => Get
    case DeleteEndpoint(_) => Delete
  }

  /** The URL of an operation: the base URL joined to the path by exactly one slash. */
  function Url(e: Endpoint): (url: string)
    ensures StartsWith(url, BaseUrl) && |url| > |BaseUrl| && url[|BaseUrl|] == '/'
    ensures BaseUrl[|BaseUrl| - 1] != '/'
  {
    BaseUrl + Path(e)
  }

  datatype RequestBody = NoBody | JsonChat(request: ChatRequest) | FormFile(filename: string)

  datatype Request = Request(verb: HttpMethod, url: string, body: RequestBody)

  /** One client operation: the request it sent (`None` when it threw before sending) and its result. */
  datatype Call<T> = Call(request: Option<Request>, result: Result<T, string>)

  function Send<T>(e: Endpoint, body: RequestBody, response: Response<T>): Call<T> {
    Call(Some(Request(MethodOf(e), Url(e), body)), HandleResponse(response))
  }

  /** `chat`: POST the request as JSON to `/chat`. */
  function Chat(request: ChatRequest, response: Response<ChatResponse>): (c: Call<ChatResponse>)
    ensures c.request == Some(Request(Post, BaseUrl + "/chat", JsonChat(request)))
    ensures response.NotOk? ==> c.result.Failure?
  {
    Send(ChatEndpoint, JsonChat(request), response)
  }

  /** `uploadDocument`: POST the file as multipart form data to `/upload-docs`. */
  function UploadDocument(filename: string, response: Response<UploadResponse>): (c: Call<UploadResponse>)
    ensures c.request == Some(Request(Post, BaseUrl + "/upload-docs", FormFile(filename)))
    ensures response.NotOk? ==> c.result.Failure?
  {
    Send(UploadEndpoint, FormFile(filename), response)
  }

  /** `listDocuments`: GET `/list-docs`. */
  function ListDocuments(response: Response<seq<DocumentInfo>>): (c: Call<seq<DocumentInfo>>)
    ensures c.request == Some(Request(Get, BaseUrl + "/list-docs", NoBody))
    ensures response.NotOk? ==> c.result.Failure?
  {
    Send(ListEndpoint, NoBody, response)
  }

  const MissingFileId: string := "fileId is required to delete a document"

  /** `deleteDocument`: an empty id throws before any request; otherwise DELETE `/delete-docs/<id>`. */
  function DeleteDocument(fileId: string, response: Response<DeleteResponse>): (c: Call<DeleteResponse>)
    ensures c.request.None? <==> fileId == ""
    ensures fileId == "" ==> c.result == Failure(MissingFileId)
    ensures fileId != "" ==> c.request == Some(Request(Delete, BaseUrl + "/delete-docs/" + fileId, NoBody))
    ensures fileId != "" && response.NotOk? ==> c.result.Failure?
  {
    if fileId == "" then Call(None, Failure(MissingFileId))
    else
      assert Url(DeleteEndpoint(fileId)) == BaseUrl + "/delete-docs/" + fileId;
      Send(DeleteEndpoint(fileId), NoBody, response)
  }

  /** A rejected deletion does not depend on anything the backend would have answered. */
  lemma EmptyIdIgnoresBackend(r1: Response<DeleteResponse>, r2: Response<DeleteResponse>)
    ensures DeleteDocument("", r1) == DeleteDocument("", r2)
  {
  }
}
