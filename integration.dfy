/**
 * The client and the server side by side: what the browser sends reaches
 * the handler it is meant for, the server's extension check is stricter than
 * the upload page's, and the session id the page sends is the one the server
 * answers with.
 */
module Integration {
  import opened Wrappers
  import opened Text
  import Api
  import DocumentManager
  import ChatInterface
  import Server

  function ServerMethod(m: Api.HttpMethod): Server.Method {
    match m
    case Get => Server.Get
    case Post => Server.Post
    case Delete => Server.Delete
  }

  /** The server's name for a model the client offers. */
  function ServerModel(m: Api.ModelName): (t: Server.ModelType)
    ensures t.Value() == m.Id()
  {
    match m
    case FlashLite => Server.FlashLite
    case Flash => Server.Flash
  }

  /** The handler each client operation is meant for. */
  function Intended(e: Api.Endpoint): Server.Handler {
    match e
    case ChatEndpoint => Server.ChatHandler
    case UploadEndpoint => Server.UploadHandler
    case ListEndpoint => Server.ListHandler
    case DeleteEndpoint(fileId) => Server.DeleteHandler(fileId)
  }

  /**
   * Without a `static` directory every client request reaches its handler, the
   * delete request with the id it names (one path segment); with one, the file
   * server mounted at `/` takes every client request instead.
   */
  lemma EndpointsRoute(e: Api.Endpoint)
    requires e.DeleteEndpoint? ==> e.fileId != [] && '/' !in e.fileId
    ensures Server.Route(false, ServerMethod(Api.MethodOf(e)), Api.Path(e)) == Intended(e)
    ensures Server.Route(true, ServerMethod(Api.MethodOf(e)), Api.Path(e)) == Server.StaticApp
  {
    if e.DeleteEndpoint? {
      Server.RouteDeletePath(e.fileId);
    }
  }

  /** The ids the server lists are digit strings, so without a `static` directory deleting a listed document reaches the delete handler with its id. */
  lemma ListedIdsRoute(rows: seq<Server.Row>, i: int)
    requires 0 <= i < |rows|
    ensures var fileId := Server.ListDocuments(rows)[i].fileId;
            Server.Route(false, Server.Delete, Api.Path(Api.DeleteEndpoint(fileId))) == Server.DeleteHandler(fileId)
  {
    var fileId := Server.ListDocuments(rows)[i].fileId;
    assert AllDigits(fileId);
    assert '/' !in fileId;
    EndpointsRoute(Api.DeleteEndpoint(fileId));
  }

  /** A file the server takes is one the upload page lets through. */
  lemma ServerAcceptsImpliesClientAccepts(name: string)
    requires Server.ServerAccepts(name)
    ensures DocumentManager.ClientAccepts(name)
  {
    var ext := Server.Splitext(name).1;
    assert ext != [] by {
      assert ToLower(ext) in Server.AllowedExtensions;
    }
    ServerExtensionIsClientExtension(name);
  }

  /** Where the server finds an extension, it is the one the page computes. */
  lemma ServerExtensionIsClientExtension(name: string)
    requires Server.Splitext(name).1 != []
    ensures ToLower(Server.Splitext(name).1) == DocumentManager.ClientExtension(name)
  {
    var dot := LastIndexOf(name, '.');
    assert 0 <= dot && Server.Splitext(name).1 == name[dot..];
    TailExtension(name, dot);
  }

  lemma TailExtension(name: string, dot: int)
    requires 0 <= dot < |name| && dot == LastIndexOf(name, '.')
    ensures ToLower(name[dot..]) == DocumentManager.ClientExtension(name)
  {
    DotSlice(name, dot);
    LowerDotted(name[dot + 1..]);
    DocumentManager.ClientExtensionIsTail(name);
  }

  lemma DotSlice(s: string, dot: int)
    requires 0 <= dot < |s| && s[dot] == '.'
    ensures s[dot..] == "." + s[dot + 1..]
  {
  }

  lemma LowerDotted(tail: string)
    ensures ToLower("." + tail) == "." + ToLower(tail)
  {
    ToLowerAppend(".", tail);
    assert ToLower(".") == ".";
  }

  /** The converse fails: a file named `.pdf` passes the page's check and is refused by the server. */
  lemma DotFileAcceptedOnlyByClient()
    ensures DocumentManager.ClientAccepts(".pdf")
    ensures !Server.ServerAccepts(".pdf")
  {
    DotFileClientExtension();
    DotFileServerExtension();
  }

  lemma DotFileClientExtension()
    ensures DocumentManager.ClientExtension(".pdf") == ".pdf"
  {
    assert LastIndexOf(".pdf", '.') == 0;
    DocumentManager.ClientExtensionIsTail(".pdf");
    assert ".pdf"[1..] == "pdf";
    LowerPdf();
  }

  lemma LowerPdf()
    ensures ToLower("pdf") == "pdf"
  {
    assert "pdf"[1..] == "df" && "df"[1..] == "f";
  }

  lemma DotFileServerExtension()
    ensures Server.Splitext(".pdf").1 == ""
  {
    assert LastIndexOf(".pdf", '/') == -1;
    assert LastIndexOf(".pdf", '.') == 0;
    assert !Server.HasNonDot(".pdf", 0, 0);
  }

  /** The body the server validates from a client chat request. */
  function ToQueryInput(r: Api.ChatRequest): Server.QueryInput {
    Server.QueryInput(r.question, r.sessionId, ServerModel(r.model))
  }

  /** The JSON the client reads back from the server's chat response. */
  function ToChatResponse(q: Server.QueryResponse): Api.ChatResponse {
    Api.ChatResponse(q.answer, q.sessionId, q.model.Value())
  }

  /**
   * The page always sends its own non-empty session id, the server answers
   * with that same id, so the client never switches session.
   */
  lemma SessionNeverMigrates(s: ChatInterface.ChatState, sessionId: string, model: Api.ModelName,
                             b: Server.Backend, generated: string, answer: string)
    requires !ChatInterface.Blank(s.input) && sessionId != "" && generated != ""
    ensures var request := ChatInterface.Begin(s, sessionId, model).1;
            request.Some? &&
            var served := Server.Chat(b, ToQueryInput(request.value), generated, answer).1;
            served.sessionId == sessionId && served.model.Value() == model.Id() &&
            ChatInterface.Send(s, sessionId, model, Api.Ok(Success(ToChatResponse(served)))).2 == None
  {
  }
}
