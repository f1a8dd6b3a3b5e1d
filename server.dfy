/**
 * The FastAPI backend (`api/main.py`): routing, the chat endpoint's session
 * id, the upload endpoint's extension check and rollback, the listing's id
 * mapping, and the two-store deletion.
 *
 * The stores are values: the relational table of documents (`rows`), the
 * vector store's chunks (only their `file_id` metadata matters here) and the
 * chat log. What the language model answers, how a document splits into
 * chunks, whether indexing or a store operation fails, and the generated ids
 * handed out by `uuid4` and by the database are parameters.
 */
module Server {
  import opened Wrappers
  import opened Text

  // ---------------------------------------------------------------------------
  // Request and response records
  // ---------------------------------------------------------------------------

  /** `ModelType`: the two accepted model names; any other string fails validation. */
  datatype ModelType = FlashLite | Flash {
    function Value(): string {
      match this
      case FlashLite => "gemini-2.5-flash-lite"
      case Flash => "gemini-2.5-flash"
    }
  }

  datatype QueryInput = QueryInput(question: string, sessionId: Option<string>, model: ModelType)
  datatype QueryResponse = QueryResponse(answer: string, sessionId: string, model: ModelType)

  /** A handler's outcome: a 200 body, or an `HTTPException` with its status and detail. */
  datatype Reply<T> = Ok(body: T) | HttpError(status: nat, detail: string)

  // ---------------------------------------------------------------------------
  // Stores
  // ---------------------------------------------------------------------------

  /** A `file_id` metadata value as the vector store keeps it: typed, so `5` and `"5"` differ. */
  datatype Meta = MetaInt(n: int) | MetaStr(s: string)

  datatype Row = Row(id: nat, filename: string)
  datatype LogEntry = LogEntry(sessionId: string, question: string, answer: string, model: ModelType)

  /** The document table, the vector store's chunks (by their `file_id` metadata) and the chat log. */
  datatype Backend = Backend(rows: seq<Row>, chunks: seq<Meta>, logs: seq<LogEntry>)

  predicate HasRow(rows: seq<Row>, id: nat) {
    exists i :: 0 <= i < |rows| && rows[i].id == id
  }

  /** The vector store's delete with `where={"file_id": m}`: every chunk whose metadata equals `m` goes. */
  function RemoveTagged(chunks: seq<Meta>, m: Meta): (r: seq<Meta>)
    ensures m !in r
    ensures forall x :: x in r <==> x in chunks && x != m
  {
    if chunks == [] then []
    else
      var init := RemoveTagged(chunks[..|chunks| - 1], m);
      var last := chunks[|chunks| - 1];
      assert chunks == chunks[..|chunks| - 1] + [last];
      if last == m then init else init + [last]
  }

  /** The delete by metadata keeps every copy of every other chunk, in the same number. */
  lemma {:induction false} RemoveTaggedCounts(chunks: seq<Meta>, m: Meta)
    ensures forall x :: multiset(RemoveTagged(chunks, m))[x] == if x == m then 0 else multiset(chunks)[x]
  {
    if chunks != [] {
      RemoveTaggedCounts(chunks[..|chunks| - 1], m);
      assert chunks == chunks[..|chunks| - 1] + [chunks[|chunks| - 1]];
    }
  }

  /** The rows without the one whose id is `id`. */
  function RemoveRow(rows: seq<Row>, id: nat): (r: seq<Row>)
    ensures !HasRow(r, id)
    ensures forall x :: x in r <==> x in rows && x.id != id
  {
    if rows == [] then []
    else
      var init := RemoveRow(rows[..|rows| - 1], id);
      var last := rows[|rows| - 1];
      assert rows == rows[..|rows| - 1] + [last];
      if last.id == id then init else init + [last]
  }

  /** Deleting a record keeps every copy of every row with another id, in the same number. */
  lemma {:induction false} RemoveRowCounts(rows: seq<Row>, id: nat)
    ensures forall x :: multiset(RemoveRow(rows, id))[x] == if x.id == id then 0 else multiset(rows)[x]
  {
    if rows != [] {
      RemoveRowCounts(rows[..|rows| - 1], id);
      assert rows == rows[..|rows| - 1] + [rows[|rows| - 1]];
    }
  }

  /** `n` chunks tagged `m`. */
  function Tagged(n: nat, m: Meta): (r: seq<Meta>)
    ensures |r| == n && forall x :: x in r ==> x == m
  {
    if n == 0 then [] else Tagged(n - 1, m) + [m]
  }

  // ---------------------------------------------------------------------------
  // POST /chat
  // ---------------------------------------------------------------------------

  /** `query_input.session_id or str(uuid.uuid4())`: an absent or empty id is replaced. */
  function ChatSessionId(requested: Option<string>, generated: string): (id: string)
    requires generated != ""
    ensures id != ""
    ensures requested.Some? && requested.value != "" ==> id == requested.value
    ensures requested.None? || requested.value == "" ==> id == generated
  {
    if requested.Some? && requested.value != "" then requested.value else generated
  }

  /** `chat`: the answer comes from the retrieval chain; the exchange is logged under the session id. */
  function Chat(b: Backend, input: QueryInput, generated: string, answer: string): (r: (Backend, QueryResponse))
    requires generated != ""
    ensures r.1 == QueryResponse(answer, ChatSessionId(input.sessionId, generated), input.model)
    ensures r.0.rows == b.rows && r.0.chunks == b.chunks
    ensures r.0.logs == b.logs + [LogEntry(r.1.sessionId, input.question, answer, input.model)]
  {
    var id := ChatSessionId(input.sessionId, generated);
    (b.(logs := b.logs + [LogEntry(id, input.question, answer, input.model)]),
     QueryResponse(answer, id, input.model))
  }

  /** A conversation that names its session keeps it: the response carries the id that was sent. */
  lemma ChatKeepsSession(b: Backend, input: QueryInput, generated: string, answer: string)
    requires generated != "" && input.sessionId.Some? && input.sessionId.value != ""
    ensures Chat(b, input, generated, answer).1.sessionId == input.sessionId.value
    ensures Chat(b, input, generated, answer).1.model == input.model
  {
  }

  // ---------------------------------------------------------------------------
  // POST /upload-docs
  // ---------------------------------------------------------------------------

  const AllowedExtensions: seq<string> := [".pdf", ".docx", ".html"]

  /** `', '.join(parts)`. */
  function CommaJoin(parts: seq<string>): string {
    if parts == [] then "" else if |parts| == 1 then parts[0] else parts[0] + ", " + CommaJoin(parts[1..])
  }

  function UnsupportedDetail(): (d: string)
    ensures d == "Unsupported file type. Allowed types are: .pdf, .docx, .html"
  {
    "Unsupported file type. Allowed types are: " + CommaJoin(AllowedExtensions)
  }

  /** Some character of `p[from..to]` is not a dot. */
  predicate HasNonDot(p: string, from: int, to: int)
    requires 0 <= from <= to <= |p|
  {
    exists k :: from <= k < to && p[k] != '.'
  }

  /**
   * `os.path.splitext` on POSIX: the extension runs from the last dot to the
   * end, provided that dot is after the last `/` and the part of the base
   * name before it is not all dots; otherwise there is none.
   */
  function Splitext(p: string): (r: (string, string))
    ensures r.0 + r.1 == p
    ensures r.1 != [] ==> 0 <= LastIndexOf(p, '.') && r.1 == p[LastIndexOf(p, '.')..]
    ensures r.1 != [] ==> r.1[0] == '.' && '.' !in r.1[1..] && '/' !in r.1
    ensures r.1 != [] <==>
              LastIndexOf(p, '.') > LastIndexOf(p, '/') && HasNonDot(p, LastIndexOf(p, '/') + 1, LastIndexOf(p, '.'))
  {
    var sep := LastIndexOf(p, '/');
    var dot := LastIndexOf(p, '.');
    if dot > sep && HasNonDot(p, sep + 1, dot) then
      assert forall k :: dot < k < |p| ==> p[k] != '.' && p[k] != '/';
      (p[..dot], p[dot..])
    else (p, "")
  }

  /** The lower-cased extension is one of the allowed ones. */
  predicate ServerAccepts(filename: string) {
    ToLower(Splitext(filename).1) in AllowedExtensions
  }

  datatype UploadBody = UploadBody(message: string, fileId: nat)

  /** The framework's reply to an exception the handler does not catch. */
  const InternalError := "Internal Server Error"

  /**
   * `upload_and_index_document`: the extension is checked before anything is
   * stored. Then the upload is saved to a temporary file and the row is
   * inserted with the database's next id (`saved` says both succeeded; an
   * exception there escapes the handler). The file is indexed into `pieces`
   * chunks; a failed indexing deletes the row again, but the result of that
   * delete (`rollbackOk`) is ignored and the reply is 500 either way.
   */
  function Upload(b: Backend, filename: string, newId: nat, pieces: nat, saved: bool, indexed: bool, rollbackOk: bool)
    : (r: (Backend, Reply<UploadBody>))
    requires !HasRow(b.rows, newId)
    ensures !ServerAccepts(filename) ==> r == (b, HttpError(400, UnsupportedDetail()))
    ensures ServerAccepts(filename) && !saved ==> r == (b, HttpError(500, InternalError))
    ensures ServerAccepts(filename) && saved && indexed ==>
              r.0 == b.(rows := b.rows + [Row(newId, filename)], chunks := b.chunks + Tagged(pieces, MetaInt(newId))) &&
              r.1 == Ok(UploadBody("File " + filename + " successfully uploaded and indexed.", newId))
    ensures ServerAccepts(filename) && saved && !indexed ==>
              r.0 == (if rollbackOk then b else b.(rows := b.rows + [Row(newId, filename)])) &&
              r.1 == HttpError(500, "Failed to index " + filename + ".")
  {
    if !ServerAccepts(filename) then (b, HttpError(400, UnsupportedDetail()))
    else if !saved then (b, HttpError(500, InternalError))
    else
      var inserted := b.rows + [Row(newId, filename)];
      if indexed then
        (b.(rows := inserted, chunks := b.chunks + Tagged(pieces, MetaInt(newId))),
         Ok(UploadBody("File " + filename + " successfully uploaded and indexed.", newId)))
      else if rollbackOk then
        RemoveNewRow(b.rows, Row(newId, filename));
        (b.(rows := RemoveRow(inserted, newId)), HttpError(500, "Failed to index " + filename + "."))
      else
        (b.(rows := inserted), HttpError(500, "Failed to index " + filename + "."))
  }

  /**
   * When indexing fails and so does the rollback, the reply is still 500 but
   * the row stays: the listing then shows a document with no chunks.
   */
  lemma FailedRollbackLeavesOrphan(b: Backend, filename: string, newId: nat, pieces: nat)
    requires !HasRow(b.rows, newId) && MetaInt(newId) !in b.chunks
    requires ServerAccepts(filename)
    ensures var r := Upload(b, filename, newId, pieces, true, false, false);
            r.1.HttpError? && r.1.status == 500 &&
            DocumentInfo(NatToString(newId), filename) in ListDocuments(r.0.rows) &&
            MetaInt(newId) !in r.0.chunks
  {
    var rows := b.rows + [Row(newId, filename)];
    assert ListDocuments(rows)[|rows| - 1] == DocumentInfo(NatToString(newId), filename);
  }

  /** Deleting a row just appended under a generated id gives the table back. */
  lemma {:induction false} RemoveNewRow(rows: seq<Row>, row: Row)
    requires !HasRow(rows, row.id)
    ensures RemoveRow(rows + [row], row.id) == rows
  {
    assert (rows + [row])[..|rows|] == rows;
    RemoveRowAbsent(rows, row.id);
  }

  lemma {:induction false} RemoveRowAbsent(rows: seq<Row>, id: nat)
    requires !HasRow(rows, id)
    ensures RemoveRow(rows, id) == rows
  {
    if rows != [] {
      var init := rows[..|rows| - 1];
      forall i | 0 <= i < |init| ensures init[i].id != id {
        assert init[i] == rows[i];
      }
      RemoveRowAbsent(init, id);
      assert rows[|rows| - 1].id != id;
      assert init + [rows[|rows| - 1]] == rows;
    }
  }

  // ---------------------------------------------------------------------------
  // GET /list-docs
  // ---------------------------------------------------------------------------

  datatype DocumentInfo = DocumentInfo(fileId: string, filename: string)

  /** `list_documents`: each row, in table order, with its numeric id rendered as a string. */
  function ListDocuments(rows: seq<Row>): (docs: seq<DocumentInfo>)
    ensures |docs| == |rows|
    ensures forall i :: 0 <= i < |rows| ==> docs[i] == DocumentInfo(NatToString(rows[i].id), rows[i].filename)
  {
    if rows == [] then []
    else ListDocuments(rows[..|rows| - 1]) + [DocumentInfo(NatToString(rows[|rows| - 1].id), rows[|rows| - 1].filename)]
  }

  /** A listed id reads back as the row's id, so distinct rows are listed under distinct ids. */
  lemma ListedIdsReadBack(rows: seq<Row>, i: int, j: int)
    requires 0 <= i < |rows| && 0 <= j < |rows|
    ensures AllDigits(ListDocuments(rows)[i].fileId)
    ensures DigitsValue(ListDocuments(rows)[i].fileId) == rows[i].id
    ensures ListDocuments(rows)[i].fileId == ListDocuments(rows)[j].fileId <==> rows[i].id == rows[j].id
  {
    NatToStringRoundTrip(rows[i].id);
    if ListDocuments(rows)[i].fileId == ListDocuments(rows)[j].fileId {
      NatToStringInjective(rows[i].id, rows[j].id);
    }
  }

  // ---------------------------------------------------------------------------
  // DELETE /delete-docs/{file_id}
  // ---------------------------------------------------------------------------

  const ChromaFailed: string := "Failed to delete document from Chroma."
  const DatabaseFailed: string := "Deleted from Chroma but failed to delete from database."

  function DeletedMessage(fileId: string): string {
    "Successfully deleted document with file_id " + fileId + "."
  }

  /** The numeric value the database compares a textual id against: only a plain digit string names a row. */
  function TextId(fileId: string): Option<nat> {
    if fileId != [] && AllDigits(fileId) then Some(DigitsValue(fileId)) else None
  }

  /**
   * `delete_document` as written: the path parameter is a string, and the
   * vector store is asked to drop chunks tagged with that string; the
   * database row goes only if the vector store call succeeded.
   */
  function DeleteDocument(b: Backend, fileId: string, chromaOk: bool, dbOk: bool): (r: (Backend, Reply<string>))
    ensures !chromaOk ==> r == (b, HttpError(500, ChromaFailed))
    ensures chromaOk ==> r.0.chunks == RemoveTagged(b.chunks, MetaStr(fileId)) && r.0.logs == b.logs
    ensures chromaOk && !dbOk ==> r.0.rows == b.rows && r.1 == HttpError(500, DatabaseFailed)
    ensures chromaOk && dbOk ==>
              r.1 == Ok(DeletedMessage(fileId)) &&
              r.0.rows == (if TextId(fileId).Some? then RemoveRow(b.rows, TextId(fileId).value) else b.rows)
  {
    if !chromaOk then (b, HttpError(500, ChromaFailed))
    else
      var chunks := RemoveTagged(b.chunks, MetaStr(fileId));
      if !dbOk then (b.(chunks := chunks), HttpError(500, DatabaseFailed))
      else
        var rows := if TextId(fileId).Some? then RemoveRow(b.rows, TextId(fileId).value) else b.rows;
        (b.(rows := rows, chunks := chunks), Ok(DeletedMessage(fileId)))
  }

  /** A string-typed filter never matches an integer tag, so as written no uploaded chunk is ever deleted. */
  lemma DeleteKeepsIntegerTags(b: Backend, fileId: string, chromaOk: bool, dbOk: bool, n: int)
    requires MetaInt(n) in b.chunks
    ensures MetaInt(n) in DeleteDocument(b, fileId, chromaOk, dbOk).0.chunks
  {
  }

  lemma AcceptsPdf()
    ensures ServerAccepts("a.pdf")
  {
    assert LastIndexOf("a.pdf", '/') == -1;
    assert LastIndexOf("a.pdf", '.') == 1;
    assert "a.pdf"[0] != '.';
    assert Splitext("a.pdf").1 == ".pdf";
    assert ToLower(".pdf") == ".pdf";
  }

  lemma UploadOfPdf()
    ensures Upload(Backend([], [], []), "a.pdf", 1, 2, true, true, true).0 == Backend([Row(1, "a.pdf")], [MetaInt(1), MetaInt(1)], [])
  {
    AcceptsPdf();
    TwoTags();
    var b := Backend([], [], []);
    assert Upload(b, "a.pdf", 1, 2, true, true, true).0 == b.(rows := [] + [Row(1, "a.pdf")], chunks := [] + Tagged(2, MetaInt(1)));
    assert [] + [Row(1, "a.pdf")] == [Row(1, "a.pdf")];
  }

  lemma TwoTags()
    ensures [] + Tagged(2, MetaInt(1)) == [MetaInt(1), MetaInt(1)]
  {
    assert Tagged(1, MetaInt(1)) == [MetaInt(1)];
  }

  lemma ListingOfPdf()
    ensures ListDocuments([Row(1, "a.pdf")]) == [DocumentInfo("1", "a.pdf")]
  {
    assert NatToString(1) == "1";
  }

  lemma DeletionOfPdf()
    ensures DeleteDocument(Backend([Row(1, "a.pdf")], [MetaInt(1), MetaInt(1)], []), "1", true, true)
              == (Backend([], [MetaInt(1), MetaInt(1)], []), Ok(DeletedMessage("1")))
  {
    assert TextId("1") == Some(1);
    assert RemoveRow([Row(1, "a.pdf")], 1) == [];
    RemoveTaggedAbsent([MetaInt(1), MetaInt(1)], MetaStr("1"));
  }

  /**
   * Counterexample: uploading `a.pdf` into empty stores under id 1 with two
   * chunks lists it under `"1"`; deleting `"1"` then reports success and
   * drops the row, but leaves both chunks in the vector store.
   */
  lemma UploadThenDeleteLeavesChunks()
    ensures var up := Upload(Backend([], [], []), "a.pdf", 1, 2, true, true, true).0;
            var listed := ListDocuments(up.rows);
            |listed| == 1 &&
            DeleteDocument(up, listed[0].fileId, true, true) == (Backend([], [MetaInt(1), MetaInt(1)], []), Ok(DeletedMessage("1")))
  {
    UploadOfPdf();
    ListingOfPdf();
    DeletionOfPdf();
  }

  /** The deletion with the id typed as an integer, as the vector-store helper declares it. */
  function DeleteDocumentById(b: Backend, fileId: nat, chromaOk: bool, dbOk: bool): (r: (Backend, Reply<string>))
    ensures !chromaOk ==> r == (b, HttpError(500, ChromaFailed))
    ensures chromaOk ==> MetaInt(fileId) !in r.0.chunks && r.0.logs == b.logs
    ensures chromaOk && !dbOk ==> r.0.rows == b.rows && r.1 == HttpError(500, DatabaseFailed)
    ensures chromaOk && dbOk ==> !HasRow(r.0.rows, fileId) && r.1 == Ok(DeletedMessage(NatToString(fileId)))
  {
    if !chromaOk then (b, HttpError(500, ChromaFailed))
    else
      var chunks := RemoveTagged(b.chunks, MetaInt(fileId));
      if !dbOk then (b.(chunks := chunks), HttpError(500, DatabaseFailed))
      else (b.(rows := RemoveRow(b.rows, fileId), chunks := chunks), Ok(DeletedMessage(NatToString(fileId))))
  }

  /** With an integer path parameter a non-numeric id is refused by validation before the handler runs. */
  function DeleteDocumentFixed(b: Backend, fileId: string, chromaOk: bool, dbOk: bool): (r: (Backend, Reply<string>))
    ensures TextId(fileId).None? ==> r.0 == b && r.1.HttpError? && r.1.status == 422
    ensures TextId(fileId).Some? ==> r == DeleteDocumentById(b, TextId(fileId).value, chromaOk, dbOk)
  {
    match TextId(fileId)
    case None => (b, HttpError(422, "file_id: Input should be a valid integer"))
    case Some(id) => DeleteDocumentById(b, id, chromaOk, dbOk)
  }

  /** Removing what is not there changes nothing. */
  lemma {:induction false} RemoveTaggedAbsent(chunks: seq<Meta>, m: Meta)
    requires m !in chunks
    ensures RemoveTagged(chunks, m) == chunks
  {
    if chunks != [] {
      RemoveTaggedAbsent(chunks[..|chunks| - 1], m);
      assert chunks[..|chunks| - 1] + [chunks[|chunks| - 1]] == chunks;
    }
  }

  /** Removing a tag from chunks followed by chunks that all carry it. */
  lemma {:induction false} RemoveTaggedSuffix(chunks: seq<Meta>, n: nat, m: Meta)
    ensures RemoveTagged(chunks + Tagged(n, m), m) == RemoveTagged(chunks, m)
  {
    if n > 0 {
      RemoveTaggedSuffix(chunks, n - 1, m);
      assert (chunks + Tagged(n, m))[..|chunks + Tagged(n, m)| - 1] == chunks + Tagged(n - 1, m);
    } else {
      assert chunks + Tagged(n, m) == chunks;
    }
  }

  /**
   * With the integer-typed id, deleting a freshly uploaded document by its
   * listed id undoes the upload in both stores.
   */
  lemma DeleteUndoesUpload(b: Backend, filename: string, newId: nat, pieces: nat)
    requires !HasRow(b.rows, newId) && MetaInt(newId) !in b.chunks
    requires ServerAccepts(filename)
    ensures var up := Upload(b, filename, newId, pieces, true, true, true);
            DeleteDocumentFixed(up.0, NatToString(newId), true, true).0 == b
  {
    var up := Upload(b, filename, newId, pieces, true, true, true);
    NatToStringRoundTrip(newId);
    assert TextId(NatToString(newId)) == Some(newId);
    RemoveNewRow(b.rows, Row(newId, filename));
    RemoveTaggedSuffix(b.chunks, pieces, MetaInt(newId));
    RemoveTaggedAbsent(b.chunks, MetaInt(newId));
  }

  // ---------------------------------------------------------------------------
  // Routing
  // ---------------------------------------------------------------------------

  datatype Method = Get | Post | Delete | OtherMethod

  datatype Handler =
    | HealthCheck | ChatHandler | UploadHandler | ListHandler | DeleteHandler(fileId: string)
    | NotFound | MethodNotAllowed
    | StaticApp

  /**
   * The route table, tried in declaration order. When a `static` directory
   * exists, the file server is mounted at `/` before every API route and
   * takes every request; otherwise a path parameter is one non-empty segment.
   */
  function Route(staticDir: bool, m: Method, path: string): (h: Handler)
    ensures h == StaticApp <==> staticDir
    ensures h.DeleteHandler? ==> m == Delete && path == "/delete-docs/" + h.fileId && h.fileId != [] && '/' !in h.fileId
  {
    var prefix := "/delete-docs/";
    if staticDir then StaticApp
    else if path == "/health" then (if m == Get then HealthCheck else MethodNotAllowed)
    else if path == "/chat" then (if m == Post then ChatHandler else MethodNotAllowed)
    else if path == "/upload-docs" then (if m == Post then UploadHandler else MethodNotAllowed)
    else if path == "/list-docs" then (if m == Get then ListHandler else MethodNotAllowed)
    else if StartsWith(path, prefix) && |path| > |prefix| && '/' !in path[|prefix|..] then
      assert path == prefix + path[|prefix|..];
      if m == Delete then DeleteHandler(path[|prefix|..]) else MethodNotAllowed
    else NotFound
  }

  /** A delete path built from a single-segment id routes to the delete handler with that id. */
  lemma RouteDeletePath(fileId: string)
    requires fileId != [] && '/' !in fileId
    ensures Route(false, Delete, "/delete-docs/" + fileId) == DeleteHandler(fileId)
  {
    var path := "/delete-docs/" + fileId;
    assert path[..13] == "/delete-docs/";
    assert path[13..] == fileId;
    assert path != "/health" && path != "/chat" && path != "/upload-docs" && path != "/list-docs" by {
      assert |path| > 13 && path[1] == 'd';
    }
  }
}
