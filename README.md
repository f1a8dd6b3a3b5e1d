# RAG assistant: client orchestration and backend decisions, modelled in Dafny

The system is a browser client for a retrieval-augmented chat assistant, with a small FastAPI backend. In the client, a user chats with the backend under a persisted session id. The user also uploads, lists, searches and deletes the documents the backend indexes, and edits preferences kept in `localStorage`.

This project models the parts of that system that decide something:

- **Transport client** (`Api`, `app/src/lib/api.ts`): the four operations, their URLs, the local guard against an empty document id, and how a failed response becomes the message of a thrown `Error`.
- **Document page** (`DocumentManager`, `app/src/components/DocumentManager.tsx`):
  - the client-side extension check;
  - the batch upload loop with its in-flight name set;
  - wholesale refetch of the cached list;
  - the case-insensitive search view and the icon choice.
- **Chat** (`ChatInterface` and `ChatPage`, `app/src/components/ChatInterface.tsx` and `app/src/pages/Chat.tsx`):
  - the send state machine (transcript, input, loading flag);
  - the error sentence;
  - the session id read from or created in `localStorage`, and replaced when the backend reports a different one.
- **Settings** (`SettingsContext` and `SettingsPage`, `app/src/contexts/SettingsContext.tsx` and `app/src/pages/Settings.tsx`):
  - the defaults and the load-merge from storage;
  - single-field updates, reset, and the effect that persists every change;
  - the page's `hasChanges` flag;
  - the `parseInt(text) || fallback` number inputs, with `parseInt` itself modelled;
  - the clear and reset buttons;
  - the sequential delete-all loop.
- **Env loader** (`LoadEnv`, `load_env.py`): line parsing (strip, comments, first `=`, one pair of quotes, placeholder filter) and the loop that assigns into `os.environ`.
- **Backend** (`Server`, `api/main.py`):
  - routing;
  - the chat session-id default;
  - the upload extension check (POSIX `os.path.splitext`) and the rollback of a failed indexing;
  - the listing's id mapping;
  - the two-store deletion.
- **Both sides together** (`Integration`):
  - every client request reaches the handler meant for it, unless a `static` directory puts the file server in front of every route;
  - every file the server accepts is one the client lets through, but not the other way round;
  - the session id the page sends is the one the server answers with.

The model keeps the source's own form:
- **Classes** hold state the source updates in place: `LocalStorage`, `ChatPage`, `ChatInterface`, `DocumentManager`, `SettingsStore`, `SettingsPage` and `Environ`.
- **Loops** stay loops, each proved against a specification function: the upload batch, the delete-all loop and the env-file loop.
- **Pure decisions** are functions with lemmas about them.
- **Network calls** are parameters: every backend answer is an `Api.Response` value given to the operation, and so are the server's store outcomes.
- **Other external inputs** are parameters too: `Date.now()`, `Math.random()`, `uuid4()`, the database's next id, the chunk count of an indexed document, and the JSON codec.

Two behaviours of the code worth noting:
- Uploads in one batch are awaited one after another (`DocumentManager.tsx:89-105`); no two run at the same time.
- A loaded settings record is spread over the defaults as it is. No per-key validation takes place (`SettingsContext.tsx:65`).

## Model

| member | source | states |
|---|---|---|
| Api.HandleResponse | app/src/lib/api.ts:21-34 | A non-ok response always ends in a thrown error; an ok response yields its parsed body unchanged. |
| Api.DetailWins | app/src/lib/api.ts:26 | A truthy `detail` is the error message whatever `message` and `statusText` hold. |
| Api.StatusTextOnlyWithoutJson | app/src/lib/api.ts:24-30 | When the body is a JSON value (other than `null`) the status text plays no part in the message. |
| Api.ErrorMessageNonEmpty | app/src/lib/api.ts:23-31 | The thrown message is empty only when it was taken from an object whose string form is empty: a `detail` object, or a `message` object behind a falsy `detail`. |
| Api.StatusMessage | app/src/lib/api.ts:23 | The generic message starts with `API error! status: ` and carries more after it. |
| Api.StatusMessageCarriesStatus | app/src/lib/api.ts:23 | The status code reads back out of the generic message. |
| Api.Url | app/src/lib/api.ts:19 | Every URL starts with the base URL, which has no trailing slash, followed by exactly one `/`. |
| Api.Chat | app/src/lib/api.ts:37-45 | `chat` POSTs the request as JSON to `<base>/chat`; a non-ok response throws. |
| Api.UploadDocument | app/src/lib/api.ts:48-58 | `uploadDocument` POSTs the file as form data to `<base>/upload-docs`; a non-ok response throws. |
| Api.ListDocuments | app/src/lib/api.ts:61-64 | `listDocuments` GETs `<base>/list-docs`; a non-ok response throws. |
| Api.DeleteDocument | app/src/lib/api.ts:67-75 | No request is sent exactly when the id is empty, and then the error is `fileId is required to delete a document`. Otherwise it sends DELETE `<base>/delete-docs/<id>`, and a non-ok response throws. |
| Api.EmptyIdIgnoresBackend | app/src/lib/api.ts:68 | Deleting with an empty id does not depend on anything the backend would have answered. |
| ChatPage.NewSessionId | app/src/pages/Chat.tsx:11 | A generated id starts with `session_` and has more after it. |
| ChatPage.NewSessionIdTimestamp | app/src/pages/Chat.tsx:11 | The creation time reads back from a generated id. |
| ChatPage.NewSessionIdsDiffer | app/src/pages/Chat.tsx:11 | Ids generated at different milliseconds differ, whatever their random suffixes. |
| ChatPage.InitialSessionId | app/src/pages/Chat.tsx:6-14 | A stored non-empty id is used unchanged; otherwise the id is a new one stamped with the current time. The id is never empty. |
| ChatPage.ChatPage.constructor | app/src/pages/Chat.tsx:6-14 | After the first render the stored id is the current one, no other key changed, and the id is not empty. |
| ChatPage.ChatPage.HandleSessionChange | app/src/pages/Chat.tsx:16-19 | The new id becomes current and is stored under `rag-session-id`; every other storage key keeps its value. |
| Browser.LocalStorage.SetItem | app/src/pages/Chat.tsx:12 | `setItem` changes only the named key. |
| Browser.LocalStorage.RemoveItem | app/src/pages/Settings.tsx:51 | `removeItem` removes only the named key. |
| Text.TrimEmptyIffBlank | app/src/components/ChatInterface.tsx:37 | `input.trim()` is empty exactly when the input is all whitespace. |
| Text.TrimIsInfix | app/src/components/ChatInterface.tsx:37 | `trim()` gives a contiguous slice of the input; everything before and after that slice is whitespace, so only the ends lose characters. |
| Text.LastPieceIsTail | app/src/components/DocumentManager.tsx:90 | `name.split('.').pop()` is the text after the last dot, or the whole name when it has no dot. |
| Text.JoinSplit | app/src/components/DocumentManager.tsx:90 | The pieces of a split, joined again with the separator, give back the string, so the split loses nothing. |
| Text.ToLowerIdempotent | app/src/components/DocumentManager.tsx:61 | Lower-casing twice is lower-casing once. |
| ChatInterface.ErrorReply | app/src/components/ChatInterface.tsx:69-73 | The failure text starts with `Sorry, I encountered an error: ` and ends with `. Please try again.`; its length is the sum of the three parts. |
| ChatInterface.ErrorReplyQuotesMessage | app/src/components/ChatInterface.tsx:71 | The error's message (`Unknown error` for a non-`Error` value) reads back from between the fixed lead and tail. |
| ChatInterface.SendBlankIsNoOp | app/src/components/ChatInterface.tsx:37 | A blank input leaves the transcript, the input and the loading flag as they were, and sends nothing. |
| ChatInterface.SendAppendsExchange | app/src/components/ChatInterface.tsx:36-78 | An accepted send keeps the earlier turns and appends exactly two: the untrimmed input as the user's, then the answer or the error sentence as the assistant's. The input ends empty and loading ends off. The request carries the input, the session id and the model. |
| ChatInterface.SessionReportedIff | app/src/components/ChatInterface.tsx:65-67 | `onSessionChange` is called exactly when the call succeeded with a non-empty id other than the current one, and it receives that id. |
| ChatInterface.SendKeepsPaired | app/src/components/ChatInterface.tsx:45-74 | Sending keeps the transcript a sequence of whole user-then-assistant exchanges. |
| ChatInterface.ChatInterface.constructor | app/src/components/ChatInterface.tsx:22-25 | The component starts with an empty transcript, an empty input, loading off and the flash-lite model. |
| ChatInterface.ChatInterface.SetInput | app/src/components/ChatInterface.tsx:211-215 | Typing sets the input; it is possible only while not loading. |
| ChatInterface.ChatInterface.SelectModel | app/src/components/ChatInterface.tsx:95 | Choosing a model sets the selected model. |
| ChatInterface.ChatInterface.BeginSend | app/src/components/ChatInterface.tsx:37-47 | The part before the await: the state and the request are those of the specification `Begin`, and the transcript ends with the pending user turn. |
| ChatInterface.ChatInterface.CompleteSend | app/src/components/ChatInterface.tsx:49-77 | The part after the await appends the reply and clears loading. The page's session id and its stored copy change exactly as `SessionUpdate` says. |
| ChatInterface.ChatInterface.HandleSendMessage | app/src/components/ChatInterface.tsx:36-78 | A whole send leaves the state, the request and the session change given by `Send`, and keeps the transcript in whole exchanges. |
| DocumentManager.ClientExtensionIsTail | app/src/components/DocumentManager.tsx:90 | The extension is `.` plus the lower-cased text after the last dot, or `.` plus the whole lower-cased name when there is no dot. |
| DocumentManager.FileIcon | app/src/components/DocumentManager.tsx:149-161 | pdf, docx and html each get their own icon, exactly when the extension is that one; every other extension gets the default icon. |
| DocumentManager.Filtered | app/src/components/DocumentManager.tsx:60-62 | The search view holds exactly the documents whose lower-cased name contains the lower-cased term, and is no longer than the list. |
| DocumentManager.FilteredIsSubsequence | app/src/components/DocumentManager.tsx:60-62 | The search view keeps the documents' order: it is a subsequence of the list. |
| DocumentManager.FilteredCounts | app/src/components/DocumentManager.tsx:60-62 | The search view keeps every copy of a matching document and no copy of any other, so with the order it is exactly the filter. |
| DocumentManager.FilterEmptyTermKeepsAll | app/src/components/DocumentManager.tsx:60-62 | An empty search term shows every document. |
| DocumentManager.FilterIdempotent | app/src/components/DocumentManager.tsx:60-62 | Filtering the view again with the same term changes nothing. |
| DocumentManager.FilterIgnoresTermCase | app/src/components/DocumentManager.tsx:61 | Lower-casing the term first does not change the view. |
| DocumentManager.Refetched | app/src/components/DocumentManager.tsx:39-54 | A successful list replaces the cache with exactly the fetched sequence; a failed one leaves it. |
| DocumentManager.BatchSteps | app/src/components/DocumentManager.tsx:86-105 | There is one step per file, in input order. A file gets an upload request exactly when its extension is allowed, so a rejected file neither uploads nor stops later files. An accepted file's name is in the in-flight set while its upload is awaited. |
| DocumentManager.BatchClearsUploading | app/src/components/DocumentManager.tsx:119-124 | After a batch the in-flight set is what it was minus every accepted name, on success and failure alike; other names are untouched. |
| DocumentManager.BatchDocuments | app/src/components/DocumentManager.tsx:105-112 | `onDocumentChange` runs once per successful upload. The cache is either untouched or is exactly a list fetched after a successful upload. |
| DocumentManager.DocumentManager.constructor | app/src/components/DocumentManager.tsx:32-58 | The page mounts with no uploads, an empty term and the list of the mount fetch (or an empty list if it failed). |
| DocumentManager.DocumentManager.FilteredDocuments | app/src/components/DocumentManager.tsx:60-62 | The displayed list is an order-preserving subsequence of the cache. |
| DocumentManager.DocumentManager.SetSearchTerm | app/src/components/DocumentManager.tsx:234 | Typing in the search box sets the term. |
| DocumentManager.DocumentManager.FetchDocuments | app/src/components/DocumentManager.tsx:39-54 | It reports success exactly when the list call succeeded. Then the cache is exactly the fetched list; otherwise it is unchanged. |
| DocumentManager.DocumentManager.UploadFiles | app/src/components/DocumentManager.tsx:86-127 | The loop leaves the cache, the in-flight set, the change count and the per-file steps that `UploadBatch` specifies. |
| DocumentManager.DocumentManager.DeleteDocument | app/src/components/DocumentManager.tsx:129-147 | Success means the delete call succeeded, which an empty id never does. Then the list is refetched and `onDocumentChange` runs once; a failed delete leaves the cache and the count. |
| SettingsContext.Defaults | app/src/contexts/SettingsContext.tsx:22-34 | The defaults give every one of the eleven declared fields a value of its declared type, and carry no other property. |
| SettingsContext.Merge | app/src/contexts/SettingsContext.tsx:65 | The spread has the keys of both. A parsed value wins; a default shows through only where nothing was parsed. |
| SettingsContext.UpdateSetsOnlyKey | app/src/contexts/SettingsContext.tsx:72-74 | An update sets the named field and leaves every other property as it was. |
| SettingsContext.UpdateIdempotent | app/src/contexts/SettingsContext.tsx:72-74 | Applying the same update twice is applying it once. |
| SettingsContext.UpdateKeepsWellTyped | app/src/contexts/SettingsContext.tsx:72-74 | An update whose value has the field's declared type keeps every field present and well typed. |
| SettingsContext.LoadKeepsWellTyped | app/src/contexts/SettingsContext.tsx:60-70 | Loading a record whose declared fields have their declared types keeps the settings well typed. A missing or malformed record keeps them as they were. |
| SettingsContext.ReloadReproduces | app/src/contexts/SettingsContext.tsx:60-88 | Reloading the record persisted for a full settings object gives that object back, given that parsing undoes stringifying. |
| SettingsContext.SettingsStore.Persist | app/src/contexts/SettingsContext.tsx:86-88 | The persist effect stores the current settings' serialisation under `rag-settings`, and changes no other key. |
| SettingsContext.SettingsStore.constructor | app/src/contexts/SettingsContext.tsx:58-88 | Mounting gives the defaults, then the load from storage, then the persist effect; every default key is present afterwards. |
| SettingsContext.SettingsStore.LoadSettings | app/src/contexts/SettingsContext.tsx:60-70 | Settings become `Load(...)` of the stored record. Storage is rewritten only when the record replaced the settings; a missing or malformed record leaves it alone. |
| SettingsContext.SettingsStore.UpdateSetting | app/src/contexts/SettingsContext.tsx:72-74 | Settings become the single-field update, and the new settings are persisted. |
| SettingsContext.SettingsStore.ResetSettings | app/src/contexts/SettingsContext.tsx:76-78 | Settings become the defaults, and these are persisted. |
| SettingsPage.ParseIntReadsRendering | app/src/pages/Settings.tsx:156 | `parseInt` reads back the decimal rendering of any integer, and ignores whatever follows from the first non-digit character (except an `x` after a lone `0`). |
| SettingsPage.NumberField.Fallback | app/src/pages/Settings.tsx:156 | Each number input's fallback (2048, 1000, 200) is non-zero and equals that field's default. |
| SettingsPage.NumberInput | app/src/pages/Settings.tsx:156 | `parseInt(text) \|\| fallback` is the parsed integer whenever `parseInt` gives a non-zero number (so `12px` stores 12); for `NaN` or 0 it is the fallback. |
| SettingsPage.NumberFieldNeverZero | app/src/pages/Settings.tsx:191 | A number field never receives zero. |
| SettingsPage.NumberInputRoundTrip | app/src/pages/Settings.tsx:200 | Typing the rendering of a non-zero integer, negative ones included, stores that integer. |
| SettingsPage.DeleteCalls | app/src/pages/Settings.tsx:64-66 | There is one delete call per listed document, in listing order, each for that document's id. |
| SettingsPage.SweepSucceedsIff | app/src/pages/Settings.tsx:64-66 | The loop of awaited deletes gets through exactly when every call succeeds. |
| SettingsPage.SweepSendsAll | app/src/pages/Settings.tsx:64-66 | When the loop gets through, each call's request was sent once, in order. |
| SettingsPage.SweepStops | app/src/pages/Settings.tsx:64-66 | After the first failure nothing more is sent and the outcome is fixed. |
| SettingsPage.DeleteEachSucceedsIff | app/src/pages/Settings.tsx:64-66 | Deleting the listed documents succeeds exactly when each document's delete call succeeds. |
| SettingsPage.DeleteEachSendsInOrder | app/src/pages/Settings.tsx:64-66 | When all deletions succeed, one DELETE `<base>/delete-docs/<id>` was sent per document, in listing order. |
| SettingsPage.DeleteAllOutcome | app/src/pages/Settings.tsx:58-79 | The bulk delete reports removal exactly when the listing and every deletion succeed, and then counts the listed documents. A failed listing sends only the listing request. |
| SettingsPage.DeleteListed | app/src/pages/Settings.tsx:64-66 | The `for ... await` loop returns the outcome and the requests of the specification `Sweep`. |
| SettingsPage.DeleteAllDocuments | app/src/pages/Settings.tsx:58-79 | `deleteAllDocuments` gives the outcome and requests of `DeleteAll`. |
| SettingsPage.SettingsPage.constructor | app/src/pages/Settings.tsx:25 | Over a valid, persisted settings store the page starts valid, with no unsaved changes. |
| SettingsPage.SettingsPage.HandleUpdateSetting | app/src/pages/Settings.tsx:28-31 | The named field is updated and persisted, and `hasChanges` is set. |
| SettingsPage.SettingsPage.HandleNumberInput | app/src/pages/Settings.tsx:156 | A number input stores `parseInt(text) \|\| fallback` in its field, never 0, and sets `hasChanges`. |
| SettingsPage.SettingsPage.HandleSave | app/src/pages/Settings.tsx:33-39 | Saving clears `hasChanges`, which disables the save button, and touches nothing else. |
| SettingsPage.SettingsPage.HandleReset | app/src/pages/Settings.tsx:41-48 | The defaults are restored and persisted, and `hasChanges` is set. |
| SettingsPage.SettingsPage.ClearChatHistory | app/src/pages/Settings.tsx:50-56 | Only `rag-session-id` is removed from storage; the persisted settings stay. |
| SettingsPage.SettingsPage.ResetAllSettings | app/src/pages/Settings.tsx:81-89 | The session id is removed, the defaults are restored and persisted, and `hasChanges` is cleared. |
| LoadEnv.Strip | load_env.py:21 | `strip()` leaves no Python whitespace at either end. |
| LoadEnv.StripIsInfix | load_env.py:21 | `strip()` gives a contiguous slice of the line; everything before and after that slice is Python whitespace, so only the ends lose characters. |
| LoadEnv.StripNoOp | load_env.py:30-31 | A string with no whitespace at its ends is its own strip. |
| LoadEnv.Unquote | load_env.py:34-37 | One pair of matching double or single quotes is removed (a lone quote becomes empty); anything else is kept. |
| LoadEnv.ParseLine | load_env.py:21-41 | A blank line, a comment or a line without `=` assigns nothing. An assignment has a non-empty key free of `=` and without padding, and a non-empty value other than the placeholder. |
| LoadEnv.Assignment | load_env.py:29-41 | An accepted pair has a non-empty stripped key and a non-empty value that is not `your_<key>_here`. |
| LoadEnv.ParseLineSplits | load_env.py:28-31 | A line splits at the first `=`, so the value may contain further `=` characters. |
| LoadEnv.ParseLineRoundTrip | load_env.py:21-41 | `KEY=value` with a bare value assigns exactly that value to that key. |
| LoadEnv.ParseLineQuotedRoundTrip | load_env.py:34-35 | `KEY="value"` assigns the text between the quotes, inner spaces included. |
| LoadEnv.PlaceholderSkipped | load_env.py:40 | The template's `KEY=your_key_here` line assigns nothing. |
| LoadEnv.ParseAll | load_env.py:20-21 | Every line is parsed on its own, in file order. |
| LoadEnv.ApplyLines | load_env.py:19-41 | The loop never unsets a variable. |
| LoadEnv.UnassignedKeyUntouched | load_env.py:40-41 | A variable no line assigns keeps its value, or stays unset. |
| LoadEnv.LastAssignmentWins | load_env.py:19-41 | When the loop runs to the end, a variable holds the value of the last line that assigns it. |
| LoadEnv.CompletesIffNoRejection | load_env.py:18-48 | The loop runs to the end exactly when no assignment raises. |
| LoadEnv.StopIsFinal | load_env.py:46-48 | An assignment that raises ends the loop; later lines change nothing, and earlier assignments stay. |
| LoadEnv.Environ.SetItem | load_env.py:41 | `os.environ[key] = value` sets that key alone, and raises for an embedded NUL. |
| LoadEnv.LoadEnvFile | load_env.py:10-48 | The result and the environment are those of `Load`. A missing file gives `False` and changes nothing; a read error gives `False` after the lines read so far; a clean run gives `True`. |
| LoadEnv.ReadLines | load_env.py:19-44 | The `for line in f` loop leaves the environment and completion flag of `ApplyLines` over the parsed lines. |
| LoadEnv.ReadLine | load_env.py:21-42 | One pass of the loop body is `Step` on the parsed line. |
| Server.RemoveTagged | api/chroma_utils.py:60 | After the vector store's delete by metadata, no chunk carries the given tag, and every remaining chunk was there before. |
| Server.RemoveTaggedCounts | api/chroma_utils.py:60 | The delete keeps every chunk with another tag, each in its original number of copies. |
| Server.RemoveRow | api/main.py:104 | After deleting a record, no row has that id, and every remaining row was there before. |
| Server.RemoveRowCounts | api/main.py:104 | Deleting a record keeps every row with another id, each in its original number of copies. |
| Server.Tagged | api/chroma_utils.py:45-48 | Indexing adds as many chunks as pieces, each tagged with the file's id. |
| Server.ChatSessionId | api/main.py:39 | A present non-empty session id is kept; otherwise the generated one is used. The id is never empty. |
| Server.Chat | api/main.py:37-52 | The response echoes the session id and the request's model, and the exchange is logged under that id. The document stores are unchanged. |
| Server.ChatKeepsSession | api/main.py:39-52 | A request that names its session gets that same id back. |
| Server.UnsupportedDetail | api/main.py:61 | The 400 detail lists `.pdf, .docx, .html`. |
| Server.Splitext | api/main.py:58 | POSIX `splitext`: the parts concatenate to the name. The extension, if any, runs from the last dot, holds no further dot or `/`, and exists exactly when that dot follows the last `/` and a non-dot character before it. |
| Server.Upload | api/main.py:55-82 | An extension that is not allowed gives 400 with the stores untouched. A failed temp-file write or row insert escapes the handler as a 500 with the stores untouched. Indexing success adds the row and the tagged chunks and answers with the id. An indexing failure gives 500; the row is removed only if the ignored rollback delete succeeds. |
| Server.FailedRollbackLeavesOrphan | api/main.py:74-79 | When indexing and then the rollback fail, the reply is 500, yet the listing shows the document and no chunk is tagged with its id. |
| Server.RemoveNewRow | api/main.py:71-79 | The rollback deletes exactly the row just inserted, giving the table back. |
| Server.ListDocuments | api/main.py:85-95 | One entry per row, in table order, with the numeric id rendered as a string. |
| Server.ListedIdsReadBack | api/main.py:90 | A listed id is a digit string that reads back as the row's id, so distinct rows are listed under distinct ids. |
| Server.DeleteDocument | api/main.py:99-117 | As written: a failed vector-store delete gives 500 and touches nothing; a failed database delete after it gives the other 500. Success deletes the row, but the chunk filter is the id as a string. |
| Server.DeleteKeepsIntegerTags | api/main.py:99-101 | As written, a deletion never removes an integer-tagged chunk. |
| Server.UploadThenDeleteLeavesChunks | api/main.py:99-107 | Counterexample: upload `a.pdf`, list it under `"1"`, delete `"1"`. The delete reports success and drops the row, but both chunks stay. |
| Server.DeleteDocumentById | api/chroma_utils.py:55-60 | With the id typed as an integer, success leaves no chunk tagged with it and no row with it; the failure branches are as written. |
| Server.DeleteDocumentFixed | api/main.py:99-100 | Corrected deletion: a non-numeric id is refused with 422 and nothing changes; a numeric one is deleted by its integer value. |
| Server.DeleteUndoesUpload | api/main.py:55-117 | Corrected: deleting a freshly uploaded document by its listed id restores both stores exactly. |
| Server.Route | api/main.py:27-100 | With a `static` directory the file server mounted at `/` takes every request. Without one, the delete handler is reached only by DELETE on `/delete-docs/` followed by one non-empty segment, which becomes the id. |
| Server.RouteDeletePath | api/main.py:99 | DELETE on `/delete-docs/<id>` with a one-segment id reaches the delete handler with that id. |
| Integration.ServerModel | api/pydantic_models.py:6-8 | The server's enum value for each client model is the name the client sends. |
| Integration.EndpointsRoute | app/src/lib/api.ts:38-70 | Without a `static` directory every client request reaches the handler meant for it, the delete request with the id it names. With one, the static mount takes every client request and no API handler is reached. |
| Integration.ListedIdsRoute | api/main.py:90 | Without a `static` directory, deleting a listed document reaches the delete handler with its id. |
| Integration.ServerAcceptsImpliesClientAccepts | api/main.py:57-60 | Every filename the server accepts is accepted by the upload page. |
| Integration.ServerExtensionIsClientExtension | api/main.py:58 | Where `splitext` finds an extension, lower-cased it is the extension the page computes. |
| Integration.DotFileAcceptedOnlyByClient | app/src/components/DocumentManager.tsx:90-92 | The converse fails: `.pdf` passes the page's check and is refused by the server. |
| Integration.SessionNeverMigrates | app/src/components/ChatInterface.tsx:52-67 | The page sends its own non-empty session id, and the server answers with that id and the model sent, so the page never switches session. |

## Left out

- Presentation: JSX, CSS, icons as elements, drag-over visuals, scrolling, spinners and every toast are not modelled. `deleteDocument`'s `filename` parameter only feeds toasts, so it is left out.
- Message timestamps (`new Date()`) are not modelled. `Date.now()`, `Math.random()` and `uuid4()` are parameters, and the random suffix is an arbitrary string.
- React scheduling: each handler is atomic. `fetchDocuments()` is not awaited in the upload and delete handlers (`DocumentManager.tsx:111`, `:138`), but the model runs the refetch at that point, so interleavings with later uploads are not captured. The same holds for a persist effect that React would skip when a reset leaves the settings unchanged: `SettingsStore.ResetSettings` always persists.
- `fetch`, `FormData`, `response.json()` and dynamic `import()` are not modelled: each backend answer is a parameter.
- `JSON.stringify` and `JSON.parse` are an abstract codec. `SettingsContext.ReloadReproduces` assumes that parsing undoes stringifying.
- Letter case: `Text.ToLower` lower-cases ASCII letters only, while JavaScript's `toLowerCase` and Python's `lower` also map other scripts.
- Whitespace: `Text.Trim` removes the ASCII whitespace set only. JavaScript's `trim` also removes other Unicode spaces. (`LoadEnv.Strip` does use Python's full `isspace` set.)
- JavaScript numbers are unbounded integers here. `parseInt`'s precision loss above 2^53 and fractional values are not modelled.
- `SettingsPage.NumberInput`: `parseInt` is modelled for decimal and `0x` hexadecimal text. The `-0` of `parseInt("-0")` is the integer 0, which `\|\|` treats the same way.
- The upload response's `file_id` is an integer in the server's JSON (`main.py:76`) but typed as a string on the client. The client never reads it, so `Api.UploadResponse` keeps the client's type.
- The env file's line splitting, its UTF-8 decoding and the printed console messages are not modelled. A decoding error or unreadable file is `ReadError` with the lines read before it.
- `os.environ[key] = value` is modelled as raising only for an embedded NUL. Platform limits on names and sizes are not modelled.
- `db_utils.py` and `langchain_utils.py` are not part of this model:
  - The stores are values.
  - The answer, the next row id, the chunk count and each store call's success are parameters. This includes the temp-file write and row insert at `main.py:67-71` and the rollback at `main.py:78`.
  - An exception that escapes a handler is a 500 whose detail is `Internal Server Error` (`Server.InternalError`). The framework's exact response body is not modelled.
  - The database is assumed to match a textual id against the integer key when the text is a plain digit string (`Server.TextId`).
  - `get_all_documents` is taken to return rows in table order.
- Pydantic validation of path and body parameters is not modelled beyond the `ModelType` enum and, in `Server.DeleteDocumentFixed`, an integer path parameter read as a plain digit string.
- CORS, logging, temporary files and the health check's response body are framework plumbing. The health route only appears in `Server.Route`.
- Server.Route: the static mount is a flag saying whether a `static` directory exists. With one, the mount answers every request; what the file server then returns (a file, 404 or 405) is not modelled.
- Other files are not part of this model: `api/chroma_utils.py` beyond the metadata tag and filter, `setup_api_key.py`, the sidebar, the not-found page, the documents page and the loading spinner.

## Findings

| source | as written | input that shows it | evidently intended | confidence | as-written member | corrected member |
|---|---|---|---|---|---|---|
| api/main.py:99-104 | `delete_document` takes `file_id: str` and passes the string to `delete_doc_from_chroma`. That function is annotated `file_id: int` and filters chunks with `where={"file_id": file_id}`, but indexing tagged the chunks with the integer id (`api/chroma_utils.py:46`). The string filter matches no chunk, and success is still reported. | Upload `a.pdf` into empty stores; it gets id 1 and two chunks. The listing gives `file_id` `"1"`. DELETE `/delete-docs/1` answers 200 and removes the row, but both chunks tagged `1` remain and can still be retrieved. | The path parameter is typed `int`, so the filter matches the chunks the upload created; deleting an uploaded document restores both stores. | medium; not executed; rests on the vector store comparing metadata values by type | Server.UploadThenDeleteLeavesChunks | Server.DeleteUndoesUpload |
