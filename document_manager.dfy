/**
 * The document page's state (`DocumentManager` component): the cached list
 * of documents, the set of file names being uploaded, the search term, and
 * the handlers that upload a batch of files, delete one document and
 * refetch the list. Every backend answer is a parameter.
 */
module DocumentManager {
  import opened Wrappers
  import opened Text
  import Api

  type Doc = Api.DocumentInfo

  /** The extensions the upload handler lets through. */
  const AllowedTypes: seq<string> := [".pdf", ".docx", ".html"]

  /** `'.' + name.split('.').pop()?.toLowerCase()`. */
  function ClientExtension(name: string): string {
    "." + ToLower(LastPiece(name, '.'))
  }

  /** The extension is the lower-cased text after the last dot, or the whole lower-cased name when it has no dot. */
  lemma ClientExtensionIsTail(name: string)
    ensures ClientExtension(name) == "." + ToLower(name[LastIndexOf(name, '.') + 1..])
    ensures '.' !in name ==> ClientExtension(name) == "." + ToLower(name)
  {
    LastPieceIsTail(name, '.');
  }

  predicate ClientAccepts(name: string) {
    ClientExtension(name) in AllowedTypes
  }

  /** The icon kinds `getFileIcon` chooses between. */
  datatype Icon = PdfIcon | DocxIcon | HtmlIcon | DefaultIcon

  /** `getFileIcon`: a switch on the lower-cased text after the last dot. */
  function FileIcon(filename: string): (icon: Icon)
    ensures icon == PdfIcon <==> ClientExtension(filename) == ".pdf"
    ensures icon == DocxIcon <==> ClientExtension(filename) == ".docx"
    ensures icon == HtmlIcon <==> ClientExtension(filename) == ".html"
    ensures icon != DefaultIcon <==> ClientAccepts(filename)
  {
    var ext := ToLower(LastPiece(filename, '.'));
    assert ClientExtension(filename) == "." + ext && ClientExtension(filename)[1..] == ext;
    if ext == "pdf" then PdfIcon
    else if ext == "docx" then DocxIcon
    else if ext == "html" then HtmlIcon
    else DefaultIcon
  }

  /** The search condition: the lower-cased filename contains the lower-cased term. */
  predicate Matches(doc: Doc, term: string) {
    Contains(ToLower(doc.filename), ToLower(term))
  }

  /** `documents.filter(...)`: the documents that match, in their original order. */
  function Filtered(docs: seq<Doc>, term: string): (r: seq<Doc>)
    ensures |r| <= |docs|
    ensures forall d :: d in r <==> d in docs && Matches(d, term)
  {
    if docs == [] then []
    else (if Matches(docs[0], term) then [docs[0]] else []) + Filtered(docs[1..], term)
  }

  /** The view keeps every copy of a matching document and no copy of any other. */
  lemma {:induction false} FilteredCounts(docs: seq<Doc>, term: string)
    ensures forall d :: multiset(Filtered(docs, term))[d] == if Matches(d, term) then multiset(docs)[d] else 0
  {
    if docs != [] {
      FilteredCounts(docs[1..], term);
      assert docs == [docs[0]] + docs[1..];
    }
  }

  /** `a` is `b` with some elements left out, the rest in the same order. */
  predicate IsSubsequence<T(==)>(a: seq<T>, b: seq<T>)
    decreases |b|
  {
    a == [] || (b != [] && if a[0] == b[0] then IsSubsequence(a[1..], b[1..]) else IsSubsequence(a, b[1..]))
  }

  lemma {:induction false} FilteredIsSubsequence(docs: seq<Doc>, term: string)
    ensures IsSubsequence(Filtered(docs, term), docs)
  {
    if docs != [] {
      FilteredIsSubsequence(docs[1..], term);
      var rest := Filtered(docs[1..], term);
      if Matches(docs[0], term) {
        assert Filtered(docs, term) == [docs[0]] + rest;
        assert ([docs[0]] + rest)[1..] == rest;
      } else {
        assert Filtered(docs, term) == rest;
        SubsequenceOfTail(rest, docs);
      }
    }
  }

  /** Leaving out the head of `b` keeps `a` a subsequence. */
  lemma {:induction false} SubsequenceOfTail<T>(a: seq<T>, b: seq<T>)
    requires b != [] && IsSubsequence(a, b[1..])
    ensures IsSubsequence(a, b)
    decreases |b|, 1
  {
    if a != [] && a[0] == b[0] {
      SubsequenceDropHead(a, b[1..]);
    }
  }

  /** Leaving out the head of `a` keeps it a subsequence. */
  lemma {:induction false} SubsequenceDropHead<T>(a: seq<T>, b: seq<T>)
    requires a != [] && IsSubsequence(a, b)
    ensures IsSubsequence(a[1..], b)
    decreases |b|, 2
  {
    if a[0] == b[0] {
      SubsequenceOfTail(a[1..], b);
    } else {
      SubsequenceDropHead(a, b[1..]);
      SubsequenceOfTail(a[1..], b);
    }
  }

  /** An empty search term shows every document. */
  lemma {:induction false} FilterEmptyTermKeepsAll(docs: seq<Doc>)
    ensures Filtered(docs, "") == docs
  {
    if docs != [] {
      ContainsEmpty(ToLower(docs[0].filename));
      FilterEmptyTermKeepsAll(docs[1..]);
    }
  }

  /** Filtering again with the same term changes nothing. */
  lemma {:induction false} FilterIdempotent(docs: seq<Doc>, term: string)
    ensures Filtered(Filtered(docs, term), term) == Filtered(docs, term)
  {
    if docs != [] {
      FilterIdempotent(docs[1..], term);
      var rest := Filtered(docs[1..], term);
      if Matches(docs[0], term) {
        var f := [docs[0]] + rest;
        assert Filtered(docs, term) == f;
        assert f[0] == docs[0] && f[1..] == rest;
        assert Filtered(f, term) == [docs[0]] + Filtered(rest, term);
      } else {
        assert Filtered(docs, term) == rest;
      }
    }
  }

  /** The search ignores the letter case of the term. */
  lemma {:induction false} FilterIgnoresTermCase(docs: seq<Doc>, term: string)
    ensures Filtered(docs, ToLower(term)) == Filtered(docs, term)
  {
    ToLowerIdempotent(term);
    if docs != [] {
      FilterIgnoresTermCase(docs[1..], term);
    }
  }

  /** The backend's answers for one accepted file: its upload, then the list refetched after a success. */
  datatype UploadAttempt = UploadAttempt(upload: Api.Response<Api.UploadResponse>, refetch: Api.Response<seq<Doc>>)

  /** What happened to one file of a batch; `inFlight` is the uploading set while its upload was awaited. */
  datatype FileStep =
    | Rejected(name: string)
    | Attempted(name: string, inFlight: set<string>, uploaded: bool)

  /** The component state the handlers change; `changes` counts calls of `onDocumentChange`. */
  datatype Snapshot = Snapshot(documents: seq<Doc>, uploading: set<string>, changes: nat)

  /** `fetchDocuments`: a successful list replaces the cache wholesale; a failed one leaves it. */
  function Refetched(docs: seq<Doc>, response: Api.Response<seq<Doc>>): (r: seq<Doc>)
    ensures Api.ListDocuments(response).result.Success? ==> r == Api.ListDocuments(response).result.value
    ensures Api.ListDocuments(response).result.Failure? ==> r == docs
  {
    match Api.ListDocuments(response).result
    case Success(fetched) => fetched
    case Failure(_) => docs
  }

  /** One iteration of the `uploadFiles` loop. */
  function UploadOne(s: Snapshot, name: string, a: UploadAttempt): (Snapshot, FileStep) {
    if !ClientAccepts(name) then (s, Rejected(name))
    else
      var inFlight := s.uploading + {name};
      var ok := Api.UploadDocument(name, a.upload).result.Success?;
      var docs := if ok then Refetched(s.documents, a.refetch) else s.documents;
      (Snapshot(docs, inFlight - {name}, if ok then s.changes + 1 else s.changes), Attempted(name, inFlight, ok))
  }

  /** `uploadFiles` over a whole batch: the files in input order, one awaited upload at a time. */
  function UploadBatch(s: Snapshot, files: seq<string>, attempts: seq<UploadAttempt>): (r: (Snapshot, seq<FileStep>))
    requires |attempts| == |files|
    ensures |r.1| == |files|
    decreases |files|
  {
    if files == [] then (s, [])
    else
      var n := |files| - 1;
      var (mid, steps) := UploadBatch(s, files[..n], attempts[..n]);
      var (next, step) := UploadOne(mid, files[n], attempts[n]);
      (next, steps + [step])
  }

  function StepName(step: FileStep): string {
    match step
    case Rejected(name) => name
    case Attempted(name, _, _) => name
  }

  /** The names of the accepted files of a batch. */
  function AcceptedNames(files: seq<string>): set<string> {
    set i | 0 <= i < |files| && ClientAccepts(files[i]) :: files[i]
  }

  /**
   * One step per file, in input order; a file is attempted (an upload request
   * is sent for it) exactly when its extension is allowed, so a rejected file
   * neither gets a request nor stops the files after it; while an accepted
   * file's upload is awaited its name is in the uploading set.
   */
  lemma {:induction false} BatchSteps(s: Snapshot, files: seq<string>, attempts: seq<UploadAttempt>)
    requires |attempts| == |files|
    ensures var steps := UploadBatch(s, files, attempts).1;
      && |steps| == |files|
      && (forall i :: 0 <= i < |files| ==> StepName(steps[i]) == files[i])
      && (forall i :: 0 <= i < |files| ==> (steps[i].Attempted? <==> ClientAccepts(files[i])))
      && (forall i :: 0 <= i < |files| && steps[i].Attempted? ==> files[i] in steps[i].inFlight)
    decreases |files|
  {
    if files != [] {
      var n := |files| - 1;
      BatchSteps(s, files[..n], attempts[..n]);
    }
  }

  /**
   * After a batch the uploading set is what it was with every accepted name
   * removed (the `finally` clause runs on success and failure alike); names
   * of other uploads are untouched.
   */
  lemma {:induction false} BatchClearsUploading(s: Snapshot, files: seq<string>, attempts: seq<UploadAttempt>)
    requires |attempts| == |files|
    ensures UploadBatch(s, files, attempts).0.uploading == s.uploading - AcceptedNames(files)
    decreases |files|
  {
    if files != [] {
      var n := |files| - 1;
      BatchClearsUploading(s, files[..n], attempts[..n]);
      var mid := UploadBatch(s, files[..n], attempts[..n]).0;
      assert UploadBatch(s, files, attempts).0 == UploadOne(mid, files[n], attempts[n]).0;
      AcceptedNamesLast(files);
    }
  }

  lemma AcceptedNamesLast(files: seq<string>)
    requires files != []
    ensures var n := |files| - 1;
      AcceptedNames(files) == AcceptedNames(files[..n]) + (if ClientAccepts(files[n]) then {files[n]} else {})
  {
    var n := |files| - 1;
    assert forall i :: 0 <= i < n ==> files[..n][i] == files[i];
  }

  /** The number of files of a batch whose upload succeeded. */
  function UploadedCount(steps: seq<FileStep>): nat {
    if steps == [] then 0
    else UploadedCount(steps[..|steps| - 1]) + (if steps[|steps| - 1].Attempted? && steps[|steps| - 1].uploaded then 1 else 0)
  }

  /**
   * `onDocumentChange` is called once per successful upload, and the cached
   * list is either untouched or is exactly one list fetched after a
   * successful upload (never patched or merged).
   */
  lemma {:induction false} BatchDocuments(s: Snapshot, files: seq<string>, attempts: seq<UploadAttempt>)
    requires |attempts| == |files|
    ensures var (s', steps) := UploadBatch(s, files, attempts);
      && s'.changes == s.changes + UploadedCount(steps)
      && (s'.documents == s.documents
          || exists i :: 0 <= i < |files| && steps[i].Attempted? && steps[i].uploaded
                         && Api.ListDocuments(attempts[i].refetch).result == Success(s'.documents))
    decreases |files|
  {
    if files != [] {
      var n := |files| - 1;
      BatchDocuments(s, files[..n], attempts[..n]);
      BatchSteps(s, files[..n], attempts[..n]);
      var (mid, steps) := UploadBatch(s, files[..n], attempts[..n]);
      var (s', all) := UploadBatch(s, files, attempts);
      assert all[..n] == steps;
      if s'.documents != mid.documents {
        assert all[n].Attempted? && all[n].uploaded;
        assert Api.ListDocuments(attempts[n].refetch).result == Success(s'.documents);
      } else if mid.documents != s.documents {
        var i :| 0 <= i < n && steps[i].Attempted? && steps[i].uploaded
                 && Api.ListDocuments(attempts[..n][i].refetch).result == Success(mid.documents);
        assert all[i] == steps[i];
      }
    }
  }

  class DocumentManager {
    var documents: seq<Doc>
    var uploading: set<string>
    var searchTerm: string
    /** How many times `onDocumentChange` has been called. */
    var changes: nat

    function Snap(): Snapshot
      reads this
    {
      Snapshot(documents, uploading, changes)
    }

    /** Mounting: empty state, then the mount effect's `fetchDocuments()`. */
    constructor (initialList: Api.Response<seq<Doc>>)
      ensures documents == Refetched([], initialList)
      ensures uploading == {} && searchTerm == "" && changes == 0
    {
      documents := Refetched([], initialList);
      uploading := {};
      searchTerm := "";
      changes := 0;
    }

    /** The list on screen. */
    function FilteredDocuments(): (r: seq<Doc>)
      reads this
      ensures IsSubsequence(r, documents)
    {
      FilteredIsSubsequence(documents, searchTerm);
      Filtered(documents, searchTerm)
    }

    method SetSearchTerm(term: string)
      modifies this`searchTerm
      ensures searchTerm == term
    {
      searchTerm := term;
    }

    /** `fetchDocuments`: replace the cache with the fetched list, or keep it when the fetch throws. */
    method FetchDocuments(response: Api.Response<seq<Doc>>) returns (ok: bool)
      modifies this`documents
      ensures ok == Api.ListDocuments(response).result.Success?
      ensures documents == Refetched(old(documents), response)
      ensures ok ==> documents == Api.ListDocuments(response).result.value
    {
      var call := Api.ListDocuments(response);
      ok := call.result.Success?;
      if ok {
        documents := call.result.value;
      }
    }

    /** `uploadFiles`: the batch loop, each accepted file marked as uploading around its awaited upload. */
    method UploadFiles(files: seq<string>, attempts: seq<UploadAttempt>) returns (steps: seq<FileStep>)
      requires |attempts| == |files|
      modifies this`documents, this`uploading, this`changes
      ensures (Snap(), steps) == UploadBatch(old(Snap()), files, attempts)
    {
      steps := [];
      var i := 0;
      while i < |files|
        invariant 0 <= i <= |files|
        invariant (Snap(), steps) == UploadBatch(old(Snap()), files[..i], attempts[..i])
      {
        var name := files[i];
        ghost var expected := UploadOne(Snap(), name, attempts[i]);
        assert files[..i + 1][..i] == files[..i] && attempts[..i + 1][..i] == attempts[..i];
        assert UploadBatch(old(Snap()), files[..i + 1], attempts[..i + 1]) == (expected.0, steps + [expected.1]);
        if !ClientAccepts(name) {
          steps := steps + [Rejected(name)];
        } else {
          uploading := uploading + {name};
          var inFlight := uploading;
          var call := Api.UploadDocument(name, attempts[i].upload);
          var ok := call.result.Success?;
          if ok {
            var _ := FetchDocuments(attempts[i].refetch);
            changes := changes + 1;
          }
          uploading := uploading - {name};
          steps := steps + [Attempted(name, inFlight, ok)];
        }
        assert Snap() == expected.0;
        i := i + 1;
      }
      assert files[..i] == files && attempts[..i] == attempts;
    }

    /** `deleteDocument`: on success refetch and notify; on failure the cache is untouched. */
    method DeleteDocument(docId: string, deleteResponse: Api.Response<Api.DeleteResponse>, refetch: Api.Response<seq<Doc>>)
      returns (deleted: bool)
      modifies this`documents, this`changes
      ensures deleted == Api.DeleteDocument(docId, deleteResponse).result.Success?
      ensures docId == "" ==> !deleted
      ensures documents == if deleted then Refetched(old(documents), refetch) else old(documents)
      ensures changes == if deleted then old(changes) + 1 else old(changes)
    {
      var call := Api.DeleteDocument(docId, deleteResponse);
      deleted := call.result.Success?;
      if deleted {
        var _ := FetchDocuments(refetch);
        changes := changes + 1;
      }
    }
  }
}
