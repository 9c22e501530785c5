/** backend/api.py: the three request handlers of the FastAPI app and the
    MIME check they use. Each handler runs its guards before it touches the
    store; an `HTTPException` becomes `Rejected`, any other exception
    propagates as `Raised` (FastAPI answers it with a 500). */
module Api {
  import opened Text
  import opened Values
  import opened RagPipeline

  const AllowedExtensions: set<string> := {".txt", ".pdf", ".docx"}

  const OnlySupportedTypes := "Only .txt, .pdf, and .docx files are supported."
  const TextRequired := "Text is required."
  const QuestionRequired := "Question is required."
  const ModelDeprecatedDetail := "Groq model deprecated/unsupported. Update GROQ_MODEL_ID."
  const AuthFailedDetail := "Groq authentication failed: check GROQ_API_KEY."
  const SnippetLength := 400

  /** What a handler produces. */
  datatype Response<+T> = Ok(value: T) | Rejected(status: int, detail: string) | Raised(error: Exception)

  // ------------------------------------------------------- is_mime_allowed

  /** `is_mime_allowed(ext, mime_type)`: an absent MIME type is accepted;
      otherwise it must fit the extension. */
  function IsMimeAllowed(ext: string, mimeType: string): (ok: bool)
    ensures mimeType == "" ==> ok
    ensures mimeType != "" && ext !in AllowedExtensions ==> !ok
    ensures mimeType != "" && ext == ".txt" ==> (ok <==> StartsWith(Lower(mimeType), "text"))
    ensures mimeType != "" && ext == ".pdf" ==> (ok <==> Contains(Lower(mimeType), "pdf"))
    ensures mimeType != "" && ext == ".docx" ==>
              (ok <==> Contains(Lower(mimeType), "word") || Contains(Lower(mimeType), "officedocument")
                       || Contains(Lower(mimeType), "openxmlformats"))
  {
    if mimeType == "" then true
    else
      var mime := Lower(mimeType);
      if ext == ".pdf" then Contains(mime, "pdf")
      else if ext == ".txt" then StartsWith(mime, "text")
      else if ext == ".docx" then
        Contains(mime, "word") || Contains(mime, "officedocument") || Contains(mime, "openxmlformats")
      else false
  }

  /** The MIME type is compared case-insensitively. */
  lemma MimeIgnoresCase(ext: string, mimeType: string)
    ensures IsMimeAllowed(ext, Lower(mimeType)) == IsMimeAllowed(ext, mimeType)
  {
    LowerIdempotent(mimeType);
  }

  /** The usual MIME types of plain text and PDF are accepted for their own
      extension and not for the other one. */
  lemma UsualMimeTypes()
    ensures IsMimeAllowed(".txt", "text/plain")
    ensures IsMimeAllowed(".pdf", "application/pdf")
    ensures !IsMimeAllowed(".txt", "application/pdf")
  {
    var txt, pdf := "text/plain", "application/pdf";
    assert Lower(txt) == txt;
    assert Lower(pdf) == pdf;
    assert OccursAt(pdf, "pdf", 12);
    assert pdf[0] != "text"[0];
  }

  // ------------------------------------------------------------ upload_file

  /** `x or default` for an optional string. */
  function OrElse(o: Option<string>, default: string): string {
    if o.Some? && o.value != "" then o.value else default
  }

  /** `repr(s)` for a string without quotes or escapes in it. */
  function Repr(s: string): string {
    "'" + s + "'"
  }

  predicate IsHexDigit(c: char) {
    '0' <= c <= '9' || 'a' <= c <= 'f'
  }

  /** `uuid.uuid4().hex[:8]`. */
  predicate IsShortHex(h: string) {
    |h| == 8 && forall i :: 0 <= i < |h| ==> IsHexDigit(h[i])
  }

  /** The text of the `(root, ext)` tuple `os.path.splitext` gives for the
      base name of the upload. */
  function UploadStem(filename: Option<string>): string {
    var name := Basename(OrElse(filename, "upload"));
    var e := Extension(name);
    "(" + Repr(name[..|name| - |e|]) + ", " + Repr(e) + ")"
  }

  /** The path `upload_file` saves an upload under: the stem, an underscore,
      eight hex digits and the checked extension. */
  function SavedUploadPath(uploadDir: string, filename: Option<string>, hex: string, ext: string): string {
    PathJoin(uploadDir, UploadStem(filename) + "_" + hex + ext)
  }

  /** A name ending in a hex digit, with an allowed extension appended, has
      that extension. */
  lemma AllowedExtensionAfterHex(a: string, ext: string)
    requires |a| > 0 && IsHexDigit(a[|a| - 1])
    requires ext in AllowedExtensions
    ensures FileExtension(a + ext) == ext
  {
    assert ext == ".txt" || ext == ".pdf" || ext == ".docx";
    ExtensionOfSuffixed(a, ext);
    AllowedExtensionsAreLowerCase(ext);
  }

  lemma AllowedExtensionsAreLowerCase(ext: string)
    requires ext in AllowedExtensions
    ensures Lower(ext) == ext
  {
    assert ext == ".txt" || ext == ".pdf" || ext == ".docx";
  }

  /** A file saved under a name ending in a hex digit and an allowed
      extension has that extension, whatever directory and stem it has. */
  lemma SavedNameKeepsExtension(dir: string, stem: string, hex: string, ext: string)
    requires ext in AllowedExtensions && IsShortHex(hex)
    ensures FileExtension(PathJoin(dir, stem + "_" + hex + ext)) == ext
  {
    var b := stem + "_" + hex + ext;
    var path := PathJoin(dir, b);
    var a := path[..|path| - |b|] + stem + "_" + hex;
    assert path == a + ext;
    assert a[|a| - 1] == hex[7];
    AllowedExtensionAfterHex(a, ext);
  }

  /** A saved upload has the checked extension, so the loader dispatch
      accepts it whatever the original name was. */
  lemma SavedUploadKeepsExtension(uploadDir: string, filename: Option<string>, hex: string, ext: string)
    requires ext in AllowedExtensions && IsShortHex(hex)
    ensures FileExtension(SavedUploadPath(uploadDir, filename, hex, ext)) == ext
  {
    SavedNameKeepsExtension(uploadDir, UploadStem(filename), hex, ext);
  }

  /** The points a handler starts indexing from: a fresh upload first runs
      `reset_scope(scope)`, which builds its prefix from the scope as passed. */
  function StartingPoints(points: map<nat, Point>, clearScope: bool, scope: Json, matches: (string, string) -> bool): map<nat, Point> {
    if clearScope then Remaining(points, ResetFilterAsWritten(scope), matches) else points
  }

  /** For a truthy scope the handlers' reset is the defaulted one, so it
      clears exactly the scope that indexing and querying use. */
  lemma StartingPointsForTruthyScopes(points: map<nat, Point>, clearScope: bool, scope: Json, matches: (string, string) -> bool)
    requires Truthy(scope)
    ensures StartingPoints(points, clearScope, scope, matches)
            == (if clearScope then Remaining(points, ResetFilter(scope), matches) else points)
  {
    ResetAsWrittenAgreesOnlyForTruthyScopes(scope, DefaultSettings);
  }

  /** The tail both upload handlers share: `reset_scope(scope)` when asked
      for a fresh index, then `add_documents(path, scope)`. */
  method ResetAndIndex(store: Qdrant, clearScope: bool, path: string, scope: Json, lib: Externals)
    returns (r: Response<string>)
    requires store.Valid()
    modifies store
    ensures store.Valid() && store.collections == old(store.collections)
    ensures var start := StartingPoints(old(store.points), clearScope, scope, lib.matches);
            && !r.Rejected?
            && (r.Ok? <==> Indexable(path, lib))
            && (r.Raised? ==> r.error == IndexError(path, lib) && store.points == start)
            && (r.Ok? ==> exists ids :: Indexed(start, store.points, path, scope, lib, ids, r.value))
  {
    ghost var start := StartingPoints(store.points, clearScope, scope, lib.matches);
    if clearScope {
      store.ResetScopeAsWritten(scope, lib.matches);
    }
    assert store.points == start;
    var added, ids := store.AddDocuments(path, scope, lib);
    if added.Failure? {
      return Raised(added.error);
    }
    assert Indexed(start, store.points, path, scope, lib, ids, added.value);
    r := Ok(added.value);
  }

  /** `upload_file(file, scope, fresh)`, with the uploaded bytes left out:
      `lib.loaders` says what the saved file loads as. */
  method UploadFile(store: Qdrant, filename: Option<string>, contentType: Option<string>, scope: string, clearScope: bool,
                    uploadDir: string, hex: string, lib: Externals)
    returns (r: Response<string>)
    requires store.Valid() && IsShortHex(hex)
    modifies store
    ensures store.Valid() && store.collections == old(store.collections)
    ensures var ext := FileExtension(OrElse(filename, ""));
            ext !in AllowedExtensions ==>
              r == Rejected(400, OnlySupportedTypes) && store.points == old(store.points)
    ensures var ext, mime := FileExtension(OrElse(filename, "")), Lower(OrElse(contentType, ""));
            ext in AllowedExtensions && !IsMimeAllowed(ext, mime) ==>
              && r == Rejected(400, "Invalid MIME " + Repr(mime) + " for extension " + ext + ".")
              && store.points == old(store.points)
    ensures var ext, mime := FileExtension(OrElse(filename, "")), Lower(OrElse(contentType, ""));
            ext in AllowedExtensions && IsMimeAllowed(ext, mime) ==>
              var path := SavedUploadPath(uploadDir, filename, hex, ext);
              var start := StartingPoints(old(store.points), clearScope, JStr(scope), lib.matches);
              && FileExtension(path) == ext
              && !r.Rejected?
              && (r.Ok? <==> Indexable(path, lib))
              && (r.Raised? ==> r.error == IndexError(path, lib) && store.points == start)
              && (r.Ok? ==> exists ids :: Indexed(start, store.points, path, JStr(scope), lib, ids, r.value))
  {
    var ext := FileExtension(OrElse(filename, ""));
    var mime := Lower(OrElse(contentType, ""));
    if ext !in AllowedExtensions {
      return Rejected(400, OnlySupportedTypes);
    }
    if !IsMimeAllowed(ext, mime) {
      return Rejected(400, "Invalid MIME " + Repr(mime) + " for extension " + ext + ".");
    }
    var path := SavedUploadPath(uploadDir, filename, hex, ext);
    SavedUploadKeepsExtension(uploadDir, filename, hex, ext);
    r := ResetAndIndex(store, clearScope, path, JStr(scope), lib);
  }

  // ------------------------------------------------------------ upload_text

  /** The name Python gives a JSON value's type. */
  function TypeName(j: Json): string {
    match j
    case JNull => "NoneType"
    case JBool(_) => "bool"
    case JInt(_) => "int"
    case JStr(_) => "str"
  }

  /** Where `upload_text` writes the pasted text. */
  function PastedTextPath(uploadDir: string, hex: string): string {
    PathJoin(uploadDir, "pasted_" + hex + ".txt")
  }

  /** The pasted text is saved under a `.txt` name, so it loads as text. */
  lemma PastedTextIsText(uploadDir: string, hex: string)
    requires IsShortHex(hex)
    ensures FileExtension(PastedTextPath(uploadDir, hex)) == ".txt"
  {
    assert "pasted" + "_" + hex + ".txt" == "pasted_" + hex + ".txt";
    SavedNameKeepsExtension(uploadDir, "pasted", hex, ".txt");
  }

  /** `upload_text(body)`, with the file write left out: `lib.loaders.text`
      says what the written file loads as. */
  method UploadText(store: Qdrant, body: map<string, Json>, uploadDir: string, hex: string, lib: Externals)
    returns (r: Response<string>)
    requires store.Valid() && IsShortHex(hex)
    modifies store
    ensures store.Valid() && store.collections == old(store.collections)
    ensures var text := Field(body, "text", JStr(""));
            !text.JStr? ==>
              && r == Raised(AttributeError("'" + TypeName(text) + "' object has no attribute 'strip'"))
              && store.points == old(store.points)
    ensures var text := Field(body, "text", JStr(""));
            text.JStr? && Blank(text.s) ==> r == Rejected(400, TextRequired) && store.points == old(store.points)
    ensures var text := Field(body, "text", JStr(""));
            text.JStr? && !Blank(text.s) ==>
              var scope := Field(body, "scope", JStr("default"));
              var path := PastedTextPath(uploadDir, hex);
              var start := StartingPoints(old(store.points), Truthy(Field(body, "fresh", JBool(false))), scope, lib.matches);
              && FileExtension(path) == ".txt"
              && !r.Rejected?
              && (r.Ok? <==> Indexable(path, lib))
              && (r.Raised? ==> r.error == IndexError(path, lib) && store.points == start)
              && (r.Ok? ==> exists ids :: Indexed(start, store.points, path, scope, lib, ids, r.value))
  {
    var text := Field(body, "text", JStr(""));
    var scope := Field(body, "scope", JStr("default"));
    var clearScope := Truthy(Field(body, "fresh", JBool(false)));
    if !text.JStr? {
      return Raised(AttributeError("'" + TypeName(text) + "' object has no attribute 'strip'"));
    }
    StripEmptyIffBlank(text.s);
    if Strip(text.s) == "" {
      return Rejected(400, TextRequired);
    }
    var path := PastedTextPath(uploadDir, hex);
    PastedTextIsText(uploadDir, hex);
    r := ResetAndIndex(store, clearScope, path, scope, lib);
  }

  // -------------------------------------------------------------- query_rag

  /** A retrieved LangChain document, either of whose fields may be unset. */
  datatype SourceDoc = SourceDoc(pageContent: Option<string>, metadata: Option<map<string, Value>>)

  /** What `qa.invoke({"query": question})` does: raise with a message, or
      return a dictionary whose "result" and "source_documents" may be absent. */
  datatype InvokeOutcome =
    | Raises(message: string)
    | Returns(result: Option<string>, sourceDocuments: Option<seq<SourceDoc>>)

  datatype Citation = Citation(marker: string, source: Value, section: Value, chunkId: Value,
                               position: Value, snippet: string)

  datatype QueryResponse = QueryResponse(answer: string, citations: seq<Citation>, latencyMs: int)

  datatype UpstreamKind = ModelDeprecated | AuthFailed | Unrecognised

  predicate IsDeprecationMessage(msg: string) {
    Contains(msg, "decommissioned") || (Contains(msg, "model") && Contains(msg, "supported"))
  }

  predicate IsAuthMessage(msg: string) {
    Contains(msg, "Invalid API Key") || Contains(msg, "401")
  }

  /** How `query_rag` reads the message of an exception from the chain:
      deprecation markers are tested first. */
  function ClassifyUpstream(msg: string): (k: UpstreamKind)
    ensures k == ModelDeprecated <==> IsDeprecationMessage(msg)
    ensures k == AuthFailed <==> !IsDeprecationMessage(msg) && IsAuthMessage(msg)
  {
    if IsDeprecationMessage(msg) then ModelDeprecated
    else if IsAuthMessage(msg) then AuthFailed
    else Unrecognised
  }

  /** The classification looks for markers anywhere in the message: a
      provider message wrapped in more text is still recognised. */
  lemma ClassifyInContext(msg: string, before: string, after: string)
    ensures ClassifyUpstream(msg) == ModelDeprecated ==> ClassifyUpstream(before + msg + after) == ModelDeprecated
    ensures ClassifyUpstream(msg) != Unrecognised ==> ClassifyUpstream(before + msg + after) != Unrecognised
  {
    var t := before + msg + after;
    if Contains(msg, "decommissioned") { ContainsInContext(msg, "decommissioned", before, after); }
    if Contains(msg, "model") { ContainsInContext(msg, "model", before, after); }
    if Contains(msg, "supported") { ContainsInContext(msg, "supported", before, after); }
    if Contains(msg, "Invalid API Key") { ContainsInContext(msg, "Invalid API Key", before, after); }
    if Contains(msg, "401") { ContainsInContext(msg, "401", before, after); }
  }

  /** What the handler answers for an exception from the chain. */
  function UpstreamResponse(msg: string): (r: Response<QueryResponse>)
    ensures r.Rejected? <==> ClassifyUpstream(msg) != Unrecognised
    ensures IsDeprecationMessage(msg) ==> r == Rejected(400, ModelDeprecatedDetail)
    ensures !IsDeprecationMessage(msg) && IsAuthMessage(msg) ==> r == Rejected(400, AuthFailedDetail)
    ensures !IsDeprecationMessage(msg) && !IsAuthMessage(msg) ==> r == Raised(Upstream(msg))
  {
    match ClassifyUpstream(msg)
    case ModelDeprecated => Rejected(400, ModelDeprecatedDetail)
    case AuthFailed => Rejected(400, AuthFailedDetail)
    case Unrecognised => Raised(Upstream(msg))
  }

  /** The citation for the document at 1-based rank `idx`. */
  function CitationFor(d: SourceDoc, idx: nat): (c: Citation)
    ensures var content := d.pageContent.GetOr("");
            StartsWith(content, c.snippet) && |c.snippet| == Min(SnippetLength, |content|)
    ensures c.source == Get(d.metadata.GetOr(map[]), "source", Str("Unknown"))
    ensures c.source.Str? || "source" in d.metadata.GetOr(map[])
  {
    var meta := d.metadata.GetOr(map[]);
    Citation("[" + NatToString(idx) + "]", Get(meta, "source", Str("Unknown")), Get(meta, "section", Null),
             Get(meta, "chunk_id", Null), Get(meta, "position", Null),
             PySlice(d.pageContent.GetOr(""), 0, SnippetLength))
  }

  /** Citations of different ranks carry different markers, and the marker
      spells its rank. */
  lemma CitationMarkersDistinct(d1: SourceDoc, i1: nat, d2: SourceDoc, i2: nat)
    ensures CitationFor(d1, i1).marker == CitationFor(d2, i2).marker <==> i1 == i2
  {
    var m1, m2 := CitationFor(d1, i1).marker, CitationFor(d2, i2).marker;
    if m1 == m2 {
      assert m1[1..|m1| - 1] == NatToString(i1);
      assert m2[1..|m2| - 1] == NatToString(i2);
      NatToStringInjective(i1, i2);
    }
  }

  /** The loop of `query_rag` over the source documents. */
  method BuildCitations(docs: seq<SourceDoc>) returns (citations: seq<Citation>)
    ensures |citations| == |docs|
    ensures forall i :: 0 <= i < |docs| ==> citations[i] == CitationFor(docs[i], i + 1)
  {
    citations := [];
    var idx := 0;
    while idx < |docs|
      invariant 0 <= idx <= |docs| && |citations| == idx
      invariant forall i :: 0 <= i < idx ==> citations[i] == CitationFor(docs[i], i + 1)
    {
      var d := docs[idx];
      var snippet := PySlice(d.pageContent.GetOr(""), 0, SnippetLength);
      var meta := d.metadata.GetOr(map[]);
      citations := citations + [Citation("[" + NatToString(idx + 1) + "]", Get(meta, "source", Str("Unknown")),
                                         Get(meta, "section", Null), Get(meta, "chunk_id", Null),
                                         Get(meta, "position", Null), snippet)];
      idx := idx + 1;
    }
  }

  /** `query_rag(body)`. The chain is built by `get_qa_chain`; what invoking
      it does, and the measured latency, are parameters. */
  method QueryRag(body: map<string, Json>, s: Settings, invoke: (QaChain, Json) -> InvokeOutcome, latencyMs: int)
    returns (r: Response<QueryResponse>)
    ensures var question := Field(body, "question", JNull);
            !Truthy(question) ==> r == Rejected(400, QuestionRequired)
    ensures var question := Field(body, "question", JNull);
            Truthy(question) && s.groqApiKey == "" ==> r == Rejected(400, NoApiKey)
    ensures var question, scope := Field(body, "question", JNull), Field(body, "scope", JStr("default"));
            Truthy(question) && s.groqApiKey != "" ==>
              var chain := GetQaChain(scope, s);
              && chain.Success?
              && match invoke(chain.value, question)
                 case Raises(msg) => r == UpstreamResponse(msg)
                 case Returns(result, sourceDocs) =>
                   var docs := sourceDocs.GetOr([]);
                   && r.Ok?
                   && r.value.answer == result.GetOr("")
                   && r.value.latencyMs == latencyMs
                   && |r.value.citations| == |docs|
                   && forall i :: 0 <= i < |docs| ==> r.value.citations[i] == CitationFor(docs[i], i + 1)
  {
    var question := Field(body, "question", JNull);
    var scope := Field(body, "scope", JStr("default"));
    if !Truthy(question) {
      return Rejected(400, QuestionRequired);
    }
    var qa := GetQaChain(scope, s);
    if qa.Failure? {
      return Rejected(400, qa.error.message);
    }
    var out := invoke(qa.value, question);
    match out
    case Raises(msg) =>
      r := UpstreamResponse(msg);
    case Returns(result, sourceDocs) =>
      var citations := BuildCitations(sourceDocs.GetOr([]));
      r := Ok(QueryResponse(result.GetOr(""), citations, latencyMs));
  }

  /** The chain a query uses searches exactly the scope a defaulted reset
      clears and uploads index into. */
  lemma QueryUsesIndexedScope(body: map<string, Json>, s: Settings)
    requires s.groqApiKey != ""
    ensures var scope := Field(body, "scope", JStr("default"));
            && GetQaChain(scope, s).Success?
            && GetQaChain(scope, s).value.retriever.filter == ResetFilter(scope)
            && GetQaChain(scope, s).value.retriever.filter.text == ScopePrefix(ScopeOrDefault(scope))
  {
  }
}
