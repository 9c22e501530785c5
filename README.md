# Mini RAG backend in Dafny

This project models the core of a small retrieval-augmented question-answering
backend, written in Python with FastAPI, LangChain, an embedded Qdrant store
and a chat model hosted by Groq. It covers three parts:

- `backend/utils.py`. `clean_text` collapses every whitespace run to one
  space and strips the ends. `chunk_text` cuts the words of a text into
  overlapping windows.
- `backend/rag_pipeline.py`. This part loads a file by its extension and
  splits the documents into chunks. It tags each chunk with a key
  `scope:basename:index`, a section and a position, and upserts one point
  per chunk under a fresh id. It also creates the collection if it is
  missing, clears a scope by a filter on the chunk key, and builds the
  retriever and the question-answering chain for a scope.
- `backend/api.py`. This part covers the MIME check and the guards of the
  three handlers (`/upload`, `/upload_text`, `/query`). It also covers how
  `/query` classifies exceptions from the chain and how it builds the
  citation list.

The modules follow the program:

- `Text` holds the Python string and `os.path` built-ins the code relies on.
- `Values` holds Python values, truthiness, `str()` and `dict.get` /
  `setdefault`.
- `Utils` models `backend/utils.py`.
- `RagPipeline` models `backend/rag_pipeline.py`.
- `Api` models `backend/api.py`.

The Qdrant client and the vector store become one class, `Qdrant`. It holds
the collection table and the points of the configured collection. A counter
`nextUuid` stands for `uuid.uuid4()`. Every id below the counter has been
handed out, so the counter's value is always fresh.

Code outside the core is passed in as parameters:

- the document loaders;
- the text splitter's `split_text`;
- the embedder;
- what a `MatchText` condition accepts;
- what invoking the chain does;
- the measured latency.

Settings are a value whose defaults are those of `backend/config.py`.

Loops in the source become methods with loop invariants, each proved against
a specification function:

- `TagChunksLoop` against `TagChunks`;
- `ChunkText` against `Window`;
- `BuildCitations` against `CitationFor`;
- `SetSources`, the loop of `LoadDocument`, against `WithSources`.

The upload handlers model the source as written: with `fresh` they call
`reset_scope(scope)`, which builds its prefix from the scope exactly as
passed. The defaulted reset is modelled beside it. "## Findings" below
explains the difference.

## Model

| member | source | states |
|---|---|---|
| Utils.CleanText | backend/utils.py:5-6 | the result is normalized: it neither starts nor ends with whitespace, no two neighbouring characters are both whitespace, and every whitespace character is a plain space |
| Utils.CollapseFrom | backend/utils.py:6 | the `re.sub` step leaves only single plain spaces, and starts a word exactly when its input does |
| Utils.CleanTextKeepsWords | backend/utils.py:5-6 | cleaning keeps the words: `clean_text(t).split() == t.split()` |
| Utils.CleanTextFixedPoints | backend/utils.py:5-6 | `clean_text` leaves a string unchanged if and only if the string is already normalized |
| Utils.CleanTextIdempotent | backend/utils.py:5-6 | cleaning twice gives the same result as cleaning once |
| Utils.ChunkText | backend/utils.py:8-17 | the loop returns ceil(words / step) chunks with step = max(1, chunk_size - overlap); chunk j is the words `j*step .. j*step+chunk_size` joined by single spaces; there are no chunks exactly when the text has no words |
| Utils.WindowShape | backend/utils.py:12-14 | with chunk_size >= 1, each window starts inside the word list and is a contiguous run of 1 to chunk_size words |
| Utils.ChunkIsWindow | backend/utils.py:13-15 | each chunk is non-empty, splitting it gives back its window, and it has at most chunk_size words |
| Utils.ChunksReassemble | backend/utils.py:8-17 | for 0 <= overlap < chunk_size, the first step words of every chunk but the last, followed by the whole last chunk, give back `text.split()` exactly |
| Values.SetDefault | backend/rag_pipeline.py:79-80 | `setdefault` adds the key with the default only when the key is absent, and keeps every other entry |
| Text.StripEmptyIffBlank | backend/api.py:85 | `text.strip()` is empty exactly when the text is entirely whitespace |
| Text.BasenameAfterLastSeparator | backend/rag_pipeline.py:91 | `os.path.basename` returns what follows the last `/` |
| Text.NatToStringInjective | backend/rag_pipeline.py:92 | different indices print as different digit strings |
| RagPipeline.DistanceFor | backend/rag_pipeline.py:34-38 | the lower-cased name "dot" gives DOT and "euclid" gives EUCLID; every other name, "cosine" or unknown, gives COSINE |
| RagPipeline.DistanceIgnoresCase | backend/rag_pipeline.py:38 | the metric does not depend on the letter case of the configured name |
| RagPipeline.EnsuredCollections | backend/rag_pipeline.py:39-44 | an existing collection is left as it is; a missing one is added with the given vector size and metric; no other collection changes |
| RagPipeline.EnsureCollectionIdempotent | backend/rag_pipeline.py:39-44 | a second call, with any parameters, leaves the table as the first call left it |
| RagPipeline.Qdrant.EnsureCollection | backend/rag_pipeline.py:33-44 | the collection table becomes the create-if-absent table for the configured name, size and metric; the points and the id counter are unchanged |
| RagPipeline.WithSources | backend/rag_pipeline.py:79-80 | there is one document per loaded document, with the same text; its metadata has "source" set to the path unless the loader had already set it |
| RagPipeline.SetSources | backend/rag_pipeline.py:79-80 | the loop gives exactly `WithSources` of the loaded documents |
| RagPipeline.WithSourcesNameSources | backend/rag_pipeline.py:79-80 | after the loop every document has a "source" entry |
| RagPipeline.LoadDocument | backend/rag_pipeline.py:59-81 | succeeds exactly when the lower-cased extension is .txt, .pdf or .docx, and otherwise fails with "Unsupported file type: <ext>"; on success the result is the chosen loader's documents with "source" defaulted, so every document has a "source"; a .docx gives one document, sourced at the path, holding the extracted text |
| RagPipeline.DocxKeepsItsSource | backend/rag_pipeline.py:74-80 | the defaulting loop leaves the `.docx` document unchanged, because its metadata already names its source |
| RagPipeline.SplitDocuments | backend/rag_pipeline.py:88 | every chunk is one of the pieces of some document's text and carries that document's metadata |
| RagPipeline.SplitDocumentsAppend | backend/rag_pipeline.py:88 | documents are split one after another, in order: the chunks of `a + b` are the chunks of `a` followed by those of `b` |
| RagPipeline.SplitOneDocument | backend/rag_pipeline.py:88 | a single document gives its pieces, in order, each with the document's metadata |
| RagPipeline.TagChunkWrites | backend/rag_pipeline.py:91-95 | tagging keeps the text and every other metadata entry; it writes the key `scope:basename(source):i` and the position i, sets the section (the existing value, else the page, else None), and adds exactly these three keys |
| RagPipeline.TaggedChunkKey | backend/rag_pipeline.py:90-95 | the i-th tagged chunk has position i and the key of index i, which starts with `scope:` |
| RagPipeline.TaggedChunkKeysDistinct | backend/rag_pipeline.py:90-93 | the chunks of one upsert have pairwise distinct keys, whatever the scope and the file names contain |
| RagPipeline.ChunkIdDeterminesIndex | backend/rag_pipeline.py:92 | two equal chunk keys have the same index, because the digits after the last ':' are the index |
| RagPipeline.ChunkIdHasScopePrefix | backend/rag_pipeline.py:92 | a chunk key starts with its scope followed by ':' |
| RagPipeline.Qdrant.TagChunksLoop | backend/rag_pipeline.py:88-96 | the loop succeeds exactly when every chunk's "source" is a string, and otherwise raises basename's TypeError; on success the chunks are tagged as `TagChunks` says, there is one id per chunk, and the ids are fresh and pairwise distinct; the points are unchanged |
| RagPipeline.WithPointsAdds | backend/rag_pipeline.py:97 | adding under fresh, distinct ids keeps every old point and adds exactly one point per chunk, under that chunk's id |
| RagPipeline.Qdrant.StorePoints | backend/rag_pipeline.py:97 | the store afterwards holds the old points plus one point per chunk under its id, and the id invariant still holds |
| RagPipeline.Qdrant.UpsertDocuments | backend/rag_pipeline.py:83-98 | succeeds exactly when every chunk's source is a string; then it returns the chunk count and adds one point per tagged chunk under fresh ids; on failure it raises TypeError and the points are unchanged |
| RagPipeline.ScopeOrDefault | backend/rag_pipeline.py:122 | `scope or "default"` is never empty, and it is "default" for every falsy scope |
| RagPipeline.ResetFilter | backend/rag_pipeline.py:105-113 | the filter is on "metadata.chunk_id", and its text prefixes every key that indexing writes under the defaulted scope |
| RagPipeline.Remaining | backend/rag_pipeline.py:106-116 | a filtered delete keeps exactly the points the filter does not select, unchanged |
| RagPipeline.Candidates | backend/rag_pipeline.py:137-140 | a filtered search considers exactly the points the filter selects |
| RagPipeline.Qdrant.ResetScopeAsWritten | backend/rag_pipeline.py:100-116 | the delete as written builds its prefix from the raw scope |
| RagPipeline.Qdrant.ResetScope | backend/rag_pipeline.py:100-116 | the delete with the scope defaulted: the points become those the defaulted filter does not select; collections and the id counter are unchanged |
| RagPipeline.IndexError | backend/rag_pipeline.py:118-122 | the exception for a call that does not return is a ValueError or basename's TypeError, and for a supported type it is "No text extracted from document." or the TypeError |
| RagPipeline.Qdrant.AddDocuments | backend/rag_pipeline.py:118-123 | the call succeeds exactly when the type is supported, the loader returns some document and every chunk's source is a string; otherwise it raises, in that order of checks, "Unsupported file type: <ext>", "No text extracted from document." or basename's TypeError, and leaves the points unchanged; success indexes the split and tagged chunks under `scope or "default"` and reports their count, the file's base name and the raw scope |
| RagPipeline.GetRetrieverWithReranker | backend/rag_pipeline.py:125-148 | the filter has "metadata.chunk_id" prefixed by `str(scope):`; k and top_n come from the settings; the reranker model is never empty and is the configured one when that is set |
| RagPipeline.GetQaChain | backend/rag_pipeline.py:150-163 | fails with "GROQ_API_KEY is not set in .env" exactly when the key is empty; otherwise the chain uses the retriever for `scope or "default"` and the configured model, and returns its source documents |
| RagPipeline.ResetAsWrittenAgreesOnlyForTruthyScopes | backend/rag_pipeline.py:100-151 | the as-written reset filter equals the query's filter for the same scope if and only if the scope is truthy |
| RagPipeline.ResetAsWrittenKeepsDefaultChunks | backend/rag_pipeline.py:100-123 | for any reading of `MatchText` between a prefix test and a substring test, a chunk indexed under scope null (as "default") survives the as-written reset for null, whose prefix is "None:", and the query for null still finds it |
| RagPipeline.ResetAsWrittenEmptyScopeClearsOtherScopes | backend/rag_pipeline.py:100-116 | under a substring reading of `MatchText`, the as-written reset for scope "" (prefix ":") deletes a chunk of another scope |
| RagPipeline.ResetMatchesQuery | backend/rag_pipeline.py:100-151 | the defaulted reset uses the query's filter, so after it no point is a candidate for that scope's query |
| Api.IsMimeAllowed | backend/api.py:17-27 | an empty MIME type is accepted; a non-empty one is rejected for any other extension; after lower-casing, for .txt it must start with "text", for .pdf it must contain "pdf", and for .docx it must contain "word", "officedocument" or "openxmlformats" |
| Api.MimeIgnoresCase | backend/api.py:20 | the check does not depend on the letter case of the MIME type |
| Api.UsualMimeTypes | backend/api.py:17-27 | text/plain is accepted for .txt and application/pdf for .pdf; application/pdf is rejected for .txt |
| Api.AllowedExtensionsAreLowerCase | backend/api.py:15 | every allowed extension is already lower case |
| Api.AllowedExtensionAfterHex | backend/api.py:58 | a name ending in a hex digit followed by an allowed extension has that extension |
| Api.SavedNameKeepsExtension | backend/api.py:58-59 | a saved name `<stem>_<hex><ext>` joined to any directory has extension ext |
| Api.SavedUploadKeepsExtension | backend/api.py:57-59 | the saved upload path has the checked extension, whatever the original file name was, so the loader dispatch accepts it |
| Api.PastedTextIsText | backend/api.py:91-92 | pasted text is saved under a `.txt` name |
| Api.StartingPointsForTruthyScopes | backend/api.py:71-72 | for a truthy scope the handlers' reset as written clears the same points as the defaulted reset |
| Api.ResetAndIndex | backend/api.py:71-74 | after `reset_scope(scope)` as written (if fresh), the handler never answers 400 here; it succeeds exactly when `add_documents` returns; an exception is the one `add_documents` raises and leaves the store as the reset left it; success means the chunks were indexed into the reset store |
| Api.UploadFile | backend/api.py:43-74 | a disallowed extension gives 400 "Only .txt, .pdf, and .docx files are supported."; a MIME type that does not fit gives 400 "Invalid MIME '<mime>' for extension <ext>."; both leave the store untouched; otherwise the as-written reset (if fresh) and the indexing run as `ResetAndIndex` states, on a path with the checked extension, and the upload succeeds exactly when `add_documents` returns for that path |
| Api.UploadText | backend/api.py:76-96 | text that is not a string raises AttributeError for `strip`; blank text gives 400 "Text is required."; both leave the store untouched; otherwise the as-written reset (if fresh) and the indexing run on a `.txt` path, and the call succeeds exactly when `add_documents` returns for that path |
| Api.ClassifyUpstream | backend/api.py:119-124 | a message containing "decommissioned", or both "model" and "supported", means a deprecated model; otherwise "Invalid API Key" or "401" means an authentication failure |
| Api.ClassifyInContext | backend/api.py:120-123 | a recognised message stays recognised inside any surrounding text, and a deprecation stays a deprecation |
| Api.UpstreamResponse | backend/api.py:118-124 | a deprecation gives 400 "Groq model deprecated/unsupported. Update GROQ_MODEL_ID."; otherwise an authentication failure gives 400 "Groq authentication failed: check GROQ_API_KEY."; any other message propagates unchanged |
| Api.CitationFor | backend/api.py:130-139 | the snippet is the first min(400, len) characters of the text; the source is the metadata's "source", else "Unknown" |
| Api.CitationMarkersDistinct | backend/api.py:134 | two citations have the same marker if and only if they have the same rank |
| Api.BuildCitations | backend/api.py:128-140 | the loop gives one citation per source document, in order; citation i is the citation for document i at rank i+1 |
| Api.QueryRag | backend/api.py:98-146 | a falsy question gives 400 "Question is required."; a missing API key gives 400 with its message; an exception from the chain is answered as `UpstreamResponse` says; otherwise the answer is "result" (default ""), with the latency and one citation per source document in rank order |
| Api.QueryUsesIndexedScope | backend/api.py:105-111 | the query searches under `scope or "default"`, which is exactly the prefix that uploads index into and that the defaulted reset clears |

## Left out

- File contents and bytes. The upload is not streamed, and `TextLoader`, `PyPDFLoader` and `docx2txt` are not modelled; what they return is the `loaders` parameter. The pasted text is never written to disk.
- The loaders' and the writer's own exceptions (missing `pypdf`, decoding errors, I/O errors) are not modelled.
- Embeddings, the text splitter's algorithm, the cross-encoder reranking and the Groq model are external libraries. They are parameters (`split`, `embed`, `invoke`), or they are recorded only as settings in `Retriever` and `QaChain`.
- Qdrant's `MatchText` semantics (full-text tokenizing) is the `matches` parameter. The lemmas about the reset hold for every choice of it. The counterexample for scope null holds for every reading between a prefix test and a substring test; the one for scope "" uses a substring test.
- The vector size is not checked against the collection's dimension, and the payload layout beyond text and metadata is not modelled.
- FastAPI routing, request parsing of `UploadFile`, the CORS middleware and the `/` route are not modelled. Query parameters and JSON bodies are given as values.
- Floating-point, list and object JSON values are not modelled in request bodies.
- The measured latency (`time.time()`) is the `latencyMs` parameter.
- Reading the environment and `os.makedirs` in `backend/config.py` are not modelled; `Settings` holds the values.
- `frontend/streamlit_app.py` and `frontend/utils.py` are not part of this model.
- Documents are values: the source mutates the metadata of freshly loaded documents that nothing else refers to, so value semantics gives the same results.
- RagPipeline.Qdrant.TagChunksLoop: `uuid.uuid4()` is modelled as a counter. The fresh and distinct ids are the property relied on; collision-freedom of random UUIDs is assumed by the source too.
- Text.Lower: `str.lower()` is modelled on ASCII letters only.
- Api.UploadFile: the "Invalid MIME" message writes `repr(mime_type)` as the type between single quotes. Python switches to double quotes for a type containing `'`, and escapes backslashes and non-printable characters.
- RagPipeline.Qdrant.TagChunksLoop: basename's TypeError carries the message "expected str, bytes or os.PathLike object" without the ", not <type>" ending that Python appends.
- Api.UploadStem: `repr` of the `splitext` tuple is modelled as `('root', 'ext')`, without Python's escaping and quote choice for names containing quotes or backslashes.
- Api.QueryRag: a "result" entry that is present but `None` is not modelled; the answer is a string.
- Api.QueryRag: a `ValueError` raised by `get_retriever_with_reranker` itself (before the key check) is not modelled; only the missing-key error is.
- Api.UploadText: a request body that is not a JSON object is not modelled. `(body or {})` is treated as the body.

## Findings

| source | as written | input that shows it | evidently intended | confidence | as-written member | corrected member |
|---|---|---|---|---|---|---|
| backend/rag_pipeline.py:100-116 | `reset_scope` builds its prefix from the raw scope, while `add_documents` (line 122) and `get_qa_chain` (line 151) use `scope or "default"` | `/upload_text` with `{"text": "x", "scope": null, "fresh": true}` after an earlier upload with scope null: the chunks carry keys "default:…" but the delete looks for "None:", which is neither a prefix nor a substring of them, so the old chunks stay and the query still finds them. With scope "" the prefix is ":", which under a substring reading of `MatchText` deletes the chunks of every scope | reset the scope the chunks were indexed under, `f"{scope or 'default'}:"` | not executed | RagPipeline.Qdrant.ResetScopeAsWritten, RagPipeline.ResetAsWrittenAgreesOnlyForTruthyScopes, RagPipeline.ResetAsWrittenKeepsDefaultChunks, RagPipeline.ResetAsWrittenEmptyScopeClearsOtherScopes | RagPipeline.Qdrant.ResetScope, RagPipeline.ResetFilter, RagPipeline.ResetMatchesQuery |

The handlers `Api.ResetAndIndex`, `Api.UploadFile` and `Api.UploadText` model the code as written and call the as-written reset. `Api.StartingPointsForTruthyScopes` shows that for a truthy scope this is the corrected reset.
