/** backend/rag_pipeline.py: loader dispatch, chunk tagging and upsert into
    the embedded Qdrant collection, collection creation, scope reset and the
    construction of the retriever and the question-answering chain.

    The libraries are parameters: the document loaders, the text splitter's
    `split_text`, the embedder, and the semantics of Qdrant's `MatchText`
    condition (`matches(fieldValue, text)`). */
module RagPipeline {
  import opened Text
  import opened Values

  // ------------------------------------------------------------ data model

  /** A LangChain `Document`: page text and metadata dictionary. */
  datatype Document = Document(pageContent: string, metadata: map<string, Value>)

  type Vector = seq<real>

  /** A stored Qdrant point: vector and the payload QdrantVectorStore writes. */
  datatype Point = Point(vector: Vector, pageContent: string, metadata: map<string, Value>)

  datatype Distance = Cosine | Dot | Euclid

  datatype VectorParams = VectorParams(size: int, distance: Distance)

  /** What `TextLoader(p).load()`, `PyPDFLoader(p).load()` and
      `docx2txt.process(p)` return for a path. */
  datatype Loaders = Loaders(
    text: string -> seq<Document>,
    pdf: string -> seq<Document>,
    docx: string -> string)

  /** The library code the pipeline calls. */
  datatype Externals = Externals(
    loaders: Loaders,
    split: string -> seq<string>,            // RecursiveCharacterTextSplitter.split_text
    embed: string -> Vector,                 // HuggingFaceEmbeddings.embed_query
    matches: (string, string) -> bool)       // does MatchText(text) accept a field value

  /** The settings read from the environment (backend/config.py). */
  datatype Settings = Settings(
    collection: string,
    distance: string,
    embeddingDim: int,
    retrieveK: int,
    rerankTopN: int,
    rerankerModel: string,
    groqApiKey: string,
    groqModelId: string)

  /** The defaults of backend/config.py. */
  const DefaultSettings := Settings("mini_rag", "cosine", 384, 12, 4, "BAAI/bge-reranker-base",
                                    "", "llama-3.3-70b-versatile")

  const NoApiKey := "GROQ_API_KEY is not set in .env"
  const NoText := "No text extracted from document."
  const BasenameTypeError := "expected str, bytes or os.PathLike object"
  const FallbackReranker := "cross-encoder/ms-marco-MiniLM-L-6-v2"

  // ------------------------------------------------------ _ensure_collection

  /** The metric for a configured distance name; unknown names give cosine. */
  function DistanceFor(name: string): (d: Distance)
    ensures d == Dot <==> Lower(name) == "dot"
    ensures d == Euclid <==> Lower(name) == "euclid"
    ensures d == Cosine <==> Lower(name) != "dot" && Lower(name) != "euclid"
  {
    var n := Lower(name);
    if n == "cosine" then Cosine
    else if n == "dot" then Dot
    else if n == "euclid" then Euclid
    else Cosine
  }

  /** The name is matched case-insensitively. */
  lemma DistanceIgnoresCase(name: string)
    ensures DistanceFor(Lower(name)) == DistanceFor(name)
  {
    LowerIdempotent(name);
  }

  /** The collection table after create-if-absent. */
  function EnsuredCollections(c: map<string, VectorParams>, name: string, params: VectorParams): (r: map<string, VectorParams>)
    ensures name in r
    ensures name in c ==> r == c
    ensures name !in c ==> r[name] == params && r.Keys == c.Keys + {name}
    ensures forall n :: n in c ==> n in r && r[n] == c[n]
  {
    if name in c then c else c[name := params]
  }

  /** A second call, whatever its settings, leaves the table as the first left it. */
  lemma EnsureCollectionIdempotent(c: map<string, VectorParams>, name: string, p1: VectorParams, p2: VectorParams)
    ensures EnsuredCollections(EnsuredCollections(c, name, p1), name, p2) == EnsuredCollections(c, name, p1)
  {
  }

  // ---------------------------------------------------------- _load_document

  const SupportedExtensions: set<string> := {".txt", ".pdf", ".docx"}

  /** The lower-cased extension `_load_document` dispatches on. */
  function FileExtension(path: string): string {
    Lower(Extension(path))
  }

  /** What the loader chosen for a supported extension returns. */
  function LoaderOutput(ext: string, path: string, io: Loaders): seq<Document>
    requires ext in SupportedExtensions
  {
    if ext == ".txt" then io.text(path)
    else if ext == ".pdf" then io.pdf(path)
    else [Document(io.docx(path), map["source" := Str(path)])]
  }

  /** `raw` after `d.metadata.setdefault("source", path)` on each document. */
  function WithSources(raw: seq<Document>, path: string): (docs: seq<Document>)
    ensures |docs| == |raw|
    ensures forall i :: 0 <= i < |raw| ==> docs[i].pageContent == raw[i].pageContent
    ensures forall i :: 0 <= i < |raw| ==> docs[i].metadata == SetDefault(raw[i].metadata, "source", Str(path))
  {
    seq(|raw|, i requires 0 <= i < |raw| => raw[i].(metadata := SetDefault(raw[i].metadata, "source", Str(path))))
  }

  /** After the defaulting loop every document names a source. */
  lemma WithSourcesNameSources(raw: seq<Document>, path: string)
    ensures forall i :: 0 <= i < |raw| ==> "source" in WithSources(raw, path)[i].metadata
  {
  }

  /** A document that already names its source keeps it. */
  lemma DocxKeepsItsSource(text: string, path: string)
    ensures var d := Document(text, map["source" := Str(path)]);
            WithSources([d], path) == [d]
  {
    var d := Document(text, map["source" := Str(path)]);
    assert WithSources([d], path)[0] == d;
  }

  /** `_load_document(file_path)`. */
  method LoadDocument(path: string, io: Loaders) returns (r: Result<seq<Document>>)
    ensures r.Success? <==> FileExtension(path) in SupportedExtensions
    ensures r.Failure? ==> r.error == ValueError("Unsupported file type: " + FileExtension(path))
    ensures r.Success? ==> r.value == WithSources(LoaderOutput(FileExtension(path), path, io), path)
    ensures r.Success? ==> forall i :: 0 <= i < |r.value| ==> "source" in r.value[i].metadata
    ensures FileExtension(path) == ".docx" ==>
              r == Success([Document(io.docx(path), map["source" := Str(path)])])
  {
    var ext := FileExtension(path);
    var docs: seq<Document>;
    if ext == ".txt" {
      docs := io.text(path);
    } else if ext == ".pdf" {
      docs := io.pdf(path);
    } else if ext == ".docx" {
      var text := io.docx(path);
      docs := [Document(text, map["source" := Str(path)])];
    } else {
      return Failure(ValueError("Unsupported file type: " + ext));
    }
    assert docs == LoaderOutput(ext, path, io);
    ghost var raw := docs;
    docs := SetSources(docs, path);
    WithSourcesNameSources(raw, path);
    if ext == ".docx" {
      DocxKeepsItsSource(io.docx(path), path);
    }
    return Success(docs);
  }

  /** The loop of `_load_document`: `d.metadata.setdefault("source", path)`
      on each document in turn. */
  method SetSources(raw: seq<Document>, path: string) returns (docs: seq<Document>)
    ensures docs == WithSources(raw, path)
  {
    docs := raw;
    var i := 0;
    while i < |docs|
      invariant 0 <= i <= |docs| == |raw|
      invariant forall k :: 0 <= k < i ==>
                  docs[k] == raw[k].(metadata := SetDefault(raw[k].metadata, "source", Str(path)))
      invariant forall k :: i <= k < |docs| ==> docs[k] == raw[k]
    {
      docs := docs[i := docs[i].(metadata := SetDefault(docs[i].metadata, "source", Str(path)))];
      i := i + 1;
    }
  }

  // -------------------------------------------------------- _upsert_documents

  /** The chunk came from `d`: it is one of the pieces of `d`'s text and
      carries `d`'s metadata. */
  predicate PieceOf(c: Document, d: Document, split: string -> seq<string>) {
    c.metadata == d.metadata && c.pageContent in split(d.pageContent)
  }

  /** `splitter.split_documents(docs)`: each document's pieces, in order,
      each carrying a copy of its document's metadata. */
  function SplitDocuments(docs: seq<Document>, split: string -> seq<string>): (chunks: seq<Document>)
    ensures forall c :: c in chunks ==> exists d :: d in docs && PieceOf(c, d, split)
  {
    if |docs| == 0 then []
    else
      var pieces := split(docs[0].pageContent);
      var first := seq(|pieces|, k requires 0 <= k < |pieces| => Document(pieces[k], docs[0].metadata));
      assert forall c :: c in first ==> PieceOf(c, docs[0], split);
      var rest := SplitDocuments(docs[1..], split);
      assert forall c :: c in rest ==> exists d :: d in docs && PieceOf(c, d, split) by {
        forall c | c in rest ensures exists d :: d in docs && PieceOf(c, d, split) {
          var d :| d in docs[1..] && PieceOf(c, d, split);
          assert d in docs;
        }
      }
      first + rest
  }

  /** Splitting works document by document, in order: the chunks of `a + b`
      are the chunks of `a` followed by the chunks of `b`. */
  lemma {:induction false} SplitDocumentsAppend(a: seq<Document>, b: seq<Document>, split: string -> seq<string>)
    ensures SplitDocuments(a + b, split) == SplitDocuments(a, split) + SplitDocuments(b, split)
  {
    if |a| > 0 {
      assert (a + b)[1..] == a[1..] + b;
      assert (a + b)[0] == a[0];
      SplitDocumentsAppend(a[1..], b, split);
    } else {
      assert a + b == b;
    }
  }

  /** A single document splits into its pieces, each with its metadata. */
  lemma SplitOneDocument(d: Document, split: string -> seq<string>)
    ensures var cs := SplitDocuments([d], split);
            && |cs| == |split(d.pageContent)|
            && forall k :: 0 <= k < |cs| ==> cs[k] == Document(split(d.pageContent)[k], d.metadata)
  {
    assert SplitDocuments([d][1..], split) == [];
  }

  /** `d.metadata.get("source", "unknown")`. */
  function ChunkSource(d: Document): Value {
    Get(d.metadata, "source", Str("unknown"))
  }

  /** The prefix every chunk key of a scope starts with. */
  function ScopePrefix(scope: string): string {
    scope + ":"
  }

  /** `f"{scope}:{base}:{i}"`. */
  function ChunkId(scope: string, base: string, i: nat): string {
    ScopePrefix(scope) + base + ":" + NatToString(i)
  }

  /** The chunk at global index i with its metadata written. */
  function TagChunk(d: Document, scope: string, i: nat): Document
    requires ChunkSource(d).Str?
  {
    var base := Basename(ChunkSource(d).s);
    var m := d.metadata["chunk_id" := Str(ChunkId(scope, base, i))];
    var m := SetDefault(m, "section", Get(m, "page", Null));
    d.(metadata := m["position" := Int(i)])
  }

  /** Tagging adds the chunk key, the section (the existing one, else the
      page) and the position, and keeps the text and every other entry. */
  lemma TagChunkWrites(d: Document, scope: string, i: nat)
    requires ChunkSource(d).Str?
    ensures var r := TagChunk(d, scope, i);
            && r.pageContent == d.pageContent
            && r.metadata.Keys == d.metadata.Keys + {"chunk_id", "section", "position"}
            && r.metadata["chunk_id"] == Str(ChunkId(scope, Basename(ChunkSource(d).s), i))
            && r.metadata["position"] == Int(i)
            && ("section" in d.metadata ==> r.metadata["section"] == d.metadata["section"])
            && ("section" !in d.metadata ==> r.metadata["section"] == Get(d.metadata, "page", Null))
            && forall k :: k in d.metadata && k !in {"chunk_id", "section", "position"} ==>
                 r.metadata[k] == d.metadata[k]
  {
  }

  /** The chunks, tagged with their global indices. */
  function TagChunks(chunks: seq<Document>, scope: string): (r: seq<Document>)
    requires forall i :: 0 <= i < |chunks| ==> ChunkSource(chunks[i]).Str?
    ensures |r| == |chunks|
  {
    seq(|chunks|, i requires 0 <= i < |chunks| => TagChunk(chunks[i], scope, i))
  }

  /** Tagging one more chunk extends the tagged prefix by that chunk. */
  lemma TagChunksSnoc(chunks: seq<Document>, scope: string, i: nat)
    requires i < |chunks|
    requires forall k :: 0 <= k <= i ==> ChunkSource(chunks[k]).Str?
    ensures TagChunks(chunks[..i + 1], scope) == TagChunks(chunks[..i], scope) + [TagChunk(chunks[i], scope, i)]
  {
    var c1, c0 := chunks[..i + 1], chunks[..i];
    var a, b := TagChunks(c1, scope), TagChunks(c0, scope) + [TagChunk(chunks[i], scope, i)];
    assert |a| == |b|;
    forall k | 0 <= k < |a|
      ensures a[k] == b[k]
    {
      assert a[k] == TagChunk(c1[k], scope, k);
      if k < i {
        assert c1[k] == c0[k];
        assert b[k] == TagChunks(c0, scope)[k] == TagChunk(c0[k], scope, k);
      } else {
        assert c1[k] == chunks[i];
      }
    }
  }

  /** The payload QdrantVectorStore stores for a document. */
  function PointOf(d: Document, embed: string -> Vector): Point {
    Point(embed(d.pageContent), d.pageContent, d.metadata)
  }

  /** `after` is `before` plus one point per chunk, under pairwise distinct ids
      that were not in use. */
  ghost predicate AddedPoints(before: map<nat, Point>, after: map<nat, Point>, chunks: seq<Document>,
                              ids: seq<nat>, embed: string -> Vector) {
    && |ids| == |chunks|
    && (forall i :: 0 <= i < |ids| ==> ids[i] !in before)
    && (forall i, j :: 0 <= i < j < |ids| ==> ids[i] != ids[j])
    && after.Keys == before.Keys + (set i | 0 <= i < |ids| :: ids[i])
    && (forall id :: id in before ==> after[id] == before[id])
    && (forall i :: 0 <= i < |ids| ==> after[ids[i]] == PointOf(chunks[i], embed))
  }

  /** `vectorstore.add_documents(chunks, ids=ids)`: the point for each chunk
      stored under its id. */
  function WithPoints(before: map<nat, Point>, chunks: seq<Document>, ids: seq<nat>, embed: string -> Vector): map<nat, Point>
    requires |ids| == |chunks|
    decreases |ids|
  {
    if |ids| == 0 then before
    else
      var n := |ids| - 1;
      WithPoints(before, chunks[..n], ids[..n], embed)[ids[n] := PointOf(chunks[n], embed)]
  }

  lemma IdSetSnoc(ids: seq<nat>)
    requires |ids| > 0
    ensures var n := |ids| - 1;
            (set i | 0 <= i < |ids| :: ids[i]) == (set i | 0 <= i < n :: ids[..n][i]) + {ids[n]}
  {
    var n := |ids| - 1;
    assert forall i :: 0 <= i < n ==> ids[..n][i] == ids[i];
  }

  /** Adding under fresh, distinct ids keeps every old point and adds exactly
      one point per chunk. */
  lemma {:induction false} WithPointsAdds(before: map<nat, Point>, chunks: seq<Document>, ids: seq<nat>, embed: string -> Vector)
    requires |ids| == |chunks|
    requires forall i :: 0 <= i < |ids| ==> ids[i] !in before
    requires forall i, j :: 0 <= i < j < |ids| ==> ids[i] != ids[j]
    ensures AddedPoints(before, WithPoints(before, chunks, ids, embed), chunks, ids, embed)
    decreases |ids|
  {
    if |ids| > 0 {
      var n := |ids| - 1;
      var prev := WithPoints(before, chunks[..n], ids[..n], embed);
      WithPointsAdds(before, chunks[..n], ids[..n], embed);
      var after := WithPoints(before, chunks, ids, embed);
      assert after == prev[ids[n] := PointOf(chunks[n], embed)];
      IdSetSnoc(ids);
      forall i | 0 <= i < n
        ensures after[ids[i]] == PointOf(chunks[i], embed)
      {
        assert ids[i] != ids[n];
        assert prev[ids[..n][i]] == PointOf(chunks[..n][i], embed);
      }
    }
  }

  // ------------------------------------------------------------------ scopes

  /** `scope or "default"`: the scope chunks are indexed under and queried in. */
  function ScopeOrDefault(scope: Json): (s: string)
    ensures s != ""
    ensures !Truthy(scope) ==> s == "default"
  {
    if Truthy(scope) then PyStr(scope) else "default"
  }

  /** A Qdrant `FieldCondition(key, match=MatchText(text))`. */
  datatype Filter = MatchText(key: string, text: string)

  const ChunkIdKey := "metadata.chunk_id"

  /** The filter `reset_scope(scope)` builds, as written: from `f"{scope}:"`. */
  function ResetFilterAsWritten(scope: Json): Filter {
    MatchText(ChunkIdKey, ScopePrefix(PyStr(scope)))
  }

  /** The filter a reset should build: from the scope chunks are indexed under. */
  function ResetFilter(scope: Json): (f: Filter)
    ensures f.key == ChunkIdKey
    ensures forall base, i :: StartsWith(ChunkId(ScopeOrDefault(scope), base, i), f.text)
  {
    var f := MatchText(ChunkIdKey, ScopePrefix(ScopeOrDefault(scope)));
    assert forall base, i :: ChunkId(ScopeOrDefault(scope), base, i)[..|f.text|] == f.text;
    f
  }

  /** Does the filter select the point? */
  predicate Selects(f: Filter, p: Point, matches: (string, string) -> bool) {
    && f.key == ChunkIdKey
    && "chunk_id" in p.metadata
    && p.metadata["chunk_id"].Str?
    && matches(p.metadata["chunk_id"].s, f.text)
  }

  /** The points a filtered delete leaves. */
  function Remaining(points: map<nat, Point>, f: Filter, matches: (string, string) -> bool): (r: map<nat, Point>)
    ensures forall id :: id in r <==> id in points && !Selects(f, points[id], matches)
    ensures forall id :: id in r ==> r[id] == points[id]
  {
    map id | id in points && !Selects(f, points[id], matches) :: points[id]
  }

  /** The points a filtered search may return. */
  function Candidates(points: map<nat, Point>, f: Filter, matches: (string, string) -> bool): (r: set<nat>)
    ensures forall id :: id in r <==> id in points && Selects(f, points[id], matches)
  {
    set id | id in points && Selects(f, points[id], matches)
  }

  // --------------------------------------------------------------- the store

  /** The embedded Qdrant client: its collections and the points of the
      configured collection. `nextUuid` stands for `uuid.uuid4()`: every id
      below it has been handed out, so it is always fresh. */
  class Qdrant {
    var collections: map<string, VectorParams>
    var points: map<nat, Point>
    var nextUuid: nat

    ghost predicate Valid()
      reads this
    {
      forall id :: id in points ==> id < nextUuid
    }

    constructor (collections: map<string, VectorParams>, points: map<nat, Point>, nextUuid: nat)
      requires forall id :: id in points ==> id < nextUuid
      ensures Valid()
      ensures this.collections == collections && this.points == points && this.nextUuid == nextUuid
    {
      this.collections := collections;
      this.points := points;
      this.nextUuid := nextUuid;
    }

    /** `_ensure_collection()`. */
    method EnsureCollection(s: Settings)
      requires Valid()
      modifies this
      ensures Valid()
      ensures collections == EnsuredCollections(old(collections), s.collection,
                                                VectorParams(s.embeddingDim, DistanceFor(s.distance)))
      ensures points == old(points) && nextUuid == old(nextUuid)
    {
      var metric := DistanceFor(s.distance);
      if s.collection !in collections {
        collections := collections[s.collection := VectorParams(s.embeddingDim, metric)];
      }
    }

    /** `_upsert_documents(docs, scope)`: split, tag each chunk with its global
        index, and add one fresh point per chunk; returns the chunk count.
        `os.path.basename` raises for a source that is not a string. */
    method UpsertDocuments(docs: seq<Document>, scope: string, lib: Externals)
      returns (r: Result<nat>, ids: seq<nat>)
      requires Valid()
      modifies this
      ensures Valid() && collections == old(collections)
      ensures var chunks := SplitDocuments(docs, lib.split);
              r.Success? <==> forall i :: 0 <= i < |chunks| ==> ChunkSource(chunks[i]).Str?
      ensures r.Failure? ==> r.error == TypeError(BasenameTypeError) && points == old(points)
      ensures r.Success? ==>
                var chunks := SplitDocuments(docs, lib.split);
                && r.value == |chunks|
                && AddedPoints(old(points), points, TagChunks(chunks, scope), ids, lib.embed)
    {
      var chunks := SplitDocuments(docs, lib.split);
      var tagged;
      tagged, ids := TagChunksLoop(chunks, scope);
      if tagged.Failure? {
        assert chunks == SplitDocuments(docs, lib.split);
        return Failure(tagged.error), ids;
      }
      StorePoints(tagged.value, ids, lib.embed);
      r := Success(|chunks|);
    }

    /** The loop of `_upsert_documents`: tag chunk i with its key, section and
        position, and draw a fresh point id for it. */
    method TagChunksLoop(chunks: seq<Document>, scope: string)
      returns (r: Result<seq<Document>>, ids: seq<nat>)
      requires Valid()
      modifies this
      ensures Valid() && points == old(points) && collections == old(collections)
      ensures r.Success? <==> forall i :: 0 <= i < |chunks| ==> ChunkSource(chunks[i]).Str?
      ensures r.Failure? ==> r.error == TypeError(BasenameTypeError)
      ensures r.Success? ==>
                && r.value == TagChunks(chunks, scope)
                && |ids| == |chunks|
                && (forall i :: 0 <= i < |ids| ==> ids[i] !in points && ids[i] < nextUuid)
                && (forall i, j :: 0 <= i < j < |ids| ==> ids[i] != ids[j])
    {
      var tagged := [];
      ids := [];
      var i := 0;
      while i < |chunks|
        invariant Valid() && points == old(points) && collections == old(collections)
        invariant 0 <= i <= |chunks| && |tagged| == i && |ids| == i
        invariant nextUuid == old(nextUuid) + i
        invariant forall k :: 0 <= k < i ==> ChunkSource(chunks[k]).Str?
        invariant tagged == TagChunks(chunks[..i], scope)
        invariant forall k :: 0 <= k < i ==> ids[k] == old(nextUuid) + k
      {
        var source := Get(chunks[i].metadata, "source", Str("unknown"));
        if !source.Str? {
          return Failure(TypeError(BasenameTypeError)), ids;
        }
        TagChunksSnoc(chunks, scope, i);
        tagged := tagged + [TagChunk(chunks[i], scope, i)];
        ids := ids + [nextUuid];   // str(uuid.uuid4())
        nextUuid := nextUuid + 1;
        i := i + 1;
      }
      assert chunks[..i] == chunks;
      r := Success(tagged);
    }

    /** `vectorstore.add_documents(chunks, ids=ids)`. */
    method StorePoints(chunks: seq<Document>, ids: seq<nat>, embed: string -> Vector)
      requires Valid()
      requires |ids| == |chunks|
      requires forall i :: 0 <= i < |ids| ==> ids[i] !in points && ids[i] < nextUuid
      requires forall i, j :: 0 <= i < j < |ids| ==> ids[i] != ids[j]
      modifies this
      ensures Valid()
      ensures AddedPoints(old(points), points, chunks, ids, embed)
      ensures collections == old(collections) && nextUuid == old(nextUuid)
    {
      WithPointsAdds(points, chunks, ids, embed);
      points := WithPoints(points, chunks, ids, embed);
    }

    /** `reset_scope(scope)` as written: the prefix comes from the scope
        exactly as passed, without the `or "default"` the indexing applies. */
    method ResetScopeAsWritten(scope: Json, matches: (string, string) -> bool)
      requires Valid()
      modifies this
      ensures Valid()
      ensures points == Remaining(old(points), ResetFilterAsWritten(scope), matches)
      ensures collections == old(collections) && nextUuid == old(nextUuid)
    {
      points := Remaining(points, ResetFilterAsWritten(scope), matches);
    }

    /** `reset_scope(scope)` with the scope defaulted as `add_documents` and
        `get_qa_chain` default it. */
    method ResetScope(scope: Json, matches: (string, string) -> bool)
      requires Valid()
      modifies this
      ensures Valid()
      ensures points == Remaining(old(points), ResetFilter(scope), matches)
      ensures collections == old(collections) && nextUuid == old(nextUuid)
    {
      points := Remaining(points, ResetFilter(scope), matches);
    }

    /** `add_documents(file_path, scope)`. */
    method AddDocuments(path: string, scope: Json, lib: Externals)
      returns (r: Result<string>, ids: seq<nat>)
      requires Valid()
      modifies this
      ensures Valid() && collections == old(collections)
      ensures r.Success? <==> Indexable(path, lib)
      ensures r.Failure? ==> r.error == IndexError(path, lib) && points == old(points)
      ensures r.Success? ==> Indexed(old(points), points, path, scope, lib, ids, r.value)
    {
      ids := [];
      var loaded := LoadDocument(path, lib.loaders);
      if loaded.Failure? {
        return Failure(loaded.error), ids;
      }
      var docs := loaded.value;
      if |docs| == 0 {
        return Failure(ValueError(NoText)), ids;
      }
      assert docs == WithSources(LoaderOutput(FileExtension(path), path, lib.loaders), path);
      var added;
      added, ids := UpsertDocuments(docs, ScopeOrDefault(scope), lib);
      if added.Failure? {
        return Failure(added.error), ids;
      }
      r := Success(IndexedMessage(added.value, path, scope));
    }
  }

  /** The message `add_documents` returns. */
  function IndexedMessage(added: nat, path: string, scope: Json): string {
    "Indexed " + NatToString(added) + " chunks for " + Basename(path) + " in scope '" + PyStr(scope) + "'."
  }

  /** The chunks `add_documents` splits a file of a supported type into. */
  function ChunksOf(path: string, lib: Externals): seq<Document>
    requires FileExtension(path) in SupportedExtensions
  {
    SplitDocuments(WithSources(LoaderOutput(FileExtension(path), path, lib.loaders), path), lib.split)
  }

  /** Every chunk names its source by a string, so `os.path.basename` accepts it. */
  predicate AllSourcesAreStrings(chunks: seq<Document>) {
    forall i :: 0 <= i < |chunks| ==> ChunkSource(chunks[i]).Str?
  }

  /** `add_documents(path, ...)` returns normally: the type is supported, the
      loader finds some text, and every chunk's source is a string. */
  predicate Indexable(path: string, lib: Externals) {
    && FileExtension(path) in SupportedExtensions
    && LoaderOutput(FileExtension(path), path, lib.loaders) != []
    && AllSourcesAreStrings(ChunksOf(path, lib))
  }

  /** The exception `add_documents(path, ...)` raises when it does not
      return: the unsupported type, then the empty load, then the first chunk
      whose source `os.path.basename` rejects. */
  function IndexError(path: string, lib: Externals): (e: Exception)
    requires !Indexable(path, lib)
    ensures e.ValueError? || e == TypeError(BasenameTypeError)
    ensures FileExtension(path) in SupportedExtensions ==> e == ValueError(NoText) || e == TypeError(BasenameTypeError)
  {
    if FileExtension(path) !in SupportedExtensions then ValueError("Unsupported file type: " + FileExtension(path))
    else if LoaderOutput(FileExtension(path), path, lib.loaders) == [] then ValueError(NoText)
    else TypeError(BasenameTypeError)
  }

  /** `after` is `before` with the chunks of `path` added under the scope
      `add_documents` indexes into, and `message` is what it reports. */
  ghost predicate Indexed(before: map<nat, Point>, after: map<nat, Point>, path: string, scope: Json,
                          lib: Externals, ids: seq<nat>, message: string) {
    && Indexable(path, lib)
    && AddedPoints(before, after, TagChunks(ChunksOf(path, lib), ScopeOrDefault(scope)), ids, lib.embed)
    && message == IndexedMessage(|ChunksOf(path, lib)|, path, scope)
  }

  // ------------------------------------------------- retriever and QA chain

  /** The retriever: similarity search for `k` points under the filter, then
      cross-encoder reranking to `topN`. */
  datatype Retriever = Retriever(filter: Filter, k: int, topN: int, rerankerModel: string)

  /** `RetrievalQA` over the retriever and the Groq chat model. */
  datatype QaChain = QaChain(retriever: Retriever, llmModel: string, apiKey: string, returnSourceDocuments: bool)

  /** `get_retriever_with_reranker(scope)`. */
  function GetRetrieverWithReranker(scope: Json, s: Settings): (r: Retriever)
    ensures r.filter == ResetFilterAsWritten(scope)
    ensures r.k == s.retrieveK && r.topN == s.rerankTopN
    ensures r.rerankerModel != "" && (s.rerankerModel != "" ==> r.rerankerModel == s.rerankerModel)
  {
    Retriever(MatchText(ChunkIdKey, ScopePrefix(PyStr(scope))), s.retrieveK, s.rerankTopN,
              if s.rerankerModel != "" then s.rerankerModel else FallbackReranker)
  }

  /** `get_qa_chain(scope)`. */
  function GetQaChain(scope: Json, s: Settings): (r: Result<QaChain>)
    ensures r.Failure? <==> s.groqApiKey == ""
    ensures r.Failure? ==> r.error == ValueError(NoApiKey)
    ensures r.Success? ==>
              && r.value.retriever == GetRetrieverWithReranker(JStr(ScopeOrDefault(scope)), s)
              && r.value.llmModel == s.groqModelId
              && r.value.returnSourceDocuments
  {
    var retriever := GetRetrieverWithReranker(JStr(ScopeOrDefault(scope)), s);
    if s.groqApiKey == "" then Failure(ValueError(NoApiKey))
    else Success(QaChain(retriever, s.groqModelId, s.groqApiKey, true))
  }

  // ------------------------------------------------------ about the model

  /** The last ':' of a chunk key is the one before the index digits. */
  lemma LastColonOfChunkId(scope: string, base: string, i: nat)
    ensures var x := ChunkId(scope, base, i);
            RFind(x, ':') == |x| - |NatToString(i)| - 1
            && x[|x| - |NatToString(i)|..] == NatToString(i)
  {
    var x, d := ChunkId(scope, base, i), NatToString(i);
    var p := |x| - |d| - 1;
    assert x == (ScopePrefix(scope) + base + ":") + d;
    assert x[p] == ':';
    assert forall k :: p < k < |x| ==> x[k] == d[k - p - 1];
  }

  /** Within one call, chunk keys are pairwise distinct: the digits after the
      last ':' are the global index, whatever the scope and file names hold. */
  lemma ChunkIdDeterminesIndex(s1: string, b1: string, i1: nat, s2: string, b2: string, i2: nat)
    requires ChunkId(s1, b1, i1) == ChunkId(s2, b2, i2)
    ensures i1 == i2
  {
    var x := ChunkId(s1, b1, i1);
    var d1, d2 := NatToString(i1), NatToString(i2);
    LastColonOfChunkId(s1, b1, i1);
    LastColonOfChunkId(s2, b2, i2);
    assert d1 == x[|x| - |d1|..] == d2;
    NatToStringInjective(i1, i2);
  }

  /** A chunk key starts with its scope's prefix. */
  lemma ChunkIdHasScopePrefix(scope: string, base: string, i: nat)
    ensures StartsWith(ChunkId(scope, base, i), ScopePrefix(scope))
  {
    assert ChunkId(scope, base, i)[..|ScopePrefix(scope)|] == ScopePrefix(scope);
  }

  /** The key and position written on the i-th tagged chunk. */
  lemma TaggedChunkKey(chunks: seq<Document>, scope: string, i: nat)
    requires forall k :: 0 <= k < |chunks| ==> ChunkSource(chunks[k]).Str?
    requires i < |chunks|
    ensures var m := TagChunks(chunks, scope)[i].metadata;
            && m["position"] == Int(i)
            && m["chunk_id"] == Str(ChunkId(scope, Basename(ChunkSource(chunks[i]).s), i))
            && StartsWith(m["chunk_id"].s, ScopePrefix(scope))
  {
    TagChunkWrites(chunks[i], scope, i);
    ChunkIdHasScopePrefix(scope, Basename(ChunkSource(chunks[i]).s), i);
  }

  /** The tagged chunks of one upsert have pairwise distinct chunk keys. */
  lemma TaggedChunkKeysDistinct(chunks: seq<Document>, scope: string, i: nat, j: nat)
    requires forall k :: 0 <= k < |chunks| ==> ChunkSource(chunks[k]).Str?
    requires i < |chunks| && j < |chunks| && i != j
    ensures TagChunks(chunks, scope)[i].metadata["chunk_id"] != TagChunks(chunks, scope)[j].metadata["chunk_id"]
  {
    TaggedChunkKey(chunks, scope, i);
    TaggedChunkKey(chunks, scope, j);
    var bi, bj := Basename(ChunkSource(chunks[i]).s), Basename(ChunkSource(chunks[j]).s);
    if ChunkId(scope, bi, i) == ChunkId(scope, bj, j) {
      ChunkIdDeterminesIndex(scope, bi, i, scope, bj, j);
    }
  }

  /** The reset as written builds the filter the query for the same request
      builds exactly when the scope is truthy; for "", null, 0 or false it
      clears a different prefix from the one the chunks were indexed under. */
  lemma ResetAsWrittenAgreesOnlyForTruthyScopes(scope: Json, s: Settings)
    ensures ResetFilterAsWritten(scope) == GetRetrieverWithReranker(JStr(ScopeOrDefault(scope)), s).filter
            <==> Truthy(scope)
  {
    if !Truthy(scope) {
      var t := ScopePrefix(PyStr(scope));
      match scope
      case JNull => assert t[0] == 'N';
      case JBool(_) => assert t[0] == 'F';
      case JInt(_) => assert t[0] == '0';
      case JStr(_) => assert |t| == 1;
    }
  }

  /** Concretely: a fresh upload with scope null deletes by the prefix
      "None:", while its chunks were indexed under "default:". For any reading
      of `MatchText` between a prefix test and a substring test, the chunk
      survives and is still a candidate for the query in the same scope. */
  lemma ResetAsWrittenKeepsDefaultChunks(matches: (string, string) -> bool)
    requires forall v, t :: StartsWith(v, t) ==> matches(v, t)
    requires forall v, t :: matches(v, t) ==> Contains(v, t)
    ensures var p := Point([], "text", map["chunk_id" := Str(ChunkId(ScopeOrDefault(JNull), "doc.txt", 0))]);
            var after := Remaining(map[0 := p], ResetFilterAsWritten(JNull), matches);
            && 0 in after
            && 0 in Candidates(after, GetRetrieverWithReranker(JStr(ScopeOrDefault(JNull)), DefaultSettings).filter, matches)
  {
    var id := ChunkId("default", "doc.txt", 0);
    assert id == "default:doc.txt:0";
    assert ResetFilterAsWritten(JNull).text == "None:";
    assert forall k :: 0 <= k < |id| ==> id[k] != 'N';
    forall i: nat | i <= |id|
      ensures !OccursAt(id, "None:", i)
    {
      if i + 5 <= |id| {
        assert id[i..i + 5][0] == id[i];
      }
    }
    assert !matches(id, "None:");
    assert StartsWith(id, "default:");
  }

  /** And with scope "" under a substring reading of `MatchText`, the prefix
      ":" occurs in every chunk key, so the reset deletes the chunks of every
      other scope too. */
  lemma ResetAsWrittenEmptyScopeClearsOtherScopes()
    ensures var matches := (v: string, t: string) => Contains(v, t);
            var p := Point([], "text", map["chunk_id" := Str(ChunkId("other", "doc.txt", 0))]);
            Remaining(map[0 := p], ResetFilterAsWritten(JStr("")), matches) == map[]
  {
    var matches := (v: string, t: string) => Contains(v, t);
    var id := ChunkId("other", "doc.txt", 0);
    var p := Point([], "text", map["chunk_id" := Str(id)]);
    assert id == "other:doc.txt:0";
    assert OccursAt(id, ":", 5);
    assert ResetFilterAsWritten(JStr("")).text == ":";
    assert Contains(id, ":");
    assert Selects(ResetFilterAsWritten(JStr("")), p, matches);
    var after := Remaining(map[0 := p], ResetFilterAsWritten(JStr("")), matches);
    assert after.Keys == {};
  }

  /** With the defaulted reset, every chunk `add_documents` writes under a
      scope carries a key the reset's filter text prefixes, and the reset
      and the query for that scope use the same filter; so, whatever
      `MatchText` means, a reset leaves no candidate for that query. */
  lemma ResetMatchesQuery(points: map<nat, Point>, scope: Json, s: Settings, matches: (string, string) -> bool)
    ensures ResetFilter(scope) == GetRetrieverWithReranker(JStr(ScopeOrDefault(scope)), s).filter
    ensures Candidates(Remaining(points, ResetFilter(scope), matches),
                       GetRetrieverWithReranker(JStr(ScopeOrDefault(scope)), s).filter, matches) == {}
  {
  }
}
