/**
 * The RAG service object (`RAGService`): the lazily obtained vector index (kept in
 * memory, loaded from storage, or built from the knowledge files), search over it,
 * and answer generation with its retry policy.
 *
 * The vector store, the node parser, retrieval and the language model are oracles
 * carried by an `Env`; what the service does around them is modelled.
 */
module Rag {
  import opened Wrappers
  import opened PyText
  import KS = KnowledgeService
  import opened SearchResults
  import Contractors
  import RagPrompt
  import Reasoning

  /** A document built from one knowledge file. */
  datatype Document = Document(text: string, fileName: string, fileType: string)

  /** A chunk stored in the index, with the metadata `create_index` writes on it. */
  datatype Chunk = Chunk(text: string, fileName: string, fileType: string, chunkIndex: nat)

  /** A vector index, seen through the chunks it holds. */
  datatype Index = Index(chunks: seq<Chunk>)

  /** What the service relies on but cannot see. */
  datatype Env = Env(
    /** The knowledge directory. */
    dir: KS.Directory,
    /** The node parser: the chunk texts of a document text. */
    parse: string -> seq<string>,
    /** The exception raised while parsing, embedding or persisting, if any. */
    buildError: Option<string>,
    /** Whether loading a persisted index raises. */
    loadError: bool,
    /** The retriever: the nodes for a query and `similarity_top_k` at the request's
        retrieval number `n` (from 0), or an exception. Each retrieval calls the
        embedding service again, so a later one may fail where an earlier one did
        not. */
    retrieve: (Index, string, int, nat) -> Result<seq<RetrievedNode>, string>,
    /** The query engine: the answer text for a prompt at an attempt, or an exception
        message. */
    generate: (Index, string, nat) -> Result<string, string>)

  // ---------------------------------------------------------------- create_index

  /** The result dictionary of `create_index`. */
  datatype CreateReport = CreateReport(success: bool, message: string, indexedFiles: nat, totalChunks: nat)

  /** The report together with the index built, if one was. */
  datatype Creation = Creation(report: CreateReport, built: Option<Index>)

  /** A listing as `get_file_list` produces it for `dir`. */
  ghost predicate IsListing(dir: KS.Directory, files: seq<KS.FileInfo>)
  {
    KS.SortedNames(KS.Filenames(files))
    && (forall n :: n in KS.Filenames(files) <==> KS.Listed(dir, n))
    && (forall i :: 0 <= i < |files| ==> KS.Describes(dir, files[i]))
  }

  /** The document for one listed file; a file whose content cannot be read is
      skipped. */
  function DocumentOf(dir: KS.Directory, f: KS.FileInfo): Option<Document>
  {
    match KS.GetFileContent(dir, f.filename)
    case Ok(c) => Some(Document(c.content, f.filename, f.fileType))
    case Err(_) => None
  }

  /** The documents of a listing, in listing order. */
  function Documents(dir: KS.Directory, files: seq<KS.FileInfo>): (docs: seq<Document>)
    ensures |docs| <= |files|
  {
    if files == [] then []
    else
      var init := Documents(dir, files[..|files| - 1]);
      match DocumentOf(dir, files[|files| - 1])
      case Some(d) => init + [d]
      case None => init
  }

  /** Exactly the readable files give documents. */
  lemma {:induction false} DocumentsExact(dir: KS.Directory, files: seq<KS.FileInfo>)
    ensures forall d :: d in Documents(dir, files) <==>
              exists f :: f in files && DocumentOf(dir, f) == Some(d)
  {
    if files != [] {
      var init := files[..|files| - 1];
      var last := files[|files| - 1];
      DocumentsExact(dir, init);
      assert files == init + [last];
      forall d | d in Documents(dir, files)
        ensures exists f :: f in files && DocumentOf(dir, f) == Some(d)
      {
        if d !in Documents(dir, init) {
          assert DocumentOf(dir, last) == Some(d);
        }
      }
      forall d, f | f in files && DocumentOf(dir, f) == Some(d)
        ensures d in Documents(dir, files)
      {
        if f != last {
          assert f in init;
        }
      }
    }
  }

  /** The chunks of one document: the parser's pieces numbered from 0, each carrying
      the document's file name and type. */
  function ChunksOf(d: Document, parts: seq<string>): seq<Chunk>
  {
    seq(|parts|, k requires 0 <= k < |parts| => Chunk(parts[k], d.fileName, d.fileType, k))
  }

  /** All chunks, document after document. */
  function AllChunks(docs: seq<Document>, parse: string -> seq<string>): seq<Chunk>
  {
    if docs == [] then []
    else
      var d := docs[|docs| - 1];
      AllChunks(docs[..|docs| - 1], parse) + ChunksOf(d, parse(d.text))
  }

  /** A chunk is the piece of a document that its `chunkIndex` designates. */
  predicate PieceOf(c: Chunk, d: Document, parse: string -> seq<string>)
  {
    c.chunkIndex < |parse(d.text)|
    && c == Chunk(parse(d.text)[c.chunkIndex], d.fileName, d.fileType, c.chunkIndex)
  }

  /** Every chunk is the numbered piece of one of the documents. */
  lemma {:induction false} ChunksComeFromDocuments(docs: seq<Document>, parse: string -> seq<string>)
    ensures forall c :: c in AllChunks(docs, parse) ==> exists d :: d in docs && PieceOf(c, d, parse)
  {
    if docs != [] {
      var init := docs[..|docs| - 1];
      var d := docs[|docs| - 1];
      ChunksComeFromDocuments(init, parse);
      forall c | c in AllChunks(docs, parse)
        ensures exists e :: e in docs && PieceOf(c, e, parse)
      {
        if c in AllChunks(init, parse) {
          var e :| e in init && PieceOf(c, e, parse);
          assert e in docs;
        } else {
          var own := ChunksOf(d, parse(d.text));
          assert c in own;
          var k :| 0 <= k < |own| && own[k] == c;
          assert PieceOf(c, d, parse);
        }
      }
    }
  }

  /** The number of chunks is the total number of pieces. */
  function PieceCount(docs: seq<Document>, parse: string -> seq<string>): nat
  {
    if docs == [] then 0
    else PieceCount(docs[..|docs| - 1], parse) + |parse(docs[|docs| - 1].text)|
  }

  lemma {:induction false} ChunkCount(docs: seq<Document>, parse: string -> seq<string>)
    ensures |AllChunks(docs, parse)| == PieceCount(docs, parse)
  {
    if docs != [] {
      ChunkCount(docs[..|docs| - 1], parse);
    }
  }

  /** `create_index` on a listing: no files, or no readable file, or an exception
      while building fails with zero counts; otherwise the index holds all chunks of
      all documents. */
  function Create(files: seq<KS.FileInfo>, env: Env): (c: Creation)
    ensures c.report.success <==> c.built.Some?
    ensures !c.report.success ==> c.report.indexedFiles == 0 && c.report.totalChunks == 0
    ensures c.report.success ==> 0 < c.report.indexedFiles <= |files|
    ensures c.report.success ==> c.report.totalChunks == |c.built.value.chunks|
  {
    if files == [] then Creation(CreateReport(false, "No knowledge files found", 0, 0), None)
    else
      var docs := Documents(env.dir, files);
      if docs == [] then Creation(CreateReport(false, "No documents could be created", 0, 0), None)
      else
        var chunks := AllChunks(docs, env.parse);
        match env.buildError
        case Some(e) => Creation(CreateReport(false, "Error creating index: " + e, 0, 0), None)
        case None => Creation(CreateReport(true, "Index created successfully", |docs|, |chunks|), Some(Index(chunks)))
  }

  /** A built index holds only numbered pieces of readable listed files, and
      reports one document per readable file. */
  lemma CreatedFromReadableFiles(files: seq<KS.FileInfo>, env: Env)
    requires Create(files, env).report.success
    ensures Create(files, env).report.indexedFiles == |Documents(env.dir, files)|
    ensures forall c :: c in Create(files, env).built.value.chunks ==>
              exists d :: d in Documents(env.dir, files) && PieceOf(c, d, env.parse)
    ensures forall d :: d in Documents(env.dir, files) ==>
              exists f :: f in files && DocumentOf(env.dir, f) == Some(d)
  {
    ChunksComeFromDocuments(Documents(env.dir, files), env.parse);
    DocumentsExact(env.dir, files);
  }

  /** No readable file, no document. */
  lemma {:induction false} NoReadableNoDocuments(dir: KS.Directory, files: seq<KS.FileInfo>)
    requires forall f :: f in files ==> DocumentOf(dir, f).None?
    ensures Documents(dir, files) == []
  {
    if files != [] {
      var init := files[..|files| - 1];
      assert forall f :: f in init ==> f in files;
      NoReadableNoDocuments(dir, init);
      assert files[|files| - 1] in files;
    }
  }

  /** Without files, or without a readable one, nothing is built. */
  lemma NothingToIndex(files: seq<KS.FileInfo>, env: Env)
    requires forall f :: f in files ==> DocumentOf(env.dir, f).None?
    ensures Create(files, env).built.None?
    ensures Create(files, env).report.message ==
            if files == [] then "No knowledge files found" else "No documents could be created"
  {
    NoReadableNoDocuments(env.dir, files);
  }

  /** The numbering loop: the parser's pieces of one document, numbered from 0 in
      order, with the document's file name and type. */
  method NumberChunks(d: Document, parts: seq<string>) returns (chunks: seq<Chunk>)
    ensures |chunks| == |parts|
    ensures forall k :: 0 <= k < |parts| ==>
              chunks[k].chunkIndex == k && chunks[k].text == parts[k]
              && chunks[k].fileName == d.fileName && chunks[k].fileType == d.fileType
    ensures chunks == ChunksOf(d, parts)
  {
    chunks := [];
    for k := 0 to |parts|
      invariant chunks == ChunksOf(d, parts[..k])
    {
      chunks := chunks + [Chunk(parts[k], d.fileName, d.fileType, k)];
    }
    assert parts[..|parts|] == parts;
  }

  /** The document loop of `create_index`: a file whose read fails is skipped. */
  method CollectDocuments(dir: KS.Directory, files: seq<KS.FileInfo>) returns (docs: seq<Document>)
    ensures docs == Documents(dir, files)
  {
    docs := [];
    for k := 0 to |files|
      invariant docs == Documents(dir, files[..k])
    {
      assert files[..k + 1][..k] == files[..k];
      var content := KS.GetFileContent(dir, files[k].filename);
      if content.Ok? {
        docs := docs + [Document(content.value.content, files[k].filename, files[k].fileType)];
      }
    }
    assert files[..|files|] == files;
  }

  /** The chunking loop of `create_index`, extending the node list document by
      document. */
  method ChunkDocuments(docs: seq<Document>, parse: string -> seq<string>) returns (chunks: seq<Chunk>)
    ensures chunks == AllChunks(docs, parse)
  {
    chunks := [];
    for k := 0 to |docs|
      invariant chunks == AllChunks(docs[..k], parse)
    {
      assert docs[..k + 1][..k] == docs[..k];
      var numbered := NumberChunks(docs[k], parse(docs[k].text));
      chunks := chunks + numbered;
    }
    assert docs[..|docs|] == docs;
  }

  // ---------------------------------------------------------------- get_index

  /** A persisted index that loads without an exception. */
  predicate Loadable(saved: Option<Index>, env: Env)
  {
    saved.Some? && !env.loadError
  }

  /** The effect of `get_index` on the in-memory and the persisted index: memory
      first, then storage, then a new build from the listing `listing`. */
  ghost predicate Fetched(env: Env, before: Option<Index>, savedBefore: Option<Index>,
                    after: Option<Index>, savedAfter: Option<Index>, listing: Option<seq<KS.FileInfo>>)
  {
    if before.Some? then after == before && savedAfter == savedBefore && listing.None?
    else if Loadable(savedBefore, env) then after == savedBefore && savedAfter == savedBefore && listing.None?
    else
      listing.Some? && IsListing(env.dir, listing.value)
      && after == Create(listing.value, env).built
      && savedAfter == (if after.Some? then after else savedBefore)
  }

  /** `get_index` yields no index only when nothing was in memory or storage and
      the build failed. */
  lemma FetchFailsOnlyIfCreateFails(env: Env, before: Option<Index>, savedBefore: Option<Index>,
                                    after: Option<Index>, savedAfter: Option<Index>,
                                    listing: Option<seq<KS.FileInfo>>)
    requires Fetched(env, before, savedBefore, after, savedAfter, listing)
    ensures after.None? <==>
              before.None? && !Loadable(savedBefore, env)
              && !Create(listing.value, env).report.success
  {
  }

  // ---------------------------------------------------------------- search

  const IndexMissing := "Index not found. Please create index first."

  /** The result dictionary of `search`; `totalResults` is only present on success. */
  datatype SearchReport = SearchReport(
    success: bool,
    query: string,
    message: Option<string>,
    results: seq<Hit>,
    referencedFiles: seq<string>,
    totalResults: Option<nat>)

  /** The results `search` shapes from the retrieved nodes, in order. */
  function Hits(nodes: seq<RetrievedNode>): seq<Hit>
  {
    seq(|nodes|, k requires 0 <= k < |nodes| => ShapeHit(nodes[k]))
  }

  /** What `search` may return as retrieval number `n` once the index is `idx`; on
      success the order of `referencedFiles` is left open, as it comes from a set. */
  ghost predicate SearchResult(r: SearchReport, idx: Option<Index>, env: Env, query: string, topK: int, n: nat)
  {
    match idx
    case None => r == SearchReport(false, query, Some(IndexMissing), [], [], None)
    case Some(i) =>
      match env.retrieve(i, query, topK, n)
      case Err(e) => r == SearchReport(false, query, Some("Search error: " + e), [], [], None)
      case Ok(nodes) =>
        r.success && r.query == query && r.message.None?
        && |r.results| == |nodes|
        && (forall k :: 0 <= k < |nodes| ==> r.results[k] == ShapeHit(nodes[k]))
        && NoDuplicates(r.referencedFiles)
        && (forall f :: f in r.referencedFiles <==> f in FileNames(r.results))
        && r.totalResults == Some(|r.results|)
  }

  /** Two searches over the same index with the same retrieval outcome agree on
      everything but the order of the referenced files. */
  lemma SearchesAgree(r1: SearchReport, r2: SearchReport, idx: Option<Index>, env: Env, query: string, topK: int, n: nat)
    requires SearchResult(r1, idx, env, query, topK, n) && SearchResult(r2, idx, env, query, topK, n)
    ensures r1.success == r2.success && r1.message == r2.message && r1.results == r2.results
    ensures r1.totalResults == r2.totalResults
    ensures forall f :: f in r1.referencedFiles <==> f in r2.referencedFiles
  {
    if idx.Some? && env.retrieve(idx.value, query, topK, n).Ok? {
      assert |r1.results| == |r2.results|;
      assert forall k :: 0 <= k < |r1.results| ==> r1.results[k] == r2.results[k];
    }
  }

  /** A successful search reports as many results as the retriever returned nodes,
      and names exactly their files, each once. */
  lemma SearchCounts(r: SearchReport, idx: Option<Index>, env: Env, query: string, topK: int, n: nat)
    requires SearchResult(r, idx, env, query, topK, n) && r.success
    ensures idx.Some? && env.retrieve(idx.value, query, topK, n).Ok?
    ensures r.totalResults == Some(|env.retrieve(idx.value, query, topK, n).value|)
    ensures |r.referencedFiles| == |FileNames(r.results)|
  {
    NoDuplicatesCount(r.referencedFiles, FileNames(r.results));
  }

  /** A duplicate-free list of the elements of a set is as long as the set. */
  lemma {:induction false} NoDuplicatesCount(xs: seq<string>, s: set<string>)
    requires NoDuplicates(xs) && forall x :: x in xs <==> x in s
    ensures |xs| == |s|
  {
    if xs != [] {
      var rest := xs[1..];
      assert forall x :: x in rest ==> x in xs;
      assert xs[0] !in rest by {
        forall k | 0 <= k < |rest| ensures rest[k] != xs[0] {
          assert rest[k] == xs[k + 1];
        }
      }
      assert NoDuplicates(rest) by {
        forall i, j | 0 <= i < j < |rest| ensures rest[i] != rest[j] {
          assert rest[i] == xs[i + 1] && rest[j] == xs[j + 1];
        }
      }
      assert xs == [xs[0]] + rest;
      NoDuplicatesCount(rest, s - {xs[0]});
    }
  }

  // ---------------------------------------------------------------- generate_answer

  const MaxRetries := 3
  const RetryDelay := 1
  const RateLimitMessage := "Rate limit exceeded. Please try again later."
  const NoResultsMessage := "No search results found"

  /** The test that sends an exception to the retry path. */
  predicate IsRateLimit(msg: string)
  {
    Contains(Lower(msg), "rate limit") || Contains(msg, "429")
  }

  /** The result dictionary of `generate_answer`; a failure carries an empty answer,
      reasoning and file list, and no search results. */
  datatype AnswerReport = AnswerReport(
    success: bool,
    query: string,
    answer: string,
    reasoning: string,
    referencedFiles: seq<string>,
    searchResults: seq<Hit>,
    message: Option<string>)

  function Failure(query: string, message: string): AnswerReport
  {
    AnswerReport(false, query, "", "", [], [], Some(message))
  }

  /** How one attempt ends: its search failed or found nothing, and the call fails
      with `message`; or the model was asked, and answered or raised. */
  datatype Outcome = NoResults(message: string) | Replied(reply: Result<string, string>)

  /** An attempt that sends `generate_answer` to the retry path. */
  predicate RateLimited(o: Outcome)
  {
    o.Replied? && o.reply.Err? && IsRateLimit(o.reply.error)
  }

  /** How attempt `a` ends once the index in memory is `idx`: the search of retrieval
      number `a` and, when it found results, the model's reply to the prompt `prompt`
      builds from them. */
  function OutcomeAt(env: Env, idx: Option<Index>, query: string, topK: int,
                     prompt: seq<Hit> -> string, a: nat): Outcome
  {
    match idx
    case None => NoResults(IndexMissing)
    case Some(i) =>
      match env.retrieve(i, query, topK, a)
      case Err(e) => NoResults("Search error: " + e)
      case Ok(nodes) =>
        if nodes == [] then NoResults(NoResultsMessage)
        else Replied(env.generate(i, prompt(Hits(nodes)), a))
  }

  /** The outcomes of all attempts of one call. */
  function Outcomes(env: Env, idx: Option<Index>, query: string, topK: int,
                    prompt: seq<Hit> -> string): nat -> Outcome
  {
    (a: nat) => OutcomeAt(env, idx, query, topK, prompt, a)
  }

  /** An attempt ends as its search report says: a failed or empty search with the
      report's message (or "No search results found"), whatever the model would
      say; otherwise with the model's reply to the prompt built from the results. */
  lemma OutcomeOfSearch(sr: SearchReport, idx: Option<Index>, env: Env, query: string, topK: int,
                        prompt: seq<Hit> -> string, a: nat)
    requires SearchResult(sr, idx, env, query, topK, a)
    ensures OutcomeAt(env, idx, query, topK, prompt, a) ==
            if !sr.success || sr.results == [] then NoResults(sr.message.GetOr(NoResultsMessage))
            else Replied(env.generate(idx.value, prompt(sr.results), a))
  {
    if idx.Some? && env.retrieve(idx.value, query, topK, a).Ok? {
      assert sr.results == Hits(env.retrieve(idx.value, query, topK, a).value);
    }
  }

  /** The outcome of the attempts: the answer text or the final error message, and
      the delays slept between attempts. */
  datatype Tries = Tries(result: Result<string, string>, delays: seq<nat>)

  /** The attempts from `a` on, attempt `k` ending as `outcome(k)` says. */
  function Attempts(a: nat, outcome: nat -> Outcome): (t: Tries)
    requires a < MaxRetries
    decreases MaxRetries - a
  {
    match outcome(a)
    case NoResults(msg) => Tries(Err(msg), [])
    case Replied(Ok(text)) => Tries(Ok(text), [])
    case Replied(Err(msg)) =>
      if !IsRateLimit(msg) then Tries(Err("Error generating answer: " + msg), [])
      else if a < MaxRetries - 1 then
        var next := Attempts(a + 1, outcome);
        Tries(next.result, [RetryDelay * (a + 1)] + next.delays)
      else Tries(Err(RateLimitMessage), [])
  }

  /** The delays slept before the attempts after `a`: 1·(a+1), 1·(a+2), …. */
  function DelaysAfter(a: nat, n: nat): seq<nat>
  {
    seq(n, k requires 0 <= k < n => RetryDelay * (a + k + 1))
  }

  /** At most three attempts: the delays grow by one second per attempt and there are
      at most two of them. */
  lemma {:induction false} AttemptsBounded(a: nat, outcome: nat -> Outcome)
    requires a < MaxRetries
    ensures a + |Attempts(a, outcome).delays| < MaxRetries
    ensures Attempts(a, outcome).delays == DelaysAfter(a, |Attempts(a, outcome).delays|)
    decreases MaxRetries - a
  {
    var t := Attempts(a, outcome);
    if RateLimited(outcome(a)) && a < MaxRetries - 1 {
      AttemptsBounded(a + 1, outcome);
      var next := Attempts(a + 1, outcome);
      assert t.delays == [RetryDelay * (a + 1)] + next.delays;
      assert t.delays == DelaysAfter(a, |t.delays|);
    }
  }

  /** The attempts before `b` were rate limited and attempt `b` is the first that is
      not: the outcome is decided by attempt `b`, a failed search included. */
  lemma {:induction false} FirstOtherOutcomeDecides(a: nat, b: nat, outcome: nat -> Outcome)
    requires a <= b < MaxRetries
    requires forall k :: a <= k < b ==> RateLimited(outcome(k))
    requires !RateLimited(outcome(b))
    ensures Attempts(a, outcome).delays == DelaysAfter(a, b - a)
    ensures Attempts(a, outcome).result ==
              match outcome(b)
              case NoResults(msg) => Err(msg)
              case Replied(Ok(text)) => Ok(text)
              case Replied(Err(msg)) => Err("Error generating answer: " + msg)
    decreases b - a
  {
    if a < b {
      FirstOtherOutcomeDecides(a + 1, b, outcome);
      assert [RetryDelay * (a + 1)] + DelaysAfter(a + 1, b - a - 1) == DelaysAfter(a, b - a);
    }
  }

  /** Three rate-limited attempts give up with the rate-limit message after sleeping
      1 and 2 seconds. */
  lemma RateLimitedThrice(outcome: nat -> Outcome)
    requires forall k :: 0 <= k < MaxRetries ==> RateLimited(outcome(k))
    ensures Attempts(0, outcome) == Tries(Err(RateLimitMessage), [1, 2])
  {
    assert Attempts(2, outcome) == Tries(Err(RateLimitMessage), []);
    assert Attempts(1, outcome) == Tries(Err(RateLimitMessage), [2]);
  }

  /** `generate_answer` given the outcome of every attempt and the search report `s`
      of the attempt that ends the call. */
  function AnswerFrom(s: SearchReport, query: string, outcome: nat -> Outcome): (t: (AnswerReport, seq<nat>))
    ensures t.0.success ==> t.0.reasoning != [] && t.0.searchResults == s.results
    ensures t.0.success ==> t.0.referencedFiles == s.referencedFiles && t.0.message.None?
    ensures !t.0.success ==> t.0.message.Some?
  {
    var tries := Attempts(0, outcome);
    match tries.result
    case Ok(text) =>
      (AnswerReport(true, query, text, Reasoning.ReasoningOf(text, s.referencedFiles), s.referencedFiles, s.results, None),
       tries.delays)
    case Err(msg) => (Failure(query, msg), tries.delays)
  }

  /** A failed or empty first search ends the call at once with its message. */
  lemma SearchFailureStops(s: SearchReport, query: string, outcome: nat -> Outcome)
    requires outcome(0).NoResults?
    ensures AnswerFrom(s, query, outcome) == (Failure(query, outcome(0).message), [])
  {
  }

  /** A search that fails on the retry after a rate limit ends the call with its
      message, after the one-second wait. */
  lemma SearchFailsOnRetry(s: SearchReport, query: string, outcome: nat -> Outcome)
    requires RateLimited(outcome(0)) && outcome(1).NoResults?
    ensures AnswerFrom(s, query, outcome) == (Failure(query, outcome(1).message), [1])
  {
    FirstOtherOutcomeDecides(0, 1, outcome);
    assert DelaysAfter(0, 1) == [1];
  }

  // ---------------------------------------------------------------- the service

  /** The service object with its in-memory index and the index persisted under the
      storage directory. */
  class RagService {
    var index: Option<Index>
    var saved: Option<Index>
    /** The fixed output requirements that close every prompt. */
    const requirements: string

    constructor(saved: Option<Index>)
      ensures index.None? && this.saved == saved
      ensures requirements == RagPrompt.OutputRequirements
    {
      index := None;
      this.saved := saved;
      requirements := RagPrompt.OutputRequirements;
    }

    /** `create_index` over the listing `files` that `get_file_list` produced. */
    method CreateIndex(env: Env) returns (r: CreateReport, ghost files: seq<KS.FileInfo>)
      modifies this
      ensures IsListing(env.dir, files)
      ensures r == Create(files, env).report
      ensures index == (if r.success then Create(files, env).built else old(index))
      ensures saved == (if r.success then Create(files, env).built else old(saved))
    {
      var listed := KS.GetFileList(env.dir);
      files := listed;
      if listed == [] {
        r := CreateReport(false, "No knowledge files found", 0, 0);
        return;
      }
      var docs := CollectDocuments(env.dir, listed);
      if docs == [] {
        r := CreateReport(false, "No documents could be created", 0, 0);
        return;
      }
      var chunks := ChunkDocuments(docs, env.parse);
      if env.buildError.Some? {
        r := CreateReport(false, "Error creating index: " + env.buildError.value, 0, 0);
        return;
      }
      saved := Some(Index(chunks));
      index := Some(Index(chunks));
      r := CreateReport(true, "Index created successfully", |docs|, |chunks|);
    }

    /** `load_index`: succeeds exactly when a persisted index loads. */
    method LoadIndex(env: Env) returns (ok: bool)
      modifies this
      ensures ok <==> Loadable(old(saved), env)
      ensures index == (if ok then old(saved) else old(index))
      ensures saved == old(saved)
    {
      if saved.None? || env.loadError {
        return false;
      }
      index := saved;
      return true;
    }

    /** `get_index`; `listing` is the listing a build used, when one was needed. */
    method GetIndex(env: Env) returns (idx: Option<Index>, ghost listing: Option<seq<KS.FileInfo>>)
      modifies this
      ensures idx == index
      ensures Fetched(env, old(index), old(saved), index, saved, listing)
    {
      listing := None;
      if index.None? {
        var loaded := LoadIndex(env);
        if !loaded {
          var r, files := CreateIndex(env);
          listing := Some(files);
          if !r.success {
            return None, listing;
          }
        }
      }
      idx := index;
    }

    /** `is_index_ready`: in memory, or loadable (and then loaded). */
    method IsIndexReady(env: Env) returns (ready: bool)
      modifies this
      ensures ready <==> old(index).Some? || Loadable(old(saved), env)
      ensures index == (if old(index).None? && ready then old(saved) else old(index))
      ensures saved == old(saved)
    {
      if index.Some? {
        return true;
      }
      ready := LoadIndex(env);
    }

    /** `search`: the index, then retrieval, then one result per node. */
    method Search(env: Env, query: string, topK: int, n: nat) returns (r: SearchReport, ghost listing: Option<seq<KS.FileInfo>>)
      modifies this
      ensures SearchResult(r, index, env, query, topK, n)
      ensures Fetched(env, old(index), old(saved), index, saved, listing)
    {
      var idx;
      idx, listing := GetIndex(env);
      if idx.None? {
        r := SearchReport(false, query, Some(IndexMissing), [], [], None);
        return;
      }
      var retrieved := env.retrieve(idx.value, query, topK, n);
      if retrieved.Err? {
        r := SearchReport(false, query, Some("Search error: " + retrieved.error), [], [], None);
        return;
      }
      var results, referenced := ShapeResults(retrieved.value);
      r := SearchReport(true, query, None, results, referenced, Some(|results|));
    }

    /** The second `get_index` of an attempt, for the query engine: the index a
        successful search left in memory. */
    method EngineIndex(env: Env) returns (idx: Index)
      requires index.Some?
      modifies this
      ensures index == old(index) && saved == old(saved)
      ensures idx == index.value
    {
      var found;
      ghost var listing;
      found, listing := GetIndex(env);
      idx := found.value;
    }

    /** One attempt of `generate_answer` up to the model's reply: the search, the
        contractor mapping, the prompt built by `prompt` from the results and the
        generator's outcome; a failed or empty search ends the attempt with its
        message. */
    method Attempt(env: Env, query: string, prompt: seq<Hit> -> string, topK: int, attempt: nat)
      returns (sr: SearchReport, outcome: Outcome, ghost listing: Option<seq<KS.FileInfo>>)
      modifies this
      ensures SearchResult(sr, index, env, query, topK, attempt)
      ensures Fetched(env, old(index), old(saved), index, saved, listing)
      ensures outcome.NoResults? <==> !sr.success || sr.results == []
      ensures outcome == OutcomeAt(env, index, query, topK, prompt, attempt)
    {
      sr, listing := Search(env, query, topK, attempt);
      OutcomeOfSearch(sr, index, env, query, topK, prompt, attempt);
      if !sr.success || sr.results == [] {
        return sr, NoResults(sr.message.GetOr(NoResultsMessage)), listing;
      }
      // The contractor mapping is built as in the service, and never used.
      var mapping := Contractors.BuildMapping(sr.results);
      var text := prompt(sr.results);
      var engineIndex := EngineIndex(env);
      outcome := Replied(env.generate(engineIndex, text, attempt));
    }

    /** The attempts of `generate_answer`, the prompt built from the results by
        `prompt`: up to three, each searching again and asking the model; `delays` are
        the seconds slept between attempts and `s` is the search report of the
        attempt that ends the call, the one after the last delay. */
    method RunAttempts(env: Env, query: string, prompt: seq<Hit> -> string, topK: int)
      returns (r: AnswerReport, delays: seq<nat>, ghost s: SearchReport, ghost listing: Option<seq<KS.FileInfo>>)
      modifies this
      ensures SearchResult(s, index, env, query, topK, |delays|)
      ensures (r, delays) == AnswerFrom(s, query, Outcomes(env, index, query, topK, prompt))
      ensures r.success ==> s.success && s.results != []
      ensures Fetched(env, old(index), old(saved), index, saved, listing)
    {
      delays := [];
      var attempt: nat := 0;
      ghost var idx0: Option<Index> := None;
      ghost var saved0: Option<Index> := None;
      listing := None;
      while true
        invariant attempt < MaxRetries && |delays| == attempt
        invariant attempt == 0 ==> delays == [] && index == old(index) && saved == old(saved)
        invariant attempt > 0 ==> idx0.Some? && index == idx0 && saved == saved0
        invariant attempt > 0 ==> Fetched(env, old(index), old(saved), idx0, saved0, listing)
        invariant attempt > 0 ==> Pending(Outcomes(env, idx0, query, topK, prompt), attempt, delays)
        decreases MaxRetries - attempt
      {
        var sr, outcome;
        ghost var l;
        sr, outcome, l := Attempt(env, query, prompt, topK, attempt);
        if attempt == 0 {
          listing := l;
          idx0 := index;
          saved0 := saved;
          PendingStart(Outcomes(env, idx0, query, topK, prompt));
        }
        ghost var all := Outcomes(env, idx0, query, topK, prompt);
        assert outcome == all(attempt);
        s := sr;
        if RateLimited(outcome) && attempt < MaxRetries - 1 {
          PendingStep(all, attempt, delays);
          delays := delays + [RetryDelay * (attempt + 1)];
          attempt := attempt + 1;
        } else {
          r := Conclude(query, sr, outcome);
          AnswerFromTries(sr, query, all, delays, attempt);
          return;
        }
      }
    }

    /** `generate_answer`: the attempts, with the prompt built from the query, the
        case summary and the search results. */
    method GenerateAnswer(env: Env, query: string, caseInfo: Option<RagPrompt.CaseInfo>, topK: int)
      returns (r: AnswerReport, delays: seq<nat>, ghost s: SearchReport, ghost listing: Option<seq<KS.FileInfo>>)
      modifies this
      ensures SearchResult(s, index, env, query, topK, |delays|)
      ensures (r, delays) == AnswerFrom(s, query, Outcomes(env, index, query, topK, PromptOf(query, caseInfo, requirements)))
      ensures r.success ==> s.success && s.results != []
      ensures Fetched(env, old(index), old(saved), index, saved, listing)
    {
      r, delays, s, listing := RunAttempts(env, query, PromptOf(query, caseInfo, requirements), topK);
    }
  }

  /** The prompt of `generate_answer` for the results of an attempt. */
  function PromptOf(query: string, caseInfo: Option<RagPrompt.CaseInfo>, requirements: string): seq<Hit> -> string
  {
    hits => RagPrompt.PromptFor(query, caseInfo, hits, requirements)
  }

  /** The attempts from `a` on decide the call's outcome, after the delays already
      slept. */
  ghost predicate Pending(outcome: nat -> Outcome, a: nat, delays: seq<nat>)
    requires a < MaxRetries
  {
    Attempts(0, outcome) == Tries(Attempts(a, outcome).result, delays + Attempts(a, outcome).delays)
  }

  lemma PendingStart(outcome: nat -> Outcome)
    ensures Pending(outcome, 0, [])
  {
    assert [] + Attempts(0, outcome).delays == Attempts(0, outcome).delays;
  }

  /** A rate-limited attempt before the last passes the decision to the next one and
      sleeps `RetryDelay * (a + 1)` seconds. */
  lemma PendingStep(outcome: nat -> Outcome, a: nat, delays: seq<nat>)
    requires a < MaxRetries - 1 && Pending(outcome, a, delays)
    requires RateLimited(outcome(a))
    ensures Pending(outcome, a + 1, delays + [RetryDelay * (a + 1)])
  {
    var next := Attempts(a + 1, outcome);
    assert Attempts(a, outcome) == Tries(next.result, [RetryDelay * (a + 1)] + next.delays);
    assert delays + ([RetryDelay * (a + 1)] + next.delays) == (delays + [RetryDelay * (a + 1)]) + next.delays;
  }

  /** The report of an attempt that ends the call as `o` says: the search's message,
      the answer and its reasoning, the rate-limit message, or the error. */
  function Concluded(query: string, s: SearchReport, o: Outcome): (r: AnswerReport)
    ensures r.success <==> o.Replied? && o.reply.Ok?
    ensures r.success ==> r.answer == o.reply.value && r.searchResults == s.results && r.referencedFiles == s.referencedFiles
    ensures o.NoResults? ==> r.message == Some(o.message)
  {
    match o
    case NoResults(msg) => Failure(query, msg)
    case Replied(Ok(text)) =>
      AnswerReport(true, query, text, Reasoning.ReasoningOf(text, s.referencedFiles), s.referencedFiles, s.results, None)
    case Replied(Err(msg)) =>
      Failure(query, if IsRateLimit(msg) then RateLimitMessage else "Error generating answer: " + msg)
  }

  /** The end of `generate_answer`'s last attempt: on success the reasoning is
      extracted from the answer; a failed search or an error becomes the failure
      message. */
  method Conclude(query: string, s: SearchReport, o: Outcome) returns (r: AnswerReport)
    ensures r == Concluded(query, s, o)
  {
    if o.NoResults? {
      r := Failure(query, o.message);
    } else if o.reply.Ok? {
      var reasoning := Reasoning.ExtractReasoning(o.reply.value, s.referencedFiles);
      r := AnswerReport(true, query, o.reply.value, reasoning, s.referencedFiles, s.results, None);
    } else if IsRateLimit(o.reply.error) {
      r := Failure(query, RateLimitMessage);
    } else {
      r := Failure(query, "Error generating answer: " + o.reply.error);
    }
  }

  /** The answer once attempt `a` ends the attempts: its search failed, the model
      answered or failed otherwise than by the rate limit, or it was the last. */
  lemma AnswerFromTries(s: SearchReport, query: string, outcome: nat -> Outcome, delays: seq<nat>, a: nat)
    requires a < MaxRetries
    requires Pending(outcome, a, delays)
    requires !RateLimited(outcome(a)) || a == MaxRetries - 1
    ensures AnswerFrom(s, query, outcome) == (Concluded(query, s, outcome(a)), delays)
  {
    var last := Attempts(a, outcome);
    assert delays + [] == delays;
    match outcome(a)
    case NoResults(msg) =>
      assert last == Tries(Err(msg), []);
      assert Attempts(0, outcome) == Tries(Err(msg), delays);
    case Replied(Ok(text)) =>
      assert last == Tries(Ok(text), []);
    case Replied(Err(msg)) =>
      if !IsRateLimit(msg) {
        assert last == Tries(Err("Error generating answer: " + msg), []);
      } else {
        assert last == Tries(Err(RateLimitMessage), []);
      }
  }
}
