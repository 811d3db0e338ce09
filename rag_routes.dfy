/**
 * The RAG routes: search and answer over the shared service, and the
 * administrator routes that build or rebuild the index and report whether one
 * is ready. The answer route also hands a log record to the log service.
 */
module RagRoutes {
  import opened Wrappers
  import opened PyText
  import opened Http
  import opened SearchResults
  import Auth
  import RagPrompt
  import Rag
  import KnowledgeService

  // ---------------------------------------------------------------- request values

  const DefaultTopK := 5
  const QueryRequired := "Query is required"

  /** `request.top_k or 5`: an absent or zero `top_k` becomes 5. */
  function TopKOf(topK: Option<int>): (k: int)
    ensures k != 0
    ensures topK.Some? && topK.value != 0 ==> k == topK.value
    ensures topK.None? || topK.value == 0 ==> k == DefaultTopK
  {
    if topK.None? || topK.value == 0 then DefaultTopK else topK.value
  }

  /** The validation both routes share: a missing or blank query is refused. */
  predicate Blank(query: string)
  {
    Strip(query) == []
  }

  // ---------------------------------------------------------------- POST /api/rag/search

  /** `search_rag`: the stripped query goes to the service, as the request's only
      retrieval (number 0); a failed search is a 500 carrying the service's
      message. */
  method SearchRoute(svc: Rag.RagService, env: Rag.Env, query: string, topK: Option<int>)
    returns (r: Result<Rag.SearchReport, HttpError>, ghost report: Rag.SearchReport,
             ghost listing: Option<seq<KnowledgeService.FileInfo>>)
    modifies svc
    ensures Blank(query) ==> r == Err(HttpError(400, QueryRequired))
                             && svc.index == old(svc.index) && svc.saved == old(svc.saved)
    ensures !Blank(query) ==>
              Rag.SearchResult(report, svc.index, env, Strip(query), TopKOf(topK), 0)
              && Rag.Fetched(env, old(svc.index), old(svc.saved), svc.index, svc.saved, listing)
    ensures !Blank(query) ==> (r.Ok? <==> report.success)
    ensures !Blank(query) && r.Ok? ==>
              r.value == report && r.value.query == Strip(query)
              && r.value.totalResults == Some(|r.value.results|)
    ensures !Blank(query) && r.Err? ==>
              r == Err(HttpError(500, report.message.GetOr("Search failed")))
              && (r.error.detail == Rag.IndexMissing || StartsWith(r.error.detail, "Search error: "))
  {
    listing := None;
    report := Rag.SearchReport(false, query, None, [], [], None);
    if Strip(query) == [] {
      return Err(HttpError(400, QueryRequired)), report, listing;
    }
    var result;
    result, listing := svc.Search(env, Strip(query), TopKOf(topK), 0);
    report := result;
    if !result.success {
      return Err(HttpError(500, result.message.GetOr("Search failed"))), report, listing;
    }
    r := Ok(result);
  }

  // ---------------------------------------------------------------- POST /api/rag/answer

  const PreviewChars := 200
  const LoggedResults := 5
  const ModelName := "gpt-4o-mini"

  /** One entry of the logged `search_results`. */
  datatype ResultDetail = ResultDetail(
    chunkId: Option<string>,
    fileName: string,
    fileType: string,
    chunkIndex: int,
    score: real,
    textPreview: Option<string>)

  /** The record `save_rag_log` receives after a successful answer; the processing
      time is left out. */
  datatype RagLog = RagLog(
    caseId: Option<string>,
    input: Option<RagPrompt.CaseInfo>,
    queries: seq<string>,
    referencedFiles: seq<string>,
    searchResults: seq<ResultDetail>,
    answer: string,
    reasoning: string,
    modelName: string,
    topK: int,
    status: string)

  /** The first 200 characters of a non-empty text, nothing for an empty one. */
  function TextPreview(text: string): (p: Option<string>)
    ensures p.None? <==> text == []
    ensures p.Some? ==> |p.value| == Min(PreviewChars, |text|) && StartsWith(text, p.value)
  {
    if text == [] then None else Some(Take(text, PreviewChars))
  }

  function Min(a: nat, b: nat): nat
  {
    if a <= b then a else b
  }

  function Detail(h: Hit): ResultDetail
  {
    ResultDetail(h.chunkId, h.fileName, h.fileType, h.chunkIndex, h.score, TextPreview(h.text))
  }

  /** The logged details: one per result among the first five, in order. */
  function Details(hits: seq<Hit>): (ds: seq<ResultDetail>)
    ensures |ds| == Min(LoggedResults, |hits|)
    ensures forall i :: 0 <= i < |ds| ==> ds[i] == Detail(hits[i])
  {
    var n := Min(LoggedResults, |hits|);
    seq(n, i requires 0 <= i < n => Detail(hits[i]))
  }

  /** `case_info.get("case_id")` when the case information is present and
      non-empty. */
  function CaseId(caseInfo: Option<RagPrompt.CaseInfo>): (id: Option<string>)
    ensures id.Some? <==> caseInfo.Some? && "case_id" in caseInfo.value
    ensures id.Some? ==> id.value == caseInfo.value["case_id"]
  {
    if caseInfo.None? || caseInfo.value == map[] || "case_id" !in caseInfo.value then None
    else Some(caseInfo.value["case_id"])
  }

  /** The log record of a successful answer to the request (`query` as sent,
      before stripping). */
  function AnswerLog(query: string, caseInfo: Option<RagPrompt.CaseInfo>, topK: Option<int>,
                     report: Rag.AnswerReport): (log: RagLog)
    ensures log.queries == [query] && log.input == caseInfo && log.status == "success"
    ensures log.answer == report.answer && log.reasoning == report.reasoning
    ensures log.referencedFiles == report.referencedFiles
    ensures |log.searchResults| == Min(LoggedResults, |report.searchResults|)
    ensures forall i :: 0 <= i < |log.searchResults| ==>
              log.searchResults[i].fileName == report.searchResults[i].fileName
              && log.searchResults[i].chunkIndex == report.searchResults[i].chunkIndex
    ensures log.topK == TopKOf(topK)
  {
    RagLog(CaseId(caseInfo), caseInfo, [query], report.referencedFiles, Details(report.searchResults),
           report.answer, report.reasoning, ModelName, TopKOf(topK), "success")
  }

  /** `generate_answer` (the route): the stripped query and the case information go
      to the service; a failed answer is a 500 carrying the service's message, and a
      successful one is returned unchanged with the log record `log` beside it.
      Whether the log service keeps the record does not change the response. */
  method AnswerRoute(svc: Rag.RagService, env: Rag.Env, query: string,
                     caseInfo: Option<RagPrompt.CaseInfo>, topK: Option<int>)
    returns (r: Result<Rag.AnswerReport, HttpError>, log: Option<RagLog>,
             ghost report: Rag.AnswerReport, ghost waits: seq<nat>, ghost s: Rag.SearchReport,
             ghost listing: Option<seq<KnowledgeService.FileInfo>>)
    modifies svc
    ensures Blank(query) ==> r == Err(HttpError(400, QueryRequired)) && log.None?
                             && svc.index == old(svc.index) && svc.saved == old(svc.saved)
    ensures !Blank(query) ==>
              Rag.SearchResult(s, svc.index, env, Strip(query), TopKOf(topK), |waits|)
              && Rag.Fetched(env, old(svc.index), old(svc.saved), svc.index, svc.saved, listing)
              && (report, waits) == Rag.AnswerFrom(s, Strip(query),
                   Rag.Outcomes(env, svc.index, Strip(query), TopKOf(topK), Rag.PromptOf(Strip(query), caseInfo, svc.requirements)))
    ensures !Blank(query) ==> (r.Ok? <==> report.success) && (log.Some? <==> report.success)
    ensures r.Ok? ==> r.value == report && log == Some(AnswerLog(query, caseInfo, topK, report))
    ensures !Blank(query) && r.Err? ==> r == Err(HttpError(500, report.message.value))
  {
    report := Rag.Failure(query, "");
    waits := [];
    s := Rag.SearchReport(false, query, None, [], [], None);
    listing := None;
    if Strip(query) == [] {
      return Err(HttpError(400, QueryRequired)), None, report, waits, s, listing;
    }
    var result, delays;
    result, delays, s, listing := svc.GenerateAnswer(env, Strip(query), caseInfo, TopKOf(topK));
    report := result;
    waits := delays;
    if !result.success {
      return Err(HttpError(500, result.message.GetOr("Answer generation failed"))), None, report, waits, s, listing;
    }
    r := Ok(result);
    log := Some(AnswerLog(query, caseInfo, topK, result));
  }

  // ---------------------------------------------------------------- index administration

  /** The body of a successful create or reindex. */
  datatype IndexOutcome = IndexOutcome(status: string, message: string, indexedFiles: nat, totalChunks: nat)

  /** The body of the status route. */
  datatype IndexStatus = IndexStatus(ready: bool, message: string)

  const Recreated := "Index recreated successfully"
  const Ready := "Index is ready"

  /** POST /api/rag/index/create: an administrator builds the index; a failed build
      is a 500 carrying the build's message. */
  method CreateIndexRoute(svc: Rag.RagService, env: Rag.Env, sessions: set<string>, cookie: Option<string>)
    returns (r: Result<IndexOutcome, HttpError>, ghost files: seq<KnowledgeService.FileInfo>)
    modifies svc
    ensures !Auth.IsAdmin(sessions, cookie) ==>
              r == Err(HttpError(401, "Admin authentication required"))
              && svc.index == old(svc.index) && svc.saved == old(svc.saved)
    ensures Auth.IsAdmin(sessions, cookie) ==>
              var c := Rag.Create(files, env);
              Rag.IsListing(env.dir, files)
              && (r.Ok? <==> c.report.success)
              && (r.Ok? ==> r.value == IndexOutcome("success", c.report.message, c.report.indexedFiles, c.report.totalChunks))
              && (r.Err? ==> r == Err(HttpError(500, c.report.message)))
              && svc.index == (if c.report.success then c.built else old(svc.index))
              && svc.saved == (if c.report.success then c.built else old(svc.saved))
  {
    files := [];
    var denied := Auth.RequireAdmin(sessions, cookie);
    if denied.Some? {
      return Err(denied.value), files;
    }
    var report;
    report, files := svc.CreateIndex(env);
    if report.success {
      r := Ok(IndexOutcome("success", report.message, report.indexedFiles, report.totalChunks));
    } else {
      r := Err(HttpError(500, report.message));
    }
  }

  /** POST /api/rag/index/reindex: an administrator drops the in-memory index and
      builds a new one. A failed rebuild leaves no index in memory, while the
      persisted one stays as it was. */
  method ReindexRoute(svc: Rag.RagService, env: Rag.Env, sessions: set<string>, cookie: Option<string>)
    returns (r: Result<IndexOutcome, HttpError>, ghost files: seq<KnowledgeService.FileInfo>)
    modifies svc
    ensures !Auth.IsAdmin(sessions, cookie) ==>
              r == Err(HttpError(401, "Admin authentication required"))
              && svc.index == old(svc.index) && svc.saved == old(svc.saved)
    ensures Auth.IsAdmin(sessions, cookie) ==>
              var c := Rag.Create(files, env);
              Rag.IsListing(env.dir, files)
              && (r.Ok? <==> c.report.success)
              && (r.Ok? ==> r.value == IndexOutcome("success", Recreated, c.report.indexedFiles, c.report.totalChunks))
              && (r.Err? ==> r == Err(HttpError(500, c.report.message)))
              && svc.index == c.built
              && svc.saved == (if c.report.success then c.built else old(svc.saved))
  {
    files := [];
    var denied := Auth.RequireAdmin(sessions, cookie);
    if denied.Some? {
      return Err(denied.value), files;
    }
    svc.index := None;
    var report;
    report, files := svc.CreateIndex(env);
    if report.success {
      r := Ok(IndexOutcome("success", Recreated, report.indexedFiles, report.totalChunks));
    } else {
      r := Err(HttpError(500, report.message));
    }
  }

  /** GET /api/rag/index/status: open to everyone; asking loads a persisted index
      into memory. */
  method StatusRoute(svc: Rag.RagService, env: Rag.Env) returns (st: IndexStatus)
    modifies svc
    ensures st.ready <==> old(svc.index).Some? || Rag.Loadable(old(svc.saved), env)
    ensures st.message == if st.ready then Ready else Rag.IndexMissing
    ensures svc.index == (if old(svc.index).None? && st.ready then old(svc.saved) else old(svc.index))
    ensures svc.saved == old(svc.saved)
  {
    var ready := svc.IsIndexReady(env);
    st := IndexStatus(ready, if ready then Ready else Rag.IndexMissing);
  }
}
