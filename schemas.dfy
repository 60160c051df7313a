/**
  The request and response records of the service. Each pydantic model is a
  datatype; its field constraints are a validity predicate, and building a
  model from raw fields (with the declared defaults) is a function that
  yields `None` exactly when pydantic would raise a validation error.
*/
module Schemas {
  import opened Wrappers

  /** `dict[str, Any]` metadata of a chunk or match; every value the core stores is a string. */
  type Metadata = map<string, string>

  /** A ranked search result. */
  datatype Match = Match(score: real, path: string, startLine: int, endLine: int, snippet: string, metadata: Metadata)

  /** A reference to a line range of a file. */
  datatype Citation = Citation(path: string, startLine: int, endLine: int)

  datatype QueryRequest = QueryRequest(q: string, topK: int)

  /** `AnswerRequest` extends `QueryRequest` with a token budget. */
  datatype AnswerRequest = AnswerRequest(q: string, topK: int, maxTokens: int)

  datatype IndexBuildRequest = IndexBuildRequest(root: string, clean: bool, patterns: seq<string>, exclude: seq<string>)

  datatype AnswerResponse = AnswerResponse(final: string, citations: seq<Citation>, matches: seq<Match>)

  datatype HealthResponse = HealthResponse(status: string, version: string)

  /** The exception raised when a record is built from fields that break a constraint. */
  const ValidationError: string := "ValidationError"

  const DefaultTopK: int := 8
  const DefaultMaxTokens: int := 512

  /** `start_line` and `end_line` are at least 1; nothing orders them. */
  predicate ValidMatch(m: Match) {
    m.startLine >= 1 && m.endLine >= 1
  }

  predicate ValidCitation(c: Citation) {
    c.startLine >= 1 && c.endLine >= 1
  }

  predicate ValidQueryRequest(r: QueryRequest) {
    1 <= r.topK <= 50
  }

  predicate ValidAnswerRequest(r: AnswerRequest) {
    1 <= r.topK <= 50 && 50 <= r.maxTokens <= 4000
  }

  /** `Match(...)`; an omitted `metadata` is the empty map. */
  function NewMatch(score: real, path: string, startLine: int, endLine: int, snippet: string, metadata: Option<Metadata>): (r: Option<Match>)
    ensures r.Some? <==> startLine >= 1 && endLine >= 1
    ensures r.Some? ==> ValidMatch(r.value) && r.value.path == path && r.value.score == score
    ensures r.Some? ==> r.value.startLine == startLine && r.value.endLine == endLine && r.value.snippet == snippet
    ensures r.Some? && metadata.None? ==> r.value.metadata == map[]
    ensures r.Some? && metadata.Some? ==> r.value.metadata == metadata.value
  {
    if startLine >= 1 && endLine >= 1 then Some(Match(score, path, startLine, endLine, snippet, metadata.GetOr(map[]))) else None
  }

  /** `Citation(...)`: rejected when either line number is below 1. */
  function NewCitation(path: string, startLine: int, endLine: int): (r: Option<Citation>)
    ensures r.Some? <==> startLine >= 1 && endLine >= 1
    ensures r.Some? ==> ValidCitation(r.value) && r.value == Citation(path, startLine, endLine)
  {
    var c := Citation(path, startLine, endLine);
    if ValidCitation(c) then Some(c) else None
  }

  /** `QueryRequest(q=..., top_k=...)`: `top_k` defaults to 8 and must lie in [1, 50]. */
  function NewQueryRequest(q: string, topK: Option<int>): (r: Option<QueryRequest>)
    ensures r.Some? <==> topK.None? || 1 <= topK.value <= 50
    ensures r.Some? ==> ValidQueryRequest(r.value) && r.value.q == q
    ensures r.Some? && topK.None? ==> r.value.topK == 8
    ensures r.Some? && topK.Some? ==> r.value.topK == topK.value
  {
    var req := QueryRequest(q, topK.GetOr(DefaultTopK));
    if ValidQueryRequest(req) then Some(req) else None
  }

  /** `AnswerRequest(...)`: the query fields as above, `max_tokens` defaults to 512 and must lie in [50, 4000]. */
  function NewAnswerRequest(q: string, topK: Option<int>, maxTokens: Option<int>): (r: Option<AnswerRequest>)
    ensures r.Some? <==> (topK.None? || 1 <= topK.value <= 50) && (maxTokens.None? || 50 <= maxTokens.value <= 4000)
    ensures r.Some? ==> ValidAnswerRequest(r.value) && r.value.q == q
    ensures r.Some? ==> r.value.topK == (if topK.None? then 8 else topK.value)
    ensures r.Some? ==> r.value.maxTokens == (if maxTokens.None? then 512 else maxTokens.value)
  {
    var req := AnswerRequest(q, topK.GetOr(DefaultTopK), maxTokens.GetOr(DefaultMaxTokens));
    if ValidAnswerRequest(req) then Some(req) else None
  }

  /** An answer request is a query request: its query part validates on its own. */
  lemma AnswerRequestIsQueryRequest(q: string, topK: Option<int>, maxTokens: Option<int>)
    requires NewAnswerRequest(q, topK, maxTokens).Some?
    ensures NewQueryRequest(q, topK).Some?
    ensures NewQueryRequest(q, topK).value.topK == NewAnswerRequest(q, topK, maxTokens).value.topK
  {
  }

  /** `IndexBuildRequest(...)`: every field has a default and none is constrained. */
  function NewIndexBuildRequest(root: Option<string>, clean: Option<bool>, patterns: Option<seq<string>>, exclude: Option<seq<string>>): (r: IndexBuildRequest)
    ensures root.None? ==> r.root == "./"
    ensures clean.None? ==> !r.clean
    ensures patterns.None? ==> r.patterns == ["**/*"]
    ensures exclude.None? ==> r.exclude == []
    ensures root.Some? ==> r.root == root.value
    ensures clean.Some? ==> r.clean == clean.value
    ensures patterns.Some? ==> r.patterns == patterns.value
    ensures exclude.Some? ==> r.exclude == exclude.value
  {
    IndexBuildRequest(root.GetOr("./"), clean.GetOr(false), patterns.GetOr(["**/*"]), exclude.GetOr([]))
  }

  /** `HealthResponse()` with its defaults, the body of `GET /health`. */
  const DefaultHealth: HealthResponse := HealthResponse("ok", "0.1.0")
}
