# MCP Knowledge Base: retrieval core in Dafny

This project models the retrieval engine of the MCP Knowledge Base RAG server,
and the deterministic parts around it. It covers:

- the line-window chunker;
- incremental ingestion with its map from path to file digest;
- file discovery and the change check;
- language tagging;
- the BM25 keyword index's top-k selection;
- Reciprocal Rank Fusion (RRF) in the hybrid retriever;
- citation extraction and the answer route's branches;
- the grounding prompt;
- the request and response schemas and the settings.

Each Python module is one Dafny module. Code that updates state is written
as Dafny methods and classes: the chunker loop, the ingestion loop,
`discover_files`, `model_dump_safe`, `get_settings`, the two RRF rank loops
and the citation loops. Each of these is proved to compute a pure function
that defines its result. The properties are then proved about those functions as lemmas.

| file | module | models |
|---|---|---|
| wrappers.dfy | Wrappers | `Option` (Python `None`) and `Result` (a raised exception) |
| text.dfy | Text | `str(n)`, `int(s)`, `"".join`, `sep.join`, `split()`, `split(c)`, `strip()`, `lower()`, `s[:n]` |
| schemas.dfy | Schemas | `core/schemas.py` |
| config.dfy | Config | `core/config.py` |
| parsers.dfy | Parsers | `ingest/parsers.py` |
| chunking.dfy | Chunking | `ingest/chunking.py` |
| readers.dfy | Readers | `ingest/readers.py` |
| pipeline.dfy | Pipeline | `ingest/pipeline.py` |
| sorting.dfy | Sorting | Python's stable `sorted(..., reverse=True)` on scored items |
| keyword_index.dfy | KeywordSearch | `search/keyword_index.py` |
| retriever.dfy | Retrieval | `search/retriever.py` |
| prompt_templates.dfy | Prompts | `llm/prompt_templates.py` |
| routes_query.dfy | QueryRoutes | `_extract_citations` and `answer` in `api/routes_query.py` |

Anything the core does not compute itself is a parameter of the model:

- the file system, as glob expansion, `Path.match`, file reads and read failures;
- the SHA-256 digest;
- the BM25 scorer;
- the vector store's ranked answer and the outcome of its `load`;
- the language model client;
- the clock.

Where a Python operation raises, the model returns `Failure` with the
exception's kind, or `None` for a rejected pydantic record.

One might expect no chunk to exceed `chunk_size` unless it is a single
over-long line. The code does not guarantee this: it appends the line after the carried overlap
without checking the size again (`ingest/chunking.py:94-99`). A chunk of two
or more lines can therefore exceed the size: `OversizedChunkWithTwoLines`
exhibits one. The model states what the code guarantees instead, as
`Chunking.Within`: a chunk over the size is a carried run of at most
`overlap` characters followed by exactly one line.

## Model

| member | source | states |
|---|---|---|
| Chunking.OverlapTailFacts | src/rag_server/ingest/chunking.py:85-96 | The lines carried into the next chunk are a suffix of the closed chunk, fit in `overlap` characters, and are as many as fit: the walk stops only at the start of the chunk or at a line that would overflow |
| Chunking.TextChunker.CarryOverlap | src/rag_server/ingest/chunking.py:85-96 | The backward walk with `insert(0, ...)` returns exactly that maximal fitting suffix, and its character count |
| Chunking.TextChunker.ChunkText | src/rag_server/ingest/chunking.py:58-114 | The chunk loop and final flush compute `ChunkLines`. There are no chunks exactly when there are no lines, and the list is well formed as in `ChunkLinesFacts` |
| Chunking.ChunkLinesFacts | src/rag_server/ingest/chunking.py:58-114 | No lines give no chunks. Each chunk holds 1 <= start <= end <= line count, exactly the text of those lines, and the metadata `{path, language}`. The first chunk starts at line 1 and the last ends at the last line. A next chunk starts no earlier than the previous start and at most one line after the previous end, and ends later. The repeated lines fit in `overlap` and are as many as the walk could take. A chunk closes only when its next line would not fit. A chunk over the size is a carried prefix of at most `overlap` characters plus one line |
| Chunking.FeedReached | src/rag_server/ingest/chunking.py:66-99 | After any number of lines, the loop state (closed chunks, current lines, current start) is well formed, and the current lines are exactly lines `start..n` |
| Chunking.ReachedSplit | src/rag_server/ingest/chunking.py:70-99 | A line that does not fit closes the current chunk and opens one made of the carried overlap plus that line, preserving well-formedness |
| Chunking.ReachedGrow | src/rag_server/ingest/chunking.py:98-99 | A line that fits joins the current chunk, preserving well-formedness |
| Chunking.Coverage | src/rag_server/ingest/chunking.py:63-108 | In a well-formed chunk list every line 1..n lies inside some chunk |
| Chunking.OversizedChunkWithTwoLines | src/rag_server/ingest/chunking.py:94-99 | With size 100 and overlap 50, lines of 60, 40 and 70 characters give a second chunk of lines 2..3 with 110 characters |
| Chunking.RepeatedStartLine | src/rag_server/ingest/chunking.py:95 | With size 100 and overlap 50, lines of 40 and 70 characters give chunks 1..1 and 1..2, which share their start line |
| Chunking.TextChunker.constructor | src/rag_server/ingest/chunking.py:38-45 | The chunker keeps the settings' chunk size and overlap |
| Pipeline.PriorHashes | src/rag_server/ingest/pipeline.py:53-60 | A clean run, or one without a readable hash file, starts from the empty map. Otherwise it starts from the stored map |
| Pipeline.IngestionPipeline.Ingest | src/rag_server/ingest/pipeline.py:49-124 | The run computes `Process` over the discovered files, with the caller's exclusions extended by the settings' list. The returned chunks, the saved map and `files_indexed` are its three parts. `stats.chunks` is the number of chunks, and the duration and timestamp are the given ones |
| Pipeline.IngestionPipeline.IngestFile | src/rag_server/ingest/pipeline.py:68-107 | One pass over a file computes `FileStep`. An empty or unreadable file is skipped. On a non-clean run, an unchanged file's stored digest is carried forward before anything that can raise, and a stored entry always exists there. Otherwise a file whose parsing or chunking raises is skipped, and any other file has its chunks tagged and appended, its digest recorded and the count incremented |
| Pipeline.TagChunks | src/rag_server/ingest/pipeline.py:90-100 | Every chunk of the file is stored in order with its text and lines and the metadata `{path, language, sha256}` of the whole file |
| Pipeline.ProcessCount | src/rag_server/ingest/pipeline.py:77-103 | `files_indexed` counts exactly the files that are non-empty, do not raise, and are clean-run or changed |
| Pipeline.FileStepChunks | src/rag_server/ingest/pipeline.py:70-103 | A file's pass appends exactly its tagged chunks when it is reprocessed and nothing otherwise, so chunks appear in discovery order |
| Pipeline.ProcessChunkOrigin | src/rag_server/ingest/pipeline.py:87-100 | Every emitted chunk is a tagged chunk of a file reprocessed in this run (on a non-clean run, a changed file), and so carries that file's path, language and whole-file digest |
| Pipeline.ProcessHashKeys | src/rag_server/ingest/pipeline.py:64-102 | The new map has an entry for a path exactly when a discovered file with that path is non-empty and is either carried forward unchanged or chunked without raising. It holds only paths discovered in this run |
| Pipeline.ProcessHashValues | src/rag_server/ingest/pipeline.py:77-102 | Each such file's entry is its current digest, whether carried forward or recorded, provided a path names one file within a run |
| Pipeline.CarriedRecorded | src/rag_server/ingest/pipeline.py:77-80 | On a non-clean run, a non-empty file whose current digest is stored is carried forward and not chunked, whether or not chunking it would raise |
| Pipeline.CleanIgnoresStored | src/rag_server/ingest/pipeline.py:55-77 | A clean run gives the same result whatever digests are stored |
| Pipeline.UnchangedRun | src/rag_server/ingest/pipeline.py:77-80 | When every non-empty file either has its current digest stored or raises when chunked, a non-clean run returns no chunks, counts no file, and takes every entry from the stored map |
| Pipeline.Rerun | src/rag_server/ingest/pipeline.py:77-121 | Running again with the map the previous run saved, over unchanged files, returns no chunks, indexes no file, and saves the same map. This holds even for a file whose chunking raised in the first run: it raises again and stays out of the map |
| Pipeline.IngestionPipeline.constructor | src/rag_server/ingest/pipeline.py:20-29 | The pipeline's reader and chunker are built from its settings |
| Readers.FileReader.DiscoverFiles | src/rag_server/ingest/readers.py:40-72 | `patterns` defaults to `["**/*"]`. The caller's exclude list, or a new empty one, is extended in place with the settings' globs. The result is `Discovered` under those lists, and every yielded entry passes the filters |
| Readers.Scan | src/rag_server/ingest/readers.py:57-72 | The nested pattern and glob loops yield, pattern by pattern and in glob order, the entries that are regular files, match no exclude glob and have an allowed suffix |
| Readers.DiscoveredCount | src/rag_server/ingest/readers.py:57-72 | An entry is yielded once per occurrence in each pattern's expansion when it passes the filters, and never otherwise: nothing is de-duplicated across patterns |
| Readers.DiscoveredMembership | src/rag_server/ingest/readers.py:57-72 | An entry is yielded exactly when some expansion holds it and it is a regular file, not excluded, with an allowed suffix |
| Readers.ReadFile | src/rag_server/ingest/readers.py:85-91 | A successful read gives the text and its digest, and a failed read gives `("", "")` |
| Readers.ShouldReindexFacts | src/rag_server/ingest/readers.py:103-107 | Without a stored digest the answer is true. Otherwise it is true exactly when the current digest differs from the stored one, and a failed read is reindexed whenever the stored digest is not empty |
| Readers.ShouldReindexInjective | src/rag_server/ingest/readers.py:103-107 | With an injective digest, a file is reindexed exactly when its text changed since its digest was stored |
| Parsers.Parse | src/rag_server/ingest/parsers.py:29-36 | `parse` returns the content unchanged for every suffix |
| Parsers.GetLanguageTotal | src/rag_server/ingest/parsers.py:74-85 | Every suffix, including none, gets one of eight language names |
| Parsers.GetLanguageIgnoresCase | src/rag_server/ingest/parsers.py:73 | Suffixes equal after lower-casing get the same language |
| Parsers.GetLanguageTable | src/rag_server/ingest/parsers.py:74-84 | Every suffix in `lang_map` is already lower case, so each gets its own table entry |
| Parsers.GetLanguageUpperCase | src/rag_server/ingest/parsers.py:73-84 | `.PY` gives python and `.Md` gives markdown |
| Parsers.GetLanguageFallback | src/rag_server/ingest/parsers.py:85 | An unlisted suffix and the empty suffix give text |
| KeywordSearch.TokenizeFacts | src/rag_server/search/keyword_index.py:38 | Tokens are non-empty and free of whitespace, spell out the non-whitespace characters of the lower-cased text, and do not depend on case |
| KeywordSearch.TokenizeCorpus | src/rag_server/search/keyword_index.py:37-39 | The corpus has one token list per chunk, in chunk order |
| KeywordSearch.DescOrderFacts | src/rag_server/search/keyword_index.py:101 | The argsort order lists every document position exactly once, from the highest score down |
| KeywordSearch.TopCount | src/rag_server/search/keyword_index.py:101 | `argsort()[-top_k:]` keeps `min(top_k, n)` positions for `top_k >= 1`, and all of them for `top_k == 0` |
| KeywordSearch.TopBeatsRest | src/rag_server/search/keyword_index.py:101 | A position left out of the top ones scores no higher than any kept one |
| KeywordSearch.PositiveFacts | src/rag_server/search/keyword_index.py:104-106 | The filter keeps exactly the positions with a strictly positive score, in order |
| KeywordSearch.SelectedFacts | src/rag_server/search/keyword_index.py:101-106 | Every reported position has a positive score, and scores never increase. At most `top_k` positions are reported for `top_k >= 1`, and every positive one for `top_k == 0`. A positive position left out scores no higher than any reported one |
| KeywordSearch.PickPositive | src/rag_server/search/keyword_index.py:103-106 | The result loop succeeds exactly when every selected position has a document, and then reports those documents with their scores, in order |
| KeywordSearch.SearchResults | src/rag_server/search/keyword_index.py:93-106 | With no index or no documents, `search` returns `[]`. Otherwise it returns exactly the selected documents and scores, or raises when a selected position lies past the documents |
| KeywordSearch.SearchBuilt | src/rag_server/search/keyword_index.py:83-108 | On an index built from its own documents, `search` never raises. It returns at most `top_k` documents for `top_k >= 1`, each from the index with a positive score, in non-increasing score order |
| KeywordSearch.KeywordIndex.Search | src/rag_server/search/keyword_index.py:83-108 | The method's guard, tokenisation, top-k slice and positive-score loop compute `SearchSpec` |
| KeywordSearch.KeywordIndex.BuildIndex | src/rag_server/search/keyword_index.py:29-39 | The chunks become the documents, and the index is built on their token lists |
| KeywordSearch.KeywordIndex.Save | src/rag_server/search/keyword_index.py:43-57 | Nothing is written when nothing is built. Otherwise both pickles hold the index and the documents |
| KeywordSearch.KeywordIndex.Load | src/rag_server/search/keyword_index.py:59-81 | `load` computes `LoadSpec` on the two files |
| KeywordSearch.LoadOutcome | src/rag_server/search/keyword_index.py:65-81 | `load` returns true exactly when both pickles load, and then takes both. A missing file or a failure returns false and keeps the documents, and it keeps the index unless only the documents pickle failed |
| KeywordSearch.SaveThenLoad | src/rag_server/search/keyword_index.py:43-81 | Saving a built index and loading it back succeeds and restores the same index and documents |
| KeywordSearch.PickFails | src/rag_server/search/keyword_index.py:104-106 | Once the result loop raises, the whole search raises |
| Retrieval.AddRankedFacts | src/rag_server/search/retriever.py:74-77 | A rank loop adds to each key the sum of `1/(60 + rank)` over the positions holding it and leaves other keys alone. It keeps, for each key, the document last listed under it, and lists new keys after the old ones |
| Retrieval.FuseCoherent | src/rag_server/search/retriever.py:69-83 | After both rank loops, `scores` and `doc_map` have the same keys, which are listed once each in insertion order |
| Retrieval.FuseFacts | src/rag_server/search/retriever.py:69-83 | A key is fused exactly when it occurs in either list. Its score is the sum of `1/(60 + rank)` over all occurrences in both lists, raw sub-scores ignored. Its document is the last keyword-list occurrence, or else the last vector-list one |
| Retrieval.HybridRetriever.Retrieve | src/rag_server/search/retriever.py:52-104 | `retrieve` asks both indices for `2 * top_k` candidates and computes `Fused` on their answers |
| Retrieval.Accumulate | src/rag_server/search/retriever.py:73-83 | A rank loop succeeds exactly when every listed document has a path, and then updates the two dictionaries and the key order as `AddRanked` does |
| Retrieval.Pass | src/rag_server/search/retriever.py:75-77 | One pass adds the rank's contribution to the key's score, keeps the document, and appends the key to the order when it is new |
| Retrieval.RankingFacts | src/rag_server/search/retriever.py:86 | The ranking is in non-increasing score order, and keys of equal score keep their insertion order (a stable sort). Every entry is a fused key with its fused score, and every key of either list has an entry |
| Sorting.SortDescFacts | src/rag_server/search/retriever.py:86 | The sort is a permutation of the items, non-increasing in score, and stable: the items of each score keep their input order |
| Retrieval.FusedFacts | src/rag_server/search/retriever.py:86-101 | At most `top_k` matches are returned, one per leading ranking entry. Each has the fused score, the document's path, lines and metadata, and the first 500 characters of its content. The conversion raises exactly when one of those documents has a line number below 1 |
| Retrieval.ConvertFacts | src/rag_server/search/retriever.py:89-101 | The conversion loop succeeds exactly when every converted document has both line numbers at least 1, and then converts each entry in order |
| Retrieval.ToMatches | src/rag_server/search/retriever.py:89-101 | The `Match` construction loop computes `Convert` |
| Retrieval.ConvertFails | src/rag_server/search/retriever.py:92-101 | Once a `Match` construction raises, the conversion raises |
| Retrieval.FusedEmpty | src/rag_server/search/retriever.py:65-90 | Two empty candidate lists give no matches |
| Retrieval.DocIdSame | src/rag_server/search/retriever.py:75 | Two documents share a fusion key exactly when they have the same path and start line |
| Retrieval.SplitAtLastColon | src/rag_server/search/retriever.py:75 | A key splits uniquely at its last colon when the line part has no colon |
| Retrieval.FirstInBoth | src/rag_server/search/retriever.py:74-83 | A document ranked first in both lists scores 2/61, and the keyword list's copy is kept |
| Retrieval.FirstInOne | src/rag_server/search/retriever.py:74-86 | A document first in both lists ranks above one that is second in one list only, 2/61 against 1/62 |
| Retrieval.TieKeepsInsertionOrder | src/rag_server/search/retriever.py:86 | Two documents each first in one list tie at 1/61 and keep insertion order, the vector one first |
| Retrieval.SameStartCollide | src/rag_server/search/retriever.py:75-77 | Two chunks of one file with the same start line share one key: it gets both contributions and only the later chunk survives |
| Retrieval.HybridRetriever.BuildIndices | src/rag_server/search/retriever.py:27-35 | Both indices are built from the same chunks |
| Retrieval.HybridRetriever.Save | src/rag_server/search/retriever.py:37-40 | Saving is delegated to the keyword index's `save` |
| Retrieval.HybridRetriever.Load | src/rag_server/search/retriever.py:42-50 | Both loads always run, and the result is the AND of the two outcomes |
| Retrieval.HybridRetriever.constructor | src/rag_server/search/retriever.py:17-25 | The retriever starts with a new vector store and an empty, unbuilt keyword index |
| Sorting.SortDescMembers | src/rag_server/search/retriever.py:86 | The sort keeps exactly the items of its input |
| Sorting.SliceEnd | src/rag_server/search/retriever.py:86 | `[:top_k]` keeps `min(top_k, n)` items for `top_k >= 0`, and drops `-top_k` from the end otherwise |
| QueryRoutes.MatchAtOccurrence | src/rag_server/api/routes_query.py:107-108 | The scanner finds a hit at a position exactly when the pattern `path:digits-digits` matches a prefix there. The hit's groups are that occurrence's parts, and the hit is the longest match |
| QueryRoutes.FindAllNonEmpty | src/rag_server/api/routes_query.py:108-110 | `findall` finds something exactly when some occurrence of the pattern exists in the answer |
| QueryRoutes.FindAllAppend | src/rag_server/api/routes_query.py:108 | Across a character that cannot extend a match, the hits of a concatenation are the hits of each part, left to right |
| QueryRoutes.ExtractCitations | src/rag_server/api/routes_query.py:94-120 | `_extract_citations` computes `Extract`: the hits when there are any, otherwise every match |
| QueryRoutes.CiteHits | src/rag_server/api/routes_query.py:111-112 | The loop over the hits builds one citation per hit with `int` of both digit runs, and raises at the first invalid one |
| QueryRoutes.CiteMatches | src/rag_server/api/routes_query.py:115-118 | The fallback loop builds one citation per match from its path and lines |
| QueryRoutes.CiteAllFacts | src/rag_server/api/routes_query.py:111-118 | Building citations succeeds exactly when every line number is at least 1, and then keeps every reference in order. Otherwise it raises a validation error |
| QueryRoutes.CiteAllFails | src/rag_server/api/routes_query.py:111-112 | Once a citation construction raises, the whole extraction raises |
| QueryRoutes.ExtractFound | src/rag_server/api/routes_query.py:110-112 | With hits, the citations are exactly the hits, left to right and non-overlapping, with paths of `[a-zA-Z0-9/_.-]` and decimal line numbers. A line number 0 raises instead |
| QueryRoutes.ExtractFallback | src/rag_server/api/routes_query.py:113-118 | Without hits there is one citation per match, in match order, with that match's path and lines |
| QueryRoutes.ExtractListing | src/rag_server/api/routes_query.py:107-112 | An answer ending with a "Sources:" list in the prompt's `- path:start-end` form, after text with no hit, is cited with exactly the listed citations |
| QueryRoutes.ListingHits | src/rag_server/api/routes_query.py:107-108 | A written list of citations gives one hit per citation, in order |
| QueryRoutes.CitationTextHit | src/rag_server/api/routes_query.py:107-108 | A written `path:start-end` is exactly one hit, whose groups are the path and the decimal digits of both numbers |
| QueryRoutes.HitsOfRefs | src/rag_server/api/routes_query.py:112 | Reading back the hits of written citations gives their paths and numbers |
| QueryRoutes.ZeroLineRaises | src/rag_server/api/routes_query.py:112 | A cited line number 0 breaks `Citation`'s bound, and the extraction raises |
| QueryRoutes.AnswerWithoutMatches | src/rag_server/api/routes_query.py:58-59 | No matches give a 404 whatever the provider, before the model is asked |
| QueryRoutes.AnswerRetrievalOnly | src/rag_server/api/routes_query.py:62-68 | With provider `none`, the model is not asked. The fixed retrieval-only text comes back with the matches and one citation per match |
| QueryRoutes.AnswerGenerated | src/rag_server/api/routes_query.py:70-85 | With a provider, the model's answer to the grounding prompt is the final text, and the citations are extracted from it. An extraction error is a 500 |
| QueryRoutes.AnswerZeroLine | src/rag_server/api/routes_query.py:83-91 | A model answer citing line 0 makes the request a 500 |
| Prompts.BuildGroundingPrompt | src/rag_server/llm/prompt_templates.py:16-39 | The loop over the matches and the join compute `GroundingPrompt` |
| Prompts.EntryInContext | src/rag_server/llm/prompt_templates.py:18-24 | The `k`-th match's entry, numbered `k + 1`, ends the context of the first `k + 1` matches, which begins the whole context. A single newline precedes every entry except the first |
| Prompts.ContextEmpty | src/rag_server/llm/prompt_templates.py:24 | The context is empty exactly when there are no matches |
| Prompts.PromptLayout | src/rag_server/llm/prompt_templates.py:26-37 | The prompt starts with the fixed instructions, which end with "User question:\n". The question follows verbatim, then the context heading, and the prompt ends with the closing "Sources:" instruction |
| Prompts.PromptWithoutMatches | src/rag_server/llm/prompt_templates.py:24-37 | Without matches, the context heading runs straight into the closing instruction |
| Schemas.NewMatch | src/rag_server/core/schemas.py:8-16 | A match is accepted exactly when both line numbers are at least 1, with no order between them, and keeps its fields. Metadata defaults to the empty map |
| Schemas.NewCitation | src/rag_server/core/schemas.py:19-24 | A citation is accepted exactly when both line numbers are at least 1, with no order between them |
| Schemas.NewQueryRequest | src/rag_server/core/schemas.py:27-31 | `top_k` defaults to 8 and is accepted exactly in [1, 50] |
| Schemas.NewAnswerRequest | src/rag_server/core/schemas.py:34-37 | An answer request has the query fields with the same rule, and `max_tokens` defaults to 512 and is accepted exactly in [50, 4000] |
| Schemas.AnswerRequestIsQueryRequest | src/rag_server/core/schemas.py:34 | An accepted answer request's query part is an accepted query request |
| Schemas.NewIndexBuildRequest | src/rag_server/core/schemas.py:54-64 | The defaults are root "./", clean false, patterns `["**/*"]` and exclude `[]`. Given fields are kept |
| Config.DefaultsValid | src/rag_server/core/config.py:35-43 | The defaults are top_k 8, chunk size 800, overlap 120 and provider none, and they satisfy the field bounds |
| Config.OverlapMayExceedChunkSize | src/rag_server/core/config.py:36-37 | Valid settings can have an overlap larger than the chunk size |
| Config.CommaListFacts | src/rag_server/core/config.py:52-59 | The list properties split on every comma, losing nothing, and give one stripped entry per piece |
| Config.CommaListRoundTrip | src/rag_server/core/config.py:52-59 | Entries without commas or outer whitespace, joined with commas, parse back to the same entries |
| Config.DefaultListLiterals | src/rag_server/core/config.py:25-30 | The default `RAG_ALLOWED_FILETYPES` and `RAG_EXCLUDE_GLOBS` are exactly the two comma-separated strings of the field defaults |
| Config.DefaultFiletypes | src/rag_server/core/config.py:25-27 | The default `allowed_filetypes` is the 11 listed extensions |
| Config.DefaultExcludes | src/rag_server/core/config.py:28-30 | The default `exclude_globs` is the 9 listed globs |
| Config.DumpKeys | src/rag_server/core/config.py:63 | `model_dump` has exactly the field names as keys |
| Config.SanitizeDump | src/rag_server/core/config.py:63-72 | The two secret checks and the loop over the items keep the keys. Every value becomes its safe form: a non-empty secret is redacted, a path becomes its string, and anything else is unchanged |
| Config.DumpSafe | src/rag_server/core/config.py:61-72 | `model_dump_safe` is that sanitised dump of `model_dump` |
| Config.SafeDumpFacts | src/rag_server/core/config.py:63-71 | Non-empty API keys become "***REDACTED***" and empty ones stay empty. Both directories become strings, no value is a path, and every other value is unchanged |
| Config.SettingsRegistry.GetSettings | src/rag_server/core/config.py:79-87 | The first call creates the settings object, and later calls return that same object |
| Config.GetSettingsTwice | src/rag_server/core/config.py:79-87 | Two calls return the same object, whatever the environment says in between |
| Text.DigitsValueOfNatToString | src/rag_server/api/routes_query.py:112 | `int(str(n)) == n` for every natural number |
| Text.SplitOnJoinInverse | src/rag_server/core/config.py:54 | Joining comma-free pieces with commas and splitting on commas gives the pieces back |
| Text.WordsFacts | src/rag_server/search/keyword_index.py:38 | `split()` gives non-empty, whitespace-free words that spell out the non-whitespace text |
| Text.StripFacts | src/rag_server/core/config.py:54 | `strip()` removes exactly the leading and trailing whitespace and nothing else |
| Text.LowerIdempotent | src/rag_server/ingest/parsers.py:73 | Lower-casing twice is lower-casing once |

## Left out

- Python's `splitlines(keepends=True)`: a file's text is given as its lines, and the content is their concatenation.
- Text.Lower: lower-cases ASCII letters only, because `str.lower` follows Unicode case tables.
- QueryRoutes.HitRefs: reads a digit run of any length, but CPython's `int()` raises `ValueError` above 4300 digits by default (`sys.int_max_str_digits`), which `answer` turns into a 500. The model's QueryRoutes.CiteAll does not fail on such a citation.
- QueryRoutes.InClass: `\d` is the ASCII digits, because Python's `\d` on `str` also matches other Unicode decimal digits.
- Readers.ShouldReindex: the second read inside `should_reindex` is the same read result `ingest` obtained, because the file system is a parameter that cannot change between the two reads.
- Pipeline.Process: a file whose handling raises is given by the oracle `fails`; the model does not compute which Python operations raise.
- Pipeline.PriorHashes: a hash file whose JSON is not an object of strings is not modelled; the loaded map is either a string map or nothing.
- Writing `file_hashes.json` and the pickles, creating directories, and the failure to write: the model returns the saved map or records the written value.
- Environment and `.env` parsing by pydantic-settings, including case-insensitive names: settings are given as values that satisfy `Config.Valid`.
- Logging, the `discovered` counter used only for a log line, and the HTTP exception details: errors carry the exception's kind instead of its message.
- Readers.FileReader.DiscoverFiles: a glob expansion or `Path.match` that raises is not modelled; `glob` and `matches` are total. In Python an empty pattern raises `ValueError`, and an empty exclude entry comes from an empty or trailing-comma `RAG_EXCLUDE_GLOBS` or from a request's `exclude`. The discovery loop is outside the per-file `try`, so such a run of Pipeline.IngestionPipeline.Ingest aborts without saving hashes, while the model always completes the run.
- Readers.FileReader.DiscoverFiles: returns the whole list at once, because generator laziness does not change what `ingest` sees; `exclude` is extended before any entry is produced, as it is on the first iteration.
- The vector store: its search result is the parameter `vectorSearch`, which may list any documents, duplicates included, and its `load` outcome is a parameter. Retrieval.HybridRetriever.Save covers only the keyword half.
- KeywordSearch.DescOrder: ties are ordered by a stable descending sort over positions taken from last to first, because NumPy's `argsort` leaves the order of equal scores unspecified; only the ordering by score is claimed.
- BM25 scoring: `get_scores` is the opaque parameter `scorer`, one score per document.
- Floating point: RRF contributions and BM25 scores are exact reals, with no rounding.
- The `/query` route and the routes in other files: `/query` only returns `retrieve`'s matches or a 500.
- The LLM clients: `generate` is the parameter giving the configured client's answer or error. Async execution and singleton races are not modelled.
- Retrieval.AddRanked: passes over an entry without a path instead of raising. Retrieval.Fused raises `KeyError` before fusing in that case, so `retrieve` still raises as the source does.
- Schemas: `QueryResponse`, `IndexBuildResponse` and `IndexStatsResponse` carry no constraint and are not modelled. `HealthResponse`'s defaults are the constant `Schemas.DefaultHealth`.
- Match and chunk metadata are maps from strings to strings, because every value the core stores is a string.
