/**
  Application settings: the fields with their defaults and bounds, the
  comma-separated lists, the redacted dump and the create-once accessor.
*/
module Config {
  import opened Wrappers
  import opened Text

  /** `RAG_LLM_PROVIDER`, a `Literal["openai", "ollama", "none"]`. */
  datatype Provider = OpenAI | Ollama | NoProvider

  /** `RAG_VECTOR_STORE`, a `Literal["faiss", "chroma"]`. */
  datatype VectorBackend = Faiss | Chroma

  /** The settings fields; the two `Path` fields hold their string form. */
  datatype Settings = Settings(
    dataDir: string,
    indexDir: string,
    allowedFiletypesRaw: string,
    excludeGlobsRaw: string,
    embeddingModel: string,
    vectorStore: VectorBackend,
    topK: int,
    chunkSize: int,
    chunkOverlap: int,
    apiKey: string,
    provider: Provider,
    openaiApiKey: string,
    ollamaEndpoint: string,
    llmModel: string,
    logLevel: string)

  /** The default allow-list, one entry per extension; the default `RAG_ALLOWED_FILETYPES` is these joined by commas. */
  const DefaultFiletypeList: seq<string> := [".py", ".php", ".js", ".ts", ".md", ".mdx", ".json", ".yml", ".yaml", ".ini", ".txt"]

  /** The default exclusions, one entry per glob; the default `RAG_EXCLUDE_GLOBS` is these joined by commas. */
  const DefaultExcludeList: seq<string> := ["node_modules", "dist", "build", ".git", "venv", ".venv", "__pycache__", "*.pyc", ".DS_Store"]

  /** The values used when the environment sets nothing (`Path("./data")` prints as `data`). */
  const Defaults: Settings := Settings(
    "data",
    "data/index",
    Join(DefaultFiletypeList, ","),
    Join(DefaultExcludeList, ","),
    "sentence-transformers/all-MiniLM-L6-v2",
    Faiss,
    8,
    800,
    120,
    "dev-secret",
    NoProvider,
    "",
    "http://localhost:11434",
    "gpt-4o-mini",
    "INFO")

  /** The two default list settings, written out as the strings the field defaults give. */
  lemma DefaultListLiterals()
    ensures Defaults.allowedFiletypesRaw == ".py,.php,.js,.ts,.md,.mdx,.json,.yml,.yaml,.ini,.txt"
    ensures Defaults.excludeGlobsRaw == "node_modules,dist,build,.git,venv,.venv,__pycache__,*.pyc,.DS_Store"
  {
    DefaultFiletypeLiteral();
    DefaultExcludeLiteral();
  }

  /** The comma-join of the default extensions, character for character. */
  lemma DefaultFiletypeLiteral()
    ensures Join(DefaultFiletypeList, ",") == ".py,.php,.js,.ts,.md,.mdx,.json,.yml,.yaml,.ini,.txt"
  {
    var l := DefaultFiletypeList;
    assert Join(l[..1], ",") == ".py";
    JoinStep(l, 1, ",", ".py", ".py,.php");
    JoinStep(l, 2, ",", ".py,.php", ".py,.php,.js");
    JoinStep(l, 3, ",", ".py,.php,.js", ".py,.php,.js,.ts");
    JoinStep(l, 4, ",", ".py,.php,.js,.ts", ".py,.php,.js,.ts,.md");
    JoinStep(l, 5, ",", ".py,.php,.js,.ts,.md", ".py,.php,.js,.ts,.md,.mdx");
    JoinStep(l, 6, ",", ".py,.php,.js,.ts,.md,.mdx", ".py,.php,.js,.ts,.md,.mdx,.json");
    JoinStep(l, 7, ",", ".py,.php,.js,.ts,.md,.mdx,.json", ".py,.php,.js,.ts,.md,.mdx,.json,.yml");
    JoinStep(l, 8, ",", ".py,.php,.js,.ts,.md,.mdx,.json,.yml", ".py,.php,.js,.ts,.md,.mdx,.json,.yml,.yaml");
    JoinStep(l, 9, ",", ".py,.php,.js,.ts,.md,.mdx,.json,.yml,.yaml", ".py,.php,.js,.ts,.md,.mdx,.json,.yml,.yaml,.ini");
    JoinStep(l, 10, ",", ".py,.php,.js,.ts,.md,.mdx,.json,.yml,.yaml,.ini", ".py,.php,.js,.ts,.md,.mdx,.json,.yml,.yaml,.ini,.txt");
    assert l[..|l|] == l;
  }

  /** The comma-join of the default exclusions, character for character. */
  lemma DefaultExcludeLiteral()
    ensures Join(DefaultExcludeList, ",") == "node_modules,dist,build,.git,venv,.venv,__pycache__,*.pyc,.DS_Store"
  {
    var l := DefaultExcludeList;
    assert Join(l[..1], ",") == "node_modules";
    JoinStep(l, 1, ",", "node_modules", "node_modules,dist");
    JoinStep(l, 2, ",", "node_modules,dist", "node_modules,dist,build");
    JoinStep(l, 3, ",", "node_modules,dist,build", "node_modules,dist,build,.git");
    JoinStep(l, 4, ",", "node_modules,dist,build,.git", "node_modules,dist,build,.git,venv");
    JoinStep(l, 5, ",", "node_modules,dist,build,.git,venv", "node_modules,dist,build,.git,venv,.venv");
    JoinStep(l, 6, ",", "node_modules,dist,build,.git,venv,.venv", "node_modules,dist,build,.git,venv,.venv,__pycache__");
    JoinStep(l, 7, ",", "node_modules,dist,build,.git,venv,.venv,__pycache__", "node_modules,dist,build,.git,venv,.venv,__pycache__,*.pyc");
    JoinStep(l, 8, ",", "node_modules,dist,build,.git,venv,.venv,__pycache__,*.pyc", "node_modules,dist,build,.git,venv,.venv,__pycache__,*.pyc,.DS_Store");
    assert l[..|l|] == l;
  }

  /** Joining one more part appends the separator and that part. */
  lemma JoinStep(parts: seq<string>, k: nat, sep: string, joined: string, next: string)
    requires 1 <= k < |parts|
    requires Join(parts[..k], sep) == joined
    requires joined + sep + parts[k] == next
    ensures Join(parts[..k + 1], sep) == next
  {
    assert parts[..k + 1][..k] == parts[..k];
  }

  /** The field bounds pydantic enforces; nothing relates the overlap to the chunk size. */
  predicate Valid(s: Settings) {
    && 1 <= s.topK <= 100
    && 100 <= s.chunkSize <= 5000
    && 0 <= s.chunkOverlap <= 500
  }

  lemma DefaultsValid()
    ensures Valid(Defaults)
    ensures Defaults.topK == 8 && Defaults.chunkSize == 800 && Defaults.chunkOverlap == 120
    ensures Defaults.provider == NoProvider
  {
  }

  /** Valid settings may carry an overlap larger than the chunk size. */
  lemma OverlapMayExceedChunkSize()
    ensures Valid(Defaults.(chunkSize := 100, chunkOverlap := 500))
    ensures Defaults.(chunkSize := 100, chunkOverlap := 500).chunkOverlap > Defaults.(chunkSize := 100, chunkOverlap := 500).chunkSize
  {
  }

  /** `[p.strip() for p in pieces]`. */
  function StripEach(pieces: seq<string>): (r: seq<string>)
    ensures |r| == |pieces|
    ensures forall k :: 0 <= k < |r| ==> r[k] == Strip(pieces[k])
  {
    if pieces == [] then [] else StripEach(pieces[..|pieces| - 1]) + [Strip(pieces[|pieces| - 1])]
  }

  /** The property `allowed_filetypes`. */
  function AllowedFiletypes(s: Settings): seq<string> {
    StripEach(SplitOn(s.allowedFiletypesRaw, ','))
  }

  /** The property `exclude_globs`. */
  function ExcludeGlobs(s: Settings): seq<string> {
    StripEach(SplitOn(s.excludeGlobsRaw, ','))
  }

  /** A comma list yields one stripped entry per comma-separated piece. */
  lemma CommaListFacts(raw: string)
    ensures var pieces := SplitOn(raw, ',');
      && Join(pieces, ",") == raw
      && |StripEach(pieces)| == |pieces|
      && forall k :: 0 <= k < |pieces| ==> StripEach(pieces)[k] == Strip(pieces[k])
  {
    SplitOnJoin(raw, ',');
  }

  /** An entry that survives the comma split and the strip unchanged. */
  predicate PlainEntry(p: string) {
    && Free(p, ',')
    && (p == "" || (!IsSpace(p[0]) && !IsSpace(p[|p| - 1])))
  }

  /** Joining plain entries with commas and parsing the result gives the entries back. */
  lemma CommaListRoundTrip(entries: seq<string>)
    requires |entries| >= 1
    requires forall k :: 0 <= k < |entries| ==> PlainEntry(entries[k])
    ensures StripEach(SplitOn(Join(entries, ","), ',')) == entries
  {
    SplitOnJoinInverse(entries, ',');
    StripEachUnchanged(entries);
  }

  /** The default allow-list parses to its 11 extensions. */
  lemma DefaultFiletypes()
    ensures AllowedFiletypes(Defaults) == DefaultFiletypeList
    ensures |DefaultFiletypeList| == 11
  {
    forall k | 0 <= k < |DefaultFiletypeList| ensures PlainEntry(DefaultFiletypeList[k]) {}
    CommaListRoundTrip(DefaultFiletypeList);
  }

  /** The default exclusions parse to their 9 globs. */
  lemma DefaultExcludes()
    ensures ExcludeGlobs(Defaults) == DefaultExcludeList
    ensures |DefaultExcludeList| == 9
  {
    forall k | 0 <= k < |DefaultExcludeList| ensures PlainEntry(DefaultExcludeList[k]) {}
    CommaListRoundTrip(DefaultExcludeList);
  }

  lemma StripEachUnchanged(pieces: seq<string>)
    requires forall k :: 0 <= k < |pieces| ==> pieces[k] == "" || (!IsSpace(pieces[k][0]) && !IsSpace(pieces[k][|pieces[k]| - 1]))
    ensures StripEach(pieces) == pieces
  {
    forall k | 0 <= k < |pieces|
      ensures StripEach(pieces)[k] == pieces[k]
    {
      StripUnchanged(pieces[k]);
    }
  }

  /** A value of `model_dump()`: a string, a `Path` or an integer. */
  datatype Value = Str(text: string) | PathValue(path: string) | IntValue(number: int)

  /** The dump key of every field, in declaration order. */
  const FieldNames: seq<string> := [
    "RAG_DATA_DIR", "RAG_INDEX_DIR", "RAG_ALLOWED_FILETYPES", "RAG_EXCLUDE_GLOBS",
    "RAG_EMBEDDING_MODEL", "RAG_VECTOR_STORE", "RAG_TOP_K", "RAG_CHUNK_SIZE",
    "RAG_CHUNK_OVERLAP", "RAG_API_KEY", "RAG_LLM_PROVIDER", "OPENAI_API_KEY",
    "OLLAMA_ENDPOINT", "LLM_MODEL", "LOG_LEVEL"]

  const Redacted: string := "***REDACTED***"

  function ProviderName(p: Provider): string {
    match p
    case OpenAI => "openai"
    case Ollama => "ollama"
    case NoProvider => "none"
  }

  function BackendName(b: VectorBackend): string {
    match b
    case Faiss => "faiss"
    case Chroma => "chroma"
  }

  /** `model_dump()`: every field under its name, the two directories still as paths. */
  function Dump(s: Settings): map<string, Value> {
    map[
      "RAG_DATA_DIR" := PathValue(s.dataDir),
      "RAG_INDEX_DIR" := PathValue(s.indexDir),
      "RAG_ALLOWED_FILETYPES" := Str(s.allowedFiletypesRaw),
      "RAG_EXCLUDE_GLOBS" := Str(s.excludeGlobsRaw),
      "RAG_EMBEDDING_MODEL" := Str(s.embeddingModel),
      "RAG_VECTOR_STORE" := Str(BackendName(s.vectorStore)),
      "RAG_TOP_K" := IntValue(s.topK),
      "RAG_CHUNK_SIZE" := IntValue(s.chunkSize),
      "RAG_CHUNK_OVERLAP" := IntValue(s.chunkOverlap),
      "RAG_API_KEY" := Str(s.apiKey),
      "RAG_LLM_PROVIDER" := Str(ProviderName(s.provider)),
      "OPENAI_API_KEY" := Str(s.openaiApiKey),
      "OLLAMA_ENDPOINT" := Str(s.ollamaEndpoint),
      "LLM_MODEL" := Str(s.llmModel),
      "LOG_LEVEL" := Str(s.logLevel)]
  }

  /** The dump has exactly the field names as keys. */
  lemma DumpKeys(s: Settings)
    ensures forall k :: k in Dump(s) <==> k in FieldNames
  {
  }

  predicate IsSecret(key: string) {
    key == "OPENAI_API_KEY" || key == "RAG_API_KEY"
  }

  /** Python truthiness of a dumped value. */
  predicate Truthy(v: Value) {
    match v
    case Str(t) => t != ""
    case PathValue(_) => true
    case IntValue(i) => i != 0
  }

  /** What the safe dump holds under `key` for the dumped value `v`. */
  function SafeValue(key: string, v: Value): Value {
    if IsSecret(key) && Truthy(v) then Str(Redacted)
    else if v.PathValue? then Str(v.path)
    else v
  }

  /** The dump after the two secret checks, before the path conversion. */
  function Redact(key: string, v: Value): Value {
    if IsSecret(key) && Truthy(v) then Str(Redacted) else v
  }

  /** `model_dump_safe`: redact non-empty secrets, then turn every path into its string. */
  method DumpSafe(s: Settings) returns (data: map<string, Value>)
    ensures data.Keys == Dump(s).Keys
    ensures forall k :: k in data ==> data[k] == SafeValue(k, Dump(s)[k])
  {
    data := SanitizeDump(Dump(s));
  }

  /** The body of `model_dump_safe` after `model_dump()`: the two secret checks, then one pass over the items. */
  method SanitizeDump(d: map<string, Value>) returns (data: map<string, Value>)
    ensures data.Keys == d.Keys
    ensures forall k :: k in data ==> data[k] == SafeValue(k, d[k])
  {
    data := d;
    if "OPENAI_API_KEY" in data && Truthy(data["OPENAI_API_KEY"]) {
      data := data["OPENAI_API_KEY" := Str(Redacted)];
    }
    if "RAG_API_KEY" in data && Truthy(data["RAG_API_KEY"]) {
      data := data["RAG_API_KEY" := Str(Redacted)];
    }
    var todo := data.Keys;
    while todo != {}
      invariant todo <= d.Keys
      invariant data.Keys == d.Keys
      invariant forall k :: k in data ==> data[k] == (if k in todo then Redact(k, d[k]) else SafeValue(k, d[k]))
      decreases |todo|
    {
      var key :| key in todo;
      if data[key].PathValue? {
        data := data[key := Str(data[key].path)];
      }
      todo := todo - {key};
    }
  }

  /** The safe dump hides non-empty secrets, keeps empty ones, and holds no path. */
  lemma SafeDumpFacts(s: Settings, data: map<string, Value>)
    requires data.Keys == Dump(s).Keys
    requires forall k :: k in data ==> data[k] == SafeValue(k, Dump(s)[k])
    ensures data["RAG_API_KEY"] == (if s.apiKey == "" then Str("") else Str(Redacted))
    ensures data["OPENAI_API_KEY"] == (if s.openaiApiKey == "" then Str("") else Str(Redacted))
    ensures data["RAG_DATA_DIR"] == Str(s.dataDir) && data["RAG_INDEX_DIR"] == Str(s.indexDir)
    ensures forall k :: k in data ==> !data[k].PathValue?
    ensures forall k :: k in data && !IsSecret(k) && !Dump(s)[k].PathValue? ==> data[k] == Dump(s)[k]
  {
  }

  /** The object `Settings()` builds; its identity is what the accessor preserves. */
  class SettingsObject {
    const values: Settings

    constructor (values: Settings)
      ensures this.values == values
    {
      this.values := values;
    }
  }

  /** The module global `_settings` behind `get_settings`. */
  class SettingsRegistry {
    var instance: SettingsObject?

    constructor ()
      ensures instance == null
    {
      instance := null;
    }

    /** Builds the settings on the first call from the values the environment supplies, then keeps returning that object. */
    method GetSettings(loaded: Settings) returns (s: SettingsObject)
      modifies this
      ensures instance == s
      ensures old(instance) != null ==> s == old(instance)
      ensures old(instance) == null ==> fresh(s) && s.values == loaded
    {
      if instance == null {
        instance := new SettingsObject(loaded);
      }
      s := instance;
    }
  }

  /** Two calls, whatever the environment says in between, return the same object. */
  method GetSettingsTwice(registry: SettingsRegistry, first: Settings, second: Settings)
    returns (a: SettingsObject, b: SettingsObject)
    modifies registry
    ensures a == b && a.values == (if old(registry.instance) == null then first else old(registry.instance.values))
  {
    a := registry.GetSettings(first);
    b := registry.GetSettings(second);
  }
}
