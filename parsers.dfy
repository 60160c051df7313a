/**
  The per-type content parser and the suffix-to-language table.
*/
module Parsers {
  import opened Text

  /** The suffixes routed to the markdown parser. */
  predicate IsMarkdownSuffix(suffix: string) {
    suffix == ".md" || suffix == ".mdx"
  }

  /** The suffixes routed to the code parser. */
  predicate IsCodeSuffix(suffix: string) {
    suffix == ".py" || suffix == ".php" || suffix == ".js" || suffix == ".ts"
  }

  /** Markdown is kept as it is for chunking. */
  function ParseMarkdown(content: string): string {
    content
  }

  /** Code is kept as it is. */
  function ParseCode(content: string): string {
    content
  }

  /** `FileParser.parse`: dispatch on the lower-cased suffix; every branch returns the content. */
  function Parse(suffix: string, content: string): (r: string)
    ensures r == content
  {
    var s := Lower(suffix);
    if IsMarkdownSuffix(s) then ParseMarkdown(content)
    else if IsCodeSuffix(s) then ParseCode(content)
    else content
  }

  /** `lang_map` in `get_language`. */
  const LanguageTable: map<string, string> := map[
    ".py" := "python",
    ".php" := "php",
    ".js" := "javascript",
    ".ts" := "typescript",
    ".md" := "markdown",
    ".mdx" := "markdown",
    ".json" := "json",
    ".yml" := "yaml",
    ".yaml" := "yaml"]

  /** `FileParser.get_language`: look the lower-cased suffix up, `"text"` when absent. */
  function GetLanguage(suffix: string): (lang: string)
    ensures Lower(suffix) in LanguageTable ==> lang == LanguageTable[Lower(suffix)]
    ensures Lower(suffix) !in LanguageTable ==> lang == "text"
  {
    var s := Lower(suffix);
    if s in LanguageTable then LanguageTable[s] else "text"
  }

  /** Every suffix gets one of eight language names. */
  lemma GetLanguageTotal(suffix: string)
    ensures GetLanguage(suffix) in {"python", "php", "javascript", "typescript", "markdown", "json", "yaml", "text"}
  {
  }

  /** Suffixes that differ only in letter case get the same language. */
  lemma GetLanguageIgnoresCase(a: string, b: string)
    requires Lower(a) == Lower(b)
    ensures GetLanguage(a) == GetLanguage(b)
  {
  }

  /** Every suffix in the table is already lower case, so each maps to its own entry. */
  lemma GetLanguageTable()
    ensures forall s :: s in LanguageTable ==> GetLanguage(s) == LanguageTable[s]
  {
    forall s | s in LanguageTable
      ensures GetLanguage(s) == LanguageTable[s]
    {
      LowerUnchanged(s);
    }
  }

  /** An upper-case suffix is looked up in lower case. */
  lemma GetLanguageUpperCase()
    ensures GetLanguage(".PY") == "python" && GetLanguage(".Md") == "markdown"
  {
    assert Lower(".PY") == ".py";
    assert Lower(".Md") == ".md";
  }

  /** An unlisted suffix, and no suffix at all, fall back to `"text"`. */
  lemma GetLanguageFallback()
    ensures GetLanguage(".txt") == "text" && GetLanguage("") == "text"
  {
    LowerUnchanged(".txt");
  }
}
