/**
  File discovery and reading. The file system is a parameter: `glob` gives,
  for a pattern, the entries `root.glob(pattern)` yields in order, and
  `matches` is `PurePath.match` of a root-relative path against a glob.
  Reading a file yields its decoded text or nothing on an error, and `sha`
  stands for the SHA-256 hex digest of the UTF-8 encoding of a text.
*/
module Readers {
  import opened Wrappers
  import Config

  /** A path `root.glob` yields: its full and root-relative forms, its suffix, and whether it is a regular file. */
  datatype FsEntry = FsEntry(path: string, relative: string, suffix: string, isFile: bool)

  /** `any(relative.match(ex) for ex in exclude)`. */
  predicate Excluded(relative: string, exclude: seq<string>, matches: (string, string) -> bool) {
    exists k :: 0 <= k < |exclude| && matches(relative, exclude[k])
  }

  /** The three filters of the inner loop: a regular file, not excluded, with an allowed suffix. */
  predicate Admitted(e: FsEntry, exclude: seq<string>, allowed: seq<string>, matches: (string, string) -> bool) {
    && e.isFile
    && !Excluded(e.relative, exclude, matches)
    && e.suffix in allowed
  }

  /** The entries of one glob expansion that pass the filters, in glob order. */
  function Admit(es: seq<FsEntry>, exclude: seq<string>, allowed: seq<string>, matches: (string, string) -> bool): seq<FsEntry> {
    if es == [] then []
    else
      var rest := Admit(es[..|es| - 1], exclude, allowed, matches);
      if Admitted(es[|es| - 1], exclude, allowed, matches) then rest + [es[|es| - 1]] else rest
  }

  /** Everything the generator yields: pattern by pattern, the admitted entries of its expansion. */
  function Discovered(patterns: seq<string>, glob: string -> seq<FsEntry>, exclude: seq<string>,
                      allowed: seq<string>, matches: (string, string) -> bool): seq<FsEntry> {
    if patterns == [] then []
    else Discovered(patterns[..|patterns| - 1], glob, exclude, allowed, matches)
         + Admit(glob(patterns[|patterns| - 1]), exclude, allowed, matches)
  }

  /** How many times `e` occurs in the expansions of all patterns together. */
  function Occurrences(e: FsEntry, patterns: seq<string>, glob: string -> seq<FsEntry>): nat {
    if patterns == [] then 0
    else Occurrences(e, patterns[..|patterns| - 1], glob) + multiset(glob(patterns[|patterns| - 1]))[e]
  }

  /** An expansion keeps every admitted occurrence and drops every other one. */
  lemma {:induction false} AdmitCount(es: seq<FsEntry>, e: FsEntry, exclude: seq<string>,
                                      allowed: seq<string>, matches: (string, string) -> bool)
    ensures multiset(Admit(es, exclude, allowed, matches))[e]
         == if Admitted(e, exclude, allowed, matches) then multiset(es)[e] else 0
    decreases |es|
  {
    if es != [] {
      var init, last := es[..|es| - 1], es[|es| - 1];
      AdmitCount(init, e, exclude, allowed, matches);
      assert es == init + [last];
    }
  }

  /**
    An entry is yielded once for every occurrence in every pattern's expansion
    when it passes the filters, and never otherwise: there is no de-duplication
    across patterns.
  */
  lemma {:induction false} DiscoveredCount(patterns: seq<string>, glob: string -> seq<FsEntry>, e: FsEntry,
                                           exclude: seq<string>, allowed: seq<string>, matches: (string, string) -> bool)
    ensures multiset(Discovered(patterns, glob, exclude, allowed, matches))[e]
         == if Admitted(e, exclude, allowed, matches) then Occurrences(e, patterns, glob) else 0
    decreases |patterns|
  {
    if patterns != [] {
      var init := patterns[..|patterns| - 1];
      DiscoveredCount(init, glob, e, exclude, allowed, matches);
      AdmitCount(glob(patterns[|patterns| - 1]), e, exclude, allowed, matches);
    }
  }

  /** An entry is yielded exactly when some pattern's expansion holds it and it passes the filters. */
  lemma DiscoveredMembership(patterns: seq<string>, glob: string -> seq<FsEntry>, e: FsEntry,
                             exclude: seq<string>, allowed: seq<string>, matches: (string, string) -> bool)
    ensures e in Discovered(patterns, glob, exclude, allowed, matches)
        <==> Admitted(e, exclude, allowed, matches) && Occurrences(e, patterns, glob) > 0
  {
    DiscoveredCount(patterns, glob, e, exclude, allowed, matches);
  }

  /** A list the caller owns and `discover_files` extends in place. */
  class GlobList {
    var items: seq<string>

    constructor (items: seq<string>)
      ensures this.items == items
    {
      this.items := items;
    }
  }

  /** `FileReader`, holding the settings it reads the two lists from. */
  class FileReader {
    const settings: Config.Settings

    constructor (settings: Config.Settings)
      ensures this.settings == settings
    {
      this.settings := settings;
    }

    /**
      `discover_files`. `patterns` defaults to the single match-all pattern; the caller's exclude
      list, or a fresh empty one, is extended with the settings' exclusions and
      then used to filter; the result is everything the generator yields.
    */
    method DiscoverFiles(patterns: Option<seq<string>>, exclude: GlobList?,
                         glob: string -> seq<FsEntry>, matches: (string, string) -> bool)
      returns (found: seq<FsEntry>, used: GlobList)
      modifies if exclude != null then {exclude} else {}
      ensures exclude != null ==> used == exclude && exclude.items == old(exclude.items) + Config.ExcludeGlobs(settings)
      ensures exclude == null ==> fresh(used) && used.items == Config.ExcludeGlobs(settings)
      ensures found == Discovered(patterns.GetOr(["**/*"]), glob, used.items, Config.AllowedFiletypes(settings), matches)
      ensures forall e :: e in found ==> Admitted(e, used.items, Config.AllowedFiletypes(settings), matches)
    {
      var pats := if patterns.Some? then patterns.value else ["**/*"];
      if exclude == null {
        used := new GlobList([]);
      } else {
        used := exclude;
      }
      used.items := used.items + Config.ExcludeGlobs(settings);
      found := Scan(pats, glob, used.items, Config.AllowedFiletypes(settings), matches);
    }
  }

  /** The two nested loops of `discover_files`, with its exclusion and suffix lists fixed. */
  method Scan(patterns: seq<string>, glob: string -> seq<FsEntry>, excluded: seq<string>,
              allowed: seq<string>, matches: (string, string) -> bool)
    returns (found: seq<FsEntry>)
    ensures found == Discovered(patterns, glob, excluded, allowed, matches)
    ensures forall e :: e in found ==> Admitted(e, excluded, allowed, matches)
  {
    found := [];
    var p := 0;
    while p < |patterns|
      invariant 0 <= p <= |patterns|
      invariant found == Discovered(patterns[..p], glob, excluded, allowed, matches)
    {
      var expansion := glob(patterns[p]);
      var q := 0;
      while q < |expansion|
        invariant 0 <= q <= |expansion|
        invariant found == Discovered(patterns[..p], glob, excluded, allowed, matches)
                           + Admit(expansion[..q], excluded, allowed, matches)
      {
        var entry := expansion[q];
        assert expansion[..q + 1][..q] == expansion[..q];
        if !entry.isFile {
        } else if Excluded(entry.relative, excluded, matches) {
        } else if entry.suffix !in allowed {
        } else {
          found := found + [entry];
        }
        q := q + 1;
      }
      assert expansion[..q] == expansion;
      assert patterns[..p + 1][..p] == patterns[..p];
      p := p + 1;
    }
    assert patterns[..p] == patterns;
    forall e | e in found
      ensures Admitted(e, excluded, allowed, matches)
    {
      DiscoveredMembership(patterns, glob, e, excluded, allowed, matches);
    }
  }

  /** `read_file`: the text and its digest, or two empty strings when reading fails. */
  function ReadFile(read: Option<string>, sha: string -> string): (r: (string, string))
    ensures read.Some? ==> r.0 == read.value && r.1 == sha(read.value)
    ensures read.None? ==> r == ("", "")
  {
    match read
    case Some(content) => (content, sha(content))
    case None => ("", "")
  }

  /** `should_reindex`: always without a stored digest, otherwise when the file's digest now differs. */
  function ShouldReindex(stored: Option<string>, read: Option<string>, sha: string -> string): bool {
    if stored.None? then true
    else ReadFile(read, sha).1 != stored.value
  }

  /**
    A file is skipped only when a digest is stored and the current text has
    that digest; with an injective digest, exactly when the text is the one
    the stored digest was taken of.
  */
  lemma ShouldReindexFacts(stored: Option<string>, read: Option<string>, sha: string -> string)
    ensures !ShouldReindex(stored, read, sha) ==> stored.Some?
    ensures stored.Some? && read.Some? ==> (ShouldReindex(stored, read, sha) <==> sha(read.value) != stored.value)
    ensures stored.Some? && stored.value != "" && read.None? ==> ShouldReindex(stored, read, sha)
  {
  }

  /** With an injective digest, an unchanged text is not reindexed and a changed one is. */
  lemma ShouldReindexInjective(previous: string, read: string, sha: string -> string)
    requires forall a, b :: sha(a) == sha(b) ==> a == b
    ensures ShouldReindex(Some(sha(previous)), Some(read), sha) <==> read != previous
  {
  }
}
