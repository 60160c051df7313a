/**
  Incremental ingestion: discover the files, read each, carry forward the
  digest of an unchanged file, chunk every new or changed one and tag its
  chunks with the whole-file digest, and keep the map from root-relative
  path to digest that the next run compares against.

  The file system is a set of parameters: `read` gives a discovered file's
  text as its lines (nothing when reading fails), `fails` says that handling
  the file raises before anything is recorded for it, and `sha` is the digest
  of a text. The hash file on disk is `persisted`: absent, unreadable or not
  JSON is `None`.
*/
module Pipeline {
  import opened Wrappers
  import opened Schemas
  import opened Text
  import Config
  import Chunking
  import Readers
  import Parsers

  /** The statistics `ingest` returns. */
  datatype RunStats = RunStats(filesIndexed: nat, chunks: nat, durationS: real, updatedAt: string)

  /** The three things the file loop builds: `all_chunks`, `new_hashes` and `files_indexed`. */
  datatype Ingested = Ingested(chunks: seq<Chunking.Chunk>, hashes: map<string, string>, filesIndexed: nat)

  /** The stored digests the run compares against: none on a clean run or without a readable hash file. */
  function PriorHashes(clean: bool, persisted: Option<map<string, string>>): (prior: map<string, string>)
    ensures clean || persisted.None? ==> prior == map[]
    ensures !clean && persisted.Some? ==> prior == persisted.value
  {
    if !clean && persisted.Some? then persisted.value else map[]
  }

  /** `dict.get`. */
  function Lookup(m: map<string, string>, key: string): Option<string> {
    if key in m then Some(m[key]) else None
  }

  /** The text a read yields, or nothing. */
  function ReadText(lines: Option<seq<string>>): Option<string> {
    match lines
    case Some(ls) => Some(Concat(ls))
    case None => None
  }

  /** The `(content, sha256)` pair `read_file` returns for `f`. */
  function Read(f: Readers.FsEntry, read: Readers.FsEntry -> Option<seq<string>>, sha: string -> string): (string, string) {
    Readers.ReadFile(ReadText(read(f)), sha)
  }

  /** The file was read and is not empty: the loop goes past `if not content`. */
  predicate HasContent(f: Readers.FsEntry, read: Readers.FsEntry -> Option<seq<string>>, sha: string -> string) {
    Read(f, read, sha).0 != ""
  }

  /** A non-clean run finds the file's stored digest current and carries it forward. */
  predicate Carried(f: Readers.FsEntry, clean: bool, prior: map<string, string>,
                    read: Readers.FsEntry -> Option<seq<string>>, sha: string -> string) {
    && HasContent(f, read, sha)
    && !clean && !Readers.ShouldReindex(Lookup(prior, f.relative), ReadText(read(f)), sha)
  }

  /**
    The file is chunked in this run: it has content, it is not carried (a clean
    run, or `should_reindex` holds), and parsing and chunking it do not raise.
  */
  predicate Reprocessed(f: Readers.FsEntry, clean: bool, prior: map<string, string>,
                        read: Readers.FsEntry -> Option<seq<string>>, fails: Readers.FsEntry -> bool,
                        sha: string -> string) {
    && HasContent(f, read, sha)
    && (clean || Readers.ShouldReindex(Lookup(prior, f.relative), ReadText(read(f)), sha))
    && !fails(f)
  }

  /** The run writes a digest for the file: carried forward or freshly recorded. */
  predicate Recorded(f: Readers.FsEntry, clean: bool, prior: map<string, string>,
                     read: Readers.FsEntry -> Option<seq<string>>, fails: Readers.FsEntry -> bool,
                     sha: string -> string) {
    Carried(f, clean, prior, read, sha) || Reprocessed(f, clean, prior, read, fails, sha)
  }

  /** The stored form of one chunk: its text and lines, with the file's path, language and digest. */
  function Tagged(c: Chunking.Chunk, path: string, language: string, digest: string): Chunking.Chunk {
    Chunking.Chunk(c.content, c.startLine, c.endLine, map["path" := path, "language" := language, "sha256" := digest])
  }

  /** The inner loop: every chunk of a file, tagged, in order. */
  function TagAll(cs: seq<Chunking.Chunk>, path: string, language: string, digest: string): (r: seq<Chunking.Chunk>)
    ensures |r| == |cs|
    ensures forall j :: 0 <= j < |cs| ==> r[j] == Tagged(cs[j], path, language, digest)
  {
    if cs == [] then [] else TagAll(cs[..|cs| - 1], path, language, digest) + [Tagged(cs[|cs| - 1], path, language, digest)]
  }

  /** The chunks a reprocessed file contributes. */
  function FileChunks(f: Readers.FsEntry, lines: seq<string>, digest: string, size: nat, overlap: nat): seq<Chunking.Chunk> {
    var language := Parsers.GetLanguage(f.suffix);
    TagAll(Chunking.ChunkLines(lines, f.relative, language, size, overlap), f.relative, language, digest)
  }

  /** One pass of the file loop. */
  function FileStep(st: Ingested, f: Readers.FsEntry, clean: bool, prior: map<string, string>,
                    read: Readers.FsEntry -> Option<seq<string>>, fails: Readers.FsEntry -> bool,
                    sha: string -> string, size: nat, overlap: nat): Ingested {
    var (content, digest) := Read(f, read, sha);
    if content == "" then st
    else if !clean && !Readers.ShouldReindex(Lookup(prior, f.relative), ReadText(read(f)), sha) then
      st.(hashes := st.hashes[f.relative := prior[f.relative]])
    else if fails(f) then st
    else
      Ingested(st.chunks + FileChunks(f, read(f).value, digest, size, overlap),
               st.hashes[f.relative := digest],
               st.filesIndexed + 1)
  }

  /** The file loop over the discovered files. */
  function Process(files: seq<Readers.FsEntry>, clean: bool, prior: map<string, string>,
                   read: Readers.FsEntry -> Option<seq<string>>, fails: Readers.FsEntry -> bool,
                   sha: string -> string, size: nat, overlap: nat): Ingested {
    if files == [] then Ingested([], map[], 0)
    else FileStep(Process(files[..|files| - 1], clean, prior, read, fails, sha, size, overlap),
                  files[|files| - 1], clean, prior, read, fails, sha, size, overlap)
  }

  /** The loop over the first `n + 1` files is one more pass after the loop over the first `n`. */
  lemma ProcessSnoc(files: seq<Readers.FsEntry>, n: nat, clean: bool, prior: map<string, string>,
                    read: Readers.FsEntry -> Option<seq<string>>, fails: Readers.FsEntry -> bool,
                    sha: string -> string, size: nat, overlap: nat)
    requires n < |files|
    ensures Process(files[..n + 1], clean, prior, read, fails, sha, size, overlap)
         == FileStep(Process(files[..n], clean, prior, read, fails, sha, size, overlap),
                     files[n], clean, prior, read, fails, sha, size, overlap)
  {
    assert files[..n + 1][..n] == files[..n];
  }

  // ------------------------------------------------------------ properties of a run

  /** The files of a list the run chunks. */
  function CountReprocessed(files: seq<Readers.FsEntry>, clean: bool, prior: map<string, string>,
                            read: Readers.FsEntry -> Option<seq<string>>, fails: Readers.FsEntry -> bool,
                            sha: string -> string): nat {
    if files == [] then 0
    else CountReprocessed(files[..|files| - 1], clean, prior, read, fails, sha)
         + (if Reprocessed(files[|files| - 1], clean, prior, read, fails, sha) then 1 else 0)
  }

  /** `files_indexed` counts exactly the files chunked in this run. */
  lemma {:induction false} ProcessCount(files: seq<Readers.FsEntry>, clean: bool, prior: map<string, string>,
                                        read: Readers.FsEntry -> Option<seq<string>>, fails: Readers.FsEntry -> bool,
                                        sha: string -> string, size: nat, overlap: nat)
    ensures Process(files, clean, prior, read, fails, sha, size, overlap).filesIndexed
         == CountReprocessed(files, clean, prior, read, fails, sha)
    decreases |files|
  {
    if files != [] {
      ProcessCount(files[..|files| - 1], clean, prior, read, fails, sha, size, overlap);
    }
  }

  /** `c` is one of the stored chunks of `f`, a file chunked in this run. */
  predicate FromFile(c: Chunking.Chunk, f: Readers.FsEntry, clean: bool, prior: map<string, string>,
                     read: Readers.FsEntry -> Option<seq<string>>, fails: Readers.FsEntry -> bool,
                     sha: string -> string, size: nat, overlap: nat) {
    && Reprocessed(f, clean, prior, read, fails, sha)
    && read(f).Some?
    && c in FileChunks(f, read(f).value, Read(f, read, sha).1, size, overlap)
  }

  /** `c` is a stored chunk of one of `files` chunked in this run. */
  predicate FromSome(c: Chunking.Chunk, files: seq<Readers.FsEntry>, clean: bool, prior: map<string, string>,
                     read: Readers.FsEntry -> Option<seq<string>>, fails: Readers.FsEntry -> bool,
                     sha: string -> string, size: nat, overlap: nat) {
    exists k :: 0 <= k < |files| && FromFile(c, files[k], clean, prior, read, fails, sha, size, overlap)
  }

  /** Every chunk of `cs` is a stored chunk of one of `files` chunked in this run. */
  predicate AllFromFiles(cs: seq<Chunking.Chunk>, files: seq<Readers.FsEntry>, clean: bool, prior: map<string, string>,
                         read: Readers.FsEntry -> Option<seq<string>>, fails: Readers.FsEntry -> bool,
                         sha: string -> string, size: nat, overlap: nat) {
    forall i :: 0 <= i < |cs| ==> FromSome(cs[i], files, clean, prior, read, fails, sha, size, overlap)
  }

  /** A chunk of one of the first files is a chunk of one of all the files. */
  lemma FromSomeInit(c: Chunking.Chunk, files: seq<Readers.FsEntry>, clean: bool, prior: map<string, string>,
                     read: Readers.FsEntry -> Option<seq<string>>, fails: Readers.FsEntry -> bool,
                     sha: string -> string, size: nat, overlap: nat)
    requires files != []
    requires FromSome(c, files[..|files| - 1], clean, prior, read, fails, sha, size, overlap)
    ensures FromSome(c, files, clean, prior, read, fails, sha, size, overlap)
  {
    var init := files[..|files| - 1];
    var k :| 0 <= k < |init| && FromFile(c, init[k], clean, prior, read, fails, sha, size, overlap);
    assert files[k] == init[k];
  }

  /** A file's pass appends exactly its stored chunks when it is chunked, and nothing otherwise. */
  lemma FileStepChunks(st: Ingested, f: Readers.FsEntry, clean: bool, prior: map<string, string>,
                       read: Readers.FsEntry -> Option<seq<string>>, fails: Readers.FsEntry -> bool,
                       sha: string -> string, size: nat, overlap: nat)
    ensures var out := FileStep(st, f, clean, prior, read, fails, sha, size, overlap);
      if Reprocessed(f, clean, prior, read, fails, sha) then
        read(f).Some? && out.chunks == st.chunks + FileChunks(f, read(f).value, Read(f, read, sha).1, size, overlap)
      else out.chunks == st.chunks
  {
  }

  /**
    Every emitted chunk is a chunk of a file chunked in this run, carrying that
    file's relative path, language and whole-file digest.
  */
  lemma {:induction false} ProcessChunkOrigin(files: seq<Readers.FsEntry>, clean: bool, prior: map<string, string>,
                                              read: Readers.FsEntry -> Option<seq<string>>, fails: Readers.FsEntry -> bool,
                                              sha: string -> string, size: nat, overlap: nat)
    ensures AllFromFiles(Process(files, clean, prior, read, fails, sha, size, overlap).chunks,
                         files, clean, prior, read, fails, sha, size, overlap)
    decreases |files|
  {
    if files != [] {
      var init, f := files[..|files| - 1], files[|files| - 1];
      ProcessChunkOrigin(init, clean, prior, read, fails, sha, size, overlap);
      var before := Process(init, clean, prior, read, fails, sha, size, overlap);
      var out := Process(files, clean, prior, read, fails, sha, size, overlap);
      FileStepChunks(before, f, clean, prior, read, fails, sha, size, overlap);
      forall i | 0 <= i < |out.chunks|
        ensures FromSome(out.chunks[i], files, clean, prior, read, fails, sha, size, overlap)
      {
        if i < |before.chunks| {
          assert out.chunks[i] == before.chunks[i];
          FromSomeInit(before.chunks[i], files, clean, prior, read, fails, sha, size, overlap);
        } else {
          assert FromFile(out.chunks[i], f, clean, prior, read, fails, sha, size, overlap);
        }
      }
    }
  }

  /** One of `files` has the relative path `key` and gets a digest in this run. */
  predicate RecordedUnder(files: seq<Readers.FsEntry>, key: string, clean: bool, prior: map<string, string>,
                          read: Readers.FsEntry -> Option<seq<string>>, fails: Readers.FsEntry -> bool,
                          sha: string -> string) {
    exists k :: 0 <= k < |files| && files[k].relative == key && Recorded(files[k], clean, prior, read, fails, sha)
  }

  /** A recorded file with path `key` is among the first files or is the last one. */
  lemma RecordedUnderSnoc(files: seq<Readers.FsEntry>, key: string, clean: bool, prior: map<string, string>,
                          read: Readers.FsEntry -> Option<seq<string>>, fails: Readers.FsEntry -> bool,
                          sha: string -> string)
    requires files != []
    ensures RecordedUnder(files, key, clean, prior, read, fails, sha)
        <==> RecordedUnder(files[..|files| - 1], key, clean, prior, read, fails, sha)
             || (files[|files| - 1].relative == key && Recorded(files[|files| - 1], clean, prior, read, fails, sha))
  {
    var init := files[..|files| - 1];
    if RecordedUnder(init, key, clean, prior, read, fails, sha) {
      var k :| 0 <= k < |init| && init[k].relative == key && Recorded(init[k], clean, prior, read, fails, sha);
      assert files[k] == init[k];
    }
    if RecordedUnder(files, key, clean, prior, read, fails, sha) {
      var k :| 0 <= k < |files| && files[k].relative == key && Recorded(files[k], clean, prior, read, fails, sha);
      if k < |init| {
        assert init[k] == files[k];
      }
    }
  }

  /** A file's pass adds its path to the map exactly when the file is recorded. */
  lemma FileStepKeys(st: Ingested, f: Readers.FsEntry, clean: bool, prior: map<string, string>,
                     read: Readers.FsEntry -> Option<seq<string>>, fails: Readers.FsEntry -> bool,
                     sha: string -> string, size: nat, overlap: nat, key: string)
    ensures key in FileStep(st, f, clean, prior, read, fails, sha, size, overlap).hashes
        <==> key in st.hashes || (f.relative == key && Recorded(f, clean, prior, read, fails, sha))
  {
  }

  /**
    The new map has an entry for exactly the recorded files: read and non-empty,
    and either carried forward unchanged or chunked without error.
  */
  lemma {:induction false} ProcessHashKeys(files: seq<Readers.FsEntry>, clean: bool, prior: map<string, string>,
                                           read: Readers.FsEntry -> Option<seq<string>>, fails: Readers.FsEntry -> bool,
                                           sha: string -> string, size: nat, overlap: nat, key: string)
    ensures key in Process(files, clean, prior, read, fails, sha, size, overlap).hashes
        <==> RecordedUnder(files, key, clean, prior, read, fails, sha)
    decreases |files|
  {
    if files != [] {
      var init := files[..|files| - 1];
      ProcessHashKeys(init, clean, prior, read, fails, sha, size, overlap, key);
      FileStepKeys(Process(init, clean, prior, read, fails, sha, size, overlap), files[|files| - 1],
                   clean, prior, read, fails, sha, size, overlap, key);
      RecordedUnderSnoc(files, key, clean, prior, read, fails, sha);
    }
  }

  /** An unchanged file is carried forward, whether or not chunking it would raise. */
  lemma CarriedRecorded(f: Readers.FsEntry, prior: map<string, string>,
                        read: Readers.FsEntry -> Option<seq<string>>, fails: Readers.FsEntry -> bool,
                        sha: string -> string)
    requires HasContent(f, read, sha)
    requires f.relative in prior && prior[f.relative] == Read(f, read, sha).1
    ensures Carried(f, false, prior, read, sha)
    ensures Recorded(f, false, prior, read, fails, sha) && !Reprocessed(f, false, prior, read, fails, sha)
  {
  }

  /** Within one run, a relative path names one file. */
  predicate PathsDetermineFiles(files: seq<Readers.FsEntry>) {
    forall i, j :: 0 <= i < |files| && 0 <= j < |files| && files[i].relative == files[j].relative ==> files[i] == files[j]
  }

  /** The new map holds each recorded file's current digest, whether it was carried forward or recorded. */
  lemma {:induction false} ProcessHashValues(files: seq<Readers.FsEntry>, clean: bool, prior: map<string, string>,
                                             read: Readers.FsEntry -> Option<seq<string>>, fails: Readers.FsEntry -> bool,
                                             sha: string -> string, size: nat, overlap: nat, k: int)
    requires PathsDetermineFiles(files)
    requires 0 <= k < |files| && Recorded(files[k], clean, prior, read, fails, sha)
    ensures var hashes := Process(files, clean, prior, read, fails, sha, size, overlap).hashes;
      files[k].relative in hashes && hashes[files[k].relative] == Read(files[k], read, sha).1
    decreases |files|
  {
    var init, f := files[..|files| - 1], files[|files| - 1];
    var before := Process(init, clean, prior, read, fails, sha, size, overlap);
    if f.relative != files[k].relative {
      assert k < |init| && init[k] == files[k];
      ProcessHashValues(init, clean, prior, read, fails, sha, size, overlap, k);
      FileStepValues(before, f, clean, prior, read, fails, sha, size, overlap, files[k].relative);
    } else {
      assert f == files[k];
      FileStepValues(before, f, clean, prior, read, fails, sha, size, overlap, f.relative);
    }
  }

  /** A file's pass writes its current digest when it is recorded, and leaves every other path's entry alone. */
  lemma FileStepValues(st: Ingested, f: Readers.FsEntry, clean: bool, prior: map<string, string>,
                       read: Readers.FsEntry -> Option<seq<string>>, fails: Readers.FsEntry -> bool,
                       sha: string -> string, size: nat, overlap: nat, key: string)
    ensures var out := FileStep(st, f, clean, prior, read, fails, sha, size, overlap).hashes;
      && (key == f.relative && Recorded(f, clean, prior, read, fails, sha) ==>
            key in out && out[key] == Read(f, read, sha).1)
      && (key != f.relative && key in st.hashes ==> key in out && out[key] == st.hashes[key])
  {
  }

  /** A clean run does not look at the stored digests. */
  lemma {:induction false} CleanIgnoresStored(files: seq<Readers.FsEntry>, prior1: map<string, string>, prior2: map<string, string>,
                                              read: Readers.FsEntry -> Option<seq<string>>, fails: Readers.FsEntry -> bool,
                                              sha: string -> string, size: nat, overlap: nat)
    ensures Process(files, true, prior1, read, fails, sha, size, overlap)
         == Process(files, true, prior2, read, fails, sha, size, overlap)
    decreases |files|
  {
    if files != [] {
      CleanIgnoresStored(files[..|files| - 1], prior1, prior2, read, fails, sha, size, overlap);
    }
  }

  /**
    A non-clean run where every file with content either has its current
    digest stored or raises when chunked chunks nothing, counts nothing, and
    takes every entry of the new map from the stored one.
  */
  lemma {:induction false} UnchangedRun(files: seq<Readers.FsEntry>, prior: map<string, string>,
                                        read: Readers.FsEntry -> Option<seq<string>>, fails: Readers.FsEntry -> bool,
                                        sha: string -> string, size: nat, overlap: nat)
    requires forall k :: 0 <= k < |files| && HasContent(files[k], read, sha) ==>
      (files[k].relative in prior && prior[files[k].relative] == Read(files[k], read, sha).1) || fails(files[k])
    ensures var out := Process(files, false, prior, read, fails, sha, size, overlap);
      && out.chunks == [] && out.filesIndexed == 0
      && forall key :: key in out.hashes ==> key in prior && out.hashes[key] == prior[key]
    decreases |files|
  {
    if files != [] {
      var init := files[..|files| - 1];
      forall k | 0 <= k < |init| && HasContent(init[k], read, sha)
        ensures (init[k].relative in prior && prior[init[k].relative] == Read(init[k], read, sha).1) || fails(init[k])
      {
        assert init[k] == files[k];
      }
      UnchangedRun(init, prior, read, fails, sha, size, overlap);
    }
  }

  /** A file with content that a run does not record is one whose chunking raises. */
  lemma UnrecordedFails(f: Readers.FsEntry, clean: bool, prior: map<string, string>,
                        read: Readers.FsEntry -> Option<seq<string>>, fails: Readers.FsEntry -> bool,
                        sha: string -> string)
    requires HasContent(f, read, sha) && !Recorded(f, clean, prior, read, fails, sha)
    ensures fails(f)
  {
  }

  /**
    Running again over the same files, with nothing changed on disk and the
    map the previous run saved, returns no chunks, indexes no file, and saves
    the same map.
  */
  lemma Rerun(files: seq<Readers.FsEntry>, clean: bool, prior: map<string, string>,
              read: Readers.FsEntry -> Option<seq<string>>, fails: Readers.FsEntry -> bool,
              sha: string -> string, size: nat, overlap: nat)
    requires PathsDetermineFiles(files)
    ensures var first := Process(files, clean, prior, read, fails, sha, size, overlap);
      var second := Process(files, false, first.hashes, read, fails, sha, size, overlap);
      && second.chunks == [] && second.filesIndexed == 0
      && second.hashes == first.hashes
  {
    var first := Process(files, clean, prior, read, fails, sha, size, overlap);
    forall k | 0 <= k < |files| && HasContent(files[k], read, sha)
      ensures (files[k].relative in first.hashes && first.hashes[files[k].relative] == Read(files[k], read, sha).1)
              || fails(files[k])
    {
      if Recorded(files[k], clean, prior, read, fails, sha) {
        ProcessHashValues(files, clean, prior, read, fails, sha, size, overlap, k);
      } else {
        UnrecordedFails(files[k], clean, prior, read, fails, sha);
      }
    }
    UnchangedRun(files, first.hashes, read, fails, sha, size, overlap);
    var second := Process(files, false, first.hashes, read, fails, sha, size, overlap);
    forall key | true
      ensures key in second.hashes <==> key in first.hashes
    {
      ProcessHashKeys(files, clean, prior, read, fails, sha, size, overlap, key);
      ProcessHashKeys(files, false, first.hashes, read, fails, sha, size, overlap, key);
      if key in first.hashes {
        var k :| 0 <= k < |files| && files[k].relative == key && Recorded(files[k], clean, prior, read, fails, sha);
        ProcessHashValues(files, clean, prior, read, fails, sha, size, overlap, k);
        CarriedRecorded(files[k], first.hashes, read, fails, sha);
      }
    }
  }

  // ------------------------------------------------------------ the pipeline object

  /** `IngestionPipeline`: the settings, the reader and the chunker built from them. */
  class IngestionPipeline {
    const settings: Config.Settings
    const reader: Readers.FileReader
    const chunker: Chunking.TextChunker

    constructor (settings: Config.Settings)
      requires Config.Valid(settings)
      ensures this.settings == settings && reader.settings == settings
      ensures chunker.chunkSize == settings.chunkSize && chunker.overlap == settings.chunkOverlap
    {
      this.settings := settings;
      reader := new Readers.FileReader(settings);
      chunker := new Chunking.TextChunker(settings);
    }

    /**
      `ingest`: load the stored digests unless the run is clean, go through the
      discovered files, and return the chunks, the statistics and the map
      written back to the hash file.
    */
    method Ingest(patterns: Option<seq<string>>, exclude: Readers.GlobList?, clean: bool,
                  persisted: Option<map<string, string>>,
                  glob: string -> seq<Readers.FsEntry>, matches: (string, string) -> bool,
                  read: Readers.FsEntry -> Option<seq<string>>, fails: Readers.FsEntry -> bool,
                  sha: string -> string, duration: real, now: string)
      returns (allChunks: seq<Chunking.Chunk>, stats: RunStats, saved: map<string, string>)
      modifies if exclude != null then {exclude} else {}
      ensures exclude != null ==> exclude.items == old(exclude.items) + Config.ExcludeGlobs(reader.settings)
      ensures var files := Readers.Discovered(
                patterns.GetOr(["**/*"]), glob,
                (if exclude != null then old(exclude.items) else []) + Config.ExcludeGlobs(reader.settings),
                Config.AllowedFiletypes(reader.settings), matches);
        Process(files, clean, PriorHashes(clean, persisted), read, fails, sha, chunker.chunkSize, chunker.overlap)
          == Ingested(allChunks, saved, stats.filesIndexed)
      ensures stats.chunks == |allChunks| && stats.durationS == duration && stats.updatedAt == now
    {
      var fileHashes: map<string, string> := map[];
      if !clean && persisted.Some? {
        fileHashes := persisted.value;
      }
      ghost var excluded := (if exclude != null then exclude.items else []) + Config.ExcludeGlobs(reader.settings);
      var files, used := reader.DiscoverFiles(patterns, exclude, glob, matches);
      assert used.items == excluded;
      allChunks := [];
      var filesIndexed := 0;
      var newHashes: map<string, string> := map[];
      var n := 0;
      while n < |files|
        invariant 0 <= n <= |files|
        invariant exclude != null ==> exclude.items == old(exclude.items) + Config.ExcludeGlobs(reader.settings)
        invariant Process(files[..n], clean, fileHashes, read, fails, sha, chunker.chunkSize, chunker.overlap)
               == Ingested(allChunks, newHashes, filesIndexed)
      {
        ProcessSnoc(files, n, clean, fileHashes, read, fails, sha, chunker.chunkSize, chunker.overlap);
        allChunks, newHashes, filesIndexed := IngestFile(files[n], clean, fileHashes, read, fails, sha,
                                                         allChunks, newHashes, filesIndexed);
        n := n + 1;
      }
      assert files[..n] == files;
      saved := newHashes;
      stats := RunStats(filesIndexed, |allChunks|, duration, now);
    }

    /** The body of the file loop: skip, carry the stored digest forward, or chunk and record. */
    method IngestFile(f: Readers.FsEntry, clean: bool, fileHashes: map<string, string>,
                      read: Readers.FsEntry -> Option<seq<string>>, fails: Readers.FsEntry -> bool,
                      sha: string -> string,
                      allChunks: seq<Chunking.Chunk>, newHashes: map<string, string>, filesIndexed: nat)
      returns (allChunks': seq<Chunking.Chunk>, newHashes': map<string, string>, filesIndexed': nat)
      ensures Ingested(allChunks', newHashes', filesIndexed')
           == FileStep(Ingested(allChunks, newHashes, filesIndexed), f, clean, fileHashes, read, fails, sha,
                       chunker.chunkSize, chunker.overlap)
    {
      allChunks', newHashes', filesIndexed' := allChunks, newHashes, filesIndexed;
      var (content, digest) := Readers.ReadFile(ReadText(read(f)), sha);
      if content == "" {
      } else if !clean && !Readers.ShouldReindex(Lookup(fileHashes, f.relative), ReadText(read(f)), sha) {
        newHashes' := newHashes[f.relative := fileHashes[f.relative]];
      } else if fails(f) {
      } else {
        var tagged := ChunkFile(f, read(f).value, digest);
        allChunks' := allChunks + tagged;
        newHashes' := newHashes[f.relative := digest];
        filesIndexed' := filesIndexed + 1;
      }
    }

    /** Parse, tag the language of, chunk, and convert one changed file. */
    method ChunkFile(f: Readers.FsEntry, lines: seq<string>, digest: string) returns (tagged: seq<Chunking.Chunk>)
      ensures tagged == FileChunks(f, lines, digest, chunker.chunkSize, chunker.overlap)
    {
      var language := Parsers.GetLanguage(f.suffix);
      var chunks := chunker.ChunkText(lines, f.relative, language);
      tagged := TagChunks(chunks, f.relative, language, digest);
    }
  }

  /** The loop converting one file's chunks to their stored form. */
  method TagChunks(chunks: seq<Chunking.Chunk>, path: string, language: string, digest: string)
    returns (tagged: seq<Chunking.Chunk>)
    ensures tagged == TagAll(chunks, path, language, digest)
  {
    tagged := [];
    var j := 0;
    while j < |chunks|
      invariant 0 <= j <= |chunks|
      invariant tagged == TagAll(chunks[..j], path, language, digest)
    {
      assert chunks[..j + 1][..j] == chunks[..j];
      tagged := tagged + [Tagged(chunks[j], path, language, digest)];
      j := j + 1;
    }
    assert chunks[..j] == chunks;
  }
}
