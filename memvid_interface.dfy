/** The interface between the benchmark harness and the text-to-video library:
    naming and checking the two artifacts of an encode run (a video and a JSON index),
    decoding all chunks back to text, fetching one chunk, and summarising the index.

    The library itself, the JSON parser and the filesystem are collaborators: the
    filesystem is a map from path to bytes, `json.load` is the function `jsonLoad`, and
    the encoder and retriever are the four functions of an `Engine`. */
module MemvidInterface {
  import opened Wrappers
  import opened PyText
  import opened PyValue
  import opened PyPath

  type FileSystem = map<string, seq<byte>>

  /** `json.load` on the bytes of a file opened as UTF-8 text: a value, or the exception raised. */
  type JsonLoad = seq<byte> -> Result<Json, PyError>

  /** The text-to-video library, seen from outside. Each function receives the
      filesystem it runs against; an `Err` or `Some(error)` is an exception it raised.
      - build: `MemvidEncoder(config, enable_docker)`, `add_text(text)` and
        `build_video(video, index, codec, ...)` on (fs, text, video, index, codec, docker),
        giving the filesystem afterwards;
      - openRetriever: constructing `MemvidRetriever(video, index, config)`;
      - getStats: `retriever.get_stats()`;
      - getChunkById: `retriever.get_chunk_by_id(id)`, a text or None. */
  datatype Engine = Engine(
    build: (FileSystem, string, string, string, string, bool) -> Result<FileSystem, PyError>,
    openRetriever: (FileSystem, string, string) -> Option<PyError>,
    getStats: (FileSystem, string, string) -> Result<Json, PyError>,
    getChunkById: (FileSystem, string, string, int) -> Result<Option<string>, PyError>)

  /** The interface's two exception classes, `MemVidEncodingError` and `MemVidDecodingError`. */
  datatype MemvidError = EncodingError(message: string) | DecodingError(message: string)

  /** What a successful encode leaves behind: the filesystem and the two artifact paths. */
  datatype Artifacts = Artifacts(fs: FileSystem, video: string, index: string)

  /** The sentinel chunk count of the metadata summary. */
  const UnknownCount: Json := JStr("Unknown")

  // ---------------------------------------------------------------------------
  // Artifact paths and encoding (memvid_interface.py:18-71)

  function VideoPath(outputDir: string, base: string): string {
    Join(outputDir, base + ".mp4")
  }

  function IndexPath(outputDir: string, base: string): string {
    Join(outputDir, base + "_index.json")
  }

  /** `os.path.join` ends with its last argument unless that argument is empty. */
  lemma JoinEndsWithName(dir: string, name: string)
    requires |name| > 0
    ensures var p := Join(dir, name); |p| >= |name| && p[|p| - |name|..] == name
  {
  }

  /** For a base name without a directory part, the video is `<base>.mp4` and the index
      `<base>_index.json`, each directly inside the output directory. */
  lemma ArtifactPathsInOutputDir(outputDir: string, base: string)
    requires '/' !in base
    ensures var v := VideoPath(outputDir, base);
      && (v == outputDir + (base + ".mp4") || v == outputDir + "/" + (base + ".mp4"))
      && Basename(v) == base + ".mp4"
    ensures var i := IndexPath(outputDir, base);
      && (i == outputDir + (base + "_index.json") || i == outputDir + "/" + (base + "_index.json"))
      && Basename(i) == base + "_index.json"
  {
    NoSlashAppend(base, ".mp4");
    NoSlashAppend(base, "_index.json");
    JoinPlainName(outputDir, base + ".mp4");
    JoinPlainName(outputDir, base + "_index.json");
  }

  lemma NoSlashAppend(a: string, b: string)
    requires '/' !in a && '/' !in b
    ensures '/' !in a + b
  {
    forall k | 0 <= k < |a + b| ensures (a + b)[k] != '/' {
      if k < |a| { assert (a + b)[k] == a[k]; } else { assert (a + b)[k] == b[k - |a|]; }
    }
  }

  /** No video path is ever an index path, whatever the directories and bases: the
      two artifacts of a run never overwrite each other, nor those of another run. */
  lemma VideoNeverIndex(dir1: string, base1: string, dir2: string, base2: string)
    ensures VideoPath(dir1, base1) != IndexPath(dir2, base2)
  {
    var v := VideoPath(dir1, base1);
    var i := IndexPath(dir2, base2);
    JoinEndsWithName(dir1, base1 + ".mp4");
    JoinEndsWithName(dir2, base2 + "_index.json");
    assert v[|v| - 1] == '4';
    assert i[|i| - 1] == 'n';
  }

  function EncodeFailure(base: string, e: PyError): MemvidError {
    EncodingError("MemvidEncoder encoding failed for base '" + base + "': " + e.typeName + " - " + e.message)
  }

  /** `encode_text_to_memvid`: build both artifacts and check they exist. A missing
      artifact raises `MemVidEncodingError` inside the `try`, so it reaches the caller
      re-wrapped like any other exception of the library. */
  function EncodeTextToMemvid(fs: FileSystem, engine: Engine, text: string, base: string,
                              outputDir: string, codec: string, enableDocker: bool): Result<Artifacts, MemvidError>
  {
    var video := VideoPath(outputDir, base);
    var index := IndexPath(outputDir, base);
    match engine.build(fs, text, video, index, codec, enableDocker)
    case Err(e) => Err(EncodeFailure(base, e))
    case Ok(built) =>
      if video !in built then
        Err(EncodeFailure(base, PyError("MemVidEncodingError",
          "MemvidEncoder encoding completed but video file not found: " + video)))
      else if index !in built then
        Err(EncodeFailure(base, PyError("MemVidEncodingError",
          "MemvidEncoder encoding completed but index file not found: " + index)))
      else Ok(Artifacts(built, video, index))
  }

  /** Encoding succeeds exactly when the library returns and both artifacts then exist;
      the result names those artifacts. Every failure is a `MemVidEncodingError`
      whose message names the base and the original exception. */
  lemma EncodeSucceedsIffBothArtifactsExist(fs: FileSystem, engine: Engine, text: string, base: string,
                                           outputDir: string, codec: string, enableDocker: bool)
    ensures var r := EncodeTextToMemvid(fs, engine, text, base, outputDir, codec, enableDocker);
      var built := engine.build(fs, text, VideoPath(outputDir, base), IndexPath(outputDir, base), codec, enableDocker);
      && (r.Ok? <==> built.Ok? && VideoPath(outputDir, base) in built.value && IndexPath(outputDir, base) in built.value)
      && (r.Ok? ==> r.value == Artifacts(built.value, VideoPath(outputDir, base), IndexPath(outputDir, base)))
      && (r.Ok? ==> r.value.video in r.value.fs && r.value.index in r.value.fs)
      && (r.Err? ==> r.error.EncodingError?)
      && (built.Err? ==> r == Err(EncodeFailure(base, built.error)))
  {
  }

  // ---------------------------------------------------------------------------
  // Chunk count of a full decode (memvid_interface.py:95-124)

  function DecodeFailure(video: string, e: PyError): MemvidError {
    DecodingError("MemvidRetriever decoding failed for video '" + video + "': " + e.typeName + " - " + e.message)
  }

  function InvalidCount(video: string): PyError {
    PyError("MemVidDecodingError", "Could not determine a valid number of chunks for video '" + video + "'.")
  }

  /** `'metadata' in index_data and isinstance(index_data['metadata'], list)`: the
      metadata list when the test holds, None when it does not, or the exception the
      test raises on an index that is not a dict. */
  function MetadataList(data: Json): Result<Option<seq<Json>>, PyError> {
    var present :- Contains(data, "metadata");
    if !present then Ok(None)
    else
      var entry :- Subscript(data, "metadata");
      Ok(if entry.JList? then Some(entry.items) else None)
  }

  /** Lines 97-104: the length of the index's metadata list, or nothing; a parse
      failure or a failing test is swallowed. */
  function IndexMetadataCount(parsed: Result<Json, PyError>): Option<Json> {
    if parsed.Err? then None
    else
      match MetadataList(parsed.value)
      case Ok(Some(items)) => Some(JInt(|items|))
      case _ => None
  }

  /** Lines 109-113: `index_summary.total_chunks` of the stats when that is a dict
      and the entry is not None, whatever its type. */
  function SummaryTotal(stats: Json): Result<Option<Json>, PyError> {
    if !Truthy(stats) then Ok(None)
    else
      var summary :- DictGet(stats, "index_summary", JNull);
      if summary.JObject? then
        var total := Lookup(summary.fields, "total_chunks").GetOr(JNull);
        Ok(if total == JNull then None else Some(total))
      else Ok(None)
  }

  /** Lines 115-117: the flat `total_chunks` of the stats, if it is an int. */
  function FlatTotal(stats: Json): Result<Option<Json>, PyError> {
    if !Truthy(stats) then Ok(None)
    else
      var flat :- DictGet(stats, "total_chunks", JNull);
      Ok(if IsPyInt(flat) then Some(flat) else None)
  }

  /** The stats half of the decode chain: the flat field is tried whenever the
      summary gave nothing. */
  function DecodeStatsCount(stats: Json): Result<Option<Json>, PyError> {
    var fromSummary :- SummaryTotal(stats);
    if fromSummary.Some? then Ok(fromSummary) else FlatTotal(stats)
  }

  /** The value `num_chunks` holds at line 119: from the index if it has a metadata list,
      otherwise from the stats (which are only then fetched). */
  function ResolvedDecodeCount(fs: FileSystem, engine: Engine, jsonLoad: JsonLoad, video: string, index: string)
    : Result<Option<Json>, PyError>
    requires index in fs
  {
    var fromIndex := IndexMetadataCount(jsonLoad(fs[index]));
    if fromIndex.Some? then Ok(fromIndex)
    else
      var stats :- engine.getStats(fs, video, index);
      DecodeStatsCount(stats)
  }

  /** A usable chunk count: an int (a bool counts, being an int in Python) that is not negative. */
  predicate ValidCount(v: Option<Json>) {
    v.Some? && IsPyInt(v.value) && PyIntValue(v.value) >= 0
  }

  /** Lines 95-120: the number of chunks a full decode iterates over. */
  function DecodeChunkCount(fs: FileSystem, engine: Engine, jsonLoad: JsonLoad, video: string, index: string)
    : (r: Result<nat, PyError>)
    requires index in fs
    ensures var c := ResolvedDecodeCount(fs, engine, jsonLoad, video, index);
      && (r.Ok? <==> c.Ok? && ValidCount(c.value))
      && (r.Ok? ==> r.value == PyIntValue(c.value.value))
      && (c.Err? ==> r == Err(c.error))
      && (c.Ok? && !ValidCount(c.value) ==> r == Err(InvalidCount(video)))
  {
    var resolved :- ResolvedDecodeCount(fs, engine, jsonLoad, video, index);
    if !ValidCount(resolved) then Err(InvalidCount(video)) else Ok(PyIntValue(resolved.value))
  }

  // ---------------------------------------------------------------------------
  // Full decode (memvid_interface.py:74-141)

  /** `"".join(parts)`. */
  function JoinStrings(parts: seq<string>): string {
    if parts == [] then "" else JoinStrings(parts[..|parts| - 1]) + parts[|parts| - 1]
  }

  /** Lines 126-134 as a fold over ids 0..n-1: present texts are appended in id order,
      None is skipped, and the first exception ends the fold. */
  function DecodeChunks(get: int -> Result<Option<string>, PyError>, n: nat): Result<string, PyError>
    decreases n
  {
    if n == 0 then Ok("")
    else
      var before :- DecodeChunks(get, n - 1);
      var chunk :- get(n - 1);
      Ok(if chunk.Some? then before + chunk.value else before)
  }

  function ChunkGetter(fs: FileSystem, engine: Engine, video: string, index: string): int -> Result<Option<string>, PyError> {
    id => engine.getChunkById(fs, video, index, id)
  }

  /** `decode_memvid_to_text`. The file checks come before the `try`, so they raise
      `MemVidDecodingError` unwrapped and before any retriever exists; everything in
      the `try` is re-wrapped. */
  function DecodeMemvid(fs: FileSystem, engine: Engine, jsonLoad: JsonLoad, video: string, index: string)
    : Result<string, MemvidError>
  {
    if video !in fs then Err(DecodingError("Video file not found for decoding: " + video))
    else if index !in fs then Err(DecodingError("Index file not found for decoding: " + index))
    else if engine.openRetriever(fs, video, index).Some? then
      Err(DecodeFailure(video, engine.openRetriever(fs, video, index).value))
    else
      match DecodeChunkCount(fs, engine, jsonLoad, video, index)
      case Err(e) => Err(DecodeFailure(video, e))
      case Ok(n) =>
        if n == 0 then Ok("")
        else
          match DecodeChunks(ChunkGetter(fs, engine, video, index), n)
          case Err(e) => Err(DecodeFailure(video, e))
          case Ok(text) => Ok(text)
  }

  lemma JoinStringsSnoc(parts: seq<string>, t: string)
    ensures JoinStrings(parts + [t]) == JoinStrings(parts) + t
  {
    assert (parts + [t])[..|parts|] == parts;
  }

  /** Once the fold has raised, later ids do not change the outcome. */
  lemma {:induction false} DecodeChunksErrSticks(get: int -> Result<Option<string>, PyError>, i: nat, n: nat)
    requires i <= n && DecodeChunks(get, i).Err?
    ensures DecodeChunks(get, n) == DecodeChunks(get, i)
    decreases n - i
  {
    if i < n {
      assert DecodeChunks(get, i + 1) == DecodeChunks(get, i);
      DecodeChunksErrSticks(get, i + 1, n);
    }
  }

  /** Lines 95-117 step by step: `num_chunks` starts as None and each source in turn
      may assign it; the exceptions that escape are those of `get_stats()` and of `.get`. */
  method ResolveChunkCount(fs: FileSystem, engine: Engine, jsonLoad: JsonLoad, video: string, index: string)
    returns (r: Result<Option<Json>, PyError>)
    requires index in fs
    ensures r == ResolvedDecodeCount(fs, engine, jsonLoad, video, index)
  {
    var numChunks: Option<Json> := None;
    var parsed := jsonLoad(fs[index]);
    if parsed.Ok? {
      var meta := MetadataList(parsed.value);
      if meta.Ok? && meta.value.Some? {
        numChunks := Some(JInt(|meta.value.value|));
      }
    }
    if numChunks.None? {
      var fetched := engine.getStats(fs, video, index);
      if fetched.Err? {
        return Err(fetched.error);
      }
      var stats := fetched.value;
      if Truthy(stats) {
        var summary := DictGet(stats, "index_summary", JNull);
        if summary.Err? {
          return Err(summary.error);
        }
        if summary.value.JObject? {
          var total := Lookup(summary.value.fields, "total_chunks").GetOr(JNull);
          if total != JNull {
            numChunks := Some(total);
          }
        }
      }
      if numChunks.None? && Truthy(stats) {
        var flat := DictGet(stats, "total_chunks", JNull);
        if flat.Err? {
          return Err(flat.error);
        }
        if IsPyInt(flat.value) {
          numChunks := Some(flat.value);
        }
      }
    }
    return Ok(numChunks);

  }

  /** The full decode, step by step: the fallback chain reassigns `num_chunks`, then a
      loop appends every present chunk text to `parts`. */
  method DecodeMemvidToText(fs: FileSystem, engine: Engine, jsonLoad: JsonLoad, video: string, index: string)
    returns (r: Result<string, MemvidError>)
    ensures r == DecodeMemvid(fs, engine, jsonLoad, video, index)
  {
    if video !in fs {
      return Err(DecodingError("Video file not found for decoding: " + video));
    }
    if index !in fs {
      return Err(DecodingError("Index file not found for decoding: " + index));
    }
    var openErr := engine.openRetriever(fs, video, index);
    if openErr.Some? {
      return Err(DecodeFailure(video, openErr.value));
    }

    var resolved := ResolveChunkCount(fs, engine, jsonLoad, video, index);
    if resolved.Err? {
      return Err(DecodeFailure(video, resolved.error));
    }
    var numChunks := resolved.value;
    if !ValidCount(numChunks) {
      return Err(DecodeFailure(video, InvalidCount(video)));
    }
    var n: nat := PyIntValue(numChunks.value);
    if n == 0 {
      return Ok("");
    }

    ghost var get := ChunkGetter(fs, engine, video, index);
    var parts: seq<string> := [];
    var i := 0;
    while i < n
      invariant 0 <= i <= n
      invariant DecodeChunks(get, i) == Ok(JoinStrings(parts))
    {
      var chunk := engine.getChunkById(fs, video, index, i);
      if chunk.Err? {
        assert DecodeChunks(get, i + 1) == Err(chunk.error);
        DecodeChunksErrSticks(get, i + 1, n);
        return Err(DecodeFailure(video, chunk.error));
      }
      if chunk.value.Some? {
        JoinStringsSnoc(parts, chunk.value.value);
        parts := parts + [chunk.value.value];
      }
      i := i + 1;
    }
    return Ok(JoinStrings(parts));
  }

  // ---------------------------------------------------------------------------
  // One chunk (memvid_interface.py:144-167)

  function ChunkFailure(chunkId: int, video: string, e: PyError): MemvidError {
    DecodingError("Failed to get chunk " + IntToDecimal(chunkId) + " for " + video + ": " + e.typeName + " - " + e.message)
  }

  /** `get_memvid_chunk_content`: a chunk's text, or None when the retriever has none. */
  function GetMemvidChunkContent(fs: FileSystem, engine: Engine, video: string, index: string, chunkId: int)
    : Result<Option<string>, MemvidError>
  {
    if video !in fs then Err(DecodingError("Video file not found: " + video))
    else if index !in fs then Err(DecodingError("Index file not found: " + index))
    else if engine.openRetriever(fs, video, index).Some? then
      Err(ChunkFailure(chunkId, video, engine.openRetriever(fs, video, index).value))
    else
      match engine.getChunkById(fs, video, index, chunkId)
      case Err(e) => Err(ChunkFailure(chunkId, video, e))
      case Ok(text) => Ok(text)
  }

  // ---------------------------------------------------------------------------
  // Metadata summary (memvid_interface.py:170-231)

  /** The `index_file_content_preview` entry of the summary. */
  datatype IndexPreview = IndexPreview(
    chunkMetadataPreview: seq<Json>,
    chunkToFramePreview: seq<Field>,
    frameToChunksPreview: seq<Field>,
    configUsedForEncodingPreview: Json)

  /** The summary dict; an absent key is `None`. */
  datatype MetadataSummary = MetadataSummary(
    numChunks: Json,
    error: Option<string>,
    indexFileContentPreview: Option<IndexPreview>,
    retrieverStats: Option<Json>,
    retrieverStatsError: Option<string>)

  /** Lines 191-194 for one entry: a copy in which a string `text` is replaced by its
      length under `text_length`. Only dicts and lists can be copied, and a list that
      holds "text" fails when it is subscripted with it. */
  function PreviewEntry(entry: Json): Result<Json, PyError> {
    var copy :- Copy(entry);
    var hasText :- Contains(copy, "text");
    if !hasText then Ok(copy)
    else
      var text :- Subscript(copy, "text");
      match copy
      case JObject(fields) =>
        if text.JStr? then Ok(JObject(Delete(Put(fields, "text_length", JInt(|text.s|)), "text"))) else Ok(copy)
      case _ => Ok(copy)
  }

  /** The preview entries of a list, left to right, stopping at the first exception. */
  function PreviewEntries(entries: seq<Json>): Result<seq<Json>, PyError> {
    if entries == [] then Ok([])
    else
      var init :- PreviewEntries(entries[..|entries| - 1]);
      var last :- PreviewEntry(entries[|entries| - 1]);
      Ok(init + [last])
  }

  /** Lines 197-202 once the chunk preview is built: the first five items of each
      mapping table (an absent table reads as `{}`), and the chunking configuration. */
  function MappingPreviews(data: Json, chunkPreview: seq<Json>): Result<IndexPreview, PyError> {
    var chunkToFrame :- DictGet(data, "chunk_to_frame", JObject([]));
    var chunkToFrameItems :- Items(chunkToFrame);
    var frameToChunks :- DictGet(data, "frame_to_chunks", JObject([]));
    var frameToChunksItems :- Items(frameToChunks);
    var config :- DictGet(data, "config", JObject([]));
    var chunking :- DictGet(config, "chunking", JNull);
    Ok(IndexPreview(chunkPreview, FirstItems(chunkToFrameItems, 5), FirstItems(frameToChunksItems, 5), chunking))
  }

  /** Lines 188-202: the whole index preview. */
  function IndexPreviewOf(data: Json): Result<IndexPreview, PyError> {
    var meta :- MetadataList(data);
    var chunkPreview :- PreviewEntries(if meta.Some? then FirstItems(meta.value, 2) else []);
    MappingPreviews(data, chunkPreview)
  }

  /** Lines 214-222: the stats fallback of the summary. It applies only while the count
      is "Unknown", and reaches the flat field through `elif`, that is, only when
      `index_summary` is not a dict. */
  function MetadataStatsFallback(count: Json, stats: Json): Result<Json, PyError> {
    if count == UnknownCount && Truthy(stats) then
      var summary :- DictGet(stats, "index_summary", JNull);
      if summary.JObject? then
        var total := Lookup(summary.fields, "total_chunks").GetOr(JNull);
        Ok(if total != JNull then total else count)
      else
        var flat :- DictGet(stats, "total_chunks", JNull);
        Ok(if IsPyInt(flat) then flat else count)
    else Ok(count)
  }

  /** Lines 209-226: the inner `try`. Its exceptions land in `retriever_stats_error`
      as `str(e)`; the stats are recorded before the fallback looks into them. */
  function WithRetrieverStats(summary: MetadataSummary, fs: FileSystem, engine: Engine, video: string, index: string)
    : MetadataSummary
  {
    if engine.openRetriever(fs, video, index).Some? then
      summary.(retrieverStatsError := Some(engine.openRetriever(fs, video, index).value.message))
    else
      match engine.getStats(fs, video, index)
      case Err(e) => summary.(retrieverStatsError := Some(e.message))
      case Ok(stats) =>
        var withStats := summary.(retrieverStats := Some(stats));
        match MetadataStatsFallback(summary.numChunks, stats)
        case Err(e) => withStats.(retrieverStatsError := Some(e.message))
        case Ok(count) => withStats.(numChunks := count)
  }

  /** Lines 183-222: the outer `try`, up to the exception it may raise. */
  function MetadataTry(fs: FileSystem, engine: Engine, jsonLoad: JsonLoad, video: string, index: string)
    : Result<MetadataSummary, PyError>
    requires index in fs
  {
    var data :- jsonLoad(fs[index]);
    var preview :- IndexPreviewOf(data);
    var meta :- MetadataList(data);
    var summary := MetadataSummary(if meta.Some? then JInt(|meta.value|) else UnknownCount, None, Some(preview), None, None);
    if video in fs then Ok(WithRetrieverStats(summary, fs, engine, video, index)) else Ok(summary)
  }

  function ProcessFailure(e: PyError): string {
    "Could not fully process metadata/index: " + e.typeName + " - " + e.message
  }

  /** `get_memvid_metadata_info`: never raises; failures become keys of the summary. */
  function MetadataInfo(fs: FileSystem, engine: Engine, jsonLoad: JsonLoad, video: string, index: string)
    : MetadataSummary
  {
    if index !in fs then
      MetadataSummary(UnknownCount, Some("Index file not found: " + index), None, None, None)
    else
      match MetadataTry(fs, engine, jsonLoad, video, index)
      case Ok(summary) => summary
      case Err(e) => MetadataSummary(UnknownCount, Some(ProcessFailure(e)), None, None, None)
  }

  /** Lines 188-195: copy, edit and append the first two metadata entries. */
  method PreviewChunkMetadata(metadata: seq<Json>) returns (r: Result<seq<Json>, PyError>)
    ensures r == PreviewEntries(FirstItems(metadata, 2))
  {
    var window := FirstItems(metadata, 2);
    var preview: seq<Json> := [];
    var i := 0;
    while i < |window|
      invariant 0 <= i <= |window|
      invariant PreviewEntries(window[..i]) == Ok(preview)
    {
      assert window[..i + 1][..i] == window[..i];
      var entry := PreviewEntry(window[i]);
      if entry.Err? {
        PreviewEntriesErrSticks(window, i + 1);
        return Err(entry.error);
      }
      preview := preview + [entry.value];
      i := i + 1;
    }
    assert window[..i] == window;
    return Ok(preview);
  }

  /** A failing prefix makes the whole list fail with the same exception. */
  lemma {:induction false} PreviewEntriesErrSticks(entries: seq<Json>, i: nat)
    requires i <= |entries| && PreviewEntries(entries[..i]).Err?
    ensures PreviewEntries(entries) == PreviewEntries(entries[..i])
    decreases |entries| - i
  {
    if i < |entries| {
      assert entries[..i + 1][..i] == entries[..i];
      PreviewEntriesErrSticks(entries, i + 1);
    } else {
      assert entries[..i] == entries;
    }
  }

  /** The summary, built by updating one dict step by step. */
  method GetMemvidMetadataInfo(fs: FileSystem, engine: Engine, jsonLoad: JsonLoad, video: string, index: string)
    returns (s: MetadataSummary)
    ensures s == MetadataInfo(fs, engine, jsonLoad, video, index)
  {
    if index !in fs {
      return MetadataSummary(UnknownCount, Some("Index file not found: " + index), None, None, None);
    }
    s := MetadataSummary(UnknownCount, None, None, None, None);

    var parsed := jsonLoad(fs[index]);
    if parsed.Err? {
      return s.(error := Some(ProcessFailure(parsed.error)));
    }
    var data := parsed.value;
    var meta := MetadataList(data);
    if meta.Err? {
      return s.(error := Some(ProcessFailure(meta.error)));
    }
    var chunkPreview: seq<Json> := [];
    if meta.value.Some? {
      var built := PreviewChunkMetadata(meta.value.value);
      if built.Err? {
        return s.(error := Some(ProcessFailure(built.error)));
      }
      chunkPreview := built.value;
    }
    var preview := MappingPreviews(data, chunkPreview);
    if preview.Err? {
      return s.(error := Some(ProcessFailure(preview.error)));
    }
    s := s.(indexFileContentPreview := Some(preview.value));
    assert IndexPreviewOf(data) == preview;

    if meta.value.Some? {
      s := s.(numChunks := JInt(|meta.value.value|));
    }

    if video in fs {
      var openErr := engine.openRetriever(fs, video, index);
      if openErr.Some? {
        return s.(retrieverStatsError := Some(openErr.value.message));
      }
      var fetched := engine.getStats(fs, video, index);
      if fetched.Err? {
        return s.(retrieverStatsError := Some(fetched.error.message));
      }
      var stats := fetched.value;
      var before := s;
      s := s.(retrieverStats := Some(stats));
      var fallback := MetadataStatsFallback(before.numChunks, stats);
      if fallback.Err? {
        return s.(retrieverStatsError := Some(fallback.error.message));
      }
      s := s.(numChunks := fallback.value);
    }
  }

  // ---------------------------------------------------------------------------
  // Properties of the decode chain

  /** Both file checks precede the retriever: a missing artifact gives the same
      `MemVidDecodingError` whatever the library and the index would do, and every
      failure of the decode is a `MemVidDecodingError`. */
  lemma DecodeMissingArtifacts(fs: FileSystem, engine: Engine, jsonLoad: JsonLoad, video: string, index: string)
    ensures video !in fs ==>
              DecodeMemvid(fs, engine, jsonLoad, video, index) == Err(DecodingError("Video file not found for decoding: " + video))
    ensures video in fs && index !in fs ==>
              DecodeMemvid(fs, engine, jsonLoad, video, index) == Err(DecodingError("Index file not found for decoding: " + index))
    ensures DecodeMemvid(fs, engine, jsonLoad, video, index).Err? ==> DecodeMemvid(fs, engine, jsonLoad, video, index).error.DecodingError?
    ensures DecodeMemvid(fs, engine, jsonLoad, video, index).Ok? ==>
              video in fs && index in fs && engine.openRetriever(fs, video, index).None?
  {
  }

  /** A metadata list in the index decides the count, whatever the stats are: the
      stats are not even fetched. */
  lemma MetadataListWins(fs: FileSystem, engine: Engine, jsonLoad: JsonLoad, video: string, index: string, items: seq<Json>)
    requires index in fs
    requires jsonLoad(fs[index]).Ok? && MetadataList(jsonLoad(fs[index]).value) == Ok(Some(items))
    ensures ResolvedDecodeCount(fs, engine, jsonLoad, video, index) == Ok(Some(JInt(|items|)))
    ensures DecodeChunkCount(fs, engine, jsonLoad, video, index) == Ok(|items|)
  {
  }

  /** Without a metadata list (an unreadable index included), the count is what the
      stats give: `index_summary.total_chunks` when that is present and not None, of
      any type; otherwise the flat `total_chunks` when it is an int. */
  lemma StatsChainPriority(fs: FileSystem, engine: Engine, jsonLoad: JsonLoad, video: string, index: string)
    requires index in fs
    requires IndexMetadataCount(jsonLoad(fs[index])).None?
    ensures ResolvedDecodeCount(fs, engine, jsonLoad, video, index)
            == (match engine.getStats(fs, video, index)
                case Err(e) => Err(e)
                case Ok(stats) => DecodeStatsCount(stats))
    ensures forall stats: Json, summary: seq<Field> ::
              stats.JObject? && Lookup(stats.fields, "index_summary") == Some(JObject(summary))
              && Lookup(summary, "total_chunks").Some? && Lookup(summary, "total_chunks") != Some(JNull)
              ==> DecodeStatsCount(stats) == Ok(Lookup(summary, "total_chunks"))
    ensures forall stats: Json ::
              stats.JObject? && stats.fields != []
              && !(Lookup(stats.fields, "index_summary").Some? && Lookup(stats.fields, "index_summary").value.JObject?
                   && Lookup(Lookup(stats.fields, "index_summary").value.fields, "total_chunks").GetOr(JNull) != JNull)
              ==> DecodeStatsCount(stats)
                  == Ok(var flat := Lookup(stats.fields, "total_chunks").GetOr(JNull); if IsPyInt(flat) then Some(flat) else None)
  {
  }

  /** An index that does not parse is no error: the count then comes from the stats. */
  lemma UnreadableIndexFallsThrough(fs: FileSystem, engine: Engine, jsonLoad: JsonLoad, video: string, index: string)
    requires index in fs && jsonLoad(fs[index]).Err?
    requires engine.getStats(fs, video, index).Ok?
    ensures ResolvedDecodeCount(fs, engine, jsonLoad, video, index) == DecodeStatsCount(engine.getStats(fs, video, index).value)
  {
  }

  /** The count is rejected exactly when it is missing, not an int, or negative. */
  lemma InvalidCountRejected(fs: FileSystem, engine: Engine, jsonLoad: JsonLoad, video: string, index: string)
    requires index in fs && ResolvedDecodeCount(fs, engine, jsonLoad, video, index).Ok?
    ensures var v := ResolvedDecodeCount(fs, engine, jsonLoad, video, index).value;
      && (DecodeChunkCount(fs, engine, jsonLoad, video, index).Err? <==> !ValidCount(v))
      && (!ValidCount(v) ==> DecodeChunkCount(fs, engine, jsonLoad, video, index) == Err(InvalidCount(video)))
      && (ValidCount(v) ==> DecodeChunkCount(fs, engine, jsonLoad, video, index) == Ok(PyIntValue(v.value)))
  {
  }

  /** With no chunks the decode is the empty text, and never asks for a chunk: any two
      libraries that agree on everything but chunk lookup decode alike. */
  lemma ZeroChunksDecodeEmpty(fs: FileSystem, engine: Engine, jsonLoad: JsonLoad, video: string, index: string,
                              chunks: (FileSystem, string, string, int) -> Result<Option<string>, PyError>)
    requires video in fs && index in fs && engine.openRetriever(fs, video, index).None?
    requires DecodeChunkCount(fs, engine, jsonLoad, video, index) == Ok(0)
    ensures DecodeMemvid(fs, engine, jsonLoad, video, index) == Ok("")
    ensures DecodeMemvid(fs, engine.(getChunkById := chunks), jsonLoad, video, index) == Ok("")
  {
    assert ResolvedDecodeCount(fs, engine.(getChunkById := chunks), jsonLoad, video, index)
        == ResolvedDecodeCount(fs, engine, jsonLoad, video, index);
  }

  /** What each id of 0..n-1 answered, None standing in for an exception. */
  function Answers(get: int -> Result<Option<string>, PyError>, n: nat): (r: seq<Option<string>>)
    ensures |r| == n
    ensures forall i :: 0 <= i < n ==> r[i] == (if get(i).Ok? then get(i).value else None)
  {
    seq(n, i => if get(i).Ok? then get(i).value else None)
  }

  /** The texts among the answers, in order. */
  function PresentTexts(answers: seq<Option<string>>): seq<string> {
    if answers == [] then []
    else
      var init := PresentTexts(answers[..|answers| - 1]);
      match answers[|answers| - 1]
      case Some(t) => init + [t]
      case None => init
  }

  /** The decode loop succeeds exactly when no lookup raises; it then yields the
      present chunk texts, joined in id order, and otherwise the exception of the
      first id that raised. */
  lemma {:induction false} DecodeChunksJoinsPresentTexts(get: int -> Result<Option<string>, PyError>, n: nat)
    ensures DecodeChunks(get, n).Ok? <==> forall i :: 0 <= i < n ==> get(i).Ok?
    ensures DecodeChunks(get, n).Ok? ==> DecodeChunks(get, n).value == JoinStrings(PresentTexts(Answers(get, n)))
    ensures DecodeChunks(get, n).Err? ==>
              exists j :: 0 <= j < n && get(j).Err? && DecodeChunks(get, n).error == get(j).error
                          && forall i :: 0 <= i < j ==> get(i).Ok?
  {
    if n > 0 {
      DecodeChunksJoinsPresentTexts(get, n - 1);
      assert Answers(get, n)[..n - 1] == Answers(get, n - 1);
      if DecodeChunks(get, n - 1).Ok? && get(n - 1).Ok? && get(n - 1).value.Some? {
        JoinStringsSnoc(PresentTexts(Answers(get, n - 1)), get(n - 1).value.value);
      }
    }
  }

  /** Ids that answer None add nothing: when every lookup answers None the decode is empty. */
  lemma {:induction false} AllNoneDecodesEmpty(get: int -> Result<Option<string>, PyError>, n: nat)
    requires forall i :: 0 <= i < n ==> get(i) == Ok(None)
    ensures DecodeChunks(get, n) == Ok("")
  {
    if n > 0 {
      AllNoneDecodesEmpty(get, n - 1);
    }
  }

  // ---------------------------------------------------------------------------
  // Properties of single-chunk retrieval

  /** Missing artifacts raise before any retriever exists; a chunk without text is
      None, not an error; every failure is a `MemVidDecodingError`. */
  lemma ChunkContentOutcomes(fs: FileSystem, engine: Engine, video: string, index: string, chunkId: int)
    ensures video !in fs ==> GetMemvidChunkContent(fs, engine, video, index, chunkId) == Err(DecodingError("Video file not found: " + video))
    ensures video in fs && index !in fs ==> GetMemvidChunkContent(fs, engine, video, index, chunkId) == Err(DecodingError("Index file not found: " + index))
    ensures video in fs && index in fs && engine.openRetriever(fs, video, index).None? ==>
              (engine.getChunkById(fs, video, index, chunkId).Ok? <==> GetMemvidChunkContent(fs, engine, video, index, chunkId).Ok?)
    ensures GetMemvidChunkContent(fs, engine, video, index, chunkId).Ok? ==>
              GetMemvidChunkContent(fs, engine, video, index, chunkId).value == engine.getChunkById(fs, video, index, chunkId).value
    ensures GetMemvidChunkContent(fs, engine, video, index, chunkId).Err? ==> GetMemvidChunkContent(fs, engine, video, index, chunkId).error.DecodingError?
  {
  }

  // ---------------------------------------------------------------------------
  // Properties of the metadata summary

  lemma {:induction false} PreviewEntriesLength(entries: seq<Json>)
    ensures PreviewEntries(entries).Ok? ==> |PreviewEntries(entries).value| == |entries|
  {
    if entries != [] {
      PreviewEntriesLength(entries[..|entries| - 1]);
    }
  }

  /** The previews are bounded: at most two metadata entries, five items of each mapping table. */
  lemma PreviewBounds(data: Json)
    ensures IndexPreviewOf(data).Ok? ==>
      var p := IndexPreviewOf(data).value;
      |p.chunkMetadataPreview| <= 2 && |p.chunkToFramePreview| <= 5 && |p.frameToChunksPreview| <= 5
  {
    match MetadataList(data)
    case Ok(Some(items)) => PreviewEntriesLength(FirstItems(items, 2));
    case _ =>
  }

  /** A dict entry with a string `text` previews as the same dict with `text` gone and
      `text_length` holding the text's length; every other key reads as before. */
  lemma PreviewReplacesText(fields: seq<Field>, text: string)
    requires UniqueKeys(fields) && Lookup(fields, "text") == Some(JStr(text))
    ensures PreviewEntry(JObject(fields)).Ok? && PreviewEntry(JObject(fields)).value.JObject?
    ensures var out := PreviewEntry(JObject(fields)).value.fields;
      && !HasKey(out, "text")
      && Lookup(out, "text_length") == Some(JInt(|text|))
      && forall k :: k != "text" && k != "text_length" ==> Lookup(out, k) == Lookup(fields, k)
  {
    var put := Put(fields, "text_length", JInt(|text|));
    var out := Delete(put, "text");
    assert PreviewEntry(JObject(fields)) == Ok(JObject(out)) by {
      var v := JObject(fields);
      assert Copy(v) == Ok(v);
      assert Contains(v, "text") == Ok(true);
      assert Subscript(v, "text") == Ok(JStr(text));
    }
    ReplaceTextKeys(fields, text);
  }

  /** The dict of the preview: `text_length` set, then `text` deleted. */
  lemma ReplaceTextKeys(fields: seq<Field>, text: string)
    requires UniqueKeys(fields)
    ensures var out := Delete(Put(fields, "text_length", JInt(|text|)), "text");
      && !HasKey(out, "text")
      && Lookup(out, "text_length") == Some(JInt(|text|))
      && forall k :: k != "text" && k != "text_length" ==> Lookup(out, k) == Lookup(fields, k)
  {
    var put := Put(fields, "text_length", JInt(|text|));
    PutUnique(fields, "text_length", JInt(|text|));
    var out := Delete(put, "text");
    LookupDelete(put, "text", "text");
    LookupDelete(put, "text", "text_length");
    LookupPut(fields, "text_length", JInt(|text|), "text_length");
    forall k | k != "text" && k != "text_length" ensures Lookup(out, k) == Lookup(fields, k) {
      LookupDelete(put, "text", k);
      LookupPut(fields, "text_length", JInt(|text|), k);
    }
  }

  /** An entry without a `text` key, or whose `text` is not a string, previews as itself. */
  lemma PreviewKeepsOtherEntries(fields: seq<Field>)
    requires !(Lookup(fields, "text").Some? && Lookup(fields, "text").value.JStr?)
    ensures PreviewEntry(JObject(fields)) == Ok(JObject(fields))
  {
  }

  /** A missing index gives "Unknown" and an error, and nothing else. */
  lemma MetadataMissingIndex(fs: FileSystem, engine: Engine, jsonLoad: JsonLoad, video: string, index: string)
    requires index !in fs
    ensures MetadataInfo(fs, engine, jsonLoad, video, index)
            == MetadataSummary(UnknownCount, Some("Index file not found: " + index), None, None, None)
  {
  }

  /** An index that does not parse gives "Unknown" and an error naming the exception. */
  lemma MetadataUnreadableIndex(fs: FileSystem, engine: Engine, jsonLoad: JsonLoad, video: string, index: string)
    requires index in fs && jsonLoad(fs[index]).Err?
    ensures MetadataInfo(fs, engine, jsonLoad, video, index).numChunks == UnknownCount
    ensures MetadataInfo(fs, engine, jsonLoad, video, index).error == Some(ProcessFailure(jsonLoad(fs[index]).error))
  {
  }

  /** Whenever the summary has no error, a metadata list in the index decides the count,
      whatever the stats say. */
  lemma MetadataListAuthoritative(fs: FileSystem, engine: Engine, jsonLoad: JsonLoad, video: string, index: string, items: seq<Json>)
    requires index in fs && jsonLoad(fs[index]).Ok? && MetadataList(jsonLoad(fs[index]).value) == Ok(Some(items))
    requires MetadataInfo(fs, engine, jsonLoad, video, index).error.None?
    ensures MetadataInfo(fs, engine, jsonLoad, video, index).numChunks == JInt(|items|)
  {
  }

  /** Stats are consulted only when the video exists. */
  lemma MetadataStatsNeedVideo(fs: FileSystem, engine: Engine, jsonLoad: JsonLoad, video: string, index: string)
    requires video !in fs
    ensures MetadataInfo(fs, engine, jsonLoad, video, index).retrieverStats.None?
    ensures MetadataInfo(fs, engine, jsonLoad, video, index).retrieverStatsError.None?
    ensures MetadataInfo(fs, engine, jsonLoad, video, index).numChunks == UnknownCount
            || exists items :: MetadataInfo(fs, engine, jsonLoad, video, index).numChunks == JInt(|items|)
                               && MetadataList(jsonLoad(fs[index]).value) == Ok(Some(items))
  {
    if index in fs && MetadataTry(fs, engine, jsonLoad, video, index).Ok? {
      var meta := MetadataList(jsonLoad(fs[index]).value);
      if meta.value.Some? {
        assert MetadataInfo(fs, engine, jsonLoad, video, index).numChunks == JInt(|meta.value.value|);
      }
    }
  }

  /** A stats dict whose `index_summary` is a dict without a usable `total_chunks`. */
  predicate SummaryLacksTotal(stats: Json) {
    && stats.JObject? && Lookup(stats.fields, "index_summary").Some?
    && Lookup(stats.fields, "index_summary").value.JObject?
    && Lookup(Lookup(stats.fields, "index_summary").value.fields, "total_chunks").GetOr(JNull) == JNull
  }

  /** The two chains part ways on one kind of stats only: an `index_summary` dict
      without `total_chunks`. The summary then keeps "Unknown" whatever the flat
      `total_chunks` holds, while the decode goes on to the flat field. */
  lemma StatsChainsDiverge(stats: Json)
    requires SummaryLacksTotal(stats)
    ensures MetadataStatsFallback(UnknownCount, stats) == Ok(UnknownCount)
    ensures DecodeStatsCount(stats) == FlatTotal(stats)
    ensures FlatTotal(stats).Ok?
  {
  }

  /** One such value, where the decode counts three chunks and the summary none. */
  lemma StatsChainsDivergeExample()
    ensures var stats := JObject([("index_summary", JObject([])), ("total_chunks", JInt(3))]);
      && SummaryLacksTotal(stats)
      && DecodeStatsCount(stats) == Ok(Some(JInt(3)))
      && MetadataStatsFallback(UnknownCount, stats) == Ok(UnknownCount)
  {
  }

  /** On every other stats value the two chains agree: both raise or neither does, and
      where the decode finds a count the summary holds that count. */
  lemma StatsChainsAgree(stats: Json)
    requires !SummaryLacksTotal(stats)
    ensures DecodeStatsCount(stats).Err? <==> MetadataStatsFallback(UnknownCount, stats).Err?
    ensures DecodeStatsCount(stats).Ok? ==>
              MetadataStatsFallback(UnknownCount, stats).value == DecodeStatsCount(stats).value.GetOr(UnknownCount)
  {
  }

  /** Once a full decode has succeeded, the summary's count is "Unknown" or the very
      count the decode used, which is a non-negative int. */
  lemma MetadataCountAfterDecode(fs: FileSystem, engine: Engine, jsonLoad: JsonLoad, video: string, index: string)
    requires DecodeMemvid(fs, engine, jsonLoad, video, index).Ok?
    ensures index in fs
    ensures var m := MetadataInfo(fs, engine, jsonLoad, video, index).numChunks;
      m == UnknownCount
      || (ResolvedDecodeCount(fs, engine, jsonLoad, video, index) == Ok(Some(m)) && ValidCount(Some(m)))
  {
    var info := MetadataInfo(fs, engine, jsonLoad, video, index);
    if MetadataTry(fs, engine, jsonLoad, video, index).Ok? {
      var data := jsonLoad(fs[index]).value;
      var meta := MetadataList(data).value;
      if meta.None? && video in fs {
        var stats := engine.getStats(fs, video, index).value;
        assert ResolvedDecodeCount(fs, engine, jsonLoad, video, index) == DecodeStatsCount(stats);
        if !SummaryLacksTotal(stats) {
          StatsChainsAgree(stats);
        }
      }
    }
  }
}
