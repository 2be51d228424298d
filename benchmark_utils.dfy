/** The benchmark runner: measure a document's text, encode it to a video and an
    index, decode it back, compare digests, and time a few single-chunk lookups,
    collecting everything in one metrics record that is returned whatever happens.

    Extraction, hashing, compression, the clock and `str()` of arbitrary values are
    collaborators: the extracted text is a parameter, SHA-256 and gzip are functions
    on bytes, the measured durations come in a `Timing`. */
module BenchmarkUtils {
  import opened Wrappers
  import opened PyText
  import opened PyValue
  import opened PyPath
  import opened MemvidInterface

  predicate IsHexChar(c: char) {
    '0' <= c <= '9' || 'a' <= c <= 'f'
  }

  predicate IsHexDigest(d: string) {
    |d| == 64 && forall k :: 0 <= k < |d| ==> IsHexChar(d[k])
  }

  /** `hexdigest()` of a SHA-256 hash: 64 lower-case hex digits. */
  type Digest = d: string | IsHexDigest(d)
    witness seq(64, _ => '0')

  /** `gzip.compress` output: a member has a 10-byte header and an 8-byte trailer
      (section 2.3 of RFC 1952), so it is never shorter than 18 bytes. */
  type GzipMember = b: seq<byte> | |b| >= 18
    witness [0x1f, 0x8b, 8, 0, 0, 0, 0, 0, 0, 3, 3, 0, 0, 0, 0, 0, 0, 0]

  type Seconds = r: real | r >= 0.0

  /** The functions the runner hands work to besides the interface. `render` is
      `str(v)` for a value that is neither an int nor a str. */
  datatype Collaborators = Collaborators(
    sha256: seq<byte> -> Digest,
    gzip: seq<byte> -> GzipMember,
    render: Json -> string)

  /** The four calls the runner makes into the interface, with the encoder and
      retriever settings of the run already applied: encode (filesystem, text, base),
      full decode, metadata summary, and single-chunk lookup of an encode's artifacts. */
  datatype Interface = Interface(
    encode: (FileSystem, string, string) -> Result<Artifacts, MemvidError>,
    decode: Artifacts -> Result<string, MemvidError>,
    metadataInfo: Artifacts -> MetadataSummary,
    chunkContent: (Artifacts, int) -> Result<Option<string>, MemvidError>)

  /** The interface of memvid_interface.py for one library, index parser and encoder settings. */
  function Wired(engine: Engine, jsonLoad: JsonLoad, outputDir: string, codec: string, docker: bool): Interface {
    Interface(
      (fs, text, base) => EncodeTextToMemvid(fs, engine, text, base, outputDir, codec, docker),
      (art: Artifacts) => DecodeMemvid(art.fs, engine, jsonLoad, art.video, art.index),
      (art: Artifacts) => MetadataInfo(art.fs, engine, jsonLoad, art.video, art.index),
      (art: Artifacts, id: int) => GetMemvidChunkContent(art.fs, engine, art.video, art.index, id))
  }

  /** The durations `perf_counter` differences give: one encode, one full decode, and
      one lookup per chunk id. */
  datatype Timing = Timing(encode: Seconds, decodeFull: Seconds, chunk: int -> Seconds)

  // ---------------------------------------------------------------------------
  // Helper functions (benchmark_utils.py:16-39)

  /** `get_file_size`: the size of a file, 0 when it does not exist. */
  function GetFileSize(fs: FileSystem, path: string): (r: nat)
    ensures path !in fs ==> r == 0
    ensures path in fs ==> r == |fs[path]|
  {
    if path in fs then |fs[path]| else 0
  }

  /** `get_text_size_bytes`: the UTF-8 length; zero exactly for the empty text, and
      between one and four bytes per character. */
  function GetTextSizeBytes(s: string): (r: nat)
    ensures r == 0 <==> s == []
    ensures |s| <= r <= 4 * |s|
    ensures r == Utf8Length(s)
  {
    Utf8EncodeLength(s);
    if s != [] then |Utf8Encode(s)| else 0
  }

  /** `gzip_text`: the compressed size; zero exactly for the empty text, since any
      gzip member of a non-empty text is at least 18 bytes. */
  function GzipText(gzip: seq<byte> -> GzipMember, s: string): (r: nat)
    ensures r == 0 <==> s == []
    ensures s != [] ==> r >= 18
  {
    if s == [] then 0 else |gzip(Utf8Encode(s))|
  }

  /** `calculate_sha256`: "" exactly for None, a hex digest of the UTF-8 bytes otherwise
      (so the empty text has a digest too). */
  function CalculateSha256(sha256: seq<byte> -> Digest, s: Option<string>): (r: string)
    ensures r == "" <==> s.None?
    ensures s.Some? ==> IsHexDigest(r)
  {
    if s.None? then "" else sha256(Utf8Encode(s.value))
  }

  // ---------------------------------------------------------------------------
  // The metrics record (benchmark_utils.py:57-79)

  datatype Metrics = Metrics(
    originalFilename: string,
    timestamp: string,
    encoderCodec: string,
    encoderDockerEnabled: bool,
    originalTextSizeBytes: nat,
    gzippedTextSizeBytes: nat,
    memvidVideoFileSizeBytes: nat,
    memvidIndexFileSizeBytes: nat,
    totalMemvidStorageBytes: nat,
    decodedCanonicalTextSizeBytes: nat,
    encodingTimeSeconds: Seconds,
    decodingFullTimeSeconds: Seconds,
    decodingAvgChunkTimeSeconds: Option<real>,
    numMemvidChunks: Json,
    originalTextSha256: string,
    decodedCanonicalTextSha256: string,
    accuracyCheckInputVsDecodedPassed: bool,
    errorMessage: Option<string>)

  /** The record every run starts from: nothing measured, count "Unknown", no error. */
  function InitialMetrics(originalFilename: string, timestamp: string, codec: string, docker: bool): Metrics {
    Metrics(originalFilename, timestamp, codec, docker, 0, 0, 0, 0, 0, 0, 0.0, 0.0, None,
            UnknownCount, "", "", false, None)
  }

  /** The facts every record the runner returns satisfies. */
  predicate MetricsInvariant(m: Metrics) {
    && m.totalMemvidStorageBytes == m.memvidVideoFileSizeBytes + m.memvidIndexFileSizeBytes
    && (m.originalTextSha256 == "" <==> m.originalTextSizeBytes == 0)
    && (m.gzippedTextSizeBytes == 0 <==> m.originalTextSizeBytes == 0)
    && (m.decodedCanonicalTextSha256 == "" ==> m.decodedCanonicalTextSizeBytes == 0)
    && (m.accuracyCheckInputVsDecodedPassed ==>
          m.originalTextSha256 == m.decodedCanonicalTextSha256 && m.originalTextSha256 != "")
    && (m.decodingAvgChunkTimeSeconds.Some? ==>
          IsPyInt(m.numMemvidChunks) && PyIntValue(m.numMemvidChunks) > 0 && m.decodingAvgChunkTimeSeconds.value >= 0.0)
    && (m.errorMessage.None? <==> m.accuracyCheckInputVsDecodedPassed)
  }

  const ExtractFailedMessage := "Failed to extract text from original file."
  const EmptyTextMessage := "Extracted text is empty or whitespace only."
  const AccuracyFailedMessage := "Accuracy (Input vs. Decoded Canonical) FAILED. "

  /** `(metrics.get("error_message") or "") + s`. */
  function AppendError(current: Option<string>, s: string): (r: Option<string>)
    ensures r.Some? && |r.value| == |current.GetOr("")| + |s|
    ensures r.value[..|current.GetOr("")|] == current.GetOr("") && r.value[|current.GetOr("")|..] == s
  {
    Some(current.GetOr("") + s)
  }

  /** The tag each `except` clause puts before the exception's text. */
  function ErrorTag(e: MemvidError): string {
    match e
    case EncodingError(_) => " MemVidEncodingError: "
    case DecodingError(_) => " MemVidDecodingError: "
  }

  /** Lines 217-222: a caught exception of the interface. */
  function Caught(m: Metrics, e: MemvidError): Metrics {
    m.(errorMessage := AppendError(m.errorMessage, ErrorTag(e) + e.message))
  }

  // ---------------------------------------------------------------------------
  // Chunk sampling (benchmark_utils.py:183-212)

  predicate StrictlyIncreasing(s: seq<int>) {
    forall i, j :: 0 <= i < j < |s| ==> s[i] < s[j]
  }

  /** The ids sampled for a count of `n`: the first, the last and the middle one,
      each once, in ascending order. */
  function SampleIds(n: int): seq<int>
    requires n > 0
  {
    if n == 1 then [0] else if n == 2 then [0, 1] else [0, n / 2, n - 1]
  }

  /** Inserts `x` into an ascending list without duplicates, keeping it so. */
  function InsertSorted(s: seq<int>, x: int): (r: seq<int>)
    requires StrictlyIncreasing(s)
    ensures StrictlyIncreasing(r)
    ensures forall y :: y in r <==> y in s || y == x
  {
    if s == [] then [x]
    else if x < s[0] then [x] + s
    else if x == s[0] then s
    else
      var rest := InsertSorted(s[1..], x);
      assert forall y :: y in s <==> y == s[0] || y in s[1..];
      AboveHead(s, rest, x);
      [s[0]] + rest
  }

  /** Every element of the rest, whether from `s[1..]` or the inserted `x`, lies above `s[0]`. */
  lemma AboveHead(s: seq<int>, rest: seq<int>, x: int)
    requires StrictlyIncreasing(s) && s != [] && x > s[0]
    requires StrictlyIncreasing(rest)
    requires forall y :: y in rest <==> y in s[1..] || y == x
    ensures StrictlyIncreasing([s[0]] + rest)
  {
    forall k | 0 <= k < |rest| ensures rest[k] > s[0] {
      assert rest[k] in rest;
      if rest[k] != x {
        var j :| 0 <= j < |s[1..]| && s[1..][j] == rest[k];
        assert s[j + 1] == rest[k];
      }
    }
    var r := [s[0]] + rest;
    forall i, j | 0 <= i < j < |r| ensures r[i] < r[j] {
      assert r[j] == rest[j - 1];
      if i > 0 {
        assert r[i] == rest[i - 1];
      }
    }
  }

  /** `sorted(list(set(xs)))`. */
  function SortedDistinct(xs: seq<int>): (r: seq<int>)
    ensures StrictlyIncreasing(r)
    ensures forall y :: y in r <==> y in xs
  {
    if xs == [] then []
    else
      assert forall y :: y in xs <==> y in xs[..|xs| - 1] || y == xs[|xs| - 1];
      InsertSorted(SortedDistinct(xs[..|xs| - 1]), xs[|xs| - 1])
  }

  /** An ascending list without duplicates is fixed by its elements. */
  lemma {:induction false} IncreasingBySet(a: seq<int>, b: seq<int>)
    requires StrictlyIncreasing(a) && StrictlyIncreasing(b)
    requires forall y :: y in a <==> y in b
    ensures a == b
  {
    if a == [] {
      HeadIsElement(b);
    } else {
      assert a[0] in a;
      assert b != [];
      assert b[0] in a;
      assert a[0] == b[0];
      forall y ensures y in a[1..] <==> y in b[1..] {
        assert y in a <==> y == a[0] || y in a[1..];
        assert y in b <==> y == b[0] || y in b[1..];
        assert a[0] !in a[1..];
        assert b[0] !in b[1..];
      }
      IncreasingBySet(a[1..], b[1..]);
      assert a == [a[0]] + a[1..];
      assert b == [b[0]] + b[1..];
    }
  }

  lemma HeadIsElement(s: seq<int>)
    ensures s != [] ==> s[0] in s
  {
  }

  /** Lines 184-189: the id list built by appends, then sorted and deduplicated. */
  method ChunkIdsToTest(n: int) returns (ids: seq<int>)
    requires n > 0
    ensures ids == SampleIds(n)
  {
    var picked := [0];
    if n > 1 {
      picked := picked + [n - 1];
    }
    if n > 2 {
      picked := picked + [n / 2];
    }
    ids := SortedDistinct(picked);
    IncreasingBySet(ids, SampleIds(n));
  }

  /** The sampled ids lie in range, ascending and distinct, and are exactly 0, n-1
      when n > 1, and n/2 when n > 2. */
  lemma SampleIdsProperties(n: int)
    requires n > 0
    ensures StrictlyIncreasing(SampleIds(n))
    ensures forall i :: 0 <= i < |SampleIds(n)| ==> 0 <= SampleIds(n)[i] < n
    ensures forall x :: x in SampleIds(n) <==> x == 0 || (n > 1 && x == n - 1) || (n > 2 && x == n / 2)
    ensures 1 <= |SampleIds(n)| <= 3
  {
  }

  lemma SampleIdsExamples()
    ensures SampleIds(1) == [0]
    ensures SampleIds(2) == [0, 1]
    ensures SampleIds(5) == [0, 2, 4]
    ensures SampleIds(100) == [0, 50, 99]
  {
  }

  datatype Totals = Totals(total: real, successes: nat)

  /** Lines 191-207 as a fold: a lookup that raised adds neither to the time nor to
      the count. */
  function SampleTotals(ids: seq<int>, ok: int -> bool, time: int -> Seconds): Totals {
    if ids == [] then Totals(0.0, 0)
    else
      var before := SampleTotals(ids[..|ids| - 1], ok, time);
      var id := ids[|ids| - 1];
      if ok(id) then Totals(before.total + time(id), before.successes + 1) else before
  }

  /** Whether the single-chunk lookup returns for an id (a None text included). */
  function ChunkSucceeds(iface: Interface, art: Artifacts): int -> bool {
    id => iface.chunkContent(art, id).Ok?
  }

  function PyStr(render: Json -> string, v: Json): string {
    if v.JStr? then v.s else render(v)
  }

  /** Lines 178-212 on the count the summary reported. */
  function ChunkStage(m: Metrics, count: Json, render: Json -> string, ok: int -> bool, time: int -> Seconds): Metrics {
    if IsPyInt(count) then
      var counted := m.(numMemvidChunks := count);
      var n := PyIntValue(count);
      if n > 0 then
        var t := SampleTotals(SampleIds(n), ok, time);
        if t.successes > 0 then counted.(decodingAvgChunkTimeSeconds := Some(t.total / t.successes as real))
        else counted
      else counted
    else m.(numMemvidChunks := JStr(PyStr(render, count)))
  }

  /** The lookups counted are those that returned, and only their times are summed. */
  lemma {:induction false} SampleTotalsCounts(ids: seq<int>, ok: int -> bool, time: int -> Seconds)
    ensures SampleTotals(ids, ok, time).successes <= |ids|
    ensures SampleTotals(ids, ok, time).successes == 0 <==> forall i :: 0 <= i < |ids| ==> !ok(ids[i])
    ensures SampleTotals(ids, ok, time).successes == |ids| <==> forall i :: 0 <= i < |ids| ==> ok(ids[i])
    ensures SampleTotals(ids, ok, time).total >= 0.0
  {
    if ids != [] {
      var init := ids[..|ids| - 1];
      SampleTotalsCounts(init, ok, time);
      assert forall i :: 0 <= i < |init| ==> init[i] == ids[i];
    }
  }

  /** The times of lookups that raised do not matter. */
  lemma {:induction false} SampleTotalsIgnoreFailed(ids: seq<int>, ok: int -> bool, time1: int -> Seconds, time2: int -> Seconds)
    requires forall i :: 0 <= i < |ids| && ok(ids[i]) ==> time1(ids[i]) == time2(ids[i])
    ensures SampleTotals(ids, ok, time1) == SampleTotals(ids, ok, time2)
  {
    if ids != [] {
      var init := ids[..|ids| - 1];
      assert forall i :: 0 <= i < |init| ==> init[i] == ids[i];
      SampleTotalsIgnoreFailed(init, ok, time1, time2);
    }
  }

  /** When every successful lookup took between `lo` and `hi`, so does the average. */
  lemma {:induction false} SampleTotalsBounds(ids: seq<int>, ok: int -> bool, time: int -> Seconds, lo: real, hi: real)
    requires forall i :: 0 <= i < |ids| && ok(ids[i]) ==> lo <= time(ids[i]) <= hi
    ensures var t := SampleTotals(ids, ok, time);
      lo * t.successes as real <= t.total <= hi * t.successes as real
  {
    if ids != [] {
      var init := ids[..|ids| - 1];
      assert forall i :: 0 <= i < |init| ==> init[i] == ids[i];
      SampleTotalsBounds(init, ok, time, lo, hi);
    }
  }

  lemma AverageWithinBounds(ids: seq<int>, ok: int -> bool, time: int -> Seconds, lo: real, hi: real)
    requires forall i :: 0 <= i < |ids| && ok(ids[i]) ==> lo <= time(ids[i]) <= hi
    requires SampleTotals(ids, ok, time).successes > 0
    ensures var t := SampleTotals(ids, ok, time);
      lo <= t.total / t.successes as real <= hi
  {
    var t := SampleTotals(ids, ok, time);
    SampleTotalsBounds(ids, ok, time, lo, hi);
    var c := t.successes as real;
    assert lo * c <= t.total <= hi * c;
    DivisionBounds(t.total, c, lo, hi);
  }

  lemma DivisionBounds(x: real, c: real, lo: real, hi: real)
    requires c > 0.0 && lo * c <= x <= hi * c
    ensures lo <= x / c <= hi
  {
    var q := x / c;
    assert q * c == x;
  }

  /** Lines 177-212: the count is stored, and for a positive int count the sampled
      lookups are timed; the average is there exactly when some lookup returned. */
  method AnalyzeChunks(m: Metrics, count: Json, render: Json -> string, iface: Interface, art: Artifacts,
                       time: int -> Seconds)
    returns (r: Metrics)
    ensures r == ChunkStage(m, count, render, ChunkSucceeds(iface, art), time)
  {
    if !IsPyInt(count) {
      return m.(numMemvidChunks := JStr(PyStr(render, count)));
    }
    r := m.(numMemvidChunks := count);
    var n := PyIntValue(count);
    if n > 0 {
      var ids := ChunkIdsToTest(n);
      ghost var ok := ChunkSucceeds(iface, art);
      var total: real := 0.0;
      var successes: nat := 0;
      var i := 0;
      while i < |ids|
        invariant 0 <= i <= |ids|
        invariant SampleTotals(ids[..i], ok, time) == Totals(total, successes)
      {
        assert ids[..i + 1][..i] == ids[..i];
        var outcome := iface.chunkContent(art, ids[i]);
        if outcome.Ok? {
          total := total + time(ids[i]);
          successes := successes + 1;
        }
        i := i + 1;
      }
      assert ids[..i] == ids;
      if successes > 0 {
        r := r.(decodingAvgChunkTimeSeconds := Some(total / successes as real));
      }
    }
  }

  // ---------------------------------------------------------------------------
  // The staged pipeline (benchmark_utils.py:44-235)

  /** Lines 99-101: the stripped text's measures. */
  function MeasureText(m: Metrics, lib: Collaborators, stripped: string): Metrics {
    m.(originalTextSizeBytes := GetTextSizeBytes(stripped),
       gzippedTextSizeBytes := GzipText(lib.gzip, stripped),
       originalTextSha256 := CalculateSha256(lib.sha256, Some(stripped)))
  }

  /** Lines 117-123: encode time and artifact sizes. */
  function MeasureArtifacts(m: Metrics, art: Artifacts, encodeTime: Seconds): Metrics {
    var video := GetFileSize(art.fs, art.video);
    var index := GetFileSize(art.fs, art.index);
    m.(encodingTimeSeconds := encodeTime,
       memvidVideoFileSizeBytes := video,
       memvidIndexFileSizeBytes := index,
       totalMemvidStorageBytes := video + index)
  }

  /** Lines 137-166: decode time, the decoded text's measures and the digest comparison. */
  function CheckAccuracy(m: Metrics, lib: Collaborators, decoded: string, decodeTime: Seconds): Metrics {
    var stripped := Strip(decoded);
    var checked := m.(decodingFullTimeSeconds := decodeTime,
                      decodedCanonicalTextSha256 := CalculateSha256(lib.sha256, Some(stripped)),
                      decodedCanonicalTextSizeBytes := GetTextSizeBytes(stripped));
    if checked.originalTextSha256 == checked.decodedCanonicalTextSha256 then
      checked.(accuracyCheckInputVsDecodedPassed := true)
    else
      checked.(accuracyCheckInputVsDecodedPassed := false,
               errorMessage := AppendError(checked.errorMessage, AccuracyFailedMessage))
  }

  /** The base name the artifacts are named after: the file name without directory
      and extension. */
  function OutputBase(originalFilename: string): string {
    SplitextRoot(Basename(originalFilename))
  }

  /** Lines 137-212: after a successful encode, decode, check and sample. */
  function FromDecode(m: Metrics, lib: Collaborators, iface: Interface, art: Artifacts, timing: Timing): Metrics {
    match iface.decode(art)
    case Err(e) => Caught(m, e)
    case Ok(decoded) =>
      var checked := CheckAccuracy(m, lib, decoded, timing.decodeFull);
      ChunkStage(checked, iface.metadataInfo(art).numChunks, lib.render, ChunkSucceeds(iface, art), timing.chunk)
  }

  /** Lines 106-212: after the text is measured, encode and go on. */
  function FromEncode(m: Metrics, lib: Collaborators, iface: Interface, fs: FileSystem, raw: string,
                      originalFilename: string, timing: Timing): Metrics {
    match iface.encode(fs, raw, OutputBase(originalFilename))
    case Err(e) => Caught(m, e)
    case Ok(art) => FromDecode(MeasureArtifacts(m, art, timing.encode), lib, iface, art, timing)
  }

  /** `run_benchmark_for_file`, stage by stage. `extracted` is what text extraction
      returned for the input. */
  function Benchmark(fs: FileSystem, lib: Collaborators, iface: Interface, extracted: Option<string>,
                     originalFilename: string, codec: string, docker: bool, timestamp: string, timing: Timing): Metrics
  {
    var initial := InitialMetrics(originalFilename, timestamp, codec, docker);
    match extracted
    case None => initial.(errorMessage := Some(ExtractFailedMessage))
    case Some(raw) =>
      var stripped := Strip(raw);
      if stripped == [] then initial.(errorMessage := Some(EmptyTextMessage))
      else FromEncode(MeasureText(initial, lib, stripped), lib, iface, fs, raw, originalFilename, timing)
  }

  /** The runner, updating one record from stage to stage. It never raises: every
      path ends in a record that satisfies the invariant. */
  method RunBenchmarkForFile(fs: FileSystem, lib: Collaborators, engine: Engine, jsonLoad: JsonLoad,
                             extracted: Option<string>, originalFilename: string, outputDir: string,
                             codec: string, docker: bool, timestamp: string, timing: Timing)
    returns (m: Metrics)
    ensures m == Benchmark(fs, lib, Wired(engine, jsonLoad, outputDir, codec, docker), extracted,
                           originalFilename, codec, docker, timestamp, timing)
    ensures MetricsInvariant(m)
  {
    BenchmarkInvariant(fs, lib, Wired(engine, jsonLoad, outputDir, codec, docker), extracted,
                       originalFilename, codec, docker, timestamp, timing);
    m := InitialMetrics(originalFilename, timestamp, codec, docker);
    if extracted.None? {
      m := m.(errorMessage := Some(ExtractFailedMessage));
      return;
    }
    var raw := extracted.value;
    var stripped := Strip(raw);
    if stripped == [] {
      m := m.(errorMessage := Some(EmptyTextMessage));
      return;
    }
    m := m.(originalTextSizeBytes := GetTextSizeBytes(stripped));
    m := m.(gzippedTextSizeBytes := GzipText(lib.gzip, stripped));
    m := m.(originalTextSha256 := CalculateSha256(lib.sha256, Some(stripped)));
    assert m == MeasureText(InitialMetrics(originalFilename, timestamp, codec, docker), lib, stripped);
    m := EncodeAndMeasure(m, fs, lib, engine, jsonLoad, raw, originalFilename, outputDir, codec, docker, timing);
  }

  /** Lines 106-126: encode the raw text, then record the encode time and the artifact sizes. */
  method EncodeAndMeasure(m0: Metrics, fs: FileSystem, lib: Collaborators, engine: Engine, jsonLoad: JsonLoad,
                          raw: string, originalFilename: string, outputDir: string, codec: string, docker: bool,
                          timing: Timing)
    returns (m: Metrics)
    ensures m == FromEncode(m0, lib, Wired(engine, jsonLoad, outputDir, codec, docker), fs, raw, originalFilename, timing)
  {
    m := m0;
    var base := SplitextRoot(Basename(originalFilename));
    var encoded := EncodeTextToMemvid(fs, engine, raw, base, outputDir, codec, docker);
    if encoded.Err? {
      m := m.(errorMessage := AppendError(m.errorMessage, ErrorTag(encoded.error) + encoded.error.message));
      return;
    }
    var art := encoded.value;
    m := m.(encodingTimeSeconds := timing.encode);
    m := m.(memvidVideoFileSizeBytes := GetFileSize(art.fs, art.video));
    m := m.(memvidIndexFileSizeBytes := GetFileSize(art.fs, art.index));
    m := m.(totalMemvidStorageBytes := m.memvidVideoFileSizeBytes + m.memvidIndexFileSizeBytes);
    assert m == MeasureArtifacts(m0, art, timing.encode);
    m := DecodeAndCheck(m, lib, engine, jsonLoad, art, outputDir, codec, docker, timing);
  }

  /** Lines 128-212: decode in full, compare digests, then analyse the chunks. */
  method DecodeAndCheck(m0: Metrics, lib: Collaborators, engine: Engine, jsonLoad: JsonLoad, art: Artifacts,
                        outputDir: string, codec: string, docker: bool, timing: Timing)
    returns (m: Metrics)
    ensures m == FromDecode(m0, lib, Wired(engine, jsonLoad, outputDir, codec, docker), art, timing)
  {
    m := m0;
    var decoded := DecodeMemvidToText(art.fs, engine, jsonLoad, art.video, art.index);
    if decoded.Err? {
      m := m.(errorMessage := AppendError(m.errorMessage, ErrorTag(decoded.error) + decoded.error.message));
      return;
    }
    m := m.(decodingFullTimeSeconds := timing.decodeFull);
    var decodedStripped := Strip(decoded.value);
    m := m.(decodedCanonicalTextSha256 := CalculateSha256(lib.sha256, Some(decodedStripped)));
    m := m.(decodedCanonicalTextSizeBytes := GetTextSizeBytes(decodedStripped));
    if m.originalTextSha256 == m.decodedCanonicalTextSha256 {
      m := m.(accuracyCheckInputVsDecodedPassed := true);
    } else {
      m := m.(accuracyCheckInputVsDecodedPassed := false);
      m := m.(errorMessage := AppendError(m.errorMessage, AccuracyFailedMessage));
    }
    assert m == CheckAccuracy(m0, lib, decoded.value, timing.decodeFull);

    var summary := GetMemvidMetadataInfo(art.fs, engine, jsonLoad, art.video, art.index);
    m := AnalyzeChunks(m, summary.numChunks, lib.render, Wired(engine, jsonLoad, outputDir, codec, docker), art, timing.chunk);
  }

  // ---------------------------------------------------------------------------
  // Properties of the runner

  /** Sampling touches only the count and the average. */
  lemma ChunkStageFrame(m: Metrics, count: Json, render: Json -> string, ok: int -> bool, time: int -> Seconds)
    ensures var r := ChunkStage(m, count, render, ok, time);
      r == m.(numMemvidChunks := r.numMemvidChunks, decodingAvgChunkTimeSeconds := r.decodingAvgChunkTimeSeconds)
  {
  }

  lemma ChunkStageInvariant(m: Metrics, count: Json, render: Json -> string, ok: int -> bool, time: int -> Seconds)
    requires MetricsInvariant(m) && m.decodingAvgChunkTimeSeconds.None?
    ensures MetricsInvariant(ChunkStage(m, count, render, ok, time))
  {
    if IsPyInt(count) && PyIntValue(count) > 0 {
      var t := SampleTotals(SampleIds(PyIntValue(count)), ok, time);
      SampleTotalsCounts(SampleIds(PyIntValue(count)), ok, time);
      if t.successes > 0 {
        assert t.total / t.successes as real >= 0.0;
      }
    }
  }

  /** A record whose input text is measured, before any check or error. */
  predicate Measured(m: Metrics) {
    && m.totalMemvidStorageBytes == m.memvidVideoFileSizeBytes + m.memvidIndexFileSizeBytes
    && m.originalTextSha256 != "" && m.originalTextSizeBytes > 0 && m.gzippedTextSizeBytes > 0
    && m.decodedCanonicalTextSha256 == "" && m.decodedCanonicalTextSizeBytes == 0
    && !m.accuracyCheckInputVsDecodedPassed && m.errorMessage.None? && m.decodingAvgChunkTimeSeconds.None?
  }

  lemma FromDecodeInvariant(m: Metrics, lib: Collaborators, iface: Interface, art: Artifacts, timing: Timing)
    requires Measured(m)
    ensures MetricsInvariant(FromDecode(m, lib, iface, art, timing))
  {
    if iface.decode(art).Ok? {
      var checked := CheckAccuracy(m, lib, iface.decode(art).value, timing.decodeFull);
      assert MetricsInvariant(checked);
      ChunkStageInvariant(checked, iface.metadataInfo(art).numChunks, lib.render, ChunkSucceeds(iface, art), timing.chunk);
    }
  }

  lemma FromEncodeInvariant(m: Metrics, lib: Collaborators, iface: Interface, fs: FileSystem, raw: string,
                            originalFilename: string, timing: Timing)
    requires Measured(m)
    ensures MetricsInvariant(FromEncode(m, lib, iface, fs, raw, originalFilename, timing))
  {
    if iface.encode(fs, raw, OutputBase(originalFilename)).Ok? {
      var art := iface.encode(fs, raw, OutputBase(originalFilename)).value;
      FromDecodeInvariant(MeasureArtifacts(m, art, timing.encode), lib, iface, art, timing);
    }
  }

  /** Every record the runner returns satisfies `MetricsInvariant`, whatever the
      interface does: the storage total adds up, a text was measured exactly when it
      has a digest, a passed check means equal digests, an average needs a positive int
      count, and the error message is absent exactly when the accuracy check passed. */
  lemma BenchmarkInvariant(fs: FileSystem, lib: Collaborators, iface: Interface, extracted: Option<string>,
                           originalFilename: string, codec: string, docker: bool, timestamp: string, timing: Timing)
    ensures MetricsInvariant(Benchmark(fs, lib, iface, extracted, originalFilename, codec, docker, timestamp, timing))
  {
    if extracted.Some? && Strip(extracted.value) != [] {
      var measured := MeasureText(InitialMetrics(originalFilename, timestamp, codec, docker), lib, Strip(extracted.value));
      FromEncodeInvariant(measured, lib, iface, fs, extracted.value, originalFilename, timing);
    }
  }

  /** A failed or blank extraction returns the initial record with its message: all
      sizes 0, both digests "", and the interface never called, so it does not matter. */
  lemma ExtractionFailureDefaults(fs: FileSystem, lib: Collaborators, iface: Interface, other: Interface,
                                  extracted: Option<string>, originalFilename: string, codec: string, docker: bool,
                                  timestamp: string, timing: Timing)
    requires extracted.None? || AllSpace(extracted.value)
    ensures var m := Benchmark(fs, lib, iface, extracted, originalFilename, codec, docker, timestamp, timing);
      && m == InitialMetrics(originalFilename, timestamp, codec, docker)
                .(errorMessage := Some(if extracted.None? then ExtractFailedMessage else EmptyTextMessage))
      && m == Benchmark(fs, lib, other, extracted, originalFilename, codec, docker, timestamp, timing)
  {
    if extracted.Some? {
      StripEmptyIffAllSpace(extracted.value);
    }
  }

  /** The stages after measuring keep the input text's measures. */
  lemma FromEncodeKeepsTextMeasures(m: Metrics, lib: Collaborators, iface: Interface, fs: FileSystem, raw: string,
                                    originalFilename: string, timing: Timing)
    ensures var r := FromEncode(m, lib, iface, fs, raw, originalFilename, timing);
      && r.originalTextSizeBytes == m.originalTextSizeBytes
      && r.gzippedTextSizeBytes == m.gzippedTextSizeBytes
      && r.originalTextSha256 == m.originalTextSha256
  {
    if iface.encode(fs, raw, OutputBase(originalFilename)).Ok? {
      var art := iface.encode(fs, raw, OutputBase(originalFilename)).value;
      FromDecodeKeepsTextMeasures(MeasureArtifacts(m, art, timing.encode), lib, iface, art, timing);
    }
  }

  lemma FromDecodeKeepsTextMeasures(m: Metrics, lib: Collaborators, iface: Interface, art: Artifacts, timing: Timing)
    ensures var r := FromDecode(m, lib, iface, art, timing);
      && r.originalTextSizeBytes == m.originalTextSizeBytes
      && r.gzippedTextSizeBytes == m.gzippedTextSizeBytes
      && r.originalTextSha256 == m.originalTextSha256
  {
    if iface.decode(art).Ok? {
      var checked := CheckAccuracy(m, lib, iface.decode(art).value, timing.decodeFull);
      ChunkStageFrame(checked, iface.metadataInfo(art).numChunks, lib.render, ChunkSucceeds(iface, art), timing.chunk);
    }
  }

  /** Sizes and digest are taken of the stripped text, while the encoder is handed
      the text as extracted; an encoding failure is reported with its tag. */
  lemma MeasuresStrippedEncodesRaw(fs: FileSystem, lib: Collaborators, iface: Interface, raw: string,
                                   originalFilename: string, codec: string, docker: bool, timestamp: string, timing: Timing)
    requires !AllSpace(raw)
    ensures var m := Benchmark(fs, lib, iface, Some(raw), originalFilename, codec, docker, timestamp, timing);
      && m.originalTextSizeBytes == |Utf8Encode(Strip(raw))| > 0
      && m.gzippedTextSizeBytes == |lib.gzip(Utf8Encode(Strip(raw)))|
      && m.originalTextSha256 == lib.sha256(Utf8Encode(Strip(raw)))
      && var encoded := iface.encode(fs, raw, OutputBase(originalFilename));
         (encoded.Err? ==> m.errorMessage == Some(ErrorTag(encoded.error) + encoded.error.message))
  {
    StripEmptyIffAllSpace(raw);
    Utf8EncodeLength(Strip(raw));
    var measured := MeasureText(InitialMetrics(originalFilename, timestamp, codec, docker), lib, Strip(raw));
    FromEncodeKeepsTextMeasures(measured, lib, iface, fs, raw, originalFilename, timing);
  }

  /** After a decode: a failure is reported with its tag and the check stays failed.
      A success passes the check exactly when the digests agree; a mismatch appends
      the accuracy message and the chunk analysis still runs on the summary's count. */
  lemma FromDecodeAccuracy(m: Metrics, lib: Collaborators, iface: Interface, art: Artifacts, timing: Timing)
    requires m.errorMessage.None? && !m.accuracyCheckInputVsDecodedPassed
    ensures var r := FromDecode(m, lib, iface, art, timing);
      && (iface.decode(art).Err? ==>
            r.errorMessage == Some(ErrorTag(iface.decode(art).error) + iface.decode(art).error.message)
            && !r.accuracyCheckInputVsDecodedPassed)
      && (iface.decode(art).Ok? ==>
            (r.accuracyCheckInputVsDecodedPassed <==>
               m.originalTextSha256 == CalculateSha256(lib.sha256, Some(Strip(iface.decode(art).value)))))
    ensures var r := FromDecode(m, lib, iface, art, timing);
      var count := iface.metadataInfo(art).numChunks;
      iface.decode(art).Ok? ==>
        && r.decodedCanonicalTextSha256 == CalculateSha256(lib.sha256, Some(Strip(iface.decode(art).value)))
        && r.errorMessage == (if r.accuracyCheckInputVsDecodedPassed then None
                              else AppendError(m.errorMessage, AccuracyFailedMessage))
        && r.numMemvidChunks == (if IsPyInt(count) then count else JStr(PyStr(lib.render, count)))
  {
    if iface.decode(art).Ok? {
      var checked := CheckAccuracy(m, lib, iface.decode(art).value, timing.decodeFull);
      ChunkStageFrame(checked, iface.metadataInfo(art).numChunks, lib.render, ChunkSucceeds(iface, art), timing.chunk);
    }
  }

  /** Once the encode succeeds, a failed decode is reported with its tag; after a
      successful decode the check passes exactly when the stripped input and the
      stripped decode have the same digest, so a decode that gives back the input, up
      to surrounding whitespace, always passes. */
  lemma AccuracyIffDigestsMatch(fs: FileSystem, lib: Collaborators, iface: Interface, raw: string,
                                originalFilename: string, codec: string, docker: bool, timestamp: string, timing: Timing)
    requires !AllSpace(raw)
    requires iface.encode(fs, raw, OutputBase(originalFilename)).Ok?
    ensures var art := iface.encode(fs, raw, OutputBase(originalFilename)).value;
      var decoded := iface.decode(art);
      var m := Benchmark(fs, lib, iface, Some(raw), originalFilename, codec, docker, timestamp, timing);
      && (decoded.Err? ==> m.errorMessage == Some(ErrorTag(decoded.error) + decoded.error.message)
                           && !m.accuracyCheckInputVsDecodedPassed)
      && (decoded.Ok? ==>
            (m.accuracyCheckInputVsDecodedPassed <==>
               lib.sha256(Utf8Encode(Strip(raw))) == lib.sha256(Utf8Encode(Strip(decoded.value)))))
      && (decoded.Ok? && Strip(decoded.value) == Strip(raw) ==> m.accuracyCheckInputVsDecodedPassed)
      && (decoded.Ok? ==>
            m.errorMessage == if m.accuracyCheckInputVsDecodedPassed then None else Some(AccuracyFailedMessage))
  {
    StripEmptyIffAllSpace(raw);
    var art := iface.encode(fs, raw, OutputBase(originalFilename)).value;
    var measured := MeasureText(InitialMetrics(originalFilename, timestamp, codec, docker), lib, Strip(raw));
    FromDecodeAccuracy(MeasureArtifacts(measured, art, timing.encode), lib, iface, art, timing);
  }

  /** With the interface of memvid_interface.py, every failure the runner reports is
      tagged by the interface's own exception class: encoding failures as
      `MemVidEncodingError`, decoding failures as `MemVidDecodingError`. */
  lemma WiredErrorTags(fs: FileSystem, engine: Engine, jsonLoad: JsonLoad, outputDir: string, codec: string,
                       docker: bool, raw: string, base: string)
    ensures var iface := Wired(engine, jsonLoad, outputDir, codec, docker);
      var encoded := iface.encode(fs, raw, base);
      && (encoded.Err? ==> ErrorTag(encoded.error) == " MemVidEncodingError: ")
      && (encoded.Ok? && iface.decode(encoded.value).Err? ==> ErrorTag(iface.decode(encoded.value).error) == " MemVidDecodingError: ")
  {
    EncodeSucceedsIffBothArtifactsExist(fs, engine, raw, base, outputDir, codec, docker);
    if EncodeTextToMemvid(fs, engine, raw, base, outputDir, codec, docker).Ok? {
      var art := EncodeTextToMemvid(fs, engine, raw, base, outputDir, codec, docker).value;
      DecodeMissingArtifacts(art.fs, engine, jsonLoad, art.video, art.index);
    }
  }

  lemma FromDecodeChunkCount(m: Metrics, lib: Collaborators, engine: Engine, jsonLoad: JsonLoad, outputDir: string,
                             codec: string, docker: bool, art: Artifacts, timing: Timing, render: Json -> string)
    requires m.numMemvidChunks == UnknownCount
    ensures var iface := Wired(engine, jsonLoad, outputDir, codec, docker);
      var r := FromDecode(m, lib, iface, art, timing);
      && (r.numMemvidChunks == UnknownCount || (IsPyInt(r.numMemvidChunks) && PyIntValue(r.numMemvidChunks) >= 0))
      && r == FromDecode(m, lib.(render := render), iface, art, timing)
  {
    var iface := Wired(engine, jsonLoad, outputDir, codec, docker);
    if iface.decode(art).Ok? {
      assert iface.decode(art) == DecodeMemvid(art.fs, engine, jsonLoad, art.video, art.index);
      MetadataCountAfterDecode(art.fs, engine, jsonLoad, art.video, art.index);
      assert iface.metadataInfo(art) == MetadataInfo(art.fs, engine, jsonLoad, art.video, art.index);
    }
  }

  /** With the interface of memvid_interface.py, the stored chunk count is always
      "Unknown" or a non-negative int: the summary is read only after a successful
      decode, which has validated the count, so `str()` of any other value is never taken. */
  lemma StoredChunkCount(fs: FileSystem, lib: Collaborators, engine: Engine, jsonLoad: JsonLoad,
                         extracted: Option<string>, originalFilename: string, outputDir: string, codec: string,
                         docker: bool, timestamp: string, timing: Timing, render: Json -> string)
    ensures var iface := Wired(engine, jsonLoad, outputDir, codec, docker);
      var m := Benchmark(fs, lib, iface, extracted, originalFilename, codec, docker, timestamp, timing);
      && (m.numMemvidChunks == UnknownCount || (IsPyInt(m.numMemvidChunks) && PyIntValue(m.numMemvidChunks) >= 0))
      && m == Benchmark(fs, lib.(render := render), iface, extracted, originalFilename, codec, docker, timestamp, timing)
  {
    var iface := Wired(engine, jsonLoad, outputDir, codec, docker);
    if extracted.Some? && Strip(extracted.value) != [] {
      var measured := MeasureText(InitialMetrics(originalFilename, timestamp, codec, docker), lib, Strip(extracted.value));
      var measured' := MeasureText(InitialMetrics(originalFilename, timestamp, codec, docker), lib.(render := render), Strip(extracted.value));
      assert measured' == measured;
      var encoded := iface.encode(fs, extracted.value, OutputBase(originalFilename));
      if encoded.Ok? {
        var art := encoded.value;
        FromDecodeChunkCount(MeasureArtifacts(measured, art, timing.encode), lib, engine, jsonLoad, outputDir, codec,
                             docker, art, timing, render);
      }
    }
  }

  /** The average is present exactly when the sampling ran with a positive int count
      and some sampled lookup returned; it then lies between the fastest and the
      slowest successful lookup, and failed lookups play no part in it. */
  lemma AverageOnlyFromSuccesses(m: Metrics, count: Json, render: Json -> string, ok: int -> bool, time: int -> Seconds,
                                 lo: real, hi: real)
    requires m.decodingAvgChunkTimeSeconds.None?
    ensures var r := ChunkStage(m, count, render, ok, time);
      r.decodingAvgChunkTimeSeconds.Some? <==>
        IsPyInt(count) && PyIntValue(count) > 0 && exists id :: id in SampleIds(PyIntValue(count)) && ok(id)
    ensures var r := ChunkStage(m, count, render, ok, time);
      r.decodingAvgChunkTimeSeconds.Some? && (forall id :: id in SampleIds(PyIntValue(count)) && ok(id) ==> lo <= time(id) <= hi)
      ==> lo <= r.decodingAvgChunkTimeSeconds.value <= hi
  {
    if IsPyInt(count) && PyIntValue(count) > 0 {
      var ids := SampleIds(PyIntValue(count));
      SampleTotalsCounts(ids, ok, time);
      if SampleTotals(ids, ok, time).successes > 0 && (forall id :: id in ids && ok(id) ==> lo <= time(id) <= hi) {
        AverageWithinBounds(ids, ok, time, lo, hi);
      }
    }
  }
}
