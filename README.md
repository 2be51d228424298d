# MemVid evaluator benchmark harness, modelled in Dafny

This project models the core of the MemVid evaluator. The evaluator is a harness that
puts a text into a MemVid video (`encode_text_to_memvid`), reads it back
(`decode_memvid_to_text`), summarises the index (`get_memvid_metadata_info`) and times
single-chunk lookups (`get_memvid_chunk_content`). `run_benchmark_for_file` records all
of this in one metrics record, and `save_metrics_to_csv` appends such records to a CSV
log.

The modules are:

- `Wrappers`: `Option` and `Result`.
- `PyText`: `str.strip()`, UTF-8 encoding (RFC 3629, section 3) and `str(int)`.
- `PyPath`: `os.path.join`, `basename` and the root half of `splitext`.
- `PyValue`: the Python values the harness inspects (parsed JSON, retriever stats). It gives each expression the harness evaluates on them (`in`, `[]`, `.get`, `.items()`, `.copy()`) together with the exception that expression raises on a value of the wrong type.
- `MemvidInterface`: `memvid_interface.py`.
- `BenchmarkUtils`: the helpers and the runner of `benchmark_utils.py`.
- `MetricsCsv`: the CSV writer of `benchmark_utils.py`.

The collaborators outside the harness are parameters:

- The file system is a map from path to bytes.
- `MemvidEncoder.build_video`, the retriever's constructor, `get_stats()` and `get_chunk_by_id()` are the four function fields of `Engine`.
- `json.load` is a function from bytes to a value or an exception.
- SHA-256 and gzip are functions whose results are a 64-character hex digest and a gzip member of at least 18 bytes (RFC 1952, section 2.3).
- Text extraction is the `Option<string>` it returns.
- Each duration is a non-negative real supplied by a `Timing` value.

The code works by updating state step by step, and the model has the same form:

- `decode_memvid_to_text` reassigns `num_chunks` through its fallback chain and then loops over the chunks. `DecodeMemvidToText` and `ResolveChunkCount` are methods that do the same.
- The metadata summary is one dict updated in place. `GetMemvidMetadataInfo` is a method with a preview loop in `PreviewChunkMetadata`.
- The runner updates one record stage by stage, in `RunBenchmarkForFile`, `EncodeAndMeasure`, `DecodeAndCheck` and `AnalyzeChunks`. The last of these has the timing loop.
- The CSV log is a class, `MetricsLog`, whose `SaveMetricsToCsv` appends lines in a loop.

Each method is proved equal to a function, and the properties are lemmas about those
functions. The runner's stages are also written against an `Interface` record, so that
the lemmas that hold for any interface say so. `Wired` is the interface that
`memvid_interface.py` provides.

Where the documented behaviour of the system and the code disagree, the model follows
the code:

- The writer is documented to fail with a `PersistenceError` when the log cannot be written. The code catches an `IOError` from `open` and only reports it.
- The metadata summary stores `index_summary.total_chunks` whatever its type.
- The summary reaches the flat `total_chunks` through an `elif`, so only when `index_summary` is not a dict.
- A digest mismatch is reported as `accuracy_check_input_vs_decoded_passed = False` and a message, not as a separate kind of condition.

## Model

| member | source | states |
|---|---|---|
| PyText.Strip | benchmark_utils.py:93 | `strip()` returns a slice of the input with only whitespace cut from each side, and the slice neither starts nor ends with whitespace |
| PyText.StripEmptyIffAllSpace | benchmark_utils.py:93-97 | the stripped text is empty exactly when every character is whitespace, which is the "empty or whitespace only" test |
| PyText.StripIdempotent | benchmark_utils.py:93 | stripping twice is stripping once |
| PyText.Utf8EncodeLength | benchmark_utils.py:22-26 | the UTF-8 form has between one and four bytes per character, and is empty only for the empty text |
| PyText.Utf8EncodeAppend | benchmark_utils.py:25 | encoding distributes over concatenation |
| PyText.Utf8EncodeAscii | benchmark_utils.py:25 | ASCII text encodes to its own character codes |
| PyText.NatToDecimal | memvid_interface.py:167 | `str(n)` is a non-empty run of digits with no leading zero |
| PyText.NatToDecimalRoundTrip | memvid_interface.py:167 | the chunk id in the error text reads back as the id |
| PyPath.LastIndexOf | benchmark_utils.py:106 | the last index of the character, or -1 when it is absent |
| PyPath.Join | memvid_interface.py:35-37 | `join(a, b)` is `b` for an absolute `b`; otherwise `a`, then one '/' exactly when `a` is non-empty and does not end in '/', then `b` |
| PyPath.Basename | benchmark_utils.py:106 | `basename` is the suffix of the path that contains no '/' and starts at the path's start or straight after a '/' |
| PyPath.SplitextRoot | benchmark_utils.py:106 | the `splitext` root is a prefix of the name; it is shorter exactly when the name has a cut point, and it then ends right before the last '.', which has no '/' after it and a non-'.' before it in the last component |
| PyPath.SplitextRootNoSlash | benchmark_utils.py:106 | cutting the extension off a base name leaves no '/' in it |
| PyPath.JoinPlainName | memvid_interface.py:35-37 | joining a plain file name gives the directory and at most one '/', then the name, so `basename` returns the name |
| PyValue.Lookup | memvid_interface.py:201 | `d.get(k)` finds a value exactly when the key is present, and the value is the one at the key's first position |
| PyValue.Put | memvid_interface.py:193 | setting a new key appends it last |
| PyValue.Delete | memvid_interface.py:194 | `del d[k]` removes the item at the key's first position and keeps the others in order; on distinct keys, `k` is then absent |
| PyValue.DeleteUnique | memvid_interface.py:194 | `del d[k]` keeps the keys distinct and every other key present |
| PyValue.FirstItems | memvid_interface.py:190-200 | the slice `[:2]` and the five-item comprehensions keep the first min(n, len) elements, in order |
| PyValue.LookupPut | memvid_interface.py:193 | after `d[k] = v`, `k` reads `v` and every other key reads as before |
| PyValue.PutUnique | memvid_interface.py:193 | `d[k] = v` keeps the keys distinct |
| PyValue.HasKeyPut | memvid_interface.py:193 | after `d[k] = v` the keys are the old ones plus `k` |
| PyValue.LookupDelete | memvid_interface.py:194 | after `del d[k]`, `k` is gone and every other key reads as before |
| MemvidInterface.ArtifactPathsInOutputDir | memvid_interface.py:34-37 | video `<base>.mp4` and index `<base>_index.json` lie directly in the output directory and have those names as basenames |
| MemvidInterface.JoinEndsWithName | memvid_interface.py:35-37 | a joined path ends with the file name |
| MemvidInterface.VideoNeverIndex | memvid_interface.py:34-37 | no video path equals any index path, so the two artifacts never overwrite each other |
| MemvidInterface.EncodeTextToMemvid | memvid_interface.py:18-71 | the encode: a build, then the two existence checks, with every exception wrapped; its promises are stated by EncodeSucceedsIffBothArtifactsExist and ArtifactPathsInOutputDir |
| MemvidInterface.EncodeSucceedsIffBothArtifactsExist | memvid_interface.py:46-71 | encoding succeeds exactly when the build returns and both files then exist; every failure is a `MemVidEncodingError`, and a library exception is wrapped with the base name |
| MemvidInterface.DecodeStatsCount | memvid_interface.py:106-117 | the decode's stats fallback: the summary's total, else the flat int total; its promises are stated by StatsChainPriority, StatsChainsDiverge and StatsChainsAgree |
| MemvidInterface.DecodeChunkCount | memvid_interface.py:95-120 | the count is accepted exactly when the fallback chain produced a non-negative int (or bool), and it is then that value; a raising chain passes its exception on, and any other value gives the invalid-count error |
| MemvidInterface.ResolveChunkCount | memvid_interface.py:95-117 | the step-by-step reassignment of `num_chunks` yields the resolved count |
| MemvidInterface.DecodeMemvid | memvid_interface.py:74-141 | the full decode: file checks, the count, then the chunk loop; its promises are stated by DecodeMemvidToText, DecodeMissingArtifacts, ZeroChunksDecodeEmpty and DecodeChunksJoinsPresentTexts |
| MemvidInterface.DecodeMemvidToText | memvid_interface.py:84-141 | the imperative decode, checks, count and append loop, returns exactly the decode function's result |
| MemvidInterface.DecodeMissingArtifacts | memvid_interface.py:84-87 | a missing video or index gives its unwrapped "not found" error whatever the library does; every decode failure is a `MemVidDecodingError` |
| MemvidInterface.MetadataListWins | memvid_interface.py:97-102 | a `metadata` list in the index sets the count to its length, whatever the stats |
| MemvidInterface.StatsChainPriority | memvid_interface.py:106-117 | without such a list, a non-None `index_summary.total_chunks` of any type wins, otherwise an int flat `total_chunks` |
| MemvidInterface.UnreadableIndexFallsThrough | memvid_interface.py:97-108 | an unparsable index is not an error: the count then comes from the stats |
| MemvidInterface.InvalidCountRejected | memvid_interface.py:119-120 | the count is rejected exactly when it is missing, not an int, or negative |
| MemvidInterface.ZeroChunksDecodeEmpty | memvid_interface.py:122-124 | a zero count decodes to "" and never looks up a chunk |
| MemvidInterface.DecodeChunksErrSticks | memvid_interface.py:126-134 | once a lookup has raised, later ids do not change the outcome |
| MemvidInterface.DecodeChunksJoinsPresentTexts | memvid_interface.py:126-134 | the loop succeeds exactly when no lookup raises and then joins the non-None texts in id order; otherwise it fails with the first raised exception |
| MemvidInterface.AllNoneDecodesEmpty | memvid_interface.py:126-134 | lookups that all answer None decode to "" |
| MemvidInterface.GetMemvidChunkContent | memvid_interface.py:144-167 | one chunk's text or None, or a `MemVidDecodingError`; its promises are stated by ChunkContentOutcomes |
| MemvidInterface.ChunkContentOutcomes | memvid_interface.py:155-167 | missing files raise before the retriever is built; a None chunk is returned, not raised; every failure is a `MemVidDecodingError` |
| MemvidInterface.PreviewEntry | memvid_interface.py:191-194 | one metadata entry's preview; its promises are stated by PreviewReplacesText and PreviewKeepsOtherEntries |
| MemvidInterface.PreviewChunkMetadata | memvid_interface.py:188-195 | the copy-edit-append loop yields the previews of the first two entries, or the first exception |
| MemvidInterface.PreviewEntriesErrSticks | memvid_interface.py:190-195 | an exception on one entry ends the preview with that exception |
| MemvidInterface.PreviewEntriesLength | memvid_interface.py:188-195 | a successful preview has one entry per input entry |
| MemvidInterface.PreviewBounds | memvid_interface.py:188-202 | previews hold at most two metadata entries and five items of each mapping table |
| MemvidInterface.PreviewReplacesText | memvid_interface.py:191-194 | a string `text` is replaced by `text_length` holding its length, and every other key is kept |
| MemvidInterface.ReplaceTextKeys | memvid_interface.py:193-194 | setting `text_length` and deleting `text` leaves `text` absent, `text_length` holding the length, and every other key as before |
| MemvidInterface.PreviewKeepsOtherEntries | memvid_interface.py:191-195 | an entry without a string `text` previews as itself |
| MemvidInterface.MetadataStatsFallback | memvid_interface.py:214-222 | the summary's stats fallback while the count is "Unknown"; its promises are stated by StatsChainsDiverge and StatsChainsAgree |
| MemvidInterface.MetadataInfo | memvid_interface.py:170-231 | the summary, which never raises; its promises are stated by GetMemvidMetadataInfo, MetadataMissingIndex, MetadataUnreadableIndex, MetadataListAuthoritative, MetadataStatsNeedVideo and MetadataCountAfterDecode |
| MemvidInterface.GetMemvidMetadataInfo | memvid_interface.py:179-231 | the dict updated one step at a time equals the summary function |
| MemvidInterface.MetadataMissingIndex | memvid_interface.py:179-180 | a missing index gives exactly "Unknown" and the not-found error |
| MemvidInterface.MetadataUnreadableIndex | memvid_interface.py:183-229 | an unparsable index gives "Unknown" and the "Could not fully process" error naming the exception |
| MemvidInterface.MetadataListAuthoritative | memvid_interface.py:205-206 | without an error, a `metadata` list decides the summary's count |
| MemvidInterface.MetadataStatsNeedVideo | memvid_interface.py:208-226 | without a video there are no stats and no stats error, and the count is "Unknown" or the list's length |
| MemvidInterface.StatsChainsDiverge | memvid_interface.py:214-222 | for every stats dict whose `index_summary` is a dict without a usable `total_chunks`, the summary keeps "Unknown" whatever the flat field holds, while decoding takes the flat field |
| MemvidInterface.StatsChainsDivergeExample | memvid_interface.py:214-222 | one such dict, with an int flat `total_chunks` of 3: decoding counts 3 chunks and the summary keeps "Unknown" |
| MemvidInterface.StatsChainsAgree | memvid_interface.py:214-222 | on every other stats value the two fallback chains raise alike and give the same count |
| MemvidInterface.MetadataCountAfterDecode | memvid_interface.py:205-222 | after a successful decode the summary's count is "Unknown" or the decode's own validated count |
| BenchmarkUtils.GetFileSize | benchmark_utils.py:16-20 | 0 for a missing file, otherwise its length |
| BenchmarkUtils.GetTextSizeBytes | benchmark_utils.py:22-26 | 0 exactly for the empty text, otherwise the UTF-8 length, between one and four bytes per character |
| BenchmarkUtils.GzipText | benchmark_utils.py:28-33 | 0 exactly for the empty text, otherwise at least the 18 bytes of a gzip member |
| BenchmarkUtils.CalculateSha256 | benchmark_utils.py:35-39 | "" exactly for None, otherwise a 64-digit hex digest, the empty text included |
| BenchmarkUtils.AppendError | benchmark_utils.py:160-162 | the message only grows: the old text (or "") comes first, then the new text |
| BenchmarkUtils.InsertSorted | benchmark_utils.py:189 | inserting keeps the list ascending and duplicate-free, with the old elements and the new one |
| BenchmarkUtils.SortedDistinct | benchmark_utils.py:189 | `sorted(list(set(xs)))` is ascending, without duplicates, with the same elements |
| BenchmarkUtils.IncreasingBySet | benchmark_utils.py:189 | an ascending, duplicate-free list is fixed by its elements |
| BenchmarkUtils.ChunkIdsToTest | benchmark_utils.py:184-189 | the appended list, sorted and deduplicated, is the sample id list |
| BenchmarkUtils.SampleIds | benchmark_utils.py:184-189 | the sampled ids; their promises are stated by SampleIdsProperties, ChunkIdsToTest and SampleIdsExamples |
| BenchmarkUtils.SampleIdsProperties | benchmark_utils.py:184-189 | the sample ids lie in [0, n), ascend strictly, have one to three elements, and are exactly 0, n-1 when n > 1 and n//2 when n > 2 |
| BenchmarkUtils.SampleIdsExamples | benchmark_utils.py:184-189 | n=1 gives [0], n=2 gives [0, 1], n=5 gives [0, 2, 4] |
| BenchmarkUtils.SampleTotals | benchmark_utils.py:191-207 | the timing loop's totals; their promises are stated by SampleTotalsCounts, SampleTotalsIgnoreFailed and SampleTotalsBounds |
| BenchmarkUtils.SampleTotalsCounts | benchmark_utils.py:191-207 | successes count the lookups that returned: none exactly when all raised, all exactly when none did |
| BenchmarkUtils.SampleTotalsIgnoreFailed | benchmark_utils.py:195-206 | the times of lookups that raised do not affect the totals |
| BenchmarkUtils.SampleTotalsBounds | benchmark_utils.py:191-207 | the total lies between successes times the fastest and times the slowest successful lookup |
| BenchmarkUtils.AverageWithinBounds | benchmark_utils.py:208-209 | the average lies between the fastest and the slowest successful lookup |
| BenchmarkUtils.AnalyzeChunks | benchmark_utils.py:177-212 | the timing loop's record equals the chunk-stage function |
| BenchmarkUtils.ChunkStage | benchmark_utils.py:177-212 | the chunk analysis; its promises are stated by AnalyzeChunks, ChunkStageFrame, ChunkStageInvariant and AverageOnlyFromSuccesses |
| BenchmarkUtils.ChunkStageFrame | benchmark_utils.py:177-212 | chunk analysis changes only the count and the average |
| BenchmarkUtils.ChunkStageInvariant | benchmark_utils.py:177-212 | chunk analysis keeps the record invariant |
| BenchmarkUtils.AverageOnlyFromSuccesses | benchmark_utils.py:191-212 | the average is present exactly when the count is a positive int and a sampled lookup returned, and it lies between the fastest and the slowest of those |
| BenchmarkUtils.Benchmark | benchmark_utils.py:44-235 | the whole run; its promises are stated by RunBenchmarkForFile, BenchmarkInvariant, ExtractionFailureDefaults, MeasuresStrippedEncodesRaw, AccuracyIffDigestsMatch and StoredChunkCount |
| BenchmarkUtils.RunBenchmarkForFile | benchmark_utils.py:56-235 | the stage-by-stage run equals the benchmark function over the real interface and satisfies the record invariant |
| BenchmarkUtils.EncodeAndMeasure | benchmark_utils.py:105-124 | the encode stage equals its function |
| BenchmarkUtils.DecodeAndCheck | benchmark_utils.py:128-212 | the decode, check and chunk stages equal their function |
| BenchmarkUtils.FromDecodeInvariant | benchmark_utils.py:128-212 | from a measured record, the decode stages end in a record satisfying the invariant |
| BenchmarkUtils.FromEncodeInvariant | benchmark_utils.py:105-212 | from a measured record, the encode stages end in a record satisfying the invariant |
| BenchmarkUtils.BenchmarkInvariant | benchmark_utils.py:56-235 | for any interface, the record has total = video + index; a digest exactly when text was measured; passed only with equal non-empty digests; an average only for a positive int count; and no error message exactly when passed |
| BenchmarkUtils.ExtractionFailureDefaults | benchmark_utils.py:88-97 | failed or blank extraction returns the initial record with its message, and the interface is never used |
| BenchmarkUtils.FromEncodeKeepsTextMeasures | benchmark_utils.py:105-212 | later stages keep the original text's sizes and digest |
| BenchmarkUtils.FromDecodeKeepsTextMeasures | benchmark_utils.py:128-212 | the decode stages keep the original text's sizes and digest |
| BenchmarkUtils.MeasuresStrippedEncodesRaw | benchmark_utils.py:99-116 | sizes and digest are those of the stripped text, while the encoder gets the raw text; an encode failure appears with its tag |
| BenchmarkUtils.FromDecodeAccuracy | benchmark_utils.py:155-212 | a failed decode leaves the check failed and appends the tagged message; after a decode, the check passes exactly when the digests agree, a mismatch appends "Accuracy (Input vs. Decoded Canonical) FAILED. ", and the chunk analysis still stores the summary's count |
| BenchmarkUtils.AccuracyIffDigestsMatch | benchmark_utils.py:145-166 | the check passes exactly when the stripped input and stripped decode have the same digest, so it always passes when the decode returns the input up to surrounding whitespace; after a decode the message is None when it passes and exactly the accuracy message when it does not |
| BenchmarkUtils.WiredErrorTags | benchmark_utils.py:217-222 | with the real interface, encode failures carry " MemVidEncodingError: " and decode failures " MemVidDecodingError: " |
| BenchmarkUtils.FromDecodeChunkCount | benchmark_utils.py:171-212 | with the real interface the stored count is "Unknown" or a non-negative int, independent of `str()` |
| BenchmarkUtils.StoredChunkCount | benchmark_utils.py:177-212 | for a whole run, the stored count is "Unknown" or a non-negative int, so `str()` of another value is never taken |
| MetricsCsv.Header | benchmark_utils.py:249-267 | the header lists the 18 field names in order |
| MetricsCsv.RowOf | benchmark_utils.py:265-269 | a row has one cell per field name: the record's value, or "" when the key is missing |
| MetricsCsv.AfterSave | benchmark_utils.py:239-272 | the file after a save; its promises are stated by SaveMetricsToCsv, SaveAppends, HeaderOnce and SavedLinesHaveAllColumns |
| MetricsCsv.MetricsLog.SaveMetricsToCsv | benchmark_utils.py:239-272 | the append loop leaves the file as the save function says |
| MetricsCsv.RowsOnePerRecord | benchmark_utils.py:268-269 | one row per record, the i-th from the i-th record |
| MetricsCsv.RowsAppend | benchmark_utils.py:268-269 | the rows of two lists are the rows of each list, in order |
| MetricsCsv.SavedLinesHaveAllColumns | benchmark_utils.py:249-269 | every line of a saved file has 18 cells |
| MetricsCsv.SaveAppends | benchmark_utils.py:246-269 | a save keeps the old lines; then comes the header exactly when the file is new; then one row per record, in order |
| MetricsCsv.HeaderOnce | benchmark_utils.py:246-267 | two saves into a new file equal one save of both lists: one header, then every row |
| MetricsCsv.ExtraKeysIgnored | benchmark_utils.py:265 | keys outside the schema do not affect the row |
| MetricsCsv.MetricsRecordFillsRow | benchmark_utils.py:57-79 | the runner's record has exactly the 18 columns as keys, so its row has no default cells |
| MetricsCsv.BenchmarkRowConsistent | benchmark_utils.py:57-79 | in a runner record's row, the error cell is None exactly when the accuracy cell is True, and the total cell is video plus index |

## Left out

- Printing, `traceback` output and the `__main__` self-test blocks: they do not affect any result.
- `time.strftime` timestamps: the timestamp is a parameter of the runner.
- `time.perf_counter` durations: they are `Timing` values, and the average is real division, not floating-point division.
- A chunk's duration depends only on its id, so two lookups of the same id would take equal time; the sampled ids are distinct, so this does not arise.
- `encoder_config`, `retriever_config`, the codec and the Docker flag: they are passed to the library unchanged and are folded into the `Engine` functions.
- `os.makedirs` of the output directory (memvid_interface.py:39) and of the CSV's directory (benchmark_utils.py:245): directories are not modelled. Both calls lie outside their `try`, so a failure there is not captured: in the encode it would reach the runner's " UnexpectedError: " handler, and `os.makedirs("")` for a CSV path without a directory would escape the writer.
- `preprocessor.extract_text_from_file` is not part of this model. Its result is the runner's `extracted` parameter.
- The internals of SHA-256, gzip, `MemvidEncoder` and `MemvidRetriever`: they are oracles.
- The "Decoding returned None." branch of the runner: `decode_memvid_to_text` always returns a string or raises, so the branch is unreachable and not modelled.
- The " UnexpectedError: " handler: every exception of the modelled interface is a `MemVidEncodingError` or `MemVidDecodingError`. The other sources are the unmodelled `os.makedirs` of the encode (see above), and lone surrogates, which `encode('utf-8')` rejects and Dafny strings cannot hold.
- `str()` of a chunk count that is neither an int nor a str is the `render` oracle.
- The text of each CSV cell (the `csv` module's quoting and `str()` of floats): a cell is the value itself. In the initial record the timings are the int `0`, but in the model they are the real `0.0`.
- MetricsCsv.MetricsLog.SaveMetricsToCsv: only an `IOError` from `open` is modelled. An `IOError` in the middle of writing, which would leave a partial file, is not.
- The default CSV path `config.DEFAULT_BENCHMARK_RESULTS_FILE`: the `MetricsLog` object is the file.
- The runner's `(metrics.get('error_message') or "")` treats an empty-string message like None. In the model the message is None until the first append, and no append adds the empty string, so the two readings agree.
- The retriever as one function of the files: the source builds a separate `MemvidRetriever` in the decode (memvid_interface.py:93), the chunk lookup (:161) and the summary (:210). The model makes its constructor, `get_stats()` and `get_chunk_by_id()` functions of the file system, the video and the index, so every instance answers alike. MemvidInterface.MetadataCountAfterDecode and BenchmarkUtils.StoredChunkCount rely on this and would not hold for a retriever whose answers change between instances.
