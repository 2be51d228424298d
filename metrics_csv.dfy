/** `save_metrics_to_csv`: appending benchmark records to a CSV log over a fixed
    18-column schema. `csv.DictWriter` with `extrasaction='ignore'` reads each record
    only by key, taking `restval` ("") for a missing column, so a record is modelled as
    a map from key to value. A cell is the value itself; turning it into text (the
    `csv` module's quoting and `str()` of numbers) is not part of this model. */
module MetricsCsv {
  import opened Wrappers
  import opened PyValue
  import opened BenchmarkUtils

  type Record = map<string, Json>
  type Line = seq<Json>

  /** The columns, in the order the file lists them. */
  const FieldNames: seq<string> := [
    "timestamp", "original_filename",
    "encoder_codec", "encoder_docker_enabled",
    "original_text_size_bytes", "gzipped_text_size_bytes",
    "memvid_video_file_size_bytes", "memvid_index_file_size_bytes",
    "total_memvid_storage_bytes", "decoded_canonical_text_size_bytes",
    "encoding_time_seconds", "decoding_full_time_seconds",
    "num_memvid_chunks", "decoding_avg_chunk_time_seconds",
    "original_text_sha256", "decoded_canonical_text_sha256",
    "accuracy_check_input_vs_decoded_passed",
    "error_message"]

  /** `DictWriter`'s default `restval`. */
  const Restval: Json := JStr("")

  /** The line `writeheader()` writes. */
  function Header(): (r: Line)
    ensures |r| == |FieldNames|
    ensures forall i :: 0 <= i < |FieldNames| ==> r[i] == JStr(FieldNames[i])
  {
    seq(|FieldNames|, i requires 0 <= i < |FieldNames| => JStr(FieldNames[i]))
  }

  /** The line `writerow(d)` writes: one cell per column, keys outside the schema ignored. */
  function RowOf(d: Record): (r: Line)
    ensures |r| == |FieldNames|
    ensures forall i :: 0 <= i < |FieldNames| ==>
      r[i] == (if FieldNames[i] in d then d[FieldNames[i]] else Restval)
  {
    seq(|FieldNames|, i requires 0 <= i < |FieldNames| =>
      if FieldNames[i] in d then d[FieldNames[i]] else Restval)
  }

  /** The lines `for metrics_item in metrics_list: writer.writerow(metrics_item)` writes. */
  function Rows(records: seq<Record>): seq<Line> {
    if records == [] then [] else Rows(records[..|records| - 1]) + [RowOf(records[|records| - 1])]
  }

  /** A CSV file on disk: whether it exists and the lines it holds. */
  datatype CsvFile = CsvFile(isFile: bool, lines: seq<Line>)

  /** The file after `save_metrics_to_csv(records)`. An empty list changes nothing; so
      does an `IOError` from `open`, which is caught. Otherwise the file is opened for
      appending (which creates it), receives the header only if it did not exist
      before the call, and then one row per record, in order. */
  function AfterSave(f: CsvFile, records: seq<Record>, openFails: bool): CsvFile {
    if records == [] || openFails then f
    else CsvFile(true, f.lines + (if f.isFile then [] else [Header()]) + Rows(records))
  }

  /** The log file `save_metrics_to_csv` appends to. */
  class MetricsLog {
    var isFile: bool
    var lines: seq<Line>

    constructor(isFile: bool, lines: seq<Line>)
      ensures this.isFile == isFile && this.lines == lines
    {
      this.isFile := isFile;
      this.lines := lines;
    }

    function State(): CsvFile
      reads this
    {
      CsvFile(isFile, lines)
    }

    /** Appends `metricsList` to the file. `openFails` stands for `open` raising an
        `IOError` (a permission or disk problem), which the source catches and reports. */
    method SaveMetricsToCsv(metricsList: seq<Record>, openFails: bool)
      modifies this
      ensures State() == AfterSave(old(State()), metricsList, openFails)
    {
      if metricsList == [] {
        return;
      }
      var fileExists := isFile;
      if openFails {
        return;
      }
      isFile := true;
      if !fileExists {
        lines := lines + [Header()];
      }
      var i := 0;
      while i < |metricsList|
        invariant 0 <= i <= |metricsList|
        invariant isFile
        invariant lines == old(lines) + (if fileExists then [] else [Header()]) + Rows(metricsList[..i])
      {
        assert metricsList[..i + 1][..i] == metricsList[..i];
        lines := lines + [RowOf(metricsList[i])];
        i := i + 1;
      }
      assert metricsList[..i] == metricsList;
    }
  }

  // ---------------------------------------------------------------------------
  // The record the benchmark produces, as the writer sees it

  function OptionalReal(v: Option<real>): Json {
    match v
    case None => JNull
    case Some(r) => JFloat(r)
  }

  function OptionalString(v: Option<string>): Json {
    match v
    case None => JNull
    case Some(s) => JStr(s)
  }

  /** The `metrics` dict of `run_benchmark_for_file`, one key per field of the record. */
  function MetricsRecord(m: Metrics): Record {
    map[
      "original_filename" := JStr(m.originalFilename),
      "timestamp" := JStr(m.timestamp),
      "encoder_codec" := JStr(m.encoderCodec),
      "encoder_docker_enabled" := JBool(m.encoderDockerEnabled),
      "original_text_size_bytes" := JInt(m.originalTextSizeBytes),
      "gzipped_text_size_bytes" := JInt(m.gzippedTextSizeBytes),
      "memvid_video_file_size_bytes" := JInt(m.memvidVideoFileSizeBytes),
      "memvid_index_file_size_bytes" := JInt(m.memvidIndexFileSizeBytes),
      "total_memvid_storage_bytes" := JInt(m.totalMemvidStorageBytes),
      "decoded_canonical_text_size_bytes" := JInt(m.decodedCanonicalTextSizeBytes),
      "encoding_time_seconds" := JFloat(m.encodingTimeSeconds),
      "decoding_full_time_seconds" := JFloat(m.decodingFullTimeSeconds),
      "decoding_avg_chunk_time_seconds" := OptionalReal(m.decodingAvgChunkTimeSeconds),
      "num_memvid_chunks" := m.numMemvidChunks,
      "original_text_sha256" := JStr(m.originalTextSha256),
      "decoded_canonical_text_sha256" := JStr(m.decodedCanonicalTextSha256),
      "accuracy_check_input_vs_decoded_passed" := JBool(m.accuracyCheckInputVsDecodedPassed),
      "error_message" := OptionalString(m.errorMessage)]
  }

  // ---------------------------------------------------------------------------
  // Properties of the writer

  /** `Rows` writes exactly one line per record, the i-th from the i-th record. */
  lemma {:induction false} RowsOnePerRecord(records: seq<Record>)
    ensures |Rows(records)| == |records|
    ensures forall i :: 0 <= i < |records| ==> Rows(records)[i] == RowOf(records[i])
  {
    if records != [] {
      RowsOnePerRecord(records[..|records| - 1]);
    }
  }

  lemma {:induction false} RowsAppend(a: seq<Record>, b: seq<Record>)
    ensures Rows(a + b) == Rows(a) + Rows(b)
  {
    if b == [] {
      assert a + b == a;
    } else {
      assert (a + b)[..|a + b| - 1] == a + b[..|b| - 1];
      RowsAppend(a, b[..|b| - 1]);
    }
  }

  /** Every line of a saved file has one cell per column. */
  lemma {:induction false} SavedLinesHaveAllColumns(f: CsvFile, records: seq<Record>, openFails: bool)
    requires forall j :: 0 <= j < |f.lines| ==> |f.lines[j]| == |FieldNames|
    ensures var g := AfterSave(f, records, openFails);
      forall j :: 0 <= j < |g.lines| ==> |g.lines[j]| == |FieldNames|
  {
    RowsOnePerRecord(records);
  }

  /** A successful save leaves the file in place; its old lines come first, then the
      header exactly when the file is new, then one row per record in input order. */
  lemma SaveAppends(f: CsvFile, records: seq<Record>)
    requires records != []
    ensures var g := AfterSave(f, records, false);
      && g.isFile
      && |g.lines| == |f.lines| + (if f.isFile then 0 else 1) + |records|
      && g.lines[..|f.lines|] == f.lines
      && (!f.isFile <==> |g.lines| > |f.lines| + |records|)
      && (!f.isFile ==> g.lines[|f.lines|] == Header())
      && forall i :: 0 <= i < |records| ==>
           g.lines[|g.lines| - |records| + i] == RowOf(records[i])
  {
    RowsOnePerRecord(records);
    if f.isFile {
      ThreePartLayout(f.lines, [], Rows(records));
    } else {
      ThreePartLayout(f.lines, [Header()], Rows(records));
    }
  }

  /** Where the parts of `before + middle + after` lie. */
  lemma ThreePartLayout(before: seq<Line>, middle: seq<Line>, after: seq<Line>)
    ensures var l := before + middle + after;
      && |l| == |before| + |middle| + |after|
      && l[..|before|] == before
      && (|middle| > 0 ==> l[|before|] == middle[0])
      && forall i :: 0 <= i < |after| ==> l[|l| - |after| + i] == after[i]
  {
    var l := before + middle + after;
    assert l[..|before|] == before;
  }

  /** The header is written once per file: starting from a missing file, two successful
      saves give the same file as one save of both lists, a single header followed by
      every row. */
  lemma {:induction false} HeaderOnce(a: seq<Record>, b: seq<Record>)
    requires a + b != []
    ensures AfterSave(AfterSave(CsvFile(false, []), a, false), b, false)
         == AfterSave(CsvFile(false, []), a + b, false)
         == CsvFile(true, [Header()] + Rows(a + b))
  {
    RowsAppend(a, b);
    if a == [] {
      assert a + b == b;
    } else if b == [] {
      assert a + b == a;
    }
  }

  /** Keys outside the schema never reach the file (`extrasaction='ignore'`). */
  lemma ExtraKeysIgnored(d: Record, extra: Record)
    requires forall k :: k in extra ==> k !in FieldNames
    ensures RowOf(d + extra) == RowOf(d)
  {
    forall i | 0 <= i < |FieldNames|
      ensures RowOf(d + extra)[i] == RowOf(d)[i]
    {
      assert FieldNames[i] in FieldNames;
    }
  }

  /** The record the benchmark builds has exactly the columns of the schema, so its row
      holds every field and no default cells. */
  lemma MetricsRecordFillsRow(m: Metrics)
    ensures MetricsRecord(m).Keys == set k | k in FieldNames
    ensures forall i :: 0 <= i < |FieldNames| ==>
      RowOf(MetricsRecord(m))[i] == MetricsRecord(m)[FieldNames[i]]
  {
  }

  /** In the row of any record the benchmark returns, the error cell is empty (`None`)
      exactly when the accuracy cell is `True`, and the storage total is the sum of the
      video and index cells. */
  lemma BenchmarkRowConsistent(m: Metrics)
    requires MetricsInvariant(m)
    ensures var row := RowOf(MetricsRecord(m));
      && (row[17] == JNull <==> row[16] == JBool(true))
      && row[8].JInt? && row[6].JInt? && row[7].JInt? && row[8].i == row[6].i + row[7].i
  {
    var d := MetricsRecord(m);
    assert FieldNames[6] in d && FieldNames[7] in d && FieldNames[8] in d;
    assert FieldNames[16] in d && FieldNames[17] in d;
  }
}
