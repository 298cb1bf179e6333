/**
 * A whole run of the plugin: `Start`, one `ProcessSingleTypeExportedValues`
 * call per original type, then `Finish`. The lemmas here read the finished
 * archive back and say which files it holds and what the manifest records.
 */
module Session {
  import opened Optional
  import opened Batching
  import opened Json
  import opened Archive
  import opened JsonPlugin

  /** One call of `ProcessSingleTypeExportedValues`: an original type and its converted values. */
  datatype Call = Call(originalTypeName: string, values: seq<ExportedValue>)

  /** The events the calls write, in call order. */
  function ExportsOf(prefix: string, calls: seq<Call>, dump: JsonValue -> string): seq<Event>
    decreases |calls|
  {
    if calls == [] then []
    else
      var last := calls[|calls| - 1];
      ExportsOf(prefix, calls[..|calls| - 1], dump) + ExportEvents(prefix, last.originalTypeName, last.values, dump)
  }

  /** The count table after the calls, starting from the empty table `Start` leaves. */
  function CountsOf(calls: seq<Call>): CountTable
    decreases |calls|
  {
    if calls == [] then map[]
    else
      var last := calls[|calls| - 1];
      var counts := CountsOf(calls[..|calls| - 1]);
      if last.values == [] then counts
      else RecordCount(counts, last.originalTypeName, last.values[0].className, |last.values|)
  }

  /** The file a call leaves in the archive, if any: a JSON array of all its values. */
  function FileOf(prefix: string, call: Call, dump: JsonValue -> string): seq<ZipEntry>
  {
    if call.values == [] then []
    else [ZipEntry(FileName(prefix, call.values[0].className, call.originalTypeName),
                   "[" + Join(",", SerializeAll(dump, call.values)) + "]")]
  }

  /** The files the calls leave in the archive, in call order. */
  function FilesOf(prefix: string, calls: seq<Call>, dump: JsonValue -> string): seq<ZipEntry>
    decreases |calls|
  {
    if calls == [] then []
    else FilesOf(prefix, calls[..|calls| - 1], dump) + FileOf(prefix, calls[|calls| - 1], dump)
  }

  /** What the calls write reads back as one file per call with values, in call order. */
  lemma {:induction false} ReadExports(prefix: string, calls: seq<Call>, dump: JsonValue -> string)
    ensures ReadEntries(ExportsOf(prefix, calls, dump)) == Some(FilesOf(prefix, calls, dump))
    decreases |calls|
  {
    if calls != [] {
      var init := calls[..|calls| - 1];
      var last := calls[|calls| - 1];
      ReadExports(prefix, init, dump);
      ReadExportEvents(prefix, last.originalTypeName, last.values, dump);
      ReadEntriesAppend(ExportsOf(prefix, init, dump), ExportEvents(prefix, last.originalTypeName, last.values, dump));
    }
  }

  /**
   * The archive of a whole run: one file per call with values, in call
   * order, then the manifest holding the counts of all the calls.
   */
  lemma ReadSession(prefix: string, calls: seq<Call>, dump: JsonValue -> string)
    ensures ReadArchive(ExportsOf(prefix, calls, dump) + FinishEvents(prefix, CountsOf(calls), dump)) ==
      Some(FilesOf(prefix, calls, dump) + [ZipEntry(ManifestName(prefix), dump(ManifestJson(CountsOf(calls))))])
  {
    ReadExports(prefix, calls, dump);
    ReadFinishedArchive(ExportsOf(prefix, calls, dump), prefix, CountsOf(calls), dump);
  }

  /** One more call adds its events after those of the earlier calls. */
  lemma ExportsOfSnoc(prefix: string, calls: seq<Call>, i: nat, dump: JsonValue -> string)
    requires i < |calls|
    ensures ExportsOf(prefix, calls[..i + 1], dump) ==
            ExportsOf(prefix, calls[..i], dump) + ExportEvents(prefix, calls[i].originalTypeName, calls[i].values, dump)
    ensures CountsOf(calls[..i + 1]) ==
            if calls[i].values == [] then CountsOf(calls[..i])
            else RecordCount(CountsOf(calls[..i]), calls[i].originalTypeName, calls[i].values[0].className,
                             |calls[i].values|)
  {
    assert calls[..i + 1][..i] == calls[..i];
  }

  /**
   * Drives a plugin through a whole run: `Start`, one
   * `ProcessSingleTypeExportedValues` per call in order, then `Finish`. The
   * archive log and the count table end up exactly as `ExportsOf`,
   * `FinishEvents` and `CountsOf` describe, so the archive reads back as
   * `ReadSession` says.
   */
  method Run(plugin: JsonInstantOutputPluginWithExportConversion, calls: seq<Call>) returns (emitted: seq<Event>)
    modifies plugin
    ensures plugin.archiveGenerator != null && fresh(plugin.archiveGenerator)
    ensures plugin.exportCounts == CountsOf(calls)
    ensures emitted == ExportsOf(plugin.PathPrefix(), calls, plugin.dump) +
                       FinishEvents(plugin.PathPrefix(), CountsOf(calls), plugin.dump)
    ensures plugin.archiveGenerator.log == emitted
    ensures ReadArchive(plugin.archiveGenerator.log) ==
            Some(FilesOf(plugin.PathPrefix(), calls, plugin.dump) +
                 [ZipEntry(ManifestName(plugin.PathPrefix()), plugin.dump(ManifestJson(CountsOf(calls))))])
  {
    var prefix, dump := plugin.PathPrefix(), plugin.dump;
    emitted := plugin.Start();
    for i := 0 to |calls|
      invariant plugin.archiveGenerator != null && fresh(plugin.archiveGenerator)
      invariant emitted == ExportsOf(prefix, calls[..i], dump)
      invariant plugin.archiveGenerator.log == emitted
      invariant plugin.exportCounts == CountsOf(calls[..i])
    {
      var events := plugin.ProcessSingleTypeExportedValues(calls[i].originalTypeName, calls[i].values);
      ExportsOfSnoc(prefix, calls, i, dump);
      emitted := emitted + events;
    }
    assert calls[..|calls|] == calls;
    var finish := plugin.Finish();
    emitted := emitted + finish;
    ReadSession(prefix, calls, dump);
  }

  /** The calls of a run over two original types with one value each. */
  function TwoTypes(stat: ExportedValue, process: ExportedValue): seq<Call>
  {
    [Call("StatEntry", [stat]), Call("Process", [process])]
  }

  /** The count table of `TwoTypes`: one value for each pair of types. */
  lemma TwoTypesCounts(stat: ExportedValue, process: ExportedValue)
    requires stat.className == "ExportedFile" && process.className == "ExportedProcess"
    ensures CountsOf(TwoTypes(stat, process)) ==
            map["StatEntry" := map["ExportedFile" := 1], "Process" := map["ExportedProcess" := 1]]
  {
    var calls := TwoTypes(stat, process);
    assert calls[..1] == [calls[0]];
    assert calls[..1][..0] == [];
    assert CountsOf(calls[..1]) == map["StatEntry" := map["ExportedFile" := 1]];
  }

  /** The files of `TwoTypes`: one per original type, each holding its one value. */
  lemma TwoTypesFiles(prefix: string, dump: JsonValue -> string, stat: ExportedValue, process: ExportedValue)
    requires stat.className == "ExportedFile" && process.className == "ExportedProcess"
    ensures FilesOf(prefix, TwoTypes(stat, process), dump) ==
            [ZipEntry(FileName(prefix, "ExportedFile", "StatEntry"), "[" + SerializeToJson(dump, stat) + "]"),
             ZipEntry(FileName(prefix, "ExportedProcess", "Process"), "[" + SerializeToJson(dump, process) + "]")]
  {
    var calls := TwoTypes(stat, process);
    assert calls[..1] == [calls[0]];
    assert calls[..1][..0] == [];
    assert SerializeAll(dump, [stat]) == [SerializeToJson(dump, stat)];
    assert SerializeAll(dump, [process]) == [SerializeToJson(dump, process)];
    assert FilesOf(prefix, calls[..1], dump) == FileOf(prefix, calls[0], dump);
  }

  /**
   * Two original types with one value each: two files named after the
   * exported and original types, then a manifest that decodes to one count
   * per pair.
   */
  lemma MultipleTypes(prefix: string, dump: JsonValue -> string, stat: ExportedValue, process: ExportedValue)
    requires stat.className == "ExportedFile" && process.className == "ExportedProcess"
    ensures var calls := TwoTypes(stat, process);
            var counts := map["StatEntry" := map["ExportedFile" := 1], "Process" := map["ExportedProcess" := 1]];
            && CountsOf(calls) == counts
            && DecodeManifest(ManifestJson(CountsOf(calls))) == Some(counts)
            && ReadArchive(ExportsOf(prefix, calls, dump) + FinishEvents(prefix, CountsOf(calls), dump)) ==
               Some([ZipEntry(FileName(prefix, "ExportedFile", "StatEntry"), "[" + SerializeToJson(dump, stat) + "]"),
                     ZipEntry(FileName(prefix, "ExportedProcess", "Process"), "[" + SerializeToJson(dump, process) + "]"),
                     ZipEntry(ManifestName(prefix), dump(ManifestJson(counts)))])
  {
    var calls := TwoTypes(stat, process);
    var counts := map["StatEntry" := map["ExportedFile" := 1], "Process" := map["ExportedProcess" := 1]];
    TwoTypesCounts(stat, process);
    ManifestRoundTrip(counts);
    var manifest := ZipEntry(ManifestName(prefix), dump(ManifestJson(counts)));
    ReadSession(prefix, calls, dump);
    assert ReadArchive(ExportsOf(prefix, calls, dump) + FinishEvents(prefix, counts, dump)) ==
           Some(FilesOf(prefix, calls, dump) + [manifest]);
    TwoTypesFiles(prefix, dump, stat, process);
    AppendOne(ZipEntry(FileName(prefix, "ExportedFile", "StatEntry"), "[" + SerializeToJson(dump, stat) + "]"),
              ZipEntry(FileName(prefix, "ExportedProcess", "Process"), "[" + SerializeToJson(dump, process) + "]"),
              manifest);
  }

  /** A step lemma kept out of `MultipleTypes`, where the solver finds it slowly. */
  lemma AppendOne(a: ZipEntry, b: ZipEntry, c: ZipEntry)
    ensures [a, b] + [c] == [a, b, c]
  {
  }

  /**
   * `2 * RowBatch + 1` values: the first value is written alone and the
   * other `2 * RowBatch` fill exactly two full batches; the file still holds
   * every value.
   */
  lemma MoreThanOneBatch(prefix: string, originalTypeName: string, values: seq<ExportedValue>,
                         dump: JsonValue -> string)
    requires |values| == 2 * RowBatch + 1
    ensures var batches := Batch(values[1..], RowBatch);
            |batches| == 2 && |batches[0]| == RowBatch && |batches[1]| == RowBatch
    ensures ReadEntries(ExportEvents(prefix, originalTypeName, values, dump)) ==
            Some([ZipEntry(FileName(prefix, values[0].className, originalTypeName),
                           "[" + Join(",", SerializeAll(dump, values)) + "]")])
  {
    var batches: seq<seq<ExportedValue>> := Batch(values[1..], RowBatch);
    BatchCount(values[1..], RowBatch);
    BatchTotalLength(values[1..], RowBatch);
    assert |batches| == 2;
    assert |batches[1..][1..]| == 0;
    ReadExportEvents(prefix, originalTypeName, values, dump);
  }
}
