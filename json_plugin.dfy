/**
 * The flattened-JSON instant output plugin: every type of exported value
 * becomes one JSON array file in a streamed zip archive, and a MANIFEST file
 * records how many values of each exported type came from each original type.
 */
module JsonPlugin {

  import opened Optional
  import opened Batching
  import opened Json
  import opened Paths
  import opened Archive

  /** Number of values written together in one chunk after the first value (`ROW_BATCH`). */
  const RowBatch: nat := 100

  /** The extension of the archive this plugin writes (`output_file_extension`). */
  const OutputFileExtension: string := ".zip"

  /** `export_counts`: original type name -> exported type name -> number of values written. */
  type CountTable = map<string, map<string, nat>>

  /**
   * An exported value: a protobuf-backed struct, seen through its primitive
   * dictionary, or any other value, seen through its `str` text. Either way
   * it knows the name of its class.
   */
  datatype ExportedValue =
    | ProtoStruct(className: string, fields: map<string, JsonValue>)
    | Plain(className: string, text: string)

  /** `_SerializetoJson`: structs are dumped as JSON objects, everything else as a JSON string. */
  function SerializeToJson(dump: JsonValue -> string, v: ExportedValue): (r: string)
    ensures v.ProtoStruct? ==> r == dump(JObject(v.fields))
    ensures v.Plain? ==> r == dump(JString(v.text))
  {
    match v
    case ProtoStruct(_, fields) => dump(JObject(fields))
    case Plain(_, text) => dump(JString(text))
  }

  /** The serialisations of `vs`, one per value and in the same order. */
  function SerializeAll(dump: JsonValue -> string, vs: seq<ExportedValue>): (r: seq<string>)
    ensures |r| == |vs|
    ensures forall i :: 0 <= i < |vs| ==> r[i] == SerializeToJson(dump, vs[i])
  {
    if vs == [] then [] else [SerializeToJson(dump, vs[0])] + SerializeAll(dump, vs[1..])
  }

  lemma SerializeAllAppend(dump: JsonValue -> string, vs: seq<ExportedValue>, ws: seq<ExportedValue>)
    ensures SerializeAll(dump, vs + ws) == SerializeAll(dump, vs) + SerializeAll(dump, ws)
  {
    var l, r := SerializeAll(dump, vs + ws), SerializeAll(dump, vs) + SerializeAll(dump, ws);
    assert |l| == |r|;
    forall i | 0 <= i < |l| ensures l[i] == r[i] {
      if i < |vs| { assert (vs + ws)[i] == vs[i]; } else { assert (vs + ws)[i] == ws[i - |vs|]; }
    }
  }

  /** The archive path of the JSON file for one exported type coming from one original type. */
  function FileName(prefix: string, exportedTypeName: string, originalTypeName: string): (r: string)
    ensures |r| == |prefix| + |exportedTypeName| + |originalTypeName| + 12
    ensures r[..|prefix| + 1] == prefix + "/"
    ensures r[|prefix| + 1..|prefix| + 1 + |exportedTypeName|] == exportedTypeName
    ensures r[|prefix| + 1 + |exportedTypeName|..|prefix| + 7 + |exportedTypeName|] == "/from_"
    ensures r[|prefix| + 7 + |exportedTypeName|..|r| - 5] == originalTypeName
    ensures r[|r| - 5..] == ".json"
  {
    prefix + "/" + exportedTypeName + "/from_" + originalTypeName + ".json"
  }

  /** The archive path of the manifest. */
  function ManifestName(prefix: string): (r: string)
    ensures |r| == |prefix| + 9
    ensures r[..|prefix| + 1] == prefix + "/"
    ensures r[|prefix| + 1..] == "MANIFEST"
  {
    prefix + "/MANIFEST"
  }

  /** The text written for one batch: every value's serialisation, each preceded by a comma. */
  function BatchContents(dump: JsonValue -> string, batch: seq<ExportedValue>): string
  {
    PrefixEach(",", SerializeAll(dump, batch))
  }

  /** The chunk texts of a sequence of batches, one per batch and in order. */
  function BatchTexts(dump: JsonValue -> string, batches: seq<seq<ExportedValue>>): (r: seq<string>)
    ensures |r| == |batches|
    ensures forall i :: 0 <= i < |batches| ==> r[i] == BatchContents(dump, batches[i])
  {
    if batches == [] then [] else [BatchContents(dump, batches[0])] + BatchTexts(dump, batches[1..])
  }

  /** The chunks of one value file: "[", the first value, one chunk per batch of the others, "]". */
  function ValueChunks(dump: JsonValue -> string, values: seq<ExportedValue>): seq<string>
    requires values != []
  {
    ["[", SerializeToJson(dump, values[0])] + BatchTexts(dump, Batch(values[1..], RowBatch)) + ["]"]
  }

  /** The events `ProcessSingleTypeExportedValues` yields for `values` of one original type. */
  function ExportEvents(prefix: string, originalTypeName: string, values: seq<ExportedValue>,
                        dump: JsonValue -> string): (r: seq<Event>)
    ensures r == [] <==> values == []
    ensures r != [] ==> r[0] == Header(FileName(prefix, values[0].className, originalTypeName))
    ensures r != [] ==> r[|r| - 1] == Footer
  {
    if values == [] then []
    else EntryEvents(FileName(prefix, values[0].className, originalTypeName), ValueChunks(dump, values))
  }

  /** The events `Finish` yields: the manifest file, then the end of the archive. */
  function FinishEvents(prefix: string, counts: CountTable, dump: JsonValue -> string): (r: seq<Event>)
    ensures |r| == 4
    ensures r[0] == Header(ManifestName(prefix)) && r[1] == Chunk(dump(ManifestJson(counts)))
    ensures r[2] == Footer && r[3] == Close
  {
    EntryEvents(ManifestName(prefix), [dump(ManifestJson(counts))]) + [Close]
  }

  /**
   * `export_counts.setdefault(original, {})[exported] = n`: exactly one cell
   * of the table is set; every other original type, and every other exported
   * type under the same original type, keeps its value, and no other key
   * appears.
   */
  function RecordCount(counts: CountTable, original: string, exported: string, n: nat): (r: CountTable)
    ensures r.Keys == counts.Keys + {original}
    ensures exported in r[original] && r[original][exported] == n
    ensures original in counts ==> r[original].Keys == counts[original].Keys + {exported}
    ensures original !in counts ==> r[original].Keys == {exported}
    ensures forall e :: e in r[original] && e != exported ==> r[original][e] == counts[original][e]
    ensures forall o :: o in counts && o != original ==> r[o] == counts[o]
  {
    var inner := if original in counts then counts[original] else map[];
    counts[original := inner[exported := n]]
  }

  /** The JSON document of the manifest: `{"export_stats": export_counts}`. */
  function ManifestJson(counts: CountTable): (r: JsonValue)
    ensures r.JObject? && r.fields.Keys == {"export_stats"}
    ensures var stats := r.fields["export_stats"];
            stats.JObject? && stats.fields.Keys == counts.Keys
  {
    JObject(map["export_stats" := JObject(map o | o in counts :: CountsJson(counts[o]))])
  }

  function CountsJson(inner: map<string, nat>): JsonValue
  {
    JObject(map e | e in inner :: JInt(inner[e]))
  }

  /** Reads a table of counts back from a JSON object of non-negative integers. */
  function DecodeCounts(j: JsonValue): Option<map<string, nat>>
  {
    match j
    case JObject(f) =>
      if forall e :: e in f ==> f[e].JInt? && f[e].num >= 0
      then Some(map e | e in f :: f[e].num as nat)
      else None
    case _ => None
  }

  /** Reads the count table back from a manifest document, as a consumer of the archive would. */
  function DecodeManifest(j: JsonValue): Option<CountTable>
  {
    match j
    case JObject(top) =>
      if top.Keys == {"export_stats"} && top["export_stats"].JObject? then
        var stats := top["export_stats"].fields;
        if forall o :: o in stats ==> DecodeCounts(stats[o]).Some?
        then Some(map o | o in stats :: DecodeCounts(stats[o]).value)
        else None
      else None
    case _ => None
  }

  /** The manifest document holds exactly the count table. */
  lemma ManifestRoundTrip(counts: CountTable)
    ensures DecodeManifest(ManifestJson(counts)) == Some(counts)
  {
    var stats := map o | o in counts :: CountsJson(counts[o]);
    forall o | o in stats ensures DecodeCounts(stats[o]) == Some(counts[o]) {
      var f := map e | e in counts[o] :: JInt(counts[o][e]);
      assert (map e | e in f :: f[e].num as nat) == counts[o];
    }
    assert (map o | o in stats :: DecodeCounts(stats[o]).value) == counts;
  }

  /** One more value in a batch adds a comma and its serialisation to the batch's text. */
  lemma BatchContentsSnoc(dump: JsonValue -> string, batch: seq<ExportedValue>, i: nat)
    requires i < |batch|
    ensures BatchContents(dump, batch[..i + 1]) ==
            BatchContents(dump, batch[..i]) + "," + SerializeToJson(dump, batch[i])
  {
    var x := SerializeToJson(dump, batch[i]);
    assert batch[..i + 1] == batch[..i] + [batch[i]];
    SerializeAllAppend(dump, batch[..i], [batch[i]]);
    PrefixEachAppend(",", SerializeAll(dump, batch[..i]), [x]);
    assert SerializeAll(dump, [batch[i]]) == [x];
    assert PrefixEach(",", [x]) == "," + x;
    assert BatchContents(dump, batch[..i]) + ("," + x) == BatchContents(dump, batch[..i]) + "," + x;
  }

  /** Builds one batch's text value by value, as the `StringIO` buffer does. */
  method WriteBatch(dump: JsonValue -> string, batch: seq<ExportedValue>) returns (contents: string)
    ensures contents == BatchContents(dump, batch)
  {
    contents := "";
    for i := 0 to |batch|
      invariant contents == BatchContents(dump, batch[..i])
    {
      BatchContentsSnoc(dump, batch, i);
      contents := contents + ",";
      contents := contents + SerializeToJson(dump, batch[i]);
    }
    assert batch[..|batch|] == batch;
  }

  lemma {:induction false} BatchTextsConcat(dump: JsonValue -> string, batches: seq<seq<ExportedValue>>)
    ensures Concat(BatchTexts(dump, batches)) == PrefixEach(",", SerializeAll(dump, Flatten(batches)))
    decreases |batches|
  {
    if batches != [] {
      BatchTextsConcat(dump, batches[1..]);
      SerializeAllAppend(dump, batches[0], Flatten(batches[1..]));
      PrefixEachAppend(",", SerializeAll(dump, batches[0]), SerializeAll(dump, Flatten(batches[1..])));
    }
  }

  /** The chunks of a value file: `[`, the first value, each later value after a comma, `]`. */
  lemma ValueChunksPrefixed(dump: JsonValue -> string, values: seq<ExportedValue>)
    requires values != []
    ensures Concat(ValueChunks(dump, values)) ==
            "[" + (SerializeToJson(dump, values[0]) + PrefixEach(",", SerializeAll(dump, values[1..]))) + "]"
  {
    var first := SerializeToJson(dump, values[0]);
    var batches := Batch(values[1..], RowBatch);
    Bracketed("[", first, BatchTexts(dump, batches), "]");
    BatchTextsConcat(dump, batches);
    var later := PrefixEach(",", SerializeAll(dump, values[1..]));
    assert "[" + first + later == "[" + (first + later);
  }

  /** The first serialisation, then a comma before each later one, is the comma-joined list. */
  lemma JoinOfValues(dump: JsonValue -> string, values: seq<ExportedValue>)
    requires values != []
    ensures SerializeToJson(dump, values[0]) + PrefixEach(",", SerializeAll(dump, values[1..])) ==
            Join(",", SerializeAll(dump, values))
  {
    FirstThenPrefixed(",", SerializeToJson(dump, values[0]), SerializeAll(dump, values[1..]));
    assert values == [values[0]] + values[1..];
    SerializeAllAppend(dump, [values[0]], values[1..]);
  }

  /**
   * The chunks of a value file concatenate to a JSON array of the values'
   * serialisations in input order, one comma between neighbours, however
   * many batches the values fill.
   */
  lemma ValueChunksText(dump: JsonValue -> string, values: seq<ExportedValue>)
    requires values != []
    ensures Concat(ValueChunks(dump, values)) == "[" + Join(",", SerializeAll(dump, values)) + "]"
  {
    JoinOfValues(dump, values);
    ValueChunksPrefixed(dump, values);
  }

  /**
   * Reading back the events for `values` finds nothing for an empty input,
   * and otherwise exactly one file, named after the first value's class and
   * the original type, holding the JSON array of all the values.
   */
  lemma ReadExportEvents(prefix: string, originalTypeName: string, values: seq<ExportedValue>,
                         dump: JsonValue -> string)
    ensures ReadEntries(ExportEvents(prefix, originalTypeName, values, dump)) ==
      if values == [] then Some([])
      else Some([ZipEntry(FileName(prefix, values[0].className, originalTypeName),
                          "[" + Join(",", SerializeAll(dump, values)) + "]")])
  {
    if values != [] {
      ReadEntryEventsAlone(FileName(prefix, values[0].className, originalTypeName), ValueChunks(dump, values));
      ValueChunksText(dump, values);
    }
  }

  /** Where each piece of `[h, a, b] + mid + [c, f]` sits, and that all but the ends are chunks when `a`, `b`, `c` and `mid` are. */
  lemma FramedIndices(h: Event, a: Event, b: Event, mid: seq<Event>, c: Event, f: Event)
    ensures var r := [h, a, b] + mid + [c, f];
            && |r| == 5 + |mid|
            && r[0] == h && r[1] == a && r[2] == b && r[|r| - 2] == c && r[|r| - 1] == f
            && (forall j :: 0 <= j < |mid| ==> r[3 + j] == mid[j])
            && (a.Chunk? && b.Chunk? && c.Chunk? && (forall j :: 0 <= j < |mid| ==> mid[j].Chunk?) ==>
                  forall i :: 0 < i < |r| - 1 ==> r[i].Chunk?)
  {
    var r := [h, a, b] + mid + [c, f];
    forall i | 3 <= i < 3 + |mid| ensures r[i] == mid[i - 3] {
    }
  }

  /**
   * The layout of the events for a non-empty input: the header first, then
   * "[" and the first value, one chunk per batch of between 1 and `RowBatch`
   * further values, "]", and the footer last; nothing but chunks in between.
   */
  lemma ExportEventsShape(prefix: string, originalTypeName: string, values: seq<ExportedValue>,
                          dump: JsonValue -> string)
    requires values != []
    ensures var r := ExportEvents(prefix, originalTypeName, values, dump);
            var batches := Batch(values[1..], RowBatch);
            && |r| == 5 + |batches|
            && r[0] == Header(FileName(prefix, values[0].className, originalTypeName))
            && r[1] == Chunk("[")
            && r[2] == Chunk(SerializeToJson(dump, values[0]))
            && (forall j :: 0 <= j < |batches| ==>
                  r[3 + j] == Chunk(BatchContents(dump, batches[j])) && 1 <= |batches[j]| <= RowBatch)
            && r[|r| - 2] == Chunk("]")
            && r[|r| - 1] == Footer
            && (forall i :: 0 < i < |r| - 1 ==> r[i].Chunk?)
  {
    var batches := Batch(values[1..], RowBatch);
    ExportEventsLayout(prefix, originalTypeName, values, dump);
    FramedIndices(Header(FileName(prefix, values[0].className, originalTypeName)),
                  Chunk("["), Chunk(SerializeToJson(dump, values[0])),
                  Chunks(BatchTexts(dump, batches)), Chunk("]"), Footer);
  }

  lemma BatchChunksSnoc(dump: JsonValue -> string, batches: seq<seq<ExportedValue>>, i: nat)
    requires i < |batches|
    ensures Chunks(BatchTexts(dump, batches[..i + 1])) ==
            Chunks(BatchTexts(dump, batches[..i])) + [Chunk(BatchContents(dump, batches[i]))]
  {
    var texts := BatchTexts(dump, batches[..i]);
    assert BatchTexts(dump, batches[..i + 1]) == texts + [BatchContents(dump, batches[i])];
    ChunksAppend(texts, [BatchContents(dump, batches[i])]);
  }

  /** The events for a non-empty input, written out event by event. */
  lemma ExportEventsLayout(prefix: string, originalTypeName: string, values: seq<ExportedValue>,
                           dump: JsonValue -> string)
    requires values != []
    ensures ExportEvents(prefix, originalTypeName, values, dump) ==
            [Header(FileName(prefix, values[0].className, originalTypeName)),
             Chunk("["), Chunk(SerializeToJson(dump, values[0]))]
            + Chunks(BatchTexts(dump, Batch(values[1..], RowBatch)))
            + [Chunk("]"), Footer]
  {
    var name := FileName(prefix, values[0].className, originalTypeName);
    var texts := BatchTexts(dump, Batch(values[1..], RowBatch));
    var first := SerializeToJson(dump, values[0]);
    assert ValueChunks(dump, values) == ["[", first] + texts + ["]"];
    FramedEntryEvents(name, "[", first, texts, "]");
  }

  /** The events of a file whose chunks are `a`, `b`, then `mid`, then `c`. */
  lemma FramedEntryEvents(name: string, a: string, b: string, mid: seq<string>, c: string)
    ensures EntryEvents(name, [a, b] + mid + [c]) ==
            [Header(name), Chunk(a), Chunk(b)] + Chunks(mid) + [Chunk(c), Footer]
  {
    FramedChunks(a, b, mid, c);
    Regroup(Header(name), Chunk(a), Chunk(b), Chunks(mid), Chunk(c), Footer);
  }

  /** The chunks of `a`, `b`, then `mid`, then `c`. */
  lemma FramedChunks(a: string, b: string, mid: seq<string>, c: string)
    ensures Chunks([a, b] + mid + [c]) == [Chunk(a), Chunk(b)] + Chunks(mid) + [Chunk(c)]
  {
    ChunksAppend([a, b] + mid, [c]);
    ChunksAppend([a, b], mid);
    assert Chunks([a, b]) == [Chunk(a), Chunk(b)];
    assert Chunks([c]) == [Chunk(c)];
  }

  /** `[h] + ([x, y] + m + [z]) + [f]`, regrouped; kept apart so that no other facts are in scope. */
  lemma Regroup<T>(h: T, x: T, y: T, m: seq<T>, z: T, f: T)
    ensures [h] + ([x, y] + m + [z]) + [f] == [h, x, y] + m + [z, f]
  {
    assert [h] + [x, y] == [h, x, y];
    assert [z] + [f] == [z, f];
  }

  /** The number recorded for a non-empty input: one for the first value plus the batch lengths, i.e. all the values. */
  lemma ExportedCount(values: seq<ExportedValue>)
    requires values != []
    ensures 1 + TotalLength(Batch(values[1..], RowBatch)) == |values|
  {
    BatchTotalLength(values[1..], RowBatch);
  }

  /** In a file name, the exported type name is followed by a slash. */
  lemma SlashAfterExported(prefix: string, exportedTypeName: string, originalTypeName: string)
    ensures FileName(prefix, exportedTypeName, originalTypeName)[|prefix| + 1 + |exportedTypeName|] == '/'
  {
    var r := FileName(prefix, exportedTypeName, originalTypeName);
    var k := |prefix| + 1 + |exportedTypeName|;
    assert r[k] == r[k..k + 6][0];
  }

  /** A slash-free exported type name cannot be a proper prefix of another one in the same position. */
  lemma ExportedNotShorter(prefix: string, e1: string, o1: string, e2: string, o2: string)
    ensures '/' !in e2 && |e1| < |e2| ==> FileName(prefix, e1, o1) != FileName(prefix, e2, o2)
  {
    SlashAfterExported(prefix, e1, o1);
    if |e1| < |e2| {
      var n := |prefix| + 1;
      var s2 := FileName(prefix, e2, o2);
      assert s2[n + |e1|] == s2[n..n + |e2|][|e1|] == e2[|e1|];
      assert e2[|e1|] in e2;
    }
  }

  /** With no slashes in the exported type names, distinct type pairs get distinct files. */
  lemma FileNameInjective(prefix: string, e1: string, o1: string, e2: string, o2: string)
    requires '/' !in e1 && '/' !in e2
    requires FileName(prefix, e1, o1) == FileName(prefix, e2, o2)
    ensures e1 == e2 && o1 == o2
  {
    ExportedNotShorter(prefix, e1, o1, e2, o2);
    ExportedNotShorter(prefix, e2, o2, e1, o1);
    var s := FileName(prefix, e1, o1);
    var n := |prefix| + 1;
    assert e1 == s[n..n + |e1|] == e2;
    assert o1 == s[n + 6 + |e1|..|s| - 5] == o2;
  }

  /** No value file collides with the manifest: the one ends in ".json", the other in "MANIFEST". */
  lemma ManifestNameIsNotAFileName(prefix: string, exportedTypeName: string, originalTypeName: string)
    ensures ManifestName(prefix) != FileName(prefix, exportedTypeName, originalTypeName)
  {
    var f := FileName(prefix, exportedTypeName, originalTypeName);
    var m := ManifestName(prefix);
    assert f[|f| - 1] == 'n';
    assert m[|m| - 1] == 'T';
  }

  /** Finishing a log of complete files yields an archive of those files followed by the manifest. */
  lemma ReadFinishedArchive(log: seq<Event>, prefix: string, counts: CountTable, dump: JsonValue -> string)
    requires ReadEntries(log).Some?
    ensures ReadArchive(log + FinishEvents(prefix, counts, dump)) ==
      Some(ReadEntries(log).value + [ZipEntry(ManifestName(prefix), dump(ManifestJson(counts)))])
  {
    var manifest := EntryEvents(ManifestName(prefix), [dump(ManifestJson(counts))]);
    assert log + FinishEvents(prefix, counts, dump) == (log + manifest) + [Close];
    ReadArchiveOfClosed(log + manifest);
    ReadEntryEventsAlone(ManifestName(prefix), [dump(ManifestJson(counts))]);
    ReadEntriesAppend(log, manifest);
    assert Concat([dump(ManifestJson(counts))]) == dump(ManifestJson(counts));
  }

  /*
   * Step lemmas. `LogAppend1` and `LogAppend3`, like `MulSucc` in `Batching`
   * and `AppendOne` in `Session`, state single facts of sequence
   * associativity or arithmetic that Dafny proves unaided. They exist to keep
   * one step out of a larger proof, where the same fact costs far more to find
   * among everything else in scope.
   */

  /** Appending one event after a piece appends the longer piece. */
  lemma LogAppend1(log: seq<Event>, a: seq<Event>, e: Event)
    ensures log + a + [e] == log + (a + [e])
  {
  }

  /** Appending three pieces one after the other appends their concatenation. */
  lemma LogAppend3(log: seq<Event>, a: seq<Event>, b: seq<Event>, c: seq<Event>)
    ensures log + a + b + c == log + (a + b + c)
  {
  }

  /** `JsonInstantOutputPluginWithExportConversion`. */
  class JsonInstantOutputPluginWithExportConversion {

    /** The archive's file name, given by the caller of the plugin. */
    const outputFileName: string
    /** The JSON encoder. */
    const dump: JsonValue -> string

    var archiveGenerator: StreamingZipGenerator?
    var exportCounts: CountTable

    constructor (outputFileName: string, dump: JsonValue -> string)
      ensures this.outputFileName == outputFileName && this.dump == dump
      ensures archiveGenerator == null && exportCounts == map[]
    {
      this.outputFileName := outputFileName;
      this.dump := dump;
      archiveGenerator := null;
      exportCounts := map[];
    }

    /** `path_prefix`: the output file name without its extension. */
    function PathPrefix(): (r: string)
      ensures r <= outputFileName
      ensures r != outputFileName ==> outputFileName[|r|] == '.'
      ensures forall k :: |r| < k < |outputFileName| ==> outputFileName[k] != '.' && outputFileName[k] != '/'
    {
      SplitExt(outputFileName).0
    }

    /** Opens a new archive and clears the count table; yields nothing. */
    method Start() returns (emitted: seq<Event>)
      modifies this
      ensures fresh(archiveGenerator) && archiveGenerator.log == []
      ensures exportCounts == map[]
      ensures emitted == []
    {
      archiveGenerator := new StreamingZipGenerator();
      exportCounts := map[];
      emitted := [];
    }

    /**
     * Writes the values of one original type as a JSON array file and
     * records their number; an empty input writes and records nothing.
     */
    method ProcessSingleTypeExportedValues(originalTypeName: string, exportedValues: seq<ExportedValue>)
      returns (emitted: seq<Event>)
      requires exportedValues != [] ==> archiveGenerator != null
      modifies this, archiveGenerator
      ensures archiveGenerator == old(archiveGenerator)
      ensures emitted == ExportEvents(PathPrefix(), originalTypeName, exportedValues, dump)
      ensures archiveGenerator != null ==> archiveGenerator.log == old(archiveGenerator.log) + emitted
      ensures exportCounts ==
        if exportedValues == [] then old(exportCounts)
        else RecordCount(old(exportCounts), originalTypeName, exportedValues[0].className, |exportedValues|)
    {
      if exportedValues == [] {
        return [];
      }
      ghost var log0 := archiveGenerator.log;
      var first := exportedValues[0];
      var opening := WriteOpening(FileName(PathPrefix(), first.className, originalTypeName), first);
      var batchEvents, counter := WriteBatches(Batch(exportedValues[1..], RowBatch), 1);
      var closing := WriteClosing();
      emitted := opening + batchEvents + closing;
      LogAppend3(log0, opening, batchEvents, closing);
      ExportEventsLayout(PathPrefix(), originalTypeName, exportedValues, dump);
      ExportedCount(exportedValues);
      exportCounts := RecordCount(exportCounts, originalTypeName, first.className, counter);
    }

    /** The opening of one export file: its header, `[` and the first value. */
    method WriteOpening(name: string, first: ExportedValue) returns (emitted: seq<Event>)
      requires archiveGenerator != null
      modifies archiveGenerator
      ensures emitted == [Header(name), Chunk("["), Chunk(SerializeToJson(dump, first))]
      ensures archiveGenerator.log == old(archiveGenerator.log) + emitted
    {
      var header := archiveGenerator.WriteFileHeader(name);
      var open := archiveGenerator.WriteFileChunk("[");
      var firstChunk := archiveGenerator.WriteFileChunk(SerializeToJson(dump, first));
      emitted := [header, open, firstChunk];
    }

    /** The closing of one export file: `]` and the footer. */
    method WriteClosing() returns (emitted: seq<Event>)
      requires archiveGenerator != null
      modifies archiveGenerator
      ensures emitted == [Chunk("]"), Footer]
      ensures archiveGenerator.log == old(archiveGenerator.log) + emitted
    {
      var close := archiveGenerator.WriteFileChunk("]");
      var footer := archiveGenerator.WriteFileFooter();
      emitted := [close, footer];
    }

    /**
     * The batch loop of `ProcessSingleTypeExportedValues`: one chunk per
     * batch, with the counter advanced by the size of each batch.
     */
    method WriteBatches(batches: seq<seq<ExportedValue>>, counter0: nat) returns (emitted: seq<Event>, counter: nat)
      requires archiveGenerator != null
      modifies archiveGenerator
      ensures emitted == Chunks(BatchTexts(dump, batches))
      ensures counter == counter0 + TotalLength(batches)
      ensures archiveGenerator.log == old(archiveGenerator.log) + emitted
    {
      emitted, counter := [], counter0;
      for i := 0 to |batches|
        invariant counter == counter0 + TotalLength(batches[..i])
        invariant emitted == Chunks(BatchTexts(dump, batches[..i]))
        invariant archiveGenerator.log == old(archiveGenerator.log) + emitted
      {
        var batch := batches[i];
        TotalLengthSnoc(batches, i);
        counter := counter + |batch|;
        var contents := WriteBatch(dump, batch);
        var e := archiveGenerator.WriteFileChunk(contents);
        BatchChunksSnoc(dump, batches, i);
        LogAppend1(old(archiveGenerator.log), emitted, e);
        emitted := emitted + [e];
      }
      assert batches[..|batches|] == batches;
    }

    /** Writes the manifest file and closes the archive. */
    method Finish() returns (emitted: seq<Event>)
      requires archiveGenerator != null
      modifies archiveGenerator
      ensures emitted == FinishEvents(PathPrefix(), exportCounts, dump)
      ensures archiveGenerator.log == old(archiveGenerator.log) + emitted
    {
      var manifestBytes := dump(ManifestJson(exportCounts));
      var e := archiveGenerator.WriteFileHeader(ManifestName(PathPrefix()));
      emitted := [e];
      e := archiveGenerator.WriteFileChunk(manifestBytes);
      emitted := emitted + [e];
      e := archiveGenerator.WriteFileFooter();
      emitted := emitted + [e];
      e := archiveGenerator.Close();
      emitted := emitted + [e];
    }
  }

  /**
   * The base class names the output file after `output_file_extension`, so
   * a name made of a root with a named final component and `.zip` has that
   * root as its `path_prefix`.
   */
  lemma PathPrefixOfArchiveName(plugin: JsonInstantOutputPluginWithExportConversion, root: string)
    requires plugin.outputFileName == root + OutputFileExtension
    requires NamedComponent(root, |root|)
    ensures plugin.PathPrefix() == root
  {
    SplitExtOfAppend(root, OutputFileExtension);
  }
}
