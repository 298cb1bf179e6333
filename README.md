# Flattened JSON (zipped) instant output plugin, in Dafny

This project models GRR's `JsonInstantOutputPluginWithExportConversion`
(`grr/server/grr_response_server/output_plugins/json_plugin.py`). The plugin
streams the converted ("exported") values of a flow or hunt into a zip
archive. Each pair of an exported type and an original type becomes one file,
`<prefix>/<ExportedType>/from_<OriginalType>.json`, holding a JSON array of
the values. A final `<prefix>/MANIFEST` file records, for each original type
and each exported type, how many values were written.
`<prefix>` is the output file name without its extension.

The model is in seven modules, one file each:

- `Optional` (`optional.dfy`) is the option type used by the readers.
- `Batching` (`batching.dfy`) is `collection.Batch`, the helpers that total the
  batch lengths, and its laws.
- `Json` (`json.dfy`) holds the JSON values handed to the encoder, plus the
  text helpers for joining, comma-prefixing and concatenating strings.
- `Paths` (`paths.dfy`) holds `str.rfind` and the POSIX `os.path.splitext`
  behind `path_prefix`, with a round-trip law.
- `Archive` (`archive.dfy`) models `utils.StreamingZipGenerator` as the plugin
  uses it. It is a class whose append-only `log` receives one event per call:
  a file header, a chunk of contents, a file footer, or the closing of the
  archive. Its partner is an independent reader, `ReadEntries` and
  `ReadArchive`, which recovers the archive's files (name and contents) from a
  log, the way `zipfile` reads the archive back.
- `JsonPlugin` (`json_plugin.dfy`) holds the plugin's specification functions
  and their lemmas. The plugin itself is a class with the fields
  `archiveGenerator` and `exportCounts`, and with the methods `Start`,
  `ProcessSingleTypeExportedValues` and `Finish`. Each method returns the
  events it yields, ties them to a specification function, and states the new
  log and the new count table.
- `Session` (`session.dfy`) composes whole runs: `Start`, one
  `ProcessSingleTypeExportedValues` call per original type, then `Finish`. Its
  method `Run` makes those calls on a plugin object, and it is proved to leave
  the log and the count table that the session functions describe. Its lemmas
  prove what reading the finished archive gives. They include the situations
  of the plugin's own tests: values of several types, and more than two
  batches of rows.

The JSON encoder `json.Dump` is a parameter, `dump: JsonValue -> string`.
Nothing is assumed about its output text. JSON objects are Dafny maps,
however, so the model does hold one assumption: the encoder's output depends
only on an object's keys and values, not on their insertion order (see
"## Left out"). Every statement about file contents is made in terms of
`dump` of each value.

## Model

| member | source | states |
|---|---|---|
| Batching.Batch | grr/server/grr_response_server/output_plugins/json_plugin.py:61 | the batches concatenate back to the input; every batch holds between 1 and `size` values; every batch but the last holds exactly `size` |
| Batching.BatchTotalLength | grr/server/grr_response_server/output_plugins/json_plugin.py:60-62 | the batch lengths add up to the number of values batched |
| Batching.BatchCount | grr/server/grr_response_server/output_plugins/json_plugin.py:61 | the number of batches is the input length divided by `size`, rounded up (stated as `|s| <= k * size < |s| + size`) |
| Paths.SplitExt | grr/server/grr_response_server/output_plugins/json_plugin.py:35-38 | root and extension concatenate to the path; the extension is empty or one dot followed by no dot or slash; a non-empty extension leaves a root whose final component has a non-dot character |
| Paths.SplitExtOfAppend | grr/server/grr_response_server/output_plugins/json_plugin.py:35-38 | a root with a named final component plus a one-dot extension (such as `.zip`) splits back into exactly that root and extension, so `path_prefix` of `name.zip` is `name` |
| JsonPlugin.SerializeToJson | grr/server/grr_response_server/output_plugins/json_plugin.py:13-17 | a protobuf struct is dumped as the JSON object of its primitive fields; any other value is dumped as the JSON string of its text |
| JsonPlugin.FileName | grr/server/grr_response_server/output_plugins/json_plugin.py:53-55 | the name is the prefix, `/`, the exported type, `/from_`, the original type and `.json`, each at its computed position, with the total length the sum of the parts |
| JsonPlugin.ExportEvents | grr/server/grr_response_server/output_plugins/json_plugin.py:46-72 | a call yields no events exactly when its input is empty; otherwise the first event is the header of the file named after the first value's class and the original type, and the last is the footer |
| JsonPlugin.FinishEvents | grr/server/grr_response_server/output_plugins/json_plugin.py:82-85 | `Finish` yields exactly four events: the manifest's header, one chunk with the dumped manifest, the footer, and the closing of the archive |
| JsonPlugin.ManifestJson | grr/server/grr_response_server/output_plugins/json_plugin.py:79 | the manifest is an object whose only key is `export_stats`, and that key holds an object keyed by exactly the original types in the count table |
| JsonPlugin.PathPrefixOfArchiveName | grr/server/grr_response_server/output_plugins/json_plugin.py:26-38 | an output name made of a root with a named final component and the plugin's extension `.zip` has exactly that root as its `path_prefix` |
| JsonPlugin.JsonInstantOutputPluginWithExportConversion.PathPrefix | grr/server/grr_response_server/output_plugins/json_plugin.py:35-38 | `path_prefix` is a prefix of the output file name; whatever it drops starts with a dot and contains no further dot or slash |
| JsonPlugin.SerializeAll | grr/server/grr_response_server/output_plugins/json_plugin.py:13-17 | one serialisation per value, in input order: a struct is dumped as a JSON object of its primitive fields, anything else as a JSON string of its text |
| JsonPlugin.RecordCount | grr/server/grr_response_server/output_plugins/json_plugin.py:74-76 | `setdefault` then assignment: the cell for (original, exported) holds `n`; no key appears except `original` and `exported`; every other cell keeps its value |
| JsonPlugin.ManifestRoundTrip | grr/server/grr_response_server/output_plugins/json_plugin.py:79-80 | the manifest JSON `{"export_stats": counts}` decodes back to exactly the count table |
| JsonPlugin.BatchContentsSnoc | grr/server/grr_response_server/output_plugins/json_plugin.py:65-67 | one more value in a batch appends a comma and that value's serialisation to the batch text |
| JsonPlugin.WriteBatch | grr/server/grr_response_server/output_plugins/json_plugin.py:64-69 | the string buffer loop yields every value's serialisation of the batch, each preceded by a comma, in order |
| JsonPlugin.BatchTextsConcat | grr/server/grr_response_server/output_plugins/json_plugin.py:61-70 | the batch chunks together are the comma-prefixed serialisations of all the batched values, however they are batched |
| JsonPlugin.ValueChunksPrefixed | grr/server/grr_response_server/output_plugins/json_plugin.py:57-71 | a value file's chunks concatenate to `[`, the first value, a comma before each later value, and `]` |
| JsonPlugin.JoinOfValues | grr/server/grr_response_server/output_plugins/json_plugin.py:58-67 | the first serialisation followed by comma-prefixed later ones is the comma-joined list of all serialisations |
| JsonPlugin.ValueChunksText | grr/server/grr_response_server/output_plugins/json_plugin.py:57-71 | a value file's chunks concatenate to the JSON array `[v1,v2,...,vn]` of all the values' serialisations in input order |
| JsonPlugin.ReadExportEvents | grr/server/grr_response_server/output_plugins/json_plugin.py:46-72 | reading back the events of one call finds no file for an empty input; otherwise it finds exactly one file, named after the first value's class and the original type, holding the JSON array of every value |
| JsonPlugin.ExportEventsShape | grr/server/grr_response_server/output_plugins/json_plugin.py:52-72 | the events of a non-empty call are the header first, then `[`, the first value, one chunk per batch of 1 to 100 later values, `]`, and the footer last; only chunks lie in between; there are `5 + batches` events in all |
| JsonPlugin.ExportEventsLayout | grr/server/grr_response_server/output_plugins/json_plugin.py:52-72 | the events of a non-empty call, written out one by one in the order the generator yields them |
| JsonPlugin.ExportedCount | grr/server/grr_response_server/output_plugins/json_plugin.py:60-62 | the counter, 1 for the first value plus every batch length, equals the number of values |
| JsonPlugin.FileNameInjective | grr/server/grr_response_server/output_plugins/json_plugin.py:52-55 | for exported type names without a slash, different (exported, original) pairs give different file names |
| JsonPlugin.ManifestName | grr/server/grr_response_server/output_plugins/json_plugin.py:82 | the manifest's name is the prefix, `/` and `MANIFEST`, with the total length the sum of the parts |
| JsonPlugin.ManifestNameIsNotAFileName | grr/server/grr_response_server/output_plugins/json_plugin.py:82 | the manifest's name never collides with a value file's name |
| JsonPlugin.ReadFinishedArchive | grr/server/grr_response_server/output_plugins/json_plugin.py:78-85 | after a readable log, `Finish` makes a closed archive holding the earlier files followed by the manifest, whose contents are `dump` of `{"export_stats": counts}` |
| JsonPlugin.JsonInstantOutputPluginWithExportConversion.constructor | grr/server/grr_response_server/output_plugins/json_plugin.py:30-33 | a new plugin has no archive generator and an empty count table |
| JsonPlugin.JsonInstantOutputPluginWithExportConversion.Start | grr/server/grr_response_server/output_plugins/json_plugin.py:40-44 | opens a fresh archive with an empty log, clears the count table, and yields nothing |
| JsonPlugin.JsonInstantOutputPluginWithExportConversion.ProcessSingleTypeExportedValues | grr/server/grr_response_server/output_plugins/json_plugin.py:46-76 | an empty input yields nothing and leaves the table alone; otherwise the method yields and appends to the log exactly the events of `ExportEvents`, and records `|values|` in the single cell (original type, first value's class) |
| JsonPlugin.JsonInstantOutputPluginWithExportConversion.WriteOpening | grr/server/grr_response_server/output_plugins/json_plugin.py:52-59 | writes the file header, `[` and the first value's serialisation, in that order |
| JsonPlugin.JsonInstantOutputPluginWithExportConversion.WriteBatches | grr/server/grr_response_server/output_plugins/json_plugin.py:60-70 | writes one chunk per batch, holding that batch's text, and advances the counter by every batch length |
| JsonPlugin.JsonInstantOutputPluginWithExportConversion.WriteClosing | grr/server/grr_response_server/output_plugins/json_plugin.py:71-72 | writes `]` and the file footer |
| JsonPlugin.JsonInstantOutputPluginWithExportConversion.Finish | grr/server/grr_response_server/output_plugins/json_plugin.py:78-85 | yields and appends the manifest header, the dumped manifest, the footer and the closing of the archive |
| Archive.StreamingZipGenerator.constructor | grr/server/grr_response_server/output_plugins/json_plugin.py:41-42 | a new generator has an empty log |
| Archive.StreamingZipGenerator.WriteFileHeader | grr/server/grr_response_server/output_plugins/json_plugin.py:52 | appends a header event for the file name and returns it |
| Archive.StreamingZipGenerator.WriteFileChunk | grr/server/grr_response_server/output_plugins/json_plugin.py:57 | appends a chunk event for the data and returns it |
| Archive.StreamingZipGenerator.WriteFileFooter | grr/server/grr_response_server/output_plugins/json_plugin.py:72 | appends a footer event and returns it |
| Archive.StreamingZipGenerator.Close | grr/server/grr_response_server/output_plugins/json_plugin.py:85 | appends the closing event and returns it |
| Archive.ReadEntryEvents | grr/server/grr_response_server/output_plugins/json_plugin_test.py:23-26 | a header, chunks and a footer read back as one file, named after the header, whose contents are the chunks concatenated, in front of whatever follows |
| Archive.ReadEntriesAppend | grr/server/grr_response_server/output_plugins/json_plugin_test.py:23-26 | appending events to a readable log appends their files to the files already read |
| Archive.ReadArchiveOfClosed | grr/server/grr_response_server/output_plugins/json_plugin_test.py:23-26 | a closed archive reads as the files of the log before the closing event |
| Session.ReadExports | grr/server/grr_response_server/output_plugins/json_plugin.py:46-72 | successive calls read back as one file per call with values, in call order |
| Session.ReadSession | grr/server/grr_response_server/output_plugins/json_plugin.py:40-85 | a whole run produces a closed archive: one JSON array file per non-empty call, in call order, then the manifest with the counts of all calls |
| Session.ExportsOfSnoc | grr/server/grr_response_server/output_plugins/json_plugin.py:46-76 | one more call appends its events to those of the earlier calls, and updates the count table as that one call does |
| Session.Run | grr/server/grr_response_server/output_plugins/json_plugin.py:40-85 | `Start`, one `ProcessSingleTypeExportedValues` per call and `Finish`, made on a plugin object, leave the log and the count table exactly as the session functions describe; the archive then reads back as one file per non-empty call and the manifest |
| Session.TwoTypesCounts | grr/server/grr_response_server/output_plugins/json_plugin_test.py:100-111 | one value of each of two types gives the table `{"StatEntry": {"ExportedFile": 1}, "Process": {"ExportedProcess": 1}}` |
| Session.TwoTypesFiles | grr/server/grr_response_server/output_plugins/json_plugin_test.py:93-98 | one value of each of two types gives the files `ExportedFile/from_StatEntry.json` and `ExportedProcess/from_Process.json`, each holding its one value |
| Session.MultipleTypes | grr/server/grr_response_server/output_plugins/json_plugin_test.py:85-127 | the whole archive for two types: both value files, then a manifest that decodes to one count per pair |
| Session.MoreThanOneBatch | grr/server/grr_response_server/output_plugins/json_plugin_test.py:149-166 | `2 * ROW_BATCH + 1` values fill exactly two full batches after the first value, and the file holds every value |

## Left out

- Generator laziness: the Python methods are generators that perform each write only when the caller asks for the next item. The model runs each method to completion and returns the whole list of yielded events. A caller that stops part-way is not modelled.
- `if not first_value`: the model treats only an empty input as "no first value". A first value that Python considers false is not modelled; Python would skip such a type entirely.
- JsonPlugin.JsonInstantOutputPluginWithExportConversion.Finish: requires an archive generator. Called before `Start`, the source would fail with an `AttributeError` on `None`, and that failure is not modelled.
- JsonPlugin.JsonInstantOutputPluginWithExportConversion.ProcessSingleTypeExportedValues: requires an archive generator when the input is non-empty. Called before `Start`, the source would fail with an `AttributeError` on `None`, and that failure is not modelled.
- `json.Dump` is the parameter `dump`. Nothing is assumed about its output text, except that it ignores key order (next line). The actual JSON encoding, the struct's `ToPrimitiveDict(stringify_leaf_fields=True)` and Python's `str(value)` are foreign code: a value carries its primitive fields or its text.
- Key order of JSON objects: the model's objects are unordered Dafny maps. This covers the value structs' fields and the count table (`CountTable`, `ManifestJson`). Python's dicts keep insertion order, and `json.Dump` is handed them in that order, so the MANIFEST text and each struct's text may depend on the order in which counts were recorded or fields were listed. The model does not capture that order; it treats two objects with the same keys and values as the same input to `dump`.
- UTF-8 encoding of chunks (`.encode("utf-8")`): chunk data is kept as text. The Unicode test therefore has no counterpart beyond the generic file-contents lemmas.
- The zip format itself (local headers, DEFLATE compression, central directory) is not modelled. `StreamingZipGenerator` is reduced to the sequence of calls made on it, and reading an archive is reduced to the inverse of that sequence.
- `output_file_name` is built by the base class `InstantOutputPluginWithExportConversion`, which is not part of this model, from `output_file_extension`; this plugin sets that extension to `.zip` (`OutputFileExtension`). The model takes the name as an unconstrained constructor parameter, and `PathPrefixOfArchiveName` says what `path_prefix` is when the name ends in `.zip`.
- `os.path.splitext` is modelled as its POSIX form only; the Windows form with `\` and drive letters is not modelled.
- The export conversion that groups values by original type and calls `ProcessSingleTypeExportedValues` once per type is in the base class and is not part of this model. `Session.Run` stands in for it and takes the calls as a given list.
