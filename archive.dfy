/**
 * The streaming zip writer as the plugin sees it: an append-only log of
 * events (a file header, chunks of file contents, a file footer, and the
 * closing of the archive), together with a reader that recovers the
 * archive's files from such a log.
 */
module Archive {

  import opened Optional
  import opened Json

  datatype Event = Header(name: string) | Chunk(data: string) | Footer | Close

  /** One file of the archive as a reader sees it. */
  datatype ZipEntry = ZipEntry(name: string, contents: string)

  /** `utils.StreamingZipGenerator`: each call appends its event to the log and returns it. */
  class StreamingZipGenerator {

    var log: seq<Event>

    constructor ()
      ensures log == []
    {
      log := [];
    }

    method WriteFileHeader(name: string) returns (e: Event)
      modifies this
      ensures e == Header(name)
      ensures log == old(log) + [e]
    {
      e := Header(name);
      log := log + [e];
    }

    method WriteFileChunk(data: string) returns (e: Event)
      modifies this
      ensures e == Chunk(data)
      ensures log == old(log) + [e]
    {
      e := Chunk(data);
      log := log + [e];
    }

    method WriteFileFooter() returns (e: Event)
      modifies this
      ensures e == Footer
      ensures log == old(log) + [e]
    {
      e := Footer;
      log := log + [e];
    }

    method Close() returns (e: Event)
      modifies this
      ensures e == Event.Close
      ensures log == old(log) + [e]
    {
      e := Event.Close;
      log := log + [e];
    }
  }

  /** One chunk event per string, in order. */
  function Chunks(cs: seq<string>): (r: seq<Event>)
    ensures |r| == |cs|
    ensures forall i :: 0 <= i < |cs| ==> r[i] == Chunk(cs[i])
  {
    if cs == [] then [] else [Chunk(cs[0])] + Chunks(cs[1..])
  }

  lemma ChunksAppend(cs: seq<string>, ds: seq<string>)
    ensures Chunks(cs + ds) == Chunks(cs) + Chunks(ds)
  {
    assert |Chunks(cs + ds)| == |Chunks(cs) + Chunks(ds)|;
    forall i | 0 <= i < |cs + ds| ensures Chunks(cs + ds)[i] == (Chunks(cs) + Chunks(ds))[i] {
      if i < |cs| { assert (cs + ds)[i] == cs[i]; } else { assert (cs + ds)[i] == ds[i - |cs|]; }
    }
  }

  /** The events that write one file: its header, its chunks, its footer. */
  function EntryEvents(name: string, cs: seq<string>): seq<Event>
  {
    [Header(name)] + Chunks(cs) + [Footer]
  }

  /** Reads file contents up to and including the footer; returns them with the events after it. */
  function ReadBody(log: seq<Event>): (r: Option<(string, seq<Event>)>)
    ensures r.Some? ==> |r.value.1| < |log|
    decreases |log|
  {
    if log == [] then None
    else match log[0]
      case Chunk(c) =>
        (match ReadBody(log[1..])
         case None => None
         case Some(body) => Some((c + body.0, body.1)))
      case Footer => Some(("", log[1..]))
      case _ => None
  }

  /** Reads a log made of complete files only. */
  function ReadEntries(log: seq<Event>): Option<seq<ZipEntry>>
    decreases |log|
  {
    if log == [] then Some([])
    else match log[0]
      case Header(name) =>
        (match ReadBody(log[1..])
         case None => None
         case Some(body) =>
           (match ReadEntries(body.1)
            case None => None
            case Some(rest) => Some([ZipEntry(name, body.0)] + rest)))
      case _ => None
  }

  /** Reads a finished archive: complete files followed by the closing event. */
  function ReadArchive(log: seq<Event>): Option<seq<ZipEntry>>
  {
    if log != [] && log[|log| - 1] == Close then ReadEntries(log[..|log| - 1]) else None
  }

  lemma {:induction false} ReadBodyOfChunks(cs: seq<string>, rest: seq<Event>)
    ensures ReadBody(Chunks(cs) + [Footer] + rest) == Some((Concat(cs), rest))
    decreases |cs|
  {
    var log := Chunks(cs) + [Footer] + rest;
    if cs == [] {
      assert log == [Footer] + rest;
    } else {
      assert log[0] == Chunk(cs[0]);
      assert log[1..] == Chunks(cs[1..]) + [Footer] + rest;
      ReadBodyOfChunks(cs[1..], rest);
    }
  }

  /** The events of one file, read back, give that file with its chunks concatenated. */
  lemma ReadEntryEvents(name: string, cs: seq<string>, rest: seq<Event>)
    ensures ReadEntries(EntryEvents(name, cs) + rest) ==
      match ReadEntries(rest)
      case None => None
      case Some(es) => Some([ZipEntry(name, Concat(cs))] + es)
  {
    var log := EntryEvents(name, cs) + rest;
    assert log[0] == Header(name);
    assert log[1..] == Chunks(cs) + [Footer] + rest;
    ReadBodyOfChunks(cs, rest);
  }

  lemma ReadEntryEventsAlone(name: string, cs: seq<string>)
    ensures ReadEntries(EntryEvents(name, cs)) == Some([ZipEntry(name, Concat(cs))])
  {
    assert EntryEvents(name, cs) + [] == EntryEvents(name, cs);
    ReadEntryEvents(name, cs, []);
    assert ReadEntries([]) == Some([]);
    assert [ZipEntry(name, Concat(cs))] + [] == [ZipEntry(name, Concat(cs))];
  }

  lemma {:induction false} ReadBodyAppend(log: seq<Event>, more: seq<Event>)
    requires ReadBody(log).Some?
    ensures ReadBody(log + more) == Some((ReadBody(log).value.0, ReadBody(log).value.1 + more))
    decreases |log|
  {
    assert (log + more)[0] == log[0];
    assert (log + more)[1..] == log[1..] + more;
    if log[0].Chunk? {
      ReadBodyAppend(log[1..], more);
    }
  }

  /** Appending complete files to a log of complete files appends them to what the reader sees. */
  lemma {:induction false} ReadEntriesAppend(log: seq<Event>, more: seq<Event>)
    requires ReadEntries(log).Some?
    ensures ReadEntries(log + more) ==
      match ReadEntries(more)
      case None => None
      case Some(es) => Some(ReadEntries(log).value + es)
    decreases |log|
  {
    if log == [] {
      assert log + more == more;
      if ReadEntries(more).Some? {
        assert [] + ReadEntries(more).value == ReadEntries(more).value;
      }
    } else {
      var body := ReadBody(log[1..]).value;
      assert (log + more)[0] == log[0];
      assert (log + more)[1..] == log[1..] + more;
      ReadBodyAppend(log[1..], more);
      ReadEntriesAppend(body.1, more);
      if ReadEntries(more).Some? {
        var e := ZipEntry(log[0].name, body.0);
        var rest := ReadEntries(body.1).value;
        var es := ReadEntries(more).value;
        assert [e] + (rest + es) == ([e] + rest) + es;
      }
    }
  }

  /** Closing a log of complete files finishes an archive holding exactly those files. */
  lemma ReadArchiveOfClosed(log: seq<Event>)
    ensures ReadArchive(log + [Close]) == ReadEntries(log)
  {
    assert (log + [Close])[..|log|] == log;
  }
}
