/**
 * The link store behind the three HTTP handlers. Each handler reads the whole
 * data file; each mutating handler (POST, and DELETE of an existing position)
 * changes the decoded array in memory and writes the whole array back. The
 * class holds the data file's state and each method is one handler run as a
 * single atomic step.
 */
module Server {
  import opened Wrappers
  import opened Links
  import opened JsParseInt

  /**
   * The data file: missing, present but not valid JSON (so `JSON.parse`
   * throws), or holding the stored sequence of links.
   */
  datatype DataFile = Absent | Corrupt | Present(links: seq<Link>)

  /** What a handler reports: success with a payload, "Link not found", or a server error. */
  datatype Outcome<+T> = Ok(value: T) | NotFound | Failed

  /**
   * The position a DELETE path segment names in `links`: `parseInt` of the
   * segment when that is a number in [0, |links|), and nothing otherwise
   * (NaN, negative or too large).
   */
  function ResolveIndex(links: seq<Link>, segment: string): (r: Option<nat>)
    ensures r.Some? ==> r.value < |links| && ParseInt(segment) == Some(r.value as int)
    ensures r.None? <==> ParseInt(segment).None? || ParseInt(segment).value < 0 || ParseInt(segment).value >= |links|
  {
    var index := ParseInt(segment);
    if index.Some? && 0 <= index.value < |links| then Some(index.value as nat) else None
  }

  class LinkStore {
    /** The state of the data file on disk. */
    var file: DataFile

    /** The store as the process finds it on disk at start-up. */
    constructor (onDisk: DataFile)
      ensures file == onDisk
    {
      file := onDisk;
    }

    /**
     * Start-up: when the data file does not exist, write the six sample links.
     * An existing file, even one that cannot be read, is left as it is.
     * `writeOk` is whether the file system accepts the write; when it does
     * not, the start-up promise rejects and the server never listens.
     */
    method InitDataFile(writeOk: bool) returns (started: bool)
      modifies this
      ensures started <==> old(file) != Absent || writeOk
      ensures old(file) == Absent && writeOk ==> file == Present(DefaultLinks)
      ensures old(file) != Absent || !writeOk ==> file == old(file)
    {
      if file != Absent {
        return true;
      }
      if !writeOk {
        return false;
      }
      file := Present(DefaultLinks);
      started := true;
    }

    /**
     * GET /api/links: the stored sequence as it is, or a server error when the
     * file cannot be read (`readOk` false) or decoded.
     */
    method List(readOk: bool) returns (r: Outcome<seq<Link>>)
      ensures r.Ok? <==> readOk && file.Present?
      ensures r.Ok? ==> r.value == file.links
      ensures !r.Ok? ==> r == Failed
    {
      if !readOk || !file.Present? {
        return Failed;
      }
      var links := file.links;
      r := Ok(links);
    }

    /**
     * POST /api/links: build the record with its defaults, append it and write
     * the whole sequence back. A failed read leaves the file untouched; a
     * failed write is reported and, in this model, leaves it untouched too.
     */
    method Create(req: LinkRequest, readOk: bool, writeOk: bool) returns (r: Outcome<Link>)
      modifies this
      ensures r.Ok? <==> readOk && writeOk && old(file).Present?
      ensures r.Ok? ==> r.value == MakeLink(req) && file == Present(old(file).links + [r.value])
      ensures !r.Ok? ==> r == Failed && file == old(file)
    {
      if !readOk || !file.Present? {
        return Failed;
      }
      var links := file.links;
      var newLink := MakeLink(req);
      links := links + [newLink];
      if !writeOk {
        return Failed;
      }
      file := Present(links);
      r := Ok(newLink);
    }

    /**
     * DELETE /api/links/:index: remove the record at the position `parseInt`
     * reads from the segment, when it is in range, and write the rest back;
     * "not found" otherwise, with nothing written.
     */
    method Delete(segment: string, readOk: bool, writeOk: bool) returns (r: Outcome<()>)
      modifies this
      ensures !readOk || !old(file).Present? ==> r == Failed && file == old(file)
      ensures readOk && old(file).Present? && ResolveIndex(old(file).links, segment).None? ==>
        r == NotFound && file == old(file)
      ensures readOk && old(file).Present? && ResolveIndex(old(file).links, segment).Some? ==>
        if writeOk then
          r == Ok(()) && file == Present(RemoveAt(old(file).links, ResolveIndex(old(file).links, segment).value))
        else
          r == Failed && file == old(file)
    {
      if !readOk || !file.Present? {
        return Failed;
      }
      var links := file.links;
      var index := ResolveIndex(links, segment);
      if index.None? {
        return NotFound;
      }
      links := RemoveAt(links, index.value);
      if !writeOk {
        return Failed;
      }
      file := Present(links);
      r := Ok(());
    }
  }

  /**
   * Starting with no data file and listing right after start-up gives the six
   * sample links in their listed order.
   */
  method SeededStartupLists() returns (r: Outcome<seq<Link>>)
    ensures r == Ok(DefaultLinks)
  {
    var store := new LinkStore(Absent);
    var started := store.InitDataFile(true);
    r := store.List(true);
  }

  /**
   * Creating a link and then deleting the last position, the one Create
   * appended at, brings the stored sequence back to what it was.
   */
  method CreateThenDeleteLast(store: LinkStore, req: LinkRequest)
    returns (created: Outcome<Link>, deleted: Outcome<()>)
    requires store.file.Present?
    modifies store
    ensures created.Ok? && deleted.Ok?
    ensures store.file == old(store.file)
  {
    var before := store.file.links;
    created := store.Create(req, true, true);
    deleted := store.Delete(IntToDecimal(|before|), true, true);
    ParseIntRoundTrip(|before|);
    RemoveAtUndoesAppend(before, created.value);
  }
}
