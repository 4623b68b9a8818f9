/** The object store the core reads and writes (the managed object context of
    Persistence.swift), as an in-memory collection of records. Only the record
    shapes of `EntryMO` and `ChunkMO` are modelled; the Core Data stack around
    them is not. */
module Store {
  import opened Base

  /** `EntryMO`: one transcript record, keyed by its audio file name. */
  datatype EntryRecord = EntryRecord(
    id: Uuid,
    audioFileName: seq<char>,
    createdAt: Timestamp,
    rawText: Option<seq<char>>,
    transcriptMeta: Option<seq<Byte>>)

  /** `ChunkMO`: one text window of an entry, with its vector as raw bytes. */
  datatype ChunkRecord = ChunkRecord(
    id: Uuid,
    entryId: Uuid,
    text: seq<char>,
    summary: Option<seq<char>>,
    tags: Option<seq<seq<char>>>,
    vector: Option<seq<Byte>>,
    tokenCount: int)

  /** A store read failure (`context.fetch` throwing). */
  datatype StoreError = FetchFailed

  /** The context: the inserted entries and chunks, in insertion order, and
      the supply of fresh identifiers standing for `UUID()`. */
  class Context {
    var entries: seq<EntryRecord>
    var chunks: seq<ChunkRecord>
    var nextId: Uuid

    /** Every identifier handed out so far is below `nextId`, no two entries
        and no two chunks share one, and no two entries share an audio file
        name (the upsert key), so a fetch by name has at most one match. */
    ghost predicate Valid()
      reads this
    {
      && (forall i :: 0 <= i < |entries| ==> entries[i].id < nextId)
      && (forall i :: 0 <= i < |chunks| ==> chunks[i].id < nextId)
      && (forall i, j :: 0 <= i < j < |entries| ==> entries[i].id != entries[j].id)
      && (forall i, j :: 0 <= i < j < |chunks| ==> chunks[i].id != chunks[j].id)
      && (forall i, j :: 0 <= i < j < |entries| ==> entries[i].audioFileName != entries[j].audioFileName)
    }

    constructor ()
      ensures Valid()
      ensures entries == [] && chunks == [] && nextId == 0
    {
      entries, chunks, nextId := [], [], 0;
    }

    /** `UUID()`: an identifier no record of this store carries. */
    method NewId() returns (id: Uuid)
      requires Valid()
      modifies this`nextId
      ensures Valid()
      ensures id == old(nextId) && nextId == id + 1
      ensures forall i :: 0 <= i < |entries| ==> entries[i].id != id
      ensures forall i :: 0 <= i < |chunks| ==> chunks[i].id != id
    {
      id := nextId;
      nextId := nextId + 1;
    }

    /** `ChunkMO(entity:insertInto:)` with its identifier already set: the
        record is added after all others. */
    method InsertChunk(c: ChunkRecord)
      requires Valid()
      requires c.id < nextId && forall i :: 0 <= i < |chunks| ==> chunks[i].id != c.id
      modifies this`chunks
      ensures Valid()
      ensures chunks == old(chunks) + [c]
    {
      chunks := chunks + [c];
    }

    /** `EntryMO(entity:insertInto:)` with its identifier already set. */
    method InsertEntry(e: EntryRecord)
      requires Valid()
      requires e.id < nextId && forall i :: 0 <= i < |entries| ==> entries[i].id != e.id
      requires forall i :: 0 <= i < |entries| ==> entries[i].audioFileName != e.audioFileName
      modifies this`entries
      ensures Valid()
      ensures entries == old(entries) + [e]
    {
      entries := entries + [e];
    }

    /** Field writes on a fetched entry: the record at position `i` changes
        in place and keeps its identifier and its name. */
    method UpdateEntry(i: nat, e: EntryRecord)
      requires Valid()
      requires i < |entries| && e.id == entries[i].id && e.audioFileName == entries[i].audioFileName
      modifies this`entries
      ensures Valid()
      ensures entries == old(entries)[i := e]
    {
      entries := entries[i := e];
    }
  }
}
