/** EntryRepository.swift: insert-or-update of a transcript entry keyed by
    its audio file name, and the lookup of its transcript. */
module EntryRepository {
  import opened Base
  import opened Store

  /** `TranscriptMeta`: recognition details stored with an entry. */
  datatype TranscriptMeta = TranscriptMeta(
    localeIdentifier: Option<seq<char>>,
    recognizer: Option<seq<char>>,
    modelVersion: Option<seq<char>>,
    duration: Option<Float64>)

  /** The position of an entry named `name` (the first one, in store order).
      A fetch with `fetchLimit = 1` and no sort order may return any match;
      in a valid store there is at most one (`FindInValidStore`). */
  function Find(entries: seq<EntryRecord>, name: seq<char>): (r: Option<nat>)
    ensures r.Some? ==> r.value < |entries| && entries[r.value].audioFileName == name
    ensures r.Some? ==> forall j :: 0 <= j < r.value ==> entries[j].audioFileName != name
    ensures r.None? ==> forall j :: 0 <= j < |entries| ==> entries[j].audioFileName != name
  {
    if entries == [] then None
    else if entries[0].audioFileName == name then Some(0)
    else match Find(entries[1..], name)
      case None => None
      case Some(k) => Some(k + 1)
  }

  /** At most one entry carries `name`. */
  ghost predicate AtMostOne(entries: seq<EntryRecord>, name: seq<char>)
  {
    forall i, j ::
      0 <= i < |entries| && 0 <= j < |entries| &&
      entries[i].audioFileName == name && entries[j].audioFileName == name
      ==> i == j
  }

  /** The field writes of `upsertEntry` on the found or inserted entry; the
      metadata is written only when some was given. */
  function Overwrite(e: EntryRecord, name: seq<char>, createdAt: Timestamp, rawText: seq<char>, meta: Option<seq<Byte>>): EntryRecord
  {
    e.(audioFileName := name, createdAt := createdAt, rawText := Some(rawText),
       transcriptMeta := if meta.Some? then meta else e.transcriptMeta)
  }

  /** The entries after `upsertEntry`; `freshId` is the identifier a newly
      inserted entry receives, and `meta` the already encoded metadata. */
  function Upserted(entries: seq<EntryRecord>, freshId: Uuid, name: seq<char>, createdAt: Timestamp,
                    rawText: seq<char>, meta: Option<seq<Byte>>): seq<EntryRecord>
  {
    match Find(entries, name)
    case Some(i) => entries[i := Overwrite(entries[i], name, createdAt, rawText, meta)]
    case None => entries + [Overwrite(EntryRecord(freshId, name, createdAt, None, None), name, createdAt, rawText, meta)]
  }

  /** `JSONEncoder().encode(meta)` when metadata is given. */
  function Encoded(meta: Option<TranscriptMeta>, encode: TranscriptMeta -> seq<Byte>): Option<seq<Byte>>
  {
    match meta
    case None => None
    case Some(m) => Some(encode(m))
  }

  /** `upsertEntry`: find the entry by name or insert one with a fresh id,
      then overwrite its fields in place and return it. */
  method UpsertEntry(ctx: Context, audioFileName: seq<char>, createdAt: Timestamp, rawText: seq<char>,
                     meta: Option<TranscriptMeta>, encode: TranscriptMeta -> seq<Byte>) returns (entry: EntryRecord)
    requires ctx.Valid()
    modifies ctx
    ensures ctx.Valid()
    ensures ctx.chunks == old(ctx.chunks)
    ensures ctx.entries == Upserted(old(ctx.entries), old(ctx.nextId), audioFileName, createdAt, rawText, Encoded(meta, encode))
    ensures ctx.nextId == if Find(old(ctx.entries), audioFileName).Some? then old(ctx.nextId) else old(ctx.nextId) + 1
    ensures Find(ctx.entries, audioFileName).Some? && entry == ctx.entries[Find(ctx.entries, audioFileName).value]
  {
    var existing := Find(ctx.entries, audioFileName);
    var i: nat;
    var e: EntryRecord;
    if existing.None? {
      var id := ctx.NewId();
      e := EntryRecord(id, audioFileName, createdAt, None, None);
      ctx.InsertEntry(e);
      i := |ctx.entries| - 1;
    } else {
      i := existing.value;
      e := ctx.entries[i];
    }
    e := e.(audioFileName := audioFileName);
    e := e.(createdAt := createdAt);
    e := e.(rawText := Some(rawText));
    if meta.Some? {
      e := e.(transcriptMeta := Some(encode(meta.value)));
    }
    ctx.UpdateEntry(i, e);
    entry := e;
    UpsertedTarget(old(ctx.entries), old(ctx.nextId), audioFileName, createdAt, rawText, Encoded(meta, encode));
  }

  /** In a valid store the name is unique, so `Find` returns the one entry
      carrying it, whatever order the fetch would have used. */
  lemma FindInValidStore(ctx: Context, name: seq<char>)
    requires ctx.Valid()
    ensures AtMostOne(ctx.entries, name)
    ensures forall j :: 0 <= j < |ctx.entries| && ctx.entries[j].audioFileName == name ==> Find(ctx.entries, name) == Some(j)
  {
    forall j | 0 <= j < |ctx.entries| && ctx.entries[j].audioFileName == name
      ensures Find(ctx.entries, name) == Some(j)
    {
      assert Find(ctx.entries, name).Some?;
    }
  }

  /** `fetchTranscript`: the transcript of the first entry with that name, or
      nil when there is none (or it has no transcript yet). */
  function FetchTranscript(entries: seq<EntryRecord>, audioFileName: seq<char>): (r: Option<seq<char>>)
    ensures r.Some? ==> exists j :: 0 <= j < |entries| && entries[j].audioFileName == audioFileName && entries[j].rawText == r
    ensures (forall j :: 0 <= j < |entries| ==> entries[j].audioFileName != audioFileName) ==> r.None?
    ensures AtMostOne(entries, audioFileName) ==>
      forall j :: 0 <= j < |entries| && entries[j].audioFileName == audioFileName ==> r == entries[j].rawText
  {
    match Find(entries, audioFileName)
    case None => None
    case Some(i) => entries[i].rawText
  }

  /** Where the upserted entry sits: at the first match if there was one,
      otherwise appended; in both cases `Find` locates it afterwards, it keeps
      the old identifier or takes the fresh one, and every other position is
      untouched. */
  lemma UpsertedTarget(entries: seq<EntryRecord>, freshId: Uuid, name: seq<char>, createdAt: Timestamp,
                       rawText: seq<char>, meta: Option<seq<Byte>>)
    ensures var r := Upserted(entries, freshId, name, createdAt, rawText, meta);
      var t := if Find(entries, name).Some? then Find(entries, name).value else |entries|;
      && Find(r, name) == Some(t)
      && |r| == (if Find(entries, name).Some? then |entries| else |entries| + 1)
      && r[t].id == (if Find(entries, name).Some? then entries[t].id else freshId)
      && r[t].audioFileName == name && r[t].createdAt == createdAt && r[t].rawText == Some(rawText)
      && r[t].transcriptMeta == (if meta.Some? then meta
                                 else if Find(entries, name).Some? then entries[t].transcriptMeta
                                 else None)
      && forall j :: 0 <= j < |entries| && j != t ==> r[j] == entries[j]
  {
    var r := Upserted(entries, freshId, name, createdAt, rawText, meta);
    var t := if Find(entries, name).Some? then Find(entries, name).value else |entries|;
    FindFirst(r, name, t);
  }

  /** `Find` returns `t` when `t` is the first position carrying `name`. */
  lemma {:induction false} FindFirst(entries: seq<EntryRecord>, name: seq<char>, t: nat)
    requires t < |entries| && entries[t].audioFileName == name
    requires forall j :: 0 <= j < t ==> entries[j].audioFileName != name
    ensures Find(entries, name) == Some(t)
  {
    if t > 0 {
      FindFirst(entries[1..], name, t - 1);
    }
  }

  /** After an upsert exactly one entry has the name, provided at most one
      had it before. */
  lemma UpsertLeavesOne(entries: seq<EntryRecord>, freshId: Uuid, name: seq<char>, createdAt: Timestamp,
                        rawText: seq<char>, meta: Option<seq<Byte>>)
    requires AtMostOne(entries, name)
    ensures var r := Upserted(entries, freshId, name, createdAt, rawText, meta);
      Find(r, name).Some? && AtMostOne(r, name)
  {
    UpsertedTarget(entries, freshId, name, createdAt, rawText, meta);
  }

  /** A newly inserted entry's identifier is fresh: no entry of a valid store
      carries it. */
  lemma UpsertFreshId(ctx: Context, name: seq<char>, createdAt: Timestamp, rawText: seq<char>, meta: Option<seq<Byte>>)
    requires ctx.Valid() && Find(ctx.entries, name).None?
    ensures var r := Upserted(ctx.entries, ctx.nextId, name, createdAt, rawText, meta);
      r[|ctx.entries|].id == ctx.nextId &&
      forall j :: 0 <= j < |ctx.entries| ==> r[|ctx.entries|].id != ctx.entries[j].id
  {
    UpsertedTarget(ctx.entries, ctx.nextId, name, createdAt, rawText, meta);
  }

  /** Repeating the same upsert changes nothing more: no second entry, same fields. */
  lemma UpsertIdempotent(entries: seq<EntryRecord>, freshId: Uuid, freshId': Uuid, name: seq<char>,
                         createdAt: Timestamp, rawText: seq<char>, meta: Option<seq<Byte>>)
    ensures var once := Upserted(entries, freshId, name, createdAt, rawText, meta);
      Upserted(once, freshId', name, createdAt, rawText, meta) == once
  {
    var once := Upserted(entries, freshId, name, createdAt, rawText, meta);
    UpsertedTarget(entries, freshId, name, createdAt, rawText, meta);
    var t := Find(once, name).value;
    assert Overwrite(once[t], name, createdAt, rawText, meta) == once[t];
  }

  /** Upserting the same name twice leaves one entry for it, carrying the
      second call's text and time, and no more entries than the first call. */
  lemma UpsertTwice(entries: seq<EntryRecord>, freshId: Uuid, freshId': Uuid, name: seq<char>,
                    createdAt: Timestamp, rawText: seq<char>, meta: Option<seq<Byte>>,
                    createdAt': Timestamp, rawText': seq<char>, meta': Option<seq<Byte>>)
    requires AtMostOne(entries, name)
    ensures var once := Upserted(entries, freshId, name, createdAt, rawText, meta);
      var twice := Upserted(once, freshId', name, createdAt', rawText', meta');
      && |twice| == |once|
      && AtMostOne(twice, name)
      && Find(twice, name) == Find(once, name)
      && twice[Find(once, name).value].id == once[Find(once, name).value].id
      && twice[Find(once, name).value].rawText == Some(rawText')
      && twice[Find(once, name).value].createdAt == createdAt'
  {
    var once := Upserted(entries, freshId, name, createdAt, rawText, meta);
    UpsertLeavesOne(entries, freshId, name, createdAt, rawText, meta);
    UpsertLeavesOne(once, freshId', name, createdAt', rawText', meta');
    UpsertedTarget(once, freshId', name, createdAt', rawText', meta');
  }

  /** After an upsert, `fetchTranscript` of that name yields the new text, and
      of any other name what it yielded before. */
  lemma FetchAfterUpsert(entries: seq<EntryRecord>, freshId: Uuid, name: seq<char>, createdAt: Timestamp,
                         rawText: seq<char>, meta: Option<seq<Byte>>, other: seq<char>)
    ensures var r := Upserted(entries, freshId, name, createdAt, rawText, meta);
      FetchTranscript(r, name) == Some(rawText) &&
      (other != name ==> FetchTranscript(r, other) == FetchTranscript(entries, other))
  {
    var r := Upserted(entries, freshId, name, createdAt, rawText, meta);
    UpsertedTarget(entries, freshId, name, createdAt, rawText, meta);
    if other != name {
      var t := if Find(entries, name).Some? then Find(entries, name).value else |entries|;
      match Find(entries, other)
      case Some(k) =>
        assert k != t;
        FindFirst(r, other, k);
      case None =>
        assert forall j :: 0 <= j < |r| ==> r[j].audioFileName != other by {
          forall j | 0 <= j < |r| ensures r[j].audioFileName != other {
            if j != t { assert r[j] == entries[j]; }
          }
        }
    }
  }
}
