/**
 * The server's in-memory track store (`Track`, backend/models/track.py): a class-level
 * list of track dictionaries with first-match lookup by id, append-only creation,
 * whitelisted updates and deletion. Generated ids and timestamps are parameters.
 */
module TrackStore {
  import opened Base

  /** A JSON value as stored in a track dictionary (booleans, floats and objects are not modelled). */
  datatype Json = JNull | JInt(i: int) | JStr(s: string) | JList(items: seq<Json>)

  /** A track dictionary. */
  type Record = map<string, Json>

  /** `d.get(k, default)`. */
  function Get(d: Record, k: string, default: Json): Json {
    if k in d then d[k] else default
  }

  /** Python truthiness of a stored value (`None`, `0`, `''` and `[]` are false). */
  predicate Truthy(v: Json) {
    match v
    case JNull => false
    case JInt(i) => i != 0
    case JStr(s) => s != ""
    case JList(items) => items != []
  }

  /** The fields `update` may change, in the order it visits them. */
  const UpdatableFields: seq<string> := ["title", "artist", "genre", "mood", "bpm", "key", "filePath"]

  /** The keys of every record `create` builds. */
  const CreatedKeys: set<string> := {"id", "title", "artist", "genre", "mood", "bpm", "key",
                                     "filePath", "duration", "fileSize", "createdAt", "updatedAt"}

  /**
   * The dictionary `create` builds: title and filePath copied, artist defaulting to '',
   * genre and mood to [], the other optional fields to None.
   */
  function NewRecord(data: Record, id: string, createdAt: string, updatedAt: string): (r: Record)
    requires "title" in data && "filePath" in data
    ensures r.Keys == CreatedKeys
    ensures r["id"] == JStr(id) && r["createdAt"] == JStr(createdAt) && r["updatedAt"] == JStr(updatedAt)
    ensures r["title"] == data["title"] && r["filePath"] == data["filePath"]
    ensures r["artist"] == (if "artist" in data then data["artist"] else JStr(""))
    ensures r["genre"] == (if "genre" in data then data["genre"] else JList([]))
    ensures r["mood"] == (if "mood" in data then data["mood"] else JList([]))
    ensures forall k :: k in {"bpm", "key", "duration", "fileSize"} ==>
      r[k] == (if k in data then data[k] else JNull)
  {
    map[
      "id" := JStr(id),
      "title" := data["title"],
      "artist" := Get(data, "artist", JStr("")),
      "genre" := Get(data, "genre", JList([])),
      "mood" := Get(data, "mood", JList([])),
      "bpm" := Get(data, "bpm", JNull),
      "key" := Get(data, "key", JNull),
      "filePath" := data["filePath"],
      "duration" := Get(data, "duration", JNull),
      "fileSize" := Get(data, "fileSize", JNull),
      "createdAt" := JStr(createdAt),
      "updatedAt" := JStr(updatedAt)]
  }

  /** `track['id'] == track_id`. */
  predicate HasId(r: Record, id: string)
    requires "id" in r
  {
    r["id"] == JStr(id)
  }

  /** Every stored record has an id (records from `create` always do). */
  predicate AllHaveIds(records: seq<Record>) {
    forall i :: 0 <= i < |records| ==> "id" in records[i]
  }

  /** Position of the first record with this id, or -1: the record `get_by_id` returns. */
  function IndexOfId(records: seq<Record>, id: string): (r: int)
    requires AllHaveIds(records)
    ensures -1 <= r < |records|
    ensures r >= 0 ==> HasId(records[r], id) && forall j :: 0 <= j < r ==> !HasId(records[j], id)
    ensures r == -1 <==> forall j :: 0 <= j < |records| ==> !HasId(records[j], id)
    decreases |records|
  {
    if records == [] then -1
    else if HasId(records[0], id) then 0
    else
      var k := IndexOfId(records[1..], id);
      assert forall j :: 1 <= j < |records| ==> records[j] == records[1..][j - 1];
      if k == -1 then -1 else k + 1
  }

  /** The index found by a scan that stops at `i`. */
  lemma {:induction false} IndexOfIdAt(records: seq<Record>, id: string, i: nat)
    requires AllHaveIds(records) && i < |records| && HasId(records[i], id)
    requires forall j :: 0 <= j < i ==> !HasId(records[j], id)
    ensures IndexOfId(records, id) == i
    decreases i
  {
    if i > 0 {
      assert forall j :: 1 <= j < |records| ==> records[j] == records[1..][j - 1];
      IndexOfIdAt(records[1..], id, i - 1);
    }
  }

  /** After appending a record with an id nobody has yet, lookup by that id finds the new record. */
  lemma FindAfterAppend(records: seq<Record>, rec: Record, id: string)
    requires AllHaveIds(records) && "id" in rec && HasId(rec, id)
    requires IndexOfId(records, id) == -1
    ensures AllHaveIds(records + [rec])
    ensures IndexOfId(records + [rec], id) == |records|
  {
    var all := records + [rec];
    assert forall j :: 0 <= j < |records| ==> all[j] == records[j];
    IndexOfIdAt(all, id, |records|);
  }

  /** Appending a record leaves lookups of every other id where they were. */
  lemma FindOthersAfterAppend(records: seq<Record>, rec: Record, id: string, other: string)
    requires AllHaveIds(records) && "id" in rec && HasId(rec, id) && other != id
    requires IndexOfId(records, other) >= 0
    ensures AllHaveIds(records + [rec])
    ensures IndexOfId(records + [rec], other) == IndexOfId(records, other)
  {
    var all := records + [rec];
    var i := IndexOfId(records, other);
    assert forall j :: 0 <= j < |records| ==> all[j] == records[j];
    IndexOfIdAt(all, other, i);
  }

  // ----- update -----

  /** The `for field in updatable_fields` loop applied to the first `fields`. */
  function ApplyFields(rec: Record, data: Record, fields: seq<string>): (r: Record)
    ensures forall k :: k in rec ==> k in r
    ensures forall k :: k !in fields ==> (k in r <==> k in rec) && (k in rec ==> r[k] == rec[k])
    decreases |fields|
  {
    if fields == [] then rec
    else
      var r := ApplyFields(rec, data, fields[..|fields| - 1]);
      var f := fields[|fields| - 1];
      if f in data then r[f := data[f]] else r
  }

  /** A record after `update`: the whitelisted fields present in the data, then a new updatedAt. */
  function Updated(rec: Record, data: Record, now: string): (r: Record)
    ensures "updatedAt" in r && r["updatedAt"] == JStr(now)
    ensures forall k :: k in rec && k !in UpdatableFields && k != "updatedAt" ==> k in r && r[k] == rec[k]
  {
    ApplyFields(rec, data, UpdatableFields)["updatedAt" := JStr(now)]
  }

  /** Each field ends up with the data's value when listed and present, and its old value otherwise. */
  lemma {:induction false} ApplyFieldsSpec(rec: Record, data: Record, fields: seq<string>)
    ensures var r := ApplyFields(rec, data, fields);
      && r.Keys == rec.Keys + (data.Keys * set f | f in fields)
      && forall k :: k in r ==> r[k] == if k in fields && k in data then data[k] else rec[k]
    decreases |fields|
  {
    if fields != [] {
      var init := fields[..|fields| - 1];
      ApplyFieldsSpec(rec, data, init);
      assert forall k :: k in fields <==> k in init || k == fields[|fields| - 1] by {
        assert fields == init + [fields[|fields| - 1]];
      }
    }
  }

  /**
   * What `update` does to a found record: whitelisted fields present in the data take
   * the data's value, updatedAt becomes `now`, and every other field, id, createdAt,
   * duration and fileSize included, is left alone.
   */
  lemma UpdatedSpec(rec: Record, data: Record, now: string)
    ensures var r := Updated(rec, data, now);
      && r.Keys == rec.Keys + (data.Keys * set f | f in UpdatableFields) + {"updatedAt"}
      && r["updatedAt"] == JStr(now)
      && (forall k :: k in r && k != "updatedAt" ==>
            r[k] == if k in UpdatableFields && k in data then data[k] else rec[k])
      && (forall k :: k in rec && k !in UpdatableFields && k != "updatedAt" ==> r[k] == rec[k])
  {
    ApplyFieldsSpec(rec, data, UpdatableFields);
  }

  // ----- delete -----

  /** `list.remove(x)`: drop the first element equal to `x` (value equality for dicts). */
  function RemoveFirst(s: seq<Record>, x: Record): (r: seq<Record>)
    requires x in s
    ensures |r| == |s| - 1
    decreases |s|
  {
    if s[0] == x then s[1..] else [s[0]] + RemoveFirst(s[1..], x)
  }

  /** Removing a value takes it out at its first position. */
  lemma {:induction false} RemoveFirstAt(s: seq<Record>, x: Record, i: nat)
    requires i < |s| && s[i] == x && forall j :: 0 <= j < i ==> s[j] != x
    ensures RemoveFirst(s, x) == s[..i] + s[i + 1..]
    decreases i
  {
    if i > 0 {
      RemoveFirstAt(s[1..], x, i - 1);
      assert s[1..][..i - 1] == s[1..i];
      assert s[1..][i..] == s[i + 1..];
      assert [s[0]] + s[1..i] == s[..i];
    }
  }

  /**
   * `delete` removes the dictionary `get_by_id` found by value, which takes out exactly
   * the entry at the first matching index: an earlier equal dictionary would carry the
   * same id.
   */
  lemma RemoveFoundRecord(records: seq<Record>, id: string)
    requires AllHaveIds(records) && IndexOfId(records, id) >= 0
    ensures var i := IndexOfId(records, id);
      RemoveFirst(records, records[i]) == records[..i] + records[i + 1..]
  {
    var i := IndexOfId(records, id);
    forall j | 0 <= j < i ensures records[j] != records[i] {
      assert !HasId(records[j], id);
    }
    RemoveFirstAt(records, records[i], i);
  }

  /** The class-level `_tracks` list and the class methods that use it. */
  class Store {
    var tracks: seq<Record>

    ghost predicate Valid()
      reads this
    {
      AllHaveIds(tracks)
    }

    constructor ()
      ensures Valid() && tracks == []
    {
      tracks := [];
    }

    /** `get_all`: the live list. */
    method GetAll() returns (r: seq<Record>)
      ensures r == tracks
    {
      r := tracks;
    }

    /** The `for track in cls._tracks` scan of `get_by_id`, reporting where it stopped. */
    method Locate(id: string) returns (i: int)
      requires Valid()
      ensures i == IndexOfId(tracks, id)
    {
      i := 0;
      while i < |tracks|
        invariant 0 <= i <= |tracks|
        invariant forall j :: 0 <= j < i ==> !HasId(tracks[j], id)
      {
        if tracks[i]["id"] == JStr(id) {
          IndexOfIdAt(tracks, id, i);
          return;
        }
        i := i + 1;
      }
      i := -1;
    }

    /** `get_by_id`: the first record with this id, or None. */
    method GetById(id: string) returns (r: Option<Record>)
      requires Valid()
      ensures var i := IndexOfId(tracks, id); r == if i < 0 then None else Some(tracks[i])
    {
      var i := Locate(id);
      if i < 0 {
        r := None;
      } else {
        r := Some(tracks[i]);
      }
    }

    /** `create`: append one new record and return it. */
    method Create(data: Record, id: string, createdAt: string, updatedAt: string) returns (r: Record)
      requires Valid()
      requires "title" in data && "filePath" in data
      modifies this
      ensures Valid()
      ensures r == NewRecord(data, id, createdAt, updatedAt)
      ensures tracks == old(tracks) + [r]
    {
      r := NewRecord(data, id, createdAt, updatedAt);
      tracks := tracks + [r];
    }

    /** `update`: None for an unknown id; otherwise rewrite the first matching record in place. */
    method Update(id: string, data: Record, now: string) returns (r: Option<Record>)
      requires Valid()
      modifies this
      ensures Valid()
      ensures var i := IndexOfId(old(tracks), id);
        && (i < 0 ==> r == None && tracks == old(tracks))
        && (i >= 0 ==> r == Some(Updated(old(tracks)[i], data, now))
                       && tracks == old(tracks)[i := Updated(old(tracks)[i], data, now)])
    {
      var i := Locate(id);
      if i < 0 {
        return None;
      }
      var track := tracks[i];
      var f := 0;
      while f < |UpdatableFields|
        invariant 0 <= f <= |UpdatableFields|
        invariant track == ApplyFields(tracks[i], data, UpdatableFields[..f])
      {
        var field := UpdatableFields[f];
        assert UpdatableFields[..f + 1][..f] == UpdatableFields[..f];
        if field in data {
          track := track[field := data[field]];
        }
        f := f + 1;
      }
      assert UpdatableFields[..f] == UpdatableFields;
      assert "id" in tracks[i];
      track := track["updatedAt" := JStr(now)];
      tracks := tracks[i := track];
      r := Some(track);
    }

    /** `delete`: False for an unknown id; otherwise remove the found record and return True. */
    method Delete(id: string) returns (deleted: bool)
      requires Valid()
      modifies this
      ensures Valid()
      ensures var i := IndexOfId(old(tracks), id);
        && deleted == (i >= 0)
        && tracks == if i >= 0 then old(tracks)[..i] + old(tracks)[i + 1..] else old(tracks)
    {
      var found := GetById(id);
      if found.None? {
        return false;
      }
      RemoveFoundRecord(tracks, id);
      tracks := RemoveFirst(tracks, found.value);
      deleted := true;
    }
  }
}
