/**
 * The list of video records (append_video_record and update_video_record). The JSON file
 * the list is loaded from and saved to, and the lock around it, are left out: the list is
 * a field that the methods reassign. The fresh id and the creation time are passed in.
 */
module RecordStore {
  import opened Wrappers
  import opened Values

  /** details or {}: a falsy details value is replaced by an empty dict. */
  function DetailsOrEmpty(details: Value): (d: Value)
    ensures Truthy(details) ==> d == details
    ensures !Truthy(details) ==> d == Dict(map[])
  {
    if Truthy(details) then details else Dict(map[])
  }

  /** The id append_video_record uses: the given one when it is not empty, else the fresh one. */
  function ChooseRecordId(recordId: string, freshId: string): (id: string)
    requires freshId != []
    ensures id != []
    ensures id == recordId || (recordId == [] && id == freshId)
  {
    if recordId != [] then recordId else freshId
  }

  /** The record append_video_record adds. */
  function NewRecord(id: string, videoName: Value, personCount: int, status: Value, createdAt: string,
                     inputPath: Value, outputPath: Value, details: Value): (record: Fields)
    ensures HasId(record, id)
    ensures record.Keys == {"id", "video_name", "person_count", "status", "created_at", "input_path", "output_path", "details"}
    ensures record["video_name"] == videoName && record["status"] == status
    ensures record["person_count"] == Int(personCount) && record["created_at"] == Str(createdAt)
    ensures record["input_path"] == inputPath && record["output_path"] == outputPath
    ensures record["details"] == DetailsOrEmpty(details)
  {
    map["id" := Str(id), "video_name" := videoName, "person_count" := Int(personCount), "status" := status,
        "created_at" := Str(createdAt), "input_path" := inputPath, "output_path" := outputPath,
        "details" := DetailsOrEmpty(details)]
  }

  /** The list after update_video_record: the first record with the id gets the updates. */
  function UpdateFirst(records: seq<Fields>, id: string, updates: Fields): (updated: seq<Fields>)
    ensures |updated| == |records|
    ensures forall j :: 0 <= j < |records| && Some(j) != FirstWithId(records, id) ==> updated[j] == records[j]
    ensures FirstWithId(records, id).Some? ==>
      updated[FirstWithId(records, id).value] == records[FirstWithId(records, id).value] + updates
  {
    match FirstWithId(records, id)
    case None => records
    case Some(i) => records[i := records[i] + updates]
  }

  /** Only the first matching record changes; every other record, later duplicates included, stays. */
  lemma UpdateFirstChangesOnlyFirst(records: seq<Fields>, id: string, updates: Fields)
    ensures forall j :: 0 <= j < |records| && Some(j) != FirstWithId(records, id) ==>
      UpdateFirst(records, id, updates)[j] == records[j]
    ensures FirstWithId(records, id).None? ==> UpdateFirst(records, id, updates) == records
    ensures FirstWithId(records, id).Some? ==>
      var i := FirstWithId(records, id).value;
      && UpdateFirst(records, id, updates)[i] == records[i] + updates
      && HasId(UpdateFirst(records, id, updates)[i], id) == (HasId(records[i], id) && ("id" !in updates || updates["id"] == Str(id)))
  {
  }

  class Store {
    /** The stored records, oldest first. */
    var records: seq<Fields>

    constructor(initial: seq<Fields>)
      ensures records == initial
    {
      records := initial;
    }

    /** append_video_record: one new record at the end; its id is returned. */
    method AppendVideoRecord(videoName: Value, personCount: int, status: Value, inputPath: Value, outputPath: Value,
                             details: Value, recordId: string, freshId: string, now: string) returns (id: string)
      requires freshId != []
      modifies this
      ensures id == ChooseRecordId(recordId, freshId)
      ensures records == old(records) + [NewRecord(id, videoName, personCount, status, now, inputPath, outputPath, details)]
    {
      id := if recordId != [] then recordId else freshId;
      records := records + [NewRecord(id, videoName, personCount, status, now, inputPath, outputPath, details)];
    }

    /**
     * update_video_record: merge the updates into the first record with the id and say
     * whether there was one.
     */
    method UpdateVideoRecord(recordId: string, updates: Fields) returns (updated: bool)
      modifies this
      ensures updated <==> exists j :: 0 <= j < |old(records)| && HasId(old(records)[j], recordId)
      ensures records == UpdateFirst(old(records), recordId, updates)
    {
      updated := false;
      var i := 0;
      while i < |records|
        invariant 0 <= i <= |records|
        invariant records == old(records)
        invariant forall j :: 0 <= j < i ==> !HasId(records[j], recordId)
      {
        if HasId(records[i], recordId) {
          FirstWithIdAt(records, recordId, i);
          records := records[i := records[i] + updates];
          updated := true;
          break;
        }
        i := i + 1;
      }
    }
  }
}
