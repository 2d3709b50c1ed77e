/**
 * The list logic of two backend routes: delete_video, which removes a record and its
 * job, and the fallback of get_job_status, which answers for a job that is no longer in
 * the job table from the stored record. Removing the video files and the HTTP response
 * wrappers are left out.
 */
module Routes {
  import opened Wrappers
  import opened Values
  import opened JobStore
  import opened RecordStore
  import opened ProcessedVideo

  /** The list without its record at index i. */
  function RemoveAt(records: seq<Fields>, i: nat): (rest: seq<Fields>)
    requires i < |records|
    ensures |rest| == |records| - 1
    ensures forall j :: 0 <= j < i ==> rest[j] == records[j]
    ensures forall j :: i < j < |records| ==> rest[j - 1] == records[j]
  {
    records[..i] + records[i + 1..]
  }

  /** Removing the first record with an id keeps every other record with that id. */
  lemma RemoveFirstKeepsLaterDuplicates(records: seq<Fields>, id: string)
    requires FirstWithId(records, id).Some?
    ensures var rest := RemoveAt(records, FirstWithId(records, id).value);
      forall j :: 0 <= j < |rest| && HasId(rest[j], id) ==> j >= FirstWithId(records, id).value
    ensures var i := FirstWithId(records, id).value;
      multiset(RemoveAt(records, i)) + multiset{records[i]} == multiset(records)
  {
    RemoveAtMultiset(records, FirstWithId(records, id).value);
  }

  /** Removing one position takes exactly that record out of the multiset. */
  lemma RemoveAtMultiset(records: seq<Fields>, i: nat)
    requires i < |records|
    ensures multiset(RemoveAt(records, i)) + multiset{records[i]} == multiset(records)
  {
    assert records == records[..i] + [records[i]] + records[i + 1..];
  }

  /**
   * delete_video: 404 when no record has the id; otherwise the first such record is
   * removed, the others keep their order, and the job with that id is dropped.
   */
  method DeleteVideo(store: Store, table: JobTable, videoId: string) returns (result: Result<()>)
    requires table.Valid()
    modifies store, table
    ensures table.Valid()
    ensures FirstWithId(old(store.records), videoId).None? ==>
      && result == Err(NotFound("Video record not found."))
      && store.records == old(store.records)
      && table.jobs == old(table.jobs)
    ensures FirstWithId(old(store.records), videoId).Some? ==>
      && result == Ok(())
      && store.records == RemoveAt(old(store.records), FirstWithId(old(store.records), videoId).value)
      && table.jobs == old(table.jobs) - {videoId}
  {
    var recordIndex := FirstWithId(store.records, videoId);
    if recordIndex.None? {
      return Err(NotFound("Video record not found."));
    }
    store.records := RemoveAt(store.records, recordIndex.value);
    table.PopJobState(videoId);
    result := Ok(());
  }

  /** The error field of the fallback: record.get("details", {}).get("error"). */
  function DetailsError(record: Fields): (error: Option<Value>)
    ensures "details" !in record ==> error == Some(Null)
    ensures error.None? <==> "details" in record && !record["details"].Dict?
    ensures "details" in record && record["details"].Dict? ==> error == Some(Get(record["details"].fields, "error", Null))
  {
    var details := Get(record, "details", Dict(map[]));
    if details.Dict? then Some(Get(details.fields, "error", Null)) else None
  }

  /** The job state get_job_status builds from a stored record. */
  function FallbackJobState(record: Fields, jobId: string, personCount: int, error: Value,
                            processedVideo: string, now: string): (state: Fields)
    ensures state.Keys == {"job_id", "record_id", "video_name", "status", "progress", "total_person_count",
                           "processed_video", "error", "updated_at"}
    ensures state["job_id"] == state["record_id"] == Str(jobId)
    ensures state["progress"] == Int(if "status" in record && record["status"] == Str("completed") then 100 else 0)
    ensures state["status"] == if "status" in record then record["status"] else Str("failed")
    ensures state["video_name"] == if "video_name" in record then record["video_name"] else Str("unknown")
    ensures state["total_person_count"] == Int(personCount) && state["error"] == error
    ensures state["processed_video"] == Str(processedVideo) && state["updated_at"] == Str(now)
  {
    map["job_id" := Str(jobId), "record_id" := Str(jobId),
        "video_name" := Get(record, "video_name", Str("unknown")),
        "status" := Get(record, "status", Str("failed")),
        "progress" := Int(if Get(record, "status", Null) == Str("completed") then 100 else 0),
        "total_person_count" := Int(personCount),
        "processed_video" := Str(processedVideo),
        "error" := error,
        "updated_at" := Str(now)]
  }

  /**
   * get_job_status: the job's state when the table has it; otherwise a state built from
   * the first record with the job's id, or a 404 when there is none. Building that state
   * raises (a 500) when int() rejects the count, resolve_processed_video_path raises or
   * the details are not a dict.
   */
  function GetJobStatus(job: Option<Fields>, records: seq<Fields>, jobId: string,
                        fs: FileSystem, now: string): (status: Result<Fields>)
    ensures job.Some? && job.value != map[] ==> status == Ok(job.value)
    ensures (job.None? || job.value == map[]) && FirstWithId(records, jobId).None? ==>
      status == Err(NotFound("Job not found."))
    ensures status.Err? && status.error.NotFound? ==> FirstWithId(records, jobId).None?
    ensures (job.None? || job.value == map[]) && FirstWithId(records, jobId).Some? ==>
      var r := records[FirstWithId(records, jobId).value];
      var personCount := IntOf(Get(r, "person_count", Int(0)));
      var processed := ResolveProcessedVideoPath(r, fs);
      && (status.Ok? <==> personCount.Some? && processed.Some? && DetailsError(r).Some?)
      && (status.Ok? ==>
            status.value == FallbackJobState(r, jobId, personCount.value, DetailsError(r).value, processed.value, now))
      && (status.Err? ==> status.error == ServerError)
  {
    if job.Some? && job.value != map[] then Ok(job.value)
    else
      match FirstWithId(records, jobId)
      case None => Err(NotFound("Job not found."))
      case Some(i) =>
        var record := records[i];
        var personCount := IntOf(Get(record, "person_count", Int(0)));
        var processed := ResolveProcessedVideoPath(record, fs);
        var error := DetailsError(record);
        if personCount.None? || processed.None? || error.None? then Err(ServerError)
        else Ok(FallbackJobState(record, jobId, personCount.value, error.value, processed.value, now))
  }

  /**
   * A job missing from the table is answered from its record: progress is 100 exactly
   * when the record's status is "completed", and 0 otherwise.
   */
  lemma FallbackProgress(records: seq<Fields>, jobId: string, fs: FileSystem, now: string)
    requires FirstWithId(records, jobId).Some?
    ensures var status := GetJobStatus(None, records, jobId, fs, now);
      var record := records[FirstWithId(records, jobId).value];
      status.Ok? ==>
        && status.value["progress"] == Int(if "status" in record && record["status"] == Str("completed") then 100 else 0)
        && status.value["job_id"] == Str(jobId)
        && status.value["status"] == Get(record, "status", Str("failed"))
  {
  }

  /**
   * The fallback fails only on a stored count int() cannot read, on a path
   * resolve_processed_video_path cannot resolve or on details that are not a dict. A record
   * written by append_video_record with a text name, a text output path (or none) and dict
   * details (or none) has none of these, wherever it stands in the list, as long as no
   * earlier record has its id and the lookup of its processed file does not raise.
   */
  lemma FallbackForAppendedRecord(records: seq<Fields>, jobId: string, videoName: Value, personCount: int,
                                  createdAt: string, status: Value, inputPath: Value, outputPath: Value,
                                  details: Value, fs: FileSystem, now: string)
    requires FirstWithId(records, jobId).Some?
    requires records[FirstWithId(records, jobId).value]
      == NewRecord(jobId, videoName, personCount, status, createdAt, inputPath, outputPath, details)
    requires details.Dict? || !Truthy(details)
    requires videoName.Str? && (outputPath.Str? || !Truthy(outputPath))
    requires !LookupRaises(videoName.s, fs)
    ensures GetJobStatus(None, records, jobId, fs, now).Ok?
    ensures var state := GetJobStatus(None, records, jobId, fs, now).value;
      && state["total_person_count"] == Int(personCount)
      && state["video_name"] == videoName && state["status"] == status
  {
    var record := records[FirstWithId(records, jobId).value];
    assert Get(record, "person_count", Int(0)) == Int(personCount);
    assert Get(record, "video_name", Str("")) == videoName;
    assert Get(record, "output_path", Str("")) == outputPath;
    assert DetailsOrEmpty(details).Dict?;
  }
}
