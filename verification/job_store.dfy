/**
 * The in-memory table of processing jobs (JOBS with set_job_state, get_job_state and
 * pop_job_state): a dict from job id to the job's state, itself a dict of fields. The
 * lock around it and the clock are left out; the time stamp is passed in.
 */
module JobStore {
  import opened Wrappers
  import opened Values

  /**
   * The state set_job_state stores: the job's current state, or {"job_id": id} for a
   * new job, overwritten field by field with the updates, then stamped with updated_at.
   */
  function MergeJobState(existing: Option<Fields>, jobId: string, updates: Fields, now: string): (state: Fields)
    ensures "updated_at" in state && state["updated_at"] == Str(now)
    ensures forall k :: k in updates && k != "updated_at" ==> k in state && state[k] == updates[k]
    ensures existing.Some? ==> forall k :: k in existing.value && k !in updates && k != "updated_at" ==>
      k in state && state[k] == existing.value[k]
    ensures existing.None? ==> "job_id" in state
    ensures existing.None? && "job_id" !in updates ==> state["job_id"] == Str(jobId)
    ensures forall k :: k in state ==> k == "updated_at" || k in updates || (existing.Some? && k in existing.value) || (existing.None? && k == "job_id")
  {
    var current := if existing.Some? then existing.value else map["job_id" := Str(jobId)];
    (current + updates)["updated_at" := Str(now)]
  }

  /** A state set_job_state wrote: it has a job id and a time stamp. */
  ghost predicate Stamped(state: Fields)
  {
    "job_id" in state && "updated_at" in state
  }

  /** Merging into a stamped state, or into a new one, gives a stamped state. */
  lemma MergeJobStateStamped(existing: Option<Fields>, jobId: string, updates: Fields, now: string)
    requires existing.Some? ==> Stamped(existing.value)
    ensures Stamped(MergeJobState(existing, jobId, updates, now))
  {
  }

  /** Merging the same updates twice, with the same stamp, is merging them once. */
  lemma MergeJobStateIdempotent(existing: Option<Fields>, jobId: string, updates: Fields, now: string)
    ensures var once := MergeJobState(existing, jobId, updates, now);
      MergeJobState(Some(once), jobId, updates, now) == once
  {
    var once := MergeJobState(existing, jobId, updates, now);
    var twice := MergeJobState(Some(once), jobId, updates, now);
    assert forall k :: k in twice <==> k in once;
    assert forall k :: k in twice ==> twice[k] == once[k];
  }

  class JobTable {
    /** JOBS: job id to job state. */
    var jobs: map<string, Fields>

    /** Every stored state was written by set_job_state. */
    ghost predicate Valid()
      reads this
    {
      forall id :: id in jobs ==> Stamped(jobs[id])
    }

    constructor()
      ensures jobs == map[] && Valid()
    {
      jobs := map[];
    }

    /** set_job_state: merge the updates into the job's state; no other job changes. */
    method SetJobState(jobId: string, updates: Fields, now: string)
      requires Valid()
      modifies this
      ensures Valid()
      ensures jobs == old(jobs)[jobId := MergeJobState(if jobId in old(jobs) then Some(old(jobs)[jobId]) else None, jobId, updates, now)]
    {
      var existing := if jobId in jobs then Some(jobs[jobId]) else None;
      MergeJobStateStamped(existing, jobId, updates, now);
      var current := if existing.Some? then existing.value else map["job_id" := Str(jobId)];
      current := current + updates;
      current := current["updated_at" := Str(now)];
      jobs := jobs[jobId := current];
    }

    /** get_job_state: a copy of the job's state, or None for an unknown job or an empty state. */
    function GetJobState(jobId: string): (state: Option<Fields>)
      reads this
      ensures state.Some? <==> jobId in jobs && jobs[jobId] != map[]
      ensures state.Some? ==> state.value == jobs[jobId]
    {
      if jobId in jobs && jobs[jobId] != map[] then Some(jobs[jobId]) else None
    }

    /** In a valid table, a job is found exactly when it is stored. */
    lemma GetJobStateFindsStored(jobId: string)
      requires Valid()
      ensures GetJobState(jobId).Some? <==> jobId in jobs
    {
      if jobId in jobs {
        assert "job_id" in jobs[jobId];
      }
    }

    /** pop_job_state: forget the job, if it is there. */
    method PopJobState(jobId: string)
      requires Valid()
      modifies this
      ensures Valid()
      ensures jobs == old(jobs) - {jobId}
    {
      jobs := jobs - {jobId};
    }
  }
}
