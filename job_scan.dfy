/**
 * The scan in `_last_error_free_job` (geonorgeharvester.py:205-212). The
 * database query before it yields the source's finished jobs, newest first;
 * the scan returns the first of them none of whose objects failed.
 */
module JobScan {
  import opened JsonValues

  /**
   * A harvest object as the scan sees it: `current` is a nullable boolean
   * column and `report_status` a nullable string column.
   */
  datatype HarvestObj = HarvestObj(current: Option<bool>, reportStatus: Option<string>)

  /** A finished harvest job and its objects. */
  datatype Job = Job(id: nat, objects: seq<HarvestObj>)

  /**
   * `obj.current is False and obj.report_status != 'not modified'`: the
   * object was not made current, and not because it was left unchanged.
   */
  predicate Unsuccessful(obj: HarvestObj)
  {
    obj.current == Some(false) && obj.reportStatus != Some("not modified")
  }

  predicate ErrorFree(job: Job)
  {
    forall k | 0 <= k < |job.objects| :: !Unsuccessful(job.objects[k])
  }

  /**
   * Lines 205-212: for each job, look for an unsuccessful object; `break`
   * moves to the next job, and the loop's `else` returns the job when none
   * was found. Falling off the end returns None.
   */
  method LastErrorFreeJob(jobs: seq<Job>) returns (r: Option<Job>)
    ensures r.Some? <==> exists i | 0 <= i < |jobs| :: ErrorFree(jobs[i])
    ensures r.Some? ==> exists i | 0 <= i < |jobs| ::
              && r.value == jobs[i]
              && ErrorFree(jobs[i])
              && forall j | 0 <= j < i :: !ErrorFree(jobs[j])
    ensures (exists i | 0 <= i < |jobs| :: jobs[i].objects == []) ==> r.Some?
  {
    for i := 0 to |jobs|
      invariant forall j | 0 <= j < i :: !ErrorFree(jobs[j])
    {
      var job := jobs[i];
      var failed := false;
      for k := 0 to |job.objects|
        invariant !failed <==> forall m | 0 <= m < k :: !Unsuccessful(job.objects[m])
      {
        var obj := job.objects[k];
        if obj.current == Some(false) && obj.reportStatus != Some("not modified") {
          failed := true;
          break;
        }
      }
      if !failed {
        return Some(job);
      }
    }
    return None;
  }
}
