/** The rows of the `jobs` table, with the columns the scheduling logic reads. */
module Entity {
  const QUEUED := 1
  const RUNNING := 2
  const COMPLETED := 3
  const FAILED := 4
  const CANCELLED := 5
  const WAITING_GPU := 6

  datatype Job = Job(user: int, path: string, gpuIds: string, status: int, sug: int)

  /** A job that may still be started or cancelled. */
  predicate Pending(job: Job) {
    job.status == QUEUED || job.status == WAITING_GPU
  }

  /** UpdateStatus: an UPDATE by primary key, which a missing row turns into no change. */
  function SetStatus(jobs: map<int, Job>, id: int, status: int): map<int, Job> {
    if id in jobs then jobs[id := jobs[id].(status := status)] else jobs
  }

  /** UpdateSug: marks a job as moved by hand. */
  function SetSug(jobs: map<int, Job>, id: int): map<int, Job> {
    if id in jobs then jobs[id := jobs[id].(sug := 1)] else jobs
  }
}
