/** ProcessingJob and its repository. A job's id and directory path are fixed
    at construction (getters only); status and error message have setters
    that change nothing else and check nothing. */
module Jobs {
  import opened JavaText
  import opened Uuids

  datatype ProcessingStatus = QUEUED | PROCESSING | COMPLETED | FAILED

  /** The persisted columns of a job (the timestamps are not modelled). */
  datatype JobRecord = JobRecord(id: Uuid, directoryPath: string, status: ProcessingStatus, errorMessage: Option<string>)

  class ProcessingJob {
    const id: Uuid
    const directoryPath: string
    var status: ProcessingStatus
    var errorMessage: Option<string>

    /** new ProcessingJob(id, directoryPath, status): errorMessage starts null. */
    constructor (id: Uuid, directoryPath: string, status: ProcessingStatus)
      ensures this.id == id && this.directoryPath == directoryPath && this.status == status
      ensures errorMessage == None
    {
      this.id := id;
      this.directoryPath := directoryPath;
      this.status := status;
      errorMessage := None;
    }

    /** The row a save writes. */
    function Record(): JobRecord
      reads this
    {
      JobRecord(id, directoryPath, status, errorMessage)
    }

    /** setStatus: any status may follow any other. */
    method SetStatus(s: ProcessingStatus)
      modifies this`status
      ensures status == s
      ensures errorMessage == old(errorMessage)
    {
      status := s;
    }

    /** setErrorMessage */
    method SetErrorMessage(m: Option<string>)
      modifies this`errorMessage
      ensures errorMessage == m
      ensures status == old(status)
    {
      errorMessage := m;
    }
  }

  /** ProcessingJobRepository: the stored rows by id, and every save in order. */
  class JobRepository {
    var jobs: map<Uuid, JobRecord>
    var saved: seq<JobRecord>

    ghost predicate Valid()
      reads this
    {
      forall id :: id in jobs ==> jobs[id].id == id
    }

    constructor ()
      ensures Valid() && jobs == map[] && saved == []
    {
      jobs := map[];
      saved := [];
    }

    /** save(job): inserts or overwrites the row with the job's id. */
    method Save(job: ProcessingJob)
      requires Valid()
      modifies this
      ensures Valid()
      ensures jobs == old(jobs)[job.id := job.Record()]
      ensures saved == old(saved) + [job.Record()]
    {
      jobs := jobs[job.id := job.Record()];
      saved := saved + [job.Record()];
    }

    /** findById(id): an entity loaded from the stored row, or null. */
    method FindById(id: Uuid) returns (job: ProcessingJob?)
      requires Valid()
      ensures job == null <==> id !in jobs
      ensures job != null ==> fresh(job) && job.Record() == jobs[id]
    {
      if id !in jobs {
        return null;
      }
      var row := jobs[id];
      job := new ProcessingJob(id, row.directoryPath, row.status);
      job.SetErrorMessage(row.errorMessage);
    }
  }

  /** The setters guard nothing: a COMPLETED job can be set back to QUEUED,
      and its id and path stay as constructed. */
  method NoTransitionGuard(id: Uuid, path: string) returns (job: ProcessingJob)
    ensures job.status == QUEUED && job.id == id && job.directoryPath == path
  {
    job := new ProcessingJob(id, path, COMPLETED);
    job.SetErrorMessage(Some("stale"));
    job.SetStatus(QUEUED);
  }
}
