/** remix/app/utils/aws.server.ts, job dispatch: the requests the web app
    sends to AWS Batch to start a download or compression run for a
    product and to list the runs started for it, and the mapping of the
    listed job summaries. Only the request contents and the mapping are
    modelled; sending them is not. */
module Jobs {
  import opened Strings
  import opened Acquisition

  /** The variables the requests read from the environment. */
  datatype JobEnv = JobEnv(region: Option<string>,
                           downloadDefinition: Option<string>,
                           compressionDefinition: Option<string>,
                           queue: Option<string>,
                           highQueue: Option<string>)

  /** `JSON.stringify` of a `submitjob` body; a field whose value is
      `undefined` is left out of the JSON, which `None` stands for. */
  datatype SubmitJob = SubmitJob(jobName: string,
                                 jobDefinition: Option<string>,
                                 jobQueue: Option<string>,
                                 attemptDurationSeconds: real,
                                 command: seq<string>)

  /** A `listjobs` body: one `JOB_NAME` filter, the queue and the page
      size. */
  datatype ListJobs = ListJobs(filterName: string, filterValues: seq<string>, jobQueue: string, maxResults: nat)

  datatype Request = Submit(url: string, submit: SubmitJob) | List(url: string, list: ListJobs)

  const DownloadPrefix: string := "power-plant-download-"
  const CompressionPrefix: string := "power-plant-compression-"

  /** `BATCH_ENDPOINT`, rendered from a template literal. */
  function BatchEndpoint(env: JobEnv): string {
    "https://batch." + Interpolated(env.region) + ".amazonaws.com"
  }

  /** `submitDownloadJob(id)`: run `/download.ts id` on `JOB_QUEUE` for at
      most `3600 * 0.45` seconds. */
  function SubmitDownloadJob(env: JobEnv, id: string): Request {
    Submit(BatchEndpoint(env) + "/v1/submitjob",
           SubmitJob(DownloadPrefix + id, env.downloadDefinition, env.queue, 3600.0 * 0.45,
                     ["ts-node", "/download.ts", id]))
  }

  /** `submitCompressionJob(id, url)`: run `/compression.ts id url` on
      `JOB_QUEUE_FOR_HIGH` for at most an hour. */
  function SubmitCompressionJob(env: JobEnv, id: string, url: string): Request {
    Submit(BatchEndpoint(env) + "/v1/submitjob",
           SubmitJob(CompressionPrefix + id, env.compressionDefinition, env.highQueue, 3600.0,
                     ["ts-node", "/compression.ts", id, url]))
  }

  /** The request `jobList(jobName, jobQueue, ...)` sends. */
  function ListRequest(env: JobEnv, jobName: string, jobQueue: string): Request {
    List(BatchEndpoint(env) + "/v1/listjobs", ListJobs("JOB_NAME", [jobName], jobQueue, 100))
  }

  /** `listDownloadJobs(id)`'s request; the queue falls back to "". */
  function ListDownloadJobs(env: JobEnv, id: string): Request {
    ListRequest(env, DownloadPrefix + id, OrEmpty(env.queue))
  }

  /** `listCompressionJobs(id)`'s request. */
  function ListCompressionJobs(env: JobEnv, id: string): Request {
    ListRequest(env, CompressionPrefix + id, OrEmpty(env.highQueue))
  }

  /** The seven states of a Batch job. */
  datatype JobStatus = SUBMITTED | PENDING | RUNNABLE | STARTING | RUNNING | SUCCEEDED | FAILED

  function StatusName(s: JobStatus): string {
    match s
    case SUBMITTED => "SUBMITTED"
    case PENDING => "PENDING"
    case RUNNABLE => "RUNNABLE"
    case STARTING => "STARTING"
    case RUNNING => "RUNNING"
    case SUCCEEDED => "SUCCEEDED"
    case FAILED => "FAILED"
  }

  /** The status named by a string, if any. */
  function ParseStatus(name: string): (r: Option<JobStatus>)
    ensures r.Some? ==> StatusName(r.value) == name
  {
    if name == "SUBMITTED" then Some(SUBMITTED)
    else if name == "PENDING" then Some(PENDING)
    else if name == "RUNNABLE" then Some(RUNNABLE)
    else if name == "STARTING" then Some(STARTING)
    else if name == "RUNNING" then Some(RUNNING)
    else if name == "SUCCEEDED" then Some(SUCCEEDED)
    else if name == "FAILED" then Some(FAILED)
    else None
  }

  /** `JobSummaryBase`; a timestamp that is `null` or absent is `None`. */
  datatype JobSummaryBase = JobSummaryBase(jobArn: string, jobId: string, jobName: string,
                                           createdAt: Option<int>, status: JobStatus,
                                           stoppedAt: Option<int>, jobDefinition: string)

  /** `JobSummary`: the base fields, the job type and the duration. */
  datatype JobSummary = JobSummary(base: JobSummaryBase, jobType: string, duration: Option<int>)

  /** A timestamp is truthy when present and not zero. */
  predicate Truthy(t: Option<int>) { t.Some? && t.value != 0 }

  /** `job.stoppedAt && job.createdAt ? job.stoppedAt - job.createdAt : null` */
  function Duration(job: JobSummaryBase): (d: Option<int>)
    ensures d.Some? <==> Truthy(job.stoppedAt) && Truthy(job.createdAt)
    ensures d.Some? ==> job.createdAt.value + d.value == job.stoppedAt.value
  {
    if Truthy(job.stoppedAt) && Truthy(job.createdAt) then Some(job.stoppedAt.value - job.createdAt.value) else None
  }

  /** The `map` at the end of `jobList`: each listed job, in order, with its
      type and duration. */
  function JobList(jobs: seq<JobSummaryBase>, jobType: string): (r: seq<JobSummary>)
    ensures |r| == |jobs|
    ensures forall i :: 0 <= i < |jobs| ==> r[i].base == jobs[i] && r[i].jobType == jobType
    ensures forall i :: 0 <= i < |jobs| ==> r[i].duration == Duration(jobs[i])
  {
    seq(|jobs|, i requires 0 <= i < |jobs| => JobSummary(jobs[i], jobType, Duration(jobs[i])))
  }

  // ---------------------------------------------------------------------------
  // Properties

  /** A download job is named after the product, and listing the download
      jobs filters by that very name, on the queue it was submitted to when
      `JOB_QUEUE` is set. It runs `/download.ts id` for 1620 seconds (27
      minutes, not the 45 the code's comment says). */
  lemma DownloadJobRoundTrip(env: JobEnv, id: string)
    ensures var s := SubmitDownloadJob(env, id).submit;
      var l := ListDownloadJobs(env, id).list;
      && s.jobName == DownloadPrefix + id
      && l.filterName == "JOB_NAME" && l.filterValues == [s.jobName]
      && (env.queue.Some? ==> s.jobQueue == Some(l.jobQueue))
      && (env.queue.None? ==> s.jobQueue.None? && l.jobQueue == "")
      && s.attemptDurationSeconds == 1620.0
      && s.command == ["ts-node", "/download.ts", id]
  {
  }

  /** A compression job is named after the product, submitted to and listed
      from `JOB_QUEUE_FOR_HIGH`, and runs `/compression.ts id url` for at
      most 3600 seconds. */
  lemma CompressionJobRoundTrip(env: JobEnv, id: string, url: string)
    ensures var s := SubmitCompressionJob(env, id, url).submit;
      var l := ListCompressionJobs(env, id).list;
      && s.jobName == CompressionPrefix + id
      && l.filterValues == [s.jobName]
      && (env.highQueue.Some? ==> s.jobQueue == Some(l.jobQueue))
      && s.attemptDurationSeconds == 3600.0
      && s.command == ["ts-node", "/compression.ts", id, url]
  {
  }

  /** The job names of different products differ, and a download job never
      shares its name with a compression job. */
  lemma JobNamesDistinct(env: JobEnv, id1: string, id2: string, url: string)
    ensures id1 != id2 ==> SubmitDownloadJob(env, id1).submit.jobName != SubmitDownloadJob(env, id2).submit.jobName
    ensures SubmitDownloadJob(env, id1).submit.jobName != SubmitCompressionJob(env, id2, url).submit.jobName
  {
    var d1 := DownloadPrefix + id1;
    if id1 != id2 {
      assert d1[|DownloadPrefix|..] == id1;
      assert (DownloadPrefix + id2)[|DownloadPrefix|..] == id2;
    }
    assert d1[12] == 'd';
    assert (CompressionPrefix + id2)[12] == 'c';
  }

  /** Each of the seven statuses has its own name, and reading the name
      back gives the status. */
  lemma StatusNamesRoundTrip(s: JobStatus, t: JobStatus)
    ensures ParseStatus(StatusName(s)) == Some(s)
    ensures s != t ==> StatusName(s) != StatusName(t)
  {
    assert ParseStatus(StatusName(t)) == Some(t);
  }

  /** Jobs that have not stopped, or whose creation time is zero or
      missing, have no duration; otherwise the duration is stopped minus
      created, and is negative only if the job stopped before it was
      created. */
  lemma JobListDurations(jobs: seq<JobSummaryBase>, jobType: string, i: nat)
    requires i < |jobs|
    ensures var d := JobList(jobs, jobType)[i].duration;
      && (jobs[i].stoppedAt.None? || jobs[i].createdAt.None? ==> d.None?)
      && (d.Some? ==> d.value == jobs[i].stoppedAt.value - jobs[i].createdAt.value)
      && (d.Some? && d.value < 0 ==> jobs[i].stoppedAt.value < jobs[i].createdAt.value)
  {
  }
}
