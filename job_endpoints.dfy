/** The read side of the job API (`JobEndpointDefinition`): the job count, the latest
    status of every job, the step records of one job and the status line of one job.
    Every query answers 200 OK, so the model returns the response body. The concurrent
    collections are read as snapshots: the queue and the bag as sequences in the order
    their enumeration yields, the dictionary as a map. */
module JobEndpoints {
  import opened Common

  /** A queued job (`BaseJob<IHandler>`); its creation date is a tick count. */
  datatype QueuedJob = QueuedJob(id: Guid, date: int, currentState: string, handlerName: string, commandObj: CommandObj)

  /** A status record of the store (`JobStatus`): which job and step it belongs to, its
      status and message, and when it was recorded. */
  datatype JobStatus = JobStatus(jobId: Guid, message: string, date: int, currentStatus: Status, stepId: Guid)

  /** `StepStatus`: a step record as the steps query returns it, status by name. */
  datatype StepStatus = StepStatus(jobId: Guid, message: string, date: int, status: string, stepId: Guid)

  const NotFoundPrefix := "Job not found by id "

  /** `JobsCount`: the number of jobs waiting in the queue. */
  function JobsCount(queue: seq<QueuedJob>): (n: nat)
    ensures n == |queue|
  {
    |queue|
  }

  /** `JobStatusAll`: the whole status dictionary, unchanged. */
  function JobStatusAll(jobs: map<Guid, JobStatus>): (r: map<Guid, JobStatus>)
    ensures r.Keys == jobs.Keys && forall id :: id in r ==> r[id] == jobs[id]
  {
    jobs
  }

  /** The projection `new StepStatus(x.JobId, x.Message, x.Date, x.CurrentStatus.ToString(), x.StepId)`. */
  function ToStep(x: JobStatus): StepStatus {
    StepStatus(x.jobId, x.message, x.date, StatusName(x.currentStatus), x.stepId)
  }

  /** The projection loses nothing: the status name determines the status. */
  lemma ToStepInjective(x: JobStatus, y: JobStatus)
    requires ToStep(x) == ToStep(y)
    ensures x == y
  {
    StatusNameInjective(x.currentStatus, y.currentStatus);
  }

  /** `StatusStepById`: `steps.Where(x => x.JobId == id).Select(ToStep)`. */
  function StatusStepById(id: Guid, steps: seq<JobStatus>): seq<StepStatus> {
    if steps == [] then []
    else (if steps[0].jobId == id then [ToStep(steps[0])] else []) + StatusStepById(id, steps[1..])
  }

  /** Every returned step belongs to the job and is the projection of one of its stored
      records. */
  lemma {:induction false} StepFromStore(id: Guid, steps: seq<JobStatus>, y: StepStatus)
    requires y in StatusStepById(id, steps)
    ensures y.jobId == id && exists x :: x in steps && x.jobId == id && ToStep(x) == y
    decreases |steps|
  {
    assert steps == [steps[0]] + steps[1..];
    if !(steps[0].jobId == id && ToStep(steps[0]) == y) {
      StepFromStore(id, steps[1..], y);
      var x :| x in steps[1..] && x.jobId == id && ToStep(x) == y;
      assert x in steps;
    }
  }

  /** Every stored record of the job is returned exactly as often as it is stored. */
  lemma {:induction false} StepCount(id: Guid, steps: seq<JobStatus>, x: JobStatus)
    requires x.jobId == id
    ensures multiset(StatusStepById(id, steps))[ToStep(x)] == multiset(steps)[x]
    decreases |steps|
  {
    if steps != [] {
      var head: seq<StepStatus> := if steps[0].jobId == id then [ToStep(steps[0])] else [];
      var rest := StatusStepById(id, steps[1..]);
      StepCount(id, steps[1..], x);
      assert StatusStepById(id, steps) == head + rest;
      assert steps == [steps[0]] + steps[1..];
      assert multiset(steps) == multiset([steps[0]]) + multiset(steps[1..]);
      if head != [] && ToStep(steps[0]) == ToStep(x) {
        ToStepInjective(steps[0], x);
      }
    }
  }

  /** The bag has no order: two enumerations of the same records return the same steps,
      up to order. */
  lemma StepsByIdIgnoresOrder(id: Guid, a: seq<JobStatus>, b: seq<JobStatus>)
    requires multiset(a) == multiset(b)
    ensures multiset(StatusStepById(id, a)) == multiset(StatusStepById(id, b))
  {
    var ra, rb := StatusStepById(id, a), StatusStepById(id, b);
    forall y: StepStatus
      ensures multiset(ra)[y] == multiset(rb)[y]
    {
      if y in ra {
        StepFromStore(id, a, y);
        var x :| x in a && x.jobId == id && ToStep(x) == y;
        StepCount(id, a, x);
        StepCount(id, b, x);
      } else if y in rb {
        StepFromStore(id, b, y);
        var x :| x in b && x.jobId == id && ToStep(x) == y;
        StepCount(id, a, x);
        StepCount(id, b, x);
      }
    }
    assert multiset(ra) == multiset(rb);
  }

  /** `JobStatusById`: "{status} {message}" for a known job, joined by a single space, and
      "Job not found by id {id}" otherwise, both as an OK body. */
  function JobStatusById(id: Guid, jobs: map<Guid, JobStatus>): string {
    if id in jobs then StatusName(jobs[id].currentStatus) + " " + jobs[id].message
    else NotFoundPrefix + GuidText(id)
  }

  /** For a known job the status and the message can be read back from the body, which
      never looks like the not-found text; an unknown job gets the not-found text with
      the id in its 36-character form. */
  lemma JobStatusByIdReply(id: Guid, jobs: map<Guid, JobStatus>)
    ensures var r := JobStatusById(id, jobs);
      && (id in jobs ==>
            var k := |StatusName(jobs[id].currentStatus)|;
            && k < |r| && r[..k] == StatusName(jobs[id].currentStatus) && r[k] == ' ' && r[k + 1..] == jobs[id].message)
      && (id !in jobs ==> |r| == |NotFoundPrefix| + 36 && r[|NotFoundPrefix|..] == GuidText(id))
      && (|NotFoundPrefix| <= |r| && r[..|NotFoundPrefix|] == NotFoundPrefix <==> id !in jobs)
  {
    var r := JobStatusById(id, jobs);
    if id in jobs {
      var name := StatusName(jobs[id].currentStatus);
      assert r == name + " " + jobs[id].message;
      assert r[..|name|] == name;
      assert r[|name| + 1..] == jobs[id].message;
      assert r[0] == name[0] != 'J' == NotFoundPrefix[0];
    } else {
      assert r[..|NotFoundPrefix|] == NotFoundPrefix;
    }
  }
}
