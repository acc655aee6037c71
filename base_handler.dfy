/** The event protocol every agent handler follows (`BaseHandler`): a job-level Started
    event, then for each traced step a Started event and one Completed or Failed event
    that share a fresh step id, then one terminal job event. The handler classes of the
    other modules each own a `BaseHandler`, call `JobBegin` and `JobEnd` around their
    internal execution, and call `StepBegin` / `StepEnd` around every traced step. */
module Base {
  import opened Common

  /** `JobStatusChangedEventArgs`. Its creation time is not modelled, and its error list
      is never set by the core. Job-level events carry step id `Guid.Empty`. */
  datatype JobEvent = JobEvent(jobId: Guid, status: Status, message: string, stepId: Guid)

  /** One traced step as its events record it: the method name the trace uses, the
      step's id, and whether the action's second invocation succeeded. */
  datatype Step = Step(name: string, stepId: Guid, ok: bool)

  /** How `Execute` ends: with an ErrorOr value, or with an exception that escapes it. */
  datatype Run = Returned(result: Result<Unit>) | Escaped(reason: string)

  /** The message of every protocol event: "{name} - {status}". */
  function Message(name: string, s: Status): string {
    name + " - " + StatusName(s)
  }

  function Terminal(ok: bool): (s: Status)
    ensures s == Completed || s == Failed
  {
    if ok then Completed else Failed
  }

  function JobStarted(job: Guid, typeName: string): JobEvent {
    JobEvent(job, Started, Message(typeName, Started), EmptyGuid)
  }

  function JobFinished(job: Guid, typeName: string, ok: bool): JobEvent {
    JobEvent(job, Terminal(ok), Message(typeName, Terminal(ok)), EmptyGuid)
  }

  function StepStarted(job: Guid, name: string, sid: Guid): JobEvent {
    JobEvent(job, Started, Message(name, Started), sid)
  }

  function StepFinished(job: Guid, st: Step): JobEvent {
    JobEvent(job, Terminal(st.ok), Message(st.name, Terminal(st.ok)), st.stepId)
  }

  /** The events of a run of traced steps, two per step. */
  function TraceEvents(job: Guid, steps: seq<Step>): seq<JobEvent> {
    if steps == [] then []
    else
      var last := steps[|steps| - 1];
      TraceEvents(job, steps[..|steps| - 1]) + [StepStarted(job, last.name, last.stepId), StepFinished(job, last)]
  }

  /** The events of a whole job whose steps raised no events of their own. */
  function JobEvents(job: Guid, typeName: string, steps: seq<Step>, ok: bool): seq<JobEvent> {
    [JobStarted(job, typeName)] + TraceEvents(job, steps) + [JobFinished(job, typeName, ok)]
  }

  lemma {:induction false} TraceEventsShape(job: Guid, steps: seq<Step>)
    ensures |TraceEvents(job, steps)| == 2 * |steps|
    ensures forall i :: 0 <= i < |steps| ==>
      && TraceEvents(job, steps)[2 * i] == StepStarted(job, steps[i].name, steps[i].stepId)
      && TraceEvents(job, steps)[2 * i + 1] == StepFinished(job, steps[i])
    decreases |steps|
  {
    if steps != [] {
      var init := steps[..|steps| - 1];
      TraceEventsShape(job, init);
      forall i | 0 <= i < |steps| - 1 ensures steps[i] == init[i] {
      }
    }
  }

  lemma {:induction false} TraceEventsOfJob(job: Guid, steps: seq<Step>)
    ensures forall e :: e in TraceEvents(job, steps) ==> e.jobId == job
    decreases |steps|
  {
    if steps != [] {
      TraceEventsOfJob(job, steps[..|steps| - 1]);
    }
  }

  /** A job of k traced steps raises exactly 2k + 2 events, all carrying the job id: the
      job's Started event, a Started and a terminal event per step in order, sharing the
      step's id, and the job's terminal event last. */
  lemma JobEventsShape(job: Guid, typeName: string, steps: seq<Step>, ok: bool)
    ensures var evs := JobEvents(job, typeName, steps, ok);
      && |evs| == 2 * |steps| + 2
      && evs[0] == JobStarted(job, typeName)
      && evs[|evs| - 1] == JobFinished(job, typeName, ok)
      && (forall i :: 0 <= i < |steps| ==>
            evs[2 * i + 1] == StepStarted(job, steps[i].name, steps[i].stepId)
            && evs[2 * i + 2] == StepFinished(job, steps[i]))
      && (forall e :: e in evs ==> e.jobId == job)
  {
    TraceEventsShape(job, steps);
    TraceEventsOfJob(job, steps);
    var t := TraceEvents(job, steps);
    var evs := JobEvents(job, typeName, steps, ok);
    assert evs == [JobStarted(job, typeName)] + t + [JobFinished(job, typeName, ok)];
    forall i | 0 <= i < |steps|
      ensures evs[2 * i + 1] == t[2 * i] && evs[2 * i + 2] == t[2 * i + 1]
    {
    }
  }

  /** A job that runs no traced step raises its Started and terminal events only. */
  lemma JobWithoutSteps(log: seq<JobEvent>, job: Guid, typeName: string, ok: bool)
    ensures log + [JobStarted(job, typeName)] + [JobFinished(job, typeName, ok)] == log + JobEvents(job, typeName, [], ok)
  {
    assert TraceEvents(job, []) == [];
  }

  /** The status of an event can be read back from its message. */
  lemma MessageDeterminesStatus(name: string, s: Status, t: Status)
    requires Message(name, s) == Message(name, t)
    ensures s == t
  {
    assert StatusName(s) == Message(name, s)[|name| + 3..];
    assert StatusName(t) == Message(name, t)[|name| + 3..];
    StatusNameInjective(s, t);
  }

  class BaseHandler {
    /** `GetType().Name` of the concrete handler. */
    const typeName: string
    /** The job id, `Id`. */
    var id: Guid
    /** Every event raised to `JobStatusChanged` subscribers, in order. */
    var events: seq<JobEvent>
    /** The traced steps that have finished, in order. */
    ghost var steps: seq<Step>
    /** Where `Guid.NewGuid()` draws step ids from. */
    const guids: GuidSource

    /** Step ids are drawn from `guids`, and no two steps share one. */
    ghost predicate Valid()
      reads this`steps, guids
    {
      && guids.Valid()
      && (forall i :: 0 <= i < |steps| ==> steps[i].stepId in guids.issued)
      && (forall i, j :: 0 <= i < j < |steps| ==> steps[i].stepId != steps[j].stepId)
    }

    constructor (typeName: string, id: Guid, guids: GuidSource)
      requires guids.Valid()
      ensures Valid()
      ensures this.typeName == typeName && this.id == id && this.guids == guids
      ensures events == [] && steps == []
    {
      this.typeName := typeName;
      this.id := id;
      this.guids := guids;
      events := [];
      steps := [];
    }

    /** `OnJobStatusChanged(e)`. */
    method Raise(e: JobEvent)
      modifies this`events
      ensures events == old(events) + [e]
      ensures steps == old(steps) && id == old(id)
    {
      events := events + [e];
    }

    /** The Started event `Execute` raises before `InternalExecute` runs. */
    method JobBegin()
      modifies this`events
      ensures events == old(events) + [JobStarted(id, typeName)]
      ensures steps == old(steps) && id == old(id)
    {
      events := events + [JobStarted(id, typeName)];
    }

    /** The terminal event `Execute` raises for the result of `InternalExecute`, which it
        returns unchanged. */
    method JobEnd(result: Result<Unit>) returns (r: Result<Unit>)
      modifies this`events
      ensures r == result
      ensures events == old(events) + [JobFinished(id, typeName, result.Ok?)]
      ensures steps == old(steps) && id == old(id)
    {
      events := events + [JobFinished(id, typeName, result.Ok?)];
      r := result;
    }

    /** The start of `ExecuteWithTrace`: a fresh step id and the step's Started event. */
    method StepBegin(name: string) returns (sid: Guid)
      requires Valid()
      modifies this`events, guids
      ensures Valid()
      ensures sid != EmptyGuid && sid !in old(guids.issued) && guids.issued == old(guids.issued) + {sid}
      ensures events == old(events) + [StepStarted(id, name, sid)]
      ensures steps == old(steps) && id == old(id)
    {
      sid := guids.NewGuid();
      events := events + [StepStarted(id, name, sid)];
    }

    /** The end of `ExecuteWithTrace`: the terminal event chosen by the second invocation
        of the action, with the step's id. */
    method StepEnd(name: string, sid: Guid, ok: bool)
      requires Valid()
      requires sid in guids.issued && forall i :: 0 <= i < |steps| ==> steps[i].stepId != sid
      modifies this`events, this`steps
      ensures Valid()
      ensures events == old(events) + [StepFinished(id, Step(name, sid, ok))]
      ensures steps == old(steps) + [Step(name, sid, ok)] && id == old(id)
    {
      events := events + [StepFinished(id, Step(name, sid, ok))];
      steps := steps + [Step(name, sid, ok)];
    }
  }
}
