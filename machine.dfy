/**
 * The Contract Net machine: it answers calls for proposals with a bid or a
 * rejection, becomes busy when it is awarded a job, and becomes idle again
 * when the job's execution completes.
 *
 * The background execution thread becomes the list `running` of started
 * executions and an explicit `Complete` step for each.
 */
module MachineAgent {
  import opened Base
  import opened Messages

  const BusyReason := "Machine is busy"

  /** Execution time used for an awarded job type missing from the table. */
  const DefaultExecutionTime: real := 5.0

  /** The topic a machine replies on for a supervisor id read with `dict.get`. */
  function ReplyTopic(supervisorId: Option<string>): string {
    "jobs/bid/" + Show(supervisorId)
  }

  /**
   * `_handle_cfp`: a busy machine rejects, an idle machine without the job
   * type in its table rejects, and an idle capable machine bids the table's
   * duration. The reply always goes to the calling supervisor's bid topic
   * and echoes the job id.
   */
  function CfpReply(machineId: string, capabilities: map<string, real>, busy: bool,
                    cfp: Fields, now: real): (p: Publication)
    ensures p.topic == ReplyTopic(cfp.supervisorId)
    ensures p.payload.BidMsg? || p.payload.RejectionMsg?
    ensures p.payload.machineId == machineId && p.payload.job == cfp.jobId
    ensures p.payload.BidMsg? <==> !busy && cfp.jobType.Some? && cfp.jobType.value in capabilities
    ensures p.payload.BidMsg? ==> p.payload.proposedTime == capabilities[cfp.jobType.value]
    ensures busy ==> p.payload.reason == BusyReason
    ensures !busy && p.payload.RejectionMsg? ==> p.payload.reason == "Cannot perform " + Show(cfp.jobType)
    ensures p.payload.timestamp == now
  {
    if busy then
      Publish(ReplyTopic(cfp.supervisorId), RejectionMsg(machineId, cfp.jobId, BusyReason, now))
    else if cfp.jobType.None? || cfp.jobType.value !in capabilities then
      Publish(ReplyTopic(cfp.supervisorId),
              RejectionMsg(machineId, cfp.jobId, "Cannot perform " + Show(cfp.jobType), now))
    else
      Publish(ReplyTopic(cfp.supervisorId),
              BidMsg(machineId, cfp.jobId, capabilities[cfp.jobType.value], now))
  }

  /** `capabilities.get(job_type, 5.0)`. */
  function ExecutionTime(capabilities: map<string, real>, jobType: Option<string>): (t: real)
    ensures jobType.Some? && jobType.value in capabilities ==> t == capabilities[jobType.value]
    ensures jobType.None? || jobType.value !in capabilities ==> t == DefaultExecutionTime
  {
    if jobType.Some? && jobType.value in capabilities then capabilities[jobType.value]
    else DefaultExecutionTime
  }

  /** The arguments a background execution thread was started with. */
  datatype Execution = Execution(jobId: Option<string>, jobType: Option<string>,
                                 executionTime: real, supervisorId: Option<string>)

  /** The completion notice an execution publishes when it finishes. */
  function CompletionFor(machineId: string, e: Execution, now: real): (p: Publication)
    ensures p.topic == "jobs/complete/" + Show(e.supervisorId) && p.payload.CompletionMsg?
    ensures p.payload.machineId == machineId && p.payload.job == e.jobId
    ensures p.payload.kind == e.jobType && p.payload.executionTime == e.executionTime
    ensures p.payload.timestamp == now
  {
    Publish("jobs/complete/" + Show(e.supervisorId),
            CompletionMsg(machineId, e.jobId, e.jobType, e.executionTime, now))
  }

  class Machine {
    const machineId: string
    const capabilities: map<string, real>
    var busy: bool
    var currentJob: Option<string>
    var jobsBid: nat
    var jobsWon: nat
    var jobsCompleted: nat
    var jobsRejected: nat
    /** Executions started by an award and not yet completed, oldest first. */
    var running: seq<Execution>
    /** Everything published so far, oldest first. */
    var outbox: seq<Publication>

    /**
     * Every job won is completed or still running; an idle machine has no
     * current job; a busy one runs at least the job it records as current,
     * which is the one it was awarded last.
     */
    ghost predicate Valid()
      reads this
    {
      && jobsWon == jobsCompleted + |running|
      && (!busy ==> currentJob == None)
      && (busy ==> running != [] && currentJob == running[|running| - 1].jobId)
    }

    constructor(machineId: string, capabilities: map<string, real>)
      ensures Valid()
      ensures this.machineId == machineId && this.capabilities == capabilities
      ensures !busy && currentJob == None && running == [] && outbox == []
      ensures jobsBid == 0 && jobsWon == 0 && jobsCompleted == 0 && jobsRejected == 0
    {
      this.machineId := machineId;
      this.capabilities := capabilities;
      busy := false;
      currentJob := None;
      jobsBid, jobsWon, jobsCompleted, jobsRejected := 0, 0, 0, 0;
      running := [];
      outbox := [];
    }

    /** `_on_message`: dispatch on the "type" field; anything else is ignored. */
    method OnMessage(m: Inbound, now: real)
      requires Valid()
      modifies this
      ensures Valid()
      ensures m.Malformed? || m.fields.msgType !in {Some("cfp"), Some("award"), Some("reject")}
              ==> unchanged(this)
      ensures m.Decoded? && m.fields.msgType == Some("cfp") ==>
        && outbox == old(outbox) + [CfpReply(machineId, capabilities, old(busy), m.fields, now)]
        && jobsBid == old(jobsBid)
                      + (if CfpReply(machineId, capabilities, old(busy), m.fields, now).payload.BidMsg? then 1 else 0)
        && busy == old(busy) && currentJob == old(currentJob) && running == old(running)
        && jobsWon == old(jobsWon) && jobsCompleted == old(jobsCompleted)
        && jobsRejected == old(jobsRejected)
      ensures m.Decoded? && m.fields.msgType == Some("award") ==>
        && outbox == old(outbox) && jobsBid == old(jobsBid) && jobsRejected == old(jobsRejected)
        && jobsCompleted == old(jobsCompleted)
      ensures m.Decoded? && m.fields.msgType == Some("award") && m.fields.machineId != Some(machineId) ==>
        busy == old(busy) && currentJob == old(currentJob) && jobsWon == old(jobsWon)
        && running == old(running)
      ensures m.Decoded? && m.fields.msgType == Some("award") && m.fields.machineId == Some(machineId) ==>
        && busy && currentJob == m.fields.jobId && jobsWon == old(jobsWon) + 1
        && running == old(running) + [Execution(m.fields.jobId, m.fields.jobType,
                                                ExecutionTime(capabilities, m.fields.jobType),
                                                m.fields.supervisorId)]
      ensures m.Decoded? && m.fields.msgType == Some("reject") ==>
        && jobsRejected == old(jobsRejected) + 1
        && outbox == old(outbox) && busy == old(busy) && currentJob == old(currentJob)
        && running == old(running) && jobsBid == old(jobsBid) && jobsWon == old(jobsWon)
        && jobsCompleted == old(jobsCompleted)
    {
      match m
      case Malformed =>
      case Decoded(f) =>
        if f.msgType == Some("cfp") {
          HandleCfp(f, now);
        } else if f.msgType == Some("award") {
          HandleAward(f);
        } else if f.msgType == Some("reject") {
          HandleReject(f);
        }
    }

    /** `_handle_cfp`: reply to a call for proposals; only a bid is counted. */
    method HandleCfp(cfp: Fields, now: real)
      modifies this`outbox, this`jobsBid
      ensures outbox == old(outbox) + [CfpReply(machineId, capabilities, busy, cfp, now)]
      ensures jobsBid == old(jobsBid)
                         + if CfpReply(machineId, capabilities, busy, cfp, now).payload.BidMsg? then 1 else 0
    {
      if busy {
        SendRejection(cfp.supervisorId, cfp.jobId, BusyReason, now);
        return;
      }
      if cfp.jobType.None? || cfp.jobType.value !in capabilities {
        SendRejection(cfp.supervisorId, cfp.jobId, "Cannot perform " + Show(cfp.jobType), now);
        return;
      }
      var executionTime := capabilities[cfp.jobType.value];
      SendBid(cfp.supervisorId, cfp.jobId, executionTime, now);
    }

    /** `_send_bid`: publish a bid and count it. */
    method SendBid(supervisorId: Option<string>, jobId: Option<string>, executionTime: real, now: real)
      modifies this`outbox, this`jobsBid
      ensures outbox == old(outbox) + [Publish(ReplyTopic(supervisorId),
                                               BidMsg(machineId, jobId, executionTime, now))]
      ensures jobsBid == old(jobsBid) + 1
    {
      outbox := outbox + [Publish(ReplyTopic(supervisorId), BidMsg(machineId, jobId, executionTime, now))];
      jobsBid := jobsBid + 1;
    }

    /** `_send_rejection`: publish a rejection; no counter changes. */
    method SendRejection(supervisorId: Option<string>, jobId: Option<string>, reason: string, now: real)
      modifies this`outbox
      ensures outbox == old(outbox) + [Publish(ReplyTopic(supervisorId),
                                               RejectionMsg(machineId, jobId, reason, now))]
    {
      outbox := outbox + [Publish(ReplyTopic(supervisorId), RejectionMsg(machineId, jobId, reason, now))];
    }

    /**
     * `_handle_award`: an award for another machine changes nothing; an award
     * for this one makes it busy with the awarded job and starts its
     * execution, whether or not the machine was already busy.
     */
    method HandleAward(award: Fields)
      requires Valid()
      modifies this`busy, this`currentJob, this`jobsWon, this`running
      ensures Valid()
      ensures award.machineId != Some(machineId) ==>
        busy == old(busy) && currentJob == old(currentJob) && jobsWon == old(jobsWon)
        && running == old(running)
      ensures award.machineId == Some(machineId) ==>
        && busy && currentJob == award.jobId && jobsWon == old(jobsWon) + 1
        && running == old(running) + [Execution(award.jobId, award.jobType,
                                                ExecutionTime(capabilities, award.jobType),
                                                award.supervisorId)]
    {
      if award.machineId != Some(machineId) {
        return;
      }
      jobsWon := jobsWon + 1;
      busy := true;
      currentJob := award.jobId;
      var executionTime := ExecutionTime(capabilities, award.jobType);
      running := running + [Execution(award.jobId, award.jobType, executionTime, award.supervisorId)];
    }

    /**
     * The end of `_execute_job` for the running execution `k`: the machine is
     * idle again, counts the completion and notifies the supervisor.
     */
    method Complete(k: nat, now: real)
      requires Valid() && k < |running|
      modifies this`busy, this`currentJob, this`jobsCompleted, this`running, this`outbox
      ensures Valid()
      ensures !busy && currentJob == None
      ensures jobsCompleted == old(jobsCompleted) + 1
      ensures running == old(running[..k] + running[k + 1..])
      ensures outbox == old(outbox) + [CompletionFor(machineId, old(running[k]), now)]
    {
      var e := running[k];
      busy := false;
      currentJob := None;
      jobsCompleted := jobsCompleted + 1;
      running := running[..k] + running[k + 1..];
      outbox := outbox + [CompletionFor(machineId, e, now)];
    }

    /** `_handle_reject`: only counts the lost bid. */
    method HandleReject(reject: Fields)
      modifies this`jobsRejected
      ensures jobsRejected == old(jobsRejected) + 1
    {
      jobsRejected := jobsRejected + 1;
    }
  }
}
