/**
 * One round of the Contract Net protocol across the two agents: what the
 * supervisor reads back from the messages the machines send it, and what a
 * machine reads back from the messages the supervisor sends.
 */
module Protocol {
  import opened Base
  import opened Messages
  import opened SupervisorAgent
  import opened MachineAgent

  /** The payload of the call for proposals `_send_cfp` publishes for `job`. */
  function CfpPayload(supervisorId: string, job: Job, deadline: real, now: real): Payload {
    CfpMsg(supervisorId, job.jobId, job.jobType, job.description, deadline, now)
  }

  /**
   * A machine's reply to a call for proposals reaches the calling
   * supervisor's bid topic, and the supervisor, still collecting bids for
   * that job, admits it exactly when the machine was idle and had the job
   * type in its table; the admitted bid carries the table's duration.
   */
  lemma ReplyAdmittedIffIdleAndCapable(supervisorId: string, job: Job, deadline: real, sentAt: real,
                                       machineId: string, capabilities: map<string, real>,
                                       busy: bool, repliedAt: real, receivedAt: real)
    ensures
      var reply := CfpReply(machineId, capabilities, busy,
                            Decode(CfpPayload(supervisorId, job, deadline, sentAt)), repliedAt);
      && reply.topic == "jobs/bid/" + supervisorId
      && var admitted := Admitted(true, Some(job), Decoded(Decode(reply.payload)), receivedAt);
      && (admitted.Some? <==> !busy && job.jobType in capabilities)
      && (admitted.Some? ==>
            admitted.value == Bid(machineId, job.jobId, capabilities[job.jobType], repliedAt))
  {
  }

  /** A reply to an earlier call, for another job, is never admitted. */
  lemma StaleReplyIgnored(supervisorId: string, job: Job, other: Job, deadline: real, sentAt: real,
                          machineId: string, capabilities: map<string, real>,
                          busy: bool, repliedAt: real, receivedAt: real)
    requires other.jobId != job.jobId
    ensures
      var reply := CfpReply(machineId, capabilities, busy,
                            Decode(CfpPayload(supervisorId, other, deadline, sentAt)), repliedAt);
      Admitted(true, Some(job), Decoded(Decode(reply.payload)), receivedAt) == None
  {
  }

  /**
   * The award names the winning machine, so exactly that machine takes the
   * job; it runs for the duration in its own table for the job type.
   */
  lemma AwardReachesWinner(supervisorId: string, job: Job, winner: Bid, now: real,
                           machineId: string, capabilities: map<string, real>)
    ensures
      var f := Decode(AwardFor(supervisorId, job, winner, now).payload);
      && f.msgType == Some("award")
      && (f.machineId == Some(machineId) <==> machineId == winner.machineId)
      && f.jobId == Some(job.jobId)
      && (job.jobType in capabilities ==> ExecutionTime(capabilities, f.jobType) == capabilities[job.jobType])
  {
  }

  /** A loser is told so on its own topic with a "reject" message for the job. */
  lemma RejectReachesLoser(supervisorId: string, job: Job, machineId: string, now: real)
    ensures
      var p := RejectFor(supervisorId, job, machineId, now);
      && p.topic == "jobs/reject/" + machineId
      && Decode(p.payload).msgType == Some("reject")
      && Decode(p.payload).jobId == Some(job.jobId)
  {
  }

  /**
   * Two idle capable machines bid 5 and 3 seconds for a job: the 3-second
   * machine gets the award and the other one a rejection, and nothing else
   * is published.
   */
  lemma FasterMachineWins(supervisorId: string, job: Job, firstAt: real, secondAt: real, now: real)
    ensures
      var slow := Bid("machine_1", job.jobId, 5.0, firstAt);
      var fast := Bid("machine_2", job.jobId, 3.0, secondAt);
      AwardPublications(supervisorId, job, [slow, fast], now)
        == [AwardFor(supervisorId, job, fast, now), RejectFor(supervisorId, job, "machine_1", now)]
  {
    var slow := Bid("machine_1", job.jobId, 5.0, firstAt);
    var fast := Bid("machine_2", job.jobId, 3.0, secondAt);
    SelectWinnerIsFirstMinimum([slow, fast], 1);
    assert "machine_1"[8] != "machine_2"[8];
    assert [slow, fast][..1] == [slow] && [slow][..0] == [];
    assert Losers([slow], "machine_2") == ["machine_1"];
    assert Losers([slow, fast], "machine_2") == ["machine_1"];
  }

  /**
   * Equal proposed times: the bid received first wins, even when the later
   * one carries the earlier timestamp.
   */
  lemma TieGoesToFirstArrival(job: Job, firstAt: real, secondAt: real)
    requires secondAt < firstAt
    ensures
      var first := Bid("machine_1", job.jobId, 3.0, firstAt);
      var second := Bid("machine_2", job.jobId, 3.0, secondAt);
      SelectWinner([first, second]) == Some(first)
  {
    var first := Bid("machine_1", job.jobId, 3.0, firstAt);
    var second := Bid("machine_2", job.jobId, 3.0, secondAt);
    SelectWinnerIsFirstMinimum([first, second], 0);
  }
}
