/**
 * The Contract Net supervisor: it generates jobs, broadcasts a call for
 * proposals, collects bids while its auction is open, and at the deadline
 * awards the job to the bid with the shortest proposed time.
 *
 * The deadline `sleep` of the source becomes an explicit `CloseAuction`
 * step; each bus callback is one atomic `OnMessage` call.
 */
module SupervisorAgent {
  import opened Base
  import opened Messages

  /** A job to be allocated. */
  datatype Job = Job(jobId: string, jobType: string, description: string, timestamp: real)

  /** A bid admitted into the open auction. */
  datatype Bid = Bid(machineId: string, jobId: string, proposedTime: real, timestamp: real)

  /** The job types the generator draws from. */
  const JobTypes: seq<string> := ["job_A", "job_B", "job_C", "job_D", "job_E"]

  const CfpTopic := "jobs/cfp"
  const LoserReason := "Another machine was selected"

  /** The first 8 hex digits of a `uuid4().hex`. */
  predicate IsHexToken(t: string) {
    |t| == 8 && forall k :: 0 <= k < |t| ==> t[k] in "0123456789abcdef"
  }

  /**
   * The job `_generate_job` builds from the random choice `choice`, the
   * uuid prefix `token` and the clock reading `now`.
   */
  function NewJob(choice: nat, token: string, now: real): (job: Job)
    requires choice < |JobTypes|
    requires IsHexToken(token)
    ensures job.jobType in JobTypes
    ensures |job.jobId| == 12 && job.jobId[..4] == "job_" && IsHexToken(job.jobId[4..])
    ensures job.description == "Execute " + job.jobType + " operation"
    ensures job.timestamp == now
  {
    var jobType := JobTypes[choice];
    var job := Job("job_" + token, jobType, "Execute " + jobType + " operation", now);
    assert job.jobId[4..] == token;
    job
  }

  /**
   * The bid `_on_message` appends for one inbound message, or None when it
   * returns early or swallows a KeyError. `collecting ==> current.Some?` is
   * the supervisor's invariant: with the flag set there is always a job.
   */
  function Admitted(collecting: bool, current: Option<Job>, m: Inbound, now: real): (r: Option<Bid>)
    requires collecting ==> current.Some?
    ensures r.Some? <==>
      && collecting && m.Decoded?
      && m.fields.jobId == Some(current.value.jobId)
      && m.fields.msgType != Some("rejection")
      && m.fields.machineId.Some? && m.fields.proposedTime.Some?
    ensures r.Some? ==> r.value.jobId == current.value.jobId
    ensures r.Some? ==> Some(r.value.machineId) == m.fields.machineId
    ensures r.Some? ==> Some(r.value.proposedTime) == m.fields.proposedTime
    ensures r.Some? ==> r.value.timestamp == m.fields.timestamp.GetOr(now)
  {
    if !collecting then None
    else match m
      case Malformed => None
      case Decoded(f) =>
        if f.jobId != Some(current.value.jobId) then None
        else if f.msgType == Some("rejection") then None
        else if f.machineId.None? || f.proposedTime.None? then None
        else Some(Bid(f.machineId.value, current.value.jobId, f.proposedTime.value,
                      f.timestamp.GetOr(now)))
  }

  /**
   * The bids an auction for `job` that stays open collects from the
   * replies, each delivered with its own clock reading.
   */
  function AdmitAll(job: Job, replies: seq<(Inbound, real)>): (r: seq<Bid>)
    ensures |r| <= |replies|
    ensures forall k :: 0 <= k < |r| ==> r[k].jobId == job.jobId
  {
    if replies == [] then []
    else
      var last := replies[|replies| - 1];
      AdmitAll(job, replies[..|replies| - 1])
        + match Admitted(true, Some(job), last.0, last.1)
          case Some(b) => [b]
          case None => []
  }

  /**
   * Index `i` holds a minimal proposed time and every earlier bid is
   * strictly slower: Python's `min` keeps the first minimum it meets.
   */
  predicate IsFirstMinimum(bids: seq<Bid>, i: int) {
    && 0 <= i < |bids|
    && (forall j :: 0 <= j < |bids| ==> bids[i].proposedTime <= bids[j].proposedTime)
    && (forall j :: 0 <= j < i ==> bids[j].proposedTime > bids[i].proposedTime)
  }

  /** The position `min(bids, key=proposed_time)` picks, by a left-to-right scan. */
  function WinnerIndex(bids: seq<Bid>): (i: nat)
    requires bids != []
    ensures IsFirstMinimum(bids, i)
  {
    if |bids| == 1 then 0
    else
      var k := WinnerIndex(bids[..|bids| - 1]);
      if bids[|bids| - 1].proposedTime < bids[k].proposedTime then |bids| - 1 else k
  }

  /** The first minimum is unique, so it is the one `WinnerIndex` finds. */
  lemma FirstMinimumIsWinner(bids: seq<Bid>, i: int)
    requires IsFirstMinimum(bids, i)
    ensures WinnerIndex(bids) == i
  {
    var w := WinnerIndex(bids);
    assert !(i < w);
    assert !(w < i);
  }

  /** `_select_winner`: None iff there is no bid, otherwise the first minimum. */
  function SelectWinner(bids: seq<Bid>): (w: Option<Bid>)
    ensures w.None? <==> bids == []
    ensures w.Some? ==> w.value in bids
    ensures w.Some? ==> forall b :: b in bids ==> w.value.proposedTime <= b.proposedTime
  {
    if bids == [] then None else Some(bids[WinnerIndex(bids)])
  }

  /**
   * Ties go to arrival order: the winner is the earliest of the bids with
   * the minimal proposed time (no timestamp tie-break).
   */
  lemma SelectWinnerIsFirstMinimum(bids: seq<Bid>, i: int)
    requires IsFirstMinimum(bids, i)
    ensures SelectWinner(bids) == Some(bids[i])
  {
    FirstMinimumIsWinner(bids, i);
  }

  /**
   * A bid arriving after the others replaces the current winner exactly when
   * it is strictly faster; an equally fast late bid never displaces it.
   */
  lemma WinnerAfterAppend(bids: seq<Bid>, b: Bid)
    requires bids != []
    ensures var w := SelectWinner(bids).value;
      SelectWinner(bids + [b]) == if b.proposedTime < w.proposedTime then Some(b) else Some(w)
  {
    var all := bids + [b];
    var i := WinnerIndex(bids);
    var w := bids[i];
    if b.proposedTime < w.proposedTime {
      FirstMinimumIsWinner(all, |bids|);
    } else {
      FirstMinimumIsWinner(all, i);
    }
  }

  /** The machine ids of a bid list, in arrival order. */
  function MachineIds(bids: seq<Bid>): (ids: seq<string>)
    ensures |ids| == |bids|
    ensures forall k :: 0 <= k < |bids| ==> ids[k] == bids[k].machineId
  {
    if bids == [] then [] else MachineIds(bids[..|bids| - 1]) + [bids[|bids| - 1].machineId]
  }

  /**
   * The machine ids that `_send_award` rejects: one per bid from a machine
   * other than the winner's, duplicates included.
   */
  function Losers(bids: seq<Bid>, winnerId: string): (ids: seq<string>)
    ensures |ids| <= |bids| && winnerId !in ids
  {
    if bids == [] then []
    else
      var init := bids[..|bids| - 1];
      var last := bids[|bids| - 1].machineId;
      Losers(init, winnerId) + if last != winnerId then [last] else []
  }

  /**
   * The rejected ids, counted with multiplicity, are the bidders' ids with
   * the winner's machine removed.
   */
  lemma {:induction false} LosersAreOtherBidders(bids: seq<Bid>, winnerId: string)
    ensures multiset(Losers(bids, winnerId)) == multiset(MachineIds(bids))[winnerId := 0]
  {
    if bids != [] {
      LosersAreOtherBidders(bids[..|bids| - 1], winnerId);
    }
  }

  /** The award sent to the winner's award topic. */
  function AwardFor(supervisorId: string, job: Job, winner: Bid, now: real): (p: Publication)
    ensures p.topic == "jobs/award/" + winner.machineId && p.payload.AwardMsg?
    ensures p.payload.machineId == winner.machineId && p.payload.supervisorId == supervisorId
    ensures p.payload.jobId == job.jobId && p.payload.jobType == job.jobType && p.payload.timestamp == now
  {
    Publish("jobs/award/" + winner.machineId,
            AwardMsg(supervisorId, job.jobId, job.jobType, winner.machineId, now))
  }

  /** The rejection sent to one losing machine. */
  function RejectFor(supervisorId: string, job: Job, machineId: string, now: real): (p: Publication)
    ensures p.topic == "jobs/reject/" + machineId && p.payload.RejectMsg?
    ensures p.payload.supervisorId == supervisorId && p.payload.jobId == job.jobId
    ensures p.payload.reason == LoserReason && p.payload.timestamp == now
  {
    Publish("jobs/reject/" + machineId, RejectMsg(supervisorId, job.jobId, LoserReason, now))
  }

  /** One rejection per id, in order. */
  function Rejects(supervisorId: string, job: Job, ids: seq<string>, now: real): (r: seq<Publication>)
    ensures |r| == |ids|
    ensures forall k :: 0 <= k < |ids| ==> r[k] == RejectFor(supervisorId, job, ids[k], now)
  {
    seq(|ids|, k requires 0 <= k < |ids| => RejectFor(supervisorId, job, ids[k], now))
  }

  lemma LosersStep(bids: seq<Bid>, i: nat, winnerId: string)
    requires i < |bids|
    ensures Losers(bids[..i + 1], winnerId)
            == Losers(bids[..i], winnerId) + if bids[i].machineId != winnerId then [bids[i].machineId] else []
  {
    assert bids[..i + 1][..i] == bids[..i];
  }

  lemma RejectsStep(supervisorId: string, job: Job, ids: seq<string>, id: string, now: real)
    ensures Rejects(supervisorId, job, ids + [id], now)
            == Rejects(supervisorId, job, ids, now) + [RejectFor(supervisorId, job, id, now)]
  {
  }

  /** Everything published when an auction closes with at least one bid. */
  function AwardPublications(supervisorId: string, job: Job, bids: seq<Bid>, now: real): (out: seq<Publication>)
    requires bids != []
    ensures |out| >= 1 && forall k :: 1 <= k < |out| ==> out[k].payload.RejectMsg?
    ensures out[0].payload.AwardMsg? && out[0].payload.machineId == SelectWinner(bids).value.machineId
  {
    var w := SelectWinner(bids).value;
    [AwardFor(supervisorId, job, w, now)] + Rejects(supervisorId, job, Losers(bids, w.machineId), now)
  }

  /** Every bid is either from the winner's machine or answered by one rejection. */
  lemma {:induction false} LosersCount(bids: seq<Bid>, winnerId: string)
    ensures |Losers(bids, winnerId)| + multiset(MachineIds(bids))[winnerId] == |bids|
  {
    if bids != [] {
      LosersCount(bids[..|bids| - 1], winnerId);
    }
  }

  /** Reject topics name their machine: distinct machines, distinct topics. */
  lemma RejectTopicInjective(a: string, b: string)
    requires "jobs/reject/" + a == "jobs/reject/" + b
    ensures a == b
  {
    assert ("jobs/reject/" + a)[12..] == a;
    assert ("jobs/reject/" + b)[12..] == b;
  }

  /**
   * Closing an auction with bids publishes exactly one award, to the
   * winner's award topic; every other publication is a rejection, none of
   * them to the winner's machine, and each machine other than the winner's
   * gets as many rejections as it placed bids.
   */
  lemma AwardFanOut(supervisorId: string, job: Job, bids: seq<Bid>, now: real)
    requires bids != []
    ensures var w := SelectWinner(bids).value;
      var out := AwardPublications(supervisorId, job, bids, now);
      && out[0] == AwardFor(supervisorId, job, w, now)
      && (forall k :: 1 <= k < |out| ==> out[k].payload.RejectMsg?)
      && (forall k :: 1 <= k < |out| ==> out[k].topic != "jobs/reject/" + w.machineId)
      && (forall m :: m != w.machineId ==>
            multiset(Losers(bids, w.machineId))[m] == multiset(MachineIds(bids))[m])
      && |out| == 1 + |bids| - multiset(MachineIds(bids))[w.machineId]
  {
    var w := SelectWinner(bids).value;
    var losers := Losers(bids, w.machineId);
    LosersAreOtherBidders(bids, w.machineId);
    LosersCount(bids, w.machineId);
    assert w.machineId !in multiset(losers);
    RejectsAvoid(supervisorId, job, losers, w.machineId, now);
  }

  /** No rejection built for a list of ids goes to a machine outside it. */
  lemma RejectsAvoid(supervisorId: string, job: Job, ids: seq<string>, other: string, now: real)
    requires other !in ids
    ensures forall k :: 0 <= k < |ids| ==>
      Rejects(supervisorId, job, ids, now)[k].topic != "jobs/reject/" + other
  {
    forall k | 0 <= k < |ids|
      ensures Rejects(supervisorId, job, ids, now)[k].topic != "jobs/reject/" + other
    {
      if "jobs/reject/" + ids[k] == "jobs/reject/" + other {
        RejectTopicInjective(ids[k], other);
      }
    }
  }

  /** The supervisor agent's state: one auction at a time. */
  class Supervisor {
    const supervisorId: string
    const deadline: real
    var currentJob: Option<Job>
    var bids: seq<Bid>
    var collectingBids: bool
    var jobsCreated: nat
    var jobsAllocated: nat
    var jobsFailed: nat
    /** Everything published so far, oldest first. */
    var outbox: seq<Publication>

    /**
     * The auction is open exactly while there is a current job, every bid of
     * an open auction is for its job, and every generated job is allocated,
     * failed, or the one being auctioned.
     */
    ghost predicate Valid()
      reads this
    {
      && (collectingBids <==> currentJob.Some?)
      && (collectingBids ==> forall k :: 0 <= k < |bids| ==> bids[k].jobId == currentJob.value.jobId)
      && jobsAllocated + jobsFailed + (if collectingBids then 1 else 0) == jobsCreated
    }

    constructor(supervisorId: string, deadline: real)
      ensures Valid()
      ensures this.supervisorId == supervisorId && this.deadline == deadline
      ensures currentJob == None && bids == [] && !collectingBids && outbox == []
      ensures jobsCreated == 0 && jobsAllocated == 0 && jobsFailed == 0
    {
      this.supervisorId := supervisorId;
      this.deadline := deadline;
      currentJob := None;
      bids := [];
      collectingBids := false;
      jobsCreated, jobsAllocated, jobsFailed := 0, 0, 0;
      outbox := [];
    }

    /** `_on_message`: admit one inbound reply into the open auction, or ignore it. */
    method OnMessage(m: Inbound, now: real)
      requires Valid()
      modifies this`bids
      ensures Valid()
      ensures bids == old(bids) + match Admitted(collectingBids, currentJob, m, now)
                                  case Some(b) => [b]
                                  case None => []
    {
      if !collectingBids {
        return;
      }
      match m
      case Malformed =>
      case Decoded(f) =>
        if f.jobId != Some(currentJob.value.jobId) {
          return;
        }
        if f.msgType == Some("rejection") {
          return;
        }
        if f.machineId.None? || f.proposedTime.None? {
          return;
        }
        var bid := Bid(f.machineId.value, f.jobId.value, f.proposedTime.value, f.timestamp.GetOr(now));
        bids := bids + [bid];
    }

    /** `_generate_job`: build a job and count it. */
    method GenerateJob(choice: nat, token: string, now: real) returns (job: Job)
      requires choice < |JobTypes| && IsHexToken(token)
      modifies this`jobsCreated
      ensures job == NewJob(choice, token, now)
      ensures jobsCreated == old(jobsCreated) + 1
    {
      var jobType := JobTypes[choice];
      job := Job("job_" + token, jobType, "Execute " + jobType + " operation", now);
      jobsCreated := jobsCreated + 1;
    }

    /** `_send_cfp`: broadcast the call for proposals. */
    method SendCfp(job: Job, now: real)
      modifies this`outbox
      ensures outbox == old(outbox) + [Publish(CfpTopic, CfpMsg(supervisorId, job.jobId, job.jobType,
                                                                job.description, deadline, now))]
    {
      outbox := outbox + [Publish(CfpTopic, CfpMsg(supervisorId, job.jobId, job.jobType,
                                                   job.description, deadline, now))];
    }

    /** The opening half of `_run_auction`: a fresh, empty, open auction. */
    method OpenAuction(job: Job, now: real)
      modifies this`currentJob, this`bids, this`collectingBids, this`outbox
      ensures currentJob == Some(job) && bids == [] && collectingBids
      ensures outbox == old(outbox) + [Publish(CfpTopic, CfpMsg(supervisorId, job.jobId, job.jobType,
                                                                job.description, deadline, now))]
    {
      currentJob := Some(job);
      bids := [];
      collectingBids := true;
      SendCfp(job, now);
    }

    /** One turn of the `run` loop up to the deadline: generate a job and open its auction. */
    method StartAuction(choice: nat, token: string, now: real) returns (job: Job)
      requires Valid() && !collectingBids
      requires choice < |JobTypes| && IsHexToken(token)
      modifies this
      ensures Valid()
      ensures job == NewJob(choice, token, now)
      ensures currentJob == Some(job) && bids == [] && collectingBids
      ensures jobsCreated == old(jobsCreated) + 1
      ensures jobsAllocated == old(jobsAllocated) && jobsFailed == old(jobsFailed)
      ensures outbox == old(outbox) + [Publish(CfpTopic, CfpMsg(supervisorId, job.jobId, job.jobType,
                                                                job.description, deadline, now))]
    {
      job := GenerateJob(choice, token, now);
      OpenAuction(job, now);
    }

    /** `_send_award`: the award, then one rejection per bid from another machine. */
    method SendAward(winner: Bid, job: Job, now: real)
      modifies this`outbox
      ensures outbox == old(outbox) + [AwardFor(supervisorId, job, winner, now)]
                        + Rejects(supervisorId, job, Losers(bids, winner.machineId), now)
    {
      var all := bids;
      outbox := outbox + [AwardFor(supervisorId, job, winner, now)];
      ghost var start := outbox;
      var i := 0;
      while i < |all|
        invariant 0 <= i <= |all|
        invariant outbox == start + Rejects(supervisorId, job, Losers(all[..i], winner.machineId), now)
      {
        var bid := all[i];
        LosersStep(all, i, winner.machineId);
        ghost var done := Losers(all[..i], winner.machineId);
        if bid.machineId != winner.machineId {
          RejectsStep(supervisorId, job, done, bid.machineId, now);
          outbox := outbox + [RejectFor(supervisorId, job, bid.machineId, now)];
        }
        i := i + 1;
      }
      assert all[..i] == all;
    }

    /**
     * The closing half of `_run_auction`, at the deadline: stop admitting
     * bids, award the job or count it as failed, and forget the job.
     */
    method CloseAuction(now: real)
      requires Valid() && collectingBids
      modifies this`collectingBids, this`currentJob, this`outbox, this`jobsAllocated, this`jobsFailed
      ensures Valid()
      ensures !collectingBids && currentJob == None
      ensures old(bids) != [] ==>
        && outbox == old(outbox) + AwardPublications(supervisorId, old(currentJob).value, bids, now)
        && jobsAllocated == old(jobsAllocated) + 1 && jobsFailed == old(jobsFailed)
      ensures old(bids) == [] ==>
        && outbox == old(outbox)
        && jobsFailed == old(jobsFailed) + 1 && jobsAllocated == old(jobsAllocated)
    {
      var job := currentJob.value;
      collectingBids := false;
      var winner := SelectWinner(bids);
      if winner.Some? {
        ghost var before := outbox;
        SendAward(winner.value, job, now);
        assert outbox == before + AwardPublications(supervisorId, job, bids, now);
        jobsAllocated := jobsAllocated + 1;
      } else {
        jobsFailed := jobsFailed + 1;
      }
      currentJob := None;
    }

    /**
     * One whole auction: open it, deliver the replies that arrive before the
     * deadline, and close it. The admitted bids are exactly those of
     * `AdmitAll`, and the job is allocated iff one of them was admitted.
     */
    method RunAuction(choice: nat, token: string, startedAt: real,
                      replies: seq<(Inbound, real)>, deadlineAt: real) returns (job: Job)
      requires Valid() && !collectingBids
      requires choice < |JobTypes| && IsHexToken(token)
      modifies this
      ensures Valid() && !collectingBids && currentJob == None
      ensures job == NewJob(choice, token, startedAt)
      ensures bids == AdmitAll(job, replies)
      ensures jobsCreated == old(jobsCreated) + 1
      ensures jobsAllocated + jobsFailed == jobsCreated
      ensures bids != [] ==> jobsAllocated == old(jobsAllocated) + 1
      ensures bids == [] ==> jobsFailed == old(jobsFailed) + 1
      ensures outbox == old(outbox) + [Publish(CfpTopic, CfpMsg(supervisorId, job.jobId, job.jobType,
                                                                job.description, deadline, startedAt))]
                        + (if bids != [] then AwardPublications(supervisorId, job, bids, deadlineAt) else [])
    {
      job := StartAuction(choice, token, startedAt);
      var i := 0;
      while i < |replies|
        invariant 0 <= i <= |replies|
        invariant Valid() && collectingBids && currentJob == Some(job)
        invariant bids == AdmitAll(job, replies[..i])
        invariant jobsCreated == old(jobsCreated) + 1
        invariant jobsAllocated == old(jobsAllocated) && jobsFailed == old(jobsFailed)
        invariant outbox == old(outbox) + [Publish(CfpTopic, CfpMsg(supervisorId, job.jobId, job.jobType,
                                                                    job.description, deadline, startedAt))]
      {
        assert replies[..i + 1][..i] == replies[..i];
        OnMessage(replies[i].0, replies[i].1);
        i := i + 1;
      }
      assert replies[..i] == replies;
      CloseAuction(deadlineAt);
    }
  }
}
