/**
 * The records the agents exchange over the publish/subscribe bus.
 *
 * Outbound messages are `Publication`s: a topic and a typed payload. A
 * receiver sees the JSON object of a payload through `dict.get`, so an
 * inbound message is a `Fields` record in which every key the receivers
 * read is optional (None when the key is absent or JSON null), or
 * `Malformed` when the bytes are not JSON at all.
 */
module Messages {
  import opened Base

  /**
   * One outbound JSON object, by its "type" field. A machine echoes the
   * job id and type it read with `dict.get`, so in its messages (`job`,
   * `kind`) they may be None.
   */
  datatype Payload =
    | CfpMsg(supervisorId: string, jobId: string, jobType: string, description: string,
             deadline: real, timestamp: real)
    | BidMsg(machineId: string, job: Option<string>, proposedTime: real, timestamp: real)
    | RejectionMsg(machineId: string, job: Option<string>, reason: string, timestamp: real)
    | AwardMsg(supervisorId: string, jobId: string, jobType: string, machineId: string,
               timestamp: real)
    | RejectMsg(supervisorId: string, jobId: string, reason: string, timestamp: real)
    | CompletionMsg(machineId: string, job: Option<string>, kind: Option<string>,
                    executionTime: real, timestamp: real)
    | ResetCommand(sensorId: string, action: string, reason: string, timestamp: real)

  /** `client.publish(topic, json.dumps(payload))`. */
  datatype Publication = Publish(topic: string, payload: Payload)

  /** The keys of an inbound JSON object that some receiver reads. */
  datatype Fields = Fields(
    msgType: Option<string>,
    supervisorId: Option<string>,
    jobId: Option<string>,
    jobType: Option<string>,
    machineId: Option<string>,
    sensorId: Option<string>,
    reason: Option<string>,
    proposedTime: Option<real>,
    timestamp: Option<real>)

  /** An inbound payload: `json.loads` either fails or yields an object. */
  datatype Inbound = Malformed | Decoded(fields: Fields)

  const NoFields := Fields(None, None, None, None, None, None, None, None, None)

  /** How an f-string renders a value read with `dict.get`: None prints as "None". */
  function Show(o: Option<string>): string {
    match o
    case Some(s) => s
    case None => "None"
  }

  /** What a subscriber reads from a payload after `json.dumps` and `json.loads`. */
  function Decode(p: Payload): (f: Fields)
    ensures f.timestamp == Some(p.timestamp)
  {
    match p
    case CfpMsg(sup, job, jt, _, _, t) =>
      NoFields.(msgType := Some("cfp"), supervisorId := Some(sup), jobId := Some(job),
                jobType := Some(jt), timestamp := Some(t))
    case BidMsg(m, job, pt, t) =>
      NoFields.(msgType := Some("bid"), machineId := Some(m), jobId := job,
                proposedTime := Some(pt), timestamp := Some(t))
    case RejectionMsg(m, job, why, t) =>
      NoFields.(msgType := Some("rejection"), machineId := Some(m), jobId := job,
                reason := Some(why), timestamp := Some(t))
    case AwardMsg(sup, job, jt, m, t) =>
      NoFields.(msgType := Some("award"), supervisorId := Some(sup), jobId := Some(job),
                jobType := Some(jt), machineId := Some(m), timestamp := Some(t))
    case RejectMsg(sup, job, why, t) =>
      NoFields.(msgType := Some("reject"), supervisorId := Some(sup), jobId := Some(job),
                reason := Some(why), timestamp := Some(t))
    case CompletionMsg(m, job, jt, _, t) =>
      NoFields.(msgType := Some("completion"), machineId := Some(m), jobId := job,
                jobType := jt, timestamp := Some(t))
    case ResetCommand(s, _, why, t) =>
      NoFields.(sensorId := Some(s), reason := Some(why), timestamp := Some(t))
  }
}
