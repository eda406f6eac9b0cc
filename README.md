# Contract Net job allocation and sensor reset rule, in Dafny

This project models three agents of a multi-agent manufacturing demo that talk over an MQTT bus:

- **The Contract Net supervisor** (`ContractNet/supervisor.py`).
  - It generates a job and broadcasts a call for proposals (CFP) on `jobs/cfp`.
  - Until its deadline it collects bids on `jobs/bid/<supervisor_id>`.
  - It awards the job to the bid with the shortest proposed time on `jobs/award/<machine_id>`.
  - Every other bidder is told on `jobs/reject/<machine_id>`.
  - It counts created, allocated and failed jobs.
- **The Contract Net machine** (`ContractNet/machine.py`).
  - It answers each CFP with a bid, or with a rejection when it is busy or lacks the job type in its capability table.
  - An award addressed to it makes it busy until the job's simulated execution completes.
  - It also parses its capability table from a string such as `"job_A:5,job_B:3"`.
- **The anomaly identification agent** (`AnomalyDetection/identification_agent.py`).
  - It records anomaly alerts per sensor.
  - It sends `commands/reset/<sensor_id>` once a sensor has had enough alerts in the last 60 seconds, unless that sensor was reset within the cooldown.

## How the model is organised

Each bus callback is one atomic method call. What an agent publishes is appended to its `outbox` field.

An inbound message is either `Malformed` (not JSON) or a `Fields` record. `Fields` holds the keys the receivers read with `dict.get`; each one is `None` when the key is absent.

The clock is a `now` parameter. The supervisor's deadline `sleep` becomes an explicit `CloseAuction` step. The machine's background execution thread becomes:
- an entry in its `running` list;
- an explicit `Complete` step.

Modules:
- `Base`: Option and Result.
- `Text`: the Python string operations the capability parser uses.
- `Messages`: the wire records.
- `SupervisorAgent`, `MachineAgent`, `Capabilities`, `Identification`: the three agents and the capability parser.
- `Protocol`: properties of one auction round across supervisor and machines.

## Model

| member | source | states |
|---|---|---|
| Messages.Decode | ContractNet/machine.py:113-122 | what a receiver reads back from a published JSON object; every message carries its publication timestamp |
| Text.TrimStart | ContractNet/machine.py:228 | `lstrip`: the result is a suffix of the input, everything dropped is whitespace, and the result does not start with whitespace |
| Text.TrimEnd | ContractNet/machine.py:228 | `rstrip`: the result is a prefix of the input, everything dropped is whitespace, and the result does not end with whitespace |
| Text.Strip | ContractNet/machine.py:228 | `strip`: the result has no whitespace at either end, and a string without edge whitespace is left as it is |
| Text.StripIsMiddle | ContractNet/machine.py:228 | `strip` returns the slice of its input between a whitespace-only prefix and a whitespace-only suffix |
| Text.Split | ContractNet/machine.py:227 | `split(sep)` yields at least one piece, and no piece contains the separator |
| Text.SplitCount | ContractNet/machine.py:229-230 | `split(sep)` yields exactly one piece more than the string has separators, so the two-name unpacking succeeds iff there is exactly one colon |
| Text.JoinSplit | ContractNet/machine.py:227 | joining the pieces of a split with the separator gives back the original string |
| Text.SplitPrefix | ContractNet/machine.py:227 | splitting `a + b` when `a` has no separator glues `a` onto the first piece of `b` |
| Text.SplitJoin | ContractNet/machine.py:227 | splitting a join of separator-free pieces gives back the pieces |
| Text.DigitRun | ContractNet/machine.py:231 | the longest run of digits at the start of a string |
| Text.ParseUnsigned | ContractNet/machine.py:231 | an unsigned decimal literal; a string made only of digits reads as its integer value |
| Text.ParseDecimal | ContractNet/machine.py:231 | `float()` on a stripped decimal literal: any text it accepts is made only of digits, signs and a point, and a string made only of digits reads as its integer value |
| Text.FormatNat | ContractNet/machine.py:225 | the decimal rendering of a natural number is non-empty and made only of digits |
| Text.DigitsOfFormat | ContractNet/machine.py:231 | reading the digits of a rendered number gives the number back |
| Text.ParseFormatted | ContractNet/machine.py:231 | `float(str(n)) == n` and `float("-" + str(n)) == -n` |
| Capabilities.ParseItem | ContractNet/machine.py:228-231 | one item is skipped iff its stripped text has no colon, and raises the unpacking error iff it has two or more; an entry's key has no edge whitespace |
| Capabilities.ParseItemOneColon | ContractNet/machine.py:228-231 | an item with exactly one colon yields the entry `strip(key) -> float(strip(value))`, or the not-a-number error on `strip(value)` when that text is not a number |
| Capabilities.ParseItems | ContractNet/machine.py:227-228 | the items of the string, each parsed on its own and in order |
| Capabilities.Collect | ContractNet/machine.py:226-232 | the fold the loop computes: a successful parse keeps every key of the starting table, and a failed one fails with the error of one of the items |
| Capabilities.ParseCapabilities | ContractNet/machine.py:224-232 | the loop over the comma-separated items computes the fold `Collect` over the parsed items, starting from an empty table |
| Capabilities.CollectStep | ContractNet/machine.py:227-231 | one turn of the loop: a skipped item leaves the table, an entry sets its key, an invalid item ends the parse with its error |
| Capabilities.CollectAppend | ContractNet/machine.py:227-231 | parsing a concatenation is parsing the first part and then continuing from its table, and an error in the first part stops the parse |
| Capabilities.ParseItemsAppend | ContractNet/machine.py:227-228 | items are parsed independently of their neighbours |
| Capabilities.SkippedItemIrrelevant | ContractNet/machine.py:229 | removing an item without a colon does not change the outcome |
| Capabilities.CollectFails | ContractNet/machine.py:230-231 | the parse fails iff some item is invalid, and then with the error of the first invalid item |
| Capabilities.KeyUntouched | ContractNet/machine.py:231 | items without an entry for a key leave that key's value alone |
| Capabilities.LastEntryWins | ContractNet/machine.py:231 | in a successful parse, every key maps to the value of its last entry |
| Capabilities.CollectDomain | ContractNet/machine.py:226-232 | a successful parse holds exactly the keys of the starting table and of the entries, and no other key |
| Capabilities.DigitsHaveNoSeparators | ContractNet/machine.py:225 | a rendered number contains no colon, no comma and no edge whitespace |
| Capabilities.ParseFormattedEntry | ContractNet/machine.py:225 | the item `"key:n"` with a clean key parses to the entry `key -> n` |
| Capabilities.CollectFormatted | ContractNet/machine.py:225-231 | parsing the formatted items of a list of entries gives the table those entries denote |
| Capabilities.ParseOfFormat | ContractNet/machine.py:225 | round trip: formatting a table as `"k1:d1,k2:d2,..."` and parsing it gives the table back, with a later duplicate key overriding an earlier one |
| SupervisorAgent.NewJob | ContractNet/supervisor.py:124-134 | a generated job has a type from `JOB_TYPES`, the id `"job_"` plus 8 hex digits, the description `"Execute <type> operation"`, and the generation time |
| SupervisorAgent.Admitted | ContractNet/supervisor.py:94-122 | a message yields a bid iff all of these hold: the auction is open, the message is JSON, it is for the current job id, it is not a rejection, and it has both `machine_id` and `proposed_time`; the bid copies those fields and the message's timestamp, or the receive time when the message has none |
| SupervisorAgent.AdmitAll | ContractNet/supervisor.py:94-117 | the bids of one auction are all for its job, and there are at most as many bids as messages |
| SupervisorAgent.WinnerIndex | ContractNet/supervisor.py:155-161 | `min(bids, key=proposed_time)`: the position of a minimal proposed time, with every earlier bid strictly slower |
| SupervisorAgent.FirstMinimumIsWinner | ContractNet/supervisor.py:160-161 | that position is unique: any first minimum is the one `min` returns |
| SupervisorAgent.SelectWinner | ContractNet/supervisor.py:155-161 | `_select_winner` returns None iff there are no bids; otherwise one of the bids, with a proposed time no larger than any other |
| SupervisorAgent.SelectWinnerIsFirstMinimum | ContractNet/supervisor.py:160-161 | ties go to the earliest bid received, not to the earliest timestamp |
| SupervisorAgent.WinnerAfterAppend | ContractNet/supervisor.py:160-161 | a later bid replaces the winner iff it is strictly faster |
| SupervisorAgent.MachineIds | ContractNet/supervisor.py:181-182 | the machine ids of the bids, in order |
| SupervisorAgent.Losers | ContractNet/supervisor.py:181-182 | the ids `_send_award` rejects, in bid order: at most one per bid, and never the winner's machine |
| SupervisorAgent.LosersAreOtherBidders | ContractNet/supervisor.py:180-191 | the rejected machine ids, counted with multiplicity, are the bidders' ids with the winner's removed |
| SupervisorAgent.AwardFor | ContractNet/supervisor.py:165-175 | the award goes to `jobs/award/<winner>` and names the supervisor, the job id and type, the winning machine and the time |
| SupervisorAgent.RejectFor | ContractNet/supervisor.py:183-191 | a reject goes to `jobs/reject/<id>` and names the supervisor, the job id, the reason "Another machine was selected" and the time |
| SupervisorAgent.Rejects | ContractNet/supervisor.py:183-191 | one reject to `jobs/reject/<id>` per rejected id, in order |
| SupervisorAgent.LosersStep | ContractNet/supervisor.py:181-182 | one more bid adds its machine to the losers iff it is not the winner's machine |
| SupervisorAgent.RejectsStep | ContractNet/supervisor.py:183-191 | one more rejected id adds one reject at the end |
| SupervisorAgent.AwardPublications | ContractNet/supervisor.py:163-191 | what `_send_award` publishes: first the award, naming the winner `_select_winner` returns, then only rejects |
| SupervisorAgent.LosersCount | ContractNet/supervisor.py:180-191 | every bid is either from the winner's machine or answered by exactly one reject |
| SupervisorAgent.RejectTopicInjective | ContractNet/supervisor.py:190 | distinct machines get distinct reject topics |
| SupervisorAgent.AwardFanOut | ContractNet/supervisor.py:163-191 | closing with bids publishes exactly one award, first, to the winner; every other publication is a reject, none of them to the winner's machine; each other machine gets one reject per bid it placed |
| SupervisorAgent.RejectsAvoid | ContractNet/supervisor.py:181-190 | no reject goes to a machine outside the rejected ids |
| SupervisorAgent.Supervisor.constructor | ContractNet/supervisor.py:47-68 | no job, no bids, auction closed, all counters zero |
| SupervisorAgent.Supervisor.OnMessage | ContractNet/supervisor.py:89-122 | `bids` grows by exactly the bid `Admitted` yields, at the end, and nothing else changes |
| SupervisorAgent.Supervisor.GenerateJob | ContractNet/supervisor.py:124-137 | returns `NewJob` and counts one more created job |
| SupervisorAgent.Supervisor.SendCfp | ContractNet/supervisor.py:139-153 | publishes one CFP for the job, with the supervisor's deadline, on `jobs/cfp` |
| SupervisorAgent.Supervisor.OpenAuction | ContractNet/supervisor.py:195-200 | a new auction starts with the job, an empty bid list and the flag set, and sends its CFP |
| SupervisorAgent.Supervisor.StartAuction | ContractNet/supervisor.py:231-234 | generate a job and open its auction; the invariant (open iff there is a job, and allocated + failed + open == created) is kept |
| SupervisorAgent.Supervisor.SendAward | ContractNet/supervisor.py:163-191 | publishes the award, then one reject per bid from another machine, in bid order |
| SupervisorAgent.Supervisor.CloseAuction | ContractNet/supervisor.py:205-219 | the auction is closed and the job forgotten; with bids, the award and rejects are published and the job counts as allocated; without bids, nothing is published and it counts as failed |
| SupervisorAgent.Supervisor.RunAuction | ContractNet/supervisor.py:193-219 | one whole auction: the bids are exactly those admitted from the replies; it publishes the CFP, then the award and rejects when there were bids and nothing more when there were none; one job more is created, and exactly one of allocated or failed grows; afterwards allocated + failed == created |
| MachineAgent.CfpReply | ContractNet/machine.py:87-109 | a busy machine replies "Machine is busy"; an idle machine without the job type replies "Cannot perform <type>"; an idle capable machine bids its table's duration; the reply goes to `jobs/bid/<supervisor_id>` and echoes the job id |
| MachineAgent.ExecutionTime | ContractNet/machine.py:156 | the table's duration for the job type, or 5.0 when the type is missing |
| MachineAgent.CompletionFor | ContractNet/machine.py:176-186 | the completion notice goes to `jobs/complete/<supervisor_id>` and carries the machine, the job id and type, the execution time and the time |
| MachineAgent.Machine.constructor | ContractNet/machine.py:23-44 | idle, no job, all counters zero |
| MachineAgent.Machine.OnMessage | ContractNet/machine.py:68-85 | dispatch on the message type: a CFP publishes its `CfpReply`, counts a bid iff the reply is one, and leaves busy and the job alone; an award for another machine changes nothing, and one for this machine makes it busy with the job, counts a win and starts its execution, publishing nothing; a reject only counts; anything else changes nothing |
| MachineAgent.Machine.HandleCfp | ContractNet/machine.py:87-109 | publishes exactly `CfpReply`, and `jobs_bid` grows iff that reply is a bid |
| MachineAgent.Machine.SendBid | ContractNet/machine.py:111-125 | publishes one bid on the supervisor's bid topic and counts it |
| MachineAgent.Machine.SendRejection | ContractNet/machine.py:127-138 | publishes one rejection on the supervisor's bid topic; no counter changes |
| MachineAgent.Machine.HandleAward | ContractNet/machine.py:140-162 | an award for another machine changes nothing; one for this machine makes it busy with the job, counts a win and starts an execution of `ExecutionTime`, even when already busy |
| MachineAgent.Machine.Complete | ContractNet/machine.py:164-188 | the machine becomes idle with no job, counts a completion and publishes it on `jobs/complete/<supervisor_id>` |
| MachineAgent.Machine.HandleReject | ContractNet/machine.py:190-196 | only `jobs_rejected` grows |
| Identification.ResetFor | AnomalyDetection/identification_agent.py:65-77 | the reset command goes to `commands/reset/<sensor_id>` with action "reset", reason "anomaly_detected" and the current time |
| Identification.Recent | AnomalyDetection/identification_agent.py:60 | a time is kept iff it was in the list and is less than 60 seconds old |
| Identification.RecentCount | AnomalyDetection/identification_agent.py:60-63 | every copy of a recent time is kept and every copy of an old one dropped, so repeated alerts count as often as they arrived |
| Identification.RecentAppend | AnomalyDetection/identification_agent.py:60 | the window filter works element by element, keeping order |
| Identification.RecentOfRecent | AnomalyDetection/identification_agent.py:60-61 | the stored pruning loses nothing a later check would count |
| Identification.ResetTimes | AnomalyDetection/identification_agent.py:76-79 | the reset times of one sensor, read off the published commands: each is the time of a published reset command for that sensor |
| Identification.ResetTimesAfterPublish | AnomalyDetection/identification_agent.py:76-79 | a reset of one sensor adds its time to that sensor's resets only |
| Identification.SpacedSnoc | AnomalyDetection/identification_agent.py:55-57 | a reset at least the cooldown after the last one keeps the resets spaced |
| Identification.SpacedPairwise | AnomalyDetection/identification_agent.py:55-79 | with a non-negative cooldown, any two resets of one sensor are at least the cooldown apart |
| Identification.ResetKeepsLog | AnomalyDetection/identification_agent.py:55-79 | a reset outside the cooldown keeps the invariant: only reset commands on their sensor's topic, `last_reset` holds exactly the last reset of each sensor, resets of one sensor are cooldown-spaced |
| Identification.IdentificationAgent.constructor | AnomalyDetection/identification_agent.py:19-29 | no alerts, no resets |
| Identification.IdentificationAgent.AlertsOf | AnomalyDetection/identification_agent.py:27 | the `defaultdict(list)` lookup: a sensor never seen has no alerts |
| Identification.IdentificationAgent.CoolingDown | AnomalyDetection/identification_agent.py:55-57 | a sensor is cooling down only if it was reset, less than the cooldown before now; a sensor never reset is not |
| Identification.IdentificationAgent.ShouldReset | AnomalyDetection/identification_agent.py:50-63 | during the cooldown: no, and no pruning; otherwise the sensor's alerts are pruned to the window, and the answer is yes iff at least the threshold remain |
| Identification.IdentificationAgent.SendReset | AnomalyDetection/identification_agent.py:65-84 | publishes the reset command and records its time; outside the cooldown it keeps the invariant |
| Identification.IdentificationAgent.OnMessage | AnomalyDetection/identification_agent.py:86-110 | other topics, non-JSON payloads and alerts without a sensor change nothing; an alert appends its timestamp, or the receive time when it has none; it resets the sensor iff it is out of cooldown and has at least the threshold of alerts in the window; other sensors are untouched |
| Protocol.ReplyAdmittedIffIdleAndCapable | ContractNet/supervisor.py:94-117 | a machine's reply to the CFP goes to the calling supervisor, which admits it iff the machine was idle and capable; the admitted bid carries the table's duration |
| Protocol.StaleReplyIgnored | ContractNet/supervisor.py:101-102 | a reply to a CFP for another job is never admitted |
| Protocol.AwardReachesWinner | ContractNet/machine.py:146-156 | exactly the winning machine takes the award, and runs it for its own table's duration |
| Protocol.RejectReachesLoser | ContractNet/supervisor.py:183-191 | a loser gets a "reject" for the job on its own reject topic |
| Protocol.FasterMachineWins | ContractNet/supervisor.py:155-191 | with bids of 5 s and 3 s, the 3-second machine gets the award and the other machine one reject, and nothing else is published |
| Protocol.TieGoesToFirstArrival | ContractNet/supervisor.py:160-161 | with equal proposed times, the first bid received wins even when the other has the earlier timestamp |

## Left out

- The MQTT client is left out: connecting, subscribing, publishing, `loop_start` and `json.dumps`. Publishing is modelled as an append to `outbox`, and delivery as a method call.
- `json.loads` is left out: an inbound payload is modelled as already decoded.
- Threads, `bid_lock`, `time.sleep` and the `run` loops are left out. Each callback is an atomic step. So the model does not reproduce:
  - the race between a late bid and the deadline;
  - the race between a completion and a new award.
- `time.time()`, `uuid.uuid4()` and `random.choice` become parameters: `now`, an 8-hex-digit `token`, and a `choice` index. The uniqueness of uuids is not modelled.
- Several `time.time()` readings inside one callback are modelled as a single `now`.
- Log output is left out. That includes the `zone` and `type` fields of an alert, which are only printed.
- `_on_connect`, `main`, the argument parsing and the agents' `stop` methods are left out, because they only configure the MQTT client or the process.
- The time a job's execution takes is left out: `Complete` may be called for any running execution at any time.
- SupervisorAgent.Admitted: a `machine_id` or `proposed_time` present as JSON `null` is treated like a missing key. In Python the bid would be admitted with a `None` field.
- SupervisorAgent.Admitted: a bid `timestamp` present as JSON `null` becomes the receive time. Python would store `None`; nothing reads a bid's timestamp afterwards.
- SupervisorAgent.Admitted also does not model a reply whose fields have another JSON type, or a payload that is JSON but not an object. Python would raise outside the handled exceptions there.
- SupervisorAgent.Admitted does not model the case where `current_job` is `None` while the flag is set. That can only arise in the race above.
- MachineAgent.CfpReply: a `job_type` of an unhashable JSON type is not modelled. Python would raise a TypeError there.
- Text.ParseDecimal accepts only an optional sign followed by digits with at most one point. Python's `float()` also accepts exponents, `inf`, `infinity` and `nan` in any letter case, digit underscores and non-ASCII decimal digits; the model reports those as `NotANumber`.
- Capabilities.ParseCapabilities gives `float` an exact real value. Binary floating-point rounding is not modelled.
- Identification.IdentificationAgent.OnMessage: an alert whose `timestamp` is JSON `null` is treated like one without a timestamp. Python would store `None` and then fail in `_should_reset`.
- Identification.IdentificationAgent.OnMessage: a `sensor_id` that is not a string is not modelled.
- Identification.Recent and the other durations and timestamps are exact reals, not floats.

## Where the code departs from the usual Contract Net behaviour

The model follows the code in each of these cases:

- **Ties.** A Contract Net manager would usually break ties between equal proposed times by some fixed rule, such as the earliest bid timestamp. The code uses Python's `min`, which keeps the first minimum received, whatever the timestamps (`SelectWinnerIsFirstMinimum`, `TieGoesToFirstArrival`).
- **Award while busy.** A contractor would usually refuse an award it can no longer honour. The code has no such check (ContractNet/machine.py:146-153): a second award makes the machine start a second execution (`HandleAward`). A completion then makes the machine idle even if another execution is still running.
- **Award without a bid.** `_handle_award` checks only that the award names this machine (ContractNet/machine.py:146). It does not check that the machine bid on that job id, so an award for a job it never bid on is taken as well (`HandleAward`).
- **Duplicate bids.** A machine that bid twice gets two rejects, because the code sends one reject per losing bid (`LosersAreOtherBidders`).
- **Reason strings.** The model uses the code's exact strings: "Machine is busy", "Cannot perform <type>" and "Another machine was selected".
