/**
 * The anomaly identification agent: it counts the anomaly alerts it hears
 * for each sensor and, when a sensor has had enough alerts within the last
 * minute and was not reset within the cooldown, publishes a reset command
 * to that sensor.
 *
 * The clock is the parameter `now` of each callback; the MQTT client is the
 * list `outbox` of the commands published so far.
 */
module Identification {
  import opened Base
  import opened Messages

  const AlertTopic := "alerts/anomaly"

  /** Alerts older than this many seconds no longer count towards a reset. */
  const Window: real := 60.0

  /** The topic on which a sensor listens for reset commands. */
  function ResetTopic(sensorId: string): string {
    "commands/reset/" + sensorId
  }

  /** The reset command `_send_reset` publishes for `sensorId` at `now`. */
  function ResetFor(sensorId: string, now: real): (p: Publication)
    ensures p.topic == ResetTopic(sensorId) && p.payload.ResetCommand?
    ensures p.payload.sensorId == sensorId && p.payload.timestamp == now
    ensures p.payload.action == "reset" && p.payload.reason == "anomaly_detected"
  {
    Publish(ResetTopic(sensorId), ResetCommand(sensorId, "reset", "anomaly_detected", now))
  }

  predicate IsRecent(t: real, now: real) {
    now - t < Window
  }

  /** The alert times still inside the window at `now`, in their original order. */
  function Recent(ts: seq<real>, now: real): (r: seq<real>)
    ensures |r| <= |ts|
    ensures forall t :: t in r <==> t in ts && IsRecent(t, now)
  {
    if ts == [] then []
    else (if IsRecent(ts[0], now) then [ts[0]] else []) + Recent(ts[1..], now)
  }

  /**
   * The filter keeps every copy of a recent time and no copy of an old one,
   * so the threshold test counts repeated alerts as often as they arrived.
   */
  lemma {:induction false} RecentCount(ts: seq<real>, now: real, t: real)
    ensures multiset(Recent(ts, now))[t] == if IsRecent(t, now) then multiset(ts)[t] else 0
  {
    if ts != [] {
      RecentCount(ts[1..], now, t);
      assert ts == [ts[0]] + ts[1..];
    }
  }

  /** Filtering is done element by element, so it distributes over concatenation. */
  lemma {:induction false} RecentAppend(a: seq<real>, b: seq<real>, now: real)
    ensures Recent(a + b, now) == Recent(a, now) + Recent(b, now)
  {
    if a == [] {
      assert a + b == b;
    } else {
      assert (a + b)[0] == a[0] && (a + b)[1..] == a[1..] + b;
      RecentAppend(a[1..], b, now);
    }
  }

  /**
   * Pruning the list at an earlier time and filtering it again later gives
   * the same recent alerts as filtering the unpruned list later: the
   * pruning `_should_reset` stores loses no alert a later check would count.
   */
  lemma {:induction false} RecentOfRecent(ts: seq<real>, earlier: real, later: real)
    requires earlier <= later
    ensures Recent(Recent(ts, earlier), later) == Recent(ts, later)
  {
    if ts != [] {
      var head := if IsRecent(ts[0], earlier) then [ts[0]] else [];
      RecentOfRecent(ts[1..], earlier, later);
      RecentAppend(head, Recent(ts[1..], earlier), later);
      if IsRecent(ts[0], earlier) {
        assert Recent(head, later) == (if IsRecent(ts[0], later) then [ts[0]] else []) + Recent([], later);
      } else {
        assert !IsRecent(ts[0], later);
      }
    }
  }

  predicate IsResetFor(p: Publication, sensorId: string) {
    p.payload.ResetCommand? && p.payload.sensorId == sensorId
  }

  /** `p` is a reset command for `sensorId` sent at `t`. */
  predicate IsResetAt(p: Publication, sensorId: string, t: real) {
    IsResetFor(p, sensorId) && p.payload.timestamp == t
  }

  /** The times of the reset commands for `sensorId` in `out`, in publication order. */
  function ResetTimes(out: seq<Publication>, sensorId: string): (ts: seq<real>)
    ensures |ts| <= |out|
    ensures forall t :: t in ts ==> exists k :: 0 <= k < |out| && IsResetAt(out[k], sensorId, t)
  {
    if out == [] then []
    else
      var p := out[|out| - 1];
      var init := ResetTimes(out[..|out| - 1], sensorId);
      assert forall t :: t in init ==> exists k :: 0 <= k < |out| && IsResetAt(out[k], sensorId, t) by {
        forall t | t in init ensures exists k :: 0 <= k < |out| && IsResetAt(out[k], sensorId, t) {
          var k :| 0 <= k < |out| - 1 && IsResetAt(out[..|out| - 1][k], sensorId, t);
          assert out[k] == out[..|out| - 1][k];
        }
      }
      init + (if IsResetFor(p, sensorId) then [p.payload.timestamp] else [])
  }

  /** Publishing a reset command for `s` at `now` adds `now` to the reset times of `s` only. */
  lemma ResetTimesAfterPublish(out: seq<Publication>, s: string, now: real, other: string)
    ensures ResetTimes(out + [ResetFor(s, now)], other)
            == ResetTimes(out, other) + (if other == s then [now] else [])
  {
    assert (out + [ResetFor(s, now)])[..|out|] == out;
  }

  /** Consecutive times are at least `gap` apart. */
  predicate Spaced(ts: seq<real>, gap: real) {
    forall i :: 0 < i < |ts| ==> ts[i] - ts[i - 1] >= gap
  }

  /** Appending a time at least `gap` after the last one keeps a list spaced. */
  lemma SpacedSnoc(ts: seq<real>, gap: real, t: real)
    requires Spaced(ts, gap)
    requires ts != [] ==> t - ts[|ts| - 1] >= gap
    ensures Spaced(ts + [t], gap)
  {
    var r := ts + [t];
    forall i | 0 < i < |r| ensures r[i] - r[i - 1] >= gap {
      if i < |ts| {
        assert r[i] == ts[i] && r[i - 1] == ts[i - 1];
      }
    }
  }

  /**
   * With a non-negative cooldown, any two reset times of one sensor are at
   * least the cooldown apart, not only consecutive ones.
   */
  lemma {:induction false} SpacedPairwise(ts: seq<real>, gap: real, i: nat, j: nat)
    requires Spaced(ts, gap) && gap >= 0.0
    requires i < j < |ts|
    ensures ts[j] - ts[i] >= gap
    decreases j - i
  {
    if i + 1 < j {
      SpacedPairwise(ts, gap, i + 1, j);
      assert ts[i + 1] - ts[i] >= gap;
    }
  }

  /**
   * The outbox holds reset commands only, each on its sensor's topic;
   * `last` records exactly the sensors that were reset, with the time of
   * the last command; and the commands to one sensor are at least `gap`
   * apart.
   */
  ghost predicate ResetLog(out: seq<Publication>, last: map<string, real>, gap: real) {
    (forall k :: 0 <= k < |out| ==>
       out[k].payload.ResetCommand? && out[k].topic == ResetTopic(out[k].payload.sensorId)) &&
    (forall s :: s in last <==> ResetTimes(out, s) != []) &&
    (forall s :: s in last ==> last[s] == ResetTimes(out, s)[|ResetTimes(out, s)| - 1]) &&
    (forall s :: Spaced(ResetTimes(out, s), gap))
  }

  /**
   * Sending a reset to a sensor outside its cooldown keeps the log
   * consistent: in particular no two commands to one sensor are ever less
   * than the cooldown apart.
   */
  lemma ResetKeepsLog(out: seq<Publication>, last: map<string, real>, gap: real, s: string, now: real)
    requires ResetLog(out, last, gap)
    requires s in last ==> now - last[s] >= gap
    ensures ResetLog(out + [ResetFor(s, now)], last[s := now], gap)
  {
    var out' := out + [ResetFor(s, now)];
    var last' := last[s := now];
    forall k | 0 <= k < |out'|
      ensures out'[k].payload.ResetCommand? && out'[k].topic == ResetTopic(out'[k].payload.sensorId)
    {
      if k < |out| {
        assert out'[k] == out[k];
      }
    }
    forall t
      ensures (t in last' <==> ResetTimes(out', t) != [])
      ensures t in last' ==> last'[t] == ResetTimes(out', t)[|ResetTimes(out', t)| - 1]
      ensures Spaced(ResetTimes(out', t), gap)
    {
      ResetTimesAfterPublish(out, s, now, t);
      if t == s {
        SpacedSnoc(ResetTimes(out, t), gap, now);
      }
    }
  }

  class IdentificationAgent {
    const alertThreshold: int
    const cooldown: real
    /** `alert_counts`: the alert times recorded for each sensor. */
    var alertCounts: map<string, seq<real>>
    /** `last_reset`: the time of the last reset command sent to each sensor. */
    var lastReset: map<string, real>
    var outbox: seq<Publication>

    ghost predicate Valid()
      reads this
    {
      ResetLog(outbox, lastReset, cooldown)
    }

    constructor (alertThreshold: int, cooldown: real)
      ensures Valid()
      ensures this.alertThreshold == alertThreshold && this.cooldown == cooldown
      ensures alertCounts == map[] && lastReset == map[] && outbox == []
    {
      this.alertThreshold := alertThreshold;
      this.cooldown := cooldown;
      alertCounts := map[];
      lastReset := map[];
      outbox := [];
    }

    /** `self.alert_counts[sensor_id]`: a sensor never seen has no alerts. */
    function AlertsOf(s: string): (ts: seq<real>)
      reads this
      ensures s !in alertCounts ==> ts == []
      ensures s in alertCounts ==> ts == alertCounts[s]
    {
      if s in alertCounts then alertCounts[s] else []
    }

    /** The sensor was reset less than the cooldown before `now`. */
    predicate CoolingDown(s: string, now: real)
      reads this
      ensures CoolingDown(s, now) ==> s in lastReset && lastReset[s] > now - cooldown
      ensures s !in lastReset ==> !CoolingDown(s, now)
    {
      s in lastReset && now - lastReset[s] < cooldown
    }

    /**
     * `_should_reset`: during the cooldown the answer is no and nothing is
     * pruned; otherwise the sensor's alerts are pruned to the window and the
     * answer is whether at least the threshold of them remain.
     */
    method ShouldReset(s: string, now: real) returns (reset: bool)
      modifies this`alertCounts
      ensures CoolingDown(s, now) ==> !reset && alertCounts == old(alertCounts)
      ensures !CoolingDown(s, now) ==>
        alertCounts == old(alertCounts)[s := Recent(old(AlertsOf(s)), now)] &&
        (reset <==> |Recent(old(AlertsOf(s)), now)| >= alertThreshold)
    {
      if s in lastReset && now - lastReset[s] < cooldown {
        return false;
      }
      var recent := Recent(AlertsOf(s), now);
      alertCounts := alertCounts[s := recent];
      reset := |recent| >= alertThreshold;
    }

    /** `_send_reset`: publish a reset command to the sensor and remember when. */
    method SendReset(s: string, now: real)
      modifies this`lastReset, this`outbox
      ensures outbox == old(outbox) + [ResetFor(s, now)]
      ensures lastReset == old(lastReset)[s := now]
      ensures old(Valid()) && !old(CoolingDown(s, now)) ==> Valid()
    {
      if old(Valid()) && !CoolingDown(s, now) {
        ResetKeepsLog(outbox, lastReset, cooldown, s, now);
      }
      outbox := outbox + [ResetFor(s, now)];
      lastReset := lastReset[s := now];
    }

    /**
     * `_on_message`: an alert on the anomaly topic naming a sensor is
     * recorded with its own timestamp (or `now` when it has none); then, if
     * the sensor is due, a reset command is sent. Anything else is ignored.
     */
    method OnMessage(topic: string, m: Inbound, now: real)
      requires Valid()
      modifies this`alertCounts, this`lastReset, this`outbox
      ensures Valid()
      ensures topic != AlertTopic || m.Malformed? || m.fields.sensorId.None? || m.fields.sensorId.value == "" ==>
        alertCounts == old(alertCounts) && lastReset == old(lastReset) && outbox == old(outbox)
      ensures topic == AlertTopic && m.Decoded? && m.fields.sensorId.Some? && m.fields.sensorId.value != "" ==>
        var s := m.fields.sensorId.value;
        var alerts := old(AlertsOf(s)) + [m.fields.timestamp.GetOr(now)];
        var due := !old(CoolingDown(s, now)) && |Recent(alerts, now)| >= alertThreshold;
        (alertCounts == old(alertCounts)[s := if old(CoolingDown(s, now)) then alerts else Recent(alerts, now)]) &&
        (due ==> outbox == old(outbox) + [ResetFor(s, now)] && lastReset == old(lastReset)[s := now]) &&
        (!due ==> outbox == old(outbox) && lastReset == old(lastReset))
    {
      if topic != AlertTopic || m.Malformed? {
        return;
      }
      var sensorId := m.fields.sensorId;
      if sensorId.None? || sensorId.value == "" {
        return;
      }
      var s := sensorId.value;
      var timestamp := m.fields.timestamp.GetOr(now);
      ghost var alerts := AlertsOf(s) + [timestamp];
      ghost var cooling := CoolingDown(s, now);
      alertCounts := alertCounts[s := AlertsOf(s) + [timestamp]];
      assert AlertsOf(s) == alerts && CoolingDown(s, now) == cooling;
      var reset := ShouldReset(s, now);
      assert reset <==> !cooling && |Recent(alerts, now)| >= alertThreshold;
      if reset {
        SendReset(s, now);
      }
    }
  }
}
