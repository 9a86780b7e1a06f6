/** The stall detector at the top of dsp_accel_sdk_dispatch (sdk/src/dsp_accel_sdk.cpp). */
module Watchdog {

  const WRAP: nat := 0x1_0000_0000
  const LIMIT: nat := 10

  /** `k` is the length of the longest run of observations, at the end of the trace, that repeat the
      one before them. The first element is the heartbeat read at connect time. */
  ghost predicate IsTrailingRun(trace: seq<nat>, k: nat) {
    && k < |trace|
    && (forall i | |trace| - 1 - k <= i < |trace| :: trace[i] == trace[|trace| - 1])
    && (k + 1 < |trace| ==> trace[|trace| - 2 - k] != trace[|trace| - 1])
  }

  lemma TrailingRunIsUnique(trace: seq<nat>, k: nat, l: nat)
    requires IsTrailingRun(trace, k) && IsTrailingRun(trace, l)
    ensures k == l
  {
    assert k < l ==> |trace| - 1 - l <= |trace| - 2 - k < |trace|;
    assert l < k ==> |trace| - 1 - k <= |trace| - 2 - l < |trace|;
  }

  /** One more observation extends the run, or ends it. */
  lemma TrailingRunStep(trace: seq<nat>, k: nat, hb: nat)
    requires IsTrailingRun(trace, k)
    ensures IsTrailingRun(trace + [hb], if hb == trace[|trace| - 1] then k + 1 else 0)
  {
    var t := trace + [hb];
    if hb == trace[|trace| - 1] && k + 2 < |t| {
      assert t[|t| - 2 - (k + 1)] == trace[|trace| - 2 - k];
    }
  }

  class HeartbeatMonitor {
    var lastWorkerHeartbeat: nat
    var heartbeatStalledCount: nat
    /** Every heartbeat seen so far, the connect-time value first. */
    ghost var trace: seq<nat>
    ghost var run: nat

    ghost predicate Valid()
      reads this
    {
      && IsTrailingRun(trace, run)
      && lastWorkerHeartbeat == trace[|trace| - 1]
      && heartbeatStalledCount == run % WRAP
    }

    constructor (heartbeat: nat)
      ensures Valid() && trace == [heartbeat]
    {
      lastWorkerHeartbeat, heartbeatStalledCount := heartbeat, 0;
      trace, run := [heartbeat], 0;
    }

    /** The check made by each dispatch call that gets past the error check. The count is a uint32_t,
        so it is the length of the trailing run of unchanged heartbeats modulo 2^32. */
    method Check(currentHb: nat) returns (alive: bool)
      requires Valid()
      modifies this
      ensures Valid() && trace == old(trace) + [currentHb]
      ensures alive <==> run % WRAP <= LIMIT
      ensures currentHb != old(lastWorkerHeartbeat) ==> run == 0 && alive
    {
      if currentHb == lastWorkerHeartbeat {
        heartbeatStalledCount := (heartbeatStalledCount + 1) % WRAP;
      } else {
        lastWorkerHeartbeat := currentHb;
        heartbeatStalledCount := 0;
      }
      TrailingRunStep(trace, run, currentHb);
      trace, run := trace + [currentHb], if currentHb == old(lastWorkerHeartbeat) then run + 1 else 0;
      return heartbeatStalledCount <= LIMIT;
    }
  }

  /** What has been observed up to and including call i. */
  function Seen(connect: nat, beats: seq<nat>, i: nat): (q: seq<nat>)
    requires i < |beats|
  {
    [connect] + beats[..i + 1]
  }

  /** A dispatcher that checks once per call, over a whole trace of heartbeats: below 2^32 calls it
      refuses exactly the calls at which more than ten observations in a row were unchanged. */
  method CheckAll(connect: nat, beats: seq<nat>) returns (verdicts: seq<bool>)
    requires |beats| < WRAP
    ensures |verdicts| == |beats|
    ensures forall i, k: nat | 0 <= i < |beats| && IsTrailingRun(Seen(connect, beats, i), k) ::
              verdicts[i] <==> k <= 10
  {
    var monitor := new HeartbeatMonitor(connect);
    verdicts := [];
    for i := 0 to |beats|
      invariant fresh(monitor) && monitor.Valid() && monitor.trace == [connect] + beats[..i]
      invariant |verdicts| == i
      invariant forall j, k: nat | 0 <= j < i && IsTrailingRun(Seen(connect, beats, j), k) ::
                  verdicts[j] <==> k <= LIMIT
    {
      var alive := monitor.Check(beats[i]);
      assert monitor.trace == Seen(connect, beats, i);
      forall k: nat | IsTrailingRun(Seen(connect, beats, i), k) ensures alive <==> k <= LIMIT {
        TrailingRunIsUnique(Seen(connect, beats, i), k, monitor.run);
      }
      verdicts := verdicts + [alive];
    }
  }
}
