/**
  The wake/sleep decision of the daemon's main loop. The hardware sets
  `state.system_active` while someone stands in front of the kiosk; the
  loop reports the kiosk active until that flag has been off for more than
  the grace period, and re-sends the reported state when it changes or
  every twenty passes. Times are milliseconds on the loop's clock.
*/
module Presence {
  import opened Wrappers

  /** `SLEEP_GRACE_PERIOD`, five seconds. */
  const GracePeriod: int := 5000
  /** Passes between two forced status messages. */
  const HeartbeatEvery: nat := 20

  /** When the flag first went off in the current quiet stretch: cleared
      while the flag is on, set on the first pass that sees it off. */
  function NextSleepStart(rawActive: bool, sleepStart: Option<int>, now: int): (r: Option<int>)
    ensures rawActive <==> r.None?
    ensures !rawActive && sleepStart.Some? ==> r == sleepStart
  {
    if rawActive then None
    else if sleepStart.None? then Some(now)
    else sleepStart
  }

  /** The reported state, given the sleep start already updated for this
      pass: active while the flag is on or the grace period has not run out. */
  function Reported(rawActive: bool, sleepStart: Option<int>, now: int): bool {
    rawActive || (sleepStart.Some? && now - sleepStart.value <= GracePeriod)
  }

  /** The loop's variables `last_active`, `sleep_start_time` and
      `heartbeat_counter`. */
  class StatusMonitor {
    var lastActive: Option<bool>
    var sleepStart: Option<int>
    var heartbeat: nat

    ghost predicate Valid()
      reads this
    {
      heartbeat < HeartbeatEvery
    }

    /** The values before the loop starts. */
    constructor()
      ensures lastActive == None && sleepStart == None && heartbeat == 0 && Valid()
    {
      lastActive := None;
      sleepStart := None;
      heartbeat := 0;
    }

    /** One pass up to the status message: `active` is the reported state
        and `emit` says whether a `system_status` message is sent. */
    method Observe(rawActive: bool, now: int) returns (active: bool, emit: bool)
      requires Valid()
      modifies this
      ensures Valid()
      ensures sleepStart == NextSleepStart(rawActive, old(sleepStart), now)
      ensures active == Reported(rawActive, sleepStart, now)
      ensures emit <==> old(lastActive) != Some(active) || old(heartbeat) + 1 >= HeartbeatEvery
      ensures emit ==> lastActive == Some(active) && heartbeat == 0
      ensures !emit ==> lastActive == old(lastActive) && heartbeat == old(heartbeat) + 1
    {
      heartbeat := heartbeat + 1;
      active := false;
      if rawActive {
        active := true;
        sleepStart := None;
      } else {
        if sleepStart.None? {
          sleepStart := Some(now);
        }
        if now - sleepStart.value > GracePeriod {
          active := false;
        } else {
          active := true;
        }
      }
      emit := false;
      if lastActive != Some(active) || heartbeat >= HeartbeatEvery {
        emit := true;
        lastActive := Some(active);
        heartbeat := 0;
      }
    }
  }

  // ---------------------------------------------------------------------
  // The grace rule over a run of passes
  // ---------------------------------------------------------------------

  /** What one pass sees: the flag and the clock. */
  datatype Sample = Sample(rawActive: bool, now: int)

  function Last(ss: seq<Sample>): Sample
    requires ss != []
  {
    ss[|ss| - 1]
  }

  function Init(ss: seq<Sample>): seq<Sample>
    requires ss != []
  {
    ss[..|ss| - 1]
  }

  /** The sleep start after a run of passes, from a given one. */
  function Replay(start: Option<int>, ss: seq<Sample>): Option<int>
    decreases |ss|
  {
    if ss == [] then start
    else NextSleepStart(Last(ss).rawActive, Replay(start, Init(ss)), Last(ss).now)
  }

  /** The first pass of the trailing stretch with the flag off. */
  function QuietStart(ss: seq<Sample>): (r: nat)
    requires ss != [] && !Last(ss).rawActive
    ensures r < |ss| && (r == 0 || ss[r - 1].rawActive)
    ensures forall j :: r <= j < |ss| ==> !ss[j].rawActive
    decreases |ss|
  {
    if |ss| == 1 || Last(Init(ss)).rawActive then |ss| - 1
    else
      var r := QuietStart(Init(ss));
      assert forall j :: r <= j < |ss| - 1 ==> ss[j] == Init(ss)[j];
      r
  }

  /** From the loop's start, the sleep start is the time of the first pass
      of the current quiet stretch, and none while the flag is on. */
  lemma {:induction false} ReplayQuiet(ss: seq<Sample>)
    ensures ss == [] || Last(ss).rawActive ==> Replay(None, ss) == None
    ensures ss != [] && !Last(ss).rawActive ==> Replay(None, ss) == Some(ss[QuietStart(ss)].now)
    decreases |ss|
  {
    if ss != [] && !Last(ss).rawActive {
      var init := Init(ss);
      ReplayQuiet(init);
      if |ss| > 1 && !Last(init).rawActive {
        assert ss[QuietStart(init)] == init[QuietStart(init)];
      }
    }
  }

  /** The kiosk is reported asleep exactly when the flag has been off for
      more than the grace period, counted from the first pass of the
      current quiet stretch; any pass with the flag on reports it awake. */
  lemma SleepRule(ss: seq<Sample>)
    requires ss != []
    ensures var last := Last(ss);
      !Reported(last.rawActive, Replay(None, ss), last.now) <==>
        !last.rawActive && last.now - ss[QuietStart(ss)].now > GracePeriod
  {
    ReplayQuiet(ss);
  }

  /** A flag that comes back on clears the timer, so the next quiet
      stretch starts the grace period afresh. */
  lemma WakeResetsTimer(start: Option<int>, ss: seq<Sample>, now: int)
    ensures Replay(start, ss + [Sample(true, now)]) == None
    ensures Replay(start, ss + [Sample(true, now), Sample(false, now + 1)]) == Some(now + 1)
  {
    var one := ss + [Sample(true, now)];
    var two := ss + [Sample(true, now), Sample(false, now + 1)];
    assert Init(one) == ss;
    assert Init(two) == one;
  }
}
