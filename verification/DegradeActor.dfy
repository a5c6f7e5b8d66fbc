/** The degrade controller as the objects it is: one state per path, updated in place, and the registry
    that keeps the states (internal/degrade/degrade.go, manager.go). */
module DegradeActor {
  import opened Wrappers
  import opened GoArith
  import opened Degrade
  import opened DegradeRuns

  class PathState {
    var maxLayers: nat
    var layers: nat
    var bitratePercent: nat
    var haveLastCum: bool
    var lastUnrecov: nat
    var lastTotal: nat
    var goodSince: Option<int>
    var lastSampleAt: Option<int>
    var degradeCooldownUntil: Option<int>
    var lastAlertTime: Option<int>
    var alerts: nat

    ghost function View(): State
      reads this
    {
      State(Ladder(maxLayers, layers, bitratePercent), Counters(haveLastCum, lastUnrecov, lastTotal),
            Timers(goodSince, lastSampleAt, degradeCooldownUntil), lastAlertTime)
    }

    constructor ()
      ensures View() == Fresh && alerts == 0
    {
      maxLayers, layers, bitratePercent := 0, 0, 100;
      haveLastCum, lastUnrecov, lastTotal := false, 0, 0;
      goodSince, lastSampleAt, degradeCooldownUntil, lastAlertTime := None, None, None, None;
      alerts := 0;
    }

    method ObserveSessionLayerCount(realLayers: int)
      modifies this`maxLayers, this`layers, this`bitratePercent
      ensures View() == old(View()).(ladder := Observe(old(View()).ladder, realLayers))
      ensures forall t :: View() == Step(old(View()), Session(realLayers), t).state
    {
      if realLayers <= 0 {
        return;
      }
      if realLayers > maxLayers {
        maxLayers := realLayers;
        layers := realLayers;
        bitratePercent := 100;
      }
    }

    /** `Sample`: the two locked sections of the source, one after the other. */
    method TakeSample(cumUnrecov: nat, cumTotal: nat, now: int, t: Thresholds) returns (action: Action)
      modifies this
      ensures var o := Step(old(View()), Reading(cumUnrecov, cumTotal, now), t);
              View() == o.state && action == o.action && alerts == old(alerts) + (if o.alert then 1 else 0)
    {
      if !haveLastCum || cumUnrecov < lastUnrecov || cumTotal < lastTotal {
        lastUnrecov, lastTotal, haveLastCum := cumUnrecov, cumTotal, true;
        return NoAction;
      }
      var unrecovDelta, totalDelta := cumUnrecov - lastUnrecov, cumTotal - lastTotal;
      lastUnrecov, lastTotal := cumUnrecov, cumTotal;
      action := RecordSample(unrecovDelta, totalDelta, now, t);
    }

    method RecordSample(unrecovDelta: nat, totalDelta: nat, now: int, t: Thresholds) returns (action: Action)
      modifies this
      ensures var o := Record(old(View()), Sample(unrecovDelta, totalDelta, now), t);
              View() == o.state && action == o.action && alerts == old(alerts) + (if o.alert then 1 else 0)
    {
      NoteArrival(now);
      hide Arrive;
      var ulr := LossRate(unrecovDelta, totalDelta, now);
      hide Loss;
      var observation := t.observationSec * SECOND;
      action := NoAction;
      if ulr > t.raisePct {
        goodSince := None;
        if degradeCooldownUntil.None? || now >= degradeCooldownUntil.value {
          var restarted := StepDown(now, t.restartPct <= 0.0 || ulr > t.restartPct);
          degradeCooldownUntil := Some(now + observation);
          action := if restarted then RestartAction else DegradeAction;
        }
      } else if ulr <= t.lowerPct {
        degradeCooldownUntil := None;
        if goodSince.None? {
          goodSince := Some(now);
        } else if now - goodSince.value >= observation {
          StepUp();
          goodSince := Some(now);
          action := RecoverAction;
        }
      }
    }

    /** A long silence resets the observation timers. */
    method NoteArrival(now: int)
      modifies this`goodSince, this`degradeCooldownUntil, this`lastSampleAt
      ensures View() == old(View()).(timers := Arrive(old(View()).timers, now))
    {
      if lastSampleAt.Some? && now - lastSampleAt.value > STALE_GAP {
        goodSince, degradeCooldownUntil := None, None;
      }
      lastSampleAt := Some(now);
    }

    method LossRate(unrecovDelta: nat, totalDelta: nat, now: int) returns (ulr: real)
      ensures ulr == Loss(Sample(unrecovDelta, totalDelta, now))
    {
      ulr := 0.0;
      if totalDelta > 0 {
        ulr := unrecovDelta as real / totalDelta as real * 100.0;
      }
    }

    /** `degrade`. */
    method StepDown(now: int, allowLayer: bool) returns (restart: bool)
      modifies this`layers, this`bitratePercent, this`lastAlertTime, this`alerts
      ensures var d := DegradeLadder(old(View()).ladder, allowLayer);
              && restart == d.Cut?
              && View().ladder == (if d.Moved? || d.Cut? then d.ladder else old(View()).ladder)
              && lastAlertTime == (if d.Bottomed? && AlertDue(old(View()), now) then Some(now) else old(lastAlertTime))
              && alerts == old(alerts) + (if d.Bottomed? && AlertDue(old(View()), now) then 1 else 0)
    {
      if maxLayers == 0 {
        return false;
      }
      if bitratePercent > 60 {
        bitratePercent := bitratePercent - 20;
        return false;
      }
      if layers > 1 {
        if !allowLayer {
          return false;
        }
        layers := layers - 1;
        return true;
      }
      if lastAlertTime.None? || now - lastAlertTime.value >= ALERT_INTERVAL {
        lastAlertTime := Some(now);
        alerts := alerts + 1;
      }
      return false;
    }

    /** `recover`. */
    method StepUp()
      modifies this`layers, this`bitratePercent
      ensures View() == old(View()).(ladder := RecoverLadder(old(View()).ladder))
    {
      if layers < maxLayers {
        layers := layers + 1;
      } else if bitratePercent < 100 {
        bitratePercent := bitratePercent + 20;
      }
    }
  }

  /** One state per path name, kept for the life of the process. */
  class Registry {
    var states: map<string, PathState>

    constructor ()
      ensures states == map[]
    {
      states := map[];
    }

    /** The same object for the same name, every time; a new one starts undegraded and disturbs no
        other. */
    method GetOrCreate(path: string) returns (st: PathState)
      modifies this
      ensures states == old(states)[path := st]
      ensures path in old(states) ==> st == old(states)[path]
      ensures path !in old(states) ==> fresh(st) && st.View() == Fresh
    {
      if path in states {
        st := states[path];
        assert states == states[path := st];
      } else {
        st := new PathState();
        states := states[path := st];
      }
    }

    /** A new session is reported to the state its path already has, or to a new one. */
    method ObserveSessionLayers(path: string, realLayers: int)
      modifies this, if path in states then {states[path]} else {}
      ensures path in states && states == old(states)[path := states[path]]
      ensures path in old(states) ==> states[path] == old(states)[path]
      ensures path !in old(states) ==> fresh(states[path])
      ensures var before := if path in old(states) then old(states[path].View()) else Fresh;
              states[path].View() == before.(ladder := Observe(before.ladder, realLayers))
    {
      var st := GetOrCreate(path);
      st.ObserveSessionLayerCount(realLayers);
    }
  }
}
