/** The publish-degrade controller (internal/degrade/degrade.go, manager.go): a ladder of bitrate and
    layer steps driven by loss samples, with a cooldown, a recovery window, stale-gap resets and a
    gate before the disruptive steps.

    Time is an explicit integer number of nanoseconds that never decreases; the loss rate is an exact
    real number instead of a floating-point one. */
module Degrade {
  import opened Wrappers
  import opened GoArith

  const STALE_GAP: int := 30 * SECOND
  const ALERT_INTERVAL: int := 60 * SECOND

  datatype Thresholds = Thresholds(raisePct: real, lowerPct: real, restartPct: real, observationSec: int)

  function Observation(t: Thresholds): int {
    t.observationSec * SECOND
  }

  datatype Action = NoAction | DegradeAction | RestartAction | RecoverAction

  /** How far the publish is degraded. */
  datatype Ladder = Ladder(maxLayers: nat, layers: nat, bitrate: nat)

  /** The last cumulative readings. */
  datatype Counters = Counters(known: bool, unrecov: nat, total: nat)

  /** `None` is Go's zero time. */
  datatype Timers = Timers(goodSince: Option<int>, lastSampleAt: Option<int>, cooldownUntil: Option<int>)

  datatype State = State(ladder: Ladder, counters: Counters, timers: Timers, lastAlert: Option<int>)

  const Fresh: State := State(Ladder(0, 0, 100), Counters(false, 0, 0), Timers(None, None, None), None)

  // ----- the ladder

  function Observe(l: Ladder, realLayers: int): Ladder {
    if realLayers > 0 && realLayers > l.maxLayers then Ladder(realLayers, realLayers, 100) else l
  }

  datatype DegradeStep = Moved(ladder: Ladder) | Cut(ladder: Ladder) | Held | Bottomed

  function DegradeLadder(l: Ladder, allowLayer: bool): DegradeStep {
    if l.maxLayers == 0 then Held
    else if l.bitrate > 60 then Moved(l.(bitrate := l.bitrate - 20))
    else if l.layers > 1 then if allowLayer then Cut(l.(layers := l.layers - 1)) else Held
    else Bottomed
  }

  function RecoverLadder(l: Ladder): Ladder {
    if l.layers < l.maxLayers then l.(layers := l.layers + 1)
    else if l.bitrate < 100 then l.(bitrate := l.bitrate + 20)
    else l
  }

  // ----- samples

  datatype Sample = Sample(unrecov: nat, total: nat, now: int)

  /** Unrecoverable loss rate in percent. */
  function Loss(x: Sample): real {
    if x.total > 0 then x.unrecov as real / x.total as real * 100.0 else 0.0
  }

  predicate Bad(x: Sample, t: Thresholds) {
    Loss(x) > t.raisePct
  }

  predicate Compliant(x: Sample, t: Thresholds) {
    !Bad(x, t) && Loss(x) <= t.lowerPct
  }

  predicate AllowsLayer(x: Sample, t: Thresholds) {
    t.restartPct <= 0.0 || Loss(x) > t.restartPct
  }

  predicate Stale(m: Timers, now: int) {
    m.lastSampleAt.Some? && now - m.lastSampleAt.value > STALE_GAP
  }

  datatype Verdict = Nothing | DegradeNow | RecoverNow

  function Arrive(m: Timers, now: int): Timers {
    if Stale(m, now) then Timers(None, Some(now), None) else m.(lastSampleAt := Some(now))
  }

  /** What the timers decide; the ladder plays no part in it. */
  function Decide(m: Timers, x: Sample, t: Thresholds): Verdict {
    var m1 := Arrive(m, x.now);
    if Bad(x, t) then
      if m1.cooldownUntil.None? || x.now >= m1.cooldownUntil.value then DegradeNow else Nothing
    else if Compliant(x, t) then
      if m1.goodSince.Some? && x.now - m1.goodSince.value >= Observation(t) then RecoverNow else Nothing
    else Nothing
  }

  function NextTimers(m: Timers, x: Sample, t: Thresholds): Timers {
    var m1 := Arrive(m, x.now);
    if Bad(x, t) then
      m1.(goodSince := None,
          cooldownUntil := if Decide(m, x, t).DegradeNow? then Some(x.now + Observation(t)) else m1.cooldownUntil)
    else if Compliant(x, t) then
      m1.(cooldownUntil := None,
          goodSince := if m1.goodSince.None? || Decide(m, x, t).RecoverNow? then Some(x.now) else m1.goodSince)
    else m1
  }

  datatype Outcome = Outcome(state: State, action: Action, alert: bool)

  function AlertDue(s: State, now: int): bool {
    s.lastAlert.None? || now - s.lastAlert.value >= ALERT_INTERVAL
  }

  /** `recordSample` with the deltas of one reading. */
  function Record(s: State, x: Sample, t: Thresholds): Outcome {
    var s1 := s.(timers := NextTimers(s.timers, x, t));
    match Decide(s.timers, x, t)
    case Nothing => Outcome(s1, NoAction, false)
    case RecoverNow => Outcome(s1.(ladder := RecoverLadder(s.ladder)), RecoverAction, false)
    case DegradeNow =>
      match DegradeLadder(s.ladder, AllowsLayer(x, t))
      case Moved(l) => Outcome(s1.(ladder := l), DegradeAction, false)
      case Cut(l) => Outcome(s1.(ladder := l), RestartAction, false)
      case Held => Outcome(s1, DegradeAction, false)
      case Bottomed =>
        if AlertDue(s, x.now) then Outcome(s1.(lastAlert := Some(x.now)), DegradeAction, true)
        else Outcome(s1, DegradeAction, false)
  }

  /** The first half of `Sample`: the deltas since the last reading, or nothing on a first reading or
      a counter reset. */
  function Read(c: Counters, unrecov: nat, total: nat): (Counters, Option<(nat, nat)>) {
    var c' := Counters(true, unrecov, total);
    if !c.known || unrecov < c.unrecov || total < c.total then (c', None)
    else (c', Some((unrecov - c.unrecov, total - c.total)))
  }

  // ----- rungs

  predicate OnChain(l: Ladder) {
    if l.maxLayers == 0 then l.layers == 0 && l.bitrate == 100
    else && 1 <= l.layers <= l.maxLayers
         && (l.bitrate == 60 || l.bitrate == 80 || l.bitrate == 100)
         && (l.layers < l.maxLayers ==> l.bitrate == 60)
  }

  /** The distance from the top. */
  function Rung(l: Ladder): int {
    if l.bitrate >= 100 then 0
    else if l.bitrate >= 80 then 1
    else 2 + (l.maxLayers - l.layers)
  }

  /** The lowest rung; a path whose layer count is not known yet has only the top one. */
  function Bottom(l: Ladder): nat {
    if l.maxLayers == 0 then 0 else l.maxLayers + 1
  }

  function AtRung(maxLayers: nat, r: nat): Ladder
    requires 0 < maxLayers && r <= maxLayers + 1
  {
    if r <= 2 then Ladder(maxLayers, maxLayers, 100 - 20 * r) else Ladder(maxLayers, maxLayers - (r - 2), 60)
  }

  /** The states on the chain are exactly the rungs 0 to maxLayers + 1, one state each. */
  lemma ChainIsExactlyTheRungs(l: Ladder)
    requires l.maxLayers > 0
    ensures OnChain(l) <==> exists r: nat :: r <= l.maxLayers + 1 && l == AtRung(l.maxLayers, r)
    ensures OnChain(l) ==> 0 <= Rung(l) <= Bottom(l) && l == AtRung(l.maxLayers, Rung(l))
    ensures forall r: nat | r <= l.maxLayers + 1 :: Rung(AtRung(l.maxLayers, r)) == r
  {
    if OnChain(l) {
      var r: nat := Rung(l);
      assert l == AtRung(l.maxLayers, r);
    }
  }

  /** A degrade stays on the chain and goes down one rung, or stays if it is at the bottom or the
      next rung needs a restart that is not allowed. */
  lemma DegradeGoesDownOne(l: Ladder, allowLayer: bool)
    requires OnChain(l)
    ensures match DegradeLadder(l, allowLayer)
            case Moved(l') => OnChain(l') && l'.maxLayers == l.maxLayers && Rung(l') == Rung(l) + 1 && Rung(l') <= 2
            case Cut(l') => OnChain(l') && l'.maxLayers == l.maxLayers && Rung(l') == Rung(l) + 1 && allowLayer
            case Held => l.maxLayers == 0 || (!allowLayer && Rung(l) < Bottom(l))
            case Bottomed => l.maxLayers > 0 && Rung(l) == Bottom(l)
  {
  }

  lemma RecoverGoesUpOne(l: Ladder)
    requires OnChain(l)
    ensures var l' := RecoverLadder(l);
            OnChain(l') && l'.maxLayers == l.maxLayers && Rung(l') == if Rung(l) == 0 then 0 else Rung(l) - 1
  {
  }

  /** Recovering exactly undoes a degrade that moved. */
  lemma RecoverUndoesDegrade(l: Ladder, allowLayer: bool)
    requires OnChain(l)
    ensures var d := DegradeLadder(l, allowLayer); d.Moved? || d.Cut? ==> RecoverLadder(d.ladder) == l
  {
  }

  // ----- one sample

  /** A layer is cut exactly when a restart is reported, and a restart needs the gate to be open. */
  lemma CutIffRestart(s: State, x: Sample, t: Thresholds)
    ensures Record(s, x, t).state.ladder.layers < s.ladder.layers <==> Record(s, x, t).action.RestartAction?
    ensures Record(s, x, t).action.RestartAction? ==> AllowsLayer(x, t) && Bad(x, t)
  {
  }

  lemma CooldownStarts(m: Timers, x: Sample, t: Thresholds)
    requires Decide(m, x, t).DegradeNow?
    ensures NextTimers(m, x, t).cooldownUntil == Some(x.now + Observation(t))
  {
    hide Loss;
  }

  lemma CooldownStep(m: Timers, x: Sample, t: Thresholds, bound: int)
    requires m.cooldownUntil.Some? && m.cooldownUntil.value >= bound
    requires !Stale(m, x.now) && !Compliant(x, t) && x.now + Observation(t) >= bound
    ensures NextTimers(m, x, t).cooldownUntil.Some? && NextTimers(m, x, t).cooldownUntil.value >= bound
  {
    hide Loss;
  }

  /** The recovery timer runs on: it was running, no reset, no bad sample, no recovery. */
  predicate KeepsRunning(m: Timers, x: Sample, t: Thresholds) {
    m.goodSince.Some? && !Stale(m, x.now) && !Bad(x, t) && !Decide(m, x, t).RecoverNow?
  }

  lemma RecoveryTimerStep(m: Timers, x: Sample, t: Thresholds)
    requires NextTimers(m, x, t).goodSince.Some?
    ensures !Bad(x, t)
    ensures if KeepsRunning(m, x, t) then NextTimers(m, x, t).goodSince == m.goodSince
            else Compliant(x, t) && NextTimers(m, x, t).goodSince == Some(x.now)
  {
  }
}
