/** Whole runs of the degrade controller, over what it is really given: sessions that report their layer
    count and cumulative readings of two counters (internal/degrade/degrade.go). A reading feeds the
    controller the difference to the reading before it; the first one and one that goes backwards feed
    nothing. */
module DegradeRuns {
  import opened Wrappers
  import opened GoArith
  import opened Degrade

  datatype Event = Session(layers: int) | Reading(unrecov: nat, total: nat, now: int)

  /** The sample an event feeds, if any. */
  function FedBy(s: State, e: Event): Option<Sample> {
    match e
    case Session(_) => None
    case Reading(u, n, now) =>
      var d := Read(s.counters, u, n).1;
      if d.None? then None else Some(Sample(d.value.0, d.value.1, now))
  }

  function Step(s: State, e: Event, t: Thresholds): Outcome {
    match e
    case Session(n) => Outcome(s.(ladder := Observe(s.ladder, n)), NoAction, false)
    case Reading(u, n, _) =>
      var s1 := s.(counters := Read(s.counters, u, n).0);
      match FedBy(s, e)
      case None => Outcome(s1, NoAction, false)
      case Some(x) => Record(s1, x, t)
  }

  function After(s: State, es: seq<Event>, t: Thresholds): State {
    if es == [] then s else Step(After(s, es[..|es| - 1], t), es[|es| - 1], t).state
  }

  /** What the event at index `i` of a run does. */
  function At(s: State, es: seq<Event>, t: Thresholds, i: nat): Outcome
    requires i < |es|
  {
    Step(After(s, es[..i], t), es[i], t)
  }

  function FedAt(s: State, es: seq<Event>, t: Thresholds, i: nat): (x: Option<Sample>)
    requires i < |es|
    ensures x.Some? ==> es[i].Reading? && x.value.now == es[i].now
  {
    FedBy(After(s, es[..i], t), es[i])
  }

  lemma AfterNext(s: State, es: seq<Event>, t: Thresholds, i: nat)
    requires i < |es|
    ensures After(s, es[..i + 1], t) == At(s, es, t, i).state
  {
    assert es[..i + 1][..i] == es[..i];
  }

  /** Shorter runs do the same. */
  lemma PrefixDoesTheSame(s: State, es: seq<Event>, t: Thresholds, i: nat)
    requires i < |es| - 1
    ensures At(s, es[..|es| - 1], t, i) == At(s, es, t, i)
    ensures FedAt(s, es[..|es| - 1], t, i) == FedAt(s, es, t, i)
  {
    assert es[..|es| - 1][..i] == es[..i];
  }

  // ----- the ladder

  lemma StepStaysOnChain(s: State, e: Event, t: Thresholds)
    requires OnChain(s.ladder)
    ensures OnChain(Step(s, e, t).state.ladder)
    ensures e.Reading? ==> Step(s, e, t).state.ladder.maxLayers == s.ladder.maxLayers
                           && -1 <= Rung(Step(s, e, t).state.ladder) - Rung(s.ladder) <= 1
  {
    if FedBy(s, e).Some? {
      DegradeGoesDownOne(s.ladder, AllowsLayer(FedBy(s, e).value, t));
      RecoverGoesUpOne(s.ladder);
    }
  }

  /** Every state of every run is on the chain. */
  lemma {:induction false} RunStaysOnChain(s: State, es: seq<Event>, t: Thresholds)
    requires OnChain(s.ladder)
    ensures OnChain(After(s, es, t).ladder)
  {
    if es != [] {
      RunStaysOnChain(s, es[..|es| - 1], t);
      StepStaysOnChain(After(s, es[..|es| - 1], t), es[|es| - 1], t);
    }
  }

  /** A layer is lost exactly at a restart, and a restart needs a sample above an open gate. */
  lemma LayerIsLostIffRestart(s: State, es: seq<Event>, t: Thresholds, i: nat)
    requires i < |es| && OnChain(s.ladder)
    ensures At(s, es, t, i).state.ladder.layers < After(s, es[..i], t).ladder.layers
            <==> At(s, es, t, i).action.RestartAction?
    ensures At(s, es, t, i).action.RestartAction? ==>
              FedAt(s, es, t, i).Some? && AllowsLayer(FedAt(s, es, t, i).value, t) && Bad(FedAt(s, es, t, i).value, t)
  {
    hide Loss;
    RunStaysOnChain(s, es[..i], t);
    var m := After(s, es[..i], t);
    if FedAt(s, es, t, i).Some? {
      CutIffRestart(m.(counters := Read(m.counters, es[i].unrecov, es[i].total).0), FedAt(s, es, t, i).value, t);
    }
  }

  /** A run that never exceeds a positive gate never restarts and never loses a layer. */
  lemma {:induction false} GateHolds(s: State, es: seq<Event>, t: Thresholds)
    requires OnChain(s.ladder) && t.restartPct > 0.0
    requires forall i: nat | i < |es| && FedAt(s, es, t, i).Some? :: Loss(FedAt(s, es, t, i).value) <= t.restartPct
    ensures forall i: nat | i < |es| :: !At(s, es, t, i).action.RestartAction?
    ensures After(s, es, t).ladder.layers >= s.ladder.layers
  {
    if es != [] {
      var p, n := es[..|es| - 1], |es| - 1;
      forall i: nat | i < n ensures At(s, p, t, i) == At(s, es, t, i) && FedAt(s, p, t, i) == FedAt(s, es, t, i) {
        PrefixDoesTheSame(s, es, t, i);
      }
      GateHolds(s, p, t);
      LayerIsLostIffRestart(s, es, t, n);
      hide Loss, Step;
    }
  }

  // ----- alerts

  predicate Chronological(es: seq<Event>) {
    forall i, j | 0 <= i < j < |es| && es[i].Reading? && es[j].Reading? :: es[i].now <= es[j].now
  }

  /** An alert is raised only at the bottom, for a sample that is still bad, and moves nothing. */
  lemma AlertOnlyAtBottom(s: State, es: seq<Event>, t: Thresholds, i: nat)
    requires OnChain(s.ladder) && i < |es| && At(s, es, t, i).alert
    ensures var l := After(s, es[..i], t).ladder;
            l.maxLayers > 0 && Rung(l) == Bottom(l) && At(s, es, t, i).state.ladder == l
    ensures FedAt(s, es, t, i).Some? && Bad(FedAt(s, es, t, i).value, t)
    ensures At(s, es, t, i).state.lastAlert == Some(es[i].now)
  {
    RunStaysOnChain(s, es[..i], t);
    DegradeGoesDownOne(After(s, es[..i], t).ladder, AllowsLayer(FedAt(s, es, t, i).value, t));
  }

  lemma {:induction false} LastAlertIsRemembered(s: State, es: seq<Event>, t: Thresholds, i: nat, n: nat)
    requires i < n <= |es| && Chronological(es) && At(s, es, t, i).alert
    ensures es[i].Reading? && After(s, es[..n], t).lastAlert.Some?
            && After(s, es[..n], t).lastAlert.value >= es[i].now
  {
    hide Step, Chronological;
    AfterNext(s, es, t, n - 1);
    StepOnAlerts(After(s, es[..n - 1], t), es[n - 1], t);
    if n > i + 1 {
      LastAlertIsRemembered(s, es, t, i, n - 1);
      if es[n - 1].Reading? {
        InTimeOrder(es, i, n - 1);
      }
    }
  }

  lemma InTimeOrder(es: seq<Event>, i: nat, j: nat)
    requires i < j < |es| && Chronological(es) && es[i].Reading? && es[j].Reading?
    ensures es[i].now <= es[j].now
  {
  }

  lemma StepOnAlerts(s: State, e: Event, t: Thresholds)
    ensures Step(s, e, t).alert ==> e.Reading?
    ensures Step(s, e, t).state.lastAlert == if Step(s, e, t).alert then Some(e.now) else s.lastAlert
  {
    hide NextTimers, Decide;
  }

  /** Two alerts of a run are at least sixty seconds apart. */
  lemma AlertsAreApart(s: State, es: seq<Event>, t: Thresholds, i: nat, j: nat)
    requires i < j < |es| && Chronological(es) && At(s, es, t, i).alert && At(s, es, t, j).alert
    ensures es[i].Reading? && es[j].Reading? && es[j].now - es[i].now >= ALERT_INTERVAL
  {
    LastAlertIsRemembered(s, es, t, i, j);
  }

  // ----- timers

  predicate Degrades(a: Action) {
    a.DegradeAction? || a.RestartAction?
  }

  /** Sessions and readings that feed nothing leave the timers alone; a fed sample moves them, and they
      alone decide whether to degrade or recover. */
  lemma StepOnTimers(s: State, e: Event, t: Thresholds)
    ensures FedBy(s, e).None? ==> Step(s, e, t).state.timers == s.timers && Step(s, e, t).action.NoAction?
    ensures FedBy(s, e).Some? ==>
              && Step(s, e, t).state.timers == NextTimers(s.timers, FedBy(s, e).value, t)
              && (Degrades(Step(s, e, t).action) <==> Decide(s.timers, FedBy(s, e).value, t).DegradeNow?)
              && (Step(s, e, t).action.RecoverAction? <==> Decide(s.timers, FedBy(s, e).value, t).RecoverNow?)
  {
    hide NextTimers, Decide;
  }

  /** The last reading before index `k` that fed a sample. */
  function LastFed(s: State, es: seq<Event>, t: Thresholds, k: nat): (r: Option<nat>)
    requires k <= |es|
    ensures r.Some? ==> r.value < k && FedAt(s, es, t, r.value).Some?
    ensures forall i: nat | i < k && FedAt(s, es, t, i).Some? :: r.Some? && i <= r.value
  {
    if k == 0 then None
    else if FedAt(s, es, t, k - 1).Some? then Some(k - 1)
    else LastFed(s, es, t, k - 1)
  }

  /** More than the stale gap passed since the last reading that fed a sample. Readings that fed nothing
      do not count as a sign of life. */
  predicate StaleAt(s: State, es: seq<Event>, t: Thresholds, k: nat)
    requires k < |es|
  {
    FedAt(s, es, t, k).Some? && LastFed(s, es, t, k).Some? && es[k].now - es[LastFed(s, es, t, k).value].now > STALE_GAP
  }

  lemma {:induction false} LastSampleIsRemembered(s: State, es: seq<Event>, t: Thresholds, k: nat)
    requires k <= |es|
    ensures After(s, es[..k], t).timers.lastSampleAt
         == match LastFed(s, es, t, k) case None => s.timers.lastSampleAt case Some(i) => Some(es[i].now)
  {
    hide Step, NextTimers, Decide, FedBy;
    if k > 0 {
      LastSampleIsRemembered(s, es, t, k - 1);
      AfterNext(s, es, t, k - 1);
      var m, x := After(s, es[..k - 1], t), FedAt(s, es, t, k - 1);
      StepOnTimers(m, es[k - 1], t);
      if x.Some? {
        SampleTimeIsNoted(m.timers, x.value, t);
      }
    }
  }

  lemma SampleTimeIsNoted(m: Timers, x: Sample, t: Thresholds)
    ensures NextTimers(m, x, t).lastSampleAt == Some(x.now)
  {
    hide Loss, Decide;
  }

  /** After a fed reading the controller's stale test is the gap between readings. */
  lemma StaleIsAGap(s: State, es: seq<Event>, t: Thresholds, i: nat, k: nat)
    requires i < k < |es| && FedAt(s, es, t, i).Some? && FedAt(s, es, t, k).Some?
    ensures Stale(After(s, es[..k], t).timers, es[k].now) <==> StaleAt(s, es, t, k)
  {
    LastSampleIsRemembered(s, es, t, k);
  }

  // ----- spacing of degrades

  /** Between `i` and `n` nothing ends the cooldown: no compliant sample, no stale gap. */
  predicate NoRelief(s: State, es: seq<Event>, t: Thresholds, i: nat, n: nat)
    requires n <= |es|
  {
    forall k: nat | i < k < n && FedAt(s, es, t, k).Some? ::
      !Compliant(FedAt(s, es, t, k).value, t) && !StaleAt(s, es, t, k)
  }

  lemma {:induction false} CooldownLasts(s: State, es: seq<Event>, t: Thresholds, i: nat, n: nat)
    requires i < n <= |es| && Chronological(es) && Degrades(At(s, es, t, i).action) && NoRelief(s, es, t, i, n)
    ensures FedAt(s, es, t, i).Some?
    ensures var c := After(s, es[..n], t).timers.cooldownUntil;
            c.Some? && c.value >= es[i].now + Observation(t)
  {
    hide NextTimers, Decide, Step, Stale, Compliant;
    var before, e := After(s, es[..n - 1], t), es[n - 1];
    AfterNext(s, es, t, n - 1);
    StepOnTimers(before, e, t);
    if n == i + 1 {
      CooldownStarts(before.timers, FedAt(s, es, t, i).value, t);
    } else {
      CooldownLasts(s, es, t, i, n - 1);
      if FedAt(s, es, t, n - 1).Some? {
        StaleIsAGap(s, es, t, i, n - 1);
        CooldownStep(before.timers, FedAt(s, es, t, n - 1).value, t, es[i].now + Observation(t));
      }
    }
  }

  /** Two degrades with no compliant sample and no stale gap between them are at least the observation
      period apart, whatever sessions and counter resets come in between. */
  lemma DegradesAreApart(s: State, es: seq<Event>, t: Thresholds, i: nat, j: nat)
    requires i < j < |es| && Chronological(es)
    requires Degrades(At(s, es, t, i).action) && Degrades(At(s, es, t, j).action)
    requires NoRelief(s, es, t, i, j) && !StaleAt(s, es, t, j)
    ensures es[i].Reading? && es[j].Reading? && es[j].now - es[i].now >= Observation(t)
  {
    hide Step, NextTimers;
    CooldownLasts(s, es, t, i, j);
    StepOnTimers(After(s, es[..j], t), es[j], t);
    StaleIsAGap(s, es, t, i, j);
    hide Loss;
  }

  // ----- recovery windows

  /** From the compliant sample fed at `i` on, up to `n`: no bad sample, no stale gap, no recovery. */
  predicate GoodWindow(s: State, es: seq<Event>, t: Thresholds, i: nat, n: nat)
    requires n <= |es|
  {
    && i < n && FedAt(s, es, t, i).Some? && Compliant(FedAt(s, es, t, i).value, t)
    && (forall k: nat | i < k < n && FedAt(s, es, t, k).Some? ::
          !Bad(FedAt(s, es, t, k).value, t) && !StaleAt(s, es, t, k))
    && (forall k: nat | i < k < n :: !At(s, es, t, k).action.RecoverAction?)
  }

  lemma GoodWindowGrows(s: State, es: seq<Event>, t: Thresholds, i: nat, n: nat)
    requires n < |es| && GoodWindow(s, es, t, i, n) && !At(s, es, t, n).action.RecoverAction?
    requires FedAt(s, es, t, n).Some? ==> !Bad(FedAt(s, es, t, n).value, t) && !StaleAt(s, es, t, n)
    ensures GoodWindow(s, es, t, i, n + 1)
  {
    hide At, FedAt, Bad, Compliant, StaleAt;
  }

  lemma GoodWindowOpens(s: State, es: seq<Event>, t: Thresholds, i: nat)
    requires i < |es| && FedAt(s, es, t, i).Some? && Compliant(FedAt(s, es, t, i).value, t)
    ensures GoodWindow(s, es, t, i, i + 1)
  {
    hide At, FedAt, Bad, Compliant, StaleAt;
  }

  lemma {:induction false} GoodSinceIsAWindow(s: State, es: seq<Event>, t: Thresholds, n: nat) returns (i: nat)
    requires n <= |es| && s.timers.goodSince.None? && After(s, es[..n], t).timers.goodSince.Some?
    ensures GoodWindow(s, es, t, i, n) && After(s, es[..n], t).timers.goodSince == Some(es[i].now)
  {
    assert n > 0;
    hide NextTimers, Decide, Loss, Step, Stale, Bad, Compliant, GoodWindow, StaleAt, FedBy, LastFed;
    var m, e := n - 1, es[n - 1];
    var before := After(s, es[..m], t);
    AfterNext(s, es, t, m);
    StepOnTimers(before, e, t);
    var x := FedAt(s, es, t, m);
    if x.None? {
      i := GoodSinceIsAWindow(s, es, t, m);
      GoodWindowGrows(s, es, t, i, m);
    } else {
      RecoveryTimerStep(before.timers, x.value, t);
      if KeepsRunning(before.timers, x.value, t) {
        i := GoodSinceIsAWindow(s, es, t, m);
        GoodWindowStarts(s, es, t, i, m);
        StaleIsAGap(s, es, t, i, m);
        GoodWindowGrows(s, es, t, i, m);
      } else {
        i := m;
        GoodWindowOpens(s, es, t, m);
      }
    }
  }

  lemma GoodWindowStarts(s: State, es: seq<Event>, t: Thresholds, i: nat, n: nat)
    requires n <= |es| && GoodWindow(s, es, t, i, n)
    ensures i < n && FedAt(s, es, t, i).Some?
  {
  }

  lemma RecoveryNeedsTimer(m: Timers, x: Sample, t: Thresholds)
    requires Decide(m, x, t).RecoverNow?
    ensures m.goodSince.Some? && !Stale(m, x.now) && Compliant(x, t) && x.now - m.goodSince.value >= Observation(t)
  {
    hide Loss;
  }

  /** Every recovery closes a window at least as long as the observation period, opened by a compliant
      sample, with no bad sample, no stale gap and no other recovery in it. */
  lemma RecoveryClosesAWindow(s: State, es: seq<Event>, t: Thresholds, j: nat) returns (i: nat)
    requires j < |es| && s.timers.goodSince.None? && At(s, es, t, j).action.RecoverAction?
    ensures i < j && GoodWindow(s, es, t, i, j)
    ensures FedAt(s, es, t, j).Some? && Compliant(FedAt(s, es, t, j).value, t) && !StaleAt(s, es, t, j)
    ensures es[j].now - es[i].now >= Observation(t)
  {
    hide NextTimers, Decide, Loss, Step, Stale, Compliant;
    StepOnTimers(After(s, es[..j], t), es[j], t);
    RecoveryNeedsTimer(After(s, es[..j], t).timers, FedAt(s, es, t, j).value, t);
    i := GoodSinceIsAWindow(s, es, t, j);
    StaleIsAGap(s, es, t, i, j);
  }

  // ----- reconnects

  /** A session with no more layers than already seen, or a reading that feeds nothing: the first one, or
      one in which a counter went backwards. */
  predicate Neutral(s: State, e: Event) {
    match e
    case Session(n) => n <= s.ladder.maxLayers
    case Reading(u, n, _) => !s.counters.known || u < s.counters.unrecov || n < s.counters.total
  }

  lemma NeutralFeedsNothing(s: State, e: Event, t: Thresholds)
    requires Neutral(s, e)
    ensures FedBy(s, e).None? && Step(s, e, t).action.NoAction? && !Step(s, e, t).alert
    ensures Step(s, e, t).state.(counters := s.counters) == s
  {
  }

  /** Any mix of such sessions and counter resets leaves ladder, timers and alerts as they were and does
      nothing. */
  lemma {:induction false} ReconnectsAreNeutral(s: State, es: seq<Event>, t: Thresholds)
    requires forall i: nat | i < |es| :: Neutral(After(s, es[..i], t), es[i])
    ensures After(s, es, t).(counters := s.counters) == s
    ensures forall i: nat | i < |es| :: At(s, es, t, i).action.NoAction? && !At(s, es, t, i).alert
  {
    if es != [] {
      var p, n := es[..|es| - 1], |es| - 1;
      forall i: nat | i < n ensures Neutral(After(s, p[..i], t), p[i]) && At(s, p, t, i) == At(s, es, t, i) {
        assert p[..i] == es[..i];
        PrefixDoesTheSame(s, es, t, i);
      }
      ReconnectsAreNeutral(s, p, t);
      NeutralFeedsNothing(After(s, p, t), es[n], t);
    }
  }

  /** The sums of all deltas a run feeds. */
  function FedSum(s: State, es: seq<Event>, t: Thresholds): (nat, nat) {
    if es == [] then (0, 0)
    else
      var before := FedSum(s, es[..|es| - 1], t);
      match FedAt(s, es, t, |es| - 1)
      case None => before
      case Some(x) => (before.0 + x.unrecov, before.1 + x.total)
  }

  /** No reading goes backwards. */
  predicate NoReset(es: seq<Event>) {
    forall i, j | 0 <= i < j < |es| && es[i].Reading? && es[j].Reading? ::
      es[i].unrecov <= es[j].unrecov && es[i].total <= es[j].total
  }

  /** The last reading of a run. */
  function LastReading(es: seq<Event>): (e: Event)
    requires es != [] && es[0].Reading?
    ensures e.Reading? && e in es
  {
    if es[|es| - 1].Reading? then es[|es| - 1] else LastReading(es[..|es| - 1])
  }

  /** From a first reading or a reset on, until the next reset, what is fed adds up to the last reading
      minus the first, whatever sessions come in between, and no delta is negative. */
  lemma {:induction false} DeltasTelescope(s: State, es: seq<Event>, t: Thresholds)
    requires es != [] && es[0].Reading? && Neutral(s, es[0]) && NoReset(es)
    ensures var last := LastReading(es);
            && After(s, es, t).counters == Counters(true, last.unrecov, last.total)
            && FedSum(s, es, t) == (last.unrecov - es[0].unrecov, last.total - es[0].total)
  {
    hide Step, NoReset, FedAt, FedSum;
    var p, n := es[..|es| - 1], |es| - 1;
    StepOnCounters(After(s, p, t), es[n], t);
    FedSumNext(s, es, t);
    if n == 0 {
      assert After(s, [], t) == s && es[..0] == [];
    } else {
      PrefixHasNoReset(es);
      DeltasTelescope(s, p, t);
    }
  }

  lemma PrefixHasNoReset(es: seq<Event>)
    requires |es| > 1 && es[0].Reading? && NoReset(es)
    ensures var p, e := es[..|es| - 1], es[|es| - 1];
            && NoReset(p) && p[0] == es[0]
            && (e.Reading? ==> LastReading(p).unrecov <= e.unrecov && LastReading(p).total <= e.total)
  {
    var p := es[..|es| - 1];
    var k :| 0 <= k < |p| && p[k] == LastReading(p);
    assert es[k] == p[k];
  }

  lemma FedSumNext(s: State, es: seq<Event>, t: Thresholds)
    requires es != []
    ensures var p, e := es[..|es| - 1], es[|es| - 1];
            var before, m := FedSum(s, p, t), After(s, p, t).counters;
            FedSum(s, es, t) == if e.Session? || !m.known || e.unrecov < m.unrecov || e.total < m.total then before
                                else (before.0 + (e.unrecov - m.unrecov), before.1 + (e.total - m.total))
    ensures |es| == 1 ==> FedSum(s, es[..|es| - 1], t) == (0, 0)
  {
  }

  lemma StepOnCounters(s: State, e: Event, t: Thresholds)
    ensures Step(s, e, t).state.counters == if e.Reading? then Counters(true, e.unrecov, e.total) else s.counters
  {
    hide NextTimers, Decide;
  }

  // ----- sustained loss

  /** A reading above the gate that degrades. */
  predicate Strike(s: State, e: Event, t: Thresholds) {
    FedBy(s, e).Some? && AllowsLayer(FedBy(s, e).value, t) && Degrades(Step(s, e, t).action)
  }

  /** Nothing but strikes, and reconnects between them. */
  ghost predicate Sustained(s: State, es: seq<Event>, t: Thresholds) {
    forall i: nat | i < |es| :: Strike(After(s, es[..i], t), es[i], t) || Neutral(After(s, es[..i], t), es[i])
  }

  function Strikes(s: State, es: seq<Event>, t: Thresholds): nat {
    if es == [] then 0
    else
      var p := es[..|es| - 1];
      Strikes(s, p, t) + if Strike(After(s, p, t), es[|es| - 1], t) then 1 else 0
  }

  lemma StrikeGoesDownOne(s: State, e: Event, t: Thresholds)
    requires OnChain(s.ladder) && Strike(s, e, t)
    ensures var l := Step(s, e, t).state.ladder;
            && OnChain(l) && l.maxLayers == s.ladder.maxLayers
            && Rung(l) == if Rung(s.ladder) < Bottom(s.ladder) then Rung(s.ladder) + 1 else Rung(s.ladder)
  {
    DegradeGoesDownOne(s.ladder, true);
    if s.ladder.maxLayers > 0 {
      ChainIsExactlyTheRungs(s.ladder);
    }
  }

  /** Each strike is one rung, until the bottom. */
  lemma {:induction false} SustainedLossDescends(s: State, es: seq<Event>, t: Thresholds)
    requires OnChain(s.ladder) && Sustained(s, es, t)
    ensures var l, n := After(s, es, t).ladder, Strikes(s, es, t);
            && OnChain(l) && l.maxLayers == s.ladder.maxLayers
            && Rung(l) == if Rung(s.ladder) + n <= Bottom(l) then Rung(s.ladder) + n else Bottom(l)
  {
    if es == [] {
      if s.ladder.maxLayers > 0 {
        ChainIsExactlyTheRungs(s.ladder);
      }
    } else {
      var p, n := es[..|es| - 1], |es| - 1;
      forall i: nat | i < n ensures Strike(After(s, p[..i], t), p[i], t) || Neutral(After(s, p[..i], t), p[i]) {
        assert p[..i] == es[..i];
      }
      SustainedLossDescends(s, p, t);
      hide Strike, Neutral, Step, Rung, OnChain;
      var m := After(s, p, t);
      assert es[..n] == p;
      if Strike(m, es[n], t) {
        StrikeGoesDownOne(m, es[n], t);
      } else {
        NeutralFeedsNothing(m, es[n], t);
      }
    }
  }

  /** So maxLayers + 1 strikes reach the bottom from anywhere. */
  lemma SustainedLossReachesBottom(s: State, es: seq<Event>, t: Thresholds)
    requires OnChain(s.ladder) && Sustained(s, es, t) && Strikes(s, es, t) >= s.ladder.maxLayers + 1
    ensures Rung(After(s, es, t).ladder) == Bottom(s.ladder)
  {
    SustainedLossDescends(s, es, t);
    if s.ladder.maxLayers > 0 {
      ChainIsExactlyTheRungs(s.ladder);
    }
  }
}
