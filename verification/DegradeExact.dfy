/** When exactly the degrade controller acts, in any run and in terms of what it was fed: the readings, their times
    and what it did before. */
module DegradeExact {
  import opened Wrappers
  import opened GoArith
  import opened Degrade
  import opened DegradeRuns

  // ----- loss, without dividing

  lemma RatioOver(u: real, n: real, pct: real)
    requires n > 0.0
    ensures u / n * 100.0 > pct <==> 100.0 * u > pct * n
  {
    var q := u / n;
    assert q * n == u;
    if q * 100.0 > pct {
      ScaleUp(q * 100.0, pct, n);
    } else {
      ScaleUp(pct, q * 100.0, n);
    }
    assert (q * 100.0) * n == 100.0 * (q * n);
  }

  lemma ScaleUp(a: real, b: real, n: real)
    requires a >= b && n > 0.0
    ensures a * n >= b * n && (a > b ==> a * n > b * n)
  {
    assert (a - b) * n >= 0.0;
    assert a > b ==> (a - b) * n > 0.0;
  }

  /** Lost packets against a share of all packets; a sample without packets counts as one without loss. */
  predicate Exceeds(x: Sample, pct: real) {
    if x.total > 0 then 100.0 * (x.unrecov as real) > pct * (x.total as real) else 0.0 > pct
  }

  lemma LossExceedsIff(x: Sample, pct: real)
    ensures Loss(x) > pct <==> Exceeds(x, pct)
  {
    if x.total > 0 {
      RatioOver(x.unrecov as real, x.total as real, pct);
    }
  }

  /** Bad, compliant and above the gate, in packets. */
  lemma SamplesAreJudgedByCount(x: Sample, t: Thresholds)
    ensures Bad(x, t) <==> Exceeds(x, t.raisePct)
    ensures Compliant(x, t) <==> !Exceeds(x, t.raisePct) && !Exceeds(x, t.lowerPct)
    ensures AllowsLayer(x, t) <==> t.restartPct <= 0.0 || Exceeds(x, t.restartPct)
  {
    hide Loss, Exceeds;
    LossExceedsIff(x, t.raisePct);
    LossExceedsIff(x, t.lowerPct);
    LossExceedsIff(x, t.restartPct);
  }

  // ----- recoveries

  /** What one sample does to the recovery timer. */
  lemma RecoveryTimerNext(m: Timers, x: Sample, t: Thresholds)
    requires !Bad(x, t) && !Stale(m, x.now)
    ensures var g := NextTimers(m, x, t).goodSince;
            && (Decide(m, x, t).RecoverNow? ==> g == Some(x.now))
            && (!Decide(m, x, t).RecoverNow? && m.goodSince.Some? ==> g == m.goodSince)
            && (Compliant(x, t) ==> g.Some? && (g == Some(x.now) || g == m.goodSince))
  {
    hide Loss;
  }

  lemma CompliantStartsTimer(m: Timers, x: Sample, t: Thresholds)
    requires Compliant(x, t)
    ensures var g := NextTimers(m, x, t).goodSince; g.Some? && (g == Some(x.now) || g == m.goodSince)
  {
    hide Loss;
  }

  lemma RecoverNowIff(m: Timers, x: Sample, t: Thresholds)
    requires Compliant(x, t) && m.goodSince.Some? && !Stale(m, x.now)
    ensures Decide(m, x, t).RecoverNow? <==> x.now - m.goodSince.value >= Observation(t)
  {
    hide Loss;
  }

  /** While a good window lasts, the recovery timer has been running at least since its first sample. */
  lemma {:induction false} WindowKeepsTimer(s: State, es: seq<Event>, t: Thresholds, i: nat, n: nat)
    requires n <= |es| && Chronological(es) && s.timers.goodSince.None? && GoodWindow(s, es, t, i, n)
    ensures var g := After(s, es[..n], t).timers.goodSince; g.Some? && es[i].Reading? && g.value <= es[i].now
  {
    hide *;
    WindowShrinks(s, es, t, i, n);
    var before, x := After(s, es[..n - 1], t), FedAt(s, es, t, n - 1);
    TimersNext(s, es, t, n - 1);
    if n == i + 1 {
      CompliantStartsTimer(before.timers, x.value, t);
      if before.timers.goodSince.Some? {
        var k := GoodSinceIsAWindow(s, es, t, i);
        GoodWindowStarts(s, es, t, k, i);
        InTimeOrder(es, k, i);
      }
    } else {
      WindowKeepsTimer(s, es, t, i, n - 1);
      if x.Some? {
        StaleIsAGap(s, es, t, i, n - 1);
        RecoveryTimerNext(before.timers, x.value, t);
      }
    }
  }

  /** What the event at `m` does to the timers. */
  lemma TimersNext(s: State, es: seq<Event>, t: Thresholds, m: nat)
    requires m < |es|
    ensures var before, after, x := After(s, es[..m], t).timers, After(s, es[..m + 1], t).timers, FedAt(s, es, t, m);
            && (x.None? ==> after == before)
            && (x.Some? ==> && after == NextTimers(before, x.value, t)
                            && (At(s, es, t, m).action.RecoverAction? <==> Decide(before, x.value, t).RecoverNow?))
  {
    hide NextTimers, Decide, Step;
    AfterNext(s, es, t, m);
    StepOnTimers(After(s, es[..m], t), es[m], t);
  }

  lemma WindowShrinks(s: State, es: seq<Event>, t: Thresholds, i: nat, n: nat)
    requires n <= |es| && GoodWindow(s, es, t, i, n)
    ensures i < n && FedAt(s, es, t, i).Some? && Compliant(FedAt(s, es, t, i).value, t)
    ensures n > i + 1 ==> GoodWindow(s, es, t, i, n - 1) && !At(s, es, t, n - 1).action.RecoverAction?
    ensures n > i + 1 && FedAt(s, es, t, n - 1).Some? ==>
              !Bad(FedAt(s, es, t, n - 1).value, t) && !StaleAt(s, es, t, n - 1)
  {
    hide At, FedAt, Bad, Compliant, StaleAt;
  }

  /** A compliant sample at `j` that ends a good window of at least the observation period. */
  ghost predicate EndsWindow(s: State, es: seq<Event>, t: Thresholds, j: nat)
    requires j < |es|
  {
    && FedAt(s, es, t, j).Some? && Compliant(FedAt(s, es, t, j).value, t) && !StaleAt(s, es, t, j)
    && exists i: nat :: i < j && GoodWindow(s, es, t, i, j) && es[i].Reading?
                        && es[j].now - es[i].now >= Observation(t)
  }

  lemma WindowIsRecovered(s: State, es: seq<Event>, t: Thresholds, i: nat, j: nat)
    requires i < j < |es| && Chronological(es) && s.timers.goodSince.None? && GoodWindow(s, es, t, i, j)
    requires FedAt(s, es, t, j).Some? && Compliant(FedAt(s, es, t, j).value, t) && !StaleAt(s, es, t, j)
    requires es[i].Reading? && es[j].now - es[i].now >= Observation(t)
    ensures At(s, es, t, j).action.RecoverAction?
  {
    hide NextTimers, Decide, Step, Stale, Compliant, GoodWindow, Chronological, LastFed, StaleAt, FedBy, Observation;
    WindowKeepsTimer(s, es, t, i, j);
    GoodWindowStarts(s, es, t, i, j);
    StaleIsAGap(s, es, t, i, j);
    StepOnTimers(After(s, es[..j], t), es[j], t);
    RecoverNowIff(After(s, es[..j], t).timers, FedAt(s, es, t, j).value, t);
  }

  /** In a chronological run, a reading recovers one step if and only if it is compliant, is not after a stale gap
      and ends a window without bad sample, stale gap or recovery that has lasted for the observation period. */
  lemma RecoversIff(s: State, es: seq<Event>, t: Thresholds, j: nat)
    requires j < |es| && Chronological(es) && s.timers.goodSince.None?
    ensures At(s, es, t, j).action.RecoverAction? <==> EndsWindow(s, es, t, j)
  {
    if At(s, es, t, j).action.RecoverAction? {
      hide NextTimers, Decide, Step, Stale, Compliant, GoodWindow, Chronological, LastFed, StaleAt, FedBy, Observation;
      var i := RecoveryClosesAWindow(s, es, t, j);
      GoodWindowStarts(s, es, t, i, j);
    }
    if EndsWindow(s, es, t, j) {
      hide NextTimers, Decide, Step, Stale, Compliant, GoodWindow, Chronological, LastFed, StaleAt, FedBy, Observation;
      var i: nat :| i < j && GoodWindow(s, es, t, i, j) && es[i].Reading?
                    && es[j].now - es[i].now >= Observation(t);
      WindowIsRecovered(s, es, t, i, j);
    }
  }

  // ----- degrades

  /** The degrade at `i` still holds the next one back at `n`: nothing ended its cooldown. */
  ghost predicate Cooling(s: State, es: seq<Event>, t: Thresholds, i: nat, n: nat)
    requires n <= |es|
  {
    i < n && es[i].Reading? && Degrades(At(s, es, t, i).action) && NoRelief(s, es, t, i, n)
  }

  lemma CoolingStarts(s: State, es: seq<Event>, t: Thresholds, i: nat)
    requires i < |es| && es[i].Reading? && Degrades(At(s, es, t, i).action)
    ensures Cooling(s, es, t, i, i + 1)
  {
    hide At, FedAt, Compliant, StaleAt;
  }

  lemma CoolingLasts(s: State, es: seq<Event>, t: Thresholds, i: nat, n: nat)
    requires n < |es| && Cooling(s, es, t, i, n)
    requires FedAt(s, es, t, n).Some? ==> !Compliant(FedAt(s, es, t, n).value, t) && !StaleAt(s, es, t, n)
    ensures Cooling(s, es, t, i, n + 1)
  {
    hide At, FedAt, Compliant, StaleAt;
  }

  lemma CooldownNext(m: Timers, x: Sample, t: Thresholds)
    requires NextTimers(m, x, t).cooldownUntil.Some?
    ensures !Compliant(x, t)
    ensures if Decide(m, x, t).DegradeNow? then NextTimers(m, x, t).cooldownUntil == Some(x.now + Observation(t))
            else !Stale(m, x.now) && NextTimers(m, x, t).cooldownUntil == m.cooldownUntil
  {
    hide Loss;
  }

  lemma CoolingFed(s: State, es: seq<Event>, t: Thresholds, i: nat, n: nat)
    requires n <= |es| && Cooling(s, es, t, i, n)
    ensures i < n && FedAt(s, es, t, i).Some?
  {
    hide Step, NoRelief;
    StepOnTimers(After(s, es[..i], t), es[i], t);
  }

  lemma CooldownAt(s: State, es: seq<Event>, t: Thresholds, m: nat)
    requires m < |es|
    ensures var c, c' := After(s, es[..m], t).timers.cooldownUntil, After(s, es[..m + 1], t).timers.cooldownUntil;
            && (FedAt(s, es, t, m).None? ==> c' == c)
            && (FedAt(s, es, t, m).Some? && c'.Some? ==>
                  && !Compliant(FedAt(s, es, t, m).value, t)
                  && if Degrades(At(s, es, t, m).action) then c' == Some(es[m].now + Observation(t))
                     else c' == c && !Stale(After(s, es[..m], t).timers, es[m].now))
  {
    hide NextTimers, Decide, Loss, Step, Stale, Compliant;
    AfterNext(s, es, t, m);
    StepOnTimers(After(s, es[..m], t), es[m], t);
    var x := FedAt(s, es, t, m);
    if x.Some? && After(s, es[..m + 1], t).timers.cooldownUntil.Some? {
      CooldownNext(After(s, es[..m], t).timers, x.value, t);
    }
  }

  lemma NothingYet(s: State, es: seq<Event>, t: Thresholds)
    ensures After(s, es[..0], t) == s
  {
  }

  /** Whenever a cooldown runs, some degrade started it and nothing has ended it since. */
  lemma {:induction false} CooldownIsADegrade(s: State, es: seq<Event>, t: Thresholds, n: nat) returns (i: nat)
    requires n <= |es| && s.timers.cooldownUntil.None? && After(s, es[..n], t).timers.cooldownUntil.Some?
    ensures Cooling(s, es, t, i, n) && After(s, es[..n], t).timers.cooldownUntil == Some(es[i].now + Observation(t))
  {
    hide *;
    NothingYet(s, es, t);
    var m := n - 1;
    CooldownAt(s, es, t, m);
    if FedAt(s, es, t, m).Some? && Degrades(At(s, es, t, m).action) {
      i := m;
      CoolingStarts(s, es, t, m);
    } else {
      i := CooldownIsADegrade(s, es, t, m);
      if FedAt(s, es, t, m).Some? {
        CoolingFed(s, es, t, i, m);
        StaleIsAGap(s, es, t, i, m);
      }
      CoolingLasts(s, es, t, i, m);
    }
  }

  /** Some degrade less than the observation period ago is still cooling down at `j`. */
  ghost predicate HeldBack(s: State, es: seq<Event>, t: Thresholds, j: nat)
    requires j < |es|
  {
    exists i: nat :: Cooling(s, es, t, i, j) && !StaleAt(s, es, t, j)
                     && es[j].Reading? && es[j].now - es[i].now < Observation(t)
  }

  lemma DegradeNowIff(m: Timers, x: Sample, t: Thresholds)
    ensures Decide(m, x, t).DegradeNow? <==>
              && Bad(x, t)
              && (m.cooldownUntil.None? || Stale(m, x.now) || x.now >= m.cooldownUntil.value)
  {
    hide Loss;
  }

  /** In a chronological run, a reading degrades if and only if it is bad and no degrade less than the observation
      period before it, with neither a compliant sample nor a stale gap since, holds it back. */
  lemma DegradesIff(s: State, es: seq<Event>, t: Thresholds, j: nat)
    requires j < |es| && Chronological(es) && s.timers.cooldownUntil.None?
    ensures Degrades(At(s, es, t, j).action) <==>
              FedAt(s, es, t, j).Some? && Bad(FedAt(s, es, t, j).value, t) && !HeldBack(s, es, t, j)
  {
    hide NextTimers, Decide, Loss, Step, Stale, Cooling, StaleAt, FedBy, LastFed, Observation, Bad, Chronological;
    var m, x := After(s, es[..j], t).timers, FedAt(s, es, t, j);
    StepOnTimers(After(s, es[..j], t), es[j], t);
    if x.Some? {
      DegradeNowIff(m, x.value, t);
      if m.cooldownUntil.Some? {
        var i := CooldownIsADegrade(s, es, t, j);
        CoolingFed(s, es, t, i, j);
        StaleIsAGap(s, es, t, i, j);
        if !StaleAt(s, es, t, j) && es[j].now < es[i].now + Observation(t) {
          HeldBackBy(s, es, t, i, j);
        }
      }
      if Degrades(At(s, es, t, j).action) {
        DegradedIsNotHeldBack(s, es, t, j);
      }
    }
  }

  lemma HeldBackBy(s: State, es: seq<Event>, t: Thresholds, i: nat, j: nat)
    requires j < |es| && Cooling(s, es, t, i, j) && es[j].Reading?
    requires !StaleAt(s, es, t, j) && es[j].now < es[i].now + Observation(t)
    ensures HeldBack(s, es, t, j)
  {
    hide Cooling, StaleAt, Observation;
  }

  lemma DegradedIsNotHeldBack(s: State, es: seq<Event>, t: Thresholds, j: nat)
    requires j < |es| && Chronological(es) && Degrades(At(s, es, t, j).action)
    ensures !HeldBack(s, es, t, j)
  {
    hide Step, NextTimers, StaleAt, LastFed, FedBy, NoRelief, Chronological, Observation;
    forall i: nat | Cooling(s, es, t, i, j) && !StaleAt(s, es, t, j)
      ensures es[j].Reading? && es[j].now - es[i].now >= Observation(t)
    {
      DegradesAreApart(s, es, t, i, j);
    }
  }

  // ----- alerts

  lemma AlertIff(s: State, e: Event, t: Thresholds)
    ensures Step(s, e, t).alert <==>
              && Degrades(Step(s, e, t).action) && e.Reading? && DegradeLadder(s.ladder, true).Bottomed?
              && (s.lastAlert.None? || e.now - s.lastAlert.value >= ALERT_INTERVAL)
  {
    hide NextTimers, Decide, Loss;
  }

  lemma BottomedIff(l: Ladder)
    requires OnChain(l)
    ensures DegradeLadder(l, true).Bottomed? <==> l.maxLayers > 0 && Rung(l) == Bottom(l)
  {
    DegradeGoesDownOne(l, true);
  }

  lemma {:induction false} LastAlertWas(s: State, es: seq<Event>, t: Thresholds, n: nat) returns (i: nat)
    requires n <= |es| && s.lastAlert.None? && After(s, es[..n], t).lastAlert.Some?
    ensures i < n && At(s, es, t, i).alert && es[i].Reading? && After(s, es[..n], t).lastAlert == Some(es[i].now)
  {
    assert n > 0;
    hide Step;
    AfterNext(s, es, t, n - 1);
    StepOnAlerts(After(s, es[..n - 1], t), es[n - 1], t);
    if At(s, es, t, n - 1).alert {
      i := n - 1;
    } else {
      i := LastAlertWas(s, es, t, n - 1);
    }
  }

  /** In a chronological run, a reading raises an alert if and only if it degrades on the lowest rung and no reading
      less than sixty seconds before it raised one. */
  lemma AlertsIff(s: State, es: seq<Event>, t: Thresholds, j: nat)
    requires OnChain(s.ladder) && j < |es| && Chronological(es) && s.lastAlert.None?
    ensures var l := After(s, es[..j], t).ladder;
            At(s, es, t, j).alert <==>
              && Degrades(At(s, es, t, j).action) && l.maxLayers > 0 && Rung(l) == Bottom(l)
              && !exists i: nat :: i < j && es[i].Reading? && es[j].Reading? && At(s, es, t, i).alert
                                   && es[j].now - es[i].now < ALERT_INTERVAL
  {
    hide Step, Rung, Bottom, OnChain, Chronological, DegradeLadder;
    RunStaysOnChain(s, es[..j], t);
    var m := After(s, es[..j], t);
    BottomedIff(m.ladder);
    AlertIff(m, es[j], t);
    if At(s, es, t, j).alert {
      forall i: nat | i < j && At(s, es, t, i).alert ensures es[i].Reading? && es[j].now - es[i].now >= ALERT_INTERVAL {
        AlertsAreApart(s, es, t, i, j);
      }
    } else if m.lastAlert.Some? {
      var i := LastAlertWas(s, es, t, j);
    }
    DegradesOnlyOnReadings(m, es[j], t);
  }

  lemma DegradesOnlyOnReadings(s: State, e: Event, t: Thresholds)
    ensures Degrades(Step(s, e, t).action) ==> e.Reading?
  {
    hide NextTimers, Decide, Loss;
  }

  // ----- what an action does to the ladder

  /** A recovery is one rung up unless on top; a degrade is one rung down unless the path is on its lowest rung, its
      layers are not known, or the next rung costs a layer that the gate keeps; a restart is one rung down and costs
      a layer; nothing else that is read moves it. */
  lemma RungFollowsAction(s: State, e: Event, t: Thresholds)
    requires OnChain(s.ladder) && e.Reading?
    ensures var o := Step(s, e, t);
            var l, l' := s.ladder, o.state.ladder;
            && OnChain(l') && l'.maxLayers == l.maxLayers
            && (match o.action
                case NoAction => l' == l
                case RecoverAction => Rung(l') == if Rung(l) == 0 then 0 else Rung(l) - 1
                case RestartAction => Rung(l') == Rung(l) + 1 && l'.layers == l.layers - 1
                case DegradeAction =>
                  && l'.layers == l.layers
                  && Rung(l') == if l.maxLayers > 0 && Rung(l) < 2 then Rung(l) + 1 else Rung(l))
    ensures Step(s, e, t).action.DegradeAction? && 2 <= Rung(s.ladder) < Bottom(s.ladder) ==>
              !AllowsLayer(FedBy(s, e).value, t)
  {
    hide NextTimers, Decide, Loss;
    if FedBy(s, e).Some? {
      DegradeGoesDownOne(s.ladder, AllowsLayer(FedBy(s, e).value, t));
      RecoverGoesUpOne(s.ladder);
    }
  }

  /** A session with more layers than any before starts over at the top; any other changes nothing. */
  lemma SessionsRaiseTheTop(s: State, n: int, t: Thresholds)
    requires OnChain(s.ladder)
    ensures var s' := Step(s, Session(n), t).state;
            if n > s.ladder.maxLayers
            then Rung(s'.ladder) == 0 && s'.ladder.maxLayers == n && s'.ladder.layers == n && OnChain(s'.ladder)
            else s' == s
  {
  }

  /** The full number of layers is the largest any session has had. */
  lemma {:induction false} TopIsLargestSession(s: State, es: seq<Event>, t: Thresholds)
    ensures var m := After(s, es, t).ladder.maxLayers;
            && s.ladder.maxLayers <= m
            && (forall i: nat | i < |es| && es[i].Session? :: es[i].layers <= m)
            && (m == s.ladder.maxLayers || exists i: nat :: i < |es| && es[i].Session? && es[i].layers == m)
  {
    hide NextTimers, Decide, Loss;
    if es != [] {
      var p, e := es[..|es| - 1], es[|es| - 1];
      TopIsLargestSession(s, p, t);
      StepOnTop(After(s, p, t), e, t);
      hide Step;
      var m := After(s, p, t).ladder.maxLayers;
      forall i: nat | i < |es| && es[i].Session? ensures es[i].layers <= After(s, es, t).ladder.maxLayers {
        assert i < |p| ==> p[i] == es[i];
      }
      if m != s.ladder.maxLayers && After(s, es, t).ladder.maxLayers == m {
        var i: nat :| i < |p| && p[i].Session? && p[i].layers == m;
        assert es[i] == p[i];
      }
    }
  }

  lemma StepOnTop(s: State, e: Event, t: Thresholds)
    ensures Step(s, e, t).state.ladder.maxLayers
         == if e.Session? && e.layers > s.ladder.maxLayers then e.layers else s.ladder.maxLayers
  {
    hide NextTimers, Decide, Loss;
  }
}
