/** The health-event collector (internal/healthlog/collector.go): producers that never block, a bounded
    queue that loses its oldest event when full, and a consumer that reports batches.

    Every channel operation, atomic load and atomic add is one step of a transition system; producers,
    consumer and closer interleave in any order. The reporter is not nil; whether a report succeeds is
    part of the step. */
module HealthLog {
  import opened Wrappers

  type Event = int

  /** Where an `Emit` call is. `Uncounted` has evicted an event it has not counted yet. */
  datatype Producer =
    | Outside | Trying(e: Event) | Full(e: Event) | Uncounted(e: Event) | Retrying(e: Event) | Refused(e: Event)

  /** Where the consumer is. A flush returns to one of the places it is called from. */
  datatype Place = InLoop | InDrain | AtEnd

  datatype Consumer = At(place: Place) | Sending(back: Place) | Counting(ok: bool, back: Place)

  datatype Conf = Conf(queueSize: nat, batchSize: nat)

  datatype Counters = Counters(dropped: nat, sent: nat, failed: nat)

  /** What happened so far: emits begun while open, events in the order they entered the queue, for each
      event that left it whether the consumer took it (or it was evicted), and the batches reported. */
  datatype History = History(begun: nat, entered: seq<Event>, taken: seq<bool>, reported: seq<seq<Event>>)

  datatype Sys = Sys(queue: seq<Event>, closed: bool, done: bool, counters: Counters, producers: seq<Producer>,
                     batch: seq<Event>, consumer: Consumer, history: History)

  function Initial(producers: nat): Sys {
    Sys([], false, false, Counters(0, 0, 0), seq(producers, i => Outside), [], At(InLoop), History(0, [], [], []))
  }

  datatype Step =
    | Begin(p: nat, e: Event) | FirstSend(p: nat) | Evict(p: nat) | CountEvicted(p: nat) | SecondSend(p: nat)
    | CountRefused(p: nat)
    | Take | Tick | SeeDone | DrainEmpty | Report(ok: bool) | Count
    | StoreClosed | CloseDone

  function Moved(s: Sys, p: nat, to: Producer): Sys
    requires p < |s.producers|
  {
    s.(producers := s.producers[p := to])
  }

  function Entered(s: Sys, e: Event): Sys {
    s.(queue := s.queue + [e], history := s.history.(entered := s.history.entered + [e]))
  }

  /** The oldest event leaves the queue. */
  function Left(s: Sys, taken: bool): Sys
    requires s.queue != []
  {
    s.(queue := s.queue[1..], history := s.history.(taken := s.history.taken + [taken]))
  }

  function Appended(c: Conf, s: Sys): Sys
    requires s.queue != [] && s.consumer.At?
  {
    var s1 := Left(s, true).(batch := s.batch + [s.queue[0]]);
    if |s1.batch| >= c.batchSize then s1.(consumer := Sending(s.consumer.place)) else s1
  }

  predicate Enabled(s: Sys, a: Step) {
    match a
    case Begin(p, e) => p < |s.producers| && s.producers[p].Outside?
    case FirstSend(p) => p < |s.producers| && s.producers[p].Trying?
    case Evict(p) => p < |s.producers| && s.producers[p].Full?
    case CountEvicted(p) => p < |s.producers| && s.producers[p].Uncounted?
    case SecondSend(p) => p < |s.producers| && s.producers[p].Retrying?
    case CountRefused(p) => p < |s.producers| && s.producers[p].Refused?
    case Take => (s.consumer == At(InLoop) || s.consumer == At(InDrain)) && s.queue != []
    case Tick => s.consumer == At(InLoop)
    case SeeDone => s.consumer == At(InLoop) && s.done
    case DrainEmpty => s.consumer == At(InDrain) && s.queue == []
    case Report(ok) => s.consumer.Sending?
    case Count => s.consumer.Counting?
    case StoreClosed => !s.closed
    case CloseDone => s.closed && !s.done
  }

  function Do(c: Conf, s: Sys, a: Step): Sys
    requires Enabled(s, a)
  {
    match a
    case Begin(p, e) =>
      if s.closed then s else Moved(s, p, Trying(e)).(history := s.history.(begun := s.history.begun + 1))
    case FirstSend(p) =>
      var e := s.producers[p].e;
      if |s.queue| < c.queueSize then Entered(Moved(s, p, Outside), e) else Moved(s, p, Full(e))
    case Evict(p) =>
      var e := s.producers[p].e;
      if s.queue != [] then Left(Moved(s, p, Uncounted(e)), false) else Moved(s, p, Retrying(e))
    case CountEvicted(p) =>
      Moved(s, p, Retrying(s.producers[p].e)).(counters := s.counters.(dropped := s.counters.dropped + 1))
    case SecondSend(p) =>
      var e := s.producers[p].e;
      if |s.queue| < c.queueSize then Entered(Moved(s, p, Outside), e) else Moved(s, p, Refused(e))
    case CountRefused(p) =>
      Moved(s, p, Outside).(counters := s.counters.(dropped := s.counters.dropped + 1))
    case Take => Appended(c, s)
    case Tick => if s.batch == [] then s else s.(consumer := Sending(InLoop))
    case SeeDone => s.(consumer := At(InDrain))
    case DrainEmpty => if s.batch == [] then s.(consumer := At(AtEnd)) else s.(consumer := Sending(AtEnd))
    case Report(ok) =>
      s.(consumer := Counting(ok, s.consumer.back), history := s.history.(reported := s.history.reported + [s.batch]))
    case Count =>
      var n := |s.batch|;
      var k := if s.consumer.ok then s.counters.(sent := s.counters.sent + n)
               else s.counters.(failed := s.counters.failed + n);
      s.(counters := k, batch := [], consumer := At(s.consumer.back))
    case StoreClosed => s.(closed := true)
    case CloseDone => s.(done := true)
  }

  // ----- conservation

  /** How many events an `Emit` call holds: its own, and one it evicted but has not counted. */
  function Holds(p: Producer): nat {
    match p
    case Outside => 0
    case Uncounted(_) => 2
    case _ => 1
  }

  function InFlight(ps: seq<Producer>): nat {
    if ps == [] then 0 else InFlight(ps[..|ps| - 1]) + Holds(ps[|ps| - 1])
  }

  lemma {:induction false} InFlightUpdate(ps: seq<Producer>, i: nat, p: Producer)
    requires i < |ps|
    ensures InFlight(ps[i := p]) == InFlight(ps) - Holds(ps[i]) + Holds(p)
  {
    var n := |ps| - 1;
    if i == n {
      assert ps[i := p][..n] == ps[..n];
    } else {
      assert ps[i := p][..n] == ps[..n][i := p];
      InFlightUpdate(ps[..n], i, p);
    }
  }

  lemma {:induction false} NobodyIsInFlight(n: nat)
    ensures InFlight(seq(n, i => Outside)) == 0
  {
    if n > 0 {
      assert seq(n, i => Outside)[..n - 1] == seq(n - 1, i => Outside);
      NobodyIsInFlight(n - 1);
    }
  }

  predicate Balanced(s: Sys) {
    s.history.begun == InFlight(s.producers) + |s.queue| + |s.batch|
                       + s.counters.sent + s.counters.failed + s.counters.dropped
  }

  lemma DoKeepsBalance(c: Conf, s: Sys, a: Step)
    requires Enabled(s, a) && Balanced(s)
    ensures Balanced(Do(c, s, a))
  {
    hide InFlight;
    if IsEmitStep(a) {
      EmitKeepsBalance(c, s, a);
    }
  }

  lemma EmitKeepsBalance(c: Conf, s: Sys, a: Step)
    requires IsEmitStep(a) && Enabled(s, a) && Balanced(s)
    ensures Balanced(Do(c, s, a))
  {
    hide InFlight;
    InFlightUpdate(s.producers, a.p, Do(c, s, a).producers[a.p]);
    assert Do(c, s, a).producers == s.producers[a.p := Do(c, s, a).producers[a.p]];
  }

  // ----- order

  /** The events whose removal was a take, in order. */
  function TakenOf(entered: seq<Event>, taken: seq<bool>): seq<Event>
    requires |taken| <= |entered|
  {
    if taken == [] then []
    else
      var k := |taken| - 1;
      TakenOf(entered, taken[..k]) + if taken[k] then [entered[k]] else []
  }

  function Flat(bs: seq<seq<Event>>): seq<Event> {
    if bs == [] then [] else Flat(bs[..|bs| - 1]) + bs[|bs| - 1]
  }

  /** What the consumer holds and has not reported. */
  function Unreported(s: Sys): seq<Event> {
    if s.consumer.Counting? then [] else s.batch
  }

  /** The queue is what entered and has not left, oldest first, so each removal took the then-oldest
      event; what was reported or is about to be is what the consumer took, in order. */
  ghost predicate InOrder(s: Sys) {
    var h := s.history;
    && |h.taken| <= |h.entered|
    && s.queue == h.entered[|h.taken|..]
    && Flat(h.reported) + Unreported(s) == TakenOf(h.entered, h.taken)
  }

  lemma {:induction false} TakenOfPrefix(entered: seq<Event>, e: Event, taken: seq<bool>)
    requires |taken| <= |entered|
    ensures TakenOf(entered + [e], taken) == TakenOf(entered, taken)
  {
    if taken != [] {
      TakenOfPrefix(entered, e, taken[..|taken| - 1]);
    }
  }

  lemma TakenOfNext(entered: seq<Event>, taken: seq<bool>, b: bool)
    requires |taken| < |entered|
    ensures TakenOf(entered, taken + [b]) == TakenOf(entered, taken) + if b then [entered[|taken|]] else []
  {
    assert (taken + [b])[..|taken|] == taken;
  }

  lemma FlatNext(bs: seq<seq<Event>>, b: seq<Event>)
    ensures Flat(bs + [b]) == Flat(bs) + b
  {
    assert (bs + [b])[..|bs|] == bs;
  }

  lemma EnteredKeepsOrder(s: Sys, e: Event)
    requires InOrder(s)
    ensures InOrder(Entered(s, e))
  {
    TakenOfPrefix(s.history.entered, e, s.history.taken);
  }

  lemma EvictedKeepsOrder(s: Sys)
    requires InOrder(s) && s.queue != []
    ensures InOrder(Left(s, false))
  {
    TakenOfNext(s.history.entered, s.history.taken, false);
  }

  lemma AppendedKeepsOrder(c: Conf, s: Sys)
    requires InOrder(s) && s.queue != [] && s.consumer.At?
    ensures InOrder(Appended(c, s))
  {
    var h := s.history;
    TakenOfNext(h.entered, h.taken, true);
    assert s.queue[0] == h.entered[|h.taken|];
    assert Flat(h.reported) + (s.batch + [s.queue[0]]) == (Flat(h.reported) + s.batch) + [s.queue[0]];
  }

  lemma DoKeepsOrder(c: Conf, s: Sys, a: Step)
    requires Enabled(s, a) && InOrder(s)
    ensures InOrder(Do(c, s, a))
  {
    hide Flat, TakenOf;
    match a
    case FirstSend(p) => EnteredKeepsOrder(Moved(s, p, Outside), s.producers[p].e);
    case SecondSend(p) => EnteredKeepsOrder(Moved(s, p, Outside), s.producers[p].e);
    case Evict(p) => if s.queue != [] { EvictedKeepsOrder(Moved(s, p, Uncounted(s.producers[p].e))); }
    case Take => AppendedKeepsOrder(c, s);
    case Report(ok) => FlatNext(s.history.reported, s.batch);
    case _ =>
  }

  // ----- sizes and phases

  predicate SizesOk(c: Conf, s: Sys) {
    && |s.queue| <= c.queueSize
    && |s.batch| <= c.batchSize
    && (s.consumer.At? ==> |s.batch| < c.batchSize)
    && (!s.consumer.At? ==> s.batch != [])
    && (forall k | 0 <= k < |s.history.reported| :: 0 < |s.history.reported[k]| <= c.batchSize)
  }

  function PlaceOf(k: Consumer): Place {
    match k
    case At(place) => place
    case Sending(back) => back
    case Counting(_, back) => back
  }

  predicate PhasesOk(s: Sys) {
    && (s.done ==> s.closed)
    && (PlaceOf(s.consumer) != InLoop ==> s.done)
    && (s.consumer == At(AtEnd) ==> s.batch == [])
  }

  predicate IsEmitStep(a: Step) {
    a.Begin? || a.FirstSend? || a.Evict? || a.CountEvicted? || a.SecondSend? || a.CountRefused?
  }

  /** A producer touches neither the batch nor the consumer, and enters only a queue with room. */
  lemma EmitKeepsSizes(c: Conf, s: Sys, a: Step)
    requires IsEmitStep(a) && Enabled(s, a) && SizesOk(c, s) && PhasesOk(s)
    ensures SizesOk(c, Do(c, s, a)) && PhasesOk(Do(c, s, a))
  {
    var s' := Do(c, s, a);
    assert s'.batch == s.batch && s'.consumer == s.consumer && s'.history.reported == s.history.reported;
    assert s'.closed == s.closed && s'.done == s.done && |s'.queue| <= c.queueSize;
    hide Do, Enabled;
  }

  lemma FlushKeepsSizes(c: Conf, s: Sys, a: Step)
    requires a.Report? || a.Count? || a.Take?
    requires Enabled(s, a) && SizesOk(c, s) && PhasesOk(s)
    ensures SizesOk(c, Do(c, s, a)) && PhasesOk(Do(c, s, a))
  {
  }

  lemma DoKeepsSizes(c: Conf, s: Sys, a: Step)
    requires Enabled(s, a) && SizesOk(c, s) && PhasesOk(s)
    ensures SizesOk(c, Do(c, s, a)) && PhasesOk(Do(c, s, a))
  {
    if IsEmitStep(a) {
      EmitKeepsSizes(c, s, a);
    } else if a.Report? || a.Count? || a.Take? {
      FlushKeepsSizes(c, s, a);
    } else {
      MoveKeepsSizes(c, s, a);
    }
  }

  /** The consumer moves on, or the collector is closed. */
  lemma MoveKeepsSizes(c: Conf, s: Sys, a: Step)
    requires a.Tick? || a.SeeDone? || a.DrainEmpty? || a.StoreClosed? || a.CloseDone?
    requires Enabled(s, a) && SizesOk(c, s) && PhasesOk(s)
    ensures SizesOk(c, Do(c, s, a)) && PhasesOk(Do(c, s, a))
  {
  }

  // ----- whole runs

  ghost predicate Inv(c: Conf, s: Sys) {
    Balanced(s) && InOrder(s) && SizesOk(c, s) && PhasesOk(s)
  }

  function Exec(c: Conf, s: Sys, steps: seq<Step>): Option<Sys> {
    if steps == [] then Some(s)
    else
      match Exec(c, s, steps[..|steps| - 1])
      case None => None
      case Some(s1) => if Enabled(s1, steps[|steps| - 1]) then Some(Do(c, s1, steps[|steps| - 1])) else None
  }

  predicate Possible(c: Conf, s: Sys, steps: seq<Step>) {
    Exec(c, s, steps).Some?
  }

  function RunOf(c: Conf, s: Sys, steps: seq<Step>): Sys
    requires Possible(c, s, steps)
  {
    Exec(c, s, steps).value
  }

  lemma InitialIsOk(c: Conf, producers: nat)
    requires c.batchSize > 0
    ensures Inv(c, Initial(producers))
  {
    NobodyIsInFlight(producers);
  }

  lemma {:induction false} RunKeepsInv(c: Conf, s: Sys, steps: seq<Step>)
    requires Inv(c, s) && Possible(c, s, steps)
    ensures Inv(c, RunOf(c, s, steps))
  {
    if steps != [] {
      var p, a := steps[..|steps| - 1], steps[|steps| - 1];
      RunKeepsInv(c, s, p);
      var s1 := RunOf(c, s, p);
      hide Balanced, InOrder, SizesOk, PhasesOk, Do, Enabled;
      DoKeepsBalance(c, s1, a);
      DoKeepsOrder(c, s1, a);
      DoKeepsSizes(c, s1, a);
    }
  }

  /** Under every interleaving of producers, consumer and close: every emit begun while open is in
      flight, queued, batched, sent, failed or dropped; batches and queue stay within their sizes; the
      reporter sees a subsequence of the order of entry, from which only then-oldest events are
      missing. */
  lemma EveryEventIsAccountedFor(c: Conf, producers: nat, steps: seq<Step>)
    requires c.batchSize > 0 && Possible(c, Initial(producers), steps)
    ensures Inv(c, RunOf(c, Initial(producers), steps))
  {
    InitialIsOk(c, producers);
    RunKeepsInv(c, Initial(producers), steps);
  }

  /** What makes the consumer report: the event that fills a batch, a tick, or the end of the drain; a tick and the
      end only if there is something to report. So only those two ever report less than a full batch. */
  lemma ReportsIff(c: Conf, producers: nat, steps: seq<Step>, a: Step)
    requires c.batchSize > 0 && Possible(c, Initial(producers), steps)
    requires var s := RunOf(c, Initial(producers), steps); Enabled(s, a) && s.consumer.At?
    ensures var s := RunOf(c, Initial(producers), steps);
            var s' := Do(c, s, a);
            s'.consumer.Sending? <==> || (a.Take? && |s.batch| + 1 == c.batchSize)
                                      || ((a.Tick? || a.DrainEmpty?) && s.batch != [])
    ensures var s := RunOf(c, Initial(producers), steps);
            var s' := Do(c, s, a);
            s'.consumer.Sending? && |s'.batch| < c.batchSize ==> a.Tick? || a.DrainEmpty?
  {
    EveryEventIsAccountedFor(c, producers, steps);
    hide Balanced, InOrder, PhasesOk, Exec;
  }

  // ----- shutdown
  //
  // When the consumer has stopped, an event can still enter the queue from an `Emit` call that was under
  // way, and then nothing will ever take it. Which calls can do that is exact.

  /** The call still has an attempt to enter the queue before it. */
  predicate CanStillEnter(p: Producer) {
    p.Trying? || p.Full? || p.Uncounted? || p.Retrying?
  }

  /** The consumer stopped with nothing queued. */
  predicate Stopped(s: Sys) {
    s.closed && s.consumer == At(AtEnd) && s.queue == []
  }

  /** Stopped, and nobody is left who could still enter. */
  predicate Sealed(s: Sys) {
    Stopped(s) && forall p | 0 <= p < |s.producers| :: !CanStillEnter(s.producers[p])
  }

  lemma DoKeepsSealed(c: Conf, s: Sys, a: Step)
    requires Enabled(s, a) && Sealed(s)
    ensures Sealed(Do(c, s, a))
  {
  }

  lemma {:induction false} SealedStaysSealed(c: Conf, s: Sys, steps: seq<Step>)
    requires Sealed(s) && Possible(c, s, steps)
    ensures Sealed(RunOf(c, s, steps))
  {
    if steps != [] {
      var p := steps[..|steps| - 1];
      SealedStaysSealed(c, s, p);
      hide Do, Enabled, Sealed;
      DoKeepsSealed(c, RunOf(c, s, p), steps[|steps| - 1]);
    }
  }

  /** From a sealed state nothing is ever queued again, and whenever nobody is inside `Emit`, every event
      ever begun was sent, failed or dropped. */
  lemma CleanShutdownLosesNothing(c: Conf, s: Sys, steps: seq<Step>)
    requires Inv(c, s) && Sealed(s) && Possible(c, s, steps)
    ensures var s' := RunOf(c, s, steps);
            && s'.queue == []
            && (InFlight(s'.producers) == 0 ==>
                  s'.history.begun == s'.counters.sent + s'.counters.failed + s'.counters.dropped)
  {
    SealedStaysSealed(c, s, steps);
    RunKeepsInv(c, s, steps);
  }

  /** The steps by which a call that can still enter does so. */
  function Entering(p: nat, at: Producer): seq<Step> {
    match at
    case Trying(_) => [FirstSend(p)]
    case Full(_) => [Evict(p), SecondSend(p)]
    case Uncounted(_) => [CountEvicted(p), SecondSend(p)]
    case _ => [SecondSend(p)]
  }

  lemma EnteringEnters(c: Conf, s: Sys, p: nat)
    requires Stopped(s) && c.queueSize > 0 && p < |s.producers| && CanStillEnter(s.producers[p])
    ensures var steps := Entering(p, s.producers[p]);
            && Possible(c, s, steps)
            && RunOf(c, s, steps).consumer == At(AtEnd) && RunOf(c, s, steps).queue == [s.producers[p].e]
  {
    match s.producers[p]
    case Full(_) => TwoSteps(c, s, Evict(p), SecondSend(p));
    case Uncounted(_) => TwoSteps(c, s, CountEvicted(p), SecondSend(p));
    case Trying(_) => OneStep(c, s, FirstSend(p));
    case Retrying(_) => OneStep(c, s, SecondSend(p));
  }

  lemma OneStep(c: Conf, s: Sys, a: Step)
    requires Enabled(s, a)
    ensures Exec(c, s, [a]) == Some(Do(c, s, a))
  {
    ExecNext(c, s, [], a);
    assert [] + [a] == [a];
  }

  lemma TwoSteps(c: Conf, s: Sys, a: Step, b: Step)
    requires Enabled(s, a) && Enabled(Do(c, s, a), b)
    ensures Exec(c, s, [a, b]) == Some(Do(c, Do(c, s, a), b))
  {
    OneStep(c, s, a);
    ExecNext(c, s, [a], b);
    assert [a] + [b] == [a, b];
  }

  /** A stopped consumer never reports again, so what enters the queue now is lost. */
  lemma {:induction false} StoppedNeverReports(c: Conf, s: Sys, steps: seq<Step>)
    requires s.consumer == At(AtEnd) && Possible(c, s, steps)
    ensures RunOf(c, s, steps).consumer == At(AtEnd)
    ensures RunOf(c, s, steps).history.reported == s.history.reported
  {
    if steps != [] {
      StoppedNeverReports(c, s, steps[..|steps| - 1]);
    }
  }

  ghost predicate CanStrand(c: Conf, s: Sys) {
    exists steps :: Possible(c, s, steps) && RunOf(c, s, steps).queue != []
  }

  /** Once the consumer stopped, an event can be stranded if and only if some call is still before its last
      attempt to enter; a call that was already refused only has its drop to count. */
  lemma StrandsIff(c: Conf, s: Sys)
    requires Stopped(s) && c.queueSize > 0
    ensures CanStrand(c, s) <==> exists p :: 0 <= p < |s.producers| && CanStillEnter(s.producers[p])
  {
    if p :| 0 <= p < |s.producers| && CanStillEnter(s.producers[p]) {
      EnteringEnters(c, s, p);
      assert Possible(c, s, Entering(p, s.producers[p]));
    } else {
      forall steps | Possible(c, s, steps) ensures RunOf(c, s, steps).queue == [] {
        SealedStaysSealed(c, s, steps);
      }
    }
  }

  /** It does happen: a producer begins to emit, the collector is closed and drains nothing, and only then
      the producer sends. */
  lemma LateEmitIsStranded(c: Conf, e: Event)
    requires c.queueSize > 0
    ensures var steps := [Begin(0, e), StoreClosed, CloseDone, SeeDone, DrainEmpty, FirstSend(0)];
            && Possible(c, Initial(1), steps)
            && var s := RunOf(c, Initial(1), steps);
               s.consumer == At(AtEnd) && s.queue == [e] && s.producers == [Outside] && s.history.begun == 1
  {
    var s0 := Initial(1);
    var a2, a4 := [Begin(0, e), StoreClosed], [Begin(0, e), StoreClosed, CloseDone, SeeDone];
    var s2 := s0.(closed := true, producers := [Trying(e)], history := s0.history.(begun := 1));
    BeginsThenCloses(c, e);
    var s4 := s2.(done := true, consumer := At(InDrain));
    ExecTwo(c, s0, a2, CloseDone, SeeDone);
    assert a2 + [CloseDone, SeeDone] == a4;
    assert Exec(c, s0, a4) == Some(s4);
    ExecTwo(c, s0, a4, DrainEmpty, FirstSend(0));
    assert a4 + [DrainEmpty, FirstSend(0)] == [Begin(0, e), StoreClosed, CloseDone, SeeDone, DrainEmpty, FirstSend(0)];
  }

  lemma BeginsThenCloses(c: Conf, e: Event)
    ensures var s := Initial(1);
            Exec(c, s, [Begin(0, e), StoreClosed])
            == Some(s.(closed := true, producers := [Trying(e)], history := s.history.(begun := 1)))
  {
    var s := Initial(1);
    assert Do(c, s, Begin(0, e)).producers == [Trying(e)];
    TwoSteps(c, s, Begin(0, e), StoreClosed);
  }

  lemma ExecTwo(c: Conf, s: Sys, p: seq<Step>, a: Step, b: Step)
    requires Exec(c, s, p).Some? && Enabled(Exec(c, s, p).value, a)
    requires Enabled(Do(c, Exec(c, s, p).value, a), b)
    ensures Exec(c, s, p + [a, b]) == Some(Do(c, Do(c, Exec(c, s, p).value, a), b))
  {
    ExecNext(c, s, p, a);
    ExecNext(c, s, p + [a], b);
    assert (p + [a]) + [b] == p + [a, b];
  }

  lemma ExecNext(c: Conf, s: Sys, p: seq<Step>, a: Step)
    requires Exec(c, s, p).Some? && Enabled(Exec(c, s, p).value, a)
    ensures Exec(c, s, p + [a]) == Some(Do(c, Exec(c, s, p).value, a))
  {
    assert (p + [a])[..|p|] == p;
  }

  // ----- the methods, run without interruption

  function Clamp(x: int, max: int, default: nat): (r: nat)
    ensures 0 < max && 0 < default <= max ==> 0 < r <= max
  {
    if x <= 0 || x > max then default else x
  }

  /** The newest events that fit. */
  function Newest(q: seq<Event>, cap: nat): (r: seq<Event>)
    ensures |r| <= cap
  {
    if |q| <= cap then q else q[|q| - cap..]
  }

  /** An `Emit` call from start to end with nothing in between. */
  function EmitAlone(c: Conf, s: Sys, p: nat, e: Event): seq<Step> {
    if s.closed then [Begin(p, e)]
    else if |s.queue| < c.queueSize then [Begin(p, e), FirstSend(p)]
    else [Begin(p, e), FirstSend(p)] + [Evict(p), CountEvicted(p), SecondSend(p)]
  }

  lemma FirstAttempt(c: Conf, s: Sys, p: nat, e: Event)
    requires !s.closed && p < |s.producers| && s.producers[p].Outside?
    ensures Exec(c, s, [Begin(p, e), FirstSend(p)]).Some?
    ensures var s' := Exec(c, s, [Begin(p, e), FirstSend(p)]).value;
            && s'.counters == s.counters
            && (if |s.queue| < c.queueSize then s'.queue == s.queue + [e] && s'.producers == s.producers
                else s'.queue == s.queue && s'.producers == s.producers[p := Full(e)])
  {
    TwoSteps(c, s, Begin(p, e), FirstSend(p));
    hide Exec;
    assert s.producers[p := Trying(e)][p := Outside] == s.producers;
    assert s.producers[p := Trying(e)][p := Full(e)] == s.producers[p := Full(e)];
  }

  lemma SecondAttempt(c: Conf, s: Sys, s2: Sys, before: seq<Step>, p: nat, e: Event)
    requires Exec(c, s, before) == Some(s2) && p < |s2.producers| && s2.producers[p] == Full(e)
    requires 0 < |s2.queue| <= c.queueSize
    ensures var steps := before + [Evict(p), CountEvicted(p), SecondSend(p)];
            && Exec(c, s, steps).Some?
            && var s' := Exec(c, s, steps).value;
               && s'.queue == s2.queue[1..] + [e] && s'.producers == s2.producers[p := Outside]
               && s'.counters == s2.counters.(dropped := s2.counters.dropped + 1)
  {
    var s3 := Do(c, s2, Evict(p));
    assert s3.producers == s2.producers[p := Uncounted(e)] && s3.queue == s2.queue[1..];
    var s4 := Do(c, s3, CountEvicted(p));
    assert s4.producers == s2.producers[p := Retrying(e)] && s4.queue == s3.queue;
    var s5 := Do(c, s4, SecondSend(p));
    assert s5.producers == s2.producers[p := Outside] && s5.queue == s4.queue + [e];
    ThreeMoreSteps(c, s, before, Evict(p), CountEvicted(p), SecondSend(p));
  }

  /** What the steps of such a call add up to is what the method below promises. */
  lemma EmitAloneIsEmit(c: Conf, s: Sys, p: nat, e: Event)
    requires c.queueSize > 0 && |s.queue| <= c.queueSize && p < |s.producers| && s.producers[p].Outside?
    ensures var steps := EmitAlone(c, s, p, e);
            && Possible(c, s, steps)
            && var s' := RunOf(c, s, steps);
               && s'.producers == s.producers
               && s'.queue == (if s.closed then s.queue else Newest(s.queue + [e], c.queueSize))
               && |s'.queue| + s'.counters.dropped == |s.queue| + s.counters.dropped + if s.closed then 0 else 1
  {
    if s.closed {
      OneStep(c, s, Begin(p, e));
    } else {
      hide Do, Enabled, Exec;
      FirstAttempt(c, s, p, e);
      if |s.queue| == c.queueSize {
        var s2 := Exec(c, s, [Begin(p, e), FirstSend(p)]).value;
        SecondAttempt(c, s, s2, [Begin(p, e), FirstSend(p)], p, e);
        assert (s.queue + [e])[|s.queue + [e]| - c.queueSize..] == s.queue[1..] + [e];
        assert s.producers[p := Full(e)][p := Outside] == s.producers;
      }
    }
  }

  lemma ThreeMoreSteps(c: Conf, s: Sys, before: seq<Step>, a: Step, b: Step, d: Step)
    requires Exec(c, s, before).Some? && Enabled(Exec(c, s, before).value, a)
    requires var s1 := Do(c, Exec(c, s, before).value, a);
             Enabled(s1, b) && Enabled(Do(c, s1, b), d)
    ensures Exec(c, s, before + [a, b, d]) == Some(Do(c, Do(c, Do(c, Exec(c, s, before).value, a), b), d))
  {
    hide Do, Enabled;
    ExecTwo(c, s, before, a, b);
    ExecNext(c, s, before + [a, b], d);
    assert (before + [a, b]) + [d] == before + [a, b, d];
  }

  class Collector {
    const queueSize: nat
    const batchSize: nat
    var queue: seq<Event>
    var closed: bool
    var dropped: nat
    var sent: nat
    var failed: nat
    var batch: seq<Event>
    /** What the reporter was given. */
    var reported: seq<seq<Event>>

    ghost predicate Valid()
      reads this
    {
      0 < queueSize && |queue| <= queueSize && |batch| < batchSize
    }

    constructor (queueSize: int, batchSize: int)
      ensures Valid() && queue == [] && batch == [] && reported == [] && !closed
      ensures dropped == sent == failed == 0
      ensures 0 < this.queueSize <= 100_000 && 0 < this.batchSize <= 1000
      ensures 0 < queueSize <= 100_000 ==> this.queueSize == queueSize
      ensures 0 < batchSize <= 1000 ==> this.batchSize == batchSize
    {
      this.queueSize, this.batchSize := Clamp(queueSize, 100_000, 512), Clamp(batchSize, 1000, 200);
      queue, closed, batch, reported := [], false, [], [];
      dropped, sent, failed := 0, 0, 0;
    }

    /** Without interference an emit always gets its event in, at the price of at most the oldest. */
    method Emit(e: Event) returns (ok: bool)
      requires Valid()
      modifies this`queue, this`dropped
      ensures Valid() && ok == !closed
      ensures closed ==> queue == old(queue) && dropped == old(dropped)
      ensures !closed ==> queue == Newest(old(queue) + [e], queueSize)
      ensures |queue| + dropped == old(|queue| + dropped) + if closed then 0 else 1
    {
      if closed {
        return false;
      }
      if |queue| < queueSize {
        queue := queue + [e];
        return true;
      }
      // Nobody else fills the queue in between, so the retry succeeds.
      queue := queue[1..];
      dropped := dropped + 1;
      queue := queue + [e];
      return true;
    }

    method Close()
      modifies this`closed
      ensures closed
    {
      closed := true;
    }

    method Flush(success: bool)
      requires |batch| <= batchSize && 0 < batchSize
      modifies this`batch, this`reported, this`sent, this`failed
      ensures batch == []
      ensures Flat(reported) == old(Flat(reported)) + old(batch)
      ensures old(batch) == [] ==> reported == old(reported)
      ensures old(batch) != [] ==> reported == old(reported) + [old(batch)]
      ensures sent == old(sent) + if success then |old(batch)| else 0
      ensures failed == old(failed) + if success then 0 else |old(batch)|
    {
      if |batch| == 0 {
        return;
      }
      reported := reported + [batch];
      FlatNext(old(reported), batch);
      if success {
        sent := sent + |batch|;
      } else {
        failed := failed + |batch|;
      }
      batch := [];
    }

    /** The drain of a clean shutdown: everything queued is reported, in order, in batches of the
        configured size; `successes` says how the reports fare. */
    method Drain(successes: nat -> bool)
      requires Valid()
      modifies this`queue, this`batch, this`reported, this`sent, this`failed
      ensures Valid() && queue == [] && batch == []
      ensures Flat(reported) == old(Flat(reported) + batch + queue)
      ensures sent + failed == old(sent + failed + |batch| + |queue|)
      ensures |old(reported)| <= |reported|
      ensures forall k | |old(reported)| <= k < |reported| :: 0 < |reported[k]| <= batchSize
      ensures forall k | |old(reported)| <= k < |reported| - 1 :: |reported[k]| == batchSize
    {
      while queue != []
        invariant Valid()
        invariant Flat(reported) + batch + queue == old(Flat(reported) + batch + queue)
        invariant sent + failed + |batch| + |queue| == old(sent + failed + |batch| + |queue|)
        invariant |old(reported)| <= |reported|
        invariant forall k | |old(reported)| <= k < |reported| :: |reported[k]| == batchSize
        decreases |queue|
      {
        assert Flat(reported) + batch + queue == Flat(reported) + (batch + [queue[0]]) + queue[1..];
        batch := batch + [queue[0]];
        queue := queue[1..];
        if |batch| >= batchSize {
          assert Flat(reported) + batch + queue == (Flat(reported) + batch) + [] + queue;
          Flush(successes(|reported|));
        }
      }
      Flush(successes(|reported|));
    }
  }
}
