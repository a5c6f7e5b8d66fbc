/** The path object of internal/core/path.go: its fields, its handlers, its event loop. Every
    method is proved against the step function of PathSpec that specifies it, so the theorems
    about runs are theorems about this code. Answers go to the `answers` list in the order the
    source sends them; the counters are history. */
module PathActor {
  import opened Wrappers
  import opened PathConf
  import opened PathSpec
  import opened PathEffects

  class Path {
    const node: Node
    var conf: Conf
    var source: Source
    var stream: bool
    var out: Outputs
    var readers: set<nat>
    var requests: Requests
    var static_: Machine
    var publisher: Machine
    var hooks: Hooks
    var handler: Handler
    var fault: bool
    ghost var counts: Counts

    ghost function View(): State
      reads this
    {
      State(node, conf, source, stream, out, readers, requests, static_, publisher, hooks, handler, fault, counts)
    }

    /** The invariant of every run. */
    ghost predicate Valid()
      reads this
    {
      Inv(View())
    }

    /** Up to entering the event loop. */
    constructor (node: Node, conf: Conf)
      ensures View() == Start(node, conf)
    {
      this.node, this.conf := node, conf;
      source, stream := NoSource, false;
      out, readers, requests := NoOutputs, {}, Requests([], [], [], []);
      static_, publisher := Idle, Idle;
      hooks, handler, fault := Hooks(false, false), Handler(false, false), false;
      counts := Counts(0, 0, 0, 0, 0, 0);
      new;
      if conf.alwaysAvailable {
        SetAvailable();
      }
      if conf.source == Redirected {
        source := RedirectSource;
      } else if conf.HasStaticSource() {
        source := StaticSource;
        if !conf.sourceOnDemand {
          handler := handler.(running := true);
          counts := counts.(sourceStarts := 1);
        }
      }
    }

    method StaticStart()
      modifies this
      ensures View() == PathSpec.StaticStart(old(View()))
    {
      fault := fault || handler.running || !source.StaticSource?;
      handler := handler.(running := true);
      counts := counts.(sourceStarts := counts.sourceStarts + 1);
      static_ := static_.(readyTimer := true);
      static_ := static_.(state := WaitingReady);
    }

    method StaticScheduleClose()
      modifies this
      ensures View() == PathSpec.StaticScheduleClose(old(View()))
    {
      static_ := static_.(closeTimer := true);
      static_ := static_.(state := Closing);
    }

    method StaticStop()
      modifies this
      ensures View() == PathSpec.StaticStop(old(View()))
    {
      if static_.state.Closing? {
        static_ := static_.(closeTimer := false);
      }
      static_ := static_.(state := Initial);
      fault := fault || !handler.running || !source.StaticSource?;
      handler := Handler(false, false);
      counts := counts.(sourceStops := counts.sourceStops + 1);
    }

    method PublisherStart()
      modifies this
      ensures View() == PathSpec.PublisherStart(old(View()))
    {
      hooks := hooks.(unDemand := true);
      counts := counts.(demands := counts.demands + 1);
      publisher := publisher.(readyTimer := true);
      publisher := publisher.(state := WaitingReady);
    }

    method PublisherScheduleClose()
      modifies this
      ensures View() == PathSpec.PublisherScheduleClose(old(View()))
    {
      publisher := publisher.(closeTimer := true);
      publisher := publisher.(state := Closing);
    }

    method PublisherStop()
      modifies this
      ensures View() == PathSpec.PublisherStop(old(View()))
    {
      if publisher.state.Closing? {
        publisher := publisher.(closeTimer := false);
      }
      fault := fault || !hooks.unDemand;
      counts := counts.(unDemands := counts.unDemands + 1);
      hooks := hooks.(unDemand := false);
      publisher := publisher.(state := Initial);
    }

    method SetAvailable()
      modifies this
      ensures View() == PathSpec.SetAvailable(old(View()))
    {
      fault := fault || stream;
      stream := true;
      if conf.record {
        out := out.(recorder := Some(conf.recordSettings));
      }
      if conf.forwardTencent && node.tencentEnable {
        out := out.(tencent := Some(conf.forwardTencentStreamKey));
      }
      if conf.forwardMmx && node.mmxEnable {
        out := out.(mmx := conf.MmxTargets());
      }
      hooks := hooks.(notReady := true);
      counts := counts.(readyCalls := counts.readyCalls + 1);
    }

    method SetNotAvailable()
      modifies this
      ensures View() == PathSpec.SetNotAvailable(old(View()))
    {
      while readers != {}
        invariant View() == old(View()).(readers := readers)
      {
        var r :| r in readers;
        readers := readers - {r};
      }
      fault := fault || !hooks.notReady;
      hooks := hooks.(notReady := false);
      counts := counts.(notReadyCalls := counts.notReadyCalls + 1);
      if out.recorder.Some? {
        out := out.(recorder := None);
      }
      out := out.(tencent := None);
      out := out.(mmx := []);
      stream := false;
    }

    method ExecuteRemovePublisher()
      modifies this
      ensures View() == PathSpec.ExecuteRemovePublisher(old(View()))
    {
      if !conf.alwaysAvailable {
        SetNotAvailable();
      } else {
        fault := fault || !stream;
      }
      source := NoSource;
    }

    method Reply(id: nat, r: Response)
      modifies this`requests
      ensures requests == old(requests).AnswerOne(id, r)
    {
      requests := requests.(answers := requests.answers + [Answer(id, r)]);
    }

    /** The loop over the held describe requests, answering each alike. */
    method ReplyToDescribes(r: Response)
      modifies this`requests
      ensures requests == old(requests).(answers := old(requests).answers + Answers(old(requests).describes, r))
    {
      var ids := requests.describes;
      for i := 0 to |ids|
        invariant requests == old(requests).(answers := old(requests).answers + Answers(ids[..i], r))
      {
        Reply(ids[i], r);
        assert Answers(ids[..i + 1], r) == Answers(ids[..i], r) + [Answer(ids[i], r)];
        assert old(requests).answers + Answers(ids[..i + 1], r)
            == old(requests).answers + Answers(ids[..i], r) + [Answer(ids[i], r)];
      }
      assert ids[..|ids|] == ids;
    }

    /** The loop over the held reader requests, answering each alike. */
    method ReplyToReaders(r: Response)
      modifies this`requests
      ensures requests == old(requests).(answers := old(requests).answers
                                                    + Answers(ReaderIds(old(requests).readers), r))
    {
      var rs := requests.readers;
      for i := 0 to |rs|
        invariant requests == old(requests).(answers := old(requests).answers + Answers(ReaderIds(rs[..i]), r))
      {
        Reply(rs[i].id, r);
        assert Answers(ReaderIds(rs[..i + 1]), r) == Answers(ReaderIds(rs[..i]), r) + [Answer(rs[i].id, r)];
        assert old(requests).answers + Answers(ReaderIds(rs[..i + 1]), r)
            == old(requests).answers + Answers(ReaderIds(rs[..i]), r) + [Answer(rs[i].id, r)];
      }
      assert rs[..|rs|] == rs;
    }

    method ReplyToHeld(r: Response)
      modifies this`requests
      ensures requests == old(requests).AnswerHeld(r)
    {
      ReplyToDescribes(r);
      ReplyToReaders(r);
      requests := requests.(describes := [], readers := []);
    }

    method AddReaderPost(q: ReaderRequest)
      modifies this
      ensures View() == PathSpec.AddReaderPost(old(View()), q)
    {
      if q.author in readers {
        Reply(q.id, StreamGiven);
        return;
      }
      if conf.maxReaders != 0 && |readers| >= conf.maxReaders {
        Reply(q.id, TooManyReaders);
        return;
      }
      readers := readers + {q.author};
      if conf.HasOnDemandStaticSource() {
        if static_.state.Closing? {
          static_ := static_.(state := Ready, closeTimer := false);
        }
      } else if conf.HasOnDemandPublisher() {
        if publisher.state.Closing? {
          publisher := publisher.(state := Ready, closeTimer := false);
        }
      }
      Reply(q.id, StreamGiven);
    }

    method ConsumeOnHoldRequests()
      modifies this
      ensures View() == PathSpec.ConsumeOnHold(old(View()))
    {
      ReplyToDescribes(StreamGiven);
      requests := requests.(describes := []);
      ghost var s1 := View();
      var rs := requests.readers;
      for i := 0 to |rs|
        invariant View() == AddReaderPosts(s1, rs[..i])
      {
        assert rs[..i + 1][..i] == rs[..i];
        AddReaderPost(rs[i]);
      }
      assert rs[..|rs|] == rs;
      requests := requests.(readers := []);
    }

    method DoStaticReadyTimer()
      requires Valid() && static_.readyTimer
      modifies this
      ensures Valid() && View() == Step(old(View()), StaticReadyTimer)
      ensures requests.describes == [] && requests.readers == []
      ensures requests.answers == old(requests.answers) + Answers(old(requests).HeldIds(), TimedOut)
      ensures static_ == Idle && !handler.running && !stream
    {
      StepKeepsInv(View(), StaticReadyTimer);
      StaticReadyTimerEffect(View());
      hide Inv;
      static_ := static_.(readyTimer := false);
      ReplyToHeld(TimedOut);
      StaticStop();
    }

    method DoStaticCloseTimer()
      requires Valid() && static_.closeTimer
      modifies this
      ensures Valid() && View() == Step(old(View()), StaticCloseTimer)
      ensures static_ == Idle && !handler.running && requests == old(requests)
      ensures !stream && readers == {} && out == NoOutputs
    {
      StepKeepsInv(View(), StaticCloseTimer);
      StaticCloseTimerEffect(View());
      hide Inv;
      static_ := static_.(closeTimer := false);
      fault := fault || conf.alwaysAvailable;
      SetNotAvailable();
      StaticStop();
    }

    method DoPublisherReadyTimer()
      requires Valid() && publisher.readyTimer
      modifies this
      ensures Valid() && View() == Step(old(View()), PublisherReadyTimer)
      ensures requests.describes == [] && requests.readers == []
      ensures requests.answers == old(requests.answers) + Answers(old(requests).HeldIds(), TimedOut)
      ensures publisher == Idle && !hooks.unDemand
    {
      StepKeepsInv(View(), PublisherReadyTimer);
      PublisherReadyTimerEffect(View());
      hide Inv;
      publisher := publisher.(readyTimer := false);
      ReplyToHeld(TimedOut);
      PublisherStop();
    }

    method DoPublisherCloseTimer()
      requires Valid() && publisher.closeTimer
      modifies this
      ensures Valid() && View() == Step(old(View()), PublisherCloseTimer)
      ensures publisher == Idle && !hooks.unDemand && requests == old(requests) && stream == old(stream)
    {
      StepKeepsInv(View(), PublisherCloseTimer);
      PublisherCloseTimerEffect(View());
      hide Inv;
      publisher := publisher.(closeTimer := false);
      PublisherStop();
    }

    method ReloadRecorder(oldConf: Conf, newConf: Conf)
      modifies this`out
      ensures out == old(out).(recorder := ReloadedRecorder(stream, oldConf, newConf, old(out).recorder))
    {
      if out.recorder.Some? && (newConf.record != oldConf.record || newConf.recordSettings != oldConf.recordSettings
                                || newConf.recordDeleteAfter != oldConf.recordDeleteAfter) {
        out := out.(recorder := None);
      }
      if newConf.record && stream && out.recorder.None? {
        out := out.(recorder := Some(newConf.recordSettings));
      }
    }

    method ReloadTencent(oldConf: Conf, newConf: Conf)
      modifies this`out
      ensures out == old(out).(tencent := ReloadedTencent(node, stream, oldConf, newConf, old(out).tencent))
    {
      if out.tencent.Some? && (newConf.forwardTencent != oldConf.forwardTencent
                               || newConf.forwardTencentStreamKey != oldConf.forwardTencentStreamKey) {
        out := out.(tencent := None);
      }
      if newConf.forwardTencent && node.tencentEnable && stream && out.tencent.None? {
        out := out.(tencent := Some(newConf.forwardTencentStreamKey));
      }
    }

    method ReloadMmx(oldConf: Conf, newConf: Conf)
      modifies this`out
      ensures out == old(out).(mmx := ReloadedMmx(node, stream, oldConf, newConf, old(out).mmx))
    {
      if |out.mmx| > 0 && (newConf.forwardMmx != oldConf.forwardMmx
                           || newConf.MmxTargets() != oldConf.MmxTargets()) {
        out := out.(mmx := []);
      }
      if newConf.forwardMmx && node.mmxEnable && stream && |out.mmx| == 0 {
        out := out.(mmx := newConf.MmxTargets());
      }
    }

    method DoReloadConf(newConf: Conf)
      requires Valid() && newConf.Validated() && CanBeUpdated(conf, newConf)
      modifies this
      ensures Valid() && View() == Step(old(View()), ReloadConf(newConf))
      ensures out == WantedOutputs(node, stream, conf)
      ensures View() == old(View()).(conf := newConf, out := out)
    {
      StepKeepsInv(View(), ReloadConf(newConf));
      ReloadEffect(View(), newConf);
      hide Inv;
      var oldConf := conf;
      conf := newConf;
      fault := fault || (conf.HasStaticSource() && !source.StaticSource?);
      ReloadRecorder(oldConf, newConf);
      ReloadTencent(oldConf, newConf);
      ReloadMmx(oldConf, newConf);
    }

    method DoSourceStaticSetReady()
      requires Valid() && handler.running && !handler.ready
      modifies this
      ensures Valid() && View() == Step(old(View()), StaticSetReady)
      ensures stream && handler.ready && HeldServed(old(View()), View(), [])
    {
      StepKeepsInv(View(), StaticSetReady);
      StaticReadyEffect(View());
      hide Inv, SourceBecomesReady, ConsumeOnHold, HeldServed;
      BecomeReady();
      ConsumeOnHoldRequests();
    }

    /** Opens the stream and, on demand, gives the source until its close timeout to find a reader. */
    method BecomeReady()
      modifies this
      ensures View() == SourceBecomesReady(old(View()))
    {
      if !conf.alwaysAvailable {
        SetAvailable();
      } else {
        fault := fault || !stream;
      }
      handler := handler.(ready := true);
      if conf.HasOnDemandStaticSource() {
        static_ := static_.(readyTimer := false);
        StaticScheduleClose();
      }
    }

    method DoSourceStaticSetNotReady()
      requires Valid() && handler.running && handler.ready
      modifies this
      ensures Valid() && View() == Step(old(View()), StaticSetNotReady)
      ensures !handler.ready && requests == old(requests)
      ensures !conf.alwaysAvailable ==> !stream && readers == {} && out == NoOutputs
      ensures conf.HasOnDemandStaticSource() ==> static_ == Idle && !handler.running
    {
      StepKeepsInv(View(), StaticSetNotReady);
      StaticNotReadyEffect(View());
      hide Inv;
      if !conf.alwaysAvailable {
        SetNotAvailable();
      } else {
        fault := fault || !stream;
      }
      handler := handler.(ready := false);
      if conf.HasOnDemandStaticSource() && !static_.state.Initial? {
        StaticStop();
      }
    }

    method DoDescribe(id: nat)
      requires Valid()
      modifies this
      ensures Valid() && View() == Step(old(View()), Describe(id))
      ensures DescribeServed(old(View()), View(), id)
    {
      StepKeepsInv(View(), Describe(id));
      DescribeEffect(View(), id);
      hide Inv, DescribeServed;
      requests := requests.(accepted := requests.accepted + [id]);
      if source.RedirectSource? {
        Reply(id, RedirectedTo(conf.sourceRedirect));
      } else if stream {
        Reply(id, StreamGiven);
      } else if conf.HasOnDemandStaticSource() {
        if static_.state.Initial? {
          StaticStart();
        }
        requests := requests.(describes := requests.describes + [id]);
      } else if conf.HasOnDemandPublisher() {
        if publisher.state.Initial? {
          PublisherStart();
        }
        requests := requests.(describes := requests.describes + [id]);
      } else if conf.fallback.Some? {
        Reply(id, RedirectedTo(conf.fallback.value));
      } else {
        Reply(id, NoStreamAvailable);
      }
    }

    method DoRemovePublisher(author: nat)
      requires Valid()
      modifies this
      ensures Valid() && View() == Step(old(View()), RemovePublisher(author))
      ensures source != PublishedBy(author) && requests == old(requests)
      ensures old(source) != PublishedBy(author) ==> View() == old(View())
      ensures old(source) == PublishedBy(author) && !conf.alwaysAvailable ==>
                !stream && readers == {} && out == NoOutputs
    {
      StepKeepsInv(View(), RemovePublisher(author));
      RemovePublisherEffect(View(), author);
      hide Inv;
      if source == PublishedBy(author) {
        ExecuteRemovePublisher();
      }
    }

    /** Closes the publisher that is there, if any, and opens the stream for the new one. */
    method TakeOver(author: nat)
      modifies this
      ensures View() == PublisherTakesOver(old(View()), author)
    {
      if !source.NoSource? {
        fault := fault || !source.PublishedBy?;
        ExecuteRemovePublisher();
      }
      if !conf.alwaysAvailable {
        SetAvailable();
      } else {
        fault := fault || !stream;
      }
      source := PublishedBy(author);
      if conf.HasOnDemandPublisher() && !publisher.state.Initial? {
        publisher := publisher.(readyTimer := false);
        PublisherScheduleClose();
      }
    }

    method DoAddPublisher(id: nat, author: nat)
      requires Valid()
      modifies this
      ensures Valid() && View() == Step(old(View()), AddPublisher(id, author))
      ensures PublisherServed(old(View()), View(), id, author)
    {
      StepKeepsInv(View(), AddPublisher(id, author));
      AddPublisherEffect(View(), id, author);
      hide Inv, PublisherServed, PathSpec.DoAddPublisher;
      requests := requests.(accepted := requests.accepted + [id]);
      ServePublisher(id, author);
    }

    method ServePublisher(id: nat, author: nat)
      modifies this
      ensures View() == PathSpec.DoAddPublisher(old(View()), id, author)
    {
      if conf.source != FromPublisher {
        Reply(id, NotAPublisherPath);
        return;
      }
      if !source.NoSource? && !conf.overridePublisher {
        Reply(id, AlreadyPublishing);
        return;
      }
      TakeOver(author);
      ConsumeOnHoldRequests();
      Reply(id, PublishStarted);
    }

    method DoAddReader(q: ReaderRequest)
      requires Valid()
      modifies this
      ensures Valid() && View() == Step(old(View()), AddReader(q))
      ensures ReaderServed(old(View()), View(), q)
    {
      StepKeepsInv(View(), AddReader(q));
      AddReaderEffect(View(), q);
      hide Inv, ReaderServed;
      requests := requests.(accepted := requests.accepted + [q.id]);
      if stream {
        AddReaderPost(q);
      } else if conf.HasOnDemandStaticSource() {
        if static_.state.Initial? {
          StaticStart();
        }
        requests := requests.(readers := requests.readers + [q]);
      } else if conf.HasOnDemandPublisher() {
        if publisher.state.Initial? {
          PublisherStart();
        }
        requests := requests.(readers := requests.readers + [q]);
      } else {
        Reply(q.id, NoStreamAvailable);
      }
    }

    method DoRemoveReader(author: nat)
      requires Valid()
      modifies this
      ensures Valid() && View() == Step(old(View()), RemoveReader(author))
      ensures readers == old(readers) - {author} && requests == old(requests) && stream == old(stream)
      ensures readers == {} && old(static_.state).Ready? ==> static_ == Machine(Closing, false, true)
      ensures readers == {} && old(publisher.state).Ready? ==> publisher == Machine(Closing, false, true)
    {
      StepKeepsInv(View(), RemoveReader(author));
      RemoveReaderEffect(View(), author);
      hide Inv;
      readers := readers - {author};
      if readers == {} {
        if conf.HasOnDemandStaticSource() {
          if static_.state.Ready? {
            StaticScheduleClose();
          }
        } else if conf.HasOnDemandPublisher() {
          if publisher.state.Ready? {
            PublisherScheduleClose();
          }
        }
      }
    }

    /** One turn of the event loop. */
    method Handle(e: Event)
      requires Valid() && Enabled(View(), e)
      modifies this
      ensures Valid() && View() == Step(old(View()), e)
    {
      hide Inv, Step, HeldServed, DescribeServed, ReaderServed, PublisherServed;
      match e
      case StaticReadyTimer => DoStaticReadyTimer();
      case StaticCloseTimer => DoStaticCloseTimer();
      case PublisherReadyTimer => DoPublisherReadyTimer();
      case PublisherCloseTimer => DoPublisherCloseTimer();
      case ReloadConf(c) => DoReloadConf(c);
      case StaticSetReady => DoSourceStaticSetReady();
      case StaticSetNotReady => DoSourceStaticSetNotReady();
      case Describe(id) => DoDescribe(id);
      case AddPublisher(id, author) => DoAddPublisher(id, author);
      case RemovePublisher(author) => DoRemovePublisher(author);
      case AddReader(q) => DoAddReader(q);
      case RemoveReader(author) => DoRemoveReader(author);
    }

    /** After the event loop. */
    method Destroy()
      requires Valid()
      modifies this
      ensures View() == Terminate(old(View())) && Clean(View())
    {
      TerminateIsClean(View());
      hide Inv, Clean;
      static_ := static_.(readyTimer := false, closeTimer := false);
      publisher := publisher.(readyTimer := false, closeTimer := false);
      ReplyToHeld(Terminated);
      if stream {
        SetNotAvailable();
      }
      CloseSourceAndHook();
    }

    method CloseSourceAndHook()
      modifies this
      ensures View() == CloseSource(old(View()))
    {
      if source.StaticSource? && (!conf.sourceOnDemand || !static_.state.Initial?) {
        fault := fault || !handler.running;
        handler := Handler(false, false);
        counts := counts.(sourceStops := counts.sourceStops + 1);
      }
      if hooks.unDemand {
        counts := counts.(unDemands := counts.unDemands + 1);
      }
    }
  }

  /** `run`: start, handle every event the environment delivers, clean up. Whatever the events, the
      invariant holds all along, no step faults and what is left is clean. */
  method Live(node: Node, conf: Conf, es: seq<Event>) returns (pa: Path)
    requires conf.Validated() && Possible(Start(node, conf), es)
    ensures fresh(pa)
    ensures pa.View() == Terminate(Run(Start(node, conf), es))
    ensures Clean(pa.View())
  {
    hide Inv, Clean, Start, Step, Terminate, Enabled;
    pa := new Path(node, conf);
    StartOk(node, conf);
    for i := 0 to |es|
      invariant fresh(pa) && pa.Valid()
      invariant pa.View() == Run(Start(node, conf), es[..i])
    {
      PossibleAt(Start(node, conf), es, i);
      assert es[..i + 1][..i] == es[..i];
      pa.Handle(es[i]);
    }
    assert es[..|es|] == es;
    pa.Destroy();
  }

  lemma {:induction false} PossibleAt(s: State, es: seq<Event>, i: nat)
    requires Possible(s, es) && i < |es|
    ensures Enabled(Run(s, es[..i]), es[i])
  {
    if i < |es| - 1 {
      PossibleAt(s, es[..|es| - 1], i);
      assert es[..|es| - 1][..i] == es[..i];
    }
  }
}
