/** What each event achieves, said in terms of the path's fields and not of how it is done: who is answered
    and with what, what is left waiting, which machine and hook are off, what is being recorded. */
module PathEffects {
  import opened Wrappers
  import opened PathConf
  import opened PathSpec

  predicate NothingHeld(s: State) {
    s.requests.describes == [] && s.requests.readers == []
  }

  /** All held requests were answered alike, describes first, and none is left. */
  ghost predicate AllAnswered(s: State, t: State, r: Response) {
    && NothingHeld(t) && t.requests.accepted == s.requests.accepted
    && t.requests.answers == s.requests.answers + Answers(s.requests.HeldIds(), r)
  }

  lemma AnswersConcat(a: seq<nat>, b: seq<nat>, r: Response)
    ensures Answers(a + b, r) == Answers(a, r) + Answers(b, r)
  {
  }

  lemma AnswerHeldIsAllAnswered(q: Requests, r: Response)
    ensures q.AnswerHeld(r).answers == q.answers + Answers(q.HeldIds(), r)
  {
    AnswersConcat(q.describes, ReaderIds(q.readers), r);
  }

  /** The start timeout of a source: all held requests are told, the source is off. */
  lemma StaticReadyTimerEffect(s: State)
    requires Inv(s) && s.static_.readyTimer
    ensures var t := Step(s, StaticReadyTimer);
            AllAnswered(s, t, TimedOut) && t.static_ == Idle && !t.handler.running && !t.stream
  {
    AnswerHeldIsAllAnswered(s.requests, TimedOut);
  }

  /** The close timeout of a source: nothing plays, nothing records, the source is off. */
  lemma StaticCloseTimerEffect(s: State)
    requires Inv(s) && s.static_.closeTimer
    ensures var t := Step(s, StaticCloseTimer);
            && t.static_ == Idle && !t.handler.running && !t.stream
            && t.readers == {} && t.out == NoOutputs && t.requests == s.requests
  {
  }

  /** The start timeout of a publisher: all held requests are told, the command is off. */
  lemma PublisherReadyTimerEffect(s: State)
    requires Inv(s) && s.publisher.readyTimer
    ensures var t := Step(s, PublisherReadyTimer);
            AllAnswered(s, t, TimedOut) && t.publisher == Idle && !t.hooks.unDemand
  {
    AnswerHeldIsAllAnswered(s.requests, TimedOut);
  }

  /** The close timeout of a publisher: the command is off, and nobody is told. */
  lemma PublisherCloseTimerEffect(s: State)
    requires Inv(s) && s.publisher.closeTimer
    ensures var t := Step(s, PublisherCloseTimer);
            t.publisher == Idle && !t.hooks.unDemand && t.requests == s.requests && t.stream == s.stream
  {
  }

  /** A reload: recorder and forwarders are what the new configuration wants, whatever they were. */
  lemma ReloadEffect(s: State, c: Conf)
    requires Inv(s) && Enabled(s, ReloadConf(c))
    ensures var t := Step(s, ReloadConf(c));
            t == s.(conf := c, out := WantedOutputs(s.node, s.stream, c))
  {
    StepKeepsInv(s, ReloadConf(c));
  }

  /** All held requests were answered in order, describes first and then `more`: a describe with the stream, a
      reader with the stream exactly if it reads now, and turned away only by a full path. */
  ghost predicate HeldServed(s: State, t: State, more: seq<Answer>) {
    var q, n := s.requests, |s.requests.answers| + |s.requests.describes|;
    && NothingHeld(t) && |t.requests.answers| == n + |q.readers| + |more|
    && t.requests.answers[..n] == q.answers + Answers(q.describes, StreamGiven)
    && (forall i | 0 <= i < |q.readers| :: t.requests.answers[n + i] == ReaderAnswer(q.readers[i], t))
    && t.requests.answers[n + |q.readers|..] == more
    && (forall i | 0 <= i < |q.readers| :: q.readers[i].author !in t.readers ==> Full(t))
  }

  function ReaderAnswer(q: ReaderRequest, t: State): Answer {
    Answer(q.id, if q.author in t.readers then StreamGiven else TooManyReaders)
  }

  lemma ConsumeServesHeld(s: State)
    ensures HeldServed(s, ConsumeOnHold(s), [])
  {
    var q := s.requests;
    var s1 := s.(requests := q.(answers := q.answers + Answers(q.describes, StreamGiven), describes := []));
    WaitingReadersAreAnsweredFairly(s1, q.readers);
    ConsumeOnHoldEffect(s);
    hide AddReaderPosts, AdmitsOnly;
    var t := ConsumeOnHold(s);
    assert NothingHeld(t) by { AdmitsKeep(s.(requests := q.(describes := [], readers := [])), t); }
  }

  lemma ServedAlike(s: State, s1: State, t: State, more: seq<Answer>)
    requires HeldServed(s1, t, more) && s1.requests == s.requests.(accepted := s1.requests.accepted)
    ensures HeldServed(s, t, more)
  {
  }

  lemma ServedAndMore(s: State, t: State, id: nat, r: Response)
    requires HeldServed(s, t, [])
    ensures HeldServed(s, Reply(t, id, r), [Answer(id, r)])
  {
  }

  /** A ready source: the stream is open and every held request is answered, each once and in order. */
  lemma StaticReadyEffect(s: State)
    requires Inv(s) && Enabled(s, StaticSetReady)
    ensures var t := Step(s, StaticSetReady);
            t.stream && t.handler.ready && HeldServed(s, t, [])
    ensures Step(s, StaticSetReady).requests.AnsweredIds() == s.requests.AnsweredIds() + s.requests.HeldIds()
  {
    var s1 := SourceBecomesReady(s);
    assert s1.requests == s.requests && s1.stream && s1.handler.ready;
    assert Step(s, StaticSetReady) == ConsumeOnHold(s1);
    hide Inv, SourceBecomesReady, ConsumeOnHold, HeldServed;
    ConsumeOnHoldEffect(s1);
    ConsumeServesHeld(s1);
    ServedAlike(s, s1, ConsumeOnHold(s1), []);
  }

  /** A source no longer ready: unless the stream is always available it is closed and nobody reads. */
  lemma StaticNotReadyEffect(s: State)
    requires Inv(s) && Enabled(s, StaticSetNotReady)
    ensures var t := Step(s, StaticSetNotReady);
            && !t.handler.ready && t.requests == s.requests
            && (!s.conf.alwaysAvailable ==> !t.stream && t.readers == {} && t.out == NoOutputs)
            && (s.conf.HasOnDemandStaticSource() ==> t.static_ == Idle && !t.handler.running)
  {
  }

  /** One more answer, this one to this request. */
  ghost predicate Answered(s: State, t: State, id: nat, r: Response) {
    && t.requests.describes == s.requests.describes && t.requests.readers == s.requests.readers
    && t.requests.answers == s.requests.answers + [Answer(id, r)]
  }

  /** Something that will produce a stream was set going and is waited for. */
  predicate Awaited(t: State) {
    !t.stream && (!t.static_.state.Initial? || !t.publisher.state.Initial?)
  }

  /** Someone is to be asked for a stream that is not there. */
  predicate OnDemand(c: Conf) {
    c.HasOnDemandStaticSource() || c.HasOnDemandPublisher()
  }

  /** A describe is sent elsewhere, given the stream, held while something is on its way, sent to the fallback, or
      told that there is no stream, in this order. */
  ghost predicate DescribeServed(s: State, t: State, id: nat) {
    && t.requests.accepted == s.requests.accepted + [id]
    && (s.conf.source == Redirected ==> Answered(s, t, id, RedirectedTo(s.conf.sourceRedirect)))
    && (s.conf.source != Redirected && s.stream ==> Answered(s, t, id, StreamGiven))
    && (s.conf.source != Redirected && !s.stream && OnDemand(s.conf) ==>
          && Awaited(t) && t.requests.answers == s.requests.answers
          && t.requests.describes == s.requests.describes + [id] && t.requests.readers == s.requests.readers)
    && (s.conf.source != Redirected && !s.stream && !OnDemand(s.conf) ==>
          Answered(s, t, id, if s.conf.fallback.Some? then RedirectedTo(s.conf.fallback.value)
                             else NoStreamAvailable))
  }

  lemma DescribeEffect(s: State, id: nat)
    requires Inv(s)
    ensures DescribeServed(s, Step(s, Describe(id)), id)
  {
  }

  /** A reader is given the stream and reads, is turned away by a full path, is held while something is on its way,
      or is told that there is no stream. */
  ghost predicate ReaderServed(s: State, t: State, q: ReaderRequest) {
    && t.requests.accepted == s.requests.accepted + [q.id]
    && (s.stream ==>
          && Answered(s, t, q.id, if q.author in t.readers then StreamGiven else TooManyReaders)
          && t.readers == (if q.author in t.readers then s.readers + {q.author} else s.readers)
          && (q.author !in t.readers <==> q.author !in s.readers && Full(s)))
    && (!s.stream && OnDemand(s.conf) ==>
          && Awaited(t) && t.requests.answers == s.requests.answers
          && t.requests.readers == s.requests.readers + [q] && t.requests.describes == s.requests.describes)
    && (!s.stream && !OnDemand(s.conf) ==> Answered(s, t, q.id, NoStreamAvailable))
    && (!s.stream ==> t.readers == {})
  }

  lemma AddReaderEffect(s: State, q: ReaderRequest)
    requires Inv(s)
    ensures ReaderServed(s, Step(s, AddReader(q)), q)
  {
  }

  /** A publisher is refused and nothing changes, or it is the source, the stream is open and every held
      request was answered before it. */
  ghost predicate PublisherServed(s: State, t: State, id: nat, author: nat) {
    && t.requests.accepted == s.requests.accepted + [id]
    && (if s.conf.source == FromPublisher && (s.source.NoSource? || s.conf.overridePublisher)
        then && t.source == PublishedBy(author) && t.stream && HeldServed(s, t, [Answer(id, PublishStarted)])
        else && t.(requests := s.requests) == s
             && Answered(s, t, id, if s.conf.source == FromPublisher then AlreadyPublishing
                                   else NotAPublisherPath))
  }

  lemma AddPublisherEffect(s: State, id: nat, author: nat)
    requires Inv(s)
    ensures PublisherServed(s, Step(s, AddPublisher(id, author)), id, author)
  {
    if s.conf.source == FromPublisher && (s.source.NoSource? || s.conf.overridePublisher) {
      TakeOverServesHeld(s, id, author);
    }
  }

  lemma TakeOverServesHeld(s: State, id: nat, author: nat)
    requires Inv(s) && s.conf.source == FromPublisher && (s.source.NoSource? || s.conf.overridePublisher)
    ensures var t := Step(s, AddPublisher(id, author));
            && t.source == PublishedBy(author) && t.stream && HeldServed(s, t, [Answer(id, PublishStarted)])
            && t.requests.accepted == s.requests.accepted + [id]
  {
    var s1 := PublisherTakesOver(Accepting(s, id), author);
    assert s1.requests == s.requests.Accept(id) && s1.source == PublishedBy(author) && s1.stream;
    assert Step(s, AddPublisher(id, author)) == Reply(ConsumeOnHold(s1), id, PublishStarted);
    PublishingServesHeld(s, s1, id);
  }

  /** What was accepted meanwhile makes no difference to those who wait. */
  lemma PublishingServesHeld(s: State, s1: State, id: nat)
    requires s1.requests == s.requests.Accept(id)
    ensures var t := Reply(ConsumeOnHold(s1), id, PublishStarted);
            && HeldServed(s, t, [Answer(id, PublishStarted)])
            && t.source == s1.source && t.stream == s1.stream && t.requests.accepted == s1.requests.accepted
  {
    ConsumeOnHoldEffect(s1);
    ConsumeServesHeld(s1);
    ServedAndMore(s1, ConsumeOnHold(s1), id, PublishStarted);
    hide ConsumeOnHold, AdmitsOnly, HeldServed;
    ServedAlike(s, s1, Reply(ConsumeOnHold(s1), id, PublishStarted), [Answer(id, PublishStarted)]);
    AdmitsKeep(s1.(requests := s1.requests.(describes := [], readers := [])), ConsumeOnHold(s1));
  }

  lemma AdmitsKeep(s: State, t: State)
    requires AdmitsOnly(s, t)
    ensures t.source == s.source && t.stream == s.stream && t.requests.accepted == s.requests.accepted
    ensures t.requests.describes == s.requests.describes && t.requests.readers == s.requests.readers
  {
  }

  /** Only the publisher itself can leave; held requests stay held. */
  lemma RemovePublisherEffect(s: State, author: nat)
    requires Inv(s)
    ensures var t := Step(s, RemovePublisher(author));
            && t.source != PublishedBy(author) && t.requests == s.requests
            && (s.source != PublishedBy(author) ==> t == s)
            && (s.source == PublishedBy(author) && !s.conf.alwaysAvailable ==>
                  !t.stream && t.readers == {} && t.out == NoOutputs)
  {
  }

  /** A reader leaves; if it was the last, no on-demand machine stays ready without its close timer. */
  lemma RemoveReaderEffect(s: State, author: nat)
    requires Inv(s)
    ensures var t := Step(s, RemoveReader(author));
            && t.readers == s.readers - {author} && t.requests == s.requests && t.stream == s.stream
            && (t.readers == {} ==>
                  && (s.static_.state.Ready? ==> t.static_ == Machine(Closing, false, true))
                  && (s.publisher.state.Ready? ==> t.publisher == Machine(Closing, false, true)))
  {
  }
}
