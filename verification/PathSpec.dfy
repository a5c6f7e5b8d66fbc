/** The life of one path (internal/core/path.go) as a step system: one pure function per handler
    of the event loop, and the theorems about every run.

    A timer is an armed flag, a hook is a flag saying it is set, and the static source handler is
    a flag saying it runs. `fault` records that the code would have panicked or broken a
    collaborator: a nil hook called, a handler started twice or stopped when idle, a stream
    replaced while open, a source of the wrong kind. Counters and the lists of accepted requests
    and answers are the history the theorems speak about. */
module PathSpec {
  import opened Wrappers
  import opened PathConf

  datatype OnDemandState = Initial | WaitingReady | Ready | Closing

  datatype Machine = Machine(state: OnDemandState, readyTimer: bool, closeTimer: bool)

  datatype Source = NoSource | RedirectSource | StaticSource | PublishedBy(author: nat)

  datatype Response =
    | StreamGiven
    | RedirectedTo(url: string)
    | PublishStarted
    | NoStreamAvailable
    | TimedOut
    | Terminated
    | TooManyReaders
    | NotAPublisherPath
    | AlreadyPublishing

  datatype Answer = Answer(id: nat, response: Response)

  datatype ReaderRequest = ReaderRequest(id: nat, author: nat)

  /** The node-wide switches of the two forwarders. */
  datatype Node = Node(tencentEnable: bool, mmxEnable: bool)

  /** Held requests, and the history of requests received and answers given. */
  datatype Requests = Requests(describes: seq<nat>, readers: seq<ReaderRequest>, accepted: seq<nat>,
                               answers: seq<Answer>)
  {
    function Accept(id: nat): Requests {
      this.(accepted := accepted + [id])
    }

    function AnswerOne(id: nat, r: Response): Requests {
      this.(answers := answers + [Answer(id, r)])
    }

    /** Answers every held request alike and forgets it. */
    function AnswerHeld(r: Response): Requests {
      Requests([], [], accepted, answers + Answers(describes, r) + Answers(ReaderIds(readers), r))
    }

    function HeldIds(): seq<nat> {
      describes + ReaderIds(readers)
    }

    function AnsweredIds(): seq<nat> {
      AnswerIds(answers)
    }

    /** No accepted request is lost or answered twice. */
    ghost predicate Balanced() {
      multiset(accepted) == multiset(AnsweredIds()) + multiset(HeldIds())
    }
  }

  function Answers(ids: seq<nat>, r: Response): (a: seq<Answer>)
    ensures |a| == |ids|
  {
    seq(|ids|, i requires 0 <= i < |ids| => Answer(ids[i], r))
  }

  function ReaderIds(rs: seq<ReaderRequest>): (ids: seq<nat>)
    ensures |ids| == |rs|
  {
    seq(|rs|, i requires 0 <= i < |rs| => rs[i].id)
  }

  function AnswerIds(a: seq<Answer>): (ids: seq<nat>)
    ensures |ids| == |a|
  {
    seq(|a|, i requires 0 <= i < |a| => a[i].id)
  }

  datatype Outputs = Outputs(recorder: Option<RecordSettings>, tencent: Option<string>, mmx: seq<Target>)

  const NoOutputs: Outputs := Outputs(None, None, [])

  /** Whether the un-demand and the not-ready hook are set. */
  datatype Hooks = Hooks(unDemand: bool, notReady: bool)

  /** The static source handler, as far as the path sees it. */
  datatype Handler = Handler(running: bool, ready: bool)

  datatype Counts = Counts(sourceStarts: nat, sourceStops: nat, demands: nat, unDemands: nat,
                           readyCalls: nat, notReadyCalls: nat)

  datatype State = State(
    node: Node,
    conf: Conf,
    source: Source,
    stream: bool,
    out: Outputs,
    readers: set<nat>,
    requests: Requests,
    static_: Machine,
    publisher: Machine,
    hooks: Hooks,
    handler: Handler,
    fault: bool,
    counts: Counts)

  datatype Event =
    | StaticReadyTimer
    | StaticCloseTimer
    | PublisherReadyTimer
    | PublisherCloseTimer
    | ReloadConf(newConf: Conf)
    | StaticSetReady
    | StaticSetNotReady
    | Describe(id: nat)
    | AddPublisher(id: nat, author: nat)
    | RemovePublisher(author: nat)
    | AddReader(request: ReaderRequest)
    | RemoveReader(author: nat)

  /** What the environment may deliver: timers that are armed, hot reloads the manager found
      compatible, ready and not-ready reports in the order a running source sends them. */
  predicate Enabled(s: State, e: Event) {
    match e
    case StaticReadyTimer => s.static_.readyTimer
    case StaticCloseTimer => s.static_.closeTimer
    case PublisherReadyTimer => s.publisher.readyTimer
    case PublisherCloseTimer => s.publisher.closeTimer
    case ReloadConf(c) => c.Validated() && CanBeUpdated(s.conf, c)
    case StaticSetReady => s.handler.running && !s.handler.ready
    case StaticSetNotReady => s.handler.running && s.handler.ready
    case _ => true
  }

  // ----- on-demand machines

  function StaticStart(s: State): State {
    s.(handler := s.handler.(running := true),
       counts := s.counts.(sourceStarts := s.counts.sourceStarts + 1),
       fault := s.fault || s.handler.running || !s.source.StaticSource?,
       static_ := s.static_.(readyTimer := true, state := WaitingReady))
  }

  function StaticScheduleClose(s: State): State {
    s.(static_ := s.static_.(closeTimer := true, state := Closing))
  }

  function StaticStop(s: State): State {
    s.(static_ := Machine(Initial, s.static_.readyTimer, s.static_.closeTimer && !s.static_.state.Closing?),
       handler := Handler(false, false),
       counts := s.counts.(sourceStops := s.counts.sourceStops + 1),
       fault := s.fault || !s.handler.running || !s.source.StaticSource?)
  }

  function PublisherStart(s: State): State {
    s.(hooks := s.hooks.(unDemand := true),
       counts := s.counts.(demands := s.counts.demands + 1),
       publisher := s.publisher.(readyTimer := true, state := WaitingReady))
  }

  function PublisherScheduleClose(s: State): State {
    s.(publisher := s.publisher.(closeTimer := true, state := Closing))
  }

  function PublisherStop(s: State): State {
    s.(publisher := Machine(Initial, s.publisher.readyTimer,
                            s.publisher.closeTimer && !s.publisher.state.Closing?),
       fault := s.fault || !s.hooks.unDemand,
       counts := s.counts.(unDemands := s.counts.unDemands + 1),
       hooks := s.hooks.(unDemand := false))
  }

  // ----- stream availability

  function StartedOutputs(n: Node, c: Conf, o: Outputs): Outputs {
    Outputs(if c.record then Some(c.recordSettings) else o.recorder,
            if c.forwardTencent && n.tencentEnable then Some(c.forwardTencentStreamKey) else o.tencent,
            if c.forwardMmx && n.mmxEnable then c.MmxTargets() else o.mmx)
  }

  function SetAvailable(s: State): State {
    s.(stream := true,
       fault := s.fault || s.stream,
       out := StartedOutputs(s.node, s.conf, s.out),
       hooks := s.hooks.(notReady := true),
       counts := s.counts.(readyCalls := s.counts.readyCalls + 1))
  }

  function SetNotAvailable(s: State): State {
    s.(readers := {},
       fault := s.fault || !s.hooks.notReady,
       counts := s.counts.(notReadyCalls := s.counts.notReadyCalls + 1),
       hooks := s.hooks.(notReady := false),
       out := NoOutputs,
       stream := false)
  }

  /** With `alwaysAvailable` the stream goes on with its offline content; it must be there. */
  function KeepStream(s: State): State {
    s.(fault := s.fault || !s.stream)
  }

  function ExecuteRemovePublisher(s: State): State {
    (if !s.conf.alwaysAvailable then SetNotAvailable(s) else KeepStream(s)).(source := NoSource)
  }

  // ----- requests

  /** A machine about to close is kept open by a new reader. */
  function KeptOpen(m: Machine): Machine {
    if m.state.Closing? then m.(state := Ready, closeTimer := false) else m
  }

  function AddReaderPost(s: State, q: ReaderRequest): State {
    if q.author in s.readers then
      s.(requests := s.requests.AnswerOne(q.id, StreamGiven))
    else if s.conf.maxReaders != 0 && |s.readers| >= s.conf.maxReaders then
      s.(requests := s.requests.AnswerOne(q.id, TooManyReaders))
    else
      s.(readers := s.readers + {q.author},
         static_ := if s.conf.HasOnDemandStaticSource() then KeptOpen(s.static_) else s.static_,
         publisher := if !s.conf.HasOnDemandStaticSource() && s.conf.HasOnDemandPublisher()
                      then KeptOpen(s.publisher) else s.publisher,
         requests := s.requests.AnswerOne(q.id, StreamGiven))
  }

  function AddReaderPosts(s: State, qs: seq<ReaderRequest>): State {
    if qs == [] then s
    else AddReaderPost(AddReaderPosts(s, qs[..|qs| - 1]), qs[|qs| - 1])
  }

  function ConsumeOnHold(s: State): State {
    var q := s.requests;
    var s1 := s.(requests := q.(answers := q.answers + Answers(q.describes, StreamGiven), describes := []));
    var s2 := AddReaderPosts(s1, q.readers);
    s2.(requests := s2.requests.(readers := []))
  }

  // ----- handlers

  function StartStaticIfInitial(s: State): State {
    if s.static_.state.Initial? then StaticStart(s) else s
  }

  function StartPublisherIfInitial(s: State): State {
    if s.publisher.state.Initial? then PublisherStart(s) else s
  }

  function HoldDescribe(s: State, id: nat): State {
    s.(requests := s.requests.(describes := s.requests.describes + [id]))
  }

  function HoldReader(s: State, q: ReaderRequest): State {
    s.(requests := s.requests.(readers := s.requests.readers + [q]))
  }

  function Reply(s: State, id: nat, r: Response): State {
    s.(requests := s.requests.AnswerOne(id, r))
  }

  function DoDescribe(s: State, id: nat): State {
    if s.source.RedirectSource? then Reply(s, id, RedirectedTo(s.conf.sourceRedirect))
    else if s.stream then Reply(s, id, StreamGiven)
    else if s.conf.HasOnDemandStaticSource() then HoldDescribe(StartStaticIfInitial(s), id)
    else if s.conf.HasOnDemandPublisher() then HoldDescribe(StartPublisherIfInitial(s), id)
    else if s.conf.fallback.Some? then Reply(s, id, RedirectedTo(s.conf.fallback.value))
    else Reply(s, id, NoStreamAvailable)
  }

  function DoAddReader(s: State, q: ReaderRequest): State {
    if s.stream then AddReaderPost(s, q)
    else if s.conf.HasOnDemandStaticSource() then HoldReader(StartStaticIfInitial(s), q)
    else if s.conf.HasOnDemandPublisher() then HoldReader(StartPublisherIfInitial(s), q)
    else Reply(s, q.id, NoStreamAvailable)
  }

  /** Up to the point where held requests are consumed. */
  function PublisherTakesOver(s: State, author: nat): State {
    var s1 := if s.source.NoSource? then s
              else ExecuteRemovePublisher(s.(fault := s.fault || !s.source.PublishedBy?));
    var s2 := if !s.conf.alwaysAvailable then SetAvailable(s1) else KeepStream(s1);
    var s3 := s2.(source := PublishedBy(author));
    if s3.conf.HasOnDemandPublisher() && !s3.publisher.state.Initial?
    then PublisherScheduleClose(s3.(publisher := s3.publisher.(readyTimer := false))) else s3
  }

  function DoAddPublisher(s: State, id: nat, author: nat): State {
    if s.conf.source != FromPublisher then Reply(s, id, NotAPublisherPath)
    else if !s.source.NoSource? && !s.conf.overridePublisher then Reply(s, id, AlreadyPublishing)
    else Reply(ConsumeOnHold(PublisherTakesOver(s, author)), id, PublishStarted)
  }

  function DoRemovePublisher(s: State, author: nat): State {
    if s.source == PublishedBy(author) then ExecuteRemovePublisher(s) else s
  }

  function DoRemoveReader(s: State, author: nat): State {
    var s1 := s.(readers := s.readers - {author});
    if s1.readers != {} then s1
    else if s.conf.HasOnDemandStaticSource() then
      if s.static_.state.Ready? then StaticScheduleClose(s1) else s1
    else if s.conf.HasOnDemandPublisher() then
      if s.publisher.state.Ready? then PublisherScheduleClose(s1) else s1
    else s1
  }

  /** Up to the point where held requests are consumed. */
  function SourceBecomesReady(s: State): State {
    var s1 := if !s.conf.alwaysAvailable then SetAvailable(s) else KeepStream(s);
    var s2 := s1.(handler := s1.handler.(ready := true));
    if s.conf.HasOnDemandStaticSource()
    then StaticScheduleClose(s2.(static_ := s2.static_.(readyTimer := false))) else s2
  }

  function DoStaticSetReady(s: State): State {
    ConsumeOnHold(SourceBecomesReady(s))
  }

  function DoStaticSetNotReady(s: State): State {
    var s1 := if !s.conf.alwaysAvailable then SetNotAvailable(s) else KeepStream(s);
    var s2 := s1.(handler := s1.handler.(ready := false));
    if s.conf.HasOnDemandStaticSource() && !s.static_.state.Initial? then StaticStop(s2) else s2
  }

  function ReloadedRecorder(stream: bool, c: Conf, c': Conf, r: Option<RecordSettings>): Option<RecordSettings> {
    var kept := if r.Some? && (c'.record != c.record || c'.recordSettings != c.recordSettings
                               || c'.recordDeleteAfter != c.recordDeleteAfter)
                then None else r;
    if c'.record && stream && kept.None? then Some(c'.recordSettings) else kept
  }

  function ReloadedTencent(n: Node, stream: bool, c: Conf, c': Conf, t: Option<string>): Option<string> {
    var kept := if t.Some? && (c'.forwardTencent != c.forwardTencent
                               || c'.forwardTencentStreamKey != c.forwardTencentStreamKey)
                then None else t;
    if c'.forwardTencent && n.tencentEnable && stream && kept.None? then Some(c'.forwardTencentStreamKey) else kept
  }

  function ReloadedMmx(n: Node, stream: bool, c: Conf, c': Conf, m: seq<Target>): seq<Target> {
    var kept := if |m| > 0 && (c'.forwardMmx != c.forwardMmx || c'.MmxTargets() != c.MmxTargets()) then [] else m;
    if c'.forwardMmx && n.mmxEnable && stream && |kept| == 0 then c'.MmxTargets() else kept
  }

  function ReloadedOutputs(n: Node, stream: bool, c: Conf, c': Conf, o: Outputs): Outputs {
    Outputs(ReloadedRecorder(stream, c, c', o.recorder), ReloadedTencent(n, stream, c, c', o.tencent),
            ReloadedMmx(n, stream, c, c', o.mmx))
  }

  function DoReloadConf(s: State, newConf: Conf): State {
    s.(conf := newConf,
       fault := s.fault || (newConf.HasStaticSource() && !s.source.StaticSource?),
       out := ReloadedOutputs(s.node, s.stream, s.conf, newConf, s.out))
  }

  function DoStaticReadyTimer(s: State): State {
    StaticStop(s.(static_ := s.static_.(readyTimer := false), requests := s.requests.AnswerHeld(TimedOut)))
  }

  function DoStaticCloseTimer(s: State): State {
    StaticStop(SetNotAvailable(s.(static_ := s.static_.(closeTimer := false),
                                  fault := s.fault || s.conf.alwaysAvailable)))
  }

  function DoPublisherReadyTimer(s: State): State {
    PublisherStop(s.(publisher := s.publisher.(readyTimer := false), requests := s.requests.AnswerHeld(TimedOut)))
  }

  function DoPublisherCloseTimer(s: State): State {
    PublisherStop(s.(publisher := s.publisher.(closeTimer := false)))
  }

  function Accepting(s: State, id: nat): State {
    s.(requests := s.requests.Accept(id))
  }

  /** One turn of the event loop; a request joins the accepted ones as it is received. */
  function Step(s: State, e: Event): State {
    match e
    case StaticReadyTimer => DoStaticReadyTimer(s)
    case StaticCloseTimer => DoStaticCloseTimer(s)
    case PublisherReadyTimer => DoPublisherReadyTimer(s)
    case PublisherCloseTimer => DoPublisherCloseTimer(s)
    case ReloadConf(c) => DoReloadConf(s, c)
    case StaticSetReady => DoStaticSetReady(s)
    case StaticSetNotReady => DoStaticSetNotReady(s)
    case Describe(id) => DoDescribe(Accepting(s, id), id)
    case AddPublisher(id, author) => DoAddPublisher(Accepting(s, id), id, author)
    case RemovePublisher(author) => DoRemovePublisher(s, author)
    case AddReader(q) => DoAddReader(Accepting(s, q.id), q)
    case RemoveReader(author) => DoRemoveReader(s, author)
  }

  predicate ShouldClose(s: State) {
    && s.conf.regexp.Some? && s.source.NoSource? && s.readers == {}
    && s.requests.describes == [] && s.requests.readers == []
  }

  const Idle: Machine := Machine(Initial, false, false)

  /** The state the event loop starts from. */
  function Start(node: Node, conf: Conf): State {
    var s0 := State(node, conf, NoSource, false, NoOutputs, {}, Requests([], [], [], []), Idle, Idle,
                    Hooks(false, false), Handler(false, false), false, Counts(0, 0, 0, 0, 0, 0));
    var s1 := if conf.alwaysAvailable then SetAvailable(s0) else s0;
    match conf.source
    case Redirected => s1.(source := RedirectSource)
    case FromPublisher => s1
    case FromStaticSource =>
      if conf.sourceOnDemand then s1.(source := StaticSource)
      else s1.(source := StaticSource, handler := Handler(true, false), counts := s1.counts.(sourceStarts := 1))
  }

  /** Stops a source that runs and calls the un-demand hook if it is set. */
  function CloseSource(s: State): State {
    var s1 :=
      if s.source.StaticSource? && (!s.conf.sourceOnDemand || !s.static_.state.Initial?)
      then s.(handler := Handler(false, false), fault := s.fault || !s.handler.running,
              counts := s.counts.(sourceStops := s.counts.sourceStops + 1))
      else s;
    if s.hooks.unDemand then s1.(counts := s1.counts.(unDemands := s1.counts.unDemands + 1)) else s1
  }

  /** What the path does between leaving the event loop and being gone. */
  function Terminate(s: State): State {
    var s1 := s.(static_ := s.static_.(readyTimer := false, closeTimer := false),
                 publisher := s.publisher.(readyTimer := false, closeTimer := false),
                 requests := s.requests.AnswerHeld(Terminated));
    CloseSource(if s.stream then SetNotAvailable(s1) else s1)
  }

  // ----- the invariant of every run

  predicate MachineOk(m: Machine) {
    && (m.readyTimer <==> m.state.WaitingReady?)
    && (m.closeTimer <==> m.state.Closing?)
  }

  function One(b: bool): nat {
    if b then 1 else 0
  }

  /** On-demand state, timers, hooks and the source handler move together. */
  predicate Coupled(s: State) {
    && !s.fault
    && MachineOk(s.static_) && MachineOk(s.publisher)
    && (!s.static_.state.Initial? ==> s.conf.HasOnDemandStaticSource())
    && (!s.publisher.state.Initial? ==> s.conf.HasOnDemandPublisher())
    && (s.hooks.unDemand <==> !s.publisher.state.Initial?)
    && s.counts.demands == s.counts.unDemands + One(s.hooks.unDemand)
    && (s.handler.running <==> s.conf.HasStaticSource() && (!s.conf.sourceOnDemand || !s.static_.state.Initial?))
    && s.counts.sourceStarts == s.counts.sourceStops + One(s.handler.running)
    && (s.conf.HasOnDemandStaticSource() ==> (s.handler.ready <==> s.static_.state.Ready? || s.static_.state.Closing?))
    && (s.handler.ready ==> s.handler.running)
  }

  /** The source is of the kind the configuration says, and the stream is open exactly while there
      is something to play. */
  predicate StreamOk(s: State) {
    && (s.conf.source == Redirected <==> s.source.RedirectSource?)
    && (s.conf.source == FromStaticSource <==> s.source.StaticSource?)
    && (s.stream <==> s.conf.alwaysAvailable || s.handler.ready || s.source.PublishedBy?)
    && (s.hooks.notReady <==> s.stream)
    && s.counts.readyCalls == s.counts.notReadyCalls + One(s.stream)
  }

  /** What the configuration asks for. */
  function WantedOutputs(n: Node, stream: bool, c: Conf): Outputs {
    Outputs(if stream && c.record then Some(c.recordSettings) else None,
            if stream && c.forwardTencent && n.tencentEnable then Some(c.forwardTencentStreamKey) else None,
            if stream && c.forwardMmx && n.mmxEnable then c.MmxTargets() else [])
  }

  /** Recorder and forwarders are what the current configuration asks for; readers need a stream
      and respect the limit. */
  predicate OutputsOk(s: State) {
    && s.out == WantedOutputs(s.node, s.stream, s.conf)
    && (s.readers != {} ==> s.stream)
    && (s.conf.maxReaders != 0 ==> |s.readers| <= s.conf.maxReaders)
  }

  predicate Holding(s: State) {
    s.requests.describes != [] || s.requests.readers != []
  }

  /** Requests wait only without a stream, and on a static source only under the start timeout. */
  predicate HoldsOk(s: State) {
    Holding(s) ==>
      && !s.stream
      && (s.conf.HasOnDemandStaticSource() || s.conf.HasOnDemandPublisher())
      && (s.conf.HasOnDemandStaticSource() ==> s.static_ == Machine(WaitingReady, true, false))
  }

  /** Whoever reads keeps the close timers off, and a ready source that nobody reads is about to close; a ready
      publisher machine has readers exactly while there is a stream. */
  predicate Attended(s: State) {
    && (s.readers != {} ==> !s.static_.closeTimer && !s.publisher.closeTimer)
    && (s.static_.state.Ready? ==> s.readers != {})
    && (s.publisher.state.Ready? ==> (s.readers != {} <==> s.stream))
    && (s.publisher.state.WaitingReady? ==> !s.stream)
  }

  /** All of the invariant but the accounting of requests. */
  predicate Sound(s: State) {
    s.conf.Validated() && Coupled(s) && StreamOk(s) && OutputsOk(s) && HoldsOk(s) && Attended(s)
  }

  ghost predicate Inv(s: State) {
    Sound(s) && s.requests.Balanced()
  }

  // ----- accounting of requests

  lemma AnsweringOne(q: Requests, id: nat, r: Response)
    ensures q.AnswerOne(id, r).AnsweredIds() == q.AnsweredIds() + [id]
    ensures q.AnswerOne(id, r).HeldIds() == q.HeldIds()
  {
  }

  lemma AnsweringHeld(q: Requests, r: Response)
    ensures q.AnswerHeld(r).AnsweredIds() == q.AnsweredIds() + q.HeldIds()
    ensures q.AnswerHeld(r).HeldIds() == []
  {
  }

  lemma AnsweredAtOnceBalances(q: Requests, id: nat, r: Response)
    requires q.Balanced()
    ensures q.Accept(id).AnswerOne(id, r).Balanced()
  {
    AnsweringOne(q.Accept(id), id, r);
  }

  lemma HeldDescribeBalances(q: Requests, id: nat)
    requires q.Balanced()
    ensures q.Accept(id).(describes := q.describes + [id]).Balanced()
  {
    assert q.Accept(id).(describes := q.describes + [id]).HeldIds() == q.describes + [id] + ReaderIds(q.readers);
  }

  lemma HeldReaderBalances(q: Requests, r: ReaderRequest)
    requires q.Balanced()
    ensures q.Accept(r.id).(readers := q.readers + [r]).Balanced()
  {
    assert ReaderIds(q.readers + [r]) == ReaderIds(q.readers) + [r.id];
    assert q.Accept(r.id).(readers := q.readers + [r]).HeldIds() == q.HeldIds() + [r.id];
  }

  lemma AllAnsweredBalances(q: Requests, t: Requests)
    requires q.Balanced() && t.accepted == q.accepted && t.HeldIds() == []
    requires t.AnsweredIds() == q.AnsweredIds() + q.HeldIds()
    ensures t.Balanced()
  {
  }

  /** What admitting readers changes: answers, readers, and a closing machine kept open. */
  predicate AdmitsOnly(s: State, t: State) {
    && t == s.(requests := s.requests.(answers := t.requests.answers), readers := t.readers,
               static_ := t.static_, publisher := t.publisher)
    && s.readers <= t.readers
    && t.static_ == (if t.readers != s.readers && s.conf.HasOnDemandStaticSource()
                     then KeptOpen(s.static_) else s.static_)
    && t.publisher == (if t.readers != s.readers && !s.conf.HasOnDemandStaticSource() && s.conf.HasOnDemandPublisher()
                       then KeptOpen(s.publisher) else s.publisher)
    && (s.conf.maxReaders != 0 && |s.readers| <= s.conf.maxReaders ==> |t.readers| <= s.conf.maxReaders)
  }

  lemma AdmitsOnlyIsTransitive(s: State, m: State, t: State)
    requires AdmitsOnly(s, m) && AdmitsOnly(m, t)
    ensures AdmitsOnly(s, t)
  {
  }

  lemma {:induction false} AddReaderPostsEffect(s: State, qs: seq<ReaderRequest>)
    ensures AdmitsOnly(s, AddReaderPosts(s, qs))
    ensures AddReaderPosts(s, qs).requests.AnsweredIds() == s.requests.AnsweredIds() + ReaderIds(qs)
  {
    if qs == [] {
      assert s.requests.AnsweredIds() + ReaderIds(qs) == s.requests.AnsweredIds();
    } else {
      var prefix, q := qs[..|qs| - 1], qs[|qs| - 1];
      AddReaderPostsEffect(s, prefix);
      var m := AddReaderPosts(s, prefix);
      AddReaderPostEffect(m, q);
      AdmitsOnlyIsTransitive(s, m, AddReaderPost(m, q));
      hide AdmitsOnly, AddReaderPost;
      assert ReaderIds(qs) == ReaderIds(prefix) + [q.id];
      assert s.requests.AnsweredIds() + ReaderIds(qs) == m.requests.AnsweredIds() + [q.id];
    }
  }

  lemma AddReaderPostEffect(s: State, q: ReaderRequest)
    ensures AdmitsOnly(s, AddReaderPost(s, q))
    ensures AddReaderPost(s, q).requests.AnsweredIds() == s.requests.AnsweredIds() + [q.id]
  {
    AnsweringOne(s.requests, q.id, StreamGiven);
    AnsweringOne(s.requests, q.id, TooManyReaders);
  }

  lemma ConsumeOnHoldEffect(s: State)
    ensures AdmitsOnly(s.(requests := s.requests.(describes := [], readers := [])), ConsumeOnHold(s))
    ensures ConsumeOnHold(s).requests.AnsweredIds() == s.requests.AnsweredIds() + s.requests.HeldIds()
  {
    var q := s.requests;
    var q1 := q.(answers := q.answers + Answers(q.describes, StreamGiven), describes := []);
    AddReaderPostsEffect(s.(requests := q1), q.readers);
    assert q1.AnsweredIds() == q.AnsweredIds() + q.describes;
    assert q.AnsweredIds() + q.HeldIds() == q1.AnsweredIds() + ReaderIds(q.readers);
  }

  /** Every step accounts for every request. */
  lemma StepKeepsBalance(s: State, e: Event)
    requires s.requests.Balanced()
    ensures Step(s, e).requests.Balanced()
  {
    match e
    case StaticReadyTimer => TimeoutKeepsBalance(s.requests);
    case PublisherReadyTimer => TimeoutKeepsBalance(s.requests);
    case StaticSetReady => ConsumeKeepsBalance(SourceBecomesReady(s));
    case Describe(id) => DescribeKeepsBalance(s, id);
    case AddPublisher(id, author) => AddPublisherKeepsBalance(s, id, author);
    case AddReader(r) => AddReaderKeepsBalance(s, r);
    case _ =>
  }

  lemma TimeoutKeepsBalance(q: Requests)
    requires q.Balanced()
    ensures q.AnswerHeld(TimedOut).Balanced()
  {
    AnsweringHeld(q, TimedOut);
    AllAnsweredBalances(q, q.AnswerHeld(TimedOut));
  }

  lemma ConsumeKeepsBalance(s: State)
    requires s.requests.Balanced()
    ensures ConsumeOnHold(s).requests.Balanced() && !Holding(ConsumeOnHold(s))
  {
    ConsumeOnHoldEffect(s);
    AllAnsweredBalances(s.requests, ConsumeOnHold(s).requests);
  }

  lemma DescribeKeepsBalance(s: State, id: nat)
    requires s.requests.Balanced()
    ensures Step(s, Describe(id)).requests.Balanced()
  {
    var q := s.requests;
    if s.source.RedirectSource? {
      AnsweredAtOnceBalances(q, id, RedirectedTo(s.conf.sourceRedirect));
    } else if s.stream {
      AnsweredAtOnceBalances(q, id, StreamGiven);
    } else if s.conf.HasOnDemandStaticSource() || s.conf.HasOnDemandPublisher() {
      HeldDescribeBalances(q, id);
    } else if s.conf.fallback.Some? {
      AnsweredAtOnceBalances(q, id, RedirectedTo(s.conf.fallback.value));
    } else {
      AnsweredAtOnceBalances(q, id, NoStreamAvailable);
    }
  }

  lemma AddReaderKeepsBalance(s: State, r: ReaderRequest)
    requires s.requests.Balanced()
    ensures Step(s, AddReader(r)).requests.Balanced()
  {
    var q := s.requests;
    if s.stream {
      AnsweredAtOnceBalances(q, r.id, StreamGiven);
      AnsweredAtOnceBalances(q, r.id, TooManyReaders);
    } else if s.conf.HasOnDemandStaticSource() || s.conf.HasOnDemandPublisher() {
      HeldReaderBalances(q, r);
    } else {
      AnsweredAtOnceBalances(q, r.id, NoStreamAvailable);
    }
  }

  lemma AddPublisherKeepsBalance(s: State, id: nat, author: nat)
    requires s.requests.Balanced()
    ensures Step(s, AddPublisher(id, author)).requests.Balanced()
  {
    if s.conf.source != FromPublisher {
      AnsweredAtOnceBalances(s.requests, id, NotAPublisherPath);
    } else if !s.source.NoSource? && !s.conf.overridePublisher {
      AnsweredAtOnceBalances(s.requests, id, AlreadyPublishing);
    } else {
      PublishingBalances(s, PublisherTakesOver(Accepting(s, id), author), id);
    }
  }

  lemma PublishingBalances(s: State, s1: State, id: nat)
    requires s.requests.Balanced() && s1.requests == s.requests.Accept(id)
    ensures Reply(ConsumeOnHold(s1), id, PublishStarted).requests.Balanced()
  {
    ConsumeOnHoldEffect(s1);
    AnsweringOne(ConsumeOnHold(s1).requests, id, PublishStarted);
    assert ConsumeOnHold(s1).requests.HeldIds() == [];
  }

  // ----- every handler keeps the rest

  lemma StartOk(node: Node, conf: Conf)
    requires conf.Validated()
    ensures Inv(Start(node, conf))
  {
    StartBalanced(node, conf);
    StartSound(node, conf);
  }

  lemma StartBalanced(node: Node, conf: Conf)
    ensures Start(node, conf).requests == Requests([], [], [], []) && Start(node, conf).requests.Balanced()
  {
    assert Requests([], [], [], []).Balanced();
  }

  lemma StartSound(node: Node, conf: Conf)
    requires conf.Validated()
    ensures Sound(Start(node, conf))
  {
    var s := Start(node, conf);
    assert s.out == WantedOutputs(node, conf.alwaysAvailable, conf);
    assert Coupled(s);
  }

  lemma TimersKeepSound(s: State, e: Event)
    requires Sound(s) && Enabled(s, e)
    requires e.StaticReadyTimer? || e.StaticCloseTimer? || e.PublisherReadyTimer? || e.PublisherCloseTimer?
    ensures Sound(Step(s, e))
  {
  }

  lemma ReloadKeepsSound(s: State, c: Conf)
    requires Sound(s) && Enabled(s, ReloadConf(c))
    ensures Sound(Step(s, ReloadConf(c)))
  {
  }

  /** Consuming held requests turns a path that just got its stream into a sound one. */
  lemma ConsumeKeepsSound(s: State)
    requires s.conf.Validated() && Coupled(s) && StreamOk(s) && OutputsOk(s) && Attended(s) && s.stream
    ensures Sound(ConsumeOnHold(s))
  {
    ConsumeOnHoldEffect(s);
  }

  lemma SourceReportsKeepSound(s: State, e: Event)
    requires Sound(s) && Enabled(s, e) && (e.StaticSetReady? || e.StaticSetNotReady?)
    ensures Sound(Step(s, e))
  {
    if e.StaticSetReady? {
      ConsumeKeepsSound(SourceBecomesReady(s));
    }
  }

  /** Starting the on-demand source or command for a request that will be held. */
  lemma OnDemandStartIsOk(s: State)
    requires Sound(s) && !s.stream
    ensures s.conf.HasOnDemandStaticSource() ==>
              var t := StartStaticIfInitial(s); Sound(t) && t.static_ == Machine(WaitingReady, true, false)
    ensures s.conf.HasOnDemandPublisher() ==> Sound(StartPublisherIfInitial(s))
  {
  }

  lemma HoldingKeepsSound(s: State, id: nat, q: ReaderRequest)
    requires Sound(s) && !s.stream && (s.conf.HasOnDemandStaticSource() || s.conf.HasOnDemandPublisher())
    requires s.conf.HasOnDemandStaticSource() ==> s.static_ == Machine(WaitingReady, true, false)
    ensures Sound(HoldDescribe(s, id)) && Sound(HoldReader(s, q))
  {
  }

  lemma DescribeKeepsSound(s: State, id: nat)
    requires Sound(s)
    ensures Sound(Step(s, Describe(id)))
  {
    var s0 := Accepting(s, id);
    AcceptingKeepsSound(s, id);
    if s0.source.RedirectSource? || s0.stream {
      ReplyKeepsSound(s0, id, RedirectedTo(s.conf.sourceRedirect));
      ReplyKeepsSound(s0, id, StreamGiven);
    } else {
      OnDemandStartIsOk(s0);
      hide Sound;
      if s.conf.HasOnDemandStaticSource() {
        HoldingKeepsSound(StartStaticIfInitial(s0), id, ReaderRequest(0, 0));
      } else if s.conf.HasOnDemandPublisher() {
        HoldingKeepsSound(StartPublisherIfInitial(s0), id, ReaderRequest(0, 0));
      } else if s.conf.fallback.Some? {
        ReplyKeepsSound(s0, id, RedirectedTo(s.conf.fallback.value));
      } else {
        ReplyKeepsSound(s0, id, NoStreamAvailable);
      }
    }
  }

  lemma AddReaderKeepsSound(s: State, q: ReaderRequest)
    requires Sound(s)
    ensures Sound(Step(s, AddReader(q)))
  {
    var s0 := Accepting(s, q.id);
    AcceptingKeepsSound(s, q.id);
    if s.stream {
      AddReaderPostEffect(s0, q);
    } else {
      OnDemandStartIsOk(s0);
      hide Sound;
      if s.conf.HasOnDemandStaticSource() {
        HoldingKeepsSound(StartStaticIfInitial(s0), 0, q);
      } else if s.conf.HasOnDemandPublisher() {
        HoldingKeepsSound(StartPublisherIfInitial(s0), 0, q);
      } else {
        ReplyKeepsSound(s0, q.id, NoStreamAvailable);
      }
    }
  }

  lemma TakeOverIsOk(s: State, author: nat)
    requires Sound(s) && s.conf.source == FromPublisher
    ensures var t := PublisherTakesOver(s, author);
            t.conf.Validated() && Coupled(t) && StreamOk(t) && OutputsOk(t) && Attended(t) && t.stream
  {
    var s1 := if s.source.NoSource? then s else ExecuteRemovePublisher(s);
    assert StreamOk(s1) && s1.source.NoSource? && Coupled(s1) && OutputsOk(s1);
  }

  lemma AddPublisherKeepsSound(s: State, id: nat, author: nat)
    requires Sound(s)
    ensures Sound(Step(s, AddPublisher(id, author)))
  {
    var s0 := Accepting(s, id);
    AcceptingKeepsSound(s, id);
    hide Sound;
    if s.conf.source == FromPublisher && (s.source.NoSource? || s.conf.overridePublisher) {
      TakeOverIsOk(s0, author);
      ConsumeKeepsSound(PublisherTakesOver(s0, author));
      ReplyKeepsSound(ConsumeOnHold(PublisherTakesOver(s0, author)), id, PublishStarted);
    } else if s.conf.source != FromPublisher {
      ReplyKeepsSound(s0, id, NotAPublisherPath);
    } else {
      ReplyKeepsSound(s0, id, AlreadyPublishing);
    }
  }

  lemma AcceptingKeepsSound(s: State, id: nat)
    requires Sound(s)
    ensures Sound(Accepting(s, id))
  {
  }

  lemma ReplyKeepsSound(s: State, id: nat, r: Response)
    requires Sound(s)
    ensures Sound(Reply(s, id, r))
  {
  }

  lemma RemovalsKeepSound(s: State, e: Event)
    requires Sound(s) && (e.RemovePublisher? || e.RemoveReader?)
    ensures Sound(Step(s, e))
  {
  }

  lemma StepKeepsInv(s: State, e: Event)
    requires Inv(s) && Enabled(s, e)
    ensures Inv(Step(s, e))
  {
    StepKeepsBalance(s, e);
    match e
    case ReloadConf(c) => ReloadKeepsSound(s, c);
    case StaticSetReady => SourceReportsKeepSound(s, e);
    case StaticSetNotReady => SourceReportsKeepSound(s, e);
    case Describe(id) => DescribeKeepsSound(s, id);
    case AddReader(q) => AddReaderKeepsSound(s, q);
    case AddPublisher(id, author) => AddPublisherKeepsSound(s, id, author);
    case RemovePublisher(_) => RemovalsKeepSound(s, e);
    case RemoveReader(_) => RemovalsKeepSound(s, e);
    case _ => TimersKeepSound(s, e);
  }

  // ----- whole runs

  function Run(s: State, es: seq<Event>): State {
    if es == [] then s else Step(Run(s, es[..|es| - 1]), es[|es| - 1])
  }

  /** Every event is one the environment may deliver when it arrives. */
  predicate Possible(s: State, es: seq<Event>) {
    es == [] || (Possible(s, es[..|es| - 1]) && Enabled(Run(s, es[..|es| - 1]), es[|es| - 1]))
  }

  lemma {:induction false} RunKeepsInv(s: State, es: seq<Event>)
    requires Inv(s) && Possible(s, es)
    ensures Inv(Run(s, es))
  {
    if es != [] {
      RunKeepsInv(s, es[..|es| - 1]);
      StepKeepsInv(Run(s, es[..|es| - 1]), es[|es| - 1]);
    }
  }

  /** Nothing is left behind: each accepted request was answered exactly once, each start of the
      source, of the on-demand command and of the ready hook was undone exactly once, nothing is
      armed, and nothing was called that was not set. */
  ghost predicate Clean(t: State) {
    && !t.fault
    && multiset(t.requests.accepted) == multiset(t.requests.AnsweredIds())
    && t.counts.sourceStarts == t.counts.sourceStops
    && t.counts.demands == t.counts.unDemands
    && t.counts.readyCalls == t.counts.notReadyCalls
    && !SomeTimerArmed(t)
    && !t.stream && t.readers == {} && t.out == NoOutputs && !t.handler.running
  }

  lemma TerminateIsClean(s: State)
    requires Inv(s)
    ensures Clean(Terminate(s))
    ensures Terminate(s).requests == s.requests.AnswerHeld(Terminated)
  {
    AnsweringHeld(s.requests, Terminated);
  }

  /** Every run of a path, whatever its events, ends clean. */
  lemma EveryRunEndsClean(node: Node, conf: Conf, es: seq<Event>)
    requires conf.Validated() && Possible(Start(node, conf), es)
    ensures Inv(Run(Start(node, conf), es))
    ensures Clean(Terminate(Run(Start(node, conf), es)))
  {
    StartOk(node, conf);
    RunKeepsInv(Start(node, conf), es);
    TerminateIsClean(Run(Start(node, conf), es));
  }

  // ----- who keeps an on-demand source open

  /** What may take the stream from someone who reads it: the source or the publisher goes away. */
  predicate EndsStream(s: State, e: Event) {
    match e
    case StaticSetNotReady => !s.conf.alwaysAvailable
    case RemovePublisher(author) => s.source == PublishedBy(author) && !s.conf.alwaysAvailable
    case AddPublisher(_, _) => s.source.PublishedBy? && s.conf.overridePublisher && !s.conf.alwaysAvailable
    case _ => false
  }

  /** In every run an idle close finds nobody reading, and an on-demand source or publisher that is there closes
      after its timeout exactly if nobody reads it. A publisher machine left ready without a timer has lost its
      publisher. */
  lemma EveryRunClosesOnlyIdle(node: Node, conf: Conf, es: seq<Event>)
    requires conf.Validated() && Possible(Start(node, conf), es)
    ensures var s := Run(Start(node, conf), es);
            && (Enabled(s, StaticCloseTimer) || Enabled(s, PublisherCloseTimer) ==> s.readers == {})
            && (s.conf.HasOnDemandStaticSource() && s.stream ==> (s.readers == {} <==> Enabled(s, StaticCloseTimer)))
            && (s.source.PublishedBy? && s.hooks.unDemand ==> (s.readers == {} <==> Enabled(s, PublisherCloseTimer)))
            && (s.publisher.state.Ready? ==> (s.readers == {} <==> s.source.NoSource?))
  {
    StartOk(node, conf);
    RunKeepsInv(Start(node, conf), es);
  }

  lemma StepKeepsReader(s: State, e: Event, author: nat)
    requires Inv(s) && Enabled(s, e) && author in s.readers
    ensures author !in Step(s, e).readers <==> e == RemoveReader(author) || EndsStream(s, e)
  {
    match e
    case AddPublisher(id, a) => TakeOverKeepsReader(s, id, a, author);
    case StaticSetReady => ConsumeOnHoldEffect(SourceBecomesReady(s));
    case _ =>
  }

  /** Nothing is held while someone reads, so a publisher that takes over a stream leaves it without readers. */
  lemma TakeOverKeepsReader(s: State, id: nat, a: nat, author: nat)
    requires Inv(s) && author in s.readers
    ensures author !in Step(s, AddPublisher(id, a)).readers <==> EndsStream(s, AddPublisher(id, a))
  {
    if s.conf.source == FromPublisher && (s.source.NoSource? || s.conf.overridePublisher) {
      var s1 := PublisherTakesOver(Accepting(s, id), a);
      assert s1.requests.readers == [] && ConsumeOnHold(s1).readers == s1.readers;
    }
  }

  /** In every run a reader goes only by itself or with the source or publisher it reads: no timer, no reload and
      no other request costs it the stream. */
  lemma EveryRunKeepsReaders(node: Node, conf: Conf, es: seq<Event>, e: Event, author: nat)
    requires conf.Validated() && Possible(Start(node, conf), es + [e])
    requires author in Run(Start(node, conf), es).readers
    ensures author !in Run(Start(node, conf), es + [e]).readers
            <==> e == RemoveReader(author) || EndsStream(Run(Start(node, conf), es), e)
  {
    assert (es + [e])[..|es|] == es;
    StartOk(node, conf);
    RunKeepsInv(Start(node, conf), es);
    StepKeepsReader(Run(Start(node, conf), es), e, author);
  }

  // ----- who gets what when the stream arrives

  predicate Full(s: State) {
    s.conf.maxReaders != 0 && |s.readers| >= s.conf.maxReaders
  }

  /** Waiting readers are answered in order; one gets the stream if and only if it is a reader
      afterwards, and one is turned away only by a full path. */
  lemma {:induction false} WaitingReadersAreAnsweredFairly(s: State, qs: seq<ReaderRequest>)
    ensures var t := AddReaderPosts(s, qs);
            && |t.requests.answers| == |s.requests.answers| + |qs|
            && t.requests.answers[..|s.requests.answers|] == s.requests.answers
            && s.readers <= t.readers
            && (forall i | 0 <= i < |qs| ::
                  t.requests.answers[|s.requests.answers| + i]
                  == Answer(qs[i].id, if qs[i].author in t.readers then StreamGiven else TooManyReaders))
            && (forall i | 0 <= i < |qs| :: qs[i].author !in t.readers ==> Full(t))
  {
    if qs != [] {
      var prefix, q := qs[..|qs| - 1], qs[|qs| - 1];
      WaitingReadersAreAnsweredFairly(s, prefix);
      AddReaderPostsEffect(s, prefix);
      var m, t := AddReaderPosts(s, prefix), AddReaderPosts(s, qs);
      assert t == AddReaderPost(m, q) && m.conf == s.conf;
      assert m.readers <= t.readers;
      forall i | 0 <= i < |qs|
        ensures t.requests.answers[|s.requests.answers| + i]
                == Answer(qs[i].id, if qs[i].author in t.readers then StreamGiven else TooManyReaders)
        ensures qs[i].author !in t.readers ==> Full(t)
      {
        if i < |prefix| {
          assert prefix[i] == qs[i];
        }
      }
    }
  }

  // ----- who bounds a held request

  /** On an on-demand static source a held request always has the start timeout running, and the
      timeout answers everything that was accepted. */
  lemma StaticHoldIsBounded(s: State)
    requires Inv(s) && s.conf.HasOnDemandStaticSource() && Holding(s)
    ensures Enabled(s, StaticReadyTimer)
    ensures !Holding(Step(s, StaticReadyTimer))
    ensures multiset(Step(s, StaticReadyTimer).requests.AnsweredIds()) == multiset(s.requests.accepted)
  {
    AnsweringHeld(s.requests, TimedOut);
  }

  predicate SomeTimerArmed(s: State) {
    s.static_.readyTimer || s.static_.closeTimer || s.publisher.readyTimer || s.publisher.closeTimer
  }

  /** On an on-demand publisher some timer can still answer the held requests exactly while the
      command has not yet produced a publisher. */
  lemma PublisherHoldIsBoundedIff(s: State)
    requires Inv(s) && s.conf.HasOnDemandPublisher() && Holding(s)
    ensures (exists e :: IsTimer(e) && Enabled(s, e) && !Holding(Step(s, e))) <==> s.publisher.state.WaitingReady?
  {
    if s.publisher.state.WaitingReady? {
      assert IsTimer(PublisherReadyTimer) && Enabled(s, PublisherReadyTimer);
      assert !Holding(Step(s, PublisherReadyTimer));
    }
  }

  predicate IsTimer(e: Event) {
    e.StaticReadyTimer? || e.StaticCloseTimer? || e.PublisherReadyTimer? || e.PublisherCloseTimer?
  }

  /** The parts of the state the next lemma follows. */
  predicate At(s: State, conf: Conf, source: Source, stream: bool, readers: set<nat>, held: seq<nat>, m: Machine) {
    && s.conf == conf && s.source == source && s.stream == stream && s.readers == readers
    && s.requests.describes == held && s.requests.readers == [] && s.static_ == Idle && s.publisher == m
  }

  lemma DescribeMove(s: State, conf: Conf, m: Machine)
    requires conf.Validated() && conf.HasOnDemandPublisher() && At(s, conf, NoSource, false, {}, [], m)
    ensures At(Step(s, Describe(0)), conf, NoSource, false, {}, [0], StartPublisherIfInitial(s).publisher)
  {
  }

  lemma PublishMove(s: State, conf: Conf)
    requires conf.Validated() && conf.HasOnDemandPublisher()
    requires At(s, conf, NoSource, false, {}, [0], Machine(WaitingReady, true, false))
    ensures At(Step(s, AddPublisher(1, 7)), conf, PublishedBy(7), true, {}, [], Machine(Closing, false, true))
  {
    var s1 := PublisherTakesOver(Accepting(s, 1), 7);
    assert s1.requests.readers == [] && s1.publisher == Machine(Closing, false, true);
    assert AddReaderPosts(s1, []) == s1;
  }

  lemma ReadMove(s: State, conf: Conf)
    requires conf.Validated() && conf.HasOnDemandPublisher()
    requires At(s, conf, PublishedBy(7), true, {}, [], Machine(Closing, false, true))
    ensures At(Step(s, AddReader(ReaderRequest(2, 8))), conf, PublishedBy(7), true, {8}, [],
               Machine(Ready, false, false))
  {
  }

  lemma LeaveMove(s: State, conf: Conf, m: Machine)
    requires conf.Validated() && conf.HasOnDemandPublisher() && At(s, conf, PublishedBy(7), true, {8}, [], m)
    ensures At(Step(s, RemovePublisher(7)), conf, NoSource, false, {}, [], m)
  {
  }

  /** A reader keeps the machine open, the publisher leaves, a request arrives: it is held and no
      timer at all is armed. */
  lemma PublisherDropLeavesHoldUnbounded(node: Node, conf: Conf)
    requires conf.Validated() && conf.HasOnDemandPublisher()
    ensures var es := [Describe(0), AddPublisher(1, 7), AddReader(ReaderRequest(2, 8)), RemovePublisher(7),
                       Describe(0)];
            var s := Run(Start(node, conf), es);
            && Possible(Start(node, conf), es)
            && At(s, conf, NoSource, false, {}, [0], Machine(Ready, false, false)) && !SomeTimerArmed(s)
  {
    var es := [Describe(0), AddPublisher(1, 7), AddReader(ReaderRequest(2, 8)), RemovePublisher(7), Describe(0)];
    var s0 := Start(node, conf);
    RunOfFive(s0, es);
    hide Step;
    assert At(s0, conf, NoSource, false, {}, [], Idle);
    DescribeMove(s0, conf, Idle);
    PublishMove(Step(s0, es[0]), conf);
    ReadMove(Step(Step(s0, es[0]), es[1]), conf);
    var s3 := Step(Step(Step(s0, es[0]), es[1]), es[2]);
    LeaveMove(s3, conf, Machine(Ready, false, false));
    DescribeMove(Step(s3, es[3]), conf, Machine(Ready, false, false));
  }

  lemma RunOfFive(s: State, es: seq<Event>)
    requires |es| == 5
    requires forall i | 0 <= i < 5 :: Enabled(s, es[i]) && !IsTimer(es[i]) && !es[i].ReloadConf?
                                      && !es[i].StaticSetReady? && !es[i].StaticSetNotReady?
    ensures Run(s, es) == Step(Step(Step(Step(Step(s, es[0]), es[1]), es[2]), es[3]), es[4])
    ensures Possible(s, es)
  {
    var p4, p3, p2, p1 := es[..4], es[..3], es[..2], es[..1];
    assert p4[..3] == p3 && p3[..2] == p2 && p2[..1] == p1 && p1[..0] == [];
    assert Run(s, p1) == Step(s, es[0]) && Possible(s, p1);
    assert Run(s, p2) == Step(Run(s, p1), es[1]) && Possible(s, p2);
    assert Run(s, p3) == Step(Run(s, p2), es[2]) && Possible(s, p3);
    assert Run(s, p4) == Step(Run(s, p3), es[3]) && Possible(s, p4);
  }
}
