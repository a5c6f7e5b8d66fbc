/** The path manager and its paths as communicating processes: how a request is handed to a path,
    how an idle path asks to be closed, and why no request is lost in between
    (internal/core/path_manager.go, internal/core/path.go).

    A caller first asks the manager for a path, which counts the request as pending, and then
    sends the request to that path. A path that finds itself idle asks the manager to close it and
    waits for the reply. Every act below is one atomic exchange on a channel. */
module Handoff {
  import opened Wrappers
  import opened PathConf
  import opened PathSpec

  /** Where a path goroutine is: in its event loop, asking to be closed, telling the manager it
      leaves, cleaning up, gone. */
  datatype Phase = Looping | AskingIdle | Leaving | Cleaning | Gone

  /** Why the manager cancelled the path's context, if it did. */
  datatype Cause = NotClosed | ClosedIdle | ClosedByReload

  datatype Proc = Proc(name: string, pa: State, phase: Phase, cause: Cause,
                       pending: int, inFlight: multiset<Event>, handed: nat, aborted: nat)

  datatype Manager = Free | WaitingFor(pid: nat) | Exited

  datatype Sys = Sys(node: Node, manager: Manager, paths: map<string, nat>, procs: map<nat, Proc>, nextPid: nat,
                     cancelled: bool)

  datatype Act =
    | HandOut(name: string, conf: Conf, request: Event)
    | CreateStatic(name: string, conf: Conf)
    | Accept(pid: nat, request: Event)
    | Internal(pid: nat, event: Event)
    | ReplyIdle(pid: nat)
    | StopAsking(pid: nat)
    | LeaveLoop(pid: nat)
    | TellRemoved(pid: nat, heard: bool)
    | Finish(pid: nat)
    | CallerGivesUp(pid: nat, request: Event)
    | CloseForReload(pid: nat)
    | Shutdown
    | ManagerExits

  predicate IsRequest(e: Event) {
    e.Describe? || e.AddPublisher? || e.AddReader?
  }

  /** The turns of the event loop after which a path looks whether it is idle. */
  predicate ChecksIdle(e: Event) {
    || IsRequest(e) || e.StaticReadyTimer? || e.StaticCloseTimer? || e.PublisherReadyTimer?
    || e.StaticSetNotReady? || e.RemovePublisher?
  }

  predicate ContextDone(sys: Sys, p: Proc) {
    sys.cancelled || p.cause != NotClosed
  }

  predicate Can(sys: Sys, a: Act) {
    match a
    case HandOut(_, conf, e) =>
      sys.manager.Free? && IsRequest(e) && conf.Validated() && (a.name in sys.paths ==> sys.paths[a.name] in sys.procs)
    case CreateStatic(_, conf) =>
      sys.manager.Free? && conf.Validated() && conf.regexp.None? && conf.name == a.name && a.name !in sys.paths
    case Accept(pid, e) => pid in sys.procs && sys.procs[pid].phase.Looping? && e in sys.procs[pid].inFlight
    case Internal(pid, e) =>
      pid in sys.procs && sys.procs[pid].phase.Looping? && !IsRequest(e) && Enabled(sys.procs[pid].pa, e)
    case ReplyIdle(pid) => sys.manager.Free? && pid in sys.procs && sys.procs[pid].phase.AskingIdle?
    case StopAsking(pid) =>
      pid in sys.procs && sys.procs[pid].phase.AskingIdle? && ContextDone(sys, sys.procs[pid])
    case LeaveLoop(pid) => pid in sys.procs && sys.procs[pid].phase.Looping? && ContextDone(sys, sys.procs[pid])
    case TellRemoved(pid, heard) => pid in sys.procs && sys.procs[pid].phase.Leaving? && (heard ==> sys.manager.Free?)
    case Finish(pid) => pid in sys.procs && sys.procs[pid].phase.Cleaning?
    case CallerGivesUp(pid, e) =>
      pid in sys.procs && e in sys.procs[pid].inFlight && ContextDone(sys, sys.procs[pid])
    case CloseForReload(pid) =>
      && sys.manager.Free? && pid in sys.procs
      && sys.procs[pid].name in sys.paths && sys.paths[sys.procs[pid].name] == pid
    case Shutdown => true
    case ManagerExits => sys.manager.Free? && sys.cancelled
  }

  function With(sys: Sys, pid: nat, p: Proc): Sys {
    sys.(procs := sys.procs[pid := p])
  }

  /** After a turn of its loop a path either goes on or asks to be closed. */
  function AfterTurn(pa: State, e: Event): Phase {
    if ChecksIdle(e) && ShouldClose(pa) then AskingIdle else Looping
  }

  /** Deletes the path, cancels it and waits until it is gone. */
  function ClosePath(sys: Sys, pid: nat, cause: Cause): Sys
    requires pid in sys.procs
  {
    var p := sys.procs[pid];
    With(sys, pid, p.(cause := cause, phase := if p.phase.AskingIdle? then Looping else p.phase))
    .(paths := sys.paths - {p.name}, manager := if p.phase.Gone? then sys.manager else WaitingFor(pid))
  }

  function CreatePath(sys: Sys, name: string, conf: Conf): Sys {
    sys.(paths := sys.paths[name := sys.nextPid],
         procs := sys.procs[sys.nextPid := Proc(name, Start(sys.node, conf), Looping, NotClosed, 0, multiset{}, 0, 0)],
         nextPid := sys.nextPid + 1)
  }

  function HandTo(sys: Sys, pid: nat, e: Event): Sys
    requires pid in sys.procs
  {
    var p := sys.procs[pid];
    With(sys, pid, p.(pending := p.pending + 1, inFlight := p.inFlight + multiset{e}, handed := p.handed + 1))
  }

  function Do(sys: Sys, a: Act): Sys
    requires Can(sys, a)
  {
    match a
    case HandOut(name, conf, e) =>
      var sys1 := if name in sys.paths then sys else CreatePath(sys, name, conf);
      HandTo(sys1, sys1.paths[name], e)
    case CreateStatic(name, conf) => CreatePath(sys, name, conf)
    case Accept(pid, e) =>
      var p := sys.procs[pid];
      var pa := Step(p.pa, e);
      With(sys, pid, p.(pa := pa, pending := p.pending - 1, inFlight := p.inFlight - multiset{e},
                        phase := AfterTurn(pa, e)))
    case Internal(pid, e) =>
      var p := sys.procs[pid];
      var pa := Step(p.pa, e);
      With(sys, pid, p.(pa := pa, phase := AfterTurn(pa, e)))
    case ReplyIdle(pid) =>
      if sys.procs[pid].pending == 0 then ClosePath(sys, pid, ClosedIdle)
      else With(sys, pid, sys.procs[pid].(phase := Looping))
    case StopAsking(pid) => With(sys, pid, sys.procs[pid].(phase := Looping))
    case LeaveLoop(pid) => With(sys, pid, sys.procs[pid].(phase := Leaving))
    case TellRemoved(pid, heard) =>
      var p := sys.procs[pid];
      var sys1 := With(sys, pid, p.(phase := Cleaning));
      if heard && p.name in sys.paths && sys.paths[p.name] == pid then sys1.(paths := sys.paths - {p.name}) else sys1
    case Finish(pid) =>
      var p := sys.procs[pid];
      With(sys, pid, p.(phase := Gone, pa := Terminate(p.pa)))
      .(manager := if sys.manager == WaitingFor(pid) then Free else sys.manager)
    case CallerGivesUp(pid, e) =>
      var p := sys.procs[pid];
      With(sys, pid, p.(inFlight := p.inFlight - multiset{e}, aborted := p.aborted + 1))
    case CloseForReload(pid) => ClosePath(sys, pid, ClosedByReload)
    case Shutdown => sys.(cancelled := true)
    case ManagerExits => sys.(manager := Exited)
  }

  /** Before the manager creates the paths of its non-regexp entries, which it does by `CreateStatic`, at
      start and after every reload; paths already created run meanwhile. */
  function Init(node: Node): Sys {
    Sys(node, Free, map[], map[], 0, false)
  }

  // ----- the invariant

  /** What holds of one path process. */
  ghost predicate ProcOk(sys: Sys, p: Proc) {
    && (if p.phase.Gone? then Clean(p.pa) else PathSpec.Inv(p.pa))
    && p.handed == |p.inFlight| + |p.pa.requests.accepted| + p.aborted
    && p.pending == p.handed - |p.pa.requests.accepted|
    && (!ContextDone(sys, p) ==> p.aborted == 0)
    && (p.phase.AskingIdle? ==> ShouldClose(p.pa))
    && (p.cause.ClosedIdle? ==> p.inFlight == multiset{})
    && (p.phase.Leaving? || p.phase.Cleaning? || p.phase.Gone? ==> ContextDone(sys, p))
    && (forall e | e in p.inFlight :: IsRequest(e))
  }

  /** The manager's map names a process it has not closed. */
  ghost predicate EntryOk(sys: Sys, n: string)
    requires n in sys.paths
  {
    sys.paths[n] in sys.procs && sys.procs[sys.paths[n]].name == n && sys.procs[sys.paths[n]].cause.NotClosed?
  }

  predicate Listed(sys: Sys, pid: nat)
    requires pid in sys.procs
  {
    sys.procs[pid].name in sys.paths && sys.paths[sys.procs[pid].name] == pid
  }

  /** Until the node shuts down, the map holds every path that was not closed, and a closed one
      still cleaning up is the one the manager waits for, its name still free. */
  ghost predicate LiveOk(sys: Sys, pid: nat)
    requires pid in sys.procs
  {
    var p := sys.procs[pid];
    !sys.cancelled ==>
      && (p.cause.NotClosed? ==> Listed(sys, pid))
      && (!p.cause.NotClosed? && !p.phase.Gone? ==> sys.manager == WaitingFor(pid) && p.name !in sys.paths)
  }

  ghost predicate PidOk(sys: Sys, pid: nat)
    requires pid in sys.procs
  {
    pid < sys.nextPid && ProcOk(sys, sys.procs[pid]) && LiveOk(sys, pid)
  }

  ghost predicate Inv(sys: Sys) {
    && (forall pid {:trigger PidOk(sys, pid)} | pid in sys.procs :: PidOk(sys, pid))
    && (forall n {:trigger EntryOk(sys, n)} | n in sys.paths :: EntryOk(sys, n))
  }

  lemma StepAccepts(s: State, e: Event)
    ensures |Step(s, e).requests.accepted| == |s.requests.accepted| + (if IsRequest(e) then 1 else 0)
  {
    match e
    case StaticSetReady => ConsumeKeepsAccepted(SourceBecomesReady(s));
    case AddPublisher(id, author) => PublishAccepts(s, id, author);
    case AddReader(q) => AddReaderAccepts(s, q);
    case _ =>
  }

  lemma ConsumeKeepsAccepted(s: State)
    ensures ConsumeOnHold(s).requests.accepted == s.requests.accepted
  {
    ConsumeOnHoldEffect(s);
  }

  lemma PublishAccepts(s: State, id: nat, author: nat)
    ensures Step(s, AddPublisher(id, author)).requests.accepted == s.requests.accepted + [id]
  {
    var s0 := Accepting(s, id);
    TakeOverKeepsRequests(s0, author);
    ConsumeKeepsAccepted(PublisherTakesOver(s0, author));
    hide PublisherTakesOver, ConsumeOnHold;
  }

  lemma TakeOverKeepsRequests(s: State, author: nat)
    ensures PublisherTakesOver(s, author).requests == s.requests
  {
  }

  lemma AddReaderAccepts(s: State, q: ReaderRequest)
    ensures Step(s, AddReader(q)).requests.accepted == s.requests.accepted + [q.id]
  {
    AddReaderPostEffect(Accepting(s, q.id), q);
  }

  /** A path that turned its loop is still a good process. */
  lemma TurnKeepsProc(sys: Sys, p: Proc, e: Event)
    requires ProcOk(sys, p) && p.phase.Looping? && Enabled(p.pa, e)
    requires IsRequest(e) ==> e in p.inFlight
    ensures var pa := Step(p.pa, e);
            var q := if IsRequest(e) then p.(pending := p.pending - 1, inFlight := p.inFlight - multiset{e}) else p;
            ProcOk(sys, q.(pa := pa, phase := AfterTurn(pa, e)))
  {
    StepKeepsInv(p.pa, e);
    StepAccepts(p.pa, e);
  }

  /** Changing one process, and of the rest at most who the manager waits for. */
  lemma ReplacedProcKeepsInv(sys: Sys, pid: nat, p: Proc)
    requires Inv(sys) && pid in sys.procs && ProcOk(sys, p)
    requires p.name == sys.procs[pid].name && p.cause == sys.procs[pid].cause
    requires p.phase.Gone? <==> sys.procs[pid].phase.Gone?
    ensures Inv(With(sys, pid, p))
  {
    hide PathSpec.Inv, Clean;
    var sys' := With(sys, pid, p);
    forall q | q in sys'.procs ensures PidOk(sys', q) {
      assert PidOk(sys, q);
    }
    forall n | n in sys'.paths ensures EntryOk(sys', n) {
      assert EntryOk(sys, n);
    }
  }

  lemma ClosedProcOk(sys: Sys, sys': Sys, p: Proc, cause: Cause)
    requires ProcOk(sys, p) && sys'.cancelled == sys.cancelled && cause != NotClosed
    requires cause.ClosedIdle? ==> p.pending == 0
    ensures ProcOk(sys', p.(cause := cause, phase := if p.phase.AskingIdle? then Looping else p.phase))
  {
    hide PathSpec.Inv, Clean;
  }

  lemma OtherProcOk(sys: Sys, sys': Sys, p: Proc)
    requires ProcOk(sys, p) && sys'.cancelled == sys.cancelled
    ensures ProcOk(sys', p)
  {
    hide PathSpec.Inv, Clean;
  }

  lemma FinishedProcOk(sys: Sys, sys': Sys, p: Proc)
    requires ProcOk(sys, p) && p.phase.Cleaning? && sys'.cancelled == sys.cancelled
    ensures ProcOk(sys', p.(phase := Gone, pa := Terminate(p.pa)))
  {
    TerminateIsClean(p.pa);
  }

  lemma CloseKeepsInv(sys: Sys, pid: nat, cause: Cause)
    requires Inv(sys) && sys.manager.Free? && pid in sys.procs && cause != NotClosed
    requires cause.ClosedIdle? ==> sys.procs[pid].pending == 0 && !sys.procs[pid].phase.Gone?
    requires cause.ClosedByReload? ==> sys.procs[pid].cause.NotClosed?
    ensures Inv(ClosePath(sys, pid, cause))
  {
    hide PathSpec.Inv, Clean;
    var sys' := ClosePath(sys, pid, cause);
    assert PidOk(sys, pid);
    ClosedProcOk(sys, sys', sys.procs[pid], cause);
    forall q | q in sys'.procs ensures PidOk(sys', q) {
      assert PidOk(sys, q);
      OtherProcOk(sys, sys', sys.procs[q]);
      LiveAfterClose(sys, pid, cause, q);
    }
    forall n | n in sys'.paths ensures EntryOk(sys', n) {
      assert EntryOk(sys, n);
    }
  }

  lemma LiveAfterClose(sys: Sys, pid: nat, cause: Cause, q: nat)
    requires sys.manager.Free? && pid in sys.procs && q in sys.procs && cause != NotClosed
    requires sys.procs[pid].cause.NotClosed? || !sys.procs[pid].phase.Gone?
    requires LiveOk(sys, pid) && LiveOk(sys, q)
    ensures LiveOk(ClosePath(sys, pid, cause), q)
  {
  }

  lemma CreateKeepsInv(sys: Sys, name: string, conf: Conf)
    requires Inv(sys) && sys.manager.Free? && conf.Validated() && name !in sys.paths
    ensures Inv(CreatePath(sys, name, conf))
  {
    var sys' := CreatePath(sys, name, conf);
    forall q | q in sys'.procs ensures PidOk(sys', q) {
      CreateKeepsPids(sys, name, conf, q);
    }
    hide PidOk;
    forall n | n in sys'.paths ensures EntryOk(sys', n) {
      CreateKeepsEntries(sys, name, conf, n);
    }
  }

  lemma CreateKeepsPids(sys: Sys, name: string, conf: Conf, q: nat)
    requires Inv(sys) && sys.manager.Free? && conf.Validated() && name !in sys.paths
    requires q in CreatePath(sys, name, conf).procs
    ensures PidOk(CreatePath(sys, name, conf), q)
  {
    var sys' := CreatePath(sys, name, conf);
    NewProcOk(sys', name, conf);
    hide PathSpec.Inv, Clean, Start, ProcOk;
    if q in sys.procs {
      assert PidOk(sys, q);
      OtherProcOk(sys, sys', sys.procs[q]);
      LiveAfterCreate(sys, name, conf, q);
    }
  }

  lemma CreateKeepsEntries(sys: Sys, name: string, conf: Conf, n: string)
    requires Inv(sys) && n in CreatePath(sys, name, conf).paths
    ensures EntryOk(CreatePath(sys, name, conf), n)
  {
    hide PathSpec.Inv, Clean, Start, ProcOk, LiveOk;
    if n != name {
      assert EntryOk(sys, n);
      assert PidOk(sys, sys.paths[n]);
    }
  }

  lemma LiveAfterCreate(sys: Sys, name: string, conf: Conf, q: nat)
    requires sys.manager.Free? && name !in sys.paths && q in sys.procs && q < sys.nextPid && LiveOk(sys, q)
    ensures LiveOk(CreatePath(sys, name, conf), q)
  {
    hide Start;
  }

  lemma NewProcOk(sys: Sys, name: string, conf: Conf)
    requires conf.Validated()
    ensures ProcOk(sys, Proc(name, Start(sys.node, conf), Looping, NotClosed, 0, multiset{}, 0, 0))
  {
    StartOk(sys.node, conf);
    NothingAcceptedYet(sys.node, conf);
    hide PathSpec.Inv, Clean, Start;
  }

  lemma NothingAcceptedYet(node: Node, conf: Conf)
    ensures Start(node, conf).requests.accepted == []
  {
  }

  lemma HandToKeepsInv(sys: Sys, name: string, e: Event)
    requires Inv(sys) && name in sys.paths && IsRequest(e)
    ensures sys.paths[name] in sys.procs
    ensures Inv(HandTo(sys, sys.paths[name], e))
  {
    hide PathSpec.Inv, Clean;
    assert EntryOk(sys, name);
    var pid := sys.paths[name];
    var p := sys.procs[pid];
    assert PidOk(sys, pid);
    var p' := p.(pending := p.pending + 1, inFlight := p.inFlight + multiset{e}, handed := p.handed + 1);
    ReplacedProcKeepsInv(sys, pid, p');
  }

  lemma FinishKeepsInv(sys: Sys, pid: nat)
    requires Inv(sys) && Can(sys, Finish(pid))
    ensures Inv(Do(sys, Finish(pid)))
  {
    hide PathSpec.Inv, Clean;
    var sys' := Do(sys, Finish(pid));
    assert PidOk(sys, pid);
    FinishedProcOk(sys, sys', sys.procs[pid]);
    forall q | q in sys'.procs ensures PidOk(sys', q) {
      assert PidOk(sys, q);
      OtherProcOk(sys, sys', sys.procs[q]);
    }
    forall n | n in sys'.paths ensures EntryOk(sys', n) {
      assert EntryOk(sys, n);
    }
  }

  lemma TellRemovedKeepsInv(sys: Sys, pid: nat, heard: bool)
    requires Inv(sys) && Can(sys, TellRemoved(pid, heard))
    ensures Inv(Do(sys, TellRemoved(pid, heard)))
  {
    hide PathSpec.Inv, Clean;
    var sys' := Do(sys, TellRemoved(pid, heard));
    assert PidOk(sys, pid);
    forall q | q in sys'.procs ensures PidOk(sys', q) {
      assert PidOk(sys, q);
    }
    forall n | n in sys'.paths ensures EntryOk(sys', n) {
      assert EntryOk(sys, n);
    }
  }

  lemma ShutdownKeepsInv(sys: Sys)
    requires Inv(sys)
    ensures Inv(sys.(cancelled := true))
    ensures sys.cancelled ==> Inv(sys.(manager := Exited))
  {
    hide PathSpec.Inv, Clean;
    forall q | q in sys.procs
      ensures PidOk(sys.(cancelled := true), q) && (sys.cancelled ==> PidOk(sys.(manager := Exited), q))
    {
      assert PidOk(sys, q);
    }
    forall n | n in sys.paths ensures EntryOk(sys.(cancelled := true), n) && EntryOk(sys.(manager := Exited), n) {
      assert EntryOk(sys, n);
    }
  }

  lemma DoKeepsInv(sys: Sys, a: Act)
    requires Inv(sys) && Can(sys, a)
    ensures Inv(Do(sys, a))
  {
    hide PathSpec.Inv, Clean;
    match a
    case HandOut(name, conf, e) =>
      if name !in sys.paths {
        CreateKeepsInv(sys, name, conf);
        HandToKeepsInv(CreatePath(sys, name, conf), name, e);
      } else {
        HandToKeepsInv(sys, name, e);
      }
    case CreateStatic(name, conf) => CreateKeepsInv(sys, name, conf);
    case Accept(pid, e) => TurnKeepsInv(sys, pid, e);
    case Internal(pid, e) => TurnKeepsInv(sys, pid, e);
    case Finish(pid) => FinishKeepsInv(sys, pid);
    case TellRemoved(pid, heard) => TellRemovedKeepsInv(sys, pid, heard);
    case CloseForReload(pid) =>
      assert PidOk(sys, pid) && EntryOk(sys, sys.procs[pid].name);
      CloseKeepsInv(sys, pid, ClosedByReload);
    case Shutdown => ShutdownKeepsInv(sys);
    case ManagerExits => ShutdownKeepsInv(sys);
    case _ => SmallActKeepsInv(sys, a);
  }

  lemma TurnKeepsInv(sys: Sys, pid: nat, e: Event)
    requires Inv(sys) && (Can(sys, Accept(pid, e)) || Can(sys, Internal(pid, e)))
    ensures Can(sys, Accept(pid, e)) ==> Inv(Do(sys, Accept(pid, e)))
    ensures Can(sys, Internal(pid, e)) ==> Inv(Do(sys, Internal(pid, e)))
  {
    hide PathSpec.Inv, Clean;
    assert PidOk(sys, pid);
    TurnKeepsProc(sys, sys.procs[pid], e);
    if Can(sys, Accept(pid, e)) {
      ReplacedProcKeepsInv(sys, pid, Do(sys, Accept(pid, e)).procs[pid]);
    } else {
      ReplacedProcKeepsInv(sys, pid, Do(sys, Internal(pid, e)).procs[pid]);
    }
  }

  lemma SmallActKeepsInv(sys: Sys, a: Act)
    requires Inv(sys) && Can(sys, a)
    requires a.ReplyIdle? || a.StopAsking? || a.LeaveLoop? || a.CallerGivesUp?
    ensures Inv(Do(sys, a))
  {
    hide PathSpec.Inv, Clean;
    assert PidOk(sys, a.pid);
    if a.ReplyIdle? && sys.procs[a.pid].pending == 0 {
      CloseKeepsInv(sys, a.pid, ClosedIdle);
    } else {
      ReplacedProcKeepsInv(sys, a.pid, Do(sys, a).procs[a.pid]);
    }
  }

  // ----- whole runs

  ghost predicate Reaches(sys: Sys, acts: seq<Act>, end: Sys)
    decreases |acts|
  {
    if acts == [] then end == sys
    else Can(sys, acts[0]) && Reaches(Do(sys, acts[0]), acts[1..], end)
  }

  lemma {:induction false} RunKeepsInv(sys: Sys, acts: seq<Act>, end: Sys)
    requires Inv(sys) && Reaches(sys, acts, end)
    ensures Inv(end)
    decreases |acts|
  {
    hide PathSpec.Inv, Clean;
    if acts != [] {
      DoKeepsInv(sys, acts[0]);
      RunKeepsInv(Do(sys, acts[0]), acts[1..], end);
    }
  }

  /** In every reachable state the pending counter of a path that is still served is exactly the
      number of requests handed to it that it has not taken. */
  lemma PendingIsExact(node: Node, acts: seq<Act>, end: Sys, pid: nat)
    requires Reaches(Init(node), acts, end) && pid in end.procs && !ContextDone(end, end.procs[pid])
    ensures end.procs[pid].pending == |end.procs[pid].inFlight|
  {
    hide PathSpec.Inv, Clean;
    RunKeepsInv(Init(node), acts, end);
    assert PidOk(end, pid);
  }

  /** When the manager accepts an idle close, nothing is outstanding and the path has no publisher,
      no reader and no held request; and from then on no caller can find the path gone. */
  lemma IdleCloseLosesNothing(node: Node, acts: seq<Act>, end: Sys, pid: nat)
    requires Reaches(Init(node), acts, end) && Can(end, ReplyIdle(pid)) && end.procs[pid].pending == 0
    ensures end.procs[pid].inFlight == multiset{}
    ensures end.procs[pid].pa.source.NoSource? && end.procs[pid].pa.readers == {} && !Holding(end.procs[pid].pa)
    ensures forall more, later, e | Reaches(Do(end, ReplyIdle(pid)), more, later) && pid in later.procs ::
              !Can(later, CallerGivesUp(pid, e))
  {
    hide PathSpec.Inv, Clean;
    RunKeepsInv(Init(node), acts, end);
    DoKeepsInv(end, ReplyIdle(pid));
    assert PidOk(end, pid);
    forall more, later, e | Reaches(Do(end, ReplyIdle(pid)), more, later) && pid in later.procs
      ensures !Can(later, CallerGivesUp(pid, e))
    {
      RunKeepsInv(Do(end, ReplyIdle(pid)), more, later);
      CauseStays(Do(end, ReplyIdle(pid)), more, later, pid);
      assert PidOk(later, pid);
    }
  }

  /** In every reachable state: a path that asks is closed exactly if no caller is on its way to it. Its name is
      then free and the manager waits for it to be gone; otherwise it goes on and nothing else changes. */
  lemma IdleCloseIff(node: Node, acts: seq<Act>, end: Sys, pid: nat)
    requires Reaches(Init(node), acts, end) && Can(end, ReplyIdle(pid)) && !ContextDone(end, end.procs[pid])
    ensures var p, later := end.procs[pid], Do(end, ReplyIdle(pid));
            && pid in later.procs && (later.procs[pid].cause.ClosedIdle? <==> p.inFlight == multiset{})
            && (if p.inFlight == multiset{}
                then p.name !in later.paths && later.manager == WaitingFor(pid)
                else later == end.(procs := end.procs[pid := p.(phase := Looping)]))
  {
    hide PathSpec.Inv, Clean;
    PendingIsExact(node, acts, end, pid);
    assert |end.procs[pid].inFlight| == 0 <==> end.procs[pid].inFlight == multiset{};
  }

  /** A path of a regular-expression entry that nothing uses. */
  predicate Unused(s: State) {
    s.conf.regexp.Some? && s.source.NoSource? && s.readers == {} && !Holding(s)
  }

  /** No event but a reload leaves a path unused without a look at whether it is. */
  lemma UnusedIsNoticed(s: State, e: Event)
    requires PathSpec.Inv(s) && Enabled(s, e) && !e.ReloadConf? && !Unused(s) && Unused(Step(s, e))
    ensures ChecksIdle(e)
  {
    if e.StaticSetReady? {
      ConsumeOnHoldEffect(SourceBecomesReady(s));
    }
  }

  /** The path that an act lets take one turn, and the event it takes. */
  predicate Turns(a: Act, pid: nat, e: Event) {
    a == Accept(pid, e) || a == Internal(pid, e)
  }

  /** In every reachable state: a path that a turn leaves unused asks to be closed, unless the turn was a reload;
      and it asks only if it is unused. */
  lemma UnusedPathsAskToClose(node: Node, acts: seq<Act>, end: Sys, a: Act, pid: nat, e: Event)
    requires Reaches(Init(node), acts, end) && Can(end, a) && Turns(a, pid, e)
    ensures var p, p' := end.procs[pid], Do(end, a).procs[pid];
            && p'.pa == Step(p.pa, e)
            && (!e.ReloadConf? && !Unused(p.pa) && Unused(p'.pa) ==> p'.phase.AskingIdle?)
            && (p'.phase.AskingIdle? ==> Unused(p'.pa))
  {
    hide PathSpec.Inv, Clean, Step, Unused, ShouldClose;
    RunKeepsInv(Init(node), acts, end);
    assert PidOk(end, pid);
    var p := end.procs[pid];
    UnusedIff(Step(p.pa, e));
    assert Enabled(p.pa, e) by { RequestsAreEnabled(p.pa, e); }
    if !e.ReloadConf? && !Unused(p.pa) && Unused(Step(p.pa, e)) {
      UnusedIsNoticed(p.pa, e);
    }
  }

  lemma RequestsAreEnabled(s: State, e: Event)
    requires IsRequest(e) || Enabled(s, e)
    ensures Enabled(s, e)
  {
  }

  lemma UnusedIff(s: State)
    ensures Unused(s) <==> ShouldClose(s)
  {
  }

  /** A reload is not looked at: it can turn an idle path of a plain entry into an unused one that goes on. */
  lemma ReloadIsNotNoticed(node: Node, conf: Conf, id: int)
    requires conf.Validated() && conf.source == FromPublisher && conf.regexp.None? && !conf.alwaysAvailable
    ensures var s, e := Start(node, conf), ReloadConf(conf.(regexp := Some(id)));
            Enabled(s, e) && !Unused(s) && Unused(Step(s, e)) && AfterTurn(Step(s, e), e).Looping?
  {
  }

  lemma CauseStaysOnce(sys: Sys, a: Act, pid: nat)
    requires Inv(sys) && Can(sys, a) && pid in sys.procs && sys.procs[pid].cause.ClosedIdle?
    ensures pid in Do(sys, a).procs && Do(sys, a).procs[pid].cause.ClosedIdle?
  {
    hide PathSpec.Inv, Clean;
    assert PidOk(sys, pid);
    if a.CloseForReload? {
      assert EntryOk(sys, sys.procs[a.pid].name);
    }
  }

  lemma {:induction false} CauseStays(sys: Sys, acts: seq<Act>, end: Sys, pid: nat)
    requires Inv(sys) && Reaches(sys, acts, end)
    requires pid in sys.procs && sys.procs[pid].cause.ClosedIdle?
    ensures pid in end.procs && end.procs[pid].cause.ClosedIdle?
    decreases |acts|
  {
    hide PathSpec.Inv, Clean;
    if acts != [] {
      DoKeepsInv(sys, acts[0]);
      CauseStaysOnce(sys, acts[0], pid);
      CauseStays(Do(sys, acts[0]), acts[1..], end, pid);
    }
  }

  /** At most one path of a name is alive at every step until the node shuts down, so two sources
      never compete for a name; and it is the one the manager would hand out, or the one whose
      departure it waits for. */
  lemma OneLivePathPerName(node: Node, acts: seq<Act>, end: Sys, p: nat, q: nat)
    requires Reaches(Init(node), acts, end) && !end.cancelled
    requires p in end.procs && q in end.procs && !end.procs[p].phase.Gone? && !end.procs[q].phase.Gone?
    requires end.procs[p].name == end.procs[q].name
    ensures p == q
    ensures end.manager == WaitingFor(p) || (end.procs[p].name in end.paths && end.paths[end.procs[p].name] == p)
  {
    hide PathSpec.Inv, Clean;
    RunKeepsInv(Init(node), acts, end);
    assert PidOk(end, p) && PidOk(end, q);
  }

  // ----- the exact exception

  /** No two live paths have the same name. */
  ghost predicate UniqueNames(sys: Sys) {
    forall p, q {:trigger Rivals(sys, p, q)} | p in sys.procs && q in sys.procs :: !Rivals(sys, p, q)
  }

  predicate Rivals(sys: Sys, p: nat, q: nat)
    requires p in sys.procs && q in sys.procs
  {
    p != q && sys.procs[p].name == sys.procs[q].name && !sys.procs[p].phase.Gone? && !sys.procs[q].phase.Gone?
  }

  /** The act makes the manager create a path. */
  predicate Creates(sys: Sys, a: Act) {
    (a.HandOut? || a.CreateStatic?) && a.name !in sys.paths
  }

  /** A path of that name is not gone yet, though the manager no longer knows it. */
  ghost predicate Lingers(sys: Sys, name: string) {
    name !in sys.paths && exists p :: p in sys.procs && sys.procs[p].name == name && !sys.procs[p].phase.Gone?
  }

  /** An act that creates nothing renames nobody and wakes nobody up. */
  lemma OthersKeepNames(sys: Sys, a: Act, p: nat)
    requires Can(sys, a) && !Creates(sys, a) && p in Do(sys, a).procs && Inv(sys)
    ensures p in sys.procs && Do(sys, a).procs[p].name == sys.procs[p].name
    ensures sys.procs[p].phase.Gone? ==> Do(sys, a).procs[p].phase.Gone?
  {
    hide PathSpec.Inv, Clean, Step, Terminate;
    if a.HandOut? {
      assert EntryOk(sys, a.name);
    }
  }

  lemma CreationAdds(sys: Sys, a: Act, p: nat)
    requires Can(sys, a) && Creates(sys, a) && Inv(sys)
    ensures sys.nextPid !in sys.procs
    ensures p in Do(sys, a).procs <==> p in sys.procs || p == sys.nextPid
    ensures p in sys.procs ==> Do(sys, a).procs[p] == sys.procs[p]
    ensures var new_ := Do(sys, a).procs[sys.nextPid]; new_.name == a.name && new_.phase.Looping?
  {
    hide PathSpec.Inv, Clean, Start, ProcOk;
    assert sys.nextPid in sys.procs ==> PidOk(sys, sys.nextPid);
  }

  /** From a state without rivals, an act brings about two live paths of one name if and only if it makes the
      manager create a path while the old one of that name lingers. */
  lemma TwoPathsIff(sys: Sys, a: Act)
    requires Inv(sys) && UniqueNames(sys) && Can(sys, a)
    ensures !UniqueNames(Do(sys, a)) <==> Creates(sys, a) && Lingers(sys, a.name)
  {
    hide PathSpec.Inv, Clean, Do, Can, Inv;
    var sys' := Do(sys, a);
    if !Creates(sys, a) {
      forall p, q | p in sys'.procs && q in sys'.procs ensures !Rivals(sys', p, q) {
        OthersKeepNames(sys, a, p);
        OthersKeepNames(sys, a, q);
        assert !Rivals(sys, p, q);
      }
    } else {
      forall p ensures p in sys'.procs <==> p in sys.procs || p == sys.nextPid {
        CreationAdds(sys, a, p);
      }
      CreationAdds(sys, a, sys.nextPid);
      if Lingers(sys, a.name) {
        var p :| p in sys.procs && sys.procs[p].name == a.name && !sys.procs[p].phase.Gone?;
        CreationAdds(sys, a, p);
        assert Rivals(sys', p, sys.nextPid);
      } else {
        forall p, q | p in sys'.procs && q in sys'.procs ensures !Rivals(sys', p, q) {
          CreationAdds(sys, a, p);
          CreationAdds(sys, a, q);
          assert p in sys.procs && q in sys.procs ==> !Rivals(sys, p, q);
        }
      }
    }
  }

  /** And a free manager has lost track of a path that is not gone only after the node began to shut down. */
  lemma LingersOnlyAtShutdown(sys: Sys, name: string)
    requires Inv(sys) && sys.manager.Free? && Lingers(sys, name)
    ensures sys.cancelled
  {
    hide PathSpec.Inv, Clean, ProcOk;
    var p :| p in sys.procs && sys.procs[p].name == name && !sys.procs[p].phase.Gone?;
    assert PidOk(sys, p);
  }

  /** It does happen: a path that has announced its departure may still be
      cleaning up when a last request makes the manager create another of the same name. */
  lemma ShutdownAdmitsTwo(node: Node, conf: Conf, name: string)
    requires conf.Validated()
    ensures var acts := [HandOut(name, conf, Describe(0)), Shutdown, LeaveLoop(0), TellRemoved(0, true),
                         HandOut(name, conf, Describe(1))];
            exists end :: Reaches(Init(node), acts, end) && 0 in end.procs && 1 in end.procs
              && end.procs[0].name == end.procs[1].name == name
              && end.procs[0].phase.Cleaning? && end.procs[1].phase.Looping?
  {
    var acts := [HandOut(name, conf, Describe(0)), Shutdown, LeaveLoop(0), TellRemoved(0, true),
                 HandOut(name, conf, Describe(1))];
    hide Start, Reaches, Conf.Validated;
    var s0 := Init(node);
    var p1 := Proc(name, Start(node, conf), Looping, NotClosed, 1, multiset{Describe(0)}, 1, 0);
    var s1 := Sys(node, Free, map[name := 0], map[0 := p1], 1, false);
    HandOutCreates(s0, acts[0]);
    assert s0.procs[0 := p1] == map[0 := p1] && s0.paths[name := 0] == map[name := 0];
    var s2 := s1.(cancelled := true);
    var s3 := s2.(procs := map[0 := p1.(phase := Leaving)]);
    var s4 := s3.(procs := map[0 := p1.(phase := Cleaning)], paths := map[]);
    DepartureActs(s2, p1, name);
    LastHandOut(s4, p1.(phase := Cleaning), acts[4]);
    FiveActs(s0, acts, s1, s2, s3, s4);
  }

  /** The manager, which no longer knows the departing path, creates another. */
  lemma LastHandOut(sys: Sys, p: Proc, a: Act)
    requires sys.procs == map[0 := p] && sys.paths == map[] && sys.nextPid == 1 && a.HandOut? && Can(sys, a)
    ensures var end := Do(sys, a);
            && 0 in end.procs && 1 in end.procs && end.procs[0] == p
            && end.procs[1].name == a.name && end.procs[1].phase.Looping?
  {
    hide Start, Can;
    HandOutCreates(sys, a);
  }

  lemma DepartureActs(sys: Sys, p: Proc, name: string)
    requires sys.manager.Free? && sys.cancelled && sys.procs == map[0 := p] && sys.paths == map[name := 0]
    requires p.name == name && p.phase.Looping?
    ensures var s3 := sys.(procs := map[0 := p.(phase := Leaving)]);
            && Can(sys, LeaveLoop(0)) && Do(sys, LeaveLoop(0)) == s3
            && Can(s3, TellRemoved(0, true))
            && Do(s3, TellRemoved(0, true)) == s3.(procs := map[0 := p.(phase := Cleaning)], paths := map[])
  {
    var p3, p4 := p.(phase := Leaving), p.(phase := Cleaning);
    assert sys.procs[0 := p3] == map[0 := p3] && map[0 := p3][0 := p4] == map[0 := p4];
    assert sys.paths - {name} == map[];
  }

  lemma HandOutCreates(sys: Sys, a: Act)
    requires a.HandOut? && Can(sys, a) && a.name !in sys.paths
    ensures var p := Proc(a.name, Start(sys.node, a.conf), Looping, NotClosed, 1, multiset{a.request}, 1, 0);
            Do(sys, a) == sys.(paths := sys.paths[a.name := sys.nextPid], procs := sys.procs[sys.nextPid := p],
                               nextPid := sys.nextPid + 1)
  {
    hide Start;
    var p0 := Proc(a.name, Start(sys.node, a.conf), Looping, NotClosed, 0, multiset{}, 0, 0);
    var p := p0.(pending := 1, inFlight := multiset{a.request}, handed := 1);
    assert p0.inFlight + multiset{a.request} == p.inFlight;
    assert sys.procs[sys.nextPid := p0][sys.nextPid := p] == sys.procs[sys.nextPid := p];
  }

  lemma FiveActs(s0: Sys, acts: seq<Act>, s1: Sys, s2: Sys, s3: Sys, s4: Sys)
    requires |acts| == 5
    requires Can(s0, acts[0]) && Do(s0, acts[0]) == s1
    requires Can(s1, acts[1]) && Do(s1, acts[1]) == s2
    requires Can(s2, acts[2]) && Do(s2, acts[2]) == s3
    requires Can(s3, acts[3]) && Do(s3, acts[3]) == s4
    requires Can(s4, acts[4])
    ensures Reaches(s0, acts, Do(s4, acts[4]))
  {
    hide Do, Can;
    var s5 := Do(s4, acts[4]);
    assert acts[1..][1..] == acts[2..] && acts[2..][1..] == acts[3..] && acts[3..][1..] == acts[4..]
           && acts[4..][1..] == [];
    assert Reaches(s5, [], s5);
    assert Reaches(s4, acts[4..], s5);
    assert Reaches(s3, acts[3..], s5);
    assert Reaches(s2, acts[2..], s5);
    assert Reaches(s1, acts[1..], s5);
  }
}
