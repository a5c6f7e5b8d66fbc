/** The path manager's tables (internal/core/path_manager.go): which paths are alive, under which
    configuration entry, and what a reload does to them.

    A hot reload is handed to a goroutine that delivers it to the path later, so every path
    carries the configuration it currently runs with and the reloads still on their way. */
module PathManager {
  import opened Wrappers
  import opened PathConf

  datatype PathRecord = PathRecord(confName: string, running: Conf, onTheWay: seq<Conf>)

  // ----- what a reload does to one path, as the source computes it

  predicate MustRecreate(old_: map<string, Conf>, new_: map<string, Conf>, n: string) {
    n in old_ && n in new_ && new_[n] != old_[n] && !CanBeUpdated(old_[n], new_[n])
  }

  predicate MustReload(old_: map<string, Conf>, new_: map<string, Conf>, n: string) {
    n in old_ && n in new_ && new_[n] != old_[n] && CanBeUpdated(old_[n], new_[n])
  }

  /** The decision for a path, given what its name resolves to in the new configuration. */
  function Decision(old_: map<string, Conf>, new_: map<string, Conf>, found: Option<Conf>, p: PathRecord):
    Option<PathRecord>
    requires p.confName in old_
  {
    match found
    case None => None
    case Some(c) =>
      if c.name != p.confName then
        if CanBeUpdated(old_[p.confName], c)
        then Some(p.(confName := c.name, onTheWay := p.onTheWay + [c]))
        else None
      else if MustRecreate(old_, new_, c.name) then None
      else if MustReload(old_, new_, c.name) then Some(p.(onTheWay := p.onTheWay + [c]))
      else Some(p)
  }

  // ----- state and steps

  datatype Tables = Tables(confs: map<string, Conf>, paths: map<string, PathRecord>)

  function NewPath(c: Conf): PathRecord {
    PathRecord(c.name, c, [])
  }

  ghost predicate RecordsOk(t: Tables) {
    forall n | n in t.paths :: t.paths[n].confName in t.confs
  }

  ghost function Survivors(env: Env, t: Tables, new_: map<string, Conf>): map<string, PathRecord>
    requires RecordsOk(t) && KeyedByName(new_)
  {
    map n | n in t.paths && Decision(t.confs, new_, Resolve(env, new_, n), t.paths[n]).Some? ::
      Decision(t.confs, new_, Resolve(env, new_, n), t.paths[n]).value
  }

  ghost function Created(new_: map<string, Conf>): map<string, PathRecord> {
    map k | k in new_ && new_[k].regexp.None? :: NewPath(new_[k])
  }

  /** Close, keep or hot-reload every live path, then create the missing static ones. */
  ghost function Reload(env: Env, t: Tables, new_: map<string, Conf>): Tables
    requires RecordsOk(t) && KeyedByName(new_)
  {
    Tables(new_, Created(new_) + Survivors(env, t, new_))
  }

  /** A describe, read or publish request for a name: refused if it resolves to nothing, else the
      path is created if it is missing. */
  ghost function Request(env: Env, t: Tables, name: string): Tables
    requires KeyedByName(t.confs)
  {
    match Resolve(env, t.confs, name)
    case None => t
    case Some(c) => if name in t.paths then t else t.(paths := t.paths[name := NewPath(c)])
  }

  /** The path asked to be closed and the manager agreed; a path asks only if the configuration it
      runs with has a regular expression. */
  function IdleClose(t: Tables, name: string): Tables {
    t.(paths := t.paths - {name})
  }

  /** One of the goroutines gets through. */
  function Deliver(t: Tables, name: string, i: nat): Tables
    requires name in t.paths && i < |t.paths[name].onTheWay|
  {
    var p := t.paths[name];
    t.(paths := t.paths[name := p.(running := p.onTheWay[i], onTheWay := p.onTheWay[..i] + p.onTheWay[i + 1..])])
  }

  datatype Event =
    | Requested(name: string)
    | Reloaded(confs: map<string, Conf>)
    | ClosedIdle(name: string)
    | Delivered(name: string, index: nat)

  ghost predicate Can(t: Tables, e: Event) {
    match e
    case Requested(_) => true
    case Reloaded(new_) => Loaded(new_)
    case ClosedIdle(n) => n in t.paths && t.paths[n].running.regexp.Some?
    case Delivered(n, i) => n in t.paths && i < |t.paths[n].onTheWay|
  }

  ghost function Do(env: Env, t: Tables, e: Event): Tables
    requires Loaded(t.confs) && RecordsOk(t) && Can(t, e)
  {
    match e
    case Requested(n) => Request(env, t, n)
    case Reloaded(new_) => Reload(env, t, new_)
    case ClosedIdle(n) => IdleClose(t, n)
    case Delivered(n, i) => Deliver(t, n, i)
  }

  ghost function Initial(confs: map<string, Conf>): Tables {
    Tables(confs, Created(confs))
  }

  // ----- what holds of every path, always

  /** The path's recorded entry is what its name resolves to now, and the configuration it runs with
      and everything on its way differ from that entry in hot-reloadable fields only. */
  ghost predicate RecordOk(env: Env, t: Tables, n: string)
    requires n in t.paths && KeyedByName(t.confs)
  {
    var p := t.paths[n];
    && Resolve(env, t.confs, n).Some?
    && p.confName == Resolve(env, t.confs, n).value.name
    && p.confName in t.confs
    && CanBeUpdated(p.running, t.confs[p.confName])
    && forall i | 0 <= i < |p.onTheWay| :: CanBeUpdated(p.onTheWay[i], t.confs[p.confName])
  }

  ghost predicate Inv(env: Env, t: Tables) {
    Loaded(t.confs) && forall n | n in t.paths :: RecordOk(env, t, n)
  }

  lemma InvRecords(env: Env, t: Tables)
    requires Inv(env, t)
    ensures RecordsOk(t)
  {
    forall n | n in t.paths ensures t.paths[n].confName in t.confs {
      assert RecordOk(env, t, n);
    }
  }

  /** A name that is an entry resolves to that entry. */
  lemma EntryResolvesToItself(env: Env, confs: map<string, Conf>, n: string)
    requires KeyedByName(confs) && n in confs
    ensures Resolve(env, confs, n) == Some(confs[n])
  {
  }

  /** The decision in closed form: a path survives a reload exactly if its name still resolves and
      the two configurations differ in hot-reloadable fields only; it then takes the new entry's
      name, and is sent the new configuration exactly if anything changed. */
  lemma SurvivalIff(env: Env, t: Tables, new_: map<string, Conf>, n: string)
    requires Inv(env, t) && Loaded(new_) && n in t.paths
    ensures t.paths[n].confName in t.confs
    ensures var p := t.paths[n];
            var found := Resolve(env, new_, n);
            var d := Decision(t.confs, new_, found, p);
            var old_ := t.confs[p.confName];
            && (d.Some? <==> found.Some? && CanBeUpdated(old_, found.value))
            && (d.Some? ==> d.value == p.(confName := found.value.name,
                                          onTheWay := if found.value == old_ then p.onTheWay
                                                      else p.onTheWay + [found.value]))
  {
    assert RecordOk(env, t, n);
    var p := t.paths[n];
    var found := Resolve(env, new_, n);
    if found.Some? {
      CanBeUpdatedIsEquivalence(t.confs[p.confName], found.value, found.value);
    }
  }

  lemma InitialKeepsInv(env: Env, confs: map<string, Conf>)
    requires Loaded(confs)
    ensures Inv(env, Initial(confs))
  {
    var t := Initial(confs);
    forall n | n in t.paths ensures RecordOk(env, t, n) {
      EntryResolvesToItself(env, confs, n);
      CanBeUpdatedIsEquivalence(confs[n], confs[n], confs[n]);
    }
  }

  lemma ReloadKeepsInv(env: Env, t: Tables, new_: map<string, Conf>)
    requires Inv(env, t) && Loaded(new_)
    ensures RecordsOk(t) && Inv(env, Reload(env, t, new_))
  {
    InvRecords(env, t);
    var t' := Reload(env, t, new_);
    forall n | n in t'.paths ensures RecordOk(env, t', n) {
      if n in Survivors(env, t, new_) {
        SurvivorIsOk(env, t, new_, n);
      } else {
        EntryResolvesToItself(env, new_, n);
        CanBeUpdatedIsEquivalence(new_[n], new_[n], new_[n]);
      }
    }
  }

  lemma SurvivorIsOk(env: Env, t: Tables, new_: map<string, Conf>, n: string)
    requires Inv(env, t) && Loaded(new_) && RecordsOk(t) && n in Survivors(env, t, new_)
    ensures RecordOk(env, Reload(env, t, new_), n)
  {
    SurvivalIff(env, t, new_, n);
    assert RecordOk(env, t, n);
    var p := t.paths[n];
    var old_ := t.confs[p.confName];
    var c := Resolve(env, new_, n).value;
    CanBeUpdatedIsEquivalence(p.running, old_, c);
    CanBeUpdatedIsEquivalence(c, c, c);
    var p' := Survivors(env, t, new_)[n];
    forall i | 0 <= i < |p'.onTheWay| ensures CanBeUpdated(p'.onTheWay[i], c) {
      if i < |p.onTheWay| {
        CanBeUpdatedIsEquivalence(p.onTheWay[i], old_, c);
      }
    }
  }

  lemma DoKeepsInv(env: Env, t: Tables, e: Event)
    requires Inv(env, t) && Can(t, e)
    ensures RecordsOk(t) && Inv(env, Do(env, t, e))
  {
    InvRecords(env, t);
    match e
    case Reloaded(new_) => ReloadKeepsInv(env, t, new_);
    case Requested(name) => RequestKeepsInv(env, t, name);
    case _ =>
      var t' := Do(env, t, e);
      forall n | n in t'.paths ensures RecordOk(env, t', n) {
        assert RecordOk(env, t, n);
      }
  }

  lemma RequestKeepsInv(env: Env, t: Tables, name: string)
    requires Inv(env, t)
    ensures Inv(env, Request(env, t, name))
  {
    var t' := Request(env, t, name);
    forall n | n in t'.paths ensures RecordOk(env, t', n) {
      if n in t.paths {
        assert RecordOk(env, t, n);
      } else {
        var c := t'.paths[name].running;
        CanBeUpdatedIsEquivalence(c, c, c);
      }
    }
  }

  ghost predicate Reaches(env: Env, t: Tables, es: seq<Event>, end: Tables)
    decreases |es|
  {
    if es == [] then end == t
    else Loaded(t.confs) && RecordsOk(t) && Can(t, es[0]) && Reaches(env, Do(env, t, es[0]), es[1..], end)
  }

  /** After any sequence of requests, reloads, idle closes and deliveries, every live path is
      recorded under the entry its name resolves to. */
  lemma {:induction false} RecordsFollowResolution(env: Env, t: Tables, es: seq<Event>, end: Tables)
    requires Inv(env, t) && Reaches(env, t, es, end)
    ensures Inv(env, end)
    decreases |es|
  {
    if es != [] {
      DoKeepsInv(env, t, es[0]);
      RecordsFollowResolution(env, Do(env, t, es[0]), es[1..], end);
    }
  }

  /** After any run from the start, a request whose name resolves is handed a path recorded under the resolved
      entry, which runs with a configuration that differs from it in hot-reloadable fields only. */
  lemma RequestMeetsItsEntry(env: Env, confs: map<string, Conf>, es: seq<Event>, end: Tables, name: string)
    requires Loaded(confs) && Reaches(env, Initial(confs), es, end)
    ensures Loaded(end.confs)
    ensures var found, t := Resolve(env, end.confs, name), Request(env, end, name);
            if found.None? then t == end
            else name in t.paths && t.paths[name].confName == found.value.name
                 && CanBeUpdated(t.paths[name].running, found.value)
  {
    InitialKeepsInv(env, confs);
    RecordsFollowResolution(env, Initial(confs), es, end);
    RequestKeepsInv(env, end, name);
    var t := Request(env, end, name);
    if Resolve(env, end.confs, name).Some? {
      assert RecordOk(env, t, name);
      ResolvedIsAnEntry(env, end.confs, name);
    }
  }

  lemma ResolvedIsAnEntry(env: Env, confs: map<string, Conf>, name: string)
    requires Loaded(confs) && Resolve(env, confs, name).Some?
    ensures var c := Resolve(env, confs, name).value; c.name in confs && confs[c.name] == c
  {
  }

  /** And with that very entry, if reloads arrive in order and none is on its way to it. */
  lemma RequestMeetsItsVeryEntry(env: Env, confs: map<string, Conf>, es: seq<Event>, end: Tables, name: string)
    requires Loaded(confs) && ReachesOrderly(env, Initial(confs), es, end)
    ensures Loaded(end.confs)
    ensures var found, t := Resolve(env, end.confs, name), Request(env, end, name);
            found.Some? ==> name in t.paths
                            && (t.paths[name].onTheWay == [] ==> t.paths[name].running == found.value)
  {
    EveryOrderlyRunKeepsStatics(env, confs, es, end);
    if Resolve(env, end.confs, name).Some? {
      ResolvedIsAnEntry(env, end.confs, name);
      if name in end.paths {
        assert RecordOk(env, end, name) && UpToDate(end, name);
      }
    }
  }

  // ----- static paths are always there

  ghost predicate StaticsAlive(t: Tables) {
    forall k | k in t.confs && t.confs[k].regexp.None? :: k in t.paths
  }

  /** The entry is static, but its path still runs with a regular-expression one and may ask to be closed. */
  ghost predicate Exposed(t: Tables, n: string) {
    n in t.confs && t.confs[n].regexp.None? && n in t.paths && t.paths[n].running.regexp.Some?
  }

  /** An event loses a static path if and only if it is the idle close of an exposed one. */
  lemma StaticIsLostIff(env: Env, t: Tables, e: Event)
    requires Inv(env, t) && Can(t, e) && StaticsAlive(t)
    ensures RecordsOk(t)
    ensures !StaticsAlive(Do(env, t, e)) <==> e.ClosedIdle? && Exposed(t, e.name)
  {
    InvRecords(env, t);
  }

  /** So a static path can be lost from here if and only if one is exposed. */
  lemma StaticCanBeLostIff(env: Env, t: Tables)
    requires Inv(env, t) && StaticsAlive(t)
    ensures RecordsOk(t)
    ensures (exists e :: Can(t, e) && !StaticsAlive(Do(env, t, e))) <==> (exists n :: Exposed(t, n))
  {
    InvRecords(env, t);
    if n :| Exposed(t, n) {
      assert Can(t, ClosedIdle(n));
      StaticIsLostIff(env, t, ClosedIdle(n));
    }
    if e :| Can(t, e) && !StaticsAlive(Do(env, t, e)) {
      StaticIsLostIff(env, t, e);
      assert Exposed(t, e.name);
    }
  }

  /** A path is exposed only while the reload that made its entry static is on its way to it, unless an
      older reload was delivered after a newer one. */
  lemma ExposedMeansOnTheWay(env: Env, t: Tables, n: string)
    requires Inv(env, t) && Exposed(t, n) && UpToDate(t, n)
    ensures t.paths[n].onTheWay != []
  {
    assert RecordOk(env, t, n);
    EntryResolvesToItself(env, t.confs, n);
  }

  /** A lost static path comes back with the next request for it or the next reload that keeps its entry
      static, and with nothing else. */
  lemma LostStaticComesBackIff(env: Env, t: Tables, e: Event, n: string)
    requires Inv(env, t) && Can(t, e) && n in t.confs && t.confs[n].regexp.None? && n !in t.paths
    ensures RecordsOk(t)
    ensures n in Do(env, t, e).paths
       <==> e == Requested(n) || (e.Reloaded? && n in e.confs && e.confs[n].regexp.None?)
  {
    InvRecords(env, t);
    EntryResolvesToItself(env, t.confs, n);
  }

  /** The newest configuration sent to a path, delivered or not. */
  function Newest(p: PathRecord): Conf {
    if p.onTheWay == [] then p.running else p.onTheWay[|p.onTheWay| - 1]
  }

  ghost predicate UpToDate(t: Tables, n: string)
    requires n in t.paths
  {
    t.paths[n].confName in t.confs && Newest(t.paths[n]) == t.confs[t.paths[n].confName]
  }

  /** Reloads delivered in the order they were sent, and none overtaken by an idle close. */
  ghost predicate Orderly(t: Tables, e: Event) {
    && (e.Delivered? ==> e.index == 0)
    && (e.ClosedIdle? && e.name in t.paths ==> t.paths[e.name].onTheWay == [])
  }

  ghost predicate AllUpToDate(t: Tables) {
    forall n | n in t.paths :: UpToDate(t, n)
  }

  lemma OrderlyKeepsStatics(env: Env, t: Tables, e: Event)
    requires Inv(env, t) && Can(t, e) && StaticsAlive(t) && AllUpToDate(t) && Orderly(t, e)
    ensures RecordsOk(t)
    ensures StaticsAlive(Do(env, t, e)) && AllUpToDate(Do(env, t, e))
  {
    InvRecords(env, t);
    StaticIsLostIff(env, t, e);
    if e.ClosedIdle? {
      assert RecordOk(env, t, e.name) && UpToDate(t, e.name);
    } else if e.Reloaded? {
      ReloadKeepsUpToDate(env, t, e.confs);
    } else if e.Delivered? {
      DeliveryKeepsUpToDate(t, e.name);
    }
    hide CanBeUpdated, Newest, Survivors;
  }

  lemma DeliveryKeepsUpToDate(t: Tables, name: string)
    requires AllUpToDate(t) && name in t.paths && |t.paths[name].onTheWay| > 0
    ensures AllUpToDate(Deliver(t, name, 0))
  {
    var t' := Deliver(t, name, 0);
    forall n | n in t'.paths ensures UpToDate(t', n) {
      assert UpToDate(t, n);
    }
  }

  lemma ReloadKeepsUpToDate(env: Env, t: Tables, new_: map<string, Conf>)
    requires Inv(env, t) && RecordsOk(t) && Loaded(new_) && AllUpToDate(t)
    ensures AllUpToDate(Reload(env, t, new_))
  {
    var t' := Reload(env, t, new_);
    forall n | n in t'.paths ensures UpToDate(t', n) {
      if n in Survivors(env, t, new_) {
        assert UpToDate(t, n) && RecordOk(env, t, n);
        SurvivalIff(env, t, new_, n);
      }
    }
  }

  ghost predicate ReachesOrderly(env: Env, t: Tables, es: seq<Event>, end: Tables)
    decreases |es|
  {
    if es == [] then end == t
    else && Loaded(t.confs) && RecordsOk(t) && Can(t, es[0]) && Orderly(t, es[0])
         && ReachesOrderly(env, Do(env, t, es[0]), es[1..], end)
  }

  /** In every orderly run each static entry has its live path at every moment, and a path with
      nothing on its way runs exactly the entry it is recorded under. */
  lemma {:induction false} OrderlyRunsKeepStatics(env: Env, t: Tables, es: seq<Event>, end: Tables)
    requires Inv(env, t) && StaticsAlive(t) && AllUpToDate(t) && ReachesOrderly(env, t, es, end)
    ensures StaticsAlive(end) && AllUpToDate(end)
    decreases |es|
  {
    if es != [] {
      DoKeepsInv(env, t, es[0]);
      OrderlyKeepsStatics(env, t, es[0]);
      OrderlyRunsKeepStatics(env, Do(env, t, es[0]), es[1..], end);
    }
  }

  lemma InitialIsReady(confs: map<string, Conf>)
    requires Loaded(confs)
    ensures StaticsAlive(Initial(confs)) && AllUpToDate(Initial(confs))
  {
  }

  /** From the start on: in every orderly run every static entry has its live path, and every live path is
      recorded under the entry its name resolves to. */
  lemma EveryOrderlyRunKeepsStatics(env: Env, confs: map<string, Conf>, es: seq<Event>, end: Tables)
    requires Loaded(confs) && ReachesOrderly(env, Initial(confs), es, end)
    ensures Inv(env, end) && StaticsAlive(end) && AllUpToDate(end)
  {
    InitialKeepsInv(env, confs);
    InitialIsReady(confs);
    OrderlyReaches(env, Initial(confs), es, end);
    RecordsFollowResolution(env, Initial(confs), es, end);
    OrderlyRunsKeepStatics(env, Initial(confs), es, end);
  }

  lemma {:induction false} OrderlyReaches(env: Env, t: Tables, es: seq<Event>, end: Tables)
    requires ReachesOrderly(env, t, es, end)
    ensures Reaches(env, t, es, end)
    decreases |es|
  {
    hide Do, Can, Orderly;
    if es != [] {
      OrderlyReaches(env, Do(env, t, es[0]), es[1..], end);
    }
  }

  /** Without that order the guarantee is lost: an idle close overtakes the reload that turned the
      path's entry from a regular expression into a static one, and the static path is gone. */
  lemma OvertakingCloseLosesStatic(env: Env, re: Conf, n: string)
    requires re.Validated() && Matching(env, re, n) && env.validName(n)
    requires n != re.name && !IsCatchAll(re) && !re.HasStaticSource()
    requires n != "all" && n != "all_others"
    ensures var st := re.(name := n, regexp := None);
            var old_ := map[re.name := re];
            var new_ := map[re.name := re, n := st];
            Loaded(old_) && Loaded(new_) && RecordsOk(Initial(old_))
    ensures var st := re.(name := n, regexp := None);
            var old_ := map[re.name := re];
            var new_ := map[re.name := re, n := st];
            var t1 := Request(env, Initial(old_), n);
            RecordsOk(t1)
            && var t2 := Reload(env, t1, new_);
               && Can(t2, ClosedIdle(n))
               && StaticsAlive(t2) && !StaticsAlive(IdleClose(t2, n))
  {
    var st := re.(name := n, regexp := None);
    var old_ := map[re.name := re];
    var new_ := map[re.name := re, n := st];
    InitialKeepsInv(env, old_);
    assert Initial(old_).paths == map[];
    ConfLessStrict(re, re, re);
    assert Resolves(env, old_, n, Some(re));
    ResolutionsAgree(env, old_, n, Some(re), Resolve(env, old_, n));
    var t1 := Request(env, Initial(old_), n);
    assert t1.paths[n] == NewPath(re);
    DoKeepsInv(env, Initial(old_), Requested(n));
    SurvivalIff(env, t1, new_, n);
    EntryResolvesToItself(env, new_, n);
    assert CanBeUpdated(re, st);
    assert n in Survivors(env, t1, new_);
    assert new_[n].regexp.None?;
  }

  // ----- the manager object

  /** A table of which all but the paths in `todo` have been processed. */
  ghost function Partly(before: map<string, PathRecord>, goal: map<string, PathRecord>, todo: set<string>):
    map<string, PathRecord>
  {
    map n | n in before && (n in todo || n in goal) :: if n in todo then before[n] else goal[n]
  }

  lemma PartlyStep(before: map<string, PathRecord>, goal: map<string, PathRecord>, todo: set<string>, n: string,
                   d: Option<PathRecord>)
    requires n in todo && n in before
    requires d == if n in goal then Some(goal[n]) else None
    ensures Partly(before, goal, todo - {n})
         == if d.Some? then Partly(before, goal, todo)[n := d.value] else Partly(before, goal, todo) - {n}
  {
  }

  /** The static paths of all entries but those in `todo`. */
  ghost function CreatedBut(confs: map<string, Conf>, todo: set<string>): map<string, PathRecord> {
    map k | k in confs && k !in todo && confs[k].regexp.None? :: NewPath(confs[k])
  }

  lemma CreatedEnds(confs: map<string, Conf>, paths: map<string, PathRecord>)
    ensures CreatedBut(confs, confs.Keys) + paths == paths
    ensures CreatedBut(confs, {}) == Created(confs)
  {
  }

  lemma CreatedStep(confs: map<string, Conf>, todo: set<string>, k: string, paths: map<string, PathRecord>)
    requires k in todo && k in confs
    ensures var before, after := CreatedBut(confs, todo) + paths, CreatedBut(confs, todo - {k}) + paths;
            after == if confs[k].regexp.None? && k !in before then before[k := NewPath(confs[k])] else before
  {
  }

  class Manager {
    const env: Env
    var pathConfs: map<string, Conf>
    var paths: map<string, PathRecord>

    ghost function View(): Tables
      reads this
    {
      Tables(pathConfs, paths)
    }

    ghost predicate Valid()
      reads this
    {
      Inv(env, View())
    }

    constructor (env: Env, confs: map<string, Conf>)
      requires Loaded(confs)
      ensures this.env == env && View() == Initial(confs) && Valid()
    {
      this.env, pathConfs, paths := env, confs, map[];
      new;
      CreateStatics();
      assert Created(confs) + map[] == Created(confs);
      InitialKeepsInv(env, confs);
    }

    /** The loop that creates the static paths that are missing. */
    method CreateStatics()
      requires KeyedByName(pathConfs)
      modifies this`paths
      ensures paths == Created(pathConfs) + old(paths)
    {
      hide CreatedBut;
      var todo := pathConfs.Keys;
      CreatedEnds(pathConfs, paths);
      while todo != {}
        invariant todo <= pathConfs.Keys
        invariant paths == CreatedBut(pathConfs, todo) + old(paths)
      {
        var k :| k in todo;
        CreatedStep(pathConfs, todo, k, old(paths));
        if pathConfs[k].regexp.None? && k !in paths {
          paths := paths[k := NewPath(pathConfs[k])];
        }
        todo := todo - {k};
      }
    }

    /** The lookup answers what `Resolve` says, in any loaded configuration. */
    method Find(confs: map<string, Conf>, name: string) returns (r: Option<Conf>)
      requires Loaded(confs)
      ensures r == Resolve(env, confs, name)
    {
      r := FindPathConf(env, confs, name);
      LoadedIsNeverAmbiguous(env, confs, name);
      ResolutionsAgree(env, confs, name, r, Resolve(env, confs, name));
    }

    method DoRequest(name: string) returns (found: bool)
      requires Valid()
      modifies this`paths
      ensures Valid() && View() == Request(env, old(View()), name)
      ensures found <==> Resolve(env, pathConfs, name).Some?
      ensures found ==> name in paths
    {
      DoKeepsInv(env, View(), Requested(name));
      var c := Find(pathConfs, name);
      if c.None? {
        return false;
      }
      if name !in paths {
        paths := paths[name := NewPath(c.value)];
      }
      return true;
    }

    /** The first loop of a reload: which entries changed, and how. */
    method ChangedEntries(new_: map<string, Conf>) returns (recreate: set<string>, reload: set<string>)
      ensures forall n :: n in recreate <==> MustRecreate(pathConfs, new_, n)
      ensures forall n :: n in reload <==> MustReload(pathConfs, new_, n)
    {
      recreate, reload := {}, {};
      var todo := pathConfs.Keys;
      while todo != {}
        invariant todo <= pathConfs.Keys
        invariant forall n :: n in recreate <==> MustRecreate(pathConfs, new_, n) && n !in todo
        invariant forall n :: n in reload <==> MustReload(pathConfs, new_, n) && n !in todo
      {
        var n :| n in todo;
        if n in new_ && new_[n] != pathConfs[n] {
          if CanBeUpdated(pathConfs[n], new_[n]) {
            reload := reload + {n};
          } else {
            recreate := recreate + {n};
          }
        }
        todo := todo - {n};
      }
    }

    /** The body of the second loop: what becomes of one live path. */
    method Decide(new_: map<string, Conf>, recreate: set<string>, reload: set<string>, n: string, p: PathRecord)
      returns (d: Option<PathRecord>)
      requires Loaded(new_) && p.confName in pathConfs
      requires forall k :: k in recreate <==> MustRecreate(pathConfs, new_, k)
      requires forall k :: k in reload <==> MustReload(pathConfs, new_, k)
      ensures d == Decision(pathConfs, new_, Resolve(env, new_, n), p)
    {
      var c := Find(new_, n);
      if c.None? {
        return None;
      }
      if c.value.name != p.confName {
        if CanBeUpdated(pathConfs[p.confName], c.value) {
          return Some(p.(confName := c.value.name, onTheWay := p.onTheWay + [c.value]));
        }
        return None;
      }
      if c.value.name in recreate {
        return None;
      }
      if c.value.name in reload {
        return Some(p.(onTheWay := p.onTheWay + [c.value]));
      }
      return Some(p);
    }

    /** The second loop: close, keep or hot-reload every live path. */
    method ReconcilePaths(new_: map<string, Conf>)
      requires Loaded(new_) && RecordsOk(View())
      modifies this`paths
      ensures paths == Survivors(env, old(View()), new_)
    {
      assert KeyedByName(new_);
      hide Resolve, CanBeUpdated, Decision, MustRecreate, MustReload, Loaded, KeyedByName;
      var recreate, reload := ChangedEntries(new_);
      var todo := paths.Keys;
      ghost var t0 := View();
      ghost var goal := Survivors(env, t0, new_);
      while todo != {}
        invariant todo <= t0.paths.Keys
        invariant paths == Partly(t0.paths, goal, todo)
      {
        var n :| n in todo;
        var d := Decide(new_, recreate, reload, n, paths[n]);
        PartlyStep(t0.paths, goal, todo, n, d);
        todo := todo - {n};
        paths := if d.Some? then paths[n := d.value] else paths - {n};
      }
    }

    method DoReloadConf(new_: map<string, Conf>)
      requires Valid() && Loaded(new_)
      modifies this
      ensures Valid()
      ensures RecordsOk(old(View())) && View() == Reload(env, old(View()), new_)
    {
      InvRecords(env, View());
      ReloadKeepsInv(env, View(), new_);
      ReconcilePaths(new_);
      pathConfs := new_;
      CreateStatics();
    }

    method DoClosePath(name: string)
      requires Valid() && Can(View(), ClosedIdle(name))
      modifies this`paths
      ensures Valid() && View() == IdleClose(old(View()), name)
    {
      DoKeepsInv(env, View(), ClosedIdle(name));
      paths := paths - {name};
    }
  }
}
