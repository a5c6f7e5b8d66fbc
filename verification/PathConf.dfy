/** Path configurations and their resolution: `FindPathConf` of internal/conf/path.go and
    `pathConfCanBeUpdated` of internal/core/path_manager.go.

    A compiled regular expression is a number; what it matches, and which path names are
    valid, come from an `Env` that every operation takes as a parameter. */
module PathConf {
  import opened Wrappers
  import Lex

  datatype Env = Env(matches: (int, string) -> bool, validName: string -> bool)

  datatype SourceKind = FromPublisher | Redirected | FromStaticSource

  datatype Target = Target(url: string, token: string)

  /** The fields that fix what a recorder writes. */
  datatype RecordSettings = RecordSettings(path: string, format: int, partDuration: int, maxPartSize: int,
                                           segmentDuration: int)

  datatype Conf = Conf(
    // hot-reloadable fields
    name: string,
    regexp: Option<int>,
    record: bool,
    recordSettings: RecordSettings,
    recordDeleteAfter: int,
    forwardTencent: bool,
    forwardTencentStreamKey: string,
    forwardMmx: bool,
    forwardMmxURL: string,
    forwardMmxToken: string,
    forwardMmxTargets: seq<Target>,
    cameraControls: seq<int>,
    // fields that need the path to be created again
    source: SourceKind,
    sourceOnDemand: bool,
    sourceRedirect: string,
    fallback: Option<string>,
    alwaysAvailable: bool,
    runOnDemand: string,
    overridePublisher: bool,
    maxReaders: nat,
    others: seq<int>)
  {
    predicate HasStaticSource() { source == FromStaticSource }

    predicate HasOnDemandStaticSource() { HasStaticSource() && sourceOnDemand }

    predicate HasOnDemandPublisher() { runOnDemand != "" }

    function MmxTargets(): seq<Target> {
      (if forwardMmxURL != "" then [Target(forwardMmxURL, forwardMmxToken)] else []) + forwardMmxTargets
    }

    /** What `validate` guarantees of the fields above. */
    predicate Validated() {
      && (alwaysAvailable ==> regexp.None? && !sourceOnDemand && !HasOnDemandPublisher())
      && (sourceOnDemand ==> source != FromPublisher)
      && (regexp.Some? && HasStaticSource() ==> sourceOnDemand)
      && (HasOnDemandPublisher() ==> source == FromPublisher)
    }
  }

  // ----- hot reload

  /** Copies every hot-reloadable field of `new` over `old` and compares. */
  predicate CanBeUpdated(old_: Conf, new_: Conf) {
    var clone := old_.(name := new_.name, regexp := new_.regexp,
                       record := new_.record, recordSettings := new_.recordSettings,
                       recordDeleteAfter := new_.recordDeleteAfter,
                       forwardTencent := new_.forwardTencent,
                       forwardTencentStreamKey := new_.forwardTencentStreamKey,
                       forwardMmx := new_.forwardMmx, forwardMmxURL := new_.forwardMmxURL,
                       forwardMmxToken := new_.forwardMmxToken, forwardMmxTargets := new_.forwardMmxTargets,
                       cameraControls := new_.cameraControls);
    new_ == clone
  }

  /** One entry can be hot-reloaded into another exactly if they agree in every field that is built into a path when
      it is created: nothing else can stop it. */
  lemma CanBeUpdatedIff(a: Conf, b: Conf)
    ensures CanBeUpdated(a, b) <==>
              && a.source == b.source && a.sourceOnDemand == b.sourceOnDemand
              && a.sourceRedirect == b.sourceRedirect && a.fallback == b.fallback
              && a.alwaysAvailable == b.alwaysAvailable && a.runOnDemand == b.runOnDemand
              && a.overridePublisher == b.overridePublisher && a.maxReaders == b.maxReaders
              && a.others == b.others
  {
  }

  /** Being hot-reloadable is an equivalence, so reloads delivered late or out of order still
      only ever meet a path whose fixed fields they share. */
  lemma CanBeUpdatedIsEquivalence(a: Conf, b: Conf, c: Conf)
    ensures CanBeUpdated(a, a)
    ensures CanBeUpdated(a, b) ==> CanBeUpdated(b, a)
    ensures CanBeUpdated(a, b) && CanBeUpdated(b, c) ==> CanBeUpdated(a, c)
  {
  }

  // ----- resolution

  predicate IsCatchAll(c: Conf) {
    c.name == "all" || c.name == "all_others"
  }

  /** The comparison `FindPathConf` sorts by. */
  predicate ConfLess(a: Conf, b: Conf) {
    if IsCatchAll(a) then false
    else if IsCatchAll(b) then true
    else Lex.Less(Lex.Codes(a.name), Lex.Codes(b.name))
  }

  /** Keys are names, as loading a configuration leaves them. */
  ghost predicate KeyedByName(confs: map<string, Conf>) {
    forall k | k in confs :: confs[k].name == k
  }

  /** Loading a configuration rejects a second catch-all. */
  ghost predicate AtMostOneCatchAll(confs: map<string, Conf>) {
    !("all" in confs && "all_others" in confs)
  }

  ghost predicate Loaded(confs: map<string, Conf>) {
    && KeyedByName(confs)
    && AtMostOneCatchAll(confs)
    && forall k | k in confs :: confs[k].Validated()
  }

  predicate Matching(env: Env, c: Conf, name: string) {
    c.regexp.Some? && env.matches(c.regexp.value, name)
  }

  /** What a lookup may answer, said without sorting: the entry of that name; else nothing for an
      invalid name; else the matching regular-expression entry whose name is the least, a catch-all only if
      nothing else matches. */
  ghost predicate Resolves(env: Env, confs: map<string, Conf>, name: string, r: Option<Conf>) {
    if name in confs then r == Some(confs[name])
    else if !env.validName(name) then r == None
    else match r
      case None => forall k | k in confs :: !Matching(env, confs[k], name)
      case Some(c) =>
        && c.name in confs && confs[c.name] == c
        && Matching(env, c, name)
        && forall k | k in confs && Matching(env, confs[k], name) && k != c.name ::
             IsCatchAll(confs[k]) || (!IsCatchAll(c) && Lex.Less(Lex.Codes(c.name), Lex.Codes(k)))
  }

  /** An entry that none precedes in the sorted order has the least name. */
  lemma NotPrecededIff(confs: map<string, Conf>, c: Conf, k: string)
    requires KeyedByName(confs) && k in confs && k != c.name
    ensures !ConfLess(confs[k], c) <==>
              IsCatchAll(confs[k]) || (!IsCatchAll(c) && Lex.Less(Lex.Codes(c.name), Lex.Codes(k)))
  {
    ConfLessTotal(confs[k], c);
    ConfLessStrict(confs[k], c, c);
  }

  lemma FirstIsLeast(env: Env, confs: map<string, Conf>, name: string, c: Conf)
    requires KeyedByName(confs) && name !in confs && env.validName(name)
    requires c.name in confs && confs[c.name] == c && Matching(env, c, name)
    requires forall k | k in confs && Matching(env, confs[k], name) :: !ConfLess(confs[k], c)
    ensures Resolves(env, confs, name, Some(c))
  {
    forall k | k in confs && Matching(env, confs[k], name) && k != c.name
      ensures IsCatchAll(confs[k]) || (!IsCatchAll(c) && Lex.Less(Lex.Codes(c.name), Lex.Codes(k)))
    {
      NotPrecededIff(confs, c, k);
    }
  }

  lemma ConfLessTotal(a: Conf, b: Conf)
    requires a.name != b.name
    ensures ConfLess(a, b) || ConfLess(b, a) || (IsCatchAll(a) && IsCatchAll(b))
  {
    Lex.LessTotal(Lex.Codes(a.name), Lex.Codes(b.name));
    if Lex.Codes(a.name) == Lex.Codes(b.name) {
      Lex.CodesInjective(a.name, b.name);
    }
  }

  lemma ConfLessStrict(a: Conf, b: Conf, c: Conf)
    ensures !ConfLess(a, a)
    ensures ConfLess(a, b) && ConfLess(b, c) ==> ConfLess(a, c)
    ensures ConfLess(a, b) ==> !ConfLess(b, a)
  {
    Lex.LessIrreflexive(Lex.Codes(a.name));
    if ConfLess(a, b) && ConfLess(b, c) && !IsCatchAll(c) {
      Lex.LessTransitive(Lex.Codes(a.name), Lex.Codes(b.name), Lex.Codes(c.name));
    }
    if ConfLess(a, b) && ConfLess(b, a) {
      Lex.LessTransitive(Lex.Codes(a.name), Lex.Codes(b.name), Lex.Codes(a.name));
    }
  }

  /** The only situation in which map iteration order could show through. */
  ghost predicate Ambiguous(env: Env, confs: map<string, Conf>, name: string) {
    && name !in confs && env.validName(name)
    && "all" in confs && "all_others" in confs
    && Matching(env, confs["all"], name) && Matching(env, confs["all_others"], name)
    && forall k | k in confs && Matching(env, confs[k], name) :: IsCatchAll(confs[k])
  }

  /** A lookup has exactly one possible answer if and only if it is not ambiguous. */
  lemma ResolutionIsUniqueIff(env: Env, confs: map<string, Conf>, name: string)
    requires KeyedByName(confs)
    ensures (forall r, r' | Resolves(env, confs, name, r) && Resolves(env, confs, name, r') :: r == r')
            <==> !Ambiguous(env, confs, name)
  {
    if Ambiguous(env, confs, name) {
      var r, r' := Some(confs["all"]), Some(confs["all_others"]);
      assert Resolves(env, confs, name, r) && Resolves(env, confs, name, r');
      assert r.value.name != r'.value.name;
    } else {
      forall r, r' | Resolves(env, confs, name, r) && Resolves(env, confs, name, r') ensures r == r' {
        ResolutionsAgree(env, confs, name, r, r');
      }
    }
  }

  lemma ResolutionsAgree(env: Env, confs: map<string, Conf>, name: string, r: Option<Conf>, r': Option<Conf>)
    requires KeyedByName(confs) && !Ambiguous(env, confs, name)
    requires Resolves(env, confs, name, r) && Resolves(env, confs, name, r')
    ensures r == r'
  {
    if name !in confs && r.Some? && r'.Some? && r.value.name != r'.value.name {
      var c, c' := r.value, r'.value;
      NotPrecededIff(confs, c, c'.name);
      NotPrecededIff(confs, c', c.name);
      ConfLessTotal(c, c');
    }
  }

  /** Configurations that load have no ambiguous name. */
  lemma LoadedIsNeverAmbiguous(env: Env, confs: map<string, Conf>, name: string)
    requires AtMostOneCatchAll(confs)
    ensures !Ambiguous(env, confs, name)
  {
  }

  // ----- the lookup itself

  ghost predicate SortedConfs(s: seq<Conf>) {
    forall i, j | 0 <= i < j < |s| :: !ConfLess(s[j], s[i])
  }

  lemma InsertedIsSorted(s: seq<Conf>, c: Conf, i: nat)
    requires SortedConfs(s) && i <= |s|
    requires forall j | 0 <= j < i :: !ConfLess(c, s[j])
    requires i < |s| ==> ConfLess(c, s[i])
    ensures SortedConfs(s[..i] + [c] + s[i..])
  {
    forall j | i <= j < |s| ensures !ConfLess(s[j], c) {
      ConfLessStrict(c, s[i], s[j]);
      ConfLessStrict(s[j], c, s[i]);
    }
    var r := s[..i] + [c] + s[i..];
    forall a, b | 0 <= a < b < |r| ensures !ConfLess(r[b], r[a]) {
      assert r[a] == if a < i then s[a] else if a == i then c else s[a - 1];
      assert r[b] == if b < i then s[b] else if b == i then c else s[b - 1];
    }
  }

  /** Places `c` before the first entry it precedes. */
  method InsertSorted(s: seq<Conf>, c: Conf) returns (r: seq<Conf>)
    requires SortedConfs(s)
    ensures SortedConfs(r)
    ensures multiset(r) == multiset(s) + multiset{c}
  {
    var i := 0;
    while i < |s| && !ConfLess(c, s[i])
      invariant 0 <= i <= |s|
      invariant forall j | 0 <= j < i :: !ConfLess(c, s[j])
    {
      i := i + 1;
    }
    r := s[..i] + [c] + s[i..];
    assert s == s[..i] + s[i..];
    InsertedIsSorted(s, c, i);
  }

  /** `s` lists the regular-expression entries among `keys`, each once. */
  ghost predicate Gathered(confs: map<string, Conf>, keys: set<string>, s: seq<Conf>) {
    && (forall k | k in keys && k in confs && confs[k].regexp.Some? :: confs[k] in s)
    && (forall c | c in s :: c.name in keys && c.name in confs && confs[c.name] == c)
    && (forall c :: multiset(s)[c] <= 1)
  }

  method GatherSorted(confs: map<string, Conf>) returns (sorted: seq<Conf>)
    requires KeyedByName(confs)
    ensures SortedConfs(sorted) && Gathered(confs, confs.Keys, sorted)
  {
    var keys := confs.Keys;
    sorted := [];
    while keys != {}
      invariant keys <= confs.Keys
      invariant SortedConfs(sorted) && Gathered(confs, confs.Keys - keys, sorted)
    {
      var k :| k in keys;
      if confs[k].regexp.Some? {
        var next := InsertSorted(sorted, confs[k]);
        assert forall c :: c in next <==> c in multiset(next);
        assert forall c :: c in sorted <==> c in multiset(sorted);
        sorted := next;
      }
      keys := keys - {k};
    }
    assert confs.Keys - keys == confs.Keys;
  }

  method FirstMatch(env: Env, s: seq<Conf>, name: string) returns (r: Option<Conf>)
    requires SortedConfs(s)
    ensures r.None? ==> forall c | c in s :: !Matching(env, c, name)
    ensures r.Some? ==> r.value in s && Matching(env, r.value, name)
                        && forall c | c in s && Matching(env, c, name) :: !ConfLess(c, r.value)
  {
    var i := 0;
    while i < |s|
      invariant 0 <= i <= |s|
      invariant forall j | 0 <= j < i :: !Matching(env, s[j], name)
    {
      if Matching(env, s[i], name) {
        ConfLessStrict(s[i], s[i], s[i]);
        return Some(s[i]);
      }
      i := i + 1;
    }
    return None;
  }

  /** `FindPathConf`: the entry of that name, else the first match among the regular-expression
      entries gathered in any order and sorted. Whatever the order, the answer is a resolution. */
  method FindPathConf(env: Env, confs: map<string, Conf>, name: string) returns (r: Option<Conf>)
    requires KeyedByName(confs)
    ensures Resolves(env, confs, name, r)
  {
    if name in confs {
      return Some(confs[name]);
    }
    if !env.validName(name) {
      return None;
    }
    var sorted := GatherSorted(confs);
    r := FirstMatch(env, sorted, name);
    if r.Some? {
      FirstIsLeast(env, confs, name, r.value);
    }
  }

  // ----- resolution as a function

  lemma ResolutionExists(env: Env, confs: map<string, Conf>, name: string)
    requires KeyedByName(confs)
    ensures exists r :: Resolves(env, confs, name, r)
  {
    if name in confs {
      assert Resolves(env, confs, name, Some(confs[name]));
    } else if !env.validName(name) || forall k | k in confs :: !Matching(env, confs[k], name) {
      assert Resolves(env, confs, name, None);
    } else {
      var ms := set k | k in confs && Matching(env, confs[k], name);
      var m :| m in confs && Matching(env, confs[m], name);
      assert m in ms;
      var k := LeastMatch(env, confs, name, ms);
      assert forall k' | k' in confs && Matching(env, confs[k'], name) :: k' in ms;
      FirstIsLeast(env, confs, name, confs[k]);
    }
  }

  lemma LeastMatch(env: Env, confs: map<string, Conf>, name: string, ms: set<string>) returns (k: string)
    requires KeyedByName(confs)
    requires ms != {} && ms <= confs.Keys
    ensures k in ms && forall k' | k' in ms :: !ConfLess(confs[k'], confs[k])
    decreases ms
  {
    k :| k in ms;
    ConfLessStrict(confs[k], confs[k], confs[k]);
    if ms != {k} {
      assert ms == (ms - {k}) + {k};
      assert ms - {k} != {};
      var l := LeastMatch(env, confs, name, ms - {k});
      forall k' | k' in ms ensures !ConfLess(confs[k'], confs[if ConfLess(confs[k], confs[l]) then k else l]) {
        ConfLessStrict(confs[k'], confs[k], confs[l]);
        ConfLessStrict(confs[k], confs[k'], confs[l]);
      }
      k := if ConfLess(confs[k], confs[l]) then k else l;
    }
  }

  /** The answer every lookup gives in a loaded configuration. */
  ghost function Resolve(env: Env, confs: map<string, Conf>, name: string): (r: Option<Conf>)
    requires KeyedByName(confs)
    ensures Resolves(env, confs, name, r)
    ensures r.Some? ==> r.value.name in confs && confs[r.value.name] == r.value
  {
    ResolutionExists(env, confs, name);
    var r :| Resolves(env, confs, name, r);
    r
  }

  /** With two catch-alls both orders are sorted and they answer differently. */
  lemma TwoCatchAllsAreAmbiguous(env: Env, a: Conf, b: Conf, name: string)
    requires a.name == "all" && b.name == "all_others"
    requires Matching(env, a, name) && Matching(env, b, name)
    requires name != "all" && name != "all_others" && env.validName(name)
    ensures SortedConfs([a, b]) && SortedConfs([b, a])
    ensures Ambiguous(env, map["all" := a, "all_others" := b], name)
    ensures Resolves(env, map["all" := a, "all_others" := b], name, Some(a))
    ensures Resolves(env, map["all" := a, "all_others" := b], name, Some(b))
  {
  }
}
