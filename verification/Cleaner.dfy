/** The disk-space reclaimer (internal/recordcleaner/cleaner.go): when a filesystem shared by several
    paths runs low, delete the oldest recordings, but never a young one nor the latest of its path.

    The paths of a filesystem are numbered; their segments, as found on disk, are given. What the
    operating system answers for a segment (its size, whether removing it works, the free space if it has
    to be asked again) comes from a `World`. */
module Cleaner {
  import opened Wrappers

  const PROTECTED_AGE: int := 600_000_000_000

  datatype Seg = Seg(path: nat, file: int, start: int)

  datatype Answer = Answer(size: Option<nat>, removed: bool, freeNow: Option<nat>)

  type World = Seg -> Answer

  // ----- which segments may go

  predicate IsLatest(found: seq<Seg>, t: int) {
    && (forall s | s in found :: s.start <= t)
    && (exists s :: s in found && s.start == t)
  }

  function Latest(found: seq<Seg>): int
    requires found != []
  {
    if |found| == 1 then found[0].start
    else
      var t, s := Latest(found[..|found| - 1]), found[|found| - 1];
      if s.start > t then s.start else t
  }

  lemma {:induction false} LatestIsLatest(found: seq<Seg>)
    requires found != []
    ensures IsLatest(found, Latest(found))
  {
    var p, s := found[..|found| - 1], found[|found| - 1];
    assert found == p + [s];
    if p == [] {
      assert s in found;
    } else {
      LatestIsLatest(p);
      assert s in found;
      var m :| m in p && m.start == Latest(p);
      assert m in found;
    }
  }

  predicate Eligible(s: Seg, found: seq<Seg>, now: int)
    requires found != []
  {
    s.start < now - PROTECTED_AGE && s.start < Latest(found)
  }

  /** The eligible ones among `some` of the segments found. */
  function EligibleOf(some: seq<Seg>, found: seq<Seg>, now: int): seq<Seg>
    requires found != []
  {
    if some == [] then []
    else
      EligibleOf(some[..|some| - 1], found, now)
      + if Eligible(some[|some| - 1], found, now) then [some[|some| - 1]] else []
  }

  function Candidates(all: seq<seq<Seg>>, now: int): seq<Seg> {
    if all == [] then []
    else
      var found := all[|all| - 1];
      Candidates(all[..|all| - 1], now) + if found == [] then [] else EligibleOf(found, found, now)
  }

  lemma {:induction false} EligibleIff(some: seq<Seg>, found: seq<Seg>, now: int, s: Seg)
    requires found != []
    ensures s in EligibleOf(some, found, now) <==> s in some && Eligible(s, found, now)
  {
    hide Eligible;
    if some != [] {
      EligibleIff(some[..|some| - 1], found, now, s);
      assert some == some[..|some| - 1] + [some[|some| - 1]];
    }
  }

  /** A newer segment is among those found. */
  ghost predicate IsOutlived(s: Seg, found: seq<Seg>) {
    exists n :: n in found && n.start > s.start
  }

  lemma EligibleMeans(s: Seg, found: seq<Seg>, now: int)
    requires found != []
    ensures Eligible(s, found, now) <==> now - s.start > PROTECTED_AGE && IsOutlived(s, found)
  {
    LatestIsLatest(found);
  }

  /** Older than the protected age, and there is a newer one of its path. */
  ghost predicate MayGoFrom(s: Seg, found: seq<Seg>, now: int) {
    s in found && now - s.start > PROTECTED_AGE && IsOutlived(s, found)
  }

  ghost predicate MayGo(all: seq<seq<Seg>>, now: int, s: Seg) {
    exists p: nat :: p < |all| && MayGoFrom(s, all[p], now)
  }

  lemma MayGoNext(all: seq<seq<Seg>>, now: int, s: Seg)
    requires all != []
    ensures var n := |all| - 1;
            MayGo(all, now, s) <==> MayGo(all[..n], now, s) || MayGoFrom(s, all[n], now)
  {
    hide MayGoFrom;
    var n := |all| - 1;
    if MayGo(all[..n], now, s) {
      var p: nat :| p < n && MayGoFrom(s, all[..n][p], now);
      assert MayGoFrom(s, all[p], now);
    }
    if MayGo(all, now, s) {
      var p: nat :| p < |all| && MayGoFrom(s, all[p], now);
      if p < n {
        assert MayGoFrom(s, all[..n][p], now);
      }
    }
  }

  /** The candidates are exactly the segments past the protected age of whose path there is a newer one. */
  lemma {:induction false} CandidatesIff(all: seq<seq<Seg>>, now: int, s: Seg)
    ensures s in Candidates(all, now) <==> MayGo(all, now, s)
  {
    hide Eligible, EligibleOf, IsOutlived;
    if all != [] {
      var n := |all| - 1;
      CandidatesIff(all[..n], now, s);
      MayGoNext(all, now, s);
      if all[n] != [] {
        EligibleIff(all[n], all[n], now, s);
        EligibleMeans(s, all[n], now);
      }
    }
  }

  // ----- oldest first

  predicate IsSorted(s: seq<Seg>) {
    forall i, j | 0 <= i < j < |s| :: s[i].start <= s[j].start
  }

  /** `sort.Slice` promises this much. */
  ghost predicate IsOrderOf(order: seq<Seg>, segs: seq<Seg>) {
    IsSorted(order) && multiset(order) == multiset(segs)
  }

  function Insert(x: Seg, s: seq<Seg>): seq<Seg> {
    if s == [] || s[|s| - 1].start <= x.start then s + [x] else Insert(x, s[..|s| - 1]) + [s[|s| - 1]]
  }

  lemma {:induction false} InsertMembers(x: Seg, s: seq<Seg>)
    ensures multiset(Insert(x, s)) == multiset(s) + multiset{x}
  {
    if s != [] && s[|s| - 1].start > x.start {
      InsertMembers(x, s[..|s| - 1]);
      assert s == s[..|s| - 1] + [s[|s| - 1]];
    }
  }

  lemma {:induction false} InsertKeepsOrder(x: Seg, s: seq<Seg>, bound: int)
    requires IsSorted(s) && x.start <= bound && forall k | 0 <= k < |s| :: s[k].start <= bound
    ensures IsSorted(Insert(x, s)) && forall k | 0 <= k < |Insert(x, s)| :: Insert(x, s)[k].start <= bound
  {
    if s != [] && s[|s| - 1].start > x.start {
      InsertKeepsOrder(x, s[..|s| - 1], s[|s| - 1].start);
    }
  }

  function Bound(s: seq<Seg>, x: Seg): (b: int)
    ensures x.start <= b && forall k | 0 <= k < |s| :: s[k].start <= b
  {
    if s == [] then x.start
    else
      var b, t := Bound(s[..|s| - 1], x), s[|s| - 1].start;
      if t > b then t else b
  }

  method SortByStart(segs: seq<Seg>) returns (order: seq<Seg>)
    ensures IsOrderOf(order, segs)
  {
    order := [];
    for k := 0 to |segs|
      invariant IsOrderOf(order, segs[..k])
    {
      assert segs[..k + 1] == segs[..k] + [segs[k]];
      InsertMembers(segs[k], order);
      InsertKeepsOrder(segs[k], order, Bound(order, segs[k]));
      order := Insert(segs[k], order);
    }
    assert segs[..|segs|] == segs;
  }

  // ----- deleting

  /** The free space as the reclaimer knows it after dealing with one segment. */
  function FreeNext(free: nat, a: Answer): nat {
    if !a.removed then free
    else if a.size.Some? then free + a.size.value
    else if a.freeNow.Some? then a.freeNow.value
    else free
  }

  function FreeAfter(order: seq<Seg>, k: nat, free: nat, w: World): nat
    requires k <= |order|
  {
    if k == 0 then free else FreeNext(FreeAfter(order, k - 1, free, w), w(order[k - 1]))
  }

  /** Where the loop stops, from `k` on. */
  function StopFrom(order: seq<Seg>, k: nat, free: nat, floor: nat, w: World): (n: nat)
    requires k <= |order|
    ensures k <= n <= |order|
    ensures forall j: nat | k <= j < n :: FreeAfter(order, j, free, w) < floor
    ensures n < |order| ==> FreeAfter(order, n, free, w) >= floor
    decreases |order| - k
  {
    if k == |order| || FreeAfter(order, k, free, w) >= floor then k else StopFrom(order, k + 1, free, floor, w)
  }

  function RemovedOf(segs: seq<Seg>, w: World): seq<Seg> {
    if segs == [] then []
    else RemovedOf(segs[..|segs| - 1], w) + if w(segs[|segs| - 1]).removed then [segs[|segs| - 1]] else []
  }

  datatype Outcome = Outcome(removed: seq<Seg>, free: nat)

  ghost predicate IsOutcome(o: Outcome, order: seq<Seg>, free: nat, floor: nat, w: World) {
    var n := StopFrom(order, 0, free, floor, w);
    o == Outcome(RemovedOf(order[..n], w), FreeAfter(order, n, free, w))
  }

  method DeleteOldest(order: seq<Seg>, free0: nat, floor: nat, w: World) returns (o: Outcome)
    ensures IsOutcome(o, order, free0, floor, w)
  {
    var removed, free, k := [], free0, 0;
    while k < |order|
      invariant 0 <= k <= |order| && free == FreeAfter(order, k, free0, w) && removed == RemovedOf(order[..k], w)
      invariant StopFrom(order, k, free0, floor, w) == StopFrom(order, 0, free0, floor, w)
      decreases |order| - k
    {
      if free >= floor {
        break;
      }
      var a := w(order[k]);
      assert order[..k + 1][..k] == order[..k];
      k := k + 1;
      if !a.removed {
        continue;
      }
      removed := removed + [order[k - 1]];
      if a.size.Some? {
        free := free + a.size.value;
      } else if a.freeNow.Some? {
        free := a.freeNow.value;
      }
    }
    o := Outcome(removed, free);
  }

  // ----- the floor

  /** The strictest requirement among the paths whose configuration still resolves. */
  method MinFreeSpaceForRoot(floors: seq<Option<nat>>) returns (floor: nat)
    ensures IsFloor(floor, floors)
  {
    floor := 0;
    for p := 0 to |floors|
      invariant forall q | 0 <= q < p && floors[q].Some? :: floors[q].value <= floor
      invariant floor == 0 || Some(floor) in floors
    {
      if floors[p].None? {
        continue;
      }
      if floors[p].value > floor {
        floor := floors[p].value;
        assert floors[p] == Some(floor);
      }
    }
  }

  ghost predicate IsFloor(floor: nat, floors: seq<Option<nat>>) {
    && (forall p | 0 <= p < |floors| && floors[p].Some? :: floors[p].value <= floor)
    && (floor == 0 || Some(floor) in floors)
  }

  /** Nothing happens without a floor, without knowing the free space, or with enough of it. */
  ghost predicate EnforcedWith(o: Outcome, floor: nat, free: Option<nat>, order: seq<Seg>, w: World) {
    if floor == 0 || free.None? then o.removed == [] else IsOutcome(o, order, free.value, floor, w)
  }

  ghost predicate Enforced(o: Outcome, now: int, floors: seq<Option<nat>>, free: Option<nat>, all: seq<seq<Seg>>,
                           w: World)
  {
    exists floor: nat, order: seq<Seg> ::
      IsFloor(floor, floors) && IsOrderOf(order, Candidates(all, now)) && EnforcedWith(o, floor, free, order, w)
  }

  /** `enforceMinFreeSpaceOnRoot`. */
  method EnforceOnRoot(now: int, floors: seq<Option<nat>>, free: Option<nat>, all: seq<seq<Seg>>, w: World)
    returns (o: Outcome)
    ensures Enforced(o, now, floors, free, all, w)
  {
    var floor := MinFreeSpaceForRoot(floors);
    var segments := CollectCandidates(now, all);
    var order := SortByStart(segments);
    if floor == 0 || free.None? {
      o := Outcome([], 0);
    } else if free.value >= floor {
      o := Outcome([], free.value);
    } else {
      o := DeleteOldest(order, free.value, floor, w);
    }
    assert EnforcedWith(o, floor, free, order, w);
  }

  method CollectCandidates(now: int, all: seq<seq<Seg>>) returns (segments: seq<Seg>)
    ensures segments == Candidates(all, now)
  {
    segments := [];
    for p := 0 to |all|
      invariant segments == Candidates(all[..p], now)
    {
      assert all[..p + 1][..p] == all[..p];
      var found := all[p];
      if |found| == 0 {
        continue;
      }
      var latest := LatestStart(found);
      ghost var before := segments;
      for k := 0 to |found|
        invariant segments == before + EligibleOf(found[..k], found, now)
      {
        assert found[..k + 1][..k] == found[..k];
        if !(found[k].start < now - PROTECTED_AGE) || !(found[k].start < latest) {
          continue;
        }
        segments := segments + [found[k]];
      }
      assert found[..|found|] == found;
    }
    assert all[..|all|] == all;
  }

  method LatestStart(found: seq<Seg>) returns (latest: int)
    requires found != []
    ensures latest == Latest(found)
  {
    latest := found[0].start;
    for k := 1 to |found|
      invariant latest == Latest(found[..k])
    {
      assert found[..k + 1][..k] == found[..k];
      if found[k].start > latest {
        latest := found[k].start;
      }
    }
    assert found[..|found|] == found;
  }

  // ----- what this guarantees

  lemma {:induction false} RemovedWasThere(segs: seq<Seg>, w: World, s: Seg)
    ensures s in RemovedOf(segs, w) <==> s in segs && w(s).removed
  {
    if segs != [] {
      RemovedWasThere(segs[..|segs| - 1], w, s);
      assert segs == segs[..|segs| - 1] + [segs[|segs| - 1]];
    }
  }

  /** Segments belong to the path under which they were found. */
  predicate PathsOk(all: seq<seq<Seg>>) {
    forall p: nat, k: nat | p < |all| && k < |all[p]| :: all[p][k].path == p
  }

  /** Only segments past the protected age go, and the latest of a path never does. */
  lemma YoungAndLatestSurvive(o: Outcome, now: int, floors: seq<Option<nat>>, free: Option<nat>, all: seq<seq<Seg>>,
                              w: World, s: Seg)
    requires Enforced(o, now, floors, free, all, w) && PathsOk(all) && s in o.removed
    ensures s.start < now - PROTECTED_AGE
    ensures s.path < |all| && s in all[s.path]
    ensures exists newer :: newer in all[s.path] && newer.start > s.start && newer !in o.removed
  {
    hide IsOutcome, StopFrom;
    var floor: nat, order :|
      IsFloor(floor, floors) && IsOrderOf(order, Candidates(all, now)) && EnforcedWith(o, floor, free, order, w);
    RemovedWereOptions(o, order, free.value, floor, w);
    assert s in multiset(order);
    CandidatesIff(all, now, s);
    var p: nat :| p < |all| && MayGoFrom(s, all[p], now);
    LatestIsLatest(all[p]);
    var newer :| newer in all[p] && newer.start == Latest(all[p]);
    LatestIsNoCandidate(all, now, p, newer);
    assert newer !in multiset(order);
    hide Enforced, EnforcedWith, Candidates;
    FoundUnder(all, p, s);
  }

  lemma FoundUnder(all: seq<seq<Seg>>, p: nat, s: Seg)
    requires PathsOk(all) && p < |all| && s in all[p]
    ensures s.path == p
  {
  }

  lemma LatestIsNoCandidate(all: seq<seq<Seg>>, now: int, p: nat, s: Seg)
    requires PathsOk(all) && p < |all| && s in all[p] && s.start == Latest(all[p])
    ensures s !in Candidates(all, now)
  {
    CandidatesIff(all, now, s);
    LatestIsLatest(all[p]);
    forall q: nat | q < |all| ensures !MayGoFrom(s, all[q], now) {
      if s in all[q] {
        FoundUnder(all, q, s);
        FoundUnder(all, p, s);
      }
    }
  }

  lemma RemovedWereOptions(o: Outcome, order: seq<Seg>, free: nat, floor: nat, w: World)
    requires IsOutcome(o, order, free, floor, w)
    ensures forall s | s in o.removed :: s in order
  {
    forall s | s in o.removed ensures s in order {
      RemovedWasAnOption(o, order, free, floor, w, s);
    }
  }

  lemma RemovedWasAnOption(o: Outcome, order: seq<Seg>, free: nat, floor: nat, w: World, s: Seg)
    requires IsOutcome(o, order, free, floor, w) && s in o.removed
    ensures s in order
  {
    var n := StopFrom(order, 0, free, floor, w);
    RemovedWasThere(order[..n], w, s);
  }

  /** Anything removed is at least as old as every candidate the loop did not come to. */
  lemma OldestGoFirst(o: Outcome, order: seq<Seg>, free: nat, floor: nat, w: World, s: Seg, j: nat)
    requires IsOutcome(o, order, free, floor, w) && IsSorted(order) && s in o.removed
    requires StopFrom(order, 0, free, floor, w) <= j < |order|
    ensures s.start <= order[j].start
  {
    var n := StopFrom(order, 0, free, floor, w);
    RemovedWasThere(order[..n], w, s);
  }

  predicate SizesKnown(segs: seq<Seg>, w: World) {
    forall k | 0 <= k < |segs| :: w(segs[k]).size.Some?
  }

  function SizeOf(segs: seq<Seg>, w: World): nat {
    if segs == [] then 0
    else SizeOf(segs[..|segs| - 1], w) + if w(segs[|segs| - 1]).size.Some? then w(segs[|segs| - 1]).size.value else 0
  }

  lemma SizeOfNext(segs: seq<Seg>, s: Seg, w: World)
    ensures SizeOf(segs + [s], w) == SizeOf(segs, w) + if w(s).size.Some? then w(s).size.value else 0
  {
    assert (segs + [s])[..|segs|] == segs;
  }

  /** The free space the loop believes in is what there was plus what it removed. */
  lemma {:induction false} FreeIsAccountedFor(order: seq<Seg>, k: nat, free: nat, w: World)
    requires k <= |order| && SizesKnown(order, w)
    ensures FreeAfter(order, k, free, w) == free + SizeOf(RemovedOf(order[..k], w), w)
  {
    if k > 0 {
      FreeIsAccountedFor(order, k - 1, free, w);
      assert order[..k][..k - 1] == order[..k - 1] && order[..k][k - 1] == order[k - 1];
      var before := RemovedOf(order[..k - 1], w);
      assert RemovedOf(order[..k], w) == if w(order[k - 1]).removed then before + [order[k - 1]] else before;
      SizeOfNext(RemovedOf(order[..k - 1], w), order[k - 1], w);
    }
  }

  lemma {:induction false} FreeGrows(order: seq<Seg>, j: nat, k: nat, free: nat, w: World)
    requires j <= k <= |order| && SizesKnown(order, w)
    ensures FreeAfter(order, j, free, w) <= FreeAfter(order, k, free, w)
  {
    if j < k {
      FreeGrows(order, j, k - 1, free, w);
    }
  }

  /** With all sizes known, the floor is reached if and only if removing every removable candidate would
      reach it, and then no shorter oldest-first run of attempts would have. */
  lemma FloorIsReachedIff(o: Outcome, order: seq<Seg>, free: nat, floor: nat, w: World)
    requires IsOutcome(o, order, free, floor, w) && SizesKnown(order, w)
    ensures o.free == free + SizeOf(o.removed, w)
    ensures o.free >= floor <==> free + SizeOf(RemovedOf(order, w), w) >= floor
    ensures forall j: nat | j < StopFrom(order, 0, free, floor, w) ::
              free + SizeOf(RemovedOf(order[..j], w), w) < floor
  {
    var n := StopFrom(order, 0, free, floor, w);
    FreeIsAccountedFor(order, n, free, w);
    FreeIsAccountedFor(order, |order|, free, w);
    assert order[..|order|] == order;
    FreeGrows(order, n, |order|, free, w);
    forall j: nat | j < n ensures free + SizeOf(RemovedOf(order[..j], w), w) < floor {
      FreeIsAccountedFor(order, j, free, w);
    }
  }

  /** Whatever the operating system answers: the loop falls short of the floor, as far as it knows, only after
      it has tried every candidate. */
  lemma FallsShortOnlyExhausted(o: Outcome, order: seq<Seg>, free: nat, floor: nat, w: World)
    requires IsOutcome(o, order, free, floor, w) && o.free < floor
    ensures o.removed == RemovedOf(order, w) && o.free == FreeAfter(order, |order|, free, w)
  {
    assert order[..|order|] == order;
  }

  /** What it knows: the last answer about the free space that it had to ask for, or the first, plus the sizes
      of what it removed since. */
  lemma {:induction false} FreeSinceLastAnswer(order: seq<Seg>, j: nat, k: nat, free: nat, w: World)
    requires j <= k <= |order| && SizesKnown(order[j..k], w)
    ensures FreeAfter(order, k, free, w) == FreeAfter(order, j, free, w) + SizeOf(RemovedOf(order[j..k], w), w)
  {
    if j == k {
      assert order[j..k] == [];
    } else {
      var p := order[j..k - 1];
      assert order[j..k] == p + [order[k - 1]];
      assert forall i | 0 <= i < |p| :: p[i] == order[j..k][i];
      FreeSinceLastAnswer(order, j, k - 1, free, w);
      assert w(order[j..k][k - 1 - j]).size.Some?;
      RemovedNext(p, order[k - 1], w);
      SizeOfNext(RemovedOf(p, w), order[k - 1], w);
    }
  }

  lemma RemovedNext(segs: seq<Seg>, s: Seg, w: World)
    ensures RemovedOf(segs + [s], w) == if w(s).removed then RemovedOf(segs, w) + [s] else RemovedOf(segs, w)
  {
    assert (segs + [s])[..|segs|] == segs;
  }

  // ----- filesystems

  /** The paths recorded under one root, in order. */
  function PathsOn(roots: seq<Option<int>>, root: int): seq<nat> {
    if roots == [] then []
    else
      PathsOn(roots[..|roots| - 1], root) + if roots[|roots| - 1] == Some(root) then [|roots| - 1] else []
  }

  ghost predicate Grouped(groups: map<int, seq<nat>>, roots: seq<Option<int>>) {
    && (forall r :: r in groups <==> Some(r) in roots)
    && (forall r | r in groups :: groups[r] == PathsOn(roots, r))
  }

  /** Paths are grouped by the root of their recordings; one without configuration has none. */
  method GroupByRoot(roots: seq<Option<int>>) returns (groups: map<int, seq<nat>>)
    ensures Grouped(groups, roots)
  {
    groups := map[];
    for p := 0 to |roots|
      invariant Grouped(groups, roots[..p])
    {
      hide Grouped;
      GroupedNext(groups, roots, p);
      if roots[p].None? {
        continue;
      }
      var r := roots[p].value;
      groups := groups[r := (if r in groups then groups[r] else []) + [p]];
    }
    assert roots[..|roots|] == roots;
  }

  lemma GroupedNext(groups: map<int, seq<nat>>, roots: seq<Option<int>>, p: nat)
    requires p < |roots| && Grouped(groups, roots[..p])
    ensures roots[p].None? ==> Grouped(groups, roots[..p + 1])
    ensures roots[p].Some? ==>
              var r := roots[p].value;
              Grouped(groups[r := (if r in groups then groups[r] else []) + [p]], roots[..p + 1])
  {
    hide PathsOn;
    var rs := roots[..p];
    assert roots[..p + 1] == rs + [roots[p]];
    PathsOnNext(roots, p);
    if roots[p].Some? {
      var r := roots[p].value;
      if r !in groups {
        NoPathsOn(rs, r);
      }
    }
  }

  lemma {:induction false} NoPathsOn(roots: seq<Option<int>>, root: int)
    requires Some(root) !in roots
    ensures PathsOn(roots, root) == []
  {
    if roots != [] {
      assert roots[|roots| - 1] in roots;
      NoPathsOn(roots[..|roots| - 1], root);
    }
  }

  lemma PathsOnNext(roots: seq<Option<int>>, p: nat)
    requires p < |roots|
    ensures forall r :: PathsOn(roots[..p + 1], r) == PathsOn(roots[..p], r) + if roots[p] == Some(r) then [p] else []
  {
    assert roots[..p + 1][..p] == roots[..p];
  }

  /** Every path with a root is in exactly one group. */
  lemma {:induction false} GroupsPartition(roots: seq<Option<int>>, root: int, p: nat)
    ensures p in PathsOn(roots, root) <==> p < |roots| && roots[p] == Some(root)
  {
    if roots != [] {
      GroupsPartition(roots[..|roots| - 1], root, p);
    }
  }
}
