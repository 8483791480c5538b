/** Traffic-light offset coordination: the greedy pass that groups pairs of consecutive
    lights into coordinated sets, and the pass that reads one offset per light. */
module TlsCoordinator {

  type Light = nat

  /** A pair of consecutive lights on some route, `otl` before `tl`. */
  datatype Pair = Pair(
    otl: Light, tl: Light, between: real, start: real, travelTime: real,
    prio: int, numVehicles: nat, ogreen: real, green: real)

  /** What was done with a pair; the number is the end (0 or 1) at which the light was located. */
  datatype Operation =
    | NewSet
    | AddAfterSet(end: nat)
    | AddBeforeSet(end: nat)
    | AddHalfCoordinated(end: nat)
    | MergeSets(end: nat)
  {
    /** Does the pair's own `start` give the offset of `otl`? */
    predicate FixesOtl() { NewSet? || AddBeforeSet? }

    /** Does the pair's own `start + between` give the offset of `tl`? */
    predicate FixesTl() { NewSet? || AddAfterSet? || MergeSets? }

    /** Was the pair placed behind a light that had been located at end 0? */
    predicate BehindFirstEnd() { (AddAfterSet? || MergeSets?) && end == 0 }
  }

  function Lights(list: seq<Pair>): set<Light> {
    (set p | p in list :: p.otl) + (set p | p in list :: p.tl)
  }

  predicate Names(p: Pair, x: Light) { p.otl == x || p.tl == x }

  /** Equal in everything the coordinator never changes. */
  predicate SamePair(p: Pair, q: Pair) { p == q.(start := p.start, between := p.between) }

  // ---------------------------------------------------------------- sort key

  function Rate(p: Pair): real
    requires p.travelTime > 0.0
  {
    p.numVehicles as real / p.travelTime
  }

  predicate KeyAtLeast(p: Pair, q: Pair)
    requires p.travelTime > 0.0 && q.travelTime > 0.0
  {
    p.prio > q.prio || (p.prio == q.prio && Rate(p) >= Rate(q))
  }

  /** By priority, then by vehicles per travel time. */
  lemma KeyExactly(p: Pair, q: Pair)
    requires p.travelTime > 0.0 && q.travelTime > 0.0
    ensures KeyAtLeast(p, q) <==>
      || p.prio > q.prio
      || (p.prio == q.prio && p.numVehicles as real * q.travelTime >= q.numVehicles as real * p.travelTime)
  {
    var a, b := Rate(p), Rate(q);
    assert a * p.travelTime == p.numVehicles as real && b * q.travelTime == q.numVehicles as real;
    CrossMultiply(a, b, p.travelTime, q.travelTime);
  }

  lemma CrossMultiply(a: real, b: real, s: real, t: real)
    requires s > 0.0 && t > 0.0
    ensures a >= b <==> a * s * t >= b * t * s
  {
    assert s * t > 0.0 && a * s * t == a * (s * t) && b * t * s == b * (s * t);
    if a > b { assert (a - b) * (s * t) > 0.0; }
    if a < b { assert (b - a) * (s * t) > 0.0; }
  }

  predicate Positive(list: seq<Pair>) { forall p :: p in list ==> p.travelTime > 0.0 }

  predicate Descending(pairs: seq<Pair>)
    requires Positive(pairs)
  {
    forall i, j :: 0 <= i < j < |pairs| ==> KeyAtLeast(pairs[i], pairs[j])
  }

  // ---------------------------------------------------------------- the graph of pairs

  ghost predicate Linked(pairs: seq<Pair>, a: Light, b: Light) {
    exists p :: p in pairs && Names(p, a) && Names(p, b)
  }

  ghost predicate IsPath(pairs: seq<Pair>, path: seq<Light>) {
    |path| > 0 && forall i :: 0 <= i < |path| - 1 ==> Linked(pairs, path[i], path[i + 1])
  }

  ghost predicate PathBetween(pairs: seq<Pair>, path: seq<Light>, a: Light, b: Light) {
    IsPath(pairs, path) && path[0] == a && path[|path| - 1] == b
  }

  /** `a` and `b` lie in one connected component. */
  ghost predicate Connected(pairs: seq<Pair>, a: Light, b: Light) {
    exists path :: PathBetween(pairs, path, a, b)
  }

  lemma ConnectedPair(pairs: seq<Pair>, p: Pair, a: Light, b: Light)
    requires p in pairs && Names(p, a) && Names(p, b)
    ensures Connected(pairs, a, b)
  {
    assert PathBetween(pairs, [a, b], a, b);
  }

  lemma ConnectedTrans(pairs: seq<Pair>, a: Light, b: Light, c: Light)
    requires Connected(pairs, a, b) && Connected(pairs, b, c)
    ensures Connected(pairs, a, c)
  {
    var u :| PathBetween(pairs, u, a, b);
    var v :| PathBetween(pairs, v, b, c);
    var w := u + v[1..];
    forall i | 0 <= i < |w| - 1 ensures Linked(pairs, w[i], w[i + 1]) {
      if i < |u| - 1 {
        assert w[i] == u[i] && w[i + 1] == u[i + 1];
      } else {
        assert w[i] == v[i - |u| + 1] && w[i + 1] == v[i - |u| + 2];
      }
    }
    assert PathBetween(pairs, w, a, c);
  }

  lemma ConnectedMono(pairs: seq<Pair>, more: seq<Pair>, a: Light, b: Light)
    requires Connected(pairs, a, b)
    requires forall p :: p in pairs ==> p in more
    ensures Connected(more, a, b)
  {
    var u :| PathBetween(pairs, u, a, b);
    forall i | 0 <= i < |u| - 1 ensures Linked(more, u[i], u[i + 1]) {
      assert Linked(pairs, u[i], u[i + 1]);
    }
    assert PathBetween(more, u, a, b);
  }

  // ---------------------------------------------------------------- structure of the sets

  /** `tags[j]` is the input position of the pair that became `list[j]`. */
  ghost predicate GoodList(done: seq<Pair>, list: seq<Pair>, tags: seq<nat>) {
    && |list| == |tags| > 0
    && (forall j :: 0 <= j < |tags| ==> tags[j] < |done| && SamePair(list[j], done[tags[j]]))
    && (forall j, k :: 0 <= j < k < |tags| ==> tags[j] != tags[k])
    && (forall a, b :: a in Lights(list) && b in Lights(list) ==> Connected(done, a, b))
  }

  ghost predicate InSomeSet(tags: seq<seq<nat>>, k: nat) {
    exists i :: 0 <= i < |tags| && k in tags[i]
  }

  /** The structure of the list of sets once the pairs `done` have been processed. */
  ghost predicate Structure(done: seq<Pair>, sets: seq<seq<Pair>>, tags: seq<seq<nat>>) {
    && |sets| == |tags|
    && (forall i :: 0 <= i < |sets| ==> GoodList(done, sets[i], tags[i]))
    && (forall i, j :: 0 <= i < j < |sets| ==> Lights(sets[i]) !! Lights(sets[j]))
    && (forall k :: 0 <= k < |done| ==> InSomeSet(tags, k))
  }

  ghost predicate Together(sets: seq<seq<Pair>>, a: Light, b: Light) {
    exists i :: 0 <= i < |sets| && a in Lights(sets[i]) && b in Lights(sets[i])
  }

  lemma LightsOfSame(list: seq<Pair>, tags: seq<nat>, done: seq<Pair>, k: nat)
    requires GoodList(done, list, tags) && k in tags
    ensures k < |done| && done[k].otl in Lights(list) && done[k].tl in Lights(list)
  {
    var j :| 0 <= j < |tags| && tags[j] == k;
    assert list[j] in list && SamePair(list[j], done[k]);
  }

  lemma PathStays(done: seq<Pair>, sets: seq<seq<Pair>>, tags: seq<seq<nat>>, path: seq<Light>, i: nat)
    requires Structure(done, sets, tags) && IsPath(done, path)
    requires i < |sets| && path[0] in Lights(sets[i])
    ensures path[|path| - 1] in Lights(sets[i])
    decreases |path|
  {
    if |path| > 1 {
      assert Linked(done, path[0], path[0 + 1]);
      var p :| p in done && Names(p, path[0]) && Names(p, path[1]);
      var k :| 0 <= k < |done| && done[k] == p;
      assert InSomeSet(tags, k);
      var j :| 0 <= j < |tags| && k in tags[j];
      LightsOfSame(sets[j], tags[j], done, k);
      assert i == j;
      var rest := path[1..];
      forall m | 0 <= m < |rest| - 1 ensures Linked(done, rest[m], rest[m + 1]) {
        assert Linked(done, path[m + 1], path[m + 1 + 1]);
      }
      PathStays(done, sets, tags, rest, i);
    }
  }

  lemma PairNaming(list: seq<Pair>, x: Light) returns (k: nat)
    requires x in Lights(list)
    ensures k < |list| && Names(list[k], x)
  {
    var p :| p in list && Names(p, x);
    k :| k < |list| && list[k] == p;
  }

  /** The light sets are exactly the connected components of the graph of processed pairs. */
  lemma SetsAreComponents(done: seq<Pair>, sets: seq<seq<Pair>>, tags: seq<seq<nat>>, a: Light, b: Light)
    requires Structure(done, sets, tags)
    requires a in Lights(done) && b in Lights(done)
    ensures Together(sets, a, b) <==> Connected(done, a, b)
  {
    if Connected(done, a, b) {
      var path :| PathBetween(done, path, a, b);
      var k := PairNaming(done, a);
      assert InSomeSet(tags, k);
      var i :| 0 <= i < |tags| && k in tags[i];
      LightsOfSame(sets[i], tags[i], done, k);
      PathStays(done, sets, tags, path, i);
      assert b in Lights(sets[i]);
    }
  }

  /** Comparing two sets by value, as the program does, tells whether they are the same set. */
  lemma ValueIsIdentity(done: seq<Pair>, sets: seq<seq<Pair>>, tags: seq<seq<nat>>, i: nat, j: nat)
    requires Structure(done, sets, tags) && i < |sets| && j < |sets|
    ensures sets[i] == sets[j] <==> i == j
  {
    assert GoodList(done, sets[i], tags[i]) && GoodList(done, sets[j], tags[j]);
    assert sets[i][0] in sets[i] && sets[i][0].otl in Lights(sets[i]);
  }

  lemma LightsAppend(s: seq<Pair>, t: seq<Pair>)
    ensures Lights(s + t) == Lights(s) + Lights(t)
  {
    assert forall p :: p in s + t <==> p in s || p in t;
  }

  lemma LightsSingle(p: Pair)
    ensures Lights([p]) == {p.otl, p.tl}
  {
    assert forall q :: q in [p] <==> q == p;
  }

  /** Processing one more pair leaves the untouched lists good. */
  lemma GoodListMono(done: seq<Pair>, p: Pair, list: seq<Pair>, tags: seq<nat>)
    requires GoodList(done, list, tags)
    ensures GoodList(done + [p], list, tags)
  {
    forall a, b | a in Lights(list) && b in Lights(list) ensures Connected(done + [p], a, b) {
      ConnectedMono(done, done + [p], a, b);
    }
  }

  /** Appending the next pair to a list that shares a light with it. */
  lemma GoodListExtend(done: seq<Pair>, p: Pair, list: seq<Pair>, tags: seq<nat>, placed: Pair)
    requires GoodList(done, list, tags) && SamePair(placed, p)
    requires p.otl in Lights(list) || p.tl in Lights(list)
    ensures GoodList(done + [p], list + [placed], tags + [|done|])
  {
    GoodListMono(done, p, list, tags);
    LightsAppend(list, [placed]);
    LightsSingle(placed);
    var all := done + [p];
    var hub := if p.otl in Lights(list) then p.otl else p.tl;
    forall a | a in Lights(list + [placed]) ensures Connected(all, hub, a) && Connected(all, a, hub) {
      if a !in Lights(list) {
        ConnectedPair(all, p, hub, a);
        ConnectedPair(all, p, a, hub);
      }
    }
    forall a, b | a in Lights(list + [placed]) && b in Lights(list + [placed]) ensures Connected(all, a, b) {
      ConnectedTrans(all, a, hub, b);
    }
  }

  lemma GoodListSingle(done: seq<Pair>, p: Pair)
    ensures GoodList(done + [p], [p], [|done|])
  {
    LightsSingle(p);
    forall a, b | a in Lights([p]) && b in Lights([p]) ensures Connected(done + [p], a, b) {
      ConnectedPair(done + [p], p, a, b);
    }
  }

  function Shift(list: seq<Pair>, dt: real): (r: seq<Pair>)
    ensures |r| == |list|
    ensures forall j :: 0 <= j < |r| ==> r[j] == list[j].(start := list[j].start + dt)
  {
    if list == [] then [] else Shift(list[..|list| - 1], dt) + [list[|list| - 1].(start := list[|list| - 1].start + dt)]
  }

  lemma LightsOfShift(list: seq<Pair>, dt: real)
    ensures Lights(Shift(list, dt)) == Lights(list)
  {
    var r := Shift(list, dt);
    forall p | p in list ensures p.otl in Lights(r) && p.tl in Lights(r) {
      var j :| 0 <= j < |list| && list[j] == p;
      assert r[j] in r;
    }
    forall q | q in r ensures q.otl in Lights(list) && q.tl in Lights(list) {
      var j :| 0 <= j < |r| && r[j] == q;
      assert list[j] in list;
    }
  }

  lemma TagsApart(done: seq<Pair>, l1: seq<Pair>, t1: seq<nat>, l2: seq<Pair>, t2: seq<nat>, k: nat)
    requires GoodList(done, l1, t1) && GoodList(done, l2, t2) && Lights(l1) !! Lights(l2)
    ensures !(k in t1 && k in t2)
  {
    if k in t1 && k in t2 {
      LightsOfSame(l1, t1, done, k);
      LightsOfSame(l2, t2, done, k);
      assert false;
    }
  }

  lemma LightsMerged(l1: seq<Pair>, l2: seq<Pair>, placed: Pair, dt: real)
    requires placed.otl in Lights(l1) && placed.tl in Lights(l2)
    ensures Lights(l1 + [placed] + Shift(l2, dt)) == Lights(l1) + Lights(l2)
  {
    LightsOfShift(l2, dt);
    LightsAppend(l1, [placed]);
    LightsSingle(placed);
    LightsAppend(l1 + [placed], Shift(l2, dt));
  }

  lemma MergedConnected(done: seq<Pair>, p: Pair, l1: seq<Pair>, t1: seq<nat>, l2: seq<Pair>, t2: seq<nat>, a: Light,
                        b: Light)
    requires GoodList(done, l1, t1) && GoodList(done, l2, t2)
    requires p.otl in Lights(l1) && p.tl in Lights(l2)
    requires a in Lights(l1) + Lights(l2) && b in Lights(l1) + Lights(l2)
    ensures Connected(done + [p], a, b)
  {
    var all := done + [p];
    GoodListMono(done, p, l1, t1);
    GoodListMono(done, p, l2, t2);
    ConnectedPair(all, p, p.otl, p.tl);
    ConnectedPair(all, p, p.tl, p.otl);
    if a in Lights(l1) {
      ConnectedTrans(all, a, p.otl, p.tl);
    }
    if b in Lights(l1) {
      ConnectedTrans(all, p.tl, p.otl, b);
    }
    ConnectedTrans(all, a, p.tl, b);
  }

  lemma MergedTagsDiffer(done: seq<Pair>, l1: seq<Pair>, t1: seq<nat>, l2: seq<Pair>, t2: seq<nat>, j: nat, k: nat)
    requires GoodList(done, l1, t1) && GoodList(done, l2, t2) && Lights(l1) !! Lights(l2)
    requires j < k < |t1| + 1 + |t2|
    ensures (t1 + [|done|] + t2)[j] != (t1 + [|done|] + t2)[k]
  {
    TagsApart(done, l1, t1, l2, t2, (t1 + [|done|] + t2)[j]);
    hide Lights, Connected;
    if j > |t1| {
      assert t2[j - |t1| - 1] != t2[k - |t1| - 1];
    }
  }

  lemma MergedItems(done: seq<Pair>, p: Pair, l1: seq<Pair>, t1: seq<nat>, l2: seq<Pair>, t2: seq<nat>, placed: Pair,
                    dt: real)
    requires GoodList(done, l1, t1) && GoodList(done, l2, t2) && SamePair(placed, p)
    ensures var list, tags := l1 + [placed] + Shift(l2, dt), t1 + [|done|] + t2;
            forall j :: 0 <= j < |tags| ==> tags[j] < |done + [p]| && SamePair(list[j], (done + [p])[tags[j]])
  {
    hide Lights, Connected;
    var list, tags := l1 + [placed] + Shift(l2, dt), t1 + [|done|] + t2;
    forall j | 0 <= j < |tags| ensures tags[j] < |done + [p]| && SamePair(list[j], (done + [p])[tags[j]]) {
      if j < |l1| {
        assert SamePair(l1[j], done[t1[j]]);
      } else if j > |l1| {
        assert SamePair(l2[j - |l1| - 1], done[t2[j - |l1| - 1]]);
      }
    }
  }

  lemma GoodListMerge(done: seq<Pair>, p: Pair, l1: seq<Pair>, t1: seq<nat>, l2: seq<Pair>, t2: seq<nat>,
                      placed: Pair, dt: real)
    requires GoodList(done, l1, t1) && GoodList(done, l2, t2) && SamePair(placed, p)
    requires p.otl in Lights(l1) && p.tl in Lights(l2) && Lights(l1) !! Lights(l2)
    ensures GoodList(done + [p], l1 + [placed] + Shift(l2, dt), t1 + [|done|] + t2)
  {
    var list, tags := l1 + [placed] + Shift(l2, dt), t1 + [|done|] + t2;
    MergedItems(done, p, l1, t1, l2, t2, placed, dt);
    forall j, k | 0 <= j < k < |tags| ensures tags[j] != tags[k] {
      MergedTagsDiffer(done, l1, t1, l2, t2, j, k);
    }
    forall a, b | a in Lights(list) && b in Lights(list) ensures Connected(done + [p], a, b) {
      LightsMerged(l1, l2, placed, dt);
      MergedConnected(done, p, l1, t1, l2, t2, a, b);
    }
    hide Connected, Lights, SamePair;
  }

  // ---------------------------------------------------------------- the three ways the list of sets changes

  function Without<T>(s: seq<T>, j: nat): seq<T>
    requires j < |s|
  {
    s[..j] + s[j + 1..]
  }

  /** List `i` extended by `more`. */
  function Extended<T>(s: seq<seq<T>>, i: nat, more: seq<T>): seq<seq<T>>
    requires i < |s|
  {
    s[i := s[i] + more]
  }

  /** The sets after set `j`, shifted by `dt`, has been moved behind `placed` at the end of set `i`. */
  function MergedSets(sets: seq<seq<Pair>>, i: nat, j: nat, placed: Pair, dt: real): seq<seq<Pair>>
    requires i < |sets| && j < |sets|
  {
    Without(Extended(sets, i, [placed] + Shift(sets[j], dt)), j)
  }

  ghost function MergedTags(tags: seq<seq<nat>>, i: nat, j: nat, n: nat): seq<seq<nat>>
    requires i < |tags| && j < |tags|
  {
    Without(Extended(tags, i, [n] + tags[j]), j)
  }

  lemma StructureNew(done: seq<Pair>, sets: seq<seq<Pair>>, tags: seq<seq<nat>>, p: Pair)
    requires Structure(done, sets, tags)
    requires forall i :: 0 <= i < |sets| ==> p.otl !in Lights(sets[i]) && p.tl !in Lights(sets[i])
    ensures Structure(done + [p], sets + [[p]], tags + [[|done|]])
  {
    GoodListSingle(done, p);
    LightsSingle(p);
    forall i | 0 <= i < |sets| ensures GoodList(done + [p], sets[i], tags[i]) {
      GoodListMono(done, p, sets[i], tags[i]);
    }
    var tags' := tags + [[|done|]];
    forall k | 0 <= k < |done + [p]| ensures InSomeSet(tags', k) {
      if k < |done| {
        assert InSomeSet(tags, k);
        var i :| 0 <= i < |tags| && k in tags[i];
        assert k in tags'[i];
      } else {
        assert k in tags'[|tags|];
      }
    }
  }

  lemma SamePairLights(p: Pair, q: Pair)
    requires SamePair(p, q)
    ensures p.otl == q.otl && p.tl == q.tl
  {
  }

  lemma StructureExtend(done: seq<Pair>, sets: seq<seq<Pair>>, tags: seq<seq<nat>>, p: Pair, i: nat, placed: Pair)
    requires Structure(done, sets, tags) && i < |sets| && SamePair(placed, p)
    requires p.otl in Lights(sets[i]) || p.tl in Lights(sets[i])
    requires forall j :: 0 <= j < |sets| && j != i ==> p.otl !in Lights(sets[j]) && p.tl !in Lights(sets[j])
    ensures Structure(done + [p], Extended(sets, i, [placed]), Extended(tags, i, [|done|]))
  {
    hide GoodList, SamePair;
    SamePairLights(placed, p);
    GoodListExtend(done, p, sets[i], tags[i], placed);
    LightsAppend(sets[i], [placed]);
    LightsSingle(placed);
    hide Lights;
    forall j | 0 <= j < |sets| ensures GoodList(done + [p], sets[j], tags[j]) {
      GoodListMono(done, p, sets[j], tags[j]);
    }
    var tags' := tags[i := tags[i] + [|done|]];
    forall k | 0 <= k < |done + [p]| ensures InSomeSet(tags', k) {
      if k < |done| {
        assert InSomeSet(tags, k);
        var j :| 0 <= j < |tags| && k in tags[j];
        assert k in tags'[j];
      } else {
        assert k in tags'[i];
      }
    }
  }

  lemma WithoutAt<T>(s: seq<T>, j: nat, k: nat)
    requires j < |s| && k < |s| - 1
    ensures Without(s, j)[k] == s[if k < j then k else k + 1]
  {
  }

  lemma MergeCovers(tags: seq<seq<nat>>, n: nat, i: nat, j: nat, tags2: seq<seq<nat>>)
    requires i < |tags| && j < |tags| && i != j
    requires forall k :: 0 <= k < n ==> InSomeSet(tags, k)
    requires tags2 == MergedTags(tags, i, j, n)
    ensures forall k :: 0 <= k < n + 1 ==> InSomeSet(tags2, k)
  {
    var tags1 := Extended(tags, i, [n] + tags[j]);
    forall k | 0 <= k < n + 1 ensures InSomeSet(tags2, k) {
      var m := i;
      if k < n {
        assert InSomeSet(tags, k);
        m :| 0 <= m < |tags| && k in tags[m];
      }
      var m' := if m == j then i else m;
      assert k in tags1[m'];
      assert tags2[if m' < j then m' else m' - 1] == tags1[m'];
    }
  }

  lemma StructureMerge(done: seq<Pair>, sets: seq<seq<Pair>>, tags: seq<seq<nat>>, p: Pair,
                       i: nat, j: nat, placed: Pair, dt: real)
    requires Structure(done, sets, tags) && i < |sets| && j < |sets| && i != j && SamePair(placed, p)
    requires p.otl in Lights(sets[i]) && p.tl in Lights(sets[j])
    ensures Structure(done + [p], MergedSets(sets, i, j, placed, dt), MergedTags(tags, i, j, |done|))
  {
    hide GoodList, Lights, SamePair;
    var sets1, tags1 := Extended(sets, i, [placed] + Shift(sets[j], dt)), Extended(tags, i, [|done|] + tags[j]);
    var sets2, tags2 := Without(sets1, j), Without(tags1, j);
    SamePairLights(placed, p);
    assert sets1[i] == sets[i] + [placed] + Shift(sets[j], dt) && tags1[i] == tags[i] + [|done|] + tags[j];
    assert Lights(sets[i]) !! Lights(sets[j]);
    GoodListMerge(done, p, sets[i], tags[i], sets[j], tags[j], placed, dt);
    LightsMerged(sets[i], sets[j], placed, dt);
    forall k | 0 <= k < |sets2| ensures GoodList(done + [p], sets2[k], tags2[k]) {
      WithoutAt(sets1, j, k);
      WithoutAt(tags1, j, k);
      var k' := if k < j then k else k + 1;
      if k' != i {
        GoodListMono(done, p, sets[k'], tags[k']);
      }
    }
    forall k, m | 0 <= k < m < |sets2| ensures Lights(sets2[k]) !! Lights(sets2[m]) {
      WithoutAt(sets1, j, k);
      WithoutAt(sets1, j, m);
    }
    MergeCovers(tags, |done|, i, j, tags2);
  }

  // ---------------------------------------------------------------- which pair is the first of its set to name a light

  /** A pair that merges two sets: both lights are known, in different components. */
  ghost predicate Merges(done: seq<Pair>, p: Pair) {
    p.otl in Lights(done) && p.tl in Lights(done) && !Connected(done, p.otl, p.tl)
  }

  /** Position of the pair that stands first among those naming `x` in its set: the last one that merged a set holding
      `x` as its `tl`, because that set was moved behind it; if there is none, the first pair that names `x`. */
  ghost function Placer(done: seq<Pair>, x: Light): nat {
    if done == [] then 0
    else
      var n := |done| - 1;
      if x !in Lights(done[..n]) || (done[n].tl == x && Merges(done[..n], done[n])) then n else Placer(done[..n], x)
  }

  /** Is `x` located at end 0? The first pair that names it does so as its `otl`, and no pair with `tl` `x` merged two
      sets. */
  ghost predicate AtFirstEnd(done: seq<Pair>, x: Light) {
    && (exists k :: FirstNames(done, x, k) && done[k].otl == x)
    && (forall k :: 0 <= k < |done| && done[k].tl == x ==> !Merges(done[..k], done[k]))
  }

  ghost predicate FirstNames(done: seq<Pair>, x: Light, k: int) {
    0 <= k < |done| && Names(done[k], x) && x !in Lights(done[..k])
  }

  ghost predicate FirstInList(done: seq<Pair>, tags: seq<nat>, x: Light, j: nat)
    requires j < |tags| && forall k :: 0 <= k < |tags| ==> tags[k] < |done|
  {
    Names(done[tags[j]], x) && forall k :: 0 <= k < j ==> !Names(done[tags[k]], x)
  }

  /** In every set the first pair that names a light is the light's placer. */
  ghost predicate PlacersFirst(done: seq<Pair>, tags: seq<seq<nat>>) {
    forall i :: 0 <= i < |tags| ==> ListPlacers(done, tags[i])
  }

  ghost predicate ListPlacers(done: seq<Pair>, tags: seq<nat>) {
    && (forall k :: 0 <= k < |tags| ==> tags[k] < |done|)
    && (forall x, j :: 0 <= j < |tags| && FirstInList(done, tags, x, j) ==> tags[j] == Placer(done, x))
  }

  lemma LightsAppendPair(done: seq<Pair>, p: Pair)
    ensures Lights(done + [p]) == Lights(done) + {p.otl, p.tl}
  {
    LightsAppend(done, [p]);
    LightsSingle(p);
  }

  lemma PlacerAppend(done: seq<Pair>, p: Pair, x: Light)
    ensures Placer(done + [p], x) ==
      if x !in Lights(done) || (p.tl == x && Merges(done, p)) then |done| else Placer(done, x)
  {
    assert (done + [p])[..|done|] == done;
  }

  lemma AtFirstEndNew(done: seq<Pair>, p: Pair, x: Light)
    requires x !in Lights(done) && Names(p, x)
    ensures AtFirstEnd(done + [p], x) <==> p.otl == x
  {
    var all, n := done + [p], |done|;
    assert all[..n] == done;
    assert FirstNames(all, x, n);
    forall k | 0 <= k < n ensures all[k].tl != x && all[k].otl != x {
      NamesIsLight(done, k, x);
    }
    hide Connected;
    assert p.tl == x ==> !Merges(done, p);
    assert forall k :: FirstNames(all, x, k) ==> k == n;
  }

  lemma AtFirstEndKept(done: seq<Pair>, p: Pair, x: Light)
    requires x in Lights(done)
    ensures AtFirstEnd(done + [p], x) <==> AtFirstEnd(done, x) && !(p.tl == x && Merges(done, p))
  {
    var all, n := done + [p], |done|;
    assert all[..n] == done && all[n] == p;
    forall k | 0 <= k < n ensures all[..k] == done[..k] && all[k] == done[k] {}
    hide Lights, Merges;
    assert forall k :: FirstNames(done, x, k) <==> FirstNames(all, x, k);
  }

  /** The end at which the placer names a light, in terms of the pairs alone. */
  lemma {:induction false} PlacerEnd(done: seq<Pair>, x: Light)
    requires x in Lights(done)
    ensures Placer(done, x) < |done| && Names(done[Placer(done, x)], x)
    ensures done[Placer(done, x)].otl == x <==> AtFirstEnd(done, x)
  {
    hide AtFirstEnd, Placer, Lights, Connected;
    var n := |done| - 1;
    LightsNotEmpty(done, x);
    var front, p := done[..n], done[n];
    assert done == front + [p];
    LightsAppendPair(front, p);
    PlacerAppend(front, p, x);
    if x !in Lights(front) {
      AtFirstEndNew(front, p, x);
    } else {
      AtFirstEndKept(front, p, x);
      PlacerEnd(front, x);
      SelfConnected(front, x);
    }
  }

  lemma LightsNotEmpty(list: seq<Pair>, x: Light)
    requires x in Lights(list)
    ensures list != []
  {
  }

  lemma SelfConnected(pairs: seq<Pair>, x: Light)
    ensures Connected(pairs, x, x)
  {
    assert PathBetween(pairs, [x], x, x);
  }

  lemma NamesIsLight(list: seq<Pair>, k: nat, x: Light)
    requires k < |list| && x !in Lights(list)
    ensures list[k].tl != x && list[k].otl != x
  {
    assert list[k] in list;
  }

  /** Which lights a set names, seen through its tags. */
  lemma NamedByTags(done: seq<Pair>, list: seq<Pair>, tags: seq<nat>, x: Light)
    requires GoodList(done, list, tags)
    ensures x in Lights(list) <==> exists j :: 0 <= j < |tags| && Names(done[tags[j]], x)
    ensures x in Lights(list) ==> x in Lights(done)
  {
    if x in Lights(list) {
      var j := PairNaming(list, x);
      assert Names(done[tags[j]], x) && done[tags[j]] in done;
    }
    if j :| 0 <= j < |tags| && Names(done[tags[j]], x) {
      assert list[j] in list && SamePair(list[j], done[tags[j]]);
    }
  }

  /** A set keeps its placers when the next pair names none of its lights, or names one without merging behind it. */
  lemma ListPlacersMono(done: seq<Pair>, list: seq<Pair>, tags: seq<nat>, p: Pair)
    requires GoodList(done, list, tags) && ListPlacers(done, tags)
    requires p.tl in Lights(list) ==> !Merges(done, p)
    ensures ListPlacers(done + [p], tags)
  {
    forall x, j | 0 <= j < |tags| && FirstInList(done + [p], tags, x, j) ensures tags[j] == Placer(done + [p], x) {
      assert FirstInList(done, tags, x, j);
      NamedByTags(done, list, tags, x);
      PlacerAppend(done, p, x);
    }
  }

  /** Appending the tag of the next pair, whose lights are known only from this set. */
  lemma ListPlacersExtend(done: seq<Pair>, list: seq<Pair>, tags: seq<nat>, p: Pair)
    requires GoodList(done, list, tags) && ListPlacers(done, tags)
    requires p.tl in Lights(list) ==> !Merges(done, p)
    requires forall x :: Names(p, x) && x !in Lights(list) ==> x !in Lights(done) || (p.tl == x && Merges(done, p))
    ensures ListPlacers(done + [p], tags + [|done|])
  {
    ListPlacersMono(done, list, tags, p);
    var done', tags' := done + [p], tags + [|done|];
    forall x, j | 0 <= j < |tags'| && FirstInList(done', tags', x, j) ensures tags'[j] == Placer(done', x) {
      if j < |tags| {
        forall k | 0 <= k < j ensures !Names(done'[tags[k]], x) { assert tags'[k] == tags[k]; }
        assert FirstInList(done', tags, x, j);
      } else {
        NotNamedEarlier(done, tags, p, x);
        NamedByTags(done, list, tags, x);
        PlacerAppend(done, p, x);
      }
    }
  }

  lemma NotNamedEarlier(done: seq<Pair>, tags: seq<nat>, p: Pair, x: Light)
    requires (forall k :: 0 <= k < |tags| ==> tags[k] < |done|) && FirstInList(done + [p], tags + [|done|], x, |tags|)
    ensures Names(p, x) && forall k :: 0 <= k < |tags| ==> !Names(done[tags[k]], x)
  {
    assert (tags + [|done|])[|tags|] == |done|;
    forall k | 0 <= k < |tags| ensures !Names(done[tags[k]], x) {
      assert (tags + [|done|])[k] == tags[k] && (done + [p])[tags[k]] == done[tags[k]];
    }
  }

  ghost predicate NoneNames(done: seq<Pair>, tags: seq<nat>, x: Light)
    requires forall k :: 0 <= k < |tags| ==> tags[k] < |done|
  {
    forall k :: 0 <= k < |tags| ==> !Names(done[tags[k]], x)
  }

  /** Two lists of tags one behind the other, when the second names only lights that the first does not name
      or that keep their first naming pair. */
  lemma ListPlacersConcat(done: seq<Pair>, t1: seq<nat>, t2: seq<nat>)
    requires ListPlacers(done, t1) && (forall k :: 0 <= k < |t2| ==> t2[k] < |done|)
    requires forall x, j :: 0 <= j < |t2| && FirstInList(done, t2, x, j) && NoneNames(done, t1, x) ==>
      t2[j] == Placer(done, x)
    ensures ListPlacers(done, t1 + t2)
  {
    var t := t1 + t2;
    assert forall k :: 0 <= k < |t| ==> t[k] == if k < |t1| then t1[k] else t2[k - |t1|];
    forall x, j | 0 <= j < |t| && FirstInList(done, t, x, j) ensures t[j] == Placer(done, x) {
      if j < |t1| {
        assert FirstInList(done, t1, x, j);
      } else {
        forall k | 0 <= k < |t1| ensures !Names(done[t1[k]], x) { assert t[k] == t1[k]; }
        assert NoneNames(done, t1, x);
        forall k | 0 <= k < j - |t1| ensures !Names(done[t2[k]], x) { assert t[k + |t1|] == t2[k]; }
        assert FirstInList(done, t2, x, j - |t1|);
      }
    }
  }

  lemma PlacersNew(done: seq<Pair>, sets: seq<seq<Pair>>, tags: seq<seq<nat>>, p: Pair)
    requires Structure(done, sets, tags) && PlacersFirst(done, tags) && p.otl !in Lights(done) && p.tl !in Lights(done)
    ensures PlacersFirst(done + [p], tags + [[|done|]])
  {
    forall i | 0 <= i < |tags| ensures ListPlacers(done + [p], tags[i]) {
      ListPlacersMono(done, sets[i], tags[i], p);
    }
    PlacerAppend(done, p, p.otl);
    PlacerAppend(done, p, p.tl);
    hide Placer;
    assert ListPlacers(done + [p], [|done|]);
  }

  lemma PlacersExtend(done: seq<Pair>, sets: seq<seq<Pair>>, tags: seq<seq<nat>>, p: Pair, i: nat)
    requires Structure(done, sets, tags) && PlacersFirst(done, tags) && i < |sets| && !Merges(done, p)
    requires forall x :: Names(p, x) && x !in Lights(sets[i]) ==> x !in Lights(done)
    ensures PlacersFirst(done + [p], Extended(tags, i, [|done|]))
  {
    hide Lights, ListPlacers, GoodList;
    ListPlacersExtend(done, sets[i], tags[i], p);
    forall k | 0 <= k < |tags| && k != i ensures ListPlacers(done + [p], tags[k]) {
      ListPlacersMono(done, sets[k], tags[k], p);
    }
  }

  lemma PlacersMerge(done: seq<Pair>, sets: seq<seq<Pair>>, tags: seq<seq<nat>>, p: Pair, i: nat, j: nat)
    requires Structure(done, sets, tags) && PlacersFirst(done, tags) && i < |sets| && j < |sets| && i != j
    requires Merges(done, p)
    requires p.otl in Lights(sets[i]) && p.tl in Lights(sets[j])
    ensures PlacersFirst(done + [p], MergedTags(tags, i, j, |done|))
  {
    var n := |done|;
    var tags1 := Extended(tags, i, [n] + tags[j]);
    assert tags1[i] == tags[i] + [n] + tags[j];
    hide Lights, ListPlacers, GoodList, Merges, Extended;
    assert Lights(sets[i]) !! Lights(sets[j]);
    ListPlacersExtend(done, sets[i], tags[i], p);
    MergedPlacers(done, sets[i], tags[i], sets[j], tags[j], p);
    forall k | 0 <= k < |tags| && k != j ensures ListPlacers(done + [p], tags1[k]) {
      if k != i {
        assert Lights(sets[k]) !! Lights(sets[j]) && tags1[k] == tags[k];
        ListPlacersMono(done, sets[k], tags[k], p);
      }
    }
    WithoutAll(tags1, j, done + [p]);
  }

  lemma WithoutAll(tags: seq<seq<nat>>, j: nat, done: seq<Pair>)
    requires j < |tags| && forall k :: 0 <= k < |tags| && k != j ==> ListPlacers(done, tags[k])
    ensures PlacersFirst(done, Without(tags, j))
  {
    hide ListPlacers;
    forall k | 0 <= k < |tags| - 1 ensures ListPlacers(done, Without(tags, j)[k]) {
      WithoutAt(tags, j, k);
    }
  }

  lemma MergedPlacers(done: seq<Pair>, l1: seq<Pair>, t1: seq<nat>, l2: seq<Pair>, t2: seq<nat>, p: Pair)
    requires GoodList(done, l1, t1) && GoodList(done, l2, t2) && ListPlacers(done, t2)
    requires ListPlacers(done + [p], t1 + [|done|])
    ensures ListPlacers(done + [p], t1 + [|done|] + t2)
  {
    var done', t := done + [p], t1 + [|done|];
    forall x, j | 0 <= j < |t2| && FirstInList(done', t2, x, j) && NoneNames(done', t, x)
      ensures t2[j] == Placer(done', x)
    {
      assert t[|t1|] == |done| && done'[|done|] == p;
      assert !Names(p, x);
      assert FirstInList(done, t2, x, j);
      NamedByTags(done, l2, t2, x);
      PlacerAppend(done, p, x);
    }
    ListPlacersConcat(done', t, t2);
  }

  // ---------------------------------------------------------------- one potential per set

  /** What the input builder always produces, apart from the absence of self-pairs. */
  ghost predicate WellBuilt(pairs: seq<Pair>) {
    forall p :: p in pairs ==>
      p.otl != p.tl && p.start == 0.0 && p.between == p.travelTime + p.ogreen - p.green
  }

  predicate Fixes(p: Pair, op: Operation, x: Light) {
    (op.FixesOtl() && p.otl == x) || (op.FixesTl() && p.tl == x)
  }

  /** The green offset of `otl` as the operation really uses it: its sign is wrong behind a first end. */
  function UsedOgreen(op: Operation, ogreen: real): real {
    if op.BehindFirstEnd() then -ogreen else ogreen
  }

  ghost predicate FixedBefore(ops: seq<Operation>, list: seq<Pair>, tags: seq<nat>, j: nat, x: Light)
    requires |list| == |tags| && j < |list| && TagsIn(tags, ops)
  {
    exists k :: 0 <= k < j && tags[k] < tags[j] && Fixes(list[k], ops[tags[k]], x)
  }

  ghost predicate FollowsPotential(p: Pair, op: Operation, phi: map<Light, real>) {
    && p.otl in phi && p.tl in phi
    && (op.FixesOtl() ==> p.start == phi[p.otl])
    && (op.FixesTl() ==> p.start + p.between == phi[p.tl])
    && (!op.AddHalfCoordinated? ==>
          phi[p.tl] + p.green == phi[p.otl] + UsedOgreen(op, p.ogreen) + p.travelTime)
  }

  /** The pair at position `j` agrees with the potential `phi`, and an end of it that disagrees
      was fixed by an earlier pair of the list. */
  ghost predicate PotentialAt(ops: seq<Operation>, phi: map<Light, real>, list: seq<Pair>, tags: seq<nat>, j: nat)
    requires |list| == |tags| && j < |list| && TagsIn(tags, ops)
  {
    && FollowsPotential(list[j], ops[tags[j]], phi)
    && (Fixes(list[j], ops[tags[j]], list[j].otl) || FixedBefore(ops, list, tags, j, list[j].otl))
    && (Fixes(list[j], ops[tags[j]], list[j].tl) || FixedBefore(ops, list, tags, j, list[j].tl))
  }

  ghost predicate PotentialList(ops: seq<Operation>, phi: map<Light, real>, list: seq<Pair>, tags: seq<nat>) {
    && |list| == |tags|
    && TagsIn(tags, ops)
    && (forall j :: 0 <= j < |list| ==> PotentialAt(ops, phi, list, tags, j))
  }

  ghost predicate Potential(ops: seq<Operation>, phi: map<Light, real>, sets: seq<seq<Pair>>, tags: seq<seq<nat>>) {
    |sets| == |tags| && forall i :: 0 <= i < |sets| ==> PotentialList(ops, phi, sets[i], tags[i])
  }

  /** The pairs of `list`, up to their offsets, with their tags stand in `list'` from position `at` on. */
  ghost predicate Embedded(list: seq<Pair>, tags: seq<nat>, list': seq<Pair>, tags': seq<nat>, at: nat) {
    && |list| == |tags| && |list'| == |tags'| && at + |list| <= |list'|
    && (forall k :: 0 <= k < |list| ==> EmbeddedAt(list, tags, list', tags', at, k))
  }

  ghost predicate EmbeddedAt(list: seq<Pair>, tags: seq<nat>, list': seq<Pair>, tags': seq<nat>, at: nat, k: nat)
    requires |list| == |tags| && |list'| == |tags'| && k < |list| && at + k < |list'|
  {
    tags'[at + k] == tags[k] && SamePair(list'[at + k], list[k])
  }

  ghost predicate TagsIn(tags: seq<nat>, ops: seq<Operation>) { forall k :: 0 <= k < |tags| ==> tags[k] < |ops| }

  /** Evidence survives when the list is shifted, more operations follow, and pairs are put in front or behind. */
  lemma FixedBeforeFrame(ops: seq<Operation>, list: seq<Pair>, tags: seq<nat>, j: nat, x: Light,
                         ops': seq<Operation>, list': seq<Pair>, tags': seq<nat>, at: nat)
    requires Embedded(list, tags, list', tags', at) && j < |list|
    requires TagsIn(tags, ops) && TagsIn(tags', ops') && ops <= ops'
    requires FixedBefore(ops, list, tags, j, x)
    ensures FixedBefore(ops', list', tags', at + j, x)
  {
    var k :| 0 <= k < j && tags[k] < tags[j] && Fixes(list[k], ops[tags[k]], x);
    assert EmbeddedAt(list, tags, list', tags', at, k) && EmbeddedAt(list, tags, list', tags', at, j);
    assert Fixes(list'[at + k], ops'[tags'[at + k]], x);
  }

  lemma PotentialAtFrame(ops: seq<Operation>, phi: map<Light, real>, list: seq<Pair>, tags: seq<nat>, j: nat,
                         ops': seq<Operation>, phi': map<Light, real>, list': seq<Pair>, tags': seq<nat>, at: nat)
    requires Embedded(list, tags, list', tags', at) && j < |list|
    requires TagsIn(tags, ops) && TagsIn(tags', ops') && ops <= ops'
    requires PotentialAt(ops, phi, list, tags, j) && FollowsPotential(list'[at + j], ops[tags[j]], phi')
    ensures PotentialAt(ops', phi', list', tags', at + j)
  {
    assert EmbeddedAt(list, tags, list', tags', at, j);
    if !Fixes(list[j], ops[tags[j]], list[j].otl) {
      FixedBeforeFrame(ops, list, tags, j, list[j].otl, ops', list', tags', at);
    }
    if !Fixes(list[j], ops[tags[j]], list[j].tl) {
      FixedBeforeFrame(ops, list, tags, j, list[j].tl, ops', list', tags', at);
    }
  }

  lemma PotentialFrame(ops: seq<Operation>, phi: map<Light, real>, list: seq<Pair>, tags: seq<nat>,
                       op: Operation, phi': map<Light, real>)
    requires PotentialList(ops, phi, list, tags)
    requires forall x :: x in Lights(list) && x in phi ==> x in phi' && phi'[x] == phi[x]
    ensures PotentialList(ops + [op], phi', list, tags)
  {
    var ops' := ops + [op];
    assert Embedded(list, tags, list, tags, 0);
    forall j | 0 <= j < |list| ensures PotentialAt(ops', phi', list, tags, j) {
      assert list[j] in list && PotentialAt(ops, phi, list, tags, j);
      hide Embedded;
      PotentialAtFrame(ops, phi, list, tags, j, ops', phi', list, tags, 0);
    }
  }

  /** The first pair of a list that names a light gives its potential. */
  lemma FirstNamingFixes(ops: seq<Operation>, phi: map<Light, real>, list: seq<Pair>, tags: seq<nat>, j: nat, x: Light)
    requires PotentialList(ops, phi, list, tags) && j < |list| && Names(list[j], x)
    requires forall k :: 0 <= k < j ==> !Names(list[k], x)
    ensures Fixes(list[j], ops[tags[j]], x)
  {
    assert PotentialAt(ops, phi, list, tags, j);
  }

  lemma PotentialConcat(ops: seq<Operation>, phi: map<Light, real>, l1: seq<Pair>, t1: seq<nat>, l2: seq<Pair>,
                        t2: seq<nat>)
    requires PotentialList(ops, phi, l1, t1) && PotentialList(ops, phi, l2, t2)
    ensures PotentialList(ops, phi, l1 + l2, t1 + t2)
  {
    var list, tags := l1 + l2, t1 + t2;
    assert Embedded(l1, t1, list, tags, 0) && Embedded(l2, t2, list, tags, |l1|);
    forall j | 0 <= j < |list| ensures PotentialAt(ops, phi, list, tags, j) {
      if j < |l1| {
        assert PotentialAt(ops, phi, l1, t1, j);
        hide Embedded, FollowsPotential, Fixes;
        PotentialAtFrame(ops, phi, l1, t1, j, ops, phi, list, tags, 0);
      } else {
        assert PotentialAt(ops, phi, l2, t2, j - |l1|);
        hide Embedded, FollowsPotential, Fixes;
        PotentialAtFrame(ops, phi, l2, t2, j - |l1|, ops, phi, list, tags, |l1|);
      }
    }
  }

  /** Appending one pair whose ends either give the potential or were fixed by the list. */
  lemma PotentialAppend(ops: seq<Operation>, phi: map<Light, real>, list: seq<Pair>, tags: seq<nat>,
                        op: Operation, placed: Pair, n: nat, o: nat, t: nat)
    requires PotentialList(ops, phi, list, tags) && n < |ops| && ops[n] == op
    requires forall j :: 0 <= j < |tags| ==> tags[j] < n
    requires FollowsPotential(placed, op, phi)
    requires Fixes(placed, op, placed.otl) || (o < |list| && Fixes(list[o], ops[tags[o]], placed.otl))
    requires Fixes(placed, op, placed.tl) || (t < |list| && Fixes(list[t], ops[tags[t]], placed.tl))
    ensures PotentialList(ops, phi, list + [placed], tags + [n])
  {
    var list', tags' := list + [placed], tags + [n];
    assert Embedded(list, tags, list', tags', 0);
    forall j | 0 <= j < |list'| ensures PotentialAt(ops, phi, list', tags', j) {
      hide Fixes, FollowsPotential, Embedded;
      if j < |list| {
        assert PotentialAt(ops, phi, list, tags, j);
        PotentialAtFrame(ops, phi, list, tags, j, ops, phi, list', tags', 0);
      } else {
        assert !Fixes(placed, op, placed.otl) ==> Fixes(list'[o], ops[tags'[o]], placed.otl);
        assert !Fixes(placed, op, placed.tl) ==> Fixes(list'[t], ops[tags'[t]], placed.tl);
      }
    }
  }

  /** Shifting a list shifts its potential. */
  lemma PotentialShift(ops: seq<Operation>, phi: map<Light, real>, list: seq<Pair>, tags: seq<nat>,
                       dt: real, phi': map<Light, real>)
    requires PotentialList(ops, phi, list, tags)
    requires forall x :: x in Lights(list) && x in phi ==> x in phi' && phi'[x] == phi[x] + dt
    ensures PotentialList(ops, phi', Shift(list, dt), tags)
  {
    var list' := Shift(list, dt);
    assert Embedded(list, tags, list', tags, 0);
    forall j | 0 <= j < |list| ensures PotentialAt(ops, phi', list', tags, j) {
      assert list[j] in list && PotentialAt(ops, phi, list, tags, j);
      assert FollowsPotential(list'[j], ops[tags[j]], phi');
      hide Embedded, FollowsPotential, Fixes, Lights;
      PotentialAtFrame(ops, phi, list, tags, j, ops, phi', list', tags, 0);
    }
  }

  lemma PotentialNew(done: seq<Pair>, ops: seq<Operation>, phi: map<Light, real>, sets: seq<seq<Pair>>,
                     tags: seq<seq<nat>>, p: Pair, phi': map<Light, real>)
    requires Structure(done, sets, tags) && Potential(ops, phi, sets, tags) && |ops| == |done|
    requires WellBuilt([p])
    requires forall i :: 0 <= i < |sets| ==> p.otl !in Lights(sets[i]) && p.tl !in Lights(sets[i])
    requires phi' == phi[p.otl := p.start][p.tl := p.start + p.between]
    ensures Potential(ops + [NewSet], phi', sets + [[p]], tags + [[|done|]])
  {
    assert p in [p];
    forall i | 0 <= i < |sets| ensures PotentialList(ops + [NewSet], phi', sets[i], tags[i]) {
      PotentialFrame(ops, phi, sets[i], tags[i], NewSet, phi');
    }
    PotentialAppend(ops + [NewSet], phi', [], [], NewSet, p, |ops|, 0, 0);
    assert [] + [p] == [p] && [] + [|ops|] == [|ops|];
  }

  lemma PotentialExtend(done: seq<Pair>, ops: seq<Operation>, phi: map<Light, real>, sets: seq<seq<Pair>>,
                        tags: seq<seq<nat>>, i: nat, op: Operation, placed: Pair, phi': map<Light, real>,
                        o: nat, t: nat)
    requires Structure(done, sets, tags) && Potential(ops, phi, sets, tags) && |ops| == |done| && i < |sets|
    requires forall j, x :: 0 <= j < |sets| && x in Lights(sets[j]) && x in phi ==> x in phi' && phi'[x] == phi[x]
    requires FollowsPotential(placed, op, phi')
    requires Fixes(placed, op, placed.otl) || (o < |sets[i]| && Fixes(sets[i][o], ops[tags[i][o]], placed.otl))
    requires Fixes(placed, op, placed.tl) || (t < |sets[i]| && Fixes(sets[i][t], ops[tags[i][t]], placed.tl))
    ensures Potential(ops + [op], phi', Extended(sets, i, [placed]), Extended(tags, i, [|done|]))
  {
    forall j | 0 <= j < |sets| ensures PotentialList(ops + [op], phi', sets[j], tags[j]) {
      PotentialFrame(ops, phi, sets[j], tags[j], op, phi');
    }
    assert GoodList(done, sets[i], tags[i]);
    PotentialAppend(ops + [op], phi', sets[i], tags[i], op, placed, |ops|, o, t);
  }

  /** The potential after the second set has been shifted. */
  ghost function ShiftedPhi(phi: map<Light, real>, lights: set<Light>, dt: real): map<Light, real> {
    map x | x in phi :: if x in lights then phi[x] + dt else phi[x]
  }

  /** The list that a merge produces follows the shifted potential. */
  lemma PotentialMergedList(ops: seq<Operation>, phi: map<Light, real>, l1: seq<Pair>, t1: seq<nat>,
                            l2: seq<Pair>, t2: seq<nat>, op: Operation, placed: Pair, dt: real, phi': map<Light, real>,
                            o: nat)
    requires PotentialList(ops, phi, l1, t1) && PotentialList(ops, phi, l2, t2)
    requires Lights(l1) !! Lights(l2) && op.MergeSets?
    requires phi' == ShiftedPhi(phi, Lights(l2), dt)
    requires FollowsPotential(placed, op, phi')
    requires o < |l1| && Fixes(l1[o], ops[t1[o]], placed.otl)
    ensures PotentialList(ops + [op], phi', l1 + [placed] + Shift(l2, dt), t1 + [|ops|] + t2)
  {
    var ops' := ops + [op];
    PotentialFrame(ops, phi, l1, t1, op, phi');
    PotentialAppend(ops', phi', l1, t1, op, placed, |ops|, o, 0);
    PotentialFrame(ops, phi, l2, t2, op, phi);
    PotentialShift(ops', phi, l2, t2, dt, phi');
    PotentialConcat(ops', phi', l1 + [placed], t1 + [|ops|], Shift(l2, dt), t2);
  }

  lemma PotentialMerge(done: seq<Pair>, ops: seq<Operation>, phi: map<Light, real>, sets: seq<seq<Pair>>,
                       tags: seq<seq<nat>>, i: nat, j: nat, op: Operation, placed: Pair, dt: real,
                       phi': map<Light, real>, o: nat)
    requires Structure(done, sets, tags) && Potential(ops, phi, sets, tags) && |ops| == |done|
    requires i < |sets| && j < |sets| && i != j && op.MergeSets?
    requires phi' == ShiftedPhi(phi, Lights(sets[j]), dt)
    requires FollowsPotential(placed, op, phi')
    requires o < |sets[i]| && Fixes(sets[i][o], ops[tags[i][o]], placed.otl)
    ensures Potential(ops + [op], phi', MergedSets(sets, i, j, placed, dt), MergedTags(tags, i, j, |done|))
  {
    hide PotentialList, FollowsPotential, GoodList, Fixes;
    assert forall k :: 0 <= k < |sets| && k != j ==> Lights(sets[k]) !! Lights(sets[j]);
    PotentialMergedList(ops, phi, sets[i], tags[i], sets[j], tags[j], op, placed, dt, phi', o);
    forall k | 0 <= k < |sets| && k != j ensures PotentialList(ops + [op], phi', sets[k], tags[k]) {
      PotentialFrame(ops, phi, sets[k], tags[k], op, phi');
    }
    hide Lights, ShiftedPhi;
    var sets1, tags1 := Extended(sets, i, [placed] + Shift(sets[j], dt)), Extended(tags, i, [|done|] + tags[j]);
    assert sets1[i] == sets[i] + [placed] + Shift(sets[j], dt) && tags1[i] == tags[i] + [|done|] + tags[j];
    var sets2, tags2 := Without(sets1, j), Without(tags1, j);
    forall k | 0 <= k < |sets2| ensures PotentialList(ops + [op], phi', sets2[k], tags2[k]) {
      WithoutAt(sets1, j, k);
      WithoutAt(tags1, j, k);
    }
  }

  // ---------------------------------------------------------------- computePairOffsets

  datatype Located = NotFound | Found(set_: nat, pair: nat, end: nat)

  /** `at` is the first place of the sets, in order, that names light `x`. */
  ghost predicate IsFirstNaming(sets: seq<seq<Pair>>, x: Light, at: Located) {
    match at
    case NotFound => forall i :: 0 <= i < |sets| ==> x !in Lights(sets[i])
    case Found(i, j, end) =>
      && i < |sets| && j < |sets[i]|
      && (forall i' :: 0 <= i' < i ==> x !in Lights(sets[i']))
      && (forall j' :: 0 <= j' < j ==> !Names(sets[i][j'], x))
      && (end == 0 || end == 1)
      && (end == 0 ==> sets[i][j].otl == x)
      && (end == 1 ==> sets[i][j].tl == x && sets[i][j].otl != x)
  }

  method Locate(x: Light, sets: seq<seq<Pair>>) returns (at: Located)
    ensures IsFirstNaming(sets, x, at)
  {
    for i := 0 to |sets|
      invariant forall i' :: 0 <= i' < i ==> x !in Lights(sets[i'])
    {
      for j := 0 to |sets[i]|
        invariant forall j' :: 0 <= j' < j ==> !Names(sets[i][j'], x)
      {
        if x == sets[i][j].otl {
          return Found(i, j, 0);
        } else if x == sets[i][j].tl {
          return Found(i, j, 1);
        }
      }
    }
    return NotFound;
  }

  /** Offset that pair `q` gives to the light at its end 0 or 1. */
  function OffsetAt(q: Pair, end: nat): (offset: real)
    ensures end == 0 ==> offset == q.start
    ensures end == 1 ==> offset == q.start + q.between
  {
    if end == 0 then q.start else q.start + q.between
  }

  /** Places `p` behind the light at end `end` of the already placed pair `q`. */
  function PlaceAfter(p: Pair, q: Pair, end: nat): (r: Pair)
    ensures SamePair(r, p) && r.start == OffsetAt(q, end) + (if end == 0 then 0.0 else p.ogreen)
    ensures OffsetAt(r, 1) == OffsetAt(q, end) + (if end == 0 then -p.ogreen else p.ogreen) + p.travelTime - p.green
  {
    if end == 0 then
      var depart := q.start - p.ogreen;
      var arrival := depart + p.travelTime;
      var startOffset2 := arrival - p.green;
      p.(start := q.start, between := startOffset2 - q.start)
    else
      var depart := q.start + q.between + p.ogreen;
      var arrival := depart + p.travelTime;
      var startOffset := arrival - p.green;
      p.(start := depart, between := startOffset - depart)
  }

  /** Places `p` before the light at end `end` of the already placed pair `q`. */
  function PlaceBefore(p: Pair, q: Pair, end: nat): (r: Pair)
    ensures SamePair(r, p) && r.start + r.between == OffsetAt(q, end) + (if end == 0 then 0.0 else p.green)
    ensures OffsetAt(r, 0) == OffsetAt(q, end) + p.green - p.travelTime - p.ogreen
  {
    if end == 0 then
      var arrival := q.start + p.green;
      var depart := arrival - p.travelTime;
      var startOffset := depart - p.ogreen;
      p.(start := startOffset, between := q.start - startOffset)
    else
      var arrival := q.start + q.between + p.green;
      var depart := arrival - p.travelTime;
      var startOffset := depart - p.ogreen;
      p.(start := startOffset, between := arrival - startOffset)
  }

  /** Moves the shifted pairs of set `j` behind those of set `i`, then removes the first set
      whose value is that of set `j`; `k` is where that set was. */
  method Merge(sets: seq<seq<Pair>>, i: nat, j: nat, dt: real) returns (r: seq<seq<Pair>>, k: nat)
    requires i < |sets| && j < |sets| && i != j
    ensures k <= j
    ensures var sets1 := Extended(sets, i, Shift(sets[j], dt));
            sets1[k] == sets[j] && (forall m :: 0 <= m < k ==> sets1[m] != sets[j]) && r == Without(sets1, k)
  {
    var list2 := sets[j];
    r := sets;
    assert sets[i] + Shift([], dt) == sets[i] && list2[..0] == [];
    for e := 0 to |list2|
      invariant r == sets[i := sets[i] + Shift(list2[..e], dt)]
    {
      assert list2[..e + 1][..e] == list2[..e];
      assert sets[i] + Shift(list2[..e + 1], dt) == r[i] + [list2[e].(start := list2[e].start + dt)];
      r := r[i := r[i] + [list2[e].(start := list2[e].start + dt)]];
    }
    assert list2[..|list2|] == list2;
    k := 0;
    while r[k] != list2
      invariant k <= j
      invariant forall m :: 0 <= m < k ==> r[m] != list2
      decreases j - k
    {
      k := k + 1;
    }
    r := Without(r, k);
  }

  /** The set removed after a merge is the one that was merged away. */
  lemma MergeRemovesIt(done: seq<Pair>, sets: seq<seq<Pair>>, tags: seq<seq<nat>>, i: nat, j: nat, placed: Pair,
                       dt: real)
    requires Structure(done, sets, tags) && i < |sets| && j < |sets| && i != j
    ensures var sets1 := Extended(sets, i, [placed] + Shift(sets[j], dt));
            forall k :: 0 <= k < j ==> sets1[k] != sets[j]
  {
    var sets1 := Extended(sets, i, [placed] + Shift(sets[j], dt));
    forall k | 0 <= k < j ensures sets1[k] != sets[j] {
      if k == i {
        assert |sets1[i]| > |sets[j]|;
      } else {
        ValueIsIdentity(done, sets, tags, k, j);
      }
    }
  }

  /** The whole merge branch: `placed` joins set `i`, then set `j` is moved behind it. */
  method MergeInto(ghost done: seq<Pair>, sets: seq<seq<Pair>>, ghost tags: seq<seq<nat>>, i: nat, j: nat, placed: Pair,
                   dt: real)
    returns (r: seq<seq<Pair>>)
    requires Structure(done, sets, tags) && i < |sets| && j < |sets| && i != j
    ensures r == MergedSets(sets, i, j, placed, dt) && |r| == |sets| - 1
  {
    MergeRemovesIt(done, sets, tags, i, j, placed, dt);
    var k;
    r, k := Merge(Extended(sets, i, [placed]), i, j, dt);
    assert Extended(Extended(sets, i, [placed]), i, Shift(sets[j], dt)) ==
      Extended(sets, i, [placed] + Shift(sets[j], dt)) by {
      assert sets[i] + [placed] + Shift(sets[j], dt) == sets[i] + ([placed] + Shift(sets[j], dt));
    }
  }

  /** The operation chosen for `p`, with its end, as it follows from the earlier pairs alone. */
  ghost predicate Classified(done: seq<Pair>, p: Pair, op: Operation) {
    var o, t := p.otl in Lights(done), p.tl in Lights(done);
    && (op.NewSet? <==> !o && !t)
    && (op.AddAfterSet? <==> o && !t)
    && (op.AddBeforeSet? <==> !o && t)
    && (op.AddHalfCoordinated? <==> o && t && Connected(done, p.otl, p.tl))
    && (op.MergeSets? <==> Merges(done, p))
    && (op.AddAfterSet? || op.AddHalfCoordinated? || op.MergeSets? ==> op.end == LocatedEnd(done, p.otl))
    && (op.AddBeforeSet? ==> op.end == LocatedEnd(done, p.tl))
  }

  ghost function LocatedEnd(done: seq<Pair>, x: Light): nat { if AtFirstEnd(done, x) then 0 else 1 }

  function Kind(op: Operation): nat {
    match op
    case NewSet => 1
    case AddAfterSet(_) => 2
    case AddBeforeSet(_) => 3
    case AddHalfCoordinated(_) => 4
    case MergeSets(_) => 5
  }

  function Tally(ops: seq<Operation>, kind: nat): nat {
    if ops == [] then 0
    else Tally(ops[..|ops| - 1], kind) + (if Kind(ops[|ops| - 1]) == kind then 1 else 0)
  }

  lemma TallyEach(ops: seq<Operation>, op: Operation)
    ensures forall kind {:trigger Tally(ops + [op], kind)} ::
      Tally(ops + [op], kind) == Tally(ops, kind) + (if Kind(op) == kind then 1 else 0)
  {
    forall kind: nat ensures Tally(ops + [op], kind) == Tally(ops, kind) + (if Kind(op) == kind then 1 else 0) {
      TallyAppend(ops, op, kind);
    }
  }

  lemma TallyAppend(ops: seq<Operation>, op: Operation, kind: nat)
    ensures Tally(ops + [op], kind) == Tally(ops, kind) + (if Kind(op) == kind then 1 else 0)
  {
    assert (ops + [op])[..|ops|] == ops;
  }

  ghost function OfKind(ops: seq<Operation>, kind: nat): set<nat> { set k | 0 <= k < |ops| && Kind(ops[k]) == kind }

  lemma {:induction false} TallyCounts(ops: seq<Operation>, kind: nat)
    ensures Tally(ops, kind) == |OfKind(ops, kind)|
  {
    hide Kind;
    if ops == [] {
      assert OfKind(ops, kind) == {};
    } else {
      var n := |ops| - 1;
      TallyCounts(ops[..n], kind);
      assert OfKind(ops, kind) == if Kind(ops[n]) == kind then OfKind(ops[..n], kind) + {n} else OfKind(ops[..n], kind);
    }
  }

  lemma TalliesCount(ops: seq<Operation>)
    ensures Tally(ops, 1) == |set k | 0 <= k < |ops| && ops[k].NewSet?|
    ensures Tally(ops, 2) == |set k | 0 <= k < |ops| && ops[k].AddAfterSet?|
    ensures Tally(ops, 3) == |set k | 0 <= k < |ops| && ops[k].AddBeforeSet?|
    ensures Tally(ops, 4) == |set k | 0 <= k < |ops| && ops[k].AddHalfCoordinated?|
    ensures Tally(ops, 5) == |set k | 0 <= k < |ops| && ops[k].MergeSets?|
  {
    TallyCounts(ops, 1);
    TallyCounts(ops, 2);
    TallyCounts(ops, 3);
    TallyCounts(ops, 4);
    TallyCounts(ops, 5);
    assert OfKind(ops, 1) == set k | 0 <= k < |ops| && ops[k].NewSet?;
    assert OfKind(ops, 2) == set k | 0 <= k < |ops| && ops[k].AddAfterSet?;
    assert OfKind(ops, 3) == set k | 0 <= k < |ops| && ops[k].AddBeforeSet?;
    assert OfKind(ops, 4) == set k | 0 <= k < |ops| && ops[k].AddHalfCoordinated?;
    assert OfKind(ops, 5) == set k | 0 <= k < |ops| && ops[k].MergeSets?;
    hide Tally;
  }

  lemma LightsCovered(done: seq<Pair>, sets: seq<seq<Pair>>, tags: seq<seq<nat>>, x: Light)
    requires Structure(done, sets, tags)
    ensures x in Lights(done) <==> exists i :: 0 <= i < |sets| && x in Lights(sets[i])
  {
    if x in Lights(done) {
      var k := PairNaming(done, x);
      assert InSomeSet(tags, k);
      var i :| 0 <= i < |tags| && k in tags[i];
      LightsOfSame(sets[i], tags[i], done, k);
    }
    if i :| 0 <= i < |sets| && x in Lights(sets[i]) {
      var j := PairNaming(sets[i], x);
      assert GoodList(done, sets[i], tags[i]);
      assert SamePair(sets[i][j], done[tags[i][j]]) && done[tags[i][j]] in done;
    }
  }

  /** A light is located at the end that the earlier pairs determine. */
  lemma LocatedEvidence(done: seq<Pair>, sets: seq<seq<Pair>>, tags: seq<seq<nat>>, x: Light, at: Located)
    requires Structure(done, sets, tags) && PlacersFirst(done, tags) && IsFirstNaming(sets, x, at) && at.Found?
    ensures x in Lights(sets[at.set_]) && x in Lights(done) && at.end == LocatedEnd(done, x)
  {
    var i, j := at.set_, at.pair;
    assert GoodList(done, sets[i], tags[i]) && ListPlacers(done, tags[i]);
    assert sets[i][j] in sets[i] && done[tags[i][j]] in done;
    forall k | 0 <= k <= j ensures Names(done[tags[i][k]], x) <==> Names(sets[i][k], x) {
      assert SamePair(sets[i][k], done[tags[i][k]]);
    }
    hide Lights, Placer, AtFirstEnd;
    assert FirstInList(done, tags[i], x, j);
    assert SamePair(sets[i][j], done[tags[i][j]]);
    PlacerEnd(done, x);
  }

  /** The located pair fixes the located light, so it gives the light's potential. */
  lemma LocatedOffset(done: seq<Pair>, ops: seq<Operation>, phi: map<Light, real>, sets: seq<seq<Pair>>,
                      tags: seq<seq<nat>>, x: Light, at: Located)
    requires Structure(done, sets, tags) && WellBuilt(done)
    requires Potential(ops, phi, sets, tags) && IsFirstNaming(sets, x, at) && at.Found?
    ensures Fixes(sets[at.set_][at.pair], ops[tags[at.set_][at.pair]], x)
    ensures x in phi && OffsetAt(sets[at.set_][at.pair], at.end) == phi[x]
  {
    var q, k := sets[at.set_][at.pair], tags[at.set_][at.pair];
    FirstNamingFixes(ops, phi, sets[at.set_], tags[at.set_], at.pair, x);
    assert PotentialAt(ops, phi, sets[at.set_], tags[at.set_], at.pair);
    assert GoodList(done, sets[at.set_], tags[at.set_]);
    assert SamePair(q, done[k]) && done[k] in done;
  }

  /** All that holds after the pairs `done` have been given the operations `ops`. */
  ghost predicate Coordinated(done: seq<Pair>, sets: seq<seq<Pair>>, tags: seq<seq<nat>>, ops: seq<Operation>,
                              phi: map<Light, real>) {
    && |ops| == |done|
    && Structure(done, sets, tags) && PlacersFirst(done, tags)
    && (forall k :: 0 <= k < |done| ==> Classified(done[..k], done[k], ops[k]))
    && (WellBuilt(done) ==> Potential(ops, phi, sets, tags))
  }

  lemma ClassifiedAppend(done: seq<Pair>, p: Pair, ops: seq<Operation>, op: Operation)
    requires |ops| == |done|
    requires forall k :: 0 <= k < |done| ==> Classified(done[..k], done[k], ops[k])
    requires Classified(done, p, op)
    ensures forall k :: 0 <= k < |done| + 1 ==> Classified((done + [p])[..k], (done + [p])[k], (ops + [op])[k])
  {
    forall k | 0 <= k < |done| + 1 ensures Classified((done + [p])[..k], (done + [p])[k], (ops + [op])[k]) {
      if k < |done| {
        assert (done + [p])[..k] == done[..k];
      } else {
        assert (done + [p])[..k] == done;
      }
    }
  }

  lemma WellBuiltSplit(done: seq<Pair>, p: Pair)
    requires WellBuilt(done + [p])
    ensures WellBuilt(done) && WellBuilt([p])
  {
    assert forall q :: q in done || q == p ==> q in done + [p];
  }

  lemma CoordinatedAppend(done: seq<Pair>, sets: seq<seq<Pair>>, tags: seq<seq<nat>>, ops: seq<Operation>,
                          phi: map<Light, real>, p: Pair, sets': seq<seq<Pair>>, tags': seq<seq<nat>>, op: Operation,
                          phi': map<Light, real>)
    requires Coordinated(done, sets, tags, ops, phi)
    requires Structure(done + [p], sets', tags') && PlacersFirst(done + [p], tags') && Classified(done, p, op)
    requires WellBuilt(done + [p]) ==> Potential(ops + [op], phi', sets', tags')
    ensures Coordinated(done + [p], sets', tags', ops + [op], phi')
  {
    hide Structure, Potential, Classified, WellBuilt, PlacersFirst;
    ClassifiedAppend(done, p, ops, op);
  }

  lemma NewShape(done: seq<Pair>, sets: seq<seq<Pair>>, tags: seq<seq<nat>>, p: Pair)
    requires Structure(done, sets, tags) && PlacersFirst(done, tags)
    requires IsFirstNaming(sets, p.otl, NotFound) && IsFirstNaming(sets, p.tl, NotFound)
    ensures Structure(done + [p], sets + [[p]], tags + [[|done|]]) && PlacersFirst(done + [p], tags + [[|done|]])
    ensures Classified(done, p, NewSet)
  {
    LightsCovered(done, sets, tags, p.otl);
    LightsCovered(done, sets, tags, p.tl);
    PlacersNew(done, sets, tags, p);
    StructureNew(done, sets, tags, p);
  }

  lemma AfterShape(done: seq<Pair>, sets: seq<seq<Pair>>, tags: seq<seq<nat>>, p: Pair, at: Located, placed: Pair)
    requires Structure(done, sets, tags) && PlacersFirst(done, tags) && SamePair(placed, p)
    requires IsFirstNaming(sets, p.otl, at) && at.Found? && IsFirstNaming(sets, p.tl, NotFound)
    ensures Structure(done + [p], Extended(sets, at.set_, [placed]), Extended(tags, at.set_, [|done|]))
    ensures PlacersFirst(done + [p], Extended(tags, at.set_, [|done|]))
    ensures Classified(done, p, AddAfterSet(at.end))
  {
    LightsCovered(done, sets, tags, p.otl);
    LightsCovered(done, sets, tags, p.tl);
    LocatedEvidence(done, sets, tags, p.otl, at);
    PlacersExtend(done, sets, tags, p, at.set_);
    StructureExtend(done, sets, tags, p, at.set_, placed);
  }

  lemma AfterPotential(done: seq<Pair>, sets: seq<seq<Pair>>, tags: seq<seq<nat>>, ops: seq<Operation>,
                       phi: map<Light, real>, p: Pair, at: Located, placed: Pair, phi': map<Light, real>)
    requires Structure(done, sets, tags) && Potential(ops, phi, sets, tags) && |ops| == |done|
    requires WellBuilt(done + [p])
    requires IsFirstNaming(sets, p.otl, at) && at.Found? && IsFirstNaming(sets, p.tl, NotFound)
    requires placed == PlaceAfter(p, sets[at.set_][at.pair], at.end) && phi' == phi[p.tl := OffsetAt(placed, 1)]
    ensures Potential(ops + [AddAfterSet(at.end)], phi', Extended(sets, at.set_, [placed]),
      Extended(tags, at.set_, [|done|]))
  {
    WellBuiltSplit(done, p);
    assert p in [p];
    LocatedOffset(done, ops, phi, sets, tags, p.otl, at);
    PotentialExtend(done, ops, phi, sets, tags, at.set_, AddAfterSet(at.end), placed, phi', at.pair, 0);
  }

  lemma BeforeShape(done: seq<Pair>, sets: seq<seq<Pair>>, tags: seq<seq<nat>>, p: Pair, at: Located, placed: Pair)
    requires Structure(done, sets, tags) && PlacersFirst(done, tags) && SamePair(placed, p)
    requires IsFirstNaming(sets, p.tl, at) && at.Found? && IsFirstNaming(sets, p.otl, NotFound)
    ensures Structure(done + [p], Extended(sets, at.set_, [placed]), Extended(tags, at.set_, [|done|]))
    ensures PlacersFirst(done + [p], Extended(tags, at.set_, [|done|]))
    ensures Classified(done, p, AddBeforeSet(at.end))
  {
    LightsCovered(done, sets, tags, p.otl);
    LightsCovered(done, sets, tags, p.tl);
    LocatedEvidence(done, sets, tags, p.tl, at);
    PlacersExtend(done, sets, tags, p, at.set_);
    StructureExtend(done, sets, tags, p, at.set_, placed);
  }

  lemma BeforePotential(done: seq<Pair>, sets: seq<seq<Pair>>, tags: seq<seq<nat>>, ops: seq<Operation>,
                        phi: map<Light, real>, p: Pair, at: Located, placed: Pair, phi': map<Light, real>)
    requires Structure(done, sets, tags) && Potential(ops, phi, sets, tags) && |ops| == |done|
    requires WellBuilt(done + [p])
    requires IsFirstNaming(sets, p.tl, at) && at.Found? && IsFirstNaming(sets, p.otl, NotFound)
    requires placed == PlaceBefore(p, sets[at.set_][at.pair], at.end) && phi' == phi[p.otl := OffsetAt(placed, 0)]
    ensures Potential(ops + [AddBeforeSet(at.end)], phi', Extended(sets, at.set_, [placed]),
      Extended(tags, at.set_, [|done|]))
  {
    WellBuiltSplit(done, p);
    assert p in [p];
    LocatedOffset(done, ops, phi, sets, tags, p.tl, at);
    PotentialExtend(done, ops, phi, sets, tags, at.set_, AddBeforeSet(at.end), placed, phi', 0, at.pair);
  }

  lemma HalfShape(done: seq<Pair>, sets: seq<seq<Pair>>, tags: seq<seq<nat>>, p: Pair, at1: Located, at2: Located,
                  placed: Pair)
    requires Structure(done, sets, tags) && PlacersFirst(done, tags) && SamePair(placed, p)
    requires IsFirstNaming(sets, p.otl, at1) && at1.Found? && IsFirstNaming(sets, p.tl, at2) && at2.Found?
    requires at1.set_ == at2.set_
    ensures Structure(done + [p], Extended(sets, at1.set_, [placed]), Extended(tags, at1.set_, [|done|]))
    ensures PlacersFirst(done + [p], Extended(tags, at1.set_, [|done|]))
    ensures Classified(done, p, AddHalfCoordinated(at1.end))
  {
    LightsCovered(done, sets, tags, p.otl);
    LightsCovered(done, sets, tags, p.tl);
    LocatedEvidence(done, sets, tags, p.otl, at1);
    LocatedEvidence(done, sets, tags, p.tl, at2);
    SetsAreComponents(done, sets, tags, p.otl, p.tl);
    StructureExtend(done, sets, tags, p, at1.set_, placed);
    PlacersExtend(done, sets, tags, p, at1.set_);
  }

  lemma HalfPotential(done: seq<Pair>, sets: seq<seq<Pair>>, tags: seq<seq<nat>>, ops: seq<Operation>,
                      phi: map<Light, real>, p: Pair, at1: Located, at2: Located, placed: Pair)
    requires Structure(done, sets, tags) && Potential(ops, phi, sets, tags) && |ops| == |done|
    requires WellBuilt(done + [p]) && SamePair(placed, p)
    requires IsFirstNaming(sets, p.otl, at1) && at1.Found? && IsFirstNaming(sets, p.tl, at2) && at2.Found?
    requires at1.set_ == at2.set_
    ensures Potential(ops + [AddHalfCoordinated(at1.end)], phi,
                      Extended(sets, at1.set_, [placed]), Extended(tags, at1.set_, [|done|]))
  {
    WellBuiltSplit(done, p);
    LocatedOffset(done, ops, phi, sets, tags, p.otl, at1);
    LocatedOffset(done, ops, phi, sets, tags, p.tl, at2);
    PotentialExtend(done, ops, phi, sets, tags, at1.set_, AddHalfCoordinated(at1.end), placed, phi, at1.pair, at2.pair);
  }

  lemma MergeShape(done: seq<Pair>, sets: seq<seq<Pair>>, tags: seq<seq<nat>>, p: Pair,
                   at1: Located, at2: Located, placed: Pair, dt: real)
    requires Structure(done, sets, tags) && PlacersFirst(done, tags) && SamePair(placed, p)
    requires IsFirstNaming(sets, p.otl, at1) && at1.Found? && IsFirstNaming(sets, p.tl, at2) && at2.Found?
    requires at1.set_ != at2.set_
    ensures PlacersFirst(done + [p], MergedTags(tags, at1.set_, at2.set_, |done|))
    ensures Structure(done + [p], MergedSets(sets, at1.set_, at2.set_, placed, dt),
      MergedTags(tags, at1.set_, at2.set_, |done|))
    ensures Classified(done, p, MergeSets(at1.end))
  {
    LightsCovered(done, sets, tags, p.otl);
    LightsCovered(done, sets, tags, p.tl);
    LocatedEvidence(done, sets, tags, p.otl, at1);
    LocatedEvidence(done, sets, tags, p.tl, at2);
    SetsAreComponents(done, sets, tags, p.otl, p.tl);
    assert Lights(sets[at1.set_]) !! Lights(sets[at2.set_]);
    StructureMerge(done, sets, tags, p, at1.set_, at2.set_, placed, dt);
    PlacersMerge(done, sets, tags, p, at1.set_, at2.set_);
  }

  lemma MergePotential(done: seq<Pair>, sets: seq<seq<Pair>>, tags: seq<seq<nat>>, ops: seq<Operation>,
                       phi: map<Light, real>, p: Pair, at1: Located, at2: Located, placed: Pair, dt: real,
                       phi': map<Light, real>)
    requires Structure(done, sets, tags) && Potential(ops, phi, sets, tags) && |ops| == |done|
    requires WellBuilt(done + [p])
    requires IsFirstNaming(sets, p.otl, at1) && at1.Found? && IsFirstNaming(sets, p.tl, at2) && at2.Found?
    requires at1.set_ != at2.set_
    requires placed == PlaceAfter(p, sets[at1.set_][at1.pair], at1.end)
    requires dt == OffsetAt(placed, 1) - OffsetAt(sets[at2.set_][at2.pair], at2.end)
    requires phi' == ShiftedPhi(phi, Lights(sets[at2.set_]), dt)
    ensures Potential(ops + [MergeSets(at1.end)], phi',
                      MergedSets(sets, at1.set_, at2.set_, placed, dt), MergedTags(tags, at1.set_, at2.set_, |done|))
  {
    WellBuiltSplit(done, p);
    assert sets[at1.set_][at1.pair] in sets[at1.set_] && sets[at2.set_][at2.pair] in sets[at2.set_];
    assert Lights(sets[at1.set_]) !! Lights(sets[at2.set_]);
    LocatedOffset(done, ops, phi, sets, tags, p.otl, at1);
    LocatedOffset(done, ops, phi, sets, tags, p.tl, at2);
    assert FollowsPotential(placed, MergeSets(at1.end), phi');
    hide Structure, Potential, FollowsPotential, IsFirstNaming, ShiftedPhi, PlaceAfter, Lights, WellBuilt;
    PotentialMerge(done, ops, phi, sets, tags, at1.set_, at2.set_, MergeSets(at1.end), placed, dt, phi', at1.pair);
  }

  lemma SameLength(done: seq<Pair>, sets: seq<seq<Pair>>, tags: seq<seq<nat>>)
    requires Structure(done, sets, tags)
    ensures |sets| == |tags|
  {
  }

  lemma WellBuiltPrefix(done: seq<Pair>, p: Pair)
    ensures WellBuilt(done + [p]) ==> WellBuilt(done)
  {
    if WellBuilt(done + [p]) { WellBuiltSplit(done, p); }
  }

  /** A pair that closes a cycle is placed behind its `otl` all the same; what it asks of its `tl` is not met in
      general. */
  ghost predicate HalfPlaced(phi: map<Light, real>, p: Pair, end: nat, placed: Pair) {
    && SamePair(placed, p) && p.otl in phi
    && placed.start == phi[p.otl] + (if end == 0 then 0.0 else p.ogreen)
    && placed.start + placed.between ==
       phi[p.otl] + (if end == 0 then -p.ogreen else p.ogreen) + p.travelTime - p.green
  }

  ghost predicate SomeHalfPlaced(phi: map<Light, real>, p: Pair, end: nat, sets: seq<seq<Pair>>) {
    exists i :: 0 <= i < |sets| && sets[i] != [] && HalfPlaced(phi, p, end, sets[i][|sets[i]| - 1])
  }

  lemma HalfIsPlaced(done: seq<Pair>, sets: seq<seq<Pair>>, tags: seq<seq<nat>>, ops: seq<Operation>,
                     phi: map<Light, real>, p: Pair, at: Located)
    requires Structure(done, sets, tags) && Potential(ops, phi, sets, tags) && WellBuilt(done)
    requires IsFirstNaming(sets, p.otl, at) && at.Found?
    ensures var placed := PlaceAfter(p, sets[at.set_][at.pair], at.end);
      SomeHalfPlaced(phi, p, at.end, Extended(sets, at.set_, [placed]))
  {
    hide Structure, Potential, WellBuilt, PlaceAfter;
    var placed := PlaceAfter(p, sets[at.set_][at.pair], at.end);
    LocatedOffset(done, ops, phi, sets, tags, p.otl, at);
    var sets' := Extended(sets, at.set_, [placed]);
    assert sets'[at.set_][|sets'[at.set_]| - 1] == placed;
  }

  /** Processes one pair: it opens a set, joins one, or merges two. */
  method AddPair(ghost done: seq<Pair>, sets: seq<seq<Pair>>, ghost tags: seq<seq<nat>>, ghost ops: seq<Operation>,
                 ghost phi: map<Light, real>, p: Pair)
    returns (sets': seq<seq<Pair>>, op: Operation, ghost tags': seq<seq<nat>>, ghost phi': map<Light, real>)
    requires Coordinated(done, sets, tags, ops, phi)
    ensures Coordinated(done + [p], sets', tags', ops + [op], phi')
    ensures |sets'| == |sets| + (if op.NewSet? then 1 else if op.MergeSets? then -1 else 0)
    ensures op.AddHalfCoordinated? && WellBuilt(done + [p]) ==> SomeHalfPlaced(phi, p, op.end, sets')
  {
    hide Structure, Classified, Potential, PlacersFirst, PlaceAfter, PlaceBefore, WellBuilt, ShiftedPhi, SomeHalfPlaced;
    ghost var n := |done|;
    SameLength(done, sets, tags);
    WellBuiltPrefix(done, p);
    var l1 := Locate(p.otl, sets);
    var l2 := Locate(p.tl, sets);
    if l1.NotFound? && l2.NotFound? {
      sets', tags', op := sets + [[p]], tags + [[n]], NewSet;
      phi' := phi[p.otl := p.start][p.tl := p.start + p.between];
      NewShape(done, sets, tags, p);
      if WellBuilt(done + [p]) {
        WellBuiltSplit(done, p);
        PotentialNew(done, ops, phi, sets, tags, p, phi');
      }
    } else if l2.NotFound? {
      var placed := PlaceAfter(p, sets[l1.set_][l1.pair], l1.end);
      sets', tags' := Extended(sets, l1.set_, [placed]), Extended(tags, l1.set_, [n]);
      op := AddAfterSet(l1.end);
      phi' := phi[p.tl := OffsetAt(placed, 1)];
      AfterShape(done, sets, tags, p, l1, placed);
      if WellBuilt(done + [p]) { AfterPotential(done, sets, tags, ops, phi, p, l1, placed, phi'); }
    } else if l1.NotFound? {
      var placed := PlaceBefore(p, sets[l2.set_][l2.pair], l2.end);
      sets', tags' := Extended(sets, l2.set_, [placed]), Extended(tags, l2.set_, [n]);
      op := AddBeforeSet(l2.end);
      phi' := phi[p.otl := OffsetAt(placed, 0)];
      BeforeShape(done, sets, tags, p, l2, placed);
      if WellBuilt(done + [p]) { BeforePotential(done, sets, tags, ops, phi, p, l2, placed, phi'); }
    } else {
      ValueIsIdentity(done, sets, tags, l1.set_, l2.set_);
      var placed := PlaceAfter(p, sets[l1.set_][l1.pair], l1.end);
      if sets[l1.set_] == sets[l2.set_] {
        sets', tags', phi' := Extended(sets, l1.set_, [placed]), Extended(tags, l1.set_, [n]), phi;
        op := AddHalfCoordinated(l1.end);
        HalfShape(done, sets, tags, p, l1, l2, placed);
        if WellBuilt(done + [p]) {
          HalfPotential(done, sets, tags, ops, phi, p, l1, l2, placed);
          HalfIsPlaced(done, sets, tags, ops, phi, p, l1);
        }
      } else {
        var l2Pair := sets[l2.set_][l2.pair];
        var dt := if l2.end == 0 then placed.start + placed.between - l2Pair.start
                  else placed.start + placed.between - (l2Pair.start + l2Pair.between);
        sets' := MergeInto(done, sets, tags, l1.set_, l2.set_, placed, dt);
        tags', op := MergedTags(tags, l1.set_, l2.set_, n), MergeSets(l1.end);
        phi' := ShiftedPhi(phi, Lights(sets[l2.set_]), dt);
        MergeShape(done, sets, tags, p, l1, l2, placed, dt);
        if WellBuilt(done + [p]) { MergePotential(done, sets, tags, ops, phi, p, l1, l2, placed, dt, phi'); }
      }
    }
    CoordinatedAppend(done, sets, tags, ops, phi, p, sets', tags', op, phi');
  }

  lemma NothingCoordinated()
    ensures Coordinated([], [], [], [], map[])
  {
  }

  /** Groups the pairs, taken in order, into coordinated sets. The counters count the operations. */
  method ComputePairOffsets(pairs: seq<Pair>)
    returns (sets: seq<seq<Pair>>, ops: seq<Operation>, c1: nat, c2: nat, c3: nat, c4: nat, c5: nat,
             ghost tags: seq<seq<nat>>, ghost phi: map<Light, real>)
    ensures Coordinated(pairs, sets, tags, ops, phi)
    ensures |sets| == c1 - c5
    ensures c1 == |set k | 0 <= k < |ops| && ops[k].NewSet?| && c2 == |set k | 0 <= k < |ops| && ops[k].AddAfterSet?|
    ensures c3 == |set k | 0 <= k < |ops| && ops[k].AddBeforeSet?|
    ensures c4 == |set k | 0 <= k < |ops| && ops[k].AddHalfCoordinated?|
    ensures c5 == |set k | 0 <= k < |ops| && ops[k].MergeSets?|
  {
    hide Coordinated;
    c1, c2, c3, c4, c5 := 0, 0, 0, 0, 0;
    sets, ops, tags, phi := [], [], [], map[];
    NothingCoordinated();
    assert pairs[..0] == [];
    for n := 0 to |pairs|
      invariant Coordinated(pairs[..n], sets, tags, ops, phi)
      invariant |sets| == c1 - c5
      invariant c1 == Tally(ops, 1) && c2 == Tally(ops, 2) && c3 == Tally(ops, 3) && c4 == Tally(ops, 4)
      invariant c5 == Tally(ops, 5)
    {
      assert pairs[..n + 1] == pairs[..n] + [pairs[n]];
      var op;
      sets, op, tags, phi := AddPair(pairs[..n], sets, tags, ops, phi, pairs[n]);
      TallyEach(ops, op);
      ops := ops + [op];
      match op {
        case NewSet => c1 := c1 + 1;
        case AddAfterSet(_) => c2 := c2 + 1;
        case AddBeforeSet(_) => c3 := c3 + 1;
        case AddHalfCoordinated(_) => c4 := c4 + 1;
        case MergeSets(_) => c5 := c5 + 1;
      }
    }
    assert pairs[..|pairs|] == pairs;
    TalliesCount(ops);
  }

  // ---------------------------------------------------------------- finalizeOffsets

  /** `sorted` is `list` sorted by descending key, equal keys keeping their order;
      `order[k]` is the old position of `sorted[k]`. */
  ghost predicate StablySorted(list: seq<Pair>, sorted: seq<Pair>, order: seq<nat>)
    requires Positive(list)
  {
    && |sorted| == |order| == |list|
    && (forall k :: 0 <= k < |order| ==> order[k] < |list| && sorted[k] == list[order[k]])
    && (forall i :: 0 <= i < |list| ==> i in order)
    && (forall k, m :: 0 <= k < m < |order| ==>
          && KeyAtLeast(list[order[k]], list[order[m]])
          && (KeyAtLeast(list[order[m]], list[order[k]]) ==> order[k] < order[m]))
  }

  lemma KeyTotal(p: Pair, q: Pair, r: Pair)
    requires p.travelTime > 0.0 && q.travelTime > 0.0 && r.travelTime > 0.0
    ensures KeyAtLeast(p, q) || KeyAtLeast(q, p)
    ensures KeyAtLeast(p, q) && KeyAtLeast(q, r) ==> KeyAtLeast(p, r)
  {
  }

  /** Stable descending sort: every pair is inserted before the first one with a smaller key. */
  method SortSet(list: seq<Pair>) returns (sorted: seq<Pair>, ghost order: seq<nat>)
    requires Positive(list)
    ensures StablySorted(list, sorted, order)
    ensures |sorted| == |list| && Positive(sorted) && Descending(sorted)
  {
    sorted, order := [], [];
    for n := 0 to |list|
      invariant StablySorted(list[..n], sorted, order) && Positive(sorted)
    {
      var p := list[n];
      assert list[..n + 1] == list[..n] + [p];
      var at := 0;
      while at < |sorted| && KeyAtLeast(sorted[at], p)
        invariant at <= |sorted|
        invariant forall k :: 0 <= k < at ==> KeyAtLeast(sorted[k], p)
      {
        at := at + 1;
      }
      InsertStable(list[..n], p, sorted, order, at);
      sorted, order := sorted[..at] + [p] + sorted[at..], order[..at] + [n] + order[at..];
    }
    assert list[..|list|] == list;
  }

  /** Two places of the sorted list stay in order when `p` is inserted at `at`. */
  lemma InsertInOrder(list: seq<Pair>, p: Pair, sorted: seq<Pair>, order: seq<nat>, at: nat, k: nat, m: nat)
    requires Positive(list) && StablySorted(list, sorted, order) && at <= |sorted| && k < m <= |sorted|
    requires p.travelTime > 0.0 && Positive(sorted)
    requires forall k :: 0 <= k < at ==> KeyAtLeast(sorted[k], p)
    requires at < |sorted| ==> !KeyAtLeast(sorted[at], p)
    ensures var order' := order[..at] + [|list|] + order[at..];
            var all := list + [p];
            && all[order'[k]].travelTime > 0.0 && all[order'[m]].travelTime > 0.0
            && KeyAtLeast(all[order'[k]], all[order'[m]])
            && (KeyAtLeast(all[order'[m]], all[order'[k]]) ==> order'[k] < order'[m])
  {
    hide *;
    InsertedAt(list, p, sorted, order, at, k);
    InsertedAt(list, p, sorted, order, at, m);
    if k == at {
      NextIsLess(list, p, sorted, order, at, m - 1);
    } else if m != at {
      OldOrder(list, sorted, order, if k < at then k else k - 1, if m < at then m else m - 1);
    }
  }

  /** What stands where after the insertion. */
  lemma InsertedAt(list: seq<Pair>, p: Pair, sorted: seq<Pair>, order: seq<nat>, at: nat, k: nat)
    requires Positive(list) && StablySorted(list, sorted, order) && at <= |sorted| && k <= |sorted|
    requires p.travelTime > 0.0
    ensures |order| == |sorted| == |list|
    ensures var order' := order[..at] + [|list|] + order[at..];
      && order'[k] <= |list| && (list + [p])[order'[k]].travelTime > 0.0
      && (k == at ==> order'[k] == |list| && (list + [p])[order'[k]] == p)
      && (k != at ==>
            var k' := if k < at then k else k - 1;
            sorted[k'] in sorted && order'[k] == order[k'] < |list| && (list + [p])[order'[k]] == sorted[k'])
  {
    hide KeyAtLeast;
    var k' := if k < at then k else k - 1;
    if k != at { assert order[k'] < |list| && sorted[k'] == list[order[k']] && list[order[k']] in list; }
  }

  lemma OldOrder(list: seq<Pair>, sorted: seq<Pair>, order: seq<nat>, k: nat, m: nat)
    requires Positive(list) && StablySorted(list, sorted, order) && k < m < |sorted|
    ensures |order| == |sorted| && sorted[k].travelTime > 0.0 && sorted[m].travelTime > 0.0
    ensures KeyAtLeast(sorted[k], sorted[m]) && (KeyAtLeast(sorted[m], sorted[k]) ==> order[k] < order[m])
  {
    hide KeyAtLeast;
    assert sorted[k] == list[order[k]] && sorted[m] == list[order[m]];
  }

  /** Everything from the place of `p` on has a smaller key. */
  lemma NextIsLess(list: seq<Pair>, p: Pair, sorted: seq<Pair>, order: seq<nat>, at: nat, m: nat)
    requires Positive(list) && StablySorted(list, sorted, order) && at <= m < |sorted|
    requires p.travelTime > 0.0 && Positive(sorted) && sorted[at] in sorted && !KeyAtLeast(sorted[at], p)
    ensures sorted[m] in sorted && KeyAtLeast(p, sorted[m]) && !KeyAtLeast(sorted[m], p)
  {
    hide KeyAtLeast;
    assert sorted[m] in sorted && sorted[at] == list[order[at]] && sorted[m] == list[order[m]];
    KeyTotal(sorted[at], p, p);
    KeyTotal(sorted[m], p, p);
    if at < m {
      KeyTotal(p, sorted[at], sorted[m]);
      KeyTotal(sorted[at], sorted[m], p);
    }
  }

  lemma InsertCovers(n: nat, order: seq<nat>, at: nat)
    requires at <= |order| && forall i :: 0 <= i < n ==> i in order
    ensures forall i :: 0 <= i < n + 1 ==> i in order[..at] + [n] + order[at..]
  {
    var order' := order[..at] + [n] + order[at..];
    forall i | 0 <= i < n + 1 ensures i in order' {
      if i < n {
        assert i in order;
        var k :| 0 <= k < |order| && order[k] == i;
        assert order'[if k < at then k else k + 1] == i;
      } else {
        assert order'[at] == i;
      }
    }
  }

  lemma InsertItems(list: seq<Pair>, p: Pair, sorted: seq<Pair>, order: seq<nat>, at: nat)
    requires |sorted| == |order| == |list| && at <= |order|
    requires forall k :: 0 <= k < |order| ==> order[k] < |list| && sorted[k] == list[order[k]]
    ensures var sorted', order' := sorted[..at] + [p] + sorted[at..], order[..at] + [|list|] + order[at..];
            forall k :: 0 <= k < |order'| ==> order'[k] < |list + [p]| && sorted'[k] == (list + [p])[order'[k]]
  {
    var sorted', order' := sorted[..at] + [p] + sorted[at..], order[..at] + [|list|] + order[at..];
    forall k | 0 <= k < |order'| ensures order'[k] < |list + [p]| && sorted'[k] == (list + [p])[order'[k]] {
      assert k < at ==> sorted[k] == list[order[k]];
      assert k > at ==> sorted[k - 1] == list[order[k - 1]];
    }
  }

  lemma InsertStable(list: seq<Pair>, p: Pair, sorted: seq<Pair>, order: seq<nat>, at: nat)
    requires Positive(list + [p])
    requires Positive(list) && StablySorted(list, sorted, order) && at <= |sorted|
    requires p.travelTime > 0.0 && Positive(sorted)
    requires forall k :: 0 <= k < at ==> KeyAtLeast(sorted[k], p)
    requires at < |sorted| ==> !KeyAtLeast(sorted[at], p)
    ensures StablySorted(list + [p], sorted[..at] + [p] + sorted[at..], order[..at] + [|list|] + order[at..])
  {
    var all, order' := list + [p], order[..at] + [|list|] + order[at..];
    InsertCovers(|list|, order, at);
    InsertItems(list, p, sorted, order, at);
    forall k, m | 0 <= k < m < |order'|
      ensures KeyAtLeast(all[order'[k]], all[order'[m]])
      ensures KeyAtLeast(all[order'[m]], all[order'[k]]) ==> order'[k] < order'[m]
    {
      InsertInOrder(list, p, sorted, order, at, k, m);
    }
    hide KeyAtLeast;
  }

  /** A light keeps the first offset recorded for it. */
  function Record(offsets: map<Light, real>, p: Pair): map<Light, real> {
    var d := if p.otl in offsets then offsets else offsets[p.otl := p.start];
    if p.tl in d then d else d[p.tl := p.start + p.between]
  }

  function RecordList(offsets: map<Light, real>, list: seq<Pair>): map<Light, real> {
    if list == [] then offsets else Record(RecordList(offsets, list[..|list| - 1]), list[|list| - 1])
  }

  function RecordSets(sets: seq<seq<Pair>>): map<Light, real> {
    if sets == [] then map[] else RecordList(RecordSets(sets[..|sets| - 1]), sets[|sets| - 1])
  }

  /** Sorts every set and reads the offsets off the sorted sets. */
  method FinalizeOffsets(sets: seq<seq<Pair>>)
    returns (offsets: map<Light, real>, sorted: seq<seq<Pair>>, ghost orders: seq<seq<nat>>)
    requires forall i :: 0 <= i < |sets| ==> Positive(sets[i])
    ensures |sorted| == |orders| == |sets|
    ensures forall i :: 0 <= i < |sets| ==> StablySorted(sets[i], sorted[i], orders[i])
    ensures offsets == RecordSets(sorted)
  {
    offsets, sorted, orders := map[], [], [];
    for i := 0 to |sets|
      invariant |sorted| == |orders| == i
      invariant forall i' :: 0 <= i' < i ==> StablySorted(sets[i'], sorted[i'], orders[i'])
      invariant offsets == RecordSets(sorted)
    {
      var single: seq<Pair>;
      ghost var order: seq<nat>;
      single, order := SortSet(sets[i]);
      for j := 0 to |single|
        invariant offsets == RecordList(RecordSets(sorted), single[..j])
      {
        var p := single[j];
        if p.otl !in offsets {
          offsets := offsets[p.otl := p.start];
        }
        if p.tl !in offsets {
          offsets := offsets[p.tl := p.start + p.between];
        }
        assert single[..j + 1][..j] == single[..j];
      }
      assert single[..|single|] == single;
      assert (sorted + [single])[..|sorted|] == sorted;
      sorted, orders := sorted + [single], orders + [order];
    }
  }

  /** Whatever light `list[k]` is the first to name, it gives that light its potential. */
  ghost predicate Trusted(phi: map<Light, real>, list: seq<Pair>, k: nat)
    requires k < |list|
  {
    && list[k].otl != list[k].tl && list[k].otl in phi && list[k].tl in phi
    && (list[k].start == phi[list[k].otl] || exists m :: 0 <= m < k && Names(list[m], list[k].otl))
    && (list[k].start + list[k].between == phi[list[k].tl] || exists m :: 0 <= m < k && Names(list[m], list[k].tl))
  }

  /** After the stable sort a pair still finds the pair that fixed its light in front of it. */
  lemma SortedTrusted(done: seq<Pair>, ops: seq<Operation>, phi: map<Light, real>, list: seq<Pair>, tags: seq<nat>,
                      sorted: seq<Pair>, order: seq<nat>, k: nat)
    requires Positive(done) && Descending(done) && WellBuilt(done) && |ops| == |done|
    requires GoodList(done, list, tags) && PotentialList(ops, phi, list, tags)
    requires Positive(list) && StablySorted(list, sorted, order) && k < |sorted|
    ensures Trusted(phi, sorted, k)
  {
    var j := order[k];
    var p := list[j];
    assert SamePair(p, done[tags[j]]) && done[tags[j]] in done;
    assert PotentialAt(ops, phi, list, tags, j);
    forall x | x == p.otl || x == p.tl
      ensures Fixes(p, ops[tags[j]], x) || exists m :: 0 <= m < k && Names(sorted[m], x)
    {
      if !Fixes(p, ops[tags[j]], x) {
        assert FixedBefore(ops, list, tags, j, x);
        var i :| 0 <= i < j && tags[i] < tags[j] && Fixes(list[i], ops[tags[i]], x);
        var m := EarlierStaysInFront(done, list, tags, sorted, order, i, k);
        assert Names(sorted[m], x);
      }
    }
    assert sorted[k] == p && p.otl != p.tl;
    assert Fixes(p, ops[tags[j]], p.otl) ==> p.start == phi[p.otl];
    assert Fixes(p, ops[tags[j]], p.tl) ==> p.start + p.between == phi[p.tl];
  }

  lemma EarlierStaysInFront(done: seq<Pair>, list: seq<Pair>, tags: seq<nat>, sorted: seq<Pair>, order: seq<nat>,
                            i: nat, k: nat)
    returns (m: nat)
    requires Positive(done) && Descending(done) && GoodList(done, list, tags)
    requires Positive(list) && StablySorted(list, sorted, order) && k < |sorted|
    requires i < order[k] && tags[i] < tags[order[k]]
    ensures m < k && sorted[m] == list[i]
  {
    assert i in order;
    m :| m < |order| && order[m] == i;
    assert SamePair(list[i], done[tags[i]]) && SamePair(list[order[k]], done[tags[order[k]]]);
    assert KeyAtLeast(done[tags[i]], done[tags[order[k]]]);
    assert KeyAtLeast(list[i], list[order[k]]);
  }

  /** `offsets` extends `before` by the lights `lights`, each at its potential. */
  ghost predicate RecordedPhi(before: map<Light, real>, lights: set<Light>, phi: map<Light, real>,
                              offsets: map<Light, real>) {
    && offsets.Keys == before.Keys + lights
    && (forall x :: x in before ==> offsets[x] == before[x])
    && (forall x :: x in lights ==> x in phi && offsets[x] == phi[x])
  }

  lemma RecordPhi(before: map<Light, real>, lights: set<Light>, phi: map<Light, real>, offsets: map<Light, real>,
                  p: Pair)
    requires RecordedPhi(before, lights, phi, offsets) && before.Keys !! lights + {p.otl, p.tl}
    requires p.otl != p.tl && p.otl in phi && p.tl in phi
    requires p.start == phi[p.otl] || p.otl in lights
    requires p.start + p.between == phi[p.tl] || p.tl in lights
    ensures RecordedPhi(before, lights + {p.otl, p.tl}, phi, Record(offsets, p))
  {
  }

  lemma TrustedPrefix(phi: map<Light, real>, list: seq<Pair>, n: nat, k: nat)
    requires k < n <= |list| && Trusted(phi, list, k)
    ensures Trusted(phi, list[..n], k)
  {
    forall x, m | 0 <= m < k && Names(list[m], x) ensures Names(list[..n][m], x) {}
  }

  lemma NamedIsLight(list: seq<Pair>, m: nat, x: Light)
    requires m < |list| && Names(list[m], x)
    ensures x in Lights(list)
  {
    assert list[m] in list;
  }

  lemma RecordListPhi(before: map<Light, real>, phi: map<Light, real>, list: seq<Pair>)
    requires before.Keys !! Lights(list)
    requires forall k :: 0 <= k < |list| ==> Trusted(phi, list, k)
    ensures RecordedPhi(before, Lights(list), phi, RecordList(before, list))
  {
    if list != [] {
      var n := |list| - 1;
      var front, p := list[..n], list[n];
      assert list == front + [p];
      LightsAppend(front, [p]);
      LightsSingle(p);
      forall k | 0 <= k < |front| ensures Trusted(phi, front, k) {
        TrustedPrefix(phi, list, n, k);
      }
      hide Lights;
      RecordListPhi(before, phi, front);
      assert Trusted(phi, list, n);
      forall x, m | 0 <= m < n && Names(list[m], x) ensures x in Lights(front) {
        NamedIsLight(front, m, x);
      }
      RecordPhi(before, Lights(front), phi, RecordList(before, front), p);
    }
  }

  ghost function AllLights(sets: seq<seq<Pair>>): set<Light> {
    if sets == [] then {} else AllLights(sets[..|sets| - 1]) + Lights(sets[|sets| - 1])
  }

  lemma AllLightsIn(sets: seq<seq<Pair>>, x: Light)
    ensures x in AllLights(sets) <==> exists i :: 0 <= i < |sets| && x in Lights(sets[i])
  {
    hide Lights;
    if sets != [] {
      var n := |sets| - 1;
      AllLightsIn(sets[..n], x);
      if i :| 0 <= i < |sets[..n]| && x in Lights(sets[..n][i]) {
        assert x in Lights(sets[i]);
      }
      if i :| 0 <= i < |sets| && x in Lights(sets[i]) {
        assert i == n || x in Lights(sets[..n][i]);
      }
    }
  }

  lemma RecordSetsPhi(phi: map<Light, real>, sets: seq<seq<Pair>>)
    requires forall i, j :: 0 <= i < j < |sets| ==> Lights(sets[i]) !! Lights(sets[j])
    requires forall i, k :: 0 <= i < |sets| && 0 <= k < |sets[i]| ==> Trusted(phi, sets[i], k)
    ensures RecordedPhi(map[], AllLights(sets), phi, RecordSets(sets))
  {
    hide Lights, Trusted;
    if sets != [] {
      var n := |sets| - 1;
      RecordSetsPhi(phi, sets[..n]);
      var before := RecordSets(sets[..n]);
      forall x | x in before ensures x !in Lights(sets[n]) {
        AllLightsIn(sets[..n], x);
        var i :| 0 <= i < |sets[..n]| && x in Lights(sets[..n][i]);
        assert Lights(sets[i]) !! Lights(sets[n]);
      }
      RecordListPhi(before, phi, sets[n]);
    }
  }

  /** Does the final offset map send vehicles of pair `p` from green to green? */
  predicate GreenWave(offsets: map<Light, real>, p: Pair) {
    p.otl in offsets && p.tl in offsets
    && offsets[p.tl] + p.green == offsets[p.otl] + p.ogreen + p.travelTime
  }

  lemma SortedLights(list: seq<Pair>, sorted: seq<Pair>, order: seq<nat>)
    requires Positive(list) && StablySorted(list, sorted, order)
    ensures Lights(sorted) == Lights(list)
  {
    forall p | p in list ensures p in sorted {
      var i :| 0 <= i < |list| && list[i] == p;
      assert i in order;
      var k :| 0 <= k < |order| && order[k] == i;
      assert sorted[k] == p;
    }
  }

  lemma SetsPositive(done: seq<Pair>, sets: seq<seq<Pair>>, tags: seq<seq<nat>>)
    requires Structure(done, sets, tags) && Positive(done)
    ensures forall i :: 0 <= i < |sets| ==> Positive(sets[i])
  {
    forall i, p | 0 <= i < |sets| && p in sets[i] ensures p.travelTime > 0.0 {
      var j :| 0 <= j < |sets[i]| && sets[i][j] == p;
      assert GoodList(done, sets[i], tags[i]);
      assert SamePair(p, done[tags[i][j]]) && done[tags[i][j]] in done;
    }
  }

  /** The offsets read off the sorted sets are the potential. */
  lemma OffsetsArePotential(done: seq<Pair>, sets: seq<seq<Pair>>, tags: seq<seq<nat>>, ops: seq<Operation>,
                            phi: map<Light, real>, sorted: seq<seq<Pair>>, orders: seq<seq<nat>>)
    requires Positive(done) && Descending(done) && WellBuilt(done)
    requires |ops| == |done| && Structure(done, sets, tags) && Potential(ops, phi, sets, tags)
    requires |sorted| == |orders| == |sets|
    requires forall i :: 0 <= i < |sets| ==> Positive(sets[i]) && StablySorted(sets[i], sorted[i], orders[i])
    ensures RecordSets(sorted).Keys == Lights(done)
    ensures forall x :: x in RecordSets(sorted) ==> x in phi && RecordSets(sorted)[x] == phi[x]
  {
    forall i | 0 <= i < |sets| ensures Lights(sorted[i]) == Lights(sets[i]) {
      SortedLights(sets[i], sorted[i], orders[i]);
    }
    forall i, k | 0 <= i < |sorted| && 0 <= k < |sorted[i]| ensures Trusted(phi, sorted[i], k) {
      SortedTrusted(done, ops, phi, sets[i], tags[i], sorted[i], orders[i], k);
    }
    RecordSetsPhi(phi, sorted);
    forall x ensures x in RecordSets(sorted) <==> x in Lights(done) {
      AllLightsIn(sorted, x);
      LightsCovered(done, sets, tags, x);
    }
  }

  /** The equation of one pair in terms of the potential of its set. */
  lemma PairEquation(done: seq<Pair>, sets: seq<seq<Pair>>, tags: seq<seq<nat>>, ops: seq<Operation>,
                     phi: map<Light, real>, k: nat)
    requires |ops| == |done| && Structure(done, sets, tags) && Potential(ops, phi, sets, tags) && k < |done|
    requires !ops[k].AddHalfCoordinated?
    ensures done[k].otl in phi && done[k].tl in phi
    ensures phi[done[k].tl] + done[k].green ==
      phi[done[k].otl] + UsedOgreen(ops[k], done[k].ogreen) + done[k].travelTime
  {
    assert InSomeSet(tags, k);
    var i :| 0 <= i < |tags| && k in tags[i];
    var j :| 0 <= j < |tags[i]| && tags[i][j] == k;
    assert GoodList(done, sets[i], tags[i]) && PotentialList(ops, phi, sets[i], tags[i]);
    assert SamePair(sets[i][j], done[k]) && PotentialAt(ops, phi, sets[i], tags[i], j);
  }

  /** Both lights are known already and joined by the earlier pairs. */
  ghost predicate ClosesCycle(done: seq<Pair>, p: Pair) {
    p.otl in Lights(done) && p.tl in Lights(done) && Connected(done, p.otl, p.tl)
  }

  lemma EndsDiffer(done: seq<Pair>, p: Pair, op: Operation)
    requires Classified(done, p, op)
    ensures op.AddHalfCoordinated? <==> ClosesCycle(done, p)
    ensures !op.AddHalfCoordinated? ==> (op.BehindFirstEnd() <==> GoesBehindFirstEnd(done, p))
  {
    hide Lights, Connected, AtFirstEnd;
  }

  /** The pair is placed behind a light that is located at end 0, as the earlier pairs determine. */
  ghost predicate GoesBehindFirstEnd(done: seq<Pair>, p: Pair) { p.otl in Lights(done) && AtFirstEnd(done, p.otl) }

  /** The whole coordinator. For pairs in descending key order every pair that does not close a cycle gets its
      green wave, unless it goes behind a first end and `ogreen` is not 0. */
  method Coordinate(pairs: seq<Pair>)
    returns (offsets: map<Light, real>, sets: seq<seq<Pair>>, ops: seq<Operation>)
    requires Positive(pairs) && Descending(pairs) && WellBuilt(pairs)
    ensures offsets.Keys == Lights(pairs)
    ensures |ops| == |pairs| && forall k :: 0 <= k < |pairs| ==> Classified(pairs[..k], pairs[k], ops[k])
    ensures forall k :: 0 <= k < |pairs| && !ClosesCycle(pairs[..k], pairs[k]) ==>
      (GreenWave(offsets, pairs[k]) <==> !(GoesBehindFirstEnd(pairs[..k], pairs[k]) && pairs[k].ogreen != 0.0))
    ensures forall a, b :: a in offsets && b in offsets ==> (Together(sets, a, b) <==> Connected(pairs, a, b))
  {
    var c1, c2, c3, c4, c5;
    ghost var tags, phi, orders;
    sets, ops, c1, c2, c3, c4, c5, tags, phi := ComputePairOffsets(pairs);
    SetsPositive(pairs, sets, tags);
    var sorted;
    offsets, sorted, orders := FinalizeOffsets(sets);
    OffsetsArePotential(pairs, sets, tags, ops, phi, sorted, orders);
    forall k | 0 <= k < |pairs| && !ClosesCycle(pairs[..k], pairs[k])
      ensures GreenWave(offsets, pairs[k]) <==> !(GoesBehindFirstEnd(pairs[..k], pairs[k]) && pairs[k].ogreen != 0.0)
    {
      EndsDiffer(pairs[..k], pairs[k], ops[k]);
      PairEquation(pairs, sets, tags, ops, phi, k);
      assert pairs[k] in pairs;
    }
    forall a, b | a in offsets && b in offsets ensures Together(sets, a, b) <==> Connected(pairs, a, b) {
      SetsAreComponents(pairs, sets, tags, a, b);
    }
  }

  /** With all lights green at offset 0 the coordinator serves every pair that closes no cycle. */
  method CoordinateGreenAtZero(pairs: seq<Pair>) returns (offsets: map<Light, real>, ops: seq<Operation>)
    requires Positive(pairs) && Descending(pairs) && WellBuilt(pairs)
    requires forall p :: p in pairs ==> p.ogreen == 0.0 && p.green == 0.0
    ensures |ops| == |pairs|
    ensures forall k :: 0 <= k < |pairs| ==>
      var p := pairs[k];
      p.otl in offsets && p.tl in offsets &&
      (ClosesCycle(pairs[..k], p)
       || offsets[p.tl] == offsets[p.otl] + p.travelTime)
  {
    var sets;
    offsets, sets, ops := Coordinate(pairs);
    forall k | 0 <= k < |pairs|
      ensures var p := pairs[k];
        p.otl in offsets && p.tl in offsets &&
        (ClosesCycle(pairs[..k], p)
         || offsets[p.tl] == offsets[p.otl] + p.travelTime)
    {
      assert pairs[k] in pairs;
      assert Classified(pairs[..k], pairs[k], ops[k]);
    }
  }

  /** Two pairs leave light 0; the second misses its green wave, by twice its `ogreen` of 1. */
  method GreenOffsetExample() returns (offsets: map<Light, real>)
    ensures offsets.Keys == {0, 1, 2} && offsets[2] != offsets[0] + 11.0
  {
    var first := Pair(0, 1, 10.0, 0.0, 10.0, 1, 20, 0.0, 0.0);
    var second := Pair(0, 2, 11.0, 0.0, 10.0, 1, 10, 1.0, 0.0);
    var pairs, sets, ops := [first, second], [], [];
    ExampleInput(first, second);
    offsets, sets, ops := Coordinate(pairs);
    assert pairs[..1] == [first];
    hide Positive, Descending, WellBuilt, Connected, Together, Lights, ClosesCycle, GoesBehindFirstEnd;
    SecondIsBehind(first, second);
    ExampleLights(first, second);
    assert pairs[1] == second && !GreenWave(offsets, second);
  }

  lemma SecondIsBehind(first: Pair, second: Pair)
    requires first.otl == second.otl == 0 && first.tl == 1 && second.tl == 2
    ensures GoesBehindFirstEnd([first], second) && !ClosesCycle([first], second)
  {
    LightsSingle(first);
    assert [first][..0] == [];
    assert FirstNames([first], 0, 0);
  }

  lemma ExampleLights(first: Pair, second: Pair)
    requires first.otl == second.otl == 0 && first.tl == 1 && second.tl == 2
    ensures Lights([first, second]) == {0, 1, 2}
  {
    LightsAppend([first], [second]);
    LightsSingle(first);
    LightsSingle(second);
    assert [first, second] == [first] + [second];
  }

  lemma ExampleInput(first: Pair, second: Pair)
    requires first == Pair(0, 1, 10.0, 0.0, 10.0, 1, 20, 0.0, 0.0)
    requires second == Pair(0, 2, 11.0, 0.0, 10.0, 1, 10, 1.0, 0.0)
    ensures Positive([first, second]) && Descending([first, second]) && WellBuilt([first, second])
  {
    assert Rate(first) == 2.0 && Rate(second) == 1.0;
  }
}
