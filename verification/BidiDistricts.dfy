/** The district builder: a worklist search bounded by travelled distance, and a cache of opposite
    edges that is extended in place while later look-ups read it. */
module BidiDistricts {

  import opened Wrappers

  type Edge = nat

  ghost predicate Distinct(s: seq<Edge>) { forall i, j :: 0 <= i < j < |s| ==> s[i] != s[j] }

  /** The road network. `near(e)` lists, per shape point, the edges near it; `opposite(e)` are the edges
      that lead straight back; `next(e)` lists the edges at either end node, in the order of traversal. */
  datatype Net = Net(
    edges: seq<Edge>, length: Edge -> real, next: Edge -> seq<Edge>,
    near: Edge -> seq<set<Edge>>, opposite: Edge -> set<Edge>)
  {
    /** Edges are listed once, lengths are not negative, and what surrounds an edge is in the network. */
    ghost predicate Valid() {
      Distinct(edges) && forall e :: e in edges ==> EdgeValid(e)
    }

    ghost predicate EdgeValid(e: Edge) {
      && length(e) >= 0.0
      && (forall n :: n in next(e) ==> n in edges)
      && near(e) != [] && (forall i, c :: 0 <= i < |near(e)| && c in near(e)[i] ==> c in edges)
    }
  }

  lemma EdgeFacts(net: Net, e: Edge)
    requires net.Valid() && e in net.edges
    ensures net.EdgeValid(e) && net.length(e) >= 0.0
    ensures forall n :: n in net.next(e) ==> n in net.edges
  {
  }

  // ---------------------------------------------------------------- travel distance

  function LengthSum(net: Net, chain: seq<Edge>): real {
    if chain == [] then 0.0 else LengthSum(net, chain[..|chain| - 1]) + net.length(chain[|chain| - 1])
  }

  /** `walk` goes from edge to neighbouring edge. */
  ghost predicate IsWalk(net: Net, walk: seq<Edge>) {
    && walk != []
    && (forall i :: 0 <= i < |walk| ==> walk[i] in net.edges)
    && (forall i :: 0 <= i < |walk| - 1 ==> walk[i + 1] in net.next(walk[i]))
  }

  /** A worklist entry: an edge and the distance travelled up to it, -1 for the start. */
  datatype Entry = Entry(edge: Edge, dist: real)

  ghost predicate InNet(net: Net, queue: seq<Entry>) { forall q :: q in queue ==> q.edge in net.edges }

  ghost function Open(net: Net, found: set<Edge>): set<Edge> { (set e | e in net.edges) - found }

  lemma OpenShrinks(net: Net, found: set<Edge>, e: Edge)
    requires e in net.edges && e !in found
    ensures |Open(net, found + {e})| < |Open(net, found)|
  {
    assert Open(net, found + {e}) == Open(net, found) - {e} && e in Open(net, found);
  }

  /** Distance behind an edge that was reached at distance `dist`. */
  function Behind(net: Net, e: Edge, dist: real): real {
    if dist == -1.0 then 0.0 else dist + net.length(e)
  }

  function Pushed(edges: seq<Edge>, dist: real): (r: seq<Entry>)
    ensures |r| == |edges| && forall i :: 0 <= i < |r| ==> r[i] == Entry(edges[i], dist)
  {
    seq(|edges|, i requires 0 <= i < |edges| => Entry(edges[i], dist))
  }

  /** The search: the last entry is taken first, and an edge counts with the distance at which it is first seen. */
  ghost function Search(net: Net, limit: real, queue: seq<Entry>, found: set<Edge>): set<Edge>
    requires net.Valid() && InNet(net, queue)
    decreases |Open(net, found)|, |queue|
  {
    if queue == [] then found
    else
      RestInNet(net, queue);
      var q, rest := queue[|queue| - 1], queue[..|queue| - 1];
      if q.edge !in found && q.dist < limit then
        PushedInNet(net, rest, q.edge, Behind(net, q.edge, q.dist));
        OpenShrinks(net, found, q.edge);
        Search(net, limit, rest + Pushed(net.next(q.edge), Behind(net, q.edge, q.dist)), found + {q.edge})
      else Search(net, limit, rest, found)
  }

  lemma PushedInNet(net: Net, rest: seq<Entry>, e: Edge, dist: real)
    requires net.Valid() && InNet(net, rest) && e in net.edges
    ensures InNet(net, rest + Pushed(net.next(e), dist))
  {
    EdgeFacts(net, e);
    hide Net.Valid, Net.EdgeValid;
    var pushed := Pushed(net.next(e), dist);
    forall q | q in rest + pushed ensures q.edge in net.edges {
      if q !in rest {
        var i :| 0 <= i < |pushed| && pushed[i] == q;
        assert net.next(e)[i] in net.next(e);
      }
    }
  }

  lemma RestInNet(net: Net, queue: seq<Entry>)
    requires InNet(net, queue) && queue != []
    ensures queue[|queue| - 1].edge in net.edges && InNet(net, queue[..|queue| - 1])
  {
    assert queue[|queue| - 1] in queue;
    assert forall q :: q in queue[..|queue| - 1] ==> q in queue;
  }

  ghost function TravelSet(net: Net, start: Edge, limit: real): set<Edge>
    requires net.Valid() && start in net.edges
  {
    Search(net, limit, [Entry(start, -1.0)], {})
  }

  lemma SearchEnds(net: Net, limit: real, found: set<Edge>)
    requires net.Valid()
    ensures Search(net, limit, [], found) == found
  {
  }

  lemma SearchStep(net: Net, limit: real, queue: seq<Entry>, found: set<Edge>)
    requires net.Valid() && InNet(net, queue) && queue != []
    ensures var q, rest := queue[|queue| - 1], queue[..|queue| - 1];
      InNet(net, rest) && q.edge in net.edges &&
      if q.edge !in found && q.dist < limit then
        var queue' := rest + Pushed(net.next(q.edge), Behind(net, q.edge, q.dist));
        && InNet(net, queue') && |Open(net, found + {q.edge})| < |Open(net, found)|
        && Search(net, limit, queue, found) == Search(net, limit, queue', found + {q.edge})
      else Search(net, limit, queue, found) == Search(net, limit, rest, found)
  {
    var q, rest := queue[|queue| - 1], queue[..|queue| - 1];
    RestInNet(net, queue);
    if q.edge !in found && q.dist < limit {
      PushedInNet(net, rest, q.edge, Behind(net, q.edge, q.dist));
      OpenShrinks(net, found, q.edge);
    }
  }

  method Travel(net: Net, start: Edge, limit: real) returns (found: set<Edge>)
    requires net.Valid() && start in net.edges
    ensures found == TravelSet(net, start, limit)
  {
    found := {};
    var queue := [Entry(start, -1.0)];
    assert InNet(net, queue);
    assert TravelSet(net, start, limit) == Search(net, limit, queue, found);
    hide *;
    while queue != []
      invariant InNet(net, queue) && Search(net, limit, queue, found) == TravelSet(net, start, limit)
      decreases |Open(net, found)|, |queue|
    {
      SearchStep(net, limit, queue, found);
      var q := queue[|queue| - 1];
      queue := queue[..|queue| - 1];
      if q.edge !in found && q.dist < limit {
        found := found + {q.edge};
        queue := PushAll(queue, net.next(q.edge), Behind(net, q.edge, q.dist));
      }
    }
    SearchEnds(net, limit, found);
  }

  method PushAll(queue: seq<Entry>, edges: seq<Edge>, dist: real) returns (r: seq<Entry>)
    ensures r == queue + Pushed(edges, dist)
  {
    r := queue;
    assert Pushed(edges[..0], dist) == [];
    for i := 0 to |edges|
      invariant r == queue + Pushed(edges[..i], dist)
    {
      assert Pushed(edges[..i + 1], dist) == Pushed(edges[..i], dist) + [Entry(edges[i], dist)];
      r := r + [Entry(edges[i], dist)];
    }
    assert edges[..|edges|] == edges;
  }

  // ---------------------------------------------------------------- what the search finds

  /** How an entry came about: the walk of distinct, already found edges behind which it was pushed. */
  ghost predicate Justified(net: Net, start: Edge, found: set<Edge>, entry: Entry, walk: seq<Edge>) {
    && IsWalk(net, walk) && Distinct(walk) && walk[0] == start
    && (forall e :: e in walk ==> e in found)
    && entry.edge in net.next(walk[|walk| - 1])
    && entry.dist == LengthSum(net, walk[1..])
  }

  /** A walk of distinct edges from `start` to `e` whose intermediate lengths sum to less than `limit`. */
  ghost predicate WithinReach(net: Net, start: Edge, e: Edge, limit: real, walk: seq<Edge>) {
    && IsWalk(net, walk) && Distinct(walk) && walk[0] == start && walk[|walk| - 1] == e
    && (e == start || LengthSum(net, walk[1..|walk| - 1]) < limit)
  }

  /** `via[e]` is the walk by which `e` was found. */
  ghost predicate Explained(net: Net, start: Edge, limit: real, found: set<Edge>, via: map<Edge, seq<Edge>>) {
    && via.Keys == found && start in found
    && (forall e :: e in found ==> WithinReach(net, start, e, limit, via[e]))
    && (forall e, x :: e in found && x in via[e] ==> x in found)
  }

  /** Neighbours of an edge found at a distance below the limit are found or still in the worklist. */
  ghost predicate Followed(net: Net, limit: real, found: set<Edge>, walk: seq<Edge>, queue: seq<Entry>, n: Edge)
    requires walk != []
  {
    var dist := LengthSum(net, walk[1..]);
    dist < limit ==> n in found || Entry(n, dist) in queue
  }

  ghost predicate AllJustified(net: Net, start: Edge, found: set<Edge>, queue: seq<Entry>, walks: seq<seq<Edge>>) {
    |queue| == |walks| && forall i :: 0 <= i < |queue| ==> Justified(net, start, found, queue[i], walks[i])
  }

  ghost predicate AllFollowed(net: Net, limit: real, queue: seq<Entry>, found: set<Edge>, via: map<Edge, seq<Edge>>) {
    forall e, n :: e in found && n in net.next(e) ==>
      e in via && via[e] != [] && Followed(net, limit, found, via[e], queue, n)
  }

  ghost predicate SearchInv(net: Net, start: Edge, limit: real, queue: seq<Entry>, walks: seq<seq<Edge>>,
                            found: set<Edge>, via: map<Edge, seq<Edge>>)
  {
    && AllJustified(net, start, found, queue, walks)
    && Explained(net, start, limit, found, via)
    && AllFollowed(net, limit, queue, found, via)
    && Rooted(walks, via)
  }

  /** The walk by which an edge was found leads on from the walk of the edge before it. */
  ghost predicate Rooted(walks: seq<seq<Edge>>, via: map<Edge, seq<Edge>>) {
    && (forall e :: e in via ==> LeadsOnFrom(via, e))
    && (forall i :: 0 <= i < |walks| ==> IsVia(via, walks[i]))
  }

  ghost predicate LeadsOnFrom(via: map<Edge, seq<Edge>>, e: Edge)
    requires e in via
  {
    via[e] != [] && (|via[e]| == 1 || IsVia(via, via[e][..|via[e]| - 1]))
  }

  ghost predicate IsVia(via: map<Edge, seq<Edge>>, walk: seq<Edge>) {
    walk != [] && walk[|walk| - 1] in via && via[walk[|walk| - 1]] == walk
  }

  lemma RootedAfter(walks: seq<seq<Edge>>, via: map<Edge, seq<Edge>>, e: Edge, count: nat)
    requires Rooted(walks, via) && walks != [] && e !in via
    ensures var n := |walks| - 1;
      var w := walks[n] + [e];
      Rooted(walks[..n] + seq(count, _ => w), via[e := w])
  {
    var n := |walks| - 1;
    var w := walks[n] + [e];
    var walks', via' := walks[..n] + seq(count, _ => w), via[e := w];
    assert w[..|w| - 1] == walks[n] && IsVia(via, walks[n]);
    forall x | IsVia(via, x) ensures IsVia(via', x) {}
    forall x | x in via' ensures LeadsOnFrom(via', x) {
      if x != e { assert LeadsOnFrom(via, x); }
    }
  }

  lemma RootedRest(walks: seq<seq<Edge>>, via: map<Edge, seq<Edge>>)
    requires Rooted(walks, via) && walks != []
    ensures Rooted(walks[..|walks| - 1], via)
  {
  }

  /** Every found edge is within reach, and whatever the neighbours of a found edge below the limit are, they are
      found. */
  ghost predicate SearchDone(net: Net, start: Edge, limit: real, found: set<Edge>, via: map<Edge, seq<Edge>>) {
    SearchInv(net, start, limit, [], [], found, via)
  }

  lemma LengthSumAppend(net: Net, chain: seq<Edge>, e: Edge)
    ensures LengthSum(net, chain + [e]) == LengthSum(net, chain) + net.length(e)
  {
    assert (chain + [e])[..|chain|] == chain;
  }

  lemma {:induction false} LengthSumNonNegative(net: Net, chain: seq<Edge>)
    requires net.Valid() && forall x :: x in chain ==> x in net.edges
    ensures LengthSum(net, chain) >= 0.0
  {
    if chain != [] {
      LengthSumNonNegative(net, chain[..|chain| - 1]);
      assert chain[|chain| - 1] in chain && net.EdgeValid(chain[|chain| - 1]);
    }
  }

  lemma WalkSums(net: Net, walk: seq<Edge>, e: Edge)
    requires walk != []
    ensures (walk + [e])[1..] == walk[1..] + [e] && (walk + [e])[1..|walk|] == walk[1..]
    ensures LengthSum(net, (walk + [e])[1..]) == LengthSum(net, walk[1..]) + net.length(e)
  {
    assert (walk + [e])[1..] == walk[1..] + [e] && (walk + [e])[1..|walk|] == walk[1..];
    LengthSumAppend(net, walk[1..], e);
  }

  /** The walk by which a newly found edge is explained. */
  lemma ExtendedWalk(net: Net, start: Edge, limit: real, found: set<Edge>, entry: Entry, walk: seq<Edge>)
    requires net.Valid() && Justified(net, start, found, entry, walk)
    requires entry.edge !in found && entry.dist < limit && entry.edge in net.edges
    ensures WithinReach(net, start, entry.edge, limit, walk + [entry.edge])
    ensures LengthSum(net, (walk + [entry.edge])[1..]) == Behind(net, entry.edge, entry.dist)
  {
    var e := entry.edge;
    var w := walk + [e];
    WalkSums(net, walk, e);
    assert LengthSum(net, walk[1..]) >= 0.0 by {
      assert forall x :: x in walk[1..] ==> x in walk;
      LengthSumNonNegative(net, walk[1..]);
    }
    hide LengthSum, Net.Valid, IsWalk, Distinct;
    WalkExtends(net, walk, e);
  }

  lemma WalkExtends(net: Net, walk: seq<Edge>, e: Edge)
    requires IsWalk(net, walk) && e in net.edges && e in net.next(walk[|walk| - 1])
    ensures IsWalk(net, walk + [e])
    ensures Distinct(walk) && e !in walk ==> Distinct(walk + [e])
  {
    var w := walk + [e];
    forall i | 0 <= i < |w| - 1 ensures w[i + 1] in net.next(w[i]) {
      if i < |walk| - 1 { assert walk[i + 1] in net.next(walk[i]); }
    }
    assert forall i :: 0 <= i < |walk| ==> w[i] in walk;
  }

  lemma JustifiedAfter(net: Net, start: Edge, limit: real, found: set<Edge>, entry: Entry, w: seq<Edge>, m: Edge)
    requires WithinReach(net, start, entry.edge, limit, w) && m in net.next(entry.edge)
    requires (forall e :: e in w ==> e in found) && LengthSum(net, w[1..]) == Behind(net, entry.edge, entry.dist)
    ensures Justified(net, start, found, Entry(m, Behind(net, entry.edge, entry.dist)), w)
  {
  }

  lemma AllJustifiedAfter(net: Net, start: Edge, found: set<Edge>, found': set<Edge>, queue: seq<Entry>,
                          walks: seq<seq<Edge>>, pushed: seq<Entry>, w: seq<Edge>)
    requires AllJustified(net, start, found, queue, walks) && queue != [] && found <= found'
    requires forall i :: 0 <= i < |pushed| ==> Justified(net, start, found', pushed[i], w)
    ensures AllJustified(net, start, found', queue[..|queue| - 1] + pushed,
      walks[..|queue| - 1] + seq(|pushed|, _ => w))
  {
    var n := |queue| - 1;
    var queue', walks' := queue[..n] + pushed, walks[..n] + seq(|pushed|, _ => w);
    forall i | 0 <= i < |queue'| ensures Justified(net, start, found', queue'[i], walks'[i]) {
      if i < n {
        assert Justified(net, start, found, queue[i], walks[i]);
      } else {
        assert Justified(net, start, found', pushed[i - n], w);
      }
    }
  }

  lemma ExplainedAfter(net: Net, start: Edge, limit: real, found: set<Edge>, via: map<Edge, seq<Edge>>, e: Edge,
                       w: seq<Edge>)
    requires Explained(net, start, limit, found, via) && WithinReach(net, start, e, limit, w)
    requires forall x :: x in w ==> x in found + {e}
    ensures Explained(net, start, limit, found + {e}, via[e := w])
  {
    hide WithinReach;
  }

  lemma AllFollowedAfter(net: Net, limit: real, queue: seq<Entry>, found: set<Edge>, via: map<Edge, seq<Edge>>,
                         w: seq<Edge>)
    requires queue != [] && AllFollowed(net, limit, queue, found, via) && w != []
    requires var q := queue[|queue| - 1]; q.edge !in found && LengthSum(net, w[1..]) == Behind(net, q.edge, q.dist)
    ensures var q := queue[|queue| - 1];
      AllFollowed(net, limit, queue[..|queue| - 1] + Pushed(net.next(q.edge), Behind(net, q.edge, q.dist)),
        found + {q.edge}, via[q.edge := w])
  {
    var q := queue[|queue| - 1];
    var pushed := Pushed(net.next(q.edge), Behind(net, q.edge, q.dist));
    var queue' := queue[..|queue| - 1] + pushed;
    var found', via' := found + {q.edge}, via[q.edge := w];
    hide LengthSum, Behind;
    forall e, m | e in found' && m in net.next(e)
      ensures e in via' && via'[e] != [] && Followed(net, limit, found', via'[e], queue', m)
    {
      if e == q.edge {
        var i :| 0 <= i < |net.next(e)| && net.next(e)[i] == m;
        assert pushed[i] in pushed;
      } else {
        assert Followed(net, limit, found, via[e], queue, m);
        var x := Entry(m, LengthSum(net, via[e][1..]));
        if x in queue && x != q { assert x in queue[..|queue| - 1]; }
      }
    }
  }

  /** The step that adds an edge. */
  lemma AddStep(net: Net, start: Edge, limit: real, queue: seq<Entry>, walks: seq<seq<Edge>>, found: set<Edge>,
                via: map<Edge, seq<Edge>>)
    returns (walks': seq<seq<Edge>>, via': map<Edge, seq<Edge>>)
    requires net.Valid() && InNet(net, queue) && queue != [] && SearchInv(net, start, limit, queue, walks, found, via)
    requires var q := queue[|queue| - 1]; q.edge !in found && q.dist < limit
    ensures var q := queue[|queue| - 1];
      SearchInv(net, start, limit, queue[..|queue| - 1] + Pushed(net.next(q.edge), Behind(net, q.edge, q.dist)), walks',
        found + {q.edge}, via')
  {
    var n := |queue| - 1;
    var q := queue[n];
    var walk := walks[n];
    var w, found' := walk + [q.edge], found + {q.edge};
    var pushed := Pushed(net.next(q.edge), Behind(net, q.edge, q.dist));
    walks', via' := walks[..n] + seq(|pushed|, _ => w), via[q.edge := w];
    assert Justified(net, start, found, q, walk);
    RestInNet(net, queue);
    ExtendedWalk(net, start, limit, found, q, walk);
    assert forall x :: x in w ==> x in found';
    assert q.edge !in via;
    hide LengthSum, Net.Valid, Explained, AllFollowed, AllJustified, InNet, Rooted;
    forall i | 0 <= i < |pushed| ensures Justified(net, start, found', pushed[i], w) {
      JustifiedAfter(net, start, limit, found', q, w, net.next(q.edge)[i]);
    }
    hide WithinReach, Justified;
    AllJustifiedAfter(net, start, found, found', queue, walks, pushed, w);
    ExplainedAfter(net, start, limit, found, via, q.edge, w);
    AllFollowedAfter(net, limit, queue, found, via, w);
    RootedAfter(walks, via, q.edge, |pushed|);
  }

  lemma SkipStep(net: Net, start: Edge, limit: real, queue: seq<Entry>, walks: seq<seq<Edge>>, found: set<Edge>,
                 via: map<Edge, seq<Edge>>)
    requires queue != [] && SearchInv(net, start, limit, queue, walks, found, via)
    requires var q := queue[|queue| - 1]; q.edge in found || q.dist >= limit
    ensures SearchInv(net, start, limit, queue[..|queue| - 1], walks[..|queue| - 1], found, via)
  {
    var q, rest := queue[|queue| - 1], queue[..|queue| - 1];
    RootedRest(walks, via);
    hide LengthSum, Explained, Justified, Rooted;
    assert AllJustified(net, start, found, rest, walks[..|queue| - 1]);
    forall e, m | e in found && m in net.next(e)
      ensures e in via && via[e] != [] && Followed(net, limit, found, via[e], rest, m)
    {
      assert Followed(net, limit, found, via[e], queue, m);
      var x := Entry(m, LengthSum(net, via[e][1..]));
      if x in queue && x != q { assert x in rest; }
    }
  }

  lemma {:induction false} SearchFinds(net: Net, start: Edge, limit: real, queue: seq<Entry>, walks: seq<seq<Edge>>,
                                       found: set<Edge>, via: map<Edge, seq<Edge>>) returns (via': map<Edge, seq<Edge>>)
    requires net.Valid() && InNet(net, queue) && SearchInv(net, start, limit, queue, walks, found, via)
    ensures SearchDone(net, start, limit, Search(net, limit, queue, found), via')
    decreases |Open(net, found)|, |queue|
  {
    if queue == [] {
      via' := via;
    } else {
      var q := queue[|queue| - 1];
      if q.edge !in found && q.dist < limit {
        OpenShrinks(net, found, q.edge);
        RestInNet(net, queue);
        PushedInNet(net, queue[..|queue| - 1], q.edge, Behind(net, q.edge, q.dist));
        var walks', via1 := AddStep(net, start, limit, queue, walks, found, via);
        hide SearchInv;
        via' := SearchFinds(net, start, limit,
          queue[..|queue| - 1] + Pushed(net.next(q.edge), Behind(net, q.edge, q.dist)),
                            walks', found + {q.edge}, via1);
      } else {
        RestInNet(net, queue);
        SkipStep(net, start, limit, queue, walks, found, via);
        via' := SearchFinds(net, start, limit, queue[..|queue| - 1], walks[..|queue| - 1], found, via);
      }
    }
  }

  /** What the search finds from a start edge: nothing when the limit is -1 or less, otherwise the start, only
      edges within reach, and every neighbour of an edge that was itself found at a distance below the limit. */
  lemma TravelFinds(net: Net, start: Edge, limit: real) returns (via: map<Edge, seq<Edge>>)
    requires net.Valid() && start in net.edges
    ensures limit <= -1.0 ==> TravelSet(net, start, limit) == {}
    ensures limit > -1.0 ==> SearchDone(net, start, limit, TravelSet(net, start, limit), via)
  {
    via := map[];
    var queue := [Entry(start, -1.0)];
    if limit > -1.0 {
      var walks;
      walks, via := AfterStart(net, start, limit);
      RestInNet(net, queue);
      OpenShrinks(net, {}, start);
      assert queue[..0] == [] && {} + {start} == {start};
      var pushed := Pushed(net.next(start), 0.0);
      PushedInNet(net, [], start, 0.0);
      assert [] + pushed == pushed;
      hide Net.Valid, InNet, SearchInv, Open, Pushed;
      via := SearchFinds(net, start, limit, pushed, walks, {start}, via);
    } else {
      SearchStops(net, limit, queue);
    }
  }

  /** Whatever is found is the start or lies behind a walk whose edges before it are together shorter than the limit;
      and a neighbour of an edge is found when the edge was, at a distance below the limit. */
  lemma FoundWithinReach(net: Net, start: Edge, limit: real, e: Edge) returns (walk: seq<Edge>)
    requires net.Valid() && start in net.edges && e in TravelSet(net, start, limit)
    ensures WithinReach(net, start, e, limit, walk)
    ensures forall n :: n in net.next(e) && LengthSum(net, walk[1..]) < limit ==> n in TravelSet(net, start, limit)
  {
    var via := TravelFinds(net, start, limit);
    walk := via[e];
    var found := TravelSet(net, start, limit);
    hide Net.Valid, TravelSet, LengthSum;
    forall n | n in net.next(e) && LengthSum(net, walk[1..]) < limit ensures n in found {
      assert Followed(net, limit, found, via[e], [], n);
    }
  }

  lemma SearchStops(net: Net, limit: real, queue: seq<Entry>)
    requires net.Valid() && InNet(net, queue) && |queue| == 1 && queue[0].dist >= limit
    ensures Search(net, limit, queue, {}) == {}
  {
    assert queue[..0] == [];
    assert Search(net, limit, queue[..0], {}) == {};
  }

  lemma AfterStart(net: Net, start: Edge, limit: real) returns (walks: seq<seq<Edge>>, via: map<Edge, seq<Edge>>)
    requires start in net.edges && limit > -1.0
    ensures SearchInv(net, start, limit, Pushed(net.next(start), 0.0), walks, {start}, via)
  {
    var next := net.next(start);
    var pushed := Pushed(next, 0.0);
    walks, via := seq(|pushed|, _ => [start]), map[start := [start]];
    assert [start][1..] == [];
    assert Rooted(walks, via);
    assert AllFollowed(net, limit, pushed, {start}, via) by {
      forall n | n in next ensures Followed(net, limit, {start}, via[start], pushed, n) {
        var i :| 0 <= i < |next| && next[i] == n;
        assert pushed[i] in pushed;
      }
    }
    assert AllJustified(net, start, {start}, pushed, walks) by {
      forall i | 0 <= i < |pushed| ensures Justified(net, start, {start}, pushed[i], walks[i]) {
        assert next[i] in next;
      }
    }
  }

  lemma {:induction false} RemoveOne(net: Net, chain: seq<Edge>, k: nat)
    requires k < |chain|
    ensures LengthSum(net, chain) == LengthSum(net, chain[..k] + chain[k + 1..]) + net.length(chain[k])
  {
    var n := |chain| - 1;
    if k < n {
      RemoveOne(net, chain[..n], k);
      assert chain[..n][..k] + chain[..n][k + 1..] == (chain[..k] + chain[k + 1..])[..n - 1];
    } else {
      assert chain[..k] + chain[k + 1..] == chain[..n];
    }
  }

  /** Distinct edges of a list of distinct edges are together no longer than the list. */
  lemma {:induction false} DistinctSum(net: Net, chain: seq<Edge>, all: seq<Edge>)
    requires Distinct(chain) && Distinct(all) && (forall x :: x in chain ==> x in all)
    requires forall x :: x in all ==> net.length(x) >= 0.0
    ensures LengthSum(net, chain) <= LengthSum(net, all)
    decreases |chain|
  {
    if chain == [] {
      AllNonNegative(net, all);
    } else {
      var last, front := chain[|chain| - 1], chain[..|chain| - 1];
      assert last in chain;
      var k :| 0 <= k < |all| && all[k] == last;
      var rest := all[..k] + all[k + 1..];
      forall x | x in front ensures x in rest {
        assert x in chain;
        var i :| 0 <= i < |all| && all[i] == x;
        assert i != k;
        assert rest[if i < k then i else i - 1] == x;
      }
      assert forall x :: x in rest ==> x in all;
      DistinctSum(net, front, rest);
      RemoveOne(net, all, k);
    }
  }

  lemma {:induction false} AllNonNegative(net: Net, all: seq<Edge>)
    requires forall x :: x in all ==> net.length(x) >= 0.0
    ensures LengthSum(net, all) >= 0.0
  {
    if all != [] { AllNonNegative(net, all[..|all| - 1]); }
  }

  /** With a limit above the total length the search finds the whole connected component, whatever the order. */
  lemma WholeComponent(net: Net, start: Edge, limit: real, walk: seq<Edge>)
    requires net.Valid() && start in net.edges && limit > LengthSum(net, net.edges)
    requires IsWalk(net, walk) && walk[0] == start
    ensures walk[|walk| - 1] in TravelSet(net, start, limit)
    decreases |walk|
  {
    hide *;
    StartFound(net, start, limit);
    WalkBegins(net, walk);
    if |walk| > 1 {
      var n := |walk| - 1;
      var x := walk[n - 1];
      WholeComponent(net, start, limit, walk[..n]);
      var w := FoundWithinReach(net, start, limit, x);
      SumBelow(net, start, x, limit, w);
    }
  }

  lemma StartFound(net: Net, start: Edge, limit: real)
    requires net.Valid() && start in net.edges && limit > LengthSum(net, net.edges)
    ensures start in TravelSet(net, start, limit)
  {
    forall y | y in net.edges ensures net.length(y) >= 0.0 { EdgeFacts(net, y); }
    AllNonNegative(net, net.edges);
    hide Net.Valid, TravelSet, LengthSum, Rooted, AllJustified, AllFollowed;
    var via := TravelFinds(net, start, limit);
  }

  lemma WalkBegins(net: Net, walk: seq<Edge>)
    requires IsWalk(net, walk)
    ensures walk != []
    ensures |walk| > 1 ==> IsWalk(net, walk[..|walk| - 1]) && walk[|walk| - 1] in net.next(walk[|walk| - 2])
  {
    if |walk| > 1 {
      var n := |walk| - 2;
      assert walk[n + 1] in net.next(walk[n]);
      var front := walk[..n + 1];
      forall i | 0 <= i < |front| - 1 ensures front[i + 1] in net.next(front[i]) {
        assert walk[i + 1] in net.next(walk[i]);
      }
    }
  }

  /** A walk of distinct edges is no longer than all edges together. */
  lemma SumBelow(net: Net, start: Edge, x: Edge, limit: real, w: seq<Edge>)
    requires net.Valid() && limit > LengthSum(net, net.edges) && WithinReach(net, start, x, limit, w)
    ensures LengthSum(net, w[1..]) < limit
  {
    hide LengthSum;
    assert forall y :: y in w[1..] ==> y in w;
    forall y | y in net.edges ensures net.length(y) >= 0.0 { EdgeFacts(net, y); }
    DistinctSum(net, w[1..], net.edges);
  }

  lemma {:induction false} AllSkipped(net: Net, limit: real, queue: seq<Entry>, found: set<Edge>)
    requires net.Valid() && InNet(net, queue)
    requires forall q :: q in queue ==> q.edge in found || q.dist >= limit
    ensures Search(net, limit, queue, found) == found
    decreases |queue|
  {
    if queue != [] {
      RestInNet(net, queue);
      assert queue[|queue| - 1] in queue;
      AllSkipped(net, limit, queue[..|queue| - 1], found);
    }
  }

  /** Roads 0, 1 and 2 meet at one node and 3 continues 1. */
  function Fork(): Net {
    Net([0, 1, 2, 3], _ => 1.0,
        e => if e == 0 then [1, 2, 0, 0]
             else if e == 1 then [3, 1, 1, 2, 0]
             else if e == 2 then [2, 1, 2, 0]
             else [3, 3, 1],
        _ => [{}], _ => {})
  }

  lemma ForkValid()
    ensures Fork().Valid()
  {
    forall e | e in Fork().edges ensures Fork().EdgeValid(e) {
    }
  }

  /** One step of the search, from one worklist and set to the next. */
  ghost predicate Leads(net: Net, limit: real, queue: seq<Entry>, found: set<Edge>, queue': seq<Entry>,
                        found': set<Edge>) {
    && queue != []
    && var q, rest := queue[|queue| - 1], queue[..|queue| - 1];
      if q.edge !in found && q.dist < limit
      then queue' == rest + Pushed(net.next(q.edge), Behind(net, q.edge, q.dist)) && found' == found + {q.edge}
      else queue' == rest && found' == found
  }

  lemma LeadsOn(net: Net, limit: real, queue: seq<Entry>, found: set<Edge>, queue': seq<Entry>, found': set<Edge>)
    requires net.Valid() && InNet(net, queue) && Leads(net, limit, queue, found, queue', found')
    ensures InNet(net, queue') && Search(net, limit, queue, found) == Search(net, limit, queue', found')
  {
    hide Search;
    SearchStep(net, limit, queue, found);
  }

  /** The worklist and the found set before each step of the search from edge 0. */
  function ForkQueue(k: nat): seq<Entry> {
    if k == 0 then [Entry(0, -1.0)]
    else if k == 1 then [Entry(1, 0.0), Entry(2, 0.0), Entry(0, 0.0), Entry(0, 0.0)]
    else if k == 2 then [Entry(1, 0.0), Entry(2, 0.0), Entry(0, 0.0)]
    else if k == 3 then [Entry(1, 0.0), Entry(2, 0.0)]
    else if k == 4 then [Entry(1, 0.0), Entry(2, 1.0), Entry(1, 1.0), Entry(2, 1.0), Entry(0, 1.0)]
    else if k == 5 then [Entry(1, 0.0), Entry(2, 1.0), Entry(1, 1.0), Entry(2, 1.0)]
    else if k == 6 then [Entry(1, 0.0), Entry(2, 1.0), Entry(1, 1.0)]
    else [Entry(1, 0.0), Entry(2, 1.0), Entry(3, 2.0), Entry(1, 2.0), Entry(1, 2.0), Entry(2, 2.0), Entry(0, 2.0)]
  }

  function ForkFound(k: nat): set<Edge> {
    if k == 0 then {} else if k < 4 then {0} else if k < 7 then {0, 2} else {0, 1, 2}
  }

  lemma ForkLeads(k: nat)
    requires k < 7
    ensures Leads(Fork(), 1.5, ForkQueue(k), ForkFound(k), ForkQueue(k + 1), ForkFound(k + 1))
  {
  }

  lemma {:induction false} ForkRun(k: nat)
    requires k <= 7 && Fork().Valid()
    ensures InNet(Fork(), ForkQueue(k)) && 0 in Fork().edges
    ensures TravelSet(Fork(), 0, 1.5) == Search(Fork(), 1.5, ForkQueue(k), ForkFound(k))
  {
    if k > 0 {
      ForkRun(k - 1);
      ForkLeads(k - 1);
      hide *;
      LeadsOn(Fork(), 1.5, ForkQueue(k - 1), ForkFound(k - 1), ForkQueue(k), ForkFound(k));
    }
  }

  lemma ForkEnd()
    ensures ForkFound(7) == {0, 1, 2} && forall q :: q in ForkQueue(7) ==> q.edge in ForkFound(7) || q.dist >= 1.5
  {
  }

  lemma ForkSearch()
    ensures Fork().Valid() && 0 in Fork().edges && TravelSet(Fork(), 0, 1.5) == {0, 1, 2}
  {
    hide *;
    ForkValid();
    ForkRun(7);
    ForkEnd();
    AllSkipped(Fork(), 1.5, ForkQueue(7), ForkFound(7));
  }

  /** Not every edge within reach is found: an edge counts with the distance of its first visit, and the last
      entry is visited first. */
  lemma WithinReachButMissed() returns (walk: seq<Edge>)
    ensures Fork().Valid() && 0 in Fork().edges
    ensures WithinReach(Fork(), 0, 3, 1.5, walk) && 3 !in TravelSet(Fork(), 0, 1.5)
  {
    ForkSearch();
    walk := [0, 1, 3];
    assert walk[1..2] == [1] && [1][..0] == [];
    assert LengthSum(Fork(), [1]) == LengthSum(Fork(), []) + 1.0;
    forall i | 0 <= i < 2 ensures walk[i + 1] in Fork().next(walk[i]) {
      assert Fork().next(0)[0] == 1 && Fork().next(1)[0] == 3;
    }
  }

  // ---------------------------------------------------------------- when everything within reach is found

  /** All walks by which the search may come to `x` agree on whether the neighbours of `x` are still below the limit. */
  ghost predicate AgreeAt(net: Net, start: Edge, limit: real, x: Edge) {
    forall u, w :: WithinReach(net, start, x, limit, u) && WithinReach(net, start, x, limit, w) ==>
      (LengthSum(net, u[1..]) < limit <==> LengthSum(net, w[1..]) < limit)
  }

  ghost predicate Agree(net: Net, start: Edge, limit: real) { forall x :: AgreeAt(net, start, limit, x) }

  /** The search finds every edge within reach. */
  ghost predicate FindsAll(net: Net, start: Edge, limit: real)
    requires net.Valid() && start in net.edges
  {
    forall e, walk :: WithinReach(net, start, e, limit, walk) ==> e in TravelSet(net, start, limit)
  }

  /** The walk to an edge within reach comes from an edge within reach, whose neighbours are below the limit. */
  lemma WalkFront(net: Net, start: Edge, e: Edge, limit: real, walk: seq<Edge>)
    requires net.Valid() && WithinReach(net, start, e, limit, walk) && |walk| > 1
    ensures var n := |walk| - 1;
      && WithinReach(net, start, walk[n - 1], limit, walk[..n]) && e in net.next(walk[n - 1])
      && LengthSum(net, walk[..n][1..]) < limit
  {
    var n := |walk| - 1;
    var front := walk[..n];
    assert walk[n] == e && walk[0] != walk[n];
    assert front[1..] == walk[1..n];
    assert walk[n - 1 + 1] in net.next(walk[n - 1]);
    if n > 1 {
      assert walk[1..n] == walk[1..n - 1] + [walk[n - 1]] && front[1..n - 1] == walk[1..n - 1];
      LengthSumAppend(net, walk[1..n - 1], walk[n - 1]);
      EdgeFacts(net, walk[n - 1]);
    }
    hide LengthSum, Net.Valid;
  }

  lemma {:induction false} FollowsWalk(net: Net, start: Edge, limit: real, e: Edge, walk: seq<Edge>)
    requires net.Valid() && start in net.edges && limit > -1.0 && WithinReach(net, start, e, limit, walk)
    requires forall i :: 0 <= i < |walk| - 1 ==> AgreeAt(net, start, limit, walk[i])
    ensures e in TravelSet(net, start, limit)
    decreases |walk|
  {
    hide Net.Valid, LengthSum, TravelSet, WithinReach, IsWalk, Distinct;
    var via := TravelFinds(net, start, limit);
    var found := TravelSet(net, start, limit);
    WalkEnds(net, start, e, limit, walk);
    if |walk| > 1 {
      var n := |walk| - 1;
      var x := walk[n - 1];
      WalkFront(net, start, e, limit, walk);
      FollowsWalk(net, start, limit, x, walk[..n]);
      assert WithinReach(net, start, x, limit, via[x]);
      assert AgreeAt(net, start, limit, x);
      WalkEnds(net, start, x, limit, via[x]);
      assert Followed(net, limit, found, via[x], [], e);
    }
  }

  lemma WalkEnds(net: Net, start: Edge, e: Edge, limit: real, walk: seq<Edge>)
    requires WithinReach(net, start, e, limit, walk)
    ensures walk != [] && walk[0] == start && walk[|walk| - 1] == e && (|walk| == 1 ==> e == start)
  {
  }

  /** Where all walks agree, everything within reach is found, in whatever order neighbours are listed. */
  lemma AgreementFinds(net: Net, start: Edge, limit: real)
    requires net.Valid() && start in net.edges && limit > -1.0 && Agree(net, start, limit)
    ensures FindsAll(net, start, limit)
  {
    forall e, walk | WithinReach(net, start, e, limit, walk) ensures e in TravelSet(net, start, limit) {
      hide Net.Valid, AgreeAt, WithinReach;
      FollowsWalk(net, start, limit, e, walk);
    }
  }

  /** A limit above the total length makes all walks agree. */
  lemma LargeLimitAgrees(net: Net, start: Edge, limit: real)
    requires net.Valid() && limit > LengthSum(net, net.edges)
    ensures Agree(net, start, limit)
  {
    hide WithinReach, LengthSum, Net.Valid;
    forall x, w | WithinReach(net, start, x, limit, w) ensures w != [] && LengthSum(net, w[1..]) < limit {
      WalkEnds(net, start, x, limit, w);
      SumBelow(net, start, x, limit, w);
    }
  }

  // ---------------------------------------------------------------- road networks

  /** The nodes of a road network: the ends of each edge, and the edges that leave and enter each node, as listed. */
  datatype Nodes = Nodes(from: Edge -> nat, to: Edge -> nat, outgoing: nat -> seq<Edge>, incoming: nat -> seq<Edge>) {
    predicate At(e: Edge, p: nat) { from(e) == p || to(e) == p }
  }

  /** The lists of the two ends of an edge, in the order in which they are traversed. */
  function NextAt(v: Nodes, e: Edge): seq<Edge> {
    v.outgoing(v.to(e)) + v.incoming(v.to(e)) + v.outgoing(v.from(e)) + v.incoming(v.from(e))
  }

  /** The neighbours of each edge are the lists of its two ends. */
  ghost predicate OnNodes(net: Net, v: Nodes) {
    && (forall p, e :: e in v.outgoing(p) <==> e in net.edges && v.from(e) == p)
    && (forall p, e :: e in v.incoming(p) <==> e in net.edges && v.to(e) == p)
    && (forall e :: e in net.edges ==> net.next(e) == NextAt(v, e))
  }

  lemma NextShares(net: Net, v: Nodes, e: Edge, n: Edge)
    requires OnNodes(net, v) && e in net.edges
    ensures n in net.next(e) <==> n in net.edges && (v.At(n, v.to(e)) || v.At(n, v.from(e)))
  {
  }

  /** The search may come to node `p` for the first time by this walk. */
  ghost predicate Arrives(net: Net, v: Nodes, start: Edge, limit: real, p: nat, w: seq<Edge>) {
    && w != [] && WithinReach(net, start, w[|w| - 1], limit, w) && v.At(w[|w| - 1], p)
    && forall i :: 0 <= i < |w| - 1 ==> !v.At(w[i], p)
  }

  /** All walks by which the search may first come to `p` agree on whether the edges at `p` are still below the
      limit. */
  ghost predicate NodeAgrees(net: Net, v: Nodes, start: Edge, limit: real, p: nat) {
    forall u, w :: Arrives(net, v, start, limit, p, u) && Arrives(net, v, start, limit, p, w) ==>
      (LengthSum(net, u[1..]) < limit <==> LengthSum(net, w[1..]) < limit)
  }

  /** For each end of each edge all walks to the edge agree, or all first walks to that end do. */
  ghost predicate RoadsAgree(net: Net, v: Nodes, start: Edge, limit: real) {
    forall x, p :: x in net.edges && v.At(x, p) ==> AgreeAt(net, start, limit, x) || NodeAgrees(net, v, start, limit, p)
  }

  /** The walks by which edges were found: each is within reach, those of the edges on it are its beginnings, and
      neighbours of an edge found below the limit are found. */
  ghost predicate Found(net: Net, start: Edge, limit: real, found: set<Edge>, via: map<Edge, seq<Edge>>) {
    && via.Keys == found && start in found
    && (forall e :: e in found ==> WithinReach(net, start, e, limit, via[e]) && LeadsOnFrom(via, e))
    && (forall e, n :: e in found && n in net.next(e) && LengthSum(net, via[e][1..]) < limit ==> n in found)
  }

  lemma TravelFound(net: Net, start: Edge, limit: real) returns (via: map<Edge, seq<Edge>>)
    requires net.Valid() && start in net.edges && limit > -1.0
    ensures Found(net, start, limit, TravelSet(net, start, limit), via)
  {
    via := TravelFinds(net, start, limit);
    var found := TravelSet(net, start, limit);
    hide Net.Valid, TravelSet, LengthSum, WithinReach, AllJustified;
    forall e, n | e in found && n in net.next(e) && LengthSum(net, via[e][1..]) < limit ensures n in found {
      assert Followed(net, limit, found, via[e], [], n);
    }
  }

  lemma FoundParent(net: Net, start: Edge, limit: real, found: set<Edge>, via: map<Edge, seq<Edge>>, e: Edge)
    requires Found(net, start, limit, found, via) && e in found
    ensures e in via && via[e] != [] && via[e][|via[e]| - 1] == e && WithinReach(net, start, e, limit, via[e])
    ensures |via[e]| > 1 ==>
      var x := via[e][|via[e]| - 2]; x in found && x in via && via[x] == via[e][..|via[e]| - 1]
  {
    assert LeadsOnFrom(via, e);
  }

  /** When an edge at `p` is found, one is found by a walk that does not come past `p` before. */
  lemma {:induction false} FirstAtNode(net: Net, v: Nodes, start: Edge, limit: real, found: set<Edge>,
                                       via: map<Edge, seq<Edge>>, p: nat, e: Edge) returns (y: Edge)
    requires Found(net, start, limit, found, via) && e in found && v.At(e, p)
    ensures y in found && y in via && v.At(y, p) && via[y] != [] && via[y][|via[y]| - 1] == y
    ensures Arrives(net, v, start, limit, p, via[y])
    decreases if e in via then |via[e]| else 0
  {
    hide Found, WithinReach;
    FoundParent(net, start, limit, found, via, e);
    var w := via[e];
    if i :| 0 <= i < |w| - 1 && v.At(w[i], p) {
      BeginningsFound(net, start, limit, found, via, e, i);
      y := FirstAtNode(net, v, start, limit, found, via, p, w[i]);
    } else {
      y := e;
    }
  }

  lemma {:induction false} BeginningsFound(net: Net, start: Edge, limit: real, found: set<Edge>,
                                           via: map<Edge, seq<Edge>>, e: Edge, i: nat)
    requires Found(net, start, limit, found, via) && e in found && e in via && i < |via[e]|
    ensures via[e][i] in found && via[e][i] in via && via[via[e][i]] == via[e][..i + 1]
    decreases if e in via then |via[e]| else 0
  {
    hide Found, WithinReach;
    FoundParent(net, start, limit, found, via, e);
    var w, n := via[e], |via[e]| - 1;
    if i == n {
      assert w[..n + 1] == w;
    } else {
      BeginningsFound(net, start, limit, found, via, w[n - 1], i);
      assert w[..n][..i + 1] == w[..i + 1] && w[..n][i] == w[i];
    }
  }

  /** The beginning of a walk up to its first edge at `p` is a first walk to `p`, and no longer. */
  lemma ArrivesFirst(net: Net, v: Nodes, start: Edge, limit: real, p: nat, x: Edge, u: seq<Edge>) returns (w: seq<Edge>)
    requires net.Valid() && WithinReach(net, start, x, limit, u) && v.At(x, p) && limit > -1.0
    ensures Arrives(net, v, start, limit, p, w) && LengthSum(net, w[1..]) <= LengthSum(net, u[1..])
  {
    var k := FirstPosition(v, u, p);
    w := u[..k + 1];
    BeginningWithinReach(net, start, x, limit, u, k);
    assert forall i :: 0 <= i < k ==> w[i] == u[i];
  }

  lemma FirstPosition(v: Nodes, u: seq<Edge>, p: nat) returns (k: nat)
    requires u != [] && v.At(u[|u| - 1], p)
    ensures k < |u| && v.At(u[k], p) && forall i :: 0 <= i < k ==> !v.At(u[i], p)
  {
    k := 0;
    while !v.At(u[k], p)
      invariant k < |u| && forall i :: 0 <= i < k ==> !v.At(u[i], p)
      decreases |u| - k
    {
      k := k + 1;
    }
  }

  lemma {:induction false} BeginningWithinReach(net: Net, start: Edge, x: Edge, limit: real, u: seq<Edge>, k: nat)
    requires net.Valid() && WithinReach(net, start, x, limit, u) && k < |u|
    ensures WithinReach(net, start, u[k], limit, u[..k + 1])
    ensures LengthSum(net, u[..k + 1][1..]) <= LengthSum(net, u[1..])
    decreases |u|
  {
    var n := |u| - 1;
    if k == n {
      assert u[..k + 1] == u;
    } else {
      hide Net.Valid;
      WalkFront(net, start, x, limit, u);
      FrontShorter(net, u);
      hide WithinReach, LengthSum;
      BeginningWithinReach(net, start, u[n - 1], limit, u[..n], k);
      assert u[..n][..k + 1] == u[..k + 1] && u[..n][k] == u[k];
    }
  }

  lemma FrontShorter(net: Net, u: seq<Edge>)
    requires net.Valid() && IsWalk(net, u) && |u| > 1
    ensures LengthSum(net, u[..|u| - 1][1..]) <= LengthSum(net, u[1..])
  {
    var n := |u| - 1;
    assert u[1..][..n - 1] == u[..n][1..] && u[1..][n - 1] == u[n];
    EdgeFacts(net, u[n]);
  }

  /** A node at which some edge was found, and to which a walk below the limit leads, has all its edges found. */
  lemma NodeOpens(net: Net, v: Nodes, start: Edge, limit: real, found: set<Edge>, via: map<Edge, seq<Edge>>, p: nat,
                  x: Edge, u: seq<Edge>, e: Edge)
    requires net.Valid() && OnNodes(net, v) && Found(net, start, limit, found, via) && limit > -1.0
    requires NodeAgrees(net, v, start, limit, p) && x in found && v.At(x, p) && e in net.edges && v.At(e, p)
    requires WithinReach(net, start, x, limit, u) && LengthSum(net, u[1..]) < limit
    ensures e in found
  {
    hide Net.Valid, OnNodes, WithinReach, LengthSum;
    var w := ArrivesFirst(net, v, start, limit, p, x, u);
    var y := FirstAtNode(net, v, start, limit, found, via, p, x);
    assert LengthSum(net, via[y][1..]) < limit;
    assert y in net.edges by { ArrivesIn(net, v, start, limit, p, via[y]); }
    NextShares(net, v, y, e);
  }

  lemma ArrivesIn(net: Net, v: Nodes, start: Edge, limit: real, p: nat, w: seq<Edge>)
    requires Arrives(net, v, start, limit, p, w)
    ensures w != [] && w[|w| - 1] in net.edges
  {
  }

  lemma {:induction false} FollowsRoads(net: Net, v: Nodes, start: Edge, limit: real, e: Edge, walk: seq<Edge>)
    requires net.Valid() && OnNodes(net, v) && start in net.edges && limit > -1.0
    requires RoadsAgree(net, v, start, limit) && WithinReach(net, start, e, limit, walk)
    ensures e in TravelSet(net, start, limit)
    decreases |walk|
  {
    hide Net.Valid, OnNodes, LengthSum, TravelSet, WithinReach, NodeAgrees;
    var via := TravelFound(net, start, limit);
    var found := TravelSet(net, start, limit);
    WalkEnds(net, start, e, limit, walk);
    if |walk| > 1 {
      var n := |walk| - 1;
      var x, front := walk[n - 1], walk[..n];
      WalkFront(net, start, e, limit, walk);
      FollowsRoads(net, v, start, limit, x, front);
      assert x in net.edges && e in net.edges by { BothIn(net, start, e, limit, walk); }
      NextShares(net, v, x, e);
      var p := if v.At(e, v.to(x)) then v.to(x) else v.from(x);
      assert v.At(x, p) && v.At(e, p);
      if NodeAgrees(net, v, start, limit, p) {
        NodeOpens(net, v, start, limit, found, via, p, x, front, e);
      } else {
        assert AgreeAt(net, start, limit, x);
      }
    }
  }

  lemma BothIn(net: Net, start: Edge, e: Edge, limit: real, walk: seq<Edge>)
    requires WithinReach(net, start, e, limit, walk) && |walk| > 1
    ensures walk[|walk| - 2] in net.edges && e in net.edges
  {
  }

  /** On a road network everything within reach is found, in whatever order the lists of the nodes are, when for each
      end of each edge all walks to the edge agree or all first walks to that end do. */
  lemma RoadsFind(net: Net, v: Nodes, start: Edge, limit: real)
    requires net.Valid() && OnNodes(net, v) && start in net.edges && limit > -1.0 && RoadsAgree(net, v, start, limit)
    ensures FindsAll(net, start, limit)
  {
    forall e, walk | WithinReach(net, start, e, limit, walk) ensures e in TravelSet(net, start, limit) {
      hide Net.Valid, OnNodes, RoadsAgree, WithinReach;
      FollowsRoads(net, v, start, limit, e, walk);
    }
  }

  /** Road 0 leads from node 0 to node 1, roads 1 and 2 both lead on from there to node 2, and each road has length 1;
      the lists of the nodes are in any order. */
  ghost predicate ThreeRoads(net: Net, v: Nodes) {
    && net.Valid() && OnNodes(net, v) && (forall e :: e in net.edges <==> 0 <= e < 3)
    && (forall e :: 0 <= e < 3 ==> net.length(e) == 1.0)
    && v.from(0) == 0 && v.to(0) == 1 && v.from(1) == 1 && v.to(1) == 2 && v.from(2) == 1 && v.to(2) == 2
  }

  /** Agreement of all walks is not needed: here two walks to road 1 disagree, and everything within reach is found. */
  lemma ThreeRoadsFound(net: Net, v: Nodes)
    requires ThreeRoads(net, v)
    ensures !Agree(net, 0, 1.5) && FindsAll(net, 0, 1.5)
  {
    hide *;
    ThreeRoadsBasics(net, v);
    ThreeRoadsDisagree(net, v);
    ThreeRoadsAgree(net, v);
    RoadsFind(net, v, 0, 1.5);
  }

  lemma ThreeRoadsBasics(net: Net, v: Nodes)
    requires ThreeRoads(net, v)
    ensures net.Valid() && OnNodes(net, v) && 0 in net.edges
  {
  }

  lemma ThreeRoadsNext(net: Net, v: Nodes)
    requires ThreeRoads(net, v)
    ensures 1 in net.next(0) && 2 in net.next(0) && 1 in net.next(2)
  {
    hide Net.Valid;
    NextShares(net, v, 0, 1);
    NextShares(net, v, 0, 2);
    NextShares(net, v, 2, 1);
  }

  lemma OneSum(net: Net, e: Edge)
    ensures LengthSum(net, [e]) == net.length(e)
  {
    assert [e][..0] == [];
    assert LengthSum(net, []) == 0.0;
  }

  lemma ThreeRoadsDisagree(net: Net, v: Nodes)
    requires ThreeRoads(net, v)
    ensures !Agree(net, 0, 1.5)
  {
    ThreeRoadsNext(net, v);
    hide Net.Valid, OnNodes;
    var u, w := [0, 1], [0, 2, 1];
    OneSum(net, 1);
    OneSum(net, 2);
    assert u[1..] == [1] && u[1..1] == [] && w[1..2] == [2] && w[1..] == [2] + [1];
    LengthSumAppend(net, [2], 1);
    assert WithinReach(net, 0, 1, 1.5, u);
    assert WithinReach(net, 0, 1, 1.5, w) by {
      forall i | 0 <= i < 2 ensures w[i + 1] in net.next(w[i]) {
      }
    }
    hide WithinReach, LengthSum;
    assert !AgreeAt(net, 0, 1.5, 1);
  }

  /** The first walk to node 1 is road 0, and a first walk to node 2 passes one of the other roads behind it. */
  lemma ThreeRoadsArrive(net: Net, v: Nodes, p: nat, w: seq<Edge>)
    requires ThreeRoads(net, v) && (p == 1 || p == 2) && Arrives(net, v, 0, 1.5, p, w)
    ensures LengthSum(net, w[1..]) < 1.5
  {
    hide Net.Valid, OnNodes;
    if |w| == 1 {
      assert w[1..] == [];
    } else {
      assert !v.At(w[0], p) && w[1] in net.edges && w[0] != w[1];
      assert |w| == 2;
      assert w[1..] == [w[1]];
      OneSum(net, w[1]);
    }
  }

  lemma ThreeRoadsAgree(net: Net, v: Nodes)
    requires ThreeRoads(net, v)
    ensures RoadsAgree(net, v, 0, 1.5)
  {
    hide Net.Valid, OnNodes, LengthSum;
    forall p, w | (p == 1 || p == 2) && Arrives(net, v, 0, 1.5, p, w) ensures w != [] && LengthSum(net, w[1..]) < 1.5 {
      ThreeRoadsArrive(net, v, p, w);
    }
    forall w | WithinReach(net, 0, 0, 1.5, w) ensures w == [0] {
    }
    hide Arrives, WithinReach;
    assert NodeAgrees(net, v, 0, 1.5, 1) && NodeAgrees(net, v, 0, 1.5, 2);
    assert AgreeAt(net, 0, 1.5, 0);
  }

  function ThreeNodes(): Nodes {
    Nodes(e => if e == 0 then 0 else 1, e => if e == 0 then 1 else 2,
          p => if p == 0 then [0] else if p == 1 then [1, 2] else [],
          p => if p == 1 then [0] else if p == 2 then [1, 2] else [])
  }

  function ThreeNet(): Net {
    Net([0, 1, 2], _ => 1.0, e => NextAt(ThreeNodes(), e), _ => [{}], _ => {})
  }

  lemma ThreeLists(p: nat, e: Edge)
    ensures e in ThreeNodes().outgoing(p) <==> e in ThreeNet().edges && ThreeNodes().from(e) == p
    ensures e in ThreeNodes().incoming(p) <==> e in ThreeNet().edges && ThreeNodes().to(e) == p
  {
  }

  lemma ThreeNext(e: Edge)
    ensures ThreeNet().next(e) == NextAt(ThreeNodes(), e)
  {
  }

  lemma ThreeOnNodes()
    ensures OnNodes(ThreeNet(), ThreeNodes())
  {
    hide ThreeNodes, ThreeNet, NextAt;
    forall p, e ensures e in ThreeNodes().outgoing(p) <==> e in ThreeNet().edges && ThreeNodes().from(e) == p {
      ThreeLists(p, e);
    }
    forall p, e ensures e in ThreeNodes().incoming(p) <==> e in ThreeNet().edges && ThreeNodes().to(e) == p {
      ThreeLists(p, e);
    }
    forall e | e in ThreeNet().edges ensures ThreeNet().next(e) == NextAt(ThreeNodes(), e) {
      ThreeNext(e);
    }
  }

  lemma ThreeValid()
    ensures ThreeNet().Valid()
  {
    var net := ThreeNet();
    assert Distinct(net.edges);
    forall e | e in net.edges ensures net.EdgeValid(e) {
      ThreeNeighbours(e);
    }
  }

  lemma ThreeNeighbours(e: Edge)
    requires e in ThreeNet().edges
    ensures forall n :: n in ThreeNet().next(e) ==> n in ThreeNet().edges
  {
    assert e == 0 || e == 1 || e == 2;
  }

  /** There is such a network. */
  lemma ThreeRoadsExist()
    ensures ThreeRoads(ThreeNet(), ThreeNodes())
  {
    hide OnNodes, Net.Valid, NextAt;
    ThreeValid();
    ThreeOnNodes();
  }

  /** The fork is a road network: roads 1 and 2 lead on from where road 0 ends, and road 3 from where road 1 ends. */
  function ForkNodes(): Nodes {
    Nodes(e => if e == 0 then 0 else if e == 3 then 2 else 1, e => e + 1,
          p => if p == 0 then [0] else if p == 1 then [1, 2] else if p == 2 then [3] else [],
          p => if p == 1 then [0] else if p == 2 then [1] else if p == 3 then [2] else if p == 4 then [3] else [])
  }

  lemma ForkLists(p: nat, e: Edge)
    ensures e in ForkNodes().outgoing(p) <==> e in Fork().edges && ForkNodes().from(e) == p
    ensures e in ForkNodes().incoming(p) <==> e in Fork().edges && ForkNodes().to(e) == p
  {
  }

  lemma ForkNext(e: Edge)
    requires e in Fork().edges
    ensures Fork().next(e) == NextAt(ForkNodes(), e)
  {
    assert e == 0 || e == 1 || e == 2 || e == 3;
  }

  lemma ForkOnNodes()
    ensures OnNodes(Fork(), ForkNodes())
  {
    hide Fork, ForkNodes, NextAt;
    forall p, e ensures e in ForkNodes().outgoing(p) <==> e in Fork().edges && ForkNodes().from(e) == p {
      ForkLists(p, e);
    }
    forall p, e ensures e in ForkNodes().incoming(p) <==> e in Fork().edges && ForkNodes().to(e) == p {
      ForkLists(p, e);
    }
    forall e | e in Fork().edges ensures Fork().next(e) == NextAt(ForkNodes(), e) {
      ForkNext(e);
    }
  }

  // ---------------------------------------------------------------- where walks disagree

  /** The list with one occurrence of `n` moved to its end. */
  function ToEnd(s: seq<Edge>, n: Edge): (r: seq<Edge>)
    requires n in s
    ensures r != [] && r[|r| - 1] == n && multiset(r) == multiset(s)
  {
    if s[0] == n then
      assert s == [s[0]] + s[1..];
      s[1..] + [n]
    else
      assert s == [s[0]] + s[1..];
      [s[0]] + ToEnd(s[1..], n)
  }

  /** `net'` is `net` with a road `d` of length 0 that only `x` leads to, and which leads back to `x`; the neighbours of
      the other edges are the same, listed in any order. */
  ghost predicate DeadEnd(net: Net, net': Net, x: Edge, d: Edge) {
    && net'.Valid() && x in net.edges && d !in net.edges && net'.edges == net.edges + [d]
    && net'.length(d) == 0.0 && net'.next(d) == [x]
    && (forall y :: y in net.edges ==> net'.length(y) == net.length(y))
    && (forall y :: y in net.edges ==>
      multiset(net'.next(y)) == multiset(net.next(y)) + if y == x then multiset{d} else multiset{})
  }

  /** The neighbours of an edge of the network lie behind it in either network; the dead end lies behind `x` only. */
  lemma DeadEndNext(net: Net, net': Net, x: Edge, d: Edge, y: Edge, n: Edge)
    requires DeadEnd(net, net', x, d) && y in net.edges
    ensures n != d ==> (n in net'.next(y) <==> n in net.next(y))
    ensures net.Valid() ==> (d in net'.next(y) <==> y == x)
  {
    assert n in net'.next(y) <==> n in multiset(net'.next(y));
    assert n in net.next(y) <==> n in multiset(net.next(y));
    assert d in net'.next(y) <==> d in multiset(net'.next(y));
    assert d in net.next(y) <==> d in multiset(net.next(y));
    if net.Valid() { EdgeFacts(net, y); }
  }

  /** On the old edges both networks measure the same. */
  lemma {:induction false} SameLengths(net: Net, net': Net, chain: seq<Edge>)
    requires forall y :: y in chain ==> net'.length(y) == net.length(y)
    ensures LengthSum(net', chain) == LengthSum(net, chain)
  {
    if chain != [] { SameLengths(net, net', chain[..|chain| - 1]); }
  }

  /** A walk of distinct edges passes no dead end on its way. */
  lemma NotThrough(net: Net, net': Net, x: Edge, d: Edge, start: Edge, e: Edge, limit: real, walk: seq<Edge>, i: nat)
    requires net.Valid() && DeadEnd(net, net', x, d) && start in net.edges && i < |walk|
    requires WithinReach(net', start, e, limit, walk) && (i < |walk| - 1 || e in net.edges)
    ensures walk[i] in net.edges
  {
    assert walk[i] in net'.edges;
    assert i > 0 ==> walk[i - 1] in net'.edges && walk[i - 1] != walk[i] && walk[i - 1 + 1] in net'.next(walk[i - 1]);
    assert i < |walk| - 1 ==> walk[i + 1] in net'.next(walk[i]);
    if walk[i] == d {
      DeadEndNext(net, net', x, d, walk[i - 1], d);
      assert false;
    }
  }

  /** A walk of the enlarged network to an old edge is one of the old network, and as long. */
  lemma WalkBack(net: Net, net': Net, x: Edge, d: Edge, start: Edge, e: Edge, limit: real, walk: seq<Edge>)
    requires net.Valid() && DeadEnd(net, net', x, d) && start in net.edges && e in net.edges
    requires WithinReach(net', start, e, limit, walk)
    ensures WithinReach(net, start, e, limit, walk) && LengthSum(net, walk[1..]) == LengthSum(net', walk[1..])
  {
    hide LengthSum, Net.Valid, DeadEnd;
    forall i | 0 <= i < |walk| ensures walk[i] in net.edges && net'.length(walk[i]) == net.length(walk[i]) {
      NotThrough(net, net', x, d, start, e, limit, walk, i);
      DeadEndOld(net, net', x, d, walk[i]);
    }
    forall i | 0 <= i < |walk| - 1 ensures walk[i + 1] in net.next(walk[i]) {
      assert walk[i + 1] in net'.next(walk[i]);
      DeadEndOld(net, net', x, d, walk[i + 1]);
      DeadEndNext(net, net', x, d, walk[i], walk[i + 1]);
    }
    SameTails(net, net', walk);
    assert IsWalk(net, walk);
  }

  lemma DeadEndOld(net: Net, net': Net, x: Edge, d: Edge, y: Edge)
    requires DeadEnd(net, net', x, d) && y in net.edges
    ensures y != d && net'.length(y) == net.length(y)
  {
  }

  lemma SameTails(net: Net, net': Net, walk: seq<Edge>)
    requires walk != [] && forall y :: y in walk ==> net'.length(y) == net.length(y)
    ensures LengthSum(net', walk[1..]) == LengthSum(net, walk[1..])
    ensures |walk| > 1 ==> LengthSum(net', walk[1..|walk| - 1]) == LengthSum(net, walk[1..|walk| - 1])
  {
    assert forall y :: y in walk[1..] ==> y in walk;
    SameLengths(net, net', walk[1..]);
    if |walk| > 1 {
      assert forall y :: y in walk[1..|walk| - 1] ==> y in walk;
      SameLengths(net, net', walk[1..|walk| - 1]);
    }
  }

  lemma DeadEndFound(net: Net, net': Net, x: Edge, d: Edge, start: Edge, limit: real)
    requires net.Valid() && DeadEnd(net, net', x, d) && start in net.edges && limit > -1.0 && Agree(net, start, limit)
    ensures FindsAll(net', start, limit)
  {
    assert start in net'.edges;
    forall e, walk | WithinReach(net', start, e, limit, walk) ensures e in TravelSet(net', start, limit) {
      forall i | 0 <= i < |walk| - 1 ensures AgreeAt(net', start, limit, walk[i]) {
        NotThrough(net, net', x, d, start, e, limit, walk, i);
        assert AgreeAt(net, start, limit, walk[i]);
        AgreeBack(net, net', x, d, start, limit, walk[i]);
      }
      hide DeadEnd, WithinReach, AgreeAt, Net.Valid;
      FollowsWalk(net', start, limit, e, walk);
    }
  }

  lemma AgreeBack(net: Net, net': Net, x: Edge, d: Edge, start: Edge, limit: real, y: Edge)
    requires net.Valid() && DeadEnd(net, net', x, d) && start in net.edges && y in net.edges
    requires AgreeAt(net, start, limit, y)
    ensures AgreeAt(net', start, limit, y)
  {
    hide DeadEnd, WithinReach, Net.Valid, LengthSum;
    forall w | WithinReach(net', start, y, limit, w)
      ensures w != [] && WithinReach(net, start, y, limit, w) && LengthSum(net, w[1..]) == LengthSum(net', w[1..])
    {
      WalkBack(net, net', x, d, start, y, limit, w);
      WalkEnds(net', start, y, limit, w);
    }
  }

  // The network in which a walk `w` is followed first.

  /** Every edge of the walk lists its successor last; a dead end of length 0 hangs behind the last edge. */
  function Detour(net: Net, w: seq<Edge>, d: Edge): Net {
    Net(net.edges + [d], (y: Edge) => if y == d then 0.0 else net.length(y), (y: Edge) => DetourNext(net, w, d, y),
        (y: Edge) => if y == d then [{}] else net.near(y), net.opposite)
  }

  function DetourNext(net: Net, w: seq<Edge>, d: Edge, y: Edge): seq<Edge> {
    if w == [] then net.next(y)
    else if y == d then [w[|w| - 1]]
    else if y == w[|w| - 1] then net.next(y) + [d]
    else
      var k := Position(w, y);
      if k + 1 < |w| && w[k + 1] in net.next(y) then ToEnd(net.next(y), w[k + 1]) else net.next(y)
  }

  /** First position of an edge in a walk, or the length of the walk. */
  function Position(w: seq<Edge>, y: Edge): (k: nat)
    ensures k <= |w| && (k < |w| ==> w[k] == y) && forall i :: 0 <= i < k ==> w[i] != y
  {
    if w == [] || w[0] == y then 0 else 1 + Position(w[1..], y)
  }

  lemma DetourNeighbours(net: Net, w: seq<Edge>, d: Edge, y: Edge)
    requires net.Valid() && y in net.edges && d !in net.edges && w != []
    ensures multiset(DetourNext(net, w, d, y)) ==
      multiset(net.next(y)) + if y == w[|w| - 1] then multiset{d} else multiset{}
  {
    EdgeFacts(net, y);
  }

  lemma DetourIsDeadEnd(net: Net, w: seq<Edge>, d: Edge)
    requires net.Valid() && d !in net.edges && w != [] && w[|w| - 1] in net.edges
    ensures DeadEnd(net, Detour(net, w, d), w[|w| - 1], d)
  {
    hide DetourNext, Net.EdgeValid;
    var net', x := Detour(net, w, d), w[|w| - 1];
    forall y | y in net.edges
      ensures multiset(net'.next(y)) == multiset(net.next(y)) + if y == x then multiset{d} else multiset{}
    {
      DetourNeighbours(net, w, d, y);
    }
    forall e | e in net'.edges ensures net'.EdgeValid(e) {
      DetourEdgeValid(net, w, d, e);
    }
    DetourOfDeadEnd(net, w, d);
    assert Distinct(net'.edges);
  }

  lemma DetourOfDeadEnd(net: Net, w: seq<Edge>, d: Edge)
    requires w != []
    ensures DetourNext(net, w, d, d) == [w[|w| - 1]]
  {
  }

  lemma DetourEdgeValid(net: Net, w: seq<Edge>, d: Edge, e: Edge)
    requires net.Valid() && d !in net.edges && w != [] && w[|w| - 1] in net.edges && (e == d || e in net.edges)
    ensures Detour(net, w, d).EdgeValid(e)
  {
    DetourOfDeadEnd(net, w, d);
    if e != d {
      EdgeFacts(net, e);
      DetourNeighbours(net, w, d, e);
      hide DetourNext;
      forall n | n in DetourNext(net, w, d, e) ensures n in net.edges + [d] {
        assert n in multiset(DetourNext(net, w, d, e));
        assert n in multiset(net.next(e)) || n == d;
      }
    }
  }

  lemma PushedEdges(edges: seq<Edge>, dist: real)
    ensures forall p :: p in Pushed(edges, dist) ==> p.edge in edges
  {
    forall p | p in Pushed(edges, dist) ensures p.edge in edges {
      var i :| 0 <= i < |edges| && Pushed(edges, dist)[i] == p;
    }
  }

  /** Once `x` is found and the dead end waits only at distances not below the limit, it is never found. */
  lemma {:induction false} NeverFound(net: Net, limit: real, queue: seq<Entry>, found: set<Edge>, x: Edge, d: Edge)
    requires net.Valid() && InNet(net, queue) && x in found && d !in found
    requires forall y :: y in net.edges && y != d && d in net.next(y) ==> y == x
    requires forall q :: q in queue && q.edge == d ==> q.dist >= limit
    ensures d !in Search(net, limit, queue, found)
    decreases |Open(net, found)|, |queue|
  {
    if queue == [] {
      SearchEnds(net, limit, found);
    } else {
      hide Search, Net.Valid, InNet, Open, Pushed, Behind;
      SearchStep(net, limit, queue, found);
      var q, rest := queue[|queue| - 1], queue[..|queue| - 1];
      assert q in queue && forall p :: p in rest ==> p in queue;
      if q.edge !in found && q.dist < limit {
        var pushed := Pushed(net.next(q.edge), Behind(net, q.edge, q.dist));
        PushedEdges(net.next(q.edge), Behind(net, q.edge, q.dist));
        assert d !in net.next(q.edge);
        NeverFound(net, limit, rest + pushed, found + {q.edge}, x, d);
      } else {
        NeverFound(net, limit, rest, found, x, d);
      }
    }
  }

  /** Distance at which the search arrives at position `i` of the walk. */
  function Arrival(net: Net, w: seq<Edge>, i: nat): real
    requires i <= |w|
  {
    if i == 0 then -1.0 else LengthSum(net, w[1..i])
  }

  ghost function FirstOf(w: seq<Edge>, i: nat): set<Edge>
    requires i <= |w|
  {
    set y | y in w[..i]
  }

  /** The search has come along the walk up to position `i`, which is next; the dead end has not been seen. */
  ghost predicate Along(net: Net, limit: real, w: seq<Edge>, d: Edge, i: nat, junk: seq<Entry>)
    requires i < |w| && net.Valid() && w[0] in net.edges
  {
    var queue := junk + [Entry(w[i], Arrival(net, w, i))];
    && InNet(net, queue) && (forall q :: q in junk ==> q.edge != d)
    && TravelSet(net, w[0], limit) == Search(net, limit, queue, FirstOf(w, i))
  }

  lemma ArrivalNext(net: Net, w: seq<Edge>, i: nat)
    requires net.Valid() && i < |w| && forall y :: y in w ==> y in net.edges
    ensures Arrival(net, w, i + 1) == Behind(net, w[i], Arrival(net, w, i))
  {
    if i == 0 {
      assert w[1..1] == [];
    } else {
      assert w[1..i + 1] == w[1..i] + [w[i]];
      LengthSumAppend(net, w[1..i], w[i]);
      assert forall y :: y in w[1..i] ==> y in w;
      LengthSumNonNegative(net, w[1..i]);
    }
  }

  lemma ArrivalBelow(net: Net, start: Edge, x: Edge, limit: real, w: seq<Edge>, i: nat)
    requires net.Valid() && WithinReach(net, start, x, limit, w) && x != start && i < |w| && limit > -1.0
    ensures Arrival(net, w, i) < limit
  {
    if i > 0 {
      var n := |w| - 1;
      assert w[1..i] + w[i..n] == w[1..n];
      assert forall y :: y in w[i..n] ==> y in w;
      SumSplit(net, w[1..i], w[i..n]);
      LengthSumNonNegative(net, w[i..n]);
    }
  }

  lemma {:induction false} SumSplit(net: Net, a: seq<Edge>, b: seq<Edge>)
    ensures LengthSum(net, a + b) == LengthSum(net, a) + LengthSum(net, b)
  {
    if b == [] {
      assert a + b == a;
    } else {
      var n := |b| - 1;
      SumSplit(net, a, b[..n]);
      assert (a + b)[..|a + b| - 1] == a + b[..n];
    }
  }

  lemma AlongStep(net: Net, limit: real, w: seq<Edge>, d: Edge, i: nat, junk: seq<Entry>) returns (junk': seq<Entry>)
    requires net.Valid() && Distinct(w) && i + 1 < |w| && w[0] in net.edges && (forall y :: y in w ==> y in net.edges)
    requires Along(net, limit, w, d, i, junk) && Arrival(net, w, i) < limit
    requires var next := net.next(w[i]); next != [] && next[|next| - 1] == w[i + 1] && d !in next
    ensures Along(net, limit, w, d, i + 1, junk')
  {
    hide *;
    var dist, dist' := Arrival(net, w, i), Arrival(net, w, i + 1);
    var next := net.next(w[i]);
    var n := |next| - 1;
    junk' := junk + Pushed(next[..n], dist');
    AlongMeans(net, limit, w, d, i, junk);
    ArrivalNext(net, w, i);
    NotYet(w, i);
    TakesLast(net, limit, junk, Entry(w[i], dist), FirstOf(w, i));
    PushedSplit(junk, next, dist');
    PushedEdges(next[..n], dist');
    assert forall y :: y in next[..n] ==> y in next;
    AlongMeans(net, limit, w, d, i + 1, junk');
  }

  lemma AlongMeans(net: Net, limit: real, w: seq<Edge>, d: Edge, i: nat, junk: seq<Entry>)
    requires i < |w| && net.Valid() && w[0] in net.edges
    ensures var queue := junk + [Entry(w[i], Arrival(net, w, i))];
      Along(net, limit, w, d, i, junk) <==>
        && InNet(net, queue) && (forall q :: q in junk ==> q.edge != d)
        && TravelSet(net, w[0], limit) == Search(net, limit, queue, FirstOf(w, i))
  {
  }

  /** The last entry's edge is added. */
  lemma TakesLast(net: Net, limit: real, rest: seq<Entry>, q: Entry, found: set<Edge>)
    requires net.Valid() && InNet(net, rest + [q]) && q.edge !in found && q.dist < limit
    ensures var queue' := rest + Pushed(net.next(q.edge), Behind(net, q.edge, q.dist));
      InNet(net, queue') && Search(net, limit, rest + [q], found) == Search(net, limit, queue', found + {q.edge})
  {
    hide *;
    var queue := rest + [q];
    assert queue[..|queue| - 1] == rest && queue[|queue| - 1] == q;
    SearchStep(net, limit, queue, found);
  }

  lemma PushedSplit(junk: seq<Entry>, edges: seq<Edge>, dist: real)
    requires edges != []
    ensures var n := |edges| - 1;
      junk + Pushed(edges, dist) == junk + Pushed(edges[..n], dist) + [Entry(edges[n], dist)]
  {
    var n := |edges| - 1;
    assert Pushed(edges, dist) == Pushed(edges[..n], dist) + [Entry(edges[n], dist)];
  }

  lemma NotYet(w: seq<Edge>, i: nat)
    requires Distinct(w) && i < |w|
    ensures w[i] !in FirstOf(w, i) && FirstOf(w, i) + {w[i]} == FirstOf(w, i + 1)
  {
    assert w[..i + 1] == w[..i] + [w[i]];
  }

  lemma {:induction false} AlongWalk(net: Net, limit: real, w: seq<Edge>, d: Edge, i: nat) returns (junk: seq<Entry>)
    requires net.Valid() && Distinct(w) && i < |w| && (forall y :: y in w ==> y in net.edges) && w[0] in net.edges
    requires forall k :: 0 <= k < |w| - 1 ==> Arrival(net, w, k) < limit && LeadsLast(net, w, d, k)
    ensures Along(net, limit, w, d, i, junk)
  {
    hide *;
    if i == 0 {
      junk := [];
      AlongStart(net, limit, w, d);
    } else {
      junk := AlongWalk(net, limit, w, d, i - 1);
      LeadsMeans(net, w, d, i - 1);
      junk := AlongStep(net, limit, w, d, i - 1, junk);
    }
  }

  ghost predicate LeadsLast(net: Net, w: seq<Edge>, d: Edge, k: nat)
    requires k < |w| - 1
  {
    var next := net.next(w[k]);
    next != [] && next[|next| - 1] == w[k + 1] && d !in next
  }

  lemma LeadsMeans(net: Net, w: seq<Edge>, d: Edge, k: nat)
    requires k < |w| - 1
    ensures LeadsLast(net, w, d, k) <==>
      var next := net.next(w[k]); next != [] && next[|next| - 1] == w[k + 1] && d !in next
  {
  }

  lemma AlongStart(net: Net, limit: real, w: seq<Edge>, d: Edge)
    requires net.Valid() && w != [] && w[0] in net.edges
    ensures Along(net, limit, w, d, 0, [])
  {
    hide Search, Net.Valid;
    assert [] + [Entry(w[0], -1.0)] == [Entry(w[0], -1.0)];
    assert FirstOf(w, 0) == {};
  }

  /** An edge within reach stays so when a dead end is added. */
  lemma WalkOver(net: Net, net': Net, x: Edge, d: Edge, start: Edge, e: Edge, limit: real, walk: seq<Edge>)
    requires net.Valid() && DeadEnd(net, net', x, d) && WithinReach(net, start, e, limit, walk)
    ensures WithinReach(net', start, e, limit, walk) && LengthSum(net', walk[1..]) == LengthSum(net, walk[1..])
  {
    hide LengthSum, Net.Valid, DeadEnd;
    forall i | 0 <= i < |walk|
      ensures walk[i] != d && walk[i] in net'.edges && net'.length(walk[i]) == net.length(walk[i])
    {
      DeadEndOld(net, net', x, d, walk[i]);
      DeadEndFacts(net, net', x, d);
    }
    forall i | 0 <= i < |walk| - 1 ensures walk[i + 1] in net'.next(walk[i]) {
      assert walk[i + 1] in net.next(walk[i]);
      DeadEndNext(net, net', x, d, walk[i], walk[i + 1]);
    }
    SameTails(net, net', walk);
    assert IsWalk(net', walk);
  }

  /** The dead end itself is within reach, by a walk after which the neighbours of `x` are still below the limit. */
  lemma DeadEndWithinReach(net: Net, net': Net, x: Edge, d: Edge, start: Edge, limit: real, u: seq<Edge>)
    requires net.Valid() && DeadEnd(net, net', x, d) && WithinReach(net', start, x, limit, u)
    requires (forall y :: y in u ==> y in net.edges) && LengthSum(net', u[1..]) < limit
    ensures WithinReach(net', start, d, limit, u + [d])
  {
    hide LengthSum, Net.Valid;
    DeadEndNext(net, net', x, d, x, d);
    var w := u + [d];
    assert w[1..|w| - 1] == u[1..];
    forall i | 0 <= i < |w| - 1 ensures w[i + 1] in net'.next(w[i]) {
      if i < |u| - 1 { assert u[i + 1] in net'.next(u[i]); }
    }
    assert forall i :: 0 <= i < |u| ==> u[i] in u;
  }

  lemma Unused(edges: seq<Edge>) returns (d: Edge)
    ensures forall e :: e in edges ==> e < d
  {
    d := 0;
    for i := 0 to |edges|
      invariant forall e :: e in edges[..i] ==> e < d
    {
      assert edges[..i + 1] == edges[..i] + [edges[i]];
      if d <= edges[i] { d := edges[i] + 1; }
    }
    assert edges[..|edges|] == edges;
  }

  lemma DetourLeads(net: Net, w: seq<Edge>, d: Edge, k: nat)
    requires net.Valid() && IsWalk(net, w) && Distinct(w) && d !in net.edges && k < |w| - 1
    ensures LeadsLast(Detour(net, w, d), w, d, k)
  {
    DetourOnWalk(net, w, d, k);
    EdgeFacts(net, w[k]);
    SameMembers(ToEnd(net.next(w[k]), w[k + 1]), net.next(w[k]));
    hide ToEnd, DetourNext, Net.Valid, IsWalk, Distinct;
  }

  lemma DetourOnWalk(net: Net, w: seq<Edge>, d: Edge, k: nat)
    requires net.Valid() && IsWalk(net, w) && Distinct(w) && d !in net.edges && k < |w| - 1
    ensures w[k] in net.edges && w[k + 1] in net.next(w[k])
    ensures DetourNext(net, w, d, w[k]) == ToEnd(net.next(w[k]), w[k + 1])
  {
    hide ToEnd, Position, Net.Valid;
    PositionAt(w, k);
  }

  lemma SameMembers(s: seq<Edge>, t: seq<Edge>)
    requires multiset(s) == multiset(t)
    ensures forall e :: e in s <==> e in t
  {
    forall e ensures e in s <==> e in t {
      assert (e in s <==> e in multiset(s)) && (e in t <==> e in multiset(t));
    }
  }

  lemma PositionAt(w: seq<Edge>, k: nat)
    requires Distinct(w) && k < |w|
    ensures Position(w, w[k]) == k
  {
  }

  /** The detour: the search comes to `x` by the long walk first, so the dead end behind `x` is not found. */
  lemma DetourMisses(net: Net, start: Edge, limit: real, x: Edge, w: seq<Edge>, d: Edge)
    requires net.Valid() && start in net.edges && limit > -1.0 && x != start && d !in net.edges
    requires WithinReach(net, start, x, limit, w) && LengthSum(net, w[1..]) >= limit
    ensures var net' := Detour(net, w, d);
      DeadEnd(net, net', x, d) && start in net'.edges && d !in TravelSet(net', start, limit)
  {
    hide *;
    var net', n := Detour(net, w, d), |w| - 1;
    WalkFacts(net, start, x, limit, w);
    DetourIsDeadEnd(net, w, d);
    DeadEndFacts(net, net', x, d);
    WalkOver(net, net', x, d, start, x, limit, w);
    forall k | 0 <= k < |w| - 1 ensures Arrival(net', w, k) < limit && LeadsLast(net', w, d, k) {
      ArrivalBelow(net', start, x, limit, w, k);
      DetourLeads(net, w, d, k);
    }
    ArrivalBelow(net', start, x, limit, w, n);
    var junk := AlongWalk(net', limit, w, d, n);
    AlongMeans(net', limit, w, d, n, junk);
    ArrivalNext(net', w, n);
    ArrivalEnd(net', w);
    NotYet(w, n);
    TakesLast(net', limit, junk, Entry(x, Arrival(net', w, n)), FirstOf(w, n));
    var pushed := Pushed(net'.next(x), LengthSum(net', w[1..]));
    PushedDist(net'.next(x), LengthSum(net', w[1..]));
    NotAmong(w, n + 1, d);
    NeverFound(net', limit, junk + pushed, FirstOf(w, n) + {x}, x, d);
  }

  lemma WalkFacts(net: Net, start: Edge, x: Edge, limit: real, w: seq<Edge>)
    requires WithinReach(net, start, x, limit, w)
    ensures IsWalk(net, w) && Distinct(w) && w != [] && w[0] == start && w[|w| - 1] == x
    ensures forall y :: y in w ==> y in net.edges
  {
  }

  lemma DeadEndFacts(net: Net, net': Net, x: Edge, d: Edge)
    requires net.Valid() && DeadEnd(net, net', x, d)
    ensures net'.Valid() && (forall y :: y in net.edges ==> y in net'.edges)
    ensures forall y :: y in net'.edges && y != d && d in net'.next(y) ==> y == x
  {
    forall y | y in net'.edges && y != d && d in net'.next(y) ensures y == x {
      DeadEndNext(net, net', x, d, y, d);
    }
  }

  lemma ArrivalEnd(net: Net, w: seq<Edge>)
    requires w != []
    ensures Arrival(net, w, |w|) == LengthSum(net, w[1..])
  {
    assert w[1..|w|] == w[1..];
  }

  lemma PushedDist(edges: seq<Edge>, dist: real)
    ensures forall p :: p in Pushed(edges, dist) ==> p.dist == dist
  {
  }

  lemma NotAmong(w: seq<Edge>, i: nat, d: Edge)
    requires i <= |w| && d !in w
    ensures d !in FirstOf(w, i) && (i == |w| && w != [] ==> w[|w| - 1] in FirstOf(w, i))
  {
    assert forall y :: y in w[..i] ==> y in w;
    if i == |w| && w != [] { assert w[..i] == w && w[|w| - 1] in w; }
  }

  /** Exactly when all walks to the same edge agree, the search finds everything within reach, wherever a dead end hangs
      and in whatever order the neighbours of an edge are listed. */
  lemma FindsAllExactly(net: Net, start: Edge, limit: real)
    requires net.Valid() && start in net.edges && limit > -1.0
    ensures Agree(net, start, limit) <==>
      forall net', x, d :: DeadEnd(net, net', x, d) ==> start in net'.edges && FindsAll(net', start, limit)
  {
    if Agree(net, start, limit) {
      forall net', x, d | DeadEnd(net, net', x, d) ensures start in net'.edges && FindsAll(net', start, limit) {
        hide Agree, FindsAll;
        DeadEndFacts(net, net', x, d);
        DeadEndFound(net, net', x, d, start, limit);
      }
    } else {
      var net', x, d := Disagreement(net, start, limit);
    }
  }

  lemma Disagreement(net: Net, start: Edge, limit: real) returns (net': Net, x: Edge, d: Edge)
    requires net.Valid() && start in net.edges && limit > -1.0 && !Agree(net, start, limit)
    ensures DeadEnd(net, net', x, d) && start in net'.edges && !FindsAll(net', start, limit)
  {
    x :| !AgreeAt(net, start, limit, x);
    var u, w :| WithinReach(net, start, x, limit, u) && WithinReach(net, start, x, limit, w) &&
      LengthSum(net, u[1..]) < limit <= LengthSum(net, w[1..]);
    hide *;
    d := Unused(net.edges);
    net' := Detour(net, w, d);
    NotStart(net, start, x, limit, u, w);
    DetourMisses(net, start, limit, x, w, d);
    WalkFacts(net, start, x, limit, u);
    WalkOver(net, net', x, d, start, x, limit, u);
    DeadEndWithinReach(net, net', x, d, start, limit, u);
    DeadEndFacts(net, net', x, d);
    MissedMeans(net', start, limit, d, u + [d]);
  }

  lemma NotStart(net: Net, start: Edge, x: Edge, limit: real, u: seq<Edge>, w: seq<Edge>)
    requires WithinReach(net, start, x, limit, u) && WithinReach(net, start, x, limit, w)
    requires LengthSum(net, u[1..]) != LengthSum(net, w[1..])
    ensures x != start
  {
    if x == start {
      LoopWalk(net, start, limit, u);
      LoopWalk(net, start, limit, w);
    }
  }

  lemma LoopWalk(net: Net, start: Edge, limit: real, u: seq<Edge>)
    requires WithinReach(net, start, start, limit, u)
    ensures u != [] && u[1..] == []
  {
  }

  lemma MissedMeans(net: Net, start: Edge, limit: real, e: Edge, walk: seq<Edge>)
    requires net.Valid() && start in net.edges && WithinReach(net, start, e, limit, walk)
    requires e !in TravelSet(net, start, limit)
    ensures !FindsAll(net, start, limit)
  {
  }

  /** On the fork the two walks to edge 1 disagree. */
  lemma ForkDisagrees()
    ensures !Agree(Fork(), 0, 1.5)
  {
    ForkShortWalk();
    ForkLongWalk();
    hide WithinReach, LengthSum;
    assert !AgreeAt(Fork(), 0, 1.5, 1);
  }

  lemma ForkShortWalk()
    ensures WithinReach(Fork(), 0, 1, 1.5, [0, 1]) && LengthSum(Fork(), [0, 1][1..]) == 1.0
  {
    var net, u := Fork(), [0, 1];
    assert u[1..1] == [] && u[1..] == [1] && [1][..0] == [];
    assert LengthSum(net, [1]) == LengthSum(net, []) + 1.0;
    assert net.next(0)[0] == 1;
  }

  lemma ForkLongWalk()
    ensures WithinReach(Fork(), 0, 1, 1.5, [0, 2, 1]) && LengthSum(Fork(), [0, 2, 1][1..]) == 2.0
  {
    var net, w := Fork(), [0, 2, 1];
    assert w[1..2] == [2] && w[1..] == [2, 1] && [2][..0] == [] && [2, 1][..1] == [2];
    assert LengthSum(net, [2]) == LengthSum(net, []) + 1.0 && LengthSum(net, [2, 1]) == LengthSum(net, [2]) + 1.0;
    forall i | 0 <= i < 2 ensures w[i + 1] in net.next(w[i]) {
      assert net.next(0)[1] == 2 && net.next(2)[1] == 1;
    }
  }

  // ---------------------------------------------------------------- opposites by radius

  /** The candidates: edges near some shape point. */
  ghost function Candidates(net: Net, e: Edge): (r: set<Edge>)
    ensures forall c :: c in r <==> exists i :: 0 <= i < |net.near(e)| && c in net.near(e)[i]
  {
    set i, c | 0 <= i < |net.near(e)| && c in net.near(e)[i] :: c
  }

  /** The opposites of one edge alone: the edges near every shape point and those that lead straight back. */
  ghost function Asym(net: Net, e: Edge): (r: set<Edge>)
    ensures forall c :: c in r <==>
      || (net.near(e) != [] && c in net.near(e)[0] && forall i :: 0 <= i < |net.near(e)| ==> c in net.near(e)[i])
      || c in net.opposite(e)
  {
    assert forall c :: net.near(e) != [] && c in net.near(e)[0] ==> c in Candidates(net, e);
    (set c | c in Candidates(net, e) && forall i :: 0 <= i < |net.near(e)| ==> c in net.near(e)[i]) + net.opposite(e)
  }

  /** With the symmetrical option the candidates that hold the edge for their opposite are added. */
  ghost function Sym(net: Net, e: Edge): (r: set<Edge>)
    ensures forall c :: c in r <==> c in Asym(net, e) || (c in Candidates(net, e) && e in Asym(net, c))
  {
    Asym(net, e) + set c | c in Candidates(net, e) && e in Asym(net, c)
  }

  lemma CandidatesInNet(net: Net, e: Edge)
    requires net.Valid() && e in net.edges
    ensures forall c :: c in Candidates(net, e) ==> c in net.edges
  {
    EdgeFacts(net, e);
  }

  method IntersectAll(sets: seq<set<Edge>>) returns (r: set<Edge>)
    requires sets != []
    ensures forall c :: c in r <==> c in sets[0] && forall i :: 0 <= i < |sets| ==> c in sets[i]
  {
    r := sets[0];
    for k := 1 to |sets|
      invariant forall c :: c in r <==> c in sets[0] && forall i :: 0 <= i < k ==> c in sets[i]
    {
      r := r * sets[k];
    }
  }

  method UniteAll(sets: seq<set<Edge>>) returns (r: set<Edge>)
    requires sets != []
    ensures forall c :: c in r <==> exists i :: 0 <= i < |sets| && c in sets[i]
  {
    r := sets[0];
    for k := 1 to |sets|
      invariant forall c :: c in r <==> exists i :: 0 <= i < k && c in sets[i]
    {
      r := r + sets[k];
    }
  }

  /** A set that is shared by reference. */
  class Cell {
    var members: set<Edge>

    constructor (members: set<Edge>)
      ensures this.members == members
    {
      this.members := members;
    }

    method Add(c: Edge)
      modifies this
      ensures members == old(members) + {c}
    {
      members := members + {c};
    }
  }

  /** The options: whether a positive radius is given, the travel distance, and the symmetrical flag. */
  datatype Mode = Mode(byRadius: bool, travelDist: Option<real>, symmetrical: bool)

  ghost function Travelled(net: Net, e: Edge, travelDist: Option<real>): set<Edge>
    requires net.Valid() && e in net.edges
  {
    if travelDist.Some? then TravelSet(net, e, travelDist.value) else {}
  }

  /** What the cache may hold while edges are being processed. */
  ghost predicate CacheOk(net: Net, cache: map<Edge, set<Edge>>) {
    forall e :: e in cache ==> e in net.edges && Asym(net, e) <= cache[e] <= Sym(net, e)
  }

  /** The cache after a look-up of `e`. */
  ghost function Known(net: Net, cache: map<Edge, set<Edge>>, e: Edge): map<Edge, set<Edge>> {
    if e in cache then cache else cache[e := Asym(net, e)]
  }

  /** The cache after `edge` looked at a candidate. */
  ghost function LookedAt(net: Net, cache: map<Edge, set<Edge>>, edge: Edge, cand: Edge): map<Edge, set<Edge>>
    requires edge in cache
  {
    var known := Known(net, cache, cand);
    if edge in known[cand] then known[edge := known[edge] + {cand}] else known
  }

  /** The cache after an edge was processed symmetrically: missing entries are computed, only the edge's own grows. */
  ghost function Processed(net: Net, cache: map<Edge, set<Edge>>, e: Edge): map<Edge, set<Edge>> {
    map c | c in cache.Keys + {e} + Candidates(net, e) ::
      if c == e then Sym(net, e) else if c in cache then cache[c] else Asym(net, c)
  }

  /** The candidates in `done` that hold the edge for their opposite are in its cached set. */
  ghost predicate Collected(net: Net, cache: map<Edge, set<Edge>>, edge: Edge, done: set<Edge>) {
    edge in cache && forall c :: c in done && edge in Asym(net, c) ==> c in cache[edge]
  }

  /** Outside `edge`, known sets are kept and new ones are the asymmetric ones. */
  ghost predicate OthersKept(net: Net, before: map<Edge, set<Edge>>, cache: map<Edge, set<Edge>>, edge: Edge) {
    forall e :: e in cache && e != edge ==> cache[e] == if e in before then before[e] else Asym(net, e)
  }

  /** Part of the way to `Processed`: the candidates in `done` have been looked at. */
  ghost predicate PartlyProcessed(net: Net, before: map<Edge, set<Edge>>, cache: map<Edge, set<Edge>>, edge: Edge,
                                  done: set<Edge>) {
    && CacheOk(net, cache) && edge in cache && cache.Keys == before.Keys + {edge} + done
    && Collected(net, cache, edge, done) && OthersKept(net, before, cache, edge)
  }

  lemma KnownOk(net: Net, cache: map<Edge, set<Edge>>, e: Edge)
    requires CacheOk(net, cache) && e in net.edges
    ensures CacheOk(net, Known(net, cache, e))
  {
  }

  lemma ReturnedOrAsym(net: Net, cache: map<Edge, set<Edge>>, edge: Edge, cand: Edge)
    requires CacheOk(net, cache) && cand in cache && cand in Candidates(net, edge) && edge in cache[cand]
    ensures cand in Sym(net, edge)
  {
  }

  lemma KnownHas(net: Net, cache: map<Edge, set<Edge>>, e: Edge)
    ensures e in Known(net, cache, e)
  {
  }

  lemma AddedOk(net: Net, cache: map<Edge, set<Edge>>, edge: Edge, cand: Edge)
    requires CacheOk(net, cache) && edge in cache && cand in Sym(net, edge)
    ensures CacheOk(net, cache[edge := cache[edge] + {cand}])
  {
    hide Asym, Sym;
  }

  lemma LookedAtOk(net: Net, cache: map<Edge, set<Edge>>, edge: Edge, cand: Edge)
    requires CacheOk(net, cache) && edge in cache && cand in net.edges && cand in Candidates(net, edge)
    ensures CacheOk(net, LookedAt(net, cache, edge, cand))
  {
    KnownOk(net, cache, cand);
    var known := Known(net, cache, cand);
    if edge in known[cand] {
      ReturnedOrAsym(net, known, edge, cand);
      AddedOk(net, known, edge, cand);
    }
  }

  lemma OthersAfter(net: Net, before: map<Edge, set<Edge>>, cache: map<Edge, set<Edge>>, edge: Edge, cand: Edge)
    requires edge in cache && OthersKept(net, before, cache, edge) && (cand !in cache ==> cand !in before)
    ensures OthersKept(net, before, LookedAt(net, cache, edge, cand), edge)
  {
    hide Asym;
  }

  lemma CollectedAfter(net: Net, cache: map<Edge, set<Edge>>, edge: Edge, done: set<Edge>, cand: Edge)
    requires Collected(net, cache, edge, done) && Asym(net, cand) <= Known(net, cache, cand)[cand]
    ensures Collected(net, LookedAt(net, cache, edge, cand), edge, done + {cand})
  {
    hide Asym;
  }

  lemma LookedAtStep(net: Net, before: map<Edge, set<Edge>>, cache: map<Edge, set<Edge>>, edge: Edge, done: set<Edge>,
                     cand: Edge)
    requires PartlyProcessed(net, before, cache, edge, done) && edge in net.edges
    requires cand in net.edges && cand in Candidates(net, edge)
    ensures PartlyProcessed(net, before, LookedAt(net, cache, edge, cand), edge, done + {cand})
  {
    hide *;
    PartlyIs(net, before, cache, edge, done);
    LookedAtOk(net, cache, edge, cand);
    LookedAtKeys(net, cache, edge, cand);
    OthersAfter(net, before, cache, edge, cand);
    CollectedAfter(net, cache, edge, done, cand);
    PartlyIs(net, before, LookedAt(net, cache, edge, cand), edge, done + {cand});
    assert before.Keys + {edge} + (done + {cand}) == before.Keys + {edge} + done + {cand};
  }

  lemma PartlyIs(net: Net, before: map<Edge, set<Edge>>, cache: map<Edge, set<Edge>>, edge: Edge, done: set<Edge>)
    ensures PartlyProcessed(net, before, cache, edge, done) <==>
      && CacheOk(net, cache) && edge in cache && cache.Keys == before.Keys + {edge} + done
      && Collected(net, cache, edge, done) && OthersKept(net, before, cache, edge)
  {
    hide CacheOk, Collected, OthersKept;
  }

  lemma LookedAtKeys(net: Net, cache: map<Edge, set<Edge>>, edge: Edge, cand: Edge)
    requires CacheOk(net, cache) && edge in cache
    ensures LookedAt(net, cache, edge, cand).Keys == cache.Keys + {cand}
    ensures cand in Known(net, cache, cand) && Asym(net, cand) <= Known(net, cache, cand)[cand]
    ensures cand !in cache ==> cand !in cache.Keys
  {
    hide Asym, Sym, Candidates;
  }

  lemma NothingProcessed(net: Net, cache: map<Edge, set<Edge>>, edge: Edge)
    requires CacheOk(net, cache) && edge in cache
    ensures PartlyProcessed(net, cache, cache, edge, Candidates(net, edge) - Candidates(net, edge))
  {
    hide Candidates, Asym, Sym;
  }

  lemma ProcessedWhenDone(net: Net, before: map<Edge, set<Edge>>, cache: map<Edge, set<Edge>>, edge: Edge)
    requires PartlyProcessed(net, before, cache, edge, Candidates(net, edge))
    ensures cache == Processed(net, before, edge)
  {
    hide *;
    PartlyIs(net, before, cache, edge, Candidates(net, edge));
    CollectedAll(net, cache, edge);
    OthersWhenDone(net, before, cache, edge);
  }

  lemma CollectedAll(net: Net, cache: map<Edge, set<Edge>>, edge: Edge)
    requires CacheOk(net, cache) && edge in cache && Collected(net, cache, edge, Candidates(net, edge))
    ensures cache[edge] == Sym(net, edge)
  {
    hide Asym, Candidates;
  }

  lemma OthersWhenDone(net: Net, before: map<Edge, set<Edge>>, cache: map<Edge, set<Edge>>, edge: Edge)
    requires edge in cache && cache[edge] == Sym(net, edge) && OthersKept(net, before, cache, edge)
    requires cache.Keys == before.Keys + {edge} + Candidates(net, edge)
    ensures cache == Processed(net, before, edge)
  {
    hide Asym, Sym, Candidates;
  }

  class Districts {
    const net: Net
    var cache: map<Edge, Cell>
    ghost var cells: set<Cell>
    ghost var contents: map<Edge, set<Edge>>

    /** `contents` is what the cached set objects hold, and no two edges share one. */
    ghost predicate Consistent()
      reads this, cells
    {
      && contents.Keys == cache.Keys
      && (forall e :: e in cache ==> cache[e] in cells && cache[e].members == contents[e])
      && forall e, f :: e in cache && f in cache && cache[e] == cache[f] ==> e == f
    }

    constructor (net: Net)
      requires net.Valid()
      ensures Consistent() && CacheOk(net, contents) && this.net == net && contents == map[]
    {
      this.net := net;
      cache, cells, contents := map[], {}, map[];
    }

    method Insert(edge: Edge, found: set<Edge>)
      requires Consistent() && edge !in cache
      modifies this
      ensures Consistent() && edge in cache && fresh(cache[edge]) && cells == old(cells) + {cache[edge]}
      ensures cache == old(cache)[edge := cache[edge]]
      ensures contents == old(contents)[edge := found]
    {
      var cell := new Cell(found);
      cache, cells, contents := cache[edge := cell], cells + {cell}, contents[edge := found];
    }

    method Grow(edge: Edge, opposites: Cell, cand: Edge)
      requires Consistent() && edge in cache && cache[edge] == opposites
      modifies opposites, this`contents
      ensures Consistent()
      ensures contents == old(contents)[edge := old(contents[edge]) + {cand}]
    {
      opposites.Add(cand);
      contents := contents[edge := contents[edge] + {cand}];
    }

    method AsymOf(edge: Edge) returns (found: set<Edge>)
      requires net.Valid() && edge in net.edges
      ensures found == Asym(net, edge)
    {
      EdgeFacts(net, edge);
      found := IntersectAll(net.near(edge));
      found := found + net.opposite(edge);
    }

    /** Looks the edge up or computes its opposites; the result is the cached set itself. */
    method ComputeAsym(edge: Edge) returns (opposites: Cell)
      requires net.Valid() && Consistent() && edge in net.edges
      modifies this
      ensures Consistent() && edge in cache && cache[edge] == opposites
      ensures fresh(cells - old(cells))
      ensures cache == old(cache)[edge := opposites] && (edge !in old(cache) ==> fresh(opposites))
      ensures edge in old(cache) ==> cache == old(cache) && cells == old(cells)
      ensures contents == Known(net, old(contents), edge)
    {
      if edge !in cache {
        var found := AsymOf(edge);
        Insert(edge, found);
      }
      opposites := cache[edge];
    }

    /** One look-up of the symmetrical loop: the candidate joins the edge's own cached set when it holds the edge. */
    method LookAt(edge: Edge, opposites: Cell, cand: Edge)
      requires net.Valid() && Consistent() && edge in cache && cache[edge] == opposites && cand in net.edges
      modifies this, opposites
      ensures Consistent() && edge in cache && cache[edge] == opposites
      ensures fresh(cells - old(cells))
      ensures contents == LookedAt(net, old(contents), edge, cand)
    {
      hide Asym, Net.Valid, Consistent;
      var other := ComputeAsym(cand);
      assert other.members == contents[cand];
      if edge in other.members {
        Grow(edge, opposites, cand);
      }
    }

    method LookAtNext(edge: Edge, opposites: Cell, cand: Edge, ghost before: map<Edge, set<Edge>>,
                      ghost done: set<Edge>)
      requires net.Valid() && Consistent() && edge in cache && cache[edge] == opposites && edge in net.edges
      requires cand in Candidates(net, edge) && PartlyProcessed(net, before, contents, edge, done)
      modifies this, opposites
      ensures Consistent() && edge in cache && cache[edge] == opposites
      ensures fresh(cells - old(cells))
      ensures PartlyProcessed(net, before, contents, edge, done + {cand})
    {
      hide *;
      CandidatesInNet(net, edge);
      LookedAtStep(net, before, contents, edge, done, cand);
      LookAt(edge, opposites, cand);
    }

    method Extend(edge: Edge, opposites: Cell, candidates: set<Edge>)
      requires net.Valid() && Consistent() && CacheOk(net, contents) && edge in net.edges
      requires edge in contents && edge in cache && cache[edge] == opposites && candidates == Candidates(net, edge)
      modifies this, opposites
      ensures Consistent() && edge in cache && cache[edge] == opposites
      ensures fresh(cells - old(cells))
      ensures contents == Processed(net, old(contents), edge)
    {
      hide *;
      ghost var before := contents;
      NothingProcessed(net, before, edge);
      var remaining := candidates;
      while remaining != {}
        invariant Consistent() && edge in cache && cache[edge] == opposites
        invariant fresh(cells - old(cells))
        invariant remaining <= candidates && PartlyProcessed(net, before, contents, edge, candidates - remaining)
      {
        var cand :| cand in remaining;
        ghost var done := candidates - remaining;
        LookAtNext(edge, opposites, cand, before, done);
        remaining := remaining - {cand};
        assert candidates - remaining == done + {cand};
      }
      assert candidates - remaining == candidates;
      ProcessedWhenDone(net, before, contents, edge);
    }

    /** One edge of the network. */
    method ProcessEdge(edge: Edge, mode: Mode) returns (district: set<Edge>)
      requires net.Valid() && Consistent() && CacheOk(net, contents) && edge in net.edges
      modifies this, cells
      ensures Consistent() && CacheOk(net, contents)
      ensures fresh(cells - old(cells))
      ensures contents == After(net, old(contents), edge, mode)
      ensures district ==
        Travelled(net, edge, mode.travelDist) +
          if mode.byRadius then After(net, old(contents), edge, mode)[edge] else {}
    {
      hide *;
      AfterOk(net, contents, edge, mode);
      AfterIs(net, contents, edge, mode);
      district := TravelOf(edge, mode.travelDist);
      if mode.byRadius {
        var opposites := Opposites(edge, mode.symmetrical);
        district := district + opposites.members;
      }
    }

    method TravelOf(edge: Edge, travelDist: Option<real>) returns (district: set<Edge>)
      requires net.Valid() && edge in net.edges
      ensures district == Travelled(net, edge, travelDist)
    {
      district := {};
      if travelDist.Some? {
        district := Travel(net, edge, travelDist.value);
      }
    }

    method Opposites(edge: Edge, symmetrical: bool) returns (opposites: Cell)
      requires net.Valid() && Consistent() && CacheOk(net, contents) && edge in net.edges
      modifies this, cells
      ensures Consistent() && edge in contents && opposites.members == contents[edge]
      ensures fresh(cells - old(cells))
      ensures contents == if symmetrical then Processed(net, old(contents), edge) else Known(net, old(contents), edge)
    {
      hide *;
      KnownOk(net, contents, edge);
      ProcessedAfterKnown(net, contents, edge);
      KnownHas(net, contents, edge);
      opposites := ComputeAsym(edge);
      if symmetrical {
        var candidates := CandidatesOf(edge);
        Extend(edge, opposites, candidates);
      }
      CachedIs(edge, opposites);
    }

    lemma CachedIs(edge: Edge, opposites: Cell)
      requires Consistent() && edge in cache && cache[edge] == opposites
      ensures edge in contents && contents[edge] == opposites.members
    {
    }

    method CandidatesOf(edge: Edge) returns (candidates: set<Edge>)
      requires net.Valid() && edge in net.edges
      ensures candidates == Candidates(net, edge)
    {
      EdgeFacts(net, edge);
      candidates := UniteAll(net.near(edge));
    }

    /** All edges in the order of the network. */
    method ComputeAll(mode: Mode) returns (all: seq<Taz>)
      requires net.Valid() && Consistent() && CacheOk(net, contents)
      modifies this, cells
      ensures Consistent() && CacheOk(net, contents)
      ensures |all| == |net.edges|
      ensures forall i :: 0 <= i < |all| ==>
        all[i].edge == net.edges[i] && all[i].district == District(net, old(contents), net.edges[i], mode)
      ensures contents == FinalCache(net, old(contents), mode)
    {
      hide *;
      all := [];
      ghost var before := contents;
      ProgressStarts(net, before, mode);
      for k := 0 to |net.edges|
        invariant Consistent() && CacheOk(net, contents) && fresh(cells - old(cells))
        invariant Progress(net, before, contents, k, mode) && |all| == k && Listed(net, before, all, mode)
      {
        ghost var cache0 := contents;
        var district := ProcessEdge(net.edges[k], mode);
        ProgressStep(net, before, cache0, k, mode);
        ListedStep(net, before, all, district, mode);
        all := all + [Taz(net.edges[k], district)];
      }
      ProgressEnds(net, before, contents, mode);
      ListedAll(net, before, all, mode);
    }
  }

  datatype Taz = Taz(edge: Edge, district: set<Edge>)

  /** The district of an edge, given the cache at the start of the run. */
  ghost function District(net: Net, cache: map<Edge, set<Edge>>, e: Edge, mode: Mode): (r: set<Edge>)
    requires net.Valid() && e in net.edges
    ensures forall c :: c in r <==>
      || (mode.travelDist.Some? && c in TravelSet(net, e, mode.travelDist.value))
      || (mode.byRadius && mode.symmetrical && c in Sym(net, e))
      || (mode.byRadius && !mode.symmetrical && c in if e in cache then cache[e] else Asym(net, e))
  {
    Travelled(net, e, mode.travelDist) +
    if !mode.byRadius then {} else if mode.symmetrical then Sym(net, e) else Known(net, cache, e)[e]
  }

  /** The edges of the network in order, each with its district. */
  ghost predicate Listed(net: Net, cache: map<Edge, set<Edge>>, all: seq<Taz>, mode: Mode)
    requires net.Valid()
  {
    |all| <= |net.edges| && forall i :: 0 <= i < |all| ==>
      all[i] == Taz(net.edges[i], District(net, cache, net.edges[i], mode))
  }

  lemma ListedAll(net: Net, cache: map<Edge, set<Edge>>, all: seq<Taz>, mode: Mode)
    requires net.Valid() && Listed(net, cache, all, mode)
    ensures |all| <= |net.edges| && forall i :: 0 <= i < |all| ==>
      net.edges[i] in net.edges
      && all[i].edge == net.edges[i] && all[i].district == District(net, cache, net.edges[i], mode)
  {
    hide District;
  }

  lemma ListedStep(net: Net, cache: map<Edge, set<Edge>>, all: seq<Taz>, district: set<Edge>, mode: Mode)
    requires net.Valid() && Listed(net, cache, all, mode) && |all| < |net.edges|
    requires district == District(net, cache, net.edges[|all|], mode)
    ensures Listed(net, cache, all + [Taz(net.edges[|all|], district)], mode)
  {
    hide District;
  }

  /** The cache when all edges are processed. */
  ghost function FinalCache(net: Net, cache: map<Edge, set<Edge>>, mode: Mode): (r: map<Edge, set<Edge>>)
    ensures !mode.byRadius ==> r == cache
    ensures mode.byRadius ==> r.Keys == set e | e in net.edges
    ensures forall e :: mode.byRadius && e in net.edges ==>
      r[e] == if mode.symmetrical then Sym(net, e) else if e in cache then cache[e] else Asym(net, e)
  {
    if !mode.byRadius then cache
    else map e | e in net.edges :: if mode.symmetrical then Sym(net, e) else Known(net, cache, e)[e]
  }

  ghost function After(net: Net, cache: map<Edge, set<Edge>>, e: Edge, mode: Mode): map<Edge, set<Edge>> {
    if !mode.byRadius then cache else if mode.symmetrical then Processed(net, cache, e) else Known(net, cache, e)
  }

  lemma AfterIs(net: Net, cache: map<Edge, set<Edge>>, e: Edge, mode: Mode)
    ensures !mode.byRadius ==> After(net, cache, e, mode) == cache
    ensures mode.byRadius ==>
      After(net, cache, e, mode) == if mode.symmetrical then Processed(net, cache, e) else Known(net, cache, e)
  {
  }

  lemma AfterOk(net: Net, cache: map<Edge, set<Edge>>, edge: Edge, mode: Mode)
    requires net.Valid() && CacheOk(net, cache) && edge in net.edges
    ensures CacheOk(net, After(net, cache, edge, mode)) && (mode.byRadius ==> edge in After(net, cache, edge, mode))
  {
    KnownOk(net, cache, edge);
    ProcessedOk(net, cache, edge);
    hide Net.Valid, CacheOk;
  }

  lemma ProcessedOk(net: Net, cache: map<Edge, set<Edge>>, edge: Edge)
    requires net.Valid() && CacheOk(net, cache) && edge in net.edges
    ensures CacheOk(net, Processed(net, cache, edge))
  {
    CandidatesInNet(net, edge);
    hide Candidates, Net.Valid;
    forall c ensures Asym(net, c) <= Sym(net, c) {}
    hide Asym, Sym;
  }

  lemma ProcessedAfterKnown(net: Net, cache: map<Edge, set<Edge>>, edge: Edge)
    ensures Processed(net, Known(net, cache, edge), edge) == Processed(net, cache, edge)
  {
    hide Candidates, Asym, Sym;
  }

  /** The first `k` edges have been processed. */
  ghost predicate Progress(net: Net, before: map<Edge, set<Edge>>, cache: map<Edge, set<Edge>>, k: nat, mode: Mode)
    requires k <= |net.edges|
  {
    var done := net.edges[..k];
    if !mode.byRadius then cache == before
    else if mode.symmetrical then forall e :: e in done ==> e in cache && cache[e] == Sym(net, e)
    else
      && (forall e :: e in cache <==> e in before || e in done)
      && (forall e :: e in cache ==> cache[e] == Known(net, before, e)[e])
  }

  lemma ProgressStarts(net: Net, before: map<Edge, set<Edge>>, mode: Mode)
    requires net.Valid()
    ensures Progress(net, before, before, 0, mode) && Listed(net, before, [], mode)
  {
  }

  lemma ProgressStep(net: Net, before: map<Edge, set<Edge>>, cache: map<Edge, set<Edge>>, k: nat, mode: Mode)
    requires net.Valid() && k < |net.edges| && Progress(net, before, cache, k, mode)
    ensures var e := net.edges[k];
      && Progress(net, before, After(net, cache, e, mode), k + 1, mode)
      && (mode.byRadius ==> e in After(net, cache, e, mode))
      && District(net, before, e, mode) ==
         Travelled(net, e, mode.travelDist) + if mode.byRadius then After(net, cache, e, mode)[e] else {}
  {
    hide Sym, Asym, Candidates, Net.Valid, Travelled;
    NextDone(net.edges, k);
    if mode.byRadius && !mode.symmetrical {
      KnownProgress(net, before, cache, k, mode);
    }
  }

  lemma NextDone(edges: seq<Edge>, k: nat)
    requires k < |edges|
    ensures forall e :: e in edges[..k + 1] <==> e in edges[..k] || e == edges[k]
  {
    assert edges[..k + 1] == edges[..k] + [edges[k]];
  }

  lemma KnownProgress(net: Net, before: map<Edge, set<Edge>>, cache: map<Edge, set<Edge>>, k: nat, mode: Mode)
    requires k < |net.edges| && Progress(net, before, cache, k, mode) && mode.byRadius && !mode.symmetrical
    ensures Progress(net, before, Known(net, cache, net.edges[k]), k + 1, mode)
    ensures Known(net, cache, net.edges[k])[net.edges[k]] == Known(net, before, net.edges[k])[net.edges[k]]
  {
    hide Sym, Asym, Candidates, Net.Valid;
    NextDone(net.edges, k);
  }

  lemma ProgressEnds(net: Net, before: map<Edge, set<Edge>>, cache: map<Edge, set<Edge>>, mode: Mode)
    requires CacheOk(net, cache) && CacheOk(net, before)
    requires Progress(net, before, cache, |net.edges|, mode)
    ensures cache == FinalCache(net, before, mode)
  {
    assert net.edges[..|net.edges|] == net.edges;
    hide Sym, Asym;
  }

  // ---------------------------------------------------------------- is the extended relation symmetrical?

  /** The relation the symmetrical option builds is symmetrical exactly when every opposite edge also has the
      edge among its own opposites or candidates. */
  lemma SymmetricalExactly(net: Net)
    ensures (forall e, c :: e in net.edges && c in net.edges && c in Sym(net, e) ==> e in Sym(net, c))
        <==> (forall e, c :: e in net.edges && c in net.edges && c in Asym(net, e) ==>
                e in Asym(net, c) || e in Candidates(net, c))
  {
    forall e, c | c in Asym(net, e)
      ensures e in Sym(net, c) <==> e in Asym(net, c) || e in Candidates(net, c)
    {
    }
    forall e, c | c in Sym(net, e) && c !in Asym(net, e) ensures e in Asym(net, c) && e in Sym(net, c) {
    }
    forall e, c | c in Asym(net, e) ensures c in Sym(net, e) {
    }
    hide Asym, Candidates, Sym;
  }

  /** Edge 0 is 10 long and edge 1, beside its middle, is 1 long: searched from the ends of edge 0 with a radius of up
      to half its length both edges are near, but the radius for edge 1 is at most half of 1 and edge 0 is not near
      its ends. The extended relation stays one-sided. */
  lemma OneSided() returns (net: Net)
    ensures net.Valid() && net.length(0) == 10.0 && net.length(1) == 1.0
    ensures net.near(0) == [{0, 1}, {0, 1}] && net.near(1) == [{1}, {1}]
    ensures 1 in Sym(net, 0) && 0 !in Sym(net, 1)
  {
    net := Net([0, 1], e => if e == 0 then 10.0 else 1.0, _ => [],
               e => if e == 0 then [{0, 1}, {0, 1}] else [{1}, {1}], _ => {});
    assert net.EdgeValid(0) && net.EdgeValid(1);
    assert net.near(0)[0] == {0, 1} && net.near(1)[0] == {1} && net.near(1)[1] == {1};
  }
}
