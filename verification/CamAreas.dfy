/** The parts of the protocol for awareness messages (CAMs) and what they do for one station: the general subscription
    vector, the subscriptions with their areas, and the loops over areas and stations. */
module CamAreas {

  import opened Wrappers

  /** A station, with its id in the synchroniser and its id in the network simulator. Id 0 is the management centre. */
  datatype Node = Node(icsId: nat, nsId: nat)

  /** A row of the general subscription vector. */
  datatype Entry = Entry(stationId: nat, frequency: nat, payload: nat, node: Node)

  datatype CamArea = CamArea(subscriptionId: int, payload: nat)

  // ---------------------------------------------------------------- the general subscription vector

  /** Position of the first row of a station, or the length of the vector. */
  function RowOf(v: seq<Entry>, id: nat): (i: nat)
    ensures i <= |v| && (i < |v| ==> v[i].stationId == id) && forall k :: 0 <= k < i ==> v[k].stationId != id
  {
    if v == [] || v[0].stationId == id then 0 else 1 + RowOf(v[1..], id)
  }

  /** The first row of a station. */
  function Row(v: seq<Entry>, id: nat): Option<Entry> {
    var i := RowOf(v, id);
    if i < |v| then Some(v[i]) else None
  }

  function WithRow(v: seq<Entry>, e: Entry): seq<Entry> {
    var i := RowOf(v, e.stationId);
    if i < |v| then v[i := v[i].(frequency := e.frequency, payload := e.payload)] else v + [e]
  }

  function WithoutRow(v: seq<Entry>, id: nat): seq<Entry> {
    var i := RowOf(v, id);
    if i < |v| then v[..i] + v[i + 1..] else v
  }

  ghost predicate RowsUnique(v: seq<Entry>) {
    forall i, j :: 0 <= i < j < |v| ==> v[i].stationId != v[j].stationId
  }

  lemma RowIsThe(v: seq<Entry>, e: Entry)
    requires RowsUnique(v) && e in v
    ensures Row(v, e.stationId) == Some(e)
  {
    var k :| 0 <= k < |v| && v[k] == e;
    assert RowOf(v, e.stationId) == k;
  }

  lemma RowIn(v: seq<Entry>, id: nat)
    ensures Row(v, id).Some? ==> Row(v, id).value in v && Row(v, id).value.stationId == id
    ensures Row(v, id).None? ==> forall e :: e in v ==> e.stationId != id
  {
  }

  lemma WithRowUnique(v: seq<Entry>, e: Entry)
    requires RowsUnique(v)
    ensures RowsUnique(WithRow(v, e))
  {
  }

  lemma WithoutRowUnique(v: seq<Entry>, id: nat)
    requires RowsUnique(v)
    ensures RowsUnique(WithoutRow(v, id))
  {
  }

  lemma WithRowRow(v: seq<Entry>, e: Entry, id: nat)
    requires RowsUnique(v)
    ensures Row(WithRow(v, e), id) ==
      if id != e.stationId then Row(v, id)
      else if Row(v, id).Some? then Some(Row(v, id).value.(frequency := e.frequency, payload := e.payload)) else Some(e)
  {
    var w, i := WithRow(v, e), RowOf(v, e.stationId);
    WithRowUnique(v, e);
    RowIn(v, id);
    RowIn(w, id);
    if id == e.stationId {
      assert w[i] in w;
      RowIsThe(w, w[i]);
    } else {
      if Row(v, id).Some? {
        assert w[RowOf(v, id)] == v[RowOf(v, id)];
        RowIsThe(w, Row(v, id).value);
      }
    }
  }

  lemma WithoutRowRow(v: seq<Entry>, id: nat, other: nat)
    requires RowsUnique(v)
    ensures Row(WithoutRow(v, id), other) == if other == id then None else Row(v, other)
  {
    var w, i := WithoutRow(v, id), RowOf(v, id);
    WithoutRowUnique(v, id);
    RowIn(v, other);
    RowIn(w, other);
    if other == id {
      forall e | e in w ensures e.stationId != id {
        var k :| 0 <= k < |w| && w[k] == e;
        if i < |v| { assert e == v[if k < i then k else k + 1]; }
      }
    } else {
      if Row(v, other).Some? {
        var k := RowOf(v, other);
        assert w[if k < i then k else k - 1] == v[k];
        RowIsThe(w, v[k]);
      } else {
        assert forall e :: e in w ==> e in v;
      }
    }
  }

  // ---------------------------------------------------------------- subscriptions and areas

  datatype Status = JustArrived | JustLeft | StillInside | StillOutside

  /** A subscription; `nodesInArea` is used by those that set a CAM area. */
  class Subscription {
    const id: int
    const isCamArea: bool
    const frequency: nat
    var nodesInArea: seq<Node>

    constructor (id: int, isCamArea: bool, frequency: nat)
      ensures this.id == id && this.isCamArea == isCamArea && this.frequency == frequency && nodesInArea == []
    {
      this.id, this.isCamArea, this.frequency, nodesInArea := id, isCamArea, frequency, [];
    }

    method CheckNodeStatus(node: Node, nowInside: bool) returns (status: Status)
      ensures status == if node in nodesInArea then (if nowInside then StillInside else JustLeft)
                        else if nowInside then JustArrived else StillOutside
    {
      var was := node in nodesInArea;
      if was && nowInside { return StillInside; }
      if !was && nowInside { return JustArrived; }
      if !was && !nowInside { return StillOutside; }
      return JustLeft;
    }

    method AddNodeToVector(node: Node)
      modifies this
      ensures nodesInArea == Settle(old(nodesInArea), node, true)
    {
      if node !in nodesInArea {
        nodesInArea := nodesInArea + [node];
      }
    }

    method RemoveNodeFromVector(node: Node)
      modifies this
      ensures nodesInArea == Settle(old(nodesInArea), node, false)
    {
      ghost var before := nodesInArea;
      var i := 0;
      while i < |nodesInArea|
        invariant 0 <= i <= |nodesInArea| && nodesInArea == before
        invariant before[..i] + Without(before[i..], node) == Without(before, node)
      {
        if nodesInArea[i] == node {
          nodesInArea := nodesInArea[..i] + nodesInArea[i + 1..];
          return;
        }
        assert before[..i + 1] + Without(before[i + 1..], node) == before[..i] + Without(before[i..], node);
        i := i + 1;
      }
    }
  }

  /** The list without the first occurrence of a node. */
  function Without(s: seq<Node>, node: Node): seq<Node> {
    if s == [] then [] else if s[0] == node then s[1..] else [s[0]] + Without(s[1..], node)
  }

  /** The nodes of an area after one node was found inside or outside. */
  function Settle(s: seq<Node>, node: Node, inside: bool): seq<Node> {
    if !inside then Without(s, node) else if node in s then s else s + [node]
  }

  ghost predicate Distinct(s: seq<Node>) { forall i, j :: 0 <= i < j < |s| ==> s[i] != s[j] }

  lemma {:induction false} WithoutMembers(s: seq<Node>, node: Node)
    requires Distinct(s)
    ensures Distinct(Without(s, node)) && forall x :: x in Without(s, node) <==> x in s && x != node
  {
    if s != [] {
      assert forall x :: x in s <==> x == s[0] || x in s[1..];
      if s[0] == node {
        assert forall x :: x in s[1..] ==> x != node;
      } else {
        WithoutMembers(s[1..], node);
        var r := Without(s[1..], node);
        assert s[0] !in r;
      }
    }
  }

  lemma SettleMembers(s: seq<Node>, node: Node, inside: bool)
    requires Distinct(s)
    ensures Distinct(Settle(s, node, inside))
    ensures forall x :: x in Settle(s, node, inside) <==> if x == node then inside else x in s
  {
    WithoutMembers(s, node);
  }

  /** What the subscription search of the protocol yields: the first subscription of that id, the last one when
      there is none of that id, -1 when there are no subscriptions at all. */
  function LookUp(subs: seq<Subscription>, id: int): (k: int)
    ensures -1 <= k < |subs| && (subs != [] ==> 0 <= k)
  {
    if subs == [] then -1 else if subs[0].id == id || |subs| == 1 then 0 else 1 + LookUp(subs[1..], id)
  }

  /** Ids are unique and each area was created for a registered area subscription of its own. */
  ghost predicate Registered(subs: seq<Subscription>, areas: seq<CamArea>) {
    && (forall i, j :: 0 <= i < j < |subs| ==> subs[i].id != subs[j].id)
    && (forall a :: 0 <= a < |areas| ==> HasCamSubscription(subs, areas[a].subscriptionId))
    && (forall a, b :: 0 <= a < b < |areas| ==> areas[a].subscriptionId != areas[b].subscriptionId)
  }

  ghost predicate HasCamSubscription(subs: seq<Subscription>, id: int) {
    exists k :: 0 <= k < |subs| && subs[k].id == id && subs[k].isCamArea
  }

  lemma {:induction false} LookUpFirst(subs: seq<Subscription>, id: int, k: nat)
    requires k < |subs| && subs[k].id == id && forall i :: 0 <= i < k ==> subs[i].id != id
    ensures LookUp(subs, id) == k
  {
    if k > 0 {
      LookUpFirst(subs[1..], id, k - 1);
    }
  }

  /** The search for the subscription of an area succeeds and yields an area subscription. */
  lemma LookUpSucceeds(subs: seq<Subscription>, areas: seq<CamArea>, a: nat)
    requires Registered(subs, areas) && a < |areas|
    ensures var k := LookUp(subs, areas[a].subscriptionId);
      0 <= k < |subs| && subs[k].id == areas[a].subscriptionId && subs[k].isCamArea
  {
    assert HasCamSubscription(subs, areas[a].subscriptionId);
    var k :| 0 <= k < |subs| && subs[k].id == areas[a].subscriptionId && subs[k].isCamArea;
    LookUpFirst(subs, areas[a].subscriptionId, k);
  }

  // ---------------------------------------------------------------- one station in one step

  /** What the areas ask of a station: whether it is in any, and the highest frequency and payload among those. */
  datatype Want = Want(inAny: bool, frequency: nat, payload: nat)

  function Max(a: nat, b: nat): nat { if a < b then b else a }

  function Frequency(subs: seq<Subscription>, id: int): nat {
    var k := LookUp(subs, id);
    if k == -1 then 0 else subs[k].frequency
  }

  /** Geometry is not modelled: whether a node is inside the circle of a subscription at this step is given. */
  type Inside = (int, Node) -> bool

  function Wanted(subs: seq<Subscription>, areas: seq<CamArea>, node: Node, inside: Inside): Want {
    if areas == [] then Want(false, 0, 0)
    else
      var a := areas[|areas| - 1];
      var w := Wanted(subs, areas[..|areas| - 1], node, inside);
      if inside(a.subscriptionId, node)
      then Want(true, Max(w.frequency, Frequency(subs, a.subscriptionId)), Max(w.payload, a.payload)) else w
  }

  /** The maxima are over the areas that hold the node. */
  lemma {:induction false} WantedIsMaximum(subs: seq<Subscription>, areas: seq<CamArea>, node: Node, inside: Inside)
    ensures var w := Wanted(subs, areas, node, inside);
      && (w.inAny <==> exists a :: a in areas && inside(a.subscriptionId, node))
      && (forall a :: a in areas && inside(a.subscriptionId, node) ==>
        Frequency(subs, a.subscriptionId) <= w.frequency && a.payload <= w.payload)
      && (w.inAny ==>
          && (exists a :: a in areas && inside(a.subscriptionId, node) &&
                w.frequency == Frequency(subs, a.subscriptionId))
          && (exists a :: a in areas && inside(a.subscriptionId, node) && w.payload == a.payload))
      && (!w.inAny ==> w.frequency == 0 && w.payload == 0)
  {
    if areas != [] {
      var front, last := areas[..|areas| - 1], areas[|areas| - 1];
      WantedIsMaximum(subs, front, node, inside);
      assert forall a :: a in areas <==> a in front || a == last;
      hide LookUp, Frequency;
    }
  }

  /** The nodes of every subscription's area after one node visited the given areas. */
  function Visited(subs: seq<Subscription>, areas: seq<CamArea>, inArea: seq<seq<Node>>, node: Node,
                   inside: Inside): (r: seq<seq<Node>>)
    requires |subs| == |inArea|
    ensures |r| == |inArea|
  {
    seq(|inArea|, j requires 0 <= j < |inArea| =>
      if HasArea(areas, subs[j].id) then Settle(inArea[j], node, inside(subs[j].id, node)) else inArea[j])
  }

  predicate HasArea(areas: seq<CamArea>, id: int) { exists a :: 0 <= a < |areas| && areas[a].subscriptionId == id }

  lemma VisitedStep(subs: seq<Subscription>, areas: seq<CamArea>, inArea: seq<seq<Node>>, node: Node, inside: Inside,
                    a: nat)
    requires Registered(subs, areas) && |subs| == |inArea| && a < |areas|
    ensures var k, before := LookUp(subs, areas[a].subscriptionId), Visited(subs, areas[..a], inArea, node, inside);
      && 0 <= k < |subs| && subs[k].id == areas[a].subscriptionId && before[k] == inArea[k]
      && Visited(subs, areas[..a + 1], inArea, node, inside) ==
        before[k := Settle(inArea[k], node, inside(subs[k].id, node))]
  {
    LookUpSucceeds(subs, areas, a);
    var k, before := LookUp(subs, areas[a].subscriptionId), Visited(subs, areas[..a], inArea, node, inside);
    hide LookUp, HasCamSubscription;
    assert !HasArea(areas[..a], subs[k].id);
    assert HasArea(areas[..a + 1], subs[k].id) by { assert areas[..a + 1][a].subscriptionId == subs[k].id; }
    var after := Visited(subs, areas[..a + 1], inArea, node, inside);
    forall j | 0 <= j < |subs| && j != k ensures after[j] == before[j] {
      HasAreaStep(areas, a, subs[j].id);
    }
  }

  lemma HasAreaStep(areas: seq<CamArea>, a: nat, id: int)
    requires a < |areas|
    ensures HasArea(areas[..a + 1], id) <==> HasArea(areas[..a], id) || areas[a].subscriptionId == id
  {
    assert areas[..a + 1] == areas[..a] + [areas[a]];
    if HasArea(areas[..a], id) {
      var b :| 0 <= b < a && areas[..a][b].subscriptionId == id;
      assert areas[..a + 1][b].subscriptionId == id;
    }
    if areas[a].subscriptionId == id { assert areas[..a + 1][a].subscriptionId == id; }
  }

  /** The vector and the two lists of simulator ids that one step collects. */
  datatype Round = Round(general: seq<Entry>, stop: seq<nat>, start: seq<nat>)

  /** The vector and lists after one station, by what its areas ask of it. */
  function NodeRound(r: Round, node: Node, w: Want): Round {
    var row := Row(r.general, node.icsId);
    if node.icsId == 0 then r
    else if row.Some? && !w.inAny then Round(WithoutRow(r.general, node.icsId), r.stop + [node.nsId], r.start)
    else if !w.inAny then r
    else if row.Some? && row.value.frequency == w.frequency && row.value.payload == w.payload then r
    else Round(WithRow(r.general, Entry(node.icsId, w.frequency, w.payload, node)),
               if row.Some? then r.stop + [node.nsId] else r.stop, r.start + [node.nsId])
  }

  function Rounds(r: Round, nodes: seq<Node>, subs: seq<Subscription>, areas: seq<CamArea>, inside: Inside): Round {
    if nodes == [] then r
    else
      var n := |nodes| - 1;
      NodeRound(Rounds(r, nodes[..n], subs, areas, inside), nodes[n], Wanted(subs, areas, nodes[n], inside))
  }

  function AllVisited(inArea: seq<seq<Node>>, nodes: seq<Node>, subs: seq<Subscription>, areas: seq<CamArea>,
                      inside: Inside): (r: seq<seq<Node>>)
    requires |subs| == |inArea|
    ensures |r| == |inArea|
  {
    if nodes == [] then inArea
    else
      var n := |nodes| - 1;
      var before := AllVisited(inArea, nodes[..n], subs, areas, inside);
      if nodes[n].icsId == 0 then before else Visited(subs, areas, before, nodes[n], inside)
  }

  // ---------------------------------------------------------------- the nodes held by the areas

  lemma WithoutAbsent(s: seq<Node>, node: Node)
    requires node !in s
    ensures Without(s, node) == s
  {
    if s != [] {
      assert forall x :: x in s[1..] ==> x in s;
      WithoutAbsent(s[1..], node);
    }
  }

  /** After a step the list of an area's subscription holds, of the present stations, exactly those inside; what it
      holds besides them is unchanged, and it has no duplicates. */
  lemma {:induction false} AllVisitedMembers(inArea: seq<seq<Node>>, nodes: seq<Node>, subs: seq<Subscription>,
                                             areas: seq<CamArea>, inside: Inside, j: nat)
    requires |subs| == |inArea| && j < |subs| && Distinct(inArea[j])
    ensures var after := AllVisited(inArea, nodes, subs, areas, inside)[j];
      && Distinct(after)
      && (!HasArea(areas, subs[j].id) ==> after == inArea[j])
      && (HasArea(areas, subs[j].id) ==> forall x :: x in after <==>
            if x in nodes && x.icsId != 0 then inside(subs[j].id, x) else x in inArea[j])
  {
    hide HasArea, Settle, Distinct;
    if nodes != [] {
      var n := |nodes| - 1;
      AllVisitedMembers(inArea, nodes[..n], subs, areas, inside, j);
      var before := AllVisited(inArea, nodes[..n], subs, areas, inside);
      SettleMembers(before[j], nodes[n], inside(subs[j].id, nodes[n]));
      assert forall x :: x in nodes <==> x in nodes[..n] || x == nodes[n];
    }
  }
}
