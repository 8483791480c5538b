/** What one step of the protocol for awareness messages establishes: the rows of the vector, and the stations that the
    network simulator lets send. */
module CamSenders {

  import opened Wrappers
  import opened CamAreas

  // ---------------------------------------------------------------- what a step establishes

  /** Stations are told apart by either id; rows are unique and belong to stations other than the management centre. */
  ghost predicate Coherent(nodes: seq<Node>, general: seq<Entry>) {
    && Distinct(nodes) && RowsUnique(general)
    && (forall e :: e in general ==> e.stationId == e.node.icsId && e.stationId != 0)
    && (forall a, b ::
          Known(nodes, general, a) && Known(nodes, general, b) && (a.icsId == b.icsId || a.nsId == b.nsId) ==> a == b)
  }

  ghost predicate Known(nodes: seq<Node>, general: seq<Entry>, n: Node) {
    n in nodes || exists e :: e in general && e.node == n
  }

  /** Simulator ids of the stations in the vector. */
  ghost function NsIds(general: seq<Entry>): set<nat> { set e | e in general :: e.node.nsId }

  ghost function Ids(s: seq<nat>): set<nat> { set x | x in s }

  lemma RoundsStep(r: Round, nodes: seq<Node>, subs: seq<Subscription>, areas: seq<CamArea>, inside: Inside, k: nat)
    requires k < |nodes|
    ensures Rounds(r, nodes[..k + 1], subs, areas, inside)
         == NodeRound(Rounds(r, nodes[..k], subs, areas, inside), nodes[k], Wanted(subs, areas, nodes[k], inside))
  {
    assert nodes[..k + 1][..k] == nodes[..k];
  }

  lemma AllVisitedStep(inArea: seq<seq<Node>>, nodes: seq<Node>, subs: seq<Subscription>, areas: seq<CamArea>,
                       inside: Inside, k: nat)
    requires k < |nodes| && |subs| == |inArea|
    ensures var before := AllVisited(inArea, nodes[..k], subs, areas, inside);
      AllVisited(inArea, nodes[..k + 1], subs, areas, inside)
      == if nodes[k].icsId == 0 then before else Visited(subs, areas, before, nodes[k], inside)
  {
    assert nodes[..k + 1][..k] == nodes[..k];
  }

  /** The row of a station after one station's turn. */
  lemma NodeRoundRow(r: Round, node: Node, w: Want, id: nat)
    requires RowsUnique(r.general)
    ensures RowsUnique(NodeRound(r, node, w).general)
    ensures Row(NodeRound(r, node, w).general, id) ==
      if id != node.icsId || id == 0 then Row(r.general, id)
      else if !w.inAny then None
      else if Row(r.general, id).Some?
        then Some(Row(r.general, id).value.(frequency := w.frequency, payload := w.payload))
      else Some(Entry(id, w.frequency, w.payload, node))
  {
    var e := Entry(node.icsId, w.frequency, w.payload, node);
    WithoutRowUnique(r.general, node.icsId);
    WithRowUnique(r.general, e);
    WithoutRowRow(r.general, node.icsId, id);
    WithRowRow(r.general, e, id);
    hide RowOf, WithRow, WithoutRow, RowsUnique, Row;
  }

  /** The row a station has after the step: none or the maxima of its areas when it is present, unchanged otherwise. */
  ghost predicate RowSettled(before: seq<Entry>, after: seq<Entry>, nodes: seq<Node>, subs: seq<Subscription>,
                             areas: seq<CamArea>, inside: Inside, id: nat)
  {
    && ((forall n :: n in nodes && n.icsId == id ==> id == 0) ==> Row(after, id) == Row(before, id))
    && forall n :: n in nodes && n.icsId == id && id != 0 ==>
        var w := Wanted(subs, areas, n, inside);
        if !w.inAny then Row(after, id) == None
        else
          Row(after, id) ==
            Some(Entry(id, w.frequency, w.payload, if Row(before, id).Some? then Row(before, id).value.node else n))
  }

  ghost predicate IcsIdsDistinct(nodes: seq<Node>) {
    forall i, j :: 0 <= i < j < |nodes| ==> nodes[i].icsId != nodes[j].icsId
  }

  lemma {:induction false} RoundsRows(r: Round, nodes: seq<Node>, subs: seq<Subscription>, areas: seq<CamArea>,
                                      inside: Inside, id: nat)
    requires RowsUnique(r.general) && IcsIdsDistinct(nodes)
    ensures RowsUnique(Rounds(r, nodes, subs, areas, inside).general)
    ensures RowSettled(r.general, Rounds(r, nodes, subs, areas, inside).general, nodes, subs, areas, inside, id)
  {
    if nodes != [] {
      hide RowOf, WithRow, WithoutRow, RowsUnique, Row, NodeRound, Wanted, RowSettled;
      var n := |nodes| - 1;
      var node, w, before :=
        nodes[n], Wanted(subs, areas, nodes[n], inside), Rounds(r, nodes[..n], subs, areas, inside);
      RoundsRows(r, nodes[..n], subs, areas, inside, id);
      NodeRoundRow(before, node, w, id);
      RowIn(r.general, id);
      RowSettledStep(r.general, before.general, NodeRound(before, node, w).general, nodes, subs, areas, inside, id);
    }
  }

  lemma RowSettledStep(general: seq<Entry>, before: seq<Entry>, after: seq<Entry>, nodes: seq<Node>,
                       subs: seq<Subscription>, areas: seq<CamArea>, inside: Inside, id: nat)
    requires nodes != [] && IcsIdsDistinct(nodes)
    requires RowSettled(general, before, nodes[..|nodes| - 1], subs, areas, inside, id)
    requires Row(general, id).Some? ==> Row(general, id).value.stationId == id
    requires var node := nodes[|nodes| - 1];
      var w := Wanted(subs, areas, node, inside);
      Row(after, id) ==
        if id != node.icsId || id == 0 then Row(before, id)
        else if !w.inAny then None
        else if Row(before, id).Some? then Some(Row(before, id).value.(frequency := w.frequency, payload := w.payload))
        else Some(Entry(id, w.frequency, w.payload, node))
    ensures RowSettled(general, after, nodes, subs, areas, inside, id)
  {
    hide Row, Wanted;
    var node, front := nodes[|nodes| - 1], nodes[..|nodes| - 1];
    assert forall x :: x in nodes <==> x in front || x == node;
    assert forall x :: x in front ==> x.icsId != node.icsId;
  }

  /** The station is stopped in this step: it leaves all areas, or is to be started again with other values. */
  predicate Stops(before: seq<Entry>, n: Node, w: Want) {
    n.icsId != 0 && var row := Row(before, n.icsId);
      row.Some? && (w.inAny ==> row.value.frequency != w.frequency || row.value.payload != w.payload)
  }

  predicate Starts(before: seq<Entry>, n: Node, w: Want) {
    n.icsId != 0 && w.inAny && (Row(before, n.icsId).None? || Stops(before, n, w))
  }

  lemma NodeRoundLists(r: Round, node: Node, w: Want)
    ensures NodeRound(r, node, w).stop == if Stops(r.general, node, w) then r.stop + [node.nsId] else r.stop
    ensures NodeRound(r, node, w).start == if Starts(r.general, node, w) then r.start + [node.nsId] else r.start
  {
  }

  /** Some station of that simulator id is stopped, or started, by the step. */
  ghost predicate SomeStops(general: seq<Entry>, nodes: seq<Node>, subs: seq<Subscription>, areas: seq<CamArea>,
                            inside: Inside, x: nat) {
    exists n :: n in nodes && n.nsId == x && Stops(general, n, Wanted(subs, areas, n, inside))
  }

  ghost predicate SomeStarts(general: seq<Entry>, nodes: seq<Node>, subs: seq<Subscription>, areas: seq<CamArea>,
                             inside: Inside, x: nat) {
    exists n :: n in nodes && n.nsId == x && Starts(general, n, Wanted(subs, areas, n, inside))
  }

  lemma SomeStep(general: seq<Entry>, nodes: seq<Node>, subs: seq<Subscription>, areas: seq<CamArea>, inside: Inside,
                 x: nat)
    requires nodes != []
    ensures var n := nodes[|nodes| - 1];
      && (SomeStops(general, nodes, subs, areas, inside, x) <==>
          SomeStops(general, nodes[..|nodes| - 1], subs, areas, inside, x) ||
            (n.nsId == x && Stops(general, n, Wanted(subs, areas, n, inside))))
      && (SomeStarts(general, nodes, subs, areas, inside, x) <==>
          SomeStarts(general, nodes[..|nodes| - 1], subs, areas, inside, x) ||
            (n.nsId == x && Starts(general, n, Wanted(subs, areas, n, inside))))
  {
    hide Stops, Starts, Wanted;
    assert forall m :: m in nodes <==> m in nodes[..|nodes| - 1] || m == nodes[|nodes| - 1];
  }

  lemma {:induction false} RoundsLists(r: Round, nodes: seq<Node>, subs: seq<Subscription>, areas: seq<CamArea>,
                                       inside: Inside, x: nat)
    requires RowsUnique(r.general) && IcsIdsDistinct(nodes) && r.stop == r.start == []
    ensures x in Rounds(r, nodes, subs, areas, inside).stop <==> SomeStops(r.general, nodes, subs, areas, inside, x)
    ensures x in Rounds(r, nodes, subs, areas, inside).start <==> SomeStarts(r.general, nodes, subs, areas, inside, x)
  {
    if nodes != [] {
      var n := |nodes| - 1;
      RoundsLists(r, nodes[..n], subs, areas, inside, x);
      LastLists(r, nodes, subs, areas, inside);
      SomeStep(r.general, nodes, subs, areas, inside, x);
      hide SomeStops, SomeStarts, Stops, Starts, Wanted, NodeRound, Rounds;
    }
  }

  lemma LastLists(r: Round, nodes: seq<Node>, subs: seq<Subscription>, areas: seq<CamArea>, inside: Inside)
    requires RowsUnique(r.general) && IcsIdsDistinct(nodes) && nodes != []
    ensures var n := |nodes| - 1;
      var node, w, before :=
        nodes[n], Wanted(subs, areas, nodes[n], inside), Rounds(r, nodes[..n], subs, areas, inside);
      var after := Rounds(r, nodes, subs, areas, inside);
      && after.stop == (if Stops(r.general, node, w) then before.stop + [node.nsId] else before.stop)
      && after.start == (if Starts(r.general, node, w) then before.start + [node.nsId] else before.start)
  {
    var n := |nodes| - 1;
    var node, w, before := nodes[n], Wanted(subs, areas, nodes[n], inside), Rounds(r, nodes[..n], subs, areas, inside);
    RoundsRows(r, nodes[..n], subs, areas, inside, node.icsId);
    NodeRoundLists(before, node, w);
    hide Row, Wanted, NodeRound, RowsUnique;
    assert node.icsId != 0 ==> Row(before.general, node.icsId) == Row(r.general, node.icsId);
  }

  /** The simulator ids of the chosen stations, in the order of the stations. */
  ghost function Chosen(nodes: seq<Node>, p: Node -> bool): seq<nat> {
    if nodes == [] then []
    else Chosen(nodes[..|nodes| - 1], p) + if p(nodes[|nodes| - 1]) then [nodes[|nodes| - 1].nsId] else []
  }

  /** The lists name each station to be stopped, or started, once, in the order of the stations. */
  lemma {:induction false} ListsInOrder(r: Round, nodes: seq<Node>, subs: seq<Subscription>, areas: seq<CamArea>,
                                        inside: Inside, stops: Node -> bool, starts: Node -> bool)
    requires RowsUnique(r.general) && IcsIdsDistinct(nodes) && r.stop == r.start == []
    requires forall n :: stops(n) <==> Stops(r.general, n, Wanted(subs, areas, n, inside))
    requires forall n :: starts(n) <==> Starts(r.general, n, Wanted(subs, areas, n, inside))
    ensures Rounds(r, nodes, subs, areas, inside).stop == Chosen(nodes, stops)
    ensures Rounds(r, nodes, subs, areas, inside).start == Chosen(nodes, starts)
  {
    if nodes != [] {
      ListsInOrder(r, nodes[..|nodes| - 1], subs, areas, inside, stops, starts);
      LastLists(r, nodes, subs, areas, inside);
      hide Stops, Starts, Wanted, NodeRound, Rounds;
    }
  }

  /** What the simulator's senders become when both commands take effect. */
  ghost function Commanded(senders: set<nat>, r: Round): set<nat> { senders - Ids(r.stop) + Ids(r.start) }

  /** A known station is in the vector exactly when its simulator id is among those of the vector. */
  lemma NsIdsByRow(nodes: seq<Node>, general: seq<Entry>, known: seq<Entry>, n: Node)
    requires Coherent(nodes, known) && Known(nodes, known, n) && RowsUnique(general)
    requires forall e :: e in general ==> e.stationId == e.node.icsId && Known(nodes, known, e.node)
    ensures n.nsId in NsIds(general) <==> Row(general, n.icsId).Some?
  {
    RowIn(general, n.icsId);
    if n.nsId in NsIds(general) {
      var e :| e in general && e.node.nsId == n.nsId;
      assert e.node == n;
    }
    if Row(general, n.icsId).Some? {
      assert Row(general, n.icsId).value.node == n;
    }
  }

  lemma CoherentDistinct(nodes: seq<Node>, general: seq<Entry>)
    requires Coherent(nodes, general)
    ensures IcsIdsDistinct(nodes)
  {
    forall i, j | 0 <= i < j < |nodes| ensures nodes[i].icsId != nodes[j].icsId {
      assert Known(nodes, general, nodes[i]) && Known(nodes, general, nodes[j]);
    }
  }

  lemma RoundsCoherent(r: Round, nodes: seq<Node>, subs: seq<Subscription>, areas: seq<CamArea>, inside: Inside)
    requires Coherent(nodes, r.general)
    ensures Coherent(nodes, Rounds(r, nodes, subs, areas, inside).general)
    ensures forall e :: e in Rounds(r, nodes, subs, areas, inside).general ==> Known(nodes, r.general, e.node)
  {
    var after := Rounds(r, nodes, subs, areas, inside).general;
    CoherentDistinct(nodes, r.general);
    RoundsRows(r, nodes, subs, areas, inside, 0);
    forall e | e in after ensures e.stationId == e.node.icsId && e.stationId != 0 && Known(nodes, r.general, e.node) {
      var id := e.stationId;
      RoundsRows(r, nodes, subs, areas, inside, id);
      RowIsThe(after, e);
      RowIn(r.general, id);
      RowIn(r.general, 0);
      hide Rounds, Row, Wanted, RowsUnique;
    }
    hide Rounds, Row, Wanted, RowsUnique, RowSettled;
    assert forall n :: Known(nodes, after, n) ==> Known(nodes, r.general, n);
  }

  /** When the simulator's senders agree with the vector before a step and the commands take effect, they agree after
      it. */
  lemma SendersAgree(general: seq<Entry>, nodes: seq<Node>, subs: seq<Subscription>, areas: seq<CamArea>,
                     inside: Inside)
    requires Coherent(nodes, general)
    ensures var r := Rounds(Round(general, [], []), nodes, subs, areas, inside);
      Commanded(NsIds(general), r) == NsIds(r.general)
  {
    var r0 := Round(general, [], []);
    var r := Rounds(r0, nodes, subs, areas, inside);
    RoundsCoherent(r0, nodes, subs, areas, inside);
    CoherentDistinct(nodes, general);
    forall x ensures x in Commanded(NsIds(general), r) <==> x in NsIds(r.general) {
      RoundsLists(r0, nodes, subs, areas, inside, x);
      hide Rounds, Row, Wanted, RowsUnique, Coherent;
      if n :| Known(nodes, general, n) && n.nsId == x {
        SenderAgrees(general, nodes, subs, areas, inside, n);
      }
    }
  }

  lemma SenderAgrees(general: seq<Entry>, nodes: seq<Node>, subs: seq<Subscription>, areas: seq<CamArea>,
                     inside: Inside, n: Node)
    requires Coherent(nodes, general) && Known(nodes, general, n)
    ensures var r := Rounds(Round(general, [], []), nodes, subs, areas, inside);
      n.nsId in Commanded(NsIds(general), r) <==> n.nsId in NsIds(r.general)
  {
    var r0 := Round(general, [], []);
    var r := Rounds(r0, nodes, subs, areas, inside);
    var w := Wanted(subs, areas, n, inside);
    RoundsCoherent(r0, nodes, subs, areas, inside);
    CoherentDistinct(nodes, general);
    RoundsLists(r0, nodes, subs, areas, inside, n.nsId);
    RoundsRows(r0, nodes, subs, areas, inside, n.icsId);
    NsIdsByRow(nodes, general, general, n);
    NsIdsByRow(nodes, r.general, general, n);
    assert forall m :: m in nodes && m.nsId == n.nsId ==> m == n;
    assert forall m :: m in nodes && m.icsId == n.icsId ==> m == n;
  }

  /** The reply to the stop command is not looked at. If the simulator did not carry it out, its senders agree with the
      vector after the step exactly when no station in the vector left all areas. */
  lemma StopIgnored(general: seq<Entry>, nodes: seq<Node>, subs: seq<Subscription>, areas: seq<CamArea>, inside: Inside)
    requires Coherent(nodes, general)
    ensures var r := Rounds(Round(general, [], []), nodes, subs, areas, inside);
      NsIds(general) + Ids(r.start) == NsIds(r.general) <==>
      forall n :: n in nodes && n.icsId != 0 && Row(general, n.icsId).Some? ==> Wanted(subs, areas, n, inside).inAny
  {
    var r0 := Round(general, [], []);
    var r := Rounds(r0, nodes, subs, areas, inside);
    SendersAgree(general, nodes, subs, areas, inside);
    RoundsCoherent(r0, nodes, subs, areas, inside);
    CoherentDistinct(nodes, general);
    forall n | n in nodes && n.icsId != 0 && Row(general, n.icsId).Some? && !Wanted(subs, areas, n, inside).inAny
      ensures n.nsId in NsIds(general) && n.nsId !in NsIds(r.general)
    {
      RoundsRows(r0, nodes, subs, areas, inside, n.icsId);
      hide NsIds, Row, Wanted, Rounds;
      LeaverGone(nodes, general, r.general, n);
    }
    if forall n :: n in nodes && n.icsId != 0 && Row(general, n.icsId).Some? ==> Wanted(subs, areas, n, inside).inAny {
      forall x | x in r.stop ensures x in r.start {
        StoppedStarts(general, nodes, subs, areas, inside, x);
      }
    }
  }

  lemma LeaverGone(nodes: seq<Node>, general: seq<Entry>, after: seq<Entry>, n: Node)
    requires Coherent(nodes, general) && Known(nodes, general, n) && RowsUnique(after)
    requires forall e :: e in after ==> e.stationId == e.node.icsId && Known(nodes, general, e.node)
    requires Row(general, n.icsId).Some? && Row(after, n.icsId).None?
    ensures n.nsId in NsIds(general) && n.nsId !in NsIds(after)
  {
    NsIdsByRow(nodes, general, general, n);
    NsIdsByRow(nodes, after, general, n);
  }

  lemma StoppedStarts(general: seq<Entry>, nodes: seq<Node>, subs: seq<Subscription>, areas: seq<CamArea>,
                      inside: Inside, x: nat)
    requires Coherent(nodes, general) && x in Rounds(Round(general, [], []), nodes, subs, areas, inside).stop
    requires forall n :: n in nodes && n.icsId != 0 && Row(general, n.icsId).Some? ==>
      Wanted(subs, areas, n, inside).inAny
    ensures x in Rounds(Round(general, [], []), nodes, subs, areas, inside).start
  {
    CoherentDistinct(nodes, general);
    RoundsLists(Round(general, [], []), nodes, subs, areas, inside, x);
    var n :| n in nodes && n.nsId == x && Stops(general, n, Wanted(subs, areas, n, inside));
    assert Starts(general, n, Wanted(subs, areas, n, inside));
  }

  /** The row of a station that has left stays as it is through every later step. */
  lemma DepartedRowStays(general: seq<Entry>, nodes: seq<Node>, subs: seq<Subscription>, areas: seq<CamArea>,
                         inside: Inside, row: Entry)
    requires Coherent(nodes, general) && row in general && row.node !in nodes
    ensures row in Rounds(Round(general, [], []), nodes, subs, areas, inside).general
  {
    var r0 := Round(general, [], []);
    CoherentDistinct(nodes, general);
    RoundsRows(r0, nodes, subs, areas, inside, row.stationId);
    RowIsThe(general, row);
    forall n | n in nodes ensures n.icsId != row.stationId {
      assert Known(nodes, general, n) && Known(nodes, general, row.node);
    }
    RowIn(Rounds(r0, nodes, subs, areas, inside).general, row.stationId);
  }

  /** After a step a present station is in the vector exactly when it is inside some area, with the maxima of the
      areas that hold it. */
  lemma PresentRows(general: seq<Entry>, nodes: seq<Node>, subs: seq<Subscription>, areas: seq<CamArea>, inside: Inside,
                    n: Node)
    requires Coherent(nodes, general) && n in nodes && n.icsId != 0
    ensures var row, w :=
      Row(Rounds(Round(general, [], []), nodes, subs, areas, inside).general, n.icsId), Wanted(subs, areas, n, inside);
      && (row.Some? <==> exists a :: a in areas && inside(a.subscriptionId, n))
      && (row.Some? ==> row == Some(Entry(n.icsId, w.frequency, w.payload, n)))
  {
    CoherentDistinct(nodes, general);
    RoundsRows(Round(general, [], []), nodes, subs, areas, inside, n.icsId);
    WantedIsMaximum(subs, areas, n, inside);
    RowIn(general, n.icsId);
    if Row(general, n.icsId).Some? {
      assert Known(nodes, general, Row(general, n.icsId).value.node) && Known(nodes, general, n);
    }
    hide Rounds, Wanted, Row;
  }

  ghost function VectorNodes(general: seq<Entry>): set<Node> { set e | e in general :: e.node }

  /** The present stations that are inside some area. */
  ghost function CoveredNodes(nodes: seq<Node>, areas: seq<CamArea>, inside: Inside): set<Node> {
    set n | n in nodes && n.icsId != 0 && exists a :: a in areas && inside(a.subscriptionId, n)
  }

  /** The vector holds exactly the present stations inside some area after a step, exactly when no row before it was
      that of a departed station. */
  lemma VectorExactly(general: seq<Entry>, nodes: seq<Node>, subs: seq<Subscription>, areas: seq<CamArea>,
                      inside: Inside)
    requires Coherent(nodes, general)
    ensures var after := Rounds(Round(general, [], []), nodes, subs, areas, inside).general;
      VectorNodes(after) == CoveredNodes(nodes, areas, inside) <==> forall e :: e in general ==> e.node in nodes
  {
    var r0 := Round(general, [], []);
    var after := Rounds(r0, nodes, subs, areas, inside).general;
    RoundsCoherent(r0, nodes, subs, areas, inside);
    hide Rounds, Row, RowsUnique;
    forall e | e in general && e.node !in nodes ensures e.node in VectorNodes(after) {
      DepartedRowStays(general, nodes, subs, areas, inside, e);
    }
    forall n | n in nodes && n.icsId != 0 ensures n in VectorNodes(after) <==> n in CoveredNodes(nodes, areas, inside) {
      PresentRows(general, nodes, subs, areas, inside, n);
      RowIn(after, n.icsId);
      if e :| e in after && e.node == n { RowIsThe(after, e); }
    }
  }

  ghost function SimulatorIds(stations: set<Node>): set<nat> { set n | n in stations :: n.nsId }

  /** When the simulator's senders agree with the vector and the commands take effect, exactly the present stations
      inside some area send after a step, exactly when no row before it was that of a departed station. */
  lemma SendersExactly(general: seq<Entry>, nodes: seq<Node>, subs: seq<Subscription>, areas: seq<CamArea>,
                       inside: Inside)
    requires Coherent(nodes, general)
    ensures var r := Rounds(Round(general, [], []), nodes, subs, areas, inside);
      Commanded(NsIds(general), r) == SimulatorIds(CoveredNodes(nodes, areas, inside)) <==>
        forall e :: e in general ==> e.node in nodes
  {
    var r := Rounds(Round(general, [], []), nodes, subs, areas, inside);
    SendersAgree(general, nodes, subs, areas, inside);
    VectorExactly(general, nodes, subs, areas, inside);
    RoundsCoherent(Round(general, [], []), nodes, subs, areas, inside);
    hide Rounds, Commanded, RowsUnique;
    assert NsIds(r.general) == SimulatorIds(VectorNodes(r.general));
    forall n | n in VectorNodes(r.general) + CoveredNodes(nodes, areas, inside) ensures Known(nodes, general, n) {
    }
    SameIdsSame(nodes, general, VectorNodes(r.general), CoveredNodes(nodes, areas, inside));
  }

  /** Sets of known stations are told apart by their simulator ids. */
  lemma SameIdsSame(nodes: seq<Node>, general: seq<Entry>, a: set<Node>, b: set<Node>)
    requires Coherent(nodes, general) && forall n :: n in a + b ==> Known(nodes, general, n)
    ensures SimulatorIds(a) == SimulatorIds(b) <==> a == b
  {
    if SimulatorIds(a) == SimulatorIds(b) {
      hide RowsUnique, Known;
      forall n ensures n in a <==> n in b {
        if n in a {
          assert n.nsId in SimulatorIds(b) && n in a + b;
          var m :| m in b && m.nsId == n.nsId;
          assert m in a + b;
        }
        if n in b {
          assert n.nsId in SimulatorIds(a) && n in a + b;
          var m :| m in a && m.nsId == n.nsId;
          assert m in a + b;
        }
      }
    }
  }

  /** A station is started exactly when it is inside some area and its id has no row, or one with other values. */
  lemma StartedExactly(general: seq<Entry>, nodes: seq<Node>, subs: seq<Subscription>, areas: seq<CamArea>,
                       inside: Inside, n: Node)
    requires RowsUnique(general) && IcsIdsDistinct(nodes) && n in nodes
    requires forall m :: m in nodes && m.nsId == n.nsId ==> m == n
    ensures n.nsId in Rounds(Round(general, [], []), nodes, subs, areas, inside).start <==>
      var row, w := Row(general, n.icsId), Wanted(subs, areas, n, inside);
      n.icsId != 0 && w.inAny && (row.Some? ==> row.value.frequency != w.frequency || row.value.payload != w.payload)
  {
    RoundsLists(Round(general, [], []), nodes, subs, areas, inside, n.nsId);
    hide Rounds, Wanted, Row;
  }

  /** A station is stopped exactly when its id has a row, and it left all areas or is to send with other values. */
  lemma StoppedExactly(general: seq<Entry>, nodes: seq<Node>, subs: seq<Subscription>, areas: seq<CamArea>,
                       inside: Inside, n: Node)
    requires RowsUnique(general) && IcsIdsDistinct(nodes) && n in nodes
    requires forall m :: m in nodes && m.nsId == n.nsId ==> m == n
    ensures n.nsId in Rounds(Round(general, [], []), nodes, subs, areas, inside).stop <==>
      var row, w := Row(general, n.icsId), Wanted(subs, areas, n, inside);
      && n.icsId != 0 && row.Some?
      && (!w.inAny || row.value.frequency != w.frequency || row.value.payload != w.payload)
  {
    RoundsLists(Round(general, [], []), nodes, subs, areas, inside, n.nsId);
    hide Rounds, Wanted, Row;
  }

  /** A station under the id of a row that a departed station left, with the same values: it is in the vector after the
      step, but the simulator is not told to let it send. */
  lemma ReusedId(general: seq<Entry>, nodes: seq<Node>, subs: seq<Subscription>, areas: seq<CamArea>, inside: Inside,
                 n: Node)
    requires RowsUnique(general) && IcsIdsDistinct(nodes) && n in nodes
    requires forall m :: m in nodes && m.nsId == n.nsId ==> m == n
    requires n.icsId != 0 && n.nsId !in NsIds(general)
    requires var row, w := Row(general, n.icsId), Wanted(subs, areas, n, inside);
      w.inAny && row.Some? && row.value.frequency == w.frequency && row.value.payload == w.payload
    ensures var r := Rounds(Round(general, [], []), nodes, subs, areas, inside);
      Row(r.general, n.icsId).Some? && n.nsId !in Commanded(NsIds(general), r)
  {
    StartedExactly(general, nodes, subs, areas, inside, n);
    RoundsRows(Round(general, [], []), nodes, subs, areas, inside, n.icsId);
    hide Rounds, Wanted, Row;
  }
}
