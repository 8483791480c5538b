/** The synchroniser with its subscriptions, stations and commands to the network simulator: which stations are told to
    send awareness messages, kept in step with the areas the applications subscribed to. */
module CamSync {

  import opened Wrappers
  import opened CamAreas
  import opened CamSenders

  // ---------------------------------------------------------------- the synchroniser

  /** Commands to the network simulator. */
  datatype Command = Stop(ids: seq<nat>) | Start(ids: seq<nat>, payload: nat, frequency: nat)

  function MaxFrequency(v: seq<Entry>): nat {
    if v == [] then 0 else Max(MaxFrequency(v[..|v| - 1]), v[|v| - 1].frequency)
  }

  function MaxPayload(v: seq<Entry>): nat {
    if v == [] then 0 else Max(MaxPayload(v[..|v| - 1]), v[|v| - 1].payload)
  }

  /** The commands of one step: stop first, then start with the maxima over the whole vector. */
  function CommandsOf(r: Round): seq<Command> {
    (if r.stop != [] then [Stop(r.stop)] else []) +
    (if r.start != [] then [Start(r.start, MaxPayload(r.general), MaxFrequency(r.general))] else [])
  }

  /** The simulator's senders after the commands, by whether it carried them out. */
  ghost function SendersAfter(senders: set<nat>, r: Round, stopWorks: bool, startWorks: bool): set<nat> {
    (if stopWorks then senders - Ids(r.stop) else senders) + (if startWorks then Ids(r.start) else {})
  }

  /** What one command makes of the senders, when the simulator carries it out. */
  ghost function Effect(senders: set<nat>, command: Command): set<nat> {
    match command
    case Stop(ids) => set x | x in senders && x !in ids
    case Start(ids, _, _) => senders + set x | x in ids
  }

  lemma EffectIs(senders: set<nat>, ids: seq<nat>, payload: nat, frequency: nat)
    ensures Effect(senders, Stop(ids)) == senders - Ids(ids)
    ensures Effect(senders, Start(ids, payload, frequency)) == senders + Ids(ids)
  {
  }

  /** The commands one after the other, by whether the simulator carries those of each kind out. */
  ghost function CarriedOut(senders: set<nat>, commands: seq<Command>, stopWorks: bool, startWorks: bool): set<nat> {
    if commands == [] then senders
    else
      var n := |commands| - 1;
      var before := CarriedOut(senders, commands[..n], stopWorks, startWorks);
      if (if commands[n].Stop? then stopWorks else startWorks) then Effect(before, commands[n]) else before
  }

  lemma OneMore(senders: set<nat>, commands: seq<Command>, last: Command, stopWorks: bool, startWorks: bool)
    ensures CarriedOut(senders, commands + [last], stopWorks, startWorks) ==
      var before := CarriedOut(senders, commands, stopWorks, startWorks);
      if (if last.Stop? then stopWorks else startWorks) then Effect(before, last) else before
  {
    assert (commands + [last])[..|commands|] == commands;
  }

  /** Carried out in their order, the commands of a step make the senders what they should become, and start stations
      with the largest values. */
  lemma CommandsTakeEffect(senders: set<nat>, r: Round, stopWorks: bool, startWorks: bool)
    ensures CarriedOut(senders, CommandsOf(r), stopWorks, startWorks) == SendersAfter(senders, r, stopWorks, startWorks)
    ensures StartsWithHighest(CommandsOf(r), r.general)
  {
    var stops := if r.stop != [] then [Stop(r.stop)] else [];
    var start := Start(r.start, MaxPayload(r.general), MaxFrequency(r.general));
    StartValues(r.general);
    hide MaxPayload, MaxFrequency, Highest;
    OneMore(senders, [], Stop(r.stop), stopWorks, startWorks);
    EffectIs(senders, r.stop, 0, 0);
    OneMore(senders, stops, start, stopWorks, startWorks);
    EffectIs(CarriedOut(senders, stops, stopWorks, startWorks), r.start, start.payload, start.frequency);
    assert [] + [Stop(r.stop)] == [Stop(r.stop)];
    hide Effect;
  }

  /** The largest payload and the largest frequency among the rows, each that of some row. */
  ghost predicate Highest(v: seq<Entry>, payload: nat, frequency: nat) {
    && (forall e :: e in v ==> e.payload <= payload && e.frequency <= frequency)
    && (v != [] ==> (exists e :: e in v && e.payload == payload) && exists e :: e in v && e.frequency == frequency)
  }

  /** What the simulator was told agrees with the rows: started stations get the largest values. */
  ghost predicate StartsWithHighest(commands: seq<Command>, v: seq<Entry>) {
    forall k :: 0 <= k < |commands| && commands[k].Start? ==> Highest(v, commands[k].payload, commands[k].frequency)
  }

  /** What an application answers when it is asked for new subscriptions. */
  datatype Request = Request(isCamArea: bool, frequency: nat)

  const CAM_PAYLOAD: nat := 20

  /** Ids are given out in increasing order. */
  ghost predicate IdsBelow(subs: seq<Subscription>, counter: int) {
    forall k :: 0 <= k < |subs| ==> subs[k].id <= counter
  }

  /** Areas hold present stations only, each once, and never the management centre. */
  ghost predicate AreasHoldPresent(inArea: seq<seq<Node>>, nodes: seq<Node>) {
    forall j :: 0 <= j < |inArea| ==> Distinct(inArea[j]) && forall n :: n in inArea[j] ==> n in nodes && n.icsId != 0
  }

  /** Only subscriptions with an area hold nodes. */
  ghost predicate OthersEmpty(subs: seq<Subscription>, areas: seq<CamArea>, inArea: seq<seq<Node>>)
    requires |subs| == |inArea|
  {
    forall j :: 0 <= j < |subs| && inArea[j] != [] ==> HasArea(areas, subs[j].id)
  }

  /** The search for the subscription of an area. */
  method FindSubscription(subscriptions: seq<Subscription>, id: int) returns (k: int)
    ensures k == LookUp(subscriptions, id)
  {
    k := -1;
    for i := 0 to |subscriptions|
      invariant k == i - 1
      invariant LookUp(subscriptions, id) ==
        if i < |subscriptions| then i + LookUp(subscriptions[i..], id) else |subscriptions| - 1
    {
      k := i;
      if subscriptions[k].id == id {
        return;
      }
    }
  }

  /** The search for the row of a station. */
  method FindRow(general: seq<Entry>, id: nat) returns (i: nat)
    ensures i == RowOf(general, id)
  {
    i := 0;
    while i < |general| && general[i].stationId != id
      invariant i <= |general| && RowOf(general, id) == i + RowOf(general[i..], id)
    {
      i := i + 1;
    }
  }

  method Maxima(general: seq<Entry>) returns (frequency: nat, payload: nat)
    ensures frequency == MaxFrequency(general) && payload == MaxPayload(general)
  {
    frequency, payload := 0, 0;
    for i := 0 to |general|
      invariant frequency == MaxFrequency(general[..i]) && payload == MaxPayload(general[..i])
    {
      assert general[..i + 1][..i] == general[..i];
      frequency, payload := Max(frequency, general[i].frequency), Max(payload, general[i].payload);
    }
    assert general[..|general|] == general;
  }

  class SyncManager {
    var nodes: seq<Node>
    var subscriptions: seq<Subscription>
    var subscriptionCounter: int
    var areas: seq<CamArea>
    var general: seq<Entry>
    ghost var inArea: seq<seq<Node>>      // what the subscriptions hold
    ghost var commands: seq<Command>      // what was sent to the simulator
    ghost var senders: set<nat>           // the simulator's senders

    ghost predicate Consistent()
      reads this`inArea, this`subscriptions, subscriptions
    {
      && |inArea| == |subscriptions|
      && (forall j :: 0 <= j < |subscriptions| ==> subscriptions[j].nodesInArea == inArea[j])
      && (forall i, j :: 0 <= i < j < |subscriptions| ==> subscriptions[i] != subscriptions[j])
    }

    /** Kept by every operation. */
    ghost predicate Valid()
      reads this, subscriptions
    {
      && Consistent() && Registered(subscriptions, areas) && IdsBelow(subscriptions, subscriptionCounter)
      && Coherent(nodes, general) && AreasHoldPresent(inArea, nodes) && OthersEmpty(subscriptions, areas, inArea)
    }

    constructor ()
      ensures Valid() && nodes == [] && general == [] && senders == NsIds(general) && commands == []
    {
      nodes, subscriptions, subscriptionCounter, areas, general := [], [], 0, [], [];
      inArea, commands, senders := [], [], {};
    }

    method VisitArea(node: Node, area: CamArea, k: int, nowInside: bool, w: Want) returns (w': Want)
      requires Consistent() && 0 <= k < |subscriptions|
      modifies subscriptions[k], this`inArea
      ensures Consistent()
      ensures inArea == old(inArea)[k := Settle(old(inArea[k]), node, nowInside)]
      ensures w' ==
        if nowInside then Want(true, Max(w.frequency, subscriptions[k].frequency), Max(w.payload, area.payload)) else w
    {
      var subscription := subscriptions[k];
      w' := w;
      assert forall j :: 0 <= j < |subscriptions| && j != k ==> subscriptions[j] != subscription;
      if node !in subscription.nodesInArea { WithoutAbsent(subscription.nodesInArea, node); }
      var status := subscription.CheckNodeStatus(node, nowInside);
      match status {
        case JustArrived =>
          subscription.AddNodeToVector(node);
          w' := Want(true, Max(w.frequency, subscription.frequency), Max(w.payload, area.payload));
        case JustLeft =>
          subscription.RemoveNodeFromVector(node);
        case StillInside =>
          w' := Want(true, Max(w.frequency, subscription.frequency), Max(w.payload, area.payload));
        case StillOutside =>
      }
      inArea := inArea[k := subscription.nodesInArea];
    }

    /** The loop over the areas for one station. */
    method VisitAreas(node: Node, inside: Inside) returns (w: Want)
      requires Consistent() && |inArea| == |subscriptions| && Registered(subscriptions, areas)
      modifies subscriptions, this`inArea
      ensures Consistent()
      ensures inArea == Visited(subscriptions, areas, old(inArea), node, inside)
      ensures w == Wanted(subscriptions, areas, node, inside)
    {
      hide *;
      w := Want(false, 0, 0);
      VisitStarts(subscriptions, areas, inArea, node, inside);
      ghost var before := inArea;
      for a := 0 to |areas|
        invariant Consistent() && |subscriptions| == |before|
        invariant inArea == Visited(subscriptions, areas[..a], before, node, inside)
        invariant w == Wanted(subscriptions, areas[..a], node, inside)
      {
        VisitedStep(subscriptions, areas, before, node, inside, a);
        WantedStep(subscriptions, areas, node, inside, a);
        var k := FindSubscription(subscriptions, areas[a].subscriptionId);
        w := VisitArea(node, areas[a], k, inside(subscriptions[k].id, node), w);
      }
      assert areas[..|areas|] == areas;
    }

    /** The vector and the two lists for one station. */
    method ScheduleNode(node: Node, w: Want, stop: seq<nat>, start: seq<nat>)
      returns (stop': seq<nat>, start': seq<nat>)
      requires node.icsId != 0
      modifies this`general
      ensures Round(general, stop', start') == NodeRound(Round(old(general), stop, start), node, w)
    {
      stop', start' := stop, start;
      var i := FindRow(general, node.icsId);
      if i < |general| {
        var row := general[i];
        if w.inAny && (w.frequency != row.frequency || w.payload != row.payload) {
          stop' := stop' + [node.nsId];
          general := general[i := row.(frequency := w.frequency)];
          general := general[i := general[i].(payload := w.payload)];
          start' := start' + [node.nsId];
        }
        if !w.inAny {
          stop' := stop' + [node.nsId];
          general := general[..i] + general[i + 1..];
        }
      } else if w.inAny {
        general := general + [Entry(node.icsId, w.frequency, w.payload, node)];
        start' := start' + [node.nsId];
      }
    }

    /** The loop over the stations. */
    method ScheduleNodes(inside: Inside) returns (stop: seq<nat>, start: seq<nat>)
      requires Consistent() && |inArea| == |subscriptions| && Registered(subscriptions, areas)
      modifies subscriptions, this`inArea, this`general
      ensures Consistent()
      ensures inArea == AllVisited(old(inArea), nodes, subscriptions, areas, inside)
      ensures Round(general, stop, start) == Rounds(Round(old(general), [], []), nodes, subscriptions, areas, inside)
    {
      hide *;
      stop, start := [], [];
      ghost var before, r0 := inArea, Round(general, [], []);
      RoundsStart(r0, nodes, before, subscriptions, areas, inside);
      for k := 0 to |nodes|
        invariant Consistent() && |inArea| == |subscriptions| == |before|
        invariant inArea == AllVisited(before, nodes[..k], subscriptions, areas, inside)
        invariant Round(general, stop, start) == Rounds(r0, nodes[..k], subscriptions, areas, inside)
      {
        var node := nodes[k];
        RoundsStep(r0, nodes, subscriptions, areas, inside, k);
        AllVisitedStep(before, nodes, subscriptions, areas, inside, k);
        CentreSkipped(Round(general, stop, start), node, Wanted(subscriptions, areas, node, inside));
        if node.icsId != 0 {
          var w := VisitAreas(node, inside);
          stop, start := ScheduleNode(node, w, stop, start);
        }
      }
      assert nodes[..|nodes|] == nodes;
    }

    /** One step of the protocol. Whether the simulator carries a command out is not known beforehand; only the reply
        to the start command is looked at. */
    method ScheduleCam(inside: Inside, stopWorks: bool, startWorks: bool) returns (ok: bool)
      requires Valid()
      modifies this`inArea, this`general, this`commands, this`senders, subscriptions
      ensures Valid()
      ensures inArea == AllVisited(old(inArea), nodes, subscriptions, areas, inside)
      ensures var r := Rounds(Round(old(general), [], []), nodes, subscriptions, areas, inside);
        && general == r.general && commands == old(commands) + CommandsOf(r)
        && senders == SendersAfter(old(senders), r, stopWorks, startWorks)
        && (ok <==> r.start == [] || startWorks)
      ensures |commands| >= |old(commands)|
      ensures senders == CarriedOut(old(senders), commands[|old(commands)|..], stopWorks, startWorks)
      ensures StartsWithHighest(commands[|old(commands)|..], general)
      ensures old(senders) == NsIds(old(general)) && ok && stopWorks ==> senders == NsIds(general)
    {
      hide *;
      ValidParts();
      StepKeeps(nodes, general, subscriptions, areas, inArea, inside);
      SendersAgree(general, nodes, subscriptions, areas, inside);
      BothWork(senders, Rounds(Round(general, [], []), nodes, subscriptions, areas, inside));
      var stop, start := ScheduleNodes(inside);
      ok := SendCommands(stop, start, stopWorks, startWorks);
      ValidParts();
    }

    lemma ValidParts()
      requires |inArea| == |subscriptions| || Valid()
      ensures Valid() <==>
        && |inArea| == |subscriptions| && Consistent() && Registered(subscriptions, areas) &&
          IdsBelow(subscriptions, subscriptionCounter)
        && Coherent(nodes, general) && AreasHoldPresent(inArea, nodes) && OthersEmpty(subscriptions, areas, inArea)
    {
    }

    method SendCommands(stop: seq<nat>, start: seq<nat>, stopWorks: bool, startWorks: bool) returns (ok: bool)
      modifies this`commands, this`senders
      ensures commands == old(commands) + CommandsOf(Round(general, stop, start))
      ensures senders == SendersAfter(old(senders), Round(general, stop, start), stopWorks, startWorks)
      ensures ok <==> start == [] || startWorks
      ensures |commands| >= |old(commands)|
      ensures senders == CarriedOut(old(senders), commands[|old(commands)|..], stopWorks, startWorks)
      ensures StartsWithHighest(commands[|old(commands)|..], general)
    {
      hide CarriedOut, StartsWithHighest, MaxPayload, MaxFrequency;
      ghost var round := Round(general, stop, start);
      CommandsTakeEffect(senders, round, stopWorks, startWorks);
      if |stop| > 0 {
        commands := commands + [Stop(stop)];
        senders := if stopWorks then senders - Ids(stop) else senders;
      }
      var frequency, payload := Maxima(general);
      ok := true;
      if |start| > 0 {
        commands := commands + [Start(start, payload, frequency)];
        senders := if startWorks then senders + Ids(start) else senders;
        ok := startWorks;
      }
      assert commands == old(commands) + CommandsOf(round);
    }

    /** A vehicle leaves: every area forgets it, then it is destroyed. The general vector is not touched. */
    method Depart(k: nat)
      requires Valid() && k < |nodes|
      modifies this`inArea, this`nodes, subscriptions
      ensures Valid()
      ensures nodes == old(nodes[..k] + nodes[k + 1..])
      ensures inArea == Visited(subscriptions, areas, old(inArea), old(nodes[k]), (id, n) => false)
      ensures forall j :: 0 <= j < |inArea| ==> old(nodes[k]) !in inArea[j]
    {
      var node := nodes[k];
      assert Consistent() && |inArea| == |subscriptions| && Registered(subscriptions, areas);
      DepartKeeps(nodes, general, subscriptions, areas, inArea, k);
      hide Registered, Coherent, AreasHoldPresent, OthersEmpty, Consistent, IdsBelow, Visited, HasArea;
      RemoveNodeInTheArea(node);
      nodes := nodes[..k] + nodes[k + 1..];
    }

    method RemoveNodeInTheArea(node: Node)
      requires Consistent() && |inArea| == |subscriptions| && Registered(subscriptions, areas)
      modifies this`inArea, subscriptions
      ensures Consistent()
      ensures inArea == Visited(subscriptions, areas, old(inArea), node, (id, n) => false)
    {
      hide *;
      ghost var before := inArea;
      ghost var outside: Inside := (id, n) => false;
      VisitStarts(subscriptions, areas, before, node, outside);
      for a := 0 to |areas|
        invariant Consistent() && |subscriptions| == |before|
        invariant inArea == Visited(subscriptions, areas[..a], before, node, outside)
      {
        VisitedStep(subscriptions, areas, before, node, outside, a);
        var k := FindSubscription(subscriptions, areas[a].subscriptionId);
        RemoveFrom(k, node);
      }
      assert areas[..|areas|] == areas;
    }

    method RemoveFrom(k: int, node: Node)
      requires Consistent() && 0 <= k < |subscriptions|
      modifies subscriptions[k], this`inArea
      ensures Consistent()
      ensures inArea == old(inArea)[k := Settle(old(inArea[k]), node, false)]
    {
      assert forall j :: 0 <= j < |subscriptions| && j != k ==> subscriptions[j] != subscriptions[k];
      subscriptions[k].RemoveNodeFromVector(node);
      inArea := inArea[k := subscriptions[k].nodesInArea];
    }

    /** A station enters. Under ids that no present station and no row of the vector has, the invariants are kept; what
        happens under the id of a row that a departed station left is stated by `ReusedId`. */
    method AddNode(node: Node)
      requires Valid()
      modifies this`nodes
      ensures nodes == old(nodes) + [node]
      ensures NewIds(old(nodes), general, node) ==> Valid()
    {
      nodes := nodes + [node];
      hide Registered, OthersEmpty, IdsBelow, RowsUnique;
      if NewIds(old(nodes), general, node) {
        assert forall n :: Known(nodes, general, n) <==> Known(old(nodes), general, n) || n == node;
        assert forall n :: n in old(nodes) ==> Known(old(nodes), general, n);
      }
    }

    /** The applications of a station are asked in turn; one that fails ends the call with nothing registered. Otherwise
        each new subscription is registered before its area is created. */
    method NewSubscriptions(answers: seq<Option<seq<Request>>>) returns (ok: bool)
      requires Valid()
      modifies this`subscriptions, this`areas, this`inArea, this`subscriptionCounter
      ensures Valid()
      ensures ok <==> forall i :: 0 <= i < |answers| ==> answers[i].Some?
      ensures !ok ==> subscriptions == old(subscriptions) && areas == old(areas) && inArea == old(inArea)
      ensures subscriptionCounter == old(subscriptionCounter) + |Flatten(answers[..Asked(answers)])|
      ensures ok ==>
        Extends(old(subscriptions), subscriptions, old(areas), areas, Flatten(answers), old(subscriptionCounter))
    {
      ghost var subs0, counter0 := subscriptions, subscriptionCounter;
      var created;
      ok, created := AskApplications(answers);
      hide Answer, AreasFor, Flatten, Registered, OthersEmpty, AreasHoldPresent, Coherent;
      if ok {
        RegisterSubscriptions(created, counter0);
        assert subscriptions[|subs0|..] == created;
      }
    }

    method AskApplications(answers: seq<Option<seq<Request>>>) returns (ok: bool, created: seq<Subscription>)
      modifies this`subscriptionCounter
      ensures ok <==> forall i :: 0 <= i < |answers| ==> answers[i].Some?
      ensures subscriptionCounter == old(subscriptionCounter) + |created|
      ensures Apart(created) && forall k :: 0 <= k < |created| ==> fresh(created[k]) && created[k].nodesInArea == []
      ensures Answer(created, Flatten(answers[..Asked(answers)]), old(subscriptionCounter))
      ensures ok ==> Answer(created, Flatten(answers), old(subscriptionCounter))
    {
      created, ok := [], true;
      ghost var counter0 := subscriptionCounter;
      for i := 0 to |answers|
        invariant forall k :: 0 <= k < i ==> answers[k].Some?
        invariant Answer(created, Flatten(answers[..i]), counter0) && subscriptionCounter == counter0 + |created|
        invariant forall k :: 0 <= k < |created| ==> fresh(created[k]) && created[k].nodesInArea == []
        invariant Apart(created)
      {
        if answers[i].None? {
          AskedIs(answers, i);
          return false, created;
        }
        assert answers[..i + 1][..i] == answers[..i];
        var asked := CreateSubscriptions(answers[i].value);
        AnswerAppend(created, Flatten(answers[..i]), counter0, asked, answers[i].value);
        created := created + asked;
      }
      assert answers[..|answers|] == answers;
      AskedIs(answers, |answers|);
    }

    method CreateSubscriptions(requests: seq<Request>) returns (r: seq<Subscription>)
      modifies this`subscriptionCounter
      ensures Answer(r, requests, old(subscriptionCounter)) && subscriptionCounter == old(subscriptionCounter) + |r|
      ensures Apart(r) && forall k :: 0 <= k < |r| ==> fresh(r[k]) && r[k].nodesInArea == []
    {
      r := [];
      for j := 0 to |requests|
        invariant Answer(r, requests[..j], old(subscriptionCounter))
        invariant subscriptionCounter == old(subscriptionCounter) + |r|
        invariant Apart(r) && forall k :: 0 <= k < |r| ==> fresh(r[k]) && r[k].nodesInArea == []
      {
        subscriptionCounter := subscriptionCounter + 1;
        var s := new Subscription(subscriptionCounter, requests[j].isCamArea, requests[j].frequency);
        r := r + [s];
      }
      assert requests[..|requests|] == requests;
    }

    method RegisterSubscriptions(created: seq<Subscription>, ghost counter0: int)
      requires Consistent() && |inArea| == |subscriptions| && Registered(subscriptions, areas)
      requires IdsBelow(subscriptions, counter0)
      requires AreasHoldPresent(inArea, nodes) && OthersEmpty(subscriptions, areas, inArea)
      requires Apart(created)
      requires forall k :: 0 <= k < |created| ==> created[k].id == counter0 + 1 + k && created[k].nodesInArea == []
      requires forall k :: 0 <= k < |created| ==> created[k] !in subscriptions
      modifies this`subscriptions, this`areas, this`inArea
      ensures Consistent() && |inArea| == |subscriptions|
      ensures Registered(subscriptions, areas) && IdsBelow(subscriptions, counter0 + |created|)
      ensures AreasHoldPresent(inArea, nodes) && OthersEmpty(subscriptions, areas, inArea)
      ensures subscriptions == old(subscriptions) + created && areas == old(areas) + AreasFor(created)
    {
      hide *;
      RegisterStarts(created, subscriptions, areas);
      ghost var subs0, areas0 := subscriptions, areas;
      for i := 0 to |created|
        invariant subscriptions == subs0 + created[..i] && areas == areas0 + AreasFor(created[..i])
        invariant Consistent() && |inArea| == |subscriptions|
        invariant Registered(subscriptions, areas) && IdsBelow(subscriptions, counter0 + i)
        invariant AreasHoldPresent(inArea, nodes) && OthersEmpty(subscriptions, areas, inArea)
      {
        RegisterStep(created, subs0, areas0, i);
        RegisterKeeps(subscriptions, areas, inArea, created[i], counter0 + i);
        Append(created[i]);
      }
      assert created[..|created|] == created;
    }

    method Append(subscription: Subscription)
      requires Consistent() && subscription !in subscriptions && subscription.nodesInArea == []
      requires AreasHoldPresent(inArea, nodes)
      modifies this`subscriptions, this`areas, this`inArea
      ensures Consistent() && AreasHoldPresent(inArea, nodes) && inArea == old(inArea) + [[]]
      ensures subscriptions == old(subscriptions) + [subscription]
      ensures areas ==
        if subscription.isCamArea then old(areas) + [CamArea(subscription.id, CAM_PAYLOAD)] else old(areas)
    {
      subscriptions, inArea := subscriptions + [subscription], inArea + [[]];
      if subscription.isCamArea {
        areas := areas + [CamArea(subscription.id, CAM_PAYLOAD)];
      }
    }
  }

  ghost predicate NewIds(nodes: seq<Node>, general: seq<Entry>, node: Node) {
    forall n :: Known(nodes, general, n) ==> n.icsId != node.icsId && n.nsId != node.nsId
  }

  lemma VisitStarts(subs: seq<Subscription>, areas: seq<CamArea>, inArea: seq<seq<Node>>, node: Node, inside: Inside)
    requires |subs| == |inArea|
    ensures Visited(subs, areas[..0], inArea, node, inside) == inArea
    ensures Wanted(subs, areas[..0], node, inside) == Want(false, 0, 0)
  {
    assert forall id :: !HasArea(areas[..0], id);
  }

  lemma WantedStep(subs: seq<Subscription>, areas: seq<CamArea>, node: Node, inside: Inside, a: nat)
    requires Registered(subs, areas) && a < |areas|
    ensures var k, w := LookUp(subs, areas[a].subscriptionId), Wanted(subs, areas[..a], node, inside);
      && 0 <= k < |subs|
      && Wanted(subs, areas[..a + 1], node, inside) ==
         if inside(subs[k].id, node)
           then Want(true, Max(w.frequency, subs[k].frequency), Max(w.payload, areas[a].payload)) else w
  {
    LookUpSucceeds(subs, areas, a);
    assert areas[..a + 1][..a] == areas[..a];
  }

  lemma BothWork(senders: set<nat>, r: Round)
    ensures SendersAfter(senders, r, true, true) == Commanded(senders, r)
    ensures r.start == [] ==> SendersAfter(senders, r, true, false) == Commanded(senders, r)
  {
  }

  lemma RoundsStart(r: Round, nodes: seq<Node>, inArea: seq<seq<Node>>, subs: seq<Subscription>, areas: seq<CamArea>,
                    inside: Inside)
    requires |subs| == |inArea|
    ensures Rounds(r, nodes[..0], subs, areas, inside) == r
    ensures AllVisited(inArea, nodes[..0], subs, areas, inside) == inArea
  {
  }

  lemma CentreSkipped(r: Round, node: Node, w: Want)
    ensures node.icsId == 0 ==> NodeRound(r, node, w) == r
  {
  }

  /** The invariants survive a step. */
  lemma StepKeeps(nodes: seq<Node>, general: seq<Entry>, subs: seq<Subscription>, areas: seq<CamArea>,
                  inArea: seq<seq<Node>>, inside: Inside)
    requires Coherent(nodes, general) && |subs| == |inArea| && AreasHoldPresent(inArea, nodes)
    requires OthersEmpty(subs, areas, inArea)
    ensures Coherent(nodes, Rounds(Round(general, [], []), nodes, subs, areas, inside).general)
    ensures AreasHoldPresent(AllVisited(inArea, nodes, subs, areas, inside), nodes)
    ensures OthersEmpty(subs, areas, AllVisited(inArea, nodes, subs, areas, inside))
  {
    RoundsCoherent(Round(general, [], []), nodes, subs, areas, inside);
    var after := AllVisited(inArea, nodes, subs, areas, inside);
    hide Coherent, Rounds, AllVisited, HasArea;
    forall j | 0 <= j < |subs|
      ensures Distinct(after[j]) && (forall n :: n in after[j] ==> n in nodes && n.icsId != 0)
      ensures after[j] != [] ==> HasArea(areas, subs[j].id)
    {
      AllVisitedMembers(inArea, nodes, subs, areas, inside, j);
    }
  }

  lemma DepartKeeps(nodes: seq<Node>, general: seq<Entry>, subs: seq<Subscription>, areas: seq<CamArea>,
                    inArea: seq<seq<Node>>, k: nat)
    requires Coherent(nodes, general) && |subs| == |inArea| && AreasHoldPresent(inArea, nodes)
    requires OthersEmpty(subs, areas, inArea)
    requires k < |nodes|
    ensures var rest, after := nodes[..k] + nodes[k + 1..], Visited(subs, areas, inArea, nodes[k], (id, n) => false);
      && Coherent(rest, general) && AreasHoldPresent(after, rest) && OthersEmpty(subs, areas, after)
      && forall j :: 0 <= j < |after| ==> nodes[k] !in after[j]
  {
    var rest, after := nodes[..k] + nodes[k + 1..], Visited(subs, areas, inArea, nodes[k], (id, n) => false);
    assert Coherent(rest, general) by { RestCoherent(nodes, general, k); }
    hide Coherent, HasArea;
    forall j | 0 <= j < |subs|
      ensures Distinct(after[j]) && (forall n :: n in after[j] ==> n in rest && n.icsId != 0) && nodes[k] !in after[j]
      ensures after[j] != [] ==> HasArea(areas, subs[j].id)
    {
      SettleMembers(inArea[j], nodes[k], false);
      assert forall n :: n in nodes && n != nodes[k] ==> n in rest;
      hide Settle, Distinct;
    }
  }

  lemma RestCoherent(nodes: seq<Node>, general: seq<Entry>, k: nat)
    requires Coherent(nodes, general) && k < |nodes|
    ensures Coherent(nodes[..k] + nodes[k + 1..], general)
  {
    hide RowsUnique;
    var rest := nodes[..k] + nodes[k + 1..];
    assert forall n :: n in rest ==> n in nodes;
    assert forall n :: Known(rest, general, n) ==> Known(nodes, general, n);
  }

  ghost predicate Apart(s: seq<Subscription>) { forall i, j :: 0 <= i < j < |s| ==> s[i] != s[j] }

  /** How many applications are asked: up to the first one that fails, which is not counted. */
  function Asked(answers: seq<Option<seq<Request>>>): (n: nat)
    ensures n <= |answers| && (forall i :: 0 <= i < n ==> answers[i].Some?) && (n < |answers| ==> answers[n].None?)
  {
    if answers == [] || answers[0].None? then 0 else 1 + Asked(answers[1..])
  }

  lemma {:induction false} AskedIs(answers: seq<Option<seq<Request>>>, n: nat)
    requires n <= |answers| && (forall i :: 0 <= i < n ==> answers[i].Some?) && (n < |answers| ==> answers[n].None?)
    ensures Asked(answers) == n
  {
    if n > 0 { AskedIs(answers[1..], n - 1); }
  }

  /** All requests of the applications, in order. */
  function Flatten(answers: seq<Option<seq<Request>>>): seq<Request> {
    if answers == [] then []
    else Flatten(answers[..|answers| - 1]) + if answers[|answers| - 1].Some? then answers[|answers| - 1].value else []
  }

  /** The subscriptions are the requested ones, under the next ids. */
  ghost predicate Answer(subs: seq<Subscription>, requests: seq<Request>, counter: int) {
    |subs| == |requests| && forall k :: 0 <= k < |subs| ==>
      && subs[k].id == counter + 1 + k
      && subs[k].isCamArea == requests[k].isCamArea && subs[k].frequency == requests[k].frequency
  }

  /** The requested subscriptions were appended, and an area for each one that sets an area. */
  ghost predicate Extends(subs: seq<Subscription>, subs': seq<Subscription>, areas: seq<CamArea>, areas': seq<CamArea>,
                          requests: seq<Request>, counter: int)
  {
    && |subs| <= |subs'| && subs'[..|subs|] == subs
    && Answer(subs'[|subs|..], requests, counter) && areas' == areas + AreasFor(subs'[|subs|..])
  }

  lemma AnswerAppend(subs: seq<Subscription>, requests: seq<Request>, counter: int, more: seq<Subscription>,
                     moreRequests: seq<Request>)
    requires Answer(subs, requests, counter) && Answer(more, moreRequests, counter + |subs|)
    ensures Answer(subs + more, requests + moreRequests, counter)
  {
  }

  /** One area for each area subscription. */
  function AreasFor(subs: seq<Subscription>): seq<CamArea> {
    if subs == [] then []
    else AreasFor(subs[..|subs| - 1]) + if subs[|subs| - 1].isCamArea then [CamArea(subs[|subs| - 1].id, CAM_PAYLOAD)]
      else []
  }

  /** There is an area exactly for each subscription that sets one, and its payload is 20. */
  lemma {:induction false} AreasExactly(subs: seq<Subscription>, id: int, payload: nat)
    ensures CamArea(id, payload) in AreasFor(subs) <==>
      payload == 20 && exists s :: s in subs && s.isCamArea && s.id == id
  {
    if subs != [] {
      var front, last := subs[..|subs| - 1], subs[|subs| - 1];
      AreasExactly(front, id, payload);
      assert forall s :: s in subs <==> s in front || s == last;
    }
  }

  lemma RegisterStarts(created: seq<Subscription>, subs: seq<Subscription>, areas: seq<CamArea>)
    ensures subs + created[..0] == subs && areas + AreasFor(created[..0]) == areas
  {
  }

  lemma RegisterStep(created: seq<Subscription>, subs: seq<Subscription>, areas: seq<CamArea>, i: nat)
    requires i < |created| && Apart(created) && created[i] !in subs
    ensures subs + created[..i + 1] == (subs + created[..i]) + [created[i]] && created[i] !in subs + created[..i]
    ensures var before := areas + AreasFor(created[..i]);
      areas + AreasFor(created[..i + 1]) ==
        if created[i].isCamArea then before + [CamArea(created[i].id, CAM_PAYLOAD)] else before
  {
    assert created[..i + 1][..i] == created[..i];
    assert created[..i + 1] == created[..i] + [created[i]];
  }

  lemma RegisterKeeps(subs: seq<Subscription>, areas: seq<CamArea>, inArea: seq<seq<Node>>, s: Subscription,
                      counter: int)
    requires Registered(subs, areas) && IdsBelow(subs, counter) && s.id == counter + 1
    requires |inArea| == |subs| && OthersEmpty(subs, areas, inArea)
    ensures var areas' := if s.isCamArea then areas + [CamArea(s.id, CAM_PAYLOAD)] else areas;
      && Registered(subs + [s], areas') && IdsBelow(subs + [s], counter + 1) &&
        OthersEmpty(subs + [s], areas', inArea + [[]])
  {
    var subs', areas' := subs + [s], if s.isCamArea then areas + [CamArea(s.id, CAM_PAYLOAD)] else areas;
    forall a | 0 <= a < |areas'| ensures HasCamSubscription(subs', areas'[a].subscriptionId) {
      if a < |areas| {
        assert HasCamSubscription(subs, areas[a].subscriptionId);
        var k :| 0 <= k < |subs| && subs[k].id == areas[a].subscriptionId && subs[k].isCamArea;
        assert subs'[k].id == areas[a].subscriptionId && subs'[k].isCamArea;
      } else {
        assert subs'[|subs|].id == areas'[a].subscriptionId && subs'[|subs|].isCamArea;
      }
    }
    forall a | 0 <= a < |areas| ensures areas[a].subscriptionId <= counter {
      assert HasCamSubscription(subs, areas[a].subscriptionId);
    }
    forall j | 0 <= j < |subs| && inArea[j] != [] ensures HasArea(areas', subs[j].id) {
      assert HasArea(areas, subs[j].id);
      var a :| 0 <= a < |areas| && areas[a].subscriptionId == subs[j].id;
      assert areas'[a].subscriptionId == subs[j].id;
    }
  }

  /** The values sent with a start command are the maxima over all rows, also those of stations that have left. */
  lemma {:induction false} StartValues(v: seq<Entry>)
    ensures Highest(v, MaxPayload(v), MaxFrequency(v))
  {
    if v != [] {
      var front, last := v[..|v| - 1], v[|v| - 1];
      StartValues(front);
      assert forall e :: e in v <==> e in front || e == last;
      if front == [] { assert MaxFrequency(front) == 0 && MaxPayload(front) == 0; }
    }
  }
}
