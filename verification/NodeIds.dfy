/** Station ids: requested for fixed stations and for vehicles with a predefined id, searched for other vehicles. */
module NodeIds {

  /** The ways a node is created. The management centre always has id 0. */
  datatype Creation = Centre | Fixed(id: nat) | Predefined(id: nat) | Vehicle

  /** The counter and the requested ids, which all nodes share, and the ids given so far. */
  datatype State = State(counter: int, preAssigned: set<nat>, ids: seq<nat>)

  const INITIAL: State := State(-1, {}, [])

  /** The requested ids the search may still meet. */
  function Ahead(preAssigned: set<nat>, n: int): set<nat> { set x | x in preAssigned && n <= x }

  lemma AheadShrinks(preAssigned: set<nat>, n: nat)
    requires n in preAssigned
    ensures |Ahead(preAssigned, n + 1)| < |Ahead(preAssigned, n)|
  {
    assert Ahead(preAssigned, n + 1) == Ahead(preAssigned, n) - {n} && n in Ahead(preAssigned, n);
  }

  /** The least id from `n` on that was not requested. */
  function NextFree(preAssigned: set<nat>, n: nat): (r: nat)
    ensures n <= r && r !in preAssigned && forall x :: n <= x < r ==> x in preAssigned
    decreases |Ahead(preAssigned, n)|
  {
    if n !in preAssigned then n
    else
      AheadShrinks(preAssigned, n);
      NextFree(preAssigned, n + 1)
  }

  function IdOf(s: State, c: Creation): nat
    requires s.counter >= -1
  {
    match c
    case Centre => 0
    case Fixed(id) => id
    case Predefined(id) => id
    case Vehicle => NextFree(s.preAssigned, s.counter + 1)
  }

  /** Every creation counts once, also one that requests its id. */
  function Create(s: State, c: Creation): (r: State)
    requires s.counter >= -1
    ensures r.counter > s.counter
  {
    State(if c.Vehicle? then IdOf(s, c) else s.counter + 1,
          if c.Fixed? || c.Predefined? then s.preAssigned + {c.id} else s.preAssigned,
          s.ids + [IdOf(s, c)])
  }

  function Run(creations: seq<Creation>): (s: State)
    ensures s.counter >= |creations| - 1 && |s.ids| == |creations|
  {
    if creations == [] then INITIAL else Create(Run(creations[..|creations| - 1]), creations[|creations| - 1])
  }

  class NodeFactory {
    var counter: int
    var preAssigned: set<nat>
    ghost var ids: seq<nat>

    ghost function Now(): State
      reads this
    {
      State(counter, preAssigned, ids)
    }

    constructor ()
      ensures Now() == INITIAL
    {
      counter, preAssigned, ids := -1, {}, [];
    }

    method CountNode()
      modifies this`counter
      ensures counter == old(counter) + 1
    {
      counter := counter + 1;
    }

    method NewCentre() returns (id: nat)
      requires counter >= -1
      modifies this
      ensures Now() == Create(old(Now()), Centre) && id == 0
    {
      CountNode();
      id := 0;
      ids := ids + [id];
    }

    method NewFixed(requested: nat) returns (id: nat)
      requires counter >= -1
      modifies this
      ensures Now() == Create(old(Now()), Fixed(requested)) && id == requested
    {
      CountNode();
      id := requested;
      preAssigned := preAssigned + {id};
      ids := ids + [id];
    }

    method NewPredefined(requested: nat) returns (id: nat)
      requires counter >= -1
      modifies this
      ensures Now() == Create(old(Now()), Predefined(requested)) && id == requested
    {
      CountNode();
      preAssigned := preAssigned + {requested};
      id := requested;
      ids := ids + [id];
    }

    /** Searches for an id that was not requested. */
    method NewVehicle() returns (id: nat)
      requires counter >= -1
      modifies this
      ensures Now() == Create(old(Now()), Vehicle) && id == IdOf(old(Now()), Vehicle)
    {
      CountNode();
      ghost var free := NextFree(preAssigned, counter);
      var valid := false;
      id := 0;
      while !valid
        invariant 0 <= counter && NextFree(preAssigned, counter) == free
        invariant preAssigned == old(preAssigned) && ids == old(ids)
        invariant valid ==> counter !in preAssigned && id == counter
        decreases if valid then 0 else 1, |Ahead(preAssigned, counter)|
      {
        if counter in preAssigned {
          AheadShrinks(preAssigned, counter);
          counter := counter + 1;
          id := counter;
        } else {
          id := counter;
          valid := true;
        }
      }
      ids := ids + [id];
    }
  }

  // ---------------------------------------------------------------- which runs give distinct ids

  ghost predicate Distinct(ids: seq<nat>) { forall i, j :: 0 <= i < j < |ids| ==> ids[i] != ids[j] }

  lemma {:induction false} RunPrefix(creations: seq<Creation>, i: nat, k: nat)
    requires i < k <= |creations|
    ensures Run(creations[..k]).ids[i] == Run(creations).ids[i]
    decreases |creations|
  {
    hide NextFree, IdOf;
    if k < |creations| {
      var front := creations[..|creations| - 1];
      RunPrefix(front, i, k);
      assert front[..k] == creations[..k];
    } else {
      assert creations[..k] == creations;
    }
  }

  /** What was given so far, as the search sees it: each id is below the counter's next value, the centre's, or
      requested. */
  lemma {:induction false} GivenIds(creations: seq<Creation>, i: nat)
    requires i < |creations|
    ensures var s := Run(creations);
      if creations[i].Vehicle? then s.ids[i] <= s.counter
      else if creations[i].Centre? then s.ids[i] == 0
      else s.ids[i] in s.preAssigned
  {
    var n := |creations| - 1;
    if i < n {
      GivenIds(creations[..n], i);
    }
  }

  /** An id that was searched for is new. */
  lemma VehicleIsNew(creations: seq<Creation>)
    ensures var s := Run(creations); IdOf(s, Vehicle) !in s.ids
  {
    var s := Run(creations);
    var id := IdOf(s, Vehicle);
    forall i | 0 <= i < |s.ids| ensures s.ids[i] != id {
      GivenIds(creations, i);
    }
  }

  /** A creation that requests an id asks for one not given yet. */
  ghost predicate AsksNew(creations: seq<Creation>, i: nat)
    requires i < |creations|
  {
    creations[i].Vehicle? || IdOf(Run(creations[..i]), creations[i]) !in Run(creations[..i]).ids
  }

  /** All ids are distinct exactly when every requested id, the centre's 0 included, was new at its time. */
  lemma {:induction false} DistinctExactly(creations: seq<Creation>)
    ensures Distinct(Run(creations).ids) <==> forall i :: 0 <= i < |creations| ==> AsksNew(creations, i)
  {
    if creations != [] {
      var n := |creations| - 1;
      var front, last := creations[..n], creations[n];
      DistinctExactly(front);
      VehicleIsNew(front);
      var before, ids := Run(front).ids, Run(creations).ids;
      assert ids == before + [IdOf(Run(front), last)];
      forall i | 0 <= i < n ensures AsksNew(creations, i) <==> AsksNew(front, i) {
        assert front[..i] == creations[..i];
      }
      assert Distinct(ids) <==> Distinct(before) && ids[n] !in before by {
        assert forall i :: 0 <= i < n ==> ids[i] == before[i];
      }
      assert AsksNew(creations, n) <==> ids[n] !in before;
    }
  }

  /** Ids that were searched for increase strictly, and only the very first node can get 0 that way. */
  lemma VehiclesIncrease(creations: seq<Creation>, i: nat, j: nat)
    requires i < j < |creations| && creations[i].Vehicle? && creations[j].Vehicle?
    ensures Run(creations).ids[i] < Run(creations).ids[j]
  {
    RunPrefix(creations, i, j);
    RunPrefix(creations, j, j + 1);
    GivenIds(creations[..j], i);
    assert creations[..j + 1][..j] == creations[..j];
  }

  lemma ZeroOnlyFirst(creations: seq<Creation>, i: nat)
    requires i < |creations| && creations[i].Vehicle?
    ensures Run(creations).ids[i] >= i && (Run(creations).ids[i] == 0 <==> i == 0)
  {
    RunPrefix(creations, i, i + 1);
    assert creations[..i + 1][..i] == creations[..i];
    if i == 0 { assert creations[..0] == []; }
  }

  /** The numbers that were passed over: each was requested, or stood for a node that did not search. */
  lemma SearchedNext(creations: seq<Creation>)
    ensures var s, id := Run(creations), IdOf(Run(creations), Vehicle);
      && id > s.counter && id !in s.preAssigned && (forall x :: s.counter < x < id ==> x in s.preAssigned)
      && Run(creations + [Vehicle]) == State(id, s.preAssigned, s.ids + [id])
  {
    assert (creations + [Vehicle])[..|creations|] == creations;
  }

  /** A node that does not search moves the counter on by one. */
  lemma CountsOnce(creations: seq<Creation>, c: Creation)
    requires !c.Vehicle?
    ensures Run(creations + [c]).counter == Run(creations).counter + 1
  {
    assert (creations + [c])[..|creations|] == creations;
  }

  /** Which ids were requested so far. */
  lemma {:induction false} RequestedSoFar(creations: seq<Creation>, id: nat)
    ensures id in Run(creations).preAssigned <==> Fixed(id) in creations || Predefined(id) in creations
  {
    if creations != [] {
      var n := |creations| - 1;
      RequestedSoFar(creations[..n], id);
      assert forall c :: c in creations <==> c in creations[..n] || c == creations[n];
    }
  }

  /** Without requests the counter numbers the nodes, and each vehicle gets its number. */
  lemma {:induction false} WithoutRequests(creations: seq<Creation>, i: nat)
    requires (forall c :: c in creations ==> c.Vehicle? || c.Centre?) && i < |creations|
    ensures Run(creations).counter == |creations| - 1 && Run(creations).preAssigned == {}
    ensures Run(creations).ids[i] == if creations[i].Vehicle? then i else 0
  {
    var n := |creations| - 1;
    var front := creations[..n];
    assert forall c :: c in front ==> c in creations;
    assert creations[n] in creations;
    if n > 0 {
      WithoutRequests(front, if i < n then i else 0);
    }
  }

  /** Nothing checks a requested id: a vehicle with the predefined id 1 that enters after a searched one shares its
      id. */
  lemma Collision()
    ensures Run([Centre, Vehicle, Predefined(1)]).ids == [0, 1, 1]
  {
    var all := [Centre, Vehicle, Predefined(1)];
    assert all[..2] == [Centre, Vehicle] && all[..2][..1] == [Centre] && [Centre][..0] == [];
    assert Run([Centre]) == State(0, {}, [0]);
    assert Run([Centre, Vehicle]) == State(1, {}, [0, 1]);
  }
}
