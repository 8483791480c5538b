/** Drawing edges with probabilities proportional to their weights. */
module RandomEdges {

  /** What the weight of an edge depends on. `power` is the speed raised to the exponent of the options. */
  datatype Edge = Edge(allowed: bool, anyFringe: bool, forbiddenFringe: bool, bonusFringe: bool,
                       length: real, lanes: nat, speed: real, power: real)

  datatype Options = Options(
    vclass: bool, pedestrians: bool, byLength: bool, byLanes: bool, fringeFactor: real, fringeThreshold: real)

  /** A source or sink generator names a kind of fringe that is preferred and one that is forbidden; a generator of
      intermediate points names neither. */
  datatype Fringe = Fringe(bonus: bool, forbidden: bool)

  /** Vehicles of the class may not use the edge, it is unsuitable as an intermediate point, or it is the wrong kind of
      fringe. */
  predicate Excluded(o: Options, f: Fringe, e: Edge) {
    || (o.vclass && !e.allowed)
    || (!f.bonus && e.anyFringe && !o.pedestrians)
    || (f.forbidden && e.forbiddenFringe && !o.pedestrians)
  }

  /** The edge is a fringe of the preferred kind on which the fringe factor counts. */
  predicate Preferred(o: Options, f: Fringe, e: Edge) {
    o.fringeFactor != 1.0 && !o.pedestrians && f.bonus && e.speed > o.fringeThreshold && e.bonusFringe
  }

  /** A factor that counts only on a condition. */
  ghost function Factor(counts: bool, x: real): real { if counts then x else 1.0 }

  ghost function Weight(o: Options, f: Fringe, e: Edge): real {
    if Excluded(o, f, e) then 0.0
    else
      Factor(o.byLength, e.length) * Factor(o.byLanes, e.lanes as real) * e.power *
      Factor(Preferred(o, f, e), o.fringeFactor)
  }

  method Probability(o: Options, f: Fringe, e: Edge) returns (prob: real)
    ensures prob == Weight(o, f, e)
  {
    if o.vclass && !e.allowed { return 0.0; }
    if !f.bonus && e.anyFringe && !o.pedestrians { return 0.0; }
    if f.forbidden && e.forbiddenFringe && !o.pedestrians { return 0.0; }
    prob := 1.0;
    if o.byLength { prob := prob * e.length; }
    if o.byLanes { prob := prob * e.lanes as real; }
    prob := prob * e.power;
    if o.fringeFactor != 1.0 && !o.pedestrians && f.bonus && e.speed > o.fringeThreshold && e.bonusFringe {
      prob := prob * o.fringeFactor;
    }
  }

  /** By choice the length is a factor of the weight, */
  lemma WeightLength(o: Options, f: Fringe, e: Edge)
    ensures Weight(o.(byLength := true), f, e) == e.length * Weight(o.(byLength := false), f, e)
  {
    ExcludedAlike(o, f, e);
    Reorder(e.length, Factor(o.byLanes, e.lanes as real), e.power, Factor(Preferred(o, f, e), o.fringeFactor));
    hide Excluded, Preferred;
  }

  /** and so is the number of lanes; */
  lemma WeightLanes(o: Options, f: Fringe, e: Edge)
    ensures Weight(o.(byLanes := true), f, e) == e.lanes as real * Weight(o.(byLanes := false), f, e)
  {
    ExcludedAlike(o, f, e);
    Reorder(Factor(o.byLength, e.length), e.lanes as real, e.power, Factor(Preferred(o, f, e), o.fringeFactor));
    hide Excluded, Preferred;
  }

  /** the power of the speed always is. */
  lemma WeightPower(o: Options, f: Fringe, e: Edge)
    ensures Weight(o, f, e) == e.power * Weight(o, f, e.(power := 1.0))
  {
    ExcludedAlike(o, f, e);
    Reorder(Factor(o.byLength, e.length), Factor(o.byLanes, e.lanes as real), e.power,
            Factor(Preferred(o, f, e), o.fringeFactor));
    hide Excluded, Preferred;
  }

  lemma ExcludedAlike(o: Options, f: Fringe, e: Edge)
    ensures forall b :: Excluded(o.(byLength := b), f, e) == Excluded(o.(byLanes := b), f, e) == Excluded(o, f, e)
    ensures forall b :: Preferred(o.(byLength := b), f, e) == Preferred(o.(byLanes := b), f, e) == Preferred(o, f, e)
    ensures Excluded(o, f, e.(power := 1.0)) == Excluded(o, f, e) == Excluded(o.(fringeFactor := 1.0), f, e)
    ensures Preferred(o, f, e.(power := 1.0)) == Preferred(o, f, e)
  {
  }

  /** The fringe factor counts exactly on fast edges of the preferred kind of fringe, and never for pedestrians. */
  lemma WeightFringe(o: Options, f: Fringe, e: Edge)
    ensures !o.pedestrians && f.bonus && e.bonusFringe && e.speed > o.fringeThreshold ==>
      Weight(o, f, e) == o.fringeFactor * Weight(o.(fringeFactor := 1.0), f, e)
    ensures o.pedestrians || !f.bonus || !e.bonusFringe || e.speed <= o.fringeThreshold ==>
      Weight(o, f, e) == Weight(o.(fringeFactor := 1.0), f, e)
  {
    var a, b := Factor(o.byLength, e.length), Factor(o.byLanes, e.lanes as real);
    ExcludedAlike(o, f, e);
    Reorder(a, b, e.power, o.fringeFactor);
    hide Excluded;
  }

  /** Where no option counts, the weight of an edge that is not excluded is the power of its speed. */
  lemma WeightPlain(o: Options, f: Fringe, e: Edge)
    requires !o.vclass && !o.byLength && !o.byLanes && o.pedestrians
    ensures Weight(o, f, e) == e.power
  {
  }

  lemma Reorder(a: real, b: real, c: real, d: real)
    ensures a * b * c * d == a * (1.0 * b * c * d)
    ensures a * b * c * d == b * (a * 1.0 * c * d)
    ensures a * b * c * d == c * (a * b * 1.0 * d)
    ensures a * b * c * d == d * (a * b * c * 1.0)
  {
  }

  /** Exactly the excluded edges have weight 0, when the factors are positive. */
  lemma WeightPositive(o: Options, f: Fringe, e: Edge)
    requires e.length > 0.0 && e.lanes > 0 && e.power > 0.0 && o.fringeFactor > 0.0
    ensures Weight(o, f, e) >= 0.0
    ensures Weight(o, f, e) == 0.0 <==>
      || (o.vclass && !e.allowed)
      || (!o.pedestrians && ((!f.bonus && e.anyFringe) || (f.forbidden && e.forbiddenFringe)))
  {
    var a, b := Factor(o.byLength, e.length), Factor(o.byLanes, e.lanes as real);
    PositiveProduct(a, b);
    PositiveProduct(a * b, e.power);
    PositiveProduct(a * b * e.power, Factor(Preferred(o, f, e), o.fringeFactor));
  }

  lemma PositiveProduct(a: real, b: real)
    requires a > 0.0 && b > 0.0
    ensures a * b > 0.0
  {
  }

  function Sum(weights: seq<real>): real {
    if weights == [] then 0.0 else Sum(weights[..|weights| - 1]) + weights[|weights| - 1]
  }

  ghost predicate NonNegative(weights: seq<real>) { forall i :: 0 <= i < |weights| ==> weights[i] >= 0.0 }

  /** Running totals. */
  ghost predicate Cumulative(weights: seq<real>, cumulative: seq<real>) {
    |cumulative| == |weights| && forall i :: 0 <= i < |weights| ==> cumulative[i] == Sum(weights[..i + 1])
  }

  /** `bisect`: the position behind all entries that are not above `r`, in a list that does not decrease. */
  function Bisect(s: seq<real>, r: real): (i: nat)
    ensures i <= |s| && (i < |s| ==> r < s[i]) && forall k :: 0 <= k < i ==> s[k] <= r
  {
    if s == [] || r < s[0] then 0 else 1 + Bisect(s[1..], r)
  }

  class RandomEdgeGenerator {
    const weights: seq<real>
    var cumulative: seq<real>
    var total: real

    ghost predicate Valid()
      reads this
    {
      NonNegative(weights) && Cumulative(weights, cumulative) && total == Sum(weights) && total > 0.0
    }

    /** No generator when all weights are 0; the caller raises an error then. */
    constructor (weights: seq<real>)
      requires NonNegative(weights)
      ensures this.weights == weights && Cumulative(weights, cumulative) && total == Sum(weights) && total >= 0.0
      ensures total != 0.0 <==> Valid()
    {
      this.weights := weights;
      var sum, list := 0.0, [];
      for i := 0 to |weights|
        invariant |list| == i && sum == Sum(weights[..i]) && sum >= 0.0
        invariant forall k :: 0 <= k < i ==> list[k] == Sum(weights[..k + 1])
      {
        assert weights[..i + 1][..i] == weights[..i];
        sum := sum + weights[i];
        list := list + [sum];
      }
      assert weights[..|weights|] == weights;
      total, cumulative := sum, list;
    }

    /** For every draw in [0, total) the edge exists, its weight is positive and the draw is in its slot. */
    method Get(r: real) returns (index: nat)
      requires Valid() && 0.0 <= r < total
      ensures index < |weights| && weights[index] > 0.0 && InSlot(weights, index, r)
    {
      index := Bisect(cumulative, r);
      assert weights[..|weights|] == weights;
      assert |weights| > 0;
      assert cumulative[|weights| - 1] == total;
      SumNext(weights, index);
      if index > 0 {
        assert cumulative[index - 1] == Sum(weights[..index]);
      }
    }
  }

  lemma SumNext(weights: seq<real>, i: nat)
    requires i < |weights|
    ensures Sum(weights[..i + 1]) == Sum(weights[..i]) + weights[i]
  {
    assert weights[..i + 1][..i] == weights[..i];
  }

  /** The slot of an edge starts at the total of the weights before it and is as long as its own weight. */
  ghost predicate InSlot(weights: seq<real>, i: nat, r: real)
    requires i < |weights|
  {
    Sum(weights[..i]) <= r < Sum(weights[..i]) + weights[i]
  }

  lemma {:induction false} SumGrows(weights: seq<real>, i: nat, j: nat)
    requires NonNegative(weights) && i <= j <= |weights|
    ensures Sum(weights[..i]) <= Sum(weights[..j])
    decreases j
  {
    if i < j {
      SumGrows(weights, i, j - 1);
      assert weights[..j][..j - 1] == weights[..j - 1];
    }
  }

  /** The slots do not overlap, so an edge is drawn exactly for the draws in its slot; one of weight 0 never is. */
  lemma SlotsApart(weights: seq<real>, i: nat, j: nat, r: real)
    requires NonNegative(weights) && i < |weights| && j < |weights| && InSlot(weights, i, r) && InSlot(weights, j, r)
    ensures i == j && weights[i] > 0.0
  {
    SumNext(weights, i);
    SumNext(weights, j);
    if i < j {
      SumGrows(weights, i + 1, j);
    } else if j < i {
      SumGrows(weights, j + 1, i);
    }
  }

  /** Every draw in [0, total) is in some slot. */
  lemma {:induction false} SlotsCover(weights: seq<real>, r: real) returns (i: nat)
    requires NonNegative(weights) && 0.0 <= r < Sum(weights)
    ensures i < |weights| && InSlot(weights, i, r)
  {
    var n := |weights| - 1;
    if r < Sum(weights[..n]) {
      i := SlotsCover(weights[..n], r);
      assert weights[..n][..i] == weights[..i];
    } else {
      i := n;
    }
  }
}
