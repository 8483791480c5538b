/** The gatherer of configuration paths: a recursive search over the registered types that
    lists every simple path from a root, and the string replacement it uses for labels. */
module TypePaths {

  /** A TypeId, by its number in the table of registered types. */
  type Type = nat

  datatype Attribute =
    | Pointer(name: string, pointee: Type)
    | ObjectVector(name: string, item: Type)
    | Plain(name: string)

  /** What the type system answers: names, attributes and the is-child-of relation. */
  datatype Registry = Registry(
    registered: seq<Type>, name: Type -> string, attributes: Type -> seq<Attribute>, childOf: (Type, Type) -> bool)

  datatype Edge = Edge(name: string, target: Type)

  /** A line of the output: a type and one path that leads to it. */
  datatype Item = Item(tid: Type, path: string)

  // ---------------------------------------------------------------- labels

  /** Left-to-right, non-overlapping replacement of "::" by "::%". */
  function Escaped(s: string): string {
    if |s| < 2 then s
    else if s[0] == ':' && s[1] == ':' then "::%" + Escaped(s[2..])
    else [s[0]] + Escaped(s[1..])
  }

  predicate ColonsAt(s: string, i: int) { 0 <= i && i + 1 < |s| && s[i] == ':' && s[i + 1] == ':' }

  method Find(s: string, from: nat) returns (j: nat)
    ensures j == |s| || (from <= j && ColonsAt(s, j))
    ensures forall i :: from <= i < j ==> !ColonsAt(s, i)
  {
    j := from;
    while j + 1 < |s|
      invariant from <= j
      invariant forall i :: from <= i < j ==> !ColonsAt(s, i)
    {
      if s[j] == ':' && s[j + 1] == ':' {
        return;
      }
      j := j + 1;
    }
    j := |s|;
  }

  lemma {:induction false} EscapedSkip(s: string, m: nat)
    requires m <= |s| && forall i :: 0 <= i < m ==> !ColonsAt(s, i)
    ensures Escaped(s) == s[..m] + Escaped(s[m..])
  {
    if m == 0 {
      assert s[0..] == s && s[..0] == [];
    } else if |s| < 2 {
      assert s[m..] == [] && s[..m] == s;
    } else {
      assert !ColonsAt(s, 0);
      forall i | 0 <= i < m - 1 ensures !ColonsAt(s[1..], i) {
        assert !ColonsAt(s, i + 1);
      }
      EscapedSkip(s[1..], m - 1);
      assert s[1..][m - 1..] == s[m..];
      assert s[..m] == [s[0]] + s[1..][..m - 1];
    }
  }

  /** Replacing the first "::" of `rest`, which is at index `m`, behind what is `done`. */
  lemma EscapedHit(done: string, rest: string, m: nat)
    requires ColonsAt(rest, m) && forall i :: 0 <= i < m ==> !ColonsAt(rest, i)
    ensures var done' := done + rest[..m] + "::%";
      && done + Escaped(rest) == done' + Escaped(rest[m + 2..])
      && (done + rest)[..|done| + m] + "::%" + (done + rest)[|done| + m + 2..] == done' + rest[m + 2..]
  {
    EscapedSkip(rest, m);
    assert rest[m..][2..] == rest[m + 2..];
    var tail := Escaped(rest[m + 2..]);
    assert Escaped(rest) == rest[..m] + ("::%" + tail);
    hide Escaped;
    assert done + (rest[..m] + ("::%" + tail)) == done + rest[..m] + "::%" + tail;
  }

  /** The in-place replacement loop; the search goes on one character behind the last hit. */
  method FindAndReplace(source: string) returns (r: string)
    ensures r == Escaped(source)
  {
    hide Escaped;
    r := source;
    var j := Find(r, 0);
    ghost var done, rest: string := [], source;
    while j != |r|
      invariant r == done + rest && Escaped(source) == done + Escaped(rest)
      invariant j == |r| || (|done| <= j && ColonsAt(r, j))
      invariant forall i :: |done| <= i < j ==> !ColonsAt(r, i)
      decreases |rest|
    {
      ghost var m := j - |done|;
      NothingBefore(done, rest, m);
      assert ColonsAt(rest, m);
      EscapedHit(done, rest, m);
      r := r[..j] + "::%" + r[j + 2..];
      done, rest := done + rest[..m] + "::%", rest[m + 2..];
      j := Find(r, j + 1);
    }
    NothingBefore(done, rest, |rest|);
    EscapedNothing(rest);
  }

  lemma EscapedNothing(s: string)
    requires forall i :: 0 <= i < |s| ==> !ColonsAt(s, i)
    ensures Escaped(s) == s
  {
    EscapedSkip(s, |s|);
  }

  lemma NothingBefore(done: string, rest: string, m: nat)
    requires m <= |rest| && forall i :: |done| <= i < |done| + m ==> !ColonsAt(done + rest, i)
    ensures forall i :: 0 <= i < m ==> !ColonsAt(rest, i)
  {
    forall i | 0 <= i < m ensures !ColonsAt(rest, i) {
      assert !ColonsAt(done + rest, |done| + i);
    }
  }

  function WithoutPercent(s: string): string {
    if s == [] then [] else (if s[0] == '%' then [] else [s[0]]) + WithoutPercent(s[1..])
  }

  lemma WithoutPercentHead(s: string)
    ensures s == [] ==> WithoutPercent(s) == []
    ensures s != [] && s[0] == '%' ==> WithoutPercent(s) == WithoutPercent(s[1..])
    ensures s != [] && s[0] != '%' ==> WithoutPercent(s) == [s[0]] + WithoutPercent(s[1..])
  {
  }

  lemma {:induction false} WithoutPercentAppend(s: string, t: string)
    ensures WithoutPercent(s + t) == WithoutPercent(s) + WithoutPercent(t)
  {
    hide *;
    if s == [] {
      assert s + t == t;
      WithoutPercentHead("");
    } else {
      WithoutPercentAppend(s[1..], t);
      WithoutPercentHead(s);
      WithoutPercentHead(s + t);
      assert (s + t)[0] == s[0] && (s + t)[1..] == s[1..] + t;
    }
  }

  /** Dropping every "%" undoes the replacement. */
  lemma {:induction false} EscapedRoundTrip(s: string)
    requires '%' !in s
    ensures WithoutPercent(Escaped(s)) == s
  {
    hide Escaped, WithoutPercent;
    EscapedHead(s);
    if |s| < 2 {
      WithoutPercentHead(s);
      if |s| == 1 { WithoutPercentHead(s[1..]); assert s == [s[0]] + s[1..]; }
    } else if s[0] == ':' && s[1] == ':' {
      EscapedRoundTrip(s[2..]);
      WithoutPercentAppend("::%", Escaped(s[2..]));
      ColonsWithoutPercent();
      assert s == "::" + s[2..];
    } else {
      var rest := Escaped(s[1..]);
      EscapedRoundTrip(s[1..]);
      WithoutPercentHead([s[0]] + rest);
      assert ([s[0]] + rest)[1..] == rest && s == [s[0]] + s[1..];
    }
  }

  lemma EscapedHead(s: string)
    ensures |s| < 2 ==> Escaped(s) == s
    ensures |s| >= 2 ==>
      Escaped(s) == if s[0] == ':' && s[1] == ':' then "::%" + Escaped(s[2..]) else [s[0]] + Escaped(s[1..])
  {
  }

  lemma ColonsWithoutPercent()
    ensures WithoutPercent("::%") == "::"
  {
    assert "::%"[1..] == ":%" && ":%"[1..] == "%" && "%"[1..] == "";
  }

  /** No "::" is left without its "%". */
  lemma {:induction false} EscapedEverywhere(s: string, i: nat)
    requires ColonsAt(Escaped(s), i)
    ensures i + 2 < |Escaped(s)| && Escaped(s)[i + 2] == '%'
  {
    var e := Escaped(s);
    if |s| >= 2 && s[0] == ':' && s[1] == ':' {
      if i >= 3 { EscapedEverywhere(s[2..], i - 3); }
    } else if |s| >= 2 {
      EscapedFirst(s[1..]);
      if i >= 1 { EscapedEverywhere(s[1..], i - 1); }
    }
  }

  lemma {:induction false} EscapedFirst(s: string)
    ensures |Escaped(s)| >= |s| && (s != [] ==> Escaped(s)[0] == s[0])
  {
    if |s| >= 2 && s[0] == ':' && s[1] == ':' {
      EscapedFirst(s[2..]);
    } else if |s| >= 2 {
      EscapedFirst(s[1..]);
    }
  }

  // ---------------------------------------------------------------- the graph that is searched

  /** The attribute edges of a type, in attribute order; plain attributes give none. */
  function AttributeEdges(attributes: seq<Attribute>): seq<Edge> {
    if attributes == [] then []
    else
      AttributeEdges(attributes[..|attributes| - 1]) +
      match attributes[|attributes| - 1]
      case Pointer(name, pointee) => [Edge(name, pointee)]
      case ObjectVector(name, item) => [Edge(name + "/[i]", item)]
      case Plain(_) => []
  }

  /** The label of an edge to a child or to the other end of an aggregation: the name of the type behind "$%", with a
      "%" behind each "::". */
  function TypeLabel(reg: Registry, t: Type): (text: string)
    ensures "$%" <= text
    ensures forall i :: ColonsAt(text, i) ==> i + 2 < |text| && text[i + 2] == '%'
    ensures '%' !in reg.name(t) ==> WithoutPercent(text) == "$" + reg.name(t)
  {
    LabelFacts(reg.name(t));
    Escaped("$%" + reg.name(t))
  }

  lemma LabelFacts(name: string)
    ensures var text := Escaped("$%" + name);
      && "$%" <= text
      && (forall i :: ColonsAt(text, i) ==> i + 2 < |text| && text[i + 2] == '%')
      && ('%' !in name ==> WithoutPercent(text) == "$" + name)
  {
    hide Escaped, WithoutPercent;
    LabelStart(name);
    var text := Escaped("$%" + name);
    forall i | ColonsAt(text, i) ensures i + 2 < |text| && text[i + 2] == '%' {
      EscapedEverywhere("$%" + name, i);
    }
    if '%' !in name {
      EscapedRoundTrip(name);
      WithoutPercentAppend("$%", Escaped(name));
      DollarPercent();
    }
  }

  lemma LabelStart(name: string)
    ensures Escaped("$%" + name) == "$%" + Escaped(name)
  {
    var s := "$%" + name;
    assert s[0] == '$' && s[1] == '%';
    EscapedSkip(s, 2);
    assert s[..2] == "$%" && s[2..] == name;
    hide Escaped;
  }

  lemma DollarPercent()
    ensures WithoutPercent("$%") == "$"
  {
    assert "$%"[1..] == "%" && "%"[1..] == "";
  }

  /** The edges to children of `t` among the given registered types. */
  function ChildEdges(reg: Registry, t: Type, registered: seq<Type>): seq<Edge> {
    if registered == [] then []
    else
      var child := registered[|registered| - 1];
      ChildEdges(reg, t, registered[..|registered| - 1]) +
      (if reg.childOf(child, t) then [Edge(TypeLabel(reg, child), child)] else [])
  }

  /** The other end of an aggregation of which `t` is one end. */
  function OtherEnd(pair: (Type, Type), t: Type): Type { if pair.1 == t then pair.0 else pair.1 }

  function AggregateEdges(reg: Registry, t: Type, aggregates: seq<(Type, Type)>): seq<Edge> {
    if aggregates == [] then []
    else
      var pair := aggregates[|aggregates| - 1];
      AggregateEdges(reg, t, aggregates[..|aggregates| - 1]) +
      (if pair.0 == t || pair.1 == t then [Edge(TypeLabel(reg, OtherEnd(pair, t)), OtherEnd(pair, t))] else [])
  }

  datatype Graph = Graph(reg: Registry, aggregates: seq<(Type, Type)>) {

    /** Type numbers are only handed out by registration. */
    ghost predicate Valid() {
      && (forall t, a :: t in reg.registered && a in reg.attributes(t) ==>
            (a.Pointer? ==> a.pointee in reg.registered) && (a.ObjectVector? ==> a.item in reg.registered))
      && (forall p :: p in aggregates ==> p.0 in reg.registered && p.1 in reg.registered)
    }

    function Edges(t: Type): seq<Edge> {
      AttributeEdges(reg.attributes(t)) + ChildEdges(reg, t, reg.registered) + AggregateEdges(reg, t, aggregates)
    }

    ghost function Unprocessed(done: seq<Type>): set<Type> {
      (set t | t in reg.registered) - (set t | t in done)
    }
  }

  lemma {:induction false} AttributeTargets(attributes: seq<Attribute>, e: Edge)
    requires e in AttributeEdges(attributes)
    ensures exists a :: a in attributes && !a.Plain? && e.target == if a.Pointer? then a.pointee else a.item
  {
    var last := attributes[|attributes| - 1];
    if e in AttributeEdges(attributes[..|attributes| - 1]) {
      AttributeTargets(attributes[..|attributes| - 1], e);
    } else {
      assert last in attributes;
    }
  }

  lemma {:induction false} ChildTargets(reg: Registry, t: Type, registered: seq<Type>, e: Edge)
    requires e in ChildEdges(reg, t, registered)
    ensures e.target in registered
  {
    if e in ChildEdges(reg, t, registered[..|registered| - 1]) {
      ChildTargets(reg, t, registered[..|registered| - 1], e);
    }
  }

  lemma {:induction false} AggregateTargets(reg: Registry, t: Type, aggregates: seq<(Type, Type)>, e: Edge)
    requires e in AggregateEdges(reg, t, aggregates)
    ensures exists p :: p in aggregates && e.target == OtherEnd(p, t)
  {
    var last := aggregates[|aggregates| - 1];
    if e in AggregateEdges(reg, t, aggregates[..|aggregates| - 1]) {
      AggregateTargets(reg, t, aggregates[..|aggregates| - 1], e);
    } else {
      assert last in aggregates;
    }
  }

  lemma EdgesStayRegistered(g: Graph, t: Type, e: Edge)
    requires g.Valid() && t in g.reg.registered && e in g.Edges(t)
    ensures e.target in g.reg.registered
  {
    if e in AttributeEdges(g.reg.attributes(t)) {
      AttributeTargets(g.reg.attributes(t), e);
    } else if e in ChildEdges(g.reg, t, g.reg.registered) {
      ChildTargets(g.reg, t, g.reg.registered, e);
    } else {
      AggregateTargets(g.reg, t, g.aggregates, e);
    }
  }

  /** An edge leads from `t`: a pointer or an object vector among its attributes, a registered child, or the other end
      of an aggregation. */
  ghost predicate LeadsFrom(g: Graph, t: Type, e: Edge) {
    || Pointer(e.name, e.target) in g.reg.attributes(t)
    || (exists name :: ObjectVector(name, e.target) in g.reg.attributes(t) && e.name == name + "/[i]")
    || (e.target in g.reg.registered && g.reg.childOf(e.target, t) && e.name == TypeLabel(g.reg, e.target))
    || (((t, e.target) in g.aggregates || (e.target, t) in g.aggregates) && e.name == TypeLabel(g.reg, e.target))
  }

  lemma {:induction false} AttributeEdgesExactly(attributes: seq<Attribute>, e: Edge)
    ensures e in AttributeEdges(attributes) <==>
      || Pointer(e.name, e.target) in attributes
      || exists name :: ObjectVector(name, e.target) in attributes && e.name == name + "/[i]"
  {
    if attributes != [] {
      var front, last := attributes[..|attributes| - 1], attributes[|attributes| - 1];
      AttributeEdgesExactly(front, e);
      assert forall a :: a in attributes <==> a in front || a == last;
      if last.ObjectVector? && e == Edge(last.name + "/[i]", last.item) {
        assert ObjectVector(last.name, e.target) in attributes;
      }
    }
  }

  lemma {:induction false} ChildEdgesExactly(reg: Registry, t: Type, registered: seq<Type>, e: Edge)
    ensures e in ChildEdges(reg, t, registered) <==>
      e.target in registered && reg.childOf(e.target, t) && e.name == TypeLabel(reg, e.target)
  {
    hide TypeLabel;
    if registered != [] {
      var front, last := registered[..|registered| - 1], registered[|registered| - 1];
      ChildEdgesExactly(reg, t, front, e);
      assert forall x :: x in registered <==> x in front || x == last;
    }
  }

  lemma {:induction false} AggregateEdgesExactly(reg: Registry, t: Type, aggregates: seq<(Type, Type)>, e: Edge)
    ensures e in AggregateEdges(reg, t, aggregates) <==>
      ((t, e.target) in aggregates || (e.target, t) in aggregates) && e.name == TypeLabel(reg, e.target)
  {
    hide TypeLabel;
    if aggregates != [] {
      var front, last := aggregates[..|aggregates| - 1], aggregates[|aggregates| - 1];
      AggregateEdgesExactly(reg, t, front, e);
      assert forall p :: p in aggregates <==> p in front || p == last;
    }
  }

  /** The edges followed from a type are exactly those that lead from it. */
  lemma EdgesExactly(g: Graph, t: Type, e: Edge)
    ensures e in g.Edges(t) <==> LeadsFrom(g, t, e)
  {
    AttributeEdgesExactly(g.reg.attributes(t), e);
    ChildEdgesExactly(g.reg, t, g.reg.registered, e);
    AggregateEdgesExactly(g.reg, t, g.aggregates, e);
    hide AttributeEdges, ChildEdges, AggregateEdges, TypeLabel;
  }

  // ---------------------------------------------------------------- what the search lists

  function Render(path: seq<string>): string {
    if path == [] then "" else Render(path[..|path| - 1]) + "/" + path[|path| - 1]
  }

  ghost predicate EdgesOf(g: Graph, t: Type, es: seq<Edge>) { forall e :: e in es ==> e in g.Edges(t) }

  /** What a call of the search on type `t` appends to the output. */
  ghost function Gathered(g: Graph, t: Type, path: seq<string>, done: seq<Type>): seq<Item>
    requires g.Valid() && t in g.reg.registered
    decreases |g.Unprocessed(done)|, |g.Edges(t)| + 1
  {
    if t in done then [] else [Item(t, Render(path))] + GatheredFrom(g, t, g.Edges(t), path, done)
  }

  /** What following the first edges `es` of `t` appends. */
  ghost function GatheredFrom(g: Graph, t: Type, es: seq<Edge>, path: seq<string>, done: seq<Type>): seq<Item>
    requires g.Valid() && t in g.reg.registered && t !in done && EdgesOf(g, t, es)
    decreases |g.Unprocessed(done)|, |es|
  {
    if es == [] then []
    else
      var e := es[|es| - 1];
      EdgesStayRegistered(g, t, e);
      Shrinks(g, t, done);
      GatheredFrom(g, t, es[..|es| - 1], path, done) + Gathered(g, e.target, path + [e.name], done + [t])
  }

  lemma Shrinks(g: Graph, t: Type, done: seq<Type>)
    requires t in g.reg.registered && t !in done
    ensures |g.Unprocessed(done + [t])| < |g.Unprocessed(done)|
  {
    assert g.Unprocessed(done + [t]) == g.Unprocessed(done) - {t};
    assert t in g.Unprocessed(done);
  }

  // ---------------------------------------------------------------- simple paths

  ghost predicate IsWalk(g: Graph, from: Type, steps: seq<Edge>)
    decreases |steps|
  {
    steps == [] || (LeadsFrom(g, from, steps[0]) && IsWalk(g, steps[0].target, steps[1..]))
  }

  function Visited(from: Type, steps: seq<Edge>): (r: seq<Type>)
    ensures |r| == |steps| + 1 && r[0] == from
    decreases |steps|
  {
    if steps == [] then [from] else [from] + Visited(steps[0].target, steps[1..])
  }

  function Labels(steps: seq<Edge>): (labels: seq<string>)
    ensures |labels| == |steps| && forall k :: 0 <= k < |steps| ==> labels[k] == steps[k].name
  {
    if steps == [] then [] else [steps[0].name] + Labels(steps[1..])
  }

  ghost predicate NoRepeats(types: seq<Type>) { forall i, j :: 0 <= i < j < |types| ==> types[i] != types[j] }

  ghost predicate Avoids(types: seq<Type>, done: seq<Type>) { forall t :: t in types ==> t !in done }

  /** The walk `steps` from `from` repeats no type, avoids `done`, and is what `item` says behind `path`. */
  ghost predicate Witness(g: Graph, from: Type, path: seq<string>, done: seq<Type>, item: Item, steps: seq<Edge>) {
    && IsWalk(g, from, steps)
    && NoRepeats(Visited(from, steps))
    && Avoids(Visited(from, steps), done)
    && item.tid == Visited(from, steps)[|steps|]
    && item.path == Render(path + Labels(steps))
  }

  lemma {:induction false} InGatheredFrom(g: Graph, t: Type, es: seq<Edge>, path: seq<string>, done: seq<Type>, k: nat,
                                          item: Item)
    requires g.Valid() && t in g.reg.registered && t !in done && k < |es|
    requires EdgesOf(g, t, es)
    requires es[k].target in g.reg.registered && item in Gathered(g, es[k].target, path + [es[k].name], done + [t])
    ensures item in GatheredFrom(g, t, es, path, done)
    decreases |es|
  {
    if k < |es| - 1 {
      InGatheredFrom(g, t, es[..|es| - 1], path, done, k, item);
    }
  }

  lemma {:induction false} FromSomeEdge(g: Graph, t: Type, es: seq<Edge>, path: seq<string>, done: seq<Type>,
                                        item: Item) returns (e: Edge)
    requires g.Valid() && t in g.reg.registered && t !in done
    requires EdgesOf(g, t, es)
    requires item in GatheredFrom(g, t, es, path, done)
    ensures e in es && e.target in g.reg.registered
    ensures item in Gathered(g, e.target, path + [e.name], done + [t])
    decreases |es|
  {
    e := es[|es| - 1];
    EdgesStayRegistered(g, t, e);
    if item !in Gathered(g, e.target, path + [e.name], done + [t]) {
      e := FromSomeEdge(g, t, es[..|es| - 1], path, done, item);
    }
  }

  /** Each label stands behind a slash. */
  lemma {:induction false} RenderJoin(a: seq<string>, b: seq<string>)
    ensures Render(a + b) == Render(a) + Render(b)
  {
    if b == [] {
      assert a + b == a;
    } else {
      RenderJoin(a, b[..|b| - 1]);
      assert (a + b)[..|a + b| - 1] == a + b[..|b| - 1];
    }
  }

  lemma RenderOne(text: string)
    ensures Render([text]) == "/" + text
  {
    assert [text][..0] == [];
  }

  ghost predicate Marked(s: string) { forall i :: ColonsAt(s, i) ==> i + 2 < |s| && s[i + 2] == '%' }

  /** Attribute names without colons, as all of them are. */
  ghost predicate NoColons(reg: Registry) {
    forall t, a :: t in reg.registered && a in reg.attributes(t) ==> ':' !in a.name
  }

  lemma LabelMarked(g: Graph, t: Type, e: Edge)
    requires NoColons(g.reg) && t in g.reg.registered && LeadsFrom(g, t, e)
    ensures Marked(e.name)
  {
    hide TypeLabel, Marked;
    if Pointer(e.name, e.target) in g.reg.attributes(t) {
      assert ':' !in Pointer(e.name, e.target).name;
      NoneMarked(e.name);
    } else if name :| ObjectVector(name, e.target) in g.reg.attributes(t) && e.name == name + "/[i]" {
      assert ':' !in ObjectVector(name, e.target).name && ':' !in "/[i]";
      NoneMarked(e.name);
    } else {
      TypeLabelMarked(g.reg, e.target);
    }
  }

  lemma NoneMarked(s: string)
    requires ':' !in s
    ensures Marked(s)
  {
  }

  lemma TypeLabelMarked(reg: Registry, t: Type)
    ensures Marked(TypeLabel(reg, t))
  {
  }

  lemma {:induction false} RenderMarked(labels: seq<string>)
    requires forall k :: 0 <= k < |labels| ==> Marked(labels[k])
    ensures Marked(Render(labels))
  {
    if labels != [] {
      var front, last := labels[..|labels| - 1], labels[|labels| - 1];
      RenderMarked(front);
      MarkedJoin(Render(front), last);
    }
  }

  lemma MarkedJoin(a: string, b: string)
    requires Marked(a) && Marked(b)
    ensures Marked(a + "/" + b)
  {
    var s := a + "/" + b;
    assert s[|a|] == '/';
    forall i | ColonsAt(s, i) ensures i + 2 < |s| && s[i + 2] == '%' {
      if i + 1 < |a| {
        assert ColonsAt(a, i);
        assert s[i + 2] == a[i + 2];
      } else {
        assert i != |a| && i + 1 != |a|;
        assert ColonsAt(b, i - |a| - 1);
        assert s[i + 2] == b[i - |a| - 1 + 2];
      }
    }
  }

  lemma {:induction false} WalkMarked(g: Graph, from: Type, steps: seq<Edge>)
    requires g.Valid() && NoColons(g.reg) && from in g.reg.registered && IsWalk(g, from, steps)
    ensures forall k :: 0 <= k < |steps| ==> Marked(Labels(steps)[k])
    decreases |steps|
  {
    hide LeadsFrom, Marked, Graph.Valid, Graph.Edges;
    if steps != [] {
      EdgesExactly(g, from, steps[0]);
      EdgesStayRegistered(g, from, steps[0]);
      LabelMarked(g, from, steps[0]);
      WalkMarked(g, steps[0].target, steps[1..]);
    }
  }

  /** When no attribute name holds a colon, no "::" of a listed path is without its "%". */
  lemma ListedMarked(g: Graph, root: Type, item: Item, steps: seq<Edge>)
    requires g.Valid() && NoColons(g.reg) && root in g.reg.registered && Witness(g, root, [], [], item, steps)
    ensures Marked(item.path)
  {
    WalkMarked(g, root, steps);
    assert [] + Labels(steps) == Labels(steps);
    RenderMarked(Labels(steps));
    hide Marked, Render, IsWalk;
  }

  /** Every listed item comes from a simple path. */
  lemma {:induction false} GatheredSound(g: Graph, t: Type, path: seq<string>, done: seq<Type>, item: Item)
    returns (steps: seq<Edge>)
    requires g.Valid() && t in g.reg.registered && item in Gathered(g, t, path, done)
    ensures Witness(g, t, path, done, item, steps)
    decreases |g.Unprocessed(done)|
  {
    if item == Item(t, Render(path)) {
      steps := [];
      assert path + Labels([]) == path;
    } else {
      var e := FromSomeEdge(g, t, g.Edges(t), path, done, item);
      Shrinks(g, t, done);
      var rest := GatheredSound(g, e.target, path + [e.name], done + [t], item);
      steps := [e] + rest;
      WitnessCons(g, t, path, done, item, e, rest);
    }
  }

  lemma WitnessCons(g: Graph, t: Type, path: seq<string>, done: seq<Type>, item: Item, e: Edge, rest: seq<Edge>)
    requires e in g.Edges(t) && t !in done && Witness(g, e.target, path + [e.name], done + [t], item, rest)
    ensures Witness(g, t, path, done, item, [e] + rest)
  {
    var steps := [e] + rest;
    EdgesExactly(g, t, e);
    StepsCons(g, t, e, rest);
    hide Render, LeadsFrom, Graph.Edges, IsWalk, Visited, Labels;
    assert t in done + [t];
    assert path + Labels(steps) == path + [e.name] + Labels(rest);
  }

  lemma StepsCons(g: Graph, t: Type, e: Edge, rest: seq<Edge>)
    ensures IsWalk(g, t, [e] + rest) <==> LeadsFrom(g, t, e) && IsWalk(g, e.target, rest)
    ensures Visited(t, [e] + rest) == [t] + Visited(e.target, rest) && Labels([e] + rest) == [e.name] + Labels(rest)
  {
    assert ([e] + rest)[1..] == rest;
    hide LeadsFrom;
  }

  /** Every simple path is listed. */
  lemma {:induction false} GatheredComplete(g: Graph, t: Type, path: seq<string>, done: seq<Type>, item: Item,
                                            steps: seq<Edge>)
    requires g.Valid() && t in g.reg.registered && Witness(g, t, path, done, item, steps)
    ensures item in Gathered(g, t, path, done)
    decreases |steps|
  {
    assert Visited(t, steps)[0] in Visited(t, steps);
    if steps == [] {
      assert path + Labels([]) == path;
    } else {
      var e, rest := steps[0], steps[1..];
      WitnessTail(g, t, path, done, item, steps);
      EdgesExactly(g, t, e);
      EdgesStayRegistered(g, t, e);
      hide LeadsFrom, Graph.Edges, Witness, Render, Visited, Labels;
      GatheredComplete(g, e.target, path + [e.name], done + [t], item, rest);
      var k :| 0 <= k < |g.Edges(t)| && g.Edges(t)[k] == e;
      InGatheredFrom(g, t, g.Edges(t), path, done, k, item);
    }
  }

  lemma WitnessTail(g: Graph, t: Type, path: seq<string>, done: seq<Type>, item: Item, steps: seq<Edge>)
    requires Witness(g, t, path, done, item, steps) && steps != []
    ensures var e := steps[0];
      LeadsFrom(g, t, e) && t !in done && Witness(g, e.target, path + [e.name], done + [t], item, steps[1..])
  {
    var e, rest := steps[0], steps[1..];
    assert steps == [e] + rest;
    StepsCons(g, t, e, rest);
    TailAvoids(t, Visited(e.target, rest), done);
    hide LeadsFrom, Render, IsWalk, Visited, Labels, NoRepeats, Avoids;
    assert path + Labels(steps) == path + [e.name] + Labels(rest);
  }

  lemma TailAvoids(t: Type, inner: seq<Type>, done: seq<Type>)
    requires NoRepeats([t] + inner) && Avoids([t] + inner, done)
    ensures NoRepeats(inner) && Avoids(inner, done + [t]) && t !in done
  {
    var all := [t] + inner;
    assert all[0] in all;
    assert forall i :: 0 <= i < |inner| ==> all[i + 1] == inner[i];
    forall x | x in inner ensures x !in done + [t] {
      var i :| 0 <= i < |inner| && inner[i] == x;
      assert all[i + 1] in all && all[0] != all[i + 1];
    }
  }

  /** From a root the search lists exactly the simple paths. */
  lemma ListsSimplePaths(g: Graph, root: Type, item: Item)
    requires g.Valid() && root in g.reg.registered
    ensures item in Gathered(g, root, [], []) <==> exists steps :: Witness(g, root, [], [], item, steps)
  {
    if item in Gathered(g, root, [], []) {
      var steps := GatheredSound(g, root, [], [], item);
    }
    if steps :| Witness(g, root, [], [], item, steps) {
      GatheredComplete(g, root, [], [], item, steps);
    }
  }

  // ---------------------------------------------------------------- the order of the output

  /** Lexicographic order of strings by character code. */
  predicate StringLess(a: string, b: string) {
    b != [] && (a == [] || a[0] < b[0] || (a[0] == b[0] && StringLess(a[1..], b[1..])))
  }

  predicate ItemLess(a: Item, b: Item) { a.tid < b.tid || (a.tid == b.tid && StringLess(a.path, b.path)) }

  lemma {:induction false} StringOrder(a: string, b: string, c: string)
    ensures StringLess(a, b) || StringLess(b, a) || a == b
    ensures !(StringLess(a, b) && StringLess(b, a)) && !StringLess(a, a)
    ensures StringLess(a, b) && StringLess(b, c) ==> StringLess(a, c)
  {
    if a != [] && b != [] {
      StringOrder(a[1..], b[1..], if c == [] then [] else c[1..]);
      assert a[0] == b[0] && a[1..] == b[1..] ==> a == b by {
        assert a == [a[0]] + a[1..] && b == [b[0]] + b[1..];
      }
    } else if a != [] {
      StringOrder(a[1..], a[1..], a[1..]);
    }
  }

  ghost predicate AgreeTo(a: string, b: string, k: nat) {
    k <= |a| && k <= |b| && forall i :: 0 <= i < k ==> a[i] == b[i]
  }

  /** At the first difference `a` has ended or has the smaller character. */
  ghost predicate Before(a: string, b: string) {
    exists k :: 0 <= k < |b| && AgreeTo(a, b, k) && (k == |a| || a[k] < b[k])
  }

  lemma {:induction false} StringLessExactly(a: string, b: string)
    ensures StringLess(a, b) <==> Before(a, b)
  {
    if b != [] && (a == [] || a[0] < b[0]) {
      assert AgreeTo(a, b, 0);
    } else if b != [] && a[0] == b[0] {
      StringLessExactly(a[1..], b[1..]);
      if k :| 0 <= k < |b| && AgreeTo(a, b, k) && (k == |a| || a[k] < b[k]) {
        assert AgreeTo(a[1..], b[1..], k - 1);
      }
      if k :| 0 <= k < |b| - 1 && AgreeTo(a[1..], b[1..], k) && (k == |a| - 1 || a[1..][k] < b[1..][k]) {
        assert forall i :: 0 < i < k + 1 ==> a[i] == a[1..][i - 1] && b[i] == b[1..][i - 1];
        assert AgreeTo(a, b, k + 1);
      }
    }
  }

  /** By type, then by path; a strict total order. */
  lemma ItemOrder(a: Item, b: Item, c: Item)
    ensures a.tid < b.tid ==> ItemLess(a, b)
    ensures a.tid == b.tid ==> (ItemLess(a, b) <==> StringLess(a.path, b.path))
    ensures ItemLess(a, b) || ItemLess(b, a) || a == b
    ensures !(ItemLess(a, b) && ItemLess(b, a)) && !ItemLess(a, a)
    ensures ItemLess(a, b) && ItemLess(b, c) ==> ItemLess(a, c)
  {
    StringOrder(a.path, b.path, c.path);
  }

  ghost predicate Sorted(items: seq<Item>) {
    forall i, j :: 0 <= i < j < |items| ==> !ItemLess(items[j], items[i])
  }

  /** Sorted and free of duplicates. */
  ghost predicate StrictlySorted(items: seq<Item>) {
    forall i, j :: 0 <= i < j < |items| ==> ItemLess(items[i], items[j])
  }

  /** The search object: its output and the two stacks of the recursion. */
  class StaticInformation {
    const reg: Registry
    var output: seq<Item>
    var currentPath: seq<string>
    var alreadyProcessed: seq<Type>
    var aggregates: seq<(Type, Type)>

    constructor (reg: Registry)
      ensures this.reg == reg && output == [] && currentPath == [] && alreadyProcessed == [] && aggregates == []
    {
      this.reg := reg;
      output, currentPath, alreadyProcessed, aggregates := [], [], [], [];
    }

    ghost function TheGraph(): Graph
      reads this`aggregates
    {
      Graph(reg, aggregates)
    }

    method RecordAggregationInfo(a: Type, b: Type)
      modifies this`aggregates
      ensures aggregates == old(aggregates) + [(a, b)]
    {
      aggregates := aggregates + [(a, b)];
    }

    method GetCurrentPath() returns (path: string)
      ensures path == Render(currentPath)
    {
      path := "";
      for i := 0 to |currentPath|
        invariant path == Render(currentPath[..i])
      {
        assert currentPath[..i + 1][..i] == currentPath[..i];
        path := path + "/" + currentPath[i];
      }
      assert currentPath[..|currentPath|] == currentPath;
    }

    method HasAlreadyBeenProcessed(tid: Type) returns (b: bool)
      ensures b <==> tid in alreadyProcessed
    {
      for i := 0 to |alreadyProcessed|
        invariant tid !in alreadyProcessed[..i]
      {
        if alreadyProcessed[i] == tid {
          return true;
        }
      }
      return false;
    }

    /** Follows one edge: both stacks are pushed, the target searched, both popped. */
    method Follow(ghost g: Graph, tid: Type, name: string, target: Type)
      requires g == Graph(reg, aggregates) && g.Valid() && tid in reg.registered && target in reg.registered
      requires tid !in alreadyProcessed
      modifies this`output, this`currentPath, this`alreadyProcessed
      ensures currentPath == old(currentPath) && alreadyProcessed == old(alreadyProcessed)
      ensures output == old(output) + Gathered(g, target, currentPath + [name], alreadyProcessed + [tid])
      decreases |g.Unprocessed(alreadyProcessed)|, 0
    {
      Shrinks(g, tid, alreadyProcessed);
      currentPath := currentPath + [name];
      alreadyProcessed := alreadyProcessed + [tid];
      DoGather(g, target);
      alreadyProcessed := alreadyProcessed[..|alreadyProcessed| - 1];
      currentPath := currentPath[..|currentPath| - 1];
    }

    method GatherAttributes(ghost g: Graph, tid: Type)
      requires g == Graph(reg, aggregates) && g.Valid() && tid in reg.registered && tid !in alreadyProcessed
      requires EdgesOf(g, tid, AttributeEdges(reg.attributes(tid)))
      modifies this`output, this`currentPath, this`alreadyProcessed
      ensures currentPath == old(currentPath) && alreadyProcessed == old(alreadyProcessed)
      ensures output == old(output) +
              GatheredFrom(g, tid, AttributeEdges(reg.attributes(tid)), currentPath, alreadyProcessed)
      decreases |g.Unprocessed(alreadyProcessed)|, 1
    {
      hide *;
      ghost var path, done := currentPath, alreadyProcessed;
      var attributes := reg.attributes(tid);
      NothingFollowed(g, tid, path, done);
      assert attributes[..0] == [];
      for i := 0 to |attributes|
        invariant currentPath == path && alreadyProcessed == done
        invariant EdgesOf(g, tid, AttributeEdges(attributes[..i]))
        invariant output == old(output) + GatheredFrom(g, tid, AttributeEdges(attributes[..i]), path, done)
      {
        AttributePrefix(g, tid, i);
        match attributes[i] {
          case Pointer(name, pointee) =>
            Followed(g, tid, AttributeEdges(attributes[..i]), Edge(name, pointee), path, done, old(output));
            Follow(g, tid, name, pointee);
          case ObjectVector(name, item) =>
            Followed(g, tid, AttributeEdges(attributes[..i]), Edge(name + "/[i]", item), path, done, old(output));
            Follow(g, tid, name + "/[i]", item);
          case Plain(_) =>
        }
      }
      assert attributes[..|attributes|] == attributes;
    }

    method GatherChildren(ghost g: Graph, tid: Type)
      requires g == Graph(reg, aggregates) && g.Valid() && tid in reg.registered && tid !in alreadyProcessed
      requires EdgesOf(g, tid, ChildEdges(reg, tid, reg.registered))
      modifies this`output, this`currentPath, this`alreadyProcessed
      ensures currentPath == old(currentPath) && alreadyProcessed == old(alreadyProcessed)
      ensures output == old(output) +
              GatheredFrom(g, tid, ChildEdges(reg, tid, reg.registered), currentPath, alreadyProcessed)
      decreases |g.Unprocessed(alreadyProcessed)|, 1
    {
      hide Gathered, GatheredFrom, AttributeEdges, ChildEdges, AggregateEdges, EdgesOf, Escaped, Graph.Valid,
        Graph.Unprocessed;
      ghost var path, done := currentPath, alreadyProcessed;
      NothingFollowed(g, tid, path, done);
      assert reg.registered[..0] == [];
      for j := 0 to |reg.registered|
        invariant currentPath == path && alreadyProcessed == done
        invariant EdgesOf(g, tid, ChildEdges(reg, tid, reg.registered[..j]))
        invariant output == old(output) + GatheredFrom(g, tid, ChildEdges(reg, tid, reg.registered[..j]), path, done)
      {
        var child := reg.registered[j];
        ChildPrefix(g, tid, j);
        if reg.childOf(child, tid) {
          var childName := FindAndReplace("$%" + reg.name(child));
          Followed(g, tid, ChildEdges(reg, tid, reg.registered[..j]), Edge(childName, child), path, done, old(output));
          Follow(g, tid, childName, child);
        }
      }
      assert reg.registered[..|reg.registered|] == reg.registered;
    }

    method GatherAggregates(ghost g: Graph, tid: Type)
      requires g == Graph(reg, aggregates) && g.Valid() && tid in reg.registered && tid !in alreadyProcessed
      requires EdgesOf(g, tid, AggregateEdges(reg, tid, aggregates))
      modifies this`output, this`currentPath, this`alreadyProcessed
      ensures currentPath == old(currentPath) && alreadyProcessed == old(alreadyProcessed)
      ensures output == old(output) +
              GatheredFrom(g, tid, AggregateEdges(reg, tid, aggregates), currentPath, alreadyProcessed)
      decreases |g.Unprocessed(alreadyProcessed)|, 1
    {
      hide Gathered, GatheredFrom, AttributeEdges, ChildEdges, AggregateEdges, EdgesOf, Escaped, Graph.Valid,
        Graph.Unprocessed;
      ghost var path, done := currentPath, alreadyProcessed;
      NothingFollowed(g, tid, path, done);
      assert aggregates[..0] == [];
      for k := 0 to |aggregates|
        invariant currentPath == path && alreadyProcessed == done
        invariant EdgesOf(g, tid, AggregateEdges(reg, tid, aggregates[..k]))
        invariant output == old(output) + GatheredFrom(g, tid, AggregateEdges(reg, tid, aggregates[..k]), path, done)
      {
        var pair := aggregates[k];
        AggregatePrefix(g, tid, k);
        if pair.0 == tid || pair.1 == tid {
          var other := pair.1;
          if pair.1 == tid {
            other := pair.0;
          }
          var name := FindAndReplace("$%" + reg.name(other));
          Followed(g, tid, AggregateEdges(reg, tid, aggregates[..k]), Edge(name, other), path, done, old(output));
          Follow(g, tid, name, other);
        }
      }
      assert aggregates[..|aggregates|] == aggregates;
    }

    /** The recursive search. Both stacks are as before; the output grows by what is gathered from `tid`. */
    method DoGather(ghost g: Graph, tid: Type)
      requires g == Graph(reg, aggregates) && g.Valid() && tid in reg.registered
      modifies this`output, this`currentPath, this`alreadyProcessed
      ensures currentPath == old(currentPath) && alreadyProcessed == old(alreadyProcessed)
      ensures output == old(output) + Gathered(g, tid, currentPath, alreadyProcessed)
      decreases |g.Unprocessed(alreadyProcessed)|, 2
    {
      var seen := HasAlreadyBeenProcessed(tid);
      if seen {
        return;
      }
      var here := GetCurrentPath();
      ghost var path, done, before := currentPath, alreadyProcessed, output;
      output := output + [Item(tid, here)];
      ghost var g1, g2, g3 := AllFollowed(g, tid, path, done);
      hide *;
      GatherAttributes(g, tid);
      GatherChildren(g, tid);
      GatherAggregates(g, tid);
      Regroup(before, [Item(tid, here)], g1, g2, g3);
    }

    /** One root: search, sort, drop adjacent duplicates. */
    method Gather(tid: Type)
      requires TheGraph().Valid() && tid in reg.registered && currentPath == [] && alreadyProcessed == []
      modifies this`output, this`currentPath, this`alreadyProcessed
      ensures currentPath == [] && alreadyProcessed == []
      ensures StrictlySorted(output)
      ensures forall item :: item in output <==> item in old(output) || item in Gathered(TheGraph(), tid, [], [])
    {
      hide Gathered;
      DoGather(TheGraph(), tid);
      output := Sort(output);
      output := Unique(output);
    }

    /** All roots: the output is sorted, free of duplicates, and lists every simple path from every root. */
    method GatherAll(roots: seq<Type>)
      requires TheGraph().Valid() && (forall r :: r in roots ==> r in reg.registered)
      requires output == [] && currentPath == [] && alreadyProcessed == []
      modifies this`output, this`currentPath, this`alreadyProcessed
      ensures StrictlySorted(output)
      ensures forall item :: item in output <==>
        exists r, steps :: r in roots && Witness(TheGraph(), r, [], [], item, steps)
      ensures NoColons(reg) ==> forall item, i :: item in output && ColonsAt(item.path, i) ==>
        i + 2 < |item.path| && item.path[i + 2] == '%'
    {
      hide Gathered, Witness;
      ghost var g := TheGraph();
      for i := 0 to |roots|
        invariant currentPath == [] && alreadyProcessed == []
        invariant StrictlySorted(output)
        invariant forall item :: item in output <==> FromRoots(g, roots[..i], item)
      {
        ghost var before := output;
        Gather(roots[i]);
        forall item ensures item in output <==> FromRoots(g, roots[..i + 1], item) {
          FromRootsStep(g, roots, i, item);
        }
      }
      assert roots[..|roots|] == roots && TheGraph() == g;
      assert forall item :: item in output <==> FromRoots(g, roots, item);
      hide FromRoots;
      forall item ensures item in output <==> exists r, steps :: r in roots && Witness(g, r, [], [], item, steps) {
        ItemsOfRoots(g, roots, item);
      }
      forall item | item in output && NoColons(reg) ensures Marked(item.path) {
        var r, steps :| r in roots && Witness(g, r, [], [], item, steps);
        ListedMarked(g, r, item, steps);
      }
    }
  }

  ghost predicate FromRoots(g: Graph, roots: seq<Type>, item: Item)
    requires g.Valid() && forall r :: r in roots ==> r in g.reg.registered
  {
    exists r :: r in roots && item in Gathered(g, r, [], [])
  }

  lemma FromRootsStep(g: Graph, roots: seq<Type>, i: nat, item: Item)
    requires g.Valid() && i < |roots| && forall r :: r in roots ==> r in g.reg.registered
    ensures FromRoots(g, roots[..i + 1], item) <==>
      FromRoots(g, roots[..i], item) || item in Gathered(g, roots[i], [], [])
  {
    hide Gathered;
    assert roots[..i + 1] == roots[..i] + [roots[i]];
    assert forall r :: r in roots[..i + 1] <==> r in roots[..i] || r == roots[i];
  }

  lemma ItemsOfRoots(g: Graph, roots: seq<Type>, item: Item)
    requires g.Valid() && forall r :: r in roots ==> r in g.reg.registered
    ensures FromRoots(g, roots, item) <==> exists r, steps :: r in roots && Witness(g, r, [], [], item, steps)
  {
    hide Gathered, Witness;
    if FromRoots(g, roots, item) {
      var r :| r in roots && item in Gathered(g, r, [], []);
      ListsSimplePaths(g, r, item);
    }
    if r, steps :| r in roots && Witness(g, r, [], [], item, steps) {
      ListsSimplePaths(g, r, item);
    }
  }

  /** The library sort, as insertion. */
  method Sort(items: seq<Item>) returns (r: seq<Item>)
    ensures Sorted(r) && multiset(r) == multiset(items)
    ensures forall x :: x in r <==> x in items
  {
    r := [];
    for n := 0 to |items|
      invariant Sorted(r) && multiset(r) == multiset(items[..n])
    {
      hide ItemLess;
      var at := |r|;
      while at > 0 && ItemLess(items[n], r[at - 1])
        invariant 0 <= at <= |r|
        invariant forall k :: at <= k < |r| ==> ItemLess(items[n], r[k])
      {
        at := at - 1;
      }
      SortedInsert(r, items[n], at);
      assert r == r[..at] + r[at..];
      assert items[..n + 1] == items[..n] + [items[n]];
      r := r[..at] + [items[n]] + r[at..];
    }
    assert items[..|items|] == items;
    forall x ensures x in r <==> x in items {
      assert x in multiset(r) <==> x in multiset(items);
    }
  }

  lemma SortedInsert(r: seq<Item>, x: Item, at: nat)
    requires Sorted(r) && at <= |r|
    requires at > 0 ==> !ItemLess(x, r[at - 1])
    requires forall k :: at <= k < |r| ==> ItemLess(x, r[k])
    ensures Sorted(r[..at] + [x] + r[at..])
  {
    var r' := r[..at] + [x] + r[at..];
    forall i, j | 0 <= i < j < |r'| ensures !ItemLess(r'[j], r'[i]) {
      if i == at {
        ItemOrder(x, r[j - 1], x);
      } else if j == at {
        ItemOrder(x, r[i], r[at - 1]);
        assert i < at - 1 ==> !ItemLess(r[at - 1], r[i]);
        ItemOrder(r[at - 1], x, r[i]);
        ItemOrder(x, r[at - 1], r[i]);
      }
    }
  }

  /** Keeps the first of each group of equal neighbours. */
  method Unique(items: seq<Item>) returns (r: seq<Item>)
    requires Sorted(items)
    ensures StrictlySorted(r)
    ensures forall x :: x in r <==> x in items
  {
    r := [];
    for n := 0 to |items|
      invariant StrictlySorted(r)
      invariant forall x :: x in r <==> x in items[..n]
      invariant n == 0 ==> r == []
      invariant n > 0 ==> r != [] && r[|r| - 1] == items[n - 1]
    {
      assert items[..n + 1] == items[..n] + [items[n]];
      hide ItemLess;
      if r == [] || r[|r| - 1] != items[n] {
        if n > 0 {
          assert !ItemLess(items[n], items[n - 1]);
          ItemOrder(items[n - 1], items[n], items[n]);
        }
        forall i | 0 <= i < |r| ensures ItemLess(r[i], items[n]) {
          ItemOrder(r[i], r[|r| - 1], items[n]);
        }
        r := r + [items[n]];
      }
    }
    assert items[..|items|] == items;
  }

  lemma {:induction false} GatheredFromConcat(g: Graph, t: Type, es1: seq<Edge>, es2: seq<Edge>, path: seq<string>,
                                              done: seq<Type>)
    requires g.Valid() && t in g.reg.registered && t !in done && EdgesOf(g, t, es1) && EdgesOf(g, t, es2)
    ensures EdgesOf(g, t, es1 + es2)
    ensures GatheredFrom(g, t, es1 + es2, path, done) ==
      GatheredFrom(g, t, es1, path, done) + GatheredFrom(g, t, es2, path, done)
    decreases |es2|
  {
    if es2 == [] {
      assert es1 + es2 == es1;
    } else {
      var e := es2[|es2| - 1];
      EdgesStayRegistered(g, t, e);
      GatheredFromConcat(g, t, es1, es2[..|es2| - 1], path, done);
      assert (es1 + es2)[..|es1 + es2| - 1] == es1 + es2[..|es2| - 1];
    }
  }

  lemma NothingFollowed(g: Graph, t: Type, path: seq<string>, done: seq<Type>)
    requires g.Valid() && t in g.reg.registered && t !in done
    ensures EdgesOf(g, t, []) && GatheredFrom(g, t, [], path, done) == []
    ensures AttributeEdges([]) == [] && ChildEdges(g.reg, t, []) == [] && AggregateEdges(g.reg, t, []) == []
  {
  }

  lemma Regroup<T>(a: seq<T>, b: seq<T>, c: seq<T>, d: seq<T>, e: seq<T>)
    ensures a + b + c + d + e == a + (b + (c + d + e))
  {
  }

  /** The three groups of edges of `t`, in the order in which they are followed. */
  lemma AllFollowed(g: Graph, t: Type, path: seq<string>, done: seq<Type>)
    returns (g1: seq<Item>, g2: seq<Item>, g3: seq<Item>)
    requires g.Valid() && t in g.reg.registered && t !in done
    ensures EdgesOf(g, t, AttributeEdges(g.reg.attributes(t)))
    ensures g1 == GatheredFrom(g, t, AttributeEdges(g.reg.attributes(t)), path, done)
    ensures EdgesOf(g, t, ChildEdges(g.reg, t, g.reg.registered))
    ensures g2 == GatheredFrom(g, t, ChildEdges(g.reg, t, g.reg.registered), path, done)
    ensures EdgesOf(g, t, AggregateEdges(g.reg, t, g.aggregates))
    ensures g3 == GatheredFrom(g, t, AggregateEdges(g.reg, t, g.aggregates), path, done)
    ensures Gathered(g, t, path, done) == [Item(t, Render(path))] + (g1 + g2 + g3)
  {
    var es1, es2, es3 := AttributeEdges(g.reg.attributes(t)), ChildEdges(g.reg, t, g.reg.registered),
      AggregateEdges(g.reg, t, g.aggregates);
    assert EdgesOf(g, t, es1) && EdgesOf(g, t, es2) && EdgesOf(g, t, es3);
    hide GatheredFrom, AttributeEdges, ChildEdges, AggregateEdges, EdgesOf, Render;
    g1, g2, g3 :=
      GatheredFrom(g, t, es1, path, done), GatheredFrom(g, t, es2, path, done), GatheredFrom(g, t, es3, path, done);
    GatheredFromConcat(g, t, es1, es2, path, done);
    GatheredFromConcat(g, t, es1 + es2, es3, path, done);
  }

  /** One more edge has been followed. */
  lemma Followed(g: Graph, t: Type, es: seq<Edge>, e: Edge, path: seq<string>, done: seq<Type>, before: seq<Item>)
    requires g.Valid() && t in g.reg.registered && t !in done && e in g.Edges(t) && EdgesOf(g, t, es)
    ensures e.target in g.reg.registered && EdgesOf(g, t, es + [e])
    ensures before + GatheredFrom(g, t, es + [e], path, done) ==
            before + GatheredFrom(g, t, es, path, done) + Gathered(g, e.target, path + [e.name], done + [t])
  {
    EdgesStayRegistered(g, t, e);
    assert (es + [e])[..|es|] == es;
    ghost var old_, new_ := GatheredFrom(g, t, es, path, done), Gathered(g, e.target, path + [e.name], done + [t]);
    assert GatheredFrom(g, t, es + [e], path, done) == old_ + new_;
    hide *;
    assert before + (old_ + new_) == before + old_ + new_;
  }

  lemma AttributePrefix(g: Graph, t: Type, i: nat)
    requires i < |g.reg.attributes(t)|
    ensures var attributes := g.reg.attributes(t);
      match attributes[i]
      case Pointer(name, pointee) =>
        AttributeEdges(attributes[..i + 1]) == AttributeEdges(attributes[..i]) + [Edge(name, pointee)] &&
          Edge(name, pointee) in g.Edges(t)
      case ObjectVector(name, item) =>
        AttributeEdges(attributes[..i + 1]) == AttributeEdges(attributes[..i]) + [Edge(name + "/[i]", item)] &&
          Edge(name + "/[i]", item) in g.Edges(t)
      case Plain(_) => AttributeEdges(attributes[..i + 1]) == AttributeEdges(attributes[..i])
  {
    var attributes := g.reg.attributes(t);
    assert attributes[..i + 1][..i] == attributes[..i];
    AttributeMono(attributes, i + 1);
  }

  lemma {:induction false} AttributeMono(attributes: seq<Attribute>, n: nat)
    requires n <= |attributes|
    ensures forall e :: e in AttributeEdges(attributes[..n]) ==> e in AttributeEdges(attributes)
  {
    if n < |attributes| {
      AttributeMono(attributes[..|attributes| - 1], n);
      assert attributes[..|attributes| - 1][..n] == attributes[..n];
    } else {
      assert attributes[..n] == attributes;
    }
  }

  lemma ChildPrefix(g: Graph, t: Type, j: nat)
    requires j < |g.reg.registered|
    ensures var registered := g.reg.registered;
      var e := Edge(TypeLabel(g.reg, registered[j]), registered[j]);
      if g.reg.childOf(registered[j], t)
      then ChildEdges(g.reg, t, registered[..j + 1]) == ChildEdges(g.reg, t, registered[..j]) + [e] && e in g.Edges(t)
      else ChildEdges(g.reg, t, registered[..j + 1]) == ChildEdges(g.reg, t, registered[..j])
  {
    assert g.reg.registered[..j + 1][..j] == g.reg.registered[..j];
    ChildMono(g.reg, t, g.reg.registered, j + 1);
  }

  lemma {:induction false} ChildMono(reg: Registry, t: Type, registered: seq<Type>, n: nat)
    requires n <= |registered|
    ensures forall e :: e in ChildEdges(reg, t, registered[..n]) ==> e in ChildEdges(reg, t, registered)
  {
    if n < |registered| {
      ChildMono(reg, t, registered[..|registered| - 1], n);
      assert registered[..|registered| - 1][..n] == registered[..n];
    } else {
      assert registered[..n] == registered;
    }
  }

  lemma AggregatePrefix(g: Graph, t: Type, k: nat)
    requires k < |g.aggregates|
    ensures var pair := g.aggregates[k];
      var e := Edge(TypeLabel(g.reg, OtherEnd(pair, t)), OtherEnd(pair, t));
      if pair.0 == t || pair.1 == t
      then AggregateEdges(g.reg, t, g.aggregates[..k + 1]) == AggregateEdges(g.reg, t, g.aggregates[..k]) + [e] &&
        e in g.Edges(t)
      else AggregateEdges(g.reg, t, g.aggregates[..k + 1]) == AggregateEdges(g.reg, t, g.aggregates[..k])
  {
    assert g.aggregates[..k + 1][..k] == g.aggregates[..k];
    AggregateMono(g.reg, t, g.aggregates, k + 1);
  }

  lemma {:induction false} AggregateMono(reg: Registry, t: Type, aggregates: seq<(Type, Type)>, n: nat)
    requires n <= |aggregates|
    ensures forall e :: e in AggregateEdges(reg, t, aggregates[..n]) ==> e in AggregateEdges(reg, t, aggregates)
  {
    if n < |aggregates| {
      AggregateMono(reg, t, aggregates[..|aggregates| - 1], n);
      assert aggregates[..|aggregates| - 1][..n] == aggregates[..n];
    } else {
      assert aggregates[..n] == aggregates;
    }
  }
}
