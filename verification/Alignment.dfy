/** The inference of parallel groups and row alignment from the edges of the compiled graph
    (backend/api/graph/topology.py). */
module Alignment {
  import opened Options

  type Name = string

  datatype Edge = Edge(source: Name, target: Name, conditional: bool)

  const SKIP: set<Name> := {"__start__", "__end__"}

  /** An edge of the given kind between two real nodes. */
  predicate Counts(e: Edge, conditional: bool) {
    e.conditional == conditional && e.source !in SKIP && e.target !in SKIP
  }

  /** The targets of the edges of this kind from `source`, in edge order, with repetitions. */
  function Targets(edges: seq<Edge>, conditional: bool, source: Name): seq<Name> {
    if edges == [] then []
    else
      var last := edges[|edges| - 1];
      Targets(edges[..|edges| - 1], conditional, source) +
      if Counts(last, conditional) && last.source == source then [last.target] else []
  }

  /** The sources of the sequential edges into `target`, likewise. */
  function Sources(edges: seq<Edge>, target: Name): seq<Name> {
    if edges == [] then []
    else
      var last := edges[|edges| - 1];
      Sources(edges[..|edges| - 1], target) +
      if Counts(last, false) && last.target == target then [last.source] else []
  }

  lemma {:induction false} TargetIffEdge(edges: seq<Edge>, conditional: bool, source: Name, target: Name)
    ensures target in Targets(edges, conditional, source) <==>
      Edge(source, target, conditional) in edges && {source, target} !! {"__start__", "__end__"}
    decreases |edges|
  {
    assert source in {source, target} && target in {source, target};
    if edges != [] {
      TargetIffEdge(edges[..|edges| - 1], conditional, source, target);
    }
  }

  lemma {:induction false} SourceIffEdge(edges: seq<Edge>, source: Name, target: Name)
    ensures source in Sources(edges, target) <==>
      Edge(source, target, false) in edges && {source, target} !! {"__start__", "__end__"}
    decreases |edges|
  {
    assert source in {source, target} && target in {source, target};
    if edges != [] {
      SourceIffEdge(edges[..|edges| - 1], source, target);
    }
  }

  lemma TargetIffSource(edges: seq<Edge>, source: Name, target: Name)
    ensures target in Targets(edges, false, source) <==> source in Sources(edges, target)
  {
    TargetIffEdge(edges, false, source, target);
    SourceIffEdge(edges, source, target);
  }

  /** The sources of the edges of this kind, in the order of their first edges. */
  function Keys(edges: seq<Edge>, conditional: bool): seq<Name> {
    if edges == [] then []
    else
      var last, before := edges[|edges| - 1], Keys(edges[..|edges| - 1], conditional);
      before + if Counts(last, conditional) && last.source !in before then [last.source] else []
  }

  /** A dictionary from sources to their targets, with its keys in insertion order. */
  ghost predicate Groups(edges: seq<Edge>, conditional: bool, keys: seq<Name>, targets: map<Name, seq<Name>>) {
    && keys == Keys(edges, conditional)
    && (forall k :: k in keys <==> k in targets)
    && Listed(edges, conditional, targets)
  }

  ghost predicate Listed(edges: seq<Edge>, conditional: bool, targets: map<Name, seq<Name>>) {
    && (forall k :: Targets(edges, conditional, k) == if k in targets then targets[k] else [])
    && (forall k | k in targets :: targets[k] != [])
  }

  /** `setdefault(edge.source, []).append(edge.target)`. */
  function Append(targets: map<Name, seq<Name>>, e: Edge): map<Name, seq<Name>> {
    targets[e.source := (if e.source in targets then targets[e.source] else []) + [e.target]]
  }

  lemma TargetsSnoc(edges: seq<Edge>, conditional: bool, e: Edge, source: Name)
    ensures Targets(edges + [e], conditional, source) ==
            Targets(edges, conditional, source) + if Counts(e, conditional) && e.source == source then [e.target] else []
  {
    assert (edges + [e])[..|edges|] == edges;
  }

  lemma ListedStep(edges: seq<Edge>, conditional: bool, targets: map<Name, seq<Name>>, e: Edge)
    requires Listed(edges, conditional, targets)
    ensures Listed(edges + [e], conditional, if Counts(e, conditional) then Append(targets, e) else targets)
  {
    var all, next := edges + [e], if Counts(e, conditional) then Append(targets, e) else targets;
    forall k ensures Targets(all, conditional, k) == if k in next then next[k] else [] {
      TargetsSnoc(edges, conditional, e, k);
    }
  }

  /** The dictionary of all edges of one kind. */
  method GroupTargets(edges: seq<Edge>, conditional: bool) returns (keys: seq<Name>, targets: map<Name, seq<Name>>)
    ensures Groups(edges, conditional, keys, targets)
  {
    keys, targets := [], map[];
    for i := 0 to |edges|
      invariant Groups(edges[..i], conditional, keys, targets)
    {
      var e := edges[i];
      assert edges[..i + 1] == edges[..i] + [e];
      assert edges[..i + 1][..i] == edges[..i];
      ListedStep(edges[..i], conditional, targets, e);
      if Counts(e, conditional) {
        if e.source !in targets {
          keys := keys + [e.source];
        }
        targets := Append(targets, e);
      }
    }
    assert edges[..|edges|] == edges;
  }

  /** `source` fans out, and `target` is one of its targets. */
  predicate FansOut(edges: seq<Edge>, conditional: bool, source: Name, target: Name) {
    |Targets(edges, conditional, source)| > 1 && target in Targets(edges, conditional, source)
  }

  /** Two different edges of this kind, between real nodes, leave the source, one of them for the
      target. */
  ghost predicate TwoEdges(edges: seq<Edge>, conditional: bool, source: Name, target: Name) {
    exists i, j :: 0 <= i < |edges| && 0 <= j < |edges| && i != j &&
      LeavesBy(edges[i], conditional, source) && edges[i].target == target && LeavesBy(edges[j], conditional, source)
  }

  predicate LeavesBy(e: Edge, conditional: bool, source: Name) {
    e.conditional == conditional && e.source == source && {e.source, e.target} !! {"__start__", "__end__"}
  }

  lemma {:induction false} TargetAt(edges: seq<Edge>, conditional: bool, source: Name, i: nat)
    requires i < |edges| && LeavesBy(edges[i], conditional, source)
    ensures Targets(edges, conditional, source) != [] && edges[i].target in Targets(edges, conditional, source)
    ensures |Targets(edges, conditional, source)| == 1 ==>
      forall j | 0 <= j < |edges| && LeavesBy(edges[j], conditional, source) :: j == i
    decreases |edges|
  {
    var before, last := edges[..|edges| - 1], |edges| - 1;
    forall j | 0 <= j < |edges| && LeavesBy(edges[j], conditional, source) ensures Counts(edges[j], conditional) {
      assert edges[j].source in {edges[j].source, edges[j].target} && edges[j].target in {edges[j].source, edges[j].target};
    }
    if i < last {
      TargetAt(before, conditional, source, i);
    }
    forall j | 0 <= j < last && LeavesBy(edges[j], conditional, source)
      ensures Targets(before, conditional, source) != []
    {
      TargetAt(before, conditional, source, j);
    }
    forall j | 0 <= j < |edges| && LeavesBy(edges[j], conditional, source) && |Targets(edges, conditional, source)| == 1
      ensures j == i
    {
      assert j < last ==> before[j] == edges[j];
    }
  }

  lemma {:induction false} EdgeOfTarget(edges: seq<Edge>, conditional: bool, source: Name, k: nat) returns (i: nat)
    requires k < |Targets(edges, conditional, source)|
    ensures i < |edges| && LeavesBy(edges[i], conditional, source) && edges[i].target == Targets(edges, conditional, source)[k]
    ensures k < |Targets(edges[..|edges| - 1], conditional, source)| <==> i < |edges| - 1
    decreases |edges|
  {
    var before, last := edges[..|edges| - 1], |edges| - 1;
    if k < |Targets(before, conditional, source)| {
      i := EdgeOfTarget(before, conditional, source, k);
    } else {
      i := last;
    }
  }

  /** A source fans out to a target exactly if one of its edges leads there and it has another
      one, repetitions included. */
  lemma {:induction false} FansOutIffTwoEdges(edges: seq<Edge>, conditional: bool, source: Name, target: Name)
    ensures FansOut(edges, conditional, source, target) <==> TwoEdges(edges, conditional, source, target)
    decreases |edges|
  {
    if TwoEdges(edges, conditional, source, target) {
      var i, j :| 0 <= i < |edges| && 0 <= j < |edges| && i != j &&
        LeavesBy(edges[i], conditional, source) && edges[i].target == target && LeavesBy(edges[j], conditional, source);
      TargetAt(edges, conditional, source, i);
    }
    if FansOut(edges, conditional, source, target) {
      var list := Targets(edges, conditional, source);
      var k :| 0 <= k < |list| && list[k] == target;
      var i := EdgeOfTarget(edges, conditional, source, k);
      var other := OtherEdge(edges, conditional, source, i);
    }
  }

  /** With two targets listed, there is an edge besides any given one. */
  lemma {:induction false} OtherEdge(edges: seq<Edge>, conditional: bool, source: Name, i: nat) returns (j: nat)
    requires |Targets(edges, conditional, source)| > 1 && i < |edges|
    ensures j < |edges| && j != i && LeavesBy(edges[j], conditional, source)
    decreases |edges|
  {
    var before, last := edges[..|edges| - 1], |edges| - 1;
    if |Targets(before, conditional, source)| > 1 && i < last {
      j := OtherEdge(before, conditional, source, i);
    } else {
      j := EdgeOfTarget(edges, conditional, source, if i < last then |Targets(edges, conditional, source)| - 1 else 0);
    }
  }

  /** The node is a target of a sequential fan-out. */
  ghost predicate InParallel(edges: seq<Edge>, node: Name) {
    exists source :: FansOut(edges, false, source, node)
  }

  /** The last of the sources that fans out to the node. */
  function LastFan(edges: seq<Edge>, conditional: bool, keys: seq<Name>, node: Name): Option<Name> {
    if keys == [] then None
    else if FansOut(edges, conditional, keys[|keys| - 1], node) then Some(keys[|keys| - 1])
    else LastFan(edges, conditional, keys[..|keys| - 1], node)
  }

  lemma {:induction false} LastFanFound(edges: seq<Edge>, conditional: bool, keys: seq<Name>, node: Name)
    ensures LastFan(edges, conditional, keys, node).Some? <==> exists k :: k in keys && FansOut(edges, conditional, k, node)
    decreases |keys|
  {
    if keys != [] {
      LastFanFound(edges, conditional, keys[..|keys| - 1], node);
      assert forall k :: k in keys <==> k in keys[..|keys| - 1] || k == keys[|keys| - 1];
    }
  }

  /** The group of a node is named after the last source, in dictionary order, that fans out to
      it, and there is one exactly if any does. */
  ghost predicate GroupMap(edges: seq<Edge>, conditional: bool, keys: seq<Name>, suffix: string, group: map<Name, string>) {
    forall t :: InGroup(group, t) == Suffixed(LastFan(edges, conditional, keys, t), suffix)
  }

  function InGroup(group: map<Name, string>, node: Name): Option<string> {
    if node in group then Some(group[node]) else None
  }

  function Suffixed(name: Option<Name>, suffix: string): Option<string> {
    if name.Some? then Some(name.value + suffix) else None
  }

  /** One source's turn: its targets, if there are several, all get its name. */
  method NameGroup(group: map<Name, string>, list: seq<Name>, name: string) returns (named: map<Name, string>)
    ensures forall t :: InGroup(named, t) == if |list| > 1 && t in list then Some(name) else InGroup(group, t)
  {
    named := group;
    if |list| > 1 {
      for m := 0 to |list|
        invariant forall t :: InGroup(named, t) == if t in list[..m] then Some(name) else InGroup(group, t)
      {
        assert list[..m + 1] == list[..m] + [list[m]];
        named := named[list[m] := name];
      }
      assert list[..|list|] == list;
    }
  }

  method NameGroups(ghost edges: seq<Edge>, ghost conditional: bool, keys: seq<Name>, targets: map<Name, seq<Name>>, suffix: string)
    returns (group: map<Name, string>)
    requires Listed(edges, conditional, targets) && forall k | k in keys :: k in targets
    ensures GroupMap(edges, conditional, keys, suffix, group)
  {
    group := map[];
    for n := 0 to |keys|
      invariant GroupMap(edges, conditional, keys[..n], suffix, group)
    {
      var source := keys[n];
      assert targets[source] == Targets(edges, conditional, source);
      assert keys[..n + 1][..n] == keys[..n];
      group := NameGroup(group, targets[source], source + suffix);
    }
    assert keys[..|keys|] == keys;
  }

  /** `b` continues `a`: `a` is in a parallel group, `b` is its only sequential successor, and
      `a` is the only sequential predecessor of `b`. */
  ghost predicate Continues(edges: seq<Edge>, b: Name, a: Name) {
    InParallel(edges, a) && Targets(edges, false, a) == [b] && Sources(edges, b) == [a]
  }

  lemma ContinuationNotParallel(edges: seq<Edge>, b: Name, a: Name)
    requires Targets(edges, false, a) == [b] && Sources(edges, b) == [a]
    ensures !InParallel(edges, b)
  {
    if source :| FansOut(edges, false, source, b) {
      TargetIffSource(edges, source, b);
    }
  }

  /** The number of sequential edges into a node, as the code counts them. */
  method CountPredecessors(edges: seq<Edge>, node: Name) returns (count: nat)
    requires node !in SKIP
    ensures count == |Sources(edges, node)|
  {
    count := 0;
    for i := 0 to |edges|
      invariant count == |Sources(edges[..i], node)|
    {
      assert edges[..i + 1][..i] == edges[..i];
      if !edges[i].conditional && edges[i].target == node && edges[i].source !in SKIP {
        count := count + 1;
      }
    }
    assert edges[..|edges|] == edges;
  }

  /** The map aligns nodes with `done` exactly as continuation demands, and with no others. */
  ghost predicate Considered(edges: seq<Edge>, align: map<Name, Name>, done: seq<Name>) {
    && (forall b | b in align :: align[b] in done && Continues(edges, b, align[b]))
    && (forall a, b | a in done && Continues(edges, b, a) :: b in align)
  }

  lemma ConsideredStep(edges: seq<Edge>, align: map<Name, Name>, done: seq<Name>, name: Name, list: seq<Name>)
    requires Considered(edges, align, done) && list == Targets(edges, false, name)
    ensures Considered(edges,
                       if |list| == 1 && Continues(edges, list[0], name) then align[list[0] := name] else align,
                       done + [name])
  {
    if |list| == 1 && Continues(edges, list[0], name) {
      assert list == [list[0]];
    }
  }

  /** One node's turn: whether it is continued by its only successor. */
  method Continuation(edges: seq<Edge>, name: Name, list: seq<Name>, group: map<Name, string>) returns (continued: bool)
    requires list == Targets(edges, false, name)
    requires forall node :: node in group <==> InParallel(edges, node)
    ensures continued <==> |list| == 1 && Continues(edges, list[0], name)
  {
    if name !in group || |list| != 1 {
      return false;
    }
    var successor := list[0];
    TargetIffSource(edges, name, successor);
    TargetIffEdge(edges, false, name, successor);
    if InGroup(group, successor) == InGroup(group, name) {
      if Sources(edges, successor) == [name] {
        ContinuationNotParallel(edges, successor, name);
      }
      return false;
    }
    var count := CountPredecessors(edges, successor);
    continued := count == 1;
  }

  /** The last loop: each node's turn, in dictionary order. */
  method AlignContinuations(edges: seq<Edge>, group: map<Name, string>) returns (align: map<Name, Name>)
    requires forall node :: node in group <==> InParallel(edges, node)
    ensures Alignment(edges, align)
  {
    var names, successors := GroupTargets(edges, false);
    align := map[];
    for n := 0 to |names|
      invariant Considered(edges, align, names[..n])
    {
      var name := names[n];
      assert names[..n + 1] == names[..n] + [name];
      var list := successors[name];
      ConsideredStep(edges, align, names[..n], name, list);
      var continued := Continuation(edges, name, list, group);
      if continued {
        align := align[list[0] := name];
      }
    }
    assert names[..|names|] == names;
    AllConsidered(edges, align, names, successors);
  }

  lemma AllConsidered(edges: seq<Edge>, align: map<Name, Name>, names: seq<Name>, successors: map<Name, seq<Name>>)
    requires Groups(edges, false, names, successors) && Considered(edges, align, names)
    ensures Alignment(edges, align)
  {
    forall a, b | Continues(edges, b, a) ensures b in align && align[b] == a {
      assert a in names;
    }
  }

  /** The inference of `get_compiled_topology`: the conditional and the parallel groups, and
      the alignment map, which aligns `b` with `a` exactly if `b` continues `a`. */
  method InferAlignment(edges: seq<Edge>)
    returns (routes: map<Name, string>, group: map<Name, string>, align: map<Name, Name>)
    ensures GroupMap(edges, true, Keys(edges, true), "_route", routes)
    ensures GroupMap(edges, false, Keys(edges, false), "_parallel", group)
    ensures forall node :: node in group <==> InParallel(edges, node)
    ensures Alignment(edges, align)
  {
    var keys, targets := GroupTargets(edges, true);
    routes := NameGroups(edges, true, keys, targets, "_route");
    keys, targets := GroupTargets(edges, false);
    group := NameGroups(edges, false, keys, targets, "_parallel");
    GroupedIffParallel(edges, keys, targets, group);
    align := AlignContinuations(edges, group);
  }

  lemma GroupedIffParallel(edges: seq<Edge>, keys: seq<Name>, targets: map<Name, seq<Name>>, group: map<Name, string>)
    requires Groups(edges, false, keys, targets) && GroupMap(edges, false, keys, "_parallel", group)
    ensures forall node :: node in group <==> InParallel(edges, node)
  {
    forall node ensures node in group <==> InParallel(edges, node) {
      LastFanFound(edges, false, keys, node);
      assert InGroup(group, node) == Suffixed(LastFan(edges, false, keys, node), "_parallel");
    }
  }

  ghost predicate Alignment(edges: seq<Edge>, align: map<Name, Name>) {
    && (forall b | b in align :: Continues(edges, b, align[b]))
    && (forall a, b | Continues(edges, b, a) :: b in align && align[b] == a)
  }

  /** What the alignment map is good for: it is injective, each aligned node's only sequential
      predecessor is the node it is aligned to, aligned nodes are in no parallel group, and no
      aligned node is a target of the alignment, so there are no chains and no cycles. */
  lemma AlignmentProperties(edges: seq<Edge>, align: map<Name, Name>)
    requires Alignment(edges, align)
    ensures forall b, b' | b in align && b' in align && align[b] == align[b'] :: b == b'
    ensures forall b | b in align :: Sources(edges, b) == [align[b]] && Targets(edges, false, align[b]) == [b]
    ensures forall b | b in align :: !InParallel(edges, b) && InParallel(edges, align[b])
    ensures align.Keys !! align.Values
  {
    forall b | b in align ensures !InParallel(edges, b) && Continues(edges, b, align[b]) {
      assert Continues(edges, b, align[b]);
      ContinuationNotParallel(edges, b, align[b]);
    }
  }

  // ----- Edges from the start and to the end

  /** The edges between real nodes. */
  function RealEdges(edges: seq<Edge>): seq<Edge> {
    if edges == [] then []
    else
      var last := edges[|edges| - 1];
      RealEdges(edges[..|edges| - 1]) +
      if {last.source, last.target} !! {"__start__", "__end__"} then [last] else []
  }

  lemma SourcesSnoc(edges: seq<Edge>, e: Edge, target: Name)
    ensures Sources(edges + [e], target) ==
            Sources(edges, target) + if Counts(e, false) && e.target == target then [e.source] else []
  {
    assert (edges + [e])[..|edges|] == edges;
  }

  lemma KeysSnoc(edges: seq<Edge>, conditional: bool, e: Edge)
    ensures var before := Keys(edges, conditional);
      Keys(edges + [e], conditional) ==
      before + if Counts(e, conditional) && e.source !in before then [e.source] else []
  {
    assert (edges + [e])[..|edges|] == edges;
  }

  lemma {:induction false} RealEdgesCount(edges: seq<Edge>, conditional: bool, node: Name)
    ensures Targets(edges, conditional, node) == Targets(RealEdges(edges), conditional, node)
    ensures Sources(edges, node) == Sources(RealEdges(edges), node)
    ensures Keys(edges, conditional) == Keys(RealEdges(edges), conditional)
    decreases |edges|
  {
    if edges != [] {
      var before, last := edges[..|edges| - 1], edges[|edges| - 1];
      RealEdgesCount(before, conditional, node);
      var kept := RealEdges(before);
      if {last.source, last.target} !! {"__start__", "__end__"} {
        TargetsSnoc(kept, conditional, last, node);
        SourcesSnoc(kept, last, node);
        KeysSnoc(kept, conditional, last);
      } else {
        assert last.source in {last.source, last.target} && last.target in {last.source, last.target};
        assert kept + [] == kept && !Counts(last, conditional) && !Counts(last, false);
      }
    }
  }

  lemma {:induction false} LastFanOfReal(edges: seq<Edge>, conditional: bool, keys: seq<Name>, node: Name)
    ensures LastFan(edges, conditional, keys, node) == LastFan(RealEdges(edges), conditional, keys, node)
    decreases |keys|
  {
    if keys != [] {
      RealEdgesCount(edges, conditional, keys[|keys| - 1]);
      LastFanOfReal(edges, conditional, keys[..|keys| - 1], node);
    }
  }

  /** An edge from or to `__start__` or `__end__`, wherever it stands, changes neither the groups
      nor the alignment. */
  lemma OnlyRealEdgesMatter(edges: seq<Edge>, conditional: bool, suffix: string, group: map<Name, string>, align: map<Name, Name>)
    ensures GroupMap(edges, conditional, Keys(edges, conditional), suffix, group) <==>
            GroupMap(RealEdges(edges), conditional, Keys(RealEdges(edges), conditional), suffix, group)
    ensures Alignment(edges, align) <==> Alignment(RealEdges(edges), align)
  {
    RealEdgesCount(edges, conditional, "");
    forall t ensures LastFan(edges, conditional, Keys(edges, conditional), t) ==
                     LastFan(RealEdges(edges), conditional, Keys(edges, conditional), t)
    {
      LastFanOfReal(edges, conditional, Keys(edges, conditional), t);
    }
    forall a, b ensures Continues(edges, b, a) <==> Continues(RealEdges(edges), b, a) {
      ContinuesReal(edges, b, a);
    }
  }

  lemma ContinuesReal(edges: seq<Edge>, b: Name, a: Name)
    ensures Continues(edges, b, a) <==> Continues(RealEdges(edges), b, a)
  {
    RealEdgesCount(edges, false, a);
    RealEdgesCount(edges, false, b);
    forall source ensures FansOut(edges, false, source, a) <==> FansOut(RealEdges(edges), false, source, a) {
      RealEdgesCount(edges, false, source);
    }
  }
}
