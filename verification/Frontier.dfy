/** The pending frontier of a version graph (backend/users/queries/status.py). Names are compared
    as they stand: those of the topology have lost their suffix, those of the rows have not. */
module Frontier {
  import opened Options

  type Name = string

  datatype Row = Row(name: Name, nodeId: string, version: Option<int>)
  datatype Node = Node(name: Name, kind: string, group: Option<string>)
  datatype Edge = Edge(source: Name, target: Name)
  datatype Topology = Topology(nodes: seq<Node>, edges: seq<Edge>)
  datatype Info = Info(nodeId: string, threadId: string, name: Name, status: string, kind: string,
                       group: Option<string>, version: int, previous: seq<string>)

  // ----- The first loop: which nodes ran, and under which id

  function RanNames(rows: seq<Row>): set<Name> {
    set row | row in rows :: row.name
  }

  function Version(row: Row): int {
    if row.version.Some? then row.version.value else 0
  }

  function Kept(rows: seq<Row>, name: Name): Option<Row> {
    if rows == [] then None
    else
      var last, before := rows[|rows| - 1], Kept(rows[..|rows| - 1], name);
      if last.name == name && Version(last) >= (if before.Some? then Version(before.value) else -1) then Some(last)
      else before
  }

  /** Row `i` is the last of the rows of this name's highest version. */
  predicate Latest(rows: seq<Row>, name: Name, i: int) {
    && 0 <= i < |rows| && rows[i].name == name
    && forall j | 0 <= j < |rows| && rows[j].name == name :: Outranks(rows, i, j)
  }

  predicate Outranks(rows: seq<Row>, i: int, j: int)
    requires 0 <= i < |rows| && 0 <= j < |rows|
  {
    NotAbove(rows[j].version, rows[i].version) && (i < j ==> !NotAbove(rows[i].version, rows[j].version))
  }

  /** The order of versions; a missing one stands between -1 and 1. */
  predicate NotAbove(a: Option<int>, b: Option<int>) {
    match a
    case None => b.None? || b.value >= 0
    case Some(v) => if b.None? then v <= 0 else v <= b.value
  }

  /** A row that the default of -1 does not keep out. */
  predicate Counts(row: Row, name: Name) {
    row.name == name && (row.version.None? || row.version.value >= -1)
  }

  /** The row kept for a name is its latest one, unless all its versions are below the default
      of -1: then none is kept. */
  lemma {:induction false} KeptIsLatest(rows: seq<Row>, name: Name) returns (i: int)
    ensures var kept := Kept(rows, name);
      if kept.Some? then Latest(rows, name, i) && rows[i] == kept.value && Counts(rows[i], name)
      else forall row | row in rows :: !Counts(row, name)
    decreases |rows|
  {
    if rows == [] {
      i := 0;
    } else {
      var front, last := rows[..|rows| - 1], |rows| - 1;
      i := KeptIsLatest(front, name);
      var before, kept := Kept(front, name), Kept(rows, name);
      if rows[last].name == name && Version(rows[last]) >= if before.Some? then Version(before.value) else -1 {
        forall j | 0 <= j < |rows| && rows[j].name == name ensures Outranks(rows, last, j) {
          if j < last {
            assert front[j] == rows[j] && rows[j] in front;
            assert before.Some? ==> Outranks(front, i, j);
          }
        }
        i := last;
      } else if before.Some? {
        forall j | 0 <= j < |rows| && rows[j].name == name ensures Outranks(rows, i, j) {
          if j < last {
            assert Outranks(front, i, j);
          }
        }
      }
    }
  }

  ghost predicate KeptFields(rows: seq<Row>, ids: map<Name, string>, versions: map<Name, int>) {
    forall name :: var kept := Kept(rows, name);
      && (name in ids <==> kept.Some?)
      && (name in versions <==> kept.Some?)
      && (kept.Some? ==> ids[name] == kept.value.nodeId && versions[name] == Version(kept.value))
  }

  method ReadRows(rows: seq<Row>) returns (ran: set<Name>, ids: map<Name, string>, versions: map<Name, int>)
    ensures ran == RanNames(rows)
    ensures KeptFields(rows, ids, versions)
  {
    ran, ids, versions := {}, map[], map[];
    for n := 0 to |rows|
      invariant ran == RanNames(rows[..n])
      invariant KeptFields(rows[..n], ids, versions)
    {
      var row := rows[n];
      assert rows[..n + 1][..n] == rows[..n] && rows[..n + 1] == rows[..n] + [row];
      ran := ran + {row.name};
      if Version(row) >= if row.name in versions then versions[row.name] else -1 {
        versions := versions[row.name := Version(row)];
        ids := ids[row.name := row.nodeId];
      }
    }
    assert rows[..|rows|] == rows;
  }

  // ----- The second loop: predecessors

  function Predecessors(edges: seq<Edge>, name: Name): seq<Name> {
    if edges == [] then []
    else
      var last := edges[|edges| - 1];
      Predecessors(edges[..|edges| - 1], name) + if last.target == name then [last.source] else []
  }

  lemma {:induction false} PredecessorIffEdge(edges: seq<Edge>, source: Name, target: Name)
    ensures source in Predecessors(edges, target) <==> Edge(source, target) in edges
    decreases |edges|
  {
    if edges != [] {
      PredecessorIffEdge(edges[..|edges| - 1], source, target);
    }
  }

  ghost predicate PredecessorMap(edges: seq<Edge>, before: map<Name, seq<Name>>) {
    forall name :: Predecessors(edges, name) == if name in before then before[name] else []
  }

  method ReadEdges(edges: seq<Edge>) returns (before: map<Name, seq<Name>>)
    ensures PredecessorMap(edges, before)
  {
    before := map[];
    for n := 0 to |edges|
      invariant PredecessorMap(edges[..n], before)
    {
      var e := edges[n];
      assert edges[..n + 1][..n] == edges[..n];
      before := before[e.target := (if e.target in before then before[e.target] else []) + [e.source]];
    }
    assert edges[..|edges|] == edges;
  }

  // ----- The third loop: the frontier

  /** Not run yet, has a predecessor, and all its predecessors have run. */
  predicate Pending(edges: seq<Edge>, ran: set<Name>, name: Name) {
    && name !in ran
    && Predecessors(edges, name) != []
    && forall p | p in Predecessors(edges, name) :: p in ran
  }

  /** The ids of the rows kept for the predecessors, in edge order. */
  function PreviousIds(rows: seq<Row>, names: seq<Name>): seq<string> {
    if names == [] then []
    else
      var kept := Kept(rows, names[|names| - 1]);
      PreviousIds(rows, names[..|names| - 1]) + if kept.Some? then [kept.value.nodeId] else []
  }

  /** The names for which some row counts, in order. */
  function KnownNames(rows: seq<Row>, names: seq<Name>): seq<Name> {
    if names == [] then []
    else
      var name := names[|names| - 1];
      KnownNames(rows, names[..|names| - 1]) + if exists row | row in rows :: Counts(row, name) then [name] else []
  }

  ghost predicate IdOfLatest(rows: seq<Row>, name: Name, id: string) {
    exists j :: Latest(rows, name, j) && rows[j].nodeId == id
  }

  /** The links are the ids of the latest rows of the predecessors that have a row that counts,
      in edge order. */
  lemma {:induction false} PreviousIdsAreLatest(rows: seq<Row>, names: seq<Name>)
    ensures var ids, known := PreviousIds(rows, names), KnownNames(rows, names);
      |ids| == |known| && forall i | 0 <= i < |ids| :: IdOfLatest(rows, known[i], ids[i])
    decreases |names|
  {
    if names != [] {
      PreviousIdsAreLatest(rows, names[..|names| - 1]);
      var j := KeptIsLatest(rows, names[|names| - 1]);
      var kept := Kept(rows, names[|names| - 1]);
      if kept.Some? {
        assert rows[j] in rows && IdOfLatest(rows, names[|names| - 1], kept.value.nodeId);
      }
    }
  }

  method ReadPrevious(ghost rows: seq<Row>, ids: map<Name, string>, ghost versions: map<Name, int>, names: seq<Name>)
    returns (previous: seq<string>)
    requires KeptFields(rows, ids, versions)
    ensures previous == PreviousIds(rows, names)
  {
    previous := [];
    for n := 0 to |names|
      invariant previous == PreviousIds(rows, names[..n])
    {
      assert names[..n + 1][..n] == names[..n];
      if names[n] in ids {
        previous := previous + [ids[names[n]]];
      }
    }
    assert names[..|names|] == names;
  }

  function PendingNodes(nodes: seq<Node>, edges: seq<Edge>, ran: set<Name>): seq<Node> {
    if nodes == [] then []
    else
      var last := nodes[|nodes| - 1];
      PendingNodes(nodes[..|nodes| - 1], edges, ran) + if Pending(edges, ran, last.name) then [last] else []
  }

  lemma {:induction false} PendingNodesFound(nodes: seq<Node>, edges: seq<Edge>, ran: set<Name>, node: Node)
    ensures node in PendingNodes(nodes, edges, ran) <==> node in nodes && Pending(edges, ran, node.name)
    decreases |nodes|
  {
    if nodes != [] {
      PendingNodesFound(nodes[..|nodes| - 1], edges, ran, node);
    }
  }

  predicate Describes(info: Info, node: Node, threadId: string, version: int) {
    && info.nodeId == "topology-" + node.name
    && info.threadId == threadId
    && info.name == node.name
    && info.status == "pending"
    && info.kind == node.kind
    && info.group == node.group
    && info.version == version
  }

  /** One entry for each of these nodes, in order, linked to the rows kept for its
      predecessors. */
  predicate Entries(pending: seq<Info>, nodes: seq<Node>, rows: seq<Row>, edges: seq<Edge>, threadId: string, version: int) {
    && |pending| == |nodes|
    && forall i | 0 <= i < |nodes| :: Entry(pending[i], nodes[i], rows, edges, threadId, version)
  }

  predicate Entry(info: Info, node: Node, rows: seq<Row>, edges: seq<Edge>, threadId: string, version: int) {
    Describes(info, node, threadId, version) && info.previous == PreviousIds(rows, Predecessors(edges, node.name))
  }

  lemma NonePending(edges: seq<Edge>, ran: set<Name>)
    ensures PendingNodes([], edges, ran) == []
  {
  }

  lemma PendingNodesSnoc(nodes: seq<Node>, n: nat, edges: seq<Edge>, ran: set<Name>)
    requires n < |nodes|
    ensures PendingNodes(nodes[..n + 1], edges, ran) ==
            PendingNodes(nodes[..n], edges, ran) + if Pending(edges, ran, nodes[n].name) then [nodes[n]] else []
  {
    assert nodes[..n + 1][..n] == nodes[..n];
  }

  /** `_build_pending_frontier`: one entry for each pending node, in topology order, linked to
      the rows kept for its predecessors. */
  method BuildPendingFrontier(threadId: string, version: int, rows: seq<Row>, topology: Option<Topology>)
    returns (pending: seq<Info>)
    ensures topology.None? ==> pending == []
    ensures topology.Some? ==>
      var Topology(nodes, edges) := topology.value;
      Entries(pending, PendingNodes(nodes, edges, RanNames(rows)), rows, edges, threadId, version)
  {
    hide PendingNodes, PreviousIds, KeptFields, RanNames;
    if topology.None? {
      return [];
    }
    var nodes, edges := topology.value.nodes, topology.value.edges;
    var ran, ids, versions := ReadRows(rows);
    var before := ReadEdges(edges);
    pending := [];
    NonePending(edges, ran);
    for n := 0 to |nodes|
      invariant Entries(pending, PendingNodes(nodes[..n], edges, ran), rows, edges, threadId, version)
    {
      var node := nodes[n];
      PendingNodesSnoc(nodes, n, edges, ran);
      var preds := if node.name in before then before[node.name] else [];
      assert preds == Predecessors(edges, node.name);
      if node.name in ran || preds == [] {
        continue;
      }
      if forall p | p in preds :: p in ran {
        var previous := ReadPrevious(rows, ids, versions, preds);
        pending := pending + [Info("topology-" + node.name, threadId, node.name, "pending", node.kind, node.group, version, previous)];
      }
    }
    assert nodes[..|nodes|] == nodes;
  }

  // ----- Progress on acyclic topologies

  ghost predicate Path(edges: seq<Edge>, path: seq<Name>) {
    path != [] && forall i | 0 <= i < |path| - 1 :: Edge(path[i], path[i + 1]) in edges
  }

  ghost predicate Acyclic(edges: seq<Edge>) {
    forall path | Path(edges, path) && |path| > 1 :: path[0] != path[|path| - 1]
  }

  /** The edges run between nodes of the topology. */
  ghost predicate Closed(topology: Topology) {
    forall e | e in topology.edges :: e.source in NodeNames(topology) && e.target in NodeNames(topology)
  }

  function NodeNames(topology: Topology): set<Name> {
    set node | node in topology.nodes :: node.name
  }

  ghost predicate PendingName(topology: Topology, ran: set<Name>, name: Name) {
    name in NodeNames(topology) && Pending(topology.edges, ran, name)
  }

  /** Names only nodes that have not run, and leads from `path[0]` to `name`. */
  ghost predicate UnrunPath(edges: seq<Edge>, ran: set<Name>, path: seq<Name>, name: Name) {
    Path(edges, path) && path[|path| - 1] == name && forall n | n in path :: n !in ran
  }

  /** What holds the node up is a root that never ran. */
  ghost predicate HeldByRoot(edges: seq<Edge>, ran: set<Name>, name: Name) {
    exists path :: UnrunPath(edges, ran, path, name) && Predecessors(edges, path[0]) == []
  }

  ghost predicate RootsRan(topology: Topology, ran: set<Name>) {
    forall name | name in NodeNames(topology) && Predecessors(topology.edges, name) == [] :: name in ran
  }

  lemma PathDistinct(edges: seq<Edge>, path: seq<Name>, i: nat, j: nat)
    requires Acyclic(edges) && Path(edges, path) && i < j < |path|
    ensures path[i] != path[j]
  {
    var part := path[i..j + 1];
    forall k | 0 <= k < |part| - 1 ensures Edge(part[k], part[k + 1]) in edges {
      assert Edge(path[i + k], path[i + k + 1]) in edges;
    }
  }

  lemma {:induction false} DistinctFit(names: seq<Name>, all: set<Name>)
    requires forall n | n in names :: n in all
    requires forall i, j | 0 <= i < j < |names| :: names[i] != names[j]
    ensures |names| <= |all|
  {
    if names != [] {
      var last := names[|names| - 1];
      DistinctFit(names[..|names| - 1], all - {last});
    }
  }

  /** A path has no more nodes than the topology. */
  lemma PathFits(topology: Topology, path: seq<Name>)
    requires Acyclic(topology.edges) && Closed(topology) && Path(topology.edges, path)
    requires path[|path| - 1] in NodeNames(topology)
    ensures |path| <= |NodeNames(topology)|
  {
    forall i, j | 0 <= i < j < |path| ensures path[i] != path[j] {
      PathDistinct(topology.edges, path, i, j);
    }
    forall i | 0 <= i < |path| ensures path[i] in NodeNames(topology) {
      if i < |path| - 1 {
        assert Edge(path[i], path[i + 1]) in topology.edges;
      }
    }
    DistinctFit(path, NodeNames(topology));
  }

  /** Walking back from a node through nodes that have not run ends at a root or a pending node. */
  lemma WalkBack(topology: Topology, ran: set<Name>, path: seq<Name>, name: Name) returns (back: seq<Name>)
    requires Acyclic(topology.edges) && Closed(topology) && name in NodeNames(topology)
    requires UnrunPath(topology.edges, ran, path, name)
    ensures UnrunPath(topology.edges, ran, back, name)
    ensures Predecessors(topology.edges, back[0]) == [] || PendingName(topology, ran, back[0])
    decreases |NodeNames(topology)| - |path|
  {
    back := path;
    PathFits(topology, path);
    assert |path| > 1 ==> Edge(path[0], path[1]) in topology.edges;
    if p :| p in Predecessors(topology.edges, path[0]) && p !in ran {
      PredecessorIffEdge(topology.edges, p, path[0]);
      var longer := [p] + path;
      assert forall i | 0 < i < |longer| :: longer[i] == path[i - 1];
      PathFits(topology, longer);
      back := WalkBack(topology, ran, longer, name);
    }
  }

  lemma NoPendingNodes(topology: Topology, ran: set<Name>)
    ensures PendingNodes(topology.nodes, topology.edges, ran) == [] <==> forall name :: !PendingName(topology, ran, name)
  {
    var pending := PendingNodes(topology.nodes, topology.edges, ran);
    forall node ensures node in pending <==> node in topology.nodes && Pending(topology.edges, ran, node.name) {
      PendingNodesFound(topology.nodes, topology.edges, ran, node);
    }
    if pending != [] {
      assert pending[0] in pending;
      assert PendingName(topology, ran, pending[0].name);
    }
  }

  lemma PendingNotHeld(topology: Topology, ran: set<Name>, name: Name)
    requires PendingName(topology, ran, name)
    ensures !HeldByRoot(topology.edges, ran, name)
  {
    if path :| UnrunPath(topology.edges, ran, path, name) && Predecessors(topology.edges, path[0]) == [] {
      if |path| > 1 {
        PredecessorIffEdge(topology.edges, path[|path| - 2], name);
      }
    }
  }

  /** On an acyclic topology the frontier is empty exactly if everything that has not run waits
      for a root that has not run. */
  lemma FrontierEmptyIffHeld(topology: Topology, ran: set<Name>)
    requires Acyclic(topology.edges) && Closed(topology)
    ensures PendingNodes(topology.nodes, topology.edges, ran) == [] <==>
            forall name | name in NodeNames(topology) && name !in ran :: HeldByRoot(topology.edges, ran, name)
  {
    NoPendingNodes(topology, ran);
    forall name | PendingName(topology, ran, name) ensures !HeldByRoot(topology.edges, ran, name) {
      PendingNotHeld(topology, ran, name);
    }
    if forall name :: !PendingName(topology, ran, name) {
      forall name | name in NodeNames(topology) && name !in ran ensures HeldByRoot(topology.edges, ran, name) {
        var back := WalkBack(topology, ran, [name], name);
      }
    }
  }

  lemma RunRootHoldsNothing(topology: Topology, ran: set<Name>, path: seq<Name>, name: Name)
    requires Closed(topology) && RootsRan(topology, ran) && name in NodeNames(topology)
    requires UnrunPath(topology.edges, ran, path, name)
    ensures Predecessors(topology.edges, path[0]) != []
  {
    assert path[0] in path;
    assert |path| > 1 ==> Edge(path[0], path[1]) in topology.edges;
  }

  /** With the roots run, the frontier is empty exactly if every node has run. */
  lemma FrontierEmptyIffDone(topology: Topology, ran: set<Name>)
    requires Acyclic(topology.edges) && Closed(topology) && RootsRan(topology, ran)
    ensures PendingNodes(topology.nodes, topology.edges, ran) == [] <==> NodeNames(topology) <= ran
  {
    FrontierEmptyIffHeld(topology, ran);
    forall name, path | name in NodeNames(topology) && UnrunPath(topology.edges, ran, path, name)
      ensures Predecessors(topology.edges, path[0]) != []
    {
      RunRootHoldsNothing(topology, ran, path, name);
    }
  }

  // ----- Whole runs: nodes taken from the frontier one after the other

  ghost predicate Schedule(topology: Topology, ran: set<Name>, names: seq<Name>)
    decreases |names|
  {
    names == [] || (PendingName(topology, ran, names[0]) && Schedule(topology, ran + {names[0]}, names[1..]))
  }

  /** A node runs only after all its predecessors. */
  ghost predicate PredecessorClosed(edges: seq<Edge>, ran: set<Name>) {
    forall e | e in edges && e.target in ran :: e.source in ran
  }

  function Elements(names: seq<Name>): set<Name> {
    set n | n in names
  }

  lemma PendingKeepsClosed(topology: Topology, ran: set<Name>, name: Name)
    requires PendingName(topology, ran, name)
    ensures PredecessorClosed(topology.edges, ran) ==> PredecessorClosed(topology.edges, ran + {name})
  {
    forall e | e in topology.edges && e.target == name ensures e.source in ran {
      PredecessorIffEdge(topology.edges, e.source, name);
    }
  }

  lemma {:induction false} ScheduleRuns(topology: Topology, ran: set<Name>, names: seq<Name>)
    requires Schedule(topology, ran, names)
    ensures forall i, j | 0 <= i < j < |names| :: names[i] != names[j]
    ensures forall n | n in names :: n in NodeNames(topology) && n !in ran
    decreases |names|
  {
    if names != [] {
      hide NodeNames;
      var first, rest := names[0], names[1..];
      ScheduleRuns(topology, ran + {first}, rest);
      assert first !in rest && names == [first] + rest;
    }
  }

  lemma {:induction false} ScheduleKeepsClosed(topology: Topology, ran: set<Name>, names: seq<Name>)
    requires Schedule(topology, ran, names) && PredecessorClosed(topology.edges, ran)
    ensures PredecessorClosed(topology.edges, ran + Elements(names))
    decreases |names|
  {
    if names == [] {
      assert ran + Elements(names) == ran;
    } else {
      hide PredecessorClosed;
      PendingKeepsClosed(topology, ran, names[0]);
      ScheduleKeepsClosed(topology, ran + {names[0]}, names[1..]);
      assert ran + {names[0]} + Elements(names[1..]) == ran + Elements(names);
    }
  }

  /** A run from the frontier runs each node at most once and keeps the nodes that ran closed
      under predecessors; and it stops exactly when every node has run. */
  lemma ScheduleProgress(topology: Topology, ran: set<Name>, names: seq<Name>)
    requires Acyclic(topology.edges) && Closed(topology) && RootsRan(topology, ran)
    requires Schedule(topology, ran, names)
    ensures forall i, j | 0 <= i < j < |names| :: names[i] != names[j]
    ensures forall n | n in names :: n in NodeNames(topology) && n !in ran
    ensures PredecessorClosed(topology.edges, ran) ==> PredecessorClosed(topology.edges, ran + Elements(names))
    ensures PendingNodes(topology.nodes, topology.edges, ran + Elements(names)) == [] <==>
            NodeNames(topology) <= ran + Elements(names)
  {
    ScheduleRuns(topology, ran, names);
    if PredecessorClosed(topology.edges, ran) {
      ScheduleKeepsClosed(topology, ran, names);
    }
    FrontierEmptyIffDone(topology, ran + Elements(names));
  }

  lemma SomePending(topology: Topology, ran: set<Name>) returns (name: Name)
    requires Acyclic(topology.edges) && Closed(topology) && RootsRan(topology, ran)
    requires !(NodeNames(topology) <= ran)
    ensures PendingName(topology, ran, name)
  {
    FrontierEmptyIffDone(topology, ran);
    NoPendingNodes(topology, ran);
    name :| PendingName(topology, ran, name);
  }

  /** And there always is a run that gets every node to run. */
  lemma ScheduleCompletes(topology: Topology, ran: set<Name>) returns (names: seq<Name>)
    requires Acyclic(topology.edges) && Closed(topology) && RootsRan(topology, ran)
    ensures Schedule(topology, ran, names) && NodeNames(topology) <= ran + Elements(names)
    decreases NodeNames(topology) - ran
  {
    names := [];
    if !(NodeNames(topology) <= ran) {
      var name := SomePending(topology, ran);
      var rest := ScheduleCompletes(topology, ran + {name});
      names := [name] + rest;
      assert Elements(names) == {name} + Elements(rest);
    }
  }
}
