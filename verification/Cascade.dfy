/** Cancelling a node or a task of a thread, and the cascade up the node forest
    (backend/users/queries/lifecycle.py, backend/users/queries/_helpers.py, with the
    statements of backend/users/queries/_sql.py and the lifecycle cancels of
    backend/langgraph/lifecycle/threads). */
module Cascade {
  import opened Options
  import opened Statuses

  type Id = string

  datatype Node = Node(parent: Option<Id>, status: Status)

  datatype Task = Task(node: Id, status: Status)

  /** The rows of one thread, its cancel flag in Redis, and those of its nodes. */
  datatype Tables = Tables(
    nodes: map<Id, Node>, tasks: map<Id, Task>, thread: Status, cancelFlag: bool, nodeFlags: set<Id>)

  function Cancel(status: Status): Status {
    if Terminal(status) then status else Cancelled
  }

  predicate Active(nodes: map<Id, Node>, id: Id) {
    id in nodes && !Terminal(nodes[id].status)
  }

  function Parent(nodes: map<Id, Node>, id: Id): Option<Id> {
    if id in nodes then nodes[id].parent else None
  }

  predicate HasActiveChild(nodes: map<Id, Node>, parent: Id) {
    exists id :: id in nodes && nodes[id].parent == Some(parent) && Active(nodes, id)
  }

  predicate HasActiveTop(nodes: map<Id, Node>) {
    exists id :: id in nodes && nodes[id].parent.None? && Active(nodes, id)
  }

  predicate HasActiveTask(tasks: map<Id, Task>, node: Id) {
    exists id :: id in tasks && tasks[id].node == node && !Terminal(tasks[id].status)
  }

  /** The lifecycle cancel of one node: its active tasks, then the node, and its flag if it was
      active. */
  function CancelNodeRows(t: Tables, node: Id): Tables {
    t.(nodes := map id | id in t.nodes ::
         if id == node then t.nodes[id].(status := Cancel(t.nodes[id].status)) else t.nodes[id],
       tasks := map id | id in t.tasks ::
         if t.tasks[id].node == node then t.tasks[id].(status := Cancel(t.tasks[id].status)) else t.tasks[id],
       nodeFlags := if Active(t.nodes, node) then t.nodeFlags + {node} else t.nodeFlags)
  }

  /** The lifecycle cancel of the thread: the flag, every active task and node, the thread. */
  function CancelThreadRows(t: Tables): Tables {
    Tables(map id | id in t.nodes :: t.nodes[id].(status := Cancel(t.nodes[id].status)),
           map id | id in t.tasks :: t.tasks[id].(status := Cancel(t.tasks[id].status)),
           Cancel(t.thread), true, t.nodeFlags)
  }

  /** The parent pointers form a forest: `depth` falls along them. */
  ghost predicate Forest(nodes: map<Id, Node>, depth: Id -> nat) {
    forall id | id in nodes && nodes[id].parent.Some? :: depth(nodes[id].parent.value) < depth(id)
  }

  /** What the cascade does to the tables after a node with this parent was cancelled. */
  ghost function CascadeRows(t: Tables, parent: Option<Id>, depth: Id -> nat): Tables
    requires Forest(t.nodes, depth)
    decreases if parent.Some? then depth(parent.value) + 1 else 0
  {
    match parent
    case None => if HasActiveTop(t.nodes) then t else CancelThreadRows(t)
    case Some(p) =>
      if HasActiveChild(t.nodes, p) then t
      else CascadeRows(CancelNodeRows(t, p), Parent(t.nodes, p), depth)
  }

  /** The database rows and the flag, updated in place. */
  class Database {
    var nodes: map<Id, Node>
    var tasks: map<Id, Task>
    var thread: Status
    var cancelFlag: bool
    var nodeFlags: set<Id>

    constructor (t: Tables)
      ensures View() == t
    {
      nodes, tasks, thread, cancelFlag, nodeFlags := t.nodes, t.tasks, t.thread, t.cancelFlag, t.nodeFlags;
    }

    ghost function View(): Tables
      reads this
    {
      Tables(nodes, tasks, thread, cancelFlag, nodeFlags)
    }

    /** The lifecycle's `cancel_node`; the result says whether the node was active. */
    method CancelNodeLc(node: Id) returns (cancelled: bool)
      modifies this`nodes, this`tasks, this`nodeFlags
      ensures View() == CancelNodeRows(old(View()), node)
      ensures cancelled <==> Active(old(nodes), node)
    {
      ghost var cancelledRows := CancelNodeRows(View(), node);
      tasks := map id | id in tasks ::
        if tasks[id].node == node && !Terminal(tasks[id].status) then tasks[id].(status := Cancelled) else tasks[id];
      cancelled := Active(nodes, node);
      nodes := map id | id in nodes ::
        if id == node && !Terminal(nodes[id].status) then nodes[id].(status := Cancelled) else nodes[id];
      if cancelled {
        nodeFlags := nodeFlags + {node};
      }
      assert tasks == cancelledRows.tasks;
      assert nodes == cancelledRows.nodes;
    }

    method CancelThreadLc()
      modifies this
      ensures View() == CancelThreadRows(old(View()))
    {
      cancelFlag := true;
      tasks := map id | id in tasks :: tasks[id].(status := Cancel(tasks[id].status));
      nodes := map id | id in nodes :: nodes[id].(status := Cancel(nodes[id].status));
      if !Terminal(thread) {
        thread := Cancelled;
      }
    }

    /** `_cascade_up_from_cancelled_node`. */
    method CascadeUp(node: Id, parent: Option<Id>, ghost depth: Id -> nat)
      requires Forest(nodes, depth)
      modifies this
      ensures View() == CascadeRows(old(View()), parent, depth)
      decreases if parent.Some? then depth(parent.value) + 1 else 0
    {
      if parent.Some? {
        if HasActiveChild(nodes, parent.value) {
          return;
        }
        var grandparent := Parent(nodes, parent.value);
        var _ := CancelNodeLc(parent.value);
        CascadeUp(parent.value, grandparent, depth);
        return;
      }
      if HasActiveTop(nodes) {
        return;
      }
      cancelFlag := true;
      CancelThreadLc();
    }

    /** `cancel_node`. */
    method CancelNode(node: Id, ghost depth: Id -> nat)
      requires Forest(nodes, depth)
      modifies this
      ensures View() == CancelNodeAndCascade(old(View()), node, depth)
    {
      var parent := Parent(nodes, node);
      var _ := CancelNodeLc(node);
      CascadeUp(node, parent, depth);
    }

    /** `cancel_task_by_uuid`; an empty `nodeId` is resolved from the task, and stays empty for
        an unknown task. */
    method CancelTaskByUuid(task: Id, nodeId: Id, ghost depth: Id -> nat)
      requires Forest(nodes, depth)
      modifies this
      ensures View() == CancelTaskAndCascade(old(View()), task, nodeId, depth)
    {
      var node := nodeId;
      if node == "" {
        node := if task in tasks then tasks[task].node else "";
      }
      if task in tasks && !Terminal(tasks[task].status) {
        tasks := tasks[task := tasks[task].(status := Cancelled)];
      }
      assert View() == CancelTaskRow(old(View()), task);
      if node == "" {
        return;
      }
      if HasActiveTask(tasks, node) {
        return;
      }
      CancelNode(node, depth);
    }
  }

  function CancelTaskRow(t: Tables, task: Id): Tables {
    if task in t.tasks
    then t.(tasks := t.tasks[task := t.tasks[task].(status := Cancel(t.tasks[task].status))])
    else t
  }

  /** The node that a task cancel is about. */
  function TaskNode(t: Tables, task: Id, nodeId: Id): Id {
    if nodeId != "" then nodeId else if task in t.tasks then t.tasks[task].node else ""
  }

  /** A task cancel goes on to the node exactly if no active task is left in it. */
  ghost function CancelTaskAndCascade(t: Tables, task: Id, nodeId: Id, depth: Id -> nat): Tables
    requires Forest(t.nodes, depth)
  {
    var t', node := CancelTaskRow(t, task), TaskNode(t, task, nodeId);
    if node == "" || HasActiveTask(t'.tasks, node) then t' else CancelNodeAndCascade(t', node, depth)
  }

  ghost function CancelNodeAndCascade(t: Tables, node: Id, depth: Id -> nat): Tables
    requires Forest(t.nodes, depth)
  {
    CascadeRows(CancelNodeRows(t, node), Parent(t.nodes, node), depth)
  }

  // ---------------------------------------------------------------------------------------
  // The reference: which rows a cancel should reach, read off the tables before it

  /** The `k`-th ancestor of a node; the node itself for 0. */
  function Up(nodes: map<Id, Node>, node: Id, k: nat): Option<Id> {
    if k == 0 then Some(node)
    else
      var below := Up(nodes, node, k - 1);
      if below.Some? then Parent(nodes, below.value) else None
  }

  /** Apart from the `k`-th ancestor itself, its parent has no active child. */
  predicate QuietAbove(nodes: map<Id, Node>, node: Id, k: nat) {
    && Up(nodes, node, k + 1).Some?
    && forall id | id in nodes && nodes[id].parent == Up(nodes, node, k + 1) && Active(nodes, id) ::
         Some(id) == Up(nodes, node, k)
  }

  /** The cascade climbs exactly `k` levels: so far parents have no active child left, and then
      there is no parent, or one with another active child. */
  predicate ClimbsTo(nodes: map<Id, Node>, node: Id, k: nat) {
    && (forall j | 0 <= j < k :: QuietAbove(nodes, node, j))
    && !QuietAbove(nodes, node, k)
  }

  /** The node or an ancestor up to level `k`. */
  predicate OnPath(nodes: map<Id, Node>, node: Id, k: nat, id: Id) {
    exists j :: 0 <= j <= k && Up(nodes, node, j) == Some(id)
  }

  /** The climb ends at a top-level node, and no other top-level node is active. */
  predicate EndsThread(nodes: map<Id, Node>, node: Id, k: nat) {
    && Up(nodes, node, k + 1).None?
    && forall id | id in nodes && nodes[id].parent.None? && Active(nodes, id) :: Some(id) == Up(nodes, node, k)
  }

  /** The tables with the path up to level `k` cancelled. */
  ghost function PathCancelled(t: Tables, node: Id, k: nat): Tables {
    t.(nodes := map id | id in t.nodes ::
         if OnPath(t.nodes, node, k, id) then t.nodes[id].(status := Cancel(t.nodes[id].status)) else t.nodes[id],
       tasks := map id | id in t.tasks ::
         if OnPath(t.nodes, node, k, t.tasks[id].node) then t.tasks[id].(status := Cancel(t.tasks[id].status)) else t.tasks[id],
       nodeFlags := t.nodeFlags + set id | id in t.nodes && Active(t.nodes, id) && OnPath(t.nodes, node, k, id))
  }

  lemma {:induction false} UpAgrees(a: map<Id, Node>, b: map<Id, Node>, node: Id, k: nat)
    requires a.Keys == b.Keys && forall id | id in a :: a[id].parent == b[id].parent
    ensures Up(a, node, k) == Up(b, node, k)
  {
    if k > 0 {
      UpAgrees(a, b, node, k - 1);
    }
  }

  /** Along the path the depth falls, so no ancestor occurs twice. */
  lemma {:induction false} UpFalls(nodes: map<Id, Node>, node: Id, i: nat, j: nat, depth: Id -> nat)
    requires Forest(nodes, depth) && i < j && Up(nodes, node, j).Some?
    ensures Up(nodes, node, i).Some?
    ensures depth(Up(nodes, node, j).value) + (j - i) <= depth(Up(nodes, node, i).value)
    decreases j
  {
    if i < j - 1 {
      UpFalls(nodes, node, i, j - 1, depth);
    }
  }

  lemma PathGrows(t: Tables, node: Id, k: nat)
    requires Up(t.nodes, node, k + 1).Some?
    ensures CancelNodeRows(PathCancelled(t, node, k), Up(t.nodes, node, k + 1).value) == PathCancelled(t, node, k + 1)
  {
    var p := Up(t.nodes, node, k + 1).value;
    forall id ensures OnPath(t.nodes, node, k + 1, id) <==> OnPath(t.nodes, node, k, id) || id == p {
      OnPathGrows(t.nodes, node, k, id);
    }
    hide OnPath, Up;
    var before, after := CancelNodeRows(PathCancelled(t, node, k), p), PathCancelled(t, node, k + 1);
    assert before.nodes == after.nodes && before.tasks == after.tasks;
    assert before.nodeFlags == after.nodeFlags;
  }

  lemma OnPathGrows(nodes: map<Id, Node>, node: Id, k: nat, id: Id)
    requires Up(nodes, node, k + 1).Some?
    ensures OnPath(nodes, node, k + 1, id) <==> OnPath(nodes, node, k, id) || Up(nodes, node, k + 1) == Some(id)
  {
    if OnPath(nodes, node, k + 1, id) && !OnPath(nodes, node, k, id) {
      var j :| 0 <= j <= k + 1 && Up(nodes, node, j) == Some(id);
      assert j == k + 1;
    }
  }

  /** After the climb to level `k`, the next parent has an active child exactly if it had one
      besides the path to begin with. */
  lemma ChildrenAfterClimb(t: Tables, node: Id, k: nat, depth: Id -> nat)
    requires Forest(t.nodes, depth) && Up(t.nodes, node, k + 1).Some?
    ensures HasActiveChild(PathCancelled(t, node, k).nodes, Up(t.nodes, node, k + 1).value) <==> !QuietAbove(t.nodes, node, k)
  {
    var now := PathCancelled(t, node, k).nodes;
    var p := Up(t.nodes, node, k + 1).value;
    UpFalls(t.nodes, node, k, k + 1, depth);
    forall id | id in t.nodes && t.nodes[id].parent == Some(p)
      ensures OnPath(t.nodes, node, k, id) <==> Some(id) == Up(t.nodes, node, k)
    {
      if j: nat :| j <= k && Up(t.nodes, node, j) == Some(id) {
        if j < k {
          UpFalls(t.nodes, node, j + 1, k + 1, depth);
        }
      }
    }
    forall id | id in t.nodes && t.nodes[id].parent == Some(p)
      ensures Active(now, id) <==> Active(t.nodes, id) && Some(id) != Up(t.nodes, node, k)
    {
      assert OnPath(t.nodes, node, k, id) <==> Some(id) == Up(t.nodes, node, k);
    }
  }

  lemma TopAfterClimb(t: Tables, node: Id, k: nat, depth: Id -> nat)
    requires Forest(t.nodes, depth) && Up(t.nodes, node, k).Some? && Up(t.nodes, node, k + 1).None?
    ensures HasActiveTop(PathCancelled(t, node, k).nodes) <==> !EndsThread(t.nodes, node, k)
  {
    var now := PathCancelled(t, node, k).nodes;
    forall id | id in t.nodes && t.nodes[id].parent.None?
      ensures OnPath(t.nodes, node, k, id) <==> Some(id) == Up(t.nodes, node, k)
    {
      if j: nat :| j <= k && Up(t.nodes, node, j) == Some(id) {
        if j < k {
          assert Up(t.nodes, node, j + 1).None?;
          NoneAbove(t.nodes, node, j + 1, k);
        }
      }
    }
    forall id | id in t.nodes && t.nodes[id].parent.None?
      ensures Active(now, id) <==> Active(t.nodes, id) && Some(id) != Up(t.nodes, node, k)
    {
      assert OnPath(t.nodes, node, k, id) <==> Some(id) == Up(t.nodes, node, k);
    }
  }

  lemma {:induction false} NoneAbove(nodes: map<Id, Node>, node: Id, i: nat, j: nat)
    requires i <= j && Up(nodes, node, i).None?
    ensures Up(nodes, node, j).None?
    decreases j
  {
    if i < j {
      NoneAbove(nodes, node, i, j - 1);
    }
  }

  lemma PathForest(t: Tables, node: Id, k: nat, depth: Id -> nat)
    requires Forest(t.nodes, depth)
    ensures Forest(PathCancelled(t, node, k).nodes, depth)
  {
  }

  /** What the cascade still does after climbing to level `k`. */
  ghost function Rest(t: Tables, node: Id, k: nat, depth: Id -> nat): Tables
    requires Forest(t.nodes, depth)
  {
    PathForest(t, node, k, depth);
    CascadeRows(PathCancelled(t, node, k), Up(t.nodes, node, k + 1), depth)
  }

  ghost function Outcome(t: Tables, node: Id, k: nat): Tables {
    if EndsThread(t.nodes, node, k) then CancelThreadRows(PathCancelled(t, node, k)) else PathCancelled(t, node, k)
  }

  lemma ClimbOn(t: Tables, node: Id, k: nat, depth: Id -> nat)
    requires Forest(t.nodes, depth) && QuietAbove(t.nodes, node, k)
    ensures Rest(t, node, k, depth) == Rest(t, node, k + 1, depth)
  {
    PathForest(t, node, k, depth);
    ChildrenAfterClimb(t, node, k, depth);
    PathGrows(t, node, k);
  }

  lemma ClimbEnds(t: Tables, node: Id, k: nat, depth: Id -> nat)
    requires Forest(t.nodes, depth) && Up(t.nodes, node, k).Some? && !QuietAbove(t.nodes, node, k)
    ensures Rest(t, node, k, depth) == Outcome(t, node, k)
  {
    PathForest(t, node, k, depth);
    if Up(t.nodes, node, k + 1).None? {
      TopAfterClimb(t, node, k, depth);
    } else {
      ChildrenAfterClimb(t, node, k, depth);
    }
  }

  lemma {:induction false} ClimbFrom(t: Tables, node: Id, k: nat, depth: Id -> nat) returns (last: nat)
    requires Forest(t.nodes, depth)
    requires Up(t.nodes, node, k).Some? && forall j | 0 <= j < k :: QuietAbove(t.nodes, node, j)
    ensures ClimbsTo(t.nodes, node, last)
    ensures Rest(t, node, k, depth) == Outcome(t, node, last)
    decreases depth(Up(t.nodes, node, k).value)
  {
    hide Rest, Outcome, Up, Forest, Active, HasActiveChild, HasActiveTop, OnPath;
    if QuietAbove(t.nodes, node, k) {
      UpOfQuiet(t.nodes, node, k);
      hide QuietAbove, ClimbsTo;
      ClimbOn(t, node, k, depth);
      UpFalls(t.nodes, node, k, k + 1, depth);
      last := ClimbFrom(t, node, k + 1, depth);
    } else {
      hide QuietAbove;
      ClimbEnds(t, node, k, depth);
      last := k;
    }
  }

  lemma UpOfQuiet(nodes: map<Id, Node>, node: Id, k: nat)
    requires QuietAbove(nodes, node, k)
    ensures Up(nodes, node, k + 1).Some?
  {
  }

  /** Cancelling a node on any finite forest: the cascade climbs as long as the next parent has
      no active child besides the path; the active nodes on that path, and their active
      tasks, are cancelled and nothing else is; and the thread is cancelled, with all that is
      still active in it, exactly if the path ends at the top and no other top-level node is
      active. */
  lemma CascadeExact(t: Tables, node: Id, depth: Id -> nat) returns (k: nat)
    requires Forest(t.nodes, depth)
    ensures ClimbsTo(t.nodes, node, k)
    ensures CancelNodeAndCascade(t, node, depth)
         == if EndsThread(t.nodes, node, k) then CancelThreadRows(PathCancelled(t, node, k)) else PathCancelled(t, node, k)
  {
    PathForest(t, node, 0, depth);
    assert CancelNodeRows(t, node) == PathCancelled(t, node, 0) by {
      forall id ensures OnPath(t.nodes, node, 0, id) <==> id == node {
        assert Up(t.nodes, node, 0) == Some(node);
      }
    }
    assert Up(t.nodes, node, 1) == Parent(t.nodes, node);
    k := ClimbFrom(t, node, 0, depth);
  }

  /** Whatever else it reaches, a cancel takes rows from an active status to cancelled and does
      nothing else to them, and no row comes or goes. */
  lemma ChangesAreCancels(t: Tables, node: Id, depth: Id -> nat)
    requires Forest(t.nodes, depth)
    ensures OnlyCancels(t, CancelNodeAndCascade(t, node, depth))
  {
    var k := CascadeExact(t, node, depth);
    hide OnPath, PathCancelled, CancelThreadRows, EndsThread, ClimbsTo, OnlyCancels, CancelNodeAndCascade;
    PathChangesAreCancels(t, node, k);
    if EndsThread(t.nodes, node, k) {
      var path := PathCancelled(t, node, k);
      ThreadChangesAreCancels(path);
      CancelsCompose(t, path, CancelThreadRows(path));
    }
  }

  lemma CancelsCompose(t: Tables, between: Tables, t': Tables)
    requires OnlyCancels(t, between) && OnlyCancels(between, t')
    ensures OnlyCancels(t, t')
  {
  }

  /** These tables come from those by cancels of active rows, if at all. */
  predicate OnlyCancels(t: Tables, t': Tables) {
    && t'.nodes.Keys == t.nodes.Keys && t'.tasks.Keys == t.tasks.Keys
    && (forall id | id in t.nodes && t'.nodes[id] != t.nodes[id] ::
          t.nodes[id].status in {Pending, Running, Paused} && t'.nodes[id] == t.nodes[id].(status := Cancelled))
    && (forall id | id in t.tasks && t'.tasks[id] != t.tasks[id] ::
          t.tasks[id].status in {Pending, Running, Paused} && t'.tasks[id] == t.tasks[id].(status := Cancelled))
    && (t'.thread != t.thread ==> t.thread in {Pending, Running, Paused} && t'.thread == Cancelled)
  }

  lemma PathChangesAreCancels(t: Tables, node: Id, k: nat)
    ensures OnlyCancels(t, PathCancelled(t, node, k))
  {
    hide OnPath;
  }

  lemma ThreadChangesAreCancels(t: Tables)
    ensures OnlyCancels(t, CancelThreadRows(t))
  {
  }

  /** The named node itself is cancelled if it was active, with its active tasks. */
  lemma NamedIsCancelled(t: Tables, node: Id, depth: Id -> nat)
    requires Forest(t.nodes, depth) && node in t.nodes
    ensures var t' := CancelNodeAndCascade(t, node, depth);
      && node in t'.nodes
      && (t.nodes[node].status in {Pending, Running, Paused} ==> t'.nodes[node].status == Cancelled && node in t'.nodeFlags)
      && forall id | id in t.tasks && t.tasks[id].node == node && t.tasks[id].status in {Pending, Running, Paused} ::
           id in t'.tasks && t'.tasks[id].status == Cancelled
  {
    var k := CascadeExact(t, node, depth);
    PathTakesNode(t, node, k);
    hide OnPath, PathCancelled, ClimbsTo, EndsThread;
  }

  lemma PathTakesNode(t: Tables, node: Id, k: nat)
    requires node in t.nodes
    ensures var t' := PathCancelled(t, node, k);
      && node in t'.nodes && t'.nodes[node].status == Cancel(t.nodes[node].status)
      && (Active(t.nodes, node) ==> node in t'.nodeFlags)
      && forall id | id in t.tasks && t.tasks[id].node == node :: id in t'.tasks && t'.tasks[id].status == Cancel(t.tasks[id].status)
  {
    assert Up(t.nodes, node, 0) == Some(node) && OnPath(t.nodes, node, k, node);
  }

  /** What the thread gets of it: where the climb ends it, its flag is set, it is cancelled if it
      was active, and nothing in it is active any more; elsewhere its flag and status stay. */
  lemma ThreadEndsWithClimb(t: Tables, node: Id, depth: Id -> nat) returns (k: nat)
    requires Forest(t.nodes, depth)
    ensures ClimbsTo(t.nodes, node, k)
    ensures var t' := CancelNodeAndCascade(t, node, depth);
      if EndsThread(t.nodes, node, k) then
        && t'.cancelFlag && t'.thread == (if t.thread in {Pending, Running, Paused} then Cancelled else t.thread)
        && (forall id :: !Active(t'.nodes, id)) && (forall id | id in t'.tasks :: Terminal(t'.tasks[id].status))
      else t'.cancelFlag == t.cancelFlag && t'.thread == t.thread
  {
    k := CascadeExact(t, node, depth);
    hide OnPath, ClimbsTo, EndsThread;
  }

  /** Cancelling a task: the task is cancelled if it was active; the node named, or else the
      task's own, is cancelled exactly if there is one and all its other tasks have ended, with
      the cascade of a node cancel. */
  lemma TaskCancelExact(t: Tables, task: Id, named: Id, depth: Id -> nat)
    requires Forest(t.nodes, depth)
    ensures var node := if named == "" && task in t.tasks then t.tasks[task].node else named;
      var t' := if task in t.tasks && t.tasks[task].status in {Pending, Running, Paused}
                then t.(tasks := t.tasks[task := t.tasks[task].(status := Cancelled)]) else t;
      CancelTaskAndCascade(t, task, named, depth) ==
        if node != "" && forall id | id in t.tasks && t.tasks[id].node == node && id != task ::
             t.tasks[id].status in {Completed, Failed, Cancelled, Wrong}
        then CancelNodeAndCascade(t', node, depth) else t'
  {
    var t' := CancelTaskRow(t, task);
    assert task in t.tasks && Terminal(t.tasks[task].status) ==> t'.tasks == t.tasks;
    var node := TaskNode(t, task, named);
    if HasActiveTask(t'.tasks, node) {
      var id :| id in t'.tasks && t'.tasks[id].node == node && !Terminal(t'.tasks[id].status);
      assert id != task;
    }
    assert forall id | id in t.tasks && t.tasks[id].node == node && id != task :: t'.tasks[id] == t.tasks[id];
  }

  // ---------------------------------------------------------------------------------------
  // Active nodes under terminal parents

  /** No active node has a terminal parent. */
  predicate NoOrphans(nodes: map<Id, Node>) {
    forall id | id in nodes && Active(nodes, id) && nodes[id].parent.Some? && nodes[id].parent.value in nodes ::
      Active(nodes, nodes[id].parent.value)
  }

  lemma PathLeavesNoOrphans(t: Tables, node: Id, k: nat)
    requires NoOrphans(t.nodes) && ClimbsTo(t.nodes, node, k)
    requires !Active(t.nodes, node) || !HasActiveChild(t.nodes, node)
    ensures NoOrphans(PathCancelled(t, node, k).nodes)
  {
    var now := PathCancelled(t, node, k).nodes;
    forall id | id in now && Active(now, id) && now[id].parent.Some? && now[id].parent.value in now
      ensures Active(now, now[id].parent.value)
    {
      var p := now[id].parent.value;
      assert Active(t.nodes, p);
      if j: nat :| j <= k && Up(t.nodes, node, j) == Some(p) {
        if j > 0 {
          OnPathChild(t.nodes, node, k, j - 1, id);
        }
        assert false;
      }
    }
  }

  lemma PathLeavesOrphan(t: Tables, node: Id, k: nat, depth: Id -> nat)
    requires Forest(t.nodes, depth) && Active(t.nodes, node) && HasActiveChild(t.nodes, node)
    ensures !NoOrphans(PathCancelled(t, node, k).nodes)
  {
    var now := PathCancelled(t, node, k).nodes;
    var child :| child in t.nodes && t.nodes[child].parent == Some(node) && Active(t.nodes, child);
    ChildOffPath(t.nodes, node, k, child, depth);
    assert Up(t.nodes, node, 0) == Some(node);
    assert Active(now, child) && !Active(now, node);
  }

  /** A cancel keeps active nodes under active parents exactly if it reaches the thread, or the
      node named was not active, or it had no active child: a subgraph node that is cancelled
      by itself leaves its active children behind. */
  lemma OrphansIff(t: Tables, node: Id, depth: Id -> nat)
    requires Forest(t.nodes, depth) && NoOrphans(t.nodes)
    ensures NoOrphans(CancelNodeAndCascade(t, node, depth).nodes) <==>
      || (exists k :: ClimbsTo(t.nodes, node, k) && EndsThread(t.nodes, node, k))
      || !Active(t.nodes, node)
      || !HasActiveChild(t.nodes, node)
  {
    var k := CascadeExact(t, node, depth);
    ClimbUnique(t.nodes, node);
    if EndsThread(t.nodes, node, k) {
      var now := CancelNodeAndCascade(t, node, depth).nodes;
      assert forall id | id in now :: !Active(now, id);
    } else if Active(t.nodes, node) && HasActiveChild(t.nodes, node) {
      PathLeavesOrphan(t, node, k, depth);
    } else {
      PathLeavesNoOrphans(t, node, k);
    }
  }

  lemma OnPathChild(nodes: map<Id, Node>, node: Id, k: nat, j: nat, id: Id)
    requires j <= k && QuietAbove(nodes, node, j)
    requires id in nodes && nodes[id].parent == Up(nodes, node, j + 1) && Active(nodes, id)
    ensures OnPath(nodes, node, k, id)
  {
    assert Up(nodes, node, j) == Some(id);
  }

  lemma ChildOffPath(nodes: map<Id, Node>, node: Id, k: nat, child: Id, depth: Id -> nat)
    requires Forest(nodes, depth) && child in nodes && nodes[child].parent == Some(node)
    ensures !OnPath(nodes, node, k, child)
  {
    if j: nat :| j <= k && Up(nodes, node, j) == Some(child) {
      if j > 0 {
        UpFalls(nodes, node, 0, j, depth);
      }
      assert false;
    }
  }

  lemma ClimbUnique(nodes: map<Id, Node>, node: Id)
    ensures forall a: nat, b: nat | ClimbsTo(nodes, node, a) && ClimbsTo(nodes, node, b) :: a == b
  {
  }

  /** For instance a running subgraph with a running child, next to another running node. */
  lemma OrphanLeft(depth: Id -> nat) returns (t: Tables)
    requires depth("top") < depth("child")
    ensures Forest(t.nodes, depth) && NoOrphans(t.nodes)
    ensures !NoOrphans(CancelNodeAndCascade(t, "top", depth).nodes)
  {
    t := Tables(map["top" := Node(None, Running), "child" := Node(Some("top"), Running), "other" := Node(None, Running)],
                map[], Running, false, {});
    assert Active(t.nodes, "child") && Active(t.nodes, "other");
    assert Up(t.nodes, "top", 0) == Some("top") && Up(t.nodes, "top", 1) == None;
    assert ClimbsTo(t.nodes, "top", 0) && !EndsThread(t.nodes, "top", 0);
    ClimbUnique(t.nodes, "top");
    OrphansIff(t, "top", depth);
  }

  /** The caller of a task cancel may name any node, and it is that one whose tasks are counted
      and that is cancelled: the node that has lost its last active task stays active. */
  lemma StrayTaskCancel(task: Id, node: Id, named: Id, depth: Id -> nat) returns (t: Tables)
    requires named != "" && named != node
    ensures Forest(t.nodes, depth) && t.tasks == map[task := Task(node, Running)] && Active(t.nodes, node)
    ensures CancelTaskAndCascade(t, task, named, depth) == t.(tasks := map[task := Task(node, Cancelled)])
  {
    t := Tables(map[node := Node(None, Running)], map[task := Task(node, Running)], Running, false, {});
    var t' := CancelTaskRow(t, task);
    assert t' == t.(tasks := map[task := Task(node, Cancelled)]);
    assert CancelNodeRows(t', named) == t';
    assert Active(t'.nodes, node) && HasActiveTop(t'.nodes);
  }
}
