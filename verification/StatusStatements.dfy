/** The guarded status statements on `fin_agents.nodes` and `fin_agents.tasks`
    (backend/db/postgres/queries/fin_agents.py), alone and in any sequence. */
module StatusStatements {
  import opened Statuses

  type Id = string

  datatype Node = Node(thread: Id, status: Status)

  datatype Task = Task(thread: Id, node: Id, status: Status)

  datatype Tables = Tables(nodes: map<Id, Node>, tasks: map<Id, Task>)

  /** `SetNode` is UPDATE_STATUS or UPDATE_COMPLETED of `NodeSQL`, `SetTask` UPDATE_COMPLETED
      of `TaskSQL`. */
  datatype Statement =
    | UpsertNode(id: Id, thread: Id)
    | SetNode(id: Id, thread: Id, status: Status)
    | CancelNode(id: Id, thread: Id)
    | CancelNodesOfThread(thread: Id)
    | InsertTask(id: Id, thread: Id, node: Id)
    | SetTask(id: Id, thread: Id, status: Status)
    | CancelTask(id: Id, thread: Id)
    | CancelTasksOfNode(node: Id, thread: Id)
    | CancelTasksOfThread(thread: Id)

  /** The WHERE clause of an update, on a node and on a task. */
  predicate NodeMatches(s: Statement, id: Id, row: Node) {
    && !Terminal(row.status)
    && match s
       case SetNode(i, thread, _) => id == i && row.thread == thread
       case CancelNode(i, thread) => id == i && row.thread == thread
       case CancelNodesOfThread(thread) => row.thread == thread
       case UpsertNode(i, _) => id == i
       case _ => false
  }

  predicate TaskMatches(s: Statement, id: Id, row: Task) {
    && !Terminal(row.status)
    && match s
       case SetTask(i, thread, _) => id == i && row.thread == thread
       case CancelTask(i, thread) => id == i && row.thread == thread
       case CancelTasksOfNode(node, thread) => row.node == node && row.thread == thread
       case CancelTasksOfThread(thread) => row.thread == thread
       case _ => false
  }

  /** The status that a matching row gets. */
  function NewStatus(s: Statement): Status {
    match s
    case SetNode(_, _, status) => status
    case SetTask(_, _, status) => status
    case UpsertNode(_, _) => Running
    case InsertTask(_, _, _) => Running
    case _ => Cancelled
  }

  predicate Cancels(s: Statement) {
    s.CancelNode? || s.CancelNodesOfThread? || s.CancelTask? || s.CancelTasksOfNode? || s.CancelTasksOfThread?
  }

  function Execute(t: Tables, s: Statement): Tables {
    var updated := Tables(
      map id | id in t.nodes :: if NodeMatches(s, id, t.nodes[id]) then t.nodes[id].(status := NewStatus(s)) else t.nodes[id],
      map id | id in t.tasks :: if TaskMatches(s, id, t.tasks[id]) then t.tasks[id].(status := NewStatus(s)) else t.tasks[id]);
    match s
    case UpsertNode(id, thread) =>
      if id in t.nodes then updated else updated.(nodes := updated.nodes[id := Node(thread, Running)])
    case InsertTask(id, thread, node) =>
      if id in t.tasks then updated else updated.(tasks := updated.tasks[id := Task(thread, node, Running)])
    case _ => updated
  }

  /** The RETURNING sets of a cancel. */
  function ReturnedNodes(t: Tables, s: Statement): set<Id> {
    if Cancels(s) then set id | id in t.nodes && NodeMatches(s, id, t.nodes[id]) else {}
  }

  function ReturnedTasks(t: Tables, s: Statement): set<Id> {
    if Cancels(s) then set id | id in t.tasks && TaskMatches(s, id, t.tasks[id]) else {}
  }

  /** The two tables, updated in place. */
  class Database {
    var nodes: map<Id, Node>
    var tasks: map<Id, Task>

    constructor ()
      ensures View() == Tables(map[], map[])
    {
      nodes, tasks := map[], map[];
    }

    ghost function View(): Tables
      reads this
    {
      Tables(nodes, tasks)
    }

    /** NodeSQL.UPSERT: a conflicting row keeps a terminal status. */
    method Upsert(id: Id, thread: Id)
      modifies this`nodes
      ensures View() == Execute(old(View()), UpsertNode(id, thread))
    {
      if id !in nodes {
        nodes := nodes[id := Node(thread, Running)];
      } else if !Terminal(nodes[id].status) {
        nodes := nodes[id := nodes[id].(status := Running)];
      }
    }

    /** NodeSQL.UPDATE_STATUS and UPDATE_COMPLETED. */
    method UpdateNode(id: Id, thread: Id, status: Status)
      modifies this`nodes
      ensures View() == Execute(old(View()), SetNode(id, thread, status))
    {
      if id in nodes && nodes[id].thread == thread && !Terminal(nodes[id].status) {
        nodes := nodes[id := nodes[id].(status := status)];
      }
    }

    /** NodeSQL.CANCEL_ALL_ACTIVE_BY_THREAD. */
    method CancelAllActiveNodes(thread: Id) returns (returned: set<Id>)
      modifies this`nodes
      ensures View() == Execute(old(View()), CancelNodesOfThread(thread))
      ensures returned == ReturnedNodes(old(View()), CancelNodesOfThread(thread))
    {
      returned := set id | id in nodes && nodes[id].thread == thread && !Terminal(nodes[id].status);
      nodes := map id | id in nodes :: if id in returned then nodes[id].(status := Cancelled) else nodes[id];
    }

    /** TaskSQL.INSERT: a conflict changes nothing. */
    method Insert(id: Id, thread: Id, node: Id)
      modifies this`tasks
      ensures View() == Execute(old(View()), InsertTask(id, thread, node))
    {
      if id !in tasks {
        tasks := tasks[id := Task(thread, node, Running)];
      }
    }

    /** TaskSQL.CANCEL_ALL_ACTIVE_BY_NODE. */
    method CancelAllActiveTasks(node: Id, thread: Id) returns (returned: set<Id>)
      modifies this`tasks
      ensures View() == Execute(old(View()), CancelTasksOfNode(node, thread))
      ensures returned == ReturnedTasks(old(View()), CancelTasksOfNode(node, thread))
    {
      returned := set id | id in tasks && tasks[id].node == node && tasks[id].thread == thread && !Terminal(tasks[id].status);
      tasks := map id | id in tasks :: if id in returned then tasks[id].(status := Cancelled) else tasks[id];
    }
  }

  /** What a statement does to a row, with the statuses written out: it can only change a row
      that is pending, running or paused, of the thread it names; an upsert goes by the id alone
      and makes the row if there is none. */
  lemma StatementsFindNode(t: Tables, s: Statement, id: Id)
    ensures var t' := Execute(t, s);
      && (id in t'.nodes <==> id in t.nodes || (s.UpsertNode? && s.id == id))
      && (id in t'.nodes && id !in t.nodes ==> t'.nodes[id] == Node(s.thread, Running))
      && (id in t.nodes ==>
            var Node(thread, status) := t.nodes[id];
            var active := status in {Pending, Running, Paused};
            t'.nodes[id] ==
              if s.UpsertNode? && s.id == id && active then Node(thread, Running)
              else if s == SetNode(id, thread, if s.SetNode? then s.status else Running) && active then Node(thread, s.status)
              else if (s == CancelNode(id, thread) || s == CancelNodesOfThread(thread)) && active then Node(thread, Cancelled)
              else t.nodes[id])
  {
  }

  lemma StatementsFindTask(t: Tables, s: Statement, id: Id)
    ensures var t' := Execute(t, s);
      && (id in t'.tasks <==> id in t.tasks || (s.InsertTask? && s.id == id))
      && (id in t'.tasks && id !in t.tasks ==> t'.tasks[id] == Task(s.thread, s.node, Running))
      && (id in t.tasks ==>
            var Task(thread, node, status) := t.tasks[id];
            var active := status in {Pending, Running, Paused};
            t'.tasks[id] ==
              if s == SetTask(id, thread, if s.SetTask? then s.status else Running) && active then Task(thread, node, s.status)
              else if (s == CancelTask(id, thread) || s == CancelTasksOfNode(node, thread) || s == CancelTasksOfThread(thread)) && active
              then Task(thread, node, Cancelled)
              else t.tasks[id])
  {
  }

  /** A cancel returns exactly the rows that it takes to cancelled, and nothing else returns. */
  lemma ReturnedIffCancelled(t: Tables, s: Statement, id: Id)
    ensures var t' := Execute(t, s);
      && (id in ReturnedNodes(t, s) <==> id in t.nodes && t'.nodes[id] != t.nodes[id] && !s.SetNode? && !s.UpsertNode?)
      && (id in ReturnedTasks(t, s) <==> id in t.tasks && t'.tasks[id] != t.tasks[id] && !s.SetTask?)
      && (id in ReturnedNodes(t, s) ==> t'.nodes[id].status == Cancelled)
      && (id in ReturnedTasks(t, s) ==> t'.tasks[id].status == Cancelled)
  {
  }

  // ---------------------------------------------------------------------------------------
  // Sequences of statements

  function ExecuteAll(t: Tables, ss: seq<Statement>): Tables
    decreases |ss|
  {
    if ss == [] then t else ExecuteAll(Execute(t, ss[0]), ss[1..])
  }

  /** A terminal status never changes again, whatever statements follow. */
  lemma {:induction false} TerminalAbsorbs(t: Tables, ss: seq<Statement>)
    ensures var t' := ExecuteAll(t, ss);
      && (forall id | id in t.nodes && Terminal(t.nodes[id].status) :: id in t'.nodes && t'.nodes[id] == t.nodes[id])
      && (forall id | id in t.tasks && Terminal(t.tasks[id].status) :: id in t'.tasks && t'.tasks[id] == t.tasks[id])
    decreases |ss|
  {
    if ss != [] {
      TerminalAbsorbs(Execute(t, ss[0]), ss[1..]);
    }
  }

  /** The RETURNING sets of statement `i` in a sequence. */
  function NodesReturnedAt(t: Tables, ss: seq<Statement>, i: nat): set<Id>
    requires i < |ss|
    decreases |ss|
  {
    if i == 0 then ReturnedNodes(t, ss[0]) else NodesReturnedAt(Execute(t, ss[0]), ss[1..], i - 1)
  }

  function TasksReturnedAt(t: Tables, ss: seq<Statement>, i: nat): set<Id>
    requires i < |ss|
    decreases |ss|
  {
    if i == 0 then ReturnedTasks(t, ss[0]) else TasksReturnedAt(Execute(t, ss[0]), ss[1..], i - 1)
  }

  /** A row that is terminal is returned by no later cancel. */
  lemma {:induction false} TerminalNotReturned(t: Tables, ss: seq<Statement>, i: nat)
    requires i < |ss|
    ensures forall id | id in t.nodes && Terminal(t.nodes[id].status) :: id !in NodesReturnedAt(t, ss, i)
    ensures forall id | id in t.tasks && Terminal(t.tasks[id].status) :: id !in TasksReturnedAt(t, ss, i)
    decreases |ss|
  {
    if i > 0 {
      TerminalAbsorbs(t, [ss[0]]);
      assert ExecuteAll(t, [ss[0]]) == Execute(t, ss[0]);
      TerminalNotReturned(Execute(t, ss[0]), ss[1..], i - 1);
    }
  }

  /** Over any sequence of statements each node and each task is in the RETURNING set of at
      most one cancel, so its cancellation is announced at most once. */
  lemma {:induction false} CancelReturnedOnce(t: Tables, ss: seq<Statement>, i: nat, j: nat)
    requires i < j < |ss|
    ensures NodesReturnedAt(t, ss, i) !! NodesReturnedAt(t, ss, j)
    ensures TasksReturnedAt(t, ss, i) !! TasksReturnedAt(t, ss, j)
    decreases |ss|
  {
    if i == 0 {
      TerminalNotReturned(Execute(t, ss[0]), ss[1..], j - 1);
    } else {
      CancelReturnedOnce(Execute(t, ss[0]), ss[1..], i - 1, j - 1);
    }
  }

  /** TaskSQL.ALL_TASKS_TERMINAL_FOR_NODE. */
  predicate AllTasksTerminal(t: Tables, node: Id, thread: Id) {
    forall id | id in t.tasks && t.tasks[id].node == node && t.tasks[id].thread == thread :: Terminal(t.tasks[id].status)
  }

  /** The statements insert a task for the node that is not there yet. */
  predicate InsertsTask(t: Tables, ss: seq<Statement>, node: Id, thread: Id)
    decreases |ss|
  {
    ss != [] &&
    ((ss[0].InsertTask? && ss[0].id !in t.tasks && ss[0].node == node && ss[0].thread == thread)
     || InsertsTask(Execute(t, ss[0]), ss[1..], node, thread))
  }

  /** Some prefix of the statements leaves an active task for the node. */
  predicate EverActive(t: Tables, ss: seq<Statement>, node: Id, thread: Id)
    decreases |ss|
  {
    !AllTasksTerminal(t, node, thread) || (ss != [] && EverActive(Execute(t, ss[0]), ss[1..], node, thread))
  }

  /** Once all tasks of a node are terminal, that stays true throughout a sequence of statements
      exactly if none of them inserts a new task for the node. */
  lemma {:induction false} AllTerminalUntilInsert(t: Tables, ss: seq<Statement>, node: Id, thread: Id)
    requires AllTasksTerminal(t, node, thread)
    ensures !EverActive(t, ss, node, thread) <==> !InsertsTask(t, ss, node, thread)
    decreases |ss|
  {
    if ss != [] {
      var s, next := ss[0], Execute(t, ss[0]);
      if s.InsertTask? && s.id !in t.tasks && s.node == node && s.thread == thread {
        assert next.tasks[s.id] == Task(thread, node, Running);
      } else {
        AllTerminalUntilInsert(next, ss[1..], node, thread);
      }
    }
  }
}
