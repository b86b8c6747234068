/** Any number of node and task cancels of one thread at once
    (backend/users/queries/lifecycle.py, backend/users/queries/_helpers.py): a transition system
    in which each statement of each cancel and its cascade is a step of its own. */
module ConcurrentCancels {
  import opened Options
  import opened Statuses
  import opened Cascade

  /** Where a cancel and its cascade stand. `Fetching` has counted no active task of the node,
      or no active child, and reads its parent; `CancellingTasks` and `CancellingNode` are the
      two statements of the lifecycle's cancel, on a connection that commits each at once, and
      `EndingTasks` and `EndingThread` those of the thread's. */
  datatype Pc =
    | CancellingTask(task: Id, owner: Id)
    | CountingTasks(node: Id)
    | Fetching(node: Id)
    | CancellingTasks(node: Id, parent: Option<Id>)
    | CancellingNode(node: Id, parent: Option<Id>)
    | Counting(parent: Option<Id>)
    | EndingTasks
    | EndingThread
    | Finished

  /** `named`: the nodes and `namedTasks`: the tasks that users asked to cancel. `targets`: the
      nodes that a cancel was issued on. `owners`: the nodes on whose behalf a task cancel was,
      and `strays`: those that lost a task to one on behalf of another node, which the caller
      may name. `announced`: the RETURNING sets of all of them, added up. */
  datatype State = State(
    nodes: map<Id, Node>, tasks: map<Id, Task>, calls: map<nat, Pc>,
    named: set<Id>, namedTasks: set<Id>, targets: set<Id>, owners: set<Id>, strays: set<Id>,
    announced: multiset<Id>, announcedTasks: multiset<Id>, ending: bool, ended: bool)

  /** `SpawnTask` with an empty `node` looks the task's node up. */
  datatype Step = Spawn(call: nat, node: Id) | SpawnTask(call: nat, task: Id, node: Id) | Advance(call: nat)

  function Start(nodes: map<Id, Node>, tasks: map<Id, Task>): State {
    State(nodes, tasks, map[], {}, {}, {}, {}, {}, multiset{}, multiset{}, false, false)
  }

  predicate Enabled(s: State, step: Step) {
    match step
    case Spawn(call, _) => call !in s.calls
    case SpawnTask(call, _, _) => call !in s.calls
    case Advance(call) => call in s.calls && !s.calls[call].Finished?
  }

  predicate ActiveTask(tasks: map<Id, Task>, task: Id) {
    task in tasks && !Terminal(tasks[task].status)
  }

  function CancelRow(nodes: map<Id, Node>, node: Id): map<Id, Node> {
    if Active(nodes, node) then nodes[node := nodes[node].(status := Cancelled)] else nodes
  }

  function CancelAll(nodes: map<Id, Node>): map<Id, Node> {
    map id | id in nodes :: nodes[id].(status := Cancel(nodes[id].status))
  }

  function ActiveNodes(nodes: map<Id, Node>): set<Id> {
    set id | id in nodes && Active(nodes, id)
  }

  /** The tasks that a statement finds active: one, those of a node, or all. */
  function Found(tasks: map<Id, Task>, pc: Pc): set<Id> {
    set id | id in tasks && ActiveTask(tasks, id) &&
      match pc {
        case CancellingTask(task, _) => id == task
        case CancellingTasks(node, _) => tasks[id].node == node
        case EndingTasks => true
        case _ => false
      }
  }

  function CancelTasks(tasks: map<Id, Task>, ids: set<Id>): map<Id, Task> {
    map id | id in tasks :: if id in ids then tasks[id].(status := Cancelled) else tasks[id]
  }

  /** A statement that cancels the tasks that it finds. */
  function TaskStatement(s: State, call: nat): State
    requires call in s.calls
  {
    var pc, found := s.calls[call], Found(s.tasks, s.calls[call]);
    s.(tasks := CancelTasks(s.tasks, found), announcedTasks := s.announcedTasks + multiset(found),
       calls := s.calls[call := AfterTasks(pc)],
       owners := if pc.CancellingTask? && pc.owner != "" then s.owners + {pc.owner} else s.owners,
       strays := if pc.CancellingTask? then s.strays + set id | id in found && s.tasks[id].node != pc.owner :: s.tasks[id].node
                 else s.strays,
       ending := s.ending || pc.EndingTasks?)
  }

  function AfterTasks(pc: Pc): Pc {
    match pc
    case CancellingTask(_, owner) => if owner == "" then Finished else CountingTasks(owner)
    case CancellingTasks(node, parent) => CancellingNode(node, parent)
    case _ => EndingThread
  }

  function NodeStatement(s: State, call: nat): State
    requires call in s.calls && s.calls[call].CancellingNode?
  {
    var node := s.calls[call].node;
    s.(nodes := CancelRow(s.nodes, node), calls := s.calls[call := Counting(s.calls[call].parent)],
       targets := s.targets + {node},
       announced := if Active(s.nodes, node) then s.announced + multiset{node} else s.announced)
  }

  function EndStatement(s: State, call: nat): State {
    s.(nodes := CancelAll(s.nodes), calls := s.calls[call := Finished],
       announced := s.announced + multiset(ActiveNodes(s.nodes)), ended := true)
  }

  /** Where a call stands after it has read what it asks for. */
  function AfterRead(s: State, pc: Pc): Pc {
    match pc
    case CountingTasks(node) => if HasActiveTask(s.tasks, node) then Finished else Fetching(node)
    case Fetching(node) => CancellingTasks(node, Parent(s.nodes, node))
    case Counting(Some(p)) => if HasActiveChild(s.nodes, p) then Finished else Fetching(p)
    case Counting(None) => if HasActiveTop(s.nodes) then Finished else EndingTasks
    case _ => pc
  }

  function Apply(s: State, step: Step): State
    requires Enabled(s, step)
  {
    match step
    case Spawn(call, node) =>
      s.(calls := s.calls[call := CancellingTasks(node, Parent(s.nodes, node))], named := s.named + {node})
    case SpawnTask(call, task, node) =>
      var owner := if node != "" then node else if task in s.tasks then s.tasks[task].node else "";
      s.(calls := s.calls[call := CancellingTask(task, owner)], namedTasks := s.namedTasks + {task})
    case Advance(call) =>
      match s.calls[call]
      case CancellingTask(_, _) => TaskStatement(s, call)
      case CancellingTasks(_, _) => TaskStatement(s, call)
      case EndingTasks => TaskStatement(s, call)
      case CancellingNode(_, _) => NodeStatement(s, call)
      case EndingThread => EndStatement(s, call)
      case pc => s.(calls := s.calls[call := AfterRead(s, pc)])
  }

  ghost predicate Valid(nodes: map<Id, Node>, tasks: map<Id, Task>, steps: seq<Step>)
    decreases |steps|, 0
  {
    steps == [] ||
    (var before := steps[..|steps| - 1];
     Valid(nodes, tasks, before) && Enabled(After(nodes, tasks, before), steps[|steps| - 1]))
  }

  ghost function After(nodes: map<Id, Node>, tasks: map<Id, Task>, steps: seq<Step>): State
    requires Valid(nodes, tasks, steps)
    decreases |steps|, 1
  {
    if steps == [] then Start(nodes, tasks) else Apply(After(nodes, tasks, steps[..|steps| - 1]), steps[|steps| - 1])
  }

  // ----- The invariant

  /** Rows keep their parents, and their status unless they were announced: once, and then they
      are cancelled. */
  ghost predicate RowsOk(start: map<Id, Node>, nodes: map<Id, Node>, announced: multiset<Id>) {
    && nodes.Keys == start.Keys
    && (forall id :: announced[id] <= 1)
    && (forall id | id in announced :: id in nodes && Active(start, id))
    && forall id | id in nodes :: nodes[id] == if id in announced then start[id].(status := Cancelled) else start[id]
  }

  ghost predicate TasksOk(start: map<Id, Task>, tasks: map<Id, Task>, announced: multiset<Id>) {
    && tasks.Keys == start.Keys
    && (forall id :: announced[id] <= 1)
    && (forall id | id in announced :: id in tasks && ActiveTask(start, id))
    && forall id | id in tasks :: tasks[id] == if id in announced then start[id].(status := Cancelled) else start[id]
  }

  predicate HasChildIn(nodes: map<Id, Node>, parent: Id, ids: set<Id>) {
    exists id | id in ids :: id in nodes && nodes[id].parent == Some(parent)
  }

  /** A user asked for it, or the cascade reached it from a child and found no active one, or a
      task cancel on its behalf found no active task. */
  predicate Called(s: State, id: Id) {
    || id in s.named
    || (!HasActiveChild(s.nodes, id) && HasChildIn(s.nodes, id, s.targets))
    || (id in s.owners && !HasActiveTask(s.tasks, id))
  }

  ghost predicate CallOk(s: State, pc: Pc) {
    match pc
    case CancellingTask(task, _) => task in s.namedTasks
    case CountingTasks(node) => node in s.owners
    case Fetching(node) => Called(s, node)
    case CancellingTasks(node, parent) => parent == Parent(s.nodes, node) && Called(s, node)
    case CancellingNode(node, parent) => parent == Parent(s.nodes, node) && Called(s, node) && !HasActiveTask(s.tasks, node)
    case Counting(parent) => parent.Some? ==> HasChildIn(s.nodes, parent.value, s.targets)
    case EndingTasks => !HasActiveTop(s.nodes)
    case EndingThread => !HasActiveTop(s.nodes) && s.ending
    case Finished => true
  }

  ghost predicate CallsOk(s: State) {
    forall call | call in s.calls :: CallOk(s, s.calls[call])
  }

  predicate OnNode(pc: Pc, node: Id) {
    (pc.Fetching? || pc.CancellingTasks? || pc.CancellingNode?) && pc.node == node
  }

  /** The call will see to this parent, or to the thread. */
  predicate SeesTo(pc: Pc, parent: Option<Id>) {
    || pc == Counting(parent)
    || (parent.Some? && OnNode(pc, parent.value))
    || (parent.None? && (pc.EndingTasks? || pc.EndingThread?))
  }

  ghost predicate SeenTo(calls: map<nat, Pc>, parent: Option<Id>) {
    exists call | call in calls :: SeesTo(calls[call], parent)
  }

  /** The call will see to this node, whose tasks are all over. */
  predicate Attends(pc: Pc, node: Id) {
    pc == CountingTasks(node) || OnNode(pc, node) || pc.EndingThread?
  }

  ghost predicate Attended(calls: map<nat, Pc>, node: Id) {
    exists call | call in calls :: Attends(calls[call], node)
  }

  /** A child of the parent, or a top-level node for None, was announced. */
  ghost predicate Touched(nodes: map<Id, Node>, announced: multiset<Id>, parent: Option<Id>) {
    exists id | id in announced :: id in nodes && nodes[id].parent == parent
  }

  /** The parent has lost its last active child, or the thread its last active top-level node,
      and is still to be cancelled. */
  ghost predicate Due(s: State, parent: Option<Id>) {
    && Touched(s.nodes, s.announced, parent)
    && if parent.Some? then Active(s.nodes, parent.value) && !HasActiveChild(s.nodes, parent.value)
       else !s.ended && !HasActiveTop(s.nodes)
  }

  /** The node has lost its last active task, a cancel on its behalf has been executed, and it
      is still to be cancelled. */
  ghost predicate TasksDue(s: State, node: Id) {
    node in s.owners && node !in s.strays && Active(s.nodes, node) && !HasActiveTask(s.tasks, node)
  }

  ghost predicate DuesOk(s: State) {
    && "" !in s.owners
    && (forall parent | Due(s, parent) :: SeenTo(s.calls, parent))
    && (forall node | TasksDue(s, node) :: Attended(s.calls, node))
    && (s.ended ==> forall id :: !Active(s.nodes, id))
  }

  /** Why a task was cancelled. */
  predicate TaskCalled(s: State, id: Id) {
    s.ending || id in s.namedTasks || (id in s.tasks && Called(s, s.tasks[id].node))
  }

  ghost predicate ReasonsOk(s: State) {
    && (forall id | id in s.announced :: s.ended || Called(s, id))
    && (forall id | id in s.announcedTasks :: TaskCalled(s, id))
  }

  /** A node that was cancelled has no active task left, nor has a thread that has ended. */
  ghost predicate TasksFirst(s: State) {
    && (forall id | id in s.announced :: !HasActiveTask(s.tasks, id))
    && (s.ended ==> s.ending)
    && (s.ending ==> forall id :: !ActiveTask(s.tasks, id))
  }

  ghost predicate Inv(nodes: map<Id, Node>, tasks: map<Id, Task>, s: State) {
    && RowsOk(nodes, s.nodes, s.announced) && TasksOk(tasks, s.tasks, s.announcedTasks)
    && CallsOk(s) && ReasonsOk(s) && DuesOk(s) && TasksFirst(s)
  }

  // ----- What any step keeps

  /** Rows stay, and active ones may cease to be. */
  ghost predicate Quieter(before: map<Id, Node>, after: map<Id, Node>) {
    && before.Keys == after.Keys
    && forall id | id in before :: after[id].parent == before[id].parent && (Active(after, id) ==> Active(before, id))
  }

  ghost predicate QuieterTasks(before: map<Id, Task>, after: map<Id, Task>) {
    && before.Keys == after.Keys
    && forall id | id in before :: after[id].node == before[id].node && (ActiveTask(after, id) ==> ActiveTask(before, id))
  }

  ghost predicate Calmer(s: State, s': State) {
    && Quieter(s.nodes, s'.nodes) && QuieterTasks(s.tasks, s'.tasks)
    && s.named <= s'.named && s.namedTasks <= s'.namedTasks && s.targets <= s'.targets && s.owners <= s'.owners
    && (s.ending ==> s'.ending) && (s.ended ==> s'.ended)
  }

  lemma CalmKeepsChild(s: State, s': State, parent: Id)
    requires Calmer(s, s') && HasChildIn(s.nodes, parent, s.targets)
    ensures HasChildIn(s'.nodes, parent, s'.targets)
  {
    var c :| c in s.targets && c in s.nodes && s.nodes[c].parent == Some(parent);
    assert c in s'.targets;
  }

  lemma CalmKeepsTasksOver(s: State, s': State, node: Id)
    requires Calmer(s, s') && !HasActiveTask(s.tasks, node)
    ensures !HasActiveTask(s'.tasks, node)
  {
    forall id | id in s'.tasks && s'.tasks[id].node == node ensures Terminal(s'.tasks[id].status) {
      assert ActiveTask(s'.tasks, id) ==> ActiveTask(s.tasks, id);
    }
  }

  lemma CalmKeepsCalled(s: State, s': State, id: Id)
    requires Calmer(s, s') && Called(s, id)
    ensures Called(s', id)
  {
    if !HasActiveChild(s.nodes, id) && HasChildIn(s.nodes, id, s.targets) {
      CalmKeepsChild(s, s', id);
    } else if id in s.owners && !HasActiveTask(s.tasks, id) {
      CalmKeepsTasksOver(s, s', id);
    }
  }

  lemma CalmKeepsCallOk(s: State, s': State, pc: Pc)
    requires Calmer(s, s') && CallOk(s, pc)
    ensures CallOk(s', pc)
  {
    match pc
    case Fetching(node) => CalmKeepsCalled(s, s', node);
    case CancellingTasks(node, _) => CalmKeepsCalled(s, s', node);
    case CancellingNode(node, _) => CalmKeepsCalled(s, s', node);
    case Counting(parent) => if parent.Some? { CalmKeepsChild(s, s', parent.value); }
    case _ =>
  }

  lemma CallsKept(s: State, s': State, call: nat, pc: Pc)
    requires CallsOk(s) && Calmer(s, s') && s'.calls == s.calls[call := pc] && CallOk(s', pc)
    ensures CallsOk(s')
  {
    hide Calmer, CallOk;
    forall c | c in s'.calls ensures CallOk(s', s'.calls[c]) {
      if c != call {
        CalmKeepsCallOk(s, s', s.calls[c]);
      }
    }
  }

  lemma CalmKeepsReasons(s: State, s': State)
    requires ReasonsOk(s) && Calmer(s, s')
    requires s'.announced == s.announced && s'.announcedTasks == s.announcedTasks
    ensures ReasonsOk(s')
  {
    forall id | id in s'.announced ensures s'.ended || Called(s', id) {
      if !s.ended {
        CalmKeepsCalled(s, s', id);
      }
    }
    forall id | id in s'.announcedTasks ensures TaskCalled(s', id) {
      if id in s.tasks && Called(s, s.tasks[id].node) {
        CalmKeepsCalled(s, s', s.tasks[id].node);
      }
    }
  }

  /** What is due, and was not seen to by this call before, is still seen to. */
  lemma SeenMoves(calls: map<nat, Pc>, call: nat, pc: Pc, parent: Option<Id>)
    requires SeenTo(calls, parent) && (call in calls && SeesTo(calls[call], parent) ==> SeesTo(pc, parent))
    ensures SeenTo(calls[call := pc], parent)
  {
    var c :| c in calls && SeesTo(calls[c], parent);
    var moved := calls[call := pc];
    assert if c == call then SeesTo(moved[call], parent) else SeesTo(moved[c], parent);
  }

  lemma AttendedMoves(calls: map<nat, Pc>, call: nat, pc: Pc, node: Id)
    requires Attended(calls, node) && (call in calls && Attends(calls[call], node) ==> Attends(pc, node))
    ensures Attended(calls[call := pc], node)
  {
    var c :| c in calls && Attends(calls[c], node);
    var moved := calls[call := pc];
    assert if c == call then Attends(moved[call], node) else Attends(moved[c], node);
  }

  /** A call moves to a point that sees to whatever becomes due, and to what it saw to and is
      still due. */
  ghost predicate Hands(s: State, s': State, call: nat, pc: Pc) {
    && (forall parent | Due(s', parent) ::
          SeesTo(pc, parent) || (Due(s, parent) && !(call in s.calls && SeesTo(s.calls[call], parent))))
    && (forall node | TasksDue(s', node) ::
          Attends(pc, node) || (TasksDue(s, node) && !(call in s.calls && Attends(s.calls[call], node))))
    && (s'.ended ==> forall id :: !Active(s'.nodes, id))
    && "" !in s'.owners
  }

  lemma DuesKept(s: State, s': State, call: nat, pc: Pc)
    requires DuesOk(s) && s'.calls == s.calls[call := pc] && Hands(s, s', call, pc)
    ensures DuesOk(s')
  {
    hide Due, TasksDue, SeesTo, Attends;
    forall parent | Due(s', parent) ensures SeenTo(s'.calls, parent) {
      if SeesTo(pc, parent) {
        assert SeesTo(s'.calls[call], parent);
      } else {
        SeenMoves(s.calls, call, pc, parent);
      }
    }
    forall node | TasksDue(s', node) ensures Attended(s'.calls, node) {
      if Attends(pc, node) {
        assert Attends(s'.calls[call], node);
      } else {
        AttendedMoves(s.calls, call, pc, node);
      }
    }
  }

  // ----- The steps that only read

  lemma ReadHands(s: State, s': State, call: nat, pc: Pc)
    requires DuesOk(s) && s'.calls == s.calls[call := pc]
    requires s' == s.(calls := s'.calls, named := s'.named, namedTasks := s'.namedTasks)
    requires call in s.calls && !s.calls[call].Finished? ==> pc == AfterRead(s, s.calls[call]) && pc != s.calls[call]
    requires call in s.calls ==> !s.calls[call].EndingThread? && !s.calls[call].EndingTasks?
    ensures Hands(s, s', call, pc)
  {
    forall parent | Due(s', parent) && call in s.calls && SeesTo(s.calls[call], parent) ensures SeesTo(pc, parent) {
      assert Due(s, parent);
    }
    forall node | TasksDue(s', node) && call in s.calls && Attends(s.calls[call], node) ensures Attends(pc, node) {
      assert TasksDue(s, node);
    }
  }

  lemma ReadKeepsInv(nodes: map<Id, Node>, tasks: map<Id, Task>, s: State, s': State, call: nat, pc: Pc)
    requires Inv(nodes, tasks, s) && s'.calls == s.calls[call := pc] && CallOk(s', pc)
    requires s' == s.(calls := s'.calls, named := s'.named, namedTasks := s'.namedTasks)
    requires s.named <= s'.named && s.namedTasks <= s'.namedTasks && Hands(s, s', call, pc)
    ensures Inv(nodes, tasks, s')
  {
    assert Calmer(s, s');
    hide Calmer, CallsOk, ReasonsOk, DuesOk, Hands, CallOk;
    CallsKept(s, s', call, pc);
    CalmKeepsReasons(s, s');
    DuesKept(s, s', call, pc);
  }

  lemma SpawnKeepsInv(nodes: map<Id, Node>, tasks: map<Id, Task>, s: State, step: Step)
    requires Inv(nodes, tasks, s) && Enabled(s, step) && !step.Advance?
    ensures Inv(nodes, tasks, Apply(s, step))
  {
    var s' := Apply(s, step);
    ReadHands(s, s', step.call, s'.calls[step.call]);
    ReadKeepsInv(nodes, tasks, s, s', step.call, s'.calls[step.call]);
  }

  predicate Reads(pc: Pc) {
    pc.CountingTasks? || pc.Fetching? || pc.Counting?
  }

  lemma ReadsOn(s: State, call: nat)
    requires CallsOk(s) && call in s.calls && Reads(s.calls[call])
    ensures CallOk(Apply(s, Advance(call)), AfterRead(s, s.calls[call]))
  {
    var s', pc := Apply(s, Advance(call)), s.calls[call];
    assert CallOk(s, pc);
    if pc.Fetching? {
      CalmKeepsCalled(s, s', pc.node);
    } else if pc.Counting? && pc.parent.Some? {
      CalmKeepsChild(s, s', pc.parent.value);
    }
  }

  lemma MovesOn(s: State, pc: Pc)
    requires Reads(pc)
    ensures AfterRead(s, pc) != pc
  {
  }

  lemma AdvanceReads(nodes: map<Id, Node>, tasks: map<Id, Task>, s: State, call: nat)
    requires Inv(nodes, tasks, s) && call in s.calls && Reads(s.calls[call])
    ensures Inv(nodes, tasks, Apply(s, Advance(call)))
  {
    var s' := Apply(s, Advance(call));
    ReadsOn(s, call);
    assert s' == s.(calls := s.calls[call := AfterRead(s, s.calls[call])]);
    MovesOn(s, s.calls[call]);
    hide Apply, AfterRead, CallOk, CallsOk, ReasonsOk, RowsOk, TasksOk, Hands;
    ReadHands(s, s', call, s'.calls[call]);
    hide DuesOk;
    ReadKeepsInv(nodes, tasks, s, s', call, s'.calls[call]);
  }

  // ----- The statements on the tasks

  predicate OnTasks(pc: Pc) {
    pc.CancellingTask? || pc.CancellingTasks? || pc.EndingTasks?
  }

  lemma TasksStillDue(s: State, call: nat, node: Id)
    requires DuesOk(s) && call in s.calls && OnTasks(s.calls[call]) && TasksDue(TaskStatement(s, call), node)
    ensures Attends(AfterTasks(s.calls[call]), node) || (TasksDue(s, node) && !Attends(s.calls[call], node))
  {
    var s', found := TaskStatement(s, call), Found(s.tasks, s.calls[call]);
    if !Attends(AfterTasks(s.calls[call]), node) {
      forall id | id in s.tasks && s.tasks[id].node == node ensures Terminal(s.tasks[id].status) {
        assert id !in found;
        assert s'.tasks[id] == s.tasks[id];
      }
    }
  }

  lemma TasksHand(s: State, call: nat)
    requires DuesOk(s) && call in s.calls && OnTasks(s.calls[call])
    ensures Hands(s, TaskStatement(s, call), call, AfterTasks(s.calls[call]))
  {
    var s', pc := TaskStatement(s, call), s.calls[call];
    forall parent | Due(s', parent)
      ensures SeesTo(AfterTasks(pc), parent) || (Due(s, parent) && !SeesTo(pc, parent))
    {
      assert Due(s, parent);
    }
    forall node | TasksDue(s', node)
      ensures Attends(AfterTasks(pc), node) || (TasksDue(s, node) && !Attends(pc, node))
    {
      TasksStillDue(s, call, node);
    }
  }

  lemma TasksStayOk(tasks: map<Id, Task>, s: State, call: nat)
    requires TasksOk(tasks, s.tasks, s.announcedTasks) && call in s.calls
    ensures var s' := TaskStatement(s, call); TasksOk(tasks, s'.tasks, s'.announcedTasks) && Calmer(s, s')
  {
    forall id | id in Found(s.tasks, s.calls[call]) ensures id !in s.announcedTasks && ActiveTask(tasks, id) {
    }
  }

  lemma TasksHaveReasons(s: State, call: nat)
    requires ReasonsOk(s) && CallsOk(s) && call in s.calls && OnTasks(s.calls[call])
    requires Calmer(s, TaskStatement(s, call))
    ensures ReasonsOk(TaskStatement(s, call))
  {
    var s', pc := TaskStatement(s, call), s.calls[call];
    assert CallOk(s, pc);
    CalmKeepsReasons(s, s'.(announcedTasks := s.announcedTasks));
    forall id | id in Found(s.tasks, pc) ensures TaskCalled(s', id) {
      if pc.CancellingTasks? {
        CalmKeepsCalled(s, s', pc.node);
      }
    }
    forall id | id in s'.announcedTasks ensures TaskCalled(s', id) {
      if id !in Found(s.tasks, pc) {
        assert TaskCalled(s'.(announcedTasks := s.announcedTasks), id);
      }
    }
    forall id | id in s'.announced ensures s'.ended || Called(s', id) {
      assert s'.ended || Called(s'.(announcedTasks := s.announcedTasks), id);
    }
  }

  lemma TasksMoveOn(s: State, call: nat)
    requires call in s.calls && OnTasks(s.calls[call]) && CallOk(s, s.calls[call]) && Calmer(s, TaskStatement(s, call))
    ensures CallOk(TaskStatement(s, call), AfterTasks(s.calls[call]))
  {
    var s', pc := TaskStatement(s, call), s.calls[call];
    if pc.CancellingTasks? {
      CalmKeepsCalled(s, s', pc.node);
      hide Called, Calmer;
      forall id | id in s'.tasks && s'.tasks[id].node == pc.node ensures Terminal(s'.tasks[id].status) {
        assert id in Found(s.tasks, pc) || Terminal(s.tasks[id].status);
      }
    }
  }

  lemma TasksStayFirst(s: State, call: nat)
    requires TasksFirst(s) && call in s.calls && OnTasks(s.calls[call]) && Calmer(s, TaskStatement(s, call))
    ensures TasksFirst(TaskStatement(s, call))
  {
    var s', pc := TaskStatement(s, call), s.calls[call];
    forall id | id in s'.announced ensures !HasActiveTask(s'.tasks, id) {
      CalmKeepsTasksOver(s, s', id);
    }
    if s'.ending {
      forall id ensures !ActiveTask(s'.tasks, id) {
        assert ActiveTask(s'.tasks, id) ==> ActiveTask(s.tasks, id);
        assert pc.EndingTasks? && ActiveTask(s.tasks, id) ==> id in Found(s.tasks, pc);
      }
    }
  }

  lemma TasksKeepInv(nodes: map<Id, Node>, tasks: map<Id, Task>, s: State, call: nat)
    requires Inv(nodes, tasks, s) && call in s.calls && OnTasks(s.calls[call])
    ensures Inv(nodes, tasks, TaskStatement(s, call))
  {
    var s', pc := TaskStatement(s, call), s.calls[call];
    TasksStayOk(tasks, s, call);
    assert CallOk(s, pc);
    hide Calmer, CallsOk, ReasonsOk, DuesOk, TasksFirst, Hands, CallOk, Found, CancelTasks, RowsOk, TasksOk;
    TasksMoveOn(s, call);
    TasksStayFirst(s, call);
    CallsKept(s, s', call, AfterTasks(pc));
    TasksHaveReasons(s, call);
    TasksHand(s, call);
    DuesKept(s, s', call, AfterTasks(pc));
  }

  // ----- The statements on the nodes

  lemma StillDue(s: State, call: nat, parent: Option<Id>)
    requires call in s.calls && s.calls[call].CancellingNode?
    requires s.calls[call].parent == Parent(s.nodes, s.calls[call].node)
    requires Due(NodeStatement(s, call), parent) && parent != s.calls[call].parent
    ensures Due(s, parent) && !SeesTo(s.calls[call], parent)
  {
    var s', node := NodeStatement(s, call), s.calls[call].node;
    var id :| id in s'.announced && id in s'.nodes && s'.nodes[id].parent == parent;
    assert id != node || !Active(s.nodes, node);
    assert id in s.announced && s.nodes[id].parent == parent;
    forall c | c in s.nodes && s.nodes[c].parent == parent && Active(s.nodes, c) ensures Active(s'.nodes, c) {
      assert c != node;
    }
  }

  lemma NodeHands(s: State, call: nat)
    requires DuesOk(s) && CallsOk(s) && call in s.calls && s.calls[call].CancellingNode?
    ensures Hands(s, NodeStatement(s, call), call, Counting(s.calls[call].parent))
  {
    var s', pc := NodeStatement(s, call), s.calls[call];
    assert CallOk(s, pc);
    forall parent | Due(s', parent)
      ensures SeesTo(Counting(pc.parent), parent) || (Due(s, parent) && !SeesTo(pc, parent))
    {
      if parent != pc.parent {
        StillDue(s, call, parent);
      }
    }
    forall node | TasksDue(s', node) ensures TasksDue(s, node) && !Attends(pc, node) {
    }
  }

  lemma NodeStaysOk(nodes: map<Id, Node>, s: State, call: nat)
    requires RowsOk(nodes, s.nodes, s.announced) && call in s.calls && s.calls[call].CancellingNode?
    ensures var s' := NodeStatement(s, call); RowsOk(nodes, s'.nodes, s'.announced) && Calmer(s, s')
  {
    RowCancelled(nodes, s.nodes, s.announced, s.calls[call].node);
    hide RowsOk, CancelRow, Quieter;
  }

  lemma RowCancelled(start: map<Id, Node>, nodes: map<Id, Node>, announced: multiset<Id>, node: Id)
    requires RowsOk(start, nodes, announced)
    ensures Quieter(nodes, CancelRow(nodes, node))
    ensures RowsOk(start, CancelRow(nodes, node), if Active(nodes, node) then announced + multiset{node} else announced)
  {
    if Active(nodes, node) {
      assert node !in announced;
    }
  }

  lemma NodeHasReason(s: State, call: nat)
    requires ReasonsOk(s) && CallsOk(s) && call in s.calls && s.calls[call].CancellingNode?
    requires Calmer(s, NodeStatement(s, call))
    ensures ReasonsOk(NodeStatement(s, call))
  {
    var s', pc := NodeStatement(s, call), s.calls[call];
    assert CallOk(s, pc);
    CalmKeepsCalled(s, s', pc.node);
    CalmKeepsReasons(s, s'.(announced := s.announced));
    forall id | id in s'.announced ensures s'.ended || Called(s', id) {
      if id != pc.node {
        assert s'.ended || Called(s'.(announced := s.announced), id);
      }
    }
    forall id | id in s'.announcedTasks ensures TaskCalled(s', id) {
      assert TaskCalled(s'.(announced := s.announced), id);
    }
  }

  lemma NodeAfterTasks(s: State, call: nat)
    requires TasksFirst(s) && CallsOk(s) && call in s.calls && s.calls[call].CancellingNode?
    ensures TasksFirst(NodeStatement(s, call))
  {
    assert CallOk(s, s.calls[call]);
    hide HasActiveTask, ActiveTask;
  }

  lemma NodeMovesOn(s: State, call: nat)
    requires CallsOk(s) && call in s.calls && s.calls[call].CancellingNode? && Calmer(s, NodeStatement(s, call))
    ensures CallOk(NodeStatement(s, call), Counting(s.calls[call].parent))
  {
    var s', pc := NodeStatement(s, call), s.calls[call];
    assert CallOk(s, pc);
    assert pc.parent.Some? ==> pc.node in s'.targets && s'.nodes[pc.node].parent == pc.parent;
  }

  lemma NodeKeepsInv(nodes: map<Id, Node>, tasks: map<Id, Task>, s: State, call: nat)
    requires Inv(nodes, tasks, s) && call in s.calls && s.calls[call].CancellingNode?
    ensures Inv(nodes, tasks, NodeStatement(s, call))
  {
    var s', pc := NodeStatement(s, call), s.calls[call];
    NodeStaysOk(nodes, s, call);
    hide Calmer, CallsOk, ReasonsOk, DuesOk, TasksFirst, Hands, CallOk, CancelRow, RowsOk, TasksOk;
    NodeMovesOn(s, call);
    NodeAfterTasks(s, call);
    CallsKept(s, s', call, Counting(pc.parent));
    NodeHasReason(s, call);
    NodeHands(s, call);
    DuesKept(s, s', call, Counting(pc.parent));
  }

  lemma EndStaysOk(nodes: map<Id, Node>, s: State, call: nat)
    requires RowsOk(nodes, s.nodes, s.announced)
    ensures var s' := EndStatement(s, call);
      RowsOk(nodes, s'.nodes, s'.announced) && Calmer(s, s') && forall id :: !Active(s'.nodes, id)
  {
    forall id | id in ActiveNodes(s.nodes) ensures id !in s.announced && Active(nodes, id) {
    }
  }

  lemma EndKeepsInv(nodes: map<Id, Node>, tasks: map<Id, Task>, s: State, call: nat)
    requires Inv(nodes, tasks, s) && call in s.calls && s.calls[call].EndingThread?
    ensures Inv(nodes, tasks, EndStatement(s, call))
  {
    var s' := EndStatement(s, call);
    EndStaysOk(nodes, s, call);
    EndAfterTasks(s, call);
    EndNothingDue(s, call);
    hide Calmer, CallsOk, ReasonsOk, DuesOk, TasksFirst, Called, CancelAll, ActiveNodes, RowsOk, TasksOk;
    CallsKept(s, s', call, Finished);
    EndHasReasons(s, call);
  }

  lemma EndNothingDue(s: State, call: nat)
    requires DuesOk(s) && forall id :: !Active(EndStatement(s, call).nodes, id)
    ensures DuesOk(EndStatement(s, call))
  {
    hide HasActiveTask, HasActiveChild, HasActiveTop, CancelAll, ActiveNodes;
  }

  lemma EndAfterTasks(s: State, call: nat)
    requires TasksFirst(s) && CallsOk(s) && call in s.calls && s.calls[call].EndingThread?
    ensures TasksFirst(EndStatement(s, call))
  {
    assert CallOk(s, s.calls[call]);
    forall task | task in s.tasks ensures Terminal(s.tasks[task].status) {
      assert !ActiveTask(s.tasks, task);
    }
  }

  lemma EndHasReasons(s: State, call: nat)
    requires ReasonsOk(s) && Calmer(s, EndStatement(s, call))
    ensures ReasonsOk(EndStatement(s, call))
  {
    var s' := EndStatement(s, call);
    CalmKeepsReasons(s, s'.(announced := s.announced));
    forall id | id in s'.announcedTasks ensures TaskCalled(s', id) {
      assert TaskCalled(s'.(announced := s.announced), id);
    }
  }

  lemma StepKeepsInv(nodes: map<Id, Node>, tasks: map<Id, Task>, s: State, step: Step)
    requires Inv(nodes, tasks, s) && Enabled(s, step)
    ensures Inv(nodes, tasks, Apply(s, step))
  {
    hide Inv, TaskStatement, NodeStatement, EndStatement, AfterRead;
    if !step.Advance? {
      SpawnKeepsInv(nodes, tasks, s, step);
    } else if OnTasks(s.calls[step.call]) {
      TasksKeepInv(nodes, tasks, s, step.call);
    } else if s.calls[step.call].CancellingNode? {
      NodeKeepsInv(nodes, tasks, s, step.call);
    } else if s.calls[step.call].EndingThread? {
      EndKeepsInv(nodes, tasks, s, step.call);
    } else {
      AdvanceReads(nodes, tasks, s, step.call);
    }
  }

  lemma {:induction false} InvHolds(nodes: map<Id, Node>, tasks: map<Id, Task>, steps: seq<Step>)
    requires Valid(nodes, tasks, steps)
    ensures Inv(nodes, tasks, After(nodes, tasks, steps))
    decreases |steps|
  {
    if steps != [] {
      var before := steps[..|steps| - 1];
      InvHolds(nodes, tasks, before);
      StepKeepsInv(nodes, tasks, After(nodes, tasks, before), steps[|steps| - 1]);
    }
  }

  // ----- What follows

  ghost predicate AllFinished(s: State) {
    forall call | call in s.calls :: s.calls[call].Finished?
  }

  /** Whatever the interleaving of any number of cancels: when all have finished, a parent one of
      whose children was cancelled is itself no longer active, or has an active child; and the
      thread has ended, or has an active top-level node, if a top-level node was cancelled. So
      of two cancels that take a parent's last two active children at once, one cancels the
      parent too. */
  lemma NothingLeftDue(nodes: map<Id, Node>, tasks: map<Id, Task>, steps: seq<Step>, id: Id)
    requires Valid(nodes, tasks, steps) && AllFinished(After(nodes, tasks, steps))
    requires id in After(nodes, tasks, steps).announced
    ensures var s := After(nodes, tasks, steps);
      && id in s.nodes
      && if s.nodes[id].parent.Some?
         then var p := s.nodes[id].parent.value; !Active(s.nodes, p) || HasActiveChild(s.nodes, p)
         else s.ended || HasActiveTop(s.nodes)
  {
    InvHolds(nodes, tasks, steps);
    var s := After(nodes, tasks, steps);
    assert Touched(s.nodes, s.announced, s.nodes[id].parent);
    assert !SeenTo(s.calls, s.nodes[id].parent);
    assert !Due(s, s.nodes[id].parent);
  }

  /** A task cancel is on behalf of the node that its caller names, or else of the task's own: at
      any time after it came in, it is still to cancel the task, or has done so for that node. */
  lemma {:induction false} OnBehalfOfNamed(nodes: map<Id, Node>, tasks: map<Id, Task>, steps: seq<Step>, i: nat)
    requires Valid(nodes, tasks, steps) && i < |steps| && steps[i].SpawnTask?
    ensures var SpawnTask(call, task, named) := steps[i];
      var owner := if named == "" && task in tasks then tasks[task].node else named;
      var s := After(nodes, tasks, steps);
      call in s.calls && (owner == "" || s.calls[call] == CancellingTask(task, owner) || owner in s.owners)
    decreases |steps|
  {
    var before, last := steps[..|steps| - 1], steps[|steps| - 1];
    InvHolds(nodes, tasks, before);
    if i < |steps| - 1 {
      OnBehalfOfNamed(nodes, tasks, before, i);
      OwnersStay(After(nodes, tasks, before), last, steps[i].call);
    }
  }

  lemma OwnersStay(s: State, step: Step, call: nat)
    requires Enabled(s, step) && call in s.calls
    ensures var s' := Apply(s, step);
      && s.owners <= s'.owners && call in s'.calls
      && (s.calls[call].CancellingTask? && s'.calls[call] != s.calls[call] ==>
            s.calls[call].owner == "" || s.calls[call].owner in s'.owners)
  {
    hide Found, CancelTasks, CancelRow, CancelAll, ActiveNodes, HasActiveTask, HasActiveChild, HasActiveTop;
    if step.Advance? && OnTasks(s.calls[step.call]) {
      TaskOwners(s, step.call);
      hide TaskStatement;
    }
  }

  lemma TaskOwners(s: State, call: nat)
    requires call in s.calls && OnTasks(s.calls[call])
    ensures var s', pc := TaskStatement(s, call), s.calls[call];
      && s'.calls == s.calls[call := AfterTasks(pc)] && s.owners <= s'.owners
      && (pc.CancellingTask? ==> pc.owner == "" || pc.owner in s'.owners)
  {
    hide Found, CancelTasks;
  }

  /** And a node on whose behalf a task was cancelled is no longer active, or has an active task,
      unless a caller named another node for one of its tasks. So of two cancels that take a
      node's last two active tasks at once, one cancels the node too. */
  lemma NoNodeLeftDue(nodes: map<Id, Node>, tasks: map<Id, Task>, steps: seq<Step>, node: Id)
    requires Valid(nodes, tasks, steps) && AllFinished(After(nodes, tasks, steps))
    requires node in After(nodes, tasks, steps).owners && node !in After(nodes, tasks, steps).strays
    ensures var s := After(nodes, tasks, steps); !Active(s.nodes, node) || HasActiveTask(s.tasks, node)
  {
    InvHolds(nodes, tasks, steps);
    var s := After(nodes, tasks, steps);
    assert !Attended(s.calls, node);
    assert !TasksDue(s, node);
  }

  /** And at any time: a row is announced at most once; the rows announced are cancelled and the
      others are as they were; and each one announced was named by a user, or has no active child
      and a child on which a cancel was issued, or has no active task after a cancel of one, or
      the whole thread has ended. */
  lemma NothingElseCancelled(nodes: map<Id, Node>, tasks: map<Id, Task>, steps: seq<Step>, id: Id)
    requires Valid(nodes, tasks, steps) && id in nodes
    ensures var s := After(nodes, tasks, steps);
      && s.announced[id] <= 1 && id in s.nodes
      && s.nodes[id] == (if id in s.announced then nodes[id].(status := Cancelled) else nodes[id])
      && (id in s.announced ==> Active(nodes, id) && (s.ended || Called(s, id)))
  {
    InvHolds(nodes, tasks, steps);
  }

  /** The same for the tasks: each one announced was named, or is one of a node that a cancel was
      called on, or the thread is ending. */
  lemma NoOtherTaskCancelled(nodes: map<Id, Node>, tasks: map<Id, Task>, steps: seq<Step>, id: Id)
    requires Valid(nodes, tasks, steps) && id in tasks
    ensures var s := After(nodes, tasks, steps);
      && s.announcedTasks[id] <= 1 && id in s.tasks
      && s.tasks[id] == (if id in s.announcedTasks then tasks[id].(status := Cancelled) else tasks[id])
      && (id in s.announcedTasks ==> ActiveTask(tasks, id) && TaskCalled(s, id))
  {
    InvHolds(nodes, tasks, steps);
  }

  /** Tasks go before their nodes: at any time a node that was cancelled has no active task left,
      and when the thread's nodes have been cancelled, nothing in it is active. */
  lemma NoTaskLeftBehind(nodes: map<Id, Node>, tasks: map<Id, Task>, steps: seq<Step>, id: Id)
    requires Valid(nodes, tasks, steps)
    ensures var s := After(nodes, tasks, steps);
      && (id in s.announced ==> !HasActiveTask(s.tasks, id))
      && (s.ended ==> !Active(s.nodes, id) && !ActiveTask(s.tasks, id))
  {
    InvHolds(nodes, tasks, steps);
  }
}
