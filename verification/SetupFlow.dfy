/** The control flow of `ensure_setup` (backend/db/postgres/checkpointer.py) as an automaton
    over the replies that it gets. */
module SetupFlow {
  const MAX_RETRIES: nat := 30
  const LOCK_TTL: nat := 60

  /** Where the `finally` block that releases the lock goes on to. */
  datatype Exit = Early | Normal | Failing

  datatype Pc =
    | FastPath | PreCheck
    | Acquiring(left: nat)
    | InnerCheck | InSetup | Migrating | WritingSentinel
    | Releasing(exit: Exit)
    | PostCheck
    | Returned | TimedOut | Failed

  datatype Reply = Yes | No | Exception

  /** The control point after the reply: `Yes` is a local flag or sentinel that is set, a lock
      that was obtained, a connection that `cp.setup()` can begin on, a setup that succeeded or
      met a UniqueViolation, a sentinel that was written. A release swallows its own errors. */
  function Next(pc: Pc, reply: Reply): Pc {
    match pc
    case FastPath => if reply.Yes? then Returned else PreCheck
    case PreCheck => if reply.Yes? then Returned else if reply.No? then Acquiring(MAX_RETRIES) else Failed
    case Acquiring(left) =>
      if reply.Yes? then InnerCheck
      else if reply.Exception? then Failed
      else if left <= 1 then TimedOut
      else Acquiring(left - 1)
    case InnerCheck => if reply.Yes? then Releasing(Early) else if reply.No? then InSetup else Releasing(Failing)
    case InSetup => if reply.Yes? then Migrating else Releasing(Failing)
    case Migrating => if reply.Yes? then WritingSentinel else Releasing(Failing)
    case WritingSentinel => if reply.Yes? then Releasing(Normal) else Releasing(Failing)
    case Releasing(exit) => if exit.Early? then Returned else if exit.Normal? then PostCheck else Failed
    case PostCheck => if reply.Yes? then Returned else Failed
    case _ => pc
  }

  predicate Over(pc: Pc) {
    pc.Returned? || pc.TimedOut? || pc.Failed?
  }

  /** Where a call stands after these replies. */
  ghost function Flow(replies: seq<Reply>): Pc
    decreases |replies|
  {
    if replies == [] then FastPath else Next(Flow(replies[..|replies| - 1]), replies[|replies| - 1])
  }

  lemma FlowSnoc(replies: seq<Reply>, reply: Reply)
    ensures Flow(replies + [reply]) == Next(Flow(replies), reply)
  {
    var all := replies + [reply];
    assert all[..|all| - 1] == replies;
  }

  /** Which replies a control point can get: the local flag never raises, a release always goes
      on, and the setup, the write and the last check succeed or raise. */
  predicate Proper(pc: Pc, reply: Reply) {
    match pc
    case FastPath => !reply.Exception?
    case InSetup | Migrating | WritingSentinel | PostCheck => !reply.No?
    case Releasing(_) => reply.Yes?
    case Returned | TimedOut | Failed => false
    case _ => true
  }

  // ----- The replies that lead to each control point, spelt out

  function Nos(n: nat): seq<Reply> {
    seq(n, i => No)
  }

  /** No local flag, no sentinel, less than thirty refusals of the lock, and then these replies. */
  ghost predicate Obtained(replies: seq<Reply>, tail: seq<Reply>) {
    var n := |replies| - |tail|;
    2 <= n < 32 && replies == Nos(n) + tail
  }

  ghost predicate Stands(pc: Pc, replies: seq<Reply>) {
    match pc
    case FastPath => replies == []
    case PreCheck => replies == [No]
    case Acquiring(left) => 1 <= left <= 30 && replies == Nos(32 - left)
    case InnerCheck => Obtained(replies, [Yes])
    case InSetup => Obtained(replies, [Yes, No])
    case Migrating => Obtained(replies, [Yes, No, Yes])
    case WritingSentinel => Obtained(replies, [Yes, No, Yes, Yes])
    case Releasing(exit) =>
      if exit.Early? then Obtained(replies, [Yes, Yes])
      else if exit.Normal? then Obtained(replies, [Yes, No, Yes, Yes, Yes])
      else Exception in replies
    case PostCheck => Obtained(replies, [Yes, No, Yes, Yes, Yes, Yes])
    case Returned =>
      || replies == [Yes] || replies == [No, Yes]
      || Obtained(replies, [Yes, Yes, Yes]) || Obtained(replies, [Yes, No, Yes, Yes, Yes, Yes, Yes])
    case TimedOut => replies == Nos(32)
    case Failed => Exception in replies
  }

  lemma ObtainedSnoc(replies: seq<Reply>, tail: seq<Reply>, reply: Reply, longer: seq<Reply>)
    requires Obtained(replies, tail) && longer == tail + [reply]
    ensures Obtained(replies + [reply], longer)
  {
    assert replies + [reply] == Nos(|replies| - |tail|) + longer;
  }

  lemma NosSnoc(n: nat)
    ensures Nos(n) + [No] == Nos(n + 1)
    ensures Nos(0) == [] && Nos(1) == [No]
  {
  }

  lemma CheckedSnoc(pc: Pc, replies: seq<Reply>, reply: Reply)
    requires Stands(pc, replies) && Proper(pc, reply) && (pc.FastPath? || pc.PreCheck?)
    ensures Stands(Next(pc, reply), replies + [reply])
  {
    assert reply in replies + [reply];
    assert pc.PreCheck? && reply.No? ==> replies + [No] == Nos(2);
  }

  lemma AcquiringSnoc(left: nat, replies: seq<Reply>, reply: Reply)
    requires Stands(Acquiring(left), replies)
    ensures Stands(Next(Acquiring(left), reply), replies + [reply])
  {
    assert reply in replies + [reply];
    if reply.Yes? {
      assert replies + [Yes] == Nos(|replies|) + [Yes];
    } else if reply.No? {
      NosSnoc(32 - left);
    }
  }

  lemma StandsStep(pc: Pc, replies: seq<Reply>, reply: Reply)
    requires Stands(pc, replies) && Proper(pc, reply)
    ensures Stands(Next(pc, reply), replies + [reply])
  {
    hide Obtained, Nos;
    assert reply in replies + [reply];
    match pc
    case FastPath => CheckedSnoc(pc, replies, reply);
    case PreCheck => CheckedSnoc(pc, replies, reply);
    case Acquiring(left) => AcquiringSnoc(left, replies, reply);
    case InnerCheck => ObtainedSnoc(replies, [Yes], reply, [Yes, reply]);
    case InSetup => ObtainedSnoc(replies, [Yes, No], reply, [Yes, No, reply]);
    case Migrating => ObtainedSnoc(replies, [Yes, No, Yes], reply, [Yes, No, Yes, reply]);
    case WritingSentinel => ObtainedSnoc(replies, [Yes, No, Yes, Yes], reply, [Yes, No, Yes, Yes, reply]);
    case Releasing(exit) => ReleasedSnoc(exit, replies);
    case PostCheck => ObtainedSnoc(replies, [Yes, No, Yes, Yes, Yes, Yes], reply, [Yes, No, Yes, Yes, Yes, Yes, reply]);
  }

  lemma ReleasedSnoc(exit: Exit, replies: seq<Reply>)
    requires Stands(Releasing(exit), replies)
    ensures Stands(Next(Releasing(exit), Yes), replies + [Yes])
  {
    if exit.Early? {
      ObtainedSnoc(replies, [Yes, Yes], Yes, [Yes, Yes, Yes]);
    } else if exit.Normal? {
      ObtainedSnoc(replies, [Yes, No, Yes, Yes, Yes], Yes, [Yes, No, Yes, Yes, Yes, Yes]);
    }
  }

  /** A call that has ended has failed exactly if some reply was an exception, and timed out
      exactly if thirty acquires in a row were refused; else it has returned. */
  lemma EndsAsAnswered(pc: Pc, replies: seq<Reply>)
    requires Stands(pc, replies) && Over(pc)
    ensures pc.Failed? <==> Exception in replies
    ensures pc.TimedOut? <==> replies == Nos(32)
    ensures pc.Returned? <==> Exception !in replies && replies != Nos(32)
  {
    if pc.Returned? && |replies| > 2 {
      assert replies[|replies| - 1] == Yes;
    }
  }

  /** The replies of one call so far, and where they lead. */
  datatype Trail = Trail(replies: seq<Reply>, pc: Pc)

  ghost predicate OnFlow(trail: Trail) {
    trail.pc == Flow(trail.replies) && Stands(trail.pc, trail.replies)
  }

  ghost function Begin(): (trail: Trail)
    ensures OnFlow(trail) && trail.pc == FastPath
  {
    Trail([], FastPath)
  }

  ghost function Then(trail: Trail, reply: Reply): (next: Trail)
    requires OnFlow(trail) && Proper(trail.pc, reply)
    ensures OnFlow(next) && next.pc == Next(trail.pc, reply) && next.replies == trail.replies + [reply]
  {
    FlowSnoc(trail.replies, reply);
    StandsStep(trail.pc, trail.replies, reply);
    Trail(trail.replies + [reply], Next(trail.pc, reply))
  }
}
