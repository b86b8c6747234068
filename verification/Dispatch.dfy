/** The routing of one graph dispatch (backend/main_thread/executor.py, with the
    recovery check of backend/main_thread/startup.py in front of it and its refresh of the
    viewer flags), as an automaton
    that moves on the replies its awaits receive. */
module Dispatch {
  import opened Options
  import opened LockScripts

  datatype Info = Info(owner: Owner, token: nat)

  /** Which of the three places of the routing a probe or a steal belongs to. */
  datatype Stage = First | Second | Race

  /** How a run came by its token: granted to this call, read from a lock that bears this
      process's identity, or none because the lock vanished. */
  datatype Origin = Won | Inherited | Vanished

  /** `Crashed` is an exception other than the routing one; it is early if it comes before the
      dispatch, in the recovery check. */
  datatype Outcome = NoOp | Started(token: nat, origin: Origin) | Routed(port: int) | Skipped | Crashed(early: bool)

  datatype Pc =
    | RecoverGet | RecoverProbe(owner: Owner) | SetUser | SetViewer
    | GetOwner
    | Mine(token: nat)
    | Probe(stage: Stage, owner: Owner) | StealFrom(stage: Stage, owner: Owner)
    | Reread | AcquireVanished
    | AcquireFree | RereadRace
    | Ready(token: nat, origin: Origin)
    | Ended(outcome: Outcome)

  /** What the call waits for at a control point. */
  datatype Request = AskOwner | AskAcquire | AskSteal(dead: Owner) | AskAlive(owner: Owner) | AskFlag | AskRunning | NoRequest

  datatype Reply =
    | OwnerIs(info: Option<Info>)
    | TokenIs(token: Option<nat>)
    | AliveIs(alive: bool)
    | FlagSet
    | RunningIs(running: bool)
    | Raised

  function Waits(pc: Pc): Request {
    match pc
    case RecoverGet | GetOwner | Reread | RereadRace => AskOwner
    case RecoverProbe(o) => AskAlive(o)
    case SetUser | SetViewer => AskFlag
    case Probe(_, o) => AskAlive(o)
    case StealFrom(_, o) => AskSteal(o)
    case AcquireFree | AcquireVanished => AskAcquire
    case Mine(_) => AskRunning
    case Ready(_, _) => NoRequest
    case Ended(_) => NoRequest
  }

  predicate Answers(reply: Reply, request: Request) {
    match request
    case AskOwner => reply.OwnerIs? || reply.Raised?
    case AskAcquire => reply.TokenIs? || reply.Raised?
    case AskSteal(_) => reply.TokenIs? || reply.Raised?
    case AskAlive(_) => reply.AliveIs? || reply.Raised?
    case AskFlag => reply.FlagSet? || reply.Raised?
    case AskRunning => reply.RunningIs?
    case NoRequest => false
  }

  /** The control point after the awaited reply. */
  function Next(me: Owner, pc: Pc, reply: Reply): Pc
    requires Answers(reply, Waits(pc))
  {
    if reply.Raised? then Ended(Crashed(pc.RecoverGet? || pc.RecoverProbe?))
    else match pc
    case RecoverGet =>
      if reply.info.Some? && reply.info.value.owner != me then RecoverProbe(reply.info.value.owner) else SetUser
    case RecoverProbe(_) =>
      if reply.alive then Ended(Skipped) else SetUser
    case SetUser => SetViewer
    case SetViewer => GetOwner
    case GetOwner =>
      if reply.info.None? then AcquireFree
      else if reply.info.value.owner == me then Mine(reply.info.value.token)
      else Probe(First, reply.info.value.owner)
    case Mine(token) =>
      if reply.running then Ended(NoOp) else Ready(token, Inherited)
    case Probe(stage, owner) =>
      if reply.alive then Ended(Routed(owner.port)) else StealFrom(stage, owner)
    case StealFrom(stage, _) =>
      if reply.token.Some? then Ready(reply.token.value, Won)
      else if stage.First? then Reread
      else Ended(Routed(0))
    case Reread =>
      if reply.info.Some? then Probe(Second, reply.info.value.owner) else AcquireVanished
    case AcquireVanished =>
      if reply.token.Some? then Ready(reply.token.value, Won) else Ended(Routed(0))
    case AcquireFree =>
      if reply.token.Some? then Ready(reply.token.value, Won) else RereadRace
    case RereadRace =>
      if reply.info.Some? then Probe(Race, reply.info.value.owner) else Ready(0, Vanished)
  }

  datatype Event = Event(request: Request, reply: Reply)

  /** The events are the awaits of one call, from `pc` on, in order. */
  ghost predicate Follows(me: Owner, pc: Pc, events: seq<Event>)
    decreases |events|
  {
    events == [] ||
    (&& events[0].request == Waits(pc)
     && Answers(events[0].reply, Waits(pc))
     && Follows(me, Next(me, pc, events[0].reply), events[1..]))
  }

  ghost function Reached(me: Owner, pc: Pc, events: seq<Event>): Pc
    requires Follows(me, pc, events)
    decreases |events|
  {
    if events == [] then pc else Reached(me, Next(me, pc, events[0].reply), events[1..])
  }

  lemma {:induction false} FollowsSnoc(me: Owner, pc: Pc, events: seq<Event>, event: Event)
    requires Follows(me, pc, events)
    requires event.request == Waits(Reached(me, pc, events)) && Answers(event.reply, event.request)
    ensures Follows(me, pc, events + [event])
    ensures Reached(me, pc, events + [event]) == Next(me, Reached(me, pc, events), event.reply)
    decreases |events|
  {
    var all := events + [event];
    if events == [] {
      assert all[1..] == [];
    } else {
      FollowsSnoc(me, Next(me, pc, events[0].reply), events[1..], event);
      assert all[1..] == events[1..] + [event];
    }
  }

  /** Awaits still ahead, at most. */
  function Remaining(pc: Pc): nat {
    match pc
    case RecoverGet => 10
    case RecoverProbe(_) => 9
    case SetUser => 8
    case SetViewer => 7
    case GetOwner => 6
    case Probe(First, _) => 5
    case StealFrom(First, _) => 4
    case AcquireFree => 4
    case Reread => 3
    case RereadRace => 3
    case Probe(_, _) => 2
    case StealFrom(_, _) => 1
    case AcquireVanished => 1
    case Mine(_) => 1
    case Ready(_, _) => 0
    case Ended(_) => 0
  }

  /** Every dispatch ends after at most six awaits, whatever the replies (ten with the
      recovery check and the viewer flags), and until then it always waits for something. */
  lemma {:induction false} DispatchTerminates(me: Owner, pc: Pc, events: seq<Event>)
    requires Follows(me, pc, events)
    ensures |events| + Remaining(Reached(me, pc, events)) <= Remaining(pc)
    ensures (pc == GetOwner ==> |events| <= 6) && (pc == RecoverGet ==> |events| <= 10)
    ensures Remaining(Reached(me, pc, events)) == 0 <==> Reached(me, pc, events).Ready? || Reached(me, pc, events).Ended?
    decreases |events|
  {
    if events != [] {
      DispatchTerminates(me, Next(me, pc, events[0].reply), events[1..]);
    }
  }

  /** The token was the reply to an acquire or a steal of this very call. */
  ghost predicate WonIn(events: seq<Event>, token: nat) {
    exists e :: e in events && (e.request.AskAcquire? || e.request.AskSteal?) && e.reply == TokenIs(Some(token))
  }

  /** The token was read from a lock that bears this process's identity. */
  ghost predicate InheritedIn(events: seq<Event>, me: Owner, token: nat) {
    exists e :: e in events && e.request.AskOwner? && e.reply == OwnerIs(Some(Info(me, token)))
  }

  /** The acquire lost, and the lock was gone when read again. */
  ghost predicate VanishedIn(events: seq<Event>) {
    && |events| >= 2
    && events[|events| - 2] == Event(AskAcquire, TokenIs(None))
    && events[|events| - 1] == Event(AskOwner, OwnerIs(None))
  }

  /** What is known about a control point from the events that led to it. */
  ghost predicate Explains(me: Owner, pc: Pc, events: seq<Event>) {
    match pc
    case Mine(token) => InheritedIn(events, me, token)
    case Ready(token, Won) => WonIn(events, token)
    case Ready(token, Inherited) => InheritedIn(events, me, token) && events[|events| - 1] == Event(AskRunning, RunningIs(false))
    case Ready(token, Vanished) => token == 0 && VanishedIn(events)
    case RereadRace => events != [] && events[|events| - 1] == Event(AskAcquire, TokenIs(None))
    case _ => true
  }

  lemma ExplainsStep(me: Owner, pc: Pc, events: seq<Event>, event: Event)
    requires Explains(me, pc, events)
    requires event.request == Waits(pc) && Answers(event.reply, event.request)
    ensures Explains(me, Next(me, pc, event.reply), events + [event])
  {
    var all := events + [event];
    assert event == all[|all| - 1] && event in all;
    assert forall e :: e in events ==> e in all;
    if pc.Mine? && InheritedIn(events, me, pc.token) {
      assert InheritedIn(all, me, pc.token);
    }
    if pc.RereadRace? {
      assert all[|all| - 2] == events[|events| - 1];
    }
  }

  lemma {:induction false} Explained(me: Owner, events: seq<Event>)
    requires Follows(me, GetOwner, events)
    ensures Explains(me, Reached(me, GetOwner, events), events)
    decreases |events|
  {
    if events != [] {
      var before, last := events[..|events| - 1], events[|events| - 1];
      assert events == before + [last];
      FollowsSplit(me, GetOwner, before, last);
      Explained(me, before);
      ExplainsStep(me, Reached(me, GetOwner, before), before, last);
    }
  }

  lemma {:induction false} FollowsSplit(me: Owner, pc: Pc, before: seq<Event>, last: Event)
    requires Follows(me, pc, before + [last])
    ensures Follows(me, pc, before)
    ensures last.request == Waits(Reached(me, pc, before)) && Answers(last.reply, last.request)
    ensures Reached(me, pc, before + [last]) == Next(me, Reached(me, pc, before), last.reply)
    decreases |before|
  {
    var all := before + [last];
    if before == [] {
      assert all[1..] == [];
    } else {
      assert all[1..] == before[1..] + [last];
      FollowsSplit(me, Next(me, pc, before[0].reply), before[1..], last);
    }
  }

  /** Dispatch provenance, for any replies at all: a call that is about to start a run was
      granted the token by one of its own requests, or read it from a lock that bears its
      own identity and then found no live task; the one other way is the vanished lock,
      and then the token is 0. */
  lemma DispatchProvenance(me: Owner, events: seq<Event>)
    requires Follows(me, GetOwner, events)
    requires Reached(me, GetOwner, events).Ready?
    ensures var Ready(token, origin) := Reached(me, GetOwner, events);
      match origin
      case Won => WonIn(events, token)
      case Inherited => InheritedIn(events, me, token) && events[|events| - 1] == Event(AskRunning, RunningIs(false))
      case Vanished => token == 0 && VanishedIn(events)
  {
    Explained(me, events);
  }
}
