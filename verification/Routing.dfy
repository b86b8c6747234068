/** The rules that the routing of a dispatch keeps, read off the awaits of one call
    (backend/main_thread/executor.py, backend/main_thread/startup.py): what is asked after which
    reply, when the call is over, and with which outcome. */
module Routing {
  import opened Options
  import opened LockScripts
  import opened Dispatch

  const REFUSED: Reply := TokenIs(None)

  /** An acquire or a steal has been refused. */
  predicate Refused(events: seq<Event>) {
    exists e :: e in events && e.reply == REFUSED
  }

  predicate EndsWith(events: seq<Event>, event: Event) {
    events != [] && events[|events| - 1] == event
  }

  /** The last reply names this owner as the lock's. */
  predicate JustRead(events: seq<Event>, owner: Owner) {
    && events != [] && events[|events| - 1].request.AskOwner?
    && events[|events| - 1].reply.OwnerIs? && events[|events| - 1].reply.info.Some?
    && events[|events| - 1].reply.info.value.owner == owner
  }

  /** The last reply is the only refusal. */
  predicate JustRefused(events: seq<Event>, request: Request) {
    EndsWith(events, Event(request, REFUSED)) && !Refused(events[..|events| - 1])
  }

  /** What has happened when a call stands at a control point. */
  ghost predicate Stands(me: Owner, pc: Pc, events: seq<Event>) {
    match pc
    case GetOwner => events == []
    case Mine(token) => events == [Event(AskOwner, OwnerIs(Some(Info(me, token))))]
    case AcquireFree => events == [Event(AskOwner, OwnerIs(None))]
    case Probe(stage, owner) =>
      JustRead(events, owner) && if stage.First? then |events| == 1 && owner != me else |events| > 1 && Refused(events)
    case StealFrom(stage, owner) =>
      EndsWith(events, Event(AskAlive(owner), AliveIs(false))) && |events| > 1 && (stage.First? <==> !Refused(events))
    case Reread =>
      |events| > 1 && events[|events| - 1].request.AskSteal? && JustRefused(events, events[|events| - 1].request)
    case RereadRace => |events| > 1 && JustRefused(events, AskAcquire)
    case AcquireVanished =>
      && |events| > 1 && EndsWith(events, Event(AskOwner, OwnerIs(None)))
      && events[|events| - 2].request.AskSteal? && events[|events| - 2].reply == REFUSED
    case Ready(token, origin) => events != [] && Over(me, events) && Outcome(me, events) == Started(token, origin)
    case Ended(outcome) => events != [] && Over(me, events) && Outcome(me, events) == outcome
    case _ => false
  }

  /** Whether the call is over after these awaits, by the last reply: an exception, a live owner,
      the registry's answer, a token, the second refusal, or no lock where an acquire was just
      refused. */
  predicate Over(me: Owner, events: seq<Event>)
    requires events != []
  {
    match events[|events| - 1].reply
    case Raised => true
    case AliveIs(alive) => alive
    case RunningIs(_) => true
    case TokenIs(token) => token.Some? || Refused(events[..|events| - 1])
    case OwnerIs(info) => info.None? && |events| > 1 && events[|events| - 2] == Event(AskAcquire, REFUSED)
    case FlagSet => false
  }

  /** The outcome of a call that is over: crashed by an exception, routed to the port of an
      owner found alive, or to none after the second refusal; idle or started with the token
      read from its own lock, as the registry says; started with the token granted; started
      with token 0 where the lock vanished. */
  function Outcome(me: Owner, events: seq<Event>): Dispatch.Outcome
    requires events != []
  {
    var Event(request, reply) := events[|events| - 1];
    match reply
    case Raised => Crashed(false)
    case AliveIs(_) => Routed(if request.AskAlive? then request.owner.port else 0)
    case RunningIs(running) =>
      if running then NoOp
      else Started(if events[0].reply.OwnerIs? && events[0].reply.info.Some? then events[0].reply.info.value.token else 0, Inherited)
    case TokenIs(token) => if token.Some? then Started(token.value, Won) else Routed(0)
    case _ => Started(0, Vanished)
  }

  /** The awaits with one more after them. */
  lemma Snoc(events: seq<Event>, event: Event)
    ensures var all := events + [event];
      && all[..|all| - 1] == events && all[|all| - 1] == event
      && (Refused(all) <==> Refused(events) || event.reply == REFUSED)
      && (events != [] ==> all[|all| - 2] == events[|events| - 1] && all[0] == events[0])
    ensures events == [] ==> !Refused(events)
    ensures events != [] ==>
      (Refused(events) <==> Refused(events[..|events| - 1]) || events[|events| - 1].reply == REFUSED)
  {
    assert forall e :: e in events + [event] <==> e in events || e == event;
    if events != [] {
      assert events == events[..|events| - 1] + [events[|events| - 1]];
      assert forall e :: e in events <==> e in events[..|events| - 1] || e == events[|events| - 1];
    }
  }

  lemma OwnerStep(me: Owner, pc: Pc, events: seq<Event>, event: Event)
    requires Stands(me, pc, events) && Waits(pc).AskOwner?
    requires event.request == Waits(pc) && Answers(event.reply, event.request)
    ensures Stands(me, Next(me, pc, event.reply), events + [event])
  {
    Snoc(events, event);
    hide Refused;
  }

  lemma AliveStep(me: Owner, pc: Pc, events: seq<Event>, event: Event)
    requires Stands(me, pc, events) && Waits(pc).AskAlive?
    requires event.request == Waits(pc) && Answers(event.reply, event.request)
    ensures Stands(me, Next(me, pc, event.reply), events + [event])
  {
    Snoc(events, event);
    if |events| == 1 {
      Snoc(events[..0], events[0]);
    }
    hide Refused;
  }

  lemma TokenStep(me: Owner, pc: Pc, events: seq<Event>, event: Event)
    requires Stands(me, pc, events) && (Waits(pc).AskAcquire? || Waits(pc).AskSteal?)
    requires event.request == Waits(pc) && Answers(event.reply, event.request)
    ensures Stands(me, Next(me, pc, event.reply), events + [event])
  {
    Snoc(events, event);
    if events != [] {
      Snoc(events[..|events| - 1], events[|events| - 1]);
    }
    hide Refused;
  }

  lemma StandsStep(me: Owner, pc: Pc, events: seq<Event>, event: Event)
    requires Stands(me, pc, events)
    requires event.request == Waits(pc) && Answers(event.reply, event.request)
    ensures Stands(me, Next(me, pc, event.reply), events + [event])
  {
    if Waits(pc).AskOwner? {
      OwnerStep(me, pc, events, event);
    } else if Waits(pc).AskAlive? {
      AliveStep(me, pc, events, event);
    } else if Waits(pc).AskAcquire? || Waits(pc).AskSteal? {
      TokenStep(me, pc, events, event);
    } else {
      Snoc(events, event);
    }
  }

  lemma {:induction false} StandsAt(me: Owner, events: seq<Event>)
    requires Follows(me, GetOwner, events)
    ensures Stands(me, Reached(me, GetOwner, events), events)
    decreases |events|
  {
    if events != [] {
      var before, last := events[..|events| - 1], events[|events| - 1];
      assert events == before + [last];
      FollowsSplit(me, GetOwner, before, last);
      StandsAt(me, before);
      StandsStep(me, Reached(me, GetOwner, before), before, last);
    }
  }

  lemma StandsOverIff(me: Owner, pc: Pc, events: seq<Event>)
    requires Stands(me, pc, events) && events != []
    ensures pc.Ready? || pc.Ended? <==> Over(me, events)
    ensures pc.Ready? ==> Outcome(me, events) == Started(pc.token, pc.origin)
    ensures pc.Ended? ==> Outcome(me, events) == pc.outcome
  {
  }

  /** When a dispatch ends, and how: whatever the replies, it is over exactly after the replies
      that `Over` lists, and then its outcome is the one of the last reply. */
  lemma OutcomeOfLastReply(me: Owner, events: seq<Event>)
    requires Follows(me, GetOwner, events) && events != []
    ensures var pc := Reached(me, GetOwner, events);
      && (pc.Ready? || pc.Ended? <==> Over(me, events))
      && (pc.Ready? ==> Outcome(me, events) == Started(pc.token, pc.origin))
      && (pc.Ended? ==> Outcome(me, events) == pc.outcome)
  {
    StandsAt(me, events);
    StandsOverIff(me, Reached(me, GetOwner, events), events);
  }

  /** Every request of a dispatch has its cause in the reply before it: the lock is read first,
      and once more after the first refusal; a lock with the caller's own identity, read first,
      has the registry asked; the owner in any other reading has its liveness probed, and is
      stolen from only after a probe that found it dead; no lock is followed by an acquire,
      unless an acquire has just been refused. */
  lemma RequestsHaveCause(me: Owner, events: seq<Event>, i: nat)
    requires Follows(me, GetOwner, events) && i < |events|
    ensures match events[i].request
      case AskOwner => i == 0 || (events[i - 1].reply == REFUSED && !Refused(events[..i - 1]))
      case AskRunning =>
        i == 1 && events[0].reply.OwnerIs? && events[0].reply.info.Some? && events[0].reply.info.value.owner == me
      case AskAlive(owner) => JustRead(events[..i], owner) && (i == 1 ==> owner != me)
      case AskSteal(owner) => i > 1 && events[i - 1] == Event(AskAlive(owner), AliveIs(false))
      case AskAcquire => i > 0 && events[i - 1] == Event(AskOwner, OwnerIs(None)) && (i > 1 ==> events[i - 2].request.AskSteal?)
      case _ => false
  {
    FollowsPrefix(me, GetOwner, events, i + 1);
    var before, event := events[..i], events[i];
    assert events[..i + 1] == before + [event];
    FollowsSplit(me, GetOwner, before, event);
    StandsAt(me, before);
    assert i > 0 ==> before[..i - 1] == events[..i - 1];
  }

  lemma {:induction false} FollowsPrefix(me: Owner, pc: Pc, events: seq<Event>, n: nat)
    requires Follows(me, pc, events) && n <= |events|
    ensures Follows(me, pc, events[..n])
    decreases |events|
  {
    if n > 0 {
      FollowsPrefix(me, Next(me, pc, events[0].reply), events[1..], n - 1);
      assert events[..n][1..] == events[1..][..n - 1];
    }
  }

  /** The number of awaits of the check in front of a recovery: the lock is read, and the owner
      probed if it is another process. */
  function CheckLength(me: Owner, first: Reply): nat {
    if first.OwnerIs? && first.info.Some? && first.info.value.owner != me then 2 else 1
  }

  predicate EndsRaised(events: seq<Event>) {
    events != [] && events[|events| - 1].reply.Raised?
  }

  lemma NeverEarly(me: Owner, events: seq<Event>)
    requires events != []
    ensures Outcome(me, events) != Crashed(true) && Outcome(me, events) != Skipped
  {
  }

  /** The first await, and what it leads to. */
  lemma FollowsCons(me: Owner, pc: Pc, events: seq<Event>)
    requires Follows(me, pc, events) && events != []
    ensures events[0].request == Waits(pc) && Answers(events[0].reply, Waits(pc))
    ensures var next := Next(me, pc, events[0].reply);
      && Follows(me, next, events[1..]) && Reached(me, pc, events) == Reached(me, next, events[1..])
      && (|events| == 1 ==> Reached(me, pc, events) == next)
      && (|events| > 1 ==> !next.Ended? && !next.Ready?)
  {
    if |events| > 1 {
      var next := Next(me, pc, events[0].reply);
      assert Answers(events[1..][0].reply, Waits(next));
    }
  }

  /** From the viewer flags on. */
  lemma FlagsThenDispatch(me: Owner, events: seq<Event>)
    requires Follows(me, SetUser, events)
    ensures var pc := Reached(me, SetUser, events);
      && pc != Ended(Skipped) && pc != Ended(Crashed(true))
      && (forall i | 0 <= i < |events| && i < 2 :: events[i].request == AskFlag)
      && (|events| <= 2 && EndsRaised(events) ==> pc == Ended(Crashed(false)))
      && (|events| >= 2 && !events[1].reply.Raised? ==>
            Follows(me, GetOwner, events[2..]) && pc == Reached(me, GetOwner, events[2..]))
  {
    hide Over, Outcome;
    if |events| >= 1 {
      FollowsCons(me, SetUser, events);
    }
    if |events| >= 2 {
      FollowsCons(me, SetViewer, events[1..]);
      assert events[1..][1..] == events[2..];
    }
    if |events| > 2 {
      OutcomeOfLastReply(me, events[2..]);
      NeverEarly(me, events[2..]);
    }
  }

  /** A recovery reads the lock; if it names another process it probes that, and skips the thread
      exactly if the probe finds it alive; an exception so far is an early one. Else it sets the
      two viewer flags, where an exception is no early one, and what comes then is a dispatch. */
  lemma RecoveryThenDispatch(me: Owner, events: seq<Event>)
    requires Follows(me, RecoverGet, events) && events != []
    ensures var pc, first, n := Reached(me, RecoverGet, events), events[0].reply, CheckLength(me, events[0].reply);
      && events[0].request == AskOwner
      && (pc == Ended(Crashed(true)) <==> |events| <= n && EndsRaised(events))
      && (pc == Ended(Skipped) <==>
            |events| == n == 2 && events[1] == Event(AskAlive(first.info.value.owner), AliveIs(true)))
      && (|events| > n ==>
            && Follows(me, SetUser, events[n..]) && pc == Reached(me, SetUser, events[n..])
            && events[n - 1].reply != AliveIs(true) && !events[n - 1].reply.Raised?)
  {
    var first, n := events[0].reply, CheckLength(me, events[0].reply);
    FollowsCons(me, RecoverGet, events);
    if |events| > 1 && n == 2 {
      FollowsCons(me, RecoverProbe(first.info.value.owner), events[1..]);
      assert events[1..][1..] == events[2..];
    }
    if |events| > n {
      FlagsThenDispatch(me, events[n..]);
    }
  }
}
