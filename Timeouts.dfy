/**
 * `TimeoutFilter`: the filter that closes connections that send nothing in
 * time. One instance is installed on the acceptor, so its `queryReceived`
 * latch is shared by every session. Timer expiries and idle notifications
 * are explicit events applied one at a time.
 *
 * `Step` is the specification of one event; the class `TimeoutFilter`
 * implements each handler against it, and the lemmas below are about runs
 * of `Step`.
 */
module Timeouts {
  import opened JavaLang

  type SessionId = nat

  const TimeoutNotice: string := "Connection closed due to timeout"
  const IdleNotice: string := "Connection closed due to idle timeout"

  /** Side effects of the handlers, in the order they happen. */
  datatype Action =
    | SetReaderIdle(session: SessionId, time: int32)
    | Schedule(session: SessionId, delay: int32)
    | ForwardCreated(session: SessionId)
    | SetQueryReceived
    | ForwardMessage(session: SessionId, message: string)
    | Write(session: SessionId, text: string)
    | Close(session: SessionId)

  /** What the networking layer and the timer deliver to the filter. */
  datatype Event =
    | Created(session: SessionId)
    | Message(session: SessionId, message: string)
    | MaxWaitElapsed(session: SessionId)
    | Idle(session: SessionId)
    | PeerClosed(session: SessionId)

  datatype Config = Config(maxTime: int32, maxIdle: int32)

  /**
   * The latch, whether each session seen so far is still connected, the
   * max-wait callbacks scheduled and not yet run, and every side effect.
   */
  datatype FilterState = FilterState(
    queryReceived: bool,
    connected: map<SessionId, bool>,
    pending: multiset<SessionId>,
    log: seq<Action>)

  function Initial(): FilterState {
    FilterState(false, map[], multiset{}, [])
  }

  /** Whether `e` can happen in `s`: sessions are new when created, and exist before they idle or close. */
  predicate Enabled(s: FilterState, e: Event) {
    match e
    case Created(id) => id !in s.connected
    case Message(_, _) => true
    case MaxWaitElapsed(id) => id in s.pending
    case Idle(id) => id in s.connected
    case PeerClosed(id) => id in s.connected
  }

  /** `session.write(notice); session.close()`. */
  function Expire(s: FilterState, id: SessionId, notice: string): FilterState {
    s.(connected := s.connected[id := false], log := s.log + [Write(id, notice), Close(id)])
  }

  /** The effect of one event; an event that cannot happen leaves the state as it is. */
  function Step(cfg: Config, s: FilterState, e: Event): FilterState {
    if !Enabled(s, e) then s
    else match e
      case Created(id) =>
        s.(connected := s.connected[id := true],
           pending := s.pending + multiset{id},
           log := s.log + [SetReaderIdle(id, cfg.maxIdle), Schedule(id, cfg.maxTime), ForwardCreated(id)])
      case Message(id, m) =>
        s.(queryReceived := true, log := s.log + [SetQueryReceived, ForwardMessage(id, m)])
      case MaxWaitElapsed(id) =>
        var s' := s.(pending := s.pending - multiset{id});
        if !s.queryReceived && id in s.connected && s.connected[id] then Expire(s', id, TimeoutNotice) else s'
      case Idle(id) =>
        if !s.queryReceived then Expire(s, id, IdleNotice) else s
      case PeerClosed(id) =>
        s.(connected := s.connected[id := false])
  }

  function Run(cfg: Config, s: FilterState, events: seq<Event>): FilterState
    decreases |events|
  {
    if events == [] then s else Run(cfg, Step(cfg, s, events[0]), events[1..])
  }

  /** Neither a write nor a close. */
  predicate Quiet(actions: seq<Action>) {
    forall k :: 0 <= k < |actions| ==> !actions[k].Write? && !actions[k].Close?
  }

  // ------------------------------------------------------------- lemmas

  lemma {:induction false} RunConcat(cfg: Config, s: FilterState, a: seq<Event>, b: seq<Event>)
    ensures Run(cfg, s, a + b) == Run(cfg, Run(cfg, s, a), b)
    decreases |a|
  {
    if a != [] {
      assert (a + b)[1..] == a[1..] + b;
      RunConcat(cfg, Step(cfg, s, a[0]), a[1..], b);
    } else {
      assert a + b == b;
    }
  }

  /** The log only grows: what was done stays done. */
  lemma {:induction false} RunExtendsLog(cfg: Config, s: FilterState, events: seq<Event>)
    ensures s.log <= Run(cfg, s, events).log
    decreases |events|
  {
    if events != [] {
      RunExtendsLog(cfg, Step(cfg, s, events[0]), events[1..]);
    }
  }

  /** `queryReceived` never goes back to false. */
  lemma {:induction false} LatchNeverResets(cfg: Config, s: FilterState, events: seq<Event>)
    requires s.queryReceived
    ensures Run(cfg, s, events).queryReceived
    decreases |events|
  {
    if events != [] {
      LatchNeverResets(cfg, Step(cfg, s, events[0]), events[1..]);
    }
  }

  /** Once the latch is set, no handler writes to or closes any session, whatever follows. */
  lemma {:induction false} LatchedFilterIsQuiet(cfg: Config, s: FilterState, events: seq<Event>)
    requires s.queryReceived
    ensures s.log <= Run(cfg, s, events).log
    ensures Quiet(Run(cfg, s, events).log[|s.log|..])
    decreases |events|
  {
    if events != [] {
      var s' := Step(cfg, s, events[0]);
      LatchedFilterIsQuiet(cfg, s', events[1..]);
      var final := Run(cfg, s, events).log;
      assert final[|s.log|..] == s'.log[|s.log|..] + final[|s'.log|..];
    }
  }

  /**
   * A message on any session disarms both timeouts of every session,
   * those created later included: after it, nothing is written or closed.
   */
  lemma MessageDisarmsEverySession(cfg: Config, s: FilterState, before: seq<Event>, id: SessionId, m: string, after: seq<Event>)
    ensures var mid := Run(cfg, s, before + [Message(id, m)]);
      var final := Run(cfg, s, before + [Message(id, m)] + after);
      mid.log <= final.log && Quiet(final.log[|mid.log|..])
  {
    var mid := Run(cfg, s, before + [Message(id, m)]);
    RunConcat(cfg, s, before, [Message(id, m)]);
    assert mid.queryReceived;
    RunConcat(cfg, s, before + [Message(id, m)], after);
    LatchedFilterIsQuiet(cfg, mid, after);
  }

  /** One event: a disconnected session stays so and gets no timeout notice. */
  lemma StepKeepsDisconnected(cfg: Config, s: FilterState, e: Event, id: SessionId)
    requires id in s.connected && !s.connected[id]
    ensures var s' := Step(cfg, s, e);
      id in s'.connected && !s'.connected[id] && s.log <= s'.log &&
      forall k :: |s.log| <= k < |s'.log| ==> s'.log[k] != Write(id, TimeoutNotice)
  {
    if Enabled(s, e) {
      match e
      case Idle(_) =>
        assert |TimeoutNotice| < |IdleNotice|;
      case _ =>
    }
  }

  /** A session known to be disconnected stays disconnected. */
  lemma {:induction false} DisconnectedStaysDisconnected(cfg: Config, s: FilterState, events: seq<Event>, id: SessionId)
    requires id in s.connected && !s.connected[id]
    ensures var final := Run(cfg, s, events);
      id in final.connected && !final.connected[id] && s.log <= final.log &&
      forall k :: |s.log| <= k < |final.log| ==> final.log[k] != Write(id, TimeoutNotice)
    decreases |events|
  {
    if events != [] {
      var s' := Step(cfg, s, events[0]);
      StepKeepsDisconnected(cfg, s, events[0], id);
      DisconnectedStaysDisconnected(cfg, s', events[1..], id);
      var final := Run(cfg, s, events);
      assert final == Run(cfg, s', events[1..]);
      forall k | |s.log| <= k < |final.log| ensures final.log[k] != Write(id, TimeoutNotice) {
        if k < |s'.log| {
          assert final.log[k] == s'.log[k];
        }
      }
    }
  }

  /**
   * If the idle notification comes first (before any message), the session
   * gets the idle notice and is closed, and the max-wait callback that runs
   * later sends it nothing.
   */
  lemma IdleFirstMeansNoTimeoutNotice(cfg: Config, s: FilterState, id: SessionId, events: seq<Event>)
    requires id in s.connected && !s.queryReceived
    ensures var s' := Step(cfg, s, Idle(id));
      && s'.log == s.log + [Write(id, IdleNotice), Close(id)]
      && var final := Run(cfg, s', events);
         forall k :: |s'.log| <= k < |final.log| ==> final.log[k] != Write(id, TimeoutNotice)
  {
    var s' := Step(cfg, s, Idle(id));
    DisconnectedStaysDisconnected(cfg, s', events, id);
  }

  /**
   * With no message received, a session still connected when its max-wait
   * callback runs gets the timeout notice and is closed.
   */
  lemma MaxWaitExpiresSilentSession(cfg: Config, s: FilterState, id: SessionId)
    requires id in s.pending && !s.queryReceived && id in s.connected && s.connected[id]
    ensures Step(cfg, s, MaxWaitElapsed(id)).log == s.log + [Write(id, TimeoutNotice), Close(id)]
    ensures !Step(cfg, s, MaxWaitElapsed(id)).connected[id]
  {
  }

  // ------------------------------------------------------------ the filter

  class TimeoutFilter {
    const maxTime: int32
    const maxIdle: int32
    var queryReceived: bool
    var connected: map<SessionId, bool>
    var pending: multiset<SessionId>
    var log: seq<Action>

    function State(): FilterState
      reads this
    {
      FilterState(queryReceived, connected, pending, log)
    }

    function Cfg(): Config {
      Config(maxTime, maxIdle)
    }

    constructor (maxTime: int32, maxIdle: int32)
      ensures this.maxTime == maxTime && this.maxIdle == maxIdle
      ensures State() == Initial()
    {
      this.maxTime := maxTime;
      this.maxIdle := maxIdle;
      queryReceived := false;
      connected := map[];
      pending := multiset{};
      log := [];
    }

    /** Sets the reader idle time, schedules the max-wait callback, then passes the event on. */
    method SessionCreated(id: SessionId)
      requires id !in connected
      modifies this
      ensures State() == Step(Cfg(), old(State()), Created(id))
      ensures queryReceived == old(queryReceived)
      ensures connected == old(connected)[id := true]
      ensures pending == old(pending) + multiset{id}
      ensures log == old(log) + [SetReaderIdle(id, maxIdle), Schedule(id, maxTime), ForwardCreated(id)]
    {
      connected := connected[id := true];
      log := log + [SetReaderIdle(id, maxIdle)];
      pending := pending + multiset{id};
      log := log + [Schedule(id, maxTime)];
      log := log + [ForwardCreated(id)];
    }

    /** Sets the latch, then passes the same message on. */
    method MessageReceived(id: SessionId, message: string)
      modifies this
      ensures State() == Step(Cfg(), old(State()), Message(id, message))
      ensures queryReceived
      ensures connected == old(connected) && pending == old(pending)
      ensures log == old(log) + [SetQueryReceived, ForwardMessage(id, message)]
    {
      queryReceived := true;
      log := log + [SetQueryReceived];
      log := log + [ForwardMessage(id, message)];
    }

    /** The scheduled callback: only a session still connected, and only while the latch is clear. */
    method MaxWaitCallback(id: SessionId)
      requires id in pending
      modifies this
      ensures State() == Step(Cfg(), old(State()), MaxWaitElapsed(id))
      ensures queryReceived == old(queryReceived)
      ensures pending == old(pending) - multiset{id}
      ensures var fires := !old(queryReceived) && id in old(connected) && old(connected)[id];
        && connected == (if fires then old(connected)[id := false] else old(connected))
        && log == old(log) + (if fires then [Write(id, TimeoutNotice), Close(id)] else [])
    {
      pending := pending - multiset{id};
      if !queryReceived && id in connected && connected[id] {
        log := log + [Write(id, TimeoutNotice)];
        log := log + [Close(id)];
        connected := connected[id := false];
      }
    }

    /** The idle notification: checks only the latch, not whether the session is connected. */
    method SessionIdle(id: SessionId)
      requires id in connected
      modifies this
      ensures State() == Step(Cfg(), old(State()), Idle(id))
      ensures queryReceived == old(queryReceived) && pending == old(pending)
      ensures connected == (if old(queryReceived) then old(connected) else old(connected)[id := false])
      ensures log == old(log) + (if old(queryReceived) then [] else [Write(id, IdleNotice), Close(id)])
    {
      if !queryReceived {
        log := log + [Write(id, IdleNotice)];
        log := log + [Close(id)];
        connected := connected[id := false];
      }
    }

    /** The session closed for another reason (the peer, or the close after the reply). */
    method SessionClosed(id: SessionId)
      requires id in connected
      modifies this
      ensures State() == Step(Cfg(), old(State()), PeerClosed(id))
      ensures connected == old(connected)[id := false]
      ensures queryReceived == old(queryReceived) && pending == old(pending) && log == old(log)
    {
      connected := connected[id := false];
    }
  }
}
