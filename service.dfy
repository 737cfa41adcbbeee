/**
 * The broadcast engine (`SSEService`): the registry of active push sessions,
 * the inbound bus-message handler, the heartbeat tick, `connect`, `publish`,
 * the statistics and `close`.
 */
module Service {
  import opened Wrappers
  import opened Values
  import opened Messages
  import opened Sessions

  /** `SSEConfig`: the bus channel and the optional heartbeat period in milliseconds. */
  datatype Config = Config(channel: string, heartbeatInterval: Option<int>)

  /** `req.user` as the auth layer leaves it. */
  datatype User = User(id: string, name: string, permissions: Option<seq<string>>)

  /** How `connect` ends: 401, an open stream, or the error handed to `next`. */
  datatype ConnectOutcome = Unauthorized | Connected | Failed

  /** A message handed to the publisher, with the channel it goes to. */
  datatype BusMessage = BusMessage(channel: string, payload: Value)

  /** A heartbeat timer is installed only for a truthy period: not when absent or 0. */
  predicate HeartbeatEnabled(interval: Option<int>): (enabled: bool)
    ensures enabled == Truthy(if interval.None? then Undefined else Num(interval.value))
  {
    interval.Some? && interval.value != 0
  }

  function HeartbeatFrame(now: Timestamp): Frame
  {
    Frame("heartbeat", Obj(map["timestamp" := Str(now)]))
  }

  function ConnectionFrame(now: Timestamp): Frame
  {
    Frame("connection", Obj(map["connected" := Bool(true), "timestamp" := Str(now)]))
  }

  function ShutdownFrame(): Frame
  {
    Frame("shutdown", Obj(map["message" := Str("Server shutting down")]))
  }

  /** A session registered by `connect`: it carries a state with a permission list. */
  predicate Registered(s: Session)
  {
    s.state.Some? && s.state.value.permissions.Some?
  }

  class SseService {
    const config: Config
    /** `channel.activeSessions`, in registration order. */
    var sessions: seq<Session>
    /** Whether a heartbeat interval timer is installed. */
    var heartbeatTicker: bool
    /** Every message handed to the publisher so far. */
    var outbox: seq<BusMessage>

    /** Every session in the registry went through `connect`. */
    ghost predicate Valid()
      reads this
    {
      forall i :: 0 <= i < |sessions| ==> Registered(sessions[i])
    }

    /** The constructor and `initialize`: an empty registry, and a ticker only for a truthy period. */
    constructor (config: Config)
      ensures Valid()
      ensures this.config == config
      ensures sessions == [] && outbox == []
      ensures heartbeatTicker <==> HeartbeatEnabled(config.heartbeatInterval)
    {
      this.config := config;
      sessions := [];
      outbox := [];
      heartbeatTicker := HeartbeatEnabled(config.heartbeatInterval);
    }

    /**
     * The bus-message callback: a value that fails the shape check is dropped
     * and nothing changes; a valid one is broadcast.
     */
    method OnBusMessage(raw: Value) returns (delivered: Option<nat>)
      requires Valid()
      modifies this`sessions
      ensures Valid()
      ensures Malformed(raw) ==> delivered == None && sessions == old(sessions)
      ensures ParseMessage(raw).Some? ==>
        var m := ParseMessage(raw).value;
        sessions == Broadcast(old(sessions), m) && delivered == Some(DeliveredCount(old(sessions), m))
    {
      var parsed := ParseMessage(raw);
      if parsed.None? {
        return None;
      }
      var n := BroadcastMessage(parsed.value);
      delivered := Some(n);
    }

    /**
     * `broadcastMessage`: one pass over the registry, pushing `m` to each
     * permitted session; a push that throws is caught and the pass goes on.
     * Returns the final `deliveredCount`.
     */
    method BroadcastMessage(m: Message) returns (delivered: nat)
      requires Valid()
      modifies this`sessions
      ensures Valid()
      ensures sessions == Broadcast(old(sessions), m)
      ensures delivered == DeliveredCount(old(sessions), m)
      ensures delivered == |set i: nat | i < |old(sessions)| &&
        m.event in PermissionsOf(old(sessions)[i]) && !old(sessions)[i].broken|
    {
      ghost var before := sessions;
      delivered := 0;
      var i := 0;
      while i < |sessions|
        invariant 0 <= i <= |sessions| == |before|
        invariant forall j :: 0 <= j < i ==> sessions[j] == DeliverTo(before[j], m)
        invariant forall j :: i <= j < |before| ==> sessions[j] == before[j]
        invariant delivered == DeliveredCount(before[..i], m)
        invariant Valid()
      {
        var s := sessions[i];
        if Permits(s, m.event) {
          if !s.broken {
            sessions := sessions[i := Push(s, Frame(m.event, m.data))];
            delivered := delivered + 1;
          }
        }
        assert before[..i + 1][..i] == before[..i];
        i := i + 1;
      }
      assert before[..i] == before;
      assert sessions == Broadcast(before, m);
      DeliveredCountIsReceivers(before, m);
      RegistryReceives(before, m);
      assert Receivers(before, m) == set i: nat | i < |before| &&
        m.event in PermissionsOf(before[i]) && !before[i].broken;
    }

    /**
     * One firing of the heartbeat timer; with no timer installed nothing
     * fires.  The pass pushes the heartbeat to every session in order and
     * stops at the first push that throws.
     */
    method HeartbeatTick(now: Timestamp)
      requires Valid()
      modifies this`sessions
      ensures Valid()
      ensures heartbeatTicker ==> sessions == Heartbeat(old(sessions), HeartbeatFrame(now))
      ensures !heartbeatTicker ==> sessions == old(sessions)
    {
      if !heartbeatTicker || |sessions| == 0 {
        return;
      }
      ghost var before := sessions;
      var f := HeartbeatFrame(now);
      var i := 0;
      while i < |sessions|
        invariant 0 <= i <= FirstBroken(before) && |sessions| == |before|
        invariant forall j :: 0 <= j < i ==> sessions[j] == Push(before[j], f)
        invariant sessions[i..] == before[i..]
        invariant Valid()
      {
        if sessions[i].broken {
          break;
        }
        sessions := sessions[i := Push(sessions[i], f)];
        i := i + 1;
      }
      assert i == FirstBroken(before);
    }

    /**
     * `connect`: a request without a user or without a permission list gets
     * 401 and registers nothing.  Otherwise one new session carrying the
     * user's permissions, name and id is registered and then sent one
     * "connection" frame; when that push throws the session stays registered
     * without it and the error goes to `next`.  The clock is read twice: once
     * for the state's `connectedAt`, once for the frame's timestamp.
     */
    method Connect(user: Option<User>, connectedAt: Timestamp, ackAt: Timestamp, broken: bool)
      returns (outcome: ConnectOutcome)
      requires Valid()
      modifies this`sessions
      ensures Valid()
      ensures (user.None? || user.value.permissions.None?) <==> outcome == Unauthorized
      ensures outcome == Unauthorized ==> sessions == old(sessions)
      ensures outcome != Unauthorized ==>
        var u := user.value;
        var created := Session(Some(SessionState(u.permissions, u.name, u.id, connectedAt)), [], broken);
        sessions == old(sessions) + [Push(created, ConnectionFrame(ackAt))] &&
        (outcome == Connected <==> !broken)
    {
      if user.None? || user.value.permissions.None? {
        return Unauthorized;
      }
      var u := user.value;
      var session := Session(Some(SessionState(u.permissions, u.name, u.id, connectedAt)), [], broken);
      sessions := sessions + [session];
      if session.broken {
        return Failed;
      }
      sessions := sessions[|sessions| - 1 := Push(session, ConnectionFrame(ackAt))];
      outcome := Connected;
    }

    /** `publish`: hands `{event, data}` to the publisher on the configured channel. */
    method Publish(event: string, data: Value)
      modifies this`outbox
      ensures outbox == old(outbox) + [BusMessage(config.channel, EncodeMessage(Message(event, data)))]
      ensures ParseMessage(outbox[|outbox| - 1].payload) == Some(Message(event, data))
    {
      outbox := outbox + [BusMessage(config.channel, EncodeMessage(Message(event, data)))];
    }

    /** `getActiveSessionsCount`. */
    method ActiveSessionsCount() returns (n: nat)
      ensures n == |sessions|
    {
      n := |sessions|;
    }

    /**
     * `getActiveSessionsByPermission`: for every permission, the number of
     * its occurrences across all sessions' permission lists, and no other key.
     */
    method ActiveSessionsByPermission() returns (counts: map<string, nat>)
      ensures Tallies(counts, multiset(AllPermissions(sessions)))
    {
      counts := map[];
      var i := 0;
      while i < |sessions|
        invariant 0 <= i <= |sessions|
        invariant Tallies(counts, multiset(AllPermissions(sessions[..i])))
      {
        ghost var seen := AllPermissions(sessions[..i]);
        var s := sessions[i];
        if s.state.Some? && s.state.value.permissions.Some? {
          var ps := s.state.value.permissions.value;
          var j := 0;
          while j < |ps|
            invariant 0 <= j <= |ps|
            invariant Tallies(counts, multiset(seen + ps[..j]))
          {
            TallyStep(counts, seen, ps, j);
            counts := Bump(counts, ps[j]);
            j := j + 1;
          }
          assert ps[..j] == ps;
        }
        AllPermissionsStep(sessions, i);
        i := i + 1;
      }
      assert sessions[..i] == sessions;
    }

    /**
     * `close`: removes the heartbeat timer and pushes one shutdown notice to
     * every session, each push in its own try; the registry keeps every session.
     */
    method Close()
      requires Valid()
      modifies this`sessions, this`heartbeatTicker
      ensures Valid()
      ensures !heartbeatTicker
      ensures sessions == PushEach(old(sessions), ShutdownFrame())
    {
      heartbeatTicker := false;
      ghost var before := sessions;
      var i := 0;
      while i < |sessions|
        invariant 0 <= i <= |sessions| == |before|
        invariant forall j :: 0 <= j < i ==> sessions[j] == Push(before[j], ShutdownFrame())
        invariant sessions[i..] == before[i..]
        invariant Valid() && !heartbeatTicker
      {
        if !sessions[i].broken {
          sessions := sessions[i := Push(sessions[i], ShutdownFrame())];
        }
        i := i + 1;
      }
    }
  }

  /**
   * In a registry built by `connect` every session has a permission list, so
   * a session ends up with a message exactly when the event is in its list
   * and its push does not throw.
   */
  lemma RegistryReceives(ss: seq<Session>, m: Message)
    requires forall i :: 0 <= i < |ss| ==> Registered(ss[i])
    ensures forall i :: 0 <= i < |ss| ==> (Permits(ss[i], m.event) <==> m.event in PermissionsOf(ss[i]))
    ensures forall i :: 0 <= i < |ss| ==>
      (Receives(ss[i], m) <==> m.event in PermissionsOf(ss[i]) && !ss[i].broken)
  {
    forall i | 0 <= i < |ss|
      ensures Permits(ss[i], m.event) <==> m.event in PermissionsOf(ss[i])
      ensures Receives(ss[i], m) <==> m.event in PermissionsOf(ss[i]) && !ss[i].broken
    {
      assert Registered(ss[i]);
    }
  }

  /**
   * A permission's count in the statistics equals the number of sessions
   * that a broadcast of that event reaches, when no session lists a
   * permission twice and no transport is broken.
   */
  lemma TallyMatchesDelivered(ss: seq<Session>, counts: map<string, nat>, m: Message)
    requires Tallies(counts, multiset(AllPermissions(ss)))
    requires forall i :: 0 <= i < |ss| ==> DistinctPermissions(ss[i]) && !ss[i].broken
    ensures DeliveredCount(ss, m) == if m.event in counts then counts[m.event] else 0
  {
    OccurrencesCountSessions(ss, m.event);
    DeliveredCountMatchesPermitting(ss, m);
  }

  /**
   * Two sessions with disjoint permissions; publishing "newRent" and feeding
   * the published message back through the bus handler reaches only the
   * session allowed "newRent".
   */
  method PublishReachesOnlyPermitted()
  {
    var service := new SseService(Config("sse-events", Some(1000)));
    var a := service.Connect(Some(User("1", "A", Some(["newRent"]))), "t0", "t1", false);
    var b := service.Connect(Some(User("2", "B", Some(["newBloq"]))), "t2", "t3", false);
    assert a == Connected && b == Connected;
    var payload := Obj(map["msg" := Str("x")]);
    service.Publish("newRent", payload);
    var n := service.OnBusMessage(service.outbox[0].payload);
    assert n == Some(1);
    assert service.sessions[0].frames == [ConnectionFrame("t1"), Frame("newRent", payload)];
    assert service.sessions[1].frames == [ConnectionFrame("t3")];
  }
}
