/**
 * Push sessions as the broadcast engine sees them, and the specification of
 * what one pass of each engine loop does to the list of active sessions:
 * the permission-filtered broadcast, the heartbeat tick, the shutdown notice
 * and the per-permission statistics.
 */
module Sessions {
  import opened Wrappers
  import opened Values
  import opened Messages

  /** One frame pushed down a session's stream by `session.push(data, event)`. */
  datatype Frame = Frame(event: string, data: Value)

  /** The state bag that `connect` stores on a session. */
  datatype SessionState = SessionState(
    permissions: Option<seq<string>>,
    user: string,
    userId: string,
    connectedAt: Timestamp)

  /**
   * An active session: its state (absent if none was ever set), the frames
   * pushed to it so far, and whether its transport is broken, in which case
   * every push to it throws and delivers nothing.
   */
  datatype Session = Session(state: Option<SessionState>, frames: seq<Frame>, broken: bool)

  /** The permission list of a session, empty when it has no state or no permissions. */
  function PermissionsOf(s: Session): seq<string>
  {
    if s.state.Some? && s.state.value.permissions.Some? then s.state.value.permissions.value else []
  }

  /** The session has a state with a permission list, and the list holds `event`. */
  predicate Permits(s: Session, event: string)
  {
    s.state.Some? && s.state.value.permissions.Some? && event in s.state.value.permissions.value
  }

  /** A push of frame `f`: appends it, or throws on a broken transport and leaves the session as it was. */
  function Push(s: Session, f: Frame): Session
  {
    if s.broken then s else s.(frames := s.frames + [f])
  }

  // ---------------------------------------------------------------------
  // broadcastMessage

  /** What `broadcastMessage(m)` does to one session. */
  function DeliverTo(s: Session, m: Message): Session
  {
    if Permits(s, m.event) then Push(s, Frame(m.event, m.data)) else s
  }

  /** A session that ends up with the message: it is permitted and its push does not throw. */
  predicate Receives(s: Session, m: Message)
  {
    Permits(s, m.event) && !s.broken
  }

  /** The sessions after one `broadcastMessage(m)` pass over `ss`. */
  function Broadcast(ss: seq<Session>, m: Message): seq<Session>
  {
    seq(|ss|, i requires 0 <= i < |ss| => DeliverTo(ss[i], m))
  }

  /** The final value of `deliveredCount` after a pass over `ss`. */
  function DeliveredCount(ss: seq<Session>, m: Message): (n: nat)
    ensures n <= |ss|
  {
    if ss == [] then 0
    else DeliveredCount(ss[..|ss| - 1], m) + (if Receives(ss[|ss| - 1], m) then 1 else 0)
  }

  /** The indices of the sessions that end up with the message. */
  function Receivers(ss: seq<Session>, m: Message): set<nat>
  {
    set i: nat | i < |ss| && Receives(ss[i], m)
  }

  /**
   * A session gets exactly the frame `(m.event, m.data)` if and only if its
   * permissions include `m.event` and its push does not throw; every other
   * session, and every session's state and transport, is left as it was.
   */
  lemma BroadcastDeliversIffPermitted(ss: seq<Session>, m: Message, i: nat)
    requires i < |ss|
    ensures |Broadcast(ss, m)| == |ss|
    ensures Broadcast(ss, m)[i].state == ss[i].state
    ensures Broadcast(ss, m)[i].broken == ss[i].broken
    ensures Receives(ss[i], m) ==> Broadcast(ss, m)[i].frames == ss[i].frames + [Frame(m.event, m.data)]
    ensures !Receives(ss[i], m) ==> Broadcast(ss, m)[i] == ss[i]
  {
  }

  /** `deliveredCount` counts exactly the sessions that received the message. */
  lemma {:induction false} DeliveredCountIsReceivers(ss: seq<Session>, m: Message)
    ensures DeliveredCount(ss, m) == |Receivers(ss, m)|
  {
    if ss != [] {
      var n := |ss| - 1;
      var pre := ss[..n];
      DeliveredCountIsReceivers(pre, m);
      if Receives(ss[n], m) {
        assert Receivers(ss, m) == Receivers(pre, m) + {n};
      } else {
        assert Receivers(ss, m) == Receivers(pre, m);
      }
    }
  }

  /** A message nobody is permitted to receive changes nothing. */
  lemma BroadcastUnpermittedIsNoOp(ss: seq<Session>, m: Message)
    requires forall i :: 0 <= i < |ss| ==> !Permits(ss[i], m.event)
    ensures Broadcast(ss, m) == ss
    ensures DeliveredCount(ss, m) == 0
  {
    DeliveredCountIsReceivers(ss, m);
    assert Receivers(ss, m) == {};
  }

  // ---------------------------------------------------------------------
  // Heartbeat tick

  /**
   * The index of the first session whose push throws, or `|ss|` when none
   * does.  The heartbeat loop has a single try around the whole pass, so the
   * first throwing push ends the pass.
   */
  function FirstBroken(ss: seq<Session>): (k: nat)
    ensures k <= |ss|
    ensures forall i :: 0 <= i < k ==> !ss[i].broken
    ensures k < |ss| ==> ss[k].broken
  {
    if ss == [] then 0
    else if ss[0].broken then 0
    else 1 + FirstBroken(ss[1..])
  }

  /** The sessions after one heartbeat pass: `f` reaches every session before the first broken one. */
  function Heartbeat(ss: seq<Session>, f: Frame): seq<Session>
  {
    seq(|ss|, i requires 0 <= i < |ss| => if i < FirstBroken(ss) then Push(ss[i], f) else ss[i])
  }

  /**
   * Every session before the first broken transport (every session, when
   * none is broken) gets the heartbeat, whatever its permissions, as exactly
   * one more frame; nothing else about it changes.
   */
  lemma HeartbeatReachesBeforeBroken(ss: seq<Session>, f: Frame, i: nat)
    requires i < FirstBroken(ss)
    ensures |Heartbeat(ss, f)| == |ss|
    ensures Heartbeat(ss, f)[i] == ss[i].(frames := ss[i].frames + [f])
  {
  }

  /** One broken transport ends the pass: it and every later session get nothing. */
  lemma HeartbeatStopsAtBroken(ss: seq<Session>, f: Frame, k: nat, i: nat)
    requires k <= i < |ss|
    requires ss[k].broken
    ensures |Heartbeat(ss, f)| == |ss|
    ensures Heartbeat(ss, f)[i] == ss[i]
  {
  }

  // ---------------------------------------------------------------------
  // close

  /** The sessions after `close` pushes `f` to each of them, each push in its own try. */
  function PushEach(ss: seq<Session>, f: Frame): seq<Session>
  {
    seq(|ss|, i requires 0 <= i < |ss| => Push(ss[i], f))
  }

  /**
   * Every session with a working transport gets exactly one more frame `f`; a
   * broken one is left as it was and does not stop the others.
   */
  lemma PushEachIsolatesFailures(ss: seq<Session>, f: Frame, i: nat)
    requires i < |ss|
    ensures |PushEach(ss, f)| == |ss|
    ensures !ss[i].broken ==> PushEach(ss, f)[i] == ss[i].(frames := ss[i].frames + [f])
    ensures ss[i].broken ==> PushEach(ss, f)[i] == ss[i]
  {
  }

  // ---------------------------------------------------------------------
  // getActiveSessionsByPermission

  /** All permission entries of all sessions, in registry order (repeats kept). */
  function AllPermissions(ss: seq<Session>): seq<string>
  {
    if ss == [] then [] else AllPermissions(ss[..|ss| - 1]) + PermissionsOf(ss[|ss| - 1])
  }

  /** `counts` holds, for each permission, its number of occurrences in `ms`, and no other key. */
  ghost predicate Tallies(counts: map<string, nat>, ms: multiset<string>)
  {
    (forall p :: p in counts <==> p in ms) &&
    (forall p :: p in counts ==> counts[p] == ms[p])
  }

  /** One increment of the statistics dictionary: a missing key starts from 0. */
  function Bump(counts: map<string, nat>, p: string): map<string, nat>
  {
    counts[p := (if p in counts then counts[p] else 0) + 1]
  }

  /** Bumping a key keeps the dictionary a tally of the list grown by that key. */
  lemma TallyStep(counts: map<string, nat>, seen: seq<string>, ps: seq<string>, j: nat)
    requires j < |ps|
    requires Tallies(counts, multiset(seen + ps[..j]))
    ensures Tallies(Bump(counts, ps[j]), multiset(seen + ps[..j + 1]))
  {
    assert seen + ps[..j + 1] == seen + ps[..j] + [ps[j]];
    assert multiset(seen + ps[..j + 1]) == multiset(seen + ps[..j]) + multiset{ps[j]};
  }

  /** The permission entries of a registry prefix grow by one session's list at a time. */
  lemma AllPermissionsStep(ss: seq<Session>, i: nat)
    requires i < |ss|
    ensures AllPermissions(ss[..i + 1]) == AllPermissions(ss[..i]) + PermissionsOf(ss[i])
  {
    assert ss[..i + 1][..i] == ss[..i];
  }

  /** The number of sessions whose permissions include `p`. */
  function CountPermitting(ss: seq<Session>, p: string): (n: nat)
    ensures n <= |ss|
  {
    if ss == [] then 0
    else CountPermitting(ss[..|ss| - 1], p) + (if Permits(ss[|ss| - 1], p) then 1 else 0)
  }

  /** No permission is listed twice by one session. */
  predicate DistinctPermissions(s: Session)
  {
    var ps := PermissionsOf(s);
    forall i, j :: 0 <= i < j < |ps| ==> ps[i] != ps[j]
  }

  /** In a list without repeats an element occurs once or not at all. */
  lemma {:induction false} OccursOnce(ps: seq<string>, p: string)
    requires forall i, j :: 0 <= i < j < |ps| ==> ps[i] != ps[j]
    ensures multiset(ps)[p] == if p in ps then 1 else 0
  {
    if ps != [] {
      var n := |ps| - 1;
      OccursOnce(ps[..n], p);
      assert ps == ps[..n] + [ps[n]];
      if ps[n] == p {
        assert p !in ps[..n] by {
          forall i | 0 <= i < n ensures ps[..n][i] != p { }
        }
      }
    }
  }

  /**
   * When no session lists a permission twice, the count for `p` is the
   * number of sessions holding permission `p`.
   */
  lemma {:induction false} OccurrencesCountSessions(ss: seq<Session>, p: string)
    requires forall i :: 0 <= i < |ss| ==> DistinctPermissions(ss[i])
    ensures multiset(AllPermissions(ss))[p] == CountPermitting(ss, p)
  {
    if ss != [] {
      var n := |ss| - 1;
      OccurrencesCountSessions(ss[..n], p);
      assert DistinctPermissions(ss[n]);
      OccursOnce(PermissionsOf(ss[n]), p);
    }
  }

  /** With no broken transport, `deliveredCount` is the number of sessions holding the event's permission. */
  lemma {:induction false} DeliveredCountMatchesPermitting(ss: seq<Session>, m: Message)
    requires forall i :: 0 <= i < |ss| ==> !ss[i].broken
    ensures DeliveredCount(ss, m) == CountPermitting(ss, m.event)
  {
    if ss != [] {
      DeliveredCountMatchesPermitting(ss[..|ss| - 1], m);
    }
  }
}
