/**
  The control path of src/modules/socket/socket.gateway.ts: handshakes with an ownership check that
  may be overtaken by a disconnect, the per-socket rate limit, and the emergency stop around it.
*/
module ControlGate {
  import opened Common
  import opened TokenBucket

  const CONTROL_LIMIT := Config(30.0, 15.0)

  /** What a completed handshake stores on the socket. */
  datatype SocketData = RobotSocket(robotId: string) | ClientSocket(room: Option<string>, userId: string)

  datatype Handshake = Rejected | AsRobot(robotId: string) | AsClient(room: Option<string>, userId: string)

  /** An event emitted to a robot's socket on behalf of a client's socket. */
  datatype Sent = Sent(from: string, robotId: string, to: string, emergency: bool, time: real)

  /**
    The gateway's maps; joining holds the handshakes that await their ownership check. The last
    fields are for the statements: ids ever used, ownership checks passed, everything forwarded.
  */
  datatype Gateway = Gateway(live: set<string>, data: map<string, SocketData>, joining: map<string, (string, string)>,
                             robots: map<string, string>, clients: map<string, set<string>>,
                             buckets: map<string, Bucket>,
                             seen: set<string>, verified: set<(string, string)>, sent: seq<Sent>)

  datatype Event =
    | Open(socket: string, handshake: Handshake)
    | EndJoin(socket: string, owns: bool)
    | Close(socket: string, dbOk: bool)
    | Control(socket: string, wellFormed: bool, now: real)
    | Emergency(socket: string, now: real)

  function Idle(): Gateway {
    Gateway({}, map[], map[], map[], map[], map[], {}, {}, [])
  }

  // ---------- Steps ----------

  /** The robot a socket may command: only clients that joined a robot's room have one. */
  function Target(g: Gateway, socket: string): Option<string> {
    if socket in g.data && g.data[socket].ClientSocket? then g.data[socket].room else None
  }

  function Clients(g: Gateway, robotId: string): set<string> {
    if robotId in g.clients then g.clients[robotId] else {}
  }

  function Opened(g: Gateway, socket: string, handshake: Handshake): Gateway {
    var g' := g.(seen := g.seen + {socket});
    match handshake
    case Rejected => g'
    case AsRobot(robotId) =>
      g'.(live := g.live + {socket}, data := g.data[socket := RobotSocket(robotId)],
          robots := g.robots[robotId := socket])
    case AsClient(None, userId) =>
      g'.(live := g.live + {socket}, data := g.data[socket := ClientSocket(None, userId)])
    case AsClient(Some(robotId), userId) =>
      g'.(live := g.live + {socket}, joining := g.joining[socket := (robotId, userId)])
  }

  /** The ownership check returns; the socket may be gone by then, and is registered all the same. */
  function Joined(g: Gateway, socket: string, owns: bool): Gateway
    requires socket in g.joining
  {
    var (robotId, userId) := g.joining[socket];
    var g' := g.(joining := g.joining - {socket});
    if owns then
      g'.(data := g.data[socket := ClientSocket(Some(robotId), userId)],
          clients := g.clients[robotId := Clients(g, robotId) + {socket}],
          verified := g.verified + {(socket, robotId)})
    else g'.(live := g.live - {socket}, buckets := g.buckets - {socket})
  }

  /** A robot's bucket is released only after its status update, which may throw. */
  function Closed(g: Gateway, socket: string, dbOk: bool): Gateway {
    var g' := g.(live := g.live - {socket});
    var released := g.buckets - {socket};
    if socket !in g.data then g'.(buckets := released)
    else
      match g.data[socket]
      case RobotSocket(robotId) =>
        g'.(robots := g.robots - {robotId}, buckets := if dbOk then released else g.buckets)
      case ClientSocket(room, _) =>
        g'.(buckets := released,
            clients := if room.Some? && room.value in g.clients
                       then g.clients[room.value := g.clients[room.value] - {socket}] else g.clients)
  }

  function Forwarded(g: Gateway, socket: string, robotId: string, emergency: bool, now: real): Gateway {
    if robotId !in g.robots then g
    else g.(sent := g.sent + [Sent(socket, robotId, g.robots[robotId], emergency, now)])
  }

  /** A token is spent before the robot is looked up and before a malformed patrol is refused. */
  function Controlled(g: Gateway, socket: string, wellFormed: bool, now: real): Gateway {
    if Target(g, socket).None? then g
    else
      var (bucket, allowed) := Acquire(CONTROL_LIMIT, Get(g.buckets, socket), now);
      var charged := g.(buckets := g.buckets[socket := bucket]);
      if allowed && wellFormed then Forwarded(charged, socket, Target(g, socket).value, false, now) else charged
  }

  function Stopped(g: Gateway, socket: string, now: real): Gateway {
    if Target(g, socket).None? then g else Forwarded(g, socket, Target(g, socket).value, true, now)
  }

  /** Socket ids are never reused, and only live sockets are heard. */
  function Next(g: Gateway, e: Event): Gateway {
    match e
    case Open(socket, handshake) => if socket in g.seen then g else Opened(g, socket, handshake)
    case EndJoin(socket, owns) => if socket !in g.joining then g else Joined(g, socket, owns)
    case Close(socket, dbOk) => if socket !in g.live then g else Closed(g, socket, dbOk)
    case Control(socket, wellFormed, now) => if socket !in g.live then g else Controlled(g, socket, wellFormed, now)
    case Emergency(socket, now) => if socket !in g.live then g else Stopped(g, socket, now)
  }

  function Run(es: seq<Event>): Gateway {
    if es == [] then Idle() else Next(Run(es[..|es| - 1]), es[|es| - 1])
  }

  // ---------- Limiter keys and authority, on any clock ----------

  ghost predicate KeysLive(g: Gateway) {
    && g.live <= g.seen && g.data.Keys <= g.seen && g.joining.Keys <= g.seen
    && g.joining.Keys !! g.data.Keys
    && (forall s :: s in g.buckets ==> s in g.live && Target(g, s).Some?)
  }

  /** Whoever may command a robot has passed its ownership check, and so has whoever did. */
  ghost predicate Authorised(g: Gateway) {
    && (forall s :: Target(g, s).Some? ==> (s, Target(g, s).value) in g.verified)
    && (forall i :: 0 <= i < |g.sent| ==> (g.sent[i].from, g.sent[i].robotId) in g.verified)
  }

  lemma OpenKeepsKeys(g: Gateway, socket: string, handshake: Handshake)
    requires KeysLive(g) && Authorised(g) && socket !in g.seen
    ensures KeysLive(Opened(g, socket, handshake)) && Authorised(Opened(g, socket, handshake))
  {
    var g' := Opened(g, socket, handshake);
    OpenFacts(g, socket, handshake);
    hide Target, Opened;
    assert forall s :: s in g.live || s in g.data || s in g.joining ==> s != socket;
  }

  lemma OpenFacts(g: Gateway, socket: string, handshake: Handshake)
    requires socket !in g.data
    ensures var g' := Opened(g, socket, handshake);
            && g'.seen == g.seen + {socket} && g.live <= g'.live <= g.live + {socket}
            && g'.buckets == g.buckets && g'.sent == g.sent && g'.verified == g.verified
            && g'.data.Keys <= g.data.Keys + {socket} && g'.joining.Keys <= g.joining.Keys + {socket}
            && (socket !in g.joining ==> socket !in g'.joining || socket !in g'.data)
            && Target(g', socket).None? && forall s :: s != socket ==> Target(g', s) == Target(g, s)
  {
  }

  lemma JoinKeepsKeys(g: Gateway, socket: string, owns: bool)
    requires KeysLive(g) && Authorised(g) && socket in g.joining
    ensures KeysLive(Joined(g, socket, owns)) && Authorised(Joined(g, socket, owns))
  {
    var g' := Joined(g, socket, owns);
    assert forall s :: s != socket ==> Target(g', s) == Target(g, s);
    assert Target(g, socket).None?;
    assert owns ==> Target(g', socket) == Some(g.joining[socket].0);
    hide Target;
  }

  /** What a close leaves, without the case split of the code. */
  lemma CloseFacts(g: Gateway, socket: string, dbOk: bool)
    ensures var g' := Closed(g, socket, dbOk);
            && g'.live == g.live - {socket} && g'.data == g.data && g'.joining == g.joining
            && g'.seen == g.seen && g'.verified == g.verified && g'.sent == g.sent
            && (g'.buckets == g.buckets - {socket} ||
                (socket in g.data && g.data[socket].RobotSocket? && g'.buckets == g.buckets))
    ensures Closed(g, socket, dbOk).clients ==
            if Target(g, socket).Some? && Target(g, socket).value in g.clients
            then g.clients[Target(g, socket).value := g.clients[Target(g, socket).value] - {socket}] else g.clients
    ensures Closed(g, socket, dbOk).robots ==
            if socket in g.data && g.data[socket].RobotSocket? then g.robots - {g.data[socket].robotId} else g.robots
  {
    if socket in g.data {
      match g.data[socket]
      case RobotSocket(_) =>
      case ClientSocket(_, _) =>
    }
  }

  lemma CloseKeepsKeys(g: Gateway, socket: string, dbOk: bool)
    requires KeysLive(g) && Authorised(g)
    ensures KeysLive(Closed(g, socket, dbOk)) && Authorised(Closed(g, socket, dbOk))
  {
    var g' := Closed(g, socket, dbOk);
    CloseFacts(g, socket, dbOk);
    hide Closed;
    assert forall s :: Target(g', s) == Target(g, s);
    assert socket in g.data && g.data[socket].RobotSocket? ==> socket !in g.buckets;
    hide Target;
  }

  lemma ForwardKeepsKeys(g: Gateway, socket: string, robotId: string, emergency: bool, now: real)
    requires KeysLive(g) && Authorised(g) && Target(g, socket) == Some(robotId)
    ensures KeysLive(Forwarded(g, socket, robotId, emergency, now))
    ensures Authorised(Forwarded(g, socket, robotId, emergency, now))
  {
    var g' := Forwarded(g, socket, robotId, emergency, now);
    assert forall s :: Target(g', s) == Target(g, s);
    hide Target;
  }

  lemma ControlKeepsKeys(g: Gateway, socket: string, wellFormed: bool, now: real)
    requires KeysLive(g) && Authorised(g) && socket in g.live
    ensures KeysLive(Controlled(g, socket, wellFormed, now)) && Authorised(Controlled(g, socket, wellFormed, now))
  {
    hide Acquire;
    if Target(g, socket).Some? {
      var charged := g.(buckets := g.buckets[socket := Acquire(CONTROL_LIMIT, Get(g.buckets, socket), now).0]);
      assert forall s :: Target(charged, s) == Target(g, s);
      hide Target, Forwarded;
      ForwardKeepsKeys(charged, socket, Target(g, socket).value, false, now);
    }
  }

  lemma NextKeepsKeys(g: Gateway, e: Event)
    requires KeysLive(g) && Authorised(g)
    ensures KeysLive(Next(g, e)) && Authorised(Next(g, e))
  {
    hide KeysLive, Authorised, Opened, Joined, Closed, Controlled, Forwarded;
    match e
    case Open(socket, handshake) => if socket !in g.seen { OpenKeepsKeys(g, socket, handshake); }
    case EndJoin(socket, owns) => if socket in g.joining { JoinKeepsKeys(g, socket, owns); }
    case Close(socket, dbOk) => CloseKeepsKeys(g, socket, dbOk);
    case Control(socket, wellFormed, now) => if socket in g.live { ControlKeepsKeys(g, socket, wellFormed, now); }
    case Emergency(socket, now) =>
      if Target(g, socket).Some? { ForwardKeepsKeys(g, socket, Target(g, socket).value, true, now); }
  }

  /**
    Main result, with handshakes split at their await: limiter buckets exist only for live client
    sockets, and every command forwarded, emergencies included, comes from a socket whose user
    passed the ownership check of that robot.
  */
  lemma {:induction false} LimiterKeysAreLiveClients(es: seq<Event>)
    ensures KeysLive(Run(es)) && Authorised(Run(es))
  {
    if es != [] {
      LimiterKeysAreLiveClients(es[..|es| - 1]);
      NextKeepsKeys(Run(es[..|es| - 1]), es[|es| - 1]);
    }
  }

  // ---------- The rate of forwarded commands ----------

  /** When the non-emergency events of a socket were forwarded. */
  function TimesFrom(sent: seq<Sent>, socket: string): seq<real> {
    if sent == [] then []
    else
      var before, last := TimesFrom(sent[..|sent| - 1], socket), sent[|sent| - 1];
      if last.from == socket && !last.emergency then before + [last.time] else before
  }

  /** The times of controls never go back. */
  predicate Timely(es: seq<Event>) {
    es == [] || (Timely(es[..|es| - 1]) && LastControl(es[..|es| - 1]) <= LastControl(es))
  }

  function LastControl(es: seq<Event>): real {
    if es == [] then 0.0
    else if es[|es| - 1].Control? then es[|es| - 1].now
    else LastControl(es[..|es| - 1])
  }

  /** A socket's bucket never holds more than its own forwarded stream leaves room for. */
  ghost predicate Paced(g: Gateway, socket: string, clock: real) {
    var times := TimesFrom(g.sent, socket);
    && WithinEnvelope(CONTROL_LIMIT, times)
    && (socket in g.buckets ==>
          && g.buckets[socket].lastRefillMs <= clock
          && g.buckets[socket].tokens <= Level(CONTROL_LIMIT, times, g.buckets[socket].lastRefillMs))
    && (socket !in g.buckets && (socket in g.live || socket !in g.seen) ==> times == [])
  }

  /** Spending from a bucket that is not ahead of the stream, with or without forwarding, keeps it so. */
  lemma AcquireKeepsPace(b: Option<Bucket>, times: seq<real>, now: real)
    requires b.None? ==> times == []
    requires b.Some? ==>
               b.value.lastRefillMs <= now && b.value.tokens <= Level(CONTROL_LIMIT, times, b.value.lastRefillMs)
    ensures Acquire(CONTROL_LIMIT, b, now).0.lastRefillMs == now
    ensures Acquire(CONTROL_LIMIT, b, now).0.tokens <= Level(CONTROL_LIMIT, times, now)
    ensures Acquire(CONTROL_LIMIT, b, now).1 ==>
              && Level(CONTROL_LIMIT, times, now) >= 1.0
              && Acquire(CONTROL_LIMIT, b, now).0.tokens <= Level(CONTROL_LIMIT, times + [now], now)
  {
    hide Credit;
    CreditZero(CONTROL_LIMIT);
    if b.Some? {
      LevelAfterWait(CONTROL_LIMIT, times, b.value.lastRefillMs, now);
    }
    LevelAfterGrant(CONTROL_LIMIT, times, now);
  }

  lemma SentAppend(sent: seq<Sent>, x: Sent, socket: string)
    ensures TimesFrom(sent + [x], socket) ==
            if x.from == socket && !x.emergency then TimesFrom(sent, socket) + [x.time] else TimesFrom(sent, socket)
  {
    assert (sent + [x])[..|sent|] == sent;
  }

  lemma ControlKeepsPace(g: Gateway, e: Event, socket: string, clock: real)
    requires KeysLive(g) && Paced(g, socket, clock)
    requires e.Control? && clock <= e.now
    ensures Paced(Next(g, e), socket, e.now)
  {
    hide Credit, Level, WithinEnvelope, Acquire, TimesFrom;
    var times := TimesFrom(g.sent, socket);
    if e.socket in g.live && Target(g, e.socket).Some? {
      var robotId := Target(g, e.socket).value;
      if robotId in g.robots {
        SentAppend(g.sent, Sent(e.socket, robotId, g.robots[robotId], false, e.now), socket);
      }
      if e.socket == socket {
        AcquireKeepsPace(Get(g.buckets, socket), times, e.now);
        EnvelopeExtends(CONTROL_LIMIT, times, e.now);
      }
    }
  }

  lemma OtherEventsKeepPace(g: Gateway, e: Event, socket: string, clock: real)
    requires KeysLive(g) && Paced(g, socket, clock)
    requires !e.Control?
    ensures Paced(Next(g, e), socket, clock)
  {
    hide Credit, Level, WithinEnvelope, TimesFrom;
    match e
    case Open(other, handshake) =>
      if other !in g.seen {
        OpenFacts(g, other, handshake);
        hide Opened, Target;
      }
    case EndJoin(_, _) => hide Target;
    case Close(_, _) => hide Target;
    case Control(_, _, _) =>
    case Emergency(other, now) =>
      if Target(g, other).Some? && Target(g, other).value in g.robots {
        var robotId := Target(g, other).value;
        SentAppend(g.sent, Sent(other, robotId, g.robots[robotId], true, now), socket);
      }
  }

  lemma {:induction false} RunKeepsPace(es: seq<Event>, socket: string)
    requires Timely(es)
    ensures Paced(Run(es), socket, LastControl(es))
  {
    if es == [] {
      EmptyEnvelope(CONTROL_LIMIT);
    } else {
      var front, e := es[..|es| - 1], es[|es| - 1];
      RunKeepsPace(front, socket);
      LimiterKeysAreLiveClients(front);
      hide Next, Paced, KeysLive;
      if e.Control? {
        ControlKeepsPace(Run(front), e, socket, LastControl(front));
      } else {
        OtherEventsKeepPace(Run(front), e, socket, LastControl(front));
      }
    }
  }

  /** The burst, and 15 per second of the window. */
  function RateLimit(a: real, b: real): real {
    30.0 + 15.0 * ((b - a) / 1000.0)
  }

  /** Main result: in any window of time, a client socket has at most 30 + 15 per second forwarded. */
  lemma SocketRateBounded(es: seq<Event>, socket: string, a: real, b: real)
    requires Timely(es) && a <= b
    ensures CountWithin(TimesFrom(Run(es).sent, socket), a, b) as real <= RateLimit(a, b)
  {
    RunKeepsPace(es, socket);
    WindowHoldsAtMost(CONTROL_LIMIT, TimesFrom(Run(es).sent, socket), a, b);
  }

  // ---------- A robot's inbound total ----------

  /** Non-emergency events that sockets of group forwarded to the robot within [a, b]. */
  function CountTo(sent: seq<Sent>, group: set<string>, robotId: string, a: real, b: real): nat {
    if sent == [] then 0
    else
      var last := sent[|sent| - 1];
      CountTo(sent[..|sent| - 1], group, robotId, a, b) +
      if last.from in group && last.robotId == robotId && !last.emergency && a <= last.time <= b then 1 else 0
  }

  lemma {:induction false} CountSplits(sent: seq<Sent>, group: set<string>, socket: string, robotId: string,
                                       a: real, b: real)
    requires socket in group
    ensures CountTo(sent, group, robotId, a, b) ==
            CountTo(sent, group - {socket}, robotId, a, b) + CountTo(sent, {socket}, robotId, a, b)
  {
    if sent != [] {
      CountSplits(sent[..|sent| - 1], group, socket, robotId, a, b);
    }
  }

  lemma {:induction false} CountOfOne(sent: seq<Sent>, socket: string, robotId: string, a: real, b: real)
    ensures CountTo(sent, {socket}, robotId, a, b) <= CountWithin(TimesFrom(sent, socket), a, b)
  {
    if sent != [] {
      var n := |sent| - 1;
      CountOfOne(sent[..n], socket, robotId, a, b);
      var before := TimesFrom(sent[..n], socket);
      if sent[n].from == socket && !sent[n].emergency {
        assert (before + [sent[n].time])[..|before|] == before;
      }
    }
  }

  lemma {:induction false} CountOfNone(sent: seq<Sent>, robotId: string, a: real, b: real)
    ensures CountTo(sent, {}, robotId, a, b) == 0
  {
    if sent != [] {
      CountOfNone(sent[..|sent| - 1], robotId, a, b);
    }
  }

  lemma {:induction false} GroupRateBounded(es: seq<Event>, group: set<string>, robotId: string, a: real, b: real)
    requires Timely(es) && a <= b
    ensures CountTo(Run(es).sent, group, robotId, a, b) as real
            <= |group| as real * RateLimit(a, b)
    decreases |group|
  {
    hide Run, CountTo, Timely, CountWithin, TimesFrom, RateLimit;
    if group == {} {
      CountOfNone(Run(es).sent, robotId, a, b);
    } else {
      var socket :| socket in group;
      var rest := group - {socket};
      GroupRateBounded(es, rest, robotId, a, b);
      SocketRateBounded(es, socket, a, b);
      CountSplits(Run(es).sent, group, socket, robotId, a, b);
      CountOfOne(Run(es).sent, socket, robotId, a, b);
      OneMore(|rest|, RateLimit(a, b));
      assert |group| == |rest| + 1;
    }
  }

  lemma OneMore(n: nat, x: real)
    ensures (n + 1) as real * x == n as real * x + x
  {
  }

  /** The sockets that ever passed the ownership check of the robot. */
  function MayCommand(g: Gateway, robotId: string): set<string> {
    set p | p in g.verified && p.1 == robotId :: p.0
  }

  /** Non-emergency events forwarded to the robot within [a, b], by whomever. */
  function Inbound(sent: seq<Sent>, robotId: string, a: real, b: real): nat {
    if sent == [] then 0
    else
      var last := sent[|sent| - 1];
      Inbound(sent[..|sent| - 1], robotId, a, b) +
      if last.robotId == robotId && !last.emergency && a <= last.time <= b then 1 else 0
  }

  lemma {:induction false} InboundIsFromGroup(sent: seq<Sent>, group: set<string>, robotId: string, a: real, b: real)
    requires forall i :: 0 <= i < |sent| && sent[i].robotId == robotId ==> sent[i].from in group
    ensures Inbound(sent, robotId, a, b) == CountTo(sent, group, robotId, a, b)
  {
    if sent != [] {
      InboundIsFromGroup(sent[..|sent| - 1], group, robotId, a, b);
    }
  }

  lemma SendersMayCommand(g: Gateway, robotId: string)
    requires Authorised(g)
    ensures forall i :: 0 <= i < |g.sent| && g.sent[i].robotId == robotId ==> g.sent[i].from in MayCommand(g, robotId)
  {
    forall i | 0 <= i < |g.sent| && g.sent[i].robotId == robotId
      ensures g.sent[i].from in MayCommand(g, robotId)
    {
      assert (g.sent[i].from, robotId) in g.verified;
    }
  }

  /**
    Main result: all that a robot receives in a window, emergencies aside, is bounded by the number
    of sockets that passed its ownership check, each with the burst and 15 per second.
  */
  lemma RobotRateBounded(es: seq<Event>, robotId: string, a: real, b: real)
    requires Timely(es) && a <= b
    ensures Inbound(Run(es).sent, robotId, a, b) as real <= |MayCommand(Run(es), robotId)| as real * RateLimit(a, b)
  {
    hide *;
    LimiterKeysAreLiveClients(es);
    SendersMayCommand(Run(es), robotId);
    InboundIsFromGroup(Run(es).sent, MayCommand(Run(es), robotId), robotId, a, b);
    GroupRateBounded(es, MayCommand(Run(es), robotId), robotId, a, b);
  }

  // ---------- Who receives a command ----------

  /** The robot that a live socket speaks for. */
  function SpeaksFor(g: Gateway, socket: string): Option<string> {
    if socket in g.live && socket in g.data && g.data[socket].RobotSocket? then Some(g.data[socket].robotId) else None
  }

  /** Whatever is registered for a robot is a live socket of that robot. */
  ghost predicate RegistrationsLive(g: Gateway) {
    forall r :: r in g.robots ==> SpeaksFor(g, g.robots[r]) == Some(r)
  }

  lemma OpenRoles(g: Gateway, socket: string, handshake: Handshake)
    requires KeysLive(g) && socket !in g.seen
    ensures var g' := Opened(g, socket, handshake);
            && (forall s :: s != socket ==> SpeaksFor(g', s) == SpeaksFor(g, s)) && SpeaksFor(g, socket).None?
            && SpeaksFor(g', socket) == (if handshake.AsRobot? then Some(handshake.robotId) else None)
    ensures Opened(g, socket, handshake).robots ==
            if handshake.AsRobot? then g.robots[handshake.robotId := socket] else g.robots
  {
    match handshake
    case Rejected =>
    case AsRobot(_) =>
    case AsClient(None, _) =>
    case AsClient(Some(_), _) =>
  }

  lemma OpenKeepsRegistrations(g: Gateway, socket: string, handshake: Handshake)
    requires KeysLive(g) && RegistrationsLive(g) && socket !in g.seen
    ensures RegistrationsLive(Opened(g, socket, handshake))
  {
    OpenRoles(g, socket, handshake);
    hide SpeaksFor, Opened, KeysLive;
  }

  lemma JoinKeepsRegistrations(g: Gateway, socket: string, owns: bool)
    requires KeysLive(g) && RegistrationsLive(g) && socket in g.joining
    ensures RegistrationsLive(Joined(g, socket, owns))
  {
    var g' := Joined(g, socket, owns);
    assert forall s :: s != socket ==> SpeaksFor(g', s) == SpeaksFor(g, s);
    assert SpeaksFor(g, socket).None?;
    hide SpeaksFor;
  }

  lemma CloseKeepsRegistrations(g: Gateway, socket: string, dbOk: bool)
    requires RegistrationsLive(g) && socket in g.live
    ensures RegistrationsLive(Closed(g, socket, dbOk))
  {
    var g', mine := Closed(g, socket, dbOk), SpeaksFor(g, socket);
    CloseFacts(g, socket, dbOk);
    hide Closed;
    assert forall s :: s != socket ==> SpeaksFor(g', s) == SpeaksFor(g, s);
    assert g'.robots == if mine.Some? then g.robots - {mine.value} else g.robots;
    hide SpeaksFor;
  }

  lemma SameRegistrations(g: Gateway, g': Gateway)
    requires g'.live == g.live && g'.data == g.data && g'.robots == g.robots
    ensures RegistrationsLive(g') <==> RegistrationsLive(g)
  {
    assert forall s :: SpeaksFor(g', s) == SpeaksFor(g, s);
  }

  lemma NextKeepsRegistrations(g: Gateway, e: Event)
    requires KeysLive(g) && RegistrationsLive(g)
    ensures RegistrationsLive(Next(g, e))
  {
    hide Acquire, Opened, Joined, Closed, KeysLive;
    match e
    case Open(socket, handshake) => if socket !in g.seen { OpenKeepsRegistrations(g, socket, handshake); }
    case EndJoin(socket, owns) => if socket in g.joining { JoinKeepsRegistrations(g, socket, owns); }
    case Close(socket, dbOk) => if socket in g.live { CloseKeepsRegistrations(g, socket, dbOk); }
    case Control(_, _, _) => SameRegistrations(g, Next(g, e));
    case Emergency(_, _) => SameRegistrations(g, Next(g, e));
  }

  lemma {:induction false} RunKeepsRegistrations(es: seq<Event>)
    ensures RegistrationsLive(Run(es))
  {
    if es != [] {
      RunKeepsRegistrations(es[..|es| - 1]);
      LimiterKeysAreLiveClients(es[..|es| - 1]);
      NextKeepsRegistrations(Run(es[..|es| - 1]), es[|es| - 1]);
    }
  }

  lemma SentKept(g: Gateway, e: Event)
    requires !e.Control? && !e.Emergency?
    ensures Next(g, e).sent == g.sent
  {
    hide Target, Clients;
    match e
    case Open(_, _) => hide Joined, Closed;
    case EndJoin(_, _) => hide Opened, Closed;
    case Close(_, _) => hide Opened, Joined;
  }

  /** A step adds at most one command, and that one to what is registered for the robot it names. */
  lemma StepSends(g: Gateway, e: Event)
    ensures var g' := Next(g, e);
            g'.sent == g.sent ||
            (exists x :: g'.sent == g.sent + [x] && x.robotId in g.robots && x.to == g.robots[x.robotId])
  {
    if e.Control? || e.Emergency? {
      hide Acquire;
      var g' := Next(g, e);
      assert g'.sent != g.sent ==> g'.sent == g.sent + [g'.sent[|g.sent|]];
    } else {
      SentKept(g, e);
    }
  }

  /**
    Main result: at every step of every run, what is forwarded, emergency or not, goes to a socket
    that is live and speaks for the robot that the command names.
  */
  lemma CommandsReachLiveRobot(es: seq<Event>, e: Event)
    ensures var g, g' := Run(es), Next(Run(es), e);
            && g.sent <= g'.sent && |g'.sent| <= |g.sent| + 1
            && forall i :: |g.sent| <= i < |g'.sent| ==> SpeaksFor(g, g'.sent[i].to) == Some(g'.sent[i].robotId)
  {
    RunKeepsRegistrations(es);
    StepSends(Run(es), e);
    hide Next, Run, SpeaksFor;
  }

  // ---------- Emergencies leave the rest alone ----------

  function WithoutEmergencies(es: seq<Event>): seq<Event> {
    if es == [] then []
    else
      var front, last := WithoutEmergencies(es[..|es| - 1]), es[|es| - 1];
      if last.Emergency? then front else front + [last]
  }

  function NonEmergencies(sent: seq<Sent>): seq<Sent> {
    if sent == [] then []
    else
      var front, last := NonEmergencies(sent[..|sent| - 1]), sent[|sent| - 1];
      if last.emergency then front else front + [last]
  }

  /** The state with its emergency sends forgotten. */
  function Erased(g: Gateway): Gateway {
    g.(sent := NonEmergencies(g.sent))
  }

  lemma NonEmergenciesAppend(sent: seq<Sent>, x: Sent)
    ensures NonEmergencies(sent + [x]) == if x.emergency then NonEmergencies(sent) else NonEmergencies(sent) + [x]
  {
    assert (sent + [x])[..|sent|] == sent;
  }

  lemma EmergencyErases(g: Gateway, e: Event)
    requires e.Emergency?
    ensures Erased(Next(g, e)) == Erased(g)
  {
    hide NonEmergencies;
    var target := Target(g, e.socket);
    if target.Some? && target.value in g.robots {
      NonEmergenciesAppend(g.sent, Sent(e.socket, target.value, g.robots[target.value], true, e.now));
    }
  }

  lemma ControlErases(g: Gateway, e: Event)
    requires e.Control?
    ensures Erased(Next(g, e)) == Next(Erased(g), e)
  {
    hide NonEmergencies, Acquire;
    var target := Target(g, e.socket);
    if target.Some? && target.value in g.robots {
      NonEmergenciesAppend(g.sent, Sent(e.socket, target.value, g.robots[target.value], false, e.now));
    }
  }

  lemma OpenIgnoresSent(g: Gateway, sent: seq<Sent>, socket: string, handshake: Handshake)
    ensures Opened(g.(sent := sent), socket, handshake) == Opened(g, socket, handshake).(sent := sent)
  {
    match handshake
    case Rejected =>
    case AsRobot(robotId) =>
    case AsClient(None, userId) =>
    case AsClient(Some(robotId), userId) =>
  }

  lemma JoinIgnoresSent(g: Gateway, sent: seq<Sent>, socket: string, owns: bool)
    requires socket in g.joining
    ensures Joined(g.(sent := sent), socket, owns) == Joined(g, socket, owns).(sent := sent)
  {
    assert Clients(g.(sent := sent), g.joining[socket].0) == Clients(g, g.joining[socket].0);
    hide Clients;
  }

  lemma CloseIgnoresSent(g: Gateway, sent: seq<Sent>, socket: string, dbOk: bool)
    ensures Closed(g.(sent := sent), socket, dbOk) == Closed(g, socket, dbOk).(sent := sent)
  {
    if socket in g.data && g.data[socket].ClientSocket? {
      var room := g.data[socket].room;
      if room.Some? && room.value in g.clients {
        assert Closed(g, socket, dbOk).clients == g.clients[room.value := g.clients[room.value] - {socket}];
      }
    }
  }

  lemma SocketEventErases(g: Gateway, e: Event)
    requires !e.Control? && !e.Emergency?
    ensures Erased(Next(g, e)) == Next(Erased(g), e)
  {
    SentKept(g, e);
    hide NonEmergencies, Opened, Joined, Closed;
    var sent := NonEmergencies(g.sent);
    match e
    case Open(socket, handshake) => OpenIgnoresSent(g, sent, socket, handshake);
    case EndJoin(socket, owns) => if socket in g.joining { JoinIgnoresSent(g, sent, socket, owns); }
    case Close(socket, dbOk) => CloseIgnoresSent(g, sent, socket, dbOk);
  }

  lemma RunAppend(es: seq<Event>, e: Event)
    ensures Run(es + [e]) == Next(Run(es), e)
  {
    assert (es + [e])[..|es|] == es;
  }

  /**
    Main result: deleting every emergency stop from a run changes nothing but the emergency sends.
    So no emergency spends a token, moves a verdict, or adds, removes or redirects another command.
  */
  lemma {:induction false} EmergenciesDoNotInterfere(es: seq<Event>)
    ensures Run(WithoutEmergencies(es)) == Erased(Run(es))
  {
    if es != [] {
      var front, e := es[..|es| - 1], es[|es| - 1];
      EmergenciesDoNotInterfere(front);
      RunAppend(WithoutEmergencies(front), e);
      hide Next, Erased;
      if e.Emergency? {
        EmergencyErases(Run(front), e);
      } else if e.Control? {
        ControlErases(Run(front), e);
      } else {
        SocketEventErases(Run(front), e);
      }
    }
  }

  // ---------- Rooms and registrations ----------

  /** The clients of a robot's room are exactly its live sockets. */
  ghost predicate RoomsExact(g: Gateway) {
    forall s, r :: s in Clients(g, r) <==> s in g.live && Target(g, s) == Some(r)
  }

  /** An ownership check that succeeds after its socket has gone. */
  predicate JoinsTooLate(g: Gateway, e: Event) {
    e.EndJoin? && e.owns && e.socket in g.joining && e.socket !in g.live
  }

  lemma OpenKeepsRooms(g: Gateway, socket: string, handshake: Handshake)
    requires KeysLive(g) && RoomsExact(g) && socket !in g.seen
    ensures RoomsExact(Opened(g, socket, handshake))
  {
    OpenFacts(g, socket, handshake);
    var g' := Opened(g, socket, handshake);
    assert forall r :: Clients(g', r) == Clients(g, r);
    hide Opened, Target, Clients;
  }

  lemma JoinKeepsRoomsIff(g: Gateway, socket: string, owns: bool)
    requires KeysLive(g) && RoomsExact(g) && socket in g.joining
    ensures RoomsExact(Joined(g, socket, owns)) <==> !owns || socket in g.live
  {
    var g', room := Joined(g, socket, owns), g.joining[socket].0;
    assert forall s :: s != socket ==> Target(g', s) == Target(g, s);
    assert Target(g, socket).None?;
    assert owns ==> Target(g', socket) == Some(room);
    assert forall r :: Clients(g', r) == if owns && r == room then Clients(g, r) + {socket} else Clients(g, r);
    hide Target, Clients;
    if owns && RoomsExact(g') {
      assert socket in Clients(g', room);
    }
  }

  lemma CloseKeepsRooms(g: Gateway, socket: string, dbOk: bool)
    requires RoomsExact(g)
    ensures RoomsExact(Closed(g, socket, dbOk))
  {
    var g', mine := Closed(g, socket, dbOk), Target(g, socket);
    CloseFacts(g, socket, dbOk);
    hide Closed;
    assert forall s :: Target(g', s) == Target(g, s);
    CloseLeavesRoom(g, socket, dbOk);
    hide Target, Clients;
  }

  lemma CloseLeavesRoom(g: Gateway, socket: string, dbOk: bool)
    ensures forall r :: Clients(Closed(g, socket, dbOk), r) ==
              if Target(g, socket) == Some(r) then Clients(g, r) - {socket} else Clients(g, r)
  {
    CloseFacts(g, socket, dbOk);
    hide Closed, Target;
  }

  /** A step keeps the rooms exact iff it does not register a socket that has already gone. */
  lemma NextKeepsRoomsIff(g: Gateway, e: Event)
    requires KeysLive(g) && RoomsExact(g)
    ensures RoomsExact(Next(g, e)) <==> !JoinsTooLate(g, e)
  {
    hide Acquire, Opened, Joined, Closed, KeysLive;
    match e
    case Open(socket, handshake) => if socket !in g.seen { OpenKeepsRooms(g, socket, handshake); }
    case EndJoin(socket, owns) => if socket in g.joining { JoinKeepsRoomsIff(g, socket, owns); }
    case Close(socket, dbOk) => if socket in g.live { CloseKeepsRooms(g, socket, dbOk); }
    case Control(_, _, _) => SameRooms(g, Next(g, e));
    case Emergency(_, _) => SameRooms(g, Next(g, e));
  }

  lemma SameRooms(g: Gateway, g': Gateway)
    requires g'.live == g.live && g'.data == g.data && g'.clients == g.clients
    ensures RoomsExact(g') <==> RoomsExact(g)
  {
    assert forall s :: Target(g', s) == Target(g, s);
    assert forall r :: Clients(g', r) == Clients(g, r);
  }

  /** While no ownership check outlives its socket, rooms hold exactly the live clients. */
  lemma {:induction false} RoomsHoldLiveClients(es: seq<Event>)
    requires forall k :: 0 <= k < |es| ==> !JoinsTooLate(Run(es[..k]), es[k])
    ensures RoomsExact(Run(es))
  {
    if es != [] {
      var n := |es| - 1;
      forall k | 0 <= k < n ensures !JoinsTooLate(Run(es[..n][..k]), es[..n][k]) {
        assert es[..n][..k] == es[..k];
      }
      RoomsHoldLiveClients(es[..n]);
      LimiterKeysAreLiveClients(es[..n]);
      NextKeepsRoomsIff(Run(es[..n]), es[n]);
    }
  }

  /** A client that leaves while its ownership check is awaited is put into the room all the same. */
  lemma LateJoinLeavesDeadClient(robotId: string, userId: string, socket: string)
    ensures var g := Run([Open(socket, AsClient(Some(robotId), userId)), Close(socket, true), EndJoin(socket, true)]);
            socket in Clients(g, robotId) && socket !in g.live && !RoomsExact(g)
  {
    var open, close, end := Open(socket, AsClient(Some(robotId), userId)), Close(socket, true), EndJoin(socket, true);
    RunAppend([], open);
    RunAppend([open], close);
    RunAppend([open, close], end);
    assert [open] + [close] == [open, close] && [open, close] + [end] == [open, close, end] && [] + [open] == [open];
    assert Run([open]) == Opened(Idle(), socket, AsClient(Some(robotId), userId));
    assert Run([open, close]) == Closed(Run([open]), socket, true);
    assert Run([open, close, end]) == Joined(Run([open, close]), socket, true);
  }

  /** Main result: the rooms are exact at every state of a run iff no ownership check outlives its socket. */
  lemma RoomsExactThroughoutIff(es: seq<Event>)
    ensures (forall k :: 0 <= k <= |es| ==> RoomsExact(Run(es[..k]))) <==>
            (forall k :: 0 <= k < |es| ==> !JoinsTooLate(Run(es[..k]), es[k]))
  {
    hide RoomsExact, JoinsTooLate, Next, Run;
    if forall k :: 0 <= k <= |es| ==> RoomsExact(Run(es[..k])) {
      forall k | 0 <= k < |es| ensures !JoinsTooLate(Run(es[..k]), es[k]) {
        assert RoomsExact(Run(es[..k])) && RoomsExact(Run(es[..k + 1]));
        assert es[..k + 1] == es[..k] + [es[k]];
        RunAppend(es[..k], es[k]);
        LimiterKeysAreLiveClients(es[..k]);
        NextKeepsRoomsIff(Run(es[..k]), es[k]);
      }
    }
    if forall k :: 0 <= k < |es| ==> !JoinsTooLate(Run(es[..k]), es[k]) {
      forall n | 0 <= n <= |es| ensures RoomsExact(Run(es[..n])) {
        forall k | 0 <= k < n ensures !JoinsTooLate(Run(es[..n][..k]), es[..n][k]) {
          assert es[..n][..k] == es[..k];
        }
        RoomsHoldLiveClients(es[..n]);
      }
    }
  }

  /** Every robot with a live socket can be commanded. */
  ghost predicate Reachable(g: Gateway) {
    forall s :: SpeaksFor(g, s).Some? ==> SpeaksFor(g, s).value in g.robots
  }

  /** No other live socket speaks for the robot whose socket closes. */
  ghost predicate ClosesLastSocket(g: Gateway, e: Event) {
    e.Close? && SpeaksFor(g, e.socket).Some? ==>
      forall s :: SpeaksFor(g, s) == SpeaksFor(g, e.socket) ==> s == e.socket
  }

  lemma OpenKeepsReachable(g: Gateway, socket: string, handshake: Handshake)
    requires KeysLive(g) && Reachable(g) && socket !in g.seen
    ensures Reachable(Opened(g, socket, handshake))
  {
    OpenRoles(g, socket, handshake);
    hide SpeaksFor, Opened, KeysLive;
  }

  lemma JoinKeepsReachable(g: Gateway, socket: string, owns: bool)
    requires KeysLive(g) && Reachable(g) && socket in g.joining
    ensures Reachable(Joined(g, socket, owns))
  {
    var g' := Joined(g, socket, owns);
    assert forall s :: s != socket ==> SpeaksFor(g', s) == SpeaksFor(g, s);
    assert g'.robots == g.robots;
  }

  lemma CloseKeepsReachableIff(g: Gateway, socket: string, dbOk: bool)
    requires Reachable(g) && socket in g.live
    ensures Reachable(Closed(g, socket, dbOk)) <==> ClosesLastSocket(g, Close(socket, dbOk))
  {
    var g' := Closed(g, socket, dbOk);
    CloseFacts(g, socket, dbOk);
    hide Closed;
    assert SpeaksFor(g', socket).None?;
    assert forall s :: s != socket ==> SpeaksFor(g', s) == SpeaksFor(g, s);
    var mine := SpeaksFor(g, socket);
    assert g'.robots == if mine.Some? then g.robots - {mine.value} else g.robots;
    hide SpeaksFor;
    if mine.Some? && Reachable(g') {
      forall s | SpeaksFor(g, s) == mine ensures s == socket {
        assert s != socket ==> SpeaksFor(g', s) == mine;
      }
    }
  }

  /**
    A disconnect deletes the robot's registration whichever of its sockets it came from, so robots
    stay reachable exactly when the socket that closes is the robot's only live one.
  */
  lemma NextKeepsReachableIff(g: Gateway, e: Event)
    requires KeysLive(g) && Reachable(g)
    ensures Reachable(Next(g, e)) <==> ClosesLastSocket(g, e)
  {
    hide Acquire, Opened, Joined, Closed, KeysLive;
    match e
    case Open(socket, handshake) => if socket !in g.seen { OpenKeepsReachable(g, socket, handshake); }
    case EndJoin(socket, owns) => if socket in g.joining { JoinKeepsReachable(g, socket, owns); }
    case Close(socket, dbOk) => if socket in g.live { CloseKeepsReachableIff(g, socket, dbOk); }
    case Control(_, _, _) => SameSockets(g, Next(g, e));
    case Emergency(_, _) => SameSockets(g, Next(g, e));
  }

  lemma SameSockets(g: Gateway, g': Gateway)
    requires g'.live == g.live && g'.data == g.data && g'.robots == g.robots
    ensures Reachable(g') <==> Reachable(g)
  {
    assert forall s :: SpeaksFor(g', s) == SpeaksFor(g, s);
  }

  /** While no robot's stale socket closes under a newer one, every live robot stays reachable. */
  lemma {:induction false} RobotsStayReachable(es: seq<Event>)
    requires forall k :: 0 <= k < |es| ==> ClosesLastSocket(Run(es[..k]), es[k])
    ensures Reachable(Run(es))
  {
    if es != [] {
      var n := |es| - 1;
      forall k | 0 <= k < n ensures ClosesLastSocket(Run(es[..n][..k]), es[..n][k]) {
        assert es[..n][..k] == es[..k];
      }
      RobotsStayReachable(es[..n]);
      LimiterKeysAreLiveClients(es[..n]);
      NextKeepsReachableIff(Run(es[..n]), es[n]);
    }
  }

  /** Main result: every live robot can be commanded at every state of a run iff no stale socket closes in it. */
  lemma ReachableThroughoutIff(es: seq<Event>)
    ensures (forall k :: 0 <= k <= |es| ==> Reachable(Run(es[..k]))) <==>
            (forall k :: 0 <= k < |es| ==> ClosesLastSocket(Run(es[..k]), es[k]))
  {
    hide Reachable, ClosesLastSocket, Next, Run;
    if forall k :: 0 <= k <= |es| ==> Reachable(Run(es[..k])) {
      forall k | 0 <= k < |es| ensures ClosesLastSocket(Run(es[..k]), es[k]) {
        assert Reachable(Run(es[..k])) && Reachable(Run(es[..k + 1]));
        assert es[..k + 1] == es[..k] + [es[k]];
        RunAppend(es[..k], es[k]);
        LimiterKeysAreLiveClients(es[..k]);
        NextKeepsReachableIff(Run(es[..k]), es[k]);
      }
    }
    if forall k :: 0 <= k < |es| ==> ClosesLastSocket(Run(es[..k]), es[k]) {
      forall n | 0 <= n <= |es| ensures Reachable(Run(es[..n])) {
        forall k | 0 <= k < n ensures ClosesLastSocket(Run(es[..n][..k]), es[..n][k]) {
          assert es[..n][..k] == es[..k];
        }
        RobotsStayReachable(es[..n]);
      }
    }
  }

  // ---------- Histories ----------

  /** What a socket has gone through, told by its own events alone. */
  datatype Phase =
    | Unseen
    | Refused
    | Awaiting(live: bool, robotId: string, userId: string)
    | Serving(live: bool, data: SocketData)

  function Advance(p: Phase, e: Event): Phase {
    match (p, e)
    case (Unseen, Open(_, Rejected)) => Refused
    case (Unseen, Open(_, AsRobot(robotId))) => Serving(true, RobotSocket(robotId))
    case (Unseen, Open(_, AsClient(None, userId))) => Serving(true, ClientSocket(None, userId))
    case (Unseen, Open(_, AsClient(Some(robotId), userId))) => Awaiting(true, robotId, userId)
    case (Awaiting(live, robotId, userId), EndJoin(_, owns)) =>
      if owns then Serving(live, ClientSocket(Some(robotId), userId)) else Refused
    case (Awaiting(_, robotId, userId), Close(_, _)) => Awaiting(false, robotId, userId)
    case (Serving(_, data), Close(_, _)) => Serving(false, data)
    case _ => p
  }

  function PhaseOf(es: seq<Event>, socket: string): Phase {
    if es == [] then Unseen
    else
      var before, last := PhaseOf(es[..|es| - 1], socket), es[|es| - 1];
      if last.socket == socket then Advance(before, last) else before
  }

  /** The gateway holds exactly this about the socket. */
  ghost predicate InPhase(g: Gateway, socket: string, p: Phase) {
    && (socket in g.seen <==> !p.Unseen?)
    && (socket in g.live <==> (p.Awaiting? || p.Serving?) && p.live)
    && Get(g.data, socket) == (if p.Serving? then Some(p.data) else None)
    && Get(g.joining, socket) == (if p.Awaiting? then Some((p.robotId, p.userId)) else None)
  }

  lemma OpenKeepsPhase(g: Gateway, other: string, handshake: Handshake, socket: string, p: Phase)
    requires InPhase(g, socket, p) && other != socket
    ensures InPhase(Opened(g, other, handshake), socket, p)
  {
  }

  lemma JoinKeepsPhase(g: Gateway, other: string, owns: bool, socket: string, p: Phase)
    requires InPhase(g, socket, p) && other != socket && other in g.joining
    ensures InPhase(Joined(g, other, owns), socket, p)
  {
    hide Clients;
  }

  lemma ControlKeepsPhase(g: Gateway, e: Event, socket: string, p: Phase)
    requires InPhase(g, socket, p) && (e.Control? || e.Emergency?)
    ensures InPhase(Next(g, e), socket, p)
  {
    hide Acquire, Target;
    var g' := Next(g, e);
    assert g'.seen == g.seen && g'.live == g.live && g'.data == g.data && g'.joining == g.joining;
  }

  lemma OtherSocketKeepsPhase(g: Gateway, e: Event, socket: string, p: Phase)
    requires InPhase(g, socket, p) && e.socket != socket
    ensures InPhase(Next(g, e), socket, p)
  {
    hide Opened, Joined, Closed, Controlled, Stopped;
    match e
    case Open(other, handshake) => OpenKeepsPhase(g, other, handshake, socket, p);
    case EndJoin(other, owns) => if other in g.joining { JoinKeepsPhase(g, other, owns, socket, p); }
    case Close(other, dbOk) => CloseFacts(g, other, dbOk);
    case Control(_, _, _) => ControlKeepsPhase(g, e, socket, p);
    case Emergency(_, _) => ControlKeepsPhase(g, e, socket, p);
  }

  lemma OpenAdvancesPhase(g: Gateway, socket: string, handshake: Handshake)
    requires InPhase(g, socket, Unseen)
    ensures InPhase(Opened(g, socket, handshake), socket, Advance(Unseen, Open(socket, handshake)))
  {
  }

  lemma JoinAdvancesPhase(g: Gateway, socket: string, owns: bool, p: Phase)
    requires InPhase(g, socket, p) && p.Awaiting?
    ensures InPhase(Joined(g, socket, owns), socket, Advance(p, EndJoin(socket, owns)))
  {
    hide Clients;
  }

  lemma OwnEventAdvancesPhase(g: Gateway, e: Event, p: Phase)
    requires InPhase(g, e.socket, p)
    ensures InPhase(Next(g, e), e.socket, Advance(p, e))
  {
    hide Opened, Joined, Closed, Controlled, Stopped;
    match e
    case Open(socket, handshake) => if p.Unseen? { OpenAdvancesPhase(g, socket, handshake); }
    case EndJoin(socket, owns) => if p.Awaiting? { JoinAdvancesPhase(g, socket, owns, p); }
    case Close(socket, dbOk) => CloseFacts(g, socket, dbOk);
    case Control(socket, _, _) => ControlKeepsPhase(g, e, socket, p);
    case Emergency(socket, _) => ControlKeepsPhase(g, e, socket, p);
  }

  /** Main result: over every run the gateway's maps hold of each socket what its own events add up to. */
  lemma {:induction false} SocketsAreIndependent(es: seq<Event>, socket: string)
    ensures InPhase(Run(es), socket, PhaseOf(es, socket))
  {
    if es != [] {
      var front, e := es[..|es| - 1], es[|es| - 1];
      SocketsAreIndependent(front, socket);
      hide InPhase, Next, Advance;
      if e.socket == socket {
        OwnEventAdvancesPhase(Run(front), e, PhaseOf(front, socket));
      } else {
        OtherSocketKeepsPhase(Run(front), e, socket, PhaseOf(front, socket));
      }
    }
  }

  /** The socket is live and was let into the robot's room. */
  predicate ClientOf(es: seq<Event>, socket: string, robotId: string) {
    var p := PhaseOf(es, socket);
    p.Serving? && p.live && p.data.ClientSocket? && p.data.room == Some(robotId)
  }

  /** The socket is live and opened as the robot's. */
  predicate RobotOf(es: seq<Event>, socket: string, robotId: string) {
    PhaseOf(es, socket) == Serving(true, RobotSocket(robotId))
  }

  lemma RolesByHistory(es: seq<Event>, socket: string, robotId: string)
    ensures ClientOf(es, socket, robotId) <==> socket in Run(es).live && Target(Run(es), socket) == Some(robotId)
    ensures RobotOf(es, socket, robotId) <==> SpeaksFor(Run(es), socket) == Some(robotId)
  {
    SocketsAreIndependent(es, socket);
    hide Run, PhaseOf;
  }

  lemma {:induction false} PhaseElsewhere(es: seq<Event>, more: seq<Event>, socket: string)
    requires forall i :: 0 <= i < |more| ==> more[i].socket != socket || more[i].Control? || more[i].Emergency?
    ensures PhaseOf(es + more, socket) == PhaseOf(es, socket)
  {
    if more == [] {
      assert es + more == es;
    } else {
      var n := |more| - 1;
      PhaseElsewhere(es, more[..n], socket);
      assert (es + more)[..|es + more| - 1] == es + more[..n];
    }
  }

  /** A client that waits for its ownership check is let into the room iff the check says that it owns the robot. */
  lemma AdmittedIffOwner(es: seq<Event>, socket: string, robotId: string, userId: string, between: seq<Event>,
                         owns: bool)
    requires PhaseOf(es, socket).Unseen?
    requires forall i :: 0 <= i < |between| ==> between[i].socket != socket
    ensures var all := es + [Open(socket, AsClient(Some(robotId), userId))] + between + [EndJoin(socket, owns)];
            ClientOf(all, socket, robotId) <==> owns
  {
    var open := es + [Open(socket, AsClient(Some(robotId), userId))];
    assert open[..|es|] == es;
    PhaseElsewhere(open, between, socket);
    var all := open + between + [EndJoin(socket, owns)];
    assert all[..|all| - 1] == open + between;
  }

  /** The socket registered for a robot: the last one opened, until any live socket of that robot closes. */
  function Registered(es: seq<Event>, robotId: string): Option<string> {
    if es == [] then None
    else
      var front, last := es[..|es| - 1], es[|es| - 1];
      if last.Open? && last.handshake == AsRobot(robotId) && PhaseOf(front, last.socket).Unseen? then Some(last.socket)
      else if last.Close? && RobotOf(front, last.socket, robotId) then None
      else Registered(front, robotId)
  }

  lemma StepRegisters(g: Gateway, e: Event, robotId: string)
    ensures Get(Next(g, e).robots, robotId) ==
            if e.Open? && e.handshake == AsRobot(robotId) && e.socket !in g.seen then Some(e.socket)
            else if e.Close? && SpeaksFor(g, e.socket) == Some(robotId) then None
            else Get(g.robots, robotId)
  {
    hide Acquire, Target, Clients;
    match e
    case Open(_, _) => hide Joined, Closed, Controlled, Stopped;
    case EndJoin(_, _) => hide Opened, Closed, Controlled, Stopped;
    case Close(socket, dbOk) =>
      CloseFacts(g, socket, dbOk);
      hide Opened, Joined, Closed, Controlled, Stopped;
    case Control(_, _, _) => hide Opened, Joined, Closed, Stopped;
    case Emergency(_, _) => hide Opened, Joined, Closed, Controlled;
  }

  lemma {:induction false} RegisteredByHistory(es: seq<Event>, robotId: string)
    ensures Get(Run(es).robots, robotId) == Registered(es, robotId)
  {
    if es != [] {
      var front, e := es[..|es| - 1], es[|es| - 1];
      RegisteredByHistory(front, robotId);
      SocketsAreIndependent(front, e.socket);
      RolesByHistory(front, e.socket, robotId);
      StepRegisters(Run(front), e, robotId);
      hide Next, SpeaksFor, Target, RobotOf, ClientOf;
    }
  }

  // ---------- Which commands are forwarded ----------

  /** When the socket asked for commands, as a live client of some robot: each of these spends a token. */
  function Heard(es: seq<Event>, socket: string): seq<real> {
    if es == [] then []
    else
      var front, last := es[..|es| - 1], es[|es| - 1];
      var before := Heard(front, socket);
      if last.Control? && last.socket == socket && MayAsk(PhaseOf(front, socket)) then before + [last.now] else before
  }

  predicate MayAsk(p: Phase) {
    p.Serving? && p.live && p.data.ClientSocket? && p.data.room.Some?
  }

  lemma HeardAppend(es: seq<Event>, e: Event, socket: string)
    ensures Heard(es + [e], socket) ==
            if e.Control? && e.socket == socket && MayAsk(PhaseOf(es, socket)) then Heard(es, socket) + [e.now]
            else Heard(es, socket)
  {
    assert (es + [e])[..|es|] == es;
  }

  /** A live socket's bucket is what its own requests leave. */
  ghost predicate BucketIsOwn(g: Gateway, socket: string, heard: seq<real>) {
    && (socket in g.live ==> Get(g.buckets, socket) == After(CONTROL_LIMIT, heard))
    && (socket !in g.seen ==> heard == [])
  }

  lemma AfterAppend(ts: seq<real>, now: real)
    ensures After(CONTROL_LIMIT, ts + [now]) == Some(Acquire(CONTROL_LIMIT, After(CONTROL_LIMIT, ts), now).0)
  {
    assert (ts + [now])[..|ts|] == ts;
  }

  lemma StepKeepsBucketOwn(g: Gateway, e: Event, socket: string, p: Phase, heard: seq<real>)
    requires KeysLive(g) && InPhase(g, socket, p) && BucketIsOwn(g, socket, heard)
    ensures BucketIsOwn(Next(g, e), socket,
                        if e.Control? && e.socket == socket && MayAsk(p) then heard + [e.now] else heard)
  {
    hide Acquire, After;
    match e
    case Open(other, handshake) =>
      assert After(CONTROL_LIMIT, []) == None by { NothingHeard(); }
      if other !in g.seen { OpenFacts(g, other, handshake); }
      hide Opened, Joined, Closed, Controlled, Stopped, Target, Clients;
    case EndJoin(_, _) => hide Opened, Closed, Controlled, Stopped, Target, Clients;
    case Close(other, dbOk) =>
      CloseFacts(g, other, dbOk);
      hide Opened, Joined, Closed, Controlled, Stopped, Target, Clients;
    case Control(_, _, now) =>
      AfterAppend(heard, now);
      hide Opened, Joined, Closed, Stopped, Clients;
    case Emergency(_, _) => hide Opened, Joined, Closed, Controlled, Clients;
  }

  lemma NothingHeard()
    ensures After(CONTROL_LIMIT, []) == None
  {
  }

  lemma {:induction false} BucketsAreOwn(es: seq<Event>, socket: string)
    ensures BucketIsOwn(Run(es), socket, Heard(es, socket))
  {
    if es != [] {
      var front, e := es[..|es| - 1], es[|es| - 1];
      assert es == front + [e];
      BucketsAreOwn(front, socket);
      SocketsAreIndependent(front, socket);
      LimiterKeysAreLiveClients(front);
      HeardAppend(front, e, socket);
      hide Next, BucketIsOwn, KeysLive, InPhase, Heard, MayAsk;
      StepKeepsBucketOwn(Run(front), e, socket, PhaseOf(front, socket), Heard(front, socket));
    }
  }

  lemma ForwardedOrNot(g: Gateway, socket: string, robotId: string, wellFormed: bool, now: real)
    requires socket in g.live && Target(g, socket) == Some(robotId)
    ensures Next(g, Control(socket, wellFormed, now)).sent ==
            if wellFormed && Acquire(CONTROL_LIMIT, Get(g.buckets, socket), now).1 && Get(g.robots, robotId).Some?
            then g.sent + [Sent(socket, robotId, g.robots[robotId], false, now)] else g.sent
  {
    hide Acquire, Target;
  }

  /**
    Main result: in every run, on any clock, a control event from a live client of a robot is
    forwarded, to the socket registered for the robot, iff it is well formed, the client's own
    earlier requests leave a token at 30 and 15 per second, and a socket is registered.
  */
  lemma ControlOutcome(es: seq<Event>, socket: string, robotId: string, wellFormed: bool, now: real)
    requires ClientOf(es, socket, robotId)
    ensures Next(Run(es), Control(socket, wellFormed, now)).sent ==
            if wellFormed && Verdict(Config(30.0, 15.0), Heard(es, socket), now) && Registered(es, robotId).Some?
            then Run(es).sent + [Sent(socket, robotId, Registered(es, robotId).value, false, now)]
            else Run(es).sent
  {
    RolesByHistory(es, socket, robotId);
    RegisteredByHistory(es, robotId);
    BucketsAreOwn(es, socket);
    hide Acquire, Run, Next, Heard, Registered, ClientOf, Target, After;
    ForwardedOrNot(Run(es), socket, robotId, wellFormed, now);
  }

  /** The other half: whoever is no live client of a robot commands nothing. */
  lemma OthersCommandNothing(es: seq<Event>, e: Event)
    requires (e.Control? || e.Emergency?) && forall robotId :: !ClientOf(es, e.socket, robotId)
    ensures Next(Run(es), e) == Run(es)
  {
    var target := Target(Run(es), e.socket);
    if target.Some? {
      RolesByHistory(es, e.socket, target.value);
      assert !ClientOf(es, e.socket, target.value);
    }
    hide Run, Acquire, ClientOf;
  }

  lemma {:induction false} HeardInOrder(es: seq<Event>, socket: string)
    requires Timely(es)
    ensures Nondecreasing(Heard(es, socket))
    ensures Heard(es, socket) != [] ==> Heard(es, socket)[|Heard(es, socket)| - 1] <= LastControl(es)
  {
    if es != [] {
      var front, e := es[..|es| - 1], es[|es| - 1];
      HeardInOrder(front, socket);
      hide PhaseOf, MayAsk;
      var before := Heard(front, socket);
      if Heard(es, socket) != before {
        assert Heard(es, socket)[..|before|] == before;
      }
    }
  }

  /** When the client's own requests leave a token: every window of its grants still has room for one. */
  ghost predicate HasToken(es: seq<Event>, socket: string, now: real) {
    WithinEnvelope(Config(30.0, 15.0), Granted(Config(30.0, 15.0), Heard(es, socket)) + [now])
  }

  lemma VerdictIffToken(es: seq<Event>, socket: string, now: real)
    requires Timely(es) && LastControl(es) <= now
    ensures Verdict(Config(30.0, 15.0), Heard(es, socket), now) <==> HasToken(es, socket, now)
  {
    HeardInOrder(es, socket);
    var heard := Heard(es, socket);
    assert (heard + [now])[..|heard|] == heard;
    assert Nondecreasing(heard + [now]);
    hide Verdict, WithinEnvelope, Granted, Heard;
    GrantIffWithinEnvelope(Config(30.0, 15.0), heard, now);
  }

  /** While no stale socket closes under a newer one, a robot has a registered socket iff it has a live one. */
  lemma RegisteredIffConnected(es: seq<Event>, robotId: string)
    requires forall k :: 0 <= k < |es| ==> ClosesLastSocket(Run(es[..k]), es[k])
    ensures Registered(es, robotId).Some? <==> exists s :: RobotOf(es, s, robotId)
    ensures Registered(es, robotId).Some? ==> RobotOf(es, Registered(es, robotId).value, robotId)
  {
    RobotsStayReachable(es);
    RunKeepsRegistrations(es);
    RegisteredByHistory(es, robotId);
    hide Run, ClosesLastSocket, Registered, SpeaksFor, RobotOf, ClientOf, Target;
    if s :| RobotOf(es, s, robotId) {
      RolesByHistory(es, s, robotId);
      assert SpeaksFor(Run(es), s).Some?;
    }
    if Registered(es, robotId).Some? {
      RolesByHistory(es, Registered(es, robotId).value, robotId);
    }
  }

  /**
    Main result: in a timely run in which no stale socket closes under a newer one, a control event
    from a live client of a robot is forwarded, once and to a live socket of the robot, iff it is
    well formed, the robot has a live socket, and the client's own requests leave a token.
  */
  lemma ControlDeliveredIff(es: seq<Event>, socket: string, robotId: string, wellFormed: bool, now: real)
    requires Timely(es) && LastControl(es) <= now
    requires forall k :: 0 <= k < |es| ==> ClosesLastSocket(Run(es[..k]), es[k])
    requires ClientOf(es, socket, robotId)
    ensures var sent, sent' := Run(es).sent, Next(Run(es), Control(socket, wellFormed, now)).sent;
            && (sent' != sent <==> wellFormed && HasToken(es, socket, now) && exists s :: RobotOf(es, s, robotId))
            && (sent' != sent ==> exists to ::
                  RobotOf(es, to, robotId) && sent' == sent + [Sent(socket, robotId, to, false, now)])
  {
    hide *;
    ControlOutcome(es, socket, robotId, wellFormed, now);
    VerdictIffToken(es, socket, now);
    RegisteredIffConnected(es, robotId);
  }

  lemma StoppedOrNot(g: Gateway, socket: string, robotId: string, now: real)
    requires socket in g.live && Target(g, socket) == Some(robotId)
    ensures Next(g, Emergency(socket, now)).sent ==
            if Get(g.robots, robotId).Some? then g.sent + [Sent(socket, robotId, g.robots[robotId], true, now)]
            else g.sent
  {
    hide Target;
  }

  lemma EmergencyOutcome(es: seq<Event>, socket: string, robotId: string, now: real)
    requires ClientOf(es, socket, robotId)
    ensures Next(Run(es), Emergency(socket, now)).sent ==
            if Registered(es, robotId).Some?
            then Run(es).sent + [Sent(socket, robotId, Registered(es, robotId).value, true, now)] else Run(es).sent
  {
    RolesByHistory(es, socket, robotId);
    RegisteredByHistory(es, robotId);
    hide Run, Next, Registered, ClientOf, Target;
    StoppedOrNot(Run(es), socket, robotId, now);
  }

  /**
    Main result: under the same condition an emergency stop from a live client of a robot is
    forwarded, to a live socket of it, iff the robot has one; whatever the limiter says.
  */
  lemma EmergencyDeliveredIff(es: seq<Event>, socket: string, robotId: string, now: real)
    requires forall k :: 0 <= k < |es| ==> ClosesLastSocket(Run(es[..k]), es[k])
    requires ClientOf(es, socket, robotId)
    ensures var sent, sent' := Run(es).sent, Next(Run(es), Emergency(socket, now)).sent;
            && (sent' != sent <==> exists s :: RobotOf(es, s, robotId))
            && (sent' != sent ==> exists to ::
                  RobotOf(es, to, robotId) && sent' == sent + [Sent(socket, robotId, to, true, now)])
  {
    hide *;
    EmergencyOutcome(es, socket, robotId, now);
    RegisteredIffConnected(es, robotId);
  }

  /** A robot that reconnects before its old socket closes is lost, live as it is. */
  lemma ReconnectLosesRobot(robotId: string, first: string, second: string)
    requires first != second
    ensures var g := Run([Open(first, AsRobot(robotId)), Open(second, AsRobot(robotId)), Close(first, true)]);
            SpeaksFor(g, second) == Some(robotId) && robotId !in g.robots
  {
    var es := [Open(first, AsRobot(robotId)), Open(second, AsRobot(robotId)), Close(first, true)];
    assert es[..2][..1] == es[..1] && es[..1][..0] == [];
    assert Run(es[..1]) == Opened(Idle(), first, AsRobot(robotId));
    assert Run(es[..2]) == Opened(Run(es[..1]), second, AsRobot(robotId));
    assert Run(es) == Closed(Run(es[..2]), first, true);
  }

  // ---------- The gateway object ----------

  class SocketGateway {
    var live: set<string>
    var data: map<string, SocketData>
    var joining: map<string, (string, string)>
    var connectedRobots: map<string, string>
    var connectedClients: map<string, set<string>>
    const controlLimiter: TokenBucketRateLimiter
    ghost var seen: set<string>
    ghost var verified: set<(string, string)>
    ghost var sent: seq<Sent>

    ghost predicate Valid()
      reads this, controlLimiter
    {
      controlLimiter.Valid() && controlLimiter.Cfg() == CONTROL_LIMIT
    }

    ghost function View(): Gateway
      reads this, controlLimiter
    {
      Gateway(live, data, joining, connectedRobots, connectedClients, controlLimiter.buckets, seen, verified, sent)
    }

    constructor ()
      ensures Valid() && fresh(controlLimiter) && View() == Idle()
    {
      live, data, joining := {}, map[], map[];
      connectedRobots, connectedClients := map[], map[];
      controlLimiter := new TokenBucketRateLimiter(Some(30.0), Some(15.0));
      seen, verified, sent := {}, {}, [];
    }

    /** Everything handleConnection does before its ownership check is answered. */
    method HandleConnection(socket: string, handshake: Handshake)
      requires Valid() && socket !in seen
      modifies this
      ensures Valid() && View() == Next(old(View()), Open(socket, handshake))
    {
      seen := seen + {socket};
      match handshake
      case Rejected =>
      case AsRobot(robotId) =>
        live := live + {socket};
        connectedRobots := connectedRobots[robotId := socket];
        data := data[socket := RobotSocket(robotId)];
      case AsClient(robotId, userId) =>
        live := live + {socket};
        if robotId.Some? {
          joining := joining[socket := (robotId.value, userId)];
        } else {
          data := data[socket := ClientSocket(None, userId)];
        }
    }

    method FinishConnection(socket: string, owns: bool)
      requires Valid() && socket in joining
      modifies this, controlLimiter
      ensures Valid() && View() == Next(old(View()), EndJoin(socket, owns))
    {
      var (robotId, userId) := joining[socket];
      joining := joining - {socket};
      if !owns {
        live := live - {socket};
        controlLimiter.Release(socket);
        return;
      }
      if robotId !in connectedClients {
        connectedClients := connectedClients[robotId := {}];
      }
      connectedClients := connectedClients[robotId := connectedClients[robotId] + {socket}];
      data := data[socket := ClientSocket(Some(robotId), userId)];
      verified := verified + {(socket, robotId)};
    }

    method HandleDisconnect(socket: string, dbOk: bool)
      requires Valid() && socket in live
      modifies this, controlLimiter
      ensures Valid() && View() == Next(old(View()), Close(socket, dbOk))
    {
      live := live - {socket};
      if socket in data {
        match data[socket]
        case RobotSocket(robotId) =>
          connectedRobots := connectedRobots - {robotId};
          if !dbOk { return; }
        case ClientSocket(room, userId) =>
          if room.Some? && room.value in connectedClients {
            connectedClients := connectedClients[room.value := connectedClients[room.value] - {socket}];
          }
      }
      controlLimiter.Release(socket);
    }

    /** The robot to forward to, if the call may proceed; the token is spent either way. */
    method GateControl(socket: string, now: real) returns (gate: Option<string>)
      requires Valid() && socket in live
      modifies controlLimiter
      ensures Valid()
      ensures Target(View(), socket).None? ==> gate.None? && View() == old(View())
      ensures Target(View(), socket).Some? ==>
                var (bucket, allowed) := Acquire(CONTROL_LIMIT, Get(old(controlLimiter.buckets), socket), now);
                && View() == old(View()).(buckets := old(controlLimiter.buckets)[socket := bucket])
                && gate == if allowed && Target(View(), socket).value in connectedRobots
                           then Target(View(), socket) else None
    {
      if socket !in data || !data[socket].ClientSocket? || data[socket].room.None? { return None; }
      var robotId := data[socket].room.value;
      var ok := controlLimiter.TryAcquire(socket, now);
      if !ok { return None; }
      if robotId !in connectedRobots { return None; }
      return Some(robotId);
    }

    /** control:command, move, mecanum, motor and the patrol events; a malformed patrol start is refused. */
    method HandleControl(socket: string, wellFormed: bool, now: real)
      requires Valid() && socket in live
      modifies this, controlLimiter
      ensures Valid() && View() == Next(old(View()), Control(socket, wellFormed, now))
    {
      var gate := GateControl(socket, now);
      if gate.None? { return; }
      if !wellFormed { return; }
      sent := sent + [Sent(socket, gate.value, connectedRobots[gate.value], false, now)];
    }

    method HandleEmergencyStop(socket: string, now: real)
      requires Valid() && socket in live
      modifies this
      ensures Valid() && View() == Next(old(View()), Emergency(socket, now))
    {
      if socket !in data || !data[socket].ClientSocket? || data[socket].room.None? { return; }
      var robotId := data[socket].room.value;
      if robotId in connectedRobots {
        sent := sent + [Sent(socket, robotId, connectedRobots[robotId], true, now)];
      }
    }
  }
}
