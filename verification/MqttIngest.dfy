/**
  Robot liveness as kept by src/modules/mqtt-ingest/mqtt-ingest.service.ts.

  A per-robot cache throttles the writes that heartbeats, status frames, battery events and the
  stale scan make to the robot's row. This file gives each handler as a step on one robot, and
  the service object whose methods perform those steps; Liveness.dfy compares runs of the steps
  with an ingest that persists everything.
*/
module MqttIngest {
  import opened Common

  datatype RobotStatus = ONLINE | OFFLINE | CHARGING | ERROR

  const HEARTBEAT_DB_WRITE_MS := 10_000
  const BATTERY_DB_DELTA_PCT := 1.0
  const STALE_OFFLINE_MS := 30_000
  const STALE_SCAN_INTERVAL_MS := 5_000
  const PI_CLIENT_ID_PREFIX := "kpatrol_pi_"

  /** The columns of a robot's row that ingest reads or writes. */
  datatype Row = Row(userId: string, status: RobotStatus, lastSeen: Option<int>, batteryLevel: Option<real>)

  datatype IngestState = IngestState(userId: string, lastDbHeartbeat: int, lastStatus: RobotStatus,
                                     lastBatteryPct: Option<real>)

  /** A robot:status:changed event on the room of userId. */
  datatype StatusChanged = StatusChanged(userId: string, status: RobotStatus, lastSeen: int)

  /** The columns one successful row update sets. */
  datatype Write = Write(status: Option<RobotStatus>, lastSeen: Option<int>, batteryLevel: Option<real>)

  /** One robot: its row, its cache entry, and what was broadcast and written for it so far. */
  datatype Robot = Robot(row: Row, cache: Option<IngestState>, broadcasts: seq<StatusChanged>, writes: seq<Write>)

  /** Message bodies; a field is None when the payload's field is absent or of another type. */
  datatype Message =
    | Heartbeat(clientId: Option<string>, status: Option<string>)
    | StatusFrame(battery: Option<real>)
    | BatteryEvent(pct: Option<real>, percent: Option<real>)

  /** One atomic step for one robot; writeOk says whether its row update, if any, succeeds. */
  datatype Event =
    | Receive(now: int, message: Message, writeOk: bool)
    | Scan(now: int, writeOk: bool)

  // ---------- Steps on one robot ----------

  function Abs(x: real): real {
    if x < 0.0 then -x else x
  }

  function Updated(row: Row, w: Write): Row {
    Row(row.userId,
        if w.status.Some? then w.status.value else row.status,
        if w.lastSeen.Some? then w.lastSeen else row.lastSeen,
        if w.batteryLevel.Some? then w.batteryLevel else row.batteryLevel)
  }

  function Persist(r: Robot, w: Write, writeOk: bool): Robot {
    if writeOk then r.(row := Updated(r.row, w), writes := r.writes + [w]) else r
  }

  function Announce(r: Robot, changed: bool, userId: string, status: RobotStatus, lastSeen: int): Robot {
    if changed then r.(broadcasts := r.broadcasts + [StatusChanged(userId, status, lastSeen)]) else r
  }

  /** A nonempty clientId must carry the prefix of the Pi controller. */
  predicate FromPi(clientId: Option<string>) {
    clientId.None? || clientId.value == "" || PI_CLIENT_ID_PREFIX <= clientId.value
  }

  function ReportedStatus(status: Option<string>): RobotStatus {
    if status == Some("offline") then OFFLINE else ONLINE
  }

  predicate StatusDiffers(r: Robot, status: RobotStatus) {
    r.cache.None? || r.cache.value.lastStatus != status
  }

  predicate HeartbeatStale(r: Robot, now: int) {
    r.cache.None? || now - r.cache.value.lastDbHeartbeat >= HEARTBEAT_DB_WRITE_MS
  }

  function CachedBattery(r: Robot): Option<real> {
    if r.cache.Some? then r.cache.value.lastBatteryPct else None
  }

  /** A reading is worth persisting when none is cached or it moved by the delta or more. */
  predicate BatteryMoved(r: Robot, reading: Option<real>) {
    reading.Some? &&
    (CachedBattery(r).None? || Abs(reading.value - CachedBattery(r).value) >= BATTERY_DB_DELTA_PCT)
  }

  function OnHeartbeat(r: Robot, clientId: Option<string>, status: Option<string>, now: int, writeOk: bool): Robot {
    var s := ReportedStatus(status);
    var changed := StatusDiffers(r, s);
    if !FromPi(clientId) || (!changed && !HeartbeatStale(r, now)) then r
    else
      var persisted := Persist(r, Write(Some(s), Some(now), None), writeOk);
      // the cache moves on even when the write failed
      var cached := persisted.(cache := Some(IngestState(r.row.userId, now, s, CachedBattery(r))));
      Announce(cached, changed, r.row.userId, s, now)
  }

  function OnStatusFrame(r: Robot, battery: Option<real>, now: int, writeOk: bool): Robot {
    var changed, stale, moved := StatusDiffers(r, ONLINE), HeartbeatStale(r, now), BatteryMoved(r, battery);
    if (!changed && !stale && !moved) || !writeOk then r
    else
      var seen := changed || stale;
      var w := Write(if changed then Some(ONLINE) else None, if seen then Some(now) else None,
                     if moved then battery else None);
      var cached := Persist(r, w, writeOk).(cache :=
        Some(IngestState(r.row.userId, if seen then now else r.cache.value.lastDbHeartbeat, ONLINE,
                         if moved then battery else CachedBattery(r))));
      Announce(cached, changed, r.row.userId, ONLINE, now)
  }

  /** The field pct wins over the historical field percent. */
  function BatteryReading(pct: Option<real>, percent: Option<real>): Option<real> {
    if pct.Some? then pct else percent
  }

  function OnBattery(r: Robot, reading: Option<real>, now: int, writeOk: bool): Robot {
    if !BatteryMoved(r, reading) || !writeOk then r
    else
      Persist(r, Write(None, None, reading), writeOk).(cache :=
        Some(if r.cache.Some? then r.cache.value.(userId := r.row.userId, lastBatteryPct := reading)
             else IngestState(r.row.userId, now, OFFLINE, reading)))
  }

  predicate ScanFires(r: Robot, now: int) {
    && r.cache.Some?
    && r.cache.value.lastStatus == ONLINE
    && now - r.cache.value.lastDbHeartbeat >= STALE_OFFLINE_MS
  }

  function OnScan(r: Robot, now: int, writeOk: bool): Robot {
    if !ScanFires(r, now) || !writeOk then r
    else
      var state := r.cache.value;
      var cached := Persist(r, Write(Some(OFFLINE), None, None), writeOk)
                    .(cache := Some(state.(lastStatus := OFFLINE)));
      Announce(cached, true, state.userId, OFFLINE, state.lastDbHeartbeat)
  }

  function Step(r: Robot, e: Event): Robot {
    match e
    case Receive(now, Heartbeat(clientId, status), writeOk) => OnHeartbeat(r, clientId, status, now, writeOk)
    case Receive(now, StatusFrame(battery), writeOk) => OnStatusFrame(r, battery, now, writeOk)
    case Receive(now, BatteryEvent(pct, percent), writeOk) => OnBattery(r, BatteryReading(pct, percent), now, writeOk)
    case Scan(now, writeOk) => OnScan(r, now, writeOk)
  }

  function Run(r: Robot, es: seq<Event>): Robot {
    if es == [] then r else Step(Run(r, es[..|es| - 1]), es[|es| - 1])
  }

  /** A row that was never seen counts as seen at time 0. */
  function SeenMs(row: Row): int {
    if row.lastSeen.Some? then row.lastSeen.value else 0
  }

  // ---------- The service ----------

  function Log<T>(logs: map<string, seq<T>>, id: string): seq<T> {
    if id in logs then logs[id] else []
  }

  /** The service with the database it writes to; both are reached only through these methods. */
  class MqttIngestService {
    var robotState: map<string, IngestState>
    var db: map<string, Row>
    ghost var broadcasts: map<string, seq<StatusChanged>>
    ghost var writes: map<string, seq<Write>>

    ghost function View(id: string): Robot
      requires id in db
      reads this
    {
      Robot(db[id], Get(robotState, id), Log(broadcasts, id), Log(writes, id))
    }

    /** Nothing but robot id's view changed, and that became r. */
    twostate predicate OnlyChanged(id: string, r: Robot)
      reads this
    {
      && db.Keys == old(db.Keys)
      && (id in db ==> View(id) == r)
      && (forall other :: other in db && other != id ==> View(other) == old(View(other)))
    }

    constructor (db: map<string, Row>)
      ensures this.db == db && robotState == map[] && broadcasts == map[] && writes == map[]
    {
      this.db := db;
      robotState, broadcasts, writes := map[], map[], map[];
    }

    /** Start-up caches every row as it stands; if the rows cannot be read nothing is cached. */
    method HydrateRobotState(readOk: bool)
      modifies this`robotState
      ensures !readOk ==> robotState == old(robotState)
      ensures readOk ==> forall id :: id in db ==> View(id) == old(View(id)).(cache := Some(
                IngestState(db[id].userId, if db[id].lastSeen == None then 0 else db[id].lastSeen.value,
                            db[id].status, db[id].batteryLevel)))
      ensures readOk ==> forall id :: id !in db ==> Get(robotState, id) == old(Get(robotState, id))
    {
      if !readOk { return; }
      var todo := db.Keys;
      while todo != {}
        invariant todo <= db.Keys
        invariant forall id :: id in db && id !in todo ==> Get(robotState, id) == Some(
                    IngestState(db[id].userId, SeenMs(db[id]), db[id].status, db[id].batteryLevel))
        invariant forall id :: id !in db ==> Get(robotState, id) == old(Get(robotState, id))
        decreases todo
      {
        var id :| id in todo;
        var row := db[id];
        var seen := if row.lastSeen.Some? then row.lastSeen.value else 0;
        robotState := robotState[id := IngestState(row.userId, seen, row.status, row.batteryLevel)];
        todo := todo - {id};
      }
    }

    /** A row update; it throws when the write fails or the row is gone. */
    method UpdateRow(id: string, w: Write, writeOk: bool) returns (ok: bool)
      modifies this`db, this`writes
      ensures ok == (writeOk && id in db)
      ensures db.Keys == old(db.Keys)
      ensures id in db ==> View(id) == Persist(old(View(id)), w, writeOk)
      ensures forall other :: other in db && other != id ==> View(other) == old(View(other))
    {
      ok := writeOk && id in db;
      if ok {
        db := db[id := Updated(db[id], w)];
        writes := writes[id := Log(writes, id) + [w]];
      }
    }

    method BroadcastUserRobotStatusChanged(id: string, userId: string, status: RobotStatus, lastSeen: int)
      modifies this`broadcasts
      ensures id in db ==> View(id) == Announce(old(View(id)), true, userId, status, lastSeen)
      ensures forall other :: other in db && other != id ==> View(other) == old(View(other))
    {
      broadcasts := broadcasts[id := Log(broadcasts, id) + [StatusChanged(userId, status, lastSeen)]];
    }

    /** The write of a heartbeat that is not throttled; the cache moves on even when it fails. */
    method PersistHeartbeat(id: string, userId: string, status: RobotStatus, now: int, writeOk: bool)
      requires id in db
      modifies this`db, this`writes, this`robotState
      ensures var r := old(View(id));
              OnlyChanged(id, Persist(r, Write(Some(status), Some(now), None), writeOk)
                              .(cache := Some(IngestState(userId, now, status, CachedBattery(r)))))
    {
      hide Persist, Updated, Log;
      var cached := Get(robotState, id);
      var _ := UpdateRow(id, Write(Some(status), Some(now), None), writeOk);
      var battery := if cached.Some? then cached.value.lastBatteryPct else None;
      robotState := robotState[id := IngestState(userId, now, status, battery)];
    }

    method HandleHeartbeatMessage(id: string, userId: string, clientId: Option<string>, status: Option<string>,
                                  now: int, writeOk: bool)
      requires id in db && db[id].userId == userId
      modifies this
      ensures OnlyChanged(id, OnHeartbeat(old(View(id)), clientId, status, now, writeOk))
    {
      hide FromPi, ReportedStatus, Persist, Updated, Log;
      if !FromPi(clientId) { return; }
      var newStatus := ReportedStatus(status);
      var cached := Get(robotState, id);
      var statusChanged := cached.None? || cached.value.lastStatus != newStatus;
      var heartbeatStale := cached.None? || now - cached.value.lastDbHeartbeat >= HEARTBEAT_DB_WRITE_MS;
      if statusChanged || heartbeatStale {
        PersistHeartbeat(id, userId, newStatus, now, writeOk);
      }
      if statusChanged {
        BroadcastUserRobotStatusChanged(id, userId, newStatus, now);
      }
    }

    method HandleStatusMessage(id: string, userId: string, battery: Option<real>, now: int, writeOk: bool)
      requires id in db && db[id].userId == userId
      modifies this
      ensures OnlyChanged(id, OnStatusFrame(old(View(id)), battery, now, writeOk))
    {
      hide Updated, Log;
      var cached := Get(robotState, id);
      var statusChanged := cached.None? || cached.value.lastStatus != ONLINE;
      var heartbeatStale := cached.None? || now - cached.value.lastDbHeartbeat >= HEARTBEAT_DB_WRITE_MS;
      var prevPct := if cached.Some? then cached.value.lastBatteryPct else None;
      var batteryChanged := battery.Some? &&
        (prevPct.None? || Abs(battery.value - prevPct.value) >= BATTERY_DB_DELTA_PCT);
      if !statusChanged && !heartbeatStale && !batteryChanged { return; }
      var data := Write(None, None, None);
      if statusChanged { data := data.(status := Some(ONLINE)); }
      if statusChanged || heartbeatStale { data := data.(lastSeen := Some(now)); }
      if batteryChanged { data := data.(batteryLevel := battery); }
      var ok := UpdateRow(id, data, writeOk);
      if !ok { return; }
      robotState := robotState[id := IngestState(
        userId,
        if statusChanged || heartbeatStale then now else cached.value.lastDbHeartbeat,
        ONLINE,
        if batteryChanged then battery else prevPct)];
      if statusChanged {
        BroadcastUserRobotStatusChanged(id, userId, ONLINE, now);
      }
    }

    method HandleBatteryMessage(id: string, userId: string, pct: Option<real>, percent: Option<real>,
                                now: int, writeOk: bool)
      requires id in db && db[id].userId == userId
      modifies this
      ensures OnlyChanged(id, OnBattery(old(View(id)), BatteryReading(pct, percent), now, writeOk))
    {
      var reading := if pct.Some? then pct else percent;
      if reading.None? { return; }
      var cached := Get(robotState, id);
      var prevPct := if cached.Some? then cached.value.lastBatteryPct else None;
      if prevPct.Some? && Abs(reading.value - prevPct.value) < BATTERY_DB_DELTA_PCT { return; }
      var ok := UpdateRow(id, Write(None, None, reading), writeOk);
      if !ok { return; }
      robotState := robotState[id := IngestState(
        userId,
        if cached.Some? then cached.value.lastDbHeartbeat else now,
        if cached.Some? then cached.value.lastStatus else OFFLINE,
        reading)];
    }

    /** The body of the scan's loop. */
    method DemoteIfStale(id: string, now: int, writeOk: bool)
      requires id in robotState
      modifies this
      ensures db.Keys == old(db.Keys)
      ensures id in db ==> View(id) == OnScan(old(View(id)), now, writeOk)
      ensures forall other :: other in db && other != id ==> View(other) == old(View(other))
      ensures robotState.Keys == old(robotState.Keys)
    {
      var state := robotState[id];
      if state.lastStatus != ONLINE { return; }
      if now - state.lastDbHeartbeat < STALE_OFFLINE_MS { return; }
      var ok := UpdateRow(id, Write(Some(OFFLINE), None, None), writeOk);
      if ok {
        robotState := robotState[id := state.(lastStatus := OFFLINE)];
        BroadcastUserRobotStatusChanged(id, state.userId, OFFLINE, state.lastDbHeartbeat);
      }
    }

    /** Every cached robot takes its own scan step; writable names the rows whose update would succeed. */
    method ScanStaleRobots(now: int, writable: set<string>)
      modifies this
      ensures db.Keys == old(db.Keys)
      ensures forall id :: id in db ==> View(id) == OnScan(old(View(id)), now, id in writable)
    {
      var todo := robotState.Keys;
      while todo != {}
        invariant db.Keys == old(db.Keys) && robotState.Keys == old(robotState.Keys)
        invariant todo <= robotState.Keys
        invariant forall id :: id in db && id in todo ==> View(id) == old(View(id))
        invariant forall id :: id in db && id !in todo ==> View(id) == OnScan(old(View(id)), now, id in writable)
        decreases todo
      {
        var id :| id in todo;
        todo := todo - {id};
        DemoteIfStale(id, now, id in writable);
      }
    }
  }
}
