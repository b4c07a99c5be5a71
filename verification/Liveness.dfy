/**
  What whole runs of the ingest steps keep, compared with an ingest that persists everything.
*/
module Liveness {
  import opened Common
  import opened MqttIngest

  // ---------- The reference: no throttling ----------

  /** An ingest that records every contact and every reading exactly. */
  datatype Naive = Naive(status: RobotStatus, lastContact: int, reading: Option<real>)

  /** A heartbeat is believed when it names the Pi controller as its client, or names none. */
  predicate Believed(clientId: Option<string>) {
    clientId == None || clientId == Some("") || (clientId.Some? && "kpatrol_pi_" <= clientId.value)
  }

  function Said(status: Option<string>): RobotStatus {
    if status == Some("offline") then OFFLINE else ONLINE
  }

  predicate IsContact(e: Event) {
    e.Receive? && (e.message.StatusFrame? || (e.message.Heartbeat? && Believed(e.message.clientId)))
  }

  function Reading(e: Event): Option<real> {
    if e.Scan? then None
    else
      match e.message
      case Heartbeat(_, _) => None
      case StatusFrame(battery) => battery
      case BatteryEvent(Some(pct), _) => Some(pct)
      case BatteryEvent(None, percent) => percent
  }

  /** Contacts set status and time; a scan demotes an ONLINE robot silent for threshold or longer. */
  function NaiveStep(n: Naive, e: Event, threshold: int): Naive {
    Naive(
      if IsContact(e) then (if e.message.Heartbeat? then Said(e.message.status) else ONLINE)
      else if e.Scan? && n.status == ONLINE && e.now - n.lastContact >= threshold then OFFLINE
      else n.status,
      if IsContact(e) then e.now else n.lastContact,
      if Reading(e).Some? then Reading(e) else n.reading)
  }

  function NaiveRun(n: Naive, es: seq<Event>, threshold: int): Naive {
    if es == [] then n else NaiveStep(NaiveRun(n, es[..|es| - 1], threshold), es[|es| - 1], threshold)
  }

  /** The clock of es starts at t0 or later and never goes back. */
  predicate Timely(t0: int, es: seq<Event>) {
    es == [] || (Timely(t0, es[..|es| - 1]) && Clock(t0, es[..|es| - 1]) <= es[|es| - 1].now)
  }

  function Clock(t0: int, es: seq<Event>): int {
    if es == [] then t0 else es[|es| - 1].now
  }

  predicate Online(r: Robot) {
    r.cache.Some? && r.cache.value.lastStatus == ONLINE
  }

  /** A fresh start: the robot was either hydrated from its row or registered later and not heard of yet. */
  ghost predicate Fresh(r: Robot, n: Naive) {
    && r.broadcasts == [] && r.writes == []
    && ((r.cache == Some(IngestState(r.row.userId, SeenMs(r.row), r.row.status, r.row.batteryLevel))
         && n == Naive(r.row.status, SeenMs(r.row), r.row.batteryLevel))
        || (r.cache == None && r.row.status == OFFLINE && n == Naive(OFFLINE, SeenMs(r.row), None)))
  }

  /** The throttled timestamp is not in the future. */
  ghost predicate NotAheadOfClock(r: Robot, clock: int) {
    r.cache.Some? ==> r.cache.value.lastDbHeartbeat <= clock
  }

  predicate ScansSucceed(es: seq<Event>) {
    forall i :: 0 <= i < |es| && es[i].Scan? ==> es[i].writeOk
  }

  predicate HeartbeatsSucceed(es: seq<Event>) {
    forall i :: 0 <= i < |es| && es[i].Receive? && es[i].message.Heartbeat? ==> es[i].writeOk
  }

  predicate StatusFramesSucceed(es: seq<Event>) {
    forall i :: 0 <= i < |es| && es[i].Receive? && es[i].message.StatusFrame? ==> es[i].writeOk
  }

  predicate BatteryEventsSucceed(es: seq<Event>) {
    forall i :: 0 <= i < |es| && es[i].Receive? && es[i].message.BatteryEvent? ==> es[i].writeOk
  }

  // ---------- Liveness sandwich ----------

  /** While ONLINE, the throttled timestamp trails the exact last contact by less than the write throttle. */
  ghost predicate TrailsContact(r: Robot, n: Naive) {
    Online(r) ==> r.cache.value.lastDbHeartbeat <= n.lastContact < r.cache.value.lastDbHeartbeat + 10_000
  }

  lemma {:induction false} ClockBoundsHeartbeat(r: Robot, t0: int, es: seq<Event>)
    requires NotAheadOfClock(r, t0) && Timely(t0, es)
    ensures NotAheadOfClock(Run(r, es), Clock(t0, es))
  {
    if es != [] {
      ClockBoundsHeartbeat(r, t0, es[..|es| - 1]);
    }
  }

  /** The lower side of the trailing bound needs no write to succeed. */
  lemma {:induction false} ThrottleTrailsContact(r: Robot, n: Naive, threshold: int, t0: int, es: seq<Event>)
    requires Fresh(r, n) && NotAheadOfClock(r, t0) && Timely(t0, es)
    ensures Online(Run(r, es)) ==>
              Run(r, es).cache.value.lastDbHeartbeat <= NaiveRun(n, es, threshold).lastContact
    ensures StatusFramesSucceed(es) ==> TrailsContact(Run(r, es), NaiveRun(n, es, threshold))
  {
    if es != [] {
      var front := es[..|es| - 1];
      assert StatusFramesSucceed(es) ==> StatusFramesSucceed(front);
      ThrottleTrailsContact(r, n, threshold, t0, front);
      ClockBoundsHeartbeat(r, t0, front);
    }
  }

  /**
    Lower slice: a robot that an exact ingest with a 20 s threshold would call ONLINE is ONLINE
    here. It holds even when heartbeat, battery and scan writes fail.
  */
  lemma {:induction false} NeverDemotedEarly(r: Robot, n: Naive, t0: int, es: seq<Event>)
    requires Fresh(r, n) && NotAheadOfClock(r, t0) && Timely(t0, es)
    requires StatusFramesSucceed(es)
    ensures NaiveRun(n, es, 20_000).status == ONLINE ==> Online(Run(r, es))
  {
    if es != [] {
      var front := es[..|es| - 1];
      assert StatusFramesSucceed(front);
      NeverDemotedEarly(r, n, t0, front);
      ThrottleTrailsContact(r, n, 20_000, t0, front);
    }
  }

  /**
    Upper slice: a robot that is ONLINE here is ONLINE to an exact ingest with the 30 s threshold.
    It holds even when heartbeat, status and battery writes fail.
  */
  lemma {:induction false} NeverDemotedLate(r: Robot, n: Naive, t0: int, es: seq<Event>)
    requires Fresh(r, n) && NotAheadOfClock(r, t0) && Timely(t0, es)
    requires ScansSucceed(es)
    ensures Online(Run(r, es)) ==> NaiveRun(n, es, 30_000).status == ONLINE
  {
    if es != [] {
      var front := es[..|es| - 1];
      assert ScansSucceed(front);
      NeverDemotedLate(r, n, t0, front);
      ThrottleTrailsContact(r, n, 30_000, t0, front);
    }
  }

  /** Main result: the throttled status lies between two exact references, 20 s and 30 s. */
  lemma LivenessSandwich(r: Robot, n: Naive, t0: int, es: seq<Event>)
    requires Fresh(r, n) && NotAheadOfClock(r, t0) && Timely(t0, es)
    requires StatusFramesSucceed(es) && ScansSucceed(es)
    ensures NaiveRun(n, es, 20_000).status == ONLINE ==> Online(Run(r, es))
    ensures Online(Run(r, es)) ==> NaiveRun(n, es, 30_000).status == ONLINE
    ensures Online(Run(r, es)) ==>
              Run(r, es).cache.value.lastDbHeartbeat <= NaiveRun(n, es, 30_000).lastContact
              < Run(r, es).cache.value.lastDbHeartbeat + 10_000
  {
    NeverDemotedEarly(r, n, t0, es);
    NeverDemotedLate(r, n, t0, es);
    ThrottleTrailsContact(r, n, 30_000, t0, es);
  }

  /** While ONLINE, the lastSeen in the row is the throttled timestamp when contact writes succeed. */
  lemma {:induction false} RowHoldsThrottledTime(r: Robot, n: Naive, es: seq<Event>)
    requires Fresh(r, n)
    requires HeartbeatsSucceed(es) && StatusFramesSucceed(es)
    ensures Online(Run(r, es)) ==> SeenMs(Run(r, es).row) == Run(r, es).cache.value.lastDbHeartbeat
  {
    if es != [] {
      var front := es[..|es| - 1];
      assert HeartbeatsSucceed(front) && StatusFramesSucceed(front);
      RowHoldsThrottledTime(r, n, front);
    }
  }

  /** Main result: while ONLINE, the persisted lastSeen is less than 10 s behind the last contact. */
  lemma LastSeenWithinTolerance(r: Robot, n: Naive, t0: int, es: seq<Event>)
    requires Fresh(r, n) && NotAheadOfClock(r, t0) && Timely(t0, es)
    requires HeartbeatsSucceed(es) && StatusFramesSucceed(es)
    requires Online(Run(r, es))
    ensures SeenMs(Run(r, es).row) <= NaiveRun(n, es, 30_000).lastContact
            < SeenMs(Run(r, es).row) + 10_000
  {
    RowHoldsThrottledTime(r, n, es);
    ThrottleTrailsContact(r, n, 30_000, t0, es);
  }

  // ---------- Who is believed ----------

  /** A heartbeat whose client names itself as something else than a Pi controller. */
  predicate FromStranger(e: Event) {
    e.Receive? && e.message.Heartbeat? && e.message.clientId.Some? && e.message.clientId.value != "" &&
    !("kpatrol_pi_" <= e.message.clientId.value)
  }

  function WithoutStrangers(es: seq<Event>): seq<Event> {
    if es == [] then []
    else
      var front, last := WithoutStrangers(es[..|es| - 1]), es[|es| - 1];
      if FromStranger(last) then front else front + [last]
  }

  lemma StrangerChangesNothing(r: Robot, e: Event)
    requires FromStranger(e)
    ensures Step(r, e) == r
  {
  }

  /** Main result: deleting every heartbeat from a client that is no Pi controller changes no run. */
  lemma {:induction false} StrangersDoNotMatter(r: Robot, es: seq<Event>)
    ensures Run(r, WithoutStrangers(es)) == Run(r, es)
  {
    if es != [] {
      var front, last := es[..|es| - 1], es[|es| - 1];
      StrangersDoNotMatter(r, front);
      hide Step, FromStranger;
      if FromStranger(last) {
        StrangerChangesNothing(Run(r, front), last);
      } else {
        var kept := WithoutStrangers(front);
        assert (kept + [last])[..|kept|] == kept;
      }
    }
  }

  /**
    Every other heartbeat counts: the robot is then cached with the status it says, and with a time
    of contact less than 10 s old, whether its write succeeds or not.
  */
  lemma BelievedHeartbeatCounts(r: Robot, clientId: Option<string>, status: Option<string>, now: int, writeOk: bool)
    requires !FromStranger(Receive(now, Heartbeat(clientId, status), writeOk))
    ensures var state := Step(r, Receive(now, Heartbeat(clientId, status), writeOk)).cache;
            && state.Some? && state.value.lastStatus == (if status == Some("offline") then OFFLINE else ONLINE)
            && now - state.value.lastDbHeartbeat < 10_000
            && (state.value.lastDbHeartbeat == now || (r.cache.Some? && state == r.cache))
  {
  }

  // ---------- Demotion of a silent robot ----------

  predicate Silent(es: seq<Event>) {
    forall i :: 0 <= i < |es| ==> !IsContact(es[i])
  }

  /** Every full scan interval of the run, from time c on, contains a scan. */
  ghost predicate ScansKeepCadence(c: int, es: seq<Event>) {
    forall x: int :: c <= x && x + STALE_SCAN_INTERVAL_MS <= Clock(c, es) ==> ScanSoonAfter(es, x)
  }

  /** Some scan happens within one interval after time x. */
  ghost predicate ScanSoonAfter(es: seq<Event>, x: int) {
    exists i :: 0 <= i < |es| && es[i].Scan? && x < es[i].now <= x + STALE_SCAN_INTERVAL_MS
  }

  /** Silence freezes the entry until a scan demotes it. */
  lemma {:induction false} SilenceFreezesEntry(r: Robot, es: seq<Event>)
    requires Online(r) && Silent(es)
    requires Online(Run(r, es))
    ensures Run(r, es).cache.value.lastDbHeartbeat == r.cache.value.lastDbHeartbeat
  {
    if es != [] {
      var n := |es| - 1;
      assert !IsContact(es[n]) && Silent(es[..n]);
      if Online(Run(r, es[..n])) {
        SilenceFreezesEntry(r, es[..n]);
      }
    }
  }

  /** Some step of the run turns the robot from ONLINE to not ONLINE. */
  lemma {:induction false} FindDemotion(r: Robot, es: seq<Event>) returns (k: nat)
    requires Online(r) && !Online(Run(r, es))
    ensures k < |es| && Online(Run(r, es[..k])) && !Online(Run(r, es[..k + 1]))
  {
    var n := |es| - 1;
    if Online(Run(r, es[..n])) {
      k := n;
      assert es[..n + 1] == es;
    } else {
      k := FindDemotion(r, es[..n]);
      assert es[..n][..k] == es[..k] && es[..n][..k + 1] == es[..k + 1];
    }
  }

  lemma {:induction false} TimelyOrder(c: int, es: seq<Event>, i: nat, j: nat)
    requires Timely(c, es) && i <= j < |es|
    ensures c <= es[i].now <= es[j].now
  {
    var n := |es| - 1;
    if j < n {
      TimelyOrder(c, es[..n], i, j);
    } else if i < n {
      TimelyOrder(c, es[..n], i, n - 1);
    } else if n > 0 {
      TimelyOrder(c, es[..n], 0, n - 1);
    }
  }

  /**
    Main result: an ONLINE robot whose last contact was at c and that stays silent is demoted by
    a scan more than 20 s and less than 35 s after c.
  */
  lemma SilentRobotDemotedInTime(r: Robot, n: Naive, c: int, es: seq<Event>) returns (k: nat)
    requires Online(r) && TrailsContact(r, n) && n.lastContact == c
    requires Timely(c, es) && Silent(es) && ScansSucceed(es)
    requires ScansKeepCadence(c, es)
    requires Clock(c, es) >= c + 35_000
    ensures k < |es| && es[k].Scan?
    ensures Online(Run(r, es[..k])) && !Online(Run(r, es[..k + 1]))
    ensures c + 20_000 < es[k].now < c + 35_000
  {
    var i := LateScan(c, es);
    var upTo := es[..i + 1];
    assert Silent(upTo) && upTo[..i] == es[..i] && upTo[i] == es[i];
    OfflineAfterLateScan(r, n, c, upTo);
    k := FindDemotion(r, upTo);
    assert upTo[..k] == es[..k] && upTo[..k + 1] == es[..k + 1] && upTo[k] == es[k];
    DemotionIsNotEarly(r, n, c, upTo, k);
    TimelyOrder(c, es, k, i);
  }

  /** The cadence puts a scan between 30 s and 35 s after c. */
  lemma LateScan(c: int, es: seq<Event>) returns (i: nat)
    requires ScansKeepCadence(c, es) && Clock(c, es) >= c + 35_000
    ensures i < |es| && es[i].Scan? && c + 30_000 <= es[i].now < c + 35_000
  {
    var x := c + 30_000 - 1;
    assert ScanSoonAfter(es, x);
    i :| 0 <= i < |es| && es[i].Scan? && x < es[i].now <= x + STALE_SCAN_INTERVAL_MS;
  }

  lemma OfflineAfterLateScan(r: Robot, n: Naive, c: int, es: seq<Event>)
    requires Online(r) && TrailsContact(r, n) && n.lastContact == c
    requires Silent(es) && es != [] && es[|es| - 1].Scan? && es[|es| - 1].writeOk
    requires es[|es| - 1].now >= c + 30_000
    ensures !Online(Run(r, es))
  {
    var before, e := es[..|es| - 1], es[|es| - 1];
    var mid := Run(r, before);
    if Online(mid) {
      SilenceFreezesEntry(r, before);
    } else {
      if Online(Step(mid, e)) {
        OnlineOnlyByContact(mid, e);
      }
    }
  }

  lemma DemotionIsNotEarly(r: Robot, n: Naive, c: int, es: seq<Event>, k: nat)
    requires Online(r) && TrailsContact(r, n) && n.lastContact == c
    requires Silent(es) && k < |es| && Online(Run(r, es[..k])) && !Online(Run(r, es[..k + 1]))
    ensures es[k].Scan? && c + 20_000 < es[k].now
  {
    SilenceFreezesEntry(r, es[..k]);
    var upTo := es[..k + 1];
    assert upTo[..k] == es[..k] && !IsContact(es[k]);
    DemotedOnlyByScan(Run(r, es[..k]), es[k]);
  }

  lemma DemotedOnlyByScan(r: Robot, e: Event)
    requires Online(r) && !Online(Step(r, e)) && !IsContact(e)
    ensures e.Scan? && e.now - r.cache.value.lastDbHeartbeat >= 30_000
  {
  }

  lemma OnlineOnlyByContact(r: Robot, e: Event)
    requires Online(Step(r, e)) && !IsContact(e)
    ensures Online(r)
  {
  }

  // ---------- Battery ----------

  /** The cached and the persisted battery are one value, strictly within the delta of the latest reading. */
  ghost predicate BatteryTracks(r: Robot, n: Naive) {
    match n.reading
    case None => CachedBattery(r).None?
    case Some(latest) =>
      && CachedBattery(r).Some?
      && Abs(latest - CachedBattery(r).value) < 1.0
      && r.row.batteryLevel == CachedBattery(r)
  }

  lemma StepKeepsBattery(r: Robot, n: Naive, e: Event, threshold: int)
    requires BatteryTracks(r, n)
    requires e.Receive? && !e.message.Heartbeat? ==> e.writeOk
    ensures BatteryTracks(Step(r, e), NaiveStep(n, e, threshold))
  {
    match e
    case Receive(now, Heartbeat(_, _), _) =>
    case Receive(now, StatusFrame(battery), _) =>
    case Receive(now, BatteryEvent(_, _), _) =>
    case Scan(_, _) =>
  }

  /** Main result: the persisted battery is within 1.0 of the latest reading, whichever message brought it. */
  lemma {:induction false} BatteryWithinDelta(r: Robot, n: Naive, threshold: int, es: seq<Event>)
    requires Fresh(r, n)
    requires StatusFramesSucceed(es) && BatteryEventsSucceed(es)
    ensures BatteryTracks(Run(r, es), NaiveRun(n, es, threshold))
  {
    if es != [] {
      var front, e := es[..|es| - 1], es[|es| - 1];
      BatteryWithinDelta(r, n, threshold, front);
      hide BatteryTracks, Step, NaiveStep;
      StepKeepsBattery(Run(r, front), NaiveRun(n, front, threshold), e, threshold);
    }
  }

  function LatestReading(es: seq<Event>): Option<real> {
    if es == [] then None
    else if Reading(es[|es| - 1]).Some? then Reading(es[|es| - 1])
    else LatestReading(es[..|es| - 1])
  }

  /** How far the readings of es travelled in all. */
  function Variation(es: seq<Event>): real {
    if es == [] then 0.0
    else
      var before, last := es[..|es| - 1], es[|es| - 1];
      Variation(before) +
      if Reading(last).Some? && LatestReading(before).Some?
      then Abs(Reading(last).value - LatestReading(before).value) else 0.0
  }

  function BatteryWrites(ws: seq<Write>): nat {
    if ws == [] then 0
    else BatteryWrites(ws[..|ws| - 1]) + if ws[|ws| - 1].batteryLevel.Some? then 1 else 0
  }

  lemma StepWrites(r: Robot, e: Event)
    ensures Step(r, e).writes == r.writes || |Step(r, e).writes| == |r.writes| + 1
    ensures |Step(r, e).writes| == |r.writes| + 1 ==>
              && Step(r, e).writes[..|r.writes|] == r.writes
              && var w := Step(r, e).writes[|r.writes|];
                 && (w.batteryLevel.Some? <==>
                       e.Receive? && Reading(e).Some? && BatteryMoved(r, Reading(e)) && e.writeOk)
                 && (w.batteryLevel.Some? ==> w.batteryLevel == Reading(e) == CachedBattery(Step(r, e)))
                 && (w.lastSeen.Some? ==> w.lastSeen == Some(e.now) && IsContact(e))
    ensures Step(r, e).writes == r.writes ==> CachedBattery(Step(r, e)) == CachedBattery(r)
    ensures BatteryWrites(Step(r, e).writes) == BatteryWrites(r.writes) ==>
              CachedBattery(Step(r, e)) == CachedBattery(r)
  {
  }

  /** What the throttle spends is paid for by how far the readings moved, even when writes fail. */
  lemma {:induction false} BatteryWritesPaidFor(r: Robot, es: seq<Event>)
    requires CachedBattery(r).None? && r.writes == []
    ensures BatteryWrites(Run(r, es).writes) == 0 ==> CachedBattery(Run(r, es)).None?
    ensures BatteryWrites(Run(r, es).writes) > 0 ==>
              && LatestReading(es).Some? && CachedBattery(Run(r, es)).Some?
              && (BatteryWrites(Run(r, es).writes) - 1) as real
                 + Abs(CachedBattery(Run(r, es)).value - LatestReading(es).value) <= Variation(es)
    ensures Variation(es) >= 0.0
  {
    if es != [] {
      var n := |es| - 1;
      BatteryWritesPaidFor(r, es[..n]);
      StepWrites(Run(r, es[..n]), es[n]);
    }
  }

  /** Main result: battery writes minus one are at most the total variation of the readings. */
  lemma BatteryWritesBounded(r: Robot, es: seq<Event>)
    requires CachedBattery(r).None? && r.writes == []
    ensures BatteryWrites(Run(r, es).writes) as real - 1.0 <= Variation(es)
  {
    BatteryWritesPaidFor(r, es);
  }

  // ---------- Broadcasts ----------

  /** bs alternates, starts away from the status it follows, and ends at the cached status. */
  ghost predicate Faithful(start: Option<IngestState>, bs: seq<StatusChanged>, end: Option<IngestState>) {
    && (forall i :: 0 < i < |bs| ==> bs[i].status != bs[i - 1].status)
    && (start.Some? && bs != [] ==> bs[0].status != start.value.lastStatus)
    && (bs != [] ==> end.Some? && bs[|bs| - 1].status == end.value.lastStatus)
    && (start.Some? ==> end.Some?)
    && (bs == [] && start.Some? ==> end.value.lastStatus == start.value.lastStatus)
  }

  lemma StepIsFaithful(r: Robot, e: Event)
    ensures Step(r, e).broadcasts == r.broadcasts ||
            (|Step(r, e).broadcasts| == |r.broadcasts| + 1 && Step(r, e).broadcasts[..|r.broadcasts|] == r.broadcasts)
    ensures Faithful(r.cache, Step(r, e).broadcasts[|r.broadcasts|..], Step(r, e).cache)
  {
  }

  /**
    Main result: whatever writes fail and whatever the clock does, successive broadcasts differ and
    replaying them over the cached status one started from gives the cached status now.
  */
  lemma {:induction false} BroadcastsAreFaithful(r: Robot, es: seq<Event>)
    ensures r.broadcasts <= Run(r, es).broadcasts
    ensures Faithful(r.cache, Run(r, es).broadcasts[|r.broadcasts|..], Run(r, es).cache)
  {
    if es != [] {
      var n, b := |es| - 1, |r.broadcasts|;
      BroadcastsAreFaithful(r, es[..n]);
      var mid := Run(r, es[..n]);
      var end := Step(mid, es[n]);
      StepIsFaithful(mid, es[n]);
      hide Step, Faithful;
      var more := end.broadcasts[|mid.broadcasts|..];
      assert end.broadcasts == mid.broadcasts + more;
      assert end.broadcasts[b..] == mid.broadcasts[b..] + more;
      FaithfulChains(r.cache, mid.broadcasts[b..], mid.cache, more, end.cache);
    }
  }

  lemma FaithfulChains(start: Option<IngestState>, bs: seq<StatusChanged>, mid: Option<IngestState>,
                       more: seq<StatusChanged>, end: Option<IngestState>)
    requires Faithful(start, bs, mid) && Faithful(mid, more, end)
    ensures Faithful(start, bs + more, end)
  {
    var all := bs + more;
    forall i | 0 < i < |all| ensures all[i].status != all[i - 1].status {
      if i < |bs| {
        assert bs[i].status != bs[i - 1].status;
      } else if i > |bs| {
        assert more[i - |bs|].status != more[i - |bs| - 1].status;
      }
    }
  }

  /** A step that broadcasts says what the cache now holds. */
  lemma BroadcastSaysCachedState(r: Robot, e: Event)
    ensures |Step(r, e).broadcasts| > |r.broadcasts| ==>
              var state := Step(r, e).cache;
              state.Some? && Step(r, e).broadcasts[|r.broadcasts|] ==
                StatusChanged(state.value.userId, state.value.lastStatus, state.value.lastDbHeartbeat)
  {
  }

  /** Every broadcast goes to the owner of the row, and carries a time no later than the clock. */
  lemma {:induction false} BroadcastsReachOwner(r: Robot, n: Naive, t0: int, es: seq<Event>)
    requires Fresh(r, n) && NotAheadOfClock(r, t0) && Timely(t0, es)
    ensures Run(r, es).row.userId == r.row.userId
    ensures Run(r, es).cache.Some? ==> Run(r, es).cache.value.userId == r.row.userId
    ensures forall b :: b in Run(r, es).broadcasts ==> b.userId == r.row.userId && b.lastSeen <= Clock(t0, es)
  {
    if es != [] {
      var front, e := es[..|es| - 1], es[|es| - 1];
      BroadcastsReachOwner(r, n, t0, front);
      ClockBoundsHeartbeat(r, t0, es);
      OwnerIsKept(Run(r, front), e);
      StepIsFaithful(Run(r, front), e);
      BroadcastSaysCachedState(Run(r, front), e);
      hide Step, Faithful;
      var before, after := Run(r, front).broadcasts, Run(r, es).broadcasts;
      if after != before {
        assert after == before + [after[|before|]];
      }
    }
  }

  lemma OwnerIsKept(r: Robot, e: Event)
    requires r.cache.Some? ==> r.cache.value.userId == r.row.userId
    ensures Step(r, e).row.userId == r.row.userId
    ensures Step(r, e).cache.Some? ==> Step(r, e).cache.value.userId == r.row.userId
  {
  }

  // ---------- Agreement of cache and row ----------

  /** The cache and the row name one status; a robot not heard of yet is OFFLINE in its row. */
  predicate Coherent(r: Robot) {
    r.row.status == if r.cache.Some? then r.cache.value.lastStatus else OFFLINE
  }

  /** Which steps bring cache and row back together once they disagree. */
  predicate Repairs(r: Robot, e: Event) {
    match e
    case Receive(now, Heartbeat(clientId, status), writeOk) =>
      var s := Said(status);
      Believed(clientId) && (StatusDiffers(r, s) || HeartbeatStale(r, now)) && (writeOk || r.row.status == s)
    case Receive(_, StatusFrame(_), writeOk) => writeOk && !Online(r)
    case Receive(_, BatteryEvent(_, _), _) => false
    case Scan(now, writeOk) => writeOk && ScanFires(r, now)
  }

  /** The one handler that can break the agreement, and exactly when it does. */
  lemma HeartbeatKeepsCoherenceIff(r: Robot, clientId: Option<string>, status: Option<string>, now: int, writeOk: bool)
    requires Coherent(r)
    ensures Coherent(OnHeartbeat(r, clientId, status, now, writeOk)) <==>
            writeOk || !Believed(clientId) || r.row.status == Said(status)
  {
  }

  /** Main result: with heartbeat writes succeeding, and the others failing at will, cache and row agree. */
  lemma {:induction false} CacheAgreesWithRow(r: Robot, es: seq<Event>)
    requires Coherent(r) && HeartbeatsSucceed(es)
    ensures Coherent(Run(r, es))
  {
    if es != [] {
      var n := |es| - 1;
      assert HeartbeatsSucceed(es[..n]);
      CacheAgreesWithRow(r, es[..n]);
    }
  }

  /** A failed heartbeat write that would have changed the status really does break it. */
  lemma FailedHeartbeatDiverges(userId: string, now: int)
    ensures var r := Robot(Row(userId, OFFLINE, None, None), None, [], []);
            var r' := Run(r, [Receive(now, Heartbeat(None, None), false)]);
            Coherent(r) && !Coherent(r') && Online(r') && r'.row.status == OFFLINE
  {
    var r := Robot(Row(userId, OFFLINE, None, None), None, [], []);
    var e := Receive(now, Heartbeat(None, None), false);
    assert [e][..0] == [];
    assert Run(r, [e]) == Step(Run(r, []), e);
  }

  /**
    Once the cache says ONLINE over another status in the row, no number of status frames and
    battery events repairs the row: they write the status only when the cache differs.
  */
  lemma {:induction false} StatusFramesNeverRepair(r: Robot, es: seq<Event>)
    requires Online(r)
    requires forall i :: 0 <= i < |es| ==> es[i].Receive? && !es[i].message.Heartbeat?
    ensures Online(Run(r, es)) && Run(r, es).row.status == r.row.status
  {
    if es != [] {
      StatusFramesNeverRepair(r, es[..|es| - 1]);
    }
  }

  /** A status frame recovers the row exactly when the cache does not already say ONLINE. */
  lemma StatusFrameRecoversIff(r: Robot, battery: Option<real>, now: int, writeOk: bool)
    ensures OnStatusFrame(r, battery, now, writeOk).row.status == ONLINE <==>
            r.row.status == ONLINE || (writeOk && !Online(r))
  {
  }

  lemma StepRepairsIff(r: Robot, e: Event)
    requires !Coherent(r)
    ensures Coherent(Step(r, e)) <==> Repairs(r, e)
  {
  }

  ghost predicate Diverged(r: Robot, es: seq<Event>) {
    forall k :: 0 <= k <= |es| ==> !Coherent(Run(r, es[..k]))
  }

  ghost predicate NoRepair(r: Robot, es: seq<Event>) {
    forall k :: 0 <= k < |es| ==> !Repairs(Run(r, es[..k]), es[k])
  }

  lemma DivergedOneLonger(r: Robot, front: seq<Event>, e: Event)
    ensures Diverged(r, front + [e]) <==> Diverged(r, front) && !Coherent(Run(r, front + [e]))
    ensures NoRepair(r, front + [e]) <==> NoRepair(r, front) && !Repairs(Run(r, front), e)
  {
    hide Run, Coherent, Repairs;
    var all := front + [e];
    assert all[..|all|] == all && all[..|front|] == front && all[|front|] == e;
    forall k | 0 <= k <= |front| ensures Run(r, all[..k]) == Run(r, front[..k]) {
      assert all[..k] == front[..k];
    }
    forall k | 0 <= k < |front| ensures all[k] == front[k] {
    }
  }

  /** Main result: once cache and row disagree they do so until the first repairing step, and no longer. */
  lemma {:induction false} DivergenceLastsIff(r: Robot, es: seq<Event>)
    requires !Coherent(r)
    ensures Diverged(r, es) <==> NoRepair(r, es)
  {
    if es == [] {
      assert Run(r, es[..0]) == r;
    } else {
      var front, e := es[..|es| - 1], es[|es| - 1];
      assert es == front + [e];
      DivergenceLastsIff(r, front);
      DivergedOneLonger(r, front, e);
      assert Diverged(r, front) ==> !Coherent(Run(r, front)) by {
        hide Coherent;
        assert front[..|front|] == front;
      }
      hide Coherent, Repairs, Step, Diverged, NoRepair;
      if !Coherent(Run(r, front)) {
        StepRepairsIff(Run(r, front), e);
      }
    }
  }

  lemma {:induction false} RunConcat(r: Robot, es: seq<Event>, more: seq<Event>)
    ensures Run(r, es + more) == Run(Run(r, es), more)
  {
    if more == [] {
      assert es + more == es;
    } else {
      var n := |more| - 1;
      RunConcat(r, es, more[..n]);
      assert (es + more)[..|es + more| - 1] == es + more[..n];
      hide Step;
    }
  }

  /**
    Main result: whatever happened before, a Pi heartbeat that is written through makes cache and row
    agree, and they agree for as long as heartbeat writes succeed.
  */
  lemma WrittenHeartbeatRecovers(r: Robot, before: seq<Event>, now: int, clientId: Option<string>,
                                 status: Option<string>, after: seq<Event>)
    requires Believed(clientId)
    requires StatusDiffers(Run(r, before), Said(status)) || HeartbeatStale(Run(r, before), now)
    requires HeartbeatsSucceed(after)
    ensures Coherent(Run(r, before + [Receive(now, Heartbeat(clientId, status), true)] + after))
  {
    var heartbeat := Receive(now, Heartbeat(clientId, status), true);
    var mid := Run(r, before + [heartbeat]);
    assert (before + [heartbeat])[..|before|] == before;
    assert mid == Step(Run(r, before), heartbeat);
    assert Coherent(mid);
    hide Run, Step, Coherent, HeartbeatsSucceed;
    CacheAgreesWithRow(mid, after);
    RunConcat(r, before + [heartbeat], after);
  }

  /** A heartbeat that could be written does not repair the row when a status frame has just moved the throttle. */
  lemma FrameStarvesHeartbeat(userId: string, now: int)
    ensures var r := Robot(Row(userId, OFFLINE, None, None), None, [], []);
            Diverged(Run(r, [Receive(now, Heartbeat(None, None), false)]),
                     [Receive(now + 10_000, StatusFrame(None), true),
                      Receive(now + 10_000 + 1, Heartbeat(None, None), true)])
  {
    var r := Robot(Row(userId, OFFLINE, None, None), None, [], []);
    var frame := Receive(now + 10_000, StatusFrame(None), true);
    var heartbeat := Receive(now + 10_000 + 1, Heartbeat(None, None), true);
    FailedHeartbeatDiverges(userId, now);
    var r1 := Run(r, [Receive(now, Heartbeat(None, None), false)]);
    assert [Receive(now, Heartbeat(None, None), false)][..0] == [];
    assert r1.cache == Some(IngestState(userId, now, ONLINE, None));
    var es := [frame, heartbeat];
    assert es[..0] == [] && es[..1] == [frame] && [frame][..0] == [];
    assert Run(r1, [frame]) == Step(r1, frame);
    assert !Repairs(Run(r1, es[..0]), frame) && !Repairs(Run(r1, es[..1]), heartbeat);
    hide Run, Step, Repairs, Coherent;
    assert NoRepair(r1, es);
    DivergenceLastsIff(r1, es);
  }

  // ---------- Write throttling ----------

  function LastSeenWrites(ws: seq<Write>): nat {
    if ws == [] then 0
    else LastSeenWrites(ws[..|ws| - 1]) + if ws[|ws| - 1].lastSeen.Some? then 1 else 0
  }

  /** A step that writes lastSeen announces a change or comes late enough; it then holds the time of the step. */
  lemma StepSpacesWrites(r: Robot, e: Event)
    ensures var r' := Step(r, e);
            var wrote := LastSeenWrites(r'.writes) - LastSeenWrites(r.writes);
            var announced := |r'.broadcasts| - |r.broadcasts|;
            && 0 <= wrote <= 1 && 0 <= announced <= 1
            && (wrote > announced ==> r.cache.Some? && e.now - r.cache.value.lastDbHeartbeat >= 10_000)
            && (wrote == 1 ==> r'.cache.Some? && r'.cache.value.lastDbHeartbeat == e.now)
            && (r.cache.Some? ==>
                  r'.cache.Some? && r'.cache.value.lastDbHeartbeat in {r.cache.value.lastDbHeartbeat, e.now})
  {
    StepWrites(r, e);
  }

  /** lastSeen writes beyond the announced status changes are spaced by the write throttle. */
  lemma {:induction false} ThrottledWritesAreSpaced(r: Robot, n: Naive, t0: int, es: seq<Event>)
    requires Fresh(r, n) && NotAheadOfClock(r, t0) && Timely(t0, es)
    ensures var r' := Run(r, es);
            var extra := LastSeenWrites(r'.writes) - |r'.broadcasts|;
            extra > 0 ==> r'.cache.Some? && r'.cache.value.lastDbHeartbeat >= t0 + 10_000 * (extra - 1)
  {
    if es != [] {
      var front := es[..|es| - 1];
      ThrottledWritesAreSpaced(r, n, t0, front);
      ClockBoundsHeartbeat(r, t0, front);
      StepSpacesWrites(Run(r, front), es[|es| - 1]);
      TimelyBounds(t0, front);
      hide Step, LastSeenWrites, Fresh;
    }
  }

  lemma {:induction false} TimelyBounds(t0: int, es: seq<Event>)
    requires Timely(t0, es)
    ensures t0 <= Clock(t0, es)
  {
    if es != [] {
      TimelyBounds(t0, es[..|es| - 1]);
    }
  }

  /** Main result: over a run of length T, lastSeen writes are at most status changes + 1 + T / 10 s. */
  lemma LastSeenWritesBounded(r: Robot, n: Naive, t0: int, es: seq<Event>)
    requires Fresh(r, n) && NotAheadOfClock(r, t0) && Timely(t0, es)
    ensures var r' := Run(r, es);
            10_000 * (LastSeenWrites(r'.writes) - |r'.broadcasts| - 1) <= Clock(t0, es) - t0
  {
    ThrottledWritesAreSpaced(r, n, t0, es);
    ClockBoundsHeartbeat(r, t0, es);
    TimelyBounds(t0, es);
  }
}
