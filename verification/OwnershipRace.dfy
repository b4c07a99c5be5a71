/**
  The ownership cache under interleaving. Lookups, renames, removals and writers outside the
  service run concurrently, split wherever the code awaits the database, on a clock that may jump.
  Exact agreement is lost; what remains is that no answer is older than the lifetime of an entry.
*/
module OwnershipRace {
  import opened Common
  import opened OwnershipCache

  datatype Change = Rename(serialNumber: Option<string>) | Delete

  /** An operation in flight, by the await it is suspended at. */
  datatype Call =
    | Looking(id: string, userId: string, now: int, begun: nat)
    | Looked(id: string, userId: string, now: int, begun: nat, row: Option<Robot>)
    | Checking(id: string, userId: string, change: Change)
    | Checked(id: string, userId: string, change: Change, row: Option<Robot>)
    | Writing(id: string, userId: string, change: Change)

  /** The database at one instant. */
  datatype Snapshot = Snapshot(time: int, db: map<string, Robot>)

  /** A finished lookup: begun and given are indices of instants. */
  datatype Answer = Answer(id: string, userId: string, result: Lookup, fromCache: bool, begun: nat, given: nat)

  datatype World = World(cache: seq<Entry>, calls: map<nat, Call>, past: seq<Snapshot>, answers: seq<Answer>)

  datatype Action =
    | Tick(ms: int)
    | BeginLookup(call: nat, id: string, userId: string)
    | ReadRow(call: nat)
    | EndLookup(call: nat)
    | BeginChange(call: nat, id: string, userId: string, change: Change)
    | Proceed(call: nat)
    | Commit(call: nat, writeOk: bool)
    | OtherWriter(db: map<string, Robot>)

  function Start(db: map<string, Robot>, time: int): World {
    World([], map[], [Snapshot(time, db)], [])
  }

  function Now(w: World): Snapshot
    requires w.past != []
  {
    w.past[|w.past| - 1]
  }

  function Changed(db: map<string, Robot>, id: string, change: Change): map<string, Robot> {
    if id !in db then db
    else if change.Delete? then db - {id}
    else if change.serialNumber.None? then db
    else db[id := db[id].(serialNumber := change.serialNumber.value)]
  }

  /** The same world one instant later, with the database as given. */
  function Later(w: World, ms: int, db: map<string, Robot>): World
    requires w.past != []
  {
    w.(past := w.past + [Snapshot(Now(w).time + ms, db)])
  }

  function Answered(w: World, a: Answer): World {
    w.(answers := w.answers + [a])
  }

  /** One step; an action that is not enabled only lets an instant pass. */
  function Next(w: World, a: Action): (r: World)
    requires w.past != []
    ensures |r.past| == |w.past| + 1 && w.past <= r.past
  {
    var here := |w.past| - 1;
    var db, time := Now(w).db, Now(w).time;
    var still := Later(w, 0, db);
    match a
    case Tick(ms) => Later(w, ms, db)
    case OtherWriter(db') => Later(w, 0, db')
    case BeginLookup(call, id, userId) =>
      if call in w.calls || ':' in userId then still
      else
        var hit := MapGet(w.cache, Key(userId, id));
        if hit.Some? && hit.value.expiresAt > time
        then Answered(still, Answer(id, userId, Found(hit.value.serialNumber), true, here, here))
        else still.(calls := w.calls[call := Looking(id, userId, time, here)])
    case ReadRow(call) =>
      if call !in w.calls then still
      else (
        match w.calls[call]
        case Looking(id, userId, now, begun) =>
          still.(calls := w.calls[call := Looked(id, userId, now, begun, Get(db, id))])
        case Checking(id, userId, change) =>
          still.(calls := w.calls[call := Checked(id, userId, change, Get(db, id))])
        case _ => still
      )
    case EndLookup(call) =>
      if call !in w.calls || !w.calls[call].Looked? then still
      else
        var c := w.calls[call];
        var result := RowResult(c.row, c.userId);
        Answered(still.(calls := w.calls - {call},
                        cache := if result.Found? then Fill(w.cache, Key(c.userId, c.id), result.serialNumber, c.now)
                                 else w.cache),
                 Answer(c.id, c.userId, result, false, c.begun, here))
    case BeginChange(call, id, userId, change) =>
      if call in w.calls then still
      else still.(calls := w.calls[call := Checking(id, userId, change)])
    case Proceed(call) =>
      if call !in w.calls || !w.calls[call].Checked? then still
      else
        var c := w.calls[call];
        if RowResult(c.row, c.userId).Found?
        then still.(calls := w.calls[call := Writing(c.id, c.userId, c.change)], cache := Invalidate(w.cache, c.id))
        else still.(calls := w.calls - {call})
    case Commit(call, writeOk) =>
      if call !in w.calls || !w.calls[call].Writing? then still
      else
        var c := w.calls[call];
        Later(w.(calls := w.calls - {call}), 0, if writeOk then Changed(db, c.id, c.change) else db)
  }

  function Play(w: World, actions: seq<Action>): (r: World)
    requires w.past != []
    ensures r.past != []
  {
    if actions == [] then w else Next(Play(w, actions[..|actions| - 1]), actions[|actions| - 1])
  }

  // ---------- Invariant ----------

  /** At instant k the database gave this answer. */
  predicate TrueAt(past: seq<Snapshot>, k: nat, id: string, userId: string, result: Lookup) {
    k < |past| && Says(past[k].db, id, userId, result)
  }

  /** The entry was true at an instant k, no earlier than the instant b that its lifetime counts from. */
  ghost predicate EntryWitnessed(past: seq<Snapshot>, e: Entry) {
    exists userId, id, b: nat, k: nat ::
      && ':' !in userId && e.key == Key(userId, id)
      && b <= k && TrueAt(past, k, id, userId, Found(e.serialNumber))
      && past[b].time == e.expiresAt - OWNERSHIP_TTL_MS
  }

  /** A lookup past its read holds a row that the database had during the call. */
  ghost predicate CallWitnessed(past: seq<Snapshot>, c: Call) {
    && (c.Looking? || c.Looked? ==>
          ':' !in c.userId && c.begun < |past| && c.now == past[c.begun].time)
    && (c.Looked? ==>
          exists k: nat :: c.begun <= k && TrueAt(past, k, c.id, c.userId, RowResult(c.row, c.userId)))
    && (c.Checked? ==> exists k: nat :: RowAt(past, k, c.id, c.row))
    && (c.Writing? ==> exists k: nat :: OwnedAt(past, k, c.id, c.userId))
  }

  predicate RowAt(past: seq<Snapshot>, k: nat, id: string, row: Option<Robot>) {
    k < |past| && Get(past[k].db, id) == row
  }

  predicate OwnedAt(past: seq<Snapshot>, k: nat, id: string, userId: string) {
    k < |past| && id in past[k].db && past[k].db[id].userId == userId
  }

  /** The clock at instant b is where the answer's age counts from. */
  predicate CountsFrom(past: seq<Snapshot>, a: Answer, b: nat)
    requires a.given < |past| && b < |past|
  {
    if a.fromCache then past[b].time > past[a.given].time - 60_000 else b == a.begun
  }

  /**
    The bound, on any clock: a miss was true during its call; a hit was true no earlier than some
    instant b at which the clock read less than a lifetime below what it reads when the hit is given.
  */
  ghost predicate AnswerWitnessed(past: seq<Snapshot>, a: Answer) {
    && a.begun <= a.given < |past|
    && exists b: nat, k: nat ::
         b <= k <= a.given && TrueAt(past, k, a.id, a.userId, a.result) && CountsFrom(past, a, b)
  }

  /** The bound on a clock that does not go back: a hit was true less than a lifetime ago. */
  ghost predicate AnswerRecent(past: seq<Snapshot>, a: Answer) {
    && a.begun <= a.given < |past|
    && exists k: nat ::
         && k <= a.given && TrueAt(past, k, a.id, a.userId, a.result)
         && (if a.fromCache then past[a.given].time - 60_000 < past[k].time <= past[a.given].time
             else a.begun <= k)
  }

  ghost predicate TimesOrdered(past: seq<Snapshot>) {
    forall i, j :: 0 <= i <= j < |past| ==> past[i].time <= past[j].time
  }

  ghost predicate Inv(w: World) {
    && w.past != [] && DistinctKeys(w.cache) && |w.cache| <= OWNERSHIP_MAX_ENTRIES
    && (forall e :: e in w.cache ==> EntryWitnessed(w.past, e))
    && (forall call :: call in w.calls ==> CallWitnessed(w.past, w.calls[call]))
    && (forall a :: a in w.answers ==> AnswerWitnessed(w.past, a))
  }

  // ---------- Preservation ----------

  lemma WitnessesSurvive(past: seq<Snapshot>, s: Snapshot)
    ensures forall e :: EntryWitnessed(past, e) ==> EntryWitnessed(past + [s], e)
    ensures forall c :: CallWitnessed(past, c) ==> CallWitnessed(past + [s], c)
    ensures forall a :: AnswerWitnessed(past, a) ==> AnswerWitnessed(past + [s], a)
  {
    var more := past + [s];
    assert forall k, id, userId, result :: TrueAt(past, k, id, userId, result) ==> TrueAt(more, k, id, userId, result);
    forall e | EntryWitnessed(past, e) ensures EntryWitnessed(more, e) {
      var userId, id, b: nat, k: nat :| ':' !in userId && e.key == Key(userId, id)
        && b <= k && TrueAt(past, k, id, userId, Found(e.serialNumber))
        && past[b].time == e.expiresAt - OWNERSHIP_TTL_MS;
      assert TrueAt(more, k, id, userId, Found(e.serialNumber)) && more[b] == past[b];
    }
    forall a | AnswerWitnessed(past, a) ensures AnswerWitnessed(more, a) {
      var b: nat, k: nat :| b <= k <= a.given && TrueAt(past, k, a.id, a.userId, a.result) && CountsFrom(past, a, b);
      assert TrueAt(more, k, a.id, a.userId, a.result) && CountsFrom(more, a, b);
    }
    forall c | CallWitnessed(past, c) ensures CallWitnessed(more, c) {
      if c.Looked? {
        var k: nat :| c.begun <= k && TrueAt(past, k, c.id, c.userId, RowResult(c.row, c.userId));
        assert TrueAt(more, k, c.id, c.userId, RowResult(c.row, c.userId));
      }
      if c.Checked? {
        var k: nat :| RowAt(past, k, c.id, c.row);
        assert RowAt(more, k, c.id, c.row);
      }
      if c.Writing? {
        var k: nat :| OwnedAt(past, k, c.id, c.userId);
        assert OwnedAt(more, k, c.id, c.userId);
      }
    }
  }

  /** Letting an instant pass, whatever becomes of the database. */
  lemma LaterKeepsInv(w: World, ms: int, db: map<string, Robot>)
    requires Inv(w)
    ensures Inv(Later(w, ms, db))
  {
    WitnessesSurvive(w.past, Snapshot(Now(w).time + ms, db));
  }

  lemma HitKeepsInv(w: World, hit: Entry, id: string, userId: string)
    requires Inv(w) && ':' !in userId
    requires hit in w.cache && hit.key == Key(userId, id) && hit.expiresAt > Now(w).time
    ensures Inv(Answered(w, Answer(id, userId, Found(hit.serialNumber), true, |w.past| - 1, |w.past| - 1)))
  {
    var a := Answer(id, userId, Found(hit.serialNumber), true, |w.past| - 1, |w.past| - 1);
    assert EntryWitnessed(w.past, hit);
    var u, r, b: nat, k: nat :| ':' !in u && hit.key == Key(u, r)
      && b <= k && TrueAt(w.past, k, r, u, Found(hit.serialNumber))
      && w.past[b].time == hit.expiresAt - OWNERSHIP_TTL_MS;
    KeyIsInjective(u, r, userId, id);
    assert CountsFrom(w.past, a, b) && TrueAt(w.past, k, id, userId, a.result);
  }

  lemma ReadIsWitnessed(w: World, c: Call)
    requires Inv(w) && c.Looking? && CallWitnessed(w.past, c)
    ensures CallWitnessed(w.past, Looked(c.id, c.userId, c.now, c.begun, Get(Now(w).db, c.id)))
  {
    var row := Get(Now(w).db, c.id);
    assert TrueAt(w.past, |w.past| - 1, c.id, c.userId, RowResult(row, c.userId));
  }

  lemma MissIsWitnessed(w: World, c: Call)
    requires Inv(w) && c.Looked? && CallWitnessed(w.past, c)
    ensures AnswerWitnessed(w.past, Answer(c.id, c.userId, RowResult(c.row, c.userId), false, c.begun, |w.past| - 1))
  {
    var k: nat :| c.begun <= k && TrueAt(w.past, k, c.id, c.userId, RowResult(c.row, c.userId));
    var a := Answer(c.id, c.userId, RowResult(c.row, c.userId), false, c.begun, |w.past| - 1);
    assert CountsFrom(w.past, a, c.begun) && TrueAt(w.past, k, a.id, a.userId, a.result);
  }

  lemma FilledEntryIsWitnessed(w: World, c: Call)
    requires Inv(w) && c.Looked? && CallWitnessed(w.past, c)
    requires RowResult(c.row, c.userId).Found?
    ensures var serialNumber := RowResult(c.row, c.userId).serialNumber;
            EntryWitnessed(w.past, Entry(Key(c.userId, c.id), serialNumber, c.now + OWNERSHIP_TTL_MS))
  {
    var k: nat :| c.begun <= k && TrueAt(w.past, k, c.id, c.userId, RowResult(c.row, c.userId));
    assert w.past[c.begun].time == c.now;
  }

  lemma EndLookupKeepsInv(w: World, call: nat)
    requires Inv(w) && call in w.calls && w.calls[call].Looked?
    ensures Inv(Next(w, EndLookup(call)))
  {
    hide EntryWitnessed, AnswerWitnessed, TrueAt, Fill, RowResult, DistinctKeys;
    var c := w.calls[call];
    assert CallWitnessed(w.past, c);
    MissIsWitnessed(w, c);
    var result, key := RowResult(c.row, c.userId), Key(c.userId, c.id);
    if result.Found? {
      FilledEntryIsWitnessed(w, c);
      FillKeepsDistinctAndBounded(w.cache, key, result.serialNumber, c.now);
      FillMembers(w.cache, key, result.serialNumber, c.now);
    }
    var cache := if result.Found? then Fill(w.cache, key, result.serialNumber, c.now) else w.cache;
    var a := Answer(c.id, c.userId, result, false, c.begun, |w.past| - 1);
    LaterKeepsInv(World(cache, w.calls - {call}, w.past, w.answers + [a]), 0, Now(w).db);
  }

  lemma OwnerIsWitnessed(w: World, c: Call)
    requires Inv(w) && c.Checked? && CallWitnessed(w.past, c) && RowResult(c.row, c.userId).Found?
    ensures CallWitnessed(w.past, Writing(c.id, c.userId, c.change))
  {
    var k: nat :| RowAt(w.past, k, c.id, c.row);
    assert OwnedAt(w.past, k, c.id, c.userId);
  }

  lemma ReadRowKeepsInv(w: World, call: nat)
    requires Inv(w) && call in w.calls
    ensures Inv(Next(w, ReadRow(call)))
  {
    hide EntryWitnessed, AnswerWitnessed, DistinctKeys;
    var db, c := Now(w).db, w.calls[call];
    LaterKeepsInv(w, 0, db);
    if c.Looking? {
      ReadIsWitnessed(w, c);
      LaterKeepsInv(w.(calls := w.calls[call := Looked(c.id, c.userId, c.now, c.begun, Get(db, c.id))]), 0, db);
    } else if c.Checking? {
      assert RowAt(w.past, |w.past| - 1, c.id, Get(db, c.id));
      LaterKeepsInv(w.(calls := w.calls[call := Checked(c.id, c.userId, c.change, Get(db, c.id))]), 0, db);
    }
  }

  lemma ProceedKeepsInv(w: World, call: nat)
    requires Inv(w) && call in w.calls
    ensures Inv(Next(w, Proceed(call)))
  {
    hide EntryWitnessed, AnswerWitnessed, Invalidate, DistinctKeys;
    var db, c := Now(w).db, w.calls[call];
    LaterKeepsInv(w, 0, db);
    if c.Checked? {
      InvalidateKeepsDistinct(w.cache, c.id);
      InvalidateMembers(w.cache, c.id);
      if RowResult(c.row, c.userId).Found? {
        OwnerIsWitnessed(w, c);
        LaterKeepsInv(World(Invalidate(w.cache, c.id), w.calls[call := Writing(c.id, c.userId, c.change)], w.past,
                            w.answers), 0, db);
      } else {
        LaterKeepsInv(w.(calls := w.calls - {call}), 0, db);
      }
    }
  }

  lemma NextKeepsInv(w: World, a: Action)
    requires Inv(w)
    ensures Inv(Next(w, a))
  {
    hide EntryWitnessed, AnswerWitnessed, Fill, Invalidate, DistinctKeys;
    var db := Now(w).db;
    LaterKeepsInv(w, 0, db);
    match a
    case Tick(ms) => LaterKeepsInv(w, ms, db);
    case OtherWriter(db') => LaterKeepsInv(w, 0, db');
    case BeginLookup(call, id, userId) =>
      var hit := MapGet(w.cache, Key(userId, id));
      if call !in w.calls && ':' !in userId && hit.Some? && hit.value.expiresAt > Now(w).time {
        HitKeepsInv(w, hit.value, id, userId);
        var answer := Answer(id, userId, Found(hit.value.serialNumber), true, |w.past| - 1, |w.past| - 1);
        LaterKeepsInv(Answered(w, answer), 0, db);
      }
    case ReadRow(call) =>
      if call in w.calls { ReadRowKeepsInv(w, call); }
    case EndLookup(call) =>
      if call in w.calls && w.calls[call].Looked? {
        EndLookupKeepsInv(w, call);
      }
    case BeginChange(call, id, userId, change) =>
    case Proceed(call) =>
      if call in w.calls { ProceedKeepsInv(w, call); }
    case Commit(call, writeOk) =>
      if call in w.calls && w.calls[call].Writing? {
        var c := w.calls[call];
        LaterKeepsInv(w.(calls := w.calls - {call}), 0, if writeOk then Changed(db, c.id, c.change) else db);
      }
  }

  lemma {:induction false} PlayKeepsInv(db: map<string, Robot>, time: int, actions: seq<Action>)
    ensures Inv(Play(Start(db, time), actions))
  {
    if actions != [] {
      PlayKeepsInv(db, time, actions[..|actions| - 1]);
      NextKeepsInv(Play(Start(db, time), actions[..|actions| - 1]), actions[|actions| - 1]);
    }
  }

  lemma RecentOnForwardClock(past: seq<Snapshot>, a: Answer)
    requires TimesOrdered(past) && AnswerWitnessed(past, a)
    ensures AnswerRecent(past, a)
  {
    var b: nat, k: nat :| b <= k <= a.given && TrueAt(past, k, a.id, a.userId, a.result) && CountsFrom(past, a, b);
    assert past[b].time <= past[k].time <= past[a.given].time;
  }

  /** The clock of these actions never goes back. */
  predicate Forward(actions: seq<Action>) {
    forall i :: 0 <= i < |actions| && actions[i].Tick? ==> actions[i].ms >= 0
  }

  lemma NextKeepsOrder(w: World, a: Action)
    requires w.past != [] && TimesOrdered(w.past) && (a.Tick? ==> a.ms >= 0)
    ensures TimesOrdered(Next(w, a).past)
  {
    var w' := Next(w, a);
    hide MapGet, Fill, Invalidate, Key, RowResult, Changed;
    assert w'.past[..|w.past|] == w.past;
    assert w'.past[|w.past|].time >= Now(w).time;
  }

  lemma {:induction false} ForwardKeepsOrder(db: map<string, Robot>, time: int, actions: seq<Action>)
    requires Forward(actions)
    ensures TimesOrdered(Play(Start(db, time), actions).past)
  {
    if actions != [] {
      var n := |actions| - 1;
      ForwardKeepsOrder(db, time, actions[..n]);
      NextKeepsOrder(Play(Start(db, time), actions[..n]), actions[n]);
    }
  }

  /**
    Main result, over every interleaving: each miss was true during its call, and each hit since the
    clock read less than 60 s below its present reading; on a clock that does not go back that is
    less than 60 s before it was given. The cache never outgrows its bound.
  */
  lemma BoundedStaleness(db: map<string, Robot>, time: int, actions: seq<Action>)
    ensures var w := Play(Start(db, time), actions);
            && |w.cache| <= 256
            && (forall a :: a in w.answers ==> AnswerWitnessed(w.past, a))
            && (Forward(actions) ==> forall a :: a in w.answers ==> AnswerRecent(w.past, a))
  {
    PlayKeepsInv(db, time, actions);
    var w := Play(Start(db, time), actions);
    if Forward(actions) {
      ForwardKeepsOrder(db, time, actions);
      hide Play, AnswerWitnessed, AnswerRecent, TimesOrdered, Forward;
      forall a | a in w.answers ensures AnswerRecent(w.past, a) {
        RecentOnForwardClock(w.past, a);
      }
    }
  }

  lemma OnlyCommitsChangeRows(w: World, a: Action, id: string)
    requires w.past != [] && !a.OtherWriter? && Get(Now(Next(w, a)).db, id) != Get(Now(w).db, id)
    ensures a.Commit? && a.call in w.calls && w.calls[a.call].Writing? && w.calls[a.call].id == id
  {
    hide MapGet, Fill, Invalidate, Key, RowResult;
  }

  /**
    Main result, over every interleaving: outside writers aside, a robot's row changes only by the
    commit of a call whose user owned the robot at some instant before.
  */
  lemma OnlyOwnersChangeRows(db: map<string, Robot>, time: int, actions: seq<Action>, a: Action, id: string)
    requires !a.OtherWriter?
    ensures var w := Play(Start(db, time), actions);
            Get(Now(Next(w, a)).db, id) != Get(Now(w).db, id) ==>
              && a.Commit? && a.call in w.calls && w.calls[a.call].Writing? && w.calls[a.call].id == id
              && exists k: nat :: OwnedAt(w.past, k, id, w.calls[a.call].userId)
  {
    PlayKeepsInv(db, time, actions);
    var w := Play(Start(db, time), actions);
    hide Play, Next;
    if Get(Now(Next(w, a)).db, id) != Get(Now(w).db, id) {
      OnlyCommitsChangeRows(w, a, id);
      assert CallWitnessed(w.past, w.calls[a.call]);
    }
  }

  // ---------- Where exact agreement is lost ----------

  /** The owner's entry for the robot is cached, expired or not. */
  predicate Cached(cache: seq<Entry>, db: map<string, Robot>, id: string) {
    id in db && ':' !in db[id].userId && MapGet(cache, Key(db[id].userId, id)).Some?
  }

  /**
    What keeps cache and database in agreement, told before the step: a commit or an outside writer
    leaves alone the rows whose owner's entry is cached, and a lookup caches only a row that has not
    changed since the lookup read it. Every other action is harmless.
  */
  ghost predicate KeepsAgreement(w: World, a: Action)
    requires w.past != []
  {
    var db := Now(w).db;
    match a
    case OtherWriter(db') => forall id :: Cached(w.cache, db, id) ==> Get(db', id) == Get(db, id)
    case Commit(call, writeOk) =>
      call in w.calls && w.calls[call].Writing? && writeOk && Cached(w.cache, db, w.calls[call].id) ==>
        w.calls[call].change in {Rename(None), Rename(Some(db[w.calls[call].id].serialNumber))}
    case EndLookup(call) =>
      call in w.calls && w.calls[call].Looked? && RowResult(w.calls[call].row, w.calls[call].userId).Found? ==>
        Get(db, w.calls[call].id) == w.calls[call].row
    case _ => true
  }

  /** A write keeps the agreement iff it leaves alone the rows whose owner's entry is cached. */
  lemma WriteAgreesIff(cache: seq<Entry>, db: map<string, Robot>, db': map<string, Robot>)
    requires Agrees(cache, db)
    ensures Agrees(cache, db') <==> forall id :: Cached(cache, db, id) ==> Get(db', id) == Get(db, id)
  {
    if Agrees(cache, db') {
      forall id | Cached(cache, db, id) ensures Get(db', id) == Get(db, id) {
        var e := MapGet(cache, Key(db[id].userId, id)).value;
        HitIsExact(db, e, id, db[id].userId);
        HitIsExact(db', e, id, db[id].userId);
      }
    }
    if forall id :: Cached(cache, db, id) ==> Get(db', id) == Get(db, id) {
      forall e | e in cache ensures EntryAgrees(db', e) {
        var u, r :| ':' !in u && e.key == Key(u, r) && Uncached(db, r, u) == Found(e.serialNumber);
        assert Cached(cache, db, r);
        assert Uncached(db', r, u) == Found(e.serialNumber);
      }
    }
  }

  lemma CommitAgreesIff(w: World, call: nat, writeOk: bool)
    requires w.past != [] && Agrees(w.cache, Now(w).db)
    ensures var w' := Next(w, Commit(call, writeOk));
            Agrees(w'.cache, Now(w').db) <==> KeepsAgreement(w, Commit(call, writeOk))
  {
    if call in w.calls && w.calls[call].Writing? && writeOk {
      var db, c := Now(w).db, w.calls[call];
      var db' := Changed(db, c.id, c.change);
      WriteAgreesIff(w.cache, db, db');
      assert forall id :: id != c.id ==> Get(db', id) == Get(db, id);
      hide Agrees, Cached;
    }
  }

  lemma EndLookupAgreesIff(w: World, call: nat)
    requires w.past != [] && Agrees(w.cache, Now(w).db)
    requires call in w.calls ==> CallWitnessed(w.past, w.calls[call])
    ensures var w' := Next(w, EndLookup(call));
            Agrees(w'.cache, Now(w').db) <==> KeepsAgreement(w, EndLookup(call))
  {
    hide Fill, Agrees;
    if call in w.calls && w.calls[call].Looked? {
      var c := w.calls[call];
      var result := RowResult(c.row, c.userId);
      if result.Found? {
        FillAgreesIff(w.cache, Now(w).db, c.id, c.userId, result.serialNumber, c.now);
      }
    }
  }

  lemma FillAgreesIff(cache: seq<Entry>, db: map<string, Robot>, id: string, userId: string, serialNumber: string,
                      now: int)
    requires Agrees(cache, db) && ':' !in userId
    ensures Agrees(Fill(cache, Key(userId, id), serialNumber, now), db) <==>
            Get(db, id) == Some(Robot(userId, serialNumber))
  {
    var entry := Entry(Key(userId, id), serialNumber, now + OWNERSHIP_TTL_MS);
    var filled := Fill(cache, Key(userId, id), serialNumber, now);
    FillMembers(cache, Key(userId, id), serialNumber, now);
    hide Fill;
    if Agrees(filled, db) {
      HitIsExact(db, entry, id, userId);
    }
    if Get(db, id) == Some(Robot(userId, serialNumber)) {
      assert Uncached(db, id, userId) == Found(serialNumber);
      assert EntryAgrees(db, entry);
      forall e | e in filled ensures EntryAgrees(db, e) {
        assert e == entry || e in cache;
      }
    }
  }

  lemma OthersAgree(w: World, a: Action)
    requires w.past != [] && Agrees(w.cache, Now(w).db)
    requires !a.Commit? && !a.EndLookup? && !a.OtherWriter?
    ensures Agrees(Next(w, a).cache, Now(Next(w, a)).db)
  {
    hide EntryAgrees;
    if a.Proceed? && a.call in w.calls {
      var c := w.calls[a.call];
      if c.Checked? { InvalidateMembers(w.cache, c.id); }
    }
    hide Invalidate, MapGet, RowResult;
  }

  /** Exactly the steps at which cache and database part. */
  lemma NextKeepsAgreementIff(w: World, a: Action)
    requires Inv(w) && Agrees(w.cache, Now(w).db)
    ensures Agrees(Next(w, a).cache, Now(Next(w, a)).db) <==> KeepsAgreement(w, a)
  {
    if a.Commit? {
      CommitAgreesIff(w, a.call, a.writeOk);
    } else if a.EndLookup? {
      EndLookupAgreesIff(w, a.call);
    } else if a.OtherWriter? {
      WriteAgreesIff(w.cache, Now(w).db, a.db);
    } else {
      OthersAgree(w, a);
    }
  }

  ghost predicate AgreesAfter(w: World, actions: seq<Action>)
    requires w.past != []
  {
    var w' := Play(w, actions);
    Agrees(w'.cache, Now(w').db)
  }

  ghost predicate AgreesThroughout(w: World, actions: seq<Action>)
    requires w.past != []
  {
    forall k :: 0 <= k <= |actions| ==> AgreesAfter(w, actions[..k])
  }

  ghost predicate EveryStepKeepsAgreement(w: World, actions: seq<Action>)
    requires w.past != []
  {
    forall k :: 0 <= k < |actions| ==> KeepsAgreement(Play(w, actions[..k]), actions[k])
  }

  lemma AgreesOneLonger(w: World, front: seq<Action>, a: Action)
    requires w.past != []
    ensures AgreesThroughout(w, front + [a]) <==> AgreesThroughout(w, front) && AgreesAfter(w, front + [a])
  {
    hide AgreesAfter, Play;
    var all := front + [a];
    assert all[..|all|] == all;
    forall k | 0 <= k <= |front| ensures AgreesAfter(w, all[..k]) <==> AgreesAfter(w, front[..k]) {
      assert all[..k] == front[..k];
    }
  }

  lemma KeepsOneLonger(w: World, front: seq<Action>, a: Action)
    requires w.past != []
    ensures EveryStepKeepsAgreement(w, front + [a]) <==>
            EveryStepKeepsAgreement(w, front) && KeepsAgreement(Play(w, front), a)
  {
    hide KeepsAgreement, Play;
    var all := front + [a];
    assert all[..|front|] == front && all[|front|] == a;
    forall k | 0 <= k < |front|
      ensures KeepsAgreement(Play(w, all[..k]), all[k]) <==> KeepsAgreement(Play(w, front[..k]), front[k])
    {
      assert all[..k] == front[..k];
    }
  }

  /** Main result: cache and database agree at every state of a run iff every step of it keeps them so. */
  lemma {:induction false} AgreementHoldsIff(db: map<string, Robot>, time: int, actions: seq<Action>)
    ensures AgreesThroughout(Start(db, time), actions) <==> EveryStepKeepsAgreement(Start(db, time), actions)
  {
    var w := Start(db, time);
    if actions == [] {
      assert AgreesAfter(w, []);
    } else {
      var front, a := actions[..|actions| - 1], actions[|actions| - 1];
      assert actions == front + [a];
      AgreementHoldsIff(db, time, front);
      AgreesOneLonger(w, front, a);
      KeepsOneLonger(w, front, a);
      PlayKeepsInv(db, time, front);
      assert AgreesThroughout(w, front) ==> AgreesAfter(w, front) by {
        hide AgreesAfter;
        assert front[..|front|] == front;
      }
      hide Next, Inv, KeepsAgreement, Agrees, AgreesThroughout, EveryStepKeepsAgreement;
      if AgreesAfter(w, front) {
        NextKeepsAgreementIff(Play(w, front), a);
      }
    }
  }

  /** While they agree, a hit answers what the database says now. */
  lemma AgreeingHitIsCurrent(w: World, call: nat, id: string, userId: string)
    requires w.past != [] && Agrees(w.cache, Now(w).db)
    ensures forall a :: a in Next(w, BeginLookup(call, id, userId)).answers ==>
              a in w.answers || a.result == Uncached(Now(w).db, id, userId)
  {
    var hit := MapGet(w.cache, Key(userId, id));
    if ':' !in userId && hit.Some? {
      HitIsExact(Now(w).db, hit.value, id, userId);
    }
  }

  /** The change takes the serial away from the robot: a rename to another one, or a removal. */
  predicate TakesSerial(change: Change, serialNumber: string) {
    change.Delete? || (change.serialNumber.Some? && change.serialNumber.value != serialNumber)
  }

  /** A lookup holds the row it read, and a change of the same robot has invalidated but not yet written. */
  ghost predicate ChangeOverlapsLookup(w: World, lookup: nat, writer: nat, id: string, userId: string, change: Change)
  {
    && w.past != [] && lookup in w.calls && writer in w.calls && lookup != writer
    && id in Now(w).db && ':' !in userId && Now(w).db[id].userId == userId
    && TakesSerial(change, Now(w).db[id].serialNumber)
    && w.calls[lookup].Looked? && w.calls[lookup].id == id && w.calls[lookup].userId == userId
    && w.calls[lookup].row == Some(Now(w).db[id])
    && w.calls[writer] == Writing(id, userId, change)
    && Now(w).time < w.calls[lookup].now + OWNERSHIP_TTL_MS
  }

  lemma EndLookupEffect(w: World, lookup: nat)
    requires w.past != [] && lookup in w.calls && w.calls[lookup].Looked?
    requires RowResult(w.calls[lookup].row, w.calls[lookup].userId).Found?
    ensures var c, w1 := w.calls[lookup], Next(w, EndLookup(lookup));
            && w1.cache == Fill(w.cache, Key(c.userId, c.id), c.row.value.serialNumber, c.now)
            && w1.calls == w.calls - {lookup} && Now(w1) == Now(w)
  {
    hide Fill, Key;
  }

  lemma LookupCachesWhatItRead(w: World, lookup: nat)
    requires w.past != [] && lookup in w.calls && w.calls[lookup].Looked?
    requires DistinctKeys(w.cache) && |w.cache| <= OWNERSHIP_MAX_ENTRIES
    requires RowResult(w.calls[lookup].row, w.calls[lookup].userId).Found?
    ensures var c, w1 := w.calls[lookup], Next(w, EndLookup(lookup));
            var key := Key(c.userId, c.id);
            && MapGet(w1.cache, key) == Some(Entry(key, c.row.value.serialNumber, c.now + OWNERSHIP_TTL_MS))
            && w1.calls == w.calls - {lookup} && Now(w1) == Now(w)
  {
    hide Next, Fill, MapGet, DistinctKeys, Key;
    var c := w.calls[lookup];
    EndLookupEffect(w, lookup);
    FillHoldsEntry(w.cache, Key(c.userId, c.id), c.row.value.serialNumber, c.now);
  }

  lemma ChangeCommits(w: World, writer: nat, id: string, userId: string, change: Change)
    requires w.past != [] && writer in w.calls && w.calls[writer] == Writing(id, userId, change)
    ensures var w2 := Next(w, Commit(writer, true));
            && w2.cache == w.cache && w2.calls == w.calls - {writer}
            && Now(w2) == Snapshot(Now(w).time, Changed(Now(w).db, id, change))
  {
  }

  /**
    Then the lookup caches the row after its invalidation, and the next one is served the old
    serial, of a robot that has another one or is gone.
  */
  lemma OverlapGivesStaleHit(w: World, lookup: nat, writer: nat, id: string, userId: string, change: Change, next: nat)
    requires ChangeOverlapsLookup(w, lookup, writer, id, userId, change)
    requires next !in w.calls && DistinctKeys(w.cache) && |w.cache| <= OWNERSHIP_MAX_ENTRIES
    ensures var w2 := Next(Next(w, EndLookup(lookup)), Commit(writer, true));
            && Uncached(Now(w2).db, id, userId) ==
               (if change.Delete? then NotFound else Found(change.serialNumber.value))
            && !Agrees(w2.cache, Now(w2).db)
            && Next(w2, BeginLookup(next, id, userId)).answers == w2.answers +
               [Answer(id, userId, Found(Now(w).db[id].serialNumber), true, |w2.past| - 1, |w2.past| - 1)]
  {
    hide Fill, Next, MapGet, DistinctKeys, EntryAgrees;
    LookupCachesWhatItRead(w, lookup);
    var w1 := Next(w, EndLookup(lookup));
    ChangeCommits(w1, writer, id, userId, change);
    var w2 := Next(w1, Commit(writer, true));
    HitIsAnswered(w2, next, id, userId);
    var entry := MapGet(w2.cache, Key(userId, id)).value;
    if EntryAgrees(Now(w2).db, entry) {
      HitIsExact(Now(w2).db, entry, id, userId);
    }
  }

  lemma HitIsAnswered(w: World, call: nat, id: string, userId: string)
    requires w.past != [] && call !in w.calls && ':' !in userId
    requires MapGet(w.cache, Key(userId, id)).Some? && MapGet(w.cache, Key(userId, id)).value.expiresAt > Now(w).time
    ensures var serialNumber := MapGet(w.cache, Key(userId, id)).value.serialNumber;
            Next(w, BeginLookup(call, id, userId)).answers == w.answers +
            [Answer(id, userId, Found(serialNumber), true, |w.past| - 1, |w.past| - 1)]
  {
  }

  lemma PlayOneMore(w: World, actions: seq<Action>, a: Action)
    requires w.past != []
    ensures Play(w, actions + [a]) == Next(Play(w, actions), a)
  {
    assert (actions + [a])[..|actions|] == actions;
  }

  lemma PlayThreeMore(w: World, actions: seq<Action>, a: Action, b: Action, c: Action)
    requires w.past != []
    ensures Play(w, actions + [a, b, c]) == Next(Next(Next(Play(w, actions), a), b), c)
  {
    hide Next, Play;
    PlayOneMore(w, actions, a);
    PlayOneMore(w, actions + [a], b);
    PlayOneMore(w, actions + [a] + [b], c);
    assert actions + [a] + [b] + [c] == actions + [a, b, c];
  }

  /** A lookup that misses, up to its read. */
  lemma MissReads(w: World, call: nat, id: string, userId: string)
    requires w.past != [] && call !in w.calls && ':' !in userId && MapGet(w.cache, Key(userId, id)).None?
    ensures var w2 := Next(Next(w, BeginLookup(call, id, userId)), ReadRow(call));
            && w2.cache == w.cache && Now(w2) == Now(w) && w2.answers == w.answers
            && w2.calls == w.calls[call := Looked(id, userId, Now(w).time, |w.past| - 1, Get(Now(w).db, id))]
  {
    hide Key, MapGet;
  }

  /** A change by the owner, up to its write. */
  lemma ChangeInvalidates(w: World, call: nat, id: string, userId: string, change: Change)
    requires w.past != [] && call !in w.calls && Uncached(Now(w).db, id, userId).Found?
    ensures var w3 := Next(Next(Next(w, BeginChange(call, id, userId, change)), ReadRow(call)), Proceed(call));
            && Now(w3) == Now(w) && w3.calls == w.calls[call := Writing(id, userId, change)]
            && w3.cache == Invalidate(w.cache, id)
  {
    hide Invalidate;
  }

  /** Main result: a change that no other action interrupts takes effect and keeps cache and database in agreement. */
  lemma UndisturbedChangeAgrees(w: World, call: nat, id: string, userId: string, change: Change)
    requires w.past != [] && call !in w.calls && Uncached(Now(w).db, id, userId).Found?
    requires Agrees(w.cache, Now(w).db)
    ensures var w3 := Next(Next(Next(w, BeginChange(call, id, userId, change)), ReadRow(call)), Proceed(call));
            var w4 := Next(w3, Commit(call, true));
            && Agrees(w4.cache, Now(w4).db) && w4.calls == w.calls
            && (forall other :: other != id ==> Get(Now(w4).db, other) == Get(Now(w).db, other))
            && Get(Now(w4).db, id) == (match change
                                       case Delete => None
                                       case Rename(None) => Get(Now(w).db, id)
                                       case Rename(Some(serialNumber)) => Some(Robot(userId, serialNumber)))
  {
    ChangeInvalidates(w, call, id, userId, change);
    var w3 := Next(Next(Next(w, BeginChange(call, id, userId, change)), ReadRow(call)), Proceed(call));
    hide Next, Invalidate, Agrees;
    ChangeCommits(w3, call, id, userId, change);
    InvalidatedRowMayChange(w.cache, Now(w).db, Changed(Now(w).db, id, change), id);
    assert w3.calls - {call} == w.calls;
  }

  /** The overlap is reachable: the lookup reads, then the change reads and invalidates. */
  lemma OverlapIsReachable(id: string, userId: string, before: string, change: Change, time: int)
    requires ':' !in userId && TakesSerial(change, before)
    ensures ChangeOverlapsLookup(Play(Start(map[id := Robot(userId, before)], time),
                                      [BeginLookup(0, id, userId), ReadRow(0),
                                       BeginChange(1, id, userId, change), ReadRow(1), Proceed(1)]),
                                 0, 1, id, userId, change)
  {
    var w0 := Start(map[id := Robot(userId, before)], time);
    var as2 := [BeginLookup(0, id, userId), ReadRow(0)];
    assert MapGet(w0.cache, Key(userId, id)).None?;
    hide Next, Play, MapGet, Key, TakesSerial;
    MissReads(w0, 0, id, userId);
    PlayOneMore(w0, [], BeginLookup(0, id, userId));
    PlayOneMore(w0, [BeginLookup(0, id, userId)], ReadRow(0));
    assert [] + [BeginLookup(0, id, userId)] + [ReadRow(0)] == as2;
    assert Play(w0, []) == w0 by { PlayNothing(w0); }
    ChangeInvalidates(Play(w0, as2), 1, id, userId, change);
    PlayThreeMore(w0, as2, BeginChange(1, id, userId, change), ReadRow(1), Proceed(1));
    assert as2 + [BeginChange(1, id, userId, change), ReadRow(1), Proceed(1)] ==
           [BeginLookup(0, id, userId), ReadRow(0), BeginChange(1, id, userId, change), ReadRow(1), Proceed(1)];
  }

  lemma PlayNothing(w: World)
    requires w.past != []
    ensures Play(w, []) == w
  {
  }

  // ---------- Lifetime ----------

  lemma HitOrMiss(w: World, call: nat, id: string, userId: string, entry: Entry)
    requires w.past != [] && call !in w.calls && ':' !in userId
    requires MapGet(w.cache, Key(userId, id)) == Some(entry)
    ensures var w' := Next(w, BeginLookup(call, id, userId));
            && w'.answers == w.answers +
               (if Now(w).time < entry.expiresAt
                then [Answer(id, userId, Found(entry.serialNumber), true, |w.past| - 1, |w.past| - 1)] else [])
            && (call in w'.calls <==> entry.expiresAt <= Now(w).time)
  {
    hide MapGet, Key;
  }

  /**
    Main result: an entry answers for exactly 60 s from the begin of the lookup that stored it: a
    lookup of the same robot ms later is answered from the cache iff ms is below 60 000, and goes
    to the database otherwise.
  */
  lemma LifetimeIsExact(w: World, call: nat, id: string, userId: string, ms: int)
    requires Inv(w) && call !in w.calls && ':' !in userId && MapGet(w.cache, Key(userId, id)).None?
    requires id in Now(w).db && Now(w).db[id].userId == userId
    ensures var w3 := Next(Next(Next(w, BeginLookup(call, id, userId)), ReadRow(call)), EndLookup(call));
            var w4 := Next(w3, Tick(ms));
            var w5 := Next(w4, BeginLookup(call, id, userId));
            && (w5.answers != w4.answers <==> ms < 60_000) && (call in w5.calls <==> ms >= 60_000)
  {
    MissReads(w, call, id, userId);
    var w2 := Next(Next(w, BeginLookup(call, id, userId)), ReadRow(call));
    assert DistinctKeys(w.cache) && |w.cache| <= OWNERSHIP_MAX_ENTRIES && call in w2.calls;
    hide Inv, Key, MapGet, DistinctKeys;
    assert w2.calls[call].row == Some(Now(w).db[id]);
    LookupCachesWhatItRead(w2, call);
    var w3 := Next(w2, EndLookup(call));
    var w4 := Next(w3, Tick(ms));
    assert w4.cache == w3.cache && w4.calls == w3.calls && Now(w4).time == Now(w3).time + ms by { TickOnly(w3, ms); }
    hide Next;
    HitOrMiss(w4, call, id, userId, MapGet(w4.cache, Key(userId, id)).value);
  }

  lemma TickOnly(w: World, ms: int)
    requires w.past != []
    ensures var w' := Next(w, Tick(ms));
            w'.cache == w.cache && w'.calls == w.calls && Now(w') == Snapshot(Now(w).time + ms, Now(w).db)
  {
  }

  // ---------- First in, first out ----------

  /** A lookup may be answered by the oldest entry, and the next insertion evicts that entry all the same. */
  lemma UseDoesNotProtect(w: World, reader: nat, id: string, userId: string, filler: nat)
    requires Inv(w) && |w.cache| == OWNERSHIP_MAX_ENTRIES
    requires reader !in w.calls && filler in w.calls && w.calls[filler].Looked?
    requires ':' !in userId && w.cache[0].key == Key(userId, id) && w.cache[0].expiresAt > Now(w).time
    requires var c := w.calls[filler];
             RowResult(c.row, c.userId).Found? && MapGet(w.cache, Key(c.userId, c.id)).None?
    ensures var w1 := Next(w, BeginLookup(reader, id, userId));
            var w2 := Next(w1, EndLookup(filler));
            && w1.answers == w.answers +
               [Answer(id, userId, Found(w.cache[0].serialNumber), true, |w.past| - 1, |w.past| - 1)]
            && w.cache[0] !in w2.cache && w.cache[1] in w2.cache
  {
    var c, w1 := w.calls[filler], Next(w, BeginLookup(reader, id, userId));
    var x := Insertion(Key(c.userId, c.id), RowResult(c.row, c.userId).serialNumber, c.now);
    assert DistinctKeys(w.cache) && w.past != [];
    hide Inv, Next, Key, MapGet, Fill;
    OnlyEntryUnderKey(w.cache, w.cache[0]);
    HitLeavesCache(w, reader, id, userId);
    HitIsAnswered(w, reader, id, userId);
    EndLookupEffect(w1, filler);
    assert forall e :: e in w.cache ==> e.key != x.key;
    FillNewKey(w.cache, x);
    FirstIsEvicted(w.cache, x);
    hide *;
    EvictedFirst(w.cache);
  }

  lemma EvictedFirst(cache: seq<Entry>)
    requires |cache| == OWNERSHIP_MAX_ENTRIES
    ensures Evict(cache)[0] == cache[1]
  {
  }

  lemma HitLeavesCache(w: World, call: nat, id: string, userId: string)
    requires w.past != [] && call !in w.calls && ':' !in userId
    requires MapGet(w.cache, Key(userId, id)).Some?
    requires MapGet(w.cache, Key(userId, id)).value.expiresAt > Now(w).time
    ensures var w' := Next(w, BeginLookup(call, id, userId));
            w'.cache == w.cache && w'.calls == w.calls && Now(w') == Now(w)
  {
  }
  /** Robot ids of every length, all distinct. */
  function Name(n: nat): string {
    seq(n, i => 'r')
  }

  /** A user with 257 robots. */
  function ManyRobots(userId: string): map<string, Robot> {
    map id | id in NamesBelow(OWNERSHIP_MAX_ENTRIES + 1) :: Robot(userId, id)
  }

  function NamesBelow(n: nat): (s: set<string>)
    ensures forall k :: 0 <= k < n ==> Name(k) in s
  {
    if n == 0 then {} else NamesBelow(n - 1) + {Name(n - 1)}
  }

  /** One lookup of each of the first n robots, one after another. */
  function LookUpEach(userId: string, n: nat): seq<Action> {
    if n == 0 then [] else LookUpEach(userId, n - 1) + [BeginLookup(0, Name(n - 1), userId), ReadRow(0), EndLookup(0)]
  }

  function EntryFor(userId: string, time: int, k: nat): Entry {
    Entry(Key(userId, Name(k)), Name(k), time + OWNERSHIP_TTL_MS)
  }

  /** Idle, at the given time, with exactly the first n robots cached. */
  ghost predicate HoldsFirst(w: World, userId: string, time: int, n: nat) {
    && w.past != [] && Now(w) == Snapshot(time, ManyRobots(userId)) && w.calls == map[]
    && |w.cache| == n && forall k :: 0 <= k < n ==> w.cache[k] == EntryFor(userId, time, k)
  }

  lemma NotYetCached(w: World, userId: string, time: int, n: nat)
    requires HoldsFirst(w, userId, time, n) && ':' !in userId
    ensures MapGet(w.cache, Key(userId, Name(n))).None?
  {
    forall k | 0 <= k < n ensures w.cache[k].key != Key(userId, Name(n)) {
      assert |Name(k)| == k && |Name(n)| == n;
      if Key(userId, Name(k)) == Key(userId, Name(n)) {
        KeyIsInjective(userId, Name(k), userId, Name(n));
      }
    }
  }

  lemma OneMoreHeld(w: World, w': World, userId: string, time: int, n: nat)
    requires HoldsFirst(w, userId, time, n)
    requires w'.past != [] && Now(w') == Now(w) && w'.calls == map[]
    requires w'.cache == w.cache + [EntryFor(userId, time, n)]
    ensures HoldsFirst(w', userId, time, n + 1)
  {
    hide ManyRobots, EntryFor;
  }

  lemma HasRobot(userId: string, n: nat)
    requires n <= OWNERSHIP_MAX_ENTRIES
    ensures Get(ManyRobots(userId), Name(n)) == Some(Robot(userId, Name(n)))
  {
    assert Name(n) in NamesBelow(OWNERSHIP_MAX_ENTRIES + 1);
  }

  /** A lookup that misses and finds its row stores it last. */
  lemma MissStores(w: World, call: nat, id: string, userId: string, serialNumber: string)
    requires w.past != [] && call !in w.calls && ':' !in userId && MapGet(w.cache, Key(userId, id)).None?
    requires Get(Now(w).db, id) == Some(Robot(userId, serialNumber))
    ensures var w3 := Next(Next(Next(w, BeginLookup(call, id, userId)), ReadRow(call)), EndLookup(call));
            && w3.past != [] && Now(w3) == Now(w) && w3.calls == w.calls
            && w3.cache == Evict(w.cache) + [Entry(Key(userId, id), serialNumber, Now(w).time + OWNERSHIP_TTL_MS)]
  {
    var x := Insertion(Key(userId, id), serialNumber, Now(w).time);
    assert forall e :: e in w.cache ==> e.key != x.key;
    hide Next, Fill, Key, MapGet, Evict;
    MissReads(w, call, id, userId);
    EndLookupEffect(Next(Next(w, BeginLookup(call, id, userId)), ReadRow(call)), call);
    FillNewKey(w.cache, x);
  }

  lemma LookupFills(w: World, userId: string, time: int, n: nat)
    requires HoldsFirst(w, userId, time, n) && ':' !in userId && n < OWNERSHIP_MAX_ENTRIES
    ensures var w2 := Next(Next(w, BeginLookup(0, Name(n), userId)), ReadRow(0));
            HoldsFirst(Next(w2, EndLookup(0)), userId, time, n + 1)
  {
    NotYetCached(w, userId, time, n);
    HasRobot(userId, n);
    assert w.past != [] && Now(w) == Snapshot(time, ManyRobots(userId)) && w.calls == map[];
    assert Evict(w.cache) == w.cache;
    hide Next, Key, MapGet, ManyRobots, Name, HoldsFirst, Evict;
    MissStores(w, 0, Name(n), userId, Name(n));
    OneMoreHeld(w, Next(Next(Next(w, BeginLookup(0, Name(n), userId)), ReadRow(0)), EndLookup(0)), userId, time, n);
  }

  lemma {:induction false} LookupsFillCache(userId: string, time: int, n: nat)
    requires ':' !in userId && n <= OWNERSHIP_MAX_ENTRIES
    ensures HoldsFirst(Play(Start(ManyRobots(userId), time), LookUpEach(userId, n)), userId, time, n)
  {
    if n > 0 {
      var w0, before := Start(ManyRobots(userId), time), LookUpEach(userId, n - 1);
      LookupsFillCache(userId, time, n - 1);
      var w := Play(w0, before);
      LookupFills(w, userId, time, n - 1);
      hide HoldsFirst, Next, ManyRobots, Play, Name;
      PlayThreeMore(w0, before, BeginLookup(0, Name(n - 1), userId), ReadRow(0), EndLookup(0));
    }
  }

  /**
    A run from an empty cache: 256 robots are looked up, a 257th is read, the first is used again,
    and when the 257th is stored it is the first that goes.
  */
  lemma UsedEntryIsEvicted(userId: string, time: int)
    requires ':' !in userId
    ensures var w := Play(Start(ManyRobots(userId), time), LookUpEach(userId, OWNERSHIP_MAX_ENTRIES) +
                          [BeginLookup(1, Name(OWNERSHIP_MAX_ENTRIES), userId)] + [ReadRow(1)]);
            var w1 := Next(w, BeginLookup(0, Name(0), userId));
            var w2 := Next(w1, EndLookup(1));
            && w1.answers == w.answers + [Answer(Name(0), userId, Found(Name(0)), true, |w.past| - 1, |w.past| - 1)]
            && EntryFor(userId, time, 0) in w.cache && EntryFor(userId, time, 0) !in w2.cache
            && EntryFor(userId, time, 1) in w2.cache
  {
    var n := OWNERSHIP_MAX_ENTRIES;
    var w0, fills := Start(ManyRobots(userId), time), LookUpEach(userId, n);
    var begin := BeginLookup(1, Name(n), userId);
    LookupsFillCache(userId, time, n);
    var full := Play(w0, fills);
    NotYetCached(full, userId, time, n);
    MissReads(full, 1, Name(n), userId);
    HasRobot(userId, n);
    PlayOneMore(w0, fills, begin);
    PlayOneMore(w0, fills + [begin], ReadRow(1));
    PlayKeepsInv(ManyRobots(userId), time, fills + [begin] + [ReadRow(1)]);
    hide Next, Play, ManyRobots, NamesBelow, MapGet, Inv, LookUpEach, Name;
    UseDoesNotProtect(Play(w0, fills + [begin] + [ReadRow(1)]), 0, Name(0), userId, 1);
  }
}
