/**
  The ownership cache on the joystick path, src/modules/robot/robot.service.ts: composed string
  keys, a 60 s lifetime, first-in-first-out eviction at 256 entries, and invalidation by key suffix.
  Operations here run one at a time; OwnershipRace.dfy splits them at their awaits.
*/
module OwnershipCache {
  import opened Common

  const OWNERSHIP_TTL_MS := 60_000
  const OWNERSHIP_MAX_ENTRIES := 256

  datatype Robot = Robot(userId: string, serialNumber: string)

  /** One entry of the insertion-ordered Map. */
  datatype Entry = Entry(key: string, serialNumber: string, expiresAt: int)

  datatype Lookup = Found(serialNumber: string) | NotFound | Forbidden

  // ---------- Keys ----------

  function Key(userId: string, robotId: string): string {
    userId + ":" + robotId
  }

  predicate EndsWith(s: string, tail: string) {
    |tail| <= |s| && s[|s| - |tail|..] == tail
  }

  /** The first colon of a key ends the user id, so the key determines both ids. */
  lemma KeyIsInjective(u1: string, r1: string, u2: string, r2: string)
    requires ':' !in u1 && ':' !in u2
    requires Key(u1, r1) == Key(u2, r2)
    ensures u1 == u2 && r1 == r2
  {
    var k1, k2 := Key(u1, r1), Key(u2, r2);
    assert k1[|u1|] == ':' && k2[|u2|] == ':';
    assert forall i :: 0 <= i < |u1| ==> k1[i] == u1[i];
    assert forall i :: 0 <= i < |u2| ==> k2[i] == u2[i];
    assert k1[..|u1|] == u1 && k2[..|u2|] == u2;
    assert k1[|u1| + 1..] == r1 && k2[|u2| + 1..] == r2;
  }

  /** What the suffix test of the invalidation loop matches. */
  lemma SuffixMatchesExactly(userId: string, robotId: string, wanted: string)
    requires ':' !in userId
    ensures EndsWith(Key(userId, robotId), ":" + wanted) <==>
            robotId == wanted || EndsWith(robotId, ":" + wanted)
  {
    var key, tail := Key(userId, robotId), ":" + wanted;
    if |tail| <= |key| {
      var cut := |key| - |tail|;
      assert key[cut..][0] == key[cut] && tail[0] == ':';
      if cut < |userId| {
        assert key[cut] == userId[cut];
      } else if cut == |userId| {
        assert key[cut..] == ":" + robotId;
        assert key[cut..][1..] == robotId && tail[1..] == wanted;
      } else {
        assert key[cut..] == robotId[cut - |userId| - 1..];
      }
    }
  }

  lemma ColonFreeTail(s: string, wanted: string)
    requires ':' !in s
    ensures !EndsWith(s, ":" + wanted)
  {
    var tail := ":" + wanted;
    assert tail[0] == ':';
    assert |tail| <= |s| ==> s[|s| - |tail|..][0] == s[|s| - |tail|];
  }

  // ---------- The insertion-ordered Map ----------

  ghost predicate DistinctKeys(cache: seq<Entry>) {
    forall i, j :: 0 <= i < j < |cache| ==> cache[i].key != cache[j].key
  }

  function MapGet(cache: seq<Entry>, key: string): (r: Option<Entry>)
    ensures r.Some? ==> r.value in cache && r.value.key == key
    ensures r.None? ==> forall e :: e in cache ==> e.key != key
  {
    if cache == [] then None
    else if cache[0].key == key then Some(cache[0])
    else MapGet(cache[1..], key)
  }

  /** An existing key keeps its place, a new one goes last. */
  function MapSet(cache: seq<Entry>, entry: Entry): seq<Entry> {
    if cache == [] then [entry]
    else if cache[0].key == entry.key then [entry] + cache[1..]
    else [cache[0]] + MapSet(cache[1..], entry)
  }

  lemma {:induction false} MapSetPlaces(cache: seq<Entry>, entry: Entry)
    ensures MapGet(cache, entry.key).None? ==> MapSet(cache, entry) == cache + [entry]
    ensures MapGet(cache, entry.key).Some? ==> |MapSet(cache, entry)| == |cache|
    ensures |cache| <= |MapSet(cache, entry)|
    ensures forall i :: 0 <= i < |cache| ==>
              MapSet(cache, entry)[i] == cache[i] || (cache[i].key == entry.key && MapSet(cache, entry)[i] == entry)
    ensures entry in MapSet(cache, entry)
  {
    if cache != [] && cache[0].key != entry.key {
      MapSetPlaces(cache[1..], entry);
      var rest := MapSet(cache[1..], entry);
      assert MapSet(cache, entry) == [cache[0]] + rest;
      assert forall i :: 0 < i < |cache| ==> ([cache[0]] + rest)[i] == rest[i - 1] && cache[i] == cache[1..][i - 1];
      assert entry in rest;
    }
  }

  function Evict(cache: seq<Entry>): seq<Entry> {
    if |cache| >= OWNERSHIP_MAX_ENTRIES then cache[1..] else cache
  }

  /** What a successful lookup, begun at time now, leaves in the cache. */
  function Fill(cache: seq<Entry>, key: string, serialNumber: string, now: int): seq<Entry> {
    MapSet(Evict(cache), Entry(key, serialNumber, now + OWNERSHIP_TTL_MS))
  }

  /** The survivors of an invalidation, in order. */
  function Invalidate(cache: seq<Entry>, robotId: string): (r: seq<Entry>)
    ensures |r| <= |cache|
  {
    if cache == [] then []
    else
      var front, last := Invalidate(cache[..|cache| - 1], robotId), cache[|cache| - 1];
      if EndsWith(last.key, ":" + robotId) then front else front + [last]
  }

  /**
    Main result: for colon-free ids an invalidation drops exactly the entries of that robot and
    keeps the others in their order.
  */
  lemma {:induction false} InvalidationIsExact(cache: seq<Entry>, users: seq<string>, robots: seq<string>,
                                               wanted: string, others: seq<bool>)
    requires |users| == |robots| == |others| == |cache|
    requires forall i :: 0 <= i < |cache| ==> cache[i].key == Key(users[i], robots[i])
    requires forall i :: 0 <= i < |cache| ==> ':' !in users[i] && ':' !in robots[i]
    requires forall i :: 0 <= i < |cache| ==> others[i] == (robots[i] != wanted)
    ensures Invalidate(cache, wanted) == Pick(cache, others)
  {
    if cache != [] {
      var n := |cache| - 1;
      SuffixMatchesExactly(users[n], robots[n], wanted);
      ColonFreeTail(robots[n], wanted);
      hide Key, EndsWith;
      InvalidationIsExact(cache[..n], users[..n], robots[..n], wanted, others[..n]);
    }
  }

  lemma {:induction false} InvalidateMembers(cache: seq<Entry>, robotId: string)
    ensures forall e :: e in Invalidate(cache, robotId) <==> e in cache && !EndsWith(e.key, ":" + robotId)
  {
    if cache != [] {
      var n := |cache| - 1;
      InvalidateMembers(cache[..n], robotId);
      assert cache == cache[..n] + [cache[n]];
    }
  }

  /** The loop of the invalidation, one key further. */
  lemma OneKeyVisited(cache: seq<Entry>, seen: nat, kept: seq<Entry>, robotId: string)
    requires seen < |cache| && kept == Invalidate(cache[..seen], robotId)
    ensures (kept + cache[seen..])[|kept|] == cache[seen]
    ensures (kept + cache[seen..])[..|kept|] + (kept + cache[seen..])[|kept| + 1..] == kept + cache[seen + 1..]
    ensures kept + cache[seen..] == kept + [cache[seen]] + cache[seen + 1..]
    ensures Invalidate(cache[..seen + 1], robotId) ==
            if EndsWith(cache[seen].key, ":" + robotId) then kept else kept + [cache[seen]]
  {
    var upTo := cache[..seen + 1];
    assert upTo[..seen] == cache[..seen] && upTo[seen] == cache[seen];
    assert Invalidate(upTo, robotId) == if EndsWith(cache[seen].key, ":" + robotId) then kept else kept + [cache[seen]];
    hide Invalidate, EndsWith;
    assert cache[seen..] == [cache[seen]] + cache[seen + 1..];
  }

  lemma NothingVisited(cache: seq<Entry>, robotId: string)
    ensures Invalidate(cache[..0], robotId) == [] && [] + cache[0..] == cache
  {
  }

  lemma AllVisited(cache: seq<Entry>, kept: seq<Entry>)
    ensures cache[..|cache|] == cache && kept + cache[|cache|..] == kept
  {
  }

  lemma {:induction false} InvalidateKeepsDistinct(cache: seq<Entry>, robotId: string)
    requires DistinctKeys(cache)
    ensures DistinctKeys(Invalidate(cache, robotId))
  {
    if cache != [] {
      var n := |cache| - 1;
      InvalidateKeepsDistinct(cache[..n], robotId);
      var front := Invalidate(cache[..n], robotId);
      InvalidateMembers(cache[..n], robotId);
      forall i | 0 <= i < |front| ensures front[i].key != cache[n].key {
        assert front[i] in front && front[i] in cache[..n];
      }
    }
  }

  lemma FillKeepsDistinctAndBounded(cache: seq<Entry>, key: string, serialNumber: string, now: int)
    requires DistinctKeys(cache) && |cache| <= OWNERSHIP_MAX_ENTRIES
    ensures DistinctKeys(Fill(cache, key, serialNumber, now))
    ensures |Fill(cache, key, serialNumber, now)| <= OWNERSHIP_MAX_ENTRIES
  {
    var kept := Evict(cache);
    var entry := Entry(key, serialNumber, now + OWNERSHIP_TTL_MS);
    MapSetPlaces(kept, entry);
    hide MapSet;
    var filled := MapSet(kept, entry);
    if MapGet(kept, key).None? {
      assert forall i :: 0 <= i < |kept| ==> kept[i] in kept;
    } else {
      assert forall i :: 0 <= i < |kept| ==> filled[i].key == kept[i].key;
    }
  }

  lemma FillMembers(cache: seq<Entry>, key: string, serialNumber: string, now: int)
    ensures Entry(key, serialNumber, now + OWNERSHIP_TTL_MS) in Fill(cache, key, serialNumber, now)
    ensures forall e :: e in Fill(cache, key, serialNumber, now) ==>
              e in cache || e == Entry(key, serialNumber, now + OWNERSHIP_TTL_MS)
  {
    var kept, entry := Evict(cache), Entry(key, serialNumber, now + OWNERSHIP_TTL_MS);
    MapSetPlaces(kept, entry);
    hide MapSet;
    var filled := MapSet(kept, entry);
    if MapGet(kept, key).Some? {
      assert forall i :: 0 <= i < |filled| ==> filled[i] == kept[i] || filled[i] == entry;
    }
  }

  lemma FillHoldsEntry(cache: seq<Entry>, key: string, serialNumber: string, now: int)
    requires DistinctKeys(cache) && |cache| <= OWNERSHIP_MAX_ENTRIES
    ensures MapGet(Fill(cache, key, serialNumber, now), key) == Some(Entry(key, serialNumber, now + OWNERSHIP_TTL_MS))
  {
    FillKeepsDistinctAndBounded(cache, key, serialNumber, now);
    var entry := Entry(key, serialNumber, now + OWNERSHIP_TTL_MS);
    FillMembers(cache, key, serialNumber, now);
    hide Fill;
    OnlyEntryUnderKey(Fill(cache, key, serialNumber, now), entry);
  }

  lemma OnlyEntryUnderKey(cache: seq<Entry>, e: Entry)
    requires DistinctKeys(cache) && e in cache
    ensures MapGet(cache, e.key) == Some(e)
  {
    var hit := MapGet(cache, e.key);
    assert hit.Some?;
    var i :| 0 <= i < |cache| && cache[i] == e;
    var j :| 0 <= j < |cache| && cache[j] == hit.value;
  }

  // ---------- Eviction ----------

  datatype Insertion = Insertion(key: string, serialNumber: string, now: int)

  function FillAll(cache: seq<Entry>, ins: seq<Insertion>): seq<Entry>
    decreases |ins|
  {
    if ins == [] then cache else FillAll(Fill(cache, ins[0].key, ins[0].serialNumber, ins[0].now), ins[1..])
  }

  /** One insertion under another key moves an entry that is not first by at most one place. */
  lemma FillShiftsByOne(cache: seq<Entry>, i: nat, x: Insertion) returns (j: nat)
    requires 0 < i < |cache| && cache[i].key != x.key
    ensures i - 1 <= j && j < |Fill(cache, x.key, x.serialNumber, x.now)|
    ensures Fill(cache, x.key, x.serialNumber, x.now)[j] == cache[i]
  {
    hide MapSet, MapGet;
    var kept := Evict(cache);
    j := if |cache| >= OWNERSHIP_MAX_ENTRIES then i - 1 else i;
    assert kept[j] == cache[i];
    MapSetPlaces(kept, Entry(x.key, x.serialNumber, x.now + OWNERSHIP_TTL_MS));
  }

  /** First in, first out: an entry outlives as many insertions as there are entries before it. */
  lemma {:induction false} EntryOutlivesInsertions(cache: seq<Entry>, i: nat, ins: seq<Insertion>)
    requires |ins| <= i < |cache|
    requires forall k :: 0 <= k < |ins| ==> ins[k].key != cache[i].key
    ensures cache[i] in FillAll(cache, ins)
    decreases |ins|
  {
    if ins != [] {
      var j := FillShiftsByOne(cache, i, ins[0]);
      hide Fill;
      EntryOutlivesInsertions(Fill(cache, ins[0].key, ins[0].serialNumber, ins[0].now), j, ins[1..]);
    }
  }

  function EntryOf(x: Insertion): Entry {
    Entry(x.key, x.serialNumber, x.now + OWNERSHIP_TTL_MS)
  }

  function EntriesOf(ins: seq<Insertion>): (r: seq<Entry>)
    ensures |r| == |ins|
    ensures forall k :: 0 <= k < |r| ==> r[k] == EntryOf(ins[k])
  {
    seq(|ins|, k requires 0 <= k < |ins| => EntryOf(ins[k]))
  }

  /** The last 256. */
  function Newest(entries: seq<Entry>): seq<Entry> {
    if |entries| <= 256 then entries else entries[|entries| - 256..]
  }

  ghost predicate NewKeys(cache: seq<Entry>, ins: seq<Insertion>) {
    && (forall i, k :: 0 <= i < |cache| && 0 <= k < |ins| ==> cache[i].key != ins[k].key)
    && (forall j, k :: 0 <= j < k < |ins| ==> ins[j].key != ins[k].key)
  }

  lemma FillNewKey(cache: seq<Entry>, x: Insertion)
    requires forall e :: e in cache ==> e.key != x.key
    ensures Fill(cache, x.key, x.serialNumber, x.now) == Evict(cache) + [EntryOf(x)]
  {
    MapSetPlaces(Evict(cache), EntryOf(x));
  }

  /** Dropping the oldest of a full cache is dropping it from the whole history. */
  lemma EvictedIsOldest(cache: seq<Entry>, x: Entry, more: seq<Entry>)
    requires |cache| <= OWNERSHIP_MAX_ENTRIES
    ensures Newest(Evict(cache) + [x] + more) == Newest(cache + [x] + more)
  {
    var all := cache + [x] + more;
    if |cache| == OWNERSHIP_MAX_ENTRIES {
      assert Evict(cache) + [x] + more == all[1..];
      assert all[1..][|all| - 1 - OWNERSHIP_MAX_ENTRIES..] == all[|all| - OWNERSHIP_MAX_ENTRIES..];
    }
  }

  lemma KeysStayNew(cache: seq<Entry>, ins: seq<Insertion>)
    requires NewKeys(cache, ins) && ins != []
    ensures NewKeys(Evict(cache) + [EntryOf(ins[0])], ins[1..])
  {
    var next, rest := Evict(cache) + [EntryOf(ins[0])], ins[1..];
    forall i, k | 0 <= i < |next| && 0 <= k < |rest| ensures next[i].key != rest[k].key {
      assert rest[k] == ins[k + 1];
      if i == |next| - 1 {
        assert next[i].key == ins[0].key;
      } else {
        assert next[i] == cache[i + |cache| - |Evict(cache)|];
      }
    }
    forall j, k | 0 <= j < k < |rest| ensures rest[j].key != rest[k].key {
      assert rest[j] == ins[j + 1] && rest[k] == ins[k + 1];
    }
  }

  lemma FirstEntryApart(cache: seq<Entry>, ins: seq<Insertion>)
    requires ins != []
    ensures cache + EntriesOf(ins) == cache + [EntryOf(ins[0])] + EntriesOf(ins[1..])
  {
    assert EntriesOf(ins) == [EntryOf(ins[0])] + EntriesOf(ins[1..]);
  }

  /** Main result: under new keys the cache is the last 256 entries of everything inserted, in order. */
  lemma {:induction false} EvictionIsFifo(cache: seq<Entry>, ins: seq<Insertion>)
    requires |cache| <= OWNERSHIP_MAX_ENTRIES && NewKeys(cache, ins)
    ensures FillAll(cache, ins) == Newest(cache + EntriesOf(ins))
    decreases |ins|
  {
    if ins == [] {
      assert cache + EntriesOf(ins) == cache;
    } else {
      var next := Evict(cache) + [EntryOf(ins[0])];
      assert forall e :: e in cache ==> e.key != ins[0].key;
      FillNewKey(cache, ins[0]);
      KeysStayNew(cache, ins);
      FirstEntryApart(cache, ins);
      assert |next| <= OWNERSHIP_MAX_ENTRIES;
      hide Fill, Newest, NewKeys, Evict, EntryOf, EntriesOf;
      EvictionIsFifo(next, ins[1..]);
      EvictedIsOldest(cache, EntryOf(ins[0]), EntriesOf(ins[1..]));
    }
  }

  /** How many of the insertions find the cache full, and so evict. */
  function Evictions(cache: seq<Entry>, ins: seq<Insertion>): nat
    decreases |ins|
  {
    if ins == [] then 0
    else
      Evictions(Fill(cache, ins[0].key, ins[0].serialNumber, ins[0].now), ins[1..]) +
      if |cache| >= OWNERSHIP_MAX_ENTRIES then 1 else 0
  }

  ghost predicate Avoid(ins: seq<Insertion>, key: string) {
    forall k :: 0 <= k < |ins| ==> ins[k].key != key
  }

  lemma RestAvoids(ins: seq<Insertion>, key: string)
    requires ins != []
    ensures Avoid(ins, key) <==> ins[0].key != key && Avoid(ins[1..], key)
  {
    assert forall k :: 0 < k < |ins| ==> ins[k] == ins[1..][k - 1];
  }

  /** One fill moves a key down by one place if it evicts, also when it refills that very key. */
  lemma FillMovesPlace(cache: seq<Entry>, i: nat, x: Insertion)
    requires DistinctKeys(cache) && |cache| <= OWNERSHIP_MAX_ENTRIES && i < |cache|
    ensures var filled := Fill(cache, x.key, x.serialNumber, x.now);
            var j := i - if |cache| == OWNERSHIP_MAX_ENTRIES then 1 else 0;
            j >= 0 ==>
              && j < |filled| && filled[j].key == cache[i].key
              && (x.key != cache[i].key ==> filled[j] == cache[i])
  {
    var kept := Evict(cache);
    MapSetPlaces(kept, EntryOf(x));
    hide MapSet, MapGet, DistinctKeys;
    var j := i - if |cache| == OWNERSHIP_MAX_ENTRIES then 1 else 0;
    if j >= 0 {
      assert kept[j] == cache[i];
    }
  }

  /** What the first of several insertions leaves to the others. */
  lemma OneInsertion(cache: seq<Entry>, i: nat, ins: seq<Insertion>)
    requires DistinctKeys(cache) && |cache| <= OWNERSHIP_MAX_ENTRIES && i < |cache| && ins != []
    ensures var x := ins[0];
            var filled, evicted := Fill(cache, x.key, x.serialNumber, x.now), |cache| == OWNERSHIP_MAX_ENTRIES;
            var j := i - if evicted then 1 else 0;
            && FillAll(cache, ins) == FillAll(filled, ins[1..])
            && Evictions(cache, ins) == Evictions(filled, ins[1..]) + (if evicted then 1 else 0)
            && DistinctKeys(filled) && |filled| <= OWNERSHIP_MAX_ENTRIES
            && (Avoid(ins, cache[i].key) <==> x.key != cache[i].key && Avoid(ins[1..], cache[i].key))
            && (j >= 0 ==> j < |filled| && filled[j].key == cache[i].key)
            && (j >= 0 && x.key != cache[i].key ==> filled[j] == cache[i])
  {
    var x := ins[0];
    FillMovesPlace(cache, i, x);
    FillKeepsDistinctAndBounded(cache, x.key, x.serialNumber, x.now);
    RestAvoids(ins, cache[i].key);
    hide Fill, DistinctKeys, Avoid;
  }

  /** A key that is not evicted stays, moved down by the number of evictions, whatever is filled or refilled. */
  lemma {:induction false} PlaceMovesByEvictions(cache: seq<Entry>, i: nat, ins: seq<Insertion>)
    requires DistinctKeys(cache) && |cache| <= OWNERSHIP_MAX_ENTRIES
    requires i < |cache| && Evictions(cache, ins) <= i
    ensures var j := i - Evictions(cache, ins);
            && j < |FillAll(cache, ins)| && FillAll(cache, ins)[j].key == cache[i].key
            && (Avoid(ins, cache[i].key) ==> FillAll(cache, ins)[j] == cache[i])
    decreases |ins|
  {
    hide DistinctKeys, Avoid, Fill;
    if ins != [] {
      var x := ins[0];
      OneInsertion(cache, i, ins);
      hide *;
      PlaceMovesByEvictions(Fill(cache, x.key, x.serialNumber, x.now),
                            i - if |cache| == OWNERSHIP_MAX_ENTRIES then 1 else 0, ins[1..]);
    }
  }

  lemma {:induction false} GoneStaysGone(cache: seq<Entry>, e: Entry, ins: seq<Insertion>)
    requires e !in cache && Avoid(ins, e.key)
    ensures e !in FillAll(cache, ins)
    decreases |ins|
  {
    if ins != [] {
      FillMembers(cache, ins[0].key, ins[0].serialNumber, ins[0].now);
      RestAvoids(ins, e.key);
      hide Fill, Avoid;
      GoneStaysGone(Fill(cache, ins[0].key, ins[0].serialNumber, ins[0].now), e, ins[1..]);
    }
  }

  /** The entry that a full cache evicts is its first. */
  lemma FirstIsEvicted(cache: seq<Entry>, x: Insertion)
    requires DistinctKeys(cache) && |cache| == OWNERSHIP_MAX_ENTRIES && x.key != cache[0].key
    ensures cache[0] !in Fill(cache, x.key, x.serialNumber, x.now)
  {
    var kept := cache[1..];
    FillMembers(kept, x.key, x.serialNumber, x.now);
    assert Fill(cache, x.key, x.serialNumber, x.now) == Fill(kept, x.key, x.serialNumber, x.now);
    hide Fill;
    forall j | 0 <= j < |kept| ensures kept[j] != cache[0] {
      assert kept[j] == cache[j + 1];
    }
    hide DistinctKeys;
  }

  /**
    Main result: whatever else is inserted or refilled, an entry is still there iff the insertions
    that found the cache full are no more than the entries before it.
  */
  lemma {:induction false} EntryRemainsIff(cache: seq<Entry>, i: nat, ins: seq<Insertion>)
    requires DistinctKeys(cache) && |cache| <= OWNERSHIP_MAX_ENTRIES && i < |cache|
    requires Avoid(ins, cache[i].key)
    ensures cache[i] in FillAll(cache, ins) <==> Evictions(cache, ins) <= i
    decreases |ins|
  {
    hide DistinctKeys, Avoid, Fill;
    if ins != [] {
      var x := ins[0];
      var filled := Fill(cache, x.key, x.serialNumber, x.now);
      OneInsertion(cache, i, ins);
      hide *;
      if |cache| == OWNERSHIP_MAX_ENTRIES && i == 0 {
        FirstIsEvicted(cache, x);
        GoneStaysGone(filled, cache[i], ins[1..]);
      } else {
        var j := i - if |cache| == OWNERSHIP_MAX_ENTRIES then 1 else 0;
        assert filled[j] == cache[i];
        EntryRemainsIff(filled, j, ins[1..]);
      }
    }
  }

  /** Under new keys every insertion beyond the bound evicts. */
  lemma {:induction false} EvictionsOfNewKeys(cache: seq<Entry>, ins: seq<Insertion>)
    requires |cache| <= OWNERSHIP_MAX_ENTRIES && NewKeys(cache, ins)
    ensures Evictions(cache, ins) ==
            if |cache| + |ins| <= OWNERSHIP_MAX_ENTRIES then 0 else |cache| + |ins| - OWNERSHIP_MAX_ENTRIES
    decreases |ins|
  {
    if ins != [] {
      assert forall e :: e in cache ==> e.key != ins[0].key;
      FillNewKey(cache, ins[0]);
      KeysStayNew(cache, ins);
      var next := Evict(cache) + [EntryOf(ins[0])];
      assert |next| <= OWNERSHIP_MAX_ENTRIES;
      hide Fill, NewKeys, EntryOf;
      EvictionsOfNewKeys(next, ins[1..]);
    }
  }

  /** Refilling a cached key of a full cache evicts too: the first entry goes for nothing, and 255 are left. */
  lemma RefillEvictsAnother(cache: seq<Entry>, k: nat, x: Insertion)
    requires DistinctKeys(cache) && |cache| == OWNERSHIP_MAX_ENTRIES
    requires 0 < k < |cache| && x.key == cache[k].key
    ensures var filled := Fill(cache, x.key, x.serialNumber, x.now);
            && |filled| == OWNERSHIP_MAX_ENTRIES - 1 && cache[0] !in filled
            && filled[k - 1] == EntryOf(x)
  {
    var kept := cache[1..];
    assert DistinctKeys(kept) && kept[k - 1] == cache[k];
    assert cache[0].key != cache[k].key;
    assert Fill(cache, x.key, x.serialNumber, x.now) == MapSet(kept, EntryOf(x)) && EntryOf(x).key == x.key;
    hide *;
    FirstIsEvicted(cache, x);
    RefillPlace(kept, k - 1, EntryOf(x));
  }

  lemma {:induction false} RefillPlace(cache: seq<Entry>, k: nat, e: Entry)
    requires DistinctKeys(cache) && k < |cache| && cache[k].key == e.key
    ensures |MapSet(cache, e)| == |cache| && MapSet(cache, e)[k] == e
  {
    if k > 0 {
      assert cache[0].key != cache[k].key;
      RefillPlace(cache[1..], k - 1, e);
    }
  }

  /** A refilled entry keeps its old place in the queue: here it goes two insertions later. */
  lemma RefilledEntryGoesEarly(cache: seq<Entry>, x: Insertion, y: Insertion, z: Insertion)
    requires DistinctKeys(cache) && |cache| == OWNERSHIP_MAX_ENTRIES
    requires x.key == cache[1].key && NewKeys(cache, [y, z])
    ensures EntryOf(x) !in FillAll(cache, [x, y, z])
  {
    RefillEvictsAnother(cache, 1, x);
    FillKeepsDistinctAndBounded(cache, x.key, x.serialNumber, x.now);
    FillMembers(cache, x.key, x.serialNumber, x.now);
    var filled := Fill(cache, x.key, x.serialNumber, x.now);
    assert [y, z][0] == y && [y, z][1] == z && cache[1].key != y.key && cache[1].key != z.key;
    forall e | e in filled ensures e.key != y.key {
      assert e in cache || e == EntryOf(x);
    }
    FillNewKey(filled, y);
    assert |Fill(filled, y.key, y.serialNumber, y.now)| == OWNERSHIP_MAX_ENTRIES;
    hide Fill, DistinctKeys;
    assert [y, z][1..] == [z] && [z][1..] == [] && [x, y, z][1..] == [y, z];
    var full := Fill(filled, y.key, y.serialNumber, y.now);
    assert Evictions(full, [z]) == 1;
    assert Evictions(filled, [y, z]) == Evictions(full, [z]);
    EntryRemainsIff(filled, 0, [y, z]);
    assert FillAll(cache, [x, y, z]) == FillAll(filled, [y, z]);
  }

  // ---------- What the cache stands for ----------

  /** What a row read from the database answers. */
  function RowResult(row: Option<Robot>, userId: string): Lookup {
    if row.None? then NotFound
    else if row.value.userId != userId then Forbidden
    else Found(row.value.serialNumber)
  }

  /** The uncached answer. */
  function Uncached(db: map<string, Robot>, id: string, userId: string): Lookup {
    RowResult(Get(db, id), userId)
  }

  /** What an answer means: this owner and this serial, no row at all, or another owner. */
  predicate Says(db: map<string, Robot>, id: string, userId: string, answer: Lookup) {
    match answer
    case Found(serialNumber) => id in db && db[id] == Robot(userId, serialNumber)
    case NotFound => id !in db
    case Forbidden => id in db && db[id].userId != userId
  }

  /** Main result: the uncached answer is the one that says the truth, and no other does. */
  lemma UncachedSaysTruth(db: map<string, Robot>, id: string, userId: string, answer: Lookup)
    ensures Uncached(db, id, userId) == answer <==> Says(db, id, userId, answer)
  {
  }

  /** The entry, expired or not, says what the database says. */
  ghost predicate EntryAgrees(db: map<string, Robot>, e: Entry) {
    exists userId, id :: ':' !in userId && e.key == Key(userId, id) && Uncached(db, id, userId) == Found(e.serialNumber)
  }

  ghost predicate Agrees(cache: seq<Entry>, db: map<string, Robot>) {
    forall e :: e in cache ==> EntryAgrees(db, e)
  }

  /** An agreeing entry under a user's key answers exactly as the database would. */
  lemma HitIsExact(db: map<string, Robot>, e: Entry, id: string, userId: string)
    requires ':' !in userId && e.key == Key(userId, id)
    requires EntryAgrees(db, e)
    ensures Uncached(db, id, userId) == Found(e.serialNumber)
  {
    var u, r :| ':' !in u && e.key == Key(u, r) && Uncached(db, r, u) == Found(e.serialNumber);
    KeyIsInjective(u, r, userId, id);
  }

  /** After the entries of a robot are gone, its row may change in any way. */
  lemma InvalidatedRowMayChange(cache: seq<Entry>, db: map<string, Robot>, db': map<string, Robot>, id: string)
    requires Agrees(cache, db)
    requires forall other :: other != id ==> Get(db', other) == Get(db, other)
    ensures Agrees(Invalidate(cache, id), db')
  {
    InvalidateMembers(cache, id);
    forall e | e in Invalidate(cache, id) ensures EntryAgrees(db', e) {
      var u, r :| ':' !in u && e.key == Key(u, r) && Uncached(db, r, u) == Found(e.serialNumber);
      SuffixMatchesExactly(u, r, id);
      assert r != id && Get(db', r) == Get(db, r);
      assert r in db' && Uncached(db', r, u) == Found(e.serialNumber);
    }
  }

  // ---------- The service, one operation at a time ----------

  class RobotService {
    var ownershipCache: seq<Entry>
    var db: map<string, Robot>

    /** Holds after every operation: the cache is small and says only what the database says. */
    ghost predicate Valid()
      reads this
    {
      && DistinctKeys(ownershipCache) && |ownershipCache| <= OWNERSHIP_MAX_ENTRIES
      && Agrees(ownershipCache, db)
    }

    constructor (db: map<string, Robot>)
      ensures Valid() && this.db == db && ownershipCache == []
    {
      this.db := db;
      ownershipCache := [];
    }

    /** Cached or not, the answer is the database's. */
    method FindOneForCommand(id: string, userId: string, now: int) returns (r: Lookup)
      requires Valid() && ':' !in userId
      modifies this`ownershipCache
      ensures Valid()
      ensures r == Uncached(db, id, userId)
      ensures r.Found? <==> id in db && db[id].userId == userId
      ensures r.Found? ==> r.serialNumber == db[id].serialNumber
      ensures r.NotFound? <==> id !in db
      ensures r.Forbidden? <==> id in db && db[id].userId != userId
      ensures var hit := MapGet(old(ownershipCache), Key(userId, id));
              ownershipCache == if (hit.Some? && hit.value.expiresAt > now) || !r.Found? then old(ownershipCache)
                                else Fill(old(ownershipCache), Key(userId, id), r.serialNumber, now)
    {
      var cacheKey := Key(userId, id);
      var hit := MapGet(ownershipCache, cacheKey);
      if hit.Some? && hit.value.expiresAt > now {
        HitIsExact(db, hit.value, id, userId);
        return Found(hit.value.serialNumber);
      }
      if id !in db { return NotFound; }
      var robot := db[id];
      if robot.userId != userId { return Forbidden; }
      FillKeepsDistinctAndBounded(ownershipCache, cacheKey, robot.serialNumber, now);
      FillMembers(ownershipCache, cacheKey, robot.serialNumber, now);
      if |ownershipCache| >= OWNERSHIP_MAX_ENTRIES {
        ownershipCache := ownershipCache[1..];
      }
      var entry := Entry(cacheKey, robot.serialNumber, now + OWNERSHIP_TTL_MS);
      ownershipCache := MapSet(ownershipCache, entry);
      assert EntryAgrees(db, entry);
      return Found(robot.serialNumber);
    }

    /** Deleting while iterating: the key after a deleted one moves into its place. */
    method InvalidateOwnershipCache(robotId: string)
      modifies this`ownershipCache
      ensures ownershipCache == Invalidate(old(ownershipCache), robotId)
    {
      ghost var all, seen, kept := ownershipCache, 0, [];
      var i := 0;
      NothingVisited(all, robotId);
      hide *;
      while i < |ownershipCache|
        invariant seen <= |all| && i == |kept| && kept == Invalidate(all[..seen], robotId)
        invariant ownershipCache == kept + all[seen..]
        decreases |ownershipCache| - i
      {
        OneKeyVisited(all, seen, kept, robotId);
        assert |kept| < |kept + all[seen..]|;
        var entry := ownershipCache[i];
        if EndsWith(entry.key, ":" + robotId) {
          ownershipCache := ownershipCache[..i] + ownershipCache[i + 1..];
        } else {
          kept := kept + [entry];
          i := i + 1;
        }
        seen := seen + 1;
      }
      AllVisited(all, kept);
    }

    /** A rename by the owner; writeOk is false when the row update throws, say on a duplicate serial. */
    method Update(id: string, userId: string, serialNumber: Option<string>, writeOk: bool) returns (r: Lookup)
      requires Valid()
      modifies this
      ensures Valid()
      ensures r == Uncached(old(db), id, userId)
      ensures r.Found? <==> id in old(db) && old(db)[id].userId == userId
      ensures r.Found? ==> r.serialNumber == old(db)[id].serialNumber
      ensures r.NotFound? <==> id !in old(db)
      ensures r.Forbidden? <==> id in old(db) && old(db)[id].userId != userId
      ensures !r.Found? ==> db == old(db) && ownershipCache == old(ownershipCache)
      ensures r.Found? ==> ownershipCache == Invalidate(old(ownershipCache), id)
      ensures r.Found? ==> db == if writeOk && serialNumber.Some?
                                 then old(db)[id := Robot(userId, serialNumber.value)] else old(db)
    {
      r := Uncached(db, id, userId);
      if !r.Found? { return; }
      InvalidateKeepsDistinct(ownershipCache, id);
      InvalidateOwnershipCache(id);
      if writeOk && serialNumber.Some? {
        db := db[id := Robot(userId, serialNumber.value)];
      }
      InvalidatedRowMayChange(old(ownershipCache), old(db), db, id);
    }

    method Remove(id: string, userId: string, writeOk: bool) returns (r: Lookup)
      requires Valid()
      modifies this
      ensures Valid()
      ensures r == Uncached(old(db), id, userId)
      ensures r.Found? <==> id in old(db) && old(db)[id].userId == userId
      ensures r.Found? ==> r.serialNumber == old(db)[id].serialNumber
      ensures r.NotFound? <==> id !in old(db)
      ensures r.Forbidden? <==> id in old(db) && old(db)[id].userId != userId
      ensures !r.Found? ==> db == old(db) && ownershipCache == old(ownershipCache)
      ensures r.Found? ==> ownershipCache == Invalidate(old(ownershipCache), id)
      ensures r.Found? ==> db == if writeOk then old(db) - {id} else old(db)
    {
      r := Uncached(db, id, userId);
      if !r.Found? { return; }
      InvalidateKeepsDistinct(ownershipCache, id);
      InvalidateOwnershipCache(id);
      if writeOk {
        db := db - {id};
      }
      InvalidatedRowMayChange(old(ownershipCache), old(db), db, id);
    }

    /** A new robot, under an id the database has never used; no entry can speak of it. */
    method Create(id: string, userId: string, serialNumber: string)
      requires Valid() && id !in db
      modifies this`db
      ensures Valid() && db == old(db)[id := Robot(userId, serialNumber)]
    {
      db := db[id := Robot(userId, serialNumber)];
      forall e | e in ownershipCache ensures EntryAgrees(db, e) {
        assert EntryAgrees(old(db), e);
        var u, r :| ':' !in u && e.key == Key(u, r) && Uncached(old(db), r, u) == Found(e.serialNumber);
        assert Uncached(db, r, u) == Found(e.serialNumber);
      }
    }
  }
}
