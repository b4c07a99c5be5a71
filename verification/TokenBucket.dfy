/**
  The lazily refilled token bucket of src/modules/socket/rate-limiter.ts.

  The bucket is specified twice: by the arithmetic that the code performs (Acquire), and by a
  sliding-window envelope that speaks only of the times at which requests were granted
  (WithinEnvelope). The lemmas show that the two agree on every nondecreasing clock, that no
  admission policy obeying the envelope grants more, and what is left on an arbitrary clock.
*/
module TokenBucket {
  import opened Common

  datatype Config = Config(capacity: real, refillPerSec: real)

  datatype Bucket = Bucket(tokens: real, lastRefillMs: real)

  const DEFAULT_CAPACITY := 30.0
  const DEFAULT_REFILL_PER_SEC := 15.0

  function Min(a: real, b: real): real {
    if a <= b then a else b
  }

  /** Tokens that accrue in ms milliseconds. */
  function Credit(cfg: Config, ms: real): real {
    ms / 1000.0 * cfg.refillPerSec
  }

  function Refill(cfg: Config, b: Bucket, now: real): Bucket {
    if now - b.lastRefillMs > 0.0
    then Bucket(Min(cfg.capacity, b.tokens + Credit(cfg, now - b.lastRefillMs)), now)
    else b
  }

  /** One request at time now against a bucket that may not exist yet: the new bucket and the verdict. */
  function Acquire(cfg: Config, b: Option<Bucket>, now: real): (Bucket, bool) {
    var ready := if b.None? then Bucket(cfg.capacity, now) else Refill(cfg, b.value, now);
    if ready.tokens >= 1.0 then (ready.(tokens := ready.tokens - 1.0), true) else (ready, false)
  }

  // ---------- Runs on one key ----------

  /** The bucket after requests at the times ts, none of them followed by a release. */
  function After(cfg: Config, ts: seq<real>): Option<Bucket> {
    if ts == [] then None
    else Some(Acquire(cfg, After(cfg, ts[..|ts| - 1]), ts[|ts| - 1]).0)
  }

  function Verdict(cfg: Config, ts: seq<real>, now: real): bool {
    Acquire(cfg, After(cfg, ts), now).1
  }

  /** One verdict per request of ts. */
  function Verdicts(cfg: Config, ts: seq<real>): (vs: seq<bool>)
    ensures |vs| == |ts|
  {
    if ts == [] then []
    else Verdicts(cfg, ts[..|ts| - 1]) + [Verdict(cfg, ts[..|ts| - 1], ts[|ts| - 1])]
  }

  /** The times of ts whose requests were granted. */
  function Granted(cfg: Config, ts: seq<real>): seq<real> {
    Pick(ts, Verdicts(cfg, ts))
  }

  /** Every time is at least the one before it. */
  predicate Nondecreasing(ts: seq<real>) {
    |ts| < 2 || (ts[|ts| - 2] <= ts[|ts| - 1] && Nondecreasing(ts[..|ts| - 1]))
  }

  // ---------- The declarative envelope ----------

  /** Every window that starts and ends at a grant holds at most capacity plus what refills within it. */
  ghost predicate WithinEnvelope(cfg: Config, grants: seq<real>) {
    forall i, j :: 0 <= i <= j < |grants| ==>
      (j - i + 1) as real <= cfg.capacity + Credit(cfg, grants[j] - grants[i])
  }

  /** Room that the window starting at grant i still has at time now. */
  function Slack(cfg: Config, grants: seq<real>, i: nat, now: real): real
    requires i < |grants|
  {
    cfg.capacity + Credit(cfg, now - grants[i]) - (|grants| - i) as real
  }

  /** The tightest of all windows, and of the capacity. */
  function Level(cfg: Config, grants: seq<real>, now: real): real {
    if grants == [] then cfg.capacity
    else Min(Slack(cfg, grants, 0, now), Level(cfg, grants[1..], now))
  }

  lemma CreditAdds(cfg: Config, a: real, b: real)
    ensures Credit(cfg, a) + Credit(cfg, b) == Credit(cfg, a + b)
  {
    assert a / 1000.0 + b / 1000.0 == (a + b) / 1000.0;
  }

  lemma ElapsedCredit(cfg: Config, ms: real)
    ensures ms / 1000.0 * cfg.refillPerSec == Credit(cfg, ms)
  {
  }

  lemma CreditZero(cfg: Config)
    ensures Credit(cfg, 0.0) == 0.0
  {
  }

  lemma CreditMonotone(cfg: Config, a: real, b: real)
    requires cfg.refillPerSec >= 0.0
    requires a <= b
    ensures Credit(cfg, a) <= Credit(cfg, b)
  {
    assert (b - a) / 1000.0 * cfg.refillPerSec >= 0.0;
    CreditAdds(cfg, a, b - a);
  }

  /** Level is exactly the greatest lower bound of the capacity and all slacks. */
  lemma {:induction false} LevelIsGreatestLowerBound(cfg: Config, grants: seq<real>, now: real, x: real)
    ensures x <= Level(cfg, grants, now) <==>
            x <= cfg.capacity && forall i :: 0 <= i < |grants| ==> x <= Slack(cfg, grants, i, now)
  {
    hide Credit;
    CreditZero(cfg);
    if grants != [] {
      var rest := grants[1..];
      LevelIsGreatestLowerBound(cfg, rest, now, x);
      assert forall i :: 0 <= i < |rest| ==> Slack(cfg, rest, i, now) == Slack(cfg, grants, i + 1, now);
      assert forall i :: 0 < i < |grants| ==> Slack(cfg, grants, i, now) == Slack(cfg, rest, i - 1, now);
    }
  }

  /** Lazy refill: waiting adds the credit of the wait, capped at the capacity. */
  lemma {:induction false} LevelAfterWait(cfg: Config, grants: seq<real>, t: real, now: real)
    requires cfg.refillPerSec >= 0.0
    requires t <= now
    ensures Level(cfg, grants, now) == Min(cfg.capacity, Level(cfg, grants, t) + Credit(cfg, now - t))
  {
    hide Credit;
    CreditZero(cfg);
    CreditMonotone(cfg, 0.0, now - t);
    if grants != [] {
      LevelAfterWait(cfg, grants[1..], t, now);
      CreditAdds(cfg, now - t, t - grants[0]);
    }
  }

  /** A grant costs exactly one token in every window at once. */
  lemma {:induction false} LevelAfterGrant(cfg: Config, grants: seq<real>, now: real)
    ensures Level(cfg, grants + [now], now) == Level(cfg, grants, now) - 1.0
  {
    hide Credit;
    CreditZero(cfg);
    var more := grants + [now];
    if grants == [] {
      assert more[1..] == [];
    } else {
      LevelAfterGrant(cfg, grants[1..], now);
      assert more[1..] == grants[1..] + [now];
    }
  }

  lemma EnvelopeLeavesRoom(cfg: Config, grants: seq<real>, now: real)
    requires WithinEnvelope(cfg, grants + [now])
    ensures WithinEnvelope(cfg, grants) && Level(cfg, grants, now) >= 1.0
  {
    hide Credit, Level;
    CreditZero(cfg);
    var more := grants + [now];
    var n := |grants|;
    LevelIsGreatestLowerBound(cfg, grants, now, 1.0);
    assert more[n] == now && Credit(cfg, more[n] - more[n]) == 0.0;
    assert 1.0 <= cfg.capacity;
    forall i, j | 0 <= i <= j < n
      ensures (j - i + 1) as real <= cfg.capacity + Credit(cfg, grants[j] - grants[i])
    {
      assert more[i] == grants[i] && more[j] == grants[j];
    }
    forall i | 0 <= i < n ensures 1.0 <= Slack(cfg, grants, i, now) {
      assert more[i] == grants[i];
      assert (n - i + 1) as real <= cfg.capacity + Credit(cfg, more[n] - more[i]);
    }
  }

  lemma RoomExtendsEnvelope(cfg: Config, grants: seq<real>, now: real)
    requires WithinEnvelope(cfg, grants) && Level(cfg, grants, now) >= 1.0
    ensures WithinEnvelope(cfg, grants + [now])
  {
    hide Credit, Level;
    CreditZero(cfg);
    var more := grants + [now];
    var n := |grants|;
    LevelIsGreatestLowerBound(cfg, grants, now, 1.0);
    forall i, j | 0 <= i <= j < |more|
      ensures (j - i + 1) as real <= cfg.capacity + Credit(cfg, more[j] - more[i])
    {
      if j < n {
        assert more[i] == grants[i] && more[j] == grants[j];
      } else if i < n {
        assert more[i] == grants[i] && 1.0 <= Slack(cfg, grants, i, now);
      }
    }
  }

  /** A further grant keeps the envelope iff the tightest window has room for one. */
  lemma EnvelopeExtends(cfg: Config, grants: seq<real>, now: real)
    ensures WithinEnvelope(cfg, grants + [now]) <==>
            WithinEnvelope(cfg, grants) && Level(cfg, grants, now) >= 1.0
  {
    hide *;
    if WithinEnvelope(cfg, grants + [now]) {
      EnvelopeLeavesRoom(cfg, grants, now);
    }
    if WithinEnvelope(cfg, grants) && Level(cfg, grants, now) >= 1.0 {
      RoomExtendsEnvelope(cfg, grants, now);
    }
  }

  lemma GrantedAppend(cfg: Config, ts: seq<real>, now: real)
    ensures After(cfg, ts + [now]) == Some(Acquire(cfg, After(cfg, ts), now).0)
    ensures Verdicts(cfg, ts + [now]) == Verdicts(cfg, ts) + [Verdict(cfg, ts, now)]
    ensures Granted(cfg, ts + [now]) ==
            if Verdict(cfg, ts, now) then Granted(cfg, ts) + [now] else Granted(cfg, ts)
  {
    var more := ts + [now];
    assert more[..|more| - 1] == ts;
    assert Verdicts(cfg, more)[..|ts|] == Verdicts(cfg, ts);
  }

  // ---------- Exactness ----------

  /** The bucket holds exactly the room left in the tightest window of its grants. */
  ghost predicate Tracks(cfg: Config, b: Option<Bucket>, grants: seq<real>) {
    match b
    case None => grants == []
    case Some(bucket) => bucket.tokens == Level(cfg, grants, bucket.lastRefillMs)
  }

  /** One request, at any bucket that tracks its grants and on a clock that has not gone back. */
  lemma AcquireTracks(cfg: Config, b: Option<Bucket>, grants: seq<real>, now: real)
    requires cfg.refillPerSec >= 0.0
    requires Tracks(cfg, b, grants)
    requires b.Some? ==> b.value.lastRefillMs <= now
    ensures Acquire(cfg, b, now).1 <==> Level(cfg, grants, now) >= 1.0
    ensures Acquire(cfg, b, now).0.lastRefillMs == now
    ensures Acquire(cfg, b, now).0.tokens ==
            Level(cfg, if Acquire(cfg, b, now).1 then grants + [now] else grants, now)
  {
    hide Credit;
    CreditZero(cfg);
    if b.Some? {
      LevelAfterWait(cfg, grants, b.value.lastRefillMs, now);
    }
    LevelAfterGrant(cfg, grants, now);
  }

  /**
    On a nondecreasing clock the bucket tracks its grants after every request, and those grants
    obey the envelope.
  */
  lemma {:induction false} BucketIsTightestWindow(cfg: Config, ts: seq<real>)
    requires cfg.refillPerSec >= 0.0
    requires Nondecreasing(ts)
    ensures WithinEnvelope(cfg, Granted(cfg, ts))
    ensures Tracks(cfg, After(cfg, ts), Granted(cfg, ts))
    ensures ts != [] ==> After(cfg, ts).value.lastRefillMs == ts[|ts| - 1]
  {
    hide Credit, WithinEnvelope, Level, Acquire;
    if ts == [] {
      EmptyEnvelope(cfg);
    } else {
      var n := |ts| - 1;
      var front, now := ts[..n], ts[n];
      assert ts == front + [now];
      BucketIsTightestWindow(cfg, front);
      AcquireTracks(cfg, After(cfg, front), Granted(cfg, front), now);
      GrantedAppend(cfg, front, now);
      EnvelopeExtends(cfg, Granted(cfg, front), now);
    }
  }

  lemma EmptyEnvelope(cfg: Config)
    ensures WithinEnvelope(cfg, [])
  {
  }

  /**
    Main result: on a nondecreasing clock a request is granted iff granting it keeps every window
    within the envelope.
  */
  lemma GrantIffWithinEnvelope(cfg: Config, ts: seq<real>, now: real)
    requires cfg.refillPerSec >= 0.0
    requires Nondecreasing(ts + [now])
    ensures Verdict(cfg, ts, now) <==> WithinEnvelope(cfg, Granted(cfg, ts) + [now])
    ensures Verdict(cfg, ts, now) <==> Level(cfg, Granted(cfg, ts), now) >= 1.0
  {
    hide Credit, WithinEnvelope, Level, Acquire;
    NondecreasingPrefix(ts, now);
    BucketIsTightestWindow(cfg, ts);
    AcquireTracks(cfg, After(cfg, ts), Granted(cfg, ts), now);
    EnvelopeExtends(cfg, Granted(cfg, ts), now);
  }

  lemma NondecreasingPrefix(ts: seq<real>, now: real)
    ensures Nondecreasing(ts + [now]) <==> Nondecreasing(ts) && (ts != [] ==> ts[|ts| - 1] <= now)
  {
    assert (ts + [now])[..|ts|] == ts;
  }

  // ---------- Optimality ----------

  /** Our grants are not behind theirs, nor is our stock of grants plus remaining room. */
  ghost predicate Ahead(cfg: Config, ours: seq<real>, theirs: seq<real>, t: real) {
    && |theirs| <= |ours|
    && |theirs| as real + Level(cfg, theirs, t) <= |ours| as real + Level(cfg, ours, t)
  }

  function Extend(grants: seq<real>, granted: bool, now: real): seq<real> {
    if granted then grants + [now] else grants
  }

  /** Waiting and then deciding one request each keeps the greedy side ahead. */
  lemma AheadIsKept(cfg: Config, ours: seq<real>, theirs: seq<real>, t: real, now: real, we: bool, they: bool)
    requires cfg.refillPerSec >= 0.0 && t <= now
    requires Ahead(cfg, ours, theirs, t)
    requires we <==> Level(cfg, ours, now) >= 1.0
    requires they ==> Level(cfg, theirs, now) >= 1.0
    ensures Ahead(cfg, Extend(ours, we, now), Extend(theirs, they, now), now)
  {
    LevelAfterWait(cfg, ours, t, now);
    LevelAfterWait(cfg, theirs, t, now);
    LevelAfterGrant(cfg, ours, now);
    LevelAfterGrant(cfg, theirs, now);
    hide Credit, Level;
  }

  /** Against any admission choice that obeys the envelope, the bucket is ahead after every request. */
  lemma {:induction false} StayAhead(cfg: Config, ts: seq<real>, choice: seq<bool>)
    requires cfg.refillPerSec >= 0.0
    requires Nondecreasing(ts) && |choice| == |ts| > 0
    requires WithinEnvelope(cfg, Pick(ts, choice))
    ensures Ahead(cfg, Granted(cfg, ts), Pick(ts, choice), ts[|ts| - 1])
  {
    hide Credit, Level, WithinEnvelope, Acquire;
    var n := |ts| - 1;
    var front, now := ts[..n], ts[n];
    var ours, theirs := Granted(cfg, front), Pick(front, choice[..n]);
    assert ts == front + [now];
    GrantedAppend(cfg, front, now);
    GrantIffWithinEnvelope(cfg, front, now);
    EnvelopeExtends(cfg, theirs, now);
    if n == 0 {
      assert Ahead(cfg, ours, theirs, now);
      AheadIsKept(cfg, ours, theirs, now, now, Verdict(cfg, front, now), choice[n]);
    } else {
      NondecreasingPrefix(front, now);
      StayAhead(cfg, front, choice[..n]);
      AheadIsKept(cfg, ours, theirs, front[n - 1], now, Verdict(cfg, front, now), choice[n]);
    }
  }

  /** Main result: at every prefix of every request stream no envelope-respecting choice has granted more. */
  lemma GreedyIsOptimal(cfg: Config, ts: seq<real>, choice: seq<bool>, n: nat)
    requires cfg.refillPerSec >= 0.0
    requires Nondecreasing(ts) && |choice| == |ts|
    requires WithinEnvelope(cfg, Pick(ts, choice))
    requires n <= |ts|
    ensures |Pick(ts[..n], choice[..n])| <= |Granted(cfg, ts[..n])|
  {
    PickPrefix(ts, choice, n);
    NondecreasingUpTo(ts, n);
    EnvelopePrefix(cfg, Pick(ts[..n], choice[..n]), Pick(ts, choice));
    hide Pick, Granted, WithinEnvelope, Nondecreasing, Level;
    if n > 0 {
      StayAhead(cfg, ts[..n], choice[..n]);
    } else {
      assert ts[..n] == [];
    }
  }

  lemma EnvelopePrefix(cfg: Config, some: seq<real>, all: seq<real>)
    requires WithinEnvelope(cfg, all) && some <= all
    ensures WithinEnvelope(cfg, some)
  {
    hide Credit;
    assert forall i :: 0 <= i < |some| ==> some[i] == all[i];
  }

  lemma {:induction false} NondecreasingUpTo(ts: seq<real>, n: nat)
    requires Nondecreasing(ts) && n <= |ts|
    ensures Nondecreasing(ts[..n])
  {
    if n < |ts| {
      NondecreasingUpTo(ts[..|ts| - 1], n);
      assert ts[..|ts| - 1][..n] == ts[..n];
    } else {
      assert ts[..n] == ts;
    }
  }

  lemma {:induction false} PickPrefix<T>(s: seq<T>, mask: seq<bool>, n: nat)
    requires |s| == |mask| && n <= |s|
    ensures Pick(s[..n], mask[..n]) <= Pick(s, mask)
  {
    if n == |s| {
      assert s[..n] == s && mask[..n] == mask;
    } else {
      var m := |s| - 1;
      PickPrefix(s[..m], mask[..m], n);
      assert s[..m][..n] == s[..n] && mask[..m][..n] == mask[..n];
    }
  }

  // ---------- Denials ----------

  /** A request list and the same list with some denied calls deleted, so far indistinguishable. */
  ghost predicate SameVerdicts(cfg: Config, ts: seq<real>, keep: seq<bool>)
    requires |ts| == |keep|
  {
    && Nondecreasing(Pick(ts, keep))
    && (Pick(ts, keep) != [] ==> ts != [] && Pick(ts, keep)[|Pick(ts, keep)| - 1] <= ts[|ts| - 1])
    && Granted(cfg, Pick(ts, keep)) == Granted(cfg, ts)
    && Verdicts(cfg, Pick(ts, keep)) == Pick(Verdicts(cfg, ts), keep)
  }

  lemma SameVerdictsAfterOneMore(cfg: Config, ts: seq<real>, keep: seq<bool>, now: real, kept: bool)
    requires cfg.refillPerSec >= 0.0 && |ts| == |keep|
    requires Nondecreasing(ts + [now])
    requires kept || !Verdict(cfg, ts, now)
    requires SameVerdicts(cfg, ts, keep)
    ensures SameVerdicts(cfg, ts + [now], keep + [kept])
  {
    hide Pick, Verdicts, Verdict, Granted, Nondecreasing, Level, WithinEnvelope;
    var some := Pick(ts, keep);
    NondecreasingPrefix(ts, now);
    NondecreasingPrefix(some, now);
    PickAppend(ts, keep, now, kept);
    PickAppend(Verdicts(cfg, ts), keep, Verdict(cfg, ts, now), kept);
    GrantedAppend(cfg, ts, now);
    GrantIffWithinEnvelope(cfg, ts, now);
    if kept {
      GrantedAppend(cfg, some, now);
      GrantIffWithinEnvelope(cfg, some, now);
    }
  }

  /**
    Main result: denied calls leave no trace. Deleting any set of denied calls from a stream
    leaves every other verdict, and hence the grants, as they were.
  */
  lemma {:induction false} DenialsAreNeutral(cfg: Config, ts: seq<real>, keep: seq<bool>)
    requires cfg.refillPerSec >= 0.0
    requires Nondecreasing(ts) && |keep| == |ts|
    requires forall i :: 0 <= i < |ts| ==> keep[i] || !Verdicts(cfg, ts)[i]
    ensures SameVerdicts(cfg, ts, keep)
  {
    hide Pick, Granted, Level, WithinEnvelope, Acquire;
    if ts == [] {
      assert SameVerdicts(cfg, ts, keep) by { NothingPicked(cfg, ts, keep); }
    } else {
      var n := |ts| - 1;
      var front, now := ts[..n], ts[n];
      assert ts == front + [now] && keep == keep[..n] + [keep[n]];
      NondecreasingPrefix(front, now);
      GrantedAppend(cfg, front, now);
      assert forall i :: 0 <= i < n ==> keep[..n][i] == keep[i] && Verdicts(cfg, front)[i] == Verdicts(cfg, ts)[i];
      DenialsAreNeutral(cfg, front, keep[..n]);
      SameVerdictsAfterOneMore(cfg, front, keep[..n], now, keep[n]);
    }
  }

  lemma NothingPicked(cfg: Config, ts: seq<real>, keep: seq<bool>)
    requires ts == [] && keep == []
    ensures SameVerdicts(cfg, ts, keep)
  {
  }

  /** Grants never overdraw: the tightest window always has room for zero. */
  lemma {:induction false} LevelNonnegative(cfg: Config, ts: seq<real>)
    requires cfg.refillPerSec >= 0.0 && cfg.capacity >= 0.0
    requires Nondecreasing(ts) && ts != []
    ensures Level(cfg, Granted(cfg, ts), ts[|ts| - 1]) >= 0.0
  {
    TokensInRange(cfg, ts);
    BucketIsTightestWindow(cfg, ts);
  }

  /**
    A denied client that waits for one token's worth of refill is served; the calls up to the retry
    may include further ones, so long as none of them was granted.
  */
  lemma RetryAfterDenialIsGranted(cfg: Config, ts: seq<real>, denied: real, upToRetry: seq<real>, retry: real)
    requires cfg.capacity >= 1.0 && cfg.refillPerSec > 0.0
    requires Nondecreasing(upToRetry + [retry])
    requires ts + [denied] <= upToRetry && !Verdict(cfg, ts, denied)
    requires Granted(cfg, upToRetry) == Granted(cfg, ts)
    requires retry >= denied + 1000.0 / cfg.refillPerSec
    ensures Verdict(cfg, upToRetry, retry)
  {
    hide Credit, WithinEnvelope, Level, Acquire, Pick, Nondecreasing, Granted, After, Verdict;
    RoomAfterDenial(cfg, ts, denied, upToRetry + [retry]);
    GrantIffWithinEnvelope(cfg, upToRetry, retry);
    OneTokenRefills(cfg, retry - denied);
    LevelAfterWait(cfg, Granted(cfg, ts), denied, retry);
  }

  lemma RoomAfterDenial(cfg: Config, ts: seq<real>, denied: real, all: seq<real>)
    requires cfg.refillPerSec >= 0.0 && cfg.capacity >= 0.0
    requires Nondecreasing(all) && ts + [denied] <= all && !Verdict(cfg, ts, denied)
    ensures Level(cfg, Granted(cfg, ts), denied) >= 0.0
  {
    hide Credit, WithinEnvelope, Level, Acquire, Pick, Nondecreasing, Granted, After, Verdict;
    var upTo := ts + [denied];
    assert all[..|upTo|] == upTo;
    NondecreasingUpTo(all, |upTo|);
    GrantedAppend(cfg, ts, denied);
    LevelNonnegative(cfg, upTo);
  }

  lemma OneTokenRefills(cfg: Config, ms: real)
    requires cfg.refillPerSec > 0.0
    requires ms >= 1000.0 / cfg.refillPerSec
    ensures ms >= 0.0
    ensures Credit(cfg, ms) >= 1.0
  {
    var d := 1000.0 / cfg.refillPerSec;
    assert Credit(cfg, d) == 1.0 by {
      assert d * cfg.refillPerSec == 1000.0;
      assert d / 1000.0 * cfg.refillPerSec == d * cfg.refillPerSec / 1000.0;
    }
    CreditMonotone(cfg, d, ms);
  }

  // ---------- Arbitrary clocks ----------

  function Latest(ts: seq<real>): real
    requires ts != []
  {
    if |ts| == 1 then ts[0]
    else
      var m := Latest(ts[..|ts| - 1]);
      if m <= ts[|ts| - 1] then ts[|ts| - 1] else m
  }

  /** On any clock, even one that jumps backwards, tokens stay between zero and the capacity. */
  lemma {:induction false} TokensInRange(cfg: Config, ts: seq<real>)
    requires cfg.refillPerSec >= 0.0 && cfg.capacity >= 0.0
    requires ts != []
    ensures 0.0 <= After(cfg, ts).value.tokens <= cfg.capacity
  {
    hide Credit;
    CreditZero(cfg);
    var n := |ts| - 1;
    if n > 0 {
      TokensInRange(cfg, ts[..n]);
      var b := After(cfg, ts[..n]).value;
      if b.lastRefillMs <= ts[n] {
        CreditMonotone(cfg, 0.0, ts[n] - b.lastRefillMs);
      }
    }
  }

  /**
    Main result: on any clock, grants plus remaining tokens never exceed the capacity plus what
    refills between the first and the latest time ever seen.
  */
  lemma {:induction false} GrantsBoundedOnAnyClock(cfg: Config, ts: seq<real>)
    requires cfg.refillPerSec >= 0.0 && cfg.capacity >= 0.0
    requires ts != []
    ensures ts[0] <= After(cfg, ts).value.lastRefillMs <= Latest(ts)
    ensures |Granted(cfg, ts)| as real + After(cfg, ts).value.tokens
            <= cfg.capacity + Credit(cfg, After(cfg, ts).value.lastRefillMs - ts[0])
    ensures |Granted(cfg, ts)| as real <= cfg.capacity + Credit(cfg, Latest(ts) - ts[0])
  {
    hide Credit;
    CreditZero(cfg);
    var n := |ts| - 1;
    var front, now := ts[..n], ts[n];
    assert ts == front + [now];
    GrantedAppend(cfg, front, now);
    if n == 0 {
      assert front == [];
    } else {
      GrantsBoundedOnAnyClock(cfg, front);
      var b := After(cfg, front).value;
      if b.lastRefillMs < now {
        CreditAdds(cfg, b.lastRefillMs - ts[0], now - b.lastRefillMs);
      }
    }
    TokensInRange(cfg, ts);
    CreditMonotone(cfg, After(cfg, ts).value.lastRefillMs - ts[0], Latest(ts) - ts[0]);
  }

  // ---------- Counting grants in a window of time ----------

  function CountWithin(times: seq<real>, a: real, b: real): (n: nat)
    ensures n <= |times|
  {
    if times == [] then 0
    else
      CountWithin(times[..|times| - 1], a, b) + if a <= times[|times| - 1] <= b then 1 else 0
  }

  lemma {:induction false} CountedSpan(times: seq<real>, a: real, b: real) returns (i: nat, j: nat)
    requires CountWithin(times, a, b) > 0
    ensures i <= j < |times| && a <= times[i] && times[j] <= b
    ensures CountWithin(times, a, b) <= j - i + 1
  {
    var n := |times| - 1;
    if a <= times[n] <= b {
      if CountWithin(times[..n], a, b) == 0 {
        i, j := n, n;
      } else {
        i, j := CountedSpan(times[..n], a, b);
        j := n;
      }
    } else {
      i, j := CountedSpan(times[..n], a, b);
    }
  }

  /** The envelope, read on wall-clock windows: any window [a, b] holds at most capacity plus its refill. */
  lemma WindowHoldsAtMost(cfg: Config, times: seq<real>, a: real, b: real)
    requires cfg.refillPerSec >= 0.0 && cfg.capacity >= 0.0
    requires WithinEnvelope(cfg, times)
    requires a <= b
    ensures CountWithin(times, a, b) as real <= cfg.capacity + Credit(cfg, b - a)
  {
    CreditZero(cfg);
    CreditMonotone(cfg, 0.0, b - a);
    hide Credit;
    if CountWithin(times, a, b) > 0 {
      var i, j := CountedSpan(times, a, b);
      CreditMonotone(cfg, times[j] - times[i], b - a);
    }
  }

  // ---------- Many keys, and the limiter object ----------

  datatype Call = Request(key: string, now: real) | Drop(key: string)

  function Serve(cfg: Config, buckets: map<string, Bucket>, call: Call): map<string, Bucket> {
    match call
    case Request(key, now) => buckets[key := Acquire(cfg, Get(buckets, key), now).0]
    case Drop(key) => buckets - {key}
  }

  function Replay(cfg: Config, log: seq<Call>): map<string, Bucket> {
    if log == [] then map[] else Serve(cfg, Replay(cfg, log[..|log| - 1]), log[|log| - 1])
  }

  /** The times of the requests on key after its last release. */
  function Since(log: seq<Call>, key: string): seq<real> {
    if log == [] then []
    else
      var before, last := Since(log[..|log| - 1], key), log[|log| - 1];
      if last.key != key then before
      else if last.Drop? then []
      else before + [last.now]
  }

  /** A key's bucket depends on that key's own requests since its last release, and on nothing else. */
  lemma {:induction false} KeysAreIndependent(cfg: Config, log: seq<Call>, key: string)
    ensures Get(Replay(cfg, log), key) == After(cfg, Since(log, key))
  {
    hide Acquire;
    if log != [] {
      var n := |log| - 1;
      KeysAreIndependent(cfg, log[..n], key);
      if log[n].key == key && log[n].Request? {
        GrantedAppend(cfg, Since(log[..n], key), log[n].now);
      }
    }
  }

  /**
    Main result: whatever the interleaving of keys and whatever the clock does, grants on a key
    between two releases never exceed the capacity plus the refill of the time that key has seen.
  */
  lemma KeyGrantsBounded(cfg: Config, log: seq<Call>, key: string)
    requires cfg.refillPerSec >= 0.0 && cfg.capacity >= 0.0
    requires Since(log, key) != []
    ensures key in Replay(cfg, log) && 0.0 <= Replay(cfg, log)[key].tokens <= cfg.capacity
    ensures var ts := Since(log, key);
            |Granted(cfg, ts)| as real <= cfg.capacity + Credit(cfg, Latest(ts) - ts[0])
  {
    hide Credit, Acquire;
    KeysAreIndependent(cfg, log, key);
    TokensInRange(cfg, Since(log, key));
    GrantsBoundedOnAnyClock(cfg, Since(log, key));
  }

  /** The limiter. Its ghost log ties every reachable state to a run of the functions above. */
  class TokenBucketRateLimiter {
    var buckets: map<string, Bucket>
    const capacity: real
    const refillPerSec: real
    ghost var log: seq<Call>

    ghost function Cfg(): Config {
      Config(capacity, refillPerSec)
    }

    ghost predicate Valid()
      reads this
    {
      buckets == Replay(Cfg(), log)
    }

    constructor (capacity: Option<real>, refillPerSec: Option<real>)
      ensures Valid() && log == []
      ensures this.capacity == if capacity.Some? then capacity.value else 30.0
      ensures this.refillPerSec == if refillPerSec.Some? then refillPerSec.value else 15.0
    {
      this.capacity := if capacity.Some? then capacity.value else DEFAULT_CAPACITY;
      this.refillPerSec := if refillPerSec.Some? then refillPerSec.value else DEFAULT_REFILL_PER_SEC;
      buckets := map[];
      log := [];
    }

    /** The verdict is the one the key's own history calls for; no other bucket changes. */
    method TryAcquire(key: string, now: real) returns (allowed: bool)
      requires Valid()
      modifies this
      ensures Valid() && log == old(log) + [Request(key, now)]
      ensures allowed == Verdict(Cfg(), Since(old(log), key), now)
      ensures buckets == Serve(Cfg(), old(buckets), Request(key, now))
      ensures allowed == Acquire(Cfg(), Get(old(buckets), key), now).1
    {
      KeysAreIndependent(Cfg(), log, key);
      allowed := TakeToken(key, now);
      log := log + [Request(key, now)];
      assert log[..|log| - 1] == old(log);
    }

    method TakeToken(key: string, now: real) returns (allowed: bool)
      modifies this`buckets
      ensures buckets == old(buckets)[key := Acquire(Cfg(), Get(old(buckets), key), now).0]
      ensures allowed == Acquire(Cfg(), Get(old(buckets), key), now).1
    {
      hide Credit;
      var bucket;
      if key !in buckets {
        bucket := Bucket(capacity, now);
        buckets := buckets[key := bucket];
      } else {
        bucket := buckets[key];
        var elapsed := (now - bucket.lastRefillMs) / 1000.0;
        ElapsedCredit(Cfg(), now - bucket.lastRefillMs);
        if elapsed > 0.0 {
          bucket := Bucket(Min(capacity, bucket.tokens + elapsed * refillPerSec), now);
          buckets := buckets[key := bucket];
        }
      }
      assert buckets == old(buckets)[key := bucket];
      allowed := bucket.tokens >= 1.0;
      if allowed {
        bucket := bucket.(tokens := bucket.tokens - 1.0);
        buckets := buckets[key := bucket];
      }
      assert bucket == Acquire(Cfg(), Get(old(buckets), key), now).0;
      assert buckets == old(buckets)[key := bucket];
    }

    method Release(key: string)
      requires Valid()
      modifies this
      ensures Valid() && log == old(log) + [Drop(key)]
      ensures buckets == old(buckets) - {key}
    {
      buckets := buckets - {key};
      log := log + [Drop(key)];
      assert log[..|log| - 1] == old(log);
    }

    method Peek(key: string) returns (tokens: Option<real>)
      requires Valid()
      ensures tokens == match After(Cfg(), Since(log, key)) case None => None case Some(b) => Some(b.tokens)
    {
      KeysAreIndependent(Cfg(), log, key);
      tokens := if key in buckets then Some(buckets[key].tokens) else None;
    }
  }
}
