/**
  Refresh-token rotation, src/modules/auth/auth.service.ts, as a protocol over a shared session
  table. A refresh reads the session, deletes it, and creates a successor; each is a separate
  database round trip, and any number of calls interleave.

  A session's id and its token name the same row for life, so rows are keyed by token here.
*/
module RefreshRotation {
  import opened Common

  const REFRESH_TTL_DAYS := 30
  const MS_PER_DAY := 86_400_000

  /** How far the zone's offset from UTC falls between two dates; it is added when counting calendar days. */
  type ZoneShift = ms: int | -2 * MS_PER_DAY <= ms <= 2 * MS_PER_DAY

  datatype Session = Session(userId: string, expiresAt: int)

  /** A refresh call, by the round trip it is suspended at. */
  datatype Call =
    | Reading(token: string)
    | Read(token: string, row: Option<Session>)
    | Deleting(token: string, session: Session)
    | DeletingExpired(token: string)
    | Rotated(token: string, session: Session)

  /** A refresh that returned a new token to its caller. */
  datatype Success = Success(call: nat, token: string, successor: string)

  /**
    The table, the calls in flight and the clock; and, for the statements only, every token ever
    issued with the login it descends from, the number of logins, and the successes so far.
  */
  datatype World = World(sessions: map<string, Session>, calls: map<nat, Call>, now: int,
                         family: map<string, nat>, logins: nat, successes: seq<Success>)

  datatype Action =
    | Tick(ms: nat)
    | Login(userId: string, token: string, shift: ZoneShift)
    | Begin(call: nat, token: string)
    | ReadRow(call: nat)
    | Check(call: nat)
    | DeleteRow(call: nat)
    | CreateRow(call: nat, token: string, shift: ZoneShift)
    | Fail(call: nat)
    | Revoke(token: string)
    | Cleanup

  function Start(now: int): World {
    World(map[], map[], now, map[], 0, [])
  }

  /** Thirty calendar days of local time from now. */
  function NewSession(userId: string, now: int, shift: ZoneShift): Session {
    Session(userId, now + REFRESH_TTL_DAYS * MS_PER_DAY + shift)
  }

  predicate Expired(s: Session, now: int) {
    s.expiresAt < now
  }

  /** One step; an action that is not enabled does nothing. New tokens are random: never one issued before. */
  function Next(w: World, a: Action): World {
    match a
    case Tick(ms) => w.(now := w.now + ms)
    case Login(userId, token, shift) =>
      if token in w.family then w
      else w.(sessions := w.sessions[token := NewSession(userId, w.now, shift)],
              family := w.family[token := w.logins], logins := w.logins + 1)
    case Begin(call, token) =>
      if call in w.calls then w else w.(calls := w.calls[call := Reading(token)])
    case ReadRow(call) =>
      if call !in w.calls || !w.calls[call].Reading? then w
      else
        var token := w.calls[call].token;
        w.(calls := w.calls[call := Read(token, Get(w.sessions, token))])
    case Check(call) =>
      if call !in w.calls || !w.calls[call].Read? then w
      else (
        match w.calls[call].row
        case None => w.(calls := w.calls - {call})
        case Some(s) =>
          var token := w.calls[call].token;
          w.(calls := w.calls[call := if Expired(s, w.now) then DeletingExpired(token) else Deleting(token, s)])
      )
    case DeleteRow(call) =>
      if call !in w.calls then w
      else (
        match w.calls[call]
        case DeletingExpired(token) => w.(calls := w.calls - {call}, sessions := w.sessions - {token})
        case Deleting(token, s) =>
          // deleting a row that is gone throws, and the call ends
          if token in w.sessions
          then w.(calls := w.calls[call := Rotated(token, s)], sessions := w.sessions - {token})
          else w.(calls := w.calls - {call})
        case _ => w
      )
    case CreateRow(call, token, shift) =>
      // a token in rotation always has a family; Recorded shows it
      if call !in w.calls || !w.calls[call].Rotated? || token in w.family || w.calls[call].token !in w.family then w
      else
        var c := w.calls[call];
        World(w.sessions[token := NewSession(c.session.userId, w.now, shift)], w.calls - {call}, w.now,
              w.family[token := w.family[c.token]], w.logins, w.successes + [Success(call, c.token, token)])
    case Fail(call) => w.(calls := w.calls - {call})
    case Revoke(token) => w.(sessions := w.sessions - {token})
    case Cleanup =>
      w.(sessions := map t | t in w.sessions && !Expired(w.sessions[t], w.now) :: w.sessions[t])
  }

  function Play(w: World, actions: seq<Action>): World {
    if actions == [] then w else Next(Play(w, actions[..|actions| - 1]), actions[|actions| - 1])
  }

  // ---------- Invariant ----------

  predicate SameFamily(w: World, t1: string, t2: string) {
    t1 in w.family && t2 in w.family && w.family[t1] == w.family[t2]
  }

  /** Of each login at most one thing is left: one live session, or one rotation under way. */
  ghost predicate OneHolderPerLogin(w: World) {
    && (forall t1, t2 :: t1 in w.sessions && t2 in w.sessions && SameFamily(w, t1, t2) ==> t1 == t2)
    && (forall t, c :: t in w.sessions && c in w.calls && w.calls[c].Rotated? ==> !SameFamily(w, t, w.calls[c].token))
    && (forall c1, c2 ::
          c1 in w.calls && c2 in w.calls && w.calls[c1].Rotated? && w.calls[c2].Rotated? ==>
            SameFamily(w, w.calls[c1].token, w.calls[c2].token) ==> c1 == c2)
  }

  /** A token already exchanged: it has no row, and no rotation of it is under way. */
  ghost predicate Spent(w: World, token: string) {
    && token in w.family && token !in w.sessions
    && forall c :: c in w.calls && w.calls[c].Rotated? ==> w.calls[c].token != token
  }

  ghost predicate Recorded(w: World) {
    && (forall t :: t in w.sessions ==> t in w.family)
    && (forall t :: t in w.family ==> w.family[t] < w.logins)
    && (forall c :: c in w.calls && w.calls[c].Rotated? ==>
          w.calls[c].token in w.family && w.calls[c].token !in w.sessions)
  }

  ghost predicate SuccessesSpent(w: World) {
    && (forall s :: s in w.successes ==>
          Spent(w, s.token) && SameFamily(w, s.token, s.successor) && s.token != s.successor)
    && (forall i, j :: 0 <= i < j < |w.successes| ==>
          w.successes[i].token != w.successes[j].token && w.successes[i].successor != w.successes[j].successor)
  }

  ghost predicate Inv(w: World) {
    Recorded(w) && OneHolderPerLogin(w) && SuccessesSpent(w)
  }

  /** Removing rows and calls, or moving calls between pcs that hold nothing, keeps the invariant. */
  lemma FewerHoldersKeepInv(w: World, w': World)
    requires Inv(w)
    requires forall t :: t in w'.sessions ==> t in w.sessions
    requires forall c :: c in w'.calls && w'.calls[c].Rotated? ==>
               c in w.calls && w.calls[c].Rotated? && w.calls[c].token == w'.calls[c].token
    requires w'.family == w.family && w'.logins == w.logins && w'.successes == w.successes
    ensures Inv(w')
  {
  }

  lemma LoginKeepsInv(w: World, userId: string, token: string, shift: ZoneShift)
    requires Inv(w)
    ensures Inv(Next(w, Login(userId, token, shift)))
  {
  }

  lemma DeleteRowKeepsInv(w: World, call: nat)
    requires Inv(w) && call in w.calls && w.calls[call].Deleting? && w.calls[call].token in w.sessions
    ensures Inv(Next(w, DeleteRow(call)))
  {
    var w' := Next(w, DeleteRow(call));
    assert OneHolderPerLogin(w');
  }

  ghost predicate CreateEnabled(w: World, call: nat, token: string) {
    call in w.calls && w.calls[call].Rotated? && token !in w.family && w.calls[call].token in w.family
  }

  lemma CreateRowKeepsHolders(w: World, call: nat, token: string, shift: ZoneShift)
    requires Recorded(w) && OneHolderPerLogin(w) && CreateEnabled(w, call, token)
    ensures Recorded(Next(w, CreateRow(call, token, shift)))
    ensures OneHolderPerLogin(Next(w, CreateRow(call, token, shift)))
  {
    var w' := Next(w, CreateRow(call, token, shift));
    var f := w.family[w.calls[call].token];
    assert forall t :: t in w.sessions ==> w.family[t] != f;
    assert forall c :: c in w.calls && c != call && w.calls[c].Rotated? ==> w.family[w.calls[c].token] != f;
    assert forall t :: t in w.family ==> w'.family[t] == w.family[t];
  }

  lemma CreateRowKeepsSpent(w: World, call: nat, token: string, shift: ZoneShift)
    requires Recorded(w) && SuccessesSpent(w) && CreateEnabled(w, call, token)
    requires forall c :: c in w.calls && c != call && w.calls[c].Rotated? ==> w.calls[c].token != w.calls[call].token
    ensures SuccessesSpent(Next(w, CreateRow(call, token, shift)))
  {
    var w', spent := Next(w, CreateRow(call, token, shift)), w.calls[call].token;
    forall s | s in w.successes
      ensures s.token != spent && s.successor != token && Spent(w', s.token) && SameFamily(w', s.token, s.successor)
    {
      assert Spent(w, s.token) && SameFamily(w, s.token, s.successor);
    }
    assert Spent(w', spent);
    forall i | 0 <= i < |w.successes| ensures w.successes[i] in w.successes {
    }
  }

  lemma CreateRowKeepsInv(w: World, call: nat, token: string, shift: ZoneShift)
    requires Inv(w)
    ensures Inv(Next(w, CreateRow(call, token, shift)))
  {
    if CreateEnabled(w, call, token) {
      CreateRowKeepsHolders(w, call, token, shift);
      CreateRowKeepsSpent(w, call, token, shift);
    }
  }

  lemma NextKeepsInv(w: World, a: Action)
    requires Inv(w)
    ensures Inv(Next(w, a))
  {
    match a
    case Login(userId, token, shift) => LoginKeepsInv(w, userId, token, shift);
    case CreateRow(call, token, shift) => CreateRowKeepsInv(w, call, token, shift);
    case DeleteRow(call) =>
      if call in w.calls && w.calls[call].Deleting? && w.calls[call].token in w.sessions {
        DeleteRowKeepsInv(w, call);
      } else {
        FewerHoldersKeepInv(w, Next(w, a));
      }
    case _ => FewerHoldersKeepInv(w, Next(w, a));
  }

  lemma {:induction false} PlayKeepsInv(now: int, actions: seq<Action>)
    ensures Inv(Play(Start(now), actions))
  {
    if actions != [] {
      PlayKeepsInv(now, actions[..|actions| - 1]);
      NextKeepsInv(Play(Start(now), actions[..|actions| - 1]), actions[|actions| - 1]);
    }
  }

  // ---------- Results over every interleaving ----------

  /** Main result: no token is exchanged twice, and no two exchanges yield the same successor. */
  lemma EachTokenExchangedOnce(now: int, actions: seq<Action>, i: nat, j: nat)
    requires i < j < |Play(Start(now), actions).successes|
    ensures var done := Play(Start(now), actions).successes;
            done[i].token != done[j].token && done[i].successor != done[j].successor
  {
    PlayKeepsInv(now, actions);
  }

  /** Main result: what is live or in rotation never outnumbers the logins, and each login has at most one. */
  lemma HoldersBoundedByLogins(now: int, actions: seq<Action>)
    ensures var w := Play(Start(now), actions);
            OneHolderPerLogin(w) && |w.sessions| + |Rotations(w)| <= w.logins
  {
    PlayKeepsInv(now, actions);
    CountHolders(Play(Start(now), actions));
  }

  function Rotations(w: World): set<nat> {
    set c | c in w.calls && w.calls[c].Rotated?
  }

  function Below(n: nat): (s: set<nat>)
    ensures |s| == n && forall i :: i in s <==> 0 <= i < n
  {
    if n == 0 then {} else Below(n - 1) + {n - 1}
  }

  ghost predicate Injective<K>(m: map<K, nat>) {
    forall x, y :: x in m && y in m && m[x] == m[y] ==> x == y
  }

  lemma {:induction false} InjectiveSize<K>(m: map<K, nat>)
    requires Injective(m)
    ensures |m.Values| == |m|
    decreases |m|
  {
    if m != map[] {
      var x :| x in m;
      InjectiveSize(m - {x});
      ValuesWithout(m, x);
      assert m.Keys == (m - {x}).Keys + {x};
    }
  }

  lemma ValuesWithout<K>(m: map<K, nat>, x: K)
    requires Injective(m) && x in m
    ensures |m.Values| == |(m - {x}).Values| + 1
  {
    var rest := (m - {x}).Values;
    forall v | v in m.Values ensures v in rest + {m[x]} {
      var y :| y in m && m[y] == v;
      assert y == x || (y in m - {x} && (m - {x})[y] == v);
    }
    assert m.Values == rest + {m[x]};
    assert m[x] !in rest;
  }

  lemma DisjointSizes(a: set<nat>, b: set<nat>, n: nat)
    requires a !! b && a <= Below(n) && b <= Below(n)
    ensures |a| + |b| <= n
  {
    hide Below;
    assert |a + b| == |a| + |b|;
    assert Below(n) == (a + b) + (Below(n) - (a + b));
  }

  ghost function LiveLogins(w: World): map<string, nat>
    requires Recorded(w)
  {
    map t | t in w.sessions :: w.family[t]
  }

  ghost function RotationLogins(w: World): map<nat, nat>
    requires Recorded(w)
  {
    map c | c in Rotations(w) :: w.family[w.calls[c].token]
  }

  lemma HoldersInjectIntoLogins(w: World)
    requires Inv(w)
    ensures Injective(LiveLogins(w)) && Injective(RotationLogins(w))
    ensures LiveLogins(w).Values !! RotationLogins(w).Values
    ensures LiveLogins(w).Values <= Below(w.logins) && RotationLogins(w).Values <= Below(w.logins)
  {
  }

  lemma CountHolders(w: World)
    requires Inv(w)
    ensures |w.sessions| + |Rotations(w)| <= w.logins
  {
    HoldersInjectIntoLogins(w);
    assert LiveLogins(w).Keys == w.sessions.Keys && RotationLogins(w).Keys == Rotations(w);
    hide OneHolderPerLogin, SuccessesSpent, Recorded, Below, Rotations, LiveLogins, RotationLogins, Injective;
    InjectiveSize(LiveLogins(w));
    InjectiveSize(RotationLogins(w));
    DisjointSizes(LiveLogins(w).Values, RotationLogins(w).Values, w.logins);
  }

  // ---------- Logout ----------

  /** Nothing of login f is left, so nothing of it can come back. */
  ghost predicate Dead(w: World, f: nat) {
    && f < w.logins
    && (forall t :: t in w.sessions && t in w.family ==> w.family[t] != f)
    && (forall c :: c in w.calls && w.calls[c].Rotated? && w.calls[c].token in w.family ==>
          w.family[w.calls[c].token] != f)
  }

  lemma NextKeepsDead(w: World, a: Action, f: nat)
    requires Inv(w) && Dead(w, f)
    ensures Dead(Next(w, a), f)
    ensures forall i :: |w.successes| <= i < |Next(w, a).successes| ==>
              Next(w, a).successes[i].token in w.family && w.family[Next(w, a).successes[i].token] != f
  {
  }

  /** A logout leaves nothing of its login iff it finds the token's row, or nothing was left before. */
  lemma RevokeEndsLoginIff(w: World, token: string)
    requires Inv(w) && token in w.family
    ensures Dead(Next(w, Revoke(token)), w.family[token]) <==> token in w.sessions || Dead(w, w.family[token])
  {
    var w', f := Next(w, Revoke(token)), w.family[token];
    if token !in w.sessions {
      assert w' == w;
    } else {
      assert SameFamily(w, token, token);
      forall t | t in w'.sessions ensures w.family[t] != f {
        assert t in w.sessions && t != token;
      }
    }
  }

  /** Main result: revoking a live token ends its login for good, whatever calls are in flight or come later. */
  lemma {:induction false} RevokingLiveTokenIsFinal(w: World, token: string, later: seq<Action>)
    requires Inv(w) && token in w.sessions
    ensures Inv(Play(Next(w, Revoke(token)), later))
    ensures Dead(Play(Next(w, Revoke(token)), later), w.family[token])
  {
    if later == [] {
      NextKeepsInv(w, Revoke(token));
    } else {
      var front := later[..|later| - 1];
      RevokingLiveTokenIsFinal(w, token, front);
      NextKeepsInv(Play(Next(w, Revoke(token)), front), later[|later| - 1]);
      NextKeepsDead(Play(Next(w, Revoke(token)), front), later[|later| - 1], w.family[token]);
    }
  }

  /** An error between delete and create ends the login: its session is gone and no successor comes. */
  lemma FailureMidwayEndsLogin(w: World, call: nat)
    requires Inv(w) && call in w.calls && w.calls[call].Rotated?
    ensures Dead(Next(w, Fail(call)), w.family[w.calls[call].token])
  {
    assert SameFamily(w, w.calls[call].token, w.calls[call].token);
    var f := w.family[w.calls[call].token];
    forall t | t in w.sessions ensures w.family[t] != f {
      assert !SameFamily(w, t, w.calls[call].token);
    }
  }

  /** Some session that descends from login f is live. */
  ghost predicate HasSession(w: World, f: nat) {
    exists t :: t in w.sessions && t in w.family && w.family[t] == f
  }

  /** Whatever happens later, no session of login f is live. */
  ghost predicate NeverReturns(w: World, f: nat) {
    forall later: seq<Action> :: !HasSession(Play(w, later), f)
  }

  lemma {:induction false} DeadStaysDead(w: World, f: nat, later: seq<Action>)
    requires Inv(w) && Dead(w, f)
    ensures Inv(Play(w, later)) && Dead(Play(w, later), f)
  {
    if later != [] {
      var front := later[..|later| - 1];
      DeadStaysDead(w, f, front);
      NextKeepsInv(Play(w, front), later[|later| - 1]);
      NextKeepsDead(Play(w, front), later[|later| - 1], f);
    }
  }

  lemma {:induction false} LengthBeyond(used: set<string>) returns (n: nat)
    ensures forall t :: t in used ==> |t| < n
    decreases |used|
  {
    if used == {} {
      n := 0;
    } else {
      var t :| t in used;
      n := LengthBeyond(used - {t});
      n := if |t| < n then n else |t| + 1;
    }
  }

  lemma UnusedToken(used: set<string>) returns (token: string)
    ensures token !in used
  {
    var n := LengthBeyond(used);
    token := seq(n, i => 'a');
  }

  /** What is left of a login can still come back: a live session is there, a rotation has one to create. */
  lemma NotDeadCanReturn(w: World, f: nat) returns (later: seq<Action>)
    requires Recorded(w) && f < w.logins && !Dead(w, f)
    ensures HasSession(Play(w, later), f)
  {
    if HasSession(w, f) {
      later := [];
    } else {
      var c :| c in w.calls && w.calls[c].Rotated? && w.calls[c].token in w.family && w.family[w.calls[c].token] == f;
      var token := UnusedToken(w.family.Keys);
      var create := CreateRow(c, token, 0);
      later := [create];
      assert later[..0] == [] && Play(w, later) == Next(w, create);
      assert token in Next(w, create).sessions && Next(w, create).family[token] == f;
    }
  }

  /** Main result: a login can never come back iff no session and no rotation of it is left. */
  lemma NeverReturnsIff(w: World, f: nat)
    requires Inv(w) && f < w.logins
    ensures NeverReturns(w, f) <==> Dead(w, f)
  {
    if Dead(w, f) {
      forall later: seq<Action> ensures !HasSession(Play(w, later), f) {
        DeadStaysDead(w, f, later);
      }
    } else {
      var later := NotDeadCanReturn(w, f);
      hide HasSession;
      assert HasSession(Play(w, later), f);
    }
  }

  /**
    Main result: after a logout no later run, with whatever is in flight, has a session of that login
    again iff the logout found the row of its token, or the login was over before.
  */
  lemma LogoutIsFinalIff(w: World, token: string)
    requires Inv(w) && token in w.family
    ensures NeverReturns(Next(w, Revoke(token)), w.family[token]) <==> token in w.sessions || Dead(w, w.family[token])
  {
    NextKeepsInv(w, Revoke(token));
    assert Next(w, Revoke(token)).logins == w.logins && w.family[token] < w.logins;
    hide Next, NeverReturns, Dead, Inv;
    NeverReturnsIff(Next(w, Revoke(token)), w.family[token]);
    RevokeEndsLoginIff(w, token);
  }

  lemma PlayOneMore(w: World, actions: seq<Action>, a: Action)
    ensures Play(w, actions + [a]) == Next(Play(w, actions), a)
  {
    assert (actions + [a])[..|actions|] == actions;
  }

  lemma LoginThenDelete(now: int, userId: string, t1: string)
    ensures var s := NewSession(userId, now, 0);
            Play(Start(now), [Login(userId, t1, 0), Begin(0, t1), ReadRow(0), Check(0), DeleteRow(0)]) ==
            World(map[], map[0 := Rotated(t1, s)], now, map[t1 := 0], 1, [])
  {
    var w0, s := Start(now), NewSession(userId, now, 0);
    var w1 := World(map[t1 := s], map[], now, map[t1 := 0], 1, []);
    var as1 := [Login(userId, t1, 0)];
    var as2 := as1 + [Begin(0, t1)];
    var as3 := as2 + [ReadRow(0)];
    var as4 := as3 + [Check(0)];
    PlayOneMore(w0, [], Login(userId, t1, 0));
    assert Next(w0, Login(userId, t1, 0)) == w1;
    ReadAndCheck(w1, 0, t1);
    var w4 := World(map[t1 := s], map[0 := Deleting(t1, s)], now, map[t1 := 0], 1, []);
    assert Next(Next(Next(w1, Begin(0, t1)), ReadRow(0)), Check(0)) == w4;
    assert Next(w4, DeleteRow(0)) == World(map[], map[0 := Rotated(t1, s)], now, map[t1 := 0], 1, []);
    hide Next, Play;
    PlayOneMore(w0, as1, Begin(0, t1));
    PlayOneMore(w0, as2, ReadRow(0));
    PlayOneMore(w0, as3, Check(0));
    PlayOneMore(w0, as4, DeleteRow(0));
    assert [] + as1 == as1;
    assert as4 + [DeleteRow(0)] == [Login(userId, t1, 0), Begin(0, t1), ReadRow(0), Check(0), DeleteRow(0)];
  }

  /** A logout between the delete and the create of a refresh finds no row, and the login lives on. */
  lemma LogoutMissesRotation(now: int, userId: string, t1: string, t2: string)
    requires t1 != t2
    ensures var w := Play(Start(now), [Login(userId, t1, 0), Begin(0, t1), ReadRow(0), Check(0), DeleteRow(0),
                                       Revoke(t1), CreateRow(0, t2, 0)]);
            t2 in w.sessions && SameFamily(w, t1, t2) && HasSession(w, w.family[t1])
  {
    var w0, s := Start(now), NewSession(userId, now, 0);
    var as5 := [Login(userId, t1, 0), Begin(0, t1), ReadRow(0), Check(0), DeleteRow(0)];
    var w5 := World(map[], map[0 := Rotated(t1, s)], now, map[t1 := 0], 1, []);
    LoginThenDelete(now, userId, t1);
    assert Next(w5, Revoke(t1)) == w5;
    var w7 := Next(w5, CreateRow(0, t2, 0));
    assert t2 in w7.sessions && w7.family == map[t1 := 0, t2 := 0];
    hide Next, Play;
    PlayOneMore(w0, as5, Revoke(t1));
    PlayOneMore(w0, as5 + [Revoke(t1)], CreateRow(0, t2, 0));
    assert as5 + [Revoke(t1)] + [CreateRow(0, t2, 0)] == [Login(userId, t1, 0), Begin(0, t1), ReadRow(0), Check(0),
                                                          DeleteRow(0), Revoke(t1), CreateRow(0, t2, 0)];
  }

  // ---------- One call at a time ----------

  datatype Outcome = Issued(userId: string, token: string) | Unauthorized

  /** A whole refresh with nothing in between. */
  function Rotate(sessions: map<string, Session>, token: string, now: int, newToken: string, shift: ZoneShift)
    : (map<string, Session>, Outcome)
  {
    if token !in sessions then (sessions, Unauthorized)
    else if Expired(sessions[token], now) then (sessions - {token}, Unauthorized)
    else
      var userId := sessions[token].userId;
      ((sessions - {token})[newToken := NewSession(userId, now, shift)], Issued(userId, newToken))
  }

  /** Run undisturbed, the steps of the protocol amount to Rotate. */
  lemma UndisturbedRefresh(w: World, call: nat, token: string, newToken: string, shift: ZoneShift)
    requires Inv(w) && call !in w.calls && newToken !in w.family
    ensures var w1 := Next(Next(Next(w, Begin(call, token)), ReadRow(call)), Check(call));
            var w2 := Next(Next(w1, DeleteRow(call)), CreateRow(call, newToken, shift));
            var (sessions, outcome) := Rotate(w.sessions, token, w.now, newToken, shift);
            && w2.sessions == sessions && w2.calls == w.calls
            && w2.successes == w.successes + if outcome.Issued? then [Success(call, token, newToken)] else []
  {
    ReadAndCheck(w, call, token);
    var w1 := Next(Next(Next(w, Begin(call, token)), ReadRow(call)), Check(call));
    assert w1.calls - {call} == w.calls;
    DeleteAndCreate(w1, call, newToken, shift);
  }

  lemma ReadAndCheck(w: World, call: nat, token: string)
    requires call !in w.calls
    ensures Next(Next(Next(w, Begin(call, token)), ReadRow(call)), Check(call)) ==
            if token !in w.sessions then w
            else w.(calls := w.calls[call := if Expired(w.sessions[token], w.now) then DeletingExpired(token)
                                             else Deleting(token, w.sessions[token])])
  {
    var w2 := Next(Next(w, Begin(call, token)), ReadRow(call));
    assert w2 == w.(calls := w.calls[call := Read(token, Get(w.sessions, token))]);
    assert w2.calls - {call} == w.calls;
  }

  lemma DeleteAndCreate(w: World, call: nat, newToken: string, shift: ZoneShift)
    requires newToken !in w.family
    ensures var w2 := Next(Next(w, DeleteRow(call)), CreateRow(call, newToken, shift));
            && (call !in w.calls ==> w2 == w)
            && (call in w.calls && w.calls[call].DeletingExpired? ==>
                  w2 == w.(calls := w.calls - {call}, sessions := w.sessions - {w.calls[call].token}))
            && (call in w.calls && w.calls[call].Deleting?
                && w.calls[call].token in w.sessions && w.calls[call].token in w.family ==>
                  var c := w.calls[call];
                  && w2.sessions == (w.sessions - {c.token})[newToken := NewSession(c.session.userId, w.now, shift)]
                  && w2.calls == w.calls - {call}
                  && w2.successes == w.successes + [Success(call, c.token, newToken)])
  {
    var w1 := Next(w, DeleteRow(call));
    assert call in w.calls && w.calls[call].Deleting? ==> w1.calls - {call} == w.calls - {call};
  }

  // ---------- Expiry ----------

  /** What a step may newly make of a call. */
  lemma CallMoves(w: World, a: Action, c: nat)
    requires c in Next(w, a).calls && Get(w.calls, c) != Some(Next(w, a).calls[c])
    ensures var now := Next(w, a).calls[c];
            match now
            case Reading(_) => true
            case Read(token, row) => a == ReadRow(c) && row == Get(w.sessions, token)
            case Deleting(token, s) =>
              a == Check(c) && Get(w.calls, c) == Some(Read(token, Some(s))) && w.now <= s.expiresAt
            case DeletingExpired(token) =>
              a == Check(c) && exists s :: Get(w.calls, c) == Some(Read(token, Some(s))) && s.expiresAt < w.now
            case Rotated(token, s) => a == DeleteRow(c) && Get(w.calls, c) == Some(Deleting(token, s))
  {
  }

  /** What a step may newly record. */
  lemma SuccessRecords(w: World, a: Action, s: Success)
    requires s in Next(w, a).successes && s !in w.successes
    ensures a.CreateRow? && a.call == s.call && a.token == s.successor
    ensures s.call in w.calls && w.calls[s.call].Rotated? && w.calls[s.call].token == s.token
    ensures Get(Next(w, a).sessions, s.successor) ==
            Some(Session(w.calls[s.call].session.userId, w.now + 30 * 86_400_000 + a.shift))
  {
  }

  /** The world before action k. */
  function At(now: int, actions: seq<Action>, k: nat): World
    requires k <= |actions|
  {
    Play(Start(now), actions[..k])
  }

  /** The call read this session of the token at step j. */
  predicate ReadAt(now: int, actions: seq<Action>, j: nat, call: nat, token: string, s: Session)
    requires j < |actions|
  {
    actions[j] == ReadRow(call) && Get(At(now, actions, j).sessions, token) == Some(s)
  }

  /** The call compared the session with the clock at step k, and the session had not expired. */
  predicate FoundLiveAt(now: int, actions: seq<Action>, k: nat, call: nat, s: Session)
    requires k < |actions|
  {
    actions[k] == Check(call) && At(now, actions, k).now <= s.expiresAt
  }

  /** The call stored the successor for the session's user at step m, thirty days ahead. */
  predicate IssuedAt(now: int, actions: seq<Action>, m: nat, call: nat, successor: string, s: Session)
    requires m < |actions|
  {
    && actions[m].CreateRow? && actions[m].call == call && actions[m].token == successor
    && Get(At(now, actions, m + 1).sessions, successor) ==
       Some(Session(s.userId, At(now, actions, m).now + 30 * 86_400_000 + actions[m].shift))
  }

  ghost predicate WasRead(now: int, actions: seq<Action>, n: nat, call: nat, token: string, s: Session)
    requires n <= |actions|
  {
    exists j: nat :: j < n && ReadAt(now, actions, j, call, token, s)
  }

  ghost predicate WasFoundLive(now: int, actions: seq<Action>, n: nat, call: nat, s: Session)
    requires n <= |actions|
  {
    exists k: nat :: k < n && FoundLiveAt(now, actions, k, call, s)
  }

  /** The success exchanged a session that its call had read and found unexpired, for one of the same user. */
  ghost predicate InTime(now: int, actions: seq<Action>, n: nat, x: Success)
    requires n <= |actions|
  {
    exists s: Session, m: nat ::
      && m < n && IssuedAt(now, actions, m, x.call, x.successor, s)
      && WasRead(now, actions, m, x.call, x.token, s) && WasFoundLive(now, actions, m, x.call, s)
  }

  ghost predicate CallInTime(now: int, actions: seq<Action>, n: nat, call: nat, c: Call)
    requires n <= |actions|
  {
    match c
    case Read(token, Some(s)) => WasRead(now, actions, n, call, token, s)
    case Deleting(token, s) => WasRead(now, actions, n, call, token, s) && WasFoundLive(now, actions, n, call, s)
    case Rotated(token, s) => WasRead(now, actions, n, call, token, s) && WasFoundLive(now, actions, n, call, s)
    case _ => true
  }

  lemma OneStepOn(now: int, actions: seq<Action>, n: nat)
    requires n < |actions|
    ensures At(now, actions, n + 1) == Next(At(now, actions, n), actions[n])
  {
    assert actions[..n + 1][..n] == actions[..n];
  }

  lemma CallInTimeLater(now: int, actions: seq<Action>, n: nat, call: nat)
    requires n < |actions|
    requires forall c :: c in At(now, actions, n).calls ==> CallInTime(now, actions, n, c, At(now, actions, n).calls[c])
    requires call in At(now, actions, n + 1).calls
    ensures CallInTime(now, actions, n + 1, call, At(now, actions, n + 1).calls[call])
  {
    var w, a := At(now, actions, n), actions[n];
    OneStepOn(now, actions, n);
    var c := Next(w, a).calls[call];
    if Get(w.calls, call) != Some(c) {
      CallMoves(w, a, call);
      hide Next;
      match c
      case Read(token, Some(s)) => assert ReadAt(now, actions, n, call, token, s);
      case Deleting(token, s) => assert FoundLiveAt(now, actions, n, call, s);
      case _ =>
    } else {
      hide Next, At;
    }
  }

  lemma SuccessInTimeLater(now: int, actions: seq<Action>, n: nat, x: Success)
    requires n < |actions|
    requires forall c :: c in At(now, actions, n).calls ==> CallInTime(now, actions, n, c, At(now, actions, n).calls[c])
    requires x in At(now, actions, n + 1).successes && x !in At(now, actions, n).successes
    ensures InTime(now, actions, n + 1, x)
  {
    var w, a := At(now, actions, n), actions[n];
    OneStepOn(now, actions, n);
    SuccessRecords(w, a, x);
    hide Next, At;
    assert IssuedAt(now, actions, n, x.call, x.successor, w.calls[x.call].session);
  }

  lemma {:induction false} AllInTime(now: int, actions: seq<Action>, n: nat)
    requires n <= |actions|
    ensures forall c :: c in At(now, actions, n).calls ==> CallInTime(now, actions, n, c, At(now, actions, n).calls[c])
    ensures forall x :: x in At(now, actions, n).successes ==> InTime(now, actions, n, x)
  {
    if n > 0 {
      AllInTime(now, actions, n - 1);
      hide *;
      forall c | c in At(now, actions, n).calls ensures CallInTime(now, actions, n, c, At(now, actions, n).calls[c]) {
        CallInTimeLater(now, actions, n - 1, c);
      }
      forall x | x in At(now, actions, n).successes ensures InTime(now, actions, n, x) {
        if x in At(now, actions, n - 1).successes {
          InTimeStays(now, actions, n - 1, x);
        } else {
          SuccessInTimeLater(now, actions, n - 1, x);
        }
      }
    } else {
      assert actions[..0] == [];
    }
  }

  lemma InTimeStays(now: int, actions: seq<Action>, n: nat, x: Success)
    requires n < |actions| && InTime(now, actions, n, x)
    ensures InTime(now, actions, n + 1, x)
  {
  }

  /**
    Main result, over every interleaving: whoever got a new token exchanged a session that had not
    expired when its call compared it with the clock, and the new session is the same user's and
    lasts thirty days from its creation.
  */
  lemma OnlyLiveSessionsExchanged(now: int, actions: seq<Action>)
    ensures forall x :: x in Play(Start(now), actions).successes ==> InTime(now, actions, |actions|, x)
  {
    AllInTime(now, actions, |actions|);
    assert actions[..|actions|] == actions;
  }

  lemma RotateMeans(sessions: map<string, Session>, token: string, now: int, newToken: string, shift: ZoneShift)
    ensures var (after, outcome) := Rotate(sessions, token, now, newToken, shift);
            var good := token in sessions && now <= sessions[token].expiresAt;
            && (outcome.Issued? <==> good)
            && after == if !good then sessions - {token}
                        else (sessions - {token})
                             [newToken := Session(sessions[token].userId, now + 30 * 86_400_000 + shift)]
  {
    if token !in sessions {
      assert sessions - {token} == sessions;
    }
  }

  /**
    Main result: alone, a refresh succeeds iff the token has a session whose expiry is not past; the
    row goes either way.
  */
  lemma RefreshSucceedsIff(w: World, call: nat, token: string, newToken: string, shift: ZoneShift)
    requires Inv(w) && call !in w.calls && newToken !in w.family
    ensures var w1 := Next(Next(Next(w, Begin(call, token)), ReadRow(call)), Check(call));
            var w2 := Next(Next(w1, DeleteRow(call)), CreateRow(call, newToken, shift));
            && (w2.successes != w.successes <==> token in w.sessions && w.now <= w.sessions[token].expiresAt)
            && (w2.successes != w.successes ==>
                  && w2.successes == w.successes + [Success(call, token, newToken)]
                  && w2.sessions == (w.sessions - {token})
                     [newToken := Session(w.sessions[token].userId, w.now + 30 * 86_400_000 + shift)])
            && (w2.successes == w.successes ==> w2.sessions == w.sessions - {token})
  {
    UndisturbedRefresh(w, call, token, newToken, shift);
    RotateMeans(w.sessions, token, w.now, newToken, shift);
    hide *;
  }

  /** Main result: left alone, a token is good for an exchange until thirty days after its login, to the millisecond. */
  lemma LifetimeIsThirtyDays(w: World, userId: string, token: string, shift: ZoneShift, ms: nat, call: nat,
                             newToken: string)
    requires Inv(w) && token !in w.family && call !in w.calls && newToken !in w.family && newToken != token
    ensures var w0 := Next(Next(w, Login(userId, token, shift)), Tick(ms));
            var w1 := Next(Next(Next(w0, Begin(call, token)), ReadRow(call)), Check(call));
            var w2 := Next(Next(w1, DeleteRow(call)), CreateRow(call, newToken, 0));
            w2.successes != w.successes <==> ms <= 30 * 86_400_000 + shift
  {
    var w0 := Next(Next(w, Login(userId, token, shift)), Tick(ms));
    NextKeepsInv(w, Login(userId, token, shift));
    NextKeepsInv(Next(w, Login(userId, token, shift)), Tick(ms));
    assert w0.successes == w.successes && w0.calls == w.calls && newToken !in w0.family;
    assert Get(w0.sessions, token) == Some(Session(userId, w.now + 30 * 86_400_000 + shift)) && w0.now == w.now + ms;
    hide Next, Inv;
    RefreshSucceedsIff(w0, call, token, newToken, 0);
  }

  /** The periodic clean-up takes exactly the sessions that no refresh would exchange any more. */
  lemma CleanupTakesExpired(w: World, token: string)
    ensures var w' := Next(w, Cleanup);
            && (token in w'.sessions <==> token in w.sessions && w.now <= w.sessions[token].expiresAt)
            && (token in w'.sessions ==> w'.sessions[token] == w.sessions[token])
            && w' == w.(sessions := w'.sessions)
  {
  }

  // ---------- The service ----------

  class AuthService {
    var sessions: map<string, Session>

    constructor ()
      ensures sessions == map[]
    {
      sessions := map[];
    }

    /** Also what login and registration do once the user is known. */
    method CreateRefreshToken(userId: string, raw: string, now: int, shift: ZoneShift) returns (token: string)
      modifies this
      ensures token == raw && sessions == old(sessions)[raw := Session(userId, now + 30 * 86_400_000 + shift)]
    {
      var expiresAt := now;
      expiresAt := expiresAt + REFRESH_TTL_DAYS * MS_PER_DAY + shift;
      sessions := sessions[raw := Session(userId, expiresAt)];
      token := raw;
    }

    /** Prisma's delete: it throws when the row is gone. */
    method DeleteSession(token: string) returns (ok: bool)
      modifies this
      ensures ok == (token in old(sessions)) && sessions == old(sessions) - {token}
    {
      ok := token in sessions;
      sessions := sessions - {token};
    }

    method Refresh(rawToken: string, now: int, raw: string, shift: ZoneShift) returns (r: Outcome)
      modifies this
      ensures (sessions, r) == Rotate(old(sessions), rawToken, now, raw, shift)
      ensures r.Issued? <==> rawToken in old(sessions) && now <= old(sessions)[rawToken].expiresAt
      ensures r.Issued? ==> r == Issued(old(sessions)[rawToken].userId, raw)
      ensures r.Issued? ==> sessions == (old(sessions) - {rawToken})
                [raw := Session(old(sessions)[rawToken].userId, now + 30 * 86_400_000 + shift)]
      ensures r.Unauthorized? ==> sessions == old(sessions) - {rawToken}
    {
      var session := Get(sessions, rawToken);
      if session.None? || session.value.expiresAt < now {
        if session.Some? {
          var _ := DeleteSession(rawToken);
        }
        return Unauthorized;
      }
      var ok := DeleteSession(rawToken);
      assert ok;
      var token := CreateRefreshToken(session.value.userId, raw, now, shift);
      return Issued(session.value.userId, token);
    }

    method RevokeRefreshToken(rawToken: string)
      modifies this
      ensures sessions == old(sessions) - {rawToken}
    {
      sessions := sessions - {rawToken};
    }
  }
}
