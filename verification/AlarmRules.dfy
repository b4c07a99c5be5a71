/**
  Replication of alarm rules to the broker's retained messages, src/modules/alarm-rule/
  alarm-rule.service.ts with the publish and hydrate code of mqtt-ingest.service.ts.
*/
module AlarmRules {
  import opened Common

  datatype TimeWindow = TimeWindow(start: string, end: string, weekdays: seq<int>)

  datatype Rule = Rule(id: string, robotId: string, name: string, eventType: string, enabled: bool,
                       continuousDurationS: int, cooldownS: int, lightPattern: string, buzzerPattern: string,
                       windows: Option<seq<TimeWindow>>, notifyOwner: bool, notifyAdmins: bool,
                       notifyEmail: Option<string>, notifyZaloIds: Option<seq<string>>)

  /** A rule as the robot receives it. */
  datatype WireRule = WireRule(id: string, name: string, eventType: string, enabled: bool, continuousDurationS: int,
                               cooldownS: int, lightPattern: string, buzzerPattern: string, windows: seq<TimeWindow>)

  /**
    The optional fields of a create or update request; None means that the request left the field
    out. Validation lets an explicit null through: in notifyEmail it is Some(None), and nullElsewhere
    says that another field is null, which a create takes for left out and an update's database refuses.
  */
  datatype Fields = Fields(name: Option<string>, eventType: Option<string>, enabled: Option<bool>,
                           continuousDurationS: Option<int>, cooldownS: Option<int>, lightPattern: Option<string>,
                           buzzerPattern: Option<string>, windows: Option<seq<TimeWindow>>, notifyOwner: Option<bool>,
                           notifyAdmins: Option<bool>, notifyEmail: Option<Option<string>>,
                           notifyZaloIds: Option<seq<string>>, nullElsewhere: bool)

  datatype RobotRow = RobotRow(userId: string, serialNumber: string)

  /** Rules stand in the order of their creation; retained messages are found by the robot's serial. */
  datatype State = State(robots: map<string, RobotRow>, rules: seq<Rule>, connected: bool,
                         retained: map<string, seq<WireRule>>)

  datatype Result = Done(rule: Rule) | RobotNotFound | AccessDenied | RuleNotFound | WrongRobot | NullRefused

  datatype Event =
    | Create(robotId: string, userId: string, ruleId: string, name: string, eventType: string, dto: Fields)
    | Update(robotId: string, ruleId: string, userId: string, dto: Fields)
    | Remove(robotId: string, ruleId: string, userId: string)
    | Connect
    | Disconnect
    | Wipe
    | DeleteRobot(robotId: string)
    | RegisterRobot(robotId: string, row: RobotRow)
    | RenameRobot(robotId: string, serialNumber: string)

  // ---------- Rules ----------

  function Or<T>(o: Option<T>, d: T): T {
    if o.Some? then o.value else d
  }

  function Wire(r: Rule): WireRule {
    WireRule(r.id, r.name, r.eventType, r.enabled, r.continuousDurationS, r.cooldownS, r.lightPattern,
             r.buzzerPattern, Or(r.windows, []))
  }

  function NewRule(ruleId: string, robotId: string, name: string, eventType: string, dto: Fields): Rule {
    Rule(ruleId, robotId, name, eventType, Or(dto.enabled, true), Or(dto.continuousDurationS, 15),
         Or(dto.cooldownS, 30), Or(dto.lightPattern, "WARN_BLINK"), Or(dto.buzzerPattern, "ALARM"),
         Some(Or(dto.windows, [])), Or(dto.notifyOwner, true), Or(dto.notifyAdmins, false),
         Or(dto.notifyEmail, None), Some(Or(dto.notifyZaloIds, [])))
  }

  function Applied(r: Rule, dto: Fields): Rule {
    Rule(r.id, r.robotId, Or(dto.name, r.name), Or(dto.eventType, r.eventType), Or(dto.enabled, r.enabled),
         Or(dto.continuousDurationS, r.continuousDurationS), Or(dto.cooldownS, r.cooldownS),
         Or(dto.lightPattern, r.lightPattern), Or(dto.buzzerPattern, r.buzzerPattern),
         if dto.windows.Some? then dto.windows else r.windows, Or(dto.notifyOwner, r.notifyOwner),
         Or(dto.notifyAdmins, r.notifyAdmins), Or(dto.notifyEmail, r.notifyEmail),
         if dto.notifyZaloIds.Some? then dto.notifyZaloIds else r.notifyZaloIds)
  }

  /** A request that names no field. */
  function Nothing(): Fields {
    Fields(None, None, None, None, None, None, None, None, None, None, None, None, false)
  }

  /** What a request says about notifications, which never reach the robot. */
  function OnlyNotify(dto: Fields): Fields {
    Nothing().(notifyOwner := dto.notifyOwner, notifyAdmins := dto.notifyAdmins, notifyEmail := dto.notifyEmail,
               notifyZaloIds := dto.notifyZaloIds)
  }

  /** The robot is shown these columns of the rule; a missing window list is shown empty. */
  predicate Shows(w: WireRule, r: Rule) {
    && w.id == r.id && w.name == r.name && w.eventType == r.eventType && w.enabled == r.enabled
    && w.continuousDurationS == r.continuousDurationS && w.cooldownS == r.cooldownS
    && w.lightPattern == r.lightPattern && w.buzzerPattern == r.buzzerPattern
    && (r.windows == Some(w.windows) || (r.windows == None && w.windows == []))
  }

  /** A column holds what the request gives for it, and what it held before if the request gives nothing. */
  predicate Takes<T(==)>(now: T, before: T, given: Option<T>) {
    (given == Some(now)) || (given == None && now == before)
  }

  lemma UpdateIsColumnwise(r: Rule, dto: Fields)
    ensures var u := Applied(r, dto);
            && u.id == r.id && u.robotId == r.robotId
            && Takes(u.name, r.name, dto.name) && Takes(u.eventType, r.eventType, dto.eventType)
            && Takes(u.enabled, r.enabled, dto.enabled)
            && Takes(u.continuousDurationS, r.continuousDurationS, dto.continuousDurationS)
            && Takes(u.cooldownS, r.cooldownS, dto.cooldownS)
            && Takes(u.lightPattern, r.lightPattern, dto.lightPattern)
            && Takes(u.buzzerPattern, r.buzzerPattern, dto.buzzerPattern)
            && Takes(u.notifyOwner, r.notifyOwner, dto.notifyOwner)
            && Takes(u.notifyAdmins, r.notifyAdmins, dto.notifyAdmins)
            && Takes(u.notifyEmail, r.notifyEmail, dto.notifyEmail)
            && u.windows == (if dto.windows == None then r.windows else dto.windows)
            && u.notifyZaloIds == (if dto.notifyZaloIds == None then r.notifyZaloIds else dto.notifyZaloIds)
  {
  }

  /** Creating a rule is creating it with the defaults and then applying the request. */
  lemma CreateIsDefaultThenUpdate(ruleId: string, robotId: string, name: string, eventType: string, dto: Fields)
    ensures NewRule(ruleId, robotId, name, eventType, Nothing()) ==
            Rule(ruleId, robotId, name, eventType, true, 15, 30, "WARN_BLINK", "ALARM", Some([]), true, false, None,
                 Some([]))
    ensures NewRule(ruleId, robotId, name, eventType, dto) ==
            Applied(NewRule(ruleId, robotId, name, eventType, Nothing()), dto.(name := None, eventType := None))
  {
  }

  lemma NothingChangesNothing(r: Rule, dto: Fields)
    ensures dto == Nothing() ==> Applied(r, dto) == r
  {
  }

  lemma NotifyStaysOffTheWire(r: Rule, dto: Fields)
    ensures dto == OnlyNotify(dto) ==> Wire(Applied(r, dto)) == Wire(r)
  {
  }

  lemma ApplyingTwiceIsOnce(r: Rule, dto: Fields)
    ensures Applied(Applied(r, dto), dto) == Applied(r, dto)
  {
    var once := Applied(r, dto);
    assert once.notifyEmail == Or(dto.notifyEmail, r.notifyEmail);
  }

  function Find(rules: seq<Rule>, ruleId: string): (r: Option<Rule>)
    ensures r.Some? ==> r.value in rules && r.value.id == ruleId
    ensures r.None? ==> forall x :: x in rules ==> x.id != ruleId
  {
    if rules == [] then None else if rules[0].id == ruleId then Some(rules[0]) else Find(rules[1..], ruleId)
  }

  function Replace(rules: seq<Rule>, r: Rule): (s: seq<Rule>)
    ensures |s| == |rules|
    ensures forall i :: 0 <= i < |s| ==> s[i] == if rules[i].id == r.id then r else rules[i]
  {
    seq(|rules|, i requires 0 <= i < |rules| => if rules[i].id == r.id then r else rules[i])
  }

  function HasId(ruleId: string): Rule -> bool {
    (r: Rule) => r.id == ruleId
  }

  function OfRobot(robotId: string): Rule -> bool {
    (r: Rule) => r.robotId == robotId
  }

  /** The rules for which drop does not hold, in order. */
  function Without(rules: seq<Rule>, drop: Rule -> bool): (s: seq<Rule>)
    ensures forall x :: x in s ==> x in rules && !drop(x)
  {
    if rules == [] then []
    else
      var front, last := Without(rules[..|rules| - 1], drop), rules[|rules| - 1];
      if drop(last) then front else front + [last]
  }

  /** What should be retained for a robot: its enabled rules on the wire, oldest first. */
  function Projection(rules: seq<Rule>, robotId: string): seq<WireRule> {
    if rules == [] then []
    else
      var front, last := Projection(rules[..|rules| - 1], robotId), rules[|rules| - 1];
      if last.robotId == robotId && last.enabled then front + [Wire(last)] else front
  }

  function Retained(s: State, serialNumber: string): seq<WireRule> {
    if serialNumber in s.retained then s.retained[serialNumber] else []
  }

  // ---------- Steps ----------

  function Access(s: State, robotId: string, userId: string): Option<Result> {
    if robotId !in s.robots then Some(RobotNotFound)
    else if s.robots[robotId].userId != userId then Some(AccessDenied)
    else None
  }

  function RuleAccess(s: State, robotId: string, ruleId: string, userId: string): Option<Result> {
    var denied, found := Access(s, robotId, userId), Find(s.rules, ruleId);
    if denied.Some? then denied
    else if found.None? then Some(RuleNotFound)
    else if found.value.robotId != robotId then Some(WrongRobot)
    else None
  }

  function UpdateAccess(s: State, robotId: string, ruleId: string, userId: string, dto: Fields): Option<Result> {
    var denied := RuleAccess(s, robotId, ruleId, userId);
    if denied.None? && dto.nullElsewhere then Some(NullRefused) else denied
  }

  /** Publishing needs the robot and the broker; otherwise it is skipped. */
  function Publish(s: State, robotId: string): State {
    if robotId !in s.robots || !s.connected then s
    else s.(retained := s.retained[s.robots[robotId].serialNumber := Projection(s.rules, robotId)])
  }

  ghost function Serials(s: State): set<string> {
    set id | id in s.robots :: s.robots[id].serialNumber
  }

  ghost function RobotWith(s: State, serialNumber: string): (id: string)
    requires serialNumber in Serials(s)
    ensures id in s.robots && s.robots[id].serialNumber == serialNumber
  {
    var id :| id in s.robots && s.robots[id].serialNumber == serialNumber;
    id
  }

  /** Publishing every robot on a connected broker. */
  ghost function Hydrated(s: State): State {
    s.(retained := map t | t in s.retained.Keys + Serials(s) ::
         if t in Serials(s) then Projection(s.rules, RobotWith(s, t)) else s.retained[t])
  }

  ghost function Next(s: State, e: Event): State {
    match e
    case Create(robotId, userId, ruleId, name, eventType, dto) =>
      if Access(s, robotId, userId).Some? || Find(s.rules, ruleId).Some? then s
      else Publish(s.(rules := s.rules + [NewRule(ruleId, robotId, name, eventType, dto)]), robotId)
    case Update(robotId, ruleId, userId, dto) =>
      if UpdateAccess(s, robotId, ruleId, userId, dto).Some? then s
      else Publish(s.(rules := Replace(s.rules, Applied(Find(s.rules, ruleId).value, dto))), robotId)
    case Remove(robotId, ruleId, userId) =>
      if RuleAccess(s, robotId, ruleId, userId).Some? then s
      else Publish(s.(rules := Without(s.rules, HasId(ruleId))), robotId)
    case Connect => Hydrated(s.(connected := true))
    case Disconnect => s.(connected := false)
    case Wipe => s.(connected := false, retained := map[])
    case DeleteRobot(robotId) =>
      s.(robots := s.robots - {robotId}, rules := Without(s.rules, OfRobot(robotId)))
    case RegisterRobot(robotId, row) =>
      if robotId in s.robots || row.serialNumber in Serials(s) then s
      else s.(robots := s.robots[robotId := row])
    case RenameRobot(robotId, serialNumber) =>
      if robotId !in s.robots || serialNumber in Serials(s) then s
      else s.(robots := s.robots[robotId := s.robots[robotId].(serialNumber := serialNumber)])
  }

  ghost function Run(s: State, es: seq<Event>): State {
    if es == [] then s else Next(Run(s, es[..|es| - 1]), es[|es| - 1])
  }

  // ---------- Invariant ----------

  ghost predicate UniqueIds(rules: seq<Rule>) {
    forall i, j :: 0 <= i < j < |rules| ==> rules[i].id != rules[j].id
  }

  ghost predicate Sound(s: State) {
    && (forall a, b ::
          a in s.robots && b in s.robots && s.robots[a].serialNumber == s.robots[b].serialNumber ==> a == b)
    && UniqueIds(s.rules)
    && (forall r :: r in s.rules ==> r.robotId in s.robots)
  }

  /** Whenever the broker is connected, every robot's retained rules are its enabled rules, oldest first. */
  ghost predicate Replicated(s: State) {
    s.connected ==> forall id :: id in s.robots ==>
      Retained(s, s.robots[id].serialNumber) == Projection(s.rules, id)
  }

  // ---------- Who may change rules ----------

  predicate Owns(s: State, robotId: string, userId: string) {
    robotId in s.robots && s.robots[robotId].userId == userId
  }

  predicate IsRuleChange(e: Event) {
    e.Create? || e.Update? || e.Remove?
  }

  /** A rule change asked for by somebody who does not own the robot at that moment. */
  predicate Intrudes(s: State, e: Event) {
    IsRuleChange(e) && !Owns(s, e.robotId, e.userId)
  }

  /** The run without such requests. */
  ghost function OnlyOwners(s: State, es: seq<Event>): seq<Event> {
    if es == [] then []
    else
      var front, last := es[..|es| - 1], es[|es| - 1];
      if Intrudes(Run(s, front), last) then OnlyOwners(s, front) else OnlyOwners(s, front) + [last]
  }

  lemma IntruderChangesNothing(s: State, e: Event)
    requires Intrudes(s, e)
    ensures Next(s, e) == s
  {
    hide Find, Replace, Without, Projection, Applied, NewRule;
  }

  /** Main result: deleting every rule change by a user who does not own the robot changes no run. */
  lemma {:induction false} OnlyOwnersMatter(s: State, es: seq<Event>)
    ensures Run(s, OnlyOwners(s, es)) == Run(s, es)
  {
    if es != [] {
      var front, last := es[..|es| - 1], es[|es| - 1];
      OnlyOwnersMatter(s, front);
      hide Next, Intrudes;
      if Intrudes(Run(s, front), last) {
        IntruderChangesNothing(Run(s, front), last);
      } else {
        RunAppend(s, OnlyOwners(s, front), last);
      }
    }
  }

  /** What the owner's requests do to the table. */
  lemma OwnerChangesTable(s: State, e: Event)
    requires UniqueIds(s.rules) && IsRuleChange(e) && Owns(s, e.robotId, e.userId)
    ensures e.Create? && (forall r :: r in s.rules ==> r.id != e.ruleId) ==>
              Next(s, e).rules == s.rules + [NewRule(e.ruleId, e.robotId, e.name, e.eventType, e.dto)]
    ensures forall i ::
              && 0 <= i < |s.rules| && s.rules[i].id == e.ruleId && s.rules[i].robotId == e.robotId
              && e.Update? && !e.dto.nullElsewhere ==>
                Next(s, e).rules == s.rules[i := Applied(s.rules[i], e.dto)]
    ensures forall i ::
              0 <= i < |s.rules| && s.rules[i].id == e.ruleId && s.rules[i].robotId == e.robotId && e.Remove? ==>
                Next(s, e).rules == s.rules[..i] + s.rules[i + 1..]
    ensures (forall r :: r in s.rules && r.id == e.ruleId ==> r.robotId != e.robotId) && !e.Create? ==> Next(s, e) == s
  {
    if e.Create? {
      hide NewRule, Projection;
    } else {
      hide Projection, Applied;
      forall i | 0 <= i < |s.rules| && s.rules[i].id == e.ruleId && s.rules[i].robotId == e.robotId
        ensures e.Update? && !e.dto.nullElsewhere ==> Next(s, e).rules == s.rules[i := Applied(s.rules[i], e.dto)]
        ensures e.Remove? ==> Next(s, e).rules == s.rules[..i] + s.rules[i + 1..]
      {
        FindsOnly(s.rules, i);
        hide Find, Without;
        AppliedKeepsIds(s.rules[i]);
        if e.Update? {
          ReplacesOne(s.rules, i, Applied(s.rules[i], e.dto));
        } else {
          WithoutOne(s.rules, i);
        }
      }
    }
  }

  lemma AppliedKeepsIds(r: Rule)
    ensures forall dto :: Applied(r, dto).id == r.id
  {
  }

  lemma FindsOnly(rules: seq<Rule>, i: nat)
    requires UniqueIds(rules) && i < |rules|
    ensures Find(rules, rules[i].id) == Some(rules[i])
  {
    assert rules[i] in rules;
  }

  lemma ReplacesOne(rules: seq<Rule>, i: nat, r: Rule)
    requires UniqueIds(rules) && i < |rules| && rules[i].id == r.id
    ensures Replace(rules, r) == rules[i := r]
  {
  }

  lemma {:induction false} WithoutConcat(a: seq<Rule>, b: seq<Rule>, drop: Rule -> bool)
    ensures Without(a + b, drop) == Without(a, drop) + Without(b, drop)
  {
    if b == [] {
      assert a + b == a;
    } else {
      var n := |b| - 1;
      WithoutConcat(a, b[..n], drop);
      assert (a + b)[..|a + b| - 1] == a + b[..n];
    }
  }

  lemma OthersDiffer(rules: seq<Rule>, i: nat)
    requires UniqueIds(rules) && i < |rules|
    ensures forall r :: r in rules[..i] || r in rules[i + 1..] ==> r.id != rules[i].id
  {
  }

  lemma WithoutSingle(r: Rule)
    ensures Without([r], HasId(r.id)) == []
  {
    assert [r][..0] == [];
  }

  lemma WithoutOne(rules: seq<Rule>, i: nat)
    requires UniqueIds(rules) && i < |rules|
    ensures Without(rules, HasId(rules[i].id)) == rules[..i] + rules[i + 1..]
  {
    hide *;
    var before, it, later, drop := rules[..i], [rules[i]], rules[i + 1..], HasId(rules[i].id);
    OthersDiffer(rules, i);
    WithoutSingle(rules[i]);
    WithoutAbsent(before, rules[i].id);
    WithoutAbsent(later, rules[i].id);
    WithoutConcat(before, it + later, drop);
    WithoutConcat(it, later, drop);
    assert rules == before + (it + later) && [] + later == later;
  }

  lemma {:induction false} WithoutAbsent(rules: seq<Rule>, ruleId: string)
    requires forall r :: r in rules ==> r.id != ruleId
    ensures Without(rules, HasId(ruleId)) == rules
  {
    if rules != [] {
      var n := |rules| - 1;
      WithoutAbsent(rules[..n], ruleId);
      assert rules[n] in rules && rules == rules[..n] + [rules[n]];
    }
  }

  // ---------- What changing the table does to a projection ----------

  /** The projection lists exactly the enabled rules of the robot, and respects table order. */
  lemma {:induction false} ProjectionIsExact(rules: seq<Rule>, robotId: string)
    ensures forall w :: w in Projection(rules, robotId) <==>
              exists r :: r in rules && r.robotId == robotId && r.enabled && Shows(w, r)
    ensures forall w :: w in Projection(rules, robotId) ==> w.enabled
  {
    if rules != [] {
      var n := |rules| - 1;
      ProjectionIsExact(rules[..n], robotId);
      assert rules == rules[..n] + [rules[n]];
      forall w ensures Shows(w, rules[n]) <==> w == Wire(rules[n]) {
      }
    }
  }

  lemma {:induction false} ProjectionConcat(a: seq<Rule>, b: seq<Rule>, robotId: string)
    ensures Projection(a + b, robotId) == Projection(a, robotId) + Projection(b, robotId)
  {
    if b == [] {
      assert a + b == a;
    } else {
      var n := |b| - 1;
      ProjectionConcat(a, b[..n], robotId);
      assert (a + b)[..|a + b| - 1] == a + b[..n];
    }
  }

  lemma {:induction false} NoRulesNoProjection(rules: seq<Rule>, robotId: string)
    requires forall r :: r in rules ==> r.robotId != robotId
    ensures Projection(rules, robotId) == []
  {
    if rules != [] {
      NoRulesNoProjection(rules[..|rules| - 1], robotId);
      assert rules[|rules| - 1] in rules;
    }
  }

  lemma {:induction false} ReplaceElsewhere(rules: seq<Rule>, r: Rule, robotId: string)
    requires r.robotId != robotId
    requires forall x :: x in rules && x.id == r.id ==> x.robotId == r.robotId
    ensures Projection(Replace(rules, r), robotId) == Projection(rules, robotId)
  {
    if rules != [] {
      var n := |rules| - 1;
      ReplaceElsewhere(rules[..n], r, robotId);
      assert Replace(rules, r)[..n] == Replace(rules[..n], r);
      assert rules[n] in rules;
    }
  }

  lemma {:induction false} DropElsewhere(rules: seq<Rule>, drop: Rule -> bool, robotId: string)
    requires forall x :: x in rules && drop(x) ==> x.robotId != robotId
    ensures Projection(Without(rules, drop), robotId) == Projection(rules, robotId)
  {
    if rules != [] {
      var n := |rules| - 1;
      DropElsewhere(rules[..n], drop, robotId);
      assert rules[n] in rules;
      var front := Without(rules[..n], drop);
      assert (front + [rules[n]])[..|front|] == front;
    }
  }

  lemma {:induction false} WithoutKeepsUnique(rules: seq<Rule>, drop: Rule -> bool)
    requires UniqueIds(rules)
    ensures UniqueIds(Without(rules, drop))
  {
    if rules != [] {
      var n := |rules| - 1;
      WithoutKeepsUnique(rules[..n], drop);
      var front := Without(rules[..n], drop);
      forall i | 0 <= i < |front| ensures front[i].id != rules[n].id {
        assert front[i] in rules[..n];
      }
      assert UniqueIds(front + [rules[n]]);
    }
  }

  // ---------- Replication ----------

  /** A table change that leaves other robots' projections alone, followed by a publish, keeps replication. */
  lemma PublishReplicates(s: State, rules: seq<Rule>, robotId: string)
    requires Sound(s) && Replicated(s) && robotId in s.robots
    requires forall id :: id in s.robots && id != robotId ==> Projection(rules, id) == Projection(s.rules, id)
    ensures Replicated(Publish(s.(rules := rules), robotId))
  {
  }

  lemma AddKeepsSound(s: State, r: Rule)
    requires Sound(s) && r.robotId in s.robots && forall x :: x in s.rules ==> x.id != r.id
    ensures Sound(s.(rules := s.rules + [r]))
  {
    var rules := s.rules + [r];
    assert forall x :: x in rules ==> x in s.rules || x == r;
    forall i | 0 <= i < |s.rules| ensures rules[i].id != r.id {
      assert rules[i] in s.rules;
    }
  }

  lemma PublishKeepsSound(s: State, robotId: string)
    requires Sound(s)
    ensures Sound(Publish(s, robotId))
  {
    hide UniqueIds, Projection;
  }

  lemma CreateReplicates(s: State, e: Event)
    requires e.Create? && Sound(s) && Replicated(s)
    ensures Sound(Next(s, e)) && Replicated(Next(s, e))
  {
    if Access(s, e.robotId, e.userId).None? && Find(s.rules, e.ruleId).None? {
      var added := [NewRule(e.ruleId, e.robotId, e.name, e.eventType, e.dto)];
      forall id | id in s.robots && id != e.robotId ensures Projection(s.rules + added, id) == Projection(s.rules, id) {
        ProjectionConcat(s.rules, added, id);
        assert Projection(added[..0], id) == [];
      }
      assert Next(s, e) == Publish(s.(rules := s.rules + added), e.robotId);
      assert added[0].robotId == e.robotId && e.robotId in s.robots && added[0].id == e.ruleId;
      hide Projection, NewRule, Next, Find;
      AddKeepsSound(s, added[0]);
      hide *;
      PublishKeepsSound(s.(rules := s.rules + added), e.robotId);
      PublishReplicates(s, s.rules + added, e.robotId);
    }
  }

  lemma ReplaceKeepsSound(s: State, r: Rule)
    requires Sound(s) && r.robotId in s.robots
    ensures Sound(s.(rules := Replace(s.rules, r)))
  {
    var rules := Replace(s.rules, r);
    assert forall x :: x in rules ==> x == r || x in s.rules;
    assert forall i :: 0 <= i < |rules| ==> rules[i].id == s.rules[i].id;
    hide Replace;
  }

  lemma UpdateReplicates(s: State, e: Event)
    requires e.Update? && Sound(s) && Replicated(s)
    ensures Sound(Next(s, e)) && Replicated(Next(s, e))
  {
    if UpdateAccess(s, e.robotId, e.ruleId, e.userId, e.dto).None? {
      var r := Applied(Find(s.rules, e.ruleId).value, e.dto);
      assert r.id == e.ruleId && r.robotId == e.robotId && e.robotId in s.robots;
      var rules := Replace(s.rules, r);
      assert Next(s, e) == Publish(s.(rules := rules), e.robotId);
      RuleIdNamesOne(s, e.ruleId);
      assert forall x :: x in s.rules && x.id == r.id ==> x.robotId == r.robotId;
      hide *;
      ReplaceKeepsSound(s, r);
      PublishKeepsSound(s.(rules := rules), e.robotId);
      forall id | id in s.robots && id != e.robotId ensures Projection(rules, id) == Projection(s.rules, id) {
        ReplaceElsewhere(s.rules, r, id);
      }
      PublishReplicates(s, rules, e.robotId);
    }
  }

  /** Dropping rules that all belong to one robot, published or not. */
  lemma DropKeepsOthers(s: State, drop: Rule -> bool, robotId: string)
    requires Sound(s)
    requires forall x :: x in s.rules && drop(x) ==> x.robotId == robotId
    ensures UniqueIds(Without(s.rules, drop))
    ensures forall id :: id in s.robots && id != robotId ==>
              Projection(Without(s.rules, drop), id) == Projection(s.rules, id)
  {
    forall id | id in s.robots && id != robotId
      ensures Projection(Without(s.rules, drop), id) == Projection(s.rules, id)
    {
      DropElsewhere(s.rules, drop, id);
    }
    WithoutKeepsUnique(s.rules, drop);
  }

  lemma RemoveReplicates(s: State, e: Event)
    requires e.Remove? && Sound(s) && Replicated(s)
    ensures Sound(Next(s, e)) && Replicated(Next(s, e))
  {
    if RuleAccess(s, e.robotId, e.ruleId, e.userId).None? {
      RuleIdNamesOne(s, e.ruleId);
      DropKeepsOthers(s, HasId(e.ruleId), e.robotId);
      hide Projection, UniqueIds, Without, Find;
      PublishReplicates(s, Without(s.rules, HasId(e.ruleId)), e.robotId);
    }
  }

  lemma RuleIdNamesOne(s: State, ruleId: string)
    requires Sound(s) && Find(s.rules, ruleId).Some?
    ensures forall x :: x in s.rules && x.id == ruleId ==> x == Find(s.rules, ruleId).value
  {
  }

  lemma FewerKeepSound(s: State, robotId: string, rules: seq<Rule>)
    requires Sound(s) && UniqueIds(rules) && forall x :: x in rules ==> x in s.rules && x.robotId != robotId
    ensures Sound(s.(robots := s.robots - {robotId}, rules := rules))
  {
    hide UniqueIds;
  }

  lemma FewerStayReplicated(s: State, robotId: string, rules: seq<Rule>)
    requires Replicated(s)
    requires forall id :: id in s.robots && id != robotId ==> Projection(rules, id) == Projection(s.rules, id)
    ensures Replicated(s.(robots := s.robots - {robotId}, rules := rules))
  {
    hide Projection;
  }

  lemma DeleteRobotReplicates(s: State, robotId: string)
    requires Sound(s) && Replicated(s)
    ensures Sound(Next(s, DeleteRobot(robotId))) && Replicated(Next(s, DeleteRobot(robotId)))
  {
    var rules := Without(s.rules, OfRobot(robotId));
    DropKeepsOthers(s, OfRobot(robotId), robotId);
    assert forall x :: x in rules ==> x in s.rules && x.robotId != robotId;
    assert Next(s, DeleteRobot(robotId)) == s.(robots := s.robots - {robotId}, rules := rules);
    hide *;
    FewerKeepSound(s, robotId, rules);
    FewerStayReplicated(s, robotId, rules);
  }

  /** Connecting restores replication from any state of the broker, however wrong. */
  lemma ConnectRestores(s: State)
    requires Sound(s)
    ensures Sound(Next(s, Connect)) && Replicated(Next(s, Connect))
  {
    var c := s.(connected := true);
    forall id | id in s.robots
      ensures s.robots[id].serialNumber in Serials(c) && RobotWith(c, s.robots[id].serialNumber) == id
    {
    }
  }

  /** Between a disconnect and the next connect the broker keeps what it had, whatever happens to the rules. */
  lemma {:induction false} NothingPublishedOffline(s: State, es: seq<Event>)
    requires forall i :: 0 <= i < |es| ==> !es[i].Connect? && !es[i].Wipe?
    ensures var off := Run(Next(s, Disconnect), es);
            !off.connected && off.retained == s.retained
  {
    if es != [] {
      var n := |es| - 1;
      NothingPublishedOffline(s, es[..n]);
      var off := Run(Next(s, Disconnect), es[..n]);
      assert !es[n].Connect? && !es[n].Wipe?;
      StaysOffline(off, es[n]);
      hide Next;
    }
  }

  lemma StaysOffline(s: State, e: Event)
    requires !s.connected && !e.Connect? && !e.Wipe?
    ensures !Next(s, e).connected && Next(s, e).retained == s.retained
  {
    hide Find, Replace, Without, Projection, Applied, NewRule, Serials, Hydrated, UpdateAccess, Access;
  }

  /** A broker that lost its retained messages has every robot's rules again at the next connect, and nothing else. */
  lemma WipedBrokerRestored(s: State)
    requires Sound(s)
    ensures var w := Next(s, Wipe);
            && !w.connected && w.retained == map[] && w.robots == s.robots && w.rules == s.rules
            && Replicated(Next(w, Connect)) && Next(w, Connect).retained.Keys == Serials(s)
  {
    var w := Next(s, Wipe);
    ConnectRestores(w);
    hide Projection, UniqueIds, Replicated;
    assert Serials(w.(connected := true)) == Serials(s);
    assert w.retained.Keys == {};
  }

  /** Registering publishes nothing: it keeps replication iff the serial has no rules left over from a deleted robot. */
  lemma RegisterReplicatesIff(s: State, robotId: string, row: RobotRow)
    requires Sound(s) && Replicated(s) && s.connected
    requires robotId !in s.robots && row.serialNumber !in Serials(s)
    ensures Replicated(Next(s, RegisterRobot(robotId, row))) <==> Retained(s, row.serialNumber) == []
  {
    NoRulesNoProjection(s.rules, robotId);
    var s' := Next(s, RegisterRobot(robotId, row));
    hide Projection;
    assert s'.robots[robotId] == row;
  }

  /**
    Renaming publishes nothing either: the new serial must already retain the robot's rules. With
    nothing retained there, the robot must have no enabled rule.
  */
  lemma RenameReplicatesIff(s: State, robotId: string, serialNumber: string)
    requires Sound(s) && Replicated(s) && s.connected
    requires robotId in s.robots && serialNumber !in Serials(s)
    ensures var s' := Next(s, RenameRobot(robotId, serialNumber));
            && (Replicated(s') <==> Retained(s, serialNumber) == Projection(s.rules, robotId))
            && (Retained(s, serialNumber) == [] ==>
                  (Replicated(s') <==> forall r :: r in s.rules && r.robotId == robotId ==> !r.enabled))
  {
    EmptyProjectionIff(s.rules, robotId);
    hide Projection;
    var s' := Next(s, RenameRobot(robotId, serialNumber));
    assert s'.robots[robotId].serialNumber == serialNumber;
  }

  lemma EmptyProjectionIff(rules: seq<Rule>, robotId: string)
    ensures Projection(rules, robotId) == [] <==> forall r :: r in rules && r.robotId == robotId ==> !r.enabled
  {
    ProjectionIsExact(rules, robotId);
    hide Projection;
    var payload := Projection(rules, robotId);
    if r :| r in rules && r.robotId == robotId && r.enabled {
      assert Shows(Wire(r), r) && Wire(r) in payload;
    }
    if payload != [] {
      assert payload[0] in payload;
    }
  }

  /** A serial that a connected broker comes to serve must already retain what its robot's rules project to. */
  ghost predicate SerialChangeAllowed(s: State, e: Event) {
    match e
    case RegisterRobot(robotId, row) =>
      s.connected && robotId !in s.robots && row.serialNumber !in Serials(s) ==> Retained(s, row.serialNumber) == []
    case RenameRobot(robotId, serialNumber) =>
      s.connected && robotId in s.robots && serialNumber !in Serials(s) ==>
        Retained(s, serialNumber) == Projection(s.rules, robotId)
    case _ => true
  }

  lemma TableIgnoresBroker(s: State, e: Event)
    requires e.Create? || e.Update? || e.Remove? || e.DeleteRobot?
    ensures var off := Next(s.(connected := false), e);
            off.robots == Next(s, e).robots && off.rules == Next(s, e).rules
  {
    hide Find, Replace, Without, Projection, Applied, NewRule, Serials;
    match e
    case Create(_, _, _, _, _, _) => hide RuleAccess, UpdateAccess;
    case Update(_, _, _, _) =>
    case Remove(_, _, _) =>
    case DeleteRobot(_) =>
  }

  lemma TableChangeKeepsSound(s: State, e: Event)
    requires Sound(s) && (e.Create? || e.Update? || e.Remove? || e.DeleteRobot?)
    ensures Sound(Next(s, e))
  {
    // on a disconnected broker replication asks nothing
    var off := s.(connected := false);
    assert Replicated(off);
    TableIgnoresBroker(s, e);
    hide Next, UniqueIds, Replicated;
    match e
    case Create(_, _, _, _, _, _) => CreateReplicates(off, e);
    case Update(_, _, _, _) => UpdateReplicates(off, e);
    case Remove(_, _, _) => RemoveReplicates(off, e);
    case DeleteRobot(robotId) => DeleteRobotReplicates(off, robotId);
  }

  lemma NextKeepsSound(s: State, e: Event)
    requires Sound(s)
    ensures Sound(Next(s, e))
  {
    if e.Create? || e.Update? || e.Remove? || e.DeleteRobot? {
      TableChangeKeepsSound(s, e);
    } else {
      hide UniqueIds;
    }
  }

  /** Exactly the steps that keep replication. */
  lemma NextReplicatesIff(s: State, e: Event)
    requires Sound(s) && Replicated(s)
    ensures Replicated(Next(s, e)) <==> SerialChangeAllowed(s, e)
  {
    hide Projection, UniqueIds, Without, Find;
    match e
    case Create(_, _, _, _, _, _) => CreateReplicates(s, e);
    case Update(_, _, _, _) => UpdateReplicates(s, e);
    case Remove(_, _, _) => RemoveReplicates(s, e);
    case Connect => ConnectRestores(s);
    case DeleteRobot(robotId) => DeleteRobotReplicates(s, robotId);
    case RegisterRobot(robotId, row) =>
      if s.connected && robotId !in s.robots && row.serialNumber !in Serials(s) {
        RegisterReplicatesIff(s, robotId, row);
      }
    case RenameRobot(robotId, serialNumber) =>
      if s.connected && robotId in s.robots && serialNumber !in Serials(s) {
        RenameReplicatesIff(s, robotId, serialNumber);
      }
    case _ =>
  }

  lemma {:induction false} RunKeepsSound(s: State, es: seq<Event>)
    requires Sound(s)
    ensures Sound(Run(s, es))
  {
    if es != [] {
      RunKeepsSound(s, es[..|es| - 1]);
      NextKeepsSound(Run(s, es[..|es| - 1]), es[|es| - 1]);
    }
  }

  /**
    Over every run of rule changes, robot registrations, renames and deletions, and
    broker events, replication holds while every serial change finds the right rules retained.
  */
  lemma {:induction false} ReplicationHolds(s: State, es: seq<Event>)
    requires Sound(s) && Replicated(s)
    requires forall i :: 0 <= i < |es| ==> SerialChangeAllowed(Run(s, es[..i]), es[i])
    ensures Sound(Run(s, es)) && Replicated(Run(s, es))
  {
    RunKeepsSound(s, es);
    if es != [] {
      var n := |es| - 1;
      hide Sound, Replicated, Next;
      forall i | 0 <= i < n ensures SerialChangeAllowed(Run(s, es[..n][..i]), es[..n][i]) {
        assert es[..n][..i] == es[..i];
      }
      hide SerialChangeAllowed;
      ReplicationHolds(s, es[..n]);
      NextReplicatesIff(Run(s, es[..n]), es[n]);
    }
  }

  /**
    Main result: replication holds at every state of a run iff every serial change in it finds the
    right rules retained.
  */
  lemma ReplicatedThroughoutIff(s: State, es: seq<Event>)
    requires Sound(s) && Replicated(s)
    ensures (forall k :: 0 <= k <= |es| ==> Replicated(Run(s, es[..k]))) <==>
            (forall k :: 0 <= k < |es| ==> SerialChangeAllowed(Run(s, es[..k]), es[k]))
  {
    hide Sound, Replicated, SerialChangeAllowed, Next, Run;
    if forall k :: 0 <= k <= |es| ==> Replicated(Run(s, es[..k])) {
      forall k | 0 <= k < |es| ensures SerialChangeAllowed(Run(s, es[..k]), es[k]) {
        assert Replicated(Run(s, es[..k])) && Replicated(Run(s, es[..k + 1]));
        assert es[..k + 1] == es[..k] + [es[k]];
        RunAppend(s, es[..k], es[k]);
        RunKeepsSound(s, es[..k]);
        NextReplicatesIff(Run(s, es[..k]), es[k]);
      }
    }
    if forall k :: 0 <= k < |es| ==> SerialChangeAllowed(Run(s, es[..k]), es[k]) {
      forall n | 0 <= n <= |es| ensures Replicated(Run(s, es[..n])) {
        forall k | 0 <= k < n ensures SerialChangeAllowed(Run(s, es[..n][..k]), es[..n][k]) {
          assert es[..n][..k] == es[..k];
        }
        ReplicationHolds(s, es[..n]);
      }
    }
  }

  /** Main result: whatever happened before, replication is back at a connect and lasts under the same condition. */
  lemma ReplicationResumes(s: State, before: seq<Event>, es: seq<Event>)
    requires Sound(s)
    requires var c := Run(s, before + [Connect]);
             forall i :: 0 <= i < |es| ==> SerialChangeAllowed(Run(c, es[..i]), es[i])
    ensures Replicated(Run(s, before + [Connect] + es))
  {
    var c := Run(s, before + [Connect]);
    RunKeepsSound(s, before);
    ConnectRestores(Run(s, before));
    RunAppend(s, before, Connect);
    hide Sound, Replicated, Next, SerialChangeAllowed;
    ReplicationHolds(c, es);
    RunConcat(s, before + [Connect], es);
  }

  lemma RunAppend(s: State, es: seq<Event>, e: Event)
    ensures Run(s, es + [e]) == Next(Run(s, es), e)
  {
    assert (es + [e])[..|es|] == es;
  }

  lemma {:induction false} RunConcat(s: State, es: seq<Event>, more: seq<Event>)
    ensures Run(s, es + more) == Run(Run(s, es), more)
  {
    if more == [] {
      assert es + more == es;
    } else {
      var n := |more| - 1;
      RunConcat(s, es, more[..n]);
      assert (es + more)[..|es + more| - 1] == es + more[..n];
      hide Next;
    }
  }

  // ---------- Serial changes that break replication ----------

  function Empty(): State {
    State(map[], [], false, map[])
  }

  /** A robot with one enabled rule, published. */
  function OneRule(robotId: string, row: RobotRow, rule: Rule): State {
    State(map[robotId := row], [rule], true, map[row.serialNumber := [Wire(rule)]])
  }

  lemma OneRuleProjection(rule: Rule)
    requires rule.enabled
    ensures Projection([rule], rule.robotId) == [Wire(rule)]
  {
    assert [rule][..0] == [] && Projection([], rule.robotId) == [];
  }

  /** A robot without rules, on a connected broker. */
  function NoRule(robotId: string, row: RobotRow): State {
    State(map[robotId := row], [], true, map[row.serialNumber := []])
  }

  lemma RegisterThenConnect(robotId: string, row: RobotRow)
    ensures Next(Next(Empty(), RegisterRobot(robotId, row)), Connect) == NoRule(robotId, row)
  {
    var s := State(map[robotId := row], [], true, map[]);
    assert Next(Empty(), RegisterRobot(robotId, row)) == s.(connected := false);
    assert s.robots[robotId].serialNumber in Serials(s);
    assert Serials(s) == {row.serialNumber};
  }

  lemma CreateFirst(robotId: string, row: RobotRow, create: Event)
    requires create.Create? && create.robotId == robotId && create.userId == row.userId && Or(create.dto.enabled, true)
    ensures Next(NoRule(robotId, row), create) ==
            OneRule(robotId, row, NewRule(create.ruleId, robotId, create.name, create.eventType, create.dto))
  {
    var rule := NewRule(create.ruleId, robotId, create.name, create.eventType, create.dto);
    OneRuleProjection(rule);
    assert [] + [rule] == [rule];
  }

  lemma StartOfRun(s: State)
    ensures Run(s, []) == s
  {
  }

  lemma RegisterConnectCreate(robotId: string, row: RobotRow, ruleId: string, name: string, eventType: string,
                              dto: Fields)
    requires Or(dto.enabled, true)
    ensures Run(Empty(), [RegisterRobot(robotId, row), Connect,
                          Create(robotId, row.userId, ruleId, name, eventType, dto)])
            == OneRule(robotId, row, NewRule(ruleId, robotId, name, eventType, dto))
  {
    hide Next, Run, NewRule, OneRule, NoRule;
    var register, create := RegisterRobot(robotId, row), Create(robotId, row.userId, ruleId, name, eventType, dto);
    RegisterThenConnect(robotId, row);
    CreateFirst(robotId, row, create);
    StartOfRun(Empty());
    RunAppend(Empty(), [], register);
    RunAppend(Empty(), [register], Connect);
    RunAppend(Empty(), [register, Connect], create);
    assert [] + [register] == [register] && [register] + [Connect] == [register, Connect];
    assert [register, Connect] + [create] == [register, Connect, create];
  }

  lemma DeleteOneRule(robotId: string, row: RobotRow, rule: Rule)
    requires rule.robotId == robotId
    ensures Next(OneRule(robotId, row, rule), DeleteRobot(robotId)) ==
            State(map[], [], true, map[row.serialNumber := [Wire(rule)]])
  {
    assert Without([rule], OfRobot(robotId)) == [] by {
      assert [rule][..0] == [] && Without([], OfRobot(robotId)) == [];
    }
    hide Without, OfRobot, Wire;
    assert map[robotId := row] - {robotId} == map[];
  }

  lemma ReuseBreaksOneRule(robotId: string, row: RobotRow, rule: Rule, other: string)
    requires rule.robotId == robotId
    ensures !Replicated(Next(Next(OneRule(robotId, row, rule), DeleteRobot(robotId)), RegisterRobot(other, row)))
  {
    DeleteOneRule(robotId, row, rule);
    hide Wire, OneRule;
    var gone := State(map[], [], true, map[row.serialNumber := [Wire(rule)]]);
    RegisterReplicatesIff(gone, other, row);
  }

  /** A robot deleted and its serial registered again: the broker still serves the old robot's rules. */
  lemma ReusedSerialIsStale(robotId: string, other: string, row: RobotRow, ruleId: string, name: string,
                            eventType: string, dto: Fields)
    requires Or(dto.enabled, true)
    ensures !Replicated(Run(Empty(), [RegisterRobot(robotId, row), Connect,
                                      Create(robotId, row.userId, ruleId, name, eventType, dto),
                                      DeleteRobot(robotId), RegisterRobot(other, row)]))
  {
    var create := Create(robotId, row.userId, ruleId, name, eventType, dto);
    var es := [RegisterRobot(robotId, row), Connect, create];
    ReuseBreaksOneRule(robotId, row, NewRule(ruleId, robotId, name, eventType, dto), other);
    hide Next, Run, Replicated, NewRule, OneRule;
    RegisterConnectCreate(robotId, row, ruleId, name, eventType, dto);
    RunAppend(Empty(), es, DeleteRobot(robotId));
    RunAppend(Empty(), es + [DeleteRobot(robotId)], RegisterRobot(other, row));
    assert es + [DeleteRobot(robotId)] + [RegisterRobot(other, row)] ==
           [RegisterRobot(robotId, row), Connect, create, DeleteRobot(robotId), RegisterRobot(other, row)];
  }

  lemma RenameBreaksOneRule(robotId: string, row: RobotRow, rule: Rule, serialNumber: string)
    requires rule.robotId == robotId && rule.enabled && serialNumber != row.serialNumber
    ensures !Replicated(Next(OneRule(robotId, row, rule), RenameRobot(robotId, serialNumber)))
  {
    var s := OneRule(robotId, row, rule);
    OneRuleProjection(rule);
    assert rule in s.rules && serialNumber !in Serials(s);
    hide Projection;
    RenameReplicatesIff(s, robotId, serialNumber);
  }

  /** A robot with an enabled rule renamed to an unused serial: nothing is retained for it. */
  lemma RenamedRobotLosesRules(robotId: string, row: RobotRow, ruleId: string, name: string, eventType: string,
                               dto: Fields, serialNumber: string)
    requires Or(dto.enabled, true) && serialNumber != row.serialNumber
    ensures !Replicated(Run(Empty(), [RegisterRobot(robotId, row), Connect,
                                      Create(robotId, row.userId, ruleId, name, eventType, dto),
                                      RenameRobot(robotId, serialNumber)]))
  {
    var create, rename := Create(robotId, row.userId, ruleId, name, eventType, dto), RenameRobot(robotId, serialNumber);
    var es := [RegisterRobot(robotId, row), Connect, create];
    RenameBreaksOneRule(robotId, row, NewRule(ruleId, robotId, name, eventType, dto), serialNumber);
    hide Next, Run, Replicated, NewRule, OneRule;
    RegisterConnectCreate(robotId, row, ruleId, name, eventType, dto);
    RunAppend(Empty(), es, rename);
    assert es + [rename] == [RegisterRobot(robotId, row), Connect, create, rename];
  }

  // ---------- The service ----------

  class AlarmRuleService {
    var robots: map<string, RobotRow>
    var rules: seq<Rule>
    var connected: bool
    var retained: map<string, seq<WireRule>>

    ghost function View(): State
      reads this
    {
      State(robots, rules, connected, retained)
    }

    /** Starts against an empty database, with the broker not yet connected. */
    constructor ()
      ensures View() == Empty()
      ensures Sound(View()) && Replicated(View())
    {
      robots, rules, connected, retained := map[], [], false, map[];
    }

    method AssertOwnership(robotId: string, userId: string) returns (denied: Option<Result>)
      ensures denied == Access(View(), robotId, userId)
    {
      if robotId !in robots { return Some(RobotNotFound); }
      if robots[robotId].userId != userId { return Some(AccessDenied); }
      return None;
    }

    method PublishRulesForRobot(robotId: string)
      modifies this`retained
      ensures View() == Publish(old(View()), robotId)
    {
      if robotId !in robots { return; }
      var payload := Projection(rules, robotId);
      PublishAlarmRules(robots[robotId].serialNumber, payload);
    }

    method PublishAlarmRules(serialNumber: string, payload: seq<WireRule>)
      modifies this`retained
      ensures retained == if connected then old(retained)[serialNumber := payload] else old(retained)
    {
      if !connected { return; }
      retained := retained[serialNumber := payload];
    }

    method CreateRule(robotId: string, userId: string, ruleId: string, name: string, eventType: string, dto: Fields)
      returns (r: Result)
      requires Find(rules, ruleId).None?
      modifies this`rules, this`retained
      ensures View() == Next(old(View()), Create(robotId, userId, ruleId, name, eventType, dto))
      ensures r.RobotNotFound? <==> robotId !in robots
      ensures r.AccessDenied? <==> robotId in robots && robots[robotId].userId != userId
      ensures r.RobotNotFound? || r.AccessDenied? || r == Done(NewRule(ruleId, robotId, name, eventType, dto))
      ensures r.Done? ==> rules == old(rules) + [r.rule]
      ensures !r.Done? ==> View() == old(View())
    {
      var denied := AssertOwnership(robotId, userId);
      if denied.Some? { return denied.value; }
      var rule := NewRule(ruleId, robotId, name, eventType, dto);
      rules := rules + [rule];
      PublishRulesForRobot(robotId);
      return Done(rule);
    }

    /** Sets the columns that the request names, one after another. */
    method UpdateRow(r: Rule, dto: Fields) returns (updated: Rule)
      ensures updated == Applied(r, dto)
      ensures updated.id == r.id && updated.robotId == r.robotId
      ensures dto == Nothing() ==> updated == r
      ensures dto == OnlyNotify(dto) ==> Wire(updated) == Wire(r)
      ensures dto.notifyEmail == Some(None) ==> updated.notifyEmail == None
      ensures Applied(updated, dto) == updated
    {
      var name, eventType, enabled := r.name, r.eventType, r.enabled;
      var continuousDurationS, cooldownS := r.continuousDurationS, r.cooldownS;
      var lightPattern, buzzerPattern, windows := r.lightPattern, r.buzzerPattern, r.windows;
      if dto.name.Some? { name := dto.name.value; }
      if dto.eventType.Some? { eventType := dto.eventType.value; }
      if dto.enabled.Some? { enabled := dto.enabled.value; }
      if dto.continuousDurationS.Some? { continuousDurationS := dto.continuousDurationS.value; }
      if dto.cooldownS.Some? { cooldownS := dto.cooldownS.value; }
      if dto.lightPattern.Some? { lightPattern := dto.lightPattern.value; }
      if dto.buzzerPattern.Some? { buzzerPattern := dto.buzzerPattern.value; }
      if dto.windows.Some? { windows := dto.windows; }
      var notifyOwner, notifyAdmins, notifyEmail, notifyZaloIds := UpdateNotifyColumns(r, dto);
      updated := Rule(r.id, r.robotId, name, eventType, enabled, continuousDurationS, cooldownS, lightPattern,
                      buzzerPattern, windows, notifyOwner, notifyAdmins, notifyEmail, notifyZaloIds);
      assert updated == Applied(r, dto);
      hide Applied, Nothing, OnlyNotify, Wire;
      NothingChangesNothing(r, dto);
      NotifyStaysOffTheWire(r, dto);
      ApplyingTwiceIsOnce(r, dto);
      assert updated.notifyEmail == Or(dto.notifyEmail, r.notifyEmail);
    }

    method UpdateNotifyColumns(r: Rule, dto: Fields)
      returns (notifyOwner: bool, notifyAdmins: bool, notifyEmail: Option<string>, notifyZaloIds: Option<seq<string>>)
      ensures var a := Applied(r, dto);
              (notifyOwner, notifyAdmins, notifyEmail, notifyZaloIds) ==
              (a.notifyOwner, a.notifyAdmins, a.notifyEmail, a.notifyZaloIds)
    {
      notifyOwner, notifyAdmins := r.notifyOwner, r.notifyAdmins;
      notifyEmail, notifyZaloIds := r.notifyEmail, r.notifyZaloIds;
      if dto.notifyOwner.Some? { notifyOwner := dto.notifyOwner.value; }
      if dto.notifyAdmins.Some? { notifyAdmins := dto.notifyAdmins.value; }
      if dto.notifyEmail.Some? { notifyEmail := dto.notifyEmail.value; }
      if dto.notifyZaloIds.Some? { notifyZaloIds := dto.notifyZaloIds; }
    }

    method UpdateRule(robotId: string, ruleId: string, userId: string, dto: Fields) returns (r: Result)
      modifies this`rules, this`retained
      ensures View() == Next(old(View()), Update(robotId, ruleId, userId, dto))
      ensures var denied := UpdateAccess(old(View()), robotId, ruleId, userId, dto);
              r == if denied.Some? then denied.value else Done(Applied(Find(old(rules), ruleId).value, dto))
      ensures r.RobotNotFound? <==> robotId !in robots
      ensures r.AccessDenied? <==> robotId in robots && robots[robotId].userId != userId
      ensures r.RuleNotFound? <==>
                Owns(View(), robotId, userId) && forall x :: x in old(rules) ==> x.id != ruleId
      ensures r.WrongRobot? || r.Done? ==> exists x ::
                x in old(rules) && x.id == ruleId && (r.WrongRobot? <==> x.robotId != robotId)
      ensures r.NullRefused? || r.Done? ==> (r.NullRefused? <==> dto.nullElsewhere)
      ensures !r.Done? ==> View() == old(View())
    {
      var denied := AssertOwnership(robotId, userId);
      if denied.Some? { return denied.value; }
      var existing := Find(rules, ruleId);
      if existing.None? { return RuleNotFound; }
      if existing.value.robotId != robotId { return WrongRobot; }
      if dto.nullElsewhere { return NullRefused; }
      var updated := UpdateRow(existing.value, dto);
      rules := Replace(rules, updated);
      PublishRulesForRobot(robotId);
      return Done(updated);
    }

    method RemoveRule(robotId: string, ruleId: string, userId: string) returns (r: Result)
      modifies this`rules, this`retained
      ensures View() == Next(old(View()), Remove(robotId, ruleId, userId))
      ensures var denied := RuleAccess(old(View()), robotId, ruleId, userId);
              r == if denied.Some? then denied.value else Done(Find(old(rules), ruleId).value)
      ensures r.RobotNotFound? <==> robotId !in robots
      ensures r.AccessDenied? <==> robotId in robots && robots[robotId].userId != userId
      ensures r.RuleNotFound? <==>
                Owns(View(), robotId, userId) && forall x :: x in old(rules) ==> x.id != ruleId
      ensures r.WrongRobot? || r.Done? ==> exists x ::
                x in old(rules) && x.id == ruleId && (r.Done? <==> x.robotId == robotId)
      ensures !r.Done? ==> View() == old(View())
    {
      var denied := AssertOwnership(robotId, userId);
      if denied.Some? { return denied.value; }
      var existing := Find(rules, ruleId);
      if existing.None? { return RuleNotFound; }
      if existing.value.robotId != robotId { return WrongRobot; }
      rules := Without(rules, HasId(ruleId));
      PublishRulesForRobot(robotId);
      return Done(existing.value);
    }

    /** The broker's connect event: every robot's rules are published again. */
    method OnConnect()
      requires Sound(View())
      modifies this`connected, this`retained
      ensures View() == Next(old(View()), Connect)
    {
      connected := true;
      ghost var s := View();
      var todo := robots.Keys;
      assert View() == s.(retained := retained);
      hide Projection, UniqueIds;
      while todo != {}
        invariant todo <= robots.Keys && connected
        invariant View() == s.(retained := retained)
        invariant forall t :: Get(retained, t) == Target(s, todo, t)
        decreases todo
      {
        var id :| id in todo;
        OneMorePublished(s, todo, id);
        todo := todo - {id};
        PublishRulesForRobot(id);
      }
      AllPublished(s, retained);
    }
  }

  /** What is retained under t while the robots in todo are still to be published. */
  ghost function Target(s: State, todo: set<string>, t: string): Option<seq<WireRule>> {
    if t in Serials(s) && RobotWith(s, t) !in todo then Some(Projection(s.rules, RobotWith(s, t)))
    else Get(s.retained, t)
  }

  lemma OneMorePublished(s: State, todo: set<string>, id: string)
    requires Sound(s) && id in todo && id in s.robots
    ensures forall t :: Target(s, todo - {id}, t) ==
              if t == s.robots[id].serialNumber then Some(Projection(s.rules, id)) else Target(s, todo, t)
  {
    hide Projection, UniqueIds;
    assert s.robots[id].serialNumber in Serials(s);
  }

  lemma AllPublished(s: State, retained: map<string, seq<WireRule>>)
    requires forall t :: Get(retained, t) == Target(s, {}, t)
    ensures retained == Hydrated(s).retained
  {
    hide Projection;
    forall t ensures t in retained <==> t in Hydrated(s).retained {
      assert Get(retained, t) == Target(s, {}, t);
    }
    forall t | t in retained ensures retained[t] == Hydrated(s).retained[t] {
      assert Get(retained, t) == Target(s, {}, t);
    }
  }
}
