/** Topic parsing and construction in src/modules/mqtt-ingest/mqtt-ingest.service.ts. */
module Topics {
  import opened Common

  /** JavaScript's split on a slash: always at least one part. */
  function Split(s: string): (parts: seq<string>)
    ensures parts != []
  {
    if s == "" then [""]
    else
      var rest := Split(s[1..]);
      if s[0] == '/' then [""] + rest else [[s[0]] + rest[0]] + rest[1..]
  }

  function Join(parts: seq<string>): string
    requires parts != []
  {
    if |parts| == 1 then parts[0] else parts[0] + "/" + Join(parts[1..])
  }

  lemma JoinCons(part: string, rest: seq<string>)
    requires rest != []
    ensures Join([part] + rest) == part + "/" + Join(rest)
  {
    assert ([part] + rest)[1..] == rest;
  }

  lemma {:induction false} JoinSplit(s: string)
    ensures Join(Split(s)) == s
  {
    if s != "" {
      JoinSplit(s[1..]);
      var rest := Split(s[1..]);
      JoinCons("", rest);
      JoinPrepends(s[0], rest);
      hide Join;
      assert s == [s[0]] + s[1..];
    }
  }

  lemma JoinPrepends(c: char, parts: seq<string>)
    requires parts != []
    ensures Join([[c] + parts[0]] + parts[1..]) == [c] + Join(parts)
  {
    var more := [[c] + parts[0]] + parts[1..];
    assert more[1..] == parts[1..];
  }

  lemma {:induction false} PartsAreSlashFree(s: string)
    ensures forall i :: 0 <= i < |Split(s)| ==> '/' !in Split(s)[i]
  {
    if s != "" {
      PartsAreSlashFree(s[1..]);
    }
  }

  /** A slash-free part in front is split off whole. */
  lemma {:induction false} SplitFirst(part: string, rest: string)
    requires '/' !in part
    ensures Split(part + "/" + rest) == [part] + Split(rest)
  {
    var s := part + "/" + rest;
    if part == "" {
      assert s[1..] == rest;
    } else {
      SplitFirst(part[1..], rest);
      assert s[1..] == part[1..] + "/" + rest;
      assert part == [part[0]] + part[1..];
    }
  }

  /** The serial and the suffix, which may have several segments; None when the topic is not ours. */
  function ParseTopic(prefix: string, topic: string): Option<(string, string)> {
    var parts := Split(topic);
    if |parts| < 3 || parts[0] != prefix then None
    else
      var serial, suffix := parts[1], Join(parts[2..]);
      if serial == "" || suffix == "" then None else Some((serial, suffix))
  }

  function Topic(prefix: string, serial: string, suffix: string): string {
    prefix + "/" + serial + "/" + suffix
  }

  /** Main result: exactly the topics that parsing gives back. */
  lemma TopicParsesBackIff(prefix: string, serial: string, suffix: string)
    ensures ParseTopic(prefix, Topic(prefix, serial, suffix)) == Some((serial, suffix)) <==>
            '/' !in prefix && '/' !in serial && serial != "" && suffix != ""
  {
    var topic := Topic(prefix, serial, suffix);
    JoinSplit(topic);
    PartsAreSlashFree(topic);
    if '/' !in prefix && '/' !in serial {
      assert topic == prefix + "/" + (serial + "/" + suffix);
      SplitFirst(prefix, serial + "/" + suffix);
      SplitFirst(serial, suffix);
      assert Split(topic)[2..] == Split(suffix);
      JoinSplit(suffix);
    }
  }

  /** Conversely, an accepted topic is rebuilt exactly from its parts. */
  lemma AcceptedTopicRebuilds(prefix: string, topic: string)
    requires ParseTopic(prefix, topic).Some?
    ensures var (serial, suffix) := ParseTopic(prefix, topic).value;
            topic == Topic(prefix, serial, suffix) && '/' !in prefix && '/' !in serial && serial != "" && suffix != ""
  {
    JoinSplit(topic);
    PartsAreSlashFree(topic);
    var parts := Split(topic);
    assert Join(parts) == parts[0] + "/" + Join(parts[1..]);
    assert Join(parts[1..]) == parts[1] + "/" + Join(parts[1..][1..]) && parts[1..][1..] == parts[2..];
  }

  // ---------- Forwarded commands ----------

  const FORWARD_SUFFIX_WHITELIST: set<string> :=
    {"command", "motor", "speed", "emergency", "light", "main_light", "safety_config", "nav_command", "gps_route",
     "buzzer", "light_pattern", "odom_reset", "light_schedule"}

  /** The suffixes that ingest handles. */
  const INGEST_SUFFIXES: set<string> :=
    {"alert", "heartbeat", "status", "safety", "alarm/triggered", "battery", "peripherals/state"}

  datatype Forward = Sent(topic: string) | SuffixNotAllowed | BrokerOffline

  function PublishToRobot(prefix: string, connected: bool, serial: string, suffix: string): Forward {
    if suffix !in FORWARD_SUFFIX_WHITELIST then SuffixNotAllowed
    else if !connected then BrokerOffline
    else Sent(Topic(prefix, serial, suffix))
  }

  /** Main result: exactly what is sent, and why the rest is not. */
  lemma SentIff(prefix: string, connected: bool, serial: string, suffix: string)
    ensures var r := PublishToRobot(prefix, connected, serial, suffix);
            var allowed := suffix in {"command", "motor", "speed", "emergency", "light", "main_light", "safety_config",
                                      "nav_command", "gps_route", "buzzer", "light_pattern", "odom_reset",
                                      "light_schedule"};
            && (r.Sent? <==> allowed && connected) && (r.SuffixNotAllowed? <==> !allowed)
            && (r.BrokerOffline? <==> allowed && !connected)
            && (r.Sent? ==> r.topic == prefix + "/" + serial + "/" + suffix)
  {
  }

  /** A topic of a slash-free serial reaches the robot whole: it parses to that serial and that suffix. */
  lemma SentParsesBack(prefix: string, serial: string, suffix: string)
    requires '/' !in prefix && '/' !in serial && serial != "" && suffix in FORWARD_SUFFIX_WHITELIST
    ensures var r := PublishToRobot(prefix, true, serial, suffix);
            r.Sent? && ParseTopic(prefix, r.topic) == Some((serial, suffix))
  {
    TopicParsesBackIff(prefix, serial, suffix);
    assert suffix != "";
  }

  lemma {:induction false} SplitConcat(s: string, last: string)
    requires '/' !in last
    ensures Split(s + "/" + last) == Split(s) + [last]
  {
    var all := s + "/" + last;
    if s == "" {
      assert all[1..] == last;
      SlashFreeIsOnePart(last);
    } else {
      SplitConcat(s[1..], last);
      assert all[1..] == s[1..] + "/" + last;
    }
  }

  lemma {:induction false} SlashFreeIsOnePart(s: string)
    requires '/' !in s
    ensures Split(s) == [s]
  {
    if s != "" {
      SlashFreeIsOnePart(s[1..]);
      assert s == [s[0]] + s[1..];
    }
  }

  lemma {:induction false} JoinAppend(parts: seq<string>, last: string)
    requires parts != []
    ensures Join(parts + [last]) == Join(parts) + "/" + last
  {
    if |parts| == 1 {
      assert (parts + [last])[1..] == [last];
    } else {
      JoinAppend(parts[1..], last);
      assert (parts + [last])[1..] == parts[1..] + [last];
    }
  }

  /** However many slashes prefix and serial hold, what is parsed as the suffix ends with the last part. */
  lemma ParsedSuffixEnds(prefix: string, topic: string, last: string)
    requires '/' !in last
    ensures var r := ParseTopic(prefix, topic + "/" + last);
            r.Some? ==> r.value.1 == last || exists front :: r.value.1 == front + "/" + last
  {
    SplitConcat(topic, last);
    var parts := Split(topic);
    if |parts| == 2 {
      assert (parts + [last])[2..] == [last];
    } else if |parts| > 2 {
      assert (parts + [last])[2..] == parts[2..] + [last];
      JoinAppend(parts[2..], last);
    }
  }

  /** No telemetry suffix is a forwarded one, or ends in a slash and a forwarded one. */
  lemma NoTelemetryEndsForwarded(telemetry: string, front: string, suffix: string)
    requires telemetry in INGEST_SUFFIXES && suffix in FORWARD_SUFFIX_WHITELIST
    ensures telemetry != suffix && telemetry != front + "/" + suffix
  {
    if telemetry == front + "/" + suffix {
      var n := |front|;
      assert telemetry[n] == '/' && telemetry[n + 1..] == suffix;
      SlashesInTelemetry(telemetry, n);
    }
  }

  lemma SlashesInTelemetry(telemetry: string, n: nat)
    requires telemetry in INGEST_SUFFIXES && n < |telemetry| && telemetry[n] == '/'
    ensures telemetry[n + 1..] in {"triggered", "state"}
  {
    assert telemetry in {"alarm/triggered", "peripherals/state"};
    if telemetry == "alarm/triggered" {
      assert n == 5 && telemetry[6..] == "triggered";
    } else {
      assert n == 11 && telemetry[12..] == "state";
    }
  }

  lemma ForwardedIsSlashFree(suffix: string)
    requires suffix in FORWARD_SUFFIX_WHITELIST
    ensures '/' !in suffix
  {
  }

  /**
    Main result: what the backend sends to a robot never comes back in as telemetry, of that robot
    or of another, whatever prefix and serial are.
  */
  lemma ForwardedIsNeverIngested(prefix: string, connected: bool, serial: string, suffix: string)
    requires PublishToRobot(prefix, connected, serial, suffix).Sent?
    ensures var r := ParseTopic(prefix, PublishToRobot(prefix, connected, serial, suffix).topic);
            r.Some? ==> r.value.1 !in INGEST_SUFFIXES
  {
    var r := ParseTopic(prefix, Topic(prefix, serial, suffix));
    assert Topic(prefix, serial, suffix) == prefix + "/" + serial + "/" + suffix;
    hide ParseTopic, Topic;
    ForwardedIsSlashFree(suffix);
    ParsedSuffixEnds(prefix, prefix + "/" + serial, suffix);
    if r.Some? && r.value.1 in INGEST_SUFFIXES {
      forall front ensures r.value.1 != suffix && r.value.1 != front + "/" + suffix {
        NoTelemetryEndsForwarded(r.value.1, front, suffix);
      }
    }
  }
}
