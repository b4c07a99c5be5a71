/**
  Detection alerts as src/modules/mqtt-ingest/mqtt-ingest.service.ts stores them: an upsert keyed by
  robot and robot-local alert id, so that redelivered messages do not multiply rows.
*/
module Alerts {
  import opened Common

  datatype AlertType = PERSON_DETECTED | FIRE_DETECTED | MOTION_DETECTED
  datatype Severity = INFO | WARNING | CRITICAL

  /** A field is None, and a list empty, when the payload's field is absent or of another type. */
  datatype Body = Body(id: Option<int>, kind: Option<string>, confidence: Option<real>, bbox: seq<int>,
                       frameSize: seq<int>, snapshotB64: Option<string>, snapshot: Option<string>, ts: Option<real>)

  /** The unstructured column. */
  datatype Data = Data(kind: string, snapshot: Option<string>, ts: Option<real>)

  datatype Row = Row(robotId: string, externalId: Option<int>, alertType: AlertType, severity: Severity,
                     message: string, data: Data, confidence: real, bboxX: Option<int>, bboxY: Option<int>,
                     bboxW: Option<int>, bboxH: Option<int>, frameWidth: Option<int>, frameHeight: Option<int>,
                     snapshotB64: Option<string>)

  datatype Delivery = Delivery(robotId: string, body: Body)

  /** Type, severity and message text of an alert of this kind. */
  function KindType(kind: string): Option<(AlertType, Severity, string)> {
    if kind == "person" then Some((PERSON_DETECTED, WARNING, "Phát hiện người trong khu vực tuần tra"))
    else if kind == "fire" then Some((FIRE_DETECTED, CRITICAL, "Cảnh báo: phát hiện lửa/khói"))
    else if kind == "motion" then Some((MOTION_DETECTED, INFO, "Phát hiện chuyển động bất thường"))
    else None
  }

  function At(xs: seq<int>, i: nat): Option<int> {
    if i < |xs| then Some(xs[i]) else None
  }

  /** Messages without kind or confidence, or of an unknown kind, are ignored. */
  predicate Accepted(b: Body) {
    b.kind.Some? && b.confidence.Some? && KindType(b.kind.value).Some?
  }

  function RowOf(d: Delivery): (r: Row)
    requires Accepted(d.body)
    ensures r.robotId == d.robotId && r.externalId == d.body.id
  {
    var b := d.body;
    var (alertType, severity, message) := KindType(b.kind.value).value;
    Row(d.robotId, b.id, alertType, severity, message, Data(b.kind.value, b.snapshot, b.ts), b.confidence.value,
        At(b.bbox, 0), At(b.bbox, 1), At(b.bbox, 2), At(b.bbox, 3), At(b.frameSize, 0), At(b.frameSize, 1),
        b.snapshotB64)
  }

  /** The alerts that are stored: with a confidence, and of one of three kinds. */
  lemma AcceptedIff(b: Body)
    ensures Accepted(b) <==> b.confidence.Some? && b.kind in {Some("person"), Some("fire"), Some("motion")}
  {
  }

  /** The row tells what the message told; absent box fields stay absent, further ones are dropped. */
  predicate Describes(r: Row, d: Delivery) {
    var b := d.body;
    && r.robotId == d.robotId && r.externalId == b.id && b.confidence == Some(r.confidence)
    && (b.kind == Some("person") ==> r.alertType == PERSON_DETECTED && r.severity == WARNING &&
                                     r.message == "Phát hiện người trong khu vực tuần tra")
    && (b.kind == Some("fire") ==> r.alertType == FIRE_DETECTED && r.severity == CRITICAL &&
                                   r.message == "Cảnh báo: phát hiện lửa/khói")
    && (b.kind == Some("motion") ==> r.alertType == MOTION_DETECTED && r.severity == INFO &&
                                     r.message == "Phát hiện chuyển động bất thường")
    && b.kind == Some(r.data.kind) && r.data.snapshot == b.snapshot && r.data.ts == b.ts
    && r.snapshotB64 == b.snapshotB64
    && Field(r.bboxX, b.bbox, 0) && Field(r.bboxY, b.bbox, 1) && Field(r.bboxW, b.bbox, 2) && Field(r.bboxH, b.bbox, 3)
    && Field(r.frameWidth, b.frameSize, 0) && Field(r.frameHeight, b.frameSize, 1)
  }

  predicate Field(column: Option<int>, xs: seq<int>, i: nat) {
    (column.Some? <==> i < |xs|) && (i < |xs| ==> column == Some(xs[i]))
  }

  lemma RowDescribes(d: Delivery, r: Row)
    requires Accepted(d.body)
    ensures r == RowOf(d) <==> Describes(r, d)
  {
    AcceptedIff(d.body);
  }

  /** The key that the upsert looks up: a message without an id looks for id 0. */
  function LookupId(b: Body): int {
    if b.id.Some? then b.id.value else 0
  }

  predicate HasRow(rows: seq<Row>, robotId: string, externalId: int) {
    exists i :: 0 <= i < |rows| && rows[i].robotId == robotId && rows[i].externalId == Some(externalId)
  }

  function Upsert(rows: seq<Row>, d: Delivery): seq<Row> {
    if !Accepted(d.body) || HasRow(rows, d.robotId, LookupId(d.body)) then rows else rows + [RowOf(d)]
  }

  function Table(ds: seq<Delivery>): seq<Row> {
    if ds == [] then [] else Upsert(Table(ds[..|ds| - 1]), ds[|ds| - 1])
  }

  predicate Numeric(ds: seq<Delivery>) {
    forall i :: 0 <= i < |ds| ==> ds[i].body.id.Some?
  }

  /** The row of d, once stored, is the one that e looks up. */
  predicate Holds(d: Delivery, e: Delivery) {
    d.robotId == e.robotId && d.body.id == Some(LookupId(e.body))
  }

  /**
    An accepted delivery before position i holds the key that ds[i] looks up. For a message with an
    id that is an earlier delivery of the same alert; for one without, any alert with id 0.
  */
  ghost predicate KeyTaken(ds: seq<Delivery>, i: nat)
    requires i < |ds|
  {
    exists j :: 0 <= j < i && Accepted(ds[j].body) && Holds(ds[j], ds[i])
  }

  /** Rows with an id are exactly the accepted alerts with an id delivered, each once. */
  lemma {:induction false} RowIffDelivered(ds: seq<Delivery>, robotId: string, externalId: int)
    ensures HasRow(Table(ds), robotId, externalId) <==>
            exists i ::
              && 0 <= i < |ds| && Accepted(ds[i].body)
              && ds[i].robotId == robotId && ds[i].body.id == Some(externalId)
  {
    if ds != [] {
      var n := |ds| - 1;
      var before, after := Table(ds[..n]), Table(ds);
      RowIffDelivered(ds[..n], robotId, externalId);
      if HasRow(before, robotId, externalId) {
        var i :| 0 <= i < |before| && before[i].robotId == robotId && before[i].externalId == Some(externalId);
        assert after[i] == before[i];
      }
      if after != before {
        assert after[|before|] == RowOf(ds[n]);
      }
    }
  }

  lemma KeyTakenInPrefix(ds: seq<Delivery>, n: nat, i: nat)
    requires i < n <= |ds|
    ensures KeyTaken(ds[..n], i) <==> KeyTaken(ds, i)
  {
    assert forall j :: 0 <= j <= i ==> ds[..n][j] == ds[j];
  }

  lemma KeyTakenIffRow(ds: seq<Delivery>, n: nat)
    requires n < |ds|
    ensures KeyTaken(ds, n) <==> HasRow(Table(ds[..n]), ds[n].robotId, LookupId(ds[n].body))
  {
    RowIffDelivered(ds[..n], ds[n].robotId, LookupId(ds[n].body));
    assert forall j :: 0 <= j < n ==> ds[..n][j] == ds[j];
  }

  /** Main result: in any stream an accepted delivery gets its own row iff its key is not taken. */
  lemma StoredIff(ds: seq<Delivery>, i: nat)
    requires i < |ds| && Accepted(ds[i].body)
    ensures Table(ds[..i + 1]) == if KeyTaken(ds, i) then Table(ds[..i]) else Table(ds[..i]) + [RowOf(ds[i])]
  {
    KeyTakenIffRow(ds, i);
    assert ds[..i + 1] == ds[..i] + [ds[i]];
    TableAppend(ds[..i], ds[i]);
  }

  lemma TableAppend(ds: seq<Delivery>, d: Delivery)
    ensures Table(ds + [d]) == Upsert(Table(ds), d)
  {
    assert (ds + [d])[..|ds|] == ds;
  }

  lemma SameTableAfterOneMore(ds: seq<Delivery>, keep: seq<bool>)
    requires |keep| == |ds| > 0
    requires var n := |ds| - 1;
             && Table(Pick(ds[..n], keep[..n])) == Table(ds[..n])
             && (keep[n] || HasRow(Table(ds[..n]), ds[n].robotId, LookupId(ds[n].body)))
    ensures Table(Pick(ds, keep)) == Table(ds)
  {
    var n := |ds| - 1;
    TableAppend(Pick(ds[..n], keep[..n]), ds[n]);
    hide HasRow, RowOf;
  }

  ghost predicate OnlyTakenDropped(ds: seq<Delivery>, keep: seq<bool>)
    requires |keep| == |ds|
  {
    forall i :: 0 <= i < |ds| && !keep[i] ==> KeyTaken(ds, i)
  }

  lemma DroppedInPrefix(ds: seq<Delivery>, keep: seq<bool>)
    requires |keep| == |ds| > 0 && OnlyTakenDropped(ds, keep)
    ensures var n := |ds| - 1;
            && OnlyTakenDropped(ds[..n], keep[..n])
            && (keep[n] || HasRow(Table(ds[..n]), ds[n].robotId, LookupId(ds[n].body)))
  {
    var n := |ds| - 1;
    forall i | 0 <= i < n && !keep[..n][i] ensures KeyTaken(ds[..n], i) {
      KeyTakenInPrefix(ds, n, i);
    }
    KeyTakenIffRow(ds, n);
  }

  /**
    Main result: deleting any deliveries whose key is taken, redeliveries above all, leaves the
    table as it was.
  */
  lemma {:induction false} RedeliveriesDoNotMatter(ds: seq<Delivery>, keep: seq<bool>)
    requires |keep| == |ds| && OnlyTakenDropped(ds, keep)
    ensures Table(Pick(ds, keep)) == Table(ds)
  {
    if ds != [] {
      var n := |ds| - 1;
      hide HasRow, RowOf, OnlyTakenDropped, Table, Pick;
      DroppedInPrefix(ds, keep);
      RedeliveriesDoNotMatter(ds[..n], keep[..n]);
      SameTableAfterOneMore(ds, keep);
    }
  }

  /** The unique index: rows without an id do not clash. */
  ghost predicate OneRowEach(rows: seq<Row>) {
    forall i, j :: 0 <= i < j < |rows| && rows[i].externalId.Some? ==>
      rows[i].robotId != rows[j].robotId || rows[i].externalId != rows[j].externalId
  }

  /** Main result: there is one row per alert with an id. */
  lemma {:induction false} OneRowPerAlert(ds: seq<Delivery>)
    ensures OneRowEach(Table(ds))
    ensures Numeric(ds) ==> forall i :: 0 <= i < |Table(ds)| ==> Table(ds)[i].externalId.Some?
  {
    if ds != [] {
      var n := |ds| - 1;
      var before, d := Table(ds[..n]), ds[n];
      OneRowPerAlert(ds[..n]);
      if Table(ds) != before {
        forall i | 0 <= i < |before| && before[i].externalId.Some?
          ensures before[i].robotId != d.robotId || before[i].externalId != d.body.id
        {
          assert !HasRow(before, d.robotId, LookupId(d.body));
        }
      }
    }
  }

  /** Accepted, with a key that is not taken. */
  ghost predicate IsFirst(ds: seq<Delivery>, i: nat) {
    i < |ds| && Accepted(ds[i].body) && !KeyTaken(ds, i)
  }

  ghost predicate FromFirst(ds: seq<Delivery>, r: Row) {
    exists i: nat :: IsFirst(ds, i) && Describes(r, ds[i])
  }

  lemma FirstsOfPrefix(ds: seq<Delivery>, r: Row)
    requires ds != []
    ensures FromFirst(ds, r) <==>
            FromFirst(ds[..|ds| - 1], r) || (IsFirst(ds, |ds| - 1) && Describes(r, ds[|ds| - 1]))
  {
    var n := |ds| - 1;
    forall i: nat | i < n ensures IsFirst(ds[..n], i) <==> IsFirst(ds, i) {
      KeyTakenInPrefix(ds, n, i);
    }
    hide KeyTaken, Describes;
    if FromFirst(ds[..n], r) {
      var i: nat :| IsFirst(ds[..n], i) && Describes(r, ds[..n][i]);
      assert IsFirst(ds, i) && ds[i] == ds[..n][i];
    }
    if FromFirst(ds, r) {
      var i: nat :| IsFirst(ds, i) && Describes(r, ds[i]);
      assert i < n ==> IsFirst(ds[..n], i) && ds[i] == ds[..n][i];
    }
  }

  /** Main result: the rows are what the first accepted deliveries brought, however often others repeat them. */
  lemma {:induction false} FirstDeliveryWins(ds: seq<Delivery>, r: Row)
    ensures r in Table(ds) <==> FromFirst(ds, r)
  {
    if ds == [] {
      assert !FromFirst(ds, r);
    } else {
      FirstDeliveryWins(ds[..|ds| - 1], r);
      FirstsOfPrefix(ds, r);
      KeyTakenIffRow(ds, |ds| - 1);
      if Accepted(ds[|ds| - 1].body) { RowDescribes(ds[|ds| - 1], r); }
      hide KeyTaken, HasRow, FromFirst, RowOf, Describes;
    }
  }

  /** Without a numeric id the upsert protects only when a row with id 0 happens to exist. */
  lemma IdlessRedeliveryIgnoredIff(rows: seq<Row>, d: Delivery)
    requires Accepted(d.body) && d.body.id.None?
    ensures Upsert(Upsert(rows, d), d) == Upsert(rows, d) <==> HasRow(rows, d.robotId, 0)
  {
    var once := Upsert(rows, d);
    if !HasRow(rows, d.robotId, 0) {
      assert once == rows + [RowOf(d)];
      assert !HasRow(once, d.robotId, 0);
    }
  }

  /** A first alert without an id, delivered twice, is stored twice. */
  lemma IdlessAlertStoredTwice(d: Delivery)
    requires Accepted(d.body) && d.body.id.None?
    ensures Table([d, d]) == [RowOf(d), RowOf(d)]
  {
    TableAppend([], d);
    TableAppend([d], d);
    assert [] + [d] == [d] && [d] + [d] == [d, d];
    assert Table([d]) == [RowOf(d)] && !HasRow([RowOf(d)], d.robotId, 0);
  }

  /** After an alert with id 0, every alert of that robot without an id is lost, whatever it reports. */
  lemma IdlessAlertLost(d: Delivery, e: Delivery)
    requires Accepted(d.body) && d.body.id == Some(0)
    requires Accepted(e.body) && e.body.id.None? && e.robotId == d.robotId
    ensures Table([d, e]) == [RowOf(d)] && RowOf(e) !in Table([d, e])
  {
    TableAppend([], d);
    TableAppend([d], e);
    assert [] + [d] == [d] && [d] + [e] == [d, e];
    assert Table([d]) == [RowOf(d)];
    assert [RowOf(d)][0].externalId == Some(0);
  }

  /** What goes out on the socket: the row without its picture. */
  function ForBroadcast(r: Row): Row {
    r.(snapshotB64 := None)
  }

  class AlertStore {
    var rows: seq<Row>

    constructor ()
      ensures rows == []
    {
      rows := [];
    }

    /**
      Stores the alert unless its key is taken, and broadcasts the row under that key; writeOk is
      false when the upsert throws.
    */
    method HandleAlertMessage(robotId: string, body: Body, writeOk: bool) returns (broadcast: Option<Row>)
      modifies this
      ensures rows == if writeOk then Upsert(old(rows), Delivery(robotId, body)) else old(rows)
      ensures broadcast.Some? <==>
                writeOk && body.confidence.Some? && body.kind in {Some("person"), Some("fire"), Some("motion")}
      ensures broadcast.Some? ==> exists row ::
                && row in rows && broadcast.value == row.(snapshotB64 := None)
                && (if HasRow(old(rows), robotId, LookupId(body))
                    then row.robotId == robotId && row.externalId == Some(LookupId(body))
                    else Describes(row, Delivery(robotId, body)))
    {
      AcceptedIff(body);
      if body.kind.None? || body.confidence.None? { return None; }
      if KindType(body.kind.value).None? { return None; }
      if !writeOk { return None; }
      var alert := FindRow(robotId, LookupId(body));
      RowDescribes(Delivery(robotId, body), RowOf(Delivery(robotId, body)));
      hide Describes;
      if alert.None? {
        var row := RowOf(Delivery(robotId, body));
        rows := rows + [row];
        alert := Some(row);
      }
      assert alert.value in rows;
      return Some(ForBroadcast(alert.value));
    }

    method FindRow(robotId: string, externalId: int) returns (found: Option<Row>)
      ensures found.Some? <==> HasRow(rows, robotId, externalId)
      ensures found.Some? ==>
                found.value in rows && found.value.robotId == robotId && found.value.externalId == Some(externalId)
    {
      var i := 0;
      while i < |rows|
        invariant 0 <= i <= |rows|
        invariant forall k :: 0 <= k < i ==> !(rows[k].robotId == robotId && rows[k].externalId == Some(externalId))
      {
        if rows[i].robotId == robotId && rows[i].externalId == Some(externalId) { return Some(rows[i]); }
        i := i + 1;
      }
      return None;
    }
  }
}
