/**
 * Validation of speed records arriving from the API. A decoded JSON value is
 * checked field by field against the wire schema (numeric lane 0/1) or the
 * internal schema (lane "Left"/"Right"); the result is either the typed
 * record or the list of fields that failed. Arrays validate element-wise.
 */
module Validation {
  import opened Wrappers
  import opened SpeedData

  /** A decoded JSON value (numbers as exact reals). */
  datatype Json =
    | JNull
    | JBool(b: bool)
    | JNumber(n: real)
    | JString(s: string)
    | JArray(items: seq<Json>)
    | JObject(fields: map<string, Json>)

  /** The path of a failed check below the element: the value itself, or one of the record's keys. */
  datatype Field = Whole | Id | SensorName | Speed | LaneField | CreatedAt

  /** The JSON key a field is read from. */
  function Key(f: Field): string
    requires !f.Whole?
  {
    match f
    case Id => "id"
    case SensorName => "sensor_name"
    case Speed => "speed"
    case LaneField => "lane"
    case CreatedAt => "created_at"
  }

  /** Where a check failed: the element index (for arrays) and the field. */
  datatype Issue = Issue(index: Option<nat>, field: Field)

  /** A record as the wire schema types it: lane is 0 or 1. */
  datatype WireRecord = WireRecord(id: int, sensorName: Option<string>, speed: real, lane: int, createdAt: string)

  /** A record as the internal schema types it: lane is the enum, the date still text. */
  datatype InternalRecord = InternalRecord(id: int, sensorName: Option<string>, speed: real, lane: Lane, createdAt: string)

  // ------------------------------------------------------------ field checks

  predicate IsInteger(x: real)
  {
    x.Floor as real == x
  }

  /** `z.number().int().positive()`. */
  predicate IdOk(j: Json)
  {
    j.JNumber? && IsInteger(j.n) && j.n > 0.0
  }

  /** `z.string().nullable()`. */
  predicate SensorNameOk(j: Json)
  {
    j.JNull? || j.JString?
  }

  /** `z.number().min(0).max(500)`. */
  predicate SpeedOk(j: Json)
  {
    j.JNumber? && 0.0 <= j.n <= 500.0
  }

  /** `z.union([z.literal(0), z.literal(1)])`. */
  predicate WireLaneOk(j: Json)
  {
    j.JNumber? && (j.n == 0.0 || j.n == 1.0)
  }

  /** `z.nativeEnum(Lane)`: the enum's string values. */
  predicate LaneNameOk(j: Json)
  {
    j.JString? && (j.s == "Left" || j.s == "Right")
  }

  predicate IsDigit(c: char)
  {
    '0' <= c <= '9'
  }

  predicate DigitsAt(s: string, from: nat, to: nat)
    requires from <= to <= |s|
  {
    forall i :: from <= i < to ==> IsDigit(s[i])
  }

  /**
   * `z.string().datetime()` with its defaults: `YYYY-MM-DDTHH:MM:SS`, an
   * optional fraction of one or more digits, and a final `Z` (no offset).
   */
  predicate IsoDateTime(s: string)
  {
    && |s| >= 20
    && DigitsAt(s, 0, 4) && s[4] == '-' && DigitsAt(s, 5, 7) && s[7] == '-' && DigitsAt(s, 8, 10)
    && s[10] == 'T'
    && DigitsAt(s, 11, 13) && s[13] == ':' && DigitsAt(s, 14, 16) && s[16] == ':' && DigitsAt(s, 17, 19)
    && s[|s| - 1] == 'Z'
    && (|s| == 20 || (|s| >= 22 && s[19] == '.' && DigitsAt(s, 20, |s| - 1)))
  }

  /** `z.string().datetime()`. */
  predicate CreatedAtOk(j: Json)
  {
    j.JString? && IsoDateTime(j.s)
  }

  // ----------------------------------------------------------- record schemas

  /** The object has the key and its value passes the check (a missing key is `undefined`, which every field rejects). */
  predicate Has(fields: map<string, Json>, name: string, ok: Json -> bool)
  {
    name in fields && ok(fields[name])
  }

  /** The wire schema, stated as one predicate. */
  predicate ValidWire(j: Json)
  {
    && j.JObject?
    && Has(j.fields, "id", IdOk)
    && Has(j.fields, "sensor_name", SensorNameOk)
    && Has(j.fields, "speed", SpeedOk)
    && Has(j.fields, "lane", WireLaneOk)
    && Has(j.fields, "created_at", CreatedAtOk)
  }

  /** The internal schema: the same, with the lane given by its enum name. */
  predicate ValidInternal(j: Json)
  {
    && j.JObject?
    && Has(j.fields, "id", IdOk)
    && Has(j.fields, "sensor_name", SensorNameOk)
    && Has(j.fields, "speed", SpeedOk)
    && Has(j.fields, "lane", LaneNameOk)
    && Has(j.fields, "created_at", CreatedAtOk)
  }

  /** One field's check: an issue naming the field exactly when it fails. */
  function FieldIssues(index: Option<nat>, fields: map<string, Json>, f: Field, ok: Json -> bool): (r: seq<Issue>)
    requires !f.Whole?
    ensures r == [] <==> Has(fields, Key(f), ok)
    ensures r != [] ==> r == [Issue(index, f)]
  {
    if Has(fields, Key(f), ok) then [] else [Issue(index, f)]
  }

  /** The record's keys, in the schema's order. */
  const RecordFields: seq<Field> := [Id, SensorName, Speed, LaneField, CreatedAt]

  /** The check a field must pass; the lane's depends on the schema. */
  function Check(f: Field, laneOk: Json -> bool): Json -> bool
    requires !f.Whole?
  {
    match f
    case Id => IdOk
    case SensorName => SensorNameOk
    case Speed => SpeedOk
    case LaneField => laneOk
    case CreatedAt => CreatedAtOk
  }

  /** The failing checks among `fs`, in order. */
  function FieldsIssues(index: Option<nat>, fields: map<string, Json>, fs: seq<Field>, laneOk: Json -> bool): (r: seq<Issue>)
    requires Whole !in fs
    ensures forall k :: 0 <= k < |r| ==> r[k].index == index && r[k].field in fs
  {
    if fs == [] then [] else
    assert fs[0] in fs;
    var rest := FieldsIssues(index, fields, fs[1..], laneOk);
    FieldIssues(index, fields, fs[0], Check(fs[0], laneOk)) + rest
  }

  /** A field has an issue exactly when it is one of the checked fields and its check fails. */
  lemma {:induction false} FieldsIssuesMembership(index: Option<nat>, fields: map<string, Json>, fs: seq<Field>, laneOk: Json -> bool, g: Field)
    requires Whole !in fs
    ensures Issue(index, g) in FieldsIssues(index, fields, fs, laneOk) <==> g in fs && !Has(fields, Key(g), Check(g, laneOk))
  {
    if fs != [] {
      FieldsIssuesMembership(index, fields, fs[1..], laneOk, g);
      assert fs == [fs[0]] + fs[1..];
    }
  }

  /**
   * Every failing check, in the schema's key order; a value that is not an
   * object fails as a whole.
   */
  function RecordIssues(index: Option<nat>, j: Json, laneOk: Json -> bool): (r: seq<Issue>)
    ensures !j.JObject? ==> r == [Issue(index, Whole)]
    ensures forall k :: 0 <= k < |r| ==> r[k].index == index
  {
    if !j.JObject? then [Issue(index, Whole)] else
    FieldsIssues(index, j.fields, RecordFields, laneOk)
  }

  /** An object's issues name exactly its failing fields. */
  lemma RecordIssuesNameFailures(index: Option<nat>, j: Json, laneOk: Json -> bool)
    requires j.JObject?
    ensures Issue(index, Id) in RecordIssues(index, j, laneOk) <==> !Has(j.fields, "id", IdOk)
    ensures Issue(index, SensorName) in RecordIssues(index, j, laneOk) <==> !Has(j.fields, "sensor_name", SensorNameOk)
    ensures Issue(index, Speed) in RecordIssues(index, j, laneOk) <==> !Has(j.fields, "speed", SpeedOk)
    ensures Issue(index, LaneField) in RecordIssues(index, j, laneOk) <==> !Has(j.fields, "lane", laneOk)
    ensures Issue(index, CreatedAt) in RecordIssues(index, j, laneOk) <==> !Has(j.fields, "created_at", CreatedAtOk)
    ensures Issue(index, Whole) !in RecordIssues(index, j, laneOk)
  {
    FieldsIssuesMembership(index, j.fields, RecordFields, laneOk, Id);
    FieldsIssuesMembership(index, j.fields, RecordFields, laneOk, SensorName);
    FieldsIssuesMembership(index, j.fields, RecordFields, laneOk, Speed);
    FieldsIssuesMembership(index, j.fields, RecordFields, laneOk, LaneField);
    FieldsIssuesMembership(index, j.fields, RecordFields, laneOk, CreatedAt);
    FieldsIssuesMembership(index, j.fields, RecordFields, laneOk, Whole);
  }

  /** An object passes exactly when all five checks do. */
  lemma RecordIssuesEmpty(index: Option<nat>, j: Json, laneOk: Json -> bool)
    requires j.JObject?
    ensures RecordIssues(index, j, laneOk) == [] <==>
      && Has(j.fields, "id", IdOk) && Has(j.fields, "sensor_name", SensorNameOk) && Has(j.fields, "speed", SpeedOk)
      && Has(j.fields, "lane", laneOk) && Has(j.fields, "created_at", CreatedAtOk)
  {
    var r := RecordIssues(index, j, laneOk);
    RecordIssuesNameFailures(index, j, laneOk);
    if r != [] {
      assert r[0] in r;
      FieldsIssuesMembership(index, j.fields, RecordFields, laneOk, r[0].field);
    }
  }

  /** No issue exactly when the value passes the wire schema. */
  lemma WireIssuesEmpty(index: Option<nat>, j: Json)
    ensures RecordIssues(index, j, WireLaneOk) == [] <==> ValidWire(j)
  {
    if j.JObject? {
      RecordIssuesEmpty(index, j, WireLaneOk);
    }
  }

  /** No issue exactly when the value passes the internal schema. */
  lemma InternalIssuesEmpty(index: Option<nat>, j: Json)
    ensures RecordIssues(index, j, LaneNameOk) == [] <==> ValidInternal(j)
  {
    if j.JObject? {
      RecordIssuesEmpty(index, j, LaneNameOk);
    }
  }

  /** Builds the typed record once every field has passed. */
  function WireOf(fields: map<string, Json>): WireRecord
    requires Has(fields, "id", IdOk) && Has(fields, "sensor_name", SensorNameOk)
    requires Has(fields, "speed", SpeedOk) && Has(fields, "lane", WireLaneOk)
    requires Has(fields, "created_at", CreatedAtOk)
  {
    WireRecord(
      fields["id"].n.Floor,
      if fields["sensor_name"].JString? then Some(fields["sensor_name"].s) else None,
      fields["speed"].n,
      fields["lane"].n.Floor,
      fields["created_at"].s)
  }

  /**
   * `safeValidateSpeedDataAPI` (and `validateSpeedDataAPI`, whose thrown error
   * is the `Failure`): success exactly on a valid wire record, carrying its
   * fields; otherwise the list of what failed.
   */
  function ValidateWire(j: Json): (r: Result<WireRecord, seq<Issue>>)
    ensures r.Success? <==> ValidWire(j)
    ensures r.Failure? ==> r.error != []
    ensures r.Success? ==> r.value.id > 0 && r.value.id as real == j.fields["id"].n
    ensures r.Success? ==> 0.0 <= r.value.speed <= 500.0 && r.value.speed == j.fields["speed"].n
    ensures r.Success? ==> (r.value.lane == 0 || r.value.lane == 1) && r.value.lane as real == j.fields["lane"].n
    ensures r.Success? ==> (r.value.sensorName.None? <==> j.fields["sensor_name"].JNull?)
    ensures r.Success? && j.fields["sensor_name"].JString? ==> r.value.sensorName == Some(j.fields["sensor_name"].s)
    ensures r.Success? ==> IsoDateTime(r.value.createdAt) && r.value.createdAt == j.fields["created_at"].s
  {
    var issues := RecordIssues(None, j, WireLaneOk);
    WireIssuesEmpty(None, j);
    if issues == [] then Success(WireOf(j.fields)) else Failure(issues)
  }

  /** `SpeedDataSchema`: the internal record, lane by name. */
  function ValidateInternal(j: Json): (r: Result<InternalRecord, seq<Issue>>)
    ensures r.Success? <==> ValidInternal(j)
    ensures r.Failure? ==> r.error != []
    ensures r.Success? ==> r.value.id > 0 && r.value.id as real == j.fields["id"].n
    ensures r.Success? ==> 0.0 <= r.value.speed <= 500.0 && r.value.speed == j.fields["speed"].n
    ensures r.Success? ==> LaneName(r.value.lane) == j.fields["lane"].s
    ensures r.Success? ==> (r.value.sensorName.None? <==> j.fields["sensor_name"].JNull?)
    ensures r.Success? && j.fields["sensor_name"].JString? ==> r.value.sensorName == Some(j.fields["sensor_name"].s)
    ensures r.Success? ==> IsoDateTime(r.value.createdAt) && r.value.createdAt == j.fields["created_at"].s
  {
    var issues := RecordIssues(None, j, LaneNameOk);
    InternalIssuesEmpty(None, j);
    if issues != [] then Failure(issues) else
    var f := j.fields;
    Success(InternalRecord(
      f["id"].n.Floor,
      if f["sensor_name"].JString? then Some(f["sensor_name"].s) else None,
      f["speed"].n,
      if f["lane"].s == "Left" then Left else Right,
      f["created_at"].s))
  }

  /**
   * The two record schemas differ only in the lane: with any valid wire lane
   * in one object and any valid enum lane in the other, the rest of the
   * fields pass one schema exactly when they pass the other.
   */
  lemma SchemasDifferOnlyInLane(fields: map<string, Json>, wireLane: Json, laneName: Json)
    requires WireLaneOk(wireLane) && LaneNameOk(laneName)
    ensures ValidWire(JObject(fields["lane" := wireLane])) <==> ValidInternal(JObject(fields["lane" := laneName]))
  {
  }

  // ------------------------------------------------------------------ arrays

  /** Issues of items `[0, n)`, each tagged with its index. */
  function ItemIssues(items: seq<Json>, n: nat): (r: seq<Issue>)
    requires n <= |items|
    ensures r == [] <==> forall i :: 0 <= i < n ==> ValidWire(items[i])
    decreases n
  {
    if n == 0 then [] else
    var earlier := ItemIssues(items, n - 1);
    var here := RecordIssues(Some(n - 1), items[n - 1], WireLaneOk);
    WireIssuesEmpty(Some(n - 1), items[n - 1]);
    earlier + here
  }

  /**
   * `SpeedDataAPIArraySchema` (`z.array`): succeeds exactly on an array whose
   * every element is a valid wire record, and then yields each element's
   * validated record in order.
   */
  function ValidateWireArray(j: Json): (r: Result<seq<WireRecord>, seq<Issue>>)
    ensures r.Success? <==> j.JArray? && forall i :: 0 <= i < |j.items| ==> ValidWire(j.items[i])
    ensures r.Failure? ==> r.error != []
    ensures r.Success? ==> |r.value| == |j.items|
    ensures r.Success? ==> forall i :: 0 <= i < |r.value| ==> ValidateWire(j.items[i]) == Success(r.value[i])
  {
    if !j.JArray? then Failure([Issue(None, Whole)]) else
    var issues := ItemIssues(j.items, |j.items|);
    if issues != [] then Failure(issues) else
    Success(seq(|j.items|, i requires 0 <= i < |j.items| => ValidateWire(j.items[i]).value))
  }

  /** The empty array is valid; one bad element makes the whole array fail. */
  lemma ArrayValidity(j: Json, k: nat)
    requires j.JArray? && k < |j.items| && !ValidWire(j.items[k])
    ensures ValidateWireArray(j).Failure?
    ensures ValidateWireArray(JArray([])) == Success([])
  {
  }
}
