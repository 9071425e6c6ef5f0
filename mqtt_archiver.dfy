/**
 * rally-timer-app/scripts/mqtt-archiver.js: every message on a gate's pass
 * topic becomes one NDJSON record, appended to a file partitioned by gate and
 * by the UTC day the message was received.
 *
 * The receipt time is an input (`Clock`: its ISO text and UTC calendar
 * fields); `JSON.parse` and `JSON.stringify` are parameters (`Codec`); the
 * payload bytes arrive already decoded as UTF-8. The files are a map from
 * path to contents.
 */
module MqttArchiver {
  import opened Wrappers
  import Text
  import opened Json

  // ------------------------------------------------------------------ gateFromTopic

  /** Segment 3 of a "rally/v1/gates/<gate>/pass[/...]" topic, else `null`. */
  function GateFromTopic(topic: string): (g: Option<string>)
    ensures g.Some? ==> '/' !in g.value
  {
    var p := Text.Split(topic, '/');
    if |p| >= 5 && p[0] == "rally" && p[1] == "v1" && p[2] == "gates" && p[4] == "pass" then Some(p[3]) else None
  }

  /** The segments of gate's pass topic. */
  function PassSegments(gate: string): seq<string> {
    ["rally", "v1", "gates", gate, "pass"]
  }

  /** "rally/v1/gates/<gate>/pass". */
  function PassTopicOf(gate: string): string {
    Text.Join(PassSegments(gate), '/')
  }

  /** `topic` is gate's pass topic, possibly followed by further '/'-segments. */
  predicate IsPassTopicOf(topic: string, gate: string) {
    var head := PassTopicOf(gate);
    '/' !in gate && head <= topic && (|topic| == |head| || topic[|head|] == '/')
  }

  /** `gateFromTopic` accepts exactly the pass topics, and returns their gate segment. */
  lemma GateFromTopicIff(topic: string, gate: string)
    ensures GateFromTopic(topic) == Some(gate) <==> IsPassTopicOf(topic, gate)
  {
    if GateFromTopic(topic) == Some(gate) {
      GateFromTopicSound(topic, gate);
    }
    if IsPassTopicOf(topic, gate) {
      GateFromTopicComplete(topic, gate);
    }
  }

  lemma PassTopicSegments(gate: string)
    requires '/' !in gate
    ensures Text.Split(PassTopicOf(gate), '/') == PassSegments(gate)
  {
    var q := PassSegments(gate);
    forall i | 0 <= i < |q| ensures '/' !in q[i] {
      if i != 3 {
        assert q[i] == "rally" || q[i] == "v1" || q[i] == "gates" || q[i] == "pass";
      }
    }
    Text.SplitJoin(q, '/');
  }

  lemma GateFromTopicComplete(topic: string, gate: string)
    requires IsPassTopicOf(topic, gate)
    ensures GateFromTopic(topic) == Some(gate)
  {
    var head := PassTopicOf(gate);
    PassTopicSegments(gate);
    if |topic| == |head| {
      assert topic == head;
    } else {
      var rest := topic[|head| + 1..];
      assert topic == head + "/" + rest;
      Text.SplitAround(head, rest, '/');
    }
  }

  lemma GateFromTopicSound(topic: string, gate: string)
    requires GateFromTopic(topic) == Some(gate)
    ensures IsPassTopicOf(topic, gate)
  {
    var p := Text.Split(topic, '/');
    var head := PassTopicOf(gate);
    Text.JoinSplit(topic, '/');
    assert p[..5] == PassSegments(gate);
    if |p| == 5 {
      assert p == PassSegments(gate);
    } else {
      Text.JoinAt(p, '/', 5);
      assert topic == head + ['/'] + Text.Join(p[5..], '/');
      assert topic[|head|] == '/';
    }
  }

  /** What the pass topic of a gate reads like. */
  lemma PassTopicText(gate: string)
    ensures PassTopicOf(gate) == "rally/v1/gates/" + gate + "/pass"
  {
    JoinFive("rally", "v1", "gates", gate, "pass");
    assert "rally" + "/" + "v1" + "/" + "gates" + "/" + gate + "/" + "pass" == "rally/v1/gates/" + gate + "/pass";
  }

  lemma JoinFive(a: string, b: string, c: string, d: string, e: string)
    ensures Text.Join([a, b, c, d, e], '/') == a + "/" + b + "/" + c + "/" + d + "/" + e
  {
    var j4 := Text.Join([d, e], '/');
    JoinCons(d, [e]);
    assert [d] + [e] == [d, e];
    var j3 := Text.Join([c, d, e], '/');
    JoinCons(c, [d, e]);
    assert [c] + [d, e] == [c, d, e];
    var j2 := Text.Join([b, c, d, e], '/');
    JoinCons(b, [c, d, e]);
    assert [b] + [c, d, e] == [b, c, d, e];
    JoinCons(a, [b, c, d, e]);
    assert [a] + [b, c, d, e] == [a, b, c, d, e];
  }

  lemma JoinCons(x: string, rest: seq<string>)
    requires |rest| >= 1
    ensures Text.Join([x] + rest, '/') == x + "/" + Text.Join(rest, '/')
  {
    assert ([x] + rest)[1..] == rest;
  }

  // ------------------------------------------------------------------ subscription

  /**
   * `MQTT_PASS_TOPIC` when it is not set, "rally/v1/gates/+/pass": the pass
   * topic with '+', one level, in place of the gate.
   */
  const DefaultPassFilter: string := PassTopicOf("+")

  /**
   * Topic-filter matching of section 4.7 of MQTT 3.1.1 on '/'-levels: '+'
   * matches exactly one level, a last '#' matches all remaining levels (none
   * included), any other level only itself.
   */
  function MatchLevels(filter: seq<string>, levels: seq<string>): bool
    decreases |filter|
  {
    if filter == [] then levels == []
    else if filter[0] == "#" then |filter| == 1
    else levels != [] && (filter[0] == "+" || filter[0] == levels[0]) && MatchLevels(filter[1..], levels[1..])
  }

  /** The broker delivers a message on `topic` to a subscription to `filter`. */
  predicate Delivered(filter: string, topic: string) {
    MatchLevels(Text.Split(filter, '/'), Text.Split(topic, '/'))
  }

  /** Each level of `filter` is '+' or the level of `levels` at the same place. */
  predicate LevelsFit(filter: seq<string>, levels: seq<string>)
    requires |filter| == |levels|
  {
    forall i :: 0 <= i < |filter| ==> filter[i] == "+" || filter[i] == levels[i]
  }

  /** A filter without '#' matches exactly the topics of as many levels that it fits. */
  lemma {:induction false} MatchWithoutHash(filter: seq<string>, levels: seq<string>)
    requires forall i :: 0 <= i < |filter| ==> filter[i] != "#"
    ensures MatchLevels(filter, levels) <==> |filter| == |levels| && LevelsFit(filter, levels)
  {
    if filter != [] && levels != [] {
      MatchWithoutHash(filter[1..], levels[1..]);
      if |filter| == |levels| {
        assert LevelsFit(filter, levels) <==> (filter[0] == "+" || filter[0] == levels[0]) && LevelsFit(filter[1..], levels[1..]) by {
          if (filter[0] == "+" || filter[0] == levels[0]) && LevelsFit(filter[1..], levels[1..]) {
            forall i | 0 <= i < |filter| ensures filter[i] == "+" || filter[i] == levels[i] {
              if i > 0 {
                assert filter[1..][i - 1] == filter[i] && levels[1..][i - 1] == levels[i];
              }
            }
          }
        }
      }
    }
  }

  /**
   * Under the default subscription the archiver receives exactly the topics of
   * five levels that `gateFromTopic` accepts, so it never sees a longer one.
   */
  lemma DefaultFilterDelivers(topic: string)
    ensures Delivered(DefaultPassFilter, topic)
      <==> GateFromTopic(topic).Some? && |Text.Split(topic, '/')| == 5
  {
    var f := PassSegments("+");
    var p := Text.Split(topic, '/');
    DefaultFilterLevels();
    NoHashInDefaultFilter();
    MatchWithoutHash(f, p);
    if |p| == 5 {
      FitsPassSegments(p);
    }
  }

  lemma DefaultFilterLevels()
    ensures Text.Split(DefaultPassFilter, '/') == PassSegments("+")
  {
    PassTopicSegments("+");
  }

  lemma NoHashInDefaultFilter()
    ensures forall i :: 0 <= i < |PassSegments("+")| ==> PassSegments("+")[i] != "#"
  {
  }

  lemma FitsPassSegments(p: seq<string>)
    requires |p| == 5
    ensures LevelsFit(PassSegments("+"), p) <==> p[0] == "rally" && p[1] == "v1" && p[2] == "gates" && p[4] == "pass"
  {
  }

  /** The default subscription is the text "rally/v1/gates/+/pass". */
  lemma DefaultFilterText()
    ensures DefaultPassFilter == "rally/v1/gates/+/pass"
  {
    PassTopicText("+");
  }

  // ------------------------------------------------------------------ yyyymmdd

  /** `getUTCFullYear()`, `getUTCMonth() + 1` and `getUTCDate()` of a `Date`. */
  datatype UtcDate = UtcDate(year: int, month: int, day: int)

  /** `yyyymmdd(d)`: the year as `String` gives it, month and day padded to two digits. */
  function Yyyymmdd(d: UtcDate): string {
    Text.IntToString(d.year) + Text.PadStart2(Text.IntToString(d.month)) + Text.PadStart2(Text.IntToString(d.day))
  }

  predicate FourDigitDate(d: UtcDate) {
    1000 <= d.year <= 9999 && 1 <= d.month <= 12 && 1 <= d.day <= 31
  }

  /** Two digits for 1..31, whose value is the number itself. */
  lemma TwoDigits(n: int)
    requires 1 <= n <= 31
    ensures var s := Text.PadStart2(Text.IntToString(n));
      |s| == 2 && Text.AllDigits(s) && Text.DecimalValue(s) == n
  {
    var r := Text.NatToDecimal(n);
    Text.DecimalRoundTrip(n);
    if n < 10 {
      Text.DecimalLength(n, 1);
      Text.DecimalLeadingZero(r);
    } else {
      Text.DecimalLength(n, 2);
    }
  }

  /**
   * For four-digit years the partition stamp has eight digits and, read as a
   * number, is year * 10000 + month * 100 + day.
   */
  lemma YyyymmddDigits(d: UtcDate)
    requires FourDigitDate(d)
    ensures var s := Yyyymmdd(d);
      |s| == 8 && Text.AllDigits(s) && Text.DecimalValue(s) == d.year * 10000 + d.month * 100 + d.day
  {
    var y := Text.IntToString(d.year);
    var m := Text.PadStart2(Text.IntToString(d.month));
    var dd := Text.PadStart2(Text.IntToString(d.day));
    Text.DecimalRoundTrip(d.year);
    Text.DecimalLength(d.year, 4);
    TwoDigits(d.month);
    TwoDigits(d.day);
    Text.DecimalConcat(y, m);
    Text.DecimalConcat(y + m, dd);
    assert Text.Pow10(2) == 100;
  }

  /** Calendar order of the UTC fields. */
  predicate Before(a: UtcDate, b: UtcDate) {
    a.year < b.year || (a.year == b.year && (a.month < b.month || (a.month == b.month && a.day < b.day)))
  }

  /**
   * Partition stamps of four-digit years are numerically in calendar order,
   * and different days get different stamps.
   */
  lemma YyyymmddOrder(a: UtcDate, b: UtcDate)
    requires FourDigitDate(a) && FourDigitDate(b)
    ensures Before(a, b) ==>
      (Text.AllDigits(Yyyymmdd(a)) && Text.AllDigits(Yyyymmdd(b))
       && Text.DecimalValue(Yyyymmdd(a)) < Text.DecimalValue(Yyyymmdd(b)))
    ensures Yyyymmdd(a) == Yyyymmdd(b) <==> a == b
  {
    YyyymmddDigits(a);
    YyyymmddDigits(b);
    if a != b {
      if Before(a, b) {
        ValueOrder(a, b);
      } else {
        ValueOrder(b, a);
      }
    }
  }

  lemma ValueOrder(a: UtcDate, b: UtcDate)
    requires FourDigitDate(a) && FourDigitDate(b) && (Before(a, b) || (a != b && !Before(b, a)))
    ensures a.year * 10000 + a.month * 100 + a.day < b.year * 10000 + b.month * 100 + b.day
  {
  }

  // ------------------------------------------------------------------ the record

  /** The time the message handler runs: `now.toISOString()` and the UTC fields of `now`. */
  datatype Clock = Clock(iso: string, date: UtcDate)

  /** `JSON.parse` (`None` when it throws) and `JSON.stringify`. */
  datatype Codec = Codec(parse: string -> Option<Json>, stringify: Json -> string)

  /** `JSON.parse(s)`, or `{ ts_utc: s }` when the payload is not JSON. */
  function InitialRecord(s: string, parsed: Option<Json>): Json {
    match parsed
    case None => JObj([Field("ts_utc", JStr(s))])
    case Some(j) => j
  }

  /** What the three assignments leave in an object's properties. */
  ghost predicate NormalizedFields(fs: seq<Field>, out: seq<Field>, gate: string, nowIso: string) {
    && Get(out, "ts_utc") == (if Truthy(Get(fs, "ts_utc")) then Get(fs, "ts_utc") else Some(JStr(nowIso)))
    && Get(out, "gate_id") == (if Truthy(Get(fs, "gate_id")) then Get(fs, "gate_id") else Some(JStr(gate)))
    && Get(out, "type") == Some(JStr("pass"))
    && (forall k :: k != "ts_utc" && k != "gate_id" && k != "type" ==> Get(out, k) == Get(fs, k))
    && Keys(fs) <= Keys(out)
  }

  /**
   * The three assignments of the handler. On an object they set the
   * properties; on an array they add properties that `JSON.stringify` does
   * not write, so its record is unchanged; on `null` and on the primitives
   * they throw a `TypeError` (the module is strict), shown as `None`.
   */
  function Normalize(record: Json, gate: string, nowIso: string): (r: Option<Json>)
    ensures r.Some? <==> record.JObj? || record.JArr?
    ensures record.JArr? ==> r == Some(record)
    ensures record.JObj? ==> r.Some? && r.value.JObj?
  {
    match record
    case JObj(fs) =>
      var fs1 := if !Truthy(Get(fs, "ts_utc")) then Set(fs, "ts_utc", JStr(nowIso)) else fs;
      var gateId := if Truthy(Get(fs1, "gate_id")) then Get(fs1, "gate_id").value else JStr(gate);
      var fs2 := Set(fs1, "gate_id", gateId);
      Some(JObj(Set(fs2, "type", JStr("pass"))))
    case JArr(_) => Some(record)
    case _ => None
  }

  /**
   * On an object: `ts_utc` is kept when truthy and otherwise set to the
   * receipt time, `gate_id` is kept when truthy and otherwise set to the
   * topic's gate, `type` is always "pass", every other property is kept, and
   * the existing properties keep their order.
   */
  lemma NormalizeObject(fs: seq<Field>, gate: string, nowIso: string)
    ensures Normalize(JObj(fs), gate, nowIso).Some?
    ensures NormalizedFields(fs, Normalize(JObj(fs), gate, nowIso).value.fields, gate, nowIso)
  {
    var fs1 := if !Truthy(Get(fs, "ts_utc")) then Set(fs, "ts_utc", JStr(nowIso)) else fs;
    var gateId := if Truthy(Get(fs1, "gate_id")) then Get(fs1, "gate_id").value else JStr(gate);
    var fs2 := Set(fs1, "gate_id", gateId);
    var fs3 := Set(fs2, "type", JStr("pass"));
    assert Normalize(JObj(fs), gate, nowIso) == Some(JObj(fs3));
    RecordKeysDistinct();
    if Truthy(Get(fs, "ts_utc")) {
      assert fs1 == fs;
    } else {
      SetOthers(fs, "ts_utc", JStr(nowIso));
      SetKeysPrefix(fs, "ts_utc", JStr(nowIso));
    }
    SetOthers(fs1, "gate_id", gateId);
    SetOthers(fs2, "type", JStr("pass"));
    SetKeysPrefix(fs1, "gate_id", gateId);
    SetKeysPrefix(fs2, "type", JStr("pass"));
    PrefixTransitive(Keys(fs), Keys(fs1), Keys(fs2));
    PrefixTransitive(Keys(fs), Keys(fs2), Keys(fs3));
  }

  lemma PrefixTransitive(a: seq<string>, b: seq<string>, c: seq<string>)
    requires a <= b && b <= c
    ensures a <= c
  {
    assert c[..|a|] == b[..|a|];
  }

  // ------------------------------------------------------------------ the handler

  datatype Action = Dropped | Threw | Appended(path: string, line: string)

  /** `join(DATA_DIR, 'gates', gate)`, then `pass-<yyyymmdd(now)>.ndjson` inside it. */
  function PartitionPath(dataDir: string, gate: string, date: UtcDate): string {
    dataDir + "/gates/" + gate + "/pass-" + Yyyymmdd(date) + ".ndjson"
  }

  /** `appendNdjson(file, obj)`: the line written. */
  function NdjsonLine(codec: Codec, record: Json): string {
    codec.stringify(record) + "\n"
  }

  /** The `message` handler: drop, throw, or append one line to one partition file. */
  function OnMessage(dataDir: string, topic: string, payload: string, now: Clock, codec: Codec): Action {
    var gate := GateFromTopic(topic);
    if gate.None? || gate.value == "" then Dropped
    else
      var s := Text.JsTrim(payload);
      var record := Normalize(InitialRecord(s, codec.parse(s)), gate.value, now.iso);
      if record.None? then Threw
      else Appended(PartitionPath(dataDir, gate.value, now.date), NdjsonLine(codec, record.value))
  }

  /** The files after the handler: an append creates a missing file. */
  function Applied(files: map<string, string>, a: Action): map<string, string> {
    match a
    case Appended(path, line) => files[path := (if path in files then files[path] else "") + line]
    case _ => files
  }

  /**
   * A message is dropped exactly when its topic yields no gate or the empty
   * gate; otherwise its partition is that gate's file for the day of receipt.
   */
  lemma DroppedIff(dataDir: string, topic: string, payload: string, now: Clock, codec: Codec)
    ensures var a := OnMessage(dataDir, topic, payload, now, codec);
      && (a.Dropped? <==> GateFromTopic(topic) == None || GateFromTopic(topic) == Some(""))
      && (a.Appended? ==> a.path == PartitionPath(dataDir, GateFromTopic(topic).value, now.date))
  {
  }

  /**
   * The partition depends on the topic's gate and the day of receipt only:
   * two messages for one gate received on one UTC day go to the same file,
   * whatever their payloads and `ts_utc`.
   */
  lemma PartitionByReceiptDay(dataDir: string, topic: string, p1: string, p2: string, now1: Clock, now2: Clock, codec: Codec)
    requires now1.date == now2.date
    requires OnMessage(dataDir, topic, p1, now1, codec).Appended? && OnMessage(dataDir, topic, p2, now2, codec).Appended?
    ensures OnMessage(dataDir, topic, p1, now1, codec).path == OnMessage(dataDir, topic, p2, now2, codec).path
  {
  }

  /** The record built from a payload that is not JSON, once normalized. */
  lemma NormalizeRaw(ts: string, gate: string, nowIso: string)
    requires gate != ""
    ensures Normalize(JObj([Field("ts_utc", JStr(ts))]), gate, nowIso)
      == Some(JObj([Field("ts_utc", JStr(if ts != "" then ts else nowIso)), Field("gate_id", JStr(gate)), Field("type", JStr("pass"))]))
  {
    var fs := [Field("ts_utc", JStr(ts))];
    var f0 := Field("ts_utc", JStr(if ts != "" then ts else nowIso));
    var fs1 := if !Truthy(Get(fs, "ts_utc")) then Set(fs, "ts_utc", JStr(nowIso)) else fs;
    assert Get(fs, "ts_utc") == Some(JStr(ts));
    assert fs1 == [f0];
    RecordKeysDistinct();
    assert Get(fs1, "gate_id") == None by {
      assert fs1[1..] == [];
    }
    SetTwoNew(f0, "gate_id", JStr(gate), "type", JStr("pass"));
  }

  lemma RecordKeysDistinct()
    ensures "ts_utc" != "gate_id" && "ts_utc" != "type" && "gate_id" != "type"
  {
    assert "ts_utc"[0] != "gate_id"[0];
    assert |"type"| != |"ts_utc"| && |"type"| != |"gate_id"|;
  }

  /** Two assignments of new properties to a one-property object append them in order. */
  lemma SetTwoNew(f0: Field, k1: string, v1: Json, k2: string, v2: Json)
    requires k1 != f0.key && k2 != f0.key && k2 != k1
    ensures Set(Set([f0], k1, v1), k2, v2) == [f0, Field(k1, v1), Field(k2, v2)]
  {
    var f1, f2 := Field(k1, v1), Field(k2, v2);
    SetCons(f0, [], k1, v1);
    Singleton(f0);
    assert Set([], k1, v1) == [f1];
    Pair(f0, f1);
    assert Set([f0], k1, v1) == [f0, f1];
    SetCons(f1, [], k2, v2);
    Singleton(f1);
    assert Set([], k2, v2) == [f2];
    Pair(f1, f2);
    assert Set([f1], k2, v2) == [f1, f2];
    SetCons(f0, [f1], k2, v2);
    Triple(f0, f1, f2);
    assert Set([f0, f1], k2, v2) == [f0, f1, f2];
  }

  lemma Singleton<T>(a: T)
    ensures [a] + [] == [a]
  {
  }

  lemma Pair<T>(a: T, b: T)
    ensures [a] + [b] == [a, b]
  {
  }

  lemma Triple<T>(a: T, b: T, c: T)
    ensures [a] + [b, c] == [a, b, c]
  {
  }

  /** A payload that is not JSON is archived as `{ ts_utc, gate_id, type }` with the trimmed text as `ts_utc`. */
  lemma RawPayload(dataDir: string, gate: string, payload: string, now: Clock, codec: Codec)
    requires gate != "" && '/' !in gate
    requires codec.parse(Text.JsTrim(payload)) == None && Text.JsTrim(payload) != ""
    ensures OnMessage(dataDir, PassTopicOf(gate), payload, now, codec)
      == Appended(PartitionPath(dataDir, gate, now.date),
                  NdjsonLine(codec, JObj([Field("ts_utc", JStr(Text.JsTrim(payload))), Field("gate_id", JStr(gate)), Field("type", JStr("pass"))])))
  {
    GateFromTopicComplete(PassTopicOf(gate), gate);
    NormalizeRaw(Text.JsTrim(payload), gate, now.iso);
  }

  /** An empty (or blank) payload that does not parse gets the receipt time as `ts_utc`. */
  lemma BlankPayload(dataDir: string, gate: string, payload: string, now: Clock, codec: Codec)
    requires gate != "" && '/' !in gate
    requires codec.parse(Text.JsTrim(payload)) == None && Text.JsTrim(payload) == ""
    ensures OnMessage(dataDir, PassTopicOf(gate), payload, now, codec)
      == Appended(PartitionPath(dataDir, gate, now.date),
                  NdjsonLine(codec, JObj([Field("ts_utc", JStr(now.iso)), Field("gate_id", JStr(gate)), Field("type", JStr("pass"))])))
  {
    GateFromTopicComplete(PassTopicOf(gate), gate);
    NormalizeRaw(Text.JsTrim(payload), gate, now.iso);
  }

  /** A payload that parses to `null`, a boolean, a number or a string makes the handler throw. */
  lemma NonObjectPayloadThrows(dataDir: string, topic: string, payload: string, now: Clock, codec: Codec)
    requires GateFromTopic(topic).Some? && GateFromTopic(topic) != Some("")
    requires var j := codec.parse(Text.JsTrim(payload)); j.Some? && !j.value.JObj? && !j.value.JArr?
    ensures OnMessage(dataDir, topic, payload, now, codec) == Threw
  {
  }

  /**
   * Archiving only ever appends: one file at most changes, and its earlier
   * contents are a prefix of its new contents.
   */
  lemma AppendOnly(files: map<string, string>, a: Action)
    ensures forall p :: p in files ==> p in Applied(files, a) && files[p] <= Applied(files, a)[p]
    ensures forall p :: p in files && files[p] != Applied(files, a)[p] ==> a.Appended? && p == a.path
    ensures a.Appended? ==> Applied(files, a)[a.path] == (if a.path in files then files[a.path] else "") + a.line
  {
  }

  /** The three assignments to an object record, one property at a time. */
  method AssignFields(record: Json, gate: string, nowIso: string) returns (r: Json)
    requires record.JObj?
    ensures Normalize(record, gate, nowIso) == Some(r)
  {
    r := record;
    if !Truthy(Get(r.fields, "ts_utc")) {
      r := JObj(Set(r.fields, "ts_utc", JStr(nowIso)));
    }
    var gateId := if Truthy(Get(r.fields, "gate_id")) then Get(r.fields, "gate_id").value else JStr(gate);
    r := JObj(Set(r.fields, "gate_id", gateId));
    r := JObj(Set(r.fields, "type", JStr("pass")));
  }

  /** A message whose gate is set and whose record normalizes is appended, as that record, to the gate's partition. */
  lemma AppendsNormalized(dataDir: string, topic: string, payload: string, now: Clock, codec: Codec, record: Json)
    requires GateFromTopic(topic).Some? && GateFromTopic(topic).value != ""
    requires var s := Text.JsTrim(payload);
      Normalize(InitialRecord(s, codec.parse(s)), GateFromTopic(topic).value, now.iso) == Some(record)
    ensures OnMessage(dataDir, topic, payload, now, codec)
      == Appended(PartitionPath(dataDir, GateFromTopic(topic).value, now.date), NdjsonLine(codec, record))
  {
  }

  /** The decision of the `message` handler, with the record updated field by field. */
  method Decide(dataDir: string, topic: string, payload: string, now: Clock, codec: Codec) returns (a: Action)
    ensures a == OnMessage(dataDir, topic, payload, now, codec)
  {
    var gate := GateFromTopic(topic);
    if gate.None? || gate.value == "" {
      DroppedIff(dataDir, topic, payload, now, codec);
      return Dropped;
    }
    var s := Text.JsTrim(payload);
    var record := InitialRecord(s, codec.parse(s));
    if !record.JObj? && !record.JArr? {
      NonObjectPayloadThrows(dataDir, topic, payload, now, codec);
      return Threw;
    }
    ghost var initial := record;
    if record.JObj? {
      record := AssignFields(record, gate.value, now.iso);
    }
    assert Normalize(initial, gate.value, now.iso) == Some(record);
    a := Appended(PartitionPath(dataDir, gate.value, now.date), NdjsonLine(codec, record));
    AppendsNormalized(dataDir, topic, payload, now, codec, record);
  }

  /** The archiver's file system: the partition files by path. */
  class Archiver {
    const dataDir: string
    var files: map<string, string>

    constructor (dataDir: string, files: map<string, string>)
      ensures this.dataDir == dataDir && this.files == files
    {
      this.dataDir := dataDir;
      this.files := files;
    }

    /** The `message` handler: decide, then append the line to its partition file. */
    method HandleMessage(topic: string, payload: string, now: Clock, codec: Codec) returns (a: Action)
      modifies this
      ensures a == OnMessage(dataDir, topic, payload, now, codec)
      ensures files == Applied(old(files), a)
    {
      a := Decide(dataDir, topic, payload, now, codec);
      if a.Appended? {
        files := files[a.path := (if a.path in files then files[a.path] else "") + a.line];
      }
    }
  }
}
