/**
 * The producer side of finish-gate-server/src/main.rs: the MQTT topics built
 * from the configured prefix and device id, the retained status messages
 * (the last will "DOWN" and the "UP" sent on every ConnAck), and the serial
 * thread that turns every "P" line into a pass publish.
 *
 * `Utc::now()` is an input in milliseconds; `to_rfc3339` is a parameter;
 * the payload's `serde_json::to_vec` is left to the client library, so the
 * model's publishes carry the `Payload` value itself.
 */
module GateServer {
  import opened Wrappers
  import Text

  const DefaultTopicPrefix: string := "rally/v1/gates/"
  const DefaultDeviceId: string := "gate01"
  const U64Limit: nat := 0x1_0000_0000_0000_0000

  /** `prefix.trim_end_matches('/')`, then "/<device id>/<leaf>". */
  function DeviceTopic(prefix: string, deviceId: string, leaf: string): string {
    Text.TrimEndChar(prefix, '/') + "/" + deviceId + "/" + leaf
  }

  function StatusTopic(prefix: string, deviceId: string): string {
    DeviceTopic(prefix, deviceId, "status")
  }

  function PassTopic(prefix: string, deviceId: string): string {
    DeviceTopic(prefix, deviceId, "pass")
  }

  datatype QoS = AtMostOnce | AtLeastOnce

  /** `Payload`, the body of a pass publish. */
  datatype Payload = Payload(tsUtc: string, tsMs: nat, deviceId: string)

  datatype Body = Status(text: string) | Pass(payload: Payload)

  datatype Publish = Publish(topic: string, qos: QoS, retain: bool, body: Body)

  /** The last will the broker publishes when the gate drops off. */
  function LastWill(prefix: string, deviceId: string): (p: Publish)
    ensures p.topic == StatusTopic(prefix, deviceId) && p.retain && p.qos == AtMostOnce
    ensures p.body == Status("DOWN")
  {
    Publish(StatusTopic(prefix, deviceId), AtMostOnce, true, Status("DOWN"))
  }

  /** What the event loop publishes on every ConnAck. */
  function OnConnAck(prefix: string, deviceId: string): (p: Publish)
    ensures p.topic == LastWill(prefix, deviceId).topic && p.retain && p.qos == AtLeastOnce
    ensures p.body == Status("UP")
  {
    Publish(StatusTopic(prefix, deviceId), AtLeastOnce, true, Status("UP"))
  }

  /** `timestamp_millis() as u64`: a negative `i64` wraps around to 2^64 + ms. */
  function AsU64(ms: int): (r: nat)
    requires -0x8000_0000_0000_0000 <= ms < 0x8000_0000_0000_0000
    ensures r < U64Limit
    ensures ms >= 0 ==> r == ms
    ensures ms < 0 ==> r == U64Limit + ms
  {
    if ms >= 0 then ms else U64Limit + ms
  }

  /** The outcome of `r.read_line(&mut line)`. */
  datatype GateRead = ReadErr | ReadOk(n: nat, line: string)

  /**
   * One pass of the serial thread's loop at time `now` (ms since the epoch):
   * a publish exactly when the read returned some bytes and the line trims to
   * "P". Publishes are non-retained, QoS 1, and name this gate.
   */
  function OnSerialRead(prefix: string, deviceId: string, r: GateRead, now: int, rfc3339: int -> string): (p: Option<Publish>)
    requires -0x8000_0000_0000_0000 <= now < 0x8000_0000_0000_0000
    ensures p.Some? <==> r.ReadOk? && r.n != 0 && Text.RustTrim(r.line) == "P"
    ensures p.Some? ==> p.value.topic == PassTopic(prefix, deviceId) && !p.value.retain && p.value.qos == AtLeastOnce
    ensures p.Some? ==> p.value.body == Pass(Payload(rfc3339(now), AsU64(now), deviceId))
  {
    match r
    case ReadErr => None
    case ReadOk(n, line) =>
      if n == 0 then None
      else if Text.RustTrim(line) == "P" then
        Some(Publish(PassTopic(prefix, deviceId), AtLeastOnce, false, Pass(Payload(rfc3339(now), AsU64(now), deviceId))))
      else None
  }

  /** One iteration's inputs: the read, the clock, and whether `try_publish` queued the request. */
  datatype Tick = Tick(read: GateRead, now: int, queued: bool)

  predicate ClockInRange(ticks: seq<Tick>) {
    forall i :: 0 <= i < |ticks| ==> -0x8000_0000_0000_0000 <= ticks[i].now < 0x8000_0000_0000_0000
  }

  predicate IsPassTick(t: Tick) {
    t.read.ReadOk? && t.read.n != 0 && Text.RustTrim(t.read.line) == "P"
  }

  /** The number of iterations whose pass reached the client's queue. */
  function CountQueued(ticks: seq<Tick>): nat {
    if ticks == [] then 0
    else CountQueued(ticks[..|ticks| - 1]) + (if IsPassTick(ticks[|ticks| - 1]) && ticks[|ticks| - 1].queued then 1 else 0)
  }

  /**
   * The publishes the serial thread hands to the client over a run: one per
   * queued pass line, in order, each to the pass topic, non-retained.
   */
  function Published(prefix: string, deviceId: string, ticks: seq<Tick>, rfc3339: int -> string): (ps: seq<Publish>)
    requires ClockInRange(ticks)
    ensures |ps| == CountQueued(ticks)
    ensures forall i :: 0 <= i < |ps| ==>
      ps[i].topic == PassTopic(prefix, deviceId) && !ps[i].retain && ps[i].qos == AtLeastOnce
      && ps[i].body.Pass? && ps[i].body.payload.deviceId == deviceId
  {
    if ticks == [] then []
    else
      var last := ticks[|ticks| - 1];
      var p := OnSerialRead(prefix, deviceId, last.read, last.now, rfc3339);
      Published(prefix, deviceId, ticks[..|ticks| - 1], rfc3339) + (if p.Some? && last.queued then [p.value] else [])
  }

  lemma PublishedSnoc(prefix: string, deviceId: string, ticks: seq<Tick>, i: nat, rfc3339: int -> string)
    requires ClockInRange(ticks) && i < |ticks|
    ensures var p := OnSerialRead(prefix, deviceId, ticks[i].read, ticks[i].now, rfc3339);
      Published(prefix, deviceId, ticks[..i + 1], rfc3339)
        == Published(prefix, deviceId, ticks[..i], rfc3339) + (if p.Some? && ticks[i].queued then [p.value] else [])
  {
    assert ticks[..i + 1][..i] == ticks[..i];
    assert ticks[..i + 1][i] == ticks[i];
  }

  /** The serial thread's loop over a finite prefix of its iterations, reusing one line buffer. */
  method SerialLoop(prefix: string, deviceId: string, ticks: seq<Tick>, rfc3339: int -> string)
    returns (published: seq<Publish>)
    requires ClockInRange(ticks)
    ensures published == Published(prefix, deviceId, ticks, rfc3339)
  {
    published := [];
    var line: string := "";
    var i := 0;
    while i < |ticks|
      invariant 0 <= i <= |ticks|
      invariant published == Published(prefix, deviceId, ticks[..i], rfc3339)
    {
      PublishedSnoc(prefix, deviceId, ticks, i, rfc3339);
      line := "";
      var t := ticks[i];
      ghost var p := OnSerialRead(prefix, deviceId, t.read, t.now, rfc3339);
      if t.read.ReadOk? && t.read.n != 0 {
        line := line + t.read.line;
        assert line == t.read.line;
        if Text.RustTrim(line) == "P" {
          var topic := PassTopic(prefix, deviceId);
          var payload := Payload(rfc3339(t.now), AsU64(t.now), deviceId);
          if t.queued {
            published := published + [Publish(topic, AtLeastOnce, false, Pass(payload))];
          }
        }
      }
      i := i + 1;
    }
    assert ticks[..i] == ticks;
  }

  // ------------------------------------------------------------------ topics

  function Slashes(k: nat): (s: string)
    ensures |s| == k && forall i :: 0 <= i < k ==> s[i] == '/'
  {
    if k == 0 then "" else Slashes(k - 1) + "/"
  }

  /** Any number of trailing slashes on the prefix gives the same topics. */
  lemma {:induction false} TrailingSlashesIrrelevant(prefix: string, k: nat, deviceId: string)
    ensures PassTopic(prefix + Slashes(k), deviceId) == PassTopic(prefix, deviceId)
    ensures StatusTopic(prefix + Slashes(k), deviceId) == StatusTopic(prefix, deviceId)
  {
    TrimEndSlashes(prefix, k);
  }

  lemma {:induction false} TrimEndSlashes(prefix: string, k: nat)
    ensures Text.TrimEndChar(prefix + Slashes(k), '/') == Text.TrimEndChar(prefix, '/')
  {
    if k > 0 {
      var s := prefix + Slashes(k);
      assert s[..|s| - 1] == prefix + Slashes(k - 1);
      TrimEndSlashes(prefix, k - 1);
    } else {
      assert prefix + Slashes(0) == prefix;
    }
  }

  /**
   * With a device id free of '/', the topic's '/'-segments are those of the
   * trimmed prefix, then the device id, then the leaf.
   */
  lemma TopicSegments(prefix: string, deviceId: string, leaf: string)
    requires '/' !in deviceId && '/' !in leaf
    ensures Text.Split(DeviceTopic(prefix, deviceId, leaf), '/')
      == Text.Split(Text.TrimEndChar(prefix, '/'), '/') + [deviceId, leaf]
  {
    var base := Text.TrimEndChar(prefix, '/');
    Text.SplitAround(base, deviceId + ['/'] + leaf, '/');
    Text.SplitAround(deviceId, leaf, '/');
    Text.SplitNoSep(deviceId, '/');
    Text.SplitNoSep(leaf, '/');
    assert base + ['/'] + (deviceId + ['/'] + leaf) == DeviceTopic(prefix, deviceId, leaf);
  }

  /** The default prefix's segments. */
  lemma DefaultPrefixSegments()
    ensures Text.TrimEndChar(DefaultTopicPrefix, '/') == "rally/v1/gates"
    ensures Text.Split(Text.TrimEndChar(DefaultTopicPrefix, '/'), '/') == ["rally", "v1", "gates"]
  {
    var p := "rally/v1/gates";
    DefaultPrefixTrim();
    SplitThree("rally", "v1", "gates");
    assert "rally" + ['/'] + "v1" + ['/'] + "gates" == p;
  }

  lemma DefaultPrefixTrim()
    ensures Text.TrimEndChar(DefaultTopicPrefix, '/') == "rally/v1/gates"
  {
    var p := "rally/v1/gates";
    assert DefaultTopicPrefix == p + "/";
    assert DefaultTopicPrefix[..|DefaultTopicPrefix| - 1] == p;
    assert p[|p| - 1] == 's';
  }

  lemma SplitThree(a: string, b: string, c: string)
    requires '/' !in a && '/' !in b && '/' !in c
    ensures Text.Split(a + ['/'] + b + ['/'] + c, '/') == [a, b, c]
  {
    Text.SplitAround(a, b + ['/'] + c, '/');
    Text.SplitAround(b, c, '/');
    Text.SplitNoSep(a, '/');
    Text.SplitNoSep(b, '/');
    Text.SplitNoSep(c, '/');
    assert a + ['/'] + b + ['/'] + c == a + ['/'] + (b + ['/'] + c);
  }

  /** The gate with its defaults publishes its passes to "rally/v1/gates/gate01/pass". */
  lemma DefaultTopics()
    ensures PassTopic(DefaultTopicPrefix, DefaultDeviceId) == "rally/v1/gates/gate01/pass"
    ensures StatusTopic(DefaultTopicPrefix, DefaultDeviceId) == "rally/v1/gates/gate01/status"
  {
    DefaultPrefixTrim();
    assert "rally/v1/gates" + "/" + "gate01" + "/" + "pass" == "rally/v1/gates/gate01/pass";
    assert "rally/v1/gates" + "/" + "gate01" + "/" + "status" == "rally/v1/gates/gate01/status";
  }
}
