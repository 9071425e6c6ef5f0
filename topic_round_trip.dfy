/**
 * The MQTT contract between finish-gate-server (the publisher) and
 * mqtt-archiver (the subscriber): a pass that a gate publishes under the
 * default prefix reaches the archiver's partition of that same gate, its
 * status messages are never archived, and a device id with a '/' in it
 * never reaches the archiver under its default subscription (under a
 * subscription to the whole tree it would be filed under another gate).
 */
module TopicRoundTrip {
  import opened Wrappers
  import Text
  import GateServer
  import MqttArchiver

  /** The prefix trims to the three segments the archiver expects. */
  predicate ArchivedPrefix(prefix: string) {
    Text.Split(Text.TrimEndChar(prefix, '/'), '/') == ["rally", "v1", "gates"]
  }

  /** A pass topic built from such a prefix is read back as its device id. */
  lemma PassTopicMapsBack(prefix: string, deviceId: string)
    requires ArchivedPrefix(prefix) && '/' !in deviceId
    ensures MqttArchiver.GateFromTopic(GateServer.PassTopic(prefix, deviceId)) == Some(deviceId)
  {
    GateServer.TopicSegments(prefix, deviceId, "pass");
    var p := Text.Split(GateServer.PassTopic(prefix, deviceId), '/');
    assert p == ["rally", "v1", "gates", deviceId, "pass"];
  }

  /** A status topic built from such a prefix is never taken for a pass. */
  lemma StatusTopicIgnored(prefix: string, deviceId: string)
    requires ArchivedPrefix(prefix) && '/' !in deviceId
    ensures MqttArchiver.GateFromTopic(GateServer.StatusTopic(prefix, deviceId)) == None
  {
    GateServer.TopicSegments(prefix, deviceId, "status");
    var p := Text.Split(GateServer.StatusTopic(prefix, deviceId), '/');
    assert p == ["rally", "v1", "gates", deviceId, "status"];
    assert "status" != "pass" by {
      assert |"status"| != |"pass"|;
    }
  }

  /** The gate server's default prefix is one the archiver listens to. */
  lemma DefaultPrefixArchived()
    ensures ArchivedPrefix(GateServer.DefaultTopicPrefix)
  {
    GateServer.DefaultPrefixSegments();
  }

  /**
   * A pass of a device with a non-empty id and no '/' is never dropped, and
   * when it is written it goes to that device's partition of the day; a
   * device with the empty id has every pass dropped.
   */
  lemma PassArchivedUnderDevice(prefix: string, deviceId: string, dataDir: string, payload: string,
                                now: MqttArchiver.Clock, codec: MqttArchiver.Codec)
    requires ArchivedPrefix(prefix) && '/' !in deviceId
    ensures var a := MqttArchiver.OnMessage(dataDir, GateServer.PassTopic(prefix, deviceId), payload, now, codec);
      && (a.Dropped? <==> deviceId == "")
      && (a.Appended? ==> a.path == MqttArchiver.PartitionPath(dataDir, deviceId, now.date))
  {
    PassTopicMapsBack(prefix, deviceId);
    MqttArchiver.DroppedIff(dataDir, GateServer.PassTopic(prefix, deviceId), payload, now, codec);
  }

  /** Under the default subscription the broker delivers every pass such a gate publishes. */
  lemma PassTopicDelivered(prefix: string, deviceId: string)
    requires ArchivedPrefix(prefix) && '/' !in deviceId
    ensures MqttArchiver.Delivered(MqttArchiver.DefaultPassFilter, GateServer.PassTopic(prefix, deviceId))
  {
    PassTopicMapsBack(prefix, deviceId);
    GateServer.TopicSegments(prefix, deviceId, "pass");
    MqttArchiver.DefaultFilterDelivers(GateServer.PassTopic(prefix, deviceId));
  }

  /** "rally/v1/gates/#", a subscription to every topic below the gates level. */
  const GatesTreeFilter: string := Text.Join(GatesTreeLevelsList, '/')

  const GatesTreeLevelsList: seq<string> := ["rally", "v1", "gates", "#"]

  /**
   * The gate server accepts a device id with a '/' in it: the id `g/pass`
   * publishes on a six-level topic. The default subscription's '+' matches one
   * level, so the broker never delivers it to the archiver.
   */
  lemma SlashedIdNotDelivered(g: string)
    requires '/' !in g
    ensures !MqttArchiver.Delivered(MqttArchiver.DefaultPassFilter, GateServer.PassTopic(GateServer.DefaultTopicPrefix, g + "/pass"))
  {
    var topic := GateServer.PassTopic(GateServer.DefaultTopicPrefix, g + "/pass");
    SlashedTopicLevels(g);
    MqttArchiver.DefaultFilterDelivers(topic);
  }

  /**
   * Were `MQTT_PASS_TOPIC` set to the whole tree, the broker would deliver the
   * topic of the id `g/pass`, and the archiver would file it under gate `g`.
   */
  lemma SlashedIdMisfiled(g: string)
    requires '/' !in g
    ensures MqttArchiver.Delivered(GatesTreeFilter, GateServer.PassTopic(GateServer.DefaultTopicPrefix, g + "/pass"))
    ensures MqttArchiver.GateFromTopic(GateServer.PassTopic(GateServer.DefaultTopicPrefix, g + "/pass")) == Some(g)
  {
    var topic := GateServer.PassTopic(GateServer.DefaultTopicPrefix, g + "/pass");
    var head := MqttArchiver.PassTopicOf(g);
    SlashedTopicLevels(g);
    GatesTreeLevels();
    assert topic == head + "/pass";
    assert topic[..|head|] == head;
    MqttArchiver.GateFromTopicComplete(topic, g);
  }

  /** The levels of the topic the id `g/pass` publishes on. */
  lemma SlashedTopicLevels(g: string)
    requires '/' !in g
    ensures GateServer.PassTopic(GateServer.DefaultTopicPrefix, g + "/pass") == MqttArchiver.PassTopicOf(g) + "/pass"
    ensures Text.Split(GateServer.PassTopic(GateServer.DefaultTopicPrefix, g + "/pass"), '/')
      == ["rally", "v1", "gates", g, "pass", "pass"]
  {
    var head := MqttArchiver.PassTopicOf(g);
    GateServer.DefaultPrefixTrim();
    MqttArchiver.PassTopicText(g);
    MqttArchiver.PassTopicSegments(g);
    Text.SplitAround(head, "pass", '/');
    Text.SplitNoSep("pass", '/');
    assert head + "/pass" == head + ['/'] + "pass";
  }

  lemma GatesTreeLevels()
    ensures Text.Split(GatesTreeFilter, '/') == GatesTreeLevelsList
  {
    var q := GatesTreeLevelsList;
    forall i | 0 <= i < |q| ensures '/' !in q[i] {
      assert q[i] == "rally" || q[i] == "v1" || q[i] == "gates" || q[i] == "#";
    }
    Text.SplitJoin(q, '/');
  }
}
