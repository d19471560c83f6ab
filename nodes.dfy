/**
 * The registry of remote sensor nodes (nodes_api.py): `nodes.json` as a map
 * from node id to record, registration on every report, the five-minute
 * offline rule, and the per-node sensor logs.  Instants are seconds.
 */
module Nodes {
  import opened Wrappers
  import opened PyStr

  datatype NodeStatus = Online | Offline

  /** One entry of `nodes.json`.  `None` is JSON null or, for the last two, a key not yet written. */
  datatype NodeRecord = NodeRecord(
    id: string,
    name: string,
    location: string,
    registeredAt: real,
    lastSeen: Option<real>,
    status: NodeStatus,
    batteryLevel: Option<real>,
    solarCharging: bool,
    ipAddress: Option<string>,
    firmwareVersion: Option<string>)

  /** What a node reports about itself; `None` is a missing key. */
  datatype NodeInfo = NodeInfo(
    name: Option<string>,
    location: Option<string>,
    batteryLevel: Option<real>,
    solarCharging: Option<bool>,
    ipAddress: Option<string>,
    firmwareVersion: Option<string>)

  const DefaultLocation: string := "Non spécifié"
  const DefaultFirmware: string := "1.0"

  /** Seconds without a report after which a node counts as offline. */
  const OfflineAfter: real := 300.0

  /** The entry created for an id seen for the first time. */
  function NewEntry(nodeId: string, info: NodeInfo, now: real): (e: NodeRecord)
    ensures e.id == nodeId && e.registeredAt == now && e.lastSeen.None? && e.status == Offline
    ensures e.name == info.name.GetOr("Node " + nodeId) && e.location == info.location.GetOr(DefaultLocation)
  {
    NodeRecord(nodeId, info.name.GetOr("Node " + nodeId), info.location.GetOr(DefaultLocation), now,
      None, Offline, None, false, None, None)
  }

  /** The `update` applied to the entry on every report. */
  function Refreshed(e: NodeRecord, info: NodeInfo, now: real): (r: NodeRecord)
    ensures r.id == e.id && r.name == e.name && r.location == e.location && r.registeredAt == e.registeredAt
    ensures r.lastSeen == Some(now) && r.status == Online
    ensures r.batteryLevel == info.batteryLevel && r.ipAddress == info.ipAddress
    ensures r.solarCharging == info.solarCharging.GetOr(false)
    ensures r.firmwareVersion == Some(info.firmwareVersion.GetOr(DefaultFirmware))
  {
    e.(lastSeen := Some(now), status := Online, batteryLevel := info.batteryLevel,
       solarCharging := info.solarCharging.GetOr(false), ipAddress := info.ipAddress,
       firmwareVersion := Some(info.firmwareVersion.GetOr(DefaultFirmware)))
  }

  /** `register_node` on the loaded map: only the entry of `nodeId` changes, and it is the only key that may appear. */
  function Registered(nodes: map<string, NodeRecord>, nodeId: string, info: NodeInfo, now: real): (r: map<string, NodeRecord>)
    ensures r.Keys == nodes.Keys + {nodeId}
    ensures forall k :: k in nodes && k != nodeId ==> r[k] == nodes[k]
    ensures nodeId in nodes ==> r[nodeId] == Refreshed(nodes[nodeId], info, now)
    ensures nodeId !in nodes ==> r[nodeId] == Refreshed(NewEntry(nodeId, info, now), info, now)
  {
    var base := if nodeId in nodes then nodes[nodeId] else NewEntry(nodeId, info, now);
    nodes[nodeId := Refreshed(base, info, now)]
  }

  /** A known node keeps its id, name, location and registration instant; a reported firmware replaces the old one, a missing one becomes "1.0". */
  lemma RegisterKeepsIdentity(nodes: map<string, NodeRecord>, nodeId: string, info: NodeInfo, now: real)
    requires nodeId in nodes
    ensures var e := Registered(nodes, nodeId, info, now)[nodeId];
      e.id == nodes[nodeId].id && e.name == nodes[nodeId].name && e.location == nodes[nodeId].location
      && e.registeredAt == nodes[nodeId].registeredAt
      && e.firmwareVersion == Some(info.firmwareVersion.GetOr(DefaultFirmware))
  {
  }

  /** A registered node that re-registers changes only its report fields. */
  lemma RegisterTwice(nodes: map<string, NodeRecord>, nodeId: string, info: NodeInfo, t1: real, t2: real)
    ensures var once := Registered(nodes, nodeId, info, t1);
      var twice := Registered(once, nodeId, info, t2);
      twice.Keys == once.Keys && twice[nodeId] == once[nodeId].(lastSeen := Some(t2))
  {
  }

  /** The offline rule for one entry. */
  function MarkIfStale(e: NodeRecord, now: real): (r: NodeRecord)
    ensures r == e || r == e.(status := Offline)
    ensures r.status == Offline <==> e.status == Offline || (e.lastSeen.Some? && now - e.lastSeen.value > OfflineAfter)
  {
    if e.lastSeen.Some? && now - e.lastSeen.value > OfflineAfter then e.(status := Offline) else e
  }

  /** `get_all_nodes` on the loaded map. */
  function StaleMarked(nodes: map<string, NodeRecord>, now: real): (r: map<string, NodeRecord>)
    ensures r.Keys == nodes.Keys
    ensures forall k :: k in nodes ==> r[k] == MarkIfStale(nodes[k], now)
  {
    map k | k in nodes :: MarkIfStale(nodes[k], now)
  }

  /** The listing never brings a node online. */
  lemma NeverMarkedOnline(nodes: map<string, NodeRecord>, now: real, k: string)
    requires k in nodes && StaleMarked(nodes, now)[k].status == Online
    ensures nodes[k].status == Online
  {
  }

  /** A node registered at `t` is listed online until more than five minutes later. */
  lemma {:induction false} FreshNodeOnline(nodes: map<string, NodeRecord>, nodeId: string, info: NodeInfo, t: real, now: real)
    requires t <= now <= t + OfflineAfter
    ensures StaleMarked(Registered(nodes, nodeId, info, t), now)[nodeId].status == Online
  {
    var r := Registered(nodes, nodeId, info, t);
    assert r[nodeId].lastSeen == Some(t) && r[nodeId].status == Online;
  }

  /** The sensor values of a report as `record_node_data` receives them. */
  datatype SensorData = SensorData(
    temperature: Option<real>,
    airHumidity: Option<real>,
    soilMoisture: Option<real>,
    wateringEvent: bool,
    wateringDuration: Option<real>)

  /** The minutes logged for a watering event whose report gives none. */
  const DefaultLoggedDuration: real := 0.0

  /** The three per-node CSV logs, one line per tuple. */
  datatype NodeLogs = NodeLogs(
    tempHumidity: seq<(real, Option<real>, Option<real>)>,
    soil: seq<(real, real)>,
    watering: seq<(real, real)>)

  const NoLogs: NodeLogs := NodeLogs([], [], [])

  /** `record_node_data`: each log gets a line only under its own condition. */
  function LoggedReport(logs: NodeLogs, data: SensorData, timestamp: real): (r: NodeLogs)
    ensures |r.tempHumidity| == |logs.tempHumidity| + (if data.temperature.Some? || data.airHumidity.Some? then 1 else 0)
    ensures |r.soil| == |logs.soil| + (if data.soilMoisture.Some? then 1 else 0)
    ensures |r.watering| == |logs.watering| + (if data.wateringEvent then 1 else 0)
    ensures r.tempHumidity[..|logs.tempHumidity|] == logs.tempHumidity
    ensures r.soil[..|logs.soil|] == logs.soil && r.watering[..|logs.watering|] == logs.watering
    ensures |r.tempHumidity| > |logs.tempHumidity| ==>
      r.tempHumidity[|logs.tempHumidity|] == (timestamp, data.temperature, data.airHumidity)
    ensures |r.soil| > |logs.soil| ==> r.soil[|logs.soil|] == (timestamp, data.soilMoisture.value)
    ensures |r.watering| > |logs.watering| ==>
      r.watering[|logs.watering|] == (timestamp, data.wateringDuration.GetOr(DefaultLoggedDuration))
  {
    var t := if data.temperature.Some? || data.airHumidity.Some?
      then logs.tempHumidity + [(timestamp, data.temperature, data.airHumidity)] else logs.tempHumidity;
    var s := if data.soilMoisture.Some? then logs.soil + [(timestamp, data.soilMoisture.value)] else logs.soil;
    var w := if data.wateringEvent then logs.watering + [(timestamp, data.wateringDuration.GetOr(DefaultLoggedDuration))] else logs.watering;
    NodeLogs(t, s, w)
  }

  /** `nodes.json` (`None` when it cannot be read, which the code treats as `{}`) and the per-node logs. */
  class NodeRegistry {
    var file: Option<map<string, NodeRecord>>
    var logs: map<string, NodeLogs>

    /** `load_nodes()`. */
    function Loaded(): map<string, NodeRecord>
      reads this
    {
      file.GetOr(map[])
    }

    constructor (content: Option<map<string, NodeRecord>>)
      ensures file == content && logs == map[]
    {
      file := content;
      logs := map[];
    }

    /** `register_node`: load, insert or refresh one entry, save, return it. */
    method RegisterNode(nodeId: string, info: NodeInfo, now: real) returns (entry: NodeRecord)
      modifies this
      ensures file == Some(Registered(old(Loaded()), nodeId, info, now))
      ensures entry == Registered(old(Loaded()), nodeId, info, now)[nodeId]
      ensures logs == old(logs)
    {
      var nodes := Loaded();
      var current: NodeRecord;
      if nodeId !in nodes {
        current := NewEntry(nodeId, info, now);
      } else {
        current := nodes[nodeId];
      }
      nodes := nodes[nodeId := Refreshed(current, info, now)];
      file := Some(nodes);
      entry := nodes[nodeId];
    }

    /** `get_all_nodes`: the loaded map with stale nodes marked offline; nothing is saved. */
    method GetAllNodes(now: real) returns (result: map<string, NodeRecord>)
      ensures result == StaleMarked(Loaded(), now)
    {
      var nodes := Loaded();
      var pending := nodes.Keys;
      result := map[];
      while pending != {}
        invariant pending <= nodes.Keys
        invariant result.Keys == nodes.Keys - pending
        invariant forall k :: k in result ==> result[k] == MarkIfStale(nodes[k], now)
        decreases |pending|
      {
        var k :| k in pending;
        var node := nodes[k];
        if node.lastSeen.Some? && now - node.lastSeen.value > OfflineAfter {
          node := node.(status := Offline);
        }
        result := result[k := node];
        pending := pending - {k};
      }
    }

    /** `record_node_data` for one node. */
    method RecordNodeData(nodeId: string, data: SensorData, timestamp: real)
      modifies this
      ensures logs == old(logs)[nodeId := LoggedReport(if nodeId in old(logs) then old(logs)[nodeId] else NoLogs, data, timestamp)]
      ensures file == old(file)
    {
      var current := if nodeId in logs then logs[nodeId] else NoLogs;
      if data.temperature.Some? || data.airHumidity.Some? {
        current := current.(tempHumidity := current.tempHumidity + [(timestamp, data.temperature, data.airHumidity)]);
      }
      if data.soilMoisture.Some? {
        current := current.(soil := current.soil + [(timestamp, data.soilMoisture.value)]);
      }
      if data.wateringEvent {
        current := current.(watering := current.watering + [(timestamp, data.wateringDuration.GetOr(DefaultLoggedDuration))]);
      }
      logs := logs[nodeId := current];
    }
  }
}
