/**
 * The WebSocket messages of websocket.py: each message has a type and a
 * payload, and `to_dict` writes `{"type": ..., "data": ...}`, leaving out
 * "data" when the payload is None. The initial-state message instead writes
 * its parts flat beside "type".
 */
module WebSocketMessages {
  import opened Wrappers
  import opened Json
  import opened Enums
  import Internal

  /** A `Dict[str, SensorStatus]`, as its items in insertion order. */
  type StatusTable = seq<(string, Internal.SensorStatus)>

  /** `{k: asdict(v) for k, v in table.items()}`, as an object's fields. */
  function StatusFields(t: StatusTable): (fs: seq<(string, Value)>)
    ensures |fs| == |t|
    ensures forall i :: 0 <= i < |t| ==> fs[i] == (t[i].0, t[i].1.ToDict())
  {
    seq(|t|, i requires 0 <= i < |t| => (t[i].0, t[i].1.ToDict()))
  }

  /** Reads a status table back from an object's fields. */
  function StatusFieldsToTable(fs: seq<(string, Value)>): Option<StatusTable> {
    if fs == [] then Some([])
    else match (Internal.SensorStatusFromDict(fs[0].1), StatusFieldsToTable(fs[1..]))
      case (Some(s), Some(rest)) => Some([(fs[0].0, s)] + rest)
      case _ => None
  }

  /** The sensor-status object keeps every sensor, its status and their order. */
  lemma {:induction false} StatusFieldsRoundTrip(t: StatusTable)
    ensures StatusFieldsToTable(StatusFields(t)) == Some(t)
  {
    if t != [] {
      StatusFieldsRoundTrip(t[1..]);
      var fs := StatusFields(t);
      assert fs[1..] == StatusFields(t[1..]);
      Internal.SensorStatusRoundTrip(t[0].1);
      assert [(fs[0].0, t[0].1)] + t[1..] == t;
    }
  }

  datatype Message =
    | SensorStatusMessage(sensorStatus: StatusTable)
    | TransportMessage(transport: Internal.BusDepartures)
    | WeatherMessage(weather: Internal.CurrentWeather)
    | NamedayMessage(nameday: string)
    | SystemMessage(system: Internal.SystemStats)
    | HeartbeatMessage
    | TodoistMessage(todoist: Internal.TodoistData)
    | InitialStateMessage(
        sensors: seq<Internal.SensorReading>, initialSensorStatus: StatusTable, initialSystem: Internal.SystemStats,
        initialWeather: Option<Internal.CurrentWeather>, initialNameday: string, health: Internal.SystemHealth,
        initialTransport: Internal.BusDepartures, initialTodoist: Option<Internal.TodoistData>)
  {
    function MessageType(): WebSocketMessageType {
      match this
      case SensorStatusMessage(_) => WebSocketMessageType.SensorStatus
      case TransportMessage(_) => WebSocketMessageType.Transport
      case WeatherMessage(_) => WebSocketMessageType.Weather
      case NamedayMessage(_) => WebSocketMessageType.Nameday
      case SystemMessage(_) => WebSocketMessageType.System
      case HeartbeatMessage => WebSocketMessageType.Heartbeat
      case TodoistMessage(_) => WebSocketMessageType.Todoist
      case InitialStateMessage(_, _, _, _, _, _, _, _) => WebSocketMessageType.Initial
    }

    /** The `data` property; None for the heartbeat and the initial state. */
    function Data(): (r: Option<Value>)
      ensures r.None? <==> HeartbeatMessage? || InitialStateMessage?
    {
      match this
      case SensorStatusMessage(t) => Some(Obj(StatusFields(t)))
      case TransportMessage(b) => Some(Obj([("malesicka", ArrOf(b.malesicka, Internal.BusDepartureToDict)),
                                            ("olgy", ArrOf(b.olgy, Internal.BusDepartureToDict))]))
      case WeatherMessage(w) => Some(w.ToDict())
      case NamedayMessage(n) => Some(Str(n))
      case SystemMessage(s) => Some(s.ToDict())
      case HeartbeatMessage => None
      case TodoistMessage(d) => Some(d.ToDict())
      case InitialStateMessage(_, _, _, _, _, _, _, _) => None
    }

    /** `to_dict`, with the initial-state override. */
    function ToDict(): (v: Value)
      ensures v.Obj? && |v.fields| >= 1 && v.fields[0] == ("type", Str(MessageType().Value()))
    {
      match this
      case InitialStateMessage(sensors, status, system, weather, nameday, health, transport, todoist) =>
        Obj([("type", Str(WebSocketMessageType.Initial.Value())),
             ("sensors", ArrOf(sensors, SensorReadingToDict)),
             ("sensor_status", Obj(StatusFields(status))),
             ("system", system.ToDict()),
             ("weather", match weather case Some(w) => w.ToDict() case None => Null),
             ("nameday", Str(nameday)),
             ("health", health.ToDict()),
             ("transport", Obj([("malesicka", ArrOf(transport.malesicka, Internal.BusDepartureToDict)),
                                ("olgy", ArrOf(transport.olgy, Internal.BusDepartureToDict))])),
             ("todoist", match todoist case Some(d) => d.ToDict() case None => Null)])
      case _ =>
        Obj([("type", Str(MessageType().Value()))] + match Data() case Some(p) => [("data", p)] case None => [])
    }
  }

  function SensorReadingToDict(r: Internal.SensorReading): Value { r.ToDict() }

  /** The message type written as `s`, if any. */
  function TypeFromValue(s: string): (r: Option<WebSocketMessageType>)
    ensures r.Some? ==> r.value.Value() == s
  {
    if s == "initial" then Some(WebSocketMessageType.Initial)
    else if s == "sensor_status" then Some(WebSocketMessageType.SensorStatus)
    else if s == "transport" then Some(WebSocketMessageType.Transport)
    else if s == "weather" then Some(WebSocketMessageType.Weather)
    else if s == "nameday" then Some(WebSocketMessageType.Nameday)
    else if s == "system" then Some(WebSocketMessageType.System)
    else if s == "heartbeat" then Some(WebSocketMessageType.Heartbeat)
    else if s == "todoist" then Some(WebSocketMessageType.Todoist)
    else if s == "calendar" then Some(WebSocketMessageType.Calendar)
    else None
  }

  lemma TypeFromValueInverts(t: WebSocketMessageType)
    ensures TypeFromValue(t.Value()) == Some(t)
  {
  }

  /** Reads a payload of message type `t` back from its "data" value. */
  function ReadPayload(t: WebSocketMessageType, d: Value): Option<Message> {
    if t == WebSocketMessageType.SensorStatus then
      if d.Obj? then
        match StatusFieldsToTable(d.fields)
        case Some(table) => Some(SensorStatusMessage(table))
        case None => None
      else None
    else if t == WebSocketMessageType.Transport then
      match Internal.BusDeparturesFromDict(d)
      case Some(b) => Some(TransportMessage(b))
      case None => None
    else if t == WebSocketMessageType.Weather then
      match Internal.CurrentWeatherFromDict(d)
      case Some(w) => Some(WeatherMessage(w))
      case None => None
    else if t == WebSocketMessageType.Nameday then
      if d.Str? then Some(NamedayMessage(d.s)) else None
    else if t == WebSocketMessageType.System then
      match Internal.SystemStatsFromDict(d)
      case Some(x) => Some(SystemMessage(x))
      case None => None
    else if t == WebSocketMessageType.Todoist then
      match Internal.TodoistDataFromDict(d)
      case Some(x) => Some(TodoistMessage(x))
      case None => None
    else None
  }

  /** Reads a part written as its dict or, when absent, as null. */
  function ReadNullable<T>(v: Value, read: Value -> Option<T>): (r: Option<Option<T>>)
    ensures v == Null ==> r == Some(None)
  {
    if v == Null then Some(None)
    else match read(v)
      case Some(x) => Some(Some(x))
      case None => None
  }

  /** Reads the flat initial-state object back, part by part. */
  function ReadInitialState(v: Value): Option<Message> {
    if HasKeys(v, ["type", "sensors", "sensor_status", "system", "weather", "nameday", "health", "transport", "todoist"])
       && v.fields[2].1.Obj? && v.fields[5].1.Str?
    then
      var f := v.fields;
      match (DecodeArr(f[1].1, Internal.SensorReadingFromDict), StatusFieldsToTable(f[2].1.fields),
             Internal.SystemStatsFromDict(f[3].1), ReadNullable(f[4].1, Internal.CurrentWeatherFromDict),
             Internal.SystemHealthFromDict(f[6].1), Internal.BusDeparturesFromDict(f[7].1),
             ReadNullable(f[8].1, Internal.TodoistDataFromDict))
      case (Some(sensors), Some(status), Some(system), Some(weather), Some(health), Some(transport), Some(todoist)) =>
        Some(InitialStateMessage(sensors, status, system, weather, f[5].1.s, health, transport, todoist))
      case _ => None
    else None
  }

  /** A client's reading of a message: `{"type", "data"}`, the bare heartbeat, or the flat initial state. */
  function ReadMessage(v: Value): Option<Message> {
    if v.Obj? && |v.fields| >= 1 && v.fields[0].0 == "type" && v.fields[0].1.Str? then
      match TypeFromValue(v.fields[0].1.s)
      case None => None
      case Some(t) =>
        if t == WebSocketMessageType.Initial then ReadInitialState(v)
        else if t == WebSocketMessageType.Heartbeat then (if |v.fields| == 1 then Some(HeartbeatMessage) else None)
        else if |v.fields| == 2 && v.fields[1].0 == "data" then ReadPayload(t, v.fields[1].1)
        else None
    else None
  }

  /**
   * Every message's dict starts with its "type" string; apart from the initial
   * state, it has a "data" key exactly when the payload is not None and no
   * other key, and only the heartbeat has no payload.
   */
  lemma MessageShape(m: Message)
    ensures var v := m.ToDict();
      && v.Obj? && |v.fields| >= 1 && v.fields[0] == ("type", Str(m.MessageType().Value()))
      && (!m.InitialStateMessage? ==>
            && (m.Data().Some? <==> HasKeys(v, ["type", "data"]))
            && (m.Data().None? <==> HasKeys(v, ["type"]))
            && (m.Data().Some? ==> v.fields[1].1 == m.Data().value)
            && (m.Data().None? <==> m.HeartbeatMessage?))
  {
  }

  /** The heartbeat is exactly `{"type": "heartbeat"}`. */
  lemma HeartbeatDict()
    ensures HeartbeatMessage.ToDict() == Obj([("type", Str("heartbeat"))])
  {
  }

  /** A `{"type": t, "data": d}` object reads as the payload `d` read as type `t`. */
  lemma ReadDataMessage(t: WebSocketMessageType, d: Value)
    requires t != WebSocketMessageType.Heartbeat
    ensures ReadMessage(Obj([("type", Str(t.Value())), ("data", d)])) == ReadPayload(t, d)
  {
    TypeFromValueInverts(t);
  }

  /** A message with a payload is written as `{"type": ..., "data": payload}`. */
  lemma DataMessageDict(m: Message)
    requires !m.InitialStateMessage? && !m.HeartbeatMessage?
    ensures m.Data().Some?
    ensures m.ToDict() == Obj([("type", Str(m.MessageType().Value())), ("data", m.Data().value)])
    ensures ReadMessage(m.ToDict()) == ReadPayload(m.MessageType(), m.Data().value)
  {
    ReadDataMessage(m.MessageType(), m.Data().value);
  }

  /** Every message reads back to itself: no field of any payload or part is lost. */
  lemma {:induction false} MessageRoundTrip(m: Message)
    ensures ReadMessage(m.ToDict()) == Some(m)
  {
    if m.InitialStateMessage? {
      ReadInitialStateRoundTrip(m);
      TypeFromValueInverts(WebSocketMessageType.Initial);
    } else if m.HeartbeatMessage? {
      TypeFromValueInverts(m.MessageType());
    } else {
      DataMessageDict(m);
      PayloadRoundTrip(m);
    }
  }

  /** Each payload reads back, as its own message type, to the message it came from. */
  lemma {:induction false} PayloadRoundTrip(m: Message)
    requires !m.InitialStateMessage? && !m.HeartbeatMessage?
    ensures ReadPayload(m.MessageType(), m.Data().value) == Some(m)
  {
    match m
    case SensorStatusMessage(t) => StatusFieldsRoundTrip(t);
    case TransportMessage(b) =>
      assert m.Data().value == b.ToDict();
      Internal.BusDeparturesRoundTrip(b);
    case WeatherMessage(w) => Internal.CurrentWeatherRoundTrip(w);
    case NamedayMessage(_) =>
    case SystemMessage(x) => Internal.SystemStatsRoundTrip(x);
    case TodoistMessage(x) => Internal.TodoistDataRoundTrip(x);
  }

  /** Distinct message types never serialise to the same "type" string. */
  lemma DistinctTypesDistinctDicts(m1: Message, m2: Message)
    requires m1.MessageType() != m2.MessageType()
    ensures m1.ToDict() != m2.ToDict()
  {
    MessageShape(m1);
    MessageShape(m2);
    MessageTypeValuesDistinct(m1.MessageType(), m2.MessageType());
  }

  /**
   * The initial state is flat: "type" then eight named parts and no "data";
   * a missing weather or Todoist payload is written as null.
   */
  lemma InitialStateKeys(m: Message)
    requires m.InitialStateMessage?
    ensures var v := m.ToDict();
      && HasKeys(v, ["type", "sensors", "sensor_status", "system", "weather", "nameday", "health", "transport", "todoist"])
      && v.fields[0].1 == Str("initial")
      && (v.fields[4].1 == Null <==> m.initialWeather.None?)
      && (v.fields[8].1 == Null <==> m.initialTodoist.None?)
  {
  }

  /** Where each part of the initial state is written. */
  lemma InitialStateParts(m: Message)
    requires m.InitialStateMessage?
    ensures var f := m.ToDict().fields;
      && |f| == 9
      && f[1].1 == ArrOf(m.sensors, SensorReadingToDict)
      && f[2].1 == Obj(StatusFields(m.initialSensorStatus))
      && f[3].1 == m.initialSystem.ToDict()
      && f[4].1 == (match m.initialWeather case Some(w) => w.ToDict() case None => Null)
      && f[5].1 == Str(m.initialNameday)
      && f[6].1 == m.health.ToDict()
      && f[7].1 == m.initialTransport.ToDict()
      && f[8].1 == (match m.initialTodoist case Some(d) => d.ToDict() case None => Null)
  {
  }

  /** Each part of the initial state reads back unchanged. */
  lemma {:induction false} InitialStateRoundTrip(m: Message)
    requires m.InitialStateMessage?
    ensures var f := m.ToDict().fields;
      && |f| == 9
      && DecodeArr(f[1].1, Internal.SensorReadingFromDict) == Some(m.sensors)
      && f[2].1.Obj? && StatusFieldsToTable(f[2].1.fields) == Some(m.initialSensorStatus)
      && Internal.SystemStatsFromDict(f[3].1) == Some(m.initialSystem)
      && ReadNullable(f[4].1, Internal.CurrentWeatherFromDict) == Some(m.initialWeather)
      && f[5].1 == Str(m.initialNameday)
      && Internal.SystemHealthFromDict(f[6].1) == Some(m.health)
      && Internal.BusDeparturesFromDict(f[7].1) == Some(m.initialTransport)
      && ReadNullable(f[8].1, Internal.TodoistDataFromDict) == Some(m.initialTodoist)
  {
    InitialStateParts(m);
    Internal.SystemStatsRoundTrip(m.initialSystem);
    Internal.SystemHealthRoundTrip(m.health);
    forall i | 0 <= i < |m.sensors|
      ensures Internal.SensorReadingFromDict(SensorReadingToDict(m.sensors[i])) == Some(m.sensors[i])
    {
      Internal.SensorReadingRoundTrip(m.sensors[i]);
    }
    DecodeArrOf(m.sensors, SensorReadingToDict, Internal.SensorReadingFromDict);
    StatusFieldsRoundTrip(m.initialSensorStatus);
    Internal.BusDeparturesRoundTrip(m.initialTransport);
    if m.initialWeather.Some? {
      Internal.CurrentWeatherRoundTrip(m.initialWeather.value);
    }
    if m.initialTodoist.Some? {
      Internal.TodoistDataRoundTrip(m.initialTodoist.value);
    }
  }

  /** The flat initial-state object reads back, as a whole, to the message it came from. */
  lemma ReadInitialStateRoundTrip(m: Message)
    requires m.InitialStateMessage?
    ensures ReadInitialState(m.ToDict()) == Some(m)
  {
    InitialStateKeys(m);
    InitialStateRoundTrip(m);
  }
}
