/**
 * The internal application models of internal.py: the records pushed to the
 * dashboard, their `asdict` / `to_dict` shapes, and their custom equalities.
 * Python floats are modelled as reals (there is no NaN).
 */
module Internal {
  import opened Wrappers
  import opened Json

  datatype SystemStats = SystemStats(
    cpu: real, ramPct: real, ramUsed: real, ramTotal: real,
    diskPct: real, diskUsed: real, diskTotal: real,
    netSent: real, netRecv: real, cpuTemp: Option<real>)
  {
    /** `asdict`: fields in declaration order. */
    function ToDict(): Value {
      Obj([("cpu", Real(cpu)), ("ram_pct", Real(ramPct)), ("ram_used", Real(ramUsed)),
           ("ram_total", Real(ramTotal)), ("disk_pct", Real(diskPct)), ("disk_used", Real(diskUsed)),
           ("disk_total", Real(diskTotal)), ("net_sent", Real(netSent)), ("net_recv", Real(netRecv)),
           ("cpu_temp", match cpuTemp case Some(t) => Real(t) case None => Null)])
    }
  }

  function SystemStatsFromDict(v: Value): Option<SystemStats> {
    if HasKeys(v, ["cpu", "ram_pct", "ram_used", "ram_total", "disk_pct", "disk_used",
                   "disk_total", "net_sent", "net_recv", "cpu_temp"]) &&
       (forall i :: 0 <= i < 9 ==> v.fields[i].1.Real?) && (v.fields[9].1.Null? || v.fields[9].1.Real?)
    then
      var f := v.fields;
      Some(SystemStats(f[0].1.r, f[1].1.r, f[2].1.r, f[3].1.r, f[4].1.r, f[5].1.r, f[6].1.r, f[7].1.r, f[8].1.r,
                       if f[9].1.Null? then None else Some(f[9].1.r)))
    else None
  }

  /** `asdict` of the statistics loses nothing; a missing temperature is written as null. */
  lemma SystemStatsRoundTrip(s: SystemStats)
    ensures SystemStatsFromDict(s.ToDict()) == Some(s)
    ensures s.ToDict().fields[9].1 == Null <==> s.cpuTemp.None?
  {
  }

  /** `SystemStats.empty()`. */
  function EmptySystemStats(): SystemStats {
    SystemStats(0.0, 0.0, 0.0, 0.0, 0.0, 0.0, 0.0, 0.0, 0.0, None)
  }

  /**
   * The empty statistics serialise with every numeric field 0 and a null
   * `cpu_temp`, under the same nine numeric keys, in the same order, as the
   * live statistics dict that the system monitor starts from.
   */
  lemma EmptySystemStatsDict()
    ensures var d := EmptySystemStats().ToDict();
      && Keys(d.fields) == ["cpu", "ram_pct", "ram_used", "ram_total", "disk_pct", "disk_used",
                            "disk_total", "net_sent", "net_recv", "cpu_temp"]
      && (forall i :: 0 <= i < 9 ==> d.fields[i].1 == Real(0.0))
      && d.fields[9].1 == Null
  {
  }

  datatype SensorStatus = SensorStatus(online: bool, lastSeen: real, secondsAgo: real) {
    function ToDict(): Value {
      Obj([("online", Bool(online)), ("last_seen", Real(lastSeen)), ("seconds_ago", Real(secondsAgo))])
    }
  }

  function SensorStatusFromDict(v: Value): Option<SensorStatus> {
    if HasKeys(v, ["online", "last_seen", "seconds_ago"]) &&
       v.fields[0].1.Bool? && v.fields[1].1.Real? && v.fields[2].1.Real?
    then Some(SensorStatus(v.fields[0].1.b, v.fields[1].1.r, v.fields[2].1.r))
    else None
  }

  lemma SensorStatusRoundTrip(s: SensorStatus)
    ensures SensorStatusFromDict(s.ToDict()) == Some(s)
  {
  }

  datatype SensorReading = SensorReading(sensor: string, prop: string, temp: real, ts: string) {
    function ToDict(): Value {
      Obj([("sensor", Str(sensor)), ("prop", Str(prop)), ("temp", Real(temp)), ("ts", Str(ts))])
    }
  }

  /** Reads a sensor reading back from its dict. */
  function SensorReadingFromDict(v: Value): Option<SensorReading> {
    if HasKeys(v, ["sensor", "prop", "temp", "ts"]) &&
       v.fields[0].1.Str? && v.fields[1].1.Str? && v.fields[2].1.Real? && v.fields[3].1.Str?
    then Some(SensorReading(v.fields[0].1.s, v.fields[1].1.s, v.fields[2].1.r, v.fields[3].1.s))
    else None
  }

  /** `to_dict` of a reading loses nothing. */
  lemma SensorReadingRoundTrip(r: SensorReading)
    ensures SensorReadingFromDict(r.ToDict()) == Some(r)
  {
  }

  datatype SystemHealth = SystemHealth(mqtt: bool, database: bool, wifi: bool) {
    function ToDict(): Value {
      Obj([("mqtt", Bool(mqtt)), ("database", Bool(database)), ("wifi", Bool(wifi))])
    }
  }

  function SystemHealthFromDict(v: Value): Option<SystemHealth> {
    if HasKeys(v, ["mqtt", "database", "wifi"]) && v.fields[0].1.Bool? && v.fields[1].1.Bool? && v.fields[2].1.Bool?
    then Some(SystemHealth(v.fields[0].1.b, v.fields[1].1.b, v.fields[2].1.b))
    else None
  }

  lemma SystemHealthRoundTrip(h: SystemHealth)
    ensures SystemHealthFromDict(h.ToDict()) == Some(h)
  {
  }

  datatype BusDeparture = BusDeparture(
    line: string, direction: string, mins: int,
    timeScheduled: string, timePredicted: string,
    delayMinutes: int, delaySeconds: int)
  {
    function ToDict(): Value {
      Obj([("line", Str(line)), ("direction", Str(direction)), ("mins", Int(mins)),
           ("time_scheduled", Str(timeScheduled)), ("time_predicted", Str(timePredicted)),
           ("delay_minutes", Int(delayMinutes)), ("delay_seconds", Int(delaySeconds))])
    }
  }

  function BusDepartureFromDict(v: Value): Option<BusDeparture> {
    if HasKeys(v, ["line", "direction", "mins", "time_scheduled", "time_predicted", "delay_minutes", "delay_seconds"]) &&
       v.fields[0].1.Str? && v.fields[1].1.Str? && v.fields[2].1.Int? && v.fields[3].1.Str? &&
       v.fields[4].1.Str? && v.fields[5].1.Int? && v.fields[6].1.Int?
    then
      var f := v.fields;
      Some(BusDeparture(f[0].1.s, f[1].1.s, f[2].1.i, f[3].1.s, f[4].1.s, f[5].1.i, f[6].1.i))
    else None
  }

  lemma BusDepartureRoundTrip(d: BusDeparture)
    ensures BusDepartureFromDict(d.ToDict()) == Some(d)
  {
  }

  function BusDepartureToDict(d: BusDeparture): Value { d.ToDict() }

  /** Departures for the two tracked stops. */
  datatype BusDepartures = BusDepartures(malesicka: seq<BusDeparture>, olgy: seq<BusDeparture>) {
    function ToDict(): Value {
      Obj([("malesicka", ArrOf(malesicka, BusDepartureToDict)), ("olgy", ArrOf(olgy, BusDepartureToDict))])
    }

    /** `__eq__`: false for anything that is not a BusDepartures, otherwise both lists compared. */
    function Eq(other: AnyObject): (r: bool)
      ensures r <==> other == BusDeparturesObject(this)
    {
      match other
      case BusDeparturesObject(o) => malesicka == o.malesicka && olgy == o.olgy
      case _ => false
    }
  }

  function BusDeparturesFromDict(v: Value): Option<BusDepartures> {
    if HasKeys(v, ["malesicka", "olgy"]) then
      match (DecodeArr(v.fields[0].1, BusDepartureFromDict), DecodeArr(v.fields[1].1, BusDepartureFromDict))
      case (Some(ms), Some(os)) => Some(BusDepartures(ms, os))
      case _ => None
    else None
  }

  /**
   * `BusDepartures.to_dict` keeps, per stop, every departure in its order:
   * the dict reads back to the same departures.
   */
  lemma {:induction false} BusDeparturesRoundTrip(b: BusDepartures)
    ensures BusDeparturesFromDict(b.ToDict()) == Some(b)
  {
    forall i | 0 <= i < |b.malesicka| ensures BusDepartureFromDict(BusDepartureToDict(b.malesicka[i])) == Some(b.malesicka[i]) {
      BusDepartureRoundTrip(b.malesicka[i]);
    }
    forall i | 0 <= i < |b.olgy| ensures BusDepartureFromDict(BusDepartureToDict(b.olgy[i])) == Some(b.olgy[i]) {
      BusDepartureRoundTrip(b.olgy[i]);
    }
    DecodeArrOf(b.malesicka, BusDepartureToDict, BusDepartureFromDict);
    DecodeArrOf(b.olgy, BusDepartureToDict, BusDepartureFromDict);
  }

  datatype CurrentWeather = CurrentWeather(
    updated: string, temp: int, feels: int, isDay: bool, code: int, desc: string,
    wind: int, hum: int, pres: int, vis: int, uv: int, cloud: int, forecast: Value)
  {
    function ToDict(): Value {
      Obj([("updated", Str(updated)), ("temp", Int(temp)), ("feels", Int(feels)), ("is_day", Bool(isDay)),
           ("code", Int(code)), ("desc", Str(desc)), ("wind", Int(wind)), ("hum", Int(hum)),
           ("pres", Int(pres)), ("vis", Int(vis)), ("uv", Int(uv)), ("cloud", Int(cloud)),
           ("forecast", forecast)])
    }

    /** `equals_ignoring_updated`: every field but `updated` compared. */
    function EqualsIgnoringUpdated(other: CurrentWeather): (r: bool)
      ensures r <==> this.(updated := other.updated) == other
    {
      temp == other.temp && feels == other.feels && isDay == other.isDay && code == other.code &&
      desc == other.desc && wind == other.wind && hum == other.hum && pres == other.pres &&
      vis == other.vis && uv == other.uv && cloud == other.cloud && forecast == other.forecast
    }
  }

  function CurrentWeatherFromDict(v: Value): Option<CurrentWeather> {
    if HasKeys(v, ["updated", "temp", "feels", "is_day", "code", "desc", "wind", "hum", "pres", "vis", "uv", "cloud", "forecast"]) &&
       v.fields[0].1.Str? && v.fields[1].1.Int? && v.fields[2].1.Int? && v.fields[3].1.Bool? &&
       v.fields[4].1.Int? && v.fields[5].1.Str? && v.fields[6].1.Int? && v.fields[7].1.Int? &&
       v.fields[8].1.Int? && v.fields[9].1.Int? && v.fields[10].1.Int? && v.fields[11].1.Int?
    then
      var f := v.fields;
      Some(CurrentWeather(f[0].1.s, f[1].1.i, f[2].1.i, f[3].1.b, f[4].1.i, f[5].1.s, f[6].1.i, f[7].1.i,
                          f[8].1.i, f[9].1.i, f[10].1.i, f[11].1.i, f[12].1))
    else None
  }

  lemma CurrentWeatherRoundTrip(w: CurrentWeather)
    ensures CurrentWeatherFromDict(w.ToDict()) == Some(w)
  {
  }

  /** Ignoring `updated` is an equivalence, and only `updated` is ignored. */
  lemma EqualsIgnoringUpdatedIsEquivalence(a: CurrentWeather, b: CurrentWeather, c: CurrentWeather, stamp: string)
    ensures a.EqualsIgnoringUpdated(a)
    ensures a.EqualsIgnoringUpdated(b) ==> b.EqualsIgnoringUpdated(a)
    ensures a.EqualsIgnoringUpdated(b) && b.EqualsIgnoringUpdated(c) ==> a.EqualsIgnoringUpdated(c)
    ensures a.EqualsIgnoringUpdated(a.(updated := stamp))
    ensures a.EqualsIgnoringUpdated(b) && a.updated == b.updated ==> a == b
  {
  }

  datatype TodoistTask = TodoistTask(id: string, content: string, isCompleted: bool, priority: int, order: int, projectId: string) {
    function ToDict(): Value {
      Obj([("id", Str(id)), ("content", Str(content)), ("is_completed", Bool(isCompleted)),
           ("priority", Int(priority)), ("order", Int(order)), ("project_id", Str(projectId))])
    }
  }

  function TodoistTaskToDict(t: TodoistTask): Value { t.ToDict() }

  function TodoistTaskFromDict(v: Value): Option<TodoistTask> {
    if HasKeys(v, ["id", "content", "is_completed", "priority", "order", "project_id"]) &&
       v.fields[0].1.Str? && v.fields[1].1.Str? && v.fields[2].1.Bool? &&
       v.fields[3].1.Int? && v.fields[4].1.Int? && v.fields[5].1.Str?
    then
      var f := v.fields;
      Some(TodoistTask(f[0].1.s, f[1].1.s, f[2].1.b, f[3].1.i, f[4].1.i, f[5].1.s))
    else None
  }

  lemma TodoistTaskRoundTrip(t: TodoistTask)
    ensures TodoistTaskFromDict(t.ToDict()) == Some(t)
  {
  }

  datatype TodoistProject = TodoistProject(id: string, name: string, tasks: seq<TodoistTask>) {
    function ToDict(): Value {
      Obj([("id", Str(id)), ("name", Str(name)), ("tasks", ArrOf(tasks, TodoistTaskToDict))])
    }
  }

  function TodoistProjectToDict(p: TodoistProject): Value { p.ToDict() }

  function TodoistProjectFromDict(v: Value): Option<TodoistProject> {
    if HasKeys(v, ["id", "name", "tasks"]) && v.fields[0].1.Str? && v.fields[1].1.Str? then
      match DecodeArr(v.fields[2].1, TodoistTaskFromDict)
      case Some(tasks) => Some(TodoistProject(v.fields[0].1.s, v.fields[1].1.s, tasks))
      case None => None
    else None
  }

  /** `TodoistProject.to_dict` keeps every task, in order. */
  lemma {:induction false} TodoistProjectRoundTrip(p: TodoistProject)
    ensures TodoistProjectFromDict(p.ToDict()) == Some(p)
  {
    forall i | 0 <= i < |p.tasks| ensures TodoistTaskFromDict(TodoistTaskToDict(p.tasks[i])) == Some(p.tasks[i]) {
      TodoistTaskRoundTrip(p.tasks[i]);
    }
    DecodeArrOf(p.tasks, TodoistTaskToDict, TodoistTaskFromDict);
  }

  datatype TodoistData = TodoistData(projects: seq<TodoistProject>) {
    function ToDict(): Value {
      Obj([("projects", ArrOf(projects, TodoistProjectToDict))])
    }

    /** `__eq__`: false for anything that is not a TodoistData, otherwise `projects` compared. */
    function Eq(other: AnyObject): (r: bool)
      ensures r <==> other == TodoistDataObject(this)
    {
      match other
      case TodoistDataObject(o) => projects == o.projects
      case _ => false
    }
  }

  function TodoistDataFromDict(v: Value): Option<TodoistData> {
    if HasKeys(v, ["projects"]) then
      match DecodeArr(v.fields[0].1, TodoistProjectFromDict)
      case Some(projects) => Some(TodoistData(projects))
      case None => None
    else None
  }

  lemma {:induction false} TodoistDataRoundTrip(d: TodoistData)
    ensures TodoistDataFromDict(d.ToDict()) == Some(d)
  {
    forall i | 0 <= i < |d.projects| ensures TodoistProjectFromDict(TodoistProjectToDict(d.projects[i])) == Some(d.projects[i]) {
      TodoistProjectRoundTrip(d.projects[i]);
    }
    DecodeArrOf(d.projects, TodoistProjectToDict, TodoistProjectFromDict);
  }

  /** The `other` argument of the `__eq__` methods: any Python object. */
  datatype AnyObject = BusDeparturesObject(departures: BusDepartures) | TodoistDataObject(data: TodoistData) | OtherObject
}
