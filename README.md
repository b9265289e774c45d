# home-hub core, modelled in Dafny

home-hub is a small home dashboard server. It takes temperature readings from
MQTT sensors and keeps the latest ones in an in-memory cache. It polls
transport, weather, name-day, Todoist and Google Calendar APIs, and pushes
typed JSON messages to the dashboards connected over WebSocket. This project
models the deterministic core of that server and proves properties of the
model:

- **CalendarService** covers `fetch_events`:
  - the Monday-first six-week window of the month grid, over proleptic Gregorian ordinals (module **Dates**);
  - the merge of the per-calendar results, where each calendar's failure is isolated;
  - the final stable sort by start.
- **MqttHandler** covers `on_message`: the topic split and the per-(name, prop) five-second save throttle over `last_save_time`.
- **SensorCache** covers the `_cache` dict keyed by (sensor, prop), with update, load, clear and the queries.
- **WebSocketManager** covers the connection set with its capacity of 10, and the pruning of failed sends in `broadcast`.
- **ExternalApis** covers:
  - the `from_dict` decoders with their defaults;
  - the minutes parser and the timestamp choice;
  - the mappings into the internal models.
- **WebSocketMessages** covers the `to_dict` shape of every message and the flattened initial-state message.
- **Internal** covers the internal records, their `to_dict` (`asdict`) forms and their equalities.
- **Enums** covers the weather-code table, the bus-stop lines and the thermal-sensor priority.
- **Json** is a value model of what `to_dict` returns. A Python dict is an ordered list of key/value pairs, because dicts keep insertion order.
- **Wrappers** holds `Option`.

Clock readings, the float and ISO-date parsers, the API calls, the database
write and the socket sends become parameters of the operations that use
them. Every `to_dict` form, the whole initial-state message included, is
paired with a decoder and a lemma that it reads back. Each stateful method is specified by a pure function of the old state,
and the properties are proved about that function.

## Model

| member | source | states |
|---|---|---|
| CalendarService.GridStart | src/calendar_service.py:83-88 | The window start is a Monday. It is day 1 of the month or at most 6 days before it. |
| CalendarService.GridStartDate | src/calendar_service.py:84-88 | The start is day 1 when that day is a Monday. Otherwise it is the day `weekday` days back, in the previous month, or in December of the previous year for January. |
| CalendarService.WindowEndIsMonday | src/calendar_service.py:92 | The window end is 42 days after the start, so it is a Monday as well. |
| CalendarService.MonthInsideWindow | src/calendar_service.py:83-92 | Every day of the current month lies inside [start, start + 42). |
| CalendarService.VisibleWindow | src/calendar_service.py:83-92 | The window is (start, start + 42). It is absent exactly for December 9999, where adding 42 days overflows the date range. |
| CalendarService.WindowOverflowsOnlyInLastMonth | src/calendar_service.py:92 | The end passes the last representable date if and only if the month is December 9999. |
| CalendarService.Converted | src/calendar_service.py:116-121 | A calendar's items are converted in order. The events appended are the conversions of a prefix of its items, and that prefix stops only at the end of the items or at the first conversion that raises. |
| CalendarService.CalendarEvents | src/calendar_service.py:100-121 | A failed call adds no events. A successful call adds the converted items up to the first conversion that raises. |
| CalendarService.FetchEvents | src/calendar_service.py:70-140 | Without a client the result has no events. Otherwise it is the sorted concatenation of every calendar's contribution over the grid window, or an overflow for December 9999. |
| CalendarService.FailureIsIsolated | src/calendar_service.py:100-133 | When one calendar's call fails and the others answer as before, the result is exactly the events of the other calendars in order. |
| CalendarService.Contribution | src/calendar_service.py:103-133 | A calendar whose call raised contributes nothing. A successful one contributes at most as many events as it returned items; CalendarService.CalendarEvents states which. |
| CalendarService.Collected | src/calendar_service.py:100-121 | The events of all calendars, appended in configuration order; its contract is CalendarService.CollectedMembership and CalendarService.FailureIsIsolated. |
| CalendarService.CollectedMembership | src/calendar_service.py:100-121 | An event is collected if and only if some calendar contributed it. |
| CalendarService.FetchedEventsAreTheContributions | src/calendar_service.py:116-135 | The returned events are sorted by start. An event is returned if and only if some successful calendar contributed it. |
| CalendarService.SortByStart | src/calendar_service.py:135 | `sort(key=start)`, as a stable insertion sort; its contract is CalendarService.SortByStartSorts and CalendarService.SortByStartStable. |
| CalendarService.SortByStartSorts | src/calendar_service.py:135 | The sort orders events by start and is a permutation of its input. |
| CalendarService.SortByStartStable | src/calendar_service.py:135 | The sort is stable: events with equal starts keep their order. |
| Dates.BackToMonday | src/calendar_service.py:84-88 | Going back `weekday` days from any day lands on a Monday. |
| Dates.SixWeeksLater | src/calendar_service.py:92 | 42 days after a day is the same weekday. |
| MqttHandler.Split | src/mqtt_handler.py:29 | `split('/')` always gives at least one part; MqttHandler.SplitJoin states that it inverts the join. |
| MqttHandler.TopicKey | src/mqtt_handler.py:29-30 | `parts[-2], parts[-1]`, absent when indexing raises; its contract is MqttHandler.TopicKeyNone and MqttHandler.TopicKeyOfSegments. |
| MqttHandler.Step | src/mqtt_handler.py:29-42 | One message's effect on `last_save_time` and its outcome; its contract is MqttHandler.StepSpec. |
| MqttHandler.TopicKeyNone | src/mqtt_handler.py:29-30 | The topic has no (name, prop) key, so indexing raises, if and only if it contains no '/'. |
| MqttHandler.TopicKeyOfSegments | src/mqtt_handler.py:29-30 | For a topic joined from '/'-free segments, `name` is the last segment and `prop` the one before it. |
| MqttHandler.SplitJoin | src/mqtt_handler.py:29 | Splitting on '/' and joining back are inverse to each other. |
| MqttHandler.StepSpec | src/mqtt_handler.py:29-42 | Malformed and throttled messages change no state. A message is saved if and only if it is well formed and 5 s have passed since the key's last save, counting an absent key as time 0. A save sets only that key to `now`. |
| MqttHandler.KeysIndependent | src/mqtt_handler.py:34-36 | The decision for a message depends only on its own key's recorded time. |
| MqttHandler.TimeHeldUntilNextSave | src/mqtt_handler.py:35-38 | Between two saves of a key, its recorded time stays the time of the first save. |
| MqttHandler.ConsecutiveSavesSpaced | src/mqtt_handler.py:34-39 | Consecutive saves of the same (name, prop) are at least 5 seconds apart. |
| MqttHandler.Handler.OnMessage | src/mqtt_handler.py:27-42 | The new `last_save_time` is the throttle step's. The outcome is its decision, and a failing save still keeps the recorded time. |
| SensorCache.Find | src/sensor_cache.py:15 | A lookup succeeds if and only if the key is cached. |
| SensorCache.Put | src/sensor_cache.py:20-21 | `_cache[key] = reading` on the insertion-ordered items; its contract is SensorCache.PutFind and SensorCache.PutKeys. |
| SensorCache.PutFind | src/sensor_cache.py:20-21 | After a put, the key maps to the new reading and every other key is unchanged. |
| SensorCache.PutKeys | src/sensor_cache.py:20-21 | A put adds its key to the key set and keeps at most one entry per key. The size grows only for a new key. |
| SensorCache.ItemsPerKey | src/sensor_cache.py:29-36 | With distinct keys, the number of entries equals the number of keys. |
| SensorCache.LoadRows | src/sensor_cache.py:44-45 | The rows put one after another; its contract is SensorCache.LoadRowsSpec. |
| SensorCache.LoadRowsSpec | src/sensor_cache.py:44-45 | After loading, each key holds its last row. Keys without rows keep their old entry. |
| SensorCache.Cache.Update | src/sensor_cache.py:18-26 | The entry for (name, prop) becomes the reading (name, prop, val, now). The invariants hold. |
| SensorCache.Cache.GetAll | src/sensor_cache.py:29-31 | It returns one reading per cached key, each being that key's entry, and covers every key. |
| SensorCache.Cache.GetAllAsDicts | src/sensor_cache.py:34-36 | Each dict reads back to the corresponding reading of `get_all`, and there are as many dicts as readings. |
| SensorCache.Cache.LoadFromDb | src/sensor_cache.py:39-45 | The cache becomes the old cache with each row put in order. |
| SensorCache.Cache.IsEmpty | src/sensor_cache.py:50-52 | True if and only if no key is cached. |
| SensorCache.Cache.Clear | src/sensor_cache.py:55-57 | The cache is empty. |
| WebSocketManager.Manager.Connect | src/websocket_manager.py:15-30 | Rejected, with the set unchanged, if and only if 10 connections are open. Otherwise the connection is added, and the size stays at most 10. |
| WebSocketManager.Manager.Disconnect | src/websocket_manager.py:34-36 | The connection is removed. The call is a no-op when it is absent. |
| WebSocketManager.Manager.Snapshot | src/websocket_manager.py:52-53 | It lists each open connection exactly once. |
| WebSocketManager.Manager.Broadcast | src/websocket_manager.py:39-66 | With no connections nothing happens. Otherwise every connection is tried once, the failed ones are exactly those whose send failed, and exactly the successful ones remain. |
| ExternalApis.GolemioTimestamp.GetMinutesInt | src/models/external_apis.py:24-33 | A non-zero result is the integer that the `minutes` text, present and not "<1", spells. |
| ExternalApis.GolemioTimestamp.FormatTime | src/models/external_apis.py:35-44 | The result always has the HH:MM:SS shape, the "--:--:--" placeholder included. |
| ExternalApis.MinutesInt | src/models/external_apis.py:24-33 | The result is 0 for None, for "<1" and for unparseable text, and n for the decimal text of n. |
| ExternalApis.ParseIntToString | src/models/external_apis.py:31 | `int(str(n)) == n` for every integer n. |
| ExternalApis.ClockTextRoundTrip | src/models/external_apis.py:41 | The HH:MM:SS text of a clock time reads back to that time. |
| ExternalApis.FormatTimeChoice | src/models/external_apis.py:35-44 | The result is the placeholder if and only if there is no usable timestamp. Otherwise `predicted` is used when non-empty, else `scheduled`. |
| ExternalApis.DelayDefaults | src/models/external_apis.py:55-62 | None or an empty dict gives not-available, 0 min, 0 s. Otherwise each field is its key's value or default. |
| ExternalApis.EmptyDictsGiveDefaults | src/models/external_apis.py:17-122 | Empty route, stop, trip and timestamp dicts give the declared defaults, including route type 3. |
| ExternalApis.DepartureFromDict | src/models/external_apis.py:136-144 | An absent nested dict decodes as the empty dict does, to the declared defaults. |
| ExternalApis.ToBusDeparture | src/models/external_apis.py:146-157 | The mapping into `BusDeparture`; its contract is ExternalApis.BusDepartureMapping. |
| ExternalApis.BusDepartureMapping | src/models/external_apis.py:146-157 | The line, direction and delay are copied, and `mins` is the departure's minutes. The scheduled time ignores `predicted`. The predicted time falls back to the scheduled one, and otherwise is the clock time of `predicted`. |
| ExternalApis.ResponseFromDict | src/models/external_apis.py:167-175 | It keeps the departures' number and order. Absent keys give empty lists. |
| ExternalApis.NamedayFromDict | src/models/external_apis.py:185-189 | The name day is the country's entry, or "Unknown" when it is absent. |
| ExternalApis.EmptyOpenMeteoDefaults | src/models/external_apis.py:207-260 | An empty response decodes to zero readings and empty forecast lists. |
| ExternalApis.DailyRoundTrip | src/models/external_apis.py:239-246 | The forecast dict reads back to the same four lists, in order. |
| ExternalApis.DailyDictsEqual | src/models/external_apis.py:239-246 | Two forecast dicts are equal if and only if the forecasts are. |
| ExternalApis.RoundHalfEven | src/models/external_apis.py:271-280 | Python's `round`: the nearest integer, with ties going to the even one. |
| ExternalApis.ToCurrentWeather | src/models/external_apis.py:262-283 | `updated` is `now`. Each rounded reading is within 0.5 of the reading, visibility in kilometres. `is_day` holds if and only if the value is 1. The forecast is the daily dict. |
| ExternalApis.CurrentWeatherDescription | src/models/external_apis.py:273-275 | `is_day` holds if and only if the code value is 1. `desc` is the table entry, and is "Cloudy" exactly for unknown codes. |
| ExternalApis.TaskFromDict | src/models/external_apis.py:303-314 | The task decoder; its contract is ExternalApis.TaskMapping. |
| ExternalApis.TaskMapping | src/models/external_apis.py:303-326 | The fields are copied with their defaults. An absent `id` or `project_id` becomes "", text stays as it is, and a number becomes text that reads back to the number. |
| ExternalApis.ProjectFromDict | src/models/external_apis.py:346-361 | The project decoder; its contract is ExternalApis.ProjectParentId. |
| ExternalApis.ProjectParentId | src/models/external_apis.py:349-359 | `parent_id` is None exactly when it is absent or falsy, and otherwise its non-empty string form. |
| WebSocketMessages.Message.Data | src/models/websocket.py:22-156 | The payload is None exactly for the heartbeat and the initial state. |
| WebSocketMessages.Message.ToDict | src/models/websocket.py:28-34 | Every message dict starts with "type", holding the type's value. |
| WebSocketMessages.MessageShape | src/models/websocket.py:28-34 | "type" is always first and is the type's value. For every message other than the initial state, "data" is present exactly when the payload is not None, and the payload is None only for the heartbeat. |
| WebSocketMessages.HeartbeatDict | src/models/websocket.py:111-120 | A heartbeat is exactly {"type": "heartbeat"}. |
| WebSocketMessages.MessageRoundTrip | src/models/websocket.py:28-173 | Every message, the flat initial state included, reads back from its dict, so no payload field is lost. |
| WebSocketMessages.StatusFieldsRoundTrip | src/models/websocket.py:46-48 | The sensor-status payload has the same keys, in order, and each status reads back. |
| WebSocketMessages.DistinctTypesDistinctDicts | src/models/websocket.py:28-30 | Messages of different types never serialise alike. |
| WebSocketMessages.InitialStateKeys | src/models/websocket.py:158-173 | The initial state has the nine flattened keys and no "data". Its weather and todoist entries are None exactly when absent. |
| WebSocketMessages.InitialStateRoundTrip | src/models/websocket.py:158-173 | All eight parts of the initial state read back unchanged: sensors, sensor status, system, weather, nameday, health, transport and Todoist. A missing weather or Todoist part reads back as None. |
| WebSocketMessages.ReadInitialStateRoundTrip | src/models/websocket.py:158-173 | The flat initial-state object, read as a whole, gives back the message it was written from. |
| Internal.SystemStatsRoundTrip | src/models/internal.py:20-34 | The stats dict reads back. `cpu_temp` is null exactly when it is None. |
| Internal.EmptySystemStatsDict | src/models/internal.py:36-42 | `empty()` has all nine numeric fields 0 and `cpu_temp` None. |
| Internal.SystemHealthRoundTrip | src/models/internal.py:69-73 | The health dict reads back. |
| Internal.SensorReadingRoundTrip | src/models/internal.py:57-65 | The reading dict reads back. |
| Internal.BusDeparturesRoundTrip | src/models/internal.py:97-101 | The transport dict keeps the count and order of each stop's departures, and reads back. |
| Internal.BusDepartures.Eq | src/models/internal.py:103-106 | False for any other kind of object; otherwise true exactly when both lists are equal. |
| Internal.CurrentWeather.EqualsIgnoringUpdated | src/models/internal.py:129-144 | True if and only if every field except `updated` is equal. |
| Internal.EqualsIgnoringUpdatedIsEquivalence | src/models/internal.py:129-144 | The relation is reflexive, symmetric and transitive, and ignores only `updated`. |
| Internal.CurrentWeatherRoundTrip | src/models/internal.py:110-127 | The weather dict reads back. |
| Internal.TodoistProjectRoundTrip | src/models/internal.py:168-173 | The project dict keeps its tasks' count and order, and reads back. |
| Internal.TodoistData.Eq | src/models/internal.py:186-189 | False for any other kind of object; otherwise true exactly when the projects are equal. |
| Internal.TodoistDataRoundTrip | src/models/internal.py:181-184 | The Todoist dict reads back. |
| Enums.WeatherCode.Description | src/models/enums.py:168-171 | Every member's description is its table entry, never "Unknown". |
| Enums.Lookup | src/models/enums.py:171 | `.get(code, default)` gives the entry when the key is present, and the default otherwise. |
| Enums.FromValue | src/models/enums.py:137-166 | A code names a member if and only if it is one of the 28 code values, and that member has this value. |
| Enums.FromValueInverts | src/models/enums.py:137-166 | Each member is found again from its value. |
| Enums.DescriptionKeys | src/models/enums.py:175-204 | The table's keys are exactly the 28 member values. |
| Enums.EntryHasMember | src/models/enums.py:175-204 | Every table key is the value of a member. |
| Enums.MemberHasDescription | src/models/enums.py:139-204 | Every member has a table entry, which is neither "Unknown" nor "Cloudy". |
| Enums.WeatherCodeCount | src/models/enums.py:139-166 | There are 28 members, listed in strictly increasing value order. |
| Enums.WeatherCodeListed | src/models/enums.py:139-166 | Every member is among the 28 listed. |
| Enums.BusStopLinesDisjoint | src/models/enums.py:50-53 | MALESICKA has {146, 155} and OLGY_HAVLOVE has {133}. The two sets are disjoint and together cover all lines. |
| Enums.ThermalSensorPriorityComplete | src/models/enums.py:15-20 | The four sensors are listed, without duplicates, from cpu_thermal to acpitz. |
| Enums.MessageTypeValuesDistinct | src/models/enums.py:23-33 | Different message types have different values. |

## Left out

- Clock reads (`datetime.now()`, `time.time()`) are parameters: the current year and month, `now` and the `updated` stamp.
- The Google Calendar client, its API call and `asyncio.to_thread` are not modelled. Each calendar's call is the parameter `fetch`, returning its items or the exception it raised. The HTTP 401/403 hint only logs, so it has no model.
- `GoogleCalendarEventResponse`, and the other fields and the `to_dict` of `CalendarEvent` and `CalendarData`, are not modelled. The conversion of one item is the parameter `convert`, where None means it raised. An event is a record with an integer start.
- CalendarService.Window: the ISO strings sent as timeMin/timeMax, with 00:00:00 and 23:59:59.999999 and a 'Z' suffix, are left out. The window is the pair of dates.
- CalendarService.SortByStart: Python's Timsort is modelled by a stable insertion sort. This gives the same output, because a stable sort by one key is unique, but that uniqueness is not proved.
- MqttHandler.Handler.OnMessage: `float(payload.decode())` is the parameter `parseFloat`. IEEE floats are reals, so NaN and infinities are not modelled. The database write is reported as an outcome, and its success is a parameter.
- The console output of `on_message` and all logging are left out.
- SensorCache.Cache.LoadFromDb: the rows are taken as `SensorReading` records. `database.get_current_status` returns dicts while `load_from_db` reads attributes; this mismatch is not modelled. The database itself is I/O.
- SensorCache: the cache's `ts` is the parameter `now`, where the source uses `datetime.now().isoformat()`. The module-level dict is a `Cache` object.
- WebSocketManager: the asyncio lock, `accept`/`close`/`send_text`, `json.dumps` and interleavings of the coroutines are left out. Connections are values of any type with equality. The outcome of each send is the parameter `sendSucceeds`. A rejected connect is the result `Rejected`, not an exception.
- ExternalApis: input dicts are typed records with one optional field per key. An explicit JSON null, and values of a type other than the annotated one, are not modelled. `int()` is modelled as an optional '-' or '+' sign and ASCII digits: a leading '+' is accepted, while surrounding whitespace and '_' digit separators are not modelled.
- ExternalApis.FormatTime: `fromisoformat` and `strftime` are the parameter `fromIso`, giving a clock time or None.
- ExternalApis.ToCurrentWeather: floats are reals. The `/ 1000` for visibility is exact, and float rounding errors are not modelled.
- Internal: `FrontendConfig` (src/models/internal.py:7-17) is not part of this model, because no core operation uses it.
- CurrentWeather.EqualsIgnoringUpdated: `forecast` is compared as an ordered dict whose numbers are reals, while Python's dict `==` ignores key order and has `1 == 1.0`. Every forecast is written by `OpenMeteoDaily.to_dict` with the same keys in the same order, and the model's reals already equate 1 and 1.0, so the two comparisons agree on every forecast the program builds; ExternalApis.DailyDictsEqual states this for the forecast dicts.
- The `calendar` message type exists but has no message class, so only its value is modelled.
- The FastAPI routes, main.py, config.py, logger.py, system_info.py and database.py are not part of this model.
