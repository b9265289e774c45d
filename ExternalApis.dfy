/**
 * The decoders and mappers of external_apis.py: Golemio departures, the
 * nameday response, Open-Meteo weather and Todoist tasks and projects.
 *
 * An incoming JSON dict is modelled as a record with one optional value per key
 * the decoder reads (None when the key is absent); `data.get(key, default)` is
 * then `GetOr(default)`. Two parsers are parameters: `fromIso`, which stands
 * for `datetime.fromisoformat` (None where it raises ValueError), and nothing
 * else; `int()` of a string and `str()` of an int are modelled here.
 */
module ExternalApis {
  import opened Wrappers
  import opened Json
  import Enums
  import Internal

  // ---------------------------------------------------------------------------
  // Decimal text: `str(n)` and `int(s)`
  // ---------------------------------------------------------------------------

  predicate AllDigits(s: string) {
    forall i :: 0 <= i < |s| ==> '0' <= s[i] <= '9'
  }

  function DigitChar(d: int): (c: char)
    requires 0 <= d < 10
    ensures '0' <= c <= '9' && c as int - '0' as int == d
  {
    ('0' as int + d) as char
  }

  /** The value of a string of decimal digits. */
  function DigitsValue(s: string): nat
    requires AllDigits(s)
  {
    if s == [] then 0 else DigitsValue(s[..|s| - 1]) * 10 + (s[|s| - 1] as int - '0' as int)
  }

  /** The decimal digits of a natural number, without leading zeros. */
  function NatDigits(n: nat): (s: string)
    ensures |s| >= 1 && AllDigits(s)
    decreases n
  {
    if n < 10 then [DigitChar(n)] else NatDigits(n / 10) + [DigitChar(n % 10)]
  }

  /** `str(n)` of an int. */
  function IntToString(n: int): (s: string)
    ensures |s| >= 1
  {
    if n < 0 then "-" + NatDigits(-n) else NatDigits(n)
  }

  /**
   * `int(s)` of a string: an optional sign and at least one ASCII digit; None
   * where Python raises ValueError.
   */
  function ParseInt(s: string): Option<int> {
    if |s| >= 2 && (s[0] == '-' || s[0] == '+') && AllDigits(s[1..]) then
      var v: int := DigitsValue(s[1..]);
      Some(if s[0] == '-' then -v else v)
    else if |s| >= 1 && AllDigits(s) then Some(DigitsValue(s))
    else None
  }

  lemma {:induction false} NatDigitsValue(n: nat)
    ensures DigitsValue(NatDigits(n)) == n
    decreases n
  {
    if n >= 10 {
      NatDigitsValue(n / 10);
      var s := NatDigits(n);
      assert s[..|s| - 1] == NatDigits(n / 10);
    }
  }

  lemma ParseDigits(d: string)
    requires |d| >= 1 && AllDigits(d)
    ensures ParseInt(d) == Some(DigitsValue(d) as int)
  {
    assert '0' <= d[0] <= '9';
  }

  lemma ParseNegative(d: string)
    requires |d| >= 1 && AllDigits(d)
    ensures ParseInt("-" + d) == Some(-(DigitsValue(d) as int))
  {
    assert ("-" + d)[1..] == d;
  }

  /** `int(str(n)) == n`: the integer text round trip. */
  lemma ParseIntToString(n: int)
    ensures ParseInt(IntToString(n)) == Some(n)
  {
    if n < 0 {
      var m: nat := -n;
      assert IntToString(n) == "-" + NatDigits(m);
      NegativeRoundTrip(m);
    } else {
      NaturalRoundTrip(n);
    }
  }

  lemma NaturalRoundTrip(n: nat)
    ensures ParseInt(NatDigits(n)) == Some(n)
  {
    NatDigitsValue(n);
    ParseDigits(NatDigits(n));
  }

  lemma NegativeRoundTrip(m: nat)
    ensures ParseInt("-" + NatDigits(m)) == Some(-(m as int))
  {
    NatDigitsValue(m);
    ParseNegative(NatDigits(m));
  }

  // ---------------------------------------------------------------------------
  // Golemio timestamps
  // ---------------------------------------------------------------------------

  type Hour = h: int | 0 <= h < 24
  type Minute = m: int | 0 <= m < 60
  type Second = s: int | 0 <= s < 60

  /** The time of day of a parsed datetime, as far as `strftime("%H:%M:%S")` reads it. */
  datatype ClockTime = ClockTime(hour: Hour, minute: Minute, second: Second)

  const Placeholder: string := "--:--:--"

  function TwoDigits(n: int): (s: string)
    requires 0 <= n < 100
    ensures |s| == 2 && AllDigits(s)
  {
    [DigitChar(n / 10), DigitChar(n % 10)]
  }

  /** `strftime("%H:%M:%S")`. */
  function ClockText(t: ClockTime): (s: string)
    ensures |s| == 8 && s[2] == ':' && s[5] == ':'
  {
    TwoDigits(t.hour) + ":" + TwoDigits(t.minute) + ":" + TwoDigits(t.second)
  }

  /** Reads "HH:MM:SS" back; the reference inverse of ClockText. */
  function ReadClock(s: string): Option<ClockTime> {
    if |s| == 8 && s[2] == ':' && s[5] == ':' && AllDigits(s[0..2]) && AllDigits(s[3..5]) && AllDigits(s[6..8]) then
      var h, m, sec := DigitsValue(s[0..2]), DigitsValue(s[3..5]), DigitsValue(s[6..8]);
      if h < 24 && m < 60 && sec < 60 then Some(ClockTime(h, m, sec)) else None
    else None
  }

  lemma TwoDigitsValue(n: int)
    requires 0 <= n < 100
    ensures DigitsValue(TwoDigits(n)) == n
  {
    var s := TwoDigits(n);
    assert s[..1] == [DigitChar(n / 10)];
    assert s[..1][..0] == [];
    assert DigitsValue(s[..1]) == n / 10;
    assert DigitsValue(s) == (n / 10) * 10 + n % 10;
  }

  /** A formatted time reads back to itself, so distinct times format differently. */
  lemma ClockTextRoundTrip(t: ClockTime)
    ensures ReadClock(ClockText(t)) == Some(t)
  {
    var s := ClockText(t);
    assert s[0..2] == TwoDigits(t.hour);
    assert s[3..5] == TwoDigits(t.minute);
    assert s[6..8] == TwoDigits(t.second);
    TwoDigitsValue(t.hour);
    TwoDigitsValue(t.minute);
    TwoDigitsValue(t.second);
  }

  predicate Truthy(s: Option<string>) {
    s.Some? && s.value != ""
  }

  datatype GolemioTimestamp = GolemioTimestamp(predicted: Option<string>, scheduled: Option<string>, minutes: Option<string>) {

    /** `get_minutes_int`: None, "<1" and text `int()` rejects all give 0. */
    function GetMinutesInt(): (n: int)
      ensures n != 0 ==> minutes.Some? && minutes.value != "<1" && ParseInt(minutes.value) == Some(n)
    {
      match minutes
      case None => 0
      case Some(m) =>
        if m == "<1" then 0
        else match ParseInt(m)
          case Some(n) => n
          case None => 0
    }

    /** `predicted or scheduled`. */
    function ChosenTimestamp(): Option<string> {
      if Truthy(predicted) then predicted else scheduled
    }

    /** `format_time`: always an HH:MM:SS-shaped text, the placeholder included. */
    function FormatTime(fromIso: string -> Option<ClockTime>): (s: string)
      ensures |s| == 8 && s[2] == ':' && s[5] == ':'
    {
      var ts := ChosenTimestamp();
      if Truthy(ts) then
        match fromIso(ts.value)
        case Some(t) => ClockText(t)
        case None => Placeholder
      else Placeholder
    }
  }

  /** The minutes text: absent, "<1" and unparseable text give 0, and a printed number gives itself. */
  lemma MinutesInt(predicted: Option<string>, scheduled: Option<string>, text: string, n: int)
    ensures GolemioTimestamp(predicted, scheduled, None).GetMinutesInt() == 0
    ensures GolemioTimestamp(predicted, scheduled, Some("<1")).GetMinutesInt() == 0
    ensures ParseInt(text).None? ==> GolemioTimestamp(predicted, scheduled, Some(text)).GetMinutesInt() == 0
    ensures GolemioTimestamp(predicted, scheduled, Some(IntToString(n))).GetMinutesInt() == n
  {
    ParseIntToString(n);
    var s := IntToString(n);
    assert s[0] == '-' || '0' <= s[0] <= '9';
    assert s != "<1";
  }

  /**
   * `format_time` gives the placeholder exactly when neither timestamp is
   * usable; otherwise the time of the predicted timestamp when that is
   * non-empty, else of the scheduled one.
   */
  lemma FormatTimeChoice(t: GolemioTimestamp, fromIso: string -> Option<ClockTime>)
    ensures t.FormatTime(fromIso) == Placeholder <==>
            !Truthy(t.ChosenTimestamp()) || fromIso(t.ChosenTimestamp().value).None?
    ensures Truthy(t.predicted) && fromIso(t.predicted.value).Some? ==>
            t.FormatTime(fromIso) == ClockText(fromIso(t.predicted.value).value)
    ensures !Truthy(t.predicted) && Truthy(t.scheduled) && fromIso(t.scheduled.value).Some? ==>
            t.FormatTime(fromIso) == ClockText(fromIso(t.scheduled.value).value)
  {
    var ts := t.ChosenTimestamp();
    if Truthy(ts) && fromIso(ts.value).Some? {
      var s := ClockText(fromIso(ts.value).value);
      assert s[0] != Placeholder[0];
    }
  }

  datatype TimestampDict = TimestampDict(predicted: Option<string>, scheduled: Option<string>, minutes: Option<string>)

  const EmptyTimestampDict := TimestampDict(None, None, None)

  function TimestampFromDict(d: TimestampDict): GolemioTimestamp {
    GolemioTimestamp(d.predicted, d.scheduled, d.minutes)
  }

  // ---------------------------------------------------------------------------
  // The other Golemio records
  // ---------------------------------------------------------------------------

  datatype GolemioDelay = GolemioDelay(isAvailable: bool, minutes: int, seconds: int)

  /** The dataclass defaults. */
  const DefaultDelay := GolemioDelay(false, 0, 0)

  datatype DelayDict = DelayDict(isAvailable: Option<bool>, minutes: Option<int>, seconds: Option<int>)

  const EmptyDelayDict := DelayDict(None, None, None)

  /** `GolemioDelay.from_dict`; the argument is None when the "delay" key is absent or null. */
  function DelayFromDict(data: Option<DelayDict>): GolemioDelay {
    if data.None? || data.value == EmptyDelayDict then GolemioDelay(false, 0, 0)
    else GolemioDelay(data.value.isAvailable.GetOr(false), data.value.minutes.GetOr(0), data.value.seconds.GetOr(0))
  }

  /**
   * No delay data, or an empty dict, gives the dataclass defaults; otherwise
   * each present key is taken and each absent one defaults.
   */
  lemma DelayDefaults(data: Option<DelayDict>)
    ensures data.None? || data == Some(EmptyDelayDict) ==> DelayFromDict(data) == DefaultDelay
    ensures data.Some? ==>
              DelayFromDict(data) == GolemioDelay(data.value.isAvailable.GetOr(false), data.value.minutes.GetOr(0), data.value.seconds.GetOr(0))
  {
  }

  datatype GolemioRoute = GolemioRoute(shortName: string, routeType: int, isNight: bool, isRegional: bool, isSubstituteTransport: bool)

  datatype RouteDict = RouteDict(shortName: Option<string>, routeType: Option<int>, isNight: Option<bool>,
                                 isRegional: Option<bool>, isSubstituteTransport: Option<bool>)

  const EmptyRouteDict := RouteDict(None, None, None, None, None)

  function RouteFromDict(d: RouteDict): GolemioRoute {
    GolemioRoute(d.shortName.GetOr(""), d.routeType.GetOr(3), d.isNight.GetOr(false),
                 d.isRegional.GetOr(false), d.isSubstituteTransport.GetOr(false))
  }

  datatype GolemioStop = GolemioStop(id: string, platformCode: Option<string>)

  datatype StopDict = StopDict(id: Option<string>, platformCode: Option<string>)

  const EmptyStopDict := StopDict(None, None)

  function StopFromDict(d: StopDict): GolemioStop {
    GolemioStop(d.id.GetOr(""), d.platformCode)
  }

  datatype GolemioTrip = GolemioTrip(
    headsign: string, id: string, direction: Option<string>, isAtStop: bool, isCanceled: bool,
    isWheelchairAccessible: bool, isAirConditioned: bool, shortName: Option<string>)

  datatype TripDict = TripDict(
    headsign: Option<string>, id: Option<string>, direction: Option<string>, isAtStop: Option<bool>,
    isCanceled: Option<bool>, isWheelchairAccessible: Option<bool>, isAirConditioned: Option<bool>,
    shortName: Option<string>)

  const EmptyTripDict := TripDict(None, None, None, None, None, None, None, None)

  function TripFromDict(d: TripDict): GolemioTrip {
    GolemioTrip(d.headsign.GetOr(""), d.id.GetOr(""), d.direction, d.isAtStop.GetOr(false), d.isCanceled.GetOr(false),
                d.isWheelchairAccessible.GetOr(false), d.isAirConditioned.GetOr(false), d.shortName)
  }

  /** Decoding a dict with none of the keys gives the dataclass's declared defaults. */
  lemma EmptyDictsGiveDefaults()
    ensures RouteFromDict(EmptyRouteDict) == GolemioRoute("", 3, false, false, false)
    ensures StopFromDict(EmptyStopDict) == GolemioStop("", None)
    ensures TripFromDict(EmptyTripDict) == GolemioTrip("", "", None, false, false, false, false, None)
    ensures TimestampFromDict(EmptyTimestampDict) == GolemioTimestamp(None, None, None)
  {
  }

  datatype GolemioDeparture = GolemioDeparture(
    arrivalTimestamp: GolemioTimestamp, departureTimestamp: GolemioTimestamp, delay: GolemioDelay,
    route: GolemioRoute, stop: GolemioStop, trip: GolemioTrip)

  datatype DepartureDict = DepartureDict(
    arrivalTimestamp: Option<TimestampDict>, departureTimestamp: Option<TimestampDict>, delay: Option<DelayDict>,
    route: Option<RouteDict>, stop: Option<StopDict>, trip: Option<TripDict>)

  /** `GolemioDeparture.from_dict`: an absent nested dict decodes as `{}`. */
  function DepartureFromDict(d: DepartureDict): (r: GolemioDeparture)
    ensures d.arrivalTimestamp.None? ==> r.arrivalTimestamp == GolemioTimestamp(None, None, None)
    ensures d.departureTimestamp.None? ==> r.departureTimestamp == GolemioTimestamp(None, None, None)
    ensures d.delay.None? ==> r.delay == DefaultDelay
    ensures d.route.None? ==> r.route == GolemioRoute("", 3, false, false, false)
    ensures d.stop.None? ==> r.stop == GolemioStop("", None)
    ensures d.trip.None? ==> r.trip == GolemioTrip("", "", None, false, false, false, false, None)
  {
    GolemioDeparture(
      TimestampFromDict(d.arrivalTimestamp.GetOr(EmptyTimestampDict)),
      TimestampFromDict(d.departureTimestamp.GetOr(EmptyTimestampDict)),
      DelayFromDict(d.delay),
      RouteFromDict(d.route.GetOr(EmptyRouteDict)),
      StopFromDict(d.stop.GetOr(EmptyStopDict)),
      TripFromDict(d.trip.GetOr(EmptyTripDict)))
  }

  /** `to_bus_departure`. */
  function ToBusDeparture(dep: GolemioDeparture, fromIso: string -> Option<ClockTime>): Internal.BusDeparture {
    Internal.BusDeparture(
      dep.route.shortName,
      dep.trip.headsign,
      dep.departureTimestamp.GetMinutesInt(),
      GolemioTimestamp(None, dep.departureTimestamp.scheduled, None).FormatTime(fromIso),
      dep.departureTimestamp.FormatTime(fromIso),
      dep.delay.minutes,
      dep.delay.seconds)
  }

  /**
   * The mapping into a bus departure: line and direction from the route and
   * trip, the minutes from the departure's minutes text, delays copied; the
   * scheduled time is read from `scheduled` alone, so `predicted` never changes
   * it, while the predicted time falls back to it when `predicted` is empty.
   */
  lemma BusDepartureMapping(dep: GolemioDeparture, fromIso: string -> Option<ClockTime>, otherPredicted: Option<string>)
    ensures var b := ToBusDeparture(dep, fromIso);
      && b.line == dep.route.shortName && b.direction == dep.trip.headsign
      && b.mins == dep.departureTimestamp.GetMinutesInt()
      && b.delayMinutes == dep.delay.minutes && b.delaySeconds == dep.delay.seconds
      && b.timeScheduled == ToBusDeparture(dep.(departureTimestamp := dep.departureTimestamp.(predicted := otherPredicted)), fromIso).timeScheduled
      && (!Truthy(dep.departureTimestamp.predicted) ==> b.timePredicted == b.timeScheduled)
      && (Truthy(dep.departureTimestamp.predicted) && fromIso(dep.departureTimestamp.predicted.value).Some? ==>
            b.timePredicted == ClockText(fromIso(dep.departureTimestamp.predicted.value).value))
  {
    FormatTimeChoice(dep.departureTimestamp, fromIso);
  }

  datatype GolemioResponse = GolemioResponse(departures: seq<GolemioDeparture>, infotexts: seq<string>)

  datatype ResponseDict = ResponseDict(departures: Option<seq<DepartureDict>>, infotexts: Option<seq<string>>)

  /** `GolemioResponse.from_dict`. */
  function ResponseFromDict(d: ResponseDict): (r: GolemioResponse)
    ensures |r.departures| == |d.departures.GetOr([])|
    ensures forall i :: 0 <= i < |r.departures| ==> r.departures[i] == DepartureFromDict(d.departures.GetOr([])[i])
    ensures d.departures.None? ==> r.departures == []
    ensures d.infotexts.None? ==> r.infotexts == []
  {
    var deps := d.departures.GetOr([]);
    GolemioResponse(seq(|deps|, i requires 0 <= i < |deps| => DepartureFromDict(deps[i])), d.infotexts.GetOr([]))
  }

  // ---------------------------------------------------------------------------
  // Nameday
  // ---------------------------------------------------------------------------

  datatype NamedayResponse = NamedayResponse(country: string, nameday: string)

  /** The response's "data" object: country code to names; None when absent. */
  datatype NamedayDict = NamedayDict(data: Option<map<string, string>>)

  /** `NamedayResponse.from_dict(data, country)` (the country defaults to "sk"). */
  function NamedayFromDict(d: NamedayDict, country: string): (r: NamedayResponse)
    ensures r.country == country
    ensures d.data.Some? && country in d.data.value ==> r.nameday == d.data.value[country]
    ensures d.data.None? || country !in d.data.value ==> r.nameday == "Unknown"
  {
    var byCountry := d.data.GetOr(map[]);
    NamedayResponse(country, if country in byCountry then byCountry[country] else "Unknown")
  }

  // ---------------------------------------------------------------------------
  // Open-Meteo
  // ---------------------------------------------------------------------------

  datatype OpenMeteoCurrent = OpenMeteoCurrent(
    temperature2m: real, apparentTemperature: real, isDay: int, weatherCode: int, windSpeed10m: real,
    relativeHumidity2m: int, pressureMsl: real, uvIndex: real, cloudCover: int, visibility: real)

  datatype CurrentDict = CurrentDict(
    temperature2m: Option<real>, apparentTemperature: Option<real>, isDay: Option<int>, weatherCode: Option<int>,
    windSpeed10m: Option<real>, relativeHumidity2m: Option<int>, pressureMsl: Option<real>, uvIndex: Option<real>,
    cloudCover: Option<int>, visibility: Option<real>)

  function CurrentFromDict(d: CurrentDict): OpenMeteoCurrent {
    OpenMeteoCurrent(
      d.temperature2m.GetOr(0.0), d.apparentTemperature.GetOr(0.0), d.isDay.GetOr(0), d.weatherCode.GetOr(0),
      d.windSpeed10m.GetOr(0.0), d.relativeHumidity2m.GetOr(0), d.pressureMsl.GetOr(0.0), d.uvIndex.GetOr(0.0),
      d.cloudCover.GetOr(0), d.visibility.GetOr(0.0))
  }

  datatype OpenMeteoDaily = OpenMeteoDaily(time: seq<string>, temperature2mMax: seq<real>, temperature2mMin: seq<real>, weatherCode: seq<int>) {
    function ToDict(): Value {
      Obj([("time", Arr(Strs(time))), ("temperature_2m_max", Arr(Reals(temperature2mMax))),
           ("temperature_2m_min", Arr(Reals(temperature2mMin))), ("weather_code", Arr(Ints(weatherCode)))])
    }
  }

  datatype DailyDict = DailyDict(time: Option<seq<string>>, temperature2mMax: Option<seq<real>>,
                                 temperature2mMin: Option<seq<real>>, weatherCode: Option<seq<int>>)

  function DailyFromDict(d: DailyDict): OpenMeteoDaily {
    OpenMeteoDaily(d.time.GetOr([]), d.temperature2mMax.GetOr([]), d.temperature2mMin.GetOr([]), d.weatherCode.GetOr([]))
  }

  /** Reads a forecast back from the dict `to_dict` writes. */
  function DailyFromValue(v: Value): Option<OpenMeteoDaily> {
    if HasKeys(v, ["time", "temperature_2m_max", "temperature_2m_min", "weather_code"]) then
      match (DecodeArr(v.fields[0].1, AsStr), DecodeArr(v.fields[1].1, AsReal),
             DecodeArr(v.fields[2].1, AsReal), DecodeArr(v.fields[3].1, AsInt))
      case (Some(time), Some(tMax), Some(tMin), Some(codes)) => Some(OpenMeteoDaily(time, tMax, tMin, codes))
      case _ => None
    else None
  }

  /** The forecast dict keeps every list, in order. */
  lemma DailyRoundTrip(d: OpenMeteoDaily)
    ensures DailyFromValue(d.ToDict()) == Some(d)
  {
    StrsRoundTrip(d.time);
    RealsRoundTrip(d.temperature2mMax);
    RealsRoundTrip(d.temperature2mMin);
    IntsRoundTrip(d.weatherCode);
  }

  /**
   * Forecast dicts always have the same keys in the same order and the same
   * kind of number under each key, so two of them are equal exactly when the
   * forecasts are.
   */
  lemma DailyDictsEqual(a: OpenMeteoDaily, b: OpenMeteoDaily)
    ensures a.ToDict() == b.ToDict() <==> a == b
  {
    DailyRoundTrip(a);
    DailyRoundTrip(b);
  }

  datatype OpenMeteoResponse = OpenMeteoResponse(current: OpenMeteoCurrent, daily: OpenMeteoDaily)

  datatype OpenMeteoDict = OpenMeteoDict(current: Option<CurrentDict>, daily: Option<DailyDict>)

  function OpenMeteoFromDict(d: OpenMeteoDict): OpenMeteoResponse {
    OpenMeteoResponse(
      CurrentFromDict(d.current.GetOr(CurrentDict(None, None, None, None, None, None, None, None, None, None))),
      DailyFromDict(d.daily.GetOr(DailyDict(None, None, None, None))))
  }

  /** An empty response decodes to zero readings, code 0, night, and empty forecast lists. */
  lemma EmptyOpenMeteoDefaults()
    ensures OpenMeteoFromDict(OpenMeteoDict(None, None)) ==
      OpenMeteoResponse(OpenMeteoCurrent(0.0, 0.0, 0, 0, 0.0, 0, 0.0, 0.0, 0, 0.0), OpenMeteoDaily([], [], [], []))
  {
  }

  /** Python's `round(x)` to an int: to the nearest integer, ties to the even one. */
  function RoundHalfEven(x: real): (n: int)
    ensures -0.5 <= x - n as real <= 0.5
    ensures (x - n as real == 0.5 || x - n as real == -0.5) ==> n % 2 == 0
  {
    var f := x.Floor;
    var d := x - f as real;
    if d < 0.5 then f
    else if d > 0.5 then f + 1
    else if f % 2 == 0 then f
    else f + 1
  }

  /** `to_current_weather`, with `now` the clock string it is stamped with. */
  function ToCurrentWeather(r: OpenMeteoResponse, now: string): (w: Internal.CurrentWeather)
    ensures w.updated == now && (w.isDay <==> r.current.isDay == 1) && w.code == r.current.weatherCode
    ensures -0.5 <= r.current.temperature2m - w.temp as real <= 0.5
    ensures -0.5 <= r.current.apparentTemperature - w.feels as real <= 0.5
    ensures -0.5 <= r.current.windSpeed10m - w.wind as real <= 0.5
    ensures -0.5 <= r.current.pressureMsl - w.pres as real <= 0.5
    ensures -0.5 <= r.current.visibility / 1000.0 - w.vis as real <= 0.5
    ensures -0.5 <= r.current.uvIndex - w.uv as real <= 0.5
    ensures w.hum == r.current.relativeHumidity2m && w.cloud == r.current.cloudCover
    ensures w.forecast == r.daily.ToDict()
  {
    var c := r.current;
    Internal.CurrentWeather(
      now,
      RoundHalfEven(c.temperature2m),
      RoundHalfEven(c.apparentTemperature),
      c.isDay == 1,
      c.weatherCode,
      Enums.Lookup(c.weatherCode, "Cloudy"),
      RoundHalfEven(c.windSpeed10m),
      c.relativeHumidity2m,
      RoundHalfEven(c.pressureMsl),
      RoundHalfEven(c.visibility / 1000.0),
      RoundHalfEven(c.uvIndex),
      c.cloudCover,
      r.daily.ToDict())
  }

  /**
   * `is_day` holds exactly when the API's flag is 1; the description is the
   * table's entry for a known code and reads "Cloudy" exactly when the code is
   * unknown (no entry of the table reads "Cloudy").
   */
  lemma {:induction false} CurrentWeatherDescription(r: OpenMeteoResponse, now: string)
    ensures var w := ToCurrentWeather(r, now);
      && (w.isDay <==> r.current.isDay == 1)
      && w.code == r.current.weatherCode
      && (r.current.weatherCode in Enums.WeatherDescriptions ==> w.desc == Enums.WeatherDescriptions[r.current.weatherCode])
      && (w.desc == "Cloudy" <==> r.current.weatherCode !in Enums.WeatherDescriptions)
  {
    var code := r.current.weatherCode;
    if code in Enums.WeatherDescriptions {
      Enums.EntryHasMember(code);
      Enums.MemberHasDescription(Enums.FromValue(code).value);
    }
  }

  // ---------------------------------------------------------------------------
  // Todoist
  // ---------------------------------------------------------------------------

  /** An id as the API sends it: text or a number. */
  datatype IdValue = IdText(text: string) | IdNumber(number: int)

  /** `str(value)`. */
  function IdString(v: IdValue): string {
    match v
    case IdText(s) => s
    case IdNumber(n) => IntToString(n)
  }

  /** Python truthiness: the empty string and 0 are falsy. */
  predicate IdTruthy(v: IdValue) {
    match v
    case IdText(s) => s != ""
    case IdNumber(n) => n != 0
  }

  datatype TodoistTaskResponse = TodoistTaskResponse(
    id: string, content: string, projectId: string, isCompleted: bool, priority: int, order: int,
    createdAt: Option<string>, due: Option<Value>)

  datatype TaskDict = TaskDict(
    id: Option<IdValue>, content: Option<string>, projectId: Option<IdValue>, isCompleted: Option<bool>,
    priority: Option<int>, order: Option<int>, createdAt: Option<string>, due: Option<Value>)

  function TaskFromDict(d: TaskDict): TodoistTaskResponse {
    TodoistTaskResponse(
      IdString(d.id.GetOr(IdText(""))), d.content.GetOr(""), IdString(d.projectId.GetOr(IdText(""))),
      d.isCompleted.GetOr(false), d.priority.GetOr(1), d.order.GetOr(0), d.createdAt, d.due)
  }

  /** `to_todoist_task`. */
  function ToTodoistTask(t: TodoistTaskResponse): Internal.TodoistTask {
    Internal.TodoistTask(t.id, t.content, t.isCompleted, t.priority, t.order, t.projectId)
  }

  /**
   * Decoding then mapping a task: ids always become strings (a numeric id its
   * decimal text, which reads back as the same number), priority defaults to 1,
   * order to 0, completion to false.
   */
  lemma TaskMapping(d: TaskDict)
    ensures var t := ToTodoistTask(TaskFromDict(d));
      && (d.id.None? ==> t.id == "")
      && (d.id.Some? && d.id.value.IdNumber? ==> ParseInt(t.id) == Some(d.id.value.number))
      && (d.id.Some? && d.id.value.IdText? ==> t.id == d.id.value.text)
      && (d.projectId.None? ==> t.projectId == "")
      && (d.projectId.Some? && d.projectId.value.IdNumber? ==> ParseInt(t.projectId) == Some(d.projectId.value.number))
      && (d.projectId.Some? && d.projectId.value.IdText? ==> t.projectId == d.projectId.value.text)
      && t.priority == d.priority.GetOr(1) && t.order == d.order.GetOr(0)
      && t.isCompleted == d.isCompleted.GetOr(false) && t.content == d.content.GetOr("")
  {
    if d.id.Some? && d.id.value.IdNumber? {
      ParseIntToString(d.id.value.number);
    }
    if d.projectId.Some? && d.projectId.value.IdNumber? {
      ParseIntToString(d.projectId.value.number);
    }
  }

  datatype TodoistProjectResponse = TodoistProjectResponse(
    id: string, name: string, color: Option<string>, parentId: Option<string>, order: int, commentCount: int,
    isShared: bool, isFavorite: bool, isInboxProject: bool, isTeamInbox: bool, viewStyle: string, url: Option<string>)

  datatype ProjectDict = ProjectDict(
    id: Option<IdValue>, name: Option<string>, color: Option<string>, parentId: Option<IdValue>, order: Option<int>,
    commentCount: Option<int>, isShared: Option<bool>, isFavorite: Option<bool>, isInboxProject: Option<bool>,
    isTeamInbox: Option<bool>, viewStyle: Option<string>, url: Option<string>)

  function ProjectFromDict(d: ProjectDict): TodoistProjectResponse {
    TodoistProjectResponse(
      IdString(d.id.GetOr(IdText(""))),
      d.name.GetOr(""),
      d.color,
      if d.parentId.Some? && IdTruthy(d.parentId.value) then Some(IdString(d.parentId.value)) else None,
      d.order.GetOr(0), d.commentCount.GetOr(0), d.isShared.GetOr(false), d.isFavorite.GetOr(false),
      d.isInboxProject.GetOr(false), d.isTeamInbox.GetOr(false), d.viewStyle.GetOr("list"), d.url)
  }

  /**
   * `parent_id` is None exactly when it is absent or falsy ("" or 0), and
   * otherwise its string form, which is never empty; `view_style` defaults to
   * "list".
   */
  lemma ProjectParentId(d: ProjectDict)
    ensures var p := ProjectFromDict(d);
      && (p.parentId.None? <==> d.parentId.None? || !IdTruthy(d.parentId.value))
      && (p.parentId.Some? ==> p.parentId.value == IdString(d.parentId.value) && p.parentId.value != "")
      && (d.viewStyle.None? ==> p.viewStyle == "list")
  {
  }
}
