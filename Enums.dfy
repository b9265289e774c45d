/** The enumerations and constant tables shared by the models. */
module Enums {
  import opened Wrappers

  /** Known thermal sensor names across platforms. */
  datatype ThermalSensor = CpuThermal | Coretemp | K10temp | Acpitz {
    function Value(): string {
      match this
      case CpuThermal => "cpu_thermal"
      case Coretemp => "coretemp"
      case K10temp => "k10temp"
      case Acpitz => "acpitz"
    }
  }

  /** The order in which temperature sensors are looked up. */
  const ThermalSensorPriority: seq<ThermalSensor> := [CpuThermal, Coretemp, K10temp, Acpitz]

  lemma ThermalSensorPriorityComplete()
    ensures |ThermalSensorPriority| == 4
    ensures forall i, j :: 0 <= i < j < 4 ==> ThermalSensorPriority[i] != ThermalSensorPriority[j]
    ensures forall t: ThermalSensor :: t in ThermalSensorPriority
    ensures ThermalSensorPriority[0].Value() == "cpu_thermal" && ThermalSensorPriority[3].Value() == "acpitz"
  {
    forall t: ThermalSensor ensures t in ThermalSensorPriority {
      match t
      case CpuThermal => assert ThermalSensorPriority[0] == t;
      case Coretemp => assert ThermalSensorPriority[1] == t;
      case K10temp => assert ThermalSensorPriority[2] == t;
      case Acpitz => assert ThermalSensorPriority[3] == t;
    }
  }

  /** WebSocket message type identifiers. */
  datatype WebSocketMessageType = Initial | SensorStatus | Transport | Weather | Nameday | System | Heartbeat | Todoist | Calendar {
    function Value(): string {
      match this
      case Initial => "initial"
      case SensorStatus => "sensor_status"
      case Transport => "transport"
      case Weather => "weather"
      case Nameday => "nameday"
      case System => "system"
      case Heartbeat => "heartbeat"
      case Todoist => "todoist"
      case Calendar => "calendar"
    }
  }

  /** Distinct message types are written with distinct "type" strings. */
  lemma MessageTypeValuesDistinct(a: WebSocketMessageType, b: WebSocketMessageType)
    ensures a.Value() == b.Value() ==> a == b
  {
  }

  /** Prague bus stop ids. */
  datatype BusStop = Malesicka | OlgyHavlove {
    function Value(): string {
      match this
      case Malesicka => "U357Z1P"
      case OlgyHavlove => "U1064Z2P"
    }
  }

  datatype BusLine = Line133 | Line146 | Line155 {
    function Value(): string {
      match this
      case Line133 => "133"
      case Line146 => "146"
      case Line155 => "155"
    }
  }

  /** Which lines are tracked at each stop. */
  const BusStopLines: map<BusStop, set<BusLine>> := map[Malesicka := {Line146, Line155}, OlgyHavlove := {Line133}]

  /** Every stop has its lines, and no line is tracked at both stops. */
  lemma BusStopLinesDisjoint()
    ensures BusStopLines.Keys == {Malesicka, OlgyHavlove}
    ensures BusStopLines[Malesicka] !! BusStopLines[OlgyHavlove]
    ensures BusStopLines[Malesicka] + BusStopLines[OlgyHavlove] == {Line133, Line146, Line155}
  {
  }

  /** WMO weather interpretation codes as Open-Meteo reports them. */
  datatype WeatherCode =
    | ClearSky | MainlyClear | PartlyCloudy | Overcast | Fog | DepositingRimeFog
    | LightDrizzle | ModerateDrizzle | DenseDrizzle | LightFreezingDrizzle | DenseFreezingDrizzle
    | SlightRain | ModerateRain | HeavyRain | LightFreezingRain | HeavyFreezingRain
    | SlightSnow | ModerateSnow | HeavySnow | SnowGrains
    | SlightRainShowers | ModerateRainShowers | ViolentRainShowers
    | SlightSnowShowers | HeavySnowShowers
    | Thunderstorm | ThunderstormSlightHail | ThunderstormHeavyHail
  {
    function Value(): int {
      match this
      case ClearSky => 0
      case MainlyClear => 1
      case PartlyCloudy => 2
      case Overcast => 3
      case Fog => 45
      case DepositingRimeFog => 48
      case LightDrizzle => 51
      case ModerateDrizzle => 53
      case DenseDrizzle => 55
      case LightFreezingDrizzle => 56
      case DenseFreezingDrizzle => 57
      case SlightRain => 61
      case ModerateRain => 63
      case HeavyRain => 65
      case LightFreezingRain => 66
      case HeavyFreezingRain => 67
      case SlightSnow => 71
      case ModerateSnow => 73
      case HeavySnow => 75
      case SnowGrains => 77
      case SlightRainShowers => 80
      case ModerateRainShowers => 81
      case ViolentRainShowers => 82
      case SlightSnowShowers => 85
      case HeavySnowShowers => 86
      case Thunderstorm => 95
      case ThunderstormSlightHail => 96
      case ThunderstormHeavyHail => 99
    }

    /** The `description` property: the table entry, or "Unknown" when the code has none. */
    function Description(): (d: string)
      ensures d == WeatherDescriptions[Value()] && d != "Unknown"
    {
      MemberHasDescription(this);
      Lookup(Value(), "Unknown")
    }
  }

  /** Weather code to description. */
  const WeatherDescriptions: map<int, string> := map[
    0 := "Clear sky",
    1 := "Mainly clear",
    2 := "Partly cloudy",
    3 := "Overcast",
    45 := "Fog",
    48 := "Depositing rime fog",
    51 := "Light drizzle",
    53 := "Moderate drizzle",
    55 := "Dense drizzle",
    56 := "Light freezing drizzle",
    57 := "Dense freezing drizzle",
    61 := "Slight rain",
    63 := "Moderate rain",
    65 := "Heavy rain",
    66 := "Light freezing rain",
    67 := "Heavy freezing rain",
    71 := "Slight snow fall",
    73 := "Moderate snow fall",
    75 := "Heavy snow fall",
    77 := "Snow grains",
    80 := "Slight rain showers",
    81 := "Moderate rain showers",
    82 := "Violent rain showers",
    85 := "Slight snow showers",
    86 := "Heavy snow showers",
    95 := "Thunderstorm",
    96 := "Thunderstorm with slight hail",
    99 := "Thunderstorm with heavy hail"
  ]

  /** `WEATHER_DESCRIPTIONS.get(code, default)`. */
  function Lookup(code: int, default: string): (d: string)
    ensures code in WeatherDescriptions ==> d == WeatherDescriptions[code]
    ensures code !in WeatherDescriptions ==> d == default
  {
    if code in WeatherDescriptions then WeatherDescriptions[code] else default
  }

  /** The 28 members, in declaration order. */
  const AllWeatherCodes: seq<WeatherCode> := [
    ClearSky, MainlyClear, PartlyCloudy, Overcast, Fog, DepositingRimeFog,
    LightDrizzle, ModerateDrizzle, DenseDrizzle, LightFreezingDrizzle, DenseFreezingDrizzle,
    SlightRain, ModerateRain, HeavyRain, LightFreezingRain, HeavyFreezingRain,
    SlightSnow, ModerateSnow, HeavySnow, SnowGrains,
    SlightRainShowers, ModerateRainShowers, ViolentRainShowers,
    SlightSnowShowers, HeavySnowShowers,
    Thunderstorm, ThunderstormSlightHail, ThunderstormHeavyHail]

  /** The values of the members. */
  const WeatherCodeValues: set<int> := {0, 1, 2, 3, 45, 48, 51, 53, 55, 56, 57, 61, 63, 65, 66, 67, 71, 73, 75, 77, 80, 81, 82, 85, 86, 95, 96, 99}

  /** `WeatherCode(code)`: the member with this value, None where Python raises ValueError. */
  function FromValue(code: int): (r: Option<WeatherCode>)
    ensures r.Some? ==> r.value.Value() == code
    ensures r.Some? <==> code in WeatherCodeValues
  {
    if code == 0 then Some(ClearSky)
    else if code == 1 then Some(MainlyClear)
    else if code == 2 then Some(PartlyCloudy)
    else if code == 3 then Some(Overcast)
    else if code == 45 then Some(Fog)
    else if code == 48 then Some(DepositingRimeFog)
    else if code == 51 then Some(LightDrizzle)
    else if code == 53 then Some(ModerateDrizzle)
    else if code == 55 then Some(DenseDrizzle)
    else if code == 56 then Some(LightFreezingDrizzle)
    else if code == 57 then Some(DenseFreezingDrizzle)
    else if code == 61 then Some(SlightRain)
    else if code == 63 then Some(ModerateRain)
    else if code == 65 then Some(HeavyRain)
    else if code == 66 then Some(LightFreezingRain)
    else if code == 67 then Some(HeavyFreezingRain)
    else if code == 71 then Some(SlightSnow)
    else if code == 73 then Some(ModerateSnow)
    else if code == 75 then Some(HeavySnow)
    else if code == 77 then Some(SnowGrains)
    else if code == 80 then Some(SlightRainShowers)
    else if code == 81 then Some(ModerateRainShowers)
    else if code == 82 then Some(ViolentRainShowers)
    else if code == 85 then Some(SlightSnowShowers)
    else if code == 86 then Some(HeavySnowShowers)
    else if code == 95 then Some(Thunderstorm)
    else if code == 96 then Some(ThunderstormSlightHail)
    else if code == 99 then Some(ThunderstormHeavyHail)
    else None
  }

  /** The codes the table has entries for. */
  lemma DescriptionKeys()
    ensures WeatherDescriptions.Keys == WeatherCodeValues
  {
  }

  /** Every member has a table entry, and no entry reads "Unknown" or "Cloudy". */
  lemma MemberHasDescription(w: WeatherCode)
    ensures w.Value() in WeatherDescriptions
    ensures WeatherDescriptions[w.Value()] != "Unknown" && WeatherDescriptions[w.Value()] != "Cloudy"
  {
    DescriptionKeys();
    DescriptionTexts();
  }

  /** No entry of the table reads "Unknown" or "Cloudy". */
  lemma DescriptionTexts()
    ensures forall code :: code in WeatherDescriptions ==>
              WeatherDescriptions[code] != "Unknown" && WeatherDescriptions[code] != "Cloudy"
  {
  }

  /** Every table entry belongs to a member, so the table and the enumeration agree exactly. */
  lemma EntryHasMember(code: int)
    requires code in WeatherDescriptions
    ensures FromValue(code).Some?
  {
    DescriptionKeys();
  }

  /** Members and values are in one-to-one correspondence. */
  lemma {:induction false} FromValueInverts(w: WeatherCode)
    ensures FromValue(w.Value()) == Some(w)
  {
  }

  /** The 28 members, listed in increasing order of value, so with distinct values. */
  lemma WeatherCodeCount()
    ensures |AllWeatherCodes| == 28
    ensures forall i :: 0 <= i < |AllWeatherCodes| - 1 ==> AllWeatherCodes[i].Value() < AllWeatherCodes[i + 1].Value()
  {
  }

  /** Every member is listed. */
  lemma WeatherCodeListed(w: WeatherCode)
    ensures w in AllWeatherCodes
  {
    match w
    case ClearSky => assert AllWeatherCodes[0] == w;
    case MainlyClear => assert AllWeatherCodes[1] == w;
    case PartlyCloudy => assert AllWeatherCodes[2] == w;
    case Overcast => assert AllWeatherCodes[3] == w;
    case Fog => assert AllWeatherCodes[4] == w;
    case DepositingRimeFog => assert AllWeatherCodes[5] == w;
    case LightDrizzle => assert AllWeatherCodes[6] == w;
    case ModerateDrizzle => assert AllWeatherCodes[7] == w;
    case DenseDrizzle => assert AllWeatherCodes[8] == w;
    case LightFreezingDrizzle => assert AllWeatherCodes[9] == w;
    case DenseFreezingDrizzle => assert AllWeatherCodes[10] == w;
    case SlightRain => assert AllWeatherCodes[11] == w;
    case ModerateRain => assert AllWeatherCodes[12] == w;
    case HeavyRain => assert AllWeatherCodes[13] == w;
    case LightFreezingRain => assert AllWeatherCodes[14] == w;
    case HeavyFreezingRain => assert AllWeatherCodes[15] == w;
    case SlightSnow => assert AllWeatherCodes[16] == w;
    case ModerateSnow => assert AllWeatherCodes[17] == w;
    case HeavySnow => assert AllWeatherCodes[18] == w;
    case SnowGrains => assert AllWeatherCodes[19] == w;
    case SlightRainShowers => assert AllWeatherCodes[20] == w;
    case ModerateRainShowers => assert AllWeatherCodes[21] == w;
    case ViolentRainShowers => assert AllWeatherCodes[22] == w;
    case SlightSnowShowers => assert AllWeatherCodes[23] == w;
    case HeavySnowShowers => assert AllWeatherCodes[24] == w;
    case Thunderstorm => assert AllWeatherCodes[25] == w;
    case ThunderstormSlightHail => assert AllWeatherCodes[26] == w;
    case ThunderstormHeavyHail => assert AllWeatherCodes[27] == w;
  }
}
