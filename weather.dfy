/** The OpenWeather client (weather_api.py, class WeatherAPI): the
    precipitation classifier, the eight-point wind-direction classifier and
    the way get_data_weather checks a reply and fills in defaults. The HTTP
    request, the clock and the pressure conversion are parameters. */
module Weather {
  import opened Common

  // ---------------------------------------------------------------------
  // get_precipitation_type
  // ---------------------------------------------------------------------

  const Thunderstorm: string := "гроза"
  const Drizzle: string := "мелкий дождь"
  const Rain: string := "дождь"
  const Snow: string := "снег"
  const Fog: string := "туман"
  const Cloudy: string := "перем облачность"

  /** The precipitation kind of an OpenWeather condition id. */
  function PrecipitationType(weatherId: int): (r: string)
    ensures r == Thunderstorm <==> 200 <= weatherId <= 232
    ensures r == Drizzle <==> 300 <= weatherId <= 321
    ensures r == Rain <==> 500 <= weatherId <= 531
    ensures r == Snow <==> 600 <= weatherId <= 622
    ensures r == Fog <==> 701 <= weatherId <= 781
    ensures r == Cloudy <==> !(200 <= weatherId <= 232 || 300 <= weatherId <= 321 || 500 <= weatherId <= 531
                               || 600 <= weatherId <= 622 || 701 <= weatherId <= 781)
  {
    if 200 <= weatherId <= 232 then Thunderstorm
    else if 300 <= weatherId <= 321 then Drizzle
    else if 500 <= weatherId <= 531 then Rain
    else if 600 <= weatherId <= 622 then Snow
    else if 701 <= weatherId <= 781 then Fog
    else Cloudy
  }

  // ---------------------------------------------------------------------
  // get_wind_direction
  // ---------------------------------------------------------------------

  const Unknown: string := "неизвестно"

  /** The eight compass names, clockwise from north. */
  const Directions: seq<string> := ["северный", "северо-восточный", "восточный", "юго-восточный",
                                    "южный", "юго-западный", "западный", "северо-западный"]

  /** Python's round(d / 45) for an integer d: the nearest integer, which
      is never a tie since 45 is odd. */
  function RoundDiv45(d: int): (r: int)
    ensures 45 * r - 22 <= d <= 45 * r + 22
  {
    (d + 22) / 45
  }

  /** The nearest integer to d / 45 is unique. */
  lemma RoundDiv45Unique(d: int, r: int)
    requires 45 * r - 22 <= d <= 45 * r + 22
    ensures RoundDiv45(d) == r
  {
  }

  /** round(degrees / 45) % 8: the position of the direction in the list. */
  function DirectionIndex(d: int): (i: nat)
    ensures i < 8
  {
    RoundDiv45(d) % 8
  }

  /** The wind direction of a reported degree, or "неизвестно" when the reply
      has none. */
  function WindDirection(degrees: Option<int>): (r: string)
    ensures degrees.None? <==> r == Unknown
    ensures degrees.Some? ==> r in Directions
  {
    match degrees
    case None => Unknown
    case Some(d) => Directions[DirectionIndex(d)]
  }

  /** The sector of the compass rose that direction k covers, for an angle
      0 <= a < 360: 45 * k degrees and 22 degrees either side, north wrapping
      round from 338 to 22. */
  predicate InSector(a: int, k: nat) {
    if k == 0 then a <= 22 || a >= 338 else 45 * k - 22 <= a <= 45 * k + 22
  }

  lemma ModShift(x: int, q: int)
    ensures (x + 8 * q) % 8 == x % 8
  {
    var m := x % 8;
    assert x + 8 * q == 8 * (x / 8 + q) + m;
  }

  lemma IndexFullTurn(d: int, q: int)
    ensures DirectionIndex(d + 360 * q) == DirectionIndex(d)
  {
    var r := RoundDiv45(d);
    RoundDiv45Unique(d + 360 * q, r + 8 * q);
    ModShift(r, q);
  }

  /** Turning by a full circle does not change the direction. */
  lemma FullTurn(d: int, q: int)
    ensures WindDirection(Some(d + 360 * q)) == WindDirection(Some(d))
  {
    IndexFullTurn(d, q);
  }

  lemma {:induction false} IndexBySector(d: int, k: nat)
    requires k < 8
    ensures DirectionIndex(d) == k <==> InSector(d % 360, k)
  {
    var a := d % 360;
    IndexFullTurn(a, d / 360);
    assert a + 360 * (d / 360) == d;
    var r := RoundDiv45(a);
    assert 0 <= r <= 8;
    assert InSector(a, r % 8);
    if InSector(a, k) {
      if k == 0 {
        if a <= 22 {
          RoundDiv45Unique(a, 0);
        } else {
          RoundDiv45Unique(a, 8);
        }
      } else {
        RoundDiv45Unique(a, k);
      }
    }
  }

  lemma DirectionsDistinct(i: nat, j: nat)
    requires i < 8 && j < 8 && Directions[i] == Directions[j]
    ensures i == j
  {
  }

  /** A degree d gets direction k exactly when d, taken modulo 360, lies in
      sector k. */
  lemma DirectionBySector(d: int, k: nat)
    requires k < 8
    ensures WindDirection(Some(d)) == Directions[k] <==> InSector(d % 360, k)
  {
    IndexBySector(d, k);
    if Directions[DirectionIndex(d)] == Directions[k] {
      DirectionsDistinct(DirectionIndex(d), k);
    }
  }

  /** The integer boundaries of the first sectors. */
  lemma SectorBoundaries()
    ensures WindDirection(Some(0)) == WindDirection(Some(22)) == "северный"
    ensures WindDirection(Some(23)) == WindDirection(Some(67)) == "северо-восточный"
    ensures WindDirection(Some(68)) == "восточный"
  {
  }

  /** The wrap back to north at the top of the circle and below zero. */
  lemma NorthWraps()
    ensures WindDirection(Some(337)) == "северо-западный"
    ensures WindDirection(Some(338)) == WindDirection(Some(359)) == "северный"
    ensures WindDirection(Some(-10)) == "северный"
  {
    assert RoundDiv45(-10) == 0;
  }

  // ---------------------------------------------------------------------
  // get_data_weather
  // ---------------------------------------------------------------------

  /** The parts of an OpenWeather JSON reply the client reads; None marks a
      key that is absent. Numbers are modelled as integers. */
  datatype MainBlock = MainBlock(temp: Option<int>, pressure: Option<int>, humidity: Option<int>)
  datatype Condition = Condition(id: Option<int>, description: Option<string>)
  datatype WindBlock = WindBlock(speed: Option<int>, deg: Option<int>)
  datatype Body = Body(main: Option<MainBlock>, weather: Option<seq<Condition>>,
                       wind: Option<WindBlock>, name: Option<string>)

  /** What the GET request gives: a network exception, or a status and a
      body that is None when it is not valid JSON. */
  datatype Reply = NetworkError | Reply(status: int, body: Option<Body>)

  datatype WeatherInfo = WeatherInfo(temperature: int, pressure: int, humidity: int,
                                     windSpeed: int, windDirection: string, description: string,
                                     precipitation: string, observationTime: int, city: string)

  /** The three blocks the client insists on. */
  predicate HasRequiredKeys(b: Body) {
    b.main.Some? && b.weather.Some? && b.wind.Some?
  }

  /** Every lookup that building the record makes without a default succeeds. */
  predicate Readable(b: Body) {
    && HasRequiredKeys(b)
    && b.main.value.temp.Some? && b.main.value.pressure.Some? && b.main.value.humidity.Some?
    && |b.weather.value| >= 1
    && b.weather.value[0].id.Some? && b.weather.value[0].description.Some?
  }

  /** get_data_weather: None without an API key, on a network error, on a
      status other than 200, on a body that is not JSON, without one of
      'main', 'weather', 'wind', and when any lookup raises; otherwise the
      record, with wind speed 0 and direction "неизвестно" by default and
      the reply's city name in place of the requested one when present. */
  function GetDataWeather(apiKey: Option<string>, reply: Reply, now: int, city: string,
                          toMmHg: int -> int): (r: Option<WeatherInfo>)
    ensures apiKey.None? || apiKey == Some([]) ==> r.None?
    ensures r.Some? <==> apiKey.Some? && apiKey.value != [] && reply.Reply? && reply.status == 200
                          && reply.body.Some? && Readable(reply.body.value)
    ensures r.Some? ==>
      var b := reply.body.value;
      && r.value.temperature == b.main.value.temp.value
      && r.value.pressure == toMmHg(b.main.value.pressure.value)
      && r.value.humidity == b.main.value.humidity.value
      && r.value.description == b.weather.value[0].description.value
      && r.value.windSpeed == (if b.wind.value.speed.Some? then b.wind.value.speed.value else 0)
      && r.value.windDirection == WindDirection(b.wind.value.deg)
      && r.value.precipitation == PrecipitationType(b.weather.value[0].id.value)
      && r.value.city == (if b.name.Some? then b.name.value else city)
      && r.value.observationTime == now
  {
    if apiKey.None? || apiKey.value == [] then None
    else match reply
      case NetworkError => None
      case Reply(status, body) =>
        if status != 200 || body.None? then None
        else
          var b := body.value;
          if !HasRequiredKeys(b) || !Readable(b) then None
          else
            var main, wind, condition := b.main.value, b.wind.value, b.weather.value[0];
            Some(WeatherInfo(
              temperature := main.temp.value,
              pressure := toMmHg(main.pressure.value),
              humidity := main.humidity.value,
              windSpeed := if wind.speed.Some? then wind.speed.value else 0,
              windDirection := WindDirection(wind.deg),
              description := condition.description.value,
              precipitation := PrecipitationType(condition.id.value),
              observationTime := now,
              city := if b.name.Some? then b.name.value else city))
  }

  /** A reply without one of the three blocks gives no record, whatever else
      it holds. */
  lemma MissingBlockGivesNone(apiKey: Option<string>, status: int, b: Body, now: int, city: string,
                              toMmHg: int -> int)
    requires !HasRequiredKeys(b)
    ensures GetDataWeather(apiKey, Reply(status, Some(b)), now, city, toMmHg).None?
  {
  }

  /** A reply that lacks only the wind speed and degree still gives a record,
      with speed 0 and direction "неизвестно". */
  lemma WindDefaults(apiKey: string, b: Body, now: int, city: string, toMmHg: int -> int)
    requires apiKey != [] && Readable(b) && b.wind.value == WindBlock(None, None)
    ensures var r := GetDataWeather(Some(apiKey), Reply(200, Some(b)), now, city, toMmHg);
      r.Some? && r.value.windSpeed == 0 && r.value.windDirection == Unknown
  {
  }
}
