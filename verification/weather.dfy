/** The weather card: the icon chosen from a description, and the forecast
    strip of at most three days. */
module WeatherCard {
  import opened Text

  datatype WeatherIcon = RainIcon | CloudIcon | SunIcon

  /** One forecast day; temperatures are whole degrees Celsius. */
  datatype ForecastDay = ForecastDay(date: string, minTemp: int, maxTemp: int, description: string)

  datatype Weather = Weather(location: string, temperature: int, humidity: int,
                             description: string, forecast: seq<ForecastDay>)

  /** The icon for a description: rain is checked before cloud, and anything
      else is sunny. The comparison is case-sensitive. */
  function IconFor(description: string): (r: WeatherIcon)
    ensures r == RainIcon <==> exists i :: OccursAt(description, "rain", i)
    ensures r == CloudIcon <==> (forall i :: !OccursAt(description, "rain", i))
                                && exists i :: OccursAt(description, "cloud", i)
  {
    IncludesIff(description, "rain");
    IncludesIff(description, "cloud");
    if Includes(description, "rain") then RainIcon
    else if Includes(description, "cloud") then CloudIcon
    else SunIcon
  }

  /** A description mentioning both rain and cloud gets the rain icon. */
  lemma RainBeforeCloud(description: string, i: int, j: int)
    requires OccursAt(description, "rain", i) && OccursAt(description, "cloud", j)
    ensures IconFor(description) == RainIcon
  {
  }

  /** The sun is the icon of every description naming neither, the empty
      one included; capitalised words do not count. */
  lemma SunExamples()
    ensures IconFor("") == SunIcon
    ensures IconFor("Rain") == SunIcon
    ensures IconFor("Cloudy") == SunIcon
    ensures IconFor("sunny") == SunIcon
  {
    MissingFirstChar("Rain", "rain");
    MissingFirstChar("Rain", "cloud");
    assert !Includes("Cloudy", "rain") by { assert "Cloudy"[..4] != "rain"; assert "loudy"[..4] != "rain"; }
    MissingFirstChar("Cloudy", "cloud");
    MissingFirstChar("sunny", "rain");
    MissingFirstChar("sunny", "cloud");
  }

  /** The header label of a forecast tile. */
  datatype DayLabel = Today | Tomorrow | Weekday(date: string)

  function LabelFor(index: nat, date: string): DayLabel
  {
    if index == 0 then Today else if index == 1 then Tomorrow else Weekday(date)
  }

  datatype Tile = Tile(caption: DayLabel, icon: WeatherIcon, maxTemp: int, minTemp: int)

  /** The forecast strip: the first three days at most, in order, each with
      its label, its icon from the same classifier as the current weather,
      and its high / low. */
  function ForecastTiles(forecast: seq<ForecastDay>): (r: seq<Tile>)
    ensures |r| == if |forecast| < 3 then |forecast| else 3
    ensures forall i :: 0 <= i < |r| ==>
              r[i].icon == IconFor(forecast[i].description)
              && r[i].maxTemp == forecast[i].maxTemp && r[i].minTemp == forecast[i].minTemp
    ensures |r| > 0 ==> r[0].caption == Today
    ensures |r| > 1 ==> r[1].caption == Tomorrow
    ensures |r| > 2 ==> r[2].caption == Weekday(forecast[2].date)
  {
    var shown := if |forecast| < 3 then forecast else forecast[..3];
    seq(|shown|, i requires 0 <= i < |shown| =>
      Tile(LabelFor(i, shown[i].date), IconFor(shown[i].description), shown[i].maxTemp, shown[i].minTemp))
  }

  /** A day carrying the current description is drawn with the header's
      icon: both go through the same classifier. */
  lemma SameClassifier(w: Weather, i: int)
    requires 0 <= i < |ForecastTiles(w.forecast)|
    requires w.forecast[i].description == w.description
    ensures ForecastTiles(w.forecast)[i].icon == IconFor(w.description)
  {
  }
}
