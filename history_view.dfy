/** The pure display rules of the weather history page: the colour band of a
    temperature, the strength band of a wind speed, the clamps on the chart
    bar and the humidity bar, the weather-condition counts of the statistics
    panel, and the consecutive pairs of the temperature-trend card. */
module HistoryView {
  import opened Base

  /** One day of weather history, as the page displays it. Local-history
      entries may lack a pressure (the page then shows 1013); entries built
      from the forecast carry one. */
  datatype WeatherDay = WeatherDay(
    date: string,
    temp: real,
    description: string,
    icon: string,
    humidity: real,
    wind: real,
    pressure: Option<real>)

  // ---------------------------------------------------------------------
  // Bands: a value is placed by how many ascending cut points it reaches.

  predicate Ascending(cuts: seq<real>)
  {
    forall i, j :: 0 <= i < j < |cuts| ==> cuts[i] < cuts[j]
  }

  /** The number of cut points at or below `x`. */
  function Reached(cuts: seq<real>, x: real): (n: nat)
    ensures n <= |cuts|
  {
    if cuts == [] then 0 else (if cuts[0] <= x then 1 else 0) + Reached(cuts[1..], x)
  }

  /** With ascending cut points, `x` reaches exactly the first n of them:
      the n-th cut point is at or below `x` and the next one is above it. */
  lemma {:induction false} ReachedBand(cuts: seq<real>, x: real)
    requires Ascending(cuts)
    ensures var n := Reached(cuts, x);
            (n == 0 || cuts[n - 1] <= x) && (n == |cuts| || x < cuts[n])
  {
    if cuts != [] {
      ReachedBand(cuts[1..], x);
    }
  }

  /** A larger value never falls in a lower band. */
  lemma {:induction false} ReachedMonotone(cuts: seq<real>, x: real, y: real)
    requires x <= y
    ensures Reached(cuts, x) <= Reached(cuts, y)
  {
    if cuts != [] {
      ReachedMonotone(cuts[1..], x, y);
    }
  }

  // ---------------------------------------------------------------------
  // Temperature colours (getTempColor).

  /** The cut points of the temperature colours, in degrees Celsius. */
  const TempCuts: seq<real> := [0.0, 5.0, 10.0, 15.0, 20.0, 25.0, 30.0]

  /** The eight colours, from frost to very hot. */
  const TempColors: seq<string> :=
    ["#01579b", "#0288d1", "#29b6f6", "#4fc3f7", "#ffee58", "#ffa726", "#ff6b6b", "#ff4444"]

  /** `getTempColor`: the colour of the band the temperature falls in, the
      band being the number of cut points the temperature reaches. */
  function GetTempColor(temp: real): (color: string)
    ensures color == TempColors[Reached(TempCuts, temp)]
    ensures temp >= 30.0 ==> color == "#ff4444"
    ensures temp < 0.0 ==> color == "#01579b"
  {
    ReachedBand(TempCuts, temp);
    if temp >= 30.0 then "#ff4444"
    else if temp >= 25.0 then "#ff6b6b"
    else if temp >= 20.0 then "#ffa726"
    else if temp >= 15.0 then "#ffee58"
    else if temp >= 10.0 then "#4fc3f7"
    else if temp >= 5.0 then "#29b6f6"
    else if temp >= 0.0 then "#0288d1"
    else "#01579b"
  }

  // ---------------------------------------------------------------------
  // Wind strength (getWindDirection).

  /** The arrow icon and the label shown for a wind speed. */
  datatype WindInfo = WindInfo(icon: string, text: string)

  /** The cut points of the wind bands, in metres per second. */
  const WindCuts: seq<real> := [1.0, 5.0, 10.0, 15.0]

  const WindBands: seq<WindInfo> := [
    WindInfo("↻", "Спокій"),
    WindInfo("→", "Слабкий"),
    WindInfo("↗", "Помірний"),
    WindInfo("↑", "Сильний"),
    WindInfo("⇈", "Шторм")]

  /** `getWindDirection`: the band of the wind speed, the band being the
      number of cut points the speed reaches. */
  function GetWindDirection(windSpeed: real): (info: WindInfo)
    ensures info == WindBands[Reached(WindCuts, windSpeed)]
    ensures windSpeed >= 15.0 ==> info.text == "Шторм"
    ensures windSpeed < 1.0 ==> info.text == "Спокій"
  {
    ReachedBand(WindCuts, windSpeed);
    if windSpeed < 1.0 then WindInfo("↻", "Спокій")
    else if windSpeed < 5.0 then WindInfo("→", "Слабкий")
    else if windSpeed < 10.0 then WindInfo("↗", "Помірний")
    else if windSpeed < 15.0 then WindInfo("↑", "Сильний")
    else WindInfo("⇈", "Шторм")
  }

  // ---------------------------------------------------------------------
  // Chart clamps.

  function Abs(x: real): real
  {
    if x < 0.0 then -x else x
  }

  /** The height in pixels of a temperature-chart bar:
      `Math.min(Math.max(Math.abs(temp) * 4, 40), 160)`. */
  function BarHeight(temp: real): (h: real)
    ensures 40.0 <= h <= 160.0
    ensures 40.0 <= 4.0 * Abs(temp) <= 160.0 ==> h == 4.0 * Abs(temp)
    ensures 4.0 * Abs(temp) < 40.0 ==> h == 40.0
    ensures 4.0 * Abs(temp) > 160.0 ==> h == 160.0
  {
    var scaled := Abs(temp) * 4.0;
    var atLeast := if scaled > 40.0 then scaled else 40.0;
    if atLeast < 160.0 then atLeast else 160.0
  }

  /** A temperature further from zero never gets a shorter bar. */
  lemma BarHeightMonotone(t1: real, t2: real)
    requires Abs(t1) <= Abs(t2)
    ensures BarHeight(t1) <= BarHeight(t2)
  {
  }

  /** The width in percent of the humidity bar: `Math.min(humidity, 100)`. */
  function HumidityWidth(humidity: real): (w: real)
    ensures w <= 100.0 && w <= humidity
    ensures w == humidity || w == 100.0
  {
    if humidity < 100.0 then humidity else 100.0
  }

  // ---------------------------------------------------------------------
  // Condition counts (calculateStatistics).

  /** `data.filter(p).length`. */
  function CountWhere(data: seq<WeatherDay>, p: WeatherDay -> bool): (n: nat)
    ensures n <= |data|
    ensures n == 0 <==> forall i :: 0 <= i < |data| ==> !p(data[i])
    ensures n == |data| <==> forall i :: 0 <= i < |data| ==> p(data[i])
  {
    if data == [] then 0 else (if p(data[0]) then 1 else 0) + CountWhere(data[1..], p)
  }

  /** Counting distributes over concatenation, so a count is the sum of one
      for each matching day. */
  lemma {:induction false} CountWhereAppend(a: seq<WeatherDay>, b: seq<WeatherDay>, p: WeatherDay -> bool)
    ensures CountWhere(a + b, p) == CountWhere(a, p) + CountWhere(b, p)
  {
    if a != [] {
      assert (a + b)[0] == a[0] && (a + b)[1..] == a[1..] + b;
      CountWhereAppend(a[1..], b, p);
    } else {
      assert a + b == b;
    }
  }

  predicate IsSunny(d: WeatherDay)
  {
    var desc := Lower(d.description);
    Contains(desc, "сонце") || Contains(desc, "ясно") || Contains(desc, "clear")
    || Contains(d.icon, "01") || Contains(d.icon, "02")
  }

  predicate IsCloudy(d: WeatherDay)
  {
    var desc := Lower(d.description);
    Contains(desc, "хма") || Contains(desc, "cloud") || Contains(d.icon, "03") || Contains(d.icon, "04")
  }

  predicate IsRainy(d: WeatherDay)
  {
    var desc := Lower(d.description);
    Contains(desc, "дощ") || Contains(desc, "rain") || Contains(d.icon, "09") || Contains(d.icon, "10")
  }

  predicate IsWindy(d: WeatherDay)
  {
    d.wind > 5.0
  }

  predicate IsSnowy(d: WeatherDay)
  {
    var desc := Lower(d.description);
    Contains(desc, "сніг") || Contains(desc, "snow") || Contains(d.icon, "13")
  }

  /** The number of days of each kind of weather. One day can count in
      several kinds. */
  datatype Conditions = Conditions(sunny: nat, cloudy: nat, rainy: nat, windy: nat, snowy: nat)

  /** The counting part of the statistics (the averages are left out). */
  datatype Statistics = Statistics(conditions: Conditions, totalDays: nat)

  /** `calculateStatistics`: nothing for an empty list; otherwise the number
      of days and, for each kind of weather, how many days show it. */
  function CalculateStatistics(data: seq<WeatherDay>): (s: Option<Statistics>)
    ensures s.None? <==> data == []
    ensures s.Some? ==> s.value.totalDays == |data|
    ensures s.Some? ==>
      var c := s.value.conditions;
      c.sunny <= |data| && c.cloudy <= |data| && c.rainy <= |data| && c.windy <= |data| && c.snowy <= |data|
    ensures s.Some? ==>
      var c := s.value.conditions;
      && c.sunny == CountWhere(data, IsSunny) && c.cloudy == CountWhere(data, IsCloudy)
      && c.rainy == CountWhere(data, IsRainy) && c.windy == CountWhere(data, IsWindy)
      && c.snowy == CountWhere(data, IsSnowy)
    ensures s.Some? ==> (s.value.conditions.windy == |data| <==> forall i :: 0 <= i < |data| ==> data[i].wind > 5.0)
    ensures s.Some? ==> (s.value.conditions.windy == 0 <==> forall i :: 0 <= i < |data| ==> data[i].wind <= 5.0)
  {
    if |data| == 0 then None
    else
      Some(Statistics(
        Conditions(
          CountWhere(data, IsSunny),
          CountWhere(data, IsCloudy),
          CountWhere(data, IsRainy),
          CountWhere(data, IsWindy),
          CountWhere(data, IsSnowy)),
        |data|))
  }

  // ---------------------------------------------------------------------
  // Temperature trend.

  /** Every consecutive pair of a list, in order. */
  function Pairs<T>(s: seq<T>): (r: seq<(T, T)>)
    ensures |r| == if s == [] then 0 else |s| - 1
    ensures forall i :: 0 <= i < |r| ==> r[i] == (s[i], s[i + 1])
  {
    if |s| < 2 then [] else [(s[0], s[1])] + Pairs(s[1..])
  }

  /** The trend card: `slice(0, 7)`, one entry per item that has a successor
      inside the slice, so one per consecutive pair among the first seven
      days and never more than six. */
  function TrendPairs(data: seq<WeatherDay>): (r: seq<(WeatherDay, WeatherDay)>)
    ensures |r| <= 6
    ensures |r| == if data == [] then 0 else (if |data| < 7 then |data| else 7) - 1
    ensures forall i :: 0 <= i < |r| ==> r[i] == (data[i], data[i + 1])
  {
    var first := if |data| < 7 then data else data[..7];
    Pairs(first)
  }
}
