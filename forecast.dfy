/** The forecast used as history when no past observations are available:
    the 3-hourly forecast list is grouped by calendar day, and for each of the
    first five days one entry is kept, the noon entry if there is one. */
module Forecast {
  import opened Base
  import opened HistoryView

  /** One 3-hourly forecast item: `dt_txt` ("YYYY-MM-DD HH:MM:SS"),
      `main.temp`, `main.humidity`, `main.pressure`, `wind.speed` and the
      `description` and `icon` of `weather[0]`. */
  datatype ForecastItem = ForecastItem(
    dtTxt: string,
    temp: real,
    humidity: real,
    pressure: real,
    wind: real,
    description: string,
    icon: string)

  /** `dtTxt.split(' ')[0]`: the text before the first space, or all of it
      when there is no space. */
  function DayKey(dtTxt: string): (key: string)
    ensures StartsWith(dtTxt, key)
    ensures ' ' !in key
    ensures key == dtTxt || dtTxt[|key|] == ' '
  {
    if dtTxt == [] || dtTxt[0] == ' ' then []
    else [dtTxt[0]] + DayKey(dtTxt[1..])
  }

  function Last<T>(s: seq<T>): T
    requires s != []
  {
    s[|s| - 1]
  }

  function Init<T>(s: seq<T>): seq<T>
    requires s != []
  {
    s[..|s| - 1]
  }

  /** The day keys of the items, each once, in the order they first occur:
      the order in which `Object.keys` lists the keys of `dailyData`. */
  function Days(items: seq<ForecastItem>): seq<string>
  {
    if items == [] then []
    else
      var earlier := Days(Init(items));
      var key := DayKey(Last(items).dtTxt);
      if key in earlier then earlier else earlier + [key]
  }

  /** The items whose day key is `day`, in input order: `dailyData[day]`. */
  function ItemsOn(items: seq<ForecastItem>, day: string): seq<ForecastItem>
  {
    if items == [] then []
    else ItemsOn(Init(items), day) + (if DayKey(Last(items).dtTxt) == day then [Last(items)] else [])
  }

  /** Each day is listed once, and exactly the days some item falls on are
      listed. */
  lemma {:induction false} DaysDistinctAndComplete(items: seq<ForecastItem>)
    ensures forall i, j :: 0 <= i < j < |Days(items)| ==> Days(items)[i] != Days(items)[j]
    ensures forall d :: d in Days(items) <==> exists k :: 0 <= k < |items| && DayKey(items[k].dtTxt) == d
  {
    if items != [] {
      DaysDistinctAndComplete(Init(items));
      forall d | d in Days(items)
        ensures exists k :: 0 <= k < |items| && DayKey(items[k].dtTxt) == d
      {
        if d in Days(Init(items)) {
          var k :| 0 <= k < |Init(items)| && DayKey(Init(items)[k].dtTxt) == d;
          assert items[k] == Init(items)[k];
        } else {
          assert DayKey(items[|items| - 1].dtTxt) == d;
        }
      }
      forall d | exists k :: 0 <= k < |items| && DayKey(items[k].dtTxt) == d
        ensures d in Days(items)
      {
        var k :| 0 <= k < |items| && DayKey(items[k].dtTxt) == d;
        if k < |items| - 1 {
          assert Init(items)[k] == items[k];
        }
      }
    }
  }

  /** A day's group holds only items of that day, taken from the input, and
      never more items than the input has. */
  lemma {:induction false} ItemsOnSound(items: seq<ForecastItem>, day: string)
    ensures |ItemsOn(items, day)| <= |items|
    ensures forall x :: x in ItemsOn(items, day) ==> x in items && DayKey(x.dtTxt) == day
  {
    if items != [] {
      ItemsOnSound(Init(items), day);
    }
  }

  /** Every item lands in the group of its own day. */
  lemma {:induction false} ItemsOnComplete(items: seq<ForecastItem>, k: nat)
    requires k < |items|
    ensures items[k] in ItemsOn(items, DayKey(items[k].dtTxt))
  {
    if k < |items| - 1 {
      assert Init(items)[k] == items[k];
      ItemsOnComplete(Init(items), k);
    }
  }

  /** Days are listed in first-seen order: when day i is listed before day
      j, some item of day i comes before every item of day j. */
  lemma {:induction false} DaysFirstSeenOrder(items: seq<ForecastItem>, i: nat, j: nat, q: nat)
    requires i < j < |Days(items)| && q < |items|
    requires DayKey(items[q].dtTxt) == Days(items)[j]
    ensures exists p :: 0 <= p < q && DayKey(items[p].dtTxt) == Days(items)[i]
  {
    var earlier := Days(Init(items));
    DaysDistinctAndComplete(Init(items));
    DaysDistinctAndComplete(items);
    if q < |items| - 1 {
      assert Init(items)[q] == items[q];
      assert Days(items)[j] in earlier;
      assert j < |earlier|;
      DaysFirstSeenOrder(Init(items), i, j, q);
      var p :| 0 <= p < q && DayKey(Init(items)[p].dtTxt) == earlier[i];
      assert items[p] == Init(items)[p];
    } else {
      assert i < |earlier|;
      assert earlier[i] in earlier;
      var p :| 0 <= p < |Init(items)| && DayKey(Init(items)[p].dtTxt) == earlier[i];
      assert items[p] == Init(items)[p];
    }
  }

  /** Grouping keeps input order: the group of a day for a concatenation is
      the group in the first part followed by the group in the second. */
  lemma {:induction false} ItemsOnAppend(a: seq<ForecastItem>, b: seq<ForecastItem>, day: string)
    ensures ItemsOn(a + b, day) == ItemsOn(a, day) + ItemsOn(b, day)
    decreases |b|
  {
    if b == [] {
      assert a + b == a;
    } else {
      assert Init(a + b) == a + Init(b);
      assert Last(a + b) == Last(b);
      ItemsOnAppend(a, Init(b), day);
    }
  }

  /** Every day listed has a non-empty group, and every day with a non-empty
      group is listed. */
  lemma {:induction false} GroupsNonEmpty(items: seq<ForecastItem>, day: string)
    ensures day in Days(items) <==> ItemsOn(items, day) != []
  {
    if items != [] {
      GroupsNonEmpty(Init(items), day);
    }
  }

  /** The entry of a day that stands for noon (`includes('12:00:00')`). */
  predicate IsNoon(x: ForecastItem)
  {
    Contains(x.dtTxt, "12:00:00")
  }

  /** `dayData.find(item => item.dtTxt.includes('12:00:00'))`: the first noon
      entry of the group, if any. */
  function FindNoon(group: seq<ForecastItem>): Option<ForecastItem>
  {
    if group == [] then None
    else if IsNoon(group[0]) then Some(group[0])
    else
      FindNoon(group[1..])
  }

  /** `find` gives nothing exactly when no entry is a noon entry, and
      otherwise the first noon entry. */
  lemma {:induction false} FindNoonFirst(group: seq<ForecastItem>)
    ensures FindNoon(group).None? <==> forall i :: 0 <= i < |group| ==> !IsNoon(group[i])
    ensures FindNoon(group).Some? ==>
      exists i :: 0 <= i < |group| && group[i] == FindNoon(group).value && IsNoon(group[i])
                  && forall j :: 0 <= j < i ==> !IsNoon(group[j])
  {
    if group != [] && !IsNoon(group[0]) {
      FindNoonFirst(group[1..]);
      if FindNoon(group).Some? {
        var i :| 0 <= i < |group[1..]| && group[1..][i] == FindNoon(group).value && IsNoon(group[1..][i])
                 && forall j :: 0 <= j < i ==> !IsNoon(group[1..][j]);
        assert group[i + 1] == group[1..][i];
      }
    }
  }

  /** `find(...) || dayData[Math.floor(dayData.length / 2)]`: the first noon
      entry, else the middle entry (the later of the two middles for an even
      length); nothing only for an empty group. */
  function NoonEntry(group: seq<ForecastItem>): Option<ForecastItem>
  {
    match FindNoon(group)
    case Some(x) => Some(x)
    case None => if group == [] then None else Some(group[|group| / 2])
  }

  /** The chosen entry is the first noon entry when the day has one, and the
      middle entry otherwise. */
  lemma NoonEntryChoice(group: seq<ForecastItem>)
    ensures NoonEntry(group).Some? <==> group != []
    ensures NoonEntry(group).Some? ==> NoonEntry(group).value in group
    ensures (exists i :: 0 <= i < |group| && IsNoon(group[i])) ==>
      exists i :: 0 <= i < |group| && NoonEntry(group) == Some(group[i]) && IsNoon(group[i])
                  && forall j :: 0 <= j < i ==> !IsNoon(group[j])
    ensures group != [] && (forall i :: 0 <= i < |group| ==> !IsNoon(group[i])) ==>
      NoonEntry(group) == Some(group[|group| / 2])
  {
    FindNoonFirst(group);
  }

  /** The history entry built from the entry chosen for a day. */
  function DayEntry(date: string, x: ForecastItem): (d: WeatherDay)
    ensures d.date == date && d.temp == x.temp && d.wind == x.wind && d.humidity == x.humidity
    ensures d.description == x.description && d.icon == x.icon && d.pressure == Some(x.pressure)
  {
    WeatherDay(date, x.temp, x.description, x.icon, x.humidity, x.wind, Some(x.pressure))
  }

  /** The grouping loop: `dailyData[date]` collects the items of each day in
      input order, and `days` records the keys of `dailyData` in the order
      they were added. */
  method GroupByDay(items: seq<ForecastItem>) returns (days: seq<string>, daily: map<string, seq<ForecastItem>>)
    ensures days == Days(items)
    ensures forall d :: d in daily <==> d in days
    ensures forall d :: d in daily ==> daily[d] == ItemsOn(items, d)
  {
    days := [];
    daily := map[];
    var i := 0;
    while i < |items|
      invariant 0 <= i <= |items|
      invariant days == Days(items[..i])
      invariant forall d :: d in daily <==> d in days
      invariant forall d :: d in daily ==> daily[d] == ItemsOn(items[..i], d)
    {
      var item := items[i];
      var date := DayKey(item.dtTxt);
      assert Init(items[..i + 1]) == items[..i] && Last(items[..i + 1]) == item;
      if date !in daily {
        GroupsNonEmpty(items[..i], date);
        days := days + [date];
        daily := daily[date := []];
      }
      daily := daily[date := daily[date] + [item]];
      i := i + 1;
    }
    assert items[..i] == items;
  }

  /** What one day contributes: its entry when an item was chosen for it. */
  function DaySummary(date: string, noon: Option<ForecastItem>): seq<WeatherDay>
  {
    match noon
    case Some(x) => [DayEntry(date, x)]
    case None => []
  }

  /** The entries `loadForecastAsHistory` pushes for the listed days, in
      order: for each day, the entry built from its noon entry, when the day
      has one (`if (noonData)`). */
  function Summaries(items: seq<ForecastItem>, days: seq<string>): seq<WeatherDay>
  {
    if days == [] then []
    else
      Summaries(items, Init(days)) + DaySummary(Last(days), NoonEntry(ItemsOn(items, Last(days))))
  }

  /** For days that occur in the forecast the guard `if (noonData)` always
      holds, so there is exactly one entry per day, carrying that day's date
      and built from an entry of that day's group. */
  lemma {:induction false} SummariesOfListedDays(items: seq<ForecastItem>, days: seq<string>)
    requires forall d :: d in days ==> d in Days(items)
    ensures |Summaries(items, days)| == |days|
    ensures forall k :: 0 <= k < |days| ==>
      && NoonEntry(ItemsOn(items, days[k])).Some?
      && NoonEntry(ItemsOn(items, days[k])).value in ItemsOn(items, days[k])
      && Summaries(items, days)[k] == DayEntry(days[k], NoonEntry(ItemsOn(items, days[k])).value)
  {
    if days != [] {
      var earlier := Init(days);
      var day := Last(days);
      assert days == earlier + [day];
      assert forall d :: d in earlier ==> d in days;
      SummariesOfListedDays(items, earlier);
      assert day in days;
      GroupsNonEmpty(items, day);
      NoonEntryChoice(ItemsOn(items, day));
      var x := NoonEntry(ItemsOn(items, day)).value;
      var s := Summaries(items, days);
      assert s == Summaries(items, earlier) + [DayEntry(day, x)];
      forall k | 0 <= k < |days|
        ensures NoonEntry(ItemsOn(items, days[k])).Some?
        ensures NoonEntry(ItemsOn(items, days[k])).value in ItemsOn(items, days[k])
        ensures s[k] == DayEntry(days[k], NoonEntry(ItemsOn(items, days[k])).value)
      {
        if k < |earlier| {
          assert days[k] == earlier[k];
        } else {
          assert days[k] == day;
        }
      }
    }
  }

  /** `Object.keys(dailyData).slice(0, 5)`: the first five days, in
      first-seen order. */
  function FirstDays(items: seq<ForecastItem>): (days: seq<string>)
    ensures |days| == if |Days(items)| < 5 then |Days(items)| else 5
    ensures forall k :: 0 <= k < |days| ==> days[k] == Days(items)[k]
  {
    var all := Days(items);
    if |all| < 5 then all else all[..5]
  }

  /** The history built from the forecast has one entry for each of the first
      five days, in order; entry k carries the date of day k and is built from
      the noon entry of that day, or from its middle entry when it has none. */
  lemma ForecastHistoryEntries(items: seq<ForecastItem>)
    ensures |Summaries(items, FirstDays(items))| == |FirstDays(items)|
    ensures forall k :: 0 <= k < |FirstDays(items)| ==>
      var group := ItemsOn(items, Days(items)[k]);
      && NoonEntry(group).Some?
      && NoonEntry(group).value in group
      && Summaries(items, FirstDays(items))[k] == DayEntry(Days(items)[k], NoonEntry(group).value)
  {
    var days := FirstDays(items);
    forall d | d in days
      ensures d in Days(items)
    {
      var k :| 0 <= k < |days| && days[k] == d;
      assert Days(items)[k] == d;
    }
    SummariesOfListedDays(items, days);
  }

  /** `loadForecastAsHistory` after the fetch: the items are grouped by day
      and, for each of the first five days, the entry built from its chosen
      item is pushed. */
  method ForecastAsHistory(items: seq<ForecastItem>) returns (history: seq<WeatherDay>)
    ensures history == Summaries(items, FirstDays(items))
  {
    var days, daily := GroupByDay(items);
    var firstDays := if |days| < 5 then days else days[..5];
    assert firstDays == FirstDays(items);
    history := SummarizeDays(firstDays, daily);
    GroupSummariesAgree(items, daily, firstDays);
  }

  /** The entries pushed for the listed days when each day's group is looked
      up in the map built by the grouping loop. */
  function GroupSummaries(daily: map<string, seq<ForecastItem>>, days: seq<string>): seq<WeatherDay>
    requires forall d :: d in days ==> d in daily
  {
    if days == [] then []
    else GroupSummaries(daily, Init(days)) + DaySummary(Last(days), NoonEntry(daily[Last(days)]))
  }

  /** Looking the groups up in a map that holds exactly the day groups gives
      the same entries as grouping the items directly. */
  lemma {:induction false} GroupSummariesAgree(items: seq<ForecastItem>, daily: map<string, seq<ForecastItem>>, days: seq<string>)
    requires forall d :: d in days ==> d in daily && daily[d] == ItemsOn(items, d)
    ensures GroupSummaries(daily, days) == Summaries(items, days)
  {
    if days != [] {
      assert Last(days) in days;
      GroupSummariesAgree(items, daily, Init(days));
    }
  }

  /** The second loop of `loadForecastAsHistory`: for each listed day, in
      order, the entry built from the item chosen from `dailyData[date]`,
      when one is chosen. */
  method SummarizeDays(days: seq<string>, daily: map<string, seq<ForecastItem>>) returns (history: seq<WeatherDay>)
    requires forall d :: d in days ==> d in daily
    ensures history == GroupSummaries(daily, days)
  {
    history := [];
    var k := 0;
    while k < |days|
      invariant 0 <= k <= |days|
      invariant history == GroupSummaries(daily, days[..k])
    {
      var date := days[k];
      var noonData := NoonEntry(daily[date]);
      ghost var before := history;
      if noonData.Some? {
        history := history + [DayEntry(date, noonData.value)];
      }
      assert history == before + DaySummary(date, noonData);
      assert history == GroupSummaries(daily, days[..k + 1]) by {
        assert Init(days[..k + 1]) == days[..k] && Last(days[..k + 1]) == date;
      }
      k := k + 1;
    }
    assert days[..k] == days;
  }
}
