/** The decision rules of the home page and of the stored-user record it keeps:
    the weather recommendations, the initial language and theme, and the
    updates of the stored user when a city or the settings are saved.

    The stored user is the object kept under the "user" key of local storage;
    it is a JSON object and may carry any fields, so it is modelled as a map
    from field names to JSON values. */
module HomePage {
  import opened Base

  // ---------------------------------------------------------------------
  // Recommendations (generateRecommendations).

  /** The weather fields the recommendations look at. */
  datatype Weather = Weather(temp: real, description: string, wind: real, humidity: real)

  /** One recommendation. The translation table has no `rec_*` keys, so each
      is shown with its built-in Ukrainian text. */
  datatype Recommendation = Hot | Cold | Rain | Sun | Windy | Humid
  {
    /** The rule that produces the recommendation, in the order the rules
        run: temperature, precipitation or sun, wind, humidity. */
    function Rule(): nat
    {
      match this
      case Hot => 0
      case Cold => 0
      case Rain => 1
      case Sun => 1
      case Windy => 2
      case Humid => 3
    }

    function Message(): string
    {
      match this
      case Hot => "На вулиці спекотно. Не забувайте пити воду! 💧"
      case Cold => "На вулиці холодно, вдягніться тепліше! 🥶"
      case Rain => "Не забудьте парасольку! ☔"
      case Sun => "Сьогодні сонячно, не забудьте сонцезахисний крем."
      case Windy => "Сьогодні вітряно, будьте обережні з речима. 🌬️"
      case Humid => "Дуже висока вологість. Можливий туман."
    }
  }

  /** The lower-cased description mentions rain. */
  predicate MentionsRain(desc: string)
  {
    Contains(desc, "дощ") || Contains(desc, "rain")
  }

  /** The lower-cased description mentions sun or a clear sky. */
  predicate MentionsSun(desc: string)
  {
    Contains(desc, "сонце") || Contains(desc, "clear")
  }

  /** The recommendations come out in rule order, at most one per rule. */
  predicate InRuleOrder(recs: seq<Recommendation>)
  {
    forall i, j :: 0 <= i < j < |recs| ==> recs[i].Rule() < recs[j].Rule()
  }

  /** Every recommendation in `recs` comes from rule `rule`. */
  predicate AllFromRule(recs: seq<Recommendation>, rule: nat)
  {
    forall x :: x in recs ==> x.Rule() == rule
  }

  /** The temperature rule: "hot" above 25 degrees, else "cold" below 5. */
  function TemperatureRule(temp: real): (recs: seq<Recommendation>)
    ensures |recs| <= 1 && AllFromRule(recs, 0)
    ensures Hot in recs <==> temp > 25.0
    ensures Cold in recs <==> temp < 5.0
  {
    if temp > 25.0 then [Hot] else if temp < 5.0 then [Cold] else []
  }

  /** The precipitation rule: "rain" when the description mentions rain, else
      "sun" when it mentions sun or a clear sky. */
  function SkyRule(desc: string): (recs: seq<Recommendation>)
    ensures |recs| <= 1 && AllFromRule(recs, 1)
    ensures Rain in recs <==> MentionsRain(desc)
    ensures Sun in recs <==> !MentionsRain(desc) && MentionsSun(desc)
  {
    if MentionsRain(desc) then [Rain] else if MentionsSun(desc) then [Sun] else []
  }

  /** The wind rule: "windy" above 8 metres per second. */
  function WindRule(wind: real): (recs: seq<Recommendation>)
    ensures |recs| <= 1 && AllFromRule(recs, 2)
    ensures Windy in recs <==> wind > 8.0
  {
    if wind > 8.0 then [Windy] else []
  }

  /** The humidity rule: "humid" above 80 percent. */
  function HumidityRule(humidity: real): (recs: seq<Recommendation>)
    ensures |recs| <= 1 && AllFromRule(recs, 3)
    ensures Humid in recs <==> humidity > 80.0
  {
    if humidity > 80.0 then [Humid] else []
  }

  /** The outcomes of the four rules, concatenated in rule order, are in
      rule order. */
  lemma FourRulesInOrder(a: seq<Recommendation>, b: seq<Recommendation>, c: seq<Recommendation>, d: seq<Recommendation>)
    requires |a| <= 1 && AllFromRule(a, 0) && |b| <= 1 && AllFromRule(b, 1)
    requires |c| <= 1 && AllFromRule(c, 2) && |d| <= 1 && AllFromRule(d, 3)
    ensures InRuleOrder(a + b + c + d)
  {
  }

  /** `generateRecommendations`: no weather gives no recommendations;
      otherwise the four rules run in order on the lower-cased description,
      each adding at most one recommendation. */
  function GenerateRecommendations(weather: Option<Weather>): (recs: seq<Recommendation>)
    ensures weather.None? ==> recs == []
    ensures weather.Some? ==>
      var w := weather.value;
      var desc := Lower(w.description);
      && (Hot in recs <==> w.temp > 25.0)
      && (Cold in recs <==> w.temp < 5.0)
      && (Rain in recs <==> MentionsRain(desc))
      && (Sun in recs <==> !MentionsRain(desc) && MentionsSun(desc))
      && (Windy in recs <==> w.wind > 8.0)
      && (Humid in recs <==> w.humidity > 80.0)
    ensures InRuleOrder(recs)
    ensures |recs| <= 4
  {
    match weather
    case None => []
    case Some(w) =>
      var desc := Lower(w.description);
      var temperature := TemperatureRule(w.temp);
      var sky := SkyRule(desc);
      var wind := WindRule(w.wind);
      var humidity := HumidityRule(w.humidity);
      FourRulesInOrder(temperature, sky, wind, humidity);
      temperature + sky + wind + humidity
  }

  /** A list in rule order has at most one recommendation per rule, so never
      more than four. */
  lemma {:induction false} RulesIncreasingBound(recs: seq<Recommendation>)
    requires InRuleOrder(recs)
    ensures recs != [] ==> |recs| <= 4 - recs[0].Rule()
    ensures |recs| <= 4
  {
    if |recs| > 1 {
      RulesIncreasingBound(recs[1..]);
      assert recs[0].Rule() < recs[1].Rule();
    }
  }

  // ---------------------------------------------------------------------
  // JSON values and JavaScript's `||`.

  datatype Json =
    | JNull
    | JBool(b: bool)
    | JNum(n: real)
    | JStr(s: string)
    | JArr(items: seq<Json>)
    | JObj(fields: map<string, Json>)

  /** A JavaScript value: `None` is `undefined`. */
  type Value = Option<Json>

  /** JavaScript truthiness: `undefined`, `null`, `false`, `0` and `""` are
      falsy, everything else (every object and array included) is truthy. */
  function Truthy(v: Value): (b: bool)
    ensures b <==> v !in {None, Some(JNull), Some(JBool(false)), Some(JNum(0.0)), Some(JStr(""))}
  {
    match v
    case None => false
    case Some(j) =>
      match j
      case JNull => false
      case JBool(b) => b
      case JNum(n) => n != 0.0
      case JStr(s) => s != ""
      case JArr(_) => true
      case JObj(_) => true
  }

  /** Optional chaining `v?.key` for a key that no JSON value inherits (the
      pages read only settings, language, theme, city and id): the field of
      an object, otherwise `undefined`. */
  function Field(v: Value, key: string): (r: Value)
    ensures r.Some? <==> v.Some? && v.value.JObj? && key in v.value.fields
    ensures r.Some? ==> r.value == v.value.fields[key]
  {
    if v.Some? && v.value.JObj? && key in v.value.fields then Some(v.value.fields[key]) else None
  }

  /** `a || b || ... || last`: the first truthy operand, or the last operand
      when none of the others is truthy. */
  function OrChain(operands: seq<Value>): (r: Value)
    requires operands != []
    ensures exists k :: 0 <= k < |operands| && r == operands[k]
                        && (forall j :: 0 <= j < k ==> !Truthy(operands[j]))
                        && (Truthy(r) || k == |operands| - 1)
  {
    if |operands| == 1 || Truthy(operands[0]) then operands[0]
    else
      var r := OrChain(operands[1..]);
      var k :| 0 <= k < |operands| - 1 && r == operands[1..][k]
               && (forall j :: 0 <= j < k ==> !Truthy(operands[1..][j]))
               && (Truthy(r) || k == |operands| - 2);
      assert operands[k + 1] == r;
      r
  }

  /** The first truthy operand wins, and when no operand before the last is
      truthy the chain gives the last one. */
  lemma OrChainFirstTruthy(operands: seq<Value>, k: nat)
    requires k < |operands| && (Truthy(operands[k]) || k == |operands| - 1)
    requires forall j :: 0 <= j < k ==> !Truthy(operands[j])
    ensures OrChain(operands) == operands[k]
  {
  }

  /** A chain of three operands: `a || b || c`. */
  lemma OrChainOfThree(a: Value, b: Value, c: Value)
    requires Truthy(c)
    ensures OrChain([a, b, c]) == if Truthy(a) then a else if Truthy(b) then b else c
  {
  }

  // ---------------------------------------------------------------------
  // The stored user.

  /** The parsed "user" entry of local storage: `None` when nothing is stored
      (`JSON.parse(null)` is `null`). */
  type StoredUser = Option<map<string, Json>>

  function AsValue(user: StoredUser): Value
  {
    match user
    case None => Some(JNull)
    case Some(m) => Some(JObj(m))
  }

  /** A string from local storage: `getItem` gives `null` for a missing key. */
  function Stored(s: Option<string>): Value
  {
    match s
    case None => Some(JNull)
    case Some(x) => Some(JStr(x))
  }

  /** The initial language and the initial theme, for `key` "language" with
      `fallback` "ua" and for `key` "theme" with `fallback` "default":
      `storedUser?.settings?.<key> || localStorage.getItem(...) || fallback`,
      `stored` being what local storage holds under "lang" or "theme". */
  function InitialSetting(user: StoredUser, key: string, stored: Option<string>, fallback: string): (r: Json)
    requires fallback != ""
    ensures Truthy(Some(r))
    ensures Truthy(Field(Field(AsValue(user), "settings"), key)) ==>
      Some(r) == Field(Field(AsValue(user), "settings"), key)
    ensures !Truthy(Field(Field(AsValue(user), "settings"), key)) ==>
      r == if stored.Some? && stored.value != "" then JStr(stored.value) else JStr(fallback)
  {
    var first, second, last := Field(Field(AsValue(user), "settings"), key), Stored(stored), Some(JStr(fallback));
    OrChainOfThree(first, second, last);
    OrChain([first, second, last]).value
  }

  /** The saved city the page starts with: `storedUser?.city || ""`. */
  function InitialCity(user: StoredUser): (r: Json)
    ensures Truthy(Field(AsValue(user), "city")) ==> Some(r) == Field(AsValue(user), "city")
    ensures !Truthy(Field(AsValue(user), "city")) ==> r == JStr("")
  {
    var first, last := Field(AsValue(user), "city"), Some(JStr(""));
    if Truthy(first) then OrChainFirstTruthy([first, last], 0); first.value
    else OrChainFirstTruthy([first, last], 1); last.value
  }

  /** `handleWidgetCitySaved`: `{ ...storedUser, city: newCity }`. The city
      field is set and every other field of the stored user is kept. */
  function SaveCity(user: StoredUser, newCity: string): (r: map<string, Json>)
    ensures r.Keys == (if user.Some? then user.value.Keys else {}) + {"city"}
    ensures r["city"] == JStr(newCity)
    ensures user.Some? ==> forall k :: k in user.value && k != "city" ==> r[k] == user.value[k]
  {
    var copied := if user.Some? then user.value else map[];
    copied["city" := JStr(newCity)]
  }

  /** `saveSettingsToDB` as seen from local storage. Without a truthy user id
      nothing is saved; otherwise the stored user is rewritten only when the
      database reports success (`saved`), with `settings` replaced by both
      the new theme and the new language and every other field kept. */
  function SaveSettings(user: StoredUser, newTheme: string, newLanguage: string, saved: bool): (r: StoredUser)
    ensures !Truthy(Field(AsValue(user), "id")) || !saved ==> r == user
    ensures Truthy(Field(AsValue(user), "id")) && saved ==>
      && user.Some? && r.Some?
      && r.value.Keys == user.value.Keys + {"settings"}
      && r.value["settings"] == JObj(map["theme" := JStr(newTheme), "language" := JStr(newLanguage)])
      && forall k :: k in user.value && k != "settings" ==> r.value[k] == user.value[k]
  {
    if !Truthy(Field(AsValue(user), "id")) then user
    else if saved then
      Some(user.value["settings" := JObj(map["theme" := JStr(newTheme), "language" := JStr(newLanguage)])])
    else user
  }

  /** Round trip: once a city is saved, the next page load starts with it
      (an empty city is falsy, and the fallback is the same empty string). */
  lemma SaveCityThenLoad(user: StoredUser, newCity: string)
    ensures InitialCity(Some(SaveCity(user, newCity))) == JStr(newCity)
  {
  }

  /** Round trip: once settings are saved, the next page load starts with
      the saved language and theme, whatever the separate "lang" and "theme"
      keys hold. */
  lemma SaveSettingsThenLoad(user: StoredUser, newTheme: string, newLanguage: string, lang: Option<string>, theme: Option<string>)
    requires Truthy(Field(AsValue(user), "id"))
    requires newTheme != "" && newLanguage != ""
    ensures InitialSetting(SaveSettings(user, newTheme, newLanguage, true), "language", lang, "ua") == JStr(newLanguage)
    ensures InitialSetting(SaveSettings(user, newTheme, newLanguage, true), "theme", theme, "default") == JStr(newTheme)
  {
  }
}
