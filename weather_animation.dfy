/**
 * The classic page's choice of a weather animation for the conditions tile
 * and its test of an OpenWeatherMap condition id for a hazard marker.
 */
module WeatherAnimation {
  import opened Wrappers
  import opened Text
  import opened KeywordRules

  datatype Animation = Thunderstorm | Snow | Rain | Fog | Cloudy | Clear

  /** The keyword groups in the order the if/else chain tests them. */
  const AnimationRules: Rules<Animation> := [
    (Thunderstorm, ["thunderstorm", "lightning"]),
    (Snow, ["snow", "freezing"]),
    (Rain, ["rain", "shower"]),
    (Fog, ["fog", "mist", "visibility reduced"]),
    (Cloudy, ["cloud", "overcast"])
  ]

  /**
   * The if/else chain over the lower-cased conditions text: "clear" exactly
   * when no keyword group matches, and otherwise an animation whose own
   * group matches.
   */
  function AnimationType(content: string): (r: Animation)
    ensures r == Clear <==> forall k :: 0 <= k < |AnimationRules| ==> !AnyKeyword(AnimationRules[k].1, content)
    ensures r != Clear ==>
      exists k :: 0 <= k < |AnimationRules| && AnimationRules[k].0 == r && AnyKeyword(AnimationRules[k].1, content)
  {
    AnyOfTwo("thunderstorm", "lightning", content);
    AnyOfTwo("snow", "freezing", content);
    AnyOfTwo("rain", "shower", content);
    AnyOfThree("fog", "mist", "visibility reduced", content);
    AnyOfTwo("cloud", "overcast", content);
    var rules := AnimationRules;
    assert |rules| == 5;
    if Contains(content, "thunderstorm") || Contains(content, "lightning") then
      assert rules[0].0 == Thunderstorm && AnyKeyword(rules[0].1, content);
      Thunderstorm
    else if Contains(content, "snow") || Contains(content, "freezing") then
      assert rules[1].0 == Snow && AnyKeyword(rules[1].1, content);
      Snow
    else if Contains(content, "rain") || Contains(content, "shower") then
      assert rules[2].0 == Rain && AnyKeyword(rules[2].1, content);
      Rain
    else if Contains(content, "fog") || Contains(content, "mist") || Contains(content, "visibility reduced") then
      assert rules[3].0 == Fog && AnyKeyword(rules[3].1, content);
      Fog
    else if Contains(content, "cloud") || Contains(content, "overcast") then
      assert rules[4].0 == Cloudy && AnyKeyword(rules[4].1, content);
      Cloudy
    else
      assert !AnyKeyword(rules[0].1, content) && !AnyKeyword(rules[1].1, content) && !AnyKeyword(rules[2].1, content);
      assert !AnyKeyword(rules[3].1, content) && !AnyKeyword(rules[4].1, content);
      Clear
  }

  /** The animation added for the conditions tile; no tile, no animation. */
  function ConditionsAnimation(conditionsText: Option<string>): (r: Option<Animation>)
    ensures r.Some? <==> conditionsText.Some?
  {
    match conditionsText
    case None => None
    case Some(text) => Some(AnimationType(Lower(text)))
  }

  /**
   * The chain is the first-match rule over the keyword table, with "clear"
   * when no group matches: an earlier group always wins over a later one.
   */
  lemma AnimationIsFirstMatch(content: string)
    ensures AnimationType(content) == FirstMatch(AnimationRules, content).GetOr(Clear)
  {
    var rules := AnimationRules;
    AnyOfTwo("thunderstorm", "lightning", content);
    AnyOfTwo("snow", "freezing", content);
    AnyOfTwo("rain", "shower", content);
    AnyOfThree("fog", "mist", "visibility reduced", content);
    AnyOfTwo("cloud", "overcast", content);
    if AnyKeyword(rules[0].1, content) {
      FirstMatchAt(rules, content, 0);
    } else if AnyKeyword(rules[1].1, content) {
      FirstMatchAt(rules, content, 1);
    } else if AnyKeyword(rules[2].1, content) {
      FirstMatchAt(rules, content, 2);
    } else if AnyKeyword(rules[3].1, content) {
      FirstMatchAt(rules, content, 3);
    } else if AnyKeyword(rules[4].1, content) {
      FirstMatchAt(rules, content, 4);
    } else {
      NoRuleMatches(rules, content);
    }
  }

  /** Snow outranks rain: "freezing rain" shows the snow animation. */
  lemma FreezingRainIsSnow()
    ensures AnimationType("freezing rain") == Snow
  {
    var t := "freezing rain";
    AbsentCharExcludes(t, "thunderstorm", 't');
    AbsentCharExcludes(t, "lightning", 'l');
    assert OccursAt(t, "freezing", 0);
  }

  /** A text with none of the keywords shows the clear-sky animation. */
  lemma NoKeywordIsClear()
    ensures AnimationType("sunny") == Clear
  {
    SunnyNotStormy();
    SunnyNotWet();
    SunnyNotCloudy();
  }

  lemma SunnyNotStormy()
    ensures !Contains("sunny", "thunderstorm") && !Contains("sunny", "lightning")
    ensures !Contains("sunny", "snow") && !Contains("sunny", "freezing")
  {
    AbsentCharExcludes("sunny", "thunderstorm", 't');
    AbsentCharExcludes("sunny", "lightning", 'l');
    AbsentCharExcludes("sunny", "snow", 'o');
    AbsentCharExcludes("sunny", "freezing", 'f');
  }

  lemma SunnyNotWet()
    ensures !Contains("sunny", "rain") && !Contains("sunny", "shower")
    ensures !Contains("sunny", "fog") && !Contains("sunny", "mist")
  {
    AbsentCharExcludes("sunny", "rain", 'r');
    AbsentCharExcludes("sunny", "shower", 'h');
    AbsentCharExcludes("sunny", "fog", 'f');
    AbsentCharExcludes("sunny", "mist", 'm');
  }

  lemma SunnyNotCloudy()
    ensures !Contains("sunny", "visibility reduced")
    ensures !Contains("sunny", "cloud") && !Contains("sunny", "overcast")
  {
    AbsentCharExcludes("sunny", "visibility reduced", 'v');
    AbsentCharExcludes("sunny", "cloud", 'c');
    AbsentCharExcludes("sunny", "overcast", 'o');
  }

  datatype Hazard = Thunder | HeavyRain

  /**
   * The hazard-marker test: ids below 300 are thunder, 500 to 531 heavy rain.
   * Every thunderstorm-group id shows the thunder icon, and the rain icon is
   * shown only for rain-group ids.
   */
  function HazardKind(id: int): (r: Option<Hazard>)
    ensures Group(id) == Some(ThunderstormGroup) ==> r == Some(Thunder)
    ensures r == Some(HeavyRain) ==> Group(id) == Some(RainGroup)
    ensures r.None? ==> Group(id) != Some(ThunderstormGroup) && id >= 300
  {
    if id < 300 then Some(Thunder)
    else if id >= 500 && id <= 531 then Some(HeavyRain)
    else None
  }

  /** OpenWeatherMap condition groups: the hundreds digit of a condition id. */
  datatype ConditionGroup = ThunderstormGroup | DrizzleGroup | RainGroup | SnowGroup | AtmosphereGroup | ClearOrClouds

  function Group(id: int): Option<ConditionGroup> {
    if 200 <= id < 300 then Some(ThunderstormGroup)
    else if 300 <= id < 400 then Some(DrizzleGroup)
    else if 500 <= id < 600 then Some(RainGroup)
    else if 600 <= id < 700 then Some(SnowGroup)
    else if 700 <= id < 800 then Some(AtmosphereGroup)
    else if 800 <= id < 900 then Some(ClearOrClouds)
    else None
  }

  /**
   * Over ids that name a condition group, the marker shows exactly for the
   * thunderstorm group and for the rain group up to id 531; the thunder icon
   * is used exactly for the thunderstorm group.
   */
  lemma HazardKindByGroup(id: int)
    requires Group(id).Some?
    ensures HazardKind(id).Some? <==> Group(id) == Some(ThunderstormGroup) || (Group(id) == Some(RainGroup) && id <= 531)
    ensures HazardKind(id) == Some(Thunder) <==> Group(id) == Some(ThunderstormGroup)
  {
  }

  /** Drizzle, snow, fog and cloud ids never raise a marker. */
  lemma NonHazardGroups(id: int)
    requires Group(id) in {Some(DrizzleGroup), Some(SnowGroup), Some(AtmosphereGroup), Some(ClearOrClouds)}
    ensures HazardKind(id) == None
  {
  }
}
