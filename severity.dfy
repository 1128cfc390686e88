/**
 * Severity styling of briefing list items. Each list item without a severity
 * gets one from its lower-cased text: the classic page first looks for an
 * explicit "severity: x" or "(x)" tag and then walks a three-level keyword
 * map; the planner page only checks a shorter keyword list. Items already
 * carrying a severity are skipped by both.
 */
module Severity {
  import opened Wrappers
  import opened Text
  import opened KeywordRules

  datatype Level = High | Medium | Low

  /** A list item of a tile: its text content and its `data-severity` attribute. */
  datatype ListItem = ListItem(text: string, severity: Option<Level>)

  /** Index of a level in the keyword maps: higher is more severe. */
  function Rank(l: Level): (r: nat)
    ensures r <= 2
    ensures l == High <==> r == 2
    ensures l == Low <==> r == 0
  {
    match l
    case High => 2
    case Medium => 1
    case Low => 0
  }

  /** Explicit severity tags of the classic page, checked before any keyword. */
  const ExplicitTags: Rules<Level> := [
    (High, ["severity: high", "(high)"]),
    (Medium, ["severity: medium", "(medium)"]),
    (Low, ["severity: low", "(low)"])
  ]

  /** The classic page's keyword map, in its iteration order. */
  const ClassicKeywordMap: Rules<Level> := [
    (High, ["severe", "dangerous", "extreme", "warning", "hazardous", "significant", "heavy", "high"]),
    (Medium, ["moderate", "caution", "potential", "deteriorating", "advisory", "developing"]),
    (Low, ["light", "minor", "good condition", "favorable", "clear", "calm", "minimal", "low"])
  ]

  /** The planner page's keyword lists. */
  const PlannerKeywordMap: Rules<Level> := [
    (High, ["severe", "dangerous", "extreme", "warning", "hazardous"]),
    (Medium, ["moderate", "caution", "potential"]),
    (Low, ["light", "minor", "good condition", "favorable"])
  ]

  /** Classic severity of an already lower-cased text: a tag wins over keywords. */
  function ClassicSeverity(t: string): Option<Level> {
    match FirstMatch(ExplicitTags, t)
    case Some(l) => Some(l)
    case None => FirstMatch(ClassicKeywordMap, t)
  }

  /** Planner severity of an already lower-cased text. */
  function PlannerSeverity(t: string): Option<Level> {
    FirstMatch(PlannerKeywordMap, t)
  }

  function ClassicStyleItem(item: ListItem): ListItem {
    if item.severity.Some? then item
    else item.(severity := ClassicSeverity(Lower(item.text)))
  }

  function PlannerStyleItem(item: ListItem): ListItem {
    if item.severity.Some? then item
    else item.(severity := PlannerSeverity(Lower(item.text)))
  }

  function ClassicStyled(items: seq<ListItem>): seq<ListItem> {
    seq(|items|, i requires 0 <= i < |items| => ClassicStyleItem(items[i]))
  }

  function PlannerStyled(items: seq<ListItem>): seq<ListItem> {
    seq(|items|, i requires 0 <= i < |items| => PlannerStyleItem(items[i]))
  }

  /**
   * The classic page's nested keyword loop: for each level in order, stop at
   * the first keyword found, and stop the outer loop once a level was set.
   */
  method ClassicKeywordScan(t: string) returns (level: Option<Level>)
    ensures level == FirstMatch(ClassicKeywordMap, t)
  {
    var rules := ClassicKeywordMap;
    var g := 0;
    while g < |rules|
      invariant 0 <= g <= |rules|
      invariant forall j :: 0 <= j < g ==> !AnyKeyword(rules[j].1, t)
    {
      var keywords := rules[g].1;
      var found := false;
      var k := 0;
      while k < |keywords|
        invariant 0 <= k <= |keywords|
        invariant !found ==> forall m :: 0 <= m < k ==> !Contains(t, keywords[m])
        invariant found ==> AnyKeyword(keywords, t)
      {
        if Contains(t, keywords[k]) {
          found := true;
          break;
        }
        k := k + 1;
      }
      if found {
        FirstMatchAt(rules, t, g);
        return Some(rules[g].0);
      }
      g := g + 1;
    }
    return None;
  }

  /** The explicit tags, as the classic page's if-chain tests them. */
  lemma ExplicitTagsRead(t: string)
    ensures FirstMatch(ExplicitTags, t) ==
      if Contains(t, "severity: high") || Contains(t, "(high)") then Some(High)
      else if Contains(t, "severity: medium") || Contains(t, "(medium)") then Some(Medium)
      else if Contains(t, "severity: low") || Contains(t, "(low)") then Some(Low)
      else None
  {
    AnyOfTwo("severity: high", "(high)", t);
    AnyOfTwo("severity: medium", "(medium)", t);
    AnyOfTwo("severity: low", "(low)", t);
    if AnyKeyword(ExplicitTags[0].1, t) {
      FirstMatchAt(ExplicitTags, t, 0);
    } else if AnyKeyword(ExplicitTags[1].1, t) {
      FirstMatchAt(ExplicitTags, t, 1);
    } else if AnyKeyword(ExplicitTags[2].1, t) {
      FirstMatchAt(ExplicitTags, t, 2);
    } else {
      NoRuleMatches(ExplicitTags, t);
    }
  }

  /** Severity of one untagged item's lower-cased text on the classic page. */
  method ClassicItemSeverity(t: string) returns (level: Option<Level>)
    ensures level == ClassicSeverity(t)
  {
    ExplicitTagsRead(t);
    if Contains(t, "severity: high") || Contains(t, "(high)") {
      level := Some(High);
    } else if Contains(t, "severity: medium") || Contains(t, "(medium)") {
      level := Some(Medium);
    } else if Contains(t, "severity: low") || Contains(t, "(low)") {
      level := Some(Low);
    } else {
      level := ClassicKeywordScan(t);
    }
  }

  /** The classic page's pass over all list items, tags first, then the keyword scan. */
  method ClassicApplySeverityStyling(items: array<ListItem>)
    modifies items
    ensures items[..] == ClassicStyled(old(items[..]))
  {
    ghost var before := items[..];
    for i := 0 to items.Length
      invariant items[..i] == ClassicStyled(before)[..i]
      invariant items[i..] == before[i..]
    {
      assert items[i] == before[i];
      if items[i].severity.None? {
        var level := ClassicItemSeverity(Lower(items[i].text));
        if level.Some? {
          items[i] := items[i].(severity := level);
        }
      }
    }
  }

  /** A five-keyword list matches when one of the five occurs. */
  lemma AnyOfFive(a: string, b: string, c: string, d: string, e: string, text: string)
    ensures AnyKeyword([a, b, c, d, e], text) <==>
      Contains(text, a) || Contains(text, b) || Contains(text, c) || Contains(text, d) || Contains(text, e)
  {
    var ks := [a, b, c, d, e];
    assert ks[0] == a && ks[1] == b && ks[2] == c && ks[3] == d && ks[4] == e;
  }

  /** A four-keyword list matches when one of the four occurs. */
  lemma AnyOfFour(a: string, b: string, c: string, d: string, text: string)
    ensures AnyKeyword([a, b, c, d], text) <==>
      Contains(text, a) || Contains(text, b) || Contains(text, c) || Contains(text, d)
  {
    var ks := [a, b, c, d];
    assert ks[0] == a && ks[1] == b && ks[2] == c && ks[3] == d;
  }

  /** The planner's keyword lists, as its if-chain tests them. */
  lemma PlannerKeywordsRead(t: string)
    ensures PlannerSeverity(t) ==
      if Contains(t, "severe") || Contains(t, "dangerous") || Contains(t, "extreme")
        || Contains(t, "warning") || Contains(t, "hazardous") then Some(High)
      else if Contains(t, "moderate") || Contains(t, "caution") || Contains(t, "potential") then Some(Medium)
      else if Contains(t, "light") || Contains(t, "minor") || Contains(t, "good condition")
        || Contains(t, "favorable") then Some(Low)
      else None
  {
    AnyOfFive("severe", "dangerous", "extreme", "warning", "hazardous", t);
    AnyOfThree("moderate", "caution", "potential", t);
    AnyOfFour("light", "minor", "good condition", "favorable", t);
    if AnyKeyword(PlannerKeywordMap[0].1, t) {
      FirstMatchAt(PlannerKeywordMap, t, 0);
    } else if AnyKeyword(PlannerKeywordMap[1].1, t) {
      FirstMatchAt(PlannerKeywordMap, t, 1);
    } else if AnyKeyword(PlannerKeywordMap[2].1, t) {
      FirstMatchAt(PlannerKeywordMap, t, 2);
    } else {
      NoRuleMatches(PlannerKeywordMap, t);
    }
  }

  /** Severity of one unstyled item's lower-cased text on the planner page. */
  method PlannerItemSeverity(t: string) returns (level: Option<Level>)
    ensures level == PlannerSeverity(t)
  {
    PlannerKeywordsRead(t);
    level := None;
    if Contains(t, "severe") || Contains(t, "dangerous") || Contains(t, "extreme")
      || Contains(t, "warning") || Contains(t, "hazardous")
    {
      level := Some(High);
    } else if Contains(t, "moderate") || Contains(t, "caution") || Contains(t, "potential") {
      level := Some(Medium);
    } else if Contains(t, "light") || Contains(t, "minor") || Contains(t, "good condition")
      || Contains(t, "favorable")
    {
      level := Some(Low);
    }
  }

  /** The planner page's pass over all list items. */
  method PlannerApplySeverityStyling(items: array<ListItem>)
    modifies items
    ensures items[..] == PlannerStyled(old(items[..]))
  {
    ghost var before := items[..];
    for i := 0 to items.Length
      invariant items[..i] == PlannerStyled(before)[..i]
      invariant items[i..] == before[i..]
    {
      assert items[i] == before[i];
      if items[i].severity.None? {
        var level := PlannerItemSeverity(Lower(items[i].text));
        if level.Some? {
          items[i] := items[i].(severity := level);
        }
      }
    }
  }

  /** A second pass changes nothing: styled items are skipped, unmatched ones stay unmatched. */
  lemma ClassicStylingIdempotent(items: seq<ListItem>)
    ensures ClassicStyled(ClassicStyled(items)) == ClassicStyled(items)
  {
  }

  lemma PlannerStylingIdempotent(items: seq<ListItem>)
    ensures PlannerStyled(PlannerStyled(items)) == PlannerStyled(items)
  {
  }

  /**
   * Without an explicit tag the classic page never rates an item milder than
   * the planner page: each planner list is a prefix of the classic list of the
   * same level, so the classic scan stops at that level or an earlier one.
   */
  lemma ClassicNeverMilder(t: string)
    requires FirstMatch(ExplicitTags, t) == None
    requires PlannerSeverity(t).Some?
    ensures ClassicSeverity(t).Some?
    ensures Rank(ClassicSeverity(t).value) >= Rank(PlannerSeverity(t).value)
  {
    var g := FirstRule(PlannerKeywordMap, t).value;
    assert PlannerKeywordMap[g].1 <= ClassicKeywordMap[g].1;
    AnyKeywordPrefix(PlannerKeywordMap[g].1, ClassicKeywordMap[g].1, t);
    FirstRuleNoLater(ClassicKeywordMap, t, g);
    var c := FirstRule(ClassicKeywordMap, t).value;
    assert Rank(ClassicKeywordMap[c].0) == 2 - c;
    assert Rank(PlannerKeywordMap[g].0) == 2 - g;
  }

  /**
   * An explicit tag wins over keywords on the classic page only: a text with
   * "(low)" and "severe" but no higher tag, such as "(low) severe turbulence",
   * is low there and high on the planner.
   */
  lemma TagOverridesKeyword(t: string)
    requires Contains(t, "(low)") && Contains(t, "severe")
    requires !Contains(t, "severity: high") && !Contains(t, "(high)")
    requires !Contains(t, "severity: medium") && !Contains(t, "(medium)")
    ensures ClassicSeverity(t) == Some(Low)
    ensures PlannerSeverity(t) == Some(High)
  {
    ExplicitTagsRead(t);
    PlannerKeywordsRead(t);
  }

  /** An explicit "(high)" tag wins over any keyword, so "(high) clear skies" is high. */
  lemma HighTagBeatsLowKeyword(t: string)
    requires Contains(t, "(high)")
    ensures ClassicSeverity(t) == Some(High)
  {
    ExplicitTagsRead(t);
  }

  /** Every explicit tag holds '(' or ':', so a text with neither has no tag. */
  lemma UntaggedWithout(t: string)
    requires '(' !in t && ':' !in t
    ensures FirstMatch(ExplicitTags, t) == None
  {
    ExplicitTagsRead(t);
    AbsentCharExcludes(t, "severity: high", ':');
    AbsentCharExcludes(t, "(high)", '(');
    AbsentCharExcludes(t, "severity: medium", ':');
    AbsentCharExcludes(t, "(medium)", '(');
    AbsentCharExcludes(t, "severity: low", ':');
    AbsentCharExcludes(t, "(low)", '(');
  }

  lemma FlightLacksHigh()
    ensures !Contains("flight", "high")
  {
    var s := "flight";
    forall i | 0 <= i <= |s| ensures !OccursAt(s, "high", i) {
      if i + 4 <= |s| {
        assert s[i..i + 4][0] == s[i];
        assert s[i..i + 4][1] == s[i + 1];
      }
    }
  }

  lemma FlightNotHigh()
    ensures !AnyKeyword(ClassicKeywordMap[0].1, "flight")
  {
    var high := ClassicKeywordMap[0].1;
    forall k | 0 <= k < |high| ensures !Contains("flight", high[k]) {
      if k == 7 {
        FlightLacksHigh();
      } else {
        AbsentCharExcludes("flight", high[k], "sdewase"[k]);
      }
    }
  }

  lemma FlightNotMedium()
    ensures !AnyKeyword(ClassicKeywordMap[1].1, "flight")
  {
    NoKeyword(ClassicKeywordMap[1].1, "flight", "mcpdad");
  }

  /** Keywords match inside words: "flight" reads as low severity on the classic page ... */
  lemma ClassicKeywordInsideWord()
    ensures ClassicSeverity("flight") == Some(Low)
  {
    UntaggedWithout("flight");
    FlightNotHigh();
    FlightNotMedium();
    assert OccursAt("flight", "light", 1);
    KeywordFound(ClassicKeywordMap[2].1, "flight", 0, 1);
    FirstMatchAt(ClassicKeywordMap, "flight", 2);
  }

  /** ... and on the planner page. */
  lemma PlannerKeywordInsideWord()
    ensures PlannerSeverity("flight") == Some(Low)
  {
    var t := "flight";
    NoKeyword(PlannerKeywordMap[0].1, t, "sdewa");
    NoKeyword(PlannerKeywordMap[1].1, t, "mcp");
    assert OccursAt(t, "light", 1);
    KeywordFound(PlannerKeywordMap[2].1, t, 0, 1);
    FirstMatchAt(PlannerKeywordMap, t, 2);
  }

  lemma ClearSkiesNotHigh()
    ensures !AnyKeyword(ClassicKeywordMap[0].1, "clear skies")
  {
    NoKeyword(ClassicKeywordMap[0].1, "clear skies", "vdxwhghh");
  }

  lemma ClearSkiesNotMedium()
    ensures !AnyKeyword(ClassicKeywordMap[1].1, "clear skies")
  {
    NoKeyword(ClassicKeywordMap[1].1, "clear skies", "mupddd");
  }

  /** "clear" is a low-severity keyword on the classic page ... */
  lemma ClassicRatesClearSkies()
    ensures ClassicSeverity("clear skies") == Some(Low)
  {
    UntaggedWithout("clear skies");
    ClearSkiesNotHigh();
    ClearSkiesNotMedium();
    assert OccursAt("clear skies", "clear", 0);
    KeywordFound(ClassicKeywordMap[2].1, "clear skies", 4, 0);
    FirstMatchAt(ClassicKeywordMap, "clear skies", 2);
  }

  lemma PlannerClearSkiesNotHigh()
    ensures !AnyKeyword(PlannerKeywordMap[0].1, "clear skies")
  {
    NoKeyword(PlannerKeywordMap[0].1, "clear skies", "vdxwh");
  }

  /** ... and leaves the planner page without a severity. */
  lemma PlannerMissesClearSkies()
    ensures PlannerSeverity("clear skies") == None
  {
    PlannerClearSkiesNotHigh();
    NoKeyword(PlannerKeywordMap[1].1, "clear skies", "mup");
    NoKeyword(PlannerKeywordMap[2].1, "clear skies", "gmgf");
    NoRuleMatches(PlannerKeywordMap, "clear skies");
  }

  lemma BelowNotHigh()
    ensures !AnyKeyword(ClassicKeywordMap[0].1, "below")
  {
    NoKeyword(ClassicKeywordMap[0].1, "below", "sdxahshh");
  }

  lemma BelowNotMedium()
    ensures !AnyKeyword(ClassicKeywordMap[1].1, "below")
  {
    NoKeyword(ClassicKeywordMap[1].1, "below", "mcpdad");
  }

  /** The classic low keyword "low" matches inside "below" ... */
  lemma ClassicRatesBelow()
    ensures ClassicSeverity("below") == Some(Low)
  {
    UntaggedWithout("below");
    BelowNotHigh();
    BelowNotMedium();
    assert OccursAt("below", "low", 2);
    KeywordFound(ClassicKeywordMap[2].1, "below", 7, 2);
    FirstMatchAt(ClassicKeywordMap, "below", 2);
  }

  lemma PlannerBelowNotHigh()
    ensures !AnyKeyword(PlannerKeywordMap[0].1, "below")
  {
    NoKeyword(PlannerKeywordMap[0].1, "below", "sdxah");
  }

  /** ... while the planner page sets no severity for it. */
  lemma PlannerMissesBelow()
    ensures PlannerSeverity("below") == None
  {
    PlannerBelowNotHigh();
    NoKeyword(PlannerKeywordMap[1].1, "below", "mcp");
    NoKeyword(PlannerKeywordMap[2].1, "below", "imgf");
    NoRuleMatches(PlannerKeywordMap, "below");
  }
}
