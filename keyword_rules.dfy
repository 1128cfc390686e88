/**
 * First-match-wins keyword tables. Both the severity styling and the weather
 * animation walk an ordered list of (label, keywords) pairs and take the label
 * of the first pair whose keywords include one that occurs in the text.
 */
module KeywordRules {
  import opened Wrappers
  import opened Text

  type Rules<L> = seq<(L, seq<string>)>

  /** Some keyword of the list occurs in the text. */
  predicate AnyKeyword(keywords: seq<string>, text: string) {
    exists k :: 0 <= k < |keywords| && Contains(text, keywords[k])
  }

  /**
   * Index of the first rule with a matching keyword: it matches, no earlier
   * rule does, and None means no rule matches at all.
   */
  function FirstRule<L>(rules: Rules<L>, text: string): (r: Option<nat>)
    ensures r.Some? ==> r.value < |rules| && AnyKeyword(rules[r.value].1, text)
    ensures r.Some? ==> forall j :: 0 <= j < r.value ==> !AnyKeyword(rules[j].1, text)
    ensures r.None? ==> forall j :: 0 <= j < |rules| ==> !AnyKeyword(rules[j].1, text)
  {
    if rules == [] then None
    else if AnyKeyword(rules[0].1, text) then Some(0)
    else
      match FirstRule(rules[1..], text)
      case None => None
      case Some(i) => Some(i + 1)
  }

  /** Label of the first rule with a matching keyword. */
  function FirstMatch<L>(rules: Rules<L>, text: string): Option<L> {
    match FirstRule(rules, text)
    case None => None
    case Some(i) => Some(rules[i].0)
  }

  /** A rule that matches when no earlier one does decides the result. */
  lemma {:induction false} FirstMatchAt<L>(rules: Rules<L>, text: string, g: nat)
    requires g < |rules| && AnyKeyword(rules[g].1, text)
    requires forall j :: 0 <= j < g ==> !AnyKeyword(rules[j].1, text)
    ensures FirstRule(rules, text) == Some(g)
    ensures FirstMatch(rules, text) == Some(rules[g].0)
  {
    if g > 0 {
      assert !AnyKeyword(rules[0].1, text);
      assert rules[1..][g - 1] == rules[g];
      FirstMatchAt(rules[1..], text, g - 1);
    }
  }

  /** A matching rule bounds the index of the first match from above. */
  lemma FirstRuleNoLater<L>(rules: Rules<L>, text: string, g: nat)
    requires g < |rules| && AnyKeyword(rules[g].1, text)
    ensures FirstRule(rules, text).Some? && FirstRule(rules, text).value <= g
  {
  }

  /** With no rule matching there is no label. */
  lemma NoRuleMatches<L>(rules: Rules<L>, text: string)
    requires forall j :: 0 <= j < |rules| ==> !AnyKeyword(rules[j].1, text)
    ensures FirstMatch(rules, text) == None
  {
  }

  /** A two-keyword list matches when either keyword occurs. */
  lemma AnyOfTwo(a: string, b: string, text: string)
    ensures AnyKeyword([a, b], text) <==> Contains(text, a) || Contains(text, b)
  {
    var ks := [a, b];
    assert ks[0] == a && ks[1] == b;
  }

  /** A three-keyword list matches when any of the three occurs. */
  lemma AnyOfThree(a: string, b: string, c: string, text: string)
    ensures AnyKeyword([a, b, c], text) <==> Contains(text, a) || Contains(text, b) || Contains(text, c)
  {
    var ks := [a, b, c];
    assert ks[0] == a && ks[1] == b && ks[2] == c;
  }

  /** Extending a keyword list keeps every match. */
  lemma AnyKeywordPrefix(keywords: seq<string>, longer: seq<string>, text: string)
    requires keywords <= longer && AnyKeyword(keywords, text)
    ensures AnyKeyword(longer, text)
  {
    var k :| 0 <= k < |keywords| && Contains(text, keywords[k]);
    assert longer[k] == keywords[k];
  }

  /** A keyword list with one keyword found in the text matches. */
  lemma KeywordFound(keywords: seq<string>, text: string, k: nat, at: nat)
    requires k < |keywords| && OccursAt(text, keywords[k], at)
    ensures AnyKeyword(keywords, text)
  {
    assert at <= |text|;
  }

  /** Every keyword of the list lacks a character the text lacks, so none matches. */
  lemma NoKeyword(keywords: seq<string>, text: string, absent: seq<char>)
    requires |absent| == |keywords|
    requires forall k :: 0 <= k < |keywords| ==> absent[k] in keywords[k] && absent[k] !in text
    ensures !AnyKeyword(keywords, text)
  {
    forall k | 0 <= k < |keywords| ensures !Contains(text, keywords[k]) {
      AbsentCharExcludes(text, keywords[k], absent[k]);
    }
  }
}
