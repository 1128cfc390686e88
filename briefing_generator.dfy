/**
 * The Express `/generate-briefing` handler: keep the valid airports, fetch
 * their weather, and build a small HTML report from the weather records, the
 * region and the hazard.
 */
module BriefingGenerator {
  import opened Wrappers

  /** Keep the airports the validity test accepts, in input order. */
  function FilterValid(airports: seq<string>, isValid: string -> bool): (r: seq<string>)
    ensures |r| <= |airports|
    ensures forall j :: 0 <= j < |r| ==> isValid(r[j])
  {
    if airports == [] then []
    else (if isValid(airports[0]) then [airports[0]] else []) + FilterValid(airports[1..], isValid)
  }

  /** An airport is kept exactly when it is in the input and valid. */
  lemma {:induction false} FilterValidMembers(airports: seq<string>, isValid: string -> bool, a: string)
    ensures a in FilterValid(airports, isValid) <==> a in airports && isValid(a)
  {
    if airports != [] {
      FilterValidMembers(airports[1..], isValid, a);
      assert airports == [airports[0]] + airports[1..];
    }
  }

  /** Filtering keeps order: the filter of a concatenation is the concatenation of the filters. */
  lemma {:induction false} FilterValidConcat(a: seq<string>, b: seq<string>, isValid: string -> bool)
    ensures FilterValid(a + b, isValid) == FilterValid(a, isValid) + FilterValid(b, isValid)
  {
    if a != [] {
      assert (a + b)[1..] == a[1..] + b;
      FilterValidConcat(a[1..], b, isValid);
    } else {
      assert a + b == b;
    }
  }

  /** When every airport is valid nothing is dropped. */
  lemma {:induction false} FilterValidAllValid(airports: seq<string>, isValid: string -> bool)
    requires forall j :: 0 <= j < |airports| ==> isValid(airports[j])
    ensures FilterValid(airports, isValid) == airports
  {
    if airports != [] {
      FilterValidAllValid(airports[1..], isValid);
    }
  }

  datatype WeatherRecord = WeatherRecord(airport: string, weather: string)

  datatype ResponseBody = ErrorBody(error: string) | BriefingBody(report: string, route: seq<string>)

  datatype Response = Response(status: nat, body: ResponseBody)

  /** One paragraph per weather record. */
  function Paragraph(w: WeatherRecord): string {
    "<p>" + w.airport + ": " + w.weather + "</p>"
  }

  function Paragraphs(ws: seq<WeatherRecord>): string {
    if ws == [] then "" else Paragraphs(ws[..|ws| - 1]) + Paragraph(ws[|ws| - 1])
  }

  /** A `<div class="...">` opening tag. */
  function DivOpen(cls: string): string {
    "<div class=\"" + cls + "\">"
  }

  const DivClose := "</div>"

  /** A classed div around some content. */
  function Div(cls: string, content: string): string {
    DivOpen(cls) + content + DivClose
  }

  const SummaryDiv := Div("summary", "Flight Briefing Summary")

  function RegionDiv(region: string): string {
    Div("region", "Region: " + region)
  }

  function HazardDiv(hazard: string): string {
    Div("hazard", "Hazard: " + hazard)
  }

  /** The report as `generateBriefingContent` assembles it. */
  function BriefingReport(ws: seq<WeatherRecord>, region: string, hazard: string): string {
    SummaryDiv + Div("weather-data", Paragraphs(ws)) + RegionDiv(region) + HazardDiv(hazard)
  }

  /** `generateBriefingContent`: the report grown with `+=`. */
  method GenerateBriefingContent(weatherData: seq<WeatherRecord>, region: string, hazard: string) returns (report: string)
    ensures report == BriefingReport(weatherData, region, hazard)
  {
    report := SummaryDiv;
    report := report + DivOpen("weather-data");
    for k := 0 to |weatherData|
      invariant report == SummaryDiv + DivOpen("weather-data") + Paragraphs(weatherData[..k])
    {
      ParagraphsStep(SummaryDiv + DivOpen("weather-data"), weatherData, k);
      report := report + Paragraph(weatherData[k]);
    }
    assert weatherData[..|weatherData|] == weatherData;
    report := report + DivClose;
    report := report + RegionDiv(region);
    report := report + HazardDiv(hazard);
    ReportAssembled(SummaryDiv, DivOpen("weather-data"), Paragraphs(weatherData), DivClose, RegionDiv(region), HazardDiv(hazard));
  }

  /** Appending record k's paragraph extends the paragraphs of the first k records. */
  lemma ParagraphsStep(head: string, ws: seq<WeatherRecord>, k: nat)
    requires k < |ws|
    ensures head + Paragraphs(ws[..k]) + Paragraph(ws[k]) == head + Paragraphs(ws[..k + 1])
  {
    assert ws[..k + 1][..k] == ws[..k];
    assert ws[..k + 1][k] == ws[k];
    assert Paragraphs(ws[..k + 1]) == Paragraphs(ws[..k]) + Paragraph(ws[k]);
  }

  /** The six appended pieces group into the summary, the data div, the region div and the hazard div. */
  lemma ReportAssembled(a: string, b: string, c: string, d: string, e: string, f: string)
    ensures a + b + c + d + e + f == a + (b + c + d) + e + f
  {
  }

  /** Number of occurrences of a character. */
  function CountChar(s: string, c: char): nat {
    if s == [] then 0 else (if s[0] == c then 1 else 0) + CountChar(s[1..], c)
  }

  lemma {:induction false} CountCharConcat(a: string, b: string, c: char)
    ensures CountChar(a + b, c) == CountChar(a, c) + CountChar(b, c)
  {
    if a != [] {
      assert (a + b)[1..] == a[1..] + b;
      CountCharConcat(a[1..], b, c);
    } else {
      assert a + b == b;
    }
  }

  /** Text without the character counts zero of it. */
  lemma {:induction false} CountCharAbsent(s: string, c: char)
    requires c !in s
    ensures CountChar(s, c) == 0
  {
    if s != [] {
      CountCharAbsent(s[1..], c);
    }
  }

  predicate Plain(s: string) {
    '<' !in s
  }

  /** A record whose fields contain no markup adds exactly two tags: `<p>` and `</p>`. */
  lemma ParagraphTags(w: WeatherRecord)
    requires Plain(w.airport) && Plain(w.weather)
    ensures CountChar(Paragraph(w), '<') == 2
  {
    CountCharConcat("<p>" + w.airport + ": " + w.weather, "</p>", '<');
    CountCharConcat("<p>" + w.airport + ": ", w.weather, '<');
    CountCharConcat("<p>" + w.airport, ": ", '<');
    CountCharConcat("<p>", w.airport, '<');
    CountCharAbsent(w.airport, '<');
    CountCharAbsent(w.weather, '<');
    assert CountChar(": ", '<') == 0;
  }

  /** Each record contributes its paragraph, and only that. */
  lemma {:induction false} ParagraphTagsAll(ws: seq<WeatherRecord>)
    requires forall j :: 0 <= j < |ws| ==> Plain(ws[j].airport) && Plain(ws[j].weather)
    ensures CountChar(Paragraphs(ws), '<') == 2 * |ws|
  {
    if ws != [] {
      ParagraphTagsAll(ws[..|ws| - 1]);
      CountCharConcat(Paragraphs(ws[..|ws| - 1]), Paragraph(ws[|ws| - 1]), '<');
      ParagraphTags(ws[|ws| - 1]);
    }
  }

  /** The report begins with the summary div and ends with the region div then the hazard div. */
  lemma ReportFrame(ws: seq<WeatherRecord>, region: string, hazard: string)
    ensures BriefingReport(ws, region, hazard)[..|SummaryDiv|] == SummaryDiv
    ensures var r := BriefingReport(ws, region, hazard);
      var tail := RegionDiv(region) + HazardDiv(hazard);
      |tail| <= |r| && r[|r| - |tail|..] == tail
  {
    var r := BriefingReport(ws, region, hazard);
    var head := SummaryDiv + Div("weather-data", Paragraphs(ws));
    assert r == head + (RegionDiv(region) + HazardDiv(hazard));
  }

  /**
   * With markup-free records, region and hazard the report holds exactly
   * 8 + 2n tag openings for n records: the four divs' tags and one pair per
   * paragraph.
   */
  lemma ReportTagCount(ws: seq<WeatherRecord>, region: string, hazard: string)
    requires forall j :: 0 <= j < |ws| ==> Plain(ws[j].airport) && Plain(ws[j].weather)
    requires Plain(region) && Plain(hazard)
    ensures CountChar(BriefingReport(ws, region, hazard), '<') == 8 + 2 * |ws|
  {
    SummaryTags();
    DataTags(ws);
    RegionTags(region);
    HazardTags(hazard);
    CountCharFour(SummaryDiv, Div("weather-data", Paragraphs(ws)), RegionDiv(region), HazardDiv(hazard), '<');
  }

  lemma DataTags(ws: seq<WeatherRecord>)
    requires forall j :: 0 <= j < |ws| ==> Plain(ws[j].airport) && Plain(ws[j].weather)
    ensures CountChar(Div("weather-data", Paragraphs(ws)), '<') == 2 + 2 * |ws|
  {
    ParagraphTagsAll(ws);
    DataClassPlain();
    DivTags("weather-data", Paragraphs(ws));
  }

  lemma DataClassPlain()
    ensures Plain("weather-data")
  {
  }

  lemma RegionTags(region: string)
    requires Plain(region)
    ensures CountChar(RegionDiv(region), '<') == 2
  {
    LabelledTags("region", "Region: ", region);
  }

  lemma HazardTags(hazard: string)
    requires Plain(hazard)
    ensures CountChar(HazardDiv(hazard), '<') == 2
  {
    LabelledTags("hazard", "Hazard: ", hazard);
  }

  /** The count over four concatenated parts is the sum of the parts' counts. */
  lemma CountCharFour(a: string, b: string, c: string, d: string, ch: char)
    ensures CountChar(a + b + c + d, ch) == CountChar(a, ch) + CountChar(b, ch) + CountChar(c, ch) + CountChar(d, ch)
  {
    CountCharConcat(a + b + c, d, ch);
    CountCharConcat(a + b, c, ch);
    CountCharConcat(a, b, ch);
  }

  lemma SummaryTags()
    ensures CountChar(SummaryDiv, '<') == 2
  {
    PlainDivTags("summary", "Flight Briefing Summary");
  }

  /** A div with a plain class adds two '<' to those of its content. */
  lemma DivTags(cls: string, content: string)
    requires Plain(cls)
    ensures CountChar(Div(cls, content), '<') == 2 + CountChar(content, '<')
  {
    var lead := "<div class=\"";
    CountCharAbsent(lead[1..], '<');
    CountCharAbsent("\">", '<');
    CountCharAbsent(cls, '<');
    CountCharAbsent(DivClose[1..], '<');
    CountCharConcat(lead + cls, "\">", '<');
    CountCharConcat(lead, cls, '<');
    CountCharConcat(DivOpen(cls) + content, DivClose, '<');
    CountCharConcat(DivOpen(cls), content, '<');
  }

  /** A div holding plain text holds two '<'. */
  lemma PlainDivTags(cls: string, text: string)
    requires Plain(cls) && Plain(text)
    ensures CountChar(Div(cls, text), '<') == 2
  {
    DivTags(cls, text);
    CountCharAbsent(text, '<');
  }

  /** A div holding a plain caption and a plain value holds two '<'. */
  lemma LabelledTags(cls: string, caption: string, value: string)
    requires Plain(cls) && Plain(caption) && Plain(value)
    ensures CountChar(Div(cls, caption + value), '<') == 2
  {
    PlainDivTags(cls, caption + value);
  }

  /**
   * The `/generate-briefing` handler: `isValid` is the airport service's
   * test, `fetch` the weather request (None when it throws).
   */
  function GenerateBriefing(airports: seq<string>, region: string, hazard: string,
                            isValid: string -> bool, fetch: seq<string> -> Option<seq<WeatherRecord>>): (r: Response)
    ensures r.status == 200 || r.status == 400 || r.status == 500
    ensures r.status == 200 <==> r.body.BriefingBody?
    ensures r.body.BriefingBody? ==> r.body.route != [] && forall a :: a in r.body.route ==> a in airports && isValid(a)
  {
    FilterValidSound(airports, isValid);
    var validAirports := FilterValid(airports, isValid);
    if |validAirports| == 0 then Response(400, ErrorBody("No valid airport codes provided."))
    else
      match fetch(validAirports)
      case None => Response(500, ErrorBody("Failed to generate briefing."))
      case Some(weatherData) =>
        Response(200, BriefingBody(BriefingReport(weatherData, region, hazard), validAirports))
  }

  /**
   * 400 exactly when no airport is valid; otherwise 500 exactly when the
   * fetch fails; a success returns the filtered airports as the route.
   */
  lemma GenerateBriefingOutcomes(airports: seq<string>, region: string, hazard: string,
                                 isValid: string -> bool, fetch: seq<string> -> Option<seq<WeatherRecord>>)
    ensures GenerateBriefing(airports, region, hazard, isValid, fetch).status == 400 <==>
      forall j :: 0 <= j < |airports| ==> !isValid(airports[j])
    ensures GenerateBriefing(airports, region, hazard, isValid, fetch).status == 500 <==>
      FilterValid(airports, isValid) != [] && fetch(FilterValid(airports, isValid)).None?
    ensures GenerateBriefing(airports, region, hazard, isValid, fetch).status == 200 ==>
      var body := GenerateBriefing(airports, region, hazard, isValid, fetch).body;
      body.BriefingBody? && body.route == FilterValid(airports, isValid) &&
      forall a :: a in body.route ==> a in airports && isValid(a)
  {
    NothingValidIffEmpty(airports, isValid);
    FilterValidSound(airports, isValid);
  }

  /** The filter is empty exactly when no airport is valid. */
  lemma NothingValidIffEmpty(airports: seq<string>, isValid: string -> bool)
    ensures FilterValid(airports, isValid) == [] <==> forall j :: 0 <= j < |airports| ==> !isValid(airports[j])
  {
    if exists j :: 0 <= j < |airports| && isValid(airports[j]) {
      var j :| 0 <= j < |airports| && isValid(airports[j]);
      FilterValidMembers(airports, isValid, airports[j]);
    }
  }

  /** Every kept airport is an input airport that is valid. */
  lemma FilterValidSound(airports: seq<string>, isValid: string -> bool)
    ensures forall a :: a in FilterValid(airports, isValid) ==> a in airports && isValid(a)
  {
    forall a | a in FilterValid(airports, isValid) ensures a in airports && isValid(a) {
      FilterValidMembers(airports, isValid, a);
    }
  }
}
