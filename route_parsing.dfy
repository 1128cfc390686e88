/**
 * Route strings such as "KPHX,5000,KBXK,7000": comma-separated items where
 * item 2k is an airport code and item 2k+1 its altitude. The classic page
 * parses them with JavaScript `parseInt` and drops a pair whose altitude is
 * not a number; the server parses them with Python `int` and keeps the
 * airport without an altitude. Both record the altitude of each code in a
 * map, so a repeated code keeps the last altitude given for it.
 */
module RouteParsing {
  import opened Wrappers
  import opened Text
  import opened Numbers

  /** A complete pair as read: the normalised code and the altitude the parser gave. */
  datatype Entry = Entry(code: string, altitude: Option<int>)

  /** Codes are trimmed and upper-cased, with the whitespace rule of the side that reads them. */
  function NormalizeCode(lang: Language, item: string): string {
    Upper(Trim(lang, item))
  }

  /** The altitude parser of each side: `parseInt` on the page, `int` on the server. */
  function ParseAltitude(lang: Language, field: string): Option<int> {
    match lang
    case JavaScript => ParseInt(field)
    case Python => PyInt(field)
  }

  /** One entry per complete pair of items; an unpaired trailing item has none. */
  function Entries(items: seq<string>, lang: Language): seq<Entry> {
    seq(PairTotal(|items|), k requires 0 <= k < PairTotal(|items|) => ReadPair(items[2 * k], items[2 * k + 1], lang))
  }

  /** The number of complete pairs among n items. */
  function PairTotal(n: nat): (r: nat)
    ensures 2 * r <= n <= 2 * r + 1
  {
    n / 2
  }

  /** One pair as read: the normalised code and the parsed, trimmed altitude field. */
  function ReadPair(code: string, field: string, lang: Language): Entry {
    Entry(NormalizeCode(lang, code), ParseAltitude(lang, Trim(lang, field)))
  }

  /** The codes of the entries whose altitude parsed, in order (the classic page). */
  function KeptCodes(es: seq<Entry>): seq<string> {
    if es == [] then []
    else
      var last := es[|es| - 1];
      KeptCodes(es[..|es| - 1]) + (if last.altitude.Some? then [last.code] else [])
  }

  /** Every entry's code, in order (the server). */
  function AllCodes(es: seq<Entry>): seq<string> {
    seq(|es|, k requires 0 <= k < |es| => es[k].code)
  }

  /** The altitude map filled entry by entry; an entry without an altitude writes nothing. */
  function AltitudeMap(es: seq<Entry>): map<string, int> {
    if es == [] then map[]
    else
      var m := AltitudeMap(es[..|es| - 1]);
      var last := es[|es| - 1];
      if last.altitude.Some? then m[last.code := last.altitude.value] else m
  }

  /** A code is mapped exactly when one of its entries has an altitude ... */
  lemma {:induction false} AltitudeMapKeys(es: seq<Entry>, c: string)
    ensures c in AltitudeMap(es) <==> exists k :: 0 <= k < |es| && es[k].code == c && es[k].altitude.Some?
  {
    if es != [] {
      var init := es[..|es| - 1];
      AltitudeMapKeys(init, c);
      if exists k :: 0 <= k < |init| && init[k].code == c && init[k].altitude.Some? {
        var k :| 0 <= k < |init| && init[k].code == c && init[k].altitude.Some?;
        assert es[k] == init[k];
      }
      if exists k :: 0 <= k < |es| && es[k].code == c && es[k].altitude.Some? {
        var k :| 0 <= k < |es| && es[k].code == c && es[k].altitude.Some?;
        if k < |init| {
          assert init[k] == es[k];
        }
      }
    }
  }

  /** ... and maps to the altitude of the last such entry. */
  lemma {:induction false} AltitudeMapLastWins(es: seq<Entry>, k: nat)
    requires k < |es| && es[k].altitude.Some?
    requires forall j :: k < j < |es| ==> es[j].code != es[k].code || es[j].altitude.None?
    ensures es[k].code in AltitudeMap(es)
    ensures AltitudeMap(es)[es[k].code] == es[k].altitude.value
  {
    if k < |es| - 1 {
      var init := es[..|es| - 1];
      assert init[k] == es[k];
      AltitudeMapLastWins(init, k);
    }
  }

  /** Keeping only parsed pairs never adds codes: the classic list is at most the server's length. */
  lemma {:induction false} KeptCodesAtMost(es: seq<Entry>)
    ensures |KeptCodes(es)| <= |AllCodes(es)|
  {
    if es != [] {
      KeptCodesAtMost(es[..|es| - 1]);
    }
  }

  /** When every altitude parsed, nothing is dropped. */
  lemma {:induction false} KeptCodesAllParsed(es: seq<Entry>)
    requires forall k :: 0 <= k < |es| ==> es[k].altitude.Some?
    ensures KeptCodes(es) == AllCodes(es)
  {
    if es != [] {
      var init := es[..|es| - 1];
      KeptCodesAllParsed(init);
      assert AllCodes(es) == AllCodes(init) + [es[|es| - 1].code];
    }
  }

  /** Every kept code is the code of some entry with a parsed altitude. */
  lemma {:induction false} KeptCodesMembers(es: seq<Entry>, c: string)
    ensures c in KeptCodes(es) <==> exists k :: 0 <= k < |es| && es[k].code == c && es[k].altitude.Some?
  {
    if es != [] {
      var init, last := es[..|es| - 1], es[|es| - 1];
      KeptCodesMembers(init, c);
      assert KeptCodes(es) == KeptCodes(init) + (if last.altitude.Some? then [last.code] else []);
      if c in KeptCodes(init) {
        var k :| 0 <= k < |init| && init[k].code == c && init[k].altitude.Some?;
        assert es[k] == init[k];
      }
      if exists k :: 0 <= k < |es| && es[k].code == c && es[k].altitude.Some? {
        var k :| 0 <= k < |es| && es[k].code == c && es[k].altitude.Some?;
        if k < |init| {
          assert init[k] == es[k];
        }
      }
    }
  }

  /** Reading one more entry extends each fold by that entry. */
  lemma PrefixStep(es: seq<Entry>, k: nat)
    requires k < |es|
    ensures KeptCodes(es[..k + 1]) == KeptCodes(es[..k]) + (if es[k].altitude.Some? then [es[k].code] else [])
    ensures AllCodes(es[..k + 1]) == AllCodes(es[..k]) + [es[k].code]
    ensures AltitudeMap(es[..k + 1]) ==
      if es[k].altitude.Some? then AltitudeMap(es[..k])[es[k].code := es[k].altitude.value] else AltitudeMap(es[..k])
  {
    assert es[..k + 1][..k] == es[..k];
    assert es[..k + 1][k] == es[k];
  }

  /** Entry k of the route, as the loop body computes it. */
  lemma EntryAt(items: seq<string>, lang: Language, k: nat)
    requires 2 * k + 1 < |items|
    ensures k < |Entries(items, lang)|
    ensures Entries(items, lang)[k] == ReadPair(items[2 * k], items[2 * k + 1], lang)
  {
    PairCount(items, lang);
    assert k < |Entries(items, lang)|;
  }

  /**
   * Reading the pair at item i = 2k extends each fold by the pair's code and
   * altitude, stated on the very terms the loop body computes.
   */
  lemma ReadStep(items: seq<string>, lang: Language, i: nat, k: nat)
    requires i == 2 * k && i + 1 < |items|
    ensures k < |Entries(items, lang)|
    ensures KeptCodes(Entries(items, lang)[..k + 1]) ==
      KeptCodes(Entries(items, lang)[..k]) +
        (if ParseAltitude(lang, Trim(lang, items[i + 1])).Some? then [NormalizeCode(lang, items[i])] else [])
    ensures AllCodes(Entries(items, lang)[..k + 1]) == AllCodes(Entries(items, lang)[..k]) + [NormalizeCode(lang, items[i])]
    ensures AltitudeMap(Entries(items, lang)[..k + 1]) ==
      if ParseAltitude(lang, Trim(lang, items[i + 1])).Some? then
        AltitudeMap(Entries(items, lang)[..k])[NormalizeCode(lang, items[i]) := ParseAltitude(lang, Trim(lang, items[i + 1])).value]
      else AltitudeMap(Entries(items, lang)[..k])
  {
    EntryAt(items, lang, k);
    PrefixStep(Entries(items, lang), k);
  }

  /** The number of complete pairs, without division. */
  lemma PairCount(items: seq<string>, lang: Language)
    ensures 2 * |Entries(items, lang)| <= |items| <= 2 * |Entries(items, lang)| + 1
  {
  }

  /** The classic page's stepped loop over the items. */
  method ClassicParseRoute(items: seq<string>) returns (airports: seq<string>, altitudes: map<string, int>)
    ensures airports == KeptCodes(Entries(items, JavaScript))
    ensures altitudes == AltitudeMap(Entries(items, JavaScript))
  {
    ghost var es := Entries(items, JavaScript);
    airports := [];
    altitudes := map[];
    PairCount(items, JavaScript);
    var i := 0;
    ghost var read := 0;
    while i < |items|
      invariant 0 <= read <= |es|
      invariant i == 2 * read || (i == 2 * read + 2 && 2 * read + 1 == |items|)
      invariant airports == KeptCodes(es[..read])
      invariant altitudes == AltitudeMap(es[..read])
    {
      if i + 1 < |items| {
        var airport := NormalizeCode(JavaScript, items[i]);
        var altitude := ParseInt(Trim(JavaScript, items[i + 1]));
        ReadStep(items, JavaScript, i, read);
        if altitude.Some? {
          airports := airports + [airport];
          altitudes := altitudes[airport := altitude.value];
        }
        read := read + 1;
      }
      i := i + 2;
    }
    assert es[..read] == es;
  }

  /** The server's stepped loop: an altitude `int` rejects still keeps the airport. */
  method ServerParseRoute(items: seq<string>) returns (airports: seq<string>, altitudes: map<string, int>)
    ensures airports == AllCodes(Entries(items, Python))
    ensures altitudes == AltitudeMap(Entries(items, Python))
  {
    ghost var es := Entries(items, Python);
    airports := [];
    altitudes := map[];
    PairCount(items, Python);
    var i := 0;
    ghost var read := 0;
    while i < |items|
      invariant 0 <= read <= |es|
      invariant i == 2 * read || (i == 2 * read + 2 && 2 * read + 1 == |items|)
      invariant airports == AllCodes(es[..read])
      invariant altitudes == AltitudeMap(es[..read])
    {
      if i + 1 < |items| {
        var airport := NormalizeCode(Python, items[i]);
        var altitude := PyInt(Trim(Python, items[i + 1]));
        ReadStep(items, Python, i, read);
        match altitude {
          case Some(value) =>
            airports := airports + [airport];
            altitudes := altitudes[airport := value];
          case None =>
            airports := airports + [airport];
        }
        read := read + 1;
      }
      i := i + 2;
    }
    assert es[..read] == es;
  }

  /** The request the classic page posts: the whole trimmed route string and the SIGMET options. */
  datatype BriefingRequest = BriefingRequest(airports: string, region: string, hazard: string)

  datatype ClassicOutcome =
    | Alert(message: string)
    | Post(request: BriefingRequest, airports: seq<string>, altitudes: map<string, int>)

  /** What `generateBriefing` on the classic page does with the route field. */
  function ClassicBriefing(routeInput: string, region: string, hazard: string): ClassicOutcome {
    var routeString := Trim(JavaScript, routeInput);
    if routeString == [] then Alert("Please enter your route with altitudes")
    else
      var es := Entries(Split(routeString, ','), JavaScript);
      if KeptCodes(es) == [] then Alert("Please enter valid airport codes and altitudes")
      else Post(BriefingRequest(routeString, region, hazard), KeptCodes(es), AltitudeMap(es))
  }

  method ClassicGenerateBriefing(routeInput: string, region: string, hazard: string) returns (outcome: ClassicOutcome)
    ensures outcome == ClassicBriefing(routeInput, region, hazard)
  {
    var routeString := Trim(JavaScript, routeInput);
    if routeString == [] {
      return Alert("Please enter your route with altitudes");
    }
    var routeItems := Split(routeString, ',');
    var airports, altitudes := ClassicParseRoute(routeItems);
    if |airports| == 0 {
      return Alert("Please enter valid airport codes and altitudes");
    }
    return Post(BriefingRequest(routeString, region, hazard), airports, altitudes);
  }

  /**
   * A request is posted only with at least one airport, every posted airport
   * has its altitude in the map, and the server receives the route text
   * itself, not the page's parse of it.
   */
  lemma ClassicPostHasAltitudes(routeInput: string, region: string, hazard: string)
    requires ClassicBriefing(routeInput, region, hazard).Post?
    ensures ClassicBriefing(routeInput, region, hazard).airports != []
    ensures forall c :: c in ClassicBriefing(routeInput, region, hazard).airports ==>
      c in ClassicBriefing(routeInput, region, hazard).altitudes
    ensures ClassicBriefing(routeInput, region, hazard).request.airports == Trim(JavaScript, routeInput)
  {
    var es := Entries(Split(Trim(JavaScript, routeInput), ','), JavaScript);
    forall c | c in KeptCodes(es) ensures c in AltitudeMap(es) {
      KeptCodesMembers(es, c);
      AltitudeMapKeys(es, c);
    }
  }

  /** The server's result for a route: an error or the parsed route with its display lines. */
  datatype RouteResult =
    | RouteError(error: string)
    | Route(airports: seq<string>, altitudes: map<string, int>, routeInfo: seq<string>)

  /** One display line: "CODE at Nft" when the code has an altitude, else "CODE". */
  function RouteInfoEntry(code: string, altitudes: map<string, int>): string {
    if code in altitudes then code + " at " + IntToString(altitudes[code]) + "ft" else code
  }

  /** The loop appending one display line per airport. */
  method BuildRouteInfo(airports: seq<string>, altitudes: map<string, int>) returns (routeInfo: seq<string>)
    ensures |routeInfo| == |airports|
    ensures forall k :: 0 <= k < |airports| ==> routeInfo[k] == RouteInfoEntry(airports[k], altitudes)
  {
    routeInfo := [];
    for k := 0 to |airports|
      invariant |routeInfo| == k
      invariant forall j :: 0 <= j < k ==> routeInfo[j] == RouteInfoEntry(airports[j], altitudes)
    {
      var altitudeText := if airports[k] in altitudes then " at " + IntToString(altitudes[airports[k]]) + "ft" else "";
      routeInfo := routeInfo + [airports[k] + altitudeText];
    }
  }

  /** `route_briefing` up to the per-airport weather fetches. */
  function RouteBriefing(routeInput: string): RouteResult {
    if routeInput == [] then RouteError("No route provided")
    else
      var es := Entries(Split(routeInput, ','), Python);
      if AllCodes(es) == [] then RouteError("No valid airports provided")
      else
        var altitudes := AltitudeMap(es);
        Route(AllCodes(es), altitudes,
          seq(|es|, k requires 0 <= k < |es| => RouteInfoEntry(es[k].code, altitudes)))
  }

  method ServerRouteBriefing(routeInput: string) returns (result: RouteResult)
    ensures result == RouteBriefing(routeInput)
  {
    if routeInput == [] {
      return RouteError("No route provided");
    }
    var routeItems := Split(routeInput, ',');
    var airports, altitudes := ServerParseRoute(routeItems);
    if |airports| == 0 {
      return RouteError("No valid airports provided");
    }
    var routeInfo := BuildRouteInfo(airports, altitudes);
    return Route(airports, altitudes, routeInfo);
  }

  /**
   * The server rejects a non-empty route exactly when it has no comma: any
   * comma gives a complete pair, and every pair keeps its airport.
   */
  lemma ServerRejectsOnlyCommaFree(routeInput: string)
    ensures RouteBriefing(routeInput) == RouteError("No route provided") <==> routeInput == []
    ensures RouteBriefing(routeInput) == RouteError("No valid airports provided") <==>
      routeInput != [] && ',' !in routeInput
  {
    SplitHasSeveralFields(routeInput, ',');
  }

  /** The server keeps one airport per complete pair. */
  lemma ServerAirportCount(routeInput: string)
    requires RouteBriefing(routeInput).Route?
    ensures |RouteBriefing(routeInput).airports| == |Split(routeInput, ',')| / 2
    ensures |RouteBriefing(routeInput).routeInfo| == |RouteBriefing(routeInput).airports|
  {
  }

  /**
   * Two occurrences of the same code show the same display line: the last
   * altitude recorded for that code.
   */
  lemma RepeatedCodeSameLine(routeInput: string, j: nat, k: nat)
    requires RouteBriefing(routeInput).Route?
    requires j < |RouteBriefing(routeInput).airports| && k < |RouteBriefing(routeInput).airports|
    requires RouteBriefing(routeInput).airports[j] == RouteBriefing(routeInput).airports[k]
    ensures RouteBriefing(routeInput).routeInfo[j] == RouteBriefing(routeInput).routeInfo[k]
  {
  }

  /**
   * When no item holds an information separator and every altitude field is
   * a plain integer, the page and the server read the same route.
   */
  lemma {:induction false} ParsersAgreeOnPlainRoute(items: seq<string>)
    requires forall k :: 0 <= k < |items| ==> NoSeparatorControl(items[k])
    requires forall k :: 0 <= k < |items| / 2 ==> IsPlainInteger(Trim(JavaScript, items[2 * k + 1]))
    ensures Entries(items, JavaScript) == Entries(items, Python)
    ensures KeptCodes(Entries(items, JavaScript)) == AllCodes(Entries(items, Python))
  {
    var es, ps := Entries(items, JavaScript), Entries(items, Python);
    assert |es| == |ps| == |items| / 2;
    forall k | 0 <= k < |es| ensures es[k] == ps[k] && es[k].altitude.Some? {
      PlainEntryAgrees(items, k);
    }
    assert es == ps;
    KeptCodesAllParsed(es);
  }

  /** Entry k reads the same on both sides when its items trim alike and its altitude is a plain integer. */
  lemma PlainEntryAgrees(items: seq<string>, k: nat)
    requires 2 * k + 1 < |items| && NoSeparatorControl(items[2 * k]) && NoSeparatorControl(items[2 * k + 1])
    requires IsPlainInteger(Trim(JavaScript, items[2 * k + 1]))
    ensures k < |Entries(items, JavaScript)| && k < |Entries(items, Python)|
    ensures Entries(items, JavaScript)[k] == Entries(items, Python)[k]
    ensures Entries(items, JavaScript)[k].altitude.Some?
  {
    EntryAt(items, JavaScript, k);
    EntryAt(items, Python, k);
    TrimLanguagesAgree(items[2 * k]);
    TrimLanguagesAgree(items[2 * k + 1]);
    ParsersAgreeOnPlainIntegers(Trim(JavaScript, items[2 * k + 1]));
  }

  /**
   * A unit after the altitude (as in "5000ft") splits the two sides: the page
   * keeps the pair with the printed altitude, the server keeps the airport
   * without an altitude.
   */
  lemma TrailingUnitEntries(code: string, altitude: int, unit: string)
    requires IsUnit(unit)
    ensures Entries([code, IntToString(altitude) + unit], JavaScript) == [Entry(NormalizeCode(JavaScript, code), Some(altitude))]
    ensures Entries([code, IntToString(altitude) + unit], Python) == [Entry(NormalizeCode(Python, code), None)]
  {
    var field := IntToString(altitude) + unit;
    PairEntry(code, field, JavaScript);
    PairEntry(code, field, Python);
    TrailingUnitFields(altitude, unit);
  }

  /** The two sides' reading of a printed integer followed by a unit. */
  lemma TrailingUnitFields(altitude: int, unit: string)
    requires IsUnit(unit)
    ensures ParseAltitude(JavaScript, Trim(JavaScript, IntToString(altitude) + unit)) == Some(altitude)
    ensures ParseAltitude(Python, Trim(Python, IntToString(altitude) + unit)) == None
  {
    var field := IntToString(altitude) + unit;
    PrintedUnitShape(altitude, unit);
    TrailingUnitSplitsParsers(altitude, unit);
    Unpadded(JavaScript, field);
  }

  /** A route of one pair has one entry. */
  lemma PairEntry(code: string, altitude: string, lang: Language)
    ensures Entries([code, altitude], lang) == [ReadPair(code, altitude, lang)]
  {
    EntryAt([code, altitude], lang, 0);
  }

  /** Both sides list the airport; only the page records its altitude. */
  lemma TrailingUnitRoute(code: string, altitude: int, unit: string)
    requires IsUnit(unit)
    ensures KeptCodes(Entries([code, IntToString(altitude) + unit], JavaScript)) == [NormalizeCode(JavaScript, code)]
    ensures AllCodes(Entries([code, IntToString(altitude) + unit], Python)) == [NormalizeCode(Python, code)]
    ensures AltitudeMap(Entries([code, IntToString(altitude) + unit], JavaScript)) == map[NormalizeCode(JavaScript, code) := altitude]
    ensures AltitudeMap(Entries([code, IntToString(altitude) + unit], Python)) == map[]
  {
    TrailingUnitEntries(code, altitude, unit);
    SingleEntry(Entry(NormalizeCode(JavaScript, code), Some(altitude)));
    SingleEntry(Entry(NormalizeCode(Python, code), None));
  }

  /**
   * An information separator before the altitude splits the sides the other
   * way: the page drops the pair, the server keeps the airport with its altitude.
   */
  lemma SeparatorAltitudeRoute(code: string, altitude: int)
    ensures KeptCodes(Entries([code, "\U{001F}" + IntToString(altitude)], JavaScript)) == []
    ensures AllCodes(Entries([code, "\U{001F}" + IntToString(altitude)], Python)) == [NormalizeCode(Python, code)]
    ensures AltitudeMap(Entries([code, "\U{001F}" + IntToString(altitude)], Python)) == map[NormalizeCode(Python, code) := altitude]
  {
    var p := IntToString(altitude);
    var field := "\U{001F}" + p;
    PrintedIsPlain(altitude);
    PlainNoSeparator(p);
    PlainIntegerUnpadded(p);
    SeparatorTrimmedByPythonOnly(p);
    SeparatorBeforeNumberSplitsParsers(altitude);
    ParseIntToString(altitude);
    PairEntry(code, field, JavaScript);
    PairEntry(code, field, Python);
    SingleEntry(Entry(NormalizeCode(JavaScript, code), None));
    SingleEntry(Entry(NormalizeCode(Python, code), Some(altitude)));
  }

  lemma SingleEntry(e: Entry)
    ensures KeptCodes([e]) == if e.altitude.Some? then [e.code] else []
    ensures AllCodes([e]) == [e.code]
    ensures AltitudeMap([e]) == if e.altitude.Some? then map[e.code := e.altitude.value] else map[]
  {
    assert [e][..0] == [];
  }

  /** `parseInt` reads the altitude back from a display line, stopping at "ft". */
  lemma RouteInfoAltitudeReadsBack(code: string, altitudes: map<string, int>)
    requires code in altitudes
    ensures RouteInfoEntry(code, altitudes) == code + " at " + IntToString(altitudes[code]) + "ft"
    ensures ParseInt(RouteInfoEntry(code, altitudes)[|code| + 4..]) == Some(altitudes[code])
  {
    var line := RouteInfoEntry(code, altitudes);
    var n := IntToString(altitudes[code]);
    assert line[|code| + 4..] == n + "ft";
    ParseIntBeforeUnit(altitudes[code], "ft");
  }
}
