# Flight briefing: route parsing, briefing sections, severity and form state

This project is a Dafny model of the decision logic behind a pilot-briefing web application. A pilot enters a route such as `KPHX,5000,KBXK,7000`. The application parses the route and asks the server for weather, and a language model writes an HTML briefing in six sections. The page files those sections into six tiles and colours list items by severity.

There are two front ends. The classic page is `static/flight_plan.js`, served by the Flask server `weather_app.py`. The planner is `flight-planner/`: a page script, a React form, an airport service and an Express briefing route.

The model covers:

- **Route parsing, twice.** The classic page uses JavaScript `parseInt` and drops a pair whose altitude is rejected. The Flask server uses Python `int()` and keeps the airport without an altitude. Both are stepped loops, proved against the same pair list (`RouteParsing`).
- **Section extraction.** Code fences are stripped, then each of the six tiles is filled from the first element carrying its class, or else from the n-th `section`. The parsed HTML is abstracted as a list of elements in document order (`BriefingSections`).
- **Severity styling, in both versions.** It is an in-place pass over an array of list items. The classic version checks explicit tags first and has larger keyword lists; the planner version has smaller lists and no tag step (`Severity`, over the generic first-match rules of `KeywordRules`).
- **The airport rows of the planner page.** They are a class whose methods add, remove and relabel rows (`AirportRows`). The React form keeps the same list immutably (`FlightForm`).
- **The planner's submitted codes and its route map filtering** (`PlannerBriefing`).
- **The Express `/generate-briefing` handler and its HTML report** (`BriefingGenerator`).
- **The airport service lookups** (`AirportService`).
- **The Flask server's PIREP/SIGMET pruning, truncation and caps** (`WeatherData`).
- **The animation choice and the weather-id hazard test** (`WeatherAnimation`).

`Text` and `Numbers` model the string builtins the sources rely on: trim, case mapping, substring search, split and join, `split()` into words, `parseInt`, `int()` and decimal printing. `Wrappers` holds `Option`, and `Sequences` the first-index search that `find` and `querySelector` share.

## Model

| member | source | states |
|---|---|---|
| RouteParsing.ClassicParseRoute | static/flight_plan.js:89-103 | the airports are the trimmed, upper-cased codes of the complete pairs whose altitude `parseInt` accepts, in order; the altitude map is folded over the same pairs |
| RouteParsing.PairCount | static/flight_plan.js:93-94 | the number of pairs is half the number of items, so a trailing unpaired item is ignored |
| RouteParsing.EntryAt | static/flight_plan.js:93-96 | pair k is the normalised item 2k with the parsed, trimmed item 2k+1 |
| RouteParsing.ReadStep | static/flight_plan.js:94-101 | reading the pair at item 2k extends the airport list and the altitude map exactly as the loop body does |
| RouteParsing.KeptCodesMembers | static/flight_plan.js:98-101 | a code is kept exactly when some pair carries it with an accepted altitude |
| RouteParsing.KeptCodesAtMost | static/flight_plan.js:98-101 | rejected pairs are dropped, so there are never more kept codes than pairs |
| RouteParsing.KeptCodesAllParsed | static/flight_plan.js:98-101 | when every altitude parses, no pair is dropped |
| RouteParsing.AltitudeMapKeys | static/flight_plan.js:100 | a code has an altitude exactly when some pair carries it with a parsed altitude |
| RouteParsing.AltitudeMapLastWins | static/flight_plan.js:100 | a repeated code maps to the altitude of its last parsed pair |
| RouteParsing.PrefixStep | static/flight_plan.js:98-101 | one more pair appends its code when the altitude parsed, and overwrites that code's altitude |
| RouteParsing.ClassicGenerateBriefing | static/flight_plan.js:79-128 | a blank route gives the first alert; zero kept pairs give the second; otherwise the trimmed route string and the options are posted |
| RouteParsing.ClassicPostHasAltitudes | static/flight_plan.js:105-125 | a posted request has at least one airport, every posted airport has an altitude, and the whole trimmed route string is sent |
| RouteParsing.ServerParseRoute | weather_app.py:169-184 | every complete pair keeps its airport; the altitude map holds only the altitudes `int()` accepts, the last one winning |
| RouteParsing.BuildRouteInfo | weather_app.py:193-196 | one display line per airport, in order, each "CODE at Nft" or "CODE" |
| RouteParsing.ServerRouteBriefing | weather_app.py:160-196 | empty input, then no airports, give the two errors; otherwise the parsed route and its display lines |
| RouteParsing.ServerRejectsOnlyCommaFree | weather_app.py:165-187 | 'No route provided' exactly for empty input; 'No valid airports provided' exactly for non-empty input without a comma |
| RouteParsing.ServerAirportCount | weather_app.py:175-196 | the server keeps one airport per complete pair and one display line per airport |
| RouteParsing.RepeatedCodeSameLine | weather_app.py:193-196 | every occurrence of a repeated code shows the same altitude, the last one recorded |
| RouteParsing.RouteInfoAltitudeReadsBack | weather_app.py:195 | the altitude printed in "CODE at Nft" parses back to the stored altitude |
| RouteParsing.ParsersAgreeOnPlainRoute | static/flight_plan.js:93-101 | when no item holds an ASCII information separator and every altitude is a plain signed decimal, the page and the server build the same pairs and the same airport list |
| RouteParsing.PlainEntryAgrees | weather_app.py:177-179 | such a pair is read the same by `trim`/`parseInt` and by `strip`/`int()` |
| RouteParsing.SeparatorAltitudeRoute | weather_app.py:175-181 | an altitude preceded by U+001F is dropped with its pair by the page, while the server keeps the airport with that altitude |
| RouteParsing.TrailingUnitRoute | weather_app.py:175-184 | when the altitude is a printed integer followed by a unit such as "ft" (as in "5000ft"), the page keeps the airport with that altitude and the server keeps the airport with no altitude |
| RouteParsing.SingleEntry | weather_app.py:175-184 | a single pair contributes its code, and its altitude when parsed |
| RouteParsing.PairEntry | static/flight_plan.js:93-96 | a two-item route is one pair |
| RouteParsing.TrailingUnitEntries | static/flight_plan.js:96 | a pair whose altitude is a printed integer followed by a unit has that integer as altitude under `parseInt` and no altitude under `int()` |
| Numbers.ParsersAgreeOnPlainIntegers | static/flight_plan.js:96 | `parseInt` and `int()` give the same value for a plain signed decimal |
| Numbers.ParseIntToString | static/flight_plan.js:96 | both parsers read back any printed integer |
| Numbers.ParseIntBeforeUnit | static/flight_plan.js:96 | `parseInt` reads a printed integer followed by a non-digit suffix as that integer |
| Numbers.TrailingUnitSplitsParsers | weather_app.py:179 | for any printed integer followed by a unit that starts with neither a digit nor an underscore and does not end in Python whitespace, `parseInt` reads the integer while `int()` fails; "5000ft" is one case |
| Numbers.SeparatorBeforeNumberSplitsParsers | weather_app.py:179 | `int()` strips a leading U+001F and reads the number, while `parseInt` does not skip it and gives NaN |
| Numbers.UnderscoreSplitsParsers | weather_app.py:179 | for non-empty digit runs a and b, `parseInt` reads "a_b" as the value of a while `int()` reads it as the value of ab; "1_000" gives 1 and 1000 |
| Numbers.NatToStringValue | weather_app.py:195 | printing a natural number gives digits whose value is that number |
| Numbers.NatToStringInjective | weather_app.py:195 | distinct altitudes print differently |
| Text.JoinSplit | static/flight_plan.js:89 | splitting on the comma and joining back gives the route string |
| Text.SplitJoin | weather_app.py:169 | splitting comma-free fields joined by commas gives those fields |
| Text.SplitHasSeveralFields | weather_app.py:169-176 | a split has a second field exactly when the separator occurs |
| Text.TrimIdempotent | static/flight_plan.js:81 | trimming twice is trimming once |
| Text.TrimLanguagesAgree | weather_app.py:177-179 | on text without the ASCII information separators, `strip` and `trim` give the same result |
| Text.SeparatorTrimmedByPythonOnly | weather_app.py:179 | a leading U+001F is stripped by Python and kept by JavaScript |
| Text.TrimStartDropsSpace | static/flight_plan.js:81 | what trimming drops at the start is whitespace only |
| Text.TrimEndDropsSpace | static/flight_plan.js:81 | what trimming drops at the end is whitespace only |
| Text.TrimStartSuffix | static/flight_plan.js:81 | what trimming keeps at the start is a suffix of the text |
| Text.TrimEndPrefix | static/flight_plan.js:81 | what trimming keeps at the end is a prefix of the text |
| Text.UpperNormal | flight-planner/src/js/airportService.js:6 | an upper-cased string has no lower-case letter, and upper-casing it again changes nothing |
| Text.WordsJoinWords | weather_app.py:122-123 | the words of words joined by single spaces are those words |
| Text.WordsSplitAtSeparator | weather_app.py:122 | `split()` separates two words at U+001F, as at a space |
| BriefingSections.CleanFencesClean | static/flight_plan.js:273-275 | the cleaned text contains no fence and has no leading or trailing whitespace |
| BriefingSections.NoFenceLeft | static/flight_plan.js:274 | removing every fence left to right leaves no "```" |
| BriefingSections.RemoveFencesPlain | static/flight_plan.js:274 | text without backticks passes through fence removal untouched |
| BriefingSections.RemoveFencesFenceFree | static/flight_plan.js:274 | fence-free text is unchanged by fence removal |
| BriefingSections.FencedBlock | static/flight_plan.js:273-275 | a block fenced with "```html" and "```" cleans to its trimmed body |
| BriefingSections.CleanFencesIdempotent | static/flight_plan.js:273-275 | cleaning twice is cleaning once |
| Sequences.FirstIndex | flight-planner/src/js/airportService.js:6 | the first index whose element passes the test, with none before it, or none when no element passes |
| BriefingSections.QuerySelector | static/flight_plan.js:278-282 | the result is the first element in document order that matches, or none when nothing matches; a class matches exactly in a standards-mode document and ASCII case-insensitively in a quirks-mode one |
| BriefingSections.ClassWins | static/flight_plan.js:278-282 | when an element carries the tile's class, as the document's mode matches classes, the found section carries it too, whatever the sections' positions |
| BriefingSections.QuirksClassIgnoresCase | static/flight_plan.js:278-282 | in `<div class="Summary">A</div><section>B</section>` the summary lookup finds the div when there is no DOCTYPE, and the section in standards mode |
| BriefingSections.PositionFallback | static/flight_plan.js:278-282 | without an element matching the class, in the document's mode, a section is found exactly when one is the n-th child |
| BriefingSections.ClassicFillTile | static/flight_plan.js:282-285 | a found section replaces the tile's content, using inner HTML or else the text; otherwise the tile keeps its content; other tiles are untouched |
| BriefingSections.NotFenceStart | static/flight_plan.js:274 | a text that does not start with a backtick starts no fence |
| BriefingSections.ClassicFillTiles | static/flight_plan.js:281-310 | the six blocks, in order, leave each tile filled by its class or position, or with its previous content |
| BriefingSections.ClassicParseBriefingContent | static/flight_plan.js:271-310 | each of the six tiles is filled from the cleaned reply by its class or position, or keeps its previous content |
| BriefingSections.PlannerClearTiles | flight-planner/src/js/flight_plan.js:136-141 | all six tiles become empty |
| BriefingSections.PlannerFillTile | flight-planner/src/js/flight_plan.js:197-200 | a found section's inner HTML replaces the tile; otherwise it is kept; other tiles are untouched |
| BriefingSections.PlannerShowBriefing | flight-planner/src/js/flight_plan.js:193-228 | after clearing and filling, each tile holds its section's inner HTML, or is empty when the section is missing |
| BriefingSections.PromptShapedReplyFillsTiles | weather_app.py:49-88 | a reply with the six sections the prompt asks for fills each tile with its own section, with or without a DOCTYPE |
| Severity.ClassicKeywordScan | static/flight_plan.js:342-350 | the nested loop with breaks finds the level of the first keyword set, in the order high, medium, low, that has a keyword in the text |
| Severity.ClassicApplySeverityStyling | static/flight_plan.js:328-351 | every item without a severity gets the tag level, else the keyword level, of its lower-cased text; items with a severity are unchanged |
| Severity.PlannerApplySeverityStyling | flight-planner/src/js/flight_plan.js:233-255 | every item without a severity gets the level of the first matching keyword list; items with a severity are unchanged |
| Severity.ClassicStylingIdempotent | static/flight_plan.js:329 | running the classic pass twice is running it once |
| Severity.PlannerStylingIdempotent | flight-planner/src/js/flight_plan.js:236-238 | running the planner pass twice is running it once |
| Severity.ClassicNeverMilder | static/flight_plan.js:320-325 | without an explicit tag, any text the planner rates is rated by the classic page at least as severe, so planner-high is classic-high |
| Severity.TagOverridesKeyword | static/flight_plan.js:334-339 | a text holding "(low)" and "severe" but no high or medium tag, such as "(low) severe turbulence", is low on the classic page and high on the planner |
| Severity.HighTagBeatsLowKeyword | static/flight_plan.js:334-335 | any text holding "(high)", such as "(high) clear skies", is high on the classic page, whatever keywords it also holds |
| Severity.ExplicitTagsRead | static/flight_plan.js:334-339 | the tag chain gives high, medium, low for the first tag pair found in that order, and nothing otherwise |
| Severity.UntaggedWithout | static/flight_plan.js:334-339 | every tag holds '(' or ':', so a text with neither has no tag |
| Severity.ClassicItemSeverity | static/flight_plan.js:331-351 | the level one untagged item gets: its tag level, else the keyword level |
| Severity.PlannerKeywordsRead | flight-planner/src/js/flight_plan.js:240-255 | the planner's if-chain gives the level of the first keyword list, in the order high, medium, low, that has a keyword in the text |
| Severity.PlannerItemSeverity | flight-planner/src/js/flight_plan.js:240-255 | the level one unstyled item gets on the planner |
| Severity.ClassicKeywordInsideWord | static/flight_plan.js:324 | "flight" is rated low because it contains "light" |
| Severity.PlannerKeywordInsideWord | flight-planner/src/js/flight_plan.js:250-253 | the planner also rates "flight" low |
| Severity.ClassicRatesClearSkies | static/flight_plan.js:324 | "clear skies" is low on the classic page |
| Severity.PlannerMissesClearSkies | flight-planner/src/js/flight_plan.js:243-254 | "clear skies" gets no severity on the planner |
| Severity.ClassicRatesBelow | static/flight_plan.js:324 | "below" is low on the classic page, through "low" |
| Severity.PlannerMissesBelow | flight-planner/src/js/flight_plan.js:243-254 | "below" gets no severity on the planner |
| Severity.Rank | static/flight_plan.js:321-325 | high ranks highest and low lowest |
| KeywordRules.FirstRule | static/flight_plan.js:342-350 | the chosen set has a keyword in the text and no earlier set has one; none means no set has one |
| KeywordRules.FirstMatchAt | static/flight_plan.js:342-350 | when set g is the first set with a keyword in the text, its level is the result |
| KeywordRules.FirstRuleNoLater | static/flight_plan.js:342-350 | a set with a keyword in the text bounds the chosen set's position from above |
| KeywordRules.NoRuleMatches | static/flight_plan.js:342-350 | with no keyword found, no severity is set |
| WeatherAnimation.AnimationType | static/flight_plan.js:589-601 | "clear" exactly when no keyword group matches the text; any other animation is one whose own group matches |
| WeatherAnimation.AnimationIsFirstMatch | static/flight_plan.js:589-601 | the if-chain picks the first keyword group in the order thunderstorm, snow, rain, fog, cloudy, or else clear |
| WeatherAnimation.FreezingRainIsSnow | static/flight_plan.js:593-596 | "freezing rain" shows snow, because snow is tested before rain |
| WeatherAnimation.NoKeywordIsClear | static/flight_plan.js:589-601 | "sunny", which holds no keyword, shows clear |
| WeatherAnimation.ConditionsAnimation | static/flight_plan.js:577-579 | an animation is chosen exactly when the conditions tile exists |
| WeatherAnimation.HazardKind | static/flight_plan.js:550-555 | every thunderstorm-group id gets the thunder icon; the rain icon only goes to rain-group ids; no marker means an id of at least 300 outside the thunderstorm group |
| WeatherAnimation.HazardKindByGroup | static/flight_plan.js:550-555 | an id from 200 to 299 is thunder; a rain-group id is a hazard exactly up to 531 |
| WeatherAnimation.NonHazardGroups | static/flight_plan.js:550 | drizzle, snow, atmosphere and clear/cloud ids are not hazards |
| AirportRows.Relabelled | flight-planner/src/js/flight_plan.js:104-117 | the rows keep their buttons and get the standard labels: Departure, En Route i, Arrival |
| AirportRows.StandardLabelsDistinct | flight-planner/src/js/flight_plan.js:107-115 | no two rows of a relabelled list share a label |
| AirportRows.AddKeepsOnlyLastAdd | flight-planner/src/js/flight_plan.js:40-71 | adding a row appends one row with both buttons, keeps "only the last row has an add button", and leaves every row before the old last one unchanged |
| AirportRows.RemoveKeepsOnlyLastAdd | flight-planner/src/js/flight_plan.js:81-101 | removing keeps "only the last row has an add button"; with two or more rows it removes one row and relabels the rest |
| AirportRows.ThreeAdditionsAsWritten | flight-planner/src/js/flight_plan.js:47-55 | three additions to a single Departure row leave "Arrival" third and "En Route 2" last |
| AirportRows.AdditionLeavesNonStandardLabels | flight-planner/src/js/flight_plan.js:47-55 | after those additions the labels are not the ones `updateLabels` gives |
| AirportRows.AddLabelledIsStandard | flight-planner/src/js/flight_plan.js:104-117 | adding with relabelling keeps the button invariant, gives standard labels and ends with "Arrival" |
| AirportRows.AirportInputs.AddAirportInput | flight-planner/src/js/flight_plan.js:40-79 | the rows become the added rows, as written, and stay valid |
| AirportRows.AirportInputs.AddAirportInputLabelled | flight-planner/src/js/flight_plan.js:40-79 | the corrected addition: the rows become the added rows, relabelled, and stay valid |
| AirportRows.AirportInputs.UpdateLabels | flight-planner/src/js/flight_plan.js:104-117 | the rows become their relabelled form |
| AirportRows.AirportInputs.RemoveAirportInput | flight-planner/src/js/flight_plan.js:81-102 | nothing changes with one row; otherwise the row is removed, the rest relabelled, and the add button restored on the last row |
| FlightForm.HandleInputChange | flight-planner/src/components/flightForm.js:11-15 | same length, the new value at the index, every other entry unchanged |
| FlightForm.AddAirportInput | flight-planner/src/components/flightForm.js:17-19 | exactly one empty code is appended |
| FlightForm.RemoveAirportInput | flight-planner/src/components/flightForm.js:21-24 | exactly the entry at the index is removed and the others keep their order; an index past the end changes nothing |
| FlightForm.RemoveUndoesAdd | flight-planner/src/components/flightForm.js:17-24 | removing the entry just added restores the list |
| FlightForm.ChangeBackUndoes | flight-planner/src/components/flightForm.js:11-15 | typing the old value back restores the list |
| FlightForm.NeverEmpty | flight-planner/src/components/flightForm.js:60-62 | with remove offered only above one entry, no sequence of actions empties a non-empty list |
| FlightForm.InitialNeverEmpty | flight-planner/src/components/flightForm.js:7 | from the initial `['']`, the list never becomes empty |
| FlightForm.HandleSubmit | flight-planner/src/components/flightForm.js:26-46 | loading ends false; delivered data implies a request and an empty error; an empty error implies data was delivered |
| FlightForm.SubmitOutcomes | flight-planner/src/components/flightForm.js:26-46 | loading ends false; a fetch is made exactly when validation keeps a code; the error is empty exactly when data was delivered |
| BriefingGenerator.FilterValidMembers | flight-planner/server/services/briefingGenerator.js:12 | an airport is kept exactly when it is in the input and valid |
| BriefingGenerator.FilterValidConcat | flight-planner/server/services/briefingGenerator.js:12 | filtering keeps input order |
| BriefingGenerator.FilterValidAllValid | flight-planner/server/services/briefingGenerator.js:12 | nothing valid is dropped |
| BriefingGenerator.FilterValid | flight-planner/server/services/briefingGenerator.js:12 | only valid airports are kept, and no more than were given |
| BriefingGenerator.GenerateBriefing | flight-planner/server/services/briefingGenerator.js:8-30 | the status is 200, 400 or 500; the body is a briefing exactly on 200, and its route is non-empty and holds only valid given airports |
| BriefingGenerator.GenerateBriefingOutcomes | flight-planner/server/services/briefingGenerator.js:12-29 | 400 exactly when no airport is valid; 500 exactly when the fetch fails; on success the route is the filtered list |
| BriefingGenerator.NothingValidIffEmpty | flight-planner/server/services/briefingGenerator.js:12-15 | the filtered list is empty exactly when no airport is valid |
| BriefingGenerator.GenerateBriefingContent | flight-planner/server/services/briefingGenerator.js:33-51 | the report grown with `+=` is the summary div, the weather-data div with one paragraph per record in order, then the region and hazard divs |
| BriefingGenerator.ReportFrame | flight-planner/server/services/briefingGenerator.js:37-48 | the report starts with the summary div and ends with the region div followed by the hazard div |
| BriefingGenerator.ReportTagCount | flight-planner/server/services/briefingGenerator.js:37-48 | with markup-free fields the report holds exactly 8 + 2n tags for n records |
| BriefingGenerator.ParagraphTagsAll | flight-planner/server/services/briefingGenerator.js:41-43 | each record adds exactly one paragraph's two tags |
| AirportService.ValidateAirportCode | flight-planner/src/js/airportService.js:10-12 | `some` holds exactly when `find` stops at a record |
| AirportService.FirstMatchIndex | flight-planner/src/js/airportService.js:6 | the index of the first record whose `icao` equals the upper-cased code, or none when no record does |
| AirportService.GetAirportInfo | flight-planner/src/js/airportService.js:5-8 | a returned record is in the data and its `icao` is the upper-cased code |
| AirportService.InfoIsFirstMatch | flight-planner/src/js/airportService.js:6 | the lookup returns the first matching record in list order |
| AirportService.InfoIffValid | flight-planner/src/js/airportService.js:6-11 | a record is returned exactly when the code validates |
| AirportService.ValidIffListed | flight-planner/src/js/airportService.js:10-16 | a code validates exactly when its upper-case form is among all the airports |
| AirportService.CaseInsensitiveQueries | flight-planner/src/js/airportService.js:6-11 | a code and its upper-case form give the same lookup and validation |
| AirportService.LowerCaseIcaoNeverMatches | flight-planner/src/js/airportService.js:6-11 | a record whose `icao` has a lower-case letter never matches |
| AirportService.GetAllAirports | flight-planner/src/js/airportService.js:14-16 | one `icao` per record, same length and order |
| PlannerBriefing.SubmittedCodesMembers | flight-planner/src/js/flight_plan.js:120-123 | a code is submitted exactly when it is non-empty and is the trimmed, upper-cased form of some input |
| PlannerBriefing.SubmittedCodesConcat | flight-planner/src/js/flight_plan.js:120-123 | submitted codes keep input order |
| PlannerBriefing.SubmittedCodesIdempotent | flight-planner/src/js/flight_plan.js:120-123 | filtering the submitted codes again changes nothing |
| PlannerBriefing.NormalizeCodeIdempotent | flight-planner/src/js/flight_plan.js:121 | trimming and upper-casing a normalised code changes nothing |
| PlannerBriefing.PlannerSubmit | flight-planner/src/js/flight_plan.js:119-153 | the alert, with the fixed message, exactly when no input gives a code; otherwise the request posts exactly the submitted codes of the inputs, in order, with the chosen region and hazard; those codes are non-empty and filtering them again changes nothing |
| PlannerBriefing.PlannerSubmitAlertIffBlank | flight-planner/src/js/flight_plan.js:120-128 | the alert is shown and nothing is requested exactly when every input is blank |
| PlannerBriefing.RouteCoordinates | flight-planner/src/js/flight_plan.js:281-291 | the collected coordinates are those of the route airports found in the table, in route order, and the flag says whether there are any |
| PlannerBriefing.UpdateWeatherMap | flight-planner/src/js/flight_plan.js:259-320 | the view is reset exactly when nothing is found; otherwise markers and bounds are the found coordinates, with a polyline exactly when there are two or more |
| PlannerBriefing.FoundCoordsConcat | flight-planner/src/js/flight_plan.js:285-291 | the coordinates of a route are those of its parts, in turn |
| PlannerBriefing.FoundCoordsMembers | flight-planner/src/js/flight_plan.js:285-291 | at most one coordinate per airport; a coordinate is found exactly when some route airport has it in the table |
| PlannerBriefing.NothingFoundIffUnknown | flight-planner/src/js/flight_plan.js:293-296 | the view is reset exactly when no route airport is in the table |
| WeatherData.ExtractFields | weather_app.py:127-132 | the pruned record holds exactly the key fields the record has, with their values |
| WeatherData.EssentialIdempotent | weather_app.py:127-132 | pruning keeps only existing fields, and pruning twice is pruning once |
| WeatherData.ExtractImportantPirepInfo | weather_app.py:117-134 | a string is cut to 20 words, a record is pruned to the seven PIREP fields, anything else gives the fixed message |
| WeatherData.ExtractImportantSigmetInfo | weather_app.py:136-148 | a record is pruned to the six SIGMET fields; anything else gives the fixed message |
| WeatherData.TruncateWords | weather_app.py:122-123 | the words of the result are the first words of the text, at most 20 |
| WeatherData.ShortTextUnchanged | weather_app.py:123 | the text is returned unchanged exactly when it has at most 20 words |
| WeatherData.TruncateIdempotent | weather_app.py:120-123 | truncating twice is truncating once |
| WeatherData.PirepInfoOfText | weather_app.py:120-123 | a string stays a string of at most 20 words |
| WeatherData.PirepInfoOfRecord | weather_app.py:125-132 | a record keeps exactly the PIREP key fields it has, with their values |
| WeatherData.PirepInfoOfOther | weather_app.py:134 | any value that is neither a string nor a record gives the fixed message |
| WeatherData.PirepInfoIdempotent | weather_app.py:117-134 | extracting from an extracted string or record changes nothing |
| WeatherData.SigmetInfoShapes | weather_app.py:136-148 | records keep exactly their present key fields; every non-record, string included, gives the message |
| WeatherData.SigmetInfoIdempotent | weather_app.py:136-148 | SIGMET extraction is idempotent on every input |
| WeatherData.StoredPirepsShapes | weather_app.py:206-214 | a stored PIREP list is the first at most 20 entries; a non-list is stored as is; an undecodable file stores the message |
| WeatherData.StoredSigmets | weather_app.py:218-242 | no SIGMET record is stored exactly when the fetched value is falsy; a stored `data` is truthy, a list exactly when the fetched SIGMETs are, and holds at most 10 |
| WeatherData.StoredSigmetsShapes | weather_app.py:218-242 | None, an empty list or an empty object stores no record; a non-empty list keeps its first min(n, 10) SIGMETs in order; a truthy non-list is stored as it is |
| WeatherData.StoredIdempotent | weather_app.py:210-236 | the storage caps are idempotent, for SIGMETs whenever a record was stored |
| WeatherData.ConciseBounds | weather_app.py:25-40 | the concise data holds at most 10 PIREPs per airport and 5 SIGMETs, each the extraction of the entry at the same place; non-lists give placeholders |
| WeatherData.ConcisePireps | weather_app.py:21-30 | one concise entry per airport, the same airports |
| WeatherData.RouteJson | weather_app.py:18 | the route is carried as the list of display lines |
| WeatherData.ConciseData | weather_app.py:11-40 | the concise data holds the route, or JSON null when no route is passed (the default); PIREPs exactly when the data has them; SIGMETs exactly when the SIGMET record holds `data`; nothing else |
| WeatherData.PirepFileReachesPromptAsPlaceholder | weather_app.py:25-30 | a PIREP file as the fetcher writes it is stored whole and reaches the prompt only as the placeholder |
| WeatherData.PirepFileReachesPromptCorrected | weather_app.py:25-28 | reading the file's report list instead, the first 10 lines reach the prompt, each cut to 20 words |

## Left out

- Network, files, clocks and the language model are left out: the weather fetches, the PIREP and SIGMET fetchers, the JSON file reads and writes, the Ollama call, `alert`, `fetch` and `setState`. Their results are parameters (`fetch`, `validate`, `isValid`, the decoded file as an `Option`), or the model stops where they begin. This covers the "No weather data available" branch of `route_briefing`, which depends on what the fetches wrote.
- HTML parsing is abstracted. `DOMParser`, `innerHTML` and `textContent` become a list of elements in document order, each with a tag, a class set, a 1-based sibling position, inner HTML and text, plus the document's quirks-mode flag. The parser decides that flag (no `<!DOCTYPE html>` gives quirks mode); the model takes it as given.
- Map drawing, marker popups, polyline styling, `fitBounds` padding, charts, theme toggling and the hazard icons are left out. The map update is reported as a value (`MapUpdate`), and the table's degrees are integers in ten-thousandths.
- The floating-point unit conversions, the compass buckets and the animation easing are left out.
- Case mapping and whitespace are ASCII only. In JavaScript, whitespace is exactly tab, line feed, vertical tab, form feed, carriage return and space. In Python it is those six plus the information separators U+001C..U+001F, which `strip`, `split()` and `int()` all skip (`Text.IsSpace` takes the language). Beyond ASCII, both languages also treat other Unicode characters as whitespace or change their case; that is not modelled.
- `parseInt` is modelled as an optional sign followed by leading ASCII decimal digits, with unbounded integers. Values beyond 2^53 lose precision in JavaScript, and "-0" is a negative zero there; neither is modelled. `int()` is modelled as an optional sign followed by digits with single underscores between them; non-ASCII digits are not accepted.
- JSON numbers are integers, and object key order is not kept, so the order of the pruned fields in the prompt is not modelled.
- The planner's coordinate table is a plain map. A JavaScript object also answers inherited keys such as "constructor"; that quirk is not modelled.
- WeatherData.ConciseData: requires the stored `pirep` and `sigmet` values to be objects, as `route_briefing` builds them. For other values the source may raise (a `pirep` value without `.items()`, or a string `sigmet` that contains "data"), or it may skip the SIGMETs (a string `sigmet` without "data"). Those paths are not modelled.
- Severity: an item's `data-severity` attribute is an `Option<Level>`, and `Some` stands for "attribute present". Both passes skip an item that has the attribute, whatever its value, so a value outside high/medium/low (such as "critical") behaves like `Some` and is not represented on its own.
- BriefingGenerator.GenerateBriefing: an `airports` value that is not an array, and an exception inside `generateBriefingContent`, are not modelled; only a failed fetch gives the 500 response.
- FlightForm.SubmitOutcomes: React's asynchronous state updates are collapsed into one final state.
- The planner posts its codes as a list, while the Flask `route_briefing` splits a string. Which server answers the planner is not part of these files. The Flask server's route lines carry " at Nft", so they would not be found in the planner's table.
- AirportService keeps only the `icao` and `name` fields of a record.
- Rows are values holding a label and two button flags; DOM nodes, event listeners and focus are left out.

## Findings

| source | as written | input that shows it | evidently intended | confidence | as-written member | corrected member |
|---|---|---|---|---|---|---|
| flight-planner/src/js/flight_plan.js:47-55 | with three or more rows the new last row is labelled "En Route {n-1}" and the old "Arrival" row keeps its label | three additions to a single "Departure" row: Departure, En Route 1, Arrival, En Route 2 | the labels `updateLabels` gives: Departure, En Route i, Arrival last | high, not executed | AirportRows.ThreeAdditionsAsWritten | AirportRows.AddLabelledIsStandard |
| weather_app.py:25-30 | a stored PIREP value is condensed only when it is a list, but the PIREP fetcher writes an object holding the `icao` and a `pireps` list | any airport whose PIREP file the fetcher wrote: its concise entry is "No structured PIREP data available" and the 20-report cap never applies | the report lines, at most 10, each cut to 20 words, reach the prompt | medium, not executed | WeatherData.PirepFileReachesPromptAsPlaceholder | WeatherData.PirepFileReachesPromptCorrected |
