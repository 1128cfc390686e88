/**
 * The weather-data helpers of the Flask server: pruning a PIREP or SIGMET
 * record to its key fields, truncating a free-text PIREP, the caps applied
 * when the route briefing stores the fetched data, and the concise copy of
 * that data handed to the language model.
 *
 * Decoded JSON is a `Json` value; an object is a `map`, so key order is not
 * kept, and numbers are integers.
 */
module WeatherData {
  import opened Wrappers
  import opened Text

  datatype Json =
    | JNull
    | JBool(b: bool)
    | JNum(n: int)
    | JStr(s: string)
    | JList(items: seq<Json>)
    | JDict(fields: map<string, Json>)

  const PirepKeyFields: seq<string> :=
    ["altitude", "aircraft_ref", "location", "time", "turbulence", "icing", "remarks"]
  const SigmetKeyFields: seq<string> :=
    ["hazard", "area_affected", "valid_time_from", "valid_time_to", "altitude", "movement"]

  const PirepUnrecognized := "PIREP data format not recognized"
  const SigmetUnrecognized := "SIGMET data format not recognized"

  /** A free-text PIREP keeps at most this many words. */
  const MaxPirepWords := 20

  function Min(a: nat, b: nat): nat {
    if a <= b then a else b
  }

  // ---------------------------------------------------------------------
  // Field pruning
  // ---------------------------------------------------------------------

  /** The key fields the record holds, each with its value. */
  function Essential(record: map<string, Json>, keyFields: seq<string>): map<string, Json> {
    map f | f in record && f in keyFields :: record[f]
  }

  /** The `for field in key_fields` loop: copy each key field the record holds. */
  method ExtractFields(record: map<string, Json>, keyFields: seq<string>) returns (essential: map<string, Json>)
    ensures forall f :: f in essential <==> f in record && f in keyFields
    ensures forall f :: f in essential ==> essential[f] == record[f]
  {
    essential := map[];
    for k := 0 to |keyFields|
      invariant forall f :: f in essential <==> f in record && f in keyFields[..k]
      invariant forall f :: f in essential ==> essential[f] == record[f]
    {
      assert keyFields[..k + 1] == keyFields[..k] + [keyFields[k]];
      if keyFields[k] in record {
        essential := essential[keyFields[k] := record[keyFields[k]]];
      }
    }
    assert keyFields[..|keyFields|] == keyFields;
  }

  /** The pruned record holds only fields of the record, and pruning twice is pruning once. */
  lemma EssentialIdempotent(record: map<string, Json>, keyFields: seq<string>)
    ensures Essential(record, keyFields).Keys <= record.Keys
    ensures Essential(Essential(record, keyFields), keyFields) == Essential(record, keyFields)
  {
  }

  // ---------------------------------------------------------------------
  // Free-text PIREP truncation
  // ---------------------------------------------------------------------

  /** A string PIREP: more than 20 words become the first 20 joined by single spaces. */
  function TruncatePirepText(s: string): string {
    var parts := Words(s);
    if |parts| > MaxPirepWords then JoinWords(parts[..MaxPirepWords]) else s
  }

  /** The words of the truncated text are the first (at most) 20 words of the text. */
  lemma TruncateWords(s: string)
    ensures Words(TruncatePirepText(s)) == Words(s)[..Min(|Words(s)|, MaxPirepWords)]
    ensures |Words(TruncatePirepText(s))| <= MaxPirepWords
  {
    WordsAreWords(s);
    if |Words(s)| > MaxPirepWords {
      WordsJoinWords(Words(s)[..MaxPirepWords]);
    }
  }

  /** Text of at most 20 words is returned unchanged. */
  lemma ShortTextUnchanged(s: string)
    ensures TruncatePirepText(s) == s <==> |Words(s)| <= MaxPirepWords
  {
    TruncateWords(s);
  }

  /** Truncating twice is truncating once. */
  lemma TruncateIdempotent(s: string)
    ensures TruncatePirepText(TruncatePirepText(s)) == TruncatePirepText(s)
  {
    TruncateWords(s);
  }

  // ---------------------------------------------------------------------
  // extract_important_pirep_info / extract_important_sigmet_info
  // ---------------------------------------------------------------------

  /** What `extract_important_pirep_info` returns. */
  function PirepInfo(pirep: Json): Json {
    match pirep
    case JStr(s) => JStr(TruncatePirepText(s))
    case JDict(record) => JDict(Essential(record, PirepKeyFields))
    case _ => JStr(PirepUnrecognized)
  }

  /** What `extract_important_sigmet_info` returns. */
  function SigmetInfo(sigmet: Json): Json {
    match sigmet
    case JDict(record) => JDict(Essential(record, SigmetKeyFields))
    case _ => JStr(SigmetUnrecognized)
  }

  method ExtractImportantPirepInfo(pirep: Json) returns (r: Json)
    ensures r == PirepInfo(pirep)
  {
    if pirep.JStr? {
      var parts := Words(pirep.s);
      if |parts| > MaxPirepWords {
        r := JStr(JoinWords(parts[..MaxPirepWords]));
      } else {
        r := pirep;
      }
      return;
    }
    if pirep.JDict? {
      var essential := ExtractFields(pirep.fields, PirepKeyFields);
      return JDict(essential);
    }
    r := JStr(PirepUnrecognized);
  }

  method ExtractImportantSigmetInfo(sigmet: Json) returns (r: Json)
    ensures r == SigmetInfo(sigmet)
  {
    if sigmet.JDict? {
      var essential := ExtractFields(sigmet.fields, SigmetKeyFields);
      return JDict(essential);
    }
    r := JStr(SigmetUnrecognized);
  }

  /** A string PIREP stays a string, of at most 20 words. */
  lemma PirepInfoOfText(s: string)
    ensures PirepInfo(JStr(s)).JStr?
    ensures |Words(PirepInfo(JStr(s)).s)| <= MaxPirepWords
  {
    TruncateWords(s);
  }

  /** A record PIREP keeps exactly the PIREP key fields it has, with their values. */
  lemma PirepInfoOfRecord(record: map<string, Json>)
    ensures PirepInfo(JDict(record)).JDict?
    ensures forall f :: f in PirepInfo(JDict(record)).fields <==> f in record && f in PirepKeyFields
    ensures forall f :: f in PirepInfo(JDict(record)).fields ==> PirepInfo(JDict(record)).fields[f] == record[f]
  {
  }

  /** Any other value gives the fixed message. */
  lemma PirepInfoOfOther(pirep: Json)
    requires !pirep.JStr? && !pirep.JDict?
    ensures PirepInfo(pirep) == JStr(PirepUnrecognized)
  {
  }

  /** Extracting from a string or a record already extracted changes nothing. */
  lemma PirepInfoIdempotent(pirep: Json)
    requires pirep.JStr? || pirep.JDict?
    ensures PirepInfo(PirepInfo(pirep)) == PirepInfo(pirep)
  {
    if pirep.JStr? {
      TruncateIdempotent(pirep.s);
    }
  }

  /** A record keeps only its SIGMET key fields; any non-record becomes the fixed message. */
  lemma SigmetInfoShapes(sigmet: Json)
    ensures sigmet.JDict? <==> SigmetInfo(sigmet).JDict?
    ensures sigmet.JDict? ==>
      (forall f :: f in SigmetInfo(sigmet).fields <==> f in sigmet.fields && f in SigmetKeyFields) &&
      (forall f :: f in SigmetInfo(sigmet).fields ==> SigmetInfo(sigmet).fields[f] == sigmet.fields[f])
    ensures !sigmet.JDict? ==> SigmetInfo(sigmet) == JStr(SigmetUnrecognized)
  {
  }

  /** SIGMET extraction is idempotent on every input, the fixed message included. */
  lemma SigmetInfoIdempotent(sigmet: Json)
    ensures SigmetInfo(SigmetInfo(sigmet)) == SigmetInfo(sigmet)
  {
  }

  // ---------------------------------------------------------------------
  // Caps applied when the route briefing stores the fetched data
  // ---------------------------------------------------------------------

  const StoredPirepLimit := 20
  const StoredSigmetLimit := 10
  const InvalidPirepFormat := "Invalid PIREP data format"

  /**
   * The value stored for an airport's PIREP file: `decoded` is None when the
   * file is not valid JSON.  A list longer than 20 keeps its first 20
   * entries; any other value is stored as it is.
   */
  function StoredPireps(decoded: Option<Json>): Json {
    match decoded
    case None => JStr(InvalidPirepFormat)
    case Some(j) => if j.JList? && |j.items| > StoredPirepLimit then JList(j.items[..StoredPirepLimit]) else j
  }

  /** Python truthiness: null, false, zero and empty strings, lists and objects are falsy. */
  predicate Truthy(j: Json) {
    match j
    case JNull => false
    case JBool(b) => b
    case JNum(n) => n != 0
    case JStr(s) => s != ""
    case JList(items) => items != []
    case JDict(fields) => fields != map[]
  }

  /**
   * The `data` stored for the SIGMETs: None when the fetched value is falsy
   * (a failed request gives None, no active SIGMET an empty list), and no
   * SIGMET record is stored then; otherwise the first 10 of a list, or
   * anything else as it is.
   */
  function StoredSigmets(sigmetData: Json): (r: Option<Json>)
    ensures r.None? <==> !Truthy(sigmetData)
    ensures r.Some? ==> Truthy(r.value) && (r.value.JList? <==> sigmetData.JList?)
    ensures r.Some? && r.value.JList? ==> |r.value.items| <= StoredSigmetLimit
  {
    if !Truthy(sigmetData) then None
    else if sigmetData.JList? then Some(JList(sigmetData.items[..Min(|sigmetData.items|, StoredSigmetLimit)]))
    else Some(sigmetData)
  }

  /** A stored PIREP list is a prefix of at most 20 of the decoded list; a non-list is kept; a bad file is the message. */
  lemma StoredPirepsShapes(decoded: Option<Json>)
    ensures decoded.None? ==> StoredPireps(decoded) == JStr(InvalidPirepFormat)
    ensures decoded.Some? && decoded.value.JList? ==>
      var stored := StoredPireps(decoded).items;
      |stored| == Min(|decoded.value.items|, StoredPirepLimit) && stored == decoded.value.items[..|stored|]
    ensures decoded.Some? && !decoded.value.JList? ==> StoredPireps(decoded) == decoded.value
  {
    if decoded.Some? && decoded.value.JList? && |decoded.value.items| <= StoredPirepLimit {
      assert decoded.value.items[..|decoded.value.items|] == decoded.value.items;
    }
  }

  /** The stored SIGMET `data` is a list of the first at most 10 SIGMETs of a list; a non-list is kept. */
  lemma StoredSigmetsShapes(sigmetData: Json)
    ensures sigmetData == JNull || sigmetData == JList([]) || sigmetData == JDict(map[]) ==>
      StoredSigmets(sigmetData).None?
    ensures sigmetData.JList? && sigmetData.items != [] ==>
      var stored := StoredSigmets(sigmetData).value.items;
      |stored| == Min(|sigmetData.items|, StoredSigmetLimit) && stored == sigmetData.items[..|stored|]
    ensures !sigmetData.JList? && Truthy(sigmetData) ==> StoredSigmets(sigmetData) == Some(sigmetData)
  {
  }

  /** Storing is idempotent: a stored list is already within the cap. */
  lemma StoredIdempotent(decoded: Json, sigmetData: Json)
    ensures StoredPireps(Some(StoredPireps(Some(decoded)))) == StoredPireps(Some(decoded))
    ensures StoredSigmets(sigmetData).Some? ==>
      StoredSigmets(StoredSigmets(sigmetData).value) == StoredSigmets(sigmetData)
  {
    if sigmetData.JList? && sigmetData.items != [] {
      var kept := sigmetData.items[..Min(|sigmetData.items|, StoredSigmetLimit)];
      assert kept[..Min(|kept|, StoredSigmetLimit)] == kept;
    }
  }

  // ---------------------------------------------------------------------
  // The concise data of process_with_ollama
  // ---------------------------------------------------------------------

  const ConcisePirepLimit := 10
  const ConciseSigmetLimit := 5
  const NoStructuredPirep := "No structured PIREP data available"
  const NoStructuredSigmet := "No structured SIGMET data available"

  /** The concise entry of one airport: its first 10 PIREPs extracted, or a placeholder for a non-list. */
  function ConcisePirepEntry(pireps: Json): Json {
    if pireps.JList? then
      var n := Min(|pireps.items|, ConcisePirepLimit);
      JList(seq(n, i requires 0 <= i < n => PirepInfo(pireps.items[i])))
    else JStr(NoStructuredPirep)
  }

  /** The concise SIGMETs: the first 5 extracted, or a placeholder for a non-list. */
  function ConciseSigmetEntry(sigmets: Json): Json {
    if sigmets.JList? then
      var n := Min(|sigmets.items|, ConciseSigmetLimit);
      JList(seq(n, i requires 0 <= i < n => SigmetInfo(sigmets.items[i])))
    else JStr(NoStructuredSigmet)
  }

  /** The concise entries hold at most 10 PIREPs and 5 SIGMETs, each the extraction of the entry at the same place. */
  lemma ConciseBounds(pireps: Json, sigmets: Json)
    ensures pireps.JList? <==> ConcisePirepEntry(pireps).JList?
    ensures pireps.JList? ==>
      var c := ConcisePirepEntry(pireps).items;
      |c| <= ConcisePirepLimit && |c| <= |pireps.items| &&
      forall i :: 0 <= i < |c| ==> c[i] == PirepInfo(pireps.items[i])
    ensures sigmets.JList? <==> ConciseSigmetEntry(sigmets).JList?
    ensures sigmets.JList? ==>
      var c := ConciseSigmetEntry(sigmets).items;
      |c| <= ConciseSigmetLimit && |c| <= |sigmets.items| &&
      forall i :: 0 <= i < |c| ==> c[i] == SigmetInfo(sigmets.items[i])
  {
  }

  /** The `for airport, pireps in data['pirep'].items()` loop. */
  method ConcisePireps(pirepByAirport: map<string, Json>) returns (concise: map<string, Json>)
    ensures concise.Keys == pirepByAirport.Keys
    ensures forall a :: a in concise ==> concise[a] == ConcisePirepEntry(pirepByAirport[a])
  {
    concise := map[];
    var remaining := pirepByAirport.Keys;
    while remaining != {}
      invariant remaining <= pirepByAirport.Keys
      invariant concise.Keys == pirepByAirport.Keys - remaining
      invariant forall a :: a in concise ==> concise[a] == ConcisePirepEntry(pirepByAirport[a])
      decreases |remaining|
    {
      var airport :| airport in remaining;
      concise := concise[airport := ConcisePirepEntry(pirepByAirport[airport])];
      remaining := remaining - {airport};
    }
  }

  function RouteJson(routeInfo: seq<string>): (r: Json)
    ensures r.JList? && |r.items| == |routeInfo|
    ensures forall i :: 0 <= i < |routeInfo| ==> r.items[i] == JStr(routeInfo[i])
  {
    JList(seq(|routeInfo|, i requires 0 <= i < |routeInfo| => JStr(routeInfo[i])))
  }

  /**
   * `concise_data` built from the stored results: the route, then the
   * concise PIREPs when there are any, then the concise SIGMETs when the
   * SIGMET record holds a `data` entry.  The stored `pirep` and `sigmet`
   * values are objects, as the route briefing builds them.  `routeInfo` is
   * None when the caller passes no route (the default), and the route is
   * then JSON null.
   */
  method ConciseData(data: map<string, Json>, routeInfo: Option<seq<string>>) returns (concise: map<string, Json>)
    requires "pirep" in data ==> data["pirep"].JDict?
    requires "sigmet" in data ==> data["sigmet"].JDict?
    ensures concise.Keys <= {"route", "pirep", "sigmet"}
    ensures "route" in concise
    ensures routeInfo.Some? ==> concise["route"] == RouteJson(routeInfo.value)
    ensures routeInfo.None? ==> concise["route"] == JNull
    ensures "pirep" in concise <==> "pirep" in data
    ensures "pirep" in data ==> concise["pirep"].JDict?
    ensures "pirep" in data ==> concise["pirep"].fields.Keys == data["pirep"].fields.Keys
    ensures "pirep" in data ==>
      forall a :: a in data["pirep"].fields ==>
        concise["pirep"].fields[a] == ConcisePirepEntry(data["pirep"].fields[a])
    ensures "sigmet" in concise <==> "sigmet" in data && "data" in data["sigmet"].fields
    ensures "sigmet" in concise ==> concise["sigmet"] == ConciseSigmetEntry(data["sigmet"].fields["data"])
  {
    var route := match routeInfo
      case Some(lines) => RouteJson(lines)
      case None => JNull;
    concise := map["route" := route];
    if "pirep" in data {
      var entries := ConcisePireps(data["pirep"].fields);
      concise := concise["pirep" := JDict(entries)];
    }
    if "sigmet" in data && "data" in data["sigmet"].fields {
      concise := concise["sigmet" := ConciseSigmetEntry(data["sigmet"].fields["data"])];
    }
  }

  // ---------------------------------------------------------------------
  // The PIREP file as the PIREP fetcher writes it
  // ---------------------------------------------------------------------

  /** The file the PIREP fetcher writes: an object with the code and the report lines. */
  function PirepFile(icao: string, lines: seq<string>): Json {
    JDict(map["icao" := JStr(icao), "pireps" := RouteJson(lines)])
  }

  /**
   * As written, the stored value of such a file is the object itself: the
   * 20-report cap never applies, and its concise entry is the placeholder,
   * so none of the reports reaches the prompt.
   */
  lemma PirepFileReachesPromptAsPlaceholder(icao: string, lines: seq<string>)
    ensures StoredPireps(Some(PirepFile(icao, lines))) == PirepFile(icao, lines)
    ensures ConcisePirepEntry(StoredPireps(Some(PirepFile(icao, lines)))) == JStr(NoStructuredPirep)
  {
  }

  /** The evidently intended entry: the report list of the stored object, when there is one. */
  function ConcisePirepEntryFromFile(stored: Json): Json {
    if stored.JDict? && "pireps" in stored.fields && stored.fields["pireps"].JList? then
      ConcisePirepEntry(stored.fields["pireps"])
    else ConcisePirepEntry(stored)
  }

  /** With the correction the first 10 report lines reach the prompt, each cut to 20 words. */
  lemma PirepFileReachesPromptCorrected(icao: string, lines: seq<string>)
    ensures var c := ConcisePirepEntryFromFile(StoredPireps(Some(PirepFile(icao, lines))));
      c.JList? && |c.items| == Min(|lines|, ConcisePirepLimit) &&
      forall i :: 0 <= i < |c.items| ==> c.items[i] == JStr(TruncatePirepText(lines[i]))
  {
    var stored := StoredPireps(Some(PirepFile(icao, lines)));
    assert stored.fields["pireps"] == RouteJson(lines);
  }
}
