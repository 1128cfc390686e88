/**
 * The airport service: lookups over a constant list of airport records,
 * matched on the record's `icao` field against the upper-cased query.
 * The record list is a parameter; only the `icao` and `name` fields are kept.
 */
module AirportService {
  import opened Wrappers
  import opened Text
  import opened Sequences

  datatype AirportRecord = AirportRecord(icao: string, name: string)

  /** The record matches the query: its `icao` equals the upper-cased code, compared verbatim. */
  predicate Matches(record: AirportRecord, code: string) {
    record.icao == Upper(code)
  }

  /** Index of the first record that matches the query (what `find` stops at). */
  function FirstMatchIndex(data: seq<AirportRecord>, code: string): (r: Option<nat>)
    ensures r.Some? ==> r.value < |data| && Matches(data[r.value], code)
    ensures r.Some? ==> forall j :: 0 <= j < r.value ==> !Matches(data[j], code)
    ensures r.None? ==> forall j :: 0 <= j < |data| ==> !Matches(data[j], code)
  {
    FirstIndex(data, record => Matches(record, code))
  }

  /** `getAirportInfo`: the first matching record, or null (None). */
  function GetAirportInfo(data: seq<AirportRecord>, code: string): (r: Option<AirportRecord>)
    ensures r.Some? ==> r.value in data && r.value.icao == Upper(code)
  {
    match FirstMatchIndex(data, code)
    case None => None
    case Some(i) => Some(data[i])
  }

  /** `validateAirportCode`: some record matches, which is exactly when `find` stops somewhere. */
  predicate ValidateAirportCode(data: seq<AirportRecord>, code: string): (r: bool)
    ensures r <==> FirstMatchIndex(data, code).Some?
  {
    exists i :: 0 <= i < |data| && Matches(data[i], code)
  }

  /** `getAllAirports`: the `icao` of every record. */
  function GetAllAirports(data: seq<AirportRecord>): (r: seq<string>)
    ensures |r| == |data|
    ensures forall i :: 0 <= i < |data| ==> r[i] == data[i].icao
  {
    seq(|data|, i requires 0 <= i < |data| => data[i].icao)
  }

  /** The lookup returns the first record in list order whose `icao` is the upper-cased code. */
  lemma InfoIsFirstMatch(data: seq<AirportRecord>, code: string, i: nat)
    requires i < |data| && data[i].icao == Upper(code)
    requires forall j :: 0 <= j < i ==> data[j].icao != Upper(code)
    ensures GetAirportInfo(data, code) == Some(data[i])
  {
    var r := FirstMatchIndex(data, code);
    assert Matches(data[i], code);
  }

  /** The lookup finds a record exactly when the code validates. */
  lemma InfoIffValid(data: seq<AirportRecord>, code: string)
    ensures GetAirportInfo(data, code).Some? <==> ValidateAirportCode(data, code)
  {
  }

  /** A code validates exactly when its upper-case form is among all the airports. */
  lemma ValidIffListed(data: seq<AirportRecord>, code: string)
    ensures ValidateAirportCode(data, code) <==> Upper(code) in GetAllAirports(data)
  {
    var all := GetAllAirports(data);
    if Upper(code) in all {
      var i :| 0 <= i < |all| && all[i] == Upper(code);
      assert Matches(data[i], code);
    }
  }

  /** Querying a code or its upper-case form gives the same answers. */
  lemma CaseInsensitiveQueries(data: seq<AirportRecord>, code: string)
    ensures GetAirportInfo(data, Upper(code)) == GetAirportInfo(data, code)
    ensures ValidateAirportCode(data, Upper(code)) == ValidateAirportCode(data, code)
  {
    UpperNormal(code);
  }

  /** A record whose `icao` holds a lower-case letter is never returned and never validates a code. */
  lemma LowerCaseIcaoNeverMatches(data: seq<AirportRecord>, code: string, i: nat)
    requires i < |data| && HasLower(data[i].icao)
    ensures !Matches(data[i], code)
    ensures GetAirportInfo(data, code) != Some(data[i])
  {
    UpperNormal(code);
  }
}
