/**
 * The React flight form: a list of airport codes held in component state.
 * Every handler builds a new list; submitting validates the list with a
 * validation function the form imports, then fetches weather data.
 */
module FlightForm {
  import opened Wrappers

  /** The state starts with one empty field. */
  const InitialCodes: seq<string> := [""]

  /** `handleInputChange(index, value)`: a copy with one field replaced. */
  function HandleInputChange(codes: seq<string>, index: nat, value: string): (r: seq<string>)
    requires index < |codes|
    ensures |r| == |codes| && r[index] == value
    ensures forall j :: 0 <= j < |codes| && j != index ==> r[j] == codes[j]
  {
    codes[index := value]
  }

  /** `addAirportInput`: one more empty field at the end. */
  function AddAirportInput(codes: seq<string>): (r: seq<string>)
    ensures |r| == |codes| + 1 && r[..|codes|] == codes && r[|codes|] == ""
  {
    codes + [""]
  }

  /** `removeAirportInput(index)`: keep every field whose index differs. */
  function RemoveAirportInput(codes: seq<string>, index: nat): (r: seq<string>)
    ensures index < |codes| ==> |r| == |codes| - 1
    ensures index < |codes| ==> forall j :: 0 <= j < |r| ==> r[j] == (if j < index then codes[j] else codes[j + 1])
    ensures index >= |codes| ==> r == codes
  {
    if index < |codes| then codes[..index] + codes[index + 1..] else codes
  }

  /** Removing the field just added gives the list back. */
  lemma RemoveUndoesAdd(codes: seq<string>)
    ensures RemoveAirportInput(AddAirportInput(codes), |codes|) == codes
  {
  }

  /** Writing back the old value undoes a change. */
  lemma ChangeBackUndoes(codes: seq<string>, index: nat, value: string)
    requires index < |codes|
    ensures HandleInputChange(HandleInputChange(codes, index, value), index, codes[index]) == codes
  {
  }

  /** A user action on the rendered form. */
  datatype FormAction = Type(index: nat, value: string) | Add | Remove(index: nat)

  /** Remove buttons are rendered only while there is more than one field. */
  predicate RemoveOffered(codes: seq<string>) {
    |codes| > 1
  }

  /** An action applied to the state; an action on a control that is not rendered does nothing. */
  function Apply(codes: seq<string>, action: FormAction): seq<string> {
    match action
    case Type(i, v) => if i < |codes| then HandleInputChange(codes, i, v) else codes
    case Add => AddAirportInput(codes)
    case Remove(i) => if RemoveOffered(codes) && i < |codes| then RemoveAirportInput(codes, i) else codes
  }

  function Run(codes: seq<string>, actions: seq<FormAction>): seq<string>
    decreases |actions|
  {
    if actions == [] then codes else Run(Apply(codes, actions[0]), actions[1..])
  }

  /** From the initial state, no sequence of actions empties the list. */
  lemma {:induction false} NeverEmpty(codes: seq<string>, actions: seq<FormAction>)
    requires |codes| >= 1
    ensures |Run(codes, actions)| >= 1
    decreases |actions|
  {
    if actions != [] {
      NeverEmpty(Apply(codes, actions[0]), actions[1..]);
    }
  }

  lemma InitialNeverEmpty(actions: seq<FormAction>)
    ensures |Run(InitialCodes, actions)| >= 1
  {
    NeverEmpty(InitialCodes, actions);
  }

  /** The state after `handleSubmit` settles. */
  datatype SubmitState<W> = SubmitState(error: string, loading: bool, requested: Option<seq<string>>, delivered: Option<W>)

  /**
   * `handleSubmit`: `validate` is the imported validation, `fetch` the weather
   * request for the validated codes (None when it throws).
   */
  function HandleSubmit<W>(codes: seq<string>, validate: seq<string> -> seq<string>,
                           fetch: seq<string> -> Option<W>): (r: SubmitState<W>)
    ensures !r.loading
    ensures r.delivered.Some? ==> r.requested.Some? && r.error == ""
    ensures r.error == "" ==> r.delivered.Some?
  {
    var valid := validate(codes);
    if |valid| == 0 then SubmitState("Please enter at least one valid airport code.", false, None, None)
    else
      match fetch(valid)
      case Some(w) => SubmitState("", false, Some(valid), Some(w))
      case None => SubmitState("Error fetching weather data. Please try again.", false, Some(valid), None)
  }

  /**
   * Loading always ends false; a request is made exactly when validation kept
   * a code, and then with those codes; the error is empty exactly when data
   * was delivered.
   */
  lemma SubmitOutcomes<W>(codes: seq<string>, validate: seq<string> -> seq<string>, fetch: seq<string> -> Option<W>)
    ensures !HandleSubmit(codes, validate, fetch).loading
    ensures HandleSubmit(codes, validate, fetch).requested.Some? <==> validate(codes) != []
    ensures HandleSubmit(codes, validate, fetch).requested.Some? ==>
      HandleSubmit(codes, validate, fetch).requested.value == validate(codes)
    ensures HandleSubmit(codes, validate, fetch).error == "" <==> HandleSubmit(codes, validate, fetch).delivered.Some?
    ensures HandleSubmit(codes, validate, fetch).delivered.Some? ==> fetch(validate(codes)) == HandleSubmit(codes, validate, fetch).delivered
  {
  }
}
