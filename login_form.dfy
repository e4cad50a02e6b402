/**
 The form state of the login screen and the reducer that updates it.

 The state tracks, per named input, its raw text and whether that text is
 acceptable, plus an aggregate flag that is the conjunction of the per-input
 flags. The reducer handles exactly one kind of action, an input update;
 every other action leaves the state as it is.
 */
module LoginForm {

  /** The tag of the only action the reducer acts on. */
  const FormInputUpdate: string := "FORM_INPUT_UPDATE"

  datatype FormState = FormState(
    inputValues: map<string, string>,
    inputValidities: map<string, bool>,
    formIsValid: bool)

  /** A reducer action: its tag, the input it names, the new text and its validity. */
  datatype Action = Action(kind: string, input: string, value: string, isValid: bool)

  /** Every input is valid (vacuously so when there are none). */
  predicate AllValid(validities: map<string, bool>)
  {
    forall k :: k in validities ==> validities[k]
  }

  /** The aggregate flag is exactly the conjunction of the per-input flags. */
  predicate Consistent(s: FormState)
  {
    s.formIsValid == AllValid(s.inputValidities)
  }

  /** Values and validities are kept for the same inputs. */
  predicate SameInputs(s: FormState)
  {
    s.inputValues.Keys == s.inputValidities.Keys
  }

  /** What holds of every state the login screen can reach: consistent, with
      the same inputs in both maps, and with the two inputs submit reads. */
  predicate Invariant(s: FormState)
  {
    Consistent(s) && SameInputs(s) && "email" in s.inputValues && "password" in s.inputValues
  }

  /** The state the screen starts from: an empty, invalid e-mail and password. */
  function InitialState(): (r: FormState)
    ensures Invariant(r) && !r.formIsValid
    ensures r.inputValues.Keys == {"email", "password"}
    ensures forall k :: k in r.inputValues ==> r.inputValues[k] == "" && !r.inputValidities[k]
  {
    var validities := map["email" := false, "password" := false];
    assert !validities["email"];
    FormState(map["email" := "", "password" := ""], validities, false)
  }

  /** The input-update case of the reducer: overwrite (or add) one input in
      both maps and recompute the aggregate flag. */
  function Update(s: FormState, input: string, value: string, isValid: bool): (r: FormState)
    ensures Consistent(r)
    ensures r.inputValues.Keys == s.inputValues.Keys + {input}
    ensures r.inputValidities.Keys == s.inputValidities.Keys + {input}
    ensures r.inputValues[input] == value && r.inputValidities[input] == isValid
    ensures forall k :: k in s.inputValues && k != input ==> r.inputValues[k] == s.inputValues[k]
    ensures forall k :: k in s.inputValidities && k != input ==> r.inputValidities[k] == s.inputValidities[k]
  {
    var validities := s.inputValidities[input := isValid];
    FormState(s.inputValues[input := value], validities, false !in validities.Values)
  }

  /** The reducer: an input update goes through Update, anything else is ignored. */
  function FormReducer(s: FormState, a: Action): (r: FormState)
    ensures a.kind != FormInputUpdate ==> r == s
    ensures a.kind == FormInputUpdate ==> Consistent(r) && a.input in r.inputValues
    ensures Consistent(s) ==> Consistent(r)
    ensures SameInputs(s) ==> SameInputs(r)
    ensures Invariant(s) ==> Invariant(r)
  {
    if a.kind == FormInputUpdate then Update(s, a.input, a.value, a.isValid) else s
  }

  /** The reducer as the screen runs it: copy both maps with the one input
      overwritten, then fold the validities into the aggregate flag with a
      loop over every input. */
  method Reduce(s: FormState, a: Action) returns (r: FormState)
    ensures r == FormReducer(s, a)
  {
    if a.kind != FormInputUpdate {
      return s;
    }
    var updatedValues := s.inputValues[a.input := a.value];
    var updatedValidities := s.inputValidities[a.input := a.isValid];
    var updatedFormIsValid := true;
    var pending := updatedValidities.Keys;
    while pending != {}
      invariant pending <= updatedValidities.Keys
      invariant updatedFormIsValid <==>
                  forall k :: k in updatedValidities && k !in pending ==> updatedValidities[k]
      decreases pending
    {
      var key :| key in pending;
      updatedFormIsValid := updatedFormIsValid && updatedValidities[key];
      pending := pending - {key};
    }
    r := FormState(updatedValues, updatedValidities, updatedFormIsValid);
  }

  /** The state after dispatching a sequence of actions in order. */
  function ReduceAll(s: FormState, actions: seq<Action>): FormState
    decreases |actions|
  {
    if actions == [] then s else ReduceAll(FormReducer(s, actions[0]), actions[1..])
  }

  /** The inputs that a sequence of actions updates. */
  function UpdatedInputs(actions: seq<Action>): set<string>
  {
    if actions == [] then {}
    else (if actions[0].kind == FormInputUpdate then {actions[0].input} else {}) + UpdatedInputs(actions[1..])
  }

  /** After an update the form is valid exactly when the new input is valid
      and every other input already was. */
  lemma UpdateValidity(s: FormState, input: string, value: string, isValid: bool)
    ensures Update(s, input, value, isValid).formIsValid <==>
            isValid && forall k :: k in s.inputValidities && k != input ==> s.inputValidities[k]
  {
  }

  /** Dispatching the same action twice gives the state that dispatching it once gives. */
  lemma ReducerIdempotent(s: FormState, a: Action)
    ensures FormReducer(FormReducer(s, a), a) == FormReducer(s, a)
  {
  }

  /** Any sequence of actions keeps the invariant. */
  lemma {:induction false} ReduceAllInvariant(s: FormState, actions: seq<Action>)
    requires Invariant(s)
    ensures Invariant(ReduceAll(s, actions))
    decreases |actions|
  {
    if actions != [] {
      ReduceAllInvariant(FormReducer(s, actions[0]), actions[1..]);
    }
  }

  /** Every state reached from the initial one satisfies the invariant. */
  lemma ReachableInvariant(actions: seq<Action>)
    ensures Invariant(ReduceAll(InitialState(), actions))
  {
    ReduceAllInvariant(InitialState(), actions);
  }

  /** Updates never remove an input, and an unknown input is added rather than
      rejected: the inputs afterwards are the old ones plus the updated ones. */
  lemma {:induction false} ReduceAllInputs(s: FormState, actions: seq<Action>)
    ensures ReduceAll(s, actions).inputValues.Keys == s.inputValues.Keys + UpdatedInputs(actions)
    ensures ReduceAll(s, actions).inputValidities.Keys == s.inputValidities.Keys + UpdatedInputs(actions)
    decreases |actions|
  {
    if actions != [] {
      ReduceAllInputs(FormReducer(s, actions[0]), actions[1..]);
    }
  }

  /** Filling in a valid e-mail leaves the form invalid while the password is
      still invalid; a valid password then makes the whole form valid. */
  lemma SignInScenario()
    ensures var s0 := InitialState();
            var s1 := FormReducer(s0, Action(FormInputUpdate, "email", "a@b.com", true));
            var s2 := FormReducer(s1, Action(FormInputUpdate, "password", "abcde", true));
            !s0.formIsValid && !s1.formIsValid && s2.formIsValid
  {
  }
}
