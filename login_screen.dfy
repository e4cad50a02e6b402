/**
 The login screen's submit protocol.

 The screen keeps three fields of its own besides the form state: whether a
 request is in flight, whether the next submit signs up or logs in, and the
 last error. Submitting picks the action from the mode, clears the error,
 shows the loading indicator, hands the action to the session store and then
 either navigates to the home screen or records the error and hides the
 indicator. The session store's answer is a parameter here, and a ghost log
 records every observable step in the order the screen takes it.
 */
module LoginScreen {
  import opened LoginForm

  datatype Option<T> = None | Some(value: T)

  /** An error raised by the session store; it carries a message for the user. */
  datatype AuthError = AuthError(message: string)

  /** The request handed to the session store. */
  datatype AuthAction = LoginCall(email: string, password: string) | SignupCall(email: string, password: string)

  /** How the awaited request ends. */
  datatype Outcome = Success | Failure(err: AuthError)

  /** One observable step of the screen. */
  datatype Event =
    | ErrorSet(error: Option<AuthError>)
    | LoadingSet(loading: bool)
    | Dispatched(action: AuthAction)
    | Navigated(screen: string)

  /** What the user sees of the submit state: the indicator and the error. */
  datatype View = View(isLoading: bool, error: Option<AuthError>)

  /** Where a successful submit leads. */
  const HomeScreen: string := "UserHome"

  /** The view when the screen mounts: no indicator, no error. */
  const InitialView: View := View(false, None)

  /** The request a submit sends: sign-up exactly in sign-up mode, log-in
      otherwise, always with the form's current e-mail and password. */
  function ChooseAction(isSignup: bool, values: map<string, string>): (a: AuthAction)
    requires "email" in values && "password" in values
    ensures a.SignupCall? <==> isSignup
    ensures a.email == values["email"] && a.password == values["password"]
  {
    if isSignup then SignupCall(values["email"], values["password"])
    else LoginCall(values["email"], values["password"])
  }

  /** The effect of one step on the view; calls and navigation leave it alone. */
  function Apply(v: View, e: Event): View
  {
    match e
    case ErrorSet(err) => v.(error := err)
    case LoadingSet(b) => v.(isLoading := b)
    case Dispatched(_) => v
    case Navigated(_) => v
  }

  /** The view after a sequence of steps. */
  function Replay(v: View, events: seq<Event>): View
    decreases |events|
  {
    if events == [] then v else Replay(Apply(v, events[0]), events[1..])
  }

  /** Every request reached the session store while the indicator was shown
      and no error was, and every navigation directly follows a request. */
  ghost predicate WellOrdered(events: seq<Event>)
  {
    forall i {:trigger events[i]} :: 0 <= i < |events| ==>
      (events[i].Dispatched? ==> Replay(InitialView, events[..i]) == View(true, None)) &&
      (events[i].Navigated? ==> 0 < i && events[i - 1].Dispatched?)
  }

  /** The steps of one submit, in order. */
  function SubmitEvents(action: AuthAction, outcome: Outcome): (evs: seq<Event>)
    ensures 2 < |evs| && evs[2] == Dispatched(action)
    ensures forall i :: 0 <= i < |evs| && i != 2 ==> !evs[i].Dispatched?
    ensures Navigated(HomeScreen) in evs <==> outcome.Success?
    ensures forall e :: e in evs && e.Navigated? ==> e.screen == HomeScreen
  {
    [ErrorSet(None), LoadingSet(true), Dispatched(action)] +
    match outcome
    case Success => [Navigated(HomeScreen)]
    case Failure(err) => [ErrorSet(Some(err)), LoadingSet(false)]
  }

  /** Replaying two logs one after the other is replaying their concatenation. */
  lemma {:induction false} ReplayAppend(v: View, a: seq<Event>, b: seq<Event>)
    ensures Replay(v, a + b) == Replay(Replay(v, a), b)
    decreases |a|
  {
    if a == [] {
      assert a + b == b;
    } else {
      assert (a + b)[1..] == a[1..] + b;
      ReplayAppend(Apply(v, a[0]), a[1..], b);
    }
  }

  /** Whatever the view before, a submit ends with the indicator still shown
      and no error on success, and with the error shown and the indicator
      hidden on failure. */
  lemma SubmitView(v: View, action: AuthAction, outcome: Outcome)
    ensures Replay(v, SubmitEvents(action, outcome)) ==
            match outcome
            case Success => View(true, None)
            case Failure(err) => View(false, Some(err))
  {
    var evs := SubmitEvents(action, outcome);
    var head := [ErrorSet(None), LoadingSet(true), Dispatched(action)];
    var tail := evs[3..];
    assert evs == head + tail;
    ReplayAppend(v, head, tail);
    var shown := View(true, None);
    assert Replay(v, head) == shown by {
      assert head[1..] == [LoadingSet(true), Dispatched(action)];
      assert head[1..][1..] == [Dispatched(action)];
      assert Replay(shown, [Dispatched(action)]) == Replay(shown, []);
    }
    match outcome
    case Success =>
      assert tail == [Navigated(HomeScreen)];
      assert Replay(shown, tail) == Replay(shown, []);
    case Failure(err) =>
      assert tail == [ErrorSet(Some(err)), LoadingSet(false)];
      assert tail[1..] == [LoadingSet(false)];
      assert Replay(View(false, Some(err)), [LoadingSet(false)][1..]) == View(false, Some(err));
  }

  /** A failing submit sets the error before it hides the indicator, so for
      one step both are shown, whatever the view before the submit. */
  lemma FailureShowsBoth(v: View, action: AuthAction, err: AuthError)
    ensures Replay(v, SubmitEvents(action, Failure(err))[..4]) == View(true, Some(err))
  {
    var steps := SubmitEvents(action, Failure(err))[..4];
    var head := [ErrorSet(None), LoadingSet(true), Dispatched(action)];
    assert steps == head + [ErrorSet(Some(err))];
    ReplayAppend(v, head, [ErrorSet(Some(err))]);
    var shown := View(true, None);
    assert Replay(v, head) == shown by {
      assert head[1..] == [LoadingSet(true), Dispatched(action)];
      assert head[1..][1..] == [Dispatched(action)];
      assert Replay(shown, [Dispatched(action)]) == Replay(shown, []);
    }
    assert Replay(shown, [ErrorSet(Some(err))]) == Replay(View(true, Some(err)), []);
  }

  /** Appending a submit to a well-ordered log keeps it well-ordered. */
  lemma SubmitKeepsOrder(events: seq<Event>, action: AuthAction, outcome: Outcome)
    requires WellOrdered(events)
    ensures WellOrdered(events + SubmitEvents(action, outcome))
  {
    var evs := SubmitEvents(action, outcome);
    var all := events + evs;
    forall i | 0 <= i < |all|
      ensures all[i].Dispatched? ==> Replay(InitialView, all[..i]) == View(true, None)
      ensures all[i].Navigated? ==> 0 < i && all[i - 1].Dispatched?
    {
      if i < |events| {
        assert all[..i] == events[..i];
        assert all[i] == events[i];
      } else if all[i].Dispatched? {
        var j := i - |events|;
        assert evs[j] == all[i];
        assert j == 2;
        var head := [ErrorSet(None), LoadingSet(true)];
        assert all[..i] == events + head;
        ReplayAppend(InitialView, events, head);
        assert head[1..][1..] == [];
      }
    }
  }

  class Login {
    var isLoading: bool
    var isSignup: bool
    var error: Option<AuthError>
    var formState: FormState
    /** Every observable step so far, oldest first. */
    ghost var events: seq<Event>

    /** The invariant between handler calls. Within a failing submit the
        error is set one step before the indicator is hidden
        (FailureShowsBoth), so the last conjunct holds only between calls. */
    ghost predicate Valid()
      reads this
    {
      && Invariant(formState)
      && View(isLoading, error) == Replay(InitialView, events)
      && WellOrdered(events)
      && !(isLoading && error.Some?)
    }

    /** The screen as it mounts: logging in, idle, no error, empty form. */
    constructor ()
      ensures Valid()
      ensures !isLoading && !isSignup && error == None
      ensures formState == InitialState() && events == []
    {
      isLoading := false;
      isSignup := false;
      error := None;
      formState := InitialState();
      events := [];
    }

    /** An input reports a change: the form state goes through the reducer. */
    method InputChangeHandler(inputIdentifier: string, inputValue: string, inputValidity: bool)
      requires Valid()
      modifies this`formState
      ensures Valid()
      ensures formState == FormReducer(old(formState), Action(FormInputUpdate, inputIdentifier, inputValue, inputValidity))
    {
      formState := Reduce(formState, Action(FormInputUpdate, inputIdentifier, inputValue, inputValidity));
    }

    /** The "Go to ..." button switches between logging in and signing up. */
    method ToggleMode()
      requires Valid()
      modifies this`isSignup
      ensures Valid()
      ensures isSignup == !old(isSignup)
    {
      isSignup := !isSignup;
    }

    /** Submit: pick the request, clear the error, show the indicator, send
        the request, then navigate home or record the error. */
    method AuthHandler(outcome: Outcome)
      requires Valid()
      modifies this`isLoading, this`error, this`events
      ensures Valid()
      ensures events == old(events) + SubmitEvents(ChooseAction(isSignup, formState.inputValues), outcome)
      ensures outcome.Success? ==> isLoading && error == None
      ensures outcome.Failure? ==> !isLoading && error == Some(outcome.err)
    {
      var action := ChooseAction(isSignup, formState.inputValues);
      error := None;
      events := events + [ErrorSet(None)];
      isLoading := true;
      events := events + [LoadingSet(true)];
      events := events + [Dispatched(action)];
      match outcome {
        case Success =>
          events := events + [Navigated(HomeScreen)];
        case Failure(err) =>
          error := Some(err);
          events := events + [ErrorSet(Some(err))];
          isLoading := false;
          events := events + [LoadingSet(false)];
      }
      assert events == old(events) + SubmitEvents(action, outcome);
      ReplayAppend(InitialView, old(events), SubmitEvents(action, outcome));
      SubmitView(Replay(InitialView, old(events)), action, outcome);
      SubmitKeepsOrder(old(events), action, outcome);
    }
  }
}
