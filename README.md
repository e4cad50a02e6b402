# Login screen: form reducer and submit protocol

A Dafny model of the state logic of the login/sign-up screen of a small
mobile catalogue app (`screens/Login.js`). It has two parts.

- **The form reducer** (module `LoginForm`, `login_form.dfy`). The form
  state holds, for each named input, its raw text (`inputValues`) and whether
  that text is acceptable (`inputValidities`), plus the aggregate flag
  `formIsValid`. A `FORM_INPUT_UPDATE` action overwrites one input in both
  maps and recomputes the flag by folding every validity into a conjunction.
  Any other action leaves the state unchanged. `FormReducer` is the reducer
  as a function. `Reduce` is the same reducer as the screen runs it, with the
  copy of both maps and the loop over every key, proved equal to the function.
  The screen starts from an empty, invalid e-mail and password.
- **The submit protocol** (module `LoginScreen`, `login_screen.dfy`). The
  class `Login` holds the component's fields `isLoading`, `isSignup`, `error`
  and `formState`. `AuthHandler` picks the sign-up or log-in request from
  `isSignup`, using the form's e-mail and password. It then clears the error
  and shows the loading indicator, hands the request to the session store,
  and either navigates to `UserHome` or records the error and hides the
  indicator. The session store's answer is a parameter (`Outcome`). A ghost
  log of events records each observable step in order. The class invariant
  says three things about that log. Replaying it gives the current indicator
  and error. Every request reached the store while the indicator was shown
  and no error was. Every navigation directly follows a request. It also
  says that the indicator and an error are never both set, which holds
  between handler calls but not inside a failing submit.

Where this code and a stricter reading of the screen's intent differ, the
model follows the code. An update naming an input the form does not yet know
is not rejected: the input is added to both maps (`ReduceAllInputs`). Submit
does not check `formIsValid`. The handler itself has no guard against a
second submit while one is in flight; the screen only prevents one because
its markup shows the loading indicator instead of the submit button while
`isLoading` is true (`screens/Login.js:138-147`). On success the indicator is
never hidden again, so the screen offers no further submit. On failure the
handler sets the error before it hides the indicator, so for one step both
are set (`FailureShowsBoth`).

## Model

| member | source | states |
|---|---|---|
| `LoginForm.InitialState` | screens/Login.js:50-60 | the initial form holds exactly `email` and `password`, both empty and invalid; `formIsValid` is false and agrees with the conjunction |
| `LoginForm.Update` | screens/Login.js:20-36 | after an update, `formIsValid` holds exactly when every validity is true; the updated input has the new text and validity, it is added to both key sets if absent, and every other input keeps its text and validity |
| `LoginForm.FormReducer` | screens/Login.js:18-39 | an action of any other type returns the state unchanged; the reducer preserves the conjunction invariant, equal key sets, and the presence of `email` and `password` |
| `LoginForm.Reduce` | screens/Login.js:18-39 | the loop that ANDs every validity into `updatedFormIsValid`, starting from true, yields exactly the reducer's result |
| `LoginForm.UpdateValidity` | screens/Login.js:28-31 | after an update the form is valid iff the new validity is true and every other input was already valid |
| `LoginForm.ReducerIdempotent` | screens/Login.js:18-37 | dispatching the same action twice gives the same state as dispatching it once |
| `LoginForm.ReduceAllInvariant` | screens/Login.js:18-39 | any sequence of actions preserves the conjunction invariant, equal key sets and the two inputs submit reads |
| `LoginForm.ReachableInvariant` | screens/Login.js:50-60 | every state reachable from the initial form satisfies that invariant |
| `LoginForm.ReduceAllInputs` | screens/Login.js:20-27 | no input is ever removed; after a sequence of actions the key sets are the old ones plus the inputs that were updated |
| `LoginForm.SignInScenario` | screens/Login.js:28-31 | from the initial form, a valid e-mail leaves the form invalid, and a valid password then makes it valid |
| `LoginScreen.ChooseAction` | screens/Login.js:73-80 | the request is a sign-up iff `isSignup`, otherwise a log-in, and carries the form's `email` and `password` values |
| `LoginScreen.SubmitEvents` | screens/Login.js:82-90 | one submit makes exactly one request to the store; it navigates iff the request succeeds, and only to `UserHome` |
| `LoginScreen.FailureShowsBoth` | screens/Login.js:82-90 | on failure the error is set while the indicator is still shown: after the first four steps of a failing submit, from any view, both the indicator and the error are set |
| `LoginScreen.SubmitView` | screens/Login.js:82-90 | after a submit the indicator is shown with no error on success, and the error is shown with the indicator hidden on failure |
| `LoginScreen.SubmitKeepsOrder` | screens/Login.js:82-86 | appending a submit to a well-ordered log keeps it well-ordered: the request is made with the indicator shown and no error, and navigation directly follows it |
| `LoginScreen.Login.constructor` | screens/Login.js:44-60 | the screen mounts in log-in mode, with no indicator, no error and the initial form |
| `LoginScreen.Login.InputChangeHandler` | screens/Login.js:95-105 | an input change sends a `FORM_INPUT_UPDATE` action through the reducer and keeps the class invariant |
| `LoginScreen.Login.ToggleMode` | screens/Login.js:150-153 | the "Go to ..." button negates `isSignup` and changes nothing else |
| `LoginScreen.Login.AuthHandler` | screens/Login.js:72-93 | submit appends clear-error, show-indicator, request, then navigate (success) or set-error and hide-indicator (failure) to the log; success leaves the indicator shown and the error empty; failure leaves the error set and the indicator hidden; the class invariant, including "never indicator and error together", holds again when the handler returns (not at the step between setting the error and hiding the indicator) |

## Left out

- `screens/RegionsScreen.js` as a whole: the catalogue fetch is network I/O and JSON parsing, the redirect when the session token disappears is a one-line effect, and the navigation parameters are a constant literal.
- The alert shown when `error` becomes set (`screens/Login.js:62-67`): a UI side effect.
- The JSX markup and the style sheet (`screens/Login.js:107-187`).
- The session store's `login` and `signup` actions and the Firebase client: foreign code. The `Outcome` parameter of `AuthHandler` stands for how the whole `try` block ends (`screens/Login.js:84-91`). That block covers the awaited dispatch and also the `navigate('UserHome')` call. A throw from either reaches the same `catch`, and the failure log is the same in both cases.
- The markup's gating of submit on `!isLoading` (`screens/Login.js:138-147`) is not modelled: `AuthHandler` may be called in any valid state. The model therefore permits submits the screen cannot make, such as a second submit while one is in flight or any submit after a success.
- Interleaving during the `await`: `AuthHandler` runs as one step. A mode toggle or input change while the request is in flight is not modelled. React's batching of state setters is modelled as plain field assignment in program order.
- `undefined` (the initial `error`) and `null` (the cleared `error`) are both `None`.
- Object-key details of JavaScript (string coercion of `action.input`, inherited keys seen by `for...in`) are not modelled: inputs are strings and the maps hold only their own entries.
