# Fyda OTP verification form, modelled in Dafny

The repository is one React component (`src/App.js`) that gates a page on
eleven OAuth/OIDC-style query parameters, takes a 12-digit Fyda
(national-ID) number, simulates sending a one-time password, takes the six
OTP digits and, when they spell the accepted code `123456`, shows the
verified view and sends one callback request carrying the query's `state`.

This project models the decision logic under the rendering:

- `strings.dfy` (module `Strings`): `Array.prototype.join`,
  `String.prototype.trim` with ECMAScript's whitespace and line-terminator
  set, ASCII digits, and `SplitOn`, `split` for a non-empty separator, which
  reads a joined list back.
- `query_params.dfy` (module `QueryParams`): `requiredParams`,
  `validateQueryParams`, `params.get`, and the text the mount effect puts
  in `urlError`.
- `otp_form.dfy` (module `OtpForm`): the state record
  `{step, id, otp, loading, message, urlError}`, with a closed `Step`
  datatype. There is one pure transition per event. Each `setTimeout`
  is split into a start transition, which returns the timer it arms as an
  effect, and a completion transition. The module also holds the view
  selection (`Render`).
- `session.dfy` (module `Session`): one page session. It holds the
  component state, the armed timers, the in-flight callback request and a
  log of the callbacks sent. `Dispatch` delivers a user event only through a
  control that is rendered and enabled, as the markup does. Timers fire in
  any order. The session invariant `Inv` holds on every run from the mount.

The `isNaN(fydaNumber.trim())` test is a parameter `numeric: string -> bool`.
The proofs assume only `AcceptsDigitStrings(numeric)`: every all-digit
string passes.

Three behaviours of the code worth stating:

- On the accepted code, `setLoading(false)` runs after `await fetch(...)`
  (src/App.js:90-96). Loading therefore stays set until the request
  resolves, and stays set for good if the request rejects.
  `VerifyDone` leaves `loading` as it was on success, and the separate
  event `FetchSettles` clears it only on resolution.
- The identifier test does not demand "digits only". It demands a trimmed
  length of 12 and that `isNaN` is false. The model leaves `isNaN` abstract
  and claims acceptance only for digit strings.
- The callback URL interpolates `params.get("state")` without encoding it.
  A missing `state` is `None` in the callback effect, which the URL renders as `null`.

## Model

| member | source | states |
|---|---|---|
| Strings.TrimStart | src/App.js:42 | the leading part `trim()` removes is all JavaScript whitespace, and what remains is a suffix that does not start with whitespace |
| Strings.TrimEnd | src/App.js:42 | the trailing part `trim()` removes is all JavaScript whitespace, and what remains is a prefix that does not end with whitespace |
| Strings.Trim | src/App.js:42 | `trim()` yields the slice of its input left once the JavaScript whitespace on both sides is cut away, and that slice has no leading or trailing whitespace |
| Strings.TrimPadded | src/App.js:42 | trimming is determined: whitespace + trimmed core + whitespace trims back to exactly the core |
| Strings.TrimIdempotent | src/App.js:42 | trimming a trimmed identifier changes nothing |
| Strings.Join | src/App.js:37 | `join(sep)` of an empty list is empty; otherwise the text starts with the first element followed, when there is a second, by `sep`; the full text is pinned by `Strings.SplitJoin` on lists whose elements do not contain the separator's first character, and by `Strings.JoinSingles` on one-character slots: the only lists the form joins |
| Strings.SplitJoin | src/App.js:37 | `join(", ")` on a non-empty list of comma-free names loses nothing: splitting the text back at ", " gives the list |
| Strings.JoinSplit | src/App.js:37 | splitting any text at a separator and joining the pieces with it gives the text back, so a text is determined by its split |
| Strings.JoinSingles | src/App.js:74 | `otp.join("")` of single-character slots has one character per slot, slot k's at position k |
| QueryParams.Get | src/App.js:87-89 | `params.get(key)` is present exactly when the key is, with that key's value; otherwise null |
| QueryParams.Missing | src/App.js:19 | the filter keeps exactly the names that are not keys, as an ordered subsequence, without duplicates when the names have none |
| QueryParams.MissingCounts | src/App.js:19 | the filter keeps each name that is not a key as many times as it occurs in the list, and no key at all |
| QueryParams.RequiredParamsDistinct | src/App.js:4-16 | the eleven required names are pairwise distinct |
| QueryParams.ValidateQueryParams | src/App.js:18-21 | the result is exactly the required names absent from the query, in required-list order, with no duplicates |
| QueryParams.MountUrlError | src/App.js:33-39 | the error is null exactly when every required name is present; otherwise it begins with "Missing URL parameter(s): " |
| QueryParams.UrlErrorListsMissing | src/App.js:36-37 | when a name is missing, the error is the prefix followed by the missing list joined with ", ", and the text after the prefix splits at ", " back into exactly that list |
| QueryParams.OnlyScopeMissing | src/App.js:18-21 | a query lacking only `scope` yields the missing list `["scope"]` |
| QueryParams.ScopeErrorText | src/App.js:36-37 | that list yields the error "Missing URL parameter(s): scope" |
| OtpForm.Mount | src/App.js:33-39 | the mount effect touches only `urlError`, and leaves it null exactly when no required name is missing |
| OtpForm.HandleGetOtp | src/App.js:41-55 | a submit is accepted iff the trimmed identifier has length 12 and passes the numeric test; a rejection only sets the fixed message, an acceptance sets loading, clears the message and arms the timer; step, identifier and slots never change |
| OtpForm.WrongLengthRejected | src/App.js:42-45 | a trimmed length other than 12 is rejected whatever the numeric test says, changing only the message |
| OtpForm.DigitIdAccepted | src/App.js:42-49 | twelve ASCII digits with any surrounding whitespace pass the guard and start loading |
| OtpForm.OtpSent | src/App.js:50-54 | the "OTP sent" completion shows the OTP view with its message and clears loading, keeping identifier and slots |
| OtpForm.IsOtpInput | src/App.js:58 | the `/^\d?$/` test accepts exactly the digit strings of length at most one |
| OtpForm.HandleOtpChange | src/App.js:57-71 | input other than empty or one digit changes nothing; otherwise slot `index` alone becomes the input, and verification starts exactly when all six new slots are filled, on the new slots' joined code |
| OtpForm.HandleVerify | src/App.js:73-78 | verification codes the override slots when given and the current slots otherwise, and starts loading with an empty message, keeping step and slots |
| OtpForm.JoinedCodeMatches | src/App.js:74-80 | six filled digit slots join to six characters, and equal "123456" exactly when the slots are 1 to 6 in order |
| OtpForm.VerifyDone | src/App.js:79-97 | on "123456" the step becomes verified with the success message and exactly one callback carrying the query's `state`; otherwise the step stays, the failure message shows, loading clears and nothing is sent; slots untouched either way |
| OtpForm.FetchSettled | src/App.js:90-96 | loading is cleared only when the callback request resolves |
| OtpForm.Render | src/App.js:105-153 | a query error hides all three panels and the message; otherwise exactly the current step's panel shows; the number form is enabled iff not loading; the OTP panel shows the current slots, its inputs enabled iff not loading and Verify enabled iff not loading and every slot is filled; the status line shows the state's own message text |
| Session.Start | src/App.js:25-39 | a session starts from the initial hook values with only `urlError` set by the mount, null iff all required names are present |
| Session.Dispatch | src/App.js:107-147 | no event changes the query or the query error |
| Session.StartInv | src/App.js:25-39 | the session invariant holds after mount |
| Session.DispatchInv | src/App.js:50-97 | every event keeps the invariant; the step only moves enterNumber to enterOtp or enterOtp to verified, never backwards |
| Session.RunInv | src/App.js:50-97 | along any run of events the invariant holds and the step never regresses |
| Session.SessionCallback | src/App.js:79-92 | in any session at most one callback is sent; it is sent exactly when the verified view is reached, carrying the query's `state` |
| Session.UrlErrorFreezes | src/App.js:105-153 | while the query error is set, no event changes anything |
| Session.MissingParamBlocksSession | src/App.js:33-39 | a page missing a required parameter never leaves its error view, whatever the events |
| Session.HappyPath | src/App.js:41-97 | a full page, a 12-digit identifier, the OTP-sent timer, the digits 1-6 and the verification timer reach the verified view with the one callback sent |

## Left out

- JSX markup, CSS and focus management through `inputRefs` (src/App.js:65, 100-156): presentation only. The view selection and the enabled/disabled guards are modelled.
- `setTimeout` delays: each timer is an effect that a later `TimerFires` event completes. There is no clock, and timers may fire in any order.
- The `fetch` call and its URL (src/App.js:83-92) are network I/O. They appear only as the `Fetch` effect with the `state` value, and as the `FetchSettles` event.
- `URLSearchParams` and `window.location` parsing: the query is a map from each present key to the value `get` returns.
- JavaScript's `isNaN`/`Number` coercion: it is a parameter. Strings such as `-12345678901` or `0x1234567890` may pass it in the code; the model makes no claim about them.
- String lengths count characters, not UTF-16 code units. This affects only characters outside the Basic Multilingual Plane, which the numeric test rejects anyway.
- The identifier field's `onChange` is modelled inside `Session.Dispatch` as the `TypeId` event, not as a function of its own.
