/**
  The form component as an explicit state record with one pure transition
  function per event. Each of the component's delayed operations is split
  into a "start" transition, which returns the timer it arms as an effect,
  and a "complete" transition, which the environment delivers later.
 */
module OtpForm {
  import opened Wrappers
  import opened Strings
  import opened QueryParams

  /** The three views the component moves through, in order. */
  datatype Step = EnterNumber | EnterOtp | Verified

  /** Position of a step in the forward order of the flow. */
  function Rank(step: Step): nat
  {
    match step
    case EnterNumber => 0
    case EnterOtp => 1
    case Verified => 2
  }

  const OtpLength: nat := 6
  const IdLength: nat := 12
  const CorrectOtp: string := "123456"

  const IdErrorMessage: string := "Fyda number is required and should be 12 digits. "
  const OtpSentMessage: string := "OTP sent successfully."
  const VerifiedMessage: string := "\U{2705} OTP verified successfully."
  const InvalidOtpMessage: string := "\U{274C} Invalid OTP."

  /** The component's state hooks: the typed identifier, the current view,
      the six OTP slots, the loading flag, the status message and the
      query-string error (`None` is `null`). */
  datatype AppState = AppState(
    step: Step,
    id: string,
    otp: seq<string>,
    loading: bool,
    message: string,
    urlError: Option<string>)

  /** The initial values of the state hooks. */
  /** The six OTP inputs before anything is typed. */
  const EmptySlots: seq<string> := ["", "", "", "", "", ""]

  const Initial: AppState :=
    AppState(EnterNumber, "", EmptySlots, false, "", None)

  /** A delayed completion armed by `setTimeout`, with what its closure
      captured. */
  datatype Timer = OtpSentTimer | VerifyTimer(code: string)

  /** What a transition asks of the outside world: arm a timer, or send the
      callback request carrying the query's `state` value. */
  datatype Effect = StartTimer(timer: Timer) | Fetch(state: Option<string>)

  datatype Outcome = Outcome(state: AppState, effects: seq<Effect>)

  /** The mount effect: `urlError` is set exactly when some required
      parameter is missing, and nothing else changes. */
  function Mount(s: AppState, q: Query): (r: AppState)
    ensures r.(urlError := s.urlError) == s
    ensures r.urlError == (if MountUrlError(q).Some? then MountUrlError(q) else s.urlError)
    ensures s.urlError.None? ==> (r.urlError.None? <==> forall x :: x in RequiredParams ==> x in q)
  {
    match MountUrlError(q)
    case Some(e) => s.(urlError := Some(e))
    case None => s
  }

  /** What the identifier check reads: JavaScript's `!isNaN(t)` is modelled as
      a parameter `numeric`, of which only this much is assumed. */
  ghost predicate AcceptsDigitStrings(numeric: string -> bool)
  {
    forall t :: AllDigits(t) ==> numeric(t)
  }

  /** The identifier passes `handleGetOtp`'s guard. */
  predicate IdAccepted(id: string, numeric: string -> bool)
  {
    var t := Trim(id);
    |t| == IdLength && numeric(t)
  }

  /** `handleGetOtp`: a rejected identifier only sets the fixed error
      message; an accepted one starts loading, clears the message and arms
      the "OTP sent" timer. Neither touches the step, the identifier or the
      slots. */
  function HandleGetOtp(s: AppState, numeric: string -> bool): (o: Outcome)
    ensures o.state.step == s.step && o.state.id == s.id && o.state.otp == s.otp
    ensures o.state.urlError == s.urlError
    ensures |o.effects| > 0 <==> IdAccepted(s.id, numeric)
    ensures |o.effects| > 0 ==>
      && o.effects == [StartTimer(OtpSentTimer)]
      && o.state.loading && o.state.message == ""
    ensures |o.effects| == 0 ==>
      o.state.loading == s.loading && o.state.message == IdErrorMessage
  {
    var t := Trim(s.id);
    if |t| != IdLength || !numeric(t) then
      Outcome(s.(message := IdErrorMessage), [])
    else
      Outcome(s.(loading := true, message := ""), [StartTimer(OtpSentTimer)])
  }

  /** An identifier whose trimmed length is not twelve is rejected whatever
      the numeric check says: only the message changes. */
  lemma WrongLengthRejected(s: AppState, numeric: string -> bool)
    requires |Trim(s.id)| != IdLength
    ensures HandleGetOtp(s, numeric) == Outcome(s.(message := IdErrorMessage), [])
  {
  }

  /** Twelve ASCII digits, with any whitespace around them, are accepted by
      every numeric check that accepts digit strings. */
  lemma DigitIdAccepted(s: AppState, numeric: string -> bool, pre: string, digits: string, post: string)
    requires AcceptsDigitStrings(numeric)
    requires s.id == pre + digits + post
    requires AllWhitespace(pre) && AllWhitespace(post)
    requires |digits| == IdLength && AllDigits(digits)
    ensures IdAccepted(s.id, numeric)
    ensures HandleGetOtp(s, numeric)
            == Outcome(s.(loading := true, message := ""), [StartTimer(OtpSentTimer)])
  {
    assert !IsJsWhitespace(digits[0]) && !IsJsWhitespace(digits[|digits| - 1]);
    TrimPadded(pre, digits, post);
  }

  /** The "OTP sent" completion: the OTP view is shown with the success
      message and loading cleared; the identifier, slots and query error
      stay as they were. */
  function OtpSent(s: AppState): (r: AppState)
    ensures r.step == EnterOtp && !r.loading && r.message == OtpSentMessage
    ensures r.id == s.id && r.otp == s.otp && r.urlError == s.urlError
  {
    s.(step := EnterOtp, message := OtpSentMessage, loading := false)
  }

  /** What one OTP input accepts, `/^\d?$/`: nothing, or one ASCII digit;
      equivalently, a string of digits at most one long. */
  function IsOtpInput(value: string): (b: bool)
    ensures b <==> |value| <= 1 && AllDigits(value)
  {
    value == "" || (|value| == 1 && IsDigit(value[0]))
  }

  predicate AllFilled(slots: seq<string>)
  {
    forall k :: 0 <= k < |slots| ==> slots[k] != ""
  }

  /** `handleVerify`'s start: the code is the joined override when one is
      given and the joined current slots otherwise; loading starts, the
      message is cleared and the verification timer captures the code. */
  function HandleVerify(s: AppState, overrideOtp: Option<seq<string>>): (o: Outcome)
    ensures o.state.step == s.step && o.state.id == s.id && o.state.otp == s.otp
    ensures o.state.urlError == s.urlError
    ensures o.state.loading && o.state.message == ""
    ensures o.effects == [StartTimer(VerifyTimer(Join(overrideOtp.GetOr(s.otp), "")))]
  {
    var code := match overrideOtp
      case Some(slots) => Join(slots, "")
      case None => Join(s.otp, "");
    Outcome(s.(loading := true, message := ""), [StartTimer(VerifyTimer(code))])
  }

  /** `handleOtpChange`: an input other than empty or one digit changes
      nothing. Otherwise slot `index` alone becomes `value`, and verification
      starts, on the new slots, exactly when all of them are filled. */
  function HandleOtpChange(s: AppState, index: int, value: string): (o: Outcome)
    requires 0 <= index < |s.otp|
    ensures !IsOtpInput(value) ==> o == Outcome(s, [])
    ensures o.state.step == s.step && o.state.id == s.id && o.state.urlError == s.urlError
    ensures IsOtpInput(value) ==>
      && |o.state.otp| == |s.otp|
      && o.state.otp[index] == value
      && (forall k :: 0 <= k < |s.otp| && k != index ==> o.state.otp[k] == s.otp[k])
    ensures IsOtpInput(value) ==> (|o.effects| > 0 <==> AllFilled(o.state.otp))
    ensures |o.effects| > 0 ==>
      && o.effects == [StartTimer(VerifyTimer(Join(o.state.otp, "")))]
      && o.state.loading && o.state.message == ""
    ensures |o.effects| == 0 ==>
      o.state.loading == s.loading && o.state.message == s.message
  {
    if !IsOtpInput(value) then Outcome(s, [])
    else
      var slots := s.otp[index := value];
      var s1 := s.(otp := slots);
      if AllFilled(slots) then HandleVerify(s1, Some(slots)) else Outcome(s1, [])
  }

  /** The digits `1` to `6` in their slots: the only filled slots that spell
      the accepted code. */
  const CorrectSlots: seq<string> := ["1", "2", "3", "4", "5", "6"]

  /** When every slot holds one digit, the joined code has one character per
      slot, and it equals the accepted code exactly when the slots are
      `1` to `6` in order. */
  lemma JoinedCodeMatches(slots: seq<string>)
    requires |slots| == OtpLength
    requires forall k :: 0 <= k < |slots| ==> IsOtpInput(slots[k]) && slots[k] != ""
    ensures |Join(slots, "")| == OtpLength
    ensures Join(slots, "") == CorrectOtp <==> slots == CorrectSlots
  {
    JoinSingles(slots);
    var code := Join(slots, "");
    if code == CorrectOtp {
      SlotsFromCode(slots, code);
    }
    if slots == CorrectSlots {
      CodeFromSlots(slots, code);
    }
  }

  lemma CorrectSlotsJoin()
    ensures Join(CorrectSlots, "") == CorrectOtp
  {
    JoinedCodeMatches(CorrectSlots);
  }

  lemma SlotsFromCode(slots: seq<string>, code: string)
    requires |slots| == OtpLength && code == CorrectOtp
    requires forall k :: 0 <= k < |slots| ==> |slots[k]| == 1 && code[k] == slots[k][0]
    ensures slots == CorrectSlots
  {
    forall k | 0 <= k < |slots|
      ensures slots[k] == CorrectSlots[k]
    {
      assert slots[k] == [code[k]];
    }
  }

  lemma CodeFromSlots(slots: seq<string>, code: string)
    requires slots == CorrectSlots && |code| == OtpLength
    requires forall k :: 0 <= k < |slots| ==> code[k] == slots[k][0]
    ensures code == CorrectOtp
  {
    forall k | 0 <= k < |code|
      ensures code[k] == CorrectOtp[k]
    {
      assert code[k] == slots[k][0];
    }
  }


  /** The verification completion. On the accepted code the verified view
      and message are shown and exactly one callback effect carries the
      query's `state`; loading is left set, since the component clears it
      only after the request settles. On any other code the failure message
      is shown and loading is cleared; the step and the slots stay. */
  function VerifyDone(s: AppState, code: string, q: Query): (o: Outcome)
    ensures o.state.id == s.id && o.state.otp == s.otp && o.state.urlError == s.urlError
    ensures code == CorrectOtp ==>
      && o.state.step == Verified && o.state.message == VerifiedMessage
      && o.state.loading == s.loading
      && o.effects == [Fetch(Get(q, "state"))]
    ensures code != CorrectOtp ==>
      && o.state.step == s.step && o.state.message == InvalidOtpMessage
      && !o.state.loading
      && o.effects == []
  {
    if code == CorrectOtp then
      Outcome(s.(step := Verified, message := VerifiedMessage), [Fetch(Get(q, "state"))])
    else
      Outcome(s.(message := InvalidOtpMessage, loading := false), [])
  }

  /** The callback request settles: the statement after `await fetch(...)`
      clears loading when the request resolved; a rejection skips it. */
  function FetchSettled(s: AppState, resolved: bool): (r: AppState)
    ensures r.(loading := s.loading) == s
    ensures r.loading == (s.loading && !resolved)
  {
    if resolved then s.(loading := false) else s
  }

  /** The interactive part of a view, with whether its controls are enabled. */
  datatype Panel =
    | NumberEntry(enabled: bool)
    | OtpEntry(slots: seq<string>, inputsEnabled: bool, verifyEnabled: bool)
    | VerifiedBanner

  /** What the component renders: the query error, at most one panel, and
      the status message. */
  datatype Screen = Screen(error: Option<string>, panel: Option<Panel>, message: Option<string>)

  /** The view selection: a query error hides every panel and the message;
      otherwise the panel is the one of the current step, controls are
      disabled while loading, and Verify also while a slot is empty. */
  function Render(s: AppState): (r: Screen)
    ensures r.error == s.urlError
    ensures s.urlError.Some? ==> r.panel.None? && r.message.None?
    ensures s.urlError.None? ==> r.panel.Some?
    ensures r.panel.Some? ==>
      && (r.panel.value.NumberEntry? <==> s.step == EnterNumber)
      && (r.panel.value.OtpEntry? <==> s.step == EnterOtp)
      && (r.panel.value.VerifiedBanner? <==> s.step == Verified)
    ensures r.message.Some? <==> s.urlError.None? && s.message != ""
    ensures r.message.Some? ==> r.message.value == s.message
    ensures r.panel == Some(NumberEntry(true)) <==>
      s.urlError.None? && s.step == EnterNumber && !s.loading
    ensures r.panel.Some? && r.panel.value.OtpEntry? ==>
      && r.panel.value.slots == s.otp
      && r.panel.value.inputsEnabled == !s.loading
      && (r.panel.value.verifyEnabled <==> !s.loading && AllFilled(s.otp))
  {
    var panel :=
      if s.urlError.Some? then None
      else match s.step
        case EnterNumber => Some(NumberEntry(!s.loading))
        case EnterOtp => Some(OtpEntry(s.otp, !s.loading, !s.loading && AllFilled(s.otp)))
        case Verified => Some(VerifiedBanner);
    var message := if s.urlError.None? && s.message != "" then Some(s.message) else None;
    Screen(s.urlError, panel, message)
  }
}
