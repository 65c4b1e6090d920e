/**
  One page session: the component's state together with what is pending
  outside it (armed timers, the in-flight callback request) and the log of
  callback requests sent. User events reach a handler only through a
  control that is rendered and enabled, as in the component's markup.
 */
module Session {
  import opened Wrappers
  import opened Strings
  import opened QueryParams
  import opened OtpForm

  /** The events of a session: typing into the identifier field, the two
      buttons, typing into an OTP slot, an armed timer firing (any of them),
      and the callback request settling. */
  datatype Event =
    | TypeId(value: string)
    | ClickGetOtp
    | TypeOtp(index: int, value: string)
    | ClickVerify
    | TimerFires(k: nat)
    | FetchSettles(resolved: bool)

  /** `sent` lists the `state` value of every callback request issued, in
      order; `fetching` counts those not yet settled. */
  datatype World = World(
    app: AppState,
    query: Query,
    timers: seq<Timer>,
    fetching: nat,
    sent: seq<Option<string>>)

  /** The session right after the mount effect has run on the initial state. */
  function Start(q: Query): (w: World)
    ensures w.app.(urlError := None) == Initial && w.query == q
    ensures w.timers == [] && w.fetching == 0 && w.sent == []
    ensures w.app.urlError.None? <==> forall x :: x in RequiredParams ==> x in q
  {
    World(Mount(Initial, q), q, [], 0, [])
  }

  /** The timers a list of effects arms, in order. */
  function Armed(effects: seq<Effect>): seq<Timer>
  {
    if |effects| == 0 then []
    else match effects[0]
      case StartTimer(t) => [t] + Armed(effects[1..])
      case Fetch(_) => Armed(effects[1..])
  }

  /** The callback requests a list of effects issues, in order. */
  function Requested(effects: seq<Effect>): seq<Option<string>>
  {
    if |effects| == 0 then []
    else match effects[0]
      case StartTimer(_) => Requested(effects[1..])
      case Fetch(st) => [st] + Requested(effects[1..])
  }

  /** Carries out a transition's effects in order: the armed timers and the
      requests are appended, each in the order the effects list them. */
  function Apply(w: World, effects: seq<Effect>): (r: World)
    ensures r.app == w.app && r.query == w.query
    ensures r.timers == w.timers + Armed(effects)
    ensures r.sent == w.sent + Requested(effects)
    ensures r.fetching == w.fetching + |Requested(effects)|
    decreases |effects|
  {
    if |effects| == 0 then w
    else
      match effects[0]
      case StartTimer(t) =>
        AppendAssoc(w.timers, [t], Armed(effects[1..]));
        Apply(w.(timers := w.timers + [t]), effects[1..])
      case Fetch(st) =>
        AppendAssoc(w.sent, [st], Requested(effects[1..]));
        Apply(w.(fetching := w.fetching + 1, sent := w.sent + [st]), effects[1..])
  }

  lemma AppendAssoc<T>(a: seq<T>, b: seq<T>, c: seq<T>)
    ensures a + b + c == a + (b + c)
  {
  }

  lemma ApplyTimer(w: World, t: Timer)
    ensures Apply(w, [StartTimer(t)]) == w.(timers := w.timers + [t])
  {
    assert [StartTimer(t)][1..] == [];
  }

  lemma ApplyFetch(w: World, st: Option<string>)
    ensures Apply(w, [Fetch(st)]) == w.(fetching := w.fetching + 1, sent := w.sent + [st])
  {
    assert [Fetch(st)][1..] == [];
  }

  function Perform(w: World, o: Outcome): World
  {
    Apply(w.(app := o.state), o.effects)
  }

  /** One event. A user event is ignored unless its control is on screen and
      enabled; a timer fires at most once and is then disarmed. */
  function Dispatch(w: World, ev: Event, numeric: string -> bool): (r: World)
    ensures r.query == w.query && r.app.urlError == w.app.urlError
  {
    var s := w.app;
    var panel := Render(s).panel;
    match ev
    case TypeId(value) =>
      if panel == Some(NumberEntry(true)) then w.(app := s.(id := value)) else w
    case ClickGetOtp =>
      if panel == Some(NumberEntry(true)) then Perform(w, HandleGetOtp(s, numeric)) else w
    case TypeOtp(index, value) =>
      if panel.Some? && panel.value.OtpEntry? && panel.value.inputsEnabled && 0 <= index < |s.otp|
      then Perform(w, HandleOtpChange(s, index, value))
      else w
    case ClickVerify =>
      if panel.Some? && panel.value.OtpEntry? && panel.value.verifyEnabled
      then Perform(w, HandleVerify(s, None))
      else w
    case TimerFires(k) =>
      if k < |w.timers| then
        var rest := w.timers[..k] + w.timers[k + 1..];
        match w.timers[k]
        case OtpSentTimer => w.(app := OtpSent(s), timers := rest)
        case VerifyTimer(code) => Perform(w.(timers := rest), VerifyDone(s, code, w.query))
      else w
    case FetchSettles(resolved) =>
      if w.fetching > 0 then w.(app := FetchSettled(s, resolved), fetching := w.fetching - 1) else w
  }

  /** What holds in every session reached from `Start`: six slots each empty
      or one digit; a query error freezes the first view; at most one timer,
      armed only while loading and only for the current step; the callback
      has been sent, once and with the query's `state`, exactly when the
      verified view is shown. */
  predicate Inv(w: World)
  {
    && |w.app.otp| == OtpLength
    && (forall k :: 0 <= k < |w.app.otp| ==> IsOtpInput(w.app.otp[k]))
    && (w.app.urlError.Some? ==>
          w.app.step == EnterNumber && !w.app.loading && w.timers == [] && w.fetching == 0)
    && |w.timers| <= 1
    && (|w.timers| == 1 ==> w.app.loading)
    && (|w.timers| == 1 && w.timers[0] == OtpSentTimer ==> w.app.step == EnterNumber)
    && (|w.timers| == 1 && w.timers[0].VerifyTimer? ==> w.app.step == EnterOtp)
    && w.fetching <= 1
    && (w.fetching == 1 ==> w.app.step == Verified)
    && (w.app.step == Verified ==> w.timers == [] && w.sent == [Get(w.query, "state")])
    && (w.app.step != Verified ==> w.sent == [])
  }

  lemma StartInv(q: Query)
    ensures Inv(Start(q))
  {
    assert Start(q).app.otp == Initial.otp;
  }

  /** Every event keeps the invariant and never moves the step backwards;
      the step changes only from the number view to the OTP view, or from
      the OTP view to the verified view. */
  lemma DispatchInv(w: World, ev: Event, numeric: string -> bool)
    requires Inv(w)
    ensures Inv(Dispatch(w, ev, numeric))
    ensures Rank(w.app.step) <= Rank(Dispatch(w, ev, numeric).app.step)
    ensures var step' := Dispatch(w, ev, numeric).app.step;
      step' == w.app.step
      || (w.app.step == EnterNumber && step' == EnterOtp)
      || (w.app.step == EnterOtp && step' == Verified)
  {
    match ev
    case TypeId(value) =>
    case ClickGetOtp => ClickGetOtpInv(w, numeric);
    case TypeOtp(index, value) => TypeOtpInv(w, index, value, numeric);
    case ClickVerify => ClickVerifyInv(w, numeric);
    case TimerFires(k) => TimerFiresInv(w, k, numeric);
    case FetchSettles(resolved) =>
  }

  /** The step moves forward by at most one place. */
  predicate Forward(a: Step, b: Step)
  {
    b == a || (a == EnterNumber && b == EnterOtp) || (a == EnterOtp && b == Verified)
  }

  lemma ClickGetOtpInv(w: World, numeric: string -> bool)
    requires Inv(w)
    ensures var r := Dispatch(w, ClickGetOtp, numeric);
      Inv(r) && Forward(w.app.step, r.app.step)
  {
    var s := w.app;
    if Render(s).panel == Some(NumberEntry(true)) {
      var o := HandleGetOtp(s, numeric);
      assert Dispatch(w, ClickGetOtp, numeric) == Apply(w.(app := o.state), o.effects);
    }
  }

  lemma TypeOtpInv(w: World, index: int, value: string, numeric: string -> bool)
    requires Inv(w)
    ensures var r := Dispatch(w, TypeOtp(index, value), numeric);
      Inv(r) && Forward(w.app.step, r.app.step)
  {
    var s := w.app;
    var r := Dispatch(w, TypeOtp(index, value), numeric);
    var panel := Render(s).panel;
    if panel.Some? && panel.value.OtpEntry? && panel.value.inputsEnabled && 0 <= index < |s.otp| {
      var o := HandleOtpChange(s, index, value);
      assert r == Apply(w.(app := o.state), o.effects);
      if |o.effects| > 0 {
        assert w.timers == [];
        ApplyTimer(w.(app := o.state), VerifyTimer(Join(o.state.otp, "")));
      } else {
        assert r == w.(app := o.state);
      }
      if IsOtpInput(value) {
        forall k | 0 <= k < |r.app.otp|
          ensures IsOtpInput(r.app.otp[k])
        {
          if k != index {
            assert r.app.otp[k] == s.otp[k];
          }
        }
      }
    }
  }

  lemma ClickVerifyInv(w: World, numeric: string -> bool)
    requires Inv(w)
    ensures var r := Dispatch(w, ClickVerify, numeric);
      Inv(r) && Forward(w.app.step, r.app.step)
  {
    var s := w.app;
    var panel := Render(s).panel;
    if panel.Some? && panel.value.OtpEntry? && panel.value.verifyEnabled {
      var o := HandleVerify(s, None);
      assert w.timers == [];
      ApplyTimer(w.(app := o.state), VerifyTimer(Join(s.otp, "")));
    }
  }

  lemma TimerFiresInv(w: World, k: nat, numeric: string -> bool)
    requires Inv(w)
    ensures var r := Dispatch(w, TimerFires(k), numeric);
      Inv(r) && Forward(w.app.step, r.app.step)
  {
    var s := w.app;
    var r := Dispatch(w, TimerFires(k), numeric);
    if k < |w.timers| {
      assert k == 0;
      var rest := w.timers[..k] + w.timers[k + 1..];
      assert rest == [];
      match w.timers[k]
      case OtpSentTimer =>
      case VerifyTimer(code) =>
        var o := VerifyDone(s, code, w.query);
        assert r == Apply(w.(timers := rest, app := o.state), o.effects);
        if code == CorrectOtp {
          ApplyFetch(w.(timers := rest, app := o.state), Get(w.query, "state"));
        }
    }
  }

  /** A session after a sequence of events. */
  function Run(w: World, evs: seq<Event>, numeric: string -> bool): (r: World)
    ensures r.query == w.query && r.app.urlError == w.app.urlError
    decreases |evs|
  {
    if |evs| == 0 then w else Run(Dispatch(w, evs[0], numeric), evs[1..], numeric)
  }

  /** Along any run the invariant holds and the step never moves backwards. */
  lemma {:induction false} RunInv(w: World, evs: seq<Event>, numeric: string -> bool)
    requires Inv(w)
    ensures Inv(Run(w, evs, numeric))
    ensures Rank(w.app.step) <= Rank(Run(w, evs, numeric).app.step)
    decreases |evs|
  {
    if |evs| > 0 {
      DispatchInv(w, evs[0], numeric);
      RunInv(Dispatch(w, evs[0], numeric), evs[1..], numeric);
    }
  }

  /** In every session, at most one callback request is ever sent; it is
      sent exactly when the verified view is reached, and it carries the
      `state` value of the page's query (or `None`, rendered as `null`,
      when the query has none). */
  lemma SessionCallback(q: Query, evs: seq<Event>, numeric: string -> bool)
    ensures var w := Run(Start(q), evs, numeric);
      && |w.sent| <= 1
      && (w.app.step == Verified <==> w.sent == [Get(q, "state")])
      && (w.app.step != Verified <==> w.sent == [])
  {
    StartInv(q);
    RunInv(Start(q), evs, numeric);
  }

  /** While the query error is set, no event changes anything: the error
      view is all there is. */
  lemma UrlErrorFreezes(w: World, ev: Event, numeric: string -> bool)
    requires Inv(w) && w.app.urlError.Some?
    ensures Dispatch(w, ev, numeric) == w
  {
  }

  /** A page missing a required parameter stays on its error, whatever the
      user does. */
  lemma {:induction false} MissingParamBlocksSession(q: Query, evs: seq<Event>, numeric: string -> bool)
    requires exists x :: x in RequiredParams && x !in q
    ensures Run(Start(q), evs, numeric) == Start(q)
  {
    StartInv(q);
    RunFrozen(Start(q), evs, numeric);
  }

  lemma {:induction false} RunFrozen(w: World, evs: seq<Event>, numeric: string -> bool)
    requires Inv(w) && w.app.urlError.Some?
    ensures Run(w, evs, numeric) == w
    decreases |evs|
  {
    if |evs| > 0 {
      UrlErrorFreezes(w, evs[0], numeric);
      RunFrozen(w, evs[1..], numeric);
    }
  }

  const HappyId: string := "123456789012"

  /** Typing a twelve-digit identifier, submitting it, and the "OTP sent"
      timer firing. */
  const ToOtpView: seq<Event> := [TypeId(HappyId), ClickGetOtp, TimerFires(0)]

  /** The digits of the accepted code typed into the slots in order: the
      first three, the next two, and the sixth, which fills the form. */
  const FirstDigits: seq<Event> := [TypeOtp(0, "1"), TypeOtp(1, "2"), TypeOtp(2, "3")]
  const MiddleDigits: seq<Event> := [TypeOtp(3, "4"), TypeOtp(4, "5")]
  const LastDigit: seq<Event> := [TypeOtp(5, "6")]
  const CorrectDigits: seq<Event> := FirstDigits + MiddleDigits + LastDigit

  const HappyEvents: seq<Event> := ToOtpView + CorrectDigits + [TimerFires(0)]

  /** The intended path: on a page with every parameter, a twelve-digit
      identifier, the "OTP sent" timer, the digits 1 to 6 (the sixth starts
      verification on its own) and the verification timer end on the
      verified view, with the one callback sent. */
  lemma HappyPath(q: Query, numeric: string -> bool)
    requires forall x :: x in RequiredParams ==> x in q
    requires AcceptsDigitStrings(numeric)
    ensures var w := Run(Start(q), HappyEvents, numeric);
      w.app.step == Verified && w.sent == [Get(q, "state")]
  {
    var w0 := Start(q);
    assert w0.app == Initial;
    var w3 := ReachOtpView(w0, numeric);
    var w9 := TypeCorrectDigits(w3, numeric);
    var w10 := FireVerify(w9, numeric);
    RunAppend(w0, ToOtpView, CorrectDigits, numeric);
    RunAppend(w0, ToOtpView + CorrectDigits, [TimerFires(0)], numeric);
  }

  /** From the initial state, `ToOtpView` reaches the empty OTP view. */
  lemma ReachOtpView(w0: World, numeric: string -> bool) returns (w3: World)
    requires w0.app == Initial && w0.timers == []
    requires AcceptsDigitStrings(numeric)
    ensures w3 == Run(w0, ToOtpView, numeric)
    ensures w3.app.step == EnterOtp && !w3.app.loading && w3.timers == []
    ensures w3.app.otp == EmptySlots && w3.app.urlError.None?
    ensures w3.sent == w0.sent && w3.fetching == w0.fetching && w3.query == w0.query
  {
    var w1 := Dispatch(w0, TypeId(HappyId), numeric);
    assert w1.app == Initial.(id := HappyId);
    HappyIdAccepted(w1.app, numeric);
    var w2 := Dispatch(w1, ClickGetOtp, numeric);
    ApplyTimer(w1.(app := w1.app.(loading := true, message := "")), OtpSentTimer);
    assert w2.timers == [OtpSentTimer];
    w3 := Dispatch(w2, TimerFires(0), numeric);
    assert Run(w2, ToOtpView[2..], numeric) == w3;
    assert Run(w1, ToOtpView[1..], numeric) == w3;
  }

  lemma HappyIdAccepted(s: AppState, numeric: string -> bool)
    requires AcceptsDigitStrings(numeric) && s.id == HappyId
    ensures IdAccepted(s.id, numeric)
  {
    assert AllDigits(HappyId);
    BareDigitsAccepted(s.id, numeric);
  }

  lemma BareDigitsAccepted(id: string, numeric: string -> bool)
    requires AcceptsDigitStrings(numeric)
    requires |id| == IdLength && AllDigits(id)
    ensures IdAccepted(id, numeric)
  {
    assert "" + id + "" == id;
    TrimPadded("", id, "");
    assert !IsJsWhitespace(id[0]) && !IsJsWhitespace(id[|id| - 1]);
  }

  /** Typing one digit into an empty slot of the OTP view, while another
      slot stays empty, only fills that slot. */
  lemma TypeOneDigit(w: World, index: int, digit: string, empty: int, numeric: string -> bool)
    requires w.app.urlError.None? && w.app.step == EnterOtp && !w.app.loading
    requires 0 <= index < |w.app.otp| && |digit| == 1 && IsDigit(digit[0])
    requires 0 <= empty < |w.app.otp| && empty != index && w.app.otp[empty] == ""
    ensures Dispatch(w, TypeOtp(index, digit), numeric)
            == w.(app := w.app.(otp := w.app.otp[index := digit]))
  {
    assert w.app.otp[index := digit][empty] == "";
  }

  /** The six digits of the accepted code, typed in order into empty slots,
      arm exactly one verification timer carrying that code. */
  lemma TypeCorrectDigits(w: World, numeric: string -> bool) returns (r: World)
    requires w.app.urlError.None? && w.app.step == EnterOtp && !w.app.loading
    requires w.app.otp == EmptySlots && w.timers == []
    ensures r == Run(w, CorrectDigits, numeric)
    ensures r.app.step == EnterOtp && r.app.otp == CorrectSlots && r.app.urlError.None?
    ensures r.timers == [VerifyTimer(CorrectOtp)] && r.sent == w.sent && r.fetching == w.fetching
    ensures r.query == w.query
  {
    var c := TypeFirstDigits(w, numeric);
    var e := TypeMiddleDigits(c, numeric);
    SlotsSpellCode();
    r := TypeLastDigit(e, numeric);
    RunAppend(w, FirstDigits, MiddleDigits, numeric);
    RunAppend(w, FirstDigits + MiddleDigits, LastDigit, numeric);
  }

  /** Typing 1 to 6 into the empty slots, one by one, spells the code. */
  lemma SlotsSpellCode()
    ensures EmptySlots[0 := "1"][1 := "2"][2 := "3"][3 := "4"][4 := "5"][5 := "6"] == CorrectSlots
  {
  }

  lemma TypeFirstDigits(w: World, numeric: string -> bool) returns (c: World)
    requires w.app.urlError.None? && w.app.step == EnterOtp && !w.app.loading
    requires w.app.otp == EmptySlots
    ensures c == Run(w, FirstDigits, numeric)
    ensures c == w.(app := w.app.(otp := EmptySlots[0 := "1"][1 := "2"][2 := "3"]))
  {
    TypeOneDigit(w, 0, "1", 5, numeric);
    var a := Dispatch(w, TypeOtp(0, "1"), numeric);
    TypeOneDigit(a, 1, "2", 5, numeric);
    var b := Dispatch(a, TypeOtp(1, "2"), numeric);
    TypeOneDigit(b, 2, "3", 5, numeric);
    c := Dispatch(b, TypeOtp(2, "3"), numeric);
    RunStep(b, TypeOtp(2, "3"), [], numeric);
    RunStep(a, TypeOtp(1, "2"), [TypeOtp(2, "3")], numeric);
    RunStep(w, TypeOtp(0, "1"), [TypeOtp(1, "2"), TypeOtp(2, "3")], numeric);
    assert FirstDigits == [TypeOtp(0, "1")] + [TypeOtp(1, "2"), TypeOtp(2, "3")];
  }

  lemma TypeMiddleDigits(w: World, numeric: string -> bool) returns (e: World)
    requires w.app.urlError.None? && w.app.step == EnterOtp && !w.app.loading
    requires w.app.otp == EmptySlots[0 := "1"][1 := "2"][2 := "3"]
    ensures e == Run(w, MiddleDigits, numeric)
    ensures e == w.(app := w.app.(otp := w.app.otp[3 := "4"][4 := "5"]))
  {
    TypeOneDigit(w, 3, "4", 5, numeric);
    var d := Dispatch(w, TypeOtp(3, "4"), numeric);
    TypeOneDigit(d, 4, "5", 5, numeric);
    e := Dispatch(d, TypeOtp(4, "5"), numeric);
    RunStep(d, TypeOtp(4, "5"), [], numeric);
    RunStep(w, TypeOtp(3, "4"), [TypeOtp(4, "5")], numeric);
    assert MiddleDigits == [TypeOtp(3, "4")] + [TypeOtp(4, "5")];
  }

  /** The sixth digit of the accepted code fills the slots and arms the
      verification timer with the code. */
  lemma TypeLastDigit(w: World, numeric: string -> bool) returns (f: World)
    requires w.app.urlError.None? && w.app.step == EnterOtp && !w.app.loading
    requires |w.app.otp| == OtpLength && w.app.otp[5 := "6"] == CorrectSlots
    ensures f == Run(w, LastDigit, numeric)
    ensures f == w.(app := w.app.(otp := CorrectSlots, loading := true, message := ""),
                    timers := w.timers + [VerifyTimer(CorrectOtp)])
  {
    CorrectSlotsJoin();
    assert AllFilled(CorrectSlots);
    TypeFinalDigit(w, 5, "6", numeric);
    f := Dispatch(w, TypeOtp(5, "6"), numeric);
    RunStep(w, TypeOtp(5, "6"), [], numeric);
    assert LastDigit == [TypeOtp(5, "6")] + [];
  }

  /** Typing a digit that fills the last empty slot of the OTP view arms
      the verification timer with the joined slots. */
  lemma TypeFinalDigit(w: World, index: int, digit: string, numeric: string -> bool)
    requires w.app.urlError.None? && w.app.step == EnterOtp && !w.app.loading
    requires 0 <= index < |w.app.otp| && |digit| == 1 && IsDigit(digit[0])
    requires AllFilled(w.app.otp[index := digit])
    ensures var slots := w.app.otp[index := digit];
      Dispatch(w, TypeOtp(index, digit), numeric)
      == w.(app := w.app.(otp := slots, loading := true, message := ""),
            timers := w.timers + [VerifyTimer(Join(slots, ""))])
  {
    var o := HandleOtpChange(w.app, index, digit);
    ApplyTimer(w.(app := o.state), VerifyTimer(Join(w.app.otp[index := digit], "")));
  }

  /** The verification timer with the accepted code reaches the verified
      view and sends the callback with the query's `state`. */
  lemma FireVerify(w: World, numeric: string -> bool) returns (r: World)
    requires w.app.step == EnterOtp && w.timers == [VerifyTimer(CorrectOtp)]
    requires w.sent == []
    ensures r == Run(w, [TimerFires(0)], numeric)
    ensures r.app.step == Verified && r.sent == [Get(w.query, "state")]
  {
    r := Dispatch(w, TimerFires(0), numeric);
    var st := Get(w.query, "state");
    ApplyFetch(w.(timers := [], app := VerifyDone(w.app, CorrectOtp, w.query).state), st);
    assert Run(r, [TimerFires(0)][1..], numeric) == r;
  }

  lemma RunStep(w: World, ev: Event, rest: seq<Event>, numeric: string -> bool)
    ensures Run(w, [ev] + rest, numeric) == Run(Dispatch(w, ev, numeric), rest, numeric)
  {
    assert ([ev] + rest)[1..] == rest;
  }

  /** Running two sequences of events one after the other is running their
      concatenation. */
  lemma {:induction false} RunAppend(w: World, xs: seq<Event>, ys: seq<Event>, numeric: string -> bool)
    ensures Run(w, xs + ys, numeric) == Run(Run(w, xs, numeric), ys, numeric)
    decreases |xs|
  {
    if |xs| > 0 {
      assert (xs + ys)[1..] == xs[1..] + ys;
      RunAppend(Dispatch(w, xs[0], numeric), xs[1..], ys, numeric);
    } else {
      assert xs + ys == ys;
    }
  }
}
