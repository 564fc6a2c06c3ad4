/** The browser client's interceptors: what happens to an API call until it is over, for any number of
    concurrent calls and whatever the server answers. */
module ApiClient {
  import opened Prelude

  /** `CsrfRejected` is a 403 whose error mentions CSRF; `Other` is any other failure. */
  datatype Answer = Success | Unauthorized | CsrfRejected | Other

  /** The marks the interceptor leaves on a request configuration. */
  datatype Flags = Flags(retry: bool, csrfRetry: bool, authModeRetry: bool)

  const UNMARKED := Flags(false, false, false)

  datatype Phase =
    | AwaitToken(fetch: nat)      // in the request interceptor, on `csrfTokenPromise`
    | Sent
    | Probing(share: bool)        // on `getAuthEnabledStatus`
    | FetchingToken               // on the `fetchCsrfToken` of a CSRF retry
    | AwaitRefresh(refresh: nat)  // on `refreshPromise`, which is that call
    | Redirecting                 // on `redirectToLogin`
    | Done(ok: bool)

  /** One `api(...)` call. A token fetch that fails in the request interceptor brings its own configuration:
      the error handler then works on that one (`shared`, by the fetch's number), and a retry sends a copy of
      it in place of the call's request (`swapped`). `sends` counts the call's own request and `tokenSends`
      the copies. */
  datatype Call = Call(needsCsrf: bool, authRoute: bool, isRefresh: bool, swapped: bool, shared: Option<nat>,
                       flags: Flags, sends: nat, tokenSends: nat, phase: Phase)

  /** A token fetch made by `ensureCsrfToken`, and the marks on its configuration. */
  datatype Fetch = Fetch(answer: Option<Answer>, flags: Flags)

  datatype State = State(calls: seq<Call>, fetches: seq<Fetch>, hasToken: bool,
                         tokenPromise: Option<nat>, refreshPromise: Option<nat>)

  const INITIAL := State([], [], false, None, None)

  datatype Event =
    | Begin(needsCsrf: bool, authRoute: bool)
    | Reply(c: nat, answer: Answer, share: bool)
    | TokenReply(answer: Answer)
    | Resume(c: nat, share: bool)
    | Probed(c: nat, enabled: Option<bool>)
    | OwnToken(c: nat, ok: bool)
    | Redirected(c: nat)

  // ---- the interceptors --------------------------------------------------

  function NewCall(needsCsrf: bool, authRoute: bool, isRefresh: bool): Call {
    Call(needsCsrf, authRoute, isRefresh, false, None, UNMARKED, 0, 0, Sent)
  }

  function SetPhase(s: State, c: nat, phase: Phase): State
    requires c < |s.calls|
  {
    s.(calls := s.calls[c := s.calls[c].(phase := phase)])
  }

  /** The call settles; `refreshPromise` is cleared when it was that one. */
  function Finish(s: State, c: nat, ok: bool): State
    requires c < |s.calls|
  {
    SetPhase(s, c, Done(ok)).(refreshPromise := if s.refreshPromise == Some(c) then None else s.refreshPromise)
  }

  function Dispatch(s: State, c: nat): State
    requires c < |s.calls|
  {
    var call := s.calls[c];
    s.(calls := s.calls[c := if call.swapped then call.(phase := Sent, tokenSends := call.tokenSends + 1)
                             else call.(phase := Sent, sends := call.sends + 1)])
  }

  /** The request interceptor. */
  function Send(s: State, c: nat): State
    requires c < |s.calls|
  {
    var call := s.calls[c];
    if call.needsCsrf && !call.swapped && !s.hasToken then
      if s.tokenPromise.Some? then SetPhase(s, c, AwaitToken(s.tokenPromise.value))
      else
        SetPhase(s, c, AwaitToken(|s.fetches|)).(fetches := s.fetches + [Fetch(None, UNMARKED)],
                                                 tokenPromise := Some(|s.fetches|))
    else Dispatch(s, c)
  }

  predicate SharedExists(s: State, c: nat) {
    c < |s.calls| && (s.calls[c].shared.Some? ==> s.calls[c].shared.value < |s.fetches|)
  }

  function FlagsOf(s: State, c: nat): Flags
    requires SharedExists(s, c)
  {
    if s.calls[c].shared.Some? then s.fetches[s.calls[c].shared.value].flags else s.calls[c].flags
  }

  function SetFlags(s: State, c: nat, flags: Flags): State
    requires SharedExists(s, c)
  {
    if s.calls[c].shared.Some? then
      var f := s.calls[c].shared.value;
      s.(fetches := s.fetches[f := s.fetches[f].(flags := flags)])
    else s.(calls := s.calls[c := s.calls[c].(flags := flags)])
  }

  /** `api(originalRequest)` */
  function Resend(s: State, c: nat): State
    requires SharedExists(s, c)
  {
    if s.calls[c].shared.Some? then
      Send(s.(calls := s.calls[c := s.calls[c].(swapped := true, shared := None, flags := FlagsOf(s, c))]), c)
    else Send(s, c)
  }

  predicate OnAuthRoute(call: Call) {
    call.authRoute && !call.swapped && call.shared.None?
  }

  /** The response interceptor, up to its first await. */
  function HandleAnswer(s: State, c: nat, answer: Answer, share: bool): State
    requires SharedExists(s, c)
  {
    match answer
    case Success => Finish(s, c, true)
    case Unauthorized => if OnAuthRoute(s.calls[c]) then Finish(s, c, false) else SetPhase(s, c, Probing(share))
    case CsrfRejected =>
      var t := s.(hasToken := false);
      if FlagsOf(s, c).csrfRetry then Finish(t, c, false)
      else SetPhase(SetFlags(t, c, FlagsOf(s, c).(csrfRetry := true)), c, FetchingToken)
    case Other => Finish(s, c, false)
  }

  /** `refreshAccessToken` */
  function JoinRefresh(s: State, c: nat): State
    requires c < |s.calls|
  {
    if s.refreshPromise.Some? then SetPhase(s, c, AwaitRefresh(s.refreshPromise.value))
    else
      var r := |s.calls|;
      var t := SetPhase(s, c, AwaitRefresh(r));
      Send(t.(calls := t.calls + [NewCall(true, true, true)], refreshPromise := Some(r)), r)
  }

  /** The rest of the 401 branch. */
  function AfterProbe(s: State, c: nat, enabled: Option<bool>, share: bool): State
    requires SharedExists(s, c)
  {
    var flags := FlagsOf(s, c);
    if share then Finish(s, c, false)
    else if enabled == Some(false) then
      if flags.authModeRetry then Finish(s, c, false) else Resend(SetFlags(s, c, flags.(authModeRetry := true)), c)
    else if !flags.retry then JoinRefresh(SetFlags(s, c, flags.(retry := true)), c)
    else SetPhase(s, c, Redirecting)
  }

  predicate Allowed(s: State, e: Event) {
    match e
    case Begin(_, _) => true
    case TokenReply(_) => s.tokenPromise.Some? && s.tokenPromise.value < |s.fetches|
    case Reply(c, _, _) => SharedExists(s, c) && s.calls[c].phase.Sent?
    case Probed(c, _) => SharedExists(s, c) && s.calls[c].phase.Probing?
    case OwnToken(c, _) => SharedExists(s, c) && s.calls[c].phase.FetchingToken?
    case Redirected(c) => SharedExists(s, c) && s.calls[c].phase.Redirecting?
    case Resume(c, _) =>
      SharedExists(s, c) &&
      (match s.calls[c].phase
       case AwaitToken(f) => f < |s.fetches| && s.fetches[f].answer.Some?
       case AwaitRefresh(r) => r < |s.calls| && s.calls[r].phase.Done?
       case _ => false)
  }

  /** The await of a call on a promise is over. */
  function AfterPromise(s: State, c: nat, share: bool): State
    requires Allowed(s, Resume(c, share))
  {
    match s.calls[c].phase
    case AwaitToken(f) =>
      var a := s.fetches[f].answer.value;
      if a.Success? then Dispatch(s, c)
      else HandleAnswer(s.(calls := s.calls[c := s.calls[c].(shared := Some(f))]), c, a, share)
    case AwaitRefresh(r) =>
      if s.calls[r].phase.ok then Resend(s, c) else SetPhase(s, c, Redirecting)
    case _ => s
  }

  function Step(s: State, e: Event): State {
    if !Allowed(s, e) then s
    else match e
      case Begin(needsCsrf, authRoute) =>
        Send(s.(calls := s.calls + [NewCall(needsCsrf, authRoute, false)]), |s.calls|)
      case Reply(c, answer, share) => HandleAnswer(s, c, answer, share)
      case TokenReply(answer) =>
        var f := s.tokenPromise.value;
        s.(fetches := s.fetches[f := s.fetches[f].(answer := Some(answer))], tokenPromise := None,
           hasToken := s.hasToken || answer.Success?)
      case Resume(c, share) => AfterPromise(s, c, share)
      case Probed(c, enabled) => AfterProbe(s, c, enabled, s.calls[c].phase.share)
      case OwnToken(c, ok) => if ok then Resend(s.(hasToken := true), c) else Finish(s, c, false)
      case Redirected(c) => Finish(s, c, false)
  }

  function Run(events: seq<Event>): State {
    if events == [] then INITIAL else Step(Run(events[..|events| - 1]), events[|events| - 1])
  }

  // ---- the invariant -----------------------------------------------------

  function Count(f: Flags): nat {
    (if f.retry then 1 else 0) + (if f.csrfRetry then 1 else 0) + (if f.authModeRetry then 1 else 0)
  }

  predicate Unfinished(call: Call) {
    !call.phase.Done?
  }

  /** A request will be sent before the next answer. */
  predicate Pending(phase: Phase) {
    phase.AwaitToken? || phase.FetchingToken? || phase.AwaitRefresh?
  }

  /** Each sending but the first used up a mark. */
  predicate Budget(call: Call) {
    if call.swapped then
      call.sends <= (if call.authRoute then 1 else 3)
      && call.tokenSends + (if Pending(call.phase) then 1 else 0) <= Count(call.flags)
    else
      call.tokenSends == 0
      && call.sends <= Count(call.flags) + (if Pending(call.phase) || call.shared.Some? then 0 else 1)
  }

  /** Calls to auth routes only ever retry for CSRF. */
  predicate AuthMarks(call: Call) {
    call.authRoute && !call.swapped ==>
      && !call.flags.retry && !call.flags.authModeRetry
      && (call.shared.None? ==> !call.phase.Probing? && !call.phase.AwaitRefresh? && !call.phase.Redirecting?)
  }

  predicate Shape(call: Call) {
    && (call.isRefresh ==> call.authRoute && call.needsCsrf)
    && (call.shared.Some? ==> !call.swapped && !call.phase.Sent? && !call.phase.AwaitToken?)
    && (call.phase.AwaitToken? ==> !call.swapped)
    && Budget(call) && AuthMarks(call)
  }

  predicate Links(s: State, c: nat)
    requires c < |s.calls|
  {
    var call := s.calls[c];
    && (call.shared.Some? ==> call.shared.value < |s.fetches|)
    && (call.shared.Some? && Pending(call.phase) ==> Count(s.fetches[call.shared.value].flags) >= 1)
    && (call.phase.AwaitToken? ==> call.phase.fetch < |s.fetches|)
    && (call.phase.AwaitRefresh? ==> call.phase.refresh < |s.calls| && s.calls[call.phase.refresh].isRefresh)
    && (call.phase.AwaitRefresh? && call.isRefresh ==> call.phase.refresh == c)
  }

  predicate GoodCall(s: State, c: nat)
    requires c < |s.calls|
  {
    Shape(s.calls[c]) && Links(s, c)
  }

  /** `refreshPromise` is the one unfinished refresh, and `csrfTokenPromise` the one fetch in flight. */
  predicate SingleFlight(s: State) {
    && (s.refreshPromise.Some? ==>
          var r := s.refreshPromise.value; r < |s.calls| && s.calls[r].isRefresh && Unfinished(s.calls[r]))
    && (forall c :: 0 <= c < |s.calls| && s.calls[c].isRefresh && Unfinished(s.calls[c]) ==> s.refreshPromise == Some(c))
    && (s.tokenPromise.Some? ==> s.tokenPromise.value < |s.fetches| && s.fetches[s.tokenPromise.value].answer == None)
    && (forall f :: 0 <= f < |s.fetches| && s.fetches[f].answer == None ==> s.tokenPromise == Some(f))
  }

  predicate Inv(s: State) {
    SingleFlight(s) && forall c :: 0 <= c < |s.calls| ==> GoodCall(s, c)
  }

  lemma FinishKeepsInv(s: State, c: nat, ok: bool)
    requires Inv(s) && c < |s.calls| && Unfinished(s.calls[c])
    ensures Inv(Finish(s, c, ok))
  {
    var t := Finish(s, c, ok);
    forall x | 0 <= x < |t.calls| ensures GoodCall(t, x) {
      assert GoodCall(s, x);
    }
  }

  lemma SetPhaseKeepsInv(s: State, c: nat, phase: Phase)
    requires Inv(s) && c < |s.calls| && Unfinished(s.calls[c]) && !phase.Done?
    requires var t := SetPhase(s, c, phase); GoodCall(t, c)
    ensures Inv(SetPhase(s, c, phase))
  {
    var t := SetPhase(s, c, phase);
    forall x | 0 <= x < |t.calls| ensures GoodCall(t, x) {
      assert x != c ==> GoodCall(s, x);
    }
  }

  lemma DispatchKeepsInv(s: State, c: nat)
    requires Inv(s) && c < |s.calls| && Pending(s.calls[c].phase) && s.calls[c].shared.None?
    ensures Inv(Dispatch(s, c))
  {
    var t := Dispatch(s, c);
    forall x | 0 <= x < |t.calls| ensures GoodCall(t, x) {
      assert GoodCall(s, x);
    }
  }

  lemma AwaitTokenKeepsInv(s: State, c: nat, t: State)
    requires Inv(s) && c < |s.calls| && Pending(s.calls[c].phase) && s.calls[c].shared.None? && !s.calls[c].swapped
    requires t == Send(s, c) && t.calls[c].phase.AwaitToken? && t.calls == s.calls[c := s.calls[c].(phase := t.calls[c].phase)]
    ensures Inv(t)
  {
    forall x | 0 <= x < |t.calls| ensures GoodCall(t, x) {
      assert GoodCall(s, x);
    }
  }

  lemma SendKeepsInv(s: State, c: nat)
    requires Inv(s) && c < |s.calls| && Pending(s.calls[c].phase) && s.calls[c].shared.None?
    ensures Inv(Send(s, c))
  {
    var call := s.calls[c];
    if call.needsCsrf && !call.swapped && !s.hasToken {
      AwaitTokenKeepsInv(s, c, Send(s, c));
    } else {
      DispatchKeepsInv(s, c);
    }
  }

  function Swap(s: State, c: nat): State
    requires SharedExists(s, c)
  {
    s.(calls := s.calls[c := s.calls[c].(swapped := true, shared := None, flags := FlagsOf(s, c))])
  }

  lemma ResendKeepsInv(s: State, c: nat)
    requires Inv(s) && c < |s.calls| && Pending(s.calls[c].phase)
    ensures SharedExists(s, c) && Inv(Resend(s, c))
  {
    assert GoodCall(s, c);
    if s.calls[c].shared.Some? {
      var t := Swap(s, c);
      forall x | 0 <= x < |t.calls| ensures GoodCall(t, x) {
        assert GoodCall(s, x);
      }
      SendKeepsInv(t, c);
    } else {
      SendKeepsInv(s, c);
    }
  }

  /** One more mark, and something to wait for before the next sending. */
  function Marked(s: State, c: nat, flags: Flags): State
    requires SharedExists(s, c)
  {
    SetPhase(SetFlags(s, c, flags), c, FetchingToken)
  }

  lemma MarkedKeepsInv(s: State, c: nat, flags: Flags)
    requires Inv(s) && SharedExists(s, c) && (s.calls[c].phase.Sent? || s.calls[c].phase.Probing?)
    requires Count(flags) == Count(FlagsOf(s, c)) + 1
    requires OnAuthRoute(s.calls[c]) ==> !flags.retry && !flags.authModeRetry
    ensures Inv(Marked(s, c, flags))
  {
    var t := Marked(s, c, flags);
    forall x | 0 <= x < |t.calls| ensures GoodCall(t, x) {
      assert GoodCall(s, x);
    }
  }

  lemma SendIgnoresPhase(s: State, c: nat, phase: Phase)
    requires SharedExists(s, c)
    ensures SharedExists(SetPhase(s, c, phase), c) && Resend(SetPhase(s, c, phase), c) == Resend(s, c)
    ensures JoinRefresh(SetPhase(s, c, phase), c) == JoinRefresh(s, c)
  {
    var t := SetPhase(s, c, phase);
    if s.calls[c].shared.Some? {
      PhaseIsOverwritten(Swap(s, c), c, phase);
      assert Swap(t, c) == SetPhase(Swap(s, c), c, phase);
    } else {
      PhaseIsOverwritten(s, c, phase);
    }
    assert SetPhase(t, c, AwaitRefresh(|s.calls|)) == SetPhase(s, c, AwaitRefresh(|s.calls|));
  }

  lemma PhaseIsOverwritten(s: State, c: nat, phase: Phase)
    requires c < |s.calls|
    ensures Send(SetPhase(s, c, phase), c) == Send(s, c)
  {
    var t := SetPhase(s, c, phase);
    assert t.calls[c] == s.calls[c].(phase := phase);
  }

  /** A new refresh, on which the call waits. */
  lemma NewRefreshIsGood(s: State, c: nat)
    requires Inv(s) && c < |s.calls| && s.calls[c].phase.FetchingToken? && !OnAuthRoute(s.calls[c]) && s.refreshPromise.None?
    ensures var t := SetPhase(s, c, AwaitRefresh(|s.calls|));
            Inv(t.(calls := t.calls + [NewCall(true, true, true).(phase := FetchingToken)], refreshPromise := Some(|s.calls|)))
  {
    var t := SetPhase(s, c, AwaitRefresh(|s.calls|));
    var u := t.(calls := t.calls + [NewCall(true, true, true).(phase := FetchingToken)], refreshPromise := Some(|s.calls|));
    assert GoodCall(s, c);
    forall x | 0 <= x < |u.calls| ensures GoodCall(u, x) {
      assert x < |s.calls| ==> GoodCall(s, x);
    }
  }

  lemma JoinRefreshKeepsInv(s: State, c: nat)
    requires Inv(s) && c < |s.calls| && s.calls[c].phase.FetchingToken? && !OnAuthRoute(s.calls[c])
    ensures Inv(JoinRefresh(s, c))
  {
    assert GoodCall(s, c);
    if s.refreshPromise.Some? {
      SetPhaseKeepsInv(s, c, AwaitRefresh(s.refreshPromise.value));
    } else {
      var r := |s.calls|;
      var t := SetPhase(s, c, AwaitRefresh(r));
      var u := t.(calls := t.calls + [NewCall(true, true, true).(phase := FetchingToken)], refreshPromise := Some(r));
      NewRefreshIsGood(s, c);
      SendKeepsInv(u, r);
      var v := t.(calls := t.calls + [NewCall(true, true, true)], refreshPromise := Some(r));
      assert u == SetPhase(v, r, FetchingToken);
      PhaseIsOverwritten(v, r, FetchingToken);
    }
  }

  lemma HandleAnswerKeepsInv(s: State, c: nat, answer: Answer, share: bool)
    requires Inv(s) && SharedExists(s, c) && (s.calls[c].phase.Sent? || s.calls[c].phase.Probing?)
    ensures Inv(HandleAnswer(s, c, answer, share))
  {
    assert GoodCall(s, c);
    match answer
    case Unauthorized =>
      if OnAuthRoute(s.calls[c]) {
        FinishKeepsInv(s, c, false);
      } else {
        SetPhaseKeepsInv(s, c, Probing(share));
      }
    case CsrfRejected =>
      var t, flags := s.(hasToken := false), FlagsOf(s, c);
      forall x | 0 <= x < |t.calls| ensures GoodCall(t, x) {
        assert GoodCall(s, x);
      }
      if flags.csrfRetry {
        FinishKeepsInv(t, c, false);
      } else {
        MarkedKeepsInv(t, c, flags.(csrfRetry := true));
      }
    case _ => FinishKeepsInv(s, c, answer.Success?);
  }

  lemma RetryKeepsInv(s: State, c: nat, flags: Flags)
    requires Inv(s) && SharedExists(s, c) && s.calls[c].phase.Probing? && !OnAuthRoute(s.calls[c])
    requires Count(flags) == Count(FlagsOf(s, c)) + 1
    ensures SharedExists(SetFlags(s, c, flags), c) && Inv(Resend(SetFlags(s, c, flags), c))
  {
    MarkedKeepsInv(s, c, flags);
    ResendKeepsInv(Marked(s, c, flags), c);
    SendIgnoresPhase(SetFlags(s, c, flags), c, FetchingToken);
  }

  lemma RefreshKeepsInv(s: State, c: nat, flags: Flags)
    requires Inv(s) && SharedExists(s, c) && s.calls[c].phase.Probing? && !OnAuthRoute(s.calls[c])
    requires Count(flags) == Count(FlagsOf(s, c)) + 1
    ensures SharedExists(SetFlags(s, c, flags), c) && Inv(JoinRefresh(SetFlags(s, c, flags), c))
  {
    MarkedKeepsInv(s, c, flags);
    JoinRefreshKeepsInv(Marked(s, c, flags), c);
    SendIgnoresPhase(SetFlags(s, c, flags), c, FetchingToken);
  }

  lemma AfterProbeKeepsInv(s: State, c: nat, enabled: Option<bool>, share: bool)
    requires Inv(s) && SharedExists(s, c) && s.calls[c].phase.Probing?
    ensures Inv(AfterProbe(s, c, enabled, share))
  {
    assert GoodCall(s, c);
    var flags := FlagsOf(s, c);
    if share || (enabled == Some(false) && flags.authModeRetry) {
      FinishKeepsInv(s, c, false);
    } else if enabled == Some(false) {
      RetryKeepsInv(s, c, flags.(authModeRetry := true));
    } else if !flags.retry {
      RefreshKeepsInv(s, c, flags.(retry := true));
    } else {
      SetPhaseKeepsInv(s, c, Redirecting);
    }
  }

  lemma TokenReplyKeepsInv(s: State, answer: Answer)
    requires Inv(s) && s.tokenPromise.Some?
    ensures Inv(Step(s, TokenReply(answer)))
  {
    var t := Step(s, TokenReply(answer));
    forall x | 0 <= x < |t.calls| ensures GoodCall(t, x) {
      assert GoodCall(s, x);
    }
  }

  /** A call whose token fetch failed, about to handle that error. */
  function Failing(s: State, c: nat, f: nat): State
    requires c < |s.calls| && f < |s.fetches|
  {
    s.(calls := s.calls[c := s.calls[c].(shared := Some(f))])
  }

  lemma FailingKeepsInv(s: State, c: nat, f: nat, share: bool)
    requires Inv(s) && c < |s.calls| && f < |s.fetches| && s.calls[c].phase.AwaitToken?
    ensures Inv(SetPhase(Failing(s, c, f), c, Probing(share)))
  {
    var t := SetPhase(Failing(s, c, f), c, Probing(share));
    forall x | 0 <= x < |t.calls| ensures GoodCall(t, x) {
      assert GoodCall(s, x);
    }
  }

  lemma FinishIgnoresPhase(s: State, c: nat, phase: Phase, ok: bool)
    requires c < |s.calls|
    ensures Finish(SetPhase(s, c, phase), c, ok) == Finish(s, c, ok)
  {
  }

  lemma HandlingIgnoresPhase(s: State, c: nat, phase: Phase, answer: Answer, share: bool)
    requires SharedExists(s, c)
    ensures SharedExists(SetPhase(s, c, phase), c)
    ensures HandleAnswer(SetPhase(s, c, phase), c, answer, share) == HandleAnswer(s, c, answer, share)
  {
    var t := SetPhase(s, c, phase);
    assert t.calls[c] == s.calls[c].(phase := phase);
    match answer
    case Success => FinishIgnoresPhase(s, c, phase, true);
    case Unauthorized =>
      FinishIgnoresPhase(s, c, phase, false);
      assert SetPhase(t, c, Probing(share)) == SetPhase(s, c, Probing(share));
    case CsrfRejected =>
      assert FlagsOf(t, c) == FlagsOf(s, c);
      FinishIgnoresPhase(s.(hasToken := false), c, phase, false);
      MarkingIgnoresPhase(s.(hasToken := false), c, phase, FlagsOf(s, c).(csrfRetry := true));
    case Other => FinishIgnoresPhase(s, c, phase, false);
  }

  lemma MarkingIgnoresPhase(s: State, c: nat, phase: Phase, flags: Flags)
    requires SharedExists(s, c)
    ensures SharedExists(SetPhase(s, c, phase), c)
    ensures Marked(SetPhase(s, c, phase), c, flags) == Marked(s, c, flags)
  {
    assert SetPhase(s, c, phase).calls[c] == s.calls[c].(phase := phase);
  }

  lemma TokenErrorKeepsInv(s: State, c: nat, f: nat, answer: Answer, share: bool)
    requires Inv(s) && c < |s.calls| && f < |s.fetches| && s.calls[c].phase.AwaitToken?
    ensures Inv(HandleAnswer(Failing(s, c, f), c, answer, share))
  {
    FailingKeepsInv(s, c, f, share);
    HandleAnswerKeepsInv(SetPhase(Failing(s, c, f), c, Probing(share)), c, answer, share);
    HandlingIgnoresPhase(Failing(s, c, f), c, Probing(share), answer, share);
  }

  lemma AfterPromiseKeepsInv(s: State, c: nat, share: bool)
    requires Inv(s) && Allowed(s, Resume(c, share))
    ensures Inv(AfterPromise(s, c, share))
  {
    assert GoodCall(s, c);
    match s.calls[c].phase
    case AwaitToken(f) =>
      var a := s.fetches[f].answer.value;
      if a.Success? {
        DispatchKeepsInv(s, c);
      } else {
        TokenErrorKeepsInv(s, c, f, a, share);
      }
    case AwaitRefresh(r) =>
      if s.calls[r].phase.ok {
        ResendKeepsInv(s, c);
      } else {
        SetPhaseKeepsInv(s, c, Redirecting);
      }
    case _ =>
  }

  lemma BeginKeepsInv(s: State, needsCsrf: bool, authRoute: bool)
    requires Inv(s)
    ensures Inv(Step(s, Begin(needsCsrf, authRoute)))
  {
    var c := |s.calls|;
    var t := s.(calls := s.calls + [NewCall(needsCsrf, authRoute, false)]);
    var u := SetPhase(t, c, FetchingToken);
    forall x | 0 <= x < |u.calls| ensures GoodCall(u, x) {
      assert x < c ==> GoodCall(s, x);
    }
    SendKeepsInv(u, c);
    PhaseIsOverwritten(t, c, FetchingToken);
  }

  lemma OwnTokenKeepsInv(s: State, c: nat, ok: bool)
    requires Inv(s) && Allowed(s, OwnToken(c, ok))
    ensures Inv(Step(s, OwnToken(c, ok)))
  {
    if ok {
      var t := s.(hasToken := true);
      forall x | 0 <= x < |t.calls| ensures GoodCall(t, x) {
        assert GoodCall(s, x);
      }
      ResendKeepsInv(t, c);
    } else {
      FinishKeepsInv(s, c, false);
    }
  }

  lemma StepKeepsInv(s: State, e: Event)
    requires Inv(s)
    ensures Inv(Step(s, e))
  {
    if Allowed(s, e) {
      match e
      case Begin(needsCsrf, authRoute) => BeginKeepsInv(s, needsCsrf, authRoute);
      case Reply(c, answer, share) => HandleAnswerKeepsInv(s, c, answer, share);
      case TokenReply(answer) => TokenReplyKeepsInv(s, answer);
      case Resume(c, share) => AfterPromiseKeepsInv(s, c, share);
      case Probed(c, enabled) => AfterProbeKeepsInv(s, c, enabled, s.calls[c].phase.share);
      case OwnToken(c, ok) => OwnTokenKeepsInv(s, c, ok);
      case Redirected(c) => FinishKeepsInv(s, c, false);
    }
  }

  lemma {:induction false} RunKeepsInv(events: seq<Event>)
    ensures Inv(Run(events))
  {
    if events != [] {
      RunKeepsInv(events[..|events| - 1]);
      StepKeepsInv(Run(events[..|events| - 1]), events[|events| - 1]);
    }
  }

  // ---- how much is sent --------------------------------------------------

  /** Whatever the server answers, a call's request is sent at most four times, at most twice to an auth route
      (so the refresh too), and a failed token fetch is repeated in its place at most three times. */
  lemma CallsAreBounded(events: seq<Event>, c: nat)
    requires c < |Run(events).calls|
    ensures var call := Run(events).calls[c];
            && call.sends <= 4 && call.tokenSends <= 3 && call.sends + call.tokenSends <= 6
            && (call.authRoute ==> call.sends <= 2)
            && (!call.swapped ==> call.tokenSends == 0)
  {
    RunKeepsInv(events);
    assert GoodCall(Run(events), c);
  }

  /** However many calls meet a 401 at once, one refresh is in flight at most; likewise one token fetch. */
  lemma OneRefreshInFlight(events: seq<Event>)
    ensures var s := Run(events);
            && (forall c, d | 0 <= c < |s.calls| && 0 <= d < |s.calls| && InFlight(s.calls[c]) && InFlight(s.calls[d]) ::
                  c == d)
            && (forall f, g | 0 <= f < |s.fetches| && 0 <= g < |s.fetches| && s.fetches[f].answer == s.fetches[g].answer == None ::
                  f == g)
  {
    RunKeepsInv(events);
  }

  predicate InFlight(call: Call) {
    call.isRefresh && Unfinished(call)
  }

  predicate Concerns(e: Event, c: nat) {
    match e
    case Reply(x, _, _) => x == c
    case Resume(x, _) => x == c
    case Probed(x, _) => x == c
    case OwnToken(x, _) => x == c
    case Redirected(x) => x == c
    case _ => false
  }

  /** Nothing that happens to a refresh starts another call, so a refresh never triggers a refresh. */
  lemma RefreshStartsNoCall(events: seq<Event>, c: nat, e: Event)
    requires c < |Run(events).calls| && Run(events).calls[c].isRefresh && Concerns(e, c)
    ensures |Step(Run(events), e).calls| == |Run(events).calls|
  {
    RunKeepsInv(events);
    var s := Run(events);
    if e.Probed? {
      if Allowed(s, e) {
        ProbeAddsNoCall(s, c, e.enabled, s.calls[c].phase.share);
      }
    } else {
      SameCalls(s, e);
    }
  }

  /** While a refresh is in flight, whoever learns of an expired session joins it. */
  lemma ProbeAddsNoCall(s: State, c: nat, enabled: Option<bool>, share: bool)
    requires SharedExists(s, c) && s.refreshPromise.Some?
    ensures |AfterProbe(s, c, enabled, share).calls| == |s.calls|
  {
    ResendAddsNoCall(SetFlags(s, c, FlagsOf(s, c).(authModeRetry := true)), c);
  }

  lemma ResendAddsNoCall(s: State, c: nat)
    requires SharedExists(s, c)
    ensures |Resend(s, c).calls| == |s.calls|
  {
  }

  lemma SameCalls(s: State, e: Event)
    requires !e.Begin? && !e.Probed?
    ensures |Step(s, e).calls| == |s.calls|
  {
  }

  // ---- every call comes to an end ----------------------------------------

  function Rank(phase: Phase): nat {
    match phase
    case Done(_) => 0
    case Redirecting => 1
    case Probing(_) => 2
    case Sent => 3
    case AwaitToken(_) => 4
    case FetchingToken => 5
    case AwaitRefresh(_) => 5
  }

  function Weight(swapped: bool, shared: bool, flags: Flags, phase: Phase): nat {
    (if swapped then 0 else if shared then 24 else 48) + 6 * (3 - Count(flags)) + Rank(phase)
  }

  /** What is left of a call. */
  function Measure(s: State, c: nat): nat
    requires SharedExists(s, c)
  {
    Weight(s.calls[c].swapped, s.calls[c].shared.Some?, FlagsOf(s, c), s.calls[c].phase)
  }

  /** Calls and fetches are only added, and marks only set. */
  predicate Later(s: State, t: State) {
    && |s.calls| <= |t.calls| && |s.fetches| <= |t.fetches|
    && forall f :: 0 <= f < |s.fetches| ==> Count(s.fetches[f].flags) <= Count(t.fetches[f].flags)
  }

  /** Only `c` has moved, and it has moved on. */
  predicate Advances(s: State, t: State, c: nat)
    requires SharedExists(s, c)
  {
    && Later(s, t) && SharedExists(t, c) && Measure(t, c) < Measure(s, c)
    && forall x :: 0 <= x < |s.calls| && x != c ==> t.calls[x] == s.calls[x]
  }

  lemma SendAdvances(s: State, c: nat)
    requires SharedExists(s, c) && s.calls[c].shared.None? && s.calls[c].phase.FetchingToken?
    ensures Advances(s, Send(s, c), c)
  {
  }

  lemma ResendAdvances(s: State, c: nat)
    requires SharedExists(s, c) && s.calls[c].phase.FetchingToken? && (s.calls[c].shared.Some? ==> !s.calls[c].swapped)
    ensures Advances(s, Resend(s, c), c)
  {
    if s.calls[c].shared.Some? {
      SendAdvances(Swap(s, c), c);
    } else {
      SendAdvances(s, c);
    }
  }

  lemma MarkedAdvances(s: State, c: nat, flags: Flags)
    requires SharedExists(s, c) && Rank(s.calls[c].phase) >= 2 && Count(flags) == Count(FlagsOf(s, c)) + 1
    ensures Advances(s, Marked(s, c, flags), c)
  {
  }

  lemma FinishAdvances(s: State, c: nat, ok: bool)
    requires SharedExists(s, c) && Unfinished(s.calls[c])
    ensures Advances(s, Finish(s, c, ok), c)
  {
  }

  lemma SetPhaseAdvances(s: State, c: nat, phase: Phase)
    requires SharedExists(s, c) && Rank(phase) < Rank(s.calls[c].phase)
    ensures Advances(s, SetPhase(s, c, phase), c)
  {
  }

  lemma JoinRefreshMoves(s: State, c: nat)
    requires SharedExists(s, c) && s.calls[c].phase.FetchingToken?
    ensures var t := JoinRefresh(s, c);
            && Later(s, t) && t.calls[c] == s.calls[c].(phase := t.calls[c].phase) && t.calls[c].phase.AwaitRefresh?
            && (forall f :: 0 <= f < |s.fetches| ==> t.fetches[f] == s.fetches[f])
            && forall x :: 0 <= x < |s.calls| && x != c ==> t.calls[x] == s.calls[x]
  {
  }

  lemma HandleAnswerAdvances(s: State, c: nat, answer: Answer, share: bool)
    requires SharedExists(s, c) && Rank(s.calls[c].phase) >= 3
    ensures Advances(s, HandleAnswer(s, c, answer, share), c)
  {
    var t := s.(hasToken := false);
    if answer.CsrfRejected? {
      var flags := FlagsOf(s, c);
      if flags.csrfRetry {
        FinishAdvances(t, c, false);
      } else {
        MarkedAdvances(t, c, flags.(csrfRetry := true));
      }
    } else if answer.Unauthorized? && !OnAuthRoute(s.calls[c]) {
      SetPhaseAdvances(s, c, Probing(share));
    } else {
      FinishAdvances(s, c, answer.Success?);
    }
  }

  lemma RetryAdvances(s: State, c: nat, flags: Flags)
    requires SharedExists(s, c) && s.calls[c].phase.Probing? && (s.calls[c].shared.Some? ==> !s.calls[c].swapped)
    requires Count(flags) == Count(FlagsOf(s, c)) + 1
    ensures SharedExists(SetFlags(s, c, flags), c) && Advances(s, Resend(SetFlags(s, c, flags), c), c)
  {
    MarkedAdvances(s, c, flags);
    ResendAdvances(Marked(s, c, flags), c);
    SendIgnoresPhase(SetFlags(s, c, flags), c, FetchingToken);
    AdvancesInTurn(s, Marked(s, c, flags), Resend(Marked(s, c, flags), c), c);
  }

  lemma AdvancesInTurn(s: State, t: State, u: State, c: nat)
    requires SharedExists(s, c) && Advances(s, t, c) && Advances(t, u, c)
    ensures Advances(s, u, c)
  {
  }

  lemma RefreshAdvances(s: State, c: nat, flags: Flags)
    requires SharedExists(s, c) && s.calls[c].phase.Probing? && Count(flags) == Count(FlagsOf(s, c)) + 1
    ensures SharedExists(SetFlags(s, c, flags), c) && Advances(s, JoinRefresh(SetFlags(s, c, flags), c), c)
  {
    MarkedAdvances(s, c, flags);
    JoinRefreshMoves(Marked(s, c, flags), c);
    SendIgnoresPhase(SetFlags(s, c, flags), c, FetchingToken);
  }

  lemma AfterProbeAdvances(s: State, c: nat, enabled: Option<bool>, share: bool)
    requires Inv(s) && SharedExists(s, c) && s.calls[c].phase.Probing?
    ensures Advances(s, AfterProbe(s, c, enabled, share), c)
  {
    assert GoodCall(s, c);
    var flags := FlagsOf(s, c);
    if share || (enabled == Some(false) && flags.authModeRetry) {
      FinishAdvances(s, c, false);
    } else if enabled == Some(false) {
      RetryAdvances(s, c, flags.(authModeRetry := true));
    } else if !flags.retry {
      RefreshAdvances(s, c, flags.(retry := true));
    } else {
      SetPhaseAdvances(s, c, Redirecting);
    }
  }

  lemma ResendFromWait(s: State, c: nat)
    requires SharedExists(s, c) && s.calls[c].phase.AwaitRefresh? && (s.calls[c].shared.Some? ==> !s.calls[c].swapped)
    ensures Advances(s, Resend(s, c), c)
  {
    ResendAdvances(SetPhase(s, c, FetchingToken), c);
    SendIgnoresPhase(s, c, FetchingToken);
    SameRank(s, c, Resend(s, c));
  }

  /** The two phases before a sending weigh the same. */
  lemma SameRank(s: State, c: nat, t: State)
    requires SharedExists(s, c) && s.calls[c].phase.AwaitRefresh?
    requires SharedExists(SetPhase(s, c, FetchingToken), c) && Advances(SetPhase(s, c, FetchingToken), t, c)
    ensures Advances(s, t, c)
  {
  }

  lemma AfterPromiseAdvances(s: State, c: nat, share: bool)
    requires Inv(s) && Allowed(s, Resume(c, share))
    ensures Advances(s, AfterPromise(s, c, share), c)
  {
    assert GoodCall(s, c);
    match s.calls[c].phase
    case AwaitToken(f) =>
      if !s.fetches[f].answer.value.Success? {
        TokenErrorAdvances(s, c, f, s.fetches[f].answer.value, share);
      }
    case AwaitRefresh(r) =>
      if s.calls[r].phase.ok {
        ResendFromWait(s, c);
      } else {
        SetPhaseAdvances(s, c, Redirecting);
      }
    case _ =>
  }

  lemma TokenErrorAdvances(s: State, c: nat, f: nat, answer: Answer, share: bool)
    requires SharedExists(s, c) && f < |s.fetches| && s.calls[c].phase.AwaitToken? && s.calls[c].shared.None? && !s.calls[c].swapped
    ensures Advances(s, HandleAnswer(Failing(s, c, f), c, answer, share), c)
  {
    var t := Failing(s, c, f);
    HandleAnswerAdvances(t, c, answer, share);
  }

  /** Every event that concerns a call brings it nearer its end and moves no other call. */
  lemma EventsAdvance(events: seq<Event>, c: nat, e: Event)
    requires Concerns(e, c) && Allowed(Run(events), e)
    ensures SharedExists(Run(events), c) && Advances(Run(events), Step(Run(events), e), c)
  {
    RunKeepsInv(events);
    var s := Run(events);
    assert GoodCall(s, c);
    match e
    case Reply(_, answer, share) => HandleAnswerAdvances(s, c, answer, share);
    case Resume(_, share) => AfterPromiseAdvances(s, c, share);
    case Probed(_, enabled) => AfterProbeAdvances(s, c, enabled, s.calls[c].phase.share);
    case OwnToken(_, ok) =>
      if ok {
        ResendAdvances(s.(hasToken := true), c);
      } else {
        FinishAdvances(s, c, false);
      }
    case Redirected(_) => FinishAdvances(s, c, false);
  }

  lemma UnconcernedCallStays(events: seq<Event>, e: Event, c: nat)
    requires c < |Run(events).calls| && !(Concerns(e, c) && Allowed(Run(events), e))
    ensures c < |Step(Run(events), e).calls| && Step(Run(events), e).calls[c] == Run(events).calls[c]
  {
    if Allowed(Run(events), e) && !e.Begin? && !e.TokenReply? {
      EventsAdvance(events, e.c, e);
    }
  }

  /** How many events have moved the call. */
  function Moves(events: seq<Event>, c: nat): nat {
    if events == [] then 0
    else
      var front, e := events[..|events| - 1], events[|events| - 1];
      Moves(front, c) + (if Concerns(e, c) && Allowed(Run(front), e) then 1 else 0)
  }

  /** What is left of a call, also before it begins. */
  function Left(s: State, c: nat): nat {
    if SharedExists(s, c) then Measure(s, c) else 70
  }

  /** Every call is over after at most seventy events of its own, however the others go. */
  lemma {:induction false} MovesAreBounded(events: seq<Event>, c: nat)
    ensures Moves(events, c) + Left(Run(events), c) <= 70
  {
    if events != [] {
      MovesAreBounded(events[..|events| - 1], c);
      MoveUsesMeasure(events[..|events| - 1], events[|events| - 1], c);
    }
  }

  lemma MoveUsesMeasure(events: seq<Event>, e: Event, c: nat)
    ensures var moved := Concerns(e, c) && Allowed(Run(events), e);
            Left(Step(Run(events), e), c) + (if moved then 1 else 0) <= Left(Run(events), c)
  {
    if Concerns(e, c) && Allowed(Run(events), e) {
      EventsAdvance(events, c, e);
    } else if c < |Run(events).calls| {
      OthersDoNotRise(events, e, c);
    } else if SharedExists(Step(Run(events), e), c) {
      RunKeepsInv(events);
      BornLight(Run(events), e, c);
    }
  }

  lemma OthersDoNotRise(events: seq<Event>, e: Event, c: nat)
    requires c < |Run(events).calls| && !(Concerns(e, c) && Allowed(Run(events), e))
    ensures SharedExists(Run(events), c) && SharedExists(Step(Run(events), e), c)
    ensures Measure(Step(Run(events), e), c) <= Measure(Run(events), c)
  {
    RunKeepsInv(events);
    assert GoodCall(Run(events), c);
    UnconcernedCallStays(events, e, c);
    if Allowed(Run(events), e) && !e.Begin? && !e.TokenReply? {
      EventsAdvance(events, e.c, e);
    }
  }

  predicate Fresh(call: Call) {
    !call.swapped && call.shared.None? && call.flags == UNMARKED && (call.phase.Sent? || call.phase.AwaitToken?)
  }

  lemma SendIsFresh(s: State, c: nat)
    requires c < |s.calls| && Fresh(s.calls[c])
    ensures |Send(s, c).calls| == |s.calls| && Fresh(Send(s, c).calls[c])
  {
  }

  lemma JoinedIsFresh(s: State, c: nat, r: nat)
    requires c < |s.calls| <= r < |JoinRefresh(s, c).calls|
    ensures Fresh(JoinRefresh(s, c).calls[r])
  {
    var t := SetPhase(s, c, AwaitRefresh(r));
    SendIsFresh(t.(calls := t.calls + [NewCall(true, true, true)], refreshPromise := Some(r)), r);
  }

  lemma NewCallsAreUntouched(s: State, e: Event, c: nat)
    requires |s.calls| <= c < |Step(s, e).calls|
    ensures Fresh(Step(s, e).calls[c])
  {
    match e
    case Begin(needsCsrf, authRoute) =>
      SendIsFresh(s.(calls := s.calls + [NewCall(needsCsrf, authRoute, false)]), |s.calls|);
    case Probed(x, enabled) =>
      JoinedIsFresh(SetFlags(s, x, FlagsOf(s, x).(retry := true)), x, c);
    case _ =>
      SameCalls(s, e);
  }

  lemma BornLight(s: State, e: Event, c: nat)
    requires Inv(s) && c >= |s.calls| && SharedExists(Step(s, e), c)
    ensures Measure(Step(s, e), c) <= 70
  {
    StepKeepsInv(s, e);
    assert GoodCall(Step(s, e), c);
    NewCallsAreUntouched(s, e, c);
  }

  // ---- how calls end -----------------------------------------------------

  /** Waiting to be sent again, or sent. */
  predicate OnItsWay(phase: Phase) {
    phase.Sent? || phase.AwaitToken?
  }

  lemma SendIsOnItsWay(s: State, c: nat)
    requires c < |s.calls|
    ensures c < |Send(s, c).calls| && OnItsWay(Send(s, c).calls[c].phase)
  {
  }

  lemma ResendIsOnItsWay(s: State, c: nat)
    requires SharedExists(s, c)
    ensures c < |Resend(s, c).calls| && OnItsWay(Resend(s, c).calls[c].phase)
  {
    SendIsOnItsWay(if s.calls[c].shared.Some? then Swap(s, c) else s, c);
  }

  lemma JoinedWaits(s: State, c: nat)
    requires c < |s.calls|
    ensures var t := JoinRefresh(s, c);
            && c < |t.calls| && t.refreshPromise.Some? && t.calls[c].phase == AwaitRefresh(t.refreshPromise.value)
            && (s.refreshPromise.Some? ==> t.refreshPromise == s.refreshPromise)
  {
  }

  /** What a reply to a sent request does: success resolves the call; a refused CSRF token is forgotten and, once
      for each configuration, fetched anew; a 401 rejects on an auth route and else asks whether authentication
      is on; anything else rejects. */
  lemma ReplyMeans(s: State, c: nat, answer: Answer, share: bool)
    requires Allowed(s, Reply(c, answer, share))
    ensures var call, t := s.calls[c], Step(s, Reply(c, answer, share));
            && c < |t.calls|
            && (answer == Success ==> t.calls[c].phase == Done(true))
            && (answer == Other ==> t.calls[c].phase == Done(false))
            && (answer == Unauthorized ==>
                  t.calls[c].phase == if call.authRoute && !call.swapped && call.shared.None? then Done(false) else Probing(share))
            && (answer == CsrfRejected ==>
                  !t.hasToken && t.calls[c].phase == if FlagsOf(s, c).csrfRetry then Done(false) else FetchingToken)
            && (answer != CsrfRejected ==> t.hasToken == s.hasToken)
  {
  }

  /** What the answer about the mode does to a call refused with a 401: in a share flow it rejects; with
      authentication off it is sent again, once; else it waits for the refresh in flight, once; else the user is
      sent to sign in. */
  lemma ProbeMeans(s: State, c: nat, enabled: Option<bool>)
    requires Allowed(s, Probed(c, enabled))
    ensures var share, flags, t := s.calls[c].phase.share, FlagsOf(s, c), Step(s, Probed(c, enabled));
            && c < |t.calls|
            && (share ==> t.calls[c].phase == Done(false))
            && (!share && enabled == Some(false) && flags.authModeRetry ==> t.calls[c].phase == Done(false))
            && (!share && enabled == Some(false) && !flags.authModeRetry ==> OnItsWay(t.calls[c].phase))
            && (!share && enabled != Some(false) && flags.retry ==> t.calls[c].phase == Redirecting)
            && (!share && enabled != Some(false) && !flags.retry ==>
                  t.refreshPromise.Some? && t.calls[c].phase == AwaitRefresh(t.refreshPromise.value))
  {
    var flags := FlagsOf(s, c);
    if !s.calls[c].phase.share && enabled == Some(false) && !flags.authModeRetry {
      ResendIsOnItsWay(SetFlags(s, c, flags.(authModeRetry := true)), c);
    } else if !s.calls[c].phase.share && enabled != Some(false) && !flags.retry {
      JoinedWaits(SetFlags(s, c, flags.(retry := true)), c);
    }
  }

  /** A call that waited for a refresh is sent again exactly when the refresh resolved, and is otherwise redirected
      and then rejected; one whose own token fetch is over is sent again exactly when that succeeded. */
  lemma WaitMeans(s: State, c: nat, share: bool, ok: bool)
    requires SharedExists(s, c)
    ensures s.calls[c].phase.AwaitRefresh? && Allowed(s, Resume(c, share)) ==>
              var t := Step(s, Resume(c, share));
              && c < |t.calls|
              && if s.calls[s.calls[c].phase.refresh].phase == Done(true) then OnItsWay(t.calls[c].phase)
                 else t.calls[c].phase == Redirecting
    ensures s.calls[c].phase.FetchingToken? ==>
              var t := Step(s, OwnToken(c, ok));
              c < |t.calls| && if ok then OnItsWay(t.calls[c].phase) else t.calls[c].phase == Done(false)
    ensures s.calls[c].phase.Redirecting? ==> Step(s, Redirected(c)).calls[c].phase == Done(false)
  {
    ResendIsOnItsWay(s, c);
    ResendIsOnItsWay(s.(hasToken := true), c);
  }

  /** A call in the request interceptor goes out when the shared token fetch succeeded, and otherwise fares as if the
      fetch's refusal had been the answer to it. */
  lemma TokenWaitMeans(s: State, c: nat, share: bool)
    requires Inv(s) && Allowed(s, Resume(c, share)) && s.calls[c].phase.AwaitToken?
    ensures var a, t := s.fetches[s.calls[c].phase.fetch].answer.value, Step(s, Resume(c, share));
            && c < |t.calls|
            && (a == Success ==> t.calls[c].phase == Sent)
            && (a == Other ==> t.calls[c].phase == Done(false))
            && (a == Unauthorized ==> t.calls[c].phase == Probing(share))
            && (a == CsrfRejected ==> t.calls[c].phase == FetchingToken || t.calls[c].phase == Done(false))
  {
    assert GoodCall(s, c);
  }

  /** An event resolves an unfinished call exactly when it is a success reply to the call. */
  lemma ResolvesExactly(events: seq<Event>, c: nat, e: Event)
    requires c < |Run(events).calls| && Unfinished(Run(events).calls[c])
    ensures var s, t := Run(events), Step(Run(events), e);
            c < |t.calls| && (t.calls[c].phase == Done(true) <==> Allowed(s, e) && IsSuccess(e, c))
  {
    RunKeepsInv(events);
    var s := Run(events);
    assert GoodCall(s, c);
    if Concerns(e, c) && Allowed(s, e) {
      match e
      case Reply(_, answer, share) => ReplyMeans(s, c, answer, share);
      case Probed(_, enabled) => ProbeMeans(s, c, enabled);
      case OwnToken(_, ok) => WaitMeans(s, c, false, ok);
      case Redirected(_) => WaitMeans(s, c, false, false);
      case Resume(_, share) =>
        if s.calls[c].phase.AwaitToken? {
          TokenWaitMeans(s, c, share);
        } else {
          WaitMeans(s, c, share, false);
        }
    } else {
      UnconcernedCallStays(events, e, c);
    }
  }

  predicate IsSuccess(e: Event, c: nat) {
    e.Reply? && e.c == c && e.answer == Success
  }

  /** The call was answered with success at some moment of the run. */
  ghost predicate Answered(events: seq<Event>, c: nat) {
    exists i :: 0 <= i < |events| && IsSuccess(events[i], c) && Allowed(Run(events[..i]), events[i])
  }

  /** A call, a refresh too, is resolved exactly when one of its requests was answered with success; every other
      call that is over was rejected. */
  lemma {:induction false} ResolvedExactly(events: seq<Event>, c: nat)
    requires c < |Run(events).calls|
    ensures Run(events).calls[c].phase == Done(true) <==> Answered(events, c)
  {
    if events != [] {
      var front, e := events[..|events| - 1], events[|events| - 1];
      AnsweredStep(front, e, c);
      assert events == front + [e];
      if c < |Run(front).calls| {
        ResolvedExactly(front, c);
        if Unfinished(Run(front).calls[c]) {
          ResolvesExactly(front, c, e);
        } else {
          DoneStays(front, c, e);
        }
      } else {
        NeverAnswered(front, c);
        NewCallsAreUntouched(Run(front), e, c);
      }
    }
  }

  lemma DoneStays(events: seq<Event>, c: nat, e: Event)
    requires c < |Run(events).calls| && !Unfinished(Run(events).calls[c])
    ensures c < |Step(Run(events), e).calls| && Step(Run(events), e).calls[c] == Run(events).calls[c]
    ensures !(Allowed(Run(events), e) && Concerns(e, c))
  {
    UnconcernedCallStays(events, e, c);
  }

  lemma AnsweredStep(events: seq<Event>, e: Event, c: nat)
    ensures Answered(events + [e], c) <==> Answered(events, c) || (IsSuccess(e, c) && Allowed(Run(events), e))
  {
    var all := events + [e];
    assert all[..|events|] == events;
    if Answered(events, c) {
      var i :| 0 <= i < |events| && IsSuccess(events[i], c) && Allowed(Run(events[..i]), events[i]);
      assert all[..i] == events[..i] && all[i] == events[i];
    }
    if Answered(all, c) {
      var i :| 0 <= i < |all| && IsSuccess(all[i], c) && Allowed(Run(all[..i]), all[i]);
      assert i < |events| ==> all[..i] == events[..i] && all[i] == events[i];
    }
    if IsSuccess(e, c) && Allowed(Run(events), e) {
      assert IsSuccess(all[|events|], c);
    }
  }

  /** A call that has not begun was never answered. */
  lemma {:induction false} NeverAnswered(events: seq<Event>, c: nat)
    requires c >= |Run(events).calls|
    ensures !Answered(events, c)
  {
    if events != [] {
      var front, e := events[..|events| - 1], events[|events| - 1];
      CallsAreKept(front, e);
      NeverAnswered(front, c);
      AnsweredStep(front, e, c);
      assert events == front + [e];
    }
  }

  lemma CallsAreKept(events: seq<Event>, e: Event)
    ensures |Run(events).calls| <= |Step(Run(events), e).calls|
  {
    if |Run(events).calls| > 0 {
      var c := |Run(events).calls| - 1;
      if Concerns(e, c) && Allowed(Run(events), e) {
        EventsAdvance(events, c, e);
      } else {
        UnconcernedCallStays(events, e, c);
      }
    }
  }

  // ---- waiting for oneself -----------------------------------------------

  /** A refresh awaits `refreshPromise`, which is its own. */
  predicate AwaitsItself(s: State) {
    exists c :: 0 <= c < |s.calls| && s.calls[c].phase == AwaitRefresh(c)
  }

  /** The event concerns the call, or settles the token fetch it awaits. */
  predicate Helps(s: State, e: Event, c: nat)
    requires c < |s.calls|
  {
    Concerns(e, c)
    || (e.TokenReply? && s.calls[c].phase.AwaitToken? && s.tokenPromise == Some(s.calls[c].phase.fetch))
  }

  /** Some answer or continuation is possible that moves the call. */
  ghost predicate CanMove(s: State, c: nat)
    requires c < |s.calls|
  {
    exists e :: Allowed(s, e) && Helps(s, e, c)
  }

  ghost predicate CanGoOn(s: State, c: nat)
    requires c < |s.calls|
  {
    CanMove(s, c)
    || (s.calls[c].phase.AwaitRefresh? && s.calls[c].phase.refresh < |s.calls| && CanMove(s, s.calls[c].phase.refresh))
  }

  /** What can happen next to an unfinished call, unless it waits for an unfinished refresh. */
  lemma CallCanMove(s: State, c: nat)
    requires Inv(s) && c < |s.calls| && Unfinished(s.calls[c])
    requires s.calls[c].phase.AwaitRefresh? ==>
               s.calls[c].phase.refresh < |s.calls| && !Unfinished(s.calls[s.calls[c].phase.refresh])
    ensures CanMove(s, c)
  {
    assert GoodCall(s, c);
    var e := match s.calls[c].phase
      case AwaitToken(f) => if s.tokenPromise == Some(f) then TokenReply(Success) else Resume(c, false)
      case Sent => Reply(c, Success, false)
      case Probing(_) => Probed(c, None)
      case FetchingToken => OwnToken(c, true)
      case Redirecting => Redirected(c)
      case _ => Resume(c, false);
    assert Allowed(s, e) && Helps(s, e, c);
  }

  lemma SelfWaiterCannotMove(s: State, c: nat)
    requires c < |s.calls| && s.calls[c].phase == AwaitRefresh(c)
    ensures !CanGoOn(s, c)
  {
    forall e | Helps(s, e, c) ensures !Allowed(s, e) {
    }
  }

  /** In every reachable state some event can move each unfinished call, or the refresh it waits for, exactly when
      no refresh waits for itself. */
  lemma NoDeadlockExactly(events: seq<Event>)
    ensures var s := Run(events);
            (forall c :: 0 <= c < |s.calls| && Unfinished(s.calls[c]) ==> CanGoOn(s, c)) <==> !AwaitsItself(s)
  {
    RunKeepsInv(events);
    var s := Run(events);
    if AwaitsItself(s) {
      var c :| 0 <= c < |s.calls| && s.calls[c].phase == AwaitRefresh(c);
      SelfWaiterCannotMove(s, c);
    } else {
      forall c | 0 <= c < |s.calls| && Unfinished(s.calls[c]) ensures CanGoOn(s, c) {
        WaiterCanGoOn(s, c);
      }
    }
  }

  lemma WaiterCanGoOn(s: State, c: nat)
    requires Inv(s) && !AwaitsItself(s) && c < |s.calls| && Unfinished(s.calls[c])
    ensures CanGoOn(s, c)
  {
    assert GoodCall(s, c);
    if s.calls[c].phase.AwaitRefresh? && Unfinished(s.calls[s.calls[c].phase.refresh]) {
      var r := s.calls[c].phase.refresh;
      assert GoodCall(s, r);
      CallCanMove(s, r);
    } else {
      CallCanMove(s, c);
    }
  }

  /** Such a refresh waits for ever, and stays the one that later calls join. */
  lemma {:induction false} SelfWaitIsForever(before: seq<Event>, after: seq<Event>, c: nat)
    requires c < |Run(before).calls| && Run(before).calls[c].phase == AwaitRefresh(c)
    ensures var s := Run(before + after);
            c < |s.calls| && s.calls[c].phase == AwaitRefresh(c) && s.refreshPromise == Some(c)
  {
    if after == [] {
      assert before + after == before;
      RunKeepsInv(before);
      assert GoodCall(Run(before), c);
    } else {
      var front, e := after[..|after| - 1], after[|after| - 1];
      SelfWaitIsForever(before, front, c);
      assert before + after == (before + front) + [e];
      assert (before + after)[..|before + front|] == before + front;
      var s := Run(before + front);
      StaysWaiting(before + front, e, c);
    }
  }

  lemma StaysWaiting(events: seq<Event>, e: Event, c: nat)
    requires c < |Run(events).calls| && Run(events).calls[c].phase == AwaitRefresh(c)
    ensures var s := Step(Run(events), e);
            c < |s.calls| && s.calls[c].phase == AwaitRefresh(c) && s.refreshPromise == Some(c)
  {
    var s := Run(events);
    RunKeepsInv(events);
    UnconcernedCallStays(events, e, c);
    StepKeepsInv(s, e);
    WaitingIsInFlight(Step(s, e), c);
  }

  lemma WaitingIsInFlight(s: State, c: nat)
    requires Inv(s) && c < |s.calls| && s.calls[c].phase == AwaitRefresh(c)
    ensures s.refreshPromise == Some(c)
  {
    assert GoodCall(s, c);
  }

  // ---- when that can happen ----------------------------------------------

  /** Answers the server gives to requests for a CSRF token, in the interceptor or repeated by the handler. */
  predicate TokenAnswersIn(policy: set<Answer>, s: State, e: Event) {
    match e
    case TokenReply(a) => a in policy
    case Reply(c, a, _) => c < |s.calls| && s.calls[c].swapped ==> a in policy
    case _ => true
  }

  predicate Obeys(policy: set<Answer>, events: seq<Event>) {
    events == [] ||
    (var front := events[..|events| - 1];
     Obeys(policy, front) && TokenAnswersIn(policy, Run(front), events[|events| - 1]))
  }

  /** No token request was refused with a 401, so no auth-route call was ever treated as another. */
  predicate Quiet(s: State) {
    && (forall f :: 0 <= f < |s.fetches| ==> s.fetches[f].answer != Some(Unauthorized))
    && (forall c :: 0 <= c < |s.calls| && s.calls[c].authRoute ==>
          !s.calls[c].phase.Probing? && !s.calls[c].phase.AwaitRefresh?)
  }

  lemma QuietMeansNoSelfWait(s: State)
    requires Inv(s) && Quiet(s)
    ensures !AwaitsItself(s)
  {
    forall c | 0 <= c < |s.calls| ensures s.calls[c].phase != AwaitRefresh(c) {
      assert GoodCall(s, c);
    }
  }

  // A step that leaves every call but `c` alone, lets `c` do what its kind may, and settles no fetch.
  predicate StaysQuiet(s: State, t: State, c: nat) {
    && c < |s.calls| <= |t.calls| && |s.fetches| <= |t.fetches|
    && (forall f :: 0 <= f < |t.fetches| ==> t.fetches[f].answer == if f < |s.fetches| then s.fetches[f].answer else None)
    && (forall x :: 0 <= x < |t.calls| && x != c ==>
          if x < |s.calls| then t.calls[x] == s.calls[x] else t.calls[x].phase.Sent? || t.calls[x].phase.AwaitToken?)
    && t.calls[c].authRoute == s.calls[c].authRoute
    && (t.calls[c].authRoute ==> !t.calls[c].phase.Probing? && !t.calls[c].phase.AwaitRefresh?)
  }

  lemma StaysQuietIsQuiet(s: State, t: State, c: nat)
    requires Quiet(s) && StaysQuiet(s, t, c)
    ensures Quiet(t)
  {
  }

  lemma SendStaysQuiet(s: State, c: nat)
    requires c < |s.calls|
    ensures StaysQuiet(s, Send(s, c), c)
  {
  }

  lemma ResendStaysQuiet(s: State, c: nat)
    requires SharedExists(s, c)
    ensures StaysQuiet(s, Resend(s, c), c)
  {
    SendStaysQuiet(if s.calls[c].shared.Some? then Swap(s, c) else s, c);
  }

  lemma HandleAnswerStaysQuiet(s: State, c: nat, answer: Answer, share: bool)
    requires SharedExists(s, c) && (s.calls[c].authRoute && !OnAuthRoute(s.calls[c]) ==> answer != Unauthorized)
    ensures StaysQuiet(s, HandleAnswer(s, c, answer, share), c)
  {
  }

  lemma JoinRefreshStaysQuiet(s: State, c: nat)
    requires c < |s.calls| && !s.calls[c].authRoute
    ensures StaysQuiet(s, JoinRefresh(s, c), c)
  {
    if s.refreshPromise.None? {
      var r := |s.calls|;
      var t := SetPhase(s, c, AwaitRefresh(r));
      SendStaysQuiet(t.(calls := t.calls + [NewCall(true, true, true)], refreshPromise := Some(r)), r);
    }
  }

  lemma SetFlagsStaysQuiet(s: State, c: nat, flags: Flags)
    requires SharedExists(s, c) && !s.calls[c].authRoute
    ensures StaysQuiet(s, SetFlags(s, c, flags), c) && SharedExists(SetFlags(s, c, flags), c)
  {
  }

  lemma StaysQuietInTurn(s: State, t: State, u: State, c: nat)
    requires StaysQuiet(s, t, c) && StaysQuiet(t, u, c)
    ensures StaysQuiet(s, u, c)
  {
  }

  lemma AfterProbeStaysQuiet(s: State, c: nat, enabled: Option<bool>, share: bool)
    requires SharedExists(s, c) && !s.calls[c].authRoute
    ensures StaysQuiet(s, AfterProbe(s, c, enabled, share), c)
  {
    var flags := FlagsOf(s, c);
    if !share && enabled == Some(false) && !flags.authModeRetry {
      var t := SetFlags(s, c, flags.(authModeRetry := true));
      SetFlagsStaysQuiet(s, c, flags.(authModeRetry := true));
      ResendStaysQuiet(t, c);
      StaysQuietInTurn(s, t, Resend(t, c), c);
    } else if !share && enabled != Some(false) && !flags.retry {
      var t := SetFlags(s, c, flags.(retry := true));
      SetFlagsStaysQuiet(s, c, flags.(retry := true));
      JoinRefreshStaysQuiet(t, c);
      StaysQuietInTurn(s, t, JoinRefresh(t, c), c);
    }
  }

  lemma AfterPromiseStaysQuiet(s: State, c: nat, share: bool)
    requires Inv(s) && Quiet(s) && Allowed(s, Resume(c, share))
    ensures StaysQuiet(s, AfterPromise(s, c, share), c)
  {
    match s.calls[c].phase
    case AwaitToken(f) =>
      var a := s.fetches[f].answer.value;
      if !a.Success? {
        HandleAnswerStaysQuiet(Failing(s, c, f), c, a, share);
      }
    case AwaitRefresh(r) => ResendStaysQuiet(s, c);
    case _ =>
  }

  lemma BeginStaysQuiet(s: State, needsCsrf: bool, authRoute: bool)
    requires Quiet(s)
    ensures Quiet(Step(s, Begin(needsCsrf, authRoute)))
  {
    var t := s.(calls := s.calls + [NewCall(needsCsrf, authRoute, false)]);
    SendStaysQuiet(t, |s.calls|);
    StaysQuietIsQuiet(t, Send(t, |s.calls|), |s.calls|);
  }

  lemma StepStaysQuiet(policy: set<Answer>, s: State, e: Event)
    requires Inv(s) && Quiet(s) && Unauthorized !in policy && TokenAnswersIn(policy, s, e)
    ensures Quiet(Step(s, e))
  {
    if Allowed(s, e) {
      var t := Step(s, e);
      match e
      case Begin(needsCsrf, authRoute) => BeginStaysQuiet(s, needsCsrf, authRoute);
      case TokenReply(_) =>
      case Reply(c, answer, share) =>
        assert GoodCall(s, c);
        HandleAnswerStaysQuiet(s, c, answer, share);
        StaysQuietIsQuiet(s, t, c);
      case Resume(c, share) =>
        AfterPromiseStaysQuiet(s, c, share);
        StaysQuietIsQuiet(s, t, c);
      case Probed(c, enabled) =>
        AfterProbeStaysQuiet(s, c, enabled, s.calls[c].phase.share);
        StaysQuietIsQuiet(s, t, c);
      case OwnToken(c, ok) =>
        ResendStaysQuiet(s.(hasToken := true), c);
        StaysQuietIsQuiet(s, t, c);
      case Redirected(c) =>
        StaysQuietIsQuiet(s, t, c);
    }
  }

  lemma {:induction false} ObedientRunIsQuiet(policy: set<Answer>, events: seq<Event>)
    requires Unauthorized !in policy && Obeys(policy, events)
    ensures Quiet(Run(events))
  {
    if events != [] {
      var front := events[..|events| - 1];
      ObedientRunIsQuiet(policy, front);
      RunKeepsInv(front);
      StepStaysQuiet(policy, Run(front), events[|events| - 1]);
    }
  }

  /** One 401 to a token request of a refresh is enough. */
  const DEADLOCK: seq<Event> :=
    [Begin(false, false), Reply(0, Unauthorized, false), Probed(0, Some(true)), TokenReply(Unauthorized),
     Resume(1, false), Probed(1, Some(true))]

  lemma DeadlockHappens()
    ensures AwaitsItself(Run(DEADLOCK)) && Obeys({Unauthorized}, DEADLOCK)
  {
    var r1 := [Begin(false, false)];
    var r2 := r1 + [Reply(0, Unauthorized, false)];
    var r3 := r2 + [Probed(0, Some(true))];
    var r4 := r3 + [TokenReply(Unauthorized)];
    var r5 := r4 + [Resume(1, false)];
    var r6 := r5 + [Probed(1, Some(true))];
    assert r6 == DEADLOCK;
    var marked := Flags(true, false, false);
    var c0 := Call(false, false, false, false, None, UNMARKED, 1, 0, Sent);
    var c1 := Call(true, true, true, false, None, UNMARKED, 0, 0, AwaitToken(0));
    var w0 := c0.(flags := marked, phase := AwaitRefresh(1));
    RunOfStep({Unauthorized}, [], r1[0]);
    assert [] + r1 == r1;
    assert Run(r1) == State([c0], [], false, None, None);
    RunOfStep({Unauthorized}, r1, Reply(0, Unauthorized, false));
    assert Run(r2) == State([c0.(phase := Probing(false))], [], false, None, None);
    RunOfStep({Unauthorized}, r2, Probed(0, Some(true)));
    assert Run(r3) == State([w0, c1], [Fetch(None, UNMARKED)], false, Some(0), Some(1));
    RunOfStep({Unauthorized}, r3, TokenReply(Unauthorized));
    assert Run(r4) == State([w0, c1], [Fetch(Some(Unauthorized), UNMARKED)], false, None, Some(1));
    RunOfStep({Unauthorized}, r4, Resume(1, false));
    var p1 := c1.(shared := Some(0), phase := Probing(false));
    assert Run(r5) == State([w0, p1], [Fetch(Some(Unauthorized), UNMARKED)], false, None, Some(1));
    RunOfStep({Unauthorized}, r5, Probed(1, Some(true)));
    LastStep(Run(r5), w0, p1);
    assert Run(r6).calls[1].phase == AwaitRefresh(1);
  }

  lemma LastStep(s: State, w0: Call, p1: Call)
    requires s == State([w0, p1], [Fetch(Some(Unauthorized), UNMARKED)], false, None, Some(1))
    requires p1.shared == Some(0) && p1.phase == Probing(false)
    ensures |Step(s, Probed(1, Some(true))).calls| == 2
    ensures Step(s, Probed(1, Some(true))).calls[1].phase == AwaitRefresh(1)
  {
  }

  lemma RunOfStep(policy: set<Answer>, events: seq<Event>, e: Event)
    ensures Run(events + [e]) == Step(Run(events), e)
    ensures Obeys(policy, events + [e]) <==> Obeys(policy, events) && TokenAnswersIn(policy, Run(events), e)
  {
    assert (events + [e])[..|events|] == events;
  }

  lemma {:induction false} ObeysMore(policy: set<Answer>, more: set<Answer>, events: seq<Event>)
    requires policy <= more && Obeys(policy, events)
    ensures Obeys(more, events)
  {
    if events != [] {
      ObeysMore(policy, more, events[..|events| - 1]);
    }
  }

  lemma DeadlockingRun(policy: set<Answer>) returns (events: seq<Event>)
    requires Unauthorized in policy
    ensures Obeys(policy, events) && AwaitsItself(Run(events))
  {
    events := DEADLOCK;
    DeadlockHappens();
    ObeysMore({Unauthorized}, policy, events);
  }

  const ONE_CALL := Call(false, false, false, false, None, UNMARKED, 1, 0, Sent)
  const REFRESHING := Call(true, true, true, false, None, UNMARKED, 0, 0, AwaitToken(0))
  const REFRESHED := Call(true, true, true, false, None, UNMARKED, 1, 0, Done(true))
  const FETCHED := Fetch(Some(Success), UNMARKED)

  lemma FirstSending() returns (events: seq<Event>)
    ensures Run(events) == State([ONE_CALL], [], false, None, None)
  {
    events := After([], Begin(false, false), State([ONE_CALL], [], false, None, None));
  }

  lemma FirstRefusal() returns (events: seq<Event>)
    ensures Run(events) == State([ONE_CALL.(phase := Probing(false))], [], false, None, None)
  {
    events := FirstSending();
    events := After(events, Reply(0, Unauthorized, false), State([ONE_CALL.(phase := Probing(false))], [], false, None, None));
  }

  /** A 401 with authentication off is retried once ... */
  lemma ModeRetry() returns (events: seq<Event>)
    ensures Run(events) == State([ONE_CALL.(flags := Flags(false, false, true), sends := 2)], [], false, None, None)
  {
    events := FirstRefusal();
    events := After(events, Probed(0, Some(false)),
                    State([ONE_CALL.(flags := Flags(false, false, true), sends := 2)], [], false, None, None));
  }

  /** ... one with it on starts a refresh, which fetches a token first ... */
  lemma RefreshStarts() returns (events: seq<Event>)
    ensures var c := ONE_CALL.(flags := Flags(true, false, true), sends := 2, phase := AwaitRefresh(1));
            Run(events) == State([c, REFRESHING], [Fetch(None, UNMARKED)], false, Some(0), Some(1))
  {
    events := ModeRetry();
    var c := ONE_CALL.(flags := Flags(false, false, true), sends := 2);
    events := After(events, Reply(0, Unauthorized, false), State([c.(phase := Probing(false))], [], false, None, None));
    events := After(events, Probed(0, Some(true)),
                    State([c.(flags := Flags(true, false, true), phase := AwaitRefresh(1)), REFRESHING],
                          [Fetch(None, UNMARKED)], false, Some(0), Some(1)));
  }

  /** ... and is sent again when the refresh has succeeded ... */
  lemma RefreshRetry() returns (events: seq<Event>)
    ensures var c := ONE_CALL.(flags := Flags(true, false, true), sends := 3);
            Run(events) == State([c, REFRESHED], [FETCHED], true, None, None)
  {
    events := RefreshStarts();
    var c := ONE_CALL.(flags := Flags(true, false, true), sends := 2, phase := AwaitRefresh(1));
    events := After(events, TokenReply(Success), State([c, REFRESHING], [FETCHED], true, None, Some(1)));
    events := After(events, Resume(1, false), State([c, REFRESHED.(phase := Sent)], [FETCHED], true, None, Some(1)));
    events := After(events, Reply(1, Success, false), State([c, REFRESHED], [FETCHED], true, None, None));
    events := After(events, Resume(0, false),
                    State([c.(sends := 3, phase := Sent), REFRESHED], [FETCHED], true, None, None));
  }

  /** ... and a stale CSRF token costs one more: the bound of four is met, and the last sending succeeds. */
  lemma FourSendsHappen() returns (events: seq<Event>)
    ensures |Run(events).calls| == 2 && Run(events).calls[0].sends == 4 && Run(events).calls[0].phase == Done(true)
  {
    events := RefreshRetry();
    var c := ONE_CALL.(flags := Flags(true, true, true), sends := 3, phase := FetchingToken);
    events := After(events, Reply(0, CsrfRejected, false), State([c, REFRESHED], [FETCHED], false, None, None));
    events := After(events, OwnToken(0, true),
                    State([c.(sends := 4, phase := Sent), REFRESHED], [FETCHED], true, None, None));
    events := After(events, Reply(0, Success, false),
                    State([c.(sends := 4, phase := Done(true)), REFRESHED], [FETCHED], true, None, None));
  }

  /** The run continues with `e` and so reaches `t`. */
  lemma After(events: seq<Event>, e: Event, t: State) returns (more: seq<Event>)
    requires Step(Run(events), e) == t
    ensures more == events + [e] && Run(more) == t
  {
    more := events + [e];
    RunOfStep({}, events, e);
  }

  predicate Deadlocks(policy: set<Answer>, events: seq<Event>) {
    Obeys(policy, events) && AwaitsItself(Run(events))
  }

  /** Some run deadlocks exactly when the server may refuse a token request with a 401. */
  lemma SomeRunDeadlocksExactly(policy: set<Answer>)
    ensures (exists events :: Deadlocks(policy, events)) <==> Unauthorized in policy
  {
    if Unauthorized in policy {
      var events := DeadlockingRun(policy);
      assert Deadlocks(policy, events);
    } else {
      forall events ensures !Deadlocks(policy, events) {
        if Obeys(policy, events) {
          ObedientRunIsQuiet(policy, events);
          RunKeepsInv(events);
          QuietMeansNoSelfWait(Run(events));
        }
      }
    }
  }

  // ---- requests and tokens -----------------------------------------------

  /** A new call goes out at once unless it needs a CSRF token and none is held; then it waits for the fetch in flight,
      which it starts when there is none. */
  lemma BeginMeans(s: State, needsCsrf: bool, authRoute: bool)
    ensures var c, t := |s.calls|, Step(s, Begin(needsCsrf, authRoute));
            && |t.calls| == c + 1 && !t.calls[c].isRefresh && t.calls[c].needsCsrf == needsCsrf && t.calls[c].authRoute == authRoute
            && (needsCsrf && !s.hasToken ==>
                  t.tokenPromise.Some? && t.calls[c].phase == AwaitToken(t.tokenPromise.value)
                  && (s.tokenPromise.Some? ==> t.tokenPromise == s.tokenPromise)
                  && (s.tokenPromise.None? ==> t.tokenPromise == Some(|s.fetches|) && |t.fetches| == |s.fetches| + 1))
            && (!(needsCsrf && !s.hasToken) ==> t.calls[c].phase == Sent && t.calls[c].sends == 1)
  {
  }

  /** The shared fetch settles with its answer; the token is held from then on when that was success. */
  lemma TokenReplyMeans(s: State, answer: Answer)
    requires Allowed(s, TokenReply(answer))
    ensures var f, t := s.tokenPromise.value, Step(s, TokenReply(answer));
            && t.tokenPromise == None && f < |t.fetches| && t.fetches[f].answer == Some(answer)
            && t.hasToken == (s.hasToken || answer == Success) && t.calls == s.calls
  {
  }

  /** A call that waits for a refresh is sent again exactly when the refresh was answered with success, and is
      otherwise redirected. */
  lemma RefreshDecides(events: seq<Event>, c: nat, share: bool)
    requires Allowed(Run(events), Resume(c, share)) && Run(events).calls[c].phase.AwaitRefresh?
    ensures var s := Run(events);
            var t, r := Step(s, Resume(c, share)), s.calls[c].phase.refresh;
            && c < |t.calls| && (OnItsWay(t.calls[c].phase) <==> Answered(events, r))
            && (!Answered(events, r) ==> t.calls[c].phase == Redirecting)
  {
    ResolvedExactly(events, Run(events).calls[c].phase.refresh);
    WaitMeans(Run(events), c, share, false);
  }
}
