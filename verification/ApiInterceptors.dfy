/** The interceptors as they run: module variables, and calls marked in place. */
module ApiInterceptors {
  import opened Prelude
  import opened ApiClient

  class Client {
    var calls: seq<Call>
    var fetches: seq<Fetch>
    var hasToken: bool
    var tokenPromise: Option<nat>
    var refreshPromise: Option<nat>

    ghost function View(): State
      reads this
    {
      State(calls, fetches, hasToken, tokenPromise, refreshPromise)
    }

    ghost predicate Valid()
      reads this
    {
      Inv(View())
    }

    constructor ()
      ensures View() == INITIAL && Valid()
    {
      calls, fetches, hasToken, tokenPromise, refreshPromise := [], [], false, None, None;
    }

    /** `api(...)` */
    method Request(needsCsrf: bool, authRoute: bool) returns (c: nat)
      modifies this
      ensures c == |old(calls)| && View() == Step(old(View()), Begin(needsCsrf, authRoute))
    {
      c := |calls|;
      calls := calls + [NewCall(needsCsrf, authRoute, false)];
      InterceptRequest(c);
    }

    /** The request interceptor, with `ensureCsrfToken`. */
    method InterceptRequest(c: nat)
      requires c < |calls|
      modifies this
      ensures View() == Send(old(View()), c)
    {
      var call := calls[c];
      if call.needsCsrf && !call.swapped && !hasToken {
        if tokenPromise == None {
          tokenPromise := Some(|fetches|);
          fetches := fetches + [Fetch(None, UNMARKED)];
        }
        calls := calls[c := call.(phase := AwaitToken(tokenPromise.value))];
      } else {
        Transmit(c);
      }
    }

    method Transmit(c: nat)
      requires c < |calls|
      modifies this`calls
      ensures View() == Dispatch(old(View()), c)
    {
      var call := calls[c];
      if call.swapped {
        call := call.(tokenSends := call.tokenSends + 1);
      } else {
        call := call.(sends := call.sends + 1);
      }
      calls := calls[c := call.(phase := Sent)];
    }

    method Settle(c: nat, ok: bool)
      requires c < |calls|
      modifies this`calls, this`refreshPromise
      ensures View() == Finish(old(View()), c, ok)
    {
      calls := calls[c := calls[c].(phase := Done(ok))];
      if refreshPromise == Some(c) {
        refreshPromise := None;
      }
    }

    method Wait(c: nat, phase: Phase)
      requires c < |calls|
      modifies this`calls
      ensures View() == SetPhase(old(View()), c, phase)
    {
      calls := calls[c := calls[c].(phase := phase)];
    }

    /** Sets the marks on the configuration being handled, which a failed token fetch shares. */
    method Mark(c: nat, flags: Flags)
      requires SharedExists(View(), c)
      modifies this`calls, this`fetches
      ensures View() == SetFlags(old(View()), c, flags)
    {
      if calls[c].shared.Some? {
        var f := calls[c].shared.value;
        fetches := fetches[f := fetches[f].(flags := flags)];
      } else {
        calls := calls[c := calls[c].(flags := flags)];
      }
    }

    method Marks(c: nat) returns (flags: Flags)
      requires SharedExists(View(), c)
      ensures flags == FlagsOf(View(), c)
    {
      return if calls[c].shared.Some? then fetches[calls[c].shared.value].flags else calls[c].flags;
    }

    /** `api(originalRequest)` */
    method Retry(c: nat)
      requires SharedExists(View(), c)
      modifies this
      ensures View() == Resend(old(View()), c)
    {
      if calls[c].shared.Some? {
        var flags := Marks(c);
        calls := calls[c := calls[c].(swapped := true, shared := None, flags := flags)];
      }
      InterceptRequest(c);
    }

    /** `refreshAccessToken`: joins the refresh in flight, or starts one. */
    method RefreshAccessToken(c: nat)
      requires c < |calls|
      modifies this
      ensures View() == JoinRefresh(old(View()), c)
    {
      if refreshPromise == None {
        var r := |calls|;
        calls := calls[c := calls[c].(phase := AwaitRefresh(r))] + [NewCall(true, true, true)];
        refreshPromise := Some(r);
        InterceptRequest(r);
      } else {
        Wait(c, AwaitRefresh(refreshPromise.value));
      }
    }

    /** The response interceptor. */
    method OnResponse(c: nat, answer: Answer, share: bool)
      requires SharedExists(View(), c)
      modifies this
      ensures View() == HandleAnswer(old(View()), c, answer, share)
    {
      if answer == Unauthorized && !OnAuthRoute(calls[c]) {
        Wait(c, Probing(share));
        return;
      }
      if answer == CsrfRejected {
        hasToken := false;
        var flags := Marks(c);
        if !flags.csrfRetry {
          Mark(c, flags.(csrfRetry := true));
          Wait(c, FetchingToken);
          return;
        }
      }
      Settle(c, answer == Success);
    }

    /** The 401 branch once `getAuthEnabledStatus` has answered. */
    method OnAuthStatus(c: nat, enabled: Option<bool>)
      requires Allowed(View(), Probed(c, enabled))
      modifies this
      ensures View() == Step(old(View()), Probed(c, enabled))
    {
      var flags := Marks(c);
      if calls[c].phase.share {
        Settle(c, false);
      } else if enabled == Some(false) {
        if flags.authModeRetry {
          Settle(c, false);
        } else {
          Mark(c, flags.(authModeRetry := true));
          Retry(c);
        }
      } else if !flags.retry {
        Mark(c, flags.(retry := true));
        RefreshAccessToken(c);
      } else {
        Wait(c, Redirecting);
      }
    }

    /** The fetch behind `csrfTokenPromise` settles. */
    method OnCsrfToken(answer: Answer)
      requires Allowed(View(), TokenReply(answer))
      modifies this`fetches, this`tokenPromise, this`hasToken
      ensures View() == Step(old(View()), TokenReply(answer))
    {
      var f := tokenPromise.value;
      fetches := fetches[f := fetches[f].(answer := Some(answer))];
      tokenPromise := None;
      if answer == Success {
        hasToken := true;
      }
    }

    /** A promise the call awaits has settled. */
    method OnPromise(c: nat, share: bool)
      requires Allowed(View(), Resume(c, share))
      modifies this
      ensures View() == Step(old(View()), Resume(c, share))
    {
      match calls[c].phase {
        case AwaitToken(f) =>
          var answer := fetches[f].answer.value;
          if answer == Success {
            Transmit(c);
          } else {
            calls := calls[c := calls[c].(shared := Some(f))];
            OnResponse(c, answer, share);
          }
        case AwaitRefresh(r) =>
          if calls[r].phase.ok {
            Retry(c);
          } else {
            Wait(c, Redirecting);
          }
      }
    }

    /** The token fetch of a CSRF retry settles. */
    method OnRetryToken(c: nat, ok: bool)
      requires Allowed(View(), OwnToken(c, ok))
      modifies this
      ensures View() == Step(old(View()), OwnToken(c, ok))
    {
      if ok {
        hasToken := true;
        Retry(c);
      } else {
        Settle(c, false);
      }
    }

    method OnRedirected(c: nat)
      requires Allowed(View(), Redirected(c))
      modifies this`calls, this`refreshPromise
      ensures View() == Step(old(View()), Redirected(c))
    {
      Settle(c, false);
    }

    /** One event, whichever it is: the machine's step, its invariant, and no request sent a fifth time. */
    method Deliver(e: Event)
      requires Valid() && Allowed(View(), e)
      modifies this
      ensures Valid() && View() == Step(old(View()), e)
      ensures forall c :: 0 <= c < |calls| ==> calls[c].sends <= 4
    {
      StepKeepsInv(View(), e);
      BudgetsHold(Step(View(), e));
      match e {
        case Begin(needsCsrf, authRoute) => var _ := Request(needsCsrf, authRoute);
        case Reply(c, answer, share) => OnResponse(c, answer, share);
        case TokenReply(answer) => OnCsrfToken(answer);
        case Resume(c, share) => OnPromise(c, share);
        case Probed(c, enabled) => OnAuthStatus(c, enabled);
        case OwnToken(c, ok) => OnRetryToken(c, ok);
        case Redirected(c) => OnRedirected(c);
      }
    }
  }

  lemma BudgetsHold(s: State)
    requires Inv(s)
    ensures forall c :: 0 <= c < |s.calls| ==> s.calls[c].sends <= 4
  {
    forall c | 0 <= c < |s.calls| ensures s.calls[c].sends <= 4 {
      assert GoodCall(s, c);
    }
  }
}
