/** The one-time bootstrap setup code: how often it can be guessed at, over whole runs. */
module SetupCode {
  import opened Prelude
  import opened Text
  import opened AuthState

  /** How many guesses were compared with setup code number `code` (codes are numbered from 1). */
  function Evaluated(guesses: seq<Guess>, code: nat): nat {
    if guesses == [] then 0
    else
      var last := guesses[|guesses| - 1];
      Evaluated(guesses[..|guesses| - 1], code) + if last.code == code then 1 else 0
  }

  predicate HasLiveCode(s: State) {
    s.config.Some? && s.config.value.codeHash.Some? && s.config.value.codeExpiresAt.Some?
  }

  /** Guesses concern issued codes, while they last, and a success is the last guess at its code. */
  ghost predicate GuessesWellFormed(guesses: seq<Guess>, expiries: seq<int>) {
    && (forall i :: 0 <= i < |guesses| ==>
          1 <= guesses[i].code <= |expiries| && guesses[i].at <= expiries[guesses[i].code - 1])
    && (forall i, j :: 0 <= i < j < |guesses| && guesses[i].code == guesses[j].code ==> !guesses[i].ok)
  }

  ghost predicate GuessesBounded(env: Env, guesses: seq<Guess>) {
    forall code :: Evaluated(guesses, code) <= env.maxAttempts
  }

  ghost predicate AllWrong(guesses: seq<Guess>, code: nat) {
    forall i :: 0 <= i < |guesses| && guesses[i].code == code ==> !guesses[i].ok
  }

  /** The failure counter counts the guesses at the code now stored, all of them wrong. */
  ghost predicate CounterExact(env: Env, s: State) {
    HasLiveCode(s) ==>
      && |s.expiries| > 0
      && s.config.value.codeExpiresAt.value == s.expiries[|s.expiries| - 1]
      && Evaluated(s.guesses, |s.expiries|) == s.config.value.failedAttempts
      && s.config.value.failedAttempts <= env.maxAttempts
      && AllWrong(s.guesses, |s.expiries|)
  }

  ghost predicate CodeInv(env: Env, s: State) {
    GuessesWellFormed(s.guesses, s.expiries) && GuessesBounded(env, s.guesses) && CounterExact(env, s)
  }

  /** Neither the stored code nor its history differs. */
  ghost predicate SameCode(s: State, t: State) {
    && t.guesses == s.guesses && t.expiries == s.expiries
    && HasLiveCode(t) == HasLiveCode(s)
    && (HasLiveCode(s) ==>
          && t.config.value.codeHash == s.config.value.codeHash
          && t.config.value.codeExpiresAt == s.config.value.codeExpiresAt
          && t.config.value.failedAttempts == s.config.value.failedAttempts)
  }

  lemma SameCodeKeepsInv(env: Env, s: State, t: State)
    requires CodeInv(env, s) && SameCode(s, t)
    ensures CodeInv(env, t)
  {
  }

  lemma {:induction false} NeverGuessed(guesses: seq<Guess>, code: nat)
    requires forall i :: 0 <= i < |guesses| ==> guesses[i].code != code
    ensures Evaluated(guesses, code) == 0
  {
    if guesses != [] {
      NeverGuessed(guesses[..|guesses| - 1], code);
    }
  }

  lemma IssueKeepsCodeInv(env: Env, s: State, now: int, code: string)
    requires CodeInv(env, s)
    ensures CodeInv(env, IssueCodeIfRequired(env, s, now, code))
  {
    var t := IssueCodeIfRequired(env, s, now, code);
    if |t.expiries| == |s.expiries| {
      SameCodeKeepsInv(env, s, t);
    } else {
      NeverGuessed(s.guesses, |t.expiries|);
    }
  }

  lemma EvaluatedAppend(guesses: seq<Guess>, g: Guess)
    ensures forall code :: Evaluated(guesses + [g], code) == Evaluated(guesses, code) + if g.code == code then 1 else 0
  {
    assert (guesses + [g])[..|guesses|] == guesses;
  }

  /** One more guess at the last code, all at which so far were wrong. */
  lemma GuessKeepsWellFormed(guesses: seq<Guess>, expiries: seq<int>, g: Guess)
    requires GuessesWellFormed(guesses, expiries) && AllWrong(guesses, |expiries|) && expiries != []
    requires g.code == |expiries| && g.at <= expiries[|expiries| - 1]
    ensures GuessesWellFormed(guesses + [g], expiries)
  {
  }

  lemma GuessKeepsBound(env: Env, guesses: seq<Guess>, g: Guess)
    requires GuessesBounded(env, guesses) && Evaluated(guesses, g.code) < env.maxAttempts
    ensures GuessesBounded(env, guesses + [g]) && Evaluated(guesses + [g], g.code) == Evaluated(guesses, g.code) + 1
  {
    EvaluatedAppend(guesses, g);
    forall code ensures Evaluated(guesses + [g], code) <= env.maxAttempts {
      assert Evaluated(guesses, code) <= env.maxAttempts;
    }
  }

  lemma StillAllWrong(guesses: seq<Guess>, g: Guess, code: nat)
    requires AllWrong(guesses, code) && !g.ok
    ensures AllWrong(guesses + [g], code)
  {
  }

  /** What a guess that is compared leaves: counted when wrong, using the code up when right. */
  lemma CounterAfterGuess(env: Env, s: State, t: State, ok: bool, now: int)
    requires CounterExact(env, s) && HasLiveCode(s) && s.config.value.failedAttempts < env.maxAttempts
    requires t.expiries == s.expiries && t.guesses == s.guesses + [Guess(|s.expiries|, ok, now)]
    requires if ok then !HasLiveCode(t) else t.config == Some(s.config.value.(failedAttempts := s.config.value.failedAttempts + 1))
    ensures CounterExact(env, t)
  {
    if !ok {
      var g := Guess(|s.expiries|, ok, now);
      EvaluatedAppend(s.guesses, g);
      assert Evaluated(t.guesses, g.code) == Evaluated(s.guesses, g.code) + 1;
      StillAllWrong(s.guesses, g, |s.expiries|);
    }
  }

  lemma GuessKeepsInv(env: Env, s: State, t: State, ok: bool, now: int)
    requires CodeInv(env, s) && HasLiveCode(s) && now <= s.config.value.codeExpiresAt.value
    requires s.config.value.failedAttempts < env.maxAttempts && t.expiries == s.expiries
    requires t.guesses == s.guesses + [Guess(|s.expiries|, ok, now)]
    requires if ok then !HasLiveCode(t) else t.config == Some(s.config.value.(failedAttempts := s.config.value.failedAttempts + 1))
    ensures CodeInv(env, t)
  {
    GuessKeepsWellFormed(s.guesses, s.expiries, Guess(|s.expiries|, ok, now));
    GuessKeepsBound(env, s.guesses, Guess(|s.expiries|, ok, now));
    CounterAfterGuess(env, s, t, ok, now);
  }

  lemma VerifyKeepsCodeInv(env: Env, s: State, now: int, provided: Option<string>)
    requires CodeInv(env, s)
    ensures CodeInv(env, VerifyCode(env, s, now, provided).0)
  {
    var (t, verdict) := VerifyCode(env, s, now, provided);
    if verdict == Wrong || verdict == Accepted {
      GuessKeepsInv(env, s, t, verdict == Accepted, now);
    }
  }

  lemma BootstrapCode(env: Env, s: State, now: int, email: string, username: Option<string>,
                      provided: Option<string>, freshCode: string)
    requires BOOTSTRAP_USER_ID in s.users
    ensures var v := VerifyCode(env, s, now, provided).0;
            var u := RegisterBootstrap(env, s, now, email, username, provided, freshCode).0;
            SameCode(v, u) || u == IssueCodeIfRequired(env, v, now, freshCode)
  {
  }

  lemma RegisterCode(env: Env, s: State, e: Event)
    requires e.EvRegister?
    ensures var t := EnsureConfig(env, s);
            var v, u := VerifyCode(env, t, e.now, e.provided).0, Handle(env, s, e).0;
            SameCode(t, u) || SameCode(v, u) || u == IssueCodeIfRequired(env, v, e.now, e.freshCode)
  {
    var t := EnsureConfig(env, s);
    if BOOTSTRAP_USER_ID in t.users {
      BootstrapCode(env, t, e.now, e.email, e.username, e.provided, e.freshCode);
    }
  }

  lemma RegisterKeepsCodeInv(env: Env, s: State, e: Event)
    requires CodeInv(env, s) && e.EvRegister?
    ensures CodeInv(env, Handle(env, s, e).0)
  {
    var t := EnsureConfig(env, s);
    SameCodeKeepsInv(env, s, t);
    VerifyKeepsCodeInv(env, t, e.now, e.provided);
    var v := VerifyCode(env, t, e.now, e.provided).0;
    IssueKeepsCodeInv(env, v, e.now, e.freshCode);
    RegisterCode(env, s, e);
    var u := Handle(env, s, e).0;
    if SameCode(t, u) {
      SameCodeKeepsInv(env, t, u);
    } else if SameCode(v, u) {
      SameCodeKeepsInv(env, v, u);
    }
  }

  lemma ChooseModeKeepsCodeInv(env: Env, s: State, now: int, enabling: bool, authEnabled: bool, freshCode: string)
    requires CodeInv(env, s)
    ensures CodeInv(env, ChooseMode(env, s, now, enabling, authEnabled, freshCode))
  {
    var t := SetAuthMode(env, if enabling then EnsureBootstrapUser(s) else s, authEnabled);
    SameCodeKeepsInv(env, s, t);
    IssueKeepsCodeInv(env, t, now, freshCode);
  }

  lemma OnboardingCode(env: Env, s: State, e: Event)
    requires e.EvOnboarding?
    ensures var (a, enabled) := GetAuthEnabled(env, s, e.now);
            var t := EnsureConfig(env, if enabled then a else EnsureBootstrapUser(a));
            var u := Handle(env, s, e).0;
            SameCode(s, t) && (SameCode(s, u) || u == ChooseMode(env, t, e.now, e.enable, e.enable, e.freshCode))
  {
  }

  lemma OnboardingKeepsCodeInv(env: Env, s: State, e: Event)
    requires CodeInv(env, s) && e.EvOnboarding?
    ensures CodeInv(env, Handle(env, s, e).0)
  {
    OnboardingCode(env, s, e);
    var (a, enabled) := GetAuthEnabled(env, s, e.now);
    var t := EnsureConfig(env, if enabled then a else EnsureBootstrapUser(a));
    SameCodeKeepsInv(env, s, t);
    ChooseModeKeepsCodeInv(env, t, e.now, e.enable, e.enable, e.freshCode);
    var u := Handle(env, s, e).0;
    if SameCode(s, u) {
      SameCodeKeepsInv(env, s, u);
    }
  }

  lemma ToggleCode(env: Env, s: State, e: Event)
    requires e.EvToggle?
    ensures var t := EnsureConfig(env, RequireAuth(env, s, e.now, e.cred, AccountRoute).0);
            var enabling, u := !t.config.value.authEnabled && e.next, Handle(env, s, e).0;
            SameCode(s, t) && (SameCode(s, u) || u == ChooseMode(env, t, e.now, enabling, e.next, e.freshCode))
  {
    RequireAuthSameCode(env, s, e.now, e.cred, AccountRoute);
  }

  lemma ToggleKeepsCodeInv(env: Env, s: State, e: Event)
    requires CodeInv(env, s) && e.EvToggle?
    ensures CodeInv(env, Handle(env, s, e).0)
  {
    ToggleCode(env, s, e);
    var t := EnsureConfig(env, RequireAuth(env, s, e.now, e.cred, AccountRoute).0);
    SameCodeKeepsInv(env, s, t);
    ChooseModeKeepsCodeInv(env, t, e.now, !t.config.value.authEnabled && e.next, e.next, e.freshCode);
    var u := Handle(env, s, e).0;
    if SameCode(s, u) {
      SameCodeKeepsInv(env, s, u);
    }
  }

  lemma GateSameCode(env: Env, s: State, now: int, cred: Credential, checks: Checks)
    ensures SameCode(s, AdminGate(env, s, now, cred, checks).0)
  {
    RequireAuthSameCode(env, s, now, cred, AccountRoute);
  }

  lemma RequireAuthSameCode(env: Env, s: State, now: int, cred: Credential, route: Route)
    ensures SameCode(s, RequireAuth(env, s, now, cred, route).0)
  {
  }

  /** Routes that neither issue nor check a code. */
  lemma OtherStepsSameCode(env: Env, s: State, e: Event)
    requires !e.EvRegister? && !e.EvOnboarding? && !e.EvToggle? && !e.EvStartup?
    ensures SameCode(s, Handle(env, s, e).0)
  {
    match e
    case EvUpdateRole(now, cred, checks, _, _) => GateSameCode(env, s, now, cred, checks);
    case EvCreateUser(now, cred, checks, _, _, _) => GateSameCode(env, s, now, cred, checks);
    case EvPatchUser(now, cred, checks, _, _) => GateSameCode(env, s, now, cred, checks);
    case EvResetPassword(now, cred, checks, _, _) => GateSameCode(env, s, now, cred, checks);
    case EvSetRegistration(now, cred, checks, _) => GateSameCode(env, s, now, cred, checks);
    case EvAuthenticate(now, cred, route) => RequireAuthSameCode(env, s, now, cred, route);
    case EvOidcSignIn(_, _, _, _, _, _) =>
  }

  lemma StepKeepsCodeInv(env: Env, s: State, e: Event)
    requires CodeInv(env, s)
    ensures CodeInv(env, Handle(env, s, e).0)
  {
    match e
    case EvRegister(_, _, _, _, _, _, _) => RegisterKeepsCodeInv(env, s, e);
    case EvOnboarding(_, _, _, _) => OnboardingKeepsCodeInv(env, s, e);
    case EvToggle(_, _, _, _, _) => ToggleKeepsCodeInv(env, s, e);
    case EvStartup(now, code) => IssueKeepsCodeInv(env, s, now, code);
    case _ =>
      OtherStepsSameCode(env, s, e);
      SameCodeKeepsInv(env, s, Handle(env, s, e).0);
  }

  lemma {:induction false} RunKeepsCodeInv(env: Env, s: State, events: seq<Event>)
    requires CodeInv(env, s)
    ensures CodeInv(env, Run(env, s, events))
    decreases |events|
  {
    if events != [] {
      StepKeepsCodeInv(env, s, events[0]);
      RunKeepsCodeInv(env, Handle(env, s, events[0]).0, events[1..]);
    }
  }

  /** In any run, at most `maxAttempts` guesses are ever compared with an issued code: none after
      the right one, none after it expired. Hence none after lockout either. */
  lemma SetupCodeGuessesBounded(env: Env, events: seq<Event>, code: nat, i: nat, j: nat)
    requires i <= j < |Run(env, INITIAL, events).guesses|
    ensures var s := Run(env, INITIAL, events);
            && Evaluated(s.guesses, code) <= env.maxAttempts
            && 1 <= s.guesses[i].code <= |s.expiries|
            && s.guesses[i].at <= s.expiries[s.guesses[i].code - 1]
            && (i < j && s.guesses[i].code == s.guesses[j].code ==> !s.guesses[i].ok)
  {
    RunKeepsCodeInv(env, INITIAL, events);
    GuessesInOrder(env, Run(env, INITIAL, events), code, i, j);
  }

  lemma GuessesInOrder(env: Env, s: State, code: nat, i: nat, j: nat)
    requires GuessesWellFormed(s.guesses, s.expiries) && GuessesBounded(env, s.guesses) && i <= j < |s.guesses|
    ensures Evaluated(s.guesses, code) <= env.maxAttempts
    ensures 1 <= s.guesses[i].code <= |s.expiries| && s.guesses[i].at <= s.expiries[s.guesses[i].code - 1]
    ensures i < j && s.guesses[i].code == s.guesses[j].code ==> !s.guesses[i].ok
  {
  }

  lemma AcceptedExactly(env: Env, s: State, now: int, provided: string)
    requires CounterExact(env, s) && Trim(provided) != "" && HasLiveCode(s)
    ensures |s.expiries| > 0 &&
            (VerifyCode(env, s, now, Some(provided)).1 == Accepted <==>
               && env.digest(provided) == s.config.value.codeHash.value
               && now <= s.expiries[|s.expiries| - 1]
               && Evaluated(s.guesses, |s.expiries|) < env.maxAttempts)
  {
  }

  /** In every reachable state the right code is accepted exactly while it is stored, unexpired and
      not locked out by wrong guesses; the stored counter is the number of those guesses. */
  lemma SetupCodeAcceptedExactly(env: Env, events: seq<Event>, now: int, provided: string)
    requires Trim(provided) != "" && HasLiveCode(Run(env, INITIAL, events))
    ensures var s := Run(env, INITIAL, events);
            |s.expiries| > 0 &&
            (VerifyCode(env, s, now, Some(provided)).1 == Accepted <==>
               && env.digest(provided) == s.config.value.codeHash.value
               && now <= s.expiries[|s.expiries| - 1]
               && Evaluated(s.guesses, |s.expiries|) < env.maxAttempts)
  {
    RunKeepsCodeInv(env, INITIAL, events);
    AcceptedExactly(env, Run(env, INITIAL, events), now, provided);
  }
}
