/** What every serial run of the account routes keeps. */
module AuthLifecycle {
  import opened Prelude
  import opened Text
  import opened AuthState

  // ---- the cache agrees with the row -------------------------------------

  /** A cached mode is the mode the config row (or the fixed AUTH_MODE) gives. */
  ghost predicate CacheAgrees(env: Env, s: State) {
    s.cache.Some? ==> s.cache.value.value == AuthEnabled(env, s) && (env.mode == Local ==> s.config.Some?)
  }

  /** `requireAuth` decides by the stored mode, however long ago the cache was filled. */
  lemma AuthEnabledIsStored(env: Env, s: State, now: int)
    requires CacheAgrees(env, s)
    ensures GetAuthEnabled(env, s, now).1 == AuthEnabled(env, EnsureConfig(env, s))
    ensures CacheAgrees(env, GetAuthEnabled(env, s, now).0)
  {
  }

  /** Nobody is deactivated, nobody is demoted unless groups are configured, and history is kept. */
  ghost predicate OnlyAdds(env: Env, s: State, t: State) {
    && (CacheAgrees(env, s) ==> CacheAgrees(env, t))
    && (forall id :: IsActive(s.users, id) ==> IsActive(t.users, id))
    && (env.adminGroups == {} ==> forall id :: IsActiveAdmin(s.users, id) ==> IsActiveAdmin(t.users, id))
    && t.bootstraps == s.bootstraps
  }

  lemma RequireAuthOnlyAdds(env: Env, s: State, now: int, cred: Credential, route: Route)
    ensures OnlyAdds(env, s, RequireAuth(env, s, now, cred, route).0)
  {
    var (t, enabled) := GetAuthEnabled(env, s, now);
    assert OnlyAdds(env, s, t);
    if !enabled {
      assert OnlyAdds(env, t, EnsureBootstrapUser(t));
    }
  }

  lemma AdminGateOnlyAdds(env: Env, s: State, now: int, cred: Credential, checks: Checks)
    ensures OnlyAdds(env, s, AdminGate(env, s, now, cred, checks).0)
  {
    RequireAuthOnlyAdds(env, s, now, cred, AccountRoute);
  }

  lemma IssueOnlyAdds(env: Env, s: State, now: int, code: string)
    ensures OnlyAdds(env, s, IssueCodeIfRequired(env, s, now, code))
  {
    assert OnlyAdds(env, s, EnsureConfig(env, s));
  }

  // ---- who passes the admin gate -----------------------------------------

  /** Whoever passes the gate is an active administrator at that moment. */
  lemma AdminGateAdmitsActiveAdmins(env: Env, s: State, now: int, cred: Credential, checks: Checks)
    requires CacheAgrees(env, s) && AdminGate(env, s, now, cred, checks).1.Actor?
    ensures var (t, who) := AdminGate(env, s, now, cred, checks); IsActiveAdmin(t.users, who.id)
  {
  }

  lemma TwoAdmins(users: map<UserId, User>, a: UserId, b: UserId)
    requires IsActiveAdmin(users, a) && IsActiveAdmin(users, b) && a != b
    ensures ActiveAdmins(users) >= 2
  {
    var admins := set id | id in users && IsActiveAdmin(users, id);
    var rest := admins - {a};
    assert b in rest;
    assert |rest| >= 1;
    assert |admins| == |rest| + 1;
  }

  /** The guard "there must be at least one active admin" never fires: the acting administrator is
      not the target and counts. */
  lemma LastAdminNeverFires(env: Env, s: State, e: Event)
    requires CacheAgrees(env, s)
    ensures Handle(env, s, e).1 != LastAdmin
  {
    match e
    case EvUpdateRole(_, _, _, _, _) => RoleUpdateMeetsNoGuard(env, s, e);
    case EvPatchUser(_, _, _, _, _) => PatchMeetsNoGuard(env, s, e);
    case _ => GateAnswers(env, s, e);
  }

  lemma GateAnswers(env: Env, s: State, e: Event)
    requires !e.EvUpdateRole? && !e.EvPatchUser?
    ensures Handle(env, s, e).1 != LastAdmin
  {
  }

  lemma RoleUpdateMeetsNoGuard(env: Env, s: State, e: Event)
    requires CacheAgrees(env, s) && e.EvUpdateRole?
    ensures Handle(env, s, e).1 != LastAdmin
  {
    if e.target.Some? {
      ActingAdminCounts(env, s, e.now, e.cred, e.checks, e.target.value);
    }
  }

  lemma PatchMeetsNoGuard(env: Env, s: State, e: Event)
    requires CacheAgrees(env, s) && e.EvPatchUser?
    ensures Handle(env, s, e).1 != LastAdmin
  {
    ActingAdminCounts(env, s, e.now, e.cred, e.checks, e.id);
  }

  lemma ActingAdminCounts(env: Env, s: State, now: int, cred: Credential, checks: Checks, id: UserId)
    requires CacheAgrees(env, s)
    ensures var (t, who) := AdminGate(env, s, now, cred, checks);
            who.Actor? && IsActiveAdmin(t.users, id) && id != who.id ==> ActiveAdmins(t.users) >= 2
  {
    var (t, who) := AdminGate(env, s, now, cred, checks);
    if who.Actor? && IsActiveAdmin(t.users, id) && id != who.id {
      AdminGateAdmitsActiveAdmins(env, s, now, cred, checks);
      TwoAdmins(t.users, who.id, id);
    }
  }

  // ---- somebody stays active ---------------------------------------------

  ghost predicate HasActive(s: State) {
    exists id :: IsActive(s.users, id)
  }

  ghost predicate HasActiveAdmin(s: State) {
    exists id :: IsActiveAdmin(s.users, id)
  }

  lemma NobodyActive(users: map<UserId, User>, id: UserId)
    requires ActiveUsers(users) == 0
    ensures !IsActive(users, id)
  {
    var actives := set x | x in users && users[x].active;
    assert actives == {};
    assert id !in actives;
  }

  /** The invariants of every serial run. A bootstrap registration leaves an active administrator. */
  ghost predicate Inv(env: Env, s: State) {
    && CacheAgrees(env, s)
    && s.bootstraps <= 1
    && (s.bootstraps == 1 ==> HasActive(s))
  }

  /** What one request must do for the main results. */
  ghost predicate Good(env: Env, s: State, t: State) {
    && CacheAgrees(env, t)
    && (HasActive(s) ==> HasActive(t) && t.bootstraps == s.bootstraps)
    && (t.bootstraps == s.bootstraps || (t.bootstraps == s.bootstraps + 1 && HasActiveAdmin(t) && HasActive(t)))
    && (env.adminGroups == {} && HasActiveAdmin(s) ==> HasActiveAdmin(t))
  }

  lemma OnlyAddsIsGood(env: Env, s: State, t: State)
    requires CacheAgrees(env, s) && OnlyAdds(env, s, t)
    ensures Good(env, s, t)
  {
  }

  lemma RegisterIsGood(env: Env, s: State, e: Event)
    requires CacheAgrees(env, s) && e.EvRegister?
    ensures Good(env, s, Handle(env, s, e).0)
  {
    var t := EnsureConfig(env, s);
    var u := Handle(env, s, e).0;
    if AwaitsBootstrap(t) && u != t {
      forall id ensures !IsActive(s.users, id) {
        NobodyActive(s.users, id);
      }
      var (v, verdict) := VerifyCode(env, t, e.now, e.provided);
      if verdict == Accepted {
        assert u.bootstraps != s.bootstraps ==> IsActiveAdmin(u.users, BOOTSTRAP_USER_ID) && IsActive(u.users, BOOTSTRAP_USER_ID);
      } else {
        assert OnlyAdds(env, s, v);
        IssueOnlyAdds(env, v, e.now, e.freshCode);
      }
    } else {
      assert OnlyAdds(env, s, u);
    }
  }

  lemma ChooseModeOnlyAdds(env: Env, s: State, now: int, enabling: bool, authEnabled: bool, freshCode: string)
    ensures OnlyAdds(env, s, ChooseMode(env, s, now, enabling, authEnabled, freshCode))
  {
    var t := SetAuthMode(env, if enabling then EnsureBootstrapUser(s) else s, authEnabled);
    assert OnlyAdds(env, s, t);
    IssueOnlyAdds(env, t, now, freshCode);
  }

  lemma OnlyAddsInTurn(env: Env, s: State, t: State, u: State)
    requires OnlyAdds(env, s, t) && OnlyAdds(env, t, u)
    ensures OnlyAdds(env, s, u)
  {
  }

  lemma AskingOnlyAdds(env: Env, s: State, now: int)
    ensures var (a, enabled) := GetAuthEnabled(env, s, now);
            var b := if enabled then a else EnsureBootstrapUser(a);
            OnlyAdds(env, s, b) && OnlyAdds(env, s, EnsureConfig(env, b))
  {
    var (a, enabled) := GetAuthEnabled(env, s, now);
    assert OnlyAdds(env, s, a);
    assert OnlyAdds(env, a, EnsureBootstrapUser(a));
  }

  lemma OnboardingIsGood(env: Env, s: State, e: Event)
    requires CacheAgrees(env, s) && e.EvOnboarding?
    ensures Good(env, s, Handle(env, s, e).0)
  {
    var (a, enabled) := GetAuthEnabled(env, s, e.now);
    var t := EnsureConfig(env, if enabled then a else EnsureBootstrapUser(a));
    AskingOnlyAdds(env, s, e.now);
    ChooseModeOnlyAdds(env, t, e.now, e.enable, e.enable, e.freshCode);
    OnlyAddsInTurn(env, s, t, ChooseMode(env, t, e.now, e.enable, e.enable, e.freshCode));
    OnlyAddsIsGood(env, s, Handle(env, s, e).0);
  }

  lemma ToggleIsGood(env: Env, s: State, e: Event)
    requires CacheAgrees(env, s) && e.EvToggle?
    ensures Good(env, s, Handle(env, s, e).0)
  {
    var t := RequireAuth(env, s, e.now, e.cred, AccountRoute).0;
    RequireAuthOnlyAdds(env, s, e.now, e.cred, AccountRoute);
    var u := EnsureConfig(env, t);
    assert OnlyAdds(env, t, u);
    var enabling := !u.config.value.authEnabled && e.next;
    ChooseModeOnlyAdds(env, u, e.now, enabling, e.next, e.freshCode);
    OnlyAddsInTurn(env, t, u, ChooseMode(env, u, e.now, enabling, e.next, e.freshCode));
    OnlyAddsInTurn(env, s, t, Handle(env, s, e).0);
    OnlyAddsIsGood(env, s, Handle(env, s, e).0);
  }

  /** Either the target was left active (an active admin), or the acting administrator still is. */
  lemma UpdateRoleIsGood(env: Env, s: State, e: Event)
    requires CacheAgrees(env, s) && e.EvUpdateRole?
    ensures Good(env, s, Handle(env, s, e).0)
  {
    var (t, who) := AdminGate(env, s, e.now, e.cred, e.checks);
    AdminGateOnlyAdds(env, s, e.now, e.cred, e.checks);
    var u := Handle(env, s, e).0;
    if u != t {
      AdminGateAdmitsActiveAdmins(env, s, e.now, e.cred, e.checks);
      assert IsActiveAdmin(u.users, who.id) && IsActive(u.users, who.id);
    } else {
      OnlyAddsIsGood(env, s, t);
    }
  }

  lemma PatchUserIsGood(env: Env, s: State, e: Event)
    requires CacheAgrees(env, s) && e.EvPatchUser?
    ensures Good(env, s, Handle(env, s, e).0)
  {
    var (t, who) := AdminGate(env, s, e.now, e.cred, e.checks);
    AdminGateOnlyAdds(env, s, e.now, e.cred, e.checks);
    var u := Handle(env, s, e).0;
    if u != t {
      AdminGateAdmitsActiveAdmins(env, s, e.now, e.cred, e.checks);
      assert IsActiveAdmin(u.users, who.id) && IsActive(u.users, who.id);
    } else {
      OnlyAddsIsGood(env, s, t);
    }
  }

  /** The routes that only create or reactivate accounts. */
  lemma GatedAdditionIsGood(env: Env, s: State, e: Event)
    requires CacheAgrees(env, s) && (e.EvCreateUser? || e.EvResetPassword? || e.EvSetRegistration?)
    ensures Good(env, s, Handle(env, s, e).0)
  {
    var t := AdminGate(env, s, e.now, e.cred, e.checks).0;
    AdminGateOnlyAdds(env, s, e.now, e.cred, e.checks);
    AdditionOnlyAdds(env, s, e);
    OnlyAddsInTurn(env, s, t, Handle(env, s, e).0);
    OnlyAddsIsGood(env, s, Handle(env, s, e).0);
  }

  lemma AdditionOnlyAdds(env: Env, s: State, e: Event)
    requires e.EvCreateUser? || e.EvResetPassword? || e.EvSetRegistration?
    ensures OnlyAdds(env, AdminGate(env, s, e.now, e.cred, e.checks).0, Handle(env, s, e).0)
  {
  }

  lemma StepIsGood(env: Env, s: State, e: Event)
    requires CacheAgrees(env, s)
    ensures Good(env, s, Handle(env, s, e).0)
  {
    match e
    case EvRegister(_, _, _, _, _, _, _) => RegisterIsGood(env, s, e);
    case EvOnboarding(_, _, _, _) => OnboardingIsGood(env, s, e);
    case EvToggle(_, _, _, _, _) => ToggleIsGood(env, s, e);
    case EvUpdateRole(_, _, _, _, _) => UpdateRoleIsGood(env, s, e);
    case EvPatchUser(_, _, _, _, _) => PatchUserIsGood(env, s, e);
    case EvCreateUser(_, _, _, _, _, _) => GatedAdditionIsGood(env, s, e);
    case EvResetPassword(_, _, _, _, _) => GatedAdditionIsGood(env, s, e);
    case EvSetRegistration(_, _, _, _) => GatedAdditionIsGood(env, s, e);
    case EvOidcSignIn(_, _, _, _, _, _) => OnlyAddsIsGood(env, s, Handle(env, s, e).0);
    case EvAuthenticate(now, cred, route) =>
      RequireAuthOnlyAdds(env, s, now, cred, route);
      OnlyAddsIsGood(env, s, Handle(env, s, e).0);
    case EvStartup(now, code) =>
      IssueOnlyAdds(env, s, now, code);
      OnlyAddsIsGood(env, s, Handle(env, s, e).0);
  }

  // ---- whole runs --------------------------------------------------------

  lemma {:induction false} RunIsGood(env: Env, s: State, events: seq<Event>)
    requires CacheAgrees(env, s)
    ensures Good(env, s, Run(env, s, events)) || !HasActive(s)
    ensures CacheAgrees(env, Run(env, s, events))
    decreases |events|
  {
    if events != [] {
      StepIsGood(env, s, events[0]);
      RunIsGood(env, Handle(env, s, events[0]).0, events[1..]);
    }
  }

  lemma StepKeepsInv(env: Env, s: State, e: Event)
    requires Inv(env, s)
    ensures Inv(env, Handle(env, s, e).0)
  {
    StepIsGood(env, s, e);
  }

  lemma {:induction false} RunKeepsInv(env: Env, s: State, events: seq<Event>)
    requires Inv(env, s)
    ensures Inv(env, Run(env, s, events))
    decreases |events|
  {
    if events != [] {
      StepKeepsInv(env, s, events[0]);
      RunKeepsInv(env, Handle(env, s, events[0]).0, events[1..]);
    }
  }

  /** Once an active user exists there is always one. */
  lemma ActiveUserForever(env: Env, before: seq<Event>, after: seq<Event>)
    requires HasActive(Run(env, INITIAL, before))
    ensures HasActive(Run(env, Run(env, INITIAL, before), after))
  {
    RunKeepsInv(env, INITIAL, before);
    RunIsGood(env, Run(env, INITIAL, before), after);
  }

  /** The bootstrap branch of `/register` succeeds at most once in any run. */
  lemma BootstrapAtMostOnce(env: Env, events: seq<Event>)
    ensures Run(env, INITIAL, events).bootstraps <= 1
  {
    RunKeepsInv(env, INITIAL, events);
  }

  /** It does succeed: on a fresh installation, choosing authentication and registering with the code issued
      then, in time, makes the bootstrap account an active administrator. */
  lemma BootstrapHappens(env: Env, code: string, at: int, later: int, email: string, newId: UserId, spare: string)
    requires env.mode == Local && env.maxAttempts >= 1 && Trim(code) != "" && later <= at + env.codeTtlMs
    ensures var allowed := Checks(true, true);
            var s := Handle(env, INITIAL, EvOnboarding(at, allowed, true, code)).0;
            var (t, response) := Handle(env, s, EvRegister(later, allowed, email, None, Some(code), newId, spare));
            response == Success && t.bootstraps == 1 && IsActiveAdmin(t.users, BOOTSTRAP_USER_ID)
            && t.users[BOOTSTRAP_USER_ID].email == email
  {
    var s := Handle(env, INITIAL, EvOnboarding(at, Checks(true, true), true, code)).0;
    NoUsers();
    OnlyBootstrapUser(s.users);
  }

  lemma NoUsers()
    ensures ActiveUsers(INITIAL.users) == 0
  {
    assert (set id | id in INITIAL.users && INITIAL.users[id].active) == {};
  }

  lemma OnlyBootstrapUser(users: map<UserId, User>)
    requires users == map[BOOTSTRAP_USER_ID := BOOTSTRAP_USER]
    ensures ActiveUsers(users) == 0
  {
    assert (set id | id in users && users[id].active) == {};
  }

  /** With OIDC admin groups unset, no run of the routes takes the last active administrator away. */
  lemma ActiveAdminForever(env: Env, before: seq<Event>, after: seq<Event>)
    requires env.adminGroups == {} && HasActiveAdmin(Run(env, INITIAL, before))
    ensures HasActiveAdmin(Run(env, Run(env, INITIAL, before), after))
  {
    RunKeepsInv(env, INITIAL, before);
    var s := Run(env, INITIAL, before);
    var a :| IsActiveAdmin(s.users, a);
    assert IsActive(s.users, a);
    RunIsGood(env, s, after);
  }

  /** In no reachable state does any request meet the "at least one active admin" refusal. */
  lemma LastAdminUnreachable(env: Env, events: seq<Event>, e: Event)
    ensures Handle(env, Run(env, INITIAL, events), e).1 != LastAdmin
  {
    RunKeepsInv(env, INITIAL, events);
    LastAdminNeverFires(env, Run(env, INITIAL, events), e);
  }

  /** A token without the groups demotes the only administrator. */
  lemma TokenDemotesOnlyAdmin(env: Env, s: State, now: int, id: UserId)
    requires env.adminGroups != {} && GetAuthEnabled(env, s, now).1 && GetAuthEnabled(env, s, now).0.users == s.users
    requires id in s.users && IsActiveAdmin(s.users, id)
    requires forall other :: IsActiveAdmin(s.users, other) ==> other == id
    ensures !HasActiveAdmin(Handle(env, s, EvAuthenticate(now, Jwt(id, true, {}), AccountRoute)).0)
  {
    var t := Handle(env, s, EvAuthenticate(now, Jwt(id, true, {}), AccountRoute)).0;
    forall other ensures !IsActiveAdmin(t.users, other) {
      assert other != id ==> !IsActiveAdmin(s.users, other);
    }
  }

  /** A first administrator: by the provider's groups, or by the bootstrap registration in local mode. */
  lemma FirstAdmin(env: Env) returns (events: seq<Event>, id: UserId)
    requires env.adminGroups != {} && env.maxAttempts >= 1
    ensures var s := Run(env, INITIAL, events);
            && id in s.users && IsActiveAdmin(s.users, id) && s.users.Keys == {id}
            && s.cache == None && s.config.Some? && AuthEnabled(env, s)
  {
    if env.mode == Local {
      var e1 := EvOnboarding(0, Checks(true, true), true, "code");
      var e2 := EvRegister(env.codeTtlMs, Checks(true, true), "a@b.c", None, Some("code"), "u", "");
      events, id := [e1, e2], BOOTSTRAP_USER_ID;
      TrimIsTrimmed("code");
      BootstrapHappens(env, "code", 0, env.codeTtlMs, "a@b.c", "u", "");
      BootstrapLeavesOneUser(env, "code", env.codeTtlMs, "a@b.c", "u", "");
      TwoEvents(env, e1, e2);
    } else {
      var g :| g in env.adminGroups;
      var e := EvOidcSignIn(None, false, true, "u", "a@b.c", {g});
      events, id := [e], "u";
      assert events[1..] == [];
      assert Run(env, INITIAL, events) == Run(env, Handle(env, INITIAL, e).0, []);
    }
  }

  lemma TwoEvents(env: Env, e1: Event, e2: Event)
    ensures Run(env, INITIAL, [e1, e2]) == Handle(env, Handle(env, INITIAL, e1).0, e2).0
  {
    assert [e1, e2][1..] == [e2] && [e2][1..] == [];
    var s := Handle(env, INITIAL, e1).0;
    assert Run(env, s, [e2]) == Run(env, Handle(env, s, e2).0, []);
  }

  lemma BootstrapLeavesOneUser(env: Env, code: string, later: int, email: string, newId: UserId, spare: string)
    requires env.mode == Local && env.maxAttempts >= 1 && Trim(code) != "" && later <= env.codeTtlMs
    ensures var s := Handle(env, INITIAL, EvOnboarding(0, Checks(true, true), true, code)).0;
            var t := Handle(env, s, EvRegister(later, Checks(true, true), email, None, Some(code), newId, spare)).0;
            t.users.Keys == {BOOTSTRAP_USER_ID} && t.cache == None && t.config.Some? && AuthEnabled(env, t)
  {
    OnlyBootstrapUser(map[BOOTSTRAP_USER_ID := BOOTSTRAP_USER]);
    NoUsers();
  }

  ghost predicate KeepsAdmin(env: Env, before: seq<Event>, after: seq<Event>) {
    HasActiveAdmin(Run(env, INITIAL, before)) ==> HasActiveAdmin(Run(env, Run(env, INITIAL, before), after))
  }

  /** The routes keep an active administrator on every run exactly when no admin groups are configured. */
  lemma ActiveAdminForeverExactly(env: Env)
    requires env.maxAttempts >= 1
    ensures (forall before, after :: KeepsAdmin(env, before, after)) <==> env.adminGroups == {}
  {
    if env.adminGroups == {} {
      forall before, after ensures KeepsAdmin(env, before, after) {
        if HasActiveAdmin(Run(env, INITIAL, before)) {
          ActiveAdminForever(env, before, after);
        }
      }
    } else {
      GroupsCanRemoveTheLastAdmin(env);
    }
  }

  /** With any admin groups set, one token without them removes the administrator of some run. */
  lemma GroupsCanRemoveTheLastAdmin(env: Env)
    requires env.adminGroups != {} && env.maxAttempts >= 1
    ensures exists before, after :: !KeepsAdmin(env, before, after)
  {
    var before, id := FirstAdmin(env);
    var s := Run(env, INITIAL, before);
    var e := EvAuthenticate(0, Jwt(id, true, {}), AccountRoute);
    assert forall other :: IsActiveAdmin(s.users, other) ==> other in s.users.Keys;
    TokenDemotesOnlyAdmin(env, s, 0, id);
    assert Run(env, s, [e]) == Run(env, Handle(env, s, e).0, [e][1..]);
    assert [e][1..] == [];
    assert !KeepsAdmin(env, before, [e]);
  }
}
