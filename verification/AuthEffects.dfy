/** What each account route leaves in the tables, and how an account comes to be an administrator. */
module AuthEffects {
  import opened Prelude
  import opened Text
  import opened AuthState
  import AuthLifecycle

  type Users = map<UserId, User>

  /** The two tables agree on every other account. */
  ghost predicate SameExcept(before: Users, after: Users, touched: set<UserId>) {
    forall id :: id !in touched ==> (id in before <==> id in after) && (id in before ==> after[id] == before[id])
  }

  /** The provider's groups make the holder of the token an administrator. */
  predicate GroupsPromote(env: Env, cred: Credential) {
    cred.Jwt? && cred.reconciles && exists g :: g in cred.groups && g in env.adminGroups
  }

  /** Authentication is on, by AUTH_MODE or by the stored row. */
  predicate SwitchedOn(env: Env, s: State) {
    env.mode == Hybrid || env.mode == OidcEnforced || (s.config.Some? && s.config.value.authEnabled)
  }

  // ---- who acts ----------------------------------------------------------

  /** The account a credential stands for is active. */
  predicate Stands(s: State, cred: Credential) {
    !cred.NoCredential? && cred.userId in s.users && s.users[cred.userId].active
  }

  /** With authentication on, a request goes through exactly for the active account of its credential, an API key
      only where one of its scopes is asked for; while a password reset is due only on the password's own routes.
      It acts with the role the account then has. */
  lemma RequireAuthExactly(env: Env, s: State, now: int, cred: Credential, route: Route)
    requires AuthLifecycle.CacheAgrees(env, s) && SwitchedOn(env, s)
    ensures var (t, who) := RequireAuth(env, s, now, cred, route);
            && (who.Actor? <==>
                  && Stands(s, cred)
                  && (cred.ApiKey? ==> route.ResourceRoute? && route.scope in cred.scopes)
                  && (s.users[cred.userId].mustReset ==> route == OwnPasswordRoute))
            && (who.Actor? ==> who.id == cred.userId && cred.userId in t.users && who.role == t.users[cred.userId].role)
  {
    AuthLifecycle.AuthEnabledIsStored(env, s, now);
  }

  /** With authentication off everybody acts as the bootstrap account. */
  lemma OffMeansBootstrap(env: Env, s: State, now: int, cred: Credential, route: Route)
    requires AuthLifecycle.CacheAgrees(env, s) && !SwitchedOn(env, s)
    ensures var (t, who) := RequireAuth(env, s, now, cred, route);
            who.Actor? && who.id == BOOTSTRAP_USER_ID && SameExcept(s.users, t.users, {BOOTSTRAP_USER_ID})
  {
    AuthLifecycle.AuthEnabledIsStored(env, s, now);
  }

  /** Asking who acts changes no account but the actor's, and of that only the role: to what the groups say, if they
      count. */
  lemma RequireAuthTouches(env: Env, s: State, now: int, cred: Credential, route: Route)
    requires AuthLifecycle.CacheAgrees(env, s) && SwitchedOn(env, s)
    ensures var t := RequireAuth(env, s, now, cred, route).0;
            if Stands(s, cred) && cred.Jwt? && cred.reconciles && env.adminGroups != {} then
              t.users == s.users[cred.userId := s.users[cred.userId].(role := if GroupsPromote(env, cred) then ADMIN else USER)]
            else t.users == s.users
  {
    AuthLifecycle.AuthEnabledIsStored(env, s, now);
  }

  /** The account is an active administrator with no reset due: by the groups where they count, else by its row. */
  predicate MayAdminister(env: Env, s: State, cred: Credential) {
    && SwitchedOn(env, s) && cred.Jwt? && Stands(s, cred) && !s.users[cred.userId].mustReset
    && if cred.reconciles && env.adminGroups != {} then GroupsPromote(env, cred) else s.users[cred.userId].role == ADMIN
  }

  function ActorAsAdmin(s: State, cred: Credential): Users
    requires cred.Jwt? && Stands(s, cred)
  {
    s.users[cred.userId := s.users[cred.userId].(role := ADMIN)]
  }

  /** The accounts a refused request can have touched: the bootstrap account, made when it is missing, and the role of
      the actor. */
  function Touchable(cred: Credential): set<UserId> {
    if cred.NoCredential? then {BOOTSTRAP_USER_ID} else {BOOTSTRAP_USER_ID, cred.userId}
  }

  /** An admin route goes on exactly for an administrator's token, a CSRF token and a valid body; then only the actor's
      role can have changed. */
  lemma GateExactly(env: Env, s: State, now: int, cred: Credential, checks: Checks)
    requires AuthLifecycle.CacheAgrees(env, s)
    ensures var (t, who) := AdminGate(env, s, now, cred, checks);
            && (who.Actor? <==> MayAdminister(env, s, cred) && checks == Checks(true, true))
            && (who.Actor? ==> who == Actor(cred.userId, ADMIN) && t.users == ActorAsAdmin(s, cred))
            && t.bootstraps == s.bootstraps
            && (t.config == s.config || (s.config.None? && t.config == Some(DefaultConfig(env))))
            && SameExcept(s.users, t.users, Touchable(cred))
  {
    GateKeepsRest(env, s, now, cred, checks);
    if SwitchedOn(env, s) {
      OpenGateExactly(env, s, now, cred, checks);
    } else {
      ClosedGate(env, s, now, cred, checks);
    }
  }

  lemma GateKeepsRest(env: Env, s: State, now: int, cred: Credential, checks: Checks)
    ensures var t := AdminGate(env, s, now, cred, checks).0;
            && t.bootstraps == s.bootstraps
            && (t.config == s.config || (s.config.None? && t.config == Some(DefaultConfig(env))))
  {
  }

  lemma OpenGateExactly(env: Env, s: State, now: int, cred: Credential, checks: Checks)
    requires AuthLifecycle.CacheAgrees(env, s) && SwitchedOn(env, s)
    ensures var (t, who) := AdminGate(env, s, now, cred, checks);
            && (who.Actor? <==> MayAdminister(env, s, cred) && checks == Checks(true, true))
            && (who.Actor? ==> who == Actor(cred.userId, ADMIN) && t.users == ActorAsAdmin(s, cred))
            && SameExcept(s.users, t.users, Touchable(cred))
  {
    RequireAuthExactly(env, s, now, cred, AccountRoute);
    RequireAuthTouches(env, s, now, cred, AccountRoute);
  }

  lemma ClosedGate(env: Env, s: State, now: int, cred: Credential, checks: Checks)
    requires AuthLifecycle.CacheAgrees(env, s) && !SwitchedOn(env, s)
    ensures var (t, who) := AdminGate(env, s, now, cred, checks);
            who.Rejected? && SameExcept(s.users, t.users, Touchable(cred))
  {
    OffMeansBootstrap(env, s, now, cred, AccountRoute);
  }

  // ---- what each admin route does ----------------------------------------

  predicate Free(users: Users, email: string, username: Option<string>) {
    forall id :: id in users ==> users[id].email != email && (username.Some? ==> users[id].username != username)
  }

  /** `POST /admins` sets the role of the account found, and of nobody else, for an administrator who is not demoting
      themselves. */
  lemma RoleUpdateExactly(env: Env, s: State, e: Event)
    requires AuthLifecycle.CacheAgrees(env, s) && e.EvUpdateRole?
    ensures var (t, response) := Handle(env, s, e);
            && (response == Success <==>
                  && MayAdminister(env, s, e.cred) && e.checks == Checks(true, true)
                  && e.target.Some? && e.target.value in s.users && (e.target.value == e.cred.userId ==> e.newRole == ADMIN))
            && (response == Success ==>
                  t.users == ActorAsAdmin(s, e.cred)[e.target.value := s.users[e.target.value].(role := e.newRole)])
            && (response != Success ==> SameExcept(s.users, t.users, Touchable(e.cred)))
  {
    GateExactly(env, s, e.now, e.cred, e.checks);
    AuthLifecycle.LastAdminNeverFires(env, s, e);
  }

  lemma FreeExactly(users: Users, email: string, username: Option<string>)
    ensures Free(users, email, username) <==> !EmailTaken(users, email, None) && !UsernameTaken(users, username, None)
  {
  }

  lemma RolesDoNotTakeNames(s: State, cred: Credential, email: string, username: Option<string>)
    requires cred.Jwt? && Stands(s, cred)
    ensures Free(ActorAsAdmin(s, cred), email, username) <==> Free(s.users, email, username)
  {
    var users := ActorAsAdmin(s, cred);
    forall id | id in users ensures users[id].email == s.users[id].email && users[id].username == s.users[id].username {}
  }

  /** `POST /users` adds the account as given, to a free id, address and name. */
  lemma CreationExactly(env: Env, s: State, e: Event)
    requires AuthLifecycle.CacheAgrees(env, s) && e.EvCreateUser?
    ensures var (t, response) := Handle(env, s, e);
            && (response == Success <==>
                  && MayAdminister(env, s, e.cred) && e.checks == Checks(true, true)
                  && Free(s.users, e.user.email, e.user.username) && e.newId !in s.users && (e.oidcOnly ==> env.oidcEnabled))
            && (response == Success ==>
                  t.users == ActorAsAdmin(s, e.cred)[e.newId := e.user.(mustReset := !e.oidcOnly && e.user.mustReset)])
            && (response != Success ==> SameExcept(s.users, t.users, Touchable(e.cred)))
  {
    GateExactly(env, s, e.now, e.cred, e.checks);
    var (g, who) := AdminGate(env, s, e.now, e.cred, e.checks);
    FreeExactly(g.users, e.user.email, e.user.username);
    if who.Actor? {
      RolesDoNotTakeNames(s, e.cred, e.user.email, e.user.username);
    }
  }

  /** Nobody else has the name. */
  predicate NameFree(users: Users, username: Option<string>, except: UserId) {
    username.Some? ==> forall id :: id in users && id != except ==> users[id].username != username
  }

  /** `PATCH /users/:id` stores exactly the fields it names, keeping the others and the address, for an administrator who
      is neither deactivating nor demoting themselves. */
  lemma PatchExactly(env: Env, s: State, e: Event)
    requires AuthLifecycle.CacheAgrees(env, s) && e.EvPatchUser?
    ensures var (t, response) := Handle(env, s, e);
            && (response == Success <==>
                  && MayAdminister(env, s, e.cred) && e.checks == Checks(true, true) && e.id in s.users
                  && (e.id == e.cred.userId ==> e.patch.isActive != Some(false) && e.patch.role != Some(USER))
                  && (e.patch.username.Some? ==> NameFree(s.users, e.patch.username.value, e.id)))
            && (response == Success ==>
                  var was := ActorAsAdmin(s, e.cred)[e.id];
                  && SameExcept(ActorAsAdmin(s, e.cred), t.users, {e.id}) && e.id in t.users
                  && t.users[e.id].email == was.email
                  && t.users[e.id].username == (match e.patch.username case Some(v) => v case None => was.username)
                  && t.users[e.id].role == (match e.patch.role case Some(v) => v case None => was.role)
                  && t.users[e.id].active == (match e.patch.isActive case Some(v) => v case None => was.active)
                  && t.users[e.id].mustReset == (match e.patch.mustReset case Some(v) => v case None => was.mustReset))
            && (response != Success ==> SameExcept(s.users, t.users, Touchable(e.cred)))
  {
    GateExactly(env, s, e.now, e.cred, e.checks);
    AuthLifecycle.LastAdminNeverFires(env, s, e);
    var (g, who) := AdminGate(env, s, e.now, e.cred, e.checks);
    if who.Actor? && e.patch.username.Some? {
      NameTakenExactly(g.users, e.patch.username.value, e.id);
      RolesDoNotChangeNames(s, e.cred, e.patch.username.value, e.id);
    }
  }

  lemma NameTakenExactly(users: Users, username: Option<string>, except: UserId)
    ensures UsernameTaken(users, username, Some(except)) <==> !NameFree(users, username, except)
  {
  }

  lemma RolesDoNotChangeNames(s: State, cred: Credential, username: Option<string>, except: UserId)
    requires cred.Jwt? && Stands(s, cred)
    ensures NameFree(ActorAsAdmin(s, cred), username, except) <==> NameFree(s.users, username, except)
  {
    var users := ActorAsAdmin(s, cred);
    forall id | id in users ensures users[id].username == s.users[id].username {}
  }

  /** The password reset of another account makes it active and due for a reset, and changes nothing else about it. */
  lemma ResetExactly(env: Env, s: State, e: Event)
    requires AuthLifecycle.CacheAgrees(env, s) && e.EvResetPassword?
    ensures var (t, response) := Handle(env, s, e);
            && (response == Success <==>
                  && MayAdminister(env, s, e.cred) && e.checks == Checks(true, true) && !e.impersonating
                  && e.id in s.users && e.id != e.cred.userId)
            && (response == Success ==>
                  t.users == ActorAsAdmin(s, e.cred)[e.id := s.users[e.id].(mustReset := true, active := true)])
            && (response != Success ==> SameExcept(s.users, t.users, Touchable(e.cred)))
  {
    GateExactly(env, s, e.now, e.cred, e.checks);
  }

  /** The registration switch stores the choice and touches no other setting. */
  lemma RegistrationSwitchExactly(env: Env, s: State, e: Event)
    requires AuthLifecycle.CacheAgrees(env, s) && e.EvSetRegistration?
    ensures var (t, response) := Handle(env, s, e);
            var row := if s.config.Some? then s.config.value else DefaultConfig(env);
            && (response == Success <==>
                  MayAdminister(env, s, e.cred) && e.checks == Checks(true, true) && env.mode != OidcEnforced)
            && (response == Success ==>
                  t.users == ActorAsAdmin(s, e.cred) && t.config == Some(row.(registrationEnabled := e.enable)))
            && (response != Success ==> t.config == s.config || t.config == Some(row))
  {
    GateExactly(env, s, e.now, e.cred, e.checks);
  }

  // ---- registration ------------------------------------------------------

  /** The installation waits for its first administrator. */
  predicate Waits(users: Users) {
    BOOTSTRAP_USER_ID in users && forall id :: id in users ==> !users[id].active
  }

  lemma WaitsExactly(s: State)
    ensures AwaitsBootstrap(s) <==> Waits(s.users)
  {
    if Waits(s.users) {
      assert (set id | id in s.users && s.users[id].active) == {};
    }
    if AwaitsBootstrap(s) {
      forall id | id in s.users ensures !s.users[id].active {
        AuthLifecycle.NobodyActive(s.users, id);
      }
    }
  }

  /** `POST /register`: an ordinary registration adds exactly one account, an active USER with no reset due, under a free
      id, address and name, when registration is open and no bootstrap is pending. The bootstrap makes the bootstrap
      account that user, as an active ADMIN, after the right setup code. Nothing else changes an account. */
  lemma RegistrationExactly(env: Env, s: State, e: Event)
    requires e.EvRegister?
    ensures var (t, response) := Handle(env, s, e);
            var open := && SwitchedOn(env, s) && env.mode != OidcEnforced && e.checks == Checks(true, true)
                        && !Waits(s.users) && s.config.Some? && s.config.value.registrationEnabled
                        && Free(s.users, e.email, e.username) && e.newId !in s.users;
            && (response == Success <==> open || t.bootstraps == s.bootstraps + 1)
            && (open ==> t.users == s.users[e.newId := User(e.email, e.username, USER, true, false)] && t.bootstraps == s.bootstraps)
            && (t.bootstraps != s.bootstraps ==>
                  && t.bootstraps == s.bootstraps + 1 && Waits(s.users) && RightCode(s, t)
                  && t.users == s.users[BOOTSTRAP_USER_ID := User(e.email, e.username, ADMIN, true, false)])
            && (response != Success ==> t.users == s.users)
  {
    WaitsExactly(s);
    FreeExactly(s.users, e.email, e.username);
  }

  /** One more guess was compared with the code, and it was right. */
  predicate RightCode(s: State, t: State) {
    |t.guesses| == |s.guesses| + 1 && t.guesses[|s.guesses|].ok
  }

  // ---- the setup code ----------------------------------------------------

  predicate CodeStored(s: State) {
    s.config.Some? && s.config.value.codeHash.Some? && s.config.value.codeExpiresAt.Some?
  }

  /** A code is issued exactly when authentication is stored as on, the mode allows local accounts, and the first
      administrator is still awaited: its digest, its end and a counter at zero are stored, and nothing else changes. */
  lemma IssueExactly(env: Env, s: State, now: int, code: string)
    ensures var t := IssueCodeIfRequired(env, s, now, code);
            var row := if s.config.Some? then s.config.value else DefaultConfig(env);
            && t.users == s.users && t.cache == s.cache && t.guesses == s.guesses && t.bootstraps == s.bootstraps
            && if env.mode != OidcEnforced && row.authEnabled && Waits(s.users) then
                 t.config == Some(row.(codeHash := Some(env.digest(code)), codeExpiresAt := Some(now + env.codeTtlMs),
                                       failedAttempts := 0))
               else t.config == s.config || t.config == Some(row)
  {
    WaitsExactly(EnsureConfig(env, s));
  }

  /** The verdict on a guess, in the order of the checks, and what it leaves: a wrong guess is counted, the right one
      uses the code up, and any other verdict changes nothing. */
  lemma VerdictExactly(env: Env, s: State, now: int, provided: Option<string>)
    ensures var (t, verdict) := VerifyCode(env, s, now, provided);
            && (verdict == Unavailable <==> !CodeStored(s))
            && (CodeStored(s) ==>
                  var row := s.config.value;
                  var inTime, tries := now <= row.codeExpiresAt.value, row.failedAttempts < env.maxAttempts;
                  var given := provided.Some? && Trim(provided.value) != "";
                  && (verdict == Expired <==> !inTime)
                  && (verdict == Locked <==> inTime && !tries)
                  && (verdict == Missing <==> inTime && tries && !given)
                  && (verdict == Wrong <==> inTime && tries && given && Some(env.digest(provided.value)) != row.codeHash)
                  && (verdict == Accepted <==> inTime && tries && given && Some(env.digest(provided.value)) == row.codeHash)
                  && (verdict == Wrong ==> t.config == Some(row.(failedAttempts := row.failedAttempts + 1)))
                  && (verdict == Accepted ==>
                        t.config == Some(row.(codeHash := None, codeExpiresAt := None, failedAttempts := 0))))
            && t.users == s.users && (verdict != Wrong && verdict != Accepted ==> t == s)
  {
  }

  // ---- the mode ----------------------------------------------------------

  predicate NobodyActive(users: Users) {
    forall id :: id in users ==> !users[id].active
  }

  lemma NobodyActiveExactly(users: Users)
    ensures ActiveUsers(users) == 0 <==> NobodyActive(users)
  {
    if NobodyActive(users) {
      assert (set id | id in users && users[id].active) == {};
    }
    if ActiveUsers(users) == 0 {
      forall id | id in users ensures !users[id].active {
        AuthLifecycle.NobodyActive(users, id);
      }
    }
  }

  /** The stored mode is now this one, and registration is as open as it was. */
  predicate ModeStored(env: Env, s: State, t: State, authEnabled: bool) {
    && t.config.Some? && t.config.value.authEnabled == authEnabled && t.config.value.onboarded && t.cache == None
    && t.config.value.registrationEnabled == (s.config.Some? && s.config.value.registrationEnabled)
  }

  lemma ChoosingStoresMode(env: Env, s: State, now: int, enabling: bool, authEnabled: bool, code: string)
    requires s.config.Some?
    ensures var t := ChooseMode(env, s, now, enabling, authEnabled, code);
            ModeStored(env, s, t, authEnabled) && SameExcept(s.users, t.users, {BOOTSTRAP_USER_ID})
            && t.bootstraps == s.bootstraps
  {
  }

  /** The state in which an onboarding choice is made. */
  lemma BeforeChoice(env: Env, s: State, now: int) returns (t: State)
    requires AuthLifecycle.CacheAgrees(env, s) && env.mode == Local
    ensures var (a, enabled) := GetAuthEnabled(env, s, now);
            t == EnsureConfig(env, if enabled then a else EnsureBootstrapUser(a))
    ensures t.config == Some(if s.config.Some? then s.config.value else DefaultConfig(env))
    ensures SameExcept(s.users, t.users, {BOOTSTRAP_USER_ID}) && (NobodyActive(t.users) <==> NobodyActive(s.users))
  {
    var (a, enabled) := GetAuthEnabled(env, s, now);
    t := EnsureConfig(env, if enabled then a else EnsureBootstrapUser(a));
  }

  /** The onboarding choice succeeds exactly once, before anybody is active, and stores what was chosen. */
  lemma OnboardingExactly(env: Env, s: State, e: Event)
    requires AuthLifecycle.CacheAgrees(env, s) && e.EvOnboarding?
    ensures var (t, response) := Handle(env, s, e);
            && (response == Success <==>
                  && env.mode == Local && e.checks == Checks(true, true) && NobodyActive(s.users)
                  && (s.config.Some? ==> !s.config.value.authEnabled && !s.config.value.onboarded))
            && (response == Success ==> ModeStored(env, s, t, e.enable))
            && SameExcept(s.users, t.users, {BOOTSTRAP_USER_ID})
  {
    if env.mode == Local {
      var b := BeforeChoice(env, s, e.now);
      NobodyActiveExactly(b.users);
      ChoosingStoresMode(env, b, e.now, e.enable, e.enable, e.freshCode);
    }
  }

  /** The actor of the toggle: an administrator, or with authentication off whoever comes, as the bootstrap account. */
  predicate MayToggle(env: Env, s: State, cred: Credential) {
    if SwitchedOn(env, s) then MayAdminister(env, s, cred)
    else BOOTSTRAP_USER_ID in s.users ==> s.users[BOOTSTRAP_USER_ID].role == ADMIN
  }

  lemma BeforeToggle(env: Env, s: State, now: int, cred: Credential)
    requires AuthLifecycle.CacheAgrees(env, s) && env.mode == Local
    ensures var (t, who) := RequireAuth(env, s, now, cred, AccountRoute);
            && (who.Actor? && who.role == ADMIN <==> MayToggle(env, s, cred))
            && (t.config == s.config || (s.config.None? && t.config == Some(DefaultConfig(env))))
            && SameExcept(s.users, t.users, Touchable(cred))
  {
    if SwitchedOn(env, s) {
      RequireAuthExactly(env, s, now, cred, AccountRoute);
      RequireAuthTouches(env, s, now, cred, AccountRoute);
    } else {
      OffMeansBootstrap(env, s, now, cred, AccountRoute);
      AuthLifecycle.AuthEnabledIsStored(env, s, now);
    }
  }

  /** The toggle stores the mode it is given, for those who may. */
  lemma ToggleExactly(env: Env, s: State, e: Event)
    requires AuthLifecycle.CacheAgrees(env, s) && e.EvToggle?
    ensures var (t, response) := Handle(env, s, e);
            && (response == Success <==> env.mode == Local && e.checks == Checks(true, true) && MayToggle(env, s, e.cred))
            && (response == Success ==> ModeStored(env, s, t, e.next) && SameExcept(s.users, t.users, Touchable(e.cred)))
  {
    if env.mode == Local {
      var t := RequireAuth(env, s, e.now, e.cred, AccountRoute).0;
      BeforeToggle(env, s, e.now, e.cred);
      var u := EnsureConfig(env, t);
      ChoosingStoresMode(env, u, e.now, !u.config.value.authEnabled && e.next, e.next, e.freshCode);
    }
  }

  // ---- provider sign-in --------------------------------------------------

  predicate InAdminGroups(env: Env, groups: set<string>) {
    exists g :: g in groups && g in env.adminGroups
  }

  /** The role of an account a sign-in creates. */
  function FirstRole(env: Env, s: State, groups: set<string>): Role {
    if if env.adminGroups != {} then InAdminGroups(env, groups) else NobodyActive(s.users) && env.firstUserAdmin
    then ADMIN else USER
  }

  /** A provider sign-in reaches an active known account, or creates one where that is allowed; unless the identity was
      linked before, the groups decide the role if there are any. */
  lemma SignInExactly(env: Env, s: State, e: Event)
    requires e.EvOidcSignIn?
    ensures var (t, response) := Handle(env, s, e);
            && (response == Success <==>
                  env.mode != Local && match e.known
                                       case Some(id) => id in s.users && s.users[id].active
                                       case None => e.jit && e.newId !in s.users)
            && (response == Success && e.known.None? ==>
                  t.users == s.users[e.newId := User(e.email, None, FirstRole(env, s, e.groups), true, false)])
            && (response == Success && e.known.Some? ==>
                  t.users == if e.linked || env.adminGroups == {} then s.users
                             else s.users[e.known.value := s.users[e.known.value].(
                                    role := if InAdminGroups(env, e.groups) then ADMIN else USER)])
            && (response != Success ==> t.users == s.users)
  {
    NobodyActiveExactly(s.users);
  }

  // ---- how an account becomes an administrator ---------------------------

  /** The event comes with a credential. */
  predicate HasCredential(e: Event) {
    e.EvToggle? || e.EvUpdateRole? || e.EvCreateUser? || e.EvPatchUser? || e.EvResetPassword? || e.EvSetRegistration?
    || e.EvAuthenticate?
  }

  predicate IsAdminRoute(e: Event) {
    e.EvUpdateRole? || e.EvCreateUser? || e.EvPatchUser? || e.EvResetPassword?
  }

  /** The bootstrap with the right setup code; the provider's groups; an administrator's doing; or the rule that the
      first user to sign in is one. */
  ghost predicate MakesAdmin(env: Env, s: State, e: Event, id: UserId) {
    || (e.EvRegister? && id == BOOTSTRAP_USER_ID && Waits(s.users) && RightCode(s, Handle(env, s, e).0))
    || (HasCredential(e) && GroupsPromote(env, e.cred) && id == e.cred.userId)
    || (IsAdminRoute(e) && MayAdminister(env, s, e.cred))
    || (e.EvOidcSignIn? && id == (if e.known.Some? then e.known.value else e.newId)
        && (InAdminGroups(env, e.groups)
            || (env.adminGroups == {} && e.known.None? && env.firstUserAdmin && NobodyActive(s.users))))
  }

  lemma GateMakesAdmin(env: Env, s: State, e: Event, id: UserId)
    requires AuthLifecycle.CacheAgrees(env, s) && HasCredential(e)
    requires IsActiveAdmin(RequireAuth(env, s, e.now, e.cred, if e.EvAuthenticate? then e.route else AccountRoute).0.users, id)
    requires !IsActiveAdmin(s.users, id)
    ensures MakesAdmin(env, s, e, id)
  {
    var route := if e.EvAuthenticate? then e.route else AccountRoute;
    if SwitchedOn(env, s) {
      RequireAuthTouches(env, s, e.now, e.cred, route);
    } else {
      OffCreatesNoAdmin(env, s, e.now, e.cred, route, id);
    }
  }

  lemma OffCreatesNoAdmin(env: Env, s: State, now: int, cred: Credential, route: Route, id: UserId)
    requires AuthLifecycle.CacheAgrees(env, s) && !SwitchedOn(env, s)
    ensures IsActiveAdmin(RequireAuth(env, s, now, cred, route).0.users, id) <==> IsActiveAdmin(s.users, id)
  {
    AuthLifecycle.AuthEnabledIsStored(env, s, now);
  }

  /** A refused or successful admin route: only the target, the new account and the actor can have become one. */
  lemma AdminRouteMakesAdmin(env: Env, s: State, e: Event, id: UserId)
    requires AuthLifecycle.CacheAgrees(env, s) && IsAdminRoute(e)
    requires IsActiveAdmin(Handle(env, s, e).0.users, id) && !IsActiveAdmin(s.users, id)
    ensures MakesAdmin(env, s, e, id)
  {
    if !MayAdminister(env, s, e.cred) || e.checks != Checks(true, true) {
      RefusedAtGate(env, s, e);
      GateOfRoute(env, s, e, id);
    }
  }

  /** A request refused at the gate leaves the state the gate left. */
  lemma RefusedAtGate(env: Env, s: State, e: Event)
    requires AuthLifecycle.CacheAgrees(env, s) && IsAdminRoute(e)
    requires !MayAdminister(env, s, e.cred) || e.checks != Checks(true, true)
    ensures Handle(env, s, e).0 == AdminGate(env, s, e.now, e.cred, e.checks).0
  {
    GateExactly(env, s, e.now, e.cred, e.checks);
  }

  lemma GateOfRoute(env: Env, s: State, e: Event, id: UserId)
    requires AuthLifecycle.CacheAgrees(env, s) && HasCredential(e) && !e.EvAuthenticate?
    requires IsActiveAdmin(AdminGate(env, s, e.now, e.cred, e.checks).0.users, id) && !IsActiveAdmin(s.users, id)
    ensures MakesAdmin(env, s, e, id)
  {
    GateKeepsUsers(env, s, e.now, e.cred, e.checks);
    GateMakesAdmin(env, s, e, id);
  }

  lemma GateKeepsUsers(env: Env, s: State, now: int, cred: Credential, checks: Checks)
    ensures AdminGate(env, s, now, cred, checks).0.users == RequireAuth(env, s, now, cred, AccountRoute).0.users
  {
  }

  lemma SettingMakesNoAdmin(env: Env, s: State, e: Event, id: UserId)
    requires AuthLifecycle.CacheAgrees(env, s) && e.EvSetRegistration?
    requires IsActiveAdmin(Handle(env, s, e).0.users, id) && !IsActiveAdmin(s.users, id)
    ensures MakesAdmin(env, s, e, id)
  {
    SwitchKeepsUsers(env, s, e);
    GateOfRoute(env, s, e, id);
  }

  lemma SwitchKeepsUsers(env: Env, s: State, e: Event)
    requires e.EvSetRegistration?
    ensures Handle(env, s, e).0.users == AdminGate(env, s, e.now, e.cred, e.checks).0.users
  {
  }

  /** The bootstrap account is made inactive. */
  lemma ChoosingMakesNoAdmin(env: Env, s: State, now: int, enabling: bool, authEnabled: bool, code: string, id: UserId)
    requires s.config.Some?
    ensures IsActiveAdmin(ChooseMode(env, s, now, enabling, authEnabled, code).users, id) <==> IsActiveAdmin(s.users, id)
  {
  }

  lemma ToggleMakesAdmin(env: Env, s: State, e: Event, id: UserId)
    requires AuthLifecycle.CacheAgrees(env, s) && e.EvToggle?
    requires IsActiveAdmin(Handle(env, s, e).0.users, id) && !IsActiveAdmin(s.users, id)
    ensures MakesAdmin(env, s, e, id)
  {
    var t := RequireAuth(env, s, e.now, e.cred, AccountRoute).0;
    var u := EnsureConfig(env, t);
    ChoosingMakesNoAdmin(env, u, e.now, !u.config.value.authEnabled && e.next, e.next, e.freshCode, id);
    assert IsActiveAdmin(t.users, id);
    GateMakesAdmin(env, s, e, id);
  }

  lemma OnboardingMakesNoAdmin(env: Env, s: State, e: Event, id: UserId)
    requires e.EvOnboarding?
    ensures IsActiveAdmin(Handle(env, s, e).0.users, id) <==> IsActiveAdmin(s.users, id)
  {
    var (a, enabled) := GetAuthEnabled(env, s, e.now);
    var t := EnsureConfig(env, if enabled then a else EnsureBootstrapUser(a));
    ChoosingMakesNoAdmin(env, t, e.now, e.enable, e.enable, e.freshCode, id);
  }

  lemma IssuingMakesNoAdmin(env: Env, s: State, e: Event, id: UserId)
    requires e.EvStartup?
    ensures Handle(env, s, e).0.users == s.users
  {
  }

  /** Whoever is an active administrator after a request and was not before owes it to one of the four causes. */
  lemma AdminsComeAbout(env: Env, s: State, e: Event, id: UserId)
    requires AuthLifecycle.CacheAgrees(env, s)
    requires IsActiveAdmin(Handle(env, s, e).0.users, id) && !IsActiveAdmin(s.users, id)
    ensures MakesAdmin(env, s, e, id)
  {
    match e
    case EvRegister(_, _, _, _, _, _, _) => RegistrationExactly(env, s, e);
    case EvOnboarding(_, _, _, _) => OnboardingMakesNoAdmin(env, s, e, id);
    case EvToggle(_, _, _, _, _) => ToggleMakesAdmin(env, s, e, id);
    case EvUpdateRole(_, _, _, _, _) => AdminRouteMakesAdmin(env, s, e, id);
    case EvCreateUser(_, _, _, _, _, _) => AdminRouteMakesAdmin(env, s, e, id);
    case EvPatchUser(_, _, _, _, _) => AdminRouteMakesAdmin(env, s, e, id);
    case EvResetPassword(_, _, _, _, _) => AdminRouteMakesAdmin(env, s, e, id);
    case EvSetRegistration(_, _, _, _) => SettingMakesNoAdmin(env, s, e, id);
    case EvOidcSignIn(_, _, _, _, _, _) => SignInExactly(env, s, e);
    case EvAuthenticate(_, _, _) => GateMakesAdmin(env, s, e, id);
    case EvStartup(_, _) => IssuingMakesNoAdmin(env, s, e, id);
  }

  /** Some request of the run made the account an administrator. */
  ghost predicate MadeDuring(env: Env, s: State, events: seq<Event>, id: UserId)
    decreases |events|
  {
    events != [] && (MakesAdmin(env, s, events[0], id) || MadeDuring(env, Handle(env, s, events[0]).0, events[1..], id))
  }

  /** Over every run: an active administrator was made one by one of the causes. */
  lemma {:induction false} EveryAdminWasMade(env: Env, s: State, events: seq<Event>, id: UserId)
    requires AuthLifecycle.CacheAgrees(env, s) && !IsActiveAdmin(s.users, id)
    requires IsActiveAdmin(Run(env, s, events).users, id)
    ensures MadeDuring(env, s, events, id)
    decreases |events|
  {
    if events != [] {
      var t := Handle(env, s, events[0]).0;
      if IsActiveAdmin(t.users, id) {
        AdminsComeAbout(env, s, events[0], id);
      } else {
        AuthLifecycle.StepIsGood(env, s, events[0]);
        EveryAdminWasMade(env, t, events[1..], id);
      }
    }
  }

  // ---- the cached mode ---------------------------------------------------

  /** Asking for the mode leaves an answer in the cache that is from now or still fresh, and asks the row only when there
      was none such. */
  lemma CacheIsFresh(env: Env, s: State, now: int)
    requires env.cacheTtlMs > 0
    ensures var (t, enabled) := GetAuthEnabled(env, s, now);
            && t.cache.Some? && t.cache.value.value == enabled && now - t.cache.value.fetchedAt < env.cacheTtlMs
            && (env.mode == Local && s.cache.Some? && now - s.cache.value.fetchedAt < env.cacheTtlMs ==> t == s)
            && t.users == s.users && t.expiries == s.expiries && t.guesses == s.guesses && t.bootstraps == s.bootstraps
  {
  }
}
