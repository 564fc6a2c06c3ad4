/**
  The account routes in the form the handlers have: read, check, return early, update. Each method
  does to the tables what its function in `AuthState` says; a route keeps the invariants of every run.
 */
module AuthService {
  import opened Prelude
  import opened Text
  import opened AuthState
  import AuthLifecycle
  import SetupCode
  import RefreshRotation
  import LoginIndex

  class Service {
    const env: Env
    var users: map<UserId, User>
    var config: Option<Config>
    var cache: Option<Cache>
    ghost var expiries: seq<int>
    ghost var guesses: seq<Guess>
    ghost var bootstraps: nat

    ghost function Contents(): State
      reads this
    {
      State(users, config, cache, expiries, guesses, bootstraps)
    }

    /** The cache agrees with the row, the bootstrap happened at most once, and the counter of the setup code
        is exact. */
    ghost predicate Valid()
      reads this
    {
      AuthLifecycle.Inv(env, Contents()) && SetupCode.CodeInv(env, Contents())
    }

    /** What a route did to the tables is one event of the machine, so it kept the invariants. */
    lemma RouteKeepsValid(s: State, e: Event)
      requires AuthLifecycle.Inv(env, s) && SetupCode.CodeInv(env, s)
      ensures AuthLifecycle.Inv(env, Handle(env, s, e).0) && SetupCode.CodeInv(env, Handle(env, s, e).0)
      ensures Handle(env, s, e).1 != LastAdmin
    {
      AuthLifecycle.StepKeepsInv(env, s, e);
      SetupCode.StepKeepsCodeInv(env, s, e);
      AuthLifecycle.LastAdminNeverFires(env, s, e);
    }

    lemma ResetFindsUser(s: State, e: Event)
      requires e.EvResetPassword?
      ensures Handle(env, s, e).1 == Success ==> e.id in Handle(env, s, e).0.users
    {
    }

    constructor (env: Env)
      ensures this.env == env && Contents() == INITIAL && Valid()
    {
      this.env := env;
      users, config, cache := map[], None, None;
      expiries, guesses, bootstraps := [], [], 0;
    }

    method EnsureSystemConfig() returns (row: Config)
      modifies this
      ensures Contents() == AuthState.EnsureConfig(env, old(Contents()))
      ensures config == Some(row)
    {
      if config.None? {
        config := Some(Config(env.mode != Local, false, false, None, None, 0));
      }
      row := config.value;
    }

    method GetAuthEnabled(now: int) returns (enabled: bool)
      modifies this
      ensures (Contents(), enabled) == AuthState.GetAuthEnabled(env, old(Contents()), now)
    {
      if env.mode != Local {
        cache := Some(Cache(true, now));
        return true;
      }
      if cache.Some? && now - cache.value.fetchedAt < env.cacheTtlMs {
        return cache.value.value;
      }
      if config.Some? {
        cache := Some(Cache(config.value.authEnabled, now));
        return config.value.authEnabled;
      }
      var row := EnsureSystemConfig();
      cache := Some(Cache(row.authEnabled, now));
      return row.authEnabled;
    }

    method CountActiveUsers() returns (n: nat)
      ensures n == ActiveUsers(users)
    {
      n := |set id | id in users && users[id].active|;
    }

    method CountActiveAdmins() returns (n: nat)
      ensures n == ActiveAdmins(users)
    {
      n := |set id | id in users && IsActiveAdmin(users, id)|;
    }

    method EnsureBootstrap()
      modifies this
      ensures Contents() == EnsureBootstrapUser(old(Contents()))
    {
      if BOOTSTRAP_USER_ID !in users {
        users := users[BOOTSTRAP_USER_ID := User("bootstrap@excalidash.local", None, ADMIN, false, true)];
      }
    }

    method RequireAuth(now: int, cred: Credential, route: Route) returns (who: Principal)
      modifies this
      ensures (Contents(), who) == AuthState.RequireAuth(env, old(Contents()), now, cred, route)
    {
      var enabled := GetAuthEnabled(now);
      if !enabled {
        EnsureBootstrap();
        return Actor(BOOTSTRAP_USER_ID, users[BOOTSTRAP_USER_ID].role);
      }
      if cred.NoCredential? {
        return Rejected(Unauthorized);
      }
      if cred.userId !in users || !users[cred.userId].active {
        return Rejected(Unauthorized);
      }
      if cred.ApiKey? && !(route.ResourceRoute? && route.scope in cred.scopes) {
        return Rejected(Forbidden);
      }
      if cred.Jwt? && env.adminGroups != {} && cred.reconciles {
        var expected := if exists g :: g in cred.groups && g in env.adminGroups then ADMIN else USER;
        users := users[cred.userId := users[cred.userId].(role := expected)];
      }
      if users[cred.userId].mustReset && !route.OwnPasswordRoute? {
        return Rejected(MustReset);
      }
      return Actor(cred.userId, users[cred.userId].role);
    }

    /** `requireAuth`, `ensureAuthEnabled`, `requireCsrf`, `requireAdmin` and the body's schema. */
    method PassAdminGate(now: int, cred: Credential, checks: Checks) returns (who: Principal)
      modifies this
      ensures (Contents(), who) == AdminGate(env, old(Contents()), now, cred, checks)
    {
      who := RequireAuth(now, cred, AccountRoute);
      if who.Rejected? {
        return;
      }
      var row := EnsureSystemConfig();
      if env.mode == Local && !row.authEnabled {
        return Rejected(AuthDisabled);
      }
      if !checks.csrf || who.role != ADMIN {
        return Rejected(Forbidden);
      }
      if !checks.body {
        return Rejected(Invalid);
      }
    }

    method IssueSetupCode(now: int, code: string)
      modifies this
      ensures Contents() == IssueCodeIfRequired(env, old(Contents()), now, code)
    {
      if env.mode == OidcEnforced {
        return;
      }
      var row := EnsureSystemConfig();
      var active := CountActiveUsers();
      if !(row.authEnabled && BOOTSTRAP_USER_ID in users && !users[BOOTSTRAP_USER_ID].active && active == 0) {
        return;
      }
      var expiresAt := now + env.codeTtlMs;
      config := Some(row.(codeHash := Some(env.digest(code)), codeExpiresAt := Some(expiresAt), failedAttempts := 0));
      expiries := expiries + [expiresAt];
    }

    method VerifySetupCode(now: int, provided: Option<string>) returns (verdict: Verdict)
      modifies this
      ensures (Contents(), verdict) == VerifyCode(env, old(Contents()), now, provided)
    {
      if config.None? || config.value.codeHash.None? || config.value.codeExpiresAt.None? {
        return Unavailable;
      }
      var row := config.value;
      if now > row.codeExpiresAt.value {
        return Expired;
      }
      if row.failedAttempts >= env.maxAttempts {
        return Locked;
      }
      if provided.None? || Trim(provided.value) == "" {
        return Missing;
      }
      var valid := env.digest(provided.value) == row.codeHash.value;
      guesses := guesses + [Guess(|expiries|, valid, now)];
      if !valid {
        config := Some(row.(failedAttempts := row.failedAttempts + 1));
        return Wrong;
      }
      config := Some(row.(codeHash := None, codeExpiresAt := None, failedAttempts := 0));
      return Accepted;
    }

    method Register(now: int, checks: Checks, email: string, username: Option<string>, provided: Option<string>,
                    newId: UserId, freshCode: string) returns (response: Response)
      modifies this
      ensures (Contents(), response)
           == AuthState.Register(env, old(Contents()), now, checks, email, username, provided, newId, freshCode)
    {
      var row := EnsureSystemConfig();
      if env.mode == Local && !row.authEnabled {
        return AuthDisabled;
      }
      if env.mode == OidcEnforced || !checks.csrf {
        return Forbidden;
      }
      if !checks.body {
        return Invalid;
      }
      var active := CountActiveUsers();
      if BOOTSTRAP_USER_ID in users && !users[BOOTSTRAP_USER_ID].active && active == 0 {
        var verdict := VerifySetupCode(now, provided);
        if verdict != Accepted {
          if verdict == Unavailable || verdict == Expired || verdict == Locked {
            IssueSetupCode(now, freshCode);
          }
          return CodeRejected(verdict);
        }
        if EmailTaken(users, email, Some(BOOTSTRAP_USER_ID)) {
          return Conflict;
        }
        if UsernameTaken(users, username, Some(BOOTSTRAP_USER_ID)) {
          return Conflict;
        }
        users := users[BOOTSTRAP_USER_ID := User(email, username, ADMIN, true, false)];
        bootstraps := bootstraps + 1;
        return Success;
      }
      if !row.registrationEnabled {
        return RegistrationClosed;
      }
      if EmailTaken(users, email, None) || UsernameTaken(users, username, None) || newId in users {
        return Conflict;
      }
      users := users[newId := User(email, username, USER, true, false)];
      return Success;
    }

    method WriteAuthMode(authEnabled: bool)
      modifies this
      ensures Contents() == SetAuthMode(env, old(Contents()), authEnabled)
    {
      var row := EnsureSystemConfig();
      config := Some(row.(authEnabled := authEnabled, onboarded := true));
      cache := None;
    }

    method ChooseOnboarding(now: int, checks: Checks, enable: bool, freshCode: string) returns (response: Response)
      modifies this
      ensures (Contents(), response) == OnboardingChoice(env, old(Contents()), now, checks, enable, freshCode)
    {
      var enabled := GetAuthEnabled(now);
      if !enabled {
        EnsureBootstrap();
      }
      if env.mode != Local {
        return ModeManaged;
      }
      if !checks.csrf {
        return Forbidden;
      }
      if !checks.body {
        return Invalid;
      }
      var row := EnsureSystemConfig();
      var active := CountActiveUsers();
      if row.authEnabled || active != 0 || row.onboarded {
        return OnboardingDone;
      }
      if enable {
        EnsureBootstrap();
      }
      WriteAuthMode(enable);
      if enable {
        IssueSetupCode(now, freshCode);
      }
      return Success;
    }

    method ToggleAuth(now: int, cred: Credential, checks: Checks, next: bool, freshCode: string)
      returns (response: Response)
      modifies this
      ensures (Contents(), response) == ToggleAuthEnabled(env, old(Contents()), now, cred, checks, next, freshCode)
    {
      var who := RequireAuth(now, cred, AccountRoute);
      if who.Rejected? {
        return who.why;
      }
      if env.mode != Local {
        return ModeManaged;
      }
      if !checks.csrf || who.role != ADMIN {
        return Forbidden;
      }
      if !checks.body {
        return Invalid;
      }
      var row := EnsureSystemConfig();
      var enabling := !row.authEnabled && next;
      if enabling {
        EnsureBootstrap();
      }
      WriteAuthMode(next);
      if enabling {
        IssueSetupCode(now, freshCode);
      }
      return Success;
    }

    method ChangeRole(now: int, cred: Credential, checks: Checks, target: Option<UserId>, role: Role)
      returns (response: Response)
      modifies this
      ensures (Contents(), response) == UpdateRole(env, old(Contents()), now, cred, checks, target, role)
    {
      var who := PassAdminGate(now, cred, checks);
      if who.Rejected? {
        return who.why;
      }
      if target.None? || target.value !in users {
        return NotFound;
      }
      var id := target.value;
      if id == who.id && role != ADMIN {
        return OwnDemotion;
      }
      if users[id].role == ADMIN && role != ADMIN && users[id].active {
        var admins := CountActiveAdmins();
        if admins <= 1 {
          return LastAdmin;
        }
      }
      users := users[id := users[id].(role := role)];
      return Success;
    }

    method AddUser(now: int, cred: Credential, checks: Checks, newId: UserId, user: User, oidcOnly: bool)
      returns (response: Response)
      modifies this
      ensures (Contents(), response) == CreateUser(env, old(Contents()), now, cred, checks, newId, user, oidcOnly)
    {
      var who := PassAdminGate(now, cred, checks);
      if who.Rejected? {
        return who.why;
      }
      if EmailTaken(users, user.email, None) || UsernameTaken(users, user.username, None) {
        return Conflict;
      }
      if oidcOnly && !env.oidcEnabled {
        return Conflict;
      }
      if newId in users {
        return Conflict;
      }
      users := users[newId := if oidcOnly then user.(mustReset := false) else user];
      return Success;
    }

    /** The record of assigned fields, merged into the row. */
    static method MergePatch(current: User, p: Patch) returns (data: User)
      ensures data == Patched(current, p)
    {
      data := current;
      if p.username.Some? { data := data.(username := p.username.value); }
      if p.role.Some? { data := data.(role := p.role.value); }
      if p.mustReset.Some? { data := data.(mustReset := p.mustReset.value); }
      if p.isActive.Some? { data := data.(active := p.isActive.value); }
    }

    method ApplyPatch(now: int, cred: Credential, checks: Checks, id: UserId, p: Patch)
      returns (response: Response)
      modifies this
      ensures (Contents(), response) == PatchUser(env, old(Contents()), now, cred, checks, id, p)
    {
      var who := PassAdminGate(now, cred, checks);
      if who.Rejected? {
        return who.why;
      }
      if id == who.id && p.isActive == Some(false) {
        return OwnDeactivation;
      }
      if id == who.id && p.role.Some? && p.role.value != ADMIN {
        return OwnDemotion;
      }
      if id !in users {
        return NotFound;
      }
      var current := users[id];
      var nextRole := if p.role.None? then current.role else p.role.value;
      var nextActive := if p.isActive.None? then current.active else p.isActive.value;
      var removingAdmin := current.role == ADMIN && current.active && (nextRole != ADMIN || !nextActive);
      if removingAdmin {
        var admins := CountActiveAdmins();
        if admins <= 1 {
          return LastAdmin;
        }
      }
      if p.username.Some? && UsernameTaken(users, p.username.value, Some(id)) {
        return Conflict;
      }
      var data := MergePatch(current, p);
      users := users[id := data];
      return Success;
    }

    method ResetAccount(now: int, cred: Credential, checks: Checks, impersonating: bool, id: UserId)
      returns (response: Response)
      modifies this
      ensures (Contents(), response) == ResetPassword(env, old(Contents()), now, cred, checks, impersonating, id)
    {
      var who := PassAdminGate(now, cred, checks);
      if who.Rejected? {
        return who.why;
      }
      if impersonating {
        return Forbidden;
      }
      if id == who.id {
        return Conflict;
      }
      if id !in users {
        return NotFound;
      }
      users := users[id := users[id].(mustReset := true, active := true)];
      return Success;
    }

    method SwitchRegistration(now: int, cred: Credential, checks: Checks, enabled: bool) returns (response: Response)
      modifies this
      ensures (Contents(), response) == SetRegistration(env, old(Contents()), now, cred, checks, enabled)
    {
      var who := PassAdminGate(now, cred, checks);
      if who.Rejected? {
        return who.why;
      }
      if env.mode == OidcEnforced {
        return ModeManaged;
      }
      var row := EnsureSystemConfig();
      config := Some(row.(registrationEnabled := enabled));
      return Success;
    }

    /** The transaction of the OIDC callback. */
    method ResolveOidcUser(known: Option<UserId>, linked: bool, jit: bool, newId: UserId, email: string,
                           groups: set<string>) returns (response: Response)
      modifies this
      ensures (Contents(), response) == OidcSignIn(env, old(Contents()), known, linked, jit, newId, email, groups)
    {
      if env.mode == Local {
        return NotFound;
      }
      var row := EnsureSystemConfig();
      if known.Some? {
        if known.value !in users || !users[known.value].active {
          return Unauthorized;
        }
        if linked {
          return Success;
        }
      } else {
        if !jit || newId in users {
          return Forbidden;
        }
        var active := CountActiveUsers();
        var role := if active == 0 && env.firstUserAdmin then ADMIN else USER;
        users := users[newId := User(email, None, role, true, false)];
      }
      if env.adminGroups != {} {
        var id := if known.Some? then known.value else newId;
        var shouldBeAdmin := exists g :: g in groups && g in env.adminGroups;
        users := users[id := users[id].(role := if shouldBeAdmin then ADMIN else USER)];
      }
      return Success;
    }

    /** One request, whichever it is: the machine's answer, and the invariants kept. */
    method Serve(e: Event) returns (response: Response)
      requires Valid()
      modifies this
      ensures Valid() && (Contents(), response) == Handle(env, old(Contents()), e)
      ensures response != LastAdmin
    {
      RouteKeepsValid(Contents(), e);
      response := HandleRequest(e);
    }

    /** The handler of each route. */
    method HandleRequest(e: Event) returns (response: Response)
      modifies this
      ensures (Contents(), response) == Handle(env, old(Contents()), e)
    {
      match e {
        case EvRegister(now, checks, email, username, provided, newId, freshCode) =>
          response := Register(now, checks, email, username, provided, newId, freshCode);
        case EvOnboarding(now, checks, enable, freshCode) =>
          response := ChooseOnboarding(now, checks, enable, freshCode);
        case EvToggle(now, cred, checks, next, freshCode) =>
          response := ToggleAuth(now, cred, checks, next, freshCode);
        case EvUpdateRole(now, cred, checks, target, role) =>
          response := ChangeRole(now, cred, checks, target, role);
        case EvCreateUser(now, cred, checks, newId, user, oidcOnly) =>
          response := AddUser(now, cred, checks, newId, user, oidcOnly);
        case EvPatchUser(now, cred, checks, id, p) =>
          response := ApplyPatch(now, cred, checks, id, p);
        case EvResetPassword(now, cred, checks, impersonating, id) =>
          response := ResetAccount(now, cred, checks, impersonating, id);
        case EvSetRegistration(now, cred, checks, enabled) =>
          response := SwitchRegistration(now, cred, checks, enabled);
        case EvOidcSignIn(known, linked, jit, newId, email, groups) =>
          response := ResolveOidcUser(known, linked, jit, newId, email, groups);
        case EvAuthenticate(now, cred, route) =>
          var who := RequireAuth(now, cred, route);
          response := if who.Rejected? then who.why else Success;
        case EvStartup(now, freshCode) =>
          IssueSetupCode(now, freshCode);
          response := Success;
      }
    }

    /** Besides the account: the target's refresh rows are revoked and its login counters reset. `fold` trims
        and lower-cases. */
    method ResetUserPassword(now: int, cred: Credential, checks: Checks, impersonating: bool, id: UserId,
                             tokens: RefreshRotation.RefreshTokenStore, limiter: LoginIndex.LoginLimiter,
                             fold: string -> string) returns (response: Response)
      requires Valid() && tokens.Valid() && limiter.Valid()
      modifies this, tokens, limiter
      ensures Valid() && tokens.Valid() && limiter.Valid() && response != LastAdmin
      ensures (Contents(), response) == ResetPassword(env, old(Contents()), now, cred, checks, impersonating, id)
      ensures response == Success ==>
                && tokens.Contents() == RefreshRotation.Step(tokens.env, old(tokens.Contents()), RefreshRotation.Revoke(id))
                && id in users
                && limiter.Contents() == LoginIndex.Step(old(limiter.Contents()), LoginIndex.Reset(fold(users[id].email)))
      ensures response != Success ==>
                tokens.Contents() == old(tokens.Contents()) && limiter.Contents() == old(limiter.Contents())
    {
      response := Serve(EvResetPassword(now, cred, checks, impersonating, id));
      ResetFindsUser(old(Contents()), EvResetPassword(now, cred, checks, impersonating, id));
      if response == Success {
        tokens.RevokeUser(id);
        limiter.ResetLoginAttemptKey(fold(users[id].email));
      }
    }
  }
}
