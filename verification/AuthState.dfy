/**
  The user table, the system-config row, the auth-enabled cache and the one-time setup code, and
  what each route that writes them does, as functions of the state before it.
 */
module AuthState {
  import opened Prelude
  import opened Text

  type UserId = string

  datatype Mode = Local | Hybrid | OidcEnforced

  /** Configuration; `digest` normalises a setup code and hashes it. */
  datatype Env = Env(
    mode: Mode,
    digest: string -> string,
    maxAttempts: nat,
    codeTtlMs: int,
    cacheTtlMs: int,
    adminGroups: set<string>,
    oidcEnabled: bool,
    firstUserAdmin: bool)

  const BOOTSTRAP_USER_ID: UserId := "bootstrap-admin"

  datatype Role = ADMIN | USER

  datatype User = User(email: string, username: Option<string>, role: Role, active: bool, mustReset: bool)

  const BOOTSTRAP_USER: User := User("bootstrap@excalidash.local", None, ADMIN, false, true)

  datatype Config = Config(
    authEnabled: bool,
    onboarded: bool,
    registrationEnabled: bool,
    codeHash: Option<string>,
    codeExpiresAt: Option<int>,
    failedAttempts: nat)

  datatype Cache = Cache(value: bool, fetchedAt: int)

  /** History: a guess that was compared with the hash of setup code number `code`. */
  datatype Guess = Guess(code: nat, ok: bool, at: int)

  /** `expiries` (one entry per setup code issued), `guesses` and `bootstraps` are history. */
  datatype State = State(
    users: map<UserId, User>,
    config: Option<Config>,
    cache: Option<Cache>,
    expiries: seq<int>,
    guesses: seq<Guess>,
    bootstraps: nat)

  const INITIAL: State := State(map[], None, None, [], [], 0)

  datatype Response =
    | Success | AuthDisabled | Unauthorized | MustReset | Forbidden | Invalid | NotFound
    | Conflict | OwnDeactivation | OwnDemotion | LastAdmin | CodeRejected(verdict: Verdict)
    | ModeManaged | RegistrationClosed | OnboardingDone

  datatype Verdict = Accepted | Missing | Unavailable | Expired | Wrong | Locked

  /** The credential of a request: an access token that verifies, an API key that matches and is not revoked,
      or nothing usable. `reconciles` says whether the token's provider makes its groups count. */
  datatype Credential =
    | NoCredential
    | Jwt(userId: UserId, reconciles: bool, groups: set<string>)
    | ApiKey(userId: UserId, scopes: set<string>)

  /** What `requireAuth` asks of the route: whether API keys with a scope may use it, and whether it stays open
      while a password reset is due. */
  datatype Route = AccountRoute | OwnPasswordRoute | ResourceRoute(scope: string)

  /** Whether the request passes `requireCsrf`, and whether its body matches the schema. */
  datatype Checks = Checks(csrf: bool, body: bool)

  datatype Principal = Rejected(why: Response) | Actor(id: UserId, role: Role)

  // ---- queries -----------------------------------------------------------

  predicate IsActive(users: map<UserId, User>, id: UserId) {
    id in users && users[id].active
  }

  predicate IsActiveAdmin(users: map<UserId, User>, id: UserId) {
    id in users && users[id].active && users[id].role == ADMIN
  }

  function ActiveUsers(users: map<UserId, User>): nat {
    |set id | id in users && users[id].active|
  }

  function ActiveAdmins(users: map<UserId, User>): nat {
    |set id | id in users && IsActiveAdmin(users, id)|
  }

  predicate EmailTaken(users: map<UserId, User>, email: string, except: Option<UserId>) {
    exists id :: id in users && users[id].email == email && except != Some(id)
  }

  predicate UsernameTaken(users: map<UserId, User>, username: Option<string>, except: Option<UserId>) {
    username.Some? && exists id :: id in users && users[id].username == username && except != Some(id)
  }

  function DefaultConfig(env: Env): Config {
    Config(env.mode != Local, false, false, None, None, 0)
  }

  function EnsureConfig(env: Env, s: State): State {
    if s.config.Some? then s else s.(config := Some(DefaultConfig(env)))
  }

  /** What `ensureAuthEnabled` decides by, read from the row itself. */
  predicate AuthEnabled(env: Env, s: State) {
    env.mode != Local || (s.config.Some? && s.config.value.authEnabled)
  }

  function EnsureBootstrapUser(s: State): State {
    if BOOTSTRAP_USER_ID in s.users then s else s.(users := s.users[BOOTSTRAP_USER_ID := BOOTSTRAP_USER])
  }

  /** The bootstrap account exists, is inactive, and nobody is active. */
  predicate AwaitsBootstrap(s: State) {
    BOOTSTRAP_USER_ID in s.users && !s.users[BOOTSTRAP_USER_ID].active && ActiveUsers(s.users) == 0
  }

  // ---- auth mode cache ---------------------------------------------------

  predicate CacheFresh(env: Env, s: State, now: int) {
    s.cache.Some? && now - s.cache.value.fetchedAt < env.cacheTtlMs
  }

  function GetAuthEnabled(env: Env, s: State, now: int): (State, bool) {
    if env.mode != Local then (s.(cache := Some(Cache(true, now))), true)
    else if CacheFresh(env, s, now) then (s, s.cache.value.value)
    else
      var t := EnsureConfig(env, s);
      (t.(cache := Some(Cache(t.config.value.authEnabled, now))), t.config.value.authEnabled)
  }

  // ---- who is acting -----------------------------------------------------

  function Reconciled(env: Env, users: map<UserId, User>, cred: Credential): map<UserId, User>
    requires cred.Jwt? && cred.userId in users
  {
    if env.adminGroups == {} || !cred.reconciles then users
    else users[cred.userId := users[cred.userId].(
           role := if exists g :: g in cred.groups && g in env.adminGroups then ADMIN else USER)]
  }

  function RequireAuth(env: Env, s: State, now: int, cred: Credential, route: Route): (State, Principal) {
    var (t, enabled) := GetAuthEnabled(env, s, now);
    if !enabled then
      var b := EnsureBootstrapUser(t);
      (b, Actor(BOOTSTRAP_USER_ID, b.users[BOOTSTRAP_USER_ID].role))
    else if cred.NoCredential? || !IsActive(t.users, cred.userId) then (t, Rejected(Unauthorized))
    else if cred.ApiKey? && !(route.ResourceRoute? && route.scope in cred.scopes) then (t, Rejected(Forbidden))
    else
      var r := if cred.Jwt? then t.(users := Reconciled(env, t.users, cred)) else t;
      if r.users[cred.userId].mustReset && !route.OwnPasswordRoute? then (r, Rejected(MustReset))
      else (r, Actor(cred.userId, r.users[cred.userId].role))
  }

  /** The checks every admin user route starts with. */
  function AdminGate(env: Env, s: State, now: int, cred: Credential, checks: Checks): (State, Principal) {
    var (t, who) := RequireAuth(env, s, now, cred, AccountRoute);
    if who.Rejected? then (t, who)
    else
      var u := EnsureConfig(env, t);
      if !AuthEnabled(env, u) then (u, Rejected(AuthDisabled))
      else if !checks.csrf || who.role != ADMIN then (u, Rejected(Forbidden))
      else if !checks.body then (u, Rejected(Invalid))
      else (u, who)
  }

  // ---- setup code --------------------------------------------------------

  function IssueCodeIfRequired(env: Env, s: State, now: int, code: string): State {
    if env.mode == OidcEnforced then s
    else
      var t := EnsureConfig(env, s);
      if !(t.config.value.authEnabled && AwaitsBootstrap(t)) then t
      else t.(
        config := Some(t.config.value.(
          codeHash := Some(env.digest(code)), codeExpiresAt := Some(now + env.codeTtlMs), failedAttempts := 0)),
        expiries := t.expiries + [now + env.codeTtlMs])
  }

  function VerifyCode(env: Env, s: State, now: int, provided: Option<string>): (State, Verdict) {
    if s.config.None? || s.config.value.codeHash.None? || s.config.value.codeExpiresAt.None? then (s, Unavailable)
    else
      var c := s.config.value;
      if now > c.codeExpiresAt.value then (s, Expired)
      else if c.failedAttempts >= env.maxAttempts then (s, Locked)
      else if provided.None? || Trim(provided.value) == "" then (s, Missing)
      else if env.digest(provided.value) != c.codeHash.value then
        (s.(config := Some(c.(failedAttempts := c.failedAttempts + 1)),
            guesses := s.guesses + [Guess(|s.expiries|, false, now)]), Wrong)
      else
        (s.(config := Some(c.(codeHash := None, codeExpiresAt := None, failedAttempts := 0)),
            guesses := s.guesses + [Guess(|s.expiries|, true, now)]), Accepted)
  }

  // ---- routes ------------------------------------------------------------

  /** `POST /register`; `newId` and `freshCode` are the random values it may draw. */
  function Register(env: Env, s: State, now: int, checks: Checks, email: string, username: Option<string>,
                    provided: Option<string>, newId: UserId, freshCode: string): (State, Response)
  {
    var t := EnsureConfig(env, s);
    if !AuthEnabled(env, t) then (t, AuthDisabled)
    else if env.mode == OidcEnforced then (t, Forbidden)
    else if !checks.csrf then (t, Forbidden)
    else if !checks.body then (t, Invalid)
    else if AwaitsBootstrap(t) then RegisterBootstrap(env, t, now, email, username, provided, freshCode)
    else if !t.config.value.registrationEnabled then (t, RegistrationClosed)
    else if EmailTaken(t.users, email, None) || UsernameTaken(t.users, username, None) || newId in t.users
    then (t, Conflict)
    else (t.(users := t.users[newId := User(email, username, USER, true, false)]), Success)
  }

  function RegisterBootstrap(env: Env, s: State, now: int, email: string, username: Option<string>,
                             provided: Option<string>, freshCode: string): (State, Response)
    requires BOOTSTRAP_USER_ID in s.users
  {
    var (t, verdict) := VerifyCode(env, s, now, provided);
    if verdict == Unavailable || verdict == Expired || verdict == Locked then
      (IssueCodeIfRequired(env, t, now, freshCode), CodeRejected(verdict))
    else if verdict != Accepted then (t, CodeRejected(verdict))
    else if EmailTaken(t.users, email, Some(BOOTSTRAP_USER_ID))
         || UsernameTaken(t.users, username, Some(BOOTSTRAP_USER_ID)) then (t, Conflict)
    else (t.(users := t.users[BOOTSTRAP_USER_ID := User(email, username, ADMIN, true, false)],
             bootstraps := t.bootstraps + 1), Success)
  }

  /** `upsertAuthModeState` followed by `clearAuthEnabledCache`. */
  function SetAuthMode(env: Env, s: State, authEnabled: bool): State {
    var c := EnsureConfig(env, s).config.value;
    s.(config := Some(c.(authEnabled := authEnabled, onboarded := true)), cache := None)
  }

  /** Stores the mode; switching authentication on prepares the bootstrap account and its code. */
  function ChooseMode(env: Env, s: State, now: int, enabling: bool, authEnabled: bool, freshCode: string): State {
    var t := SetAuthMode(env, if enabling then EnsureBootstrapUser(s) else s, authEnabled);
    if enabling then IssueCodeIfRequired(env, t, now, freshCode) else t
  }

  /** `POST /onboarding-choice`, after `optionalAuth`. */
  function OnboardingChoice(env: Env, s: State, now: int, checks: Checks, enable: bool, freshCode: string)
    : (State, Response)
  {
    var (a, enabled) := GetAuthEnabled(env, s, now);
    var b := if enabled then a else EnsureBootstrapUser(a);
    if env.mode != Local then (b, ModeManaged)
    else if !checks.csrf then (b, Forbidden)
    else if !checks.body then (b, Invalid)
    else
      var t := EnsureConfig(env, b);
      var c := t.config.value;
      if c.authEnabled || ActiveUsers(t.users) != 0 || c.onboarded then (t, OnboardingDone)
      else
        (ChooseMode(env, t, now, enable, enable, freshCode), Success)
  }

  /** `POST /auth-enabled`, which does not ask for authentication to be enabled. */
  function ToggleAuthEnabled(env: Env, s: State, now: int, cred: Credential, checks: Checks, next: bool,
                             freshCode: string): (State, Response)
  {
    var (t, who) := RequireAuth(env, s, now, cred, AccountRoute);
    if who.Rejected? then (t, who.why)
    else if env.mode != Local then (t, ModeManaged)
    else if !checks.csrf || who.role != ADMIN then (t, Forbidden)
    else if !checks.body then (t, Invalid)
    else
      var u := EnsureConfig(env, t);
      var enabling := !u.config.value.authEnabled && next;
      (ChooseMode(env, u, now, enabling, next, freshCode), Success)
  }

  /** `POST /admins`; `target` is what the identifier resolves to. */
  function UpdateRole(env: Env, s: State, now: int, cred: Credential, checks: Checks,
                      target: Option<UserId>, role: Role): (State, Response)
  {
    var (t, who) := AdminGate(env, s, now, cred, checks);
    if who.Rejected? then (t, who.why)
    else if target.None? || target.value !in t.users then (t, NotFound)
    else if target.value == who.id && role != ADMIN then (t, OwnDemotion)
    else if IsActiveAdmin(t.users, target.value) && role != ADMIN && ActiveAdmins(t.users) <= 1 then (t, LastAdmin)
    else (t.(users := t.users[target.value := t.users[target.value].(role := role)]), Success)
  }

  /** `POST /users`. */
  function CreateUser(env: Env, s: State, now: int, cred: Credential, checks: Checks, newId: UserId, user: User,
                      oidcOnly: bool): (State, Response)
  {
    var (t, who) := AdminGate(env, s, now, cred, checks);
    if who.Rejected? then (t, who.why)
    else if EmailTaken(t.users, user.email, None) || UsernameTaken(t.users, user.username, None)
         || (oidcOnly && !env.oidcEnabled) || newId in t.users then (t, Conflict)
    else (t.(users := t.users[newId := if oidcOnly then user.(mustReset := false) else user]), Success)
  }

  /** The fields a PATCH names. */
  datatype Patch = Patch(username: Option<Option<string>>, role: Option<Role>, mustReset: Option<bool>,
                         isActive: Option<bool>)

  function Patched(u: User, p: Patch): User {
    User(u.email, p.username.GetOr(u.username), p.role.GetOr(u.role), p.isActive.GetOr(u.active),
         p.mustReset.GetOr(u.mustReset))
  }

  /** `PATCH /users/:id`. */
  function PatchUser(env: Env, s: State, now: int, cred: Credential, checks: Checks, id: UserId, p: Patch)
    : (State, Response)
  {
    var (t, who) := AdminGate(env, s, now, cred, checks);
    if who.Rejected? then (t, who.why)
    else if id == who.id && p.isActive == Some(false) then (t, OwnDeactivation)
    else if id == who.id && p.role == Some(USER) then (t, OwnDemotion)
    else if id !in t.users then (t, NotFound)
    else
      var next := Patched(t.users[id], p);
      if IsActiveAdmin(t.users, id) && (next.role != ADMIN || !next.active) && ActiveAdmins(t.users) <= 1
      then (t, LastAdmin)
      else if p.username.Some? && UsernameTaken(t.users, p.username.value, Some(id)) then (t, Conflict)
      else (t.(users := t.users[id := next]), Success)
  }

  /** `POST /users/:id/reset-password`, which also reactivates the account. */
  function ResetPassword(env: Env, s: State, now: int, cred: Credential, checks: Checks, impersonating: bool,
                         id: UserId): (State, Response)
  {
    var (t, who) := AdminGate(env, s, now, cred, checks);
    if who.Rejected? then (t, who.why)
    else if impersonating then (t, Forbidden)
    else if id == who.id then (t, Conflict)
    else if id !in t.users then (t, NotFound)
    else (t.(users := t.users[id := t.users[id].(mustReset := true, active := true)]), Success)
  }

  /** The registration switch of the admin settings. */
  function SetRegistration(env: Env, s: State, now: int, cred: Credential, checks: Checks, enabled: bool)
    : (State, Response)
  {
    var (t, who) := AdminGate(env, s, now, cred, checks);
    if who.Rejected? then (t, who.why)
    else if env.mode == OidcEnforced then (t, ModeManaged)
    else (t.(config := Some(EnsureConfig(env, t).config.value.(registrationEnabled := enabled))), Success)
  }

  /** The OIDC callback's user resolution; the route exists only with a provider, so not in local mode.
      `known` is the account found by identity or by email. */
  function OidcSignIn(env: Env, s: State, known: Option<UserId>, linked: bool, jit: bool, newId: UserId,
                      email: string, groups: set<string>): (State, Response)
  {
    var t := EnsureConfig(env, s);
    if env.mode == Local then (s, NotFound)
    else if known.Some? && (known.value !in t.users || !t.users[known.value].active) then (t, Unauthorized)
    else if known.Some? && linked then (t, Success)
    else if known.None? && (!jit || newId in t.users) then (t, Forbidden)
    else
      var id := if known.Some? then known.value else newId;
      var users := if known.Some? then t.users
        else t.users[newId := User(email, None,
               if ActiveUsers(t.users) == 0 && env.firstUserAdmin then ADMIN else USER, true, false)];
      (t.(users := if env.adminGroups == {} then users
                   else users[id := users[id].(
                     role := if exists g :: g in groups && g in env.adminGroups then ADMIN else USER)]), Success)
  }

  datatype Event =
    | EvRegister(now: int, checks: Checks, email: string, username: Option<string>, provided: Option<string>,
                 newId: UserId, freshCode: string)
    | EvOnboarding(now: int, checks: Checks, enable: bool, freshCode: string)
    | EvToggle(now: int, cred: Credential, checks: Checks, next: bool, freshCode: string)
    | EvUpdateRole(now: int, cred: Credential, checks: Checks, target: Option<UserId>, newRole: Role)
    | EvCreateUser(now: int, cred: Credential, checks: Checks, newId: UserId, user: User, oidcOnly: bool)
    | EvPatchUser(now: int, cred: Credential, checks: Checks, id: UserId, patch: Patch)
    | EvResetPassword(now: int, cred: Credential, checks: Checks, impersonating: bool, id: UserId)
    | EvSetRegistration(now: int, cred: Credential, checks: Checks, enable: bool)
    | EvOidcSignIn(known: Option<UserId>, linked: bool, jit: bool, newId: UserId, email: string, groups: set<string>)
    | EvAuthenticate(now: int, cred: Credential, route: Route)    // any other route behind `requireAuth`
    | EvStartup(now: int, freshCode: string)

  function Handle(env: Env, s: State, e: Event): (State, Response) {
    match e
    case EvRegister(now, checks, email, username, provided, newId, code) =>
      Register(env, s, now, checks, email, username, provided, newId, code)
    case EvOnboarding(now, checks, enable, code) => OnboardingChoice(env, s, now, checks, enable, code)
    case EvToggle(now, cred, checks, next, code) => ToggleAuthEnabled(env, s, now, cred, checks, next, code)
    case EvUpdateRole(now, cred, checks, target, role) => UpdateRole(env, s, now, cred, checks, target, role)
    case EvCreateUser(now, cred, checks, newId, user, oidcOnly) => CreateUser(env, s, now, cred, checks, newId, user, oidcOnly)
    case EvPatchUser(now, cred, checks, id, p) => PatchUser(env, s, now, cred, checks, id, p)
    case EvResetPassword(now, cred, checks, imp, id) => ResetPassword(env, s, now, cred, checks, imp, id)
    case EvSetRegistration(now, cred, checks, enable) => SetRegistration(env, s, now, cred, checks, enable)
    case EvOidcSignIn(known, linked, jit, newId, email, groups) =>
      OidcSignIn(env, s, known, linked, jit, newId, email, groups)
    case EvAuthenticate(now, cred, route) =>
      var (t, who) := RequireAuth(env, s, now, cred, route);
      (t, if who.Rejected? then who.why else Success)
    case EvStartup(now, code) => (IssueCodeIfRequired(env, s, now, code), Success)
  }

  function Run(env: Env, s: State, events: seq<Event>): State
    decreases |events|
  {
    if events == [] then s else Run(env, Handle(env, s, events[0]).0, events[1..])
  }
}
