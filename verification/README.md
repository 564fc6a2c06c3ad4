# Verification of ExcaliDash's state machines

This project models the parts of ExcaliDash in which something can go wrong only over a whole run: the
refresh-token store, the account routes, the one-time setup code, the live-collaboration server, the limiters
and caches, the backup scheduler, the browser client's retry logic, image uploads, and the placement of
generated shapes; and beside them the codecs and orders those rely on. Each machine is a state and a
step function; a class whose methods change their fields in place is proved against it, and the main results
hold for every event sequence. Rows, relays and answers that a property speaks about are kept as ghost history.

| module | what it models |
|---|---|
| `RefreshRotation` | refresh-token rows, `/refresh` as a stale read and an all-or-nothing commit, logins, logout |
| `AuthState`, `AuthService` | users, the system-config row, the auth-enabled cache, the routes that write them |
| `AuthEffects` | what each of those routes leaves, and how accounts become administrators |
| `AuthLifecycle`, `SetupCode` | what every serial run of those routes keeps |
| `SetupCodeRace` | concurrent guesses at the setup code |
| `Placement` | collision-free placement on the board, over reals |
| `Sharing`, `LinkRoutes` | drawing access, and the link table between the statements of its routes |
| `CollabServer`, `CollabSafety` | rooms, presence, the per-socket access cache |
| `CsrfLimiter`, `DrawingsCache`, `LoginIndex` | the CSRF-token limiter, the drawings cache, the login-limiter index |
| `Text`, `Semver`, `Base64Url`, `SignedTokens` | version parsing and precedence, base64url, CSRF tokens, OIDC flow cookies |
| `Cron`, `BackupScheduler` | schedules and the tick that starts backups |
| `ApiClient`, `ApiInterceptors` | the client's interceptors, for any number of concurrent calls and any server |
| `FileProcessing` | uploads in batches of eight, with any completion order and any failure |

Where the code does not do what one would expect, the model follows the code and a lemma names the input:

- The sliding bound of the CSRF limiter is `2 * max - 1`, not only `2 * max`, and it is reached
  (`CsrfLimiter.BoundIsReached`).
- If the server answers a CSRF-token request of the refresh call with a 401, the refresh waits for its own
  promise for ever, and so does every later call that meets a 401; the error of a failed request interceptor
  reaches the response interceptor with the token fetch's configuration. That is the only deadlock, and it can
  happen exactly when the server may give that answer (`ApiClient.NoDeadlockExactly`, `ApiClient.SomeRunDeadlocksExactly`).
- When the local clock comes back to the time of the last backup (the end of summer time), a matching tick is
  skipped; when another backup lies between, the same wall-clock time starts two (`BackupScheduler.RepeatedTimeIsSkipped`,
  `BackupScheduler.WallClockStartsOnceExactly`).
- OIDC admin groups can take the last administrator away (`AuthLifecycle.ActiveAdminForeverExactly`).
- Two unrevoked links of a drawing let access rise with time (`Sharing.TwoLinksCanRaiseAccess`), and two overlapping
  requests to replace a drawing's link leave two, since revoking and inserting are separate statements. Without
  such an overlap there is at most one (`LinkRoutes.OneLinkExactly`), and only then does the end of a link end
  link editing (`LinkRoutes.EditingEndsExactly`).
- Guesses at the setup code that overlap are all compared before they are counted, so n at once exceed the limit by
  n - 1 (`SetupCodeRace.ConcurrentBoundIsReached`).
- With authentication off a socket can leave a presence entry behind (`CollabSafety.BootstrapSocketCanLinger`).
- An update that moves, resizes or revives an element is outside the no-overlap guarantee
  (`Placement.UpdateKeepsApartExactly`).
- A login reset misses counters of identifiers that were cut to 255 characters, and counters whose key was pushed out
  of the index, as by fifty-one addresses (`LoginIndex.ResetClearsCounterExactly`).
- Image uploads are repeated on every save when the public URL with the key's beginning opens a data URL, with a media
  type and `;base64,` (`FileProcessing.IdempotentExactly`).

## Model

| member | source | states |
|---|---|---|
| `RefreshRotation.ExchangedAtMostOnce` | backend/src/auth/coreRoutes.ts:21-22 | Under any interleaving of requests, logins and logouts a refresh-token row has at most one successor, and no successor serves two rows |
| `RefreshRotation.TokenExchangedAtMostOnce` | backend/src/auth/tokenSecurity.ts:3-11 | A raw refresh token, presented however often and concurrently, is exchanged at most once |
| `RefreshRotation.ExchangesAreTimely` | backend/src/auth/coreRoutes.ts:20-22 | In every run each exchange was made for a token of the row's user, who was active when the request began, on a row that had not expired when read; the successor lasts as long as the commit said |
| `RefreshRotation.OneUnrevokedRowPerChain` | backend/src/auth/coreRoutes.ts:19-22 | Every chain that starts at a login has at most one unrevoked row at every moment |
| `RefreshRotation.RevokedStaysRevoked` | backend/src/auth/coreRoutes.ts:21-24 | From any state that keeps the invariant, no event sequence makes a revoked row live again or changes whose it is |
| `RefreshRotation.LogoutKillsChains` | backend/src/auth/coreRoutes.ts:24 | After a logout no row of a chain that existed then is ever live again, even for requests already past their read |
| `RefreshRotation.LiveTokenIsExchanged` | backend/src/auth/coreRoutes.ts:21-22 | In every reachable state an undisturbed refresh of a live, unexpired row of an active user ends with a live successor of the same user and chain |
| `RefreshRotation.StepKeepsInv` | backend/src/auth/coreRoutes.ts:19-24 | Each event keeps: one live row per chain, exchanges that pair a revoked row with a younger one of the same user and chain, and requests that hold rows of their user |
| `RefreshRotation.RefreshTokenStore.CommitRotation` | backend/src/auth/coreRoutes.ts:22 | Revokes the row and inserts its successor together when the row was still unrevoked and the token is new, and otherwise changes no row |
| `RefreshRotation.RefreshTokenStore.IssueToken` | backend/src/auth/coreRoutes.ts:19 | A login adds exactly one live row, stored under the token's hash, for an active user |
| `RefreshRotation.RefreshTokenStore.BeginRefresh` | backend/src/auth/coreRoutes.ts:20-21 | A request goes on exactly for a verified refresh token of an active user |
| `RefreshRotation.RefreshTokenStore.ReadStoredToken` | backend/src/auth/coreRoutes.ts:21-22 | The possibly stale read answers 200 exactly when it found an unrevoked row of the token's user that has not expired, and 401 otherwise |
| `RefreshRotation.RefreshTokenStore.RevokeUser` | backend/src/auth/coreRoutes.ts:24 | Revokes every row of the user and no other |
| `AuthLifecycle.AuthEnabledIsStored` | backend/src/auth/authMode.ts:45-70 | However old the cache, the mode `requireAuth` decides by is the stored one, and asking keeps the cache in agreement |
| `AuthEffects.CacheIsFresh` | backend/src/auth/authMode.ts:45-70 | Asking leaves an answer no older than the cache's time to live, and asks the row only when there was none such |
| `AuthLifecycle.AdminGateAdmitsActiveAdmins` | backend/src/middleware/auth.ts:14-17 | Whoever passes the admin gate is an active administrator in the state it leaves |
| `AuthLifecycle.LastAdminNeverFires` | backend/src/auth/adminUserRoutes.ts:31-53 | The guard against removing the last active administrator is never the answer, because the actor is active, counts, and is not the target |
| `AuthLifecycle.LastAdminUnreachable` | backend/src/auth/adminUserRoutes.ts:233-284 | In no reachable state does any request meet that guard |
| `AuthLifecycle.StepIsGood` | backend/src/auth/adminUserRoutes.ts:11-77 | Each route keeps an active user if there was one, counts a bootstrap only when there was none, and keeps an active administrator when no groups are configured |
| `AuthLifecycle.ActiveUserForever` | backend/src/auth/adminUserRoutes.ts:213-310 | Once an active user exists there is always one |
| `AuthLifecycle.BootstrapAtMostOnce` | backend/src/auth/coreRoutes.ts:9-14 | The bootstrap branch of `/register` succeeds at most once in any run |
| `AuthLifecycle.BootstrapHappens` | backend/src/auth/coreRoutes.ts:9-14 | On a fresh installation, choosing authentication and registering in time with the code issued then makes the bootstrap account an active administrator |
| `AuthLifecycle.ActiveAdminForever` | backend/src/auth/adminUserRoutes.ts:213-343 | With OIDC admin groups unset, no run leaves zero active administrators once there was one |
| `AuthLifecycle.ActiveAdminForeverExactly` | backend/src/middleware/auth.ts:13-14 | Every run keeps an active administrator once it has one exactly when no OIDC admin groups are configured, in every mode (given at least one setup-code attempt, as the configuration ensures) |
| `AuthLifecycle.GroupsCanRemoveTheLastAdmin` | backend/src/middleware/auth.ts:13-14 | With any groups set, some run from a fresh installation gains an administrator and loses the last one to a token without the groups |
| `AuthEffects.RequireAuthExactly` | backend/src/middleware/auth.ts:14-16 | With authentication on, a request acts exactly as the active account of its token, or of its API key where a scope covers the route, and while a reset is due only on the password's own routes |
| `AuthEffects.RequireAuthTouches` | backend/src/middleware/auth.ts:13-14 | Asking changes no account but the actor's role, to what the groups say where they count |
| `AuthEffects.OffMeansBootstrap` | backend/src/middleware/auth.ts:14 | With authentication off everybody acts as the bootstrap account |
| `AuthEffects.GateExactly` | backend/src/auth/adminUserRoutes.ts:11-31 | An admin route goes on exactly for an administrator's token with CSRF token and valid body, and changes at most the actor's role before |
| `AuthEffects.RoleUpdateExactly` | backend/src/auth/adminUserRoutes.ts:11-77 | When a role update succeeds, and that it sets the role of the target and of nobody else |
| `AuthEffects.CreationExactly` | backend/src/auth/adminUserRoutes.ts:107-212 | When user creation succeeds, and that it adds exactly the account as given |
| `AuthEffects.PatchExactly` | backend/src/auth/adminUserRoutes.ts:213-343 | When a PATCH succeeds, and that it stores exactly the fields it names |
| `AuthEffects.ResetExactly` | backend/src/auth/adminUserPasswordRoutes.ts:8-103 | When a password reset succeeds, and that the account ends active and due for a reset |
| `AuthEffects.RegistrationSwitchExactly` | backend/src/auth/adminSettingsRoutes.ts:9-48 | The switch stores the choice and touches no other setting |
| `AuthEffects.RegistrationExactly` | backend/src/auth/coreRoutes.ts:7-15 | An ordinary registration succeeds exactly when open, and adds one active USER; the bootstrap makes the bootstrap account an active ADMIN after the right code; nothing else changes an account |
| `AuthEffects.OnboardingExactly` | backend/src/auth/coreRoutes.ts:29-31 | The onboarding choice succeeds exactly once, before anybody is active, and stores what was chosen |
| `AuthEffects.ToggleExactly` | backend/src/auth/coreRoutes.ts:31-40 | The toggle stores the mode it is given, for exactly those who may |
| `AuthEffects.SignInExactly` | backend/src/auth/oidcCallbackRoute.ts:197-290 | When a provider sign-in succeeds, the account it creates, and the role it leaves |
| `AuthEffects.IssueExactly` | backend/src/auth/bootstrapSetupCode.ts:94-127 | A setup code is issued exactly while the first administrator is awaited, with its digest, end and a zero counter |
| `AuthEffects.VerdictExactly` | backend/src/auth/bootstrapSetupCode.ts:135-192 | Each verdict on a guess, exactly, and what it leaves |
| `AuthEffects.AdminsComeAbout` | backend/src/auth/coreRoutes.ts:7-15 | Whoever is an active administrator after a request and was not before owes it to the bootstrap code, the provider's groups or first-user rule, or an administrator's route |
| `AuthEffects.EveryAdminWasMade` | backend/src/auth/adminUserRoutes.ts:11-343 | Over every run an active administrator was made one by such a request |
| `SetupCode.SetupCodeGuessesBounded` | backend/src/auth/bootstrapSetupCode.ts:107-191 | In any run at most `maxAttempts` guesses are compared with an issued code, none after the right one and none after it expired |
| `SetupCode.SetupCodeAcceptedExactly` | backend/src/auth/bootstrapSetupCode.ts:151-191 | In every reachable state a guess at the stored code is accepted exactly when it is right, in time, and fewer than `maxAttempts` guesses at that code were compared |
| `SetupCodeRace.ConcurrentGuessesBounded` | backend/src/auth/bootstrapSetupCode.ts:139-191 | With at most n guesses at once, read and write-back apart, at most `maxAttempts` + n - 1 are compared with any issued code, and at most n of them find it right |
| `SetupCodeRace.ConcurrentBoundIsReached` | backend/src/auth/bootstrapSetupCode.ts:139-191 | Both bounds are met for every `maxAttempts` and every n |
| `AuthService.Service.GetAuthEnabled` | backend/src/auth/authMode.ts:45-70 | Answers and fills the cache as specified |
| `AuthService.Service.RequireAuth` | backend/src/middleware/auth.ts:13-16 | Resolves who acts: the bootstrap account when authentication is off, an API key's active user on routes its scopes cover, a token's active user with its role reconciled; refused while a reset is due except on the password's own routes |
| `AuthService.Service.IssueSetupCode` | backend/src/auth/bootstrapSetupCode.ts:94-127 | Stores a fresh hash, its expiry and a zero counter when a code is required, and changes nothing else |
| `AuthService.Service.VerifySetupCode` | backend/src/auth/bootstrapSetupCode.ts:135-192 | The verdict, the counter and the removal of a used code, in the order the checks are made |
| `AuthService.Service.Register` | backend/src/auth/coreRoutes.ts:7-15 | Response and new state of `/register`, with its bootstrap branch |
| `AuthService.Service.ChooseOnboarding` | backend/src/auth/coreRoutes.ts:29-31 | Response and new state of `/onboarding-choice` |
| `AuthService.Service.ToggleAuth` | backend/src/auth/coreRoutes.ts:31-40 | Response and new state of `/auth-enabled` |
| `AuthService.Service.ChangeRole` | backend/src/auth/adminUserRoutes.ts:11-77 | Response and new user table of the role update |
| `AuthService.Service.AddUser` | backend/src/auth/adminUserRoutes.ts:107-212 | Response and new user table of user creation |
| `AuthService.Service.ApplyPatch` | backend/src/auth/adminUserRoutes.ts:213-343 | Response and new user table of the user PATCH |
| `AuthService.Service.ResetUserPassword` | backend/src/auth/adminUserPasswordRoutes.ts:8-103 | On success the account must reset and is active, all its refresh rows are revoked and its login counters reset; otherwise neither store changes |
| `AuthService.Service.ResolveOidcUser` | backend/src/auth/oidcCallbackRoute.ts:197-290 | The user an OIDC sign-in resolves to or creates, and its role by groups |
| `AuthService.Service.Serve` | backend/src/auth/adminUserRoutes.ts:11-343 | Any request: the machine's answer and state, the invariants of all runs kept, and never the answer that the last administrator would be lost |
| `Placement.InsertionsNeverOverlap` | frontend/src/copilot/tools.ts:81-148 | After any run of insertions, deletions, selections and harmless updates no visible element overlaps a visible element of another insertion |
| `Placement.GroupIsClear` | frontend/src/copilot/tools.ts:81-132 | The placed group's bounds overlap no existing element, and keep the padding if the group had to move |
| `Placement.PlacedElementsAreClear` | frontend/src/copilot/tools.ts:62-132 | No single placed element overlaps a visible one |
| `Placement.FirstFallbackIsFree` | frontend/src/copilot/tools.ts:113-131 | To the right of the whole scene there is always room, so the search for a spot never fails |
| `Placement.FirstFreeIsFirst` | frontend/src/copilot/tools.ts:101-131 | The search takes the first candidate that does not collide, and reports none only when all do |
| `Placement.MovedGroupLies` | frontend/src/copilot/tools.ts:101-131 | A group that has to move keeps its size and comes to the first of the four points, 120 beside the anchor, at which it keeps 40 from everything, else 120 right of the scene; the anchor is the hull of the selection, else of what is in view, else the viewport |
| `Placement.HullIsUnique` | frontend/src/copilot/tools.ts:101-108 | A set of elements has one hull, so that place is determined |
| `Placement.InsertionIsExact` | frontend/src/copilot/tools.ts:134-148 | An insertion appends the group, moved as one, and selects exactly it |
| `Placement.DeletionIsExact` | frontend/src/copilot/tools.ts:260-273 | A deletion marks exactly the visible named elements and changes nothing else |
| `Placement.UpdateIsExact` | frontend/src/copilot/tools.ts:234-248 | An update changes exactly the named elements, in exactly what it gives |
| `Placement.PlacementIsRigid` | frontend/src/copilot/tools.ts:72-80 | All elements move by one vector and nothing else about them changes |
| `Placement.CommonBoundsMove` | frontend/src/copilot/tools.ts:72-80 | The min/max fold over the group moves by that same vector |
| `Placement.OpenGroupStaysAndEmptyBoardCentres` | frontend/src/copilot/tools.ts:81-100 | A group in the open stays where it is, and on an empty board it is centred in the viewport |
| `Placement.UpdateKeepsApartExactly` | frontend/src/copilot/tools.ts:234-248 | An update keeps insertions apart on every scene and for every id exactly when it deletes, or sets neither position, box nor deletion |
| `Placement.UpdateCanOverlap` | frontend/src/copilot/tools.ts:234-248 | Any other update puts an element onto another insertion's on some scene |
| `Placement.Board.InsertCreated` | frontend/src/copilot/tools.ts:134-148 | Appends the placed group to the scene |
| `Placement.Board.DeleteElements` | frontend/src/copilot/tools.ts:260-273 | Marks exactly the visible named elements deleted and answers how many |
| `Placement.Board.UpdateElement` | frontend/src/copilot/tools.ts:234-248 | Changes the given properties of the named visible element only, and answers whether it was found |
| `Sharing.UserAccessExactly` | backend/src/authz/sharing.ts:121-199 | Which signed-in users own, may edit and may view a drawing, read from the tables: owner, valid grant, collection without one, newest usable link |
| `Sharing.VisitorAccessExactly` | backend/src/authz/sharing.ts:189-244 | An anonymous visitor edits or views exactly by the newest usable link and never owns |
| `Sharing.ResolveDrawingAccess` | backend/src/authz/sharing.ts:121-199 | The access decision branch by branch: owner, direct grant, collection owner or share, and at least what the link policy gives |
| `LinkRoutes.OneLinkExactly` | backend/src/routes/dashboard/drawingSharingRoutes.ts:298-325 | Revoking and inserting being two statements, a drawing has at most one unrevoked link at every moment, however half-done requests finish, exactly when no two requests to replace its link overlap |
| `LinkRoutes.EditingEndsExactly` | backend/src/routes/dashboard/drawingSharingRoutes.ts:298-364 | Under exactly that condition the expiry, and the revocation, of a link ends link editing of its drawing |
| `LinkRoutes.StatementsExactly` | backend/src/routes/dashboard/drawingSharingRoutes.ts:298-364 | What each statement does to the table: revoke the drawing's own links, add the link as given, revoke one |
| `Sharing.LinkAccessNeverRises` | backend/src/authz/sharing.ts:213-244 | With at most one unrevoked link the link policy only weakens as time passes |
| `Sharing.AccessNeverRises` | backend/src/authz/sharing.ts:121-244 | In an otherwise fixed database with at most one unrevoked link of the drawing nobody's access rises as time passes |
| `Sharing.TwoLinksCanRaiseAccess` | backend/src/authz/sharing.ts:213-244 | With two unrevoked links it can: an expiring view link uncovers an edit link |
| `CollabSafety.LostGrantStopsEdits` | backend/src/server/socket.ts:124-150 | If a socket's only possible edit grant is gone at T, none of its element updates is relayed at or after T + 1500 ms, until it is granted editing again |
| `CollabSafety.EditsStopWithinTtl` | backend/src/server/socket.ts:246-261 | Whatever the database does, once it stops letting a socket edit, its relayed edits stop within the cache's time to live |
| `CollabSafety.GrantActsWithinTtl` | backend/src/server/socket.ts:124-150 | Once the database has let a joined socket edit since T, its element updates are relayed from T + 1500 ms on |
| `CollabSafety.LostGrantStaysLost` | backend/src/authz/sharing.ts:121-244 | Nothing but a new grant brings a lost link permission back |
| `CollabSafety.ExpiryEndsLinkEditing` | backend/src/authz/sharing.ts:213-244 | In every state reached without overlapping requests to replace the drawing's link, an expired link leaves no editing link of its drawing active |
| `CollabSafety.RevocationEndsLinkEditing` | backend/src/routes/dashboard/drawingSharingRoutes.ts:361-364 | In every such state a revoked link leaves no editing link of its drawing active |
| `CollabSafety.UserIdsDistinct` | backend/src/server/socket.ts:174-206 | From any state with distinct user ids per room, every run keeps them distinct |
| `CollabSafety.OneEntryPerSocket` | backend/src/server/socket.ts:174-244 | An anonymous or existing-account socket has at most one entry per room, and every cursor relayed for it carries its own identity |
| `CollabSafety.DisconnectClearsExactly` | backend/src/server/socket.ts:281-291 | A disconnect clears the socket from every room exactly when no room held it twice |
| `CollabSafety.DisconnectTouchesNoOther` | backend/src/server/socket.ts:281-291 | A disconnect leaves every other socket's state and entries as they were |
| `CollabSafety.DisconnectedStaysGone` | backend/src/server/socket.ts:281-291 | After such a socket's disconnect no room ever mentions it again |
| `CollabSafety.BootstrapSocketCanLinger` | backend/src/server/socket.ts:152-206 | With authentication off, joining under any two different presence ids leaves an entry behind after the disconnect |
| `CollabSafety.CheckExactly` | backend/src/server/socket.ts:130-150 | Cached access answers for less than 1500 ms, then a fresh one is cached or dropped; other drawings' entries stay |
| `CollabSafety.JoinExactly` | backend/src/server/socket.ts:152-225 | A join by a socket with access shows it under its trusted identity and removes only that id's old entries; without access it shows nothing |
| `CollabSafety.PresenceExactly` | backend/src/server/socket.ts:37-61 | Names are trimmed, cut to 120 and never empty; colours are hexadecimal or the default |
| `CollabSafety.CursorExactly` | backend/src/server/socket.ts:227-244 | A cursor is relayed exactly for a joined socket with an entry, under that entry's identity |
| `CollabSafety.UpdateExactly` | backend/src/server/socket.ts:246-261 | An element update is relayed exactly for a joined socket whose checked access lets it edit |
| `CollabSafety.ActivityExactly` | backend/src/server/socket.ts:263-279 | An activity report sets the flag of the socket's own entry and nothing else |
| `CollabServer.Server.GetCachedOrFreshAccess` | backend/src/server/socket.ts:130-150 | Answers from the cache while it is younger than 1500 ms, else asks again and stores or drops the answer |
| `CollabServer.Server.OnJoinRoom` | backend/src/server/socket.ts:152-225 | For sockets that may view: replaces entries of the same user id by the new entry, its id, name and colour trusted, trimmed and cut as the server does |
| `CollabServer.Server.OnElementUpdate` | backend/src/server/socket.ts:246-261 | Relays only for sockets in the room that may edit |
| `CollabServer.Server.OnDisconnect` | backend/src/server/socket.ts:281-291 | Removes the socket's first entry of every room, and the socket |
| `CsrfLimiter.SlidingBound` | backend/src/server/csrf.ts:111-130 | In every half-open 60-second interval of every run an address is issued at most 2 * max - 1 tokens, and at most max in one window |
| `CsrfLimiter.BoundIsReached` | backend/src/server/csrf.ts:111-130 | For every positive limit a run issues 2 * max - 1 tokens in one interval |
| `CsrfLimiter.AdmittedExactly` | backend/src/server/csrf.ts:114-130 | After any run a request gets one token, for its address and time, unless that address has had `max` in a window that is not over |
| `CsrfLimiter.SweepsAreInvisible` | backend/src/server/csrf.ts:131-136 | With a nondecreasing clock the limiter issues exactly the tokens it would issue without sweeping |
| `CsrfLimiter.SweepExactly` | backend/src/server/csrf.ts:131-136 | Every hundredth token drops exactly the windows that are over |
| `CsrfLimiter.Limiter.HandleTokenRequest` | backend/src/server/csrf.ts:114-136 | One request, with the sweep on every hundredth token |
| `CsrfLimiter.Limiter.Sweep` | backend/src/server/csrf.ts:133-135 | Deletes exactly the entries whose window is over |
| `DrawingsCache.KeysAgreeExactly` | backend/src/server/drawingsCache.ts:15-23 | Two requests share a key exactly when all key parts agree, whatever characters they contain |
| `DrawingsCache.EntriesAreLastStored` | backend/src/server/drawingsCache.ts:25-55 | In every run an entry is the body last stored under equal key parts since the last invalidation; a missing entry was never stored or has expired |
| `DrawingsCache.HitsAreExact` | backend/src/server/drawingsCache.ts:25-55 | A lookup returns exactly that body if it is at most `ttlMs` old, and misses otherwise |
| `DrawingsCache.SweepsAreInvisible` | backend/src/server/drawingsCache.ts:48-55 | Sweeping changes no answer |
| `DrawingsCache.ExpiredEntriesLeave` | backend/src/server/drawingsCache.ts:25-55 | A lookup drops its own entry when expired, a sweep every expired entry, and neither another |
| `DrawingsCache.DrawingsCacheStore.GetCachedDrawingsBody` | backend/src/server/drawingsCache.ts:25-33 | Answers an unexpired entry and deletes an expired one |
| `DrawingsCache.DrawingsCacheStore.SweepExpired` | backend/src/server/drawingsCache.ts:48-55 | Deletes exactly the expired entries |
| `LoginIndex.IndexIsBounded` | backend/src/auth.ts:18-21 | In every reachable state the index holds at most 5000 identifiers with 1 to 50 keys each, and an attempt's key is in it |
| `LoginIndex.ResetClearsExactly` | backend/src/auth.ts:24-26 | While nothing has been evicted a reset clears every counter of the identifier and no other |
| `LoginIndex.ResetForgetsExactly` | backend/src/auth.ts:24-26 | A reset forgets the identifier and leaves the rest of the index |
| `LoginIndex.ResetReachesAttemptsExactly` | backend/src/auth.ts:14-26 | In every reachable state without eviction, a reset under the raw identifier clears all counters of the attempts made under it exactly when it has at most 255 characters |
| `LoginIndex.ResetClearsCounterExactly` | backend/src/auth.ts:14-26 | In every reachable state whatsoever, it clears a counter exactly when also the counter's key has not been pushed out, as the oldest of a full set or of a full index, since it was last tracked |
| `LoginIndex.FiftyOneAddressesOutliveReset` | backend/src/auth.ts:18-26 | Attempts at one identifier from any fifty-one addresses leave the first one's counter after a reset |
| `LoginIndex.FiftyAddressesAreCleared` | backend/src/auth.ts:18-26 | From any fifty addresses a reset clears everything |
| `LoginIndex.AttemptCountsExactly` | backend/src/auth.ts:19-21 | An attempt raises exactly its own counter, by one |
| `LoginIndex.LoginLimiter.TrackIdentifierRateLimitKey` | backend/src/auth.ts:18-20 | Evicts the oldest identifier or key when full and adds the key |
| `Semver.AcceptsExactly` | backend/src/utils/semver.ts:9-28 | A version parses exactly when its trimmed text is in the language of the pattern, and then to the one set of groups that spells it |
| `Semver.PrintRoundTrip` | backend/src/utils/semver.ts:12-28 | Parsing a printed version gives it back |
| `Semver.ParseRoundTrip` | backend/src/utils/semver.ts:12-28 | Printing a parsed version gives its trimmed text back, without the leading v |
| `Semver.CompareIsTotalPreorder` | backend/src/utils/semver.ts:32-69 | The comparison answers -1, 0 or 1, is antisymmetric in sign, and transitive |
| `Semver.AgreesWithPrecedence` | backend/src/utils/semver.ts:32-69 | It answers lower and higher exactly as section 11 of Semantic Versioning 2.0.0 defines precedence |
| `Semver.ZeroExactly` | backend/src/utils/semver.ts:32-69 | It answers 0 exactly when the versions are equal up to leading zeros of numeric prerelease identifiers |
| `Semver.CompareSemver` | backend/src/utils/semver.ts:32-69 | The index loop with its early returns computes that comparison |
| `Semver.IsSemverGreater` | backend/src/utils/semver.ts:71-76 | Null unless both versions parse, else whether the first has higher precedence |
| `Base64Url.EncodeIs` | backend/src/security.ts:122-126 | The encoding is unpadded, of the length the input gives, and in the URL-safe alphabet of section 5 of RFC 4648 |
| `Base64Url.DecodeEncode` | backend/src/security.ts:122-126 | Decoding undoes encoding for every byte sequence |
| `Base64Url.AlphabetRuns` | backend/src/security.ts:122-126 | The alphabet is that of section 4 of RFC 4648 in its order |
| `Base64Url.QuadHasTheBits` | backend/src/security.ts:122-126 | Four characters stand for the twenty-four bits of three bytes, highest first |
| `SignedTokens.TokenValidatesExactly` | backend/src/security.ts:126-131 | Whoever presents it, a CSRF token validates exactly from 5 minutes before to 24 hours after its time stamp, while it fits the length limit, and if HMAC signs its payload for that client as for its own |
| `SignedTokens.TokenBelongsToItsClient` | backend/src/security.ts:126-131 | So exactly for its own client, unless HMAC collides on the two signed strings |
| `SignedTokens.SignatureFitsItsPayloadOnly` | backend/src/security.ts:126-131 | A signature put beside any payload validates only for the client and the payload it was made for, unless HMAC collides, for one client or for ids without a bar |
| `SignedTokens.AcceptedTokensAreSigned` | backend/src/security.ts:130-131 | A token of whatever origin validates exactly when it carries a payload in time with a long enough nonce and that payload's signature for the client |
| `SignedTokens.BarsCanCoincide` | backend/src/security.ts:126-128 | With a bar in a client id two clients can share a signed string |
| `SignedTokens.LawsCanBeMet` | backend/src/security.ts:126-131 | The laws assumed of JSON and HMAC can be met |
| `SignedTokens.SanitizeReturnsLocalPaths` | backend/src/auth/oidcRouteHelpers.ts:110-118 | Every result is a local path, local paths are exactly the fixed points, and cleaning is idempotent |
| `SignedTokens.SanitizeExactly` | backend/src/auth/oidcRouteHelpers.ts:110-118 | A local path is kept, trimmed; anything else becomes the root |
| `SignedTokens.FlowRoundTrip` | backend/src/auth/oidcRouteHelpers.ts:135-185 | A flow cookie decodes exactly until it expires and under a key that signs it alike, and to the encoded payload exactly when its return path is local |
| `SignedTokens.DecodedCookiesAreSigned` | backend/src/auth/oidcRouteHelpers.ts:149-185 | Nothing decodes but a payload signed under the key and not expired |
| `Cron.ParseCronField` | backend/src/backups/scheduler.ts:35-75 | The token loop terminates with the union of the tokens' progressions, or the first token's error, or the empty-field error |
| `Cron.AddRange` | backend/src/backups/scheduler.ts:37-40 | Adds exactly the values of the arithmetic progression |
| `Cron.FieldDenotesUnion` | backend/src/backups/scheduler.ts:35-75 | A field parses exactly when every token does and some value results; it denotes exactly the union, all within the field's range |
| `Cron.RangeMeans` | backend/src/backups/scheduler.ts:55-64 | A range of two decimal numerals parses exactly when min <= a <= b <= max, to that range |
| `Cron.StepTokensMean` | backend/src/backups/scheduler.ts:46-71 | What a step means after a range, after `*`, and (checked but ignored) after a single value; a zero step is refused |
| `Cron.PlainTokensMean` | backend/src/backups/scheduler.ts:46-71 | What tokens without a step mean |
| `Cron.OddTokensAreRefused` | backend/src/backups/scheduler.ts:66-69 | A token that is no numeral, range or star is refused |
| `Cron.ListRoundTrip` | backend/src/backups/scheduler.ts:42-75 | Printing any non-empty set of values of the range as a comma list and parsing it returns that set |
| `Cron.FiveFieldsAsSix` | backend/src/backups/scheduler.ts:77-92 | A five-field schedule means what it means with 0 written in front |
| `Cron.FiveFieldsMatchAtSecondZero` | backend/src/backups/scheduler.ts:77-104 | It matches only in the first second of a minute |
| `Cron.PrintedScheduleMatches` | backend/src/backups/scheduler.ts:77-104 | A printed six-field expression matches exactly the times whose second, minute, hour, day, month and weekday are listed in that order, Sunday being 0 or 7 |
| `BackupScheduler.RunKeyExactly` | backend/src/backups/scheduler.ts:167 | Run keys differ exactly when one of the six numbers differs |
| `BackupScheduler.OneBackupAtATime` | backend/src/backups/scheduler.ts:162-178 | For a nondecreasing clock at most one backup is in progress, and the seconds that start one strictly increase |
| `BackupScheduler.TickStartsExactly` | backend/src/backups/scheduler.ts:164-178 | After any run a tick starts a backup exactly when the schedule matches, none runs, and the last start showed another wall-clock time |
| `BackupScheduler.NewSecondStarts` | backend/src/backups/scheduler.ts:164-178 | Where wall-clock times do not repeat, a matching tick with none running starts a backup in every second that has not started one |
| `BackupScheduler.WallClockStartsOnceExactly` | backend/src/backups/scheduler.ts:167-170 | Each wall-clock time starts at most one backup on every run of every schedule exactly where the local clock does not come back to a time it has left |
| `BackupScheduler.RepeatedTimeIsSkipped` | backend/src/backups/scheduler.ts:167-168 | A matching tick that shows the last start's wall-clock time again is skipped although its second is new |
| `BackupScheduler.Scheduler.Tick` | backend/src/backups/scheduler.ts:164-171 | One tick: starts a backup or leaves everything as it was |
| `ApiClient.CallsAreBounded` | frontend/src/api/auth.ts:307-373 | Whatever the server answers, a call's request is sent at most four times, at most twice to an auth route, and a token request at most three times in its place |
| `ApiClient.FourSendsHappen` | frontend/src/api/auth.ts:324-371 | The bound of four is met by a run whose fourth sending succeeds: mode retry, refresh, CSRF retry |
| `ApiClient.ResolvedExactly` | frontend/src/api/auth.ts:307-373 | In every run a call, a refresh too, is resolved exactly when one of its requests was answered with success; any other call that is over was rejected |
| `ApiClient.ResolvesExactly` | frontend/src/api/auth.ts:307-373 | The event that resolves a call is exactly a success reply to it |
| `ApiClient.RefreshDecides` | frontend/src/api/auth.ts:340-350 | A call that waited for a refresh is sent again exactly when the refresh was answered with success, and otherwise redirected |
| `ApiClient.ReplyMeans` | frontend/src/api/auth.ts:307-372 | What each answer to a request does to the call and to the token held |
| `ApiClient.ProbeMeans` | frontend/src/api/auth.ts:324-357 | What the answer about the mode does to a call refused with a 401: reject, send again, wait for the refresh, or redirect |
| `ApiClient.WaitMeans` | frontend/src/api/auth.ts:340-371 | What follows a refresh, a retry's own token fetch and a redirect |
| `ApiClient.TokenWaitMeans` | frontend/src/api/auth.ts:291-305 | A call whose shared token fetch failed fares as if that had been its answer |
| `ApiClient.BeginMeans` | frontend/src/api/auth.ts:291-305 | A new call goes out at once unless it needs a token and none is held; then it waits for the one fetch in flight |
| `ApiClient.TokenReplyMeans` | frontend/src/api/auth.ts:219-225 | The shared fetch settles once and yields the token exactly on success |
| `ApiClient.OneRefreshInFlight` | frontend/src/api/auth.ts:281-286 | For any number of concurrent 401s at most one refresh is in flight, and at most one shared token fetch |
| `ApiClient.RefreshStartsNoCall` | frontend/src/api/auth.ts:324-350 | Nothing that happens to a refresh starts another call, so none triggers another refresh |
| `ApiClient.EventsAdvance` | frontend/src/api/auth.ts:291-373 | Each event of a call strictly lowers its measure (unset marks and phase) and moves no other call |
| `ApiClient.MovesAreBounded` | frontend/src/api/auth.ts:291-373 | A call is over after at most seventy events of its own, however the other calls go |
| `ApiClient.NoDeadlockExactly` | frontend/src/api/auth.ts:281-286 | In every reachable state some event can move each unfinished call, or the refresh it waits for, exactly when no refresh waits for itself |
| `ApiClient.SelfWaitIsForever` | frontend/src/api/auth.ts:281-286 | A refresh that waits for itself does so for ever and stays the one that later calls join |
| `ApiClient.SomeRunDeadlocksExactly` | frontend/src/api/auth.ts:219-225 | Some run deadlocks exactly when the server may answer a token request with a 401 |
| `ApiInterceptors.Client.InterceptRequest` | frontend/src/api/auth.ts:291-305 | Sends, or waits for the shared token fetch and starts it when there is none |
| `ApiInterceptors.Client.RefreshAccessToken` | frontend/src/api/auth.ts:281-286 | Joins the refresh in flight or starts one |
| `ApiInterceptors.Client.OnResponse` | frontend/src/api/auth.ts:307-373 | The response interceptor up to its first await, marks and token included |
| `ApiInterceptors.Client.OnAuthStatus` | frontend/src/api/auth.ts:324-357 | The rest of the 401 branch: reject, retry for the auth mode, refresh, or redirect |
| `ApiInterceptors.Client.OnPromise` | frontend/src/api/auth.ts:291-350 | What a call does when the promise it awaits has settled |
| `ApiInterceptors.Client.Deliver` | frontend/src/api/auth.ts:291-373 | Any event: the machine's step, its invariant kept, and no request sent a fifth time |
| `FileProcessing.CompletionOrderIsInvisible` | backend/src/fileProcessing.ts:73-124 | Every completion order ends with the same record, rows and objects, each image uploaded once and nothing else |
| `FileProcessing.NothingDangles` | backend/src/fileProcessing.ts:97-114 | At every moment, whatever failed, a row written by the call names an object with that image, and an entry points at its URL only once its row is there |
| `FileProcessing.AtMostEightInFlight` | backend/src/fileProcessing.ts:73-122 | No more than eight entries are ever under way |
| `FileProcessing.NeverStuck` | backend/src/fileProcessing.ts:117-124 | While nothing has failed there is a next step until every entry is done |
| `FileProcessing.RunsEnd` | backend/src/fileProcessing.ts:117-124 | Every run has at most five steps an entry |
| `FileProcessing.ResultKeepsValidIds` | backend/src/fileProcessing.ts:75-115 | The record keeps exactly the entries with valid ids, and of those replaces exactly the data URLs |
| `FileProcessing.IdempotentExactly` | backend/src/fileProcessing.ts:85-103 | A second pass keeps the record and uploads nothing, for every record, exactly when the common beginning of the drawing's access URLs does not open a data URL |
| `FileProcessing.SecondPassDoesNothing` | backend/src/fileProcessing.ts:85-92 | Under that condition, for each record |
| `FileProcessing.UploadedAgainExactly` | backend/src/fileProcessing.ts:85-103 | If that beginning opens a data URL every image is uploaded again, and otherwise none |
| `FileProcessing.OrdinaryUrlsDoNotOpen` | backend/src/s3.ts:149-159 | It opens none unless the configured public URL starts with data: |
| `FileProcessing.AccessUrlIsDataExactly` | backend/src/s3.ts:149-159 | Access URLs start with data: exactly when the configured public URL does |
| `FileProcessing.AccessUrlExactly` | backend/src/s3.ts:149-159 | An access URL is the public URL, less one slash at its end, and the key, or the local path of drawing and file |
| `FileProcessing.KeysAreDistinct` | backend/src/s3.ts:46-51 | Different valid ids never share an object key |
| `FileProcessing.KeysAreDistinctAcrossDrawings` | backend/src/s3.ts:38-51 | Nor do different users or drawings, where ids have no slash |
| `FileProcessing.RowsExactly` | backend/src/fileProcessing.ts:94-112 | A completed call leaves for each image a row with its key, media type and first owner beside an object with the decoded bytes, and touches no other row |
| `FileProcessing.ExtensionsExactly` | backend/src/fileProcessing.ts:20-28 | The extension of each known image type and of no other |
| `FileProcessing.MatchesExactly` | backend/src/fileProcessing.ts:33-49 | A string matches with given groups exactly when it is spelled from them as the pattern says |
| `FileProcessing.Processor.ProcessFilesForS3` | backend/src/fileProcessing.ts:57-125 | Unchanged when S3 is off; else the final record and tables for whatever order and, on a rejection, a reachable state of the machine |
| `FileProcessing.Processor.ProcessBatch` | backend/src/fileProcessing.ts:117-122 | A batch ends with all its entries done, or with the first rejection |

## Left out

- JSON Web Tokens, bcrypt, scrypt, HMAC and SHA-256 are uninterpreted functions; a lemma that needs two particular strings not to collide, or that no stored hash verifies as a token, says so in its `requires`. Random ids and tokens are parameters.
- Prisma, Express, socket.io, S3 and SQLite: tables are maps or sequences, emits and uploads are logs. What a database lookup finds is a parameter.
- The routes run serially in `AuthState`; `/refresh`, the guesses at the setup code and the replacement of a link are split at their awaits in `RefreshRotation`, `SetupCodeRace` and `LinkRoutes`. Handlers of one socket event are atomic.
- A database error between the read and the write-back of a setup-code guess, which would leave it uncounted.
- `/refresh` without rotation, and issuing impersonation tokens.
- Refresh rows stored unhashed beside a hashed row of the same token: one row per token is assumed.
- `CollabServer.Server.OnJoinRoom`: the initials of a presence entry, which are derived from its name, are not stored.
- The configuration's fixed bootstrap email may not be taken by another account when the bootstrap account is created.
- Float rounding: geometry is over reals. `Number` is modelled on decimal numerals without loss of precision; hexadecimal, signed, fractional and exponent numerals are read as not-a-number.
- Strings are sequences of characters, not UTF-16 units; lone surrogates are not modelled, and case folding is a parameter.
- Node's lenient base64 decoding of malformed input is not modelled beyond answering that it failed; `Buffer.from` in `FileProcessing` is a parameter.
- `login-ip` keys, for attempts without an identifier, and colliding key strings: keys are read as (identifier, address) pairs.
- Several server processes sharing one database: each process has its own caches and limiter.
- MIME types that name a property of every JavaScript object, such as `constructor`, find that property in the extension table; here they get `bin`.
- `rewritePreviewForS3`, writing and pruning of backup files, schedule lookup in the environment.
- `AuthContext` calls `authRefresh` directly; the single-flight claim is about `refreshAccessToken`. Such a call is an ordinary call to an auth route here.
- In `ApiClient` a promise settles together with its `finally` callback, the answer of `getAuthEnabledStatus` and the time a redirect takes are the environment's, a retried configuration is assumed to keep its marks, and axios to pass the rejection of a request interceptor on to the response interceptor.
- In `FileProcessing` the synchronous beginnings of a batch may interleave with other entries' steps; the source runs them first, so its runs are among those covered.
- Excalidraw itself, Mermaid parsing, HTML and SVG sanitising, React pages, WebRTC, import and export, audit rows and cookie attributes.
