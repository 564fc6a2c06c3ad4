/**
  The refresh-token store: logins, concurrent `/refresh` requests and revocations, interleaved
  at the points where the handlers await the database.
 */
module RefreshRotation {
  import opened Prelude

  type UserId = string
  type RowId = nat
  type RequestId = nat

  /** SHA-256 of a token, and the subject of a token that `jwt.verify` accepts as a refresh token. */
  datatype Env = Env(hash: string -> string, subject: string -> Option<UserId>)

  /** A RefreshToken row; `login` is history, the row issued at the login this one descends from. */
  datatype Row = Row(userId: UserId, token: string, expiresAt: int, revoked: bool, login: RowId)

  /** Where an in-flight `/refresh` request stands between its awaits. History: whether the user was active
      when the request began, and when the row was read. */
  datatype Request =
    | Verified(token: string, userId: UserId, active: bool)               // token verified, user found active
    | Holding(token: string, userId: UserId, active: bool, rowId: RowId, readAt: int)  // row read and accepted

  /** History: presenting `token` turned row `pred` into row `succ`, which was to last until `expires`. */
  datatype Exchange = Exchange(token: string, pred: RowId, succ: RowId, active: bool, readAt: int, expires: int)

  /**
    The database tables and the requests in flight; `exchanges` is history.
   */
  datatype State = State(
    active: set<UserId>,
    rows: map<RowId, Row>,
    next: RowId,
    requests: map<RequestId, Request>,
    exchanges: seq<Exchange>)

  datatype Event =
    | SetActive(user: UserId, isActive: bool)
    | Issue(user: UserId, newToken: string, expires: int)     // login, register, impersonation
    | Begin(request: RequestId, presented: string)
    | Read(reader: RequestId, now: int, found: Option<RowId>)
    | Commit(committer: RequestId, successor: string, successorExpires: int)
    | Abort(aborted: RequestId)                               // a database error: all rolled back
    | Revoke(owner: UserId)                                   // logout, password change or reset

  const INITIAL: State := State({}, map[], 0, map[], [])

  // ---- one step ----------------------------------------------------------

  predicate TokenTaken(rows: map<RowId, Row>, stored: string) {
    exists r :: r in rows && rows[r].token == stored
  }

  predicate IsCandidate(env: Env, rows: map<RowId, Row>, presented: string, r: RowId) {
    r in rows && (rows[r].token == presented || rows[r].token == env.hash(presented))
  }

  /** What `findFirst` may return: any row stored under the token or under its hash. */
  ghost predicate IsLookupResult(env: Env, rows: map<RowId, Row>, presented: string, found: Option<RowId>) {
    match found
    case Some(r) => IsCandidate(env, rows, presented, r)
    case None => forall r :: !IsCandidate(env, rows, presented, r)
  }

  predicate Acceptable(rows: map<RowId, Row>, userId: UserId, r: RowId, now: int) {
    r in rows && rows[r].userId == userId && !rows[r].revoked && now <= rows[r].expiresAt
  }

  function RevokeAll(rows: map<RowId, Row>, user: UserId): map<RowId, Row> {
    map r | r in rows :: if rows[r].userId == user then rows[r].(revoked := true) else rows[r]
  }

  function AfterIssue(env: Env, s: State, user: UserId, newToken: string, expires: int): State {
    if user !in s.active || TokenTaken(s.rows, env.hash(newToken)) then s
    else s.(rows := s.rows[s.next := Row(user, env.hash(newToken), expires, false, s.next)],
            next := s.next + 1)
  }

  function AfterBegin(env: Env, s: State, req: RequestId, presented: string): State {
    var subject := env.subject(presented);
    if req in s.requests || subject.None? || subject.value !in s.active then s
    else s.(requests := s.requests[req := Verified(presented, subject.value, subject.value in s.active)])
  }

  ghost function AfterRead(env: Env, s: State, req: RequestId, now: int, found: Option<RowId>): State {
    if req !in s.requests || !s.requests[req].Verified? then s
    else
      var q := s.requests[req];
      if !IsLookupResult(env, s.rows, q.token, found) then s
      else if found.Some? && Acceptable(s.rows, q.userId, found.value, now)
      then s.(requests := s.requests[req := Holding(q.token, q.userId, q.active, found.value, now)])
      else s.(requests := s.requests - {req})
  }

  function AfterCommit(env: Env, s: State, req: RequestId, successor: string, expires: int): State {
    if req !in s.requests || !s.requests[req].Holding? then s
    else
      var q := s.requests[req];
      var done := s.(requests := s.requests - {req});
      if q.rowId !in s.rows || s.rows[q.rowId].revoked || TokenTaken(s.rows, env.hash(successor)) then done
      else done.(
        rows := s.rows[q.rowId := s.rows[q.rowId].(revoked := true)]
                      [s.next := Row(q.userId, env.hash(successor), expires, false, s.rows[q.rowId].login)],
        exchanges := s.exchanges + [Exchange(q.token, q.rowId, s.next, q.active, q.readAt, expires)],
        next := s.next + 1)
  }

  ghost function Step(env: Env, s: State, e: Event): State {
    match e
    case SetActive(u, a) => s.(active := if a then s.active + {u} else s.active - {u})
    case Issue(u, t, x) => AfterIssue(env, s, u, t, x)
    case Begin(q, t) => AfterBegin(env, s, q, t)
    case Read(q, now, found) => AfterRead(env, s, q, now, found)
    case Commit(q, t, x) => AfterCommit(env, s, q, t, x)
    case Abort(q) => s.(requests := s.requests - {q})
    case Revoke(u) => s.(rows := RevokeAll(s.rows, u))
  }

  ghost function Run(env: Env, s: State, events: seq<Event>): State
    decreases |events|
  {
    if events == [] then s else Run(env, Step(env, s, events[0]), events[1..])
  }

  // ---- what every step keeps ---------------------------------------------

  ghost predicate RowsWellFormed(s: State) {
    forall r :: r in s.rows ==> s.rows[r].login <= r < s.next
  }

  ghost predicate Live(s: State, r: RowId) {
    r in s.rows && !s.rows[r].revoked
  }

  ghost predicate SameChain(s: State, r1: RowId, r2: RowId) {
    r1 in s.rows && r2 in s.rows && s.rows[r1].login == s.rows[r2].login
  }

  ghost predicate OneLivePerChain(s: State) {
    forall r1, r2 :: Live(s, r1) && Live(s, r2) && SameChain(s, r1, r2) ==> r1 == r2
  }

  ghost predicate IsExchange(s: State, x: Exchange) {
    && x.pred in s.rows && s.rows[x.pred].revoked && x.succ in s.rows && x.pred < x.succ
    && s.rows[x.succ].userId == s.rows[x.pred].userId
    && SameChain(s, x.pred, x.succ)
    && x.active && x.readAt <= s.rows[x.pred].expiresAt && s.rows[x.succ].expiresAt == x.expires
  }

  ghost predicate ExchangesWellFormed(s: State) {
    && (forall i :: 0 <= i < |s.exchanges| ==> IsExchange(s, s.exchanges[i]))
    && (forall i, j :: 0 <= i < j < |s.exchanges| ==>
          s.exchanges[i].pred != s.exchanges[j].pred && s.exchanges[i].succ < s.exchanges[j].succ)
  }

  /** The row is its user's and had not expired when it was read. */
  ghost predicate HoldsOwnRow(s: State, q: Request)
    requires q.Holding?
  {
    q.rowId in s.rows && s.rows[q.rowId].userId == q.userId && q.readAt <= s.rows[q.rowId].expiresAt
  }

  ghost predicate RequestsWellFormed(s: State) {
    forall q :: q in s.requests ==>
      s.requests[q].active && (s.requests[q].Holding? ==> HoldsOwnRow(s, s.requests[q]))
  }

  ghost predicate Inv(s: State) {
    RowsWellFormed(s) && OneLivePerChain(s) && ExchangesWellFormed(s) && RequestsWellFormed(s)
  }

  lemma IssueKeepsInv(env: Env, s: State, user: UserId, newToken: string, expires: int)
    requires Inv(s)
    ensures Inv(AfterIssue(env, s, user, newToken, expires))
  {
    var t := AfterIssue(env, s, user, newToken, expires);
    assert forall r :: Live(t, r) && r != s.next ==> Live(s, r);
    assert forall r1, r2 :: SameChain(t, r1, r2) && r1 != s.next && r2 != s.next ==> SameChain(s, r1, r2);
    forall i | 0 <= i < |t.exchanges| ensures IsExchange(t, t.exchanges[i]) {
      assert IsExchange(s, s.exchanges[i]);
    }
  }

  lemma ReadKeepsInv(env: Env, s: State, req: RequestId, now: int, found: Option<RowId>)
    requires Inv(s)
    ensures Inv(AfterRead(env, s, req, now, found))
  {
    SameTables(s, AfterRead(env, s, req, now, found));
  }

  /** Only `requests` and `active` differ: the invariants on the tables carry over. */
  lemma SameTables(s: State, t: State)
    requires t.rows == s.rows && t.next == s.next && t.exchanges == s.exchanges
    requires RowsWellFormed(s) && OneLivePerChain(s) && ExchangesWellFormed(s)
    ensures RowsWellFormed(t) && OneLivePerChain(t) && ExchangesWellFormed(t)
  {
    assert forall r :: Live(t, r) == Live(s, r);
    assert forall r1, r2 :: SameChain(t, r1, r2) == SameChain(s, r1, r2);
    assert forall x :: IsExchange(t, x) == IsExchange(s, x);
  }

  lemma RevokeKeepsInv(s: State, user: UserId)
    requires Inv(s)
    ensures Inv(s.(rows := RevokeAll(s.rows, user)))
  {
    var t := s.(rows := RevokeAll(s.rows, user));
    assert forall r :: Live(t, r) ==> Live(s, r);
    assert forall r1, r2 :: SameChain(t, r1, r2) == SameChain(s, r1, r2);
    forall i | 0 <= i < |t.exchanges| ensures IsExchange(t, t.exchanges[i]) {
      assert IsExchange(s, s.exchanges[i]);
    }
  }

  /** The rows after a successful commit, with the row given up and the row inserted. */
  lemma CommitKeepsInv(env: Env, s: State, req: RequestId, successor: string, expires: int)
    requires Inv(s)
    ensures Inv(AfterCommit(env, s, req, successor, expires))
  {
    var t := AfterCommit(env, s, req, successor, expires);
    if t.next == s.next {
      SameTables(s, t);
    } else {
      var revoked, inserted := s.requests[req].rowId, s.next;
      assert Live(s, revoked) && revoked < inserted;
      assert forall r :: Live(t, r) && r != inserted ==> Live(s, r) && r != revoked;
      assert forall r1, r2 :: SameChain(t, r1, r2) && r1 != inserted && r2 != inserted ==> SameChain(s, r1, r2);
      assert forall r :: SameChain(t, inserted, r) && r != inserted ==> SameChain(s, revoked, r);
      assert forall r :: SameChain(t, r, inserted) && r != inserted ==> SameChain(s, revoked, r);
      CommitKeepsExchanges(env, s, req, successor, expires);
    }
  }

  lemma CommitKeepsExchanges(env: Env, s: State, req: RequestId, successor: string, expires: int)
    requires Inv(s)
    ensures ExchangesWellFormed(AfterCommit(env, s, req, successor, expires))
  {
    var t := AfterCommit(env, s, req, successor, expires);
    if t.next == s.next {
      SameTables(s, t);
    } else {
      forall i | 0 <= i < |t.exchanges| ensures IsExchange(t, t.exchanges[i]) {
        if i < |s.exchanges| {
          assert IsExchange(s, s.exchanges[i]);
        }
      }
      forall i, j | 0 <= i < j < |t.exchanges|
        ensures t.exchanges[i].pred != t.exchanges[j].pred && t.exchanges[i].succ < t.exchanges[j].succ
      {
        assert IsExchange(s, s.exchanges[i]);
      }
    }
  }

  lemma StepKeepsInv(env: Env, s: State, e: Event)
    requires Inv(s)
    ensures Inv(Step(env, s, e))
  {
    match e
    case SetActive(_, _) => SameTables(s, Step(env, s, e));
    case Issue(u, t, x) => IssueKeepsInv(env, s, u, t, x);
    case Begin(_, _) => SameTables(s, Step(env, s, e));
    case Read(q, now, found) => ReadKeepsInv(env, s, q, now, found);
    case Commit(q, t, x) => CommitKeepsInv(env, s, q, t, x);
    case Abort(_) => SameTables(s, Step(env, s, e));
    case Revoke(u) => RevokeKeepsInv(s, u);
  }

  lemma {:induction false} RunKeepsInv(env: Env, s: State, events: seq<Event>)
    requires Inv(s)
    ensures Inv(Run(env, s, events))
    decreases |events|
  {
    if events != [] {
      StepKeepsInv(env, s, events[0]);
      RunKeepsInv(env, Step(env, s, events[0]), events[1..]);
    }
  }

  // ---- the handlers ------------------------------------------------------

  class RefreshTokenStore {
    ghost const env: Env
    const hash: string -> string
    const subject: string -> Option<UserId>
    var active: set<UserId>
    var rows: map<RowId, Row>
    var next: RowId
    var requests: map<RequestId, Request>
    ghost var exchanges: seq<Exchange>

    ghost function Contents(): State
      reads this
    {
      State(active, rows, next, requests, exchanges)
    }

    ghost predicate Valid()
      reads this
    {
      env == Env(hash, subject) && Inv(Contents())
    }

    constructor (hash: string -> string, subject: string -> Option<UserId>)
      ensures Valid() && env == Env(hash, subject) && Contents() == INITIAL
    {
      this.env := Env(hash, subject);
      this.hash, this.subject := hash, subject;
      active, rows, next, requests := {}, map[], 0, map[];
      exchanges := [];
    }

    /** The insert that ends a login, a registration or an impersonation. */
    method IssueToken(user: UserId, newToken: string, expires: int) returns (ok: bool)
      requires Valid()
      modifies this
      ensures Valid() && Contents() == Step(env, old(Contents()), Issue(user, newToken, expires))
      ensures ok <==> user in active && forall r :: r in old(rows) ==> old(rows)[r].token != hash(newToken)
      ensures rows == if ok then old(rows)[old(next) := Row(user, hash(newToken), expires, false, old(next))] else old(rows)
    {
      StepKeepsInv(env, Contents(), Issue(user, newToken, expires));
      var stored := hash(newToken);
      if user !in active || TokenTaken(rows, stored) {
        return false;
      }
      rows := rows[next := Row(user, stored, expires, false, next)];
      next := next + 1;
      return true;
    }

    /** `/refresh` up to the check that the token's user is active. */
    method BeginRefresh(req: RequestId, presented: string) returns (status: nat)
      requires Valid() && req !in requests
      modifies this
      ensures Valid() && Contents() == Step(env, old(Contents()), Begin(req, presented))
      ensures status == 200 || status == 401
      ensures status == 200 <==> subject(presented).Some? && subject(presented).value in active
      ensures rows == old(rows) && (req in requests <==> status == 200)
    {
      StepKeepsInv(env, Contents(), Begin(req, presented));
      var decoded := subject(presented);
      if decoded.None? {
        return 401;
      }
      if decoded.value !in active {
        return 401;
      }
      requests := requests[req := Verified(presented, decoded.value, true)];
      return 200;
    }

    /** The transaction's `findFirst` and the three checks on the row it returns. */
    method ReadStoredToken(req: RequestId, now: int) returns (status: nat, ghost found: Option<RowId>)
      requires Valid() && req in requests && requests[req].Verified?
      modifies this
      ensures Valid() && Contents() == Step(env, old(Contents()), Read(req, now, found))
      ensures IsLookupResult(env, rows, old(requests[req].token), found)
      ensures rows == old(rows) && (status == 401 <==> req !in requests) && (status == 200 <==> req in requests)
      ensures status == 200 <==>
                && found.Some? && !rows[found.value].revoked && rows[found.value].userId == old(requests[req]).userId
                && now <= rows[found.value].expiresAt
      ensures status == 200 ==> requests[req].Holding? && requests[req].rowId == found.value
    {
      var q := requests[req];
      ghost var s := Contents();
      if r :| r in rows && (rows[r].token == q.token || rows[r].token == hash(q.token)) {
        found := Some(r);
        StepKeepsInv(env, s, Read(req, now, found));
        if rows[r].userId != q.userId || rows[r].revoked {
          requests := requests - {req};
          return 401, found;
        }
        if now > rows[r].expiresAt {
          requests := requests - {req};
          return 401, found;
        }
        requests := requests[req := Holding(q.token, q.userId, q.active, r, now)];
        return 200, found;
      } else {
        found := None;
        StepKeepsInv(env, s, Read(req, now, found));
        requests := requests - {req};
        return 401, found;
      }
    }

    /** The conditional revoke, the count check and the insert of the successor: all or nothing. */
    method CommitRotation(req: RequestId, successor: string, expires: int) returns (status: nat)
      requires Valid() && req in requests && requests[req].Holding?
      modifies this
      ensures Valid() && Contents() == Step(env, old(Contents()), Commit(req, successor, expires))
      ensures status == 200 <==> |exchanges| == |old(exchanges)| + 1
      ensures status == 401 <==> old(rows[requests[req].rowId].revoked)
      ensures status != 200 ==> rows == old(rows)
      ensures status == 200 ==>
                var r, q := old(requests[req]).rowId, old(requests[req]);
                rows == old(rows)[r := old(rows)[r].(revoked := true)]
                                 [old(next) := Row(q.userId, hash(successor), expires, false, old(rows)[r].login)]
    {
      StepKeepsInv(env, Contents(), Commit(req, successor, expires));
      var q := requests[req];
      requests := requests - {req};
      // updateMany where id = rowId and revoked = false
      var count := if rows[q.rowId].revoked then 0 else 1;
      if count != 1 {
        return 401;
      }
      var stored := hash(successor);
      if TokenTaken(rows, stored) {
        return 500;   // unique constraint: the transaction rolls back
      }
      rows := rows[q.rowId := rows[q.rowId].(revoked := true)];
      rows := rows[next := Row(q.userId, stored, expires, false, rows[q.rowId].login)];
      exchanges := exchanges + [Exchange(q.token, q.rowId, next, q.active, q.readAt, expires)];
      next := next + 1;
      return 200;
    }

    /** A database error inside the transaction: nothing of it remains. */
    method AbortRefresh(req: RequestId) returns (status: nat)
      requires Valid()
      modifies this
      ensures Valid() && Contents() == Step(env, old(Contents()), Abort(req)) && status == 500
      ensures rows == old(rows) && requests == old(requests) - {req}
    {
      StepKeepsInv(env, Contents(), Abort(req));
      requests := requests - {req};
      return 500;
    }

    /** An account is activated or deactivated. */
    method SetUserActive(user: UserId, isActive: bool)
      requires Valid()
      modifies this
      ensures Valid() && Contents() == Step(env, old(Contents()), SetActive(user, isActive))
      ensures rows == old(rows) && (user in active <==> isActive) && active - {user} == old(active) - {user}
    {
      StepKeepsInv(env, Contents(), SetActive(user, isActive));
      active := if isActive then active + {user} else active - {user};
    }

    /** Logout, and every other `updateMany` that revokes a user's rows. */
    method RevokeUser(user: UserId)
      requires Valid()
      modifies this
      ensures Valid() && Contents() == Step(env, old(Contents()), Revoke(user))
      ensures rows.Keys == old(rows).Keys
      ensures forall r :: r in rows ==>
                rows[r] == if old(rows)[r].userId == user then old(rows)[r].(revoked := true) else old(rows)[r]
    {
      StepKeepsInv(env, Contents(), Revoke(user));
      rows := map r | r in rows :: if rows[r].userId == user && !rows[r].revoked then rows[r].(revoked := true) else rows[r];
      assert rows == RevokeAll(old(rows), user);
    }
  }

  // ---- whole runs --------------------------------------------------------

  ghost function Reached(env: Env, events: seq<Event>): State {
    Run(env, INITIAL, events)
  }

  /** However the requests interleave, a row is exchanged for at most one successor, and no
      successor serves two rows. */
  lemma ExchangedAtMostOnce(env: Env, events: seq<Event>, i: nat, j: nat)
    requires i < |Reached(env, events).exchanges| && j < |Reached(env, events).exchanges|
    ensures var xs := Reached(env, events).exchanges;
            xs[i].pred == xs[j].pred || xs[i].succ == xs[j].succ ==> i == j
  {
    RunKeepsInv(env, INITIAL, events);
    var s := Reached(env, events);
    assert ExchangesWellFormed(s);
  }

  /** Each exchange was made for a token whose subject owns the row, was active when the request began, and whose
      row had not expired when it was read; the successor is to last as long as the commit said. */
  lemma ExchangesAreTimely(env: Env, events: seq<Event>, i: nat)
    requires HashesDoNotVerify(env) && i < |Reached(env, events).exchanges|
    ensures var s := Reached(env, events);
            var x := s.exchanges[i];
            && x.pred in s.rows && x.succ in s.rows
            && env.subject(x.token) == Some(s.rows[x.pred].userId) && x.active
            && x.readAt <= s.rows[x.pred].expiresAt && s.rows[x.succ].expiresAt == x.expires
  {
    RunKeepsInv(env, INITIAL, events);
    RunKeepsTokens(env, INITIAL, events);
    var s := Reached(env, events);
    assert IsExchange(s, s.exchanges[i]);
  }

  /** Every chain that starts at a login has at most one unrevoked row, at every moment. */
  lemma OneUnrevokedRowPerChain(env: Env, events: seq<Event>, r1: RowId, r2: RowId)
    requires Live(Reached(env, events), r1) && Live(Reached(env, events), r2)
    ensures SameChain(Reached(env, events), r1, r2) ==> r1 == r2
  {
    RunKeepsInv(env, INITIAL, events);
    var s := Reached(env, events);
    assert OneLivePerChain(s);
  }

  /** A row keeps its user, its token and its chain, and never comes back from revoked to live. */
  ghost predicate RowsPersist(s: State, t: State) {
    && s.next <= t.next
    && (forall r :: r in s.rows ==>
          && r in t.rows
          && t.rows[r].userId == s.rows[r].userId && t.rows[r].token == s.rows[r].token
          && t.rows[r].expiresAt == s.rows[r].expiresAt && t.rows[r].login == s.rows[r].login
          && (s.rows[r].revoked ==> t.rows[r].revoked))
  }

  lemma {:induction false} RevokedStaysRevoked(env: Env, s: State, events: seq<Event>)
    requires Inv(s)
    ensures RowsPersist(s, Run(env, s, events))
    decreases |events|
  {
    if events != [] {
      var t := Step(env, s, events[0]);
      StepKeepsInv(env, s, events[0]);
      assert RowsPersist(s, t);
      RevokedStaysRevoked(env, t, events[1..]);
    }
  }

  // ---- a logout beats every request still in flight ----------------------

  /** No row that descends from a login of `user` made before `cut` is live. */
  ghost predicate OldChainsDead(s: State, user: UserId, cut: RowId) {
    forall r :: Live(s, r) && s.rows[r].userId == user ==> cut <= s.rows[r].login
  }

  lemma StepKeepsOldChainsDead(env: Env, s: State, e: Event, user: UserId, cut: RowId)
    requires Inv(s) && OldChainsDead(s, user, cut) && cut <= s.next
    ensures OldChainsDead(Step(env, s, e), user, cut) && cut <= Step(env, s, e).next
  {
    var t := Step(env, s, e);
    if e.Commit? && t.next != s.next {
      assert Live(s, s.requests[e.committer].rowId);
    }
    assert forall r :: Live(t, r) && r in s.rows ==> Live(s, r);
  }

  lemma {:induction false} RunKeepsOldChainsDead(env: Env, s: State, events: seq<Event>, user: UserId, cut: RowId)
    requires Inv(s) && OldChainsDead(s, user, cut) && cut <= s.next
    ensures OldChainsDead(Run(env, s, events), user, cut)
    decreases |events|
  {
    if events != [] {
      StepKeepsInv(env, s, events[0]);
      StepKeepsOldChainsDead(env, s, events[0], user, cut);
      RunKeepsOldChainsDead(env, Step(env, s, events[0]), events[1..], user, cut);
    }
  }

  /** After a logout no row of a chain that existed then is ever live again, whatever requests were
      already past their read when it happened. */
  lemma LogoutKillsChains(env: Env, before: seq<Event>, user: UserId, after: seq<Event>, r: RowId)
    requires var cut := Reached(env, before);
             var end := Run(env, Step(env, cut, Revoke(user)), after);
             r in end.rows && end.rows[r].userId == user && end.rows[r].login < cut.next
    ensures Run(env, Step(env, Reached(env, before), Revoke(user)), after).rows[r].revoked
  {
    var cut := Reached(env, before);
    var logout := Step(env, cut, Revoke(user));
    var end := Run(env, logout, after);
    RunKeepsInv(env, INITIAL, before);
    StepKeepsInv(env, cut, Revoke(user));
    RunKeepsInv(env, logout, after);
    RevokedStaysRevoked(env, logout, after);
    RunKeepsOldChainsDead(env, logout, after, user, cut.next);
    assert RowsWellFormed(end);
    if Live(end, r) {}
  }

  // ---- replaying a token -------------------------------------------------

  /** No stored hash is itself a token that verifies. */
  ghost predicate HashesDoNotVerify(env: Env) {
    forall a :: env.subject(env.hash(a)).None?
  }

  /** Rows are stored hashed and the token column is unique. */
  ghost predicate TokensWellFormed(env: Env, s: State) {
    RowTokens(env, s) && RequestTokens(env, s) && ExchangeTokens(env, s)
  }

  ghost predicate RowTokens(env: Env, s: State) {
    && (forall r :: r in s.rows ==> env.subject(s.rows[r].token).None?)
    && (forall r1, r2 :: r1 in s.rows && r2 in s.rows && s.rows[r1].token == s.rows[r2].token ==> r1 == r2)
  }

  ghost predicate RequestTokens(env: Env, s: State) {
    && (forall q :: q in s.requests ==> env.subject(s.requests[q].token) == Some(s.requests[q].userId))
    && (forall q :: q in s.requests && s.requests[q].Holding? && s.requests[q].rowId in s.rows ==>
          s.rows[s.requests[q].rowId].token == env.hash(s.requests[q].token))
  }

  ghost predicate ExchangeTokens(env: Env, s: State) {
    forall i :: 0 <= i < |s.exchanges| && s.exchanges[i].pred in s.rows ==>
      && s.rows[s.exchanges[i].pred].token == env.hash(s.exchanges[i].token)
      && env.subject(s.exchanges[i].token) == Some(s.rows[s.exchanges[i].pred].userId)
  }

  lemma IssueKeepsTokens(env: Env, s: State, user: UserId, newToken: string, expires: int)
    requires Inv(s) && TokensWellFormed(env, s) && HashesDoNotVerify(env)
    ensures TokensWellFormed(env, AfterIssue(env, s, user, newToken, expires))
  {
    assert env.subject(env.hash(newToken)).None?;
  }

  lemma ReadKeepsTokens(env: Env, s: State, req: RequestId, now: int, found: Option<RowId>)
    requires Inv(s) && TokensWellFormed(env, s)
    ensures TokensWellFormed(env, AfterRead(env, s, req, now, found))
  {
    var t := AfterRead(env, s, req, now, found);
    if req in t.requests && t.requests[req].Holding? && !s.requests[req].Holding? {
      assert IsCandidate(env, s.rows, s.requests[req].token, found.value);
    }
  }

  lemma CommitKeepsTokens(env: Env, s: State, req: RequestId, successor: string, expires: int)
    requires Inv(s) && TokensWellFormed(env, s) && HashesDoNotVerify(env)
    ensures TokensWellFormed(env, AfterCommit(env, s, req, successor, expires))
  {
    assert env.subject(env.hash(successor)).None?;
    CommitKeepsRequestTokens(env, s, req, successor, expires);
    CommitKeepsExchangeTokens(env, s, req, successor, expires);
  }

  lemma CommitKeepsRequestTokens(env: Env, s: State, req: RequestId, successor: string, expires: int)
    requires RowsWellFormed(s) && RequestsWellFormed(s) && RequestTokens(env, s)
    ensures RequestTokens(env, AfterCommit(env, s, req, successor, expires))
  {
  }

  lemma CommitKeepsExchangeTokens(env: Env, s: State, req: RequestId, successor: string, expires: int)
    requires RowsWellFormed(s) && ExchangesWellFormed(s) && RequestsWellFormed(s)
    requires RequestTokens(env, s) && ExchangeTokens(env, s)
    ensures ExchangeTokens(env, AfterCommit(env, s, req, successor, expires))
  {
    var t := AfterCommit(env, s, req, successor, expires);
    forall i | 0 <= i < |t.exchanges|
      ensures t.exchanges[i].pred in s.rows ==>
                t.rows[t.exchanges[i].pred].token == env.hash(t.exchanges[i].token)
                && env.subject(t.exchanges[i].token) == Some(t.rows[t.exchanges[i].pred].userId)
    {
      if i < |s.exchanges| {
        assert IsExchange(s, s.exchanges[i]);
      }
    }
  }

  lemma StepKeepsTokens(env: Env, s: State, e: Event)
    requires Inv(s) && TokensWellFormed(env, s) && HashesDoNotVerify(env)
    ensures TokensWellFormed(env, Step(env, s, e))
  {
    match e
    case Issue(u, t, x) => IssueKeepsTokens(env, s, u, t, x);
    case Read(q, now, found) => ReadKeepsTokens(env, s, q, now, found);
    case Commit(q, t, x) => CommitKeepsTokens(env, s, q, t, x);
    case _ =>
  }

  lemma {:induction false} RunKeepsTokens(env: Env, s: State, events: seq<Event>)
    requires Inv(s) && TokensWellFormed(env, s) && HashesDoNotVerify(env)
    ensures TokensWellFormed(env, Run(env, s, events))
    decreases |events|
  {
    if events != [] {
      StepKeepsInv(env, s, events[0]);
      StepKeepsTokens(env, s, events[0]);
      RunKeepsTokens(env, Step(env, s, events[0]), events[1..]);
    }
  }

  /** A raw refresh token, presented however often and concurrently, is exchanged at most once. */
  lemma TokenExchangedAtMostOnce(env: Env, events: seq<Event>, i: nat, j: nat)
    requires HashesDoNotVerify(env)
    requires i < |Reached(env, events).exchanges| && j < |Reached(env, events).exchanges|
    ensures var xs := Reached(env, events).exchanges; xs[i].token == xs[j].token ==> i == j
  {
    RunKeepsInv(env, INITIAL, events);
    RunKeepsTokens(env, INITIAL, events);
    var s := Reached(env, events);
    assert IsExchange(s, s.exchanges[i]) && IsExchange(s, s.exchanges[j]);
  }

  /** The rows that a refresh of the token may find: only the one stored under its hash. */
  lemma LookupIsUnique(env: Env, s: State, r: RowId, token: string, found: Option<RowId>)
    requires TokensWellFormed(env, s) && r in s.rows && s.rows[r].token == env.hash(token)
    requires env.subject(token).Some? && IsLookupResult(env, s.rows, token, found)
    ensures found == Some(r)
  {
    assert IsCandidate(env, s.rows, token, r);
  }

  /** The other side of it: in every reachable state the owner of a live, unexpired row gets a successor for
      it when no other event comes between, live and of the same user and chain. */
  lemma LiveTokenIsExchanged(env: Env, events: seq<Event>, r: RowId, token: string, req: RequestId, now: int,
                             found: Option<RowId>, successor: string, expires: int)
    requires HashesDoNotVerify(env)
    requires var s := Reached(env, events);
             && Live(s, r) && s.rows[r].token == env.hash(token) && now <= s.rows[r].expiresAt
             && env.subject(token) == Some(s.rows[r].userId) && s.rows[r].userId in s.active
             && req !in s.requests && !TokenTaken(s.rows, env.hash(successor))
             && IsLookupResult(env, s.rows, token, found)
    ensures var s := Reached(env, events);
            var t := Step(env, Step(env, Step(env, s, Begin(req, token)), Read(req, now, found)), Commit(req, successor, expires));
            && t.exchanges == s.exchanges + [Exchange(token, r, s.next, true, now, expires)]
            && !Live(t, r) && Live(t, s.next)
            && t.rows[s.next].userId == s.rows[r].userId && t.rows[s.next].login == s.rows[r].login
            && t.rows[s.next].token == env.hash(successor) && t.rows[s.next].expiresAt == expires
  {
    RunKeepsInv(env, INITIAL, events);
    RunKeepsTokens(env, INITIAL, events);
    var s := Reached(env, events);
    LookupIsUnique(env, s, r, token, found);
    var t := Step(env, s, Begin(req, token));
    assert t.rows == s.rows && t.requests[req] == Verified(token, s.rows[r].userId, true);
    var u := Step(env, t, Read(req, now, found));
    assert u.rows == s.rows && u.requests[req] == Holding(token, s.rows[r].userId, true, r, now);
  }
}
