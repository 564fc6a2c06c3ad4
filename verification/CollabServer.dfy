/** Rooms, presence and the per-socket access cache of the live-collaboration server. */
module CollabServer {
  import opened Prelude
  import opened Text
  import opened Sharing
  import LinkRoutes

  type SocketId = string

  const ACCESS_CACHE_TTL_MS: int := 1500
  const BOOTSTRAP_USER_ID: UserId := "bootstrap-admin"

  datatype Presence = Presence(id: string, name: string, color: string, socketId: SocketId, isActive: bool)

  datatype Cached = Cached(access: Access, checkedAt: int)

  datatype Conn = Conn(principal: Option<UserId>, cache: map<DrawingId, Cached>)

  datatype EditRelay = EditRelay(sender: SocketId, drawing: DrawingId, at: int)

  datatype CursorRelay = CursorRelay(sender: SocketId, drawing: DrawingId, userId: string, name: string, color: string)

  /** `posts` are the half-done requests of the link routes. `principals` (of every socket ever connected), `edits`
      and `cursors` (what was relayed) are history. */
  datatype State = State(
    db: Db,
    posts: map<LinkRoutes.RequestId, DrawingId>,
    sockets: map<SocketId, Conn>,
    rooms: map<DrawingId, seq<Presence>>,
    principals: map<SocketId, Option<UserId>>,
    edits: seq<EditRelay>,
    cursors: seq<CursorRelay>)

  datatype Event =
    | Connect(at: int, sid: SocketId, who: Option<UserId>)
    | JoinRoom(at: int, sid: SocketId, d: DrawingId, clientId: string, clientName: string, color: string)
    | CursorMove(at: int, sid: SocketId, d: DrawingId)
    | ElementUpdate(at: int, sid: SocketId, d: DrawingId)
    | UserActivity(at: int, sid: SocketId, d: DrawingId, isActive: bool)
    | Disconnect(at: int, sid: SocketId)
    | LinkChange(at: int, change: LinkRoutes.Event)
    | ChangeDb(at: int, db: Db)     // anything else, apart from the link table

  function Initial(db: Db): State {
    State(db.(links := []), map[], map[], map[], map[], [], [])
  }

  // ---- the access cache --------------------------------------------------

  predicate CacheHit(conn: Conn, d: DrawingId, now: int) {
    d in conn.cache && now - conn.cache[d].checkedAt < ACCESS_CACHE_TTL_MS
  }

  function CheckAccess(db: Db, conn: Conn, d: DrawingId, now: int): (Conn, Access) {
    if CacheHit(conn, d, now) then (conn, conn.cache[d].access)
    else
      var access := GetDrawingAccess(db, conn.principal, d, now);
      if access == NoAccess then (conn.(cache := conn.cache - {d}), NoAccess)
      else (conn.(cache := conn.cache[d := Cached(access, now)]), access)
  }

  // ---- presence lists ----------------------------------------------------

  function WithoutUser(users: seq<Presence>, id: string): seq<Presence> {
    if users == [] then []
    else (if users[0].id != id then [users[0]] else []) + WithoutUser(users[1..], id)
  }

  /** Index of the socket's first entry, or the length of the list. */
  function FindSocket(users: seq<Presence>, sid: SocketId): (k: nat)
    ensures k <= |users|
    ensures k < |users| ==> users[k].socketId == sid
    ensures forall i :: 0 <= i < k ==> users[i].socketId != sid
  {
    if users == [] || users[0].socketId == sid then 0 else 1 + FindSocket(users[1..], sid)
  }

  function RemoveSocket(users: seq<Presence>, sid: SocketId): seq<Presence> {
    var k := FindSocket(users, sid);
    if k == |users| then users else users[..k] + users[k + 1..]
  }

  function Take(s: string, n: nat): string {
    if |s| <= n then s else s[..n]
  }

  predicate HasAccount(db: Db, principal: Option<UserId>) {
    principal.Some? && principal.value != BOOTSTRAP_USER_ID && principal.value in db.accounts
  }

  function PresenceName(value: string): string {
    var cut := Take(Trim(value), 120);
    if cut != "" then cut else "User"
  }

  predicate IsHexDigit(c: char) {
    '0' <= c <= '9' || 'a' <= c <= 'f' || 'A' <= c <= 'F'
  }

  /** `/^#[0-9a-fA-F]{3,8}$/`, or the default. */
  function PresenceColor(value: string): string {
    var c := Trim(value);
    if 4 <= |c| <= 9 && c[0] == '#' && forall i :: 1 <= i < |c| ==> IsHexDigit(c[i]) then c else "#4f46e5"
  }

  function PresenceId(clientId: string, sid: SocketId): string {
    if Trim(clientId) != "" then Take(Trim(clientId), 200) else sid
  }

  /** The presence id the server chooses; the client's own id only counts for the bootstrap account and for an
      account that no longer exists. */
  function TrustedId(db: Db, principal: Option<UserId>, clientId: string, sid: SocketId): string {
    if principal.None? then Take("anon:" + sid, 200)
    else if HasAccount(db, principal) then principal.value
    else PresenceId(clientId, sid)
  }

  function TrustedName(db: Db, principal: Option<UserId>, clientName: string): string {
    PresenceName(if HasAccount(db, principal) then db.accounts[principal.value] else clientName)
  }

  function Room(s: State, d: DrawingId): seq<Presence> {
    if d in s.rooms then s.rooms[d] else []
  }

  // ---- the handlers, as functions ----------------------------------------

  function AfterJoin(s: State, now: int, sid: SocketId, d: DrawingId, clientId: string, clientName: string,
                     color: string): State
  {
    if sid !in s.sockets then s
    else
      var (conn, access) := CheckAccess(s.db, s.sockets[sid], d, now);
      var t := s.(sockets := s.sockets[sid := conn]);
      if access == NoAccess then t
      else
        var user := Presence(TrustedId(s.db, conn.principal, clientId, sid),
                             TrustedName(s.db, conn.principal, clientName), PresenceColor(color), sid, true);
        t.(rooms := s.rooms[d := WithoutUser(Room(s, d), user.id) + [user]])
  }

  function AfterCursor(s: State, sid: SocketId, d: DrawingId): State {
    if sid !in s.sockets || d !in s.sockets[sid].cache then s
    else
      var users := Room(s, d);
      var k := FindSocket(users, sid);
      if k == |users| then s
      else s.(cursors := s.cursors + [CursorRelay(sid, d, users[k].id, users[k].name, users[k].color)])
  }

  function AfterElementUpdate(s: State, now: int, sid: SocketId, d: DrawingId): State {
    if sid !in s.sockets || d !in s.sockets[sid].cache then s
    else
      var (conn, access) := CheckAccess(s.db, s.sockets[sid], d, now);
      var t := s.(sockets := s.sockets[sid := conn]);
      if CanEdit(access) then t.(edits := s.edits + [EditRelay(sid, d, now)]) else t
  }

  function AfterActivity(s: State, sid: SocketId, d: DrawingId, isActive: bool): State {
    if sid !in s.sockets || d !in s.sockets[sid].cache || d !in s.rooms then s
    else
      var users := s.rooms[d];
      var k := FindSocket(users, sid);
      if k == |users| then s
      else s.(rooms := s.rooms[d := users[k := users[k].(isActive := isActive)]])
  }

  function AfterDisconnect(s: State, sid: SocketId): State {
    s.(sockets := s.sockets - {sid}, rooms := map d | d in s.rooms :: RemoveSocket(s.rooms[d], sid))
  }

  function Links(s: State): LinkRoutes.Table {
    LinkRoutes.Table(s.db.links, s.posts)
  }

  function Step(s: State, e: Event): State {
    match e
    case Connect(_, sid, who) =>
      if sid in s.principals then s   // socket ids are never reused
      else s.(sockets := s.sockets[sid := Conn(who, map[])], principals := s.principals[sid := who])
    case JoinRoom(at, sid, d, id, name, color) => AfterJoin(s, at, sid, d, id, name, color)
    case CursorMove(_, sid, d) => AfterCursor(s, sid, d)
    case ElementUpdate(at, sid, d) => AfterElementUpdate(s, at, sid, d)
    case UserActivity(_, sid, d, isActive) => AfterActivity(s, sid, d, isActive)
    case Disconnect(_, sid) => if sid in s.sockets then AfterDisconnect(s, sid) else s
    case LinkChange(_, change) =>
      var t := LinkRoutes.Step(Links(s), change);
      s.(db := s.db.(links := t.links), posts := t.posts)
    case ChangeDb(_, db) => s.(db := db.(links := s.db.links))
  }

  function Run(s: State, events: seq<Event>): State
    decreases |events|
  {
    if events == [] then s else Run(Step(s, events[0]), events[1..])
  }

  // ---- the handlers ------------------------------------------------------

  class Server {
    var db: Db
    var posts: map<LinkRoutes.RequestId, DrawingId>
    var sockets: map<SocketId, Conn>
    var roomUsers: map<DrawingId, seq<Presence>>
    ghost var principals: map<SocketId, Option<UserId>>
    ghost var edits: seq<EditRelay>
    ghost var cursors: seq<CursorRelay>

    ghost function Contents(): State
      reads this
    {
      State(db, posts, sockets, roomUsers, principals, edits, cursors)
    }

    constructor (db: Db)
      ensures Contents() == Initial(db)
    {
      this.db := db.(links := []);
      posts, sockets, roomUsers, principals, edits, cursors := map[], map[], map[], map[], [], [];
    }

    method OnConnect(at: int, sid: SocketId, who: Option<UserId>)
      requires sid !in principals
      modifies this
      ensures Contents() == Step(old(Contents()), Connect(at, sid, who))
    {
      sockets := sockets[sid := Conn(who, map[])];
      principals := principals[sid := who];
    }

    method GetCachedOrFreshAccess(sid: SocketId, d: DrawingId, now: int) returns (access: Access)
      requires sid in sockets
      modifies this`sockets
      ensures var (conn, a) := CheckAccess(db, old(sockets[sid]), d, now);
              sockets == old(sockets)[sid := conn] && access == a
    {
      var conn := sockets[sid];
      if d in conn.cache && now - conn.cache[d].checkedAt < ACCESS_CACHE_TTL_MS {
        return conn.cache[d].access;
      }
      access := GetDrawingAccess(db, conn.principal, d, now);
      if access == NoAccess {
        sockets := sockets[sid := conn.(cache := conn.cache - {d})];
        return;
      }
      sockets := sockets[sid := conn.(cache := conn.cache[d := Cached(access, now)])];
    }

    method OnJoinRoom(at: int, sid: SocketId, d: DrawingId, clientId: string, clientName: string, color: string)
      returns (joined: bool)
      requires sid in sockets
      modifies this
      ensures Contents() == Step(old(Contents()), JoinRoom(at, sid, d, clientId, clientName, color))
      ensures joined <==> CheckAccess(db, old(sockets[sid]), d, at).1 != NoAccess
    {
      var access := GetCachedOrFreshAccess(sid, d, at);
      if access == NoAccess {
        return false;
      }
      var principal := sockets[sid].principal;
      var trimmed := Trim(clientId);
      var trustedId := if trimmed != "" then Take(trimmed, 200) else sid;
      var trustedName := PresenceName(clientName);
      if principal.None? {
        trustedId := Take("anon:" + sid, 200);
      } else if principal.value != BOOTSTRAP_USER_ID {
        if principal.value in db.accounts {
          trustedId := principal.value;
          trustedName := PresenceName(db.accounts[principal.value]);
        }
      }
      var user := Presence(trustedId, trustedName, PresenceColor(color), sid, true);
      var current := if d in roomUsers then roomUsers[d] else [];
      roomUsers := roomUsers[d := WithoutUser(current, user.id) + [user]];
      return true;
    }

    method OnCursorMove(at: int, sid: SocketId, d: DrawingId) returns (relayed: Option<CursorRelay>)
      requires sid in sockets
      modifies this`cursors
      ensures Contents() == Step(old(Contents()), CursorMove(at, sid, d))
      ensures cursors == old(cursors) + if relayed.Some? then [relayed.value] else []
    {
      if d !in sockets[sid].cache {
        return None;
      }
      var users := if d in roomUsers then roomUsers[d] else [];
      var k := FindSocket(users, sid);
      if k == |users| {
        return None;
      }
      var self := users[k];
      relayed := Some(CursorRelay(sid, d, self.id, self.name, self.color));
      cursors := cursors + [relayed.value];
    }

    method OnElementUpdate(at: int, sid: SocketId, d: DrawingId) returns (relayed: bool)
      requires sid in sockets
      modifies this
      ensures Contents() == Step(old(Contents()), ElementUpdate(at, sid, d))
      ensures edits == old(edits) + if relayed then [EditRelay(sid, d, at)] else []
    {
      if d !in sockets[sid].cache {
        return false;
      }
      var access := GetCachedOrFreshAccess(sid, d, at);
      if !CanEdit(access) {
        return false;
      }
      edits := edits + [EditRelay(sid, d, at)];
      return true;
    }

    method OnUserActivity(at: int, sid: SocketId, d: DrawingId, isActive: bool)
      requires sid in sockets
      modifies this`roomUsers
      ensures Contents() == Step(old(Contents()), UserActivity(at, sid, d, isActive))
    {
      if d !in sockets[sid].cache || d !in roomUsers {
        return;
      }
      var users := roomUsers[d];
      var k := FindSocket(users, sid);
      if k < |users| {
        roomUsers := roomUsers[d := users[k := users[k].(isActive := isActive)]];
      }
    }

    method OnDisconnect(at: int, sid: SocketId)
      requires sid in sockets
      modifies this
      ensures Contents() == Step(old(Contents()), Disconnect(at, sid))
    {
      sockets := sockets - {sid};
      RemoveFromRooms(sid);
    }

    method RemoveFromRoom(d: DrawingId, sid: SocketId)
      requires d in roomUsers
      modifies this`roomUsers
      ensures roomUsers == old(roomUsers)[d := RemoveSocket(old(roomUsers)[d], sid)]
    {
      var users := roomUsers[d];
      var index := FindSocket(users, sid);
      if index != |users| {
        users := users[..index] + users[index + 1..];
      }
      assert users == RemoveSocket(roomUsers[d], sid);
      roomUsers := roomUsers[d := users];
    }

    method RemoveFromRooms(sid: SocketId)
      modifies this`roomUsers
      ensures roomUsers == map d | d in old(roomUsers) :: RemoveSocket(old(roomUsers)[d], sid)
    {
      var pending := roomUsers.Keys;
      ghost var was := roomUsers;
      while pending != {}
        invariant pending <= was.Keys == roomUsers.Keys
        invariant forall d :: d in was ==>
                    roomUsers[d] == if d in pending then was[d] else RemoveSocket(was[d], sid)
        decreases pending
      {
        var d :| d in pending;
        RemoveFromRoom(d, sid);
        pending := pending - {d};
      }
    }
  }
}
