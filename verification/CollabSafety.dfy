/** What every run of the collaboration server keeps. */
module CollabSafety {
  import opened Prelude
  import opened Text
  import opened Sharing
  import opened CollabServer
  import LinkRoutes

  // ---- principals over a run -----------------------------------

  ghost predicate Sane(s: State) {
    && (forall sid :: sid in s.sockets ==> sid in s.principals && s.sockets[sid].principal == s.principals[sid])
    && (forall d, i :: d in s.rooms && 0 <= i < |s.rooms[d]| ==> s.rooms[d][i].socketId in s.principals)
  }

  lemma {:induction false} WithoutUserKeeps(users: seq<Presence>, id: string)
    ensures forall u :: u in WithoutUser(users, id) <==> u in users && u.id != id
  {
    if users != [] {
      WithoutUserKeeps(users[1..], id);
    }
  }

  /** After a join a room holds the new entry and those of the old entries with other ids. */
  lemma JoinedRoom(users: seq<Presence>, u: Presence)
    ensures forall v :: v in WithoutUser(users, u.id) + [u] <==> v == u || (v in users && v.id != u.id)
  {
    WithoutUserKeeps(users, u.id);
  }

  lemma StepKeepsSane(s: State, e: Event)
    requires Sane(s)
    ensures Sane(Step(s, e))
  {
    match e
    case JoinRoom(_, _, _, _, _, _) => JoinKeepsSane(s, e);
    case _ => RelayKeepsSane(s, e);
  }

  lemma RelayKeepsSane(s: State, e: Event)
    requires Sane(s) && !e.JoinRoom?
    ensures Sane(Step(s, e))
  {
  }

  lemma JoinKeepsSane(s: State, e: Event)
    requires Sane(s) && e.JoinRoom?
    ensures Sane(Step(s, e))
  {
    if e.sid in s.sockets {
      var t := Step(s, e);
      if t.rooms != s.rooms {
        var u := t.rooms[e.d][|t.rooms[e.d]| - 1];
        JoinedRoom(Room(s, e.d), u);
        forall i | 0 <= i < |t.rooms[e.d]| ensures t.rooms[e.d][i].socketId in t.principals {
          assert t.rooms[e.d][i] in t.rooms[e.d];
        }
      }
    }
  }

  lemma {:induction false} RunKeepsSane(s: State, events: seq<Event>)
    requires Sane(s)
    ensures Sane(Run(s, events))
    decreases |events|
  {
    if events != [] {
      StepKeepsSane(s, events[0]);
      RunKeepsSane(Step(s, events[0]), events[1..]);
    }
  }

  // ---- how long a lost permission can still act --------------------------

  /** So far `sid` relayed no edit of `d` at or after T + 1500 ms, and holds no editing access checked after T. */
  ghost predicate EditsBounded(s: State, sid: SocketId, d: DrawingId, T: int) {
    && (forall i :: 0 <= i < |s.edits| && s.edits[i].sender == sid && s.edits[i].drawing == d ==>
          s.edits[i].at < T + ACCESS_CACHE_TTL_MS)
    && (sid in s.sockets && d in s.sockets[sid].cache && CanEdit(s.sockets[sid].cache[d].access) ==>
          s.sockets[sid].cache[d].checkedAt <= T)
  }

  /** At none of the run's events at or after T does the database let the socket edit. */
  ghost predicate NotEditableFrom(s: State, events: seq<Event>, sid: SocketId, d: DrawingId, T: int)
    decreases |events|
  {
    events == [] || (
      && (events[0].at >= T && sid in s.sockets ==>
            !CanEdit(GetDrawingAccess(s.db, s.sockets[sid].principal, d, events[0].at)))
      && NotEditableFrom(Step(s, events[0]), events[1..], sid, d, T))
  }

  lemma StepKeepsEditsBounded(s: State, e: Event, sid: SocketId, d: DrawingId, T: int)
    requires EditsBounded(s, sid, d, T)
    requires e.at >= T && sid in s.sockets ==> !CanEdit(GetDrawingAccess(s.db, s.sockets[sid].principal, d, e.at))
    ensures EditsBounded(Step(s, e), sid, d, T)
  {
  }

  /** Whatever the database does: once it stops letting a socket edit, the socket's edits stop within 1500 ms. */
  lemma {:induction false} EditsStopWithinTtl(s: State, events: seq<Event>, sid: SocketId, d: DrawingId, T: int)
    requires EditsBounded(s, sid, d, T) && NotEditableFrom(s, events, sid, d, T)
    ensures EditsBounded(Run(s, events), sid, d, T)
    decreases |events|
  {
    if events != [] {
      StepKeepsEditsBounded(s, events[0], sid, d, T);
      EditsStopWithinTtl(Step(s, events[0]), events[1..], sid, d, T);
    }
  }

  lemma PastStepIsBounded(s: State, e: Event, sid: SocketId, d: DrawingId, T: int)
    requires EditsBounded(s, sid, d, T) && e.at <= T
    ensures EditsBounded(Step(s, e), sid, d, T)
  {
  }

  /** Up to time T nothing can have been relayed or checked after T. */
  lemma {:induction false} PastIsBounded(s: State, events: seq<Event>, sid: SocketId, d: DrawingId, T: int)
    requires EditsBounded(s, sid, d, T) && forall i :: 0 <= i < |events| ==> events[i].at <= T
    ensures EditsBounded(Run(s, events), sid, d, T)
    decreases |events|
  {
    if events != [] {
      PastStepIsBounded(s, events[0], sid, d, T);
      PastIsBounded(Step(s, events[0]), events[1..], sid, d, T);
    }
  }

  // ---- how soon a permission acts ----------------------------------------

  /** What is cached for the socket was checked by time T, unless it lets the socket edit. */
  ghost predicate RefusalsChecked(s: State, sid: SocketId, d: DrawingId, T: int) {
    sid in s.sockets && d in s.sockets[sid].cache && !CanEdit(s.sockets[sid].cache[d].access) ==>
      s.sockets[sid].cache[d].checkedAt <= T
  }

  /** The socket has joined the drawing. */
  predicate Joined(s: State, sid: SocketId, d: DrawingId) {
    sid in s.sockets && d in s.sockets[sid].cache
  }

  /** At each of the events, all at or after T, the socket is connected and the database lets it edit. */
  ghost predicate EditableThrough(s: State, events: seq<Event>, sid: SocketId, d: DrawingId, T: int)
    decreases |events|
  {
    events == [] || (
      && events[0].at >= T && !(events[0].Disconnect? && events[0].sid == sid) && sid in s.sockets
      && CanEdit(GetDrawingAccess(s.db, s.sockets[sid].principal, d, events[0].at))
      && EditableThrough(Step(s, events[0]), events[1..], sid, d, T))
  }

  lemma PastStepChecks(s: State, e: Event, sid: SocketId, d: DrawingId, T: int)
    requires RefusalsChecked(s, sid, d, T) && e.at <= T
    ensures RefusalsChecked(Step(s, e), sid, d, T)
  {
  }

  lemma {:induction false} PastChecks(s: State, events: seq<Event>, sid: SocketId, d: DrawingId, T: int)
    requires RefusalsChecked(s, sid, d, T) && forall i :: 0 <= i < |events| ==> events[i].at <= T
    ensures RefusalsChecked(Run(s, events), sid, d, T)
    decreases |events|
  {
    if events != [] {
      PastStepChecks(s, events[0], sid, d, T);
      PastChecks(Step(s, events[0]), events[1..], sid, d, T);
    }
  }

  lemma EditableStepChecks(s: State, e: Event, sid: SocketId, d: DrawingId, T: int)
    requires Joined(s, sid, d) && RefusalsChecked(s, sid, d, T) && !(e.Disconnect? && e.sid == sid)
    requires CanEdit(GetDrawingAccess(s.db, s.sockets[sid].principal, d, e.at))
    requires sid in s.principals
    ensures Joined(Step(s, e), sid, d) && RefusalsChecked(Step(s, e), sid, d, T) && sid in Step(s, e).principals
  {
    var asked := if e.JoinRoom? || e.ElementUpdate? then Some(e.d) else None;
    SocketAfterStep(s, e, sid);
    if Step(s, e).sockets[sid] != s.sockets[sid] {
      CheckKeepsJoined(s.db, s.sockets[sid], asked.value, e.at, d, T);
    }
  }

  /** What an event that does not disconnect a socket does to it: nothing, or an access check. */
  lemma SocketAfterStep(s: State, e: Event, sid: SocketId)
    requires sid in s.sockets && sid in s.principals && !(e.Disconnect? && e.sid == sid)
    ensures sid in Step(s, e).sockets && sid in Step(s, e).principals
    ensures Step(s, e).sockets[sid] == s.sockets[sid]
            || ((e.JoinRoom? || e.ElementUpdate?) && Step(s, e).sockets[sid] == CheckAccess(s.db, s.sockets[sid], e.d, e.at).0)
  {
  }

  lemma CheckKeepsJoined(db: Db, conn: Conn, asked: DrawingId, at: int, d: DrawingId, T: int)
    requires d in conn.cache && (!CanEdit(conn.cache[d].access) ==> conn.cache[d].checkedAt <= T)
    requires CanEdit(GetDrawingAccess(db, conn.principal, d, at))
    ensures var c := CheckAccess(db, conn, asked, at).0;
            d in c.cache && (!CanEdit(c.cache[d].access) ==> c.cache[d].checkedAt <= T)
  {
  }

  lemma {:induction false} EditableRunChecks(s: State, events: seq<Event>, sid: SocketId, d: DrawingId, T: int)
    requires Joined(s, sid, d) && RefusalsChecked(s, sid, d, T) && EditableThrough(s, events, sid, d, T)
    requires sid in s.principals
    ensures Joined(Run(s, events), sid, d) && RefusalsChecked(Run(s, events), sid, d, T)
    decreases |events|
  {
    if events != [] {
      EditableStepChecks(s, events[0], sid, d, T);
      EditableRunChecks(Step(s, events[0]), events[1..], sid, d, T);
    }
  }

  /** The other side of the bound: once the database has let a joined socket edit since T, its updates are
      relayed from T + 1500 ms on, whatever was cached before. */
  lemma GrantActsWithinTtl(db: Db, before: seq<Event>, after: seq<Event>, sid: SocketId, d: DrawingId, T: int, at: int)
    requires forall k :: 0 <= k < |before| ==> before[k].at <= T
    requires Joined(Run(Initial(db), before), sid, d) && at >= T + 1500
    requires EditableThrough(Run(Initial(db), before), after + [ElementUpdate(at, sid, d)], sid, d, T)
    ensures var s := Run(Run(Initial(db), before), after);
            Step(s, ElementUpdate(at, sid, d)).edits == s.edits + [EditRelay(sid, d, at)]
  {
    var s := Run(Initial(db), before);
    RunKeepsSane(Initial(db), before);
    PastChecks(Initial(db), before, sid, d, T);
    EditableAtEnd(s, after, ElementUpdate(at, sid, d), sid, d, T);
    EditableRunChecks(s, after, sid, d, T);
  }

  lemma {:induction false} EditableAtEnd(s: State, events: seq<Event>, e: Event, sid: SocketId, d: DrawingId, T: int)
    requires EditableThrough(s, events + [e], sid, d, T)
    ensures EditableThrough(s, events, sid, d, T)
    ensures var t := Run(s, events);
            sid in t.sockets && CanEdit(GetDrawingAccess(t.db, t.sockets[sid].principal, d, e.at))
    decreases |events|
  {
    if events == [] {
      assert (events + [e])[0] == e;
    } else {
      assert (events + [e])[0] == events[0] && (events + [e])[1..] == events[1..] + [e];
      EditableAtEnd(Step(s, events[0]), events[1..], e, sid, d, T);
    }
  }

  // ---- links that lapse --------------------------------------------------

  /** The event gives the principal no new way to edit the drawing. */
  ghost predicate GivesNoEdit(e: Event, who: Option<UserId>, d: DrawingId) {
    && !(e.LinkChange? && e.change.Insert? && e.change.drawing == d && e.change.permission == "edit")
    && (e.ChangeDb? ==> OnlyLinkCouldEdit(e.db, who, d))
  }

  lemma EditLinkStaysInactive(links: seq<Link>, d: DrawingId, t1: int, t2: int)
    requires t1 <= t2 && !EditLinkActive(links, d, t1)
    ensures !EditLinkActive(links, d, t2)
  {
    forall i | 0 <= i < |links| && links[i].permission == "edit" ensures !IsActive(links[i], d, t2) {
      assert !IsActive(links[i], d, t1);
    }
  }

  lemma LinkStepGivesNoEdit(s: State, e: Event, who: Option<UserId>, d: DrawingId, T: int)
    requires !EditLinkActive(s.db.links, d, T) && GivesNoEdit(e, who, d)
    ensures !EditLinkActive(Step(s, e).db.links, d, T)
  {
    var links, next := s.db.links, Step(s, e).db.links;
    forall i | 0 <= i < |next| && next[i].permission == "edit" ensures !IsActive(next[i], d, T) {
      if i < |links| {
        assert !(links[i].permission == "edit" && IsActive(links[i], d, T));
      }
    }
  }

  lemma LostGrantStep(s: State, e: Event, sid: SocketId, d: DrawingId, T: int)
    requires Sane(s) && sid in s.principals
    requires OnlyLinkCouldEdit(s.db, s.principals[sid], d) && !EditLinkActive(s.db.links, d, T)
    requires GivesNoEdit(e, s.principals[sid], d)
    ensures e.at >= T && sid in s.sockets ==> !CanEdit(GetDrawingAccess(s.db, s.sockets[sid].principal, d, e.at))
    ensures var t := Step(s, e);
            && Sane(t) && sid in t.principals && t.principals[sid] == s.principals[sid]
            && OnlyLinkCouldEdit(t.db, t.principals[sid], d) && !EditLinkActive(t.db.links, d, T)
  {
    if e.at >= T && sid in s.sockets {
      EditLinkStaysInactive(s.db.links, d, T, e.at);
      NoGrantNoEdit(s.db, s.principals[sid], d, e.at);
    }
    StepKeepsSane(s, e);
    LinkStepGivesNoEdit(s, e, s.principals[sid], d, T);
  }

  /** Once only a link could have let the principal edit and no editing link is active, nothing but a
      new grant brings the permission back. */
  lemma {:induction false} LostGrantStaysLost(s: State, events: seq<Event>, sid: SocketId, d: DrawingId, T: int)
    requires Sane(s) && sid in s.principals
    requires OnlyLinkCouldEdit(s.db, s.principals[sid], d) && !EditLinkActive(s.db.links, d, T)
    requires forall i :: 0 <= i < |events| ==> GivesNoEdit(events[i], s.principals[sid], d)
    ensures NotEditableFrom(s, events, sid, d, T)
    decreases |events|
  {
    if events != [] {
      LostGrantStep(s, events[0], sid, d, T);
      LostGrantStaysLost(Step(s, events[0]), events[1..], sid, d, T);
    }
  }

  /** If at time T a socket's only possible edit grant is gone, no element update of its is relayed at
      or after T + 1500 ms, until it is granted editing again. */
  lemma LostGrantStopsEdits(db: Db, before: seq<Event>, after: seq<Event>, sid: SocketId, d: DrawingId, T: int, i: nat)
    requires forall k :: 0 <= k < |before| ==> before[k].at <= T
    requires var s := Run(Initial(db), before);
             && sid in s.principals
             && OnlyLinkCouldEdit(s.db, s.principals[sid], d) && !EditLinkActive(s.db.links, d, T)
             && (forall k :: 0 <= k < |after| ==> GivesNoEdit(after[k], s.principals[sid], d))
             && i < |Run(s, after).edits|
    ensures var edit := Run(Run(Initial(db), before), after).edits[i];
            edit.sender == sid && edit.drawing == d ==> edit.at < T + 1500
  {
    var s := Run(Initial(db), before);
    RunKeepsSane(Initial(db), before);
    PastIsBounded(Initial(db), before, sid, d, T);
    LostGrantStaysLost(s, after, sid, d, T);
    EditsStopWithinTtl(s, after, sid, d, T);
  }

  /** What a run does to the link table. */
  function LinkEvents(events: seq<Event>): seq<LinkRoutes.Event> {
    if events == [] then []
    else (if events[0].LinkChange? then [events[0].change] else []) + LinkEvents(events[1..])
  }

  lemma LinksOfStep(s: State, e: Event)
    ensures Links(Step(s, e)) == if e.LinkChange? then LinkRoutes.Step(Links(s), e.change) else Links(s)
  {
  }

  lemma {:induction false} LinksOfRun(s: State, events: seq<Event>)
    ensures Links(Run(s, events)) == LinkRoutes.Run(Links(s), LinkEvents(events))
    decreases |events|
  {
    if events != [] {
      LinksOfStep(s, events[0]);
      LinksOfRun(Step(s, events[0]), events[1..]);
      var rest := LinkEvents(events[1..]);
      if events[0].LinkChange? {
        assert LinkEvents(events) == [events[0].change] + rest;
      } else {
        assert LinkEvents(events) == rest;
      }
    }
  }

  lemma OneLinkOfRun(db: Db, events: seq<Event>, d: DrawingId)
    requires LinkRoutes.Apart(LinkRoutes.EMPTY, LinkEvents(events), d)
    ensures OneUnrevokedLink(Run(Initial(db), events).db.links, d)
  {
    LinksOfRun(Initial(db), events);
    LinkRoutes.RunKeepsAtMostOne(LinkRoutes.EMPTY, LinkEvents(events), d);
  }

  /** The link expires at T: in every state reached without overlapping requests to replace the drawing's link no
      editing link of the drawing is then active. */
  lemma ExpiryEndsLinkEditing(db: Db, before: seq<Event>, d: DrawingId, link: nat, T: int)
    requires LinkRoutes.Apart(LinkRoutes.EMPTY, LinkEvents(before), d)
    requires var links := Run(Initial(db), before).db.links;
             Unrevoked(links, d, link) && links[link].expiresAt.Some? && links[link].expiresAt.value <= T
    ensures !EditLinkActive(Run(Initial(db), before).db.links, d, T)
  {
    OneLinkOfRun(db, before, d);
    LinkRoutes.OneLinkEnds(Run(Initial(db), before).db.links, d, T);
  }

  /** The link is revoked: in every state so reached no link of the drawing is active afterwards. */
  lemma RevocationEndsLinkEditing(db: Db, before: seq<Event>, d: DrawingId, link: nat, T: int)
    requires LinkRoutes.Apart(LinkRoutes.EMPTY, LinkEvents(before), d)
    requires Unrevoked(Run(Initial(db), before).db.links, d, link)
    ensures !EditLinkActive(Step(Run(Initial(db), before), LinkChange(T, LinkRoutes.Revoke(link))).db.links, d, T)
  {
    OneLinkOfRun(db, before, d);
    LinkRoutes.OneLinkEnds(Run(Initial(db), before).db.links, d, T);
  }

  // ---- presence ----------------------------------------------------------

  ghost predicate DistinctIds(users: seq<Presence>) {
    forall i, j :: 0 <= i < j < |users| ==> users[i].id != users[j].id
  }

  ghost predicate RoomsDistinct(s: State) {
    forall d :: d in s.rooms ==> DistinctIds(s.rooms[d])
  }

  lemma {:induction false} WithoutUserDistinct(users: seq<Presence>, id: string)
    requires DistinctIds(users)
    ensures DistinctIds(WithoutUser(users, id))
  {
    if users != [] {
      var rest := WithoutUser(users[1..], id);
      WithoutUserDistinct(users[1..], id);
      WithoutUserKeeps(users[1..], id);
      forall j | 0 <= j < |rest| ensures rest[j].id != users[0].id {
        assert rest[j] in rest;
      }
    }
  }

  lemma StepKeepsRoomsDistinct(s: State, e: Event)
    requires RoomsDistinct(s)
    ensures RoomsDistinct(Step(s, e))
  {
    match e
    case JoinRoom(at, sid, d, id, name, color) =>
      var t := Step(s, e);
      if sid in s.sockets && t.rooms != s.rooms {
        var u := t.rooms[d][|t.rooms[d]| - 1];
        WithoutUserDistinct(Room(s, d), u.id);
        WithoutUserKeeps(Room(s, d), u.id);
        var rest := WithoutUser(Room(s, d), u.id);
        forall j | 0 <= j < |rest| ensures rest[j].id != u.id {
          assert rest[j] in rest;
        }
      }
    case _ =>
  }

  /** In every reachable state the user ids within a room are distinct. */
  lemma {:induction false} UserIdsDistinct(s: State, events: seq<Event>)
    requires RoomsDistinct(s)
    ensures RoomsDistinct(Run(s, events))
    decreases |events|
  {
    if events != [] {
      StepKeepsRoomsDistinct(s, events[0]);
      UserIdsDistinct(Step(s, events[0]), events[1..]);
    }
  }

  /** How many entries of the list belong to the socket. */
  function Entries(users: seq<Presence>, sid: SocketId): nat {
    if users == [] then 0 else (if users[0].socketId == sid then 1 else 0) + Entries(users[1..], sid)
  }

  lemma {:induction false} NoEntries(users: seq<Presence>, sid: SocketId)
    ensures Entries(users, sid) == 0 <==> FindSocket(users, sid) == |users|
  {
    if users != [] {
      NoEntries(users[1..], sid);
    }
  }

  lemma {:induction false} RemoveSocketRemovesOne(users: seq<Presence>, sid: SocketId)
    ensures Entries(RemoveSocket(users, sid), sid)
         == if Entries(users, sid) == 0 then 0 else Entries(users, sid) - 1
  {
    NoEntries(users, sid);
    var k := FindSocket(users, sid);
    if users != [] && users[0].socketId != sid {
      RemoveSocketRemovesOne(users[1..], sid);
      if k < |users| {
        assert users[1..][..k - 1] + users[1..][k..] == (users[..k] + users[k + 1..])[1..];
      }
    } else if users != [] {
      assert users[..0] + users[1..] == users[1..];
    }
  }

  ghost predicate Mentions(s: State, sid: SocketId) {
    exists d :: d in s.rooms && Entries(s.rooms[d], sid) > 0
  }

  /** A disconnect clears the socket from every room exactly when no room held it twice. */
  lemma DisconnectClearsExactly(s: State, sid: SocketId)
    ensures !Mentions(AfterDisconnect(s, sid), sid) <==> forall d :: d in s.rooms ==> Entries(s.rooms[d], sid) <= 1
  {
    forall d | d in s.rooms
      ensures Entries(AfterDisconnect(s, sid).rooms[d], sid)
           == if Entries(s.rooms[d], sid) == 0 then 0 else Entries(s.rooms[d], sid) - 1
    {
      RemoveSocketRemovesOne(s.rooms[d], sid);
    }
    if !Mentions(AfterDisconnect(s, sid), sid) {
      forall d | d in s.rooms ensures Entries(s.rooms[d], sid) <= 1 {
        assert Entries(AfterDisconnect(s, sid).rooms[d], sid) == 0;
      }
    }
  }

  // ---- sockets with a fixed identity -------------------------------------

  /** Anonymous, or signed in with an account that exists: the server alone decides the presence id. */
  ghost predicate FixedIdentity(db: Db, who: Option<UserId>) {
    who.None? || HasAccount(db, who)
  }

  function FixedId(who: Option<UserId>, sid: SocketId): string {
    if who.None? then Take("anon:" + sid, 200) else who.value
  }

  /** The socket appears only under its own identity, in rooms and in relayed cursors. */
  ghost predicate OnlyAs(s: State, sid: SocketId, id: string) {
    && (forall d, i :: d in s.rooms && 0 <= i < |s.rooms[d]| && s.rooms[d][i].socketId == sid ==> s.rooms[d][i].id == id)
    && (forall i :: 0 <= i < |s.cursors| && s.cursors[i].sender == sid ==> s.cursors[i].userId == id)
  }

  /** The account of the principal, if any, is not deleted by the event. */
  ghost predicate KeepsAccount(e: Event, who: Option<UserId>) {
    e.ChangeDb? && who.Some? ==> who.value in e.db.accounts
  }

  lemma JoinKeepsOnlyAs(s: State, e: Event, sid: SocketId, who: Option<UserId>)
    requires Sane(s) && e.JoinRoom? && FixedIdentity(s.db, who)
    requires sid in s.principals && s.principals[sid] == who && OnlyAs(s, sid, FixedId(who, sid))
    ensures OnlyAs(Step(s, e), sid, FixedId(who, sid))
  {
    var t := Step(s, e);
    if e.sid in s.sockets && t.rooms != s.rooms {
      var u := t.rooms[e.d][|t.rooms[e.d]| - 1];
      JoinedRoom(Room(s, e.d), u);
      forall i | 0 <= i < |t.rooms[e.d]| && t.rooms[e.d][i].socketId == sid
        ensures t.rooms[e.d][i].id == FixedId(who, sid)
      {
        assert t.rooms[e.d][i] in t.rooms[e.d];
      }
    }
  }

  lemma StepKeepsOnlyAs(s: State, e: Event, sid: SocketId, who: Option<UserId>)
    requires Sane(s) && FixedIdentity(s.db, who) && KeepsAccount(e, who)
    requires sid in s.principals && s.principals[sid] == who && OnlyAs(s, sid, FixedId(who, sid))
    ensures OnlyAs(Step(s, e), sid, FixedId(who, sid)) && FixedIdentity(Step(s, e).db, who)
  {
    match e
    case JoinRoom(_, _, _, _, _, _) => JoinKeepsOnlyAs(s, e, sid, who);
    case CursorMove(_, _, _) => CursorKeepsOnlyAs(s, e, sid, who);
    case Disconnect(_, _) => DisconnectKeepsOnlyAs(s, e, sid, FixedId(who, sid));
    case _ =>
  }

  lemma CursorKeepsOnlyAs(s: State, e: Event, sid: SocketId, who: Option<UserId>)
    requires e.CursorMove? && OnlyAs(s, sid, FixedId(who, sid))
    ensures OnlyAs(Step(s, e), sid, FixedId(who, sid))
  {
  }

  lemma DisconnectKeepsOnlyAs(s: State, e: Event, sid: SocketId, id: string)
    requires e.Disconnect? && OnlyAs(s, sid, id)
    ensures OnlyAs(Step(s, e), sid, id)
  {
  }

  lemma {:induction false} RunKeepsOnlyAs(s: State, events: seq<Event>, sid: SocketId, who: Option<UserId>)
    requires Sane(s) && FixedIdentity(s.db, who) && forall i :: 0 <= i < |events| ==> KeepsAccount(events[i], who)
    requires sid in s.principals && s.principals[sid] == who && OnlyAs(s, sid, FixedId(who, sid))
    ensures OnlyAs(Run(s, events), sid, FixedId(who, sid))
    decreases |events|
  {
    if events != [] {
      StepKeepsSane(s, events[0]);
      StepKeepsOnlyAs(s, events[0], sid, who);
      RunKeepsOnlyAs(Step(s, events[0]), events[1..], sid, who);
    }
  }

  lemma {:induction false} DistinctMeansAtMostOne(users: seq<Presence>, sid: SocketId, id: string)
    requires DistinctIds(users) && forall i :: 0 <= i < |users| && users[i].socketId == sid ==> users[i].id == id
    ensures Entries(users, sid) <= 1
  {
    if users != [] {
      DistinctMeansAtMostOne(users[1..], sid, id);
      if users[0].socketId == sid {
        NoEntries(users[1..], sid);
        assert forall i :: 0 <= i < |users[1..]| ==> users[1..][i] == users[i + 1] && users[i + 1].id != users[0].id;
      }
    }
  }

  /** An anonymous or existing-account socket has at most one entry per room, and every cursor
      relayed for it carries its own identity, whatever the clients sent. */
  lemma OneEntryPerSocket(db: Db, before: seq<Event>, after: seq<Event>, at: int, sid: SocketId, who: Option<UserId>,
                          d: DrawingId, i: nat)
    requires sid !in Run(Initial(db), before).principals
    requires FixedIdentity(Run(Initial(db), before).db, who)
    requires forall k :: 0 <= k < |after| ==> KeepsAccount(after[k], who)
    ensures var s := Run(Step(Run(Initial(db), before), Connect(at, sid, who)), after);
            && (d in s.rooms ==> Entries(s.rooms[d], sid) <= 1)
            && (i < |s.cursors| && s.cursors[i].sender == sid ==> s.cursors[i].userId == FixedId(who, sid))
  {
    var s0 := Run(Initial(db), before);
    var s1 := Step(s0, Connect(at, sid, who));
    var s := Run(s1, after);
    RunKeepsSane(Initial(db), before);
    RunKeepsCursorSenders(Initial(db), before);
    StepKeepsSane(s0, Connect(at, sid, who));
    RunKeepsOnlyAs(s1, after, sid, who);
    UserIdsDistinct(Initial(db), before);
    UserIdsDistinct(s1, after);
    if d in s.rooms {
      DistinctMeansAtMostOne(s.rooms[d], sid, FixedId(who, sid));
    }
  }

  ghost predicate CursorSendersKnown(s: State) {
    forall i :: 0 <= i < |s.cursors| ==> s.cursors[i].sender in s.principals
  }

  lemma {:induction false} RunKeepsCursorSenders(s: State, events: seq<Event>)
    requires Sane(s) && CursorSendersKnown(s)
    ensures CursorSendersKnown(Run(s, events))
    decreases |events|
  {
    if events != [] {
      StepKeepsSane(s, events[0]);
      RunKeepsCursorSenders(Step(s, events[0]), events[1..]);
    }
  }

  // ---- after a disconnect ------------------------------------------------

  ghost predicate Gone(s: State, sid: SocketId) {
    && sid in s.principals && sid !in s.sockets
    && forall d, i :: d in s.rooms && 0 <= i < |s.rooms[d]| ==> s.rooms[d][i].socketId != sid
  }

  lemma StepKeepsGone(s: State, e: Event, sid: SocketId)
    requires Gone(s, sid)
    ensures Gone(Step(s, e), sid)
  {
    match e
    case JoinRoom(_, _, d, _, _, _) =>
      var t := Step(s, e);
      if e.sid in s.sockets && t.rooms != s.rooms {
        JoinedRoom(Room(s, d), t.rooms[d][|t.rooms[d]| - 1]);
        forall i | 0 <= i < |t.rooms[d]| ensures t.rooms[d][i].socketId != sid {
          assert t.rooms[d][i] in t.rooms[d];
        }
      }
    case _ =>
  }

  lemma {:induction false} RunKeepsGone(s: State, events: seq<Event>, sid: SocketId)
    requires Gone(s, sid)
    ensures Gone(Run(s, events), sid)
    decreases |events|
  {
    if events != [] {
      StepKeepsGone(s, events[0], sid);
      RunKeepsGone(Step(s, events[0]), events[1..], sid);
    }
  }

  lemma DisconnectMakesGone(s: State, sid: SocketId)
    requires sid in s.principals && forall d :: d in s.rooms ==> Entries(s.rooms[d], sid) <= 1
    ensures Gone(AfterDisconnect(s, sid), sid)
  {
    var t := AfterDisconnect(s, sid);
    forall d, i | d in t.rooms && 0 <= i < |t.rooms[d]| ensures t.rooms[d][i].socketId != sid {
      RemoveSocketRemovesOne(s.rooms[d], sid);
      NoEntries(t.rooms[d], sid);
    }
  }

  /** After an anonymous or existing-account socket disconnects, no room ever mentions it again. */
  lemma DisconnectedStaysGone(db: Db, before: seq<Event>, during: seq<Event>, after: seq<Event>, at: int, left: int,
                              sid: SocketId, who: Option<UserId>)
    requires sid !in Run(Initial(db), before).principals
    requires FixedIdentity(Run(Initial(db), before).db, who)
    requires forall k :: 0 <= k < |during| ==> KeepsAccount(during[k], who)
    requires sid in Run(Step(Run(Initial(db), before), Connect(at, sid, who)), during).sockets
    ensures var s := Run(Step(Run(Initial(db), before), Connect(at, sid, who)), during);
            Gone(Run(Step(s, Disconnect(left, sid)), after), sid)
  {
    var s0 := Run(Initial(db), before);
    var s1 := Step(s0, Connect(at, sid, who));
    var s := Run(s1, during);
    RunKeepsSane(Initial(db), before);
    StepKeepsSane(s0, Connect(at, sid, who));
    RunKeepsSane(s1, during);
    forall d | d in s.rooms ensures Entries(s.rooms[d], sid) <= 1 {
      OneEntryPerSocket(db, before, during, at, sid, who, d, 0);
    }
    DisconnectMakesGone(s, sid);
    RunKeepsGone(Step(s, Disconnect(left, sid)), after, sid);
  }

  /** A join by a socket that may view. */
  lemma JoinAdds(s: State, e: Event, id: string)
    requires e.JoinRoom? && e.sid in s.sockets && CheckAccess(s.db, s.sockets[e.sid], e.d, e.at).1 != NoAccess
    requires id == TrustedId(s.db, s.sockets[e.sid].principal, e.clientId, e.sid)
    ensures var t := Step(s, e);
            && t.db == s.db && e.sid in t.sockets && t.sockets[e.sid] == CheckAccess(s.db, s.sockets[e.sid], e.d, e.at).0
            && e.d in t.rooms && |t.rooms[e.d]| > 0
            && t.rooms[e.d][..|t.rooms[e.d]| - 1] == WithoutUser(Room(s, e.d), id)
            && t.rooms[e.d][|t.rooms[e.d]| - 1].socketId == e.sid && t.rooms[e.d][|t.rooms[e.d]| - 1].id == id
  {
  }

  lemma {:induction false} EntriesAppend(users: seq<Presence>, u: Presence, sid: SocketId)
    ensures Entries(users + [u], sid) == Entries(users, sid) + if u.socketId == sid then 1 else 0
  {
    if users == [] {
      assert (users + [u])[1..] == [];
    } else {
      assert (users + [u])[1..] == users[1..] + [u];
      EntriesAppend(users[1..], u, sid);
    }
  }

  /** Joining under an id of its own while it has an entry under another gives a socket two entries. */
  lemma JoinUnderAnotherId(s: State, e: Event, id: string, other: string)
    requires e.JoinRoom? && e.sid in s.sockets && CheckAccess(s.db, s.sockets[e.sid], e.d, e.at).1 != NoAccess
    requires id == TrustedId(s.db, s.sockets[e.sid].principal, e.clientId, e.sid) && id != other
    requires Room(s, e.d) != [] && Room(s, e.d)[|Room(s, e.d)| - 1].socketId == e.sid
    requires Room(s, e.d)[|Room(s, e.d)| - 1].id == other
    ensures e.d in Step(s, e).rooms && Entries(Step(s, e).rooms[e.d], e.sid) >= 2
  {
    JoinAdds(s, e, id);
    var users, now := Room(s, e.d), Step(s, e).rooms[e.d];
    var kept, last := WithoutUser(users, id), users[|users| - 1];
    WithoutUserKeeps(users, id);
    assert last in kept;
    if Entries(kept, e.sid) == 0 {
      NoEntries(kept, e.sid);
    }
    assert now == kept + [now[|now| - 1]];
    EntriesAppend(kept, now[|now| - 1], e.sid);
  }

  /** With authentication off the client picks its id: joining twice under two ids leaves an entry behind. */
  lemma BootstrapSocketCanLinger(db: Db, d: DrawingId, sid: SocketId, a: string, b: string)
    requires d in db.drawings && db.drawings[d].owner == BOOTSTRAP_USER_ID && PresenceId(a, sid) != PresenceId(b, sid)
    ensures var s := Run(Initial(db), [Connect(0, sid, Some(BOOTSTRAP_USER_ID)), JoinRoom(1, sid, d, a, "A", "#000"),
                                       JoinRoom(2, sid, d, b, "B", "#000")]);
            Mentions(AfterDisconnect(s, sid), sid)
  {
    var e0 := Connect(0, sid, Some(BOOTSTRAP_USER_ID));
    var e1, e2 := JoinRoom(1, sid, d, a, "A", "#000"), JoinRoom(2, sid, d, b, "B", "#000");
    var s0 := Step(Initial(db), e0);
    assert s0.sockets[sid] == Conn(Some(BOOTSTRAP_USER_ID), map[]);
    assert CheckAccess(s0.db, s0.sockets[sid], d, 1).1 == Owner;
    var s1 := Step(s0, e1);
    JoinAdds(s0, e1, PresenceId(a, sid));
    assert s1.sockets[sid] == Conn(Some(BOOTSTRAP_USER_ID), map[d := Cached(Owner, 1)]);
    var s2 := Step(s1, e2);
    JoinUnderAnotherId(s1, e2, PresenceId(b, sid), PresenceId(a, sid));
    RunOfThree(Initial(db), e0, e1, e2);
    DisconnectClearsExactly(s2, sid);
  }

  lemma RunOfThree(s: State, e0: Event, e1: Event, e2: Event)
    ensures Run(s, [e0, e1, e2]) == Step(Step(Step(s, e0), e1), e2)
  {
    var s1 := Step(s, e0);
    var s2 := Step(s1, e1);
    assert [e0, e1, e2][1..] == [e1, e2] && [e1, e2][1..] == [e2] && [e2][1..] == [];
    assert Run(s2, [e2]) == Run(Step(s2, e2), []);
    assert Run(s1, [e1, e2]) == Run(s2, [e2]);
  }

  // ---- each handler ------------------------------------------------------

  /** An access is answered from the cache for less than 1500 ms; then it is asked anew and cached with the time, or
      dropped when there is none. Other drawings' entries stay. */
  lemma CheckExactly(db: Db, conn: Conn, d: DrawingId, now: int)
    ensures var (after, access) := CheckAccess(db, conn, d, now);
            && after.principal == conn.principal && after.cache - {d} == conn.cache - {d}
            && if d in conn.cache && now < conn.cache[d].checkedAt + 1500 then
                 access == conn.cache[d].access && after == conn
               else
                 access == GetDrawingAccess(db, conn.principal, d, now)
                 && (d in after.cache <==> access != NoAccess)
                 && (d in after.cache ==> after.cache[d] == Cached(access, now))
  {
  }

  /** A join by a socket that may view shows it: the room keeps the other ids' entries and gains the socket's, active,
      under the id and name the server trusts. Without access nothing is shown. */
  lemma JoinExactly(s: State, e: Event)
    requires e.JoinRoom? && e.sid in s.sockets
    ensures var t, conn := Step(s, e), s.sockets[e.sid];
            var (after, access) := CheckAccess(s.db, conn, e.d, e.at);
            && t.sockets == s.sockets[e.sid := after] && t.db == s.db && t.edits == s.edits && t.cursors == s.cursors
            && (access == NoAccess ==> t.rooms == s.rooms)
            && (access != NoAccess ==>
                  && e.d in t.rooms && t.rooms - {e.d} == s.rooms - {e.d} && t.rooms[e.d] != []
                  && var u := t.rooms[e.d][|t.rooms[e.d]| - 1];
                     && u.socketId == e.sid && u.isActive && u.color == PresenceColor(e.color)
                     && u.id == (if conn.principal.None? then Take("anon:" + e.sid, 200)
                                 else if HasAccount(s.db, conn.principal) then conn.principal.value
                                 else PresenceId(e.clientId, e.sid))
                     && u.name == PresenceName(if HasAccount(s.db, conn.principal) then s.db.accounts[conn.principal.value]
                                               else e.clientName)
                     && forall v :: v in t.rooms[e.d] <==> v == u || (v in Room(s, e.d) && v.id != u.id))
  {
    var conn := s.sockets[e.sid];
    if CheckAccess(s.db, conn, e.d, e.at).1 != NoAccess {
      var t := Step(s, e);
      JoinedRoom(Room(s, e.d), t.rooms[e.d][|t.rooms[e.d]| - 1]);
    }
  }

  /** Presence text: trimmed and cut, with a default; colours are hexadecimal or the default. */
  lemma PresenceExactly(text: string)
    ensures PresenceName(text) != "" && |PresenceName(text)| <= 120
    ensures Trim(text) != "" ==> PresenceName(text) <= Trim(text)
    ensures Trim(text) == "" ==> PresenceName(text) == "User"
    ensures PresenceColor(text) == Trim(text) || PresenceColor(text) == "#4f46e5"
    ensures PresenceColor(text) != "" && PresenceColor(text)[0] == '#' && 4 <= |PresenceColor(text)| <= 9
    ensures forall i :: 1 <= i < |PresenceColor(text)| ==> IsHexDigit(PresenceColor(text)[i])
  {
  }

  /** A cursor is relayed exactly for a socket that has joined and has an entry, with that entry's identity. */
  lemma CursorExactly(s: State, e: Event)
    requires e.CursorMove? && e.sid in s.sockets
    ensures var t, users := Step(s, e), Room(s, e.d);
            if Joined(s, e.sid, e.d) && Entries(users, e.sid) > 0 then
              exists k :: && 0 <= k < |users| && users[k].socketId == e.sid
                          && t == s.(cursors := s.cursors + [CursorRelay(e.sid, e.d, users[k].id, users[k].name, users[k].color)])
            else t == s
  {
    NoEntries(Room(s, e.d), e.sid);
  }

  /** An element update is relayed exactly for a socket that has joined and whose checked access lets it edit. */
  lemma UpdateExactly(s: State, e: Event)
    requires e.ElementUpdate? && e.sid in s.sockets
    ensures var t := Step(s, e);
            && t.rooms == s.rooms && t.cursors == s.cursors && t.db == s.db
            && t.edits == if Joined(s, e.sid, e.d) && CanEdit(CheckAccess(s.db, s.sockets[e.sid], e.d, e.at).1)
                          then s.edits + [EditRelay(e.sid, e.d, e.at)] else s.edits
  {
  }

  /** An activity report sets the flag of the socket's first entry, and changes nothing else. */
  lemma ActivityExactly(s: State, e: Event)
    requires e.UserActivity? && e.sid in s.sockets
    ensures var t, users := Step(s, e), Room(s, e.d);
            if Joined(s, e.sid, e.d) && Entries(users, e.sid) > 0 then
              exists k :: && 0 <= k < |users| && users[k].socketId == e.sid && (forall j :: 0 <= j < k ==> users[j].socketId != e.sid)
                          && t == s.(rooms := s.rooms[e.d := users[k := users[k].(isActive := e.isActive)]])
            else t == s
  {
    NoEntries(Room(s, e.d), e.sid);
  }

  /** A new socket starts with its principal and no cached access. */
  lemma ConnectExactly(s: State, e: Event)
    requires e.Connect? && e.sid !in s.principals
    ensures Step(s, e) == s.(sockets := s.sockets[e.sid := Conn(e.who, map[])], principals := s.principals[e.sid := e.who])
  {
  }

  /** A disconnect touches no other socket: its state and its entries in every room stay. */
  lemma DisconnectTouchesNoOther(s: State, sid: SocketId, other: SocketId, d: DrawingId)
    requires other != sid
    ensures var t := AfterDisconnect(s, sid);
            && sid !in t.sockets && (other in t.sockets <==> other in s.sockets)
            && (other in s.sockets ==> t.sockets[other] == s.sockets[other])
            && t.rooms.Keys == s.rooms.Keys && (d in s.rooms ==> Entries(t.rooms[d], other) == Entries(s.rooms[d], other))
  {
    if d in s.rooms {
      RemoveSocketKeepsOthers(s.rooms[d], sid, other);
    }
  }

  lemma {:induction false} EntriesConcat(a: seq<Presence>, b: seq<Presence>, sid: SocketId)
    ensures Entries(a + b, sid) == Entries(a, sid) + Entries(b, sid)
  {
    if a == [] {
      assert a + b == b;
    } else {
      assert (a + b)[1..] == a[1..] + b;
      EntriesConcat(a[1..], b, sid);
    }
  }

  lemma RemoveSocketKeepsOthers(users: seq<Presence>, sid: SocketId, other: SocketId)
    requires other != sid
    ensures Entries(RemoveSocket(users, sid), other) == Entries(users, other)
  {
    var k := FindSocket(users, sid);
    if k < |users| {
      var rest := users[k..];
      assert users == users[..k] + rest && rest[1..] == users[k + 1..];
      EntriesConcat(users[..k], rest, other);
      EntriesConcat(users[..k], rest[1..], other);
    }
  }
}
