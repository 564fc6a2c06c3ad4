/** Who may see and edit a drawing: ownership, explicit grants, collections and the link policy. */
module Sharing {
  import opened Prelude

  type UserId = string
  type DrawingId = string
  type CollectionId = string

  datatype Access = NoAccess | View | Edit | Owner

  datatype Drawing = Drawing(owner: UserId, collection: Option<CollectionId>)

  datatype Link = Link(drawing: DrawingId, permission: string, revoked: bool, expiresAt: Option<int>, createdAt: int)

  datatype Db = Db(
    accounts: map<UserId, string>,
    drawings: map<DrawingId, Drawing>,
    permissions: map<(DrawingId, UserId), string>,
    collections: map<CollectionId, UserId>,
    collectionShares: map<(CollectionId, UserId), string>,
    links: seq<Link>)

  function NormalizePermission(input: string): Option<Access> {
    if input == "view" then Some(View) else if input == "edit" then Some(Edit) else None
  }

  function Rank(a: Access): nat {
    match a
    case Owner => 3
    case Edit => 2
    case View => 1
    case NoAccess => 0
  }

  function MaxAccess(a: Access, b: Access): Access {
    if Rank(a) >= Rank(b) then a else b
  }

  predicate CanEdit(a: Access) {
    a == Edit || a == Owner
  }

  predicate IsActive(l: Link, d: DrawingId, now: int) {
    l.drawing == d && !l.revoked && (l.expiresAt.None? || l.expiresAt.value > now)
  }

  /** The most recently created active link of the drawing. */
  function LatestActive(links: seq<Link>, d: DrawingId, now: int): Option<Link> {
    if links == [] then None
    else
      var rest := LatestActive(links[1..], d, now);
      if IsActive(links[0], d, now) && (rest.None? || rest.value.createdAt <= links[0].createdAt)
      then Some(links[0]) else rest
  }

  function LinkAccess(links: seq<Link>, d: DrawingId, now: int): Access {
    var latest := LatestActive(links, d, now);
    if latest.None? then NoAccess else NormalizePermission(latest.value.permission).GetOr(NoAccess)
  }

  /** What a signed-in user holds apart from the link policy (ownership, grant, collection). */
  function BaseAccess(db: Db, user: UserId, d: DrawingId): Access
    requires d in db.drawings
  {
    var drawing := db.drawings[d];
    if drawing.owner == user then Owner
    else
      var direct := if (d, user) in db.permissions
                    then NormalizePermission(db.permissions[(d, user)]).GetOr(NoAccess) else NoAccess;
      if direct != NoAccess || drawing.collection.None? then direct
      else
        var c := drawing.collection.value;
        if c in db.collections && db.collections[c] == user then Owner
        else if (c, user) in db.collectionShares
        then NormalizePermission(db.collectionShares[(c, user)]).GetOr(NoAccess) else NoAccess
  }

  function GetDrawingAccess(db: Db, principal: Option<UserId>, d: DrawingId, now: int): Access {
    if principal.None? then LinkAccess(db.links, d, now)
    else if d !in db.drawings then NoAccess
    else if db.drawings[d].owner == principal.value then Owner
    else MaxAccess(BaseAccess(db, principal.value, d), LinkAccess(db.links, d, now))
  }

  /** The same decision as the source takes it, reassigning the base access branch by branch. */
  method ResolveDrawingAccess(db: Db, principal: Option<UserId>, d: DrawingId, now: int) returns (access: Access)
    ensures access == GetDrawingAccess(db, principal, d, now)
  {
    var baseAccess := NoAccess;
    if principal.Some? {
      var user := principal.value;
      if d !in db.drawings {
        return NoAccess;
      }
      var drawing := db.drawings[d];
      if drawing.owner == user {
        return Owner;
      }
      if (d, user) in db.permissions {
        baseAccess := NormalizePermission(db.permissions[(d, user)]).GetOr(baseAccess);
      }
      if baseAccess == NoAccess && drawing.collection.Some? {
        var c := drawing.collection.value;
        if c in db.collections && db.collections[c] == user {
          baseAccess := Owner;
        } else if (c, user) in db.collectionShares {
          baseAccess := NormalizePermission(db.collectionShares[(c, user)]).GetOr(baseAccess);
        }
      }
    }
    var latest := LatestActive(db.links, d, now);
    var linkAccess := if latest.None? then NoAccess else NormalizePermission(latest.value.permission).GetOr(NoAccess);
    access := MaxAccess(baseAccess, linkAccess);
  }

  // ---- the link table ----------------------------------------------------

  ghost predicate Unrevoked(links: seq<Link>, d: DrawingId, i: int) {
    0 <= i < |links| && links[i].drawing == d && !links[i].revoked
  }

  ghost predicate OneUnrevokedLink(links: seq<Link>, d: DrawingId) {
    forall i, j :: Unrevoked(links, d, i) && Unrevoked(links, d, j) ==> i == j
  }

  function RevokeWhere(links: seq<Link>, d: DrawingId): (r: seq<Link>)
    ensures |r| == |links|
  {
    seq(|links|, i requires 0 <= i < |links| =>
      if links[i].drawing == d then links[i].(revoked := true) else links[i])
  }

  function RevokeLink(links: seq<Link>, i: nat): seq<Link> {
    if i < |links| then links[i := links[i].(revoked := true)] else links
  }

  lemma {:induction false} LatestActiveIsActive(links: seq<Link>, d: DrawingId, now: int)
    ensures match LatestActive(links, d, now)
            case Some(l) => exists i :: 0 <= i < |links| && links[i] == l && IsActive(l, d, now)
                              && forall j :: 0 <= j < |links| && IsActive(links[j], d, now) ==> links[j].createdAt <= l.createdAt
            case None => forall i :: 0 <= i < |links| ==> !IsActive(links[i], d, now)
  {
    if links != [] {
      LatestActiveIsActive(links[1..], d, now);
      var rest := LatestActive(links[1..], d, now);
      forall j | 0 < j < |links| ensures links[j] == links[1..][j - 1] {}
      if rest.Some? && LatestActive(links, d, now) == rest {
        var i :| 0 <= i < |links[1..]| && links[1..][i] == rest.value;
        assert links[i + 1] == rest.value;
      }
    }
  }

  /** With at most one unrevoked link, the link policy only ever weakens as time passes. */
  lemma LinkAccessNeverRises(links: seq<Link>, d: DrawingId, t1: int, t2: int)
    requires t1 <= t2 && OneUnrevokedLink(links, d)
    ensures Rank(LinkAccess(links, d, t2)) <= Rank(LinkAccess(links, d, t1))
  {
    LatestActiveIsActive(links, d, t1);
    LatestActiveIsActive(links, d, t2);
    var l2 := LatestActive(links, d, t2);
    if l2.Some? {
      var i :| 0 <= i < |links| && links[i] == l2.value;
      assert IsActive(links[i], d, t1) && Unrevoked(links, d, i);
      var l1 := LatestActive(links, d, t1);
      var j :| 0 <= j < |links| && links[j] == l1.value && IsActive(l1.value, d, t1);
      assert Unrevoked(links, d, j);
    }
  }

  /** In an otherwise fixed database nobody's access rises as time passes. */
  lemma AccessNeverRises(db: Db, principal: Option<UserId>, d: DrawingId, t1: int, t2: int)
    requires t1 <= t2 && OneUnrevokedLink(db.links, d)
    ensures Rank(GetDrawingAccess(db, principal, d, t2)) <= Rank(GetDrawingAccess(db, principal, d, t1))
  {
    LinkAccessNeverRises(db.links, d, t1, t2);
  }

  /** Two unrevoked links can raise access: a newer "view" link that expires uncovers an older "edit" one. */
  lemma TwoLinksCanRaiseAccess(db: Db, d: DrawingId)
    requires db.links == [Link(d, "edit", false, None, 0), Link(d, "view", false, Some(10), 1)]
    ensures GetDrawingAccess(db, None, d, 9) == View && GetDrawingAccess(db, None, d, 10) == Edit
  {
    var links := db.links;
    var tail := links[1..];
    assert tail[1..] == [];
    assert LatestActive(tail[1..], d, 9) == None == LatestActive(tail[1..], d, 10);
    assert LatestActive(tail, d, 9) == Some(links[1]) && LatestActive(tail, d, 10) == None;
    assert LatestActive(links, d, 9) == Some(links[1]) && LatestActive(links, d, 10) == Some(links[0]);
  }

  // ---- who may do what, read from the tables ------------------------------

  /** The first of the most recently created links of the drawing that are neither revoked nor expired. */
  ghost predicate Newest(links: seq<Link>, d: DrawingId, now: int, i: int) {
    && 0 <= i < |links| && Usable(links[i], d, now)
    && forall j :: 0 <= j < |links| && Usable(links[j], d, now) && j != i ==>
         links[j].createdAt < links[i].createdAt || (links[j].createdAt == links[i].createdAt && i < j)
  }

  predicate Usable(l: Link, d: DrawingId, now: int) {
    l.drawing == d && !l.revoked && match l.expiresAt case Some(end) => now < end case None => true
  }

  /** The newest usable link gives one of these permissions. */
  ghost predicate LinkGives(links: seq<Link>, d: DrawingId, now: int, permissions: set<string>) {
    exists i :: Newest(links, d, now, i) && links[i].permission in permissions
  }

  const VIEW_OR_EDIT: set<string> := {"view", "edit"}

  predicate Owns(db: Db, user: UserId, d: DrawingId) {
    d in db.drawings && db.drawings[d].owner == user
  }

  /** The user was granted one of these permissions on the drawing itself. */
  predicate Granted(db: Db, user: UserId, d: DrawingId, permissions: set<string>) {
    (d, user) in db.permissions && db.permissions[(d, user)] in permissions
  }

  predicate OwnsCollection(db: Db, user: UserId, d: DrawingId) {
    d in db.drawings && match db.drawings[d].collection
      case Some(c) => c in db.collections && db.collections[c] == user
      case None => false
  }

  predicate SharesCollection(db: Db, user: UserId, d: DrawingId, permissions: set<string>) {
    d in db.drawings && match db.drawings[d].collection
      case Some(c) => (c, user) in db.collectionShares && db.collectionShares[(c, user)] in permissions
      case None => false
  }

  /** By the collection, which counts only without a valid grant on the drawing. */
  predicate ByCollection(db: Db, user: UserId, d: DrawingId, permissions: set<string>) {
    !Granted(db, user, d, VIEW_OR_EDIT)
    && (OwnsCollection(db, user, d) || SharesCollection(db, user, d, permissions))
  }

  lemma {:induction false} LatestExactly(links: seq<Link>, d: DrawingId, now: int)
    ensures match LatestActive(links, d, now)
            case Some(l) => exists i :: Newest(links, d, now, i) && links[i] == l
            case None => forall i :: !Newest(links, d, now, i)
  {
    if links != [] {
      var rest := links[1..];
      LatestExactly(rest, d, now);
      forall j | 0 < j < |links| ensures links[j] == rest[j - 1] {}
      var latest, later := LatestActive(links, d, now), LatestActive(rest, d, now);
      if later.Some? {
        var i :| Newest(rest, d, now, i) && rest[i] == later.value;
        if latest == later && !(IsActive(links[0], d, now) && later.value.createdAt <= links[0].createdAt) {
          assert Newest(links, d, now, i + 1);
        } else {
          assert Newest(links, d, now, 0);
        }
      } else {
        NoNewestNoneUsable(rest, d, now);
        if latest.Some? {
          assert Newest(links, d, now, 0);
        } else {
          forall i ensures !Newest(links, d, now, i) {
            assert 0 < i < |links| ==> !Usable(rest[i - 1], d, now);
          }
        }
      }
    }
  }

  /** Where there is no newest usable link there is no usable one. */
  lemma NoNewestNoneUsable(links: seq<Link>, d: DrawingId, now: int)
    requires LatestActive(links, d, now).None?
    ensures forall i :: 0 <= i < |links| ==> !Usable(links[i], d, now)
  {
    LatestActiveIsActive(links, d, now);
    forall i | 0 <= i < |links| ensures !Usable(links[i], d, now) {
      assert !IsActive(links[i], d, now);
    }
  }

  lemma NewestIsUnique(links: seq<Link>, d: DrawingId, now: int, i: int, j: int)
    requires Newest(links, d, now, i) && Newest(links, d, now, j)
    ensures i == j
  {
  }

  lemma LinkAccessExactly(links: seq<Link>, d: DrawingId, now: int)
    ensures LinkAccess(links, d, now) == Edit <==> LinkGives(links, d, now, {"edit"})
    ensures LinkAccess(links, d, now) != NoAccess <==> LinkGives(links, d, now, VIEW_OR_EDIT)
    ensures LinkAccess(links, d, now) != Owner
  {
    LatestExactly(links, d, now);
    var latest := LatestActive(links, d, now);
    if latest.Some? {
      var i :| Newest(links, d, now, i) && links[i] == latest.value;
      forall j | Newest(links, d, now, j) ensures j == i {
        NewestIsUnique(links, d, now, i, j);
      }
    }
  }

  /** Who may edit, who may view, and who counts as owner: a signed-in user. */
  lemma UserAccessExactly(db: Db, user: UserId, d: DrawingId, now: int)
    ensures var access := GetDrawingAccess(db, Some(user), d, now);
            && (access == Owner <==>
                  Owns(db, user, d) || (OwnsCollection(db, user, d) && !Granted(db, user, d, VIEW_OR_EDIT)))
            && (access == Owner || access == Edit <==>
                  d in db.drawings
                  && (Owns(db, user, d) || Granted(db, user, d, {"edit"}) || ByCollection(db, user, d, {"edit"})
                      || LinkGives(db.links, d, now, {"edit"})))
            && (access != NoAccess <==>
                  d in db.drawings
                  && (Owns(db, user, d) || Granted(db, user, d, VIEW_OR_EDIT) || ByCollection(db, user, d, VIEW_OR_EDIT)
                      || LinkGives(db.links, d, now, VIEW_OR_EDIT)))
  {
    LinkAccessExactly(db.links, d, now);
  }

  /** An anonymous visitor: only by the link, and never as owner. */
  lemma VisitorAccessExactly(db: Db, d: DrawingId, now: int)
    ensures var access := GetDrawingAccess(db, None, d, now);
            && access != Owner
            && (access == Edit <==> LinkGives(db.links, d, now, {"edit"}))
            && (access != NoAccess <==> LinkGives(db.links, d, now, VIEW_OR_EDIT))
  {
    LinkAccessExactly(db.links, d, now);
  }

  // ---- the end of a grant ------------------------------------------------

  /** Nothing but a link could let this principal edit. */
  ghost predicate OnlyLinkCouldEdit(db: Db, principal: Option<UserId>, d: DrawingId) {
    principal.Some? && d in db.drawings ==> !CanEdit(BaseAccess(db, principal.value, d))
  }

  ghost predicate EditLinkActive(links: seq<Link>, d: DrawingId, now: int) {
    exists i :: 0 <= i < |links| && links[i].permission == "edit" && IsActive(links[i], d, now)
  }

  lemma NoGrantNoEdit(db: Db, principal: Option<UserId>, d: DrawingId, now: int)
    requires OnlyLinkCouldEdit(db, principal, d) && !EditLinkActive(db.links, d, now)
    ensures !CanEdit(GetDrawingAccess(db, principal, d, now))
  {
    LatestActiveIsActive(db.links, d, now);
  }
}
