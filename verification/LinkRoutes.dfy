/** The link table between the awaits of the routes that write it: creating a link first revokes the drawing's
    links and then, in a second statement, inserts the new one. */
module LinkRoutes {
  import opened Prelude
  import opened Sharing

  type RequestId = nat

  /** `posts` holds the requests that have revoked and not yet inserted. */
  datatype Table = Table(links: seq<Link>, posts: map<RequestId, DrawingId>)

  const EMPTY: Table := Table([], map[])

  datatype Event =
    | RevokeAll(request: RequestId, d: DrawingId)
    | Insert(inserted: RequestId, drawing: DrawingId, permission: string, expiresAt: Option<int>, createdAt: int)
    | GiveUp(failed: RequestId)
    | Revoke(index: nat)

  function Step(t: Table, e: Event): Table {
    match e
    case RevokeAll(r, d) => if r in t.posts then t else Table(RevokeWhere(t.links, d), t.posts[r := d])
    case Insert(r, d, permission, expiresAt, createdAt) =>
      if r !in t.posts || t.posts[r] != d then t
      else Table(t.links + [Link(d, permission, false, expiresAt, createdAt)], t.posts - {r})
    case GiveUp(r) => t.(posts := t.posts - {r})
    case Revoke(i) => t.(links := RevokeLink(t.links, i))
  }

  function Run(t: Table, events: seq<Event>): Table
    decreases |events|
  {
    if events == [] then t else Run(Step(t, events[0]), events[1..])
  }

  lemma {:induction false} RunConcat(t: Table, a: seq<Event>, b: seq<Event>)
    ensures Run(t, a + b) == Run(Run(t, a), b)
    decreases |a|
  {
    if a == [] {
      assert a + b == b;
    } else {
      assert (a + b)[0] == a[0] && (a + b)[1..] == a[1..] + b;
      RunConcat(Step(t, a[0]), a[1..], b);
    }
  }

  // ---- requests that do not overlap --------------------------------------

  predicate Pending(t: Table, r: RequestId, d: DrawingId) {
    r in t.posts && t.posts[r] == d
  }

  /** No request begins to replace the drawing's link while another is half done. */
  ghost predicate Apart(t: Table, events: seq<Event>, d: DrawingId)
    decreases |events|
  {
    events == [] || (
      && (events[0].RevokeAll? && events[0].d == d && events[0].request !in t.posts ==> forall r :: !Pending(t, r, d))
      && Apart(Step(t, events[0]), events[1..], d))
  }

  /** The drawing has at most one unrevoked link or half-done request. */
  ghost predicate AtMostOne(t: Table, d: DrawingId) {
    && OneUnrevokedLink(t.links, d)
    && (forall r, q | Pending(t, r, d) && Pending(t, q, d) :: r == q)
    && (forall r, i | Pending(t, r, d) :: !Unrevoked(t.links, d, i))
  }

  lemma StepKeepsAtMostOne(t: Table, e: Event, d: DrawingId)
    requires AtMostOne(t, d) && Apart(t, [e], d)
    ensures AtMostOne(Step(t, e), d)
  {
    var u := Step(t, e);
    match e
    case RevokeAll(r, other) =>
      if r !in t.posts {
        BegunRequest(t, r, other, d);
      }
    case Insert(r, other, _, _, _) =>
      if u != t {
        InsertedLink(t, u, r, other, d);
      }
    case GiveUp(_) => FewerKeeps(t, u, d);
    case Revoke(k) => FewerKeeps(t, u, d);
  }

  lemma FewerKeeps(t: Table, u: Table, d: DrawingId)
    requires AtMostOne(t, d)
    requires forall i :: Unrevoked(u.links, d, i) ==> Unrevoked(t.links, d, i)
    requires forall r :: Pending(u, r, d) ==> Pending(t, r, d)
    ensures AtMostOne(u, d)
  {
  }

  /** A request that begins leaves no link of its drawing unrevoked. */
  lemma BegunRequest(t: Table, r: RequestId, other: DrawingId, d: DrawingId)
    requires AtMostOne(t, d) && r !in t.posts && (other == d ==> forall x :: !Pending(t, x, d))
    ensures AtMostOne(Table(RevokeWhere(t.links, other), t.posts[r := other]), d)
  {
    var u := Table(RevokeWhere(t.links, other), t.posts[r := other]);
    forall i | Unrevoked(u.links, d, i) ensures Unrevoked(t.links, d, i) && other != d {
      assert u.links[i] == RevokeWhere(t.links, other)[i];
    }
    forall x | Pending(u, x, d) ensures if other == d then x == r else Pending(t, x, d) {
      if x != r {
        assert Pending(t, x, d);
      }
    }
  }

  /** A request that inserts gives up being pending for the link it adds. */
  lemma InsertedLink(t: Table, u: Table, r: RequestId, other: DrawingId, d: DrawingId)
    requires AtMostOne(t, d) && Pending(t, r, other) && u.posts == t.posts - {r}
    requires |u.links| == |t.links| + 1 && u.links[..|t.links|] == t.links && u.links[|t.links|].drawing == other
    ensures AtMostOne(u, d)
  {
    forall i | Unrevoked(u.links, d, i) ensures if other == d then i == |t.links| else Unrevoked(t.links, d, i) {
      if i < |t.links| {
        assert u.links[i] == u.links[..|t.links|][i] == t.links[i];
        assert Unrevoked(t.links, d, i);
      }
    }
    forall x | Pending(u, x, d) ensures Pending(t, x, d) && x != r && other != d {
      assert Pending(t, x, d);
    }
  }

  lemma {:induction false} RunKeepsAtMostOne(t: Table, events: seq<Event>, d: DrawingId)
    requires AtMostOne(t, d) && Apart(t, events, d)
    ensures AtMostOne(Run(t, events), d)
    decreases |events|
  {
    if events != [] {
      assert [events[0]][1..] == [];
      StepKeepsAtMostOne(t, events[0], d);
      RunKeepsAtMostOne(Step(t, events[0]), events[1..], d);
    }
  }

  // ---- and what happens when they do -------------------------------------

  /** Half-done requests get on with their insert. */
  ghost predicate AllInserts(events: seq<Event>) {
    forall i :: 0 <= i < |events| ==> events[i].Insert?
  }

  /** The tables that a moment of the run can lead to by finishing requests. */
  ghost function Reached(events: seq<Event>, n: nat, finishing: seq<Event>): Table
    requires n <= |events|
  {
    Run(EMPTY, events[..n] + finishing)
  }

  lemma {:induction false} PrefixIsApart(t: Table, events: seq<Event>, n: nat, finishing: seq<Event>, d: DrawingId)
    requires n <= |events| && Apart(t, events, d) && AllInserts(finishing)
    ensures Apart(t, events[..n] + finishing, d)
    decreases n, |finishing|
  {
    var all := events[..n] + finishing;
    if n > 0 {
      assert all[0] == events[0] && all[1..] == events[1..][..n - 1] + finishing;
      PrefixIsApart(Step(t, events[0]), events[1..], n - 1, finishing, d);
    } else if finishing != [] {
      assert all == finishing;
      PrefixIsApart(Step(t, finishing[0]), [], 0, finishing[1..], d);
      assert [][..0] + finishing[1..] == finishing[1..];
    }
  }

  lemma ReachedAtMostOne(events: seq<Event>, n: nat, finishing: seq<Event>, d: DrawingId)
    requires n <= |events| && Apart(EMPTY, events, d) && AllInserts(finishing)
    ensures AtMostOne(Reached(events, n, finishing), d)
  {
    PrefixIsApart(EMPTY, events, n, finishing, d);
    RunKeepsAtMostOne(EMPTY, events[..n] + finishing, d);
  }

  /** Where requests overlap there is a moment with two of them half done. */
  lemma {:induction false} OverlapHasTwoPending(t: Table, events: seq<Event>, d: DrawingId)
    returns (n: nat, r: RequestId, q: RequestId)
    requires !Apart(t, events, d)
    ensures n <= |events| && r != q && Pending(Run(t, events[..n]), r, d) && Pending(Run(t, events[..n]), q, d)
    decreases |events|
  {
    var e := events[0];
    if e.RevokeAll? && e.d == d && e.request !in t.posts && exists x :: Pending(t, x, d) {
      q :| Pending(t, q, d);
      n, r := 1, e.request;
      assert events[..1] == [e] && [e][1..] == [];
      assert Run(t, [e]) == Run(Step(t, e), []);
    } else {
      var m;
      m, r, q := OverlapHasTwoPending(Step(t, e), events[1..], d);
      n := m + 1;
      assert events[..n][0] == e && events[..n][1..] == events[1..][..m];
    }
  }

  /** Both insert: an editing link without expiry, and one that expires at T. */
  lemma TwoLinksRemain(events: seq<Event>, n: nat, r: RequestId, q: RequestId, d: DrawingId, T: int)
    returns (finishing: seq<Event>, first: nat, second: nat)
    requires n <= |events| && r != q && Pending(Run(EMPTY, events[..n]), r, d) && Pending(Run(EMPTY, events[..n]), q, d)
    ensures AllInserts(finishing) && first != second
    ensures var links := Reached(events, n, finishing).links;
            && Unrevoked(links, d, first) && links[first].expiresAt == None && links[first].permission == "edit"
            && Unrevoked(links, d, second) && links[second].expiresAt == Some(T)
  {
    var t := Run(EMPTY, events[..n]);
    var a, b := Insert(r, d, "edit", None, 0), Insert(q, d, "edit", Some(T), 0);
    finishing, first, second := [a, b], |t.links|, |t.links| + 1;
    RunConcat(EMPTY, events[..n], finishing);
    assert finishing[1..] == [b] && [b][1..] == [];
    assert Run(Step(t, a), [b]) == Run(Step(Step(t, a), b), []);
    assert Run(t, finishing) == Step(Step(t, a), b);
  }

  // ---- main results ------------------------------------------------------

  /** At every moment of a run, and however its half-done requests then finish, a drawing has at most one
      unrevoked link, exactly when no two requests to replace it overlap. */
  lemma OneLinkExactly(events: seq<Event>, d: DrawingId)
    ensures Apart(EMPTY, events, d)
       <==> (forall n, finishing | 0 <= n <= |events| && AllInserts(finishing) ::
               OneUnrevokedLink(Reached(events, n, finishing).links, d))
  {
    if Apart(EMPTY, events, d) {
      forall n, finishing | 0 <= n <= |events| && AllInserts(finishing)
        ensures OneUnrevokedLink(Reached(events, n, finishing).links, d)
      {
        ReachedAtMostOne(events, n, finishing, d);
      }
    } else {
      var n, r, q := OverlapHasTwoPending(EMPTY, events, d);
      var finishing, first, second := TwoLinksRemain(events, n, r, q, d, 0);
      assert !OneUnrevokedLink(Reached(events, n, finishing).links, d);
    }
  }

  /** An unrevoked link that has expired by T leaves no editing link of its drawing active at T. */
  ghost predicate ExpiryEndsEditing(links: seq<Link>, d: DrawingId, T: int) {
    forall i | Unrevoked(links, d, i) && links[i].expiresAt.Some? && links[i].expiresAt.value <= T ::
      !EditLinkActive(links, d, T)
  }

  /** Revoking an unrevoked link leaves no editing link of its drawing active. */
  ghost predicate RevocationEndsEditing(links: seq<Link>, d: DrawingId, T: int) {
    forall i: nat | Unrevoked(links, d, i) :: !EditLinkActive(RevokeLink(links, i), d, T)
  }

  lemma OneLinkEnds(links: seq<Link>, d: DrawingId, T: int)
    requires OneUnrevokedLink(links, d)
    ensures ExpiryEndsEditing(links, d, T) && RevocationEndsEditing(links, d, T)
  {
    forall i | Unrevoked(links, d, i) && links[i].expiresAt.Some? && links[i].expiresAt.value <= T
      ensures !EditLinkActive(links, d, T)
    {
      forall j | 0 <= j < |links| ensures !IsActive(links[j], d, T) {
        assert j != i ==> !Unrevoked(links, d, j);
      }
    }
    forall i: nat | Unrevoked(links, d, i) ensures !EditLinkActive(RevokeLink(links, i), d, T) {
      var left := RevokeLink(links, i);
      forall j | 0 <= j < |left| ensures !IsActive(left[j], d, T) {
        assert j != i ==> !Unrevoked(links, d, j);
      }
    }
  }

  /** The expiry or the revocation of a link ends link editing, at every moment and however half-done requests
      finish, exactly when no two requests to replace the drawing's link overlap. */
  lemma EditingEndsExactly(events: seq<Event>, d: DrawingId, T: int)
    ensures Apart(EMPTY, events, d)
       <==> (forall n, finishing | 0 <= n <= |events| && AllInserts(finishing) ::
               ExpiryEndsEditing(Reached(events, n, finishing).links, d, T))
    ensures Apart(EMPTY, events, d)
       <==> (forall n, finishing | 0 <= n <= |events| && AllInserts(finishing) ::
               RevocationEndsEditing(Reached(events, n, finishing).links, d, T))
  {
    if Apart(EMPTY, events, d) {
      forall n, finishing | 0 <= n <= |events| && AllInserts(finishing)
        ensures ExpiryEndsEditing(Reached(events, n, finishing).links, d, T)
        ensures RevocationEndsEditing(Reached(events, n, finishing).links, d, T)
      {
        ReachedAtMostOne(events, n, finishing, d);
        OneLinkEnds(Reached(events, n, finishing).links, d, T);
      }
    } else {
      var n, r, q := OverlapHasTwoPending(EMPTY, events, d);
      var finishing, first, second := TwoLinksRemain(events, n, r, q, d, T);
      var links := Reached(events, n, finishing).links;
      assert IsActive(links[first], d, T);
      var revoked := RevokeLink(links, second);
      assert revoked[first] == links[first];
      assert !ExpiryEndsEditing(links, d, T) && !RevocationEndsEditing(links, d, T);
    }
  }

  // ---- one statement -----------------------------------------------------

  /** What each statement does to the table: a request revokes every link of its own drawing and no other and is then
      pending; a pending one adds exactly one link as given, unrevoked, and is not; a deletion revokes one link. */
  lemma StatementsExactly(t: Table, e: Event, i: nat)
    ensures var u := Step(t, e);
            && (e.RevokeAll? && e.request !in t.posts ==>
                  && |u.links| == |t.links| && u.posts == t.posts[e.request := e.d]
                  && (i < |t.links| ==>
                        u.links[i] == t.links[i].(revoked := t.links[i].revoked || t.links[i].drawing == e.d)))
            && (e.Insert? && Pending(t, e.inserted, e.drawing) ==>
                  && u.links == t.links + [Link(e.drawing, e.permission, false, e.expiresAt, e.createdAt)]
                  && u.posts == t.posts - {e.inserted})
            && (e.GiveUp? ==> u.links == t.links && u.posts == t.posts - {e.failed})
            && (e.Revoke? && e.index < |t.links| ==>
                  u.posts == t.posts && u.links == t.links[e.index := t.links[e.index].(revoked := true)])
  {
  }
}
