/** Collision-free placement of generated groups on the board, over the reals. */
module Placement {
  import opened Prelude

  const INSERTION_GAP: real := 120.0
  const COLLISION_PADDING: real := 40.0

  datatype Bounds = Bounds(x1: real, y1: real, x2: real, y2: real)

  datatype Point = Point(x: real, y: real)

  /** An element whose bounding box `box`, taken relative to its position, moves with it. `batch` is
      history: the insertion that added it (0 for what was there before). */
  datatype Element = Element(id: string, x: real, y: real, box: Bounds, isDeleted: bool, version: nat, batch: nat)

  // ---- geometry ----------------------------------------------------------

  predicate BoundsOverlap(a: Bounds, b: Bounds) {
    a.x1 < b.x2 && a.x2 > b.x1 && a.y1 < b.y2 && a.y2 > b.y1
  }

  function PadBounds(b: Bounds, padding: real): Bounds {
    Bounds(b.x1 - padding, b.y1 - padding, b.x2 + padding, b.y2 + padding)
  }

  function Shift(b: Bounds, dx: real, dy: real): Bounds {
    Bounds(b.x1 + dx, b.y1 + dy, b.x2 + dx, b.y2 + dy)
  }

  function BoxOf(e: Element): Bounds {
    Shift(e.box, e.x, e.y)
  }

  function Min(a: real, b: real): real { if a < b then a else b }

  function Max(a: real, b: real): real { if a < b then b else a }

  function CommonBounds(es: seq<Element>): Bounds
    requires es != []
  {
    if |es| == 1 then BoxOf(es[0])
    else
      var a, b := BoxOf(es[0]), CommonBounds(es[1..]);
      Bounds(Min(a.x1, b.x1), Min(a.y1, b.y1), Max(a.x2, b.x2), Max(a.y2, b.y2))
  }

  predicate Within(inner: Bounds, outer: Bounds) {
    outer.x1 <= inner.x1 && outer.y1 <= inner.y1 && inner.x2 <= outer.x2 && inner.y2 <= outer.y2
  }

  lemma {:induction false} ElementWithinCommonBounds(es: seq<Element>, i: nat)
    requires i < |es|
    ensures Within(BoxOf(es[i]), CommonBounds(es))
  {
    if |es| > 1 && i > 0 {
      ElementWithinCommonBounds(es[1..], i - 1);
    }
  }

  // ---- placement ---------------------------------------------------------

  function Moved(e: Element, dx: real, dy: real): Element {
    e.(x := e.x + dx, y := e.y + dy)
  }

  function MoveElementsTo(es: seq<Element>, bounds: Bounds, x: real, y: real): (r: seq<Element>)
    ensures |r| == |es|
  {
    seq(|es|, i requires 0 <= i < |es| => Moved(es[i], x - bounds.x1, y - bounds.y1))
  }

  predicate OverlapsAny(b: Bounds, existing: seq<Element>) {
    exists i :: 0 <= i < |existing| && BoundsOverlap(b, BoxOf(existing[i]))
  }

  /** A group of this size put at `p` comes within the padding of an existing element. */
  predicate Collides(p: Point, width: real, height: real, existing: seq<Element>) {
    OverlapsAny(PadBounds(Bounds(p.x, p.y, p.x + width, p.y + height), COLLISION_PADDING), existing)
  }

  function FirstFree(candidates: seq<Point>, width: real, height: real, existing: seq<Element>): Option<Point> {
    if candidates == [] then None
    else if !Collides(candidates[0], width, height, existing) then Some(candidates[0])
    else FirstFree(candidates[1..], width, height, existing)
  }

  function Filter(es: seq<Element>, keep: Element -> bool): seq<Element> {
    if es == [] then []
    else (if keep(es[0]) then [es[0]] else []) + Filter(es[1..], keep)
  }

  /** The selection, else the work in view, else the viewport itself. */
  function AnchorBounds(existing: seq<Element>, selected: set<string>, viewport: Bounds): Bounds {
    var chosen := Filter(existing, (e: Element) => e.id in selected);
    var inView := Filter(existing, (e: Element) => BoundsOverlap(BoxOf(e), viewport));
    if chosen != [] then CommonBounds(chosen)
    else if inView != [] then CommonBounds(inView)
    else viewport
  }

  function Candidates(anchor: Bounds, width: real, height: real): seq<Point> {
    [Point(anchor.x2 + INSERTION_GAP, anchor.y1),
     Point(anchor.x1, anchor.y2 + INSERTION_GAP),
     Point(anchor.x1 - INSERTION_GAP - width, anchor.y1),
     Point(anchor.x1, anchor.y1 - INSERTION_GAP - height)]
  }

  function Fallbacks(scene: Bounds, anchor: Bounds): seq<Point> {
    [Point(scene.x2 + INSERTION_GAP, anchor.y1),
     Point(anchor.x1, scene.y2 + INSERTION_GAP)]
  }

  function Origin(existing: seq<Element>, anchor: Bounds, width: real, height: real): Point
    requires existing != []
  {
    var found := FirstFree(Candidates(anchor, width, height), width, height, existing);
    if found.Some? then found.value
    else
      var fallbacks := Fallbacks(CommonBounds(existing), anchor);
      FirstFree(fallbacks, width, height, existing).GetOr(fallbacks[0])
  }

  function MoveBeside(created: seq<Element>, existing: seq<Element>, anchor: Bounds): (placed: seq<Element>)
    requires created != [] && existing != []
    ensures |placed| == |created|
  {
    var b := CommonBounds(created);
    var p := Origin(existing, anchor, b.x2 - b.x1, b.y2 - b.y1);
    MoveElementsTo(created, b, p.x, p.y)
  }

  function PlaceInOpenSpace(created: seq<Element>, existing: seq<Element>, selected: set<string>, viewport: Bounds)
    : (placed: seq<Element>)
    ensures |placed| == |created|
  {
    if created == [] then created
    else
      var b := CommonBounds(created);
      var width, height := b.x2 - b.x1, b.y2 - b.y1;
      if existing == [] then
        MoveElementsTo(created, b, (viewport.x1 + viewport.x2 - width) / 2.0, (viewport.y1 + viewport.y2 - height) / 2.0)
      else if !OverlapsAny(b, existing) then created
      else MoveBeside(created, existing, AnchorBounds(existing, selected, viewport))
  }

  // ---- what placement guarantees -----------------------------------------

  /** The group's bounds move exactly as its elements do. */
  lemma {:induction false} CommonBoundsMove(es: seq<Element>, bounds: Bounds, x: real, y: real)
    requires es != []
    ensures CommonBounds(MoveElementsTo(es, bounds, x, y)) == Shift(CommonBounds(es), x - bounds.x1, y - bounds.y1)
  {
    var moved := MoveElementsTo(es, bounds, x, y);
    if |es| > 1 {
      CommonBoundsMove(es[1..], bounds, x, y);
      assert moved[1..] == MoveElementsTo(es[1..], bounds, x, y);
    }
  }

  /** To the right of the whole scene there is always room, so the search never comes up empty and
      the second fallback is never needed. */
  lemma FirstFallbackIsFree(existing: seq<Element>, anchor: Bounds, width: real, height: real)
    requires existing != []
    ensures !Collides(Fallbacks(CommonBounds(existing), anchor)[0], width, height, existing)
    ensures FirstFree(Fallbacks(CommonBounds(existing), anchor), width, height, existing)
         == Some(Fallbacks(CommonBounds(existing), anchor)[0])
  {
    forall i | 0 <= i < |existing| ensures BoxOf(existing[i]).x2 <= CommonBounds(existing).x2 {
      ElementWithinCommonBounds(existing, i);
    }
  }

  /** The search takes the first free candidate. */
  lemma {:induction false} FirstFreeIsFirst(candidates: seq<Point>, width: real, height: real, existing: seq<Element>)
    ensures var found := FirstFree(candidates, width, height, existing);
            match found
            case Some(p) => exists k :: 0 <= k < |candidates| && candidates[k] == p
                              && !Collides(p, width, height, existing)
                              && forall j :: 0 <= j < k ==> Collides(candidates[j], width, height, existing)
            case None => forall j :: 0 <= j < |candidates| ==> Collides(candidates[j], width, height, existing)
  {
    if candidates != [] && Collides(candidates[0], width, height, existing) {
      FirstFreeIsFirst(candidates[1..], width, height, existing);
      var found := FirstFree(candidates, width, height, existing);
      if found.Some? {
        var k :| 0 <= k < |candidates[1..]| && candidates[1..][k] == found.value
              && forall j :: 0 <= j < k ==> Collides(candidates[1..][j], width, height, existing);
        assert candidates[k + 1] == found.value;
        forall j | 0 <= j < k + 1 ensures Collides(candidates[j], width, height, existing) {
          if j > 0 { assert candidates[1..][j - 1] == candidates[j]; }
        }
      } else {
        forall j | 0 <= j < |candidates| ensures Collides(candidates[j], width, height, existing) {
          if j > 0 { assert candidates[1..][j - 1] == candidates[j]; }
        }
      }
    }
  }

  lemma OriginIsFree(existing: seq<Element>, anchor: Bounds, width: real, height: real)
    requires existing != []
    ensures !Collides(Origin(existing, anchor, width, height), width, height, existing)
  {
    FirstFreeIsFirst(Candidates(anchor, width, height), width, height, existing);
    FirstFallbackIsFree(existing, anchor, width, height);
  }

  lemma PaddingOnlyGrows(b: Bounds, existing: seq<Element>)
    requires !OverlapsAny(PadBounds(b, COLLISION_PADDING), existing)
    ensures !OverlapsAny(b, existing)
  {
    forall i | 0 <= i < |existing| ensures !BoundsOverlap(b, BoxOf(existing[i])) {
      assert !BoundsOverlap(PadBounds(b, COLLISION_PADDING), BoxOf(existing[i]));
    }
  }

  lemma MovedBounds(created: seq<Element>, p: Point)
    requires created != []
    ensures var b := CommonBounds(created);
            CommonBounds(MoveElementsTo(created, b, p.x, p.y)) == Bounds(p.x, p.y, p.x + (b.x2 - b.x1), p.y + (b.y2 - b.y1))
  {
    var b := CommonBounds(created);
    CommonBoundsMove(created, b, p.x, p.y);
  }

  lemma MovedGroupIsClear(created: seq<Element>, existing: seq<Element>, anchor: Bounds)
    requires created != [] && existing != []
    ensures var b := CommonBounds(created);
            var p := Origin(existing, anchor, b.x2 - b.x1, b.y2 - b.y1);
            var at := CommonBounds(MoveElementsTo(created, b, p.x, p.y));
            !OverlapsAny(at, existing) && !OverlapsAny(PadBounds(at, COLLISION_PADDING), existing)
  {
    var b := CommonBounds(created);
    var width, height := b.x2 - b.x1, b.y2 - b.y1;
    var p := Origin(existing, anchor, width, height);
    OriginIsFree(existing, anchor, width, height);
    MovedBounds(created, p);
    PaddingOnlyGrows(Bounds(p.x, p.y, p.x + width, p.y + height), existing);
  }

  /** The placed group keeps clear of every existing element, by the padding if it had to move. */
  lemma GroupIsClear(created: seq<Element>, existing: seq<Element>, selected: set<string>, viewport: Bounds)
    requires created != []
    ensures var placed := PlaceInOpenSpace(created, existing, selected, viewport);
            && !OverlapsAny(CommonBounds(placed), existing)
            && (placed == created || !OverlapsAny(PadBounds(CommonBounds(placed), COLLISION_PADDING), existing))
  {
    if existing != [] && OverlapsAny(CommonBounds(created), existing) {
      MovedGroupIsClear(created, existing, AnchorBounds(existing, selected, viewport));
    }
  }

  /** No element of the placed group overlaps an element that was visible. */
  lemma PlacedElementsAreClear(created: seq<Element>, existing: seq<Element>, selected: set<string>, viewport: Bounds,
                               i: nat, j: nat)
    requires i < |created| && j < |existing|
    ensures !BoundsOverlap(BoxOf(PlaceInOpenSpace(created, existing, selected, viewport)[i]), BoxOf(existing[j]))
  {
    GroupIsClear(created, existing, selected, viewport);
    var placed := PlaceInOpenSpace(created, existing, selected, viewport);
    ElementWithinCommonBounds(placed, i);
    assert !BoundsOverlap(CommonBounds(placed), BoxOf(existing[j]));
  }

  ghost predicate MovedBy(created: seq<Element>, placed: seq<Element>, dx: real, dy: real) {
    |placed| == |created| && forall i :: 0 <= i < |created| ==> placed[i] == Moved(created[i], dx, dy)
  }

  /** The group moves rigidly: every element by the same vector, and nothing else about it changes. */
  lemma PlacementIsRigid(created: seq<Element>, existing: seq<Element>, selected: set<string>, viewport: Bounds)
    ensures exists dx, dy :: MovedBy(created, PlaceInOpenSpace(created, existing, selected, viewport), dx, dy)
  {
    var placed := PlaceInOpenSpace(created, existing, selected, viewport);
    if placed == created {
      assert MovedBy(created, placed, 0.0, 0.0);
    } else {
      assert MovedBy(created, placed, placed[0].x - created[0].x, placed[0].y - created[0].y);
    }
  }

  /** A group that is already in the open stays where it is; on an empty board it lands centred. */
  lemma OpenGroupStaysAndEmptyBoardCentres(created: seq<Element>, existing: seq<Element>, selected: set<string>,
                                           viewport: Bounds)
    requires created != []
    ensures var placed := PlaceInOpenSpace(created, existing, selected, viewport);
            && (existing != [] && !OverlapsAny(CommonBounds(created), existing) ==> placed == created)
            && (existing == [] ==>
                  && CommonBounds(placed).x1 + CommonBounds(placed).x2 == viewport.x1 + viewport.x2
                  && CommonBounds(placed).y1 + CommonBounds(placed).y2 == viewport.y1 + viewport.y2)
  {
    if existing == [] {
      var b := CommonBounds(created);
      CommonBoundsMove(created, b, (viewport.x1 + viewport.x2 - (b.x2 - b.x1)) / 2.0,
                       (viewport.y1 + viewport.y2 - (b.y2 - b.y1)) / 2.0);
    }
  }

  // ---- where a group that has to move comes to lie ------------------------

  /** The smallest box around the elements. */
  ghost predicate Hull(b: Bounds, es: set<Element>) {
    && (forall e :: e in es ==> Within(BoxOf(e), b))
    && (exists e :: e in es && BoxOf(e).x1 == b.x1) && (exists e :: e in es && BoxOf(e).y1 == b.y1)
    && (exists e :: e in es && BoxOf(e).x2 == b.x2) && (exists e :: e in es && BoxOf(e).y2 == b.y2)
  }

  /** Around the selected elements, else around those in view, else the viewport. */
  ghost predicate IsAnchor(a: Bounds, existing: seq<Element>, selected: set<string>, viewport: Bounds) {
    var chosen := set e | e in existing && e.id in selected;
    var inView := set e | e in existing && BoundsOverlap(BoxOf(e), viewport);
    if chosen != {} then Hull(a, chosen) else if inView != {} then Hull(a, inView) else a == viewport
  }

  /** A box of this size there, padded by 40, overlaps an element. */
  ghost predicate Blocked(x: real, y: real, width: real, height: real, existing: seq<Element>) {
    exists i :: 0 <= i < |existing| &&
      BoundsOverlap(Bounds(x - 40.0, y - 40.0, x + width + 40.0, y + height + 40.0), BoxOf(existing[i]))
  }

  /** The points to the right of the anchor, below, to the left and above, at a distance of 120. */
  ghost function Beside(a: Bounds, width: real, height: real, k: nat): Point
    requires k < 4
  {
    match k
    case 0 => Point(a.x2 + 120.0, a.y1)
    case 1 => Point(a.x1, a.y2 + 120.0)
    case 2 => Point(a.x1 - 120.0 - width, a.y1)
    case _ => Point(a.x1, a.y1 - 120.0 - height)
  }

  ghost predicate BlockedBeside(a: Bounds, width: real, height: real, existing: seq<Element>, k: nat)
    requires k < 4
  {
    var p := Beside(a, width, height, k); Blocked(p.x, p.y, width, height, existing)
  }

  /** The first point beside the anchor that is not blocked, or right of the scene when all four are. */
  ghost predicate IsCorner(p: Point, a: Bounds, scene: Bounds, width: real, height: real, existing: seq<Element>) {
    || (exists k: nat :: k < 4 && p == Beside(a, width, height, k) && !BlockedBeside(a, width, height, existing, k)
                         && forall j: nat :: j < k ==> BlockedBeside(a, width, height, existing, j))
    || ((forall j: nat :: j < 4 ==> BlockedBeside(a, width, height, existing, j))
        && p == Point(scene.x2 + 120.0, a.y1))
  }

  lemma {:induction false} FilterExactly(es: seq<Element>, keep: Element -> bool)
    ensures forall e :: e in Filter(es, keep) <==> e in es && keep(e)
  {
    if es != [] {
      FilterExactly(es[1..], keep);
      assert es == [es[0]] + es[1..];
    }
  }

  lemma {:induction false} CommonBoundsAreHull(es: seq<Element>)
    requires es != []
    ensures Hull(CommonBounds(es), set e | e in es)
  {
    var all := set e | e in es;
    assert es[0] in all;
    if |es| > 1 {
      var rest := set e | e in es[1..];
      CommonBoundsAreHull(es[1..]);
      assert all == rest + {es[0]};
      HullOfMore(CommonBounds(es[1..]), rest, es[0]);
    } else {
      assert all == {es[0]};
    }
  }

  lemma HullOfMore(b: Bounds, es: set<Element>, e: Element)
    requires Hull(b, es)
    ensures var a := BoxOf(e);
            Hull(Bounds(Min(a.x1, b.x1), Min(a.y1, b.y1), Max(a.x2, b.x2), Max(a.y2, b.y2)), es + {e})
  {
    var all := es + {e};
    var left :| left in es && BoxOf(left).x1 == b.x1;
    var top :| top in es && BoxOf(top).y1 == b.y1;
    var right :| right in es && BoxOf(right).x2 == b.x2;
    var bottom :| bottom in es && BoxOf(bottom).y2 == b.y2;
    assert e in all && left in all && top in all && right in all && bottom in all;
  }

  lemma AnchorExactly(existing: seq<Element>, selected: set<string>, viewport: Bounds)
    ensures IsAnchor(AnchorBounds(existing, selected, viewport), existing, selected, viewport)
  {
    var isChosen, isInView := (e: Element) => e.id in selected, (e: Element) => BoundsOverlap(BoxOf(e), viewport);
    var chosen, inView := Filter(existing, isChosen), Filter(existing, isInView);
    FilterExactly(existing, isChosen);
    FilterExactly(existing, isInView);
    assert (set e | e in existing && e.id in selected) == set e | e in chosen;
    assert (set e | e in existing && BoundsOverlap(BoxOf(e), viewport)) == set e | e in inView;
    if chosen != [] {
      assert chosen[0] in chosen;
      CommonBoundsAreHull(chosen);
    } else if inView != [] {
      assert inView[0] in inView;
      CommonBoundsAreHull(inView);
    }
  }

  lemma CandidatesAreBeside(a: Bounds, width: real, height: real, existing: seq<Element>, k: nat)
    requires k < 4
    ensures |Candidates(a, width, height)| == 4 && Candidates(a, width, height)[k] == Beside(a, width, height, k)
    ensures Collides(Candidates(a, width, height)[k], width, height, existing)
       <==> BlockedBeside(a, width, height, existing, k)
  {
  }

  lemma OriginIsCorner(existing: seq<Element>, a: Bounds, width: real, height: real)
    requires existing != []
    ensures IsCorner(Origin(existing, a, width, height), a, CommonBounds(existing), width, height, existing)
  {
    var candidates := Candidates(a, width, height);
    FirstFreeIsFirst(candidates, width, height, existing);
    FirstFallbackIsFree(existing, a, width, height);
    forall k: nat | k < 4
      ensures candidates[k] == Beside(a, width, height, k)
      ensures Collides(candidates[k], width, height, existing) <==> BlockedBeside(a, width, height, existing, k)
    {
      CandidatesAreBeside(a, width, height, existing, k);
    }
    var found := FirstFree(candidates, width, height, existing);
    if found.Some? {
      var k :| 0 <= k < |candidates| && candidates[k] == found.value && !Collides(found.value, width, height, existing)
               && forall j :: 0 <= j < k ==> Collides(candidates[j], width, height, existing);
      assert found.value == Beside(a, width, height, k) && !BlockedBeside(a, width, height, existing, k);
    }
  }

  ghost predicate LiesBeside(p: Point, width: real, height: real, a: Bounds, scene: Bounds, existing: seq<Element>,
                             selected: set<string>, viewport: Bounds) {
    && IsAnchor(a, existing, selected, viewport) && Hull(scene, set e | e in existing)
    && IsCorner(p, a, scene, width, height, existing)
  }

  /** That place for the anchor and the hull of the scene, both of which are determined. */
  ghost predicate LiesWell(p: Point, width: real, height: real, existing: seq<Element>, selected: set<string>,
                           viewport: Bounds) {
    exists a, scene :: LiesBeside(p, width, height, a, scene, existing, selected, viewport)
  }

  /** A group that overlaps something moves: its corner comes to the first of the four points beside the anchor at
      which it keeps its distance, or right of the whole scene when there is none; its size stays. */
  lemma MovedGroupLies(created: seq<Element>, existing: seq<Element>, selected: set<string>, viewport: Bounds)
    requires created != [] && OverlapsAny(CommonBounds(created), existing)
    ensures var b, at := CommonBounds(created), CommonBounds(PlaceInOpenSpace(created, existing, selected, viewport));
            && at.x2 - at.x1 == b.x2 - b.x1 && at.y2 - at.y1 == b.y2 - b.y1
            && LiesWell(Point(at.x1, at.y1), b.x2 - b.x1, b.y2 - b.y1, existing, selected, viewport)
  {
    OverlapNeedsElements(CommonBounds(created), existing);
    PlacedBeside(created, existing, selected, viewport);
    BesideLies(created, existing, AnchorBounds(existing, selected, viewport), selected, viewport);
  }

  lemma PlacedBeside(created: seq<Element>, existing: seq<Element>, selected: set<string>, viewport: Bounds)
    requires created != [] && existing != [] && OverlapsAny(CommonBounds(created), existing)
    ensures PlaceInOpenSpace(created, existing, selected, viewport)
         == MoveBeside(created, existing, AnchorBounds(existing, selected, viewport))
  {
  }

  lemma BesideLies(created: seq<Element>, existing: seq<Element>, a: Bounds, selected: set<string>, viewport: Bounds)
    requires created != [] && existing != [] && a == AnchorBounds(existing, selected, viewport)
    ensures var b, at := CommonBounds(created), CommonBounds(MoveBeside(created, existing, a));
            && at.x2 - at.x1 == b.x2 - b.x1 && at.y2 - at.y1 == b.y2 - b.y1
            && LiesWell(Point(at.x1, at.y1), b.x2 - b.x1, b.y2 - b.y1, existing, selected, viewport)
  {
    var b, at := CommonBounds(created), CommonBounds(MoveBeside(created, existing, a));
    BesideCorner(created, existing, a);
    OriginLiesBeside(Point(at.x1, at.y1), b.x2 - b.x1, b.y2 - b.y1, a, existing, selected, viewport);
  }

  lemma BesideCorner(created: seq<Element>, existing: seq<Element>, a: Bounds)
    requires created != [] && existing != []
    ensures var b, at := CommonBounds(created), CommonBounds(MoveBeside(created, existing, a));
            && at.x2 - at.x1 == b.x2 - b.x1 && at.y2 - at.y1 == b.y2 - b.y1
            && Point(at.x1, at.y1) == Origin(existing, a, b.x2 - b.x1, b.y2 - b.y1)
  {
    var b := CommonBounds(created);
    MovedCorner(created, MoveBeside(created, existing, a), Origin(existing, a, b.x2 - b.x1, b.y2 - b.y1));
  }

  lemma OriginLiesBeside(p: Point, width: real, height: real, a: Bounds, existing: seq<Element>, selected: set<string>,
                         viewport: Bounds)
    requires existing != [] && a == AnchorBounds(existing, selected, viewport) && p == Origin(existing, a, width, height)
    ensures LiesWell(p, width, height, existing, selected, viewport)
  {
    AnchorExactly(existing, selected, viewport);
    CommonBoundsAreHull(existing);
    OriginIsCorner(existing, a, width, height);
    assert LiesBeside(p, width, height, a, CommonBounds(existing), existing, selected, viewport);
  }

  lemma OverlapNeedsElements(b: Bounds, existing: seq<Element>)
    requires OverlapsAny(b, existing)
    ensures existing != []
  {
  }

  lemma MovedCorner(created: seq<Element>, placed: seq<Element>, p: Point)
    requires created != [] && placed == MoveElementsTo(created, CommonBounds(created), p.x, p.y)
    ensures placed != []
    ensures var b, at := CommonBounds(created), CommonBounds(placed);
            Point(at.x1, at.y1) == p && at.x2 - at.x1 == b.x2 - b.x1 && at.y2 - at.y1 == b.y2 - b.y1
  {
    MovedBounds(created, p);
  }

  /** A hull is the only one, so the anchor and the scene of a placement are determined. */
  lemma HullIsUnique(b: Bounds, c: Bounds, es: set<Element>)
    requires Hull(b, es) && Hull(c, es)
    ensures b == c
  {
  }

  // ---- the board ---------------------------------------------------------

  datatype Scene = Scene(elements: seq<Element>, selected: set<string>, batches: nat)

  datatype Props = Props(x: Option<real>, y: Option<real>, box: Option<Bounds>, isDeleted: Option<bool>)

  datatype Event =
    | Insert(created: seq<Element>, viewport: Bounds)
    | Delete(ids: set<string>)
    | Select(chosen: set<string>)
    | Update(id: string, props: Props)

  function Visible(es: seq<Element>): seq<Element> {
    Filter(es, (e: Element) => !e.isDeleted)
  }

  /** What a generated group looks like when it arrives: nothing of it is deleted. */
  function Fresh(created: seq<Element>, batch: nat): (r: seq<Element>)
    ensures |r| == |created|
  {
    seq(|created|, i requires 0 <= i < |created| => created[i].(isDeleted := false, batch := batch))
  }

  function IdsOf(es: seq<Element>): set<string> {
    set e | e in es :: e.id
  }

  function AfterInsert(s: Scene, created: seq<Element>, viewport: Bounds): Scene {
    var placed := PlaceInOpenSpace(Fresh(created, s.batches), Visible(s.elements), s.selected, viewport);
    Scene(s.elements + placed, IdsOf(placed), s.batches + 1)
  }

  function MarkDeleted(e: Element, ids: set<string>): Element {
    if e.id !in ids || e.isDeleted then e else e.(isDeleted := true, version := e.version + 1)
  }

  function AfterDelete(es: seq<Element>, ids: set<string>): (r: seq<Element>)
    ensures |r| == |es|
  {
    seq(|es|, i requires 0 <= i < |es| => MarkDeleted(es[i], ids))
  }

  function Updated(e: Element, id: string, p: Props): Element {
    if e.id != id then e
    else e.(x := p.x.GetOr(e.x), y := p.y.GetOr(e.y), box := p.box.GetOr(e.box),
            isDeleted := p.isDeleted.GetOr(e.isDeleted), version := e.version + 1)
  }

  function AfterUpdate(es: seq<Element>, id: string, p: Props): (r: seq<Element>)
    ensures |r| == |es|
  {
    seq(|es|, i requires 0 <= i < |es| => Updated(es[i], id, p))
  }

  function CountDeletions(es: seq<Element>, ids: set<string>): nat {
    |set i | 0 <= i < |es| && es[i].id in ids && !es[i].isDeleted|
  }

  function Step(s: Scene, e: Event): Scene {
    match e
    case Insert(created, viewport) => AfterInsert(s, created, viewport)
    case Delete(ids) => s.(elements := AfterDelete(s.elements, ids))
    case Select(chosen) => s.(selected := chosen)
    case Update(id, p) => s.(elements := AfterUpdate(s.elements, id, p))
  }

  function Run(s: Scene, events: seq<Event>): Scene
    decreases |events|
  {
    if events == [] then s else Run(Step(s, events[0]), events[1..])
  }

  class Board {
    var elements: seq<Element>
    var selected: set<string>
    ghost var batches: nat

    ghost function Contents(): Scene
      reads this
    {
      Scene(elements, selected, batches)
    }

    constructor (elements: seq<Element>)
      ensures Contents() == Scene(elements, {}, 1)
    {
      this.elements, selected, batches := elements, {}, 1;
    }

    /** `insertCreatedElements`: place, append after everything (deleted elements included), select. */
    method InsertCreated(created: seq<Element>, viewport: Bounds) returns (placed: seq<Element>)
      requires created == Fresh(created, batches)
      modifies this
      ensures Contents() == Step(old(Contents()), Insert(created, viewport))
      ensures elements == old(elements) + placed
    {
      placed := PlaceInOpenSpace(created, Visible(elements), selected, viewport);
      elements := elements + placed;
      selected := set e | e in placed :: e.id;
      batches := batches + 1;
    }

    method DeleteElements(ids: set<string>) returns (n: nat)
      modifies this
      ensures Contents() == Step(old(Contents()), Delete(ids))
      ensures n == CountDeletions(old(elements), ids)
    {
      var next: seq<Element> := [];
      n := 0;
      ghost var hit: set<int> := {};
      for i := 0 to |elements|
        invariant next == AfterDelete(elements[..i], ids)
        invariant hit == set k | 0 <= k < i && elements[k].id in ids && !elements[k].isDeleted
        invariant n == |hit|
      {
        var el := elements[i];
        if el.id !in ids || el.isDeleted {
          next := next + [el];
        } else {
          n := n + 1;
          hit := hit + {i};
          next := next + [el.(isDeleted := true, version := el.version + 1)];
        }
      }
      assert elements[..|elements|] == elements;
      elements := next;
    }

    method UpdateElement(id: string, p: Props) returns (found: bool)
      modifies this
      ensures Contents() == Step(old(Contents()), Update(id, p))
      ensures found <==> exists i :: 0 <= i < |old(elements)| && old(elements)[i].id == id
    {
      var next: seq<Element> := [];
      found := false;
      for i := 0 to |elements|
        invariant next == AfterUpdate(elements[..i], id, p)
        invariant found <==> exists k :: 0 <= k < i && elements[k].id == id
      {
        var el := elements[i];
        if el.id != id {
          next := next + [el];
        } else {
          found := true;
          next := next + [el.(x := p.x.GetOr(el.x), y := p.y.GetOr(el.y), box := p.box.GetOr(el.box),
                              isDeleted := p.isDeleted.GetOr(el.isDeleted), version := el.version + 1)];
        }
      }
      assert elements[..|elements|] == elements;
      if !found {
        assert forall i :: 0 <= i < |elements| ==> next[i] == elements[i];
        return;
      }
      elements := next;
    }
  }

  // ---- whole runs --------------------------------------------------------

  /** Visible elements of different insertions never overlap. */
  ghost predicate Separated(s: Scene) {
    forall i, j | 0 <= i < j < |s.elements| && !s.elements[i].isDeleted && !s.elements[j].isDeleted ::
      s.elements[i].batch != s.elements[j].batch ==> !BoundsOverlap(BoxOf(s.elements[i]), BoxOf(s.elements[j]))
  }

  ghost predicate Inv(s: Scene) {
    Separated(s) && forall i :: 0 <= i < |s.elements| ==> s.elements[i].batch < s.batches
  }

  lemma {:induction false} FilterKeeps(es: seq<Element>, keep: Element -> bool, i: nat)
    requires i < |es| && keep(es[i])
    ensures es[i] in Filter(es, keep)
  {
    if i > 0 {
      FilterKeeps(es[1..], keep, i - 1);
    }
  }

  lemma OverlapIsSymmetric(a: Bounds, b: Bounds)
    ensures BoundsOverlap(a, b) == BoundsOverlap(b, a)
  {
  }

  lemma InsertKeepsInv(s: Scene, created: seq<Element>, viewport: Bounds)
    requires Inv(s)
    ensures Inv(AfterInsert(s, created, viewport))
  {
    var t := AfterInsert(s, created, viewport);
    var group, visible := Fresh(created, s.batches), Visible(s.elements);
    var placed := PlaceInOpenSpace(group, visible, s.selected, viewport);
    PlacementIsRigid(group, visible, s.selected, viewport);
    var n := |s.elements|;
    forall k | n <= k < |t.elements| ensures t.elements[k].batch == s.batches {
      assert t.elements[k] == placed[k - n];
    }
    forall i, j | 0 <= i < n <= j < |t.elements| && !s.elements[i].isDeleted
      ensures !BoundsOverlap(BoxOf(t.elements[i]), BoxOf(t.elements[j]))
    {
      var keep := (e: Element) => !e.isDeleted;
      FilterKeeps(s.elements, keep, i);
      assert visible == Filter(s.elements, keep);
      var k :| 0 <= k < |visible| && visible[k] == s.elements[i];
      PlacedElementsAreClear(group, visible, s.selected, viewport, j - n, k);
      OverlapIsSymmetric(BoxOf(placed[j - n]), BoxOf(visible[k]));
    }
  }

  lemma StepKeepsInv(s: Scene, e: Event)
    requires Inv(s) && (e.Update? ==> Harmless(e.props))
    ensures Inv(Step(s, e))
  {
    match e
    case Insert(created, viewport) => InsertKeepsInv(s, created, viewport);
    case Update(id, p) => HarmlessKeeps(s, id, p);
    case _ =>
  }

  lemma {:induction false} RunKeepsInv(s: Scene, events: seq<Event>)
    requires Inv(s) && UpdatesAreHarmless(events)
    ensures Inv(Run(s, events))
    decreases |events|
  {
    if events != [] {
      StepKeepsInv(s, events[0]);
      RunKeepsInv(Step(s, events[0]), events[1..]);
    }
  }

  ghost predicate UpdatesAreHarmless(events: seq<Event>) {
    forall k :: 0 <= k < |events| && events[k].Update? ==> Harmless(events[k].props)
  }

  /** Whatever was on the board, after any run of insertions, deletions, selections and harmless updates no visible
      element overlaps a visible element of another insertion. */
  lemma InsertionsNeverOverlap(start: seq<Element>, events: seq<Event>, i: nat, j: nat)
    requires UpdatesAreHarmless(events) && forall k :: 0 <= k < |start| ==> start[k].batch == 0
    requires var es := Run(Scene(start, {}, 1), events).elements;
             i < |es| && j < |es| && !es[i].isDeleted && !es[j].isDeleted && es[i].batch != es[j].batch
    ensures var es := Run(Scene(start, {}, 1), events).elements; !BoundsOverlap(BoxOf(es[i]), BoxOf(es[j]))
  {
    RunKeepsInv(Scene(start, {}, 1), events);
    var es := Run(Scene(start, {}, 1), events).elements;
    OverlapIsSymmetric(BoxOf(es[i]), BoxOf(es[j]));
  }

  /** A deletion marks exactly the visible elements with these ids, bumps their version, and leaves all else of the
      board as it was. */
  lemma DeletionIsExact(s: Scene, ids: set<string>, i: nat)
    requires i < |s.elements|
    ensures var t := Step(s, Delete(ids));
            && |t.elements| == |s.elements| && t.selected == s.selected
            && (t.elements[i].isDeleted <==> s.elements[i].isDeleted || s.elements[i].id in ids)
            && (t.elements[i] == s.elements[i] || t.elements[i] == s.elements[i].(isDeleted := true, version := s.elements[i].version + 1))
            && (t.elements[i] != s.elements[i] <==> s.elements[i].id in ids && !s.elements[i].isDeleted)
  {
  }

  /** An update changes exactly the named elements, in what the properties give, and bumps their version. */
  lemma UpdateIsExact(s: Scene, id: string, p: Props, i: nat)
    requires i < |s.elements|
    ensures var e, u := s.elements[i], Step(s, Update(id, p)).elements[i];
            && |Step(s, Update(id, p)).elements| == |s.elements|
            && (e.id != id ==> u == e)
            && (e.id == id ==>
                  && u.id == e.id && u.batch == e.batch && u.version == e.version + 1
                  && u.x == (if p.x.Some? then p.x.value else e.x) && u.y == (if p.y.Some? then p.y.value else e.y)
                  && u.box == (if p.box.Some? then p.box.value else e.box)
                  && u.isDeleted == (if p.isDeleted.Some? then p.isDeleted.value else e.isDeleted))
  {
  }

  ghost predicate AppendedMoved(s: Scene, t: Scene, created: seq<Element>, dx: real, dy: real) {
    |t.elements| == |s.elements| + |created| &&
    forall j :: |s.elements| <= j < |t.elements| ==>
      var e := created[j - |s.elements|];
      t.elements[j] == e.(x := e.x + dx, y := e.y + dy, isDeleted := false, batch := s.batches)
  }

  /** An insertion appends the group, moved as one, after everything that was there, and selects exactly it. */
  lemma InsertionIsExact(s: Scene, created: seq<Element>, viewport: Bounds)
    ensures var t, n := Step(s, Insert(created, viewport)), |s.elements|;
            && |t.elements| == n + |created| && t.elements[..n] == s.elements
            && (exists dx, dy :: AppendedMoved(s, t, created, dx, dy))
            && t.selected == set i | 0 <= i < |created| :: created[i].id
  {
    var group, visible := Fresh(created, s.batches), Visible(s.elements);
    var placed := PlaceInOpenSpace(group, visible, s.selected, viewport);
    PlacementIsRigid(group, visible, s.selected, viewport);
    var dx, dy :| MovedBy(group, placed, dx, dy);
    AppendingIsExact(s, Step(s, Insert(created, viewport)), created, placed, dx, dy);
  }

  lemma AppendingIsExact(s: Scene, t: Scene, created: seq<Element>, placed: seq<Element>, dx: real, dy: real)
    requires MovedBy(Fresh(created, s.batches), placed, dx, dy)
    requires t.elements == s.elements + placed && t.selected == IdsOf(placed)
    ensures |t.elements| == |s.elements| + |created| && t.elements[..|s.elements|] == s.elements
    ensures AppendedMoved(s, t, created, dx, dy) && t.selected == set i | 0 <= i < |created| :: created[i].id
  {
    AppendedIsMoved(s, t, created, placed, dx, dy);
    SameIds(created, placed);
  }

  lemma AppendedIsMoved(s: Scene, t: Scene, created: seq<Element>, placed: seq<Element>, dx: real, dy: real)
    requires MovedBy(Fresh(created, s.batches), placed, dx, dy) && t.elements == s.elements + placed
    ensures AppendedMoved(s, t, created, dx, dy)
  {
    forall j | |s.elements| <= j < |t.elements|
      ensures t.elements[j] == Moved(created[j - |s.elements|].(isDeleted := false, batch := s.batches), dx, dy)
    {
      assert t.elements[j] == placed[j - |s.elements|] == Moved(Fresh(created, s.batches)[j - |s.elements|], dx, dy);
    }
  }

  lemma SameIds(created: seq<Element>, placed: seq<Element>)
    requires |created| == |placed| && forall i :: 0 <= i < |created| ==> placed[i].id == created[i].id
    ensures IdsOf(placed) == set i | 0 <= i < |created| :: created[i].id
  {
    var ids := set i | 0 <= i < |created| :: created[i].id;
    forall id | id in IdsOf(placed) ensures id in ids {
      var e :| e in placed && e.id == id;
      var i :| 0 <= i < |placed| && placed[i] == e;
      assert created[i].id == id;
    }
    forall id | id in ids ensures id in IdsOf(placed) {
      var i :| 0 <= i < |created| && created[i].id == id;
      assert placed[i] in placed;
    }
  }

  // ---- updates -----------------------------------------------------------

  ghost predicate UpdateKeeps(s: Scene, id: string, p: Props) {
    Separated(s) ==> Separated(s.(elements := AfterUpdate(s.elements, id, p)))
  }

  /** The update deletes, or leaves position, box and deletion alone. */
  predicate Harmless(p: Props) {
    p.isDeleted == Some(true) || (p.x.None? && p.y.None? && p.box.None? && p.isDeleted.None?)
  }

  lemma HarmlessKeeps(s: Scene, id: string, p: Props)
    requires Harmless(p)
    ensures UpdateKeeps(s, id, p)
  {
    var es := AfterUpdate(s.elements, id, p);
    if Separated(s) {
      forall i, j | 0 <= i < j < |es| && !es[i].isDeleted && !es[j].isDeleted && es[i].batch != es[j].batch
        ensures !BoundsOverlap(BoxOf(es[i]), BoxOf(es[j]))
      {
        assert !s.elements[i].isDeleted && !s.elements[j].isDeleted;
      }
    }
  }

  /** A visible element of another insertion, one unit larger than `b` on every side. */
  function Cover(b: Bounds): Element {
    Element("cover", 0.0, 0.0, Bounds(Min(b.x1, b.x2) - 1.0, Min(b.y1, b.y2) - 1.0,
                                      Max(b.x1, b.x2) + 1.0, Max(b.y1, b.y2) + 1.0), false, 0, 2)
  }

  lemma CoverOverlaps(b: Bounds)
    ensures BoundsOverlap(b, BoxOf(Cover(b)))
  {
  }

  /** The element after the update. */
  function Target(p: Props): Element {
    Element("victim", p.x.GetOr(0.0), p.y.GetOr(0.0), p.box.GetOr(Bounds(0.0, 0.0, 1.0, 1.0)), false, 0, 1)
  }

  /** The element before it: deleted, or one unit clear of the target in what the update sets. */
  function Victim(p: Props): Element {
    var t := Target(p);
    var b := BoxOf(t);
    if p.isDeleted.Some? then t.(isDeleted := true)
    else if p.x.Some? then t.(x := Max(b.x1, b.x2) + 1.0 - t.box.x1)
    else if p.y.Some? then t.(y := Max(b.y1, b.y2) + 1.0 - t.box.y1)
    else t.(box := Bounds(Max(b.x1, b.x2) + 1.0 - t.x, 0.0, Max(b.x1, b.x2) + 2.0 - t.x, 1.0))
  }

  lemma VictimMoves(p: Props)
    requires !Harmless(p)
    ensures Updated(Victim(p), "victim", p) == Target(p).(version := 1)
    ensures !Victim(p).isDeleted ==> !BoundsOverlap(BoxOf(Victim(p)), BoxOf(Cover(BoxOf(Target(p)))))
  {
  }

  /** `update_element` is outside the guarantee: some update with these properties puts an element onto another
      insertion's. */
  lemma UpdateCanOverlap(p: Props)
    requires !Harmless(p)
    ensures exists s, id :: !UpdateKeeps(s, id, p)
  {
    var v, c := Victim(p), Cover(BoxOf(Target(p)));
    var s := Scene([v, c], {}, 3);
    VictimMoves(p);
    assert Separated(s);
    var es := AfterUpdate(s.elements, "victim", p);
    assert es == [Target(p).(version := 1), c];
    CoverOverlaps(BoxOf(Target(p)));
    assert BoundsOverlap(BoxOf(es[0]), BoxOf(es[1]));
    assert !UpdateKeeps(s, "victim", p);
  }

  /** An update keeps insertions apart on every scene exactly when it deletes, or leaves position, box and
      deletion alone. */
  lemma UpdateKeepsApartExactly(p: Props)
    ensures (forall s, id :: UpdateKeeps(s, id, p)) <==> Harmless(p)
  {
    if Harmless(p) {
      forall s, id ensures UpdateKeeps(s, id, p) {
        HarmlessKeeps(s, id, p);
      }
    } else {
      UpdateCanOverlap(p);
    }
  }
}
