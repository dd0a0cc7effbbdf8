/**
 * Integer rectangles in the manner of pygame's Rect, the overlap test used for collisions,
 * the one-step collision correction, the correction loop as a specification function,
 * and the screen wrap.
 */
module Geometry {
  import opened Options

  /** An index into a Rect as pygame allows it: 0 is the x axis, 1 is the y axis. */
  type Axis = i: int | 0 <= i < 2

  function Other(i: Axis): (j: Axis)
    ensures j != i
  {
    1 - i
  }

  /** A Rect: its top-left corner and a non-negative size. */
  datatype Rect = Rect(x: int, y: int, w: nat, h: nat) {
    function Right(): int { x + w }

    function Bottom(): int { y + h }

    /** `rect[i]` */
    function Coord(i: Axis): int { if i == 0 then x else y }

    /** `rect.size[i]` */
    function Size(i: Axis): nat { if i == 0 then w else h }

    /** `rect[i] = v`: only coordinate i changes. */
    function WithCoord(i: Axis, v: int): (r: Rect)
      ensures r.Coord(i) == v && r.Coord(Other(i)) == Coord(Other(i))
      ensures r.w == w && r.h == h
    {
      if i == 0 then this.(x := v) else this.(y := v)
    }

    /** `rect.midbottom`, with pygame's integer halving of the width. */
    function MidBottom(): (int, int) { (x + w / 2, y + h) }

    /** `rect.midbottom = p`: the rect keeps its size and moves so that its midbottom is p. */
    function WithMidBottom(p: (int, int)): (r: Rect)
      ensures r.MidBottom() == p
      ensures r.w == w && r.h == h
    {
      Rect(p.0 - w / 2, p.1 - h, w, h)
    }

    /** `rect.right = v` */
    function WithRight(v: int): (r: Rect)
      ensures r.Right() == v && r.y == y && r.w == w && r.h == h
    {
      this.(x := v - w)
    }

    /** `rect.bottom = v` */
    function WithBottom(v: int): (r: Rect)
      ensures r.Bottom() == v && r.x == x && r.w == w && r.h == h
    {
      this.(y := v - h)
    }
  }

  /** A rect of the given size whose centre is p, as `surface.get_rect(center=p)` gives it. */
  function CenteredAt(p: (int, int), w: nat, h: nat): (r: Rect)
    ensures r.w == w && r.h == h && r.x + w / 2 == p.0 && r.y + h / 2 == p.1
  {
    Rect(p.0 - w / 2, p.1 - h / 2, w, h)
  }

  /** Two rects of the same size with the same midbottom are the same rect. */
  lemma SameAnchorSameRect(a: Rect, b: Rect)
    requires a.w == b.w && a.h == b.h && a.MidBottom() == b.MidBottom()
    ensures a == b
  {
  }

  /** The two rects share interior along axis i. */
  predicate OverlapsOn(a: Rect, b: Rect, i: Axis) {
    a.Coord(i) < b.Coord(i) + b.Size(i) && b.Coord(i) < a.Coord(i) + a.Size(i)
  }

  /** The two rects share interior: they overlap on both axes. */
  predicate Overlaps(a: Rect, b: Rect) {
    OverlapsOn(a, b, 0) && OverlapsOn(a, b, 1)
  }

  /** `r` overlaps none of the obstacles. */
  predicate HitsNone(r: Rect, obstacles: seq<Rect>) {
    forall k :: 0 <= k < |obstacles| ==> !Overlaps(r, obstacles[k])
  }

  /**
   * The position of the first obstacle that `r` overlaps, scanning in order: the obstacle
   * that a collide-any query over the obstacle group reports.
   */
  function FirstHit(r: Rect, obstacles: seq<Rect>): (hit: Option<nat>)
    ensures hit.None? <==> HitsNone(r, obstacles)
    ensures hit.Some? ==> hit.value < |obstacles| && Overlaps(r, obstacles[hit.value])
  {
    if |obstacles| == 0 then None
    else if Overlaps(r, obstacles[0]) then Some(0)
    else
      match FirstHit(r, obstacles[1..])
      case None => None
      case Some(k) => Some(k + 1)
  }

  /** The obstacle reported is the first one in the sequence that `r` overlaps. */
  lemma {:induction false} FirstHitIsFirst(r: Rect, obstacles: seq<Rect>, k: nat)
    requires FirstHit(r, obstacles).Some? && k < FirstHit(r, obstacles).value
    ensures !Overlaps(r, obstacles[k])
  {
    if k > 0 {
      FirstHitIsFirst(r, obstacles[1..], k - 1);
    }
  }

  /** `a` lies flush against `c` along axis i: it ends where c starts or starts where c ends. */
  predicate Touches(a: Rect, c: Rect, i: Axis) {
    a.Coord(i) + a.Size(i) == c.Coord(i) || a.Coord(i) == c.Coord(i) + c.Size(i)
  }

  /**
   * One collision correction: push `r` out of `c` along axis i. If r's coordinate i is
   * strictly smaller than c's, r is put just before c; otherwise (ties included) just past c.
   */
  function AdjustOnCollision(r: Rect, c: Rect, i: Axis): (a: Rect)
    ensures a.w == r.w && a.h == r.h && a.Coord(Other(i)) == r.Coord(Other(i))
    ensures Touches(a, c, i) && !OverlapsOn(a, c, i) && !Overlaps(a, c)
    ensures r.Coord(i) < c.Coord(i) ==> a.Coord(i) + a.Size(i) == c.Coord(i)
    ensures c.Coord(i) <= r.Coord(i) ==> a.Coord(i) == c.Coord(i) + c.Size(i)
  {
    if r.Coord(i) < c.Coord(i) then r.WithCoord(i, c.Coord(i) - r.Size(i))
    else r.WithCoord(i, c.Coord(i) + c.Size(i))
  }

  /** A coordinate tie is resolved by pushing the rect past the obstacle, never back before it. */
  lemma TieBreakPushesPast(r: Rect, c: Rect, i: Axis)
    requires r.Coord(i) == c.Coord(i) && c.Size(i) > 0
    ensures AdjustOnCollision(r, c, i).Coord(i) > r.Coord(i)
  {
  }

  /** The outcome of the correction loop: the final hit box and how many corrections ran. */
  datatype Settled = Settled(hit: Rect, corrections: nat)

  /**
   * The correction loop of one axis: while the hit box overlaps an obstacle, correct it
   * against the first one. `fuel` bounds the number of corrections, since the loop need not
   * end (see GapTooNarrowThrashes).
   */
  function Settle(hit: Rect, obstacles: seq<Rect>, i: Axis, fuel: nat): (o: Settled)
    ensures o.corrections <= fuel
    decreases fuel
  {
    match FirstHit(hit, obstacles)
    case None => Settled(hit, 0)
    case Some(k) =>
      if fuel == 0 then Settled(hit, 0)
      else
        var next := Settle(AdjustOnCollision(hit, obstacles[k], i), obstacles, i, fuel - 1);
        Settled(next.hit, next.corrections + 1)
  }

  /**
   * What the correction loop guarantees: only coordinate i moves; it runs exactly when the
   * box starts out overlapping something and there is fuel; if it stopped before the fuel ran
   * out, the box overlaps nothing; and after a correction it lies flush against an obstacle.
   */
  lemma {:induction false} SettleFacts(hit: Rect, obstacles: seq<Rect>, i: Axis, fuel: nat)
    ensures var o := Settle(hit, obstacles, i, fuel);
            && o.hit.w == hit.w && o.hit.h == hit.h && o.hit.Coord(Other(i)) == hit.Coord(Other(i))
            && (o.corrections == 0 <==> (fuel == 0 || HitsNone(hit, obstacles)))
            && (o.corrections == 0 ==> o.hit == hit)
            && (o.corrections < fuel ==> HitsNone(o.hit, obstacles))
            && (o.corrections > 0 ==> exists k :: 0 <= k < |obstacles| && Touches(o.hit, obstacles[k], i))
    decreases fuel
  {
    var first := FirstHit(hit, obstacles);
    if first.Some? && fuel > 0 {
      var k := first.value;
      var a := AdjustOnCollision(hit, obstacles[k], i);
      SettleFacts(a, obstacles, i, fuel - 1);
      var next := Settle(a, obstacles, i, fuel - 1);
      if next.corrections == 0 {
        assert Touches(next.hit, obstacles[k], i);
      }
    }
  }

  /** `whole` is the outcome of a loop that has made `steps` corrections and then ended with `rest`. */
  predicate SettledAfter(whole: Settled, rest: Settled, steps: nat) {
    whole.hit == rest.hit && whole.corrections == rest.corrections + steps
  }

  /** One turn of the correction loop: correct against the first obstacle hit, then go on. */
  lemma SettleStep(hit: Rect, obstacles: seq<Rect>, i: Axis, fuel: nat, k: nat, next: Rect)
    requires FirstHit(hit, obstacles) == Some(k) && fuel > 0
    requires next == AdjustOnCollision(hit, obstacles[k], i)
    ensures SettledAfter(Settle(hit, obstacles, i, fuel), Settle(next, obstacles, i, fuel - 1), 1)
  {
  }

  /** The loop stops when nothing is hit or no fuel is left. */
  lemma SettleStop(hit: Rect, obstacles: seq<Rect>, i: Axis, fuel: nat)
    requires FirstHit(hit, obstacles).None? || fuel == 0
    ensures Settle(hit, obstacles, i, fuel) == Settled(hit, 0)
  {
  }

  /** Against a single obstacle one correction always suffices. */
  lemma SettleSingleObstacle(hit: Rect, c: Rect, i: Axis, fuel: nat)
    requires fuel >= 1
    ensures HitsNone(Settle(hit, [c], i, fuel).hit, [c])
    ensures Settle(hit, [c], i, fuel).corrections == if Overlaps(hit, c) then 1 else 0
  {
    if Overlaps(hit, c) {
      var a := AdjustOnCollision(hit, c, i);
      assert FirstHit(hit, [c]) == Some(0);
      assert HitsNone(a, [c]);
      assert Settle(a, [c], i, fuel - 1) == Settled(a, 0);
    }
  }

  const GapLeft := Rect(0, 0, 50, 50)
  const GapRight := Rect(65, 0, 50, 50)

  /**
   * Two obstacles that leave a 15-wide gap, narrower than a 20-wide hit box: the box at
   * x = 45 overlaps the left one and is pushed past it to x = 50, where it overlaps the right
   * one and is pushed back to x = 45.
   */
  lemma GapBounce()
    ensures FirstHit(Rect(45, 10, 20, 20), [GapLeft, GapRight]) == Some(0)
    ensures AdjustOnCollision(Rect(45, 10, 20, 20), GapLeft, 0) == Rect(50, 10, 20, 20)
    ensures FirstHit(Rect(50, 10, 20, 20), [GapLeft, GapRight]) == Some(1)
    ensures AdjustOnCollision(Rect(50, 10, 20, 20), GapRight, 0) == Rect(45, 10, 20, 20)
  {
    var b := Rect(50, 10, 20, 20);
    assert [GapLeft, GapRight][1..] == [GapRight];
    assert !Overlaps(b, GapLeft) && FirstHit(b, [GapRight]) == Some(0);
  }

  /**
   * When correcting `a` gives `b` and correcting `b` gives `a` back, the loop bounces between
   * the two for as long as it is let run.
   */
  lemma {:induction false} BounceThrashes(a: Rect, b: Rect, obstacles: seq<Rect>, i: Axis, fuel: nat, ka: nat, kb: nat)
    requires FirstHit(a, obstacles) == Some(ka) && AdjustOnCollision(a, obstacles[ka], i) == b
    requires FirstHit(b, obstacles) == Some(kb) && AdjustOnCollision(b, obstacles[kb], i) == a
    ensures Settle(a, obstacles, i, fuel).corrections == fuel
    ensures Settle(b, obstacles, i, fuel).corrections == fuel
  {
    if fuel > 0 {
      BounceThrashes(a, b, obstacles, i, fuel - 1, ka, kb);
      SettleStep(a, obstacles, i, fuel, ka, b);
      SettleStep(b, obstacles, i, fuel, kb, a);
    }
  }

  /** In that gap every unit of fuel is spent: the correction loop never ends. */
  lemma GapTooNarrowThrashes(fuel: nat)
    ensures Settle(Rect(45, 10, 20, 20), [GapLeft, GapRight], 0, fuel).corrections == fuel
  {
    GapBounce();
    BounceThrashes(Rect(45, 10, 20, 20), Rect(50, 10, 20, 20), [GapLeft, GapRight], 0, fuel, 0, 1);
  }

  /** The margin of the screen wrap. */
  const WrapBuffer := 10

  /**
   * One axis of `wrap_around` exactly as written: a rect whose left (top) edge comes within the
   * margin of the far bound, or passes it, is put with its right (bottom) edge at the absolute
   * coordinate `buffer`; otherwise (`elif`) a rect whose trailing edge comes within the margin of
   * the near bound, or passes it, is put at the far bound less the margin; otherwise it stays.
   */
  function WrapAxisAsWritten(r: Rect, screen: Rect, i: Axis): (w: Rect)
    ensures w.w == r.w && w.h == r.h && w.Coord(Other(i)) == r.Coord(Other(i))
    ensures r.Coord(i) + WrapBuffer >= screen.Coord(i) + screen.Size(i) ==>
              w.Coord(i) + w.Size(i) == WrapBuffer
    ensures (r.Coord(i) + WrapBuffer < screen.Coord(i) + screen.Size(i) &&
             r.Coord(i) + r.Size(i) - WrapBuffer <= screen.Coord(i)) ==>
              w.Coord(i) == screen.Coord(i) + screen.Size(i) - WrapBuffer
    ensures (r.Coord(i) + WrapBuffer < screen.Coord(i) + screen.Size(i) &&
             screen.Coord(i) < r.Coord(i) + r.Size(i) - WrapBuffer) ==> w == r
  {
    if r.Coord(i) + WrapBuffer >= screen.Coord(i) + screen.Size(i) then
      if i == 0 then r.WithRight(WrapBuffer) else r.WithBottom(WrapBuffer)
    else if r.Coord(i) + r.Size(i) - WrapBuffer <= screen.Coord(i) then
      r.WithCoord(i, screen.Coord(i) + screen.Size(i) - WrapBuffer)
    else r
  }

  /** `wrap_around` as written: horizontal test, then the independent vertical test. */
  function WrapAsWritten(r: Rect, screen: Rect): (w: Rect)
    ensures w.w == r.w && w.h == r.h
    ensures w.x == WrapAxisAsWritten(r, screen, 0).x && w.y == WrapAxisAsWritten(r, screen, 1).y
  {
    WrapAxisAsWritten(WrapAxisAsWritten(r, screen, 0), screen, 1)
  }

  /**
   * As written, the place each branch moves the rect to meets the other branch's test, so
   * a sprite that wraps and then does not move on along that axis is sent back next frame.
   */
  lemma WrapAsWrittenPingPong()
    ensures WrapAsWritten(Rect(630, 100, 32, 36), Rect(0, 0, 640, 480)) == Rect(-22, 100, 32, 36)
    ensures WrapAsWritten(Rect(-22, 100, 32, 36), Rect(0, 0, 640, 480)) == Rect(630, 100, 32, 36)
  {
  }

  /**
   * One axis of the screen wrap with strict tests: a rect whose leading edge passes the far
   * bound by more than the margin reappears with its trailing edge at the margin, and
   * mirror-wise for the near bound; at most one of the two assignments happens.
   */
  function WrapAxis(r: Rect, screen: Rect, i: Axis): (w: Rect)
    ensures w.w == r.w && w.h == r.h && w.Coord(Other(i)) == r.Coord(Other(i))
    ensures r.Coord(i) + WrapBuffer > screen.Coord(i) + screen.Size(i) ==>
              w.Coord(i) + w.Size(i) == WrapBuffer
    ensures (r.Coord(i) + WrapBuffer <= screen.Coord(i) + screen.Size(i) &&
             r.Coord(i) + r.Size(i) - WrapBuffer < screen.Coord(i)) ==>
              w.Coord(i) == screen.Coord(i) + screen.Size(i) - WrapBuffer
    ensures (r.Coord(i) + WrapBuffer <= screen.Coord(i) + screen.Size(i) &&
             screen.Coord(i) <= r.Coord(i) + r.Size(i) - WrapBuffer) ==> w == r
  {
    if r.Coord(i) + WrapBuffer > screen.Coord(i) + screen.Size(i) then
      r.WithCoord(i, WrapBuffer - r.Size(i))
    else if r.Coord(i) + r.Size(i) - WrapBuffer < screen.Coord(i) then
      r.WithCoord(i, screen.Coord(i) + screen.Size(i) - WrapBuffer)
    else r
  }

  /** The screen wrap: horizontal, then vertical. */
  function Wrap(r: Rect, screen: Rect): (w: Rect)
    ensures w.w == r.w && w.h == r.h
    ensures w.x == WrapAxis(r, screen, 0).x && w.y == WrapAxis(r, screen, 1).y
  {
    WrapAxis(WrapAxis(r, screen, 0), screen, 1)
  }

  /** The horizontal outcome does not depend on the vertical position, nor the other way round. */
  lemma WrapAxesIndependent(a: Rect, b: Rect, screen: Rect)
    requires a.w == b.w && a.h == b.h
    ensures a.x == b.x ==> Wrap(a, screen).x == Wrap(b, screen).x
    ensures a.y == b.y ==> Wrap(a, screen).y == Wrap(b, screen).y
  {
  }

  /**
   * With the screen at the origin and not narrower than the margins, a wrapped rect is not
   * wrapped again: the wrap is idempotent, so it cannot flicker.
   */
  lemma WrapIdempotent(r: Rect, screen: Rect)
    requires screen.x == 0 && screen.y == 0
    requires screen.w + r.w >= 2 * WrapBuffer && screen.h + r.h >= 2 * WrapBuffer
    ensures Wrap(Wrap(r, screen), screen) == Wrap(r, screen)
  {
    var once := Wrap(r, screen);
    assert WrapAxis(once, screen, 0) == once;
    assert WrapAxis(once, screen, 1) == once;
  }
}
