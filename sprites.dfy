/**
 * The state of an RPG sprite as a value, and one function per step of its frame logic.
 * The classes in module Actors change their fields exactly as these functions say.
 */
module Sprites {
  import opened Options
  import opened Geometry
  import opened Directions
  import opened Animation

  /** The size of every frame of a sprite sheet (32 by 36). */
  const SpriteWidth: nat := 32
  const SpriteHeight: nat := 36
  /** The hit box is a 20-by-20 square. */
  const HitSize: nat := 20

  datatype SpriteState = SpriteState(
    speed: int,
    direction: Direction,
    oldDirection: Option<Direction>,
    directionStack: seq<Direction>,
    redraw: bool,
    animateTimer: int,
    walkframeDict: map<Direction, Cycle>,
    walkframes: Direction,       // the direction whose cycle is the active one
    image: Image,
    rect: Rect,
    hitRect: Rect,
    dirty: int)

  /**
   * What every public operation keeps: the held directions are duplicate-free and the top
   * one is the current direction; every direction has its cycle, and the active one is that
   * of the direction last selected; the hit box is 20 by 20 and anchored at the midbottom of
   * the visual rect.
   */
  predicate Inv(s: SpriteState) {
    && NoDups(s.directionStack)
    && (s.directionStack != [] ==> s.direction == Last(s.directionStack))
    && Complete(s.walkframeDict)
    && (s.oldDirection == None || s.oldDirection == Some(s.walkframes))
    && s.hitRect.w == HitSize && s.hitRect.h == HitSize
    && s.hitRect.MidBottom() == s.rect.MidBottom()
  }

  // ---------------------------------------------------------------- construction

  /**
   * The state `RPGSprite.__init__` leaves: nothing held, facing `facing`, whose cycle has been
   * selected and has drawn its first pose (column 0) at time 0; the visual rect centred on
   * `pos` and the 20-by-20 hit box anchored at its midbottom.
   */
  function Initial(pos: (int, int), speed: int, frames: seq<seq<Image>>, facing: Direction): (s: SpriteState)
    requires SheetShaped(frames)
    ensures Inv(s)
    ensures s.speed == speed && s.direction == facing && s.directionStack == []
    ensures s.oldDirection == Some(facing) && s.walkframes == facing && !s.redraw
    ensures s.image == frames[Row(facing)][0] && s.animateTimer == 0 && s.dirty == 1
    ensures forall d: Direction :: d in s.walkframeDict &&
              s.walkframeDict[d] == if d == facing then WalkCycle(frames, Row(d)).Next()
                                    else WalkCycle(frames, Row(d))
    ensures s.rect == CenteredAt(pos, SpriteWidth, SpriteHeight)
    ensures s.hitRect.w == HitSize && s.hitRect.h == HitSize && s.hitRect.MidBottom() == s.rect.MidBottom()
  {
    var rect := CenteredAt(pos, SpriteWidth, SpriteHeight);
    var draft := SpriteState(speed, facing, None, [], true, 0, FrameDict(frames), facing,
                             frames[Row(facing)][0], rect,
                             Rect(0, 0, HitSize, HitSize).WithMidBottom(rect.MidBottom()), 1);
    AdjustImages(draft, 0).(dirty := 1)
  }

  // ---------------------------------------------------------------- direction stack

  /** `add_direction(d)`: hold d; it becomes the top of the stack and the current direction. */
  function AddDirection(s: SpriteState, d: Direction): (r: SpriteState)
    requires Inv(s)
    ensures Inv(r)
    ensures r.directionStack == Without(s.directionStack, d) + [d]
    ensures r.direction == d
    ensures r == s.(directionStack := r.directionStack, direction := d)
  {
    s.(directionStack := Pushed(s.directionStack, d), direction := d)
  }

  /**
   * `pop_direction(d)`: release d. The direction becomes the new top, or stays what it was if
   * nothing is held any more.
   */
  function PopDirection(s: SpriteState, d: Direction): (r: SpriteState)
    requires Inv(s)
    ensures Inv(r)
    ensures r.directionStack == Without(s.directionStack, d) && d !in r.directionStack
    ensures r.directionStack != [] ==> r.direction == Last(r.directionStack)
    ensures r.directionStack == [] ==> r.direction == s.direction
    ensures d !in s.directionStack ==> r == s
    ensures r == s.(directionStack := r.directionStack, direction := r.direction)
  {
    var stack := Popped(s.directionStack, d);
    s.(directionStack := stack, direction := if stack != [] then Last(stack) else s.direction)
  }

  // ---------------------------------------------------------------- animation

  /** The next pose is due: a redraw was requested, or more than one frame interval has passed. */
  predicate AnimationDue(s: SpriteState, now: int) {
    s.redraw || now - s.animateTimer > FrameInterval
  }

  /** `make_image(now)`: draw the next pose of the active cycle when due; always clear redraw. */
  function MakeImage(s: SpriteState, now: int): (r: SpriteState)
    requires Inv(s)
    ensures Inv(r) && !r.redraw
    ensures AnimationDue(s, now) ==>
              && r.image == s.walkframeDict[s.walkframes].Current()
              && r.walkframeDict[s.walkframes] == s.walkframeDict[s.walkframes].Next()
              && r.animateTimer == now && r.dirty == 1
    ensures !AnimationDue(s, now) ==> r == s.(redraw := false)
    ensures forall e :: e != s.walkframes ==> r.walkframeDict[e] == s.walkframeDict[e]
    ensures r.directionStack == s.directionStack && r.direction == s.direction
    ensures r.rect == s.rect && r.hitRect == s.hitRect
    ensures r.walkframes == s.walkframes && r.oldDirection == s.oldDirection && r.speed == s.speed
  {
    if AnimationDue(s, now) then
      var c := s.walkframeDict[s.walkframes];
      s.(image := c.Current(), walkframeDict := s.walkframeDict[s.walkframes := c.Next()],
         animateTimer := now, dirty := 1, redraw := false)
    else
      s.(redraw := false)
  }

  /** The current direction is not the one whose cycle was last selected. */
  predicate Turned(s: SpriteState) {
    s.oldDirection != Some(s.direction)
  }

  /**
   * `adjust_images(now)`: on a change of direction select that direction's own cycle and force
   * a redraw; then `make_image(now)`. The pose advances exactly when the direction changed,
   * a redraw was pending, or the frame interval has strictly passed; cycles of other
   * directions keep their phase.
   */
  function AdjustImages(s: SpriteState, now: int): (r: SpriteState)
    requires Inv(s)
    ensures Inv(r) && !r.redraw
    ensures r.walkframes == s.direction && r.oldDirection == Some(s.direction)
    ensures Turned(s) || AnimationDue(s, now) ==>
              && r.image == s.walkframeDict[s.direction].Current()
              && r.walkframeDict == s.walkframeDict[s.direction := s.walkframeDict[s.direction].Next()]
              && r.animateTimer == now && r.dirty == 1
    ensures !Turned(s) && !AnimationDue(s, now) ==> r == s.(redraw := false)
    ensures forall e :: e != s.direction ==> r.walkframeDict[e] == s.walkframeDict[e]
    ensures r.directionStack == s.directionStack && r.direction == s.direction
    ensures r.rect == s.rect && r.hitRect == s.hitRect && r.speed == s.speed
  {
    var t := if Turned(s) then
               s.(walkframes := s.direction, oldDirection := Some(s.direction), redraw := true)
             else s;
    MakeImage(t, now)
  }

  /**
   * A direction's cycle keeps its phase while the sprite faces elsewhere: after turning from d
   * to e and back, the pose shown is the one d's cycle would have yielded next.
   */
  lemma TurnAwayAndBack(s: SpriteState, e: Direction, now1: int, now2: int)
    requires Inv(s) && s.oldDirection == Some(s.direction) && e != s.direction
    ensures var d := s.direction;
            var away := AdjustImages(AddDirection(s, e), now1);
            var back := AdjustImages(AddDirection(away, d), now2);
            back.image == s.walkframeDict[d].Current() &&
            back.walkframeDict[d] == s.walkframeDict[d].Next()
  {
    var d := s.direction;
    var away := AdjustImages(AddDirection(s, e), now1);
    assert away.walkframeDict[d] == s.walkframeDict[d];
    assert Turned(AddDirection(away, d));
  }

  /**
   * Within one frame interval and without a turn or a pending redraw, the pose stays, however
   * often the sprite is updated.
   */
  lemma {:induction false} NoAdvanceWithinInterval(s: SpriteState, times: seq<int>)
    requires Inv(s) && !Turned(s) && !s.redraw
    requires forall k :: 0 <= k < |times| ==> times[k] - s.animateTimer <= FrameInterval
    ensures AdjustSeveral(s, times).image == s.image
    ensures AdjustSeveral(s, times).walkframeDict == s.walkframeDict
    ensures AdjustSeveral(s, times).animateTimer == s.animateTimer
    decreases |times|
  {
    if times != [] {
      var t := AdjustImages(s, times[0]);
      assert t == s.(redraw := false);
      NoAdvanceWithinInterval(t, times[1..]);
    }
  }

  /** `adjust_images` called at each of the given times in turn. */
  function AdjustSeveral(s: SpriteState, times: seq<int>): (r: SpriteState)
    requires Inv(s)
    ensures Inv(r)
    decreases |times|
  {
    if times == [] then s else AdjustSeveral(AdjustImages(s, times[0]), times[1..])
  }

  // ---------------------------------------------------------------- movement

  /** The visual rect after the move of one axis, before any correction. */
  function Shifted(s: SpriteState, i: Axis): (r: Rect)
    ensures r.w == s.rect.w && r.h == s.rect.h
    ensures r.Coord(i) == s.rect.Coord(i) + s.speed * Component(s.direction, i)
    ensures r.Coord(Other(i)) == s.rect.Coord(Other(i))
  {
    s.rect.WithCoord(i, s.rect.Coord(i) + s.speed * Component(s.direction, i))
  }

  /** The hit box anchored at the midbottom of the shifted rect: where the corrections start. */
  function ShiftedHit(s: SpriteState, i: Axis): (h: Rect)
    ensures h.w == s.hitRect.w && h.h == s.hitRect.h && h.MidBottom() == Shifted(s, i).MidBottom()
  {
    s.hitRect.WithMidBottom(Shifted(s, i).MidBottom())
  }

  /**
   * `movement(obstacles, i)` with at most `fuel` corrections: shift along axis i, anchor the
   * hit box, push it out of overlapping obstacles and let the visual rect follow. Only the two
   * rects change, and the visual rect not along the other axis; MovementFacts says the rest.
   */
  function Movement(s: SpriteState, obstacles: seq<Rect>, i: Axis, fuel: nat): (res: (SpriteState, bool))
    requires Inv(s)
    ensures Inv(res.0)
    ensures res.0 == s.(rect := res.0.rect, hitRect := res.0.hitRect)
    ensures res.0.rect.w == s.rect.w && res.0.rect.h == s.rect.h
    ensures res.0.rect.Coord(Other(i)) == s.rect.Coord(Other(i))
  {
    var shifted := Shifted(s, i);
    var out := Settle(ShiftedHit(s, i), obstacles, i, fuel);
    SettleFacts(ShiftedHit(s, i), obstacles, i, fuel);
    var rect := if out.corrections == 0 then shifted else shifted.WithMidBottom(out.hit.MidBottom());
    SameAnchorSameRect(rect, shifted.WithMidBottom(out.hit.MidBottom()));
    (s.(rect := rect, hitRect := out.hit), out.corrections > 0)
  }

  /**
   * What one axis of movement guarantees: the result is true exactly when a correction ran,
   * which is when the shifted hit box overlapped an obstacle (and there was fuel); without a
   * correction the rect has moved by exactly speed times the direction's component; a loop
   * that stopped before its fuel ran out leaves the hit box clear of every obstacle; after a
   * correction the hit box lies flush against an obstacle.
   */
  lemma MovementFacts(s: SpriteState, obstacles: seq<Rect>, i: Axis, fuel: nat)
    requires Inv(s)
    ensures var res := Movement(s, obstacles, i, fuel);
            && res.0.hitRect.Coord(Other(i)) == ShiftedHit(s, i).Coord(Other(i))
            && (res.1 <==> fuel > 0 && !HitsNone(ShiftedHit(s, i), obstacles))
            && (!res.1 ==> res.0.rect == Shifted(s, i) && res.0.hitRect == ShiftedHit(s, i))
            && (Settle(ShiftedHit(s, i), obstacles, i, fuel).corrections < fuel ==>
                  HitsNone(res.0.hitRect, obstacles))
            && (res.1 ==> exists k :: 0 <= k < |obstacles| && Touches(res.0.hitRect, obstacles[k], i))
  {
    SettleFacts(ShiftedHit(s, i), obstacles, i, fuel);
  }

  /** The state Movement gives, from the outcome of its correction loop. */
  lemma MovementFromSettled(s: SpriteState, obstacles: seq<Rect>, i: Axis, fuel: nat, hit: Rect, steps: nat)
    requires Inv(s) && Settle(ShiftedHit(s, i), obstacles, i, fuel) == Settled(hit, steps)
    ensures Movement(s, obstacles, i, fuel) ==
              (s.(rect := if steps == 0 then Shifted(s, i) else Shifted(s, i).WithMidBottom(hit.MidBottom()),
                  hitRect := hit), steps > 0)
  {
  }

  /** With nothing in the way, a move along axis i is exactly speed times the unit vector. */
  lemma {:induction false} FreeMove(s: SpriteState, i: Axis, fuel: nat)
    requires Inv(s)
    ensures Movement(s, [], i, fuel).0.rect.Coord(i) == s.rect.Coord(i) + s.speed * Component(s.direction, i)
    ensures Movement(s, [], i, fuel).0.rect.Coord(Other(i)) == s.rect.Coord(Other(i))
    ensures !Movement(s, [], i, fuel).1
  {
    assert HitsNone(ShiftedHit(s, i), []);
    MovementFacts(s, [], i, fuel);
  }

  /** Against a single obstacle the move always ends clear of it. */
  lemma MoveClearsSingleObstacle(s: SpriteState, c: Rect, i: Axis, fuel: nat)
    requires Inv(s) && fuel >= 1
    ensures HitsNone(Movement(s, [c], i, fuel).0.hitRect, [c])
    ensures Movement(s, [c], i, fuel).1 == Overlaps(ShiftedHit(s, i), c)
  {
    MovementFacts(s, [c], i, fuel);
    SettleSingleObstacle(ShiftedHit(s, i), c, i, fuel);
  }

  /**
   * A sprite walking right whose hit box already rests against the left side of an obstacle
   * is pushed back to the same place every frame: its position is a fixed point and every
   * move reports a collision.
   */
  lemma PushingAgainstObstacle(s: SpriteState, c: Rect, fuel: nat)
    requires Inv(s) && s.direction == Right && 0 < s.speed < HitSize && fuel >= 1
    requires s.hitRect.Right() == c.x && OverlapsOn(s.hitRect, c, 1)
    ensures Movement(s, [c], 0, fuel) == (s, true)
  {
    var hit := ShiftedHit(s, 0);
    assert hit.x == s.hitRect.x + s.speed && hit.y == s.hitRect.y;
    assert Overlaps(hit, c);
    assert FirstHit(hit, [c]) == Some(0);
    var back := AdjustOnCollision(hit, c, 0);
    assert back == s.hitRect;
    assert HitsNone(back, [c]);
    SettleStep(hit, [c], 0, fuel, 0, back);
    SettleStop(back, [c], 0, fuel - 1);
    SameAnchorSameRect(Shifted(s, 0).WithMidBottom(back.MidBottom()), s.rect);
  }

  // ---------------------------------------------------------------- screen wrap

  /** `wrap_around(screen)`: wrap the visual rect, then re-anchor the hit box, wrap or not. */
  function WrapAround(s: SpriteState, screen: Rect): (r: SpriteState)
    requires Inv(s)
    ensures Inv(r)
    ensures r.rect == WrapAsWritten(s.rect, screen)
    ensures r == s.(rect := r.rect, hitRect := r.hitRect)
  {
    var rect := WrapAsWritten(s.rect, screen);
    s.(rect := rect, hitRect := s.hitRect.WithMidBottom(rect.MidBottom()))
  }

  /**
   * A sprite standing within the margin of the right edge is wrapped to the left, and a second
   * wrap with no move in between puts it back where it was: the wrap alternates every frame.
   */
  lemma WrapAroundFlickers(s: SpriteState)
    requires Inv(s) && s.rect == Rect(630, 100, SpriteWidth, SpriteHeight)
    ensures WrapAround(s, Rect(0, 0, 640, 480)).rect.x == -22
    ensures WrapAround(WrapAround(s, Rect(0, 0, 640, 480)), Rect(0, 0, 640, 480)) == s
  {
    WrapAsWrittenPingPong();
    var back := WrapAround(WrapAround(s, Rect(0, 0, 640, 480)), Rect(0, 0, 640, 480));
    SameAnchorSameRect(back.hitRect, s.hitRect);
  }

  // ---------------------------------------------------------------- one frame

  /**
   * `update(now, screen, obstacles)`: animation first; then, only if a direction is held, the
   * x move, the y move and the wrap. The result says whether either move needed a correction.
   */
  function Update(s: SpriteState, now: int, screen: Rect, obstacles: seq<Rect>, fuel: nat): (res: (SpriteState, bool))
    requires Inv(s)
    ensures Inv(res.0)
    ensures res.0.directionStack == s.directionStack && res.0.direction == s.direction
    ensures res.0.speed == s.speed
    ensures res.0.image == AdjustImages(s, now).image
    ensures res.0.walkframeDict == AdjustImages(s, now).walkframeDict
    ensures res.0.animateTimer == AdjustImages(s, now).animateTimer && !res.0.redraw
    ensures s.directionStack == [] ==> res.0 == AdjustImages(s, now) && !res.1
    ensures s.directionStack != [] ==> res.0.dirty == 1
  {
    var a := AdjustImages(s, now);
    if a.directionStack == [] then (a, false)
    else
      var mx := Movement(a.(dirty := 1), obstacles, 0, fuel);
      var my := Movement(mx.0, obstacles, 1, fuel);
      (WrapAround(my.0, screen), mx.1 || my.1)
  }

  /** An idle sprite stays put and reports no collision. */
  lemma IdleStaysPut(s: SpriteState, now: int, screen: Rect, obstacles: seq<Rect>, fuel: nat)
    requires Inv(s) && s.directionStack == []
    ensures Update(s, now, screen, obstacles, fuel).0.rect == s.rect
    ensures Update(s, now, screen, obstacles, fuel).0.hitRect == s.hitRect
    ensures !Update(s, now, screen, obstacles, fuel).1
  {
  }

  /**
   * With nothing in the way, a frame of a walking sprite moves it by exactly speed times
   * the unit vector of its direction and then wraps it round the screen.
   */
  lemma FreeUpdate(s: SpriteState, now: int, screen: Rect, fuel: nat)
    requires Inv(s) && s.directionStack != []
    ensures var v := Vector(s.direction);
            Update(s, now, screen, [], fuel).0.rect ==
              WrapAsWritten(Rect(s.rect.x + s.speed * v.0, s.rect.y + s.speed * v.1, s.rect.w, s.rect.h), screen)
    ensures !Update(s, now, screen, [], fuel).1
  {
    var a := AdjustImages(s, now).(dirty := 1);
    FreeMove(a, 0, fuel);
    var mx := Movement(a, [], 0, fuel);
    FreeMove(mx.0, 1, fuel);
  }

  /**
   * A frame of a walking sprite: animate, move along x, then along y from where the x move
   * left it, then wrap. The result is true exactly when one of the two shifted hit boxes
   * met an obstacle (and the loop had fuel to correct it).
   */
  lemma WalkingUpdate(s: SpriteState, now: int, screen: Rect, obstacles: seq<Rect>, fuel: nat)
    requires Inv(s) && s.directionStack != []
    ensures var a := AdjustImages(s, now).(dirty := 1);
            var mx := Movement(a, obstacles, 0, fuel);
            var my := Movement(mx.0, obstacles, 1, fuel);
            && Update(s, now, screen, obstacles, fuel) == (WrapAround(my.0, screen), mx.1 || my.1)
            && (Update(s, now, screen, obstacles, fuel).1 <==>
                  fuel > 0 && (!HitsNone(ShiftedHit(a, 0), obstacles) || !HitsNone(ShiftedHit(mx.0, 1), obstacles)))
  {
    var a := AdjustImages(s, now).(dirty := 1);
    MovementFacts(a, obstacles, 0, fuel);
    var mx := Movement(a, obstacles, 0, fuel);
    MovementFacts(mx.0, obstacles, 1, fuel);
  }

  // ---------------------------------------------------------------- player and AI

  /** A key code of the input device. */
  type Key = int

  /** The input events a player reacts to; every other event is ignored. */
  datatype Event = KeyDown(key: Key) | KeyUp(key: Key) | OtherEvent

  /**
   * `Player.get_event`: a press of a mapped key holds its direction, a release releases it;
   * unmapped keys and other events leave the sprite as it is.
   */
  function HandleEvent(s: SpriteState, controls: map<Key, Direction>, e: Event): (r: SpriteState)
    requires Inv(s)
    ensures Inv(r)
    ensures e.OtherEvent? || e.key !in controls ==> r == s
    ensures e.KeyDown? && e.key in controls ==>
              r.direction == controls[e.key] && r.directionStack != [] && Last(r.directionStack) == controls[e.key]
    ensures e.KeyUp? && e.key in controls ==> controls[e.key] !in r.directionStack
    ensures e.KeyDown? && e.key in controls ==> r == AddDirection(s, controls[e.key])
    ensures e.KeyUp? && e.key in controls ==> r == PopDirection(s, controls[e.key])
    ensures forall d :: d != (if e.OtherEvent? || e.key !in controls then d else controls[e.key]) ==>
              (d in r.directionStack <==> d in s.directionStack)
  {
    match e
    case KeyDown(k) => if k in controls then AddDirection(s, controls[k]) else s
    case KeyUp(k) => if k in controls then PopDirection(s, controls[k]) else s
    case OtherEvent => s
  }

  /** The bounds of the AI's re-decision delay, in milliseconds. */
  const WaitMin := 500
  const WaitMax := 2000

  /**
   * The direction part of `AISprite.change_direction`: empty the stack, then hold the chosen
   * direction, if any. The stack ends empty or holding exactly that direction.
   */
  function ChangeDirection(s: SpriteState, choice: Option<Direction>): (r: SpriteState)
    requires Inv(s)
    ensures Inv(r)
    ensures r.directionStack == if choice.Some? then [choice.value] else []
    ensures r.direction == if choice.Some? then choice.value else s.direction
    ensures r == s.(directionStack := r.directionStack, direction := r.direction)
  {
    var cleared := s.(directionStack := []);
    if choice.Some? then AddDirection(cleared, choice.value) else cleared
  }
}
