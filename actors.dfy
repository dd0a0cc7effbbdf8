/**
 * The sprite classes: the shared RPG sprite whose fields every frame updates in place, the
 * keyboard-driven player and the timer-driven AI sprite. Each method changes the fields
 * exactly as the matching function of module Sprites says.
 */
module Actors {
  import opened Options
  import opened Geometry
  import opened Directions
  import opened Animation
  import opened Sprites

  class RPGSprite {
    const speed: int
    var direction: Direction
    var oldDirection: Option<Direction>
    var directionStack: seq<Direction>
    var redraw: bool
    var animateTimer: int
    var walkframeDict: map<Direction, Cycle>
    var walkframes: Direction
    var image: Image
    var rect: Rect
    var hitRect: Rect
    var dirty: int

    /** All fields, as one value. */
    function State(): SpriteState
      reads this
    {
      SpriteState(speed, direction, oldDirection, directionStack, redraw, animateTimer,
                  walkframeDict, walkframes, image, rect, hitRect, dirty)
    }

    predicate Valid()
      reads this
    {
      Inv(State())
    }

    /**
     * A sprite standing at `pos` (the centre of its visual rect) facing `facing`, with the
     * frames of its sheet; the first pose of the facing direction is drawn at once.
     */
    constructor (pos: (int, int), speed: int, frames: seq<seq<Image>>, facing: Direction)
      requires SheetShaped(frames)
      ensures Valid() && State() == Initial(pos, speed, frames, facing)
    {
      this.speed := speed;
      direction := facing;
      oldDirection := None;
      directionStack := [];
      redraw := true;
      animateTimer := 0;
      var dict := MakeFrameDict(frames);
      walkframeDict := dict;
      walkframes := facing;              // no cycle is active until adjust_images selects one
      image := frames[Row(facing)][0];   // replaced by the first drawn pose below
      var r := CenteredAt(pos, SpriteWidth, SpriteHeight);
      rect := r;
      hitRect := Rect(0, 0, HitSize, HitSize).WithMidBottom(r.MidBottom());
      dirty := 1;
      new;
      AdjustImages(0);
      dirty := 1;
    }

    /** `make_image(now)` */
    method MakeImage(now: int)
      requires Valid()
      modifies this
      ensures Valid() && State() == Sprites.MakeImage(old(State()), now)
    {
      if redraw || now - animateTimer > FrameInterval {
        var cycle := walkframeDict[walkframes];
        image := cycle.Current();
        walkframeDict := walkframeDict[walkframes := cycle.Next()];
        animateTimer := now;
        dirty := 1;
      }
      redraw := false;
    }

    /** `adjust_images(now)` */
    method AdjustImages(now: int)
      requires Valid()
      modifies this
      ensures Valid() && State() == Sprites.AdjustImages(old(State()), now)
    {
      if oldDirection != Some(direction) {
        walkframes := direction;
        oldDirection := Some(direction);
        redraw := true;
      }
      MakeImage(now);
    }

    /** `add_direction(d)` */
    method AddDirection(d: Direction)
      requires Valid()
      modifies this
      ensures Valid() && State() == Sprites.AddDirection(old(State()), d)
    {
      if d in directionStack {
        directionStack := RemoveFirst(directionStack, d);
      }
      directionStack := directionStack + [d];
      direction := d;
      assert State() == Sprites.AddDirection(old(State()), d);
    }

    /** `pop_direction(d)` */
    method PopDirection(d: Direction)
      requires Valid()
      modifies this
      ensures Valid() && State() == Sprites.PopDirection(old(State()), d)
    {
      if d in directionStack {
        directionStack := RemoveFirst(directionStack, d);
      }
      if directionStack != [] {
        direction := Last(directionStack);
      }
      assert State() == Sprites.PopDirection(old(State()), d);
    }

    /** `wrap_around(screen)` */
    method WrapAround(screen: Rect)
      requires Valid()
      modifies this
      ensures Valid() && State() == Sprites.WrapAround(old(State()), screen)
    {
      if rect.x + WrapBuffer >= screen.Right() {
        rect := rect.WithRight(WrapBuffer);
      } else if rect.Right() - WrapBuffer <= screen.x {
        rect := rect.(x := screen.Right() - WrapBuffer);
      }
      if rect.y + WrapBuffer >= screen.Bottom() {
        rect := rect.WithBottom(WrapBuffer);
      } else if rect.Bottom() - WrapBuffer <= screen.y {
        rect := rect.(y := screen.Bottom() - WrapBuffer);
      }
      hitRect := hitRect.WithMidBottom(rect.MidBottom());
    }

    /**
     * `movement(obstacles, i)`, with at most `fuel` turns of the correction loop.
     */
    method Movement(obstacles: seq<Rect>, i: Axis, fuel: nat) returns (adjust: bool)
      requires Valid()
      modifies this`rect, this`hitRect
      ensures Valid() && (State(), adjust) == Sprites.Movement(old(State()), obstacles, i, fuel)
    {
      adjust := false;
      var r := rect.WithCoord(i, rect.Coord(i) + speed * Component(direction, i));
      var hit := hitRect.WithMidBottom(r.MidBottom());
      ghost var shifted, goal := r, Settle(hit, obstacles, i, fuel);
      assert shifted == Shifted(State(), i) && hit == ShiftedHit(State(), i);
      var collision := FirstHit(hit, obstacles);
      var steps: nat := 0;
      while collision.Some? && steps < fuel
        invariant steps <= fuel
        invariant collision == FirstHit(hit, obstacles)
        invariant adjust == (steps > 0)
        invariant SettledAfter(goal, Settle(hit, obstacles, i, fuel - steps), steps)
        invariant r == if steps == 0 then shifted else shifted.WithMidBottom(hit.MidBottom())
        modifies {}
        decreases fuel - steps
      {
        adjust := true;
        ghost var before := hit;
        hit := AdjustOnCollision(hit, obstacles[collision.value], i);
        SettleStep(before, obstacles, i, fuel - steps, collision.value, hit);
        r := r.WithMidBottom(hit.MidBottom());
        collision := FirstHit(hit, obstacles);
        steps := steps + 1;
      }
      SettleStop(hit, obstacles, i, fuel - steps);
      MovementFromSettled(State(), obstacles, i, fuel, hit, steps);
      rect, hitRect := r, hit;
    }

    /** `update(now, screen, obstacles)`; the result says whether a collision was corrected. */
    method Update(now: int, screen: Rect, obstacles: seq<Rect>, fuel: nat) returns (collided: bool)
      requires Valid()
      modifies this
      ensures Valid() && (State(), collided) == Sprites.Update(old(State()), now, screen, obstacles, fuel)
    {
      AdjustImages(now);
      var adjustX, adjustY := false, false;
      if directionStack != [] {
        dirty := 1;
        adjustX := Movement(obstacles, 0, fuel);
        adjustY := Movement(obstacles, 1, fuel);
        WrapAround(screen);
      }
      collided := adjustX || adjustY;
    }
  }

  /** The user-controlled sprite: key presses and releases hold and release directions. */
  class Player {
    const sprite: RPGSprite
    /** The key-to-direction table. */
    const controls: map<Key, Direction>

    predicate Valid()
      reads this, sprite
    {
      sprite.Valid()
    }

    constructor (pos: (int, int), speed: int, frames: seq<seq<Image>>, facing: Direction,
                 controls: map<Key, Direction>)
      requires SheetShaped(frames)
      ensures Valid() && fresh(sprite) && this.controls == controls
      ensures sprite.State() == Initial(pos, speed, frames, facing)
    {
      sprite := new RPGSprite(pos, speed, frames, facing);
      this.controls := controls;
    }

    /** `get_event(event)` */
    method GetEvent(e: Event)
      requires Valid()
      modifies sprite
      ensures Valid() && sprite.State() == HandleEvent(old(sprite.State()), controls, e)
    {
      match e
      case KeyDown(k) => AddDirection(k);
      case KeyUp(k) => PopDirection(k);
      case OtherEvent =>
    }

    /** `Player.add_direction(key)`: keys outside the table are ignored. */
    method AddDirection(key: Key)
      requires Valid()
      modifies sprite
      ensures Valid()
      ensures sprite.State() == if key in controls then Sprites.AddDirection(old(sprite.State()), controls[key])
                                else old(sprite.State())
    {
      if key in controls {
        sprite.AddDirection(controls[key]);
      }
    }

    /** `Player.pop_direction(key)`: keys outside the table are ignored. */
    method PopDirection(key: Key)
      requires Valid()
      modifies sprite
      ensures Valid()
      ensures sprite.State() == if key in controls then Sprites.PopDirection(old(sprite.State()), controls[key])
                                else old(sprite.State())
    {
      if key in controls {
        sprite.PopDirection(controls[key]);
      }
    }
  }

  /** One outcome of the AI's random choices: a direction or none (idle), and the next delay. */
  datatype Decision = Decision(direction: Option<Direction>, delay: int)

  /** The delay lies in the AI's wait range. */
  predicate Allowed(c: Decision) {
    WaitMin <= c.delay <= WaitMax
  }

  /**
   * A non-player sprite: it holds at most one direction and re-decides when its delay has
   * passed or when it collided.
   */
  class AISprite {
    const sprite: RPGSprite
    var waitDelay: int
    var waitTime: int

    predicate Valid()
      reads this, sprite
    {
      sprite.Valid() && |sprite.directionStack| <= 1 && WaitMin <= waitDelay <= WaitMax
    }

    constructor (pos: (int, int), speed: int, frames: seq<seq<Image>>, facing: Direction, first: Decision)
      requires SheetShaped(frames) && Allowed(first)
      ensures Valid() && fresh(sprite)
      ensures waitTime == 0 && waitDelay == first.delay
      ensures sprite.State() == Sprites.ChangeDirection(Initial(pos, speed, frames, facing), first.direction)
    {
      sprite := new RPGSprite(pos, speed, frames, facing);
      waitDelay := first.delay;
      waitTime := 0;
      new;
      ChangeDirection(0, first);
    }

    /** `change_direction(now)`: empty the stack, hold the chosen direction if any, restart the timer. */
    method ChangeDirection(now: int, c: Decision)
      requires sprite.Valid() && Allowed(c)
      modifies this, sprite
      ensures Valid()
      ensures sprite.State() == Sprites.ChangeDirection(old(sprite.State()), c.direction)
      ensures waitDelay == c.delay && waitTime == now
    {
      sprite.directionStack := [];
      if c.direction.Some? {
        sprite.AddDirection(c.direction.value);
      }
      waitDelay := c.delay;
      waitTime := now;
    }

    /**
     * `AISprite.update(now, screen, obstacles)`: re-decide if the delay has passed, then run the
     * shared update, and re-decide at once if it collided.
     */
    method Update(now: int, screen: Rect, obstacles: seq<Rect>, fuel: nat, onTimeout: Decision, onCollision: Decision)
      requires Valid() && Allowed(onTimeout) && Allowed(onCollision)
      modifies this, sprite
      ensures Valid()
      ensures var timedOut := now - old(waitTime) > old(waitDelay);
              var decided := if timedOut then Sprites.ChangeDirection(old(sprite.State()), onTimeout.direction)
                             else old(sprite.State());
              var moved := Sprites.Update(decided, now, screen, obstacles, fuel);
              && sprite.State() == (if moved.1 then Sprites.ChangeDirection(moved.0, onCollision.direction)
                                    else moved.0)
              && waitDelay == (if moved.1 then onCollision.delay
                               else if timedOut then onTimeout.delay else old(waitDelay))
              && waitTime == (if moved.1 || timedOut then now else old(waitTime))
    {
      if now - waitTime > waitDelay {
        ChangeDirection(now, onTimeout);
      }
      var collided := sprite.Update(now, screen, obstacles, fuel);
      if collided {
        ChangeDirection(now, onCollision);
      }
    }
  }
}
