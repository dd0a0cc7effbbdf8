# Actors of spawn-collide-wrap, modelled in Dafny

This project models the per-frame logic of the sprites in `actors.py`. That logic covers three kinds of sprite: the shared `RPGSprite`, the keyboard-driven `Player` and the timer-driven `AISprite`. A sprite keeps a stack of held directions, and the most recently held one is the current direction. Each direction has its own endless two-pose walk cycle, and the pose advances on a turn, on a pending redraw, or once more than 100 ms have passed. Movement is done one axis at a time: shift the visual rect, anchor the 20×20 hit box to its midbottom, then push the hit box out of overlapping obstacles in a loop. Afterwards the sprite wraps around the screen edges with a 10-unit margin.

Modules, one per component:

- `Options` (options.dfy): `Option`, for Python's `None`.
- `Geometry` (geometry.dfy): integer pygame rects, the overlap test, `adjust_on_collision`, the first overlapping obstacle, the correction loop as the specification function `Settle`, and the screen wrap.
- `Directions` (directions.dfy): the four directions, their unit vectors, and the stack operations `Pushed`/`Popped` built on Python's `list.remove`.
- `Animation` (animation.dfy): images, the round-robin `Cycle` that stands for `itertools.cycle`, and `make_frame_dict`, whose method `MakeFrameDict` keeps the source's `for` loop.
- `Sprites` (sprites.dfy): all fields of a sprite as one value `SpriteState`, the invariant `Inv`, and one function per operation, with the lemmas about them.
- `Actors` (actors.dfy): the classes `RPGSprite`, `Player` and `AISprite`. Their fields are updated in place. Each method's postcondition equates the new `State()` with the matching `Sprites` function applied to the old state. `Movement` keeps the source's `while` loop.

Integers replace floats for time, speed and positions. `1000/animate_fps` is the constant 100.

## Model

| member | source | states |
|---|---|---|
| `Geometry.Rect.WithCoord` | actors.py:112 | `rect[i] = v` sets coordinate i and leaves the other coordinate and the size alone |
| `Geometry.Rect.WithMidBottom` | actors.py:29 | setting `midbottom` keeps the size, and reading `midbottom` back gives the point that was set |
| `Geometry.Rect.WithRight` | actors.py:99 | `rect.right = v` puts the right edge at v and keeps the vertical position and the size |
| `Geometry.Rect.WithBottom` | actors.py:103 | `rect.bottom = v` puts the bottom edge at v and keeps the horizontal position and the size |
| `Geometry.CenteredAt` | actors.py:27 | `get_rect(center=pos)` gives a rect of the frame size whose integer centre is `pos` |
| `Geometry.FirstHit` | actors.py:114-115 | the reported obstacle overlaps the hit box; nothing is reported exactly when no obstacle overlaps |
| `Geometry.FirstHitIsFirst` | actors.py:114-115 | no obstacle before the reported one overlaps (first match wins) |
| `Geometry.AdjustOnCollision` | actors.py:124-129 | afterwards the box no longer overlaps the obstacle on axis i and lies flush against it; strictly smaller coordinate → put before it, otherwise → put past it; only coordinate i changes, sizes do not |
| `Geometry.TieBreakPushesPast` | actors.py:126-129 | equal coordinates take the "push past" branch: the box moves forward, not back |
| `Geometry.Settle` | actors.py:116-121 | the correction loop makes at most `fuel` corrections |
| `Geometry.SettleFacts` | actors.py:116-121 | only coordinate i moves; the loop runs exactly when the box starts out overlapping and there is fuel; stopping early means no obstacle overlaps; after a correction the box is flush against an obstacle |
| `Geometry.SettleStep` | actors.py:117-121 | one turn of the loop: correct against the first obstacle hit, then go on with one unit of fuel less |
| `Geometry.SettleStop` | actors.py:116 | the loop ends at once when nothing overlaps |
| `Geometry.SettleSingleObstacle` | actors.py:116-121 | against a single obstacle one correction suffices, and the box ends clear of it |
| `Geometry.GapBounce` | actors.py:116-121 | with a 15-wide gap between two obstacles, the 20-wide box is pushed from x=45 to x=50 and back |
| `Geometry.BounceThrashes` | actors.py:116-121 | if correcting a gives b and correcting b gives a, the loop uses up all its fuel |
| `Geometry.GapTooNarrowThrashes` | actors.py:116-121 | the loop does not end in that gap, for any fuel |
| `Geometry.WrapAxisAsWritten` | actors.py:97-105 | one axis of `wrap_around` with the source's `>=`/`<=`: left (top) edge plus margin at or past the far bound → right (bottom) edge at the absolute coordinate `buffer`; otherwise trailing edge less margin at or before the near bound → at the far bound less the margin; otherwise unchanged. At most one assignment fires (`elif`); sizes and the other axis are kept |
| `Geometry.WrapAsWritten` | actors.py:92-105 | what `wrap_around` does to the visual rect: each coordinate is its own axis's wrap, for the horizontal and the vertical tests alike; sizes are kept |
| `Geometry.WrapAsWrittenPingPong` | actors.py:98-101 | as written, a wrapped sprite that does not move is wrapped back on the next call (see Findings) |
| `Geometry.WrapAxis` | actors.py:97-105 | corrected one-axis wrap (see Findings), strict tests: past the far bound → trailing edge at the margin; else past the near bound → at the far bound less the margin; else unchanged; at most one assignment fires |
| `Geometry.Wrap` | actors.py:98-105 | corrected wrap: horizontal then vertical, each coordinate its own axis's `WrapAxis`, sizes kept |
| `Geometry.WrapAxesIndependent` | actors.py:98-105 | in the corrected wrap the horizontal outcome ignores the vertical position, and the vertical outcome ignores the horizontal one |
| `Geometry.WrapIdempotent` | actors.py:92-106 | corrected half of the finding: with the screen at the origin, wrapping an already wrapped rect changes nothing |
| `Directions.Row` | actors.py:41-42 | each direction has its own sheet row in the direction order |
| `Directions.Vector` | actors.py:111 | each direction's vector has exactly one non-zero component, of magnitude 1 |
| `Directions.OneAxisPerDirection` | actors.py:111-112 | a direction moves along exactly one axis, by one unit |
| `Directions.RemoveFirst` | actors.py:67 | `list.remove` takes exactly one occurrence of d out: one element shorter, and the multiset loses exactly one d |
| `Directions.Without` | actors.py:67 | reference definition: every element except d, in order |
| `Directions.WithoutKeepsNoDups` | actors.py:66-68 | removing from a duplicate-free list keeps it duplicate-free |
| `Directions.WithoutAbsent` | actors.py:76 | removing an absent direction changes nothing |
| `Directions.RemoveFirstIsWithout` | actors.py:66-67 | on a duplicate-free stack, removing the first occurrence removes every occurrence |
| `Directions.Pushed` | actors.py:61-69 | after holding d, the stack is duplicate-free, its last element is d, and the others are kept in order before it |
| `Directions.Popped` | actors.py:71-77 | after releasing d, d is absent, the others are kept in order, and releasing an absent d leaves the stack unchanged |
| `Directions.PopUndoesPush` | actors.py:61-79 | releasing the direction just held gives back the stack without it |
| `Directions.WithoutConcat` | actors.py:67 | removal distributes over concatenation |
| `Animation.Cycle.Current` | actors.py:56 | the pose `next(self.walkframes)` yields is one of the cycle's poses |
| `Animation.Cycle.Next` | actors.py:42 | one draw keeps the poses and moves to the next one, wrapping at the end |
| `Animation.Draws` | actors.py:56 | n draws yield n poses |
| `Animation.WalkCycle` | actors.py:42 | a fresh walk cycle has two poses and starts at the first |
| `Animation.WalkCycleAlternates` | actors.py:42 | the j-th draw is column 0 or column 2 by parity, counted from the cycle's current phase |
| `Animation.WalkCyclePeriod` | actors.py:42 | two draws bring a walk cycle back to where it was |
| `Animation.FrameDict` | actors.py:38-43 | the table `make_frame_dict` builds: every direction maps to the walk cycle of its own sheet row, and every cycle is well formed |
| `Animation.MakeFrameDict` | actors.py:38-43 | the `for` loop over the directions builds exactly `FrameDict`: every direction gets a cycle over columns 0 and 2 of its own row, starting at column 0 |
| `Sprites.Initial` | actors.py:14-30 | the state `__init__` leaves: keeps `Inv`; nothing held; facing `facing`, whose cycle has been selected and has drawn its column-0 pose; the other cycles are fresh; timer 0; `dirty == 1`; rect centred on `pos`; 20×20 hit box anchored at its midbottom |
| `Sprites.AddDirection` | actors.py:61-69 | keeps `Inv`; the stack becomes the other directions in order followed by d; `direction == d`; nothing else changes |
| `Sprites.PopDirection` | actors.py:71-79 | keeps `Inv`; d is gone and the others keep their order; the direction becomes the new top, or stays the same if the stack is empty; releasing an absent d changes nothing |
| `Sprites.MakeImage` | actors.py:53-59 | when `redraw` is set or more than 100 ms have passed (strict): draw the active cycle's pose, advance only that cycle, `animate_timer := now`, `dirty := 1`; otherwise nothing changes; `redraw` is false afterwards; stack, direction, rects and speed are never touched |
| `Sprites.AdjustImages` | actors.py:45-59 | the active cycle becomes the cycle of the current direction; the pose advances exactly when the direction changed, a redraw was pending, or the interval passed; other directions' cycles are untouched; `redraw` ends false |
| `Sprites.TurnAwayAndBack` | actors.py:45-51 | after turning away and back, the pose shown is the one the cycle would have yielded next: its phase was kept |
| `Sprites.NoAdvanceWithinInterval` | actors.py:55 | with no turn and no pending redraw, calls within 100 ms of the timer do not change the pose, the cycles or the timer |
| `Sprites.AdjustSeveral` | actors.py:45-51 | repeated `adjust_images` keeps `Inv` |
| `Sprites.Shifted` | actors.py:112 | coordinate i moves by `speed*vector[i]`, the other coordinate is kept |
| `Sprites.ShiftedHit` | actors.py:113 | the hit box is re-anchored to the shifted rect's midbottom |
| `Sprites.Movement` | actors.py:108-122 | keeps `Inv`, so `hit_rect.midbottom == rect.midbottom` on exit; only the two rects change; the visual rect keeps its size and its other coordinate |
| `Sprites.MovementFacts` | actors.py:108-122 | the result is true exactly when a correction ran; with no correction the rect moved exactly `speed*vector[i]`; a loop that stopped before its fuel ran out leaves the hit box overlapping no obstacle; after a correction the box is flush against an obstacle |
| `Sprites.MovementFromSettled` | actors.py:116-122 | the state movement produces, given how the correction loop ended |
| `Sprites.FreeMove` | actors.py:108-122 | with no obstacles the sprite moves by exactly `speed*vector[i]` on axis i, not at all on the other, and reports no collision |
| `Sprites.MoveClearsSingleObstacle` | actors.py:108-122 | against one obstacle the move ends clear of it, and reports a collision exactly when the shifted hit box overlapped it |
| `Sprites.PushingAgainstObstacle` | actors.py:108-122 | a sprite walking right whose hit box rests against an obstacle's left side stays where it is and reports a collision every frame |
| `Sprites.WrapAround` | actors.py:92-106 | the visual rect is wrapped as written (`WrapAsWritten`), and the hit box is re-anchored to it whether or not a wrap happened, so `Inv` holds; nothing else changes |
| `Sprites.WrapAroundFlickers` | actors.py:92-106 | a sprite at x=630 on a 640-wide screen is wrapped to x=-22, and the next wrap with no move in between gives back exactly the original sprite |
| `Sprites.Update` | actors.py:81-90 | keeps `Inv`; the animation is that of `adjust_images` (pose, cycles, timer); an idle sprite ends in exactly the animated state and reports no collision; a walking one ends with `dirty == 1`; the stack, direction and speed are untouched |
| `Sprites.FreeUpdate` | actors.py:81-90 | with no obstacles, a walking sprite moves by exactly `speed*vector` on both axes and is then wrapped as written, and it reports no collision |
| `Sprites.WalkingUpdate` | actors.py:81-90 | a walking sprite is animated, moved along x, then along y from where x left it, then wrapped; the result is the x result or the y result, true exactly when a shifted hit box met an obstacle and the loop had fuel |
| `Sprites.IdleStaysPut` | actors.py:85-90 | with an empty stack, `rect` and `hit_rect` do not change and the result is false |
| `Sprites.HandleEvent` | actors.py:141-156 | mapped key down → exactly `add_direction` of that direction (on top and current); mapped key up → exactly `pop_direction` of it (gone); unmapped keys and other events change nothing; no other direction's membership changes |
| `Sprites.ChangeDirection` | actors.py:184-187 | the stack ends empty, or holding exactly the chosen direction; the direction is the chosen one, or unchanged when idle |
| `Actors.RPGSprite.constructor` | actors.py:14-30 | the new sprite's state is `Sprites.Initial` of its arguments, built by `make_frame_dict` and a first `adjust_images(0)` |
| `Actors.RPGSprite.MakeImage` | actors.py:53-59 | new state is `Sprites.MakeImage` of the old one |
| `Actors.RPGSprite.AdjustImages` | actors.py:45-51 | new state is `Sprites.AdjustImages` of the old one |
| `Actors.RPGSprite.AddDirection` | actors.py:61-69 | new state is `Sprites.AddDirection` of the old one |
| `Actors.RPGSprite.PopDirection` | actors.py:71-79 | new state is `Sprites.PopDirection` of the old one |
| `Actors.RPGSprite.WrapAround` | actors.py:92-106 | the source's `if`/`elif` tests on the fields, proved to give the new state `Sprites.WrapAround` of the old one |
| `Actors.RPGSprite.Movement` | actors.py:108-122 | the `while` loop's result and new state are `Sprites.Movement` of the old state; the invariants tie the loop to `Settle` |
| `Actors.RPGSprite.Update` | actors.py:81-90 | result and new state are `Sprites.Update` of the old state |
| `Actors.Player.constructor` | actors.py:138-139 | a fresh sprite whose state is `Sprites.Initial` of the arguments, together with the key table |
| `Actors.Player.GetEvent` | actors.py:141-146 | new sprite state is `Sprites.HandleEvent` of the old one |
| `Actors.Player.AddDirection` | actors.py:148-151 | a key in `CONTROLS` holds its direction; any other key leaves the sprite unchanged |
| `Actors.Player.PopDirection` | actors.py:153-156 | a key in `CONTROLS` releases its direction; any other key leaves the sprite unchanged |
| `Actors.AISprite.constructor` | actors.py:161-166 | the sprite's state is `Sprites.ChangeDirection` of `Sprites.Initial`, so the facing is kept when the decision is idle; `wait_time == 0` and the delay is the decision's |
| `Actors.AISprite.ChangeDirection` | actors.py:179-189 | stack as `Sprites.ChangeDirection`; `wait_delay` is the given delay in [500, 2000]; `wait_time == now` |
| `Actors.AISprite.Update` | actors.py:168-177 | re-decides when `now - wait_time > wait_delay` before moving; runs the shared update; re-decides again at once on a collision; keeps at most one held direction and the delay in range |

## Left out

- Rendering is not modelled: `draw`, image surfaces and `get_rect` beyond its centring arithmetic. `dirty` is kept only as a flag. An `Image` is an opaque handle.
- Sheet loading is not modelled: `get_frames`, `prepare.GFX`, `tools.split_sheet` and the sprite's `name`. The constructors take the 4×3 grid of frames as a parameter instead.
- prepare.py is not part of this model. `DIRECTIONS` is taken to be `(UP, RIGHT, DOWN, LEFT)`; this order is the sheet row order. `DIRECT_DICT` is taken to be the usual screen unit vectors. `CONTROLS` is a parameter of `Player`.
- `pg.sprite.spritecollideany` and `tools.collide_other` are not part of this model. They are replaced by `FirstHit`: the first rect in the obstacle sequence whose interior overlaps the hit box, using the open-interval test. pygame's special case for zero-sized rects is not modelled.
- Randomness is not modelled. `random.choice` and `random.randint` become `Decision` parameters, and their delays must lie in [500, 2000]. The first `randint` in `AISprite.__init__` is overwritten by `change_direction()` before anyone can see it, so the constructor takes one decision.
- `Sprites.Movement`, `Actors.RPGSprite.Movement`: the `while collision` loop need not end (see `GapTooNarrowThrashes`). It is bounded by a `fuel` parameter that `update` passes on. "No obstacle overlaps on exit" is proved only when the loop stopped before the fuel ran out, and termination in general is not claimed.
- `Actors.RPGSprite.Movement` corrects local copies of `rect` and `hit_rect` in its loop and stores them once the loop ends. Nothing reads the fields in between, so the outcome is the same state.
- Float time, speed and positions are not modelled; they are integers, since pygame truncates rect coordinates anyway. `animate_fps` is fixed at 10.
- Inheritance is modelled by composition, because traits are not available. `Player` and `AISprite` each own an `RPGSprite` (`sprite`). `Player` uses the inherited `update` through `sprite.Update`. `AISprite.update` returns nothing in the source, and its model returns nothing as well.
- The `Obstacle` class is modelled only by its rect. Sprite groups (`*groups`) are not modelled.
- Before the first `adjust_images` of the constructor, the source has `walkframes` and `image` set to nothing. The model puts placeholders there, and `adjust_images` overwrites them at once.
- Three features of `wrap_around` are modelled as the code has them. The tests look at the visual rect, not the hit box. The far-side test compares the rect's left (top) edge plus the margin with the right (bottom) bound. The wrapped rect's right (bottom) edge goes to the absolute coordinate `buffer`, whatever the screen's own position.
- The default arguments `facing="DOWN"` and `name="warrior_m"` (actors.py:14, 138) are not modelled: `facing` is a required parameter, and the name only selects the sheet, which the frames parameter replaces.

## Findings

| source | as written | input that shows it | evidently intended | confidence | as-written member | corrected member |
|---|---|---|---|---|---|---|
| actors.py:98-105 | The wrap tests are non-strict (`>=`, `<=`). The place each branch moves the rect to satisfies the opposite branch's test. | A 32×36 rect at x=630 on the screen `Rect(0,0,640,480)` wraps to x=-22. A second wrap, with no horizontal move in between (for example the sprite now walks up), sends it back to x=630. It then flips sides every frame. | Strict tests (`>`, `<`). The margin then keeps a wrapped sprite where it is until it moves on, and the wrap is idempotent. | medium; not executed | `Geometry.WrapAsWrittenPingPong` | `Geometry.WrapIdempotent` |

The sprites wrap as the code is written: `Sprites.WrapAround` and `Actors.RPGSprite.WrapAround` are built on `Geometry.WrapAsWritten`, and `Sprites.WrapAroundFlickers` shows the flicker on a whole sprite. The corrected wrap `Geometry.Wrap` stands beside it with its property `Geometry.WrapIdempotent`.
