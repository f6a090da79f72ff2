# bloop: a bouncing smiley, modelled in Dafny

bloop animates a smiley (U+263A, the constant `Animation.Smiley`) that
moves three columns per tick and bounces off both sides of the terminal.
The screen is cleared once, before the loop. After that every frame is
printed as a new line, so the smiley traces a zigzag down a scrolling
terminal.

`BloopModel` holds three integers: the smiley's column, its velocity
(+3 or -3) and the terminal width. Each `tick` does three things in order:

1. It reads the terminal width again.
2. It reverses the velocity if the position *before* the move touches
   either edge (`<= 0` or `>= width - 1`).
3. It adds the velocity and snaps a result that touches or passes an
   edge back onto that edge. The snap tests reuse the same predicates,
   under other names.

`Bloop` owns the model. It runs an endless loop that ticks and prints a
line only when at least 50 ms have passed since the last recorded render
time. Each printed line is the position's number of spaces followed by
the smiley.

The project has three modules:

- `Motion` (motion.dfy) is the tick arithmetic on values. `Step` is one
  tick, `Snap` is the snap back, and `Run` is a sequence of ticks under
  changing widths. Lemmas about them give the examples and the
  invariants.
- `Frames` (frames.dfy) is the frame gate on values. `Due` is the 50 ms
  test. `RenderStamps` lists the render times a sequence of loop
  iterations records. Lemmas show that one more iteration records its
  time exactly when it is due, and that the recorded times are spaced.
- `Animation` (animation.dfy) holds the two classes as the source has
  them. `BloopModel` has mutable fields and one method per step of
  `tick`. `BloopModel.Tick` is proved to leave the fields equal to
  `Motion.Step` of their old values. `Bloop.RunOnce` is one iteration of
  the render loop. The module also holds the smiley glyph and the padding
  that build the printed line.

The terminal width, the clock and the values the source draws at random
are parameters.

A terminal shrink cannot leave the smiley off screen. After the move, the
snap tests the moved position against the new width with the same
predicates (bloop.rb:79-92, 109-119). So for every width of at least one
column, the position ends in `0..width-1` after every tick, whatever the
position was before. `Motion.Step` and `Motion.RunStaysOnScreen` prove
this.

## Model

| member | source | states |
|---|---|---|
| `Motion.LeftCollision` | bloop.rb:111-114 | `left_collision_detected?` and its alias `out_of_left_bounds?`: the position is at or left of column 0 |
| `Motion.RightCollision` | bloop.rb:116-119 | `right_collision_detected?` and its alias `out_of_right_bounds?`: the position is at or right of the last column, width − 1 |
| `Motion.Collision` | bloop.rb:106-109 | `collision_detected?` and its alias `out_of_bounds?`: the position touches or passes either edge, `LeftCollision(p) || RightCollision(p, w)` |
| `Motion.Snap` | bloop.rb:79-100 | On a screen at least one column wide, the snapped position is a column of the screen, and no column is nearer to the moved position; a moved position strictly inside is kept unchanged |
| `Motion.Step` | bloop.rb:66-70 | After a tick the width is the width read for it. The speed is unchanged. A nonzero velocity changes exactly when the position before the move collides under the new width. A velocity of ±3 stays ±3. For width ≥ 1 the new position lies in `0..w-1` and is the column nearest to old position + new velocity |
| `Motion.InteriorMoveIsExact` | bloop.rb:79-84 | If the position and the moved position are both strictly inside the screen, the tick moves by exactly the velocity and keeps the velocity |
| `Motion.LeftEdgeBounce` | bloop.rb:66-70 | Position 0, velocity -3, width 80 ticks to position 3, velocity +3 |
| `Motion.RightEdgeBounce` | bloop.rb:66-70 | Position 79, velocity +3, width 80 ticks to position 76, velocity -3 |
| `Motion.ShrinkSnapsOnScreen` | bloop.rb:79-100 | Position 50 heading right, when the terminal shrinks from 80 to 40 columns, ends at column 39 heading left |
| `Motion.StartAtLeftEdgeHeadingRight` | bloop.rb:60-70 | A model created at column 0 with velocity +3 stays at column 0 on its first tick, and its velocity becomes -3 |
| `Motion.EdgeIsLeftNextTick` | bloop.rb:106-118 | At a fixed width ≥ 2, starting on screen, a tick that ends on an edge leaves the velocity pointing out through that edge, and the next tick moves the smiley off that edge |
| `Motion.Run` | bloop.rb:17-23 | The model after one `tick` per width in a sequence. A non-empty run ends holding the last width read, and the speed never changes |
| `Motion.RunStaysOnScreen` | bloop.rb:66-70 | After any non-empty run of ticks under arbitrary widths ≥ 1, the model holds the last width read and a position inside it, and its velocity is still ±3 |
| `Frames.Due` | bloop.rb:30-33 | `time_to_render?`: the clock reading minus the last recorded render time is at least 50 ms |
| `Frames.RenderStamps` | bloop.rb:17-23 | A sequence of loop iterations records no more render times than it has iterations, and each recorded time is one of the iterations' second clock readings |
| `Frames.RenderStampsExtend` | bloop.rb:17-23 | One more iteration appends its second clock reading to the recorded times exactly when its first reading is due against the last recorded time (the initial time if none), and appends nothing otherwise |
| `Frames.RenderStampsSpaced` | bloop.rb:30-37 | If the clock does not run backwards within an iteration, each recorded render time is at least 50 ms after the one before it, and the first is at least 50 ms after the initial time |
| `Frames.SpacedApart` | bloop.rb:30-37 | Two recorded render times j - i frames apart are at least (j - i) × 50 ms apart |
| `Frames.QuickSecondIterationSkipped` | bloop.rb:17-23 | An iteration whose clock check is under 50 ms after the previous render time does not render, so two such iterations tick once |
| `Animation.Spaces` | bloop.rb:43-45 | `" " * n` has exactly n characters, all spaces |
| `Animation.BloopModel.constructor` | bloop.rb:60-64 | The width is the one read, the velocity is the drawn ±3, and the position is the drawn one. The position is drawn against a second read of the terminal width, so it can be any number of columns past the last one until the first tick |
| `Animation.BloopModel.Tick` | bloop.rb:66-70 | The fields equal `Motion.Step` of their old values. The width is the one passed in, and the position lies in `0..width-1`. The velocity is negated exactly when the old position collides under the new width. The invariant holds: velocity ±3, position ≥ 0, width ≥ 1 |
| `Animation.BloopModel.WidthLeftOfSmiley` | bloop.rb:72-74 | `width_left_of_smiley`: the smiley's position, read by `LeftOfSmiley` and `Render` |
| `Animation.BloopModel.CollisionDetected` | bloop.rb:106-109 | On a screen at least one column wide, a colliding position is one the snap moves onto an edge, column 0 or width − 1. A position that does not collide is one the snap keeps, which is why `move_smiley` snaps only under `out_of_bounds?` |
| `Animation.BloopModel.LeftCollisionDetected` | bloop.rb:111-114 | A left collision is a collision, and the snap sends its position to column 0 |
| `Animation.BloopModel.RightCollisionDetected` | bloop.rb:116-119 | A right collision is a collision. If the position does not also collide on the left, the snap sends it to column width − 1 |
| `Animation.BloopModel.MoveSmiley` | bloop.rb:79-84 | The position becomes the old position plus the velocity, snapped back onto the screen |
| `Animation.BloopModel.SnapSmileyBackIntoBounds` | bloop.rb:86-92 | A position ≤ 0 goes to 0. Otherwise a position ≥ width-1 goes to width-1. Any other position is kept |
| `Animation.BloopModel.SnapSmileyToLeft` | bloop.rb:94-96 | The position becomes 0 |
| `Animation.BloopModel.SnapSmileyToRight` | bloop.rb:98-100 | The position becomes width - 1 |
| `Animation.BloopModel.ReverseDirection` | bloop.rb:102-104 | The velocity is negated and nothing else changes |
| `Animation.BloopModel.SetCurrentWidth` | bloop.rb:121-123 | The width becomes the terminal width passed in and nothing else changes |
| `Animation.Bloop.constructor` | bloop.rb:8-12 | The loop owns a fresh, valid model and starts with a last render time of 0 |
| `Animation.Bloop.TimeToRender` | bloop.rb:30-33 | `time_to_render?` on the recorded render time: `Frames.Due(previousRenderTime, now)` |
| `Animation.Bloop.UpdateRenderTime` | bloop.rb:35-37 | The recorded render time becomes the clock reading passed in |
| `Animation.Bloop.LeftOfSmiley` | bloop.rb:43-45 | The padding has as many characters as the smiley's position, all spaces |
| `Animation.Bloop.Render` | bloop.rb:39-45 | The line is the position's number of spaces followed by the smiley, so its length is position + 1 and the smiley sits in the position's column |
| `Animation.Bloop.RunOnce` | bloop.rb:17-23 | It renders exactly when now − last render time ≥ 50. When it does, it records the second clock reading, ticks the model as `Motion.Step`, and returns the rendered line, which fits in the new width. Otherwise neither the render time nor the model changes |

## Left out

- The terminal width query (`TermInfo.screen_size`, bloop.rb:133-135) is a foreign call. The width is a parameter of the constructors and of `Tick` and `RunOnce`.
- The clock (`Time.now`, bloop.rb:47-49) is floating-point wall-clock time truncated to milliseconds. Each reading is an integer parameter. An iteration that renders reads the clock twice, once to test and once to record, and the model keeps those as two parameters. An iteration that does not render reads the clock once, and the model ignores its second parameter.
- The random start (`rand`, `Array#sample`, bloop.rb:125-131) is not modelled. The drawn position and velocity are constructor parameters. Preconditions restrict them to the ranges the source draws from.
- Widths below one column are excluded by the preconditions of the constructors, `Tick` and `RunOnce`. The pure `Motion.Step` accepts any width but promises bounds only for widths ≥ 1. At width 0 the right snap would put the smiley at column -1. The next `render` would then evaluate `" " * -1` (bloop.rb:44), and Ruby raises `ArgumentError` there. So the exclusion also leaves out that crash of the program.
- Output is not modelled: `puts`, the newline it appends, and the ANSI clear-screen sequence (bloop.rb:40, 51-53). `Render` returns the text of the line without the newline.
- The endless `loop do` in `run!` (bloop.rb:14-24) does not terminate. `RunOnce` models one iteration. `Frames.RenderStamps` models a finite sequence of iterations, as far as the render times they record.
- `@milliseconds_between_frames` (bloop.rb:11) is never changed after construction. It is the module constant `Frames.FrameInterval` rather than a field.
- The `OpenStruct` entry point (bloop.rb:138-141) only constructs and runs a `Bloop`.
