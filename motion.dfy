/** The arithmetic of one animation tick of `BloopModel`: the collision
    predicates, the bounce, the move and the snap back onto the screen.
    Everything here is a value; the class in module Animation is proved
    to follow `Step`. */
module Motion {

  /** Columns the smiley moves per tick; construction picks +Speed or -Speed. */
  const Speed := 3

  /** The velocities a model may hold. */
  predicate IsSpeed(v: int) {
    v == Speed || v == -Speed
  }

  /** `left_collision_detected?`, also used under the name `out_of_left_bounds?`. */
  predicate LeftCollision(p: int) {
    p <= 0
  }

  /** `right_collision_detected?`, also used under the name `out_of_right_bounds?`. */
  predicate RightCollision(p: int, w: int) {
    p >= w - 1
  }

  /** `collision_detected?`, also used under the name `out_of_bounds?`: the
      smiley touches or passes either edge of a screen `w` columns wide. */
  predicate Collision(p: int, w: int) {
    LeftCollision(p) || RightCollision(p, w)
  }

  /** Distance between two columns. */
  function Dist(a: int, b: int): nat {
    if a <= b then b - a else a - b
  }

  /** `q` is a column of a screen `w` columns wide that is nearest to `p`. */
  ghost predicate Nearest(q: int, p: int, w: int) {
    0 <= q <= w - 1 && forall c :: 0 <= c <= w - 1 ==> Dist(q, p) <= Dist(c, p)
  }

  /** What `move_smiley` leaves after adding the velocity: a position
      that touches or passes an edge goes to that edge, the left test
      first. On a screen at least one column wide this is the column
      nearest to `p`. */
  function Snap(p: int, w: int): (q: int)
    ensures w >= 1 ==> Nearest(q, p, w)
    ensures 0 < p < w - 1 ==> q == p
  {
    if Collision(p, w) then
      (if LeftCollision(p) then 0 else w - 1)
    else
      p
  }

  /** The three fields of a `BloopModel`. */
  datatype State = State(position: int, velocity: int, width: int)

  /** One `tick` with the terminal `w` columns wide: take the new width,
      reverse if the position before moving touches an edge of the new
      width, move, snap. */
  function Step(s: State, w: int): (t: State)
    ensures t.width == w
    ensures Dist(t.velocity, 0) == Dist(s.velocity, 0)
    ensures s.velocity != 0 ==> (t.velocity != s.velocity <==> Collision(s.position, w))
    ensures IsSpeed(s.velocity) ==> IsSpeed(t.velocity)
    ensures w >= 1 ==> 0 <= t.position <= w - 1
    ensures w >= 1 ==> Nearest(t.position, s.position + t.velocity, w)
  {
    var v := if Collision(s.position, w) then -s.velocity else s.velocity;
    State(Snap(s.position + v, w), v, w)
  }

  /** A position strictly inside the screen whose move also lands strictly
      inside moves by exactly the velocity, and the velocity is kept. */
  lemma InteriorMoveIsExact(s: State, w: int)
    requires 0 < s.position < w - 1
    requires 0 < s.position + s.velocity < w - 1
    ensures Step(s, w) == State(s.position + s.velocity, s.velocity, w)
  {
  }

  /** Bouncing off the left edge of an 80-column terminal. */
  lemma LeftEdgeBounce()
    ensures Step(State(0, -3, 80), 80) == State(3, 3, 80)
  {
  }

  /** Bouncing off the right edge of an 80-column terminal. */
  lemma RightEdgeBounce()
    ensures Step(State(79, 3, 80), 80) == State(76, -3, 80)
  {
  }

  /** The terminal shrinks from 80 to 40 columns with the smiley at column
      50 heading right: it reverses and is snapped onto the last column. */
  lemma ShrinkSnapsOnScreen()
    ensures Step(State(50, 3, 80), 40) == State(39, -3, 40)
  {
  }

  /** A model created at column 0 heading right: the collision test fires
      before the move, so the first tick reverses it into the left wall
      and it stays at column 0 for one frame. */
  lemma StartAtLeftEdgeHeadingRight()
    ensures Step(State(0, 3, 80), 80) == State(0, -3, 80)
  {
  }

  /** While the width does not change, a tick that leaves the smiley on an
      edge leaves it heading out through that edge, so the next tick
      bounces it off: once on screen, the smiley never stays on an edge
      for two frames. */
  lemma EdgeIsLeftNextTick(s: State, w: int)
    requires w >= 2
    requires IsSpeed(s.velocity)
    requires 0 <= s.position <= w - 1
    ensures var t := Step(s, w);
      (t.position == 0 ==> t.velocity == -Speed) &&
      (t.position == w - 1 ==> t.velocity == Speed) &&
      (Collision(t.position, w) ==> Step(t, w).position != t.position)
  {
  }

  /** The model after one tick per width in `widths`, in order. */
  function Run(s: State, widths: seq<int>): (t: State)
    ensures widths != [] ==> t.width == widths[|widths| - 1]
    ensures Dist(t.velocity, 0) == Dist(s.velocity, 0)
    decreases |widths|
  {
    if widths == [] then s else Run(Step(s, widths[0]), widths[1..])
  }

  /** However the terminal is resized between ticks (never below one
      column), after any non-empty run of ticks the smiley is on the screen
      of the last width read, and its velocity is still +Speed or -Speed. */
  lemma {:induction false} RunStaysOnScreen(s: State, widths: seq<int>)
    requires IsSpeed(s.velocity)
    requires widths != []
    requires forall i :: 0 <= i < |widths| ==> widths[i] >= 1
    ensures var t := Run(s, widths);
      t.width == widths[|widths| - 1] &&
      0 <= t.position <= t.width - 1 &&
      IsSpeed(t.velocity)
    decreases |widths|
  {
    var s' := Step(s, widths[0]);
    if |widths| == 1 {
      assert Run(s', widths[1..]) == s';
    } else {
      RunStaysOnScreen(s', widths[1..]);
    }
  }
}
