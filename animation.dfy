/** The two classes of the program: `BloopModel`, whose `tick` updates the
    smiley's position, velocity and the terminal width in place, and
    `Bloop`, which owns a model and runs one iteration of the render loop
    at a time. The terminal width and the clock are passed in as
    parameters, and so are the values the source draws at random. */
module Animation {
  import opened Motion
  import opened Frames

  /** `SMILEY`, U+263A WHITE SMILING FACE. */
  const Smiley: char := '\U{263A}'

  /** `" " * n`. */
  function Spaces(n: nat): (s: string)
    ensures |s| == n
    ensures forall i :: 0 <= i < n ==> s[i] == ' '
  {
    seq(n, _ => ' ')
  }

  class BloopModel {
    var smileyPosition: int
    var velocity: int
    var width: int

    /** Position never negative, velocity +Speed or -Speed, a terminal at
        least one column wide. Before the first tick the position can be
        any number of columns past the last one, since it is drawn against
        a second reading of the terminal width; every tick reads the width
        and snaps the position into it in the same call. */
    ghost predicate Valid()
      reads this
    {
      IsSpeed(velocity) && 0 <= smileyPosition && 1 <= width
    }

    /** The model's fields as a value. */
    function Snapshot(): State
      reads this
    {
      State(smileyPosition, velocity, width)
    }

    /** `initialize`: the width is read from the terminal (`w`), then the
        position is drawn from `0..drawWidth`, where `drawWidth` is a second
        read of the terminal width, then the velocity from {-3, 3}. */
    constructor (w: int, drawWidth: int, position: int, initialVelocity: int)
      requires w >= 1
      requires 0 <= position <= drawWidth
      requires IsSpeed(initialVelocity)
      ensures Valid()
      ensures Snapshot() == State(position, initialVelocity, w)
    {
      width := w;
      smileyPosition := position;
      velocity := initialVelocity;
    }

    /** `tick`: read the width, reverse on a collision before moving, move. */
    method Tick(w: int)
      requires Valid()
      requires w >= 1
      modifies this
      ensures Valid()
      ensures Snapshot() == Step(old(Snapshot()), w)
      ensures width == w && smileyPosition <= width - 1
      ensures velocity == -old(velocity) <==> Collision(old(smileyPosition), w)
    {
      SetCurrentWidth(w);
      if CollisionDetected() {
        ReverseDirection();
      }
      MoveSmiley();
    }

    /** `width_left_of_smiley`: the number of blank columns before the smiley. */
    function WidthLeftOfSmiley(): (n: nat)
      reads this
      requires Valid()
    {
      smileyPosition
    }

    /** `move_smiley`: add the velocity, then snap back if the new position
        touches or passes an edge (`out_of_bounds?`). */
    method MoveSmiley()
      modifies this`smileyPosition
      ensures smileyPosition == Snap(old(smileyPosition) + velocity, width)
    {
      smileyPosition := smileyPosition + velocity;
      if CollisionDetected() {
        SnapSmileyBackIntoBounds();
      }
    }

    /** `snap_smiley_back_into_bounds`: to the left edge if out of left
        bounds, else to the right edge if out of right bounds. */
    method SnapSmileyBackIntoBounds()
      modifies this`smileyPosition
      ensures old(smileyPosition) <= 0 ==> smileyPosition == 0
      ensures 0 < old(smileyPosition) && old(smileyPosition) >= width - 1 ==> smileyPosition == width - 1
      ensures !Collision(old(smileyPosition), width) ==> smileyPosition == old(smileyPosition)
    {
      if LeftCollisionDetected() {
        SnapSmileyToLeft();
      } else if RightCollisionDetected() {
        SnapSmileyToRight();
      }
    }

    /** `snap_smiley_to_left`. */
    method SnapSmileyToLeft()
      modifies this`smileyPosition
      ensures smileyPosition == 0
    {
      smileyPosition := 0;
    }

    /** `snap_smiley_to_right`. */
    method SnapSmileyToRight()
      modifies this`smileyPosition
      ensures smileyPosition == width - 1
    {
      smileyPosition := width - 1;
    }

    /** `reverse_direction`. */
    method ReverseDirection()
      modifies this`velocity
      ensures velocity == -old(velocity)
    {
      velocity := -velocity;
    }

    /** `set_current_width`, with the terminal's width passed in. */
    method SetCurrentWidth(w: int)
      modifies this`width
      ensures width == w
    {
      width := w;
    }

    /** `collision_detected?` and its alias `out_of_bounds?`. */
    predicate CollisionDetected()
      reads this
      ensures width >= 1 && CollisionDetected() ==>
        Snap(smileyPosition, width) == 0 || Snap(smileyPosition, width) == width - 1
      ensures !CollisionDetected() ==> Snap(smileyPosition, width) == smileyPosition
    {
      Collision(smileyPosition, width)
    }

    /** `left_collision_detected?` and its alias `out_of_left_bounds?`. */
    predicate LeftCollisionDetected()
      reads this
      ensures LeftCollisionDetected() ==> CollisionDetected() && Snap(smileyPosition, width) == 0
    {
      LeftCollision(smileyPosition)
    }

    /** `right_collision_detected?` and its alias `out_of_right_bounds?`. */
    predicate RightCollisionDetected()
      reads this
      ensures RightCollisionDetected() ==> CollisionDetected()
      ensures RightCollisionDetected() && !LeftCollisionDetected() ==> Snap(smileyPosition, width) == width - 1
    {
      RightCollision(smileyPosition, width)
    }
  }

  class Bloop {
    const model: BloopModel
    var previousRenderTime: int

    ghost predicate Valid()
      reads this, model
    {
      model.Valid()
    }

    /** `initialize`: a fresh model, and a last render time of 0 so that
        the first iteration renders. The interval between frames is
        `Frames.FrameInterval`. */
    constructor (w: int, drawWidth: int, position: int, initialVelocity: int)
      requires w >= 1
      requires 0 <= position <= drawWidth
      requires IsSpeed(initialVelocity)
      ensures Valid() && fresh(model)
      ensures previousRenderTime == 0
      ensures model.Snapshot() == State(position, initialVelocity, w)
    {
      model := new BloopModel(w, drawWidth, position, initialVelocity);
      previousRenderTime := 0;
    }

    /** `time_to_render?`, with the clock reading passed in. */
    predicate TimeToRender(now: int)
      reads this
    {
      Due(previousRenderTime, now)
    }

    /** `update_render_time`, with the clock reading passed in. */
    method UpdateRenderTime(now: int)
      modifies this`previousRenderTime
      ensures previousRenderTime == now
    {
      previousRenderTime := now;
    }

    /** `left_of_smiley`. */
    function LeftOfSmiley(): (pad: string)
      reads this, model
      requires Valid()
      ensures |pad| == model.smileyPosition
      ensures forall i :: 0 <= i < |pad| ==> pad[i] == ' '
    {
      Spaces(model.WidthLeftOfSmiley())
    }

    /** `render`: the line written for the current state, which puts the
        smiley in the column the model's position names. */
    method Render() returns (line: string)
      requires Valid()
      ensures |line| == model.smileyPosition + 1
      ensures forall i :: 0 <= i < model.smileyPosition ==> line[i] == ' '
      ensures line[model.smileyPosition] == Smiley
    {
      line := LeftOfSmiley() + [Smiley];
    }

    /** One iteration of the loop in `run!`: if a frame interval has passed
        since the last render (clock read at `now`), record the render time
        (clock read again at `stampedAt`), tick the model with the terminal
        `w` columns wide, and render; otherwise change nothing. */
    method RunOnce(now: int, stampedAt: int, w: int) returns (line: Option<string>)
      requires Valid()
      requires w >= 1
      modifies this, model
      ensures Valid()
      ensures line.Some? <==> Due(old(previousRenderTime), now)
      ensures line.Some? ==>
        previousRenderTime == stampedAt &&
        model.Snapshot() == Step(old(model.Snapshot()), w) &&
        |line.value| == model.smileyPosition + 1 <= w &&
        line.value == Spaces(model.smileyPosition) + [Smiley]
      ensures line.None? ==>
        previousRenderTime == old(previousRenderTime) &&
        model.Snapshot() == old(model.Snapshot())
    {
      if TimeToRender(now) {
        UpdateRenderTime(stampedAt);
        model.Tick(w);
        var text := Render();
        line := Some(text);
      } else {
        line := None;
      }
    }
  }
}
