/** The frame gate of `Bloop#run!`, as values: when an iteration of the
    render loop ticks, and which clock readings it records. */
module Frames {

  datatype Option<T> = None | Some(value: T)

  /** `@milliseconds_between_frames`. */
  const FrameInterval := 50

  /** `time_to_render?`: at least one frame interval has passed since the
      last recorded render time. */
  predicate Due(previous: int, now: int) {
    now - previous >= FrameInterval
  }

  /** The clock readings of one iteration of the loop. `time_to_render?`
      reads the clock (`checkedAt`). An iteration that renders reads it
      again in `update_render_time` and records that second reading
      (`stampedAt`); one that does not render reads the clock once, and
      its `stampedAt` is ignored. */
  datatype Reading = Reading(checkedAt: int, stampedAt: int)

  /** A clock that does not run backwards within an iteration. */
  ghost predicate InOrder(readings: seq<Reading>) {
    forall i :: 0 <= i < |readings| ==> readings[i].checkedAt <= readings[i].stampedAt
  }

  /** The render times the loop records, in order, when its iterations take
      `readings`, starting with `previous` as the last render time. Each
      recorded time is one tick and one rendered frame. */
  function RenderStamps(previous: int, readings: seq<Reading>): (stamps: seq<int>)
    ensures |stamps| <= |readings|
    ensures forall k :: 0 <= k < |stamps| ==> exists i :: 0 <= i < |readings| && stamps[k] == readings[i].stampedAt
    decreases |readings|
  {
    if readings == [] then []
    else
      var r := readings[0];
      var rest := if Due(previous, r.checkedAt)
                  then [r.stampedAt] + RenderStamps(r.stampedAt, readings[1..])
                  else RenderStamps(previous, readings[1..]);
      assert forall k :: 0 <= k < |rest| ==> exists i :: 0 <= i < |readings| && rest[k] == readings[i].stampedAt by {
        forall k | 0 <= k < |rest|
          ensures exists i :: 0 <= i < |readings| && rest[k] == readings[i].stampedAt
        {
          if Due(previous, r.checkedAt) && k == 0 {
            assert rest[k] == readings[0].stampedAt;
          } else {
            var tail := RenderStamps(if Due(previous, r.checkedAt) then r.stampedAt else previous, readings[1..]);
            var k' := if Due(previous, r.checkedAt) then k - 1 else k;
            assert rest[k] == tail[k'];
            var i :| 0 <= i < |readings[1..]| && tail[k'] == readings[1..][i].stampedAt;
            assert rest[k] == readings[i + 1].stampedAt;
          }
        }
      }
      rest
  }

  /** The last recorded render time: `@previous_render_time` after
      iterations that recorded `stamps`, starting from `previous`. */
  function Last(previous: int, stamps: seq<int>): int {
    if stamps == [] then previous else stamps[|stamps| - 1]
  }

  /** Running one more iteration: it records its second clock reading
      exactly when its first reading is due against the last recorded
      render time, and otherwise records nothing. */
  lemma {:induction false} RenderStampsExtend(previous: int, readings: seq<Reading>, r: Reading)
    ensures var stamps := RenderStamps(previous, readings);
      RenderStamps(previous, readings + [r]) ==
        stamps + (if Due(Last(previous, stamps), r.checkedAt) then [r.stampedAt] else [])
    decreases |readings|
  {
    if readings == [] {
      assert [] + [r] == [r];
      assert [r][1..] == [];
    } else {
      var r0 := readings[0];
      assert (readings + [r])[0] == r0;
      assert (readings + [r])[1..] == readings[1..] + [r];
      var p' := if Due(previous, r0.checkedAt) then r0.stampedAt else previous;
      RenderStampsExtend(p', readings[1..], r);
      var tail := RenderStamps(p', readings[1..]);
      if Due(previous, r0.checkedAt) {
        assert RenderStamps(previous, readings) == [r0.stampedAt] + tail;
        assert Last(previous, [r0.stampedAt] + tail) == Last(p', tail);
        assert RenderStamps(previous, readings + [r]) == [r0.stampedAt] + RenderStamps(p', readings[1..] + [r]);
      } else {
        assert RenderStamps(previous, readings) == tail;
        assert RenderStamps(previous, readings + [r]) == RenderStamps(p', readings[1..] + [r]);
      }
    }
  }

  /** Every recorded time is at least one frame interval after the one
      before it (the first, after `previous`). */
  ghost predicate Spaced(previous: int, stamps: seq<int>) {
    && (|stamps| > 0 ==> stamps[0] - previous >= FrameInterval)
    && forall k :: 0 < k < |stamps| ==> stamps[k] - stamps[k - 1] >= FrameInterval
  }

  /** The loop never ticks twice within one frame interval: consecutive
      render times are at least `FrameInterval` milliseconds apart. */
  lemma {:induction false} RenderStampsSpaced(previous: int, readings: seq<Reading>)
    requires InOrder(readings)
    ensures Spaced(previous, RenderStamps(previous, readings))
    decreases |readings|
  {
    if readings != [] {
      var r := readings[0];
      assert InOrder(readings[1..]) by {
        forall i | 0 <= i < |readings[1..]|
          ensures readings[1..][i].checkedAt <= readings[1..][i].stampedAt
        {
          assert readings[1..][i] == readings[i + 1];
        }
      }
      if Due(previous, r.checkedAt) {
        RenderStampsSpaced(r.stampedAt, readings[1..]);
        assert r.checkedAt <= r.stampedAt;
        SpacedCons(previous, r.stampedAt, RenderStamps(r.stampedAt, readings[1..]));
      } else {
        RenderStampsSpaced(previous, readings[1..]);
      }
    }
  }

  /** Putting a time one frame interval after `previous` in front of times
      spaced after it keeps the whole sequence spaced. */
  lemma SpacedCons(previous: int, first: int, rest: seq<int>)
    requires first - previous >= FrameInterval
    requires Spaced(first, rest)
    ensures Spaced(previous, [first] + rest)
  {
  }

  /** Any two recorded render times are at least one frame interval apart
      per frame between them. */
  lemma {:induction false} SpacedApart(previous: int, stamps: seq<int>, i: nat, j: nat)
    requires Spaced(previous, stamps)
    requires i <= j < |stamps|
    ensures stamps[j] - stamps[i] >= (j - i) * FrameInterval
    decreases j - i
  {
    if i < j {
      SpacedApart(previous, stamps, i, j - 1);
      assert stamps[j] - stamps[j - 1] >= FrameInterval;
    }
  }

  /** Two iterations whose second clock check comes less than one frame
      interval after the first's recorded time tick once, not twice. */
  lemma QuickSecondIterationSkipped(previous: int, first: Reading, second: Reading)
    requires Due(previous, first.checkedAt)
    requires second.checkedAt - first.stampedAt < FrameInterval
    ensures RenderStamps(previous, [first, second]) == [first.stampedAt]
  {
  }
}
