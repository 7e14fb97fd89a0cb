/**
 * The frame throttle of the view controller: a frame is forwarded only when
 * strictly more than half a second has passed since the last forwarded frame.
 * Time is an integer number of milliseconds; `None` stands for the
 * "distant past" the controller starts from, which every clock reading is
 * more than half a second after.
 */
module Throttle {
  import opened Wrappers

  /** The minimum gap between two forwarded frames, in milliseconds (0.5 s). */
  const IntervalMs: int := 500

  /** Whether a frame arriving at `now` is forwarded, given the time of the last forwarded frame. */
  predicate Accepts(last: Option<int>, now: int)
  {
    last.None? || now - last.value > IntervalMs
  }

  /** The time of the last forwarded frame once the frame at `now` has been offered. */
  function Next(last: Option<int>, now: int): Option<int>
  {
    if Accepts(last, now) then Some(now) else last
  }

  /** The decision for each of a series of frames offered one after another, starting from `last`. */
  function Decisions(last: Option<int>, times: seq<int>): (d: seq<bool>)
    ensures |d| == |times|
    decreases |times|
  {
    if |times| == 0 then []
    else [Accepts(last, times[0])] + Decisions(Next(last, times[0]), times[1..])
  }

  /** The very first frame the controller sees is forwarded, whatever the clock says. */
  lemma FirstFrameAccepted(times: seq<int>)
    requires |times| > 0
    ensures Decisions(None, times)[0]
  {
  }

  /**
   * Starting from a frame forwarded at `l`, while every frame so far was dropped,
   * a frame is forwarded exactly when it is more than 500 ms after `l`.
   */
  lemma {:induction false} FirstAcceptedAfter(l: int, times: seq<int>, j: int)
    requires 0 <= j < |times|
    requires forall k :: 0 <= k < j ==> !Decisions(Some(l), times)[k]
    ensures Decisions(Some(l), times)[j] <==> times[j] - l > IntervalMs
  {
    if j > 0 {
      assert !Decisions(Some(l), times)[0];
      var rest := times[1..];
      forall k | 0 <= k < j - 1 ensures !Decisions(Some(l), rest)[k] {
        assert !Decisions(Some(l), times)[k + 1];
      }
      FirstAcceptedAfter(l, rest, j - 1);
    }
  }

  /**
   * Two frames forwarded one after the other (every frame between them dropped):
   * the later one is forwarded exactly because it is more than 500 ms after the
   * earlier one. In particular consecutive forwarded frames are more than 500 ms apart.
   */
  lemma {:induction false} AcceptedAfter(last: Option<int>, times: seq<int>, i: int, j: int)
    requires 0 <= i < j < |times|
    requires Decisions(last, times)[i]
    requires forall k :: i < k < j ==> !Decisions(last, times)[k]
    ensures Decisions(last, times)[j] <==> times[j] - times[i] > IntervalMs
    decreases i
  {
    var d := Decisions(last, times);
    var rest := times[1..];
    if i == 0 {
      assert Next(last, times[0]) == Some(times[0]);
      forall k | 0 <= k < j - 1 ensures !Decisions(Some(times[0]), rest)[k] {
        assert !d[k + 1];
      }
      FirstAcceptedAfter(times[0], rest, j - 1);
    } else {
      var next := Next(last, times[0]);
      assert Decisions(next, rest)[i - 1];
      forall k | i - 1 < k < j - 1 ensures !Decisions(next, rest)[k] {
        assert !d[k + 1];
      }
      AcceptedAfter(next, rest, i - 1, j - 1);
    }
  }

  /**
   * Any two forwarded frames, not only neighbouring ones, are more than 500 ms
   * apart, and the later one has the later timestamp, even if the clock readings
   * are not monotonic.
   */
  lemma {:induction false} AcceptedSpaced(last: Option<int>, times: seq<int>, i: int, j: int)
    requires 0 <= i < j < |times|
    requires Decisions(last, times)[i] && Decisions(last, times)[j]
    ensures times[j] - times[i] > IntervalMs
    decreases j - i
  {
    var d := Decisions(last, times);
    if k :| i < k < j && d[k] {
      AcceptedSpaced(last, times, i, k);
      AcceptedSpaced(last, times, k, j);
    } else {
      AcceptedAfter(last, times, i, j);
    }
  }

  /**
   * Once a frame is forwarded, every later frame within 500 ms of it is dropped
   * (this needs no assumption that the clock readings are monotonic).
   */
  lemma DroppedWithinInterval(last: Option<int>, times: seq<int>, i: int, j: int)
    requires 0 <= i < j < |times|
    requires Decisions(last, times)[i]
    requires times[j] - times[i] <= IntervalMs
    ensures !Decisions(last, times)[j]
  {
    if Decisions(last, times)[j] {
      AcceptedSpaced(last, times, i, j);
      assert false;
    }
  }

  /**
   * Without the neighbouring condition of AcceptedAfter the converse fails:
   * the frame at 600 ms is more than 500 ms after the one forwarded at 0 ms,
   * yet it is dropped, because a frame was forwarded at 501 ms in between.
   */
  lemma LaterFrameCanStillBeDropped()
    ensures Decisions(None, [0, 501, 600]) == [true, true, false]
  {
  }
}
