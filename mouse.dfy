/**
 * Mouse input tracking (PyIGL_viewer/viewer/mouse.py): a bounded history of
 * pointer positions, newest first, and the time at which each button was pressed.
 */
module Mouse {
  import opened Values

  /** A Qt QPointF. */
  datatype PointF = PointF(x: real, y: real)

  function Minus(p: PointF, q: PointF): PointF {
    PointF(p.x - q.x, p.y - q.y)
  }

  /** Qt mouse buttons: the three the handler starts with, and any other flag. */
  datatype MouseButton = LeftButton | RightButton | MiddleButton | OtherButton(flag: nat)

  /** The dict lookup failure `button_pressed` raises for a button it has no entry for. */
  datatype LookupError = KeyError(button: MouseButton)

  /** The `maxlen` of the position deque. */
  const HistoryLength: nat := 5

  /**
   * `deque.appendleft` on a deque bounded by `maxlen`: the new point goes to the
   * front, the others move back one place, and a full deque drops its oldest point.
   */
  function AppendLeft(history: seq<PointF>, p: PointF, maxlen: nat): (r: seq<PointF>)
    requires 0 < maxlen && |history| <= maxlen
    ensures |r| == if |history| < maxlen then |history| + 1 else maxlen
    ensures r[0] == p
    ensures forall i :: 1 <= i < |r| ==> r[i] == history[i - 1]
  {
    if |history| < maxlen then [p] + history else [p] + history[..maxlen - 1]
  }

  /** The history after the moves `ps`, applied oldest first. */
  function Moves(history: seq<PointF>, ps: seq<PointF>): (r: seq<PointF>)
    requires |history| == HistoryLength
    ensures |r| == HistoryLength
  {
    if ps == [] then history
    else AppendLeft(Moves(history, ps[..|ps| - 1]), ps[|ps| - 1], HistoryLength)
  }

  /**
   * After any sequence of moves the history lists the last five positions,
   * newest first, topped up with the oldest entries of the starting history.
   */
  lemma {:induction false} MovesKeepNewestFirst(history: seq<PointF>, ps: seq<PointF>, i: nat)
    requires |history| == HistoryLength && i < HistoryLength
    ensures Moves(history, ps)[i] == if i < |ps| then ps[|ps| - 1 - i] else history[i - |ps|]
  {
    if ps != [] && i > 0 {
      MovesKeepNewestFirst(history, ps[..|ps| - 1], i - 1);
    }
  }

  /** After at least two moves, the delta is the last move minus the one before it. */
  lemma DeltaAfterMoves(history: seq<PointF>, ps: seq<PointF>)
    requires |history| == HistoryLength && 2 <= |ps|
    ensures Minus(Moves(history, ps)[0], Moves(history, ps)[1]) == Minus(ps[|ps| - 1], ps[|ps| - 2])
  {
    MovesKeepNewestFirst(history, ps, 0);
    MovesKeepNewestFirst(history, ps, 1);
  }

  /** `button_pressed`: a button counts as pressed while its stored timestamp is nonzero. */
  function Pressed(stamps: map<MouseButton, nat>, b: MouseButton): (r: Result<bool, LookupError>)
    ensures r.Failure? <==> b !in stamps
    ensures r.Success? ==> (r.value <==> stamps[b] != 0)
  {
    if b in stamps then Success(stamps[b] != 0) else Failure(KeyError(b))
  }

  class MouseHandler {
    var position_history: seq<PointF>
    var button_press_timestamp: map<MouseButton, nat>

    ghost predicate Valid()
      reads this
    {
      |position_history| == HistoryLength
    }

    /** Five (0, 0) positions, and Left, Right and Middle all released. */
    constructor ()
      ensures Valid()
      ensures forall i :: 0 <= i < HistoryLength ==> position_history[i] == PointF(0.0, 0.0)
      ensures button_press_timestamp == map[LeftButton := 0, RightButton := 0, MiddleButton := 0]
      ensures ButtonPressed(LeftButton) == Success(false)
      ensures ButtonPressed(RightButton) == Success(false)
      ensures ButtonPressed(MiddleButton) == Success(false)
      ensures forall f :: ButtonPressed(OtherButton(f)).Failure?
    {
      position_history := [PointF(0.0, 0.0), PointF(0.0, 0.0), PointF(0.0, 0.0), PointF(0.0, 0.0), PointF(0.0, 0.0)];
      button_press_timestamp := map[LeftButton := 0, RightButton := 0, MiddleButton := 0];
    }

    method AddMouseMoveEvent(local_pos: PointF)
      requires Valid()
      modifies this
      ensures Valid()
      ensures position_history == AppendLeft(old(position_history), local_pos, HistoryLength)
      ensures DeltaMouse() == Minus(local_pos, old(position_history)[0])
      ensures button_press_timestamp == old(button_press_timestamp)
    {
      position_history := AppendLeft(position_history, local_pos, HistoryLength);
    }

    /** Stores the press time; a press stamped 0 reads as not pressed. */
    method AddMousePressEvent(button: MouseButton, timestamp: nat)
      modifies this
      ensures button_press_timestamp == old(button_press_timestamp)[button := timestamp]
      ensures ButtonPressed(button) == Success(timestamp != 0)
      ensures forall c :: c != button ==> ButtonPressed(c) == old(ButtonPressed(c))
      ensures position_history == old(position_history)
    {
      button_press_timestamp := button_press_timestamp[button := timestamp];
    }

    method AddMouseReleaseEvent(button: MouseButton)
      modifies this
      ensures button_press_timestamp == old(button_press_timestamp)[button := 0]
      ensures ButtonPressed(button) == Success(false)
      ensures forall c :: c != button ==> ButtonPressed(c) == old(ButtonPressed(c))
      ensures position_history == old(position_history)
    {
      button_press_timestamp := button_press_timestamp[button := 0];
    }

    function DeltaMouse(): PointF
      reads this
      requires Valid()
    {
      Minus(position_history[0], position_history[1])
    }

    function ButtonPressed(b: MouseButton): Result<bool, LookupError>
      reads this
    {
      Pressed(button_press_timestamp, b)
    }
  }
}
