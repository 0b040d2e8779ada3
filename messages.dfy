/**
 * The message log of messages.py: a list of (line, colour) pairs that keeps
 * at most MSG_HEIGHT lines by dropping the oldest line before appending a
 * new one when the list is exactly full.
 */
module Messages {

  /** The libtcod colours the game's messages and entities use. */
  datatype Color =
    | White | Red | Green | Yellow | Orange
    | LightGreen | LightYellow | LightViolet | LightBlue | LightCyan
    | DarkRed | LightestGrey | Violet | DesaturatedGreen | DarkerGreen

  type Line = (string, Color)

  /** MSG_HEIGHT is a positive constant of the game's configuration. */
  type Height = n: int | n > 0 witness 1

  /** Pairs every wrapped line with the colour of its message. */
  function Tag(lines: seq<string>, color: Color): (r: seq<Line>)
    ensures |r| == |lines|
    ensures forall i :: 0 <= i < |r| ==> r[i] == (lines[i], color)
  {
    if lines == [] then [] else [(lines[0], color)] + Tag(lines[1..], color)
  }

  /** One iteration of the loop in `__call__`: evict the head when full, then append. */
  function Push(buffer: seq<Line>, line: Line, height: Height): seq<Line>
  {
    (if |buffer| == height then buffer[1..] else buffer) + [line]
  }

  /** The buffer after `__call__` has appended every line of `lines`, in order. */
  function Logged(buffer: seq<Line>, lines: seq<Line>, height: Height): seq<Line>
    decreases |lines|
  {
    if lines == [] then buffer else Logged(Push(buffer, lines[0], height), lines[1..], height)
  }

  /** The last `n` elements of `s` (all of `s` when it is shorter). */
  function LastN(s: seq<Line>, n: nat): (r: seq<Line>)
    ensures |r| == if |s| <= n then |s| else n
  {
    if |s| <= n then s else s[|s| - n..]
  }

  /** Once the rest already holds `n` entries, an extra entry in front of it is not among the last `n`. */
  lemma LastNDropsFront(x: Line, rest: seq<Line>, n: nat)
    requires |rest| >= n
    ensures LastN([x] + rest, n) == LastN(rest, n)
  {
    assert ([x] + rest)[|rest| + 1 - n..] == rest[|rest| - n..];
  }

  /** Logging lines one at a time is the same as logging them all at once. */
  lemma {:induction false} LoggedSnoc(buffer: seq<Line>, lines: seq<Line>, line: Line, height: Height)
    ensures Logged(buffer, lines + [line], height) == Push(Logged(buffer, lines, height), line, height)
    decreases |lines|
  {
    if lines == [] {
      assert lines + [line] == [line];
    } else {
      assert (lines + [line])[0] == lines[0];
      assert (lines + [line])[1..] == lines[1..] + [line];
      LoggedSnoc(Push(buffer, lines[0], height), lines[1..], line, height);
    }
  }

  /**
   * Eviction is first-in first-out: starting from a buffer that is not
   * over-full, the result is the last `height` entries of the old buffer
   * followed by the new lines, so it never exceeds `height` lines.
   */
  lemma {:induction false} LoggedKeepsNewest(buffer: seq<Line>, lines: seq<Line>, height: Height)
    requires |buffer| <= height
    ensures Logged(buffer, lines, height) == LastN(buffer + lines, height)
    ensures |Logged(buffer, lines, height)| <= height
    decreases |lines|
  {
    if lines != [] {
      var next := Push(buffer, lines[0], height);
      LoggedKeepsNewest(next, lines[1..], height);
      var all := buffer + lines;
      assert all == buffer + [lines[0]] + lines[1..];
      if |buffer| == height {
        var rest := next + lines[1..];
        assert all == [buffer[0]] + rest;
        LastNDropsFront(buffer[0], rest, height);
      } else {
        assert next + lines[1..] == all;
      }
    }
  }

  /** While the buffer has room for every new line, nothing is evicted. */
  lemma NoEvictionBelowHeight(buffer: seq<Line>, lines: seq<Line>, height: Height)
    requires |buffer| + |lines| <= height
    ensures Logged(buffer, lines, height) == buffer + lines
  {
    LoggedKeepsNewest(buffer, lines, height);
  }

  /**
   * The eviction test is `len == MSG_HEIGHT`, not `>=`: a buffer that starts
   * longer than MSG_HEIGHT is never trimmed and only grows.
   */
  lemma {:induction false} OverfullNeverEvicts(buffer: seq<Line>, lines: seq<Line>, height: Height)
    requires |buffer| > height
    ensures Logged(buffer, lines, height) == buffer + lines
    decreases |lines|
  {
    if lines != [] {
      OverfullNeverEvicts(buffer + [lines[0]], lines[1..], height);
      assert buffer + [lines[0]] + lines[1..] == buffer + lines;
    }
  }

  /** Every entry of the log came from the old buffer or from the new lines. */
  lemma {:induction false} LoggedEntriesFromInputs(buffer: seq<Line>, lines: seq<Line>, height: Height, e: Line)
    requires e in Logged(buffer, lines, height)
    ensures e in buffer || e in lines
    decreases |lines|
  {
    if lines != [] {
      var next := Push(buffer, lines[0], height);
      LoggedEntriesFromInputs(next, lines[1..], height, e);
      if e in next && e != lines[0] {
        assert e in (if |buffer| == height then buffer[1..] else buffer);
      }
    }
  }

  /** The `Messaging` object: the message list and the two constants it uses. */
  class Messaging {
    var messages: seq<Line>
    /** MSG_HEIGHT */
    const height: Height
    /** `textwrap.wrap(_, MSG_WIDTH)` */
    const wrap: string -> seq<string>

    /** The list `messages` would become if `msg` were logged on top of `buffer`. */
    function Then(buffer: seq<Line>, msg: string, color: Color): seq<Line>
    {
      Logged(buffer, Tag(wrap(msg), color), height)
    }

    /** `Messaging(*msg)`: the buffer starts as the given lines, in order. */
    constructor (initial: seq<Line>, height: Height, wrap: string -> seq<string>)
      ensures messages == initial
      ensures this.height == height && this.wrap == wrap
    {
      messages := initial;
      this.height := height;
      this.wrap := wrap;
    }

    /** `__call__`: wraps `msg` and logs each line with `color`. */
    method Send(msg: string, color: Color)
      modifies this`messages
      ensures messages == Then(old(messages), msg, color)
      ensures old(|messages|) <= height ==>
        messages == LastN(old(messages) + Tag(wrap(msg), color), height) && |messages| <= height
    {
      var lines := wrap(msg);
      var tagged := Tag(lines, color);
      var i := 0;
      while i < |lines|
        invariant 0 <= i <= |lines|
        invariant messages == Logged(old(messages), tagged[..i], height)
      {
        LoggedSnoc(old(messages), tagged[..i], tagged[i], height);
        assert tagged[..i + 1] == tagged[..i] + [tagged[i]];
        if |messages| == height {
          messages := messages[1..];
        }
        messages := messages + [(lines[i], color)];
        i := i + 1;
      }
      assert tagged[..i] == tagged;
      if old(|messages|) <= height {
        LoggedKeepsNewest(old(messages), tagged, height);
      }
    }

    /** `tolist`: the buffer itself, oldest line first. */
    function ToList(): (r: seq<Line>)
      reads this
      ensures r == messages
    {
      messages
    }
  }
}
