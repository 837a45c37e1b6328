/** The editor's state as a value, and the transitions of `scroll`,
    `move_cursor` and `handle_key` on it. The class in EditorApp updates its
    fields in place and is specified by these functions. */
module Viewport {
  import opened Keys

  /** The fields of the source's `Editor`, without the saved terminal mode.
      `rows` is the terminal height minus the status-bar row. */
  datatype EditorState = EditorState(
    cursorX: nat,
    cursorY: nat,
    columns: nat,
    rows: nat,
    offsetY: nat,
    content: seq<string>,
    filename: string)

  /** cursor_y may rest one past the last line, never further. */
  predicate VerticalBound(s: EditorState) {
    s.cursorY <= |s.content|
  }

  /** cursor_x stays in the columns of the terminal. */
  predicate HorizontalBound(s: EditorState) {
    1 <= s.columns && s.cursorX <= s.columns - 1
  }

  /** The cursor's line lies inside the window of `rows` lines at offset_y. */
  predicate CursorVisible(s: EditorState) {
    s.offsetY <= s.cursorY < s.offsetY + s.rows
  }

  /** `scroll`: moves the window just far enough to show the cursor's line.
      Only offset_y changes; a terminal with at least one content row ends
      with the cursor visible; a visible cursor leaves the state alone.
      The source evaluates `(cursor_y - rows) + 1` in `usize`; the
      conversion to nat below checks that `cursor_y - rows` itself cannot
      underflow, and the ensures states the bound that guarantees it. */
  function Scroll(s: EditorState): (r: EditorState)
    ensures r == s.(offsetY := r.offsetY)
    ensures s.rows >= 1 ==> CursorVisible(r)
    ensures CursorVisible(s) ==> r == s
    ensures s.cursorY >= s.rows + s.offsetY ==> s.rows <= s.cursorY
  {
    if s.cursorY >= s.rows + s.offsetY then s.(offsetY := (s.cursorY - s.rows) as nat + 1)
    else if s.cursorY < s.offsetY then s.(offsetY := s.cursorY)
    else s
  }

  function Distance(a: nat, b: nat): nat {
    if a <= b then b - a else a - b
  }

  /** Of all window positions that show the cursor, `scroll` picks one
      nearest to where the window was. */
  lemma ScrollMovesLeast(s: EditorState, other: nat)
    requires other <= s.cursorY < other + s.rows
    ensures Distance(Scroll(s).offsetY, s.offsetY) <= Distance(other, s.offsetY)
  {
  }

  /** Scrolling twice is scrolling once. */
  lemma ScrollIdempotent(s: EditorState)
    requires s.rows >= 1
    ensures Scroll(Scroll(s)) == Scroll(s)
  {
  }

  /** `move_cursor` can run without a usize underflow: ArrowRight and End
      compute columns - 1, which panics on a terminal of width 0. */
  predicate MoveDefined(s: EditorState, k: Key) {
    k == ArrowRight || k == End ==> s.columns >= 1
  }

  /** `move_cursor`: one step of the cursor. It changes only the cursor,
      vertical keys only cursor_y and horizontal keys only cursor_x, by at
      most one line or column for the arrows; it keeps both bounds and
      ignores every other key. */
  function MoveCursor(s: EditorState, k: Key): (r: EditorState)
    requires MoveDefined(s, k)
    ensures r == s.(cursorX := r.cursorX, cursorY := r.cursorY)
    ensures k == ArrowUp || k == ArrowDown ==> r.cursorX == s.cursorX && Distance(r.cursorY, s.cursorY) <= 1
    ensures k == ArrowLeft || k == ArrowRight ==> r.cursorY == s.cursorY && Distance(r.cursorX, s.cursorX) <= 1
    ensures k == Home || k == End ==> r.cursorY == s.cursorY
    ensures !k.IsNavigation() ==> r == s
    ensures VerticalBound(s) ==> VerticalBound(r)
    ensures HorizontalBound(s) ==> HorizontalBound(r)
  {
    match k
    case ArrowUp => if s.cursorY > 0 then s.(cursorY := s.cursorY - 1) else s
    case ArrowDown => if s.cursorY < |s.content| then s.(cursorY := s.cursorY + 1) else s
    case ArrowLeft => if s.cursorX > 0 then s.(cursorX := s.cursorX - 1) else s
    case ArrowRight => if s.cursorX < s.columns - 1 then s.(cursorX := s.cursorX + 1) else s
    case Home => s.(cursorX := 0)
    case End => s.(cursorX := s.columns - 1)
    case _ => s
  }

  /** An arrow key moves the cursor exactly when it is not at the bound it
      is heading for. */
  lemma ArrowsStopAtBounds(s: EditorState)
    requires s.columns >= 1
    ensures MoveCursor(s, ArrowUp).cursorY == if s.cursorY == 0 then 0 else s.cursorY - 1
    ensures MoveCursor(s, ArrowDown).cursorY == if s.cursorY < |s.content| then s.cursorY + 1 else s.cursorY
    ensures MoveCursor(s, ArrowLeft).cursorX == if s.cursorX == 0 then 0 else s.cursorX - 1
    ensures MoveCursor(s, ArrowRight).cursorX == if s.cursorX < s.columns - 1 then s.cursorX + 1 else s.cursorX
  {
  }

  /** Home goes to the first column and End to the last. */
  lemma HomeAndEnd(s: EditorState)
    requires s.columns >= 1
    ensures MoveCursor(s, Home).cursorX == 0
    ensures MoveCursor(s, End).cursorX == s.columns - 1
  {
  }

  /** What `exit` writes before ending the process: clear the screen and put
      the cursor at the top left. */
  const QUIT_OUTPUT: string := "\U{1b}[2J" + "\U{1b}[H"

  /** The result of dispatching one key: the editor goes on with a new state,
      or the process ends after writing `output`. */
  datatype Outcome = Continue(state: EditorState) | Quit(output: string, exitCode: int)

  /** `handle_key`: 'q' quits with status 0, the six navigation keys move
      the cursor, everything else (Delete, PageUp, PageDown, other literals)
      leaves the editor as it was. */
  function Dispatch(s: EditorState, k: Key): (o: Outcome)
    requires MoveDefined(s, k)
    ensures o.Quit? <==> k == Literal(LETTER_Q)
    ensures o.Quit? ==> o.exitCode == 0 && o.output == QUIT_OUTPUT
    ensures o.Continue? && !k.IsNavigation() ==> o.state == s
    ensures o.Continue? && k.IsNavigation() ==> o.state == MoveCursor(s, k)
  {
    if k == Literal(LETTER_Q) then Quit(QUIT_OUTPUT, 0)
    else if k.IsNavigation() then Continue(MoveCursor(s, k))
    else Continue(s)
  }

  /** Dispatching a sequence of keys, stopping at the first that quits. The
      terminal width never changes, so one width check covers every key. */
  function Run(s: EditorState, keys: seq<Key>): Outcome
    requires s.columns >= 1
    decreases |keys|
  {
    if keys == [] then Continue(s)
    else
      match Dispatch(s, keys[0])
      case Quit(output, code) => Quit(output, code)
      case Continue(next) => Run(next, keys[1..])
  }

  /** Whatever keys are pressed, cursor_y stays within [0, |content|],
      cursor_x within [0, columns - 1], and the content, size, scroll
      position and filename are never changed by a key. */
  lemma {:induction false} RunKeepsBounds(s: EditorState, keys: seq<Key>)
    requires VerticalBound(s) && HorizontalBound(s)
    ensures Run(s, keys).Continue? ==>
              var t := Run(s, keys).state;
              VerticalBound(t) && HorizontalBound(t) &&
              t == s.(cursorX := t.cursorX, cursorY := t.cursorY)
    decreases |keys|
  {
    if keys != [] && Dispatch(s, keys[0]).Continue? {
      RunKeepsBounds(Dispatch(s, keys[0]).state, keys[1..]);
    }
  }

  /** A run of keys that contains 'q' ends with the process quitting. */
  lemma {:induction false} RunQuitsOnQ(s: EditorState, keys: seq<Key>)
    requires s.columns >= 1
    requires Literal(LETTER_Q) in keys
    ensures Run(s, keys).Quit? && Run(s, keys).exitCode == 0
    decreases |keys|
  {
    if keys[0] != Literal(LETTER_Q) {
      assert Literal(LETTER_Q) in keys[1..];
      RunQuitsOnQ(Dispatch(s, keys[0]).state, keys[1..]);
    }
  }

  /** A run of keys without 'q' never quits. */
  lemma {:induction false} RunContinuesWithoutQ(s: EditorState, keys: seq<Key>)
    requires s.columns >= 1
    requires Literal(LETTER_Q) !in keys
    ensures Run(s, keys).Continue?
    decreases |keys|
  {
    if keys != [] {
      assert keys[0] != Literal(LETTER_Q);
      assert Literal(LETTER_Q) !in keys[1..];
      RunContinuesWithoutQ(Dispatch(s, keys[0]).state, keys[1..]);
    }
  }

  function Repeat(k: Key, n: nat): (keys: seq<Key>)
    ensures |keys| == n && forall i | 0 <= i < n :: keys[i] == k
  {
    if n == 0 then [] else [k] + Repeat(k, n - 1)
  }

  function Min(a: nat, b: nat): nat {
    if a <= b then a else b
  }

  /** Pressing ArrowDown n times moves cursor_y down by n lines but never
      past |content|. */
  lemma {:induction false} ArrowDownClamps(s: EditorState, n: nat)
    requires s.columns >= 1 && VerticalBound(s)
    ensures Run(s, Repeat(ArrowDown, n)) == Continue(s.(cursorY := Min(s.cursorY + n, |s.content|)))
    decreases n
  {
    if n > 0 {
      var t := MoveCursor(s, ArrowDown);
      assert Repeat(ArrowDown, n)[1..] == Repeat(ArrowDown, n - 1);
      ArrowDownClamps(t, n - 1);
    } else {
      assert s.(cursorY := Min(s.cursorY + n, |s.content|)) == s;
    }
  }

  /** Pressing ArrowUp n times moves cursor_y up by n lines but never
      below 0. */
  lemma {:induction false} ArrowUpClamps(s: EditorState, n: nat)
    requires s.columns >= 1
    ensures Run(s, Repeat(ArrowUp, n)) ==
            Continue(s.(cursorY := if s.cursorY >= n then s.cursorY - n else 0))
    decreases n
  {
    if n > 0 {
      var t := MoveCursor(s, ArrowUp);
      assert Repeat(ArrowUp, n)[1..] == Repeat(ArrowUp, n - 1);
      ArrowUpClamps(t, n - 1);
    } else {
      assert s.(cursorY := s.cursorY) == s;
    }
  }

  /** Pressing ArrowRight n times moves cursor_x right by n columns but
      never past columns - 1. */
  lemma {:induction false} ArrowRightClamps(s: EditorState, n: nat)
    requires HorizontalBound(s)
    ensures Run(s, Repeat(ArrowRight, n)) == Continue(s.(cursorX := Min(s.cursorX + n, s.columns - 1)))
    decreases n
  {
    if n > 0 {
      var t := MoveCursor(s, ArrowRight);
      assert Repeat(ArrowRight, n)[1..] == Repeat(ArrowRight, n - 1);
      ArrowRightClamps(t, n - 1);
    } else {
      assert s.(cursorX := Min(s.cursorX + n, s.columns - 1)) == s;
    }
  }

  /** Pressing ArrowLeft n times moves cursor_x left by n columns but never
      below 0. */
  lemma {:induction false} ArrowLeftClamps(s: EditorState, n: nat)
    requires s.columns >= 1
    ensures Run(s, Repeat(ArrowLeft, n)) ==
            Continue(s.(cursorX := if s.cursorX >= n then s.cursorX - n else 0))
    decreases n
  {
    if n > 0 {
      var t := MoveCursor(s, ArrowLeft);
      assert Repeat(ArrowLeft, n)[1..] == Repeat(ArrowLeft, n - 1);
      ArrowLeftClamps(t, n - 1);
    } else {
      assert s.(cursorX := s.cursorX) == s;
    }
  }

  /** A three-line file and five presses of ArrowDown leave the cursor on
      line 3, one past the last line, not on line 5. */
  lemma ThreeLinesFiveDowns(s: EditorState)
    requires s.columns >= 1 && |s.content| == 3 && s.cursorY == 0
    ensures Run(s, Repeat(ArrowDown, 5)) == Continue(s.(cursorY := 3))
  {
    ArrowDownClamps(s, 5);
  }
}
