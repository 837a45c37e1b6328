/** The editor object of `main`: its fields are updated in place by
    `scroll`, `move_cursor` and `handle_key`, and read by the drawing
    functions, which append to a string builder. */
module EditorApp {
  import opened Wrappers
  import opened Keys
  import opened InputDecoder
  import opened Decimal
  import opened Render
  import Viewport
  import MainLoop

  /** `move_cursor_to_top_left`: appends the cursor-home sequence. */
  method MoveCursorToTopLeft(builder: string) returns (b: string)
    ensures b == builder + CURSOR_TOP_LEFT
  {
    b := builder + "\U{1b}[H";
  }

  class Editor {
    var cursorX: nat
    var cursorY: nat
    var columns: nat
    var rows: nat
    var offsetY: nat
    var content: seq<string>
    var filename: string

    /** The editor's fields as a value. */
    function State(): Viewport.EditorState
      reads this
    {
      Viewport.EditorState(cursorX, cursorY, columns, rows, offsetY, content, filename)
    }

    /** `main`'s start-up: zeroed cursor and scroll position, the loaded
        lines and display name, and the terminal size less the status-bar
        row (`set_window_size` subtracts 1 in `usize`, so the terminal must
        have a row). */
    constructor (content: seq<string>, filename: string, terminalColumns: nat, terminalRows: nat)
      requires terminalRows >= 1
      ensures State() == Viewport.EditorState(0, 0, terminalColumns, terminalRows - 1, 0, content, filename)
    {
      this.cursorX := 0;
      this.cursorY := 0;
      this.offsetY := 0;
      this.content := content;
      this.filename := filename;
      this.columns := terminalColumns;
      this.rows := terminalRows - 1;
    }

    /** `scroll`. */
    method Scroll()
      modifies this
      ensures State() == Viewport.Scroll(old(State()))
    {
      if cursorY >= rows + offsetY {
        offsetY := (cursorY - rows) as nat + 1;
      } else if cursorY < offsetY {
        offsetY := cursorY;
      }
    }

    /** `move_cursor`. */
    method MoveCursor(key: Key)
      requires Viewport.MoveDefined(State(), key)
      modifies this
      ensures State() == Viewport.MoveCursor(old(State()), key)
    {
      match key
      case ArrowUp =>
        if cursorY > 0 {
          cursorY := cursorY - 1;
        }
      case ArrowDown =>
        if cursorY < |content| {
          cursorY := cursorY + 1;
        }
      case ArrowLeft =>
        if cursorX > 0 {
          cursorX := cursorX - 1;
        }
      case ArrowRight =>
        if cursorX < columns - 1 {
          cursorX := cursorX + 1;
        }
      case Home =>
        cursorX := 0;
      case End =>
        cursorX := columns - 1;
      case _ =>
    }

    /** `handle_key`: 'q' ends the program (what `exit` writes and its
        status are returned), the navigation keys move the cursor, and
        every other key changes nothing. */
    method HandleKey(key: Key) returns (quit: bool, output: string, exitCode: int)
      requires Viewport.MoveDefined(State(), key)
      modifies this
      ensures quit ==> Viewport.Dispatch(old(State()), key) == Viewport.Quit(output, exitCode)
      ensures quit ==> State() == old(State())
      ensures !quit ==> Viewport.Dispatch(old(State()), key) == Viewport.Continue(State())
    {
      quit, output, exitCode := false, "", 0;
      if key == Literal(LETTER_Q) {
        quit, output, exitCode := true, Viewport.QUIT_OUTPUT, 0;
      } else if key in [ArrowUp, ArrowDown, ArrowLeft, ArrowRight, Home, End] {
        MoveCursor(key);
      }
    }

    /** `draw_content`: one row per window line, each followed by EL CR LF. */
    method DrawContent(builder: string) returns (b: string)
      ensures b == builder + ContentRows(State())
    {
      ghost var parts := Terminated(VisibleLines(State()));
      b := builder;
      for i := 0 to rows
        invariant b == builder + Concat(parts[..i])
      {
        var fileIndex := offsetY + i;
        if fileIndex >= |content| {
          b := b + "~";
        } else {
          b := b + content[fileIndex];
        }
        b := b + "\U{1b}[K\r\n";
        assert parts[..i + 1][..i] == parts[..i];
      }
      assert parts[..rows] == parts;
    }

    /** `draw_status_bar`, corrected so that a terminal too narrow for both
        segments gets their leading `columns` characters instead of a crash
        (the source as written is StatusBarAsWritten). */
    method DrawStatusBar(builder: string) returns (b: string)
      ensures b == builder + StatusBar(filename, cursorY, columns)
    {
      var status := STATUS_PREFIX + FileLabel(filename);
      var info := "Line: " + DecimalString(cursorY) + " ";
      var text: string;
      if |status| + |info| <= columns {
        text := status + Spaces(columns - |status| - |info|) + info;
      } else {
        text := (status + info)[..columns];
      }
      assert text == StatusText(filename, cursorY, columns);
      b := builder + REVERSE_VIDEO;
      b := b + text;
      b := b + RESET_ATTRIBUTES;
    }

    /** `draw_cursor`: the source subtracts offset_y from cursor_y in
        `usize`, so the cursor must not be above the window. */
    method DrawCursor(builder: string) returns (b: string)
      requires offsetY <= cursorY
      ensures b == builder + CursorSequence(State())
    {
      var cup := "\U{1b}[" + DecimalString(cursorY - offsetY + 1) + ";" + DecimalString(cursorX + 1) + "H";
      assert cup == CursorPosition(cursorY - offsetY + 1, cursorX + 1);
      b := builder + cup;
    }

    /** `refresh_screen`: the whole frame, built in one string and written
        at once. */
    method RefreshScreen() returns (frame: string)
      requires offsetY <= cursorY
      ensures frame == Frame(State())
    {
      frame := MoveCursorToTopLeft("");
      assert frame == CURSOR_TOP_LEFT;
      frame := DrawContent(frame);
      ghost var top := frame;
      frame := DrawStatusBar(frame);
      ghost var bar := StatusBar(filename, cursorY, columns);
      frame := DrawCursor(frame);
      assert frame == top + bar + CursorSequence(State());
    }

    /** One turn of `main`'s loop over the pending input. After a key other
        than 'q' the editor holds the dispatched state; otherwise only the
        scroll has happened. */
    method Tick(input: seq<byte>) returns (it: MainLoop.Iteration)
      requires MainLoop.TerminalUsable(State())
      modifies this
      ensures it == MainLoop.Step(old(State()), input)
      ensures it.reaction.Reacts? && it.reaction.outcome.Continue? ==> State() == it.reaction.outcome.state
      ensures !(it.reaction.Reacts? && it.reaction.outcome.Continue?) ==> State() == Viewport.Scroll(old(State()))
    {
      Scroll();
      var frame := RefreshScreen();
      match ReadKey(input)
      case None =>
        it := MainLoop.Iteration(frame, MainLoop.Waits);
      case Some(d) =>
        var quit, output, exitCode := HandleKey(d.key);
        var outcome := if quit then Viewport.Quit(output, exitCode) else Viewport.Continue(State());
        it := MainLoop.Iteration(frame, MainLoop.Reacts(d.consumed, outcome));
    }
  }
}
