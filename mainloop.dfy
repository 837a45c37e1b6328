/** One turn of `main`'s endless loop: scroll, draw the frame, read one key,
    dispatch it. */
module MainLoop {
  import opened Wrappers
  import opened Keys
  import opened InputDecoder
  import opened Viewport
  import opened Render

  /** A terminal with at least one content row and one column: the source's
      `draw_cursor` underflows with no content row, `move_cursor` with no
      column. */
  predicate TerminalUsable(s: EditorState) {
    s.rows >= 1 && s.columns >= 1
  }

  /** What the key part of a turn does: wait for input that never comes
      (the input ran out), or dispatch a key that took `consumed` bytes. */
  datatype Reaction = Waits | Reacts(consumed: nat, outcome: Outcome)

  /** The key part of a turn on state s: decode the pending input and
      dispatch the key on the scrolled state. Every key consumes input. */
  function React(s: EditorState, input: seq<byte>): (r: Reaction)
    requires TerminalUsable(s)
    ensures r.Waits? <==> ReadKey(input).None?
    ensures r.Reacts? ==> 1 <= r.consumed <= |input|
  {
    match ReadKey(input)
    case None => Waits
    case Some(d) => Reacts(d.consumed, Dispatch(Scroll(s), d.key))
  }

  /** One turn: the frame written, and what the key did. */
  datatype Iteration = Iteration(frame: string, reaction: Reaction)

  /** One turn of the loop on state s with the given pending input: scroll,
      render, then decode and dispatch. */
  function Step(s: EditorState, input: seq<byte>): (it: Iteration)
    requires TerminalUsable(s)
    ensures |it.frame| >= |CURSOR_TOP_LEFT| && it.frame[..|CURSOR_TOP_LEFT|] == CURSOR_TOP_LEFT
    ensures var cup := CursorSequence(Scroll(s));
            |it.frame| >= |cup| && it.frame[|it.frame| - |cup|..] == cup
    ensures it.reaction.Waits? <==> ReadKey(input).None?
    ensures (it.reaction.Reacts? && it.reaction.outcome.Quit?) <==>
            (ReadKey(input).Some? && ReadKey(input).value.key == Literal(LETTER_Q))
  {
    var shown := Scroll(s);
    Iteration(Frame(shown), React(s, input))
  }

  /** The exit status of a Rust program whose main thread panics. */
  const PANIC_EXIT_CODE := 101

  /** One turn as the program runs it: `refresh_screen` draws the status bar
      as written, whose `usize` subtraction panics before any key is read
      whenever the two status segments do not fit. None stands for that
      panic; otherwise the turn is the one `Step` describes. */
  function StepAsWritten(s: EditorState, input: seq<byte>): (r: Option<Iteration>)
    requires TerminalUsable(s)
    ensures r.None? <==> !StatusFits(s.filename, s.cursorY, s.columns)
    ensures r.Some? ==> r.value == Step(s, input)
  {
    var shown := Scroll(s);
    if StatusBarAsWritten(shown.filename, shown.cursorY, shown.columns).None? then None
    else Some(Step(s, input))
  }

  /** The loop ends exactly when the decoded key is 'q', with status 0. */
  lemma ReactQuitsOnlyOnQ(s: EditorState, input: seq<byte>)
    requires TerminalUsable(s)
    ensures var r := React(s, input);
            (r.Reacts? && r.outcome.Quit?) <==> (ReadKey(input).Some? && ReadKey(input).value.key == Literal(LETTER_Q))
    ensures var r := React(s, input);
            r.Reacts? && r.outcome.Quit? ==> r.outcome.exitCode == 0
  {
  }

  /** A turn keeps the cursor bounds and the terminal size, and leaves the
      window where `scroll` put it, where the cursor was visible. */
  lemma ReactKeepsBounds(s: EditorState, input: seq<byte>)
    requires TerminalUsable(s) && VerticalBound(s) && HorizontalBound(s)
    ensures CursorVisible(Scroll(s))
    ensures var r := React(s, input);
            r.Reacts? && r.outcome.Continue? ==>
              var t := r.outcome.state;
              t.rows == s.rows && t.columns == s.columns &&
              VerticalBound(t) && HorizontalBound(t) &&
              t.offsetY == Scroll(s).offsetY && t.content == s.content && t.filename == s.filename
  {
  }

  /** How a session ends after some turns: still waiting for a key, or
      exited with a status. */
  datatype SessionEnd = Waiting(state: EditorState) | Exited(exitCode: int)

  /** At most `turns` turns of the loop over the input, each taking the
      bytes its key consumed. */
  function Session(s: EditorState, input: seq<byte>, turns: nat): (e: SessionEnd)
    requires TerminalUsable(s)
    ensures turns == 0 ==> e == Waiting(s)
    ensures e.Waiting? ==> e.state.content == s.content && e.state.filename == s.filename &&
                           e.state.rows == s.rows && e.state.columns == s.columns
    ensures e.Exited? ==> e.exitCode == 0
    decreases turns
  {
    if turns == 0 then Waiting(s)
    else
      match React(s, input)
      case Waits => Waiting(Scroll(s))
      case Reacts(consumed, outcome) =>
        match outcome
        case Quit(_, code) => Exited(code)
        case Continue(t) => Session(t, input[consumed..], turns - 1)
  }

  /** However many keys arrive, the editor with the corrected status bar
      keeps its cursor in bounds and its content and width, and it only ever
      exits with status 0. `SessionAsWritten` adds the program's panic. */
  lemma {:induction false} SessionKeepsBounds(s: EditorState, input: seq<byte>, turns: nat)
    requires TerminalUsable(s) && VerticalBound(s) && HorizontalBound(s)
    ensures var e := Session(s, input, turns);
            (e.Waiting? ==> VerticalBound(e.state) && HorizontalBound(e.state) &&
                            e.state.content == s.content && e.state.columns == s.columns) &&
            (e.Exited? ==> e.exitCode == 0)
    decreases turns
  {
    if turns > 0 {
      ReactKeepsBounds(s, input);
      ReactQuitsOnlyOnQ(s, input);
      var r := React(s, input);
      if r.Reacts? && r.outcome.Continue? {
        SessionKeepsBounds(r.outcome.state, input[r.consumed..], turns - 1);
      }
    }
  }

  /** At most `turns` turns as the program runs them: like `Session`, except
      that a turn whose status bar does not fit ends the program by a panic. */
  function SessionAsWritten(s: EditorState, input: seq<byte>, turns: nat): (e: SessionEnd)
    requires TerminalUsable(s)
    ensures turns == 0 ==> e == Waiting(s)
    ensures turns >= 1 && !StatusFits(s.filename, s.cursorY, s.columns) ==> e == Exited(PANIC_EXIT_CODE)
    ensures e.Exited? ==> e.exitCode == 0 || e.exitCode == PANIC_EXIT_CODE
    decreases turns
  {
    if turns == 0 then Waiting(s)
    else if !StatusFits(s.filename, s.cursorY, s.columns) then Exited(PANIC_EXIT_CODE)
    else
      match React(s, input)
      case Waits => Waiting(Scroll(s))
      case Reacts(consumed, outcome) =>
        match outcome
        case Quit(_, code) => Exited(code)
        case Continue(t) => SessionAsWritten(t, input[consumed..], turns - 1)
  }

  /** On a terminal narrower than 54 columns the program panics on its first
      frame, before it reads a key: not even `q` ends it with status 0. */
  lemma NarrowTerminalPanicsFirst(s: EditorState, input: seq<byte>, turns: nat)
    requires TerminalUsable(s) && s.columns < 54 && turns >= 1
    ensures StepAsWritten(s, input).None?
    ensures SessionAsWritten(s, input, turns) == Exited(PANIC_EXIT_CODE)
  {
    NarrowTerminalCrashes(s.filename, s.cursorY, s.columns);
  }

  /** When the status bar fits even on the last line the cursor can reach,
      the program never panics and runs exactly the session `Session`
      describes, whose exits all have status 0. */
  lemma {:induction false} SessionAsWrittenAgrees(s: EditorState, input: seq<byte>, turns: nat)
    requires TerminalUsable(s) && VerticalBound(s) && HorizontalBound(s)
    requires StatusFits(s.filename, |s.content|, s.columns)
    ensures SessionAsWritten(s, input, turns) == Session(s, input, turns)
    decreases turns
  {
    if turns > 0 {
      StatusFitsAbove(s.filename, s.cursorY, |s.content|, s.columns);
      ReactKeepsBounds(s, input);
      var r := React(s, input);
      if r.Reacts? && r.outcome.Continue? {
        SessionAsWrittenAgrees(r.outcome.state, input[r.consumed..], turns - 1);
      }
    }
  }
}
