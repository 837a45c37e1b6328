/** The frame renderer: the text that `refresh_screen` writes for one
    editor state. Control sequences are those of ECMA-48: CUP `ESC [ r ; c H`
    (section 8.3.21), EL `ESC [ K` (section 8.3.41) and SGR `ESC [ 7 m` /
    `ESC [ 0 m` (section 8.3.117). */
module Render {
  import opened Wrappers
  import opened Decimal
  import opened Viewport

  const CURSOR_TOP_LEFT: string := "\U{1b}[H"
  const ERASE_LINE_NEWLINE: string := "\U{1b}[K\r\n"
  const REVERSE_VIDEO: string := "\U{1b}[7m"
  const RESET_ATTRIBUTES: string := "\U{1b}[0m"
  const STATUS_PREFIX: string := " Ari Code's Editor - v0.0.1 - Rust Edition - "
  const NO_FILE_LABEL: string := "New File"
  const PLACEHOLDER: string := "~"

  /** `get_file_name`: the name shown in the status bar is never empty, and
      is the filename whenever there is one. */
  function FileLabel(filename: string): (shown: string)
    ensures shown != []
    ensures |filename| != 0 ==> shown == filename
    ensures |filename| == 0 ==> shown == NO_FILE_LABEL
  {
    if |filename| == 0 then NO_FILE_LABEL else filename
  }

  // ---------------------------------------------------------------- content

  /** Screen row i of the window: the content line at offset_y + i, or the
      placeholder past the end of the content. */
  function VisibleLine(s: EditorState, i: nat): string {
    if s.offsetY + i >= |s.content| then PLACEHOLDER else s.content[s.offsetY + i]
  }

  /** The `rows` lines of the window, top to bottom. */
  function VisibleLines(s: EditorState): (lines: seq<string>)
    ensures |lines| == s.rows
  {
    seq(s.rows, i requires 0 <= i < s.rows => VisibleLine(s, i))
  }

  function Placeholders(n: nat): (lines: seq<string>)
    ensures |lines| == n && forall i | 0 <= i < n :: lines[i] == PLACEHOLDER
  {
    seq(n, i => PLACEHOLDER)
  }

  /** The window shows the slice of the content that starts at offset_y, as
      much of it as fits, followed by placeholders for the rows left over. */
  lemma VisibleLinesAreWindow(s: EditorState)
    ensures var lo := Min(s.offsetY, |s.content|);
            var hi := Min(s.offsetY + s.rows, |s.content|);
            hi - lo <= s.rows &&
            VisibleLines(s) == s.content[lo..hi] + Placeholders(s.rows - (hi - lo))
  {
    var lo := Min(s.offsetY, |s.content|);
    var hi := Min(s.offsetY + s.rows, |s.content|);
    var window := s.content[lo..hi] + Placeholders(s.rows - (hi - lo));
    forall i | 0 <= i < s.rows
      ensures VisibleLines(s)[i] == window[i]
    {
      if i < hi - lo {
        assert window[i] == s.content[lo + i];
      } else {
        assert window[i] == PLACEHOLDER;
      }
    }
  }

  /** The pieces written one after another into one string. */
  function Concat(parts: seq<string>): string {
    if parts == [] then [] else Concat(parts[..|parts| - 1]) + parts[|parts| - 1]
  }

  lemma {:induction false} ConcatAppend(a: seq<string>, b: seq<string>)
    ensures Concat(a + b) == Concat(a) + Concat(b)
    decreases |b|
  {
    if b != [] {
      var front := b[..|b| - 1];
      assert (a + b)[..|a + b| - 1] == a + front;
      ConcatAppend(a, front);
    } else {
      assert a + b == a;
    }
  }

  /** Each line followed by erase-to-end-of-line and CR LF. */
  function Terminated(lines: seq<string>): (rows: seq<string>)
    ensures |rows| == |lines|
  {
    seq(|lines|, i requires 0 <= i < |lines| => lines[i] + ERASE_LINE_NEWLINE)
  }

  /** What `draw_content` appends for a state. */
  function ContentRows(s: EditorState): string {
    Concat(Terminated(VisibleLines(s)))
  }

  /** Row i of the output sits between the rows above it and those below,
      and is window line i followed by EL CR LF. */
  lemma ContentRowAt(s: EditorState, i: nat)
    requires i < s.rows
    ensures var rows := Terminated(VisibleLines(s));
            ContentRows(s) == Concat(rows[..i]) + VisibleLine(s, i) + ERASE_LINE_NEWLINE + Concat(rows[i + 1..])
  {
    var rows := Terminated(VisibleLines(s));
    assert rows == rows[..i] + [rows[i]] + rows[i + 1..];
    ConcatAppend(rows[..i] + [rows[i]], rows[i + 1..]);
    ConcatAppend(rows[..i], [rows[i]]);
    assert Concat([rows[i]]) == rows[i] by {
      assert [rows[i]][..0] == [];
    }
  }

  /** How often c occurs in s. */
  function Count(s: string, c: char): nat {
    if s == [] then 0 else Count(s[..|s| - 1], c) + (if s[|s| - 1] == c then 1 else 0)
  }

  lemma {:induction false} CountAppend(a: string, b: string, c: char)
    ensures Count(a + b, c) == Count(a, c) + Count(b, c)
    decreases |b|
  {
    if b != [] {
      assert (a + b)[..|a + b| - 1] == a + b[..|b| - 1];
      CountAppend(a, b[..|b| - 1], c);
    } else {
      assert a + b == a;
    }
  }

  lemma {:induction false} CountAbsent(s: string, c: char)
    requires forall j | 0 <= j < |s| :: s[j] != c
    ensures Count(s, c) == 0
    decreases |s|
  {
    if s != [] {
      CountAbsent(s[..|s| - 1], c);
    }
  }

  /** Lines as `BufReader::lines` yields them: none holds a line feed. */
  predicate NoLineFeeds(content: seq<string>) {
    forall i, j | 0 <= i < |content| && 0 <= j < |content[i]| :: content[i][j] != '\n'
  }

  /** Terminated lines without line feeds of their own hold one line feed
      each. */
  lemma {:induction false} TerminatedLineFeeds(lines: seq<string>)
    requires forall i, j | 0 <= i < |lines| && 0 <= j < |lines[i]| :: lines[i][j] != '\n'
    ensures Count(Concat(Terminated(lines)), '\n') == |lines|
    decreases |lines|
  {
    if lines != [] {
      var n := |lines|;
      var front := lines[..n - 1];
      assert Terminated(lines)[..n - 1] == Terminated(front);
      TerminatedLineFeeds(front);
      CountAppend(Concat(Terminated(front)), lines[n - 1] + ERASE_LINE_NEWLINE, '\n');
      CountAppend(lines[n - 1], ERASE_LINE_NEWLINE, '\n');
      CountAbsent(lines[n - 1], '\n');
      EraseLineNewlineHasOneLineFeed();
    }
  }

  lemma EraseLineNewlineHasOneLineFeed()
    ensures Count(ERASE_LINE_NEWLINE, '\n') == 1
  {
    var s := ERASE_LINE_NEWLINE;
    assert s[..|s| - 1] == "\U{1b}[K\r";
    CountAbsent("\U{1b}[K\r", '\n');
  }

  /** `draw_content` writes exactly `rows` lines: its output holds one line
      feed per window row when the content lines hold none. */
  lemma ContentRowCount(s: EditorState)
    requires NoLineFeeds(s.content)
    ensures Count(ContentRows(s), '\n') == s.rows
  {
    var lines := VisibleLines(s);
    forall i, j | 0 <= i < |lines| && 0 <= j < |lines[i]|
      ensures lines[i][j] != '\n'
    {
      if s.offsetY + i < |s.content| {
        assert lines[i] == s.content[s.offsetY + i];
      }
    }
    TerminatedLineFeeds(lines);
  }

  // ------------------------------------------------------------- status bar

  /** The left segment: product name and version, then the file label. */
  function StatusMessage(filename: string): string {
    STATUS_PREFIX + FileLabel(filename)
  }

  /** The right segment: "Line: " and cursor_y in decimal, then a space. */
  function InfoMessage(cursorY: nat): string {
    "Line: " + DecimalString(cursorY) + " "
  }

  function Spaces(n: nat): (r: string)
    ensures |r| == n && forall i | 0 <= i < n :: r[i] == ' '
  {
    seq(n, i => ' ')
  }

  /** Both segments fit in the terminal width together. */
  predicate StatusFits(filename: string, cursorY: nat, columns: nat) {
    |StatusMessage(filename)| + |InfoMessage(cursorY)| <= columns
  }

  /** `draw_status_bar` as the source writes it: the padding width is
      `columns - status.len() - info.len()` in `usize`, which panics (or,
      without overflow checks, wraps and makes `repeat` fail) as soon as the
      segments do not fit. None stands for that crash. */
  function StatusBarAsWritten(filename: string, cursorY: nat, columns: nat): (r: Option<string>)
    ensures r.None? <==> !StatusFits(filename, cursorY, columns)
    ensures r.Some? ==> |r.value| == |REVERSE_VIDEO| + columns + |RESET_ATTRIBUTES|
  {
    var status := StatusMessage(filename);
    var info := InfoMessage(cursorY);
    if columns < |status| || columns - |status| < |info| then None
    else Some(REVERSE_VIDEO + status + Spaces(columns - |status| - |info|) + info + RESET_ATTRIBUTES)
  }

  /** The status text of the corrected status bar: exactly `columns` cells,
      the two segments with spaces between them when they fit, and the
      leading `columns` characters of the segments when they do not. */
  function StatusText(filename: string, cursorY: nat, columns: nat): (t: string)
    ensures |t| == columns
    ensures var status := StatusMessage(filename);
            var info := InfoMessage(cursorY);
            StatusFits(filename, cursorY, columns) ==>
              t[..|status|] == status &&
              t[columns - |info|..] == info &&
              forall i | |status| <= i < columns - |info| :: t[i] == ' '
    ensures !StatusFits(filename, cursorY, columns) ==>
              t <= StatusMessage(filename) + InfoMessage(cursorY)
  {
    var status := StatusMessage(filename);
    var info := InfoMessage(cursorY);
    if |status| + |info| <= columns then
      var t := status + Spaces(columns - |status| - |info|) + info;
      assert t[..|status|] == status;
      assert t[columns - |info|..] == info;
      t
    else (status + info)[..columns]
  }

  /** The status bar: the status text between reverse video on and off, so
      the text between the two markers is exactly `columns` long. */
  function StatusBar(filename: string, cursorY: nat, columns: nat): (bar: string)
    ensures |bar| == |REVERSE_VIDEO| + columns + |RESET_ATTRIBUTES|
    ensures bar[..|REVERSE_VIDEO|] == REVERSE_VIDEO
    ensures bar[|bar| - |RESET_ATTRIBUTES|..] == RESET_ATTRIBUTES
  {
    var bar := REVERSE_VIDEO + StatusText(filename, cursorY, columns) + RESET_ATTRIBUTES;
    assert bar[..|REVERSE_VIDEO|] == REVERSE_VIDEO;
    assert bar[|bar| - |RESET_ATTRIBUTES|..] == RESET_ATTRIBUTES;
    bar
  }

  /** Wherever the source's status bar does not crash, the corrected one is
      the same string. */
  lemma StatusBarMatchesSource(filename: string, cursorY: nat, columns: nat)
    requires StatusFits(filename, cursorY, columns)
    ensures StatusBarAsWritten(filename, cursorY, columns) == Some(StatusBar(filename, cursorY, columns))
  {
    var status := StatusMessage(filename);
    var info := InfoMessage(cursorY);
    var text := StatusText(filename, cursorY, columns);
    var pad := Spaces(columns - |status| - |info|);
    assert text == status + pad + info;
    calc {
      StatusBarAsWritten(filename, cursorY, columns);
      Some(REVERSE_VIDEO + status + pad + info + RESET_ATTRIBUTES);
      { assert REVERSE_VIDEO + status + pad + info == REVERSE_VIDEO + text; }
      Some(REVERSE_VIDEO + text + RESET_ATTRIBUTES);
      Some(StatusBar(filename, cursorY, columns));
    }
  }

  /** A status bar that fits for some line also fits for every line above
      it: the line counter only grows with the line number. */
  lemma StatusFitsAbove(filename: string, cursorY: nat, lowerY: nat, columns: nat)
    requires cursorY <= lowerY && StatusFits(filename, lowerY, columns)
    ensures StatusFits(filename, cursorY, columns)
  {
    DecimalLengthMonotonic(cursorY, lowerY);
  }

  /** Every terminal narrower than 54 columns crashes the source on its first
      frame: the prefix takes 45 cells, the file label at least 1 and the
      line counter at least 8. */
  lemma NarrowTerminalCrashes(filename: string, cursorY: nat, columns: nat)
    requires columns < 54
    ensures StatusBarAsWritten(filename, cursorY, columns).None?
  {
    assert |STATUS_PREFIX| == 45;
  }

  /** A 40-column terminal showing "a.txt" with the cursor on line 3: the
      segments need 45 + 5 + 8 = 58 cells, so the source's subtraction
      underflows; the corrected bar is 40 cells wide. */
  lemma FortyColumnStatusBar()
    ensures StatusBarAsWritten("a.txt", 3, 40).None?
    ensures |StatusText("a.txt", 3, 40)| == 40
  {
    assert |STATUS_PREFIX| == 45;
  }

  // ----------------------------------------------------------------- cursor

  /** CUP: put the terminal's cursor at the 1-based `row` and `column`. */
  function CursorPosition(row: nat, column: nat): string {
    "\U{1b}[" + DecimalString(row) + ";" + DecimalString(column) + "H"
  }

  /** The first position of c in s, if any. */
  function IndexOf(s: string, c: char): (r: Option<nat>)
    ensures r.Some? ==> r.value < |s| && s[r.value] == c &&
                        forall j | 0 <= j < r.value :: s[j] != c
    ensures r.None? ==> forall j | 0 <= j < |s| :: s[j] != c
  {
    if s == [] then None
    else if s[0] == c then Some(0)
    else match IndexOf(s[1..], c)
      case None => None
      case Some(i) => Some(i + 1)
  }

  /** Reads a CUP sequence back: `ESC [`, a numeral, `;`, a numeral, `H`. */
  function ParseCursorPosition(s: string): Option<(nat, nat)> {
    if |s| < 3 || s[..2] != "\U{1b}[" || s[|s| - 1] != 'H' then None
    else
      var body := s[2..|s| - 1];
      match IndexOf(body, ';')
      case None => None
      case Some(i) =>
        var row := body[..i];
        var column := body[i + 1..];
        if IsCanonical(row) && IsCanonical(column) then Some((DecimalValue(row), DecimalValue(column)))
        else None
  }

  /** A CUP sequence names the row and column it was written for. */
  lemma CursorPositionRoundTrip(row: nat, column: nat)
    ensures ParseCursorPosition(CursorPosition(row, column)) == Some((row, column))
  {
    var r := DecimalString(row);
    var c := DecimalString(column);
    var s := CursorPosition(row, column);
    var body := r + ";" + c;
    assert s[..2] == "\U{1b}[";
    assert s[2..|s| - 1] == body;
    assert body[|r|] == ';';
    assert IndexOf(body, ';') == Some(|r|);
    assert body[..|r|] == r;
    assert body[|r| + 1..] == c;
    DecimalRoundTrip(row);
    DecimalRoundTrip(column);
  }

  /** What `draw_cursor` appends: the cursor's row inside the window and its
      column, both 1-based. The source subtracts in `usize`, so the cursor
      must not sit above the window. */
  function CursorSequence(s: EditorState): (cup: string)
    requires s.offsetY <= s.cursorY
    ensures ParseCursorPosition(cup) == Some((s.cursorY - s.offsetY + 1, s.cursorX + 1))
  {
    CursorPositionRoundTrip(s.cursorY - s.offsetY + 1, s.cursorX + 1);
    CursorPosition(s.cursorY - s.offsetY + 1, s.cursorX + 1)
  }

  /** After `scroll`, the cursor is placed on a content row of the window,
      never on the status bar, within the terminal's columns, and on the
      screen row that shows the cursor's line (or its placeholder). */
  lemma CursorLandsOnItsLine(s: EditorState)
    requires s.rows >= 1 && HorizontalBound(s)
    ensures var t := Scroll(s);
            var p := ParseCursorPosition(CursorSequence(t));
            p.Some? &&
            1 <= p.value.0 <= t.rows && 1 <= p.value.1 <= t.columns &&
            p.value.1 == s.cursorX + 1 &&
            VisibleLines(t)[p.value.0 - 1] ==
              (if s.cursorY < |s.content| then s.content[s.cursorY] else PLACEHOLDER)
  {
    var t := Scroll(s);
    var row: nat := t.cursorY - t.offsetY;
    assert ParseCursorPosition(CursorSequence(t)) == Some((row + 1, t.cursorX + 1));
    assert VisibleLines(t)[row] == VisibleLine(t, row);
  }

  // ------------------------------------------------------------------ frame

  /** `refresh_screen`: cursor home, the window's rows, the status bar and
      the cursor placement, in that order. */
  function Frame(s: EditorState): (frame: string)
    requires s.offsetY <= s.cursorY
    ensures |frame| >= |CURSOR_TOP_LEFT| + |CursorSequence(s)|
    ensures frame[..|CURSOR_TOP_LEFT|] == CURSOR_TOP_LEFT
    ensures frame[|frame| - |CursorSequence(s)|..] == CursorSequence(s)
  {
    var cup := CursorSequence(s);
    var frame := CURSOR_TOP_LEFT + ContentRows(s) + StatusBar(s.filename, s.cursorY, s.columns) + cup;
    assert frame[..|CURSOR_TOP_LEFT|] == CURSOR_TOP_LEFT;
    assert frame[|frame| - |cup|..] == cup;
    frame
  }
}
