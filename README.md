# A verified model of a minimal terminal text viewer

The program loads a file's lines, puts the terminal in raw mode and draws a
scrolling window of the text with a status bar. The user moves a cursor with
the arrow, Home and End keys until pressing `q`. This project models the
deterministic core of that program in Dafny and proves properties of it:

- **Key decoder** (`InputDecoder`): `read_key` as a function over the
  pending input bytes. It skips zero bytes as `read` does. It returns the
  key and the number of bytes consumed, or nothing when the input ends
  before a key is complete (the program would then wait). CSI (`ESC [`)
  and SS3 (`ESC O`) sequences are recognised, including the VT220
  `ESC [ n ~` keys. An unrecognised sequence falls back to its last byte.
- **Keys and key codes** (`Keys`): a `Key` datatype in place of the
  program's `u16` codes. The codes are modelled too, and the two ranges are
  proved disjoint.
- **Viewport and cursor** (`Viewport`, `EditorApp.Editor`): `scroll`,
  `move_cursor` and `handle_key` as functions on an `EditorState` value.
  An `Editor` class updates the same fields in place, and each of its
  methods is proved equal to the corresponding function.
- **Frame renderer** (`Render`, `EditorApp`): content rows, status bar,
  file label and cursor placement, and `refresh_screen`'s concatenation
  order. The escape sequences are ECMA-48 CUP `ESC [ r ; c H` (section
  8.3.21), EL `ESC [ K` (section 8.3.41) and SGR `ESC [ 7 m` / `ESC [ 0 m`
  (section 8.3.117).
- **Main loop** (`MainLoop`): one turn (scroll, render, decode, dispatch)
  as a function, and bounded sessions of turns.
- **Basename** (`Paths`): `extract_filename` as a loop, proved against a
  predicate that fixes its result uniquely.

A `usize` subtraction that would underflow panics in a debug build of the
program. A release build wraps instead: on a one-row terminal, for
example, `cursor_y - offset_y + 1` in `draw_cursor` wraps to 0 and the
program keeps running with a meaningless CUP row. Each such subtraction is
modelled as a `requires`, which rules out both behaviours:

- `End` and `ArrowRight` need `columns >= 1`.
- `draw_cursor` needs `offset_y <= cursor_y`.
- `set_window_size` needs a terminal of at least one row.

The one exception is the status bar. It is reported under Findings and
modelled both as written and corrected. The frame, the turn and the session
use the corrected bar. `MainLoop.StepAsWritten` and
`MainLoop.SessionAsWritten` model the program's turn and session, including
the panic.

## Model

| member | source | states |
|---|---|---|
| Keys.KeyCode | src/main.rs:14-22 | Literal keys get codes below 256 and named keys get codes 1000..1008. The ranges are disjoint, every code fits in `u16`, and every code is a valid `char`, so the `unwrap` in `handle_key` cannot fail. |
| Keys.KeyCodeRoundTrip | src/main.rs:14-22 | Reading a key's code back gives the key. |
| Keys.KeyFromCodeRoundTrip | src/main.rs:14-22 | Every code that names a key is that key's code. |
| Keys.KeyCodeInjective | src/main.rs:14-22 | Two keys with the same code are the same key. |
| Keys.DispatchOnCodes | src/main.rs:257-265 | Testing the raw code against 'q' holds exactly for the literal `q`. Testing membership in the six-code list holds exactly for the six navigation keys. |
| InputDecoder.ReadByte | src/main.rs:306-316 | Returns the first non-zero byte at or after the position and the position after it. Every byte skipped is zero. It returns nothing exactly when only zero bytes remain. |
| InputDecoder.ReadKey | src/main.rs:210-255 | A decoded key consumes between 1 and the available bytes. A literal never carries byte 0. |
| InputDecoder.DecodeEncoded | src/main.rs:210-255 | Each key's terminal byte sequence decodes to that key, whatever follows, and consumes exactly its own length. |
| InputDecoder.DecodeSingleByte | src/main.rs:211-214 | A non-zero, non-ESC first byte is `Literal(b)` and consumes 1 byte. |
| InputDecoder.DecodeCsiLetters | src/main.rs:221-229 | `ESC [ A/B/C/D/H/F` decode to ArrowUp, ArrowDown, ArrowRight, ArrowLeft, Home and End, 3 bytes each. |
| InputDecoder.DecodeSs3 | src/main.rs:247-253 | `ESC O H` is Home and `ESC O F` is End. Any other third byte is a literal. All consume 3 bytes. |
| InputDecoder.DecodeEscFallback | src/main.rs:216-219 | ESC followed by a byte other than `[` or `O` yields that byte as a literal and consumes 2 bytes. |
| InputDecoder.DecodeTilde | src/main.rs:230-244 | `ESC [ d ~` consumes 4 bytes. Digit 1 or 7 gives Home, 3 gives Delete, 4 or 8 gives End, 5 gives PageUp, 6 gives PageDown, and any other digit gives itself as a literal. |
| InputDecoder.DecodeCsiDigitFallback | src/main.rs:231-234 | `ESC [ d x` with `x` not `~` yields `Literal(x)` and consumes 4 bytes. |
| InputDecoder.DecodeCsiOther | src/main.rs:245 | `ESC [ x` with `x` neither one of `A B C D H F` nor a digit yields `Literal(x)` and consumes 3 bytes. |
| InputDecoder.ReadKeyExtends | src/main.rs:210-255 | Appending more input does not change a decoded key or its count. |
| InputDecoder.ReadKeyWithin | src/main.rs:210-255 | Decoding only the consumed bytes gives the same result. |
| InputDecoder.DecodesConsumedPrefixOnly | src/main.rs:210-255 | The consumed prefix followed by any other bytes decodes the same way, so no input beyond the key is read. |
| InputDecoder.ConsumedAtMostFour | src/main.rs:210-255 | On input without zero bytes, a key takes at most 4 bytes. |
| InputDecoder.ReadByteNoZeros | src/main.rs:309-315 | On a non-zero byte, `read` takes exactly that byte. |
| InputDecoder.LeadingZerosSkipped | src/main.rs:309-313 | Zero bytes before a key leave the key unchanged and are counted as consumed. |
| Decimal.DecimalString | src/main.rs:159 | `to_string` gives a non-empty string of digits with no leading zero. |
| Decimal.DecimalRoundTrip | src/main.rs:159 | Reading the numeral back gives the number. |
| Decimal.CanonicalRoundTrip | src/main.rs:159 | Every canonical numeral is the one written for its value. |
| Decimal.DecimalStringInjective | src/main.rs:159 | Different line numbers are written differently. |
| Decimal.DecimalLengthMonotonic | src/main.rs:159 | A larger line number never has a shorter numeral. |
| Paths.ExtractFilename | src/main.rs:83-93 | The result is a suffix of the path with no `/`. It is either the whole path or preceded by `/`. |
| Paths.BasenameUnique | src/main.rs:83-93 | Only one string satisfies that description, so the contract fixes the result. |
| Paths.NoSlashIsWholePath | src/main.rs:83-93 | A path with no `/` is returned whole. |
| Paths.BasenameIdempotent | src/main.rs:83-93 | Taking the basename of a basename changes nothing. |
| Viewport.Scroll | src/main.rs:135-141 | Only `offset_y` changes. With `rows >= 1`, afterwards `offset_y <= cursor_y < offset_y + rows`. A cursor that was already visible leaves the state unchanged. The branch that scrolls down is taken only when `rows <= cursor_y`, so the left-to-right `cursor_y - rows` cannot underflow. |
| Viewport.ScrollMovesLeast | src/main.rs:135-141 | Among all offsets that show the cursor, `scroll` picks one nearest the old offset. |
| Viewport.ScrollIdempotent | src/main.rs:135-141 | Scrolling twice is the same as scrolling once. |
| Viewport.MoveCursor | src/main.rs:278-304 | Only the cursor changes. ArrowUp and ArrowDown change only `cursor_y`, by at most one. ArrowLeft, ArrowRight, Home and End change only `cursor_x`, and the arrows by at most one. Other keys are ignored. `cursor_y <= \|content\|` and `cursor_x <= columns - 1` are preserved. |
| Viewport.ArrowsStopAtBounds | src/main.rs:280-299 | Each arrow moves the cursor by one unless it is already at the bound it is heading for. |
| Viewport.HomeAndEnd | src/main.rs:300-301 | Home sets `cursor_x` to 0 and End sets it to `columns - 1`. |
| Viewport.Dispatch | src/main.rs:257-265 | Only literal `q` quits, with output `ESC[2J ESC[H` and status 0. The six navigation keys move the cursor. Delete, PageUp, PageDown and every other literal leave the state unchanged. |
| Viewport.RunKeepsBounds | src/main.rs:257-304 | After any sequence of keys, `cursor_y` stays in `[0, \|content\|]` and `cursor_x` in `[0, columns - 1]`. Nothing but the cursor ever changes. |
| Viewport.RunQuitsOnQ | src/main.rs:260-261 | A key sequence that contains `q` ends in exit with status 0. |
| Viewport.RunContinuesWithoutQ | src/main.rs:257-265 | A key sequence without `q` never exits. |
| Viewport.ArrowDownClamps | src/main.rs:285-289 | n ArrowDown presses leave `cursor_y = min(cursor_y + n, \|content\|)`. |
| Viewport.ArrowUpClamps | src/main.rs:280-284 | n ArrowUp presses leave `cursor_y = max(cursor_y - n, 0)`. |
| Viewport.ArrowRightClamps | src/main.rs:295-299 | n ArrowRight presses leave `cursor_x = min(cursor_x + n, columns - 1)`. |
| Viewport.ArrowLeftClamps | src/main.rs:290-294 | n ArrowLeft presses leave `cursor_x = max(cursor_x - n, 0)`. |
| Viewport.ThreeLinesFiveDowns | src/main.rs:285-289 | On a 3-line file, 5 ArrowDown presses leave `cursor_y == 3`. |
| Render.FileLabel | src/main.rs:172-178 | The label shown is never empty. It is the filename whenever there is one, and `New File` when the filename is empty. |
| Render.VisibleLinesAreWindow | src/main.rs:180-192 | The window shows `content[offset_y..]`, as much as fits in `rows`, followed by `~` placeholders for the rest. |
| Render.ContentRowAt | src/main.rs:180-192 | Output row i is window line i followed by `ESC[K\r\n`. It sits between rows 0..i-1 and the rows after it. |
| Render.ContentRowCount | src/main.rs:180-192 | When the lines hold no line feed (as `BufReader::lines` yields them), the output holds exactly `rows` line feeds. |
| Render.StatusBarAsWritten | src/main.rs:154-170 | The program's status bar exists exactly when both segments fit in `columns`. Otherwise the `usize` subtraction crashes. When it exists, its length is `columns` plus the two SGR markers. |
| Render.StatusText | src/main.rs:154-170 | Exactly `columns` characters. When the segments fit, it is the prefix and file label, then spaces, then `Line: <cursor_y> `. Otherwise it is a prefix of the two segments. |
| Render.StatusBar | src/main.rs:162-169 | Starts with `ESC[7m` and ends with `ESC[0m`, with exactly `columns` characters between them. |
| Render.StatusBarMatchesSource | src/main.rs:154-170 | Wherever the program's status bar does not crash, the corrected one is the same string. |
| Render.StatusFitsAbove | src/main.rs:159-165 | If the program's status bar fits for some line, it fits for every line above it. |
| Render.NarrowTerminalCrashes | src/main.rs:164-167 | Any terminal narrower than 54 columns crashes the program's status bar, whatever the file and line. |
| Render.FortyColumnStatusBar | src/main.rs:164-167 | With 40 columns, filename `a.txt` and cursor line 3, the program's status bar crashes. The corrected text is 40 characters. |
| Render.CursorPositionRoundTrip | src/main.rs:199-208 | The CUP sequence `ESC[r;cH` parses back to the row and column it was written for. |
| Render.CursorSequence | src/main.rs:199-208 | The sequence `draw_cursor` appends parses back as CUP to row `cursor_y - offset_y + 1` and column `cursor_x + 1`. |
| Render.CursorLandsOnItsLine | src/main.rs:199-208 | After `scroll`, the cursor is placed on a screen row in `1..rows`, never on the status bar, in a column in `1..columns`. That row shows the cursor's line, or `~` past the end. |
| Render.Frame | src/main.rs:143-152 | With the corrected status bar, a frame starts with cursor home, `ESC[H`, and ends with the state's cursor sequence. |
| MainLoop.React | src/main.rs:51-56 | A turn waits exactly when no key can be decoded. Otherwise it consumes between 1 and the available bytes. |
| MainLoop.Step | src/main.rs:51-56 | With the corrected status bar, one turn's frame starts with cursor home and ends with the cursor sequence of the scrolled state. The turn waits exactly when no key can be decoded, and quits exactly when the key is `q`. |
| MainLoop.StepAsWritten | src/main.rs:51-56 | A turn as the program runs it panics before reading a key exactly when the status segments do not fit. Otherwise it is the turn `MainLoop.Step` describes. |
| MainLoop.ReactQuitsOnlyOnQ | src/main.rs:257-261 | A turn exits exactly when the decoded key is `q`, and then with status 0. |
| MainLoop.ReactKeepsBounds | src/main.rs:51-56 | The scrolled state shows the cursor. After a key that does not quit, `rows` and `columns` are those of the old state, the cursor bounds hold, content and filename are kept and the offset is the scrolled one. |
| MainLoop.SessionKeepsBounds | src/main.rs:51-56 | With the corrected status bar, after any number of turns over any input, the cursor is within bounds and content and width are unchanged. Any exit has status 0. |
| MainLoop.Session | src/main.rs:51-56 | With the corrected status bar: zero turns leave the state as it is. A session still waiting keeps content, filename, `rows` and `columns`. A session that exited did so with status 0. |
| MainLoop.SessionAsWritten | src/main.rs:51-56 | A session as the program runs it: zero turns leave the state as it is. A first frame whose status segments do not fit ends it with panic status 101. Every exit has status 0 or 101. |
| MainLoop.NarrowTerminalPanicsFirst | src/main.rs:164-167 | On any terminal narrower than 54 columns, the program panics on its first frame, before reading a key, so not even `q` exits with status 0. |
| MainLoop.SessionAsWrittenAgrees | src/main.rs:51-56 | When the status bar fits even for the last line the cursor can reach, the program's session is exactly `MainLoop.Session`, so its exits all have status 0. |
| EditorApp.MoveCursorToTopLeft | src/main.rs:194-197 | Appends CUP home, `ESC[H`. |
| EditorApp.Editor.constructor | src/main.rs:36-49 | The editor starts at cursor (0, 0) and offset 0, holding the loaded lines and filename. `rows` is the terminal height minus one. |
| EditorApp.Editor.Scroll | src/main.rs:135-141 | The new fields are `Viewport.Scroll` of the old ones. |
| EditorApp.Editor.MoveCursor | src/main.rs:278-304 | The new fields are `Viewport.MoveCursor` of the old ones. |
| EditorApp.Editor.HandleKey | src/main.rs:257-276 | Quits (fields unchanged, exit output and status returned) or continues with the new fields, exactly as `Viewport.Dispatch` says. |
| EditorApp.Editor.DrawContent | src/main.rs:180-192 | The loop appends exactly `Render.ContentRows` of the state. |
| EditorApp.Editor.DrawStatusBar | src/main.rs:154-170 | Appends the corrected `Render.StatusBar`. |
| EditorApp.Editor.DrawCursor | src/main.rs:199-208 | Appends CUP to row `cursor_y - offset_y + 1`, column `cursor_x + 1`. |
| EditorApp.Editor.RefreshScreen | src/main.rs:143-152 | With the corrected status bar, the frame is cursor home, then content rows, then status bar, then cursor placement, in that order. |
| EditorApp.Editor.Tick | src/main.rs:51-56 | One loop turn equals `MainLoop.Step`. Afterwards the fields hold the dispatched state, or the scrolled state when the program waits or quits. |

## Left out

- Raw mode and the saved `termios` value (`enable_raw_mode` and the restore in `exit`) are left out. They are foreign `libc` calls on flag fields with no logic to verify. Quitting is modelled as an outcome that carries the output written and the exit status.
- `set_window_size` is left out. The terminal size comes from an external crate, so it is a constructor parameter.
- `open_editor` is left out. It does file I/O and reads the command line, so `content` and `filename` are given. `extract_filename` is modelled.
- `read` and `write` are left out as I/O. `read` is modelled as consuming a byte sequence, with its zero-byte skipping. Frames are returned as strings instead of being written and flushed.
- `main`'s endless loop is modelled as one turn (`MainLoop.Step`) and as sessions bounded by a number of turns.
- Render.StatusText: counts characters where Rust's `len()` counts UTF-8 bytes. For a non-ASCII filename the program pads by bytes and the model by characters. Content lines are modelled the same way.
- Render.StatusBarAsWritten: its fit test counts characters, not UTF-8 bytes, so for a non-ASCII filename it may accept a width the program rejects.
- EditorApp.Editor.DrawStatusBar: pads by characters, not UTF-8 bytes, like `Render.StatusText`.
- Viewport.Scroll: uses unbounded integers. Wrap-around of `rows + offset_y` and `cursor_y + 1` at 2^64 is not modelled.
- EditorApp.Editor.DrawStatusBar: models the corrected status bar, not the crashing one. The program as written is `Render.StatusBarAsWritten`.
- MainLoop.React: requires a terminal with at least one column and one content row. Without a row, a debug build panics in `draw_cursor` and a release build wraps the CUP row to 0. The status bar as written crashes on the first frame below 54 columns, or whenever the two segments do not fit.
- Render.Frame: renders the corrected status bar. The program as written panics on the first frame whenever `StatusFits` fails; that panic is `MainLoop.StepAsWritten`.
- EditorApp.Editor.RefreshScreen: builds the frame with the corrected status bar, so it returns a frame where the program's `refresh_screen` panics whenever `StatusFits` fails.
- MainLoop.Step: uses the corrected frame, so its "quits exactly on `q`" also covers states where the program panics before reading a key. `MainLoop.StepAsWritten` models the program's turn.
- EditorApp.Editor.Tick: equals `MainLoop.Step`, so a turn that the program ends by a panic is modelled as waiting, continuing or quitting with status 0.
- MainLoop.Session: runs the corrected turn, so its exit status is always 0. The program exits with panic status 101 on the first frame whose status bar does not fit, which is `MainLoop.SessionAsWritten`.
- MainLoop.SessionKeepsBounds: its "any exit has status 0" holds for the corrected session only. For the program it holds when the status bar fits for every reachable line (`MainLoop.SessionAsWrittenAgrees`).

## Findings

| source | as written | input that shows it | evidently intended | confidence | as-written member | corrected member |
|---|---|---|---|---|---|---|
| src/main.rs:164-167 | The padding width is `editor.columns - status_message.len() - info_message.len()` in `usize`. It underflows: a panic in a debug build (or, in a release build without overflow checks, a wrapped width that makes `repeat` fail), whenever the two segments are wider than the terminal. | `columns = 40`, filename `a.txt`, `cursor_y = 3`: the segments need 45 + 5 + 8 = 58 cells. Any terminal narrower than 54 columns crashes on the first frame. | The status bar fills exactly `columns` cells at every terminal width. | high; not executed | Render.StatusBarAsWritten | Render.StatusBar |
