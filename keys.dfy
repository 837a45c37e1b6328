/** The logical keys the editor reacts to, and the 16-bit key codes the
    program uses for them (src/main.rs, constants ARROW_UP .. PAGE_DOWN). */
module Keys {
  import opened Wrappers

  /** One input byte, as delivered by a one-byte read of standard input. */
  type byte = x: int | 0 <= x < 256

  // Byte values that the decoder and the dispatcher compare against.
  const ESC: byte := 0x1b
  const LEFT_BRACKET: byte := 0x5b  // '['
  const LETTER_O: byte := 0x4f      // 'O'
  const TILDE: byte := 0x7e         // '~'
  const LETTER_Q: byte := 0x71      // 'q'

  /** A decoded key: a literal byte, or one of the named navigation keys. */
  datatype Key =
    | Literal(b: byte)
    | ArrowUp
    | ArrowDown
    | ArrowRight
    | ArrowLeft
    | Home
    | End
    | Delete
    | PageUp
    | PageDown
  {
    /** The six keys that move the cursor. */
    predicate IsNavigation() {
      ArrowUp? || ArrowDown? || ArrowLeft? || ArrowRight? || Home? || End?
    }
  }

  // The source's key codes: byte values stay below 256, named keys start at 1000.
  const ARROW_UP_CODE: nat := 1000
  const ARROW_DOWN_CODE: nat := 1001
  const ARROW_RIGHT_CODE: nat := 1002
  const ARROW_LEFT_CODE: nat := 1003
  const HOME_CODE: nat := 1004
  const END_CODE: nat := 1005
  const DELETE_CODE: nat := 1006
  const PAGE_UP_CODE: nat := 1007
  const PAGE_DOWN_CODE: nat := 1008

  /** The `u16` value `read_key` returns for a key. Literal bytes and named
      keys occupy disjoint ranges, and every code is a Unicode scalar value,
      so the `char::from_u32(..).unwrap()` in `handle_key` cannot fail. */
  function KeyCode(k: Key): (c: nat)
    ensures c < 0x1_0000 && c < 0xD800
    ensures k.Literal? <==> c < 256
    ensures !k.Literal? <==> ARROW_UP_CODE <= c <= PAGE_DOWN_CODE
    ensures k.Literal? ==> c == k.b
  {
    match k
    case Literal(b) => b
    case ArrowUp => ARROW_UP_CODE
    case ArrowDown => ARROW_DOWN_CODE
    case ArrowRight => ARROW_RIGHT_CODE
    case ArrowLeft => ARROW_LEFT_CODE
    case Home => HOME_CODE
    case End => END_CODE
    case Delete => DELETE_CODE
    case PageUp => PAGE_UP_CODE
    case PageDown => PAGE_DOWN_CODE
  }

  /** Reads a key code back as a key; None for codes `read_key` never returns. */
  function KeyFromCode(c: nat): Option<Key> {
    if c < 256 then Some(Literal(c))
    else if c == ARROW_UP_CODE then Some(ArrowUp)
    else if c == ARROW_DOWN_CODE then Some(ArrowDown)
    else if c == ARROW_RIGHT_CODE then Some(ArrowRight)
    else if c == ARROW_LEFT_CODE then Some(ArrowLeft)
    else if c == HOME_CODE then Some(Home)
    else if c == END_CODE then Some(End)
    else if c == DELETE_CODE then Some(Delete)
    else if c == PAGE_UP_CODE then Some(PageUp)
    else if c == PAGE_DOWN_CODE then Some(PageDown)
    else None
  }

  /** The code of a key determines the key. */
  lemma KeyCodeRoundTrip(k: Key)
    ensures KeyFromCode(KeyCode(k)) == Some(k)
  {
  }

  /** Every code that names a key is that key's code. */
  lemma KeyFromCodeRoundTrip(c: nat)
    requires KeyFromCode(c).Some?
    ensures KeyCode(KeyFromCode(c).value) == c
  {
  }

  /** Two keys with the same code are the same key. */
  lemma {:induction false} KeyCodeInjective(j: Key, k: Key)
    requires KeyCode(j) == KeyCode(k)
    ensures j == k
  {
    KeyCodeRoundTrip(j);
    KeyCodeRoundTrip(k);
  }

  /** `handle_key`'s quit test on the raw code: the code converts to 'q'. */
  predicate IsQuitCode(c: nat) {
    c == LETTER_Q
  }

  /** `handle_key`'s membership test in the list of six navigation codes. */
  predicate IsNavigationCode(c: nat) {
    c == ARROW_UP_CODE || c == ARROW_DOWN_CODE || c == ARROW_LEFT_CODE ||
    c == ARROW_RIGHT_CODE || c == HOME_CODE || c == END_CODE
  }

  /** Dispatching on codes, as the source does, is dispatching on keys:
      only the literal 'q' quits, and exactly the six navigation keys move. */
  lemma DispatchOnCodes(k: Key)
    ensures IsQuitCode(KeyCode(k)) <==> k == Literal(LETTER_Q)
    ensures IsNavigationCode(KeyCode(k)) <==> k.IsNavigation()
  {
  }
}
