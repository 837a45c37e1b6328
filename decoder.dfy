/** The input decoder: `read_key` turns the bytes arriving on standard input
    into one logical key, recognising CSI (`ESC [`) and SS3 (`ESC O`)
    navigation sequences and falling back to the last byte read. */
module InputDecoder {
  import opened Wrappers
  import opened Keys

  /** A decoded key and the number of input bytes taken to produce it,
      counting the zero bytes that `read` skipped on the way. */
  datatype Decoded = Decoded(key: Key, consumed: nat)

  // Further byte values that appear in the sequences.
  const LETTER_A: byte := 0x41
  const LETTER_B: byte := 0x42
  const LETTER_C: byte := 0x43
  const LETTER_D: byte := 0x44
  const LETTER_F: byte := 0x46
  const LETTER_H: byte := 0x48
  const DIGIT_1: byte := 0x31
  const DIGIT_3: byte := 0x33
  const DIGIT_4: byte := 0x34
  const DIGIT_5: byte := 0x35
  const DIGIT_6: byte := 0x36
  const DIGIT_7: byte := 0x37
  const DIGIT_8: byte := 0x38

  predicate IsDigit(b: byte) {
    0x30 <= b <= 0x39
  }

  /** `read`: the first non-zero byte at or after `pos` and the position just
      past it. A zero byte (or a read that timed out) is skipped; when only
      zero bytes remain the source keeps waiting, which is None here. */
  function ReadByte(input: seq<byte>, pos: nat): (r: Option<(byte, nat)>)
    requires pos <= |input|
    decreases |input| - pos
    ensures r.Some? ==> pos < r.value.1 <= |input|
    ensures r.Some? ==> r.value.0 != 0 && r.value.0 == input[r.value.1 - 1]
    ensures r.Some? ==> forall i | pos <= i < r.value.1 - 1 :: input[i] == 0
    ensures r.None? <==> forall i | pos <= i < |input| :: input[i] == 0
  {
    if pos == |input| then None
    else if input[pos] != 0 then Some((input[pos], pos + 1))
    else ReadByte(input, pos + 1)
  }

  /** The key an `ESC [ d ~` sequence names, for a digit d. */
  function TildeKey(d: byte): Key {
    if d == DIGIT_1 || d == DIGIT_7 then Home
    else if d == DIGIT_3 then Delete
    else if d == DIGIT_4 || d == DIGIT_8 then End
    else if d == DIGIT_5 then PageUp
    else if d == DIGIT_6 then PageDown
    else Literal(d)
  }

  /** The key after `ESC O`: Home, End, or the third byte itself. */
  function Ss3Key(third: byte): Key {
    if third == LETTER_H then Home
    else if third == LETTER_F then End
    else Literal(third)
  }

  /** The rest of a CSI sequence, once `ESC [ third` has been read and the
      input position is `pos`. */
  function CsiKey(input: seq<byte>, third: byte, pos: nat): Option<Decoded>
    requires pos <= |input|
  {
    if third == LETTER_A then Some(Decoded(ArrowUp, pos))
    else if third == LETTER_B then Some(Decoded(ArrowDown, pos))
    else if third == LETTER_C then Some(Decoded(ArrowRight, pos))
    else if third == LETTER_D then Some(Decoded(ArrowLeft, pos))
    else if third == LETTER_H then Some(Decoded(Home, pos))
    else if third == LETTER_F then Some(Decoded(End, pos))
    else if IsDigit(third) then
      match ReadByte(input, pos)
      case None => None
      case Some((fourth, next)) =>
        if fourth != TILDE then Some(Decoded(Literal(fourth), next))
        else Some(Decoded(TildeKey(third), next))
    else Some(Decoded(Literal(third), pos))
  }

  /** The key after `ESC second`, read from `pos` on: a CSI sequence for
      `[`, an SS3 sequence for `O`. */
  function IntroducedKey(input: seq<byte>, second: byte, pos: nat): Option<Decoded>
    requires pos <= |input|
  {
    match ReadByte(input, pos)
    case None => None
    case Some((third, next)) =>
      if second == LEFT_BRACKET then CsiKey(input, third, next)
      else Some(Decoded(Ss3Key(third), next))
  }

  /** The key after an ESC byte, read from `pos` on. */
  function EscapedKey(input: seq<byte>, pos: nat): Option<Decoded>
    requires pos <= |input|
  {
    match ReadByte(input, pos)
    case None => None
    case Some((second, next)) =>
      if second != LEFT_BRACKET && second != LETTER_O then Some(Decoded(Literal(second), next))
      else IntroducedKey(input, second, next)
  }

  /** `read_key` over the bytes still to come. None when the input ends
      before a key is complete (the source then blocks in `read`). A key
      always takes at least one byte, never more than there are, and a
      literal never carries the zero byte, which `read` skips. */
  function ReadKey(input: seq<byte>): (r: Option<Decoded>)
    ensures r.Some? ==> 1 <= r.value.consumed <= |input|
    ensures r.Some? ==> r.value.key != Literal(0)
  {
    match ReadByte(input, 0)
    case None => None
    case Some((first, next)) =>
      if first != ESC then Some(Decoded(Literal(first), next))
      else EscapedKey(input, next)
  }

  /** The bytes a terminal sends for a key, one choice per key (Home and End
      also have SS3 and `~` forms). Literal ESC is sent as ESC ESC. */
  function Encode(k: Key): seq<byte>
    requires k != Literal(0)
  {
    match k
    case Literal(b) => if b == ESC then [ESC, ESC] else [b]
    case ArrowUp => [ESC, LEFT_BRACKET, LETTER_A]
    case ArrowDown => [ESC, LEFT_BRACKET, LETTER_B]
    case ArrowRight => [ESC, LEFT_BRACKET, LETTER_C]
    case ArrowLeft => [ESC, LEFT_BRACKET, LETTER_D]
    case Home => [ESC, LEFT_BRACKET, LETTER_H]
    case End => [ESC, LEFT_BRACKET, LETTER_F]
    case Delete => [ESC, LEFT_BRACKET, DIGIT_3, TILDE]
    case PageUp => [ESC, LEFT_BRACKET, DIGIT_5, TILDE]
    case PageDown => [ESC, LEFT_BRACKET, DIGIT_6, TILDE]
  }

  /** Decoding undoes encoding, whatever follows, and consumes exactly the
      encoded bytes. */
  lemma {:induction false} DecodeEncoded(k: Key, rest: seq<byte>)
    requires k != Literal(0)
    ensures ReadKey(Encode(k) + rest) == Some(Decoded(k, |Encode(k)|))
  {
    var s := Encode(k) + rest;
    assert s[0] == Encode(k)[0];
    if |Encode(k)| >= 2 {
      assert s[1] == Encode(k)[1];
    }
    if |Encode(k)| >= 3 {
      assert s[2] == Encode(k)[2];
    }
    if |Encode(k)| == 4 {
      assert s[3] == Encode(k)[3];
    }
  }

  /** A non-escape, non-zero byte is a literal key of one byte. */
  lemma DecodeSingleByte(b: byte, rest: seq<byte>)
    requires b != 0 && b != ESC
    ensures ReadKey([b] + rest) == Some(Decoded(Literal(b), 1))
  {
    assert ([b] + rest)[0] == b;
  }

  /** The six CSI letter sequences, three bytes each. */
  lemma DecodeCsiLetters(rest: seq<byte>)
    ensures ReadKey([ESC, LEFT_BRACKET, LETTER_A] + rest) == Some(Decoded(ArrowUp, 3))
    ensures ReadKey([ESC, LEFT_BRACKET, LETTER_B] + rest) == Some(Decoded(ArrowDown, 3))
    ensures ReadKey([ESC, LEFT_BRACKET, LETTER_C] + rest) == Some(Decoded(ArrowRight, 3))
    ensures ReadKey([ESC, LEFT_BRACKET, LETTER_D] + rest) == Some(Decoded(ArrowLeft, 3))
    ensures ReadKey([ESC, LEFT_BRACKET, LETTER_H] + rest) == Some(Decoded(Home, 3))
    ensures ReadKey([ESC, LEFT_BRACKET, LETTER_F] + rest) == Some(Decoded(End, 3))
  {
    DecodeEncoded(ArrowUp, rest);
    DecodeEncoded(ArrowDown, rest);
    DecodeEncoded(ArrowRight, rest);
    DecodeEncoded(ArrowLeft, rest);
    DecodeEncoded(Home, rest);
    DecodeEncoded(End, rest);
  }

  /** The SS3 forms: `ESC O H` is Home, `ESC O F` is End, and any other
      non-zero third byte is returned as a literal. */
  lemma DecodeSs3(third: byte, rest: seq<byte>)
    requires third != 0
    ensures ReadKey([ESC, LETTER_O, third] + rest) ==
            Some(Decoded(if third == LETTER_H then Home
                         else if third == LETTER_F then End
                         else Literal(third), 3))
  {
    var s := [ESC, LETTER_O, third] + rest;
    assert s[0] == ESC && s[1] == LETTER_O && s[2] == third;
  }

  /** ESC followed by anything but `[` or `O` yields that byte, two bytes
      consumed; in particular ESC q (Alt-q) decodes to the quit key. */
  lemma DecodeEscFallback(second: byte, rest: seq<byte>)
    requires second != 0 && second != LEFT_BRACKET && second != LETTER_O
    ensures ReadKey([ESC, second] + rest) == Some(Decoded(Literal(second), 2))
  {
    var s := [ESC, second] + rest;
    assert s[0] == ESC && s[1] == second;
  }

  /** `ESC [ x` with x neither a letter key nor a digit: x is returned as a
      literal after three bytes. */
  lemma DecodeCsiOther(third: byte, rest: seq<byte>)
    requires third != 0 && !IsDigit(third)
    requires third !in {LETTER_A, LETTER_B, LETTER_C, LETTER_D, LETTER_H, LETTER_F}
    ensures ReadKey([ESC, LEFT_BRACKET, third] + rest) == Some(Decoded(Literal(third), 3))
  {
    var s := [ESC, LEFT_BRACKET, third] + rest;
    assert s[0] == ESC && s[1] == LEFT_BRACKET && s[2] == third;
  }

  /** `ESC [ d ~` for a digit d: four bytes, mapped by the digit. */
  lemma DecodeTilde(d: byte, rest: seq<byte>)
    requires IsDigit(d)
    ensures ReadKey([ESC, LEFT_BRACKET, d, TILDE] + rest).Some?
    ensures var r := ReadKey([ESC, LEFT_BRACKET, d, TILDE] + rest).value;
            r.consumed == 4 &&
            (d == DIGIT_1 || d == DIGIT_7 ==> r.key == Home) &&
            (d == DIGIT_3 ==> r.key == Delete) &&
            (d == DIGIT_4 || d == DIGIT_8 ==> r.key == End) &&
            (d == DIGIT_5 ==> r.key == PageUp) &&
            (d == DIGIT_6 ==> r.key == PageDown) &&
            (d !in {DIGIT_1, DIGIT_3, DIGIT_4, DIGIT_5, DIGIT_6, DIGIT_7, DIGIT_8} ==> r.key == Literal(d))
  {
    var s := [ESC, LEFT_BRACKET, d, TILDE] + rest;
    assert s[0] == ESC && s[1] == LEFT_BRACKET && s[2] == d && s[3] == TILDE;
  }

  /** `ESC [ d x` with x not `~`: the fourth byte is returned as a literal. */
  lemma DecodeCsiDigitFallback(d: byte, x: byte, rest: seq<byte>)
    requires IsDigit(d) && x != 0 && x != TILDE
    ensures ReadKey([ESC, LEFT_BRACKET, d, x] + rest) == Some(Decoded(Literal(x), 4))
  {
    var s := [ESC, LEFT_BRACKET, d, x] + rest;
    assert s[0] == ESC && s[1] == LEFT_BRACKET && s[2] == d && s[3] == x;
  }

  /** `read` is not disturbed by bytes appended after the one it returns. */
  lemma {:induction false} ReadByteExtends(input: seq<byte>, more: seq<byte>, pos: nat)
    requires pos <= |input| && ReadByte(input, pos).Some?
    ensures ReadByte(input + more, pos) == ReadByte(input, pos)
    decreases |input| - pos
  {
    assert (input + more)[pos] == input[pos];
    if input[pos] == 0 {
      ReadByteExtends(input, more, pos + 1);
    }
  }

  /** `read` only looks at the input up to the byte it returns. */
  lemma {:induction false} ReadByteWithin(input: seq<byte>, n: nat, pos: nat)
    requires pos <= n <= |input|
    requires ReadByte(input, pos).Some? && ReadByte(input, pos).value.1 <= n
    ensures ReadByte(input[..n], pos) == ReadByte(input, pos)
    decreases n - pos
  {
    assert input[..n][pos] == input[pos];
    if input[pos] == 0 {
      ReadByteWithin(input, n, pos + 1);
    }
  }

  lemma CsiKeyExtends(input: seq<byte>, more: seq<byte>, third: byte, pos: nat)
    requires pos <= |input| && CsiKey(input, third, pos).Some?
    ensures CsiKey(input + more, third, pos) == CsiKey(input, third, pos)
  {
    if IsDigit(third) && ReadByte(input, pos).Some? {
      ReadByteExtends(input, more, pos);
    }
  }

  lemma IntroducedKeyExtends(input: seq<byte>, more: seq<byte>, second: byte, pos: nat)
    requires pos <= |input| && IntroducedKey(input, second, pos).Some?
    ensures IntroducedKey(input + more, second, pos) == IntroducedKey(input, second, pos)
  {
    ReadByteExtends(input, more, pos);
    if second == LEFT_BRACKET {
      CsiKeyExtends(input, more, ReadByte(input, pos).value.0, ReadByte(input, pos).value.1);
    }
  }

  lemma EscapedKeyExtends(input: seq<byte>, more: seq<byte>, pos: nat)
    requires pos <= |input| && EscapedKey(input, pos).Some?
    ensures EscapedKey(input + more, pos) == EscapedKey(input, pos)
  {
    ReadByteExtends(input, more, pos);
    var (second, next) := ReadByte(input, pos).value;
    if second == LEFT_BRACKET || second == LETTER_O {
      IntroducedKeyExtends(input, more, second, next);
    }
  }

  /** A decoded key does not depend on what comes after it. */
  lemma ReadKeyExtends(input: seq<byte>, more: seq<byte>)
    requires ReadKey(input).Some?
    ensures ReadKey(input + more) == ReadKey(input)
  {
    ReadByteExtends(input, more, 0);
    var (first, next) := ReadByte(input, 0).value;
    if first == ESC {
      EscapedKeyExtends(input, more, next);
    }
  }

  lemma CsiKeyWithin(input: seq<byte>, n: nat, third: byte, pos: nat)
    requires pos <= n <= |input|
    requires CsiKey(input, third, pos).Some? && CsiKey(input, third, pos).value.consumed <= n
    ensures CsiKey(input[..n], third, pos) == CsiKey(input, third, pos)
  {
    if IsDigit(third) && ReadByte(input, pos).Some? {
      ReadByteWithin(input, n, pos);
    }
  }

  lemma IntroducedKeyWithin(input: seq<byte>, n: nat, second: byte, pos: nat)
    requires pos <= n <= |input|
    requires IntroducedKey(input, second, pos).Some? && IntroducedKey(input, second, pos).value.consumed <= n
    ensures IntroducedKey(input[..n], second, pos) == IntroducedKey(input, second, pos)
  {
    var (third, next) := ReadByte(input, pos).value;
    ReadByteWithin(input, n, pos);
    if second == LEFT_BRACKET {
      assert next <= CsiKey(input, third, next).value.consumed;
      CsiKeyWithin(input, n, third, next);
    }
  }

  lemma EscapedKeyWithin(input: seq<byte>, n: nat, pos: nat)
    requires pos <= n <= |input|
    requires EscapedKey(input, pos).Some? && EscapedKey(input, pos).value.consumed <= n
    ensures EscapedKey(input[..n], pos) == EscapedKey(input, pos)
  {
    var (second, next) := ReadByte(input, pos).value;
    if second == LEFT_BRACKET || second == LETTER_O {
      ConsumedPastStart(input, second, next);
      IntroducedKeyWithin(input, n, second, next);
    }
    ReadByteWithin(input, n, pos);
  }

  /** A key after an introducer consumes past the introducer. */
  lemma ConsumedPastStart(input: seq<byte>, second: byte, pos: nat)
    requires pos <= |input| && IntroducedKey(input, second, pos).Some?
    ensures pos < IntroducedKey(input, second, pos).value.consumed
  {
  }

  /** A decoded key depends only on the bytes it consumed. */
  lemma ReadKeyWithin(input: seq<byte>)
    requires ReadKey(input).Some?
    ensures ReadKey(input[..ReadKey(input).value.consumed]) == ReadKey(input)
  {
    var n := ReadKey(input).value.consumed;
    var (first, next) := ReadByte(input, 0).value;
    if first == ESC {
      EscapedKeyWithin(input, n, next);
    }
    ReadByteWithin(input, n, 0);
  }

  /** No input is consumed beyond the key: the consumed prefix followed by
      any other bytes decodes to the same key with the same count. */
  lemma DecodesConsumedPrefixOnly(input: seq<byte>, other: seq<byte>)
    requires ReadKey(input).Some?
    ensures ReadKey(input[..ReadKey(input).value.consumed] + other) == ReadKey(input)
  {
    var prefix := input[..ReadKey(input).value.consumed];
    ReadKeyWithin(input);
    ReadKeyExtends(prefix, other);
  }

  /** On input without zero bytes, `read` takes exactly one byte. */
  lemma ReadByteNoZeros(input: seq<byte>, pos: nat)
    requires pos < |input| && input[pos] != 0
    ensures ReadByte(input, pos) == Some((input[pos], pos + 1))
  {
  }

  /** Without zero bytes in the input, a key takes at most four bytes. */
  lemma ConsumedAtMostFour(input: seq<byte>)
    requires forall i | 0 <= i < |input| :: input[i] != 0
    requires ReadKey(input).Some?
    ensures ReadKey(input).value.consumed <= 4
  {
    var (first, p1) := ReadByte(input, 0).value;
    assert p1 == 1;
    if first == ESC {
      var (second, p2) := ReadByte(input, p1).value;
      assert p2 == 2;
      if second == LEFT_BRACKET || second == LETTER_O {
        var (third, p3) := ReadByte(input, p2).value;
        assert p3 == 3;
        if second == LEFT_BRACKET && IsDigit(third) && third !in {LETTER_A, LETTER_B, LETTER_C, LETTER_D, LETTER_H, LETTER_F} {
          assert ReadByte(input, p3).value.1 == 4;
        }
      }
    }
  }

  /** `read` past a run of zero bytes: the same byte, positions shifted. */
  lemma {:induction false} ReadByteAfterZeros(zeros: seq<byte>, input: seq<byte>, pos: nat)
    requires forall i | 0 <= i < |zeros| :: zeros[i] == 0
    requires pos <= |zeros|
    ensures ReadByte(zeros + input, pos) ==
            match ReadByte(input, 0)
            case None => None
            case Some((b, next)) => Some((b, next + |zeros|))
    decreases |zeros| - pos
  {
    var s := zeros + input;
    if pos < |zeros| {
      assert s[pos] == 0;
      ReadByteAfterZeros(zeros, input, pos + 1);
    } else {
      ReadByteShifted(zeros, input, 0);
    }
  }

  /** `read` on a suffix is `read` on the whole input, positions shifted. */
  lemma {:induction false} ReadByteShifted(front: seq<byte>, input: seq<byte>, pos: nat)
    requires pos <= |input|
    ensures ReadByte(front + input, |front| + pos) ==
            match ReadByte(input, pos)
            case None => None
            case Some((b, next)) => Some((b, next + |front|))
    decreases |input| - pos
  {
    if pos < |input| {
      assert (front + input)[|front| + pos] == input[pos];
      ReadByteShifted(front, input, pos + 1);
    }
  }

  /** A decoding result with `n` more bytes counted as consumed. */
  function Shift(r: Option<Decoded>, n: nat): Option<Decoded> {
    match r
    case None => None
    case Some(d) => Some(Decoded(d.key, d.consumed + n))
  }

  /** The CSI tail on a suffix is the CSI tail on the whole input, shifted. */
  lemma CsiKeyShifted(front: seq<byte>, input: seq<byte>, third: byte, pos: nat)
    requires pos <= |input|
    ensures CsiKey(front + input, third, |front| + pos) == Shift(CsiKey(input, third, pos), |front|)
  {
    ReadByteShifted(front, input, pos);
  }

  lemma IntroducedKeyShifted(front: seq<byte>, input: seq<byte>, second: byte, pos: nat)
    requires pos <= |input|
    ensures IntroducedKey(front + input, second, |front| + pos) == Shift(IntroducedKey(input, second, pos), |front|)
  {
    ReadByteShifted(front, input, pos);
    if ReadByte(input, pos).Some? {
      CsiKeyShifted(front, input, ReadByte(input, pos).value.0, ReadByte(input, pos).value.1);
    }
  }

  lemma EscapedKeyShifted(front: seq<byte>, input: seq<byte>, pos: nat)
    requires pos <= |input|
    ensures EscapedKey(front + input, |front| + pos) == Shift(EscapedKey(input, pos), |front|)
  {
    ReadByteShifted(front, input, pos);
    if ReadByte(input, pos).Some? {
      IntroducedKeyShifted(front, input, ReadByte(input, pos).value.0, ReadByte(input, pos).value.1);
    }
  }

  /** Zero bytes before a key are skipped: same key, the zeros counted as
      consumed. */
  lemma LeadingZerosSkipped(zeros: seq<byte>, input: seq<byte>)
    requires forall i | 0 <= i < |zeros| :: zeros[i] == 0
    ensures ReadKey(zeros + input) == Shift(ReadKey(input), |zeros|)
  {
    ReadByteAfterZeros(zeros, input, 0);
    if ReadByte(input, 0).Some? {
      EscapedKeyShifted(zeros, input, ReadByte(input, 0).value.1);
    }
  }
}
