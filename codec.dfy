/**
 * Classification and display of integer character codes (arghonaut/common.py),
 * together with the legacy script's variant of the renderer and the width of
 * the rendered stack (arghonaut.py).
 */
module Codec {
  import opened Wrappers

  /** The largest code Python's chr accepts. */
  const MaxCodePoint := 0x10FFFF

  /** A Python text is a sequence of code points. */
  type CodePoint = c: int | 0 <= c <= MaxCodePoint

  const Tab := 9
  const Newline := 10
  const Return := 13
  const Space := 32
  /** End of transmission, the end-of-input sentinel. */
  const Eot := 4

  /** Can the code be turned into a Python character with chr? */
  predicate IsChr(c: int)
    ensures IsChr(c) ==> FitsCInt(c)
  {
    0 <= c <= MaxCodePoint
  }

  /** Does the code fit the C int that chr converts its argument to first? */
  predicate FitsCInt(c: int) {
    -0x8000_0000 <= c < 0x8000_0000
  }

  /**
   * is_chr: whether chr accepts the code, or None when the call raises.
   * Only chr's ValueError is caught; outside the C int range chr raises
   * OverflowError, which escapes.
   */
  function IsChrCall(c: int): (r: Option<bool>)
    ensures r.None? <==> !FitsCInt(c)
    ensures r.Some? ==> (r.value <==> 0 <= c <= MaxCodePoint)
    ensures IsChr(c) ==> r == Some(true)
  {
    if FitsCInt(c) then Some(IsChr(c)) else None
  }

  /**
   * Can the code be shown in one cell as standard ASCII? Newline and tab are
   * not; in long mode the space is not either.
   */
  function IsPrintable(c: int, long: bool): (r: bool)
    ensures r ==> IsChr(c)
    ensures c == Newline || c == Tab || c == Return || c == Eot ==> !r
    ensures long ==> (r <==> IsPrintable(c, false) && c != Space)
  {
    if long && c == Space then false else 32 <= c <= 126
  }

  // ---------------------------------------------------------------------
  // Numerals, as Python's str and hex write them (lower-case hex digits)

  predicate IsDigitOf(ch: char, base: nat) {
    ('0' <= ch <= '9' && (ch as int) - ('0' as int) < base)
    || ('a' <= ch <= 'f' && (ch as int) - ('a' as int) + 10 < base)
  }

  function DigitChar(d: nat): (ch: char)
    requires d < 16
    ensures IsDigitOf(ch, d + 1)
  {
    if d < 10 then ((('0' as int) + d) as char) else ((('a' as int) + d - 10) as char)
  }

  function DigitValue(ch: char): int {
    if '0' <= ch <= '9' then (ch as int) - ('0' as int)
    else if 'a' <= ch <= 'f' then (ch as int) - ('a' as int) + 10
    else 0
  }

  lemma DivMod(n: nat, base: nat)
    requires 2 <= base <= n
    ensures 1 <= n / base < n && 0 <= n % base < base
    ensures n == (n / base) * base + n % base
  {
  }

  /** The digits of n in the given base, most significant first, without leading zeros. */
  function Numeral(n: nat, base: nat): (r: string)
    requires 2 <= base <= 16
    ensures |r| >= 1
    ensures forall i :: 0 <= i < |r| ==> IsDigitOf(r[i], base)
    ensures r[0] == '0' <==> n == 0
    decreases n
  {
    if n < base then [DigitChar(n)]
    else
      DivMod(n, base);
      Numeral(n / base, base) + [DigitChar(n % base)]
  }

  /** Reads a numeral back (Python's int(s, base)). */
  function ParseNumeral(s: string, base: nat): int {
    if s == [] then 0
    else ParseNumeral(s[..|s| - 1], base) * base + DigitValue(s[|s| - 1])
  }

  lemma {:induction false} NumeralRoundTrip(n: nat, base: nat)
    requires 2 <= base <= 16
    ensures ParseNumeral(Numeral(n, base), base) == n
    decreases n
  {
    if n < base {
      assert Numeral(n, base)[..0] == [];
    } else {
      var r := Numeral(n, base);
      DivMod(n, base);
      assert r[..|r| - 1] == Numeral(n / base, base);
      NumeralRoundTrip(n / base, base);
    }
  }

  // ---------------------------------------------------------------------
  // Rendering of codes (to_printable)

  function Escaped(escape: string, long: bool): string {
    if long then "\\" + escape else escape
  }

  /**
   * The readable form of a code. Printable codes are themselves; in short
   * mode every code is one character, in long mode the escapes grow. The
   * digit branch is tested first, so the tab and EOT branches never fire.
   */
  function ToPrintable(c: int, long: bool): (r: string)
    ensures IsPrintable(c, false) ==> r == [c as char]
    ensures !long ==> |r| == 1
    ensures long ==> (|r| == 1 <==> IsPrintable(c, false))
  {
    if IsPrintable(c, false) then [c as char]
    else if 0 <= c <= 9 then Escaped(Numeral(c, 10), long)
    else if c == Newline then Escaped("n", long)
    else if c == Return then Escaped("r", long)
    else if c == Tab then Escaped("t", long)
    else if c == Eot then (if long then "EOF" else "E")
    else if c < 0 then (if long then "-" + Numeral(-c, 10) else "-")
    else (if long then "0x" + Numeral(c, 16) else "?")
  }

  /** Reads a long-mode rendering back to its code. */
  function FromLongForm(r: string): int {
    if |r| == 1 then r[0] as int
    else if |r| == 2 && r[0] == '\\' && r[1] == 'n' then Newline
    else if |r| == 2 && r[0] == '\\' && r[1] == 'r' then Return
    else if |r| == 2 && r[0] == '\\' then DigitValue(r[1])
    else if |r| >= 1 && r[0] == '-' then -ParseNumeral(r[1..], 10)
    else if |r| >= 2 then ParseNumeral(r[2..], 16)
    else 0
  }

  /** Long mode loses nothing: every code can be read back from its rendering. */
  lemma LongFormRoundTrip(c: int)
    ensures FromLongForm(ToPrintable(c, true)) == c
  {
    var r := ToPrintable(c, true);
    if IsPrintable(c, false) {
    } else if 0 <= c <= 9 {
      assert r == "\\" + [DigitChar(c)];
    } else if c == Newline || c == Return {
    } else if c < 0 {
      var digits := Numeral(-c, 10);
      assert r == "-" + digits && r[1..] == digits;
      NumeralRoundTrip(-c, 10);
    } else {
      var digits := Numeral(c, 16);
      assert r == "0x" + digits && r[2..] == digits;
      assert r[0] == '0' && |r| >= 3;
      NumeralRoundTrip(c, 16);
    }
  }

  lemma LongFormInjective(a: int, b: int)
    requires ToPrintable(a, true) == ToPrintable(b, true)
    ensures a == b
  {
    LongFormRoundTrip(a);
    LongFormRoundTrip(b);
  }

  /**
   * Codes 0 to 9 are rendered as their digit (escaped in long mode), which
   * is why tab and EOT come out as "9" and "4".
   */
  lemma LowCodesAreDigits(c: int, long: bool)
    requires 0 <= c <= 9
    ensures ToPrintable(c, long) == Escaped([(('0' as int) + c) as char], long)
  {
    assert Numeral(c, 10) == [(('0' as int) + c) as char];
  }

  /** No code renders as the EOF token or as an escaped tab. */
  lemma {:induction false} TabAndEofBranchesUnreachable(c: int)
    ensures ToPrintable(c, true) != "EOF"
    ensures ToPrintable(c, true) != "\\t"
    ensures ToPrintable(c, false) == "E" ==> c == 'E' as int
    ensures ToPrintable(c, false) == "t" ==> c == 't' as int
  {
    var r := ToPrintable(c, true);
    if IsPrintable(c, false) {
    } else if 0 <= c <= 9 {
      LowCodesAreDigits(c, true);
      assert r[1] != 't';
    } else if c == Newline || c == Return {
      assert r[1] != 't';
    } else if c < 0 {
      assert r[0] == '-';
    } else {
      assert r == "0x" + Numeral(c, 16);
      assert r[0] == '0';
    }
  }

  /** The short form: the character itself, a digit, n, r, - or ?. */
  lemma ShortForm(c: int)
    ensures var r := ToPrintable(c, false);
      |r| == 1 &&
      ((IsPrintable(c, false) && r[0] == c as char)
       || (0 <= c <= 9 && r[0] == (('0' as int) + c) as char)
       || (r[0] == 'n' && c == Newline)
       || (r[0] == 'r' && c == Return)
       || (r[0] == '-' && c < 0)
       || (r[0] == '?' && c > 9 && c != Newline && c != Return))
  {
    if 0 <= c <= 9 && !IsPrintable(c, false) {
      LowCodesAreDigits(c, false);
    }
  }

  /**
   * The long form of a code that is not its own character: an escaped digit,
   * "\\n", "\\r", the decimal numeral of a negative code, or the hex numeral.
   */
  lemma LongForm(c: int)
    requires !IsPrintable(c, false)
    ensures var r := ToPrintable(c, true);
      && (0 <= c <= 9 ==> r == ['\\', (('0' as int) + c) as char])
      && (c == Newline ==> r == "\\n")
      && (c == Return ==> r == "\\r")
      && (c < 0 ==> r == "-" + Numeral(-c, 10))
      && (c > 9 && c != Newline && c != Return ==> r == "0x" + Numeral(c, 16))
  {
  }

  // ---------------------------------------------------------------------
  // The legacy script's renderer and stack width (arghonaut.py)

  /**
   * The legacy renderer: long-mode space is "SP"; every other code renders as
   * in ToPrintable, so in long mode exactly the long-printable codes take one cell.
   */
  function LegacyToPrintable(c: int, long: bool): (r: string)
    ensures |r| >= 1
    ensures !long ==> r == ToPrintable(c, false)
    ensures long ==> r == (if c == Space then "SP" else ToPrintable(c, true))
    ensures long ==> (|r| == 1 <==> IsPrintable(c, true))
  {
    if c == Space && long then "SP" else ToPrintable(c, long)
  }

  /** Width of one stack entry in the legacy stack display. */
  function CellTextWidth(c: int): nat {
    if IsPrintable(c, true) then 1 else |LegacyToPrintable(c, true)|
  }

  /** The legacy stack_text_length: total width of the stack's entries, each at least one cell. */
  function StackTextWidth(stack: seq<int>): (r: nat)
    ensures r >= |stack|
  {
    if stack == [] then 0
    else StackTextWidth(stack[..|stack| - 1]) + CellTextWidth(stack[|stack| - 1])
  }

  /** The stack rendered entry by entry in long mode. */
  function RenderStack(stack: seq<int>): string {
    if stack == [] then []
    else RenderStack(stack[..|stack| - 1]) + LegacyToPrintable(stack[|stack| - 1], true)
  }

  /** The width is the length of the rendered stack. */
  lemma {:induction false} StackTextWidthIsRenderedLength(stack: seq<int>)
    ensures StackTextWidth(stack) == |RenderStack(stack)|
    decreases |stack|
  {
    if stack != [] {
      StackTextWidthIsRenderedLength(stack[..|stack| - 1]);
    }
  }

  /** Every entry takes at least one cell, and exactly one when it is long-printable. */
  lemma {:induction false} StackTextWidthBounds(stack: seq<int>)
    ensures StackTextWidth(stack) >= |stack|
    ensures StackTextWidth(stack) == |stack| <==> forall i :: 0 <= i < |stack| ==> IsPrintable(stack[i], true)
    decreases |stack|
  {
    if stack != [] {
      var init := stack[..|stack| - 1];
      StackTextWidthBounds(init);
      assert forall i :: 0 <= i < |init| ==> init[i] == stack[i];
    }
  }
}
