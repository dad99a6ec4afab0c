/** The continuation cursor is a line index written in decimal (`str(i)`)
    and read back with `int(next_cursor or 0)`. */
module Cursor {
  import opened Wrappers
  import opened Errors

  predicate IsDigit(c: char)
  {
    '0' <= c <= '9'
  }

  predicate AllDigits(s: string)
  {
    forall i :: 0 <= i < |s| ==> IsDigit(s[i])
  }

  function DigitChar(d: nat): (c: char)
    requires d < 10
    ensures IsDigit(c) && c as int - '0' as int == d
  {
    ('0' as int + d) as char
  }

  /** The value of a string of decimal digits, most significant first. */
  function DigitsValue(s: string): nat
    requires AllDigits(s)
  {
    if s == [] then 0
    else 10 * DigitsValue(s[..|s| - 1]) + (s[|s| - 1] as int - '0' as int)
  }

  /** `str(n)` for a natural number: its decimal digits, without leading zeros. */
  function ShowNat(n: nat): (s: string)
    ensures s != [] && AllDigits(s)
    ensures s[0] == '0' ==> n == 0 && s == "0"
  {
    if n < 10 then [DigitChar(n)] else ShowNat(n / 10) + [DigitChar(n % 10)]
  }

  /** `int(next_cursor or 0)`: an absent or empty cursor means line 0; a
      string of decimal digits is that number; anything else is refused. */
  function ParseCursor(cursor: Option<string>): (r: Result<nat, Error>)
    ensures r.Failure? <==> cursor.Some? && cursor.value != "" && !AllDigits(cursor.value)
    ensures r.Failure? ==> r.error == InvalidCursor(cursor.value)
    ensures cursor.None? || cursor.value == "" ==> r == Success(0)
  {
    match cursor
    case None => Success(0)
    case Some(s) =>
      if s == "" then Success(0)
      else if AllDigits(s) then Success(DigitsValue(s))
      else Failure(InvalidCursor(s))
  }

  /** The largest start index `islice` accepts (`sys.maxsize` on a 64-bit
      build); a larger one makes the request fail. */
  const MaxIndex: nat := 0x7fff_ffff_ffff_ffff

  /** A cursor the server hands out reads back as the same line index. */
  lemma {:induction false} CursorRoundTrip(n: nat)
    ensures ParseCursor(Some(ShowNat(n))) == Success(n)
  {
    DigitsOfShowNat(n);
  }

  lemma {:induction false} DigitsOfShowNat(n: nat)
    ensures DigitsValue(ShowNat(n)) == n
  {
    var s := ShowNat(n);
    if n >= 10 {
      assert s[..|s| - 1] == ShowNat(n / 10);
      DigitsOfShowNat(n / 10);
    }
  }
}
