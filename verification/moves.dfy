/** Reading a player's chosen position: the typed text must be a number
    1..9 written in decimal digits, and the cell it names must be blank. */
module Moves {
  import opened Board

  /** What happened to one line of input. */
  datatype MoveStatus =
    | NotANumber          // the text is empty or holds a non-digit
    | OutOfRange          // a number, but not 1..9
    | Taken               // cell already marked
    | Placed(cell: Index) // accepted: the 0-based cell that is marked

  predicate IsDigit(ch: char) { '0' <= ch <= '9' }

  /** Non-empty and made only of the ASCII digits 0-9: refused exactly when
      the text is empty or some character in it is not a digit. */
  predicate IsDigits(s: string): (r: bool)
    ensures !r <==> s == [] || exists i :: 0 <= i < |s| && !IsDigit(s[i])
  {
    |s| > 0 && forall i :: 0 <= i < |s| ==> IsDigit(s[i])
  }

  function DigitValue(ch: char): (d: nat)
    requires IsDigit(ch)
    ensures d < 10
  {
    ch as int - '0' as int
  }

  function DigitChar(d: nat): (ch: char)
    requires d < 10
    ensures IsDigit(ch) && DigitValue(ch) == d
  {
    ('0' as int + d) as char
  }

  /** 10 to the power `k`. */
  function Pow10(k: nat): (p: nat)
    ensures p >= 1
  {
    if k == 0 then 1 else 10 * Pow10(k - 1)
  }

  /** The number a digit string denotes in base 10 (leading zeros allowed):
      below 10 to the power of its length, and zero exactly when every
      digit is '0'. */
  function DigitsValue(s: string): (n: nat)
    requires forall i :: 0 <= i < |s| ==> IsDigit(s[i])
    ensures n < Pow10(|s|)
    ensures n == 0 <==> forall i :: 0 <= i < |s| ==> s[i] == '0'
  {
    if s == [] then 0
    else 10 * DigitsValue(s[..|s| - 1]) + DigitValue(s[|s| - 1])
  }

  /** The decimal spelling of `n`, without leading zeros. */
  function Decimal(n: nat): (s: string)
    ensures IsDigits(s)
  {
    if n < 10 then [DigitChar(n)] else Decimal(n / 10) + [DigitChar(n % 10)]
  }

  /** Parsing undoes printing: every number typed in decimal reads back as itself. */
  lemma {:induction false} DecimalRoundTrip(n: nat)
    ensures DigitsValue(Decimal(n)) == n
  {
    var s := Decimal(n);
    if n >= 10 {
      DecimalRoundTrip(n / 10);
      assert s[..|s| - 1] == Decimal(n / 10);
    } else {
      assert s[..|s| - 1] == [];
    }
  }

  /** Leading zeros do not change the number: "07" names the same cell as "7". */
  lemma {:induction false} LeadingZero(s: string)
    requires forall i :: 0 <= i < |s| ==> IsDigit(s[i])
    ensures DigitsValue(['0'] + s) == DigitsValue(s)
  {
    if s != [] {
      var t := ['0'] + s;
      assert t[..|t| - 1] == ['0'] + s[..|s| - 1];
      LeadingZero(s[..|s| - 1]);
    } else {
      assert (['0'] + s)[..0] == [];
    }
  }

  /** The checks one input line goes through before a mark is placed:
      digits, then the range 1..9, then a blank target cell. */
  function Judge(b: seq<Cell>, input: string): (r: MoveStatus)
    requires IsBoard(b)
    ensures r == NotANumber <==> !IsDigits(input)
    ensures r == OutOfRange <==> IsDigits(input) && !(1 <= DigitsValue(input) <= 9)
    ensures r == Taken <==>
              IsDigits(input) && 1 <= DigitsValue(input) <= 9 && b[DigitsValue(input) - 1] != Empty
    ensures r.Placed? <==>
              IsDigits(input) && 1 <= DigitsValue(input) <= 9 && b[DigitsValue(input) - 1] == Empty
    ensures r.Placed? ==> r.cell == DigitsValue(input) - 1 && b[r.cell] == Empty
  {
    if !IsDigits(input) then NotANumber
    else
      var move := DigitsValue(input) - 1;
      if move < 0 || move > 8 then OutOfRange
      else if b[move] != Empty then Taken
      else Placed(move)
  }

  /** Typing the number of cell k+1 selects cell k: it is accepted exactly
      when that cell is blank, and refused as taken otherwise. */
  lemma SelectCell(b: seq<Cell>, k: Index)
    requires IsBoard(b)
    ensures Judge(b, Decimal(k + 1)) == if b[k] == Empty then Placed(k) else Taken
  {
    DecimalRoundTrip(k + 1);
  }
}
