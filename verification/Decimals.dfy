/** Reading decimal numerals, and the proof that the exporter's numbers read back. */
module Decimals {
  import opened CsvExport

  /** The value of a numeral, from the left: ten times what was read, plus the next digit. */
  function ReadNatural(s: string): int {
    if s == "" then 0 else 10 * ReadNatural(s[..|s| - 1]) + (s[|s| - 1] as int - '0' as int)
  }

  function ReadInteger(s: string): int {
    if s != "" && s[0] == '-' then -ReadNatural(s[1..]) else ReadNatural(s)
  }

  /** Digits only, at least one, and no zero in front of others. */
  predicate IsNumeral(s: string) {
    s != "" && (forall i :: 0 <= i < |s| ==> '0' <= s[i] <= '9') && (|s| > 1 ==> s[0] != '0')
  }

  /** The way a program prints an integer. */
  predicate IsInteger(s: string) {
    if s != "" && s[0] == '-' then IsNumeral(s[1..]) && s[1] != '0' else IsNumeral(s)
  }

  lemma {:induction false} DigitsRead(n: nat)
    ensures IsNumeral(Digits(n)) && ReadNatural(Digits(n)) == n && (n > 0 ==> Digits(n)[0] != '0')
  {
    if n < 10 {
      assert Digits(n)[..0] == "";
    } else {
      DigitsRead(n / 10);
      var last := ('0' as int + n % 10) as char;
      assert Digits(n) == Digits(n / 10) + [last];
      assert Digits(n)[..|Digits(n)| - 1] == Digits(n / 10);
    }
  }

  /** Every integer is printed as a numeral that reads as the integer. */
  lemma NumbersRead(n: int)
    ensures IsInteger(Show(Number(n))) && ReadInteger(Show(Number(n))) == n
  {
    if n < 0 {
      DigitsRead(-n);
      assert Show(Number(n))[1..] == Digits(-n);
    } else {
      DigitsRead(n);
    }
  }

  /** What a text stands for: a missing value is empty, a text is itself, and a number is its numeral. */
  predicate Carries(text: string, cell: Cell) {
    match cell
    case Missing => text == ""
    case Text(s) => text == s
    case Number(n) => IsInteger(text) && ReadInteger(text) == n
  }

  lemma ShownCarries(cell: Cell)
    ensures Carries(Show(cell), cell)
  {
    if cell.Number? {
      NumbersRead(cell.n);
    }
  }

  /** A numeral has one value, and a value one numeral. */
  lemma {:induction false} NumeralsAgree(a: string, b: string)
    requires IsNumeral(a) && IsNumeral(b) && ReadNatural(a) == ReadNatural(b)
    ensures a == b
    decreases |a| + |b|
  {
    NumeralIsDigits(a);
    NumeralIsDigits(b);
  }

  lemma {:induction false} NumeralIsDigits(s: string)
    requires IsNumeral(s)
    ensures ReadNatural(s) >= 0 && s == Digits(ReadNatural(s)) && (|s| > 1 ==> ReadNatural(s) >= 10)
  {
    var front, last := s[..|s| - 1], s[|s| - 1];
    assert s == front + [last];
    if front == "" {
      assert ReadNatural(front) == 0;
    } else {
      NumeralIsDigits(front);
      assert front[0] != '0';
      NonZeroFront(front);
    }
  }

  lemma {:induction false} NonZeroFront(s: string)
    requires IsNumeral(s) && s[0] != '0'
    ensures ReadNatural(s) > 0
  {
    var front := s[..|s| - 1];
    if front == "" {
      assert ReadNatural(front) == 0;
    } else {
      NonZeroFront(front);
    }
  }
}
