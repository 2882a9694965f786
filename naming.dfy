/** Output file names: the counter value formatted as `{n:02d}.png`
    (a decimal number left-padded with '0' to at least two characters). */
module Naming {

  predicate IsDigit(c: char) {
    '0' <= c <= '9'
  }

  predicate AllDigits(s: string) {
    forall i :: 0 <= i < |s| ==> IsDigit(s[i])
  }

  function DigitValue(c: char): nat
    requires IsDigit(c)
  {
    c as int - '0' as int
  }

  function DigitChar(d: nat): (c: char)
    requires d < 10
    ensures IsDigit(c) && DigitValue(c) == d
  {
    (d + '0' as int) as char
  }

  /** The number a string of decimal digits denotes (most significant first). */
  function Value(s: string): nat
    requires AllDigits(s)
  {
    if s == [] then 0 else Value(s[..|s| - 1]) * 10 + DigitValue(s[|s| - 1])
  }

  /** The canonical decimal spelling of n: digits only, denoting n, and
      without a leading zero unless n is zero itself. */
  function Decimal(n: nat): string
    decreases n
  {
    if n < 10 then [DigitChar(n)] else Decimal(n / 10) + [DigitChar(n % 10)]
  }

  /** Decimal(n) is a digit string denoting n, without a leading zero
      unless n is zero itself. */
  lemma {:induction false} DecimalSpells(n: nat)
    ensures AllDigits(Decimal(n)) && |Decimal(n)| >= 1 && Value(Decimal(n)) == n
    ensures Decimal(n)[0] == '0' ==> n == 0
    decreases n
  {
    if n >= 10 {
      DecimalSpells(n / 10);
      var s := Decimal(n);
      assert s[..|s| - 1] == Decimal(n / 10);
    }
  }

  /** The `02d` format: at least two digits, padded on the left with '0'. */
  function Padded(n: nat): string
  {
    if n < 10 then ['0'] + Decimal(n) else Decimal(n)
  }

  /** The name of the image written for counter value n. */
  function FileName(n: nat): string
  {
    Padded(n) + ".png"
  }

  /** A digit string is a `02d` spelling when it is at least two characters
      long and has no leading zero beyond what the width demands. */
  predicate IsPaddedSpelling(s: string) {
    AllDigits(s) && |s| >= 2 && (|s| > 2 ==> s[0] != '0')
  }

  lemma ValueOfLast(s: string, c: char)
    requires AllDigits(s) && IsDigit(c)
    ensures AllDigits(s + [c]) && Value(s + [c]) == Value(s) * 10 + DigitValue(c)
  {
  }

  /** A nonempty digit string whose first digit is not '0' denotes a positive number. */
  lemma {:induction false} LeadingDigitPositive(s: string)
    requires AllDigits(s) && s != [] && s[0] != '0'
    ensures Value(s) >= 1
  {
    if |s| > 1 {
      var p := s[..|s| - 1];
      assert p[0] == s[0];
      LeadingDigitPositive(p);
    }
  }

  /** Decimal is the only digit string without a leading zero that denotes n. */
  lemma {:induction false} DecimalUnique(s: string, n: nat)
    requires AllDigits(s) && |s| >= 1 && (|s| > 1 ==> s[0] != '0') && Value(s) == n
    ensures s == Decimal(n)
    decreases |s|
  {
    var p, c := s[..|s| - 1], s[|s| - 1];
    assert s == p + [c];
    if |s| == 1 {
      assert n == DigitValue(c) && n < 10;
      assert DigitChar(n) == c;
    } else {
      assert p[0] == s[0];
      LeadingDigitPositive(p);
      assert n / 10 == Value(p) && n % 10 == DigitValue(c);
      DecimalUnique(p, n / 10);
      assert DigitChar(n % 10) == c;
    }
  }

  /** Padded(n) is a `02d` spelling of n, and the only one. */
  lemma {:induction false} PaddedSpellsValue(n: nat)
    ensures IsPaddedSpelling(Padded(n)) && Value(Padded(n)) == n
  {
    var d := Decimal(n);
    DecimalSpells(n);
    if n < 10 {
      assert d == [DigitChar(n)];
      assert Padded(n) == ['0'] + d;
      ValueOfLast(['0'], DigitChar(n));
      assert ['0'] + d == ['0'] + [DigitChar(n)];
      assert Value(['0']) == 0 by { assert ['0'][..0] == []; }
    }
  }

  lemma {:induction false} PaddedUnique(s: string, n: nat)
    requires IsPaddedSpelling(s) && Value(s) == n
    ensures s == Padded(n)
  {
    if s[0] == '0' {
      assert |s| == 2;
      assert s == ['0'] + [s[1]];
      ValueOfLast(['0'], s[1]);
      assert Value(['0']) == 0 by { assert ['0'][..0] == []; }
      assert n == DigitValue(s[1]) && n < 10;
      assert DigitChar(n) == s[1];
    } else {
      LeadingDigitPositive(s[..|s| - 1]);
      assert n >= 10;
      DecimalUnique(s, n);
    }
  }

  /** A name is the file name of n exactly when it is a `02d` spelling of n
      followed by ".png". */
  lemma {:induction false} FileNameCharacterized(name: string, n: nat)
    ensures name == FileName(n) <==>
      (|name| >= 4 && name[|name| - 4..] == ".png" &&
       IsPaddedSpelling(name[..|name| - 4]) && Value(name[..|name| - 4]) == n)
  {
    PaddedSpellsValue(n);
    if name == FileName(n) {
      assert name[..|name| - 4] == Padded(n);
    }
    if |name| >= 4 && name[|name| - 4..] == ".png" &&
       IsPaddedSpelling(name[..|name| - 4]) && Value(name[..|name| - 4]) == n {
      PaddedUnique(name[..|name| - 4], n);
      assert name == name[..|name| - 4] + name[|name| - 4..];
    }
  }

  /** Distinct counter values never share a file name, so no image of a
      batch overwrites another. */
  lemma {:induction false} FileNameInjective(a: nat, b: nat)
    ensures FileName(a) == FileName(b) <==> a == b
  {
    if FileName(a) == FileName(b) {
      FileNameCharacterized(FileName(a), a);
      FileNameCharacterized(FileName(a), b);
    }
  }

  lemma SingleDigitFileName(n: nat)
    requires n < 10
    ensures FileName(n) == ['0', DigitChar(n), '.', 'p', 'n', 'g']
  {
  }

  lemma FileNameExamples()
    ensures FileName(1) == "01.png"
    ensures FileName(10) == "10.png"
    ensures FileName(100) == "100.png"
  {
  }
}
