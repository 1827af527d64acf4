/** Splitting, joining and printing numbers. */
module Strings {
  function Join(parts: seq<string>, sep: char): string
    requires parts != []
  {
    if |parts| == 1 then parts[0] else parts[0] + [sep] + Join(parts[1..], sep)
  }

  /** Up to the first separator, or all of it. */
  function Head(s: string, sep: char): (h: string)
    ensures h <= s && sep !in h && (h == s || s[|h|] == sep)
  {
    if s == [] || s[0] == sep then [] else [s[0]] + Head(s[1..], sep)
  }

  function Split(s: string, sep: char): (parts: seq<string>)
    ensures parts != [] && forall p :: p in parts ==> sep !in p
    decreases |s|
  {
    var h := Head(s, sep);
    if h == s then [s] else [h] + Split(s[|h| + 1..], sep)
  }

  lemma {:induction false} HeadOf(a: string, b: string, sep: char)
    requires sep !in a
    ensures Head(a, sep) == a && Head(a + [sep] + b, sep) == a
  {
    if a != [] {
      assert (a + [sep] + b)[1..] == a[1..] + [sep] + b;
      HeadOf(a[1..], b, sep);
    }
  }

  lemma {:induction false} SplitJoin(parts: seq<string>, sep: char)
    requires parts != [] && forall p :: p in parts ==> sep !in p
    ensures Split(Join(parts, sep), sep) == parts
  {
    if |parts| == 1 {
      HeadOf(parts[0], [], sep);
    } else {
      var h, rest := parts[0], Join(parts[1..], sep);
      HeadOf(h, rest, sep);
      SplitJoin(parts[1..], sep);
      assert (h + [sep] + rest)[|h| + 1..] == rest;
      assert parts == [h] + parts[1..];
    }
  }

  lemma {:induction false} JoinSplit(s: string, sep: char)
    ensures Join(Split(s, sep), sep) == s
    decreases |s|
  {
    var h := Head(s, sep);
    if h != s {
      JoinSplit(s[|h| + 1..], sep);
      assert s == h + [sep] + s[|h| + 1..];
      assert Split(s, sep)[1..] == Split(s[|h| + 1..], sep);
    }
  }

  function Digit(n: nat): (c: char)
    requires n < 10
    ensures '0' <= c <= '9' && c as int - '0' as int == n
  {
    ('0' as int + n) as char
  }

  function Digits(n: nat): (s: string)
    ensures s != [] && forall c :: c in s ==> '0' <= c <= '9'
  {
    if n < 10 then [Digit(n)] else Digits(n / 10) + [Digit(n % 10)]
  }

  /** The decimal form of an integer. */
  function Decimal(n: int): (s: string)
    ensures s != [] && forall c :: c in s ==> c == '-' || '0' <= c <= '9'
  {
    if n < 0 then "-" + Digits(-n) else Digits(n)
  }

  function Value(s: string): int
  {
    if s == [] then 0 else 10 * Value(s[..|s| - 1]) + (s[|s| - 1] as int - '0' as int)
  }

  lemma {:induction false} DigitsSpellValue(n: nat)
    ensures Value(Digits(n)) == n
  {
    if n >= 10 {
      DigitsSpellValue(n / 10);
      assert Digits(n)[..|Digits(n)| - 1] == Digits(n / 10);
    } else {
      assert Value([Digit(n)][..0]) == 0;
    }
  }

  lemma SignShows(n: int)
    ensures Decimal(n)[0] == '-' <==> n < 0
  {
    assert n >= 0 ==> Digits(n)[0] in Digits(n);
  }

  lemma DecimalIsInjective(a: int, b: int)
    requires Decimal(a) == Decimal(b)
    ensures a == b
  {
    SignShows(a);
    SignShows(b);
    if a < 0 {
      assert Digits(-a) == Decimal(a)[1..];
      assert Digits(-b) == Decimal(b)[1..];
      DigitsSpellValue(-a);
      DigitsSpellValue(-b);
    } else {
      DigitsSpellValue(a);
      DigitsSpellValue(b);
    }
  }
}
