/**
 * The pieces of Ruby's String and Array behaviour that both engines render
 * through: dropping empty strings (`reject(&:empty?)`), `Array#join` with a
 * separator, and `Integer#to_s`.
 */
module Strings {

  /** The non-empty strings of `xs`, in their original order. */
  function NonEmpty(xs: seq<string>): (r: seq<string>)
    ensures |r| <= |xs|
    ensures forall i :: 0 <= i < |r| ==> r[i] != ""
    ensures forall s :: s in r <==> s in xs && s != ""
  {
    if xs == [] then []
    else if xs[0] == "" then NonEmpty(xs[1..])
    else [xs[0]] + NonEmpty(xs[1..])
  }

  /** Dropping empty strings commutes with concatenation. */
  lemma {:induction false} NonEmptyAppend(xs: seq<string>, ys: seq<string>)
    ensures NonEmpty(xs + ys) == NonEmpty(xs) + NonEmpty(ys)
  {
    if xs == [] {
      assert xs + ys == ys;
    } else {
      assert (xs + ys)[0] == xs[0];
      assert (xs + ys)[1..] == xs[1..] + ys;
      NonEmptyAppend(xs[1..], ys);
      if xs[0] != "" {
        assert NonEmpty(xs + ys) == [xs[0]] + (NonEmpty(xs[1..]) + NonEmpty(ys));
      }
    }
  }

  /** Strings that are all non-empty are kept as they are. */
  lemma {:induction false} NonEmptyKeepsFull(xs: seq<string>)
    requires forall i :: 0 <= i < |xs| ==> xs[i] != ""
    ensures NonEmpty(xs) == xs
  {
    if xs != [] {
      NonEmptyKeepsFull(xs[1..]);
    }
  }

  /** The total length of the strings of `xs`. */
  function TotalLength(xs: seq<string>): nat
  {
    if xs == [] then 0 else |xs[0]| + TotalLength(xs[1..])
  }

  /** `Array#join(sep)`: the strings of `xs` with `sep` between neighbours. */
  function Join(xs: seq<string>, sep: string): (r: string)
    ensures xs == [] ==> r == ""
    ensures |xs| == 1 ==> r == xs[0]
    ensures xs != [] ==> xs[0] <= r
  {
    if |xs| == 0 then ""
    else if |xs| == 1 then xs[0]
    else xs[0] + sep + Join(xs[1..], sep)
  }

  /** `join` adds one separator between each pair of neighbours and nothing else. */
  lemma {:induction false} JoinLength(xs: seq<string>, sep: string)
    requires xs != []
    ensures |Join(xs, sep)| == TotalLength(xs) + (|xs| - 1) * |sep|
  {
    if |xs| > 1 {
      JoinLength(xs[1..], sep);
      assert TotalLength(xs) == |xs[0]| + TotalLength(xs[1..]);
      assert (|xs| - 1) * |sep| == |sep| + (|xs| - 2) * |sep|;
    }
  }

  /** Joining at least one non-empty string gives a non-empty string. */
  lemma {:induction false} JoinOfNonEmpty(xs: seq<string>, sep: string)
    requires xs != []
    requires forall i :: 0 <= i < |xs| ==> xs[i] != ""
    ensures Join(xs, sep) != ""
  {
    if |xs| > 1 {
      assert |Join(xs, sep)| >= |xs[0]|;
    }
  }

  /** The non-empty strings of `xs`, joined, are blank exactly when every string of `xs` is. */
  lemma JoinNonEmptyBlank(xs: seq<string>, sep: string)
    ensures Join(NonEmpty(xs), sep) == "" <==> forall x :: x in xs ==> x == ""
  {
    var ys := NonEmpty(xs);
    if ys != [] {
      assert ys[0] in xs && ys[0] != "";
      assert ys[0] <= Join(ys, sep);
    } else {
      forall x | x in xs ensures x == "" {
        assert x !in ys;
      }
    }
  }

  /** Joining a concatenation puts one separator where the two parts meet. */
  lemma {:induction false} JoinAppend(xs: seq<string>, ys: seq<string>, sep: string)
    ensures Join(xs + ys, sep) ==
      if xs == [] then Join(ys, sep)
      else if ys == [] then Join(xs, sep)
      else Join(xs, sep) + sep + Join(ys, sep)
  {
    if ys == [] {
      assert xs + ys == xs;
    } else if |xs| == 1 {
      assert xs + ys == [xs[0]] + ys;
      assert (xs + ys)[1..] == ys;
    } else if |xs| > 1 {
      assert (xs + ys)[0] == xs[0];
      assert (xs + ys)[1..] == xs[1..] + ys;
      JoinAppend(xs[1..], ys, sep);
      assert |xs + ys| > 1 && xs[1..] != [];
      assert Join(xs, sep) == xs[0] + sep + Join(xs[1..], sep);
      var a, b, c := xs[0], Join(xs[1..], sep), Join(ys, sep);
      assert Join(xs + ys, sep) == a + sep + (b + sep + c);
      assert a + sep + (b + sep + c) == (a + sep + b) + sep + c;
    } else {
      assert xs + ys == ys;
    }
  }

  /** The decimal digit for `d`. */
  function Digit(d: nat): (c: char)
    requires d < 10
    ensures '0' <= c <= '9'
  {
    ('0' as int + d) as char
  }

  /** The value of a decimal digit. */
  function DigitValue(c: char): int
  {
    c as int - '0' as int
  }

  /** `Integer#to_s`: the decimal text of `n`, with a leading '-' when negative. */
  function Decimal(n: int): (r: string)
    ensures r != []
    ensures n >= 0 ==> forall i :: 0 <= i < |r| ==> '0' <= r[i] <= '9'
    ensures n < 0 <==> r[0] == '-'
    ensures n > 0 ==> r[0] != '0'
    ensures n < 0 ==> r[1..] == Decimal(-n)
    decreases if n < 0 then 1 - n else n
  {
    if n < 0 then "-" + Decimal(-n)
    else if n < 10 then [Digit(n)]
    else Decimal(n / 10) + [Digit(n % 10)]
  }

  /** The value of a string of decimal digits (`String#to_i` on digits only). */
  function DigitsValue(s: string): int
  {
    if s == [] then 0 else DigitsValue(s[..|s| - 1]) * 10 + DigitValue(s[|s| - 1])
  }

  /** The value of a decimal text with an optional leading '-'. */
  function IntegerValue(s: string): int
  {
    if s != [] && s[0] == '-' then -DigitsValue(s[1..]) else DigitsValue(s)
  }

  /** Reading back the decimal text of `n` gives `n`. */
  lemma {:induction false} DecimalRoundTrip(n: int)
    ensures IntegerValue(Decimal(n)) == n
  {
    if n < 0 {
      DigitsRoundTrip(-n);
    } else {
      DigitsRoundTrip(n);
    }
  }

  /** The digits of a natural number read back as that number. */
  lemma {:induction false} DigitsRoundTrip(n: nat)
    ensures DigitsValue(Decimal(n)) == n
  {
    if n >= 10 {
      var r := Decimal(n);
      var q := Decimal(n / 10);
      assert r[..|r| - 1] == q;
      DigitsRoundTrip(n / 10);
      assert DigitsValue(r) == DigitsValue(q) * 10 + DigitValue(r[|r| - 1]);
      assert n == (n / 10) * 10 + n % 10;
    }
  }
}
