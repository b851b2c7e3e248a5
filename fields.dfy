/**
 * The text layer of PMTK sentences: a sentence body is a list of
 * comma-separated fields, and every number in it is rendered the way the
 * `%u` conversion renders an unsigned integer.
 */
module Fields {

  predicate IsDigit(c: char) { '0' <= c <= '9' }

  predicate AllDigits(s: string) { forall i :: 0 <= i < |s| ==> IsDigit(s[i]) }

  predicate NoComma(s: string) { forall i :: 0 <= i < |s| ==> s[i] != ',' }

  /** A canonical decimal: non-empty, digits only, no leading zero unless it is "0". */
  predicate Canonical(s: string) { 1 <= |s| && AllDigits(s) && (s[0] == '0' ==> |s| == 1) }

  function DigitChar(d: nat): (c: char)
    requires d < 10
    ensures IsDigit(c)
  {
    ('0' as int + d) as char
  }

  function DigitValue(c: char): (d: nat)
    requires IsDigit(c)
    ensures d < 10 && DigitChar(d) == c
  {
    c as int - '0' as int
  }

  /** The text that `%u` prints for `n`. */
  function Decimal(n: nat): (s: string)
    ensures Canonical(s)
    ensures s[0] == '0' ==> n == 0
    decreases n
  {
    if n < 10 then [DigitChar(n)] else Decimal(n / 10) + [DigitChar(n % 10)]
  }

  /** Reads back a string of digits as a number. */
  function ParseDecimal(s: string): (n: nat)
    requires AllDigits(s)
    decreases |s|
  {
    if s == [] then 0 else 10 * ParseDecimal(s[..|s| - 1]) + DigitValue(s[|s| - 1])
  }

  lemma {:induction false} ParseDecimalOfDecimal(n: nat)
    ensures ParseDecimal(Decimal(n)) == n
    decreases n
  {
    if n >= 10 {
      var s := Decimal(n);
      assert s[..|s| - 1] == Decimal(n / 10);
      ParseDecimalOfDecimal(n / 10);
    }
  }

  lemma {:induction false} ParseDecimalPositive(s: string)
    requires AllDigits(s) && 1 <= |s| && s[0] != '0'
    ensures ParseDecimal(s) >= 1
    decreases |s|
  {
    if |s| > 1 {
      ParseDecimalPositive(s[..|s| - 1]);
    }
  }

  /** Every canonical decimal is the rendering of the number it denotes. */
  lemma {:induction false} DecimalOfParseDecimal(s: string)
    requires Canonical(s)
    ensures Decimal(ParseDecimal(s)) == s
    decreases |s|
  {
    if |s| > 1 {
      var init := s[..|s| - 1];
      var d := DigitValue(s[|s| - 1]);
      ParseDecimalPositive(init);
      DecimalOfParseDecimal(init);
      var n := ParseDecimal(s);
      assert n == 10 * ParseDecimal(init) + d;
      assert n / 10 == ParseDecimal(init) && n % 10 == d;
      assert s == init + [s[|s| - 1]];
    }
  }

  lemma DecimalInjective(a: nat, b: nat)
    requires Decimal(a) == Decimal(b)
    ensures a == b
  {
    ParseDecimalOfDecimal(a);
    ParseDecimalOfDecimal(b);
  }

  function Pow10(k: nat): (p: nat)
  {
    if k == 0 then 1 else 10 * Pow10(k - 1)
  }

  /** A number below 10^k needs at most k digits. */
  lemma {:induction false} DecimalLength(n: nat, k: nat)
    requires 1 <= k && n < Pow10(k)
    ensures |Decimal(n)| <= k
    decreases k
  {
    if n >= 10 {
      assert k > 1;
      DecimalLength(n / 10, k - 1);
    }
  }

  /** Joins fields with the separator ',' (the `%u,%u` shape of a format string). */
  function Join(fields: seq<string>): (s: string)
    requires 1 <= |fields|
    decreases |fields|
  {
    if |fields| == 1 then fields[0] else fields[0] + "," + Join(fields[1..])
  }

  /** Index of the first ',' in `s`, or |s| when there is none. */
  function CommaIndex(s: string): (i: nat)
    ensures i <= |s|
    ensures i < |s| ==> s[i] == ','
    ensures forall j :: 0 <= j < i ==> s[j] != ','
  {
    if s == [] || s[0] == ',' then 0 else 1 + CommaIndex(s[1..])
  }

  /** Splits a sentence body at every ','. */
  function Split(s: string): (fields: seq<string>)
    ensures 1 <= |fields|
    ensures forall i :: 0 <= i < |fields| ==> NoComma(fields[i])
    decreases |s|
  {
    var i := CommaIndex(s);
    if i == |s| then [s] else [s[..i]] + Split(s[i + 1..])
  }

  lemma {:induction false} SplitJoin(fields: seq<string>)
    requires 1 <= |fields|
    requires forall i :: 0 <= i < |fields| ==> NoComma(fields[i])
    ensures Split(Join(fields)) == fields
    decreases |fields|
  {
    var f := fields[0];
    if |fields| == 1 {
      assert CommaIndex(f) == |f|;
    } else {
      var rest := Join(fields[1..]);
      var s := f + "," + rest;
      assert s[|f|] == ',';
      assert CommaIndex(s) == |f|;
      assert s[..|f|] == f;
      assert s[|f| + 1..] == rest;
      SplitJoin(fields[1..]);
      assert fields == [f] + fields[1..];
    }
  }

  lemma {:induction false} JoinSplit(s: string)
    ensures Join(Split(s)) == s
    decreases |s|
  {
    var i := CommaIndex(s);
    if i < |s| {
      var rest := s[i + 1..];
      var fields := Split(s);
      assert fields == [s[..i]] + Split(rest);
      assert fields[0] == s[..i] && fields[1..] == Split(rest);
      JoinSplit(rest);
      assert s == s[..i] + "," + rest;
    }
  }

  lemma JoinCons(f: string, rest: seq<string>)
    requires 1 <= |rest|
    ensures Join([f] + rest) == f + "," + Join(rest)
  {
    assert ([f] + rest)[1..] == rest;
  }

  /** Joining two non-empty lists of fields puts one separator between their joins. */
  lemma {:induction false} JoinConcat(a: seq<string>, b: seq<string>)
    requires 1 <= |a| && 1 <= |b|
    ensures Join(a + b) == Join(a) + "," + Join(b)
    decreases |a|
  {
    if |a| == 1 {
      JoinCons(a[0], b);
      assert a + b == [a[0]] + b;
    } else {
      JoinConcat(a[1..], b);
      JoinCons(a[0], a[1..] + b);
      assert a + b == [a[0]] + (a[1..] + b);
    }
  }
}
