/**
 * The text operations behind the result record and the CSV file:
 * Python's `str` of an int, `",".join(...)` and, to read the file back, `str.split(",")`.
 */
module Text {
  import opened Wrappers

  predicate IsDigit(c: char) {
    '0' <= c <= '9'
  }

  predicate AllDigits(s: string) {
    forall i :: 0 <= i < |s| ==> IsDigit(s[i])
  }

  function DigitChar(d: nat): (c: char)
    requires d < 10
  {
    ('0' as int + d) as char
  }

  function DigitValue(c: char): nat
    requires IsDigit(c)
  {
    c as int - '0' as int
  }

  /** Decimal digits of a natural number, most significant first, without leading zeros. */
  function NatString(n: nat): (s: string)
    ensures |s| > 0 && AllDigits(s)
    ensures |s| > 1 ==> s[0] != '0'
  {
    if n < 10 then [DigitChar(n)]
    else NatString(n / 10) + [DigitChar(n % 10)]
  }

  /** `str(n)` for a Python int: a minus sign for negative numbers, then the digits. */
  function DecimalString(n: int): (s: string)
    ensures ',' !in s
    ensures |s| > 0
  {
    if n < 0 then "-" + NatString(-n) else NatString(n)
  }

  /**
   * `str(n)` is in canonical form: a minus sign exactly for negative numbers, then a non-empty
   * run of digits with no leading zero, which is "0" only for 0 itself (so never "-0").
   */
  lemma DecimalStringCanonical(n: int)
    ensures var s := DecimalString(n);
      var digits := if n < 0 then s[1..] else s;
      (s[0] == '-') == (n < 0)
      && |digits| > 0 && AllDigits(digits) && (|digits| > 1 ==> digits[0] != '0')
      && (digits == "0" <==> n == 0)
  {
    var s := DecimalString(n);
    if n < 0 {
      assert s[1..] == NatString(-n);
    }
  }

  function ReadNat(s: string): nat
    requires AllDigits(s)
  {
    if |s| == 0 then 0 else ReadNat(s[..|s| - 1]) * 10 + DigitValue(s[|s| - 1])
  }

  /** Reads back an optionally negative decimal integer, as a consumer of the CSV file would. */
  function ReadInt(s: string): Option<int>
  {
    if |s| > 1 && s[0] == '-' && AllDigits(s[1..]) then Some(-(ReadNat(s[1..]) as int))
    else if |s| > 0 && AllDigits(s) then Some(ReadNat(s))
    else None
  }

  lemma {:induction false} ReadNatString(n: nat)
    ensures ReadNat(NatString(n)) == n
  {
    var s := NatString(n);
    if n >= 10 {
      ReadNatString(n / 10);
      assert s[..|s| - 1] == NatString(n / 10);
    }
  }

  /** Every integer written into the record reads back as itself. */
  lemma DecimalRoundTrip(n: int)
    ensures ReadInt(DecimalString(n)) == Some(n)
  {
    var s := DecimalString(n);
    if n < 0 {
      ReadNatString(-n);
      assert s[0] == '-' && s[1..] == NatString(-n);
    } else {
      ReadNatString(n);
      assert IsDigit(s[0]);
    }
  }

  /** `",".join(fields)`. */
  function Join(fields: seq<string>): string
  {
    if |fields| == 0 then ""
    else if |fields| == 1 then fields[0]
    else fields[0] + "," + Join(fields[1..])
  }

  /** `s.split(",")`: the pieces between commas; never empty, `"".split(",") == [""]`. */
  function Split(s: string): (pieces: seq<string>)
    ensures |pieces| > 0
  {
    if |s| == 0 then [""]
    else
      var rest := Split(s[1..]);
      if s[0] == ',' then [""] + rest
      else [[s[0]] + rest[0]] + rest[1..]
  }

  function CommaCount(s: string): nat
  {
    if |s| == 0 then 0 else (if s[0] == ',' then 1 else 0) + CommaCount(s[1..])
  }

  /** A line splits into one field more than it has commas. */
  lemma {:induction false} SplitLength(s: string)
    ensures |Split(s)| == CommaCount(s) + 1
  {
    if |s| > 0 {
      SplitLength(s[1..]);
    }
  }

  lemma {:induction false} SplitNoComma(s: string)
    requires ',' !in s
    ensures Split(s) == [s]
  {
    if |s| > 0 {
      assert ',' !in s[1..];
      SplitNoComma(s[1..]);
      assert [s[0]] + s[1..] == s;
    }
  }

  /** Splitting at a comma splits the two sides independently. */
  lemma SplitCons(c: char, t: string)
    ensures Split([c] + t) == if c == ',' then [""] + Split(t) else [[c] + Split(t)[0]] + Split(t)[1..]
  {
    assert ([c] + t)[1..] == t;
  }

  lemma {:induction false} SplitAtComma(a: string, b: string)
    ensures Split(a + "," + b) == Split(a) + Split(b)
  {
    if |a| == 0 {
      assert a + "," + b == [','] + b;
      SplitCons(',', b);
      assert Split("") == [""];
    } else {
      var tail := a[1..] + "," + b;
      assert a + "," + b == [a[0]] + tail;
      assert a == [a[0]] + a[1..];
      SplitCons(a[0], tail);
      SplitCons(a[0], a[1..]);
      SplitAtComma(a[1..], b);
      var front := Split(a[1..]);
      assert Split(tail) == front + Split(b);
      if a[0] != ',' {
        ExtendFirst(a[0], front, Split(b));
      }
    }
  }

  /** Prepending a character to the first field commutes with appending more fields. */
  lemma ExtendFirst(c: char, front: seq<string>, rest: seq<string>)
    requires |front| > 0
    ensures [[c] + (front + rest)[0]] + (front + rest)[1..] == ([[c] + front[0]] + front[1..]) + rest
  {
    assert (front + rest)[1..] == front[1..] + rest;
  }

  /** Joining comma-free fields and splitting the line again gives back the fields. */
  lemma {:induction false} SplitJoin(fields: seq<string>)
    requires |fields| > 0
    requires forall i :: 0 <= i < |fields| ==> ',' !in fields[i]
    ensures Split(Join(fields)) == fields
  {
    if |fields| == 1 {
      SplitNoComma(fields[0]);
    } else {
      SplitAtComma(fields[0], Join(fields[1..]));
      SplitNoComma(fields[0]);
      SplitJoin(fields[1..]);
      assert [fields[0]] + fields[1..] == fields;
    }
  }
}
