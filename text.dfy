/**
 * The pieces of java.lang text handling that the server relies on:
 * `String.split` with a one-character literal pattern, `String.join`,
 * `Integer.parseInt` / `new BigInteger(String)` and the decimal `toString`
 * of an integer.
 */
module Text {
  import opened Wrappers

  const MinInt32: int := -0x8000_0000
  const MaxInt32: int := 0x7fff_ffff

  predicate IsDigit(c: char) {
    '0' <= c <= '9'
  }

  predicate AllDigits(s: string) {
    forall i :: 0 <= i < |s| ==> IsDigit(s[i])
  }

  function DigitChar(d: nat): (c: char)
    requires d < 10
    ensures IsDigit(c) && c as int - '0' as int == d
  {
    ('0' as int + d) as char
  }

  /** The value of a run of decimal digits, most significant digit first. */
  function DigitsValue(s: string): nat
    requires AllDigits(s)
  {
    if |s| == 0 then 0
    else 10 * DigitsValue(s[..|s| - 1]) + (s[|s| - 1] as int - '0' as int)
  }

  /** Decimal text of a natural number, most significant digit first. */
  function NatToString(n: nat): string {
    if n < 10 then [DigitChar(n)] else NatToString(n / 10) + [DigitChar(n % 10)]
  }

  /**
   * `Integer.toString` / `BigInteger.toString`: a minus sign for negative
   * values, then the digits.
   */
  function IntToString(n: int): string {
    if n < 0 then "-" + NatToString(-n) else NatToString(n)
  }

  /** The text of a natural number is a non-empty run of digits without leading zeros that reads back as the number. */
  lemma {:induction false} NatToStringDigits(n: nat)
    ensures |NatToString(n)| >= 1 && AllDigits(NatToString(n))
    ensures DigitsValue(NatToString(n)) == n
    ensures |NatToString(n)| > 1 ==> NatToString(n)[0] != '0'
  {
    if n >= 10 {
      NatToStringDigits(n / 10);
      var s := NatToString(n);
      assert s[..|s| - 1] == NatToString(n / 10);
    }
  }

  /** Reading the text of an integer back gives the integer; the text holds no separator character. */
  lemma IntToStringParses(n: int)
    ensures ParseDecimal(IntToString(n)) == Some(n)
    ensures |IntToString(n)| >= 1
    ensures '.' !in IntToString(n) && '|' !in IntToString(n) && ',' !in IntToString(n)
  {
    var s := IntToString(n);
    if n < 0 {
      var digits := NatToString(-n);
      NatToStringDigits(-n);
      DigitsLackSigns(digits);
      assert s[0] == '-' && s[1..] == digits;
      assert |s[1..]| > 0 && AllDigits(s[1..]) && DigitsValue(s[1..]) == -n;
    } else {
      NatToStringDigits(n);
      DigitsLackSigns(s);
      assert s[0] != '-' && s[0] != '+' by { assert IsDigit(s[0]); }
      assert |s| > 0 && AllDigits(s) && DigitsValue(s) == n;
    }
  }

  lemma DigitsLackSigns(s: string)
    requires AllDigits(s)
    ensures '.' !in s && '|' !in s && ',' !in s && '-' !in s && '+' !in s
  {
  }

  /**
   * An optional '-' or '+' followed by one or more decimal digits, read as an
   * integer; None where the Java parsers throw NumberFormatException.
   */
  function ParseDecimal(s: string): (r: Option<int>)
    ensures r.Some? ==> |s| > 0 && IsDigit(s[|s| - 1])
    ensures r.Some? && r.value < 0 ==> s[0] == '-'
  {
    if |s| > 0 && (s[0] == '-' || s[0] == '+') then
      var digits := s[1..];
      if |digits| > 0 && AllDigits(digits) then
        var magnitude: int := DigitsValue(digits);
        Some(if s[0] == '-' then -magnitude else magnitude)
      else None
    else if |s| > 0 && AllDigits(s) then Some(DigitsValue(s))
    else None
  }

  /** `Integer.parseInt`: the decimal value, which must fit in 32 bits. */
  function ParseInt32(s: string): (r: Option<int>)
    ensures r.Some? ==> MinInt32 <= r.value <= MaxInt32
    ensures r.Some? ==> ParseDecimal(s) == r
    ensures ParseDecimal(s).Some? && MinInt32 <= ParseDecimal(s).value <= MaxInt32 ==> r.Some?
  {
    match ParseDecimal(s)
    case Some(v) => if MinInt32 <= v <= MaxInt32 then Some(v) else None
    case None => None
  }

  /** `String.join`: the items with `sep` between neighbours. */
  function JoinWith(items: seq<string>, sep: char): string {
    if |items| == 0 then ""
    else if |items| == 1 then items[0]
    else items[0] + [sep] + JoinWith(items[1..], sep)
  }

  /** All the fields of `s` between occurrences of `sep`, empty ones included. */
  function SplitOn(s: string, sep: char): (fields: seq<string>)
    ensures |fields| >= 1
  {
    if |s| == 0 then [""]
    else
      var rest := SplitOn(s[1..], sep);
      if s[0] == sep then [""] + rest
      else [[s[0]] + rest[0]] + rest[1..]
  }

  /** Java's split drops the empty fields at the end of the result. */
  function DropTrailingEmpty(fields: seq<string>): seq<string> {
    if |fields| == 0 then []
    else if fields[|fields| - 1] == "" then DropTrailingEmpty(fields[..|fields| - 1])
    else fields
  }

  /**
   * `s.split(regex)` for a regex matching the single character `sep`: the
   * empty string gives one empty field; otherwise the fields without the
   * trailing empty ones (so a string of separators only gives none).
   */
  function JavaSplit(s: string, sep: char): (fields: seq<string>)
    ensures forall i :: 0 <= i < |fields| ==> sep !in fields[i]
    ensures |s| > 0 && |fields| > 0 ==> fields[|fields| - 1] != ""
  {
    if |s| == 0 then [""]
    else
      SplitOnFields(s, sep);
      DropTrailingEmptyPrefix(SplitOn(s, sep));
      DropTrailingEmpty(SplitOn(s, sep))
  }

  /** The fields hold no separator, and joining them again gives back `s`. */
  lemma {:induction false} SplitOnFields(s: string, sep: char)
    ensures forall i :: 0 <= i < |SplitOn(s, sep)| ==> sep !in SplitOn(s, sep)[i]
    ensures JoinWith(SplitOn(s, sep), sep) == s
  {
    if |s| > 0 {
      SplitOnFields(s[1..], sep);
      var rest := SplitOn(s[1..], sep);
      var fields := SplitOn(s, sep);
      if s[0] == sep {
        assert fields == [""] + rest;
        assert JoinWith(fields, sep) == [sep] + JoinWith(rest, sep) by {
          assert fields[1..] == rest;
        }
        assert [sep] + s[1..] == s;
      } else {
        assert fields == [[s[0]] + rest[0]] + rest[1..];
        forall i | 0 <= i < |fields|
          ensures sep !in fields[i]
        {
          if i > 0 {
            assert fields[i] == rest[i];
          }
        }
        JoinFront(s[0], rest, sep);
        assert [s[0]] + s[1..] == s;
      }
    }
  }

  /** Prefixing the first of the items prefixes their join. */
  lemma JoinFront(c: char, items: seq<string>, sep: char)
    requires |items| >= 1
    ensures JoinWith([[c] + items[0]] + items[1..], sep) == [c] + JoinWith(items, sep)
  {
    var front := [[c] + items[0]] + items[1..];
    if |items| > 1 {
      assert front[1..] == items[1..];
    }
  }

  /** Dropping trailing empty fields keeps a prefix and removes only empty fields. */
  lemma {:induction false} DropTrailingEmptyPrefix(fields: seq<string>)
    ensures var r := DropTrailingEmpty(fields);
      && |r| <= |fields| && r == fields[..|r|]
      && (forall i :: |r| <= i < |fields| ==> fields[i] == "")
      && (|r| > 0 ==> r[|r| - 1] != "")
  {
    if |fields| > 0 && fields[|fields| - 1] == "" {
      DropTrailingEmptyPrefix(fields[..|fields| - 1]);
    }
  }

  // ---------------------------------------------------------------------
  // Round trips

  lemma {:induction false} SplitNoSep(a: string, sep: char)
    requires sep !in a
    ensures SplitOn(a, sep) == [a]
  {
    if |a| > 0 {
      SplitNoSep(a[1..], sep);
      assert [a[0]] + a[1..] == a;
    }
  }

  lemma {:induction false} SplitAfterField(a: string, b: string, sep: char)
    requires sep !in a
    ensures SplitOn(a + [sep] + b, sep) == [a] + SplitOn(b, sep)
  {
    var s := a + [sep] + b;
    if |a| == 0 {
      assert s[1..] == b;
    } else {
      assert s[1..] == a[1..] + [sep] + b;
      SplitAfterField(a[1..], b, sep);
      assert [a[0]] + a[1..] == a;
    }
  }

  /** Splitting a joined list gives the list back when no item holds the separator. */
  lemma {:induction false} SplitJoin(items: seq<string>, sep: char)
    requires |items| >= 1
    requires forall i :: 0 <= i < |items| ==> sep !in items[i]
    ensures SplitOn(JoinWith(items, sep), sep) == items
  {
    if |items| == 1 {
      SplitNoSep(items[0], sep);
    } else {
      SplitJoin(items[1..], sep);
      SplitAfterField(items[0], JoinWith(items[1..], sep), sep);
      assert [items[0]] + items[1..] == items;
    }
  }

  /** Java's split of a joined list whose last item is not empty gives the list back. */
  lemma JavaSplitJoin(items: seq<string>, sep: char)
    requires |items| >= 1 && items[|items| - 1] != ""
    requires forall i :: 0 <= i < |items| ==> sep !in items[i]
    ensures JavaSplit(JoinWith(items, sep), sep) == items
  {
    SplitJoin(items, sep);
    DropTrailingEmptyPrefix(items);
    var s := JoinWith(items, sep);
    if |s| == 0 {
      assert items == [""] by { assert SplitOn(s, sep) == [""]; }
    }
  }

  /** Every character of the text of an integer is a digit or the minus sign. */
  lemma IntToStringChars(n: int)
    ensures forall i :: 0 <= i < |IntToString(n)| ==> IsDigit(IntToString(n)[i]) || IntToString(n)[i] == '-'
  {
    if n < 0 {
      NatToStringDigits(-n);
      assert IntToString(n)[1..] == NatToString(-n);
    } else {
      NatToStringDigits(n);
    }
  }

  /** `String.contains`: `t` occurs in `s` at some position. */
  predicate Contains(s: string, t: string)
    decreases |s|
  {
    if |s| < |t| then false
    else s[..|t|] == t || (|s| > 0 && Contains(s[1..], t))
  }

  /** An occurrence of a non-empty `t` contains its first character. */
  lemma {:induction false} ContainsFirstChar(s: string, t: string)
    requires |t| >= 1 && t[0] !in s
    ensures !Contains(s, t)
  {
    if |s| >= |t| {
      assert s[..|t|] != t by { assert s[..|t|][0] == s[0]; }
      ContainsFirstChar(s[1..], t);
    }
  }

  /** A prefix in which the first character of `t` does not occur can be skipped. */
  lemma {:induction false} ContainsSkip(x: string, y: string, t: string)
    requires |t| >= 1 && t[0] !in x
    ensures Contains(x + y, t) == Contains(y, t)
  {
    if |x| > 0 {
      var s := x + y;
      assert s[1..] == x[1..] + y;
      ContainsSkip(x[1..], y, t);
      if |s| >= |t| {
        assert s[..|t|][0] == x[0];
      }
    } else {
      assert x + y == y;
    }
  }

  /** A position whose second character already differs from `t` is not an occurrence. */
  lemma ContainsStep(s: string, t: string)
    requires |t| >= 2 && |s| >= 2 && s[1] != t[1]
    ensures Contains(s, t) == Contains(s[1..], t)
  {
    if |s| >= |t| {
      assert s[..|t|][1] == s[1];
    }
  }

  /** `t` occurs in any text that starts with it. */
  lemma ContainsPrefix(t: string, y: string)
    ensures Contains(t + y, t)
  {
    assert (t + y)[..|t|] == t;
  }
}
