/**
 * The string operations the cache service relies on: ToLower, Split(char) and
 * long.TryParse from the .NET base library, and the library's own EqualsIgnore
 * helper, taken here to be an ordinal ignore-case comparison.
 */
module Text {
  import opened Common

  predicate IsUpper(c: char)
  {
    'A' <= c <= 'Z'
  }

  function LowerChar(c: char): char
  {
    if IsUpper(c) then (c as int + 32) as char else c
  }

  /** String.ToLower, on the ASCII letters. */
  function Lower(s: string): (r: string)
    ensures |r| == |s|
    ensures forall i :: 0 <= i < |s| ==> r[i] == LowerChar(s[i])
  {
    if s == [] then [] else [LowerChar(s[0])] + Lower(s[1..])
  }

  predicate IsLowerCase(s: string)
  {
    forall i :: 0 <= i < |s| ==> !IsUpper(s[i])
  }

  lemma LowerIsLowerCase(s: string)
    ensures IsLowerCase(Lower(s))
  {
  }

  lemma LowerConcat(a: string, b: string)
    ensures Lower(a + b) == Lower(a) + Lower(b)
  {
    assert forall i :: 0 <= i < |a + b| ==> Lower(a + b)[i] == (Lower(a) + Lower(b))[i];
  }

  lemma LowerIdempotent(s: string)
    ensures Lower(Lower(s)) == Lower(s)
  {
    assert forall i :: 0 <= i < |s| ==> Lower(Lower(s))[i] == Lower(s)[i];
  }

  /**
   * The library's own EqualsIgnore helper, whose body is not part of this model;
   * it is taken to be an ordinal ignore-case comparison on the ASCII letters.
   */
  predicate EqualsIgnore(a: string, b: string)
    ensures EqualsIgnore(a, b) <==>
      |a| == |b| && forall i :: 0 <= i < |a| ==> LowerChar(a[i]) == LowerChar(b[i])
  {
    Lower(a) == Lower(b)
  }

  /** The number of occurrences of `c` in `s`. */
  function Occurrences(s: string, c: char): nat
  {
    if s == [] then 0 else (if s[0] == c then 1 else 0) + Occurrences(s[1..], c)
  }

  /**
   * String.Split(sep): the maximal pieces of `s` between occurrences of `sep`,
   * empty pieces included, so there is always at least one piece.
   */
  function Split(s: string, sep: char): (parts: seq<string>)
    ensures |parts| == Occurrences(s, sep) + 1
    ensures forall i :: 0 <= i < |parts| ==> sep !in parts[i]
  {
    if s == [] then [""]
    else
      var rest := Split(s[1..], sep);
      if s[0] == sep then [""] + rest
      else [[s[0]] + rest[0]] + rest[1..]
  }

  /** The pieces joined back together with the separator. */
  function Join(parts: seq<string>, sep: char): string
    requires |parts| >= 1
  {
    if |parts| == 1 then parts[0] else parts[0] + [sep] + Join(parts[1..], sep)
  }

  /** A character occurs in a string exactly when its count there is positive. */
  lemma {:induction false} OccurrencesIn(s: string, c: char)
    ensures c in s <==> Occurrences(s, c) > 0
  {
    if s != [] {
      OccurrencesIn(s[1..], c);
      assert s == [s[0]] + s[1..];
    }
  }

  lemma {:induction false} JoinSplit(s: string, sep: char)
    ensures Join(Split(s, sep), sep) == s
  {
    if s != [] {
      var rest := Split(s[1..], sep);
      JoinSplit(s[1..], sep);
      if s[0] == sep {
        assert Split(s, sep)[1..] == rest;
      } else {
        var parts := Split(s, sep);
        assert parts[1..] == rest[1..];
        if |rest| == 1 {
          assert s == [s[0]] + rest[0];
        } else {
          assert Join(rest, sep) == rest[0] + [sep] + Join(rest[1..], sep);
          assert s == [s[0]] + s[1..];
        }
      }
    }
  }

  lemma {:induction false} SplitWithout(s: string, sep: char)
    requires sep !in s
    ensures Split(s, sep) == [s]
  {
    if s != [] {
      SplitWithout(s[1..], sep);
      assert [s[0]] + s[1..] == s;
    }
  }

  lemma {:induction false} SplitAt(a: string, sep: char, b: string)
    requires sep !in a
    ensures Split(a + [sep] + b, sep) == [a] + Split(b, sep)
  {
    if a == [] {
      assert a + [sep] + b == [sep] + b;
      assert ([sep] + b)[1..] == b;
    } else {
      SplitAt(a[1..], sep, b);
      assert (a + [sep] + b)[1..] == a[1..] + [sep] + b;
      assert [a[0]] + a[1..] == a;
    }
  }

  predicate IsDigit(c: char)
  {
    '0' <= c <= '9'
  }

  predicate AllDigits(s: string)
  {
    forall i :: 0 <= i < |s| ==> IsDigit(s[i])
  }

  /** The value of a string of decimal digits, most significant first. */
  function DigitsValue(ds: string): nat
    requires AllDigits(ds)
  {
    if ds == [] then 0
    else DigitsValue(ds[..|ds| - 1]) * 10 + (ds[|ds| - 1] as int - '0' as int)
  }

  /** The decimal rendering of a natural number (long.ToString() for non-negative values). */
  function Decimal(n: nat): (s: string)
    ensures |s| >= 1 && AllDigits(s)
    ensures DigitsValue(s) == n
  {
    var d := ('0' as int + n % 10) as char;
    if n < 10 then [d]
    else
      var prefix := Decimal(n / 10);
      assert (prefix + [d])[..|prefix|] == prefix;
      prefix + [d]
  }

  const LongMin: int := -0x8000_0000_0000_0000
  const LongMax: int := 0x7FFF_FFFF_FFFF_FFFF

  /** White space as NumberStyles.AllowLeadingWhite/AllowTrailingWhite accept it. */
  predicate IsWhite(c: char)
  {
    c == ' ' || '\t' <= c <= '\r'
  }

  function TrimStart(s: string): (r: string)
    ensures |r| <= |s|
  {
    if s != [] && IsWhite(s[0]) then TrimStart(s[1..]) else s
  }

  function TrimEnd(s: string): (r: string)
    ensures |r| <= |s|
  {
    if s != [] && IsWhite(s[|s| - 1]) then TrimEnd(s[..|s| - 1]) else s
  }

  /**
   * long.TryParse(s, out v): surrounding white space, an optional sign, one or
   * more decimal digits, and a value inside the 64-bit range; None where it
   * returns false.
   */
  function TryParseLong(s: string): (r: Option<int>)
    ensures r.Some? ==> LongMin <= r.value <= LongMax
  {
    var t := TrimEnd(TrimStart(s));
    var negative := |t| > 0 && t[0] == '-';
    var digits := if |t| > 0 && (t[0] == '-' || t[0] == '+') then t[1..] else t;
    if digits == [] || !AllDigits(digits) then None
    else
      var magnitude: int := DigitsValue(digits);
      var v := if negative then -magnitude else magnitude;
      if LongMin <= v <= LongMax then Some(v) else None
  }

  /** Trimming white space at the start keeps every other character. */
  lemma {:induction false} TrimStartKeeps(s: string, c: char)
    requires c in s && !IsWhite(c)
    ensures c in TrimStart(s)
  {
    if s != [] && IsWhite(s[0]) {
      assert s == [s[0]] + s[1..];
      TrimStartKeeps(s[1..], c);
    }
  }

  /** Trimming white space at the end keeps every other character. */
  lemma {:induction false} TrimEndKeeps(s: string, c: char)
    requires c in s && !IsWhite(c)
    ensures c in TrimEnd(s)
  {
    if s != [] && IsWhite(s[|s| - 1]) {
      assert s == s[..|s| - 1] + [s[|s| - 1]];
      TrimEndKeeps(s[..|s| - 1], c);
    }
  }

  /**
   * long.TryParse rejects text holding a character that is neither a digit,
   * white space nor a sign, wherever it stands.
   */
  lemma ParseRejectsForeign(s: string, i: nat)
    requires i < |s| && !IsDigit(s[i]) && !IsWhite(s[i]) && s[i] != '-' && s[i] != '+'
    ensures TryParseLong(s) == None
  {
    var c := s[i];
    TrimStartKeeps(s, c);
    TrimEndKeeps(TrimStart(s), c);
    var t := TrimEnd(TrimStart(s));
    var digits := if |t| > 0 && (t[0] == '-' || t[0] == '+') then t[1..] else t;
    assert c in digits by {
      if |t| > 0 && (t[0] == '-' || t[0] == '+') {
        assert t == [t[0]] + t[1..];
      }
    }
    assert !AllDigits(digits);
  }

  /** Parsing inverts rendering on every non-negative long. */
  lemma ParseDecimal(n: nat)
    requires n <= LongMax
    ensures TryParseLong(Decimal(n)) == Some(n)
  {
    var s := Decimal(n);
    assert !IsWhite(s[0]) && !IsWhite(s[|s| - 1]);
  }

  /** A rendering of a value above the largest long does not parse. */
  lemma ParseDecimalOutOfRange(n: nat)
    requires n > LongMax
    ensures TryParseLong(Decimal(n)) == None
  {
    var s := Decimal(n);
    assert !IsWhite(s[0]) && !IsWhite(s[|s| - 1]);
  }

  /** The rendering of a long: a minus sign before the digits of its magnitude when negative. */
  function Signed(v: int): (s: string)
    ensures |s| >= 1 && (v < 0 <==> s[0] == '-')
  {
    if v < 0 then "-" + Decimal(-v) else Decimal(v)
  }

  /** Parsing inverts rendering on every value a long can hold, negative ones included. */
  lemma ParseSigned(v: int)
    requires LongMin <= v <= LongMax
    ensures TryParseLong(Signed(v)) == Some(v)
  {
    if v >= 0 {
      ParseDecimal(v);
    } else {
      var d := Decimal(-v);
      var s := "-" + d;
      assert !IsWhite(s[0]) && !IsWhite(s[|s| - 1]);
      assert s[1..] == d;
    }
  }

  /** Outside the 64-bit range, negative values included, the rendering does not parse. */
  lemma ParseSignedOutOfRange(v: int)
    requires v < LongMin || v > LongMax
    ensures TryParseLong(Signed(v)) == None
  {
    if v > LongMax {
      ParseDecimalOutOfRange(v);
    } else {
      var d := Decimal(-v);
      var s := "-" + d;
      assert !IsWhite(s[0]) && !IsWhite(s[|s| - 1]);
      assert s[1..] == d;
    }
  }
}
