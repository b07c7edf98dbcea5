/**
 * The three java.lang string operations the high-score file depends on:
 * `String.split(":")`, `Integer.parseInt` and the decimal rendering of an int.
 * Only ASCII digits are recognised (Character.digit also accepts other Unicode
 * decimal digits).
 */
module JavaText {

  import opened Wrappers

  const MIN_INT := -2147483648
  const MAX_INT := 2147483647

  predicate InInt32(n: int) {
    MIN_INT <= n <= MAX_INT
  }

  // ---------------------------------------------------------------- split

  /** The pieces of s between separators, joined back with the separator. */
  function Join(parts: seq<string>, sep: char): string
    requires |parts| >= 1
    decreases |parts|
  {
    if |parts| == 1 then parts[0] else parts[0] + [sep] + Join(parts[1..], sep)
  }

  /** Every piece of s between occurrences of sep, empty pieces included. */
  function SplitAll(s: string, sep: char): (parts: seq<string>)
    ensures |parts| >= 1
    decreases |s|
  {
    if |s| == 0 then [""]
    else
      var rest := SplitAll(s[1..], sep);
      if s[0] == sep then [""] + rest
      else [[s[0]] + rest[0]] + rest[1..]
  }

  /** The pieces hold no separator, and joining them back gives s. */
  lemma {:induction false} SplitAllJoins(s: string, sep: char)
    ensures forall p :: p in SplitAll(s, sep) ==> sep !in p
    ensures Join(SplitAll(s, sep), sep) == s
    decreases |s|
  {
    if |s| > 0 {
      var rest := SplitAll(s[1..], sep);
      SplitAllJoins(s[1..], sep);
      var parts := SplitAll(s, sep);
      if s[0] == sep {
        assert parts[1..] == rest;
      } else {
        assert rest[0] in rest;
        if |rest| > 1 {
          assert parts[1..] == rest[1..];
          forall p | p in rest[1..] ensures p in rest {
          }
        }
      }
      assert [s[0]] + s[1..] == s;
    }
  }

  /** Removes every trailing empty string, as String.split does with limit 0. */
  function DropTrailingEmpty(parts: seq<string>): (r: seq<string>)
    ensures |r| <= |parts| && r == parts[..|r|]
    ensures |r| == 0 || r[|r| - 1] != ""
    ensures forall i :: |r| <= i < |parts| ==> parts[i] == ""
    decreases |parts|
  {
    if |parts| > 0 && parts[|parts| - 1] == "" then DropTrailingEmpty(parts[..|parts| - 1])
    else parts
  }

  /**
   * `s.split(String.valueOf(sep))`: a string without the separator splits into
   * itself alone (so "" gives [""]); otherwise all pieces, without trailing
   * empty ones (so "EASY:5:" gives ["EASY", "5"] and ":" gives []).
   */
  function JavaSplit(s: string, sep: char): (parts: seq<string>)
    ensures forall i :: 0 <= i < |parts| ==> sep !in parts[i]
    ensures sep !in s ==> parts == [s]
    ensures sep in s ==> |parts| == 0 || parts[|parts| - 1] != ""
  {
    if sep !in s then [s]
    else
      var all := SplitAll(s, sep);
      SplitAllJoins(s, sep);
      var r := DropTrailingEmpty(all);
      assert forall i :: 0 <= i < |r| ==> r[i] == all[i] && all[i] in all;
      r
  }

  lemma {:induction false} SplitAllNoSep(s: string, sep: char)
    requires sep !in s
    ensures SplitAll(s, sep) == [s]
    decreases |s|
  {
    if |s| > 0 {
      SplitAllNoSep(s[1..], sep);
      assert [s[0]] + s[1..] == s;
    }
  }

  lemma {:induction false} SplitAllFirstSep(a: string, sep: char, rest: string)
    requires sep !in a
    ensures SplitAll(a + [sep] + rest, sep) == [a] + SplitAll(rest, sep)
    decreases |a|
  {
    var s := a + [sep] + rest;
    if |a| == 0 {
      assert s[1..] == rest;
    } else {
      assert s[1..] == a[1..] + [sep] + rest;
      SplitAllFirstSep(a[1..], sep, rest);
      assert [a[0]] + a[1..] == a;
    }
  }

  /** Splitting two separator-free pieces joined by the separator gives the pieces back. */
  lemma JavaSplitPair(a: string, sep: char, b: string)
    requires sep !in a && sep !in b && b != ""
    ensures JavaSplit(a + [sep] + b, sep) == [a, b]
  {
    var s := a + [sep] + b;
    assert s[|a|] == sep;
    SplitAllFirstSep(a, sep, b);
    SplitAllNoSep(b, sep);
    assert SplitAll(s, sep) == [a, b];
  }

  /** A trailing separator leaves an empty last piece, which split drops. */
  lemma JavaSplitPairTrailing(a: string, sep: char, b: string)
    requires sep !in a && sep !in b && b != ""
    ensures JavaSplit(a + [sep] + b + [sep], sep) == [a, b]
  {
    var s := a + [sep] + (b + [sep]);
    assert s == a + [sep] + b + [sep];
    assert s[|a|] == sep;
    SplitAllFirstSep(a, sep, b + [sep]);
    assert b + [sep] == b + [sep] + "";
    SplitAllFirstSep(b, sep, "");
    assert SplitAll(s, sep) == [a, b, ""];
    assert [a, b, ""][..2] == [a, b];
    assert DropTrailingEmpty([a, b, ""]) == DropTrailingEmpty([a, b]) == [a, b];
    assert sep in s;
  }

  /** Three separator-free pieces joined by the separator split into all three. */
  lemma JavaSplitTriple(a: string, sep: char, b: string, c: string)
    requires sep !in a && sep !in b && sep !in c && c != ""
    ensures JavaSplit(a + [sep] + b + [sep] + c, sep) == [a, b, c]
  {
    var s := a + [sep] + (b + [sep] + c);
    assert s == a + [sep] + b + [sep] + c;
    assert s[|a|] == sep;
    SplitAllFirstSep(a, sep, b + [sep] + c);
    SplitAllFirstSep(b, sep, c);
    SplitAllNoSep(c, sep);
    assert SplitAll(b + [sep] + c, sep) == [b, c];
    assert SplitAll(s, sep) == [a, b, c];
    assert sep in s;
  }

  // ---------------------------------------------------------------- digits

  predicate IsDigit(c: char) {
    '0' <= c <= '9'
  }

  predicate AllDigits(s: string) {
    forall i :: 0 <= i < |s| ==> IsDigit(s[i])
  }

  function DigitValue(c: char): int
    requires IsDigit(c)
  {
    c as int - '0' as int
  }

  function DigitChar(d: int): (c: char)
    requires 0 <= d < 10
    ensures IsDigit(c) && DigitValue(c) == d
  {
    (d + '0' as int) as char
  }

  /** The value of a non-empty run of decimal digits, most significant first. */
  function DigitsValue(s: string): (v: nat)
    requires AllDigits(s)
    decreases |s|
  {
    if |s| == 0 then 0
    else DigitsValue(s[..|s| - 1]) * 10 + DigitValue(s[|s| - 1])
  }

  /** The shortest decimal rendering of a natural number. */
  function Digits(n: nat): (s: string)
    ensures |s| > 0 && AllDigits(s)
    ensures |s| > 1 ==> s[0] != '0'
    decreases n
  {
    if n < 10 then [DigitChar(n)] else Digits(n / 10) + [DigitChar(n % 10)]
  }

  lemma {:induction false} DigitsValueOfDigits(n: nat)
    ensures DigitsValue(Digits(n)) == n
    decreases n
  {
    if n >= 10 {
      var s := Digits(n);
      assert s[..|s| - 1] == Digits(n / 10);
      DigitsValueOfDigits(n / 10);
    }
  }

  /** `Integer.toString(n)`: an optional minus sign, then the digits of |n|. */
  function IntToString(n: int): (s: string)
    ensures |s| > 0
  {
    if n < 0 then "-" + Digits(-n) else Digits(n)
  }

  /**
   * `Integer.parseInt(s)`: an optional '+' or '-', then at least one digit, and
   * the value must fit in 32 bits; anything else is a NumberFormatException (None).
   */
  function ParseInt(s: string): (r: Option<int>)
    ensures r.Some? ==> InInt32(r.value) && |s| > 0
  {
    if |s| == 0 then None
    else
      var signed := s[0] == '-' || s[0] == '+';
      var body := if signed then s[1..] else s;
      if |body| == 0 || !AllDigits(body) then None
      else
        var v: int := if s[0] == '-' then -(DigitsValue(body) as int) else DigitsValue(body);
        if InInt32(v) then Some(v) else None
  }

  /** parseInt reads back what toString writes, for every 32-bit int. */
  lemma ParseIntToString(n: int)
    requires InInt32(n)
    ensures ParseInt(IntToString(n)) == Some(n)
  {
    var s := IntToString(n);
    if n < 0 {
      var body := Digits(-n);
      assert s == "-" + body && s[0] == '-';
      assert s[1..] == body;
      DigitsValueOfDigits(-n);
      assert AllDigits(body) && -(DigitsValue(body) as int) == n;
    } else {
      assert s == Digits(n) && IsDigit(s[0]);
      DigitsValueOfDigits(n);
    }
  }

  /** An int rendered in decimal never contains the separator used by the score file. */
  lemma IntToStringHasNoColon(n: int)
    ensures ':' !in IntToString(n)
  {
    var s := IntToString(n);
    if n < 0 {
      assert s == "-" + Digits(-n);
      assert forall i :: 1 <= i < |s| ==> s[i] == Digits(-n)[i - 1];
    }
    assert forall i :: 0 <= i < |s| ==> s[i] == '-' || IsDigit(s[i]);
  }

  /** A well-formed decimal whose value does not fit in 32 bits is still rejected. */
  lemma ParseIntRejectsOverflow(n: int)
    requires !InInt32(n)
    ensures ParseInt(IntToString(n)) == None
  {
    var s := IntToString(n);
    if n < 0 {
      var body := Digits(-n);
      assert s == "-" + body && s[0] == '-';
      assert s[1..] == body;
      DigitsValueOfDigits(-n);
      assert AllDigits(body) && -(DigitsValue(body) as int) == n;
    } else {
      assert s == Digits(n) && IsDigit(s[0]);
      DigitsValueOfDigits(n);
    }
  }
}
