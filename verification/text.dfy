/**
 * The two pieces of Python string handling the sender's option parser relies
 * on: `str.split(",")` with an explicit separator, and `int(str)` in base 10.
 * `Join` and `ShowInt` are their inverses (`",".join` and `str(int)`), used to
 * state round trips.
 */
module Text {
  import opened Wrappers

  // ---------------------------------------------------------------------------
  // Splitting on a separator character
  // ---------------------------------------------------------------------------

  /** `s.split(sep)`: the pieces between occurrences of `sep`; never empty, and
      an empty string yields one empty piece. */
  function Split(s: string, sep: char): (pieces: seq<string>)
    ensures |pieces| >= 1
    ensures forall i :: 0 <= i < |pieces| ==> sep !in pieces[i]
    decreases |s|
  {
    if |s| == 0 then [""]
    else
      var rest := Split(s[1..], sep);
      if s[0] == sep then [""] + rest
      else [[s[0]] + rest[0]] + rest[1..]
  }

  /** `sep.join(pieces)` for a non-empty list of pieces. */
  function Join(pieces: seq<string>, sep: char): string
    requires |pieces| >= 1
    decreases |pieces|
  {
    if |pieces| == 1 then pieces[0]
    else pieces[0] + [sep] + Join(pieces[1..], sep)
  }

  /** Joining the pieces of a split gives back the original string. */
  lemma {:induction false} JoinSplit(s: string, sep: char)
    ensures Join(Split(s, sep), sep) == s
    decreases |s|
  {
    if |s| > 0 {
      JoinSplit(s[1..], sep);
      var rest := Split(s[1..], sep);
      if s[0] != sep {
        if |rest| == 1 {
          assert Split(s, sep) == [[s[0]] + rest[0]];
        } else {
          assert Split(s, sep)[1..] == rest[1..];
          assert Join(rest, sep) == rest[0] + [sep] + Join(rest[1..], sep);
        }
      } else {
        assert Split(s, sep)[1..] == rest;
      }
    }
  }

  /** A string free of the separator is split into itself alone. */
  lemma {:induction false} SplitPlain(s: string, sep: char)
    requires sep !in s
    ensures Split(s, sep) == [s]
    decreases |s|
  {
    if |s| > 0 {
      assert sep !in s[1..];
      SplitPlain(s[1..], sep);
      assert [s[0]] + s[1..] == s;
    }
  }

  /** Splitting `a + sep + b` with `a` free of the separator yields `a`
      followed by the pieces of `b`. */
  lemma {:induction false} SplitAfterPiece(a: string, b: string, sep: char)
    requires sep !in a
    ensures Split(a + [sep] + b, sep) == [a] + Split(b, sep)
    decreases |a|
  {
    if |a| == 0 {
      assert a + [sep] + b == [sep] + b;
      assert ([sep] + b)[1..] == b;
    } else {
      var s := a + [sep] + b;
      assert s[1..] == a[1..] + [sep] + b;
      assert sep !in a[1..];
      SplitAfterPiece(a[1..], b, sep);
      assert [a[0]] + a[1..] == a;
    }
  }

  /** Splitting a join of separator-free pieces gives the pieces back. */
  lemma {:induction false} SplitJoin(pieces: seq<string>, sep: char)
    requires |pieces| >= 1
    requires forall i :: 0 <= i < |pieces| ==> sep !in pieces[i]
    ensures Split(Join(pieces, sep), sep) == pieces
    decreases |pieces|
  {
    if |pieces| == 1 {
      SplitPlain(pieces[0], sep);
    } else {
      assert sep !in pieces[0];
      SplitJoin(pieces[1..], sep);
      SplitAfterPiece(pieces[0], Join(pieces[1..], sep), sep);
      assert [pieces[0]] + pieces[1..] == pieces;
    }
  }

  // ---------------------------------------------------------------------------
  // Decimal integers
  // ---------------------------------------------------------------------------

  predicate IsDigit(c: char) { '0' <= c <= '9' }

  /** The whitespace `int()` skips around an ASCII number: space, tab, line
      feed, carriage return, vertical tab and form feed. */
  predicate IsSpace(c: char)
  {
    c == ' ' || c == '\t' || c == '\n' || c == '\r' || c == '\U{0B}' || c == '\U{0C}'
  }

  /** The string without its leading whitespace. */
  function TrimLeft(s: string): (t: string)
    ensures |t| <= |s| && t == s[|s| - |t|..]
    ensures |t| > 0 ==> !IsSpace(t[0])
  {
    if |s| > 0 && IsSpace(s[0]) then TrimLeft(s[1..]) else s
  }

  /** The string without its trailing whitespace. */
  function TrimRight(s: string): (t: string)
    ensures |t| <= |s| && t == s[..|t|]
    ensures |t| > 0 ==> !IsSpace(t[|t| - 1])
  {
    if |s| > 0 && IsSpace(s[|s| - 1]) then TrimRight(s[..|s| - 1]) else s
  }

  /** Surrounding whitespace removed, as `int()` does before reading digits. */
  function Strip(s: string): string
  {
    TrimRight(TrimLeft(s))
  }

  /** Python's decimal literal body: digits, where single underscores may
      separate two digits (`1_000`). */
  predicate DigitGroups(d: string)
    decreases |d|
  {
    && |d| >= 1
    && IsDigit(d[0])
    && (|d| == 1 || DigitGroups(d[1..]) || (d[1] == '_' && DigitGroups(d[2..])))
  }

  function DropUnderscores(d: string): (r: string)
    ensures |r| <= |d|
  {
    if |d| == 0 then ""
    else if d[0] == '_' then DropUnderscores(d[1..])
    else [d[0]] + DropUnderscores(d[1..])
  }

  function DigitOf(c: char): nat
  {
    if IsDigit(c) then c as int - '0' as int else 0
  }

  /** The value of a string of decimal digits, most significant first. */
  function DigitsValue(d: string): nat
    decreases |d|
  {
    if |d| == 0 then 0 else 10 * DigitsValue(d[..|d| - 1]) + DigitOf(d[|d| - 1])
  }

  /** The unsigned part of `int()`: a well-formed digit run and its value. */
  function ParseNat(d: string): (r: Option<int>)
    ensures r.Some? ==> r.value >= 0
  {
    if DigitGroups(d) then Some(DigitsValue(DropUnderscores(d)) as int) else None
  }

  /** `int(s)` for base 10: surrounding whitespace, an optional sign, then
      digits; anything else is a `ValueError` (here `None`). */
  function ParseInt(s: string): (r: Option<int>)
    ensures r.Some? ==> |Strip(s)| >= 1
  {
    ParseSigned(Strip(s))
  }

  /** An optional sign followed by a digit run. */
  function ParseSigned(t: string): (r: Option<int>)
    ensures r.Some? ==> |t| >= 1
  {
    var signed := |t| >= 1 && (t[0] == '-' || t[0] == '+');
    var digits := if signed then t[1..] else t;
    match ParseNat(digits)
    case None => None
    case Some(v) => Some(if signed && t[0] == '-' then -v else v)
  }

  function DigitChar(v: nat): (c: char)
    requires v < 10
    ensures IsDigit(c) && DigitOf(c) == v
  {
    ('0' as int + v) as char
  }

  /** `str(n)` for a non-negative `n`: no leading zeros, no separators. */
  function ShowNat(n: nat): (s: string)
    ensures |s| >= 1
  {
    (if n < 10 then "" else ShowNat(n / 10)) + [DigitChar(n % 10)]
  }

  /** `str(n)`: a minus sign for negative numbers, then the digits. */
  function ShowInt(n: int): (s: string)
    ensures |s| >= 1
  {
    if n < 0 then "-" + ShowNat(-n) else ShowNat(n)
  }

  lemma {:induction false} ShowNatDigits(n: nat)
    ensures forall i :: 0 <= i < |ShowNat(n)| ==> IsDigit(ShowNat(n)[i])
  {
    if n >= 10 {
      ShowNatDigits(n / 10);
    }
  }

  /** `str(n)` holds nothing but a minus sign and digits. */
  lemma ShowIntChars(n: int)
    ensures forall i :: 0 <= i < |ShowInt(n)| ==> ShowInt(n)[i] == '-' || IsDigit(ShowInt(n)[i])
  {
    if n < 0 {
      ShowNatDigits(-n);
      assert forall i :: 1 <= i < |ShowInt(n)| ==> ShowInt(n)[i] == ShowNat(-n)[i - 1];
    } else {
      ShowNatDigits(n);
    }
  }

  lemma {:induction false} DigitsValueShowNat(n: nat)
    ensures DigitsValue(ShowNat(n)) == n
  {
    var s := ShowNat(n);
    var prefix := if n < 10 then "" else ShowNat(n / 10);
    assert s == prefix + [DigitChar(n % 10)];
    assert s[..|s| - 1] == prefix;
    if n >= 10 {
      DigitsValueShowNat(n / 10);
    }
  }

  lemma {:induction false} AllDigitsAreGroups(d: string)
    requires |d| >= 1
    requires forall i :: 0 <= i < |d| ==> IsDigit(d[i])
    ensures DigitGroups(d)
    decreases |d|
  {
    if |d| > 1 {
      AllDigitsAreGroups(d[1..]);
    }
  }

  lemma {:induction false} DropUnderscoresNoop(d: string)
    requires forall i :: 0 <= i < |d| ==> IsDigit(d[i])
    ensures DropUnderscores(d) == d
    decreases |d|
  {
    if |d| > 0 {
      DropUnderscoresNoop(d[1..]);
    }
  }

  lemma StripNoSpace(s: string)
    requires |s| >= 1 && !IsSpace(s[0]) && !IsSpace(s[|s| - 1])
    ensures Strip(s) == s
  {
  }

  lemma ParseShowNat(n: nat)
    ensures ParseNat(ShowNat(n)) == Some(n as int)
  {
    var s := ShowNat(n);
    ShowNatDigits(n);
    AllDigitsAreGroups(s);
    DropUnderscoresNoop(s);
    DigitsValueShowNat(n);
  }

  lemma ParseShowNegative(n: int)
    requires n < 0
    ensures ParseInt(ShowInt(n)) == Some(n)
  {
    var s := ShowInt(n);
    var m: nat := -n;
    assert s == "-" + ShowNat(m);
    ShowNatDigits(m);
    assert s[|s| - 1] == ShowNat(m)[|ShowNat(m)| - 1];
    StripNoSpace(s);
    assert s[1..] == ShowNat(m);
    ParseShowNat(m);
    assert ParseSigned(s) == Some(n);
  }

  lemma ParseShowNonNegative(n: int)
    requires n >= 0
    ensures ParseInt(ShowInt(n)) == Some(n)
  {
    var s := ShowInt(n);
    assert s == ShowNat(n);
    ShowNatDigits(n);
    StripNoSpace(s);
    assert IsDigit(s[0]);
    ParseShowNat(n);
    assert ParseSigned(s) == Some(n);
  }

  /** Round trip: `int(str(n)) == n` for every integer. */
  lemma ParseShowInt(n: int)
    ensures ParseInt(ShowInt(n)) == Some(n)
  {
    if n < 0 {
      ParseShowNegative(n);
    } else {
      ParseShowNonNegative(n);
    }
  }
}
