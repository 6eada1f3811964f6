/**
 * String helpers with JavaScript's semantics: `String.prototype.trim`, the regular
 * expression class `\s`, `Array.prototype.join`, `String.prototype.split` with a
 * one-character separator, and the integer part of `Number(text)`.
 */
module Text {

  /** ECMAScript WhiteSpace and LineTerminator code points: the characters `trim`
      removes and `\s` matches. */
  predicate IsSpace(c: char)
  {
    || c == ' ' || ('\t' <= c <= '\r')
    || c == '\U{A0}' || c == '\U{1680}' || ('\U{2000}' <= c <= '\U{200A}')
    || c == '\U{2028}' || c == '\U{2029}' || c == '\U{202F}' || c == '\U{205F}'
    || c == '\U{3000}' || c == '\U{FEFF}'
  }

  predicate AllSpace(s: string)
  {
    forall k :: 0 <= k < |s| ==> IsSpace(s[k])
  }

  /** A string with no whitespace at either end. */
  predicate IsTrimmed(s: string)
  {
    s == [] || (!IsSpace(s[0]) && !IsSpace(s[|s| - 1]))
  }

  function TrimStart(s: string): (r: string)
    ensures |r| <= |s|
  {
    if s != [] && IsSpace(s[0]) then TrimStart(s[1..]) else s
  }

  function TrimEnd(s: string): (r: string)
    ensures |r| <= |s|
  {
    if s != [] && IsSpace(s[|s| - 1]) then TrimEnd(s[..|s| - 1]) else s
  }

  /** `String.prototype.trim`: `s` without the whitespace at both ends. */
  function Trim(s: string): string
  {
    TrimEnd(TrimStart(s))
  }

  /** `trim` leaves no whitespace at either end. */
  lemma TrimIsTrimmed(s: string)
    ensures IsTrimmed(Trim(s))
  {
    TrimStartSuffix(s);
    TrimEndPrefix(TrimStart(s));
  }

  /** `TrimStart` keeps a suffix and drops only whitespace in front of it. */
  lemma {:induction false} TrimStartSuffix(s: string)
    ensures TrimStart(s) == s[|s| - |TrimStart(s)|..]
    ensures AllSpace(s[..|s| - |TrimStart(s)|])
    ensures TrimStart(s) == [] || !IsSpace(TrimStart(s)[0])
  {
    if s != [] && IsSpace(s[0]) {
      TrimStartSuffix(s[1..]);
      var n := |s| - |TrimStart(s)|;
      assert forall k :: 1 <= k < n ==> s[..n][k] == s[1..][..n - 1][k - 1];
    }
  }

  /** `TrimEnd` keeps a prefix and drops only whitespace behind it. */
  lemma {:induction false} TrimEndPrefix(s: string)
    ensures TrimEnd(s) == s[..|TrimEnd(s)|]
    ensures AllSpace(s[|TrimEnd(s)|..])
    ensures TrimEnd(s) == [] || !IsSpace(TrimEnd(s)[|TrimEnd(s)| - 1])
  {
    if s != [] && IsSpace(s[|s| - 1]) {
      TrimEndPrefix(s[..|s| - 1]);
      var n := |TrimEnd(s)|;
      assert forall k :: 0 <= k < |s| - 1 - n ==> s[n..][k] == s[..|s| - 1][n..][k];
    }
  }

  /** `trim` keeps a slice of its input and removes only whitespace around it. */
  lemma TrimIsSlice(s: string)
    ensures exists i, j :: 0 <= i <= j <= |s| && Trim(s) == s[i..j] && AllSpace(s[..i]) && AllSpace(s[j..])
  {
    var t := TrimStart(s);
    var r := TrimEnd(t);
    TrimStartSuffix(s);
    TrimEndPrefix(t);
    var i := |s| - |t|;
    assert r == s[i..i + |r|];
    assert s[i + |r|..] == t[|r|..];
  }

  lemma TrimmedTrim(s: string)
    requires IsTrimmed(s)
    ensures Trim(s) == s
  {
  }

  lemma {:induction false} TrimIdempotent(s: string)
    ensures Trim(Trim(s)) == Trim(s)
  {
    TrimIsTrimmed(s);
    TrimmedTrim(Trim(s));
  }

  /** `TrimStart` removes everything exactly when everything is whitespace. */
  lemma {:induction false} TrimStartEmpty(s: string)
    ensures TrimStart(s) == [] <==> AllSpace(s)
  {
    TrimStartSuffix(s);
    if s != [] {
      TrimStartEmpty(s[1..]);
      assert forall k :: 1 <= k < |s| ==> s[k] == s[1..][k - 1];
    }
  }

  /** `TrimEnd` keeps a string whose first character is not whitespace non-empty. */
  lemma {:induction false} TrimEndKeepsFirst(t: string)
    requires t != [] && !IsSpace(t[0])
    ensures TrimEnd(t) != []
  {
    if IsSpace(t[|t| - 1]) {
      TrimEndKeepsFirst(t[..|t| - 1]);
    }
  }

  /** A cell or field is blank when it trims to the empty string. */
  lemma TrimEmptyIffAllSpace(s: string)
    ensures Trim(s) == [] <==> AllSpace(s)
  {
    TrimStartEmpty(s);
    TrimStartSuffix(s);
    if TrimStart(s) != [] {
      TrimEndKeepsFirst(TrimStart(s));
    }
  }

  /** `parts.join(sep)` for a one-character separator. */
  function Join(parts: seq<string>, sep: char): string
  {
    if |parts| == 0 then ""
    else if |parts| == 1 then parts[0]
    else parts[0] + [sep] + Join(parts[1..], sep)
  }

  /** `s.split(sep)` for a one-character separator: the pieces between separators,
      always at least one, none holding the separator. */
  function Split(s: string, sep: char): (r: seq<string>)
    ensures |r| >= 1
    ensures forall k :: 0 <= k < |r| ==> sep !in r[k]
  {
    if s == [] then [""]
    else if s[0] == sep then [""] + Split(s[1..], sep)
    else
      var t := Split(s[1..], sep);
      [[s[0]] + t[0]] + t[1..]
  }

  /** Joining the pieces of a split gives the text back. */
  lemma {:induction false} JoinSplit(s: string, sep: char)
    ensures Join(Split(s, sep), sep) == s
  {
    if s != [] {
      JoinSplit(s[1..], sep);
      var t := Split(s[1..], sep);
      if s[0] == sep {
        var r := Split(s, sep);
        assert r == [""] + t && r[1..] == t;
        assert Join(r, sep) == "" + [sep] + Join(t, sep);
      } else {
        var r := Split(s, sep);
        assert r[0] == [s[0]] + t[0];
        if |t| == 1 {
          assert Join(r, sep) == [s[0]] + t[0];
        } else {
          assert r[1..] == t[1..];
          assert Join(t, sep) == t[0] + [sep] + Join(t[1..], sep);
          assert Join(r, sep) == [s[0]] + t[0] + [sep] + Join(t[1..], sep);
        }
      }
    }
  }

  /** Splitting undoes joining when no piece contains the separator. */
  lemma {:induction false} SplitJoin(parts: seq<string>, sep: char)
    requires |parts| >= 1
    requires forall k :: 0 <= k < |parts| ==> sep !in parts[k]
    ensures Split(Join(parts, sep), sep) == parts
  {
    if |parts| == 1 {
      SplitPiece(parts[0], [], sep);
    } else {
      SplitJoin(parts[1..], sep);
      SplitPiece(parts[0], Join(parts[1..], sep), sep);
      assert [parts[0]] + parts[1..] == parts;
    }
  }

  /** Splitting `p + [sep] + rest` (or just `p` when there is no rest) puts `p`
      in front of the pieces of `rest`. */
  lemma {:induction false} SplitPiece(p: string, rest: string, sep: char)
    requires sep !in p
    ensures Split(p, sep) == [p]
    ensures Split(p + [sep] + rest, sep) == [p] + Split(rest, sep)
  {
    if p != [] {
      SplitPiece(p[1..], rest, sep);
      assert p[0] in p;
      assert [p[0]] + p[1..] == p;
      var s := p + [sep] + rest;
      assert s[0] == p[0] && s[1..] == p[1..] + [sep] + rest;
      var t := Split(s[1..], sep);
      assert t == [p[1..]] + Split(rest, sep);
      assert Split(s, sep) == [[p[0]] + t[0]] + t[1..];
    } else {
      assert ([sep] + rest)[1..] == rest;
    }
  }

  predicate IsDigit(c: char)
  {
    '0' <= c <= '9'
  }

  function DigitChar(d: nat): (c: char)
    requires d < 10
    ensures IsDigit(c) && DigitValue(c) == d
  {
    ('0' as int + d) as char
  }

  function DigitValue(c: char): nat
    requires IsDigit(c)
  {
    (c as int - '0' as int) as nat
  }

  /** The decimal digits of a natural number, without leading zeros. */
  function Digits(n: nat): (r: string)
    ensures |r| >= 1 && AllDigits(r)
  {
    if n < 10 then [DigitChar(n)] else Digits(n / 10) + [DigitChar(n % 10)]
  }

  /** The value of a non-empty run of decimal digits. */
  function DigitsValue(s: string): nat
    requires AllDigits(s)
  {
    if s == [] then 0 else DigitsValue(s[..|s| - 1]) * 10 + DigitValue(s[|s| - 1])
  }

  lemma {:induction false} DigitsValueOfDigits(n: nat)
    ensures DigitsValue(Digits(n)) == n
  {
    if n >= 10 {
      var q, m := n / 10, n % 10;
      DigitsValueOfDigits(q);
      var d := Digits(n);
      assert d == Digits(q) + [DigitChar(m)];
      assert d[..|d| - 1] == Digits(q);
      assert DigitsValue(d) == DigitsValue(Digits(q)) * 10 + m;
      assert q * 10 + m == n;
    }
  }

  /** `String(n)` for an integer `n`. */
  function IntToString(n: int): string
  {
    if n < 0 then "-" + Digits(-n) else Digits(n)
  }

  predicate AllDigits(s: string)
  {
    forall k :: 0 <= k < |s| ==> IsDigit(s[k])
  }

  /** What follows an optional leading sign. */
  function UnsignedPart(t: string): string
  {
    if t != [] && (t[0] == '+' || t[0] == '-') then t[1..] else t
  }

  /** An optional sign followed by at least one decimal digit. */
  predicate IsIntText(t: string)
  {
    UnsignedPart(t) != [] && AllDigits(UnsignedPart(t))
  }

  function IntTextValue(t: string): int
    requires IsIntText(t)
  {
    var v: int := DigitsValue(UnsignedPart(t));
    if t[0] == '-' then -v else v
  }

  /** `toInt(text, fallback)`: `Number(text.trim())` when that is a finite number,
      else the fallback. Blank text is the number 0, not the fallback. */
  function ToIntText(s: string, fallback: int): (r: int)
    ensures AllSpace(s) ==> r == 0
    ensures !AllSpace(s) && !IsIntText(Trim(s)) ==> r == fallback
  {
    var t := Trim(s);
    TrimEmptyIffAllSpace(s);
    if t == [] then 0 else if IsIntText(t) then IntTextValue(t) else fallback
  }

  /** `toInt(String(n))` gives back `n`. */
  lemma {:induction false} ToIntOfIntToString(n: int, fallback: int)
    ensures ToIntText(IntToString(n), fallback) == n
  {
    var s := IntToString(n);
    var m: nat := if n < 0 then -n else n;
    var d := Digits(m);
    DigitsValueOfDigits(m);
    assert IsDigit(d[0]) && IsDigit(d[|d| - 1]);
    assert s[|s| - 1] == d[|d| - 1];
    assert s[0] == '-' || s[0] == d[0];
    assert IsTrimmed(s);
    TrimmedTrim(s);
    if n < 0 {
      assert s == "-" + d && s[1..] == d;
    } else {
      assert s == d && s[0] != '+' && s[0] != '-';
    }
    assert UnsignedPart(s) == d;
    assert IsIntText(s);
    assert IntTextValue(s) == n;
  }
}
