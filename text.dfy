/**
 * The string helpers that the engine borrows from JavaScript: `split`, `join`,
 * `trim`, the `\d`, `\w` and `.` character classes of regular expressions, and
 * the decimal conversions done by `Number(...)` and template literals.
 */
module Text {

  /** `\d` in a JavaScript regular expression (ASCII digits only). */
  predicate IsDigit(c: char)
  {
    '0' <= c <= '9'
  }

  /** `/^\d+$/.test(s)`: a non-empty run of digits. */
  predicate IsDigits(s: string)
  {
    |s| > 0 && forall i :: 0 <= i < |s| ==> IsDigit(s[i])
  }

  /** `\w`: ASCII letters, digits and underscore. */
  predicate IsWordChar(c: char)
  {
    ('a' <= c <= 'z') || ('A' <= c <= 'Z') || IsDigit(c) || c == '_'
  }

  predicate IsWord(s: string)
  {
    forall i :: 0 <= i < |s| ==> IsWordChar(s[i])
  }

  /** The characters that `.` does not match without the `s` flag. */
  predicate IsLineTerminator(c: char)
  {
    var n := c as int;
    n == 0x0A || n == 0x0D || n == 0x2028 || n == 0x2029
  }

  /** The characters `String.prototype.trim` removes (white space and line terminators). */
  predicate IsJsSpace(c: char)
  {
    var n := c as int;
    n == 0x09 || n == 0x0A || n == 0x0B || n == 0x0C || n == 0x0D || n == 0x20 ||
    n == 0xA0 || n == 0x1680 || (0x2000 <= n <= 0x200A) || n == 0x2028 ||
    n == 0x2029 || n == 0x202F || n == 0x205F || n == 0x3000 || n == 0xFEFF
  }

  function DigitValue(c: char): (d: nat)
    requires IsDigit(c)
    ensures d < 10
  {
    c as int - '0' as int
  }

  function DigitChar(d: nat): (c: char)
    requires d < 10
    ensures IsDigit(c) && DigitValue(c) == d
  {
    (d + '0' as int) as char
  }

  /** `Number(s)` for a string of digits (leading zeros are accepted and ignored). */
  function DigitsValue(s: string): nat
    requires forall i :: 0 <= i < |s| ==> IsDigit(s[i])
  {
    if s == [] then 0 else DigitsValue(s[..|s| - 1]) * 10 + DigitValue(s[|s| - 1])
  }

  /** A digit string as JavaScript prints an array index: no leading zero unless it is "0". */
  predicate IsCanonicalIndex(s: string)
  {
    IsDigits(s) && (|s| == 1 || s[0] != '0')
  }

  /** Decimal text of a natural number, as a template literal prints it. */
  function NatToString(n: nat): string
  {
    if n < 10 then [DigitChar(n)] else NatToString(n / 10) + [DigitChar(n % 10)]
  }

  /** The decimal text of a number is a canonical index that reads back as the number. */
  lemma {:induction false} NatToStringCanonical(n: nat)
    ensures IsCanonicalIndex(NatToString(n))
    ensures DigitsValue(NatToString(n)) == n
  {
    if n >= 10 {
      var p := NatToString(n / 10);
      var s := p + [DigitChar(n % 10)];
      NatToStringCanonical(n / 10);
      assert s[..|s| - 1] == p;
      assert s[0] == p[0];
    }
  }

  /** Decimal text of an integer, with a leading '-' when negative. */
  function IntToString(i: int): string
  {
    if i < 0 then "-" + NatToString(-i) else NatToString(i)
  }

  lemma {:induction false} LeadingNonZeroIsPositive(s: string)
    requires IsDigits(s) && s[0] != '0'
    ensures DigitsValue(s) >= 1
  {
    if |s| > 1 {
      var p := s[..|s| - 1];
      assert p[0] == s[0];
      LeadingNonZeroIsPositive(p);
    }
  }

  /** Reading back a canonical index gives the same text: the two conversions are inverse. */
  lemma {:induction false} CanonicalRoundTrip(s: string)
    requires IsCanonicalIndex(s)
    ensures NatToString(DigitsValue(s)) == s
  {
    if |s| > 1 {
      var p := s[..|s| - 1];
      assert p[0] == s[0];
      LeadingNonZeroIsPositive(p);
      CanonicalRoundTrip(p);
      assert s == p + [s[|s| - 1]];
    }
  }

  /** Digit strings that print back differently are exactly the non-canonical ones. */
  lemma CanonicalIff(s: string)
    requires IsDigits(s)
    ensures NatToString(DigitsValue(s)) == s <==> IsCanonicalIndex(s)
  {
    NatToStringCanonical(DigitsValue(s));
    if IsCanonicalIndex(s) {
      CanonicalRoundTrip(s);
    }
  }

  lemma NatToStringInjective(m: nat, n: nat)
    requires NatToString(m) == NatToString(n)
    ensures m == n
  {
    NatToStringCanonical(m);
    NatToStringCanonical(n);
  }

  /** `s.split(sep)` for a one-character separator: never empty, and no part holds the separator. */
  function Split(s: string, sep: char): (parts: seq<string>)
    ensures |parts| >= 1
    ensures forall i :: 0 <= i < |parts| ==> sep !in parts[i]
    decreases |s|
  {
    if s == [] then [""]
    else
      var rest := Split(s[1..], sep);
      if s[0] == sep then [""] + rest
      else [[s[0]] + rest[0]] + rest[1..]
  }

  /** `parts.join(sep)`; the empty list joins to "". */
  function Join(parts: seq<string>, sep: string): string
  {
    if parts == [] then ""
    else if |parts| == 1 then parts[0]
    else parts[0] + sep + Join(parts[1..], sep)
  }

  /** Joining the parts of a split gives back the original text. */
  lemma {:induction false} JoinSplit(s: string, sep: char)
    ensures Join(Split(s, sep), [sep]) == s
  {
    if s != [] {
      var rest := Split(s[1..], sep);
      JoinSplit(s[1..], sep);
      if s[0] == sep {
        assert Split(s, sep) == [""] + rest;
        assert Split(s, sep)[1..] == rest;
      } else {
        var parts := Split(s, sep);
        assert parts == [[s[0]] + rest[0]] + rest[1..];
        if |rest| == 1 {
          assert parts == [[s[0]] + rest[0]];
        } else {
          assert parts[1..] == rest[1..];
          assert Join(rest, [sep]) == rest[0] + [sep] + Join(rest[1..], [sep]);
        }
      }
    }
  }

  /** Splitting a join of separator-free parts gives back the parts. */
  lemma {:induction false} SplitJoin(parts: seq<string>, sep: char)
    requires |parts| >= 1
    requires forall i :: 0 <= i < |parts| ==> sep !in parts[i]
    ensures Split(Join(parts, [sep]), sep) == parts
    decreases |parts|, |parts[0]|
  {
    var p0 := parts[0];
    if p0 == [] {
      if |parts| > 1 {
        var tail := parts[1..];
        SplitJoin(tail, sep);
        assert Join(parts, [sep]) == [sep] + Join(tail, [sep]);
        assert parts == [""] + tail;
      }
    } else {
      var shorter := [p0[1..]] + parts[1..];
      assert sep !in shorter[0];
      forall i | 1 <= i < |shorter| ensures sep !in shorter[i] {
        assert shorter[i] == parts[i];
      }
      SplitJoin(shorter, sep);
      var joined := Join(parts, [sep]);
      assert joined == [p0[0]] + Join(shorter, [sep]) by {
        if |parts| == 1 {
          assert shorter == [p0[1..]];
          assert p0 == [p0[0]] + p0[1..];
        } else {
          assert shorter[1..] == parts[1..];
          assert p0 == [p0[0]] + p0[1..];
        }
      }
      assert joined[0] == p0[0] && joined[1..] == Join(shorter, [sep]);
      assert p0[0] != sep by { assert p0[0] == parts[0][0]; }
      assert [p0[0]] + shorter[0] == p0;
      assert shorter[1..] == parts[1..];
      assert parts == [p0] + parts[1..];
    }
  }

  /** Leading white space removed: the result is a suffix of the input. */
  function TrimStart(s: string): (r: string)
    ensures |r| <= |s| && r == s[|s| - |r|..]
    ensures r == [] || !IsJsSpace(r[0])
  {
    if s != [] && IsJsSpace(s[0]) then TrimStart(s[1..]) else s
  }

  /** Only white space is dropped at the start. */
  lemma {:induction false} TrimStartCutsSpace(s: string)
    ensures forall j :: 0 <= j < |s| - |TrimStart(s)| ==> IsJsSpace(s[j])
  {
    if s != [] && IsJsSpace(s[0]) {
      var t := s[1..];
      assert TrimStart(s) == TrimStart(t);
      TrimStartCutsSpace(t);
      forall j | 1 <= j < |s| - |TrimStart(s)| ensures IsJsSpace(s[j]) {
        assert s[j] == t[j - 1];
      }
    }
  }

  /** Trailing white space removed: the result is a prefix of the input. */
  function TrimEnd(s: string): (r: string)
    ensures |r| <= |s| && r == s[..|r|]
    ensures r == [] || !IsJsSpace(r[|r| - 1])
  {
    if s != [] && IsJsSpace(s[|s| - 1]) then TrimEnd(s[..|s| - 1]) else s
  }

  /** Only white space is dropped at the end. */
  lemma {:induction false} TrimEndCutsSpace(s: string)
    ensures forall j :: |TrimEnd(s)| <= j < |s| ==> IsJsSpace(s[j])
  {
    if s != [] && IsJsSpace(s[|s| - 1]) {
      var t := s[..|s| - 1];
      assert TrimEnd(s) == TrimEnd(t);
      TrimEndCutsSpace(t);
      forall j | |TrimEnd(s)| <= j < |s| - 1 ensures IsJsSpace(s[j]) {
        assert s[j] == t[j];
      }
    }
  }

  /** `r` occurs in `s` starting at position `i`. */
  predicate IsSliceAt(r: string, s: string, i: int)
  {
    0 <= i <= |s| - |r| && r == s[i..i + |r|]
  }

  /** `r` is the piece of `s` at `i`, and everything before and after it is white space. */
  predicate TrimmedAt(r: string, s: string, i: int)
  {
    IsSliceAt(r, s, i) &&
    (forall j :: 0 <= j < i ==> IsJsSpace(s[j])) &&
    (forall j :: i + |r| <= j < |s| ==> IsJsSpace(s[j]))
  }

  /**
   * `s.trim()`: a contiguous piece of the input with no white space at
   * either end, where everything cut off before and after it is white space.
   */
  function Trim(s: string): (r: string)
    ensures exists i :: TrimmedAt(r, s, i)
    ensures r == [] || (!IsJsSpace(r[0]) && !IsJsSpace(r[|r| - 1]))
  {
    TrimPieces(s);
    TrimEnd(TrimStart(s))
  }

  lemma TrimPieces(s: string)
    ensures TrimmedAt(TrimEnd(TrimStart(s)), s, |s| - |TrimStart(s)|)
  {
    TrimIsSlice(s);
    TrimCutsSpace(s);
  }

  lemma TrimIsSlice(s: string)
    ensures IsSliceAt(TrimEnd(TrimStart(s)), s, |s| - |TrimStart(s)|)
  {
    var a := TrimStart(s);
    var r := TrimEnd(a);
    assert r == s[|s| - |a|..][..|r|];
  }

  lemma TrimCutsSpace(s: string)
    ensures var i := |s| - |TrimStart(s)|;
            var r := TrimEnd(TrimStart(s));
            (forall j :: 0 <= j < i ==> IsJsSpace(s[j])) &&
            (forall j :: i + |r| <= j < |s| ==> IsJsSpace(s[j]))
  {
    var a := TrimStart(s);
    var r := TrimEnd(a);
    var i := |s| - |a|;
    TrimStartCutsSpace(s);
    TrimEndCutsSpace(a);
    forall j | i + |r| <= j < |s| ensures IsJsSpace(s[j]) {
      assert s[j] == a[j - i];
    }
  }

  /** Trimming twice is trimming once. */
  lemma TrimIdempotent(s: string)
    ensures Trim(Trim(s)) == Trim(s)
  {
    var r := Trim(s);
    assert TrimStart(r) == r;
    assert TrimEnd(r) == r;
  }

  /**
   * Trimming a text that is white space outside `lo..hi` and has no white
   * space at the ends of `lo..hi` gives exactly that piece: `trim()` is
   * determined by these facts.
   */
  lemma TrimFindsCore(s: string, lo: int, hi: int)
    requires 0 <= lo <= hi <= |s|
    requires forall j :: 0 <= j < lo ==> IsJsSpace(s[j])
    requires forall j :: hi <= j < |s| ==> IsJsSpace(s[j])
    requires lo == hi || (!IsJsSpace(s[lo]) && !IsJsSpace(s[hi - 1]))
    ensures Trim(s) == s[lo..hi]
  {
    var r := Trim(s);
    var i :| TrimmedAt(r, s, i);
    if lo < hi {
      TrimmedBounds(r, s, i, lo, hi);
    }
  }

  /** A trimmed piece starts at the first and ends at the last character that is not white space. */
  lemma TrimmedBounds(r: string, s: string, i: int, lo: int, hi: int)
    requires TrimmedAt(r, s, i) && 0 <= lo < hi <= |s|
    requires r == [] || (!IsJsSpace(r[0]) && !IsJsSpace(r[|r| - 1]))
    requires !IsJsSpace(s[lo]) && !IsJsSpace(s[hi - 1])
    requires forall j :: 0 <= j < lo ==> IsJsSpace(s[j])
    requires forall j :: hi <= j < |s| ==> IsJsSpace(s[j])
    ensures i == lo && i + |r| == hi
  {
    assert i <= lo && i + |r| >= hi;
    assert r[0] == s[i] && r[|r| - 1] == s[i + |r| - 1];
  }

  /** The length JavaScript reports: UTF-16 code units, two for a character outside the Basic Multilingual Plane. */
  function Utf16Length(s: string): (n: nat)
    ensures |s| <= n <= 2 * |s|
  {
    if s == [] then 0 else (if s[0] as int >= 0x1_0000 then 2 else 1) + Utf16Length(s[1..])
  }

  /** The JavaScript length is the character count exactly when no character lies outside the Basic Multilingual Plane. */
  lemma {:induction false} Utf16LengthIsCount(s: string)
    ensures Utf16Length(s) == |s| <==> forall i :: 0 <= i < |s| ==> s[i] as int < 0x1_0000
  {
    if s != [] {
      Utf16LengthIsCount(s[1..]);
      assert forall i :: 1 <= i < |s| ==> s[i] == s[1..][i - 1];
    }
  }

  /** A character outside the Basic Multilingual Plane, such as U+1F600, has length two. */
  lemma AstralCharCountsTwice()
    ensures Utf16Length("\U{1F600}") == 2
  {
  }
}
