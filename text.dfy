/**
 * The pieces of Python's string handling that parsing a business-hours range
 * relies on: `str.split` with a one-character separator and `int(str)` for
 * base-10 text.
 */
module Text {
  import opened Wrappers

  /** Number of occurrences of `c` in `s`. */
  function Count(s: string, c: char): nat
    decreases |s|
  {
    if s == [] then 0 else (if s[0] == c then 1 else 0) + Count(s[1..], c)
  }

  /**
   * `s.split(sep)`: every occurrence of `sep` separates two parts and empty
   * parts are kept, so there is always one part more than separators.
   */
  function Split(s: string, sep: char): (parts: seq<string>)
    ensures |parts| == Count(s, sep) + 1
    ensures forall k :: 0 <= k < |parts| ==> sep !in parts[k]
    decreases |s|
  {
    if s == [] then [""]
    else
      var rest := Split(s[1..], sep);
      if s[0] == sep then [""] + rest
      else [[s[0]] + rest[0]] + rest[1..]
  }

  /** `sep.join(parts)`. */
  function Join(parts: seq<string>, sep: char): string
    requires |parts| > 0
    decreases |parts|
  {
    if |parts| == 1 then parts[0] else parts[0] + [sep] + Join(parts[1..], sep)
  }

  /** Splitting at the first separator. */
  lemma {:induction false} SplitAtFirst(a: string, sep: char, rest: string)
    requires sep !in a
    ensures Split(a + [sep] + rest, sep) == [a] + Split(rest, sep)
    decreases |a|
  {
    if a == [] {
      assert [sep] + rest == ([] + [sep] + rest);
      assert ([sep] + rest)[1..] == rest;
    } else {
      SplitAtFirst(a[1..], sep, rest);
      assert (a + [sep] + rest)[1..] == a[1..] + [sep] + rest;
      assert [a[0]] + a[1..] == a;
    }
  }

  /** Joining and splitting again gives back the parts when none contains the separator. */
  lemma {:induction false} SplitJoin(parts: seq<string>, sep: char)
    requires |parts| > 0
    requires forall k :: 0 <= k < |parts| ==> sep !in parts[k]
    ensures Split(Join(parts, sep), sep) == parts
    decreases |parts|
  {
    if |parts| == 1 {
      SplitWithoutSeparator(parts[0], sep);
    } else {
      SplitJoin(parts[1..], sep);
      SplitAtFirst(parts[0], sep, Join(parts[1..], sep));
    }
  }

  /** A string without the separator is a single part. */
  lemma {:induction false} SplitWithoutSeparator(s: string, sep: char)
    requires sep !in s
    ensures Split(s, sep) == [s]
    decreases |s|
  {
    if s != [] {
      SplitWithoutSeparator(s[1..], sep);
      assert [s[0]] + s[1..] == s;
    }
  }

  /** Splitting and joining again gives back the string. */
  lemma {:induction false} JoinSplit(s: string, sep: char)
    ensures Join(Split(s, sep), sep) == s
    decreases |s|
  {
    if s != [] {
      JoinSplit(s[1..], sep);
      var rest := Split(s[1..], sep);
      if s[0] == sep {
        assert ([""] + rest)[1..] == rest;
      } else {
        if |rest| > 1 {
          assert ([[s[0]] + rest[0]] + rest[1..])[1..] == rest[1..];
          assert rest[1..] == rest[1..][..];
        }
        assert [s[0]] + s[1..] == s;
      }
    }
  }

  /**
   * Which white space is meant: `str.strip`'s, the ASCII characters of
   * `str.isspace` (tab to carriage return and 0x1C to space), or the
   * narrower set `int()` skips around a numeral (tab to carriage return and
   * space).
   */
  datatype Spaces = StrSpaces | IntSpaces

  predicate IsSpace(c: char, w: Spaces)
  {
    match w
    case IntSpaces => (9 <= c as int <= 13) || c as int == 32
    case StrSpaces => (9 <= c as int <= 13) || (28 <= c as int <= 32)
  }

  predicate IsDigit(c: char)
  {
    '0' <= c <= '9'
  }

  /** `s` with leading white space removed. */
  function TrimLeft(s: string, w: Spaces): (t: string)
    ensures t == [] || !IsSpace(t[0], w)
    ensures |t| <= |s| && t == s[|s| - |t|..]
    ensures forall k :: 0 <= k < |s| - |t| ==> IsSpace(s[k], w)
    decreases |s|
  {
    if s != [] && IsSpace(s[0], w) then TrimLeft(s[1..], w) else s
  }

  /** `s` with trailing white space removed. */
  function TrimRight(s: string, w: Spaces): (t: string)
    ensures t == [] || !IsSpace(t[|t| - 1], w)
    ensures |t| <= |s| && t == s[..|t|]
    ensures forall k :: |t| <= k < |s| ==> IsSpace(s[k], w)
    decreases |s|
  {
    if s != [] && IsSpace(s[|s| - 1], w) then TrimRight(s[..|s| - 1], w) else s
  }

  /** Both ends trimmed. */
  function Trim(s: string, w: Spaces): string
  {
    TrimRight(TrimLeft(s, w), w)
  }

  /** `str.strip()` on ASCII text. */
  function Strip(s: string): string
  {
    Trim(s, StrSpaces)
  }

  /**
   * Trimming keeps one contiguous piece of the input, the one starting at
   * `i`, removes nothing but white space around it, and leaves no white
   * space at either end.
   */
  lemma TrimKeepsCore(s: string, w: Spaces) returns (i: int)
    ensures var t := Trim(s, w);
      && (t == [] || (!IsSpace(t[0], w) && !IsSpace(t[|t| - 1], w)))
      && 0 <= i <= |s| - |t| && t == s[i..][..|t|]
      && (forall k :: 0 <= k < i ==> IsSpace(s[k], w))
      && (forall k :: i + |t| <= k < |s| ==> IsSpace(s[k], w))
  {
    var l := TrimLeft(s, w);
    var t := TrimRight(l, w);
    i := |s| - |l|;
    assert l == s[i..];
    assert t != [] ==> t[0] == l[0];
    forall k | i + |t| <= k < |s|
      ensures IsSpace(s[k], w)
    {
      assert s[k] == l[k - i];
    }
  }

  /** Trimming twice is trimming once. */
  lemma TrimIdempotent(s: string, w: Spaces)
    ensures Trim(Trim(s, w), w) == Trim(s, w)
  {
    var t := Trim(s, w);
    assert t == [] || !IsSpace(t[0], w);
    assert TrimLeft(t, w) == t;
    assert t == [] || !IsSpace(t[|t| - 1], w);
  }

  /**
   * Digits with single underscores between them, the body Python's `int()`
   * accepts ("1_000" but not "_1", "1_" or "1__0").
   */
  predicate Grouped(b: string)
    decreases |b|
  {
    |b| > 0 && IsDigit(b[0]) && (|b| == 1 || Grouped(if b[1] == '_' then b[2..] else b[1..]))
  }

  /** The digits of `b`, underscores dropped. */
  function DigitsOf(b: string): string
    decreases |b|
  {
    if b == [] then [] else (if IsDigit(b[0]) then [b[0]] else []) + DigitsOf(b[1..])
  }

  /** The value of a digit string read in base 10. */
  function Value(ds: string): int
    decreases |ds|
  {
    if ds == [] then 0 else 10 * Value(ds[..|ds| - 1]) + (ds[|ds| - 1] as int - '0' as int)
  }

  /** Python's `int(s)` for base-10 ASCII text; `None` where it raises `ValueError`. */
  function ParseInt(s: string): Option<int>
  {
    var t := Trim(s, IntSpaces);
    if |t| > 0 && (t[0] == '+' || t[0] == '-') then
      if Grouped(t[1..]) then
        var mag := Value(DigitsOf(t[1..]));
        Some(if t[0] == '-' then -mag else mag)
      else None
    else if Grouped(t) then Some(Value(DigitsOf(t)))
    else None
  }

  /** `str.strip` treats the separator controls 0x1C to 0x1F as white space and removes one at the front of a text. */
  lemma StripRemovesSeparatorControl(s: string)
    requires |s| > 0 && 28 <= s[0] as int <= 31
    ensures Strip(s) == Strip(s[1..])
  {
    assert IsSpace(s[0], StrSpaces);
    assert TrimLeft(s, StrSpaces) == TrimLeft(s[1..], StrSpaces);
  }

  /** `int()` does not skip the separator controls: it raises on any text that starts with one. */
  lemma IntRejectsSeparatorControl(s: string)
    requires |s| > 0 && 28 <= s[0] as int <= 31
    ensures ParseInt(s) == None
  {
    assert !IsSpace(s[0], IntSpaces);
    assert TrimLeft(s, IntSpaces) == s;
    var t := TrimRight(s, IntSpaces);
    if t != [] {
      assert t[0] == s[0];
      assert !Grouped(t);
    }
  }

  /** The decimal digit character for `n`. */
  function DigitChar(n: int): (c: char)
    requires 0 <= n <= 9
    ensures IsDigit(c) && c as int - '0' as int == n
  {
    ('0' as int + n) as char
  }

  /** `n` written with two digits, as in "09". */
  function TwoDigits(n: int): (s: string)
    requires 0 <= n <= 99
    ensures |s| == 2 && IsDigit(s[0]) && IsDigit(s[1])
  {
    [DigitChar(n / 10), DigitChar(n % 10)]
  }

  /** `int()` reads back a two-digit field, leading zero included. */
  lemma ParseTwoDigits(n: int)
    requires 0 <= n <= 99
    ensures ParseInt(TwoDigits(n)) == Some(n)
  {
    var s := TwoDigits(n);
    assert TrimLeft(s, IntSpaces) == s;
    assert TrimRight(s, IntSpaces) == s;
    assert Grouped(s[1..]);
    assert DigitsOf(s[1..][1..]) == [];
    assert DigitsOf(s[1..]) == [s[1]];
    assert DigitsOf(s) == s;
    assert s[..1] == [s[0]];
    assert Value(s[..1]) == n / 10 by {
      assert s[..1][..0] == [];
    }
  }

  /** A digit body that `int()` accepts holds nothing but digits and underscores. */
  lemma {:induction false} GroupedOnlyDigits(b: string, k: int)
    requires Grouped(b) && 0 <= k < |b|
    ensures IsDigit(b[k]) || b[k] == '_'
    decreases |b|
  {
    if k > 0 {
      if b[1] == '_' {
        if k > 1 { GroupedOnlyDigits(b[2..], k - 2); }
      } else {
        GroupedOnlyDigits(b[1..], k - 1);
      }
    }
  }
}
