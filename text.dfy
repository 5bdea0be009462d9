/**
 * String helpers with the Kotlin standard library's semantics, as far as the
 * index file format needs them: `split` on one delimiter, `joinToString`,
 * `readLines`, `isBlank`, `Long.toString` and `String.toLongOrNull`.
 */
module Text {
  import opened Wrappers

  /** Kotlin's `Char.isWhitespace()`: Java whitespace or a Unicode space separator. */
  predicate IsWhitespace(c: char)
    ensures IsLineBreak(c) ==> IsWhitespace(c)
    ensures IsDigit(c) || c == '|' ==> !IsWhitespace(c)
  {
    c == ' ' || c == '\t' || c == '\n' || c == '\U{000B}' || c == '\U{000C}' || c == '\r'
    || ('\U{001C}' <= c <= '\U{001F}')
    || c == '\U{00A0}' || c == '\U{1680}' || ('\U{2000}' <= c <= '\U{200A}')
    || c == '\U{2028}' || c == '\U{2029}' || c == '\U{202F}' || c == '\U{205F}' || c == '\U{3000}'
  }

  /** Kotlin's `isBlank()`: empty or whitespace only. */
  predicate IsBlank(s: string)
    ensures s == [] ==> IsBlank(s)
    ensures (exists k :: 0 <= k < |s| && IsDigit(s[k])) ==> !IsBlank(s)
  {
    forall i :: 0 <= i < |s| ==> IsWhitespace(s[i])
  }

  // ---------------------------------------------------------------------------
  // split / joinToString on a single-character delimiter

  /** Kotlin's `s.split(d)`: every piece, empty ones included; `""` splits to `[""]`. */
  function Split(s: string, d: char): (parts: seq<string>)
    ensures |parts| >= 1
    ensures forall k :: 0 <= k < |parts| ==> d !in parts[k]
    decreases |s|
  {
    if d !in s then [s]
    else
      var i := IndexOf(s, d);
      [s[..i]] + Split(s[i + 1..], d)
  }

  /** Position of the first `d` in `s`. */
  function IndexOf(s: string, d: char): (i: nat)
    requires d in s
    ensures i < |s| && s[i] == d && d !in s[..i]
  {
    if s[0] == d then 0 else 1 + IndexOf(s[1..], d)
  }

  /** Kotlin's `parts.joinToString(d)`. */
  function Join(parts: seq<string>, d: char): (r: string)
    ensures parts == [] ==> r == ""
    ensures parts != [] ==> parts[0] <= r
    decreases |parts|
  {
    if |parts| == 0 then ""
    else if |parts| == 1 then parts[0]
    else parts[0] + [d] + Join(parts[1..], d)
  }

  lemma IndexOfPrefix(a: string, d: char, b: string)
    requires d !in a
    ensures d in a + [d] + b && IndexOf(a + [d] + b, d) == |a|
  {
    if a != [] {
      assert (a + [d] + b)[1..] == a[1..] + [d] + b;
      IndexOfPrefix(a[1..], d, b);
    }
  }

  /** Splitting a join gives the pieces back, when no piece holds the delimiter. */
  lemma {:induction false} SplitJoin(parts: seq<string>, d: char)
    requires |parts| >= 1
    requires forall k :: 0 <= k < |parts| ==> d !in parts[k]
    ensures Split(Join(parts, d), d) == parts
    decreases |parts|
  {
    if |parts| > 1 {
      var a, rest := parts[0], Join(parts[1..], d);
      var s := a + [d] + rest;
      IndexOfPrefix(a, d, rest);
      assert s[..|a|] == a;
      assert s[|a| + 1..] == rest;
      SplitJoin(parts[1..], d);
    }
  }

  /** Every character of every piece occurs in the joined string. */
  lemma {:induction false} JoinContainsPart(parts: seq<string>, d: char, k: nat, c: char)
    requires k < |parts| && c in parts[k]
    ensures c in Join(parts, d)
    decreases |parts|
  {
    if |parts| > 1 {
      var rest := Join(parts[1..], d);
      assert Join(parts, d) == parts[0] + [d] + rest;
      if k == 0 {
        var i :| 0 <= i < |parts[0]| && parts[0][i] == c;
        assert Join(parts, d)[i] == c;
      } else {
        JoinContainsPart(parts[1..], d, k - 1, c);
        var i :| 0 <= i < |rest| && rest[i] == c;
        assert Join(parts, d)[|parts[0]| + 1 + i] == c;
      }
    }
  }

  // ---------------------------------------------------------------------------
  // readLines: lines end at "\n", "\r" or "\r\n"; a final terminator adds no line

  predicate IsLineBreak(c: char) { c == '\n' || c == '\r' }

  /** Position of the first line break, or `|s|` when there is none. */
  function LineEnd(s: string): (i: nat)
    ensures i <= |s|
    ensures forall k :: 0 <= k < i ==> !IsLineBreak(s[k])
    ensures i < |s| ==> IsLineBreak(s[i])
  {
    if s == [] || IsLineBreak(s[0]) then 0 else 1 + LineEnd(s[1..])
  }

  /** Java's `BufferedReader.readLine` loop, as used by Kotlin's `File.readLines()`. */
  function ReadLines(s: string): (lines: seq<string>)
    ensures forall k :: 0 <= k < |lines| ==> '\n' !in lines[k] && '\r' !in lines[k]
    decreases |s|
  {
    if s == [] then []
    else
      var i := LineEnd(s);
      var next := if i == |s| then |s|
                  else if s[i] == '\r' && i + 1 < |s| && s[i + 1] == '\n' then i + 2
                  else i + 1;
      assert forall c :: c in s[..i] ==> !IsLineBreak(c);
      [s[..i]] + ReadLines(s[next..])
  }

  predicate NoLineBreak(s: string) { '\n' !in s && '\r' !in s }

  lemma {:induction false} LineEndPrefix(a: string, b: string)
    requires NoLineBreak(a)
    requires b == [] || IsLineBreak(b[0])
    ensures LineEnd(a + b) == |a|
    decreases |a|
  {
    if a == [] {
      assert a + b == b;
    } else {
      var s := a + b;
      assert s[0] == a[0] && a[0] in a;
      assert s[1..] == a[1..] + b;
      assert NoLineBreak(a[1..]) by {
        forall c | c in a[1..] ensures c in a { }
      }
      LineEndPrefix(a[1..], b);
    }
  }

  /** A line without breaks, then "\n": the line is read, and reading goes on after the "\n". */
  lemma ReadLinesCons(a: string, rest: string)
    requires NoLineBreak(a)
    ensures ReadLines(a + ['\n'] + rest) == [a] + ReadLines(rest)
  {
    var s := a + ['\n'] + rest;
    LineEndPrefix(a, ['\n'] + rest);
    assert a + ['\n'] + rest == a + (['\n'] + rest);
    assert s[..|a|] == a;
    assert s[|a| + 1..] == rest;
  }

  /** A last line without a terminator is read as it is. */
  lemma ReadLinesLast(a: string)
    requires NoLineBreak(a) && a != []
    ensures ReadLines(a) == [a]
  {
    LineEndPrefix(a, []);
    assert a + [] == a;
    assert a[..|a|] == a;
  }

  lemma JoinCons(parts: seq<string>, d: char)
    requires |parts| > 1
    ensures Join(parts, d) == parts[0] + [d] + Join(parts[1..], d)
  {
  }

  lemma PlainTail(lines: seq<string>)
    requires lines != []
    requires forall k :: 0 <= k < |lines| ==> NoLineBreak(lines[k]) && lines[k] != []
    ensures forall k :: 0 <= k < |lines[1..]| ==> NoLineBreak(lines[1..][k]) && lines[1..][k] != []
  {
    forall k | 0 <= k < |lines[1..]| ensures NoLineBreak(lines[1..][k]) && lines[1..][k] != [] {
      assert lines[1..][k] == lines[k + 1];
    }
  }

  /**
   * Reading back lines joined with "\n" gives them back, when no line holds a
   * line break and none is empty (an empty last line would vanish).
   */
  lemma {:induction false} ReadLinesJoin(lines: seq<string>)
    requires forall k :: 0 <= k < |lines| ==> NoLineBreak(lines[k]) && lines[k] != []
    ensures ReadLines(Join(lines, '\n')) == lines
    decreases |lines|
  {
    if |lines| == 1 {
      ReadLinesLast(lines[0]);
    } else if |lines| > 1 {
      var head, tail := lines[0], lines[1..];
      var rest := Join(tail, '\n');
      JoinCons(lines, '\n');
      PlainTail(lines);
      ReadLinesJoin(tail);
      ReadLinesCons(head, rest);
      assert lines == [head] + tail;
    }
  }

  // ---------------------------------------------------------------------------
  // Long.toString and String.toLongOrNull (radix 10)

  const LONG_MIN: int := -0x8000_0000_0000_0000
  const LONG_MAX: int := 0x7FFF_FFFF_FFFF_FFFF

  predicate IsLong(n: int) { LONG_MIN <= n <= LONG_MAX }

  predicate IsDigit(c: char) { '0' <= c <= '9' }

  function DigitChar(d: nat): char
    requires d < 10
  {
    ['0', '1', '2', '3', '4', '5', '6', '7', '8', '9'][d]
  }

  /** Decimal digits of `n`, most significant first, without leading zeros. */
  function NatToString(n: nat): (s: string)
    ensures |s| >= 1
    ensures forall k :: 0 <= k < |s| ==> IsDigit(s[k])
  {
    if n < 10 then [DigitChar(n)] else NatToString(n / 10) + [DigitChar(n % 10)]
  }

  /** Kotlin's `Long.toString()`. */
  function LongToString(n: int): (r: string)
    ensures |r| >= 1
    ensures r[0] == '-' <==> n < 0
    ensures forall k :: (if n < 0 then 1 else 0) <= k < |r| ==> IsDigit(r[k])
  {
    if n < 0 then "-" + NatToString(-n) else NatToString(n)
  }

  /** Numeric value of a string of decimal digits. */
  function DigitsValue(s: string): nat
    requires forall k :: 0 <= k < |s| ==> IsDigit(s[k])
  {
    if s == [] then 0
    else
      assert IsDigit(s[|s| - 1]);
      DigitsValue(s[..|s| - 1]) * 10 + (s[|s| - 1] as int - '0' as int)
  }

  predicate AllDigits(s: string) { forall k :: 0 <= k < |s| ==> IsDigit(s[k]) }

  /**
   * Kotlin's `toLongOrNull()`: an optional '+' or '-', then at least one
   * digit, and a value that fits a Long; anything else is `null`.
   */
  function ParseLong(s: string): (r: Option<int>)
    ensures r.Some? ==> IsLong(r.value)
  {
    if s == [] then None
    else
      var negative := s[0] == '-';
      var body := if s[0] == '-' || s[0] == '+' then s[1..] else s;
      if body == [] || !AllDigits(body) then None
      else
        var v: int := DigitsValue(body);
        if negative then (if -v >= LONG_MIN then Some(-v) else None)
        else if v <= LONG_MAX then Some(v) else None
  }

  lemma {:induction false} DigitsValueOfNatToString(n: nat)
    ensures DigitsValue(NatToString(n)) == n
  {
    var s := NatToString(n);
    if n >= 10 {
      DigitsValueOfNatToString(n / 10);
      assert s[..|s| - 1] == NatToString(n / 10);
      DigitCharValue(n % 10);
      assert (n / 10) * 10 + n % 10 == n;
    } else {
      DigitCharValue(n);
    }
  }

  lemma DigitCharValue(d: nat)
    requires d < 10
    ensures DigitChar(d) as int - '0' as int == d
  {
  }

  lemma ParseLongUnsigned(digits: string)
    requires digits != [] && AllDigits(digits) && DigitsValue(digits) <= LONG_MAX
    ensures ParseLong(digits) == Some(DigitsValue(digits))
  {
    assert IsDigit(digits[0]);
  }

  lemma ParseLongNegative(digits: string)
    requires digits != [] && AllDigits(digits) && DigitsValue(digits) <= -LONG_MIN
    ensures ParseLong("-" + digits) == Some(-(DigitsValue(digits) as int))
  {
    var s := "-" + digits;
    assert s[0] == '-' && s[1..] == digits;
  }

  /** `toLongOrNull` reads back every Long that `toString` wrote. */
  lemma ParseLongToString(n: int)
    requires IsLong(n)
    ensures ParseLong(LongToString(n)) == Some(n)
  {
    if n < 0 {
      DigitsValueOfNatToString(-n);
      ParseLongNegative(NatToString(-n));
    } else {
      DigitsValueOfNatToString(n);
      ParseLongUnsigned(NatToString(n));
    }
  }
}
