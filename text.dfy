/**
 * The few pieces of Python's string handling the storage engine relies on:
 * `str.split` on one character and on the two-character delimiter "<>",
 * `sep.join`, `str.strip`, and decimal `str(int)` / `int(str)`.
 */
module Text {
  import opened Results

  // ---------------------------------------------------------------- strip

  /** The ASCII characters `str.strip()` removes: tab to carriage return, the four separators, and space. */
  predicate IsSpace(c: char) {
    ('\t' <= c <= '\r') || ('\U{1C}' <= c <= ' ')
  }

  /** `s.lstrip()`: the suffix left after dropping leading whitespace. */
  function StripLeft(s: string): (r: string)
    ensures |r| <= |s| && r == s[|s| - |r|..]
    ensures r == [] || !IsSpace(r[0])
  {
    if s != [] && IsSpace(s[0]) then StripLeft(s[1..]) else s
  }

  /** `s.rstrip()`: the prefix left after dropping trailing whitespace. */
  function StripRight(s: string): (r: string)
    ensures |r| <= |s| && r == s[..|r|]
    ensures r == [] || !IsSpace(r[|r| - 1])
  {
    if s != [] && IsSpace(s[|s| - 1]) then StripRight(s[..|s| - 1]) else s
  }

  /** lstrip removes whitespace only: every dropped character is whitespace. */
  lemma {:induction false} StripLeftDropsSpace(s: string)
    ensures forall i :: 0 <= i < |s| - |StripLeft(s)| ==> IsSpace(s[i])
  {
    if s != [] && IsSpace(s[0]) {
      StripLeftDropsSpace(s[1..]);
    }
  }

  /** rstrip removes whitespace only: every dropped character is whitespace. */
  lemma {:induction false} StripRightDropsSpace(s: string)
    ensures forall i :: |StripRight(s)| <= i < |s| ==> IsSpace(s[i])
  {
    if s != [] && IsSpace(s[|s| - 1]) {
      StripRightDropsSpace(s[..|s| - 1]);
    }
  }

  /** `s.strip()`. */
  function Strip(s: string): string {
    StripRight(StripLeft(s))
  }

  /** Text that neither starts nor ends with whitespace is left alone by strip, even with a newline after it. */
  lemma {:induction false} StripNewline(v: string)
    requires v != [] && !IsSpace(v[0]) && !IsSpace(v[|v| - 1])
    ensures Strip(v + "\n") == v
  {
    var x := v + "\n";
    assert x[0] == v[0] && !IsSpace(x[0]);
    assert StripLeft(x) == x;
    assert IsSpace(x[|x| - 1]) && x[..|x| - 1] == v;
    assert StripRight(x) == StripRight(v);
  }

  // ----------------------------------------------------- split/join on a char

  /** Number of occurrences of `c` in `s`. */
  function Occurrences(s: string, c: char): nat {
    if s == [] then 0 else (if s[0] == c then 1 else 0) + Occurrences(s[1..], c)
  }

  /** `s.split(sep)` for a one-character separator. */
  function Split(s: string, sep: char): (parts: seq<string>)
    ensures |parts| == Occurrences(s, sep) + 1
    ensures forall i :: 0 <= i < |parts| ==> sep !in parts[i]
  {
    if s == [] then [""]
    else
      var rest := Split(s[1..], sep);
      if s[0] == sep then [""] + rest else [[s[0]] + rest[0]] + rest[1..]
  }

  /** `sep.join(parts)`. */
  function Join(parts: seq<string>, sep: char): string {
    if |parts| == 0 then ""
    else if |parts| == 1 then parts[0]
    else parts[0] + [sep] + Join(parts[1..], sep)
  }

  /** Joining what split cut apart gives back the original text. */
  lemma {:induction false} JoinSplit(s: string, sep: char)
    ensures Join(Split(s, sep), sep) == s
  {
    if s != [] {
      var rest := Split(s[1..], sep);
      JoinSplit(s[1..], sep);
      if s[0] == sep {
        assert s == [sep] + s[1..];
      } else if |rest| == 1 {
        assert s == [s[0]] + s[1..];
      } else {
        assert Join(rest, sep) == rest[0] + [sep] + Join(rest[1..], sep);
        assert s == [s[0]] + s[1..];
      }
    }
  }

  /** Splitting at one occurrence of the separator splits each side independently. */
  lemma {:induction false} SplitAround(a: string, b: string, sep: char)
    ensures Split(a + [sep] + b, sep) == Split(a, sep) + Split(b, sep)
  {
    if a == [] {
      assert a + [sep] + b == [sep] + b;
      assert ([sep] + b)[1..] == b;
    } else {
      assert (a + [sep] + b)[1..] == a[1..] + [sep] + b;
      SplitAround(a[1..], b, sep);
    }
  }

  /** Joining two non-empty lists puts one separator between the two joins. */
  lemma {:induction false} JoinAppend(x: seq<string>, y: seq<string>, sep: char)
    requires |x| > 0 && |y| > 0
    ensures Join(x + y, sep) == Join(x, sep) + [sep] + Join(y, sep)
  {
    if |x| > 1 {
      assert (x + y)[1..] == x[1..] + y;
      JoinAppend(x[1..], y, sep);
    } else {
      assert (x + y)[1..] == y;
    }
  }

  /** Text without the separator is not cut by split. */
  lemma {:induction false} SplitNone(s: string, sep: char)
    requires sep !in s
    ensures Split(s, sep) == [s]
  {
    if s != [] {
      SplitNone(s[1..], sep);
      assert s == [s[0]] + s[1..];
    }
  }

  /** Split undoes join when no part holds the separator. */
  lemma {:induction false} SplitJoin(parts: seq<string>, sep: char)
    requires |parts| > 0
    requires forall i :: 0 <= i < |parts| ==> sep !in parts[i]
    ensures Split(Join(parts, sep), sep) == parts
  {
    SplitNone(parts[0], sep);
    if |parts| > 1 {
      SplitJoin(parts[1..], sep);
      SplitAround(parts[0], Join(parts[1..], sep), sep);
      assert parts == [parts[0]] + parts[1..];
    }
  }

  /** The texts written one after another. */
  function Concat(parts: seq<string>): string {
    if parts == [] then "" else Concat(parts[..|parts| - 1]) + parts[|parts| - 1]
  }

  lemma {:induction false} ConcatAppend(a: seq<string>, b: seq<string>)
    ensures Concat(a + b) == Concat(a) + Concat(b)
  {
    if b == [] {
      assert a + b == a;
    } else {
      assert (a + b)[..|a + b| - 1] == a + b[..|b| - 1];
      ConcatAppend(a, b[..|b| - 1]);
    }
  }

  // ---------------------------------------------------- the "<>" delimiter

  /** The two-character delimiter "<>" starts at index i of s. */
  predicate DelimAt(s: string, i: int) {
    0 <= i && i + 1 < |s| && s[i] == '<' && s[i + 1] == '>'
  }

  /** The first "<>" at or after index i, as `str.find` would report it. */
  function FindDelimFrom(s: string, i: nat): (r: Option<nat>)
    ensures r.Some? ==> i <= r.value && DelimAt(s, r.value)
    ensures r.Some? ==> forall j :: i <= j < r.value ==> !DelimAt(s, j)
    ensures r.None? ==> forall j :: i <= j ==> !DelimAt(s, j)
    decreases |s| - i
  {
    if i + 1 >= |s| then None
    else if s[i] == '<' && s[i + 1] == '>' then Some(i)
    else FindDelimFrom(s, i + 1)
  }

  function FindDelim(s: string): Option<nat> {
    FindDelimFrom(s, 0)
  }

  /** `line.split("<>")[0]`: the text before the first delimiter, or all of it. */
  function Key(line: string): string {
    match FindDelim(line)
    case Some(i) => line[..i]
    case None => line
  }

  /** `line.split("<>")[1]`: the text between the first and second delimiters. */
  function SecondField(line: string): Result<string> {
    match FindDelim(line)
    case None => Err(MissingDelimiter)
    case Some(i) =>
      var rest := line[i + 2..];
      match FindDelim(rest)
      case Some(j) => Ok(rest[..j])
      case None => Ok(rest)
  }

  /** A key without "<>" is recovered from the line that starts with it and the delimiter. */
  lemma {:induction false} DelimAfterKey(key: string, rest: string)
    requires FindDelim(key).None?
    ensures FindDelim(key + "<>" + rest) == Some(|key|)
    ensures Key(key + "<>" + rest) == key
    ensures SecondField(key + "<>" + rest) == if FindDelim(rest).Some? then Ok(rest[..FindDelim(rest).value]) else Ok(rest)
  {
    var line := key + "<>" + rest;
    assert DelimAt(line, |key|);
    forall j | 0 <= j < |key|
      ensures !DelimAt(line, j)
    {
      if j + 1 < |key| {
        assert !DelimAt(key, j);
      } else {
        assert line[j + 1] == '<';
      }
    }
    assert line[..|key|] == key;
    assert line[|key| + 2..] == rest;
  }

  // ---------------------------------------------------------------- decimal

  predicate IsDigit(c: char) {
    '0' <= c <= '9'
  }

  function DigitChar(d: nat): (c: char)
    requires d < 10
    ensures IsDigit(c) && c as int - '0' as int == d
  {
    "0123456789"[d]
  }

  function DigitValue(c: char): nat
    requires IsDigit(c)
  {
    c as int - '0' as int
  }

  /** `str(n)` for a non-negative integer. */
  function NatToString(n: nat): (s: string)
    ensures |s| >= 1 && forall i :: 0 <= i < |s| ==> IsDigit(s[i])
  {
    if n < 10 then [DigitChar(n)] else NatToString(n / 10) + [DigitChar(n % 10)]
  }

  /** `int(s)` restricted to plain decimal digits; None where `int()` would raise. */
  function ParseNat(s: string): (r: Option<nat>)
    ensures r.Some? <==> |s| >= 1 && forall i :: 0 <= i < |s| ==> IsDigit(s[i])
  {
    if s == [] || !IsDigit(s[|s| - 1]) then None
    else if |s| == 1 then Some(DigitValue(s[0]))
    else
      match ParseNat(s[..|s| - 1])
      case None => None
      case Some(v) => Some(10 * v + DigitValue(s[|s| - 1]))
  }

  /** Decimal formatting and parsing are inverse. */
  lemma {:induction false} ParseNatToString(n: nat)
    ensures ParseNat(NatToString(n)) == Some(n)
  {
    if n >= 10 {
      ParseNatToString(n / 10);
      var s := NatToString(n);
      assert s[..|s| - 1] == NatToString(n / 10);
    }
  }
}
