// The few JavaScript built-ins the modelled code leans on, stated over Dafny
// values: `undefined`, truthiness of strings, `split`, `join`, `trim`,
// `includes`, `startsWith`, `String(n)` and `slice`.

module JsRuntime {

  /** A value that may be `undefined` or `null`. */
  datatype Option<+T> = None | Some(value: T) {
    /** `x ?? fallback`. */
    function GetOr(default: T): T {
      match this
      case Some(v) => v
      case None => default
    }
  }

  /** JavaScript truthiness of an optional string: present and not "". */
  predicate Truthy(s: Option<string>) {
    s.Some? && s.value != ""
  }

  /** `s || fallback` for an optional string. */
  function OrElse(s: Option<string>, fallback: string): string {
    if Truthy(s) then s.value else fallback
  }

  // ---------------------------------------------------------------------
  // split / join
  // ---------------------------------------------------------------------

  /** `s.split(sep)` for a one-character separator: never empty, and no
      piece contains the separator. */
  function Split(s: string, sep: char): (parts: seq<string>)
    ensures |parts| >= 1
    ensures forall i :: 0 <= i < |parts| ==> sep !in parts[i]
    decreases |s|
  {
    if s == [] then [""]
    else
      var rest := Split(s[1..], sep);
      if s[0] == sep then [""] + rest
      else [[s[0]] + rest[0]] + rest[1..]
  }

  /** `parts.join(sep)` for a one-character separator. */
  function Join(parts: seq<string>, sep: char): string
    decreases |parts|
  {
    if |parts| == 0 then ""
    else if |parts| == 1 then parts[0]
    else parts[0] + [sep] + Join(parts[1..], sep)
  }

  /** Putting a character in front of the first piece puts it in front of
      the joined string. */
  lemma JoinConsFirst(c: char, first: string, tail: seq<string>, sep: char)
    ensures Join([[c] + first] + tail, sep) == [c] + Join([first] + tail, sep)
  {
    if |tail| > 0 {
      assert ([[c] + first] + tail)[1..] == tail;
      assert ([first] + tail)[1..] == tail;
    }
  }

  /** Joining the pieces of a split with the same separator gives back the
      original string. */
  lemma {:induction false} JoinSplit(s: string, sep: char)
    ensures Join(Split(s, sep), sep) == s
    decreases |s|
  {
    if s != [] {
      var rest := Split(s[1..], sep);
      JoinSplit(s[1..], sep);
      if s[0] == sep {
        assert ([""] + rest)[1..] == rest;
      } else {
        assert [rest[0]] + rest[1..] == rest;
        JoinConsFirst(s[0], rest[0], rest[1..], sep);
      }
      assert s == [s[0]] + s[1..];
    }
  }

  /** A string without the separator splits into itself alone. */
  lemma {:induction false} SplitWithoutSeparator(s: string, sep: char)
    requires sep !in s
    ensures Split(s, sep) == [s]
    decreases |s|
  {
    if s != [] {
      SplitWithoutSeparator(s[1..], sep);
      assert s == [s[0]] + s[1..];
    }
  }

  /** A separator-free piece followed by the separator splits off as the
      first piece. */
  lemma {:induction false} SplitAfterPiece(a: string, sep: char, rest: string)
    requires sep !in a
    ensures Split(a + [sep] + rest, sep) == [a] + Split(rest, sep)
    decreases |a|
  {
    var s := a + [sep] + rest;
    if a == [] {
      assert s == [sep] + rest;
      assert s[1..] == rest;
    } else {
      SplitAfterPiece(a[1..], sep, rest);
      assert s[1..] == a[1..] + [sep] + rest;
      assert s[0] == a[0];
      assert [a[0]] + a[1..] == a;
    }
  }

  // ---------------------------------------------------------------------
  // trim
  // ---------------------------------------------------------------------

  /** The characters `String.prototype.trim` removes: ECMAScript WhiteSpace
      (tab, vertical tab, form feed, ZWNBSP and the Zs category) and
      LineTerminator. */
  predicate IsWhitespace(c: char) {
    || c == '\t' || c == '\n' || c == '\U{000B}' || c == '\U{000C}' || c == '\r'
    || c == ' ' || c == '\U{00A0}' || c == '\U{1680}'
    || ('\U{2000}' <= c <= '\U{200A}')
    || c == '\U{2028}' || c == '\U{2029}' || c == '\U{202F}' || c == '\U{205F}'
    || c == '\U{3000}' || c == '\U{FEFF}'
  }

  /** How many whitespace characters `s` starts with. */
  function LeadingSpace(s: string): (n: nat)
    ensures n <= |s|
    ensures forall k :: 0 <= k < n ==> IsWhitespace(s[k])
    ensures n == |s| || !IsWhitespace(s[n])
    decreases |s|
  {
    if s != [] && IsWhitespace(s[0]) then 1 + LeadingSpace(s[1..]) else 0
  }

  /** How many whitespace characters `s` ends with. */
  function TrailingSpace(s: string): (n: nat)
    ensures n <= |s|
    ensures forall k :: |s| - n <= k < |s| ==> IsWhitespace(s[k])
    ensures n == |s| || !IsWhitespace(s[|s| - n - 1])
    decreases |s|
  {
    if s != [] && IsWhitespace(s[|s| - 1]) then 1 + TrailingSpace(s[..|s| - 1]) else 0
  }

  /** `s.trimStart()`: `s` without its leading whitespace. */
  function TrimStart(s: string): (r: string)
    ensures |r| <= |s| && r == s[|s| - |r|..]
    ensures forall k :: 0 <= k < |s| - |r| ==> IsWhitespace(s[k])
    ensures r == [] || !IsWhitespace(r[0])
  {
    s[LeadingSpace(s)..]
  }

  /** `s.trimEnd()`: `s` without its trailing whitespace. */
  function TrimEnd(s: string): (r: string)
    ensures |r| <= |s| && r == s[..|r|]
    ensures forall k :: |r| <= k < |s| ==> IsWhitespace(s[k])
    ensures r == [] || !IsWhitespace(r[|r| - 1])
  {
    s[..|s| - TrailingSpace(s)]
  }

  /** `s.trim()`: a contiguous slice of `s` with whitespace on neither end,
      and only whitespace cut away on either side. */
  function Trim(s: string): (r: string)
    ensures r == [] || (!IsWhitespace(r[0]) && !IsWhitespace(r[|r| - 1]))
    ensures var i := LeadingSpace(s);
      && i + |r| <= |s| && r == s[i..i + |r|]
      && (forall k :: 0 <= k < i ==> IsWhitespace(s[k]))
      && (forall k :: i + |r| <= k < |s| ==> IsWhitespace(s[k]))
  {
    var i := LeadingSpace(s);
    TrailingOfSuffix(s, i);
    s[i..|s| - TrailingSpace(s[i..])]
  }

  /** The whitespace a suffix ends with is whitespace of the whole string. */
  lemma TrailingOfSuffix(s: string, i: nat)
    requires i <= |s|
    ensures var j := TrailingSpace(s[i..]);
      && (forall k :: |s| - j <= k < |s| ==> IsWhitespace(s[k]))
      && (j == |s| - i || !IsWhitespace(s[|s| - j - 1]))
  {
    var j := TrailingSpace(s[i..]);
    assert forall k :: |s| - j <= k < |s| ==> s[k] == s[i..][k - i];
    if j < |s| - i {
      assert s[|s| - j - 1] == s[i..][|s| - i - j - 1];
    }
  }

  /** A string with no whitespace at either end is its own trim. */
  lemma TrimOfTrimmed(s: string)
    requires s == [] || (!IsWhitespace(s[0]) && !IsWhitespace(s[|s| - 1]))
    ensures Trim(s) == s
  {
    assert TrimStart(s) == s;
    assert TrimEnd(s) == s;
  }

  /** Trimming twice is trimming once. */
  lemma TrimIdempotent(s: string)
    ensures Trim(Trim(s)) == Trim(s)
  {
    TrimOfTrimmed(Trim(s));
  }

  // ---------------------------------------------------------------------
  // includes / startsWith
  // ---------------------------------------------------------------------

  /** `s.startsWith(p)`. */
  predicate StartsWith(s: string, p: string) {
    |p| <= |s| && s[..|p|] == p
  }

  /** `t` occurs in `s` starting at position i. */
  predicate OccursAt(s: string, t: string, i: int) {
    0 <= i && i + |t| <= |s| && s[i..i + |t|] == t
  }

  /** `s.includes(t)`: `t` occurs in `s` at some position. */
  predicate Includes(s: string, t: string) {
    exists i :: 0 <= i <= |s| - |t| && OccursAt(s, t, i)
  }

  /** A string includes every piece it is concatenated from. */
  lemma IncludesMiddle(a: string, t: string, b: string)
    ensures Includes(a + t + b, t)
  {
    assert OccursAt(a + t + b, t, |a|);
  }

  /** A string includes its last piece. */
  lemma IncludesLast(a: string, t: string)
    ensures Includes(a + t, t)
  {
    assert OccursAt(a + t, t, |a|);
  }

  /** Text appended after `s` or put before it keeps what `s` includes. */
  lemma IncludesExtended(a: string, s: string, b: string, t: string)
    requires Includes(s, t)
    ensures Includes(s + b, t) && Includes(a + s, t)
  {
    var i :| 0 <= i <= |s| - |t| && OccursAt(s, t, i);
    assert i + |t| <= |s| && s[i..i + |t|] == t;
    assert OccursAt(s + b, t, i) by {
      assert (s + b)[i..i + |t|] == s[i..i + |t|];
    }
    assert OccursAt(a + s, t, |a| + i) by {
      assert (a + s)[|a| + i..|a| + i + |t|] == s[i..i + |t|];
    }
  }

  /** A prefix of `a` is a prefix of `a + b`. */
  lemma StartsWithAppend(a: string, b: string, p: string)
    requires StartsWith(a, p)
    ensures StartsWith(a + b, p)
  {
    assert (a + b)[..|p|] == a[..|p|];
  }

  /** A string differing from `p` at a position within both does not
      start with `p`, whatever follows it. */
  lemma DiffersAt(a: string, b: string, p: string, i: nat)
    requires i < |a| && i < |p| && a[i] != p[i]
    ensures !StartsWith(a + b, p)
  {
    assert (a + b)[i] == a[i];
  }

  // ---------------------------------------------------------------------
  // String(n) and slice
  // ---------------------------------------------------------------------

  predicate IsDigit(c: char) {
    '0' <= c <= '9'
  }

  function DigitChar(d: nat): (c: char)
    requires d < 10
    ensures IsDigit(c)
  {
    (48 + d) as char
  }

  function Pow10(k: nat): (p: nat)
    ensures p >= 1
  {
    if k == 0 then 1 else 10 * Pow10(k - 1)
  }

  /** `String(n)` for a natural number: its decimal digits, no leading zero. */
  function DecimalString(n: nat): (s: string)
    ensures |s| >= 1
    ensures forall i :: 0 <= i < |s| ==> IsDigit(s[i])
  {
    if n < 10 then [DigitChar(n)] else DecimalString(n / 10) + [DigitChar(n % 10)]
  }

  /** A number of k digits prints as k characters. */
  lemma {:induction false} DecimalStringLength(n: nat, k: nat)
    requires k >= 1 && Pow10(k - 1) <= n < Pow10(k)
    ensures |DecimalString(n)| == k
    decreases k
  {
    if k > 1 {
      assert Pow10(k - 1) == 10 * Pow10(k - 2);
      DecimalStringLength(n / 10, k - 1);
    }
  }

  /** The last k decimal digits of m, zero-padded to exactly k characters. */
  function LowDigits(m: nat, k: nat): (s: string)
    ensures |s| == k
    ensures forall i :: 0 <= i < |s| ==> IsDigit(s[i])
  {
    if k == 0 then "" else LowDigits(m / 10, k - 1) + [DigitChar(m % 10)]
  }

  /** `s.slice(-n)`: the last n characters, or all of `s` when it is shorter. */
  function LastN(s: string, n: nat): (r: string)
    ensures |r| == if |s| <= n then |s| else n
    ensures r == s[|s| - |r|..]
  {
    if |s| <= n then s else s[|s| - n..]
  }

  /** Appending a character to a string long enough appends it to its
      last k characters, one fewer taken from the string. */
  lemma LastNSnoc(x: string, c: char, k: nat)
    requires 1 <= k <= |x| + 1
    ensures LastN(x + [c], k) == LastN(x, k - 1) + [c]
  {
    var s := x + [c];
    assert s[|s| - k..] == x[|x| - (k - 1)..] + [c];
  }

  /** The last k characters of `String(n)` are the k low-order digits of n,
      provided n has at least k digits. */
  lemma {:induction false} LastNOfDecimal(n: nat, k: nat)
    requires k == 0 || n >= Pow10(k - 1)
    ensures LastN(DecimalString(n), k) == LowDigits(n, k)
    decreases k
  {
    if k > 0 && n >= 10 {
      var x := DecimalString(n / 10);
      if k > 1 {
        assert Pow10(k - 1) == 10 * Pow10(k - 2);
      }
      LastNOfDecimal(n / 10, k - 1);
      assert |x| >= k - 1 by {
        assert |LastN(x, k - 1)| == k - 1;
      }
      LastNSnoc(x, DigitChar(n % 10), k);
    }
  }

  /** Low digits repeat with period 10^k. */
  lemma {:induction false} LowDigitsPeriodic(m: nat, k: nat)
    ensures LowDigits(m + Pow10(k), k) == LowDigits(m, k)
    decreases k
  {
    if k > 0 {
      var p := Pow10(k - 1);
      assert Pow10(k) == 10 * p;
      assert (m + 10 * p) / 10 == m / 10 + p;
      assert (m + 10 * p) % 10 == m % 10;
      LowDigitsPeriodic(m / 10, k - 1);
    }
  }

  /** `s.slice(0, n)`: the first n elements, or all of `s` when it is shorter. */
  function Take<T>(s: seq<T>, n: nat): (r: seq<T>)
    ensures |r| == if |s| <= n then |s| else n
    ensures r == s[..|r|]
  {
    if |s| <= n then s else s[..n]
  }
}
