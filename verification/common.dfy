/** Vocabulary shared by every part of the model: an optional value (Python's
    `None` or a value) and the handful of Python string operations the client
    relies on, restricted to what the client needs of them. */
module Common {

  /** A value that may be absent: Python's `None` or a value. */
  datatype Option<+T> = None | Some(value: T)

  /** Python's `s.startswith(p)`. */
  predicate StartsWith(s: string, p: string) {
    p <= s
  }

  /** Python's `t in s` on strings: `t` occurs somewhere inside `s`. */
  predicate Contains(s: string, t: string)
    decreases |s|
  {
    t <= s || (|s| > 0 && Contains(s[1..], t))
  }

  /** Whatever contains `t` contains every prefix of `t`: the reason why the
      model-name checks must test the longest name first. */
  lemma {:induction false} ContainsPrefixOf(s: string, t: string, p: string)
    requires Contains(s, t)
    requires p <= t
    ensures Contains(s, p)
    decreases |s|
  {
    if t <= s {
      assert p <= s;
    } else {
      ContainsPrefixOf(s[1..], t, p);
    }
  }

  /** A text that occurs in `s` brings its first character with it. */
  lemma {:induction false} ContainsHead(s: string, t: string)
    requires Contains(s, t) && |t| > 0
    ensures t[0] in s
    decreases |s|
  {
    if t <= s {
      assert s[0] == t[0];
    } else {
      ContainsHead(s[1..], t);
      assert t[0] in s[1..];
    }
  }

  /** A text lacking one of the characters of `t` does not contain `t`. */
  lemma {:induction false} MissingCharNotContained(s: string, t: string, k: nat)
    requires k < |t| && t[k] !in s
    ensures !Contains(s, t)
    decreases |s|
  {
    if k < |s| {
      assert s[k] in s;
    }
    if |s| > 0 {
      MissingCharNotContained(s[1..], t, k);
    }
  }

  /** The white-space characters Python's `str.strip()` and `str.split()`
      remove: those for which `str.isspace()` holds. Among ASCII these are
      the blank, tab to carriage return, and the four separators
      `\x1c`..`\x1f`; beyond ASCII, the next line and no-break spaces and the
      Unicode space and line/paragraph separators. */
  predicate IsSpace(c: char) {
    ('\t' <= c <= '\r') || ('\U{001C}' <= c <= ' ')
    || c == '\U{0085}' || c == '\U{00A0}' || c == '\U{1680}'
    || ('\U{2000}' <= c <= '\U{200A}') || c == '\U{2028}' || c == '\U{2029}'
    || c == '\U{202F}' || c == '\U{205F}' || c == '\U{3000}'
  }

  /** Python's `s.lstrip()`: drop leading white space. */
  function TrimLeft(s: string): (r: string)
    ensures |r| <= |s| && r == s[|s| - |r|..]
    ensures |r| > 0 ==> !IsSpace(r[0])
    ensures forall i :: 0 <= i < |s| - |r| ==> IsSpace(s[i])
    decreases |s|
  {
    if |s| > 0 && IsSpace(s[0]) then TrimLeft(s[1..]) else s
  }

  /** Python's `s.rstrip()`: drop trailing white space. */
  function TrimRight(s: string): (r: string)
    ensures r <= s
    ensures |r| > 0 ==> !IsSpace(r[|r| - 1])
    ensures forall i :: |r| <= i < |s| ==> IsSpace(s[i])
    decreases |s|
  {
    if |s| > 0 && IsSpace(s[|s| - 1]) then TrimRight(s[..|s| - 1]) else s
  }

  /** Python's `s.strip()`. */
  function Strip(s: string): string {
    TrimRight(TrimLeft(s))
  }

  /** Python's `c.lower()` on one character, restricted to ASCII letters. */
  function LowerChar(c: char): (r: char)
    ensures !('A' <= r <= 'Z')
    ensures !('A' <= c <= 'Z') ==> r == c
  {
    if 'A' <= c <= 'Z' then (c as int - 'A' as int + 'a' as int) as char else c
  }

  /** Python's `s.lower()`, restricted to ASCII letters. */
  function Lower(s: string): (r: string)
    ensures |r| == |s|
    ensures forall i :: 0 <= i < |s| ==> r[i] == LowerChar(s[i])
  {
    seq(|s|, i requires 0 <= i < |s| => LowerChar(s[i]))
  }

  /** True when no ASCII capital occurs in `s`. */
  predicate NoCapitals(s: string) {
    forall i :: 0 <= i < |s| ==> !('A' <= s[i] <= 'Z')
  }

  /** Lower-casing twice is lower-casing once. */
  lemma LowerIdempotent(s: string)
    ensures Lower(Lower(s)) == Lower(s)
    ensures NoCapitals(Lower(s))
  {
  }

  /** Python's normalisation of a slice bound: negatives count from the end,
      then the bound is clamped to the text. */
  function SliceBound(i: int, n: nat): (r: nat)
    ensures r <= n
  {
    var j := if i < 0 then i + n else i;
    if j < 0 then 0 else if j > n then n else j
  }

  /** Python's `s[a:b]`. */
  function PySlice(s: string, a: int, b: int): (r: string)
    ensures |r| <= |s|
    ensures 0 <= a <= b <= |s| ==> r == s[a..b]
  {
    var lo := SliceBound(a, |s|);
    var hi := SliceBound(b, |s|);
    if lo < hi then s[lo..hi] else ""
  }
}
