/**
 * Character classes and scanning helpers shared by the hand-written versions of
 * the analyzer's regular expressions. A log line is a `string` that holds no line
 * break, so `^` means "at index 0" and `$` means "at the end".
 */
module Text {
  import opened Wrappers

  /**
   * `\s` of Python's `re` on a `str` pattern, restricted to the ASCII range: the
   * six usual whitespace characters and the separators U+001C to U+001F, which
   * `str.isspace` also accepts.
   */
  predicate IsSpace(c: char) {
    c == ' ' || c == '\t' || c == '\n' || c == '\r' || c == '\U{B}' || c == '\U{C}'
    || '\U{1C}' <= c <= '\U{1F}'
  }

  /** `\d` of Python's `re`, restricted to the ASCII digits. */
  predicate IsDigit(c: char) {
    '0' <= c <= '9'
  }

  predicate AllDigits(s: string) {
    forall k :: 0 <= k < |s| ==> IsDigit(s[k])
  }

  predicate NoSpace(s: string) {
    forall k :: 0 <= k < |s| ==> !IsSpace(s[k])
  }

  /** `p` occurs in `s` starting at index `i`. */
  predicate HasAt(s: string, i: nat, p: string) {
    i + |p| <= |s| && s[i..i + |p|] == p
  }

  predicate StartsWith(s: string, p: string) {
    HasAt(s, 0, p)
  }

  predicate EndsWith(s: string, p: string) {
    |p| <= |s| && s[|s| - |p|..] == p
  }

  /** The end of the longest run of digits that starts at `i` (what a greedy `\d*` stops at). */
  function DigitsEnd(s: string, i: nat): (e: nat)
    requires i <= |s|
    ensures i <= e <= |s|
    ensures AllDigits(s[i..e])
    ensures e < |s| ==> !IsDigit(s[e])
    decreases |s| - i
  {
    if i < |s| && IsDigit(s[i]) then DigitsEnd(s, i + 1) else i
  }

  /** The start of the longest run of digits that ends just before index `j`. */
  function DigitsStart(s: string, j: nat): (b: nat)
    requires j <= |s|
    ensures b <= j
    ensures AllDigits(s[b..j])
    ensures b > 0 ==> !IsDigit(s[b - 1])
    decreases j
  {
    if j > 0 && IsDigit(s[j - 1]) then
      var b := DigitsStart(s, j - 1);
      assert s[b..j] == s[b..j - 1] + [s[j - 1]];
      b
    else j
  }

  /** The start of the longest run of non-whitespace characters that ends just before index `j`. */
  function TokenStart(s: string, j: nat): (b: nat)
    requires j <= |s|
    ensures b <= j
    ensures NoSpace(s[b..j])
    ensures b > 0 ==> IsSpace(s[b - 1])
    decreases j
  {
    if j > 0 && !IsSpace(s[j - 1]) then
      var b := TokenStart(s, j - 1);
      assert s[b..j] == s[b..j - 1] + [s[j - 1]];
      b
    else j
  }

  /**
   * The value of a string of ASCII digits, as Python's `int(d)` gives it. `int('')` raises, so `d` is
   * non-empty where it is called. Python's limit on the number of digits `int` accepts is not modelled:
   * here every digit string has a value.
   */
  function NumberValue(d: string): nat
    requires AllDigits(d)
    decreases |d|
  {
    if d == [] then 0 else 10 * NumberValue(d[..|d| - 1]) + (d[|d| - 1] as int - '0' as int)
  }

  /** The first index at or after `i` where `p` occurs in `s` (what an unanchored search finds first). */
  function FindFrom(s: string, p: string, i: nat): (r: Option<nat>)
    ensures r.Some? ==> i <= r.value && HasAt(s, r.value, p)
    ensures r.Some? ==> forall k :: i <= k < r.value ==> !HasAt(s, k, p)
    ensures r.None? ==> forall k :: i <= k ==> !HasAt(s, k, p)
    decreases |s| - i
  {
    if i + |p| > |s| then None
    else if HasAt(s, i, p) then Some(i)
    else FindFrom(s, p, i + 1)
  }

  /** A greedy `\d*` that starts at `i` stops after exactly the digits `d`. */
  lemma {:induction false} DigitsEndOfRun(s: string, i: nat, d: string)
    requires AllDigits(d) && HasAt(s, i, d)
    requires i + |d| == |s| || !IsDigit(s[i + |d|])
    ensures DigitsEnd(s, i) == i + |d|
    decreases |d|
  {
    if d != [] {
      assert s[i] == d[0];
      assert HasAt(s, i + 1, d[1..]) by {
        assert s[i + 1..i + 1 + |d[1..]|] == s[i..i + |d|][1..];
      }
      DigitsEndOfRun(s, i + 1, d[1..]);
    }
  }

  /** An occurrence of `p + q` is an occurrence of `p` followed by one of `q`. */
  lemma HasAtAppend(s: string, i: nat, p: string, q: string)
    requires HasAt(s, i, p + q)
    ensures HasAt(s, i, p) && HasAt(s, i + |p|, q)
  {
    assert s[i..i + |p|] == (p + q)[..|p|];
    assert s[i + |p|..i + |p| + |q|] == (p + q)[|p|..];
  }

  /** A greedy `\d*` that starts at `i` inside a run of digits stops where the run ends. */
  lemma {:induction false} DigitsEndWithin(s: string, i: nat, j: nat)
    requires i <= j <= |s|
    requires forall k :: i <= k < j ==> IsDigit(s[k])
    requires j == |s| || !IsDigit(s[j])
    ensures DigitsEnd(s, i) == j
    decreases j - i
  {
    if i < j {
      DigitsEndWithin(s, i + 1, j);
    }
  }

  /** Scanning back over non-whitespace from `j` stops at the whitespace (or the line start) before `i`. */
  lemma {:induction false} TokenStartWithin(s: string, i: nat, j: nat)
    requires i <= j <= |s|
    requires forall k :: i <= k < j ==> !IsSpace(s[k])
    requires i == 0 || IsSpace(s[i - 1])
    ensures TokenStart(s, j) == i
    decreases j - i
  {
    if i < j {
      TokenStartWithin(s, i, j - 1);
    }
  }

  /** Scanning back over digits from `j` stops at the non-digit (or the line start) before `i`. */
  lemma {:induction false} DigitsStartWithin(s: string, i: nat, j: nat)
    requires i <= j <= |s|
    requires forall k :: i <= k < j ==> IsDigit(s[k])
    requires i == 0 || !IsDigit(s[i - 1])
    ensures DigitsStart(s, j) == i
    decreases j - i
  {
    if i < j {
      DigitsStartWithin(s, i, j - 1);
    }
  }

  /** The character at the head of an occurrence. */
  lemma HasAtHead(s: string, i: nat, p: string)
    requires HasAt(s, i, p) && |p| > 0
    ensures s[i] == p[0]
  {
    assert s[i..i + |p|][0] == s[i];
  }

  /** `p` does not occur where the character differs from its head. */
  lemma NotHasAtHead(s: string, i: nat, p: string)
    requires |p| > 0 && (i >= |s| || s[i] != p[0])
    ensures !HasAt(s, i, p)
  {
    if HasAt(s, i, p) {
      HasAtHead(s, i, p);
    }
  }

  lemma NotHasAtIndex(s: string, i: nat, p: string, m: nat)
    requires m < |p| && i + m < |s| && s[i + m] != p[m]
    ensures !HasAt(s, i, p)
  {
  }

  /** A one-character occurrence is that character at that index. */
  lemma HasAtChar(s: string, i: nat, c: char)
    ensures HasAt(s, i, [c]) <==> i < |s| && s[i] == c
  {
    if i < |s| {
      assert s[i..i + 1] == [s[i]];
    }
  }

  /** Appending the same text to both keeps a suffix a suffix. */
  lemma EndsWithAppend(s: string, q: string, r: string)
    requires EndsWith(s, q)
    ensures EndsWith(s + r, q + r)
  {
    assert (s + r)[|s + r| - |q + r|..] == s[|s| - |q|..] + r;
  }

  /** An occurrence that ends by index `n` is also an occurrence in the first `n` characters. */
  lemma HasAtInPrefix(s: string, n: nat, i: nat, p: string)
    requires HasAt(s, i, p) && i + |p| <= n <= |s|
    ensures HasAt(s[..n], i, p)
  {
    assert s[..n][i..i + |p|] == s[i..i + |p|];
  }

  /** An occurrence, character by character. */
  lemma HasAtChars(s: string, i: nat, p: string)
    requires HasAt(s, i, p)
    ensures forall k :: 0 <= k < |p| ==> s[i + k] == p[k]
  {
    forall k | 0 <= k < |p| ensures s[i + k] == p[k] {
      assert s[i..i + |p|][k] == s[i + k];
    }
  }

  /** The search from `i` finds `c` when `p` occurs at `c` and nowhere in between. */
  lemma FindFromFirst(s: string, p: string, i: nat, c: nat)
    requires i <= c && HasAt(s, c, p)
    requires forall k :: i <= k < c ==> !HasAt(s, k, p)
    ensures FindFrom(s, p, i) == Some(c)
  {
    var r := FindFrom(s, p, i);
    assert r.Some?;
    assert !(r.value < c);
  }

  /** A suffix occurs where it starts. */
  lemma EndsWithHasAt(s: string, p: string)
    requires EndsWith(s, p)
    ensures HasAt(s, |s| - |p|, p)
  { }

  /** The pieces of an occurrence of `a + b + c + d`. */
  lemma HasAtPieces(s: string, i: nat, a: string, b: string, c: string, d: string)
    requires HasAt(s, i, a + b + c + d)
    ensures HasAt(s, i, a) && HasAt(s, i + |a|, b) && HasAt(s, i + |a| + |b|, c)
    ensures HasAt(s, i + |a| + |b| + |c|, d)
  {
    HasAtAppend(s, i, a + b + c, d);
    HasAtAppend(s, i, a + b, c);
    HasAtAppend(s, i, a, b);
  }
}
