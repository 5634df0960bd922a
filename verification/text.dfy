/**
 * The string operations the bot applies to user input and to callback
 * payloads: `str.strip`, `str.lower`, `str.isalnum`, `str.split(":")`,
 * `str.split(":", n)` and `str.startswith`, over ASCII.
 */
module Text {

  /**
   * The ASCII characters Python's `str.strip()` removes: those `str.isspace()`
   * accepts, the four information separators 0x1C-0x1F included.
   */
  predicate IsSpace(c: char) {
    c == ' ' || c == '\t' || c == '\n' || c == '\r' || c == '\U{B}' || c == '\U{C}'
    || ('\U{1C}' <= c <= '\U{1F}')
  }

  predicate IsAlnumChar(c: char) {
    ('a' <= c <= 'z') || ('A' <= c <= 'Z') || ('0' <= c <= '9')
  }

  /** `str.isalnum()`: non-empty and made of letters and digits only. */
  predicate IsAlnum(s: string) {
    |s| > 0 && forall i :: 0 <= i < |s| ==> IsAlnumChar(s[i])
  }

  function LowerChar(c: char): char {
    if 'A' <= c <= 'Z' then (c as int + 32) as char else c
  }

  /** `str.lower()` */
  function Lower(s: string): (r: string)
    ensures |r| == |s|
    ensures forall i :: 0 <= i < |s| ==> r[i] == LowerChar(s[i])
  {
    if s == [] then [] else [LowerChar(s[0])] + Lower(s[1..])
  }

  /** `str.lstrip()`: the longest suffix of `s` that does not start with whitespace. */
  function TrimLeft(s: string): (r: string)
    ensures |r| <= |s| && r == s[|s| - |r|..]
    ensures r != [] ==> !IsSpace(r[0])
    ensures forall i :: 0 <= i < |s| - |r| ==> IsSpace(s[i])
  {
    if s != [] && IsSpace(s[0]) then TrimLeft(s[1..]) else s
  }

  /** `str.rstrip()`: the longest prefix of `s` that does not end with whitespace. */
  function TrimRight(s: string): (r: string)
    ensures |r| <= |s| && r == s[..|r|]
    ensures r != [] ==> !IsSpace(r[|r| - 1])
    ensures forall i :: |r| <= i < |s| ==> IsSpace(s[i])
  {
    if s != [] && IsSpace(s[|s| - 1]) then TrimRight(s[..|s| - 1]) else s
  }

  /** `str.strip()` */
  function Strip(s: string): string {
    TrimRight(TrimLeft(s))
  }

  /** `text.strip().lower()`, how every typed category or item key is read. */
  function Normalize(s: string): string {
    Lower(Strip(s))
  }

  /** Stripping twice is stripping once. */
  lemma StripIdempotent(s: string)
    ensures Strip(Strip(s)) == Strip(s)
  {
    var t := Strip(s);
    assert t == [] || (!IsSpace(t[0]) && !IsSpace(t[|t| - 1]));
    assert TrimLeft(t) == t;
    assert TrimRight(t) == t;
  }

  /** Lower-casing neither creates nor destroys a valid key, and leaves no capital. */
  lemma LowerKeepsKeys(s: string)
    ensures IsAlnum(Lower(s)) <==> IsAlnum(s)
    ensures forall i :: 0 <= i < |s| ==> !('A' <= Lower(s)[i] <= 'Z')
  {
  }

  /** A valid key never contains the payload delimiter. */
  lemma AlnumHasNoColon(s: string)
    requires IsAlnum(s)
    ensures ':' !in s
  {
  }

  /** `s.startswith(p)` */
  predicate StartsWith(s: string, p: string) {
    |p| <= |s| && s[..|p|] == p
  }

  /** Index of the first ':' in `s`, or `|s|` when there is none. */
  function ColonIndex(s: string): (i: nat)
    ensures i <= |s|
    ensures ':' !in s[..i]
    ensures i < |s| ==> s[i] == ':'
  {
    if s == [] || s[0] == ':' then 0
    else
      var j := ColonIndex(s[1..]);
      assert s[..1 + j] == [s[0]] + s[1..][..j];
      1 + j
  }

  /** `s.split(":")` */
  function SplitAll(s: string): (parts: seq<string>)
    ensures |parts| >= 1
    ensures forall k :: 0 <= k < |parts| ==> ':' !in parts[k]
    decreases |s|
  {
    var i := ColonIndex(s);
    if i == |s| then
      assert s[..i] == s;
      [s]
    else [s[..i]] + SplitAll(s[i + 1..])
  }

  /** `s.split(":", n)`: at most `n` splits, the rest stays in the last part. */
  function SplitN(s: string, n: nat): (parts: seq<string>)
    ensures 1 <= |parts| <= n + 1
    ensures Join(parts) == s
    ensures forall k :: 0 <= k < |parts| - 1 ==> ':' !in parts[k]
    ensures |parts| <= n ==> ':' !in parts[|parts| - 1]
    decreases n
  {
    var i := ColonIndex(s);
    if n == 0 then [s]
    else if i == |s| then
      assert s[..i] == s;
      [s]
    else
      var rest := SplitN(s[i + 1..], n - 1);
      JoinCons(s[..i], rest);
      SplitAround(s, i);
      [s[..i]] + rest
  }

  /** `":".join(parts)` */
  function Join(parts: seq<string>): string
    requires |parts| >= 1
  {
    if |parts| == 1 then parts[0] else parts[0] + ":" + Join(parts[1..])
  }

  /** Where the first ':' of `a + ":" + b` is when `a` holds none. */
  lemma {:induction false} ColonIndexAfter(a: string, b: string)
    requires ':' !in a
    ensures ColonIndex(a + ":" + b) == |a|
    ensures (a + ":" + b)[..|a|] == a && (a + ":" + b)[|a| + 1..] == b
  {
    var s := a + ":" + b;
    if a != [] {
      ColonIndexAfter(a[1..], b);
      assert s[1..] == a[1..] + ":" + b;
    }
    assert s[..|a|] == a;
    assert s[|a| + 1..] == b;
  }

  /** Splitting then joining gives back the payload. */
  lemma {:induction false} JoinSplitAll(s: string)
    ensures Join(SplitAll(s)) == s
    decreases |s|
  {
    var i := ColonIndex(s);
    if i < |s| {
      var head, tail := s[..i], s[i + 1..];
      var rest := SplitAll(tail);
      assert SplitAll(s) == [head] + rest;
      assert ([head] + rest)[1..] == rest;
      assert Join([head] + rest) == head + ":" + Join(rest);
      JoinSplitAll(tail);
      assert s == head + ":" + tail;
    } else {
      assert SplitAll(s) == [s];
    }
  }

  /** A string is the text before a ':' at `i`, the ':' and the text after it. */
  lemma SplitAround(s: string, i: nat)
    requires i < |s| && s[i] == ':'
    ensures s == s[..i] + ":" + s[i + 1..]
  {
  }

  lemma JoinCons(a: string, rest: seq<string>)
    requires |rest| >= 1
    ensures Join([a] + rest) == a + ":" + Join(rest)
  {
    assert ([a] + rest)[1..] == rest;
  }

  /** Joining colon-free parts then splitting gives back the parts. */
  lemma {:induction false} SplitAllJoin(parts: seq<string>)
    requires |parts| >= 1
    requires forall k :: 0 <= k < |parts| ==> ':' !in parts[k]
    ensures SplitAll(Join(parts)) == parts
    decreases |parts|
  {
    if |parts| == 1 {
      assert ColonIndex(parts[0]) == |parts[0]|;
    } else {
      var rest := Join(parts[1..]);
      ColonIndexAfter(parts[0], rest);
      SplitAllJoin(parts[1..]);
      assert [parts[0]] + parts[1..] == parts;
    }
  }

  /** `split(":", n)` of `n + 1` joined parts, the first `n` colon-free, gives them back. */
  lemma {:induction false} SplitNJoin(parts: seq<string>, n: nat)
    requires |parts| == n + 1
    requires forall k :: 0 <= k < n ==> ':' !in parts[k]
    ensures SplitN(Join(parts), n) == parts
    decreases n
  {
    if n > 0 {
      ColonFreeTail(parts, n);
      SplitNJoin(parts[1..], n - 1);
      SplitNJoinStep(parts, n);
    }
  }

  lemma SplitNJoinStep(parts: seq<string>, n: nat)
    requires |parts| == n + 1 && n > 0 && ':' !in parts[0]
    requires SplitN(Join(parts[1..]), n - 1) == parts[1..]
    ensures SplitN(Join(parts), n) == parts
  {
    var a, tail := parts[0], parts[1..];
    var rest := Join(tail);
    assert Join(parts) == a + ":" + rest;
    SplitNAfter(a, rest, n);
    assert [a] + tail == parts;
  }

  lemma ColonFreeTail(parts: seq<string>, n: nat)
    requires 0 < n < |parts|
    requires forall k :: 0 <= k < n ==> ':' !in parts[k]
    ensures forall k :: 0 <= k < n - 1 ==> ':' !in parts[1..][k]
  {
    forall k | 0 <= k < n - 1 ensures ':' !in parts[1..][k] {
      assert parts[1..][k] == parts[k + 1];
    }
  }

  /** With at least one split left, `split(":", n)` of `a + ":" + b` peels colon-free `a` off first. */
  lemma SplitNAfter(a: string, b: string, n: nat)
    requires ':' !in a && n > 0
    ensures SplitN(a + ":" + b, n) == [a] + SplitN(b, n - 1)
  {
    ColonIndexAfter(a, b);
    var s := a + ":" + b;
    assert ColonIndex(s) == |a| < |s|;
    assert SplitN(s, n) == [s[..|a|]] + SplitN(s[|a| + 1..], n - 1);
  }

  /** Splitting `a + ":" + b` with colon-free `a` peels `a` off first. */
  lemma SplitAllAfter(a: string, b: string)
    requires ':' !in a
    ensures SplitAll(a + ":" + b) == [a] + SplitAll(b)
  {
    ColonIndexAfter(a, b);
    var s := a + ":" + b;
    assert ColonIndex(s) == |a| < |s|;
    assert SplitAll(s) == [s[..|a|]] + SplitAll(s[|a| + 1..]);
  }

  /** The first part of a split is a strict prefix exactly when the string holds a ':'. */
  lemma SplitAllHead(s: string)
    ensures SplitAll(s)[0] == s <==> ':' !in s
  {
    var i := ColonIndex(s);
    if i < |s| {
      assert |SplitAll(s)[0]| == i;
    }
  }

  /** Every part of a split is no longer than the string, and strictly shorter when it held a ':'. */
  lemma {:induction false} SplitAllPartsShorter(s: string, k: nat)
    requires k < |SplitAll(s)|
    ensures |SplitAll(s)[k]| <= |s|
    ensures ':' in s ==> |SplitAll(s)[k]| < |s|
    decreases |s|
  {
    var i := ColonIndex(s);
    if i < |s| && k > 0 {
      SplitAllPartsShorter(s[i + 1..], k - 1);
    }
  }

  /** A string that differs from `p` at position `i` neither equals nor starts with `p`. */
  lemma DiffersAt(s: string, p: string, i: nat)
    requires i < |p| && i < |s| && s[i] != p[i]
    ensures !StartsWith(s, p) && s != p
  {
  }

  /** `p + k` starts with `p`. */
  lemma PrefixOf(p: string, k: string)
    ensures StartsWith(p + k, p)
  {
    assert (p + k)[..|p|] == p;
  }
}
