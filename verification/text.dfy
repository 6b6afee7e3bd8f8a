/** The handful of Python string operations the integration relies on:
    `str.strip()`, `str.rstrip(chars)`, `str.startswith` and the substring
    test `sub in s`. */
module Text {

  /** The characters for which Python's `str.isspace()` holds; these are the
      characters `str.strip()` removes when called without an argument. */
  predicate IsSpace(c: char) {
    || c == ' '
    || '\U{9}' <= c <= '\U{D}'
    || '\U{1C}' <= c <= '\U{1F}'
    || c == '\U{85}'
    || c == '\U{A0}'
    || c == '\U{1680}'
    || '\U{2000}' <= c <= '\U{200A}'
    || c == '\U{2028}'
    || c == '\U{2029}'
    || c == '\U{202F}'
    || c == '\U{205F}'
    || c == '\U{3000}'
  }

  /** Drops the longest prefix of `s` made of characters satisfying `drop`. */
  function TrimStart(s: string, drop: char -> bool): string
    decreases |s|
  {
    if |s| > 0 && drop(s[0]) then TrimStart(s[1..], drop) else s
  }

  /** What trimming the start leaves: a suffix of `s`, everything dropped
      satisfies `drop`, and what is left does not start with such a
      character. */
  lemma {:induction false} TrimStartSpec(s: string, drop: char -> bool)
    ensures var r := TrimStart(s, drop);
      && |r| <= |s| && r == s[|s| - |r|..]
      && (forall k :: 0 <= k < |s| - |r| ==> drop(s[k]))
      && (r == [] || !drop(r[0]))
    decreases |s|
  {
    if |s| > 0 && drop(s[0]) {
      TrimStartSpec(s[1..], drop);
      var r := TrimStart(s, drop);
      forall k | 0 < k < |s| - |r|
        ensures drop(s[k])
      {
        assert s[k] == s[1..][k - 1];
      }
    }
  }

  /** Drops the longest suffix of `s` made of characters satisfying `drop`:
      Python's `s.rstrip(chars)` when `drop` is membership in `chars`. */
  function TrimEnd(s: string, drop: char -> bool): string
    decreases |s|
  {
    if |s| > 0 && drop(s[|s| - 1]) then TrimEnd(s[..|s| - 1], drop) else s
  }

  /** What trimming the end leaves: a prefix of `s`, everything dropped
      satisfies `drop`, and what is left does not end with such a
      character. */
  lemma {:induction false} TrimEndSpec(s: string, drop: char -> bool)
    ensures var r := TrimEnd(s, drop);
      && r <= s
      && (forall k :: |r| <= k < |s| ==> drop(s[k]))
      && (r == [] || !drop(r[|r| - 1]))
    decreases |s|
  {
    if |s| > 0 && drop(s[|s| - 1]) {
      TrimEndSpec(s[..|s| - 1], drop);
    }
  }

  /** Appending a dropped character does not change what trimming the end gives. */
  lemma TrimEndAppendDropped(s: string, c: char, drop: char -> bool)
    requires drop(c)
    ensures TrimEnd(s + [c], drop) == TrimEnd(s, drop)
  {
    assert (s + [c])[..|s|] == s;
  }

  predicate IsSlash(c: char) {
    c == '/'
  }

  /** Python's `s.rstrip('/')`: `s` without its trailing slashes. */
  function RStripSlashes(s: string): (r: string)
    ensures r <= s
    ensures forall k :: |r| <= k < |s| ==> s[k] == '/'
    ensures r == [] || r[|r| - 1] != '/'
  {
    TrimEndSpec(s, IsSlash);
    TrimEnd(s, IsSlash)
  }

  /** One more trailing slash is stripped away like the others. */
  lemma RStripSlashesAppend(s: string)
    ensures RStripSlashes(s + "/") == RStripSlashes(s)
  {
    TrimEndAppendDropped(s, '/', IsSlash);
  }

  /** `r` sits in `s` at `i` with only whitespace before and after it. */
  ghost predicate PaddedAt(r: string, s: string, i: nat) {
    && i + |r| <= |s|
    && s[i..i + |r|] == r
    && (forall k :: 0 <= k < i ==> IsSpace(s[k]))
    && (forall k :: i + |r| <= k < |s| ==> IsSpace(s[k]))
  }

  /** Python's `s.strip()`. */
  function Strip(s: string): string {
    TrimEnd(TrimStart(s, IsSpace), IsSpace)
  }

  /** Stripping leaves a slice of `s` with only whitespace around it, which
      itself neither starts nor ends with whitespace. */
  lemma StripSpec(s: string)
    ensures exists i: nat :: PaddedAt(Strip(s), s, i)
    ensures var r := Strip(s); r == [] || (!IsSpace(r[0]) && !IsSpace(r[|r| - 1]))
  {
    var t := TrimStart(s, IsSpace);
    var r := TrimEnd(t, IsSpace);
    TrimStartSpec(s, IsSpace);
    TrimEndSpec(t, IsSpace);
    var i := |s| - |t|;
    assert s[i..i + |r|] == r;
    forall k | i + |r| <= k < |s|
      ensures IsSpace(s[k])
    {
      assert s[k] == t[k - i];
    }
    assert Strip(s) == r && PaddedAt(r, s, i);
  }

  /** Stripping twice is stripping once. */
  lemma StripIdempotent(s: string)
    ensures Strip(Strip(s)) == Strip(s)
  {
    StripSpec(s);
    StripUnpadded(Strip(s));
  }

  /** A string that neither starts nor ends with whitespace is left alone. */
  lemma StripUnpadded(s: string)
    requires s == [] || (!IsSpace(s[0]) && !IsSpace(s[|s| - 1]))
    ensures Strip(s) == s
  {
    StripSpec(s);
    var r := Strip(s);
    var i: nat :| PaddedAt(r, s, i);
    if i > 0 {
      assert false;
    } else if i + |r| < |s| {
      assert false;
    } else {
      assert r == s[0..|s|];
    }
  }

  /** A leading whitespace character makes no difference to stripping. */
  lemma StripLeadingSpace(c: char, s: string)
    requires IsSpace(c)
    ensures Strip([c] + s) == Strip(s)
  {
    assert ([c] + s)[1..] == s;
  }

  /** `sub` occurs in `s` starting at index `i`. */
  predicate OccursAt(sub: string, s: string, i: nat) {
    i + |sub| <= |s| && s[i..i + |sub|] == sub
  }

  /** `sub` occurs somewhere in `s`: Python's `sub in s`. */
  ghost predicate Occurs(sub: string, s: string) {
    exists i: nat :: OccursAt(sub, s, i)
  }

  lemma OccursShift(sub: string, s: string, i: nat)
    requires |s| > 0
    ensures OccursAt(sub, s, i + 1) <==> OccursAt(sub, s[1..], i)
  {
    if i + 1 + |sub| <= |s| {
      assert s[i + 1..i + 1 + |sub|] == s[1..][i..i + |sub|];
    }
  }

  /** Substring search, scanning the start positions from the left. */
  function Contains(sub: string, s: string): (r: bool)
    ensures r <==> Occurs(sub, s)
    decreases |s|
  {
    if sub <= s then
      assert OccursAt(sub, s, 0);
      true
    else if s == [] then
      false
    else
      var r := Contains(sub, s[1..]);
      assert r <==> Occurs(sub, s) by {
        if r {
          var i: nat :| OccursAt(sub, s[1..], i);
          OccursShift(sub, s, i);
        } else if Occurs(sub, s) {
          var i: nat :| OccursAt(sub, s, i);
          assert i > 0;
          OccursShift(sub, s, i - 1);
        }
      }
      r
  }
}
