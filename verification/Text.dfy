/** String operations of the modelled programs, on sequences of Unicode characters. */
module Text {

  datatype Option<+T> = None | Some(value: T)

  /** White space as `str.isspace` and `\s` see it. */
  predicate IsSpace(c: char) {
    || '\t' <= c <= '\r'
    || '\U{1C}' <= c <= ' '
    || c == '\U{85}' || c == '\U{A0}' || c == '\U{1680}'
    || '\U{2000}' <= c <= '\U{200A}'
    || c == '\U{2028}' || c == '\U{2029}' || c == '\U{202F}' || c == '\U{205F}' || c == '\U{3000}'
  }

  /** The single-character line boundaries of `str.splitlines`. */
  predicate IsLineBreak(c: char) {
    || '\n' <= c <= '\r'
    || '\U{1C}' <= c <= '\U{1E}'
    || c == '\U{85}' || c == '\U{2028}' || c == '\U{2029}'
  }

  predicate Blank(s: string) {
    forall i | 0 <= i < |s| :: IsSpace(s[i])
  }

  predicate OneLine(s: string) {
    forall i | 0 <= i < |s| :: !IsLineBreak(s[i])
  }

  type Line = s: string | OneLine(s) witness ""

  predicate EndsWithNewline(s: string) {
    s != "" && s[|s| - 1] == '\n'
  }

  function LStrip(s: string): (r: string)
    ensures |r| <= |s| && r == s[|s| - |r|..]
    ensures forall i | 0 <= i < |s| - |r| :: IsSpace(s[i])
    ensures r != "" ==> !IsSpace(r[0])
  {
    if s != "" && IsSpace(s[0]) then LStrip(s[1..]) else s
  }

  function RStrip(s: string): (r: string)
    ensures r <= s && forall i | |r| <= i < |s| :: IsSpace(s[i])
    ensures r != "" ==> !IsSpace(r[|r| - 1])
  {
    if s != "" && IsSpace(s[|s| - 1]) then RStrip(s[..|s| - 1]) else s
  }

  function Strip(s: string): (r: string)
    ensures OneLine(s) ==> OneLine(r)
  {
    RStrip(LStrip(s))
  }

  function RStripNewlines(s: string): (r: string)
    ensures r <= s && forall i | |r| <= i < |s| :: s[i] == '\n'
    ensures !EndsWithNewline(r)
  {
    if EndsWithNewline(s) then RStripNewlines(s[..|s| - 1]) else s
  }

  /** The substring test `h in s`. */
  predicate Contains(s: string, h: string) {
    h <= s || (s != "" && Contains(s[1..], h))
  }

  /** The number of positions of `s` at which `h` occurs. */
  function Count(s: string, h: string): nat {
    (if h <= s then 1 else 0) + if s == "" then 0 else Count(s[1..], h)
  }

  /** The text before the first occurrence of `h`, which `str.index` finds. */
  function Before(s: string, h: string): (r: string)
    requires Contains(s, h)
    ensures r <= s && h <= s[|r|..]
  {
    if h <= s then "" else [s[0]] + Before(s[1..], h)
  }

  /** The text behind the first occurrence of `h`. */
  function Behind(s: string, h: string): string {
    if Contains(s, h) then s[|Before(s, h)| + |h|..] else ""
  }

  /** `s.replace(old, new, 1)`. */
  function ReplaceFirst(s: string, target: string, replacement: string): string {
    if Contains(s, target)
    then var b := Before(s, target); b + replacement + s[|b| + |target|..]
    else s
  }

  // ---- Characters ----

  /** The white space and the line boundaries, one by one. */
  lemma CharacterClasses(c: char)
    ensures IsSpace(c) <==> c in {'\t', '\n', '\U{B}', '\U{C}', '\r', '\U{1C}', '\U{1D}', '\U{1E}', '\U{1F}', ' ',
      '\U{85}', '\U{A0}', '\U{1680}', '\U{2000}', '\U{2001}', '\U{2002}', '\U{2003}', '\U{2004}', '\U{2005}',
      '\U{2006}', '\U{2007}', '\U{2008}', '\U{2009}', '\U{200A}', '\U{2028}', '\U{2029}', '\U{202F}', '\U{205F}',
      '\U{3000}'}
    ensures IsLineBreak(c) <==> c in {'\n', '\U{B}', '\U{C}', '\r', '\U{1C}', '\U{1D}', '\U{1E}', '\U{85}',
      '\U{2028}', '\U{2029}'}
  {
  }

  // ---- Stripping ----

  lemma RStripUnique(s: string, r: string)
    requires r <= s && (forall i | |r| <= i < |s| :: IsSpace(s[i])) && (r != "" ==> !IsSpace(r[|r| - 1]))
    ensures RStrip(s) == r
  {
    var t := RStrip(s);
    assert |t| > 0 ==> s[|t| - 1] == t[|t| - 1];
    assert |r| > 0 ==> s[|r| - 1] == r[|r| - 1];
    assert |t| == |r|;
  }

  lemma {:induction false} LStripUnique(s: string, k: nat)
    requires k <= |s| && (forall i | 0 <= i < k :: IsSpace(s[i])) && (k < |s| ==> !IsSpace(s[k]))
    ensures LStrip(s) == s[k..]
  {
    if k > 0 {
      LStripUnique(s[1..], k - 1);
      assert s[1..][k - 1..] == s[k..];
    }
  }

  lemma RStripAppendBlank(s: string, w: string)
    requires Blank(w)
    ensures RStrip(s + w) == RStrip(s)
  {
    RStripUnique(s + w, RStrip(s));
  }

  lemma BlankStrip(s: string)
    ensures Blank(s) <==> RStrip(s) == ""
    ensures Blank(s) <==> Strip(s) == ""
  {
    if Blank(s) {
      RStripUnique(s, "");
      LStripUnique(s, |s|);
    }
  }

  /** Stripping takes the white space off both ends, and nothing else. */
  lemma StripIsMiddle(s: string) returns (a: string, z: string)
    ensures s == a + Strip(s) + z && Blank(a) && Blank(z)
    ensures Strip(s) != "" ==> !IsSpace(Strip(s)[0]) && !IsSpace(Strip(s)[|Strip(s)| - 1])
  {
    hide IsSpace, OneLine, LStrip, RStrip;
    var l, r := LStrip(s), Strip(s);
    a, z := s[..|s| - |l|], l[|r|..];
    assert s == a + l && l == r + z;
    Assoc(a, r, z);
    assert r != "" ==> r[0] == l[0];
  }

  lemma StripAppendBlank(s: string, w: string)
    requires Blank(w)
    ensures Strip(s + w) == Strip(s)
  {
    hide LStrip, RStrip;
    var l := LStrip(s);
    if l == "" {
      BlankStrip(s + w);
      BlankStrip(s);
    } else {
      var k := |s| - |l|;
      LStripUnique(s + w, k);
      assert (s + w)[k..] == l + w;
      RStripAppendBlank(l, w);
    }
  }

  lemma ConsAppend(a: string, b: string)
    requires a != ""
    ensures [a[0]] + (a[1..] + b) == a + b
    ensures (a + b)[1..] == a[1..] + b
  {
  }

  lemma Assoc(a: string, b: string, c: string)
    ensures a + (b + c) == a + b + c
  {
  }

  // ---- Occurrences ----

  lemma {:induction false} ContainsIffCount(s: string, h: string)
    ensures Contains(s, h) <==> Count(s, h) > 0
  {
    if s != "" { ContainsIffCount(s[1..], h); }
  }

  lemma {:induction false} ContainsAt(s: string, k: nat, h: string)
    requires k <= |s| && h <= s[k..]
    ensures Contains(s, h)
  {
    if k > 0 {
      assert s[k..] == s[1..][k - 1..];
      ContainsAt(s[1..], k - 1, h);
    } else {
      assert s[0..] == s;
    }
  }

  /** The substring test finds an occurrence at any position. */
  lemma {:induction false} ContainsMeans(s: string, h: string)
    ensures Contains(s, h) <==> exists k | 0 <= k <= |s| :: h <= s[k..]
  {
    assert s[0..] == s;
    if s != "" {
      ContainsMeans(s[1..], h);
      assert forall k | 0 < k <= |s| :: s[k..] == s[1..][k - 1..];
      assert forall k | 0 <= k <= |s[1..]| :: s[1..][k..] == s[k + 1..];
    }
  }

  /** No occurrence stands before the one that is found. */
  lemma {:induction false} BeforeIsFirst(s: string, h: string)
    requires Contains(s, h)
    ensures forall k | 0 <= k < |Before(s, h)| :: !(h <= s[k..])
  {
    assert s[0..] == s;
    if !(h <= s) {
      BeforeIsFirst(s[1..], h);
      assert forall k | 0 < k < |Before(s, h)| :: s[k..] == s[1..][k - 1..];
    }
  }

  /** A replacement leaves everything but the first occurrence as it was. */
  lemma ReplacesFirst(s: string, target: string, replacement: string)
    ensures !Contains(s, target) ==> ReplaceFirst(s, target, replacement) == s
    ensures Contains(s, target) ==> exists b, r ::
      && s == b + target + r && ReplaceFirst(s, target, replacement) == b + replacement + r
      && forall k | 0 <= k < |b| :: !(target <= s[k..])
  {
    if Contains(s, target) {
      BeforeIsFirst(s, target);
      var b := Before(s, target);
      var rest := s[|b|..];
      var r := rest[|target|..];
      assert s == b + rest && rest == target + r;
      Assoc(b, target, r);
      assert s[|b| + |target|..] == r;
      assert s == b + target + r && ReplaceFirst(s, target, replacement) == b + replacement + r;
    }
  }

  /** A text without the separator `c` cannot straddle it. */
  lemma {:induction false} CountAcross(a: string, c: char, b: string, h: string)
    requires h != "" && c !in h
    ensures Count(a + [c] + b, h) == Count(a, h) + Count(b, h)
  {
    var s := a + [c] + b;
    if a == "" {
      assert s[1..] == b;
      assert s[0] == c && h[0] in h;
    } else {
      assert s[1..] == a[1..] + [c] + b;
      CountAcross(a[1..], c, b, h);
      PrefixAcross(a, c, b, h);
    }
  }

  lemma PrefixAcross(a: string, c: char, b: string, h: string)
    requires c !in h
    ensures h <= a + [c] + b <==> h <= a
  {
    assert (a + [c] + b)[|a|] == c;
    assert |a| < |h| ==> h[|a|] in h;
  }

  /** A text ending in a character foreign to `h` offers no start for an occurrence that leaves it. */
  lemma PrefixOfLine(a: string, b: string, h: string)
    requires a != "" && a[|a| - 1] !in h
    ensures h <= a + b <==> h <= a
  {
    var i, c := a[..|a| - 1], a[|a| - 1];
    PrefixAcross(i, c, b, h);
    PrefixAcross(i, c, "", h);
    assert i + [c] + b == a + b;
    assert i + [c] + "" == a;
  }

  lemma ConsPrefix(c: char, m: string, s: string)
    ensures [c] + m <= s <==> s != "" && s[0] == c && m <= s[1..]
  {
    if [c] + m <= s {
      assert m == ([c] + m)[1..] == s[1..][..|m|];
    }
  }

  // ---- Permutations ----

  /** The last element of a list stands somewhere in every rearrangement of the list. */
  lemma Extract<T>(a: seq<T>, b: seq<T>) returns (p: seq<T>, q: seq<T>)
    requires a != [] && multiset(a) == multiset(b)
    ensures b == p + [a[|a| - 1]] + q
    ensures multiset(a[..|a| - 1]) == multiset(p + q)
  {
    var init, x := a[..|a| - 1], a[|a| - 1];
    assert a == init + [x];
    assert x in multiset(b);
    var i :| 0 <= i < |b| && b[i] == x;
    p, q := b[..i], b[i + 1..];
    assert b == p + [x] + q;
    assert multiset(p + q) + multiset{x} == multiset(b) by { Around(p, x, q); }
    assert multiset(init) + multiset{x} == multiset(a);
    Cancel(multiset(init), multiset(p + q), x);
  }

  lemma Cancel<T>(a: multiset<T>, b: multiset<T>, x: T)
    requires a + multiset{x} == b + multiset{x}
    ensures a == b
  {
    assert a == a + multiset{x} - multiset{x};
  }

  lemma Around<T>(p: seq<T>, x: T, q: seq<T>)
    ensures multiset(p + [x] + q) == multiset(p + q) + multiset{x}
  {
  }
}
