/**
 The regular expressions of the page format, each as the leftmost match that Python's `re`
 finds, computed on the text that remains.  A text is at the beginning of a line (`bol`) where
 the multiline anchor `^` matches.
 */
module Patterns {
  import opened Text

  /** A text cut in two at a position that a pattern found. */
  datatype Cut = Cut(before: string, after: string)

  /** What remains after the longest match of `\s*\n` at the start of `s`. */
  function SkipBlank(s: string): (r: Option<string>)
    ensures r.Some? ==> |r.value| < |s| && r.value == s[|s| - |r.value|..]
  {
    if s == "" || !IsSpace(s[0]) then None
    else match SkipBlank(s[1..])
      case Some(rest) => Some(rest)
      case None => if s[0] == '\n' then Some(s[1..]) else None
  }

  lemma TailOfTail(s: string, k: nat, n: nat)
    requires k <= |s| && n <= |s| - k
    ensures s[k..][|s| - k - n..] == s[|s| - n..] && s[..|s| - n] + s[|s| - n..] == s
  {
  }

  /** The pattern `heading\s*\n` matches at the start of `s`. */
  predicate HeadingHere(s: string, heading: string, anchored: bool, bol: bool) {
    heading <= s && (anchored ==> bol) && SkipBlank(s[|heading|..]).Some?
  }

  /** `heading\s*\n`, the heading at the start of a line when `anchored`: the cut after the match. */
  function Locate(s: string, heading: string, anchored: bool, bol: bool): (r: Option<Cut>)
    ensures r.Some? ==> r.value.before + r.value.after == s
    decreases |s|
  {
    if HeadingHere(s, heading, anchored, bol) then
      var rest := SkipBlank(s[|heading|..]).value;
      TailOfTail(s, |heading|, |rest|);
      Some(Cut(s[..|s| - |rest|], rest))
    else if s == "" then None
    else match Locate(s[1..], heading, anchored, s[0] == '\n')
      case None => None
      case Some(c) =>
        Assoc([s[0]], c.before, c.after);
        assert [s[0]] + s[1..] == s;
        Some(Cut([s[0]] + c.before, c.after))
  }

  /** `(.*?)(?=^marker|\Z)`: the cut before the first line that starts with the marker. */
  function TakeSection(s: string, marker: string, bol: bool): (c: Cut)
    ensures c.before + c.after == s
    decreases |s|
  {
    if s == "" || (bol && marker <= s) then Cut("", s)
    else
      var c := TakeSection(s[1..], marker, s[0] == '\n');
      Assoc([s[0]], c.before, c.after);
      Cut([s[0]] + c.before, c.after)
  }

  /** `(.*?)(\n(?=marker)|\Z)`: the cut before the newline that a marker line follows. */
  function TakeBody(s: string, marker: string): (c: Cut)
    ensures c.before + c.after == s
  {
    if s == "" || "\n" + marker <= s then Cut("", s)
    else
      var c := TakeBody(s[1..], marker);
      Assoc([s[0]], c.before, c.after);
      Cut([s[0]] + c.before, c.after)
  }

  /** `str.splitlines`. */
  function SplitLines(s: string): seq<Line>
    decreases |s|
  {
    if s == "" then []
    else
      var line := FirstLine(s);
      [line] + SplitLines(AfterFirstLine(s))
  }

  function FirstLine(s: string): (r: string)
    ensures r <= s && OneLine(r)
    ensures |r| < |s| ==> IsLineBreak(s[|r|])
  {
    if s == "" || IsLineBreak(s[0]) then "" else [s[0]] + FirstLine(s[1..])
  }

  /** What follows the first line and its line break; a carriage return and a newline are one break. */
  function AfterFirstLine(s: string): (r: string)
    requires s != ""
    ensures |r| < |s|
  {
    var k := |FirstLine(s)|;
    if k == |s| then ""
    else if s[k] == '\r' && k + 1 < |s| && s[k + 1] == '\n' then s[k + 2..]
    else s[k + 1..]
  }

  /** Some line of `s` starts with the marker. */
  predicate HasMarkerLine(s: string, marker: string, bol: bool)
    decreases |s|
  {
    (bol && marker <= s) || (s != "" && HasMarkerLine(s[1..], marker, s[0] == '\n'))
  }

  /** White space that ends in a newline: what `\s*\n` can match. */
  predicate Gap(g: string) {
    EndsWithNewline(g) && Blank(g)
  }

  // ---- What the patterns mean ----

  lemma GapTail(s: string, k: nat)
    requires 1 < k <= |s|
    ensures Gap(s[..k]) <==> IsSpace(s[0]) && Gap(s[1..][..k - 1])
  {
    hide IsSpace;
    var g := s[..k];
    assert s[1..][..k - 1] == g[1..] && g[0] == s[0];
    assert g[|g| - 1] == g[1..][|g| - 2];
    assert forall i | 0 < i < |g| :: g[i] == g[1..][i - 1];
  }

  lemma GapHead(s: string)
    requires s != ""
    ensures Gap(s[..1]) <==> s[0] == '\n'
  {
    assert s[..1] == [s[0]];
  }

  /** `SkipBlank` leaves the shortest remainder after a gap, and fails only when no gap starts the text. */
  lemma {:induction false} SkipBlankIsLongest(s: string)
    ensures SkipBlank(s).Some? ==> Gap(s[..|s| - |SkipBlank(s).value|])
    ensures forall k | 0 < k <= |s| && Gap(s[..k]) ::
      SkipBlank(s).Some? && k <= |s| - |SkipBlank(s).value|
  {
    hide Gap;
    if s != "" {
      GapHead(s);
      SkipBlankIsLongest(s[1..]);
      forall k | 1 < k <= |s|
        ensures Gap(s[..k]) <==> IsSpace(s[0]) && Gap(s[1..][..k - 1])
      {
        GapTail(s, k);
      }
    }
  }

  predicate LineStart(s: string, k: nat, bol: bool)
    requires k <= |s|
  {
    if k == 0 then bol else s[k - 1] == '\n'
  }

  /** The pattern of `Locate` matches at position `k`. */
  predicate MatchesAt(s: string, k: nat, heading: string, anchored: bool, bol: bool)
    requires k <= |s|
  {
    HeadingHere(s[k..], heading, anchored, LineStart(s, k, bol))
  }

  /** A line starting with the marker begins at position `k`. */
  predicate MarkerAt(s: string, k: nat, marker: string, bol: bool)
    requires k <= |s|
  {
    marker <= s[k..] && LineStart(s, k, bol)
  }

  /** `Locate` cuts after the first match, at the returned position, and fails only without one. */
  lemma {:induction false} LocateIsLeftmost(s: string, heading: string, anchored: bool, bol: bool)
    returns (k: nat)
    ensures k <= |s|
    ensures forall j | 0 <= j < k :: !MatchesAt(s, j, heading, anchored, bol)
    ensures Locate(s, heading, anchored, bol).None? ==>
      k == |s| && !MatchesAt(s, k, heading, anchored, bol)
    ensures Locate(s, heading, anchored, bol).Some? ==>
      && MatchesAt(s, k, heading, anchored, bol)
      && Locate(s, heading, anchored, bol).value.after == SkipBlank(s[k..][|heading|..]).value
    decreases |s|
  {
    assert s[0..] == s;
    if s == "" || HeadingHere(s, heading, anchored, bol) {
      k := 0;
    } else {
      var i := LocateIsLeftmost(s[1..], heading, anchored, s[0] == '\n');
      k := i + 1;
      forall j | 0 < j <= k
        ensures MatchesAt(s, j, heading, anchored, bol)
          <==> MatchesAt(s[1..], j - 1, heading, anchored, s[0] == '\n')
      {
        MatchesAtTail(s, j, heading, anchored, bol);
      }
      assert s[1..][i..] == s[k..];
    }
  }

  lemma MatchesAtTail(s: string, k: nat, heading: string, anchored: bool, bol: bool)
    requires 0 < k <= |s|
    ensures MatchesAt(s, k, heading, anchored, bol)
      <==> MatchesAt(s[1..], k - 1, heading, anchored, s[0] == '\n')
  {
    assert s[1..][k - 1..] == s[k..];
  }

  lemma MarkerAtTail(s: string, k: nat, marker: string, bol: bool)
    requires 0 < k <= |s|
    ensures MarkerAt(s, k, marker, bol) <==> MarkerAt(s[1..], k - 1, marker, s[0] == '\n')
  {
    assert s[1..][k - 1..] == s[k..];
  }

  /** `TakeSection` stops exactly before the first marker line. */
  lemma {:induction false} TakeSectionIsShortest(s: string, marker: string, bol: bool)
    requires marker != ""
    ensures var n := |TakeSection(s, marker, bol).before|;
      && (n == |s| || MarkerAt(s, n, marker, bol))
      && forall k | 0 <= k < n :: !MarkerAt(s, k, marker, bol)
    ensures HasMarkerLine(s, marker, bol) <==> TakeSection(s, marker, bol).after != ""
    decreases |s|
  {
    assert s[0..] == s;
    if s != "" {
      TakeSectionIsShortest(s[1..], marker, s[0] == '\n');
      forall k | 0 < k <= |s|
        ensures MarkerAt(s, k, marker, bol) <==> MarkerAt(s[1..], k - 1, marker, s[0] == '\n')
      {
        MarkerAtTail(s, k, marker, bol);
      }
    }
  }

  /** `TakeBody` stops exactly before the first newline that a marker follows. */
  lemma {:induction false} TakeBodyIsShortest(s: string, marker: string)
    ensures var n := |TakeBody(s, marker).before|;
      && (n == |s| || "\n" + marker <= s[n..])
      && forall k | 0 <= k < n :: !("\n" + marker <= s[k..])
  {
    assert s[0..] == s;
    if s != "" && !("\n" + marker <= s) {
      TakeBodyIsShortest(s[1..], marker);
      var n := |TakeBody(s, marker).before|;
      assert n > 0 && s[n..] == s[1..][n - 1..];
      assert forall k | 0 < k < n :: s[k..] == s[1..][k - 1..];
    }
  }

  // ---- The patterns on concatenations ----

  lemma {:induction false} SkipBlankOnce(s: string)
    requires SkipBlank(s).Some?
    ensures SkipBlank(SkipBlank(s).value).None?
  {
    if SkipBlank(s[1..]).Some? { SkipBlankOnce(s[1..]); }
  }

  lemma {:induction false} SkipGap(g: string, t: string)
    requires Gap(g) && SkipBlank(t).None?
    ensures SkipBlank(g + t) == Some(t)
  {
    assert (g + t)[1..] == g[1..] + t;
    if |g| > 1 {
      SkipGap(g[1..], t);
    } else {
      assert g[1..] + t == t;
    }
  }

  /** A solid text behind white space without a newline starts no gap. */
  lemma {:induction false} SkipBlankExtend(s: string, t: string)
    requires SkipBlank(s).None?
    requires t == "" || !IsSpace(t[0])
    ensures SkipBlank(s + t).None?
  {
    if s == "" {
      assert s + t == t;
    } else if t == "" {
      assert s + t == s;
    } else {
      assert (s + t)[1..] == s[1..] + t;
      if IsSpace(s[0]) {
        SkipBlankExtend(s[1..], t);
      }
    }
  }

  lemma {:induction false} NoGapOnLine(s: string)
    requires '\n' !in s
    ensures SkipBlank(s).None?
  {
    if s != "" { NoGapOnLine(s[1..]); }
  }

  lemma {:induction false} GapExtends(y: string, q: string)
    requires SkipBlank(y).Some?
    ensures SkipBlank(y + q).Some?
  {
    ConsAppend(y, q);
    if SkipBlank(y[1..]).Some? { GapExtends(y[1..], q); }
  }

  lemma LocateStep(c: char, s: string, heading: string, anchored: bool, bol: bool)
    requires !(heading <= [c] + s) && Locate(s, heading, anchored, c == '\n').Some?
    ensures var cut := Locate(s, heading, anchored, c == '\n').value;
      Locate([c] + s, heading, anchored, bol) == Some(Cut([c] + cut.before, cut.after))
  {
    assert ([c] + s)[1..] == s;
  }

  /** Text free of the heading is passed over, up to a heading that matches right after it. */
  lemma {:induction false} LocateAfter(
    p: string, head: string, rest: string, heading: string, anchored: bool, bol: bool)
    requires heading != "" && Count(p, heading) == 0
    requires p != "" ==> p[|p| - 1] !in heading
    requires heading <= head + rest && SkipBlank((head + rest)[|heading|..]) == Some(rest)
    requires anchored ==> if p == "" then bol else EndsWithNewline(p)
    ensures Locate(p + (head + rest), heading, anchored, bol) == Some(Cut(p + head, rest))
    decreases |p|
  {
    hide Locate, SkipBlank, HeadingHere;
    if p == "" {
      LocateHere(head, rest, heading, anchored, bol);
      assert p + (head + rest) == head + rest && p + head == head;
    } else {
      PrefixOfLine(p, head + rest, heading);
      LocateAfter(p[1..], head, rest, heading, anchored, p[0] == '\n');
      ConsAppend(p, head + rest);
      LocateStep(p[0], p[1..] + (head + rest), heading, anchored, bol);
      ConsAppend(p, head);
    }
  }

  lemma LocateHere(head: string, rest: string, heading: string, anchored: bool, bol: bool)
    requires heading <= head + rest && SkipBlank((head + rest)[|heading|..]) == Some(rest)
    requires anchored ==> bol
    ensures Locate(head + rest, heading, anchored, bol) == Some(Cut(head, rest))
  {
    var s := head + rest;
    assert HeadingHere(s, heading, anchored, bol);
    assert s[..|s| - |rest|] == head;
  }

  lemma {:induction false} TakeSectionConcat(z: string, r: string, marker: string, bol: bool)
    requires marker != "" && '\n' !in marker
    requires !HasMarkerLine(z, marker, bol)
    requires r == "" || (marker <= r && if z == "" then bol else EndsWithNewline(z))
    ensures TakeSection(z + r, marker, bol) == Cut(z, r)
    decreases |z|
  {
    if z == "" {
      assert z + r == r;
    } else {
      assert (z + r)[1..] == z[1..] + r;
      TakeSectionConcat(z[1..], r, marker, z[0] == '\n');
      if r != "" {
        PrefixOfLine(z, r, marker);
      } else {
        assert z + r == z;
      }
    }
  }

  lemma {:induction false} MarkerAcross(a: string, b: string, marker: string, bol: bool)
    requires marker != "" && '\n' !in marker
    ensures HasMarkerLine(a + ['\n'] + b, marker, bol)
      <==> HasMarkerLine(a, marker, bol) || HasMarkerLine(b, marker, true)
    decreases |a|
  {
    var s := a + ['\n'] + b;
    PrefixAcross(a, '\n', b, marker);
    if a == "" {
      assert s[1..] == b;
    } else {
      assert s[1..] == a[1..] + ['\n'] + b;
      MarkerAcross(a[1..], b, marker, a[0] == '\n');
    }
  }

  /** Where the zone has no marker line and does not itself start one, the body ends before its newline. */
  lemma {:induction false} TakeBodyConcat(z: string, r: string, marker: string)
    requires marker != "" && '\n' !in marker
    requires !HasMarkerLine(z, marker, false)
    requires r == "" || (marker <= r && EndsWithNewline(z))
    ensures TakeBody(z + r, marker)
      == if r == "" then Cut(z, "") else Cut(z[..|z| - 1], "\n" + r)
  {
    if z == "" {
      assert z + r == r;
    } else {
      ConsAppend(z, r);
      if |z| == 1 && r != "" {
        assert z + r == "\n" + r;
      } else {
        NoBodyEndAtStart(z, r, marker);
        TakeBodyConcat(z[1..], r, marker);
        if r == "" {
          assert z + r == z && z[1..] + r == z[1..];
        } else {
          assert z[..|z| - 1] == [z[0]] + z[1..][..|z| - 2];
        }
      }
    }
  }

  lemma NoBodyEndAtStart(z: string, r: string, marker: string)
    requires marker != "" && '\n' !in marker
    requires z != "" && !HasMarkerLine(z[1..], marker, z[0] == '\n')
    requires r == "" || (|z| > 1 && EndsWithNewline(z))
    ensures !("\n" + marker <= z + r)
  {
    var t := z[1..];
    assert (z + r)[1..] == t + r;
    ConsPrefix('\n', marker, z + r);
    if r == "" {
      assert t + r == t;
    } else {
      PrefixOfLine(t, r, marker);
    }
  }
}
