/** Where the heading searches end up on pages of any form, read piece by piece. */
module HeadingSearch {
  import opened Text
  import opened Patterns
  import opened CompiledTruth
  import opened PageShape
  import opened PageRecognition

  /** Blank lines stop at solid text. */
  lemma {:induction false} SkipBlankAcross(y: string, q: string)
    requires SkipBlank(y).Some? && (q == "" || !IsSpace(q[0]))
    ensures SkipBlank(y + q) == Some(SkipBlank(y).value + q)
  {
    ConsAppend(y, q);
    if SkipBlank(y[1..]).Some? {
      SkipBlankAcross(y[1..], q);
    } else {
      SkipBlankExtend(y[1..], q);
    }
  }

  /** No heading begins in `p` and runs into a section behind it. */
  lemma HeadingBefore(p: string, x: string, h: string, anchored: bool, bol: bool)
    requires HeadingLike(h) && p != "" && SECTION <= x
    ensures HeadingHere(p + x, h, anchored, bol) <==> HeadingHere(p, h, anchored, bol)
    ensures HeadingHere(p, h, anchored, bol) ==>
      SkipBlank((p + x)[|h|..]) == Some(SkipBlank(p[|h|..]).value + x)
  {
    hide SkipBlank, HeadingLike;
    NoStraddle(p, x, h);
    if h <= p {
      assert (p + x)[|h|..] == p[|h|..] + x;
      assert x[0] == SECTION[0] == '#';
      if SkipBlank(p[|h|..]).Some? {
        SkipBlankAcross(p[|h|..], x);
      } else {
        SkipBlankExtend(p[|h|..], x);
      }
    }
  }

  lemma NoStraddle(p: string, x: string, h: string)
    requires HeadingLike(h) && p != "" && SECTION <= x
    ensures h <= p + x <==> h <= p
  {
    var s := p + x;
    assert x[0] == SECTION[0] && x[1] == SECTION[1];
    assert s[|p|] == '#' && s[|p| + 1] == '#';
    assert p == s[..|p|];
  }

  predicate LineStartBehind(p: string, bol: bool) {
    if p == "" then bol else EndsWithNewline(p)
  }

  /** A search that comes to a section: it found a heading before, or finds what the section has. */
  lemma {:induction false} LocateSection(p: string, x: string, h: string, anchored: bool, bol: bool)
    requires HeadingLike(h) && SECTION <= x
    ensures Locate(p, h, anchored, bol).Some? ==>
      && Locate(p + x, h, anchored, bol).Some?
      && Locate(p + x, h, anchored, bol).value.after == Locate(p, h, anchored, bol).value.after + x
    ensures Locate(p, h, anchored, bol).None? ==>
      (Locate(p + x, h, anchored, bol).None? <==> Locate(x, h, anchored, LineStartBehind(p, bol)).None?)
    ensures Locate(p, h, anchored, bol).None? && Locate(p + x, h, anchored, bol).Some? ==>
      Locate(p + x, h, anchored, bol).value.after == Locate(x, h, anchored, LineStartBehind(p, bol)).value.after
    decreases |p|
  {
    hide SkipBlank, HeadingLike, HeadingHere;
    if p == "" {
      NothingLocated(h, anchored, bol);
      assert p + x == x;
    } else {
      HeadingBefore(p, x, h, anchored, bol);
      ConsAppend(p, x);
      LocateStart(p, h, anchored, bol);
      LocateStart(p + x, h, anchored, bol);
      if !HeadingHere(p, h, anchored, bol) {
        LocateSection(p[1..], x, h, anchored, p[0] == '\n');
      }
    }
  }

  lemma NothingLocated(h: string, anchored: bool, bol: bool)
    requires HeadingLike(h)
    ensures Locate("", h, anchored, bol).None?
  {
  }

  lemma LocateStart(s: string, h: string, anchored: bool, bol: bool)
    requires s != ""
    ensures HeadingHere(s, h, anchored, bol) ==>
      && Locate(s, h, anchored, bol).Some?
      && Locate(s, h, anchored, bol).value.after == SkipBlank(s[|h|..]).value
    ensures !HeadingHere(s, h, anchored, bol) ==>
      && (Locate(s, h, anchored, bol).None? <==> Locate(s[1..], h, anchored, s[0] == '\n').None?)
      && (Locate(s, h, anchored, bol).Some? ==>
          Locate(s, h, anchored, bol).value.after == Locate(s[1..], h, anchored, s[0] == '\n').value.after)
  {
    hide SkipBlank;
  }

  /** Where the unanchored search finds nothing, no search finds anything in a rest of the text. */
  lemma {:induction false} NoneBehind(a: string, r: string, h: string, bol: bool, anchored: bool, from: bool)
    requires Locate(a + r, h, false, bol).None?
    ensures Locate(r, h, anchored, from).None?
    decreases |a| + |r|
  {
    hide SkipBlank;
    if a != "" {
      ConsAppend(a, r);
      NoneBehind(a[1..], r, h, a[0] == '\n', anchored, from);
    } else {
      assert a + r == r;
      if r != "" {
        assert "" + r[1..] == r[1..];
        NoneBehind("", r[1..], h, r[0] == '\n', anchored, r[0] == '\n');
      }
    }
  }

  /** The anchored search passes over the rest of a line. */
  lemma {:induction false} RestOfLinePast(w: string, r: string, h: string)
    requires '\n' !in w
    ensures Locate(w + r, h, true, false).None? <==> Locate(r, h, true, false).None?
    ensures Locate(w + r, h, true, false).Some? ==>
      Locate(w + r, h, true, false).value.after == Locate(r, h, true, false).value.after
  {
    hide SkipBlank;
    if w == "" {
      assert w + r == r;
    } else {
      ConsAppend(w, r);
      LocateStart(w + r, h, true, false);
      RestOfLinePast(w[1..], r, h);
    }
  }

  /** Behind a heading that does not stand at the start of a line, the anchored search goes on after the blank line. */
  lemma HeadingInLine(h: string, k: string, r: string)
    requires HeadingLike(h) && HeadingLike(k)
    ensures var s := h + ("\n\n" + r);
      && (Locate(s, k, true, false).None? <==> Locate(r, k, true, true).None?)
      && (Locate(s, k, true, false).Some? ==>
          Locate(s, k, true, false).value.after == Locate(r, k, true, true).value.after)
  {
    hide SkipBlank;
    assert k[0] == SECTION[0] == '#';
    RestOfLinePast(h, "\n\n" + r, k);
    LocateStart("\n\n" + r, k, true, false);
    assert ("\n\n" + r)[1..] == "\n" + r;
    LocateStart("\n" + r, k, true, true);
    assert ("\n" + r)[1..] == r;
  }

  // ---- Pages whose frontmatter is plain ----

  /** The frontmatter is closed or absent. */
  predicate Fenced(content: string) {
    SplitFrontmatter(content).before == "" ==> !("---\n" <= content)
  }

  /** It mentions no zone heading either. */
  predicate PlainFront(content: string) {
    Fenced(content) && Lacks(SplitFrontmatter(content).before)
  }

  lemma FrontBreaks(content: string)
    ensures Breaks(SplitFrontmatter(content).before)
  {
    var front := SplitFrontmatter(content).before;
    if front != "" {
      AfterClosingEnds(content[4..]);
    }
  }

  lemma {:induction false} BeforeIsBehind(a: string, s: string, h: string)
    requires HeadingLike(h) && Count(a, h) == 0 && Breaks(a) && Contains(a + s, h)
    ensures |a| <= |Before(a + s, h)|
    decreases |a|
  {
    hide HeadingLike;
    if a != "" {
      assert a[|a| - 1] !in h by { NotInHeading(a, h); }
      PrefixOfLine(a, s, h);
      ConsAppend(a, s);
      if |a| > 1 {
        BeforeIsBehind(a[1..], s, h);
      }
    }
  }

  lemma NotInHeading(a: string, h: string)
    requires HeadingLike(h) && Breaks(a) && a != ""
    ensures a[|a| - 1] !in h
  {
  }

  /** The first mention of a heading stands at the start of a line, in the body. */
  predicate OwnLine(content: string, h: string)
    requires Contains(content, h)
  {
    Before(content, h) == SplitFrontmatter(content).before || EndsWithNewline(Before(content, h))
  }

  /** The first mention of a heading in the page divides its body. */
  lemma FirstMention(content: string, h: string) returns (lead: string, rest: string)
    requires PlainFront(content) && h in {TRUTH_HEADING, TIMELINE_HEADING} && Contains(content, h)
    ensures var front := SplitFrontmatter(content).before;
      && content == front + (lead + (h + rest))
      && Before(content, h) == front + lead && (OwnLine(content, h) <==> Ended(lead))
      && rest == Behind(content, h)
  {
    hide SplitFrontmatter, HeadingLike, Count, Contains, OwnLine, Before, Behind, Breaks;
    HeadingFacts();
    var cut := SplitFrontmatter(content);
    FrontBreaks(content);
    assert cut.before + cut.after == content;
    BeforeIsBehind(cut.before, cut.after, h);
    lead, rest := Divided(content, cut.before, h);
    OwnLineIs(content, h, lead);
  }

  lemma OwnLineIs(content: string, h: string, lead: string)
    requires Contains(content, h) && Before(content, h) == SplitFrontmatter(content).before + lead
    ensures OwnLine(content, h) <==> Ended(lead)
  {
    hide Contains, Before, SplitFrontmatter;
    var front := SplitFrontmatter(content).before;
    assert lead == "" <==> front + lead == front;
    assert lead != "" ==> (front + lead)[|front + lead| - 1] == lead[|lead| - 1];
  }

  lemma Divided(content: string, front: string, h: string) returns (lead: string, rest: string)
    requires Contains(content, h) && front <= content && |front| <= |Before(content, h)|
    ensures content == front + (lead + (h + rest))
    ensures Before(content, h) == front + lead
    ensures rest == Behind(content, h)
  {
    hide Contains, Before;
    var b := Before(content, h);
    var s := content[|b|..];
    lead, rest := b[|front|..], s[|h|..];
    assert content == b + s && s == h + rest;
    assert b == front + lead;
    Assoc(front, lead, s);
  }

  /** Whatever section follows `lead` instead, the frontmatter stays what it was. */
  lemma FrontStays(content: string, lead: string, x: string, y: string)
    requires Fenced(content)
    requires content == SplitFrontmatter(content).before + (lead + x)
    requires SECTION <= x && SECTION <= y
    ensures SplitFrontmatter(SplitFrontmatter(content).before + (lead + y))
      == Cut(SplitFrontmatter(content).before, lead + y)
  {
    hide SplitFrontmatter, Settled, Lacks;
    var front := SplitFrontmatter(content).before;
    BodyOf(content, lead + x);
    if front == "" {
      assert content == lead + x && "" + (lead + y) == lead + y;
      NoFenceBefore(lead, x, y);
    } else {
      assert x == SECTION + x[3..] && y == SECTION + y[3..];
      Assoc(lead, SECTION, x[3..]);
      Assoc(lead, SECTION, y[3..]);
      SettledStart(content, lead + SECTION, x[3..]);
      SplitSettled(front, lead + SECTION, y[3..]);
    }
  }

  lemma NoFenceBefore(lead: string, x: string, y: string)
    requires SECTION <= x && SECTION <= y && !("---\n" <= lead + x)
    ensures !("---\n" <= lead + y) && SplitFrontmatter(lead + y) == Cut("", lead + y)
  {
    if |lead| < 4 {
      assert (lead + y)[|lead|] == SECTION[0];
    } else {
      assert (lead + y)[..4] == lead[..4] == (lead + x)[..4];
    }
  }

  lemma BodyOf(content: string, body: string)
    requires content == SplitFrontmatter(content).before + body
    ensures StripFrontmatter(content) == body
  {
    hide AfterClosing;
    var cut := SplitFrontmatter(content);
    assert cut.before + cut.after == content;
    assert content[|cut.before|..] == body;
  }
}
