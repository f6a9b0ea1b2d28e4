/** How lists of key facts are read back from the text they were written into (src/mimir/learning.py:34-35, 70-76). */
module FactLists {
  import opened Text
  import opened PageShape
  import opened Evidence
  import opened EntityPages

  lemma {:induction false} BulletsOfBlank(w: string)
    requires Blank(w)
    ensures Bullets(w) == []
    decreases |w|
  {
    BlankLStrip(w);
    if w != "" {
      NewlineParts(w);
      BulletsOfBlank(AfterNewline(w));
    }
  }

  lemma {:induction false} BlankLStrip(w: string)
    ensures Blank(w) <==> LStrip(w) == ""
    ensures LStrip(w) != "" ==> !IsSpace(LStrip(w)[0])
    ensures LStrip(w) == w[|w| - |LStrip(w)|..]
  {
    if w != "" && IsSpace(w[0]) { BlankLStrip(w[1..]); }
  }

  lemma BlankStep(a: string)
    requires a != ""
    ensures Blank(a) <==> IsSpace(a[0]) && Blank(a[1..])
  {
    hide IsSpace;
    assert forall i | 0 < i < |a| :: a[i] == a[1..][i - 1];
  }

  lemma LStripStep(a: string)
    ensures LStrip(a) == if a != "" && IsSpace(a[0]) then LStrip(a[1..]) else a
  {
    hide IsSpace;
  }

  lemma {:induction false} LStripAppend(a: string, b: string)
    ensures LStrip(a + b) == if Blank(a) then LStrip(b) else LStrip(a) + b
  {
    hide IsSpace, LStrip, Blank;
    if a == "" {
      EmptyIsBlank();
      assert a + b == b;
    } else {
      ConsAppend(a, b);
      BlankStep(a);
      LStripStep(a);
      LStripStep(a + b);
      if IsSpace(a[0]) { LStripAppend(a[1..], b); }
    }
  }

  lemma {:induction false} UpToAppend(a: string, b: string)
    ensures '\n' in a ==> UpToNewline(a + b) == UpToNewline(a) && AfterNewline(a + b) == AfterNewline(a) + b
    ensures '\n' !in a ==> UpToNewline(a + b) == a + UpToNewline(b) && AfterNewline(a + b) == AfterNewline(b)
    ensures '\n' !in a ==> UpToNewline(a) == a && AfterNewline(a) == ""
  {
    if a == "" {
      assert a + b == b;
    } else {
      ConsAppend(a, b);
      if a[0] != '\n' { UpToAppend(a[1..], b); }
    }
  }

  lemma SameBullet(s: string, t: string)
    requires LStrip(s) == LStrip(t)
    ensures StartsBullet(s) <==> StartsBullet(t)
    ensures StartsBullet(s) ==> BulletText(s) == BulletText(t)
  {
    hide LStrip;
  }

  /** Blank lines in front of a list change nothing. */
  lemma {:induction false} BulletsAfterBlank(w: string, b: string)
    requires Blank(w) && Ended(w)
    ensures Bullets(w + b) == Bullets(b)
    decreases |w|
  {
    hide LStrip, StartsBullet, BulletText, RStrip;
    LStripAppend(w, b);
    SameBullet(w + b, b);
    if w == "" {
      assert w + b == b;
    } else if !StartsBullet(b) {
      UpToAppend(w, b);
      NewlineParts(w);
      BulletsAfterBlank(AfterNewline(w), b);
    }
  }

  // ---- Items without a text ----

  /** The text is a dash and white space around it. */
  predicate BareDash(s: string) {
    LStrip(s) != "" && LStrip(s)[0] == '-' && Blank(LStrip(s)[1..])
  }

  /** The list ends in an item that has no text yet, so that a later line becomes its text. */
  predicate Dangling(s: string)
    decreases |s|
  {
    if StartsBullet(s) then Dangling(AfterNewline(BulletText(s)))
    else BareDash(s) || (s != "" && Dangling(AfterNewline(s)))
  }

  lemma BulletsStep(s: string)
    ensures StartsBullet(s) ==>
      && Bullets(s) == [RStrip(UpToNewline(BulletText(s)))] + Bullets(AfterNewline(BulletText(s)))
      && (Dangling(s) <==> Dangling(AfterNewline(BulletText(s))))
    ensures !StartsBullet(s) && s != "" ==> Bullets(s) == Bullets(AfterNewline(s))
    ensures !StartsBullet(s) && s != "" ==> (Dangling(s) <==> BareDash(s) || Dangling(AfterNewline(s)))
  {
    hide StartsBullet, BulletText, RStrip, UpToNewline, AfterNewline, BareDash;
  }

  /** When an item starts, in terms of the text from its first solid character on. */
  lemma StartIs(s: string)
    ensures var t := LStrip(s);
      && (StartsBullet(s) <==> |t| > 1 && t[0] == '-' && IsSpace(t[1]) && !Blank(t[1..]))
      && (StartsBullet(s) ==> BulletText(s) == LStrip(t[1..]))
      && (BareDash(s) <==> t != "" && t[0] == '-' && Blank(t[1..]))
  {
    hide LStrip, IsSpace;
    var t := LStrip(s);
    if t != "" { BlankLStrip(t[1..]); }
  }

  lemma BlankJoin(a: string, b: string)
    ensures Blank(a + b) <==> Blank(a) && Blank(b)
  {
    assert forall i | 0 <= i < |a| :: (a + b)[i] == a[i];
    assert forall i | 0 <= i < |b| :: (a + b)[|a| + i] == b[i];
  }

  lemma BareDashParts(s: string) returns (lead: string, w: string)
    requires BareDash(s)
    ensures s == lead + ("-" + w) && Blank(lead) && Blank(w) && !StartsBullet(s)
  {
    hide LStrip, IsSpace, StartsBullet, BulletText, BareDash, Blank;
    StartIs(s);
    var t := LStrip(s);
    BlankLStrip(s);
    LStripLead(s);
    lead, w := s[..|s| - |t|], t[1..];
    assert t == "-" + w;
  }

  lemma {:induction false} LStripLead(s: string)
    ensures Blank(s[..|s| - |LStrip(s)|])
  {
    if s != "" && IsSpace(s[0]) {
      LStripLead(s[1..]);
      hide IsSpace;
      var k := |s| - |LStrip(s)|;
      BlankCons(s, k);
    }
  }

  lemma BlankCons(s: string, k: nat)
    requires 0 < k <= |s| && IsSpace(s[0]) && Blank(s[1..][..k - 1])
    ensures Blank(s[..k])
  {
    hide IsSpace;
    assert s[..k] == [s[0]] + s[1..][..k - 1];
  }

  /** A bare dash is no item by itself. */
  lemma {:induction false} BareDashHasNoItem(s: string)
    requires BareDash(s)
    ensures Bullets(s) == []
    decreases |s|
  {
    hide Bullets, LStrip, UpToNewline, AfterNewline, BareDash, StartsBullet, BulletText;
    var lead, w := BareDashParts(s);
    BulletsStep(s);
    UpToAppend(lead, "-" + w);
    UpToAppend("-", w);
    if '\n' in lead {
      AfterNewlineStart(lead);
      DashBehindBlank(AfterNewline(lead), w);
      BareDashHasNoItem(AfterNewline(s));
    } else {
      AfterNewlineStart(w);
      BulletsOfBlank(AfterNewline(s));
    }
  }

  lemma DashBehindBlank(lead: string, w: string)
    requires Blank(lead) && Blank(w)
    ensures BareDash(lead + ("-" + w))
  {
    LStripAppend(lead, "-" + w);
    assert ("-" + w)[1..] == w;
  }

  lemma {:induction false} AfterNewlineStart(s: string)
    ensures |AfterNewline(s)| <= |s| && AfterNewline(s) == s[|s| - |AfterNewline(s)|..]
    ensures Blank(s) ==> Blank(AfterNewline(s))
    ensures s != "" && '\n' !in s[|s| - 1..] && '\n' in s ==>
      AfterNewline(s) != "" && AfterNewline(s)[|AfterNewline(s)| - 1] == s[|s| - 1]
  {
    if s != "" && s[0] != '\n' { AfterNewlineStart(s[1..]); }
  }

  /** What follows a bare dash on the next lines becomes its text. */
  lemma AfterBareDash(a: string, b: string)
    requires BareDash(a)
    ensures Bullets(a + ("\n" + b)) == Bullets("-\n" + b)
  {
    hide Bullets, LStrip, UpToNewline, AfterNewline, BareDash, RStrip, BulletText, StartsBullet, Blank, Dangling;
    var lead, w := BareDashParts(a);
    BulletsStep(DashedText(lead, w, b));
    BulletsStep(DashedText("", "", b));
    EmptyIsBlank();
    DashText("", "", b);
    DashText(lead, w, b);
    DashedParts(lead, w, b);
    DashedDash(b);
    if Blank(b) {
      DashedBlank(lead, w, b);
      DashedBlank("", "", b);
    }
  }

  function DashedText(lead: string, w: string, b: string): string {
    lead + ("-" + (w + ("\n" + b)))
  }

  lemma DashedParts(lead: string, w: string, b: string)
    ensures DashedText(lead, w, b) == (lead + ("-" + w)) + ("\n" + b)
  {
    Assoc(lead, "-" + w, "\n" + b);
    Assoc("-", w, "\n" + b);
  }

  lemma DashedBlank(lead: string, w: string, b: string)
    requires Blank(lead) && Blank(w) && Blank(b)
    ensures Bullets(DashedText(lead, w, b)) == []
  {
    hide Bullets;
    DashBehindBlank(lead, w + ("\n" + b));
    BareDashHasNoItem(DashedText(lead, w, b));
  }

  lemma EmptyIsBlank()
    ensures Blank("")
  {
  }

  lemma DashText(lead: string, w: string, b: string)
    requires Blank(lead) && Blank(w)
    ensures var s := DashedText(lead, w, b);
      && (StartsBullet(s) <==> !Blank(b))
      && (!Blank(b) ==> BulletText(s) == LStrip(b))
  {
    hide LStrip, StartsBullet, BulletText, Blank, IsSpace, BareDash;
    var t, g := "-" + (w + ("\n" + b)), w + "\n";
    DashGap(w, b);
    StartIs(DashedText(lead, w, b));
    LStripAppend(lead, t);
    SolidLStrip(t);
    BlankJoin(g, b);
    LStripAppend(g, b);
  }

  lemma DashGap(w: string, b: string)
    requires Blank(w)
    ensures var t, g := "-" + (w + ("\n" + b)), w + "\n";
      && Blank(g) && t[0] == '-' && !IsSpace(t[0]) && !Blank(t) && t[1..] == g + b && IsSpace(t[1])
  {
    hide IsSpace;
    var t, g := "-" + (w + ("\n" + b)), w + "\n";
    DashThenSpace();
    NewlineIsSpace();
    BlankThenSpace(w);
    Assoc(w, "\n", b);
    assert t[1..] == g + b;
    assert (g + b)[0] == g[0];
    assert t[1] == t[1..][0];
    assert t[0] == '-';
  }

  lemma BlankThenSpace(w: string)
    requires Blank(w)
    ensures Blank(w + "\n") && IsSpace((w + "\n")[0])
  {
  }

  lemma SolidLStrip(t: string)
    requires t != "" && !IsSpace(t[0])
    ensures LStrip(t) == t
  {
  }

  // ---- Lists one after the other ----

  lemma ListAssoc(x: string, a: seq<string>, b: seq<string>)
    ensures [x] + a + b == [x] + (a + b)
  {
  }

  /** Two lists on consecutive lines are read one after the other; an unfinished last item takes the next line. */
  lemma {:induction false} BulletsJoin(a: string, b: string)
    ensures Bullets(a + ("\n" + b)) == Bullets(a) + Bullets(if Dangling(a) then "-\n" + b else b)
    decreases |a|
  {
    hide LStrip, RStrip, UpToNewline, AfterNewline, Strip, Bullets, StartsBullet, BulletText, BareDash, Dangling;
    var s := a + ("\n" + b);
    BulletsStep(a);
    BulletsStep(s);
    if Blank(a) {
      BulletsOfBlank(a);
      BlankIsNotDangling(a);
      BulletsAfterBlank(a + "\n", b);
      Assoc(a, "\n", b);
    } else if StartsBullet(a) {
      BulletRest(a, b);
      var u := BulletText(a);
      RestOfLine(u, b);
      if '\n' in u {
        BulletsJoin(AfterNewline(u), b);
        ListAssoc(RStrip(UpToNewline(u)), Bullets(AfterNewline(u)), Bullets(if Dangling(a) then "-\n" + b else b));
      } else {
        BulletsOfBlank("");
        BlankIsNotDangling("");
      }
    } else if BareDash(a) {
      BareDashHasNoItem(a);
      AfterBareDash(a, b);
    } else {
      NoBulletStart(a, b);
      RestOfLine(a, b);
      if '\n' in a {
        BulletsJoin(AfterNewline(a), b);
      } else {
        BulletsOfBlank("");
        BlankIsNotDangling("");
      }
    }
  }

  lemma {:induction false} BlankIsNotDangling(w: string)
    requires Blank(w)
    ensures !Dangling(w)
    decreases |w|
  {
    hide LStrip, AfterNewline;
    BlankLStrip(w);
    if w != "" {
      AfterNewlineStart(w);
      NewlineParts(w);
      BlankIsNotDangling(AfterNewline(w));
    }
  }

  lemma RestOfLine(u: string, b: string)
    ensures UpToNewline(u + ("\n" + b)) == UpToNewline(u)
    ensures AfterNewline(u + ("\n" + b)) == if '\n' in u then AfterNewline(u) + ("\n" + b) else b
    ensures '\n' !in u ==> AfterNewline(u) == ""
  {
    UpToAppend(u, "\n" + b);
    assert ("\n" + b)[1..] == b;
  }

  /** An item that has a text keeps it, whatever comes behind. */
  lemma BulletRest(a: string, b: string)
    requires StartsBullet(a)
    ensures StartsBullet(a + ("\n" + b)) && BulletText(a + ("\n" + b)) == BulletText(a) + ("\n" + b)
  {
    BulletExtends(a, "\n" + b);
  }

  lemma BulletExtends(a: string, x: string)
    requires StartsBullet(a)
    ensures StartsBullet(a + x) && BulletText(a + x) == BulletText(a) + x
  {
    var t := LStrip(a);
    LStripAppend(a, x);
    BlankLStrip(a);
    BlankLStrip(t[1..]);
    ConsAppend(t, x);
    LStripAppend(t[1..], x);
  }

  lemma NoBulletStart(a: string, b: string)
    requires !Blank(a) && !StartsBullet(a) && !BareDash(a)
    ensures !StartsBullet(a + ("\n" + b))
  {
    var t := LStrip(a);
    LStripAppend(a, "\n" + b);
    BlankLStrip(a);
    if t[0] == '-' {
      BlankLStrip(t[1..]);
      assert t[1] == (t + ("\n" + b))[1];
    }
  }

  // ---- Trailing white space ----

  /** White space at the end of a list changes nothing. */
  lemma {:induction false} BulletsTrail(r: string, w: string)
    requires Blank(w) && (r != "" ==> !IsSpace(r[|r| - 1]))
    ensures Bullets(r + w) == Bullets(r)
    decreases |r|
  {
    hide LStrip, RStrip, UpToNewline, AfterNewline, Bullets, StartsBullet, BulletText;
    var s := r + w;
    BulletsStep(r);
    BulletsStep(s);
    if r == "" {
      assert s == w;
      BulletsOfBlank(w);
      BulletsOfBlank(r);
    } else if StartsBullet(r) {
      BulletExtends(r, w);
      BulletTextSuffix(r);
      TrailStep(BulletText(r), w);
    } else {
      NoBulletTrail(r, w);
      TrailStep(r, w);
    }
  }

  /** The line after which the trailing white space comes, and the lines behind the first one. */
  lemma {:induction false} TrailStep(u: string, w: string)
    requires Blank(w) && u != "" && !IsSpace(u[|u| - 1])
    ensures RStrip(UpToNewline(u + w)) == RStrip(UpToNewline(u))
    ensures Bullets(AfterNewline(u + w)) == Bullets(AfterNewline(u))
    decreases |u|, 0
  {
    hide LStrip, RStrip, UpToNewline, AfterNewline, Bullets, IsSpace;
    UpToAppend(u, w);
    AfterNewlineStart(u);
    assert !('\n' in u[|u| - 1..]) by { assert IsSpace('\n') by { NewlineIsSpace(); } }
    if '\n' in u {
      NewlineParts(u);
      BulletsTrail(AfterNewline(u), w);
    } else {
      AfterNewlineStart(w);
      NewlineParts(w);
      UpToBlank(w);
      RStripAppendBlank(u, UpToNewline(w));
      BulletsOfBlank(AfterNewline(w));
      BulletsOfBlank("");
    }
  }

  lemma NewlineIsSpace()
    ensures IsSpace('\n')
  {
  }

  lemma UpToBlank(w: string)
    requires Blank(w)
    ensures Blank(UpToNewline(w))
  {
    hide UpToNewline;
    assert UpToNewline(w) <= w;
  }

  lemma BulletTextSuffix(a: string)
    requires StartsBullet(a)
    ensures |BulletText(a)| < |a| && BulletText(a) == a[|a| - |BulletText(a)|..]
  {
    hide LStrip;
    BlankLStrip(a);
    BlankLStrip(LStrip(a)[1..]);
  }

  lemma NoBulletTrail(r: string, w: string)
    requires Blank(w) && r != "" && !IsSpace(r[|r| - 1]) && !StartsBullet(r)
    ensures !StartsBullet(r + w)
  {
    SolidEndNotBlank(r);
    hide LStrip, StartsBullet, BulletText, Blank, IsSpace, BareDash;
    var t := LStrip(r);
    BlankLStrip(r);
    LStripAppend(r, w);
    StartIs(r);
    StartIs(r + w);
    ConsAppend(t, w);
    BlankJoin(t[1..], w);
    if |t| > 1 {
      assert (t + w)[1] == t[1];
    } else {
      EmptyIsBlank();
      assert t[1..] == "";
    }
  }

  lemma SolidEndNotBlank(r: string)
    requires r != "" && !IsSpace(r[|r| - 1])
    ensures !Blank(r)
  {
  }

  lemma BulletsTrimmed(s: string)
    ensures Bullets(RStrip(s)) == Bullets(s)
  {
    hide Bullets, RStrip;
    var r := RStrip(s);
    assert r + s[|r|..] == s;
    BulletsTrail(r, s[|r|..]);
  }

  // ---- Written facts ----

  lemma NoNewline(f: string)
    requires OneLine(f)
    ensures '\n' !in f
  {
    assert IsLineBreak('\n');
  }

  /** What is read of facts that were written one a line: a blank one takes the next line as its text. */
  function ReadFacts(facts: seq<string>): seq<string> {
    if facts == [] then []
    else if !Blank(facts[0]) then [Strip(facts[0])] + ReadFacts(facts[1..])
    else if |facts| == 1 then []
    else [RStrip("- " + facts[1])] + ReadFacts(facts[2..])
  }

  lemma OneItem(f: string)
    requires !Blank(f) && '\n' !in f
    ensures Bullets("- " + f) == [Strip(f)] && !Dangling("- " + f)
  {
    hide RStrip, LStrip, UpToNewline, AfterNewline, Bullets, Dangling, StartsBullet, BulletText, Blank, BareDash,
      IsSpace;
    ItemText(f);
    BulletsStep("- " + f);
    BlankLStrip(f);
    SuffixHasNot(f, |f| - |LStrip(f)|);
    RestOfLine(LStrip(f), "");
    NoMoreLines(LStrip(f));
    EmptyIsBlank();
    BulletsOfBlank("");
    BlankIsNotDangling("");
  }

  lemma SuffixHasNot(f: string, k: nat)
    requires k <= |f| && '\n' !in f
    ensures '\n' !in f[k..]
  {
  }

  lemma NoMoreLines(u: string)
    requires '\n' !in u
    ensures UpToNewline(u) == u && AfterNewline(u) == ""
  {
    hide UpToNewline, AfterNewline;
    UpToAppend(u, "");
  }

  lemma ItemText(f: string)
    ensures Blank(f) ==> BareDash("- " + f)
    ensures !Blank(f) ==> StartsBullet("- " + f) && BulletText("- " + f) == LStrip(f)
  {
    hide LStrip, IsSpace, Blank, StartsBullet, BulletText, BareDash;
    var s := "- " + f;
    DashThenSpace();
    StartIs(s);
    SolidLStrip(s);
    assert s[1] == ' ' && s[1..] == " " + f;
    BlankJoin(" ", f);
    LStripAppend(" ", f);
  }

  lemma DashThenSpace()
    ensures !IsSpace('-') && IsSpace(' ') && Blank(" ")
  {
  }

  lemma NoItem(f: string)
    requires Blank(f)
    ensures BareDash("- " + f) && Bullets("- " + f) == [] && Dangling("- " + f)
  {
    hide Bullets, BareDash, StartsBullet, BulletText, LStrip, Blank, IsSpace;
    ItemText(f);
    BareDashHasNoItem("- " + f);
    var lead, w := BareDashParts("- " + f);
  }

  /** A line is an item exactly if it starts with a dash, white space follows that, and then some text, its text. */
  lemma ListLine(l: string)
    requires '\n' !in l
    ensures var t := LStrip(l);
      Bullets(l) == if |t| > 1 && t[0] == '-' && IsSpace(t[1]) && !Blank(t[1..]) then [Strip(t[1..])] else []
  {
    var t := LStrip(l);
    if |t| > 1 { BlankLStrip(t[1..]); }
    LineStart(l);
    hide LStrip, RStrip, UpToNewline, AfterNewline, Bullets, Dangling, BulletText, Blank, BareDash, IsSpace;
    BulletsStep(l);
    EmptyIsBlank();
    BulletsOfBlank("");
    NoMoreLines(l);
    if StartsBullet(l) {
      SuffixHasNot(l, |l| - |t|);
      SuffixHasNot(t, 1);
      SuffixHasNot(t[1..], |t[1..]| - |LStrip(t[1..])|);
      NoMoreLines(LStrip(t[1..]));
    } else if l == "" {
      BulletsOfBlank(l);
    }
  }

  lemma LineStart(l: string)
    ensures var t := LStrip(l); StartsBullet(l) <==> |t| > 1 && t[0] == '-' && IsSpace(t[1]) && LStrip(t[1..]) != ""
    ensures StartsBullet(l) ==> BulletText(l) == LStrip(LStrip(l)[1..])
    ensures LStrip(l) == l[|l| - |LStrip(l)|..]
  {
    hide LStrip, IsSpace;
  }

  /** A line behind a bare dash is the dash's text. */
  lemma DashTakesLine(b: string)
    requires b != "" && !IsSpace(b[0])
    ensures Bullets("-\n" + b) == [RStrip(UpToNewline(b))] + Bullets(AfterNewline(b))
  {
    hide Bullets, RStrip, UpToNewline, AfterNewline, LStrip, StartsBullet, BulletText, Blank, BareDash, Dangling,
      IsSpace;
    EmptyIsBlank();
    SolidNotBlank(b);
    DashText("", "", b);
    DashedDash(b);
    SolidLStrip(b);
    BulletsStep("-\n" + b);
  }

  lemma DashedDash(b: string)
    ensures DashedText("", "", b) == "-\n" + b
  {
    DashedParts("", "", b);
    assert "" + ("-" + "") == "-";
    Assoc("-", "\n", b);
    assert "-" + "\n" == "-\n";
  }

  lemma SolidNotBlank(b: string)
    requires b != "" && !IsSpace(b[0])
    ensures !Blank(b)
  {
  }

  lemma FactLinesStep(facts: seq<string>)
    requires facts != []
    ensures FactLines(facts)
      == if |facts| == 1 then "- " + facts[0] else "- " + facts[0] + ("\n" + FactLines(facts[1..]))
    ensures |FactLines(facts)| > 1 && FactLines(facts)[0] == '-'
  {
    if |facts| > 1 {
      assert ['\n'] == "\n";
      Assoc("- " + facts[0], ['\n'], FactLines(facts[1..]));
    }
  }

  /** The first line of written facts, and the lines behind it. */
  lemma FactLinesCut(facts: seq<string>)
    requires facts != [] && '\n' !in facts[0]
    ensures UpToNewline(FactLines(facts)) == "- " + facts[0] && AfterNewline(FactLines(facts)) == FactLines(facts[1..])
  {
    hide UpToNewline, AfterNewline, FactLines;
    var a := "- " + facts[0];
    FactLinesStep(facts);
    if |facts| > 1 {
      RestOfLine(a, FactLines(facts[1..]));
    }
    UpToAppend(a, "");
    assert a + "" == a;
    if |facts| == 1 {
      NoFactLines(facts[1..]);
    }
  }

  lemma NoFactLines(facts: seq<string>)
    requires facts == []
    ensures FactLines(facts) == ""
  {
  }

  /** Facts are read back as they were written, trimmed; only blank ones disturb the next. */
  lemma {:induction false} FactsReadBack(facts: seq<string>)
    requires forall f | f in facts :: '\n' !in f
    ensures Bullets(FactLines(facts)) == ReadFacts(facts)
    decreases |facts|
  {
    hide Bullets, Dangling, FactLines, RStrip, Strip, UpToNewline, AfterNewline, Blank;
    if facts == [] {
      NoFactLines(facts);
      BulletsOfBlank("") by { EmptyIsBlank(); }
    } else {
      var a, b := "- " + facts[0], FactLines(facts[1..]);
      FactLinesStep(facts);
      if !Blank(facts[0]) {
        OneItem(facts[0]);
        FactsReadBack(facts[1..]);
        BulletsJoin(a, b);
      } else {
        NoItem(facts[0]);
        if |facts| > 1 {
          BulletsJoin(a, b);
          FactLinesStep(facts[1..]);
          DashTakesLine(b);
          FactLinesCut(facts[1..]);
          assert facts[1..][1..] == facts[2..] && facts[1..][0] == facts[1];
          FactsReadBack(facts[2..]);
        }
      }
    }
  }

  /** Trimmed facts are read back unchanged. */
  lemma {:induction false} TrimmedFacts(facts: seq<string>)
    requires forall f | f in facts :: f != "" && !IsSpace(f[0]) && !IsSpace(f[|f| - 1])
    ensures ReadFacts(facts) == facts
  {
    hide RStrip;
    if facts != [] {
      var f := facts[0];
      SolidLStrip(f);
      RStripUnique(f, f);
      TrimmedFacts(facts[1..]);
      assert facts == [f] + facts[1..];
    }
  }
}
