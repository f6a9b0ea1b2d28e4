/** Which part of a page is its frontmatter, and what is read of it (src/mimir/compiled_truth.py:92-109, 172-202). */
module Frontmatter {
  import opened Text
  import opened CompiledTruth

  const FENCE: string := "\n---"

  /** What follows the first closing fence, and the newline behind it. */
  function BehindFence(s: string, k: nat): string
    requires k + 4 <= |s|
  {
    if k + 4 < |s| && s[k + 4] == '\n' then s[k + 5..] else s[k + 4..]
  }

  /** The frontmatter ends at the first closing fence. */
  lemma {:induction false} AfterFirstFence(s: string)
    ensures AfterClosing(s).Some? <==> Contains(s, FENCE)
    ensures Contains(s, FENCE) ==>
      |Before(s, FENCE)| + 4 <= |s| && AfterClosing(s) == Some(BehindFence(s, |Before(s, FENCE)|))
  {
    if FENCE <= s {
      assert "\n---\n" <= s <==> 4 < |s| && s[4] == '\n';
    } else if s != "" {
      AfterFirstFence(s[1..]);
      if Contains(s[1..], FENCE) {
        var k := |Before(s[1..], FENCE)|;
        assert s[1..][k + 4..] == s[k + 5..];
        assert k + 5 <= |s[1..]| ==> s[1..][k + 5..] == s[k + 6..];
      }
    }
  }

  /**
   A page has frontmatter if and only if it starts with a fence line and another fence follows; it reaches
   to the first such fence and takes the newline behind it along.
   */
  lemma FrontmatterIsFirst(content: string)
    ensures var front := SplitFrontmatter(content).before;
      && (front != "" <==> "---\n" <= content && Contains(content[4..], FENCE))
      && (front != "" ==>
          var k := |Before(content[4..], FENCE)|;
          && k + 4 <= |content[4..]|
          && SplitFrontmatter(content).after == BehindFence(content[4..], k)
          && forall j | 0 <= j < k :: !(FENCE <= content[4..][j..]))
  {
    hide AfterClosing, Before, Contains;
    var cut := SplitFrontmatter(content);
    if "---\n" <= content {
      AfterFirstFence(content[4..]);
      if Contains(content[4..], FENCE) {
        BeforeIsFirst(content[4..], FENCE);
        assert cut.before + cut.after == content;
        assert cut.before != "";
      }
    }
  }

  lemma {:induction false} ClosedBehind(block: string, body: string)
    requires !Contains(block, FENCE)
    ensures AfterClosing(block + ("\n---\n" + body)) == Some(body)
  {
    var rest := "\n---\n" + body;
    var s := block + rest;
    if block == "" {
      assert s == rest && rest[5..] == body;
    } else {
      ConsAppend(block, rest);
      NotFencedYet(block, rest);
      ClosedBehind(block[1..], body);
    }
  }

  lemma NotFencedYet(block: string, rest: string)
    requires block != "" && !(FENCE <= block) && FENCE <= rest
    ensures !(FENCE <= block + rest)
  {
    var s := block + rest;
    if |block| < 4 {
      assert s[|block|] == '\n' && FENCE[|block|] == '-';
    } else {
      assert s[..4] == block[..4];
    }
  }

  /** A block between fences at the start of a page is what its fields are read of, whatever the page holds else. */
  lemma FrontmatterIsRead(block: string, body: string, yaml: string -> Meta)
    requires !Contains(block, FENCE)
    ensures var content := "---\n" + (block + ("\n---\n" + body));
      && ParseMeta(content, yaml) == yaml("---\n" + (block + "\n---\n"))
      && StripFrontmatter(content) == body
  {
    hide AfterClosing, Contains;
    var rest := block + ("\n---\n" + body);
    var content := "---\n" + rest;
    ClosedBehind(block, body);
    assert content[4..] == rest;
    Assoc(block, "\n---\n", body);
    Assoc("---\n", block + "\n---\n", body);
    assert content[..|content| - |body|] == "---\n" + (block + "\n---\n");
  }

  /** A page that does not start with a fence line has no field at all. */
  lemma NoFrontmatterNoFields(content: string, yaml: string -> Meta)
    requires !("---\n" <= content)
    ensures ParseMeta(content, yaml) == Meta(None, None, None, [], []) && StripFrontmatter(content) == content
  {
  }
}
