/** Label rendering of the metrics registry (src/bifrost/metrics.py:117-155). */
module Labels {
  import opened Text

  // ---- Escaping ----

  /** `s.replace(c, t)` for a single character. */
  function ReplaceAll(s: string, c: char, t: string): string {
    if s == "" then "" else (if s[0] == c then t else [s[0]]) + ReplaceAll(s[1..], c, t)
  }

  function Escape(s: string): string {
    ReplaceAll(ReplaceAll(ReplaceAll(s, '\\', "\\\\"), '"', "\\\""), '\n', "\\n")
  }

  function EscapeChar(c: char): string {
    if c == '\\' then "\\\\" else if c == '"' then "\\\"" else if c == '\n' then "\\n" else [c]
  }

  /** The escape of the text exposition format, in one pass. */
  function EscapeOnce(s: string): string {
    if s == "" then "" else EscapeChar(s[0]) + EscapeOnce(s[1..])
  }

  lemma {:induction false} ReplaceAllConcat(a: string, b: string, c: char, t: string)
    ensures ReplaceAll(a + b, c, t) == ReplaceAll(a, c, t) + ReplaceAll(b, c, t)
  {
    if a == "" {
      assert a + b == b;
    } else {
      ConsAppend(a, b);
      ReplaceAllConcat(a[1..], b, c, t);
      Assoc(if a[0] == c then t else [a[0]], ReplaceAll(a[1..], c, t), ReplaceAll(b, c, t));
    }
  }

  lemma {:induction false} ReplaceAbsent(s: string, c: char, t: string)
    requires c !in s
    ensures ReplaceAll(s, c, t) == s
  {
    if s != "" { ReplaceAbsent(s[1..], c, t); }
  }

  lemma ReplaceSingle(c: char, t: string)
    ensures ReplaceAll([c], c, t) == t
  {
    assert [c][1..] == "";
    assert t + "" == t;
  }

  lemma EscapedChar(c: char)
    ensures ReplaceAll(ReplaceAll(if c == '\\' then "\\\\" else [c], '"', "\\\""), '\n', "\\n") == EscapeChar(c)
  {
    hide ReplaceAll;
    if c == '"' {
      ReplaceSingle('"', "\\\"");
      ReplaceAbsent("\\\"", '\n', "\\n");
    } else {
      var s := if c == '\\' then "\\\\" else [c];
      ReplaceAbsent(s, '"', "\\\"");
      if c == '\n' {
        ReplaceSingle('\n', "\\n");
      } else {
        ReplaceAbsent(s, '\n', "\\n");
      }
    }
  }

  /** Three successive replacements are the single pass. */
  lemma {:induction false} EscapeIsOnePass(s: string)
    ensures Escape(s) == EscapeOnce(s)
  {
    if s != "" {
      var first := if s[0] == '\\' then "\\\\" else [s[0]];
      var rest := ReplaceAll(s[1..], '\\', "\\\\");
      ReplaceAllConcat(first, rest, '"', "\\\"");
      ReplaceAllConcat(ReplaceAll(first, '"', "\\\""), ReplaceAll(rest, '"', "\\\""), '\n', "\\n");
      EscapedChar(s[0]);
      EscapeIsOnePass(s[1..]);
    }
  }

  // ---- Reading back ----

  function Unescaped(c: char): char {
    if c == 'n' then '\n' else c
  }

  /** A quoted value read up to its closing quote: the value, and what follows the quote. */
  function ReadValue(s: string): Option<(string, string)>
    decreases |s|
  {
    if s == "" then None
    else if s[0] == '"' then Some(("", s[1..]))
    else if s[0] == '\\' then
      if |s| < 2 then None
      else match ReadValue(s[2..])
        case None => None
        case Some((v, rest)) => Some(([Unescaped(s[1])] + v, rest))
    else match ReadValue(s[1..])
      case None => None
      case Some((v, rest)) => Some(([s[0]] + v, rest))
  }

  /** Whatever follows, the closing quote is found where the renderer wrote it, and the value comes back. */
  lemma {:induction false} ReadEscaped(v: string, rest: string)
    ensures ReadValue(EscapeOnce(v) + "\"" + rest) == Some((v, rest))
  {
    if v == "" {
      assert EscapeOnce(v) + "\"" + rest == "\"" + rest;
    } else {
      var e, tail := EscapeChar(v[0]), EscapeOnce(v[1..]) + "\"" + rest;
      ReadEscaped(v[1..], rest);
      Assoc(e, EscapeOnce(v[1..]), "\"");
      Assoc(e, EscapeOnce(v[1..]) + "\"", rest);
      var s := e + tail;
      assert s == EscapeOnce(v) + "\"" + rest;
      assert s[|e|..] == tail;
      assert v == [v[0]] + v[1..];
    }
  }

  /** No newline survives escaping, and every quote in the result follows an escaping backslash. */
  lemma {:induction false} EscapedIsInert(v: string)
    ensures '\n' !in EscapeOnce(v)
    ensures forall i | 0 <= i < |EscapeOnce(v)| && EscapeOnce(v)[i] == '"' :: i > 0 && EscapeOnce(v)[i - 1] == '\\'
  {
    if v != "" {
      EscapedIsInert(v[1..]);
      var e, t, s := EscapeChar(v[0]), EscapeOnce(v[1..]), EscapeOnce(v);
      forall i | 0 <= i < |s| && s[i] == '"' ensures i > 0 && s[i - 1] == '\\' {
        if i >= |e| {
          assert t[i - |e|] == '"';
          assert t[i - |e| - 1] == s[i - 1];
        }
      }
    }
  }

  // ---- Label strings ----

  function Pair(n: string, v: string): string {
    n + "=\"" + Escape(v) + "\""
  }

  function Pairs(names: seq<string>, values: seq<string>): string
    requires |names| == |values|
  {
    if names == [] then ""
    else if |names| == 1 then Pair(names[0], values[0])
    else Pair(names[0], values[0]) + "," + Pairs(names[1..], values[1..])
  }

  /** `None` is the error that `zip(strict=True)` raises on tuples of different lengths. */
  function LabelStr(names: seq<string>, values: seq<string>): Option<string> {
    if names == [] then Some("")
    else if |names| != |values| then None
    else Some("{" + Pairs(names, values) + "}")
  }

  /** The values of a rendered label list, given its label names. */
  function ReadPairs(names: seq<string>, s: string): Option<seq<string>>
    requires names != []
  {
    var open := names[0] + "=\"";
    if !(open <= s) then None
    else match ReadValue(s[|open|..])
      case None => None
      case Some((v, rest)) =>
        if |names| == 1 then (if rest == "}" then Some([v]) else None)
        else if !("," <= rest) then None
        else match ReadPairs(names[1..], rest[1..])
          case None => None
          case Some(vs) => Some([v] + vs)
  }

  function ReadLabels(names: seq<string>, s: string): Option<seq<string>> {
    if names == [] then (if s == "" then Some([]) else None)
    else if "{" <= s then ReadPairs(names, s[1..])
    else None
  }

  lemma ReadPair(n: string, v: string, rest: string)
    ensures n + "=\"" <= Pair(n, v) + rest
    ensures ReadValue((Pair(n, v) + rest)[|n + "=\""|..]) == Some((v, rest))
  {
    var open := n + "=\"";
    EscapeIsOnePass(v);
    ReadEscaped(v, rest);
    Assoc(open, EscapeOnce(v), "\"");
    Assoc(open, EscapeOnce(v) + "\"", rest);
    assert (Pair(n, v) + rest)[|open|..] == EscapeOnce(v) + "\"" + rest;
  }

  lemma {:induction false} ReadPairsBack(names: seq<string>, values: seq<string>)
    requires |names| == |values| && names != []
    ensures ReadPairs(names, Pairs(names, values) + "}") == Some(values)
    decreases |names|
  {
    hide ReadValue, Pair;
    var p := Pair(names[0], values[0]);
    if |names| == 1 {
      ReadPair(names[0], values[0], "}");
      assert values == [values[0]];
    } else {
      var more := Pairs(names[1..], values[1..]);
      ReadPairsBack(names[1..], values[1..]);
      var rest := "," + more + "}";
      Assoc(p, ",", more);
      Assoc(p, "," + more, "}");
      ReadPair(names[0], values[0], rest);
      assert rest[1..] == more + "}";
      assert values == [values[0]] + values[1..];
    }
  }

  /** A rendered label string determines the values that it was rendered from. */
  lemma LabelsReadBack(names: seq<string>, values: seq<string>)
    requires |names| == |values|
    ensures LabelStr(names, values).Some?
    ensures ReadLabels(names, LabelStr(names, values).value) == Some(values)
  {
    hide ReadPairs, Pairs;
    if names != [] {
      ReadPairsBack(names, values);
      var s := "{" + Pairs(names, values) + "}";
      assert s[1..] == Pairs(names, values) + "}";
    }
  }

  /** Only a wrong number of values for some names is an error. */
  lemma LabelsMustFit(names: seq<string>, values: seq<string>)
    ensures LabelStr(names, values).None? <==> names != [] && |names| != |values|
  {
  }

  /** For fixed label names, two value tuples render alike only when they are equal. */
  lemma LabelsAreUnique(names: seq<string>, a: seq<string>, b: seq<string>)
    requires |names| == |a| == |b|
    ensures LabelStr(names, a) == LabelStr(names, b) <==> a == b
  {
    hide ReadLabels;
    LabelsReadBack(names, a);
    LabelsReadBack(names, b);
  }

  // ---- Bucket labels ----

  /** The labels of a bucket line: the base labels reopened for the bound. */
  function BucketLabels(base: string, le: string): string {
    if base != "" then base[..|base| - 1] + ",le=\"" + le + "\"}" else "{le=\"" + le + "\"}"
  }

  predicate Plain(s: string) {
    '\\' !in s && '"' !in s && '\n' !in s
  }

  lemma {:induction false} PlainIsEscaped(s: string)
    requires Plain(s)
    ensures EscapeOnce(s) == s
  {
    if s != "" { PlainIsEscaped(s[1..]); }
  }

  lemma {:induction false} PairsSnoc(names: seq<string>, values: seq<string>, n: string, v: string)
    requires |names| == |values| && names != []
    ensures Pairs(names + [n], values + [v]) == Pairs(names, values) + "," + Pair(n, v)
    decreases |names|
  {
    hide Pair;
    assert (names + [n])[1..] == names[1..] + [n] && (values + [v])[1..] == values[1..] + [v];
    if |names| == 1 {
      assert names[1..] + [n] == [n] && values[1..] + [v] == [v];
    } else {
      PairsSnoc(names[1..], values[1..], n, v);
      var p, more := Pair(names[0], values[0]), Pairs(names[1..], values[1..]);
      Assoc(p + ",", more, ",");
      Assoc(p + ",", more + ",", Pair(n, v));
    }
  }

  /** Reopening the base labels renders the label list with the bound as one more label. */
  lemma BucketLabelsAreLabels(names: seq<string>, values: seq<string>, le: string)
    requires |names| == |values| && Plain(le)
    ensures Some(BucketLabels(LabelStr(names, values).value, le)) == LabelStr(names + ["le"], values + [le])
  {
    hide Pairs;
    EscapeIsOnePass(le);
    PlainIsEscaped(le);
    PairOfBound(le);
    if names == [] {
      BoundAlone(le);
      assert [] + ["le"] == ["le"] && [] + [le] == [le] && values == [];
    } else {
      PairsSnoc(names, values, "le", le);
      BoundBehind(Pairs(names, values), le);
    }
  }

  lemma PairOfBound(le: string)
    requires Escape(le) == le
    ensures Pair("le", le) == "le=\"" + le + "\""
  {
    assert "le" + "=\"" == "le=\"";
  }

  lemma BoundAlone(le: string)
    requires Escape(le) == le
    ensures "{le=\"" + le + "\"}" == "{" + Pairs(["le"], [le]) + "}"
  {
    PairOfBound(le);
    assert "{" + ("le=\"" + le + "\"") + "}" == "{le=\"" + le + "\"}";
  }

  lemma BoundBehind(pairs: string, le: string)
    ensures ("{" + pairs + "}")[..|"{" + pairs + "}"| - 1] + ",le=\"" + le + "\"}"
      == "{" + (pairs + "," + ("le=\"" + le + "\"")) + "}"
  {
    assert ("{" + pairs + "}")[..|"{" + pairs + "}"| - 1] == "{" + pairs;
    assert ",le=\"" == "," + "le=\"";
    assert "\"}" == "\"" + "}";
  }

  /** The bucket labels of different label keys or different bounds are different. */
  lemma BucketLabelsAreUnique(names: seq<string>, a: seq<string>, b: seq<string>, le: string, ge: string)
    requires |names| == |a| == |b| && Plain(le) && Plain(ge)
    ensures BucketLabels(LabelStr(names, a).value, le) == BucketLabels(LabelStr(names, b).value, ge)
      <==> a == b && le == ge
  {
    hide LabelStr, BucketLabels;
    LabelsReadBack(names, a);
    LabelsReadBack(names, b);
    BucketLabelsAreLabels(names, a, le);
    BucketLabelsAreLabels(names, b, ge);
    LabelsAreUnique(names + ["le"], a + [le], b + [ge]);
    assert (a + [le])[..|a|] == a && (b + [ge])[..|b|] == b;
  }
}
