/** Python's order of strings, and `sorted` on lists of strings. */
module SortedText {
  /** The order of `str`: by code points, a proper prefix first. */
  predicate StrLe(a: string, b: string) {
    a == "" || (b != "" && (a[0] < b[0] || (a[0] == b[0] && StrLe(a[1..], b[1..]))))
  }

  // ---- The string order is a total order ----

  lemma {:induction false} StrLeTotal(a: string, b: string)
    ensures StrLe(a, b) || StrLe(b, a)
    ensures StrLe(a, b) && StrLe(b, a) ==> a == b
  {
    if a != "" && b != "" && a[0] == b[0] {
      StrLeTotal(a[1..], b[1..]);
      assert a == [a[0]] + a[1..] && b == [b[0]] + b[1..];
    }
  }

  lemma {:induction false} StrLeTransitive(a: string, b: string, c: string)
    requires StrLe(a, b) && StrLe(b, c)
    ensures StrLe(a, c)
  {
    if a != "" && a[0] == b[0] && b[0] == c[0] {
      StrLeTransitive(a[1..], b[1..], c[1..]);
    }
  }

  /** Strings of one length are ordered by the first place at which they differ. */
  lemma {:induction false} FirstDifference(a: string, b: string) returns (i: nat)
    requires StrLe(a, b) && |a| == |b| && a != b
    ensures i < |a| && a[i] < b[i] && forall j | 0 <= j < i :: a[j] == b[j]
  {
    if a[0] < b[0] {
      i := 0;
    } else {
      assert a == [a[0]] + a[1..] && b == [b[0]] + b[1..];
      var k := FirstDifference(a[1..], b[1..]);
      i := k + 1;
      forall j | 0 < j < i ensures a[j] == b[j] {
        assert a[j] == a[1..][j - 1] && b[j] == b[1..][j - 1];
      }
    }
  }

  // ---- Sorting ----

  function Insert(s: string, sorted: seq<string>): (r: seq<string>)
    ensures |r| == |sorted| + 1
  {
    if sorted == [] || StrLe(s, sorted[0]) then [s] + sorted
    else [sorted[0]] + Insert(s, sorted[1..])
  }

  /** `list.sort` on strings. */
  function SortStrings(xs: seq<string>): (r: seq<string>)
    ensures |r| == |xs|
  {
    if xs == [] then [] else Insert(xs[0], SortStrings(xs[1..]))
  }

  predicate Sorted(xs: seq<string>) {
    forall i, j | 0 <= i < j < |xs| :: StrLe(xs[i], xs[j])
  }

  lemma {:induction false} InsertSorted(s: string, xs: seq<string>)
    requires Sorted(xs)
    ensures Sorted(Insert(s, xs)) && multiset(Insert(s, xs)) == multiset(xs) + multiset{s}
  {
    if xs == [] {
    } else if StrLe(s, xs[0]) {
      forall i | 0 <= i < |xs| ensures StrLe(s, xs[i]) {
        StrLeTotal(xs[0], xs[0]);
        StrLeTransitive(s, xs[0], xs[i]);
      }
    } else {
      StrLeTotal(s, xs[0]);
      var rest := Insert(s, xs[1..]);
      InsertSorted(s, xs[1..]);
      assert xs == [xs[0]] + xs[1..];
      forall i | 0 <= i < |rest| ensures StrLe(xs[0], rest[i]) {
        assert rest[i] in multiset(rest);
        assert rest[i] == s || rest[i] in xs[1..];
      }
    }
  }

  lemma {:induction false} SortedAndSame(xs: seq<string>)
    ensures Sorted(SortStrings(xs)) && multiset(SortStrings(xs)) == multiset(xs)
  {
    if xs != [] {
      SortedAndSame(xs[1..]);
      InsertSorted(xs[0], SortStrings(xs[1..]));
      assert xs == [xs[0]] + xs[1..];
    }
  }

  lemma {:induction false} SortedUnique(xs: seq<string>, ys: seq<string>)
    requires Sorted(xs) && Sorted(ys) && multiset(xs) == multiset(ys)
    ensures xs == ys
  {
    hide StrLe;
    assert |xs| == |multiset(xs)| == |multiset(ys)| == |ys|;
    if xs != [] {
      LeastFirst(xs, ys);
      LeastFirst(ys, xs);
      StrLeTotal(xs[0], ys[0]);
      WithoutFirst(xs);
      WithoutFirst(ys);
      SortedUnique(xs[1..], ys[1..]);
    }
  }

  lemma LeastFirst(xs: seq<string>, ys: seq<string>)
    requires Sorted(xs) && multiset(xs) == multiset(ys) && xs != [] && ys != []
    ensures StrLe(xs[0], ys[0])
  {
    hide StrLe;
    assert ys[0] in multiset(ys);
    var j :| 0 <= j < |xs| && xs[j] == ys[0];
    StrLeTotal(xs[0], xs[0]);
  }

  lemma WithoutFirst(xs: seq<string>)
    requires xs != []
    ensures xs == [xs[0]] + xs[1..] && multiset(xs[1..]) == multiset(xs) - multiset{xs[0]}
  {
    assert xs == [xs[0]] + xs[1..];
  }

  /** Sorting forgets the order that it was given. */
  lemma SortIgnoresOrder(xs: seq<string>, ys: seq<string>)
    requires multiset(xs) == multiset(ys)
    ensures SortStrings(xs) == SortStrings(ys)
  {
    SortedAndSame(xs);
    SortedAndSame(ys);
    SortedUnique(SortStrings(xs), SortStrings(ys));
  }
}
