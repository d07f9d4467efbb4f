/** Counting lemmas about finite sets and duplicate-free sequences, and the
    byte order on strings that sort.Slice compares URLs with. */
module Collections {

  datatype Option<+T> = None | Some(value: T)

  function Elems<T>(s: seq<T>): set<T> {
    set x | x in s
  }

  predicate NoDup<T(==)>(s: seq<T>) {
    forall i, j :: 0 <= i < j < |s| ==> s[i] != s[j]
  }

  lemma {:induction false} ElemsCard<T>(s: seq<T>)
    requires NoDup(s)
    ensures |Elems(s)| == |s|
  {
    if s != [] {
      var k := |s| - 1;
      ElemsCard(s[..k]);
      assert s == s[..k] + [s[k]];
      assert Elems(s) == Elems(s[..k]) + {s[k]};
    }
  }

  lemma Inhabited(s: set<int>)
    ensures s == {} || exists x :: x in s
  {
    if forall x :: x !in s {
      assert s == {};
    }
  }

  lemma SubsetCard<T>(a: set<T>, b: set<T>)
    requires a <= b
    ensures |a| <= |b|
    ensures |a| == |b| ==> a == b
  {
    assert |b - a| == |b| - |a|;
  }

  lemma SplitCard<T>(a: set<T>, b: set<T>)
    ensures |a - b| == |a| - |a * b|
  {
  }

  /** Every finite set can be listed in non-decreasing order of a total preorder,
      however ties are broken. */
  lemma {:induction false} SortExists<T(!new)>(s: set<T>, leq: (T, T) -> bool) returns (order: seq<T>)
    requires forall x, y :: x in s && y in s ==> leq(x, y) || leq(y, x)
    requires forall x, y, z :: x in s && y in s && z in s && leq(x, y) && leq(y, z) ==> leq(x, z)
    ensures NoDup(order) && Elems(order) == s
    ensures forall i, j :: 0 <= i < j < |order| ==> leq(order[i], order[j])
    decreases |s|
  {
    if s == {} {
      order := [];
    } else {
      var m := MinExists(s, leq);
      var rest := SortExists(s - {m}, leq);
      order := [m] + rest;
      assert forall x :: x in rest ==> x in Elems(rest);
      assert Elems(order) == {m} + Elems(rest);
    }
  }

  lemma {:induction false} MinExists<T(!new)>(s: set<T>, leq: (T, T) -> bool) returns (m: T)
    requires s != {}
    requires forall x, y :: x in s && y in s ==> leq(x, y) || leq(y, x)
    requires forall x, y, z :: x in s && y in s && z in s && leq(x, y) && leq(y, z) ==> leq(x, z)
    ensures m in s && forall x :: x in s ==> leq(m, x)
    decreases |s|
  {
    var p :| p in s;
    if s == {p} {
      m := p;
    } else {
      var q := MinExists(s - {p}, leq);
      m := if leq(p, q) then p else q;
      assert forall x :: x in s ==> x == p || x in s - {p};
    }
  }

  /** Go's string comparison. */
  predicate LexLeq(a: string, b: string) {
    a == [] || (b != [] && (a[0] < b[0] || (a[0] == b[0] && LexLeq(a[1..], b[1..]))))
  }

  lemma {:induction false} LexTotal(a: string, b: string)
    ensures LexLeq(a, b) || LexLeq(b, a)
  {
    if a != [] && b != [] && a[0] == b[0] {
      LexTotal(a[1..], b[1..]);
    }
  }

  lemma {:induction false} LexTransitive(a: string, b: string, c: string)
    requires LexLeq(a, b) && LexLeq(b, c)
    ensures LexLeq(a, c)
  {
    if a != [] && a[0] == b[0] && b[0] == c[0] {
      LexTransitive(a[1..], b[1..], c[1..]);
    }
  }
}
