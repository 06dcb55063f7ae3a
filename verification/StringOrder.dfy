/** Lexicographic order on strings, as used by the byte-wise sorts of the sync client and server,
    and the sorted enumeration of a finite set of strings. */
module StringOrder {

  predicate Leq(a: string, b: string)
  {
    a == [] || (b != [] && (a[0] < b[0] || (a[0] == b[0] && Leq(a[1..], b[1..]))))
  }

  lemma {:induction false} LeqTotal(a: string, b: string)
    ensures Leq(a, b) || Leq(b, a)
  {
    if a != [] && b != [] && a[0] == b[0] {
      LeqTotal(a[1..], b[1..]);
    }
  }

  lemma {:induction false} LeqAntisymmetric(a: string, b: string)
    requires Leq(a, b) && Leq(b, a)
    ensures a == b
  {
    if a != [] {
      LeqAntisymmetric(a[1..], b[1..]);
      assert a == [a[0]] + a[1..] && b == [b[0]] + b[1..];
    }
  }

  lemma {:induction false} LeqTransitive(a: string, b: string, c: string)
    requires Leq(a, b) && Leq(b, c)
    ensures Leq(a, c)
  {
    if a != [] && a[0] == b[0] && b[0] == c[0] {
      LeqTransitive(a[1..], b[1..], c[1..]);
    }
  }

  ghost predicate Sorted(s: seq<string>)
  {
    forall i, j :: 0 <= i < j < |s| ==> Leq(s[i], s[j])
  }

  lemma FirstIsLeast(a: seq<string>, b: seq<string>)
    requires Sorted(a) && a != [] && b != []
    requires multiset(a) == multiset(b)
    ensures Leq(a[0], b[0])
  {
    LeqTotal(a[0], a[0]);
    assert b[0] in multiset(a);
    var j :| 0 <= j < |a| && a[j] == b[0];
  }

  lemma Uncons(a: seq<string>)
    requires Sorted(a) && a != []
    ensures a == [a[0]] + a[1..] && Sorted(a[1..])
    ensures multiset(a[1..]) == multiset(a) - multiset{a[0]}
  {
    assert a == [a[0]] + a[1..];
  }

  /** Two sorted sequences with the same elements, counted with multiplicity, are the same sequence. */
  lemma {:induction false} SortedIsCanonical(a: seq<string>, b: seq<string>)
    requires Sorted(a) && Sorted(b)
    requires multiset(a) == multiset(b)
    ensures a == b
  {
    if a == [] {
      assert |multiset(b)| == 0;
    } else {
      assert |b| == |multiset(b)| == |multiset(a)| == |a|;
      FirstIsLeast(a, b);
      FirstIsLeast(b, a);
      LeqAntisymmetric(a[0], b[0]);
      Uncons(a);
      Uncons(b);
      SortedIsCanonical(a[1..], b[1..]);
    }
  }

  // ---------------------------------------------------------------------------
  // Sorting a sequence
  // ---------------------------------------------------------------------------

  function Insert(x: string, s: seq<string>): (r: seq<string>)
  {
    if s == [] || Leq(x, s[0]) then [x] + s else [s[0]] + Insert(x, s[1..])
  }

  function Sort(s: seq<string>): (r: seq<string>)
  {
    if s == [] then [] else Insert(s[0], Sort(s[1..]))
  }

  lemma {:induction false} InsertKeepsElements(x: string, s: seq<string>)
    ensures multiset(Insert(x, s)) == multiset(s) + multiset{x}
  {
    if s != [] && !Leq(x, s[0]) {
      InsertKeepsElements(x, s[1..]);
      assert s == [s[0]] + s[1..];
    }
  }

  lemma {:induction false} InsertKeepsSorted(x: string, s: seq<string>)
    requires Sorted(s)
    ensures Sorted(Insert(x, s))
  {
    if s == [] {
    } else if Leq(x, s[0]) {
      var r := [x] + s;
      forall i, j | 0 <= i < j < |r|
        ensures Leq(r[i], r[j])
      {
        if i == 0 && j > 1 {
          LeqTransitive(x, s[0], s[j - 1]);
        }
      }
    } else {
      InsertKeepsSorted(x, s[1..]);
      var t := Insert(x, s[1..]);
      InsertKeepsElements(x, s[1..]);
      LeqTotal(x, s[0]);
      forall k | 0 <= k < |t|
        ensures Leq(s[0], t[k])
      {
        assert t[k] in multiset(t);
        if t[k] != x {
          assert t[k] in s[1..];
        }
      }
    }
  }

  lemma {:induction false} SortSorts(s: seq<string>)
    ensures Sorted(Sort(s))
    ensures multiset(Sort(s)) == multiset(s)
  {
    if s != [] {
      SortSorts(s[1..]);
      InsertKeepsSorted(s[0], Sort(s[1..]));
      InsertKeepsElements(s[0], Sort(s[1..]));
      assert s == [s[0]] + s[1..];
    }
  }

  /** Sorting forgets exactly the order: two sequences sort to the same one iff one permutes the other. */
  lemma SortForgetsOrder(a: seq<string>, b: seq<string>)
    ensures Sort(a) == Sort(b) <==> multiset(a) == multiset(b)
  {
    SortSorts(a);
    SortSorts(b);
    if multiset(a) == multiset(b) {
      SortedIsCanonical(Sort(a), Sort(b));
    }
  }

  // ---------------------------------------------------------------------------
  // Enumerating a set in order
  // ---------------------------------------------------------------------------

  predicate IsMinimum(m: string, s: set<string>)
  {
    m in s && forall x :: x in s ==> Leq(m, x)
  }

  lemma {:induction false} HasMinimum(s: set<string>)
    requires s != {}
    ensures exists m :: IsMinimum(m, s)
  {
    var m :| m in s;
    var rest := s - {m};
    LeqTotal(m, m);
    if rest == {} {
      assert forall x :: x in s ==> x == m || x in rest;
      assert IsMinimum(m, s);
    } else {
      HasMinimum(rest);
      var r :| IsMinimum(r, rest);
      LeqTotal(m, r);
      var low := if Leq(m, r) then m else r;
      forall x | x in s
        ensures Leq(low, x)
      {
        if x != m && low == m {
          LeqTransitive(m, r, x);
        }
      }
      assert IsMinimum(low, s);
    }
  }

  lemma MinimumIsUnique(s: set<string>, m: string, n: string)
    requires IsMinimum(m, s) && IsMinimum(n, s)
    ensures m == n
  {
    LeqAntisymmetric(m, n);
  }

  function Minimum(s: set<string>): (m: string)
    requires s != {}
    ensures IsMinimum(m, s)
  {
    HasMinimum(s);
    assert forall m, n :: IsMinimum(m, s) && IsMinimum(n, s) ==> m == n by {
      forall m, n | IsMinimum(m, s) && IsMinimum(n, s)
        ensures m == n
      {
        MinimumIsUnique(s, m, n);
      }
    }
    var m :| m in s && IsMinimum(m, s);
    m
  }

  function InOrder(s: set<string>): (r: seq<string>)
    ensures Sorted(r)
    ensures forall x :: x in r <==> x in s
    ensures |r| == |s|
  {
    if s == {} then [] else [Minimum(s)] + InOrder(s - {Minimum(s)})
  }
}
