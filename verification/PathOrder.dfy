/** Lists of paths in the order of their texts, as the server sorts them before it answers or stores them. */
module PathOrder {
  import opened StringOrder
  import opened Merkle

  function PathText(p: Path): (text: string)
  {
    if |p| == 1 then p[0] else p[0] + "/" + PathText(p[1..])
  }

  /** A text is cut at its slashes. */
  function PathOf(text: string): (p: Path)
    decreases |text|
  {
    var i := FirstSlash(text);
    if i == |text| then [text] else [text[..i]] + PathOf(text[i + 1..])
  }

  function FirstSlash(text: string): (i: nat)
    ensures i <= |text| && (i < |text| ==> text[i] == '/')
  {
    if text == "" || text[0] == '/' then 0 else 1 + FirstSlash(text[1..])
  }

  lemma CutAt(text: string, i: nat)
    requires i < |text| && text[i] == '/'
    ensures text == text[..i] + "/" + text[i + 1..]
  {
  }

  lemma TextCons(name: Name, rest: Path)
    ensures PathText([name] + rest) == name + "/" + PathText(rest)
  {
    assert ([name] + rest)[1..] == rest;
  }

  lemma {:induction false} PathTextOf(text: string)
    ensures PathText(PathOf(text)) == text
    decreases |text|
  {
    var i := FirstSlash(text);
    if i < |text| {
      PathTextOf(text[i + 1..]);
      TextCons(text[..i], PathOf(text[i + 1..]));
      CutAt(text, i);
    }
  }

  /** Different texts are different paths. */
  lemma PathOfInjective(a: string, b: string)
    ensures PathOf(a) == PathOf(b) <==> a == b
  {
    PathTextOf(a);
    PathTextOf(b);
  }

  ghost predicate PathsSorted(ps: seq<Path>)
  {
    forall i, j :: 0 <= i < j < |ps| ==> Leq(PathText(ps[i]), PathText(ps[j]))
  }

  function InsertPath(p: Path, ps: seq<Path>): (r: seq<Path>)
  {
    if ps == [] || Leq(PathText(p), PathText(ps[0])) then [p] + ps else [ps[0]] + InsertPath(p, ps[1..])
  }

  function SortPaths(ps: seq<Path>): (r: seq<Path>)
  {
    if ps == [] then [] else InsertPath(ps[0], SortPaths(ps[1..]))
  }

  lemma {:induction false} InsertPathElements(p: Path, ps: seq<Path>)
    ensures multiset(InsertPath(p, ps)) == multiset(ps) + multiset{p}
  {
    if ps != [] && !Leq(PathText(p), PathText(ps[0])) {
      InsertPathElements(p, ps[1..]);
      assert ps == [ps[0]] + ps[1..];
    }
  }

  lemma PrependSorted(p: Path, ps: seq<Path>)
    requires PathsSorted(ps) && forall q :: q in multiset(ps) ==> Leq(PathText(p), PathText(q))
    ensures PathsSorted([p] + ps)
  {
    forall i, j | 0 <= i < j < |[p] + ps|
      ensures Leq(PathText(([p] + ps)[i]), PathText(([p] + ps)[j]))
    {
      assert ps[j - 1] in multiset(ps);
    }
  }

  lemma {:induction false} InsertPathSorted(p: Path, ps: seq<Path>)
    requires PathsSorted(ps)
    ensures PathsSorted(InsertPath(p, ps))
  {
    if ps == [] {
    } else if Leq(PathText(p), PathText(ps[0])) {
      forall q | q in multiset(ps)
        ensures Leq(PathText(p), PathText(q))
      {
        var i :| 0 <= i < |ps| && ps[i] == q;
        if i > 0 {
          LeqTransitive(PathText(p), PathText(ps[0]), PathText(q));
        }
      }
      PrependSorted(p, ps);
    } else {
      InsertPathSorted(p, ps[1..]);
      InsertPathElements(p, ps[1..]);
      LeqTotal(PathText(p), PathText(ps[0]));
      forall q | q in multiset(InsertPath(p, ps[1..]))
        ensures Leq(PathText(ps[0]), PathText(q))
      {
        if q != p {
          var i :| 0 <= i < |ps[1..]| && ps[1..][i] == q;
          assert q == ps[i + 1];
        }
      }
      PrependSorted(ps[0], InsertPath(p, ps[1..]));
    }
  }

  /** Sorting keeps every path as often as it was there, and puts them in order. */
  lemma {:induction false} SortPathsSorts(ps: seq<Path>)
    ensures PathsSorted(SortPaths(ps)) && multiset(SortPaths(ps)) == multiset(ps)
    ensures |SortPaths(ps)| == |ps| && forall p :: p in SortPaths(ps) <==> p in ps
  {
    if ps != [] {
      SortPathsSorts(ps[1..]);
      InsertPathSorted(ps[0], SortPaths(ps[1..]));
      InsertPathElements(ps[0], SortPaths(ps[1..]));
      assert ps == [ps[0]] + ps[1..];
    }
    SameElements(ps, SortPaths(ps));
  }

  lemma SameElements(a: seq<Path>, b: seq<Path>)
    requires multiset(a) == multiset(b)
    ensures |a| == |b| && forall p :: p in a <==> p in b
  {
    assert |a| == |multiset(a)| && |b| == |multiset(b)|;
    forall p
      ensures p in a <==> p in b
    {
      assert p in a <==> p in multiset(a);
      assert p in b <==> p in multiset(b);
    }
  }
}
