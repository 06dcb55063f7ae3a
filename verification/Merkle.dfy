/** The repository's Merkle tree: the directory tree rebuilt from a flat {path -> sha256} map, its
    root hash, and the merge that commits a sync (services/impl/merkle_service_impl.go).

    A repo-relative path is the list of its '/'-separated segments. SHA-256 is taken to be collision-free, so
    a hash is the term that was hashed; but what is hashed for a directory, the hashes of its children one
    after the other, can as well be the bytes of a file. So a file may have any hash that a directory can. */
module Merkle {
  import opened StringOrder

  type Name = string
  type Path = p: seq<Name> | |p| >= 1 witness [""]
  type Hash = Digest
  type Leaves = map<Path, Hash>

  /** `Unset` is the empty Hash field of the tree returned when nothing was ever stored; `Content` is the hash
      of bytes that are no concatenation of hashes. A directory is hashed over the concatenated hashes of its
      children and nothing else: no child's name goes in. */
  datatype Digest = Unset | Content(bytes: string) | Rollup(parts: seq<Digest>)

  /** A node carries the last segment of its path; the root directory is called ".". */
  datatype Node =
    | File(name: Name, sha: Hash)
    | Dir(name: Name, children: seq<Node>)

  function HashOf(n: Node): (h: Digest)
  {
    match n
    case File(_, sha) => sha
    case Dir(_, children) => Rollup(HashAll(children))
  }

  function HashAll(ns: seq<Node>): (hs: seq<Digest>)
    ensures |hs| == |ns|
  {
    if ns == [] then [] else [HashOf(ns[0])] + HashAll(ns[1..])
  }

  /** The leaves `m` of a sub-directory, with their paths extended by its name. */
  function Lift(name: Name, m: Leaves): (r: Leaves)
  {
    map p | p in LiftPaths(name, m.Keys) :: m[p[1..]]
  }

  function LiftPaths(name: Name, ps: set<Path>): (r: set<Path>)
    ensures forall p :: p in r <==> |p| > 1 && p[0] == name && p[1..] in ps
  {
    var r: set<Path> := set q | q in ps :: [name] + q;
    assert forall q: Path :: ([name] + q)[0] == name && ([name] + q)[1..] == q;
    assert forall p: Path :: |p| > 1 ==> [p[0]] + p[1..] == p;
    r
  }

  /** Every file leaf below a list of siblings, by its path from their parent. */
  function Flatten(ns: seq<Node>): (m: Leaves)
  {
    if ns == [] then map[]
    else
      (match ns[0]
       case File(name, sha) => map[[name] := sha]
       case Dir(name, children) => Lift(name, Flatten(children)))
      + Flatten(ns[1..])
  }

  // ---------------------------------------------------------------------------
  // Rebuilding the directory tree from its leaves
  // ---------------------------------------------------------------------------

  /** The names directly under a directory whose leaves, relative to it, are `m`. */
  function Heads(m: Leaves): (names: set<Name>)
  {
    set p | p in m.Keys :: p[0]
  }

  function SubPaths(m: Leaves, name: Name): (ps: set<Path>)
    ensures forall q: Path :: q in ps <==> [name] + q in m.Keys
  {
    var ps: set<Path> := set p | p in m.Keys && |p| > 1 && p[0] == name :: p[1..];
    assert forall q: Path :: ([name] + q)[0] == name && ([name] + q)[1..] == q;
    assert forall p: Path :: |p| > 1 ==> [p[0]] + p[1..] == p;
    ps
  }

  /** The leaves below the sub-directory `name`, relative to it. */
  function Sub(m: Leaves, name: Name): (s: Leaves)
  {
    map q | q in SubPaths(m, name) :: m[[name] + q]
  }

  ghost predicate DepthAtMost(m: Leaves, depth: nat)
  {
    forall p :: p in m.Keys ==> |p| <= depth
  }

  /** The sorted children of the directory whose leaves are `m`. `depth` only bounds the recursion. */
  function Build(depth: nat, m: Leaves): (ns: seq<Node>)
    requires DepthAtMost(m, depth)
    decreases depth, 3, 0
  {
    Kids(depth, InOrder(Heads(m)), m)
  }

  function Kids(depth: nat, names: seq<Name>, m: Leaves): (ns: seq<Node>)
    requires DepthAtMost(m, depth)
    decreases depth, 2, |names|
  {
    if names == [] then [] else Slot(depth, names[0], m) + Kids(depth, names[1..], m)
  }

  /** The children called `name`: a file, a directory, or (file first) both. */
  function Slot(depth: nat, name: Name, m: Leaves): (ns: seq<Node>)
    requires DepthAtMost(m, depth)
    decreases depth, 1, 0
  {
    FileSlot(name, m) + DirSlot(depth, name, m)
  }

  function FileSlot(name: Name, m: Leaves): (ns: seq<Node>)
  {
    if [name] in m then [File(name, m[[name]])] else []
  }

  function DirSlot(depth: nat, name: Name, m: Leaves): (ns: seq<Node>)
    requires DepthAtMost(m, depth)
    decreases depth, 0, 0
  {
    if SubPaths(m, name) == {} then []
    else
      SubIsShallower(depth, name, m);
      [Dir(name, Build(depth - 1, Sub(m, name)))]
  }

  lemma SubIsShallower(depth: nat, name: Name, m: Leaves)
    requires DepthAtMost(m, depth) && SubPaths(m, name) != {}
    ensures depth > 0 && DepthAtMost(Sub(m, name), depth - 1)
  {
    forall q | q in SubPaths(m, name)
      ensures |q| <= depth - 1
    {
      assert [name] + q in m.Keys;
    }
    var q :| q in SubPaths(m, name);
  }

  lemma {:induction false} HasMaximum(ds: set<nat>)
    requires ds != {}
    ensures exists d :: d in ds && forall e :: e in ds ==> e <= d
  {
    var x :| x in ds;
    if ds - {x} == {} {
      assert forall e :: e in ds ==> e == x || e in ds - {x};
    } else {
      HasMaximum(ds - {x});
      var y :| y in ds - {x} && forall e :: e in ds - {x} ==> e <= y;
      var d := if x > y then x else y;
      assert d in ds && forall e :: e in ds ==> e == x || e in ds - {x};
    }
  }

  function MaxDepth(ps: set<Path>): (d: nat)
    ensures forall p :: p in ps ==> |p| <= d
  {
    var depths := {0} + set p | p in ps :: |p|;
    HasMaximum(depths);
    var d :| d in depths && forall e :: e in depths ==> e <= d;
    assert forall p :: p in ps ==> |p| in depths;
    d
  }

  /** The whole tree of a leaf map. */
  function Rebuild(m: Leaves): (root: Node)
  {
    Dir(".", Build(MaxDepth(m.Keys), m))
  }

  // ---------------------------------------------------------------------------
  // Flattening undoes rebuilding
  // ---------------------------------------------------------------------------

  lemma MergeAssociative(x: Leaves, y: Leaves, z: Leaves)
    ensures (x + y) + z == x + (y + z)
  {
  }

  lemma {:induction false} FlattenAppend(a: seq<Node>, b: seq<Node>)
    ensures Flatten(a + b) == Flatten(a) + Flatten(b)
  {
    if a == [] {
      assert a + b == b;
    } else {
      assert (a + b)[0] == a[0] && (a + b)[1..] == a[1..] + b;
      FlattenAppend(a[1..], b);
      var first := match a[0]
        case File(name, sha) => map[[name] := sha]
        case Dir(name, children) => Lift(name, Flatten(children));
      MergeAssociative(first, Flatten(a[1..]), Flatten(b));
    }
  }

  /** The part of a leaf map that lives under one of `names`. */
  function Under(m: Leaves, names: set<Name>): (r: Leaves)
  {
    map p | p in m.Keys && p[0] in names :: m[p]
  }

  function FilePart(m: Leaves, name: Name): (r: Leaves)
  {
    map p | p in m.Keys && p == [name] :: m[p]
  }

  function DirPart(m: Leaves, name: Name): (r: Leaves)
  {
    map p | p in m.Keys && p[0] == name && |p| > 1 :: m[p]
  }

  lemma LiftAt(name: Name, x: Leaves, p: Path)
    ensures p in Lift(name, x) <==> |p| > 1 && p[0] == name && p[1..] in x
    ensures p in Lift(name, x) ==> Lift(name, x)[p] == x[p[1..]]
  {
  }

  lemma SubAt(m: Leaves, name: Name, p: Path)
    requires |p| > 1 && p[0] == name
    ensures p[1..] in Sub(m, name) <==> p in m
    ensures p in m ==> Sub(m, name)[p[1..]] == m[p]
  {
    assert [name] + p[1..] == p;
  }

  lemma LiftSub(m: Leaves, name: Name)
    ensures Lift(name, Sub(m, name)) == DirPart(m, name)
  {
    var sub := Sub(m, name);
    var lifted, part := Lift(name, sub), DirPart(m, name);
    forall p: Path
      ensures p in lifted <==> p in part
      ensures p in part ==> lifted[p] == part[p]
    {
      LiftAt(name, sub, p);
      if |p| > 1 && p[0] == name {
        SubAt(m, name, p);
      }
    }
  }

  lemma AllUnderHeads(m: Leaves)
    ensures Under(m, set n | n in InOrder(Heads(m))) == m
  {
  }

  lemma {:induction false} FlattenBuild(depth: nat, m: Leaves, built: seq<Node>)
    requires DepthAtMost(m, depth) && built == Build(depth, m)
    ensures Flatten(built) == m
    decreases depth, 3, 0
  {
    var names := InOrder(Heads(m));
    FlattenKids(depth, names, m);
    AllUnderHeads(m);
  }

  lemma {:induction false} FlattenKids(depth: nat, names: seq<Name>, m: Leaves)
    requires DepthAtMost(m, depth)
    ensures Flatten(Kids(depth, names, m)) == Under(m, set n | n in names)
    decreases depth, 2, |names|
  {
    if names != [] {
      var rest := names[1..];
      FlattenKids(depth, rest, m);
      FlattenSlot(depth, names[0], m);
      FlattenAppend(Slot(depth, names[0], m), Kids(depth, rest, m));
      UnderCons(m, names);
    }
  }

  lemma UnderCons(m: Leaves, names: seq<Name>)
    requires names != []
    ensures Under(m, set n | n in names) == Under(m, {names[0]}) + Under(m, set n | n in names[1..])
  {
    assert forall n :: n in names <==> n == names[0] || n in names[1..];
  }

  lemma {:induction false} FlattenSlot(depth: nat, name: Name, m: Leaves)
    requires DepthAtMost(m, depth)
    ensures Flatten(Slot(depth, name, m)) == Under(m, {name})
    decreases depth, 1, 0
  {
    assert Flatten(FileSlot(name, m)) == FilePart(m, name);
    FlattenDirSlot(depth, name, m);
    FlattenAppend(FileSlot(name, m), DirSlot(depth, name, m));
    UnderSplits(m, name);
  }

  lemma UnderSplits(m: Leaves, name: Name)
    ensures Under(m, {name}) == FilePart(m, name) + DirPart(m, name)
  {
    forall p | p in Under(m, {name}).Keys && |p| == 1
      ensures p == [name]
    {
    }
  }

  lemma LiftNothing(name: Name, m: Leaves)
    requires m == map[]
    ensures Lift(name, m) == map[]
  {
    assert LiftPaths(name, m.Keys) == {};
  }

  lemma FlattenDir(name: Name, children: seq<Node>)
    ensures Flatten([Dir(name, children)]) == Lift(name, Flatten(children))
  {
    assert [Dir(name, children)][1..] == [];
  }

  lemma {:induction false} FlattenDirSlot(depth: nat, name: Name, m: Leaves)
    requires DepthAtMost(m, depth)
    ensures Flatten(DirSlot(depth, name, m)) == DirPart(m, name)
    decreases depth, 0, 0
  {
    LiftSub(m, name);
    if SubPaths(m, name) == {} {
      LiftNothing(name, Sub(m, name));
    } else {
      SubIsShallower(depth, name, m);
      var children := Build(depth - 1, Sub(m, name));
      FlattenBuild(depth - 1, Sub(m, name), children);
      FlattenDir(name, children);
    }
  }

  /** Rebuilding a tree from its leaves loses nothing: its leaves are those it was built from. */
  lemma FlattenRebuild(m: Leaves)
    ensures Flatten(Rebuild(m).children) == m
  {
    FlattenBuild(MaxDepth(m.Keys), m, Rebuild(m).children);
  }

  // ---------------------------------------------------------------------------
  // The rebuilt tree is in path order
  // ---------------------------------------------------------------------------

  ghost predicate NamesSorted(ns: seq<Node>)
  {
    forall i, j :: 0 <= i < j < |ns| ==> Leq(ns[i].name, ns[j].name)
  }

  /** Siblings have one parent path, so path order is the order of their names; here and below. */
  ghost predicate SortedNode(n: Node)
  {
    n.Dir? ==> NamesSorted(n.children) && SortedAll(n.children)
  }

  ghost predicate SortedAll(ns: seq<Node>)
  {
    ns == [] || (SortedNode(ns[0]) && SortedAll(ns[1..]))
  }

  lemma {:induction false} SortedAppend(a: seq<Node>, b: seq<Node>)
    requires SortedAll(a) && SortedAll(b)
    ensures SortedAll(a + b)
  {
    if a == [] {
      assert a + b == b;
    } else {
      assert (a + b)[0] == a[0] && (a + b)[1..] == a[1..] + b;
      SortedAppend(a[1..], b);
    }
  }

  predicate Named(ns: seq<Node>, names: seq<Name>)
  {
    forall i :: 0 <= i < |ns| ==> ns[i].name in names
  }

  lemma {:induction false} BuildSorted(depth: nat, m: Leaves, built: seq<Node>)
    requires DepthAtMost(m, depth) && built == Build(depth, m)
    ensures NamesSorted(built) && SortedAll(built)
    decreases depth, 3, 0
  {
    KidsSorted(depth, InOrder(Heads(m)), m);
  }

  lemma {:induction false} KidsSorted(depth: nat, names: seq<Name>, m: Leaves)
    requires DepthAtMost(m, depth) && Sorted(names)
    ensures NamesSorted(Kids(depth, names, m)) && SortedAll(Kids(depth, names, m))
      && Named(Kids(depth, names, m), names)
    decreases depth, 2, |names|
  {
    if names != [] {
      var slot, rest := Slot(depth, names[0], m), Kids(depth, names[1..], m);
      SlotSorted(depth, names[0], m);
      KidsSorted(depth, names[1..], m);
      SortedAppend(slot, rest);
      NamesAppend(slot, rest, names);
    }
  }

  lemma NamesAppend(slot: seq<Node>, rest: seq<Node>, names: seq<Name>)
    requires names != [] && Sorted(names)
    requires Named(slot, [names[0]]) && Named(rest, names[1..]) && NamesSorted(rest)
    ensures NamesSorted(slot + rest) && Named(slot + rest, names)
  {
    LeqTotal(names[0], names[0]);
    forall i | 0 <= i < |rest|
      ensures Leq(names[0], rest[i].name)
    {
      var k :| 0 <= k < |names[1..]| && names[1..][k] == rest[i].name;
      assert names[k + 1] == rest[i].name;
    }
    assert forall i :: 0 <= i < |slot| ==> slot[i].name == names[0];
  }

  lemma OneSorted(n: Node)
    requires SortedNode(n)
    ensures SortedAll([n])
  {
    assert [n][1..] == [];
  }

  lemma {:induction false} DirSlotSorted(depth: nat, name: Name, m: Leaves)
    requires DepthAtMost(m, depth)
    ensures SortedAll(DirSlot(depth, name, m)) && Named(DirSlot(depth, name, m), [name])
    decreases depth, 0, 0
  {
    if SubPaths(m, name) != {} {
      SubIsShallower(depth, name, m);
      var children := Build(depth - 1, Sub(m, name));
      BuildSorted(depth - 1, Sub(m, name), children);
      OneSorted(Dir(name, children));
    }
  }

  lemma {:induction false} SlotSorted(depth: nat, name: Name, m: Leaves)
    requires DepthAtMost(m, depth)
    ensures SortedAll(Slot(depth, name, m)) && Named(Slot(depth, name, m), [name])
    decreases depth, 1, 0
  {
    var file := FileSlot(name, m);
    if file != [] {
      OneSorted(file[0]);
    }
    DirSlotSorted(depth, name, m);
    SortedAppend(file, DirSlot(depth, name, m));
  }

  /** Every directory of a rebuilt tree lists its children in path order, which is what makes the hash a
      function of the leaves. */
  lemma RebuildSorted(m: Leaves)
    ensures SortedNode(Rebuild(m))
  {
    BuildSorted(MaxDepth(m.Keys), m, Rebuild(m).children);
  }

  // ---------------------------------------------------------------------------
  // What the root hash determines
  // ---------------------------------------------------------------------------

  lemma {:induction false} HashAppend(a: seq<Node>, b: seq<Node>)
    ensures HashAll(a + b) == HashAll(a) + HashAll(b)
  {
    if a == [] {
      assert a + b == b;
    } else {
      assert (a + b)[0] == a[0] && (a + b)[1..] == a[1..] + b;
      HashAppend(a[1..], b);
    }
  }

  lemma EqualAppend<T>(a1: seq<T>, b1: seq<T>, a2: seq<T>, b2: seq<T>)
    requires a1 + b1 == a2 + b2 && |a1| == |a2|
    ensures a1 == a2 && b1 == b2
  {
    assert a1 == (a1 + b1)[..|a1|] && a2 == (a2 + b2)[..|a2|];
    assert b1 == (a1 + b1)[|a1|..] && b2 == (a2 + b2)[|a2|..];
  }

  lemma SameHeads(m1: Leaves, m2: Leaves)
    requires m1.Keys == m2.Keys
    ensures Heads(m1) == Heads(m2)
  {
  }

  /** Over one and the same set of paths, equal hashes mean equal leaves. */
  lemma {:induction false} HashDeterminesBuild(depth: nat, m1: Leaves, m2: Leaves, b1: seq<Node>, b2: seq<Node>)
    requires m1.Keys == m2.Keys && DepthAtMost(m1, depth) && DepthAtMost(m2, depth)
    requires b1 == Build(depth, m1) && b2 == Build(depth, m2)
    requires HashAll(b1) == HashAll(b2)
    ensures m1 == m2
    decreases depth, 3, 0
  {
    var names := InOrder(Heads(m1));
    SameHeads(m1, m2);
    HashDeterminesKids(depth, names, m1, m2);
    AllUnderHeads(m1);
    AllUnderHeads(m2);
  }

  lemma {:induction false} HashDeterminesKids(depth: nat, names: seq<Name>, m1: Leaves, m2: Leaves)
    requires m1.Keys == m2.Keys && DepthAtMost(m1, depth) && DepthAtMost(m2, depth)
    requires HashAll(Kids(depth, names, m1)) == HashAll(Kids(depth, names, m2))
    ensures Under(m1, set n | n in names) == Under(m2, set n | n in names)
    decreases depth, 2, |names|
  {
    if names != [] {
      var s1, s2 := Slot(depth, names[0], m1), Slot(depth, names[0], m2);
      var k1, k2 := Kids(depth, names[1..], m1), Kids(depth, names[1..], m2);
      HashAppend(s1, k1);
      HashAppend(s2, k2);
      SlotLength(depth, names[0], m1, m2);
      EqualAppend(HashAll(s1), HashAll(k1), HashAll(s2), HashAll(k2));
      HashDeterminesSlot(depth, names[0], m1, m2);
      HashDeterminesKids(depth, names[1..], m1, m2);
      UnderCons(m1, names);
      UnderCons(m2, names);
    }
  }

  lemma SubKeys(m1: Leaves, m2: Leaves, name: Name)
    requires m1.Keys == m2.Keys
    ensures SubPaths(m1, name) == SubPaths(m2, name)
  {
  }

  lemma SlotLength(depth: nat, name: Name, m1: Leaves, m2: Leaves)
    requires m1.Keys == m2.Keys && DepthAtMost(m1, depth) && DepthAtMost(m2, depth)
    ensures |Slot(depth, name, m1)| == |Slot(depth, name, m2)|
  {
    SubKeys(m1, m2, name);
    assert [name] in m1.Keys <==> [name] in m2.Keys;
  }

  lemma {:induction false} HashDeterminesSlot(depth: nat, name: Name, m1: Leaves, m2: Leaves)
    requires m1.Keys == m2.Keys && DepthAtMost(m1, depth) && DepthAtMost(m2, depth)
    requires HashAll(Slot(depth, name, m1)) == HashAll(Slot(depth, name, m2))
    ensures Under(m1, {name}) == Under(m2, {name})
    decreases depth, 1, 0
  {
    var f1, f2 := FileSlot(name, m1), FileSlot(name, m2);
    var d1, d2 := DirSlot(depth, name, m1), DirSlot(depth, name, m2);
    HashAppend(f1, d1);
    HashAppend(f2, d2);
    assert [name] in m1.Keys <==> [name] in m2.Keys;
    EqualAppend(HashAll(f1), HashAll(d1), HashAll(f2), HashAll(d2));
    FileHashDetermines(name, m1, m2);
    SubKeys(m1, m2, name);
    HashDeterminesDirSlot(depth, name, m1, m2, d1, d2);
    UnderSplits(m1, name);
    UnderSplits(m2, name);
  }

  lemma FileHashDetermines(name: Name, m1: Leaves, m2: Leaves)
    requires m1.Keys == m2.Keys
    requires HashAll(FileSlot(name, m1)) == HashAll(FileSlot(name, m2))
    ensures FilePart(m1, name) == FilePart(m2, name)
  {
    if [name] in m1 {
      assert HashAll(FileSlot(name, m1))[0] == m1[[name]];
      assert HashAll(FileSlot(name, m2))[0] == m2[[name]];
    }
  }

  lemma {:induction false} HashDeterminesDirSlot(depth: nat, name: Name, m1: Leaves, m2: Leaves, d1: seq<Node>,
          d2: seq<Node>)
    requires m1.Keys == m2.Keys && DepthAtMost(m1, depth) && DepthAtMost(m2, depth)
    requires d1 == DirSlot(depth, name, m1) && d2 == DirSlot(depth, name, m2)
    requires HashAll(d1) == HashAll(d2)
    ensures DirPart(m1, name) == DirPart(m2, name)
    decreases depth, 0, 0
  {
    SubKeys(m1, m2, name);
    LiftSub(m1, name);
    LiftSub(m2, name);
    if SubPaths(m1, name) == {} {
      LiftNothing(name, Sub(m1, name));
      LiftNothing(name, Sub(m2, name));
    } else {
      SubIsShallower(depth, name, m1);
      SubIsShallower(depth, name, m2);
      assert HashAll(d1)[0] == Rollup(HashAll(d1[0].children));
      assert HashAll(d2)[0] == Rollup(HashAll(d2[0].children));
      HashDeterminesBuild(depth - 1, Sub(m1, name), Sub(m2, name), d1[0].children, d2[0].children);
    }
  }

  /** Two leaf maps over the same paths have the same root hash only if they are the same map. */
  lemma RootHashDetermines(m1: Leaves, m2: Leaves)
    requires m1.Keys == m2.Keys
    ensures HashOf(Rebuild(m1)) == HashOf(Rebuild(m2)) <==> m1 == m2
  {
    if HashOf(Rebuild(m1)) == HashOf(Rebuild(m2)) {
      HashDeterminesBuild(MaxDepth(m1.Keys), m1, m2, Rebuild(m1).children, Rebuild(m2).children);
    }
  }

  // ---------------------------------------------------------------------------
  // The delta of a sync, and merging it into the tree
  // ---------------------------------------------------------------------------

  datatype Delta = Delta(files: Leaves, deletes: set<Path>)

  /** What storage holds for a repository. */
  datatype Stored = Nothing | Saved(leaves: Leaves)

  function LeavesOf(st: Stored): (m: Leaves)
  {
    match st
    case Nothing => map[]
    case Saved(leaves) => leaves
  }

  function RootHash(st: Stored): (h: Digest)
  {
    match st
    case Nothing => Unset
    case Saved(leaves) => HashOf(Rebuild(leaves))
  }

  function Merge(m: Leaves, d: Delta): (r: Leaves)
  {
    (m + d.files) - d.deletes
  }

  /** ApplyChanges on a tree node: flatten, merge, rebuild. */
  function ApplyChanges(root: Node, d: Delta): (updated: Node)
    requires root.Dir?
  {
    Rebuild(Merge(Flatten(root.children), d))
  }

  /** On trees that were themselves rebuilt from leaves, ApplyChanges is the merge of the leaf maps:
      nothing about the directory structure can leak into the result. */
  lemma ApplyChangesIsMerge(m: Leaves, d: Delta)
    ensures ApplyChanges(Rebuild(m), d) == Rebuild(Merge(m, d))
    ensures Flatten(ApplyChanges(Rebuild(m), d).children) == Merge(m, d)
  {
    FlattenRebuild(m);
    FlattenRebuild(Merge(m, d));
  }

  /** Every updated path sits at its new hash unless it is also deleted, and no deleted path is left. */
  ghost predicate Reflects(m: Leaves, d: Delta)
  {
    && (forall p :: p in d.files && p !in d.deletes ==> p in m && m[p] == d.files[p])
    && (forall p :: p in d.deletes ==> p !in m)
  }

  lemma MergeReflects(m: Leaves, d: Delta)
    ensures Reflects(Merge(m, d), d)
    ensures Reflects(m, d) <==> Merge(m, d) == m
    ensures Merge(Merge(m, d), d) == Merge(m, d)
  {
  }

  /** The delta brings no path the tree lacks and removes none it has. */
  predicate KeepsPaths(m: Leaves, d: Delta)
  {
    d.files.Keys - d.deletes <= m.Keys && d.deletes !! m.Keys
  }

  lemma KeepsPathsIsSameKeys(m: Leaves, d: Delta)
    ensures KeepsPaths(m, d) <==> Merge(m, d).Keys == m.Keys
  {
    if Merge(m, d).Keys == m.Keys {
      forall p | p in d.deletes
        ensures p !in m.Keys
      {
        assert p !in Merge(m, d).Keys;
      }
      forall p | p in d.files.Keys - d.deletes
        ensures p in m.Keys
      {
        assert p in Merge(m, d).Keys;
      }
    }
  }

  /** The finalizer's test for "this delta is already in the stored tree". */
  predicate FastPath(st: Stored, d: Delta)
  {
    HashOf(Rebuild(Merge(LeavesOf(st), d))) == RootHash(st)
  }

  /** The test passes although the stored tree does not hold the delta. */
  ghost predicate FalseFastPath(st: Stored, d: Delta)
  {
    FastPath(st, d) && !Reflects(LeavesOf(st), d)
  }

  /** A delta that is already stored always passes the test, a repository without a tree never does,
      and a passing test is right exactly when the delta keeps the tree's set of paths. */
  lemma FastPathExact(st: Stored, d: Delta)
    ensures st.Nothing? ==> !FastPath(st, d)
    ensures st.Saved? && Reflects(st.leaves, d) ==> FastPath(st, d)
    ensures FastPath(st, d) ==> (Reflects(LeavesOf(st), d) <==> KeepsPaths(LeavesOf(st), d))
  {
    var m := LeavesOf(st);
    MergeReflects(m, d);
    KeepsPathsIsSameKeys(m, d);
    if FastPath(st, d) && KeepsPaths(m, d) {
      RootHashDetermines(Merge(m, d), m);
    }
  }

  /** The test does pass wrongly: the hash covers no names, so moving a file changes nothing in it. */
  lemma RenamePassesFastPath(a: Name, b: Name, sha: Hash)
    requires a != b
    ensures var st, d := Saved(map[[a] := sha]), Delta(map[[b] := sha], {[a]});
            FalseFastPath(st, d) && Merge(st.leaves, d) == map[[b] := sha]
  {
    var st, d := Saved(map[[a] := sha]), Delta(map[[b] := sha], {[a]});
    assert Merge(st.leaves, d) == map[[b] := sha];
    SingleFileHash(a, sha);
    SingleFileHash(b, sha);
  }

  lemma SingleFileBuild(depth: nat, a: Name, sha: Hash)
    requires depth >= 1
    ensures DepthAtMost(map[[a] := sha], depth) && Build(depth, map[[a] := sha]) == [File(a, sha)]
  {
    var m: Leaves := map[[a] := sha];
    var only: Path := [a];
    assert m.Keys == {only} && only[0] == a;
    OneHead(m, only);
    assert forall q: Path :: |[a] + q| > 1;
    assert SubPaths(m, a) == {};
    assert Slot(depth, a, m) == [File(a, sha)];
    assert Kids(depth, [a][1..], m) == [];
  }

  lemma OneHead(m: Leaves, p: Path)
    requires m.Keys == {p}
    ensures InOrder(Heads(m)) == [p[0]]
  {
    assert Heads(m) == {p[0]};
    var r := InOrder({p[0]});
    assert |r| == 1 && r[0] in r;
  }

  lemma SingleFileHash(a: Name, sha: Hash)
    ensures HashOf(Rebuild(map[[a] := sha])) == Rollup([sha])
  {
    var m: Leaves := map[[a] := sha];
    var only: Path := [a];
    assert only in m.Keys;
    SingleFileBuild(MaxDepth(m.Keys), a, sha);
    assert HashAll([File(a, sha)]) == [sha];
  }

  lemma SingleSub(d: Name, f: Name, sha: Hash)
    ensures var m: Leaves := map[[d, f] := sha];
      SubPaths(m, d) == {[f]} && Sub(m, d) == map[[f] := sha]
  {
    var m: Leaves := map[[d, f] := sha];
    var only, rest: Path := [d, f], [f];
    assert [d] + rest == only && only[1..] == rest;
    assert SubPaths(m, d) == {rest} by {
      assert forall q: Path :: [d] + q == only ==> ([d] + q)[1..] == q;
    }
  }

  lemma SingleDirSlot(depth: nat, d: Name, f: Name, sha: Hash)
    requires depth >= 2 && DepthAtMost(map[[d, f] := sha], depth)
    ensures Slot(depth, d, map[[d, f] := sha]) == [Dir(d, [File(f, sha)])]
  {
    SingleSub(d, f, sha);
    SingleFileBuild(depth - 1, f, sha);
    var first, only: Path := [d], [d, f];
    assert |first| != |only|;
  }

  lemma SingleDirBuild(depth: nat, d: Name, f: Name, sha: Hash)
    requires depth >= 2
    ensures DepthAtMost(map[[d, f] := sha], depth) && Build(depth, map[[d, f] := sha]) == [Dir(d, [File(f, sha)])]
  {
    var m: Leaves := map[[d, f] := sha];
    var only: Path := [d, f];
    assert m.Keys == {only} && only[0] == d;
    OneHead(m, only);
    SingleDirSlot(depth, d, f, sha);
    assert Kids(depth, [d][1..], m) == [];
  }

  lemma SingleDirHash(d: Name, f: Name, sha: Hash)
    ensures HashOf(Rebuild(map[[d, f] := sha])) == Rollup([Rollup([sha])])
  {
    var m: Leaves := map[[d, f] := sha];
    var only: Path := [d, f];
    assert only in m.Keys;
    SingleDirBuild(MaxDepth(m.Keys), d, f, sha);
    assert HashAll([File(f, sha)]) == [sha];
    assert HashAll([Dir(d, [File(f, sha)])]) == [Rollup([sha])];
  }

  /** And so does replacing a directory by a file whose bytes are the hash of its only child. */
  lemma ReplacedDirectoryPassesFastPath(d: Name, f: Name, sha: Hash)
    ensures var st, delta := Saved(map[[d, f] := sha]), Delta(map[[d] := Rollup([sha])], {[d, f]});
            FalseFastPath(st, delta) && Merge(st.leaves, delta) == map[[d] := Rollup([sha])]
  {
    var st, delta := Saved(map[[d, f] := sha]), Delta(map[[d] := Rollup([sha])], {[d, f]});
    var file, leaf: Path := [d], [d, f];
    assert |file| != |leaf|;
    assert Merge(st.leaves, delta) == map[file := Rollup([sha])];
    SingleDirHash(d, f, sha);
    SingleFileHash(d, Rollup([sha]));
  }
}
