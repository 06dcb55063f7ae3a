/** Which batches share their id text with a different batch. A path is any string, so it can hold newlines, and a
    text can then be read as the lines of operations in more than one way. */
module BatchConfusion {
  import opened StringOrder
  import opened Packing
  import opened TextLines
  import opened BatchIdentity

  // ---------------------------------------------------------------------------
  // Splitting a text, and its operation lines, at newlines
  // ---------------------------------------------------------------------------

  lemma {:induction false} JoinSplit(s: string)
    ensures Join(Split(s)) == s
    decreases |s|
  {
    var i := LineEnd(s);
    if i < |s| {
      BreakApart(s, i);
      var rest := Split(s[i + 1..]);
      JoinSplit(s[i + 1..]);
      JoinCons(s[..i], rest);
    }
  }

  lemma JoinCons(line: string, rest: seq<string>)
    requires rest != []
    ensures Join([line] + rest) == line + "\n" + Join(rest)
  {
    assert ([line] + rest)[1..] == rest;
  }

  /** The lines that a list of strings makes when it is joined. */
  function Flat(parts: seq<string>): (lines: seq<string>)
  {
    if parts == [] then [] else Split(parts[0]) + Flat(parts[1..])
  }

  lemma {:induction false} SplitJoin(parts: seq<string>)
    requires parts != []
    ensures Split(Join(parts)) == Flat(parts)
  {
    if |parts| == 1 {
      assert Flat(parts[1..]) == [];
    } else {
      SplitJoin(parts[1..]);
      SplitAcross(parts[0], Join(parts[1..]));
    }
  }

  // ---------------------------------------------------------------------------
  // When two batches have one text
  // ---------------------------------------------------------------------------

  /** The operation lines of a batch, in the order in which they are joined. */
  function SortedLines(b: Batch): (lines: seq<string>)
  {
    Sort(LinesOf(OpsOf(b)))
  }

  /** The line of some operation; its path may hold anything. */
  ghost predicate IsOpLine(line: string)
  {
    exists op :: ProperOp(op) && LineOf(op) == line
  }

  ghost predicate AreOpLines(lines: seq<string>)
  {
    forall i :: 0 <= i < |lines| ==> IsOpLine(lines[i])
  }

  lemma LinesSorted(b: Batch)
    requires ProperOps(OpsOf(b))
    ensures Sorted(SortedLines(b)) && AreOpLines(SortedLines(b))
    ensures multiset(SortedLines(b)) == multiset(LinesOf(OpsOf(b)))
    ensures |SortedLines(b)| == |OpsOf(b)|
  {
    var ops := OpsOf(b);
    SortSorts(LinesOf(ops));
    assert |SortedLines(b)| == |multiset(SortedLines(b))| == |LinesOf(ops)|;
    forall i | 0 <= i < |SortedLines(b)|
      ensures IsOpLine(SortedLines(b)[i])
    {
      assert SortedLines(b)[i] in multiset(LinesOf(ops));
      var j :| 0 <= j < |ops| && LinesOf(ops)[j] == SortedLines(b)[i];
      assert ProperOp(ops[j]) && LineOf(ops[j]) == SortedLines(b)[i];
    }
  }

  lemma SameBatch(a: Batch, b: Batch)
    requires ProperOps(OpsOf(a)) && ProperOps(OpsOf(b))
    ensures SortedLines(a) == SortedLines(b) <==> multiset(OpsOf(a)) == multiset(OpsOf(b))
  {
    SameLines(OpsOf(a), OpsOf(b));
    SortForgetsOrder(LinesOf(OpsOf(a)), LinesOf(OpsOf(b)));
  }

  /** Two non-empty batches have the same text exactly if their operation lines make the same lines. */
  lemma SameTextIff(a: Batch, b: Batch)
    requires OpsOf(a) != [] && OpsOf(b) != []
    ensures IdText(a) == IdText(b) <==> Flat(SortedLines(a)) == Flat(SortedLines(b))
  {
    TextOfOps(a);
    TextOfOps(b);
    NotEmpty(a);
    NotEmpty(b);
    SplitJoin(SortedLines(a));
    SplitJoin(SortedLines(b));
    JoinSplit(IdText(a));
    JoinSplit(IdText(b));
  }

  lemma NotEmpty(b: Batch)
    requires OpsOf(b) != []
    ensures SortedLines(b) != []
  {
    SortSorts(LinesOf(OpsOf(b)));
    assert |multiset(LinesOf(OpsOf(b)))| == |OpsOf(b)|;
    assert |multiset(SortedLines(b))| == |SortedLines(b)|;
  }

  /** The empty text is that of the empty batch only. */
  lemma EmptyText(b: Batch)
    requires ProperOps(OpsOf(b))
    ensures IdText(b) == "" <==> OpsOf(b) == []
  {
    TextOfOps(b);
    LinesSorted(b);
    if OpsOf(b) != [] {
      assert IsOpLine(SortedLines(b)[0]);
    }
  }

  // ---------------------------------------------------------------------------
  // Reading a text in another way
  // ---------------------------------------------------------------------------

  function Concat(groups: seq<seq<string>>): (lines: seq<string>)
  {
    if groups == [] then [] else groups[0] + Concat(groups[1..])
  }

  function JoinAll(groups: seq<seq<string>>): (parts: seq<string>)
  {
    seq(|groups|, i requires 0 <= i < |groups| => Join(groups[i]))
  }

  function SplitAll(parts: seq<string>): (groups: seq<seq<string>>)
  {
    seq(|parts|, i requires 0 <= i < |parts| => Split(parts[i]))
  }

  /** A way to read a text as operation lines: its lines in consecutive groups, each joined again to the line of
      an operation, in order. */
  ghost predicate Reads(groups: seq<seq<string>>, text: string)
  {
    && Concat(groups) == Split(text)
    && (forall i :: 0 <= i < |groups| ==> groups[i] != [])
    && Sorted(JoinAll(groups)) && AreOpLines(JoinAll(groups))
  }

  lemma {:induction false} ConcatSplit(parts: seq<string>)
    ensures Concat(SplitAll(parts)) == Flat(parts)
  {
    if parts != [] {
      ConcatSplit(parts[1..]);
      assert SplitAll(parts)[1..] == SplitAll(parts[1..]);
    }
  }

  lemma JoinSplitAll(parts: seq<string>)
    ensures JoinAll(SplitAll(parts)) == parts
  {
    forall i | 0 <= i < |parts|
      ensures JoinAll(SplitAll(parts))[i] == parts[i]
    {
      JoinSplit(parts[i]);
    }
  }

  predicate AllNoNewline(lines: seq<string>)
  {
    forall i :: 0 <= i < |lines| ==> NoNewline(lines[i])
  }

  lemma {:induction false} FlatOfLines(lines: seq<string>)
    requires AllNoNewline(lines)
    ensures Flat(lines) == lines
  {
    if lines != [] {
      var first, rest := lines[0], lines[1..];
      SplitFirst(first, "");
      FlatOfLines(rest);
      assert lines == [first] + rest;
    }
  }

  lemma SplitJoinLines(lines: seq<string>)
    requires lines != [] && AllNoNewline(lines)
    ensures Split(Join(lines)) == lines
  {
    SplitJoin(lines);
    FlatOfLines(lines);
  }

  lemma Parts<T>(a: seq<T>, b: seq<T>, whole: seq<T>)
    requires whole == a + b
    ensures forall i :: 0 <= i < |a| ==> a[i] == whole[i]
    ensures forall i :: 0 <= i < |b| ==> b[i] == whole[|a| + i]
  {
  }

  lemma {:induction false} FlatJoinAll(groups: seq<seq<string>>)
    requires AllNoNewline(Concat(groups)) && forall i :: 0 <= i < |groups| ==> groups[i] != []
    ensures Flat(JoinAll(groups)) == Concat(groups)
  {
    if groups != [] {
      Parts(groups[0], Concat(groups[1..]), Concat(groups));
      SplitJoinLines(groups[0]);
      FlatJoinAll(groups[1..]);
      assert JoinAll(groups)[1..] == JoinAll(groups[1..]);
    }
  }

  /** A reading gives the text back. */
  lemma ReadingJoins(groups: seq<seq<string>>, text: string)
    requires Reads(groups, text)
    ensures JoinAll(groups) != [] && Join(JoinAll(groups)) == text
  {
    FlatJoinAll(groups);
    assert groups != [];
    SplitJoin(JoinAll(groups));
    JoinSplit(Join(JoinAll(groups)));
    JoinSplit(text);
  }

  // ---- from lines to batches ----

  function Added(b: Batch, op: Op): (r: Batch)
  {
    match op
    case Put(path, hash) => Batch(b.files + [FileEntry(path, hash, 0)], b.deletes)
    case Drop(path) => Batch(b.files, b.deletes + [path])
  }

  lemma AddedOps(b: Batch, op: Op)
    ensures multiset(OpsOf(Added(b, op))) == multiset(OpsOf(b)) + multiset{op}
  {
    var files := seq(|b.files|, i requires 0 <= i < |b.files| => Put(b.files[i].path, b.files[i].hash));
    var deletes := seq(|b.deletes|, i requires 0 <= i < |b.deletes| => Drop(b.deletes[i]));
    assert OpsOf(b) == files + deletes;
    assert OpsOf(Added(b, op)) == if op.Put? then files + [op] + deletes else files + (deletes + [op]);
  }

  lemma ProperByElements(a: seq<Op>, b: seq<Op>, op: Op)
    requires ProperOps(a) && ProperOp(op) && multiset(b) == multiset(a) + multiset{op}
    ensures ProperOps(b) && multiset(LinesOf(b)) == multiset(LinesOf(a)) + multiset{LineOf(op)}
  {
    forall i | 0 <= i < |b|
      ensures ProperOp(b[i])
    {
      assert b[i] in multiset(b);
    }
    SameOpsSameLines(b, a + [op]);
    assert LinesOf(a + [op]) == LinesOf(a) + [LineOf(op)];
  }

  lemma {:induction false} BatchOfLines(lines: seq<string>) returns (b: Batch)
    requires AreOpLines(lines)
    ensures ProperOps(OpsOf(b)) && multiset(LinesOf(OpsOf(b))) == multiset(lines)
  {
    if lines == [] {
      b := Batch([], []);
    } else {
      var init, last := lines[..|lines| - 1], lines[|lines| - 1];
      assert lines == init + [last];
      b := BatchOfLines(init);
      var op :| ProperOp(op) && LineOf(op) == last;
      AddedOps(b, op);
      ProperByElements(OpsOf(b), OpsOf(Added(b, op)), op);
      b := Added(b, op);
    }
  }

  /** Every reading is that of a batch. */
  lemma BatchOfReading(groups: seq<seq<string>>, text: string) returns (b: Batch)
    requires Reads(groups, text)
    ensures ProperOps(OpsOf(b)) && SortedLines(b) == JoinAll(groups) && IdText(b) == text
  {
    var lines := JoinAll(groups);
    b := BatchOfLines(lines);
    SortSorts(LinesOf(OpsOf(b)));
    SortedIsCanonical(SortedLines(b), lines);
    ReadingJoins(groups, text);
    TextOfOps(b);
  }

  /** And every batch is a reading of its text. */
  lemma ReadingOfBatch(b: Batch)
    requires ProperOps(OpsOf(b)) && OpsOf(b) != []
    ensures Reads(SplitAll(SortedLines(b)), IdText(b)) && JoinAll(SplitAll(SortedLines(b))) == SortedLines(b)
  {
    LinesSorted(b);
    NotEmpty(b);
    TextOfOps(b);
    SplitJoin(SortedLines(b));
    ConcatSplit(SortedLines(b));
    JoinSplitAll(SortedLines(b));
  }

  // ---------------------------------------------------------------------------
  // Which batches are confusable
  // ---------------------------------------------------------------------------

  /** Another batch, with other operations, that has this text. */
  ghost predicate Rivals(b: Batch, a: Batch)
  {
    ProperOps(OpsOf(b)) && IdText(b) == IdText(a) && multiset(OpsOf(b)) != multiset(OpsOf(a))
  }

  /** A way to read the text of a batch other than its own. */
  ghost predicate ReadsOtherwise(groups: seq<seq<string>>, a: Batch)
  {
    Reads(groups, IdText(a)) && JoinAll(groups) != SortedLines(a)
  }

  /** A batch shares its id text with a different batch if and only if its text can be read in another way: its
      lines grouped differently into the lines of operations, in order. There are finitely many groupings. */
  lemma ConfusableIff(a: Batch)
    requires ProperOps(OpsOf(a)) && OpsOf(a) != []
    ensures (exists b :: Rivals(b, a)) <==> exists groups :: ReadsOtherwise(groups, a)
  {
    if b :| Rivals(b, a) {
      EmptyText(a);
      EmptyText(b);
      ReadingOfBatch(b);
      SameBatch(a, b);
      assert ReadsOtherwise(SplitAll(SortedLines(b)), a);
    } else if groups :| ReadsOtherwise(groups, a) {
      var b := BatchOfReading(groups, IdText(a));
      SameBatch(a, b);
      assert Rivals(b, a);
    }
  }

  // ---- a newline-free partner ----

  /** Every line by itself. */
  function Singles(lines: seq<string>): (groups: seq<seq<string>>)
  {
    seq(|lines|, i requires 0 <= i < |lines| => [lines[i]])
  }

  /** Some batch of newline-free paths has this text. */
  ghost predicate Explains(b: Batch, text: string)
  {
    CleanOps(OpsOf(b)) && IdText(b) == text
  }

  lemma CleanLine(op: Op)
    requires ProperOp(op) && NoNewline(LineOf(op))
    ensures CleanOp(op)
  {
    var n := if op.Put? then 5 else 7;
    forall c | c in op.path
      ensures c in LineOf(op)
    {
      var i :| 0 <= i < |op.path| && op.path[i] == c;
      assert LineOf(op)[n + i] == c;
    }
  }

  lemma CleanLinesCleanOps(b: Batch)
    requires ProperOps(OpsOf(b)) && AllNoNewline(SortedLines(b))
    ensures CleanOps(OpsOf(b))
  {
    LinesSorted(b);
    var ops := OpsOf(b);
    forall i | 0 <= i < |ops|
      ensures CleanOp(ops[i])
    {
      assert LinesOf(ops)[i] in multiset(LinesOf(ops));
      assert LineOf(ops[i]) in multiset(SortedLines(b));
      var j :| 0 <= j < |SortedLines(b)| && SortedLines(b)[j] == LineOf(ops[i]);
      CleanLine(ops[i]);
    }
  }

  lemma SinglesJoin(lines: seq<string>)
    ensures JoinAll(Singles(lines)) == lines
  {
  }

  lemma {:induction false} SinglesOfLines(lines: seq<string>)
    requires AllNoNewline(lines)
    ensures SplitAll(lines) == Singles(lines)
  {
    forall i | 0 <= i < |lines|
      ensures Split(lines[i]) == [lines[i]]
    {
      SplitFirst(lines[i], "");
    }
  }

  /** The text is that of a batch of newline-free paths exactly if every line by itself is a reading. */
  lemma CleanPartnerIff(a: Batch)
    requires ProperOps(OpsOf(a)) && OpsOf(a) != []
    ensures (exists b :: Explains(b, IdText(a))) <==> Reads(Singles(Split(IdText(a))), IdText(a))
  {
    var text := IdText(a);
    if b :| Explains(b, text) {
      EmptyText(a);
      EmptyText(b);
      ReadingOfBatch(b);
      SortedLinesClean(OpsOf(b));
      SinglesOfLines(SortedLines(b));
      SplitJoinLines(SortedLines(b));
      TextOfOps(b);
    } else if Reads(Singles(Split(text)), text) {
      var b := BatchOfReading(Singles(Split(text)), text);
      SinglesJoin(Split(text));
      CleanLinesCleanOps(b);
      assert Explains(b, text);
    }
  }

  // ---- every batch of two files or more ----

  lemma PrefixLeq(a: string, b: string)
    ensures Leq(a, a + b)
    decreases |a|
  {
    if a != [] {
      assert (a + b)[1..] == a[1..] + b;
      PrefixLeq(a[1..], b);
    }
  }

  lemma FileLineStarts(op: Op)
    ensures LineOf(op)[0] == if op.Put? then 'f' else 'd'
  {
  }

  predicate FileStart(line: string)
  {
    line != "" && line[0] == 'f'
  }

  lemma TwoAreNotOne<T>(s: seq<T>, x: T, y: T, rest: multiset<T>)
    requires s != [] && multiset(s) == multiset{x} + multiset{y} + rest
    ensures x in s[..|s| - 1] || y in s[..|s| - 1]
  {
    var init, last := s[..|s| - 1], s[|s| - 1];
    assert s == init + [last];
    assert multiset(s) == multiset(init) + multiset{last};
    if x == y {
      assert multiset(s)[x] >= 2;
      assert multiset(init)[x] >= 1;
    } else {
      assert multiset(s)[x] >= 1 && multiset(s)[y] >= 1;
      assert multiset(init)[x] >= 1 || multiset(init)[y] >= 1;
    }
  }

  /** Delete lines come first, so that with two files the last two lines are those of files. */
  lemma LastTwoAreFiles(b: Batch)
    requires ProperOps(OpsOf(b)) && |b.files| >= 2
    ensures |SortedLines(b)| >= 2
    ensures FileStart(SortedLines(b)[|SortedLines(b)| - 2]) && FileStart(SortedLines(b)[|SortedLines(b)| - 1])
  {
    var s, ops := SortedLines(b), OpsOf(b);
    LinesSorted(b);
    var i := EarlyFile(ops, s);
    StartsLater(s, i, |s| - 2);
    StartsLater(s, i, |s| - 1);
  }

  /** Some file line is not the last one. */
  lemma EarlyFile(ops: seq<Op>, s: seq<string>) returns (i: nat)
    requires |ops| >= 2 && ops[0].Put? && ops[1].Put? && multiset(s) == multiset(LinesOf(ops)) && |s| == |ops|
    ensures i < |s| - 1 && FileStart(s[i])
  {
    var x, y, others := LineOf(ops[0]), LineOf(ops[1]), LinesOf(ops)[2..];
    FileLineStarts(ops[0]);
    FileLineStarts(ops[1]);
    assert LinesOf(ops) == [x] + [y] + others;
    TwoAreNotOne(s, x, y, multiset(others));
    var line := if x in s[..|s| - 1] then x else y;
    i :| 0 <= i < |s| - 1 && s[i] == line;
  }

  lemma StartsLater(s: seq<string>, i: nat, j: nat)
    requires Sorted(s) && AreOpLines(s) && i <= j < |s| && FileStart(s[i])
    ensures FileStart(s[j])
  {
    assert i < j ==> Leq(s[i], s[j]);
    assert IsOpLine(s[j]);
    var op :| ProperOp(op) && LineOf(op) == s[j];
    FileLineStarts(op);
  }

  lemma LongLine(p: string, h: string, q: string, k: string)
    ensures FileLine(p + "|" + h + "\nfile|" + q, k) == FileLine(p, h) + "\n" + FileLine(q, k)
  {
    assert "\nfile|" == "\n" + "file|";
  }

  lemma MergedIsOpLine(path: string, hash: string)
    requires ProperOp(Put(path, hash))
    ensures IsOpLine(FileLine(path, hash))
  {
    assert LineOf(Put(path, hash)) == FileLine(path, hash);
  }

  /** Two file lines joined by a newline are a file line. */
  lemma JoinedFileLine(x: string, y: string)
    requires IsOpLine(x) && IsOpLine(y) && FileStart(x) && FileStart(y)
    ensures IsOpLine(x + "\n" + y)
  {
    var p :| ProperOp(p) && LineOf(p) == x;
    var q :| ProperOp(q) && LineOf(q) == y;
    FileLineStarts(p);
    FileLineStarts(q);
    LongLine(p.path, p.hash, q.path, q.hash);
    MergedIsOpLine(p.path + "|" + p.hash + "\nfile|" + q.path, q.hash);
  }

  lemma FlatMerged(init: seq<string>, x: string, y: string)
    ensures Flat(init + [x + "\n" + y]) == Flat(init + [x, y])
  {
    SplitAcross(x, y);
    FlatOne(x + "\n" + y);
    FlatOne(y);
    FlatAppend([x], [y]);
    FlatOne(x);
    assert [x, y] == [x] + [y];
    FlatAppend(init, [x + "\n" + y]);
    FlatAppend(init, [x, y]);
  }

  lemma FlatOne(x: string)
    ensures Flat([x]) == Split(x)
  {
    assert [x][1..] == [];
  }

  lemma SortedMerged(init: seq<string>, x: string, y: string)
    requires Sorted(init + [x, y])
    ensures Sorted(init + [x + "\n" + y])
  {
    var s, line := init + [x, y], x + "\n" + y;
    assert line == x + ("\n" + y);
    PrefixLeq(x, "\n" + y);
    forall i | 0 <= i < |init|
      ensures Leq(init[i], line)
    {
      assert s[i] == init[i] && s[|init|] == x;
      LeqTransitive(init[i], x, line);
    }
    forall i, j | 0 <= i < j < |init|
      ensures Leq(init[i], init[j])
    {
      assert s[i] == init[i] && s[j] == init[j];
    }
  }

  lemma MergeLast(s: seq<string>, init: seq<string>, x: string, y: string)
    requires Sorted(s) && AreOpLines(s) && s == init + [x, y] && FileStart(x) && FileStart(y)
    ensures var merged := init + [x + "\n" + y];
      Sorted(merged) && AreOpLines(merged) && Flat(merged) == Flat(s)
  {
    assert s[|init|] == x && s[|init| + 1] == y;
    assert forall i :: 0 <= i < |init| ==> s[i] == init[i];
    JoinedFileLine(x, y);
    SortedMerged(init, x, y);
    FlatMerged(init, x, y);
  }

  lemma {:induction false} FlatAppend(a: seq<string>, b: seq<string>)
    ensures Flat(a + b) == Flat(a) + Flat(b)
  {
    if a == [] {
      assert a + b == b;
    } else {
      assert (a + b)[0] == a[0] && (a + b)[1..] == a[1..] + b;
      FlatAppend(a[1..], b);
    }
  }

  /** Every batch with two files or more has a rival, newline-free or not: a batch in which one path holds the
      two last lines. */
  lemma TwoFilesConfuse(a: Batch)
    requires ProperOps(OpsOf(a)) && |a.files| >= 2
    ensures exists b :: Rivals(b, a)
  {
    var s := SortedLines(a);
    LinesSorted(a);
    LastTwoAreFiles(a);
    var init, x, y := s[..|s| - 2], s[|s| - 2], s[|s| - 1];
    assert s == init + [x, y];
    var merged := init + [x + "\n" + y];
    MergeLast(s, init, x, y);
    var groups := SplitAll(merged);
    TextOfOps(a);
    SplitJoin(s);
    ConcatSplit(merged);
    JoinSplitAll(merged);
    assert |merged| == |s| - 1;
    assert ReadsOtherwise(groups, a);
    ConfusableIff(a);
  }

  /** For two files it is this one; no path is named twice in either batch if the two differ. */
  lemma NewlineConfuses(p: string, h: string, q: string, k: string)
    requires NoNewline(h) && '|' !in h && NoNewline(k) && '|' !in k && Leq(FileLine(p, h), FileLine(q, k))
    ensures var a := Batch([FileEntry(p, h, 0), FileEntry(q, k, 0)], []);
      var b := Batch([FileEntry(p + "|" + h + "\nfile|" + q, k, 0)], []);
      Rivals(b, a)
  {
    var a := Batch([FileEntry(p, h, 0), FileEntry(q, k, 0)], []);
    var b := Batch([FileEntry(p + "|" + h + "\nfile|" + q, k, 0)], []);
    var x, y := FileLine(p, h), FileLine(q, k);
    var long := FileLine(p + "|" + h + "\nfile|" + q, k);
    assert FileLines(a.files) + DeleteLines(a.deletes) == [x, y];
    assert FileLines(b.files) + DeleteLines(b.deletes) == [long];
    SortTwo(x, y);
    SortOne(long);
    LongLine(p, h, q, k);
    assert |OpsOf(a)| == 2 && |OpsOf(b)| == 1;
    assert |multiset(OpsOf(a))| == 2 && |multiset(OpsOf(b))| == 1;
  }

  lemma SortOne(line: string)
    ensures Sort([line]) == [line] && Join([line]) == line
  {
    assert [line][1..] == [];
  }

  lemma SortTwo(x: string, y: string)
    requires Leq(x, y)
    ensures Sort([x, y]) == [x, y] && Join([x, y]) == x + "\n" + y
  {
    SortOne(y);
    assert [x, y][1..] == [y];
  }

  /** And a pair of which neither has a newline-free partner: with `p` and `q` in one path and `r` in the other,
      or all three in one. */
  lemma NoCleanPartner()
    ensures var a := Batch([FileEntry("p\nq", "h", 0), FileEntry("r", "h", 0)], []);
      (exists b :: Rivals(b, a)) && !exists b :: Explains(b, IdText(a))
  {
    var a := Batch([FileEntry("p\nq", "h", 0), FileEntry("r", "h", 0)], []);
    assert OpsOf(a) == [Put("p\nq", "h"), Put("r", "h")];
    TwoFilesConfuse(a);
    CleanPartnerIff(a);
    var lines := Split(IdText(a));
    SecondLine(a);
    SinglesJoin(lines);
    NoOpLine("q|h");
  }

  lemma SecondLine(a: Batch)
    requires a == Batch([FileEntry("p\nq", "h", 0), FileEntry("r", "h", 0)], [])
    ensures |Split(IdText(a))| > 1 && Split(IdText(a))[1] == "q|h"
  {
    var x, y := FileLine("p\nq", "h"), FileLine("r", "h");
    assert FileLines(a.files) + DeleteLines(a.deletes) == [x, y];
    assert x == "file|" + ("p\nq" + "|" + "h") && y == "file|" + ("r" + "|" + "h");
    FileLinesInOrder("p\nq" + "|" + "h", "r" + "|" + "h");
    SortTwo(x, y);
    FirstTwo(x);
    SplitAcross(x, y);
  }

  lemma FirstTwo(x: string)
    requires x == FileLine("p\nq", "h")
    ensures Split(x) == ["file|p", "q|h"]
  {
    assert x == "file|p" + "\n" + "q|h";
    assert NoNewline("file|p") && NoNewline("q|h");
    SplitFirst("file|p", "q|h");
    SplitFirst("q|h", "");
  }

  lemma NoOpLine(line: string)
    requires line != "" && line[0] != 'f' && line[0] != 'd'
    ensures !IsOpLine(line)
  {
    forall op
      ensures LineOf(op) != line
    {
      FileLineStarts(op);
    }
  }

  lemma FileLinesInOrder(x: string, y: string)
    requires Leq(x, y)
    ensures Leq("file|" + x, "file|" + y)
  {
    CommonStart("file|", x, y);
  }

  lemma {:induction false} CommonStart(start: string, x: string, y: string)
    requires Leq(x, y)
    ensures Leq(start + x, start + y)
  {
    if start == "" {
      assert start + x == x && start + y == y;
    } else {
      assert (start + x)[1..] == start[1..] + x && (start + y)[1..] == start[1..] + y;
      CommonStart(start[1..], x, y);
    }
  }
}
