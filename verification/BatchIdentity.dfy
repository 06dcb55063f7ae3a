/** The text whose SHA-256 is the batch id, as the client writes it (crates/context-sync/src/streamer.rs) and
    as the server recomputes it (services/impl/batch_id.go). */
module BatchIdentity {
  import opened StringOrder
  import opened Packing
  import opened TextLines

  function FileLine(path: string, hash: string): (line: string)
  {
    "file|" + path + "|" + hash
  }

  function DeleteLine(path: string): (line: string)
  {
    "delete|" + path + "|"
  }

  function FileLines(files: seq<FileEntry>): (lines: seq<string>)
    ensures |lines| == |files|
    ensures forall i :: 0 <= i < |files| ==> lines[i] == FileLine(files[i].path, files[i].hash)
  {
    seq(|files|, i requires 0 <= i < |files| => FileLine(files[i].path, files[i].hash))
  }

  function DeleteLines(deletes: seq<string>): (lines: seq<string>)
    ensures |lines| == |deletes|
    ensures forall i :: 0 <= i < |deletes| ==> lines[i] == DeleteLine(deletes[i])
  {
    seq(|deletes|, i requires 0 <= i < |deletes| => DeleteLine(deletes[i]))
  }

  function Join(lines: seq<string>): (text: string)
  {
    if lines == [] then "" else if |lines| == 1 then lines[0] else lines[0] + "\n" + Join(lines[1..])
  }

  function IdText(b: Batch): (text: string)
  {
    Join(Sort(FileLines(b.files) + DeleteLines(b.deletes)))
  }

  /** The client's computation, up to the hash. */
  method DeterministicBatchIdText(b: Batch) returns (text: string)
    ensures text == IdText(b)
  {
    var entries: seq<string> := [];
    for i := 0 to |b.files|
      invariant entries == FileLines(b.files)[..i]
    {
      entries := entries + [FileLine(b.files[i].path, b.files[i].hash)];
    }
    assert entries == FileLines(b.files);
    for i := 0 to |b.deletes|
      invariant entries == FileLines(b.files) + DeleteLines(b.deletes)[..i]
    {
      entries := entries + [DeleteLine(b.deletes[i])];
    }
    assert DeleteLines(b.deletes)[..|b.deletes|] == DeleteLines(b.deletes);
    text := Join(Sort(entries));
  }

  // ---------------------------------------------------------------------------
  // The text determines the batch
  // ---------------------------------------------------------------------------

  /** Lines that Join can be undone for. */
  predicate CleanLines(lines: seq<string>)
  {
    forall i :: 0 <= i < |lines| ==> lines[i] != "" && NoNewline(lines[i])
  }

  lemma BreakAt(a: string, x: string)
    requires NoNewline(a)
    ensures var s := a + "\n" + x; s[|a|] == '\n' && forall i :: 0 <= i < |a| ==> s[i] != '\n'
  {
    forall i | 0 <= i < |a|
      ensures (a + "\n" + x)[i] != '\n'
    {
      assert a[i] in a;
    }
  }

  lemma FirstBreak(a: string, x: string, b: string, y: string)
    requires NoNewline(a) && NoNewline(b) && a + "\n" + x == b + "\n" + y
    ensures a == b && x == y
  {
    BreakAt(a, x);
    BreakAt(b, y);
    var s := a + "\n" + x;
    assert |a| == |b|;
    assert a == s[..|a|] && b == s[..|b|];
    assert x == s[|a| + 1..] && y == s[|b| + 1..];
  }

  lemma BreakInside(b: string, y: string)
    ensures '\n' in b + "\n" + y
  {
    assert (b + "\n" + y)[|b|] == '\n';
  }

  /** Joining clean lines loses nothing. */
  lemma {:induction false} JoinDetermines(a: seq<string>, b: seq<string>)
    requires CleanLines(a) && CleanLines(b) && Join(a) == Join(b)
    ensures a == b
    decreases |a|
  {
    if a != [] && b != [] {
      if |a| > 1 && |b| > 1 {
        FirstBreak(a[0], Join(a[1..]), b[0], Join(b[1..]));
        JoinDetermines(a[1..], b[1..]);
        assert a == [a[0]] + a[1..] && b == [b[0]] + b[1..];
      } else if |a| > 1 {
        BreakInside(a[0], Join(a[1..]));
      } else if |b| > 1 {
        BreakInside(b[0], Join(b[1..]));
      }
    }
  }

  // ---- a line says what it stands for ----

  datatype Op = Put(path: string, hash: string) | Drop(path: string)

  function LineOf(op: Op): (line: string)
  {
    match op
    case Put(path, hash) => FileLine(path, hash)
    case Drop(path) => DeleteLine(path)
  }

  /** A hash is hexadecimal; of a path nothing is asked. */
  predicate ProperOp(op: Op)
  {
    op.Put? ==> NoNewline(op.hash) && '|' !in op.hash
  }

  predicate CleanOp(op: Op)
  {
    ProperOp(op) && NoNewline(op.path)
  }

  lemma SeparatorAt(p: string, h: string)
    requires '|' !in h
    ensures var s := p + "|" + h; s[|p|] == '|' && forall i :: |p| < i < |s| ==> s[i] != '|'
  {
    var s := p + "|" + h;
    forall i | |p| < i < |s|
      ensures s[i] != '|'
    {
      assert s[i] == h[i - |p| - 1] && h[i - |p| - 1] in h;
    }
  }

  /** What follows the last separator is the hash, which has none of its own; what precedes it is the path,
      which may have any number. */
  lemma LastSeparator(p: string, h: string, q: string, k: string)
    requires '|' !in h && '|' !in k && p + "|" + h == q + "|" + k
    ensures p == q && h == k
  {
    SeparatorAt(p, h);
    SeparatorAt(q, k);
    var s := p + "|" + h;
    assert |p| == |q|;
    assert p == s[..|p|] && q == s[..|q|];
    assert h == s[|p| + 1..] && k == s[|q| + 1..];
  }

  lemma LineDetermines(a: Op, b: Op)
    requires ProperOp(a) && ProperOp(b) && LineOf(a) == LineOf(b)
    ensures a == b
  {
    assert LineOf(a)[0] == if a.Put? then 'f' else 'd';
    assert LineOf(b)[0] == if b.Put? then 'f' else 'd';
    var none: string := "";
    match a {
      case Put(path, hash) =>
        assert LineOf(a) == ("file|" + path) + "|" + hash && LineOf(b) == ("file|" + b.path) + "|" + b.hash;
        LastSeparator("file|" + path, hash, "file|" + b.path, b.hash);
        assert ("file|" + path)[5..] == path && ("file|" + b.path)[5..] == b.path;
      case Drop(path) =>
        assert LineOf(a) == ("delete|" + path) + "|" + none && LineOf(b) == ("delete|" + b.path) + "|" + none;
        LastSeparator("delete|" + path, none, "delete|" + b.path, none);
        assert ("delete|" + path)[7..] == path && ("delete|" + b.path)[7..] == b.path;
    }
  }

  lemma LineIsClean(op: Op)
    requires CleanOp(op)
    ensures LineOf(op) != "" && NoNewline(LineOf(op))
  {
  }

  // ---- batches as bags of operations ----

  function OpsOf(b: Batch): (ops: seq<Op>)
  {
    seq(|b.files|, i requires 0 <= i < |b.files| => Put(b.files[i].path, b.files[i].hash))
    + seq(|b.deletes|, i requires 0 <= i < |b.deletes| => Drop(b.deletes[i]))
  }

  function LinesOf(ops: seq<Op>): (lines: seq<string>)
    ensures |lines| == |ops| && forall i :: 0 <= i < |ops| ==> lines[i] == LineOf(ops[i])
  {
    seq(|ops|, i requires 0 <= i < |ops| => LineOf(ops[i]))
  }

  predicate ProperOps(ops: seq<Op>)
  {
    forall i :: 0 <= i < |ops| ==> ProperOp(ops[i])
  }

  predicate CleanOps(ops: seq<Op>)
  {
    forall i :: 0 <= i < |ops| ==> CleanOp(ops[i])
  }

  lemma LinesAppend(a: seq<Op>, b: seq<Op>)
    ensures LinesOf(a + b) == LinesOf(a) + LinesOf(b)
  {
  }

  lemma CountLast<T>(init: seq<T>, last: T, x: T)
    ensures multiset(init + [last])[x] == multiset(init)[x] + if last == x then 1 else 0
  {
  }

  lemma CountNext(init: seq<Op>, last: Op, op: Op)
    requires multiset(LinesOf(init))[LineOf(op)] == multiset(init)[op]
    requires LineOf(last) == LineOf(op) ==> last == op
    ensures multiset(LinesOf(init + [last]))[LineOf(op)] == multiset(init + [last])[op]
  {
    LinesAppend(init, [last]);
    assert LinesOf([last]) == [LineOf(last)];
    CountLast(LinesOf(init), LineOf(last), LineOf(op));
    CountLast(init, last, op);
  }

  lemma SameLineSameOp(a: Op, b: Op)
    requires ProperOp(a) && ProperOp(b)
    ensures LineOf(a) == LineOf(b) ==> a == b
  {
    if LineOf(a) == LineOf(b) {
      LineDetermines(a, b);
    }
  }

  lemma {:induction false} CountLines(ops: seq<Op>, op: Op)
    requires ProperOps(ops) && ProperOp(op)
    ensures multiset(LinesOf(ops))[LineOf(op)] == multiset(ops)[op]
  {
    if ops == [] {
      assert LinesOf(ops) == [];
    } else {
      var init, last := ops[..|ops| - 1], ops[|ops| - 1];
      assert ops == init + [last];
      CountLines(init, op);
      SameLineSameOp(last, op);
      CountNext(init, last, op);
    }
  }

  /** The lines agree up to order exactly when the operations do. */
  lemma SameLines(a: seq<Op>, b: seq<Op>)
    requires ProperOps(a) && ProperOps(b)
    ensures multiset(LinesOf(a)) == multiset(LinesOf(b)) <==> multiset(a) == multiset(b)
  {
    if multiset(LinesOf(a)) == multiset(LinesOf(b)) {
      forall op
        ensures multiset(a)[op] == multiset(b)[op]
      {
        if ProperOp(op) {
          CountLines(a, op);
          CountLines(b, op);
        }
      }
    }
    if multiset(a) == multiset(b) {
      SameOpsSameLines(a, b);
    }
  }

  lemma LinesWithout(a: seq<Op>, op: Op, b: seq<Op>)
    ensures multiset(LinesOf(a + ([op] + b))) == multiset(LinesOf(a + b)) + multiset{LineOf(op)}
  {
    LinesAppend(a, [op] + b);
    LinesAppend([op], b);
    LinesAppend(a, b);
    assert LinesOf([op]) == [LineOf(op)];
  }

  lemma OpsWithout(a: seq<Op>, op: Op, b: seq<Op>)
    ensures multiset(a + ([op] + b)) == multiset(a + b) + multiset{op}
  {
  }

  /** One operation fewer, one line fewer. */
  lemma OneFewer(ops: seq<Op>, op: Op) returns (rest: seq<Op>)
    requires op in multiset(ops)
    ensures |rest| == |ops| - 1
    ensures multiset(ops) == multiset(rest) + multiset{op}
    ensures multiset(LinesOf(ops)) == multiset(LinesOf(rest)) + multiset{LineOf(op)}
  {
    var i :| 0 <= i < |ops| && ops[i] == op;
    var before, after := ops[..i], ops[i + 1..];
    rest := before + after;
    assert ops == before + ([op] + after);
    OpsWithout(before, op, after);
    LinesWithout(before, op, after);
  }

  lemma Cancel<T>(x: multiset<T>, y: multiset<T>, e: T)
    requires x + multiset{e} == y + multiset{e}
    ensures x == y
  {
    assert x == (x + multiset{e}) - multiset{e};
    assert y == (y + multiset{e}) - multiset{e};
  }

  lemma NoneOnly<T>(b: seq<T>)
    requires multiset(b) == multiset{}
    ensures b == []
  {
    assert |multiset(b)| == |b|;
  }

  /** Whatever the paths hold. */
  lemma {:induction false} SameOpsSameLines(a: seq<Op>, b: seq<Op>)
    requires multiset(a) == multiset(b)
    ensures multiset(LinesOf(a)) == multiset(LinesOf(b))
    decreases |a|
  {
    if a == [] {
      NoneOnly(b);
    } else {
      var op := a[0];
      assert op in multiset(a);
      var restA := OneFewer(a, op);
      var restB := OneFewer(b, op);
      Cancel(multiset(restA), multiset(restB), op);
      SameOpsSameLines(restA, restB);
    }
  }

  lemma SortedLinesClean(ops: seq<Op>)
    requires CleanOps(ops)
    ensures CleanLines(Sort(LinesOf(ops)))
  {
    var lines := LinesOf(ops);
    SortSorts(lines);
    forall i | 0 <= i < |Sort(lines)|
      ensures Sort(lines)[i] != "" && NoNewline(Sort(lines)[i])
    {
      assert Sort(lines)[i] in multiset(lines);
      var j :| 0 <= j < |lines| && lines[j] == Sort(lines)[i];
      LineIsClean(ops[j]);
    }
  }

  lemma TextOfOps(b: Batch)
    ensures IdText(b) == Join(Sort(LinesOf(OpsOf(b))))
  {
    assert LinesOf(OpsOf(b)) == FileLines(b.files) + DeleteLines(b.deletes);
  }

  lemma SortedTextDetermines(a: seq<Op>, b: seq<Op>)
    requires CleanOps(a) && CleanOps(b)
    ensures Join(Sort(LinesOf(a))) == Join(Sort(LinesOf(b))) <==> Sort(LinesOf(a)) == Sort(LinesOf(b))
  {
    SortedLinesClean(a);
    SortedLinesClean(b);
    if Join(Sort(LinesOf(a))) == Join(Sort(LinesOf(b))) {
      JoinDetermines(Sort(LinesOf(a)), Sort(LinesOf(b)));
    }
  }

  /** The pre-hash text is canonical: for newline-free paths, and hashes free of newlines and separators, two
      batches have the same text exactly when they hold the same operations up to order. */
  lemma IdTextIsCanonical(a: Batch, b: Batch)
    requires CleanOps(OpsOf(a)) && CleanOps(OpsOf(b))
    ensures IdText(a) == IdText(b) <==> multiset(OpsOf(a)) == multiset(OpsOf(b))
  {
    TextOfOps(a);
    TextOfOps(b);
    SameLines(OpsOf(a), OpsOf(b));
    SortForgetsOrder(LinesOf(OpsOf(a)), LinesOf(OpsOf(b)));
    SortedTextDetermines(OpsOf(a), OpsOf(b));
  }

  /** The server formats every entry as "<op>|<path>|<hash>", a delete with an empty hash, in the order of
      the request body, and sorts as well: it gets the client's text from any order of the entries. */
  function ServerLine(op: Op): (line: string)
  {
    match op
    case Put(path, hash) => "file" + "|" + path + "|" + hash
    case Drop(path) => "delete" + "|" + path + "|" + ""
  }

  function ServerText(ops: seq<Op>): (text: string)
  {
    Join(Sort(seq(|ops|, i requires 0 <= i < |ops| => ServerLine(ops[i]))))
  }

  lemma ServerAgrees(b: Batch, entries: seq<Op>)
    requires multiset(entries) == multiset(OpsOf(b))
    ensures ServerText(entries) == IdText(b)
  {
    forall op
      ensures ServerLine(op) == LineOf(op)
    {
      var none: string := "";
      assert "file" + "|" == "file|" && "delete" + "|" == "delete|";
      assert "delete|" + op.path + "|" + none == "delete|" + op.path + "|";
    }
    assert seq(|entries|, i requires 0 <= i < |entries| => ServerLine(entries[i])) == LinesOf(entries);
    assert LinesOf(OpsOf(b)) == FileLines(b.files) + DeleteLines(b.deletes);
    SameOpsSameLines(entries, OpsOf(b));
    SortForgetsOrder(LinesOf(entries), LinesOf(OpsOf(b)));
  }
}
