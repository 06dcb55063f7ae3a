/** A text cut at its newlines. */
module TextLines {
  predicate NoNewline(s: string)
  {
    '\n' !in s
  }

  function LineEnd(s: string): (i: nat)
    ensures i <= |s| && (forall k :: 0 <= k < i ==> s[k] != '\n') && (i < |s| ==> s[i] == '\n')
  {
    if s == "" || s[0] == '\n' then 0 else 1 + LineEnd(s[1..])
  }

  /** What is between the newlines of a text, before the first and after the last. */
  function Split(s: string): (lines: seq<string>)
    ensures lines != [] && forall i :: 0 <= i < |lines| ==> NoNewline(lines[i])
    decreases |s|
  {
    var i := LineEnd(s);
    if i == |s| then [s] else [s[..i]] + Split(s[i + 1..])
  }

  lemma BreakApart(s: string, i: nat)
    requires i < |s| && s[i] == '\n'
    ensures s == s[..i] + "\n" + s[i + 1..]
  {
  }

  lemma LineEndIs(line: string, rest: string)
    requires NoNewline(line)
    ensures LineEnd(line) == |line|
    ensures LineEnd(line + "\n" + rest) == |line|
  {
    var s := line + "\n" + rest;
    assert s[|line|] == '\n';
    assert forall k :: 0 <= k < |line| ==> s[k] == line[k] && line[k] in line;
  }

  lemma SplitFirst(line: string, rest: string)
    requires NoNewline(line)
    ensures Split(line) == [line]
    ensures Split(line + "\n" + rest) == [line] + Split(rest)
  {
    LineEndIs(line, rest);
    var s := line + "\n" + rest;
    assert s[..|line|] == line && s[|line| + 1..] == rest;
  }

  lemma Regroup(a: string, b: string, c: string)
    ensures (a + "\n" + b) + "\n" + c == a + "\n" + (b + "\n" + c)
  {
  }

  lemma SplitLonger(line: string, rest: string, b: string)
    requires NoNewline(line) && Split(rest + "\n" + b) == Split(rest) + Split(b)
    ensures Split((line + "\n" + rest) + "\n" + b) == Split(line + "\n" + rest) + Split(b)
  {
    SplitFirst(line, rest);
    SplitFirst(line, rest + "\n" + b);
    Regroup(line, rest, b);
    Associate([line], Split(rest), Split(b));
  }

  lemma Associate<T>(a: seq<T>, b: seq<T>, c: seq<T>)
    ensures a + (b + c) == (a + b) + c
  {
  }

  lemma {:induction false} SplitAcross(a: string, b: string)
    ensures Split(a + "\n" + b) == Split(a) + Split(b)
    decreases |a|
  {
    var i := LineEnd(a);
    if i == |a| {
      SplitFirst(a, b);
    } else {
      SplitAcross(a[i + 1..], b);
      BreakApart(a, i);
      SplitLonger(a[..i], a[i + 1..], b);
    }
  }

  /** All lines but the last. */
  function Init(lines: seq<string>): (init: seq<string>)
    requires lines != []
  {
    lines[..|lines| - 1]
  }

  lemma InitOn(line: string, rest: seq<string>, b: seq<string>)
    requires rest != []
    ensures Init([line] + rest) + b == [line] + (Init(rest) + b)
  {
  }

  lemma Behind(line: string, rest: string, b: string)
    ensures line + "\n" + rest + b == line + "\n" + (rest + b)
  {
  }

  lemma SplitAppendLine(line: string, rest: string, b: string)
    requires NoNewline(line) && Split(rest + b) == Init(Split(rest)) + Split(b)
    ensures Split(line + "\n" + rest + b) == Init(Split(line + "\n" + rest)) + Split(b)
  {
    SplitFirst(line, rest);
    SplitFirst(line, rest + b);
    Behind(line, rest, b);
    InitOn(line, Split(rest), Split(b));
  }

  /** After a text that ends where a line does, what is put behind it makes lines of its own. */
  lemma {:induction false} SplitAppend(a: string, b: string)
    requires Split(a)[|Split(a)| - 1] == ""
    ensures Split(a + b) == Init(Split(a)) + Split(b)
    decreases |a|
  {
    var i := LineEnd(a);
    if i == |a| {
      assert a == "" && a + b == b;
    } else {
      BreakApart(a, i);
      SplitFirst(a[..i], a[i + 1..]);
      SplitAppend(a[i + 1..], b);
      SplitAppendLine(a[..i], a[i + 1..], b);
    }
  }

  lemma SplitEnded(line: string)
    requires NoNewline(line)
    ensures Split(line + "\n") == [line, ""]
  {
    SplitFirst(line, "");
    assert line + "\n" + "" == line + "\n";
  }

  /** The pieces between the newlines are all there is of a text. */
  lemma {:induction false} SplitDetermines(a: string, b: string)
    requires Split(a) == Split(b)
    ensures a == b
    decreases |a|
  {
    var i, j := LineEnd(a), LineEnd(b);
    assert Split(a)[0] == a[..i] && Split(b)[0] == b[..j];
    if i < |a| {
      assert |Split(b)| > 1;
      assert Split(a)[1..] == Split(a[i + 1..]) && Split(b)[1..] == Split(b[j + 1..]);
      SplitDetermines(a[i + 1..], b[j + 1..]);
      BreakApart(a, i);
      BreakApart(b, j);
    } else {
      assert |Split(b)| == 1;
      assert j < |b| ==> |Split(b[j + 1..])| > 0;
    }
  }
}
