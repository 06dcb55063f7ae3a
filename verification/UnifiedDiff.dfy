/** The in-process file diff (crates/git-ops/src/checkpoint.rs): common prefix and suffix lines are trimmed,
    and what is left is shown as removed and added lines. */
module UnifiedDiff {
  import opened TextLines

  /** str::lines makes no other lines. */
  type Line = s: string | NoNewline(s) witness ""

  datatype Text = Lines(lines: seq<Line>) | Binary

  // ---------------------------------------------------------------------------
  // The edit
  // ---------------------------------------------------------------------------

  /** Replacing `removed` by `added` after the first `pre` lines turns `prior` into `current`. */
  predicate Edits(prior: seq<Line>, current: seq<Line>, pre: nat, suf: nat, removed: seq<Line>, added: seq<Line>)
  {
    && pre + suf <= |prior| && pre + suf <= |current|
    && removed == prior[pre..|prior| - suf]
    && added == current[pre..|current| - suf]
    && prior[..pre] + added + prior[|prior| - suf..] == current
  }

  /** The two texts share their first `a` and, apart from those, their last `b` lines. */
  predicate SameEnds(prior: seq<Line>, current: seq<Line>, a: nat, b: nat)
  {
    && a + b <= |prior| && a + b <= |current|
    && prior[..a] == current[..a] && prior[|prior| - b..] == current[|current| - b..]
  }

  /** The first lines are trimmed as far as they agree, and then the last ones. */
  predicate Trimmed(prior: seq<Line>, current: seq<Line>, pre: nat, suf: nat)
  {
    && SameEnds(prior, current, pre, suf)
    && (pre < |prior| && pre < |current| ==> prior[pre] != current[pre])
    && (suf < |prior| - pre && suf < |current| - pre ==> prior[|prior| - 1 - suf] != current[|current| - 1 - suf])
  }

  /** No replacement of one stretch of lines by another is shorter. */
  ghost predicate Shortest(prior: seq<Line>, current: seq<Line>, pre: nat, suf: nat)
  {
    SameEnds(prior, current, pre, suf) && forall a: nat, b: nat :: SameEnds(prior, current, a, b) ==> a + b <= pre + suf
  }

  lemma GreedyIsShortest(p: seq<Line>, c: seq<Line>, pre: nat, suf: nat)
    requires Trimmed(p, c, pre, suf)
    ensures Shortest(p, c, pre, suf)
  {
    forall a: nat, b: nat | SameEnds(p, c, a, b)
      ensures a + b <= pre + suf
    {
      assert a > pre ==> p[..a][pre] == c[..a][pre];
      assert b > suf ==> p[|p| - b..][b - 1 - suf] == c[|c| - b..][b - 1 - suf];
    }
  }

  lemma PrefixIsLongest(p: seq<Line>, c: seq<Line>, pre: nat, suf: nat, a: nat, b: nat)
    requires Trimmed(p, c, pre, suf) && SameEnds(p, c, a, b)
    ensures a <= pre
  {
    forall k | 0 <= k < a
      ensures p[k] == c[k]
    {
      assert p[..a][k] == c[..a][k];
    }
  }

  /** The lines between the trimmed ends: an edit, and no longer than any other. */
  ghost predicate Middle(p: seq<Line>, c: seq<Line>, removed: seq<Line>, added: seq<Line>)
  {
    exists pre: nat, suf: nat ::
      Edits(p, c, pre, suf, removed, added) && Trimmed(p, c, pre, suf) && Shortest(p, c, pre, suf)
  }

  lemma OneTrim(p: seq<Line>, c: seq<Line>, pre: nat, suf: nat, a: nat, b: nat)
    requires Trimmed(p, c, pre, suf) && Trimmed(p, c, a, b)
    ensures pre == a && suf == b
  {
    PrefixIsLongest(p, c, pre, suf, a, b);
    PrefixIsLongest(p, c, a, b, pre, suf);
    GreedyIsShortest(p, c, pre, suf);
    GreedyIsShortest(p, c, a, b);
  }

  lemma OneEdit(p: seq<Line>, c: seq<Line>, pre: nat, suf: nat, removed: seq<Line>, added: seq<Line>, less: seq<Line>,
          more: seq<Line>)
    requires Edits(p, c, pre, suf, removed, added) && Edits(p, c, pre, suf, less, more)
    ensures removed == less && added == more
  {
  }

  lemma OneMiddle(p: seq<Line>, c: seq<Line>, removed: seq<Line>, added: seq<Line>, less: seq<Line>, more: seq<Line>)
    requires Middle(p, c, removed, added) && Middle(p, c, less, more)
    ensures removed == less && added == more
  {
    var pre: nat, suf: nat :| Edits(p, c, pre, suf, removed, added) && Trimmed(p, c, pre, suf);
    var a: nat, b: nat :| Edits(p, c, a, b, less, more) && Trimmed(p, c, a, b);
    OneTrim(p, c, pre, suf, a, b);
    OneEdit(p, c, pre, suf, removed, added, less, more);
  }

  /** A shortest edit removes and adds nothing exactly when the lines are the same. */
  lemma EmptyEdit(prior: seq<Line>, current: seq<Line>, pre: nat, suf: nat, removed: seq<Line>, added: seq<Line>)
    requires Edits(prior, current, pre, suf, removed, added) && Shortest(prior, current, pre, suf)
    ensures removed == [] && added == [] <==> prior == current
  {
    if removed == [] && added == [] {
      assert prior == prior[..pre] + prior[|prior| - suf..];
      assert prior[..pre] + added + prior[|prior| - suf..] == prior[..pre] + prior[|prior| - suf..];
    }
    assert prior == current ==> SameEnds(prior, current, |prior|, 0);
  }

  method CommonPrefix(prior: seq<Line>, current: seq<Line>) returns (pre: nat)
    ensures pre <= |prior| && pre <= |current| && prior[..pre] == current[..pre]
    ensures pre < |prior| && pre < |current| ==> prior[pre] != current[pre]
  {
    pre := 0;
    while pre < |prior| && pre < |current| && prior[pre] == current[pre]
      invariant pre <= |prior| && pre <= |current| && prior[..pre] == current[..pre]
    {
      pre := pre + 1;
    }
  }

  /** Not overlapping the prefix, so that the subtractions cannot underflow. */
  method CommonSuffix(prior: seq<Line>, current: seq<Line>, pre: nat) returns (suf: nat)
    requires pre <= |prior| && pre <= |current|
    ensures suf <= |prior| - pre && suf <= |current| - pre
    ensures prior[|prior| - suf..] == current[|current| - suf..]
    ensures suf < |prior| - pre && suf < |current| - pre ==> prior[|prior| - 1 - suf] != current[|current| - 1 - suf]
  {
    suf := 0;
    while suf < |prior| - pre && suf < |current| - pre && prior[|prior| - 1 - suf] == current[|current| - 1 - suf]
      invariant suf <= |prior| - pre && suf <= |current| - pre
      invariant prior[|prior| - suf..] == current[|current| - suf..]
    {
      suf := suf + 1;
      assert prior[|prior| - suf..] == [prior[|prior| - suf]] + prior[|prior| - (suf - 1)..];
      assert current[|current| - suf..] == [current[|current| - suf]] + current[|current| - (suf - 1)..];
    }
  }

  lemma TrimmedIsMiddle(p: seq<Line>, c: seq<Line>, pre: nat, suf: nat)
    requires Trimmed(p, c, pre, suf)
    ensures Middle(p, c, p[pre..|p| - suf], c[pre..|c| - suf])
  {
    assert c == c[..pre] + c[pre..|c| - suf] + c[|c| - suf..];
    GreedyIsShortest(p, c, pre, suf);
  }

  method Middles(p: seq<Line>, c: seq<Line>) returns (removed: seq<Line>, added: seq<Line>)
    ensures Middle(p, c, removed, added)
  {
    var pre := CommonPrefix(p, c);
    var suf := CommonSuffix(p, c, pre);
    TrimmedIsMiddle(p, c, pre, suf);
    removed, added := p[pre..|p| - suf], c[pre..|c| - suf];
  }

  // ---------------------------------------------------------------------------
  // Its text
  // ---------------------------------------------------------------------------

  /** Cut at its newlines, the text is these lines, each behind the mark and with a newline of its own. */
  predicate Lists(text: string, mark: char, lines: seq<Line>)
  {
    var shown := Split(text);
    && |shown| == |lines| + 1 && shown[|lines|] == ""
    && forall i :: 0 <= i < |lines| ==> shown[i] == [mark] + lines[i]
  }

  /** Cut at its newlines, the text is the removed lines behind minus signs, then the added ones behind plus
      signs. */
  predicate ListsEdit(text: string, removed: seq<Line>, added: seq<Line>)
  {
    var shown := Split(text);
    && |shown| == |removed| + |added| + 1 && shown[|removed| + |added|] == ""
    && (forall i :: 0 <= i < |removed| ==> shown[i] == "-" + removed[i])
    && (forall i :: 0 <= i < |added| ==> shown[|removed| + i] == "+" + added[i])
  }

  lemma ListsOn(text: string, mark: char, lines: seq<Line>, line: Line)
    requires mark != '\n' && Lists(text, mark, lines)
    ensures Lists(text + ([mark] + line + "\n"), mark, lines + [line])
  {
    assert NoNewline([mark] + line);
    SplitEnded([mark] + line);
    SplitAppend(text, [mark] + line + "\n");
  }

  lemma ListsBoth(minus: string, plus: string, removed: seq<Line>, added: seq<Line>)
    requires Lists(minus, '-', removed) && Lists(plus, '+', added)
    ensures ListsEdit(minus + plus, removed, added)
  {
    SplitAppend(minus, plus);
  }

  /** Nothing but the edit can be read from the text, and no other text says it. */
  lemma OneText(text: string, other: string, removed: seq<Line>, added: seq<Line>)
    requires ListsEdit(text, removed, added) && ListsEdit(other, removed, added)
    ensures text == other
  {
    var shown, read := Split(text), Split(other);
    forall i | 0 <= i < |shown|
      ensures shown[i] == read[i]
    {
      if |removed| <= i < |removed| + |added| {
        var k := i - |removed|;
        assert shown[|removed| + k] == "+" + added[k] && read[|removed| + k] == "+" + added[k];
      }
    }
    SplitDetermines(text, other);
  }

  method AppendMarked(mark: char, lines: seq<Line>, out: string, count: nat)
      returns (text: string, total: nat, ghost more: string)
    requires mark != '\n'
    ensures text == out + more && Lists(more, mark, lines)
    ensures total == count + |lines|
  {
    text, total, more := out, count, "";
    for i := 0 to |lines|
      invariant text == out + more && Lists(more, mark, lines[..i])
      invariant total == count + i
    {
      ListsOn(more, mark, lines[..i], lines[i]);
      assert lines[..i] + [lines[i]] == lines[..i + 1];
      text := text + [mark] + lines[i] + "\n";
      more := more + ([mark] + lines[i] + "\n");
      total := total + 1;
    }
    assert lines[..|lines|] == lines;
  }

  /** What one file's diff says: the path on both header lines, and then the edit of the one text into the other,
      whose lines are counted; or that the files are not text. */
  ghost predicate Says(text: string, path: string, prior: Text, current: Text, insertions: int, deletions: int)
  {
    if prior.Lines? && current.Lines?
    then SaysEdit(text, path, prior.lines, current.lines, insertions, deletions)
    else text == "Binary files a/" + path + " and b/" + path + " differ\n" && insertions == 1 && deletions == 0
  }

  ghost predicate SaysEdit(text: string, path: string, p: seq<Line>, c: seq<Line>, insertions: int, deletions: int)
  {
    var header := "--- a/" + path + "\n+++ b/" + path + "\n";
    header <= text && HoldsEdit(text[|header|..], p, c, insertions, deletions)
  }

  ghost predicate HoldsEdit(edit: string, p: seq<Line>, c: seq<Line>, insertions: int, deletions: int)
  {
    exists removed: seq<Line>, added: seq<Line> ::
      && ListsEdit(edit, removed, added) && Middle(p, c, removed, added)
      && insertions == |added| && deletions == |removed|
  }

  lemma EditSays(header: string, edit: string, path: string, p: seq<Line>, c: seq<Line>, removed: seq<Line>,
          added: seq<Line>)
    requires header == "--- a/" + path + "\n+++ b/" + path + "\n"
    requires ListsEdit(edit, removed, added) && Middle(p, c, removed, added)
    ensures SaysEdit(header + edit, path, p, c, |added|, |removed|)
  {
    assert (header + edit)[|header|..] == edit;
  }

  lemma HoldsOneEdit(edit: string, other: string, p: seq<Line>, c: seq<Line>, ins: int, del: int, ins2: int, del2: int)
    requires HoldsEdit(edit, p, c, ins, del) && HoldsEdit(other, p, c, ins2, del2)
    ensures edit == other && ins == ins2 && del == del2
  {
    var removed: seq<Line>, added: seq<Line> :| ListsEdit(edit, removed, added) && Middle(p, c, removed, added)
      && ins == |added| && del == |removed|;
    var less: seq<Line>, more: seq<Line> :| ListsEdit(other, less, more) && Middle(p, c, less, more)
      && ins2 == |more| && del2 == |less|;
    OneMiddle(p, c, removed, added, less, more);
    OneText(edit, other, removed, added);
  }

  lemma SameBehind(header: string, text: string, other: string)
    requires header <= text && header <= other && text[|header|..] == other[|header|..]
    ensures text == other
  {
    assert text == header + text[|header|..] && other == header + other[|header|..];
  }

  /** So the text and the counts are determined by the two files. */
  lemma SaysOnce(text: string, other: string, path: string, prior: Text, current: Text, ins: int, del: int,
          ins2: int, del2: int)
    requires Says(text, path, prior, current, ins, del) && Says(other, path, prior, current, ins2, del2)
    ensures text == other && ins == ins2 && del == del2
  {
    if prior.Lines? && current.Lines? {
      var header := "--- a/" + path + "\n+++ b/" + path + "\n";
      HoldsOneEdit(text[|header|..], other[|header|..], prior.lines, current.lines, ins, del, ins2, del2);
      SameBehind(header, text, other);
    }
  }

  lemma Together(out: string, header: string, minus: string, plus: string)
    ensures out + header + minus + plus == out + (header + (minus + plus))
  {
  }

  method LineDiff(path: string, p: seq<Line>, c: seq<Line>, out: string, insertions: nat, deletions: nat)
      returns (text: string, ins: nat, del: nat, ghost share: string)
    ensures text == out + share && SaysEdit(share, path, p, c, ins - insertions, del - deletions)
    ensures insertions <= ins && deletions <= del
  {
    var removed, added := Middles(p, c);
    var header := "--- a/" + path + "\n+++ b/" + path + "\n";
    ghost var minus, plus;
    text, del, minus := AppendMarked('-', removed, out + header, deletions);
    text, ins, plus := AppendMarked('+', added, text, insertions);
    share := header + (minus + plus);
    Together(out, header, minus, plus);
    ListsBoth(minus, plus, removed, added);
    EditSays(header, minus + plus, path, p, c, removed, added);
  }

  /** Appends one file's diff to `out` and counts its lines. */
  method UnifiedFileDiff(path: string, prior: Text, current: Text, out: string, insertions: nat, deletions: nat)
      returns (text: string, ins: nat, del: nat, ghost share: string)
    ensures text == out + share && Says(share, path, prior, current, ins - insertions, del - deletions)
    ensures insertions <= ins && deletions <= del
  {
    if prior.Lines? && current.Lines? {
      text, ins, del, share := LineDiff(path, prior.lines, current.lines, out, insertions, deletions);
    } else {
      share := "Binary files a/" + path + " and b/" + path + " differ\n";
      text := out + ("Binary files a/" + path + " and b/" + path + " differ\n");
      ins, del := insertions + 1, deletions;
    }
  }
}
