/** Truncation of tool output (crates/agent/src/util.rs). A string is its UTF-8 bytes, as in section 3 of
    RFC 3629. */
module Truncate {
  import opened CheckpointNames

  type Text = seq<Byte>

  // ---------------------------------------------------------------------------
  // UTF-8
  // ---------------------------------------------------------------------------

  predicate Continuation(b: Byte)
  {
    0x80 <= b < 0xC0
  }

  /** The number of bytes that the first one announces; none for a byte that starts no character. */
  function Width(lead: Byte): (w: nat)
    ensures w <= 4
  {
    if lead < 0x80 then 1
    else if 0xC2 <= lead <= 0xDF then 2
    else if 0xE0 <= lead <= 0xEF then 3
    else if 0xF0 <= lead <= 0xF4 then 4
    else 0
  }

  /** The ranges that rule out overlong forms, surrogates, and code points above U+10FFFF. */
  predicate SecondOk(lead: Byte, second: Byte)
  {
    && (lead == 0xE0 ==> second >= 0xA0)
    && (lead == 0xED ==> second <= 0x9F)
    && (lead == 0xF0 ==> second >= 0x90)
    && (lead == 0xF4 ==> second <= 0x8F)
  }

  predicate StartsWithChar(s: Text)
  {
    && s != [] && 1 <= Width(s[0]) <= |s|
    && (forall i :: 1 <= i < Width(s[0]) ==> Continuation(s[i]))
    && (Width(s[0]) > 1 ==> SecondOk(s[0], s[1]))
  }

  /** A sequence of whole characters. */
  predicate Valid(s: Text)
    decreases |s|
  {
    s == [] || (StartsWithChar(s) && Valid(s[Width(s[0])..]))
  }

  /** str::is_char_boundary. */
  predicate IsCharBoundary(s: Text, i: nat)
  {
    i == 0 || i == |s| || (i < |s| && !Continuation(s[i]))
  }

  /** What follows the first character starts a character of its own. */
  lemma RestStarts(s: Text)
    requires Valid(s) && s != []
    ensures Width(s[0]) < |s| ==> !Continuation(s[Width(s[0])])
  {
    var rest := s[Width(s[0])..];
    assert rest != [] ==> rest[0] == s[Width(s[0])];
  }

  /** A prefix that covers the first character is valid iff what it has after it is. */
  lemma PrefixPeels(s: Text, i: nat)
    requires StartsWithChar(s) && Width(s[0]) <= i <= |s|
    ensures Valid(s[..i]) <==> Valid(s[Width(s[0])..][..i - Width(s[0])])
  {
    var w, prefix := Width(s[0]), s[..i];
    assert prefix[0] == s[0] && forall k :: 0 <= k < w ==> prefix[k] == s[k];
    assert prefix[w..] == s[w..][..i - w];
  }

  /** In a valid string the boundaries are the places where whole characters end. */
  lemma {:induction false} BoundarySplits(s: Text, i: nat)
    requires Valid(s) && i <= |s|
    ensures IsCharBoundary(s, i) <==> Valid(s[..i])
    decreases |s|
  {
    if i == 0 {
      assert s[..i] == [];
    } else {
      var w := Width(s[0]);
      if i < w {
        assert Continuation(s[i]);
        assert s[..i][0] == s[0];
      } else {
        PrefixPeels(s, i);
        BoundarySplits(s[w..], i - w);
        RestStarts(s);
        assert i < |s| ==> s[i] == s[w..][i - w];
      }
    }
  }

  /** No position is more than three bytes after a boundary. */
  lemma {:induction false} BoundaryNear(s: Text, i: nat) returns (b: nat)
    requires Valid(s) && i <= |s|
    ensures b <= i <= b + 3 && IsCharBoundary(s, b)
    decreases |s|
  {
    if s == [] || i < Width(s[0]) {
      b := 0;
    } else {
      var w := Width(s[0]);
      b := BoundaryNear(s[w..], i - w);
      RestStarts(s);
      assert b < |s[w..]| ==> s[w..][b] == s[w + b];
      b := w + b;
    }
  }

  /** The largest boundary at or below the target. On valid text the loop steps back at most three times. */
  method FloorCharBoundary(s: Text, target: nat) returns (end: nat)
    ensures end <= |s| && IsCharBoundary(s, end)
    ensures end <= target
    ensures forall i :: end < i <= target && i <= |s| ==> !IsCharBoundary(s, i)
    ensures Valid(s) ==> end + 3 >= target || end == |s|
  {
    if target >= |s| {
      return |s|;
    }
    end := target;
    while end > 0 && !IsCharBoundary(s, end)
      invariant end <= target
      invariant forall i :: end < i <= target ==> !IsCharBoundary(s, i)
    {
      end := end - 1;
    }
    if Valid(s) {
      ghost var b := BoundaryNear(s, target);
    }
  }

  /** The longest prefix of whole characters within the limit. */
  method TruncateStr(s: Text, maxBytes: nat) returns (prefix: Text)
    requires Valid(s)
    ensures prefix <= s && |prefix| <= maxBytes && Valid(prefix)
    ensures forall longer: Text :: longer <= s && |longer| <= maxBytes && Valid(longer) ==> |longer| <= |prefix|
    ensures |s| <= maxBytes ==> prefix == s
    ensures |s| > maxBytes ==> |prefix| + 3 >= maxBytes
  {
    var end := FloorCharBoundary(s, maxBytes);
    prefix := s[..end];
    BoundarySplits(s, end);
    forall longer: Text | longer <= s && |longer| <= maxBytes && Valid(longer)
      ensures |longer| <= |prefix|
    {
      assert longer == s[..|longer|];
      BoundarySplits(s, |longer|);
    }
  }

  // ---------------------------------------------------------------------------
  // Limits on lines and bytes
  // ---------------------------------------------------------------------------

  const NEWLINE: Byte := 10
  const RETURN: Byte := 13

  function FirstNewline(s: Text): (i: nat)
    ensures i <= |s| && NEWLINE !in s[..i] && (i < |s| ==> s[i] == NEWLINE)
  {
    if s == [] || s[0] == NEWLINE then 0 else
      assert s == [s[0]] + s[1..];
      1 + FirstNewline(s[1..])
  }

  function StripReturn(line: Text): (r: Text)
  {
    if line != [] && line[|line| - 1] == RETURN then line[..|line| - 1] else line
  }

  /** str::lines: the terminators are newlines, each with an optional carriage return before it; text after
      the last one is a line of its own if there is any. */
  function Lines(s: Text): (lines: seq<Text>)
    decreases |s|
  {
    if s == [] then []
    else
      var i := FirstNewline(s);
      if i == |s| then [s] else [StripReturn(s[..i])] + Lines(s[i + 1..])
  }

  /** The first lines, joined again. */
  function Kept(lines: seq<Text>): (text: Text)
  {
    if lines == [] then []
    else if |lines| == 1 then lines[0]
    else Kept(lines[..|lines| - 1]) + [NEWLINE] + lines[|lines| - 1]
  }

  function Ascii(s: string): (t: Text)
  {
    seq(|s|, i requires 0 <= i < |s| => ByteOf(s[i]))
  }

  function Notice(lines: nat, totalLines: nat, bytes: nat, totalBytes: nat): (t: Text)
  {
    Ascii("\n... truncated (" + Decimal(lines) + " of " + Decimal(totalLines) + " lines, "
          + Decimal(bytes) + " of " + Decimal(totalBytes) + " bytes)")
  }

  /** A decimal numeral of `n`. */
  predicate Numeral(a: string, n: nat)
  {
    AllDigits(a) && Value(a) == n
  }

  /** The words of a notice, with four numerals in their places. */
  function Worded(a: string, b: string, c: string, d: string): (s: string)
  {
    "\n... truncated (" + (a + (" of " + (b + (" lines, " + (c + (" of " + (d + " bytes)")))))))
  }

  predicate Reads(t: Text, a: string, b: string, c: string, d: string)
  {
    t == Ascii("\n... truncated (" + a + " of " + b + " lines, " + c + " of " + d + " bytes)")
  }

  /** What a reader takes from a notice: the four numbers between its words. */
  ghost predicate States(t: Text, lines: nat, totalLines: nat, bytes: nat, totalBytes: nat)
  {
    exists a, b, c, d :: Reads(t, a, b, c, d)
      && Numeral(a, lines) && Numeral(b, totalLines) && Numeral(c, bytes) && Numeral(d, totalBytes)
  }

  lemma NoticeStates(lines: nat, totalLines: nat, bytes: nat, totalBytes: nat)
    ensures States(Notice(lines, totalLines, bytes, totalBytes), lines, totalLines, bytes, totalBytes)
  {
    DecimalValue(lines);
    DecimalValue(totalLines);
    DecimalValue(bytes);
    DecimalValue(totalBytes);
    assert Numeral(Decimal(lines), lines) && Numeral(Decimal(totalLines), totalLines);
    assert Numeral(Decimal(bytes), bytes) && Numeral(Decimal(totalBytes), totalBytes);
    assert Reads(Notice(lines, totalLines, bytes, totalBytes), Decimal(lines), Decimal(totalLines), Decimal(bytes),
                 Decimal(totalBytes));
  }

  /** A numeral ends where something else begins. */
  lemma NumeralEnds(a: string, x: string, b: string, y: string)
    requires AllDigits(a) && AllDigits(b) && a + x == b + y
    requires x != "" && y != "" && !('0' <= x[0] <= '9') && !('0' <= y[0] <= '9')
    ensures a == b && x == y
  {
    var s := a + x;
    assert s[|a|] == x[0] && (b + y)[|b|] == y[0];
    assert forall i :: 0 <= i < |a| ==> s[i] == a[i];
    assert forall i :: 0 <= i < |b| ==> (b + y)[i] == b[i];
    assert |a| == |b|;
    assert a == s[..|a|] && b == (b + y)[..|b|] && x == s[|a|..] && y == (b + y)[|b|..];
  }

  lemma SameTail(w: string, x: string, y: string)
    requires w + x == w + y
    ensures x == y
  {
    assert (w + x)[|w|..] == x && (w + y)[|w|..] == y;
  }

  /** Nothing else can be read from the words. */
  lemma WordedOnce(a: string, b: string, c: string, d: string, a2: string, b2: string, c2: string, d2: string)
    requires AllDigits(a) && AllDigits(b) && AllDigits(c) && AllDigits(d)
    requires AllDigits(a2) && AllDigits(b2) && AllDigits(c2) && AllDigits(d2)
    requires Worded(a, b, c, d) == Worded(a2, b2, c2, d2)
    ensures a == a2 && b == b2 && c == c2 && d == d2
  {
    var t3, u3 := " of " + (d + " bytes)"), " of " + (d2 + " bytes)");
    var t2, u2 := " lines, " + (c + t3), " lines, " + (c2 + u3);
    var t1, u1 := " of " + (b + t2), " of " + (b2 + u2);
    SameTail("\n... truncated (", a + t1, a2 + u1);
    NumeralEnds(a, t1, a2, u1);
    SameTail(" of ", b + t2, b2 + u2);
    NumeralEnds(b, t2, b2, u2);
    SameTail(" lines, ", c + t3, c2 + u3);
    NumeralEnds(c, t3, c2, u3);
    SameTail(" of ", d + " bytes)", d2 + " bytes)");
    NumeralEnds(d, " bytes)", d2, " bytes)");
  }

  lemma Associate(p: string, a: string, q: string, rest: string)
    ensures p + a + q + rest == p + (a + (q + rest))
  {
  }

  lemma WordedIs(a: string, b: string, c: string, d: string)
    ensures "\n... truncated (" + a + " of " + b + " lines, " + c + " of " + d + " bytes)" == Worded(a, b, c, d)
  {
    var t3 := " of " + (d + " bytes)");
    var t2 := " lines, " + (c + t3);
    Associate("\n... truncated (" + a + " of " + b + " lines, ", c, " of ", d + " bytes)");
    Associate("\n... truncated (" + a, " of ", b, t2);
    assert "\n... truncated (" + a + " of " + b + t2 == Worded(a, b, c, d);
  }

  predicate OneByteEach(s: string)
  {
    forall i :: 0 <= i < |s| ==> s[i] as int < 128
  }

  lemma WordedIsAscii(a: string, b: string, c: string, d: string)
    requires AllDigits(a) && AllDigits(b) && AllDigits(c) && AllDigits(d)
    ensures OneByteEach(Worded(a, b, c, d))
  {
    assert OneByteEach("\n... truncated (") && OneByteEach(" of ") && OneByteEach(" lines, ");
    assert OneByteEach(" bytes)");
    assert OneByteEach(d + " bytes)");
    assert OneByteEach(c + (" of " + (d + " bytes)")));
    assert OneByteEach(b + (" lines, " + (c + (" of " + (d + " bytes)")))));
  }

  lemma SameAscii(x: string, y: string)
    requires Ascii(x) == Ascii(y) && OneByteEach(x) && OneByteEach(y)
    ensures x == y
  {
    forall i | 0 <= i < |x|
      ensures |x| == |y| && x[i] == y[i]
    {
      assert Ascii(x)[i] == Ascii(y)[i];
    }
    assert |Ascii(x)| == |Ascii(y)|;
  }

  lemma ReadsOnce(t: Text, a: string, b: string, c: string, d: string, a2: string, b2: string, c2: string, d2: string)
    requires AllDigits(a) && AllDigits(b) && AllDigits(c) && AllDigits(d)
    requires AllDigits(a2) && AllDigits(b2) && AllDigits(c2) && AllDigits(d2)
    requires Reads(t, a, b, c, d) && Reads(t, a2, b2, c2, d2)
    ensures a == a2 && b == b2 && c == c2 && d == d2
  {
    WordedIs(a, b, c, d);
    WordedIs(a2, b2, c2, d2);
    WordedIsAscii(a, b, c, d);
    WordedIsAscii(a2, b2, c2, d2);
    SameAscii(Worded(a, b, c, d), Worded(a2, b2, c2, d2));
    WordedOnce(a, b, c, d, a2, b2, c2, d2);
  }

  /** A notice states four numbers, and no others. */
  lemma StatesOnce(t: Text, lines: nat, totalLines: nat, bytes: nat, totalBytes: nat, lines2: nat, totalLines2: nat,
          bytes2: nat, totalBytes2: nat)
    requires States(t, lines, totalLines, bytes, totalBytes) && States(t, lines2, totalLines2, bytes2, totalBytes2)
    ensures lines == lines2 && totalLines == totalLines2 && bytes == bytes2 && totalBytes == totalBytes2
  {
    var a, b, c, d :| Reads(t, a, b, c, d)
      && Numeral(a, lines) && Numeral(b, totalLines) && Numeral(c, bytes) && Numeral(d, totalBytes);
    var a2, b2, c2, d2 :| Reads(t, a2, b2, c2, d2)
      && Numeral(a2, lines2) && Numeral(b2, totalLines2) && Numeral(c2, bytes2) && Numeral(d2, totalBytes2);
    ReadsOnce(t, a, b, c, d, a2, b2, c2, d2);
  }

  predicate WithinLimits(output: Text, maxLines: nat, maxBytes: nat)
  {
    |Lines(output)| <= maxLines && |output| <= maxBytes
  }

  /** `k` is the largest number of lines that may be kept within the limits. */
  ghost predicate MostLines(lines: seq<Text>, maxLines: nat, maxBytes: nat, k: nat)
  {
    && k <= |lines| && k <= maxLines && |Kept(lines[..k])| <= maxBytes
    && forall j :: k < j <= |lines| && j <= maxLines ==> |Kept(lines[..j])| > maxBytes
  }

  /** Output that is over the byte limit only by what its line terminators take. */
  predicate LosesSilently(output: Text, maxLines: nat, maxBytes: nat)
  {
    var lines := Lines(output);
    && |output| > maxBytes && lines != [] && |lines| <= maxLines
    && |lines[0]| < maxBytes && |Kept(lines)| <= maxBytes
  }

  /** How far the loop gets: the first line has to leave room for a newline as well, the others do not. */
  ghost predicate Stops(lines: seq<Text>, maxLines: nat, maxBytes: nat, k: nat)
  {
    && k <= |lines| && k <= maxLines && |Kept(lines[..k])| <= maxBytes
    && (k > 0 ==> |lines[0]| < maxBytes)
    && (k < |lines| ==> k == maxLines || (if k == 0 then |lines[0]| >= maxBytes else |Kept(lines[..k + 1])| > maxBytes))
  }

  lemma {:induction false} KeptGrows(lines: seq<Text>, j: nat, k: nat)
    requires j <= k <= |lines|
    ensures |Kept(lines[..j])| <= |Kept(lines[..k])|
    decreases k
  {
    if j < k {
      KeptGrows(lines, j, k - 1);
      assert lines[..k][..k - 1] == lines[..k - 1];
    }
  }

  /** The lines kept are as many as the limits allow, unless the first one alone takes all the bytes. */
  lemma StopsAtMost(lines: seq<Text>, maxLines: nat, maxBytes: nat, k: nat)
    requires Stops(lines, maxLines, maxBytes, k) && lines != []
    ensures MostLines(lines, maxLines, maxBytes, k) <==> maxLines == 0 || |lines[0]| != maxBytes
  {
    assert lines[..1] == [lines[0]];
    forall j | k < j <= |lines| && j <= maxLines && !(k == 0 && |lines[0]| == maxBytes)
      ensures |Kept(lines[..j])| > maxBytes
    {
      KeptGrows(lines, k + 1, j);
    }
    if maxLines > 0 && |lines[0]| == maxBytes {
      assert |Kept(lines[..1])| <= maxBytes;
    }
  }

  /** The loop gets through all lines exactly if together they fit, and the first leaves a byte. */
  lemma StopsAtEnd(lines: seq<Text>, maxLines: nat, maxBytes: nat, k: nat)
    requires Stops(lines, maxLines, maxBytes, k) && lines != []
    ensures k == |lines| <==> |lines| <= maxLines && |lines[0]| < maxBytes && |Kept(lines)| <= maxBytes
  {
    assert lines[..|lines|] == lines;
    if k < |lines| {
      KeptGrows(lines, k + 1, |lines|);
    }
  }

  /** The first `k` lines are kept, joined by single newlines, and a notice states exactly how many lines and bytes
      these are. There is no such notice exactly if the output was over the limit by its line terminators alone;
      those are then lost in silence. No more lines would have fitted, exactly if the first line does not fill the
      byte limit to the last byte: such a line would fit, but nothing is kept. */
  ghost predicate Shortened(output: Text, maxLines: nat, maxBytes: nat, result: Text, k: nat, notice: Text)
  {
    var lines := Lines(output);
    && k <= |lines| && k <= maxLines && |Kept(lines[..k])| <= maxBytes
    && result == Kept(lines[..k]) + notice
    && (if LosesSilently(output, maxLines, maxBytes) then notice == []
        else States(notice, k, |lines|, |Kept(lines[..k])|, |output|))
    && (k == |lines| <==> LosesSilently(output, maxLines, maxBytes))
    && lines != []
    && (MostLines(lines, maxLines, maxBytes, k) <==> maxLines == 0 || |lines[0]| != maxBytes)
  }

  lemma LoopEnds(output: Text, lines: seq<Text>, maxLines: nat, maxBytes: nat, k: nat)
    requires lines == Lines(output) && !WithinLimits(output, maxLines, maxBytes)
    requires Stops(lines, maxLines, maxBytes, k)
    ensures lines != [] && (k == |lines| <==> LosesSilently(output, maxLines, maxBytes))
    ensures MostLines(lines, maxLines, maxBytes, k) <==> maxLines == 0 || |lines[0]| != maxBytes
  {
    NoLines(output);
    KeptIsShorter(output);
    StopsAtMost(lines, maxLines, maxBytes, k);
    StopsAtEnd(lines, maxLines, maxBytes, k);
  }

  lemma AllKept(lines: seq<Text>)
    ensures lines[..|lines|] == lines
  {
  }

  method AppendNotice(kept: Text, lines: nat, totalLines: nat, bytes: nat, totalBytes: nat)
      returns (result: Text, ghost notice: Text)
    ensures result == kept + notice && States(notice, lines, totalLines, bytes, totalBytes)
  {
    notice := Notice(lines, totalLines, bytes, totalBytes);
    NoticeStates(lines, totalLines, bytes, totalBytes);
    result := kept + Notice(lines, totalLines, bytes, totalBytes);
  }

  /** Output within both limits is returned as it is, and any other is shortened. */
  method TruncateOutput(output: Text, maxLines: nat, maxBytes: nat)
      returns (result: Text, ghost k: nat, ghost notice: Text)
    ensures WithinLimits(output, maxLines, maxBytes) ==> result == output
    ensures !WithinLimits(output, maxLines, maxBytes) ==>
      Shortened(output, maxLines, maxBytes, result, k, notice)
    ensures LosesSilently(output, maxLines, maxBytes) ==> result == Kept(Lines(output)) && |result| < |output|
  {
    var lines := Lines(output);
    k, notice := 0, [];
    if |lines| <= maxLines && |output| <= maxBytes {
      return output, k, [];
    }
    result := [];
    var byteCount := 0;
    for lineCount := 0 to |lines|
      invariant lineCount <= maxLines
      invariant lineCount > 0 ==> |lines[0]| < maxBytes
      invariant result == Kept(lines[..lineCount]) && byteCount == |result| <= maxBytes
    {
      k := lineCount;
      assert lines[..lineCount + 1][..lineCount] == lines[..lineCount];
      if lineCount >= maxLines || byteCount + |lines[lineCount]| + 1 > maxBytes {
        LoopEnds(output, lines, maxLines, maxBytes, k);
        result, notice := AppendNotice(result, lineCount, |lines|, byteCount, |output|);
        return;
      }
      if lineCount > 0 {
        result := result + [NEWLINE];
        byteCount := byteCount + 1;
      }
      result := result + lines[lineCount];
      byteCount := byteCount + |lines[lineCount]|;
    }
    k := |lines|;
    AllKept(lines);
    LoopEnds(output, lines, maxLines, maxBytes, k);
    assert result + notice == result;
  }

  lemma NoLines(output: Text)
    ensures Lines(output) == [] <==> output == []
  {
  }

  lemma {:induction false} KeptCons(line: Text, lines: seq<Text>)
    ensures Kept([line] + lines) == line + (if lines == [] then [] else [NEWLINE] + Kept(lines))
    decreases |lines|
  {
    var all := [line] + lines;
    if lines == [] {
      assert all == [line];
    } else {
      var last := lines[|lines| - 1];
      assert all[..|all| - 1] == [line] + lines[..|lines| - 1] && all[|all| - 1] == last;
      KeptCons(line, lines[..|lines| - 1]);
    }
  }

  lemma LinesUnfold(s: Text, i: nat)
    requires i == FirstNewline(s) && i < |s|
    ensures Lines(s) == [StripReturn(s[..i])] + Lines(s[i + 1..])
    ensures s == s[..i] + [NEWLINE] + s[i + 1..] && NEWLINE !in s[..i]
  {
    SplitAt(s, i);
  }

  lemma SplitAt(s: Text, i: nat)
    requires i < |s|
    ensures s == s[..i] + [s[i]] + s[i + 1..]
  {
  }

  lemma LastLine(s: Text)
    requires FirstNewline(s) == |s|
    ensures Lines(s) == if s == [] then [] else [s]
    ensures NEWLINE !in s && Kept(Lines(s)) == s
  {
    assert s[..|s|] == s;
  }

  /** No line holds a newline. */
  lemma {:induction false} LinesAreLines(s: Text, i: nat)
    requires i < |Lines(s)|
    ensures NEWLINE !in Lines(s)[i]
    decreases |s|
  {
    var n := FirstNewline(s);
    if n < |s| {
      LinesUnfold(s, n);
      if i > 0 {
        LinesAreLines(s[n + 1..], i - 1);
      }
    } else {
      LastLine(s);
    }
  }

  predicate Terminated(s: Text)
  {
    s != [] && s[|s| - 1] == NEWLINE
  }

  /** A text and its lines joined again: only a last newline is missing. */
  predicate Rejoined(s: Text, kept: Text)
  {
    s == kept + if Terminated(s) then [NEWLINE] else []
  }

  lemma Rejoin(line: Text, rest: Text, lines: seq<Text>)
    requires Rejoined(rest, Kept(lines)) && (lines == [] <==> rest == [])
    ensures Rejoined(line + [NEWLINE] + rest, Kept([line] + lines))
  {
    KeptCons(line, lines);
    var s := line + [NEWLINE] + rest;
    assert rest != [] ==> s[|s| - 1] == rest[|rest| - 1];
  }

  /** Carriage returns apart, joining the lines of a text gives it back, but for a last newline. */
  lemma {:induction false} LinesRejoin(s: Text)
    requires RETURN !in s
    ensures Rejoined(s, Kept(Lines(s)))
    decreases |s|
  {
    var n := FirstNewline(s);
    if n < |s| {
      LinesUnfold(s, n);
      var rest := s[n + 1..];
      assert RETURN !in rest;
      LinesRejoin(rest);
      assert n > 0 ==> s[..n][n - 1] == s[n - 1] && s[n - 1] in s;
      assert StripReturn(s[..n]) == s[..n];
      Rejoin(s[..n], rest, Lines(rest));
    } else {
      LastLine(s);
      assert !Terminated(s) by {
        assert s != [] ==> s[|s| - 1] in s;
      }
    }
  }

  lemma StripShortens(line: Text)
    ensures |StripReturn(line)| <= |line|
  {
  }

  /** Joining the lines again can only lose bytes: those of line terminators. */
  lemma {:induction false} KeptIsShorter(s: Text)
    ensures |Kept(Lines(s))| <= |s|
    decreases |s|
  {
    var i := FirstNewline(s);
    if i < |s| {
      KeptIsShorter(s[i + 1..]);
      StripShortens(s[..i]);
      var line, rest := StripReturn(s[..i]), Lines(s[i + 1..]);
      assert Lines(s) == [line] + rest;
      KeptCons(line, rest);
    }
  }

  /** Carriage returns apart, what is lost in silence is a last newline, the one byte over the limit. */
  lemma SilentLossIsLastNewline(output: Text, maxLines: nat, maxBytes: nat)
    requires RETURN !in output
    ensures LosesSilently(output, maxLines, maxBytes) <==>
      && Terminated(output) && |output| == maxBytes + 1
      && |Lines(output)| <= maxLines && |Lines(output)[0]| < maxBytes
  {
    LinesRejoin(output);
    NoLines(output);
  }

  lemma LastLineOf(line: Text, rest: Text)
    requires NEWLINE !in line && RETURN !in line && line != []
    requires rest == [] || rest == [NEWLINE]
    ensures Lines(line + rest) == [line]
  {
    FirstNewlineIs(line, rest);
    var s := line + rest;
    assert StripReturn(line) == line;
    if rest == [] {
      assert s == line;
    } else {
      assert s[..|line|] == line && s[|line| + 1..] == [];
    }
  }

  lemma TwoLines(a: Text, b: Text, rest: Text)
    requires NEWLINE !in a && NEWLINE !in b && RETURN !in a && RETURN !in b && b != []
    requires rest == [] || rest == [NEWLINE]
    ensures Lines(a + [NEWLINE] + b + rest) == [a, b]
  {
    var s, tail := a + [NEWLINE] + b + rest, b + rest;
    LastLineOf(b, rest);
    FirstNewlineIs(a, [NEWLINE] + tail);
    assert s == a + ([NEWLINE] + tail);
    assert s[..|a|] == a && s[|a| + 1..] == tail;
    assert StripReturn(a) == a;
  }

  lemma {:induction false} FirstNewlineIs(line: Text, rest: Text)
    requires NEWLINE !in line && (rest == [] || rest[0] == NEWLINE)
    ensures FirstNewline(line + rest) == |line|
  {
    if line == [] {
      assert line + rest == rest;
    } else {
      assert (line + rest)[0] == line[0] && (line + rest)[1..] == line[1..] + rest;
      assert line[0] in line;
      FirstNewlineIs(line[1..], rest);
    }
  }

  /** "a\nb\n" within 3 bytes comes back as "a\nb", without a notice. */
  lemma LostWithoutNotice()
    ensures var output: Text := [97, NEWLINE, 98, NEWLINE];
      LosesSilently(output, 2, 3) && Kept(Lines(output)) == [97, NEWLINE, 98]
  {
    var output: Text := [97, NEWLINE, 98, NEWLINE];
    TwoLines([97], [98], [NEWLINE]);
    assert output == [97] + [NEWLINE] + [98] + [NEWLINE];
    var lines: seq<Text> := [[97], [98]];
    assert lines[..1] == [[97]];
    assert Kept(lines) == [97] + [NEWLINE] + [98];
  }

  /** Of "abc\nd" within 3 bytes one line would fit, and none is kept: where the first line fills the limit
      there is a number of lines that is best, and it is not the loop's. */
  lemma FirstLineDropped()
    ensures var output: Text := [97, 98, 99, NEWLINE, 100];
      && !WithinLimits(output, 10, 3) && !LosesSilently(output, 10, 3)
      && MostLines(Lines(output), 10, 3, 1) && Stops(Lines(output), 10, 3, 0)
  {
    var output: Text := [97, 98, 99, NEWLINE, 100];
    TwoLines([97, 98, 99], [100], []);
    assert output == [97, 98, 99] + [NEWLINE] + [100] + [];
    var lines: seq<Text> := [[97, 98, 99], [100]];
    assert lines[..1] == [[97, 98, 99]] && lines[..2] == lines && lines[..0] == [];
    assert Kept(lines) == [97, 98, 99] + [NEWLINE] + [100];
  }
}
