/** The backwards block reader of scripts/err_check.py (9-33). */
module TailReader {
  import opened Wrappers

  newtype Byte = x: int | 0 <= x < 256
  type Bytes = seq<Byte>

  const LF: Byte := 10
  const CR: Byte := 13

  predicate IsBreak(b: Byte) {
    b == LF || b == CR
  }

  /** Length of the line break at the start of `s`: CR LF together is one break. */
  function BreakLength(s: Bytes): nat
    requires s != [] && IsBreak(s[0])
  {
    if s[0] == CR && |s| > 1 && s[1] == LF then 2 else 1
  }

  /** bytes.splitlines(): the lines without their breaks; a final break does not start another line. */
  function SplitLines(s: Bytes): (lines: seq<Bytes>)
    ensures |s| > 0 ==> |lines| > 0
    decreases |s|
  {
    if |s| == 0 then []
    else if IsBreak(s[0]) then [[]] + SplitLines(s[BreakLength(s)..])
    else
      var rest := SplitLines(s[1..]);
      if |rest| == 0 then [[s[0]]] else [[s[0]] + rest[0]] + rest[1..]
  }

  /** The slice lines[-k:] of Python: for k <= 0 it counts from the front, so k == 0 is the whole list. */
  function LastSlice<T>(xs: seq<T>, k: int): seq<T> {
    if k > 0 then (if k >= |xs| then xs else xs[|xs| - k..])
    else if k == 0 then xs
    else if -k >= |xs| then [] else xs[-k..]
  }

  /** `tail` is the last k elements of `all`, or all of them where there are not that many. */
  ghost predicate AreLast<T>(tail: seq<T>, all: seq<T>, k: int) {
    && |tail| == (if k < |all| then k else |all|)
    && forall i :: 0 <= i < |tail| ==> tail[i] == all[|all| - |tail| + i]
  }

  lemma SliceIsLast<T>(xs: seq<T>, k: int)
    requires k >= 1
    ensures AreLast(LastSlice(xs, k), xs, k)
  {
  }

  // ---------- What splitting means ----------

  datatype Terminator = Lf | Cr | CrLf

  function Text(t: Terminator): Bytes {
    match t
    case Lf => [LF]
    case Cr => [CR]
    case CrLf => [CR, LF]
  }

  /** A file written line by line, with a last line that nothing terminates (empty when there is none). */
  function Unlines(lines: seq<Bytes>, ends: seq<Terminator>, last: Bytes): Bytes
    requires |lines| == |ends|
  {
    if lines == [] then last else lines[0] + (Text(ends[0]) + Unlines(lines[1..], ends[1..], last))
  }

  predicate NoBreakIn(line: Bytes) {
    forall i :: 0 <= i < |line| ==> !IsBreak(line[i])
  }

  /** The first line ends in CR and the second is empty and ends in LF: together they read as one CR LF. */
  predicate FalsePairInFront(lines: seq<Bytes>, ends: seq<Terminator>)
    requires |lines| == |ends|
  {
    |lines| > 1 && ends[0].Cr? && lines[1] == [] && ends[1].Lf?
  }

  /** What is read back: the lines written, without the second line of every such pair. */
  function ReadBack(lines: seq<Bytes>, ends: seq<Terminator>): (back: seq<Bytes>)
    requires |lines| == |ends|
  {
    if lines == [] then []
    else if FalsePairInFront(lines, ends) then [lines[0]] + ReadBack(lines[2..], ends[2..])
    else [lines[0]] + ReadBack(lines[1..], ends[1..])
  }

  lemma {:induction false} SplitFirstLine(line: Bytes, end: Terminator, tail: Bytes)
    requires NoBreakIn(line) && !(end.Cr? && |tail| > 0 && tail[0] == LF)
    ensures SplitLines(line + (Text(end) + tail)) == [line] + SplitLines(tail)
  {
    var s := line + (Text(end) + tail);
    if line == [] {
      assert s == Text(end) + tail;
      assert s[|Text(end)|..] == tail;
    } else {
      assert s[1..] == line[1..] + (Text(end) + tail);
      SplitFirstLine(line[1..], end, tail);
      var rest := SplitLines(s[1..]);
      assert rest[0] == line[1..] && rest[1..] == SplitLines(tail);
      assert [s[0]] + rest[0] == line;
    }
  }

  lemma {:induction false} SplitUnterminated(line: Bytes)
    requires NoBreakIn(line) && line != []
    ensures SplitLines(line) == [line]
  {
    if |line| == 1 {
      assert line[1..] == [] && [line[0]] == line;
    } else {
      SplitUnterminated(line[1..]);
      assert [line[0]] + line[1..] == line;
    }
  }

  ghost predicate NoBreaks(lines: seq<Bytes>) {
    forall l :: 0 <= l < |lines| ==> NoBreakIn(lines[l])
  }

  /** What splitting makes of any written file, with the three terminators in any mix. */
  lemma {:induction false} SplitWritten(lines: seq<Bytes>, ends: seq<Terminator>, last: Bytes)
    requires |lines| == |ends| && NoBreaks(lines) && NoBreakIn(last)
    ensures SplitLines(Unlines(lines, ends, last)) == ReadBack(lines, ends) + if last == [] then [] else [last]
  {
    if lines == [] {
      if last != [] {
        SplitUnterminated(last);
      }
    } else if FalsePairInFront(lines, ends) {
      var tail := Unlines(lines[2..], ends[2..], last);
      assert lines[1..][1..] == lines[2..] && ends[1..][1..] == ends[2..];
      assert Unlines(lines[1..], ends[1..], last) == [LF] + tail;
      assert lines[0] + ([CR] + ([LF] + tail)) == lines[0] + (Text(CrLf) + tail);
      SplitFirstLine(lines[0], CrLf, tail);
      SplitWritten(lines[2..], ends[2..], last);
    } else {
      var tail := Unlines(lines[1..], ends[1..], last);
      StartsWithBreak(lines[1..], ends[1..], last);
      SplitFirstLine(lines[0], ends[0], tail);
      SplitWritten(lines[1..], ends[1..], last);
    }
  }

  /** A written file starts with LF only where its first line is empty and ends in LF. */
  lemma StartsWithBreak(lines: seq<Bytes>, ends: seq<Terminator>, last: Bytes)
    requires |lines| == |ends| && NoBreaks(lines) && NoBreakIn(last)
    ensures var s := Unlines(lines, ends, last);
            |s| > 0 && s[0] == LF ==> |lines| > 0 && lines[0] == [] && ends[0].Lf?
  {
    if lines == [] {
      assert |last| > 0 ==> !IsBreak(last[0]);
    } else {
      assert |lines[0]| > 0 ==> !IsBreak(lines[0][0]);
    }
  }

  ghost predicate FalsePair(lines: seq<Bytes>, ends: seq<Terminator>, i: nat)
    requires |lines| == |ends|
  {
    i + 1 < |lines| && ends[i].Cr? && lines[i + 1] == [] && ends[i + 1].Lf?
  }

  lemma {:induction false} ReadBackExactly(lines: seq<Bytes>, ends: seq<Terminator>)
    requires |lines| == |ends|
    ensures |ReadBack(lines, ends)| <= |lines|
    ensures |ReadBack(lines, ends)| == |lines| <==> forall i: nat :: !FalsePair(lines, ends, i)
    ensures |ReadBack(lines, ends)| == |lines| ==> ReadBack(lines, ends) == lines
  {
    if lines == [] {
    } else if FalsePairInFront(lines, ends) {
      ReadBackExactly(lines[2..], ends[2..]);
      assert FalsePair(lines, ends, 0);
    } else {
      ReadBackExactly(lines[1..], ends[1..]);
      assert forall i: nat :: FalsePair(lines[1..], ends[1..], i) <==> FalsePair(lines, ends, i + 1);
      assert forall i: nat :: i > 0 ==> (FalsePair(lines, ends, i) <==> FalsePair(lines[1..], ends[1..], i - 1));
    }
  }

  /** Splitting undoes writing, for a file whose last line is terminated or not, exactly when no line that ends
      in CR comes before an empty line that ends in LF, and the unterminated last line is not empty. */
  lemma SplitOfUnlines(lines: seq<Bytes>, ends: seq<Terminator>, last: Option<Bytes>)
    requires |lines| == |ends| && NoBreaks(lines) && (last.Some? ==> NoBreakIn(last.value))
    ensures var written := if last.Some? then lines + [last.value] else lines;
            SplitLines(Unlines(lines, ends, if last.Some? then last.value else [])) == written <==>
            (forall i: nat :: !FalsePair(lines, ends, i)) && last != Some([])
  {
    var tail := if last.Some? then last.value else [];
    SplitWritten(lines, ends, tail);
    ReadBackExactly(lines, ends);
  }

  // ---------- Splitting a suffix ----------

  /** All but the first of the lines `back` are the last lines of `all`. */
  ghost predicate TailAgrees(back: seq<Bytes>, all: seq<Bytes>) {
    1 <= |back| <= |all| && forall i :: 1 <= i < |back| ==> back[i] == all[|all| - |back| + i]
  }

  lemma TailAgreesTransitive(back: seq<Bytes>, mid: seq<Bytes>, all: seq<Bytes>)
    requires TailAgrees(back, mid) && TailAgrees(mid, all)
    ensures TailAgrees(back, all)
  {
  }

  /** How far one step of the splitting goes: over a break, or over one byte of a line. */
  function StepLength(s: Bytes): nat
    requires s != []
  {
    if IsBreak(s[0]) then BreakLength(s) else 1
  }

  /** Neither a new line in front nor a longer first line disturbs the others. */
  lemma FrontAgrees(rest: seq<Bytes>, line: Bytes)
    requires |rest| > 0
    ensures TailAgrees(rest, [line] + rest) && TailAgrees(rest, [line] + rest[1..])
  {
  }

  lemma StepAgrees(s: Bytes)
    requires s != [] && StepLength(s) < |s|
    ensures TailAgrees(SplitLines(s[StepLength(s)..]), SplitLines(s))
  {
    var rest := SplitLines(s[StepLength(s)..]);
    FrontAgrees(rest, if IsBreak(s[0]) then [] else [s[0]] + rest[0]);
  }

  /** Cutting a file anywhere, inside a line or inside a CR LF pair, damages at most the first line of the
      part behind the cut. */
  lemma {:induction false} SuffixSplit(s: Bytes, pos: nat)
    requires pos < |s|
    ensures TailAgrees(SplitLines(s[pos..]), SplitLines(s))
    decreases |s|
  {
    var step := StepLength(s);
    if pos == 0 {
      assert s[0..] == s;
    } else if pos < step {
      assert s[pos..][1..] == s[step..];
    } else {
      assert s[step..][pos - step..] == s[pos..];
      SuffixSplit(s[step..], pos - step);
      StepAgrees(s);
      TailAgreesTransitive(SplitLines(s[pos..]), SplitLines(s[step..]), SplitLines(s));
    }
  }

  lemma PrependBlock(file: Bytes, pos: nat, was: nat)
    requires pos < was <= |file|
    ensures file[pos..was] + file[was..] == file[pos..]
    ensures |LinesFrom(file, pos)| >= 1
  {
  }

  /** What has been read, when it is everything or holds a spare line, has the last lines of the file. */
  lemma EnoughRead(file: Bytes, pos: nat, k: int)
    requires pos < |file| && k >= 1 && (pos == 0 || k < |LinesFrom(file, pos)|)
    ensures LastSlice(LinesFrom(file, pos), k) == LastSlice(LinesFrom(file, 0), k)
  {
    if pos > 0 {
      SuffixSplit(file, pos);
      SameLastLines(SplitLines(file[pos..]), SplitLines(file), k);
    }
  }

  /** Enough lines behind the cut: their last ones are the last ones of the file. */
  lemma SameLastLines(back: seq<Bytes>, all: seq<Bytes>, k: int)
    requires TailAgrees(back, all) && 1 <= k < |back|
    ensures LastSlice(back, k) == LastSlice(all, k)
  {
  }

  // ---------- The reader ----------

  /** The lines of the file from a position on; from position 0, of the whole file. */
  ghost function LinesFrom(file: Bytes, pos: nat): (lines: seq<Bytes>)
    requires pos <= |file|
    ensures pos == 0 ==> lines == SplitLines(file)
  {
    assert file[0..] == file;
    SplitLines(file[pos..])
  }

  /** One block further towards the start of the file. */
  function BlockBack(pos: nat, blockSize: nat): nat {
    if blockSize < pos then pos - blockSize else 0
  }

  /** Reads blocks from the end until it holds more lines than asked for. For max_lines >= 1 it returns
      exactly what splitting the whole file would; it has stopped at the start of the file or with one
      spare line, and never reads a block it could do without. A negative max_lines yields no line at all and
      zero yields every line of the last block: for these the slice does not mean "the last so many". */
  method ReadTailLines(file: Bytes, blockSize: nat, maxLines: int) returns (tail: seq<Bytes>, pos: nat)
    requires blockSize >= 1
    ensures pos <= |file|
    ensures maxLines >= 1 ==> AreLast(tail, SplitLines(file), maxLines)
    ensures maxLines >= 1 ==> pos == 0 || |LinesFrom(file, pos)| > maxLines
    ensures maxLines >= 1 && 0 < pos && pos + blockSize < |file| ==> |LinesFrom(file, pos + blockSize)| <= maxLines
    ensures maxLines < 0 ==> tail == []
    ensures maxLines == 0 ==> tail == LinesFrom(file, BlockBack(|file|, blockSize))
  {
    if |file| == 0 {
      return [], 0;
    }
    var buffer: Bytes := [];
    var lines: seq<Bytes> := [];
    pos := |file|;
    while pos > 0 && |lines| <= maxLines
      invariant pos <= |file| && buffer == file[pos..]
      invariant pos < |file| ==> lines == LinesFrom(file, pos) && |lines| >= 1
      invariant pos == |file| ==> lines == []
      invariant 0 < pos && pos + blockSize < |file| ==> |LinesFrom(file, pos + blockSize)| <= maxLines
      invariant pos < |file| ==> maxLines >= 0
      invariant pos < |file| && maxLines == 0 ==> pos == BlockBack(|file|, blockSize)
    {
      var was := pos;
      var readSize := if blockSize < pos then blockSize else pos;
      pos := pos - readSize;
      var chunk := file[pos..pos + readSize];
      PrependBlock(file, pos, was);
      buffer := chunk + buffer;
      lines := SplitLines(buffer);
    }
    tail := LastSlice(lines, maxLines);
    if maxLines >= 1 {
      EnoughRead(file, pos, maxLines);
      SliceIsLast(LinesFrom(file, 0), maxLines);
    }
  }

  /** Zero is the one request answered wrongly: lines come back although none were asked for, for every file
      but the empty one. */
  lemma ZeroLinesReturnsLines(file: Bytes, blockSize: nat)
    requires blockSize >= 1
    ensures LinesFrom(file, BlockBack(|file|, blockSize)) == [] <==> file == []
  {
    var start := BlockBack(|file|, blockSize);
    if file != [] {
      assert file[start..] != [];
    }
  }
}
