// The parser and the digest on arbitrary lines: which lines are hunk headers, which are kept, and what an
// accepted or refused diff says.
module DiffShapes {
  import opened Options
  import opened Text
  import opened DiffHunks

  // ---------------------------------------------------------------- the form of a hunk header

  predicate IsDigits(s: string) {
    s != "" && forall i :: 0 <= i < |s| ==> IsDigit(s[i])
  }

  predicate IsCount(s: string) {
    s == "" || (s[0] == ',' && IsDigits(s[1..]))
  }

  // `@@ -<a><c> +<first><d> @@<tail>`
  predicate HasForm(line: string, a: string, c: string, first: string, d: string, tail: string) {
    && IsDigits(a) && IsCount(c) && IsDigits(first) && IsCount(d)
    && line == "@@ -" + (a + (c + (" +" + (first + (d + (" @@" + tail))))))
  }

  lemma {:induction false} SkipsDigits(digits: string, rest: string)
    requires IsDigits(digits) && (rest == "" || !IsDigit(rest[0]))
    ensures DigitRun(digits + rest) == |digits| && (digits + rest)[..|digits|] == digits
    ensures (digits + rest)[|digits|..] == rest && SkipNumber(digits + rest) == Some(rest)
  {
    DigitRunOf(digits, rest);
  }

  lemma {:induction false} SkipsOneCount(count: string, rest: string)
    requires IsCount(count) && rest != "" && rest[0] == ' '
    ensures SkipCount(count + rest) == rest && count + rest != "" && !IsDigit((count + rest)[0])
  {
    if count == "" {
      assert count + rest == rest;
    } else {
      assert (count + rest)[1..] == count[1..] + rest;
      SkipsDigits(count[1..], rest);
    }
  }

  lemma {:induction false} NewSideIsRead(first: string, d: string, end: string)
    requires IsDigits(first) && IsCount(d) && StartsWith(end, " @@")
    ensures var s := first + (d + end);
            && DigitRun(s) == |first| && s[..DigitRun(s)] == first && StartsWith(SkipCount(s[DigitRun(s)..]), " @@")
  {
    assert end[..3][0] == ' ';
    SkipsOneCount(d, end);
    SkipsDigits(first, d + end);
  }

  lemma {:induction false} OldSideIsRead(a: string, c: string, mid: string)
    requires IsDigits(a) && IsCount(c) && StartsWith(mid, " +")
    ensures SkipNumber(a + (c + mid)) == Some(c + mid) && SkipCount(c + mid) == mid
  {
    assert mid[..2][0] == ' ';
    SkipsOneCount(c, mid);
    SkipsDigits(a, c + mid);
  }

  lemma {:induction false} PrefixIsRead(prefix: string, rest: string)
    ensures StartsWith(prefix + rest, prefix) && (prefix + rest)[|prefix|..] == rest
  {
  }

  lemma {:induction false} FormIsRead(line: string, a: string, c: string, first: string, d: string, tail: string)
    requires HasForm(line, a, c, first, d, tail)
    ensures HeaderStart(line) == Some(NumberOf(first))
  {
    var end := " @@" + tail;
    var mid := " +" + (first + (d + end));
    PrefixIsRead(" @@", tail);
    PrefixIsRead(" +", first + (d + end));
    PrefixIsRead("@@ -", a + (c + mid));
    OldSideIsRead(a, c, mid);
    NewSideIsRead(first, d, end);
  }

  // An optional count splits off what it skips.
  lemma {:induction false} CountSplits(s: string) returns (count: string)
    ensures IsCount(count) && s == count + SkipCount(s)
  {
    count := "";
    if s != "" && s[0] == ',' && SkipNumber(s[1..]).Some? {
      var n := DigitRun(s[1..]);
      count := s[..n + 1];
      assert count[1..] == s[1..][..n] && s[n + 1..] == s[1..][n..];
    }
  }

  lemma {:induction false} PrefixSplits(s: string, prefix: string)
    requires StartsWith(s, prefix)
    ensures s == prefix + s[|prefix|..]
  {
  }

  lemma {:induction false} NumberSplits(s: string) returns (digits: string, rest: string)
    requires DigitRun(s) > 0
    ensures digits == s[..DigitRun(s)] && rest == s[DigitRun(s)..]
    ensures IsDigits(digits) && s == digits + rest && SkipNumber(s) == Some(rest)
  {
    digits, rest := s[..DigitRun(s)], s[DigitRun(s)..];
  }

  // The new side: the number, an optional count, and the end of the header.
  lemma {:induction false} NewSideHasForm(s: string) returns (first: string, d: string, tail: string)
    requires DigitRun(s) > 0 && StartsWith(SkipCount(s[DigitRun(s)..]), " @@")
    ensures IsDigits(first) && IsCount(d) && s == first + (d + (" @@" + tail)) && first == s[..DigitRun(s)]
  {
    var rest;
    first, rest := NumberSplits(s);
    d := CountSplits(rest);
    PrefixSplits(SkipCount(rest), " @@");
    tail := SkipCount(rest)[3..];
  }

  lemma {:induction false} ReadHasForm(line: string)
    returns (a: string, c: string, first: string, d: string, tail: string)
    requires HeaderStart(line).Some?
    ensures HasForm(line, a, c, first, d, tail) && HeaderStart(line) == Some(NumberOf(first))
  {
    PrefixSplits(line, "@@ -");
    var rest;
    a, rest := NumberSplits(line[4..]);
    c := CountSplits(rest);
    var mid := SkipCount(rest);
    PrefixSplits(mid, " +");
    first, d, tail := NewSideHasForm(mid[2..]);
  }

  // A line is read as a hunk header exactly when it has the form, and its number is the one after the plus.
  lemma {:induction false} HeadersExactly(line: string, n: nat)
    ensures HeaderStart(line) == Some(n) <==>
            exists a, c, first, d, tail :: HasForm(line, a, c, first, d, tail) && NumberOf(first) == n
  {
    if HeaderStart(line) == Some(n) {
      var a, c, first, d, tail := ReadHasForm(line);
    }
    if a, c, first, d, tail :| HasForm(line, a, c, first, d, tail) && NumberOf(first) == n {
      FormIsRead(line, a, c, first, d, tail);
    }
  }

  // ---------------------------------------------------------------- accepted and refused diffs

  predicate IsHunkLine(line: string) {
    StartsWith(line, "@@")
  }

  function HunkLines(lines: seq<string>): (r: seq<string>)
    ensures forall line :: line in r <==> line in lines && IsHunkLine(line)
  {
    if lines == [] then []
    else
      var init, last := lines[..|lines| - 1], lines[|lines| - 1];
      assert lines == init + [last];
      HunkLines(init) + if IsHunkLine(last) then [last] else []
  }

  lemma {:induction false} HunkLineIsNoOther(line: string)
    requires IsHunkLine(line)
    ensures !StartsWith(line, "diff --git ") && !StartsWith(line, "--- ") && !StartsWith(line, "+++ ")
  {
    FirstCharacter(line, "@@");
    FirstCharacter(line, "diff --git ");
    FirstCharacter(line, "--- ");
    FirstCharacter(line, "+++ ");
  }

  lemma {:induction false} NextLine(p: Parse, line: string)
    requires p.Going?
    ensures !IsHunkLine(line) ==> ParseLine(p, line).Going? && ParseLine(p, line).hunks == p.hunks
    ensures IsHunkLine(line) && HeaderStart(line).None? ==> ParseLine(p, line) == Stopped(MalformedHeader(line))
    ensures IsHunkLine(line) && HeaderStart(line).Some? && p.at.file.None? ==>
              ParseLine(p, line) == Stopped(NoFileHeader(line))
    ensures IsHunkLine(line) && HeaderStart(line).Some? && p.at.file.Some? ==>
              ParseLine(p, line).Going?
              && ParseLine(p, line).hunks == p.hunks + [Hunk(p.at.file.value, HeaderStart(line).value)]
  {
    if IsHunkLine(line) {
      HunkLineIsNoOther(line);
    }
  }

  // No hunk is lost and none is made up: an accepted diff gives one hunk for each of its `@@` lines, in
  // order, with that line's number.
  lemma {:induction false} AcceptedDiffGivesAllHunks(lines: seq<string>)
    requires ParseLines(Start, lines).Going?
    ensures var hunks := ParseLines(Start, lines).hunks;
            && |hunks| == |HunkLines(lines)|
            && forall k :: 0 <= k < |hunks| ==> HeaderStart(HunkLines(lines)[k]) == Some(hunks[k].start)
  {
    if lines != [] {
      var init, last := lines[..|lines| - 1], lines[|lines| - 1];
      AcceptedDiffGivesAllHunks(init);
      NextLine(ParseLines(Start, init), last);
    }
  }

  // An `@@` line of the diff without the form of a header, or one with it that no file header precedes.
  predicate AtFault(line: string, error: ParseError) {
    && IsHunkLine(line)
    && match error
       case MalformedHeader(named) => named == line && HeaderStart(line).None?
       case NoFileHeader(named) => named == line && HeaderStart(line).Some?
  }

  // A refusal names the line at fault.
  lemma {:induction false} RefusedDiffNamesTheLine(lines: seq<string>) returns (line: string)
    requires ParseLines(Start, lines).Stopped?
    ensures line in lines && AtFault(line, ParseLines(Start, lines).error)
  {
    var init, last := lines[..|lines| - 1], lines[|lines| - 1];
    assert forall l :: l in init || l == last ==> l in lines;
    if ParseLines(Start, init).Stopped? {
      line := RefusedDiffNamesTheLine(init);
    } else {
      line := last;
      NextLine(ParseLines(Start, init), last);
    }
  }

  // ---------------------------------------------------------------- what the digest keeps

  // Between a `diff --git` line and the file's first hunk.
  predicate InPreamble(lines: seq<string>, i: nat)
    requires i <= |lines|
  {
    exists j :: 0 <= j < i && OpensPreamble(lines, i, j)
  }

  predicate OpensPreamble(lines: seq<string>, i: nat, j: nat)
    requires j < i <= |lines|
  {
    StartsWith(lines[j], "diff --git ") && forall k :: j < k < i ==> !IsHunkLine(lines[k])
  }

  lemma {:induction false} PreambleMovesOn(lines: seq<string>, i: nat)
    requires i < |lines|
    ensures InPreamble(lines, i + 1) <==>
            StartsWith(lines[i], "diff --git ") || (InPreamble(lines, i) && !IsHunkLine(lines[i]))
  {
    if StartsWith(lines[i], "diff --git ") {
      assert OpensPreamble(lines, i + 1, i);
    } else {
      if InPreamble(lines, i + 1) {
        var j :| 0 <= j < i + 1 && OpensPreamble(lines, i + 1, j);
        assert OpensPreamble(lines, i, j);
      }
      if InPreamble(lines, i) && !IsHunkLine(lines[i]) {
        var j :| 0 <= j < i && OpensPreamble(lines, i, j);
        assert OpensPreamble(lines, i + 1, j);
      }
    }
  }

  lemma {:induction false} FlagIsPreamble(lines: seq<string>, i: nat)
    requires i <= |lines|
    ensures DigestOf(lines[..i]).inPreamble <==> InPreamble(lines, i)
  {
    if i > 0 {
      FlagIsPreamble(lines, i - 1);
      PreambleMovesOn(lines, i - 1);
      assert lines[..i][..i - 1] == lines[..i - 1];
      if IsHunkLine(lines[i - 1]) {
        HunkLineIsNoOther(lines[i - 1]);
      }
    }
  }

  // The digest keeps a line exactly when it starts a file or a hunk or stands before its file's first
  // hunk: hunk bodies go, and nothing else does.
  lemma {:induction false} DigestKeepsExactly(lines: seq<string>, i: nat)
    requires i < |lines|
    ensures DigestOf(lines[..i + 1]).kept
         == DigestOf(lines[..i]).kept
          + if StartsWith(lines[i], "diff --git ") || IsHunkLine(lines[i]) || InPreamble(lines, i) then [lines[i]]
            else []
  {
    FlagIsPreamble(lines, i);
    assert lines[..i + 1][..i] == lines[..i];
  }
}
