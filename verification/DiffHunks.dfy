// Hunk headers of a unified diff: the parser that feeds the churn counters, and the digest that keeps
// only the headers.
module DiffHunks {
  import opened Options
  import opened Text

  // The new-side file of a hunk and its first line there.
  datatype Hunk = Hunk(file: string, start: nat)

  datatype ParseError = MalformedHeader(line: string) | NoFileHeader(line: string)

  datatype Position = Position(file: Option<string>, source: Option<string>, inHeader: bool)

  // The hunks found so far and where the parser stands, or the error that ended the parse.
  datatype Parse = Going(at: Position, hunks: seq<Hunk>) | Stopped(error: ParseError)

  datatype Outcome = Hunks(hunks: seq<Hunk>) | Error(error: ParseError)

  const Start := Going(Position(None, None, false), [])

  // ---------------------------------------------------------------- one header line

  function BeforeTab(s: string): string {
    if s == "" || s[0] == '\t' then "" else [s[0]] + BeforeTab(s[1..])
  }

  function Unquote(s: string): string {
    if |s| >= 2 && s[0] == '"' && s[|s| - 1] == '"' then s[1..|s| - 1] else s
  }

  // The path of a `--- ` or `+++ ` line; none for /dev/null.
  function DiffPath(raw: string, prefix: string): Option<string> {
    var path := Strip(BeforeTab(raw));
    if path == "/dev/null" then None
    else
      var bare := Unquote(path);
      Some(if StartsWith(bare, prefix) then bare[|prefix|..] else bare)
  }

  // What follows one or more digits.
  function SkipNumber(s: string): Option<string> {
    var n := DigitRun(s);
    if n == 0 then None else Some(s[n..])
  }

  // What follows an optional comma and count.
  function SkipCount(s: string): string {
    if s != "" && s[0] == ',' && SkipNumber(s[1..]).Some? then SkipNumber(s[1..]).value else s
  }

  // `@@ -<old>[,<n>] +<new>[,<n>] @@`: the new side's first line.
  function HeaderStart(line: string): Option<nat> {
    if !StartsWith(line, "@@ -") then None
    else
      var first := SkipNumber(line[4..]);
      if first.None? then None
      else
        var mid := SkipCount(first.value);
        if !StartsWith(mid, " +") then None
        else
          var digits := mid[2..];
          var n := DigitRun(digits);
          if n == 0 || !StartsWith(SkipCount(digits[n..]), " @@") then None
          else Some(NumberOf(digits[..n]))
  }

  // ---------------------------------------------------------------- the parser

  function ParseLine(p: Parse, line: string): Parse {
    if p.Stopped? then p
    else if StartsWith(line, "diff --git ") then p.(at := Position(None, None, true))
    else if p.at.inHeader && StartsWith(line, "--- ") then p.(at := p.at.(source := DiffPath(line[4..], "a/")))
    else if p.at.inHeader && StartsWith(line, "+++ ") then
      var target := DiffPath(line[4..], "b/");
      p.(at := p.at.(file := if target.Some? then target else p.at.source))
    else if StartsWith(line, "@@") then
      var start := HeaderStart(line);
      if start.None? then Stopped(MalformedHeader(line))
      else if p.at.file.None? then Stopped(NoFileHeader(line))
      else Going(p.at.(inHeader := false), p.hunks + [Hunk(p.at.file.value, start.value)])
    else p
  }

  function ParseLines(p: Parse, lines: seq<string>): Parse {
    if lines == [] then p else ParseLine(ParseLines(p, lines[..|lines| - 1]), lines[|lines| - 1])
  }

  function Finish(p: Parse): Outcome {
    match p
    case Going(_, hunks) => Hunks(hunks)
    case Stopped(error) => Error(error)
  }

  method IterHunks(lines: seq<string>) returns (r: Outcome)
    ensures r == Finish(ParseLines(Start, lines))
  {
    var file: Option<string>, source: Option<string>, inHeader := None, None, false;
    var hunks := [];
    for i := 0 to |lines|
      invariant Going(Position(file, source, inHeader), hunks) == ParseLines(Start, lines[..i])
    {
      var line := lines[i];
      assert lines[..i + 1][..i] == lines[..i];
      ParsePrefix(Start, lines, i + 1);
      if StartsWith(line, "diff --git ") {
        inHeader, file, source := true, None, None;
      } else if inHeader && StartsWith(line, "--- ") {
        source := DiffPath(line[4..], "a/");
      } else if inHeader && StartsWith(line, "+++ ") {
        var target := DiffPath(line[4..], "b/");
        file := if target.Some? then target else source;
      } else if StartsWith(line, "@@") {
        var start := HeaderStart(line);
        if start.None? {
          return Error(MalformedHeader(line));
        }
        if file.None? {
          return Error(NoFileHeader(line));
        }
        inHeader := false;
        hunks := hunks + [Hunk(file.value, start.value)];
      }
    }
    assert lines[..|lines|] == lines;
    return Hunks(hunks);
  }

  lemma {:induction false} ParseConcat(p: Parse, a: seq<string>, b: seq<string>)
    ensures ParseLines(p, a + b) == ParseLines(ParseLines(p, a), b)
  {
    if b == [] {
      assert a + b == a;
    } else {
      assert (a + b)[..|a + b| - 1] == a + b[..|b| - 1];
      ParseConcat(p, a, b[..|b| - 1]);
    }
  }

  lemma {:induction false} StoppedStays(p: Parse, lines: seq<string>)
    requires p.Stopped?
    ensures ParseLines(p, lines) == p
  {
    if lines != [] {
      StoppedStays(p, lines[..|lines| - 1]);
    }
  }

  lemma {:induction false} ParsePrefix(p: Parse, lines: seq<string>, i: nat)
    requires i <= |lines|
    ensures ParseLines(p, lines) == ParseLines(ParseLines(p, lines[..i]), lines[i..])
    ensures ParseLines(p, lines[..i]).Stopped? ==> ParseLines(p, lines) == ParseLines(p, lines[..i])
  {
    assert lines == lines[..i] + lines[i..];
    ParseConcat(p, lines[..i], lines[i..]);
    if ParseLines(p, lines[..i]).Stopped? {
      StoppedStays(ParseLines(p, lines[..i]), lines[i..]);
    }
  }

  // ---------------------------------------------------------------- the digest

  // The kept lines, and whether the last line was still before its file's first hunk.
  datatype Digest = Digest(kept: seq<string>, inPreamble: bool)

  function DigestLine(d: Digest, line: string): Digest {
    if StartsWith(line, "diff --git ") then Digest(d.kept + [line], true)
    else if StartsWith(line, "@@") then Digest(d.kept + [line], false)
    else if d.inPreamble then Digest(d.kept + [line], true)
    else d
  }

  function DigestOf(lines: seq<string>): Digest {
    if lines == [] then Digest([], false)
    else DigestLine(DigestOf(lines[..|lines| - 1]), lines[|lines| - 1])
  }

  method HunkHeaders(lines: seq<string>) returns (kept: seq<string>)
    ensures kept == DigestOf(lines).kept
  {
    kept := [];
    var inPreamble := false;
    for i := 0 to |lines|
      invariant Digest(kept, inPreamble) == DigestOf(lines[..i])
    {
      var line := lines[i];
      assert lines[..i + 1][..i] == lines[..i];
      if StartsWith(line, "diff --git ") {
        inPreamble := true;
        kept := kept + [line];
      } else if StartsWith(line, "@@") {
        inPreamble := false;
        kept := kept + [line];
      } else if inPreamble {
        kept := kept + [line];
      }
    }
    assert lines[..|lines|] == lines;
  }

  lemma {:induction false} ParseAppend(lines: seq<string>, line: string)
    ensures ParseLines(Start, lines + [line]) == ParseLine(ParseLines(Start, lines), line)
  {
    assert (lines + [line])[..|lines|] == lines;
  }

  // The two machines agree on where the file headers end; a line the digest drops is one the parser skips.
  lemma {:induction false} SameFlag(p: Parse, d: Digest, line: string)
    requires p.Going? ==> p.at.inHeader == d.inPreamble
    ensures ParseLine(p, line).Going? ==> ParseLine(p, line).at.inHeader == DigestLine(d, line).inPreamble
    ensures DigestLine(d, line).kept == d.kept + [line] || (DigestLine(d, line) == d && ParseLine(p, line) == p)
  {
    FirstCharacter(line, "@@");
    FirstCharacter(line, "--- ");
    FirstCharacter(line, "+++ ");
  }

  lemma {:induction false} DigestInStep(lines: seq<string>)
    ensures ParseLines(Start, DigestOf(lines).kept) == ParseLines(Start, lines)
    ensures ParseLines(Start, lines).Going? ==> ParseLines(Start, lines).at.inHeader == DigestOf(lines).inPreamble
  {
    if lines != [] {
      var init, last := lines[..|lines| - 1], lines[|lines| - 1];
      DigestInStep(init);
      SameFlag(ParseLines(Start, init), DigestOf(init), last);
      ParseAppend(DigestOf(init).kept, last);
    }
  }

  // Parsing the digest gives the same hunks, or the same error, as parsing the diff.
  lemma {:induction false} DigestParsesTheSame(lines: seq<string>)
    ensures Finish(ParseLines(Start, DigestOf(lines).kept)) == Finish(ParseLines(Start, lines))
  {
    DigestInStep(lines);
  }

  // Digesting twice changes nothing.
  lemma {:induction false} DigestIsIdempotent(lines: seq<string>)
    ensures DigestOf(DigestOf(lines).kept) == DigestOf(lines)
  {
    if lines != [] {
      var init, last := lines[..|lines| - 1], lines[|lines| - 1];
      var d := DigestOf(init);
      DigestIsIdempotent(init);
      assert (d.kept + [last])[..|d.kept|] == d.kept;
    }
  }

  // ---------------------------------------------------------------- rendered diffs

  datatype HunkText = HunkText(
    oldStart: nat,
    oldCount: Option<nat>,
    start: nat,
    count: Option<nat>,
    context: string,
    body: seq<string>
  )

  // A path as a file-header line shows it, with the tab git appends to some names.
  datatype Side = Side(path: Option<string>, tab: bool)

  // One file of a diff; a pure rename or a binary file has no header pair and no hunks.
  datatype FileText = FileText(title: string, extended: seq<string>, sides: Option<(Side, Side)>, hunks: seq<HunkText>)

  function Count(n: Option<nat>): string {
    if n.Some? then "," + Decimal(n.value) else ""
  }

  function HeaderLine(h: HunkText): string {
    "@@ -" + (Decimal(h.oldStart)
        + (Count(h.oldCount) + (" +" + (Decimal(h.start) + (Count(h.count) + (" @@" + h.context))))))
  }

  function RenderHunk(h: HunkText): seq<string> {
    [HeaderLine(h)] + h.body
  }

  function RenderHunks(hs: seq<HunkText>): seq<string> {
    if hs == [] then [] else RenderHunks(hs[..|hs| - 1]) + RenderHunk(hs[|hs| - 1])
  }

  function SideText(s: Side, prefix: string): string {
    (if s.path.Some? then prefix + s.path.value else "/dev/null") + if s.tab then "\t" else ""
  }

  function RenderFile(f: FileText): seq<string> {
    ["diff --git " + f.title] + f.extended
    + (if f.sides.Some? then ["--- " + SideText(f.sides.value.0, "a/"), "+++ " + SideText(f.sides.value.1, "b/")]
        else [])
    + RenderHunks(f.hunks)
  }

  function Render(fs: seq<FileText>): seq<string> {
    if fs == [] then [] else Render(fs[..|fs| - 1]) + RenderFile(fs[|fs| - 1])
  }

  // Hunks belong to the new path, or to the old one when the file was deleted.
  function FileOf(sides: (Side, Side)): Option<string> {
    if sides.1.path.Some? then sides.1.path else sides.0.path
  }

  function HunksIn(file: string, hs: seq<HunkText>): seq<Hunk> {
    if hs == [] then [] else HunksIn(file, hs[..|hs| - 1]) + [Hunk(file, hs[|hs| - 1].start)]
  }

  function Expected(fs: seq<FileText>): seq<Hunk> {
    if fs == [] then []
    else
      var last := fs[|fs| - 1];
      Expected(fs[..|fs| - 1])
      + if last.sides.Some? && FileOf(last.sides.value).Some?
        then HunksIn(FileOf(last.sides.value).value, last.hunks) else []
  }

  // Body lines carry their own marker, so they can look like anything after it.
  predicate BodyLine(line: string) {
    line != "" && (line[0] == ' ' || line[0] == '+' || line[0] == '-' || line[0] == '\\')
  }

  // index, mode, rename and similar lines.
  predicate ExtendedLine(line: string) {
    !StartsWith(line, "diff --git ") && !StartsWith(line, "--- ") && !StartsWith(line, "+++ ")
        && !StartsWith(line, "@@")
  }

  // No tab inside and no white space at the end.
  predicate PlainPath(path: string) {
    (forall i :: 0 <= i < |path| ==> path[i] != '\t') && (path != "" ==> !IsSpace(path[|path| - 1]))
  }

  predicate Bodies(hs: seq<HunkText>) {
    forall i :: 0 <= i < |hs| ==> forall line :: line in hs[i].body ==> BodyLine(line)
  }

  predicate WellFormedFile(f: FileText) {
    && (forall line :: line in f.extended ==> ExtendedLine(line))
    && Bodies(f.hunks)
    && (f.sides.Some? ==>
          && (f.sides.value.0.path.Some? ==> PlainPath(f.sides.value.0.path.value))
          && (f.sides.value.1.path.Some? ==> PlainPath(f.sides.value.1.path.value)))
    && (f.hunks != [] ==> f.sides.Some? && FileOf(f.sides.value).Some?)
  }

  // ---------------------------------------------------------------- one rendered line parses back

  lemma {:induction false} SkipsNumber(n: nat, rest: string)
    requires rest == "" || !IsDigit(rest[0])
    ensures SkipNumber(Decimal(n) + rest) == Some(rest)
    ensures DigitRun(Decimal(n) + rest) == |Decimal(n)| && (Decimal(n) + rest)[..|Decimal(n)|] == Decimal(n)
  {
    DigitRunOf(Decimal(n), rest);
    assert (Decimal(n) + rest)[|Decimal(n)|..] == rest;
  }

  lemma {:induction false} SkipsCount(n: Option<nat>, rest: string)
    requires rest != "" && rest[0] == ' '
    ensures SkipCount(Count(n) + rest) == rest
    ensures Count(n) + rest != "" && !IsDigit((Count(n) + rest)[0])
  {
    if n.Some? {
      assert Count(n) + rest == "," + (Decimal(n.value) + rest);
      assert ("," + (Decimal(n.value) + rest))[1..] == Decimal(n.value) + rest;
      SkipsNumber(n.value, rest);
    } else {
      assert Count(n) + rest == rest;
    }
  }

  lemma {:induction false} HeaderRoundTrip(h: HunkText)
    ensures HeaderStart(HeaderLine(h)) == Some(h.start)
    ensures StartsWith(HeaderLine(h), "@@")
  {
    var line := HeaderLine(h);
    var tail := " @@" + h.context;
    var digits := Decimal(h.start) + (Count(h.count) + tail);
    var mid := " +" + digits;
    var afterDash := Decimal(h.oldStart) + (Count(h.oldCount) + mid);
    assert line == "@@ -" + afterDash && line[..4] == "@@ -" && line[4..] == afterDash && line[..2] == "@@";
    SkipsCount(h.oldCount, mid);
    SkipsNumber(h.oldStart, Count(h.oldCount) + mid);
    assert mid[..2] == " +" && mid[2..] == digits;
    SkipsCount(h.count, tail);
    SkipsNumber(h.start, Count(h.count) + tail);
    assert digits[|Decimal(h.start)|..] == Count(h.count) + tail;
    assert tail[..3] == " @@";
    DecimalRoundTrip(h.start);
  }

  lemma {:induction false} BeforeTabOf(s: string, rest: string)
    requires forall i :: 0 <= i < |s| ==> s[i] != '\t'
    requires rest == "" || rest[0] == '\t'
    ensures BeforeTab(s + rest) == s
  {
    if s == "" {
      assert s + rest == rest;
    } else {
      assert (s + rest)[1..] == s[1..] + rest;
      BeforeTabOf(s[1..], rest);
    }
  }

  lemma {:induction false} PathRoundTrip(s: Side, prefix: string)
    requires prefix == "a/" || prefix == "b/"
    requires s.path.Some? ==> PlainPath(s.path.value)
    ensures DiffPath(SideText(s, prefix), prefix) == s.path
  {
    var name := if s.path.Some? then prefix + s.path.value else "/dev/null";
    BeforeTabOf(name, if s.tab then "\t" else "");
    assert IsStripped(name);
    StripStrips(name);
    if s.path.Some? {
      assert name[0] == prefix[0] && name[|prefix|..] == s.path.value && name[..|prefix|] == prefix;
    }
  }

  // ---------------------------------------------------------------- whole files

  lemma {:induction false} SkipsExtended(p: Parse, lines: seq<string>)
    requires p.Going? && forall line :: line in lines ==> ExtendedLine(line)
    ensures ParseLines(p, lines) == p
  {
    if lines != [] {
      assert lines[|lines| - 1] in lines;
      SkipsExtended(p, lines[..|lines| - 1]);
    }
  }

  // Past its header, a file's body lines are skipped, whatever they look like.
  lemma {:induction false} SkipsBody(p: Parse, lines: seq<string>)
    requires p.Going? && !p.at.inHeader && forall line :: line in lines ==> BodyLine(line)
    ensures ParseLines(p, lines) == p
  {
    if lines != [] {
      var last := lines[|lines| - 1];
      assert last in lines;
      FirstCharacter(last, "@@");
      FirstCharacter(last, "diff --git ");
      SkipsBody(p, lines[..|lines| - 1]);
    }
  }

  lemma {:induction false} ParsesHunk(p: Parse, h: HunkText)
    requires p.Going? && p.at.file.Some? && forall line :: line in h.body ==> BodyLine(line)
    ensures ParseLines(p, RenderHunk(h)) ==
            Going(p.at.(inHeader := false), p.hunks + [Hunk(p.at.file.value, h.start)])
  {
    var line := HeaderLine(h);
    HeaderRoundTrip(h);
    FirstCharacter(line, "@@");
    FirstCharacter(line, "diff --git ");
    FirstCharacter(line, "--- ");
    FirstCharacter(line, "+++ ");
    ParseConcat(p, [line], h.body);
    assert [line][..0] == [];
    assert ParseLines(p, [line]) == ParseLine(p, line);
    SkipsBody(ParseLine(p, line), h.body);
  }

  lemma {:induction false} ParsesHunks(p: Parse, hs: seq<HunkText>)
    requires p.Going? && p.at.file.Some? && Bodies(hs)
    ensures ParseLines(p, RenderHunks(hs)) ==
            Going(if hs == [] then p.at else p.at.(inHeader := false), p.hunks + HunksIn(p.at.file.value, hs))
  {
    if hs != [] {
      var init, last := hs[..|hs| - 1], hs[|hs| - 1];
      ParsesHunks(p, init);
      ParseConcat(p, RenderHunks(init), RenderHunk(last));
      ParsesHunk(ParseLines(p, RenderHunks(init)), last);
    }
  }

  // The header pair of a file sets the file its hunks belong to.
  lemma {:induction false} ParsesSides(p: Parse, sides: (Side, Side))
    requires p.Going? && p.at == Position(None, None, true)
    requires sides.0.path.Some? ==> PlainPath(sides.0.path.value)
    requires sides.1.path.Some? ==> PlainPath(sides.1.path.value)
    ensures ParseLines(p, ["--- " + SideText(sides.0, "a/"), "+++ " + SideText(sides.1, "b/")]) ==
            Going(Position(FileOf(sides), sides.0.path, true), p.hunks)
  {
    var minus, plus := "--- " + SideText(sides.0, "a/"), "+++ " + SideText(sides.1, "b/");
    PathRoundTrip(sides.0, "a/");
    PathRoundTrip(sides.1, "b/");
    assert minus[..4] == "--- " && minus[4..] == SideText(sides.0, "a/");
    assert plus[..4] == "+++ " && plus[4..] == SideText(sides.1, "b/");
    FirstCharacter(minus, "diff --git ");
    FirstCharacter(plus, "diff --git ");
    FirstCharacter(plus, "--- ");
    assert [minus, plus][..1] == [minus] && [minus][..0] == [];
    assert ParseLines(p, [minus]) == ParseLine(p, minus);
  }

  lemma {:induction false} ParsesFile(p: Parse, f: FileText)
    requires p.Going? && WellFormedFile(f)
    ensures ParseLines(p, RenderFile(f)).Going?
    ensures ParseLines(p, RenderFile(f)).hunks == p.hunks
            + if f.sides.Some? && FileOf(f.sides.value).Some? then HunksIn(FileOf(f.sides.value).value, f.hunks) else []
  {
    var title := "diff --git " + f.title;
    assert title[..11] == "diff --git ";
    var sides := if f.sides.Some?
        then ["--- " + SideText(f.sides.value.0, "a/"), "+++ " + SideText(f.sides.value.1, "b/")] else [];
    assert RenderFile(f) == [title] + (f.extended + (sides + RenderHunks(f.hunks)));
    ParseConcat(p, [title], f.extended + (sides + RenderHunks(f.hunks)));
    assert [title][..0] == [];
    var q := ParseLine(p, title);
    assert ParseLines(p, [title]) == q;
    ParseConcat(q, f.extended, sides + RenderHunks(f.hunks));
    SkipsExtended(q, f.extended);
    ParseConcat(q, sides, RenderHunks(f.hunks));
    if f.sides.Some? {
      ParsesSides(q, f.sides.value);
      if FileOf(f.sides.value).Some? {
        ParsesHunks(ParseLines(q, sides), f.hunks);
      }
    }
  }

  // On a rendered diff the parser returns exactly its hunks, even when body lines look like headers.
  lemma {:induction false} RenderedDiffParses(fs: seq<FileText>)
    requires forall i :: 0 <= i < |fs| ==> WellFormedFile(fs[i])
    ensures ParseLines(Start, Render(fs)).Going?
    ensures Finish(ParseLines(Start, Render(fs))) == Hunks(Expected(fs))
  {
    if fs != [] {
      var init, last := fs[..|fs| - 1], fs[|fs| - 1];
      RenderedDiffParses(init);
      ParseConcat(Start, Render(init), RenderFile(last));
      ParsesFile(ParseLines(Start, Render(init)), last);
    }
  }
}
