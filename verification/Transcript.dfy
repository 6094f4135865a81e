// The transcript of a decision session: turns are appended as text and parsed back after a restart.
module Transcript {
  import opened Options
  import opened Text

  datatype Author = Founder | Agent
  datatype Turn = Turn(n: nat, author: Author, text: string, at: string)

  // ---------------------------------------------------------------- lines

  // Text-mode reading: "\r\n" and "\r" become "\n".
  function Read(s: string): (r: string)
    ensures '\r' !in r
  {
    if s == "" then ""
    else if s[0] == '\r' then "\n" + Read(if |s| > 1 && s[1] == '\n' then s[2..] else s[1..])
    else [s[0]] + Read(s[1..])
  }

  function Split(s: string): (r: seq<string>)
    ensures r != []
  {
    if s == "" then [""]
    else
      var rest := Split(s[1..]);
      if s[0] == '\n' then [""] + rest else [[s[0]] + rest[0]] + rest[1..]
  }

  function Join(lines: seq<string>): string {
    if lines == [] then ""
    else if |lines| == 1 then lines[0]
    else lines[0] + "\n" + Join(lines[1..])
  }

  lemma {:induction false} SplitConcat(a: string, b: string)
    ensures Split(a + "\n" + b) == Split(a) + Split(b)
  {
    var s := a + "\n" + b;
    if a == "" {
      assert s[1..] == b;
    } else {
      assert s[1..] == a[1..] + "\n" + b;
      SplitConcat(a[1..], b);
    }
  }

  lemma {:induction false} JoinGrows(c: char, rest: seq<string>)
    requires rest != []
    ensures Join([[c] + rest[0]] + rest[1..]) == [c] + Join(rest)
    ensures Join([""] + rest) == "\n" + Join(rest)
  {
    assert ([[c] + rest[0]] + rest[1..])[1..] == rest[1..] && ([""] + rest)[1..] == rest;
    assert |rest| > 1 ==> ([c] + rest[0]) + "\n" + Join(rest[1..]) == [c] + (rest[0] + "\n" + Join(rest[1..]));
    assert "" + "\n" + Join(rest) == "\n" + Join(rest);
  }

  lemma {:induction false} JoinSplit(s: string)
    ensures Join(Split(s)) == s
  {
    if s != "" {
      JoinSplit(s[1..]);
      JoinGrows(s[0], Split(s[1..]));
      assert s == [s[0]] + s[1..];
    }
  }

  lemma {:induction false} JoinConcat(a: seq<string>, b: seq<string>)
    requires a != [] && b != []
    ensures Join(a + b) == Join(a) + "\n" + Join(b)
  {
    if |a| == 1 {
      assert (a + b)[1..] == b;
    } else {
      assert (a + b)[1..] == a[1..] + b;
      JoinConcat(a[1..], b);
    }
  }

  lemma {:induction false} ReadConcat(a: string, b: string)
    requires b == "" || b[0] != '\n' || a == "" || a[|a| - 1] != '\r'
    ensures Read(a + b) == Read(a) + Read(b)
  {
    if a == "" {
      assert a + b == b;
    } else {
      assert (a + b)[0] == a[0] && (|a| > 1 ==> (a + b)[1] == a[1]);
      if a[0] == '\r' && |a| > 1 && a[1] == '\n' {
        assert (a + b)[2..] == a[2..] + b;
        ReadConcat(a[2..], b);
        assert "\n" + (Read(a[2..]) + Read(b)) == ("\n" + Read(a[2..])) + Read(b);
      } else {
        assert (a + b)[1..] == a[1..] + b;
        ReadConcat(a[1..], b);
        var c := if a[0] == '\r' then "\n" else [a[0]];
        assert c + (Read(a[1..]) + Read(b)) == (c + Read(a[1..])) + Read(b);
      }
    }
  }

  lemma {:induction false} ReadClean(s: string)
    requires '\r' !in s
    ensures Read(s) == s
  {
    if s != "" {
      assert s[0] in s;
      assert forall c :: c in s[1..] ==> c in s;
      ReadClean(s[1..]);
    }
  }

  // ---------------------------------------------------------------- the header line

  function Label(a: Author): string {
    match a
    case Founder => "Fondator"
    case Agent => "Agent"
  }

  // YYYY-MM-DDTHH:MM:SSZ
  predicate IsTimestamp(s: string) {
    && |s| == 20
    && (forall i :: 0 <= i < 20 && i !in {4, 7, 10, 13, 16, 19} ==> IsDigit(s[i]))
    && s[4] == '-' && s[7] == '-' && s[10] == 'T' && s[13] == ':' && s[16] == ':' && s[19] == 'Z'
  }

  function HeaderLine(a: Author, at: string): string {
    "## " + Label(a) + " \U{2014} " + at
  }

  predicate IsHeaderOf(line: string, a: Author) {
    && |line| == |HeaderLine(a, "")| + 20
    && line[..|line| - 20] == HeaderLine(a, "")
    && IsTimestamp(line[|line| - 20..])
  }

  predicate IsHeader(line: string) {
    IsHeaderOf(line, Founder) || IsHeaderOf(line, Agent)
  }

  function AuthorOf(line: string): Author {
    if IsHeaderOf(line, Founder) then Founder else Agent
  }

  function TimeOf(line: string): string
    requires IsHeader(line)
  {
    line[|line| - 20..]
  }

  lemma {:induction false} HeaderParses(a: Author, at: string)
    requires IsTimestamp(at)
    ensures IsHeader(HeaderLine(a, at)) && AuthorOf(HeaderLine(a, at)) == a && TimeOf(HeaderLine(a, at)) == at
  {
    var line := HeaderLine(a, at);
    assert line[..|line| - 20] == HeaderLine(a, "");
    assert line[|line| - 20..] == at;
  }

  // ---------------------------------------------------------------- parsing

  // A turn as collected so far: its header and the lines under it.
  datatype Block = Block(author: Author, at: string, body: seq<string>)

  function CollectLine(blocks: seq<Block>, line: string): seq<Block> {
    if IsHeader(line) then blocks + [Block(AuthorOf(line), TimeOf(line), [])]
    else if blocks == [] then []
    else
      var last := blocks[|blocks| - 1];
      blocks[..|blocks| - 1] + [last.(body := last.body + [line])]
  }

  function Collect(lines: seq<string>): seq<Block> {
    if lines == [] then [] else CollectLine(Collect(lines[..|lines| - 1]), lines[|lines| - 1])
  }

  function TurnOf(b: Block, n: nat): Turn {
    Turn(n, b.author, Strip(Join(b.body)), b.at)
  }

  function TurnsOf(blocks: seq<Block>): (r: seq<Turn>)
    ensures |r| == |blocks| && forall i :: 0 <= i < |r| ==> r[i] == TurnOf(blocks[i], i + 1)
  {
    if blocks == [] then [] else TurnsOf(blocks[..|blocks| - 1]) + [TurnOf(blocks[|blocks| - 1], |blocks|)]
  }

  function Parse(file: string): seq<Turn> {
    TurnsOf(Collect(Split(Read(file))))
  }

  function Print(author: Author, text: string, at: string): string {
    HeaderLine(author, at) + "\n\n" + text + "\n"
  }

  // Appending one turn to an existing file.
  function Append(file: string, author: Author, text: string, at: string): string {
    file + ("\n" + Print(author, text, at))
  }

  // What the first append finds: the file, or the title line it writes itself.
  function Opened(file: Option<string>, title: string): string {
    match file
    case None => title + "\n"
    case Some(content) => content
  }

  lemma {:induction false} CollectLineBeyond(left: seq<Block>, right: seq<Block>, line: string)
    requires right != [] || IsHeader(line)
    ensures CollectLine(left + right, line) == left + CollectLine(right, line)
    ensures CollectLine(right, line) != []
  {
    var both := left + right;
    if right != [] {
      assert both[|both| - 1] == right[|right| - 1];
      assert both[..|both| - 1] == left + right[..|right| - 1];
    }
  }

  // Lines from a header on do not touch the blocks before it.
  lemma {:induction false} CollectConcat(a: seq<string>, b: seq<string>)
    requires b != [] && IsHeader(b[0])
    ensures Collect(a + b) == Collect(a) + Collect(b) && Collect(b) != []
  {
    var n := |b|;
    assert (a + b)[..|a + b| - 1] == a + b[..n - 1];
    if n == 1 {
      assert a + b[..0] == a;
    } else {
      CollectConcat(a, b[..n - 1]);
    }
    CollectLineBeyond(Collect(a), Collect(b[..n - 1]), b[n - 1]);
  }

  // Lines that are no headers all go to the open block.
  lemma {:induction false} CollectBody(head: string, body: seq<string>)
    requires IsHeader(head) && forall line :: line in body ==> !IsHeader(line)
    ensures Collect([head] + body) == [Block(AuthorOf(head), TimeOf(head), body)]
  {
    if body == [] {
      assert [head] + body == [head] && [head][..0] == [];
    } else {
      var init, last := body[..|body| - 1], body[|body| - 1];
      assert ([head] + body)[..|body|] == [head] + init;
      assert last in body;
      CollectBody(head, init);
      assert init + [last] == body;
    }
  }

  // Any further header opens a further block.
  lemma {:induction false} HeadersOpenBlocks(lines: seq<string>, i: nat)
    requires i < |lines| && IsHeader(lines[i])
    ensures |Collect(lines)| == |Collect(lines[..i])| + |Collect(lines[i..])| && |Collect(lines[i..])| >= 1
  {
    CollectConcat(lines[..i], lines[i..]);
    assert lines[..i] + lines[i..] == lines;
  }

  // ---------------------------------------------------------------- one append

  // What an appended turn reads back as, given the text after newline translation.
  function Entry(author: Author, at: string, text: string): seq<string> {
    [HeaderLine(author, at), ""] + Split(text) + [""]
  }

  // The lines before the appended header. A file ending in a bare carriage return loses that
  // line end to the "\r\n" it now forms with the appended newline.
  function LinesBefore(file: string): seq<string> {
    if file != "" && file[|file| - 1] == '\r' then Split(Read(file[..|file| - 1])) else Split(Read(file))
  }

  lemma {:induction false} ReadSnoc(s: string, c: char)
    requires s == "" || s[|s| - 1] != '\r' || c != '\n'
    ensures Read(s + [c]) == Read(s) + (if c == '\r' then "\n" else [c])
  {
    ReadConcat(s, [c]);
    ReadOne(c);
  }

  lemma {:induction false} ReadOne(c: char)
    ensures Read([c]) == if c == '\r' then "\n" else [c]
  {
    assert [c][1..] == "" && Read("") == "";
  }

  lemma {:induction false} HeaderHasNoBreak(author: Author, at: string)
    requires IsTimestamp(at)
    ensures '\r' !in HeaderLine(author, at) && '\n' !in HeaderLine(author, at)
  {
    forall i | 0 <= i < 20
      ensures at[i] != '\r' && at[i] != '\n'
    {
      assert i !in {4, 7, 10, 13, 16, 19} ==> IsDigit(at[i]);
    }
    assert forall c :: c in Label(author) ==> c != '\r' && c != '\n';
  }

  lemma {:induction false} SplitOneLine(s: string)
    requires '\n' !in s
    ensures Split(s) == [s]
  {
    if s != "" {
      assert s[0] in s;
      assert forall c :: c in s[1..] ==> c in s;
      SplitOneLine(s[1..]);
      assert s == [s[0]] + s[1..];
    }
  }

  // The appended characters, as read back.
  lemma {:induction false} ReadEntry(author: Author, at: string, text: string)
    requires IsTimestamp(at) && IsStripped(text)
    ensures Read(Print(author, text, at)) == Print(author, Read(text), at)
  {
    var head := HeaderLine(author, at) + "\n\n";
    HeaderHasNoBreak(author, at);
    ReadClean(head);
    assert head[|head| - 1] == '\n';
    ReadConcat(head, text);
    if text == "" {
      assert head + text == head;
    } else {
      assert (head + text)[|head + text| - 1] == text[|text| - 1];
    }
    ReadSnoc(head + text, '\n');
  }

  lemma {:induction false} SplitEntry(author: Author, at: string, text: string)
    requires IsTimestamp(at)
    ensures Split(Print(author, text, at)) == Entry(author, at, text)
  {
    var head := HeaderLine(author, at);
    HeaderHasNoBreak(author, at);
    SplitOneLine(head);
    SplitConcat("" + "\n" + text, "");
    SplitConcat("", text);
    SplitConcat(head, "" + "\n" + text + "\n" + "");
    assert head + "\n" + ("" + "\n" + text + "\n" + "") == head + "\n\n" + text + "\n";
    assert [head] + (([""] + Split(text)) + [""]) == Entry(author, at, text);
  }

  lemma {:induction false} ReadNewline(rest: string)
    ensures Read("\n" + rest) == "\n" + Read(rest)
    ensures Read("\r" + ("\n" + rest)) == "\n" + Read(rest)
  {
    assert ("\n" + rest)[1..] == rest;
    assert ("\r" + ("\n" + rest))[2..] == rest;
  }

  lemma {:induction false} LinesAfterNewline(file: string, rest: string)
    ensures Split(Read(file + ("\n" + rest))) == LinesBefore(file) + Split(Read(rest))
  {
    ReadNewline(rest);
    if file != "" && file[|file| - 1] == '\r' {
      var front := file[..|file| - 1];
      assert file + ("\n" + rest) == front + ("\r" + ("\n" + rest));
      ReadConcat(front, "\r" + ("\n" + rest));
      assert Read(front) + ("\n" + Read(rest)) == Read(front) + "\n" + Read(rest);
      SplitConcat(Read(front), Read(rest));
    } else {
      ReadConcat(file, "\n" + rest);
      assert Read(file) + ("\n" + Read(rest)) == Read(file) + "\n" + Read(rest);
      SplitConcat(Read(file), Read(rest));
    }
  }

  lemma {:induction false} LinesAfterAppend(file: string, author: Author, text: string, at: string)
    requires IsTimestamp(at) && IsStripped(text)
    ensures Split(Read(Append(file, author, text, at))) == LinesBefore(file) + Entry(author, at, Read(text))
  {
    ReadEntry(author, at, text);
    SplitEntry(author, at, Read(text));
    LinesAfterNewline(file, Print(author, text, at));
  }

  lemma {:induction false} StripEmptyLine(body: seq<string>)
    ensures Strip(Join(body + [""])) == Strip(Join(body))
  {
    if body == [] {
      assert body + [""] == [""];
    } else {
      var text := Join(body);
      JoinConcat(body, [""]);
      assert text + "\n" + "" == text + "\n" == "" + text + "\n";
      StripIgnoresPadding("", text, "\n");
    }
  }

  // An empty last line is invisible after stripping.
  lemma {:induction false} EmptyLineIsStripped(lines: seq<string>)
    ensures TurnsOf(Collect(lines + [""])) == TurnsOf(Collect(lines))
  {
    var blocks := Collect(lines);
    assert (lines + [""])[..|lines|] == lines;
    assert !IsHeader("");
    if blocks != [] {
      var init, last := blocks[..|blocks| - 1], blocks[|blocks| - 1];
      var longer := last.(body := last.body + [""]);
      StripEmptyLine(last.body);
      assert Collect(lines + [""]) == init + [longer];
      assert blocks == init + [last];
      TurnsOfConcat(init, longer);
      TurnsOfConcat(init, last);
    }
  }

  lemma {:induction false} BeforeParsesAlike(file: string)
    ensures TurnsOf(Collect(LinesBefore(file))) == Parse(file)
  {
    if file != "" && file[|file| - 1] == '\r' {
      var front := file[..|file| - 1];
      assert file == front + ['\r'];
      ReadSnoc(front, '\r');
      assert Read(front) + "\n" == Read(front) + "\n" + "";
      SplitConcat(Read(front), "");
      EmptyLineIsStripped(Split(Read(front)));
    }
  }

  predicate NoHeaderIn(text: string) {
    forall line :: line in Split(text) ==> !IsHeader(line)
  }

  lemma {:induction false} PaddedBody(text: string)
    ensures Strip(Join(([""] + Split(text)) + [""])) == Strip(text)
  {
    var lines := Split(text);
    JoinSplit(text);
    JoinConcat([""], lines);
    StripEmptyLine([""] + lines);
    assert "" + "\n" + text == "\n" + text + "";
    StripIgnoresPadding("\n", text, "");
  }

  // One block, whose stripped body is the stripped text.
  lemma {:induction false} EntryParses(author: Author, at: string, text: string)
    requires IsTimestamp(at) && NoHeaderIn(text)
    ensures Collect(Entry(author, at, text)) == [Block(author, at, ([""] + Split(text)) + [""])]
  {
    var head := HeaderLine(author, at);
    HeaderParses(author, at);
    var body := ([""] + Split(text)) + [""];
    assert Entry(author, at, text) == [head] + body;
    assert !IsHeader("");
    CollectBody(head, body);
  }

  lemma {:induction false} HeaderInTextOpensTurn(author: Author, at: string, text: string)
    requires IsTimestamp(at) && !NoHeaderIn(text)
    ensures |Collect(Entry(author, at, text))| >= 2
  {
    var lines := Entry(author, at, text);
    var i :| 0 <= i < |Split(text)| && IsHeader(Split(text)[i]);
    assert lines[i + 2] == Split(text)[i];
    HeadersOpenBlocks(lines, i + 2);
    HeaderParses(author, at);
    HeadersOpenBlocks(lines[..i + 2], 0);
    assert lines[..i + 2][0..] == lines[..i + 2];
  }

  lemma {:induction false} TurnsOfConcat(a: seq<Block>, b: Block)
    ensures TurnsOf(a + [b]) == TurnsOf(a) + [TurnOf(b, |a| + 1)]
  {
    assert (a + [b])[..|a|] == a;
  }

  lemma {:induction false} StripKeepsCharacters(s: string)
    ensures forall c :: c in Strip(s) ==> c in s
  {
    var i := TrimRightIsPrefix(s);
    var j := TrimLeftIsSuffix(TrimRight(s));
  }

  lemma {:induction false} TrimRightIsPrefix(s: string) returns (i: nat)
    ensures i <= |s| && TrimRight(s) == s[..i]
  {
    i := |s|;
    if s != "" && IsSpace(s[|s| - 1]) {
      i := TrimRightIsPrefix(s[..|s| - 1]);
    }
  }

  lemma {:induction false} TrimLeftIsSuffix(s: string) returns (i: nat)
    ensures i <= |s| && TrimLeft(s) == s[i..]
  {
    i := 0;
    if s != "" && IsSpace(s[0]) {
      i := TrimLeftIsSuffix(s[1..]);
      i := i + 1;
    }
  }

  // What any append reads back as: one turn, or several when the text holds header lines.
  lemma {:induction false} AppendReads(file: string, author: Author, text: string, at: string)
    requires IsTimestamp(at) && IsStripped(text)
    ensures NoHeaderIn(Read(text)) ==>
      Parse(Append(file, author, text, at)) == Parse(file) + [Turn(|Parse(file)| + 1, author, Strip(Read(text)), at)]
    ensures !NoHeaderIn(Read(text)) ==> |Parse(Append(file, author, text, at))| >= |Parse(file)| + 2
  {
    var entry := Entry(author, at, Read(text));
    LinesAfterAppend(file, author, text, at);
    BeforeParsesAlike(file);
    HeaderParses(author, at);
    CollectConcat(LinesBefore(file), entry);
    if NoHeaderIn(Read(text)) {
      EntryParses(author, at, Read(text));
      PaddedBody(Read(text));
      TurnsOfConcat(Collect(LinesBefore(file)), Collect(entry)[0]);
    } else {
      HeaderInTextOpensTurn(author, at, Read(text));
    }
  }

  // Any file, any turn: the parse after the append is the old parse and the new turn, exactly
  // when the text has no carriage return and no line of the header's form.
  lemma {:induction false} AppendParses(file: string, author: Author, text: string, at: string)
    requires IsTimestamp(at) && IsStripped(text)
    ensures Parse(Append(file, author, text, at)) == Parse(file) + [Turn(|Parse(file)| + 1, author, text, at)]
       <==> '\r' !in text && NoHeaderIn(text)
  {
    AppendReads(file, author, text, at);
    StripKeepsCharacters(Read(text));
    if '\r' !in text {
      ReadClean(text);
      StripStrips(text);
    } else if NoHeaderIn(Read(text)) {
      var n := |Parse(file)|;
      assert Parse(Append(file, author, text, at))[n].text == Strip(Read(text));
      assert (Parse(file) + [Turn(n + 1, author, text, at)])[n].text == text;
    }
  }

  // A message of two lines as a browser submits it comes back changed after a restart.
  lemma {:induction false} TwoLineMessageIsChanged(file: string, author: Author, at: string)
    requires IsTimestamp(at)
    ensures Parse(Append(file, author, "a\r\nb", at)) == Parse(file) + [Turn(|Parse(file)| + 1, author, "a\nb", at)]
    ensures Parse(Append(file, author, "a\r\nb", at)) != Parse(file) + [Turn(|Parse(file)| + 1, author, "a\r\nb", at)]
  {
    var text := "a\r\nb";
    assert '\r' in text by {
      assert text[1] == '\r';
    }
    ReadsAsTwoLines();
    AppendReads(file, author, text, at);
    AppendParses(file, author, text, at);
  }

  lemma {:induction false} ReadsAsTwoLines()
    ensures Read("a\r\nb") == "a\nb" && NoHeaderIn("a\nb") && Strip("a\nb") == "a\nb"
  {
    ReadClean("a");
    ReadClean("b");
    ReadNewline("b");
    assert "a\r\nb" == "a" + ("\r" + ("\n" + "b")) && "a\nb" == "a" + "\n" + "b";
    ReadConcat("a", "\r" + ("\n" + "b"));
    SplitConcat("a", "b");
    SplitOneLine("a");
    SplitOneLine("b");
    StripStrips("a\nb");
  }

  // ---------------------------------------------------------------- whole sessions

  // What the first append of a session writes before its turn.
  predicate IsTitle(title: string) {
    '\r' !in title && '\n' !in title && StartsWith(title, "# ")
  }

  // A turn that is read back as it was written.
  predicate Plain(t: Turn) {
    IsTimestamp(t.at) && IsStripped(t.text) && '\r' !in t.text && NoHeaderIn(t.text)
  }

  predicate Printable(t: Turn, n: nat) {
    t.n == n && Plain(t)
  }

  predicate IsSession(turns: seq<Turn>) {
    forall i :: 0 <= i < |turns| ==> Printable(turns[i], i + 1)
  }

  // The file after the session's turns were appended one by one.
  function Printed(title: string, turns: seq<Turn>): string {
    if turns == [] then title + "\n"
    else
      var last := turns[|turns| - 1];
      Append(Printed(title, turns[..|turns| - 1]), last.author, last.text, last.at)
  }

  lemma {:induction false} TitleIsNoHeader(title: string)
    requires StartsWith(title, "# ")
    ensures !IsHeader(title)
  {
    assert title[..2][1] == ' ';
    assert forall a :: IsHeaderOf(title, a) ==> title[1] == title[..|title| - 20][1] == '#';
  }

  lemma {:induction false} TitleHasNoTurns(title: string)
    requires IsTitle(title)
    ensures Parse(title + "\n") == []
  {
    ReadClean(title);
    ReadNewline("");
    ReadConcat(title, "\n");
    assert "\n" + "" == "\n" && title + "\n" == title + "\n" + "";
    SplitConcat(title, "");
    SplitOneLine(title);
    TitleIsNoHeader(title);
    assert !IsHeader("");
    var lines := [title] + [""];
    assert lines[..1] == [title] && [title][..0] == [];
    assert Collect([title]) == [];
    assert Collect(lines) == [];
  }

  lemma {:induction false} SessionGrows(file: string, init: seq<Turn>, last: Turn)
    requires Parse(file) == init && Printable(last, |init| + 1)
    ensures Parse(Append(file, last.author, last.text, last.at)) == init + [last]
  {
    AppendParses(file, last.author, last.text, last.at);
  }

  // Print, then parse: a restarted process sees the session it lost.
  lemma {:induction false} SessionIsRestored(title: string, turns: seq<Turn>)
    requires IsTitle(title) && IsSession(turns)
    ensures Parse(Printed(title, turns)) == turns
  {
    if turns == [] {
      TitleHasNoTurns(title);
    } else {
      var init, last := turns[..|turns| - 1], turns[|turns| - 1];
      assert init + [last] == turns;
      assert IsSession(init) by {
        assert forall i :: 0 <= i < |init| ==> init[i] == turns[i];
      }
      SessionIsRestored(title, init);
      assert Printable(turns[|turns| - 1], |turns|);
      SessionGrows(Printed(title, init), init, last);
    }
  }

  // ---------------------------------------------------------------- the parsing loop and the session object

  // The header lines among `lines`, in order.
  predicate AreHeads(heads: seq<nat>, lines: seq<string>) {
    && (forall k :: 0 <= k < |heads| ==> heads[k] < |lines| && IsHeader(lines[heads[k]]))
    && (forall j, k :: 0 <= j < k < |heads| ==> heads[j] < heads[k])
    && (forall i :: 0 <= i < |lines| && IsHeader(lines[i]) ==> i in heads)
  }

  method FindHeads(lines: seq<string>) returns (heads: seq<nat>)
    ensures AreHeads(heads, lines)
  {
    heads := [];
    for i := 0 to |lines|
      invariant forall k :: 0 <= k < |heads| ==> heads[k] < i && IsHeader(lines[heads[k]])
      invariant forall j, k :: 0 <= j < k < |heads| ==> heads[j] < heads[k]
      invariant forall h :: 0 <= h < i && IsHeader(lines[h]) ==> h in heads
    {
      if IsHeader(lines[i]) {
        heads := heads + [i];
      }
    }
  }

  function HeadAt(heads: seq<nat>, lines: seq<string>, k: nat): nat {
    if k < |heads| then heads[k] else |lines|
  }

  lemma {:induction false} NoHeadsNoBlocks(lines: seq<string>)
    requires forall line :: line in lines ==> !IsHeader(line)
    ensures Collect(lines) == []
  {
    if lines != [] {
      assert lines[|lines| - 1] in lines;
      NoHeadsNoBlocks(lines[..|lines| - 1]);
    }
  }

  lemma {:induction false} NothingBetweenHeads(heads: seq<nat>, lines: seq<string>, k: nat, line: string)
    requires AreHeads(heads, lines) && k < |heads|
    ensures heads[k] < HeadAt(heads, lines, k + 1) <= |lines|
    ensures line in lines[heads[k] + 1..HeadAt(heads, lines, k + 1)] ==> !IsHeader(line)
  {
    var here, end := heads[k], HeadAt(heads, lines, k + 1);
    if line in lines[here + 1..end] {
      var i :| here < i < end && lines[i] == line;
      assert IsHeader(lines[i]) ==> i in heads;
    }
  }

  // Between one header and the next lies one block.
  lemma {:induction false} NextBlock(heads: seq<nat>, lines: seq<string>, k: nat)
    requires AreHeads(heads, lines) && k < |heads|
    ensures heads[k] < HeadAt(heads, lines, k + 1) <= |lines|
    ensures Collect(lines[..HeadAt(heads, lines, k + 1)])
         == Collect(lines[..heads[k]])
            + [Block(AuthorOf(lines[heads[k]]), TimeOf(lines[heads[k]]),
                lines[heads[k] + 1..HeadAt(heads, lines, k + 1)])]
  {
    forall line
      ensures heads[k] < HeadAt(heads, lines, k + 1) <= |lines|
      ensures line in lines[heads[k] + 1..HeadAt(heads, lines, k + 1)] ==> !IsHeader(line)
    {
      NothingBetweenHeads(heads, lines, k, line);
    }
    BlockUnder(lines, heads[k], HeadAt(heads, lines, k + 1));
  }

  lemma {:induction false} BlockUnder(lines: seq<string>, here: nat, end: nat)
    requires here < end <= |lines| && IsHeader(lines[here])
    requires forall line :: line in lines[here + 1..end] ==> !IsHeader(line)
    ensures Collect(lines[..end])
         == Collect(lines[..here]) + [Block(AuthorOf(lines[here]), TimeOf(lines[here]), lines[here + 1..end])]
  {
    var body := lines[here + 1..end];
    SliceAt(lines, here, end);
    CollectBody(lines[here], body);
    CollectConcat(lines[..here], [lines[here]] + body);
  }

  lemma {:induction false} SliceAt(lines: seq<string>, here: nat, end: nat)
    requires here < end <= |lines|
    ensures lines[..here] + ([lines[here]] + lines[here + 1..end]) == lines[..end]
  {
  }

  method ParseTranscript(file: string) returns (turns: seq<Turn>)
    ensures turns == Parse(file)
  {
    var lines := Split(Read(file));
    var heads := FindHeads(lines);
    turns := [];
    assert Collect(lines[..HeadAt(heads, lines, 0)]) == [] by {
      forall line | line in lines[..HeadAt(heads, lines, 0)]
        ensures !IsHeader(line)
      {
        var i :| 0 <= i < HeadAt(heads, lines, 0) && lines[i] == line;
        assert IsHeader(lines[i]) ==> i in heads;
      }
      NoHeadsNoBlocks(lines[..HeadAt(heads, lines, 0)]);
    }
    for index := 0 to |heads|
      invariant HeadAt(heads, lines, index) <= |lines|
      invariant turns == TurnsOf(Collect(lines[..HeadAt(heads, lines, index)]))
    {
      NextBlock(heads, lines, index);
      var end := if index + 1 < |heads| then heads[index + 1] else |lines|;
      var body := Strip(Join(lines[heads[index] + 1..end]));
      TurnsOfConcat(Collect(lines[..heads[index]]),
                    Block(AuthorOf(lines[heads[index]]), TimeOf(lines[heads[index]]), lines[heads[index] + 1..end]));
      turns := turns + [Turn(|turns| + 1, AuthorOf(lines[heads[index]]), body, TimeOf(lines[heads[index]]))];
    }
    assert lines[..|lines|] == lines;
  }

  function TurnsIn(transcript: Option<string>): seq<Turn> {
    match transcript
    case None => []
    case Some(file) => Parse(file)
  }

  lemma {:induction false} AppendKeepsStep(transcript: Option<string>, title: string, author: Author, text: string,
                                           at: string)
    requires IsTitle(title) && IsTimestamp(at) && IsStripped(text)
    ensures Parse(Append(Opened(transcript, title), author, text, at))
         == TurnsIn(transcript) + [Turn(|TurnsIn(transcript)| + 1, author, text, at)]
       <==> '\r' !in text && NoHeaderIn(text)
  {
    TitleHasNoTurns(title);
    AppendParses(Opened(transcript, title), author, text, at);
  }

  class Session {
    const title: string
    var transcript: Option<string>
    var turns: seq<Turn>

    // The file holds the turns the process remembers.
    predicate InStep()
      reads this
    {
      turns == TurnsIn(transcript)
    }

    // A session opened over whatever file is there.
    constructor (title: string, transcript: Option<string>)
      ensures InStep() && this.title == title && this.transcript == transcript
    {
      this.title, this.transcript := title, transcript;
      turns := [];
      if transcript.Some? {
        var parsed := ParseTranscript(transcript.value);
        turns := parsed;
      }
    }

    method AppendTranscript(turn: Turn)
      modifies this`transcript
      ensures transcript == Some(Append(Opened(old(transcript), title), turn.author, turn.text, turn.at))
    {
      var file := Opened(transcript, title);
      transcript := Some(Append(file, turn.author, turn.text, turn.at));
    }

    // The file first, then memory. They stay in step exactly when the text is printable.
    method AddTurn(author: Author, text: string, at: string)
      requires IsTitle(title) && IsTimestamp(at) && IsStripped(text)
      modifies this
      ensures turns == old(turns) + [Turn(|old(turns)| + 1, author, text, at)]
      ensures old(InStep()) ==> (InStep() <==> '\r' !in text && NoHeaderIn(text))
    {
      AppendKeepsStep(transcript, title, author, text, at);
      var turn := Turn(|turns| + 1, author, text, at);
      AppendTranscript(turn);
      turns := turns + [turn];
    }
  }
}
