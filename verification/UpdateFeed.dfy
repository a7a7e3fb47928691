/**
 * The updater feed: its parser, its printer, and the merge of the two macOS feeds
 * (packages/claxedo-desktop/scripts/finalize-latest-yml.ts:23-116).
 */
module UpdateFeed {
  import opened Text

  /** A number: a natural one, any other one (negative, fractional, infinite), told by an id, or none. */
  datatype Number = NaN | Int(n: nat) | Other(id: nat)

  /** What `Number(text)` answers for trimmed texts that are not decimal digits, and how other numbers than natural ones are written. */
  datatype Numerals = Numerals(read: string -> Number, show: nat -> string)

  datatype FileEntry = FileEntry(url: string, sha512: string, size: Number, blockMapSize: Option<Number>)

  datatype Feed = Feed(version: string, files: seq<FileEntry>, releaseDate: string)

  /** A file being read: its url, and what else has been seen of it. */
  datatype Draft = Draft(url: string, sha512: Option<string>, size: Option<Number>, blockMapSize: Option<Number>)

  datatype Parser = Parser(version: string, releaseDate: string, files: seq<FileEntry>, current: Option<Draft>)

  const VERSION := "version:"
  const RELEASE_DATE := "releaseDate:"
  const URL := "- url:"
  const SHA512 := "sha512:"
  const SIZE := "size:"
  const BLOCK_MAP_SIZE := "blockMapSize:"

  function ToNumber(text: string, num: Numerals): Number {
    var t := Trim(text);
    if AllDigits(t) then Int(NumberOf(t)) else num.read(t)
  }

  /** `${n}`. */
  function Show(n: Number, num: Numerals): string {
    match n
    case NaN => "NaN"
    case Int(n) => Decimal(n)
    case Other(id) => num.show(id)
  }

  /** A number that is not natural is written in one word that is no digits, and that reads back as that number. */
  ghost predicate ReadsBack(num: Numerals) {
    && num.read("NaN") == NaN
    && forall id :: var s := num.show(id);
         s != "" && IsTrimmed(s) && '\n' !in s && !AllDigits(s) && num.read(s) == Other(id)
  }

  /** The whole negative numbers read back: there are such numerals. */
  lemma NegativesReadBack()
    ensures ReadsBack(Numerals(
      (s: string) => if StartsWith(s, "-") && AllDigits(s[1..]) then Other(NumberOf(s[1..])) else NaN,
      (id: nat) => "-" + Decimal(id)))
  {
    hide Decimal, NumberOf;
    assert "NaN"[0] == 'N';
    forall id: nat ensures var s := "-" + Decimal(id);
      IsTrimmed(s) && '\n' !in s && s[0] == '-' && s[1..] == Decimal(id) && AllDigits(Decimal(id)) && NumberOf(Decimal(id)) == id
    {
      DecimalReadsBack(id);
      var s := Decimal(id);
      assert IsDigit(s[|s| - 1]);
      DigitIsNoSpace(s[|s| - 1]);
    }
  }

  predicate IsTruthy(n: Number) {
    !n.NaN? && n != Int(0)
  }

  // ---------------------------------------------------------------- parsing

  /** The entry of a draft whose url, hash and size are all there and not empty or zero. */
  function Completed(draft: Option<Draft>): seq<FileEntry> {
    if draft.Some? && draft.value.url != "" && draft.value.sha512.Some? && draft.value.sha512.value != "" &&
       draft.value.size.Some? && IsTruthy(draft.value.size.value)
    then [FileEntry(draft.value.url, draft.value.sha512.value, draft.value.size.value, draft.value.blockMapSize)]
    else []
  }

  function Flush(p: Parser): Parser {
    p.(files := p.files + Completed(p.current), current := None)
  }

  /** `text.replace(/^'|'$/g, "")`. */
  function Unquote(text: string): string {
    var t := if StartsWith(text, "'") then text[1..] else text;
    if EndsWith(t, "'") then t[..|t| - 1] else t
  }

  lemma EndsInQuote(text: string)
    ensures EndsWith(text, "'") <==> text != "" && text[|text| - 1] == '\''
    ensures StartsWith(text, "'") <==> text != "" && text[0] == '\''
  {
    if text != "" { assert text[|text| - 1..] == [text[|text| - 1]]; }
  }

  /** A quote is dropped at each end where there is one, whether or not there is one at the other. */
  lemma UnquotedEnds(text: string, front: bool, back: bool)
    requires text != "" && text[0] != '\'' && text[|text| - 1] != '\''
    ensures Unquote((if front then "'" else "") + text + (if back then "'" else "")) == text
  {
    hide StartsWith, EndsWith;
    var tail := text + (if back then "'" else "");
    var all := (if front then "'" else "") + text + (if back then "'" else "");
    assert tail[..|text|] == text;
    assert front ==> all[1..] == tail;
    assert !front ==> all == tail;
    EndsInQuote(all);
    EndsInQuote(tail);
  }

  predicate IsIndented(line: string) {
    StartsWith(line, "    ") || StartsWith(line, "  -")
  }

  function After(line: string, prefix: string): string
    requires StartsWith(line, prefix)
  {
    line[|prefix|..]
  }

  function ParseLine(p: Parser, line: string, num: Numerals): Parser {
    if StartsWith(line, VERSION) then p.(version := Trim(After(line, VERSION)))
    else if StartsWith(line, RELEASE_DATE) then p.(releaseDate := Unquote(Trim(After(line, RELEASE_DATE))))
    else if StartsWith(Trim(line), URL) then Flush(p).(current := Some(Draft(Trim(After(Trim(line), URL)), None, None, None)))
    else if IsIndented(line) && p.current.Some? && StartsWith(Trim(line), SHA512) then
      p.(current := Some(p.current.value.(sha512 := Some(Trim(After(Trim(line), SHA512))))))
    else if IsIndented(line) && p.current.Some? && StartsWith(Trim(line), SIZE) then
      p.(current := Some(p.current.value.(size := Some(ToNumber(Trim(After(Trim(line), SIZE)), num)))))
    else if IsIndented(line) && p.current.Some? && StartsWith(Trim(line), BLOCK_MAP_SIZE) then
      p.(current := Some(p.current.value.(blockMapSize := Some(ToNumber(Trim(After(Trim(line), BLOCK_MAP_SIZE)), num)))))
    else if !IsIndented(line) && p.current.Some? then Flush(p)
    else p
  }

  function ParseLines(p: Parser, lines: seq<string>, num: Numerals): Parser
    decreases |lines|
  {
    if lines == [] then p else ParseLines(ParseLine(p, lines[0], num), lines[1..], num)
  }

  const START := Parser("", "", [], None)

  function FeedOf(p: Parser): Feed {
    Feed(p.version, Flush(p).files, p.releaseDate)
  }

  function Parsed(content: string, num: Numerals): Feed {
    FeedOf(ParseLines(START, Split(content, '\n'), num))
  }

  method Parse(content: string, num: Numerals) returns (feed: Feed)
    ensures feed == Parsed(content, num)
  {
    hide ParseLine, Split;
    var lines := Split(content, '\n');
    var p := START;
    for i := 0 to |lines|
      invariant ParseLines(p, lines[i..], num) == ParseLines(START, lines, num)
    {
      assert lines[i..][0] == lines[i] && lines[i..][1..] == lines[i + 1..];
      p := ParseLine(p, lines[i], num);
    }
    feed := FeedOf(p);
  }

  // ---------------------------------------------------------------- printing

  function FileLines(f: FileEntry, num: Numerals): seq<string> {
    ["  " + URL + " " + f.url, "    " + SHA512 + " " + f.sha512, "    " + SIZE + " " + Show(f.size, num)] +
    if f.blockMapSize.Some? && IsTruthy(f.blockMapSize.value)
    then ["    " + BLOCK_MAP_SIZE + " " + Show(f.blockMapSize.value, num)] else []
  }

  function FilesLines(files: seq<FileEntry>, num: Numerals): seq<string> {
    if files == [] then [] else FilesLines(files[..|files| - 1], num) + FileLines(files[|files| - 1], num)
  }

  function FeedLines(feed: Feed, num: Numerals): (lines: seq<string>)
    ensures lines != []
  {
    [VERSION + " " + feed.version, "files:"] + FilesLines(feed.files, num) + [RELEASE_DATE + " '" + feed.releaseDate + "'"]
  }

  function Serialized(feed: Feed, num: Numerals): string {
    Join(FeedLines(feed, num), "\n") + "\n"
  }

  method Serialize(feed: Feed, num: Numerals) returns (text: string)
    ensures text == Serialized(feed, num)
  {
    hide FileLines, Join;
    var lines := [VERSION + " " + feed.version, "files:"];
    for i := 0 to |feed.files|
      invariant lines == [VERSION + " " + feed.version, "files:"] + FilesLines(feed.files[..i], num)
    {
      var file := feed.files[i];
      assert feed.files[..i + 1][..i] == feed.files[..i];
      lines := lines + FileLines(file, num);
    }
    assert feed.files[..|feed.files|] == feed.files;
    lines := lines + [RELEASE_DATE + " '" + feed.releaseDate + "'"];
    text := Join(lines, "\n") + "\n";
  }

  /** The lines a file is printed as. */
  lemma FileIsPrinted(f: FileEntry, num: Numerals)
    ensures FileLines(f, num) ==
      ["  - url: " + f.url, "    sha512: " + f.sha512, "    size: " + Show(f.size, num)] +
      (if f.blockMapSize.None? || f.blockMapSize.value == NaN || f.blockMapSize.value == Int(0) then []
       else ["    blockMapSize: " + Show(f.blockMapSize.value, num)])
  {
    hide Show;
    var lines := FileLines(f, num);
    assert lines[0] == "  - url: " + f.url;
    assert lines[1] == "    sha512: " + f.sha512;
    assert lines[2] == "    size: " + Show(f.size, num);
    if f.blockMapSize.Some? && IsTruthy(f.blockMapSize.value) {
      assert lines[3] == "    blockMapSize: " + Show(f.blockMapSize.value, num);
    }
  }

  /** A feed is printed as its version, the heading of its files, the lines of each in order, and its date in quotes. */
  lemma FeedIsPrinted(feed: Feed, num: Numerals)
    ensures FeedLines(feed, num) == ["version: " + feed.version, "files:"] + FilesLines(feed.files, num) + ["releaseDate: '" + feed.releaseDate + "'"]
  {
    hide FilesLines;
    assert VERSION + " " + feed.version == "version: " + feed.version;
    assert RELEASE_DATE + " '" + feed.releaseDate + "'" == "releaseDate: '" + feed.releaseDate + "'";
  }

  lemma {:induction false} FilesArePrintedInOrder(a: seq<FileEntry>, b: seq<FileEntry>, num: Numerals)
    ensures FilesLines(a + b, num) == FilesLines(a, num) + FilesLines(b, num)
    decreases |b|
  {
    hide FileLines;
    if b == [] {
      assert a + b == a;
    } else {
      var front := b[..|b| - 1];
      assert (a + b)[..|a + b| - 1] == a + front;
      FilesArePrintedInOrder(a, front, num);
    }
  }

  /** A line that begins no file and no top-level field this parser knows, and is not indented, ends the file being read, and nothing else. */
  lemma StrayLineEndsFile(p: Parser, line: string, num: Numerals)
    requires !StartsWith(line, "version:") && !StartsWith(line, "releaseDate:") && !StartsWith(Trim(line), "- url:")
    requires !StartsWith(line, "    ") && !StartsWith(line, "  -")
    ensures var q := ParseLine(p, line, num);
      q.current.None? && q.version == p.version && q.releaseDate == p.releaseDate && q.files == p.files + Completed(p.current)
  {
    hide Trim;
  }

  /** A file counts only with a url, a hash and a size, none of them empty or zero. */
  lemma CompletedExactly(draft: Draft)
    ensures |Completed(Some(draft))| <= 1 && Completed(None) == []
    ensures Completed(Some(draft)) != [] <==>
      draft.url != "" && draft.sha512.Some? && draft.sha512.value != "" && draft.size.Some? && !draft.size.value.NaN? && draft.size.value != Int(0)
    ensures Completed(Some(draft)) != [] ==>
      var f := Completed(Some(draft))[0];
      draft == Draft(f.url, Some(f.sha512), Some(f.size), f.blockMapSize)
  {
  }

  // ---------------------------------------------------------------- what survives a round trip

  predicate IsLine(s: string) {
    '\n' !in s
  }

  predicate FileIsLines(f: FileEntry) {
    IsLine(f.url) && IsLine(f.sha512)
  }

  /** No field holds a line break. */
  predicate HasLines(feed: Feed) {
    IsLine(feed.version) && IsLine(feed.releaseDate) && forall i :: 0 <= i < |feed.files| ==> FileIsLines(feed.files[i])
  }

  function CleanBlocks(b: Option<Number>): Option<Number> {
    if b.Some? && IsTruthy(b.value) then b else None
  }

  /** A file as it is read back: trimmed; gone when its url or hash is blank or its size is zero or no number; without such a block map. */
  function CleanFile(f: FileEntry): seq<FileEntry> {
    if Trim(f.url) != "" && Trim(f.sha512) != "" && IsTruthy(f.size)
    then [FileEntry(Trim(f.url), Trim(f.sha512), f.size, CleanBlocks(f.blockMapSize))] else []
  }

  function CleanFiles(files: seq<FileEntry>): seq<FileEntry> {
    if files == [] then [] else CleanFiles(files[..|files| - 1]) + CleanFile(files[|files| - 1])
  }

  function Clean(feed: Feed): Feed {
    Feed(Trim(feed.version), CleanFiles(feed.files), feed.releaseDate)
  }

  lemma {:induction false} ParseLinesConcat(p: Parser, a: seq<string>, b: seq<string>, num: Numerals)
    ensures ParseLines(p, a + b, num) == ParseLines(ParseLines(p, a, num), b, num)
    decreases |a|
  {
    hide ParseLine;
    if a == [] {
      assert a + b == b;
    } else {
      assert (a + b)[1..] == a[1..] + b;
      ParseLinesConcat(ParseLine(p, a[0], num), a[1..], b, num);
    }
  }

  lemma ParseOne(p: Parser, line: string, num: Numerals)
    ensures ParseLines(p, [line], num) == ParseLine(p, line, num)
  {
    hide ParseLine;
    assert [line][1..] == [];
  }

  lemma VersionLine(p: Parser, v: string, num: Numerals)
    ensures ParseLine(p, VERSION + " " + v, num) == p.(version := Trim(v))
  {
    hide Trim;
    var line := VERSION + " " + v;
    assert line[..|VERSION|] == VERSION && line[|VERSION|..] == " " + v;
    TrimLeadingSpace(v);
  }

  lemma FilesLine(p: Parser, num: Numerals)
    requires p.current.None?
    ensures ParseLine(p, "files:", num) == p
  {
    hide Trim;
    assert Trim("files:") == "files:" by { TrimOfTrimmed("files:"); }
    assert "files:"[0] == 'f';
  }

  /** What an indented line trims to, and that it begins neither the version nor the release date. */
  lemma IndentedLine(indent: string, prefix: string, x: string)
    requires (indent == "  " || indent == "    ") && prefix != "" && !IsSpace(prefix[0]) && !IsSpace(prefix[|prefix| - 1])
    ensures var line := indent + prefix + " " + x;
      && !StartsWith(line, VERSION) && !StartsWith(line, RELEASE_DATE)
      && StartsWith(Trim(line), prefix) && Trim(After(Trim(line), prefix)) == Trim(x) && |Trim(line)| >= |prefix|
      && (indent == "    " || prefix[0] == '-' ==> IsIndented(line))
  {
    hide IsSpace, TrimEnd, TrimStart, Trim;
    var line := indent + prefix + " " + x;
    assert line == indent + prefix + (" " + x);
    TrimPrefixed(indent, prefix, " " + x);
    TrimLeadingSpace(x);
    assert line[0] == ' ' && VERSION[0] == 'v' && RELEASE_DATE[0] == 'r';
    assert (prefix + TrimEnd(" " + x))[..|prefix|] == prefix;
    if indent == "    " {
      assert line[..4] == "    ";
    } else if prefix[0] == '-' {
      assert line[..3] == "  -";
    }
  }

  lemma UrlLine(p: Parser, url: string, num: Numerals)
    ensures ParseLine(p, "  " + URL + " " + url, num) == Flush(p).(current := Some(Draft(Trim(url), None, None, None)))
  {
    hide Trim;
    IndentedLine("  ", URL, url);
  }

  lemma Sha512Line(p: Parser, sha: string, num: Numerals)
    requires p.current.Some?
    ensures ParseLine(p, "    " + SHA512 + " " + sha, num) == p.(current := Some(p.current.value.(sha512 := Some(Trim(sha)))))
  {
    hide Trim;
    IndentedLine("    ", SHA512, sha);
    assert Trim("    " + SHA512 + " " + sha)[0] == 's' && URL[0] == '-';
  }

  lemma ShowReadsBack(n: Number, num: Numerals)
    requires ReadsBack(num)
    ensures Trim(Show(n, num)) == Show(n, num) && ToNumber(Trim(Show(n, num)), num) == n && '\n' !in Show(n, num)
  {
    hide Trim, Decimal, NumberOf;
    match n
    case NaN =>
      assert "NaN"[0] == 'N';
      TrimOfTrimmed("NaN");
    case Int(n) =>
      DecimalReadsBack(n);
      var s := Decimal(n);
      assert IsDigit(s[0]) && IsDigit(s[|s| - 1]);
      DigitIsNoSpace(s[0]);
      DigitIsNoSpace(s[|s| - 1]);
      TrimOfTrimmed(s);
    case Other(id) => TrimOfTrimmed(num.show(id));
  }

  lemma DigitIsNoSpace(c: char)
    requires IsDigit(c)
    ensures !IsSpace(c)
  {
  }

  lemma SizeLine(p: Parser, n: Number, num: Numerals)
    requires ReadsBack(num) && p.current.Some?
    ensures ParseLine(p, "    " + SIZE + " " + Show(n, num), num) == p.(current := Some(p.current.value.(size := Some(n))))
  {
    hide Trim, Show, ToNumber;
    IndentedLine("    ", SIZE, Show(n, num));
    ShowReadsBack(n, num);
    var t := Trim("    " + SIZE + " " + Show(n, num));
    assert t[0] == 's' && t[1] == 'i' && URL[0] == '-' && SHA512[1] == 'h';
  }

  lemma BlockLine(p: Parser, n: Number, num: Numerals)
    requires ReadsBack(num) && p.current.Some?
    ensures ParseLine(p, "    " + BLOCK_MAP_SIZE + " " + Show(n, num), num) == p.(current := Some(p.current.value.(blockMapSize := Some(n))))
  {
    hide Trim, Show, ToNumber;
    IndentedLine("    ", BLOCK_MAP_SIZE, Show(n, num));
    ShowReadsBack(n, num);
    var t := Trim("    " + BLOCK_MAP_SIZE + " " + Show(n, num));
    assert t[0] == 'b' && URL[0] == '-' && SHA512[0] == 's' && SIZE[0] == 's';
  }

  lemma ReleaseDateLine(p: Parser, date: string, num: Numerals)
    ensures ParseLine(p, RELEASE_DATE + " '" + date + "'", num) == p.(releaseDate := date)
  {
    hide Trim;
    var line := RELEASE_DATE + " '" + date + "'";
    var quoted := "'" + date + "'";
    assert line[..|RELEASE_DATE|] == RELEASE_DATE && line[|RELEASE_DATE|..] == " " + quoted;
    assert line[0] == 'r' && VERSION[0] == 'v';
    TrimLeadingSpace(quoted);
    assert quoted[0] == '\'' && quoted[|quoted| - 1] == '\'';
    TrimOfTrimmed(quoted);
    assert quoted[1..] == date + "'";
    assert (date + "'")[|date|..] == "'" && (date + "'")[..|date|] == date;
  }

  function DraftOf(f: FileEntry): Draft {
    Draft(Trim(f.url), Some(Trim(f.sha512)), Some(f.size), CleanBlocks(f.blockMapSize))
  }

  lemma FileLinesParse(p: Parser, f: FileEntry, num: Numerals)
    requires ReadsBack(num)
    ensures ParseLines(p, FileLines(f, num), num) == Flush(p).(current := Some(DraftOf(f)))
  {
    hide Trim, ParseLine, Flush, Show, Completed;
    var a, b, c := "  " + URL + " " + f.url, "    " + SHA512 + " " + f.sha512, "    " + SIZE + " " + Show(f.size, num);
    var q := Flush(p).(current := Some(Draft(Trim(f.url), None, None, None)));
    UrlLine(p, f.url, num);
    Sha512Line(q, f.sha512, num);
    var q2 := q.(current := Some(q.current.value.(sha512 := Some(Trim(f.sha512)))));
    SizeLine(q2, f.size, num);
    var q3 := q2.(current := Some(q2.current.value.(size := Some(f.size))));
    ParseThree(p, a, b, c, num);
    if CleanBlocks(f.blockMapSize).Some? {
      var d := "    " + BLOCK_MAP_SIZE + " " + Show(f.blockMapSize.value, num);
      ParseLinesConcat(p, [a, b, c], [d], num);
      ParseOne(q3, d, num);
      BlockLine(q3, f.blockMapSize.value, num);
    } else {
      assert FileLines(f, num) == [a, b, c];
    }
  }

  lemma ParseThree(p: Parser, a: string, b: string, c: string, num: Numerals)
    ensures ParseLines(p, [a, b, c], num) == ParseLine(ParseLine(ParseLine(p, a, num), b, num), c, num)
  {
    hide ParseLine;
    assert [a, b] + [c] == [a, b, c];
    ParseLinesConcat(p, [a, b], [c], num);
    ParseTwo(p, a, b, num);
    ParseOne(ParseLine(ParseLine(p, a, num), b, num), c, num);
  }

  lemma {:induction false} FilesLinesParse(p: Parser, files: seq<FileEntry>, num: Numerals)
    requires ReadsBack(num) && p.current.None?
    ensures var q := ParseLines(p, FilesLines(files, num), num);
      q.version == p.version && q.releaseDate == p.releaseDate && Flush(q).files == p.files + CleanFiles(files)
  {
    hide ParseLine, FileLines, CleanFile, Flush, DraftOf;
    if files == [] {
      FlushNothing(p);
      assert p.files + [] == p.files;
    } else {
      var front, f := files[..|files| - 1], files[|files| - 1];
      FilesLinesParse(p, front, num);
      ParseLinesConcat(p, FilesLines(front, num), FileLines(f, num), num);
      FileLinesParse(ParseLines(p, FilesLines(front, num), num), f, num);
      FlushDraft(ParseLines(p, FilesLines(front, num), num), f);
    }
  }

  lemma FlushNothing(p: Parser)
    requires p.current.None?
    ensures Flush(p).files == p.files
  {
  }

  lemma FlushDraft(q: Parser, f: FileEntry)
    ensures var t := Flush(q).(current := Some(DraftOf(f)));
      t.version == q.version && t.releaseDate == q.releaseDate && Flush(t).files == Flush(q).files + CleanFile(f)
  {
    hide Trim;
    assert Completed(Some(DraftOf(f))) == CleanFile(f);
  }

  lemma BlankLine(p: Parser, num: Numerals)
    ensures ParseLine(p, "", num).version == p.version && ParseLine(p, "", num).releaseDate == p.releaseDate && Flush(ParseLine(p, "", num)).files == Flush(p).files
  {
    assert Trim("") == "";
    assert Flush(Flush(p)).files == Flush(p).files;
  }

  lemma LinesOfFeed(feed: Feed, num: Numerals)
    requires ReadsBack(num) && HasLines(feed)
    ensures Split(Serialized(feed, num), '\n') == FeedLines(feed, num) + [""]
  {
    hide Split, Join;
    var lines := FeedLines(feed, num);
    FeedLinesAreLines(feed, num);
    SplitJoin(lines, '\n');
    assert Serialized(feed, num) == Join(lines, ['\n']) + ['\n'] + "";
    SplitAtSeparator(Join(lines, ['\n']), "", '\n');
    SplitOfPiece("", '\n');
  }

  lemma FeedLinesAreLines(feed: Feed, num: Numerals)
    requires ReadsBack(num) && HasLines(feed)
    ensures forall i :: 0 <= i < |FeedLines(feed, num)| ==> '\n' !in FeedLines(feed, num)[i]
  {
    hide FilesLines;
    FilesLinesAreLines(feed.files, num);
    assert '\n' !in VERSION + " " + feed.version;
    assert '\n' !in RELEASE_DATE + " '" + feed.releaseDate + "'";
  }

  lemma {:induction false} FilesLinesAreLines(files: seq<FileEntry>, num: Numerals)
    requires ReadsBack(num) && forall i :: 0 <= i < |files| ==> FileIsLines(files[i])
    ensures forall i :: 0 <= i < |FilesLines(files, num)| ==> '\n' !in FilesLines(files, num)[i]
  {
    hide FileLines, FileIsLines;
    if files != [] {
      FilesLinesAreLines(files[..|files| - 1], num);
      FileLinesAreLines(files[|files| - 1], num);
    }
  }

  lemma FileLinesAreLines(f: FileEntry, num: Numerals)
    requires ReadsBack(num) && FileIsLines(f)
    ensures forall i :: 0 <= i < |FileLines(f, num)| ==> '\n' !in FileLines(f, num)[i]
  {
    hide Show, ReadsBack;
    ShowReadsBack(f.size, num);
    assert '\n' !in "  " + URL + " " + f.url;
    assert '\n' !in "    " + SHA512 + " " + f.sha512;
    assert '\n' !in "    " + SIZE + " " + Show(f.size, num);
    if f.blockMapSize.Some? && IsTruthy(f.blockMapSize.value) {
      ShowReadsBack(f.blockMapSize.value, num);
      assert '\n' !in "    " + BLOCK_MAP_SIZE + " " + Show(f.blockMapSize.value, num);
    }
  }

  /** Printing a feed and parsing the text gives the feed back cleaned. */
  lemma ParseOfSerialize(feed: Feed, num: Numerals)
    requires ReadsBack(num) && HasLines(feed)
    ensures Parsed(Serialized(feed, num), num) == Clean(feed)
  {
    hide ParseLine, FilesLines, Trim, Serialized, Split, HasLines;
    LinesOfFeed(feed, num);
    var v, d := VERSION + " " + feed.version, RELEASE_DATE + " '" + feed.releaseDate + "'";
    var head, body, tail := [v, "files:"], FilesLines(feed.files, num), [d, ""];
    assert FeedLines(feed, num) + [""] == head + (body + tail);
    ParseLinesConcat(START, head, body + tail, num);
    var p := START.(version := Trim(feed.version));
    ParseTwo(START, v, "files:", num);
    VersionLine(START, feed.version, num);
    FilesLine(p, num);
    ParseLinesConcat(p, body, tail, num);
    var q := ParseLines(p, body, num);
    FilesLinesParse(p, feed.files, num);
    ParseTwo(q, d, "", num);
    ReleaseDateLine(q, feed.releaseDate, num);
    BlankLine(q.(releaseDate := feed.releaseDate), num);
    assert [] + CleanFiles(feed.files) == CleanFiles(feed.files);
  }

  lemma ParseTwo(p: Parser, a: string, b: string, num: Numerals)
    ensures ParseLines(p, [a, b], num) == ParseLine(ParseLine(p, a, num), b, num)
  {
    hide ParseLine;
    assert [a] + [b] == [a, b];
    ParseLinesConcat(p, [a], [b], num);
    ParseOne(p, a, num);
    ParseOne(ParseLine(p, a, num), b, num);
  }

  predicate FileIsWellFormed(f: FileEntry) {
    && IsTrimmed(f.url) && f.url != "" && IsTrimmed(f.sha512) && f.sha512 != "" && IsTruthy(f.size)
    && (f.blockMapSize.Some? ==> IsTruthy(f.blockMapSize.value))
  }

  /** Trimmed version, urls and hashes, urls and hashes not empty, sizes and block map sizes not zero. */
  predicate IsWellFormed(feed: Feed) {
    IsTrimmed(feed.version) && forall i :: 0 <= i < |feed.files| ==> FileIsWellFormed(feed.files[i])
  }

  lemma TrimFixes(s: string)
    ensures Trim(s) == s <==> IsTrimmed(s)
  {
    hide Trim;
    TrimIsTrimmed(s);
    if IsTrimmed(s) { TrimOfTrimmed(s); }
  }

  lemma CleanFileFixes(f: FileEntry)
    ensures CleanFile(f) == [f] <==> FileIsWellFormed(f)
  {
    hide Trim, IsTrimmed;
    TrimFixes(f.url);
    TrimFixes(f.sha512);
  }

  lemma {:induction false} CleanFilesShrink(files: seq<FileEntry>)
    ensures |CleanFiles(files)| <= |files|
  {
    if files != [] { CleanFilesShrink(files[..|files| - 1]); }
  }

  lemma {:induction false} CleanFilesFix(files: seq<FileEntry>)
    ensures CleanFiles(files) == files <==> forall i :: 0 <= i < |files| ==> FileIsWellFormed(files[i])
  {
    hide FileIsWellFormed, CleanFile;
    if files != [] {
      var front, f := files[..|files| - 1], files[|files| - 1];
      CleanFilesFix(front);
      CleanFilesShrink(front);
      CleanFileFixes(f);
      CleanFileSize(f);
      assert files == front + [f];
      if CleanFiles(files) == files {
        assert |CleanFile(f)| == 1;
        assert CleanFiles(files)[..|front|] == files[..|front|] && CleanFiles(files)[|front|] == f;
        assert CleanFile(f) == [f];
      }
    }
  }

  lemma CleanFileSize(f: FileEntry)
    ensures |CleanFile(f)| <= 1
  {
  }

  /** The round trip is the identity exactly on the well-formed feeds without line breaks. */
  lemma RoundTrip(feed: Feed, num: Numerals)
    requires ReadsBack(num)
    ensures Parsed(Serialized(feed, num), num) == feed <==> HasLines(feed) && IsWellFormed(feed)
  {
    hide Parsed, Serialized, CleanFiles, FileIsWellFormed, Trim, IsTrimmed, HasLines;
    if HasLines(feed) {
      ParseOfSerialize(feed, num);
      CleanFilesFix(feed.files);
      TrimFixes(feed.version);
    } else {
      ParsedIsTidy(Serialized(feed, num), num);
    }
  }

  lemma OneFileRoundTrip(f: FileEntry, num: Numerals)
    requires ReadsBack(num) && FileIsLines(f)
    ensures Parsed(Serialized(Feed("", [f], ""), num), num) == Feed("", CleanFile(f), "")
  {
    hide Parsed, Serialized, Trim, CleanFile, FileIsLines;
    ParseOfSerialize(Feed("", [f], ""), num);
    TrimFixes("");
    assert [f][..0] == [];
    assert CleanFiles([f]) == [] + CleanFile(f) == CleanFile(f);
  }

  /** A file of no size is lost by the round trip, and a block map of no size is lost from its file. */
  lemma ZeroSizesExample(num: Numerals)
    requires ReadsBack(num)
    ensures Parsed(Serialized(Feed("", [FileEntry("a", "b", Int(0), None)], ""), num), num) == Feed("", [], "")
    ensures Parsed(Serialized(Feed("", [FileEntry("a", "b", Int(1), Some(Int(0)))], ""), num), num) ==
            Feed("", [FileEntry("a", "b", Int(1), None)], "")
  {
    hide Parsed, Serialized, Trim, ReadsBack;
    TrimFixes("a");
    TrimFixes("b");
    OneFileRoundTrip(FileEntry("a", "b", Int(0), None), num);
    OneFileRoundTrip(FileEntry("a", "b", Int(1), Some(Int(0))), num);
  }

  // ---------------------------------------------------------------- what a parsed feed is like

  predicate DraftIsTidy(d: Draft) {
    IsLine(d.url) && IsTrimmed(d.url) && (d.sha512.Some? ==> IsLine(d.sha512.value) && IsTrimmed(d.sha512.value))
  }

  predicate FileIsTidy(f: FileEntry) {
    FileIsLines(f) && IsTrimmed(f.url) && f.url != "" && IsTrimmed(f.sha512) && f.sha512 != "" && IsTruthy(f.size)
  }

  ghost predicate IsTidy(p: Parser) {
    && IsLine(p.version) && IsTrimmed(p.version) && IsLine(p.releaseDate)
    && (forall i :: 0 <= i < |p.files| ==> FileIsTidy(p.files[i]))
    && (p.current.Some? ==> DraftIsTidy(p.current.value))
  }

  lemma FlushIsTidy(p: Parser)
    requires IsTidy(p)
    ensures IsTidy(Flush(p))
  {
    hide IsTrimmed, IsLine;
  }

  lemma TrimmedLine(s: string)
    requires IsLine(s)
    ensures IsLine(Trim(s)) && IsTrimmed(Trim(s))
  {
    hide Trim;
    TrimIsTrimmed(s);
  }

  lemma AfterIsLine(line: string, prefix: string)
    requires IsLine(line) && StartsWith(line, prefix)
    ensures IsLine(After(line, prefix))
  {
  }

  lemma UnquoteIsLine(text: string)
    requires IsLine(text)
    ensures IsLine(Unquote(text))
  {
  }

  /** The value of a field on a line without line breaks is trimmed and without line breaks. */
  lemma FieldIsTidy(line: string, prefix: string)
    requires IsLine(line) && StartsWith(line, prefix)
    ensures IsLine(Trim(After(line, prefix))) && IsTrimmed(Trim(After(line, prefix)))
  {
    hide Trim, IsTrimmed, IsLine, StartsWith, After;
    AfterIsLine(line, prefix);
    TrimmedLine(After(line, prefix));
  }

  lemma LineIsTidy(p: Parser, line: string, num: Numerals)
    requires IsTidy(p) && IsLine(line)
    ensures IsTidy(ParseLine(p, line, num))
  {
    hide Trim, IsTrimmed, IsLine, After, StartsWith, Unquote, Flush, ToNumber, FileIsTidy, IsIndented;
    FlushIsTidy(p);
    TrimmedLine(line);
    if StartsWith(line, VERSION) {
      FieldIsTidy(line, VERSION);
    } else if StartsWith(line, RELEASE_DATE) {
      FieldIsTidy(line, RELEASE_DATE);
      UnquoteIsLine(Trim(After(line, RELEASE_DATE)));
    } else if StartsWith(Trim(line), URL) {
      FieldIsTidy(Trim(line), URL);
    } else if StartsWith(Trim(line), SHA512) {
      FieldIsTidy(Trim(line), SHA512);
    }
  }

  lemma {:induction false} LinesAreTidy(p: Parser, lines: seq<string>, num: Numerals)
    requires IsTidy(p) && forall i :: 0 <= i < |lines| ==> IsLine(lines[i])
    ensures IsTidy(ParseLines(p, lines, num))
    decreases |lines|
  {
    hide ParseLine, IsTidy, IsLine;
    if lines != [] {
      LineIsTidy(p, lines[0], num);
      LinesAreTidy(ParseLine(p, lines[0], num), lines[1..], num);
    }
  }

  /** Whatever text was read, the feed read from it has no line breaks and is well formed but for zero block maps. */
  lemma ParsedIsTidy(content: string, num: Numerals)
    ensures var feed := Parsed(content, num);
      HasLines(feed) && IsTrimmed(feed.version) && forall i :: 0 <= i < |feed.files| ==> FileIsTidy(feed.files[i])
  {
    hide ParseLines, IsTrimmed, Flush, Split;
    var lines := Split(content, '\n');
    StartIsTidy();
    LinesAreTidy(START, lines, num);
    FlushIsTidy(ParseLines(START, lines, num));
    FlushKeeps(ParseLines(START, lines, num));
  }

  lemma StartIsTidy()
    ensures IsTidy(START)
  {
  }

  lemma FlushKeeps(p: Parser)
    ensures Flush(p).version == p.version && Flush(p).releaseDate == p.releaseDate
  {
  }

  // ---------------------------------------------------------------- the macOS merge

  function DropZeroBlocks(files: seq<FileEntry>): (r: seq<FileEntry>)
    ensures |r| == |files|
    ensures forall i :: 0 <= i < |r| ==> r[i] == files[i].(blockMapSize := CleanBlocks(files[i].blockMapSize))
  {
    seq(|files|, i requires 0 <= i < |files| => files[i].(blockMapSize := CleanBlocks(files[i].blockMapSize)))
  }

  lemma {:induction false} CleanTidyFiles(files: seq<FileEntry>)
    requires forall i :: 0 <= i < |files| ==> FileIsTidy(files[i])
    ensures CleanFiles(files) == DropZeroBlocks(files)
  {
    hide Trim, IsTrimmed, IsLine;
    if files != [] {
      var front, f := files[..|files| - 1], files[|files| - 1];
      CleanTidyFiles(front);
      TrimFixes(f.url);
      TrimFixes(f.sha512);
      assert DropZeroBlocks(files) == DropZeroBlocks(front) + [f.(blockMapSize := CleanBlocks(f.blockMapSize))];
    }
  }

  function FilesOf(feed: Option<Feed>): seq<FileEntry> {
    if feed.Some? then feed.value.files else []
  }

  /** The single macOS feed: version and date of the arm64 one if there is one, and the files of both, arm64 first. */
  function MergedMac(arm64: Option<Feed>, x64: Option<Feed>): Feed
    requires arm64.Some? || x64.Some?
  {
    var base := if arm64.Some? then arm64.value else x64.value;
    Feed(base.version, FilesOf(arm64) + FilesOf(x64), base.releaseDate)
  }

  function Read(content: Option<string>, num: Numerals): Option<Feed> {
    if content.Some? then Some(Parsed(content.value, num)) else None
  }

  /** Whatever the two macOS feeds hold, the published one parses back to the arm64 files followed by the x64 files. */
  lemma MergedMacReadsBack(arm64: Option<string>, x64: Option<string>, num: Numerals)
    requires ReadsBack(num) && (arm64.Some? || x64.Some?)
    ensures var base := Parsed(if arm64.Some? then arm64.value else x64.value, num);
      Parsed(Serialized(MergedMac(Read(arm64, num), Read(x64, num)), num), num) ==
      Feed(base.version, DropZeroBlocks(FilesOf(Read(arm64, num)) + FilesOf(Read(x64, num))), base.releaseDate)
  {
    hide Parsed, Serialized, IsTrimmed, IsLine, Trim, CleanFiles;
    if arm64.Some? { ParsedIsTidy(arm64.value, num); }
    if x64.Some? { ParsedIsTidy(x64.value, num); }
    var merged := MergedMac(Read(arm64, num), Read(x64, num));
    forall i | 0 <= i < |merged.files| ensures FileIsTidy(merged.files[i])
    {
      var n := |FilesOf(Read(arm64, num))|;
      assert merged.files[i] == if i < n then FilesOf(Read(arm64, num))[i] else FilesOf(Read(x64, num))[i - n];
    }
    ParseOfSerialize(merged, num);
    CleanTidyFiles(merged.files);
    TrimFixes(merged.version);
  }
}
