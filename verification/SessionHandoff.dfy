/**
 * The bounded transcript handed to a fresh harness session (packages/agent-runtime-contract/src/session-handoff.ts).
 * Lengths count characters.
 */
module SessionHandoff {
  import opened Text

  const MAX_TRANSCRIPT_CHARS := 60_000
  const MAX_TURN_SIDE_CHARS := 29_000
  const TRUNCATED := "[Earlier content truncated]\n"
  const SEPARATOR := "\n\n---\n\n"

  datatype ToolState = Completed(output: string) | Errored(error: string) | Unfinished

  datatype Part = TextPart(text: string, retracted: bool) | ToolPart(tool: string, state: ToolState, retracted: bool) | OtherPart

  datatype Role = User | Assistant | OtherRole

  /** `agentName`: the JSON text of an agent author's name. `error`: the name of the error a turn ended with. */
  datatype Message = Message(role: Role, parts: seq<Part>, error: Option<string>, agentName: Option<string>)

  // ---------------------------------------------------------------- quoting

  function ReplaceAll(s: string, c: char, with: string): string {
    if s == "" then "" else (if s[0] == c then with else [s[0]]) + ReplaceAll(s[1..], c, with)
  }

  function Escaped(value: string): string {
    ReplaceAll(ReplaceAll(ReplaceAll(value, '&', "&amp;"), '<', "&lt;"), '>', "&gt;")
  }

  function Quoted(value: string): string {
    var escaped := Escaped(value);
    if |escaped| <= MAX_TURN_SIDE_CHARS then escaped else TRUNCATED + escaped[|escaped| - MAX_TURN_SIDE_CHARS..]
  }

  predicate IsTagFree(s: string) {
    '<' !in s && '>' !in s
  }

  function EscapedChar(c: char): string {
    if c == '&' then "&amp;" else if c == '<' then "&lt;" else if c == '>' then "&gt;" else [c]
  }

  /** One pass that maps each character on its own. */
  function EscapedOnce(s: string): string {
    if s == "" then "" else EscapedChar(s[0]) + EscapedOnce(s[1..])
  }

  lemma {:induction false} ReplaceAllConcat(a: string, b: string, c: char, with: string)
    ensures ReplaceAll(a + b, c, with) == ReplaceAll(a, c, with) + ReplaceAll(b, c, with)
  {
    if a == "" {
      assert a + b == b;
    } else {
      assert (a + b)[1..] == a[1..] + b;
      ReplaceAllConcat(a[1..], b, c, with);
    }
  }

  lemma {:induction false} ReplaceAllNothing(s: string, c: char, with: string)
    requires c !in s
    ensures ReplaceAll(s, c, with) == s
  {
    if s != "" { ReplaceAllNothing(s[1..], c, with); }
  }

  lemma EscapedOfChar(c: char)
    ensures Escaped([c]) == EscapedChar(c)
  {
    hide ReplaceAll;
    ReplaceAllOne(c, '&', "&amp;");
    if c == '&' {
      ReplaceAllNothing("&amp;", '<', "&lt;");
      ReplaceAllNothing("&amp;", '>', "&gt;");
    } else {
      ReplaceAllOne(c, '<', "&lt;");
      if c == '<' {
        ReplaceAllNothing("&lt;", '>', "&gt;");
      } else {
        ReplaceAllOne(c, '>', "&gt;");
      }
    }
  }

  lemma ReplaceAllOne(x: char, c: char, with: string)
    ensures ReplaceAll([x], c, with) == if x == c then with else [x]
  {
    assert [x][1..] == "";
  }

  /** Three passes, the ampersand first, escape each character exactly once. */
  lemma {:induction false} EscapingIsOnePass(s: string)
    ensures Escaped(s) == EscapedOnce(s)
  {
    hide EscapedChar;
    if s != "" {
      var c, rest := s[0], s[1..];
      assert s == [c] + rest;
      EscapingIsOnePass(rest);
      EscapedOfChar(c);
      EscapedConcat([c], rest);
    }
  }

  lemma EscapedConcat(a: string, b: string)
    ensures Escaped(a + b) == Escaped(a) + Escaped(b)
  {
    hide ReplaceAll;
    ReplaceAllConcat(a, b, '&', "&amp;");
    var a1, b1 := ReplaceAll(a, '&', "&amp;"), ReplaceAll(b, '&', "&amp;");
    ReplaceAllConcat(a1, b1, '<', "&lt;");
    ReplaceAllConcat(ReplaceAll(a1, '<', "&lt;"), ReplaceAll(b1, '<', "&lt;"), '>', "&gt;");
  }

  lemma {:induction false} EscapedIsTagFree(s: string)
    ensures IsTagFree(EscapedOnce(s))
  {
    if s != "" { EscapedIsTagFree(s[1..]); }
  }

  /** Reads escaped text back. */
  function Unescaped(s: string): string {
    if s == "" then ""
    else if StartsWith(s, "&amp;") then "&" + Unescaped(s[5..])
    else if StartsWith(s, "&lt;") then "<" + Unescaped(s[4..])
    else if StartsWith(s, "&gt;") then ">" + Unescaped(s[4..])
    else [s[0]] + Unescaped(s[1..])
  }

  /** Escaping loses nothing: the text can be read back. */
  lemma {:induction false} EscapeRoundTrip(s: string)
    ensures Unescaped(EscapedOnce(s)) == s
  {
    if s != "" {
      var e, rest := EscapedChar(s[0]), EscapedOnce(s[1..]);
      EscapeRoundTrip(s[1..]);
      assert EscapedOnce(s) == e + rest;
      assert (e + rest)[|e|..] == rest && (e + rest)[0] == e[0];
      if s[0] == '&' {
        assert (e + rest)[..5] == "&amp;";
      } else if s[0] == '<' {
        assert (e + rest)[..4] == "&lt;" && (e + rest)[1] == 'l';
      } else if s[0] == '>' {
        assert (e + rest)[..4] == "&gt;" && (e + rest)[1] == 'g';
      }
    }
  }

  lemma TruncationFits(escaped: string)
    requires IsTagFree(escaped) && |escaped| > MAX_TURN_SIDE_CHARS
    ensures var text := TRUNCATED + escaped[|escaped| - MAX_TURN_SIDE_CHARS..]; IsTagFree(text) && |text| == MAX_TURN_SIDE_CHARS + 28
  {
    assert |TRUNCATED| == 28 && IsTagFree(TRUNCATED);
  }

  lemma QuotedFits(value: string)
    ensures IsTagFree(Quoted(value)) && |Quoted(value)| <= MAX_TURN_SIDE_CHARS + 28
  {
    hide Escaped, EscapedOnce, IsTagFree;
    EscapingIsOnePass(value);
    EscapedIsTagFree(value);
    if |Escaped(value)| > MAX_TURN_SIDE_CHARS {
      TruncationFits(Escaped(value));
    }
  }

  /** Quoting says it all, escaped, or says that it does not and then the end of it. */
  lemma QuotedKeepsEnd(value: string)
    ensures var all, text := EscapedOnce(value), Quoted(value);
      if |all| <= 29_000 then text == all
      else |text| == 29_028 && text[..28] == "[Earlier content truncated]\n" && text[28..] == all[|all| - 29_000..]
  {
    hide Escaped, EscapedOnce;
    EscapingIsOnePass(value);
    var escaped := Escaped(value);
    assert |TRUNCATED| == 28;
    if |escaped| > MAX_TURN_SIDE_CHARS {
      assert (TRUNCATED + escaped[|escaped| - MAX_TURN_SIDE_CHARS..])[..28] == TRUNCATED;
    }
  }

  // ---------------------------------------------------------------- messages

  function PartText(p: Part): string {
    match p
    case TextPart(text, retracted) => if retracted then "" else text
    case ToolPart(tool, state, retracted) =>
      if retracted then ""
      else
        (match state
         case Unfinished => ""
         case Completed(output) => "[" + tool + " (completed)]" + (if output == "" then "" else "\n" + output)
         case Errored(error) => "[" + tool + " (error)]" + (if error == "" then "" else "\n" + error))
    case OtherPart => ""
  }

  function PartTexts(parts: seq<Part>): seq<string> {
    if parts == [] then []
    else (if PartText(parts[0]) == "" then [] else [PartText(parts[0])]) + PartTexts(parts[1..])
  }

  function LabelOf(m: Message): string {
    if m.role.Assistant? then "Assistant"
    else if m.agentName.Some? then "Agent " + m.agentName.value
    else "User"
  }

  function MessageText(m: Message): string {
    if m.role.OtherRole? then ""
    else
      var content := Join(PartTexts(m.parts), "\n");
      if content == "" && m.error.None? then ""
      else
        var outcome := if m.error.Some? then "\n[Turn ended: " + m.error.value + "]" else "";
        Quoted(LabelOf(m)) + ":\n" + Quoted(content + outcome)
  }

  lemma {:induction false} PartTextsConcat(a: seq<Part>, b: seq<Part>)
    ensures PartTexts(a + b) == PartTexts(a) + PartTexts(b)
  {
    hide PartText;
    if a == [] {
      assert a + b == b;
    } else {
      assert (a + b)[1..] == a[1..] + b;
      PartTextsConcat(a[1..], b);
    }
  }

  predicate IsRetracted(p: Part) {
    (p.TextPart? || p.ToolPart?) && p.retracted
  }

  /** What was retracted, wherever it stands, leaves no trace in the message. */
  lemma RetractedSaysNothing(m: Message, a: seq<Part>, p: Part, b: seq<Part>)
    requires m.parts == a + [p] + b && IsRetracted(p)
    ensures MessageText(m) == MessageText(m.(parts := a + b))
  {
    hide PartText;
    SilentPart(p);
    PartTextsConcat(a + [p], b);
    PartTextsConcat(a, [p]);
    PartTextsConcat(a, b);
    assert PartTexts(a) + [] == PartTexts(a);
  }

  lemma SilentPart(p: Part)
    requires IsRetracted(p)
    ensures PartTexts([p]) == []
  {
    assert [p][1..] == [];
  }

  lemma OnePart(p: Part)
    ensures PartTexts([p]) == if PartText(p) == "" then [] else [PartText(p)]
  {
    assert [p][1..] == [];
  }

  lemma JoinOne(s: string, sep: string)
    ensures Join([s], sep) == s
  {
  }

  /** A message of one text is its author's label, a colon, and the text; each kind of author has its own label. */
  lemma TextIsSaid(text: string, name: string)
    requires text != ""
    ensures var parts := [TextPart(text, false)];
      && MessageText(Message(User, parts, None, None)) == Quoted("User") + ":\n" + Quoted(text)
      && MessageText(Message(User, parts, None, Some(name))) == Quoted("Agent " + name) + ":\n" + Quoted(text)
      && MessageText(Message(Assistant, parts, None, None)) == Quoted("Assistant") + ":\n" + Quoted(text)
      && MessageText(Message(Assistant, parts, None, Some(name))) == Quoted("Assistant") + ":\n" + Quoted(text)
      && MessageText(Message(OtherRole, parts, None, None)) == ""
  {
    hide Quoted;
    OnePart(TextPart(text, false));
    JoinOne(text, "\n");
    assert text + "" == text;
  }

  /** A finished tool says its name, how it ended, and what it returned; an unfinished one says nothing. */
  lemma ToolIsSaid(tool: string, output: string)
    ensures PartTexts([ToolPart(tool, Unfinished, false)]) == [] && PartTexts([OtherPart]) == []
    ensures PartTexts([ToolPart(tool, Completed(""), false)]) == ["[" + tool + " (completed)]"]
    ensures PartTexts([ToolPart(tool, Errored(""), false)]) == ["[" + tool + " (error)]"]
    ensures output != "" ==> PartTexts([ToolPart(tool, Completed(output), false)]) == ["[" + tool + " (completed)]" + ("\n" + output)]
    ensures output != "" ==> PartTexts([ToolPart(tool, Errored(output), false)]) == ["[" + tool + " (error)]" + ("\n" + output)]
  {
    OnePart(ToolPart(tool, Unfinished, false));
    OnePart(OtherPart);
    OnePart(ToolPart(tool, Completed(""), false));
    OnePart(ToolPart(tool, Errored(""), false));
    OnePart(ToolPart(tool, Completed(output), false));
    OnePart(ToolPart(tool, Errored(output), false));
    assert "[" + tool + " (completed)]" + "" == "[" + tool + " (completed)]" && "[" + tool + " (error)]" + "" == "[" + tool + " (error)]";
  }

  /** The texts of a message stand on lines of their own, and a turn that ended in an error says so after them, even with nothing else. */
  lemma ErrorIsSaid(m: Message, error: string)
    requires m.role.Assistant? && m.error == Some(error)
    ensures MessageText(m) == Quoted("Assistant") + ":\n" + Quoted(Join(PartTexts(m.parts), "\n") + "\n[Turn ended: " + error + "]")
  {
    hide Quoted, Join, PartTexts;
    var content := Join(PartTexts(m.parts), "\n");
    assert content + ("\n[Turn ended: " + error + "]") == content + "\n[Turn ended: " + error + "]";
  }

  /** One message always fits: two sides of at most 29,028 characters and the colon and line break between them. */
  lemma MessageFits(m: Message)
    ensures IsTagFree(MessageText(m)) && |MessageText(m)| <= 2 * 29_028 + 2 < MAX_TRANSCRIPT_CHARS
  {
    hide Quoted, Join, PartTexts, LabelOf;
    QuotedFits(LabelOf(m));
    var content := Join(PartTexts(m.parts), "\n");
    var outcome := if m.error.Some? then "\n[Turn ended: " + m.error.value + "]" else "";
    QuotedFits(content + outcome);
  }

  // ---------------------------------------------------------------- the transcript

  /** The texts of the messages that have one, oldest first. */
  function Texts(rows: seq<Message>): seq<string> {
    if rows == [] then []
    else (if MessageText(rows[0]) == "" then [] else [MessageText(rows[0])]) + Texts(rows[1..])
  }

  /** The newest texts from `from` on, joined: they fit, one more would not, and the newest is always among them. */
  ghost predicate IsTranscript(texts: seq<string>, from: nat, transcript: string) {
    && from <= |texts| && (texts != [] ==> from < |texts|)
    && transcript == Join(texts[from..], SEPARATOR) && |transcript| <= MAX_TRANSCRIPT_CHARS
    && (from > 0 ==> |Join(texts[from - 1..], SEPARATOR)| > MAX_TRANSCRIPT_CHARS)
  }

  lemma {:induction false} TextsFit(rows: seq<Message>)
    ensures forall i :: 0 <= i < |Texts(rows)| ==> IsTagFree(Texts(rows)[i]) && 0 < |Texts(rows)[i]| <= MAX_TRANSCRIPT_CHARS
  {
    hide MessageText, IsTagFree;
    if rows != [] {
      MessageFits(rows[0]);
      TextsFit(rows[1..]);
    }
  }

  lemma JoinFront(text: string, rest: seq<string>)
    ensures Join([text] + rest, SEPARATOR) == if rest == [] then text else text + SEPARATOR + Join(rest, SEPARATOR)
  {
    assert ([text] + rest)[1..] == rest;
  }

  /** One more message, going back: its text, if it has one, is the text before those already taken. */
  lemma OneMore(rows: seq<Message>, i: nat, from: nat)
    requires i < |rows| && from <= |Texts(rows)| && Texts(rows[i + 1..]) == Texts(rows)[from..]
    ensures var text, texts := MessageText(rows[i]), Texts(rows);
      && (text == "" ==> Texts(rows[i..]) == texts[from..] && (i == 0 ==> from == 0))
      && (text != "" ==> from > 0 && texts[from - 1..] == [text] + texts[from..] == Texts(rows[i..]) && |text| <= MAX_TRANSCRIPT_CHARS)
      && (text != "" && i == 0 ==> from == 1)
  {
    hide MessageText;
    assert rows[i..][1..] == rows[i + 1..] && rows[i..][0] == rows[i];
    SuffixTexts(rows, i);
    MessageFits(rows[i]);
    assert i == 0 ==> rows[i..] == rows;
  }

  method RenderSessionTranscript(rows: seq<Message>) returns (transcript: string)
    ensures exists from: nat :: IsTranscript(Texts(rows), from, transcript)
  {
    hide MessageText, Join, Texts;
    var bounded: seq<string> := [];
    var chars := 0;
    ghost var texts := Texts(rows);
    ghost var from: nat := |texts|;
    var i := |rows|;
    NoTexts();
    assert rows[i..] == [] && texts[from..] == [];
    while i > 0
      invariant 0 <= i <= |rows| && from <= |texts|
      invariant Texts(rows[i..]) == bounded == texts[from..]
      invariant chars == |Join(bounded, SEPARATOR)| <= MAX_TRANSCRIPT_CHARS
      invariant i == 0 ==> from == 0
      decreases i
    {
      i := i - 1;
      var text := MessageText(rows[i]);
      OneMore(rows, i, from);
      if text == "" { continue; }
      var separator := if bounded == [] then 0 else 7;
      JoinFront(text, bounded);
      if chars + separator + |text| > MAX_TRANSCRIPT_CHARS { break; }
      bounded := [text] + bounded;
      chars := chars + separator + |text|;
      from := from - 1;
    }
    transcript := Join(bounded, SEPARATOR);
    assert IsTranscript(texts, from, transcript);
  }

  lemma NoTexts()
    ensures Texts([]) == [] && Join([], SEPARATOR) == ""
  {
  }

  lemma EmptyJoin()
    ensures Join([], SEPARATOR) == ""
  {
  }

  lemma {:induction false} SuffixTexts(rows: seq<Message>, i: nat)
    requires i <= |rows|
    ensures |Texts(rows[i..])| <= |Texts(rows)| && Texts(rows)[|Texts(rows)| - |Texts(rows[i..])|..] == Texts(rows[i..])
  {
    hide MessageText;
    if i == 0 {
      assert rows[0..] == rows;
    } else {
      SuffixTexts(rows[1..], i - 1);
      assert rows[1..][i - 1..] == rows[i..];
    }
  }

  lemma {:induction false} LongerIsLonger(texts: seq<string>, i: nat, j: nat)
    requires i <= j <= |texts|
    ensures |Join(texts[i..], SEPARATOR)| >= |Join(texts[j..], SEPARATOR)|
    decreases j - i
  {
    hide Join;
    if i < j {
      LongerIsLonger(texts, i + 1, j);
      assert texts[i..] == [texts[i]] + texts[i + 1..];
      JoinFront(texts[i], texts[i + 1..]);
      EmptyJoin();
    }
  }

  lemma {:induction false} JoinIsTagFree(texts: seq<string>)
    requires forall i :: 0 <= i < |texts| ==> IsTagFree(texts[i])
    ensures IsTagFree(Join(texts, SEPARATOR))
  {
    if |texts| > 1 { JoinIsTagFree(texts[1..]); }
  }

  /** The transcript is the longest run of newest messages that fits, has no tag characters, and holds the newest message. */
  lemma TranscriptIsLongest(rows: seq<Message>, from: nat, transcript: string)
    requires IsTranscript(Texts(rows), from, transcript)
    ensures IsTagFree(transcript) && |transcript| <= 60_000 && transcript == Join(Texts(rows)[from..], "\n\n---\n\n")
    ensures forall i :: 0 <= i <= |Texts(rows)| && |Join(Texts(rows)[i..], "\n\n---\n\n")| <= 60_000 ==> from <= i
    ensures Texts(rows) != [] ==> from < |Texts(rows)|
  {
    hide Texts, Join, IsTagFree;
    var texts := Texts(rows);
    TextsFit(rows);
    JoinIsTagFree(texts[from..]);
    forall i | 0 <= i < from ensures |Join(texts[i..], SEPARATOR)| > MAX_TRANSCRIPT_CHARS
    {
      LongerIsLonger(texts, i, from - 1);
    }
  }
}
