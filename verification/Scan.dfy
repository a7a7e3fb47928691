/**
 * The hand-written scanner that finds brace depth, parenthesis depth, line and code text at every offset
 * (script/helpers/extract.ts:123-314).
 *
 * `Step` is one turn of the source's loop, with its stack of template depths. `RefStep` is what it stands for: an explicit stack
 * of open brackets, on which a `}` closes the innermost one.
 */
module Scan {
  import opened Text

  datatype Mode = Code | LineComment | BlockComment | Quotes | Template | Regex

  /** `prev`: the last significant character, if any. `templates`: the depth at which each open `${` began. */
  datatype Lexer = Lexer(mode: Mode, depth: int, paren: int, quote: char, prev: Option<char>, inClass: bool, templates: seq<int>)

  const INIT := Lexer(Code, 0, 0, ' ', None, false, [])

  predicate NextIs(text: string, i: nat, c: char) {
    i + 1 < |text| && text[i + 1] == c
  }

  /** At the start, after an opening bracket, a separator or an operator; not after a name, a number or a closing bracket. */
  predicate ValueMayBegin(prev: Option<char>)
    ensures ValueMayBegin(prev) <==> prev.None? || prev.value in {'(', '[', '{', ',', ';', ':', '=', '!', '&', '|', '?'}
  {
    prev.None? || prev.value in "(,=:[!&|?{;"
  }

  /** One turn of the loop in a mode other than code. */
  function StepText(text: string, i: nat, s: Lexer): (r: (nat, Lexer))
    requires i < |text| && !s.mode.Code?
    ensures i < r.0 <= i + 2
  {
    var c := text[i];
    match s.mode
    case LineComment => (i + 1, if c == '\n' then s.(mode := Code) else s)
    case BlockComment => if c == '*' && NextIs(text, i, '/') then (i + 2, s.(mode := Code)) else (i + 1, s)
    case Quotes => if c == '\\' then (i + 2, s) else (i + 1, if c == s.quote then s.(mode := Code) else s)
    case Regex =>
      if c == '\\' then (i + 2, s)
      else if c == '[' then (i + 1, s.(inClass := true))
      else if c == ']' then (i + 1, s.(inClass := false))
      else (i + 1, if c == '/' && !s.inClass then s.(mode := Code) else s)
    case Template =>
      if c == '\\' then (i + 2, s)
      else if c == '`' then (i + 1, s.(mode := Code))
      else if c == '$' && NextIs(text, i, '{') then (i + 2, s.(templates := s.templates + [s.depth], depth := s.depth + 1, mode := Code))
      else (i + 1, s)
  }

  /** A `}` in code: it leaves the depth it closes, and re-enters a template when that is where the last `${` began. */
  function CloseBrace(s: Lexer): Lexer {
    var t := s.(prev := Some('}'), depth := s.depth - 1);
    if s.templates != [] && s.templates[|s.templates| - 1] == t.depth
    then t.(templates := s.templates[..|s.templates| - 1], mode := Template)
    else t
  }

  /** One turn of the loop in code. */
  function StepCode(text: string, i: nat, s: Lexer): (r: (nat, Lexer))
    requires i < |text| && s.mode.Code?
    ensures i < r.0 <= i + 2
  {
    var c := text[i];
    if c == '/' && !NextIs(text, i, '/') && !NextIs(text, i, '*') && ValueMayBegin(s.prev) then
      (i + 1, s.(mode := Regex, inClass := false, prev := Some('/')))
    else if c == '/' && NextIs(text, i, '/') then (i + 2, s.(mode := LineComment))
    else if c == '/' && NextIs(text, i, '*') then (i + 2, s.(mode := BlockComment))
    else if c == '"' || c == '\'' then (i + 1, s.(mode := Quotes, quote := c, prev := Some(c)))
    else if c == '`' then (i + 1, s.(mode := Template))
    else if c == '(' then (i + 1, s.(paren := s.paren + 1, prev := Some(c)))
    else if c == ')' then (i + 1, s.(paren := s.paren - 1, prev := Some(c)))
    else if c == '{' then (i + 1, s.(depth := s.depth + 1, prev := Some(c)))
    else if c == '}' then (i + 1, CloseBrace(s))
    else if c == '\n' || c == ' ' || c == '\t' || c == '\r' then (i + 1, s)
    else (i + 1, s.(prev := Some(c)))
  }

  function Step(text: string, i: nat, s: Lexer): (r: (nat, Lexer))
    requires i < |text|
    ensures i < r.0 <= i + 2
  {
    if s.mode.Code? then StepCode(text, i, s) else StepText(text, i, s)
  }

  /** The first position visited at or after offset `k`, and the state there. */
  function Visit(text: string, i: nat, s: Lexer, k: nat): (nat, Lexer)
    decreases |text| - i
  {
    if i >= k || i >= |text| then (i, s)
    else
      var (next, t) := Step(text, i, s);
      Visit(text, next, t, k)
  }

  function StateAt(text: string, k: nat): Lexer {
    Visit(text, 0, INIT, k).1
  }

  // ---------------------------------------------------------------- comment text and statement starts

  predicate Visited(text: string, k: nat) {
    Visit(text, 0, INIT, k).0 == k
  }

  predicate OpensComment(text: string, i: nat)
    requires i < |text|
  {
    text[i] == '/' && (NextIs(text, i, '/') || NextIs(text, i, '*'))
  }

  /** How many characters one turn marks as comment text: two for an opener or a closer, else one inside a comment. */
  function Marked(text: string, i: nat, s: Lexer): (n: nat)
    requires i < |text|
    ensures i + n <= |text| && n <= 2
  {
    match s.mode
    case Code => if OpensComment(text, i) then 2 else 0
    case LineComment => if text[i] == '\n' then 0 else 1
    case BlockComment => if text[i] == '*' && NextIs(text, i, '/') then 2 else 1
    case Quotes => 0
    case Template => 0
    case Regex => 0
  }

  /** The character is comment text: a turn at it marks it, or a turn before it steps over it and marks it too. */
  predicate CommentAt(text: string, k: nat)
    requires k < |text|
  {
    if Visited(text, k) then Marked(text, k, StateAt(text, k)) >= 1
    else k > 0 && Marked(text, k - 1, StateAt(text, k - 1)) == 2
  }

  /** In code, the characters after which a statement may begin. */
  predicate EndsStatement(c: char) {
    c == '{' || c == '}' || c == ';' || c == '\n'
  }

  /** Whether a statement may begin, after one turn in code: blanks and comments leave that as it was. */
  function MayStart(text: string, i: nat, s: Lexer, may: bool): bool
    requires i < |text|
  {
    if !s.mode.Code? || OpensComment(text, i) || text[i] in " \t\r" then may
    else EndsStatement(text[i])
  }

  function MayStartAt(text: string, i: nat, s: Lexer, may: bool, k: nat): bool
    decreases |text| - i
  {
    if i >= k || i >= |text| then may
    else
      var (next, t) := Step(text, i, s);
      MayStartAt(text, next, t, MayStart(text, i, s, may), k)
  }

  /** A character of code that is no bracket, quote, blank, separator, or start of a comment or regular expression. */
  predicate IsWordLike(text: string, i: nat, s: Lexer)
    requires i < |text|
  {
    s.mode.Code? && text[i] !in "\"'`(){};\n \t\r" && !OpensComment(text, i) && !(text[i] == '/' && ValueMayBegin(s.prev))
  }

  const DECL_FIRST_CHAR := "edafclv"

  /** A declaration may start with any of these words, and its first letter with nothing else. */
  lemma DeclarationLetters(c: char)
    ensures c in DECL_FIRST_CHAR <==>
      exists i :: 0 <= i < 7 && ["export", "declare", "async", "function", "const", "let", "var"][i][0] == c
  {
    var words := ["export", "declare", "async", "function", "const", "let", "var"];
    assert words[0][0] == 'e' && words[1][0] == 'd' && words[2][0] == 'a' && words[3][0] == 'f' && words[4][0] == 'c';
    assert words[5][0] == 'l' && words[6][0] == 'v';
  }

  /** A statement begins here. */
  predicate StartsStatement(text: string, k: nat) {
    k < |text| && Visited(text, k) && IsWordLike(text, k, StateAt(text, k)) && MayStartAt(text, 0, INIT, true, k)
  }

  predicate IsTopLevelStart(text: string, k: nat) {
    StartsStatement(text, k) && StateAt(text, k).depth == 0
  }

  predicate IsNestedStart(text: string, k: nat) {
    StartsStatement(text, k) && StateAt(text, k).depth != 0 && text[k] in DECL_FIRST_CHAR
  }

  ghost predicate Increasing(s: seq<nat>) {
    forall a, b :: 0 <= a < b < |s| ==> s[a] < s[b]
  }

  /** The statement starts before position `i`, in order. */
  ghost predicate StartsUpTo(text: string, i: nat, top: seq<nat>, nested: seq<nat>) {
    && Increasing(top) && (forall k: nat :: k in top <==> k < i && IsTopLevelStart(text, k))
    && Increasing(nested) && (forall k: nat :: k in nested <==> k < i && IsNestedStart(text, k))
  }

  /** The comment text before position `i` is marked, and nothing else. */
  ghost predicate CommentsUpTo(text: string, i: nat, isComment: array<bool>)
    reads isComment
  {
    isComment.Length == |text| && forall k :: 0 <= k < |text| ==> (isComment[k] <==> k < i && CommentAt(text, k))
  }

  function Newlines(s: string): nat {
    if s == "" then 0 else Newlines(s[..|s| - 1]) + (if s[|s| - 1] == '\n' then 1 else 0)
  }

  /** One past the last position visited: offsets from there on are never filled by the loop. */
  function FilledFrom(text: string, i: nat, s: Lexer, filled: nat): nat
    decreases |text| - i
  {
    if i >= |text| then filled
    else
      var (next, t) := Step(text, i, s);
      FilledFrom(text, next, t, i + 1)
  }

  function Filled(text: string): (n: nat)
    ensures n <= |text| <= n + 1
  {
    FilledBounds(text, 0, INIT, 0);
    FilledFrom(text, 0, INIT, 0)
  }

  lemma {:induction false} FilledBounds(text: string, i: nat, s: Lexer, filled: nat)
    requires filled <= i <= filled + 1 && filled <= |text|
    ensures filled <= FilledFrom(text, i, s, filled) <= |text| <= FilledFrom(text, i, s, filled) + 1
    decreases |text| - i
  {
    hide StepCode, StepText;
    if i < |text| {
      var (next, t) := Step(text, i, s);
      FilledBounds(text, next, t, i + 1);
    }
  }

  /** The first `filled` offsets hold the state at the first visit at or after them and their line; the rest are untouched. */
  ghost predicate IsFilled(text: string, depthAt: array<int>, parenAt: array<int>, lineAt: array<int>, isCode: array<bool>, filled: nat)
    reads depthAt, parenAt, lineAt, isCode
  {
    && depthAt.Length == parenAt.Length == lineAt.Length == |text| + 1 && isCode.Length == |text| && filled <= |text|
    && (forall k :: 0 <= k < filled ==> depthAt[k] == StateAt(text, k).depth && parenAt[k] == StateAt(text, k).paren)
    && (forall k :: 0 <= k < filled ==> (isCode[k] <==> StateAt(text, k).mode.Code?))
    && (forall k :: 0 <= k < filled ==> lineAt[k] == 1 + Newlines(text[..k]))
    && (forall k :: filled <= k < |text| ==> depthAt[k] == 0 && parenAt[k] == 0 && lineAt[k] == 0 && !isCode[k])
  }

  /** Fills the offsets up to and including the position visited. */
  method Fill(text: string, depthAt: array<int>, parenAt: array<int>, lineAt: array<int>, isCode: array<bool>,
              s: Lexer, i: nat, from: nat, line0: int)
    returns (line: int)
    requires from <= i < |text| && IsFilled(text, depthAt, parenAt, lineAt, isCode, from) && line0 == 1 + Newlines(text[..from])
    requires depthAt != parenAt && depthAt != lineAt && parenAt != lineAt
    requires forall k :: from <= k <= i ==> StateAt(text, k) == s
    modifies depthAt, parenAt, lineAt, isCode
    ensures IsFilled(text, depthAt, parenAt, lineAt, isCode, i + 1) && line == 1 + Newlines(text[..i + 1])
  {
    hide StateAt, Newlines;
    line := line0;
    var filled := from;
    while filled <= i
      invariant from <= filled <= i + 1 && line == 1 + Newlines(text[..filled])
      invariant IsFilled(text, depthAt, parenAt, lineAt, isCode, filled)
    {
      depthAt[filled], parenAt[filled], isCode[filled], lineAt[filled] := s.depth, s.paren, s.mode.Code?, line;
      NewlinesStep(text, filled);
      if text[filled] == '\n' { line := line + 1; }
      filled := filled + 1;
    }
  }

  method NewArrays(text: string)
    returns (depthAt: array<int>, parenAt: array<int>, lineAt: array<int>, isCode: array<bool>, isComment: array<bool>)
    ensures IsFilled(text, depthAt, parenAt, lineAt, isCode, 0)
    ensures depthAt != parenAt && depthAt != lineAt && parenAt != lineAt
    ensures CommentsUpTo(text, 0, isComment) && isComment != isCode
    ensures fresh(depthAt) && fresh(parenAt) && fresh(lineAt) && fresh(isCode) && fresh(isComment)
  {
    depthAt, parenAt, lineAt := new int[|text| + 1](_ => 0), new int[|text| + 1](_ => 0), new int[|text| + 1](_ => 0);
    isCode := new bool[|text|](_ => false);
    isComment := new bool[|text|](_ => false);
  }

  /** The counts after the last character. */
  method FillEnd(text: string, depthAt: array<int>, parenAt: array<int>, lineAt: array<int>, isCode: array<bool>, s: Lexer, line: int, ghost filled: nat)
    requires IsFilled(text, depthAt, parenAt, lineAt, isCode, filled)
    requires depthAt != parenAt && depthAt != lineAt && parenAt != lineAt
    modifies depthAt, parenAt, lineAt
    ensures IsFilled(text, depthAt, parenAt, lineAt, isCode, filled)
    ensures depthAt[|text|] == s.depth && parenAt[|text|] == s.paren && lineAt[|text|] == line
  {
    hide StateAt, Newlines;
    depthAt[|text|], parenAt[|text|], lineAt[|text|] := s.depth, s.paren, line;
  }

  /** Marks what one turn reads as comment text. */
  method MarkComment(text: string, isComment: array<bool>, i: nat, s: Lexer)
    requires i < |text| && CommentsUpTo(text, i, isComment) && Visit(text, 0, INIT, i) == (i, s)
    requires Visit(text, 0, INIT, i + 1) == Step(text, i, s)
    modifies isComment
    ensures CommentsUpTo(text, Step(text, i, s).0, isComment)
  {
    hide Visit, StepCode, StepText;
    TurnMarks(text, i, s);
    var n := Marked(text, i, s);
    if n >= 1 { isComment[i] := true; }
    if n == 2 { isComment[i + 1] := true; }
  }

  lemma TurnMarks(text: string, i: nat, s: Lexer)
    requires i < |text| && Visit(text, 0, INIT, i) == (i, s) && Visit(text, 0, INIT, i + 1) == Step(text, i, s)
    ensures Marked(text, i, s) <= Step(text, i, s).0 - i <= 2
    ensures CommentAt(text, i) <==> Marked(text, i, s) >= 1
    ensures Step(text, i, s).0 == i + 2 && i + 1 < |text| ==> (CommentAt(text, i + 1) <==> Marked(text, i, s) == 2)
  {
    hide Visit;
  }

  /** Records the statement that begins at this position, if one does. */
  method TakeStart(text: string, i: nat, s: Lexer, may: bool, top: seq<nat>, nested: seq<nat>)
    returns (newTop: seq<nat>, newNested: seq<nat>)
    requires i < |text| && StartsUpTo(text, i, top, nested)
    requires Visit(text, 0, INIT, i) == (i, s) && Visit(text, 0, INIT, i + 1) == Step(text, i, s) && may == MayStartAt(text, 0, INIT, true, i)
    ensures StartsUpTo(text, Step(text, i, s).0, newTop, newNested)
  {
    hide Visit, Step, MayStartAt, IsWordLike, StartsStatement, StateAt;
    newTop, newNested := top, nested;
    TurnStarts(text, i, s);
    AppendIncreasing(top, i);
    AppendIncreasing(nested, i);
    if IsWordLike(text, i, s) && may {
      if s.depth == 0 { newTop := newTop + [i]; }
      else if text[i] in DECL_FIRST_CHAR { newNested := newNested + [i]; }
    }
  }

  lemma AppendIncreasing(list: seq<nat>, i: nat)
    requires Increasing(list) && forall k :: k in list ==> k < i
    ensures Increasing(list + [i]) && forall k :: k in list + [i] <==> k in list || k == i
  {
    assert forall a :: 0 <= a < |list| ==> list[a] in list;
  }

  lemma TurnStarts(text: string, i: nat, s: Lexer)
    requires i < |text| && Visit(text, 0, INIT, i) == (i, s) && Visit(text, 0, INIT, i + 1) == Step(text, i, s)
    ensures i < Step(text, i, s).0 <= i + 2
    ensures StartsStatement(text, i) <==> IsWordLike(text, i, s) && MayStartAt(text, 0, INIT, true, i)
    ensures StateAt(text, i) == s
    ensures Step(text, i, s).0 == i + 2 ==> !StartsStatement(text, i + 1)
  {
    hide Visit, MayStartAt, IsWordLike;
  }

  /**
   * The scan: every offset up to the last position visited holds the state at the first position visited at or after it, its line
   * number, and whether it was read as code; the offset after the text holds the final counts; exactly the comment text is marked; and
   * the two lists hold, in order, the positions at which a statement begins, at top level and, if a declaration may start with the
   * character there, below it.
   */
  method ScanText(text: string)
    returns (topLevelStarts: seq<nat>, nestedStarts: seq<nat>,
             depthAt: array<int>, parenAt: array<int>, lineAt: array<int>, isComment: array<bool>, isCode: array<bool>)
    ensures IsFilled(text, depthAt, parenAt, lineAt, isCode, Filled(text))
    ensures depthAt[|text|] == StateAt(text, |text|).depth && parenAt[|text|] == StateAt(text, |text|).paren
    ensures lineAt[|text|] == 1 + Newlines(text[..Filled(text)])
    ensures CommentsUpTo(text, |text|, isComment)
    ensures StartsUpTo(text, |text|, topLevelStarts, nestedStarts)
  {
    hide Step, Newlines, Visit, FilledFrom, StateAt, IsFilled, Filled, CommentsUpTo, StartsUpTo, MayStartAt, MayStart, SameVisits;
    depthAt, parenAt, lineAt, isCode, isComment := NewArrays(text);
    topLevelStarts, nestedStarts := [], [];
    var s, i, line, filled, atStatementStart := INIT, 0, 1, 0, true;
    ScanBegins(text);
    NewlinesStep(text, 0);
    FilledIs(text);
    while i < |text|
      invariant filled <= i <= filled + 1 && filled <= |text|
      invariant FilledFrom(text, i, s, filled) == Filled(text)
      invariant SameVisits(text, i, s, filled)
      invariant line == 1 + Newlines(text[..filled])
      invariant IsFilled(text, depthAt, parenAt, lineAt, isCode, filled)
      invariant CommentsUpTo(text, i, isComment) && StartsUpTo(text, i, topLevelStarts, nestedStarts)
      invariant SameStarts(text, i, s, atStatementStart, filled)
      invariant fresh(depthAt) && fresh(parenAt) && fresh(lineAt) && fresh(isCode) && fresh(isComment) && isComment != isCode
      decreases |text| - i
    {
      VisitsHere(text, i, s, filled);
      TurnVisits(text, i, s, atStatementStart, filled);
      MarkComment(text, isComment, i, s);
      topLevelStarts, nestedStarts := TakeStart(text, i, s, atStatementStart, topLevelStarts, nestedStarts);
      line := Fill(text, depthAt, parenAt, lineAt, isCode, s, i, filled, line);
      TurnMoves(text, i, s, filled);
      VisitsNext(text, i, s, filled);
      StartsNext(text, i, s, atStatementStart, filled);
      filled := i + 1;
      atStatementStart := MayStart(text, i, s, atStatementStart);
      var (next, t) := Step(text, i, s);
      i, s := next, t;
    }
    FilledAtEnd(text, i, s, filled);
    VisitsHere(text, i, s, filled);
    FillEnd(text, depthAt, parenAt, lineAt, isCode, s, line, filled);
    NothingAfter(text, i, isComment, topLevelStarts, nestedStarts);
  }

  lemma NothingAfter(text: string, i: nat, isComment: array<bool>, top: seq<nat>, nested: seq<nat>)
    requires i >= |text| && CommentsUpTo(text, i, isComment) && StartsUpTo(text, i, top, nested)
    ensures CommentsUpTo(text, |text|, isComment) && StartsUpTo(text, |text|, top, nested)
  {
    hide CommentAt, Visited, IsWordLike, MayStartAt, StateAt;
  }

  lemma ScanBegins(text: string)
    ensures SameVisits(text, 0, INIT, 0) && SameStarts(text, 0, INIT, true, 0) && StartsUpTo(text, 0, [], [])
  {
    hide Visit, MayStartAt;
  }

  /** From here on, whether a statement may begin is what the whole scan says. */
  ghost predicate SameStarts(text: string, i: nat, s: Lexer, may: bool, filled: nat) {
    forall k: nat :: filled <= k ==> MayStartAt(text, 0, INIT, true, k) == MayStartAt(text, i, s, may, k)
  }

  lemma StartsNext(text: string, i: nat, s: Lexer, may: bool, filled: nat)
    requires i < |text| && filled <= i && SameStarts(text, i, s, may, filled)
    ensures SameStarts(text, Step(text, i, s).0, Step(text, i, s).1, MayStart(text, i, s, may), i + 1)
  {
    hide MayStartAt, Step, MayStart;
    forall k: nat | i + 1 <= k
      ensures MayStartAt(text, 0, INIT, true, k) == MayStartAt(text, Step(text, i, s).0, Step(text, i, s).1, MayStart(text, i, s, may), k)
    {
      StartNext(text, i, s, may, k);
    }
  }

  lemma StartNext(text: string, i: nat, s: Lexer, may: bool, k: nat)
    requires i < k && i < |text|
    ensures MayStartAt(text, i, s, may, k) == MayStartAt(text, Step(text, i, s).0, Step(text, i, s).1, MayStart(text, i, s, may), k)
  {
    hide StepCode, StepText, MayStart;
  }

  /** What the whole scan visits at this position and next, and says of a statement beginning here. */
  lemma TurnVisits(text: string, i: nat, s: Lexer, may: bool, filled: nat)
    requires i < |text| && filled <= i && SameVisits(text, i, s, filled) && SameStarts(text, i, s, may, filled)
    ensures Visit(text, 0, INIT, i) == (i, s) && Visit(text, 0, INIT, i + 1) == Step(text, i, s)
    ensures MayStartAt(text, 0, INIT, true, i) == may
  {
    hide StepCode, StepText, MayStart;
    StepMoves(text, i, s);
    VisitNext(text, i, s, i + 1);
    VisitIsHere(text, Step(text, i, s).0, Step(text, i, s).1, i + 1);
    assert Visit(text, 0, INIT, i) == Visit(text, i, s, i);
    assert Visit(text, 0, INIT, i + 1) == Visit(text, i, s, i + 1);
    assert MayStartAt(text, 0, INIT, true, i) == MayStartAt(text, i, s, may, i);
  }

  /** From here on, the visits are those of the whole scan. */
  ghost predicate SameVisits(text: string, i: nat, s: Lexer, filled: nat) {
    forall k: nat :: filled <= k ==> Visit(text, 0, INIT, k) == Visit(text, i, s, k)
  }

  lemma VisitsHere(text: string, i: nat, s: Lexer, filled: nat)
    requires SameVisits(text, i, s, filled)
    ensures forall k: nat :: filled <= k <= i ==> StateAt(text, k) == s
  {
    hide Step;
  }

  lemma VisitsNext(text: string, i: nat, s: Lexer, filled: nat)
    requires i < |text| && filled <= i && SameVisits(text, i, s, filled)
    ensures SameVisits(text, Step(text, i, s).0, Step(text, i, s).1, i + 1)
  {
    hide Visit, Step;
    forall k: nat | i + 1 <= k ensures Visit(text, 0, INIT, k) == Visit(text, Step(text, i, s).0, Step(text, i, s).1, k)
    {
      VisitNext(text, i, s, k);
    }
  }

  lemma FilledIs(text: string)
    ensures Filled(text) == FilledFrom(text, 0, INIT, 0)
  {
  }

  lemma FilledAtEnd(text: string, i: nat, s: Lexer, filled: nat)
    requires i >= |text|
    ensures FilledFrom(text, i, s, filled) == filled
  {
  }

  lemma VisitNext(text: string, i: nat, s: Lexer, k: nat)
    requires i < k && i < |text|
    ensures Visit(text, i, s, k) == Visit(text, Step(text, i, s).0, Step(text, i, s).1, k)
  {
    hide StepCode, StepText;
  }

  lemma TurnMoves(text: string, i: nat, s: Lexer, filled: nat)
    requires i < |text|
    ensures i < Step(text, i, s).0 <= i + 2
    ensures FilledFrom(text, i, s, filled) == FilledFrom(text, Step(text, i, s).0, Step(text, i, s).1, i + 1)
  {
    hide StepCode, StepText;
  }

  lemma NewlinesStep(text: string, k: nat)
    ensures Newlines(text[..0]) == 0
    ensures k < |text| ==> Newlines(text[..k + 1]) == Newlines(text[..k]) + (if text[k] == '\n' then 1 else 0)
  {
    if k < |text| { assert text[..k + 1][..k] == text[..k]; }
  }

  /** A statement begins only at a character of code that is no comment text and whose offset is filled. */
  lemma StartsAreCode(text: string, k: nat)
    requires StartsStatement(text, k)
    ensures StateAt(text, k).mode.Code? && !CommentAt(text, k) && k < Filled(text)
  {
    hide Visit, StepCode, StepText, MayStartAt;
    UnfilledExactly(text);
    if k == |text| - 1 && |text| >= 2 {
      var s := StateAt(text, k - 1);
      if Visit(text, 0, INIT, k - 1).0 == k - 1 {
        NextVisit(text, 0, INIT, k - 1);
        StepsOverExactly(text, k - 1, s);
      }
    }
  }

  /** After a position that is visited comes the one its turn goes to. */
  lemma {:induction false} NextVisit(text: string, i: nat, s: Lexer, k: nat)
    requires i <= k < |text| && Visit(text, i, s, k).0 == k
    ensures Visit(text, i, s, k + 1) == Step(text, k, Visit(text, i, s, k).1)
    decreases |text| - i
  {
    hide Visit, Step;
    StepMoves(text, i, s);
    var next, t := Step(text, i, s).0, Step(text, i, s).1;
    VisitNext(text, i, s, k + 1);
    if i == k {
      VisitIsHere(text, i, s, k);
      VisitIsHere(text, next, t, k + 1);
    } else {
      VisitNext(text, i, s, k);
      if next > k { VisitIsHere(text, next, t, k); }
      NextVisit(text, next, t, k);
    }
  }

  // ---------------------------------------------------------------- what moves the counters

  /** Text of strings, regular expressions and comments moves no counter; a template moves only the depth, and only at `${`. */
  lemma TextMovesNothing(text: string, i: nat, s: Lexer)
    requires i < |text| && !s.mode.Code?
    ensures var t := Step(text, i, s).1;
      && t.paren == s.paren
      && (!(s.mode.Template? && text[i] == '$' && NextIs(text, i, '{')) ==> t.depth == s.depth && t.templates == s.templates)
      && (s.mode.Template? && text[i] == '$' && NextIs(text, i, '{') ==> t.depth == s.depth + 1 && t.mode.Code?)
  {
  }

  // ---------------------------------------------------------------- the explicit bracket stack

  datatype Bracket = Brace | Substitution

  /** `brackets`: the open `{` and `${` of code, innermost last. `strays`: the `}` that closed nothing. */
  datatype RefLexer = RefLexer(mode: Mode, brackets: seq<Bracket>, strays: nat, paren: int, quote: char, prev: Option<char>, inClass: bool)

  const REF_INIT := RefLexer(Code, [], 0, 0, ' ', None, false)

  /** The same reading of characters, with the counters left out. */
  function Shared(r: RefLexer): Lexer {
    Lexer(r.mode, 0, r.paren, r.quote, r.prev, r.inClass, [])
  }

  predicate OpensBrace(text: string, i: nat, s: Lexer)
    requires i < |text|
  {
    s.mode.Code? && text[i] == '{'
  }

  predicate OpensSubstitution(text: string, i: nat, s: Lexer)
    requires i < |text|
  {
    s.mode.Template? && text[i] == '$' && NextIs(text, i, '{')
  }

  predicate Closes(text: string, i: nat, s: Lexer)
    requires i < |text|
  {
    s.mode.Code? && text[i] == '}'
  }

  /** A `{` or `${` opens a bracket; a `}` closes the innermost one, and re-enters the template when that is a `${`. */
  function RefStep(text: string, i: nat, r: RefLexer): (nat, RefLexer)
    requires i < |text|
  {
    var s := Shared(r);
    var (next, t) := Step(text, i, s);
    var n := |r.brackets|;
    if Closes(text, i, s) then
      (next, RefLexer(
         if n > 0 && r.brackets[n - 1].Substitution? then Template else Code,
         if n > 0 then r.brackets[..n - 1] else [], if n > 0 then r.strays else r.strays + 1, t.paren, t.quote, t.prev, t.inClass))
    else
      (next, RefLexer(
         t.mode,
         if OpensBrace(text, i, s) then r.brackets + [Brace] else if OpensSubstitution(text, i, s) then r.brackets + [Substitution] else r.brackets,
         r.strays, t.paren, t.quote, t.prev, t.inClass))
  }

  /** The depths at which the open substitutions began. */
  function SubstitutionDepths(brackets: seq<Bracket>, strays: nat): seq<int> {
    if brackets == [] then []
    else
      var n := |brackets| - 1;
      SubstitutionDepths(brackets[..n], strays) + (if brackets[n].Substitution? then [n - strays] else [])
  }

  /** The scanner's counters are those of the bracket stack. */
  ghost predicate Matches(s: Lexer, r: RefLexer) {
    && s.mode == r.mode && s.paren == r.paren && s.quote == r.quote && s.prev == r.prev && s.inClass == r.inClass
    && s.depth == |r.brackets| - r.strays
    && s.templates == SubstitutionDepths(r.brackets, r.strays)
  }

  lemma {:induction false} DepthsBelow(brackets: seq<Bracket>, strays: nat)
    ensures var d := SubstitutionDepths(brackets, strays);
      && (forall k :: 0 <= k < |d| ==> d[k] < |brackets| - strays)
      && (forall a, b :: 0 <= a < b < |d| ==> d[a] < d[b])
  {
    if brackets != [] {
      var n := |brackets| - 1;
      DepthsBelow(brackets[..n], strays);
      DepthsAppend(brackets[..n], brackets[n], strays);
      assert brackets[..n] + [brackets[n]] == brackets;
    }
  }

  /** A step that is no bracket leaves the counters, and its other effects do not read them. */
  lemma PlainStep(text: string, i: nat, s: Lexer)
    requires i < |text| && !OpensBrace(text, i, s) && !OpensSubstitution(text, i, s) && !Closes(text, i, s)
    ensures Step(text, i, s.(depth := 0, templates := [])) == (Step(text, i, s).0, Step(text, i, s).1.(depth := 0, templates := []))
    ensures Step(text, i, s).1.depth == s.depth && Step(text, i, s).1.templates == s.templates
  {
  }

  lemma OpenStep(text: string, i: nat, s: Lexer)
    requires i < |text| && (OpensBrace(text, i, s) || OpensSubstitution(text, i, s))
    ensures var (n, t) := Step(text, i, s); var (m, u) := Step(text, i, s.(depth := 0, templates := []));
      && n == m && u.(depth := t.depth, templates := t.templates) == t && t.depth == s.depth + 1
      && t.templates == if OpensSubstitution(text, i, s) then s.templates + [s.depth] else s.templates
  {
  }

  lemma CloseStep(text: string, i: nat, s: Lexer)
    requires i < |text| && Closes(text, i, s)
    ensures Step(text, i, s) == (i + 1, CloseBrace(s))
    ensures Step(text, i, s.(depth := 0, templates := [])).0 == i + 1
    ensures Step(text, i, s.(depth := 0, templates := [])).1 == s.(depth := -1, templates := [], prev := Some('}'))
  {
  }

  lemma DepthsAppend(brackets: seq<Bracket>, b: Bracket, strays: nat)
    ensures SubstitutionDepths(brackets + [b], strays) ==
      SubstitutionDepths(brackets, strays) + (if b.Substitution? then [|brackets| - strays] else [])
  {
    assert (brackets + [b])[..|brackets|] == brackets;
  }

  /** Closing on the numeric stack is closing the innermost bracket. */
  lemma CloseMatches(s: Lexer, r: RefLexer)
    requires Matches(s, r) && s.mode.Code?
    ensures var n := |r.brackets|;
      var u := RefLexer(
        if n > 0 && r.brackets[n - 1].Substitution? then Template else Code,
        if n > 0 then r.brackets[..n - 1] else [], if n > 0 then r.strays else r.strays + 1, s.paren, s.quote, Some('}'), s.inClass);
      Matches(CloseBrace(s), u)
  {
    var n := |r.brackets|;
    DepthsBelow(r.brackets, r.strays);
    if n > 0 {
      DepthsBelow(r.brackets[..n - 1], r.strays);
      DepthsAppend(r.brackets[..n - 1], r.brackets[n - 1], r.strays);
      assert r.brackets[..n - 1] + [r.brackets[n - 1]] == r.brackets;
      if r.brackets[n - 1].Substitution? {
        assert s.templates[..|s.templates| - 1] == SubstitutionDepths(r.brackets[..n - 1], r.strays);
      }
    }
  }

  /** The scanner keeps step with the bracket stack. */
  lemma StepRefines(text: string, i: nat, s: Lexer, r: RefLexer)
    requires i < |text| && Matches(s, r)
    ensures Step(text, i, s).0 == RefStep(text, i, r).0 && Matches(Step(text, i, s).1, RefStep(text, i, r).1)
  {
    hide StepCode, StepText, SubstitutionDepths, CloseBrace;
    assert Shared(r) == s.(depth := 0, templates := []);
    if Closes(text, i, s) {
      CloseStep(text, i, s);
      CloseMatches(s, r);
    } else if OpensBrace(text, i, s) || OpensSubstitution(text, i, s) {
      OpenStep(text, i, s);
      DepthsAppend(r.brackets, Brace, r.strays);
      DepthsAppend(r.brackets, Substitution, r.strays);
    } else {
      PlainStep(text, i, s);
    }
  }

  function RefVisit(text: string, i: nat, r: RefLexer, k: nat): (nat, RefLexer)
    decreases |text| - i
  {
    if i >= k || i >= |text| then (i, r)
    else
      var (next, t) := RefStep(text, i, r);
      RefVisit(text, next, t, k)
  }

  lemma {:induction false} VisitRefines(text: string, i: nat, s: Lexer, r: RefLexer, k: nat)
    requires Matches(s, r)
    ensures Visit(text, i, s, k).0 == RefVisit(text, i, r, k).0 && Matches(Visit(text, i, s, k).1, RefVisit(text, i, r, k).1)
    decreases |text| - i
  {
    hide Step, RefStep, Matches;
    if !(i >= k || i >= |text|) {
      StepRefines(text, i, s, r);
      StepMoves(text, i, s);
      VisitRefines(text, Step(text, i, s).0, Step(text, i, s).1, RefStep(text, i, r).1, k);
    }
  }

  lemma StepMoves(text: string, i: nat, s: Lexer)
    requires i < |text|
    ensures i < Step(text, i, s).0
  {
  }

  /**
   * For every text and every offset: the depth is the number of open brackets less the strays, the template stack holds exactly the
   * depths at which the open substitutions began, and so it is strictly increasing and below the depth.
   */
  lemma ScannerFollowsBrackets(text: string, k: nat)
    ensures var s, r := StateAt(text, k), RefVisit(text, 0, REF_INIT, k).1;
      && s.mode == r.mode && s.paren == r.paren && s.depth == |r.brackets| - r.strays
      && s.templates == SubstitutionDepths(r.brackets, r.strays)
      && (forall a :: 0 <= a < |s.templates| ==> s.templates[a] < s.depth)
      && (forall a, b :: 0 <= a < b < |s.templates| ==> s.templates[a] < s.templates[b])
  {
    hide Visit, RefVisit;
    InitMatches();
    VisitRefines(text, 0, INIT, REF_INIT, k);
    var r := RefVisit(text, 0, REF_INIT, k).1;
    DepthsBelow(r.brackets, r.strays);
  }

  lemma InitMatches()
    ensures Matches(INIT, REF_INIT)
  {
  }

  // ---------------------------------------------------------------- offsets the loop never fills

  /** The turns that step over a character: comment markers, escapes, and the opening of a substitution. */
  predicate StepsOver(text: string, i: nat, s: Lexer)
    requires i < |text|
  {
    match s.mode
    case Code => text[i] == '/' && (NextIs(text, i, '/') || NextIs(text, i, '*'))
    case LineComment => false
    case BlockComment => text[i] == '*' && NextIs(text, i, '/')
    case Quotes => text[i] == '\\'
    case Regex => text[i] == '\\'
    case Template => text[i] == '\\' || (text[i] == '$' && NextIs(text, i, '{'))
  }

  lemma StepsOverExactly(text: string, i: nat, s: Lexer)
    requires i < |text|
    ensures Step(text, i, s).0 == if StepsOver(text, i, s) then i + 2 else i + 1
  {
  }

  /** From position `i` on, the scan visits the last character but one, and steps over the last from there. */
  predicate EndsInStepOver(text: string, i: nat, s: Lexer) {
    |text| >= 2 && i <= |text| - 2 && Visit(text, i, s, |text| - 2).0 == |text| - 2 &&
    StepsOver(text, |text| - 2, Visit(text, i, s, |text| - 2).1)
  }

  lemma {:induction false} UnfilledFrom(text: string, i: nat, s: Lexer, filled: nat)
    requires i < |text|
    ensures FilledFrom(text, i, s, filled) < |text| <==> EndsInStepOver(text, i, s)
    decreases |text| - i
  {
    hide StepsOver, Visit, FilledFrom, Step;
    var next, t := Step(text, i, s).0, Step(text, i, s).1;
    StepsOverExactly(text, i, s);
    TurnMoves(text, i, s, filled);
    if next >= |text| {
      FilledAtEnd(text, next, t, i + 1);
      VisitIsHere(text, i, s, |text| - 2);
    } else {
      UnfilledFrom(text, next, t, i + 1);
      if i < |text| - 2 {
        VisitNext(text, i, s, |text| - 2);
        if next > |text| - 2 { VisitIsHere(text, next, t, |text| - 2); }
      } else {
        VisitIsHere(text, i, s, |text| - 2);
      }
    }
  }

  lemma VisitIsHere(text: string, i: nat, s: Lexer, k: int)
    ensures 0 <= k <= i ==> Visit(text, i, s, k) == (i, s)
  {
  }

  /**
   * The last offset is left unfilled exactly when the scan visits the last character but one and it, with the last, is read there as a
   * comment marker, an escape or a substitution opener. No other offset of the text is ever left unfilled.
   */
  lemma UnfilledExactly(text: string)
    ensures Filled(text) < |text| <==>
      |text| >= 2 && Visit(text, 0, INIT, |text| - 2).0 == |text| - 2 && StepsOver(text, |text| - 2, StateAt(text, |text| - 2))
    ensures Filled(text) >= |text| - 1
  {
    hide StepsOver, Visit, FilledFrom, Step;
    FilledIs(text);
    if |text| > 0 { UnfilledFrom(text, 0, INIT, 0); }
  }

  /** A text that ends in a comment opener: the last offset is inside one brace and is left at depth zero. */
  lemma UnfilledExample()
    ensures Filled("{//") == 2 && StateAt("{//", 2).depth == 1
  {
    var text := "{//";
    var s := INIT.(depth := 1, prev := Some('{'));
    assert Step(text, 0, INIT) == (1, s);
    assert Step(text, 1, s) == (3, s.(mode := LineComment));
    assert FilledFrom(text, 1, s, 1) == FilledFrom(text, 3, s.(mode := LineComment), 2) == 2;
    assert Visit(text, 1, s, 2) == Visit(text, 3, s.(mode := LineComment), 2);
  }
}
