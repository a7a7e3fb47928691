/**
 * How far each kind of text reaches in a scan, and what its counters count (script/helpers/extract.ts:162-309), told from the text by
 * position: which quote closes a string, which slash a regular expression, which marker a comment.
 */
module ScanExtents {
  import opened Text
  import opened Scan

  // ---------------------------------------------------------------- escapes

  /** How many backslashes in a row stand right before `m`, not looking before `from`. */
  function Slashes(text: string, from: nat, m: nat): nat
    requires from <= m <= |text|
  {
    if m > from && text[m - 1] == '\\' then 1 + Slashes(text, from, m - 1) else 0
  }

  /** An even number of backslashes escapes nothing. */
  predicate Unescaped(text: string, from: nat, m: nat)
    requires from <= m <= |text|
  {
    Slashes(text, from, m) % 2 == 0
  }

  lemma EscapeStep(text: string, from: nat, i: nat)
    requires from <= i < |text| && Unescaped(text, from, i)
    ensures text[i] != '\\' ==> Unescaped(text, from, i + 1)
    ensures text[i] == '\\' ==> !Unescaped(text, from, i + 1)
    ensures text[i] == '\\' && i + 2 <= |text| ==> Unescaped(text, from, i + 2)
  {
  }

  // ---------------------------------------------------------------- following a scan from a position it visits

  lemma {:induction false} VisitGoesOn(text: string, i: nat, s: Lexer, k: nat, t: Lexer, j: nat)
    requires i <= k <= j && Visit(text, i, s, k) == (k, t)
    ensures Visit(text, i, s, j) == Visit(text, k, t, j)
    decreases |text| - i
  {
    hide Visit, Step;
    if i == k {
      VisitIsHere(text, i, s, k);
    } else if i < |text| {
      VisitNext(text, i, s, k);
      VisitNext(text, i, s, j);
      StepMoves(text, i, s);
      if Step(text, i, s).0 > k { VisitIsHere(text, Step(text, i, s).0, Step(text, i, s).1, k); }
      VisitGoesOn(text, Step(text, i, s).0, Step(text, i, s).1, k, t, j);
    } else {
      VisitEnds(text, i, s, k);
    }
  }

  lemma VisitEnds(text: string, i: nat, s: Lexer, k: nat)
    requires i >= |text|
    ensures Visit(text, i, s, k) == (i, s)
  {
  }

  lemma ScanGoesOn(text: string, k: nat, j: nat)
    requires Visited(text, k) && k <= j
    ensures Visit(text, 0, INIT, j) == Visit(text, k, StateAt(text, k), j)
  {
    hide Visit;
    VisitGoesOn(text, 0, INIT, k, StateAt(text, k), j);
  }

  /** After a visited position, where its turn goes is visited next, and between the two nothing is. */
  lemma TurnGoes(text: string, k: nat)
    requires Visited(text, k) && k < |text|
    ensures var (next, t) := Step(text, k, StateAt(text, k));
      k < next <= k + 2 && Visited(text, next) && StateAt(text, next) == t && StateAt(text, k + 1) == t && (Visited(text, k + 1) <==> next == k + 1)
  {
    hide Visit, StepCode, StepText;
    var s := StateAt(text, k);
    var next, t := Step(text, k, s).0, Step(text, k, s).1;
    ScanGoesOn(text, k, k + 1);
    ScanGoesOn(text, k, next);
    VisitNext(text, k, s, k + 1);
    VisitNext(text, k, s, next);
    VisitIsHere(text, next, t, k + 1);
    VisitIsHere(text, next, t, next);
  }

  // ---------------------------------------------------------------- strings

  predicate ClosesString(text: string, from: nat, q: char, m: nat)
    requires from <= m <= |text|
  {
    m < |text| && text[m] == q && Unescaped(text, from, m)
  }

  predicate StringIsOpen(text: string, from: nat, q: char, j: nat)
    requires from <= j <= |text|
  {
    forall m :: from <= m < j ==> !ClosesString(text, from, q, m)
  }

  lemma {:induction false} StringRun(text: string, from: nat, i: nat, s: Lexer, j: nat)
    requires from <= i <= j <= |text| && s.mode.Quotes? && Unescaped(text, from, i) && s.quote != '\\'
    requires forall m :: i <= m < j ==> !ClosesString(text, from, s.quote, m)
    ensures Visit(text, i, s, j).1 == s && (Unescaped(text, from, j) ==> Visit(text, i, s, j).0 == j)
    decreases j - i
  {
    hide Slashes, Visit;
    if i == j {
      VisitIsHere(text, i, s, j);
    } else {
      assert !ClosesString(text, from, s.quote, i);
      VisitNext(text, i, s, j);
      EscapeStep(text, from, i);
      if text[i] != '\\' {
        StringRun(text, from, i + 1, s, j);
      } else if i + 2 <= j {
        StringRun(text, from, i + 2, s, j);
      } else {
        VisitIsHere(text, i + 2, s, j);
      }
    }
  }

  /**
   * A string opened in code at `k` is a string up to the first quote of its own kind that is not escaped, whatever else it holds, and
   * the scan is back in code right after that, with nothing counted.
   */
  lemma StringExtent(text: string, k: nat, j: nat)
    requires k < j <= |text| && Visited(text, k) && StateAt(text, k).mode.Code? && (text[k] == '"' || text[k] == '\'')
    requires StringIsOpen(text, k + 1, text[k], j)
    ensures StateAt(text, j) == StateAt(text, k).(mode := Quotes, quote := text[k], prev := Some(text[k]))
    ensures ClosesString(text, k + 1, text[k], j) ==>
      Visited(text, j + 1) && StateAt(text, j + 1) == StateAt(text, k).(quote := text[k], prev := Some(text[k]))
  {
    hide Visit, Slashes;
    var s := StateAt(text, k);
    var t := s.(mode := Quotes, quote := text[k], prev := Some(text[k]));
    assert Step(text, k, s) == (k + 1, t);
    TurnGoes(text, k);
    NothingBefore(text, k + 1);
    StringRun(text, k + 1, k + 1, t, j);
    ScanGoesOn(text, k + 1, j);
    if ClosesString(text, k + 1, text[k], j) { TurnGoes(text, j); }
  }

  lemma NothingBefore(text: string, from: nat)
    requires from <= |text|
    ensures Unescaped(text, from, from)
  {
  }

  // ---------------------------------------------------------------- regular expressions

  /** The last bracket before `m` that is not escaped opened a class. */
  function InClass(text: string, from: nat, m: nat): bool
    requires from <= m <= |text|
  {
    if m == from then false
    else if Unescaped(text, from, m - 1) && text[m - 1] == '[' then true
    else if Unescaped(text, from, m - 1) && text[m - 1] == ']' then false
    else InClass(text, from, m - 1)
  }

  predicate ClosesRegex(text: string, from: nat, m: nat)
    requires from <= m <= |text|
  {
    m < |text| && text[m] == '/' && Unescaped(text, from, m) && !InClass(text, from, m)
  }

  predicate RegexIsOpen(text: string, from: nat, j: nat)
    requires from <= j <= |text|
  {
    forall m :: from <= m < j ==> !ClosesRegex(text, from, m)
  }

  lemma ClassStep(text: string, from: nat, i: nat)
    requires from <= i < |text| && Unescaped(text, from, i)
    ensures InClass(text, from, i + 1) == if text[i] == '[' then true else if text[i] == ']' then false else InClass(text, from, i)
    ensures text[i] == '\\' && i + 2 <= |text| ==> InClass(text, from, i + 2) == InClass(text, from, i)
  {
    hide Slashes;
    EscapeStep(text, from, i);
  }

  lemma {:induction false} RegexRun(text: string, from: nat, i: nat, s: Lexer, j: nat)
    requires from <= i <= j <= |text| && s.mode.Regex? && Unescaped(text, from, i) && s.inClass == InClass(text, from, i)
    requires forall m :: i <= m < j ==> !ClosesRegex(text, from, m)
    ensures Visit(text, i, s, j).1 == s.(inClass := InClass(text, from, j)) && (Unescaped(text, from, j) ==> Visit(text, i, s, j).0 == j)
    decreases j - i
  {
    hide Slashes, Visit, InClass;
    if i == j {
      VisitIsHere(text, i, s, j);
    } else {
      assert !ClosesRegex(text, from, i);
      VisitNext(text, i, s, j);
      EscapeStep(text, from, i);
      ClassStep(text, from, i);
      if text[i] != '\\' {
        RegexRun(text, from, i + 1, Step(text, i, s).1, j);
      } else if i + 2 <= j {
        RegexRun(text, from, i + 2, s, j);
      } else {
        VisitIsHere(text, i + 2, s, j);
      }
    }
  }

  /**
   * A slash in code where a value may begin opens a regular expression, which reaches up to the first slash that is neither escaped nor
   * in a class; the scan is back in code right after that, with nothing counted.
   */
  lemma RegexExtent(text: string, k: nat, j: nat)
    requires k < j <= |text| && Visited(text, k) && StateAt(text, k).mode.Code?
    requires text[k] == '/' && !OpensComment(text, k) && ValueMayBegin(StateAt(text, k).prev)
    requires RegexIsOpen(text, k + 1, j)
    ensures StateAt(text, j) == StateAt(text, k).(mode := Regex, prev := Some('/'), inClass := InClass(text, k + 1, j))
    ensures ClosesRegex(text, k + 1, j) ==>
      Visited(text, j + 1) && StateAt(text, j + 1) == StateAt(text, k).(prev := Some('/'), inClass := false)
  {
    hide Visit, Slashes, ValueMayBegin;
    var s := StateAt(text, k);
    var t := s.(mode := Regex, prev := Some('/'), inClass := false);
    assert Step(text, k, s) == (k + 1, t);
    TurnGoes(text, k);
    NothingBefore(text, k + 1);
    RegexRun(text, k + 1, k + 1, t, j);
    ScanGoesOn(text, k + 1, j);
    if ClosesRegex(text, k + 1, j) { TurnGoes(text, j); }
  }

  // ---------------------------------------------------------------- templates

  predicate EndsTemplate(text: string, from: nat, m: nat)
    requires from <= m <= |text|
  {
    m < |text| && Unescaped(text, from, m) && (text[m] == '`' || (text[m] == '$' && NextIs(text, m, '{')))
  }

  lemma {:induction false} TemplateRun(text: string, from: nat, i: nat, s: Lexer, j: nat)
    requires from <= i <= j <= |text| && s.mode.Template? && Unescaped(text, from, i)
    requires forall m :: i <= m < j ==> !EndsTemplate(text, from, m)
    ensures Visit(text, i, s, j).1 == s && (Unescaped(text, from, j) ==> Visit(text, i, s, j).0 == j)
    decreases j - i
  {
    hide Slashes, Visit;
    if i == j {
      VisitIsHere(text, i, s, j);
    } else {
      assert !EndsTemplate(text, from, i);
      VisitNext(text, i, s, j);
      EscapeStep(text, from, i);
      if text[i] != '\\' {
        TemplateRun(text, from, i + 1, s, j);
      } else if i + 2 <= j {
        TemplateRun(text, from, i + 2, s, j);
      } else {
        VisitIsHere(text, i + 2, s, j);
      }
    }
  }

  /** A backtick in code opens a template. */
  lemma TemplateOpens(text: string, k: nat)
    requires k < |text| && Visited(text, k) && StateAt(text, k).mode.Code? && text[k] == '`'
    ensures Visited(text, k + 1) && StateAt(text, k + 1) == StateAt(text, k).(mode := Template)
  {
    hide Visit;
    TurnGoes(text, k);
  }

  /**
   * Template text, from its backtick or from the brace that closes a substitution, reaches up to the first backtick or `${` that is not
   * escaped; the backtick leads back to code, and the `${` into the code of a substitution one deeper.
   */
  lemma TemplateExtent(text: string, from: nat, j: nat)
    requires from <= j <= |text| && Visited(text, from) && StateAt(text, from).mode.Template?
    requires forall m :: from <= m < j ==> !EndsTemplate(text, from, m)
    ensures StateAt(text, j) == StateAt(text, from)
    ensures EndsTemplate(text, from, j) && text[j] == '`' ==>
      Visited(text, j + 1) && StateAt(text, j + 1) == StateAt(text, from).(mode := Code)
    ensures EndsTemplate(text, from, j) && text[j] == '$' ==>
      var s := StateAt(text, from);
      Visited(text, j + 2) && StateAt(text, j + 2) == s.(mode := Code, depth := s.depth + 1, templates := s.templates + [s.depth])
  {
    hide Visit, Slashes;
    var s := StateAt(text, from);
    NothingBefore(text, from);
    TemplateRun(text, from, from, s, j);
    ScanGoesOn(text, from, j);
    if EndsTemplate(text, from, j) { TurnGoes(text, j); }
  }

  // ---------------------------------------------------------------- comments

  predicate ClosesBlock(text: string, m: nat) {
    m < |text| && text[m] == '*' && NextIs(text, m, '/')
  }

  lemma {:induction false} BlockRun(text: string, i: nat, s: Lexer, j: nat)
    requires i <= j <= |text| && s.mode.BlockComment? && forall m :: i <= m < j ==> !ClosesBlock(text, m)
    ensures Visit(text, i, s, j) == (j, s)
    decreases j - i
  {
    hide Visit;
    if i == j {
      VisitIsHere(text, i, s, j);
    } else {
      assert !ClosesBlock(text, i);
      VisitNext(text, i, s, j);
      BlockRun(text, i + 1, s, j);
    }
  }

  /** A block comment opened in code at `k` reaches up to the first closing marker, after which the scan is as it was before. */
  lemma BlockCommentExtent(text: string, k: nat, j: nat)
    requires k + 2 <= j <= |text| && Visited(text, k) && StateAt(text, k).mode.Code? && text[k] == '/' && text[k + 1] == '*'
    requires forall m :: k + 2 <= m < j ==> !ClosesBlock(text, m)
    ensures StateAt(text, j) == StateAt(text, k).(mode := BlockComment)
    ensures ClosesBlock(text, j) ==> Visited(text, j + 2) && StateAt(text, j + 2) == StateAt(text, k)
    ensures forall m :: k <= m < j ==> CommentAt(text, m)
    ensures ClosesBlock(text, j) ==> CommentAt(text, j) && CommentAt(text, j + 1)
  {
    hide Visit;
    var t := StateAt(text, k).(mode := BlockComment);
    TurnGoes(text, k);
    BlockRun(text, k + 2, t, j);
    ScanGoesOn(text, k + 2, j);
    forall m | k + 2 <= m < j ensures CommentAt(text, m)
    {
      BlockRun(text, k + 2, t, m);
      ScanGoesOn(text, k + 2, m);
    }
    if ClosesBlock(text, j) { TurnGoes(text, j); }
  }

  lemma {:induction false} LineRun(text: string, i: nat, s: Lexer, j: nat)
    requires i <= j <= |text| && s.mode.LineComment? && forall m :: i <= m < j ==> text[m] != '\n'
    ensures Visit(text, i, s, j) == (j, s)
    decreases j - i
  {
    hide Visit;
    if i == j {
      VisitIsHere(text, i, s, j);
    } else {
      VisitNext(text, i, s, j);
      LineRun(text, i + 1, s, j);
    }
  }

  /** A line comment opened in code at `k` reaches up to the end of its line, after which the scan is as it was before. */
  lemma LineCommentExtent(text: string, k: nat, j: nat)
    requires k + 2 <= j <= |text| && Visited(text, k) && StateAt(text, k).mode.Code? && text[k] == '/' && text[k + 1] == '/'
    requires forall m :: k + 2 <= m < j ==> text[m] != '\n'
    ensures StateAt(text, j) == StateAt(text, k).(mode := LineComment)
    ensures j < |text| && text[j] == '\n' ==> Visited(text, j + 1) && StateAt(text, j + 1) == StateAt(text, k) && !CommentAt(text, j)
    ensures forall m :: k <= m < j ==> CommentAt(text, m)
  {
    hide Visit;
    var t := StateAt(text, k).(mode := LineComment);
    TurnGoes(text, k);
    LineRun(text, k + 2, t, j);
    ScanGoesOn(text, k + 2, j);
    forall m | k + 2 <= m < j ensures CommentAt(text, m)
    {
      LineRun(text, k + 2, t, m);
      ScanGoesOn(text, k + 2, m);
    }
    if j < |text| && text[j] == '\n' { TurnGoes(text, j); }
  }

  // ---------------------------------------------------------------- code

  /** Code goes on after any character but a quote, a backtick, a slash that opens something, and a brace that closes a substitution. */
  lemma CodeGoesOn(text: string, k: nat)
    requires k < |text| && Visited(text, k) && StateAt(text, k).mode.Code?
    requires text[k] !in "\"'`" && !OpensComment(text, k) && (text[k] == '/' ==> !ValueMayBegin(StateAt(text, k).prev))
    ensures Visited(text, k + 1)
    ensures text[k] != '}' ==> StateAt(text, k + 1).mode.Code? && StateAt(text, k + 1).templates == StateAt(text, k).templates
  {
    hide Visit, ValueMayBegin;
    TurnGoes(text, k);
  }

  /** A closing brace re-enters a template exactly when the innermost open bracket is a substitution. */
  lemma BraceReenters(text: string, k: nat)
    requires k < |text| && Visited(text, k) && StateAt(text, k).mode.Code? && text[k] == '}'
    ensures var open := RefVisit(text, 0, REF_INIT, k).1.brackets;
      StateAt(text, k + 1).mode == if open != [] && open[|open| - 1] == Substitution then Template else Code
  {
    hide Visit, RefVisit, SubstitutionDepths;
    InitMatches();
    VisitRefines(text, 0, INIT, REF_INIT, k);
    var s, r := StateAt(text, k), RefVisit(text, 0, REF_INIT, k).1;
    TurnGoes(text, k);
    CloseMatches(s, r);
  }

  // ---------------------------------------------------------------- what is counted

  predicate CodeAt(text: string, p: nat, c: char)
    requires p < |text|
  {
    Visited(text, p) && StateAt(text, p).mode.Code? && text[p] == c
  }

  predicate SubstitutionAt(text: string, p: nat)
    requires p < |text|
  {
    Visited(text, p) && StateAt(text, p).mode.Template? && text[p] == '$' && NextIs(text, p, '{')
  }

  /** How often the character was read as code before `k`. */
  function CodeCount(text: string, k: nat, c: char): nat
    requires k <= |text|
  {
    if k == 0 then 0 else CodeCount(text, k - 1, c) + (if CodeAt(text, k - 1, c) then 1 else 0)
  }

  function SubstitutionCount(text: string, k: nat): nat
    requires k <= |text|
  {
    if k == 0 then 0 else SubstitutionCount(text, k - 1) + (if SubstitutionAt(text, k - 1) then 1 else 0)
  }

  /** The state one offset on: that after the turn here, or the same where the scan stepped over. */
  lemma StateNext(text: string, k: nat)
    requires k < |text|
    ensures StateAt(text, k + 1) == if Visited(text, k) then Step(text, k, StateAt(text, k)).1 else StateAt(text, k)
  {
    hide Step;
    if Visited(text, k) { TurnGoes(text, k); } else { SteppedOver(text, 0, INIT, k); }
  }

  lemma {:induction false} SteppedOver(text: string, i: nat, s: Lexer, k: nat)
    requires i <= k && Visit(text, i, s, k).0 != k
    ensures Visit(text, i, s, k + 1) == Visit(text, i, s, k)
    decreases |text| - i
  {
    hide Step, Visit;
    if i >= |text| {
      VisitEnds(text, i, s, k);
      VisitEnds(text, i, s, k + 1);
    } else if i < k {
      var next, t := Step(text, i, s).0, Step(text, i, s).1;
      StepMoves(text, i, s);
      VisitNext(text, i, s, k);
      VisitNext(text, i, s, k + 1);
      if next <= k {
        SteppedOver(text, next, t, k);
      } else {
        VisitIsHere(text, next, t, k);
        VisitIsHere(text, next, t, k + 1);
      }
    } else {
      VisitIsHere(text, i, s, k);
    }
  }

  lemma TurnCounts(text: string, k: nat, s: Lexer)
    requires k < |text|
    ensures var t := Step(text, k, s).1; var code := s.mode.Code?;
      && t.paren == s.paren + (if code && text[k] == '(' then 1 else 0) - (if code && text[k] == ')' then 1 else 0)
      && t.depth == s.depth + (if code && text[k] == '{' then 1 else 0) - (if code && text[k] == '}' then 1 else 0) +
           (if s.mode.Template? && text[k] == '$' && NextIs(text, k, '{') then 1 else 0)
  {
  }

  /**
   * At every offset the parenthesis depth is the parentheses opened in code less those closed in code, and the depth is the braces and
   * substitutions opened less the braces closed in code: nothing in a string, a comment, a regular expression or template text counts.
   */
  lemma {:induction false} CountersAreCounts(text: string, k: nat)
    requires k <= |text|
    ensures StateAt(text, k).paren == CodeCount(text, k, '(') - CodeCount(text, k, ')')
    ensures StateAt(text, k).depth == CodeCount(text, k, '{') + SubstitutionCount(text, k) - CodeCount(text, k, '}')
  {
    hide Step, Visited, StateAt;
    if k == 0 {
      StartsAtZero(text);
    } else {
      CountersAreCounts(text, k - 1);
      StateNext(text, k - 1);
      TurnCounts(text, k - 1, StateAt(text, k - 1));
    }
  }

  lemma StartsAtZero(text: string)
    ensures StateAt(text, 0) == INIT
  {
  }

  /** The last character of code before `k` that is no blank, no backtick and no start of a comment. */
  function LastSignificant(text: string, k: nat): Option<char>
    requires k <= |text|
  {
    if k == 0 then None
    else if Visited(text, k - 1) && StateAt(text, k - 1).mode.Code? && text[k - 1] !in " \t\r\n`" && !OpensComment(text, k - 1)
    then Some(text[k - 1])
    else LastSignificant(text, k - 1)
  }

  lemma TurnRemembers(text: string, k: nat, s: Lexer)
    requires k < |text|
    ensures Step(text, k, s).1.prev ==
      if s.mode.Code? && text[k] !in " \t\r\n`" && !OpensComment(text, k) then Some(text[k]) else s.prev
  {
  }

  /** What decides between a division and a regular expression is the last significant character of code. */
  lemma {:induction false} PrevIsLastSignificant(text: string, k: nat)
    requires k <= |text|
    ensures StateAt(text, k).prev == LastSignificant(text, k)
  {
    hide Step, Visited, StateAt, OpensComment;
    if k == 0 {
      StartsAtZero(text);
    } else {
      PrevIsLastSignificant(text, k - 1);
      StateNext(text, k - 1);
      TurnRemembers(text, k - 1, StateAt(text, k - 1));
    }
  }

  // ---------------------------------------------------------------- where statements begin

  /** No comment text but in a comment: a character that is read otherwise is marked only as the start of one or the end of a block. */
  lemma OnlyCommentsAreMarked(text: string, k: nat)
    requires k < |text| && Visited(text, k) && CommentAt(text, k)
    ensures var s := StateAt(text, k);
      s.mode.LineComment? || s.mode.BlockComment? || (s.mode.Code? && (NextIs(text, k, '/') || NextIs(text, k, '*')) && text[k] == '/')
  {
    hide Visit;
  }

  /** The last character of code before `k` that is no blank and no start of a comment lets a statement begin, or there is none. */
  function StatementIsDue(text: string, k: nat): bool
    requires k <= |text|
  {
    if k == 0 then true
    else if Visited(text, k - 1) && StateAt(text, k - 1).mode.Code? && text[k - 1] !in " \t\r" && !OpensComment(text, k - 1)
    then text[k - 1] in {'{', '}', ';', '\n'}
    else StatementIsDue(text, k - 1)
  }

  lemma {:induction false} MayStartGoesOn(text: string, i: nat, s: Lexer, may: bool, k: nat)
    requires i <= k < |text|
    ensures var (at, t) := Visit(text, i, s, k);
      MayStartAt(text, i, s, may, k + 1) ==
      if at == k then MayStart(text, k, t, MayStartAt(text, i, s, may, k)) else MayStartAt(text, i, s, may, k)
    decreases |text| - i
  {
    hide Step, Visit, MayStartAt, MayStart;
    var next, t := Step(text, i, s).0, Step(text, i, s).1;
    StepMoves(text, i, s);
    StartNext(text, i, s, may, k + 1);
    if i == k {
      VisitIsHere(text, i, s, k);
      StartIsHere(text, i, s, may, k);
      StartIsHere(text, next, t, MayStart(text, i, s, may), k + 1);
    } else {
      VisitNext(text, i, s, k);
      StartNext(text, i, s, may, k);
      if next <= k {
        MayStartGoesOn(text, next, t, MayStart(text, i, s, may), k);
      } else {
        VisitIsHere(text, next, t, k);
        StartIsHere(text, next, t, MayStart(text, i, s, may), k);
        StartIsHere(text, next, t, MayStart(text, i, s, may), k + 1);
      }
    }
  }

  lemma StartIsHere(text: string, i: nat, s: Lexer, may: bool, k: nat)
    requires i >= k
    ensures MayStartAt(text, i, s, may, k) == may
  {
  }

  /** The scan's flag is that, told by position. */
  lemma {:induction false} MayStartIsDue(text: string, k: nat)
    requires k <= |text|
    ensures MayStartAt(text, 0, INIT, true, k) == StatementIsDue(text, k)
  {
    hide Visit, Visited, StateAt, MayStartAt, OpensComment;
    if k == 0 {
      StartIsHere(text, 0, INIT, true, 0);
    } else {
      MayStartIsDue(text, k - 1);
      MayStartGoesOn(text, 0, INIT, true, k - 1);
      VisitedIs(text, k - 1);
    }
  }

  lemma VisitedIs(text: string, k: nat)
    ensures Visited(text, k) <==> Visit(text, 0, INIT, k).0 == k
    ensures StateAt(text, k) == Visit(text, 0, INIT, k).1
  {
  }

  /**
   * A statement begins exactly at a visited character of code that is no bracket, quote, blank or separator and opens neither a comment
   * nor a regular expression, when the last such character before it, separators and braces counted, was one that ends a statement.
   */
  lemma StartsExactly(text: string, k: nat)
    requires k < |text|
    ensures StartsStatement(text, k) <==>
      && Visited(text, k) && StateAt(text, k).mode.Code?
      && text[k] !in {'"', '\'', '`', '(', ')', '{', '}', ';', ' ', '\t', '\r', '\n'}
      && !(text[k] == '/' && (NextIs(text, k, '/') || NextIs(text, k, '*') || ValueMayBegin(LastSignificant(text, k))))
      && StatementIsDue(text, k)
  {
    hide Visit, MayStartAt, StatementIsDue, LastSignificant, ValueMayBegin, Visited, StateAt;
    MayStartIsDue(text, k);
    PrevIsLastSignificant(text, k);
  }
}
