/** The current scanner of Ludus source text (ludus/lexer.py): one pass over the
    characters with a `Position` cursor. Every token must be followed by a character
    of its own delimiter set; a bad follower becomes an error and that character is
    skipped. Identifiers are renamed `id1`, `id2`, ... in order of first appearance. */
module Lexer {
  import opened Results
  import Decimal

  // ---- character classes ---------------------------------------------------------

  predicate IsNum(c: char) { '0' <= c <= '9' }                     // NUM
  predicate IsNonZeroDigit(c: char) { '1' <= c <= '9' }            // DIGITS
  predicate IsNumTo6(c: char) { '0' <= c <= '6' }                  // NUM_TO_6
  predicate IsAlpha(c: char) { 'a' <= c <= 'z' || 'A' <= c <= 'Z' } // string.ascii_letters
  predicate IsAlnum(c: char) { IsAlpha(c) || IsNum(c) }
  predicate IsWordChar(c: char) { IsAlnum(c) || c == '_' }
  predicate IsArithOp(c: char) { c == '+' || c == '-' || c == '*' || c == '/' || c == '%' || c == '^' }
  predicate IsRelatOp(c: char) { c == '<' || c == '>' || c == '=' || c == '!' }
  predicate IsWhitespace(c: char) { c == '#' || c == ' ' || c == '\n' }
  predicate IsValidLhs(c: char) { IsAlnum(c) || c == '_' || c == ')' || c == ']' }

  /** The delimiter sets of the module, by name. `Just(c)` is a one-character set. */
  datatype Delims =
    | IdDelim | NumlitDelim | CommslitDelim | FlagDelim
    | LparenDelim | LbracketDelim | LcurlyDelim | CommaDelim | PeriodDelim
    | RparenDelim | RcurlyDelim | RbracketDelim | NlDelim | SpaceDelim
    | Delim1 | Delim2 | Delim3 | Delim4 | Delim5 | Delim6
    | WhitespaceDelim | Just(c: char)

  predicate InDelims(d: Delims, c: char) {
    match d
    case IdDelim => IsWhitespace(c) || IsArithOp(c) || IsRelatOp(c) || (c == ',' || c == '.' || c == ':' || c == '[' || c == ']' || c == '{' || c == '}' || c == '(' || c == ')')
    case NumlitDelim => IsArithOp(c) || IsRelatOp(c) || IsWhitespace(c) || (c == ',' || c == ')' || c == '{' || c == '}' || c == ':' || c == ']')
    case CommslitDelim => IsWhitespace(c) || (c == ',' || c == ':' || c == '=' || c == '{' || c == ']' || c == ')' || c == '+' || c == '!')
    case FlagDelim => IsWhitespace(c) || IsRelatOp(c) || IsArithOp(c) || (c == ',' || c == ':' || c == ']' || c == ')' || c == '{')
    case LparenDelim => IsAlnum(c) || (c == '_' || c == ' ' || c == '.' || c == '(' || c == ')' || c == '"' || c == '-' || c == '!' || c == '[')
    case LbracketDelim => IsAlnum(c) || (c == '_' || c == ' ' || c == '.' || c == ']' || c == '-' || c == '(' || c == '"')
    case LcurlyDelim => IsAlnum(c) || IsWhitespace(c) || (c == '_' || c == '{' || c == '(' || c == '-' || c == '!')
    case CommaDelim => IsAlnum(c) || IsWhitespace(c) || (c == '_' || c == '.' || c == '[' || c == '"' || c == '-' || c == '(' || c == '!')
    case PeriodDelim => IsAlpha(c) || c == '_'
    case RparenDelim => IsWhitespace(c) || IsArithOp(c) || IsRelatOp(c) || (c == '{' || c == '}' || c == ')' || c == ']' || c == ',' || c == '.')
    case RcurlyDelim => IsWhitespace(c)
    case RbracketDelim => IsWhitespace(c) || IsArithOp(c) || IsRelatOp(c) || (c == ',' || c == '.' || c == '[' || c == ':' || c == ')' || c == '}')
    case NlDelim => IsAlpha(c) || IsWhitespace(c) || (c == '_' || c == '{' || c == '}' || c == '`' || c == '\t')
    case SpaceDelim => IsAlnum(c) || IsWhitespace(c) || IsArithOp(c) || IsRelatOp(c) || (c == '_' || c == ',' || c == '.' || c == '&' || c == '|' || c == '!' || c == ':' || c == '(' || c == ')' || c == '[' || c == ']' || c == '{' || c == '}' || c == '"' || c == '`' || c == '\t')
    case Delim1 => IsWhitespace(c) || c == ',' || c == ':'
    case Delim2 => c == ' ' || c == '{'
    case Delim3 => IsAlnum(c) || (c == '_' || c == ' ' || c == '.' || c == '"' || c == '-' || c == '!' || c == '(')
    case Delim4 => IsAlnum(c) || (c == '_' || c == ' ' || c == '.' || c == '-' || c == '!' || c == '(')
    case Delim5 => IsAlnum(c) || IsWhitespace(c) || (c == '_' || c == '.' || c == '"' || c == '-' || c == '(' || c == '!' || c == '[')
    case Delim6 => IsAlpha(c) || c == '_' || c == '('
    case WhitespaceDelim => IsWhitespace(c)
    case Just(d) => c == d
  }

  // ---- tokens and errors ------------------------------------------------------------

  const HP := "hp_ltr"
  const NHP := "nhp_ltr"
  const XP := "xp_ltr"
  const NXP := "nxp_ltr"
  const COMMS := "comms_ltr"
  const FLAG := "flag_ltr"
  const COMMENT1 := "single-line comment"
  const COMMENT2 := "multi-line comment"
  const EOF := "EOF"
  const NEWLINE := "newline"
  const SPACE := "space"
  const XP_FORMATTING := "xp formatting"

  datatype Token = Token(lexeme: string, token: string, line: int, column: int)

  /** What went wrong; the exact wording of the messages is not kept. */
  datatype ErrorKind =
    | InvalidDelimiter(lexeme: string, cause: char)
    | InvalidCharacter(c: char)
    | UnknownCharacter(c: char)
    | IncompleteCommentDelimiter
    | UnclosedMultiLineComment
    | TooManyDecimalPoints(text: string)
    | MaxWholeDigits(text: string)
    | MaxDecimalDigits(text: string)
    | TrailingDecimalPoint(text: string)
    | MaxIdentifierChars(text: string)
    | UnclosedString(text: string)

  /** An error with the 1-based line and the column its message reports (the
      multi-line comment message names a line only). */
  datatype LexError = LexError(kind: ErrorKind, line: int, column: Option<int>)

  /** A helper's outcome: the token it built, or the error list it returns. */
  datatype Scan = Scanned(tok: Token) | LexFailed(err: LexError)

  // ---- the keyword trie, as the table of the words it spells -------------------

  /** The words the trie spells, with the delimiter set each is checked against
      (in six parts, the order of the trie's branches). */
  const Keywords1: seq<(string, Delims)> := [
    ("AND", Just(' ')), ("OR", Just(' ')), ("access", Just(' ')), ("backup", Just(':')), ("build", Just(' ')), ("checkpoint", WhitespaceDelim), ("choice", Just(' '))]
  const Keywords2: seq<(string, Delims)> := [
    ("comms", Just(' ')), ("dead", Delim1), ("drop", Just('(')), ("elif", Just(' ')), ("else", Delim2), ("false", FlagDelim), ("flag", Just(' '))]
  const Keywords3: seq<(string, Delims)> := [
    ("flank", Just(' ')), ("for", Just(' ')), ("gameOver", WhitespaceDelim), ("generate", Just(' ')), ("grind", Delim2), ("hp", Just(' ')), ("if", Just(' '))]
  const Keywords4: seq<(string, Delims)> := [
    ("immo", Just(' ')), ("join", Just('(')), ("levelDown", Just('(')), ("levelUp", Just('(')), ("loadNum", Just('(')), ("load", Just('(')), ("play", Just('('))]
  const Keywords5: seq<(string, Delims)> := [
    ("recall", Just(' ')), ("resume", WhitespaceDelim), ("rounds", Just('(')), ("seek", Just('(')), ("shootNxt", Just('(')), ("shoot", Just('(')), ("toHp", Just('('))]
  const Keywords6: seq<(string, Delims)> := [
    ("toXp", Just('(')), ("toComms", Just('(')), ("true", FlagDelim), ("while", Just(' ')), ("wipe", Just('(')), ("xp", Just(' '))]
  const Keywords: seq<(string, Delims)> := Keywords1 + Keywords2 + Keywords3 + Keywords4 + Keywords5 + Keywords6

  /** The delimiter set a keyword is checked against, if `w` is a keyword. */
  function KeywordDelims(w: string): (r: Option<Delims>)
    ensures r.Some? <==> exists i :: 0 <= i < |Keywords| && Keywords[i].0 == w
  {
    LookupKeyword(Keywords, w, 0)
  }

  /** The delimiter set of the first entry of `ks` from index `from` on that spells `w`. */
  function LookupKeyword(ks: seq<(string, Delims)>, w: string, from: nat): (r: Option<Delims>)
    requires from <= |ks|
    ensures r.Some? <==> exists i :: from <= i < |ks| && ks[i].0 == w
    decreases |ks| - from
  {
    if from == |ks| then None
    else if ks[from].0 == w then Some(ks[from].1)
    else LookupKeyword(ks, w, from + 1)
  }

  /** A node of the trie: `s` is the start of some keyword. */
  predicate IsKeywordPrefix(s: string) {
    exists i | 0 <= i < |Keywords| :: s <= Keywords[i].0
  }

  predicate AllWordChars(s: string) {
    forall j :: 0 <= j < |s| ==> IsWordChar(s[j])
  }

  /** A keyword spells a word, is not an `idN` name and is none of the fixed token
      types, so a keyword token is never mistaken for another kind of token. */
  predicate GoodKeyword(w: string) {
    && w != []
    && AllWordChars(w)
    && !(|w| >= 2 && w[0] == 'i' && w[1] == 'd')
    && |w| <= 10
    && w != EOF && w != HP && w != NHP && w != XP && w != NXP
    && w != COMMS && w != COMMENT1 && w != COMMENT2
  }

  lemma KeywordTable()
    ensures forall i :: 0 <= i < |Keywords| ==> GoodKeyword(Keywords[i].0)
  {
    PlainKeywords(Keywords1);
    PlainKeywords(Keywords2);
    PlainKeywords(Keywords3);
    PlainKeywords(Keywords4);
    PlainKeywords(Keywords5);
    PlainKeywords(Keywords6);
    forall i | 0 <= i < |Keywords| ensures GoodKeyword(Keywords[i].0) {
      PlainWordIsGood(Keywords[i].0);
    }
  }

  /** Letters and digits only, not an `idN` name, at most ten long and not `EOF`. */
  predicate PlainWord(w: string) {
    && w != [] && |w| <= 10
    && (forall j :: 0 <= j < |w| ==> IsAlnum(w[j]))
    && !(|w| >= 2 && w[0] == 'i' && w[1] == 'd')
    && w != EOF
  }

  lemma PlainKeywords(ks: seq<(string, Delims)>)
    requires ks == Keywords1 || ks == Keywords2 || ks == Keywords3 || ks == Keywords4 || ks == Keywords5 || ks == Keywords6
    ensures forall i :: 0 <= i < |ks| ==> PlainWord(ks[i].0)
  {
  }

  /** Every other fixed token type holds an underscore, a space or a hyphen. */
  lemma PlainWordIsGood(w: string)
    requires PlainWord(w)
    ensures GoodKeyword(w)
  {
    assert HP[2] == '_' && NHP[3] == '_' && XP[2] == '_' && NXP[3] == '_' && COMMS[5] == '_';
    assert COMMENT1[6] == '-' && COMMENT2[5] == '-';
  }

  /** Walking the trie only ever consumes word characters, and at most ten. */
  lemma KeywordPrefixIsWord(s: string)
    requires IsKeywordPrefix(s)
    ensures AllWordChars(s) && |s| <= 10
  {
    KeywordTable();
    var i :| 0 <= i < |Keywords| && s <= Keywords[i].0;
    forall j | 0 <= j < |s| ensures IsWordChar(s[j]) {
      assert s[j] == Keywords[i].0[j];
    }
  }

  lemma KeywordIsGood(w: string)
    requires KeywordDelims(w).Some?
    ensures GoodKeyword(w)
  {
    KeywordTable();
  }

  /** A keyword is spelled with letters and digits only. */
  lemma KeywordIsPlain(w: string)
    requires KeywordDelims(w).Some?
    ensures PlainWord(w)
  {
    PlainKeywords(Keywords1);
    PlainKeywords(Keywords2);
    PlainKeywords(Keywords3);
    PlainKeywords(Keywords4);
    PlainKeywords(Keywords5);
    PlainKeywords(Keywords6);
    var i :| 0 <= i < |Keywords| && Keywords[i].0 == w;
  }

  /** A keyword is a node of the trie. */
  lemma KeywordIsPrefix(w: string)
    requires KeywordDelims(w).Some?
    ensures IsKeywordPrefix(w)
  {
    var i :| 0 <= i < |Keywords| && Keywords[i].0 == w;
    assert w <= Keywords[i].0;
  }

  /** Every prefix of a trie node is a trie node. */
  lemma PrefixOfPrefix(s: string, t: string)
    requires s <= t && IsKeywordPrefix(t)
    ensures IsKeywordPrefix(s)
  {
    var i :| 0 <= i < |Keywords| && t <= Keywords[i].0;
    assert s <= Keywords[i].0;
  }

  // ---- identifiers -------------------------------------------------------------------

  /** `f'id{n}'`. */
  function IdName(n: nat): (s: string)
    ensures IsIdType(s)
  {
    "id" + Decimal.NatToString(n)
  }

  predicate IsIdType(t: string) {
    |t| >= 3 && t[0] == 'i' && t[1] == 'd' && Decimal.AllDigits(t[2..])
  }

  /** The renaming table: `order` lists the names in order of first appearance, the
      k-th of them (from 1) is `idk`, and `next` is the number the next new name gets. */
  ghost predicate IdTable(m: map<string, string>, order: seq<string>, next: int) {
    && next == |order| + 1
    && (forall i, j :: 0 <= i < j < |order| ==> order[i] != order[j])
    && (forall name :: name in m ==> name in order)
    && (forall i :: 0 <= i < |order| ==> order[i] in m && m[order[i]] == IdName(i + 1))
  }

  /** Distinct names get distinct ids. */
  lemma IdsDistinct(m: map<string, string>, order: seq<string>, next: int, a: string, b: string)
    requires IdTable(m, order, next) && a in m && b in m && a != b
    ensures m[a] != m[b]
  {
    var i :| 0 <= i < |order| && order[i] == a;
    var j :| 0 <= j < |order| && order[j] == b;
    assert i != j;
    if m[a] == m[b] {
      IdNameInjective(i + 1, j + 1);
    }
  }

  lemma IdNameInjective(p: nat, q: nat)
    requires IdName(p) == IdName(q)
    ensures p == q
  {
    assert Decimal.NatToString(p) == IdName(p)[2..] == IdName(q)[2..] == Decimal.NatToString(q);
    Decimal.NatToStringInjective(p, q);
  }

  /** A new name gets the next id and goes to the end of the order. */
  lemma IdTableGrows(m: map<string, string>, order: seq<string>, next: int, name: string)
    requires IdTable(m, order, next) && name !in m
    ensures IdTable(m[name := IdName(next)], order + [name], next + 1)
  {
    var m', o' := m[name := IdName(next)], order + [name];
    forall i, j | 0 <= i < j < |o'| ensures o'[i] != o'[j] {
      if j == |order| {
        assert order[i] in m;
      }
    }
    forall i | 0 <= i < |o'| ensures o'[i] in m' && m'[o'[i]] == IdName(i + 1) {
      if i < |order| {
        assert o'[i] == order[i] && order[i] in m && order[i] != name;
      }
    }
  }

  /** Every id handed out is one of `id1 .. id{next-1}`. */
  lemma IdsNumbered(m: map<string, string>, order: seq<string>, next: int, a: string)
    requires IdTable(m, order, next) && a in m
    ensures exists k :: 1 <= k < next && m[a] == IdName(k)
  {
    var i :| 0 <= i < |order| && order[i] == a;
    assert m[a] == IdName(i + 1);
  }

  /** The table only grows: bound names keep their ids. */
  predicate MapExtends(m: map<string, string>, m': map<string, string>) {
    forall name :: name in m ==> name in m' && m'[name] == m[name]
  }

  // ---- what a token in the list looks like ------------------------------------

  predicate IntPart(d: string) {
    1 <= |d| <= 10 && Decimal.AllDigits(d) && (d[0] == '0' ==> |d| == 1)
  }

  /** The fraction digits kept: one to seven, and trailing zeros dropped unless the
      fraction is a single `0`. */
  predicate FracPart(f: string) {
    1 <= |f| <= 7 && Decimal.AllDigits(f) && (f == "0" || f[|f| - 1] != '0')
  }

  predicate XpShape(s: string) {
    var k := Decimal.DotIndex(s);
    k < |s| && IntPart(s[..k]) && FracPart(s[k + 1..])
  }

  /** The lexemes of number tokens, by token type. */
  predicate NumberShape(t: Token) {
    && (t.token == HP ==> IntPart(t.lexeme))
    && (t.token == NHP ==> |t.lexeme| >= 2 && t.lexeme[0] == '-' && IntPart(t.lexeme[1..]) && t.lexeme[1..] != "0")
    && (t.token == XP ==> XpShape(t.lexeme))
    && (t.token == NXP ==> |t.lexeme| >= 2 && t.lexeme[0] == '-' && XpShape(t.lexeme[1..]) && t.lexeme[1..] != "0.0")
  }

  /** A token as it may appear in the list before the EOF token. */
  predicate TokenOk(t: Token, m: map<string, string>) {
    && t.token != EOF && t.token != COMMENT1 && t.token != COMMENT2
    && t.token != "true" && t.token != "false"
    && (IsIdType(t.token) ==> t.lexeme in m && m[t.lexeme] == t.token)
    && NumberShape(t)
  }

  /** An `idN` type is none of the fixed token types. */
  lemma IdTokenOk(w: string, t: string, m: map<string, string>, ln: int, col: int)
    requires IsIdType(t) && w in m && m[w] == t
    ensures Emitted(w, t) == t && TokenOk(Token(w, t, ln, col), m)
  {
    assert t[0] == 'i';
    assert EOF[0] != 'i' && COMMENT1[0] != 'i' && COMMENT2[0] != 'i' && COMMS[0] != 'i';
    assert HP[0] != 'i' && NHP[0] != 'i' && XP[0] != 'i' && NXP[0] != 'i';
    assert "true"[0] != 'i' && "false"[0] != 'i';
  }

  /** A keyword token, as `process_token` stores it, is well formed. */
  lemma KeywordTokenOk(w: string, m: map<string, string>, ln: int, col: int)
    requires KeywordDelims(w).Some?
    ensures TokenOk(Token(w, Emitted(w, w), ln, col), m)
  {
    KeywordIsGood(w);
    if w == "true" || w == "false" {
      assert Emitted(w, w) == FLAG;
      assert FLAG[0] == 'f' && FLAG[1] == 'l';
      assert FLAG != EOF && FLAG != COMMENT1 && FLAG != COMMENT2 && FLAG != "true" && FLAG != "false";
      assert FLAG != HP && FLAG != NHP && FLAG != XP && FLAG != NXP;
    } else {
      assert Emitted(w, w) == w;
      assert !IsIdType(w);
    }
  }

  predicate TokensOk(ts: seq<Token>, m: map<string, string>) {
    forall k :: 0 <= k < |ts| ==> TokenOk(ts[k], m)
  }

  lemma TokensOkExtends(ts: seq<Token>, m: map<string, string>, m': map<string, string>)
    requires TokensOk(ts, m) && MapExtends(m, m')
    ensures TokensOk(ts, m')
  {
    forall k | 0 <= k < |ts| ensures TokenOk(ts[k], m') {
      assert TokenOk(ts[k], m);
    }
  }

  /** The token type `process_token` stores: comms record each newline of the lexeme
      as a `\n` after the type; `true` and `false` become flag literals. */
  function Emitted(lexeme: string, token: string): (t: string)
    ensures token != COMMS && token != "true" && token != "false" ==> t == token
    ensures token == "true" || token == "false" ==> t == FLAG
  {
    if token == COMMS then token + NewlineSuffix(lexeme)
    else if token == "true" || token == "false" then FLAG
    else token
  }

  /** `'\n' * lexeme.count('\n')`. */
  function NewlineSuffix(s: string): (r: string)
    ensures forall k :: 0 <= k < |r| ==> r[k] == '\n'
  {
    if s == [] then "" else (if s[0] == '\n' then "\n" else "") + NewlineSuffix(s[1..])
  }

  lemma SliceSplit(t: string, i: nat, j: nat, k: nat)
    requires i <= j <= k <= |t|
    ensures t[i..k] == t[i..j] + t[j..k]
    ensures k == j + 1 ==> t[j..k] == [t[j]]
  {
  }

  /** Where the walk down the trie stops at `i`, the word from `start` is a keyword
      only if it ends at `i`; if it ends there, it is the text read. */
  lemma TrieStop(text: string, start: nat, i: nat)
    requires start <= i <= |text| && IsKeywordPrefix(text[start..i])
    requires i < |text| ==> !IsKeywordPrefix(text[start..i] + [text[i]])
    ensures i < |text| && IsWordChar(text[i]) ==>
      WordEnd(text, start) > i && KeywordDelims(text[start..WordEnd(text, start)]).None?
    ensures !(i < |text| && IsWordChar(text[i])) ==> WordEnd(text, start) == i
  {
    KeywordPrefixIsWord(text[start..i]);
    SliceWordChars(text, start, i);
    WordEndSkip(text, start, i);
    var e := WordEnd(text, start);
    if i < |text| && IsWordChar(text[i]) {
      var w := text[start..e];
      assert text[start..i] + [text[i]] <= w by {
        SliceSplit(text, start, i, i + 1);
        assert text[start..i + 1] <= w;
      }
      if KeywordDelims(w).Some? {
        KeywordIsPrefix(w);
        PrefixOfPrefix(text[start..i] + [text[i]], w);
        assert false;
      }
    }
  }

  // ---- number literals --------------------------------------------------------

  /** The locals of `make_number` that the loop updates. */
  datatype NumState = NumState(numStr: string, dotCount: nat, intLen: nat, decLen: nat, zeroInt: bool, reserved: string)

  /** The three errors that stop the loop of `make_number`. */
  datatype NumError = TooManyPoints | WholeDigits | DecimalDigits

  /** One character of the loop: the new locals, or an error. The text an error
      reports is `base` followed by the text from the current character up to the
      next number delimiter (the source appends the current character itself before
      that skip in two of the cases, which reads the same, since no digit and no
      `.` is a number delimiter). */
  datatype NumOutcome = Go(next: NumState) | Stop(err: NumError, base: string)

  /** The four `num_str` arguments `make_tokens` passes to `make_number`: `''`,
      `'-'`, `'.'` and a point followed by one digit. */
  datatype NumPrefix = NoPrefix | Minus | Point | PointDigit(d: char)

  function PrefixText(p: NumPrefix): string {
    match p
    case NoPrefix => ""
    case Minus => "-"
    case Point => "."
    case PointDigit(d) => ['.', d]
  }

  /** The state `make_number(num_str)` starts from, and whether it negates. */
  function NumStart(prefix: NumPrefix): (NumState, bool) {
    if prefix.NoPrefix? then (NumState("", 0, 0, 0, false, ""), false)
    else if prefix.Minus? then (NumState("", 0, 0, 0, false, ""), true)
    else (NumState("0" + PrefixText(prefix), 1, 0, 1, false, ""), false)
  }

  /** The body of the loop of `make_number` for the digit or point `c`, `prev`
      being the character before it. */
  function NumStep(s: NumState, c: char, prev: Option<char>): NumOutcome
    requires IsNum(c) || c == '.'
  {
    if c == '.' then
      if s.dotCount == 1 then Stop(TooManyPoints, s.numStr)
      else if prev == Some('-') then Go(s.(dotCount := s.dotCount + 1, numStr := s.numStr + "0."))
      else Go(s.(dotCount := s.dotCount + 1, numStr := s.numStr + "."))
    else if s.dotCount == 0 then
      if s.intLen < 10 then
        if IsNonZeroDigit(c) && !s.zeroInt then
          if s.numStr == "0" then Go(s.(numStr := [c], intLen := 1, zeroInt := true))
          else Go(s.(numStr := s.numStr + [c], intLen := s.intLen + 1, zeroInt := true))
        else if c == '0' && !s.zeroInt then Go(s.(numStr := "0", intLen := 1))
        else Go(s.(numStr := s.numStr + [c], intLen := s.intLen + 1))
      else Stop(WholeDigits, s.numStr)
    else if s.decLen < 7 then
      // Python's `None in NUM` would raise here; `prev` is never `None` in this branch.
      if c == '0' && prev.Some? && IsNum(prev.value) then Go(s.(reserved := s.reserved + "0"))
      else if c == '0' && prev == Some('.') then Go(s.(numStr := s.numStr + "0", decLen := 1))
      else if IsNonZeroDigit(c) && prev == Some('0') then
        var n := s.decLen + 1 + |s.reserved|;
        if n > 7 then Stop(DecimalDigits, s.numStr + s.reserved)
        else Go(s.(numStr := s.numStr + s.reserved + [c], decLen := n, reserved := ""))
      else Go(s.(numStr := s.numStr + [c], decLen := s.decLen + 1))
    else Stop(DecimalDigits, s.numStr)
  }

  /** The fraction digits kept so far: trailing zeros are held back in
      `reserved` rather than written (a single `0` excepted). */
  predicate FracSoFar(f: string) {
    Decimal.AllDigits(f) && (f == [] || f == "0" || f[|f| - 1] != '0')
  }

  /** What `num_str` looks like between two characters: a canonical whole part,
      then, after the point, the fraction digits kept. */
  predicate NumStrOk(s: NumState) {
    && s.dotCount <= 1
    && (s.dotCount == 0 ==>
         && (s.numStr == [] || IntPart(s.numStr)) && s.intLen == |s.numStr|
         && (s.zeroInt <==> s.numStr != [] && s.numStr[0] != '0')
         && s.decLen == 0 && s.reserved == [])
    && (s.dotCount == 1 ==>
         var k := Decimal.DotIndex(s.numStr);
         && k < |s.numStr| && IntPart(s.numStr[..k])
         && FracSoFar(s.numStr[k + 1..]) && |s.numStr[k + 1..]| <= s.decLen <= 7
         && (forall i :: 0 <= i < |s.reserved| ==> s.reserved[i] == '0'))
  }

  /** How the character before the next one relates to the state: after the
      point it is a digit or the point itself, and the point exactly when no
      fraction digit has been kept. */
  predicate PrevOk(s: NumState, prev: Option<char>) {
    && (s.dotCount == 0 && s.numStr != [] ==> prev.Some? && IsNum(prev.value))
    && (s.dotCount == 1 ==>
         && prev.Some? && (IsNum(prev.value) || prev.value == '.')
         && (prev == Some('.') <==> Decimal.DotIndex(s.numStr) + 1 == |s.numStr|))
  }

  lemma {:induction false} DotIndexAppend(s: string, t: string)
    requires Decimal.DotIndex(s) < |s|
    ensures Decimal.DotIndex(s + t) == Decimal.DotIndex(s)
  {
    if s[0] != '.' {
      assert (s + t)[1..] == s[1..] + t;
      DotIndexAppend(s[1..], t);
    }
  }

  lemma {:induction false} DotIndexAfterDigits(d: string, rest: string)
    requires Decimal.AllDigits(d)
    ensures Decimal.DotIndex(d + "." + rest) == |d|
  {
    if d != [] {
      assert Decimal.IsDigit(d[0]);
      assert (d + "." + rest)[1..] == d[1..] + "." + rest;
      DotIndexAfterDigits(d[1..], rest);
    }
  }

  /** In the fraction, appending `x` to `num_str` appends it to the fraction. */
  lemma FracAppend(s: string, x: string)
    requires Decimal.DotIndex(s) < |s|
    ensures var k := Decimal.DotIndex(s);
      Decimal.DotIndex(s + x) == k && (s + x)[..k] == s[..k] && (s + x)[k + 1..] == s[k + 1..] + x
  {
    DotIndexAppend(s, x);
  }

  /** Every step of the loop keeps the state well formed. */
  lemma NumStepOk(s: NumState, c: char, prev: Option<char>)
    requires NumStrOk(s) && PrevOk(s, prev) && (IsNum(c) || c == '.')
    requires s.numStr == [] && c == '.' ==> prev == Some('-')
    ensures NumStep(s, c, prev).Go? ==>
      var n := NumStep(s, c, prev).next; NumStrOk(n) && PrevOk(n, Some(c)) && n.numStr != []
  {
    if NumStep(s, c, prev).Go? {
      if c == '.' {
        PointStepOk(s, prev);
      } else if s.dotCount == 0 {
        WholeStepOk(s, c, prev);
      } else {
        FracStepOk(s, c, prev);
      }
    }
  }

  lemma PointStepOk(s: NumState, prev: Option<char>)
    requires NumStrOk(s) && PrevOk(s, prev) && s.dotCount == 0
    requires s.numStr == [] ==> prev == Some('-')
    ensures var n := NumStep(s, '.', prev).next; NumStrOk(n) && PrevOk(n, Some('.')) && n.numStr != []
  {
    var n := NumStep(s, '.', prev).next;
    var d := if prev == Some('-') then s.numStr + "0" else s.numStr;
    assert n.numStr == d + "." + "";
    assert Decimal.AllDigits(d);
    DotIndexAfterDigits(d, "");
    assert n.numStr[..|d|] == d;
  }

  lemma WholeStepOk(s: NumState, c: char, prev: Option<char>)
    requires NumStrOk(s) && PrevOk(s, prev) && IsNum(c) && s.dotCount == 0
    requires NumStep(s, c, prev).Go?
    ensures var n := NumStep(s, c, prev).next; NumStrOk(n) && PrevOk(n, Some(c)) && n.numStr != []
  {
    var n := NumStep(s, c, prev).next;
    if s.numStr != [] && s.numStr != "0" && n.numStr == s.numStr + [c] {
      assert n.numStr[0] == s.numStr[0];
    }
  }

  lemma FracStepOk(s: NumState, c: char, prev: Option<char>)
    requires NumStrOk(s) && PrevOk(s, prev) && IsNum(c) && s.dotCount == 1
    requires NumStep(s, c, prev).Go?
    ensures var n := NumStep(s, c, prev).next; NumStrOk(n) && PrevOk(n, Some(c)) && n.numStr != []
  {
    var n := NumStep(s, c, prev).next;
    assert s.decLen < 7;
    if c == '0' && prev.Some? && IsNum(prev.value) {
      assert n == s.(reserved := s.reserved + "0");
      FracHoldZero(s, prev);
    } else if c == '0' && prev == Some('.') {
      assert n == s.(numStr := s.numStr + "0", decLen := 1);
      FracFirstZero(s);
    } else if IsNonZeroDigit(c) && prev == Some('0') {
      assert n == s.(numStr := s.numStr + s.reserved + [c], decLen := s.decLen + 1 + |s.reserved|, reserved := "");
      FracFlush(s, c);
    } else {
      assert n == s.(numStr := s.numStr + [c], decLen := s.decLen + 1);
      FracDigit(s, c, prev);
    }
  }

  /** A zero after a fraction digit is held back. */
  lemma FracHoldZero(s: NumState, prev: Option<char>)
    requires NumStrOk(s) && PrevOk(s, prev) && s.dotCount == 1 && prev.Some? && IsNum(prev.value)
    ensures var n := s.(reserved := s.reserved + "0"); NumStrOk(n) && PrevOk(n, Some('0')) && n.numStr != []
  {
    NumStrStartsWithDigit(s);
  }

  /** A zero right after the point is written. */
  lemma FracFirstZero(s: NumState)
    requires NumStrOk(s) && PrevOk(s, Some('.')) && s.dotCount == 1
    ensures var n := s.(numStr := s.numStr + "0", decLen := 1); NumStrOk(n) && PrevOk(n, Some('0')) && n.numStr != []
  {
    FracGrows(s, "0", 1, s.reserved);
  }

  /** A non-zero digit after zeros writes the zeros held back and the digit. */
  lemma FracFlush(s: NumState, c: char)
    requires NumStrOk(s) && PrevOk(s, Some('0')) && s.dotCount == 1 && IsNonZeroDigit(c)
    requires s.decLen + 1 + |s.reserved| <= 7
    ensures var n := s.(numStr := s.numStr + s.reserved + [c], decLen := s.decLen + 1 + |s.reserved|, reserved := "");
      NumStrOk(n) && PrevOk(n, Some(c)) && n.numStr != []
  {
    var x := s.reserved + [c];
    assert s.numStr + s.reserved + [c] == s.numStr + x;
    FracGrows(s, x, s.decLen + 1 + |s.reserved|, "");
  }

  /** Any other digit is written. */
  lemma FracDigit(s: NumState, c: char, prev: Option<char>)
    requires NumStrOk(s) && PrevOk(s, prev) && s.dotCount == 1 && IsNum(c) && s.decLen < 7
    requires !(c == '0' && prev.Some? && IsNum(prev.value)) && !(c == '0' && prev == Some('.'))
    ensures var n := s.(numStr := s.numStr + [c], decLen := s.decLen + 1); NumStrOk(n) && PrevOk(n, Some(c)) && n.numStr != []
  {
    FracGrows(s, [c], s.decLen + 1, s.reserved);
  }

  /** Appending kept fraction digits `x`. */
  lemma FracGrows(s: NumState, x: string, decLen: nat, reserved: string)
    requires NumStrOk(s) && s.dotCount == 1 && x != [] && Decimal.AllDigits(x)
    requires var k := Decimal.DotIndex(s.numStr);
      (x[|x| - 1] != '0' || (k + 1 == |s.numStr| && x == "0")) && |s.numStr| - k - 1 + |x| <= decLen <= 7
    requires forall i :: 0 <= i < |reserved| ==> reserved[i] == '0'
    ensures var n := s.(numStr := s.numStr + x, decLen := decLen, reserved := reserved);
      NumStrOk(n) && Decimal.DotIndex(n.numStr) + 1 < |n.numStr| && n.numStr != []
  {
    var k := Decimal.DotIndex(s.numStr);
    FracAppend(s.numStr, x);
    var f := (s.numStr + x)[k + 1..];
    assert f == s.numStr[k + 1..] + x;
    assert f[|f| - 1] == x[|x| - 1];
  }

  /** The loop of `make_number` on the text from index `i`: the state when a
      character other than a digit or a point comes (or the text ends), or the
      error, with the index where the loop stopped. */
  function NumRun(text: string, i: nat, s: NumState, prev: Option<char>): (r: (NumOutcome, nat))
    requires i <= |text|
    ensures i <= r.1 <= |text|
    decreases |text| - i
  {
    if i < |text| && (IsNum(text[i]) || text[i] == '.') then
      match NumStep(s, text[i], prev)
      case Stop(e, b) => (Stop(e, b), i)
      case Go(n) => NumRun(text, i + 1, n, Some(text[i]))
    else (Go(s), i)
  }

  /** The loop keeps the state well formed; it stops at a digit or a point only
      on an error, and on an error `num_str` holds a digit. */
  lemma {:induction false} NumRunOk(text: string, i: nat, s: NumState, prev: Option<char>)
    requires i <= |text| && NumStrOk(s) && PrevOk(s, prev)
    requires s.numStr == [] ==> i < |text| && (IsNum(text[i]) || (text[i] == '.' && prev == Some('-')))
    ensures var (out, e) := NumRun(text, i, s, prev);
      && i <= e <= |text|
      && (out.Go? ==> NumStrOk(out.next) && out.next.numStr != [] && out.next.dotCount >= s.dotCount)
      && (out.Go? ==> e == |text| || !(IsNum(text[e]) || text[e] == '.'))
      && (out.Stop? ==> e < |text| && out.base != [] && Decimal.IsDigit(out.base[0]))
    decreases |text| - i
  {
    if i < |text| && (IsNum(text[i]) || text[i] == '.') {
      NumStepOk(s, text[i], prev);
      NumStrStartsWithDigit(s);
      match NumStep(s, text[i], prev)
      case Stop(e, b) =>
        assert b[0] == s.numStr[0];
      case Go(n) =>
        NumRunOk(text, i + 1, n, Some(text[i]));
    }
  }

  /** The end of `make_number`: a trailing point is an error; a negated number
      gets its sign, and `-0` and `-0.0` become the whole number `0`. */
  function FinishNumber(s: NumState, negate: bool, tokLn: int, tokCol: int, ln: int, col: int): Scan
  {
    if s.dotCount > 0 && s.numStr != [] && s.numStr[|s.numStr| - 1] == '.' then
      var t := if negate then "-" + s.numStr else s.numStr;
      LexFailed(LexError(TrailingDecimalPoint(t), ln + 1, Some(col - |t| + 1)))
    else if !negate then Scanned(Token(s.numStr, if s.dotCount > 0 then XP else HP, tokLn, tokCol))
    else
      var t := "-" + s.numStr;
      if t == "-0" || t == "-0.0" then Scanned(Token("0", HP, tokLn, tokCol))
      else Scanned(Token(t, if s.dotCount > 0 then NXP else NHP, tokLn, tokCol))
  }

  /** Only the first character can leave `num_str` empty, and it starts with a digit. */
  lemma NumStrStartsWithDigit(s: NumState)
    requires NumStrOk(s)
    ensures s.numStr != [] ==> Decimal.IsDigit(s.numStr[0])
    ensures s.dotCount == 1 || s.intLen == 10 ==> s.numStr != []
  {
    if s.dotCount == 1 {
      var k := Decimal.DotIndex(s.numStr);
      assert s.numStr[0] == s.numStr[..k][0];
    }
  }

  /** The starting states are well formed. */
  lemma NumStartOk(prefix: NumPrefix, prev: Option<char>)
    requires prefix.PointDigit? ==> IsNum(prefix.d) && prev == Some(prefix.d)
    requires prefix.Point? ==> prev == Some('.')
    ensures NumStrOk(NumStart(prefix).0) && PrevOk(NumStart(prefix).0, prev)
  {
    if prefix.Point? || prefix.PointDigit? {
      var rest := PrefixText(prefix)[1..];
      var n := "0" + PrefixText(prefix);
      assert n == "0" + "." + rest;
      DotIndexAfterDigits("0", rest);
      assert n[..1] == "0";
      assert n[2..] == rest;
    }
  }

  predicate IsNumberType(t: string) { t == HP || t == NHP || t == XP || t == NXP }

  /** The four number types are different strings. */
  lemma NumberTypesDistinct()
    ensures HP != NHP && HP != XP && HP != NXP && NHP != XP && NHP != NXP && XP != NXP
  {
    assert HP[0] == 'h' && NHP[0] == 'n' && XP[0] == 'x' && NXP[0] == 'n';
    assert NHP[1] == 'h' && NXP[1] == 'x';
  }

  predicate IsNumberError(k: ErrorKind) {
    k.TooManyDecimalPoints? || k.MaxWholeDigits? || k.MaxDecimalDigits? || k.TrailingDecimalPoint?
  }

  function NumErrorKind(e: NumError, t: string): (k: ErrorKind)
    ensures IsNumberError(k) && k.text == t && !k.TrailingDecimalPoint?
  {
    match e
    case TooManyPoints => TooManyDecimalPoints(t)
    case WholeDigits => MaxWholeDigits(t)
    case DecimalDigits => MaxDecimalDigits(t)
  }

  /** A number token, as `process_token` stores it, is well formed. */
  lemma NumberTokenOk(t: Token, m: map<string, string>, ln: int, col: int)
    requires IsNumberType(t.token) && NumberShape(t)
    ensures TokenOk(Token(t.lexeme, Emitted(t.lexeme, t.token), ln, col), m)
  {
    assert HP[0] != 'i' && NHP[0] != 'i' && XP[0] != 'i' && NXP[0] != 'i';
    assert HP != COMMS && NHP != COMMS && XP != COMMS && NXP != COMMS;
  }

  /** The part of `ScanNumberOk` a number branch of `make_tokens` relies on. */
  lemma NumberScanUse(text: string, i: nat, prefix: NumPrefix, prev: Option<char>, ln: int, col: int, r: Scan, e: nat)
    requires i <= |text|
    requires prefix.NoPrefix? ==> i < |text| && IsNum(text[i])
    requires prefix.Minus? ==> prev == Some('-') && i < |text| && (IsNum(text[i]) || text[i] == '.')
    requires prefix.Point? ==> prev == Some('.')
    requires prefix.PointDigit? ==> IsNumTo6(prefix.d) && prev == Some(prefix.d)
    requires (r, e) == ScanNumber(text, i, prefix, prev, ln, col)
    ensures prefix.NoPrefix? || prefix.Minus? ==> e > i
    ensures r.Scanned? ==> IsNumberType(r.tok.token) && NumberShape(r.tok)
  {
    ScanNumberOk(text, i, prefix, prev, ln, col);
  }

  /** The error `make_number` reports when its loop stops at index `e`: the
      cursor skips to the next number delimiter and the text is the sign, what
      `num_str` held and what was skipped. */
  function NumberFailure(text: string, e: nat, negate: bool, err: NumError, base: string): (r: (Scan, nat))
    requires e <= |text|
    ensures e <= r.1 == SkipEnd(text, e, NumlitDelim) <= |text|
    ensures r.0.LexFailed? && IsNumberError(r.0.err.kind) && !r.0.err.kind.TrailingDecimalPoint?
    ensures base != [] ==> r.0.err.kind.text != [] && r.0.err.kind.text[0] == (if negate then '-' else base[0])
    ensures r.0.err.line == LineAt(text, r.1) + 1 && r.0.err.column == Some(ColumnAt(text, r.1) - |r.0.err.kind.text| + 1)
  {
    var j := SkipEnd(text, e, NumlitDelim);
    var t := (if negate then "-" else "") + base + text[e..j];
    assert base != [] ==> t[0] == (if negate then '-' else base[0]);
    (LexFailed(LexError(NumErrorKind(err, t), LineAt(text, j) + 1, Some(ColumnAt(text, j) - |t| + 1))), j)
  }

  /** `make_number` on the text from index `i`, the character before it being
      `prev` and the cursor at the 0-based line `ln` and column `col`: the token or
      error, and the index the cursor ends at. */
  function ScanNumber(text: string, i: nat, prefix: NumPrefix, prev: Option<char>, ln: int, col: int): (r: (Scan, nat))
    requires i <= |text|
    ensures i <= r.1 <= |text|
  {
    var st, negate := NumStart(prefix).0, NumStart(prefix).1;
    var out, e := NumRun(text, i, st, prev).0, NumRun(text, i, st, prev).1;
    if out.Stop? then NumberFailure(text, e, negate, out.err, out.base)
    else (FinishNumber(out.next, negate, ln + 1, col + 1, LineAt(text, e), ColumnAt(text, e)), e)
  }

  /** What `make_tokens` may expect from `make_number` when it calls it the way
      it does: a well formed number token of a type the prefix allows, or a
      number error whose text starts with the sign exactly when there is one and
      whose column is that of the first character of the text; the cursor moves
      past the first character unless a point was read before the call, and an
      error other than the trailing point leaves it at a number delimiter. */
  predicate NumberScanFits(text: string, i: nat, prefix: NumPrefix, ln: int, col: int, r: Scan, e: nat)
    requires e <= |text|
  {
    && (prefix.NoPrefix? || prefix.Minus? ==> e > i)
    && (r.Scanned? ==>
         && IsNumberType(r.tok.token) && NumberShape(r.tok)
         && r.tok.line == ln + 1 && r.tok.column == col + 1
         && (prefix.Minus? ==> r.tok.token != XP && (r.tok.token == HP ==> r.tok.lexeme == "0"))
         && (!prefix.Minus? ==> r.tok.token == HP || r.tok.token == XP)
         && (prefix.Point? || prefix.PointDigit? ==> r.tok.token == XP))
    && (r.LexFailed? ==>
         && IsNumberError(r.err.kind) && r.err.kind.text != []
         && (prefix.Minus? <==> r.err.kind.text[0] == '-')
         && r.err.line == LineAt(text, e) + 1 && r.err.column == Some(ColumnAt(text, e) - |r.err.kind.text| + 1)
         && (!r.err.kind.TrailingDecimalPoint? ==> e == |text| || InDelims(NumlitDelim, text[e])))
  }

  /** `make_number`, called as `make_tokens` calls it, gives what it may expect. */
  lemma ScanNumberOk(text: string, i: nat, prefix: NumPrefix, prev: Option<char>, ln: int, col: int)
    requires i <= |text|
    requires prefix.NoPrefix? ==> i < |text| && IsNum(text[i])
    requires prefix.Minus? ==> prev == Some('-') && i < |text| && (IsNum(text[i]) || text[i] == '.')
    requires prefix.Point? ==> prev == Some('.')
    requires prefix.PointDigit? ==> IsNumTo6(prefix.d) && prev == Some(prefix.d)
    ensures NumberScanFits(text, i, prefix, ln, col, ScanNumber(text, i, prefix, prev, ln, col).0, ScanNumber(text, i, prefix, prev, ln, col).1)
  {
    var st, negate := NumStart(prefix).0, NumStart(prefix).1;
    NumStartOk(prefix, prev);
    NumRunOk(text, i, st, prev);
    var out, e := NumRun(text, i, st, prev).0, NumRun(text, i, st, prev).1;
    assert negate <==> prefix.Minus?;
    if out.Stop? {
      NumberFailureFits(text, i, e, prefix, out.err, out.base, ln, col);
    } else {
      assert prefix.Point? || prefix.PointDigit? ==> out.next.dotCount > 0;
      NumberFinishFits(text, i, e, prefix, out.next, ln, col);
    }
  }

  lemma NumberFinishFits(text: string, i: nat, e: nat, prefix: NumPrefix, s: NumState, ln: int, col: int)
    requires i <= e <= |text| && NumStrOk(s) && s.numStr != []
    requires prefix.NoPrefix? || prefix.Minus? ==> e > i
    requires prefix.Point? || prefix.PointDigit? ==> s.dotCount > 0
    ensures NumberScanFits(text, i, prefix, ln, col,
      FinishNumber(s, NumStart(prefix).1, ln + 1, col + 1, LineAt(text, e), ColumnAt(text, e)), e)
  {
    NumStrStartsWithDigit(s);
    if !(s.dotCount > 0 && s.numStr[|s.numStr| - 1] == '.') {
      UnsignedShape(s);
    }
    FinishShape(s, NumStart(prefix).1, ln + 1, col + 1, LineAt(text, e), ColumnAt(text, e));
  }

  lemma NumberFailureFits(text: string, i: nat, e: nat, prefix: NumPrefix, err: NumError, base: string, ln: int, col: int)
    requires i <= e < |text| && base != [] && Decimal.IsDigit(base[0])
    requires prefix.NoPrefix? || prefix.Minus? ==> e > i
    ensures var f := NumberFailure(text, e, NumStart(prefix).1, err, base);
      NumberScanFits(text, i, prefix, ln, col, f.0, f.1)
  {
    SkipEndStops(text, e, NumlitDelim);
  }

  /** A number token built from a well formed state has the shape of its type. */
  lemma FinishShape(s: NumState, negate: bool, tokLn: int, tokCol: int, ln: int, col: int)
    requires s.numStr != [] && Decimal.IsDigit(s.numStr[0])
    requires !(s.dotCount > 0 && s.numStr[|s.numStr| - 1] == '.') ==>
      (s.dotCount > 0 ==> XpShape(s.numStr)) && (s.dotCount == 0 ==> IntPart(s.numStr))
    ensures FinishFits(s, negate, tokLn, tokCol, ln, col, FinishNumber(s, negate, tokLn, tokCol, ln, col))
  {
    NumberTypesDistinct();
    if s.dotCount > 0 && s.numStr[|s.numStr| - 1] == '.' {
    } else if !negate {
      UnsignedToken(s.numStr, s.dotCount > 0, tokLn, tokCol);
    } else {
      var t := "-" + s.numStr;
      if t == "-0" || t == "-0.0" {
        assert FinishNumber(s, negate, tokLn, tokCol, ln, col) == Scanned(Token("0", HP, tokLn, tokCol));
        assert IntPart("0");
      } else {
        assert "-" + "0" == "-0" && "-" + "0.0" == "-0.0";
        NegatedToken(s.numStr, s.dotCount > 0, tokLn, tokCol);
      }
    }
  }

  lemma UnsignedToken(n: string, dot: bool, tokLn: int, tokCol: int)
    requires (dot ==> XpShape(n)) && (!dot ==> IntPart(n))
    ensures NumberShape(Token(n, if dot then XP else HP, tokLn, tokCol))
  {
    NumberTypesDistinct();
  }

  lemma NegatedToken(n: string, dot: bool, tokLn: int, tokCol: int)
    requires (dot ==> XpShape(n)) && (!dot ==> IntPart(n)) && n != "0" && n != "0.0"
    ensures NumberShape(Token("-" + n, if dot then NXP else NHP, tokLn, tokCol))
  {
    NumberTypesDistinct();
    assert ("-" + n)[1..] == n;
  }

  /** A number token of the shape of its type at the token position, or the
      trailing-point error whose text starts with the sign exactly when there is
      one, at the cursor position. */
  predicate FinishFits(s: NumState, negate: bool, tokLn: int, tokCol: int, ln: int, col: int, r: Scan) {
    && (r.Scanned? ==>
         && IsNumberType(r.tok.token) && NumberShape(r.tok)
         && r.tok.line == tokLn && r.tok.column == tokCol
         && (negate ==> r.tok.token != XP && (r.tok.token == HP ==> r.tok.lexeme == "0"))
         && (!negate ==> r.tok.token == HP || r.tok.token == XP)
         && (!negate && s.dotCount > 0 ==> r.tok.token == XP))
    && (r.LexFailed? ==>
         && r.err.kind.TrailingDecimalPoint? && r.err.kind.text != []
         && (negate <==> r.err.kind.text[0] == '-')
         && r.err.line == ln + 1 && r.err.column == Some(col - |r.err.kind.text| + 1))
  }

  /** The unsigned number a finished state holds has the shape of its type. */
  lemma UnsignedShape(s: NumState)
    requires NumStrOk(s) && s.numStr != [] && !(s.dotCount > 0 && s.numStr[|s.numStr| - 1] == '.')
    ensures s.dotCount > 0 ==> XpShape(s.numStr)
    ensures s.dotCount == 0 ==> IntPart(s.numStr)
  {
    if s.dotCount > 0 {
      FinishedFraction(s);
    }
  }

  /** A state after the point whose `num_str` does not end in the point has the
      shape of an xp literal. */
  lemma FinishedFraction(s: NumState)
    requires NumStrOk(s) && s.dotCount == 1 && s.numStr[|s.numStr| - 1] != '.'
    ensures XpShape(s.numStr)
  {
    var k := Decimal.DotIndex(s.numStr);
    assert s.numStr[k + 1..] != [];
  }

  // ---- comms literals -----------------------------------------------------------

  /** What `make_string` adds for the character after a backslash: the escapes
      `\n` and `\t`, the escaped `{`, `}`, `"` and backslash themselves, and for
      any other character the backslash and the character. */
  function EscapeValue(c: char): (r: string)
    ensures |r| == 1 || r == ['\\', c]
  {
    if c == 'n' then "\n"
    else if c == 't' then "\t"
    else if c == '{' || c == '}' || c == '"' || c == '\\' then [c]
    else ['\\', c]
  }

  /** How the loop of `make_string` ended: at the closing quote, or at a newline or
      the end of the text with the string still open. */
  datatype StrOutcome = Closed(body: string) | Unclosed(body: string)

  /** The loop of `make_string` from index `i`, `body` being the string read so far
      and `esc` telling whether the character before was an unescaped backslash:
      the outcome and the index the cursor ends at (past the closing quote, or at
      the newline or end that left the string open). */
  function StringRun(text: string, i: nat, body: string, esc: bool): (r: (StrOutcome, nat))
    requires i <= |text|
    ensures i <= r.1 <= |text|
    decreases |text| - i
  {
    if i == |text| then (Unclosed(body), i)
    else if esc then StringRun(text, i + 1, body + EscapeValue(text[i]), false)
    else if text[i] == '\\' then StringRun(text, i + 1, body, true)
    else if text[i] == '"' then (Closed(body), i + 1)
    else if text[i] == '\n' then (Unclosed(body), i)
    else StringRun(text, i + 1, body + [text[i]], false)
  }

  /** `make_string` with the opening quote at index `i` and the cursor at the 0-based
      line `ln` and column `col`: the comms token or the unclosed string error, and
      the index the cursor ends at. */
  function ScanString(text: string, i: nat, ln: int, col: int): (r: (Scan, nat))
    requires i < |text|
    ensures i < r.1 <= |text|
  {
    var run := StringRun(text, i + 1, "", false);
    match run.0
    case Closed(body) => (Scanned(Token("\"" + body + "\"", COMMS, ln + 1, col + 1)), run.1)
    case Unclosed(body) =>
      (LexFailed(LexError(UnclosedString(body), LineAt(text, run.1) + 1, Some(ColumnAt(text, run.1) - |body|))), run.1)
  }

  /** The loop ends just past a quote when the string is closed, and at a newline
      or the end of the text otherwise; everything read before is kept. */
  lemma {:induction false} StringRunEnds(text: string, i: nat, body: string, esc: bool)
    requires i <= |text|
    ensures var r := StringRun(text, i, body, esc);
      && body <= r.0.body
      && (r.0.Closed? ==> i < r.1 && text[r.1 - 1] == '"')
      && (r.0.Unclosed? ==> r.1 == |text| || text[r.1] == '\n')
    decreases |text| - i
  {
    if i < |text| {
      if esc {
        StringRunEnds(text, i + 1, body + EscapeValue(text[i]), false);
      } else if text[i] == '\\' {
        StringRunEnds(text, i + 1, body, true);
      } else if text[i] != '"' && text[i] != '\n' {
        StringRunEnds(text, i + 1, body + [text[i]], false);
      }
    }
  }

  /** What `make_tokens` may expect from `make_string`: a well formed comms token
      whose lexeme is quoted and whose position is that of the opening quote, or
      the unclosed string error at the newline or end that stopped it, whose
      column is that of the first character of the string. */
  lemma ScanStringOk(text: string, i: nat, ln: int, col: int, m: map<string, string>)
    requires i < |text|
    ensures var r := ScanString(text, i, ln, col).0; var e := ScanString(text, i, ln, col).1;
      && (r.Scanned? ==>
           && r.tok.token == COMMS && |r.tok.lexeme| >= 2 && r.tok.lexeme[0] == '"' && r.tok.lexeme[|r.tok.lexeme| - 1] == '"'
           && r.tok.line == ln + 1 && r.tok.column == col + 1 && text[e - 1] == '"'
           && TokenOk(Token(r.tok.lexeme, Emitted(r.tok.lexeme, r.tok.token), r.tok.line, r.tok.column), m))
      && (r.LexFailed? ==>
           && r.err.kind.UnclosedString? && (e == |text| || text[e] == '\n')
           && r.err.line == LineAt(text, e) + 1 && r.err.column == Some(ColumnAt(text, e) - |r.err.kind.text|))
  {
    StringRunEnds(text, i + 1, "", false);
    if ScanString(text, i, ln, col).0.Scanned? {
      CommsTokenOk(ScanString(text, i, ln, col).0, m);
    }
  }

  lemma CommsTokenOk(r: Scan, m: map<string, string>)
    requires r.Scanned? && r.tok.token == COMMS
    ensures TokenOk(Token(r.tok.lexeme, Emitted(r.tok.lexeme, r.tok.token), r.tok.line, r.tok.column), m)
  {
    var t := Emitted(r.tok.lexeme, COMMS);
    assert t[0] == 'c' && t[1] == 'o';
    assert EOF[0] != 'c' && COMMENT1[0] != 'c' && COMMENT2[0] != 'c' && "true"[0] != 'c' && "false"[0] != 'c';
    assert HP[0] != 'c' && NHP[0] != 'c' && XP[0] != 'c' && NXP[0] != 'c';
  }

  /** How a program writes the comms `s` between quotes: newlines and tabs as
      `\n` and `\t`, quotes and backslashes behind a backslash. */
  function Escape(s: string): (r: string)
    ensures forall k :: 0 <= k < |r| ==> r[k] != '\n'
  {
    if s == [] then "" else EscapeChar(s[0]) + Escape(s[1..])
  }

  /** The escaped form of one character. */
  function EscapeChar(c: char): (r: string)
    ensures 1 <= |r| <= 2 && '\n' !in r
  {
    if c == '\n' then "\\n" else if c == '\t' then "\\t"
    else if c == '"' || c == '\\' then ['\\', c] else [c]
  }

  /** The quoted literal of `s`. */
  function Quote(s: string): string {
    "\"" + Escape(s) + "\""
  }

  /** The text holds the escaped form of `s` from index `i`, then a quote. */
  ghost predicate EscapedAt(text: string, i: nat, s: string)
    decreases s
  {
    if s == [] then i < |text| && text[i] == '"'
    else
      && i + |EscapeChar(s[0])| <= |text| && text[i] == EscapeChar(s[0])[0]
      && (|EscapeChar(s[0])| == 2 ==> text[i + 1] == EscapeChar(s[0])[1])
      && EscapedAt(text, i + |EscapeChar(s[0])|, s[1..])
  }

  /** The escaped text of `s` sits in `pre + Escape(s) + "\"" + rest` just after `pre`. */
  lemma {:induction false} EscapedIn(pre: string, s: string, rest: string)
    ensures EscapedAt(pre + Escape(s) + "\"" + rest, |pre|, s)
    decreases s
  {
    var text := pre + Escape(s) + "\"" + rest;
    if s == [] {
      assert text[|pre|] == '"';
    } else {
      var h := EscapeChar(s[0]);
      assert text == (pre + h) + Escape(s[1..]) + "\"" + rest;
      EscapedIn(pre + h, s[1..], rest);
      assert text[|pre|] == h[0];
      if |h| == 2 {
        assert text[|pre| + 1] == h[1];
      }
    }
  }

  /** `make_string` reads the escaped text of `s` back as `s`, and stops just past
      the closing quote. */
  lemma {:induction false} EscapeRead(text: string, i: nat, s: string, body: string)
    requires EscapedAt(text, i, s)
    ensures i + |Escape(s)| < |text|
    ensures StringRun(text, i, body, false) == (Closed(body + s), i + |Escape(s)| + 1)
    decreases s
  {
    if s == [] {
      assert body + s == body;
    } else {
      var h := EscapeChar(s[0]);
      EscapeCharRead(text, i, s[0], body);
      EscapeRead(text, i + |h|, s[1..], body + [s[0]]);
      assert body + [s[0]] + s[1..] == body + s;
    }
  }

  /** `make_string` reads the escaped form of one character back as that character. */
  lemma EscapeCharRead(text: string, i: nat, c: char, body: string)
    requires i + |EscapeChar(c)| <= |text| && text[i] == EscapeChar(c)[0]
    requires |EscapeChar(c)| == 2 ==> text[i + 1] == EscapeChar(c)[1]
    ensures StringRun(text, i, body, false) == StringRun(text, i + |EscapeChar(c)|, body + [c], false)
  {
    var h := EscapeChar(c);
    if |h| == 2 {
      assert h[0] == '\\';
      assert EscapeValue(h[1]) == [c];
      assert StringRun(text, i, body, false) == StringRun(text, i + 1, body, true);
      assert StringRun(text, i + 1, body, true) == StringRun(text, i + 2, body + [c], false);
    } else {
      assert h == [c] && c != '\\' && c != '"' && c != '\n';
      assert StringRun(text, i, body, false) == StringRun(text, i + 1, body + [c], false);
    }
  }

  /** A comms literal written with `Quote`, whatever follows it, is read as one
      comms token holding `s`, and the cursor ends just past it. */
  lemma QuoteRoundTrip(s: string, rest: string, ln: int, col: int)
    ensures var text := Quote(s) + rest;
      ScanString(text, 0, ln, col) == (Scanned(Token("\"" + s + "\"", COMMS, ln + 1, col + 1)), |Quote(s)|)
  {
    var text := Quote(s) + rest;
    assert text == "\"" + Escape(s) + "\"" + rest;
    EscapedIn("\"", s, rest);
    EscapeRead(text, 1, s, "");
    assert "" + s == s;
  }

  // ---- where the cursor is in the text -----------------------------------------

  function CharAt(text: string, i: int): Option<char> {
    if 0 <= i < |text| then Some(text[i]) else None
  }

  /** The number of newlines before index `i`: the 0-based line of index `i`. */
  function LineAt(text: string, i: nat): nat
    requires i <= |text|
  {
    if i == 0 then 0 else LineAt(text, i - 1) + (if text[i - 1] == '\n' then 1 else 0)
  }

  /** The characters between the last newline before index `i` and `i`: the 0-based
      column of index `i`. */
  function ColumnAt(text: string, i: nat): nat
    requires i <= |text|
  {
    if i == 0 then 0 else if text[i - 1] == '\n' then 0 else ColumnAt(text, i - 1) + 1
  }

  /** The first index at or after `i` that does not hold a word character. */
  function WordEnd(text: string, i: nat): (e: nat)
    requires i <= |text|
    ensures i <= e <= |text|
    ensures forall j :: i <= j < e ==> IsWordChar(text[j])
    ensures e < |text| ==> !IsWordChar(text[e])
    decreases |text| - i
  {
    if i < |text| && IsWordChar(text[i]) then WordEnd(text, i + 1) else i
  }

  /** One more word character read: the slice grows by it and the word ends where it did. */
  lemma WordStep(text: string, start: nat, i: nat)
    requires start <= i < |text| && IsWordChar(text[i])
    ensures text[start..i + 1] == text[start..i] + [text[i]]
    ensures WordEnd(text, i) == WordEnd(text, i + 1)
  {
  }

  lemma WordEndIs(text: string, i: nat, e: nat)
    requires i <= e <= |text|
    requires forall j :: i <= j < e ==> IsWordChar(text[j])
    requires e < |text| ==> !IsWordChar(text[e])
    ensures WordEnd(text, i) == e
    decreases e - i
  {
    if i < e {
      WordEndIs(text, i + 1, e);
    }
  }

  /** The first index at or after `i` whose character is in `d`, or the end. */
  function SkipEnd(text: string, i: nat, d: Delims): (e: nat)
    requires i <= |text|
    ensures i <= e <= |text|
    decreases |text| - i
  {
    if i < |text| && !InDelims(d, text[i]) then SkipEnd(text, i + 1, d) else i
  }

  /** The first index at or after `i` that does not hold `c`. */
  function RunEnd(text: string, i: nat, c: char): (e: nat)
    requires i <= |text|
    ensures i <= e <= |text|
    ensures forall j :: i <= j < e ==> text[j] == c
    ensures e < |text| ==> text[e] != c
    decreases |text| - i
  {
    if i < |text| && text[i] == c then RunEnd(text, i + 1, c) else i
  }

  /** A run of word characters does not change where the word ends. */
  lemma {:induction false} WordEndSkip(text: string, i: nat, j: nat)
    requires i <= j <= |text|
    requires forall k :: i <= k < j ==> IsWordChar(text[k])
    ensures WordEnd(text, i) == WordEnd(text, j)
    decreases j - i
  {
    if i < j {
      WordEndSkip(text, i + 1, j);
    }
  }

  lemma SliceWordChars(text: string, i: nat, j: nat)
    requires i <= j <= |text| && AllWordChars(text[i..j])
    ensures forall k :: i <= k < j ==> IsWordChar(text[k])
  {
    forall k | i <= k < j ensures IsWordChar(text[k]) {
      assert text[k] == text[i..j][k - i];
    }
  }

  lemma NumberCharNotDelim(c: char)
    requires IsNum(c) || c == '.'
    ensures !InDelims(NumlitDelim, c)
  {
  }

  /** The skip stops at a character of `d` or at the end. */
  lemma {:induction false} SkipEndStops(text: string, i: nat, d: Delims)
    requires i <= |text|
    ensures var e := SkipEnd(text, i, d); e == |text| || InDelims(d, text[e])
    ensures i < |text| && !InDelims(d, text[i]) ==> SkipEnd(text, i, d) > i
    decreases |text| - i
  {
    if i < |text| && !InDelims(d, text[i]) {
      SkipEndStops(text, i + 1, d);
    }
  }

  /** Skipping to an identifier delimiter never stops inside a word. */
  lemma {:induction false} SkipPastWord(text: string, i: nat)
    requires i <= |text|
    ensures SkipEnd(text, i, IdDelim) >= WordEnd(text, i)
    decreases |text| - i
  {
    if i < |text| && IsWordChar(text[i]) {
      assert !InDelims(IdDelim, text[i]);
      SkipPastWord(text, i + 1);
    }
  }

  // ---- the delimiter check ------------------------------------------------------

  /** The character `process_token` checks: a newline stands for the end of the text. */
  function Cause(c: Option<char>): char {
    if c.None? || c == Some('\n') then '\n' else c.value
  }

  /** The token is appended and the cursor stays where it is. */
  predicate Stays(token: string, valid: Delims, c: Option<char>) {
    InDelims(valid, Cause(c)) && token != COMMENT1 && token != COMMENT2
  }

  /** The two lists after `process_token` of `tok` with `c` under the cursor at the
      0-based line `ln` and column `col`: an invalid delimiter error, nothing for a
      comment, and otherwise the token with the type `Emitted` gives it. */
  function AfterProcess(ts: seq<Token>, es: seq<LexError>, tok: Token, valid: Delims, c: Option<char>, ln: int, col: int): (r: (seq<Token>, seq<LexError>))
    ensures ts <= r.0 && es <= r.1 && |r.0| + |r.1| <= |ts| + |es| + 1
    ensures |r.0| == |ts| + 1 <==> Stays(tok.token, valid, c)
    ensures !InDelims(valid, Cause(c)) <==> |r.1| == |es| + 1
  {
    if !InDelims(valid, Cause(c)) then (ts, es + [LexError(InvalidDelimiter(tok.lexeme, Cause(c)), ln + 1, Some(col + 1))])
    else if tok.token == COMMENT1 || tok.token == COMMENT2 then (ts, es)
    else (ts + [Token(tok.lexeme, Emitted(tok.lexeme, tok.token), tok.line, tok.column)], es)
  }

  /** A character that makes a `-` the sign of a number. */
  predicate StartsNumber(c: Option<char>) {
    c.Some? && (IsNum(c.value) || c.value == '.')
  }

  /** `tokens` grew by at most one token, placed at line `ln` and column `col`. */
  predicate AppendedAt(ts0: seq<Token>, ts: seq<Token>, ln: int, col: int) {
    ts0 <= ts && |ts| <= |ts0| + 1 && (|ts| == |ts0| + 1 ==> ts[|ts0|].line == ln && ts[|ts0|].column == col)
  }

  /** Tokens of a fixed type: operators and punctuation (whose type is the lexeme),
      newlines, spaces and the xp format. */
  lemma PlainTokenOk(lexeme: string, t: string, m: map<string, string>, ln: int, col: int)
    requires (1 <= |t| <= 2) || t == NEWLINE || t == SPACE || t == XP_FORMATTING
    ensures Emitted(lexeme, t) == t && TokenOk(Token(lexeme, t, ln, col), m)
  {
    if t == NEWLINE {
      assert t[1] == 'e' && NHP[1] == 'h' && NXP[1] == 'x';
    } else if t == SPACE {
      assert |t| == 5 && |COMMENT1| != 5;
    } else if t == XP_FORMATTING {
      assert |t| == 13 && |XP| != 13 && |COMMENT1| != 13 && |COMMENT2| != 13;
    }
  }

  /** The delimiters of the one-character tokens `^ : ( ) [ ] { } ,`. */
  function SingleDelims(c: char): Delims {
    match c
    case '^' => Delim4
    case ':' => Delim5
    case '(' => LparenDelim
    case ')' => RparenDelim
    case '[' => LbracketDelim
    case ']' => RbracketDelim
    case '{' => LcurlyDelim
    case '}' => RcurlyDelim
    case _ => CommaDelim
  }

  /** A `-` after `lhs` is the binary minus: after a character that ends an operand,
      or after a space run that followed one. */
  predicate IsBinaryMinus(lhs: Option<char>, lhsSpace: LhsSpace) {
    (lhs.Some? && IsValidLhs(lhs.value)) || (lhs == Some(' ') && LhsSpaceValid(lhsSpace))
  }

  /** The backticks at index `i`, at most `cap` of them. */
  function Ticks(text: string, i: nat, cap: nat): (k: nat)
    requires i <= |text|
    ensures k <= cap && i + k <= |text|
    ensures forall j :: i <= j < i + k ==> text[j] == '`'
    ensures k < cap && i + k < |text| ==> text[i + k] != '`'
    decreases cap
  {
    if cap > 0 && i < |text| && text[i] == '`' then 1 + Ticks(text, i + 1, cap - 1) else 0
  }

  /** The loop of a multi-line comment from index `i`: the index past the closing
      three backticks, or `None` when the text ends first. */
  function CommentRun(text: string, i: nat): Option<nat>
    requires i <= |text|
    decreases |text| - i
  {
    if i == |text| then None
    else if text[i] == '`' then
      var k := Ticks(text, i, 3);
      if k == 3 then Some(i + 3) else CommentRun(text, i + k)
    else CommentRun(text, i + 1)
  }

  predicate TripleTick(text: string, j: nat)
    requires j + 3 <= |text|
  {
    text[j] == '`' && text[j + 1] == '`' && text[j + 2] == '`'
  }

  /** A multi-line comment ends at the first three backticks in a row. */
  lemma {:induction false} CommentRunFirst(text: string, i: nat)
    requires i <= |text|
    ensures CommentRun(text, i).Some? ==>
      var e := CommentRun(text, i).value;
      && i + 3 <= e <= |text| && TripleTick(text, e - 3)
      && forall j :: i <= j < e - 3 ==> !TripleTick(text, j)
    ensures CommentRun(text, i).None? ==> forall j :: i <= j && j + 3 <= |text| ==> !TripleTick(text, j)
    decreases |text| - i
  {
    if i < |text| {
      if text[i] == '`' {
        var k := Ticks(text, i, 3);
        if k < 3 {
          CommentRunFirst(text, i + k);
          assert forall j :: i <= j < i + k && j + 3 <= |text| ==> !TripleTick(text, j);
        }
      } else {
        CommentRunFirst(text, i + 1);
      }
    }
  }

  /** `Position`: the index into the text and the 0-based line and column. */
  class Position {
    var idx: int
    var ln: int
    var col: int

    constructor (idx: int, ln: int, col: int)
      ensures this.idx == idx && this.ln == ln && this.col == col
    {
      this.idx := idx;
      this.ln := ln;
      this.col := col;
    }

    /** Step past `current`: one column on, or the start of the next line after a
        newline. */
    method Advance(current: Option<char>)
      modifies this
      ensures idx == old(idx) + 1
      ensures current == Some('\n') ==> ln == old(ln) + 1 && col == 0
      ensures current != Some('\n') ==> ln == old(ln) && col == old(col) + 1
    {
      idx := idx + 1;
      col := col + 1;
      if current == Some('\n') {
        ln := ln + 1;
        col := 0;
      }
    }

    /** Step back; like the source it tests the character it is leaving, not the
        one it returns to, when deciding whether a line was crossed. */
    method Retreat(current: Option<char>)
      modifies this
      ensures idx == old(idx) - 1
      ensures current == Some('\n') ==> ln == old(ln) - 1 && col == 0
      ensures current != Some('\n') ==> ln == old(ln) && col == old(col) - 1
    {
      idx := idx - 1;
      col := col - 1;
      if current == Some('\n') {
        ln := ln - 1;
        col := 0;
      }
    }
  }

  /** Python's `lhs_space`: the empty string before the first run of spaces (which
      `in` finds in every string), afterwards the character before that run. */
  datatype LhsSpace = Unset | Saw(prev: Option<char>)

  predicate LhsSpaceValid(s: LhsSpace) {
    s.Unset? || (s.prev.Some? && IsValidLhs(s.prev.value))
  }

  /** `Lexer`. The `tokens` and `errors` fields are the two lists `make_tokens`
      creates and hands to every helper, which append to them. */
  class Lexer {
    const text: string
    const pos: Position
    var currentChar: Option<char>
    var prevChar: Option<char>
    var identifierMap: map<string, string>
    var currentId: int
    ghost var order: seq<string>
    var tokens: seq<Token>
    var errors: seq<LexError>

    /** The cursor reads the text: the current and previous characters are the ones
        at and before `pos.idx`, and inside the text `pos` holds the real line and
        column. */
    ghost predicate CursorOk()
      reads this`currentChar, this`prevChar, pos
    {
      && 0 <= pos.idx
      && currentChar == CharAt(text, pos.idx)
      && prevChar == CharAt(text, pos.idx - 1)
      && pos.ln >= 0 && pos.col >= 0
      && (pos.idx <= |text| ==> pos.ln == LineAt(text, pos.idx) && pos.col == ColumnAt(text, pos.idx))
    }

    /** The renaming table is consistent and every listed token is well formed. */
    ghost predicate ListsOk()
      reads this`identifierMap, this`order, this`currentId, this`tokens
    {
      IdTable(identifierMap, order, currentId) && TokensOk(tokens, identifierMap)
    }

    ghost predicate Valid()
      reads this, pos
    {
      CursorOk() && ListsOk()
    }

    /** `Lexer(fn, text)`: the position starts before the text and one `advance`
        moves it to the first character. */
    constructor (text: string)
      ensures Valid() && this.text == text
      ensures pos.idx == 0 && pos.ln == 0 && pos.col == 0
      ensures fresh(pos)
      ensures currentChar == CharAt(text, 0) && prevChar == None
      ensures identifierMap == map[] && currentId == 1 && tokens == [] && errors == []
    {
      this.text := text;
      pos := new Position(-1, 0, -1);
      identifierMap := map[];
      currentId := 1;
      order := [];
      currentChar := None;
      prevChar := None;
      tokens := [];
      errors := [];
      new;
      Advance();
    }

    /** `advance`: the previous character becomes the current one, and the cursor
        moves one position. */
    method Advance()
      requires pos.idx < 0 || CursorOk()
      requires pos.idx < 0 ==> pos.idx == -1 && pos.ln == 0 && pos.col == -1 && currentChar == None
      modifies this`currentChar, this`prevChar, pos
      ensures CursorOk()
      ensures pos.idx == old(pos.idx) + 1
      ensures old(currentChar) == Some('\n') ==> pos.ln == old(pos.ln) + 1 && pos.col == 0
      ensures old(currentChar) != Some('\n') ==> pos.ln == old(pos.ln) && pos.col == old(pos.col) + 1
      ensures prevChar == old(currentChar) && currentChar == CharAt(text, pos.idx)
    {
      prevChar := currentChar;
      pos.Advance(currentChar);
      currentChar := if pos.idx < |text| then Some(text[pos.idx]) else None;
    }

    /** `retreat`: the cursor moves back one position (the previous character is
        left as it was). */
    method Retreat()
      requires CursorOk() && pos.idx >= 1
      modifies this`currentChar, pos
      ensures pos.idx == old(pos.idx) - 1
      ensures old(currentChar) == Some('\n') ==> pos.ln == old(pos.ln) - 1 && pos.col == 0
      ensures old(currentChar) != Some('\n') ==> pos.ln == old(pos.ln) && pos.col == old(pos.col) - 1
      ensures currentChar == CharAt(text, pos.idx)
    {
      pos.Retreat(currentChar);
      currentChar := if pos.idx < |text| then Some(text[pos.idx]) else None;
    }

    /** `identifiers`: the id already given to `idStr`, or the next one. */
    method Identifiers(idStr: string) returns (id: string)
      requires IdTable(identifierMap, order, currentId)
      modifies this`identifierMap, this`currentId, this`order
      ensures IdTable(identifierMap, order, currentId)
      ensures MapExtends(old(identifierMap), identifierMap)
      ensures idStr in identifierMap && identifierMap[idStr] == id
      ensures idStr in old(identifierMap) ==> id == old(identifierMap)[idStr] && identifierMap == old(identifierMap) && currentId == old(currentId)
      ensures idStr !in old(identifierMap) ==>
        && id == IdName(old(currentId)) && identifierMap == old(identifierMap)[idStr := id]
        && order == old(order) + [idStr] && currentId == old(currentId) + 1
    {
      if idStr !in identifierMap {
        IdTableGrows(identifierMap, order, currentId, idStr);
        identifierMap := identifierMap[idStr := IdName(currentId)];
        order := order + [idStr];
        currentId := currentId + 1;
      }
      return identifierMap[idStr];
    }

    /** `process_token`: the outcome is `AfterProcess` of the character under the
        cursor; the cursor stays on it when the token is kept and moves past it
        otherwise. */
    method ProcessToken(curLn: int, curCol: int, lexeme: string, token: string, valid: Delims)
      requires Valid()
      requires token != COMMENT1 && token != COMMENT2 ==> TokenOk(Token(lexeme, Emitted(lexeme, token), curLn, curCol), identifierMap)
      modifies this`currentChar, this`prevChar, pos, this`tokens, this`errors
      ensures Valid()
      ensures (tokens, errors) == AfterProcess(old(tokens), old(errors), Token(lexeme, token, curLn, curCol), valid, old(currentChar), old(pos.ln), old(pos.col))
      ensures Stays(token, valid, old(currentChar)) ==> pos.idx == old(pos.idx) && currentChar == old(currentChar)
      ensures !Stays(token, valid, old(currentChar)) ==> pos.idx == old(pos.idx) + 1
      ensures AppendedAt(old(tokens), tokens, curLn, curCol)
    {
      // The source's two error branches (a newline or the end, then any other
      // character) are one test of `Cause`.
      var cause := Cause(currentChar);
      if !InDelims(valid, cause) {
        errors := errors + [LexError(InvalidDelimiter(lexeme, cause), pos.ln + 1, Some(pos.col + 1))];
        Advance();
      } else if token == COMMENT2 || token == COMMENT1 {
        Advance();
      } else {
        tokens := tokens + [Token(lexeme, Emitted(lexeme, token), curLn, curCol)];
      }
    }

    /** `AfterProcess` for the lexeme ending at index `e` of the text. */
    ghost function Processed(ts: seq<Token>, es: seq<LexError>, tok: Token, valid: Delims, e: nat): (seq<Token>, seq<LexError>)
      requires e <= |text|
    {
      AfterProcess(ts, es, tok, valid, CharAt(text, e), LineAt(text, e), ColumnAt(text, e))
    }

    // ---- identifiers and keywords -------------------------------------------------

    /** Appends characters up to the next one in `d` (or the end of the text). */
    method SkipToDelim(s: string, d: Delims) returns (r: string)
      requires CursorOk() && pos.idx <= |text|
      modifies this`currentChar, this`prevChar, pos
      ensures CursorOk() && pos.idx == SkipEnd(text, old(pos.idx), d)
      ensures r == s + text[old(pos.idx)..pos.idx]
    {
      r := s;
      ghost var start := pos.idx;
      while currentChar.Some? && !InDelims(d, currentChar.value)
        invariant CursorOk() && start <= pos.idx <= |text|
        invariant SkipEnd(text, start, d) == SkipEnd(text, pos.idx, d)
        invariant r == s + text[start..pos.idx]
        decreases |text| - pos.idx
      {
        SliceSplit(text, start, pos.idx, pos.idx + 1);
        r := r + [currentChar.value];
        Advance();
      }
    }

    /** The loop of `make_identifier`: the rest of the word, or, past thirty
        characters, the text up to the next identifier delimiter. */
    method ReadIdentifier(idStr0: string) returns (idStr: string, tooLong: bool)
      requires CursorOk() && |idStr0| <= pos.idx <= |text|
      requires text[pos.idx - |idStr0|..pos.idx] == idStr0 && |idStr0| <= 30
      requires AllWordChars(idStr0)
      modifies this`currentChar, this`prevChar, pos
      ensures CursorOk() && old(pos.idx) <= pos.idx <= |text|
      ensures idStr == text[old(pos.idx) - |idStr0|..pos.idx]
      ensures tooLong <==> WordEnd(text, old(pos.idx) - |idStr0|) - (old(pos.idx) - |idStr0|) > 30
      ensures !tooLong ==> pos.idx == WordEnd(text, old(pos.idx) - |idStr0|)
      ensures tooLong ==> pos.idx == SkipEnd(text, old(pos.idx) - |idStr0| + 30, IdDelim) >= WordEnd(text, old(pos.idx) - |idStr0|)
    {
      idStr := idStr0;
      var idLen := |idStr0|;
      ghost var start := pos.idx - |idStr0|;
      SliceWordChars(text, start, pos.idx);
      WordEndSkip(text, start, pos.idx);
      // The source tests the length inside the loop and leaves it through the
      // skip; testing it in the loop condition reads the same characters.
      while currentChar.Some? && IsWordChar(currentChar.value) && idLen < 30
        invariant CursorOk() && old(pos.idx) <= pos.idx <= |text|
        invariant idStr == text[start..pos.idx] && idLen == |idStr| <= 30
        invariant WordEnd(text, start) == WordEnd(text, pos.idx)
        decreases |text| - pos.idx
      {
        WordStep(text, start, pos.idx);
        idStr := idStr + [currentChar.value];
        idLen := idLen + 1;
        Advance();
      }
      if currentChar.Some? && IsWordChar(currentChar.value) {
        ghost var mid := pos.idx;
        assert mid == start + 30;
        SkipPastWord(text, mid);
        ghost var e := WordEnd(text, mid);
        idStr := SkipToDelim(idStr, IdDelim);
        assert pos.idx == SkipEnd(text, mid, IdDelim) >= e == WordEnd(text, start);
        SliceSplit(text, start, mid, pos.idx);
        return idStr, true;
      }
      return idStr, false;
    }

    /** `make_identifier(id_str)`, `idStr0` being the characters already read: the
        rest of the word, renamed by `identifiers`; past thirty characters the text
        up to the next identifier delimiter is reported instead. */
    method MakeIdentifier(idStr0: string) returns (r: Scan)
      requires Valid() && |idStr0| <= pos.idx <= |text|
      requires text[pos.idx - |idStr0|..pos.idx] == idStr0 && |idStr0| <= 30
      requires AllWordChars(idStr0)
      modifies this`currentChar, this`prevChar, pos, this`identifierMap, this`currentId, this`order
      ensures Valid() && MapExtends(old(identifierMap), identifierMap) && pos.idx >= old(pos.idx)
      ensures IdMade(old(pos.idx) - |idStr0|, r, old(pos.ln), old(pos.col), old(identifierMap))
    {
      var curLn, curCol := pos.ln + 1, pos.col + 1;
      var idStr, tooLong := ReadIdentifier(idStr0);
      if tooLong {
        return LexFailed(LexError(MaxIdentifierChars(idStr), pos.ln + 1, Some(pos.col - |idStr| + 1)));
      }
      var id := Identifiers(idStr);
      IdsNumbered(identifierMap, order, currentId, idStr);
      TokensOkExtends(tokens, old(identifierMap), identifierMap);
      return Scanned(Token(idStr, id, curLn, curCol));
    }

    /** What `make_identifier` gives for the word starting at `start`: the id token
        of the word, at most thirty long, with the cursor at the word's end; or the
        length error with the cursor past the run of word characters. */
    ghost predicate IdMade(start: nat, r: Scan, ln: int, col: int, m0: map<string, string>)
      requires start <= |text|
      reads this, pos
    {
      var e := WordEnd(text, start);
      var w := text[start..e];
      && (|w| <= 30 ==>
           && pos.idx == e && w in identifierMap && IsIdType(identifierMap[w])
           && r == Scanned(Token(w, identifierMap[w], ln + 1, col + 1)))
      && (|w| > 30 ==>
           && identifierMap == m0 && pos.idx == SkipEnd(text, start + 30, IdDelim) >= e
           && r == LexFailed(LexError(MaxIdentifierChars(text[start..pos.idx]), pos.ln + 1, Some(pos.col - (pos.idx - start) + 1))))
    }

    /** What `tokenize_id` leaves for the word starting at `start`: its id token put
        through `process_token` against the identifier delimiters, or the length
        error; the cursor is past the word either way. */
    ghost predicate IdTokenized(ts: seq<Token>, es: seq<LexError>, start: nat, curLn: int, curCol: int)
      requires start <= |text|
      reads this, pos
    {
      var e := WordEnd(text, start);
      var w := text[start..e];
      && (e - start <= 30 ==>
           && pos.idx >= e && w in identifierMap
           && (tokens, errors) == Processed(ts, es, Token(w, identifierMap[w], curLn, curCol), IdDelim, e))
      && (e - start > 30 ==>
           && start + 30 < pos.idx <= |text| && tokens == ts
           && errors == es + [LexError(MaxIdentifierChars(text[start..pos.idx]), pos.ln + 1, Some(pos.col - (pos.idx - start) + 1))])
    }

    /** `tokenize_id`: the identifier, checked against the identifier delimiters. */
    method TokenizeId(curLn: int, curCol: int, charStr: string)
      requires Valid() && |charStr| <= pos.idx <= |text|
      requires text[pos.idx - |charStr|..pos.idx] == charStr && |charStr| <= 30
      requires AllWordChars(charStr)
      modifies this`currentChar, this`prevChar, pos, this`identifierMap, this`currentId, this`order, this`tokens, this`errors
      ensures Valid() && MapExtends(old(identifierMap), identifierMap) && pos.idx >= old(pos.idx)
      ensures IdTokenized(old(tokens), old(errors), old(pos.idx) - |charStr|, curLn, curCol)
      ensures AppendedAt(old(tokens), tokens, curLn, curCol)
    {
      ghost var start := pos.idx - |charStr|;
      ghost var e := WordEnd(text, start);
      var result := MakeIdentifier(charStr);
      if result.LexFailed? {
        assert e - start > 30;
        errors := errors + [result.err];
      } else {
        ghost var w := text[start..e];
        assert e - start <= 30 && pos.idx == e && result.tok.lexeme == w;
        ghost var m := identifierMap;
        IdTokenOk(w, result.tok.token, m, curLn, curCol);
        ProcessToken(curLn, curCol, result.tok.lexeme, result.tok.token, IdDelim);
        assert identifierMap == m && pos.idx >= e;
      }
    }

    /** `tokenize_keyword`: a keyword followed by a word character is the start of an
        identifier; otherwise the keyword is checked against its own delimiters. */
    method TokenizeKeyword(curLn: int, curCol: int, charStr: string, valid: Delims)
      requires Valid() && |charStr| <= pos.idx <= |text|
      requires text[pos.idx - |charStr|..pos.idx] == charStr && KeywordDelims(charStr) == Some(valid)
      modifies this`currentChar, this`prevChar, pos, this`identifierMap, this`currentId, this`order, this`tokens, this`errors
      ensures Valid() && MapExtends(old(identifierMap), identifierMap) && pos.idx >= old(pos.idx)
      ensures old(currentChar).Some? && IsWordChar(old(currentChar).value) ==>
        IdTokenized(old(tokens), old(errors), old(pos.idx) - |charStr|, curLn, curCol)
      ensures !(old(currentChar).Some? && IsWordChar(old(currentChar).value)) ==>
        && identifierMap == old(identifierMap)
        && (tokens, errors) == Processed(old(tokens), old(errors), Token(charStr, charStr, curLn, curCol), valid, old(pos.idx))
      ensures AppendedAt(old(tokens), tokens, curLn, curCol)
    {
      // `None` and a non-word character are separate branches of the source with the
      // same body.
      KeywordIsGood(charStr);
      if currentChar.Some? && IsWordChar(currentChar.value) {
        TokenizeId(curLn, curCol, charStr);
      } else {
        KeywordTokenOk(charStr, identifierMap, curLn, curCol);
        ProcessToken(curLn, curCol, charStr, charStr, valid);
      }
    }

    /** The walk down the trie: characters are read while they still spell the
        start of some keyword. */
    method WalkTrie() returns (charStr: string)
      requires CursorOk() && pos.idx <= |text|
      modifies this`currentChar, this`prevChar, pos
      ensures CursorOk() && old(pos.idx) <= pos.idx <= |text| && charStr == text[old(pos.idx)..pos.idx]
      ensures AllWordChars(charStr) && |charStr| <= 10
      ensures pos.idx < |text| && IsWordChar(text[pos.idx]) ==>
        WordEnd(text, old(pos.idx)) > pos.idx && KeywordDelims(text[old(pos.idx)..WordEnd(text, old(pos.idx))]).None?
      ensures !(pos.idx < |text| && IsWordChar(text[pos.idx])) ==> WordEnd(text, old(pos.idx)) == pos.idx
    {
      charStr := "";
      ghost var start := pos.idx;
      assert charStr <= Keywords[0].0;
      while currentChar.Some? && IsKeywordPrefix(charStr + [currentChar.value])
        invariant CursorOk() && start <= pos.idx <= |text| && charStr == text[start..pos.idx]
        invariant IsKeywordPrefix(charStr)
        decreases |text| - pos.idx
      {
        SliceSplit(text, start, pos.idx, pos.idx + 1);
        charStr := charStr + [currentChar.value];
        Advance();
      }
      KeywordPrefixIsWord(charStr);
      TrieStop(text, start, pos.idx);
    }

    /** The keyword trie of `make_tokens`: it follows the text while the characters
        read are the start of some keyword. The whole word is then a keyword token
        when it is a keyword, and an identifier otherwise. */
    method KeywordTrie(curLn: int, curCol: int)
      requires Valid() && currentChar.Some? && IsAlpha(currentChar.value)
      modifies this`currentChar, this`prevChar, pos, this`identifierMap, this`currentId, this`order, this`tokens, this`errors
      ensures Valid() && MapExtends(old(identifierMap), identifierMap) && pos.idx > old(pos.idx)
      ensures var e := WordEnd(text, old(pos.idx)); var w := text[old(pos.idx)..e];
        && (KeywordDelims(w).Some? ==>
             && identifierMap == old(identifierMap)
             && (tokens, errors) == Processed(old(tokens), old(errors), Token(w, w, curLn, curCol), KeywordDelims(w).value, e))
        && (KeywordDelims(w).None? ==> IdTokenized(old(tokens), old(errors), old(pos.idx), curLn, curCol))
      ensures AppendedAt(old(tokens), tokens, curLn, curCol)
    {
      ghost var start := pos.idx;
      var charStr := WalkTrie();
      assert pos.idx - |charStr| == start;
      ghost var e := WordEnd(text, start);
      ghost var wordFollows := currentChar.Some? && IsWordChar(currentChar.value);
      ghost var ts, es, m := tokens, errors, identifierMap;
      var valid := KeywordDelims(charStr);
      if valid.Some? {
        ghost var idx := pos.idx;
        assert idx - |charStr| == start && tokens == ts && errors == es;
        TokenizeKeyword(curLn, curCol, charStr, valid.value);
        if wordFollows {
          assert KeywordDelims(text[start..e]).None? && IdTokenized(ts, es, start, curLn, curCol);
        } else {
          assert idx == e && text[start..e] == charStr;
          assert identifierMap == m && (tokens, errors) == Processed(ts, es, Token(charStr, charStr, curLn, curCol), valid.value, e);
        }
      } else {
        assert !wordFollows ==> text[start..e] == charStr;
        TokenizeId(curLn, curCol, charStr);
        assert KeywordDelims(text[start..e]).None? && IdTokenized(ts, es, start, curLn, curCol);
      }
    }

    // ---- numbers ----------------------------------------------------------------

    /** The error exits of the loop of `make_number`: the text up to the next
        number delimiter is added to what was read, with the sign in front. */
    method NumberOverflow(err: NumError, base: string, negate: bool) returns (r: Scan)
      requires CursorOk() && pos.idx < |text| && (IsNum(text[pos.idx]) || text[pos.idx] == '.')
      modifies this`currentChar, this`prevChar, pos
      ensures CursorOk() && old(pos.idx) < pos.idx <= |text| && pos.idx == SkipEnd(text, old(pos.idx), NumlitDelim)
      ensures pos.idx == |text| || InDelims(NumlitDelim, text[pos.idx])
      ensures var t := (if negate then "-" else "") + base + text[old(pos.idx)..pos.idx];
        r == LexFailed(LexError(NumErrorKind(err, t), pos.ln + 1, Some(pos.col - |t| + 1)))
    {
      NumberCharNotDelim(text[pos.idx]);
      SkipEndStops(text, pos.idx, NumlitDelim);
      var t := SkipToDelim(base, NumlitDelim);
      if negate {
        t := "-" + t;
      }
      return LexFailed(LexError(NumErrorKind(err, t), pos.ln + 1, Some(pos.col - |t| + 1)));
    }

    /** `make_number(num_str)`, `prefix` being what the caller has read: the
        outcome and the end `ScanNumber` gives for the text at the cursor. */
    method MakeNumber(prefix: NumPrefix) returns (r: Scan)
      requires CursorOk() && pos.idx <= |text|
      modifies this`currentChar, this`prevChar, pos
      ensures CursorOk() && old(pos.idx) <= pos.idx <= |text|
      ensures (r, pos.idx) == ScanNumber(text, old(pos.idx), prefix, old(prevChar), old(pos.ln), old(pos.col))
    {
      var curLn, curCol := pos.ln + 1, pos.col + 1;
      var st, negate := NumStart(prefix).0, NumStart(prefix).1;
      var stopped;
      st, stopped := ReadNumber(st, negate);
      if stopped.Some? {
        return stopped.value;
      }
      r := FinishNumber(st, negate, curLn, curCol, pos.ln, pos.col);
    }

    /** The loop of `make_number`: the steps `NumRun` takes from the cursor, and
        on an error the text up to the next number delimiter. */
    method ReadNumber(st0: NumState, negate: bool) returns (st: NumState, stopped: Option<Scan>)
      requires CursorOk() && pos.idx <= |text|
      modifies this`currentChar, this`prevChar, pos
      ensures CursorOk() && old(pos.idx) <= pos.idx <= |text|
      ensures var (out, e) := NumRun(text, old(pos.idx), st0, old(prevChar));
        && (out.Go? ==> stopped.None? && st == out.next && pos.idx == e)
        && (out.Stop? ==>
             && e < |text| && pos.idx == SkipEnd(text, e, NumlitDelim)
             && var t := (if negate then "-" else "") + out.base + text[e..pos.idx];
                stopped == Some(LexFailed(LexError(NumErrorKind(out.err, t), pos.ln + 1, Some(pos.col - |t| + 1)))))
    {
      st := st0;
      ghost var start, prev0 := pos.idx, prevChar;
      while currentChar.Some? && (IsNum(currentChar.value) || currentChar.value == '.')
        invariant CursorOk() && start <= pos.idx <= |text|
        invariant NumRun(text, start, st0, prev0) == NumRun(text, pos.idx, st, prevChar)
        decreases |text| - pos.idx
      {
        var step := NumStep(st, currentChar.value, prevChar);
        if step.Stop? {
          var r := NumberOverflow(step.err, step.base, negate);
          return st, Some(r);
        }
        st := step.next;
        Advance();
      }
      return st, None;
    }

    // ---- comms literals -----------------------------------------------------------

    /** `make_string`, with the cursor on the opening quote: the outcome and the end
        `ScanString` gives. */
    method MakeString() returns (r: Scan)
      requires CursorOk() && currentChar == Some('"')
      modifies this`currentChar, this`prevChar, pos
      ensures CursorOk() && old(pos.idx) < pos.idx <= |text|
      ensures (r, pos.idx) == ScanString(text, old(pos.idx), old(pos.ln), old(pos.col))
    {
      var curLn, curCol := pos.ln + 1, pos.col + 1;
      var body := "";
      var esc := false;
      Advance();
      ghost var start := pos.idx;
      while currentChar.Some?
        invariant CursorOk() && start <= pos.idx <= |text|
        invariant StringRun(text, start, "", false) == StringRun(text, pos.idx, body, esc)
        decreases |text| - pos.idx
      {
        var c := currentChar.value;
        if esc {
          body := body + EscapeValue(c);
          esc := false;
        } else if c == '\\' {
          esc := true;
        } else if c == '"' {
          Advance();
          return Scanned(Token("\"" + body + "\"", COMMS, curLn, curCol));
        } else if c == '\n' {
          return LexFailed(LexError(UnclosedString(body), pos.ln + 1, Some(pos.col - |body|)));
        } else {
          body := body + [c];
        }
        Advance();
      }
      return LexFailed(LexError(UnclosedString(body), pos.ln + 1, Some(pos.col - |body|)));
    }

    // ---- the branches of `make_tokens` --------------------------------------------

    /** The inner loop over a run of `c`. */
    method SkipRun(c: char)
      requires CursorOk() && pos.idx <= |text|
      modifies this`currentChar, this`prevChar, pos
      ensures CursorOk() && pos.idx == RunEnd(text, old(pos.idx), c)
    {
      while currentChar == Some(c)
        invariant CursorOk() && old(pos.idx) <= pos.idx <= |text|
        invariant RunEnd(text, old(pos.idx), c) == RunEnd(text, pos.idx, c)
        decreases |text| - pos.idx
      {
        Advance();
      }
    }

    /** A run of newlines is one newline token. */
    method Newlines(curLn: int, curCol: int)
      requires Valid() && currentChar == Some('\n')
      modifies this`currentChar, this`prevChar, pos, this`tokens, this`errors
      ensures Valid() && pos.idx > old(pos.idx)
      ensures (tokens, errors) == Processed(old(tokens), old(errors), Token("\\n", NEWLINE, curLn, curCol), NlDelim, RunEnd(text, old(pos.idx), '\n'))
      ensures AppendedAt(old(tokens), tokens, curLn, curCol)
    {
      SkipRun('\n');
      PlainTokenOk("\\n", NEWLINE, identifierMap, curLn, curCol);
      ProcessToken(curLn, curCol, "\\n", NEWLINE, NlDelim);
    }

    /** A run of spaces is one space token; the character before the run is the new
        `lhs_space`. */
    method Spaces(curLn: int, curCol: int) returns (lhs: Option<char>)
      requires Valid() && currentChar == Some(' ')
      modifies this`currentChar, this`prevChar, pos, this`tokens, this`errors
      ensures Valid() && pos.idx > old(pos.idx) && lhs == old(prevChar)
      ensures (tokens, errors) == Processed(old(tokens), old(errors), Token(" ", SPACE, curLn, curCol), SpaceDelim, RunEnd(text, old(pos.idx), ' '))
      ensures AppendedAt(old(tokens), tokens, curLn, curCol)
    {
      lhs := prevChar;
      SkipRun(' ');
      PlainTokenOk(" ", SPACE, identifierMap, curLn, curCol);
      ProcessToken(curLn, curCol, " ", SPACE, SpaceDelim);
    }

    /** `+`, `*`, `/`, `%`, `<`, `>` and `!`: the operator followed by `=`, or the
        operator alone; the token type is the lexeme. */
    method OpOrAssign(curLn: int, curCol: int, plain: Delims, withEq: Delims)
      requires Valid() && currentChar.Some?
      modifies this`currentChar, this`prevChar, pos, this`tokens, this`errors
      ensures Valid() && pos.idx > old(pos.idx)
      ensures var c, i := old(currentChar).value, old(pos.idx);
        && (CharAt(text, i + 1) == Some('=') ==>
             (tokens, errors) == Processed(old(tokens), old(errors), Token([c, '='], [c, '='], curLn, curCol), withEq, i + 2))
        && (CharAt(text, i + 1) != Some('=') ==>
             (tokens, errors) == Processed(old(tokens), old(errors), Token([c], [c], curLn, curCol), plain, i + 1))
      ensures AppendedAt(old(tokens), tokens, curLn, curCol)
    {
      var c := currentChar.value;
      Advance();
      if currentChar == Some('=') {
        Advance();
        PlainTokenOk([c, '='], [c, '='], identifierMap, curLn, curCol);
        ProcessToken(curLn, curCol, [c, '='], [c, '='], withEq);
      } else {
        PlainTokenOk([c], [c], identifierMap, curLn, curCol);
        ProcessToken(curLn, curCol, [c], [c], plain);
      }
    }

    /** `^ : ( ) [ ] { } ,`: the character is the token, checked against its own
        delimiters. */
    method Single(curLn: int, curCol: int)
      requires Valid() && currentChar.Some?
      modifies this`currentChar, this`prevChar, pos, this`tokens, this`errors
      ensures Valid() && pos.idx > old(pos.idx)
      ensures var c := old(currentChar).value;
        (tokens, errors) == Processed(old(tokens), old(errors), Token([c], [c], curLn, curCol), SingleDelims(c), old(pos.idx) + 1)
      ensures AppendedAt(old(tokens), tokens, curLn, curCol)
    {
      var c := currentChar.value;
      Advance();
      PlainTokenOk([c], [c], identifierMap, curLn, curCol);
      ProcessToken(curLn, curCol, [c], [c], SingleDelims(c));
    }

    /** `=`, `&` and `|`: the doubled character is the token; a single one is an
        invalid character, reported at the cursor past it. */
    method Doubled(curLn: int, curCol: int, valid: Delims)
      requires Valid() && currentChar.Some?
      modifies this`currentChar, this`prevChar, pos, this`tokens, this`errors
      ensures Valid() && pos.idx > old(pos.idx)
      ensures var c, i := old(currentChar).value, old(pos.idx);
        && (CharAt(text, i + 1) == Some(c) ==>
             (tokens, errors) == Processed(old(tokens), old(errors), Token([c, c], [c, c], curLn, curCol), valid, i + 2))
        && (CharAt(text, i + 1) != Some(c) ==>
             && tokens == old(tokens) && pos.idx == i + 1
             && errors == old(errors) + [LexError(InvalidCharacter(c), LineAt(text, i + 1) + 1, Some(ColumnAt(text, i + 1)))])
      ensures AppendedAt(old(tokens), tokens, curLn, curCol)
    {
      var c := currentChar.value;
      Advance();
      if currentChar == Some(c) {
        Advance();
        PlainTokenOk([c, c], [c, c], identifierMap, curLn, curCol);
        ProcessToken(curLn, curCol, [c, c], [c, c], valid);
      } else {
        errors := errors + [LexError(InvalidCharacter(c), pos.ln + 1, Some(pos.col))];
      }
    }

    /** The lists after a number branch: `make_number` on the text at index `i`, its
        error appended as it is, or its token put through `process_token` at the
        position the branch started from. */
    ghost function NumberEmitted(ts: seq<Token>, es: seq<LexError>, i: nat, prefix: NumPrefix, prev: Option<char>, curLn: int, curCol: int): (seq<Token>, seq<LexError>)
      requires i <= |text|
    {
      var res := ScanNumber(text, i, prefix, prev, LineAt(text, i), ColumnAt(text, i));
      if res.0.LexFailed? then (ts, es + [res.0.err])
      else Processed(ts, es, Token(res.0.tok.lexeme, res.0.tok.token, curLn, curCol), NumlitDelim, res.1)
    }

    /** A number branch of `make_tokens`. */
    method EmitNumber(curLn: int, curCol: int, prefix: NumPrefix)
      requires Valid() && pos.idx <= |text|
      requires prefix.NoPrefix? ==> currentChar.Some? && IsNum(currentChar.value)
      requires prefix.Minus? ==> prevChar == Some('-') && currentChar.Some? && (IsNum(currentChar.value) || currentChar.value == '.')
      requires prefix.Point? ==> prevChar == Some('.')
      requires prefix.PointDigit? ==> IsNumTo6(prefix.d) && prevChar == Some(prefix.d)
      modifies this`currentChar, this`prevChar, pos, this`tokens, this`errors
      ensures Valid() && pos.idx >= ScanNumber(text, old(pos.idx), prefix, old(prevChar), old(pos.ln), old(pos.col)).1
      ensures prefix.NoPrefix? || prefix.Minus? ==> pos.idx > old(pos.idx)
      ensures (tokens, errors) == NumberEmitted(old(tokens), old(errors), old(pos.idx), prefix, old(prevChar), curLn, curCol)
      ensures AppendedAt(old(tokens), tokens, curLn, curCol)
    {
      ghost var i, prev, ln, col := pos.idx, prevChar, pos.ln, pos.col;
      var r := MakeNumber(prefix);
      NumberScanUse(text, i, prefix, prev, ln, col, r, pos.idx);
      if r.LexFailed? {
        errors := errors + [r.err];
      } else {
        NumberTokenOk(r.tok, identifierMap, curLn, curCol);
        ProcessToken(curLn, curCol, r.tok.lexeme, r.tok.token, NumlitDelim);
      }
    }

    /** The comms branch of `make_tokens`. */
    method StringLiteral(curLn: int, curCol: int)
      requires Valid() && currentChar == Some('"')
      modifies this`currentChar, this`prevChar, pos, this`tokens, this`errors
      ensures Valid() && pos.idx > old(pos.idx)
      ensures var res := ScanString(text, old(pos.idx), old(pos.ln), old(pos.col));
        && (res.0.LexFailed? ==> tokens == old(tokens) && errors == old(errors) + [res.0.err])
        && (res.0.Scanned? ==>
             (tokens, errors) == Processed(old(tokens), old(errors), Token(res.0.tok.lexeme, COMMS, curLn, curCol), CommslitDelim, res.1))
      ensures AppendedAt(old(tokens), tokens, curLn, curCol)
    {
      ghost var i, ln, col := pos.idx, pos.ln, pos.col;
      var r := MakeString();
      ScanStringOk(text, i, ln, col, identifierMap);
      if r.LexFailed? {
        errors := errors + [r.err];
      } else {
        ProcessToken(curLn, curCol, r.tok.lexeme, r.tok.token, CommslitDelim);
      }
    }

    /** What follows a `-` that is not the binary minus: a number, or the `-` of a
        negation. */
    method NegOrNumber(curLn: int, curCol: int)
      requires Valid() && prevChar == Some('-') && pos.idx <= |text|
      modifies this`currentChar, this`prevChar, pos, this`tokens, this`errors
      ensures Valid() && pos.idx >= old(pos.idx)
      ensures StartsNumber(old(currentChar)) ==>
        && pos.idx > old(pos.idx)
        && (tokens, errors) == NumberEmitted(old(tokens), old(errors), old(pos.idx), Minus, Some('-'), curLn, curCol)
      ensures !StartsNumber(old(currentChar)) ==>
        (tokens, errors) == Processed(old(tokens), old(errors), Token("-", "-", curLn, curCol), Delim4, old(pos.idx))
      ensures AppendedAt(old(tokens), tokens, curLn, curCol)
    {
      // TT_NEG and TT_MINUS are both the type `-`.
      if currentChar.None? {
        PlainTokenOk("-", "-", identifierMap, curLn, curCol);
        ProcessToken(curLn, curCol, "-", "-", Delim4);
      } else if IsNum(currentChar.value) || currentChar.value == '.' {
        EmitNumber(curLn, curCol, Minus);
      } else {
        PlainTokenOk("-", "-", identifierMap, curLn, curCol);
        ProcessToken(curLn, curCol, "-", "-", Delim4);
      }
    }

    /** The `-` branch: `-=`, the binary minus after an operand, and otherwise a
        negative number or the negation. */
    method MinusSign(curLn: int, curCol: int, lhsSpace: LhsSpace)
      requires Valid() && currentChar == Some('-')
      modifies this`currentChar, this`prevChar, pos, this`tokens, this`errors
      ensures Valid() && pos.idx > old(pos.idx)
      ensures var i, nx := old(pos.idx), CharAt(text, old(pos.idx) + 1);
        && (nx == Some('=') ==>
             (tokens, errors) == Processed(old(tokens), old(errors), Token("-=", "-=", curLn, curCol), Delim4, i + 2))
        && (nx != Some('=') && (IsBinaryMinus(old(prevChar), lhsSpace) || !StartsNumber(nx)) ==>
             (tokens, errors) == Processed(old(tokens), old(errors), Token("-", "-", curLn, curCol), Delim4, i + 1))
        && (nx != Some('=') && !IsBinaryMinus(old(prevChar), lhsSpace) && StartsNumber(nx) ==>
             (tokens, errors) == NumberEmitted(old(tokens), old(errors), i + 1, Minus, Some('-'), curLn, curCol))
      ensures AppendedAt(old(tokens), tokens, curLn, curCol)
    {
      var lhs := prevChar;
      Advance();
      if currentChar == Some('=') {
        Advance();
        PlainTokenOk("-=", "-=", identifierMap, curLn, curCol);
        ProcessToken(curLn, curCol, "-=", "-=", Delim4);
      } else if lhs.Some? && IsValidLhs(lhs.value) {
        PlainTokenOk("-", "-", identifierMap, curLn, curCol);
        ProcessToken(curLn, curCol, "-", "-", Delim4);
      } else if lhs == Some(' ') {
        if LhsSpaceValid(lhsSpace) {
          PlainTokenOk("-", "-", identifierMap, curLn, curCol);
          ProcessToken(curLn, curCol, "-", "-", Delim4);
        } else {
          NegOrNumber(curLn, curCol);
        }
      } else {
        NegOrNumber(curLn, curCol);
      }
    }

    /** The lists after a point followed by the digit at index `i`: `.Nf` is the xp
        format when the character after the digit is `f`, and otherwise the point,
        the digit and what follows are a number. */
    ghost function XpFormatted(ts: seq<Token>, es: seq<LexError>, i: nat, curLn: int, curCol: int): (seq<Token>, seq<LexError>)
      requires i < |text|
    {
      if CharAt(text, i + 1) == Some('f') then
        Processed(ts, es, Token(['.', text[i], 'f'], XP_FORMATTING, curLn, curCol), Just(')'), i + 2)
      else NumberEmitted(ts, es, i + 1, PointDigit(text[i]), Some(text[i]), curLn, curCol)
    }

    /** The `.` branch on a digit from 0 to 6. */
    method XpFormat(curLn: int, curCol: int)
      requires Valid() && prevChar == Some('.') && currentChar.Some? && IsNumTo6(currentChar.value)
      modifies this`currentChar, this`prevChar, pos, this`tokens, this`errors
      ensures Valid() && pos.idx > old(pos.idx)
      ensures (tokens, errors) == XpFormatted(old(tokens), old(errors), old(pos.idx), curLn, curCol)
      ensures AppendedAt(old(tokens), tokens, curLn, curCol)
    {
      var d := currentChar.value;
      Advance();
      if currentChar == Some('f') {
        Advance();
        PlainTokenOk(['.', d, 'f'], XP_FORMATTING, identifierMap, curLn, curCol);
        ProcessToken(curLn, curCol, ['.', d, 'f'], XP_FORMATTING, Just(')'));
      } else {
        EmitNumber(curLn, curCol, PointDigit(d));
      }
    }

    /** The `.` branch: `.Nf` (N from 0 to 6) is an xp format, a point before a
        digit starts a number, and otherwise the point is a token. */
    method Period(curLn: int, curCol: int)
      requires Valid() && currentChar == Some('.')
      modifies this`currentChar, this`prevChar, pos, this`tokens, this`errors
      ensures Valid() && pos.idx > old(pos.idx)
      ensures var i, c1 := old(pos.idx), CharAt(text, old(pos.idx) + 1);
        && (c1.Some? && IsNumTo6(c1.value) ==> (tokens, errors) == XpFormatted(old(tokens), old(errors), i + 1, curLn, curCol))
        && (c1.Some? && IsNum(c1.value) && !IsNumTo6(c1.value) ==>
             (tokens, errors) == NumberEmitted(old(tokens), old(errors), i + 1, Point, Some('.'), curLn, curCol))
        && (!(c1.Some? && IsNum(c1.value)) ==>
             (tokens, errors) == Processed(old(tokens), old(errors), Token(".", ".", curLn, curCol), PeriodDelim, i + 1))
      ensures AppendedAt(old(tokens), tokens, curLn, curCol)
    {
      Advance();
      if currentChar.Some? && IsNumTo6(currentChar.value) {
        XpFormat(curLn, curCol);
      } else if currentChar.Some? && IsNum(currentChar.value) {
        EmitNumber(curLn, curCol, Point);
      } else {
        PlainTokenOk(".", ".", identifierMap, curLn, curCol);
        ProcessToken(curLn, curCol, ".", ".", PeriodDelim);
      }
    }

    // ---- comments -----------------------------------------------------------------

    /** A single-line comment runs to the newline, which it consumes; it leaves no
        token and no error. At the end of the text `process_token` steps past the
        end, and so it does a second time when the newline is the last character. */
    method LineComment(curLn: int, curCol: int)
      requires Valid() && currentChar == Some('#')
      modifies this`currentChar, this`prevChar, pos, this`tokens, this`errors
      ensures Valid() && tokens == old(tokens) && errors == old(errors)
      ensures var e := SkipEnd(text, old(pos.idx) + 1, Just('\n'));
        pos.idx == (if e + 1 < |text| then e + 1 else |text| + 1)
    {
      var comments := "#";
      Advance();
      ghost var start := pos.idx;
      while currentChar.Some?
        invariant Valid() && start <= pos.idx <= |text| && tokens == old(tokens) && errors == old(errors)
        invariant SkipEnd(text, start, Just('\n')) == SkipEnd(text, pos.idx, Just('\n'))
        decreases |text| - pos.idx
      {
        if currentChar == Some('\n') {
          ProcessToken(curLn, curCol, comments, COMMENT1, Just('\n'));
          break;
        }
        comments := comments + [currentChar.value];
        Advance();
      }
      if currentChar.None? {
        ProcessToken(curLn, curCol, comments, COMMENT1, Just('\n'));
      }
    }

    /** The loop that counts up to three backticks. */
    method CountTicks() returns (count: nat)
      requires CursorOk() && pos.idx <= |text|
      modifies this`currentChar, this`prevChar, pos
      ensures CursorOk() && count == Ticks(text, old(pos.idx), 3) && pos.idx == old(pos.idx) + count
    {
      count := 0;
      while currentChar == Some('`') && count < 3
        invariant CursorOk() && old(pos.idx) <= pos.idx <= |text| && count == pos.idx - old(pos.idx) <= 3
        invariant Ticks(text, old(pos.idx), 3) == count + Ticks(text, pos.idx, 3 - count)
        decreases 3 - count
      {
        count := count + 1;
        Advance();
      }
    }

    /** The body of a multi-line comment, up to the closing three backticks or the
        end of the text. The text of the comment is collected by the source but
        never used, and is not kept here. */
    method SkipComment()
      requires CursorOk() && pos.idx <= |text|
      modifies this`currentChar, this`prevChar, pos, this`errors
      ensures CursorOk() && old(pos.idx) <= pos.idx
      ensures CommentRun(text, old(pos.idx)).Some? ==> pos.idx == CommentRun(text, old(pos.idx)).value && errors == old(errors)
      ensures CommentRun(text, old(pos.idx)).None? ==>
        pos.idx == |text| && errors == old(errors) + [LexError(UnclosedMultiLineComment, LineAt(text, |text|) + 1, None)]
    {
      ghost var start := pos.idx;
      while true
        invariant CursorOk() && start <= pos.idx <= |text| && errors == old(errors)
        invariant CommentRun(text, start) == CommentRun(text, pos.idx)
        decreases |text| - pos.idx
      {
        if currentChar.None? {
          errors := errors + [LexError(UnclosedMultiLineComment, pos.ln + 1, None)];
          break;
        }
        if currentChar == Some('`') {
          var close := CountTicks();
          if close == 3 {
            break;
          }
        } else {
          Advance();
        }
      }
    }

    /** The multi-line comment branch: three backticks open it; fewer are an
        incomplete delimiter, reported at the column of the first of them. */
    method BlockComment(curLn: int, curCol: int)
      requires Valid() && currentChar == Some('`')
      modifies this`currentChar, this`prevChar, pos, this`errors
      ensures Valid() && pos.idx > old(pos.idx)
      ensures var i := old(pos.idx); var k := Ticks(text, i, 3);
        && (k < 3 ==>
             && pos.idx == i + k
             && errors == old(errors) + [LexError(IncompleteCommentDelimiter, LineAt(text, i + k) + 1, Some(ColumnAt(text, i + k) - k))])
        && (k == 3 && CommentRun(text, i + 3).Some? ==> pos.idx == CommentRun(text, i + 3).value && errors == old(errors))
        && (k == 3 && CommentRun(text, i + 3).None? ==>
             pos.idx == |text| && errors == old(errors) + [LexError(UnclosedMultiLineComment, LineAt(text, |text|) + 1, None)])
    {
      var count := CountTicks();
      if count != 3 {
        errors := errors + [LexError(IncompleteCommentDelimiter, pos.ln + 1, Some(pos.col - count))];
      } else {
        SkipComment();
      }
    }

    // ---- the scan -----------------------------------------------------------------

    /** One pass of the loop of `make_tokens`, by the character under the cursor:
        the cursor moves on, at most one token is added, at the position the pass
        started from, and a run of spaces records the character before it. */
    method Step(curLn: int, curCol: int, lhsSpace: LhsSpace) returns (next: LhsSpace)
      requires Valid() && currentChar.Some? && curLn == pos.ln + 1 && curCol == pos.col + 1
      modifies this`currentChar, this`prevChar, pos, this`identifierMap, this`currentId, this`order, this`tokens, this`errors
      ensures Valid() && MapExtends(old(identifierMap), identifierMap) && pos.idx > old(pos.idx)
      ensures AppendedAt(old(tokens), tokens, curLn, curCol)
      ensures next == (if old(currentChar) == Some(' ') then Saw(old(prevChar)) else lhsSpace)
    {
      next := lhsSpace;
      var c := currentChar.value;
      if c == '\t' || c == '\n' || c == ' ' {
        next := StepBlank(curLn, curCol, lhsSpace);
      } else if IsNum(c) || IsAlpha(c) || c == '_' || c == '"' {
        StepLiteral(curLn, curCol);
      } else if c == '#' || c == '`' {
        StepComment(curLn, curCol);
      } else {
        StepOperator(curLn, curCol, lhsSpace);
      }
    }

    /** Tabs, newlines and spaces. */
    method StepBlank(curLn: int, curCol: int, lhsSpace: LhsSpace) returns (next: LhsSpace)
      requires Valid() && currentChar.Some? && curLn == pos.ln + 1 && curCol == pos.col + 1
      modifies this`currentChar, this`prevChar, pos, this`identifierMap, this`currentId, this`order, this`tokens, this`errors
      ensures Valid() && MapExtends(old(identifierMap), identifierMap) && pos.idx > old(pos.idx)
      ensures AppendedAt(old(tokens), tokens, curLn, curCol)
      requires currentChar == Some('\t') || currentChar == Some('\n') || currentChar == Some(' ')
      ensures next == (if old(currentChar) == Some(' ') then Saw(old(prevChar)) else lhsSpace)
    {
      next := lhsSpace;
      if currentChar == Some('\t') {
        Advance();
      } else if currentChar == Some('\n') {
        Newlines(curLn, curCol);
      } else {
        var lhs := Spaces(curLn, curCol);
        next := Saw(lhs);
      }
    }

    /** Numbers, keywords and identifiers, and comms. */
    method StepLiteral(curLn: int, curCol: int)
      requires Valid() && currentChar.Some? && curLn == pos.ln + 1 && curCol == pos.col + 1
      modifies this`currentChar, this`prevChar, pos, this`identifierMap, this`currentId, this`order, this`tokens, this`errors
      ensures Valid() && MapExtends(old(identifierMap), identifierMap) && pos.idx > old(pos.idx)
      ensures AppendedAt(old(tokens), tokens, curLn, curCol)
      requires var c := currentChar.value; IsNum(c) || IsAlpha(c) || c == '_' || c == '"'
    {
      var c := currentChar.value;
      if IsNum(c) {
        EmitNumber(curLn, curCol, NoPrefix);
      } else if IsAlpha(c) {
        KeywordTrie(curLn, curCol);
      } else if c == '_' {
        assert WordEnd(text, pos.idx) > pos.idx;
        TokenizeId(curLn, curCol, "");
      } else {
        StringLiteral(curLn, curCol);
      }
    }

    /** Comments. */
    method StepComment(curLn: int, curCol: int)
      requires Valid() && currentChar.Some? && curLn == pos.ln + 1 && curCol == pos.col + 1
      modifies this`currentChar, this`prevChar, pos, this`identifierMap, this`currentId, this`order, this`tokens, this`errors
      ensures Valid() && MapExtends(old(identifierMap), identifierMap) && pos.idx > old(pos.idx)
      ensures AppendedAt(old(tokens), tokens, curLn, curCol)
      requires currentChar == Some('#') || currentChar == Some('`')
    {
      if currentChar == Some('#') {
        LineComment(curLn, curCol);
      } else {
        BlockComment(curLn, curCol);
      }
    }

    /** Operators and punctuation, and the characters of no token. */
    method StepOperator(curLn: int, curCol: int, lhsSpace: LhsSpace)
      requires Valid() && currentChar.Some? && curLn == pos.ln + 1 && curCol == pos.col + 1
      modifies this`currentChar, this`prevChar, pos, this`identifierMap, this`currentId, this`order, this`tokens, this`errors
      ensures Valid() && MapExtends(old(identifierMap), identifierMap) && pos.idx > old(pos.idx)
      ensures AppendedAt(old(tokens), tokens, curLn, curCol)
    {
      var c := currentChar.value;
      if c == '+' {
        OpOrAssign(curLn, curCol, Delim3, Delim3);
      } else if c == '-' {
        MinusSign(curLn, curCol, lhsSpace);
      } else if c == '*' || c == '/' || c == '%' || c == '<' || c == '>' {
        OpOrAssign(curLn, curCol, Delim4, Delim4);
      } else if c == '^' || c == ':' || c == '(' || c == ')' || c == '[' || c == ']' || c == '{' || c == '}' || c == ',' {
        Single(curLn, curCol);
      } else if c == '.' {
        Period(curLn, curCol);
      } else if c == '=' || c == '&' || c == '|' {
        Doubled(curLn, curCol, if c == '=' then Delim3 else Just(' '));
      } else if c == '!' {
        OpOrAssign(curLn, curCol, Delim6, Delim3);
      } else {
        errors := errors + [LexError(UnknownCharacter(c), pos.ln + 1, Some(pos.col + 1))];
        Advance();
      }
    }

    /** `make_tokens`: the token list ending with the EOF token, and the errors.
        The EOF token takes the position of the last pass of the loop; with no
        pass (an empty text) that position was never assigned, and Python raises.
        Every token before it sits at the line and column of the index it starts
        at (`starts`), in the order of the text. */
    method MakeTokens() returns (r: Result<(seq<Token>, seq<LexError>)>, ghost starts: seq<nat>, ghost last: nat)
      requires Valid()
      modifies this`currentChar, this`prevChar, pos, this`identifierMap, this`currentId, this`order, this`tokens, this`errors
      ensures Valid() && currentChar.None? && MapExtends(old(identifierMap), identifierMap)
      ensures r.Err? <==> old(currentChar).None?
      ensures r.Err? ==> r.exc.kind == UnboundLocalError
      ensures r.Ok? ==>
        && last < |text|
        && r.value == (tokens + [Token(EOF, EOF, LineAt(text, last) + 1, ColumnAt(text, last) + 1)], errors)
        && StartsFit(text, tokens, starts, last + 1)
    {
      tokens := [];
      errors := [];
      var lhsSpace := Unset;
      // `cur_ln` and `cur_col` are bound by the first pass only.
      var bound := false;
      var curLn, curCol := 0, 0;
      starts, last := [], 0;
      while currentChar.Some?
        invariant Valid() && MapExtends(old(identifierMap), identifierMap)
        invariant bound ==>
          && old(currentChar).Some? && last < pos.idx && last < |text|
          && curLn == LineAt(text, last) + 1 && curCol == ColumnAt(text, last) + 1
          && StartsFit(text, tokens, starts, last + 1)
        invariant !bound ==> currentChar == old(currentChar) && starts == [] && tokens == []
        decreases |text| - pos.idx
      {
        ghost var hi := if bound then last + 1 else 0;
        curLn, curCol := pos.ln + 1, pos.col + 1;
        bound := true;
        ghost var start, ts := pos.idx, tokens;
        lhsSpace := Step(curLn, curCol, lhsSpace);
        StartsGrow(text, ts, tokens, starts, hi, start);
        if |tokens| > |ts| {
          starts := starts + [start];
        }
        last := start;
      }
      if !bound {
        return Fail(UnboundLocalError, "local variable 'cur_ln' referenced before assignment"), starts, last;
      }
      r := Ok((tokens + [Token(EOF, EOF, curLn, curCol)], errors));
    }
  }

  /** Each of the tokens `ts` sits at the line and column of its start index, the
      start indices lie in the text below `hi`, and they strictly increase. */
  ghost predicate StartsFit(text: string, ts: seq<Token>, starts: seq<nat>, hi: int) {
    && |starts| == |ts|
    && (forall k :: 0 <= k < |starts| ==>
          starts[k] < hi && starts[k] < |text|
          && ts[k].line == LineAt(text, starts[k]) + 1 && ts[k].column == ColumnAt(text, starts[k]) + 1)
    && (forall k, k' :: 0 <= k < k' < |starts| ==> starts[k] < starts[k'])
  }

  /** A pass of the loop that starts at index `start` and adds at most one token,
      placed there, keeps the starts in order. */
  lemma StartsGrow(text: string, ts0: seq<Token>, ts: seq<Token>, starts: seq<nat>, hi: int, start: nat)
    requires StartsFit(text, ts0, starts, hi) && hi <= start < |text|
    requires AppendedAt(ts0, ts, LineAt(text, start) + 1, ColumnAt(text, start) + 1)
    ensures StartsFit(text, ts, if |ts| > |ts0| then starts + [start] else starts, start + 1)
  {
    if |ts| == |ts0| {
      assert ts == ts0;
    } else {
      var s := starts + [start];
      forall k | 0 <= k < |s|
        ensures s[k] < start + 1 && s[k] < |text| && ts[k].line == LineAt(text, s[k]) + 1 && ts[k].column == ColumnAt(text, s[k]) + 1
      {
        if k < |starts| {
          assert s[k] == starts[k] && ts[k] == ts0[k];
        }
      }
      forall k, k' | 0 <= k < k' < |s|
        ensures s[k] < s[k']
      {
        if k' < |starts| {
          assert s[k] == starts[k] && s[k'] == starts[k'];
        }
      }
    }
  }

  /** In a list of well formed tokens under a consistent table, two identifier
      tokens have the same type exactly when they have the same name. */
  lemma RenamingConsistent(ts: seq<Token>, m: map<string, string>, order: seq<string>, next: int)
    requires IdTable(m, order, next) && TokensOk(ts, m)
    ensures forall k, k' :: 0 <= k < |ts| && 0 <= k' < |ts| && IsIdType(ts[k].token) && IsIdType(ts[k'].token) ==>
      (ts[k].lexeme == ts[k'].lexeme <==> ts[k].token == ts[k'].token)
  {
    forall k, k' | 0 <= k < |ts| && 0 <= k' < |ts| && IsIdType(ts[k].token) && IsIdType(ts[k'].token)
      ensures ts[k].lexeme == ts[k'].lexeme <==> ts[k].token == ts[k'].token
    {
      assert TokenOk(ts[k], m) && TokenOk(ts[k'], m);
      if ts[k].lexeme != ts[k'].lexeme {
        IdsDistinct(m, order, next, ts[k].lexeme, ts[k'].lexeme);
      }
    }
  }

  /** What `run` promises of a successful token list `ts` of `text`: the EOF token
      ends it, every token before it is well formed under the renaming `ids` and
      sits at the line and column of the index `starts[k]` it starts at, the starts
      increase through the text, and identifiers are renamed consistently. */
  predicate Tokenised(text: string, ts: seq<Token>, ids: map<string, string>, starts: seq<nat>) {
    && |ts| >= 1 && ts[|ts| - 1].lexeme == EOF && ts[|ts| - 1].token == EOF
    && TokensOk(ts[..|ts| - 1], ids)
    && |starts| == |ts| - 1
    && (forall k :: 0 <= k < |starts| ==>
          starts[k] < |text| && ts[k].line == LineAt(text, starts[k]) + 1 && ts[k].column == ColumnAt(text, starts[k]) + 1)
    && (forall k, k' :: 0 <= k < k' < |starts| ==> starts[k] < starts[k'])
    && (forall k, k' :: 0 <= k < |ts| - 1 && 0 <= k' < |ts| - 1 && IsIdType(ts[k].token) && IsIdType(ts[k'].token) ==>
          (ts[k].lexeme == ts[k'].lexeme <==> ts[k].token == ts[k'].token))
  }

  /** `run(fn, text)`: a fresh lexer over the text, and its `make_tokens`. An
      empty text raises; otherwise the EOF token ends the list, every token before
      it is well formed under the renaming `ids` and sits at the position of the
      index it starts at, in the order of the text, and identifiers are renamed
      consistently. */
  method Run(text: string) returns (r: Result<(seq<Token>, seq<LexError>)>, ghost ids: map<string, string>, ghost starts: seq<nat>)
    ensures r.Err? <==> text == []
    ensures r.Err? ==> r.exc.kind == UnboundLocalError
    ensures r.Ok? ==> Tokenised(text, r.value.0, ids, starts)
  {
    var lexer := new Lexer(text);
    ghost var last;
    r, starts, last := lexer.MakeTokens();
    ids := lexer.identifierMap;
    if r.Ok? {
      var ts := r.value.0;
      assert ts[..|ts| - 1] == lexer.tokens;
      RenamingConsistent(lexer.tokens, lexer.identifierMap, lexer.order, lexer.currentId);
    }
  }
}
