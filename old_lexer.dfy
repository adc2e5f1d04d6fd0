/** The older scanner of Ludus source text (lexer.py at the root of the
    repository). It has the shape of the current one: one pass over the
    characters with a position cursor, a keyword trie, a delimiter check after
    every token and the `idN` renaming. It differs in what it keeps: tokens
    carry no position, every token that passes the delimiter check is kept
    (comments included), number literals are kept as written and the list has
    no EOF token. */
module OldLexer {
  import opened Results
  import Decimal
  import Cur = Lexer

  // ---- delimiter sets -------------------------------------------------------------

  /** The delimiter sets of lexer.py. `Same(d)` is a set spelled exactly as the
      current lexer spells `d`; the others differ from their namesakes there. */
  datatype Delims =
    | Same(d: Cur.Delims)
    | CommslitDelim | FlagDelim | LparenDelim | LcurlyDelim | LbracketDelim | CommaDelim
    | NlDelim | SpaceDelim | Delim3 | Delim4 | Delim6 | Delim7 | Delim8 | Delim10

  predicate InDelims(d: Delims, c: char) {
    match d
    case Same(s) => Cur.InDelims(s, c)
    case CommslitDelim => Cur.IsWhitespace(c) || (c == ',' || c == ':' || c == '=' || c == '{' || c == ']' || c == ')')
    case FlagDelim => Cur.IsWhitespace(c) || Cur.IsArithOp(c) || (c == ',' || c == ':' || c == ']' || c == ')' || c == '=' || c == '!')
    case LparenDelim => Cur.IsAlnum(c) || (c == '_' || c == ' ' || c == '.' || c == ')' || c == '"' || c == '+' || c == '-' || c == '!' || c == '~' || c == '[')
    case LcurlyDelim => Cur.IsWhitespace(c) || Cur.IsAlnum(c) || (c == '_' || c == '{' || c == '(' || c == '~' || c == '+' || c == '-' || c == '!')
    case LbracketDelim => Cur.IsAlnum(c) || (c == '_' || c == ' ' || c == '.' || c == ']' || c == '+' || c == '-' || c == '(' || c == '"' || c == '~')
    case CommaDelim => Cur.IsAlnum(c) || Cur.IsWhitespace(c) || c == '_' || c == '['
    case NlDelim => Cur.IsWhitespace(c) || Cur.IsAlpha(c) || (c == '_' || c == '{' || c == '}' || c == '`')
    case SpaceDelim => Cur.IsWhitespace(c) || Cur.IsAlnum(c) || Cur.IsArithOp(c) || Cur.IsRelatOp(c) || (c == '_' || c == ',' || c == '.' || c == '&' || c == '|' || c == '!' || c == ':' || c == '(' || c == ')' || c == '[' || c == ']' || c == '{' || c == '}' || c == '"' || c == '`')
    case Delim3 => Cur.IsAlnum(c) || (c == '_' || c == ' ' || c == '(' || c == '"')
    case Delim4 => Cur.IsAlnum(c) || (c == '_' || c == ' ' || c == '.' || c == '(')
    case Delim6 => Cur.IsWhitespace(c) || Cur.IsAlnum(c) || (c == '_' || c == '.' || c == '"' || c == '~' || c == '+' || c == '-' || c == '(' || c == '!' || c == '[')
    case Delim7 => Cur.IsAlnum(c) || (c == ' ' || c == '_' || c == '.' || c == '(' || c == '"' || c == '!' || c == '~' || c == '+' || c == '-')
    case Delim8 => Cur.IsAlpha(c) || c == '_' || c == '('
    case Delim10 => Cur.IsAlnum(c) || (c == '_' || c == ' ' || c == '.' || c == '(' || c == '-')
  }

  // ---- tokens ---------------------------------------------------------------------

  const NOT := "NOT"
  const AND := "AND"
  const OR := "OR"

  /** `Token(lexeme, token)`: the old tokens have no position. */
  datatype Token = Token(lexeme: string, token: string)

  /** A helper's outcome: the token it built, or the error it reports. */
  datatype Scan = Scanned(tok: Token) | LexFailed(err: Cur.LexError)

  /** A token as it may appear in the list: never an EOF token, an `idN` type is
      the id of its lexeme, and a flag literal is spelled `flag_ltr`. */
  predicate TokenOk(t: Token, m: map<string, string>) {
    && t.token != Cur.EOF
    && (Cur.IsIdType(t.token) ==> t.lexeme in m && m[t.lexeme] == t.token)
    && (t.token == Cur.FLAG ==> t.lexeme == Cur.FLAG)
  }

  predicate TokensOk(ts: seq<Token>, m: map<string, string>) {
    forall k :: 0 <= k < |ts| ==> TokenOk(ts[k], m)
  }

  lemma TokensOkExtends(ts: seq<Token>, m: map<string, string>, m': map<string, string>)
    requires TokensOk(ts, m) && Cur.MapExtends(m, m')
    ensures TokensOk(ts, m')
  {
    forall k | 0 <= k < |ts| ensures TokenOk(ts[k], m') {
      assert TokenOk(ts[k], m);
    }
  }

  /** A token of a fixed type that is neither an id, nor `EOF`, nor the flag type:
      operators, punctuation, keywords, literals and comments. */
  lemma FixedTokenOk(lexeme: string, t: string, m: map<string, string>)
    requires t != [] && t[0] != 'i' && t[0] != 'E' && t[0] != 'f'
    ensures TokenOk(Token(lexeme, t), m)
  {
    assert Cur.EOF[0] == 'E' && Cur.FLAG[0] == 'f';
  }

  lemma IdTokenOk(w: string, t: string, m: map<string, string>)
    requires Cur.IsIdType(t) && w in m && m[w] == t
    ensures TokenOk(Token(w, t), m)
  {
    assert t[0] == 'i' && Cur.EOF[0] != 'i' && Cur.FLAG[0] != 'i';
  }

  /** A keyword other than `true` and `false` is its own token type. */
  lemma KeywordTokenOk(w: string, m: map<string, string>)
    requires Cur.KeywordDelims(w).Some?
    ensures TokenOk(Token(w, w), m)
  {
    Cur.KeywordIsGood(w);
    Cur.KeywordIsPlain(w);
    assert Cur.FLAG[4] == '_';
    assert !Cur.IsIdType(w);
  }

  /** `true` and `false` are both stored with lexeme and type `flag_ltr`. */
  lemma FlagTokenOk(m: map<string, string>)
    ensures TokenOk(Token(Cur.FLAG, Cur.FLAG), m)
  {
    assert Cur.FLAG[0] == 'f' && Cur.EOF[0] == 'E';
  }

  // ---- the delimiter check ----------------------------------------------------------

  /** The two lists after `process_token` of `tok` with `c` under the cursor at the
      0-based line `ln` and column `col`: the token is kept, whatever its type,
      when the character is one of `valid` (the end of the text counting as a
      newline); otherwise one invalid delimiter error is added and no token. */
  function AfterProcess(ts: seq<Token>, es: seq<Cur.LexError>, tok: Token, valid: Delims, c: Option<char>, ln: int, col: int): (r: (seq<Token>, seq<Cur.LexError>))
    ensures InDelims(valid, Cur.Cause(c)) <==> r.0 == ts + [tok]
    ensures InDelims(valid, Cur.Cause(c)) ==> r.1 == es
    ensures !InDelims(valid, Cur.Cause(c)) ==>
      && r.0 == ts && |r.1| == |es| + 1 && es <= r.1
      && r.1[|es|].kind == Cur.InvalidDelimiter(tok.lexeme, Cur.Cause(c))
  {
    if InDelims(valid, Cur.Cause(c)) then (ts + [tok], es)
    else (ts, es + [Cur.LexError(Cur.InvalidDelimiter(tok.lexeme, Cur.Cause(c)), ln + 1, Some(col + 1))])
  }

  // ---- number literals ----------------------------------------------------------------

  /** The locals of `make_number` that its loop updates. */
  datatype NumState = NumState(numStr: string, dotCount: nat, intLen: nat, decLen: nat)

  /** One character of the loop: the new locals, or an error whose text is `base`
      followed by the text from the current character up to the next number
      delimiter. */
  datatype NumOutcome = Go(next: NumState) | Stop(err: Cur.NumError, base: string)

  /** The state `make_number(num_str)` starts from, and whether it negates: the sign
      stays in `num_str`, and a point read by the caller counts as one fraction
      digit already. */
  function NumStart(prefix: Cur.NumPrefix): (NumState, bool) {
    if prefix.NoPrefix? then (NumState("", 0, 0, 0), false)
    else if prefix.Minus? then (NumState("-", 0, 0, 0), true)
    else (NumState(Cur.PrefixText(prefix), 1, 0, 1), false)
  }

  /** The body of the loop of `make_number` for the digit or point `c`: at most ten
      whole digits, and fraction digits while the count is below seven. */
  function NumStep(s: NumState, c: char): NumOutcome
    requires Cur.IsNum(c) || c == '.'
  {
    if c == '.' then
      if s.dotCount == 1 then Stop(Cur.TooManyPoints, s.numStr)
      else Go(s.(dotCount := s.dotCount + 1, numStr := s.numStr + "."))
    else if s.dotCount == 0 then
      if s.intLen < 10 then Go(s.(numStr := s.numStr + [c], intLen := s.intLen + 1))
      else Stop(Cur.WholeDigits, s.numStr)
    else if s.decLen < 7 then Go(s.(numStr := s.numStr + [c], decLen := s.decLen + 1))
    else Stop(Cur.DecimalDigits, s.numStr)
  }

  /** The loop of `make_number` on the text from index `i`: the state when a
      character other than a digit or a point comes (or the text ends), or the
      error, with the index where the loop stopped. */
  function NumRun(text: string, i: nat, s: NumState): (r: (NumOutcome, nat))
    requires i <= |text|
    ensures i <= r.1 <= |text|
    decreases |text| - i
  {
    if i < |text| && (Cur.IsNum(text[i]) || text[i] == '.') then
      match NumStep(s, text[i])
      case Stop(e, b) => (Stop(e, b), i)
      case Go(n) => NumRun(text, i + 1, n)
    else (Go(s), i)
  }

  /** The end of `make_number`: a trailing point is an error; otherwise the token
      is `num_str` as read, typed by its sign and its point. The error column is
      that of the first character of `num_str`. */
  function FinishNumber(s: NumState, negate: bool, ln: int, col: int): Scan {
    if s.dotCount > 0 && s.numStr != [] && s.numStr[|s.numStr| - 1] == '.' then
      LexFailed(Cur.LexError(Cur.TrailingDecimalPoint(s.numStr), ln + 1, Some(col - |s.numStr| + 1)))
    else Scanned(Token(s.numStr, NumberType(negate, s.dotCount > 0)))
  }

  function NumberType(negate: bool, dot: bool): string {
    if negate then (if dot then Cur.NXP else Cur.NHP) else (if dot then Cur.XP else Cur.HP)
  }

  /** The error `make_number` reports when its loop stops at index `e`: the cursor
      skips to the next number delimiter, and the text is what `num_str` held and
      what was skipped. */
  function NumberFailure(text: string, e: nat, err: Cur.NumError, base: string): (r: (Scan, nat))
    requires e <= |text|
    ensures e <= r.1 == Cur.SkipEnd(text, e, Cur.NumlitDelim) <= |text|
  {
    var j := Cur.SkipEnd(text, e, Cur.NumlitDelim);
    var t := base + text[e..j];
    (LexFailed(Cur.LexError(Cur.NumErrorKind(err, t), Cur.LineAt(text, j) + 1, Some(Cur.ColumnAt(text, j) - |t| + 1))), j)
  }

  /** `make_number` on the text from index `i`, `prefix` being what the caller has
      read: the token or error, and the index the cursor ends at. */
  function ScanNumber(text: string, i: nat, prefix: Cur.NumPrefix): (r: (Scan, nat))
    requires i <= |text|
    ensures i <= r.1 <= |text|
  {
    var st, negate := NumStart(prefix).0, NumStart(prefix).1;
    var out, e := NumRun(text, i, st).0, NumRun(text, i, st).1;
    if out.Stop? then NumberFailure(text, e, out.err, out.base)
    else (FinishNumber(out.next, negate, Cur.LineAt(text, e), Cur.ColumnAt(text, e)), e)
  }

  // ---- what `make_number` gives ---------------------------------------------------

  /** `num_str` without its sign. */
  function Body(s: string, neg: bool): string {
    if neg && s != [] then s[1..] else s
  }

  lemma BodyAppend(s: string, neg: bool, x: string)
    requires neg ==> s != []
    ensures Body(s + x, neg) == Body(s, neg) + x
  {
    if neg {
      assert (s + x)[1..] == s[1..] + x;
    }
  }

  /** The lexeme of a number token of lexer.py: an optional sign, at most ten whole
      digits (possibly none before a point) and, after a point, one to seven
      fraction digits; the type says whether the sign and the point are there. */
  predicate NumberShape(t: Token) {
    var neg := t.lexeme != [] && t.lexeme[0] == '-';
    var b := Body(t.lexeme, neg);
    var k := Decimal.DotIndex(b);
    && t.token == NumberType(neg, k < |b|)
    && Decimal.AllDigits(b[..k]) && |b[..k]| <= 10
    && (k < |b| ==> 1 <= |b[k + 1..]| <= 7 && Decimal.AllDigits(b[k + 1..]))
    && (k == |b| ==> b != [])
  }

  /** `num_str` between two characters of the loop: the sign when negating, then
      at least one character, at most ten whole digits and, once the point is read,
      no more fraction digits than `dec_len` counts. */
  predicate StateOk(s: NumState, neg: bool) {
    && (neg ==> s.numStr != [] && s.numStr[0] == '-')
    && Body(s.numStr, neg) != []
    && s.dotCount <= 1 && s.decLen <= 7
    && var b := Body(s.numStr, neg); var k := Decimal.DotIndex(b);
       && (s.dotCount == 1 <==> k < |b|)
       && Decimal.AllDigits(b[..k]) && |b[..k]| == s.intLen <= 10
       && (k < |b| ==> Decimal.AllDigits(b[k + 1..]) && |b[k + 1..]| <= s.decLen)
  }

  /** A step that goes on appends the character read and keeps the state well
      formed; a step that stops reports `num_str` as it was. */
  lemma StepOk(s: NumState, c: char, neg: bool)
    requires StateOk(s, neg) && (Cur.IsNum(c) || c == '.')
    ensures NumStep(s, c).Go? ==> StateOk(NumStep(s, c).next, neg) && NumStep(s, c).next.numStr == s.numStr + [c]
    ensures NumStep(s, c).Stop? ==> NumStep(s, c).base == s.numStr
  {
    if NumStep(s, c).Go? {
      BodyAppend(s.numStr, neg, [c]);
      if c == '.' {
        PointOk(s, neg);
      } else if s.dotCount == 0 {
        WholeOk(s, c, neg);
      } else {
        FracOk(s, c, neg);
      }
    }
  }

  lemma PointOk(s: NumState, neg: bool)
    requires StateOk(s, neg) && s.dotCount == 0
    requires Body(s.numStr + ".", neg) == Body(s.numStr, neg) + "."
    ensures StateOk(NumStep(s, '.').next, neg)
  {
    var b := Body(s.numStr, neg);
    var b' := b + ".";
    assert b[..Decimal.DotIndex(b)] == b;
    Cur.DotIndexAfterDigits(b, "");
    assert b + "." + "" == b';
    assert b'[..|b|] == b;
    assert b'[|b| + 1..] == [];
  }

  lemma WholeOk(s: NumState, c: char, neg: bool)
    requires StateOk(s, neg) && s.dotCount == 0 && Cur.IsNum(c) && s.intLen < 10
    requires Body(s.numStr + [c], neg) == Body(s.numStr, neg) + [c]
    ensures StateOk(NumStep(s, c).next, neg)
  {
    var b := Body(s.numStr, neg);
    var b' := b + [c];
    assert b[..Decimal.DotIndex(b)] == b;
    assert Decimal.AllDigits(b');
    Decimal.NoDotInDigits(b');
    assert b'[..|b'|] == b';
  }

  lemma FracOk(s: NumState, c: char, neg: bool)
    requires StateOk(s, neg) && s.dotCount == 1 && Cur.IsNum(c) && s.decLen < 7
    requires Body(s.numStr + [c], neg) == Body(s.numStr, neg) + [c]
    ensures StateOk(NumStep(s, c).next, neg)
  {
    Cur.FracAppend(Body(s.numStr, neg), [c]);
  }

  /** The loop reads the text into `num_str` as it is and keeps the state well
      formed; it stops at a digit or a point only on an error. */
  lemma {:induction false} RunOk(text: string, i: nat, s: NumState, neg: bool)
    requires i <= |text| && StateOk(s, neg)
    ensures RunGoesOk(text, i, s, neg)
    decreases |text| - i
  {
    if i < |text| && (Cur.IsNum(text[i]) || text[i] == '.') {
      StepOk(s, text[i], neg);
      var o := NumStep(s, text[i]);
      if o.Go? {
        RunOk(text, i + 1, o.next, neg);
        var r := NumRun(text, i + 1, o.next);
        assert NumRun(text, i, s) == r;
        ReadOne(s.numStr, text, i, r.1);
      }
    } else {
      assert text[i..i] == [];
    }
  }

  /** On an error the loop reports what it read before the character that
      failed. */
  lemma {:induction false} RunStops(text: string, i: nat, s: NumState, neg: bool)
    requires i <= |text| && StateOk(s, neg)
    ensures RunStopsOk(text, i, s)
    decreases |text| - i
  {
    if i < |text| && (Cur.IsNum(text[i]) || text[i] == '.') {
      StepOk(s, text[i], neg);
      var o := NumStep(s, text[i]);
      if o.Stop? {
        assert text[i..i] == [];
      } else {
        RunStops(text, i + 1, o.next, neg);
        var r := NumRun(text, i + 1, o.next);
        assert NumRun(text, i, s) == r;
        ReadOne(s.numStr, text, i, r.1);
      }
    }
  }

  /** Reading one more character of the text and then the rest up to `e`. */
  lemma ReadOne(acc: string, text: string, i: nat, e: nat)
    requires i < e <= |text|
    ensures acc + [text[i]] + text[i + 1..e] == acc + text[i..e]
  {
    assert text[i..e] == [text[i]] + text[i + 1..e];
  }

  /** A loop that ends without error leaves a well formed state holding what it
      read, at a character that is neither a digit nor a point. */
  predicate RunGoesOk(text: string, i: nat, s: NumState, neg: bool)
    requires i <= |text|
  {
    var r := NumRun(text, i, s);
    r.0.Go? ==>
      && StateOk(r.0.next, neg) && r.0.next.numStr == s.numStr + text[i..r.1]
      && (r.1 == |text| || !(Cur.IsNum(text[r.1]) || text[r.1] == '.'))
  }

  /** A loop that ends on an error reports what it read before the character
      that failed. */
  predicate RunStopsOk(text: string, i: nat, s: NumState)
    requires i <= |text|
  {
    var r := NumRun(text, i, s);
    r.0.Stop? ==> r.0.base == s.numStr + text[i..r.1] && r.1 < |text|
  }

  /** A finished well formed state gives `num_str` itself as the lexeme, in the
      number shape, unless it ends with the point. */
  lemma FinishOk(s: NumState, neg: bool, ln: int, col: int)
    requires StateOk(s, neg)
    ensures var r := FinishNumber(s, neg, ln, col);
      && (r.Scanned? ==> r.tok.lexeme == s.numStr && r.tok.token == NumberType(neg, s.dotCount > 0) && NumberShape(r.tok))
      && (r.LexFailed? ==> r.err.kind.TrailingDecimalPoint?)
  {
    var b := Body(s.numStr, neg);
    var k := Decimal.DotIndex(b);
    if k > 0 {
      assert b[0] == b[..k][0];
    }
    assert (s.numStr != [] && s.numStr[0] == '-') == neg;
    if k < |b| && s.numStr[|s.numStr| - 1] != '.' {
      assert b[|b| - 1] == s.numStr[|s.numStr| - 1];
      assert b[k + 1..] != [];
    }
  }

  /** A number token read from index `i` to `e` after the text `pre`: its lexeme
      is exactly what was read, it ends at a character that cannot continue a
      number, it has the number shape, and it is negative exactly when `neg`. */
  predicate ScannedOk(text: string, i: nat, e: nat, pre: string, r: Scan, neg: bool)
    requires i <= e <= |text|
  {
    r.Scanned? ==>
      && r.tok.lexeme == pre + text[i..e]
      && (e == |text| || !(Cur.IsNum(text[e]) || text[e] == '.'))
      && NumberShape(r.tok)
      && (r.tok.token == Cur.NHP || r.tok.token == Cur.NXP <==> neg)
  }

  /** The loop and the end of `make_number` from a well formed state. */
  lemma ScanFrom(text: string, i: nat, st: NumState, neg: bool, pre: string, i0: nat)
    requires i0 <= i <= |text| && StateOk(st, neg) && st.numStr == pre + text[i0..i]
    ensures var (out, e) := NumRun(text, i, st);
      out.Go? ==> ScannedOk(text, i0, e, pre, FinishNumber(out.next, neg, Cur.LineAt(text, e), Cur.ColumnAt(text, e)), neg)
  {
    RunOk(text, i, st, neg);
    var out, e := NumRun(text, i, st).0, NumRun(text, i, st).1;
    if out.Go? {
      calc {
        out.next.numStr;
        st.numStr + text[i..e];
        pre + text[i0..i] + text[i..e];
        { assert text[i0..e] == text[i0..i] + text[i..e]; }
        pre + text[i0..e];
      }
      FinishScanned(text, i0, e, pre, out.next, neg, Cur.LineAt(text, e), Cur.ColumnAt(text, e));
    }
  }

  /** Finishing a well formed state that holds what was read gives a number
      token of the right shape and sign. */
  lemma FinishScanned(text: string, i0: nat, e: nat, pre: string, s: NumState, neg: bool, ln: int, col: int)
    requires i0 <= e <= |text| && StateOk(s, neg) && s.numStr == pre + text[i0..e]
    requires e == |text| || !(Cur.IsNum(text[e]) || text[e] == '.')
    ensures ScannedOk(text, i0, e, pre, FinishNumber(s, neg, ln, col), neg)
  {
    var r := FinishNumber(s, neg, ln, col);
    FinishOk(s, neg, ln, col);
    if r.Scanned? {
      Cur.NumberTypesDistinct();
      assert r.tok.token == Cur.NHP || r.tok.token == Cur.NXP <==> neg;
    }
  }

  /** What `make_number` gives when `make_tokens` calls it: a token whose lexeme is
      the prefix the caller read followed by the text the loop read, exactly as
      written (a sign is kept, zeros are not dropped), of the number shape and
      negative exactly after a `-`; or a number error. A `-` or a first digit is
      always read past. */
  lemma ScanNumberOk(text: string, i: nat, prefix: Cur.NumPrefix)
    requires i <= |text|
    requires prefix.NoPrefix? ==> i < |text| && Cur.IsNum(text[i])
    requires prefix.Minus? ==> i < |text| && (Cur.IsNum(text[i]) || text[i] == '.')
    requires prefix.PointDigit? ==> Cur.IsNum(prefix.d)
    ensures prefix.NoPrefix? || prefix.Minus? ==> ScanNumber(text, i, prefix).1 > i
    ensures ScannedOk(text, i, ScanNumber(text, i, prefix).1, Cur.PrefixText(prefix), ScanNumber(text, i, prefix).0, prefix.Minus?)
    ensures ScanNumber(text, i, prefix).0.LexFailed? ==> Cur.IsNumberError(ScanNumber(text, i, prefix).0.err.kind)
  {
    var st, neg := NumStart(prefix).0, NumStart(prefix).1;
    if prefix.NoPrefix? || prefix.Minus? {
      FirstStepOk(text, i, prefix);
      ScanFrom(text, i + 1, NumStep(st, text[i]).next, neg, Cur.PrefixText(prefix), i);
    } else {
      assert StateOk(st, false);
      assert text[i..i] == [];
      ScanFrom(text, i, st, false, Cur.PrefixText(prefix), i);
    }
  }

  /** The character `make_tokens` has seen to be a digit or a point is always
      read into `num_str`. */
  lemma FirstStepOk(text: string, i: nat, prefix: Cur.NumPrefix)
    requires prefix.NoPrefix? ==> i < |text| && Cur.IsNum(text[i])
    requires prefix.Minus? ==> i < |text| && (Cur.IsNum(text[i]) || text[i] == '.')
    requires prefix.NoPrefix? || prefix.Minus?
    ensures var st, neg := NumStart(prefix).0, NumStart(prefix).1;
      && NumStep(st, text[i]).Go?
      && StateOk(NumStep(st, text[i]).next, neg)
      && NumStep(st, text[i]).next.numStr == Cur.PrefixText(prefix) + text[i..i + 1]
      && NumRun(text, i, st) == NumRun(text, i + 1, NumStep(st, text[i]).next)
  {
    var st, neg := NumStart(prefix).0, NumStart(prefix).1;
    var c := text[i];
    var n := NumStep(st, c).next;
    assert n.numStr == st.numStr + [c];
    BodyAppend(st.numStr, neg, [c]);
    if c != '.' {
      Decimal.NoDotInDigits([c]);
    }
    assert text[i..i + 1] == [c];
  }

  /** Digits past the tenth before any point stop the loop with the whole-digits
      error. */
  lemma {:induction false} WholeDigitsCapped(text: string, i: nat, s: NumState, j: nat)
    requires i + j <= |text| && s.dotCount == 0 && s.intLen <= 10 && s.intLen + j > 10
    requires forall k :: i <= k < i + j ==> Cur.IsNum(text[k])
    ensures NumRun(text, i, s).0.Stop? && NumRun(text, i, s).0.err == Cur.WholeDigits
    decreases j
  {
    if s.intLen < 10 {
      WholeDigitsCapped(text, i + 1, NumStep(s, text[i]).next, j - 1);
    }
  }

  /** Fraction digits past the count of seven stop the loop with the
      decimal-digits error. */
  lemma {:induction false} FractionDigitsCapped(text: string, i: nat, s: NumState, j: nat)
    requires i + j <= |text| && s.dotCount == 1 && s.decLen <= 7 && s.decLen + j > 7
    requires forall k :: i <= k < i + j ==> Cur.IsNum(text[k])
    ensures NumRun(text, i, s).0.Stop? && NumRun(text, i, s).0.err == Cur.DecimalDigits
    decreases j
  {
    if s.decLen < 7 {
      FractionDigitsCapped(text, i + 1, NumStep(s, text[i]).next, j - 1);
    }
  }

  /** Eleven digits in a row are not a number: `make_number` reports the whole
      digits error. */
  lemma ElevenDigitsRejected(text: string, i: nat)
    requires i + 11 <= |text| && forall k :: i <= k < i + 11 ==> Cur.IsNum(text[k])
    ensures ScanNumber(text, i, Cur.NoPrefix).0.LexFailed?
    ensures ScanNumber(text, i, Cur.NoPrefix).0.err.kind.MaxWholeDigits?
  {
    WholeDigitsCapped(text, i, NumStart(Cur.NoPrefix).0, 11);
  }

  /** Eight fraction digits are not a number: after `.d` read by the caller, seven
      more digits give the decimal digits error. */
  lemma EightFractionDigitsRejected(text: string, i: nat, d: char)
    requires i + 7 <= |text| && forall k :: i <= k < i + 7 ==> Cur.IsNum(text[k])
    ensures ScanNumber(text, i, Cur.PointDigit(d)).0.LexFailed?
    ensures ScanNumber(text, i, Cur.PointDigit(d)).0.err.kind.MaxDecimalDigits?
  {
    FractionDigitsCapped(text, i, NumStart(Cur.PointDigit(d)).0, 7);
  }

  /** After a bare `.` read by the caller (a point before 7, 8 or 9) the count
      of fraction digits starts at one although none was read, so seven digits
      are already too many there. */
  lemma SevenDigitsAfterPointRejected(text: string, i: nat)
    requires i + 7 <= |text| && forall k :: i <= k < i + 7 ==> Cur.IsNum(text[k])
    ensures ScanNumber(text, i, Cur.Point).0.LexFailed?
    ensures ScanNumber(text, i, Cur.Point).0.err.kind.MaxDecimalDigits?
  {
    FractionDigitsCapped(text, i, NumStart(Cur.Point).0, 7);
  }

  /** Whereas `.1234567`, whose first fraction digit the caller read, is a
      number. */
  lemma SevenDigitsAfterPointDigit()
    ensures ScanNumber("234567", 0, Cur.PointDigit('1')) == (Scanned(Token(".1234567", Cur.XP)), 6)
  {
    var t := "234567";
    assert ".1" + [t[0]] == ".12";
    assert NumRun(t, 0, NumState(".1", 1, 0, 1)) == NumRun(t, 1, NumState(".12", 1, 0, 2));
    assert ".12" + [t[1]] == ".123";
    assert NumRun(t, 1, NumState(".12", 1, 0, 2)) == NumRun(t, 2, NumState(".123", 1, 0, 3));
    assert ".123" + [t[2]] == ".1234";
    assert NumRun(t, 2, NumState(".123", 1, 0, 3)) == NumRun(t, 3, NumState(".1234", 1, 0, 4));
    assert ".1234" + [t[3]] == ".12345";
    assert NumRun(t, 3, NumState(".1234", 1, 0, 4)) == NumRun(t, 4, NumState(".12345", 1, 0, 5));
    assert ".12345" + [t[4]] == ".123456";
    assert NumRun(t, 4, NumState(".12345", 1, 0, 5)) == NumRun(t, 5, NumState(".123456", 1, 0, 6));
    assert ".123456" + [t[5]] == ".1234567";
    assert NumRun(t, 5, NumState(".123456", 1, 0, 6)) == NumRun(t, 6, NumState(".1234567", 1, 0, 7));
  }

  /** `-0` keeps its sign and is a negative whole number. */
  lemma NegativeZeroKept()
    ensures ScanNumber("0", 0, Cur.Minus) == (Scanned(Token("-0", Cur.NHP)), 1)
  {
    var s := NumStart(Cur.Minus).0;
    assert NumStep(s, '0') == Go(NumState("-0", 0, 1, 0));
    assert NumRun("0", 0, s) == NumRun("0", 1, NumState("-0", 0, 1, 0));
  }

  // ---- comms literals -------------------------------------------------------------

  /** `make_string`, whose loop is the current lexer's, with the opening quote at
      index `i`: the comms token or the unclosed string error, and the index the
      cursor ends at. */
  function ScanString(text: string, i: nat): (r: (Scan, nat))
    requires i < |text|
    ensures i < r.1 <= |text|
  {
    var run := Cur.StringRun(text, i + 1, "", false);
    match run.0
    case Closed(body) => (Scanned(Token("\"" + body + "\"", Cur.COMMS)), run.1)
    case Unclosed(body) =>
      (LexFailed(Cur.LexError(Cur.UnclosedString(body), Cur.LineAt(text, run.1) + 1, Some(Cur.ColumnAt(text, run.1) - |body|))), run.1)
  }

  /** A comms literal written with `Quote`, whatever follows it, is read back as one
      comms token holding `s` between quotes, and the cursor ends just past it. */
  lemma QuoteRoundTrip(s: string, rest: string)
    ensures ScanString(Cur.Quote(s) + rest, 0) == (Scanned(Token("\"" + s + "\"", Cur.COMMS)), |Cur.Quote(s)|)
  {
    var text := Cur.Quote(s) + rest;
    assert text == "\"" + Cur.Escape(s) + "\"" + rest;
    Cur.EscapedIn("\"", s, rest);
    Cur.EscapeRead(text, 1, s, "");
    assert "" + s == s;
  }

  /** A string that meets a newline before its closing quote is an error, whatever
      follows the newline. */
  lemma NewlineEndsString(s: string, rest: string)
    requires forall k :: 0 <= k < |s| ==> s[k] != '"' && s[k] != '\\' && s[k] != '\n'
    ensures var text := "\"" + s + "\n" + rest;
      ScanString(text, 0).0.LexFailed? && ScanString(text, 0).0.err.kind == Cur.UnclosedString(s)
  {
    var text := "\"" + s + "\n" + rest;
    PlainStringRun(text, 1, s, "");
    assert text[1 + |s|] == '\n';
    assert "" + s == s;
  }

  /** Plain characters are read as they are. */
  lemma {:induction false} PlainStringRun(text: string, i: nat, s: string, body: string)
    requires i + |s| <= |text| && text[i..i + |s|] == s
    requires forall k :: 0 <= k < |s| ==> s[k] != '"' && s[k] != '\\' && s[k] != '\n'
    ensures Cur.StringRun(text, i, body, false) == Cur.StringRun(text, i + |s|, body + s, false)
    decreases |s|
  {
    if s != [] {
      assert text[i] == s[0];
      assert text[i + 1..i + 1 + |s[1..]|] == s[1..];
      PlainStringRun(text, i + 1, s[1..], body + [s[0]]);
      assert body + [s[0]] + s[1..] == body + s;
    } else {
      assert body + s == body;
    }
  }

  // ---- comments -------------------------------------------------------------------

  /** The characters Python's `str.isspace` accepts, which `strip()` removes. */
  predicate IsPySpace(c: char) {
    || c == ' ' || ('\t' <= c <= '\r') || ('\U{1c}' <= c <= '\U{1f}') || c == '\U{85}' || c == '\U{a0}'
    || c == '\U{1680}' || ('\U{2000}' <= c <= '\U{200a}') || c == '\U{2028}' || c == '\U{2029}'
    || c == '\U{202f}' || c == '\U{205f}' || c == '\U{3000}'
  }

  /** `s` without its leading white space: a suffix of `s`. */
  function TrimLeft(s: string): (r: string)
    ensures |r| <= |s| && r == s[|s| - |r|..]
  {
    if s != [] && IsPySpace(s[0]) then TrimLeft(s[1..]) else s
  }

  /** `s` without its trailing white space: a prefix of `s`. */
  function TrimRight(s: string): (r: string)
    ensures |r| <= |s| && r == s[..|r|]
  {
    if s != [] && IsPySpace(s[|s| - 1]) then TrimRight(s[..|s| - 1]) else s
  }

  /** The left trim removes exactly the leading white space: all it drops is
      white space, and what it keeps does not start with any. */
  lemma {:induction false} TrimLeftStops(s: string)
    ensures TrimLeft(s) == [] || !IsPySpace(TrimLeft(s)[0])
    ensures forall k :: 0 <= k < |s| - |TrimLeft(s)| ==> IsPySpace(s[k])
  {
    if s != [] && IsPySpace(s[0]) {
      TrimLeftStops(s[1..]);
      forall k | 0 < k < |s| - |TrimLeft(s)| ensures IsPySpace(s[k]) {
        assert s[k] == s[1..][k - 1];
      }
    }
  }

  /** The right trim removes exactly the trailing white space: all it drops is
      white space, and what it keeps does not end with any. */
  lemma {:induction false} TrimRightStops(s: string)
    ensures TrimRight(s) == [] || !IsPySpace(TrimRight(s)[|TrimRight(s)| - 1])
    ensures forall k :: |TrimRight(s)| <= k < |s| ==> IsPySpace(s[k])
  {
    if s != [] && IsPySpace(s[|s| - 1]) {
      TrimRightStops(s[..|s| - 1]);
      forall k | |TrimRight(s)| <= k < |s| - 1 ensures IsPySpace(s[k]) {
        assert s[k] == s[..|s| - 1][k];
      }
    }
  }

  /** `s.strip()`. */
  function Strip(s: string): string {
    TrimRight(TrimLeft(s))
  }

  /** `strip()` keeps a slice of its argument, cut where the white space at both
      ends stops: what it drops is white space, and what it keeps starts and ends
      with other characters. */
  lemma StripSlice(s: string) returns (i: nat)
    ensures i + |Strip(s)| <= |s| && Strip(s) == s[i..i + |Strip(s)|]
    ensures forall k :: 0 <= k < i ==> IsPySpace(s[k])
    ensures forall k :: i + |Strip(s)| <= k < |s| ==> IsPySpace(s[k])
    ensures Strip(s) != [] ==> !IsPySpace(Strip(s)[0]) && !IsPySpace(Strip(s)[|Strip(s)| - 1])
  {
    i := |s| - |TrimLeft(s)|;
    TrimLeftStops(s);
    StripKeeps(s, i);
    StripDropsRight(s, i);
    StripEnds(s);
  }

  /** What `strip()` keeps is the slice from `i` on, where the leading white
      space stops. */
  lemma StripKeeps(s: string, i: nat)
    requires i == |s| - |TrimLeft(s)|
    ensures i + |Strip(s)| <= |s| && Strip(s) == s[i..i + |Strip(s)|]
  {
    var l := TrimLeft(s);
    PrefixOfSuffix(s, i, l, TrimRight(l));
  }

  /** A prefix of the suffix from `i` is the slice from `i`. */
  lemma PrefixOfSuffix(s: string, i: nat, l: string, r: string)
    requires i <= |s| && l == s[i..] && |r| <= |l| && r == l[..|r|]
    ensures i + |r| <= |s| && r == s[i..i + |r|]
  {
  }

  /** What `strip()` drops after the slice it keeps is white space. */
  lemma StripDropsRight(s: string, i: nat)
    requires i == |s| - |TrimLeft(s)|
    ensures forall k :: i + |Strip(s)| <= k < |s| ==> IsPySpace(s[k])
  {
    var l := TrimLeft(s);
    TrimRightStops(l);
    SpaceAfter(s, i, l, |TrimRight(l)|);
  }

  /** White space in the suffix from `i` on, from index `n` of the suffix, is
      white space of the whole text from `i + n`. */
  lemma SpaceAfter(s: string, i: nat, l: string, n: nat)
    requires i <= |s| && l == s[i..] && n <= |l|
    requires forall k :: n <= k < |l| ==> IsPySpace(l[k])
    ensures forall k :: i + n <= k < |s| ==> IsPySpace(s[k])
  {
    forall k | i + n <= k < |s| ensures IsPySpace(s[k]) {
      assert s[k] == l[k - i];
    }
  }

  /** A non-empty stripped text starts and ends with other characters. */
  lemma StripEnds(s: string)
    ensures Strip(s) != [] ==> !IsPySpace(Strip(s)[0]) && !IsPySpace(Strip(s)[|Strip(s)| - 1])
  {
    var l := TrimLeft(s);
    var r := TrimRight(l);
    TrimLeftStops(s);
    TrimRightStops(l);
    if r != [] {
      assert r[0] == l[0];
    }
  }

  /** Stripping twice is stripping once. */
  lemma StripIdempotent(s: string)
    ensures Strip(Strip(s)) == Strip(s)
  {
    var i := StripSlice(s);
    var r := Strip(s);
    assert TrimLeft(r) == r;
  }

  // ---- the branches that differ from the current lexer ---------------------------------

  /** The delimiters of the one-character tokens `^ : ( ) [ ] { } ,`. */
  function SingleDelims(c: char): Delims {
    match c
    case '^' => Delim4
    case ':' => Delim6
    case '(' => LparenDelim
    case ')' => Same(Cur.RparenDelim)
    case '[' => LbracketDelim
    case ']' => Same(Cur.RbracketDelim)
    case '{' => LcurlyDelim
    case '}' => Same(Cur.RcurlyDelim)
    case _ => CommaDelim
  }

  /** The type `token_map` gives `*`, `/`, `%`, `<` and `>`, with or without the `=`
      after it: the lexeme itself for the first three, and for the comparisons the
      type of the other lexeme (`<=` is typed `<` and `<` is typed `<=`). */
  function CompareType(c: char, withEq: bool): string {
    if c == '<' || c == '>' then (if withEq then [c] else [c, '='])
    else if withEq then [c, '='] else [c]
  }

  /** `&&` and `||` are typed `AND` and `OR`; `==` is its own type. */
  function DoubledType(c: char): string {
    if c == '&' then AND else if c == '|' then OR else [c, c]
  }

  function DoubledDelims(c: char): Delims {
    if c == '=' then Delim7 else Same(Cur.Just(' '))
  }

  /** The words after which the trie tests the next character with `in ALPHANUM`
      without first testing for the end of the text. */
  predicate UnguardedWord(w: string) {
    w == "true" || w == "false" || w == "load" || w == "shoot"
  }

  /** Where a multi-line comment whose text starts at index `i` ends: past the
      first three backticks in a row, or nowhere when the text ends first. */
  function CommentEnd(text: string, i: nat): (e: Option<nat>)
    requires i <= |text|
    ensures e.Some? ==> i + 3 <= e.value <= |text|
  {
    CommentRunBounds(text, i);
    Cur.CommentRun(text, i)
  }

  lemma {:induction false} CommentRunBounds(text: string, i: nat)
    requires i <= |text|
    ensures Cur.CommentRun(text, i).Some? ==> i + 3 <= Cur.CommentRun(text, i).value <= |text|
    decreases |text| - i
  {
    if i < |text| {
      if text[i] == '`' {
        var k := Cur.Ticks(text, i, 3);
        if k < 3 {
          CommentRunBounds(text, i + k);
        }
      } else {
        CommentRunBounds(text, i + 1);
      }
    }
  }

  /** The unguarded words are all words of the trie. */
  lemma UnguardedAreKeywords(w: string)
    requires UnguardedWord(w)
    ensures Cur.KeywordDelims(w).Some?
  {
    assert Cur.Keywords[12].0 == "false" && Cur.Keywords[37].0 == "true";
    assert Cur.Keywords[26].0 == "load" && Cur.Keywords[33].0 == "shoot";
  }

  lemma UnguardedAreKeywordsNot(w: string)
    ensures Cur.KeywordDelims(w).None? ==> !UnguardedWord(w)
  {
    if UnguardedWord(w) {
      UnguardedAreKeywords(w);
    }
  }

  /** How a pass of the loop of `make_tokens` ends: the loop goes on, Python
      raises (a `None` tested with `in` against a string), or the method returns
      `None` (an incomplete opener of a multi-line comment). */
  datatype Halt = Going | Crashed | Stopped

  /** `tokens` grew by at most one token. */
  predicate Grew(ts0: seq<Token>, ts: seq<Token>) {
    ts0 <= ts && |ts| <= |ts0| + 1
  }

  /** `Lexer`. The `tokens` and `errors` fields are the two lists `make_tokens`
      creates and hands to every helper, which append to them. */
  class Lexer {
    const text: string
    const pos: Cur.Position
    var currentChar: Option<char>
    var prevChar: Option<char>
    var identifierMap: map<string, string>
    var currentId: int
    ghost var order: seq<string>
    var tokens: seq<Token>
    var errors: seq<Cur.LexError>

    /** The cursor reads the text: the current and previous characters are the ones
        at and before `pos.idx`, and inside the text `pos` holds the real line and
        column. */
    ghost predicate CursorOk()
      reads this`currentChar, this`prevChar, pos
    {
      && 0 <= pos.idx
      && currentChar == Cur.CharAt(text, pos.idx)
      && prevChar == Cur.CharAt(text, pos.idx - 1)
      && pos.ln >= 0 && pos.col >= 0
      && (pos.idx <= |text| ==> pos.ln == Cur.LineAt(text, pos.idx) && pos.col == Cur.ColumnAt(text, pos.idx))
    }

    /** The renaming table is consistent and every listed token is well formed. */
    ghost predicate ListsOk()
      reads this`identifierMap, this`order, this`currentId, this`tokens
    {
      Cur.IdTable(identifierMap, order, currentId) && TokensOk(tokens, identifierMap)
    }

    ghost predicate Valid()
      reads this, pos
    {
      CursorOk() && ListsOk()
    }

    /** `Lexer(fn, text)`: the position starts before the text and one `advance`
        moves it to the first character. */
    constructor (text: string)
      ensures Valid() && this.text == text
      ensures pos.idx == 0 && pos.ln == 0 && pos.col == 0
      ensures fresh(pos)
      ensures currentChar == Cur.CharAt(text, 0) && prevChar == None
      ensures identifierMap == map[] && currentId == 1 && tokens == [] && errors == []
    {
      this.text := text;
      pos := new Cur.Position(-1, 0, -1);
      identifierMap := map[];
      currentId := 1;
      order := [];
      currentChar := None;
      prevChar := None;
      tokens := [];
      errors := [];
      new;
      Advance();
    }

    /** `advance`: the current character becomes the previous one, and the cursor
        moves one position. */
    method Advance()
      requires pos.idx < 0 || CursorOk()
      requires pos.idx < 0 ==> pos.idx == -1 && pos.ln == 0 && pos.col == -1 && currentChar == None
      modifies this`currentChar, this`prevChar, pos
      ensures CursorOk()
      ensures pos.idx == old(pos.idx) + 1
      ensures prevChar == old(currentChar) && currentChar == Cur.CharAt(text, pos.idx)
    {
      prevChar := currentChar;
      pos.Advance(currentChar);
      currentChar := if pos.idx < |text| then Some(text[pos.idx]) else None;
    }

    /** `identifiers`: the id already given to `idStr`, or the next one. */
    method Identifiers(idStr: string) returns (id: string)
      requires Cur.IdTable(identifierMap, order, currentId)
      modifies this`identifierMap, this`currentId, this`order
      ensures Cur.IdTable(identifierMap, order, currentId)
      ensures Cur.MapExtends(old(identifierMap), identifierMap)
      ensures idStr in identifierMap && identifierMap[idStr] == id
      ensures idStr in old(identifierMap) ==> id == old(identifierMap)[idStr] && identifierMap == old(identifierMap) && currentId == old(currentId)
      ensures idStr !in old(identifierMap) ==>
        && id == Cur.IdName(old(currentId)) && identifierMap == old(identifierMap)[idStr := id]
        && order == old(order) + [idStr] && currentId == old(currentId) + 1
    {
      if idStr !in identifierMap {
        Cur.IdTableGrows(identifierMap, order, currentId, idStr);
        identifierMap := identifierMap[idStr := Cur.IdName(currentId)];
        order := order + [idStr];
        currentId := currentId + 1;
      }
      return identifierMap[idStr];
    }

    /** `process_token`: the outcome is `AfterProcess` of the character under the
        cursor; the cursor stays on it when the token is kept and moves past it
        otherwise. */
    method ProcessToken(lexeme: string, token: string, valid: Delims)
      requires Valid() && TokenOk(Token(lexeme, token), identifierMap)
      modifies this`currentChar, this`prevChar, pos, this`tokens, this`errors
      ensures Valid()
      ensures (tokens, errors) == AfterProcess(old(tokens), old(errors), Token(lexeme, token), valid, old(currentChar), old(pos.ln), old(pos.col))
      ensures InDelims(valid, Cur.Cause(old(currentChar))) ==> pos.idx == old(pos.idx) && currentChar == old(currentChar)
      ensures !InDelims(valid, Cur.Cause(old(currentChar))) ==> pos.idx == old(pos.idx) + 1
      ensures Grew(old(tokens), tokens)
    {
      // The source's two error branches (a newline or the end, then any other
      // character) are one test of `Cause`.
      var cause := Cur.Cause(currentChar);
      if !InDelims(valid, cause) {
        errors := errors + [Cur.LexError(Cur.InvalidDelimiter(lexeme, cause), pos.ln + 1, Some(pos.col + 1))];
        Advance();
      } else {
        tokens := tokens + [Token(lexeme, token)];
      }
    }

    /** `AfterProcess` for the lexeme ending at index `e` of the text. */
    ghost function Processed(ts: seq<Token>, es: seq<Cur.LexError>, tok: Token, valid: Delims, e: nat): (seq<Token>, seq<Cur.LexError>)
      requires e <= |text|
    {
      AfterProcess(ts, es, tok, valid, Cur.CharAt(text, e), Cur.LineAt(text, e), Cur.ColumnAt(text, e))
    }

    // ---- identifiers and keywords -------------------------------------------------

    /** Appends characters up to the next one in `d` (or the end of the text). */
    method SkipToDelim(s: string, d: Cur.Delims) returns (r: string)
      requires CursorOk() && pos.idx <= |text|
      modifies this`currentChar, this`prevChar, pos
      ensures CursorOk() && pos.idx == Cur.SkipEnd(text, old(pos.idx), d)
      ensures r == s + text[old(pos.idx)..pos.idx]
    {
      r := s;
      ghost var start := pos.idx;
      while currentChar.Some? && !Cur.InDelims(d, currentChar.value)
        invariant CursorOk() && start <= pos.idx <= |text|
        invariant Cur.SkipEnd(text, start, d) == Cur.SkipEnd(text, pos.idx, d)
        invariant r == s + text[start..pos.idx]
        decreases |text| - pos.idx
      {
        Cur.SliceSplit(text, start, pos.idx, pos.idx + 1);
        r := r + [currentChar.value];
        Advance();
      }
    }

    /** The loop of `make_identifier`: the rest of the word, or, past thirty
        characters, the text up to the next identifier delimiter. */
    method ReadIdentifier(idStr0: string) returns (idStr: string, tooLong: bool)
      requires CursorOk() && |idStr0| <= pos.idx <= |text|
      requires text[pos.idx - |idStr0|..pos.idx] == idStr0 && |idStr0| <= 30
      requires Cur.AllWordChars(idStr0)
      modifies this`currentChar, this`prevChar, pos
      ensures CursorOk() && old(pos.idx) <= pos.idx <= |text|
      ensures idStr == text[old(pos.idx) - |idStr0|..pos.idx]
      ensures tooLong <==> Cur.WordEnd(text, old(pos.idx) - |idStr0|) - (old(pos.idx) - |idStr0|) > 30
      ensures !tooLong ==> pos.idx == Cur.WordEnd(text, old(pos.idx) - |idStr0|)
      ensures tooLong ==> pos.idx == Cur.SkipEnd(text, old(pos.idx) - |idStr0| + 30, Cur.IdDelim) >= Cur.WordEnd(text, old(pos.idx) - |idStr0|)
    {
      idStr := idStr0;
      var idLen := |idStr0|;
      ghost var start := pos.idx - |idStr0|;
      Cur.SliceWordChars(text, start, pos.idx);
      Cur.WordEndSkip(text, start, pos.idx);
      // The source tests the length inside the loop and leaves it through the
      // skip; testing it in the loop condition reads the same characters.
      while currentChar.Some? && Cur.IsWordChar(currentChar.value) && idLen < 30
        invariant CursorOk() && old(pos.idx) <= pos.idx <= |text|
        invariant idStr == text[start..pos.idx] && idLen == |idStr| <= 30
        invariant Cur.WordEnd(text, start) == Cur.WordEnd(text, pos.idx)
        decreases |text| - pos.idx
      {
        Cur.WordStep(text, start, pos.idx);
        idStr := idStr + [currentChar.value];
        idLen := idLen + 1;
        Advance();
      }
      if currentChar.Some? && Cur.IsWordChar(currentChar.value) {
        ghost var mid := pos.idx;
        assert mid == start + 30;
        Cur.SkipPastWord(text, mid);
        ghost var e := Cur.WordEnd(text, mid);
        idStr := SkipToDelim(idStr, Cur.IdDelim);
        assert pos.idx == Cur.SkipEnd(text, mid, Cur.IdDelim) >= e == Cur.WordEnd(text, start);
        Cur.SliceSplit(text, start, mid, pos.idx);
        return idStr, true;
      }
      return idStr, false;
    }

    /** `make_identifier(id_str)`, `idStr0` being the characters already read: the
        rest of the word, renamed by `identifiers`; past thirty characters the text
        up to the next identifier delimiter is reported instead. */
    method MakeIdentifier(idStr0: string) returns (r: Scan)
      requires Valid() && |idStr0| <= pos.idx <= |text|
      requires text[pos.idx - |idStr0|..pos.idx] == idStr0 && |idStr0| <= 30
      requires Cur.AllWordChars(idStr0)
      modifies this`currentChar, this`prevChar, pos, this`identifierMap, this`currentId, this`order
      ensures Valid() && Cur.MapExtends(old(identifierMap), identifierMap) && pos.idx >= old(pos.idx)
      ensures IdMade(old(pos.idx) - |idStr0|, r, old(identifierMap))
    {
      var idStr, tooLong := ReadIdentifier(idStr0);
      if tooLong {
        return LexFailed(Cur.LexError(Cur.MaxIdentifierChars(idStr), pos.ln + 1, Some(pos.col - |idStr| + 1)));
      }
      var id := Identifiers(idStr);
      Cur.IdsNumbered(identifierMap, order, currentId, idStr);
      TokensOkExtends(tokens, old(identifierMap), identifierMap);
      return Scanned(Token(idStr, id));
    }

    /** What `make_identifier` gives for the word starting at `start`: the id token
        of the word, at most thirty long, with the cursor at the word's end; or the
        length error with the cursor past the run of word characters. */
    ghost predicate IdMade(start: nat, r: Scan, m0: map<string, string>)
      requires start <= |text|
      reads this, pos
    {
      var e := Cur.WordEnd(text, start);
      var w := text[start..e];
      && (|w| <= 30 ==>
           && pos.idx == e && w in identifierMap && Cur.IsIdType(identifierMap[w])
           && r == Scanned(Token(w, identifierMap[w])))
      && (|w| > 30 ==>
           && identifierMap == m0 && pos.idx == Cur.SkipEnd(text, start + 30, Cur.IdDelim) >= e
           && r == LexFailed(Cur.LexError(Cur.MaxIdentifierChars(text[start..pos.idx]), pos.ln + 1, Some(pos.col - (pos.idx - start) + 1))))
    }

    /** What `tokenize_id` leaves for the word starting at `start`: its id token put
        through `process_token` against the identifier delimiters, or the length
        error; the cursor is past the word either way. */
    ghost predicate IdTokenized(ts: seq<Token>, es: seq<Cur.LexError>, start: nat)
      requires start <= |text|
      reads this, pos
    {
      var e := Cur.WordEnd(text, start);
      var w := text[start..e];
      && (e - start <= 30 ==>
           && pos.idx >= e && w in identifierMap
           && (tokens, errors) == Processed(ts, es, Token(w, identifierMap[w]), Same(Cur.IdDelim), e))
      && (e - start > 30 ==>
           && start + 30 < pos.idx <= |text| && tokens == ts
           && errors == es + [Cur.LexError(Cur.MaxIdentifierChars(text[start..pos.idx]), pos.ln + 1, Some(pos.col - (pos.idx - start) + 1))])
    }

    /** `tokenize_id`: the identifier, checked against the identifier delimiters. */
    method TokenizeId(charStr: string)
      requires Valid() && |charStr| <= pos.idx <= |text|
      requires text[pos.idx - |charStr|..pos.idx] == charStr && |charStr| <= 30
      requires Cur.AllWordChars(charStr)
      modifies this`currentChar, this`prevChar, pos, this`identifierMap, this`currentId, this`order, this`tokens, this`errors
      ensures Valid() && Cur.MapExtends(old(identifierMap), identifierMap) && pos.idx >= old(pos.idx)
      ensures IdTokenized(old(tokens), old(errors), old(pos.idx) - |charStr|)
      ensures Grew(old(tokens), tokens)
    {
      ghost var start := pos.idx - |charStr|;
      ghost var e := Cur.WordEnd(text, start);
      var result := MakeIdentifier(charStr);
      if result.LexFailed? {
        assert e - start > 30;
        errors := errors + [result.err];
      } else {
        ghost var w := text[start..e];
        assert e - start <= 30 && pos.idx == e && result.tok.lexeme == w;
        ghost var m := identifierMap;
        IdTokenOk(w, result.tok.token, m);
        ProcessToken(result.tok.lexeme, result.tok.token, Same(Cur.IdDelim));
        assert identifierMap == m && pos.idx >= e;
      }
    }

    /** `tokenize_keyword`: a keyword followed by a word character is the start of an
        identifier; otherwise the keyword is checked against its own delimiters. */
    method TokenizeKeyword(charStr: string, valid: Cur.Delims)
      requires Valid() && |charStr| <= pos.idx <= |text|
      requires text[pos.idx - |charStr|..pos.idx] == charStr && Cur.KeywordDelims(charStr) == Some(valid)
      modifies this`currentChar, this`prevChar, pos, this`identifierMap, this`currentId, this`order, this`tokens, this`errors
      ensures Valid() && Cur.MapExtends(old(identifierMap), identifierMap) && pos.idx >= old(pos.idx)
      ensures old(currentChar).Some? && Cur.IsWordChar(old(currentChar).value) ==>
        IdTokenized(old(tokens), old(errors), old(pos.idx) - |charStr|)
      ensures !(old(currentChar).Some? && Cur.IsWordChar(old(currentChar).value)) ==>
        && identifierMap == old(identifierMap)
        && (tokens, errors) == Processed(old(tokens), old(errors), Token(charStr, charStr), Same(valid), old(pos.idx))
      ensures Grew(old(tokens), tokens)
    {
      // `None` and a non-word character are separate branches of the source with the
      // same body.
      Cur.KeywordIsGood(charStr);
      if currentChar.Some? && Cur.IsWordChar(currentChar.value) {
        TokenizeId(charStr);
      } else {
        KeywordTokenOk(charStr, identifierMap);
        ProcessToken(charStr, charStr, Same(valid));
      }
    }

    /** The `true` and `false` leaves of the trie: both words are the flag token,
        checked against the flag delimiters, unless a word character follows. */
    method TokenizeFlag(charStr: string)
      requires Valid() && AtLeaf(charStr) && pos.idx < |text| && (charStr == "true" || charStr == "false")
      modifies this`currentChar, this`prevChar, pos, this`identifierMap, this`currentId, this`order, this`tokens, this`errors
      ensures Valid() && Cur.MapExtends(old(identifierMap), identifierMap) && pos.idx >= old(pos.idx)
      ensures KeywordOutcome(old(tokens), old(errors), old(pos.idx) - |charStr|, old(identifierMap), false)
      ensures Grew(old(tokens), tokens)
    {
      ghost var start := pos.idx - |charStr|;
      ghost var e := Cur.WordEnd(text, start);
      ghost var w := text[start..e];
      if Cur.IsWordChar(currentChar.value) {
        assert |w| > |charStr| && w[..|charStr|] == charStr;
        assert w[0] == charStr[0] && !UnguardedWord(w) && w != "true" && w != "false";
        TokenizeId(charStr);
      } else {
        UnguardedAreKeywords(charStr);
        FlagTokenOk(identifierMap);
        ProcessToken(Cur.FLAG, Cur.FLAG, FlagDelim);
      }
    }

    /** The walk down the trie: characters are read while they still spell the
        start of some keyword. */
    method WalkTrie() returns (charStr: string)
      requires CursorOk() && pos.idx <= |text|
      modifies this`currentChar, this`prevChar, pos
      ensures CursorOk() && old(pos.idx) <= pos.idx <= |text| && charStr == text[old(pos.idx)..pos.idx]
      ensures Cur.AllWordChars(charStr) && |charStr| <= 10
      ensures pos.idx < |text| && Cur.IsWordChar(text[pos.idx]) ==>
        Cur.WordEnd(text, old(pos.idx)) > pos.idx && Cur.KeywordDelims(text[old(pos.idx)..Cur.WordEnd(text, old(pos.idx))]).None?
      ensures !(pos.idx < |text| && Cur.IsWordChar(text[pos.idx])) ==> Cur.WordEnd(text, old(pos.idx)) == pos.idx
    {
      charStr := "";
      ghost var start := pos.idx;
      assert charStr <= Cur.Keywords[0].0;
      while currentChar.Some? && Cur.IsKeywordPrefix(charStr + [currentChar.value])
        invariant CursorOk() && start <= pos.idx <= |text| && charStr == text[start..pos.idx]
        invariant Cur.IsKeywordPrefix(charStr)
        decreases |text| - pos.idx
      {
        Cur.SliceSplit(text, start, pos.idx, pos.idx + 1);
        charStr := charStr + [currentChar.value];
        Advance();
      }
      Cur.KeywordPrefixIsWord(charStr);
      Cur.TrieStop(text, start, pos.idx);
    }

    /** The keyword trie of `make_tokens`: the whole word is a keyword token when it
        is a keyword, and an identifier otherwise; `true` and `false` are both the
        flag token. After `true`, `false`, `load` and `shoot` at the very end of the
        text the trie tests `None in ALPHANUM` and Python raises. */
    method KeywordTrie() returns (crashed: bool)
      requires Valid() && currentChar.Some? && Cur.IsAlpha(currentChar.value)
      modifies this`currentChar, this`prevChar, pos, this`identifierMap, this`currentId, this`order, this`tokens, this`errors
      ensures Valid() && Cur.MapExtends(old(identifierMap), identifierMap) && pos.idx > old(pos.idx)
      ensures KeywordOutcome(old(tokens), old(errors), old(pos.idx), old(identifierMap), crashed)
      ensures Grew(old(tokens), tokens)
    {
      ghost var start := pos.idx;
      var charStr := WalkTrie();
      if UnguardedWord(charStr) && currentChar.None? {
        assert Cur.WordEnd(text, start) == |text| && text[start..|text|] == charStr;
        return true;
      }
      assert pos.idx - |charStr| == start;
      TokenizeLeaf(charStr);
      return false;
    }

    /** The leaf the walk down the trie stopped at, `charStr` being the characters
        it read: the rest of the word is not a keyword when a word character
        follows, and otherwise the word is `charStr`. */
    ghost predicate AtLeaf(charStr: string)
      reads this, pos
    {
      && |charStr| <= pos.idx <= |text| && text[pos.idx - |charStr|..pos.idx] == charStr
      && Cur.AllWordChars(charStr) && |charStr| <= 10
      && (pos.idx < |text| && Cur.IsWordChar(text[pos.idx]) ==>
           Cur.WordEnd(text, pos.idx - |charStr|) > pos.idx &&
           Cur.KeywordDelims(text[pos.idx - |charStr|..Cur.WordEnd(text, pos.idx - |charStr|)]).None?)
      && (!(pos.idx < |text| && Cur.IsWordChar(text[pos.idx])) ==> Cur.WordEnd(text, pos.idx - |charStr|) == pos.idx)
    }

    /** The branches of the trie below its walk. */
    method TokenizeLeaf(charStr: string)
      requires Valid() && AtLeaf(charStr) && !(UnguardedWord(charStr) && pos.idx == |text|)
      modifies this`currentChar, this`prevChar, pos, this`identifierMap, this`currentId, this`order, this`tokens, this`errors
      ensures Valid() && Cur.MapExtends(old(identifierMap), identifierMap) && pos.idx >= old(pos.idx)
      ensures KeywordOutcome(old(tokens), old(errors), old(pos.idx) - |charStr|, old(identifierMap), false)
      ensures Grew(old(tokens), tokens)
    {
      if charStr == "true" || charStr == "false" {
        TokenizeFlag(charStr);
      } else {
        var valid := Cur.KeywordDelims(charStr);
        if valid.Some? {
          KeywordLeaf(charStr, valid.value);
        } else {
          IdLeaf(charStr);
        }
      }
    }

    /** A keyword other than `true` and `false`. */
    method KeywordLeaf(charStr: string, valid: Cur.Delims)
      requires Valid() && AtLeaf(charStr) && !(UnguardedWord(charStr) && pos.idx == |text|)
      requires Cur.KeywordDelims(charStr) == Some(valid) && charStr != "true" && charStr != "false"
      modifies this`currentChar, this`prevChar, pos, this`identifierMap, this`currentId, this`order, this`tokens, this`errors
      ensures Valid() && Cur.MapExtends(old(identifierMap), identifierMap) && pos.idx >= old(pos.idx)
      ensures KeywordOutcome(old(tokens), old(errors), old(pos.idx) - |charStr|, old(identifierMap), false)
      ensures Grew(old(tokens), tokens)
    {
      ghost var start := pos.idx - |charStr|;
      ghost var w := text[start..Cur.WordEnd(text, start)];
      if UnguardedWord(w) {
        UnguardedAreKeywords(w);
      }
      TokenizeKeyword(charStr, valid);
    }

    /** A word that is no keyword. */
    method IdLeaf(charStr: string)
      requires Valid() && AtLeaf(charStr) && Cur.KeywordDelims(charStr).None?
      modifies this`currentChar, this`prevChar, pos, this`identifierMap, this`currentId, this`order, this`tokens, this`errors
      ensures Valid() && Cur.MapExtends(old(identifierMap), identifierMap) && pos.idx >= old(pos.idx)
      ensures KeywordOutcome(old(tokens), old(errors), old(pos.idx) - |charStr|, old(identifierMap), false)
      ensures Grew(old(tokens), tokens)
    {
      ghost var start := pos.idx - |charStr|;
      ghost var w := text[start..Cur.WordEnd(text, start)];
      UnguardedAreKeywordsNot(w);
      TokenizeId(charStr);
    }

    /** What the trie leaves for the word at `start`: the raise exactly after an
        unguarded word at the end of the text; otherwise the flag token for `true`
        and `false`, the keyword token for another keyword, and the identifier for
        any other word. */
    ghost predicate KeywordOutcome(ts: seq<Token>, es: seq<Cur.LexError>, start: nat, m0: map<string, string>, crashed: bool)
      requires start <= |text|
      reads this, pos
    {
      var e := Cur.WordEnd(text, start);
      var w := text[start..e];
      && (crashed <==> UnguardedWord(w) && e == |text|)
      && (!crashed ==>
           && ((w == "true" || w == "false") ==>
                identifierMap == m0 && (tokens, errors) == Processed(ts, es, Token(Cur.FLAG, Cur.FLAG), FlagDelim, e))
           && (w != "true" && w != "false" && Cur.KeywordDelims(w).Some? ==>
                identifierMap == m0 && (tokens, errors) == Processed(ts, es, Token(w, w), Same(Cur.KeywordDelims(w).value), e))
           && (Cur.KeywordDelims(w).None? ==> IdTokenized(ts, es, start)))
    }

    // ---- number literals ----------------------------------------------------------

    /** The error branches of the loop of `make_number`: the text from the cursor up
        to the next number delimiter is added to `base`, and the error is reported
        with the column of the start of that text. */
    method NumberOverflow(err: Cur.NumError, base: string) returns (r: Scan)
      requires CursorOk() && pos.idx < |text| && (Cur.IsNum(text[pos.idx]) || text[pos.idx] == '.')
      modifies this`currentChar, this`prevChar, pos
      ensures CursorOk() && (r, pos.idx) == NumberFailure(text, old(pos.idx), err, base)
    {
      var t := SkipToDelim(base, Cur.NumlitDelim);
      return LexFailed(Cur.LexError(Cur.NumErrorKind(err, t), pos.ln + 1, Some(pos.col - |t| + 1)));
    }

    /** The loop of `make_number`: the steps `NumRun` takes from the cursor, and on an
        error the outcome `NumberFailure` gives. */
    method ReadNumber(st0: NumState) returns (st: NumState, stopped: Option<Scan>)
      requires CursorOk() && pos.idx <= |text|
      modifies this`currentChar, this`prevChar, pos
      ensures CursorOk() && old(pos.idx) <= pos.idx <= |text|
      ensures var (out, e) := NumRun(text, old(pos.idx), st0);
        && (out.Go? ==> stopped.None? && st == out.next && pos.idx == e)
        && (out.Stop? ==> stopped.Some? && (stopped.value, pos.idx) == NumberFailure(text, e, out.err, out.base))
    {
      st := st0;
      ghost var start := pos.idx;
      while currentChar.Some? && (Cur.IsNum(currentChar.value) || currentChar.value == '.')
        invariant CursorOk() && start <= pos.idx <= |text|
        invariant NumRun(text, start, st0) == NumRun(text, pos.idx, st)
        decreases |text| - pos.idx
      {
        var step := NumStep(st, currentChar.value);
        if step.Stop? {
          var r := NumberOverflow(step.err, step.base);
          return st, Some(r);
        }
        st := step.next;
        Advance();
      }
      return st, None;
    }

    /** `make_number(num_str)`, `prefix` being what the caller has read: the outcome
        and the end `ScanNumber` gives for the text at the cursor. */
    method MakeNumber(prefix: Cur.NumPrefix) returns (r: Scan)
      requires CursorOk() && pos.idx <= |text|
      modifies this`currentChar, this`prevChar, pos
      ensures CursorOk() && (r, pos.idx) == ScanNumber(text, old(pos.idx), prefix)
    {
      var st, negate := NumStart(prefix).0, NumStart(prefix).1;
      var stopped;
      st, stopped := ReadNumber(st);
      if stopped.Some? {
        return stopped.value;
      }
      r := FinishNumber(st, negate, pos.ln, pos.col);
    }

    /** The lists after a number branch: `make_number` on the text at index `i`, its
        error appended as it is, or its token put through `process_token` against
        the number delimiters. */
    ghost function NumberEmitted(ts: seq<Token>, es: seq<Cur.LexError>, i: nat, prefix: Cur.NumPrefix): (seq<Token>, seq<Cur.LexError>)
      requires i <= |text|
    {
      var res := ScanNumber(text, i, prefix);
      if res.0.LexFailed? then (ts, es + [res.0.err])
      else Processed(ts, es, res.0.tok, Same(Cur.NumlitDelim), res.1)
    }

    /** A number branch of `make_tokens`. */
    method EmitNumber(prefix: Cur.NumPrefix)
      requires Valid() && pos.idx <= |text|
      modifies this`currentChar, this`prevChar, pos, this`tokens, this`errors
      ensures Valid() && pos.idx >= ScanNumber(text, old(pos.idx), prefix).1
      ensures (tokens, errors) == NumberEmitted(old(tokens), old(errors), old(pos.idx), prefix)
      ensures Grew(old(tokens), tokens)
    {
      var r := MakeNumber(prefix);
      if r.LexFailed? {
        errors := errors + [r.err];
      } else {
        assert Cur.IsNumberType(r.tok.token);
        FixedTokenOk(r.tok.lexeme, r.tok.token, identifierMap);
        ProcessToken(r.tok.lexeme, r.tok.token, Same(Cur.NumlitDelim));
      }
    }

    // ---- comms literals -----------------------------------------------------------

    /** `make_string`, with the cursor on the opening quote: the outcome and the end
        `ScanString` gives. */
    method MakeString() returns (r: Scan)
      requires CursorOk() && currentChar == Some('"')
      modifies this`currentChar, this`prevChar, pos
      ensures CursorOk() && (r, pos.idx) == ScanString(text, old(pos.idx))
    {
      var body := "";
      var esc := false;
      Advance();
      ghost var start := pos.idx;
      while currentChar.Some?
        invariant CursorOk() && start <= pos.idx <= |text|
        invariant Cur.StringRun(text, start, "", false) == Cur.StringRun(text, pos.idx, body, esc)
        decreases |text| - pos.idx
      {
        var c := currentChar.value;
        if esc {
          body := body + Cur.EscapeValue(c);
          esc := false;
        } else if c == '\\' {
          esc := true;
        } else if c == '"' {
          Advance();
          return Scanned(Token("\"" + body + "\"", Cur.COMMS));
        } else if c == '\n' {
          return LexFailed(Cur.LexError(Cur.UnclosedString(body), pos.ln + 1, Some(pos.col - |body|)));
        } else {
          body := body + [c];
        }
        Advance();
      }
      return LexFailed(Cur.LexError(Cur.UnclosedString(body), pos.ln + 1, Some(pos.col - |body|)));
    }

    /** The comms branch of `make_tokens`. */
    method StringLiteral()
      requires Valid() && currentChar == Some('"')
      modifies this`currentChar, this`prevChar, pos, this`tokens, this`errors
      ensures Valid() && pos.idx > old(pos.idx)
      ensures var res := ScanString(text, old(pos.idx));
        && (res.0.LexFailed? ==> tokens == old(tokens) && errors == old(errors) + [res.0.err])
        && (res.0.Scanned? ==> (tokens, errors) == Processed(old(tokens), old(errors), res.0.tok, CommslitDelim, res.1))
      ensures Grew(old(tokens), tokens)
    {
      var r := MakeString();
      if r.LexFailed? {
        errors := errors + [r.err];
      } else {
        assert r.tok.token == Cur.COMMS;
        FixedTokenOk(r.tok.lexeme, r.tok.token, identifierMap);
        ProcessToken(r.tok.lexeme, r.tok.token, CommslitDelim);
      }
    }

    // ---- blanks -------------------------------------------------------------------

    /** The inner loop over a run of `c`. */
    method SkipRun(c: char)
      requires CursorOk() && pos.idx <= |text|
      modifies this`currentChar, this`prevChar, pos
      ensures CursorOk() && pos.idx == Cur.RunEnd(text, old(pos.idx), c)
    {
      while currentChar == Some(c)
        invariant CursorOk() && old(pos.idx) <= pos.idx <= |text|
        invariant Cur.RunEnd(text, old(pos.idx), c) == Cur.RunEnd(text, pos.idx, c)
        decreases |text| - pos.idx
      {
        Advance();
      }
    }

    /** A run of newlines is one newline token. */
    method Newlines()
      requires Valid() && currentChar == Some('\n')
      modifies this`currentChar, this`prevChar, pos, this`tokens, this`errors
      ensures Valid() && pos.idx > old(pos.idx)
      ensures (tokens, errors) == Processed(old(tokens), old(errors), Token("\\n", Cur.NEWLINE), NlDelim, Cur.RunEnd(text, old(pos.idx), '\n'))
      ensures Grew(old(tokens), tokens)
    {
      SkipRun('\n');
      FixedTokenOk("\\n", Cur.NEWLINE, identifierMap);
      ProcessToken("\\n", Cur.NEWLINE, NlDelim);
    }

    /** A run of spaces is one space token. */
    method Spaces()
      requires Valid() && currentChar == Some(' ')
      modifies this`currentChar, this`prevChar, pos, this`tokens, this`errors
      ensures Valid() && pos.idx > old(pos.idx)
      ensures (tokens, errors) == Processed(old(tokens), old(errors), Token(" ", Cur.SPACE), SpaceDelim, Cur.RunEnd(text, old(pos.idx), ' '))
      ensures Grew(old(tokens), tokens)
    {
      SkipRun(' ');
      FixedTokenOk(" ", Cur.SPACE, identifierMap);
      ProcessToken(" ", Cur.SPACE, SpaceDelim);
    }

    // ---- operators and punctuation ------------------------------------------------

    /** `+`: the branch for `+=` checks the delimiter with the cursor still on the
        `=`, which is not one of its delimiters, so `+=` always gives an invalid
        delimiter error; `+` alone is checked against `delim3`. */
    method PlusSign()
      requires Valid() && currentChar == Some('+')
      modifies this`currentChar, this`prevChar, pos, this`tokens, this`errors
      ensures Valid() && pos.idx > old(pos.idx)
      ensures var i := old(pos.idx);
        && (Cur.CharAt(text, i + 1) == Some('=') ==>
             && tokens == old(tokens) && pos.idx == i + 2
             && errors == old(errors) + [Cur.LexError(Cur.InvalidDelimiter("+=", '='), Cur.LineAt(text, i + 1) + 1, Some(Cur.ColumnAt(text, i + 1) + 1))])
        && (Cur.CharAt(text, i + 1) != Some('=') ==>
             (tokens, errors) == Processed(old(tokens), old(errors), Token("+", "+"), Delim3, i + 1))
      ensures Grew(old(tokens), tokens)
    {
      Advance();
      if currentChar == Some('=') {
        FixedTokenOk("+=", "+=", identifierMap);
        ProcessToken("+=", "+=", Delim4);
      } else {
        FixedTokenOk("+", "+", identifierMap);
        ProcessToken("+", "+", Delim3);
      }
    }

    /** `-`: `-=` fails like `+=`; after a character that ends an operand the minus
        is checked against `delim10`; otherwise a digit or a point starts a negative
        number and anything else makes the `-` a negation. The test of the
        character before raises when the `-` is the first character of the text,
        and the test of the character after raises when the `-` is the last. */
    method MinusSign() returns (crashed: bool)
      requires Valid() && currentChar == Some('-')
      modifies this`currentChar, this`prevChar, pos, this`tokens, this`errors
      ensures Valid() && pos.idx > old(pos.idx)
      ensures MinusOutcome(old(tokens), old(errors), old(pos.idx), crashed)
      ensures Grew(old(tokens), tokens)
    {
      var lhs := prevChar;
      Advance();
      crashed := false;
      if currentChar == Some('=') {
        FixedTokenOk("-=", "-=", identifierMap);
        ProcessToken("-=", "-=", Delim4);
      } else if lhs.None? {
        crashed := true;
      } else if Cur.IsValidLhs(lhs.value) {
        FixedTokenOk("-", "-", identifierMap);
        ProcessToken("-", "-", Delim10);
      } else if currentChar.None? {
        crashed := true;
      } else if Cur.IsNum(currentChar.value) || currentChar.value == '.' {
        EmitNumber(Cur.Minus);
      } else {
        // TT_NEG and TT_MINUS are both the type `-`.
        FixedTokenOk("-", "-", identifierMap);
        ProcessToken("-", "-", Delim4);
      }
    }

    /** What the `-` at index `i` leaves, by the characters around it. */
    ghost predicate MinusOutcome(ts: seq<Token>, es: seq<Cur.LexError>, i: nat, crashed: bool)
      requires i < |text|
      reads this, pos
    {
      var next := Cur.CharAt(text, i + 1);
      var lhsOk := i > 0 && Cur.IsValidLhs(text[i - 1]);
      && (crashed <==> next != Some('=') && (i == 0 || (!lhsOk && next.None?)))
      && (next == Some('=') ==>
           && tokens == ts && pos.idx == i + 2
           && errors == es + [Cur.LexError(Cur.InvalidDelimiter("-=", '='), Cur.LineAt(text, i + 1) + 1, Some(Cur.ColumnAt(text, i + 1) + 1))])
      && (!crashed && next != Some('=') && lhsOk ==> (tokens, errors) == Processed(ts, es, Token("-", "-"), Delim10, i + 1))
      && (!crashed && !lhsOk && next.Some? && (Cur.IsNum(next.value) || next.value == '.') ==>
           (tokens, errors) == NumberEmitted(ts, es, i + 1, Cur.Minus))
      && (!crashed && !lhsOk && next.Some? && next != Some('=') && !(Cur.IsNum(next.value) || next.value == '.') ==>
           (tokens, errors) == Processed(ts, es, Token("-", "-"), Delim4, i + 1))
    }

    /** `*`, `/`, `%`, `<` and `>`, with or without a following `=`, all checked
        against `delim4`; the types are those of `CompareType`. */
    method CompareOp()
      requires Valid() && currentChar.Some?
      requires var c := currentChar.value; c == '*' || c == '/' || c == '%' || c == '<' || c == '>'
      modifies this`currentChar, this`prevChar, pos, this`tokens, this`errors
      ensures Valid() && pos.idx > old(pos.idx)
      ensures var c, i := old(currentChar).value, old(pos.idx);
        && (Cur.CharAt(text, i + 1) == Some('=') ==>
             (tokens, errors) == Processed(old(tokens), old(errors), Token([c, '='], CompareType(c, true)), Delim4, i + 2))
        && (Cur.CharAt(text, i + 1) != Some('=') ==>
             (tokens, errors) == Processed(old(tokens), old(errors), Token([c], CompareType(c, false)), Delim4, i + 1))
      ensures Grew(old(tokens), tokens)
    {
      var c := currentChar.value;
      Advance();
      if currentChar == Some('=') {
        Advance();
        FixedTokenOk([c, '='], CompareType(c, true), identifierMap);
        ProcessToken([c, '='], CompareType(c, true), Delim4);
      } else {
        FixedTokenOk([c], CompareType(c, false), identifierMap);
        ProcessToken([c], CompareType(c, false), Delim4);
      }
    }

    /** `^ : ( ) [ ] { } ,`: the character is the token, checked against its own
        delimiters. */
    method Single()
      requires Valid() && currentChar.Some?
      requires var c := currentChar.value; c == '^' || c == ':' || c == '(' || c == ')' || c == '[' || c == ']' || c == '{' || c == '}' || c == ','
      modifies this`currentChar, this`prevChar, pos, this`tokens, this`errors
      ensures Valid() && pos.idx > old(pos.idx)
      ensures var c := old(currentChar).value;
        (tokens, errors) == Processed(old(tokens), old(errors), Token([c], [c]), SingleDelims(c), old(pos.idx) + 1)
      ensures Grew(old(tokens), tokens)
    {
      var c := currentChar.value;
      Advance();
      FixedTokenOk([c], [c], identifierMap);
      ProcessToken([c], [c], SingleDelims(c));
    }

    /** The `.` branch on a digit from 0 to 6 at index `i`: `.Nf` is an xp format,
        checked against `)`; otherwise the point and the digit start a number. */
    ghost function XpFormatted(ts: seq<Token>, es: seq<Cur.LexError>, i: nat): (seq<Token>, seq<Cur.LexError>)
      requires i < |text|
    {
      if Cur.CharAt(text, i + 1) == Some('f') then
        Processed(ts, es, Token(['.', text[i], 'f'], Cur.XP_FORMATTING), Same(Cur.Just(')')), i + 2)
      else NumberEmitted(ts, es, i + 1, Cur.PointDigit(text[i]))
    }

    method XpFormat()
      requires Valid() && currentChar.Some? && Cur.IsNumTo6(currentChar.value)
      modifies this`currentChar, this`prevChar, pos, this`tokens, this`errors
      ensures Valid() && pos.idx > old(pos.idx)
      ensures (tokens, errors) == XpFormatted(old(tokens), old(errors), old(pos.idx))
      ensures Grew(old(tokens), tokens)
    {
      var d := currentChar.value;
      Advance();
      if currentChar == Some('f') {
        Advance();
        FixedTokenOk(['.', d, 'f'], Cur.XP_FORMATTING, identifierMap);
        ProcessToken(['.', d, 'f'], Cur.XP_FORMATTING, Same(Cur.Just(')')));
      } else {
        EmitNumber(Cur.PointDigit(d));
      }
    }

    /** The `.` branch: `.Nf` (N from 0 to 6) is an xp format, a point before a
        digit starts a number, and otherwise the point is a token. */
    method Period()
      requires Valid() && currentChar == Some('.')
      modifies this`currentChar, this`prevChar, pos, this`tokens, this`errors
      ensures Valid() && pos.idx > old(pos.idx)
      ensures var i, c1 := old(pos.idx), Cur.CharAt(text, old(pos.idx) + 1);
        && (c1.Some? && Cur.IsNumTo6(c1.value) ==> (tokens, errors) == XpFormatted(old(tokens), old(errors), i + 1))
        && (c1.Some? && Cur.IsNum(c1.value) && !Cur.IsNumTo6(c1.value) ==>
             (tokens, errors) == NumberEmitted(old(tokens), old(errors), i + 1, Cur.Point))
        && (!(c1.Some? && Cur.IsNum(c1.value)) ==>
             (tokens, errors) == Processed(old(tokens), old(errors), Token(".", "."), Same(Cur.PeriodDelim), i + 1))
      ensures Grew(old(tokens), tokens)
    {
      Advance();
      if currentChar.Some? && Cur.IsNumTo6(currentChar.value) {
        XpFormat();
      } else if currentChar.Some? && Cur.IsNum(currentChar.value) {
        EmitNumber(Cur.Point);
      } else {
        FixedTokenOk(".", ".", identifierMap);
        ProcessToken(".", ".", Same(Cur.PeriodDelim));
      }
    }

    /** `=`, `&` and `|`: the doubled character is the token, typed by `DoubledType`;
        a single one is an invalid character, reported at the cursor past it. */
    method Doubled()
      requires Valid() && currentChar.Some?
      requires var c := currentChar.value; c == '=' || c == '&' || c == '|'
      modifies this`currentChar, this`prevChar, pos, this`tokens, this`errors
      ensures Valid() && pos.idx > old(pos.idx)
      ensures var c, i := old(currentChar).value, old(pos.idx);
        && (Cur.CharAt(text, i + 1) == Some(c) ==>
             (tokens, errors) == Processed(old(tokens), old(errors), Token([c, c], DoubledType(c)), DoubledDelims(c), i + 2))
        && (Cur.CharAt(text, i + 1) != Some(c) ==>
             && tokens == old(tokens) && pos.idx == i + 1
             && errors == old(errors) + [Cur.LexError(Cur.InvalidCharacter(c), Cur.LineAt(text, i + 1) + 1, Some(Cur.ColumnAt(text, i + 1)))])
      ensures Grew(old(tokens), tokens)
    {
      var c := currentChar.value;
      Advance();
      if currentChar == Some(c) {
        Advance();
        assert AND[0] == 'A' && OR[0] == 'O';
        FixedTokenOk([c, c], DoubledType(c), identifierMap);
        ProcessToken([c, c], DoubledType(c), DoubledDelims(c));
      } else {
        errors := errors + [Cur.LexError(Cur.InvalidCharacter(c), pos.ln + 1, Some(pos.col))];
      }
    }

    /** `!`: `!=` against `delim7`, or `!` alone, typed `NOT`, against `delim8`. */
    method Bang()
      requires Valid() && currentChar == Some('!')
      modifies this`currentChar, this`prevChar, pos, this`tokens, this`errors
      ensures Valid() && pos.idx > old(pos.idx)
      ensures var i := old(pos.idx);
        && (Cur.CharAt(text, i + 1) == Some('=') ==>
             (tokens, errors) == Processed(old(tokens), old(errors), Token("!=", "!="), Delim7, i + 2))
        && (Cur.CharAt(text, i + 1) != Some('=') ==>
             (tokens, errors) == Processed(old(tokens), old(errors), Token("!", NOT), Delim8, i + 1))
      ensures Grew(old(tokens), tokens)
    {
      Advance();
      if currentChar == Some('=') {
        Advance();
        FixedTokenOk("!=", "!=", identifierMap);
        ProcessToken("!=", "!=", Delim7);
      } else {
        assert NOT[0] == 'N';
        FixedTokenOk("!", NOT, identifierMap);
        ProcessToken("!", NOT, Delim8);
      }
    }

    // ---- comments -----------------------------------------------------------------

    /** A single-line comment runs up to the newline or the end of the text, and is
        always kept as a token holding its text from the `#`; the cursor stays on the
        newline. */
    method LineComment()
      requires Valid() && currentChar == Some('#')
      modifies this`currentChar, this`prevChar, pos, this`tokens, this`errors
      ensures Valid() && errors == old(errors)
      ensures var i := old(pos.idx); var e := Cur.SkipEnd(text, i + 1, Cur.Just('\n'));
        pos.idx == e && tokens == old(tokens) + [Token(text[i..e], Cur.COMMENT1)]
    {
      ghost var i := pos.idx;
      var comments := "#";
      Advance();
      comments := SkipToDelim(comments, Cur.Just('\n'));
      Cur.SkipEndStops(text, i + 1, Cur.Just('\n'));
      assert comments == text[i..pos.idx] by {
        assert text[i..pos.idx] == [text[i]] + text[i + 1..pos.idx];
      }
      FixedTokenOk(comments, Cur.COMMENT1, identifierMap);
      assert Cur.Cause(currentChar) == '\n';
      ghost var e := pos.idx;
      ProcessToken(comments, Cur.COMMENT1, Same(Cur.Just('\n')));
      assert pos.idx == e;
    }

    /** The loop that counts up to three backticks. */
    method CountTicks() returns (count: nat)
      requires CursorOk() && pos.idx <= |text|
      modifies this`currentChar, this`prevChar, pos
      ensures CursorOk() && count == Cur.Ticks(text, old(pos.idx), 3) && pos.idx == old(pos.idx) + count
    {
      count := 0;
      while currentChar == Some('`') && count < 3
        invariant CursorOk() && old(pos.idx) <= pos.idx <= |text| && count == pos.idx - old(pos.idx) <= 3
        invariant Cur.Ticks(text, old(pos.idx), 3) == count + Cur.Ticks(text, pos.idx, 3 - count)
        decreases 3 - count
      {
        count := count + 1;
        Advance();
      }
    }

    /** The body of a multi-line comment: its text up to the closing three backticks,
        or the unclosed comment error when the text ends first. */
    method SkipComment() returns (comment: string, closed: bool)
      requires CursorOk() && pos.idx <= |text|
      modifies this`currentChar, this`prevChar, pos, this`errors
      ensures CursorOk() && old(pos.idx) <= pos.idx
      ensures closed <==> CommentEnd(text, old(pos.idx)).Some?
      ensures closed ==>
        && pos.idx == CommentEnd(text, old(pos.idx)).value
        && comment == text[old(pos.idx)..pos.idx - 3] && errors == old(errors)
      ensures !closed ==>
        pos.idx == |text| && errors == old(errors) + [Cur.LexError(Cur.UnclosedMultiLineComment, Cur.LineAt(text, |text|) + 1, None)]
    {
      ghost var start := pos.idx;
      comment := "";
      while true
        invariant CursorOk() && start <= pos.idx <= |text| && errors == old(errors)
        invariant CommentEnd(text, start) == Cur.CommentRun(text, pos.idx)
        invariant comment == text[start..pos.idx]
        decreases |text| - pos.idx
      {
        if currentChar.None? {
          errors := errors + [Cur.LexError(Cur.UnclosedMultiLineComment, pos.ln + 1, None)];
          return comment, false;
        }
        if currentChar == Some('`') {
          ghost var j := pos.idx;
          var close := CountTicks();
          if close == 3 {
            return comment, true;
          }
          assert text[j..pos.idx] == seq(close, _ => '`');
          Cur.SliceSplit(text, start, j, pos.idx);
          comment := comment + seq(close, _ => '`');
        } else {
          Cur.SliceSplit(text, start, pos.idx, pos.idx + 1);
          comment := comment + [currentChar.value];
          Advance();
        }
      }
    }

    /** The lists after a multi-line comment whose text starts at index `i`: a
        closed comment put through `process_token`, stripped, against the
        whitespace delimiters; an unclosed one adds its error, which names the
        line of the end of the text only. */
    ghost function Commented(ts: seq<Token>, es: seq<Cur.LexError>, i: nat): (seq<Token>, seq<Cur.LexError>)
      requires i <= |text|
    {
      match CommentEnd(text, i)
      case Some(e) => Processed(ts, es, Token(Strip(text[i..e - 3]), Cur.COMMENT2), Same(Cur.WhitespaceDelim), e)
      case None => (ts, es + [Cur.LexError(Cur.UnclosedMultiLineComment, Cur.LineAt(text, |text|) + 1, None)])
    }

    /** A multi-line comment after its opener: a closed comment is kept, stripped,
        against the whitespace delimiters; an unclosed one leaves its error. */
    method CommentBody(ghost ts: seq<Token>, ghost es: seq<Cur.LexError>, ghost i: nat)
      requires Valid() && pos.idx == i <= |text| && tokens == ts && errors == es
      modifies this`currentChar, this`prevChar, pos, this`tokens, this`errors
      ensures Valid() && pos.idx >= i
      ensures (tokens, errors) == Commented(ts, es, i)
      ensures Grew(old(tokens), tokens)
    {
      var comment, closed := SkipComment();
      if closed {
        FixedTokenOk(Strip(comment), Cur.COMMENT2, identifierMap);
        ProcessToken(Strip(comment), Cur.COMMENT2, Same(Cur.WhitespaceDelim));
      }
    }

    /** The multi-line comment branch: fewer than three backticks are an incomplete
        delimiter, reported at the column of the first of them, after which
        `make_tokens` returns `None`; three go on to `CommentBody`. */
    method BlockComment(ghost ts: seq<Token>, ghost es: seq<Cur.LexError>, ghost i: nat) returns (stopped: bool)
      requires Valid() && currentChar == Some('`') && pos.idx == i && tokens == ts && errors == es
      modifies this`currentChar, this`prevChar, pos, this`tokens, this`errors
      ensures Valid() && pos.idx > i && Grew(ts, tokens)
      ensures stopped <==> Cur.Ticks(text, i, 3) < 3
      ensures stopped ==> pos.idx == i + Cur.Ticks(text, i, 3) && tokens == ts
      ensures stopped ==>
        errors == es + [Cur.LexError(Cur.IncompleteCommentDelimiter, Cur.LineAt(text, pos.idx) + 1, Some(Cur.ColumnAt(text, pos.idx) - Cur.Ticks(text, i, 3)))]
      ensures !stopped ==> pos.idx >= i + 3
    {
      var count := Opener();
      if count != 3 {
        return true;
      }
      CommentBody(ts, es, i + 3);
      return false;
    }

    /** The backticks that open a multi-line comment; fewer than three are an
        incomplete delimiter, reported at the column of the first of them. */
    method Opener() returns (count: nat)
      requires Valid() && currentChar == Some('`')
      modifies this`currentChar, this`prevChar, pos, this`errors
      ensures Valid() && count == Cur.Ticks(text, old(pos.idx), 3) && pos.idx == old(pos.idx) + count > old(pos.idx)
      ensures count == 3 ==> errors == old(errors)
      ensures count < 3 ==>
        errors == old(errors) + [Cur.LexError(Cur.IncompleteCommentDelimiter, Cur.LineAt(text, pos.idx) + 1, Some(Cur.ColumnAt(text, pos.idx) - count))]
    {
      count := CountTicks();
      if count != 3 {
        errors := errors + [Cur.LexError(Cur.IncompleteCommentDelimiter, pos.ln + 1, Some(pos.col - count))];
      }
    }

    // ---- the scan -----------------------------------------------------------------

    /** One pass of the loop of `make_tokens`, by the character under the cursor: the
        cursor moves on and at most one token is added; the pass raises only in the
        `-` branch and the trie, and ends the scan only on an incomplete opener of a
        multi-line comment. */
    method Step() returns (halt: Halt)
      requires Valid() && currentChar.Some?
      modifies this`currentChar, this`prevChar, pos, this`identifierMap, this`currentId, this`order, this`tokens, this`errors
      ensures Valid() && Cur.MapExtends(old(identifierMap), identifierMap) && pos.idx > old(pos.idx)
      ensures Grew(old(tokens), tokens)
      ensures halt.Crashed? ==> old(currentChar) == Some('-') || Cur.IsAlpha(old(currentChar).value)
      ensures halt.Stopped? ==>
        && old(currentChar) == Some('`') && |errors| > 0
        && errors[|errors| - 1].kind == Cur.IncompleteCommentDelimiter
    {
      var c := currentChar.value;
      halt := Going;
      if c == '\n' || c == ' ' || Cur.IsNum(c) || Cur.IsAlpha(c) || c == '_' || c == '"' {
        halt := StepLiteral();
      } else if c == '#' || c == '`' {
        halt := StepComment();
      } else {
        halt := StepOperator();
      }
    }

    /** Blanks, numbers, keywords and identifiers, and comms. */
    method StepLiteral() returns (halt: Halt)
      requires Valid() && currentChar.Some?
      requires var c := currentChar.value; c == '\n' || c == ' ' || Cur.IsNum(c) || Cur.IsAlpha(c) || c == '_' || c == '"'
      modifies this`currentChar, this`prevChar, pos, this`identifierMap, this`currentId, this`order, this`tokens, this`errors
      ensures Valid() && Cur.MapExtends(old(identifierMap), identifierMap) && pos.idx > old(pos.idx)
      ensures Grew(old(tokens), tokens)
      ensures !halt.Stopped? && (halt.Crashed? ==> Cur.IsAlpha(old(currentChar).value))
    {
      var c := currentChar.value;
      halt := Going;
      if c == '\n' {
        Newlines();
      } else if c == ' ' {
        Spaces();
      } else if Cur.IsNum(c) {
        ghost var i := pos.idx;
        EmitNumber(Cur.NoPrefix);
        ScanNumberOk(text, i, Cur.NoPrefix);
      } else if Cur.IsAlpha(c) {
        var crashed := KeywordTrie();
        if crashed {
          halt := Crashed;
        }
      } else if c == '_' {
        assert Cur.WordEnd(text, pos.idx) > pos.idx;
        TokenizeId("");
      } else {
        StringLiteral();
      }
    }

    /** Comments. */
    method StepComment() returns (halt: Halt)
      requires Valid() && (currentChar == Some('#') || currentChar == Some('`'))
      modifies this`currentChar, this`prevChar, pos, this`identifierMap, this`currentId, this`order, this`tokens, this`errors
      ensures Valid() && Cur.MapExtends(old(identifierMap), identifierMap) && pos.idx > old(pos.idx)
      ensures Grew(old(tokens), tokens)
      ensures !halt.Crashed?
      ensures halt.Stopped? ==>
        && old(currentChar) == Some('`') && |errors| > 0
        && errors[|errors| - 1].kind == Cur.IncompleteCommentDelimiter
    {
      halt := Going;
      if currentChar == Some('#') {
        LineComment();
      } else {
        var stopped := BlockComment(tokens, errors, pos.idx);
        if stopped {
          halt := Stopped;
        }
      }
    }

    /** Operators and punctuation, and the characters of no token. */
    method StepOperator() returns (halt: Halt)
      requires Valid() && currentChar.Some?
      modifies this`currentChar, this`prevChar, pos, this`identifierMap, this`currentId, this`order, this`tokens, this`errors
      ensures Valid() && Cur.MapExtends(old(identifierMap), identifierMap) && pos.idx > old(pos.idx)
      ensures Grew(old(tokens), tokens)
      ensures !halt.Stopped? && (halt.Crashed? ==> old(currentChar) == Some('-'))
    {
      var c := currentChar.value;
      halt := Going;
      if c == '+' {
        PlusSign();
      } else if c == '-' {
        var crashed := MinusSign();
        if crashed {
          halt := Crashed;
        }
      } else if c == '*' || c == '/' || c == '%' || c == '<' || c == '>' {
        CompareOp();
      } else if c == '^' || c == ':' || c == '(' || c == ')' || c == '[' || c == ']' || c == '{' || c == '}' || c == ',' {
        Single();
      } else if c == '.' {
        Period();
      } else if c == '=' || c == '&' || c == '|' {
        Doubled();
      } else if c == '!' {
        Bang();
      } else {
        errors := errors + [Cur.LexError(Cur.UnknownCharacter(c), pos.ln + 1, Some(pos.col + 1))];
        Advance();
      }
    }

    /** `make_tokens`: the two lists when the loop reaches the end of the text;
        `None` when an incomplete opener of a multi-line comment ended it, the last
        error then being that one; and a `TypeError` when Python raised. An empty
        text gives two empty lists. */
    method MakeTokens() returns (r: Result<Option<(seq<Token>, seq<Cur.LexError>)>>)
      requires Valid()
      modifies this`currentChar, this`prevChar, pos, this`identifierMap, this`currentId, this`order, this`tokens, this`errors
      ensures Valid() && Cur.MapExtends(old(identifierMap), identifierMap)
      ensures r.Err? ==> r.exc.kind == TypeError
      ensures r.Ok? && r.value.Some? ==> currentChar.None? && r.value.value == (tokens, errors)
      ensures r.Ok? && r.value.None? ==> |errors| > 0 && errors[|errors| - 1].kind == Cur.IncompleteCommentDelimiter
      ensures old(currentChar).None? ==> r == Ok(Some(([], [])))
    {
      tokens := [];
      errors := [];
      while currentChar.Some?
        invariant Valid() && Cur.MapExtends(old(identifierMap), identifierMap)
        invariant old(currentChar).None? ==> tokens == [] && errors == []
        decreases |text| - pos.idx
      {
        var halt := Step();
        if halt.Crashed? {
          return Fail(TypeError, "argument of type 'NoneType' is not iterable");
        } else if halt.Stopped? {
          return Ok(None);
        }
      }
      return Ok(Some((tokens, errors)));
    }
  }

  /** `run(fn, text)`: the two lists of `make_tokens`, whose tokens are well formed
      under the renaming `ids` the scan built. Unpacking the `None` that an
      incomplete comment opener makes `make_tokens` return raises a `TypeError`,
      like the crashes of the scan itself. */
  method Run(text: string) returns (r: Result<(seq<Token>, seq<Cur.LexError>)>, ghost ids: map<string, string>)
    ensures r.Err? ==> r.exc.kind == TypeError
    ensures r.Ok? ==> TokensOk(r.value.0, ids)
    ensures text == [] ==> r == Ok(([], []))
  {
    var lexer := new Lexer(text);
    var res := lexer.MakeTokens();
    ids := lexer.identifierMap;
    if res.Err? {
      return Err(res.exc), ids;
    }
    if res.value.None? {
      return Fail(TypeError, "cannot unpack non-iterable NoneType object"), ids;
    }
    return Ok(res.value.value), ids;
  }
}
