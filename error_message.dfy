/** The text of a semantic error (ludus/error.py, `SemanticError.__str__` and
    `generate_error_message`): the offending source line with its tabs expanded,
    and a caret underline under the reported columns. */
module ErrorMessage {
  import opened Results
  import Decimal

  /** A position is a `(line, column)` tuple; the source is a list of lines. */
  datatype SemanticErrorObj = SemanticErrorObj(
    message: string,
    posStart: Option<(int, int)>,
    posEnd: Option<(int, int)>,
    sourceCode: Option<seq<string>>)

  // ---- the Python string operations used --------------------------------

  /** `s.replace('\t', ' ' * 4)`. */
  function ExpandTabs(s: string): (r: string)
    ensures '\t' !in r
    ensures |r| == |s| + 3 * CountTabs(s)
  {
    if s == [] then ""
    else (if s[0] == '\t' then "    " else [s[0]]) + ExpandTabs(s[1..])
  }

  function CountTabs(s: string): nat {
    if s == [] then 0 else (if s[0] == '\t' then 1 else 0) + CountTabs(s[1..])
  }

  /** Expanding a line that has no tabs leaves it unchanged. */
  lemma {:induction false} ExpandTabsNoTabs(s: string)
    requires '\t' !in s
    ensures ExpandTabs(s) == s
  {
    if s != [] {
      assert '\t' !in s[1..] by {
        forall k | 0 <= k < |s[1..]| ensures s[1..][k] != '\t' { assert s[1..][k] == s[k + 1]; }
      }
      ExpandTabsNoTabs(s[1..]);
      assert s == [s[0]] + s[1..];
    }
  }

  /** `s[:k]`: a negative `k` counts from the end; both are clamped to the string. */
  function SliceTo(s: string, k: int): (r: string)
    ensures |r| == Clamp(if k < 0 then k + |s| else k, |s|)
    ensures r <= s
  {
    var e := Clamp(if k < 0 then k + |s| else k, |s|);
    s[..e]
  }

  function Clamp(k: int, n: nat): (c: nat)
    ensures c <= n
    ensures 0 <= k <= n ==> c == k
    ensures k < 0 ==> c == 0
    ensures k > n ==> c == n
  {
    if k < 0 then 0 else if k > n then n else k
  }

  /** `" " * n`; empty for `n <= 0`. */
  function Repeat(c: char, n: int): (r: string)
    ensures |r| == (if n > 0 then n else 0)
    ensures forall k :: 0 <= k < |r| ==> r[k] == c
    decreases n
  {
    if n <= 0 then "" else [c] + Repeat(c, n - 1)
  }

  /** `xs[i]` with Python's negative indices; out of range is `None` (an IndexError). */
  function PyIndex(xs: seq<string>, i: int): (r: Option<string>)
    ensures r.Some? <==> -|xs| <= i < |xs|
    ensures r.Some? && i >= 0 ==> r.value == xs[i]
    ensures r.Some? && i < 0 ==> r.value == xs[|xs| + i]
  {
    if 0 <= i < |xs| then Some(xs[i])
    else if -|xs| <= i < 0 then Some(xs[|xs| + i])
    else None
  }

  // ---- the error text --------------------------------------------------------

  /** `len(expanded_line[:col].replace('\t', ' ' * 4))`. */
  function AdjustedCol(expanded: string, col: int): (a: nat)
    requires '\t' !in expanded
    ensures col >= 0 ==> a == if col < |expanded| then col else |expanded|
    ensures col < 0 ==> a == Clamp(col + |expanded|, |expanded|)
  {
    var prefix := SliceTo(expanded, col);
    assert '\t' !in prefix by {
      forall k | 0 <= k < |prefix| ensures prefix[k] != '\t' { assert prefix[k] == expanded[k]; }
    }
    ExpandTabsNoTabs(prefix);
    |ExpandTabs(prefix)|
  }

  /** The underline: `adjusted_start - 1` spaces, then one caret when the columns are
      equal and `max(adjusted_end - adjusted_start, 1) + 1` carets otherwise. */
  function Underline(adjStart: int, adjEnd: int, startCol: int, endCol: int): (u: string)
    ensures |u| == (if adjStart - 1 > 0 then adjStart - 1 else 0) + CaretCount(adjStart, adjEnd, startCol, endCol)
    ensures forall k :: 0 <= k < |u| ==> u[k] == if k >= |u| - CaretCount(adjStart, adjEnd, startCol, endCol) then '^' else ' '
  {
    var underlineLength := if adjEnd - adjStart > 1 then adjEnd - adjStart else 1;
    var lead := Repeat(' ', adjStart - 1);
    var carets := Repeat('^', if startCol == endCol then 1 else underlineLength + 1);
    lead + carets
  }

  /** The number of carets `generate_error_message` draws: one for a single column, otherwise the clamped span plus one. */
  function CaretCount(adjStart: int, adjEnd: int, startCol: int, endCol: int): (n: nat)
    ensures n >= 1
    ensures startCol != endCol ==> n >= 2
  {
    if startCol == endCol then 1
    else (if adjEnd - adjStart > 1 then adjEnd - adjStart else 1) + 1
  }

  /** `generate_error_message`. Reading `pos_end[1]` off a missing end position is a
      Python `TypeError`. */
  function Generate(e: SemanticErrorObj): (r: Result<string>)
    requires e.posStart.Some?
    ensures r.Err? <==> e.sourceCode.Some? && e.sourceCode.value != [] && e.posEnd.None?
    ensures r.Err? ==> r.exc.kind == TypeError
  {
    if e.sourceCode.None? || e.sourceCode.value == [] then
      Ok("Semantic Error: " + e.message)
    else if e.posEnd.None? then
      Fail(TypeError, "'NoneType' object is not subscriptable")
    else
      var lineNum := e.posStart.value.0;
      var startCol := e.posStart.value.1;
      var endCol := e.posEnd.value.1;
      match PyIndex(e.sourceCode.value, lineNum - 1)
      case None => Ok("Semantic Error at unknown position: " + e.message)
      case Some(errorLine) =>
        var expanded := ExpandTabs(errorLine);
        Ok(Located(lineNum, expanded, UnderlineFor(expanded, startCol, endCol), e.message))
  }

  /** The underline for the columns `startCol` and `endCol` of an expanded line. */
  function UnderlineFor(expanded: string, startCol: int, endCol: int): string
    requires '\t' !in expanded
  {
    Underline(AdjustedCol(expanded, startCol), AdjustedCol(expanded, endCol), startCol, endCol)
  }

  /** The located layout: a header naming the line, a blank line, the line, the
      underline, a blank line and the message. */
  function Located(lineNum: int, shown: string, underline: string, message: string): string {
    Header(lineNum) + shown + "\n" + underline + "\n\n" + message
  }

  /** The first line of the located layout and the blank line after it. */
  function Header(lineNum: int): string {
    "Semantic Error found on line " + Decimal.IntToString(lineNum) + ":\n\n"
  }

  /** `out` begins with `header` followed by `shown`, and ends with `message`. */
  predicate LaidOut(out: string, header: string, shown: string, message: string) {
    && |header| + |shown| <= |out| && |message| <= |out|
    && out[..|header|] == header
    && out[|header|..|header| + |shown|] == shown
    && out[..|header| + |shown|] == header + shown
    && out[|out| - |message|..] == message
  }

  /** `str(error)`: without a start position, the bare message. */
  function Str(e: SemanticErrorObj): (r: Result<string>)
    ensures e.posStart.None? ==> r == Ok("Semantic Error: " + e.message)
    ensures e.posStart.Some? ==> r == Generate(e)
  {
    if e.posStart.Some? then Generate(e) else Ok("Semantic Error: " + e.message)
  }

  // ---- properties --------------------------------------------------------------

  /** The located message ends with the error message, and the shown line (between
      the header and the underline) is the source line with tabs expanded. */
  lemma LocatedShape(e: SemanticErrorObj, lines: seq<string>, ln: int, sc: int, ec: int)
    requires e.posStart == Some((ln, sc)) && e.posEnd.Some? && e.posEnd.value.1 == ec
    requires e.sourceCode == Some(lines) && 1 <= ln <= |lines|
    ensures Str(e).Ok?
    ensures LaidOut(Str(e).value, Header(ln), ExpandTabs(lines[ln - 1]), e.message)
    ensures '\t' !in ExpandTabs(lines[ln - 1])
  {
    var shown := ExpandTabs(lines[ln - 1]);
    var u := UnderlineFor(shown, sc, ec);
    var out := Located(ln, shown, u, e.message);
    assert Str(e) == Ok(out) by {
      assert PyIndex(lines, ln - 1) == Some(lines[ln - 1]);
    }
    LocatedLayout(ln, shown, u, e.message);
  }

  /** The pieces of the located layout sit where they are put. */
  lemma LocatedLayout(lineNum: int, shown: string, underline: string, message: string)
    ensures LaidOut(Located(lineNum, shown, underline, message), Header(lineNum), shown, message)
    ensures |Located(lineNum, shown, underline, message)| == |Header(lineNum)| + |shown| + |underline| + 3 + |message|
  {
    var out := Located(lineNum, shown, underline, message);
    var header := Header(lineNum);
    var hs := header + shown;
    var pre := hs + "\n" + underline + "\n\n";
    assert out == pre + message;
    assert out[..|hs|] == hs;
    assert hs[..|header|] == header && hs[|header|..] == shown;
  }

  /** A line number past the end of the source (or before its start, counting
      Python's negative indices) gives the unknown-position text. */
  lemma UnknownPosition(e: SemanticErrorObj, lines: seq<string>, ln: int)
    requires e.posStart.Some? && e.posStart.value.0 == ln && e.posEnd.Some?
    requires e.sourceCode == Some(lines) && lines != []
    requires ln > |lines| || ln - 1 < -|lines|
    ensures Str(e) == Ok("Semantic Error at unknown position: " + e.message)
  {
  }

  /** Line 0 is not rejected: `source_code[-1]` shows the last line. */
  lemma LineZeroShowsLastLine(e: SemanticErrorObj, lines: seq<string>)
    requires e.posStart.Some? && e.posStart.value.0 == 0 && e.posEnd.Some?
    requires e.sourceCode == Some(lines) && lines != []
    ensures Str(e).Ok?
    ensures LaidOut(Str(e).value, "Semantic Error found on line 0:\n\n", ExpandTabs(lines[|lines| - 1]), e.message)
  {
    var shown := ExpandTabs(lines[|lines| - 1]);
    var sc, ec := e.posStart.value.1, e.posEnd.value.1;
    var u := UnderlineFor(shown, sc, ec);
    assert Str(e) == Ok(Located(0, shown, u, e.message)) by {
      assert PyIndex(lines, -1) == Some(lines[|lines| - 1]);
    }
    HeaderOfLineZero();
    LocatedLayout(0, shown, u, e.message);
  }

  lemma HeaderOfLineZero()
    ensures Header(0) == "Semantic Error found on line 0:\n\n"
  {
    assert Decimal.IntToString(0) == "0";
  }

  /** With a non-negative start column inside the expanded line, the underline's
      carets begin right below that column (1-based). */
  lemma CaretUnderColumn(expanded: string, sc: int, ec: int)
    requires '\t' !in expanded && 1 <= sc <= |expanded|
    ensures var u := Underline(AdjustedCol(expanded, sc), AdjustedCol(expanded, ec), sc, ec);
      u[sc - 1] == '^' && forall k :: 0 <= k < sc - 1 ==> u[k] == ' '
  {
    var u := Underline(AdjustedCol(expanded, sc), AdjustedCol(expanded, ec), sc, ec);
    var n := CaretCount(AdjustedCol(expanded, sc), AdjustedCol(expanded, ec), sc, ec);
    assert |u| == sc - 1 + n;
  }
}
