/** The line-number gutter of the web editor (web/main.js, `updateLineNumbers`):
    the HTML string with one `<n><br>` entry per line of the editor text. Only the
    string is modelled; writing it into the page is left out. */
module Gutter {
  import Decimal

  /** JavaScript `text.split("\n")`: the pieces between newlines. */
  function SplitLines(text: string): (pieces: seq<string>)
    ensures |pieces| >= 1
    ensures forall i :: 0 <= i < |pieces| ==> '\n' !in pieces[i]
  {
    if text == [] then [""]
    else
      var rest := SplitLines(text[1..]);
      if text[0] == '\n' then [""] + rest
      else [[text[0]] + rest[0]] + rest[1..]
  }

  /** Joining the pieces with newlines gives the text back. */
  function JoinLines(pieces: seq<string>): string
    requires |pieces| >= 1
  {
    if |pieces| == 1 then pieces[0] else pieces[0] + "\n" + JoinLines(pieces[1..])
  }

  lemma {:induction false} SplitJoin(text: string)
    ensures JoinLines(SplitLines(text)) == text
  {
    if text != [] {
      SplitJoin(text[1..]);
      var rest := SplitLines(text[1..]);
      if text[0] == '\n' {
        assert SplitLines(text)[1..] == rest;
      } else {
        var p := SplitLines(text);
        assert p[1..] == rest[1..];
        if |rest| == 1 {
          assert JoinLines(p) == [text[0]] + rest[0];
        } else {
          assert JoinLines(rest) == rest[0] + "\n" + JoinLines(rest[1..]);
        }
      }
    }
  }

  function CountChar(s: string, c: char): nat {
    if s == [] then 0 else (if s[0] == c then 1 else 0) + CountChar(s[1..], c)
  }

  /** `text.split("\n").length` is the number of newlines plus one. */
  lemma {:induction false} SplitCount(text: string)
    ensures |SplitLines(text)| == CountChar(text, '\n') + 1
  {
    if text != [] {
      SplitCount(text[1..]);
    }
  }

  /** The gutter for `n` lines: `1<br>2<br>...n<br>`, in ascending order. */
  function GutterHtml(n: nat): string {
    if n == 0 then "" else GutterHtml(n - 1) + Decimal.NatToString(n) + "<br>"
  }

  /** `updateLineNumbers`: count the lines, then append `i + "<br>"` for i = 1..lines. */
  method UpdateLineNumbers(text: string) returns (html: string)
    ensures html == GutterHtml(CountChar(text, '\n') + 1)
  {
    var lines := |SplitLines(text)|;
    SplitCount(text);
    html := "";
    var i := 1;
    while i <= lines
      invariant 1 <= i <= lines + 1
      invariant html == GutterHtml(i - 1)
    {
      html := html + Decimal.NatToString(i) + "<br>";
      i := i + 1;
    }
  }

  /** Number of (possibly overlapping) occurrences of `pat` in `s`. */
  function Occurrences(s: string, pat: string): nat
    decreases |s|
  {
    if |s| < |pat| || pat == [] then 0
    else (if s[..|pat|] == pat then 1 else 0) + Occurrences(s[1..], pat)
  }

  lemma {:induction false} NoAngleNoBreak(s: string)
    requires '<' !in s
    ensures Occurrences(s, "<br>") == 0
    decreases |s|
  {
    if |s| >= 4 {
      assert s[..4][0] == s[0];
      NoAngleNoBreak(s[1..]);
    }
  }

  /** Occurrences add up over a split point where no occurrence can straddle:
      the left part is empty or ends in `>`. */
  lemma {:induction false} OccurrencesAppend(x: string, y: string)
    requires x == [] || x[|x| - 1] == '>'
    ensures Occurrences(x + y, "<br>") == Occurrences(x, "<br>") + Occurrences(y, "<br>")
    decreases |x|
  {
    if x != [] {
      var s := x + y;
      assert s[1..] == x[1..] + y;
      if |x| >= 4 {
        assert s[..4] == x[..4];
        OccurrencesAppend(x[1..], y);
        assert Occurrences(s, "<br>") == (if x[..4] == "<br>" then 1 else 0) + Occurrences(s[1..], "<br>");
      } else {
        ShortPrefix(x, y);
      }
    } else {
      assert x + y == y;
    }
  }

  /** A short left part ending in `>` (or empty) never starts a match in `x + y`. */
  lemma {:induction false} ShortPrefix(x: string, y: string)
    requires |x| < 4 && (x == [] || x[|x| - 1] == '>')
    ensures Occurrences(x + y, "<br>") == Occurrences(y, "<br>")
    decreases |x|
  {
    if x != [] {
      var s := x + y;
      assert s[1..] == x[1..] + y;
      if |s| >= 4 {
        // a match at the start of s would need '<', 'b' or 'r' where x ends in '>'
        assert s[..4][|x| - 1] == '>';
        NotGt(|x| - 1);
        assert s[..4] != "<br>";
        assert Occurrences(s, "<br>") == Occurrences(s[1..], "<br>");
      } else {
        assert Occurrences(y, "<br>") == 0;
      }
      ShortPrefix(x[1..], y);
    } else {
      assert x + y == y;
    }
  }

  lemma NotGt(k: nat)
    requires k < 3
    ensures "<br>"[k] != '>'
  {
    if k == 0 {} else if k == 1 {} else {}
  }

  /** The gutter for `n` lines holds exactly `n` line breaks. */
  lemma {:induction false} GutterBreaks(n: nat)
    ensures Occurrences(GutterHtml(n), "<br>") == n
  {
    if n > 0 {
      GutterBreaks(n - 1);
      var d := Decimal.NatToString(n);
      var prev := GutterHtml(n - 1);
      assert GutterHtml(n) == prev + (d + "<br>");
      assert prev == [] || prev[|prev| - 1] == '>' by { GutterEnd(n - 1); }
      OccurrencesAppend(prev, d + "<br>");
      assert '<' !in d by {
        forall k | 0 <= k < |d| ensures d[k] != '<' { assert Decimal.IsDigit(d[k]); }
      }
      DigitsThenBreak(d);
    }
  }

  lemma GutterEnd(n: nat)
    ensures GutterHtml(n) == [] || GutterHtml(n)[|GutterHtml(n)| - 1] == '>'
  {
  }

  lemma {:induction false} DigitsThenBreak(d: string)
    requires '<' !in d
    ensures Occurrences(d + "<br>", "<br>") == 1
    decreases |d|
  {
    if d == [] {
      assert Occurrences("", "<br>") == 0;
      assert ("<br>")[1..] == "br>";
    } else {
      var s := d + "<br>";
      assert s[1..] == d[1..] + "<br>";
      assert s[0] == d[0];
      DigitsThenBreak(d[1..]);
    }
  }

  /** An empty editor shows the single entry `1<br>`. */
  lemma EmptyTextGutter()
    ensures GutterHtml(CountChar("", '\n') + 1) == "1<br>"
  {
    assert Decimal.NatToString(1) == "1";
  }

  /** The gutter only grows as lines are added: each gutter starts with the smaller one. */
  lemma {:induction false} GutterPrefix(m: nat, n: nat)
    requires m <= n
    ensures GutterHtml(m) <= GutterHtml(n)
    decreases n
  {
    if m < n {
      GutterPrefix(m, n - 1);
    }
  }
}
