/**
 * The browser-side formatting of an assistant reply (script.js): the reply is
 * HTML-escaped, line breaks become `<br>`, a line-initial `- ` or `* ` becomes a
 * bullet and a line-initial number followed by `.` is set in bold.
 *
 * Escaping follows the "escaping a string" step of the HTML fragment
 * serialisation algorithm (HTML Living Standard, section 13.3) in text-node mode.
 * The three `replace` calls with a `/gm` regular expression are modelled by a scan
 * that tracks whether the current position is a line start in the sense of
 * ECMAScript's multiline `^`: the start of the string, or just after one of the
 * line terminators LF, CR, U+2028 and U+2029.
 */
module MessageFormat {

  const NoBreakSpace: char := '\U{00A0}'

  /** The bullet `•` and its following space. */
  const Bullet: string := "\U{2022} "

  /** ECMAScript's LineTerminator characters, after which a multiline `^` matches. */
  predicate IsLineTerminator(c: char) {
    c == '\n' || c == '\r' || c == '\U{2028}' || c == '\U{2029}'
  }

  /** The class `\d`: ASCII digits only. */
  predicate IsDigit(c: char) {
    '0' <= c <= '9'
  }

  /** No line terminator occurs in `s`, so `^` can match only at its start. */
  predicate OnOneLine(s: string) {
    forall i | 0 <= i < |s| :: !IsLineTerminator(s[i])
  }

  /** The only line terminators of `s` are LF characters. */
  predicate OnlyNewlineBreaks(s: string) {
    forall i | 0 <= i < |s| :: IsLineTerminator(s[i]) ==> s[i] == '\n'
  }

  // ---------------------------------------------------------------------------
  // The markup an output may contain

  /** A character that reads as text in HTML content. */
  predicate IsPlain(c: char) {
    c != '<' && c != '>' && c != '&'
  }

  /** The inserted tags and the entity references produced by escaping. */
  predicate IsToken(t: string) {
    || t == "<br>" || t == "<strong>" || t == "</strong>"
    || t == "&amp;" || t == "&lt;" || t == "&gt;" || t == "&nbsp;"
  }

  /**
   * `s` is plain text, `<br>`, `<strong>` and `</strong>` tags and entity references:
   * no other tag, and no `<`, `>` or `&` outside them.
   */
  predicate SafeMarkup(s: string)
    decreases |s|
  {
    || |s| == 0
    || (IsPlain(s[0]) && SafeMarkup(s[1..]))
    || (exists n | 1 <= n <= |s| :: IsToken(s[..n]) && SafeMarkup(s[n..]))
  }

  lemma ConsThrough(w: string, x: string)
    requires |w| > 0
    ensures [w[0]] + (w[1..] + x) == w + x
  {
    assert [w[0]] + w[1..] == w;
  }

  /** Dropping the first character of a string that starts with the token `s[..n]`. */
  lemma TailThroughToken(s: string, n: nat)
    requires 1 <= n <= |s|
    ensures s[1..] == s[..n][1..] + s[n..]
  {
  }

  lemma TokenShape(t: string)
    requires IsToken(t)
    ensures |t| > 0 && !IsPlain(t[0]) && OnOneLine(t)
  {
  }

  lemma SafePlain(c: char, s: string)
    requires IsPlain(c) && SafeMarkup(s)
    ensures SafeMarkup([c] + s)
  {
    assert ([c] + s)[1..] == s;
  }

  lemma SafeToken(t: string, s: string)
    requires IsToken(t) && SafeMarkup(s)
    ensures SafeMarkup(t + s)
  {
    var n := |t|;
    assert (t + s)[..n] == t && (t + s)[n..] == s;
  }

  lemma {:induction false} SafePlains(w: string, s: string)
    requires forall i | 0 <= i < |w| :: IsPlain(w[i])
    requires SafeMarkup(s)
    ensures SafeMarkup(w + s)
    decreases |w|
  {
    if |w| == 0 {
      assert w + s == s;
    } else {
      SafePlains(w[1..], s);
      SafePlain(w[0], w[1..] + s);
      ConsThrough(w, s);
    }
  }

  /** A plain first character is read as text, so the rest is safe on its own. */
  lemma SafeDropPlain(s: string)
    requires SafeMarkup(s) && |s| > 0 && IsPlain(s[0])
    ensures SafeMarkup(s[1..])
  {
    if !SafeMarkup(s[1..]) {
      var n :| 1 <= n <= |s| && IsToken(s[..n]) && SafeMarkup(s[n..]);
      TokenShape(s[..n]);
      assert false;
    }
  }

  lemma {:induction false} SafeDropPlains(s: string, k: nat)
    requires SafeMarkup(s) && k <= |s|
    requires forall i | 0 <= i < k :: IsPlain(s[i])
    ensures SafeMarkup(s[k..])
    decreases k
  {
    if k > 0 {
      SafeDropPlain(s);
      SafeDropPlains(s[1..], k - 1);
      assert s[1..][k - 1..] == s[k..];
    }
  }

  // ---------------------------------------------------------------------------
  // escapeHtml

  predicate NeedsEscape(c: char) {
    c == '&' || c == NoBreakSpace || c == '<' || c == '>'
  }

  /** The serialisation of one character of a text node. */
  function EscapeChar(c: char): (r: string)
    ensures NeedsEscape(c) ==> IsToken(r) && |r| > 1
    ensures !NeedsEscape(c) ==> r == [c]
    ensures forall i | 0 <= i < |r| :: r[i] != '<' && r[i] != '>' && r[i] != NoBreakSpace
    ensures forall i | 0 <= i < |r| :: IsLineTerminator(r[i]) ==> r[i] == c
  {
    if c == '&' then "&amp;"
    else if c == NoBreakSpace then "&nbsp;"
    else if c == '<' then "&lt;"
    else if c == '>' then "&gt;"
    else [c]
  }

  /** The `innerHTML` of an element whose only child is a text node holding `s`. */
  function EscapeHtml(s: string): (r: string)
    ensures |r| >= |s|
    ensures r == s <==> forall i | 0 <= i < |s| :: !NeedsEscape(s[i])
    ensures forall i | 0 <= i < |r| :: r[i] != '<' && r[i] != '>' && r[i] != NoBreakSpace
    ensures OnlyNewlineBreaks(s) ==> OnlyNewlineBreaks(r)
    decreases |s|
  {
    if |s| == 0 then "" else EscapeChar(s[0]) + EscapeHtml(s[1..])
  }

  /** Reads entity references back as the characters they stand for. */
  function Unescape(s: string): string
    decreases |s|
  {
    if |s| == 0 then ""
    else if "&amp;" <= s then "&" + Unescape(s[5..])
    else if "&nbsp;" <= s then [NoBreakSpace] + Unescape(s[6..])
    else if "&lt;" <= s then "<" + Unescape(s[4..])
    else if "&gt;" <= s then ">" + Unescape(s[4..])
    else [s[0]] + Unescape(s[1..])
  }

  lemma UnescapeEntity(e: string, c: char, rest: string)
    requires (e == "&amp;" && c == '&') || (e == "&nbsp;" && c == NoBreakSpace)
          || (e == "&lt;" && c == '<') || (e == "&gt;" && c == '>')
    ensures Unescape(e + rest) == [c] + Unescape(rest)
  {
    var s := e + rest;
    assert s[..|e|] == e && s[|e|..] == rest;
    assert s[0] == '&' && s[1] == e[1];
  }

  lemma UnescapePlain(c: char, rest: string)
    requires c != '&'
    ensures Unescape([c] + rest) == [c] + Unescape(rest)
  {
    var s := [c] + rest;
    assert s[0] == c && s[1..] == rest;
  }

  lemma UnescapeEscapeChar(c: char, rest: string)
    ensures Unescape(EscapeChar(c) + rest) == [c] + Unescape(rest)
  {
    if c == '&' {
      UnescapeEntity("&amp;", c, rest);
    } else if c == NoBreakSpace {
      UnescapeEntity("&nbsp;", c, rest);
    } else if c == '<' {
      UnescapeEntity("&lt;", c, rest);
    } else if c == '>' {
      UnescapeEntity("&gt;", c, rest);
    } else {
      UnescapePlain(c, rest);
    }
  }

  /** Escaping loses nothing: the text is recovered from the markup. */
  lemma {:induction false} UnescapeEscape(s: string)
    ensures Unescape(EscapeHtml(s)) == s
    decreases |s|
  {
    if |s| > 0 {
      UnescapeEscape(s[1..]);
      UnescapeEscapeChar(s[0], EscapeHtml(s[1..]));
      assert [s[0]] + s[1..] == s;
    }
  }

  lemma {:induction false} EscapeSafe(s: string)
    ensures SafeMarkup(EscapeHtml(s))
    decreases |s|
  {
    if |s| > 0 {
      EscapeSafe(s[1..]);
      if NeedsEscape(s[0]) {
        SafeToken(EscapeChar(s[0]), EscapeHtml(s[1..]));
      } else {
        SafePlain(s[0], EscapeHtml(s[1..]));
      }
    }
  }

  // ---------------------------------------------------------------------------
  // message.replace(/\n/g, '<br>')

  function NewlinesToBreaks(s: string): string
    decreases |s|
  {
    if |s| == 0 then ""
    else (if s[0] == '\n' then "<br>" else [s[0]]) + NewlinesToBreaks(s[1..])
  }

  /** Every LF is replaced, so none is left; text without one is returned unchanged. */
  lemma {:induction false} BreaksRemoveNewlines(s: string)
    ensures '\n' !in NewlinesToBreaks(s)
    ensures '\n' !in s ==> NewlinesToBreaks(s) == s
    decreases |s|
  {
    if |s| > 0 {
      BreaksRemoveNewlines(s[1..]);
      assert '\n' !in s ==> '\n' !in s[1..];
      assert '\n' !in s ==> [s[0]] + s[1..] == s;
    }
  }

  /** With LF the only line terminator, the result has none left. */
  lemma {:induction false} BreaksLeaveOneLine(s: string)
    requires OnlyNewlineBreaks(s)
    ensures OnOneLine(NewlinesToBreaks(s))
    decreases |s|
  {
    if |s| > 0 {
      BreaksLeaveOneLine(s[1..]);
      var head := if s[0] == '\n' then "<br>" else [s[0]];
      assert OnOneLine(head);
      var r := NewlinesToBreaks(s);
      assert r == head + NewlinesToBreaks(s[1..]);
      forall i | 0 <= i < |r| ensures !IsLineTerminator(r[i]) {
        if i >= |head| { assert r[i] == NewlinesToBreaks(s[1..])[i - |head|]; }
      }
    }
  }

  lemma {:induction false} BreaksThrough(w: string, s: string)
    requires '\n' !in w
    ensures NewlinesToBreaks(w + s) == w + NewlinesToBreaks(s)
    decreases |w|
  {
    if |w| == 0 {
      assert w + s == s;
    } else {
      assert (w + s)[0] == w[0] && (w + s)[1..] == w[1..] + s;
      BreaksThrough(w[1..], s);
      assert [w[0]] + (w[1..] + NewlinesToBreaks(s)) == w + NewlinesToBreaks(s);
    }
  }

  lemma BreaksPassToken(s: string, n: nat)
    requires 1 <= n <= |s| && IsToken(s[..n])
    ensures NewlinesToBreaks(s) == s[..n] + NewlinesToBreaks(s[n..])
  {
    TokenShape(s[..n]);
    assert '\n' !in s[..n] by {
      forall i | 0 <= i < n ensures s[..n][i] != '\n' {
        assert !IsLineTerminator(s[..n][i]);
      }
    }
    BreaksThrough(s[..n], s[n..]);
    assert s[..n] + s[n..] == s;
  }

  lemma {:induction false} BreaksSafe(s: string)
    requires SafeMarkup(s)
    ensures SafeMarkup(NewlinesToBreaks(s))
    decreases |s|
  {
    if |s| == 0 {
    } else if IsPlain(s[0]) {
      SafeDropPlain(s);
      BreaksSafe(s[1..]);
      if s[0] == '\n' {
        SafeToken("<br>", NewlinesToBreaks(s[1..]));
      } else {
        SafePlain(s[0], NewlinesToBreaks(s[1..]));
      }
    } else {
      var n :| 1 <= n <= |s| && IsToken(s[..n]) && SafeMarkup(s[n..]);
      BreaksPassToken(s, n);
      BreaksSafe(s[n..]);
      SafeToken(s[..n], NewlinesToBreaks(s[n..]));
    }
  }

  // ---------------------------------------------------------------------------
  // message.replace(/^- /gm, '• ') and message.replace(/^\* /gm, '• ')

  /** `pattern` and `replacement` are literal text that no line start can occur inside. */
  predicate PlainText(w: string) {
    forall i | 0 <= i < |w| :: IsPlain(w[i]) && !IsLineTerminator(w[i])
  }

  /**
   * A global multiline replacement of `^pattern`: `atStart` says whether `^`
   * matches at the start of `s`. After a match the scan resumes behind it, where
   * `^` does not match because the pattern ends in no line terminator.
   */
  function ReplaceAtLineStarts(s: string, pattern: string, replacement: string, atStart: bool): string
    requires |pattern| > 0 && PlainText(pattern) && PlainText(replacement)
    decreases |s|
  {
    if |s| == 0 then ""
    else if atStart && pattern <= s then
      replacement + ReplaceAtLineStarts(s[|pattern|..], pattern, replacement, false)
    else [s[0]] + ReplaceAtLineStarts(s[1..], pattern, replacement, IsLineTerminator(s[0]))
  }

  lemma {:induction false} ReplaceThrough(w: string, s: string, pattern: string, replacement: string)
    requires |pattern| > 0 && PlainText(pattern) && PlainText(replacement)
    requires OnOneLine(w)
    ensures ReplaceAtLineStarts(w + s, pattern, replacement, false) == w + ReplaceAtLineStarts(s, pattern, replacement, false)
    decreases |w|
  {
    if |w| == 0 {
      assert w + s == s;
    } else {
      assert (w + s)[0] == w[0] && (w + s)[1..] == w[1..] + s;
      ReplaceThrough(w[1..], s, pattern, replacement);
      assert [w[0]] + (w[1..] + ReplaceAtLineStarts(s, pattern, replacement, false))
          == w + ReplaceAtLineStarts(s, pattern, replacement, false);
    }
  }

  lemma {:induction false} ReplaceSafe(s: string, pattern: string, replacement: string, atStart: bool)
    requires |pattern| > 0 && PlainText(pattern) && PlainText(replacement)
    requires SafeMarkup(s)
    ensures SafeMarkup(ReplaceAtLineStarts(s, pattern, replacement, atStart))
    decreases |s|
  {
    if |s| == 0 {
    } else if atStart && pattern <= s {
      SafeDropPlains(s, |pattern|);
      ReplaceSafe(s[|pattern|..], pattern, replacement, false);
      SafePlains(replacement, ReplaceAtLineStarts(s[|pattern|..], pattern, replacement, false));
    } else if IsPlain(s[0]) {
      SafeDropPlain(s);
      ReplaceSafe(s[1..], pattern, replacement, IsLineTerminator(s[0]));
      SafePlain(s[0], ReplaceAtLineStarts(s[1..], pattern, replacement, IsLineTerminator(s[0])));
    } else {
      var n :| 1 <= n <= |s| && IsToken(s[..n]) && SafeMarkup(s[n..]);
      var t := s[..n];
      TokenShape(t);
      TailThroughToken(s, n);
      ReplaceThrough(t[1..], s[n..], pattern, replacement);
      ReplaceSafe(s[n..], pattern, replacement, false);
      ConsThrough(t, ReplaceAtLineStarts(s[n..], pattern, replacement, false));
      SafeToken(t, ReplaceAtLineStarts(s[n..], pattern, replacement, false));
    }
  }

  /** `s` with `pattern` at its very start replaced: the reference for a text with no line break. */
  function ReplaceFirst(s: string, pattern: string, replacement: string): string {
    if pattern <= s then replacement + s[|pattern|..] else s
  }

  lemma OnOneLineJoin(a: string, b: string)
    requires OnOneLine(a) && OnOneLine(b)
    ensures OnOneLine(a + b)
  {
    forall i | 0 <= i < |a + b| ensures !IsLineTerminator((a + b)[i]) {
      if i >= |a| { assert (a + b)[i] == b[i - |a|]; }
    }
  }

  lemma ReplaceIdle(s: string, pattern: string, replacement: string)
    requires |pattern| > 0 && PlainText(pattern) && PlainText(replacement)
    requires OnOneLine(s)
    ensures ReplaceAtLineStarts(s, pattern, replacement, false) == s
  {
    ReplaceThrough(s, "", pattern, replacement);
    assert s + "" == s;
  }

  /** On a single line the scan acts at the start only, and produces a single line. */
  lemma ReplaceOnOneLine(s: string, pattern: string, replacement: string, atStart: bool)
    requires |pattern| > 0 && PlainText(pattern) && PlainText(replacement)
    requires OnOneLine(s)
    ensures ReplaceAtLineStarts(s, pattern, replacement, atStart)
         == if atStart then ReplaceFirst(s, pattern, replacement) else s
    ensures OnOneLine(ReplaceAtLineStarts(s, pattern, replacement, atStart))
  {
    if |s| > 0 {
      if atStart && pattern <= s {
        ReplaceIdle(s[|pattern|..], pattern, replacement);
        OnOneLineJoin(replacement, s[|pattern|..]);
      } else {
        ReplaceIdle(s[1..], pattern, replacement);
        assert [s[0]] + s[1..] == s;
      }
    }
  }


  /** The replacement holds no LF, so none is introduced. */
  lemma {:induction false} ReplaceKeepsNoNewline(s: string, pattern: string, replacement: string, atStart: bool)
    requires |pattern| > 0 && PlainText(pattern) && PlainText(replacement)
    requires '\n' !in s
    ensures '\n' !in ReplaceAtLineStarts(s, pattern, replacement, atStart)
    decreases |s|
  {
    if |s| > 0 {
      if atStart && pattern <= s {
        assert '\n' !in s[|pattern|..];
        ReplaceKeepsNoNewline(s[|pattern|..], pattern, replacement, false);
        assert '\n' !in replacement by {
          forall i | 0 <= i < |replacement| ensures replacement[i] != '\n' {
            assert !IsLineTerminator(replacement[i]);
          }
        }
      } else {
        assert '\n' !in s[1..];
        ReplaceKeepsNoNewline(s[1..], pattern, replacement, IsLineTerminator(s[0]));
      }
    }
  }

  // ---------------------------------------------------------------------------
  // message.replace(/^(\d+)\./gm, '<strong>$1.</strong>')

  /** The longest run of digits that `s` starts with. */
  function LeadingDigits(s: string): (r: string)
    ensures r <= s
    ensures forall i | 0 <= i < |r| :: IsDigit(r[i])
    ensures |r| < |s| ==> !IsDigit(s[|r|])
    decreases |s|
  {
    if |s| > 0 && IsDigit(s[0]) then [s[0]] + LeadingDigits(s[1..]) else ""
  }

  /** `^(\d+)\.` matches at the start of `s`: the greedy digit run is followed by a full stop. */
  predicate StartsWithNumber(s: string) {
    var d := LeadingDigits(s);
    0 < |d| < |s| && s[|d|] == '.'
  }

  /** The replacement for a matched number `d` and its full stop. */
  function BoldNumber(d: string): string {
    "<strong>" + d + ".</strong>"
  }

  function BoldNumbersAtLineStarts(s: string, atStart: bool): string
    decreases |s|
  {
    if |s| == 0 then ""
    else if atStart && StartsWithNumber(s) then
      BoldNumber(LeadingDigits(s)) + BoldNumbersAtLineStarts(s[|LeadingDigits(s)| + 1..], false)
    else [s[0]] + BoldNumbersAtLineStarts(s[1..], IsLineTerminator(s[0]))
  }

  lemma {:induction false} BoldThrough(w: string, s: string)
    requires OnOneLine(w)
    ensures BoldNumbersAtLineStarts(w + s, false) == w + BoldNumbersAtLineStarts(s, false)
    decreases |w|
  {
    if |w| == 0 {
      assert w + s == s;
    } else {
      assert (w + s)[0] == w[0] && (w + s)[1..] == w[1..] + s;
      BoldThrough(w[1..], s);
      assert [w[0]] + (w[1..] + BoldNumbersAtLineStarts(s, false)) == w + BoldNumbersAtLineStarts(s, false);
    }
  }

  lemma BoldNumberSafe(d: string, s: string)
    requires forall i | 0 <= i < |d| :: IsDigit(d[i])
    requires SafeMarkup(s)
    ensures SafeMarkup(BoldNumber(d) + s)
  {
    SafeToken("</strong>", s);
    SafePlain('.', "</strong>" + s);
    SafePlains(d, ['.'] + ("</strong>" + s));
    SafeToken("<strong>", d + (['.'] + ("</strong>" + s)));
    BoldNumberParts(d, s);
  }

  lemma BoldNumberParts(d: string, s: string)
    ensures BoldNumber(d) + s == "<strong>" + (d + (['.'] + ("</strong>" + s)))
  {
    assert ".</strong>" == ['.'] + "</strong>";
  }

  lemma {:induction false} BoldSafe(s: string, atStart: bool)
    requires SafeMarkup(s)
    ensures SafeMarkup(BoldNumbersAtLineStarts(s, atStart))
    decreases |s|
  {
    if |s| == 0 {
    } else if atStart && StartsWithNumber(s) {
      var d := LeadingDigits(s);
      assert forall i | 0 <= i < |d| + 1 :: IsPlain(s[i]) by {
        forall i | 0 <= i < |d| + 1 ensures IsPlain(s[i]) {
          if i < |d| { assert s[i] == d[i]; }
        }
      }
      SafeDropPlains(s, |d| + 1);
      BoldSafe(s[|d| + 1..], false);
      BoldNumberSafe(d, BoldNumbersAtLineStarts(s[|d| + 1..], false));
    } else if IsPlain(s[0]) {
      SafeDropPlain(s);
      BoldSafe(s[1..], IsLineTerminator(s[0]));
      SafePlain(s[0], BoldNumbersAtLineStarts(s[1..], IsLineTerminator(s[0])));
    } else {
      var n :| 1 <= n <= |s| && IsToken(s[..n]) && SafeMarkup(s[n..]);
      var t := s[..n];
      TokenShape(t);
      assert !StartsWithNumber(s) by {
        assert LeadingDigits(s) == "";
      }
      TailThroughToken(s, n);
      BoldThrough(t[1..], s[n..]);
      BoldSafe(s[n..], false);
      ConsThrough(t, BoldNumbersAtLineStarts(s[n..], false));
      SafeToken(t, BoldNumbersAtLineStarts(s[n..], false));
    }
  }

  // ---------------------------------------------------------------------------
  // The number rule on a single line

  /** `s` with a number and full stop at its very start set in bold. */
  function BoldFirst(s: string): string {
    if StartsWithNumber(s) then BoldNumber(LeadingDigits(s)) + s[|LeadingDigits(s)| + 1..] else s
  }

  /** On a single line only a number at the very start is set in bold; the rest is unchanged. */
  lemma BoldOnOneLine(s: string, atStart: bool)
    requires OnOneLine(s)
    ensures BoldNumbersAtLineStarts(s, atStart) == if atStart then BoldFirst(s) else s
  {
    if |s| > 0 {
      var k := if atStart && StartsWithNumber(s) then |LeadingDigits(s)| + 1 else 1;
      BoldThrough(s[k..], "");
      assert s[k..] + "" == s[k..];
      if k == 1 && !(atStart && StartsWithNumber(s)) {
        assert [s[0]] + s[1..] == s;
      }
    }
  }

  lemma {:induction false} BoldKeepsNoNewline(s: string, atStart: bool)
    requires '\n' !in s
    ensures '\n' !in BoldNumbersAtLineStarts(s, atStart)
    decreases |s|
  {
    if |s| > 0 {
      if atStart && StartsWithNumber(s) {
        var d := LeadingDigits(s);
        assert '\n' !in s[|d| + 1..];
        BoldKeepsNoNewline(s[|d| + 1..], false);
        BoldNumberParts(d, BoldNumbersAtLineStarts(s[|d| + 1..], false));
        assert '\n' !in d by {
          forall i | 0 <= i < |d| ensures d[i] != '\n' { assert IsDigit(d[i]); }
        }
      } else {
        assert '\n' !in s[1..];
        BoldKeepsNoNewline(s[1..], IsLineTerminator(s[0]));
      }
    }
  }

  // ---------------------------------------------------------------------------
  // formatAIMessage

  lemma BulletPatternsArePlain()
    ensures |"- "| > 0 && PlainText("- ") && |"* "| > 0 && PlainText("* ") && PlainText(Bullet)
  {
  }

  lemma StagesSafe(b: string, dash: string, star: string, bullet: string)
    requires |dash| > 0 && PlainText(dash) && |star| > 0 && PlainText(star) && PlainText(bullet)
    requires SafeMarkup(b)
    ensures SafeMarkup(BoldNumbersAtLineStarts(ReplaceAtLineStarts(ReplaceAtLineStarts(b, dash, bullet, true), star, bullet, true), true))
  {
    ReplaceSafe(b, dash, bullet, true);
    var dashes := ReplaceAtLineStarts(b, dash, bullet, true);
    ReplaceSafe(dashes, star, bullet, true);
    BoldSafe(ReplaceAtLineStarts(dashes, star, bullet, true), true);
  }

  lemma StagesKeepNoNewline(b: string, dash: string, star: string, bullet: string)
    requires |dash| > 0 && PlainText(dash) && |star| > 0 && PlainText(star) && PlainText(bullet)
    requires '\n' !in b
    ensures '\n' !in BoldNumbersAtLineStarts(ReplaceAtLineStarts(ReplaceAtLineStarts(b, dash, bullet, true), star, bullet, true), true)
  {
    ReplaceKeepsNoNewline(b, dash, bullet, true);
    var dashes := ReplaceAtLineStarts(b, dash, bullet, true);
    ReplaceKeepsNoNewline(dashes, star, bullet, true);
    BoldKeepsNoNewline(ReplaceAtLineStarts(dashes, star, bullet, true), true);
  }

  /**
   * The reply formatter: escaping, `\n` to `<br>`, the two bullet rules and the
   * number rule, in that order. The only raw markup in its result is the inserted
   * tags and the entity references, and every LF has become `<br>`.
   */
  function FormatAIMessage(message: string): (r: string)
    ensures SafeMarkup(r)
    ensures '\n' !in r
  {
    var escaped := EscapeHtml(message);
    var broken := NewlinesToBreaks(escaped);
    EscapeSafe(message);
    BreaksSafe(escaped);
    BreaksRemoveNewlines(escaped);
    BulletPatternsArePlain();
    StagesSafe(broken, "- ", "* ", Bullet);
    StagesKeepNoNewline(broken, "- ", "* ", Bullet);
    var dashes := ReplaceAtLineStarts(broken, "- ", Bullet, true);
    var stars := ReplaceAtLineStarts(dashes, "* ", Bullet, true);
    BoldNumbersAtLineStarts(stars, true)
  }

  lemma StagesOnOneLine(b: string, dash: string, star: string, bullet: string)
    requires |dash| > 0 && PlainText(dash) && |star| > 0 && PlainText(star) && PlainText(bullet)
    requires OnOneLine(b)
    ensures BoldNumbersAtLineStarts(ReplaceAtLineStarts(ReplaceAtLineStarts(b, dash, bullet, true), star, bullet, true), true)
         == BoldFirst(ReplaceFirst(ReplaceFirst(b, dash, bullet), star, bullet))
  {
    ReplaceOnOneLine(b, dash, bullet, true);
    var dashes := ReplaceAtLineStarts(b, dash, bullet, true);
    ReplaceOnOneLine(dashes, star, bullet, true);
    BoldOnOneLine(ReplaceAtLineStarts(dashes, star, bullet, true), true);
  }

  /**
   * When the reply's only line terminators are LF characters, all of them become
   * `<br>` first, so the bullet and number rules apply at the start of the reply only.
   */
  lemma FormatSingleLine(message: string)
    requires OnlyNewlineBreaks(message)
    ensures FormatAIMessage(message)
         == BoldFirst(ReplaceFirst(ReplaceFirst(NewlinesToBreaks(EscapeHtml(message)), "- ", Bullet), "* ", Bullet))
  {
    BreaksLeaveOneLine(EscapeHtml(message));
    BulletPatternsArePlain();
    StagesOnOneLine(NewlinesToBreaks(EscapeHtml(message)), "- ", "* ", Bullet);
  }
}
