/**
 * The clean-up `parseCmds` applies to CommandScript text before parsing it
 * (src/index.js:261): every CRLF or lone CR becomes LF, every line continuation
 * (blanks, a line break, white space, a `.` and blanks) becomes one space, and a
 * final line feed is added.
 */
module Normalize {

  import opened Outcomes
  import opened Strings

  /** `.replace(/\r\n|\r/g, "\n")`: carriage returns, alone or before a line feed, become line feeds. */
  function UnifyLineEnds(s: string): (r: string)
    ensures '\r' !in r
    ensures |r| <= |s|
    ensures |s| > 0 ==> |r| > 0 && r[0] == (if s[0] == '\r' then '\n' else s[0])
    decreases |s|
  {
    if |s| == 0 then ""
    else if s[0] == '\r' && |s| > 1 && s[1] == '\n' then "\n" + UnifyLineEnds(s[2..])
    else if s[0] == '\r' then "\n" + UnifyLineEnds(s[1..])
    else [s[0]] + UnifyLineEnds(s[1..])
  }

  /** Text without carriage returns is left alone. */
  lemma {:induction false} UnifyLineEndsUnchanged(s: string)
    requires '\r' !in s
    ensures UnifyLineEnds(s) == s
    decreases |s|
  {
    if |s| > 0 {
      UnifyLineEndsUnchanged(s[1..]);
      assert [s[0]] + s[1..] == s;
    }
  }

  /** Lines written with CRLF endings come out as the same lines with LF endings. */
  lemma {:induction false} UnifyLineEndsCrLf(lines: seq<string>)
    requires forall i :: 0 <= i < |lines| ==> '\r' !in lines[i]
    ensures UnifyLineEnds(Join(lines, "\r\n")) == Join(lines, "\n")
  {
    if |lines| == 1 {
      UnifyLineEndsUnchanged(lines[0]);
    } else if |lines| > 1 {
      UnifyLineEndsCrLf(lines[1..]);
      UnifyCrLfStep(lines[0], Join(lines[1..], "\r\n"));
    }
  }

  /** A CRLF after a line without carriage returns becomes a line feed. */
  lemma {:induction false} UnifyCrLfStep(first: string, rest: string)
    requires '\r' !in first
    ensures UnifyLineEnds(first + "\r\n" + rest) == first + "\n" + UnifyLineEnds(rest)
  {
    UnifyLineEndsPrefix(first, "\r\n" + rest);
    assert ("\r\n" + rest)[2..] == rest;
    assert first + "\r\n" + rest == first + ("\r\n" + rest);
    assert first + "\n" + UnifyLineEnds(rest) == first + ("\n" + UnifyLineEnds(rest));
  }

  /** A lone CR, one not followed by a line feed, after a line without carriage returns
      becomes a line feed. */
  lemma {:induction false} UnifyLoneCr(first: string, rest: string)
    requires '\r' !in first
    requires |rest| > 0 ==> rest[0] != '\n'
    ensures UnifyLineEnds(first + "\r" + rest) == first + "\n" + UnifyLineEnds(rest)
  {
    UnifyLineEndsPrefix(first, "\r" + rest);
    UnifyLoneCrHead(rest);
    assert first + "\r" + rest == first + ("\r" + rest);
    assert first + "\n" + UnifyLineEnds(rest) == first + ("\n" + UnifyLineEnds(rest));
  }

  lemma {:induction false} UnifyLoneCrHead(rest: string)
    requires |rest| > 0 ==> rest[0] != '\n'
    ensures UnifyLineEnds("\r" + rest) == "\n" + UnifyLineEnds(rest)
  {
    assert ("\r" + rest)[1..] == rest;
  }

  /** A prefix without carriage returns passes through unchanged. */
  lemma {:induction false} UnifyLineEndsPrefix(p: string, t: string)
    requires '\r' !in p
    ensures UnifyLineEnds(p + t) == p + UnifyLineEnds(t)
    decreases |p|
  {
    if |p| > 0 {
      UnifyLineEndsPrefix(p[1..], t);
      assert (p + t)[0] == p[0] && (p + t)[1..] == p[1..] + t;
      assert UnifyLineEnds(p + t) == [p[0]] + UnifyLineEnds(p[1..] + t);
      assert [p[0]] + (p[1..] + UnifyLineEnds(t)) == p + UnifyLineEnds(t);
    } else {
      assert p + t == t;
    }
  }

  /** The characters `[ \t]` matches. */
  predicate IsBlank(c: char) { c == ' ' || c == '\t' }

  /** The length of the run of blanks at the front of `s`. */
  function Blanks(s: string): (k: nat)
    ensures k <= |s|
    ensures forall i :: 0 <= i < k ==> IsBlank(s[i])
    ensures k < |s| ==> !IsBlank(s[k])
  {
    if |s| > 0 && IsBlank(s[0]) then 1 + Blanks(s[1..]) else 0
  }

  /**
   * The length of the match of `/[ \t]+\n\s+\.[ \t]+/` at the front of `s`, if any. Each
   * repetition is maximal: giving back a character never helps, because the character that
   * must follow each run (`\n`, `.`, or nothing) is not one the run takes.
   */
  function ContinuationAt(s: string): (r: Option<nat>)
    ensures r.Some? ==> 5 <= r.value <= |s| && IsBlank(s[0])
    ensures r.Some? ==> Blanks(s) < r.value && s[Blanks(s)] == '\n'
  {
    var a := Blanks(s);
    if a == 0 || a >= |s| || s[a] != '\n' then None
    else match DotRun(s[a + 1..])
         case None => None
         case Some(k) => Some(a + 1 + k)
  }

  /** The length of the match of `\s+\.[ \t]+`, the part after the line break, at the front
      of `t`, if any. */
  function DotRun(t: string): (r: Option<nat>)
    ensures r.Some? ==> 3 <= r.value <= |t|
  {
    var b := LeadingSpaces(t);
    if b == 0 || b >= |t| || t[b] != '.' then None
    else
      var c := Blanks(t[b + 1..]);
      if c == 0 then None else Some(b + 1 + c)
  }

  /** `.replace(/[ \t]+\n\s+\.[ \t]+/g, " ")`: scanning from the left, each match becomes one
      space and the scan resumes after it. */
  function JoinContinuations(s: string): (r: string)
    ensures |r| <= |s|
    ensures forall c :: c in r ==> c in s || c == ' '
    decreases |s|
  {
    if |s| == 0 then ""
    else match ContinuationAt(s)
         case Some(k) => " " + JoinContinuations(s[k..])
         case None => [s[0]] + JoinContinuations(s[1..])
  }

  /** Text with no line break holds no continuation and is left alone. */
  lemma {:induction false} JoinContinuationsSingleLine(s: string)
    requires '\n' !in s
    ensures JoinContinuations(s) == s
    decreases |s|
  {
    if |s| > 0 {
      assert s[..|s|] == s;
      JoinContinuationsSingleLine(s[1..]);
      assert [s[0]] + s[1..] == s;
    }
  }

  /** A run of blanks that ends inside `p` does not reach the text after `p`. */
  lemma {:induction false} BlanksStayInside(p: string, t: string)
    requires |p| > 0 && !IsBlank(p[|p| - 1])
    ensures Blanks(p + t) == Blanks(p) < |p|
    decreases |p|
  {
    if IsBlank(p[0]) {
      assert |p| > 1;
      BlanksStayInside(p[1..], t);
      assert (p + t)[1..] == p[1..] + t;
    }
  }

  /** A line that holds no line break and does not end in a blank is copied through, whatever follows. */
  lemma {:induction false} JoinContinuationsPrefix(p: string, t: string)
    requires '\n' !in p
    requires |p| > 0 ==> !IsBlank(p[|p| - 1])
    ensures JoinContinuations(p + t) == p + JoinContinuations(t)
    decreases |p|
  {
    if |p| == 0 {
      assert p + t == t;
    } else {
      var p' := p[1..];
      assert p == [p[0]] + p';
      assert |p'| > 0 ==> p'[|p'| - 1] == p[|p| - 1];
      JoinContinuationsPrefix(p', t);
      NoContinuationInLine(p, t);
      CopiesFirst(p, t);
      Glue(p[0], p', JoinContinuations(p + t), JoinContinuations(p' + t), JoinContinuations(t));
    }
  }

  /** Where no continuation starts, the first character is copied. */
  lemma CopiesFirst(p: string, t: string)
    requires |p| > 0 && ContinuationAt(p + t).None?
    ensures JoinContinuations(p + t) == [p[0]] + JoinContinuations(p[1..] + t)
  {
    assert (p + t)[1..] == p[1..] + t;
  }

  /** `a` is `c` before `b`, and `b` is `q` before `r`: so `a` is `c` and `q` before `r`. */
  lemma Glue(c: char, q: string, a: string, b: string, r: string)
    requires a == [c] + b && b == q + r
    ensures a == ([c] + q) + r
  {
    assert [c] + (q + r) == ([c] + q) + r;
  }

  /** No continuation starts inside a line that does not end in a blank. */
  lemma NoContinuationInLine(p: string, t: string)
    requires '\n' !in p
    requires |p| > 0 && !IsBlank(p[|p| - 1])
    ensures ContinuationAt(p + t).None?
  {
    BlanksStayInside(p, t);
    assert (p + t)[Blanks(p + t)] == p[Blanks(p)];
  }

  /** `[ \t]+`: a non-empty run of blanks. */
  predicate BlankRun(s: string) { |s| > 0 && forall i :: 0 <= i < |s| ==> IsBlank(s[i]) }

  /** `\s+`: a non-empty run of white space. */
  predicate SpaceRun(s: string) { |s| > 0 && forall i :: 0 <= i < |s| ==> IsSpace(s[i]) }

  /** A line continuation: blanks, a line feed, white space (blank lines included), a `.`
      and blanks. */
  function Continuation(b: string, w: string, c: string): string
  {
    b + "\n" + w + "." + c
  }

  /** The blanks at the front of a run of blanks followed by a non-blank are the run. */
  lemma {:induction false} BlanksOfRun(b: string, x: string)
    requires forall i :: 0 <= i < |b| ==> IsBlank(b[i])
    requires |x| > 0 ==> !IsBlank(x[0])
    ensures Blanks(b + x) == |b|
    decreases |b|
  {
    if |b| == 0 {
      assert b + x == x;
    } else {
      BlanksOfRun(b[1..], x);
      assert (b + x)[1..] == b[1..] + x;
    }
  }

  /** The white space at the front of a run of white space followed by a non-space is the run. */
  lemma {:induction false} SpacesOfRun(w: string, x: string)
    requires forall i :: 0 <= i < |w| ==> IsSpace(w[i])
    requires |x| > 0 ==> !IsSpace(x[0])
    ensures LeadingSpaces(w + x) == |w|
    decreases |w|
  {
    if |w| == 0 {
      assert w + x == x;
    } else {
      SpacesOfRun(w[1..], x);
      assert (w + x)[1..] == w[1..] + x;
    }
  }

  /** Every continuation is matched at its full length, as long as what follows it does not
      start with a blank (which the last run would take as well). */
  lemma {:induction false} ContinuationMatches(b: string, w: string, c: string, rest: string)
    requires BlankRun(b) && SpaceRun(w) && BlankRun(c)
    requires |rest| > 0 ==> !IsBlank(rest[0])
    ensures ContinuationAt(Continuation(b, w, c) + rest) == Some(|Continuation(b, w, c)|)
  {
    var v := w + ("." + (c + rest));
    DotRunOfPieces(w, c, rest);
    MatchOfPieces(b, v, |w| + 1 + |c|);
    SameMatch(b, w, c, rest, |b| + 1 + (|w| + 1 + |c|));
  }

  /** The match on the regrouped text is the match on the continuation followed by the rest. */
  lemma {:induction false} SameMatch(b: string, w: string, c: string, rest: string, k: nat)
    requires k == |b| + 1 + (|w| + 1 + |c|)
    requires ContinuationAt(b + ("\n" + (w + ("." + (c + rest))))) == Some(k)
    ensures ContinuationAt(Continuation(b, w, c) + rest) == Some(|Continuation(b, w, c)|)
  {
    ContinuationPieces(b, w, c, rest);
  }

  /** Where the pieces of a continuation sit in the text. */
  lemma {:induction false} ContinuationPieces(b: string, w: string, c: string, rest: string)
    ensures Continuation(b, w, c) + rest == b + ("\n" + (w + ("." + (c + rest))))
    ensures |Continuation(b, w, c)| == |b| + 1 + (|w| + 1 + |c|)
  {
  }

  /** White space, a dot and blanks, followed by a non-blank, are a dot run of that length. */
  lemma {:induction false} DotRunOfPieces(w: string, c: string, rest: string)
    requires SpaceRun(w) && BlankRun(c)
    requires |rest| > 0 ==> !IsBlank(rest[0])
    ensures DotRun(w + ("." + (c + rest))) == Some(|w| + 1 + |c|)
  {
    var y := "." + (c + rest);
    assert y[1..] == c + rest;
    BlanksOfRun(c, rest);
    DotRunAfterSpaces(w, y);
  }

  /** Blanks, a line feed and a dot run are a match that ends where the dot run does. */
  lemma {:induction false} MatchOfPieces(b: string, v: string, k: nat)
    requires BlankRun(b) && DotRun(v) == Some(k)
    ensures ContinuationAt(b + ("\n" + v)) == Some(|b| + 1 + k)
  {
    var x := "\n" + v;
    assert x[1..] == v;
    ContinuationAfterBlanks(b, x);
  }

  /** After a run of blanks and a line feed, the match is the dot run after the line feed. */
  lemma {:induction false} ContinuationAfterBlanks(b: string, x: string)
    requires BlankRun(b) && |x| > 0 && x[0] == '\n'
    ensures ContinuationAt(b + x) == match DotRun(x[1..]) case None => None case Some(k) => Some(|b| + 1 + k)
  {
    BlanksOfRun(b, x);
    assert (b + x)[|b|] == '\n';
    assert (b + x)[|b| + 1..] == x[1..];
  }

  /** After white space and a dot, the dot run goes on over the blanks after the dot. */
  lemma {:induction false} DotRunAfterSpaces(w: string, y: string)
    requires SpaceRun(w) && |y| > 0 && y[0] == '.'
    ensures DotRun(w + y) == if Blanks(y[1..]) == 0 then None else Some(|w| + 1 + Blanks(y[1..]))
  {
    SpacesOfRun(w, y);
    assert (w + y)[|w|] == '.';
    assert (w + y)[|w| + 1..] == y[1..];
  }

  /** Conversely, every match is a continuation, and the character after it is not a blank. */
  lemma {:induction false} ContinuationShape(s: string)
    requires ContinuationAt(s).Some?
    ensures var k := ContinuationAt(s).value;
            (exists b, w, c :: BlankRun(b) && SpaceRun(w) && BlankRun(c) && s[..k] == Continuation(b, w, c))
            && (k < |s| ==> !IsBlank(s[k]))
  {
    var k := ContinuationAt(s).value;
    var a := Blanks(s);
    var t := s[a + 1..];
    var m := LeadingSpaces(t);
    var u := t[m + 1..];
    var n := Blanks(u);
    assert k == a + 1 + m + 1 + n;
    var b, w, c := s[..a], t[..m], u[..n];
    assert BlankRun(b) && SpaceRun(w) && BlankRun(c);
    ShapeOfMatch(s, a, m, n, b, w, c);
    assert k < |s| ==> s[k] == u[n];
  }

  lemma {:induction false} ShapeOfMatch(s: string, a: nat, m: nat, n: nat, b: string, w: string, c: string)
    requires a + 1 + m + 1 + n <= |s|
    requires s[a] == '\n' && s[a + 1..][m] == '.'
    requires b == s[..a] && w == s[a + 1..][..m] && c == s[a + 1..][m + 1..][..n]
    ensures s[..a + 1 + m + 1 + n] == Continuation(b, w, c)
  {
    var k := a + 1 + m + 1 + n;
    var r := Continuation(b, w, c);
    assert |r| == k;
    forall i | 0 <= i < k
      ensures s[..k][i] == r[i]
    {
      if i < a {
      } else if i == a {
      } else if i < a + 1 + m {
        assert w[i - a - 1] == s[i];
      } else if i == a + 1 + m {
      } else {
        assert c[i - a - 2 - m] == s[i];
      }
    }
  }

  /** A command continued on the next line is joined to it with a single space; the scan goes
      on in the next line. */
  lemma {:induction false} JoinsContinuedLine(p: string, b: string, w: string, c: string, q: string)
    requires '\n' !in p
    requires |p| > 0 ==> !IsBlank(p[|p| - 1])
    requires BlankRun(b) && SpaceRun(w) && BlankRun(c)
    requires |q| > 0 ==> !IsBlank(q[0])
    ensures JoinContinuations(p + Continuation(b, w, c) + q) == p + " " + JoinContinuations(q)
  {
    var m := Continuation(b, w, c);
    assert p + m + q == p + (m + q);
    JoinContinuationsPrefix(p, m + q);
    ContinuationMatches(b, w, c, q);
    JoinsAt(m, q);
    SpaceBetween(p, JoinContinuations(q));
  }

  /** A match at the front becomes one space and the scan resumes after it. */
  lemma {:induction false} JoinsAt(m: string, q: string)
    requires |m| > 0 && ContinuationAt(m + q) == Some(|m|)
    ensures JoinContinuations(m + q) == " " + JoinContinuations(q)
  {
    assert (m + q)[|m|..] == q;
  }

  lemma SpaceBetween(p: string, r: string)
    ensures p + (" " + r) == p + " " + r
  {
  }

  /** A line that ends in blanks (or in none) and is not followed by the rest of a
      continuation keeps its blanks: the line, the blanks and the line feed are copied, and
      the scan goes on in the next line. With `DotRun(q)` a match, the same text would be a
      continuation (see JoinsContinuedLine), so the two lemmas between them cover every line. */
  lemma {:induction false} KeepsTrailingBlanks(p: string, b: string, q: string)
    requires '\n' !in p
    requires |p| > 0 ==> !IsBlank(p[|p| - 1])
    requires forall i :: 0 <= i < |b| ==> IsBlank(b[i])
    requires DotRun(q).None?
    ensures JoinContinuations(p + b + "\n" + q) == p + b + "\n" + JoinContinuations(q)
  {
    var r := JoinContinuations(q);
    LineBreakRegrouped(p, b, q);
    JoinContinuationsPrefix(p, b + ("\n" + q));
    BlanksBeforePlainBreak(b, q);
    LineBreakRegrouped(p, b, r);
  }

  lemma LineBreakRegrouped(p: string, b: string, q: string)
    ensures p + b + "\n" + q == p + (b + ("\n" + q))
  {
  }

  /** Blanks before a line feed that no continuation follows are copied one by one. */
  lemma {:induction false} BlanksBeforePlainBreak(b: string, q: string)
    requires forall i :: 0 <= i < |b| ==> IsBlank(b[i])
    requires DotRun(q).None?
    ensures JoinContinuations(b + ("\n" + q)) == b + ("\n" + JoinContinuations(q))
    decreases |b|
  {
    if |b| == 0 {
      assert b + ("\n" + q) == "\n" + q;
      PlainBreakCopied(q);
      assert b + ("\n" + JoinContinuations(q)) == "\n" + JoinContinuations(q);
    } else {
      BlanksBeforePlainBreak(b[1..], q);
      BlankCopied(b, q);
    }
  }

  /** A line feed is never the start of a match, so it is copied. */
  lemma {:induction false} PlainBreakCopied(q: string)
    ensures JoinContinuations("\n" + q) == "\n" + JoinContinuations(q)
  {
    assert ("\n" + q)[1..] == q;
  }

  /** The first of the blanks before a plain line feed is copied, and the scan goes on. */
  lemma {:induction false} BlankCopied(b: string, q: string)
    requires BlankRun(b) && DotRun(q).None?
    requires JoinContinuations(b[1..] + ("\n" + q)) == b[1..] + ("\n" + JoinContinuations(q))
    ensures JoinContinuations(b + ("\n" + q)) == b + ("\n" + JoinContinuations(q))
  {
    var t := "\n" + q;
    assert t[1..] == q;
    ContinuationAfterBlanks(b, t);
    CopiesFirst(b, t);
    Glue(b[0], b[1..], JoinContinuations(b + t), JoinContinuations(b[1..] + t), "\n" + JoinContinuations(q));
    assert [b[0]] + b[1..] == b;
  }

  /** The text `parseCmds` hands to the parser. */
  function Prepare(data: string): (r: string)
    ensures '\r' !in r
    ensures |r| > 0 && r[|r| - 1] == '\n'
  {
    JoinContinuations(UnifyLineEnds(data)) + "\n"
  }

  /** A line that may be empty, holds no line break and does not end in a blank. */
  predicate PlainLine(line: string)
  {
    '\r' !in line && '\n' !in line && (|line| > 0 ==> !IsBlank(line[|line| - 1]))
  }

  /** Lines none of which ends in a blank hold no continuation. */
  lemma {:induction false} PlainLinesUnchanged(lines: seq<string>)
    requires forall i :: 0 <= i < |lines| ==> PlainLine(lines[i])
    ensures JoinContinuations(Join(lines, "\n")) == Join(lines, "\n")
  {
    if |lines| == 1 {
      JoinContinuationsSingleLine(lines[0]);
    } else if |lines| > 1 {
      var rest := Join(lines[1..], "\n");
      PlainLinesUnchanged(lines[1..]);
      assert lines[0] + "\n" + rest == lines[0] + ("\n" + rest);
      JoinContinuationsPrefix(lines[0], "\n" + rest);
      CopiesFirst("\n", rest);
      assert "\n"[1..] + rest == rest;
    }
  }

  /** Lines with CRLF endings reach the parser as the same lines with LF endings and a final
      line feed, as long as no line ends in a blank. */
  lemma PrepareKeepsPlainLines(lines: seq<string>)
    requires forall i :: 0 <= i < |lines| ==> PlainLine(lines[i])
    ensures Prepare(Join(lines, "\r\n")) == Join(lines, "\n") + "\n"
  {
    UnifyLineEndsCrLf(lines);
    PlainLinesUnchanged(lines);
  }

  /** A continued command reaches the parser joined to the next line with a single space,
      and the rest of the text is prepared as it would be on its own. The line break of the
      continuation may be LF, CRLF or a lone CR, and the rest may hold any line ends. */
  lemma {:induction false} PrepareJoinsContinuedLine(p: string, b: string, brk: string, w: string, c: string, q: string)
    requires '\n' !in p && '\r' !in p && '\r' !in w
    requires |p| > 0 ==> !IsBlank(p[|p| - 1])
    requires BlankRun(b) && SpaceRun(w) && BlankRun(c)
    requires brk == "\n" || brk == "\r\n" || (brk == "\r" && w[0] != '\n')
    requires |q| > 0 ==> !IsBlank(q[0])
    ensures Prepare(p + b + brk + w + "." + c + q) == p + " " + Prepare(q)
  {
    var v := w + "." + c;
    var u := UnifyLineEnds(q);
    NoCrInDotRun(w, c);
    ContinuationRegrouped(p, b, brk, w, c, q);
    UnifyContinuationBreak(p + b, brk, v, q);
    ContinuationRegrouped(p, b, "\n", w, c, u);
    JoinsContinuedLine(p, b, w, c, u);
    SpaceThenLine(p, JoinContinuations(u));
  }

  /** The same text, grouped as the line, its break, and the dot run followed by the rest. */
  lemma ContinuationRegrouped(p: string, b: string, brk: string, w: string, c: string, q: string)
    ensures p + b + brk + w + "." + c + q == (p + b) + brk + ((w + "." + c) + q)
    ensures p + b + "\n" + (w + "." + c) + q == p + Continuation(b, w, c) + q
  {
  }

  lemma NoCrInDotRun(w: string, c: string)
    requires '\r' !in w && |w| > 0 && BlankRun(c)
    ensures '\r' !in w + "." + c && |w + "." + c| > 0 && (w + "." + c)[0] == w[0]
  {
    assert forall i :: 0 <= i < |c| ==> c[i] != '\r';
  }

  lemma SpaceThenLine(p: string, r: string)
    ensures p + " " + r + "\n" == p + " " + (r + "\n")
  {
  }

  /** Unifying the line ends around a continuation's line break turns that break into one LF,
      leaves the CR-free text on either side of it alone and unifies the rest on its own. */
  lemma {:induction false} UnifyContinuationBreak(head: string, brk: string, v: string, q: string)
    requires '\r' !in head && '\r' !in v && |v| > 0
    requires brk == "\n" || brk == "\r\n" || (brk == "\r" && v[0] != '\n')
    ensures UnifyLineEnds(head + brk + (v + q)) == head + "\n" + v + UnifyLineEnds(q)
  {
    UnifyLineEndsPrefix(v, q);
    if brk == "\n" {
      assert head + brk + (v + q) == (head + "\n" + v) + q;
      UnifyLineEndsPrefix(head + "\n" + v, q);
    } else if brk == "\r\n" {
      UnifyCrLfStep(head, v + q);
    } else {
      UnifyLoneCr(head, v + q);
    }
  }
}
