/** What the pieces of a Groovy source and the masked spans look like, character by character. */
module GroovyShapes {
  import opened Options
  import opened GroovyText
  import opened GroovyLexing

  // ------------------------------------------------------------- escaped characters

  /** The backslashes directly before `k`, not counting any before `base`. */
  function Slashes(s: string, k: nat, base: nat): nat
    requires base <= k <= |s|
  {
    if k > base && s[k - 1] == '\\' then 1 + Slashes(s, k - 1, base) else 0
  }

  /** An odd number of backslashes stands before the character, so it is escaped. */
  predicate Loose(s: string, k: nat, base: nat)
    requires base <= k <= |s|
  {
    Slashes(s, k, base) % 2 == 1
  }

  lemma {:induction false} FromNext(s: string, k: nat, i: nat)
    requires i < k <= |s| && s[i] != '\\'
    ensures Slashes(s, k, i) == Slashes(s, k, i + 1)
  {
    if k > i + 1 { FromNext(s, k - 1, i); }
  }

  /** Two characters of which the first is a backslash do not change whether a later one is escaped. */
  lemma {:induction false} FromNextButOne(s: string, k: nat, i: nat)
    requires i + 2 <= k <= |s| && s[i] == '\\'
    ensures Slashes(s, k, i) == Slashes(s, k, i + 2)
         || (Slashes(s, k, i) == Slashes(s, k, i + 2) + 2 && Slashes(s, k, i + 2) == k - (i + 2))
    ensures Loose(s, k, i) == Loose(s, k, i + 2) && Loose(s, i + 1, i)
  {
    assert Slashes(s, i, i) == 0 && Slashes(s, i + 1, i) == 1;
    if k > i + 2 {
      FromNextButOne(s, k - 1, i);
    } else if s[i + 1] == '\\' {
      assert Slashes(s, k, i) == 2;
    }
  }

  // ------------------------------------------------------------- where a string ends

  /** The quote at `k` is the first in the body from `i` on that is not escaped. */
  predicate FirstQuote(s: string, i: nat, quote: char, k: nat) {
    && i <= k < |s| && s[k] == quote && !Loose(s, k, i)
    && forall m :: i <= m < k && s[m] == quote ==> Loose(s, m, i)
  }

  predicate NoQuote(s: string, i: nat, quote: char) {
    forall m :: i <= m < |s| && s[m] == quote ==> Loose(s, m, i)
  }

  lemma {:induction false} StringScan(s: string, i: nat, quote: char)
    requires i <= |s| && quote != '\\'
    ensures var e := StringEnd(s, i, quote, false);
      if e.Some? then FirstQuote(s, i, quote, e.value - 1) else NoQuote(s, i, quote)
    decreases |s| - i
  {
    if i < |s| && Escaped(s, i, false) {
      StringScan(s, i + 2, quote);
      FromNextButOne(s, i + 2, i);
      forall m | i + 2 <= m < |s|
        ensures Loose(s, m, i) == Loose(s, m, i + 2)
      {
        FromNextButOne(s, m, i);
      }
      hide Slashes;
    } else if i < |s| && s[i] != quote {
      StringScan(s, i + 1, quote);
      forall m | i + 1 <= m < |s|
        ensures Slashes(s, m, i) == Slashes(s, m, i + 1)
      {
        FromNext(s, m, i);
      }
    }
  }

  lemma {:induction false} TripleScan(s: string, i: nat, quote: char)
    ensures var e := StringEnd(s, i, quote, true);
      if e.Some? then
        i + 3 <= e.value && Three(s, e.value - 3, quote) && forall m :: i <= m < e.value - 3 ==> !Three(s, m, quote)
      else forall m :: i <= m ==> !Three(s, m, quote)
    decreases |s| - i
  {
    if i < |s| && !Three(s, i, quote) { TripleScan(s, i + 1, quote); }
  }

  lemma {:induction false} LineScan(s: string, i: nat)
    requires i <= |s|
    ensures forall m :: i <= m < LineEnd(s, i) ==> s[m] != '\n'
    ensures LineEnd(s, i) < |s| ==> s[LineEnd(s, i)] == '\n'
    decreases |s| - i
  {
    if i < |s| && s[i] != '\n' { LineScan(s, i + 1); }
  }

  lemma {:induction false} BlockScan(s: string, i: nat)
    ensures var e := BlockClose(s, i);
      if e.Some? then ClosesBlock(s, e.value) && forall m :: i <= m < e.value ==> !ClosesBlock(s, m)
      else forall m :: i <= m ==> !ClosesBlock(s, m)
    decreases |s| - i
  {
    if i + 1 < |s| && !ClosesBlock(s, i) { BlockScan(s, i + 1); }
  }

  // ------------------------------------------------------------- comments and strings

  predicate Opens(s: string, i: nat) { i < |s| && (OpensLine(s, i) || OpensBlock(s, i) || Quote(s[i])) }

  /** What opens at `i` ends just before `end`: a line comment with its line, a block comment with
    * the first closing mark, a triple-quoted string with the next three quotes, and any other
    * string with the first quote of its kind that is not escaped. */
  predicate ClosesAt(s: string, i: nat, end: nat)
    requires i < |s|
  {
    i < end <= |s| &&
    if OpensLine(s, i) then
      i + 2 <= end && (forall m :: i + 2 <= m < end ==> s[m] != '\n') && (end < |s| ==> s[end] == '\n')
    else if OpensBlock(s, i) then
      i + 4 <= end && ClosesBlock(s, end - 2) && forall m :: i + 2 <= m < end - 2 ==> !ClosesBlock(s, m)
    else if Three(s, i, s[i]) then
      i + 6 <= end && Three(s, end - 3, s[i]) && forall m :: i + 3 <= m < end - 3 ==> !Three(s, m, s[i])
    else FirstQuote(s, i + 1, s[i], end - 1)
  }

  predicate NeverCloses(s: string, i: nat)
    requires i < |s|
  {
    if OpensLine(s, i) then false
    else if OpensBlock(s, i) then forall m :: i + 2 <= m < |s| ==> !ClosesBlock(s, m)
    else if Three(s, i, s[i]) then forall m :: i + 3 <= m < |s| ==> !Three(s, m, s[i])
    else NoQuote(s, i + 1, s[i])
  }

  lemma LiteralShape(s: string, i: nat)
    requires i < |s| && Quote(s[i])
    ensures if LiteralEnd(s, i).Some? then ClosesAt(s, i, LiteralEnd(s, i).value) else NeverCloses(s, i)
  {
    if Three(s, i, s[i]) { TripleScan(s, i + 3, s[i]); } else { StringScan(s, i + 1, s[i]); }
    hide StringEnd, Loose;
  }

  lemma CoverShape(s: string, i: nat)
    requires i < |s|
    ensures CoverEnd(s, i) > i <==> Opens(s, i)
    ensures Opens(s, i) ==> ClosesAt(s, i, CoverEnd(s, i)) || (NeverCloses(s, i) && CoverEnd(s, i) == |s|)
  {
    if OpensLine(s, i) { LineScan(s, i + 2); }
    else if OpensBlock(s, i) { BlockScan(s, i + 2); }
    else if Quote(s[i]) { LiteralShape(s, i); }
    hide LiteralEnd, LineEnd, BlockClose, Three, FirstQuote, NoQuote;
  }

  // ------------------------------------------------------------- the masker's spans

  ghost predicate SpanShape(s: string, p: Span) {
    && Opens(s, p.start) && p.start < p.end <= |s|
    && (ClosesAt(s, p.start, p.end) || (NeverCloses(s, p.start) && p.end == |s|))
  }

  /** Every span is a comment or string from its opening to its end, or to the end of the text when
    * it is not closed; whatever the text. */
  lemma {:induction false} SpansShape(s: string, i: nat)
    requires i <= |s|
    ensures forall p :: p in Spans(s, i) ==> SpanShape(s, p)
    decreases |s| - i
  {
    if i < |s| {
      CoverShape(s, i);
      hide CoverEnd, ClosesAt, NeverCloses, Opens;
      SpansShape(s, if CoverEnd(s, i) > i then CoverEnd(s, i) else i + 1);
    }
  }

  /** And outside the spans nothing opens. */
  lemma {:induction false} OutsidePlain(s: string, i: nat, k: nat)
    requires i <= k < |s| && !InSpan(Spans(s, i), k)
    ensures !Opens(s, k)
    decreases |s| - i
  {
    SpanStep(s, i, k);
    CoverShape(s, i);
    hide CoverEnd, Spans, InSpan, Opens;
    if k > i { OutsidePlain(s, NextScan(s, i), k); }
  }

  // ------------------------------------------------------------- the lexer's pieces

  /** What each piece is, and that it could not be longer. */
  ghost predicate Shape(c: Classes, s: string, p: Piece) {
    && p.start < p.end <= |s|
    && match p.kind
       case Space => (forall k :: p.start <= k < p.end ==> c.white(s[k])) && (p.end < |s| ==> !c.white(s[p.end]))
       case Remark =>
         && !c.white(s[p.start]) && (OpensLine(s, p.start) || OpensBlock(s, p.start))
         && ClosesAt(s, p.start, p.end)
       case Literal => !c.white(s[p.start]) && Quote(s[p.start]) && ClosesAt(s, p.start, p.end)
       case Word =>
         && !c.white(s[p.start]) && !Opens(s, p.start) && c.start(s[p.start])
         && (forall k :: p.start < k < p.end ==> c.part(s[k])) && (p.end < |s| ==> !c.part(s[p.end]))
       case Symbol =>
         !c.white(s[p.start]) && !Opens(s, p.start) && !c.start(s[p.start]) && p.end == p.start + 1
  }

  lemma NextShape(c: Classes, s: string, i: nat)
    requires i < |s|
    ensures var p := NextPiece(c, s, i);
      if p.Some? then Shape(c, s, p.value) else !c.white(s[i]) && Opens(s, i) && NeverCloses(s, i)
  {
    if c.white(s[i]) {
    } else if OpensLine(s, i) { LineScan(s, i + 2); }
    else if OpensBlock(s, i) { BlockScan(s, i + 2); }
    else if Quote(s[i]) { LiteralShape(s, i); }
    hide LiteralEnd, LineEnd, BlockClose, Three, FirstQuote, NoQuote;
  }

  /** Every piece has the shape of its kind; and where there are none, the pieces of some first
    * part of the text lead to a comment or string that is never closed. */
  lemma {:induction false} PiecesShape(c: Classes, s: string, i: nat)
    requires i <= |s|
    ensures var ps := Pieces(c, s, i);
      if ps.Some? then forall p :: p in ps.value ==> Shape(c, s, p)
      else exists k :: i <= k < |s| && !c.white(s[k]) && Opens(s, k) && NeverCloses(s, k)
    decreases |s| - i
  {
    if i < |s| {
      NextShape(c, s, i);
      var p := NextPiece(c, s, i);
      hide Shape, Opens, NeverCloses, NextPiece;
      if p.Some? { PiecesShape(c, s, p.value.end); }
    }
  }

  // ------------------------------------------------------------- tokens

  function AsPieces(ts: seq<Token>): seq<Piece> {
    if ts == [] then [] else [Piece(ts[0].kind, ts[0].start, ts[0].end)] + AsPieces(ts[1..])
  }

  /** The pieces that are strings, words or single characters. */
  function Meaningful(ps: seq<Piece>): seq<Piece> {
    if ps == [] then []
    else (if ps[0].kind == Space || ps[0].kind == Remark then [] else [ps[0]]) + Meaningful(ps[1..])
  }

  /** The tokens are these pieces, kind by kind. */
  lemma {:induction false} TokensAre(c: Classes, s: string, i: nat, line: int)
    requires i <= |s| && Lexed(c, s, i, line).Ok?
    ensures Pieces(c, s, i).Some? && AsPieces(Lexed(c, s, i, line).value) == Meaningful(Pieces(c, s, i).value)
    decreases |s| - i
  {
    hide NextPiece, LineAfter;
    if i < |s| {
      var p := NextPiece(c, s, i).value;
      TokensAre(c, s, p.end, LineAfter(s, p, line));
      var rest, more := Pieces(c, s, p.end).value, Lexed(c, s, p.end, LineAfter(s, p, line)).value;
      assert ([p] + rest)[1..] == rest;
      if IsToken(p) {
        assert ([TokenOf(s, p, line)] + more)[1..] == more;
      } else {
        assert [] + more == more;
      }
    }
  }

  /** `ps` are the pieces the lexer takes from `i` until it reaches `k`. */
  ghost predicate Leads(c: Classes, s: string, i: nat, k: nat, ps: seq<Piece>)
    decreases |ps|
  {
    if ps == [] then i == k
    else i < |s| && NextPiece(c, s, i) == Some(ps[0]) && Leads(c, s, ps[0].end, k, ps[1..])
  }

  function HiddenSum(s: string, ps: seq<Piece>): int {
    if ps == [] then 0 else (if ps[0].start < |s| then HiddenIn(s, ps[0]) else 0) + HiddenSum(s, ps[1..])
  }

  /** The line of an error is that of the comment or string that is never closed, less the line
    * breaks escaped in the strings before it. */
  lemma {:induction false} ErrorLine(c: Classes, s: string, i: nat, line: int) returns (k: nat, ps: seq<Piece>)
    requires i <= |s| && Lexed(c, s, i, line).Err?
    ensures i <= k < |s| && Leads(c, s, i, k, ps) && Opens(s, k) && NeverCloses(s, k)
    ensures Lexed(c, s, i, line).error == line + Newlines(s, i, k) - HiddenSum(s, ps)
    decreases |s| - i
  {
    hide NextPiece, HiddenIn, Opens, NeverCloses, Shape;
    NextShape(c, s, i);
    var p := NextPiece(c, s, i);
    if p.None? {
      k, ps := i, [];
    } else {
      var rest;
      k, rest := ErrorLine(c, s, p.value.end, LineAfter(s, p.value, line));
      ps := [p.value] + rest;
      assert ps[1..] == rest;
      NewlinesJoin(s, i, p.value.end, k);
    }
  }

  // ------------------------------------------------------------- escaped line breaks

  /** The line breaks in a part of a string body that stand behind an odd number of backslashes. */
  function EscapedBreaks(s: string, a: nat, b: nat, base: nat): nat
    requires base <= a && b <= |s|
    decreases |s| - a
  {
    if a >= b then 0 else (if s[a] == '\n' && Loose(s, a, base) then 1 else 0) + EscapedBreaks(s, a + 1, b, base)
  }

  lemma {:induction false} SameBreaks(s: string, a: nat, b: nat, base: nat, other: nat)
    requires base <= other <= a && b <= |s| && forall k :: a <= k < b ==> Loose(s, k, base) == Loose(s, k, other)
    ensures EscapedBreaks(s, a, b, base) == EscapedBreaks(s, a, b, other)
    decreases |s| - a
  {
    if a < b { SameBreaks(s, a + 1, b, base, other); }
  }

  /** What the lexer's line counter misses in a string are exactly its escaped line breaks. */
  lemma {:induction false} HiddenIs(s: string, i: nat, quote: char)
    requires i <= |s| && Quote(quote) && StringEnd(s, i, quote, false).Some?
    ensures Hidden(s, i, quote, false) == EscapedBreaks(s, i, StringEnd(s, i, quote, false).value - 1, i)
    decreases |s| - i
  {
    var e := StringEnd(s, i, quote, false).value - 1;
    if Escaped(s, i, false) {
      HiddenIs(s, i + 2, quote);
      forall k | i + 2 <= k < e
        ensures Loose(s, k, i) == Loose(s, k, i + 2)
      {
        FromNextButOne(s, k, i);
      }
      FromNextButOne(s, i + 2, i);
      SameBreaks(s, i + 2, e, i, i + 2);
      hide Slashes;
    } else if s[i] != quote {
      HiddenIs(s, i + 1, quote);
      forall k | i + 1 <= k < e
        ensures Loose(s, k, i) == Loose(s, k, i + 1)
      {
        FromNext(s, k, i);
      }
      SameBreaks(s, i + 1, e, i, i + 1);
    }
  }

  lemma {:induction false} TripleHidesNone(s: string, i: nat, quote: char)
    ensures Hidden(s, i, quote, true) == 0
    decreases |s| - i
  {
    if i < |s| { TripleHidesNone(s, i + 1, quote); }
  }

  /** What the line counter misses in a piece: in a string that is not triple-quoted its escaped line
    * breaks, and nothing anywhere else. */
  lemma MissedIn(c: Classes, s: string, i: nat)
    requires i < |s| && NextPiece(c, s, i).Some?
    ensures var p := NextPiece(c, s, i).value;
      HiddenIn(s, p) == if p.kind == Literal && !Three(s, i, s[i]) then EscapedBreaks(s, i + 1, p.end - 1, i + 1) else 0
  {
    if NextPiece(c, s, i).value.kind == Literal {
      if Three(s, i, s[i]) { TripleHidesNone(s, i + 3, s[i]); } else { HiddenIs(s, i + 1, s[i]); }
    }
    hide Hidden, StringEnd, Loose;
  }

  // ------------------------------------------------------------- the narrative

  function Width(p: Span): nat { if p.start <= p.end then p.end - p.start else 0 }

  function Room(spans: seq<Span>): nat {
    if spans == [] then 0 else Room(spans[..|spans| - 1]) + 1 + Width(spans[|spans| - 1])
  }

  /** The span's text stands at this place, behind a blank. */
  predicate StandsAt(narrative: string, s: string, p: Span, from: nat) {
    && p.start <= p.end <= |s| && from + 1 + Width(p) <= |narrative|
    && narrative[from] == ' ' && narrative[from + 1..from + 1 + Width(p)] == s[p.start..p.end]
  }

  /** The narrative holds the text of each span once, in order, each behind one blank. */
  lemma {:induction false} NarrativeAt(s: string, spans: seq<Span>, k: nat)
    requires k < |spans| && forall p :: p in spans ==> p.start <= p.end <= |s|
    ensures |Narrative(s, spans)| == Room(spans) && StandsAt(Narrative(s, spans), s, spans[k], Room(spans[..k]))
  {
    hide Narrative, StandsAt, Room;
    var n := |spans| - 1;
    var front := Narrative(s, spans[..n]);
    NarrativeRoom(s, spans);
    NarrativeRoom(s, spans[..n]);
    NarrativeIs(s, spans);
    if k < n {
      NarrativeAt(s, spans[..n], k);
      assert spans[..n][..k] == spans[..k];
      StandsLonger(front, " " + s[spans[n].start..spans[n].end], s, spans[k], Room(spans[..k]));
    } else {
      StandsLast(front, s, spans[n]);
      Assoc(front, " ", s[spans[n].start..spans[n].end]);
    }
  }

  lemma NarrativeIs(s: string, spans: seq<Span>)
    requires spans != [] && forall p :: p in spans ==> p.start <= p.end <= |s|
    ensures var n := |spans| - 1;
      && spans[n].start <= spans[n].end <= |s|
      && Narrative(s, spans) == Narrative(s, spans[..n]) + (" " + s[spans[n].start..spans[n].end])
  {
    var n := |spans| - 1;
    assert spans[n] in spans;
    Assoc(Narrative(s, spans[..n]), " ", s[spans[n].start..spans[n].end]);
  }

  lemma StandsLonger(a: string, b: string, s: string, p: Span, from: nat)
    requires StandsAt(a, s, p, from)
    ensures StandsAt(a + b, s, p, from)
  {
    assert (a + b)[from + 1..from + 1 + Width(p)] == a[from + 1..from + 1 + Width(p)];
  }

  lemma StandsLast(a: string, s: string, p: Span)
    requires p.start <= p.end <= |s|
    ensures StandsAt(a + " " + s[p.start..p.end], s, p, |a|)
    ensures |a + " " + s[p.start..p.end]| == |a| + 1 + Width(p)
  {
  }

  lemma {:induction false} NarrativeRoom(s: string, spans: seq<Span>)
    requires forall p :: p in spans ==> p.start <= p.end <= |s|
    ensures |Narrative(s, spans)| == Room(spans)
  {
    if spans != [] {
      NarrativeRoom(s, spans[..|spans| - 1]);
      assert spans[|spans| - 1] in spans;
    }
  }
}
