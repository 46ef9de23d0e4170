/** The tokens of a Groovy source with the line numbers the lexer gives them. */
module GroovyLexing {
  import opened Options
  import opened GroovyText

  datatype Token = Token(kind: Kind, text: string, start: nat, end: nat, line: int)

  function Newlines(s: string, a: nat, b: nat): nat
    requires b <= |s|
    decreases b
  {
    if a >= b then 0 else Newlines(s, a, b - 1) + if s[b - 1] == '\n' then 1 else 0
  }

  /** The line breaks that stand behind a backslash in a string body scanned from `i`. */
  function Hidden(s: string, i: nat, quote: char, triple: bool): nat
    decreases |s| - i
  {
    if i >= |s| then 0
    else if Escaped(s, i, triple) then (if s[i + 1] == '\n' then 1 else 0) + Hidden(s, i + 2, quote, triple)
    else if triple && Three(s, i, quote) then 0
    else if !triple && s[i] == quote then 0
    else Hidden(s, i + 1, quote, triple)
  }

  function HiddenIn(s: string, p: Piece): nat
    requires p.start < |s|
  {
    if p.kind.Literal? then Hidden(s, Body(s, p.start), s[p.start], Three(s, p.start, s[p.start])) else 0
  }

  /** The lexer's line counter misses the line breaks that are escaped inside a string. */
  function LineAfter(s: string, p: Piece, line: int): int
    requires p.start < |s| && p.end <= |s|
  {
    line + Newlines(s, p.start, p.end) - HiddenIn(s, p)
  }

  predicate IsToken(p: Piece) { p.kind.Literal? || p.kind.Word? || p.kind.Symbol? }

  function TokenOf(s: string, p: Piece, line: int): Token
    requires p.start <= p.end <= |s|
  {
    Token(p.kind, s[p.start..p.end], p.start, p.end, line)
  }

  /** The tokens from `i` on, or the line at which an unclosed comment or string begins. */
  function Lexed(c: Classes, s: string, i: nat, line: int): Result<seq<Token>, int>
    requires i <= |s|
    decreases |s| - i
  {
    if i == |s| then Ok([])
    else
      var p := NextPiece(c, s, i);
      if p.None? then Err(line)
      else Prepend(if IsToken(p.value) then [TokenOf(s, p.value, line)] else [],
                   Lexed(c, s, p.value.end, LineAfter(s, p.value, line)))
  }

  function Prepend(ts: seq<Token>, r: Result<seq<Token>, int>): Result<seq<Token>, int> {
    if r.Ok? then Ok(ts + r.value) else r
  }

  lemma PrependTwice(a: seq<Token>, b: seq<Token>, r: Result<seq<Token>, int>)
    ensures Prepend(a, Prepend(b, r)) == Prepend(a + b, r)
  {
    if r.Ok? { Assoc(a, b, r.value); }
  }

  lemma PrependNone(r: Result<seq<Token>, int>)
    ensures Prepend([], r) == r
  {
    if r.Ok? { assert [] + r.value == r.value; }
  }

  // ------------------------------------------------------------- tokens and pieces

  function Kept(s: string, ps: seq<Piece>): seq<Span> {
    if ps == [] then [] else (if IsToken(ps[0]) then [Span(ps[0].start, ps[0].end)] else []) + Kept(s, ps[1..])
  }

  function SpansOf(ts: seq<Token>): seq<Span> {
    if ts == [] then [] else [Span(ts[0].start, ts[0].end)] + SpansOf(ts[1..])
  }

  /** The lexer fails exactly when a comment or string is unclosed, and its tokens are the
    * pieces that are neither white space nor comment. */
  lemma {:induction false} LexedPieces(c: Classes, s: string, i: nat, line: int)
    requires i <= |s|
    ensures Lexed(c, s, i, line).Ok? <==> Pieces(c, s, i).Some?
    ensures Lexed(c, s, i, line).Ok? ==> SpansOf(Lexed(c, s, i, line).value) == Kept(s, Pieces(c, s, i).value)
    decreases |s| - i
  {
    hide NextPiece, LineAfter;
    if i < |s| && NextPiece(c, s, i).Some? {
      var p := NextPiece(c, s, i).value;
      LexedPieces(c, s, p.end, LineAfter(s, p, line));
      var rest, more := Pieces(c, s, p.end), Lexed(c, s, p.end, LineAfter(s, p, line));
      if rest.Some? {
        assert ([p] + rest.value)[1..] == rest.value;
        if IsToken(p) {
          assert ([TokenOf(s, p, line)] + more.value)[1..] == more.value;
        } else {
          assert [] + more.value == more.value;
        }
      }
    }
  }

  /** What a piece of each kind looks like. */
  ghost predicate Looks(c: Classes, s: string, p: Piece) {
    && p.start < p.end <= |s|
    && match p.kind
       case Space => forall k :: p.start <= k < p.end ==> c.white(s[k])
       case Remark =>
         OpensLine(s, p.start) || (OpensBlock(s, p.start) && p.start + 4 <= p.end && ClosesBlock(s, p.end - 2))
       case Literal => Quote(s[p.start]) && p.start + 2 <= p.end && s[p.end - 1] == s[p.start]
       case Word =>
         && c.start(s[p.start]) && (forall k :: p.start < k < p.end ==> c.part(s[k]))
         && (p.end < |s| ==> !c.part(s[p.end]))
       case Symbol => p.end == p.start + 1 && !c.white(s[p.start]) && !Quote(s[p.start]) && !c.start(s[p.start])
  }

  lemma {:induction false} BlockClosed(s: string, i: nat)
    requires BlockClose(s, i).Some?
    ensures ClosesBlock(s, BlockClose(s, i).value)
    decreases |s| - i
  {
    if i + 1 < |s| && !ClosesBlock(s, i) { BlockClosed(s, i + 1); }
  }

  lemma {:induction false} StringClosed(s: string, i: nat, quote: char, triple: bool)
    requires StringEnd(s, i, quote, triple).Some?
    ensures s[StringEnd(s, i, quote, triple).value - 1] == quote
    decreases |s| - i
  {
    if Escaped(s, i, triple) { StringClosed(s, i + 2, quote, triple); }
    else if !(triple && Three(s, i, quote)) && (triple || s[i] != quote) { StringClosed(s, i + 1, quote, triple); }
  }

  lemma NextLooks(c: Classes, s: string, i: nat)
    requires i < |s| && NextPiece(c, s, i).Some?
    ensures Looks(c, s, NextPiece(c, s, i).value)
  {
    if OpensBlock(s, i) && BlockClose(s, i + 2).Some? { BlockClosed(s, i + 2); }
    if Quote(s[i]) && LiteralEnd(s, i).Some? { StringClosed(s, Body(s, i), s[i], Three(s, i, s[i])); }
  }

  lemma {:induction false} PiecesLook(c: Classes, s: string, i: nat)
    requires i <= |s| && Pieces(c, s, i).Some?
    ensures forall p :: p in Pieces(c, s, i).value ==> Looks(c, s, p)
    decreases |s| - i
  {
    if i < |s| {
      NextLooks(c, s, i);
      PiecesLook(c, s, NextPiece(c, s, i).value.end);
    }
  }

  // ------------------------------------------------------------- line numbers

  lemma {:induction false} NewlinesJoin(s: string, a: nat, b: nat, e: nat)
    requires a <= b <= e <= |s|
    ensures Newlines(s, a, e) == Newlines(s, a, b) + Newlines(s, b, e)
    decreases e
  {
    if b < e { NewlinesJoin(s, a, b, e - 1); }
  }

  lemma {:induction false} NoNewlines(s: string, a: nat, b: nat)
    requires a <= b <= |s| && forall k :: a <= k < b ==> s[k] != '\n'
    ensures Newlines(s, a, b) == 0
    decreases b
  {
    if a < b { NoNewlines(s, a, b - 1); }
  }

  /** Line breaks escaped inside the strings among `ps` that end at or before `at`. */
  function HiddenBefore(s: string, ps: seq<Piece>, at: nat): nat
    requires forall p :: p in ps ==> p.start < |s|
  {
    if ps == [] then 0 else (if ps[0].end <= at then HiddenIn(s, ps[0]) else 0) + HiddenBefore(s, ps[1..], at)
  }

  lemma {:induction false} HiddenNone(c: Classes, s: string, i: nat, at: nat)
    requires at <= i <= |s| && Pieces(c, s, i).Some?
    ensures forall p :: p in Pieces(c, s, i).value ==> p.start < |s|
    ensures HiddenBefore(s, Pieces(c, s, i).value, at) == 0
    decreases |s| - i
  {
    hide NextPiece, HiddenIn;
    if i < |s| {
      var p := NextPiece(c, s, i).value;
      HiddenNone(c, s, p.end, at);
      assert ([p] + Pieces(c, s, p.end).value)[1..] == Pieces(c, s, p.end).value;
    }
  }

  /** Every token's line is the true one less the line breaks escaped in earlier strings;
    * so it is right exactly when no string before it escapes a line break. */
  lemma {:induction false} TokenLine(c: Classes, s: string, i: nat, line: int, k: nat)
    requires i <= |s| && Lexed(c, s, i, line).Ok? && k < |Lexed(c, s, i, line).value|
    ensures Pieces(c, s, i).Some? && forall p :: p in Pieces(c, s, i).value ==> p.start < |s|
    ensures var t := Lexed(c, s, i, line).value[k];
      && i <= t.start < t.end <= |s| && t.text == s[t.start..t.end]
      && t.line == line + Newlines(s, i, t.start) - HiddenBefore(s, Pieces(c, s, i).value, t.start)
    decreases |s| - i
  {
    hide NextPiece, HiddenIn;
    if i < |s| {
      var p := NextPiece(c, s, i).value;
      var next := LineAfter(s, p, line);
      LexedPieces(c, s, p.end, next);
      HiddenNone(c, s, p.end, p.end);
      HiddenNone(c, s, p.end, i);
      assert ([p] + Pieces(c, s, p.end).value)[1..] == Pieces(c, s, p.end).value;
      var n := if IsToken(p) then 1 else 0;
      if k >= n {
        TokenLine(c, s, p.end, next, k - n);
        NewlinesJoin(s, i, p.end, Lexed(c, s, p.end, next).value[k - n].start);
      }
    }
  }

  /** A quote, a backslash, a line break, a quote, a blank and a word. */
  const HIDING := "'\\\n' x"

  lemma HidingLiteral(c: Classes)
    requires Lawful(c)
    ensures NextPiece(c, HIDING, 0) == Some(Piece(Literal, 0, 4)) && LineAfter(HIDING, Piece(Literal, 0, 4), 1) == 1
    ensures Newlines(HIDING, 0, 5) == 1
  {
    assert StringEnd(HIDING, 3, '\'', false) == Some(4);
    assert StringEnd(HIDING, 1, '\'', false) == Some(4);
    assert Hidden(HIDING, 3, '\'', false) == 0;
    assert Hidden(HIDING, 1, '\'', false) == 1;
    assert Newlines(HIDING, 0, 2) == 0 && Newlines(HIDING, 0, 3) == 1 && Newlines(HIDING, 0, 4) == 1;
  }

  lemma HidingRest(c: Classes)
    requires Lawful(c) && c.white(' ') && c.start('x') && !c.white('x')
    ensures Lexed(c, HIDING, 4, 1) == Ok([Token(Word, "x", 5, 6, 1)])
  {
    hide HiddenIn;
    var blank, word := Piece(Space, 4, 5), Piece(Word, 5, 6);
    assert RunEnd(HIDING, 5, c.white) == 5 && NextPiece(c, HIDING, 4) == Some(blank);
    assert NextPiece(c, HIDING, 5) == Some(word);
    NoNewlines(HIDING, 4, 5);
    assert LineAfter(HIDING, blank, 1) == 1 by {
      assert HiddenIn(HIDING, blank) == 0 by { NothingHidden(HIDING, blank); }
    }
    assert HIDING[5..6] == "x";
    assert Lexed(c, HIDING, 5, 1) == Prepend([Token(Word, "x", 5, 6, 1)], Ok([]));
    assert [Token(Word, "x", 5, 6, 1)] + [] == [Token(Word, "x", 5, 6, 1)];
    assert Lexed(c, HIDING, 4, 1) == Prepend([], Lexed(c, HIDING, 5, 1));
    PrependNone(Lexed(c, HIDING, 5, 1));
  }

  lemma NothingHidden(s: string, p: Piece)
    requires p.start < |s| && !p.kind.Literal?
    ensures HiddenIn(s, p) == 0
  {
  }

  /** A string that hides a line break: the word behind it is reported on line 1, although
    * one line break stands before it. */
  lemma HiddenBreak(c: Classes)
    requires Lawful(c) && c.white(' ') && c.start('x') && !c.white('x')
    ensures Lexed(c, HIDING, 0, 1) == Ok([Token(Literal, HIDING[..4], 0, 4, 1), Token(Word, "x", 5, 6, 1)])
    ensures Newlines(HIDING, 0, 5) == 1
  {
    hide NextPiece, LineAfter, Newlines;
    HidingLiteral(c);
    HidingRest(c);
    assert HIDING[0..4] == HIDING[..4];
    assert Lexed(c, HIDING, 0, 1) == Prepend([Token(Literal, HIDING[..4], 0, 4, 1)], Lexed(c, HIDING, 4, 1));
    assert [Token(Literal, HIDING[..4], 0, 4, 1)] + [Token(Word, "x", 5, 6, 1)]
      == [Token(Literal, HIDING[..4], 0, 4, 1), Token(Word, "x", 5, 6, 1)];
  }
}
