/** Groovy source as characters: what the lexer cuts it into and what the masker blanks. */
module GroovyText {
  import opened Options

  /** The character classes of the host language, as far as scanning depends on them. */
  datatype Classes = Classes(white: char -> bool, start: char -> bool, part: char -> bool)

  predicate Quote(ch: char) { ch == '\'' || ch == '"' }

  predicate Break(ch: char) { ch == '\n' || ch == '\r' }

  ghost predicate Lawful(c: Classes) {
    && c.white('\n') && !c.part('\n')
    && forall ch {:trigger c.white(ch)} {:trigger c.start(ch)} {:trigger c.part(ch)} ::
      Quote(ch) || ch == '/' ==> !c.white(ch) && !c.start(ch) && !c.part(ch)
  }

  // ------------------------------------------------------------- where things end

  function LineEnd(s: string, i: nat): (e: nat)
    requires i <= |s|
    ensures i <= e <= |s|
    decreases |s| - i
  {
    if i == |s| || s[i] == '\n' then i else LineEnd(s, i + 1)
  }

  predicate OpensLine(s: string, i: nat) { i + 1 < |s| && s[i] == '/' && s[i + 1] == '/' }

  predicate OpensBlock(s: string, i: nat) { i + 1 < |s| && s[i] == '/' && s[i + 1] == '*' }

  predicate ClosesBlock(s: string, i: nat) { i + 1 < |s| && s[i] == '*' && s[i + 1] == '/' }

  /** The next closing mark at or behind `i`. */
  function BlockClose(s: string, i: nat): (e: Option<nat>)
    ensures e.Some? ==> i <= e.value && e.value + 2 <= |s|
    decreases |s| - i
  {
    if i + 1 >= |s| then None
    else if ClosesBlock(s, i) then Some(i)
    else BlockClose(s, i + 1)
  }

  predicate Three(s: string, i: nat, quote: char) {
    i + 2 < |s| && s[i] == quote && s[i + 1] == quote && s[i + 2] == quote
  }

  predicate Escaped(s: string, i: nat, triple: bool) { !triple && i + 1 < |s| && s[i] == '\\' }

  /** Just behind the closing quote of a string whose body is scanned from `i`. */
  function StringEnd(s: string, i: nat, quote: char, triple: bool): (e: Option<nat>)
    ensures e.Some? ==> i < e.value <= |s|
    decreases |s| - i
  {
    if i >= |s| then None
    else if Escaped(s, i, triple) then StringEnd(s, i + 2, quote, triple)
    else if triple && Three(s, i, quote) then Some(i + 3)
    else if !triple && s[i] == quote then Some(i + 1)
    else StringEnd(s, i + 1, quote, triple)
  }

  function Body(s: string, i: nat): nat
    requires i < |s|
  {
    if Three(s, i, s[i]) then i + 3 else i + 1
  }

  function LiteralEnd(s: string, i: nat): Option<nat>
    requires i < |s|
  {
    StringEnd(s, Body(s, i), s[i], Three(s, i, s[i]))
  }

  function RunEnd(s: string, i: nat, class_: char -> bool): (e: nat)
    requires i <= |s|
    ensures i <= e <= |s|
    ensures forall k :: i <= k < e ==> class_(s[k])
    ensures e < |s| ==> !class_(s[e])
    decreases |s| - i
  {
    if i == |s| || !class_(s[i]) then i else RunEnd(s, i + 1, class_)
  }

  // ------------------------------------------------------------- the lexer's view

  datatype Kind = Space | Remark | Literal | Word | Symbol

  datatype Piece = Piece(kind: Kind, start: nat, end: nat)

  /** What the lexer takes next; nothing when a comment or string is not closed. */
  function NextPiece(c: Classes, s: string, i: nat): (p: Option<Piece>)
    requires i < |s|
    ensures p.Some? ==> p.value.start == i < p.value.end <= |s|
  {
    if c.white(s[i]) then Some(Piece(Space, i, RunEnd(s, i + 1, c.white)))
    else if OpensLine(s, i) then Some(Piece(Remark, i, LineEnd(s, i + 2)))
    else if OpensBlock(s, i) then
      var e := BlockClose(s, i + 2);
      if e.None? then None else Some(Piece(Remark, i, e.value + 2))
    else if Quote(s[i]) then
      var e := LiteralEnd(s, i);
      if e.None? then None else Some(Piece(Literal, i, e.value))
    else if c.start(s[i]) then Some(Piece(Word, i, RunEnd(s, i + 1, c.part)))
    else Some(Piece(Symbol, i, i + 1))
  }

  function Pieces(c: Classes, s: string, i: nat): Option<seq<Piece>>
    requires i <= |s|
    decreases |s| - i
  {
    if i == |s| then Some([])
    else
      var p := NextPiece(c, s, i);
      if p.None? then None
      else
        var rest := Pieces(c, s, p.value.end);
        if rest.None? then None else Some([p.value] + rest.value)
  }

  // ------------------------------------------------------------- the masker's view

  datatype Span = Span(start: nat, end: nat)

  /** The end of a comment or string at `i`, closed or running to the end of the text;
    * `i` itself where there is none. */
  function CoverEnd(s: string, i: nat): (e: nat)
    requires i < |s|
    ensures i <= e <= |s|
    ensures e == i || OpensLine(s, i) || OpensBlock(s, i) || Quote(s[i])
  {
    if OpensLine(s, i) then LineEnd(s, i + 2)
    else if OpensBlock(s, i) then
      var e := BlockClose(s, i + 2);
      if e.None? then |s| else e.value + 2
    else if Quote(s[i]) then
      var e := LiteralEnd(s, i);
      if e.None? then |s| else e.value
    else i
  }

  function Spans(s: string, i: nat): seq<Span>
    requires i <= |s|
    decreases |s| - i
  {
    if i == |s| then []
    else if CoverEnd(s, i) > i then [Span(i, CoverEnd(s, i))] + Spans(s, CoverEnd(s, i))
    else Spans(s, i + 1)
  }

  function Blanks(t: string): (r: string)
    ensures |r| == |t|
    ensures forall k :: 0 <= k < |t| ==> r[k] == if Break(t[k]) then t[k] else ' '
  {
    if t == [] then [] else Blanks(t[..|t| - 1]) + [if Break(t[|t| - 1]) then t[|t| - 1] else ' ']
  }

  /** The text from `i` on with every comment and string blanked. */
  function Mask(s: string, i: nat): (r: string)
    requires i <= |s|
    ensures |r| == |s| - i
    decreases |s| - i
  {
    if i == |s| then []
    else
      var e := CoverEnd(s, i);
      if e > i then Blanks(s[i..e]) + Mask(s, e) else [s[i]] + Mask(s, i + 1)
  }

  /** The comments and strings, each behind a blank. */
  function Narrative(s: string, spans: seq<Span>): string
    requires forall p :: p in spans ==> p.start <= p.end <= |s|
  {
    if spans == [] then [] else
      Narrative(s, spans[..|spans| - 1]) + " " + s[spans[|spans| - 1].start..spans[|spans| - 1].end]
  }

  // ------------------------------------------------------------- what the masker keeps

  predicate PlainAt(t: string, k: nat) {
    k < |t| ==> !Quote(t[k]) && !OpensLine(t, k) && !OpensBlock(t, k)
  }

  /** No comment and no string starts anywhere. */
  ghost predicate Plain(t: string) { forall k: nat {:trigger PlainAt(t, k)} :: PlainAt(t, k) }

  lemma {:induction false} PlainUnmasked(t: string, i: nat)
    requires Plain(t) && i <= |t|
    ensures Mask(t, i) == t[i..]
    decreases |t| - i
  {
    if i < |t| {
      assert PlainAt(t, i);
      PlainUnmasked(t, i + 1);
    }
  }

  lemma {:induction false} MaskFirst(s: string, i: nat)
    requires i < |s|
    ensures Mask(s, i)[0] == s[i] || Mask(s, i)[0] == ' '
    ensures CoverEnd(s, i) > i ==> Mask(s, i)[0] == ' '
  {
  }

  /** Where the scan goes on, and what it leaves behind. */
  function NextScan(s: string, i: nat): (n: nat)
    requires i < |s|
    ensures i < n <= |s|
  {
    var e := CoverEnd(s, i);
    if e > i then e else i + 1
  }

  lemma MaskStep(s: string, i: nat)
    requires i < |s|
    ensures Mask(s, i)
      == (if CoverEnd(s, i) > i then Blanks(s[i..NextScan(s, i)]) else [s[i]]) + Mask(s, NextScan(s, i))
  {
    hide CoverEnd, Blanks;
  }

  lemma {:induction false} MaskPlain(s: string, i: nat)
    requires i <= |s|
    ensures Plain(Mask(s, i))
    decreases |s| - i
  {
    if i < |s| {
      var next := NextScan(s, i);
      MaskPlain(s, next);
      MaskStep(s, i);
      if next < |s| { MaskFirst(s, next); }
      hide Mask, NextScan, Plain, PlainAt;
      var rest := Mask(s, next);
      if CoverEnd(s, i) > i { BlanksPlain(s[i..next], rest); } else { CharPlain(s, i, rest); }
    }
  }

  lemma BlanksPlain(t: string, rest: string)
    requires Plain(rest)
    ensures Plain(Blanks(t) + rest)
  {
    var r := Blanks(t) + rest;
    hide Blanks;
    forall k: nat {:trigger PlainAt(r, k)} | k < |r|
      ensures PlainAt(r, k)
    {
      if k >= |t| { assert PlainAt(rest, k - |t|); } else { assert r[k] == Blanks(t)[k]; }
    }
  }

  /** A character that opens nothing stays harmless in front of what may have been blanked. */
  lemma CharPlain(s: string, i: nat, rest: string)
    requires i < |s| && CoverEnd(s, i) == i && Plain(rest) && |rest| == |s| - i - 1
    requires rest != [] ==> rest[0] == s[i + 1] || rest[0] == ' '
    ensures Plain([s[i]] + rest)
  {
    var r := [s[i]] + rest;
    Opening(s, i);
    hide CoverEnd;
    forall k: nat {:trigger PlainAt(r, k)} | k < |r|
      ensures PlainAt(r, k)
    {
      if k > 0 { assert PlainAt(rest, k - 1); }
    }
  }

  /** What opens a comment or string is covered. */
  lemma Opening(s: string, i: nat)
    requires i < |s| && CoverEnd(s, i) == i
    ensures !OpensLine(s, i) && !OpensBlock(s, i) && !Quote(s[i])
  {
  }

  /** Masking a masked text changes nothing, whatever the text. */
  lemma MaskIdempotent(s: string)
    ensures Mask(Mask(s, 0), 0) == Mask(s, 0)
  {
    MaskPlain(s, 0);
    PlainUnmasked(Mask(s, 0), 0);
  }

  predicate InSpan(spans: seq<Span>, k: nat) {
    spans != [] && (spans[0].start <= k < spans[0].end || InSpan(spans[1..], k))
  }

  lemma {:induction false} NoSpanBefore(s: string, i: nat, k: nat)
    requires k < i <= |s|
    ensures !InSpan(Spans(s, i), k)
    decreases |s| - i
  {
    hide CoverEnd;
    if i < |s| {
      var e := CoverEnd(s, i);
      NoSpanBefore(s, if e > i then e else i + 1, k);
      assert e > i ==> Spans(s, i)[1..] == Spans(s, e);
    }
  }

  lemma SpanStep(s: string, i: nat, k: nat)
    requires i <= k < |s|
    ensures var e := CoverEnd(s, i);
      InSpan(Spans(s, i), k) ==
        if e > i && k < e then true else if k == i then false else InSpan(Spans(s, NextScan(s, i)), k)
  {
    hide CoverEnd;
    var e := CoverEnd(s, i);
    if e > i {
      assert Spans(s, i)[0] == Span(i, e) && Spans(s, i)[1..] == Spans(s, e);
    } else if k == i {
      NoSpanBefore(s, i + 1, k);
    }
  }

  /** Exactly the spans are blanked: a line break anywhere and every character outside them
    * stays as it is. */
  lemma {:induction false} MaskAt(s: string, i: nat, k: nat)
    requires i <= k < |s|
    ensures Mask(s, i)[k - i] == if InSpan(Spans(s, i), k) && !Break(s[k]) then ' ' else s[k]
    decreases |s| - i
  {
    MaskStep(s, i);
    SpanStep(s, i, k);
    hide Mask, Spans, InSpan, CoverEnd, Blanks;
    var next := NextScan(s, i);
    if k >= next {
      MaskAt(s, next, k);
      assert Mask(s, i)[k - i] == Mask(s, next)[k - next];
    }
  }

  lemma {:induction false} SpansFrom(s: string, i: nat)
    requires i <= |s|
    ensures forall p :: p in Spans(s, i) ==> i <= p.start < p.end <= |s|
    decreases |s| - i
  {
    if i < |s| {
      var e := CoverEnd(s, i);
      SpansFrom(s, if e > i then e else i + 1);
    }
  }

  // ------------------------------------------------------------- the two views agree

  predicate Covers(p: Piece) { p.kind.Remark? || p.kind.Literal? }

  function Covered(ps: seq<Piece>): seq<Span> {
    if ps == [] then []
    else (if Covers(ps[0]) then [Span(ps[0].start, ps[0].end)] else []) + Covered(ps[1..])
  }

  predicate Clear(s: string, k: nat) { k < |s| && !Quote(s[k]) && s[k] != '/' }

  lemma {:induction false} SpansSkip(s: string, i: nat, e: nat)
    requires i <= e <= |s| && forall k: nat {:trigger Clear(s, k)} :: i <= k < e ==> Clear(s, k)
    ensures Spans(s, i) == Spans(s, e)
    decreases e - i
  {
    if i < e {
      assert Clear(s, i);
      SpansSkip(s, i + 1, e);
    }
  }

  /** One lexer step and the masker: the same comment or string, or text that hides none. */
  lemma StepAgrees(c: Classes, s: string, i: nat)
    requires Lawful(c) && i < |s| && NextPiece(c, s, i).Some?
    ensures var p := NextPiece(c, s, i).value;
      && (Covers(p) ==> CoverEnd(s, i) == p.end)
      && (p.kind.Symbol? ==> CoverEnd(s, i) == i && p.end == i + 1)
      && (p.kind.Space? || p.kind.Word? ==> forall k: nat {:trigger Clear(s, k)} :: i <= k < p.end ==> Clear(s, k))
  {
  }

  /** Where the lexer gets through, the masker blanks exactly its comments and strings. */
  lemma {:induction false} ViewsAgree(c: Classes, s: string, i: nat)
    requires Lawful(c) && i <= |s| && Pieces(c, s, i).Some?
    ensures Spans(s, i) == Covered(Pieces(c, s, i).value)
    decreases |s| - i
  {
    hide CoverEnd, NextPiece, Lawful;
    if i < |s| {
      var p := NextPiece(c, s, i).value;
      StepAgrees(c, s, i);
      ViewsAgree(c, s, p.end);
      assert ([p] + Pieces(c, s, p.end).value)[1..] == Pieces(c, s, p.end).value;
      if !Covers(p) && !p.kind.Symbol? { SpansSkip(s, i, p.end); }
    }
  }

  /** The pieces follow each other without gap or overlap from `i` to the end. */
  ghost predicate Tiles(ps: seq<Piece>, i: nat, end: nat) {
    if ps == [] then i == end
    else ps[0].start == i < ps[0].end && Tiles(ps[1..], ps[0].end, end)
  }

  lemma {:induction false} PiecesTile(c: Classes, s: string, i: nat)
    requires i <= |s| && Pieces(c, s, i).Some?
    ensures Tiles(Pieces(c, s, i).value, i, |s|)
    decreases |s| - i
  {
    if i < |s| {
      var p := NextPiece(c, s, i).value;
      PiecesTile(c, s, p.end);
      assert ([p] + Pieces(c, s, p.end).value)[1..] == Pieces(c, s, p.end).value;
    }
  }
}
