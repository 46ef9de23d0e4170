/** The lexer and the masker as they scan, one character position at a time. */
module GroovyScanner {
  import opened Options
  import opened GroovyText
  import opened GroovyLexing

  class GroovyLexer {
    const classes: Classes
    const source: string
    var offset: nat
    var line: int

    constructor (classes: Classes, source: string)
      ensures this.classes == classes && this.source == source && offset == 0 && line == 1
    {
      this.classes, this.source, offset, line := classes, source, 0, 1;
    }

    method Tokenize() returns (r: Result<seq<Token>, int>)
      requires Lawful(classes) && offset == 0 && line == 1
      modifies this
      ensures r == Lexed(classes, source, 0, 1)
    {
      var tokens := [];
      PrependNone(Lexed(classes, source, 0, 1));
      while offset < |source|
        invariant offset <= |source|
        invariant Lexed(classes, source, 0, 1) == Prepend(tokens, Lexed(classes, source, offset, line))
        decreases |source| - offset
      {
        ghost var from, at := offset, line;
        var next := TakePiece();
        if next.Err? { return Err(next.error); }
        PrependTwice(tokens, next.value, Lexed(classes, source, offset, line));
        tokens := tokens + next.value;
      }
      assert tokens + [] == tokens;
      r := Ok(tokens);
    }

    /** One round of the scanning loop: the token it adds, if any, or the line of what is not closed. */
    method TakePiece() returns (r: Result<seq<Token>, int>)
      requires Lawful(classes) && offset < |source|
      modifies this
      ensures r.Err? <==> NextPiece(classes, source, old(offset)).None?
      ensures r.Err? ==> r.error == old(line)
      ensures r.Ok? ==>
        var p := NextPiece(classes, source, old(offset)).value;
        && offset == p.end && line == LineAfter(source, p, old(line))
        && r.value == if IsToken(p) then [TokenOf(source, p, old(line))] else []
    {
      var character, start, startLine := source[offset], offset, line;
      if classes.white(character) {
        ConsumeWhitespace();
        r := Ok([]);
      } else if OpensLine(source, offset) {
        ConsumeLineComment();
        r := Ok([]);
      } else if OpensBlock(source, offset) {
        var closed := ConsumeBlockComment();
        r := if closed then Ok([]) else Err(startLine);
      } else if Quote(character) {
        var closed := ConsumeString(character);
        r := if closed then Ok([Token(Literal, source[start..offset], start, offset, startLine)]) else Err(startLine);
      } else if classes.start(character) {
        ConsumeIdentifier();
        r := Ok([Token(Word, source[start..offset], start, offset, startLine)]);
      } else {
        NoNewlines(source, offset, offset + 1);
        r := Ok([Token(Symbol, source[offset..offset + 1], offset, offset + 1, line)]);
        offset := offset + 1;
      }
    }

    method ConsumeWhitespace()
      requires offset < |source| && classes.white(source[offset])
      modifies this
      ensures offset == RunEnd(source, old(offset) + 1, classes.white) &&
        line == old(line) + Newlines(source, old(offset), offset)
    {
      while offset < |source| && classes.white(source[offset])
        invariant old(offset) <= offset <= |source|
        invariant RunEnd(source, old(offset), classes.white) == RunEnd(source, offset, classes.white)
        invariant line == old(line) + Newlines(source, old(offset), offset)
      {
        if source[offset] == '\n' { line := line + 1; }
        offset := offset + 1;
      }
    }

    method ConsumeLineComment()
      requires OpensLine(source, offset)
      modifies `offset
      ensures offset == LineEnd(source, old(offset) + 2) && Newlines(source, old(offset), offset) == 0
    {
      offset := offset + 2;
      while offset < |source| && source[offset] != '\n'
        invariant old(offset) + 2 <= offset <= |source|
        invariant LineEnd(source, old(offset) + 2) == LineEnd(source, offset)
        invariant forall k :: old(offset) <= k < offset ==> source[k] != '\n'
      {
        offset := offset + 1;
      }
      NoNewlines(source, old(offset), offset);
    }

    method ConsumeBlockComment() returns (closed: bool)
      requires OpensBlock(source, offset)
      modifies this
      ensures closed <==> BlockClose(source, old(offset) + 2).Some?
      ensures closed ==> offset == BlockClose(source, old(offset) + 2).value + 2
      ensures closed ==> line == old(line) + Newlines(source, old(offset), offset)
    {
      NoNewlines(source, offset, offset + 2);
      offset := offset + 2;
      while offset + 1 < |source| && !ClosesBlock(source, offset)
        invariant old(offset) + 2 <= offset <= |source|
        invariant BlockClose(source, old(offset) + 2) == BlockClose(source, offset)
        invariant line == old(line) + Newlines(source, old(offset), offset)
      {
        if source[offset] == '\n' { line := line + 1; }
        offset := offset + 1;
      }
      if offset + 1 >= |source| { return false; }
      NoNewlines(source, offset, offset + 2);
      NewlinesJoin(source, old(offset), offset, offset + 2);
      offset := offset + 2;
      closed := true;
    }

    method ConsumeString(quote: char) returns (closed: bool)
      requires offset < |source| && source[offset] == quote && Quote(quote)
      modifies this
      ensures closed <==> LiteralEnd(source, old(offset)).Some?
      ensures closed ==> offset == LiteralEnd(source, old(offset)).value <= |source|
      ensures closed ==> line == LineAfter(source, Piece(Literal, old(offset), offset), old(line))
    {
      ghost var start := offset;
      var triple := Three(source, offset, quote);
      NoNewlines(source, start, Body(source, start));
      offset := offset + if triple then 3 else 1;
      while offset < |source|
        invariant start < offset <= |source|
        invariant LiteralEnd(source, start) == StringEnd(source, offset, quote, triple)
        invariant line == old(line) + Newlines(source, start, offset)
          - (Hidden(source, Body(source, start), quote, triple) - Hidden(source, offset, quote, triple))
        decreases |source| - offset
      {
        HiddenStep(source, start, offset, quote, triple);
        if source[offset] == '\n' { line := line + 1; }
        if Escaped(source, offset, triple) {
          offset := offset + 2;
        } else if triple && Three(source, offset, quote) {
          offset := offset + 3;
          return true;
        } else if !triple && source[offset] == quote {
          offset := offset + 1;
          return true;
        } else {
          offset := offset + 1;
        }
      }
      closed := false;
    }

    method ConsumeIdentifier()
      requires Lawful(classes) && offset < |source| && classes.start(source[offset]) && !classes.white(source[offset])
      modifies `offset
      ensures offset == RunEnd(source, old(offset) + 1, classes.part) && Newlines(source, old(offset), offset) == 0
    {
      offset := offset + 1;
      while offset < |source| && classes.part(source[offset])
        invariant old(offset) < offset <= |source|
        invariant RunEnd(source, old(offset) + 1, classes.part) == RunEnd(source, offset, classes.part)
        invariant forall k :: old(offset) <= k < offset ==> source[k] != '\n'
      {
        offset := offset + 1;
      }
      NoNewlines(source, old(offset), offset);
    }
  }

  /** How the line counter and the position move by one round of the string loop. */
  lemma HiddenStep(s: string, start: nat, i: nat, quote: char, triple: bool)
    requires start <= i < |s| && Quote(quote)
    ensures var here := Newlines(s, start, i) + if s[i] == '\n' then 1 else 0;
      && (Escaped(s, i, triple) ==>
            Newlines(s, start, i + 2) == here + Hidden(s, i, quote, triple) - Hidden(s, i + 2, quote, triple))
      && (!Escaped(s, i, triple) && triple && Three(s, i, quote) ==>
            Newlines(s, start, i + 3) == here && Hidden(s, i, quote, triple) == 0)
      && Newlines(s, start, i + 1) == here
  {
    if Escaped(s, i, triple) {
      assert s[i] != '\n';
      assert Newlines(s, start, i + 1) == Newlines(s, start, i);
    }
    if triple && Three(s, i, quote) {
      NoNewlines(s, i, i + 3);
      NewlinesJoin(s, start, i, i + 3);
    }
  }

  // ------------------------------------------------------------- the masker

  method FindStringEnd(source: string, start: nat, quote: char, triple: bool) returns (end: nat)
    requires start < |source| && source[start] == quote && triple == Three(source, start, quote)
    ensures end == match LiteralEnd(source, start) case Some(e) => e case None => |source|
  {
    var offset := start + if triple then 3 else 1;
    while offset < |source|
      invariant start < offset <= |source|
      invariant LiteralEnd(source, start) == StringEnd(source, offset, quote, triple)
      decreases |source| - offset
    {
      if Escaped(source, offset, triple) {
        offset := offset + 2;
      } else if triple && Three(source, offset, quote) {
        return offset + 3;
      } else if !triple && source[offset] == quote {
        return offset + 1;
      } else {
        offset := offset + 1;
      }
    }
    return |source|;
  }

  method IndexOfBreak(source: string, from: nat) returns (end: nat)
    requires from <= |source|
    ensures end == LineEnd(source, from)
  {
    end := from;
    while end < |source| && source[end] != '\n'
      invariant from <= end <= |source| && LineEnd(source, from) == LineEnd(source, end)
    {
      end := end + 1;
    }
  }

  method IndexOfClose(source: string, from: nat) returns (closing: Option<nat>)
    ensures closing == BlockClose(source, from)
  {
    var at := from;
    while at + 1 < |source|
      invariant from <= at && BlockClose(source, from) == BlockClose(source, at)
      decreases |source| - at
    {
      if ClosesBlock(source, at) { return Some(at); }
      at := at + 1;
    }
    closing := None;
  }

  /** Blanks the span in place, line breaks excepted. */
  method BlankSpan(source: string, start: nat, end: nat, masked: array<char>)
    requires start <= end <= |source| == masked.Length && masked[start..] == source[start..]
    modifies masked
    ensures masked[..] == old(masked[..start]) + Blanks(source[start..end]) + source[end..]
  {
    var index := start;
    while index < end
      invariant start <= index <= end
      invariant forall k :: 0 <= k < start ==> masked[k] == old(masked[k])
      invariant forall k :: start <= k < index ==> masked[k] == Blanks(source[start..end])[k - start]
      invariant forall k :: index <= k < masked.Length ==> masked[k] == source[k]
    {
      assert masked[index] == source[index] == source[start..end][index - start];
      if !Break(masked[index]) { masked[index] := ' '; }
      index := index + 1;
    }
  }

  /** The scan has reached `offset`, with the text before it blanked and its spans collected. */
  ghost predicate Scanned(source: string, offset: nat, blanked: string, narrative: string, done: seq<Span>) {
    && offset <= |source| && |blanked| == offset
    && Mask(source, 0) == blanked + Mask(source, offset)
    && Spans(source, 0) == done + Spans(source, offset)
    && (forall p :: p in done ==> p.start <= p.end <= |source|) && narrative == Narrative(source, done)
  }

  lemma ScannedSpan(source: string, offset: nat, blanked: string, narrative: string, done: seq<Span>)
    requires Scanned(source, offset, blanked, narrative, done) && offset < |source| && CoverEnd(source, offset) > offset
    ensures var end := CoverEnd(source, offset);
      Scanned(source, end, blanked + Blanks(source[offset..end]), narrative + " " + source[offset..end],
              done + [Span(offset, end)])
  {
    hide CoverEnd;
    var end := CoverEnd(source, offset);
    Assoc(blanked, Blanks(source[offset..end]), Mask(source, end));
    Assoc(done, [Span(offset, end)], Spans(source, end));
    assert (done + [Span(offset, end)])[..|done|] == done;
  }

  lemma ScannedChar(source: string, offset: nat, blanked: string, narrative: string, done: seq<Span>)
    requires Scanned(source, offset, blanked, narrative, done) && offset < |source|
    requires CoverEnd(source, offset) == offset
    ensures Scanned(source, offset + 1, blanked + [source[offset]], narrative, done)
  {
    hide CoverEnd, Narrative;
    Assoc(blanked, [source[offset]], Mask(source, offset + 1));
  }

  /** Collects the comments and strings and blanks them in the copy that is handed in. */
  method ScanNarrative(source: string, masked: array<char>) returns (narrative: string)
    requires masked[..] == source
    modifies masked
    ensures masked[..] == Mask(source, 0)
    ensures (forall p :: p in Spans(source, 0) ==> p.start <= p.end <= |source|) &&
      narrative == Narrative(source, Spans(source, 0))
  {
    SpansFrom(source, 0);
    var offset := 0;
    ghost var done: seq<Span>, blanked := [], "";
    narrative := "";
    assert Scanned(source, 0, "", "", []);
    hide Scanned, Blanks, Mask, Spans, Narrative, CoverEnd;
    while offset < |source|
      invariant offset <= |source| && |blanked| == offset && masked[..] == blanked + source[offset..]
      invariant Scanned(source, offset, blanked, narrative, done)
      decreases |source| - offset
    {
      var end := SpanEnd(source, offset);
      if end > offset {
        ScannedSpan(source, offset, blanked, narrative, done);
        BlankNext(source, offset, end, masked, blanked);
        narrative := narrative + " " + source[offset..end];
        done, blanked := done + [Span(offset, end)], blanked + Blanks(source[offset..end]);
        offset := end;
      } else {
        ScannedChar(source, offset, blanked, narrative, done);
        LeftAlone(source, offset, blanked);
        blanked := blanked + [source[offset]];
        offset := offset + 1;
      }
    }
    ScannedAll(source, blanked, narrative, done);
    assert blanked + source[|source|..] == blanked;
  }

  lemma LeftAlone(source: string, offset: nat, blanked: string)
    requires offset < |source|
    ensures blanked + source[offset..] == blanked + [source[offset]] + source[offset + 1..]
  {
    assert source[offset..] == [source[offset]] + source[offset + 1..];
  }

  method BlankNext(source: string, offset: nat, end: nat, masked: array<char>, ghost blanked: string)
    requires offset <= end <= |source| && |blanked| == offset && masked[..] == blanked + source[offset..]
    modifies masked
    ensures masked[..] == blanked + Blanks(source[offset..end]) + source[end..]
  {
    hide Blanks;
    assert masked[offset..] == source[offset..] && masked[..offset] == blanked;
    BlankSpan(source, offset, end, masked);
  }

  lemma ScannedAll(source: string, blanked: string, narrative: string, done: seq<Span>)
    requires Scanned(source, |source|, blanked, narrative, done)
    ensures blanked == Mask(source, 0) && done == Spans(source, 0) &&
      (forall p :: p in done ==> p.start <= p.end <= |source|)
    ensures narrative == Narrative(source, done)
  {
    assert blanked + [] == blanked && done + [] == done;
  }

  method SpanEnd(source: string, offset: nat) returns (end: nat)
    requires offset < |source|
    ensures end == CoverEnd(source, offset)
  {
    if OpensLine(source, offset) {
      end := IndexOfBreak(source, offset + 2);
    } else if OpensBlock(source, offset) {
      var closing := IndexOfClose(source, offset + 2);
      end := if closing.None? then |source| else closing.value + 2;
    } else if Quote(source[offset]) {
      end := FindStringEnd(source, offset, source[offset], Three(source, offset, source[offset]));
    } else {
      end := offset;
    }
  }
}
