/** Redaction of uploaded log chunks. A secret may be cut by a chunk boundary, so each stream
  * is redacted as one text and then dealt out over its chunks again. */
module LogRedaction {
  import opened Options
  import opened Sorting

  datatype Chunk = Chunk(stream: string, sequence: int, content: string, recordedAt: string)

  predicate BySequence(a: Chunk, b: Chunk) { a.sequence <= b.sequence }

  /** The order of the result: by stream name, and by sequence within a stream. */
  predicate ByStream(le: (string, string) -> bool, a: Chunk, b: Chunk) {
    if a.stream == b.stream then a.sequence <= b.sequence else le(a.stream, b.stream)
  }

  function StreamOrder(le: (string, string) -> bool): (Chunk, Chunk) -> bool { (a, b) => ByStream(le, a, b) }

  ghost predicate LinearOrder(le: (string, string) -> bool) {
    TotalPreorder(le) && forall a, b :: le(a, b) && le(b, a) ==> a == b
  }

  function Filter(cs: seq<Chunk>, stream: string): seq<Chunk> {
    if cs == [] then []
    else if cs[0].stream == stream then [cs[0]] + Filter(cs[1..], stream)
    else Filter(cs[1..], stream)
  }

  /** The streams in the order of their first chunk. */
  function StreamsIn(cs: seq<Chunk>): seq<string> {
    if cs == [] then []
    else
      var front, last := StreamsIn(cs[..|cs| - 1]), cs[|cs| - 1].stream;
      if last in front then front else front + [last]
  }

  function Joined(cs: seq<Chunk>): string { if cs == [] then "" else cs[0].content + Joined(cs[1..]) }

  function Smaller(a: nat, b: nat): nat { if a < b then a else b }

  /** Deals `text` out over the chunks: each gets as much as it had, the last one the rest. */
  function Slices(cs: seq<Chunk>, text: string): seq<Chunk> {
    if cs == [] then []
    else if |cs| == 1 then [cs[0].(content := text)]
    else
      var k := Smaller(|text|, |cs[0].content|);
      [cs[0].(content := text[..k])] + Slices(cs[1..], text[k..])
  }

  function SortedStream(cs: seq<Chunk>, stream: string): seq<Chunk> { StableSort(Filter(cs, stream), BySequence) }

  function Block(redact: string -> string, cs: seq<Chunk>, stream: string): seq<Chunk> {
    Slices(SortedStream(cs, stream), redact(Joined(SortedStream(cs, stream))))
  }

  function Blocks(redact: string -> string, cs: seq<Chunk>, streams: seq<string>): seq<Chunk> {
    if streams == [] then []
    else Blocks(redact, cs, streams[..|streams| - 1]) + Block(redact, cs, streams[|streams| - 1])
  }

  function Redacted(redact: string -> string, le: (string, string) -> bool, cs: seq<Chunk>): seq<Chunk> {
    StableSort(Blocks(redact, cs, StreamsIn(cs)), StreamOrder(le))
  }

  // ------------------------------------------------------------- dealing out

  /** Nothing of the text is lost, and every chunk keeps its stream and sequence. */
  lemma {:induction false} SlicesKeep(cs: seq<Chunk>, text: string)
    ensures |Slices(cs, text)| == |cs| && (cs != [] ==> Joined(Slices(cs, text)) == text)
    ensures forall i {:trigger cs[i]} {:trigger Slices(cs, text)[i]} :: 0 <= i < |cs| ==>
      Slices(cs, text)[i] == cs[i].(content := Slices(cs, text)[i].content)
  {
    if |cs| == 1 {
      assert Slices(cs, text)[1..] == [];
    } else if cs != [] {
      var k := Smaller(|text|, |cs[0].content|);
      SlicesKeep(cs[1..], text[k..]);
      assert Slices(cs, text)[1..] == Slices(cs[1..], text[k..]);
      assert text == text[..k] + text[k..];
    }
  }

  function Lengths(cs: seq<Chunk>): nat {
    if cs == [] then 0 else Lengths(cs[..|cs| - 1]) + |cs[|cs| - 1].content|
  }

  lemma {:induction false} LengthsCons(c: Chunk, cs: seq<Chunk>)
    ensures Lengths([c] + cs) == |c.content| + Lengths(cs)
  {
    if cs == [] {
      assert [c] + cs == [c] && [c][..0] == [];
    } else {
      LengthsCons(c, cs[..|cs| - 1]);
      FrontOfConcat([c], cs);
    }
  }

  /** Where the text is cut, whatever its length: the `i`-th chunk begins where the chunks before
    * it ended, or at the end of a text that is shorter, and the last one takes all that is left. */
  lemma {:induction false} SliceAt(cs: seq<Chunk>, text: string, i: nat)
    requires i < |cs|
    ensures |Slices(cs, text)| == |cs| && Lengths(cs[..i]) <= Lengths(cs[..i + 1])
    ensures Slices(cs, text)[i]
         == cs[i].(content := Between(text, Lengths(cs[..i]), Lengths(cs[..i + 1]), i == |cs| - 1))
  {
    hide Slices, Lengths, Between;
    LengthsTail(cs, i);
    LengthsTail(cs, i + 1);
    if i > 0 {
      SliceAt(cs[1..], text[Smaller(|text|, |cs[0].content|)..], i - 1);
      SlicesTail(cs, text, i);
      CutShift(text, |cs[0].content|, Lengths(cs[1..][..i - 1]), Lengths(cs[1..][..i]), i == |cs| - 1);
    } else {
      assert cs[1..][..0] == [];
      SlicesHead(cs, text);
    }
  }

  lemma SlicesHead(cs: seq<Chunk>, text: string)
    requires cs != []
    ensures |Slices(cs, text)| == |cs|
    ensures Slices(cs, text)[0] == cs[0].(content := Between(text, 0, |cs[0].content|, |cs| == 1))
    ensures Lengths([]) == 0
  {
    SlicesKeep(cs, text);
  }

  /** The text between two offsets as far as it reaches, or all that is left behind the first. */
  function Between(text: string, from: nat, to: nat, last: bool): string
    requires from <= to
  {
    text[Smaller(|text|, from)..if last then |text| else Smaller(|text|, to)]
  }

  lemma CutShift(text: string, first: nat, from: nat, to: nat, last: bool)
    requires from <= to
    ensures Between(text[Smaller(|text|, first)..], from, to, last) == Between(text, first + from, first + to, last)
  {
    var k := Smaller(|text|, first);
    var a, b := Smaller(|text| - k, from), if last then |text| - k else Smaller(|text| - k, to);
    assert k + a == Smaller(|text|, first + from);
    assert k + b == if last then |text| else Smaller(|text|, first + to);
    SliceOfSlice(text, k, a, b);
  }

  lemma SliceOfSlice(text: string, k: nat, a: nat, b: nat)
    requires k <= |text| && a <= b <= |text| - k
    ensures text[k..][a..b] == text[k + a..k + b]
  {
  }

  lemma LengthsTail(cs: seq<Chunk>, i: nat)
    requires i <= |cs|
    ensures Lengths(cs[..i]) == if i == 0 then 0 else |cs[0].content| + Lengths(cs[1..][..i - 1])
  {
    if i > 0 {
      assert cs[..i] == [cs[0]] + cs[1..][..i - 1];
      LengthsCons(cs[0], cs[1..][..i - 1]);
    }
  }

  lemma SlicesTail(cs: seq<Chunk>, text: string, i: nat)
    requires 0 < i < |cs|
    ensures var rest := Slices(cs[1..], text[Smaller(|text|, |cs[0].content|)..]);
      |rest| == |cs| - 1 && |Slices(cs, text)| == |cs| && Slices(cs, text)[i] == rest[i - 1]
  {
    SlicesKeep(cs, text);
  }

  /** A text that redaction left alone gives back the very same chunks. */
  lemma {:induction false} SlicesSame(cs: seq<Chunk>)
    ensures Slices(cs, Joined(cs)) == cs
  {
    if |cs| == 1 {
      assert Joined(cs[1..]) == "";
      assert cs[0].content + "" == cs[0].content;
    } else if cs != [] {
      var text := Joined(cs);
      assert text[..|cs[0].content|] == cs[0].content && text[|cs[0].content|..] == Joined(cs[1..]);
      SlicesSame(cs[1..]);
    }
  }

  // ------------------------------------------------------------- streams and sorting

  lemma {:induction false} FilterConcat(a: seq<Chunk>, b: seq<Chunk>, stream: string)
    ensures Filter(a + b, stream) == Filter(a, stream) + Filter(b, stream)
  {
    if a == [] {
      ConcatNone(b);
    } else {
      FilterConcat(a[1..], b, stream);
      TailOfConcat(a, b);
    }
  }

  lemma {:induction false} FilterOnly(cs: seq<Chunk>, stream: string, other: string)
    requires forall c :: c in cs ==> c.stream == stream
    ensures Filter(cs, other) == if other == stream then cs else []
  {
    if cs != [] {
      assert cs[0] in cs;
      FilterOnly(cs[1..], stream, other);
    }
  }

  lemma {:induction false} FilterMembers(cs: seq<Chunk>, stream: string)
    ensures forall c :: c in Filter(cs, stream) <==> c in cs && c.stream == stream
  {
    if cs != [] {
      FilterMembers(cs[1..], stream);
      assert cs == [cs[0]] + cs[1..];
    }
  }

  lemma {:induction false} FilterInsert(c: Chunk, cs: seq<Chunk>, le: (string, string) -> bool, stream: string)
    requires LinearOrder(le) && SortedBy(cs, StreamOrder(le))
    ensures Filter(Insert(c, cs, StreamOrder(le)), stream)
      == if c.stream == stream then Insert(c, Filter(cs, stream), BySequence) else Filter(cs, stream)
  {
    var order := StreamOrder(le);
    if cs == [] {
      assert [c][1..] == [];
    } else if order(c, cs[0]) {
      assert ([c] + cs)[1..] == cs;
      if c.stream == stream && Filter(cs, stream) != [] { FirstAbove(c, cs, le, stream); }
    } else {
      FilterInsert(c, cs[1..], le, stream);
      var inserted := Insert(c, cs, order);
      assert inserted[0] == cs[0] && inserted[1..] == Insert(c, cs[1..], order);
      if c.stream == stream && cs[0].stream == stream {
        assert Filter(cs, stream)[1..] == Filter(cs[1..], stream);
      }
    }
  }

  /** What comes first in the sorted list comes first in each stream. */
  lemma {:induction false} FirstAbove(c: Chunk, cs: seq<Chunk>, le: (string, string) -> bool, stream: string)
    requires LinearOrder(le) && SortedBy(cs, StreamOrder(le)) && cs != []
    requires c.stream == stream && ByStream(le, c, cs[0]) && Filter(cs, stream) != []
    ensures BySequence(c, Filter(cs, stream)[0])
  {
    var first := Filter(cs, stream)[0];
    FilterMembers(cs, stream);
    var k :| 0 <= k < |cs| && cs[k] == first;
    assert k > 0 ==> StreamOrder(le)(cs[0], cs[k]);
    assert cs[0].stream == stream;
  }

  lemma {:induction false} ByStreamPreorder(le: (string, string) -> bool)
    requires LinearOrder(le)
    ensures TotalPreorder(StreamOrder(le))
  {
  }

  lemma {:induction false} FilterSorted(cs: seq<Chunk>, le: (string, string) -> bool, stream: string)
    requires LinearOrder(le)
    ensures Filter(StableSort(cs, StreamOrder(le)), stream) == StableSort(Filter(cs, stream), BySequence)
  {
    var order := StreamOrder(le);
    ByStreamPreorder(le);
    if cs != [] {
      FilterSorted(cs[1..], le, stream);
      StableSortSorted(cs[1..], order);
      FilterInsert(cs[0], StableSort(cs[1..], order), le, stream);
    }
  }

  // ------------------------------------------------------------- what each stream becomes

  lemma {:induction false} StreamsOnce(cs: seq<Chunk>)
    ensures NoDuplicates(StreamsIn(cs))
    ensures forall s :: s in StreamsIn(cs) <==> exists c :: c in cs && c.stream == s
  {
    if cs != [] {
      var front, last := cs[..|cs| - 1], cs[|cs| - 1];
      StreamsOnce(front);
      assert cs == front + [last];
      assert last in cs;
      forall s
        ensures s in StreamsIn(cs) <==> exists c :: c in cs && c.stream == s
      {
        if s in StreamsIn(front) {
          var c :| c in front && c.stream == s;
          assert c in cs;
        }
      }
    }
  }

  lemma BlockStream(redact: string -> string, cs: seq<Chunk>, stream: string)
    ensures forall c :: c in Block(redact, cs, stream) ==> c.stream == stream
  {
    var sorted := SortedStream(cs, stream);
    SlicesKeep(sorted, redact(Joined(sorted)));
    SameMembers(Filter(cs, stream), BySequence);
    FilterMembers(cs, stream);
    forall c | c in Block(redact, cs, stream)
      ensures c.stream == stream
    {
      var i :| 0 <= i < |Block(redact, cs, stream)| && Block(redact, cs, stream)[i] == c;
      assert sorted[i] in Filter(cs, stream);
    }
  }

  lemma {:induction false} BlocksFilter(redact: string -> string, cs: seq<Chunk>, streams: seq<string>, stream: string)
    requires NoDuplicates(streams)
    ensures Filter(Blocks(redact, cs, streams), stream) == if stream in streams then Block(redact, cs, stream) else []
  {
    hide Block;
    if streams != [] {
      var front, last := streams[..|streams| - 1], streams[|streams| - 1];
      assert streams == front + [last];
      BlocksFilter(redact, cs, front, stream);
      BlockStream(redact, cs, last);
      FilterOnly(Block(redact, cs, last), last, stream);
      FilterConcat(Blocks(redact, cs, front), Block(redact, cs, last), stream);
    }
  }

  lemma {:induction false} BlockSorted(redact: string -> string, cs: seq<Chunk>, stream: string)
    ensures StableSort(Block(redact, cs, stream), BySequence) == Block(redact, cs, stream)
  {
    var sorted, block := SortedStream(cs, stream), Block(redact, cs, stream);
    StableSortSorted(Filter(cs, stream), BySequence);
    SlicesKeep(sorted, redact(Joined(sorted)));
    forall i, k | 0 <= i < k < |block|
      ensures BySequence(block[i], block[k])
    {
      assert BySequence(sorted[i], sorted[k]);
      assert block[i].sequence == sorted[i].sequence && block[k].sequence == sorted[k].sequence;
    }
    SortOfSorted(block, BySequence);
  }

  /** In the result each stream is its redacted text dealt out over its own chunks. */
  lemma ResultStream(redact: string -> string, le: (string, string) -> bool, cs: seq<Chunk>, stream: string)
    requires LinearOrder(le)
    ensures Filter(Redacted(redact, le, cs), stream) == Block(redact, cs, stream)
  {
    hide Block, Filter;
    StreamsOnce(cs);
    FilterSorted(Blocks(redact, cs, StreamsIn(cs)), le, stream);
    BlocksFilter(redact, cs, StreamsIn(cs), stream);
    if stream in StreamsIn(cs) { BlockSorted(redact, cs, stream); } else { NoBlock(redact, cs, stream); }
  }

  lemma NoBlock(redact: string -> string, cs: seq<Chunk>, stream: string)
    requires forall c :: c in cs ==> c.stream != stream
    ensures Block(redact, cs, stream) == [] && SortedStream(cs, stream) == []
  {
    FilterNone(cs, stream);
  }

  lemma {:induction false} FilterNone(cs: seq<Chunk>, stream: string)
    requires forall c :: c in cs ==> c.stream != stream
    ensures Filter(cs, stream) == []
  {
    if cs != [] {
      assert cs[0] in cs;
      FilterNone(cs[1..], stream);
    }
  }

  /** Read in sequence order, every stream of the result is the redaction of what was read
    * in sequence order before, whatever the chunk boundaries cut through. */
  lemma StreamIsRedacted(redact: string -> string, le: (string, string) -> bool, cs: seq<Chunk>, stream: string)
    requires LinearOrder(le) && stream in StreamsIn(cs)
    ensures Joined(Filter(Redacted(redact, le, cs), stream)) == redact(Joined(SortedStream(cs, stream)))
    ensures SortedBy(Filter(Redacted(redact, le, cs), stream), BySequence)
  {
    var sorted := SortedStream(cs, stream);
    hide Redacted;
    StreamsOnce(cs);
    FilterMembers(cs, stream);
    ResultStream(redact, le, cs, stream);
    SlicesKeep(sorted, redact(Joined(sorted)));
    BlockSorted(redact, cs, stream);
    StableSortSorted(Block(redact, cs, stream), BySequence);
  }

  /** The whole result is in the order of streams, and of sequence numbers within a stream. */
  lemma ResultOrdered(redact: string -> string, le: (string, string) -> bool, cs: seq<Chunk>)
    requires LinearOrder(le)
    ensures var r := Redacted(redact, le, cs);
      forall i, k :: 0 <= i < k < |r| ==>
        if r[i].stream == r[k].stream then r[i].sequence <= r[k].sequence else le(r[i].stream, r[k].stream)
  {
    ByStreamPreorder(le);
    StableSortSorted(Blocks(redact, cs, StreamsIn(cs)), StreamOrder(le));
    var r, order := Redacted(redact, le, cs), StreamOrder(le);
    forall i, k | 0 <= i < k < |r|
      ensures ByStream(le, r[i], r[k])
    {
      assert order(r[i], r[k]);
    }
    hide Blocks, StableSort;
  }

  /** Chunk by chunk: the `i`-th chunk of a stream keeps its number and time and holds that part of
    * the redacted text which begins and ends where its own text did, as far as there is any; the
    * last one holds all that is left. */
  lemma ChunkBecomes(redact: string -> string, le: (string, string) -> bool, cs: seq<Chunk>, stream: string, i: nat)
    requires LinearOrder(le) && i < |SortedStream(cs, stream)|
    ensures var own, result := SortedStream(cs, stream), Filter(Redacted(redact, le, cs), stream);
      && |result| == |own| && Lengths(own[..i]) <= Lengths(own[..i + 1])
      && result[i] == own[i].(content :=
           Between(redact(Joined(own)), Lengths(own[..i]), Lengths(own[..i + 1]), i == |own| - 1))
  {
    hide Redacted, Slices, SortedStream, Joined;
    ResultStream(redact, le, cs, stream);
    SliceAt(SortedStream(cs, stream), redact(Joined(SortedStream(cs, stream))), i);
  }

  /** Chunks of one stream are read in ascending order, equal numbers as they came. */
  lemma StreamInOrder(cs: seq<Chunk>, stream: string, sequence: int)
    ensures SortedBy(SortedStream(cs, stream), BySequence)
    ensures var same := (c: Chunk) => c.stream == stream && c.sequence == sequence;
      Having(SortedStream(cs, stream), same) == Having(cs, same)
  {
    var same := (c: Chunk) => c.stream == stream && c.sequence == sequence;
    StableSortSorted(Filter(cs, stream), BySequence);
    StableSortStable(Filter(cs, stream), BySequence, same);
    FilterHaving(cs, stream, same);
  }

  lemma {:induction false} FilterHaving(cs: seq<Chunk>, stream: string, p: Chunk -> bool)
    requires forall c :: p(c) ==> c.stream == stream
    ensures Having(Filter(cs, stream), p) == Having(cs, p)
  {
    if cs != [] {
      FilterHaving(cs[1..], stream, p);
      if cs[0].stream == stream { assert Filter(cs, stream)[1..] == Filter(cs[1..], stream); }
    }
  }

  /** Chunks of a stream that redaction leaves alone come back unchanged. */
  lemma StreamUnchanged(redact: string -> string, le: (string, string) -> bool, cs: seq<Chunk>, stream: string)
    requires LinearOrder(le) && redact(Joined(SortedStream(cs, stream))) == Joined(SortedStream(cs, stream))
    ensures Filter(Redacted(redact, le, cs), stream) == SortedStream(cs, stream)
  {
    hide Redacted;
    ResultStream(redact, le, cs, stream);
    SlicesSame(SortedStream(cs, stream));
  }

  // ------------------------------------------------------------- no chunk is lost or doubled

  function Count(cs: seq<Chunk>, stream: string, sequence: int): nat {
    if cs == [] then 0
    else (if cs[0].stream == stream && cs[0].sequence == sequence then 1 else 0) + Count(cs[1..], stream, sequence)
  }

  lemma {:induction false} CountFilter(cs: seq<Chunk>, stream: string, sequence: int)
    ensures Count(Filter(cs, stream), stream, sequence) == Count(cs, stream, sequence)
  {
    if cs != [] {
      CountFilter(cs[1..], stream, sequence);
      if cs[0].stream == stream { assert Filter(cs, stream)[1..] == Filter(cs[1..], stream); }
    }
  }

  lemma {:induction false} CountInsert(c: Chunk, cs: seq<Chunk>, stream: string, sequence: int)
    ensures Count(Insert(c, cs, BySequence), stream, sequence)
      == Count([c], stream, sequence) + Count(cs, stream, sequence)
  {
    assert [c][1..] == [];
    if cs == [] {
    } else if BySequence(c, cs[0]) {
      assert ([c] + cs)[1..] == cs;
    } else {
      CountInsert(c, cs[1..], stream, sequence);
      assert Insert(c, cs, BySequence)[1..] == Insert(c, cs[1..], BySequence);
    }
  }

  lemma {:induction false} CountSorted(cs: seq<Chunk>, stream: string, sequence: int)
    ensures Count(StableSort(cs, BySequence), stream, sequence) == Count(cs, stream, sequence)
  {
    if cs != [] {
      CountSorted(cs[1..], stream, sequence);
      CountInsert(cs[0], StableSort(cs[1..], BySequence), stream, sequence);
      assert [cs[0]][1..] == [];
    }
  }

  lemma {:induction false} CountKeys(a: seq<Chunk>, b: seq<Chunk>, stream: string, sequence: int)
    requires |a| == |b|
    requires forall i {:trigger a[i]} {:trigger b[i]} :: 0 <= i < |a| ==>
      a[i].stream == b[i].stream && a[i].sequence == b[i].sequence
    ensures Count(a, stream, sequence) == Count(b, stream, sequence)
  {
    if a != [] {
      forall i {:trigger a[1..][i]} | 0 <= i < |a| - 1
        ensures a[1..][i].stream == b[1..][i].stream && a[1..][i].sequence == b[1..][i].sequence
      {
        assert a[i + 1].stream == b[i + 1].stream;
      }
      CountKeys(a[1..], b[1..], stream, sequence);
    }
  }

  /** Every stream and sequence number occurs as often as before. */
  lemma KeysKept(redact: string -> string, le: (string, string) -> bool, cs: seq<Chunk>, stream: string, sequence: int)
    requires LinearOrder(le)
    ensures Count(Redacted(redact, le, cs), stream, sequence) == Count(cs, stream, sequence)
  {
    hide Redacted, Filter;
    var sorted := SortedStream(cs, stream);
    CountFilter(Redacted(redact, le, cs), stream, sequence);
    ResultStream(redact, le, cs, stream);
    SlicesKeep(sorted, redact(Joined(sorted)));
    CountKeys(Block(redact, cs, stream), sorted, stream, sequence);
    CountSorted(Filter(cs, stream), stream, sequence);
    CountFilter(cs, stream, sequence);
  }

  // ------------------------------------------------------------- the loops

  lemma FilterSnoc(cs: seq<Chunk>, i: nat, stream: string)
    requires i < |cs|
    ensures Filter(cs[..i + 1], stream) == Filter(cs[..i], stream) + if cs[i].stream == stream then [cs[i]] else []
  {
    TakeSnoc(cs, i);
    FilterConcat(cs[..i], [cs[i]], stream);
    assert [cs[i]][1..] == [];
  }

  method GroupByStream(chunks: seq<Chunk>) returns (order: seq<string>, grouped: map<string, seq<Chunk>>)
    ensures order == StreamsIn(chunks)
    ensures forall s :: s in grouped <==> s in order
    ensures forall s :: s in grouped ==> grouped[s] == Filter(chunks, s)
  {
    order, grouped := [], map[];
    var i := 0;
    assert chunks[..0] == [];
    while i < |chunks|
      invariant i <= |chunks| && order == StreamsIn(chunks[..i])
      invariant forall s :: s in grouped <==> s in order
      invariant forall s :: s in grouped ==> grouped[s] == Filter(chunks[..i], s)
      invariant forall s :: s !in grouped ==> Filter(chunks[..i], s) == []
    {
      var chunk := chunks[i];
      forall s
        ensures Filter(chunks[..i + 1], s) == Filter(chunks[..i], s) + if chunk.stream == s then [chunk] else []
      {
        FilterSnoc(chunks, i, s);
      }
      assert chunks[..i + 1][..i] == chunks[..i];
      if chunk.stream !in grouped { order := order + [chunk.stream]; }
      var stream := if chunk.stream in grouped then grouped[chunk.stream] else [];
      grouped := grouped[chunk.stream := stream + [chunk]];
      i := i + 1;
    }
    assert chunks[..|chunks|] == chunks;
  }

  /** Cuts the redacted text at the old lengths. */
  method DealOut(streamChunks: seq<Chunk>, redacted: string) returns (result: seq<Chunk>)
    ensures result == Slices(streamChunks, redacted)
  {
    result := [];
    var offset, index := 0, 0;
    hide Slices;
    assert streamChunks[0..] == streamChunks && redacted[0..] == redacted;
    while index < |streamChunks|
      invariant index <= |streamChunks| && offset <= |redacted|
      invariant Slices(streamChunks, redacted) == result + Slices(streamChunks[index..], redacted[offset..])
    {
      var chunk := streamChunks[index];
      var isLast := index == |streamChunks| - 1;
      var end := if isLast then |redacted| else Smaller(|redacted|, offset + |chunk.content|);
      SliceStep(streamChunks, redacted, index, offset, end);
      Assoc(result, [chunk.(content := redacted[offset..end])], Slices(streamChunks[index + 1..], redacted[end..]));
      result := result + [chunk.(content := redacted[offset..end])];
      offset, index := end, index + 1;
    }
    NoSlices(streamChunks[index..], redacted[offset..]);
    assert result + [] == result;
  }

  lemma NoSlices(cs: seq<Chunk>, text: string)
    requires cs == []
    ensures Slices(cs, text) == []
  {
  }

  lemma SliceStep(cs: seq<Chunk>, text: string, index: nat, offset: nat, end: nat)
    requires index < |cs| && offset <= end <= |text|
    requires end == if index == |cs| - 1 then |text| else Smaller(|text|, offset + |cs[index].content|)
    ensures Slices(cs[index..], text[offset..])
      == [cs[index].(content := text[offset..end])] + Slices(cs[index + 1..], text[end..])
  {
    var rest, left := cs[index..], text[offset..];
    assert rest[0] == cs[index] && rest[1..] == cs[index + 1..];
    assert left[..end - offset] == text[offset..end] && left[end - offset..] == text[end..];
    if index == |cs| - 1 { assert text[offset..end] == left && cs[index + 1..] == []; }
  }

  method RedactLogChunks(chunks: seq<Chunk>, redact: string -> string, le: (string, string) -> bool)
    returns (result: seq<Chunk>)
    ensures result == Redacted(redact, le, chunks)
  {
    var order, grouped := GroupByStream(chunks);
    result := [];
    var i := 0;
    while i < |order|
      invariant i <= |order| && result == Blocks(redact, chunks, order[..i])
    {
      assert order[..i + 1][..i] == order[..i];
      assert order[i] in order;
      var streamChunks := StableSort(grouped[order[i]], BySequence);
      var block := DealOut(streamChunks, redact(Joined(streamChunks)));
      result := result + block;
      i := i + 1;
    }
    assert order[..|order|] == order;
    result := StableSort(result, StreamOrder(le));
  }
}
