/** Source edits, checked for overlap in ascending order and applied in descending order. What a set of
  * edits means is one splice from left to right. Both sorts keep edits with equal starts in list order,
  * and that is where applying them and splicing part. */
module TextEdits {
  import opened Options
  import opened Sorting

  datatype TextEdit = TextEdit(start: nat, end: nat, replacement: string)

  predicate Ascending(a: TextEdit, b: TextEdit) { a.start <= b.start }

  predicate Descending(a: TextEdit, b: TextEdit) { a.start >= b.start }

  function Ordered(edits: seq<TextEdit>): seq<TextEdit> { StableSort(edits, Ascending) }

  function Backwards(edits: seq<TextEdit>): seq<TextEdit> { StableSort(edits, Descending) }

  predicate ApartAt(ordered: seq<TextEdit>, i: nat)
    requires 0 < i < |ordered|
  {
    ordered[i - 1].end <= ordered[i].start
  }

  /** The overlap check looks at neighbours only. */
  predicate Neighbourly(ordered: seq<TextEdit>) {
    forall i {:trigger ApartAt(ordered, i)} :: 0 < i < |ordered| ==> ApartAt(ordered, i)
  }

  predicate Inside(source: string, edits: seq<TextEdit>) {
    forall i {:trigger edits[i]} :: 0 <= i < |edits| ==> edits[i].start <= edits[i].end <= |source|
  }

  function Replace(text: string, e: TextEdit): string {
    if e.start <= e.end <= |text| then text[..e.start] + e.replacement + text[e.end..] else text
  }

  function ApplyAll(text: string, edits: seq<TextEdit>): string
    decreases |edits|
  {
    if edits == [] then text else ApplyAll(Replace(text, edits[0]), edits[1..])
  }

  /** What the edits mean together: the text between them, with each range replaced. */
  function Splice(source: string, ordered: seq<TextEdit>, from: nat): string
    requires from <= |source|
  {
    if ordered == [] then source[from..]
    else if from <= ordered[0].start <= ordered[0].end <= |source| then
      source[from..ordered[0].start] + ordered[0].replacement + Splice(source, ordered[1..], ordered[0].end)
    else []
  }

  // ------------------------------------------------------------- the code

  method ValidateNonOverlapping(edits: seq<TextEdit>) returns (ok: bool)
    ensures ok <==> Neighbourly(Ordered(edits))
  {
    var ordered := StableSort(edits, Ascending);
    var index := 1;
    while index < |ordered|
      invariant 1 <= index
      invariant forall i {:trigger ApartAt(ordered, i)} :: 0 < i < index && i < |ordered| ==> ApartAt(ordered, i)
    {
      if ordered[index].start < ordered[index - 1].end {
        assert !ApartAt(ordered, index);
        return false;
      }
      index := index + 1;
    }
    ok := true;
  }

  method ApplyEdits(source: string, edits: seq<TextEdit>) returns (updated: string)
    ensures updated == ApplyAll(source, Backwards(edits))
  {
    var descending := StableSort(edits, Descending);
    updated := source;
    var i := 0;
    while i < |descending|
      invariant i <= |descending|
      invariant ApplyAll(source, descending) == ApplyAll(updated, descending[i..])
    {
      assert descending[i..][1..] == descending[i + 1..];
      updated := Replace(updated, descending[i]);
      i := i + 1;
    }
  }

  // ------------------------------------------------------------- sorting one way and the other

  lemma InsertsCommute(a: TextEdit, b: TextEdit, s: seq<TextEdit>)
    requires a.start < b.start
    ensures Insert(a, Insert(b, s, Descending), Descending) == Insert(b, Insert(a, s, Descending), Descending)
  {
    if s != [] {
      InsertsCommute(a, b, s[1..]);
    }
  }

  lemma {:induction false} BackwardsOfInsert(e: TextEdit, ordered: seq<TextEdit>)
    ensures Backwards(Insert(e, ordered, Ascending)) == Insert(e, Backwards(ordered), Descending)
  {
    if ordered != [] && !Ascending(e, ordered[0]) {
      BackwardsOfInsert(e, ordered[1..]);
      InsertsCommute(ordered[0], e, Backwards(ordered[1..]));
    }
  }

  /** Sorting backwards gives the same whether or not the list was sorted forwards before. */
  lemma {:induction false} BackwardsOfOrdered(edits: seq<TextEdit>)
    ensures Backwards(Ordered(edits)) == Backwards(edits)
  {
    if edits != [] {
      BackwardsOfOrdered(edits[1..]);
      BackwardsOfInsert(edits[0], Ordered(edits[1..]));
    }
  }

  ghost predicate StartsAbove(edits: seq<TextEdit>, start: nat) { forall e :: e in edits ==> e.start > start }

  lemma {:induction false} InsertLast(e: TextEdit, s: seq<TextEdit>, last: seq<TextEdit>)
    requires StartsAbove(s, e.start) && (last != [] ==> last[0].start == e.start)
    ensures Insert(e, s + last, Descending) == s + [e] + last
  {
    if s != [] {
      assert s[0] in s && StartsAbove(s[1..], e.start);
      InsertLast(e, s[1..], last);
      TailOfConcat(s, last);
      HeadFirst(s, e, last);
    } else {
      ConcatNone(last);
    }
  }

  lemma HeadFirst(s: seq<TextEdit>, e: TextEdit, last: seq<TextEdit>)
    requires s != []
    ensures [s[0]] + (s[1..] + [e] + last) == s + [e] + last
  {
  }

  lemma {:induction false} ApplyConcat(text: string, a: seq<TextEdit>, b: seq<TextEdit>)
    ensures ApplyAll(text, a + b) == ApplyAll(ApplyAll(text, a), b)
    decreases |a|
  {
    if a == [] {
      ConcatNone(b);
    } else {
      ApplyConcat(Replace(text, a[0]), a[1..], b);
      TailOfConcat(a, b);
    }
  }

  // ------------------------------------------------------------- a sorted, checked list

  /** Every range lies inside the source, and the next one does not start before it ends. */
  ghost predicate Layout(source: string, ordered: seq<TextEdit>) {
    ordered != [] ==>
      && ordered[0].start <= ordered[0].end <= |source|
      && (|ordered| > 1 ==> ordered[0].end <= ordered[1].start)
      && Layout(source, ordered[1..])
  }

  lemma {:induction false} CheckedLayout(source: string, ordered: seq<TextEdit>)
    requires Inside(source, ordered) && Neighbourly(ordered)
    ensures Layout(source, ordered)
  {
    if ordered != [] {
      assert ordered[0].start <= ordered[0].end;
      assert |ordered| > 1 ==> ApartAt(ordered, 1);
      forall i {:trigger ordered[1..][i]} | 0 <= i < |ordered[1..]|
        ensures ordered[1..][i].start <= ordered[1..][i].end <= |source|
      {
        assert ordered[i + 1].start <= ordered[i + 1].end;
      }
      forall i {:trigger ApartAt(ordered[1..], i)} | 0 < i < |ordered[1..]|
        ensures ApartAt(ordered[1..], i)
      {
        assert ApartAt(ordered, i + 1);
      }
      CheckedLayout(source, ordered[1..]);
    }
  }

  /** Neighbours that do not overlap mean that no two edits overlap. */
  lemma {:induction false} AllApart(source: string, ordered: seq<TextEdit>, i: nat, k: nat)
    requires Layout(source, ordered) && i < k < |ordered|
    ensures ordered[i].start <= ordered[i].end <= ordered[k].start <= ordered[k].end <= |source|
  {
    if i > 0 {
      AllApart(source, ordered[1..], i - 1, k - 1);
    } else if k > 1 {
      AllApart(source, ordered[1..], 0, k - 1);
    } else {
      assert Layout(source, ordered[1..]) && ordered[1..][0] == ordered[1];
    }
  }

  predicate DistinctStarts(edits: seq<TextEdit>) {
    forall i, k :: 0 <= i < k < |edits| ==> edits[i].start != edits[k].start
  }

  function First(source: string, ordered: seq<TextEdit>): nat { if ordered == [] then |source| else ordered[0].start }

  lemma {:induction false} TailAbove(source: string, ordered: seq<TextEdit>)
    requires Layout(source, ordered) && ordered != [] && (|ordered| > 1 ==> ordered[0].start < ordered[1].start)
    ensures StartsAbove(Backwards(ordered[1..]), ordered[0].start)
  {
    SameMembers(ordered[1..], Descending);
    forall e | e in ordered[1..]
      ensures e.start > ordered[0].start
    {
      var k :| 0 <= k < |ordered[1..]| && ordered[1..][k] == e;
      if k > 0 { AllApart(source, ordered, 1, k + 1); }
    }
  }

  /** The lowest edit comes last when nothing else starts there. */
  lemma LowestLast(source: string, ordered: seq<TextEdit>)
    requires Layout(source, ordered) && ordered != [] && (|ordered| > 1 ==> ordered[0].start < ordered[1].start)
    ensures Backwards(ordered) == Backwards(ordered[1..]) + [ordered[0]]
  {
    TailAbove(source, ordered);
    InsertLast(ordered[0], Backwards(ordered[1..]), []);
    assert Backwards(ordered[1..]) + [] == Backwards(ordered[1..]);
    assert Backwards(ordered[1..]) + [ordered[0]] + [] == Backwards(ordered[1..]) + [ordered[0]];
  }

  lemma SplicePrefix(source: string, ordered: seq<TextEdit>, from: nat)
    requires Layout(source, ordered) && from <= First(source, ordered)
    ensures Splice(source, ordered, from)
      == source[from..First(source, ordered)] + Splice(source, ordered, First(source, ordered))
    ensures First(source, ordered) <= |source|
  {
    if ordered != [] {
      var s := ordered[0].start;
      assert source[s..s] == [];
      Assoc(source[from..s], ordered[0].replacement, Splice(source, ordered[1..], ordered[0].end));
    }
  }

  /** Apart from ties, one step of applying backwards is one step of the splice. */
  lemma ReplaceLowest(source: string, e: TextEdit, rest: seq<TextEdit>, tail: string)
    requires Layout(source, rest) && e.start <= e.end <= First(source, rest) <= |source|
    ensures Replace(source[..First(source, rest)] + tail, e)
      == source[..e.start] + e.replacement + (source[e.end..First(source, rest)] + tail)
  {
    var u := First(source, rest);
    var text := source[..u] + tail;
    assert text[..e.start] == source[..e.start];
    assert text[e.end..] == source[e.end..u] + tail;
  }

  lemma {:induction false} DistinctSplices(source: string, ordered: seq<TextEdit>)
    requires Layout(source, ordered) && DistinctStarts(ordered)
    ensures ApplyAll(source, Backwards(ordered)) == Splice(source, ordered, 0)
  {
    if ordered == [] {
      assert source[0..] == source;
    } else {
      var e, rest := ordered[0], ordered[1..];
      DistinctTail(ordered);
      assert |ordered| > 1 ==> ordered[0].start != ordered[1].start;
      DistinctSplices(source, rest);
      LowestLast(source, ordered);
      ApplyConcat(source, Backwards(rest), [e]);
      assert [e][1..] == [];
      SplicePrefix(source, rest, 0);
      SplicePrefix(source, rest, e.end);
      ReplaceLowest(source, e, rest, Splice(source, rest, First(source, rest)));
    }
  }

  // ------------------------------------------------------------- edits that start together

  predicate SameSpan(a: TextEdit, b: TextEdit) { a.start == b.start && a.end == b.end }

  predicate SameSpans(a: seq<TextEdit>, b: seq<TextEdit>) {
    if a == [] || b == [] then a == [] && b == [] else SameSpan(a[0], b[0]) && SameSpans(a[1..], b[1..])
  }

  lemma {:induction false} SpansAt(a: seq<TextEdit>, b: seq<TextEdit>)
    requires SameSpans(a, b)
    ensures |a| == |b|
    ensures forall i {:trigger a[i]} {:trigger b[i]} :: 0 <= i < |a| ==> SameSpan(a[i], b[i])
  {
    if a != [] {
      SpansAt(a[1..], b[1..]);
      forall i {:trigger a[i]} | 0 <= i < |a|
        ensures SameSpan(a[i], b[i])
      {
        if i > 0 { assert SameSpan(a[1..][i - 1], b[1..][i - 1]); }
      }
    }
  }

  lemma {:induction false} SpansSelf(a: seq<TextEdit>)
    ensures SameSpans(a, a)
  {
    if a != [] { SpansSelf(a[1..]); }
  }

  lemma {:induction false} SpansLayout(source: string, a: seq<TextEdit>, b: seq<TextEdit>)
    requires SameSpans(a, b) && Layout(source, a)
    ensures Layout(source, b)
  {
    if b != [] {
      SpansLayout(source, a[1..], b[1..]);
      assert |b| > 1 ==> SameSpan(a[1..][0], b[1..][0]);
    }
  }

  lemma SpansDistinct(a: seq<TextEdit>, b: seq<TextEdit>)
    requires SameSpans(a, b) && DistinctStarts(a)
    ensures DistinctStarts(b)
  {
    SpansAt(a, b);
    forall i, k | 0 <= i < k < |b|
      ensures b[i].start != b[k].start
    {
      assert SameSpan(a[i], b[i]) && SameSpan(a[k], b[k]);
    }
  }

  lemma DistinctTail(edits: seq<TextEdit>)
    requires DistinctStarts(edits) && edits != []
    ensures DistinctStarts(edits[1..])
  {
    forall i, k | 0 <= i < k < |edits| - 1
      ensures edits[1..][i].start != edits[1..][k].start
    {
      assert edits[i + 1].start != edits[k + 1].start;
    }
  }

  /** Inserting nothing into an empty range does nothing, wherever it comes in the order. */
  lemma {:induction false} EmptyInsertIdle(text: string, e: TextEdit, s: seq<TextEdit>)
    requires e.start == e.end && e.replacement == ""
    ensures ApplyAll(text, Insert(e, s, Descending)) == ApplyAll(text, s)
    decreases |s|
  {
    assert Replace(text, e) == text by {
      if e.start <= |text| { assert text[..e.start] + "" + text[e.start..] == text; }
    }
    if s != [] && !Descending(e, s[0]) {
      EmptyInsertIdle(Replace(text, s[0]), e, s[1..]);
      var inserted := Insert(e, s, Descending);
      assert inserted[0] == s[0] && inserted[1..] == Insert(e, s[1..], Descending);
    }
  }

  ghost predicate Differs(source: string, ordered: seq<TextEdit>) {
    ApplyAll(source, Backwards(ordered)) != Splice(source, ordered, 0)
  }

  /** The two lowest edits start together and nothing else is tied. */
  ghost predicate Tie(source: string, a: TextEdit, b: TextEdit, rest: seq<TextEdit>) {
    Layout(source, [a, b] + rest) && a.start == b.start && DistinctStarts([b] + rest)
  }

  lemma LayoutCons(source: string, e: TextEdit, rest: seq<TextEdit>)
    requires Layout(source, [e] + rest)
    ensures e.start <= e.end <= |source| && Layout(source, rest) && (rest != [] ==> e.end <= rest[0].start)
  {
    assert ([e] + rest)[1..] == rest;
  }

  lemma StartsCons(e: TextEdit, rest: seq<TextEdit>)
    requires DistinctStarts([e] + rest)
    ensures DistinctStarts(rest) && (rest != [] ==> e.start != rest[0].start)
  {
    assert ([e] + rest)[1..] == rest;
    DistinctTail([e] + rest);
    assert rest != [] ==> ([e] + rest)[0].start != ([e] + rest)[1].start;
  }

  lemma TieFacts(source: string, a: TextEdit, b: TextEdit, rest: seq<TextEdit>)
    requires Tie(source, a, b, rest)
    ensures a.end == a.start == b.start <= b.end <= First(source, rest) <= |source|
    ensures Layout(source, rest) && Layout(source, [b] + rest) && DistinctStarts(rest)
    ensures rest != [] ==> b.start < rest[0].start
  {
    hide Layout, DistinctStarts;
    assert [a, b] + rest == [a] + ([b] + rest);
    StartsCons(b, rest);
    LayoutCons(source, a, [b] + rest);
    LayoutCons(source, b, rest);
    if rest != [] {
      assert rest == [rest[0]] + rest[1..];
      LayoutCons(source, rest[0], rest[1..]);
    }
  }

  lemma BackwardsCons(e: TextEdit, rest: seq<TextEdit>)
    ensures Backwards([e] + rest) == Insert(e, Backwards(rest), Descending)
  {
    assert ([e] + rest)[1..] == rest;
  }

  lemma HighAbove(source: string, b: TextEdit, rest: seq<TextEdit>)
    requires Layout(source, [b] + rest) && (rest != [] ==> b.start < rest[0].start)
    ensures StartsAbove(Backwards(rest), b.start)
  {
    hide Backwards;
    assert ([b] + rest)[1..] == rest;
    TailAbove(source, [b] + rest);
  }

  lemma TieOrder(source: string, a: TextEdit, b: TextEdit, rest: seq<TextEdit>)
    requires Tie(source, a, b, rest)
    ensures Backwards([a, b] + rest) == Backwards(rest) + [a, b]
  {
    hide Tie, Backwards, Insert, Layout, DistinctStarts, StartsAbove, First;
    TieFacts(source, a, b, rest);
    HighAbove(source, b, rest);
    TieInserted(a, b, Backwards(rest));
    BackwardsCons(b, rest);
    BackwardsCons(a, [b] + rest);
    assert [a] + ([b] + rest) == [a, b] + rest;
  }

  lemma TieInserted(a: TextEdit, b: TextEdit, high: seq<TextEdit>)
    requires StartsAbove(high, b.start) && a.start == b.start
    ensures Insert(a, Insert(b, high, Descending), Descending) == high + [a, b]
  {
    hide Insert, StartsAbove;
    InsertLast(b, high, []);
    assert high + [] == high && high + [b] + [] == high + [b];
    InsertLast(a, high, [b]);
    assert high + [a] + [b] == high + [a, b];
  }

  lemma ApplyOne(text: string, a: TextEdit)
    ensures ApplyAll(text, [a]) == Replace(text, a)
  {
    assert [a][1..] == [];
  }

  lemma ApplyTwo(text: string, a: TextEdit, b: TextEdit)
    ensures ApplyAll(text, [a, b]) == Replace(Replace(text, a), b)
  {
    assert [a, b][1..] == [b] && [b][1..] == [];
    assert ApplyAll(Replace(text, a), [b]) == Replace(Replace(text, a), b);
  }

  /** Applied backwards, the tied edits come last and in list order. */
  lemma TieApplied(source: string, a: TextEdit, b: TextEdit, rest: seq<TextEdit>)
    requires Tie(source, a, b, rest)
    ensures First(source, rest) <= |source|
    ensures ApplyAll(source, Backwards([a, b] + rest))
      == Replace(Replace(source[..First(source, rest)] + Splice(source, rest, First(source, rest)), a), b)
  {
    TieFacts(source, a, b, rest);
    hide Tie, Backwards, ApplyAll, Replace, Splice, Layout, DistinctStarts;
    TieOrder(source, a, b, rest);
    ApplyConcat(source, Backwards(rest), [a, b]);
    ApplyTwo(ApplyAll(source, Backwards(rest)), a, b);
    DistinctSplices(source, rest);
    SplicePrefix(source, rest, 0);
    assert source[0..First(source, rest)] == source[..First(source, rest)];
  }

  lemma TieSpliced(source: string, a: TextEdit, b: TextEdit, rest: seq<TextEdit>)
    requires Tie(source, a, b, rest) && a.replacement != ""
    ensures |Splice(source, [a, b] + rest, 0)| > a.start &&
      Splice(source, [a, b] + rest, 0)[a.start] == a.replacement[0]
  {
    TieFacts(source, a, b, rest);
    var ordered := [a, b] + rest;
    assert ordered[1..] == [b] + rest;
    hide First;
    var later := Splice(source, [b] + rest, a.end);
    assert Splice(source, ordered, 0) == source[0..a.start] + a.replacement + later;
  }

  lemma TieResult(source: string, u: nat, a: TextEdit, b: TextEdit, tail: string)
    requires a.end == a.start == b.start <= b.end <= u <= |source| && |a.replacement| == 1
    requires b.end == b.start ==> b.replacement == "y"
    requires b.end > b.start ==> b.replacement == ""
    ensures var result := Replace(Replace(source[..u] + tail, a), b);
      |result| > a.start && result[a.start] == (if b.end == b.start then 'y' else source[b.end - 1])
  {
    var s := a.start;
    var text := source[..u] + tail;
    var after := Replace(text, a);
    assert after == text[..s] + a.replacement + text[s..];
    assert Replace(after, b) == after[..s] + b.replacement + after[b.end..];
    if b.end > b.start {
      assert after[b.end..][0] == after[b.end] == text[b.end - 1];
    }
  }

  /** For two tied edits there are replacement texts that come out wrong: two insertions swap,
    * and an insertion before a replaced range is itself partly replaced. */
  lemma TieDiffers(source: string, a: TextEdit, b: TextEdit, rest: seq<TextEdit>) returns (x: string, y: string)
    requires Tie(source, a, b, rest)
    ensures Differs(source, [a.(replacement := x), b.(replacement := y)] + rest)
  {
    hide Tie, Splice, Backwards, Replace, Layout, DistinctStarts, SameSpans, ApplyAll;
    TieFacts(source, a, b, rest);
    if b.end == b.start {
      x, y := "x", "y";
    } else {
      x, y := [if source[b.end - 1] == 'x' then 'y' else 'x'], "";
    }
    var a', b' := a.(replacement := x), b.(replacement := y);
    TieRelabelled(source, a, b, a', b', rest);
    TieApplied(source, a', b', rest);
    TieSpliced(source, a', b', rest);
    TieResult(source, First(source, rest), a', b', Splice(source, rest, First(source, rest)));
  }

  lemma TieRelabelled(source: string, a: TextEdit, b: TextEdit, a': TextEdit, b': TextEdit, rest: seq<TextEdit>)
    requires Tie(source, a, b, rest) && SameSpan(a, a') && SameSpan(b, b')
    ensures Tie(source, a', b', rest)
  {
    SpansSelf(rest);
    assert ([a, b] + rest)[1..] == [b] + rest && ([a', b'] + rest)[1..] == [b'] + rest;
    assert ([b] + rest)[1..] == rest && ([b'] + rest)[1..] == rest;
    assert SameSpans([b] + rest, [b'] + rest);
    SpansLayout(source, [a, b] + rest, [a', b'] + rest);
    SpansDistinct([b] + rest, [b'] + rest);
  }

  /** Wherever two starts are equal, some replacement texts come out wrong. */
  lemma {:induction false} TiesDiffer(source: string, ordered: seq<TextEdit>) returns (other: seq<TextEdit>)
    requires Layout(source, ordered) && !DistinctStarts(ordered)
    ensures SameSpans(ordered, other) && Differs(source, other)
  {
    hide DistinctStarts, Differs;
    TiesNeedTwo(ordered);
    TiesNeedTwo(ordered[1..]);
    var a, rest := ordered[0], ordered[1..];
    if DistinctStarts(rest) {
      FirstTie(source, ordered);
      var b := ordered[1];
      assert ordered == [a, b] + ordered[2..] && rest == [b] + ordered[2..];
      var x, y := TieDiffers(source, a, b, ordered[2..]);
      other := [a.(replacement := x), b.(replacement := y)] + ordered[2..];
      SpansSelf(ordered[2..]);
      assert other[1..] == [b.(replacement := y)] + ordered[2..] && other[1..][1..] == ordered[2..] &&
        rest[1..] == ordered[2..];
    } else {
      var more := TiesDiffer(source, rest);
      var a' := a.(replacement := "");
      other := [a'] + more;
      assert other[1..] == more;
      SpansAt(rest, more);
      assert more != [];
      SpansLayout(source, ordered, other);
      RemainsDifferent(source, a', more);
    }
  }

  lemma TiesNeedTwo(edits: seq<TextEdit>)
    ensures !DistinctStarts(edits) ==> |edits| >= 2
  {
  }

  lemma FirstTie(source: string, ordered: seq<TextEdit>)
    requires Layout(source, ordered) && ordered != [] && !DistinctStarts(ordered) && DistinctStarts(ordered[1..])
    ensures |ordered| > 1 && ordered[0].start == ordered[1].start
  {
    if forall k :: 0 < k < |ordered| ==> ordered[k].start != ordered[0].start {
      DistinctCons(ordered);
      assert false;
    }
    var k :| 0 < k < |ordered| && ordered[k].start == ordered[0].start;
    AllApart(source, ordered, 0, 1);
    if k > 1 { AllApart(source, ordered, 1, k); }
  }

  lemma DistinctCons(edits: seq<TextEdit>)
    requires edits != [] && DistinctStarts(edits[1..])
    requires forall k :: 0 < k < |edits| ==> edits[k].start != edits[0].start
    ensures DistinctStarts(edits)
  {
    forall i, k | 0 <= i < k < |edits|
      ensures edits[i].start != edits[k].start
    {
      if i > 0 { assert edits[1..][i - 1].start != edits[1..][k - 1].start; }
    }
  }

  /** A lower edit that inserts nothing does not hide the difference. */
  lemma RemainsDifferent(source: string, a: TextEdit, rest: seq<TextEdit>)
    requires Layout(source, [a] + rest) && rest != [] && a.replacement == "" && Differs(source, rest)
    ensures Differs(source, [a] + rest)
  {
    var ordered := [a] + rest;
    assert ordered[1..] == rest;
    if a.start == rest[0].start { RemainsTied(source, a, rest); } else { RemainsBelow(source, a, rest); }
  }

  lemma RemainsTied(source: string, a: TextEdit, rest: seq<TextEdit>)
    requires Layout(source, [a] + rest) && Layout(source, rest) && rest != [] && a.replacement == ""
    requires Differs(source, rest)
    requires a.start == a.end == rest[0].start
    ensures Differs(source, [a] + rest)
  {
    var ordered, u := [a] + rest, a.start;
    assert ordered[1..] == rest && u <= |source| && First(source, rest) == u;
    assert Backwards(ordered) == Insert(a, Backwards(rest), Descending);
    hide Layout, Backwards, Insert, ApplyAll, First;
    EmptyInsertIdle(source, a, Backwards(rest));
    SplicePrefix(source, rest, 0);
    assert source[0..u] + "" == source[0..u];
    assert Splice(source, ordered, 0) == source[0..u] + "" + Splice(source, rest, u);
  }

  lemma RemainsBelow(source: string, a: TextEdit, rest: seq<TextEdit>)
    requires Layout(source, [a] + rest) && Layout(source, rest) && rest != [] && a.replacement == ""
    requires Differs(source, rest)
    requires a.start <= a.end <= rest[0].start && a.start < rest[0].start
    ensures Differs(source, [a] + rest)
  {
    hide Backwards, Splice, Insert, ApplyAll;
    var ordered, u, right := [a] + rest, rest[0].start, Splice(source, rest, rest[0].start);
    assert ordered[1..] == rest;
    LowestLast(source, ordered);
    ApplyConcat(source, Backwards(rest), [a]);
    ApplyOne(ApplyAll(source, Backwards(rest)), a);
    StartsFrom(source, rest);
    PrefixKept(source, Backwards(rest), u);
    var got := ApplyAll(source, Backwards(rest));
    var tail := got[u..];
    SplicePrefix(source, rest, 0);
    SplicePrefix(source, rest, a.end);
    assert got == source[..u] + tail && source[0..u] == source[..u];
    ReplaceLowest(source, a, rest, tail);
    SpliceStep(source, a, rest);
    CommonPrefix(source[..a.start] + "", source[a.end..u], tail, right);
  }

  lemma SpliceStep(source: string, a: TextEdit, rest: seq<TextEdit>)
    requires a.start <= a.end <= |source|
    ensures Splice(source, [a] + rest, 0) == source[..a.start] + a.replacement + Splice(source, rest, a.end)
  {
    assert ([a] + rest)[1..] == rest && source[0..a.start] == source[..a.start];
  }

  lemma StartsFrom(source: string, rest: seq<TextEdit>)
    requires Layout(source, rest) && rest != []
    ensures forall e :: e in Backwards(rest) ==> rest[0].start <= e.start
  {
    SameMembers(rest, Descending);
    forall e | e in rest
      ensures rest[0].start <= e.start
    {
      var k :| 0 <= k < |rest| && rest[k] == e;
      if k > 0 { AllApart(source, rest, 0, k); }
    }
  }

  lemma CommonPrefix(p: string, q: string, a: string, b: string)
    requires a != b
    ensures p + (q + a) != p + (q + b)
  {
    var left, right := p + (q + a), p + (q + b);
    assert left[|p| + |q|..] == a;
    assert right[|p| + |q|..] == b;
  }

  /** Edits that all start at `u` or later leave the text before it alone. */
  lemma {:induction false} PrefixKept(text: string, edits: seq<TextEdit>, u: nat)
    requires u <= |text| && forall e :: e in edits ==> u <= e.start
    ensures |ApplyAll(text, edits)| >= u && ApplyAll(text, edits)[..u] == text[..u]
    decreases |edits|
  {
    if edits != [] {
      assert edits[0] in edits;
      assert Replace(text, edits[0])[..u] == text[..u];
      PrefixKept(Replace(text, edits[0]), edits[1..], u);
    }
  }

  // ------------------------------------------------------------- any list, sorted or not

  /** Any texts for the sorted list come from texts for the list as it was given. */
  lemma {:induction false} Relabel(edits: seq<TextEdit>, target: seq<TextEdit>) returns (other: seq<TextEdit>)
    requires SameSpans(Ordered(edits), target)
    ensures SameSpans(edits, other) && Ordered(other) == target
  {
    if edits == [] {
      other := [];
    } else {
      var p, rest := Uninsert(edits[0], Ordered(edits[1..]), target);
      var more := Relabel(edits[1..], rest);
      other := [p] + more;
      assert other[1..] == more;
    }
  }

  lemma UninsertFirst(e: TextEdit, s: seq<TextEdit>, target: seq<TextEdit>)
    requires SameSpans(Insert(e, s, Ascending), target) && (s == [] || Ascending(e, s[0]))
    ensures target != [] && SameSpan(e, target[0]) && SameSpans(s, target[1..])
    ensures Insert(target[0], target[1..], Ascending) == target
  {
    assert Insert(e, s, Ascending) == [e] + s && ([e] + s)[1..] == s;
    assert s != [] ==> SameSpan(s[0], target[1]);
    assert target == [target[0]] + target[1..];
  }

  lemma UninsertRest(e: TextEdit, s: seq<TextEdit>, target: seq<TextEdit>)
    requires SameSpans(Insert(e, s, Ascending), target) && s != [] && !Ascending(e, s[0])
    ensures target != [] && SameSpan(s[0], target[0]) && SameSpans(Insert(e, s[1..], Ascending), target[1..])
  {
    assert Insert(e, s, Ascending)[0] == s[0] && Insert(e, s, Ascending)[1..] == Insert(e, s[1..], Ascending);
  }

  lemma {:induction false} Uninsert(e: TextEdit, s: seq<TextEdit>, target: seq<TextEdit>)
    returns (p: TextEdit, rest: seq<TextEdit>)
    requires SameSpans(Insert(e, s, Ascending), target)
    ensures SameSpan(e, p) && SameSpans(s, rest) && Insert(p, rest, Ascending) == target
  {
    hide Insert, SameSpans;
    if s == [] || Ascending(e, s[0]) {
      UninsertFirst(e, s, target);
      p, rest := target[0], target[1..];
    } else {
      UninsertRest(e, s, target);
      var more;
      p, more := Uninsert(e, s[1..], target[1..]);
      rest := [target[0]] + more;
      InsertBehind(p, target[0], more);
      assert [target[0]] + target[1..] == target;
      SpansCons(s, target[0], more);
    }
  }

  lemma InsertBehind(p: TextEdit, first: TextEdit, more: seq<TextEdit>)
    requires !Ascending(p, first)
    ensures Insert(p, [first] + more, Ascending) == [first] + Insert(p, more, Ascending)
  {
    assert ([first] + more)[1..] == more;
  }

  lemma SpansCons(s: seq<TextEdit>, first: TextEdit, more: seq<TextEdit>)
    requires s != [] && SameSpan(s[0], first) && SameSpans(s[1..], more)
    ensures SameSpans(s, [first] + more)
  {
    assert ([first] + more)[1..] == more;
  }

  lemma {:induction false} SpansSorted(a: seq<TextEdit>, b: seq<TextEdit>)
    requires SameSpans(a, b)
    ensures SameSpans(Ordered(a), Ordered(b))
  {
    if a != [] {
      SpansSorted(a[1..], b[1..]);
      SpansInserted(a[0], b[0], Ordered(a[1..]), Ordered(b[1..]));
    }
  }

  lemma {:induction false} SpansInserted(x: TextEdit, y: TextEdit, a: seq<TextEdit>, b: seq<TextEdit>)
    requires SameSpan(x, y) && SameSpans(a, b)
    ensures SameSpans(Insert(x, a, Ascending), Insert(y, b, Ascending))
  {
    var p, q := Insert(x, a, Ascending), Insert(y, b, Ascending);
    if a == [] || Ascending(x, a[0]) {
      assert p[1..] == a && q[1..] == b;
    } else {
      SpansInserted(x, y, a[1..], b[1..]);
      assert p[1..] == Insert(x, a[1..], Ascending) && q[1..] == Insert(y, b[1..], Ascending);
    }
  }

  lemma StartsSorted(edits: seq<TextEdit>)
    ensures DistinctStarts(edits) <==> DistinctStarts(Ordered(edits))
  {
    StartsOf(edits);
    StartsOf(Ordered(edits));
    StartCounts(edits);
  }

  function Starts(edits: seq<TextEdit>): multiset<nat> {
    if edits == [] then multiset{} else multiset{edits[0].start} + Starts(edits[1..])
  }

  lemma {:induction false} StartsOf(edits: seq<TextEdit>)
    ensures DistinctStarts(edits) <==> forall s :: Starts(edits)[s] <= 1
    ensures forall s :: s in Starts(edits) <==> exists i :: 0 <= i < |edits| && edits[i].start == s
  {
    if edits != [] {
      var rest := edits[1..];
      StartsOf(rest);
      assert forall i :: 0 <= i < |rest| ==> rest[i] == edits[i + 1];
      assert forall s :: Starts(edits)[s] == Starts(rest)[s] + if s == edits[0].start then 1 else 0;
      if DistinctStarts(edits) {
        assert DistinctStarts(rest);
        assert edits[0].start !in Starts(rest);
      }
      if forall s :: Starts(edits)[s] <= 1 {
        assert Starts(edits)[edits[0].start] <= 1;
        forall s ensures Starts(rest)[s] <= 1 { assert Starts(edits)[s] <= 1; }
        forall i, k | 0 <= i < k < |edits|
          ensures edits[i].start != edits[k].start
        {
          if i == 0 {
            assert rest[k - 1].start in Starts(rest);
          } else {
            assert rest[i - 1].start != rest[k - 1].start;
          }
        }
      }
    }
  }

  lemma {:induction false} StartCounts(edits: seq<TextEdit>)
    ensures Starts(Ordered(edits)) == Starts(edits)
  {
    if edits != [] {
      StartCounts(edits[1..]);
      InsertStarts(edits[0], Ordered(edits[1..]));
    }
  }

  lemma {:induction false} InsertStarts(e: TextEdit, s: seq<TextEdit>)
    ensures Starts(Insert(e, s, Ascending)) == multiset{e.start} + Starts(s)
  {
    if s != [] && !Ascending(e, s[0]) { InsertStarts(e, s[1..]); }
  }

  /** For edits that pass the check: applying them back to front means what they say, for
    * every choice of replacement texts, exactly when no two of them start together. */
  lemma AppliedMeansSpliced(source: string, edits: seq<TextEdit>)
    requires Inside(source, edits) && Neighbourly(Ordered(edits))
    ensures DistinctStarts(edits) <==>
      forall other {:trigger SameSpans(edits, other)} :: SameSpans(edits, other) ==>
        ApplyAll(source, Backwards(other)) == Splice(source, Ordered(other), 0)
  {
    InsideOrdered(source, edits);
    CheckedLayout(source, Ordered(edits));
    hide Layout, Backwards, Ordered, DistinctStarts, Splice, ApplyAll, SameSpans, Neighbourly, Inside;
    if DistinctStarts(edits) {
      forall other: seq<TextEdit> {:trigger SameSpans(edits, other)} | SameSpans(edits, other)
        ensures ApplyAll(source, Backwards(other)) == Splice(source, Ordered(other), 0)
      {
        DistinctMeansSpliced(source, edits, other);
      }
    } else {
      var other := TiedMeansWrong(source, edits);
      assert SameSpans(edits, other);
    }
  }

  lemma TiedMeansWrong(source: string, edits: seq<TextEdit>) returns (other: seq<TextEdit>)
    requires Layout(source, Ordered(edits)) && !DistinctStarts(edits)
    ensures SameSpans(edits, other) && ApplyAll(source, Backwards(other)) != Splice(source, Ordered(other), 0)
  {
    hide Layout, Backwards, Ordered, DistinctStarts, Splice, ApplyAll, SameSpans;
    StartsSorted(edits);
    var target := TiesDiffer(source, Ordered(edits));
    other := Relabel(edits, target);
    BackwardsOfOrdered(other);
  }

  lemma DistinctMeansSpliced(source: string, edits: seq<TextEdit>, other: seq<TextEdit>)
    requires Layout(source, Ordered(edits)) && DistinctStarts(edits) && SameSpans(edits, other)
    ensures ApplyAll(source, Backwards(other)) == Splice(source, Ordered(other), 0)
  {
    hide Layout, Backwards, Ordered, DistinctStarts;
    SpansSorted(edits, other);
    SpansLayout(source, Ordered(edits), Ordered(other));
    SpansDistinct(edits, other);
    StartsSorted(other);
    DistinctSplices(source, Ordered(other));
    BackwardsOfOrdered(other);
  }

  /** Two insertions at one place pass the check, and come out in the wrong order. */
  lemma TwoInsertions()
    ensures var edits := [TextEdit(0, 0, "x"), TextEdit(0, 0, "y")];
      && Inside("", edits) && Neighbourly(Ordered(edits))
      && ApplyAll("", Backwards(edits)) == "yx" && Splice("", Ordered(edits), 0) == "xy"
  {
    var x, y := TextEdit(0, 0, "x"), TextEdit(0, 0, "y");
    PairKept(x, y);
    hide Ordered, Backwards;
    ApplyTwo("", x, y);
    hide ApplyAll;
    assert Replace("", x) == "x" && Replace("x", y) == "yx";
    SpliceTwo(x, y);
  }

  lemma PairKept(x: TextEdit, y: TextEdit)
    requires x.start == y.start
    ensures Ordered([x, y]) == [x, y] && Backwards([x, y]) == [x, y]
  {
    assert [x, y][1..] == [y] && [y][1..] == [];
    assert Ordered([y]) == [y] && Backwards([y]) == [y];
  }

  lemma SpliceTwo(x: TextEdit, y: TextEdit)
    requires x.start == x.end == 0 && y.start == y.end == 0
    ensures Splice("", [x, y], 0) == x.replacement + y.replacement
  {
    assert [x, y][1..] == [y] && [y][1..] == [];
    assert Splice("", [], 0) == "" && Splice("", [y], 0) == y.replacement;
  }

  lemma InsideOrdered(source: string, edits: seq<TextEdit>)
    requires Inside(source, edits)
    ensures Inside(source, Ordered(edits))
  {
    var ordered := Ordered(edits);
    SameMembers(edits, Ascending);
    forall i {:trigger ordered[i]} | 0 <= i < |ordered|
      ensures ordered[i].start <= ordered[i].end <= |source|
    {
      assert ordered[i] in edits;
      var k :| 0 <= k < |edits| && edits[k] == ordered[i];
    }
  }
}
