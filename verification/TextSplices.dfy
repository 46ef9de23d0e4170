/** Where a splice has the replacements and where it has the rest of the source. */
module TextSplices {
  import opened TextEdits

  /** How much further right the text behind the first `i` edits stands than in the source. */
  function Shift(ordered: seq<TextEdit>, i: nat): int
    requires i <= |ordered|
  {
    if i == 0 then 0
    else Shift(ordered, i - 1) + |ordered[i - 1].replacement| - (ordered[i - 1].end - ordered[i - 1].start)
  }

  /** The stretch of source between the `i`-th edit and the one before it. */
  function GapStart(ordered: seq<TextEdit>, i: nat, from: nat): nat
    requires i <= |ordered|
  {
    if i == 0 then from else ordered[i - 1].end
  }

  function GapEnd(source: string, ordered: seq<TextEdit>, i: nat): nat
    requires i <= |ordered|
  {
    if i == |ordered| then |source| else ordered[i].start
  }

  lemma {:induction false} ShiftCons(ordered: seq<TextEdit>, i: nat)
    requires 0 < i <= |ordered|
    ensures Shift(ordered, i)
         == Shift(ordered[1..], i - 1) + |ordered[0].replacement| - (ordered[0].end - ordered[0].start)
  {
    if i > 1 { ShiftCons(ordered, i - 1); }
  }

  /** `text` has `part` at this place. */
  predicate HasAt(text: string, place: int, part: string) {
    0 <= place && place + |part| <= |text| && text[place..place + |part|] == part
  }

  lemma HasBehind(a: string, b: string, place: int, part: string)
    requires HasAt(b, place, part)
    ensures HasAt(a + b, |a| + place, part)
  {
    assert (a + b)[|a| + place..|a| + place + |part|] == b[place..place + |part|];
  }

  lemma HasFront(a: string, b: string, c: string)
    ensures HasAt(a + b + c, 0, a) && HasAt(a + b + c, |a|, b)
  {
  }

  /** From `from` on, the text has the `i`-th stretch of source and the `i`-th replacement in their
    * places, and it has the right length. */
  ghost predicate Holds(source: string, ordered: seq<TextEdit>, from: nat, i: nat, text: string)
    requires i <= |ordered|
  {
    var start, end, shift := GapStart(ordered, i, from), GapEnd(source, ordered, i), Shift(ordered, i) - from;
    && |text| == |source| - from + Shift(ordered, |ordered|)
    && start <= end <= |source| && HasAt(text, start + shift, source[start..end])
    && (i < |ordered| ==> HasAt(text, ordered[i].start + shift, ordered[i].replacement))
  }

  lemma ShiftNone(ordered: seq<TextEdit>)
    ensures Shift(ordered, 0) == 0
  {
  }

  lemma HasWhole(text: string, part: string)
    requires text == part
    ensures HasAt(text, 0, part)
  {
    assert text[0..|text|] == text;
  }

  lemma NoneHolds(source: string, from: nat)
    requires from <= |source|
    ensures Holds(source, [], from, 0, source[from..])
  {
    hide Shift, HasAt;
    ShiftNone([]);
    HasWhole(source[from..], source[from..|source|]);
  }

  lemma FirstHolds(source: string, e: TextEdit, rest: seq<TextEdit>, from: nat, tail: string)
    requires from <= e.start <= e.end <= |source| && |tail| == |source| - e.end + Shift(rest, |rest|)
    ensures Holds(source, [e] + rest, from, 0, source[from..e.start] + e.replacement + tail)
  {
    hide HasAt, Shift;
    var ordered := [e] + rest;
    assert ordered[1..] == rest;
    ShiftCons(ordered, |ordered|);
    ShiftNone(ordered);
    HasFront(source[from..e.start], e.replacement, tail);
  }

  lemma LaterHolds(source: string, e: TextEdit, rest: seq<TextEdit>, from: nat, i: nat, tail: string)
    requires from <= e.start <= e.end <= |source| && i <= |rest| && Holds(source, rest, e.end, i, tail)
    ensures Holds(source, [e] + rest, from, i + 1, source[from..e.start] + e.replacement + tail)
  {
    hide HasAt, Shift;
    var ordered, front := [e] + rest, source[from..e.start] + e.replacement;
    assert ordered[1..] == rest;
    ShiftCons(ordered, |ordered|);
    ShiftCons(ordered, i + 1);
    var start, end, shift := GapStart(rest, i, e.end), GapEnd(source, rest, i), Shift(rest, i) - e.end;
    assert GapStart(ordered, i + 1, from) == start && GapEnd(source, ordered, i + 1) == end;
    HasBehind(front, tail, start + shift, source[start..end]);
    if i < |rest| { HasBehind(front, tail, rest[i].start + shift, rest[i].replacement); }
  }

  lemma {:induction false} SpliceFrom(source: string, ordered: seq<TextEdit>, from: nat, i: nat)
    requires Layout(source, ordered) && i <= |ordered|
    requires from <= |source| && (ordered != [] ==> from <= ordered[0].start)
    ensures Holds(source, ordered, from, i, Splice(source, ordered, from))
    decreases |ordered|
  {
    if ordered == [] {
      NoneHolds(source, from);
    } else {
      var e, rest := ordered[0], ordered[1..];
      assert rest != [] ==> e.end <= rest[0].start;
      assert Splice(source, ordered, from)
          == source[from..e.start] + e.replacement + Splice(source, rest, e.end);
      SpliceFrom(source, rest, e.end, if i == 0 then 0 else i - 1);
      assert ordered == [e] + rest && |Splice(source, rest, e.end)| == |source| - e.end + Shift(rest, |rest|);
      hide Splice, Layout, Holds, Shift;
      if i == 0 {
        FirstHolds(source, e, rest, from, Splice(source, rest, e.end));
      } else {
        LaterHolds(source, e, rest, from, i - 1, Splice(source, rest, e.end));
      }
    }
  }

  /** The splice holds every replacement in the place of its range, and between two of them, before
    * the first and behind the last exactly what the source has there; and it holds no more. */
  lemma SpliceHolds(source: string, ordered: seq<TextEdit>, i: nat)
    requires Layout(source, ordered) && i <= |ordered|
    ensures Holds(source, ordered, 0, i, Splice(source, ordered, 0))
  {
    SpliceFrom(source, ordered, 0, i);
  }
}
