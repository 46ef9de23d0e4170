/** Cutting long model input to its tail without splitting a character or a line end, and
  * splitting evidence text into bounded fragments. Text is UTF-16 code units. */
module AiInput {
  import opened Chunking
  import opened Options

  type Unit = u: nat | u < 0x10000

  type Text = seq<Unit>

  const MAXIMUM_CHARACTERS := 50000

  const TAIL_CHARACTERS := 25000

  const LF: Unit := 10

  const CR: Unit := 13

  predicate High(u: Unit) { 0xD800 <= u <= 0xDBFF }

  predicate Low(u: Unit) { 0xDC00 <= u <= 0xDFFF }

  predicate Break(u: Unit) { u == LF || u == CR }

  // ------------------------------------------------------------- code points

  /** Forward iteration, as the language's string iterator does it. */
  function Next(s: Text, i: nat): (n: nat)
    requires i < |s|
    ensures i < n <= |s|
  {
    if High(s[i]) && i + 1 < |s| && Low(s[i + 1]) then i + 2 else i + 1
  }

  function Count(s: Text, i: nat): nat
    requires i <= |s|
    decreases |s| - i
  {
    if i == |s| then 0 else 1 + Count(s, Next(s, i))
  }

  /** Not between the two halves of a surrogate pair. */
  predicate Whole(s: Text, i: nat) { 0 < i < |s| ==> !(High(s[i - 1]) && Low(s[i])) }

  /** Backward iteration, as the tail is measured. */
  function Previous(s: Text, i: nat): (p: nat)
    requires 0 < i <= |s|
    ensures p < i
  {
    if Low(s[i - 1]) && i - 1 > 0 && High(s[i - 2]) then i - 2 else i - 1
  }

  function Back(s: Text, i: nat, k: nat): (b: nat)
    requires i <= |s|
    ensures b <= i
  {
    if k == 0 || i == 0 then i else Back(s, Previous(s, i), k - 1)
  }

  /** One step back from a character boundary undoes one step forward. */
  lemma StepBack(s: Text, i: nat)
    requires 0 < i <= |s| && Whole(s, i)
    ensures Whole(s, Previous(s, i)) && Next(s, Previous(s, i)) == i
    ensures Count(s, Previous(s, i)) == 1 + Count(s, i)
  {
  }

  lemma {:induction false} CountFront(s: Text, i: nat, k: nat)
    requires i <= |s| && Whole(s, i)
    ensures var b := Back(s, i, k); Whole(s, b) && (b > 0 ==> Count(s, b) == Count(s, i) + k)
    ensures Count(s, Back(s, i, k)) <= Count(s, i) + k
    decreases k
  {
    if k > 0 && i > 0 {
      StepBack(s, i);
      CountFront(s, Previous(s, i), k - 1);
    }
  }

  /** Counting backward and counting forward agree: `k` steps back from the end leave a
    * tail of exactly `k` code points, if the text has as many. */
  lemma BackwardIsForward(s: Text, k: nat)
    requires k <= Count(s, 0)
    ensures Whole(s, Back(s, |s|, k)) && Count(s, Back(s, |s|, k)) == k
  {
    CountFront(s, |s|, k);
    if Back(s, |s|, k) == 0 { AtMost(s, |s|, k); }
  }

  lemma {:induction false} AtMost(s: Text, i: nat, k: nat)
    requires i <= |s| && Whole(s, i) && Back(s, i, k) == 0
    ensures Count(s, 0) <= Count(s, i) + k
    decreases k
  {
    if k > 0 && i > 0 {
      StepBack(s, i);
      AtMost(s, Previous(s, i), k - 1);
    }
  }

  lemma {:induction false} CountUnits(s: Text, i: nat)
    requires i <= |s|
    ensures Count(s, i) <= |s| - i
    decreases |s| - i
  {
    if i < |s| { CountUnits(s, Next(s, i)); }
  }

  lemma {:induction false} CountSplit(s: Text, i: nat, k: nat)
    requires i <= k <= |s| && Whole(s, i) && Whole(s, k)
    ensures Count(s, i) >= Count(s, k)
    decreases k - i
  {
    if i < k {
      assert Next(s, i) <= k;
      assert Whole(s, Next(s, i));
      CountSplit(s, Next(s, i), k);
    }
  }

  /** Cut at a character boundary, a suffix has the code points it had inside the text. */
  lemma {:induction false} CountSlice(s: Text, from: nat, i: nat)
    requires from <= i <= |s|
    ensures Count(s[from..], i - from) == Count(s, i)
    decreases |s| - i
  {
    if i < |s| {
      assert Next(s[from..], i - from) == Next(s, i) - from;
      CountSlice(s, from, Next(s, i));
    }
  }

  // ------------------------------------------------------------- the tail

  /** A cut between the two units of a CRLF belongs to the line it ends. */
  function Cut(s: Text, start: nat): (cut: nat)
    requires start <= |s|
    ensures cut <= start
  {
    if 0 < start < |s| && s[start] == LF && s[start - 1] == CR then start - 1 else start
  }

  /** Just behind the last line break before `i`. */
  function LineStart(s: Text, i: nat): nat
    requires i <= |s|
  {
    if i == 0 || Break(s[i - 1]) then i else LineStart(s, i - 1)
  }

  lemma {:induction false} LineStartIs(s: Text, i: nat)
    requires i <= |s|
    ensures var l := LineStart(s, i); l <= i && (l > 0 ==> Break(s[l - 1])) && forall k :: l <= k < i ==> !Break(s[k])
  {
    if i > 0 && !Break(s[i - 1]) { LineStartIs(s, i - 1); }
  }

  function TailStart(s: Text): nat {
    LineStart(s, Cut(s, Back(s, |s|, TAIL_CHARACTERS)))
  }

  /** A text that is too long keeps its last 25000 code points and what is before them on
    * the same line, and nothing else: it starts at a line start, not inside a CRLF and not
    * inside a surrogate pair. */
  lemma TailKeeps(s: Text)
    requires Count(s, 0) > 50000
    ensures var start, l := Back(s, |s|, 25000), TailStart(s);
      && l <= Cut(s, start) <= start <= |s|
      && Count(s, start) == 25000
      && (l > 0 ==> Break(s[l - 1])) && (forall k :: l <= k < Cut(s, start) ==> !Break(s[k]))
      && !(0 < l < |s| && s[l - 1] == CR && s[l] == LF)
      && Whole(s, l)
      && Count(s[l..], 0) >= 25000
  {
    hide Back, Cut, LineStart, Count;
    BackwardIsForward(s, TAIL_CHARACTERS);
    WidenToLine(s, Back(s, |s|, TAIL_CHARACTERS));
  }

  /** Widening a cut at a character boundary to the whole line. */
  lemma WidenToLine(s: Text, start: nat)
    requires start <= |s| && Whole(s, start)
    ensures var l := LineStart(s, Cut(s, start));
      && l <= Cut(s, start) <= start
      && (l > 0 ==> Break(s[l - 1])) && (forall k :: l <= k < Cut(s, start) ==> !Break(s[k]))
      && !(0 < l < |s| && s[l - 1] == CR && s[l] == LF)
      && Whole(s, l) && Count(s[l..], 0) >= Count(s, start)
  {
    hide Count;
    var l := LineStart(s, Cut(s, start));
    LineStartIs(s, Cut(s, start));
    CountSplit(s, l, start);
    CountSlice(s, l, l);
  }

  // ------------------------------------------------------------- shortening

  method LongerThan(text: Text, maximum: nat) returns (longer: bool)
    ensures longer <==> Count(text, 0) > maximum
  {
    var count: nat, i: nat := 0, 0;
    while count <= maximum
      invariant count <= maximum + 1 && i <= |text| && Count(text, 0) == count + Count(text, i)
    {
      if i == |text| { return false; }
      i := Next(text, i);
      count := count + 1;
    }
    longer := true;
  }

  method FindLineStart(text: Text, cut: nat) returns (lineStart: nat)
    requires cut <= |text|
    ensures lineStart == LineStart(text, cut)
  {
    lineStart := cut;
    while lineStart > 0 && !Break(text[lineStart - 1])
      invariant lineStart <= cut && LineStart(text, cut) == LineStart(text, lineStart)
    {
      lineStart := lineStart - 1;
    }
  }

  method StepsBack(text: Text, tail: nat) returns (start: nat)
    requires tail <= Count(text, 0)
    ensures start == Back(text, |text|, tail)
  {
    start := |text|;
    var kept := 0;
    while kept < tail
      invariant kept <= tail && start <= |text| && Back(text, |text|, tail) == Back(text, start, tail - kept)
      invariant Whole(text, start) && Count(text, start) == kept
    {
      StepBack(text, start);
      start := start - 1;
      if Low(text[start]) && start > 0 && High(text[start - 1]) { start := start - 1; }
      kept := kept + 1;
    }
  }

  /** A text is shortened only beyond 50000 code points, and `shortened` says whether anything is gone. */
  method ShortenAiInput(text: Text) returns (result: Text, shortened: bool)
    ensures Count(text, 0) <= 50000 ==> result == text && !shortened
    ensures Count(text, 0) > 50000 ==>
      TailStart(text) <= |text| && result == text[TailStart(text)..] && Count(result, 0) >= 25000
    ensures shortened <==> result != text
  {
    hide Back, LineStart, Count;
    CountUnits(text, 0);
    if |text| <= MAXIMUM_CHARACTERS { return text, false; }
    var longer := LongerThan(text, MAXIMUM_CHARACTERS);
    if !longer { return text, false; }
    TailKeeps(text);
    var start := StepsBack(text, TAIL_CHARACTERS);
    if 0 < start < |text| && text[start] == LF && text[start - 1] == CR { start := start - 1; }
    var lineStart := FindLineStart(text, start);
    result, shortened := text[lineStart..], lineStart > 0;
  }

  // ------------------------------------------------------------- fragments

  function FragmentEnd(s: Text, offset: nat, maximum: nat): nat
    requires offset < |s|
  {
    var end := if offset + maximum < |s| then offset + maximum else |s|;
    if 0 < end < |s| && High(s[end - 1]) && Low(s[end]) then end - 1 else end
  }

  /** A fragment makes progress exactly when the bound leaves room for the next character:
    * always for two units or more, and for one unit unless a surrogate pair comes next. */
  lemma FragmentAdvances(s: Text, offset: nat, maximum: nat)
    requires offset < |s| && maximum > 0
    ensures FragmentEnd(s, offset, maximum) > offset <==> maximum >= 2 || Next(s, offset) == offset + 1
  {
  }

  function Fragments(s: Text, offset: nat, maximum: nat): seq<Text>
    requires offset <= |s| && maximum >= 2
    decreases |s| - offset
  {
    if offset == |s| then []
    else [s[offset..FragmentEnd(s, offset, maximum)]] + Fragments(s, FragmentEnd(s, offset, maximum), maximum)
  }

  predicate StartsWithPair(t: Text) { |t| >= 2 && High(t[0]) && Low(t[1]) }

  /** The fragments put together are the text. Each fits the bound and, unless it is the last, is
    * short of it by one unit only where a surrogate pair follows, and never by more. They hold
    * whole characters only: their counts add up. */
  lemma {:induction false} FragmentsHold(s: Text, offset: nat, maximum: nat)
    requires offset <= |s| && Whole(s, offset) && maximum >= 2
    ensures Flatten(Fragments(s, offset, maximum)) == s[offset..]
    ensures forall k :: 0 <= k < |Fragments(s, offset, maximum)| ==>
      && 0 < |Fragments(s, offset, maximum)[k]| <= maximum
      && (k + 1 < |Fragments(s, offset, maximum)| ==> maximum - 1 <= |Fragments(s, offset, maximum)[k]|)
      && (k + 1 < |Fragments(s, offset, maximum)| && |Fragments(s, offset, maximum)[k]| < maximum ==>
            StartsWithPair(Fragments(s, offset, maximum)[k + 1]))
    ensures CountAll(Fragments(s, offset, maximum)) == Count(s, offset)
    decreases |s| - offset
  {
    if offset < |s| {
      var end := FragmentEnd(s, offset, maximum);
      var rest := Fragments(s, end, maximum);
      FragmentsHold(s, end, maximum);
      var all := Fragments(s, offset, maximum);
      assert all[0] == s[offset..end] && all[1..] == rest;
      assert s[offset..] == s[offset..end] + s[end..];
      CountPiece(s, offset, offset, end);
      if rest != [] { LastFragment(s, offset, end, maximum); }
      hide Count, Flatten, CountAll, FragmentEnd, StartsWithPair;
    } else {
      assert s[offset..] == [];
    }
  }

  lemma LastFragment(s: Text, offset: nat, end: nat, maximum: nat)
    requires offset < |s| && maximum >= 2 && end == FragmentEnd(s, offset, maximum) && Fragments(s, end, maximum) != []
    ensures end - offset >= maximum - 1
    ensures end - offset < maximum ==> StartsWithPair(Fragments(s, end, maximum)[0])
  {
  }

  function CountAll(parts: seq<Text>): nat {
    if parts == [] then 0 else Count(parts[0], 0) + CountAll(parts[1..])
  }

  lemma {:induction false} CountPiece(s: Text, from: nat, i: nat, end: nat)
    requires from <= i <= end <= |s| && Whole(s, i) && Whole(s, end)
    ensures Count(s, i) == Count(s[from..end], i - from) + Count(s, end)
    decreases end - i
  {
    if i < end {
      assert Next(s, i) <= end && Whole(s, Next(s, i));
      assert Next(s[from..end], i - from) == Next(s, i) - from;
      CountPiece(s, from, Next(s, i), end);
    }
  }

  method EvidenceTextParts(text: Text, maximum: nat) returns (parts: seq<Text>)
    requires maximum >= 2
    ensures parts == Fragments(text, 0, maximum)
  {
    parts := [];
    var offset: nat := 0;
    while offset < |text|
      invariant offset <= |text| && Fragments(text, 0, maximum) == parts + Fragments(text, offset, maximum)
      decreases |text| - offset
    {
      var end: nat := if offset + maximum < |text| then offset + maximum else |text|;
      if end < |text| && High(text[end - 1]) && Low(text[end]) { end := end - 1; }
      Assoc(parts, [text[offset..end]], Fragments(text, end, maximum));
      parts := parts + [text[offset..end]];
      offset := end;
    }
  }
}
