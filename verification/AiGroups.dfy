/** How the analysis of a failure group moves through evidence parts and members, one model
  * call at a time. */
module AiGroups {
  import opened Options

  /** Either every member's own log is read part by part, or the stack parts of the group
    * are read once while the members are listed in pages. */
  datatype Plan = Plan(full: bool, members: nat, parts: nat -> nat)

  /** Whether a request with this owner's part and these members stays within the context. The
    * estimate also depends on what earlier calls concluded, so every call has its own. */
  type Estimate = (nat, Option<nat>, seq<nat>) -> bool

  datatype Read = Read(owner: nat, part: nat)

  /** The persisted cursors, and what has been handed to the model so far: members passed,
    * parts read, and members counted without having been passed. */
  datatype Group = Group(cursor: nat, partCursor: nat, processed: nat, done: bool,
                         delivered: seq<nat>, read: seq<Read>, dropped: nat)

  const FRESH := Group(0, 0, 0, false, [], [], 0)

  const PAGE := 50

  function Range(a: nat, b: nat): seq<nat>
    decreases b
  {
    if a >= b then [] else Range(a, b - 1) + [b - 1]
  }

  function Smaller(a: nat, b: nat): nat { if a < b then a else b }

  function Candidates(plan: Plan, g: Group): seq<nat> {
    Range(g.cursor, Smaller(plan.members, g.cursor + if plan.full then 1 else PAGE))
  }

  function Owner(plan: Plan, g: Group): nat { if plan.full then g.cursor else 0 }

  function PartAt(plan: Plan, g: Group): Option<nat> {
    if g.partCursor < plan.parts(Owner(plan, g)) then Some(g.partCursor) else None
  }

  /** How many members can be added one by one before the request no longer fits. */
  function Fitting(cs: seq<nat>, fits: seq<nat> -> bool, k: nat): (n: nat)
    requires k <= |cs|
    ensures k <= n <= |cs|
    ensures forall j :: k < j <= n ==> fits(cs[..j])
    ensures n < |cs| ==> !fits(cs[..n + 1])
    decreases |cs| - k
  {
    if k < |cs| && fits(cs[..k + 1]) then Fitting(cs, fits, k + 1) else k
  }

  function Taken(plan: Plan, g: Group, fits: Estimate): seq<nat> {
    var cs, part := Candidates(plan, g), PartAt(plan, g);
    cs[..Fitting(cs, ms => fits(Owner(plan, g), part, ms), 0)]
  }

  /** One successful model call; nothing when the request cannot be made. */
  function Step(plan: Plan, g: Group, fits: Estimate): Option<Group> {
    var part, members := PartAt(plan, g), Taken(plan, g, fits);
    if plan.full && g.cursor >= plan.members then None
    else if (part.None? && members == []) || !fits(Owner(plan, g), part, members) then None
    else Some(Advance(plan, g, members))
  }

  function Advance(plan: Plan, g: Group, members: seq<nat>): Group {
    var owner, part := Owner(plan, g), PartAt(plan, g);
    var nextPart := g.partCursor + if part.Some? then 1 else 0;
    var complete := nextPart >= plan.parts(owner);
    var processed := g.processed + if plan.full then (if complete then 1 else 0) else |members|;
    var moves := !plan.full || complete;
    Group(if moves && members != [] then members[|members| - 1] + 1 else g.cursor,
          if plan.full && complete then 0 else nextPart,
          processed,
          complete && processed >= plan.members,
          if moves then g.delivered + members else g.delivered,
          if part.Some? then g.read + [Read(owner, g.partCursor)] else g.read,
          if plan.full && complete && members == [] then g.dropped + 1 else g.dropped)
  }

  /** One attempt; a group that is done or a request that cannot be made changes nothing. */
  function Attempt(plan: Plan, g: Group, fits: Estimate): Group {
    if g.done || Step(plan, g, fits).None? then g else Step(plan, g, fits).value
  }

  /** The state after one attempt for each of the estimates. */
  function Run(plan: Plan, asks: seq<Estimate>): Group {
    if asks == [] then FRESH else Attempt(plan, Run(plan, asks[..|asks| - 1]), asks[|asks| - 1])
  }

  // ------------------------------------------------------------- the page of members

  /** Adds members until the request is too large and takes the last one out again. */
  method SelectMembers(candidates: seq<nat>, fits: seq<nat> -> bool) returns (members: seq<nat>)
    ensures members == candidates[..Fitting(candidates, fits, 0)]
  {
    members := [];
    var i := 0;
    while i < |candidates|
      invariant i <= |candidates| && members == candidates[..i]
      invariant Fitting(candidates, fits, 0) == Fitting(candidates, fits, i)
    {
      members := members + [candidates[i]];
      assert members == candidates[..i + 1];
      if !fits(members) {
        members := members[..|members| - 1];
        return;
      }
      i := i + 1;
    }
  }

  lemma {:induction false} RangeIs(a: nat, b: nat)
    requires a <= b
    ensures |Range(a, b)| == b - a && forall i :: 0 <= i < b - a ==> Range(a, b)[i] == a + i
    decreases b
  {
    if a < b { RangeIs(a, b - 1); }
  }

  lemma RangeJoin(a: nat, b: nat, c: nat)
    requires a <= b <= c
    ensures Range(a, b) + Range(b, c) == Range(a, c)
  {
    RangeIs(a, b);
    RangeIs(b, c);
    RangeIs(a, c);
  }

  lemma TakenRange(plan: Plan, g: Group, fits: Estimate)
    requires g.cursor <= plan.members
    ensures Taken(plan, g, fits) == Range(g.cursor, g.cursor + |Taken(plan, g, fits)|)
    ensures g.cursor + |Taken(plan, g, fits)| <= plan.members && (plan.full ==> |Taken(plan, g, fits)| <= 1)
  {
    var cs := Candidates(plan, g);
    RangeIs(g.cursor, Smaller(plan.members, g.cursor + if plan.full then 1 else PAGE));
    RangeIs(g.cursor, g.cursor + |Taken(plan, g, fits)|);
  }

  lemma PageJoins(cursor: nat, members: seq<nat>)
    requires members == Range(cursor, cursor + |members|)
    ensures members != [] ==> members[|members| - 1] + 1 == cursor + |members|
    ensures Range(0, cursor) + members == Range(0, cursor + |members|)
  {
    RangeIs(cursor, cursor + |members|);
    RangeJoin(0, cursor, cursor + |members|);
  }

  // ------------------------------------------------------------- what every state satisfies

  /** Parts read so far of one owner. */
  function Reads(owner: nat, n: nat): seq<Read> {
    if n == 0 then [] else Reads(owner, n - 1) + [Read(owner, n - 1)]
  }

  /** The members passed are those before the cursor; the others counted were dropped. */
  ghost predicate Counted(plan: Plan, g: Group) {
    && g.cursor <= plan.members && g.processed <= plan.members
    && g.delivered == Range(0, g.cursor) && g.processed == g.cursor + g.dropped
  }

  ghost predicate FullSound(plan: Plan, g: Group) {
    && (g.partCursor == 0 || g.partCursor < plan.parts(g.cursor))
    && (g.done ==> g.processed == plan.members && g.partCursor == 0)
    && (!g.done ==> g.processed < plan.members || plan.members == 0)
  }

  ghost predicate StackSound(plan: Plan, g: Group) {
    && g.partCursor <= plan.parts(0) && g.dropped == 0 && g.read == Reads(0, g.partCursor)
    && (g.done ==> g.processed == plan.members && g.partCursor == plan.parts(0))
    && (!g.done ==> g.processed < plan.members || g.partCursor < plan.parts(0) || g == FRESH)
  }

  ghost predicate Sound(plan: Plan, g: Group) {
    Counted(plan, g) && if plan.full then FullSound(plan, g) else StackSound(plan, g)
  }

  /** What the selection of members promises to the rest of a call. */
  ghost predicate Page(plan: Plan, g: Group, members: seq<nat>) {
    && members == Range(g.cursor, g.cursor + |members|) && g.cursor + |members| <= plan.members
    && (plan.full ==> |members| <= 1 && g.cursor < plan.members)
    && (PartAt(plan, g).Some? || members != [])
  }

  lemma StepIs(plan: Plan, g: Group, fits: Estimate)
    requires g.cursor <= plan.members && Step(plan, g, fits).Some?
    ensures var members := Taken(plan, g, fits);
      Page(plan, g, members) && Step(plan, g, fits).value == Advance(plan, g, members)
  {
    TakenRange(plan, g, fits);
    hide Taken, Range, Advance;
  }

  lemma FullAdvance(plan: Plan, g: Group, members: seq<nat>)
    requires plan.full && !g.done && Page(plan, g, members)
    ensures var g', complete := Advance(plan, g, members), g.partCursor + 1 >= plan.parts(g.cursor);
      if complete
      then && g'.cursor == g.cursor + |members| && g'.partCursor == 0 && g'.processed == g.processed + 1
           && g'.done == (g.processed + 1 >= plan.members) && g'.dropped == g.dropped + 1 - |members|
           && g'.delivered == g.delivered + members
      else g' == g.(partCursor := g.partCursor + 1, read := g.read + [Read(g.cursor, g.partCursor)])
  {
    PageJoins(g.cursor, members);
    hide Range;
  }

  lemma StackAdvance(plan: Plan, g: Group, members: seq<nat>)
    requires !plan.full && Page(plan, g, members)
    ensures var g' := Advance(plan, g, members);
      && g'.cursor == g.cursor + |members| && g'.processed == g.processed + |members|
      && g'.delivered == g.delivered + members && g'.dropped == g.dropped
      && g'.partCursor == g.partCursor + (if PartAt(plan, g).Some? then 1 else 0)
      && g'.done == (g'.partCursor >= plan.parts(0) && g'.processed >= plan.members)
      && g'.read == if PartAt(plan, g).Some? then g.read + [Read(0, g.partCursor)] else g.read
  {
    PageJoins(g.cursor, members);
    hide Range;
  }

  lemma AdvanceCounted(plan: Plan, g: Group, members: seq<nat>)
    requires Counted(plan, g) && !g.done && Page(plan, g, members)
    requires if plan.full then g.processed < plan.members else g.dropped == 0
    ensures Counted(plan, Advance(plan, g, members))
  {
    PageJoins(g.cursor, members);
    if plan.full { FullAdvance(plan, g, members); } else { StackAdvance(plan, g, members); }
    hide Range, Advance, PartAt;
  }

  lemma AdvanceFullSound(plan: Plan, g: Group, members: seq<nat>)
    requires plan.full && Counted(plan, g) && FullSound(plan, g) && !g.done && Page(plan, g, members)
    ensures FullSound(plan, Advance(plan, g, members))
  {
    FullAdvance(plan, g, members);
    hide Range, Advance, PartAt;
  }

  lemma AdvanceStackSound(plan: Plan, g: Group, members: seq<nat>)
    requires !plan.full && Counted(plan, g) && StackSound(plan, g) && Page(plan, g, members)
    ensures StackSound(plan, Advance(plan, g, members))
  {
    StackAdvance(plan, g, members);
    assert Reads(0, g.partCursor + 1) == Reads(0, g.partCursor) + [Read(0, g.partCursor)];
    hide Range, Advance, Reads;
  }

  lemma StepSound(plan: Plan, g: Group, fits: Estimate)
    requires Sound(plan, g) && !g.done && Step(plan, g, fits).Some?
    ensures Sound(plan, Step(plan, g, fits).value)
  {
    hide Step, Taken, Range, Advance;
    var members := Taken(plan, g, fits);
    StepIs(plan, g, fits);
    AdvanceCounted(plan, g, members);
    if plan.full { AdvanceFullSound(plan, g, members); } else { AdvanceStackSound(plan, g, members); }
  }

  lemma {:induction false} RunSound(plan: Plan, asks: seq<Estimate>)
    ensures Sound(plan, Run(plan, asks))
  {
    hide Step;
    if asks != [] {
      var g, fits := Run(plan, asks[..|asks| - 1]), asks[|asks| - 1];
      RunSound(plan, asks[..|asks| - 1]);
      if !g.done && Step(plan, g, fits).Some? { StepSound(plan, g, fits); }
    }
  }

  // ------------------------------------------------------------- every call makes progress

  /** Members and parts still to come, members first where each has its own parts. */
  function MembersLeft(plan: Plan, g: Group): int { if plan.full then plan.members - g.processed else 0 }

  function PartsLeft(plan: Plan, g: Group): int {
    plan.parts(Owner(plan, g)) - g.partCursor + if plan.full then 0 else plan.members - g.cursor
  }

  /** Every call leaves fewer members to count, or as many and fewer parts to read. */
  lemma StepDecreases(plan: Plan, g: Group, fits: Estimate)
    requires Sound(plan, g) && !g.done && Step(plan, g, fits).Some?
    ensures var g' := Step(plan, g, fits).value;
      && 0 <= MembersLeft(plan, g') && (g'.done || 0 <= PartsLeft(plan, g'))
      && (MembersLeft(plan, g') < MembersLeft(plan, g)
          || (MembersLeft(plan, g') == MembersLeft(plan, g) && PartsLeft(plan, g') < PartsLeft(plan, g)))
  {
    hide Step, Taken, Range, Advance;
    var members := Taken(plan, g, fits);
    StepIs(plan, g, fits);
    StepSound(plan, g, fits);
    if plan.full { FullAdvance(plan, g, members); } else { StackAdvance(plan, g, members); }
  }

  /** A stack group that is done has listed every member and read every part exactly once and
    * in order; and it is done as soon as that is so. */
  lemma StackGroupCovers(plan: Plan, asks: seq<Estimate>)
    requires !plan.full
    ensures var g := Run(plan, asks);
      && g.delivered == Range(0, g.cursor) && g.read == Reads(0, g.partCursor)
      && (g.done ==> g.cursor == plan.members && g.partCursor == plan.parts(0))
      && (g != FRESH && g.cursor == plan.members && g.partCursor == plan.parts(0) ==> g.done)
  {
    RunSound(plan, asks);
  }
}
