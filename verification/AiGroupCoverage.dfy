/** Which members and parts a finished group with full logs has passed to the model. */
module AiGroupCoverage {
  import opened Options
  import opened AiGroups

  // ------------------------------------------------------------- one attempt

  /** The call is about to read the last part of its member. */
  predicate AtLastPart(plan: Plan, g: Group) { g.partCursor + 1 == plan.parts(g.cursor) }

  /** The last part of the current member fits the context, but not with the member beside it. */
  predicate Crowded(plan: Plan, g: Group, fits: Estimate) {
    && !g.done && g.cursor < plan.members && AtLastPart(plan, g)
    && fits(g.cursor, Some(g.partCursor), []) && !fits(g.cursor, Some(g.partCursor), [g.cursor])
  }

  /** The attempt reads one more part of a member that has further ones. */
  ghost predicate Reading(plan: Plan, g: Group, g': Group) {
    && !g.done && g.cursor < plan.members && g.partCursor + 1 < plan.parts(g.cursor)
    && g' == g.(partCursor := g.partCursor + 1, read := g.read + [Read(g.cursor, g.partCursor)])
  }

  /** The attempt counts the current member, whether or not it passes it. */
  ghost predicate Counting(plan: Plan, g: Group, fits: Estimate, g': Group) {
    && !g.done && g.cursor < plan.members && g.partCursor + 1 >= plan.parts(g.cursor)
    && g'.partCursor == 0 && g'.processed == g.processed + 1 && g'.done == (g.processed + 1 >= plan.members)
    && g'.read == (if AtLastPart(plan, g) then g.read + [Read(g.cursor, g.partCursor)] else g.read)
    && if Crowded(plan, g, fits) then g'.cursor == g.cursor && g'.dropped == g.dropped + 1
       else && g'.cursor == g.cursor + 1 && g'.dropped == g.dropped
            && (AtLastPart(plan, g) ==> fits(g.cursor, Some(g.partCursor), [g.cursor]))
  }

  /** An attempt is refused, reads on, or counts the current member. */
  lemma FullAttempt(plan: Plan, g: Group, fits: Estimate)
    requires plan.full && Sound(plan, g)
    ensures var g' := Attempt(plan, g, fits);
      || (g' == g && !Crowded(plan, g, fits))
      || Reading(plan, g, g')
      || Counting(plan, g, fits, g')
  {
    if !g.done && g.cursor < plan.members {
      Alone(plan, g, fits);
      if Step(plan, g, fits).Some? {
        var members := Taken(plan, g, fits);
        StepIs(plan, g, fits);
        FullAdvance(plan, g, members);
        AdvanceReads(plan, g, members);
        hide Step, Taken, Range, Advance;
      } else {
        hide Taken, Range, Advance;
      }
    }
  }

  /** The current member is the only candidate. */
  lemma Alone(plan: Plan, g: Group, fits: Estimate)
    requires plan.full && g.cursor < plan.members
    ensures var part := PartAt(plan, g);
      Taken(plan, g, fits) == if fits(g.cursor, part, [g.cursor]) then [g.cursor] else []
  {
    var cs := Candidates(plan, g);
    RangeIs(g.cursor, g.cursor + 1);
    assert cs == [g.cursor] && cs[..1] == [g.cursor] && cs[..0] == [];
  }

  lemma AdvanceReads(plan: Plan, g: Group, members: seq<nat>)
    requires plan.full
    ensures Advance(plan, g, members).read
         == if g.partCursor < plan.parts(g.cursor) then g.read + [Read(g.cursor, g.partCursor)] else g.read
  {
  }

  /** A call counts a member without passing it exactly when it reads the member's last part
    * and the member itself does not fit beside that part. */
  lemma DropsExactly(plan: Plan, g: Group, fits: Estimate)
    requires plan.full && Sound(plan, g)
    ensures Attempt(plan, g, fits).dropped > g.dropped <==> Crowded(plan, g, fits)
  {
    FullAttempt(plan, g, fits);
    hide Attempt;
  }

  // ------------------------------------------------------------- a whole run

  predicate CrowdedAt(plan: Plan, asks: seq<Estimate>, k: nat)
    requires k < |asks|
  {
    Crowded(plan, Run(plan, asks[..k]), asks[k])
  }

  /** No attempt finds a member before the `bound`-th crowded. */
  ghost predicate RoomBefore(plan: Plan, asks: seq<Estimate>, bound: int) {
    forall k: nat {:trigger CrowdedAt(plan, asks, k)} ::
      k < |asks| && Run(plan, asks[..k]).cursor < bound ==> !CrowdedAt(plan, asks, k)
  }

  function CrowdedCalls(plan: Plan, asks: seq<Estimate>): nat {
    if asks == [] then 0
    else
      var front := asks[..|asks| - 1];
      CrowdedCalls(plan, front) + if Crowded(plan, Run(plan, front), asks[|asks| - 1]) then 1 else 0
  }

  lemma RoomSnoc(plan: Plan, asks: seq<Estimate>, bound: int)
    requires asks != []
    ensures var front, fits := asks[..|asks| - 1], asks[|asks| - 1]; var g := Run(plan, front);
      RoomBefore(plan, asks, bound) <==>
        RoomBefore(plan, front, bound) && (g.cursor < bound ==> !Crowded(plan, g, fits))
  {
    hide Run, Crowded;
    var front, n := asks[..|asks| - 1], |asks| - 1;
    forall k: nat | k < n
      ensures asks[..k] == front[..k] && CrowdedAt(plan, asks, k) == CrowdedAt(plan, front, k)
    {
      assert asks[..k] == front[..k];
    }
    assert CrowdedAt(plan, asks, n) == Crowded(plan, Run(plan, front), asks[n]);
  }

  /** As many members are dropped as calls were crowded. */
  lemma {:induction false} DropsCounted(plan: Plan, asks: seq<Estimate>)
    requires plan.full
    ensures Run(plan, asks).dropped == CrowdedCalls(plan, asks)
    ensures CrowdedCalls(plan, asks) == 0 <==> RoomBefore(plan, asks, plan.members)
  {
    if asks != [] {
      var front, fits := asks[..|asks| - 1], asks[|asks| - 1];
      DropsCounted(plan, front);
      RunSound(plan, front);
      FullAttempt(plan, Run(plan, front), fits);
      RoomSnoc(plan, asks, plan.members);
      hide Attempt, RoomBefore;
    }
  }

  /** A finished group has passed all its members, each once and in order, if and only if no
    * call was crowded; it falls short by the number of crowded calls. */
  lemma FullGroupCovers(plan: Plan, asks: seq<Estimate>)
    requires plan.full && Run(plan, asks).done
    ensures Run(plan, asks).delivered == Range(0, plan.members) <==> RoomBefore(plan, asks, plan.members)
    ensures |Run(plan, asks).delivered| == plan.members - CrowdedCalls(plan, asks)
  {
    hide Run, CrowdedCalls, RoomBefore;
    RunSound(plan, asks);
    DropsCounted(plan, asks);
    RangeIs(0, Run(plan, asks).cursor);
    RangeIs(0, plan.members);
  }

  // ------------------------------------------------------------- the parts read

  /** The parts of the members before `m`, one member after the other. */
  function AllReads(plan: Plan, m: nat): seq<Read> {
    if m == 0 then [] else AllReads(plan, m - 1) + Reads(m - 1, plan.parts(m - 1))
  }

  ghost predicate InOrder(plan: Plan, g: Group) {
    g.dropped == 0 && g.read == AllReads(plan, g.cursor) + Reads(g.cursor, g.partCursor)
  }

  /** Everything was read and only the last member dropped. */
  ghost predicate LastDropped(plan: Plan, g: Group) {
    g.done && g.cursor + 1 == plan.members && g.read == AllReads(plan, plan.members)
  }

  /** A member that was dropped is about to be read again. */
  ghost predicate Due(plan: Plan, g: Group) {
    && !g.done && g.partCursor == 0 && plan.parts(g.cursor) > 0 && Read(g.cursor, 0) in g.read
  }

  ghost predicate Twice(read: seq<Read>) {
    exists i, k :: 0 <= i < k < |read| && read[i] == read[k]
  }

  lemma InOrderStep(plan: Plan, g: Group, fits: Estimate)
    requires plan.full && Sound(plan, g) && InOrder(plan, g)
    ensures var g' := Attempt(plan, g, fits);
      if !Crowded(plan, g, fits) then InOrder(plan, g')
      else if g.cursor + 1 < plan.members then Due(plan, g') else LastDropped(plan, g')
  {
    assert g.processed == g.cursor && (g.partCursor == 0 || g.partCursor < plan.parts(g.cursor));
    hide Attempt, Sound, AllReads, Reads;
    var g' := Attempt(plan, g, fits);
    FullAttempt(plan, g, fits);
    NextRead(plan, g.cursor, g.partCursor);
    if Counting(plan, g, fits, g') {
      CountedReads(plan, g, fits, g');
    }
  }

  /** Counting the current member leaves all its parts read. */
  lemma CountedReads(plan: Plan, g: Group, fits: Estimate, g': Group)
    requires Counting(plan, g, fits, g') && InOrder(plan, g) && g.processed == g.cursor
    requires g.partCursor == 0 || g.partCursor < plan.parts(g.cursor)
    ensures if !Crowded(plan, g, fits) then InOrder(plan, g')
            else if g.cursor + 1 < plan.members then Due(plan, g') else LastDropped(plan, g')
  {
    hide Attempt, Crowded;
    var m, n := g.cursor, plan.parts(g.cursor);
    NextRead(plan, m, g.partCursor);
    assert g'.read == AllReads(plan, m + 1) by {
      if n == 0 { assert Reads(m, 0) == []; }
    }
    hide AllReads;
    ConcatNone(g'.read);
    assert Reads(m + 1, 0) == [];
    if Crowded(plan, g, fits) {
      CrowdedParts(plan, g, fits);
      hide Reads;
      FirstRead(plan, m, n);
    }
  }

  lemma CrowdedParts(plan: Plan, g: Group, fits: Estimate)
    requires Crowded(plan, g, fits)
    ensures plan.parts(g.cursor) == g.partCursor + 1
  {
  }

  lemma NextRead(plan: Plan, m: nat, n: nat)
    ensures AllReads(plan, m) + Reads(m, n) + [Read(m, n)] == AllReads(plan, m) + Reads(m, n + 1)
    ensures AllReads(plan, m + 1) == AllReads(plan, m) + Reads(m, plan.parts(m))
  {
    Assoc(AllReads(plan, m), Reads(m, n), [Read(m, n)]);
  }

  lemma {:induction false} FirstRead(plan: Plan, m: nat, n: nat)
    requires n > 0
    ensures Read(m, 0) in AllReads(plan, m) + Reads(m, n)
  {
    hide AllReads;
    if n > 1 {
      FirstRead(plan, m, n - 1);
      Assoc(AllReads(plan, m), Reads(m, n - 1), [Read(m, n - 1)]);
    }
  }

  /** What was read twice stays so, and a dropped member is read a second time. */
  lemma RepeatStep(plan: Plan, g: Group, fits: Estimate)
    requires plan.full && Sound(plan, g) && (Due(plan, g) || Twice(g.read))
    ensures Due(plan, Attempt(plan, g, fits)) || Twice(Attempt(plan, g, fits).read)
  {
    FullAttempt(plan, g, fits);
    var g' := Attempt(plan, g, fits);
    hide Attempt;
    assert g.read <= g'.read;
    if Twice(g.read) {
      var i, k :| 0 <= i < k < |g.read| && g.read[i] == g.read[k];
      assert g'.read[i] == g'.read[k];
    } else if g' != g {
      var i :| 0 <= i < |g.read| && g.read[i] == Read(g.cursor, 0);
      assert g'.read[i] == g'.read[|g.read|];
    }
  }

  lemma {:induction false} ReadsSoFar(plan: Plan, asks: seq<Estimate>)
    requires plan.full
    ensures var g := Run(plan, asks);
      if RoomBefore(plan, asks, plan.members - 1) then InOrder(plan, g) || LastDropped(plan, g)
      else Due(plan, g) || Twice(g.read)
  {
    if asks == [] {
      assert AllReads(plan, 0) + Reads(0, 0) == [];
    } else {
      var front, fits := asks[..|asks| - 1], asks[|asks| - 1];
      var g := Run(plan, front);
      ReadsSoFar(plan, front);
      RunSound(plan, front);
      RoomSnoc(plan, asks, plan.members - 1);
      hide RoomBefore, InOrder, Due, Twice, Step;
      if RoomBefore(plan, front, plan.members - 1) {
        if InOrder(plan, g) { InOrderStep(plan, g, fits); }
      } else {
        RepeatStep(plan, g, fits);
      }
    }
  }

  lemma {:induction false} ReadsOf(owner: nat, n: nat)
    ensures |Reads(owner, n)| == n && forall i :: 0 <= i < n ==> Reads(owner, n)[i] == Read(owner, i)
  {
    if n > 0 { ReadsOf(owner, n - 1); }
  }

  lemma {:induction false} NeverTwice(plan: Plan, m: nat)
    ensures !Twice(AllReads(plan, m)) && forall r :: r in AllReads(plan, m) ==> r.owner < m
  {
    if m > 0 {
      NeverTwice(plan, m - 1);
      ReadsOf(m - 1, plan.parts(m - 1));
      var before, own := AllReads(plan, m - 1), Reads(m - 1, plan.parts(m - 1));
      forall i, k | 0 <= i < k < |before + own|
        ensures (before + own)[i] != (before + own)[k]
      {
        if k < |before| {
          assert before[i] != before[k];
        } else if i < |before| {
          assert before[i] in before;
        }
      }
    }
  }

  /** A finished group has read each part of each member exactly once and in order if and only
    * if no call for a member before the last one was crowded. */
  lemma FullGroupReads(plan: Plan, asks: seq<Estimate>)
    requires plan.full && Run(plan, asks).done
    ensures Run(plan, asks).read == AllReads(plan, plan.members) <==> RoomBefore(plan, asks, plan.members - 1)
  {
    var g := Run(plan, asks);
    ReadsSoFar(plan, asks);
    RunSound(plan, asks);
    NeverTwice(plan, plan.members);
    hide Run, RoomBefore, Twice;
    ConcatNone(AllReads(plan, g.cursor));
  }

  // ------------------------------------------------------------- one estimate for all calls

  /** The member fits beside its own last part, if it has any. */
  predicate HasRoom(plan: Plan, fits: Estimate, m: nat) {
    plan.parts(m) == 0 || fits(m, Some(plan.parts(m) - 1), [m])
  }

  ghost predicate Always(asks: seq<Estimate>, fits: Estimate) { forall k :: 0 <= k < |asks| ==> asks[k] == fits }

  lemma PassedStep(plan: Plan, g: Group, fits: Estimate)
    requires plan.full && Sound(plan, g) && Attempt(plan, g, fits).cursor > g.cursor
    ensures Attempt(plan, g, fits).cursor == g.cursor + 1 && HasRoom(plan, fits, g.cursor)
  {
    FullAttempt(plan, g, fits);
    hide Attempt, Counted;
  }

  lemma {:induction false} PassedHasRoom(plan: Plan, asks: seq<Estimate>, fits: Estimate, m: nat)
    requires plan.full && Always(asks, fits) && m < Run(plan, asks).cursor
    ensures HasRoom(plan, fits, m)
  {
    hide Attempt, Sound, HasRoom;
    if asks != [] {
      var front := asks[..|asks| - 1];
      var g := Run(plan, front);
      assert Run(plan, asks) == Attempt(plan, g, fits);
      if m < g.cursor {
        PassedHasRoom(plan, front, fits, m);
      } else {
        RunSound(plan, front);
        PassedStep(plan, g, fits);
      }
    }
  }

  lemma RoomMeansNotCrowded(plan: Plan, asks: seq<Estimate>, fits: Estimate, bound: int)
    requires Always(asks, fits)
    requires forall m: nat {:trigger HasRoom(plan, fits, m)} :: m < bound ==> HasRoom(plan, fits, m)
    ensures RoomBefore(plan, asks, bound)
  {
    hide Run;
    forall k: nat {:trigger CrowdedAt(plan, asks, k)} | k < |asks| && Run(plan, asks[..k]).cursor < bound
      ensures !CrowdedAt(plan, asks, k)
    {
      assert HasRoom(plan, fits, Run(plan, asks[..k]).cursor);
    }
  }

  /** With one estimate for all calls: a finished group has passed all its members if and only
    * if each of them fits beside its own last part. */
  lemma FittingMembersPassed(plan: Plan, asks: seq<Estimate>, fits: Estimate)
    requires plan.full && Always(asks, fits) && Run(plan, asks).done
    ensures Run(plan, asks).delivered == Range(0, plan.members) <==>
      forall m: nat {:trigger HasRoom(plan, fits, m)} :: m < plan.members ==> HasRoom(plan, fits, m)
  {
    hide RoomBefore, HasRoom;
    var g := Run(plan, asks);
    FullGroupCovers(plan, asks);
    RunSound(plan, asks);
    if g.delivered == Range(0, plan.members) {
      RangeIs(0, g.cursor);
      RangeIs(0, plan.members);
      forall m: nat {:trigger HasRoom(plan, fits, m)} | m < plan.members
        ensures HasRoom(plan, fits, m)
      {
        PassedHasRoom(plan, asks, fits, m);
      }
    } else if forall m: nat {:trigger HasRoom(plan, fits, m)} :: m < plan.members ==> HasRoom(plan, fits, m) {
      RoomMeansNotCrowded(plan, asks, fits, plan.members);
    }
  }

  /** And it has read every part of every member exactly once if and only if each but the last
    * fits beside its own last part. */
  lemma FittingMembersRead(plan: Plan, asks: seq<Estimate>, fits: Estimate)
    requires plan.full && Always(asks, fits) && Run(plan, asks).done
    ensures Run(plan, asks).read == AllReads(plan, plan.members) <==>
      forall m: nat {:trigger HasRoom(plan, fits, m)} :: m < plan.members - 1 ==> HasRoom(plan, fits, m)
  {
    hide RoomBefore, HasRoom;
    var g := Run(plan, asks);
    FullGroupReads(plan, asks);
    ReadsSoFar(plan, asks);
    RunSound(plan, asks);
    if RoomBefore(plan, asks, plan.members - 1) {
      assert g.cursor >= plan.members - 1;
      forall m: nat {:trigger HasRoom(plan, fits, m)} | m < plan.members - 1
        ensures HasRoom(plan, fits, m)
      {
        PassedHasRoom(plan, asks, fits, m);
      }
    } else if forall m: nat {:trigger HasRoom(plan, fits, m)} :: m < plan.members - 1 ==> HasRoom(plan, fits, m) {
      RoomMeansNotCrowded(plan, asks, fits, plan.members - 1);
    }
  }

  // ------------------------------------------------------------- a group that is not covered

  /** Two members of one part each, and no room for a member beside a part. */
  const TIGHT := Plan(true, 2, m => 1)

  const NO_ROOM: Estimate := (m, part, members) => members == []

  /** Such a group is reported done after two calls, both of which read the first member's
    * part: the second member's log was never read and no member was passed. */
  lemma DroppedMember()
    ensures Run(TIGHT, [NO_ROOM, NO_ROOM]) == Group(0, 0, 2, true, [], [Read(0, 0), Read(0, 0)], 2)
  {
    var first := Group(0, 0, 1, false, [], [Read(0, 0)], 1);
    TightStep(FRESH);
    TightStep(first);
    assert [NO_ROOM, NO_ROOM][..1] == [NO_ROOM] && [NO_ROOM][..0] == [];
    assert Run(TIGHT, [NO_ROOM]) == first by { assert Run(TIGHT, []) == FRESH; }
  }

  lemma TightStep(g: Group)
    requires g.cursor == 0 && g.partCursor == 0 && !g.done
    ensures Attempt(TIGHT, g, NO_ROOM) == g.(processed := g.processed + 1, done := g.processed + 1 >= 2,
                                             read := g.read + [Read(0, 0)], dropped := g.dropped + 1)
  {
    Alone(TIGHT, g, NO_ROOM);
    assert g.delivered + [] == g.delivered;
  }
}
