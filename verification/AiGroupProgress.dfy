/** When a group gets a model call, what is in it, and after how many it is done. */
module AiGroupProgress {
  import opened Options
  import opened AiGroups
  import opened AiGroupCoverage

  // ------------------------------------------------------------- one attempt

  /** The member whose evidence is read: the current one, or the group itself in a stack group. */
  function Source(plan: Plan, g: Group): nat { if plan.full then g.cursor else 0 }

  predicate MorePart(plan: Plan, g: Group) { g.partCursor < plan.parts(Source(plan, g)) }

  /** The estimate accepts a request with the current part, if there is one, and the next `n`
    * members. */
  predicate Room(plan: Plan, g: Group, fits: Estimate, n: nat) {
    fits(Source(plan, g), if MorePart(plan, g) then Some(g.partCursor) else None, Range(g.cursor, g.cursor + n))
  }

  /** A request can be made: the next member fits with what is left to read, or there is something
    * to read that fits alone. */
  predicate Askable(plan: Plan, g: Group, fits: Estimate) {
    && (plan.full ==> g.cursor < plan.members)
    && ((g.cursor < plan.members && Room(plan, g, fits, 1)) || (MorePart(plan, g) && Room(plan, g, fits, 0)))
  }

  function Offered(plan: Plan, g: Group): nat
    requires g.cursor <= plan.members
  {
    var limit := if plan.full then 1 else 50;
    if plan.members - g.cursor < limit then plan.members - g.cursor else limit
  }

  /** `n` is the largest page whose members could be added one by one. */
  ghost predicate LargestPage(plan: Plan, g: Group, fits: Estimate, n: nat)
    requires g.cursor <= plan.members
  {
    && n <= Offered(plan, g)
    && (forall k: nat {:trigger Room(plan, g, fits, k)} :: 1 <= k <= n ==> Room(plan, g, fits, k))
    && (n < Offered(plan, g) ==> !Room(plan, g, fits, n + 1))
  }

  lemma PrefixRoom(plan: Plan, g: Group, fits: Estimate, k: nat)
    requires g.cursor <= plan.members && k <= Offered(plan, g)
    ensures |Candidates(plan, g)| == Offered(plan, g)
    ensures fits(Owner(plan, g), PartAt(plan, g), Candidates(plan, g)[..k]) == Room(plan, g, fits, k)
  {
    RangeIs(g.cursor, g.cursor + Offered(plan, g));
    RangeIs(g.cursor, g.cursor + k);
    assert Candidates(plan, g)[..k] == Range(g.cursor, g.cursor + k);
  }

  lemma TakenPage(plan: Plan, g: Group, fits: Estimate)
    requires g.cursor <= plan.members
    ensures LargestPage(plan, g, fits, |Taken(plan, g, fits)|)
    ensures Taken(plan, g, fits) == Range(g.cursor, g.cursor + |Taken(plan, g, fits)|)
  {
    TakenRange(plan, g, fits);
    PrefixRoom(plan, g, fits, 0);
    var cs, n := Candidates(plan, g), |Taken(plan, g, fits)|;
    var f := (ms: seq<nat>) => fits(Owner(plan, g), PartAt(plan, g), ms);
    assert n == Fitting(cs, f, 0);
    hide Taken, Candidates, Range, Room, Fitting, Offered;
    forall k: nat {:trigger Room(plan, g, fits, k)} | 1 <= k <= n
      ensures Room(plan, g, fits, k)
    {
      PrefixRoom(plan, g, fits, k);
      assert f(cs[..k]);
    }
    if n < Offered(plan, g) {
      PrefixRoom(plan, g, fits, n + 1);
      assert !f(cs[..n + 1]);
    }
  }

  lemma CallMade(plan: Plan, g: Group, fits: Estimate)
    requires g.cursor <= plan.members
    ensures Step(plan, g, fits).Some? <==> Askable(plan, g, fits)
    ensures Step(plan, g, fits).Some? ==> Step(plan, g, fits).value == Advance(plan, g, Taken(plan, g, fits))
  {
    var n := |Taken(plan, g, fits)|;
    TakenPage(plan, g, fits);
    RangeIs(g.cursor, g.cursor + n);
    assert n == 0 ==> Range(g.cursor, g.cursor + n) == [];
    assert Room(plan, g, fits, n) == fits(Owner(plan, g), PartAt(plan, g), Taken(plan, g, fits));
    hide Taken, Range, Advance, Room;
  }

  /** An attempt does something if and only if the group is not done and a request can be made. */
  lemma AttemptActs(plan: Plan, g: Group, fits: Estimate)
    requires Sound(plan, g)
    ensures Attempt(plan, g, fits) != g <==> !g.done && Askable(plan, g, fits)
  {
    CallMade(plan, g, fits);
    if !g.done && Askable(plan, g, fits) { StepDecreases(plan, g, fits); }
    hide Step, Askable;
  }

  /** What a call of a stack group does: it reads the current part, if there is one, and passes
    * the largest page of next members that fits with it. */
  lemma StackCall(plan: Plan, g: Group, fits: Estimate)
    requires !plan.full && Sound(plan, g) && !g.done && Askable(plan, g, fits)
    ensures var g' := Attempt(plan, g, fits);
      && g.cursor <= g'.cursor <= plan.members && LargestPage(plan, g, fits, g'.cursor - g.cursor)
      && g'.delivered == g.delivered + Range(g.cursor, g'.cursor) && g'.processed == g'.cursor
      && g'.read == (if MorePart(plan, g) then g.read + [Read(0, g.partCursor)] else g.read)
      && g'.partCursor == g.partCursor + (if MorePart(plan, g) then 1 else 0)
      && g'.done == (g'.cursor == plan.members && g'.partCursor == plan.parts(0))
  {
    hide Step, Taken, Range, Advance, LargestPage, Askable, Room;
    var members := Taken(plan, g, fits);
    CallMade(plan, g, fits);
    TakenPage(plan, g, fits);
    StepIs(plan, g, fits);
    StackAdvance(plan, g, members);
    assert g.processed == g.cursor && g.partCursor <= plan.parts(0);
    hide Sound;
  }

  /** What a call of a full-log group does: it reads the current part, if there is one, and passes
    * the member with its last part when both fit. */
  lemma FullCall(plan: Plan, g: Group, fits: Estimate)
    requires plan.full && Sound(plan, g) && !g.done && Askable(plan, g, fits)
    ensures var g', last := Attempt(plan, g, fits), g.partCursor + 1 >= plan.parts(g.cursor);
      && g'.cursor == g.cursor + (if last && Room(plan, g, fits, 1) then 1 else 0)
      && g'.delivered == g.delivered + Range(g.cursor, g'.cursor)
      && g'.read == (if MorePart(plan, g) then g.read + [Read(g.cursor, g.partCursor)] else g.read)
      && g'.partCursor == (if last then 0 else g.partCursor + 1)
      && g'.processed == g.processed + (if last then 1 else 0)
      && g'.done == (last && g'.processed == plan.members)
  {
    var members := Taken(plan, g, fits);
    CallMade(plan, g, fits);
    TakenPage(plan, g, fits);
    StepIs(plan, g, fits);
    FullAdvance(plan, g, members);
    AdvanceReads(plan, g, members);
    assert |members| == if Room(plan, g, fits, 1) then 1 else 0;
    assert Range(g.cursor, g.cursor) == [] && g.delivered + [] == g.delivered;
    hide Step, Taken, Range, Advance, LargestPage, Askable, Room;
  }

  // ------------------------------------------------------------- how many calls it takes

  ghost predicate AllFit(asks: seq<Estimate>) {
    forall k {:trigger asks[k]} :: 0 <= k < |asks| ==> forall owner, part, members :: asks[k](owner, part, members)
  }

  function Least(a: nat, b: nat): nat { if a < b then a else b }

  /** While every request fits, a stack group reads one part and passes 50 members a call. It is
    * done with the call that reaches the end of both. */
  lemma {:induction false} StackPace(plan: Plan, asks: seq<Estimate>)
    requires !plan.full && AllFit(asks) && plan.members + plan.parts(0) > 0
    ensures var g, n := Run(plan, asks), |asks|;
      && g.cursor == Least(plan.members, 50 * n) && g.partCursor == Least(plan.parts(0), n)
      && (g.done <==> plan.members <= 50 * n && plan.parts(0) <= n)
  {
    if asks != [] {
      var front, fits := asks[..|asks| - 1], asks[|asks| - 1];
      var g := Run(plan, front);
      assert AllFit(front) by { assert forall k :: 0 <= k < |front| ==> front[k] == asks[k]; }
      StackPace(plan, front);
      RunSound(plan, front);
      if !g.done {
        assert forall k: nat :: Room(plan, g, fits, k);
        StackCall(plan, g, fits);
      }
      hide Attempt, Sound, Room;
    }
  }

  /** The calls the members before `m` take: one for each part, and one where there is none. */
  function CallsBefore(plan: Plan, m: nat): nat {
    if m == 0 then 0 else CallsBefore(plan, m - 1) + if plan.parts(m - 1) == 0 then 1 else plan.parts(m - 1)
  }

  /** While every request fits, a full-log group reads one part a call, member by member, and is
    * done with the call that reads the last part of the last one. */
  lemma {:induction false} FullPace(plan: Plan, asks: seq<Estimate>)
    requires plan.full && AllFit(asks) && plan.members > 0
    ensures OnPace(plan, Run(plan, asks), |asks|)
  {
    SomeCalls(plan, plan.members);
    if asks != [] {
      var front, fits := asks[..|asks| - 1], asks[|asks| - 1];
      assert AllFit(front) by { assert forall k :: 0 <= k < |front| ==> front[k] == asks[k]; }
      FullPace(plan, front);
      RunSound(plan, front);
      hide Attempt, Sound, OnPace;
      FullPaceStep(plan, Run(plan, front), fits, |front|);
    }
  }

  /** After `n` calls: that many have been spent on the members and parts passed, or it is done. */
  ghost predicate OnPace(plan: Plan, g: Group, n: nat) {
    && g.cursor <= plan.members
    && CallsBefore(plan, g.cursor) + g.partCursor == Least(CallsBefore(plan, plan.members), n)
    && g.dropped == 0 && (g.done <==> CallsBefore(plan, plan.members) <= n)
  }

  lemma FullPaceStep(plan: Plan, g: Group, fits: Estimate, n: nat)
    requires plan.full && Sound(plan, g) && plan.members > 0 && OnPace(plan, g, n)
    requires forall owner, part, members :: fits(owner, part, members)
    ensures OnPace(plan, Attempt(plan, g, fits), n + 1)
  {
    if !g.done {
      assert g.cursor == g.processed < plan.members;
      assert Room(plan, g, fits, 1);
      FullCall(plan, g, fits);
      StepSound(plan, g, fits) by { CallMade(plan, g, fits); }
      CallsGrow(plan, g.cursor, plan.members);
      CallsGrow(plan, g.cursor + 1, plan.members);
      assert CallsBefore(plan, g.cursor + 1)
          == CallsBefore(plan, g.cursor) + if plan.parts(g.cursor) == 0 then 1 else plan.parts(g.cursor);
      hide Room, Step, CallsBefore;
    }
  }

  lemma {:induction false} SomeCalls(plan: Plan, m: nat)
    ensures CallsBefore(plan, m) >= m
  {
    if m > 0 { SomeCalls(plan, m - 1); }
  }

  lemma {:induction false} CallsGrow(plan: Plan, a: nat, b: nat)
    requires a <= b
    ensures CallsBefore(plan, a) + (b - a) <= CallsBefore(plan, b)
  {
    if a < b { CallsGrow(plan, a, b - 1); }
  }
}
