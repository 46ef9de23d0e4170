/** The mutable tree of directory branches: `Add` updates it in place while the catalogue streams by,
    `Write` sorts and serialises it. Both are proved against the log of additions. */
module DirectorySnapshots {
  import opened Options
  import opened Sorting
  import opened DirectoryPages
  import opened DirectoryTree
  import opened ReadModelParts

  class Branch {
    const name: string
    const path: string
    const kind: Kind
    var caseCount: nat
    var children: map<Key, Branch>
    var order: seq<Key>   // insertion order of `children`
    var entries: seq<Entry>

    constructor (name: string, path: string, kind: Kind)
      ensures Fields() == Node(this, name, path, kind, 0, map[], [], [])
    {
      this.name, this.path, this.kind := name, path, kind;
      caseCount, children, order, entries := 0, map[], [], [];
    }

    ghost function Fields(): Node
      reads this
    {
      Node(this, name, path, kind, caseCount, children, order, entries)
    }
  }

  // The contents of a branch at one moment.
  datatype Node = Node(
    self: Branch, name: string, path: string, kind: Kind,
    caseCount: nat, children: map<Key, Branch>, order: seq<Key>, entries: seq<Entry>)

  type Nodes = map<seq<Key>, Node>

  // ---- what a set of branches says about the additions so far ----

  /** `k` is listed in the branch at `p` exactly when that branch maps it to the branch below. */
  ghost predicate Linked(vs: Nodes, p: seq<Key>, k: Key)
    requires p in vs
  {
    && (k in vs[p].children <==> k in vs[p].order)
    && (k in vs[p].children ==> p + [k] in vs && vs[p + [k]].self == vs[p].children[k])
  }

  /** The branch at `p` agrees with the additions: with those in `counted` for its count and with
      those in `listed` for its sub-directories. */
  ghost predicate NodeOk(vs: Nodes, p: seq<Key>, counted: seq<Added>, listed: seq<Added>) {
    p in vs ==>
      && vs[p].path == PathOf(p)
      && (p != [] ==> vs[p].name == p[|p| - 1].name && vs[p].kind == p[|p| - 1].kind)
      && vs[p].caseCount == CountUnder(counted, p)
      && vs[p].order == ChildKeys(listed, p)
      && (forall k {:trigger Linked(vs, p, k)} :: Linked(vs, p, k))
  }

  /** There is a branch at `p` exactly when something was added under it. */
  ghost predicate Present(vs: Nodes, p: seq<Key>, counted: seq<Added>) {
    p in vs <==> p == [] || CountUnder(counted, p) > 0
  }

  ghost predicate Holds(vs: Nodes, p: seq<Key>, entries: seq<Entry>) {
    p in vs ==> vs[p].entries == entries
  }

  ghost predicate Apart(vs: Nodes, p: seq<Key>, q: seq<Key>) {
    p in vs && q in vs && p != q ==> vs[p].self != vs[q].self
  }

  ghost predicate Distinct(vs: Nodes) {
    forall p, q {:trigger Apart(vs, p, q)} :: Apart(vs, p, q)
  }

  lemma StillDistinct(vs: Nodes, vs': Nodes)
    requires Distinct(vs)
    requires forall p :: p in vs' ==> p in vs && vs'[p].self == vs[p].self
    ensures Distinct(vs')
  {
    forall p, q {:trigger Apart(vs', p, q)} ensures Apart(vs', p, q) {
      assert Apart(vs, p, q);
    }
  }

  ghost predicate Agrees(vs: Nodes, log: seq<Added>) {
    && Distinct(vs)
    && (forall p {:trigger NodeOk(vs, p, log, log)} :: NodeOk(vs, p, log, log))
    && (forall p {:trigger Present(vs, p, log)} :: Present(vs, p, log))
  }

  ghost predicate AllHold(vs: Nodes, log: seq<Added>) {
    forall p {:trigger Holds(vs, p, EntriesAt(log, p))} :: Holds(vs, p, EntriesAt(log, p))
  }

  ghost predicate PartialAt(vs: Nodes, p: seq<Key>, before: seq<Added>, after: seq<Added>, c: int, l: int, m: int) {
    && NodeOk(vs, p, if |p| <= c then after else before, if |p| <= l then after else before)
    && Holds(vs, p, EntriesAt(before, p))
    && Present(vs, p, if |p| <= m then after else before)
  }

  /** Half-way through `Add`: counts include the new entry down to depth `c`, child lists down to
      depth `l`, and the branches it needs exist down to depth `m`. */
  ghost predicate Partial(vs: Nodes, before: seq<Added>, after: seq<Added>, c: int, l: int, m: int) {
    && Distinct(vs)
    && (forall p {:trigger PartialAt(vs, p, before, after, c, l, m)} :: PartialAt(vs, p, before, after, c, l, m))
  }

  // ---- the steps of `Add` ----

  lemma Begin(vs: Nodes, before: seq<Added>, a: Added)
    requires Agrees(vs, before) && AllHold(vs, before)
    ensures Partial(vs, before, before + [a], -1, -1, 0)
  {
    forall p {:trigger PartialAt(vs, p, before, before + [a], -1, -1, 0)}
      ensures PartialAt(vs, p, before, before + [a], -1, -1, 0)
    {
      assert NodeOk(vs, p, before, before) && Present(vs, p, before) && Holds(vs, p, EntriesAt(before, p));
    }
  }

  lemma Counted(vs: Nodes, before: seq<Added>, a: Added, c: int, m: int)
    requires -1 <= c < |a.segments| && Partial(vs, before, before + [a], c, c, m)
    requires Keys(a)[..c + 1] in vs
    ensures
      var at := Keys(a)[..c + 1];
      Partial(vs[at := vs[at].(caseCount := vs[at].caseCount + 1)], before, before + [a], c + 1, c, m)
  {
    var at, after := Keys(a)[..c + 1], before + [a];
    var vs' := vs[at := vs[at].(caseCount := vs[at].caseCount + 1)];
    StillDistinct(vs, vs');
    forall p {:trigger PartialAt(vs', p, before, after, c + 1, c, m)}
      ensures PartialAt(vs', p, before, after, c + 1, c, m)
    {
      Snoc(before, a, p);
      assert PartialAt(vs, p, before, after, c, c, m);
      assert Under(a, p) && |p| == c + 1 <==> p == at;
      CountedAt(vs, at, before, after, c, m, p);
    }
  }

  /** A branch whose count alone may have moved, in a tree whose branches are the same. */
  lemma NodeCounted(vs: Nodes, vs': Nodes, p: seq<Key>, counted: seq<Added>, counted': seq<Added>, listed: seq<Added>)
    requires NodeOk(vs, p, counted, listed) && vs'.Keys == vs.Keys
    requires forall q :: q in vs ==> vs'[q].self == vs[q].self
    requires p in vs ==>
      vs'[p] == vs[p].(caseCount := vs'[p].caseCount) && vs'[p].caseCount == CountUnder(counted', p)
    ensures NodeOk(vs', p, counted', listed)
  {
    hide CountUnder, ChildKeys, PathOf;
    forall k {:trigger Linked(vs', p, k)} | p in vs' ensures Linked(vs', p, k) {
      assert Linked(vs, p, k);
    }
  }

  lemma CountedAt(vs: Nodes, at: seq<Key>, before: seq<Added>, after: seq<Added>, c: int, m: int, p: seq<Key>)
    requires at in vs && |at| == c + 1 && PartialAt(vs, p, before, after, c, c, m)
    requires |p| == c + 1 ==> CountUnder(after, p) == CountUnder(before, p) + if p == at then 1 else 0
    ensures PartialAt(vs[at := vs[at].(caseCount := vs[at].caseCount + 1)], p, before, after, c + 1, c, m)
  {
    var vs' := vs[at := vs[at].(caseCount := vs[at].caseCount + 1)];
    hide ChildKeys, EntriesAt, CountUnder, Linked, PathOf;
    if |p| <= c {
      NodeCounted(vs, vs', p, after, after, after);
    } else if p == at {
      NodeCounted(vs, vs', p, before, after, before);
    } else {
      NodeCounted(vs, vs', p, before, before, before);
      if |p| == c + 1 { SameCount(vs', p, before, after); }
    }
    hide NodeOk;
  }

  lemma SameCount(vs: Nodes, p: seq<Key>, before: seq<Added>, after: seq<Added>)
    requires NodeOk(vs, p, before, before) && CountUnder(after, p) == CountUnder(before, p)
    ensures NodeOk(vs, p, after, before)
  {
    hide CountUnder, ChildKeys, Linked, PathOf;
  }

  lemma ChildFound(vs: Nodes, before: seq<Added>, a: Added, i: nat)
    requires i < |a.segments| && Partial(vs, before, before + [a], i, i - 1, i)
    requires Keys(a)[..i] in vs && Keys(a)[i] in vs[Keys(a)[..i]].children
    ensures Partial(vs, before, before + [a], i, i, i + 1)
    ensures Keys(a)[..i + 1] in vs
    ensures vs[Keys(a)[..i + 1]].self == vs[Keys(a)[..i]].children[Keys(a)[i]]
  {
    var p0, p1, after := Keys(a)[..i], Keys(a)[..i + 1], before + [a];
    assert p1 == p0 + [Keys(a)[i]];
    ChildIffUnder(before, p0, Keys(a)[i]);
    assert PartialAt(vs, p0, before, after, i, i - 1, i) && Linked(vs, p0, Keys(a)[i]);
    forall p {:trigger PartialAt(vs, p, before, after, i, i, i + 1)}
      ensures PartialAt(vs, p, before, after, i, i, i + 1)
    {
      Snoc(before, a, p);
      assert PartialAt(vs, p, before, after, i, i - 1, i);
      assert Below(a, p) && |p| == i ==> p == p0;
      assert Under(a, p) && |p| == i + 1 ==> p == p1;
    }
  }

  /** The branches after a fresh `child` was hung below the one at `p0` under `key`. */
  ghost function Hung(vs: Nodes, p0: seq<Key>, key: Key, child: Branch): Nodes
    requires p0 in vs
  {
    var b := vs[p0];
    vs[p0 := b.(children := b.children[key := child], order := b.order + [key])]
      [p0 + [key] := Node(child, key.name,
                          if b.path != "" then b.path + "/" + key.name else key.name,
                          key.kind, 0, map[], [], [])]
  }

  /** `key` is new below `p0`: nothing was added there before. */
  lemma ChildMissing(vs: Nodes, before: seq<Added>, a: Added, i: nat, p0: seq<Key>, p1: seq<Key>)
    requires i < |a.segments| && p0 == Keys(a)[..i] && p1 == Keys(a)[..i + 1]
    requires Partial(vs, before, before + [a], i, i - 1, i)
    requires p0 in vs && Keys(a)[i] !in vs[p0].children
    ensures p1 == p0 + [Keys(a)[i]] && p1[..|p1| - 1] == p0
    ensures p1 !in vs && CountUnder(before, p1) == 0
    ensures Keys(a)[i] !in vs[p0].order
    ensures vs[p0].order + [Keys(a)[i]] == ChildKeys(before + [a], p0)
  {
    assert p1 == p0 + [Keys(a)[i]];
    ChildIffUnder(before, p0, Keys(a)[i]);
    Snoc(before, a, p0);
    assert PartialAt(vs, p0, before, before + [a], i, i - 1, i) && Linked(vs, p0, Keys(a)[i]);
    assert PartialAt(vs, p1, before, before + [a], i, i - 1, i);
  }

  lemma ChildHung(vs: Nodes, before: seq<Added>, a: Added, i: nat, child: Branch)
    requires i < |a.segments| && Partial(vs, before, before + [a], i, i - 1, i)
    requires Keys(a)[..i] in vs && Keys(a)[i] !in vs[Keys(a)[..i]].children
    requires forall p :: p in vs ==> vs[p].self != child
    ensures Keys(a)[..i + 1] == Keys(a)[..i] + [Keys(a)[i]] && Keys(a)[..i + 1] !in vs
    ensures Partial(Hung(vs, Keys(a)[..i], Keys(a)[i], child), before, before + [a], i, i, i + 1)
  {
    var p0, p1, after := Keys(a)[..i], Keys(a)[..i + 1], before + [a];
    ChildMissing(vs, before, a, i, p0, p1);
    var vs' := Hung(vs, p0, Keys(a)[i], child);
    forall p, q {:trigger Apart(vs', p, q)} ensures Apart(vs', p, q) {
      assert Apart(vs, p, q);
    }
    forall p {:trigger PartialAt(vs', p, before, after, i, i, i + 1)}
      ensures PartialAt(vs', p, before, after, i, i, i + 1)
    {
      if p == p1 {
        ChildHungNew(vs, before, a, i, child, p0, p1);
      } else {
        ChildHungOld(vs, before, a, i, child, p0, p1, p);
      }
    }
  }

  lemma ChildHungNew(vs: Nodes, before: seq<Added>, a: Added, i: nat, child: Branch, p0: seq<Key>, p1: seq<Key>)
    requires i < |a.segments| && p0 == Keys(a)[..i] && p1 == Keys(a)[..i + 1]
    requires Partial(vs, before, before + [a], i, i - 1, i)
    requires p0 in vs && Keys(a)[i] !in vs[p0].children
    ensures PartialAt(Hung(vs, p0, Keys(a)[i], child), p1, before, before + [a], i, i, i + 1)
  {
    ChildMissing(vs, before, a, i, p0, p1);
    NothingUnder(before, p1);
    Snoc(before, a, p1);
    assert PartialAt(vs, p0, before, before + [a], i, i - 1, i);
  }

  lemma ChildHungOld(
      vs: Nodes, before: seq<Added>, a: Added, i: nat, child: Branch, p0: seq<Key>, p1: seq<Key>, p: seq<Key>)
    requires i < |a.segments| && p0 == Keys(a)[..i] && p1 == Keys(a)[..i + 1] && p != p1
    requires Partial(vs, before, before + [a], i, i - 1, i)
    requires p0 in vs && Keys(a)[i] !in vs[p0].children
    ensures PartialAt(Hung(vs, p0, Keys(a)[i], child), p, before, before + [a], i, i, i + 1)
  {
    ChildMissing(vs, before, a, i, p0, p1);
    assert PartialAt(vs, p, before, before + [a], i, i - 1, i);
    Snoc(before, a, p);
    assert Below(a, p) && |p| == i ==> p == p0;
    assert Under(a, p) && |p| == i + 1 ==> p == p1;
    hide Partial, PartialAt, Hung, Keys, CountUnder, ChildKeys, EntriesAt;
    ChildHungAt(vs, p0, Keys(a)[i], child, before, before + [a], i, p);
  }

  lemma ChildHungAt(
      vs: Nodes, p0: seq<Key>, key: Key, child: Branch, before: seq<Added>, after: seq<Added>, i: nat, p: seq<Key>)
    requires p0 in vs && |p0| == i && p0 + [key] !in vs && key !in vs[p0].order && p != p0 + [key]
    requires PartialAt(vs, p, before, after, i, i - 1, i)
    requires ChildKeys(after, p0) == vs[p0].order + [key]
    requires |p| == i && p != p0 ==> ChildKeys(after, p) == ChildKeys(before, p)
    requires |p| == i + 1 ==> CountUnder(after, p) == CountUnder(before, p)
    ensures PartialAt(Hung(vs, p0, key, child), p, before, after, i, i, i + 1)
  {
    hide CountUnder, ChildKeys, EntriesAt, Linked, PathOf;
    if |p| < i {
      HungNode(vs, p0, key, child, p, after, after, after);
    } else if |p| == i {
      HungNode(vs, p0, key, child, p, after, before, after);
    } else {
      HungNode(vs, p0, key, child, p, before, before, before);
    }
    hide NodeOk;
  }

  /** A branch other than the new child: its parent lists one child more, all others none. */
  lemma HungNode(
      vs: Nodes, p0: seq<Key>, key: Key, child: Branch, p: seq<Key>,
      counted: seq<Added>, listed: seq<Added>, listed': seq<Added>)
    requires p0 in vs && p0 + [key] !in vs && key !in vs[p0].order && p != p0 + [key]
    requires NodeOk(vs, p, counted, listed)
    requires p in vs ==> ChildKeys(listed', p) == if p == p0 then vs[p0].order + [key] else ChildKeys(listed, p)
    ensures NodeOk(Hung(vs, p0, key, child), p, counted, listed')
  {
    hide CountUnder, ChildKeys, PathOf;
    var vs' := Hung(vs, p0, key, child);
    forall k {:trigger Linked(vs', p, k)} | p in vs' ensures Linked(vs', p, k) {
      assert Linked(vs, p, k);
      HungLinked(vs, p0, key, child, p, k);
    }
    hide Linked;
  }

  lemma HungLinked(vs: Nodes, p0: seq<Key>, key: Key, child: Branch, p: seq<Key>, k: Key)
    requires p0 in vs && p in vs && Linked(vs, p, k) && p0 + [key] !in vs && key !in vs[p0].order
    ensures p in Hung(vs, p0, key, child) && Linked(Hung(vs, p0, key, child), p, k)
  {
    assert (p + [k])[..|p|] == p && (p0 + [key])[..|p0|] == p0;
    assert (p + [k])[|p|] == k && (p0 + [key])[|p0|] == key;
  }

  lemma Finish(vs: Nodes, before: seq<Added>, a: Added)
    requires Partial(vs, before, before + [a], |a.segments|, |a.segments| - 1, |a.segments|)
    requires Keys(a) in vs
    ensures
      var vs' := vs[Keys(a) := vs[Keys(a)].(entries := vs[Keys(a)].entries + [a.entry])];
      Agrees(vs', before + [a]) && AllHold(vs', before + [a])
  {
    var after := before + [a];
    var vs' := vs[Keys(a) := vs[Keys(a)].(entries := vs[Keys(a)].entries + [a.entry])];
    StillDistinct(vs, vs');
    forall p
      ensures NodeOk(vs', p, after, after) && Present(vs', p, after) && Holds(vs', p, EntriesAt(after, p))
    {
      Snoc(before, a, p);
      assert PartialAt(vs, p, before, after, |a.segments|, |a.segments| - 1, |a.segments|);
      forall k {:trigger Linked(vs', p, k)} | p in vs' ensures Linked(vs', p, k) {
        assert Linked(vs, p, k);
      }
    }
  }

  // ---- facts that sorting relies on ----

  ghost predicate NamesOrdered(le: NameOrder) {
    TotalPreorder(le)
  }

  lemma SortedTwice(es: seq<Entry>, le: NameOrder)
    requires NamesOrdered(le)
    ensures SortedEntries(SortedEntries(es, le), le) == SortedEntries(es, le)
  {
    assert forall x, y :: EntriesBy(le)(x, y) == le(x.name, y.name);
    StableSortSorted(es, EntriesBy(le));
    SortOfSorted(SortedEntries(es, le), EntriesBy(le));
  }

  /** The root alone agrees with an empty log. */
  lemma AloneAgrees(root: Node)
    requires root == Node(root.self, "", "", Case, 0, map[], [], [])
    ensures Agrees(map[[] := root], []) && AllHold(map[[] := root], [])
  {
    var vs: Nodes := map[[] := root];
    forall p, k {:trigger Linked(vs, p, k)} | p in vs ensures Linked(vs, p, k) {
    }
  }

  lemma AgreesButEntries(vs: Nodes, vs': Nodes, log: seq<Added>)
    requires Agrees(vs, log)
    requires forall p :: p in vs <==> p in vs'
    requires forall p :: p in vs ==> vs[p].(entries := []) == vs'[p].(entries := [])
    ensures Agrees(vs', log)
  {
    StillDistinct(vs, vs');
    forall p
      ensures NodeOk(vs', p, log, log) && Present(vs', p, log)
    {
      assert NodeOk(vs, p, log, log) && Present(vs, p, log);
      forall k {:trigger Linked(vs', p, k)} | p in vs' ensures Linked(vs', p, k) {
        assert Linked(vs, p, k);
      }
    }
  }

  class DirectorySnapshotIndex {
    const root: Branch
    ghost var log: seq<Added>
    ghost var nodes: map<seq<Key>, Branch>
    ghost var repr: set<Branch>   // all branches

    ghost function View(): Nodes
      reads `nodes, nodes.Values
    {
      map p | p in nodes :: nodes[p].Fields()
    }

    ghost predicate Rooted()
      reads `nodes
    {
      [] in nodes && nodes[[]] == root
    }

    ghost predicate Owned()
      reads `nodes, `repr
    {
      forall p :: p in nodes ==> nodes[p] in repr
    }

    ghost predicate Valid()
      reads this, repr
    {
      Owned() && Rooted() && Agrees(View(), log) && AllHold(View(), log)
    }

    constructor ()
      ensures Valid() && log == [] && fresh(repr)
    {
      root := new Branch("", "", Case);
      new;
      log := [];
      nodes := map[[] := root];
      repr := {root};
      assert View() == map[[] := root.Fields()];
      AloneAgrees(root.Fields());
    }

    lemma Others(branch: Branch, at: seq<Key>)
      requires Distinct(View()) && at in nodes && nodes[at] == branch
      ensures forall p :: p in nodes && p != at ==> nodes[p] != branch
    {
      forall p | p in nodes && p != at ensures nodes[p] != branch {
        assert Apart(View(), p, at) && View()[p].self == nodes[p] && View()[at].self == branch;
      }
    }

    method CountEntry(branch: Branch, ghost at: seq<Key>)
      requires Rooted() && Distinct(View()) && at in nodes && nodes[at] == branch
      modifies branch`caseCount
      ensures View() == old(View())[at := old(View())[at].(caseCount := old(View())[at].caseCount + 1)]
    {
      Others(branch, at);
      branch.caseCount := branch.caseCount + 1;
    }

    /** `branch.children.set(key, child)` with a fresh child. */
    method Hang(branch: Branch, key: Key, ghost at: seq<Key>) returns (child: Branch)
      requires Rooted() && Distinct(View()) && at in nodes && nodes[at] == branch
      requires at + [key] !in nodes
      modifies this`nodes, branch`children, branch`order
      ensures nodes == old(nodes)[at + [key] := child] && fresh(child)
      ensures View() == Hung(old(View()), at, key, child)
    {
      Others(branch, at);
      ghost var vs := View();
      child := new Branch(key.name, if branch.path != "" then branch.path + "/" + key.name else key.name, key.kind);
      branch.children := branch.children[key := child];
      branch.order := branch.order + [key];
      nodes := nodes[at + [key] := child];
      forall p | p in nodes
        ensures nodes[p].Fields() == Hung(vs, at, key, child)[p]
      {
        if p != at && p != at + [key] {
          assert nodes[p].Fields() == vs[p];
        }
      }
      ViewIs(Hung(vs, at, key, child));
    }

    lemma ViewIs(vs: Nodes)
      requires forall p :: p in nodes <==> p in vs
      requires forall p :: p in nodes ==> nodes[p].Fields() == vs[p]
      ensures View() == vs
    {
    }

    /** No branch is replaced, and those that were added are new objects. */
    twostate predicate Grown(before: map<seq<Key>, Branch>)
      reads `nodes
    {
      && (forall p :: p in before ==> p in nodes && nodes[p] == before[p])
      && (forall p :: p in nodes && p !in before ==> fresh(nodes[p]))
    }

    /** `branch.children.get(key)`, created when missing. */
    method Child(branch: Branch, key: Key, ghost before: seq<Added>, ghost a: Added, ghost i: nat)
      returns (child: Branch)
      requires i < |a.segments| && key == Keys(a)[i]
      requires Rooted() && Partial(View(), before, before + [a], i, i - 1, i)
      requires Keys(a)[..i] in nodes && nodes[Keys(a)[..i]] == branch
      modifies this`nodes, branch`children, branch`order
      ensures Rooted() && Partial(View(), before, before + [a], i, i, i + 1)
      ensures Keys(a)[..i + 1] in nodes && nodes[Keys(a)[..i + 1]] == child
      ensures Grown(old(nodes))
    {
      ghost var vs, p0 := View(), Keys(a)[..i];
      assert vs[p0] == branch.Fields();
      if key in branch.children {
        ChildFound(vs, before, a, i);
        child := branch.children[key];
        assert vs[Keys(a)[..i + 1]].self == nodes[Keys(a)[..i + 1]];
      } else {
        ChildMissing(vs, before, a, i, p0, Keys(a)[..i + 1]);
        child := Hang(branch, key, p0);
        assert Rooted();
        assert forall p :: p in vs ==> vs[p].self != child;
        ChildHung(vs, before, a, i, child);
      }
    }

    /** One step of the walk: the next branch exists and counts the entry. */
    method Descend(branch: Branch, key: Key, ghost before: seq<Added>, ghost a: Added, ghost i: nat)
      returns (child: Branch)
      requires i < |a.segments| && key == Keys(a)[i]
      requires Rooted() && Partial(View(), before, before + [a], i, i - 1, i)
      requires Keys(a)[..i] in nodes && nodes[Keys(a)[..i]] == branch
      modifies this`nodes, nodes.Values
      ensures Rooted() && Partial(View(), before, before + [a], i + 1, i, i + 1)
      ensures Keys(a)[..i + 1] in nodes && nodes[Keys(a)[..i + 1]] == child
      ensures Grown(old(nodes))
    {
      child := Child(branch, key, before, a, i);
      Counted(View(), before, a, i, i + 1);
      CountEntry(child, Keys(a)[..i + 1]);
    }

    method Walk(segments: seq<string>, kind: Kind, ghost before: seq<Added>, ghost a: Added)
      returns (branch: Branch)
      requires segments == a.segments && kind == a.entry.kind
      requires Rooted() && Partial(View(), before, before + [a], 0, -1, 0)
      modifies this`nodes, nodes.Values
      ensures Rooted() && Partial(View(), before, before + [a], |segments|, |segments| - 1, |segments|)
      ensures Keys(a) in nodes && nodes[Keys(a)] == branch
      ensures Grown(old(nodes))
    {
      branch := root;
      var i := 0;
      while i < |segments|
        invariant 0 <= i <= |segments|
        invariant Rooted()
        invariant Grown(old(nodes))
        invariant Keys(a)[..i] in nodes && nodes[Keys(a)[..i]] == branch
        invariant Partial(View(), before, before + [a], i, i - 1, i)
      {
        branch := Descend(branch, Key(kind, segments[i]), before, a, i);
        i := i + 1;
      }
      assert Keys(a)[..|segments|] == Keys(a);
    }

    /** Record one more entry: every directory on its way counts it, and the last one keeps it. */
    method Add(segments: seq<string>, entry: Entry)
      requires Valid()
      modifies this, repr
      ensures Valid() && log == old(log) + [Added(segments, entry)]
      ensures fresh(repr - old(repr))
    {
      ghost var a := Added(segments, entry);
      Begin(View(), log, a);
      assert Distinct(View());
      hide Partial, Agrees, AllHold, Distinct;
      Counted(View(), log, a, -1, 0);
      CountEntry(root, []);
      var branch := Walk(segments, entry.kind, log, a);
      Finish(View(), log, a);
      Keep(branch, entry, Keys(a));
      Log(a, old(nodes));
    }

    ghost method Log(a: Added, before: map<seq<Key>, Branch>)
      requires forall p :: p in nodes && p in before ==> nodes[p] in repr
      requires Rooted() && Agrees(View(), log + [a]) && AllHold(View(), log + [a])
      modifies `log, `repr
      ensures log == old(log) + [a] && nodes == old(nodes) && Valid()
      ensures repr == old(repr) + set p | p in nodes && p !in before :: nodes[p]
    {
      log := log + [a];
      repr := repr + set p | p in nodes && p !in before :: nodes[p];
    }

    method Keep(branch: Branch, entry: Entry, ghost at: seq<Key>)
      requires Rooted() && Distinct(View()) && at in nodes && nodes[at] == branch
      modifies branch`entries
      ensures View() == old(View())[at := old(View())[at].(entries := old(View())[at].entries + [entry])]
    {
      Others(branch, at);
      branch.entries := branch.entries + [entry];
    }

    // ---- serialising ----

    /** Sorting a branch's entries in place is all that writing changes. */
    ghost predicate Sorting(le: NameOrder)
      reads `nodes, `log, nodes.Values
    {
      forall p {:trigger SortingAt(p, le)} :: SortingAt(p, le)
    }

    ghost predicate SortingAt(p: seq<Key>, le: NameOrder)
      reads `nodes, `log, nodes.Values
    {
      p in nodes ==>
        nodes[p].entries == EntriesAt(log, p) || nodes[p].entries == SortedEntries(EntriesAt(log, p), le)
    }

    ghost predicate Writable(le: NameOrder)
      reads `nodes, `log, nodes.Values
    {
      NamesOrdered(le) && Rooted() && Agrees(View(), log) && Sorting(le)
    }

    method SortEntries(branch: Branch, le: NameOrder, ghost p: seq<Key>)
      requires Writable(le) && p in nodes && nodes[p] == branch
      modifies branch`entries
      ensures Writable(le) && branch.entries == SortedEntries(EntriesAt(log, p), le)
    {
      hide SortedEntries, EntriesAt, NamesOrdered;
      ghost var vs := View();
      SortedTwice(EntriesAt(log, p), le);
      Others(branch, p);
      assert SortingAt(p, le);
      branch.entries := SortedEntries(branch.entries, le);
      forall q {:trigger SortingAt(q, le)} ensures SortingAt(q, le) {
        assert old(SortingAt(q, le));
      }
      AgreesButEntries(vs, View(), log);
    }

    /** Writes the branch at `p` and everything below it; `ordinal` is the next free part number. */
    method WriteBranch(branch: Branch, le: NameOrder, ordinal: nat, writer: PartWriter, ghost p: seq<Key>,
                       ghost t: Tree)
      returns (rootOrdinal: nat, next: nat)
      requires Writable(le) && p in nodes && nodes[p] == branch && |p| <= Depth(log)
      requires t == TreeAt(log, p, le)
      modifies writer, nodes.Values`entries
      ensures Writable(le)
      ensures rootOrdinal == RootOrdinal(t, ordinal) && next == ordinal + |TreePages(t, ordinal)|
      ensures writer.calls == old(writer.calls) + IndexCalls(TreePages(t, ordinal), ordinal)
      decreases Depth(log) - |p|, 1, 1
    {
      var directories: seq<DirNode>;
      directories, next := WriteChildren(branch, le, ordinal, writer, p, t.dirs);
      rootOrdinal := next;
      assert Refs(SortedEntries(EntriesAt(log, p), le)) == t.entries;
      OwnPagesPaged(directories, t.entries, 0, rootOrdinal);
      next := WriteEntries(branch, directories, le, rootOrdinal, writer, p,
                           OwnPages(directories, t.entries, 0, rootOrdinal));
      BranchCalls(t, ordinal, old(writer.calls));
    }

    method WriteEntries(
        branch: Branch, directories: seq<DirNode>, le: NameOrder, ordinal: nat, writer: PartWriter,
        ghost p: seq<Key>, ghost pages: seq<IndexPage>)
      returns (next: nat)
      requires Writable(le) && p in nodes && nodes[p] == branch
      requires Paged(directories, Refs(SortedEntries(EntriesAt(log, p), le)), 0, ordinal, pages)
      modifies writer, branch`entries
      ensures Writable(le)
      ensures next == ordinal + |pages| && writer.calls == old(writer.calls) + IndexCalls(pages, ordinal)
    {
      SortEntries(branch, le, p);
      next := WriteOwnPages(directories, Refs(branch.entries), ordinal, writer, pages);
    }

    /** Writes one sub-directory and describes it for its parent's page. */
    method WriteChild(
        branch: Branch, key: Key, le: NameOrder, ordinal: nat, writer: PartWriter, ghost p: seq<Key>, ghost d: Dir)
      returns (node: DirNode, next: nat)
      requires Writable(le) && p in nodes && nodes[p] == branch
      requires key in ChildKeys(log, p) && |p| < Depth(log) && d == DirAt(log, p, key, le)
      modifies writer, nodes.Values`entries
      ensures Writable(le)
      ensures node == NodeOf(d, ordinal) && next == ordinal + |TreePages(d.sub, ordinal)|
      ensures writer.calls == old(writer.calls) + IndexCalls(TreePages(d.sub, ordinal), ordinal)
      decreases Depth(log) - |p|, 0, 0
    {
      ghost var q := p + [key];
      assert View()[p] == branch.Fields() && NodeOk(View(), p, log, log) && Linked(View(), p, key);
      var child := branch.children[key];
      assert View()[q] == child.Fields() && NodeOk(View(), q, log, log);
      node := DirNode(child.name, child.path, child.kind, child.caseCount, 0);
      assert node == NodeOf(d, ordinal).(ordinal := 0);
      var root;
      root, next := WriteBranch(child, le, ordinal, writer, q, d.sub);
      node := node.(ordinal := root);
    }

    method WriteChildren(
        branch: Branch, le: NameOrder, ordinal: nat, writer: PartWriter, ghost p: seq<Key>, ghost dirs: seq<Dir>)
      returns (directories: seq<DirNode>, next: nat)
      requires Writable(le) && p in nodes && nodes[p] == branch && |p| <= Depth(log)
      requires dirs == TreeAt(log, p, le).dirs
      modifies writer, nodes.Values`entries
      ensures Writable(le)
      ensures directories == DirNodes(dirs, ordinal) && next == ordinal + |DirPages(dirs, ordinal)|
      ensures writer.calls == old(writer.calls) + IndexCalls(DirPages(dirs, ordinal), ordinal)
      decreases Depth(log) - |p|, 1, 0
    {
      var keys := SortedKeys(branch.order, le);
      assert View()[p] == branch.Fields() && NodeOk(View(), p, log, log);
      DirsAre(p, keys, dirs, le);
      ghost var plan := MakePlan(dirs, ordinal);
      directories, next := WriteEach(branch, keys, le, ordinal, writer, p, dirs, plan);
    }

    method WriteNth(
        branch: Branch, keys: seq<Key>, i: nat, le: NameOrder, next: nat, writer: PartWriter,
        ghost p: seq<Key>, ghost dirs: seq<Dir>, ghost plan: Plan, ghost base: seq<Call>, ghost first: nat)
      returns (node: DirNode, after: nat)
      requires Writable(le) && p in nodes && nodes[p] == branch
      requires i < |keys| == |dirs| && |p| < Depth(log) && DirIs(p, keys, dirs, le, i)
      requires Planned(dirs, plan, first)
      requires next == plan.starts[i] && writer.calls == base + plan.calls[i]
      modifies writer, nodes.Values`entries
      ensures Writable(le)
      ensures node == plan.nodes[i] && after == plan.starts[i + 1] && writer.calls == base + plan.calls[i + 1]
      decreases Depth(log) - |p|, 0, 1
    {
      assert PlanStep(dirs, plan, i);
      node, after := WriteChild(branch, keys[i], le, next, writer, p, dirs[i]);
      Assoc(base, plan.calls[i], IndexCalls(TreePages(dirs[i].sub, next), next));
    }

    method WriteEach(
        branch: Branch, keys: seq<Key>, le: NameOrder, ordinal: nat, writer: PartWriter,
        ghost p: seq<Key>, ghost dirs: seq<Dir>, ghost plan: Plan)
      returns (directories: seq<DirNode>, next: nat)
      requires Writable(le) && p in nodes && nodes[p] == branch
      requires |keys| == |dirs| && (keys != [] ==> |p| < Depth(log))
      requires forall i {:trigger DirIs(p, keys, dirs, le, i)} :: DirIs(p, keys, dirs, le, i)
      requires Planned(dirs, plan, ordinal)
      modifies writer, nodes.Values`entries
      ensures Writable(le)
      ensures directories == plan.nodes && next == plan.starts[|keys|]
      ensures writer.calls == old(writer.calls) + plan.calls[|keys|]
      decreases Depth(log) - |p|, 0, 2
    {
      directories, next := [], ordinal;
      var i := 0;
      while i < |keys|
        invariant 0 <= i <= |keys|
        invariant Writable(le)
        invariant directories == plan.nodes[..i] && next == plan.starts[i]
        invariant writer.calls == old(writer.calls) + plan.calls[i]
      {
        assert DirIs(p, keys, dirs, le, i);
        var node, after := WriteNth(branch, keys, i, le, next, writer, p, dirs, plan, old(writer.calls), ordinal);
        TakeSnoc(plan.nodes, i);
        directories := directories + [node];
        next := after;
        i := i + 1;
      }
    }

    ghost predicate DirIs(p: seq<Key>, keys: seq<Key>, dirs: seq<Dir>, le: NameOrder, i: int)
      requires |keys| == |dirs| && (keys != [] ==> |p| < Depth(log))
      reads `log
    {
      0 <= i < |keys| ==> keys[i] in ChildKeys(log, p) && dirs[i] == DirAt(log, p, keys[i], le)
    }

    lemma DirsAre(p: seq<Key>, keys: seq<Key>, dirs: seq<Dir>, le: NameOrder)
      requires |p| <= Depth(log) && keys == SortedKeys(ChildKeys(log, p), le) && dirs == TreeAt(log, p, le).dirs
      ensures |keys| == |dirs| && (keys != [] ==> |p| < Depth(log))
      ensures forall i {:trigger DirIs(p, keys, dirs, le, i)} :: DirIs(p, keys, dirs, le, i)
    {
      TreeDirs(log, p, le);
      forall i {:trigger DirIs(p, keys, dirs, le, i)} ensures DirIs(p, keys, dirs, le, i) {
      }
    }

    /** `write`: emits the whole tree from part number `first` on and returns its root's number. */
    method Write(le: NameOrder, first: nat, writer: PartWriter) returns (rootOrdinal: nat, next: nat)
      requires Valid() && NamesOrdered(le)
      modifies writer, repr`entries
      ensures rootOrdinal == RootOrdinal(TreeAt(log, [], le), first)
      ensures next == first + |TreePages(TreeAt(log, [], le), first)|
      ensures writer.calls == old(writer.calls) + IndexCalls(TreePages(TreeAt(log, [], le), first), first)
    {
      forall p {:trigger SortingAt(p, le)} ensures SortingAt(p, le) {
        assert Holds(View(), p, EntriesAt(log, p));
      }
      rootOrdinal, next := WriteBranch(root, le, first, writer, [], TreeAt(log, [], le));
    }
  }

  /** The pages of one branch, in steps of 100 elements; an empty branch still gets one page. */
  method WriteOwnPages(
      directories: seq<DirNode>, entries: seq<EntryRef>, ordinal: nat, writer: PartWriter, ghost pages: seq<IndexPage>)
    returns (next: nat)
    requires Paged(directories, entries, 0, ordinal, pages)
    modifies writer
    ensures next == ordinal + |pages|
    ensures writer.calls == old(writer.calls) + IndexCalls(pages, ordinal)
  {
    hide IndexCalls;
    PageCallsNone(pages, ordinal, writer.calls);
    var count := |directories| + |entries|;
    next := ordinal;
    var start := 0;
    ghost var i: nat := 0;
    while start < (if count > 1 then count else 1)
      invariant i <= |pages| && start == 100 * i && next == ordinal + i
      invariant writer.calls == old(writer.calls) + IndexCalls(pages[..i], ordinal)
    {
      assert PageIs(directories, entries, 0, ordinal, pages, i);
      var end := Min(count, start + PAGE_SIZE);
      writer.WritePart(next, IndexPart(IndexPage(
        directories[Min(start, |directories|)..Min(end, |directories|)],
        entries[Excess(start, |directories|)..Excess(end, |directories|)],
        if end < count then Some(next + 1) else None)));
      PageCalls(pages, i, ordinal, old(writer.calls));
      next := next + 1;
      start := start + PAGE_SIZE;
      i := i + 1;
    }
    assert pages[..i] == pages;
  }

  ghost predicate PageIs(
      directories: seq<DirNode>, entries: seq<EntryRef>, start: nat, ordinal: nat, pages: seq<IndexPage>, i: nat)
  {
    i < |pages| ==>
      && start + 100 * i <= |directories| + |entries|
      && pages[i] == PageAt(directories, entries, start + 100 * i, ordinal + i)
  }

  /** `pages` cuts the elements from `start` on into pages of 100, at least one. */
  ghost predicate Paged(
      directories: seq<DirNode>, entries: seq<EntryRef>, start: nat, ordinal: nat, pages: seq<IndexPage>)
  {
    var count := |directories| + |entries|;
    && 0 < |pages|
    && start + 100 * (|pages| - 1) < (if count > 1 then count else 1) <= start + 100 * |pages|
    && forall i: nat {:trigger PageIs(directories, entries, start, ordinal, pages, i)} ::
         PageIs(directories, entries, start, ordinal, pages, i)
  }

  lemma LaterPage(
      directories: seq<DirNode>, entries: seq<EntryRef>, start: nat, ordinal: nat, rest: seq<IndexPage>, i: nat)
    requires i < |rest| && PageIs(directories, entries, start + PAGE_SIZE, ordinal + 1, rest, i)
    ensures start + 100 * (i + 1) <= |directories| + |entries|
    ensures rest[i] == PageAt(directories, entries, start + 100 * (i + 1), ordinal + (i + 1))
  {
    assert start + PAGE_SIZE + 100 * i == start + 100 * (i + 1);
  }

  lemma PagedCons(
      directories: seq<DirNode>, entries: seq<EntryRef>, start: nat, ordinal: nat, page: IndexPage,
      rest: seq<IndexPage>)
    requires start + PAGE_SIZE < |directories| + |entries|
    requires page == PageAt(directories, entries, start, ordinal)
    requires Paged(directories, entries, start + PAGE_SIZE, ordinal + 1, rest)
    ensures Paged(directories, entries, start, ordinal, [page] + rest)
  {
    var pages := [page] + rest;
    forall i: nat {:trigger PageIs(directories, entries, start, ordinal, pages, i)}
      ensures PageIs(directories, entries, start, ordinal, pages, i)
    {
      if 0 < i < |pages| {
        assert PageIs(directories, entries, start + PAGE_SIZE, ordinal + 1, rest, i - 1);
        LaterPage(directories, entries, start, ordinal, rest, i - 1);
      }
    }
  }

  lemma {:induction false} OwnPagesPaged(
      directories: seq<DirNode>, entries: seq<EntryRef>, start: nat, ordinal: nat)
    requires start == 0 || start < |directories| + |entries|
    ensures Paged(directories, entries, start, ordinal, OwnPages(directories, entries, start, ordinal))
    decreases |directories| + |entries| - start
  {
    var page := PageAt(directories, entries, start, ordinal);
    if start + PAGE_SIZE < |directories| + |entries| {
      var rest := OwnPages(directories, entries, start + PAGE_SIZE, ordinal + 1);
      assert OwnPages(directories, entries, start, ordinal) == [page] + rest;
      hide OwnPages, Paged, PageAt;
      OwnPagesPaged(directories, entries, start + PAGE_SIZE, ordinal + 1);
      PagedCons(directories, entries, start, ordinal, page, rest);
    } else {
      assert OwnPages(directories, entries, start, ordinal) == [page];
      hide OwnPages;
      PagedLast(directories, entries, start, ordinal, page);
    }
  }

  lemma PagedLast(directories: seq<DirNode>, entries: seq<EntryRef>, start: nat, ordinal: nat, page: IndexPage)
    requires start == 0 || start < |directories| + |entries|
    requires |directories| + |entries| <= start + PAGE_SIZE && page == PageAt(directories, entries, start, ordinal)
    ensures Paged(directories, entries, start, ordinal, [page])
  {
    hide PageAt;
    forall i: nat {:trigger PageIs(directories, entries, start, ordinal, [page], i)}
      ensures PageIs(directories, entries, start, ordinal, [page], i)
    {
    }
  }

  // ---- how the calls of the parts add up ----

  lemma PageCalls(pages: seq<IndexPage>, i: nat, first: nat, calls: seq<Call>)
    requires i < |pages|
    ensures calls + IndexCalls(pages[..i + 1], first)
         == (calls + IndexCalls(pages[..i], first)) + [Call(first + i, IndexPart(pages[i]))]
  {
    assert pages[..i + 1] == pages[..i] + [pages[i]];
    IndexCallsSnoc(pages[..i], pages[i], first);
    Assoc(calls, IndexCalls(pages[..i], first), [Call(first + i, IndexPart(pages[i]))]);
  }

  lemma PageCallsNone(pages: seq<IndexPage>, first: nat, calls: seq<Call>)
    ensures calls + IndexCalls(pages[..0], first) == calls
  {
    assert pages[..0] == [];
  }

  /** Where each sub-directory's pages start and which calls precede them. */
  datatype Plan = Plan(nodes: seq<DirNode>, starts: seq<nat>, calls: seq<seq<Call>>)

  ghost predicate PlanStep(dirs: seq<Dir>, plan: Plan, i: nat)
  {
    i < |dirs| && |plan.nodes| == |dirs| && |plan.starts| == |plan.calls| == |dirs| + 1 ==>
      var sub := dirs[i].sub;
      && plan.nodes[i] == NodeOf(dirs[i], plan.starts[i])
      && plan.starts[i + 1] == plan.starts[i] + |TreePages(sub, plan.starts[i])|
      && plan.calls[i + 1] == plan.calls[i] + IndexCalls(TreePages(sub, plan.starts[i]), plan.starts[i])
  }

  ghost predicate Planned(dirs: seq<Dir>, plan: Plan, first: nat) {
    && |plan.nodes| == |dirs| && |plan.starts| == |plan.calls| == |dirs| + 1
    && plan.starts[0] == first && plan.calls[0] == []
    && forall i: nat {:trigger PlanStep(dirs, plan, i)} :: PlanStep(dirs, plan, i)
  }

  lemma PlanSnoc(front: seq<Dir>, before: Plan, d: Dir, first: nat) returns (plan: Plan)
    requires Planned(front, before, first)
    ensures Planned(front + [d], plan, first)
    ensures var start := before.starts[|front|];
      && plan.nodes == before.nodes + [NodeOf(d, start)]
      && plan.starts[|front| + 1] == start + |TreePages(d.sub, start)|
      && plan.calls[|front| + 1] == before.calls[|front|] + IndexCalls(TreePages(d.sub, start), start)
  {
    hide TreePages, IndexCalls, NodeOf;
    var n := |front|;
    var start := before.starts[n];
    var pages := TreePages(d.sub, start);
    plan := Plan(before.nodes + [NodeOf(d, start)], before.starts + [start + |pages|],
                 before.calls + [before.calls[n] + IndexCalls(pages, start)]);
    forall i: nat {:trigger PlanStep(front + [d], plan, i)} ensures PlanStep(front + [d], plan, i) {
      assert PlanStep(front, before, i);
    }
  }

  lemma {:induction false} MakePlan(dirs: seq<Dir>, first: nat) returns (plan: Plan)
    ensures plan.nodes == DirNodes(dirs, first)
    ensures Planned(dirs, plan, first)
    ensures plan.starts[|dirs|] == first + |DirPages(dirs, first)|
    ensures plan.calls[|dirs|] == IndexCalls(DirPages(dirs, first), first)
  {
    if dirs == [] {
      assert DirPages(dirs, first) == [] && IndexCalls([], first) == [];
      hide DirPages, IndexCalls;
      plan := Plan([], [first], [[]]);
    } else {
      var front, d := dirs[..|dirs| - 1], dirs[|dirs| - 1];
      assert dirs == front + [d] && |dirs| == |front| + 1;
      hide DirPages, DirNodes, TreePages, IndexCalls, NodeOf;
      var before := MakePlan(front, first);
      DirPagesSnoc(front, d, first);
      var own := TreePages(d.sub, before.starts[|front|]);
      assert DirPages(dirs, first) == DirPages(front, first) + own;
      IndexCallsConcat(DirPages(front, first), own, first);
      plan := PlanSnoc(front, before, d, first);
      hide Planned;
    }
  }

  lemma BranchCalls(t: Tree, first: nat, calls: seq<Call>)
    ensures RootOrdinal(t, first) == first + |DirPages(t.dirs, first)|
    ensures |TreePages(t, first)|
         == |DirPages(t.dirs, first)| + |OwnPages(DirNodes(t.dirs, first), t.entries, 0, RootOrdinal(t, first))|
    ensures calls + IndexCalls(TreePages(t, first), first)
         == (calls + IndexCalls(DirPages(t.dirs, first), first)) +
            IndexCalls(OwnPages(DirNodes(t.dirs, first), t.entries, 0, RootOrdinal(t, first)), RootOrdinal(t, first))
  {
    var sub, own := DirPages(t.dirs, first), OwnPages(DirNodes(t.dirs, first), t.entries, 0, RootOrdinal(t, first));
    TreePagesParts(t, first);
    hide TreePages, DirPages, OwnPages, DirNodes, RootOrdinal, IndexCalls;
    IndexCallsConcat(sub, own, first);
    Assoc(calls, IndexCalls(sub, first), IndexCalls(own, first + |sub|));
  }
}
