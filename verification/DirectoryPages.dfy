/** The pages a directory tree is written to, and what a reader of them gets back. */
module DirectoryPages {
  import opened Options

  const PAGE_SIZE := 100

  datatype Kind = Case | Ddt

  datatype EntryRef = EntryRef(ordinal: nat, index: nat, kind: Kind)

  datatype DirNode = DirNode(name: string, path: string, kind: Kind, caseCount: nat, ordinal: nat)

  datatype IndexPage =
    IndexPage(directories: seq<DirNode>, entries: seq<EntryRef>, nextOrdinal: Option<nat>)

  // The tree the pages stand for.
  datatype Tree = Tree(dirs: seq<Dir>, entries: seq<EntryRef>)
  datatype Dir = Dir(name: string, path: string, kind: Kind, caseCount: nat, sub: Tree)

  function Min(a: nat, b: nat): nat { if a < b then a else b }

  function Excess(a: nat, b: nat): nat { if a < b then 0 else a - b }

  // ---- writing ----

  function PageAt(nodes: seq<DirNode>, entries: seq<EntryRef>, start: nat, ordinal: nat): IndexPage
    requires start <= |nodes| + |entries|
  {
    var count := |nodes| + |entries|;
    var end := Min(count, start + PAGE_SIZE);
    IndexPage(
      nodes[Min(start, |nodes|)..Min(end, |nodes|)],
      entries[Excess(start, |nodes|)..Excess(end, |nodes|)],
      if end < count then Some(ordinal + 1) else None)
  }

  /** A branch's own pages from element `start` on. */
  function OwnPages(nodes: seq<DirNode>, entries: seq<EntryRef>, start: nat, ordinal: nat): (r: seq<IndexPage>)
    requires start <= |nodes| + |entries|
    ensures r != []
    decreases |nodes| + |entries| - start
  {
    [PageAt(nodes, entries, start, ordinal)] +
    if start + PAGE_SIZE < |nodes| + |entries|
    then OwnPages(nodes, entries, start + PAGE_SIZE, ordinal + 1)
    else []
  }

  /** All pages of a tree, children first, numbered from `first`. */
  function TreePages(t: Tree, first: nat): seq<IndexPage>
    decreases t, 1
  {
    var sub := DirPages(t.dirs, first);
    sub + OwnPages(DirNodes(t.dirs, first), t.entries, 0, first + |sub|)
  }

  function DirPages(ds: seq<Dir>, first: nat): seq<IndexPage>
    decreases ds, 0
  {
    if ds == [] then []
    else
      var before := DirPages(ds[..|ds| - 1], first);
      before + TreePages(ds[|ds| - 1].sub, first + |before|)
  }

  lemma TreePagesParts(t: Tree, first: nat)
    ensures TreePages(t, first)
         == DirPages(t.dirs, first) + OwnPages(DirNodes(t.dirs, first), t.entries, 0, RootOrdinal(t, first))
    ensures RootOrdinal(t, first) == first + |DirPages(t.dirs, first)|
  {
  }

  function RootOrdinal(t: Tree, first: nat): nat
    decreases t, 1
  {
    first + |DirPages(t.dirs, first)|
  }

  function DirNodes(ds: seq<Dir>, first: nat): (r: seq<DirNode>)
    ensures |r| == |ds|
    decreases ds, 0
  {
    if ds == [] then []
    else
      var before := ds[..|ds| - 1];
      var d := ds[|ds| - 1];
      DirNodes(before, first) + [NodeOf(d, first + |DirPages(before, first)|)]
  }

  /** A sub-directory as its parent's page lists it, its pages starting at `first`. */
  function NodeOf(d: Dir, first: nat): DirNode
    decreases d, 0
  {
    DirNode(d.name, d.path, d.kind, d.caseCount, RootOrdinal(d.sub, first))
  }

  lemma DirPagesSnoc(ds: seq<Dir>, d: Dir, first: nat)
    ensures DirPages(ds + [d], first)
         == DirPages(ds, first) + TreePages(d.sub, first + |DirPages(ds, first)|)
    ensures DirNodes(ds + [d], first) == DirNodes(ds, first) + [NodeOf(d, first + |DirPages(ds, first)|)]
  {
    assert (ds + [d])[..|ds|] == ds;
  }

  // ---- reading ----

  /** Follow a `nextOrdinal` chain and put its pages' elements together. */
  function ReadChain(store: map<nat, IndexPage>, ordinal: nat): Option<(seq<DirNode>, seq<EntryRef>)>
    decreases store.Keys
  {
    if ordinal !in store then None
    else
      var page := store[ordinal];
      match page.nextOrdinal
      case None => Some((page.directories, page.entries))
      case Some(next) =>
        assert ordinal in store.Keys && ordinal !in (store - {ordinal}).Keys;
        match ReadChain(store - {ordinal}, next)
        case None => None
        case Some((nodes, entries)) => Some((page.directories + nodes, page.entries + entries))
  }

  /** Rebuild the tree at `ordinal`. A page that names a child at or above its branch's first page
      is malformed. */
  function ReadTree(store: map<nat, IndexPage>, ordinal: nat): Option<Tree>
    decreases ordinal, 1, 0
  {
    match ReadChain(store, ordinal)
    case None => None
    case Some((nodes, entries)) =>
      match ReadDirs(store, nodes, ordinal)
      case None => None
      case Some(dirs) => Some(Tree(dirs, entries))
  }

  function ReadDirs(store: map<nat, IndexPage>, nodes: seq<DirNode>, ordinal: nat): Option<seq<Dir>>
    decreases ordinal, 0, |nodes|
  {
    if nodes == [] then Some([])
    else
      var d := nodes[|nodes| - 1];
      if d.ordinal >= ordinal then None
      else
        match ReadDirs(store, nodes[..|nodes| - 1], ordinal)
        case None => None
        case Some(dirs) =>
          match ReadTree(store, d.ordinal)
          case None => None
          case Some(sub) => Some(dirs + [Dir(d.name, d.path, d.kind, d.caseCount, sub)])
  }

  // ---- reading what was written ----

  ghost predicate StoredAt(store: map<nat, IndexPage>, pages: seq<IndexPage>, first: nat, i: nat)
    requires i < |pages|
  {
    first + i in store && store[first + i] == pages[i]
  }

  ghost predicate Stored(store: map<nat, IndexPage>, pages: seq<IndexPage>, first: nat) {
    forall i: nat {:trigger StoredAt(store, pages, first, i)} ::
      i < |pages| ==> StoredAt(store, pages, first, i)
  }

  lemma StoredParts(store: map<nat, IndexPage>, a: seq<IndexPage>, b: seq<IndexPage>, first: nat)
    requires Stored(store, a + b, first)
    ensures Stored(store, a, first) && Stored(store, b, first + |a|)
  {
    forall i: nat | i < |a|
      ensures StoredAt(store, a, first, i)
    {
      assert StoredAt(store, a + b, first, i);
    }
    forall i: nat {:trigger StoredAt(store, b, first + |a|, i)} | i < |b|
      ensures StoredAt(store, b, first + |a|, i)
    {
      assert StoredAt(store, a + b, first, |a| + i);
    }
  }

  lemma StoredRest(store: map<nat, IndexPage>, page: IndexPage, rest: seq<IndexPage>, ordinal: nat)
    requires Stored(store, [page] + rest, ordinal)
    ensures ordinal in store && store[ordinal] == page
    ensures Stored(store - {ordinal}, rest, ordinal + 1)
  {
    StoredParts(store, [page], rest, ordinal);
    assert StoredAt(store, [page], ordinal, 0);
    forall i: nat {:trigger StoredAt(store - {ordinal}, rest, ordinal + 1, i)} | i < |rest|
      ensures StoredAt(store - {ordinal}, rest, ordinal + 1, i)
    {
      assert StoredAt(store, rest, ordinal + 1, i);
    }
  }

  /** One page takes exactly the next 100 elements of the concatenation. */
  lemma PageTakesNext(nodes: seq<DirNode>, entries: seq<EntryRef>, start: nat, ordinal: nat)
    requires start <= |nodes| + |entries|
    ensures
      var page := PageAt(nodes, entries, start, ordinal);
      var mid := Min(|nodes| + |entries|, start + PAGE_SIZE);
      && nodes[Min(start, |nodes|)..] == page.directories + nodes[Min(mid, |nodes|)..]
      && entries[Excess(start, |nodes|)..] == page.entries + entries[Excess(mid, |nodes|)..]
  {
  }

  /** The pages of one branch, read as a chain, give back the unread elements in order. */
  lemma {:induction false} ReadOwnPages(
      store: map<nat, IndexPage>, nodes: seq<DirNode>, entries: seq<EntryRef>, start: nat, ordinal: nat)
    requires start <= |nodes| + |entries|
    requires Stored(store, OwnPages(nodes, entries, start, ordinal), ordinal)
    ensures ReadChain(store, ordinal)
         == Some((nodes[Min(start, |nodes|)..], entries[Excess(start, |nodes|)..]))
    decreases |nodes| + |entries| - start
  {
    var page := PageAt(nodes, entries, start, ordinal);
    PageTakesNext(nodes, entries, start, ordinal);
    if start + PAGE_SIZE < |nodes| + |entries| {
      StoredRest(store, page, OwnPages(nodes, entries, start + PAGE_SIZE, ordinal + 1), ordinal);
      ReadOwnPages(store - {ordinal}, nodes, entries, start + PAGE_SIZE, ordinal + 1);
    } else {
      StoredRest(store, page, [], ordinal);
      assert [page] + [] == [page];
      assert nodes[Min(start, |nodes|)..] == page.directories && entries[Excess(start, |nodes|)..] == page.entries;
    }
  }

  /** Reading from the ordinal that writing returned rebuilds exactly the written tree, whatever
      other parts the store holds. */
  lemma {:induction false} ReadWrittenTree(store: map<nat, IndexPage>, t: Tree, first: nat)
    requires Stored(store, TreePages(t, first), first)
    ensures ReadTree(store, RootOrdinal(t, first)) == Some(t)
    decreases t, 1
  {
    var sub := DirPages(t.dirs, first);
    var nodes := DirNodes(t.dirs, first);
    var root := RootOrdinal(t, first);
    StoredParts(store, sub, OwnPages(nodes, t.entries, 0, root), first);
    ReadOwnPages(store, nodes, t.entries, 0, root);
    assert nodes[0..] == nodes && t.entries[0..] == t.entries;
    ReadWrittenDirs(store, t.dirs, first, root);
  }

  lemma {:induction false} ReadWrittenDirs(store: map<nat, IndexPage>, ds: seq<Dir>, first: nat, root: nat)
    requires Stored(store, DirPages(ds, first), first)
    requires first + |DirPages(ds, first)| <= root
    ensures ReadDirs(store, DirNodes(ds, first), root) == Some(ds)
    decreases ds, 0
  {
    if ds != [] {
      var before := ds[..|ds| - 1];
      var d := ds[|ds| - 1];
      var pages := DirPages(before, first);
      var last := TreePages(d.sub, first + |pages|);
      assert DirPages(ds, first) == pages + last;
      assert DirNodes(ds, first) == DirNodes(before, first) + [NodeOf(d, first + |pages|)];
      assert ds == before + [d];
      hide DirPages, DirNodes, TreePages, Stored, ReadDirs, ReadTree;
      StoredParts(store, pages, last, first);
      ReadWrittenDirs(store, before, first, root);
      ReadWrittenTree(store, d.sub, first + |pages|);
      RootInside(d.sub, first + |pages|);
      ReadDirsLast(store, DirNodes(before, first), NodeOf(d, first + |pages|), root, before, d.sub);
    }
  }

  lemma ReadDirsLast(
      store: map<nat, IndexPage>, nodes: seq<DirNode>, d: DirNode, root: nat, dirs: seq<Dir>, sub: Tree)
    requires d.ordinal < root
    requires ReadDirs(store, nodes, root) == Some(dirs)
    requires ReadTree(store, d.ordinal) == Some(sub)
    ensures ReadDirs(store, nodes + [d], root)
         == Some(dirs + [Dir(d.name, d.path, d.kind, d.caseCount, sub)])
  {
    assert (nodes + [d])[..|nodes|] == nodes;
  }

  // ---- what every written page looks like ----

  /** A page holds at most 100 elements, is full when another follows, is chained only to the page
      right after it, and names only children written before it. */
  ghost predicate WellShaped(page: IndexPage, ordinal: nat) {
    && |page.directories| + |page.entries| <= 100
    && (page.nextOrdinal.Some? ==>
          page.nextOrdinal.value == ordinal + 1 && |page.directories| + |page.entries| == 100)
    && (forall d :: d in page.directories ==> d.ordinal < ordinal)
  }

  ghost predicate AllWellShaped(pages: seq<IndexPage>, first: nat) {
    forall i :: 0 <= i < |pages| ==> WellShaped(pages[i], first + i)
  }

  lemma WellShapedConcat(a: seq<IndexPage>, b: seq<IndexPage>, first: nat)
    requires AllWellShaped(a, first) && AllWellShaped(b, first + |a|)
    ensures AllWellShaped(a + b, first)
  {
    forall i | 0 <= i < |a + b|
      ensures WellShaped((a + b)[i], first + i)
    {
      if i >= |a| {
        assert WellShaped(b[i - |a|], first + |a| + (i - |a|));
      }
    }
  }

  lemma {:induction false} OwnPagesWellShaped(
      nodes: seq<DirNode>, entries: seq<EntryRef>, start: nat, ordinal: nat)
    requires start <= |nodes| + |entries|
    requires forall d :: d in nodes ==> d.ordinal < ordinal
    ensures AllWellShaped(OwnPages(nodes, entries, start, ordinal), ordinal)
    decreases |nodes| + |entries| - start
  {
    var page := PageAt(nodes, entries, start, ordinal);
    assert AllWellShaped([page], ordinal);
    if start + PAGE_SIZE < |nodes| + |entries| {
      OwnPagesWellShaped(nodes, entries, start + PAGE_SIZE, ordinal + 1);
      WellShapedConcat([page], OwnPages(nodes, entries, start + PAGE_SIZE, ordinal + 1), ordinal);
    }
  }

  lemma {:induction false} DirNodesBelow(ds: seq<Dir>, first: nat)
    ensures forall d :: d in DirNodes(ds, first) ==> first <= d.ordinal < first + |DirPages(ds, first)|
    decreases ds
  {
    if ds != [] {
      var before, d := ds[..|ds| - 1], ds[|ds| - 1];
      DirNodesBelow(before, first);
      assert ds == before + [d];
      DirPagesSnoc(before, d, first);
      RootInside(d.sub, first + |DirPages(before, first)|);
    }
  }

  lemma RootInside(t: Tree, first: nat)
    ensures first <= RootOrdinal(t, first) < first + |TreePages(t, first)|
  {
  }

  /** Every page of a written tree is well shaped. */
  lemma {:induction false} TreePagesWellShaped(t: Tree, first: nat)
    ensures AllWellShaped(TreePages(t, first), first)
    decreases t, 1
  {
    var sub := DirPages(t.dirs, first);
    var nodes := DirNodes(t.dirs, first);
    DirPagesWellShaped(t.dirs, first);
    DirNodesBelow(t.dirs, first);
    OwnPagesWellShaped(nodes, t.entries, 0, first + |sub|);
    WellShapedConcat(sub, OwnPages(nodes, t.entries, 0, first + |sub|), first);
  }

  lemma {:induction false} DirPagesWellShaped(ds: seq<Dir>, first: nat)
    ensures AllWellShaped(DirPages(ds, first), first)
    decreases ds, 0
  {
    if ds != [] {
      var before := DirPages(ds[..|ds| - 1], first);
      DirPagesWellShaped(ds[..|ds| - 1], first);
      TreePagesWellShaped(ds[|ds| - 1].sub, first + |before|);
      WellShapedConcat(before, TreePages(ds[|ds| - 1].sub, first + |before|), first);
    }
  }
}
