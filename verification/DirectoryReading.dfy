/** What a reader of the written parts sees, and why nothing is lost on the way. */
module DirectoryReading {
  import opened Options
  import opened Sorting
  import opened DirectoryPages
  import opened DirectoryTree
  import opened ReadModelParts

  /** The index pages among the written parts, by part number. */
  function StoreOf(calls: seq<Call>): map<nat, IndexPage> {
    if calls == [] then map[]
    else
      var last := calls[|calls| - 1];
      match last.part
      case IndexPart(page) => StoreOf(calls[..|calls| - 1])[last.ordinal := page]
      case _ => StoreOf(calls[..|calls| - 1])
  }

  lemma {:induction false} IndexCallsStored(before: seq<Call>, pages: seq<IndexPage>, first: nat)
    ensures Stored(StoreOf(before + IndexCalls(pages, first)), pages, first)
  {
    if pages != [] {
      var n := |pages| - 1;
      IndexCallsStored(before, pages[..n], first);
      assert pages == pages[..n] + [pages[n]];
      IndexCallsSnoc(pages[..n], pages[n], first);
      Assoc(before, IndexCalls(pages[..n], first), [Call(first + n, IndexPart(pages[n]))]);
      hide Stored, StoreOf, IndexCalls;
      OneMoreStored(before + IndexCalls(pages[..n], first), pages[..n], pages[n], first);
    }
  }

  lemma OneMoreStored(calls: seq<Call>, pages: seq<IndexPage>, page: IndexPage, first: nat)
    requires Stored(StoreOf(calls), pages, first)
    ensures Stored(StoreOf(calls + [Call(first + |pages|, IndexPart(page))]), pages + [page], first)
  {
    var all := calls + [Call(first + |pages|, IndexPart(page))];
    assert all[..|all| - 1] == calls;
    assert StoreOf(all) == StoreOf(calls)[first + |pages| := page];
    hide StoreOf, Stored;
    StoredSnoc(StoreOf(calls), pages, page, first);
  }

  lemma StoredSnoc(store: map<nat, IndexPage>, pages: seq<IndexPage>, page: IndexPage, first: nat)
    requires Stored(store, pages, first)
    ensures Stored(store[first + |pages| := page], pages + [page], first)
  {
    forall i: nat {:trigger StoredAt(store[first + |pages| := page], pages + [page], first, i)} | i < |pages| + 1
      ensures StoredAt(store[first + |pages| := page], pages + [page], first, i)
    {
      if i < |pages| { assert StoredAt(store, pages, first, i); }
    }
  }

  /** Whatever was written before it, a tree written after `before` is read back unchanged from the
      ordinal `write` returned. */
  lemma WriteThenRead(before: seq<Call>, log: seq<Added>, le: NameOrder, first: nat)
    ensures
      var t := TreeAt(log, [], le);
      ReadTree(StoreOf(before + IndexCalls(TreePages(t, first), first)), RootOrdinal(t, first)) == Some(t)
  {
    var t := TreeAt(log, [], le);
    IndexCallsStored(before, TreePages(t, first), first);
    ReadWrittenTree(StoreOf(before + IndexCalls(TreePages(t, first), first)), t, first);
  }

  // ---- no entry is lost or doubled ----

  function AllEntries(t: Tree): multiset<EntryRef>
    decreases t, 1
  {
    multiset(t.entries) + DirsEntries(t.dirs)
  }

  function DirsEntries(ds: seq<Dir>): multiset<EntryRef>
    decreases ds, 0
  {
    if ds == [] then multiset{}
    else DirsEntries(ds[..|ds| - 1]) + AllEntries(ds[|ds| - 1].sub)
  }

  function RefsUnder(log: seq<Added>, p: seq<Key>): multiset<EntryRef> {
    if log == [] then multiset{}
    else
      var last := log[|log| - 1];
      RefsUnder(log[..|log| - 1], p) + if Under(last, p) then multiset{Ref(last.entry)} else multiset{}
  }

  function RefsIn(log: seq<Added>, p: seq<Key>, ks: set<Key>): multiset<EntryRef> {
    if log == [] then multiset{}
    else
      var last := log[|log| - 1];
      RefsIn(log[..|log| - 1], p, ks) +
      if Below(last, p) && Keys(last)[|p|] in ks then multiset{Ref(last.entry)} else multiset{}
  }

  lemma {:induction false} RefsInMore(log: seq<Added>, p: seq<Key>, ks: set<Key>, k: Key)
    requires k !in ks
    ensures RefsIn(log, p, ks + {k}) == RefsIn(log, p, ks) + RefsUnder(log, p + [k])
  {
    if log != [] {
      RefsInMore(log[..|log| - 1], p, ks, k);
      var last := log[|log| - 1];
      assert Under(last, p + [k]) <==> Below(last, p) && Keys(last)[|p|] == k by {
        UnderChild(last, p, k);
      }
    }
  }

  lemma {:induction false} RefsInNone(log: seq<Added>, p: seq<Key>)
    ensures RefsIn(log, p, {}) == multiset{}
  {
    if log != [] {
      RefsInNone(log[..|log| - 1], p);
    }
  }

  lemma RefsSnoc(es: seq<Entry>, e: Entry)
    ensures Refs(es + [e]) == Refs(es) + [Ref(e)]
  {
  }

  /** Entries below a directory are those in it and those below one of its sub-directories. */
  lemma {:induction false} SplitRefs(log: seq<Added>, p: seq<Key>, ks: set<Key>)
    requires forall k :: k in ChildKeys(log, p) ==> k in ks
    ensures RefsUnder(log, p) == multiset(Refs(EntriesAt(log, p))) + RefsIn(log, p, ks)
  {
    if log != [] {
      var init, last := log[..|log| - 1], log[|log| - 1];
      assert log == init + [last];
      Snoc(init, last, p);
      SplitRefs(init, p, ks);
      RefsSnoc(EntriesAt(init, p), last.entry);
      if Under(last, p) {
        if Keys(last) == p {
          assert EntriesAt(log, p) == EntriesAt(init, p) + [last.entry];
        } else {
          assert Below(last, p) && Keys(last)[|p|] in ChildKeys(log, p);
        }
      }
      if Keys(last) != p {
        assert EntriesAt(log, p) == EntriesAt(init, p);
      }
    }
  }

  lemma {:induction false} SortedRefs(es: seq<Entry>, le: NameOrder)
    ensures multiset(Refs(SortedEntries(es, le))) == multiset(Refs(es))
  {
    if es != [] {
      hide SortedEntries, Refs;
      SortedRefs(es[1..], le);
      InsertRefs(es[0], SortedEntries(es[1..], le), le);
      SortedEntriesCons(es, le);
      RefsCons(es);
    }
  }

  lemma SortedEntriesCons(es: seq<Entry>, le: NameOrder)
    requires es != []
    ensures SortedEntries(es, le) == Insert(es[0], SortedEntries(es[1..], le), EntriesBy(le))
  {
  }

  lemma RefsCons(es: seq<Entry>)
    requires es != []
    ensures Refs(es) == [Ref(es[0])] + Refs(es[1..])
  {
  }

  lemma {:induction false} InsertRefs(e: Entry, es: seq<Entry>, le: NameOrder)
    ensures multiset(Refs(Insert(e, es, EntriesBy(le)))) == multiset{Ref(e)} + multiset(Refs(es))
  {
    var r := Insert(e, es, EntriesBy(le));
    RefsCons(r);
    if es == [] || EntriesBy(le)(e, es[0]) {
      assert r == [e] + es && r[1..] == es;
    } else {
      InsertRefs(e, es[1..], le);
      assert r == [es[0]] + Insert(e, es[1..], EntriesBy(le)) && r[1..] == Insert(e, es[1..], EntriesBy(le));
      RefsCons(es);
    }
    hide Refs, Ref, Insert;
  }

  function KeySet(ks: seq<Key>): set<Key> {
    set k | k in ks
  }

  lemma KeySetLast(ks: seq<Key>)
    requires ks != []
    ensures KeySet(ks) == KeySet(ks[..|ks| - 1]) + {ks[|ks| - 1]}
  {
    assert ks == ks[..|ks| - 1] + [ks[|ks| - 1]];
  }

  lemma {:induction false} DirsConserve(log: seq<Added>, p: seq<Key>, keys: seq<Key>, le: NameOrder)
    requires |p| < Depth(log) && NoDuplicates(keys)
    requires forall k :: k in keys ==> k in ChildKeys(log, p)
    ensures DirsEntries(DirsAt(log, p, keys, le)) == RefsIn(log, p, KeySet(keys))
    decreases Depth(log) - |p|, 0, |keys|
  {
    if keys == [] {
      RefsInNone(log, p);
      assert KeySet(keys) == {};
    } else {
      var n, k := |keys| - 1, keys[|keys| - 1];
      DirsConserve(log, p, keys[..n], le);
      TreeConserves(log, p + [k], le);
      RefsInMore(log, p, KeySet(keys[..n]), k);
      KeySetLast(keys);
    }
  }

  /** The tree holds exactly the added entries, each once. */
  lemma {:induction false} TreeConserves(log: seq<Added>, p: seq<Key>, le: NameOrder)
    requires |p| <= Depth(log)
    ensures AllEntries(TreeAt(log, p, le)) == RefsUnder(log, p)
    decreases Depth(log) - |p|, 1, 0
  {
    var keys := SortedKeys(ChildKeys(log, p), le);
    SortedKeysMembers(ChildKeys(log, p), le);
    ChildKeysDistinct(log, p);
    StableSortDistinct(ChildKeys(log, p), KeysBy(le));
    SortedRefs(EntriesAt(log, p), le);
    SplitRefs(log, p, KeySet(keys));
    if keys == [] {
      RefsInNone(log, p);
      assert KeySet(keys) == {};
    } else {
      ChildKeysDepth(log, p);
      assert keys[0] in ChildKeys(log, p);
      DirsConserve(log, p, keys, le);
    }
  }

  /** A directory's `caseCount` is the number of entries in its sub-tree. */
  lemma {:induction false} CountIsSize(log: seq<Added>, p: seq<Key>)
    ensures |RefsUnder(log, p)| == CountUnder(log, p)
  {
    if log != [] {
      CountIsSize(log[..|log| - 1], p);
    }
  }
}
