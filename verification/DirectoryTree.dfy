/** What a sequence of `add` calls means, directory by directory. */
module DirectoryTree {
  import opened Sorting
  import opened DirectoryPages

  datatype Entry = Entry(ordinal: nat, index: nat, kind: Kind, name: string)

  // The `kind:name` key of a child in its parent's map.
  datatype Key = Key(kind: Kind, name: string)

  datatype Added = Added(segments: seq<string>, entry: Entry)

  function Keys(a: Added): (r: seq<Key>)
    ensures |r| == |a.segments|
  {
    seq(|a.segments|, i requires 0 <= i < |a.segments| => Key(a.entry.kind, a.segments[i]))
  }

  predicate Under(a: Added, p: seq<Key>) {
    p <= Keys(a)
  }

  predicate Below(a: Added, p: seq<Key>) {
    p < Keys(a)
  }

  function CountUnder(log: seq<Added>, p: seq<Key>): nat {
    if log == [] then 0
    else CountUnder(log[..|log| - 1], p) + if Under(log[|log| - 1], p) then 1 else 0
  }

  function EntriesAt(log: seq<Added>, p: seq<Key>): seq<Entry> {
    if log == [] then []
    else
      EntriesAt(log[..|log| - 1], p) +
      if Keys(log[|log| - 1]) == p then [log[|log| - 1].entry] else []
  }

  /** Sub-directories in the order of their first use. */
  function ChildKeys(log: seq<Added>, p: seq<Key>): seq<Key> {
    if log == [] then []
    else
      var before := ChildKeys(log[..|log| - 1], p);
      var last := log[|log| - 1];
      if Below(last, p) && Keys(last)[|p|] !in before then before + [Keys(last)[|p|]] else before
  }

  function Depth(log: seq<Added>): nat {
    if log == [] then 0
    else
      var before := Depth(log[..|log| - 1]);
      if |log[|log| - 1].segments| > before then |log[|log| - 1].segments| else before
  }

  function PathOf(p: seq<Key>): string {
    if p == [] then ""
    else
      var parent := PathOf(p[..|p| - 1]);
      if parent != "" then parent + "/" + p[|p| - 1].name else p[|p| - 1].name
  }

  function Ref(e: Entry): EntryRef {
    EntryRef(e.ordinal, e.index, e.kind)
  }

  function Refs(es: seq<Entry>): (r: seq<EntryRef>)
    ensures |r| == |es|
  {
    seq(|es|, i requires 0 <= i < |es| => Ref(es[i]))
  }

  // `localeCompare(a, b) <= 0`, taken as an arbitrary relation on names.
  type NameOrder = (string, string) -> bool

  function KeysBy(le: NameOrder): (Key, Key) -> bool {
    (a: Key, b: Key) => le(a.name, b.name)
  }

  function EntriesBy(le: NameOrder): (Entry, Entry) -> bool {
    (a: Entry, b: Entry) => le(a.name, b.name)
  }

  function SortedKeys(ks: seq<Key>, le: NameOrder): seq<Key> {
    StableSort(ks, KeysBy(le))
  }

  function SortedEntries(es: seq<Entry>, le: NameOrder): seq<Entry> {
    StableSort(es, EntriesBy(le))
  }

  lemma SortedKeysMembers(ks: seq<Key>, le: NameOrder)
    ensures forall k :: k in SortedKeys(ks, le) <==> k in ks
  {
    SameMembers(ks, KeysBy(le));
  }

  // ---- the tree a log of additions stands for ----

  lemma {:induction false} ChildKeysDepth(log: seq<Added>, p: seq<Key>)
    ensures forall k :: k in ChildKeys(log, p) ==> |p| < Depth(log)
  {
    if log != [] {
      ChildKeysDepth(log[..|log| - 1], p);
    }
  }

  function TreeAt(log: seq<Added>, p: seq<Key>, le: NameOrder): Tree
    requires |p| <= Depth(log)
    decreases Depth(log) - |p|, 1, 0
  {
    var keys := SortedKeys(ChildKeys(log, p), le);
    assert forall k :: k in keys ==> k in ChildKeys(log, p) by {
      SortedKeysMembers(ChildKeys(log, p), le);
    }
    Tree(DirsAt(log, p, keys, le), Refs(SortedEntries(EntriesAt(log, p), le)))
  }

  function DirsAt(log: seq<Added>, p: seq<Key>, keys: seq<Key>, le: NameOrder): (r: seq<Dir>)
    requires |p| <= Depth(log)
    requires forall k :: k in keys ==> k in ChildKeys(log, p)
    ensures |r| == |keys|
    decreases Depth(log) - |p|, 0, |keys|
  {
    if keys == [] then []
    else
      var k := keys[|keys| - 1];
      assert |p| < Depth(log) by { ChildKeysDepth(log, p); assert k in keys; }
      DirsAt(log, p, keys[..|keys| - 1], le) + [DirAt(log, p, k, le)]
  }

  function DirAt(log: seq<Added>, p: seq<Key>, k: Key, le: NameOrder): Dir
    requires |p| < Depth(log)
    decreases Depth(log) - |p|, 0, 0
  {
    Dir(k.name, PathOf(p + [k]), k.kind, CountUnder(log, p + [k]), TreeAt(log, p + [k], le))
  }

  lemma {:induction false} DirsAtEach(log: seq<Added>, p: seq<Key>, keys: seq<Key>, le: NameOrder)
    requires keys != [] ==> |p| < Depth(log)
    requires |p| <= Depth(log)
    requires forall k :: k in keys ==> k in ChildKeys(log, p)
    ensures forall i :: 0 <= i < |keys| ==> DirsAt(log, p, keys, le)[i] == DirAt(log, p, keys[i], le)
  {
    if keys != [] {
      DirsAtEach(log, p, keys[..|keys| - 1], le);
    }
  }

  /** The sub-directories of a tree, one for each key in sorted order. */
  lemma TreeDirs(log: seq<Added>, p: seq<Key>, le: NameOrder)
    requires |p| <= Depth(log)
    ensures
      var keys, dirs := SortedKeys(ChildKeys(log, p), le), TreeAt(log, p, le).dirs;
      && |dirs| == |keys| && (keys != [] ==> |p| < Depth(log))
      && (forall i :: 0 <= i < |keys| ==> keys[i] in ChildKeys(log, p) && dirs[i] == DirAt(log, p, keys[i], le))
  {
    var keys := SortedKeys(ChildKeys(log, p), le);
    SortedKeysMembers(ChildKeys(log, p), le);
    ChildKeysDepth(log, p);
    assert keys != [] ==> keys[0] in ChildKeys(log, p);
    DirsAtEach(log, p, keys, le);
  }

  // ---- how one more addition changes it ----

  lemma Snoc(log: seq<Added>, a: Added, p: seq<Key>)
    ensures CountUnder(log + [a], p) == CountUnder(log, p) + if Under(a, p) then 1 else 0
    ensures EntriesAt(log + [a], p) == EntriesAt(log, p) + if Keys(a) == p then [a.entry] else []
    ensures ChildKeys(log + [a], p)
         == if Below(a, p) && Keys(a)[|p|] !in ChildKeys(log, p)
            then ChildKeys(log, p) + [Keys(a)[|p|]] else ChildKeys(log, p)
  {
    assert (log + [a])[..|log|] == log;
  }

  /** A directory with nothing under it has no entries and no sub-directories. */
  lemma {:induction false} NothingUnder(log: seq<Added>, p: seq<Key>)
    requires CountUnder(log, p) == 0
    ensures EntriesAt(log, p) == [] && ChildKeys(log, p) == []
  {
    if log != [] {
      NothingUnder(log[..|log| - 1], p);
    }
  }

  lemma {:induction false} ChildKeysDistinct(log: seq<Added>, p: seq<Key>)
    ensures NoDuplicates(ChildKeys(log, p))
  {
    if log != [] {
      ChildKeysDistinct(log[..|log| - 1], p);
    }
  }

  lemma UnderChild(a: Added, p: seq<Key>, k: Key)
    ensures Under(a, p + [k]) <==> Below(a, p) && Keys(a)[|p|] == k
  {
    if Below(a, p) && Keys(a)[|p|] == k {
      assert Keys(a)[..|p| + 1] == p + [k];
    }
    if Under(a, p + [k]) {
      assert Keys(a)[..|p| + 1] == p + [k];
      assert p == (p + [k])[..|p|] == Keys(a)[..|p|];
    }
  }

  /** A key is a sub-directory exactly when something was added under it. */
  lemma {:induction false} ChildIffUnder(log: seq<Added>, p: seq<Key>, k: Key)
    ensures k in ChildKeys(log, p) <==> CountUnder(log, p + [k]) > 0
  {
    if log != [] {
      ChildIffUnder(log[..|log| - 1], p, k);
      UnderChild(log[|log| - 1], p, k);
    }
  }

  lemma {:induction false} RootCount(log: seq<Added>)
    ensures CountUnder(log, []) == |log|
  {
    if log != [] {
      RootCount(log[..|log| - 1]);
    }
  }

  // ---- what a directory lists ----

  lemma ListedKeys(log: seq<Added>, p: seq<Key>, le: NameOrder)
    requires TotalPreorder(le)
    ensures var keys := SortedKeys(ChildKeys(log, p), le);
      && (forall i, j :: 0 <= i < j < |keys| ==> le(keys[i].name, keys[j].name) && keys[i] != keys[j])
      && (forall k :: k in keys <==> CountUnder(log, p + [k]) > 0)
  {
    var children, order := ChildKeys(log, p), KeysBy(le);
    assert forall x, y :: order(x, y) == le(x.name, y.name);
    StableSortSorted(children, order);
    ChildKeysDistinct(log, p);
    StableSortDistinct(children, order);
    SortedKeysMembers(children, le);
    forall k ensures k in children <==> CountUnder(log, p + [k]) > 0 {
      ChildIffUnder(log, p, k);
    }
  }

  /** The key of a sub-directory as it is listed. */
  function DirKey(d: Dir): Key {
    Key(d.kind, d.name)
  }

  lemma ListedDir(log: seq<Added>, p: seq<Key>, k: Key, le: NameOrder)
    requires |p| < Depth(log)
    ensures var d := DirAt(log, p, k, le);
      DirKey(d) == k && d.caseCount == CountUnder(log, p + [k]) && d.path == PathOf(p + [k])
  {
  }

  /** The sub-directories are listed in name order, one for every key something was added under, each
      with its path and the number of entries below it. */
  lemma DirsListed(log: seq<Added>, p: seq<Key>, le: NameOrder)
    requires |p| <= Depth(log) && TotalPreorder(le)
    ensures var dirs := TreeAt(log, p, le).dirs;
      && (forall i, j :: 0 <= i < j < |dirs| ==> le(dirs[i].name, dirs[j].name) && DirKey(dirs[i]) != DirKey(dirs[j]))
      && (forall k :: CountUnder(log, p + [k]) > 0 <==> exists i :: 0 <= i < |dirs| && DirKey(dirs[i]) == k)
      && (forall i :: 0 <= i < |dirs| ==>
            && dirs[i].caseCount == CountUnder(log, p + [DirKey(dirs[i])])
            && dirs[i].path == PathOf(p + [DirKey(dirs[i])]))
  {
    hide TreeAt, DirsAt, DirAt, ChildKeys, CountUnder, PathOf;
    var dirs, keys := TreeAt(log, p, le).dirs, SortedKeys(ChildKeys(log, p), le);
    TreeDirs(log, p, le);
    ListedKeys(log, p, le);
    forall i | 0 <= i < |dirs|
      ensures DirKey(dirs[i]) == keys[i] && dirs[i].caseCount == CountUnder(log, p + [keys[i]])
      ensures dirs[i].path == PathOf(p + [keys[i]])
    {
      ListedDir(log, p, keys[i], le);
    }
    forall k ensures k in keys <==> exists i :: 0 <= i < |dirs| && DirKey(dirs[i]) == k {
      if k in keys {
        var i :| 0 <= i < |keys| && keys[i] == k;
        assert DirKey(dirs[i]) == k;
      }
    }
  }
}
