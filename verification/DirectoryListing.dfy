/** Under which directories a snapshot lists its items. */
module DirectoryListing {
  import opened Options
  import opened Sorting
  import opened Chunking
  import opened DirectoryPages
  import opened DirectoryTree
  import opened DirectoryReading
  import opened DirectorySnapshotReading
  import opened ReadModelParts
  import Cases = CaseDirectoryBuilder
  import Suites = SuiteDirectoryBuilder

  // ---- the pieces of a path ----

  predicate NoSlash(s: string) {
    forall k :: 0 <= k < |s| ==> s[k] != '/'
  }

  /** The pieces with a slash between any two of them. */
  function Joined(pieces: seq<string>): string {
    if pieces == [] then ""
    else if |pieces| == 1 then pieces[0]
    else pieces[0] + ("/" + Joined(pieces[1..]))
  }

  /** `pieces` is what the slashes of the path leave between them. */
  predicate PiecesOf(path: string, pieces: seq<string>) {
    pieces != [] && (forall i :: 0 <= i < |pieces| ==> NoSlash(pieces[i])) && Joined(pieces) == path
  }

  /** The pieces that are not empty. */
  function Named(pieces: seq<string>): seq<string> {
    if pieces == [] then []
    else Named(pieces[..|pieces| - 1]) + if |pieces[|pieces| - 1]| > 0 then [pieces[|pieces| - 1]] else []
  }

  lemma {:induction false} SplitPieces(path: string)
    ensures PiecesOf(path, Cases.Split(path))
  {
    if path != "" {
      var rest := Cases.Split(path[1..]);
      SplitPieces(path[1..]);
      if path[0] == '/' {
        assert ([""] + rest)[1..] == rest;
      } else {
        HeadGrows(path[0], rest);
      }
    }
  }

  lemma HeadGrows(c: char, rest: seq<string>)
    requires rest != [] && c != '/' && forall i :: 0 <= i < |rest| ==> NoSlash(rest[i])
    ensures var ps := [[c] + rest[0]] + rest[1..];
      && Joined(ps) == [c] + Joined(rest) && forall i :: 0 <= i < |ps| ==> NoSlash(ps[i])
  {
    var ps := [[c] + rest[0]] + rest[1..];
    assert ps[1..] == rest[1..];
    Assoc([c], rest[0], "/" + Joined(rest[1..]));
    assert forall i :: 0 < i < |ps| ==> ps[i] == rest[i];
  }

  lemma SlashFree(head: string, rest: string)
    requires NoSlash(head)
    ensures head != "" ==> (head + rest)[0] != '/'
  {
    assert head != "" ==> (head + rest)[0] == head[0];
  }

  /** A path has only one such sequence of pieces. */
  lemma {:induction false} PiecesUnique(path: string, pieces: seq<string>)
    requires PiecesOf(path, pieces)
    ensures pieces == Cases.Split(path)
    decreases |path|
  {
    var head, tail := pieces[0], pieces[1..];
    assert path == head + if tail == [] then "" else "/" + Joined(tail);
    SlashFree(head, if tail == [] then "" else "/" + Joined(tail));
    if path == "" {
      assert head == "" && tail == [];
    } else if path[0] == '/' {
      assert tail != [] && path[1..] == Joined(tail);
      PiecesUnique(path[1..], tail);
    } else {
      assert head != "";
      var less := [head[1..]] + tail;
      assert less[1..] == tail && head == [path[0]] + head[1..];
      assert path[1..] == Joined(less);
      assert NoSlash(less[0]) && forall i :: 0 < i < |less| ==> less[i] == pieces[i];
      PiecesUnique(path[1..], less);
    }
  }

  lemma {:induction false} NamedConcat(a: seq<string>, b: seq<string>)
    ensures Named(a + b) == Named(a) + Named(b)
  {
    if b == [] {
      ConcatNone(a);
    } else {
      NamedConcat(a, b[..|b| - 1]);
      FrontOfConcat(a, b);
    }
  }

  lemma {:induction false} NamedSegments(pieces: seq<string>)
    ensures Cases.NonEmpty(pieces) == Named(pieces)
    ensures forall i :: 0 <= i < |Named(pieces)| ==> Named(pieces)[i] != ""
  {
    if pieces != [] {
      NamedSegments(pieces[1..]);
      NamedConcat([pieces[0]], pieces[1..]);
      assert pieces == [pieces[0]] + pieces[1..];
      assert [pieces[0]][..0] == [] && Named([]) == [];
    }
  }

  // ---- walking a tree ----

  /** The name under which the item behind a reference is shown. */
  function NameAt(calls: seq<Call>, r: EntryRef): string {
    if r.ordinal >= |calls| then "" else
      match calls[r.ordinal].part
      case CasePart(items, outcomes) => if r.index < |items| then items[r.index].displayName else ""
      case SuitePart(members, ddtItems) =>
        if r.kind == Case then if r.index < |members| then members[r.index].displayName else ""
        else if r.index < |ddtItems| then ddtItems[r.index].caseId else ""
      case IndexPart(page) => ""
  }

  ghost predicate InNameOrder(calls: seq<Call>, entries: seq<EntryRef>, le: NameOrder) {
    forall i, j :: 0 <= i < j < |entries| ==> le(NameAt(calls, entries[i]), NameAt(calls, entries[j]))
  }

  /** From a directory that stands for the first `d` names, one leads down through a directory for
    * each further name, with its path, to one that lists the reference among its own entries, and
    * lists these by name. */
  ghost predicate LeadsTo(
      calls: seq<Call>, le: NameOrder, t: Tree, kind: Kind, names: seq<string>, d: nat, r: EntryRef)
    requires d <= |names|
    decreases |names| - d
  {
    if d == |names| then r in t.entries && InNameOrder(calls, t.entries, le)
    else
      exists i :: 0 <= i < |t.dirs|
        && t.dirs[i].name == names[d] && t.dirs[i].kind == kind && t.dirs[i].path == Joined(names[..d + 1])
        && LeadsTo(calls, le, t.dirs[i].sub, kind, names, d + 1, r)
  }

  lemma {:induction false} JoinedSnoc(ps: seq<string>, last: string)
    requires ps != []
    ensures Joined(ps + [last]) == Joined(ps) + ("/" + last)
  {
    if |ps| > 1 {
      JoinedSnoc(ps[1..], last);
      assert (ps + [last])[1..] == ps[1..] + [last];
      Assoc("/", Joined(ps[1..]), "/" + last);
      Assoc(ps[0], "/" + Joined(ps[1..]), "/" + last);
    } else {
      assert (ps + [last])[1..] == [last];
    }
  }

  /** Each name but the last is non-empty, so that the parents have a path. */
  predicate Steps(names: seq<string>) {
    forall i :: 0 <= i < |names| - 1 ==> names[i] != ""
  }

  lemma {:induction false} PathIsJoined(a: Added, d: nat)
    requires 0 < d <= |a.segments| && Steps(a.segments)
    ensures PathOf(Keys(a)[..d]) == Joined(a.segments[..d])
    ensures d < |a.segments| ==> PathOf(Keys(a)[..d]) != ""
  {
    var p, names := Keys(a)[..d], a.segments[..d];
    assert p[d - 1].name == names[d - 1];
    assert p[..d - 1] == Keys(a)[..d - 1] && names == a.segments[..d - 1] + [names[d - 1]];
    if d == 1 {
      assert a.segments[..0] == [] && p[..0] == [];
    } else {
      PathIsJoined(a, d - 1);
      JoinedSnoc(a.segments[..d - 1], names[d - 1]);
    }
  }

  lemma {:induction false} LoggedUnder(log: seq<Added>, i: nat, p: seq<Key>)
    requires i < |log| && Under(log[i], p)
    ensures CountUnder(log, p) > 0 && |p| <= Depth(log)
    ensures Keys(log[i]) == p ==> log[i].entry in EntriesAt(log, p)
  {
    var n := |log| - 1;
    if i < n {
      LoggedUnder(log[..n], i, p);
    }
  }

  lemma {:induction false} EntriesLogged(log: seq<Added>, p: seq<Key>, e: Entry)
    requires e in EntriesAt(log, p)
    ensures exists i :: 0 <= i < |log| && log[i].entry == e
  {
    var n := |log| - 1;
    if e in EntriesAt(log[..n], p) {
      EntriesLogged(log[..n], p, e);
      var i :| 0 <= i < n && log[..n][i].entry == e;
      assert log[i].entry == e;
    } else {
      assert log[n].entry == e;
    }
  }

  /** Every entry of the log is the reference of the item of its name. */
  ghost predicate Titled(calls: seq<Call>, log: seq<Added>) {
    forall i :: 0 <= i < |log| ==> NameAt(calls, Ref(log[i].entry)) == log[i].entry.name
  }

  lemma SortedInOrder(es: seq<Entry>, le: NameOrder)
    requires TotalPreorder(le)
    ensures var sorted := SortedEntries(es, le);
      && (forall i, j :: 0 <= i < j < |sorted| ==> le(sorted[i].name, sorted[j].name))
      && (forall e :: e in sorted <==> e in es)
  {
    var order := EntriesBy(le);
    assert forall x, y :: order(x, y) == le(x.name, y.name);
    StableSortSorted(es, order);
    SameMembers(es, order);
  }

  lemma EntriesInOrder(calls: seq<Call>, log: seq<Added>, p: seq<Key>, le: NameOrder)
    requires Titled(calls, log) && TotalPreorder(le)
    ensures InNameOrder(calls, Refs(SortedEntries(EntriesAt(log, p), le)), le)
    ensures forall e :: e in EntriesAt(log, p) ==> Ref(e) in Refs(SortedEntries(EntriesAt(log, p), le))
  {
    hide EntriesAt, SortedEntries, TotalPreorder, NameAt;
    var es := EntriesAt(log, p);
    var sorted := SortedEntries(es, le);
    SortedInOrder(es, le);
    forall i | 0 <= i < |sorted|
      ensures NameAt(calls, Refs(sorted)[i]) == sorted[i].name
    {
      assert sorted[i] in es;
      EntriesLogged(log, p, sorted[i]);
    }
    forall e | e in es
      ensures Ref(e) in Refs(sorted)
    {
      assert e in sorted;
      var i :| 0 <= i < |sorted| && sorted[i] == e;
      assert Refs(sorted)[i] == Ref(e);
    }
  }

  /** The tree of a log leads to each entry along the segments it was added with. */
  lemma {:induction false} LogLeads(calls: seq<Call>, log: seq<Added>, le: NameOrder, i: nat, d: nat)
    requires i < |log| && d <= |log[i].segments| && Steps(log[i].segments)
    requires Titled(calls, log) && TotalPreorder(le)
    ensures d <= Depth(log)
    ensures LeadsTo(calls, le, TreeAt(log, Keys(log[i])[..d], le), log[i].entry.kind, log[i].segments, d,
                    Ref(log[i].entry))
    decreases |log[i].segments| - d
  {
    var a := log[i];
    var p := Keys(a)[..d];
    LoggedUnder(log, i, p);
    if d == |a.segments| {
      assert p == Keys(a);
      EntriesInOrder(calls, log, p, le);
    } else {
      var k := Keys(a)[d];
      assert p + [k] == Keys(a)[..d + 1];
      LogLeads(calls, log, le, i, d + 1);
      LoggedUnder(log, i, p + [k]);
      PathIsJoined(a, d + 1);
      ChildListed(log, p, k, le);
    }
  }

  lemma ChildListed(log: seq<Added>, p: seq<Key>, k: Key, le: NameOrder)
    requires CountUnder(log, p + [k]) > 0 && |p| + 1 <= Depth(log)
    ensures var dirs := TreeAt(log, p, le).dirs;
      exists j :: 0 <= j < |dirs|
        && dirs[j].name == k.name && dirs[j].kind == k.kind && dirs[j].path == PathOf(p + [k])
        && dirs[j].sub == TreeAt(log, p + [k], le)
  {
    var keys := SortedKeys(ChildKeys(log, p), le);
    ChildIffUnder(log, p, k);
    SortedKeysMembers(ChildKeys(log, p), le);
    TreeDirs(log, p, le);
    var j :| 0 <= j < |keys| && keys[j] == k;
    assert TreeAt(log, p, le).dirs[j] == DirAt(log, p, k, le);
    hide TreeAt, SortedKeys, ChildKeys, PathOf;
  }

  // ---- cases ----

  lemma CasesTitled(catalog: Cases.Catalog, query: Cases.CaseQuery, kept: seq<CaseItem>, le: NameOrder)
    requires Cases.ValidQuery(query)
    ensures Titled(Cases.CallsOf(catalog, kept, query, true, le), Cases.CaseLog(kept, Cases.ChunkSize(query)))
  {
    var log := Cases.CaseLog(kept, Cases.ChunkSize(query));
    CaseSnapshotReadsBack(catalog, query, kept, le);
    forall i | 0 <= i < |log|
      ensures NameAt(Cases.CallsOf(catalog, kept, query, true, le), Ref(log[i].entry)) == log[i].entry.name
    {
      Cases.EntriesResolve(catalog, query, kept, i);
    }
  }

  /** The tree read from the root of the written parts leads along the names to the reference. */
  ghost predicate Lists(
      calls: seq<Call>, root: Option<nat>, le: NameOrder, kind: Kind, names: seq<string>, r: EntryRef)
  {
    && root.Some? && ReadTree(StoreOf(calls), root.value).Some?
    && LeadsTo(calls, le, ReadTree(StoreOf(calls), root.value).value, kind, names, 0, r)
  }

  /** Every case of a snapshot is listed in the directory whose path has the same names as its own,
    * with the part and place at which it is stored. */
  lemma CaseListedAt(catalog: Cases.Catalog, query: Cases.CaseQuery, kept: seq<CaseItem>, le: NameOrder, i: nat,
                     pieces: seq<string>, part: nat, place: nat)
    requires Cases.ValidQuery(query) && TotalPreorder(le)
    requires
      var size := if query.chunkSize.Some? then query.chunkSize.value else 250;
      i == size * part + place && place < size
    requires i < |kept| && PiecesOf(kept[i].directoryPath, pieces)
    ensures
      var calls := Cases.CallsOf(catalog, kept, query, true, le);
      var root := Cases.ManifestOf(kept, query, true, le).rootOrdinal;
      var r := EntryRef(part, place, Case);
      Lists(calls, root, le, Case, Named(pieces), r) && HoldsCase(calls, r, kept[i])
  {
    hide LeadsTo, Named, PiecesOf, Cases.CallsOf, TreeAt, ReadTree, HoldsCase, Titled, TotalPreorder;
    var size := Cases.ChunkSize(query);
    var log := Cases.CaseLog(kept, size);
    DivModUnique(i, size, part, place);
    CaseSnapshotReadsBack(catalog, query, kept, le);
    CasesTitled(catalog, query, kept, le);
    Cases.CaseLogAt(kept, size, i);
    PiecesUnique(kept[i].directoryPath, pieces);
    NamedSegments(pieces);
    LogLeads(Cases.CallsOf(catalog, kept, query, true, le), log, le, i, 0);
    assert Keys(log[i])[..0] == [];
  }

  lemma {:induction false} OutcomesAre(catalog: Cases.Catalog, items: seq<CaseItem>, o: Outcome)
    ensures o in Cases.OutcomesOf(catalog, items) <==>
      exists k :: 0 <= k < |items| && catalog.outcomeOf(items[k].id) == Some(o)
  {
    if items != [] {
      var n := |items| - 1;
      OutcomesAre(catalog, items[..n], o);
      assert forall k :: 0 <= k < n ==> items[..n][k] == items[k];
    }
  }

  lemma {:induction false} OutcomesCount(catalog: Cases.Catalog, items: seq<CaseItem>)
    ensures |Cases.OutcomesOf(catalog, items)| == WithOutcome(catalog, items)
  {
    if items != [] { OutcomesCount(catalog, items[..|items| - 1]); }
  }

  function WithOutcome(catalog: Cases.Catalog, items: seq<CaseItem>): nat {
    if items == [] then 0
    else WithOutcome(catalog, items[..|items| - 1]) + if catalog.outcomeOf(items[|items| - 1].id).Some? then 1 else 0
  }

  /** A part of a case snapshot holds the latest outcome of each of its cases that has one, and no
    * other outcome. */
  lemma PartOutcomes(catalog: Cases.Catalog, query: Cases.CaseQuery, kept: seq<CaseItem>, le: NameOrder, part: nat,
                     o: Outcome)
    requires Cases.ValidQuery(query) && part < Cases.ManifestOf(kept, query, true, le).partCount
    ensures
      var call := Cases.CallsOf(catalog, kept, query, true, le)[part];
      && call.part.CasePart? && |call.part.outcomes| == WithOutcome(catalog, call.part.items)
      && (o in call.part.outcomes <==>
            exists k :: 0 <= k < |call.part.items| && catalog.outcomeOf(call.part.items[k].id) == Some(o))
  {
    var chunks := Cases.DataChunks(kept, query);
    var parts := Cases.PartsOf(catalog, chunks);
    NumberedAt(parts, 0, part);
    Cases.PartsOfAt(catalog, chunks, part);
    OutcomesAre(catalog, chunks[part], o);
    OutcomesCount(catalog, chunks[part]);
  }

  // ---- suites ----

  lemma {:induction false} ChunkLogAt(chunk: seq<Suites.Member>, ordinal: nat, j: nat)
    requires j < |chunk|
    ensures Suites.ChunkLog(chunk, ordinal)[j] == Suites.Addition(chunk[j], ordinal, chunk[..j])
  {
    var n := |chunk| - 1;
    if j < n {
      ChunkLogAt(chunk[..n], ordinal, j);
      assert chunk[..n][..j] == chunk[..j];
    }
  }

  lemma {:induction false} SuiteLogAt(chunks: seq<seq<Suites.Member>>, size: nat, q: nat, j: nat)
    requires q < |chunks| && j < |chunks[q]| && forall c :: 0 <= c < |chunks| - 1 ==> |chunks[c]| == size
    ensures size * q + j < |Suites.SuiteLog(chunks)| && (q == |chunks| - 1 || j < size)
    ensures Suites.SuiteLog(chunks)[size * q + j] == Suites.Addition(chunks[q][j], q, chunks[q][..j])
  {
    var n := |chunks| - 1;
    LogLength(chunks[..n], size);
    if q < n {
      SuiteLogAt(chunks[..n], size, q, j);
    } else {
      ChunkLogAt(chunks[n], n, j);
    }
  }

  lemma {:induction false} LogLength(chunks: seq<seq<Suites.Member>>, size: nat)
    requires forall c :: 0 <= c < |chunks| ==> |chunks[c]| == size
    ensures |Suites.SuiteLog(chunks)| == size * |chunks|
  {
    if chunks != [] {
      var n := |chunks| - 1;
      LogLength(chunks[..n], size);
      OneMoreTimes(size, n);
      hide Suites.ChunkLog;
    }
  }

  lemma OneMoreTimes(size: nat, n: nat)
    ensures size * (n + 1) == size * n + size
  {
  }

  /** How many of these members are of one kind. */
  function OfKind(ms: seq<Suites.Member>, kind: Kind): nat {
    if ms == [] then 0 else OfKind(ms[1..], kind) + if ms[0].Ordinary? == (kind == Case) then 1 else 0
  }

  lemma {:induction false} OfKindSnoc(ms: seq<Suites.Member>, m: Suites.Member, kind: Kind)
    ensures OfKind(ms + [m], kind) == OfKind(ms, kind) + if m.Ordinary? == (kind == Case) then 1 else 0
  {
    if ms == [] {
      assert [m][1..] == [] && [] + [m] == [m];
    } else {
      OfKindSnoc(ms[1..], m, kind);
      assert (ms + [m])[1..] == ms[1..] + [m];
    }
  }

  lemma {:induction false} KindsCounted(ms: seq<Suites.Member>)
    ensures |Suites.ItemsOf(ms)| == OfKind(ms, Case) && |Suites.DdtOf(ms)| == OfKind(ms, Ddt)
  {
    if ms != [] {
      var front, last := ms[..|ms| - 1], ms[|ms| - 1];
      KindsCounted(front);
      OfKindSnoc(front, last, Case);
      OfKindSnoc(front, last, Ddt);
      assert ms == front + [last];
    }
  }

  function KindOf(m: Suites.Member): Kind {
    if m.Ordinary? then Case else Ddt
  }

  /** The one directory a member is listed under: its package, or its SR number. */
  function DirectoryOf(m: Suites.Member): string {
    match m
    case Ordinary(item) => if |item.packageName| > 0 then item.packageName else "默认包"
    case Data(ddt) => ddt.srNum
  }

  lemma MembersTitled(suite: Suites.Suite, query: Suites.SuiteQuery, kept: seq<Suites.Member>, le: NameOrder)
    requires Suites.ValidQuery(query) && query.tree
    ensures Titled(Suites.CallsOf(query, kept, le), Suites.SuiteLog(Chunks(kept, Suites.ChunkSize(query))))
  {
    var chunks := Chunks(kept, Suites.ChunkSize(query));
    var log, calls := Suites.SuiteLog(chunks), Suites.CallsOf(query, kept, le);
    ChunksFlatten(kept, Suites.ChunkSize(query));
    Suites.SameLength(chunks);
    SuiteSnapshotReadsBack(suite, query, kept, le);
    hide Suites.SuiteLog, Suites.CallsOf, ReadsAll, Contiguous, Suites.ManifestOf, Chunks;
    forall i | 0 <= i < |log|
      ensures NameAt(calls, Ref(log[i].entry)) == log[i].entry.name
    {
      Suites.EntriesResolve(chunks, Suites.PartsOf(chunks), i);
    }
  }

  /** The `i`-th member is the `place`-th of its part, which has the kept members before it. */
  lemma PlaceInChunk(kept: seq<Suites.Member>, size: nat, i: nat, part: nat, place: nat)
    requires i < |kept| && i == size * part + place && place < size
    ensures var chunks := Chunks(kept, size);
      part < |chunks| && place < |chunks[part]| && chunks[part][place] == kept[i] &&
        chunks[part][..place] == kept[i - place..i]
  {
    DivModUnique(i, size, part, place);
    ChunkAt(kept, size, i);
    var chunk := Chunks(kept, size)[part];
    forall k | 0 <= k < place
      ensures chunk[k] == kept[i - place + k]
    {
      DivModUnique(i - place + k, size, part, k);
      ChunkAt(kept, size, i - place + k);
    }
  }

  lemma MemberLogged(kept: seq<Suites.Member>, size: nat, i: nat, part: nat, place: nat)
    requires i < |kept| && i == size * part + place && place < size
    ensures var log := Suites.SuiteLog(Chunks(kept, size));
      && i < |log| && log[i].segments == [DirectoryOf(kept[i])]
      && Ref(log[i].entry) == EntryRef(part, OfKind(kept[i - place..i], KindOf(kept[i])), KindOf(kept[i]))
  {
    hide Suites.SuiteLog, Chunks;
    PlaceInChunk(kept, size, i, part, place);
    ChunksFull(kept, size);
    SuiteLogAt(Chunks(kept, size), size, part, place);
    KindsCounted(kept[i - place..i]);
  }

  /** Every member of a suite's snapshot is listed under its package, or under its SR number, with
    * its part and its place among the members of its kind there. */
  lemma MemberListedAt(suite: Suites.Suite, query: Suites.SuiteQuery, kept: seq<Suites.Member>, le: NameOrder, i: nat,
                       part: nat, place: nat)
    requires Suites.ValidQuery(query) && query.tree && TotalPreorder(le) && place <= i < |kept|
    requires
      var size := if query.chunkSize.Some? then query.chunkSize.value else 250;
      i == size * part + place && place < size
    ensures ListsMember(Suites.CallsOf(query, kept, le), Suites.ManifestOf(suite, query, kept, le).tree, le, kept[i],
                        EntryRef(part, OfKind(kept[i - place..i], KindOf(kept[i])), KindOf(kept[i])))
  {
    var size := Suites.ChunkSize(query);
    hide LeadsTo, Suites.CallsOf, TreeAt, ReadTree, HoldsMember, Titled, TotalPreorder, Suites.SuiteLog, Chunks,
      OfKind, DirectoryOf, KindOf, Contiguous, AllEntries;
    var log := Suites.SuiteLog(Chunks(kept, size));
    SuiteSnapshotReadsBack(suite, query, kept, le);
    MembersTitled(suite, query, kept, le);
    MemberLogged(kept, size, i, part, place);
    LogLeads(Suites.CallsOf(query, kept, le), log, le, i, 0);
    assert Keys(log[i])[..0] == [];
  }

  /** The tree leads to the reference through the member's directory, and the member is there. */
  ghost predicate ListsMember(
      calls: seq<Call>, tree: Option<Suites.TreeInfo>, le: NameOrder, m: Suites.Member, r: EntryRef)
  {
    && tree.Some? && Lists(calls, Some(tree.value.rootOrdinal), le, KindOf(m), [DirectoryOf(m)], r)
    && HoldsMember(calls, r, m)
  }
}
