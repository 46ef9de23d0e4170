/** Whole snapshots: a reader that starts at the manifest's root ordinal finds every kept item exactly
  * once, under the part and place where it was written. */
module DirectorySnapshotReading {
  import opened Options
  import opened Chunking
  import opened DirectoryPages
  import opened DirectoryTree
  import opened DirectoryReading
  import opened ReadModelParts
  import Cases = CaseDirectoryBuilder
  import Suites = SuiteDirectoryBuilder

  // ---- references of a log ----

  predicate RefsApart(log: seq<Added>) {
    forall i, j :: 0 <= i < j < |log| ==> Ref(log[i].entry) != Ref(log[j].entry)
  }

  lemma {:induction false} Unreferenced(log: seq<Added>, r: EntryRef)
    requires forall i :: 0 <= i < |log| ==> Ref(log[i].entry) != r
    ensures RefsUnder(log, [])[r] == 0
  {
    if log != [] {
      Unreferenced(log[..|log| - 1], r);
    }
  }

  lemma {:induction false} ReferencedOnce(log: seq<Added>, i: nat)
    requires RefsApart(log) && i < |log|
    ensures RefsUnder(log, [])[Ref(log[i].entry)] == 1
  {
    var n := |log| - 1;
    var r := Ref(log[i].entry);
    assert RefsUnder(log, [])[r] == RefsUnder(log[..n], [])[r] + if i == n then 1 else 0 by {
      assert i < n ==> r != Ref(log[n].entry);
    }
    if i < n {
      ReferencedOnce(log[..n], i);
    } else {
      Unreferenced(log[..n], r);
    }
  }

  /** The tree read from the root of a log holds a reference to each of its entries, once each. */
  ghost predicate ReadsAll(calls: seq<Call>, root: nat, log: seq<Added>, le: NameOrder) {
    var t := TreeAt(log, [], le);
    && ReadTree(StoreOf(calls), root) == Some(t)
    && |AllEntries(t)| == |log|
    && forall i :: 0 <= i < |log| ==> AllEntries(t)[Ref(log[i].entry)] == 1
  }

  lemma LogReadsAll(before: seq<Call>, log: seq<Added>, le: NameOrder, first: nat)
    requires RefsApart(log)
    ensures
      var t := TreeAt(log, [], le);
      ReadsAll(before + IndexCalls(TreePages(t, first), first), RootOrdinal(t, first), log, le)
  {
    WriteThenRead(before, log, le, first);
    TreeConserves(log, [], le);
    CountIsSize(log, []);
    RootCount(log);
    forall i | 0 <= i < |log|
      ensures AllEntries(TreeAt(log, [], le))[Ref(log[i].entry)] == 1
    {
      ReferencedOnce(log, i);
    }
  }

  // ---- ordinals ----

  /** Every part number from 0 on is written exactly once, in ascending order. */
  predicate Contiguous(calls: seq<Call>) {
    forall i :: 0 <= i < |calls| ==> calls[i].ordinal == i
  }

  lemma NumberedContiguous(parts: seq<Part>, more: seq<Part>)
    ensures Contiguous(Numbered(parts, 0) + Numbered(more, |parts|))
    ensures forall i :: 0 <= i < |parts| ==> (Numbered(parts, 0) + Numbered(more, |parts|))[i].part == parts[i]
  {
    var calls := Numbered(parts, 0) + Numbered(more, |parts|);
    forall i | 0 <= i < |calls|
      ensures calls[i].ordinal == i && (i < |parts| ==> calls[i].part == parts[i])
    {
      if i < |parts| { NumberedAt(parts, 0, i); } else { NumberedAt(more, |parts|, i - |parts|); }
    }
  }

  // ---- the case catalogue ----

  lemma PlacesApart(i: nat, j: nat, size: nat)
    requires i != j && size > 0
    ensures i / size != j / size || i % size != j % size
  {
    assert i == size * (i / size) + i % size;
    assert j == size * (j / size) + j % size;
  }

  lemma CaseRefsApart(kept: seq<CaseItem>, size: nat)
    requires size > 0
    ensures RefsApart(Cases.CaseLog(kept, size))
  {
    var log := Cases.CaseLog(kept, size);
    forall i, j | 0 <= i < j < |log|
      ensures Ref(log[i].entry) != Ref(log[j].entry)
    {
      Cases.CaseLogAt(kept, size, i);
      Cases.CaseLogAt(kept, size, j);
      PlacesApart(i, j, size);
    }
  }

  ghost predicate HoldsCase(calls: seq<Call>, r: EntryRef, item: CaseItem) {
    && r.kind == Case && r.ordinal < |calls| && calls[r.ordinal].part.CasePart?
    && r.index < |calls[r.ordinal].part.items| && calls[r.ordinal].part.items[r.index] == item
  }

  /** A case snapshot with a tree: every kept case is listed once and found where its reference says. */
  lemma CaseSnapshotReadsBack(
      catalog: Cases.Catalog, query: Cases.CaseQuery, kept: seq<CaseItem>, le: NameOrder)
    requires Cases.ValidQuery(query)
    ensures
      var calls := Cases.CallsOf(catalog, kept, query, true, le);
      var manifest := Cases.ManifestOf(kept, query, true, le);
      var log := Cases.CaseLog(kept, Cases.ChunkSize(query));
      && Contiguous(calls)
      && manifest.rootOrdinal.Some? && manifest.partCount <= manifest.rootOrdinal.value < |calls|
      && manifest.caseCount == |kept| == |log|
      && ReadsAll(calls, manifest.rootOrdinal.value, log, le)
      && forall i :: 0 <= i < |kept| ==> HoldsCase(calls, Ref(log[i].entry), kept[i])
  {
    var size := Cases.ChunkSize(query);
    var log := Cases.CaseLog(kept, size);
    var parts := Cases.PartsOf(catalog, Cases.DataChunks(kept, query));
    var t := TreeAt(log, [], le);
    var pages := TreePages(t, |parts|);
    CaseRefsApart(kept, size);
    LogReadsAll(Numbered(parts, 0), log, le, |parts|);
    NumberedContiguous(parts, IndexParts(pages));
    RootInside(t, |parts|);
    forall i | 0 <= i < |kept|
      ensures HoldsCase(Cases.CallsOf(catalog, kept, query, true, le), Ref(log[i].entry), kept[i])
    {
      Cases.EntriesResolve(catalog, query, kept, i);
    }
  }

  // ---- a suite ----

  predicate Earlier(log: seq<Added>, n: nat) {
    forall i :: 0 <= i < |log| ==> log[i].entry.ordinal < n
  }

  predicate Within(log: seq<Added>, ordinal: nat, cases: nat, ddts: nat) {
    forall i :: 0 <= i < |log| ==>
      && log[i].entry.ordinal == ordinal
      && log[i].entry.index < if log[i].entry.kind == Case then cases else ddts
  }

  lemma {:induction false} ChunkRefsApart(chunk: seq<Suites.Member>, ordinal: nat)
    ensures RefsApart(Suites.ChunkLog(chunk, ordinal))
    ensures Within(Suites.ChunkLog(chunk, ordinal), ordinal, |Suites.ItemsOf(chunk)|, |Suites.DdtOf(chunk)|)
  {
    if chunk != [] {
      ChunkRefsApart(chunk[..|chunk| - 1], ordinal);
    }
  }

  lemma {:induction false} SuiteRefsApart(chunks: seq<seq<Suites.Member>>)
    ensures RefsApart(Suites.SuiteLog(chunks)) && Earlier(Suites.SuiteLog(chunks), |chunks|)
  {
    if chunks != [] {
      var n := |chunks| - 1;
      SuiteRefsApart(chunks[..n]);
      ChunkRefsApart(chunks[n], n);
    }
  }

  ghost predicate HoldsMember(calls: seq<Call>, r: EntryRef, m: Suites.Member) {
    && r.ordinal < |calls| && calls[r.ordinal].part.SuitePart?
    && match m
       case Ordinary(item) =>
         r.kind == Case && r.index < |calls[r.ordinal].part.members|
         && calls[r.ordinal].part.members[r.index] == item
       case Data(ddt) =>
         r.kind == Ddt && r.index < |calls[r.ordinal].part.ddtItems|
         && calls[r.ordinal].part.ddtItems[r.index] == ddt
  }

  /** A suite snapshot with a tree: every kept member of either kind is listed once and found. */
  lemma SuiteSnapshotReadsBack(
      suite: Suites.Suite, query: Suites.SuiteQuery, kept: seq<Suites.Member>, le: NameOrder)
    requires Suites.ValidQuery(query) && query.tree
    ensures
      var calls := Suites.CallsOf(query, kept, le);
      var manifest := Suites.ManifestOf(suite, query, kept, le);
      var log := Suites.SuiteLog(Chunks(kept, Suites.ChunkSize(query)));
      && Contiguous(calls)
      && manifest.tree.Some? && manifest.partCount <= manifest.tree.value.rootOrdinal < |calls|
      && manifest.caseCount == |kept| == |log|
      && manifest.tree.value.ordinaryCount + manifest.tree.value.ddtCount == |kept|
      && ReadsAll(calls, manifest.tree.value.rootOrdinal, log, le)
      && forall i :: 0 <= i < |kept| ==> HoldsMember(calls, Ref(log[i].entry), kept[i])
  {
    hide ReadsAll, Contiguous, HoldsMember, TreePages, TreeAt, ReadTree, Suites.SuiteLog, Suites.PartsOf;
    var size := Suites.ChunkSize(query);
    var chunks := Chunks(kept, size);
    var parts := Suites.PartsOf(chunks);
    var log := Suites.SuiteLog(chunks);
    var t := TreeAt(log, [], le);
    var pages := TreePages(t, |parts|);
    ChunksFlatten(kept, size);
    Suites.SameLength(chunks);
    Suites.SizesAdd(kept);
    SuiteRefsApart(chunks);
    LogReadsAll(Numbered(parts, 0), log, le, |parts|);
    NumberedContiguous(parts, IndexParts(pages));
    RootInside(t, |parts|);
    forall i | 0 <= i < |kept|
      ensures HoldsMember(Suites.CallsOf(query, kept, le), Ref(log[i].entry), kept[i])
    {
      SuiteEntryHolds(chunks, IndexParts(pages), i);
    }
  }

  lemma SuiteEntryHolds(chunks: seq<seq<Suites.Member>>, more: seq<Part>, i: nat)
    requires i < |Flatten(chunks)|
    ensures |Suites.SuiteLog(chunks)| == |Flatten(chunks)|
    ensures HoldsMember(
      Numbered(Suites.PartsOf(chunks), 0) + Numbered(more, |chunks|),
      Ref(Suites.SuiteLog(chunks)[i].entry), Flatten(chunks)[i])
  {
    var parts := Suites.PartsOf(chunks);
    NumberedContiguous(parts, more);
    Suites.EntriesResolve(chunks, parts, i);
  }
}
