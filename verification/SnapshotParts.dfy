/** The parts of a snapshot one by one: which there are and exactly what is in them. */
module SnapshotParts {
  import opened Options
  import opened Sorting
  import opened Chunking
  import opened DirectoryPages
  import opened DirectoryTree
  import opened ReadModelParts
  import opened DirectoryListing
  import Cases = CaseDirectoryBuilder
  import Suites = SuiteDirectoryBuilder

  // ---- chunks ----

  function Upto(a: nat, b: nat): nat { if a < b then a else b }

  lemma TimesNext(size: nat, q: nat)
    requires q > 0
    ensures size * q == size * (q - 1) + size
  {
  }

  /** Chunk `q` is the stretch from `size * q` on, and there are as many chunks as it takes. */
  lemma {:induction false} ChunkIs<T>(s: seq<T>, size: nat, q: nat, from: nat)
    requires size > 0 && from == size * q
    ensures q < |Chunks(s, size)| <==> from < |s|
    ensures q < |Chunks(s, size)| ==> Chunks(s, size)[q] == s[from..Upto(from + size, |s|)]
    decreases |s|
  {
    if q > 0 {
      TimesNext(size, q);
      if |s| > size {
        ChunkIs(s[size..], size, q - 1, from - size);
        hide Chunks;
        ChunksRest(s, size);
        if q - 1 < |Chunks(s[size..], size)| { SliceAgain(s, size, from - size, size); }
      }
    } else {
      assert from == 0;
    }
  }

  lemma ChunksRest<T>(s: seq<T>, size: nat)
    requires 0 < size < |s|
    ensures Chunks(s, size) == [s[..size]] + Chunks(s[size..], size)
  {
  }

  lemma SliceAgain<T>(s: seq<T>, k: nat, a: nat, size: nat)
    requires k <= |s| && a <= |s| - k
    ensures s[k..][a..Upto(a + size, |s| - k)] == s[k + a..Upto(k + a + size, |s|)]
  {
  }

  // ---- cases ----

  /** The call numbered `q`: a data part below `partCount`, and an index page from there on. */
  ghost predicate PartAt(calls: seq<Call>, partCount: nat, tree: bool, q: nat) {
    && partCount <= |calls| && (!tree ==> |calls| == partCount)
    && (q < |calls| ==> calls[q].ordinal == q)
    && (partCount <= q < |calls| ==> calls[q].part.IndexPart?)
  }

  lemma PartsThenPages(parts: seq<Part>, pages: seq<IndexPage>, tree: bool, q: nat)
    ensures var calls := Numbered(parts, 0) + if tree then IndexCalls(pages, |parts|) else [];
      PartAt(calls, |parts|, tree, q) && (q < |parts| ==> calls[q].part == parts[q])
  {
    if q < |parts| {
      NumberedAt(parts, 0, q);
    } else if tree {
      IndexPartAt(pages, |parts|, q - |parts|);
    }
    hide Numbered, IndexCalls;
  }

  /** The written parts: full data parts of consecutive cases up to `partCount`, the last one with
    * what is left, and index pages behind them if there is a tree. */
  lemma CasePartIs(catalog: Cases.Catalog, query: Cases.CaseQuery, kept: seq<CaseItem>, tree: bool, le: NameOrder,
                   q: nat, size: nat, from: nat)
    requires Cases.ValidQuery(query) && size == (if query.chunkSize.Some? then query.chunkSize.value else 250)
    requires from == size * q
    ensures
      var calls, manifest := Cases.CallsOf(catalog, kept, query, tree, le), Cases.ManifestOf(kept, query, tree, le);
      && PartAt(calls, manifest.partCount, tree, q)
      && manifest.caseCount == |kept| && (manifest.rootOrdinal.Some? <==> tree)
      && (q < manifest.partCount <==> from < |kept| || (q == 0 && kept == [] && query.chunkSize.None?))
      && (q < manifest.partCount ==>
            calls[q].part.CasePart? && from <= |kept| && calls[q].part.items == kept[from..Upto(from + size, |kept|)])
  {
    hide Chunks, TreeAt, TreePages, RootOrdinal, Numbered, IndexCalls, PartAt, Cases.PartsOf, Cases.CaseLog;
    var chunks := Cases.DataChunks(kept, query);
    ChunkIs(kept, size, q, from);
    assert q == 0 ==> from == 0;
    PartsThenPages(Cases.PartsOf(catalog, chunks), TreePages(TreeAt(Cases.CaseLog(kept, size), [], le), |chunks|),
                   tree, q);
    if q < |chunks| { Cases.PartsOfAt(catalog, chunks, q); }
  }

  lemma {:induction false} IndexPartsAre(pages: seq<IndexPage>, i: nat)
    requires i < |pages|
    ensures IndexParts(pages)[i] == IndexPart(pages[i])
  {
    if i < |pages| - 1 { IndexPartsAre(pages[..|pages| - 1], i); }
  }

  lemma IndexPartAt(pages: seq<IndexPage>, first: nat, i: nat)
    ensures i < |pages| ==> IndexCalls(pages, first)[i] == Call(first + i, IndexPart(pages[i]))
  {
    if i < |pages| {
      NumberedAt(IndexParts(pages), first, i);
      IndexPartsAre(pages, i);
    }
  }

  // ---- suites ----

  /** The same for a suite, whose parts hold both kinds of members; and what its manifest counts. */
  lemma SuitePartIs(suite: Suites.Suite, query: Suites.SuiteQuery, kept: seq<Suites.Member>, le: NameOrder, q: nat,
                    size: nat, from: nat)
    requires Suites.ValidQuery(query) && size == (if query.chunkSize.Some? then query.chunkSize.value else 250)
    requires from == size * q
    ensures
      var calls, manifest := Suites.CallsOf(query, kept, le), Suites.ManifestOf(suite, query, kept, le);
      && PartAt(calls, manifest.partCount, query.tree, q)
      && (manifest.tree.Some? <==> query.tree) && manifest.caseCount == |kept| && manifest.revision == suite.revision
      && (query.tree ==>
            && manifest.tree.value.ordinaryCount == OfKind(kept, Case)
            && manifest.tree.value.ddtCount == OfKind(kept, Ddt))
      && (q < manifest.partCount <==> from < |kept|)
      && (q < manifest.partCount ==> HoldsKinds(calls[q].part, kept[from..Upto(from + size, |kept|)]))
  {
    hide Chunks, TreeAt, TreePages, RootOrdinal, Numbered, IndexCalls, PartAt, Suites.PartsOf, Suites.SuiteLog, OfKind,
      Suites.ItemsOf, Suites.DdtOf;
    var chunks := Chunks(kept, size);
    ChunkIs(kept, size, q, from);
    KindsCounted(kept);
    PartsThenPages(Suites.PartsOf(chunks), TreePages(Suites.TreeOf(chunks, le), |chunks|), query.tree, q);
    if q < |chunks| {
      Suites.PartsOfAt(chunks, q);
      KindsCounted(chunks[q]);
    }
  }

  /** The part holds as many members of each kind as there are on the page. */
  ghost predicate HoldsKinds(part: Part, page: seq<Suites.Member>) {
    part.SuitePart? && |part.members| == OfKind(page, Case) && |part.ddtItems| == OfKind(page, Ddt)
  }

  // ---- what is kept ----

  lemma {:induction false} HavingSnoc<T>(s: seq<T>, x: T, p: T -> bool)
    ensures Having(s + [x], p) == Having(s, p) + if p(x) then [x] else []
  {
    if s == [] {
      assert [x][1..] == [] && [] + [x] == [x];
    } else {
      HavingSnoc(s[1..], x, p);
      assert (s + [x])[1..] == s[1..] + [x];
    }
  }

  /** Exactly the cases that the filters let through are kept, in order. */
  lemma {:induction false} CasesKept(catalog: Cases.Catalog, query: Cases.CaseQuery, items: seq<CaseItem>)
    ensures Cases.Kept(catalog, query, items) == Having(items, item => Cases.Keeps(catalog, query, item))
  {
    hide Cases.Keeps, Having;
    if items == [] {
      NoneHaving<CaseItem>(item => Cases.Keeps(catalog, query, item));
    } else {
      var front, last := items[..|items| - 1], items[|items| - 1];
      CasesKept(catalog, query, front);
      HavingSnoc(front, last, item => Cases.Keeps(catalog, query, item));
      assert items == front + [last];
    }
  }

  lemma NoneHaving<T>(p: T -> bool)
    ensures Having([], p) == []
  {
  }

  /** A member is kept exactly when the search finds something in its own three texts. */
  lemma {:induction false} MembersKept(suite: Suites.Suite, ms: seq<Suites.Member>)
    ensures Suites.Kept(suite, ms) == Having(ms, m => suite.includesSearch(TextsOf(m)))
  {
    if ms != [] {
      var found := m => suite.includesSearch(TextsOf(m));
      var front, last := ms[..|ms| - 1], ms[|ms| - 1];
      MembersKept(suite, front);
      SameTexts(last);
      assert ms == front + [last] && found(last) == Suites.Keeps(suite, last);
      hide TextsOf, Having, Suites.SearchText, Suites.Keeps;
      HavingSnoc(front, last, found);
    }
  }

  /** Name, class and package of a case, or CaseID, SR number and class of a DDT case. */
  function TextsOf(m: Suites.Member): string {
    match m
    case Ordinary(SuiteItem(_, displayName, className, packageName)) =>
      displayName + (" " + (className + (" " + packageName)))
    case Data(DdtItem(_, caseId, srNum, className)) =>
      caseId + (" " + (srNum + (" " + if className.Some? then className.value else "")))
  }

  lemma SameTexts(m: Suites.Member)
    ensures Suites.SearchText(m) == TextsOf(m)
  {
    match m
    case Ordinary(item) =>
      FiveTexts(item.displayName, " ", item.className, " ", item.packageName);
    case Data(ddt) =>
      FiveTexts(ddt.caseId, " ", ddt.srNum, " ", if ddt.className.Some? then ddt.className.value else "");
  }

  lemma FiveTexts(a: string, b: string, c: string, d: string, e: string)
    ensures a + b + c + d + e == a + (b + (c + (d + e)))
  {
    Assoc(c, d, e);
    Assoc(b, c, d + e);
    Assoc(a, b, c + (d + e));
    Assoc(a + b, c, d);
    Assoc(a + b, c + d, e);
  }
}
