/** Streaming the case catalogue into data parts and an index over them. */
module CaseDirectoryBuilder {
  import opened Options
  import opened Chunking
  import opened DirectoryPages
  import opened DirectoryTree
  import opened ReadModelParts
  import opened DirectorySnapshots

  const SOURCE_PAGE_SIZE: nat := 250

  datatype CasePage = CasePage(items: seq<CaseItem>, nextCursor: Option<string>)

  datatype CaseQuery = CaseQuery(
    tree: bool, chunkSize: Option<nat>, outcome: Option<string>, missingSuiteId: Option<string>)

  // The catalogue as one build sees it. `cursors` bounds the cursors it can hand out.
  datatype Catalog = Catalog(
    listCases: Option<string> -> CasePage,
    outcomeOf: string -> Option<Outcome>,
    isMember: string -> bool,
    matchesSearch: CaseItem -> bool,
    classify: Outcome -> string,
    ghost cursors: set<string>)

  datatype CaseManifest = CaseManifest(partCount: nat, caseCount: nat, rootOrdinal: Option<nat>)

  /** An absent or empty string counts as false. */
  predicate Truthy(s: Option<string>) {
    s.Some? && s.value != ""
  }

  predicate Keeps(catalog: Catalog, query: CaseQuery, item: CaseItem) {
    var outcome := catalog.outcomeOf(item.id);
    var filter := if query.outcome.Some? then query.outcome.value else "all";
    && catalog.matchesSearch(item)
    && !(Truthy(query.missingSuiteId) && catalog.isMember(item.id))
    && if filter == "never" then outcome.None?
       else filter == "all" || (outcome.Some? && catalog.classify(outcome.value) == filter)
  }

  function Kept(catalog: Catalog, query: CaseQuery, items: seq<CaseItem>): seq<CaseItem> {
    if items == [] then []
    else
      Kept(catalog, query, items[..|items| - 1]) +
      if Keeps(catalog, query, items[|items| - 1]) then [items[|items| - 1]] else []
  }

  lemma {:induction false} KeptConcat(catalog: Catalog, query: CaseQuery, a: seq<CaseItem>, b: seq<CaseItem>)
    ensures Kept(catalog, query, a + b) == Kept(catalog, query, a) + Kept(catalog, query, b)
  {
    if b == [] {
      ConcatNone(a);
    } else {
      KeptConcat(catalog, query, a, b[..|b| - 1]);
      FrontOfConcat(a, b);
    }
  }

  // ---- the source ----

  ghost predicate ValidCatalog(catalog: Catalog) {
    forall c :: Truthy(catalog.listCases(c).nextCursor) ==> catalog.listCases(c).nextCursor.value in catalog.cursors
  }

  /** All items of the catalogue from `cursor` on, or None when a cursor comes back a second time. */
  ghost function SourceFrom(catalog: Catalog, cursor: Option<string>, visited: set<string>): Option<seq<CaseItem>>
    requires ValidCatalog(catalog) && visited <= catalog.cursors
    decreases catalog.cursors - visited
  {
    var page := catalog.listCases(cursor);
    if !Truthy(page.nextCursor) then Some(page.items)
    else if page.nextCursor.value in visited then None
    else
      match SourceFrom(catalog, page.nextCursor, visited + {page.nextCursor.value})
      case None => None
      case Some(rest) => Some(page.items + rest)
  }

  // ---- the parts ----

  function OutcomesOf(catalog: Catalog, items: seq<CaseItem>): seq<Outcome> {
    if items == [] then []
    else
      OutcomesOf(catalog, items[..|items| - 1]) +
      match catalog.outcomeOf(items[|items| - 1].id) case Some(outcome) => [outcome] case None => []
  }

  function PartOf(catalog: Catalog, items: seq<CaseItem>): Part {
    CasePart(items, OutcomesOf(catalog, items))
  }

  function PartsOf(catalog: Catalog, chunks: seq<seq<CaseItem>>): (r: seq<Part>)
    ensures |r| == |chunks|
  {
    if chunks == [] then []
    else PartsOf(catalog, chunks[..|chunks| - 1]) + [PartOf(catalog, chunks[|chunks| - 1])]
  }

  /** Without an explicit chunk size an empty catalogue still gets one empty part. */
  function DataChunks(kept: seq<CaseItem>, query: CaseQuery): seq<seq<CaseItem>>
    requires ValidQuery(query)
  {
    if kept == [] && query.chunkSize.None? then [[]] else Chunks(kept, ChunkSize(query))
  }

  predicate ValidQuery(query: CaseQuery) {
    query.chunkSize.Some? ==> query.chunkSize.value > 0
  }

  function ChunkSize(query: CaseQuery): nat {
    if query.chunkSize.Some? then query.chunkSize.value else SOURCE_PAGE_SIZE
  }

  // ---- the index ----

  function Split(path: string): seq<string> {
    if path == "" then [""]
    else
      var rest := Split(path[1..]);
      if path[0] == '/' then [""] + rest else [[path[0]] + rest[0]] + rest[1..]
  }

  function NonEmpty(segments: seq<string>): seq<string> {
    if segments == [] then []
    else (if segments[0] != "" then [segments[0]] else []) + NonEmpty(segments[1..])
  }

  function Addition(item: CaseItem, ordinal: nat, index: nat): Added {
    Added(NonEmpty(Split(item.directoryPath)), Entry(ordinal, index, Case, item.displayName))
  }

  /** What the index is told: kept item `n` sits in part `n / size` at place `n % size`. */
  function CaseLog(kept: seq<CaseItem>, size: nat): (r: seq<Added>)
    requires size > 0
    ensures |r| == |kept|
  {
    if kept == [] then []
    else
      var n := |kept| - 1;
      CaseLog(kept[..n], size) + [Addition(kept[n], n / size, n % size)]
  }

  lemma {:induction false} CaseLogAt(kept: seq<CaseItem>, size: nat, i: nat)
    requires size > 0 && i < |kept|
    ensures CaseLog(kept, size)[i] == Addition(kept[i], i / size, i % size)
  {
    if i < |kept| - 1 {
      CaseLogAt(kept[..|kept| - 1], size, i);
    }
  }

  /** Every index entry names the very item it was added for. */
  lemma EntriesResolve(catalog: Catalog, query: CaseQuery, kept: seq<CaseItem>, i: nat)
    requires ValidQuery(query) && i < |kept|
    ensures
      var size := ChunkSize(query);
      var parts := PartsOf(catalog, DataChunks(kept, query));
      var entry := CaseLog(kept, size)[i].entry;
      && entry.ordinal < |parts| && parts[entry.ordinal].CasePart?
      && entry.index < |parts[entry.ordinal].items|
      && parts[entry.ordinal].items[entry.index] == kept[i]
      && entry.name == kept[i].displayName && entry.kind == Case
  {
    var size := ChunkSize(query);
    CaseLogAt(kept, size, i);
    ChunkAt(kept, size, i);
    PartsOfAt(catalog, DataChunks(kept, query), i / size);
  }

  lemma {:induction false} PartsOfAt(catalog: Catalog, chunks: seq<seq<CaseItem>>, i: nat)
    requires i < |chunks|
    ensures PartsOf(catalog, chunks)[i] == PartOf(catalog, chunks[i])
  {
    if i < |chunks| - 1 {
      PartsOfAt(catalog, chunks[..|chunks| - 1], i);
    }
  }

  lemma KeptSnoc(catalog: Catalog, query: CaseQuery, items: seq<CaseItem>, i: nat)
    requires i < |items|
    ensures Kept(catalog, query, items[..i + 1])
         == Kept(catalog, query, items[..i]) + if Keeps(catalog, query, items[i]) then [items[i]] else []
  {
    assert items[..i + 1][..i] == items[..i];
  }

  /** One run of the builder: the open chunk, the counters and the optional index. */
  class CaseBuild {
    const catalog: Catalog
    const query: CaseQuery
    const writer: PartWriter
    const tree: DirectorySnapshotIndex?
    var items: seq<CaseItem>
    var outcomes: seq<Outcome>
    var partCount: nat
    var caseCount: nat
    ghost var kept: seq<CaseItem>
    ghost var done: seq<seq<CaseItem>>
    ghost const base: seq<Call>

    ghost function Repr(): set<object>
      reads this, tree
    {
      {this, writer} + if tree == null then {} else {tree} + tree.repr
    }

    ghost predicate Counters()
      reads this
    {
      && ValidQuery(query)
      && AllFull(done, ChunkSize(query)) && Flatten(done) + items == kept
      && outcomes == OutcomesOf(catalog, items)
      && partCount == |done| && caseCount == |Flatten(done)|
    }

    ghost predicate Indexed()
      reads this, tree, if tree == null then {} else tree.repr
    {
      ValidQuery(query) && (tree != null ==> tree.Valid() && tree.log == CaseLog(kept, ChunkSize(query)))
    }

    ghost predicate Written()
      reads this, writer
    {
      writer.calls == base + Numbered(PartsOf(catalog, done), 0)
    }

    ghost predicate Valid()
      reads this, writer, tree, if tree == null then {} else tree.repr
    {
      Counters() && |items| < ChunkSize(query) && Indexed() && Written()
    }

    constructor (catalog: Catalog, query: CaseQuery, writer: PartWriter)
      requires ValidQuery(query)
      ensures Valid() && kept == [] && base == writer.calls
      ensures this.catalog == catalog && this.query == query && this.writer == writer
      ensures tree != null <==> query.tree
      ensures fresh(Repr() - {writer})
    {
      this.catalog, this.query, this.writer := catalog, query, writer;
      items, outcomes, partCount, caseCount := [], [], 0, 0;
      kept, done := [], [];
      base := writer.calls;
      if query.tree {
        tree := new DirectorySnapshotIndex();
      } else {
        tree := null;
      }
    }

    /** Write the open chunk and start a new one. */
    method Flush()
      requires Counters() && Written()
      modifies this`items, this`outcomes, this`partCount, this`caseCount, this`done, writer
      ensures items == [] && outcomes == [] && partCount == old(partCount) + 1
      ensures caseCount == old(caseCount) + |old(items)|
      ensures done == old(done) + [old(items)] && Written()
    {
      writer.WritePart(partCount, CasePart(items, outcomes));
      NumberedSnoc(PartsOf(catalog, done), PartOf(catalog, items), 0);
      Assoc(base, Numbered(PartsOf(catalog, done), 0), [Call(partCount, PartOf(catalog, items))]);
      assert (done + [items])[..|done|] == done;
      done := done + [items];
      partCount := partCount + 1;
      caseCount := caseCount + |items|;
      items, outcomes := [], [];
    }

    /** Offer one catalogue item to the snapshot. */
    method Offer(item: CaseItem)
      requires Valid()
      modifies this, writer, tree, if tree == null then {} else tree.repr
      ensures Valid() && fresh(Repr() - old(Repr()))
      ensures kept == old(kept) + if Keeps(catalog, query, item) then [item] else []
    {
      hide Flatten, CaseLog, PartsOf, Numbered, AllFull, OutcomesOf, DirectorySnapshotIndex.Valid;
      if !catalog.matchesSearch(item) || (Truthy(query.missingSuiteId) && catalog.isMember(item.id)) {
        return;
      }
      var outcome := catalog.outcomeOf(item.id);
      var filter := if query.outcome.Some? then query.outcome.value else "all";
      if (if filter == "never" then outcome.Some?
          else filter != "all" && (outcome.None? || catalog.classify(outcome.value) != filter)) {
        return;
      }
      Record(item);
      Push(item, outcome);
      FlushIfFull();
    }

    method OfferAll(page: seq<CaseItem>)
      requires Valid()
      modifies this, writer, tree, if tree == null then {} else tree.repr
      ensures Valid() && fresh(Repr() - old(Repr()))
      ensures kept == old(kept) + Kept(catalog, query, page)
    {
      hide CaseBuild.Valid, Keeps, Kept;
      NoneKept(page);
      for i := 0 to |page|
        invariant Valid() && fresh(Repr() - old(Repr()))
        invariant kept == old(kept) + Kept(catalog, query, page[..i])
      {
        Offer(page[i]);
        KeptSnoc(catalog, query, page, i);
        Assoc(old(kept), Kept(catalog, query, page[..i]), if Keeps(catalog, query, page[i]) then [page[i]] else []);
      }
      assert page[..|page|] == page;
    }

    lemma NoneKept(page: seq<CaseItem>)
      ensures kept + Kept(catalog, query, page[..0]) == kept
    {
      assert page[..0] == [];
    }

    lemma NextPlace()
      requires Counters() && |items| < ChunkSize(query)
      ensures |kept| / ChunkSize(query) == partCount && |kept| % ChunkSize(query) == |items|
    {
      ChunksAre(done, items, ChunkSize(query));
      DivModUnique(|kept|, ChunkSize(query), partCount, |items|);
    }

    /** Tell the index where the next item will be. */
    method Record(item: CaseItem)
      requires Valid()
      modifies tree, if tree == null then {} else tree.repr
      ensures tree != null ==> tree.Valid() && tree.log == CaseLog(kept + [item], ChunkSize(query))
      ensures tree != null ==> fresh(tree.repr - old(tree.repr))
    {
      NextPlace();
      assert (kept + [item])[..|kept|] == kept;
      if tree != null {
        tree.Add(NonEmpty(Split(item.directoryPath)), Entry(partCount, |items|, Case, item.displayName));
      }
    }

    /** Put the item into the open chunk. */
    method Push(item: CaseItem, outcome: Option<Outcome>)
      requires Counters() && |items| < ChunkSize(query)
      requires outcome == catalog.outcomeOf(item.id)
      modifies this`items, this`outcomes, this`kept
      ensures Counters() && |items| <= ChunkSize(query) && kept == old(kept) + [item]
    {
      assert (items + [item])[..|items|] == items;
      Assoc(Flatten(done), items, [item]);
      items := items + [item];
      if outcome.Some? {
        outcomes := outcomes + [outcome.value];
      }
      kept := kept + [item];
    }

    /** A full chunk is written at once. */
    method FlushIfFull()
      requires Counters() && |items| <= ChunkSize(query) && Indexed() && Written()
      modifies this`items, this`outcomes, this`partCount, this`caseCount, this`done, writer
      ensures Valid() && kept == old(kept)
    {
      if |items| == ChunkSize(query) {
        FlattenSnoc(done, items);
        Flush();
        assert Flatten(done) + [] == Flatten(done);
      }
    }

    /** Writes what is left in the open chunk; without an explicit chunk size an empty catalogue
      * still gets one part. */
    method FlushRest()
      requires Valid()
      modifies this`items, this`outcomes, this`partCount, this`caseCount, this`done, writer
      ensures done == DataChunks(kept, query) && partCount == |done| && caseCount == |kept|
      ensures kept == old(kept) && Written()
    {
      ChunksAre(done, items, ChunkSize(query));
      FlattenSnoc(done, items);
      if items != [] || (query.chunkSize.None? && partCount == 0) {
        Flush();
      } else {
        assert Flatten(done) + [] == Flatten(done);
      }
    }

    method Finish(le: NameOrder) returns (manifest: CaseManifest)
      requires Valid() && NamesOrdered(le)
      modifies this, writer, tree, if tree == null then {} else tree.repr
      ensures kept == old(kept) && Finished(manifest, le)
    {
      FlushRest();
      var rootOrdinal := WriteIndex(le, partCount);
      manifest := CaseManifest(partCount, caseCount, rootOrdinal);
      Assoc(base, Numbered(PartsOf(catalog, done), 0), IndexOf(kept, query, tree != null, le, partCount));
    }

    method WriteIndex(le: NameOrder, first: nat) returns (rootOrdinal: Option<nat>)
      requires Indexed() && NamesOrdered(le)
      modifies writer, tree, if tree == null then {} else tree.repr
      ensures rootOrdinal == RootOf(kept, query, tree != null, le, first)
      ensures writer.calls == old(writer.calls) + IndexOf(kept, query, tree != null, le, first)
    {
      if tree == null {
        return None;
      }
      var root, _ := tree.Write(le, first, writer);
      return Some(root);
    }

    ghost predicate Finished(manifest: CaseManifest, le: NameOrder)
      reads this, writer
    {
      && ValidQuery(query)
      && manifest == ManifestOf(kept, query, tree != null, le)
      && writer.calls == base + CallsOf(catalog, kept, query, tree != null, le)
    }
  }

  ghost function RootOf(kept: seq<CaseItem>, query: CaseQuery, tree: bool, le: NameOrder, first: nat): Option<nat>
    requires ValidQuery(query)
  {
    if tree then Some(RootOrdinal(TreeAt(CaseLog(kept, ChunkSize(query)), [], le), first)) else None
  }

  ghost function IndexOf(kept: seq<CaseItem>, query: CaseQuery, tree: bool, le: NameOrder, first: nat): seq<Call>
    requires ValidQuery(query)
  {
    if tree then IndexCalls(TreePages(TreeAt(CaseLog(kept, ChunkSize(query)), [], le), first), first) else []
  }

  ghost function ManifestOf(kept: seq<CaseItem>, query: CaseQuery, tree: bool, le: NameOrder): CaseManifest
    requires ValidQuery(query)
  {
    var parts := |DataChunks(kept, query)|;
    CaseManifest(parts, |kept|, RootOf(kept, query, tree, le, parts))
  }

  /** The data parts and, when asked for, the index pages right behind them. */
  ghost function CallsOf(catalog: Catalog, kept: seq<CaseItem>, query: CaseQuery, tree: bool, le: NameOrder): seq<Call>
    requires ValidQuery(query)
  {
    var chunks := DataChunks(kept, query);
    Numbered(PartsOf(catalog, chunks), 0) + IndexOf(kept, query, tree, le, |chunks|)
  }

  function Prepend(seen: seq<CaseItem>, rest: Option<seq<CaseItem>>): Option<seq<CaseItem>> {
    match rest
    case None => None
    case Some(items) => Some(seen + items)
  }

  lemma PrependNothing(rest: Option<seq<CaseItem>>)
    ensures Prepend([], rest) == rest
  {
    assert rest.Some? ==> [] + rest.value == rest.value;
  }

  lemma PrependTwice(a: seq<CaseItem>, b: seq<CaseItem>, rest: Option<seq<CaseItem>>)
    ensures Prepend(a + b, rest) == Prepend(a, Prepend(b, rest))
  {
    match rest
    case None =>
    case Some(items) => Assoc(a, b, items);
  }

  lemma KeptNone(catalog: Catalog, query: CaseQuery)
    ensures Kept(catalog, query, []) == []
  {
  }

  /** `buildCaseDirectorySnapshot`; None stands for the repeated-cursor error. */
  method BuildCaseDirectorySnapshot(catalog: Catalog, query: CaseQuery, le: NameOrder, writer: PartWriter)
    returns (result: Option<CaseManifest>)
    requires ValidCatalog(catalog) && ValidQuery(query) && NamesOrdered(le)
    modifies writer
    ensures result.None? <==> SourceFrom(catalog, None, {}).None?
    ensures result.Some? ==>
      var kept := Kept(catalog, query, SourceFrom(catalog, None, {}).value);
      && result.value == ManifestOf(kept, query, query.tree, le)
      && writer.calls == old(writer.calls) + CallsOf(catalog, kept, query, query.tree, le)
  {
    hide Kept, ManifestOf, CallsOf, CaseBuild.Valid;
    var build := new CaseBuild(catalog, query, writer);
    var cursor: Option<string> := None;
    var visited: set<string> := {};
    ghost var seen: seq<CaseItem> := [];
    KeptNone(catalog, query);
    PrependNothing(SourceFrom(catalog, None, {}));
    var more := true;
    while more
      invariant Running(build, catalog, query, writer, old(writer.calls), seen)
      invariant fresh(build.Repr() - {writer})
      invariant visited <= catalog.cursors
      invariant SourceFrom(catalog, None, {}) ==
        if more then Prepend(seen, SourceFrom(catalog, cursor, visited)) else Some(seen)
      decreases catalog.cursors - visited, more
    {
      var page := catalog.listCases(cursor);
      build.OfferAll(page.items);
      KeptConcat(catalog, query, seen, page.items);
      ghost var rest := if Truthy(page.nextCursor) && page.nextCursor.value !in visited
                        then SourceFrom(catalog, page.nextCursor, visited + {page.nextCursor.value}) else None;
      PrependTwice(seen, page.items, rest);
      seen := seen + page.items;
      if Truthy(page.nextCursor) && page.nextCursor.value in visited {
        return None;
      }
      cursor := page.nextCursor;
      more := Truthy(cursor);
      if more {
        visited := visited + {cursor.value};
      }
    }
    var manifest := build.Finish(le);
    return Some(manifest);
  }

  ghost predicate Running(
      build: CaseBuild, catalog: Catalog, query: CaseQuery, writer: PartWriter, base: seq<Call>, seen: seq<CaseItem>)
    reads build, writer, build.writer, build.tree, if build.tree == null then {} else build.tree.repr
  {
    && build.Valid()
    && build.catalog == catalog && build.query == query && build.writer == writer
    && build.base == base && (build.tree != null <==> query.tree)
    && build.kept == Kept(catalog, query, seen)
  }
}
