/** Streaming a suite's mixed members (ordinary cases and DDT cases) into shared parts and an index.
  * A part closes when both kinds together reach the chunk size, but each kind is indexed by its own
  * places. */
module SuiteDirectoryBuilder {
  import opened Options
  import opened Chunking
  import opened DirectoryPages
  import opened DirectoryTree
  import opened ReadModelParts
  import opened DirectorySnapshots

  const SOURCE_PAGE_SIZE: nat := 250
  const DEFAULT_PACKAGE := "默认包"

  datatype Member = Ordinary(item: SuiteItem) | Data(ddt: DdtItem)

  datatype SuitePage = SuitePage(items: seq<SuiteItem>, ddtItems: seq<DdtItem>)

  type Cursor = Option<string>

  // A suite as one build sees it. `rank` is how far a cursor pair is from the end of the listing.
  datatype Suite = Suite(
    listMemberPage: (Cursor, Cursor) -> Option<SuitePage>,
    includesSearch: string -> bool,
    revision: nat,
    ghost rank: (Cursor, Cursor) -> nat)

  datatype SuiteQuery = SuiteQuery(tree: bool, chunkSize: Option<nat>)

  datatype TreeInfo = TreeInfo(rootOrdinal: nat, ordinaryCount: nat, ddtCount: nat)

  datatype SuiteManifest = SuiteManifest(partCount: nat, caseCount: nat, revision: nat, tree: Option<TreeInfo>)

  predicate ValidQuery(query: SuiteQuery) {
    query.chunkSize.Some? ==> query.chunkSize.value > 0
  }

  function ChunkSize(query: SuiteQuery): nat {
    if query.chunkSize.Some? then query.chunkSize.value else SOURCE_PAGE_SIZE
  }

  // ---- the source ----

  function CaseCursor(page: SuitePage, after: Cursor): Cursor {
    if page.items == [] then after else Some(page.items[|page.items| - 1].id)
  }

  function DdtCursor(page: SuitePage, after: Cursor): Cursor {
    if page.ddtItems == [] then after else Some(page.ddtItems[|page.ddtItems| - 1].id)
  }

  /** An empty cursor is not sent. */
  function Sent(after: Cursor): Cursor {
    if after == Some("") then None else after
  }

  predicate AtEnd(page: Option<SuitePage>) {
    page.None? || (page.value.items == [] && page.value.ddtItems == [])
  }

  /** The listing makes progress: a page that moves a cursor leads closer to the end. */
  ghost predicate ValidSuite(suite: Suite) {
    forall a, b :: Progress(suite, a, b)
  }

  ghost predicate Progress(suite: Suite, a: Cursor, b: Cursor) {
    var page := suite.listMemberPage(Sent(a), Sent(b));
    !AtEnd(page) && !(CaseCursor(page.value, a) == a && DdtCursor(page.value, b) == b) ==>
      suite.rank(CaseCursor(page.value, a), DdtCursor(page.value, b)) < suite.rank(a, b)
  }

  function Ordinaries(items: seq<SuiteItem>): (r: seq<Member>)
    ensures |r| == |items|
  {
    if items == [] then [] else Ordinaries(items[..|items| - 1]) + [Ordinary(items[|items| - 1])]
  }

  function Datas(items: seq<DdtItem>): (r: seq<Member>)
    ensures |r| == |items|
  {
    if items == [] then [] else Datas(items[..|items| - 1]) + [Data(items[|items| - 1])]
  }

  function Members(page: SuitePage): seq<Member> {
    Ordinaries(page.items) + Datas(page.ddtItems)
  }

  /** All members from the cursors on, or None when a page moves neither cursor. */
  ghost function SourceFrom(suite: Suite, a: Cursor, b: Cursor): Option<seq<Member>>
    requires ValidSuite(suite)
    decreases suite.rank(a, b)
  {
    var page := suite.listMemberPage(Sent(a), Sent(b));
    if AtEnd(page) then Some([])
    else
      var a', b' := CaseCursor(page.value, a), DdtCursor(page.value, b);
      if a' == a && b' == b then None
      else
        assert Progress(suite, a, b);
        Prepend(Members(page.value), SourceFrom(suite, a', b'))
  }

  function Prepend(seen: seq<Member>, rest: Option<seq<Member>>): Option<seq<Member>> {
    match rest
    case None => None
    case Some(members) => Some(seen + members)
  }

  lemma PrependNothing(rest: Option<seq<Member>>)
    ensures Prepend([], rest) == rest
  {
    assert rest.Some? ==> [] + rest.value == rest.value;
  }

  lemma PrependTwice(a: seq<Member>, b: seq<Member>, rest: Option<seq<Member>>)
    ensures Prepend(a + b, rest) == Prepend(a, Prepend(b, rest))
  {
    match rest
    case None =>
    case Some(members) => Assoc(a, b, members);
  }

  function SearchText(m: Member): string {
    match m
    case Ordinary(item) => item.displayName + " " + item.className + " " + item.packageName
    case Data(ddt) => ddt.caseId + " " + ddt.srNum + " " + if ddt.className.Some? then ddt.className.value else ""
  }

  predicate Keeps(suite: Suite, m: Member) {
    suite.includesSearch(SearchText(m))
  }

  function Kept(suite: Suite, ms: seq<Member>): seq<Member> {
    if ms == [] then []
    else Kept(suite, ms[..|ms| - 1]) + if Keeps(suite, ms[|ms| - 1]) then [ms[|ms| - 1]] else []
  }

  lemma KeptSnoc(suite: Suite, ms: seq<Member>, m: Member)
    ensures Kept(suite, ms + [m]) == Kept(suite, ms) + if Keeps(suite, m) then [m] else []
  {
    assert (ms + [m])[..|ms|] == ms;
  }

  // ---- the parts ----

  function ItemsOf(ms: seq<Member>): seq<SuiteItem> {
    if ms == [] then []
    else
      var last := ms[|ms| - 1];
      ItemsOf(ms[..|ms| - 1]) + if last.Ordinary? then [last.item] else []
  }

  function DdtOf(ms: seq<Member>): seq<DdtItem> {
    if ms == [] then []
    else
      var last := ms[|ms| - 1];
      DdtOf(ms[..|ms| - 1]) + if last.Data? then [last.ddt] else []
  }

  lemma {:induction false} SizesAdd(ms: seq<Member>)
    ensures |ItemsOf(ms)| + |DdtOf(ms)| == |ms|
  {
    if ms != [] {
      SizesAdd(ms[..|ms| - 1]);
    }
  }

  lemma OneMore(ms: seq<Member>, m: Member)
    ensures ItemsOf(ms + [m]) == ItemsOf(ms) + if m.Ordinary? then [m.item] else []
    ensures DdtOf(ms + [m]) == DdtOf(ms) + if m.Data? then [m.ddt] else []
  {
    assert (ms + [m])[..|ms|] == ms;
  }

  function PartOf(ms: seq<Member>): Part {
    SuitePart(ItemsOf(ms), DdtOf(ms))
  }

  function PartsOf(chunks: seq<seq<Member>>): (r: seq<Part>)
    ensures |r| == |chunks|
  {
    if chunks == [] then [] else PartsOf(chunks[..|chunks| - 1]) + [PartOf(chunks[|chunks| - 1])]
  }

  lemma {:induction false} PartsOfAt(chunks: seq<seq<Member>>, i: nat)
    requires i < |chunks|
    ensures PartsOf(chunks)[i] == PartOf(chunks[i])
  {
    if i < |chunks| - 1 {
      PartsOfAt(chunks[..|chunks| - 1], i);
    }
  }

  // ---- the index ----

  /** A member is indexed by its place among the members of its own kind in its part. */
  function Addition(m: Member, ordinal: nat, before: seq<Member>): Added {
    match m
    case Ordinary(item) =>
      Added([if item.packageName != "" then item.packageName else DEFAULT_PACKAGE],
            Entry(ordinal, |ItemsOf(before)|, Case, item.displayName))
    case Data(ddt) =>
      Added([ddt.srNum], Entry(ordinal, |DdtOf(before)|, Ddt, ddt.caseId))
  }

  function ChunkLog(chunk: seq<Member>, ordinal: nat): (r: seq<Added>)
    ensures |r| == |chunk|
  {
    if chunk == [] then []
    else
      var n := |chunk| - 1;
      ChunkLog(chunk[..n], ordinal) + [Addition(chunk[n], ordinal, chunk[..n])]
  }

  /** What the index is told about all parts, in order. */
  function SuiteLog(chunks: seq<seq<Member>>): seq<Added> {
    if chunks == [] then []
    else
      var n := |chunks| - 1;
      SuiteLog(chunks[..n]) + ChunkLog(chunks[n], n)
  }

  ghost predicate Resolves(a: Added, parts: seq<Part>, m: Member) {
    var e := a.entry;
    && e.ordinal < |parts| && parts[e.ordinal].SuitePart?
    && match m
       case Ordinary(item) =>
         e.kind == Case && e.name == item.displayName &&
         e.index < |parts[e.ordinal].members| && parts[e.ordinal].members[e.index] == item
       case Data(ddt) =>
         e.kind == Ddt && e.name == ddt.caseId &&
         e.index < |parts[e.ordinal].ddtItems| && parts[e.ordinal].ddtItems[e.index] == ddt
  }

  lemma {:induction false} ChunkResolves(chunk: seq<Member>, ordinal: nat, parts: seq<Part>, i: nat)
    requires i < |chunk| && ordinal < |parts| && parts[ordinal].SuitePart?
    requires ItemsOf(chunk) <= parts[ordinal].members && DdtOf(chunk) <= parts[ordinal].ddtItems
    ensures Resolves(ChunkLog(chunk, ordinal)[i], parts, chunk[i])
  {
    var n := |chunk| - 1;
    if i < n {
      ChunkResolves(chunk[..n], ordinal, parts, i);
    }
  }

  /** Every index entry names the very member it was added for, in the mixed parts too. */
  lemma {:induction false} EntriesResolve(chunks: seq<seq<Member>>, parts: seq<Part>, i: nat)
    requires i < |Flatten(chunks)| && PartsOf(chunks) <= parts
    ensures |SuiteLog(chunks)| == |Flatten(chunks)|
    ensures Resolves(SuiteLog(chunks)[i], parts, Flatten(chunks)[i])
    decreases |chunks|
  {
    var n := |chunks| - 1;
    assert chunks == chunks[..n] + [chunks[n]];
    FlattenSnoc(chunks[..n], chunks[n]);
    SameLength(chunks);
    SameLength(chunks[..n]);
    if i < |Flatten(chunks[..n])| {
      assert PartsOf(chunks[..n]) <= PartsOf(chunks);
      EntriesResolve(chunks[..n], parts, i);
    } else {
      PartsOfAt(chunks, n);
      ChunkResolves(chunks[n], n, parts, i - |Flatten(chunks[..n])|);
    }
  }

  lemma {:induction false} SameLength(chunks: seq<seq<Member>>)
    ensures |SuiteLog(chunks)| == |Flatten(chunks)|
    decreases |chunks|
  {
    if chunks != [] {
      var n := |chunks| - 1;
      assert chunks == chunks[..n] + [chunks[n]];
      FlattenSnoc(chunks[..n], chunks[n]);
      SameLength(chunks[..n]);
    }
  }

  // ---- the builder ----

  ghost function TreeOf(chunks: seq<seq<Member>>, le: NameOrder): Tree {
    TreeAt(SuiteLog(chunks), [], le)
  }

  ghost function IndexOf(chunks: seq<seq<Member>>, tree: bool, le: NameOrder): seq<Call> {
    if tree then IndexCalls(TreePages(TreeOf(chunks, le), |chunks|), |chunks|) else []
  }

  ghost function TreeInfoOf(kept: seq<Member>, chunks: seq<seq<Member>>, tree: bool, le: NameOrder): Option<TreeInfo> {
    if tree then Some(TreeInfo(RootOrdinal(TreeOf(chunks, le), |chunks|), |ItemsOf(kept)|, |DdtOf(kept)|)) else None
  }

  ghost function ManifestOf(suite: Suite, query: SuiteQuery, kept: seq<Member>, le: NameOrder): SuiteManifest
    requires ValidQuery(query)
  {
    var chunks := Chunks(kept, ChunkSize(query));
    SuiteManifest(|chunks|, |kept|, suite.revision, TreeInfoOf(kept, chunks, query.tree, le))
  }

  /** The data parts and, when asked for, the index pages right behind them. */
  ghost function CallsOf(query: SuiteQuery, kept: seq<Member>, le: NameOrder): seq<Call>
    requires ValidQuery(query)
  {
    var chunks := Chunks(kept, ChunkSize(query));
    Numbered(PartsOf(chunks), 0) + IndexOf(chunks, query.tree, le)
  }

  /** One run of the builder: the open chunk, the counters and the optional index. */
  class SuiteBuild {
    const suite: Suite
    const query: SuiteQuery
    const writer: PartWriter
    const tree: DirectorySnapshotIndex?
    var items: seq<SuiteItem>
    var ddtItems: seq<DdtItem>
    var partCount: nat
    var caseCount: nat
    var ordinaryCount: nat
    var ddtCount: nat
    ghost var chunk: seq<Member>
    ghost var kept: seq<Member>
    ghost var done: seq<seq<Member>>
    ghost const base: seq<Call>

    ghost predicate Counters()
      reads this
    {
      && ValidQuery(query) && (tree != null <==> query.tree)
      && AllFull(done, ChunkSize(query)) && Flatten(done) + chunk == kept
      && items == ItemsOf(chunk) && ddtItems == DdtOf(chunk)
      && partCount == |done| && caseCount == |Flatten(done)|
      && ordinaryCount == |ItemsOf(kept)| && ddtCount == |DdtOf(kept)|
    }

    ghost predicate Indexed()
      reads this, tree, if tree == null then {} else tree.repr
    {
      tree != null ==> tree.Valid() && tree.log == SuiteLog(done) + ChunkLog(chunk, |done|)
    }

    ghost predicate Written()
      reads this, writer
    {
      writer.calls == base + Numbered(PartsOf(done), 0)
    }

    ghost predicate Valid()
      reads this, writer, tree, if tree == null then {} else tree.repr
    {
      Counters() && |chunk| < ChunkSize(query) && Indexed() && Written()
    }

    constructor (suite: Suite, query: SuiteQuery, writer: PartWriter)
      requires ValidQuery(query)
      ensures Valid() && kept == [] && base == writer.calls
      ensures this.suite == suite && this.query == query && this.writer == writer
      ensures tree != null ==> fresh(tree) && fresh(tree.repr)
    {
      this.suite, this.query, this.writer := suite, query, writer;
      items, ddtItems, partCount, caseCount, ordinaryCount, ddtCount := [], [], 0, 0, 0, 0;
      chunk, kept, done := [], [], [];
      base := writer.calls;
      if query.tree {
        tree := new DirectorySnapshotIndex();
      } else {
        tree := null;
      }
    }

    /** Tell the index where the next member will be. */
    method Record(segment: string, entry: Entry, ghost m: Member)
      requires Valid() && Added([segment], entry) == Addition(m, |done|, chunk)
      modifies tree, if tree == null then {} else tree.repr
      ensures tree != null ==> tree.Valid() && tree.log == SuiteLog(done) + ChunkLog(chunk + [m], |done|)
      ensures tree != null ==> fresh(tree.repr - old(tree.repr))
    {
      assert (chunk + [m])[..|chunk|] == chunk;
      Assoc(SuiteLog(done), ChunkLog(chunk, |done|), [Addition(m, |done|, chunk)]);
      if tree != null {
        tree.Add([segment], entry);
      }
    }

    ghost method Extend(m: Member)
      requires Flatten(done) + chunk == kept
      modifies this`chunk, this`kept
      ensures chunk == old(chunk) + [m] && kept == old(kept) + [m] && Flatten(done) + chunk == kept
    {
      Assoc(Flatten(done), chunk, [m]);
      chunk, kept := chunk + [m], kept + [m];
    }

    method PushItem(item: SuiteItem)
      requires Counters() && |chunk| < ChunkSize(query)
      modifies this`items, this`ordinaryCount, this`chunk, this`kept
      ensures Counters() && chunk == old(chunk) + [Ordinary(item)] && kept == old(kept) + [Ordinary(item)]
    {
      OneMore(chunk, Ordinary(item));
      OneMore(kept, Ordinary(item));
      Extend(Ordinary(item));
      items := items + [item];
      ordinaryCount := ordinaryCount + 1;
    }

    method PushDdt(item: DdtItem)
      requires Counters() && |chunk| < ChunkSize(query)
      modifies this`ddtItems, this`ddtCount, this`chunk, this`kept
      ensures Counters() && chunk == old(chunk) + [Data(item)] && kept == old(kept) + [Data(item)]
    {
      OneMore(chunk, Data(item));
      OneMore(kept, Data(item));
      Extend(Data(item));
      ddtItems := ddtItems + [item];
      ddtCount := ddtCount + 1;
    }

    /** Write the open chunk and start a new one. */
    method Flush()
      requires Counters() && Written()
      modifies this`items, this`ddtItems, this`partCount, this`caseCount, this`chunk, this`done, writer
      ensures done == old(done) + [old(chunk)] && chunk == [] && Written()
      ensures items == [] && ddtItems == [] && partCount == |done| && caseCount == |Flatten(done)|
      ensures Flatten(done) == kept
    {
      SizesAdd(chunk);
      FlattenSnoc(done, chunk);
      hide Flatten, AllFull, Numbered;
      writer.WritePart(partCount, SuitePart(items, ddtItems));
      NumberedSnoc(PartsOf(done), PartOf(chunk), 0);
      Assoc(base, Numbered(PartsOf(done), 0), [Call(partCount, PartOf(chunk))]);
      assert (done + [chunk])[..|done|] == done;
      partCount := partCount + 1;
      caseCount := caseCount + |items| + |ddtItems|;
      done, chunk := done + [chunk], [];
      items, ddtItems := [], [];
    }

    method FlushIfFull()
      requires Counters() && |chunk| <= ChunkSize(query) && Indexed() && Written()
      modifies this`items, this`ddtItems, this`partCount, this`caseCount, this`chunk, this`done, writer
      ensures Valid() && kept == old(kept)
    {
      SizesAdd(chunk);
      var count := |items| + |ddtItems|;
      hide Flatten, SuiteLog, ChunkLog, PartsOf, Numbered, ItemsOf, DdtOf, AllFull, DirectorySnapshotIndex.Valid;
      if count >= ChunkSize(query) {
        FlushFull();
      }
    }

    method FlushFull()
      requires Counters() && |chunk| == ChunkSize(query) && Indexed() && Written()
      modifies this`items, this`ddtItems, this`partCount, this`caseCount, this`chunk, this`done, writer
      ensures Valid() && kept == old(kept)
    {
      LogFlushed(done, chunk);
      Flush();
      assert Flatten(done) + [] == Flatten(done);
    }

    method OfferItem(item: SuiteItem)
      requires Valid()
      modifies this, writer, tree, if tree == null then {} else tree.repr
      ensures Valid() && (tree != null ==> fresh(tree.repr - old(tree.repr)))
      ensures kept == old(kept) + if Keeps(suite, Ordinary(item)) then [Ordinary(item)] else []
    {
      hide Chunks, Flatten, SuiteLog, ChunkLog, PartsOf, Numbered, AllFull, ItemsOf, DdtOf,
        DirectorySnapshotIndex.Valid;
      if !suite.includesSearch(item.displayName + " " + item.className + " " + item.packageName) {
        return;
      }
      Record(if item.packageName != "" then item.packageName else DEFAULT_PACKAGE,
             Entry(partCount, |items|, Case, item.displayName), Ordinary(item));
      PushItem(item);
      FlushIfFull();
    }

    method OfferDdt(item: DdtItem)
      requires Valid()
      modifies this, writer, tree, if tree == null then {} else tree.repr
      ensures Valid() && (tree != null ==> fresh(tree.repr - old(tree.repr)))
      ensures kept == old(kept) + if Keeps(suite, Data(item)) then [Data(item)] else []
    {
      hide Chunks, Flatten, SuiteLog, ChunkLog, PartsOf, Numbered, AllFull, ItemsOf, DdtOf,
        DirectorySnapshotIndex.Valid;
      var className := if item.className.Some? then item.className.value else "";
      if !suite.includesSearch(item.caseId + " " + item.srNum + " " + className) {
        return;
      }
      Record(item.srNum, Entry(partCount, |ddtItems|, Ddt, item.caseId), Data(item));
      PushDdt(item);
      FlushIfFull();
    }

    method OfferItems(page: seq<SuiteItem>, ghost seen: seq<Member>)
      requires Valid() && kept == Kept(suite, seen)
      modifies this, writer, tree, if tree == null then {} else tree.repr
      ensures Valid() && (tree != null ==> fresh(tree.repr - old(tree.repr)))
      ensures kept == Kept(suite, seen + Ordinaries(page))
    {
      hide SuiteBuild.Valid, Kept, Keeps;
      assert seen + [] == seen;
      for i := 0 to |page|
        invariant Valid() && (tree != null ==> fresh(tree.repr - old(tree.repr)))
        invariant kept == Kept(suite, seen + Ordinaries(page[..i]))
      {
        OfferItem(page[i]);
        assert page[..i + 1][..i] == page[..i];
        Assoc(seen, Ordinaries(page[..i]), [Ordinary(page[i])]);
        KeptSnoc(suite, seen + Ordinaries(page[..i]), Ordinary(page[i]));
      }
      assert page[..|page|] == page;
    }

    method OfferDdts(page: seq<DdtItem>, ghost seen: seq<Member>)
      requires Valid() && kept == Kept(suite, seen)
      modifies this, writer, tree, if tree == null then {} else tree.repr
      ensures Valid() && (tree != null ==> fresh(tree.repr - old(tree.repr)))
      ensures kept == Kept(suite, seen + Datas(page))
    {
      hide SuiteBuild.Valid, Kept, Keeps;
      assert seen + [] == seen;
      for i := 0 to |page|
        invariant Valid() && (tree != null ==> fresh(tree.repr - old(tree.repr)))
        invariant kept == Kept(suite, seen + Datas(page[..i]))
      {
        OfferDdt(page[i]);
        assert page[..i + 1][..i] == page[..i];
        Assoc(seen, Datas(page[..i]), [Data(page[i])]);
        KeptSnoc(suite, seen + Datas(page[..i]), Data(page[i]));
      }
      assert page[..|page|] == page;
    }

    method OfferPage(page: SuitePage, ghost seen: seq<Member>)
      requires Valid() && kept == Kept(suite, seen)
      modifies this, writer, tree, if tree == null then {} else tree.repr
      ensures Valid() && (tree != null ==> fresh(tree.repr - old(tree.repr)))
      ensures kept == Kept(suite, seen + Members(page))
    {
      OfferItems(page.items, seen);
      OfferDdts(page.ddtItems, seen + Ordinaries(page.items));
      Assoc(seen, Ordinaries(page.items), Datas(page.ddtItems));
    }

    method FlushRest()
      requires Valid()
      modifies this`items, this`ddtItems, this`partCount, this`caseCount, this`chunk, this`done, writer
      ensures done == Chunks(kept, ChunkSize(query)) && partCount == |done| && caseCount == |kept|
      ensures Written() && kept == old(kept)
      ensures tree != null ==> tree.Valid() && tree.log == SuiteLog(done)
    {
      RestLog(done, chunk);
      hide Chunks, Flatten, SuiteLog, ChunkLog, PartsOf, Numbered, AllFull, ItemsOf, DdtOf,
        DirectorySnapshotIndex.Valid;
      ChunksAre(done, chunk, ChunkSize(query));
      SizesAdd(chunk);
      ghost var all := done + if chunk == [] then [] else [chunk];
      assert Chunks(kept, ChunkSize(query)) == all && (tree != null ==> tree.log == SuiteLog(all));
      if items != [] || ddtItems != [] {
        Flush();
      } else {
        ConcatNone(Flatten(done));
        ConcatNone(done);
      }
      assert done == all;
    }

    method Finish(le: NameOrder) returns (manifest: SuiteManifest)
      requires Valid() && NamesOrdered(le)
      modifies this, writer, tree, if tree == null then {} else tree.repr
      ensures kept == old(kept) && manifest == ManifestOf(suite, query, kept, le)
      ensures writer.calls == base + CallsOf(query, kept, le)
    {
      FlushRest();
      var info := WriteIndex(le);
      manifest := SuiteManifest(partCount, caseCount, suite.revision, info);
      Assoc(base, Numbered(PartsOf(done), 0), IndexOf(done, query.tree, le));
    }

    method WriteIndex(le: NameOrder) returns (info: Option<TreeInfo>)
      requires NamesOrdered(le) && (tree != null <==> query.tree) && partCount == |done|
      requires tree != null ==> tree.Valid() && tree.log == SuiteLog(done)
      requires ordinaryCount == |ItemsOf(kept)| && ddtCount == |DdtOf(kept)|
      modifies writer, tree, if tree == null then {} else tree.repr
      ensures info == TreeInfoOf(kept, done, query.tree, le)
      ensures writer.calls == old(writer.calls) + IndexOf(done, query.tree, le)
    {
      if tree == null {
        return None;
      }
      var root, _ := tree.Write(le, partCount, writer);
      return Some(TreeInfo(root, ordinaryCount, ddtCount));
    }
  }

  lemma RestLog(done: seq<seq<Member>>, chunk: seq<Member>)
    ensures SuiteLog(done) + ChunkLog(chunk, |done|) == SuiteLog(done + if chunk == [] then [] else [chunk])
  {
    if chunk == [] {
      ConcatNone(done);
      ConcatNone(SuiteLog(done));
    } else {
      LogFlushed(done, chunk);
    }
  }

  lemma LogFlushed(done: seq<seq<Member>>, chunk: seq<Member>)
    ensures SuiteLog(done + [chunk]) == SuiteLog(done) + ChunkLog(chunk, |done|)
    ensures SuiteLog(done + [chunk]) == SuiteLog(done + [chunk]) + ChunkLog([], |done| + 1)
  {
    assert (done + [chunk])[..|done|] == done;
  }

  datatype Outcome = Missing | RepeatedCursor | Built(manifest: SuiteManifest)

  /** `buildSuiteDirectorySnapshot`. */
  method BuildSuiteDirectorySnapshot(found: Option<Suite>, query: SuiteQuery, le: NameOrder, writer: PartWriter)
    returns (outcome: Outcome)
    requires found.Some? ==> ValidSuite(found.value)
    requires ValidQuery(query) && NamesOrdered(le)
    modifies writer
    ensures outcome.Missing? <==> found.None?
    ensures found.None? ==> writer.calls == old(writer.calls)
    ensures found.Some? ==> (outcome.RepeatedCursor? <==> SourceFrom(found.value, None, None).None?)
    ensures outcome.Built? ==>
      var kept := Kept(found.value, SourceFrom(found.value, None, None).value);
      && outcome.manifest == ManifestOf(found.value, query, kept, le)
      && writer.calls == old(writer.calls) + CallsOf(query, kept, le)
  {
    if found.None? {
      return Missing;
    }
    var manifest := BuildFound(found.value, query, le, writer);
    return if manifest.None? then RepeatedCursor else Built(manifest.value);
  }

  lemma KeptNone(suite: Suite)
    ensures Kept(suite, []) == []
  {
  }

  method BuildFound(suite: Suite, query: SuiteQuery, le: NameOrder, writer: PartWriter)
    returns (result: Option<SuiteManifest>)
    requires ValidSuite(suite) && ValidQuery(query) && NamesOrdered(le)
    modifies writer
    ensures result.None? <==> SourceFrom(suite, None, None).None?
    ensures result.Some? ==>
      var kept := Kept(suite, SourceFrom(suite, None, None).value);
      && result.value == ManifestOf(suite, query, kept, le)
      && writer.calls == old(writer.calls) + CallsOf(query, kept, le)
  {
    hide Kept, ManifestOf, CallsOf, SuiteBuild.Valid;
    var build := new SuiteBuild(suite, query, writer);
    var afterCase: Cursor, afterDdt: Cursor := None, None;
    ghost var seen: seq<Member> := [];
    KeptNone(suite);
    PrependNothing(SourceFrom(suite, None, None));
    var more := true;
    while more
      invariant Running(build, suite, query, writer, old(writer.calls), seen)
      invariant fresh(build) && (build.tree != null ==> fresh(build.tree) && fresh(build.tree.repr))
      invariant SourceFrom(suite, None, None) ==
        if more then Prepend(seen, SourceFrom(suite, afterCase, afterDdt)) else Some(seen)
      decreases suite.rank(afterCase, afterDdt), more
    {
      var page := suite.listMemberPage(Sent(afterCase), Sent(afterDdt));
      if AtEnd(page) {
        more := false;
        assert seen + [] == seen;
      } else {
        var nextCase, nextDdt := CaseCursor(page.value, afterCase), DdtCursor(page.value, afterDdt);
        if nextCase == afterCase && nextDdt == afterDdt {
          return None;
        }
        assert Progress(suite, afterCase, afterDdt);
        build.OfferPage(page.value, seen);
        PrependTwice(seen, Members(page.value), SourceFrom(suite, nextCase, nextDdt));
        seen := seen + Members(page.value);
        afterCase, afterDdt := nextCase, nextDdt;
      }
    }
    var manifest := build.Finish(le);
    return Some(manifest);
  }

  ghost predicate Running(
      build: SuiteBuild, suite: Suite, query: SuiteQuery, writer: PartWriter, base: seq<Call>, seen: seq<Member>)
    reads build, writer, build.writer, build.tree, if build.tree == null then {} else build.tree.repr
  {
    && build.Valid()
    && build.suite == suite && build.query == query && build.writer == writer && build.base == base
    && build.kept == Kept(suite, seen)
  }
}
