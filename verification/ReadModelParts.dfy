/** The numbered parts of one read-model snapshot and the sink they are written to. */
module ReadModelParts {
  import opened Options
  import opened DirectoryPages

  datatype CaseItem = CaseItem(id: string, directoryPath: string, displayName: string, detail: int)

  datatype Outcome = Outcome(caseDefinitionId: string, status: string)

  datatype SuiteItem =
    SuiteItem(id: string, displayName: string, className: string, packageName: string)

  datatype DdtItem = DdtItem(id: string, caseId: string, srNum: string, className: Option<string>)

  datatype Part =
    | CasePart(items: seq<CaseItem>, outcomes: seq<Outcome>)
    | SuitePart(members: seq<SuiteItem>, ddtItems: seq<DdtItem>)
    | IndexPart(page: IndexPage)

  datatype Call = Call(ordinal: nat, part: Part)

  /** Records the `writePart` calls of one build in order. */
  class PartWriter {
    var calls: seq<Call>

    constructor ()
      ensures calls == []
    {
      calls := [];
    }

    method WritePart(ordinal: nat, part: Part)
      modifies this
      ensures calls == old(calls) + [Call(ordinal, part)]
    {
      calls := calls + [Call(ordinal, part)];
    }
  }

  /** The calls that write `parts` under consecutive ordinals from `first`, each used once. */
  function Numbered(parts: seq<Part>, first: nat): (r: seq<Call>)
    ensures |r| == |parts|
  {
    if parts == [] then []
    else Numbered(parts[..|parts| - 1], first) + [Call(first + |parts| - 1, parts[|parts| - 1])]
  }

  lemma NumberedSnoc(parts: seq<Part>, part: Part, first: nat)
    ensures Numbered(parts + [part], first) == Numbered(parts, first) + [Call(first + |parts|, part)]
  {
    assert (parts + [part])[..|parts|] == parts;
  }

  lemma {:induction false} NumberedAt(parts: seq<Part>, first: nat, i: nat)
    requires i < |parts|
    ensures Numbered(parts, first)[i] == Call(first + i, parts[i])
  {
    if i < |parts| - 1 {
      NumberedAt(parts[..|parts| - 1], first, i);
    }
  }

  lemma {:induction false} NumberedConcat(a: seq<Part>, b: seq<Part>, first: nat)
    ensures Numbered(a + b, first) == Numbered(a, first) + Numbered(b, first + |a|)
  {
    if b == [] {
      ConcatNone(a);
    } else {
      NumberedConcat(a, b[..|b| - 1], first);
      FrontOfConcat(a, b);
    }
  }

  function IndexParts(pages: seq<IndexPage>): (r: seq<Part>)
    ensures |r| == |pages|
  {
    if pages == [] then [] else IndexParts(pages[..|pages| - 1]) + [IndexPart(pages[|pages| - 1])]
  }

  lemma {:induction false} IndexPartsConcat(a: seq<IndexPage>, b: seq<IndexPage>)
    ensures IndexParts(a + b) == IndexParts(a) + IndexParts(b)
  {
    if b == [] {
      ConcatNone(a);
    } else {
      IndexPartsConcat(a, b[..|b| - 1]);
      FrontOfConcat(a, b);
    }
  }

  /** The calls that write index pages from ordinal `first` on. */
  function IndexCalls(pages: seq<IndexPage>, first: nat): (r: seq<Call>)
    ensures |r| == |pages|
  {
    Numbered(IndexParts(pages), first)
  }

  lemma IndexCallsConcat(a: seq<IndexPage>, b: seq<IndexPage>, first: nat)
    ensures IndexCalls(a + b, first) == IndexCalls(a, first) + IndexCalls(b, first + |a|)
  {
    IndexPartsConcat(a, b);
    NumberedConcat(IndexParts(a), IndexParts(b), first);
  }

  lemma IndexCallsSnoc(a: seq<IndexPage>, page: IndexPage, first: nat)
    ensures IndexCalls(a + [page], first) == IndexCalls(a, first) + [Call(first + |a|, IndexPart(page))]
  {
    assert (a + [page])[..|a|] == a;
    NumberedSnoc(IndexParts(a), IndexPart(page), first);
  }
}
