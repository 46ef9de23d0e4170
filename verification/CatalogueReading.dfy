/** What a build reads from the catalogue or a suite: the pages along the cursors, once each. */
module CatalogueReading {
  import opened Options
  import opened ReadModelParts
  import Cases = CaseDirectoryBuilder
  import Suites = SuiteDirectoryBuilder

  // ---- the case catalogue ----

  function NextOf(catalog: Cases.Catalog, c: Option<string>): Option<string> {
    var next := catalog.listCases(c).nextCursor;
    if next.Some? && next.value != "" then next else None
  }

  /** Each cursor is the one the page before it named, the first page is asked for without one. */
  predicate Chain(catalog: Cases.Catalog, cs: seq<Option<string>>) {
    && cs != [] && cs[0].None?
    && forall k {:trigger cs[k]} :: 0 < k < |cs| ==> cs[k].Some? && cs[k] == NextOf(catalog, cs[k - 1])
  }

  predicate Distinct(cs: seq<Option<string>>) { forall i, k :: 0 < i < k < |cs| ==> cs[i] != cs[k] }

  function PagesOf(catalog: Cases.Catalog, cs: seq<Option<string>>): seq<CaseItem> {
    if cs == [] then [] else catalog.listCases(cs[0]).items + PagesOf(catalog, cs[1..])
  }

  function Seen(cs: seq<Option<string>>, k: nat): set<string>
    requires k < |cs|
  {
    set i | 0 < i <= k && cs[i].Some? :: cs[i].value
  }

  /** The listing ends, or names a cursor a second time. */
  predicate Ends(catalog: Cases.Catalog, cs: seq<Option<string>>)
    requires cs != []
  {
    NextOf(catalog, cs[|cs| - 1]).None?
  }

  predicate Repeats(catalog: Cases.Catalog, cs: seq<Option<string>>)
    requires cs != []
  {
    var next := NextOf(catalog, cs[|cs| - 1]);
    next.Some? && exists i :: 0 < i < |cs| && cs[i] == next
  }

  lemma {:induction false} ReadFrom(catalog: Cases.Catalog, cs: seq<Option<string>>, k: nat)
    requires Cases.ValidCatalog(catalog) && Chain(catalog, cs) && Distinct(cs) && k < |cs|
    requires Ends(catalog, cs) || Repeats(catalog, cs)
    ensures Seen(cs, k) <= catalog.cursors
    ensures Cases.SourceFrom(catalog, cs[k], Seen(cs, k)) ==
      if Ends(catalog, cs) then Some(PagesOf(catalog, cs[k..])) else None
    decreases |cs| - k
  {
    SeenKnown(catalog, cs, k);
    if k < |cs| - 1 {
      ReadFrom(catalog, cs, k + 1);
      assert Seen(cs, k + 1) == Seen(cs, k) + {cs[k + 1].value};
      assert cs[k..][1..] == cs[k + 1..] && cs[k + 1].value !in Seen(cs, k);
    } else {
      assert cs[k..][1..] == [];
      ConcatNone(catalog.listCases(cs[k]).items);
    }
  }

  lemma SeenKnown(catalog: Cases.Catalog, cs: seq<Option<string>>, k: nat)
    requires Cases.ValidCatalog(catalog) && Chain(catalog, cs) && k < |cs|
    ensures Seen(cs, k) <= catalog.cursors
  {
    forall i | 0 < i <= k
      ensures cs[i].Some? && cs[i].value in catalog.cursors
    {
      assert cs[i] == NextOf(catalog, cs[i - 1]);
    }
  }

  /** Following the cursors to the end gives the items of all pages in order, and following them to
    * one that came before is the error. */
  lemma CatalogueRead(catalog: Cases.Catalog, cs: seq<Option<string>>)
    requires Cases.ValidCatalog(catalog) && Chain(catalog, cs) && Distinct(cs)
    requires Ends(catalog, cs) || Repeats(catalog, cs)
    ensures Cases.SourceFrom(catalog, None, {}) == if Ends(catalog, cs) then Some(PagesOf(catalog, cs)) else None
  {
    ReadFrom(catalog, cs, 0);
    assert Seen(cs, 0) == {} && cs[0..] == cs;
  }

  lemma LongerChain(catalog: Cases.Catalog, cs: seq<Option<string>>, next: Option<string>)
    requires Cases.ValidCatalog(catalog) && Chain(catalog, cs) && Distinct(cs) && next.Some?
    requires next == NextOf(catalog, cs[|cs| - 1]) && forall i :: 0 < i < |cs| ==> cs[i] != next
    ensures Chain(catalog, cs + [next]) && Distinct(cs + [next])
    ensures next.value in Seen(cs + [next], |cs|) && next.value !in Seen(cs, |cs| - 1)
    ensures Seen(cs, |cs| - 1) <= Seen(cs + [next], |cs|) <= catalog.cursors
  {
    assert Chain(catalog, cs + [next]) && Distinct(cs + [next]);
    SeenKnown(catalog, cs + [next], |cs|);
    hide Chain, Distinct;
    SeenSnoc(cs, next);
  }

  lemma SeenSnoc(cs: seq<Option<string>>, next: Option<string>)
    requires cs != [] && next.Some? && forall i :: 0 < i < |cs| ==> cs[i] != next
    ensures next.value in Seen(cs + [next], |cs|) && next.value !in Seen(cs, |cs| - 1)
    ensures Seen(cs, |cs| - 1) <= Seen(cs + [next], |cs|)
  {
    var longer := cs + [next];
    assert longer[|cs|] == next;
    forall x | x in Seen(cs, |cs| - 1)
      ensures x in Seen(longer, |cs|)
    {
      var i :| 0 < i <= |cs| - 1 && cs[i].Some? && cs[i].value == x;
      assert longer[i] == cs[i];
    }
  }

  /** And the cursors always lead to one or the other. */
  lemma {:induction false} CursorsLead(catalog: Cases.Catalog, cs: seq<Option<string>>)
    returns (all: seq<Option<string>>)
    requires Cases.ValidCatalog(catalog) && Chain(catalog, cs) && Distinct(cs)
    ensures cs <= all && Chain(catalog, all) && Distinct(all) && (Ends(catalog, all) || Repeats(catalog, all))
    decreases catalog.cursors - Seen(cs, |cs| - 1)
  {
    if Ends(catalog, cs) || Repeats(catalog, cs) {
      all := cs;
    } else {
      var next := NextOf(catalog, cs[|cs| - 1]);
      var longer := cs + [next];
      SeenKnown(catalog, cs, |cs| - 1);
      LongerChain(catalog, cs, next);
      hide Seen, Chain, Distinct;
      all := CursorsLead(catalog, longer);
    }
  }

  // ---- a suite ----

  /** Both cursors start empty, and each moves to the last member of its kind on the page. */
  predicate SuiteChain(suite: Suites.Suite, cs: seq<(Option<string>, Option<string>)>) {
    && cs != [] && cs[0] == (None, None)
    && forall k {:trigger cs[k]} :: 0 < k < |cs| ==>
         HasPage(suite, cs[k - 1]) && cs[k] != cs[k - 1] && Moves(suite, cs[k - 1], cs[k])
  }

  function PageAfter(suite: Suites.Suite, c: (Option<string>, Option<string>)): Option<Suites.SuitePage> {
    suite.listMemberPage(if c.0 == Some("") then None else c.0, if c.1 == Some("") then None else c.1)
  }

  predicate HasPage(suite: Suites.Suite, c: (Option<string>, Option<string>)) {
    PageAfter(suite, c).Some? && |PageAfter(suite, c).value.items| + |PageAfter(suite, c).value.ddtItems| > 0
  }

  predicate Moves(suite: Suites.Suite, c: (Option<string>, Option<string>), d: (Option<string>, Option<string>)) {
    HasPage(suite, c) ==>
      var page := PageAfter(suite, c).value;
      && d.0 == (if |page.items| > 0 then Some(page.items[|page.items| - 1].id) else c.0)
      && d.1 == (if |page.ddtItems| > 0 then Some(page.ddtItems[|page.ddtItems| - 1].id) else c.1)
  }

  /** All members of the pages, each page's ordinary ones first. */
  function MembersOf(suite: Suites.Suite, cs: seq<(Option<string>, Option<string>)>): seq<Suites.Member> {
    if cs == [] || PageAfter(suite, cs[0]).None? then []
    else PageMembers(PageAfter(suite, cs[0]).value) + MembersOf(suite, cs[1..])
  }

  function PageMembers(page: Suites.SuitePage): seq<Suites.Member> {
    seq(|page.items|, i requires 0 <= i < |page.items| => Suites.Ordinary(page.items[i])) +
    seq(|page.ddtItems|, i requires 0 <= i < |page.ddtItems| => Suites.Data(page.ddtItems[i]))
  }

  lemma {:induction false} OrdinariesAt(items: seq<SuiteItem>)
    ensures forall i :: 0 <= i < |items| ==> Suites.Ordinaries(items)[i] == Suites.Ordinary(items[i])
  {
    if items != [] { OrdinariesAt(items[..|items| - 1]); }
  }

  lemma {:induction false} DatasAt(items: seq<DdtItem>)
    ensures forall i :: 0 <= i < |items| ==> Suites.Datas(items)[i] == Suites.Data(items[i])
  {
    if items != [] { DatasAt(items[..|items| - 1]); }
  }

  lemma PageMembersAre(page: Suites.SuitePage)
    ensures Suites.Members(page) == PageMembers(page)
  {
    OrdinariesAt(page.items);
    DatasAt(page.ddtItems);
  }

  lemma {:induction false} SuiteReadFrom(suite: Suites.Suite, cs: seq<(Option<string>, Option<string>)>, k: nat)
    requires Suites.ValidSuite(suite) && SuiteChain(suite, cs) && k < |cs|
    requires var last := cs[|cs| - 1]; HasPage(suite, last) ==> Moves(suite, last, last)
    ensures Suites.SourceFrom(suite, cs[k].0, cs[k].1) ==
      if HasPage(suite, cs[|cs| - 1]) then None else Some(MembersOf(suite, cs[k..]))
    decreases |cs| - k
  {
    hide HasPage, Moves, SuiteChain, MembersOf, PageMembers, PageAfter, Suites.SourceFrom, Suites.ValidSuite;
    assert cs[k..] == [cs[k]] + cs[k + 1..];
    if k < |cs| - 1 {
      SuiteReadFrom(suite, cs, k + 1);
      ChainStep(suite, cs, k + 1);
      SuiteStep(suite, cs[k], cs[k + 1]);
      MembersCons(suite, cs[k], cs[k + 1..]);
    } else {
      assert cs[k + 1..] == [] && cs[k..] == [cs[k]];
      SuiteEnd(suite, cs[k]);
    }
  }

  lemma ChainStep(suite: Suites.Suite, cs: seq<(Option<string>, Option<string>)>, k: nat)
    requires SuiteChain(suite, cs) && 0 < k < |cs|
    ensures HasPage(suite, cs[k - 1]) && cs[k] != cs[k - 1] && Moves(suite, cs[k - 1], cs[k])
  {
    var next := cs[k];
  }

  lemma SuiteStep(suite: Suites.Suite, c: (Option<string>, Option<string>), d: (Option<string>, Option<string>))
    requires Suites.ValidSuite(suite) && HasPage(suite, c) && d != c && Moves(suite, c, d)
    ensures Suites.SourceFrom(suite, c.0, c.1)
         == Suites.Prepend(PageMembers(PageAfter(suite, c).value), Suites.SourceFrom(suite, d.0, d.1))
  {
    PageMembersAre(PageAfter(suite, c).value);
    hide PageMembers, Suites.Members;
  }

  lemma SuiteEnd(suite: Suites.Suite, c: (Option<string>, Option<string>))
    requires Suites.ValidSuite(suite) && (HasPage(suite, c) ==> Moves(suite, c, c))
    ensures Suites.SourceFrom(suite, c.0, c.1) == if HasPage(suite, c) then None else Some(MembersOf(suite, [c]))
  {
    assert [c][1..] == [];
    if PageAfter(suite, c).Some? && !HasPage(suite, c) {
      assert PageMembers(PageAfter(suite, c).value) == [];
    }
  }

  lemma MembersCons(suite: Suites.Suite, c: (Option<string>, Option<string>), cs: seq<(Option<string>, Option<string>)>)
    requires HasPage(suite, c)
    ensures Some(MembersOf(suite, [c] + cs))
         == Suites.Prepend(PageMembers(PageAfter(suite, c).value), Some(MembersOf(suite, cs)))
  {
    assert ([c] + cs)[1..] == cs;
  }

  /** Following both cursors to a page without members gives the members of all pages in order;
    * a page with members that moves neither cursor is the error. */
  lemma SuiteRead(suite: Suites.Suite, cs: seq<(Option<string>, Option<string>)>)
    requires Suites.ValidSuite(suite) && SuiteChain(suite, cs)
    requires var last := cs[|cs| - 1]; HasPage(suite, last) ==> Moves(suite, last, last)
    ensures Suites.SourceFrom(suite, None, None) ==
      if HasPage(suite, cs[|cs| - 1]) then None else Some(MembersOf(suite, cs))
  {
    SuiteReadFrom(suite, cs, 0);
    assert cs[0..] == cs;
  }

  // ---- the outcome filter ----

  /** Searching apart, the filters divide the cases: one that "all" keeps is kept by "never" or by
    * the status its latest outcome has, and by no other. */
  lemma FiltersDivide(catalog: Cases.Catalog, query: Cases.CaseQuery, item: CaseItem, status: string)
    requires status != "all" && status != "never"
    ensures var latest := catalog.outcomeOf(item.id);
      && Cases.Keeps(catalog, query.(outcome := Some("all")), item)
           == Cases.Keeps(catalog, query.(outcome := None), item)
      && Cases.Keeps(catalog, query.(outcome := Some("never")), item)
           == (Cases.Keeps(catalog, query.(outcome := None), item) && latest.None?)
      && Cases.Keeps(catalog, query.(outcome := Some(status)), item)
           == (Cases.Keeps(catalog, query.(outcome := None), item) && latest.Some? &&
             catalog.classify(latest.value) == status)
      && (Cases.Keeps(catalog, query.(outcome := None), item) <==>
            catalog.matchesSearch(item)
            && (query.missingSuiteId.None? || query.missingSuiteId.value == "" || !catalog.isMember(item.id)))
  {
  }
}
