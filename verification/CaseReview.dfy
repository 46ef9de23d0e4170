/** The two review stages over the included and the excluded cases of a workbook. */
module CaseReview {
  import opened Options

  datatype Level = Unmarked | L0 | L1 | L2

  /** The columns both sheets share. They travel with a case from one sheet to the other. */
  datatype Case = Case(title: string, packageName: string, className: string, path: string,
                       line: string, discovery: string)

  /** `evidence` has one entry per line: whether it only quotes a comment or a string. */
  datatype Row = Row(shared: Case, level: Level, evidence: seq<bool>)

  datatype Key = Zero | One | Five | Nine

  datatype Book = Book(included: seq<Row>, excluded: seq<Row>)

  predicate Classified(r: Row) { r.level.L0? || r.level.L1? }

  predicate AllClassified(rows: seq<Row>) { forall i {:trigger rows[i]} :: 0 <= i < |rows| ==> Classified(rows[i]) }

  /** Every line of the evidence is of the narrative kind, and there is one. */
  predicate NarrativeOnly(r: Row) { r.evidence != [] && forall i :: 0 <= i < |r.evidence| ==> r.evidence[i] }

  function Listed(rows: seq<Row>): multiset<Case> {
    if rows == [] then multiset{} else Listed(rows[..|rows| - 1]) + multiset{rows[|rows| - 1].shared}
  }

  /** All cases, on whichever sheet. */
  function Cases(b: Book): multiset<Case> { Listed(b.included) + Listed(b.excluded) }

  function NarrativeRows(rows: seq<Row>): nat {
    if rows == [] then 0 else NarrativeRows(rows[..|rows| - 1]) + if NarrativeOnly(rows[|rows| - 1]) then 1 else 0
  }

  /** The first unclassified row at or behind `i`. */
  function NextOpen(rows: seq<Row>, i: nat): (n: Option<nat>)
    ensures n.Some? ==> i <= n.value < |rows| && !Classified(rows[n.value])
    ensures forall k {:trigger rows[k]} :: i <= k < (if n.Some? then n.value else |rows|) ==> Classified(rows[k])
    decreases |rows| - i
  {
    if i >= |rows| then None else if !Classified(rows[i]) then Some(i) else NextOpen(rows, i + 1)
  }

  /** `next` is the first row at or behind `i` that has no level yet, if there is one. */
  ghost predicate IsNextOpen(rows: seq<Row>, i: nat, next: Option<nat>) {
    && (forall k {:trigger rows[k]} :: i <= k < (if next.Some? then next.value else |rows|) && k < |rows| ==>
          rows[k].level.L0? || rows[k].level.L1?)
    && (next.Some? ==> i <= next.value < |rows| && !rows[next.value].level.L0? && !rows[next.value].level.L1?)
  }

  function FirstNarrative(rows: seq<Row>, i: nat): (n: Option<nat>)
    ensures n.Some? ==> i <= n.value < |rows| && NarrativeOnly(rows[n.value])
    ensures n.None? ==> forall k {:trigger rows[k]} :: i <= k < |rows| ==> !NarrativeOnly(rows[k])
    decreases |rows| - i
  {
    if i >= |rows| then None else if NarrativeOnly(rows[i]) then Some(i) else FirstNarrative(rows, i + 1)
  }

  function Removed(rows: seq<Row>, i: nat): seq<Row>
    requires i < |rows|
  {
    rows[..i] + rows[i + 1..]
  }

  // ------------------------------------------------------------- the changes a key makes

  function Marked(b: Book, i: nat, level: Level): Book
    requires i < |b.included|
  {
    b.(included := b.included[i := b.included[i].(level := level)])
  }

  /** An included case goes to the end of the excluded sheet, with the manual reason only. */
  function MovedOut(b: Book, i: nat): Book
    requires i < |b.included|
  {
    Book(Removed(b.included, i), b.excluded + [Row(b.included[i].shared, L2, [false])])
  }

  /** A reviewed exclusion stays, with one more line of evidence that is not narrative. */
  function Confirmed(b: Book, i: nat): Book
    requires i < |b.excluded|
  {
    b.(excluded := b.excluded[i := b.excluded[i].(level := L2, evidence := b.excluded[i].evidence + [false])])
  }

  function MovedIn(b: Book, i: nat, level: Level): Book
    requires i < |b.excluded|
  {
    Book(b.included + [Row(b.excluded[i].shared, level, [])], Removed(b.excluded, i))
  }

  lemma {:induction false} ListedConcat(a: seq<Row>, b: seq<Row>)
    ensures Listed(a + b) == Listed(a) + Listed(b)
  {
    if b == [] {
      ConcatNone(a);
    } else {
      ListedConcat(a, b[..|b| - 1]);
      FrontOfConcat(a, b);
    }
  }

  lemma {:induction false} NarrativeConcat(a: seq<Row>, b: seq<Row>)
    ensures NarrativeRows(a + b) == NarrativeRows(a) + NarrativeRows(b)
  {
    hide NarrativeOnly;
    if b == [] {
      ConcatNone(a);
    } else {
      NarrativeConcat(a, b[..|b| - 1]);
      FrontOfConcat(a, b);
    }
  }

  lemma SumsConcat(a: seq<Row>, b: seq<Row>)
    ensures Listed(a + b) == Listed(a) + Listed(b) && NarrativeRows(a + b) == NarrativeRows(a) + NarrativeRows(b)
  {
    ListedConcat(a, b);
    NarrativeConcat(a, b);
  }

  lemma SumsOne(r: Row)
    ensures Listed([r]) == multiset{r.shared} && NarrativeRows([r]) == if NarrativeOnly(r) then 1 else 0
  {
    assert [r][..0] == [];
  }

  lemma SumsRemoved(rows: seq<Row>, i: nat)
    requires i < |rows|
    ensures Listed(rows) == Listed(Removed(rows, i)) + multiset{rows[i].shared}
    ensures NarrativeRows(rows) == NarrativeRows(Removed(rows, i)) + if NarrativeOnly(rows[i]) then 1 else 0
  {
    hide NarrativeOnly, Listed, NarrativeRows;
    AroundAt(rows, i);
    SumsConcat(rows[..i], [rows[i]] + rows[i + 1..]);
    SumsConcat([rows[i]], rows[i + 1..]);
    SumsConcat(rows[..i], rows[i + 1..]);
    SumsOne(rows[i]);
  }

  lemma SumsReplaced(rows: seq<Row>, i: nat, r: Row)
    requires i < |rows| && r.shared == rows[i].shared
    ensures Listed(rows[i := r]) == Listed(rows)
    ensures NarrativeRows(rows[i := r])
      == NarrativeRows(rows) - (if NarrativeOnly(rows[i]) then 1 else 0) + if NarrativeOnly(r) then 1 else 0
  {
    hide NarrativeOnly, Listed, NarrativeRows;
    SumsRemoved(rows, i);
    SumsRemoved(rows[i := r], i);
    assert Removed(rows[i := r], i) == Removed(rows, i);
  }

  /** Excluding an included case loses none, and adds nothing to the second stage. */
  lemma MovedOutKeeps(b: Book, i: nat)
    requires i < |b.included|
    ensures Cases(MovedOut(b, i)) == Cases(b) && NarrativeRows(MovedOut(b, i).excluded) == NarrativeRows(b.excluded)
  {
    hide NarrativeOnly, Listed, NarrativeRows;
    var r := Row(b.included[i].shared, L2, [false]);
    SumsRemoved(b.included, i);
    SumsConcat(b.excluded, [r]);
    SumsOne(r);
    NotNarrative(r, 0);
  }

  lemma NotNarrative(r: Row, i: nat)
    requires i < |r.evidence| && !r.evidence[i]
    ensures !NarrativeOnly(r)
  {
  }

  lemma MarkedKeeps(b: Book, i: nat, level: Level)
    requires i < |b.included|
    ensures Cases(Marked(b, i, level)) == Cases(b)
  {
    SumsReplaced(b.included, i, b.included[i].(level := level));
  }

  ghost predicate SameRows(rows: seq<Row>, was: seq<Row>, from: nat, to: nat, shift: nat) {
    to <= |rows| && to + shift <= |was| && forall k {:trigger rows[k]} :: from <= k < to ==> rows[k] == was[k + shift]
  }

  /** Where an excluded case goes: to the end of the other sheet with level L2 and a reason that is
    * no comment or string, while the rest of both sheets keeps its order. */
  lemma MovedOutGoes(b: Book, i: nat)
    requires i < |b.included|
    ensures var r, n := MovedOut(b, i), |b.excluded|;
      && |r.excluded| == n + 1 && SameRows(r.excluded, b.excluded, 0, n, 0)
      && r.excluded[n].shared == b.included[i].shared && r.excluded[n].level == L2 && !NarrativeOnly(r.excluded[n])
      && |r.included| == |b.included| - 1
      && SameRows(r.included, b.included, 0, i, 0) && SameRows(r.included, b.included, i, |r.included|, 1)
  {
    NotNarrative(MovedOut(b, i).excluded[|b.excluded|], 0);
  }

  /** And where a case goes that is taken back: to the end of the included sheet with its level. */
  lemma MovedInGoes(b: Book, i: nat, level: Level)
    requires i < |b.excluded|
    ensures var r, n := MovedIn(b, i, level), |b.included|;
      && |r.included| == n + 1 && SameRows(r.included, b.included, 0, n, 0)
      && r.included[n].shared == b.excluded[i].shared && r.included[n].level == level
      && |r.excluded| == |b.excluded| - 1
      && SameRows(r.excluded, b.excluded, 0, i, 0) && SameRows(r.excluded, b.excluded, i, |r.excluded|, 1)
  {
  }

  /** A level that is given and an exclusion that is confirmed change only that row; the confirmed
    * one has level L2 and keeps its evidence, to which one manual line is added. */
  lemma OneRowChanges(b: Book, i: nat, level: Level)
    ensures i < |b.included| ==>
      var r := Marked(b, i, level);
      && r.excluded == b.excluded && |r.included| == |b.included|
      && r.included[i].level == level && r.included[i].shared == b.included[i].shared
      && SameRows(r.included, b.included, 0, i, 0) && SameRows(r.included, b.included, i + 1, |b.included|, 0)
    ensures i < |b.excluded| ==>
      var r := Confirmed(b, i);
      && r.included == b.included && |r.excluded| == |b.excluded|
      && r.excluded[i].level == L2 && r.excluded[i].shared == b.excluded[i].shared
      && b.excluded[i].evidence < r.excluded[i].evidence && !NarrativeOnly(r.excluded[i])
      && SameRows(r.excluded, b.excluded, 0, i, 0) && SameRows(r.excluded, b.excluded, i + 1, |b.excluded|, 0)
  {
    if i < |b.excluded| {
      NotNarrative(Confirmed(b, i).excluded[i], |b.excluded[i].evidence|);
    }
  }

  /** Whatever is decided about a narrative-only exclusion, one fewer is left, no case is lost,
    * and the included cases stay classified. */
  lemma DecisionKeeps(b: Book, i: nat, level: Level)
    requires i < |b.excluded| && NarrativeOnly(b.excluded[i]) && (level.L0? || level.L1?)
    ensures Cases(Confirmed(b, i)) == Cases(b) &&
      NarrativeRows(Confirmed(b, i).excluded) == NarrativeRows(b.excluded) - 1
    ensures Cases(MovedIn(b, i, level)) == Cases(b) &&
      NarrativeRows(MovedIn(b, i, level).excluded) == NarrativeRows(b.excluded) - 1
    ensures AllClassified(b.included) ==>
      AllClassified(Confirmed(b, i).included) && AllClassified(MovedIn(b, i, level).included)
  {
    hide NarrativeOnly, Cases, NarrativeRows;
    ConfirmedKeeps(b, i);
    MovedInKeeps(b, i, level);
  }

  lemma ConfirmedKeeps(b: Book, i: nat)
    requires i < |b.excluded| && NarrativeOnly(b.excluded[i])
    ensures Cases(Confirmed(b, i)) == Cases(b) &&
      NarrativeRows(Confirmed(b, i).excluded) == NarrativeRows(b.excluded) - 1
  {
    hide NarrativeOnly, Listed, NarrativeRows;
    var r := b.excluded[i].(level := L2, evidence := b.excluded[i].evidence + [false]);
    NotNarrative(r, |b.excluded[i].evidence|);
    SumsReplaced(b.excluded, i, r);
  }

  lemma MovedInKeeps(b: Book, i: nat, level: Level)
    requires i < |b.excluded| && NarrativeOnly(b.excluded[i])
    ensures Cases(MovedIn(b, i, level)) == Cases(b) &&
      NarrativeRows(MovedIn(b, i, level).excluded) == NarrativeRows(b.excluded) - 1
  {
    hide NarrativeOnly, Listed, NarrativeRows;
    SumsRemoved(b.excluded, i);
    var moved := Row(b.excluded[i].shared, level, []);
    SumsConcat(b.included, [moved]);
    SumsOne(moved);
  }

  lemma {:induction false} NoNarrativeRows(rows: seq<Row>)
    ensures NarrativeRows(rows) == 0 <==> forall k {:trigger rows[k]} :: 0 <= k < |rows| ==> !NarrativeOnly(rows[k])
  {
    hide NarrativeOnly;
    if rows != [] { NoNarrativeRows(rows[..|rows| - 1]); }
  }

  // ------------------------------------------------------------- a whole review

  /** The book a key leaves when row `i` is shown, and the row that is shown next. */
  function Pressed(b: Book, i: nat, key: Key): Book
    requires i < |b.included|
  {
    match key
    case Nine => b
    case Five => MovedOut(b, i)
    case Zero => Marked(b, i, L0)
    case One => Marked(b, i, L1)
  }

  function ShownNext(b: Book, i: nat, key: Key): Option<nat>
    requires i < |b.included|
  {
    match key
    case Nine => Some(if i == 0 then 0 else i - 1)
    case Five => NextOpen(Pressed(b, i, key).included, i)
    case _ => NextOpen(Pressed(b, i, key).included, i + 1)
  }

  /** Where a stage stands: the book, the row shown, and the keys not pressed yet. */
  datatype Session = Session(book: Book, shown: Option<nat>, keys: seq<Key>)

  /** The first stage: key after key, until no row is shown or the keys run out. */
  function Reviewed(s: Session): Session
    decreases |s.keys|
  {
    if s.shown.None? || s.keys == [] || s.shown.value >= |s.book.included| then s
    else
      var i, key := s.shown.value, s.keys[0];
      Reviewed(Session(Pressed(s.book, i, key), ShownNext(s.book, i, key), s.keys[1..]))
  }

  function Decided(b: Book, i: nat, key: Key): Book
    requires i < |b.excluded|
  {
    if key.Nine? then b
    else if key.Five? then Confirmed(b, i)
    else MovedIn(b, i, if key.Zero? then L0 else L1)
  }

  /** The second stage: always the first narrative-only exclusion that is left. */
  function Rechecked(b: Book, keys: seq<Key>): Session
    decreases |keys|
  {
    var next := FirstNarrative(b.excluded, 0);
    if next.None? || keys == [] then Session(b, next, keys)
    else Rechecked(Decided(b, next.value, keys[0]), keys[1..])
  }

  /** Both stages, the second one only when the first is through. */
  function Staged(b: Book, keys: seq<Key>): Session {
    var first := Reviewed(Session(b, NextOpen(b.included, 0), keys));
    if first.shown.Some? then first else Rechecked(first.book, first.keys)
  }

  lemma NothingShown(b: Book, keys: seq<Key>)
    ensures Reviewed(Session(b, None, keys)) == Session(b, None, keys)
  {
  }

  lemma AllOpenSeen(rows: seq<Row>)
    requires NextOpen(rows, 0).None?
    ensures AllClassified(rows)
  {
  }

  // ------------------------------------------------------------- the reviewer

  class CaseLevelReviewer {
    var included: seq<Row>
    var excluded: seq<Row>

    function View(): Book
      reads this
    {
      Book(included, excluded)
    }

    constructor (included: seq<Row>, excluded: seq<Row>)
      ensures View() == Book(included, excluded)
    {
      this.included, this.excluded := included, excluded;
    }

    /** Stage one, over a sequence of keys that ends when the review is paused: everything
      * before the current row is classified, so the stage completes only when all rows are. */
    method ReviewIncludedCases(first: nat, keys: seq<Key>) returns (completed: bool, used: nat)
      requires NextOpen(included, 0) == Some(first)
      modifies this
      ensures Cases(View()) == old(Cases(View())) && NarrativeRows(excluded) == old(NarrativeRows(excluded))
      ensures used <= |keys|
      ensures var end := Reviewed(Session(old(View()), Some(first), keys));
        end.book == View() && end.keys == keys[used..] && (completed <==> end.shown.None?)
      ensures completed ==> AllClassified(included)
      ensures !completed ==> used == |keys| && !AllClassified(included)
    {
      var current: Option<nat> := Some(first);
      used := 0;
      while current.Some?
        invariant current.Some? ==> !AllClassified(included)
        invariant used <= |keys| && Reviewed(Session(old(View()), Some(first), keys))
          == Reviewed(Session(View(), current, keys[used..]))
        invariant used <= |keys| && Cases(View()) == old(Cases(View())) &&
          NarrativeRows(excluded) == old(NarrativeRows(excluded))
        invariant current.Some? ==> current.value < |included|
        invariant forall k {:trigger included[k]} :: 0 <= k < (if current.Some? then current.value else |included|) ==>
          Classified(included[k])
        decreases current.Some?, |keys| - used
      {
        if used == |keys| { return false, used; }
        var key := keys[used];
        used := used + 1;
        assert keys[used - 1..][1..] == keys[used..];
        current := PressIncluded(current.value, key);
      }
      completed := true;
    }

    /** What one key does at row `i`; tells which row comes next. */
    method PressIncluded(i: nat, key: Key) returns (next: Option<nat>)
      requires i < |included| && forall k {:trigger included[k]} :: 0 <= k < i ==> Classified(included[k])
      requires !AllClassified(included)
      modifies this
      ensures View() == Pressed(old(View()), i, key) && next == ShownNext(old(View()), i, key)
      ensures Cases(View()) == old(Cases(View())) && NarrativeRows(excluded) == old(NarrativeRows(excluded))
      ensures next.Some? ==> next.value < |included| && !AllClassified(included)
      ensures key.Nine? ==> next == Some(if i == 0 then 0 else i - 1)
      ensures !key.Nine? ==> IsNextOpen(included, if key.Five? then i else i + 1, next)
      ensures forall k {:trigger included[k]} :: 0 <= k < (if next.Some? then next.value else |included|) ==>
        Classified(included[k])
    {
      hide Cases, Listed, NarrativeRows;
      match key
      case Nine =>
        next := Some(if i == 0 then 0 else i - 1);
      case Five =>
        MovedOutKeeps(View(), i);
        excluded := excluded + [Row(included[i].shared, L2, [false])];
        included := included[..i] + included[i + 1..];
        next := NextOpen(included, i);
      case _ =>
        var level := if key.Zero? then L0 else L1;
        MarkedKeeps(View(), i, level);
        included := included[i := included[i].(level := level)];
        next := NextOpen(included, i + 1);
    }

    /** Stage two: each decision leaves one narrative-only exclusion fewer. */
    method ReviewNarrativeOnlyExclusions(keys: seq<Key>) returns (completed: bool, used: nat)
      requires AllClassified(included)
      modifies this
      ensures Cases(View()) == old(Cases(View())) && AllClassified(included) && used <= |keys|
      ensures used <= |keys|
      ensures var end := Rechecked(old(View()), keys);
        end.book == View() && end.keys == keys[used..] && (completed <==> end.shown.None?)
      ensures completed <==> NarrativeRows(excluded) == 0
      ensures NarrativeRows(excluded) + Decisions(keys[..used]) == old(NarrativeRows(excluded))
      ensures !completed ==> used == |keys|
    {
      hide Cases, AllClassified, NarrativeRows, NarrativeOnly;
      used := 0;
      var remaining := FirstNarrative(excluded, 0);
      assert keys[..0] == [];
      NoNarrativeRows(excluded);
      while remaining.Some?
        invariant used <= |keys| && Cases(View()) == old(Cases(View())) && AllClassified(included)
        invariant remaining == FirstNarrative(excluded, 0) && (remaining.None? <==> NarrativeRows(excluded) == 0)
        invariant NarrativeRows(excluded) + Decisions(keys[..used]) == old(NarrativeRows(excluded))
        invariant Rechecked(old(View()), keys) == Rechecked(View(), keys[used..])
        decreases |keys| - used, remaining.Some?
      {
        if used == |keys| { return false, used; }
        var key := keys[used];
        assert keys[..used + 1][..used] == keys[..used] && keys[used..][1..] == keys[used + 1..];
        used := used + 1;
        if !key.Nine? { Decide(remaining.value, key); }
        NoNarrativeRows(excluded);
        remaining := FirstNarrative(excluded, 0);
      }
      completed := true;
    }

    method Decide(i: nat, key: Key)
      requires i < |excluded| && NarrativeOnly(excluded[i]) && !key.Nine? && AllClassified(included)
      modifies this
      ensures View() == Decided(old(View()), i, key)
      ensures Cases(View()) == old(Cases(View())) && NarrativeRows(excluded) == old(NarrativeRows(excluded)) - 1
      ensures AllClassified(included)
    {
      hide Cases, Listed, NarrativeRows, AllClassified;
      var level := if key.Zero? then L0 else L1;
      DecisionKeeps(View(), i, level);
      if key.Five? {
        excluded := excluded[i := excluded[i].(level := L2, evidence := excluded[i].evidence + [false])];
      } else {
        included := included + [Row(excluded[i].shared, level, [])];
        excluded := excluded[..i] + excluded[i + 1..];
      }
    }

    /** Both stages, the second one only after the first is through. */
    method ReviewStages(keys: seq<Key>) returns (completed: bool)
      modifies this
      ensures Cases(View()) == old(Cases(View()))
      ensures View() == Staged(old(View()), keys).book && (completed <==> Staged(old(View()), keys).shown.None?)
      ensures completed ==> AllClassified(included) && NarrativeRows(excluded) == 0
    {
      hide Cases, AllClassified, NarrativeRows, Reviewed, Rechecked;
      var first := NextOpen(included, 0);
      var used := 0;
      NothingShown(View(), keys);
      assert keys[0..] == keys;
      if first.Some? {
        completed, used := ReviewIncludedCases(first.value, keys);
        if !completed { return; }
      } else {
        AllOpenSeen(included);
      }
      completed, used := ReviewNarrativeOnlyExclusions(keys[used..]);
    }
  }

  function Decisions(keys: seq<Key>): nat {
    if keys == [] then 0 else Decisions(keys[..|keys| - 1]) + if keys[|keys| - 1].Nine? then 0 else 1
  }
}
