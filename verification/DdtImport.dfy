/** Previewing and executing an import of several tables: which cases a file brings, and how
  * files and rows are counted. */
module DdtImport {
  // ------------------------------------------------------------- preview

  /** A table row: the CaseID in lower case, its data, and whether its template accepts it. */
  datatype Row = Row(caseId: string, data: string, accepted: bool)

  datatype Preview = Accepted(rows: nat, inserted: int, updated: nat, same: nat) | Rejected

  const PAGE := 64

  function Ids(rows: seq<Row>): set<string> {
    if rows == [] then {} else Ids(rows[..|rows| - 1]) + {rows[|rows| - 1].caseId}
  }

  /** No two rows share a CaseID, none is in `seen`, and all are accepted by their template. */
  predicate Importable(rows: seq<Row>, seen: set<string>) {
    rows == [] ||
      var front, last := rows[..|rows| - 1], rows[|rows| - 1];
      Importable(front, seen) && last.accepted && last.caseId !in seen && last.caseId !in Ids(front)
  }

  function Known(rows: seq<Row>, stored: map<string, string>): nat {
    if rows == [] then 0
    else Known(rows[..|rows| - 1], stored) + if rows[|rows| - 1].caseId in stored then 1 else 0
  }

  function Same(rows: seq<Row>, stored: map<string, string>): nat {
    if rows == [] then 0
    else
      var last := rows[|rows| - 1];
      Same(rows[..|rows| - 1], stored) + if last.caseId in stored && stored[last.caseId] == last.data then 1 else 0
  }

  lemma {:induction false} ImportablePrefix(rows: seq<Row>, seen: set<string>, k: nat)
    requires Importable(rows, seen) && k <= |rows|
    ensures Importable(rows[..k], seen)
  {
    if k < |rows| {
      ImportablePrefix(rows[..|rows| - 1], seen, k);
      assert rows[..|rows| - 1][..k] == rows[..k];
    } else {
      assert rows[..k] == rows;
    }
  }

  lemma {:induction false} IdsMean(rows: seq<Row>, id: string)
    ensures id in Ids(rows) <==> exists i :: 0 <= i < |rows| && rows[i].caseId == id
  {
    if rows != [] {
      IdsMean(rows[..|rows| - 1], id);
      assert rows == rows[..|rows| - 1] + [rows[|rows| - 1]];
    }
  }

  /** A file can be imported exactly when its template accepts every row and no CaseID of it came
    * before, neither in another file nor in an earlier row. */
  lemma {:induction false} ImportableMeans(rows: seq<Row>, seen: set<string>)
    ensures Importable(rows, seen) <==>
      && (forall i :: 0 <= i < |rows| ==> rows[i].accepted && rows[i].caseId !in seen)
      && (forall i, k :: 0 <= i < k < |rows| ==> rows[i].caseId != rows[k].caseId)
  {
    if rows != [] {
      var front, last := rows[..|rows| - 1], rows[|rows| - 1];
      ImportableMeans(front, seen);
      IdsMean(front, last.caseId);
      assert rows == front + [last];
    }
  }

  /** The CaseIDs with a stored row, and those whose stored row says the same. */
  function StoredIds(rows: seq<Row>, stored: map<string, string>): set<string> {
    set i | 0 <= i < |rows| && rows[i].caseId in stored :: rows[i].caseId
  }

  function UnchangedIds(rows: seq<Row>, stored: map<string, string>): set<string> {
    set i | 0 <= i < |rows| && rows[i].caseId in stored && stored[rows[i].caseId] == rows[i].data :: rows[i].caseId
  }

  /** Of a file that can be imported, the rows counted as known and as unchanged are those CaseIDs. */
  lemma {:induction false} CountsMean(rows: seq<Row>, seen: set<string>, stored: map<string, string>)
    requires Importable(rows, seen)
    ensures Known(rows, stored) == |StoredIds(rows, stored)| && Same(rows, stored) == |UnchangedIds(rows, stored)|
  {
    hide StoredIds, UnchangedIds, Ids, Importable, Known, Same;
    if rows == [] {
      NoCounts(seen, stored);
    } else {
      var front, last := rows[..|rows| - 1], rows[|rows| - 1];
      CountsSnoc(rows, seen, stored);
      CountsMean(front, seen, stored);
      NewId(front, last, stored);
      StoredSnoc(front, last, stored);
      assert rows == front + [last];
    }
  }

  lemma NoCounts(seen: set<string>, stored: map<string, string>)
    ensures Known([], stored) == 0 == Same([], stored) && StoredIds([], stored) == {} == UnchangedIds([], stored)
  {
  }

  lemma CountsSnoc(rows: seq<Row>, seen: set<string>, stored: map<string, string>)
    requires rows != [] && Importable(rows, seen)
    ensures var front, last := rows[..|rows| - 1], rows[|rows| - 1];
      && Importable(front, seen) && last.caseId !in Ids(front)
      && Known(rows, stored) == Known(front, stored) + (if last.caseId in stored then 1 else 0)
      && Same(rows, stored)
         == Same(front, stored) + if last.caseId in stored && stored[last.caseId] == last.data then 1 else 0
  {
  }

  lemma NewId(front: seq<Row>, last: Row, stored: map<string, string>)
    requires last.caseId !in Ids(front)
    ensures last.caseId !in StoredIds(front, stored) && last.caseId !in UnchangedIds(front, stored)
  {
    IdsMean(front, last.caseId);
    hide Ids;
  }

  lemma StoredSnoc(front: seq<Row>, last: Row, stored: map<string, string>)
    ensures StoredIds(front + [last], stored)
         == StoredIds(front, stored) + if last.caseId in stored then {last.caseId} else {}
    ensures UnchangedIds(front + [last], stored)
         == UnchangedIds(front, stored)
            + if last.caseId in stored && stored[last.caseId] == last.data then {last.caseId} else {}
  {
    var rows := front + [last];
    assert rows[|front|] == last && forall i :: 0 <= i < |front| ==> rows[i] == front[i];
  }

  lemma {:induction false} SameKnown(rows: seq<Row>, stored: map<string, string>)
    ensures Same(rows, stored) <= Known(rows, stored) <= |rows|
  {
    if rows != [] { SameKnown(rows[..|rows| - 1], stored); }
  }

  lemma {:induction false} Disjoint(rows: seq<Row>, seen: set<string>)
    requires Importable(rows, seen)
    ensures Ids(rows) !! seen
  {
    if rows != [] { Disjoint(rows[..|rows| - 1], seen); }
  }

  lemma PrefixStep(rows: seq<Row>, i: nat, seen: set<string>, stored: map<string, string>)
    requires i < |rows|
    ensures Ids(rows[..i + 1]) == Ids(rows[..i]) + {rows[i].caseId}
    ensures Importable(rows[..i + 1], seen) <==>
      Importable(rows[..i], seen) && rows[i].accepted && rows[i].caseId !in seen && rows[i].caseId !in Ids(rows[..i])
    ensures Known(rows[..i + 1], stored) == Known(rows[..i], stored) + if rows[i].caseId in stored then 1 else 0
    ensures Same(rows[..i + 1], stored)
      == Same(rows[..i], stored) + if rows[i].caseId in stored && stored[rows[i].caseId] == rows[i].data then 1 else 0
  {
    assert rows[..i + 1][..i] == rows[..i];
  }

  /** Reads one page of rows, then looks its CaseIDs up together. */
  method PreviewPage(rows: seq<Row>, offset: nat, end: nat, seen: set<string>, ids: set<string>,
                     stored: map<string, string>)
    returns (ok: bool, fileIds: set<string>, existing: nat, updated: nat, same: nat)
    requires offset <= end <= |rows| && Importable(rows[..offset], seen) && ids == Ids(rows[..offset])
    ensures ok <==> Importable(rows[..end], seen)
    ensures ok ==> fileIds == Ids(rows[..end]) && existing == Known(rows[..end], stored) - Known(rows[..offset], stored)
    ensures ok ==> same == Same(rows[..end], stored) - Same(rows[..offset], stored) && updated + same == existing
  {
    hide Ids, Known, Same, Importable;
    fileIds, existing, updated, same := ids, 0, 0, 0;
    var i := offset;
    while i < end
      invariant offset <= i <= end && Importable(rows[..i], seen) && fileIds == Ids(rows[..i])
    {
      PrefixStep(rows, i, seen, stored);
      if !rows[i].accepted || rows[i].caseId in seen || rows[i].caseId in fileIds {
        assert rows[..end][..i + 1] == rows[..i + 1];
        if Importable(rows[..end], seen) {
          ImportablePrefix(rows[..end], seen, i + 1);
          assert false;
        }
        return false, {}, 0, 0, 0;
      }
      fileIds := fileIds + {rows[i].caseId};
      i := i + 1;
    }
    i := offset;
    while i < end
      invariant offset <= i <= end
      invariant existing == Known(rows[..i], stored) - Known(rows[..offset], stored)
      invariant same == Same(rows[..i], stored) - Same(rows[..offset], stored) && updated + same == existing
    {
      PrefixStep(rows, i, seen, stored);
      if rows[i].caseId in stored {
        existing := existing + 1;
        if stored[rows[i].caseId] == rows[i].data { same := same + 1; } else { updated := updated + 1; }
      }
      i := i + 1;
    }
    ok := true;
  }

  /** A file is accepted exactly when its CaseIDs are new to this import and its rows valid;
    * only then do its CaseIDs become seen, and its counts add up to its rows. */
  method PreviewParsedFile(rows: seq<Row>, seen: set<string>, stored: map<string, string>)
    returns (p: Preview, nowSeen: set<string>)
    ensures p.Accepted? <==> Importable(rows, seen)
    ensures nowSeen == if p.Accepted? then seen + Ids(rows) else seen
    ensures p.Accepted? ==>
      && p.rows == |rows| && p.inserted + p.updated + p.same == p.rows
      && p.inserted == |rows| - Known(rows, stored) >= 0 && p.same == Same(rows, stored)
  {
    var offset, ids, existing, updated, same := 0, {}, 0, 0, 0;
    assert rows[..0] == [];
    while offset < |rows|
      invariant offset <= |rows| && Importable(rows[..offset], seen) && ids == Ids(rows[..offset])
      invariant existing == Known(rows[..offset], stored) && same == Same(rows[..offset], stored)
      invariant updated + same == existing
      decreases |rows| - offset
    {
      var end := if offset + PAGE < |rows| then offset + PAGE else |rows|;
      var ok, fileIds, e, u, s := PreviewPage(rows, offset, end, seen, ids, stored);
      if !ok {
        if Importable(rows, seen) {
          ImportablePrefix(rows, seen, end);
          assert false;
        }
        return Rejected, seen;
      }
      ids, existing, updated, same, offset := fileIds, existing + e, updated + u, same + s, end;
    }
    assert rows[..offset] == rows;
    SameKnown(rows, stored);
    p, nowSeen := Accepted(|rows|, |rows| - existing, updated, same), seen + ids;
  }

  function Seen(files: seq<seq<Row>>, previews: seq<Preview>): set<string>
    requires |files| == |previews|
  {
    if files == [] then {}
    else
      var n := |files| - 1;
      Seen(files[..n], previews[..n]) + if previews[n].Accepted? then Ids(files[n]) else {}
  }

  /** Accepted files have no CaseID in common. */
  ghost predicate PairwiseDisjoint(files: seq<seq<Row>>, previews: seq<Preview>)
    requires |files| == |previews|
  {
    forall i, k :: 0 <= i < k < |files| && previews[i].Accepted? && previews[k].Accepted? ==>
      Ids(files[i]) !! Ids(files[k])
  }

  lemma {:induction false} SeenHolds(files: seq<seq<Row>>, previews: seq<Preview>, i: nat)
    requires |files| == |previews| && i < |files| && previews[i].Accepted?
    ensures Ids(files[i]) <= Seen(files, previews)
  {
    if i < |files| - 1 { SeenHolds(files[..|files| - 1], previews[..|files| - 1], i); }
  }

  lemma SeenApart(files: seq<seq<Row>>, previews: seq<Preview>, rows: seq<Row>)
    requires |files| == |previews| && Ids(rows) !! Seen(files, previews)
    ensures forall i :: 0 <= i < |files| && previews[i].Accepted? ==> Ids(files[i]) !! Ids(rows)
  {
    forall i | 0 <= i < |files| && previews[i].Accepted?
      ensures Ids(files[i]) !! Ids(rows)
    {
      SeenHolds(files, previews, i);
    }
  }

  /** The preview of the `i`-th file: accepted exactly when it can be imported beside the accepted
    * files before it, and with the counts of its own rows. */
  ghost predicate PreviewedAt(files: seq<seq<Row>>, stored: map<string, string>, previews: seq<Preview>, i: nat)
    requires |files| == |previews| && i < |files|
  {
    var p := previews[i];
    && (p.Accepted? <==> Importable(files[i], Seen(files[..i], previews[..i])))
    && (p.Accepted? ==>
          p.rows == |files[i]| && p.inserted == |files[i]| - Known(files[i], stored) &&
            p.same == Same(files[i], stored))
  }

  ghost predicate AllPreviewed(files: seq<seq<Row>>, stored: map<string, string>, previews: seq<Preview>)
    requires |files| == |previews|
  {
    forall i: nat {:trigger PreviewedAt(files, stored, previews, i)} :: i < |files| ==>
      PreviewedAt(files, stored, previews, i)
  }

  lemma NothingPreviewed(stored: map<string, string>)
    ensures AllPreviewed([], stored, [])
  {
  }

  lemma PreviewedSnoc(files: seq<seq<Row>>, rows: seq<Row>, stored: map<string, string>, previews: seq<Preview>,
                      p: Preview)
    requires |files| == |previews| && AllPreviewed(files, stored, previews)
    requires p.Accepted? <==> Importable(rows, Seen(files, previews))
    requires p.Accepted? ==>
      p.rows == |rows| && p.inserted == |rows| - Known(rows, stored) && p.same == Same(rows, stored)
    ensures AllPreviewed(files + [rows], stored, previews + [p])
  {
    hide Importable, Seen, Known, Same;
    forall i: nat {:trigger PreviewedAt(files + [rows], stored, previews + [p], i)} | i < |files| + 1
      ensures PreviewedAt(files + [rows], stored, previews + [p], i)
    {
      if i < |files| {
        assert PreviewedAt(files, stored, previews, i);
        assert (files + [rows])[..i] == files[..i] && (previews + [p])[..i] == previews[..i];
      } else {
        assert (files + [rows])[..i] == files && (previews + [p])[..i] == previews;
      }
    }
  }

  /** Over all files of one upload: the accepted ones are pairwise disjoint, and the CaseIDs
    * seen are exactly theirs. */
  method PreviewFiles(files: seq<seq<Row>>, stored: map<string, string>)
    returns (previews: seq<Preview>, seen: set<string>)
    ensures |previews| == |files| && seen == Seen(files, previews) && PairwiseDisjoint(files, previews)
    ensures forall i :: 0 <= i < |files| && previews[i].Accepted? ==>
      previews[i].inserted + previews[i].updated + previews[i].same == |files[i]|
    ensures AllPreviewed(files, stored, previews)
  {
    hide AllPreviewed, Importable, Known, Same, Ids;
    NothingPreviewed(stored);
    previews, seen := [], {};
    var n := 0;
    while n < |files|
      invariant n <= |files| && |previews| == n && seen == Seen(files[..n], previews)
      invariant PairwiseDisjoint(files[..n], previews)
      invariant forall i :: 0 <= i < n && previews[i].Accepted? ==>
        previews[i].inserted + previews[i].updated + previews[i].same == |files[i]|
      invariant AllPreviewed(files[..n], stored, previews)
    {
      var p, nowSeen := PreviewParsedFile(files[n], seen, stored);
      if p.Accepted? {
        Disjoint(files[n], seen);
        SeenApart(files[..n], previews, files[n]);
      }
      assert files[..n + 1][..n] == files[..n] && (previews + [p])[..n] == previews;
      assert files[..n + 1] == files[..n] + [files[n]];
      PreviewedSnoc(files[..n], files[n], stored, previews, p);
      previews, seen, n := previews + [p], nowSeen, n + 1;
    }
    assert files[..n] == files;
  }

  // ------------------------------------------------------------- execution

  /** Files that are pending or cancelled are neither tried nor counted. */
  datatype Status = Valid | Importing | Succeeded | Excluded | Failed | Pending | Cancelled

  datatype Counts = Counts(inserted: nat, updated: nat, same: nat, skipped: nat)

  datatype File = File(status: Status, counts: Counts)

  /** What happens to a candidate: no parsed rows, a rejection (which ends the job under the
    * strategy that stops at conflicts), or an import whose success is then written down -
    * or is not, when that write throws. */
  datatype Attempt = Unparsed | Throws(stops: bool) | Imports(counts: Counts, recorded: bool)

  const NONE := Counts(0, 0, 0, 0)

  function Plus(a: Counts, b: Counts): Counts {
    Counts(a.inserted + b.inserted, a.updated + b.updated, a.same + b.same, a.skipped + b.skipped)
  }

  predicate Candidate(f: File) { f.status.Valid? || f.status.Importing? }

  predicate Done(f: File) { f.status.Succeeded? }

  predicate Finished(f: File) { f.status.Excluded? || f.status.Failed? }

  predicate SetAside(f: File) { f.status.Pending? || f.status.Cancelled? }

  function SumSucceeded(files: seq<File>): Counts {
    if files == [] then NONE
    else
      var last := files[|files| - 1];
      Plus(SumSucceeded(files[..|files| - 1]), if last.status.Succeeded? then last.counts else NONE)
  }

  function CountWhere(files: seq<File>, p: File -> bool): nat {
    if files == [] then 0 else CountWhere(files[..|files| - 1], p) + if p(files[|files| - 1]) then 1 else 0
  }

  /** A candidate that was imported but whose success could not be written. */
  predicate Unrecorded(f: File, a: Attempt) { Candidate(f) && a.Imports? && !a.recorded }

  function UnrecordedCount(files: seq<File>, attempts: seq<Attempt>): nat
    requires |files| == |attempts|
  {
    if files == [] then 0
    else
      var n := |files| - 1;
      UnrecordedCount(files[..n], attempts[..n]) + if Unrecorded(files[n], attempts[n]) then 1 else 0
  }

  function UnrecordedSum(files: seq<File>, attempts: seq<Attempt>): Counts
    requires |files| == |attempts|
  {
    if files == [] then NONE
    else
      var n := |files| - 1;
      Plus(UnrecordedSum(files[..n], attempts[..n]),
           if Unrecorded(files[n], attempts[n]) then attempts[n].counts else NONE)
  }

  /** What a file's row says after its attempt. */
  function After(f: File, a: Attempt): File {
    if !Candidate(f) then f
    else if a.Imports? && a.recorded then File(Succeeded, a.counts)
    else f.(status := Failed)
  }

  function Afters(files: seq<File>, attempts: seq<Attempt>): (r: seq<File>)
    requires |files| == |attempts|
    ensures |r| == |files|
  {
    if files == [] then []
    else Afters(files[..|files| - 1], attempts[..|files| - 1]) + [After(files[|files| - 1], attempts[|files| - 1])]
  }

  /** What each file's row says: a candidate that was imported and recorded has succeeded with the
    * counts of its import, every other candidate has failed and keeps its counts, and what is no
    * candidate keeps its row. */
  lemma {:induction false} RowsAfter(files: seq<File>, attempts: seq<Attempt>, i: nat)
    requires |files| == |attempts| && i < |files|
    ensures |Afters(files, attempts)| == |files|
    ensures var before, after, a := files[i], Afters(files, attempts)[i], attempts[i];
      if before.status != Valid && before.status != Importing then after == before
      else if a.Imports? && a.recorded then after.status == Succeeded && after.counts == a.counts
      else after.status == Failed && after.counts == before.counts
  {
    var n := |files| - 1;
    if n > 0 { RowsAfter(files[..n], attempts[..n], if i < n then i else 0); }
  }

  datatype Tally = Tally(counts: Counts, succeeded: nat, failed: nat)

  /** The tally from the persisted rows, before any candidate is tried. */
  function Resumed(files: seq<File>): Tally {
    Tally(SumSucceeded(files), CountWhere(files, Done), CountWhere(files, Finished))
  }

  function TallyOne(t: Tally, f: File, a: Attempt): Tally {
    if !Candidate(f) then t
    else
      match a
      case Unparsed => t.(failed := t.failed + 1)
      case Throws(_) => t.(failed := t.failed + 1)
      case Imports(counts, recorded) =>
        // The success is counted before it is written; a failing write is counted again.
        Tally(Plus(t.counts, counts), t.succeeded + 1, if recorded then t.failed else t.failed + 1)
  }

  function TallyAll(t: Tally, files: seq<File>, attempts: seq<Attempt>): Tally
    requires |files| == |attempts|
  {
    if files == [] then t
    else TallyOne(TallyAll(t, files[..|files| - 1], attempts[..|files| - 1]), files[|files| - 1], attempts[|files| - 1])
  }

  predicate Stops(f: File, a: Attempt) { Candidate(f) && a == Throws(true) }

  predicate NoneStops(files: seq<File>, attempts: seq<Attempt>)
    requires |files| == |attempts|
  {
    forall i :: 0 <= i < |files| ==> !Stops(files[i], attempts[i])
  }

  lemma AttemptSnoc(t: Tally, files: seq<File>, attempts: seq<Attempt>, i: nat)
    requires |files| == |attempts| && i < |files|
    ensures Afters(files[..i + 1], attempts[..i + 1])
      == Afters(files[..i], attempts[..i]) + [After(files[i], attempts[i])]
    ensures TallyAll(t, files[..i + 1], attempts[..i + 1])
         == TallyOne(TallyAll(t, files[..i], attempts[..i]), files[i], attempts[i])
    ensures NoneStops(files[..i + 1], attempts[..i + 1]) <==>
      NoneStops(files[..i], attempts[..i]) && !Stops(files[i], attempts[i])
  {
    assert files[..i + 1][..i] == files[..i] && attempts[..i + 1][..i] == attempts[..i];
    assert forall k :: 0 <= k < i ==> files[..i + 1][k] == files[..i][k] && attempts[..i + 1][k] == attempts[..i][k];
    assert files[..i + 1][i] == files[i] && attempts[..i + 1][i] == attempts[i];
  }

  /** Tries every candidate in order. The job ends early only at a conflict that stops it. */
  method ExecuteFiles(files: seq<File>, attempts: seq<Attempt>) returns (completed: bool, rows: seq<File>, tally: Tally)
    requires |files| == |attempts|
    ensures completed <==> NoneStops(files, attempts)
    ensures |rows| <= |files| && tally == TallyAll(Resumed(files), files[..|rows|], attempts[..|rows|])
    ensures rows == Afters(files[..|rows|], attempts[..|rows|]) && (completed ==> |rows| == |files|)
    ensures !completed ==>
      var n := |rows| - 1;
      n >= 0 && Stops(files[n], attempts[n]) && NoneStops(files[..n], attempts[..n])
  {
    rows := [];
    tally := Resumed(files);
    var i := 0;
    while i < |files|
      invariant i <= |files| && NoneStops(files[..i], attempts[..i])
      invariant rows == Afters(files[..i], attempts[..i]) &&
        tally == TallyAll(Resumed(files), files[..i], attempts[..i])
    {
      var file, attempt := files[i], attempts[i];
      AttemptSnoc(Resumed(files), files, attempts, i);
      if file.status.Valid? || file.status.Importing? {
        match attempt
        case Unparsed =>
          tally := tally.(failed := tally.failed + 1);
          rows := rows + [file.(status := Failed)];
        case Throws(stops) =>
          tally := tally.(failed := tally.failed + 1);
          rows := rows + [file.(status := Failed)];
          if stops {
            assert Stops(files[i], attempts[i]);
            return false, rows, tally;
          }
        case Imports(counts, recorded) =>
          tally := Tally(Plus(tally.counts, counts), tally.succeeded + 1, tally.failed);
          if recorded {
            rows := rows + [File(Succeeded, counts)];
          } else {
            tally := tally.(failed := tally.failed + 1);
            rows := rows + [file.(status := Failed)];
          }
      } else {
        rows := rows + [file];
      }
      i := i + 1;
    }
    assert files[..i] == files && attempts[..i] == attempts;
    completed := true;
  }

  // ------------------------------------------------------------- what the tally means

  function Candidates(files: seq<File>): nat { CountWhere(files, Candidate) }

  lemma {:induction false} EveryFileCounted(files: seq<File>)
    ensures Resumed(files).succeeded + Resumed(files).failed + Candidates(files) + CountWhere(files, SetAside)
      == |files|
  {
    if files != [] { EveryFileCounted(files[..|files| - 1]); }
  }

  /** The tally is the one the written rows give, plus every unrecorded success once more. */
  lemma {:induction false} TallyMeans(files: seq<File>, attempts: seq<Attempt>)
    requires |files| == |attempts|
    ensures var t, rows := TallyAll(Resumed(files), files, attempts), Afters(files, attempts);
      && t.counts == Plus(SumSucceeded(rows), UnrecordedSum(files, attempts))
      && t.succeeded == Resumed(rows).succeeded + UnrecordedCount(files, attempts)
      && t.failed == Resumed(rows).failed
      && |rows| == |files| && Candidates(rows) == 0 && CountWhere(rows, SetAside) == CountWhere(files, SetAside)
  {
    TallyFrom(Resumed(files), files, attempts);
    TallySplit(files, attempts);
  }

  /** What the attempts add to a tally does not depend on it. */
  function Gain(files: seq<File>, attempts: seq<Attempt>): Tally
    requires |files| == |attempts|
  {
    TallyAll(Tally(NONE, 0, 0), files, attempts)
  }

  lemma {:induction false} TallyFrom(t: Tally, files: seq<File>, attempts: seq<Attempt>)
    requires |files| == |attempts|
    ensures var g := Gain(files, attempts);
      TallyAll(t, files, attempts) == Tally(Plus(t.counts, g.counts), t.succeeded + g.succeeded, t.failed + g.failed)
  {
    if files != [] { TallyFrom(t, files[..|files| - 1], attempts[..|files| - 1]); }
  }

  lemma TallySplit(files: seq<File>, attempts: seq<Attempt>)
    requires |files| == |attempts|
    ensures var g, r, rows := Gain(files, attempts), Resumed(files), Afters(files, attempts);
      && Plus(r.counts, g.counts) == Plus(SumSucceeded(rows), UnrecordedSum(files, attempts))
      && r.succeeded + g.succeeded == Resumed(rows).succeeded + UnrecordedCount(files, attempts)
      && r.failed + g.failed == Resumed(rows).failed
      && |rows| == |files| && Candidates(rows) == 0 && CountWhere(rows, SetAside) == CountWhere(files, SetAside)
  {
    hide TallyAll, CountWhere, SumSucceeded, Afters, UnrecordedCount, UnrecordedSum;
    SplitCounts(files, attempts);
    SplitFiles(files, attempts);
    SplitRest(files, attempts);
  }

  lemma {:induction false} SplitCounts(files: seq<File>, attempts: seq<Attempt>)
    requires |files| == |attempts|
    ensures Plus(SumSucceeded(files), Gain(files, attempts).counts)
      == Plus(SumSucceeded(Afters(files, attempts)), UnrecordedSum(files, attempts))
  {
    if files != [] {
      var n := |files| - 1;
      SplitCounts(files[..n], attempts[..n]);
      assert Afters(files, attempts)[..|Afters(files, attempts)| - 1] == Afters(files[..n], attempts[..n]);
    }
  }

  lemma {:induction false} SplitFiles(files: seq<File>, attempts: seq<Attempt>)
    requires |files| == |attempts|
    ensures CountWhere(files, Done) + Gain(files, attempts).succeeded
      == CountWhere(Afters(files, attempts), Done) + UnrecordedCount(files, attempts)
    ensures CountWhere(files, Finished) + Gain(files, attempts).failed == CountWhere(Afters(files, attempts), Finished)
  {
    if files != [] {
      var n := |files| - 1;
      SplitFiles(files[..n], attempts[..n]);
      assert Afters(files, attempts)[..|Afters(files, attempts)| - 1] == Afters(files[..n], attempts[..n]);
    }
  }

  lemma {:induction false} SplitRest(files: seq<File>, attempts: seq<Attempt>)
    requires |files| == |attempts|
    ensures var rows := Afters(files, attempts);
      |rows| == |files| && Candidates(rows) == 0 && CountWhere(rows, SetAside) == CountWhere(files, SetAside)
  {
    if files != [] {
      var n := |files| - 1;
      var front, last := Afters(files[..n], attempts[..n]), After(files[n], attempts[n]);
      assert Afters(files, attempts) == front + [last] && (front + [last])[..|front|] == front;
      assert !Candidate(last) && SetAside(last) == SetAside(files[n]);
      hide After, Afters, Candidate, SetAside;
      SplitRest(files[..n], attempts[..n]);
      CountSnoc(front, last, Candidate);
      CountSnoc(front, last, SetAside);
    }
  }

  lemma CountSnoc(files: seq<File>, f: File, p: File -> bool)
    ensures CountWhere(files + [f], p) == CountWhere(files, p) + if p(f) then 1 else 0
  {
    assert (files + [f])[..|files|] == files;
  }

  datatype Counter = Inserted | Updated | Unchanged | Skipped

  function Of(c: Counts, w: Counter): nat {
    match w
    case Inserted => c.inserted
    case Updated => c.updated
    case Unchanged => c.same
    case Skipped => c.skipped
  }

  /** The sum of one count over the files that had succeeded before and those imported now. */
  function SumOf(files: seq<File>, attempts: seq<Attempt>, w: Counter): nat
    requires |files| == |attempts|
  {
    if files == [] then 0
    else
      var n := |files| - 1;
      var f, a := files[n], attempts[n];
      SumOf(files[..n], attempts[..n], w) +
      if f.status == Succeeded then Of(f.counts, w)
      else if (f.status == Valid || f.status == Importing) && a.Imports? then Of(a.counts, w)
      else 0
  }

  /** Each counter is that sum of its own count. */
  lemma TallySums(files: seq<File>, attempts: seq<Attempt>, w: Counter)
    requires |files| == |attempts|
    ensures Of(TallyAll(Resumed(files), files, attempts).counts, w) == SumOf(files, attempts, w)
  {
    hide Gain, TallyAll;
    TallyFrom(Resumed(files), files, attempts);
    GainSums(files, attempts, w);
  }

  lemma {:induction false} GainSums(files: seq<File>, attempts: seq<Attempt>, w: Counter)
    requires |files| == |attempts|
    ensures Of(SumSucceeded(files), w) + Of(Gain(files, attempts).counts, w) == SumOf(files, attempts, w)
  {
    if files == [] {
      NoGain(attempts, w);
    } else {
      hide Gain, Of, Plus, SumSucceeded, SumOf, TallyAll;
      GainSums(files[..|files| - 1], attempts[..|files| - 1], w);
      GainStep(files, attempts, w);
    }
  }

  lemma NoGain(attempts: seq<Attempt>, w: Counter)
    requires attempts == []
    ensures Of(SumSucceeded([]), w) == 0 == Of(Gain([], attempts).counts, w) && SumOf([], attempts, w) == 0
  {
  }

  lemma PlusOf(a: Counts, b: Counts, w: Counter)
    ensures Of(Plus(a, b), w) == Of(a, w) + Of(b, w) && Of(NONE, w) == 0
  {
  }

  lemma GainStep(files: seq<File>, attempts: seq<Attempt>, w: Counter)
    requires |files| == |attempts| && files != []
    ensures var n := |files| - 1;
      var before, now := BeforeOf(files[n], w), ImportedOf(files[n], attempts[n], w);
      && Of(Gain(files, attempts).counts, w) == Of(Gain(files[..n], attempts[..n]).counts, w) + now
      && Of(SumSucceeded(files), w) == Of(SumSucceeded(files[..n]), w) + before
      && SumOf(files, attempts, w) == SumOf(files[..n], attempts[..n], w) + before + now
  {
    var n := |files| - 1;
    GainIs(files, attempts);
    TallyOneOf(Gain(files[..n], attempts[..n]), files[n], attempts[n], w);
    SucceededOf(files, w);
    SumOfStep(files, attempts, w);
    hide Gain, Of, Plus, SumOf, SumSucceeded, TallyOne, BeforeOf, ImportedOf;
  }

  function BeforeOf(f: File, w: Counter): nat { if f.status == Succeeded then Of(f.counts, w) else 0 }

  function ImportedOf(f: File, a: Attempt, w: Counter): nat {
    if Candidate(f) && a.Imports? then Of(a.counts, w) else 0
  }

  lemma TallyOneOf(t: Tally, f: File, a: Attempt, w: Counter)
    ensures Of(TallyOne(t, f, a).counts, w) == Of(t.counts, w) + ImportedOf(f, a, w)
  {
    if a.Imports? { PlusOf(t.counts, a.counts, w); }
    hide Of, Plus;
  }

  lemma SucceededOf(files: seq<File>, w: Counter)
    requires files != []
    ensures Of(SumSucceeded(files), w) == Of(SumSucceeded(files[..|files| - 1]), w) + BeforeOf(files[|files| - 1], w)
  {
    var last := files[|files| - 1];
    PlusOf(SumSucceeded(files[..|files| - 1]), if last.status.Succeeded? then last.counts else NONE, w);
    hide Of, Plus;
  }

  lemma SumOfStep(files: seq<File>, attempts: seq<Attempt>, w: Counter)
    requires |files| == |attempts| && files != []
    ensures var n := |files| - 1;
      SumOf(files, attempts, w)
      == SumOf(files[..n], attempts[..n], w) + BeforeOf(files[n], w) + ImportedOf(files[n], attempts[n], w)
  {
    hide Of;
  }

  lemma GainIs(files: seq<File>, attempts: seq<Attempt>)
    requires |files| == |attempts| && files != []
    ensures var n := |files| - 1;
      Gain(files, attempts) == TallyOne(Gain(files[..n], attempts[..n]), files[n], attempts[n])
  {
  }

  /** Whether every success was written down. */
  predicate AllRecorded(files: seq<File>, attempts: seq<Attempt>)
    requires |files| == |attempts|
  {
    files == [] ||
      var n := |files| - 1;
      AllRecorded(files[..n], attempts[..n]) && !Unrecorded(files[n], attempts[n])
  }

  /** Succeeded and failed files make up all files that are not set aside exactly when every
    * success was written; then the tally is the one the written rows give, whether or not
    * some of them were written before this run began. */
  lemma CountsEveryFileOnce(files: seq<File>, attempts: seq<Attempt>)
    requires |files| == |attempts|
    ensures var t, rows := TallyAll(Resumed(files), files, attempts), Afters(files, attempts);
      && (t.succeeded + t.failed + CountWhere(files, SetAside) == |files| <==> AllRecorded(files, attempts))
      && t.succeeded + t.failed + CountWhere(files, SetAside) == |files| + UnrecordedCount(files, attempts)
      && (AllRecorded(files, attempts) ==> t == Resumed(rows))
  {
    hide TallyAll, CountWhere, SumSucceeded, Afters, UnrecordedCount, UnrecordedSum, AllRecorded;
    TallyMeans(files, attempts);
    EveryFileCounted(Afters(files, attempts));
    NoneUnrecorded(files, attempts);
  }

  lemma {:induction false} NoneUnrecorded(files: seq<File>, attempts: seq<Attempt>)
    requires |files| == |attempts|
    ensures UnrecordedCount(files, attempts) == 0 <==> AllRecorded(files, attempts)
    ensures UnrecordedCount(files, attempts) == 0 ==> UnrecordedSum(files, attempts) == NONE
  {
    if files != [] { NoneUnrecorded(files[..|files| - 1], attempts[..|files| - 1]); }
  }

  lemma TallySingle(t: Tally, f: File, a: Attempt)
    ensures TallyAll(t, [f], [a]) == TallyOne(t, f, a)
  {
    assert [f][..0] == [] && [a][..0] == [];
  }

  lemma CountSingle(f: File, p: File -> bool)
    ensures CountWhere([f], p) == if p(f) then 1 else 0
  {
    assert [f][..0] == [];
  }

  lemma SumSnoc(files: seq<File>, f: File)
    ensures SumSucceeded(files + [f]) == Plus(SumSucceeded(files), if f.status.Succeeded? then f.counts else NONE)
  {
    assert (files + [f])[..|files|] == files;
  }

  lemma PlusNone(counts: Counts)
    ensures Plus(NONE, counts) == counts && Plus(counts, NONE) == counts
  {
  }

  lemma SumSingle(f: File)
    requires !f.status.Succeeded?
    ensures SumSucceeded([f]) == NONE
  {
    hide Plus;
    SumSnoc([], f);
    PlusNone(NONE);
    assert [] + [f] == [f];
  }

  lemma ResumedSingle(f: File)
    requires Candidate(f)
    ensures Resumed([f]) == Tally(NONE, 0, 0)
  {
    hide CountWhere, SumSucceeded;
    CountSingle(f, Done);
    CountSingle(f, Finished);
    SumSingle(f);
  }

  /** One file whose success could not be written is counted as succeeded and as failed. */
  lemma DoubleCount(counts: Counts)
    ensures TallyAll(Resumed([File(Valid, NONE)]), [File(Valid, NONE)], [Imports(counts, false)]) == Tally(counts, 1, 1)
  {
    hide TallyAll, Resumed;
    PlusNone(counts);
    ResumedSingle(File(Valid, NONE));
    TallySingle(Tally(NONE, 0, 0), File(Valid, NONE), Imports(counts, false));
  }
}
