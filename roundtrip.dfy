/**
 * Sort followed by undo: when the sort's moves neither fail nor collide,
 * undoing its journal puts every file back where it was, and the only
 * trace left is the journal itself.
 */
module RoundTrip {

  import opened Wrappers
  import opened Paths
  import opened Classifier
  import opened Resolver
  import opened Journal
  import opened FileSystem
  import opened Sorter
  import opened Undo

  /** A rename of the entry at `a` to `b`. */
  function Rename(e: Entries, a: Path, b: Path): Entries
    requires a in e
  {
    (e - {a})[b := e[a]]
  }

  /** Renaming to a free path and back gives the entries back. */
  lemma RenameBack(e: Entries, a: Path, b: Path)
    requires a in e && b !in e
    ensures b in Rename(e, a, b) && Rename(Rename(e, a, b), b, a) == e
  {
    var e2 := Rename(Rename(e, a, b), b, a);
    assert e2.Keys == e.Keys;
  }

  /** `e` with the journal file at `logPath`, created empty when it was missing. */
  function WithJournal(e: Entries, logPath: Path): Entries {
    if logPath in e then e else e[logPath := File(0, 0)]
  }

  /** Creating the journal and renaming an entry other than it commute. */
  lemma RenameWithJournal(e: Entries, logPath: Path, a: Path, b: Path)
    requires a in e && a != logPath && b != logPath
    ensures WithJournal(Rename(e, a, b), logPath) == Rename(WithJournal(e, logPath), a, b)
  {
  }

  /** The entries after the first `k` actions of `plan` have renamed their source to their destination. */
  function AfterMoves(e: Entries, plan: seq<Action>, k: nat): Entries
    requires k <= |plan|
  {
    if k == 0 then e
    else
      var prev := AfterMoves(e, plan, k - 1);
      var a := plan[k - 1];
      if a.src in prev then Rename(prev, a.src, a.dst) else prev
  }

  /** Every folder on the way down to `d` is in `e`, as a folder. */
  predicate AncestorsAreDirs(e: Entries, d: Dir) {
    forall k :: 0 <= k < |d| ==> Ancestor(d, k) in e && e[Ancestor(d, k)].Directory?
  }

  /**
   * No move of `plan` can fail or collide: every source is a file of `e`
   * in an existing folder, every destination is free, no two actions share
   * a source or a destination, and neither is the journal.
   */
  predicate CollisionFree(e: Entries, logPath: Path, plan: seq<Action>) {
    && (forall i :: 0 <= i < |plan| ==>
          && plan[i].src in e && e[plan[i].src].File? && plan[i].dst !in e
          && plan[i].src != logPath && plan[i].dst != logPath
          && ValidPath(plan[i].src) && ValidPath(plan[i].dst)
          && AncestorsAreDirs(e, plan[i].src.parent))
    && (forall i, j :: 0 <= i < j < |plan| ==> plan[i].src != plan[j].src && plan[i].dst != plan[j].dst)
  }

  lemma CollisionFreeWithJournal(e: Entries, logPath: Path, plan: seq<Action>)
    requires CollisionFree(e, logPath, plan)
    ensures CollisionFree(WithJournal(e, logPath), logPath, plan)
  {
    var x := WithJournal(e, logPath);
    forall i | 0 <= i < |plan|
      ensures plan[i].dst !in x && AncestorsAreDirs(x, plan[i].src.parent)
    {
      assert AncestorsAreDirs(e, plan[i].src.parent);
    }
  }

  /**
   * After `k` collision-free moves: the later sources are still in place
   * and their destinations still free; the earlier sources are gone and
   * their files sit at their destinations, unchanged; folders and the
   * journal are untouched.
   */
  lemma {:induction false} AfterMovesFacts(x: Entries, logPath: Path, plan: seq<Action>, k: nat)
    requires CollisionFree(x, logPath, plan)
    requires k <= |plan|
    ensures forall i :: k <= i < |plan| ==>
      plan[i].src in AfterMoves(x, plan, k) && AfterMoves(x, plan, k)[plan[i].src] == x[plan[i].src] &&
      plan[i].dst !in AfterMoves(x, plan, k)
    ensures forall i :: 0 <= i < k ==>
      plan[i].src !in AfterMoves(x, plan, k) &&
      plan[i].dst in AfterMoves(x, plan, k) && AfterMoves(x, plan, k)[plan[i].dst] == x[plan[i].src]
    ensures forall q :: q in x && x[q].Directory? ==> q in AfterMoves(x, plan, k) && AfterMoves(x, plan, k)[q] == x[q]
    ensures logPath in x ==> logPath in AfterMoves(x, plan, k) && AfterMoves(x, plan, k)[logPath] == x[logPath]
    decreases k
  {
    if k > 0 {
      AfterMovesFacts(x, logPath, plan, k - 1);
    }
  }

  /** A step of the execution loop whose source is there and whose destination is free renames it and journals a `move` record. */
  lemma CleanStep(st: FsState, logPath: Path, a: Action)
    requires a.src in st.entries && a.dst !in st.entries
    ensures ExecStep(st, logPath, a, false).0.entries == WithJournal(Rename(st.entries, a.src, a.dst), logPath)
    ensures ExecStep(st, logPath, a, false).1.MoveRecord?
  {
  }

  predicate AllMoveRecords(rs: seq<Record>) {
    forall i :: 0 <= i < |rs| ==> rs[i].MoveRecord?
  }

  lemma AllMoveRecordsAppend(rs: seq<Record>, r: Record)
    requires AllMoveRecords(rs) && r.MoveRecord?
    ensures AllMoveRecords(rs + [r])
  {
  }

  /**
   * With no refused attempt, a collision-free plan is carried out as plain
   * renames, one `move` record per action, and the journal is created by the
   * first of them.
   */
  lemma {:induction false} ExecutedCleanly(s: FsState, logPath: Path, plan: seq<Action>, k: nat)
    requires CollisionFree(s.entries, logPath, plan)
    requires k <= |plan|
    ensures Executed(s, logPath, plan, {}, k).state.entries
         == if k == 0 then s.entries else AfterMoves(WithJournal(s.entries, logPath), plan, k)
    ensures AllMoveRecords(Executed(s, logPath, plan, {}, k).records)
    decreases k
  {
    if k > 0 {
      ExecutedCleanly(s, logPath, plan, k - 1);
      var prev := Executed(s, logPath, plan, {}, k - 1);
      assert k - 1 !in {};
      CleanStepAfterMoves(s.entries, logPath, plan, k, prev.state);
      AllMoveRecordsAppend(prev.records, ExecStep(prev.state, logPath, plan[k - 1], false).1);
    }
  }

  /** Attempt `k - 1` of a clean run, from the entries the earlier attempts left, performs move `k - 1`. */
  lemma CleanStepAfterMoves(e: Entries, logPath: Path, plan: seq<Action>, k: nat, st: FsState)
    requires CollisionFree(e, logPath, plan)
    requires 0 < k <= |plan|
    requires st.entries == if k == 1 then e else AfterMoves(WithJournal(e, logPath), plan, k - 1)
    ensures ExecStep(st, logPath, plan[k - 1], false).0.entries == AfterMoves(WithJournal(e, logPath), plan, k)
    ensures ExecStep(st, logPath, plan[k - 1], false).1.MoveRecord?
  {
    var x := WithJournal(e, logPath);
    var a := plan[k - 1];
    CollisionFreeWithJournal(e, logPath, plan);
    if k == 1 {
      CleanStep(st, logPath, a);
      RenameWithJournal(e, logPath, a.src, a.dst);
    } else {
      AfterMovesFacts(x, logPath, plan, k - 1);
      CleanStep(st, logPath, a);
    }
  }

  /** Undoing the record of action `k - 1` takes the entries after `k` moves back to those after `k - 1`. */
  lemma UndoOneMove(x: Entries, logPath: Path, plan: seq<Action>, k: nat, rec: MoveObject)
    requires CollisionFree(x, logPath, plan)
    requires 1 <= k <= |plan|
    requires UndoPaths(rec) == Some((plan[k - 1].dst, plan[k - 1].src))
    ensures UndoStep(AfterMoves(x, plan, k), rec, false) == UndoRun(AfterMoves(x, plan, k - 1), false)
  {
    var a := plan[k - 1];
    var before := AfterMoves(x, plan, k - 1);
    var e := AfterMoves(x, plan, k);
    AfterMovesFacts(x, logPath, plan, k - 1);
    AfterMovesFacts(x, logPath, plan, k);
    assert e == Rename(before, a.src, a.dst);
    assert AncestorsAreDirs(x, a.src.parent);
    assert !BlockedByFile(e, a.src.parent);
    WithDirsPresent(e, a.src.parent);
    assert UniqueDestination(e.Keys, a.src) == a.src;
    RenameBack(before, a.src, a.dst);
  }

  /** Each record, read newest first, undoes the move it records. */
  lemma UndoStepsBack(x: Entries, logPath: Path, plan: seq<Action>, moves: seq<MoveObject>)
    requires CollisionFree(x, logPath, plan)
    requires |moves| == |plan|
    requires forall i :: 0 <= i < |moves| ==>
      UndoPaths(moves[i]) == Some((plan[|plan| - 1 - i].dst, plan[|plan| - 1 - i].src))
    ensures forall i {:trigger moves[i]} :: 0 <= i < |moves| ==>
      UndoStep(AfterMoves(x, plan, |plan| - i), moves[i], false) == UndoRun(AfterMoves(x, plan, |plan| - i - 1), false)
  {
    forall i | 0 <= i < |moves|
      ensures UndoStep(AfterMoves(x, plan, |plan| - i), moves[i], false) == UndoRun(AfterMoves(x, plan, |plan| - i - 1), false)
    {
      UndoOneMove(x, logPath, plan, |plan| - i, moves[i]);
    }
  }

  /** Undoing the records newest first walks the moves back one by one, without stopping. */
  lemma {:induction false} UndoneRestores(x: Entries, plan: seq<Action>, moves: seq<MoveObject>, j: nat)
    requires |moves| == |plan| && j <= |plan|
    requires forall i {:trigger moves[i]} :: 0 <= i < |moves| ==>
      UndoStep(AfterMoves(x, plan, |plan| - i), moves[i], false) == UndoRun(AfterMoves(x, plan, |plan| - i - 1), false)
    ensures Undone(AfterMoves(x, plan, |plan|), moves, {}, j) == UndoRun(AfterMoves(x, plan, |plan| - j), false)
    decreases j
  {
    if j > 0 {
      UndoneRestores(x, plan, moves, j - 1);
      assert j - 1 !in {};
    }
  }

  /** The undo reads one object per `move` record back, in order, with the record's two paths. */
  lemma UndoPathsOfMoveRecords(rs: seq<Record>)
    requires AllMoveRecords(rs)
    requires forall i :: 0 <= i < |rs| ==> ValidPath(rs[i].src) && ValidPath(rs[i].dst)
    ensures |MovesOf(EncodeAll(rs))| == |rs|
    ensures forall i :: 0 <= i < |rs| ==> UndoPaths(MovesOf(EncodeAll(rs))[i]) == Some((rs[i].dst, rs[i].src))
  {
    MovesOfEncoded(rs);
    MoveRecordsAll(rs);
    forall i | 0 <= i < |rs| ensures UndoPaths(MovesOf(EncodeAll(rs))[i]) == Some((rs[i].dst, rs[i].src)) {
      MoveLineRoundTrip(rs[i]);
    }
  }

  /** The journal of one `move` record per action reads back as the actions' paths, newest first. */
  lemma ReadBack(plan: seq<Action>, rs: seq<Record>, lines: seq<Line>)
    requires |rs| == |plan| && AllMoveRecords(rs) && lines == EncodeAll(rs)
    requires forall i :: 0 <= i < |plan| ==>
      rs[i].src == plan[i].src && rs[i].dst == plan[i].dst && ValidPath(plan[i].src) && ValidPath(plan[i].dst)
    ensures |Reversed(MovesOf(lines))| == |plan|
    ensures forall i :: 0 <= i < |plan| ==>
      UndoPaths(Reversed(MovesOf(lines))[i]) == Some((plan[|plan| - 1 - i].dst, plan[|plan| - 1 - i].src))
  {
    UndoPathsOfMoveRecords(rs);
    ReversedAt(MovesOf(lines));
  }

  /** What the undo reads back from the journal of a clean run: one object per action, newest first. */
  lemma JournalOfCleanRun(s: FsState, logPath: Path, plan: seq<Action>)
    requires CollisionFree(s.entries, logPath, plan)
    requires JournalLines(s, logPath) == []
    ensures var sorted := ExecAll(s, logPath, plan, {}).state;
      var moves := Reversed(MovesOf(JournalLines(sorted, logPath)));
      && |moves| == |plan|
      && forall i :: 0 <= i < |moves| ==>
           UndoPaths(moves[i]) == Some((plan[|plan| - 1 - i].dst, plan[|plan| - 1 - i].src))
  {
    var run := ExecAll(s, logPath, plan, {});
    ExecutedJournal(s, logPath, plan, {}, |plan|);
    ExecutedCleanly(s, logPath, plan, |plan|);
    ExecAllRecords(s, logPath, plan, {});
    assert JournalLines(s, logPath) + EncodeAll(run.records) == EncodeAll(run.records);
    ReadBack(plan, run.records, JournalLines(run.state, logPath));
  }

  /**
   * Sort then undo is a round trip: when no move of the sort fails or
   * collides and nothing else touches the folder in between, undoing its
   * journal leaves every entry as it was before the sort, plus the journal
   * file. In between, every file sat at its planned destination.
   */
  lemma SortThenUndo(s: FsState, logPath: Path, plan: seq<Action>)
    requires CollisionFree(s.entries, logPath, plan)
    requires JournalLines(s, logPath) == []
    requires plan != []
    ensures var sorted := ExecAll(s, logPath, plan, {}).state;
      && (forall i :: 0 <= i < |plan| ==>
            plan[i].src !in sorted.entries && plan[i].dst in sorted.entries &&
            sorted.entries[plan[i].dst] == s.entries[plan[i].src])
      && UndoAll(sorted.entries, Reversed(MovesOf(JournalLines(sorted, logPath))), {})
         == UndoRun(WithJournal(s.entries, logPath), false)
  {
    var x := WithJournal(s.entries, logPath);
    CollisionFreeWithJournal(s.entries, logPath, plan);
    ExecutedCleanly(s, logPath, plan, |plan|);
    AfterMovesFacts(x, logPath, plan, |plan|);
    JournalOfCleanRun(s, logPath, plan);
    var sorted := ExecAll(s, logPath, plan, {}).state;
    var moves := Reversed(MovesOf(JournalLines(sorted, logPath)));
    UndoStepsBack(x, logPath, plan, moves);
    UndoneRestores(x, plan, moves, |plan|);
  }

  /** The category folders have plain names, none of them the log folder's. */
  lemma FolderNameValid(c: Category)
    ensures ValidName(FolderName(c)) && FolderName(c) != LogsFolderName
  {
  }

  /** The folders of the layout step are valid when the downloads folder is. */
  lemma LayoutDirsValid(downloads: Dir)
    requires ValidDir(downloads)
    ensures forall j :: 0 <= j < |LayoutDirs(downloads)| ==> ValidDir(LayoutDirs(downloads)[j])
  {
    var dirs := LayoutDirs(downloads);
    forall j | 0 <= j < |dirs| ensures ValidDir(dirs[j]) {
      if j == 0 {
        assert dirs[0] == LogsDir(downloads);
      } else {
        assert dirs[j] == CategoryDir(downloads, AllCategories[j - 1]);
        FolderNameValid(AllCategories[j - 1]);
      }
    }
  }

  /**
   * The layout step only ever adds valid paths, and once it succeeds every
   * folder on the way down to the downloads folder is there, as a folder:
   * what the round trip below asks of the entries it starts from.
   */
  lemma LayoutPreparesRoundTrip(e: Entries, downloads: Dir)
    requires forall p :: p in e ==> ValidPath(p)
    requires ValidDir(downloads)
    ensures var (e1, ok) := EnsureAll(e, LayoutDirs(downloads));
      && (forall p :: p in e1 ==> ValidPath(p))
      && (ok ==> AncestorsAreDirs(e1, downloads))
  {
    var dirs := LayoutDirs(downloads);
    EnsureAllEffect(e, dirs);
    LayoutEffect(e, downloads);
    LayoutDirsValid(downloads);
    var (e1, ok) := EnsureAll(e, dirs);
    forall p | p in e1 ensures ValidPath(p) {
      if p !in e {
        var j, k :| 0 <= j < |dirs| && 0 <= k < |dirs[j]| && p == Ancestor(dirs[j], k);
        assert ValidDir(dirs[j]);
      }
    }
  }

  /**
   * A planned move neither starts nor ends at the journal, and ends at a
   * valid path: its folder is a category folder, never the log folder.
   */
  lemma ActionPathsApart(e: Entries, downloads: Dir, logPath: Path, a: Action)
    requires ValidDir(downloads) && ValidPath(a.src) && a.src.parent == downloads
    requires logPath.parent == LogsDir(downloads)
    requires a.dst == UniqueDestination(e.Keys, Path(CategoryDir(downloads, a.cat), a.src.name))
    ensures a.src != logPath && a.dst != logPath && ValidPath(a.dst)
  {
    FolderNameValid(a.cat);
    assert |a.src.parent| != |logPath.parent|;
    assert a.dst.parent[|downloads|] != logPath.parent[|downloads|];
    UniqueDestinationValid(e.Keys, Path(CategoryDir(downloads, a.cat), a.src.name));
  }

  /** No two planned moves share a destination. */
  predicate DistinctDestinations(plan: seq<Action>) {
    forall i, j :: 0 <= i < j < |plan| ==> plan[i].dst != plan[j].dst
  }

  /**
   * The planner's moves are collision free as soon as their destinations
   * are pairwise distinct (which the planner itself does not ensure): each
   * source is a distinct regular file directly in the downloads folder and
   * each destination was free at planning time.
   */
  lemma PlanCollisionFree(e: Entries, downloads: Dir, resolve: Resolution, listing: seq<Path>, logPath: Path)
    requires forall p :: p in e ==> ValidPath(p)
    requires ValidDir(downloads) && AncestorsAreDirs(e, downloads)
    requires IsListing(e, downloads, listing)
    requires logPath.parent == LogsDir(downloads)
    requires DistinctDestinations(PlanOf(e, downloads, resolve, listing))
    ensures CollisionFree(e, logPath, PlanOf(e, downloads, resolve, listing))
  {
    var plan := PlanOf(e, downloads, resolve, listing);
    PlanOfSound(e, downloads, resolve, listing);
    PlanOfOrdered(e, downloads, resolve, listing);
    PlannedMovesCollisionFree(e, downloads, listing, logPath, plan);
  }

  /** The facts about a plan from which collision freedom follows, stated on the plan alone. */
  lemma PlannedMovesCollisionFree(e: Entries, downloads: Dir, listing: seq<Path>, logPath: Path, plan: seq<Action>)
    requires forall p :: p in e ==> ValidPath(p)
    requires ValidDir(downloads) && AncestorsAreDirs(e, downloads)
    requires IsListing(e, downloads, listing)
    requires logPath.parent == LogsDir(downloads)
    requires forall k :: 0 <= k < |plan| ==>
      && plan[k].src in listing && plan[k].src in e && e[plan[k].src].File? && plan[k].dst !in e
      && plan[k].dst == UniqueDestination(e.Keys, Path(CategoryDir(downloads, plan[k].cat), plan[k].src.name))
    requires forall k1, k2, i1, i2 ::
      0 <= k1 < k2 < |plan| && 0 <= i1 < |listing| && 0 <= i2 < |listing| &&
      listing[i1] == plan[k1].src && listing[i2] == plan[k2].src
      ==> i1 < i2
    requires DistinctDestinations(plan)
    ensures CollisionFree(e, logPath, plan)
  {
    forall i | 0 <= i < |plan|
      ensures plan[i].src != logPath && plan[i].dst != logPath && ValidPath(plan[i].dst)
    {
      var m := IndexIn(listing, plan[i].src);
      ActionPathsApart(e, downloads, logPath, plan[i]);
    }
    forall i, j | 0 <= i < j < |plan| ensures plan[i].src != plan[j].src {
      var m := IndexIn(listing, plan[i].src);
    }
  }

  /** A position of `x` in `s`. */
  lemma IndexIn<T>(s: seq<T>, x: T) returns (m: nat)
    requires x in s
    ensures m < |s| && s[m] == x
  {
    m :| 0 <= m < |s| && s[m] == x;
  }

  /**
   * Round trip of a whole `run_sort` and `run_undo`: from the entries `e`
   * the layout step left and a fresh journal, undoing the journal of the
   * planned moves gives `e` back, plus the journal file.
   */
  lemma PlannedSortThenUndo(e: Entries, journals: map<Path, seq<Line>>, downloads: Dir, resolve: Resolution,
                            listing: seq<Path>, stamp: string)
    requires forall p :: p in e ==> ValidPath(p)
    requires ValidDir(downloads) && AncestorsAreDirs(e, downloads)
    requires IsListing(e, downloads, listing)
    requires LogPathFor(downloads, stamp) !in journals
    requires PlanOf(e, downloads, resolve, listing) != []
    requires DistinctDestinations(PlanOf(e, downloads, resolve, listing))
    ensures var logPath := LogPathFor(downloads, stamp);
      var sorted := ExecAll(FsState(e, journals), logPath, PlanOf(e, downloads, resolve, listing), {}).state;
      UndoAll(sorted.entries, Reversed(MovesOf(JournalLines(sorted, logPath))), {})
        == UndoRun(WithJournal(e, logPath), false)
  {
    var logPath := LogPathFor(downloads, stamp);
    PlanCollisionFree(e, downloads, resolve, listing, logPath);
    SortThenUndo(FsState(e, journals), logPath, PlanOf(e, downloads, resolve, listing));
  }
}
