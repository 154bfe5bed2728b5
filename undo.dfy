/**
 * `run_undo`: read a journal, keep its `move` records, and move every file
 * that is still where a record put it back to where it came from, newest
 * record first, never onto an existing entry.
 */
module Undo {

  import opened Wrappers
  import opened Paths
  import opened Resolver
  import opened Journal
  import opened FileSystem

  /** A kept journal object (`rec`). */
  type MoveObject = map<string, JValue>

  /** `moves.reverse()`. */
  function Reversed<T>(s: seq<T>): (r: seq<T>)
    ensures |r| == |s|
  {
    if s == [] then [] else [s[|s| - 1]] + Reversed(s[..|s| - 1])
  }

  /** The reversed list holds the same objects, newest first. */
  lemma {:induction false} ReversedAt<T>(s: seq<T>)
    ensures forall i :: 0 <= i < |s| ==> Reversed(s)[i] == s[|s| - 1 - i]
    decreases |s|
  {
    if s != [] {
      ReversedAt(s[..|s| - 1]);
    }
  }

  /** Reversing twice gives the list back. */
  lemma ReversedTwice<T>(s: seq<T>)
    ensures Reversed(Reversed(s)) == s
  {
    ReversedAt(s);
    ReversedAt(Reversed(s));
  }

  /** Where the undo is after some records: the entries, and whether an exception has ended it. */
  datatype UndoRun = UndoRun(entries: Entries, stopped: bool)

  /**
   * One iteration of the undo loop on `rec`: `Path(rec["dst"])` and
   * `Path(rec["src"])` (an exception when a key is missing or is not a
   * path), then, when the file is still at `dst`, `ensure_dir` of the
   * folder it came from and a move to `safe_unique_destination(src)`.
   */
  function UndoStep(e: Entries, rec: MoveObject, osFails: bool): UndoRun {
    match UndoPaths(rec)
    case None => UndoRun(e, true)
    case Some((from, to)) =>
      if from !in e then UndoRun(e, false)
      else match EnsureDirSpec(e, to.parent)
        case None => UndoRun(e, true)
        case Some(e1) =>
          var (e2, res) := MoveSpec(e1, from, UniqueDestination(e1.Keys, to), osFails);
          UndoRun(e2, res.MoveFailed?)
  }

  /** The undo loop after its first `k` records; the operating system refuses the moves whose index is in `failing`. */
  function Undone(e: Entries, moves: seq<MoveObject>, failing: set<nat>, k: nat): (run: UndoRun)
    requires k <= |moves|
  {
    if k == 0 then UndoRun(e, false)
    else
      var prev := Undone(e, moves, failing, k - 1);
      if prev.stopped then prev else UndoStep(prev.entries, moves[k - 1], k - 1 in failing)
  }

  function UndoAll(e: Entries, moves: seq<MoveObject>, failing: set<nat>): UndoRun {
    Undone(e, moves, failing, |moves|)
  }

  /**
   * A record whose file is no longer at `dst` is skipped; otherwise the
   * undo stops exactly when `ensure_dir` runs into a file or the operating
   * system refuses the move.
   */
  lemma UndoStepOutcome(e: Entries, rec: MoveObject, osFails: bool)
    requires UndoPaths(rec).Some?
    ensures var (from, to) := UndoPaths(rec).value;
      var run := UndoStep(e, rec, osFails);
      && (from !in e ==> run == UndoRun(e, false))
      && (from in e ==> (run.stopped <==> BlockedByFile(e, to.parent) || osFails))
  {
    var (from, to) := UndoPaths(rec).value;
    if from in e && !BlockedByFile(e, to.parent) {
      var e1 := WithDirs(e, to.parent);
      WithDirsAdds(e, to.parent);
      var target := UniqueDestination(e1.Keys, to);
      MoveSpecEffect(e1, from, target, osFails);
    }
  }

  /**
   * The undo never overwrites or removes an entry other than the file it
   * moves back: every other entry keeps its place and its metadata, the
   * only new entries are the folders on the way to `src` and the moved
   * file, and the file lands at a path of the folder of `src` that was free,
   * which is `src` itself when `src` was free.
   */
  lemma UndoStepNeverOverwrites(e: Entries, rec: MoveObject, osFails: bool)
    requires UndoPaths(rec).Some?
    ensures var (from, to) := UndoPaths(rec).value;
      var run := UndoStep(e, rec, osFails);
      && (forall q :: q in e && q != from ==> q in run.entries && run.entries[q] == e[q])
      && (forall q :: q in run.entries && q !in e ==>
            (exists k :: 0 <= k < |to.parent| && q == Ancestor(to.parent, k)) ||
            (from in e && !run.stopped && q.parent == to.parent && run.entries[q] == e[from]))
      && (from in e && !run.stopped ==>
            && from !in run.entries
            && (exists t :: t !in e && t.parent == to.parent && t in run.entries && run.entries[t] == e[from]))
      && (from in e && !run.stopped && to !in e ==> to in run.entries && run.entries[to] == e[from])
  {
    var (from, to) := UndoPaths(rec).value;
    if from in e && !BlockedByFile(e, to.parent) {
      var e1 := WithDirs(e, to.parent);
      WithDirsAdds(e, to.parent);
      var target := UniqueDestination(e1.Keys, to);
      MoveSpecEffect(e1, from, target, osFails);
      if !osFails {
        assert target !in e1;
        if to !in e {
          assert |to.Components()| == |to.parent| + 1;
          forall k | 0 <= k < |to.parent| ensures Ancestor(to.parent, k) != to {
            assert |Ancestor(to.parent, k).parent| == k;
          }
          assert to !in e1;
          assert target == to;
        }
      }
    }
  }

  /** Once the undo has stopped, the later records change nothing. */
  lemma {:induction false} UndoneStaysStopped(e: Entries, moves: seq<MoveObject>, failing: set<nat>, k: nat, n: nat)
    requires k <= n <= |moves|
    requires Undone(e, moves, failing, k).stopped
    ensures Undone(e, moves, failing, n) == Undone(e, moves, failing, k)
    decreases n
  {
    if k < n {
      UndoneStaysStopped(e, moves, failing, k, n - 1);
    }
  }

  lemma {:induction false} NoMoveLines(lines: seq<Line>)
    requires forall i :: 0 <= i < |lines| ==> ParseMoveLine(lines[i]).None?
    ensures MovesOf(lines) == []
    decreases |lines|
  {
    if lines != [] {
      NoMoveLines(lines[..|lines| - 1]);
    }
  }

  /** A journal none of whose lines is a `move` object leaves the entries as they are. */
  lemma NoMovesNoChange(e: Entries, lines: seq<Line>, failing: set<nat>)
    requires forall i :: 0 <= i < |lines| ==> ParseMoveLine(lines[i]).None?
    ensures UndoAll(e, Reversed(MovesOf(lines)), failing) == UndoRun(e, false)
  {
    NoMoveLines(lines);
  }

  /** The reading loop of `run_undo`: the `move` objects of the journal, in journal order. */
  method CollectMoves(lines: seq<Line>) returns (moves: seq<MoveObject>)
    ensures moves == MovesOf(lines)
  {
    moves := [];
    for i := 0 to |lines|
      invariant moves == MovesOf(lines[..i])
    {
      assert lines[..i + 1][..i] == lines[..i];
      var rec := ParseMoveLine(lines[i]);
      if rec.Some? {
        moves := moves + [rec.value];
      }
    }
    assert lines[..|lines|] == lines;
  }

  /** How `run_undo` ended. */
  datatype UndoExit =
    | JournalMissing      // "Undo log not found"
    | JournalUnreadable   // the journal path is a folder: `open` raises
    | UndoDryRun
    | UndoCancelled
    | UndoStopped         // an exception ended the loop
    | UndoCompleted

  /**
   * `run_undo(log_path, dry_run, assume_yes)`: `confirmed` is whether the
   * moves go ahead, `failing` the moves the operating system refuses.
   */
  method RunUndo(fs: FileSystem, logPath: Path, dryRun: bool, confirmed: bool, failing: set<nat>)
    returns (moves: seq<MoveObject>, exit: UndoExit)
    modifies fs
    ensures fs.journals == old(fs.journals)
    ensures logPath !in old(fs.entries) ==> exit == JournalMissing && fs.entries == old(fs.entries)
    ensures logPath in old(fs.entries) && old(fs.entries)[logPath].Directory? ==>
      exit == JournalUnreadable && fs.entries == old(fs.entries)
    ensures logPath in old(fs.entries) && old(fs.entries)[logPath].File? ==>
      && moves == Reversed(MovesOf(JournalLines(old(fs.State()), logPath)))
      && if dryRun || !confirmed then
           fs.entries == old(fs.entries) && exit == (if dryRun then UndoDryRun else UndoCancelled)
         else
           var run := UndoAll(old(fs.entries), moves, failing);
           fs.entries == run.entries && exit == (if run.stopped then UndoStopped else UndoCompleted)
  {
    moves := [];
    if logPath !in fs.entries {
      return moves, JournalMissing;
    }
    if fs.entries[logPath].Directory? {
      return moves, JournalUnreadable;
    }
    var lines := if logPath in fs.journals then fs.journals[logPath] else [];
    moves := CollectMoves(lines);
    moves := Reversed(moves);
    if dryRun {
      return moves, UndoDryRun;
    }
    if !confirmed {
      return moves, UndoCancelled;
    }
    for i := 0 to |moves|
      invariant fs.journals == old(fs.journals)
      invariant Undone(old(fs.entries), moves, failing, i) == UndoRun(fs.entries, false)
    {
      var paths := UndoPaths(moves[i]);
      if paths.None? {
        UndoneStaysStopped(old(fs.entries), moves, failing, i + 1, |moves|);
        return moves, UndoStopped;
      }
      var (from, to) := paths.value;
      if from in fs.entries {
        var ok := fs.EnsureDir(to.parent);
        if !ok {
          UndoneStaysStopped(old(fs.entries), moves, failing, i + 1, |moves|);
          return moves, UndoStopped;
        }
        var target := fs.SafeUniqueDestination(to);
        var res := fs.Move(from, target, i in failing);
        if res.MoveFailed? {
          UndoneStaysStopped(old(fs.entries), moves, failing, i + 1, |moves|);
          return moves, UndoStopped;
        }
      }
    }
    exit := UndoCompleted;
  }
}
