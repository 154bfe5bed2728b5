/**
 * `run_sort`: lay out the category folders and the log folder, plan a move
 * for every top-level file, then carry the plan out, journaling every
 * attempt and going on after failures.
 */
module Sorter {

  import opened Wrappers
  import opened Paths
  import opened Classifier
  import opened Resolver
  import opened Journal
  import opened FileSystem

  const LogsFolderName: Name := "_DownloadsSorterLogs"

  function LogsDir(downloads: Dir): Dir {
    downloads + [LogsFolderName]
  }

  /** The journal of a run started at `stamp`: `move_log_<stamp>.jsonl` in the log folder. */
  function LogPathFor(downloads: Dir, stamp: string): Path {
    Path(LogsDir(downloads), "move_log_" + stamp + ".jsonl")
  }

  function CategoryDir(downloads: Dir, c: Category): Dir {
    downloads + [FolderName(c)]
  }

  /** A planned move: `(src, dst, cat)`. */
  datatype Action = Action(src: Path, dst: Path, cat: Category)

  /**
   * Symbolic links are resolved by `resolve`, a property of the filesystem
   * at planning time; `d => d` when there are none.
   */
  type Resolution = Dir -> Dir

  /** `category_dirs`: every category folder, resolved. */
  function CategoryDirs(downloads: Dir, resolve: Resolution): seq<Dir> {
    seq(|AllCategories|, i requires 0 <= i < |AllCategories| => resolve(CategoryDir(downloads, AllCategories[i])))
  }

  /** `is_inside(p, base)`: the resolved `p` lies in the resolved `base`. */
  predicate IsInside(resolve: Resolution, p: Dir, base: Dir) {
    IsPrefix(resolve(base), resolve(p))
  }

  /**
   * An entry of the listing the planner keeps: a regular file, not inside
   * the (already resolved) log folder, whose folder is not a category folder.
   */
  predicate Sortable(e: Entries, downloads: Dir, resolve: Resolution, p: Path) {
    && p in e && e[p].File?
    && !IsInside(resolve, p.Components(), resolve(LogsDir(downloads)))
    && resolve(p.parent) !in CategoryDirs(downloads, resolve)
  }

  /** The planned move of `p`: to its category folder, under a name nothing holds yet. */
  function ActionFor(e: Entries, downloads: Dir, p: Path): Action {
    var c := CategoryForName(p.name);
    Action(p, UniqueDestination(e.Keys, Path(CategoryDir(downloads, c), p.name)), c)
  }

  /** The plan for a listing, in listing order; every destination is resolved against `e`. */
  function PlanOf(e: Entries, downloads: Dir, resolve: Resolution, listing: seq<Path>): seq<Action> {
    if listing == [] then []
    else
      var p := listing[|listing| - 1];
      PlanOf(e, downloads, resolve, listing[..|listing| - 1])
        + (if Sortable(e, downloads, resolve, p) then [ActionFor(e, downloads, p)] else [])
  }

  /** The planning loop of `run_sort`. */
  method Plan(fs: FileSystem, downloads: Dir, resolve: Resolution, listing: seq<Path>)
    returns (plan: seq<Action>)
    ensures plan == PlanOf(fs.entries, downloads, resolve, listing)
  {
    var categoryDirs := CategoryDirs(downloads, resolve);
    var logsResolved := resolve(LogsDir(downloads));
    plan := [];
    for i := 0 to |listing|
      invariant plan == PlanOf(fs.entries, downloads, resolve, listing[..i])
    {
      assert listing[..i + 1][..i] == listing[..i];
      var p := listing[i];
      if p in fs.entries && fs.entries[p].File?
        && !IsPrefix(resolve(logsResolved), resolve(p.Components()))
        && resolve(p.parent) !in categoryDirs
      {
        var cat := CategoryForFile(p.name);
        var dest := fs.SafeUniqueDestination(Path(CategoryDir(downloads, cat), p.name));
        plan := plan + [Action(p, dest, cat)];
      }
    }
    assert listing[..|listing|] == listing;
  }

  /**
   * Every planned move starts at a sortable entry of the listing, is filed
   * under the classifier's category, and goes to a path of that category's
   * folder that nothing held when the plan was made.
   */
  lemma {:induction false} PlanOfSound(e: Entries, downloads: Dir, resolve: Resolution, listing: seq<Path>)
    ensures forall k :: 0 <= k < |PlanOf(e, downloads, resolve, listing)| ==>
      var a := PlanOf(e, downloads, resolve, listing)[k];
      && a.src in listing
      && Sortable(e, downloads, resolve, a.src)
      && a.src in e && e[a.src].File?
      && a.cat == CategoryForName(a.src.name)
      && a.dst == UniqueDestination(e.Keys, Path(CategoryDir(downloads, a.cat), a.src.name))
      && a.dst !in e
      && a.dst.parent == CategoryDir(downloads, a.cat)
    decreases |listing|
  {
    if listing != [] {
      var init := listing[..|listing| - 1];
      PlanOfSound(e, downloads, resolve, init);
      var plan := PlanOf(e, downloads, resolve, listing);
      forall k | 0 <= k < |plan| ensures plan[k].src in listing {
        if k < |PlanOf(e, downloads, resolve, init)| {
          assert plan[k] == PlanOf(e, downloads, resolve, init)[k];
          assert plan[k].src in init;
        }
      }
    }
  }

  /** Every sortable entry of the listing is planned. */
  lemma {:induction false} PlanOfComplete(e: Entries, downloads: Dir, resolve: Resolution, listing: seq<Path>)
    ensures forall p :: p in listing && Sortable(e, downloads, resolve, p) ==>
      ActionFor(e, downloads, p) in PlanOf(e, downloads, resolve, listing)
    decreases |listing|
  {
    if listing != [] {
      var init := listing[..|listing| - 1];
      PlanOfComplete(e, downloads, resolve, init);
      assert listing == init + [listing[|listing| - 1]];
    }
  }

  /** The plan keeps the listing's order: a move planned earlier comes from an earlier listing entry. */
  lemma PlanOfOrdered(e: Entries, downloads: Dir, resolve: Resolution, listing: seq<Path>)
    requires forall i, j :: 0 <= i < j < |listing| ==> listing[i] != listing[j]
    ensures forall k1, k2, i1, i2 ::
      0 <= k1 < k2 < |PlanOf(e, downloads, resolve, listing)| &&
      0 <= i1 < |listing| && 0 <= i2 < |listing| &&
      listing[i1] == PlanOf(e, downloads, resolve, listing)[k1].src &&
      listing[i2] == PlanOf(e, downloads, resolve, listing)[k2].src
      ==> i1 < i2
  {
    var keep := p => Sortable(e, downloads, resolve, p);
    SourcesOfPlan(e, downloads, resolve, keep, listing);
    FilterOrdered(keep, listing);
  }

  /** The sources of a plan, in plan order. */
  function Sources(plan: seq<Action>): (r: seq<Path>)
    ensures |r| == |plan| && forall k :: 0 <= k < |plan| ==> r[k] == plan[k].src
  {
    if plan == [] then [] else Sources(plan[..|plan| - 1]) + [plan[|plan| - 1].src]
  }

  /** The entries of `s` that `keep` accepts, in order. */
  function Filter<T>(keep: T -> bool, s: seq<T>): seq<T> {
    if s == [] then [] else Filter(keep, s[..|s| - 1]) + (if keep(s[|s| - 1]) then [s[|s| - 1]] else [])
  }

  /** The planned moves start at the sortable entries of the listing, in listing order. */
  lemma {:induction false} SourcesOfPlan(e: Entries, downloads: Dir, resolve: Resolution, keep: Path -> bool, listing: seq<Path>)
    requires forall p :: keep(p) == Sortable(e, downloads, resolve, p)
    ensures Sources(PlanOf(e, downloads, resolve, listing)) == Filter(keep, listing)
    decreases |listing|
  {
    if listing != [] {
      var init := listing[..|listing| - 1];
      SourcesOfPlan(e, downloads, resolve, keep, init);
      var plan, plan0 := PlanOf(e, downloads, resolve, listing), PlanOf(e, downloads, resolve, init);
      assert Sources(plan)[..|plan0|] == Sources(plan0);
    }
  }

  /**
   * Filtering a duplicate-free sequence keeps the order: an entry kept
   * earlier comes earlier in the sequence.
   */
  lemma {:induction false} FilterOrdered<T>(keep: T -> bool, s: seq<T>)
    requires forall i, j :: 0 <= i < j < |s| ==> s[i] != s[j]
    ensures forall k, i :: 0 <= k < |Filter(keep, s)| && 0 <= i < |s| && s[i] == Filter(keep, s)[k] ==> keep(s[i])
    ensures forall k1, k2, i1, i2 ::
      0 <= k1 < k2 < |Filter(keep, s)| && 0 <= i1 < |s| && 0 <= i2 < |s| &&
      s[i1] == Filter(keep, s)[k1] && s[i2] == Filter(keep, s)[k2]
      ==> i1 < i2
    decreases |s|
  {
    if s != [] {
      var n := |s|;
      var init := s[..n - 1];
      FilterOrdered(keep, init);
      var f, f0 := Filter(keep, s), Filter(keep, init);
      forall k, i | 0 <= k < |f0| && 0 <= i < n && s[i] == f0[k]
        ensures i < n - 1
      {
        if i == n - 1 {
          FilterFrom(keep, init, k);
        }
      }
      forall k1, k2, i1, i2 |
        0 <= k1 < k2 < |f| && 0 <= i1 < n && 0 <= i2 < n && s[i1] == f[k1] && s[i2] == f[k2]
        ensures i1 < i2
      {
        assert f[k1] == f0[k1];
        if k2 < |f0| {
          assert f[k2] == f0[k2];
          assert init[i1] == f0[k1] && init[i2] == f0[k2];
        } else {
          assert s[i2] == s[n - 1];
        }
      }
    }
  }

  /** Every kept entry is an entry of the sequence. */
  lemma {:induction false} FilterFrom<T>(keep: T -> bool, s: seq<T>, k: nat)
    requires k < |Filter(keep, s)|
    ensures exists i :: 0 <= i < |s| && s[i] == Filter(keep, s)[k]
    decreases |s|
  {
    var init := s[..|s| - 1];
    if k < |Filter(keep, init)| {
      FilterFrom(keep, init, k);
      var i :| 0 <= i < |init| && init[i] == Filter(keep, init)[k];
      assert s[i] == Filter(keep, s)[k];
    } else {
      assert Filter(keep, s)[k] == s[|s| - 1];
    }
  }

  /**
   * With no symbolic links, the planner keeps every regular file directly
   * in the downloads folder, except an entry named like the log folder.
   */
  lemma IdentityResolutionSortsTopLevelFiles(e: Entries, downloads: Dir, resolve: Resolution, p: Path)
    requires forall d :: resolve(d) == d
    requires p.parent == downloads
    ensures Sortable(e, downloads, resolve, p) <==> p in e && e[p].File? && p.name != LogsFolderName
  {
    var logs := LogsDir(downloads);
    assert resolve(resolve(logs)) == logs && resolve(p.Components()) == p.Components();
    if p.name != LogsFolderName {
      assert p.Components()[|downloads|] != logs[|downloads|];
    } else {
      assert p.Components() == logs;
    }
    forall i | 0 <= i < |AllCategories|
      ensures CategoryDirs(downloads, resolve)[i] != downloads
    {
      assert CategoryDirs(downloads, resolve)[i] == CategoryDir(downloads, AllCategories[i]);
      assert |CategoryDirs(downloads, resolve)[i]| == |downloads| + 1;
    }
  }

  /** A listing of two sortable entries is planned as their two moves, in order. */
  lemma PlanOfPair(e: Entries, downloads: Dir, resolve: Resolution, p: Path, q: Path)
    requires Sortable(e, downloads, resolve, p) && Sortable(e, downloads, resolve, q)
    ensures PlanOf(e, downloads, resolve, [p, q]) == [ActionFor(e, downloads, p), ActionFor(e, downloads, q)]
  {
    assert [p, q][..1] == [p];
    assert PlanOf(e, downloads, resolve, [p, q]) == PlanOf(e, downloads, resolve, [p]) + [ActionFor(e, downloads, q)];
    assert [p][..0] == [];
    assert PlanOf(e, downloads, resolve, [p]) == [ActionFor(e, downloads, p)];
  }

  // A downloads folder on which two planned moves share a destination.
  const ExampleDownloads: Dir := ["home", "Downloads"]
  const ExampleNumbered := Path(ExampleDownloads, "photo (1).png")
  const ExamplePhoto := Path(ExampleDownloads, "photo.png")
  const ExampleFiled := Path(CategoryDir(ExampleDownloads, Images), "photo.png")
  const ExampleShared := Path(CategoryDir(ExampleDownloads, Images), "photo (1).png")
  const ExampleEntries: Entries :=
    map[ExampleNumbered := File(1, 0), ExamplePhoto := File(2, 0), ExampleFiled := File(3, 0)]

  lemma ExampleNumberedAction()
    ensures ActionFor(ExampleEntries, ExampleDownloads, ExampleNumbered) == Action(ExampleNumbered, ExampleShared, Images)
  {
    NumberedImageExample();
    assert ExampleShared !in ExampleEntries;
  }

  lemma ExamplePhotoAction()
    ensures ActionFor(ExampleEntries, ExampleDownloads, ExamplePhoto) == Action(ExamplePhoto, ExampleShared, Images)
  {
    ImageExample();
    ExampleFiledTaken();
    assert Path(CategoryDir(ExampleDownloads, Images), ExamplePhoto.name) == ExampleFiled;
  }

  /** `Images/photo.png` is taken, so the resolver moves on to `Images/photo (1).png`. */
  lemma ExampleFiledTaken()
    ensures UniqueDestination(ExampleEntries.Keys, ExampleFiled) == ExampleShared
  {
    FirstCandidateExample();
    assert Candidate(ExampleFiled, 1) == ExampleShared;
    assert ExampleFiled in ExampleEntries.Keys && ExampleShared !in ExampleEntries.Keys;
    assert FirstFreeFrom(ExampleEntries.Keys, ExampleFiled, 1) == 1;
  }

  /**
   * The planner resolves every destination against the folder as it was
   * before any move, so two planned moves can share a destination: with
   * `Images/photo.png` already there, `photo (1).png` and `photo.png` are
   * both planned to `Images/photo (1).png`.
   */
  lemma PlannedDestinationsCanCoincide()
    ensures var plan := PlanOf(ExampleEntries, ExampleDownloads, d => d, [ExampleNumbered, ExamplePhoto]);
      |plan| == 2 && plan[0].dst == ExampleShared && plan[1].dst == ExampleShared
  {
    var resolve: Resolution := d => d;
    IdentityResolutionSortsTopLevelFiles(ExampleEntries, ExampleDownloads, resolve, ExampleNumbered);
    IdentityResolutionSortsTopLevelFiles(ExampleEntries, ExampleDownloads, resolve, ExamplePhoto);
    PlanOfPair(ExampleEntries, ExampleDownloads, resolve, ExampleNumbered, ExamplePhoto);
    ExampleNumberedAction();
    ExamplePhotoAction();
  }

  // ---------------------------------------------------------------------
  // Execution
  // ---------------------------------------------------------------------

  /**
   * One attempt of the execution loop: `stat` the source, move it, and
   * journal a `move` record with the size and time `stat` gave, or an
   * `error` record when either step raised.
   */
  function ExecStep(s: FsState, logPath: Path, a: Action, osFails: bool): (FsState, Record) {
    if a.src !in s.entries then
      var r := ErrorRecord(a.src, a.dst, SourceMissing);
      (AppendLine(s, logPath, Encode(r)), r)
    else
      var st := s.entries[a.src];
      var (e1, res) := MoveSpec(s.entries, a.src, a.dst, osFails);
      var r := if res.MovedTo? then MoveRecord(a.cat, a.src, a.dst, st.size, st.mtime)
               else ErrorRecord(a.src, a.dst, res.why);
      (AppendLine(s.(entries := e1), logPath, Encode(r)), r)
  }

  datatype ExecRun = ExecRun(state: FsState, records: seq<Record>)

  /**
   * The execution loop after its first `k` attempts over `plan`; the
   * operating system refuses the attempts whose index is in `failing`.
   */
  function Executed(s: FsState, logPath: Path, plan: seq<Action>, failing: set<nat>, k: nat): (run: ExecRun)
    requires k <= |plan|
    ensures |run.records| == k
  {
    if k == 0 then ExecRun(s, [])
    else
      var prev := Executed(s, logPath, plan, failing, k - 1);
      var step := ExecStep(prev.state, logPath, plan[k - 1], k - 1 in failing);
      ExecRun(step.0, prev.records + [step.1])
  }

  /** The whole execution loop. */
  function ExecAll(s: FsState, logPath: Path, plan: seq<Action>, failing: set<nat>): ExecRun {
    Executed(s, logPath, plan, failing, |plan|)
  }

  /**
   * One record per attempt, for the attempt's source and destination: a
   * `move` record exactly when the source was there and the move went
   * through (with the size and time of the source just before), an `error`
   * record otherwise.
   */
  lemma ExecStepRecord(s: FsState, logPath: Path, a: Action, osFails: bool)
    ensures var (s1, r) := ExecStep(s, logPath, a, osFails);
      && r.src == a.src && r.dst == a.dst
      && (r.MoveRecord? <==> a.src in s.entries && MoveSpec(s.entries, a.src, a.dst, osFails).1.MovedTo?)
      && (r.MoveRecord? ==> r.category == a.cat && r.size == s.entries[a.src].size && r.mtime == s.entries[a.src].mtime)
      && (osFails ==> r.ErrorRecord?)
      && (a.src !in s.entries ==> r == ErrorRecord(a.src, a.dst, SourceMissing))
  {
  }

  /** The attempt's record is appended to the journal, and only there. */
  lemma ExecStepJournal(s: FsState, logPath: Path, a: Action, osFails: bool)
    ensures var (s1, r) := ExecStep(s, logPath, a, osFails);
      && JournalLines(s1, logPath) == JournalLines(s, logPath) + [Encode(r)]
      && (forall p :: p != logPath ==> JournalLines(s1, p) == JournalLines(s, p))
  {
  }

  /**
   * A move onto an existing file replaces that file and is journaled as an
   * ordinary `move`: when two planned moves share a destination, the first
   * file moved there is lost and no record says so.
   */
  lemma MoveOntoFileReplaces(s: FsState, logPath: Path, a: Action)
    requires a.src in s.entries && a.dst in s.entries && s.entries[a.dst].File?
    requires a.src != a.dst && a.src != logPath && a.dst != logPath
    ensures var (s1, r) := ExecStep(s, logPath, a, false);
      && r.MoveRecord?
      && a.src !in s1.entries
      && a.dst in s1.entries && s1.entries[a.dst] == s.entries[a.src]
  {
  }

  /** Later attempts do not change the records of earlier ones. */
  lemma {:induction false} ExecutedPrefix(s: FsState, logPath: Path, plan: seq<Action>, failing: set<nat>, k: nat, n: nat)
    requires k <= n <= |plan|
    ensures Executed(s, logPath, plan, failing, n).records[..k] == Executed(s, logPath, plan, failing, k).records
    decreases n
  {
    var records: nat -> seq<Record> := (m: nat) => if m <= |plan| then Executed(s, logPath, plan, failing, m).records else [];
    forall m | 0 < m <= |plan| ensures records(m)[..m - 1] == records(m - 1) {
      ExecutedExtends(s, logPath, plan, failing, m);
    }
    PrefixChain(records, |plan|, k, n);
  }

  /** A chain of sequences each extending the one before extends all earlier ones. */
  lemma {:induction false} PrefixChain<T>(records: nat -> seq<T>, top: nat, k: nat, n: nat)
    requires k <= n <= top
    requires forall m :: 0 <= m <= top ==> |records(m)| == m
    requires forall m :: 0 < m <= top ==> records(m)[..m - 1] == records(m - 1)
    ensures records(n)[..k] == records(k)
    decreases n
  {
    if k < n {
      PrefixChain(records, top, k, n - 1);
      PrefixOfPrefix(records(n), records(n - 1), k);
    }
  }

  /** An attempt adds one record after those of the attempts before it. */
  lemma ExecutedExtends(s: FsState, logPath: Path, plan: seq<Action>, failing: set<nat>, n: nat)
    requires 0 < n <= |plan|
    ensures Executed(s, logPath, plan, failing, n).records[..n - 1] == Executed(s, logPath, plan, failing, n - 1).records
  {
    var prev := Executed(s, logPath, plan, failing, n - 1);
    var step := ExecStep(prev.state, logPath, plan[n - 1], n - 1 in failing);
    SnocPrefix(prev.records, step.1);
  }

  lemma SnocPrefix<T>(r: seq<T>, x: T)
    ensures (r + [x])[..|r|] == r
  {
  }

  lemma PrefixOfPrefix<T>(r: seq<T>, q: seq<T>, k: nat)
    requires |q| < |r| && r[..|q|] == q && k <= |q|
    ensures r[..k] == q[..k]
  {
    assert r[..k] == r[..|q|][..k];
  }

  /** The record of attempt `i` is the one its step makes in the state the earlier attempts left. */
  lemma RecordAt(s: FsState, logPath: Path, plan: seq<Action>, failing: set<nat>, i: nat)
    requires i < |plan|
    ensures ExecAll(s, logPath, plan, failing).records[i]
         == ExecStep(Executed(s, logPath, plan, failing, i).state, logPath, plan[i], i in failing).1
  {
    ExecutedPrefix(s, logPath, plan, failing, i + 1, |plan|);
    assert ExecAll(s, logPath, plan, failing).records[i] == ExecAll(s, logPath, plan, failing).records[..i + 1][i];
  }

  /**
   * One record per planned action, in plan order, for that action's source
   * and destination, whatever happened to the earlier ones; an attempt the
   * operating system refuses gets an `error` record, and a `move` record
   * carries the size and time its source had just before its attempt.
   */
  lemma ExecAllRecords(s: FsState, logPath: Path, plan: seq<Action>, failing: set<nat>)
    ensures var run := ExecAll(s, logPath, plan, failing);
      && (forall i :: 0 <= i < |plan| ==> run.records[i].src == plan[i].src && run.records[i].dst == plan[i].dst)
      && (forall i :: 0 <= i < |plan| && i in failing ==> run.records[i].ErrorRecord?)
      && (forall i :: 0 <= i < |plan| && run.records[i].MoveRecord? ==>
            var before := Executed(s, logPath, plan, failing, i).state.entries;
            && run.records[i].category == plan[i].cat
            && plan[i].src in before
            && run.records[i].size == before[plan[i].src].size
            && run.records[i].mtime == before[plan[i].src].mtime)
  {
    var run := ExecAll(s, logPath, plan, failing);
    forall i | 0 <= i < |plan|
      ensures run.records[i].src == plan[i].src && run.records[i].dst == plan[i].dst
      ensures i in failing ==> run.records[i].ErrorRecord?
      ensures run.records[i].MoveRecord? ==>
            var before := Executed(s, logPath, plan, failing, i).state.entries;
            && run.records[i].category == plan[i].cat
            && plan[i].src in before
            && run.records[i].size == before[plan[i].src].size
            && run.records[i].mtime == before[plan[i].src].mtime
    {
      RecordAt(s, logPath, plan, failing, i);
      ExecStepRecord(Executed(s, logPath, plan, failing, i).state, logPath, plan[i], i in failing);
    }
  }

  lemma JournalGrows(before: seq<Line>, lines: seq<Line>, records: seq<Record>, lines1: seq<Line>, r: Record)
    requires lines == before + EncodeAll(records)
    requires lines1 == lines + [Encode(r)]
    ensures lines1 == before + EncodeAll(records + [r])
  {
    EncodeAllAppend(records, r);
    assert (before + EncodeAll(records)) + [Encode(r)] == before + (EncodeAll(records) + [Encode(r)]);
  }

  /** The journal gains exactly the records' lines, in order. */
  lemma {:induction false} ExecutedJournal(s: FsState, logPath: Path, plan: seq<Action>, failing: set<nat>, k: nat)
    requires k <= |plan|
    ensures JournalLines(Executed(s, logPath, plan, failing, k).state, logPath)
         == JournalLines(s, logPath) + EncodeAll(Executed(s, logPath, plan, failing, k).records)
    decreases k
  {
    if k > 0 {
      var prev := Executed(s, logPath, plan, failing, k - 1);
      ExecutedJournal(s, logPath, plan, failing, k - 1);
      var step := ExecStep(prev.state, logPath, plan[k - 1], k - 1 in failing);
      ExecStepJournal(prev.state, logPath, plan[k - 1], k - 1 in failing);
      JournalGrows(JournalLines(s, logPath), JournalLines(prev.state, logPath), prev.records,
                   JournalLines(step.0, logPath), step.1);
    }
  }

  /** The run leaves every other journal as it was. */
  lemma {:induction false} ExecutedOtherJournals(s: FsState, logPath: Path, plan: seq<Action>, failing: set<nat>, k: nat, p: Path)
    requires k <= |plan|
    requires p != logPath
    ensures JournalLines(Executed(s, logPath, plan, failing, k).state, p) == JournalLines(s, p)
    decreases k
  {
    if k > 0 {
      var prev := Executed(s, logPath, plan, failing, k - 1);
      ExecutedOtherJournals(s, logPath, plan, failing, k - 1, p);
      ExecStepJournal(prev.state, logPath, plan[k - 1], k - 1 in failing);
    }
  }

  /** The number of attempts among the first `n` that the operating system refuses. */
  function Refused(failing: set<nat>, n: nat): nat {
    if n == 0 then 0 else Refused(failing, n - 1) + (if n - 1 in failing then 1 else 0)
  }

  /** The count of completed moves never exceeds the attempts the operating system lets through. */
  lemma {:induction false} MovedCountBound(s: FsState, logPath: Path, plan: seq<Action>, failing: set<nat>, k: nat)
    requires k <= |plan|
    ensures CountMoves(Executed(s, logPath, plan, failing, k).records) + Refused(failing, k) <= k
    decreases k
  {
    if k > 0 {
      MovedCountBound(s, logPath, plan, failing, k - 1);
      var prev := Executed(s, logPath, plan, failing, k - 1);
      ExecStepRecord(prev.state, logPath, plan[k - 1], k - 1 in failing);
      var run := Executed(s, logPath, plan, failing, k);
      assert run.records[..k - 1] == prev.records;
    }
  }

  /** The execution loop of `run_sort`; returns `moved_count`. */
  method Execute(fs: FileSystem, logPath: Path, plan: seq<Action>, failing: set<nat>) returns (moved: nat)
    modifies fs
    ensures fs.State() == ExecAll(old(fs.State()), logPath, plan, failing).state
    ensures moved == CountMoves(ExecAll(old(fs.State()), logPath, plan, failing).records)
  {
    moved := 0;
    ghost var records: seq<Record> := [];
    for i := 0 to |plan|
      invariant Executed(old(fs.State()), logPath, plan, failing, i) == ExecRun(fs.State(), records)
      invariant moved == CountMoves(records)
    {
      ghost var before := fs.State();
      var a := plan[i];
      var r: Record;
      if a.src !in fs.entries {
        r := ErrorRecord(a.src, a.dst, SourceMissing);
      } else {
        var st := fs.entries[a.src];
        var res := fs.Move(a.src, a.dst, i in failing);
        if res.MovedTo? {
          r := MoveRecord(a.cat, a.src, a.dst, st.size, st.mtime);
          moved := moved + 1;
        } else {
          r := ErrorRecord(a.src, a.dst, res.why);
        }
      }
      fs.AppendRecord(logPath, r);
      assert (fs.State(), r) == ExecStep(before, logPath, a, i in failing);
      records := records + [r];
    }
  }

  // ---------------------------------------------------------------------
  // The whole run
  // ---------------------------------------------------------------------

  /** The folders `run_sort` creates first: the log folder, then every category folder. */
  function LayoutDirs(downloads: Dir): seq<Dir> {
    [LogsDir(downloads)] + seq(|AllCategories|, i requires 0 <= i < |AllCategories| => CategoryDir(downloads, AllCategories[i]))
  }

  /** `ensure_dir` on each of `dirs` in turn; false once one raises (the run ends there). */
  function EnsureAll(e: Entries, dirs: seq<Dir>): (Entries, bool)
    decreases |dirs|
  {
    if dirs == [] then (e, true)
    else match EnsureDirSpec(e, dirs[0])
      case None => (e, false)
      case Some(e1) => EnsureAll(e1, dirs[1..])
  }

  /**
   * Ensuring folders in turn keeps every entry that was there and adds only
   * folders on the way to the requested ones; when no `ensure_dir` raised,
   * every folder on the way to every requested one is there, as a folder.
   */
  lemma {:induction false} EnsureAllEffect(e: Entries, dirs: seq<Dir>)
    ensures var (e1, ok) := EnsureAll(e, dirs);
      && (forall q :: q in e ==> q in e1 && e1[q] == e[q])
      && (forall q :: q in e1 && q !in e ==>
            e1[q].Directory? && exists j, k :: 0 <= j < |dirs| && 0 <= k < |dirs[j]| && q == Ancestor(dirs[j], k))
      && (ok ==> forall j, k :: 0 <= j < |dirs| && 0 <= k < |dirs[j]| ==>
            Ancestor(dirs[j], k) in e1 && e1[Ancestor(dirs[j], k)].Directory?)
    decreases |dirs|
  {
    if dirs != [] && !BlockedByFile(e, dirs[0]) {
      var w := WithDirs(e, dirs[0]);
      var rest := dirs[1..];
      WithDirsAdds(e, dirs[0]);
      EnsureDirPresent(e, dirs[0]);
      EnsureAllEffect(w, rest);
      var (e1, ok) := EnsureAll(w, rest);
      assert EnsureAll(e, dirs) == (e1, ok);
      forall q | q in e1 && q !in e
        ensures e1[q].Directory? && exists j, k :: 0 <= j < |dirs| && 0 <= k < |dirs[j]| && q == Ancestor(dirs[j], k)
      {
        if q in w {
          var k :| 0 <= k < |dirs[0]| && q == Ancestor(dirs[0], k);
        } else {
          var j, k :| 0 <= j < |rest| && 0 <= k < |rest[j]| && q == Ancestor(rest[j], k);
          assert rest[j] == dirs[j + 1];
        }
      }
      if ok {
        forall j, k | 0 <= j < |dirs| && 0 <= k < |dirs[j]|
          ensures Ancestor(dirs[j], k) in e1 && e1[Ancestor(dirs[j], k)].Directory?
        {
          if j > 0 {
            assert dirs[j] == rest[j - 1];
          }
        }
      }
    }
  }

  /**
   * A successful layout step leaves the log folder and every category
   * folder directly in the downloads folder, each a folder, and every
   * folder on the way down to the downloads folder; nothing that was there
   * changes.
   */
  lemma LayoutEffect(e: Entries, downloads: Dir)
    ensures var (e1, ok) := EnsureAll(e, LayoutDirs(downloads));
      && (forall q :: q in e ==> q in e1 && e1[q] == e[q])
      && (ok ==>
            && Path(downloads, LogsFolderName) in e1 && e1[Path(downloads, LogsFolderName)].Directory?
            && (forall c :: Path(downloads, FolderName(c)) in e1 && e1[Path(downloads, FolderName(c))].Directory?)
            && (forall k :: 0 <= k < |downloads| ==> Ancestor(downloads, k) in e1 && e1[Ancestor(downloads, k)].Directory?))
  {
    var dirs := LayoutDirs(downloads);
    EnsureAllEffect(e, dirs);
    var n := |downloads|;
    assert dirs[0] == LogsDir(downloads);
    assert Ancestor(dirs[0], n) == Path(downloads, LogsFolderName);
    forall k | 0 <= k < n ensures Ancestor(downloads, k) == Ancestor(dirs[0], k) {
      assert dirs[0][..k] == downloads[..k];
    }
    forall c ensures Path(downloads, FolderName(c)) == Ancestor(dirs[FolderIndex(c) + 1], n) {
      assert dirs[FolderIndex(c) + 1] == CategoryDir(downloads, c);
    }
  }

  method EnsureLayout(fs: FileSystem, downloads: Dir) returns (ok: bool)
    modifies fs
    ensures (fs.entries, ok) == EnsureAll(old(fs.entries), LayoutDirs(downloads))
    ensures fs.journals == old(fs.journals)
  {
    var dirs := LayoutDirs(downloads);
    ok := true;
    var i := 0;
    while i < |dirs|
      invariant 0 <= i <= |dirs|
      invariant EnsureAll(fs.entries, dirs[i..]) == EnsureAll(old(fs.entries), dirs)
      invariant fs.journals == old(fs.journals)
    {
      assert dirs[i..][0] == dirs[i] && dirs[i..][1..] == dirs[i + 1..];
      ok := fs.EnsureDir(dirs[i]);
      if !ok {
        return;
      }
      i := i + 1;
    }
  }

  /** How `run_sort` ended. */
  datatype SortExit = LayoutFailed | NothingToOrganize | DryRunOnly | Cancelled | Completed(moved: nat)

  /**
   * `run_sort(downloads_dir, dry_run, assume_yes)`. `stamp` is the time the
   * journal is named after, `confirmed` whether the moves go ahead (`--yes`
   * or a "y" at the prompt), `failing` the attempts the operating system
   * refuses; `listing` is the order `iterdir` gave.
   */
  method RunSort(fs: FileSystem, downloads: Dir, stamp: string, resolve: Resolution,
                 dryRun: bool, confirmed: bool, failing: set<nat>)
    returns (logPath: Path, plan: seq<Action>, exit: SortExit, ghost listing: seq<Path>)
    modifies fs
    ensures logPath == LogPathFor(downloads, stamp)
    ensures var (e1, ok) := EnsureAll(old(fs.entries), LayoutDirs(downloads));
      var s1 := FsState(e1, old(fs.journals));
      if !ok then exit == LayoutFailed && fs.State() == s1
      else
        && IsListing(e1, downloads, listing)
        && plan == PlanOf(e1, downloads, resolve, listing)
        && if plan == [] || dryRun || !confirmed then
             && fs.State() == s1
             && exit == (if plan == [] then NothingToOrganize else if dryRun then DryRunOnly else Cancelled)
           else
             var run := ExecAll(s1, logPath, plan, failing);
             fs.State() == run.state && exit == Completed(CountMoves(run.records))
  {
    logPath := LogPathFor(downloads, stamp);
    plan := [];
    listing := [];
    var ok := EnsureLayout(fs, downloads);
    if !ok {
      return logPath, plan, LayoutFailed, listing;
    }
    var entries := fs.ListDir(downloads);
    listing := entries;
    plan := Plan(fs, downloads, resolve, entries);
    if plan == [] {
      return logPath, plan, NothingToOrganize, listing;
    }
    if dryRun {
      return logPath, plan, DryRunOnly, listing;
    }
    if !confirmed {
      return logPath, plan, Cancelled, listing;
    }
    var moved := Execute(fs, logPath, plan, failing);
    exit := Completed(moved);
  }
}
