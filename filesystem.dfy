/**
 * The filesystem the sorter works on: a finite map from paths to entries,
 * the journal lines the sorter has appended, and the operations the sorter
 * uses on it (`exists`, `iterdir`, `mkdir(parents=True, exist_ok=True)`,
 * `stat`, `shutil.move`, appending a line).
 */
module FileSystem {

  import opened Wrappers
  import opened Paths
  import opened Resolver
  import opened Journal

  /** A file or a directory, with what `stat` reports of it. */
  datatype Entry = File(size: nat, mtime: int) | Directory(size: nat, mtime: int)

  type Entries = map<Path, Entry>

  /** The whole filesystem: its entries, and the lines of the journal files written so far. */
  datatype FsState = FsState(entries: Entries, journals: map<Path, seq<Line>>)

  /** The lines of the journal at `p`; a file the sorter never wrote to holds none. */
  function JournalLines(s: FsState, p: Path): seq<Line> {
    if p in s.journals then s.journals[p] else []
  }

  /** The entry of the `k`-th directory on the way down to `d` (the one named `d[k]`). */
  function Ancestor(d: Dir, k: nat): Path
    requires k < |d|
  {
    Path(d[..k], d[k])
  }

  /** `mkdir` of `d` or of one of its ancestors would run into a file. */
  predicate BlockedByFile(e: Entries, d: Dir) {
    exists k :: 0 <= k < |d| && Ancestor(d, k) in e && e[Ancestor(d, k)].File?
  }

  /** `e` with every missing directory on the way down to `d` created. */
  function WithDirs(e: Entries, d: Dir): Entries {
    if d == [] then e
    else
      var e1 := WithDirs(e, d[..|d| - 1]);
      var p := Ancestor(d, |d| - 1);
      if p in e1 then e1 else e1[p := Directory(0, 0)]
  }

  /** `ensure_dir(d)`: None when a file is in the way (`mkdir` raises), otherwise the entries with `d` present. */
  function EnsureDirSpec(e: Entries, d: Dir): Option<Entries> {
    if BlockedByFile(e, d) then None else Some(WithDirs(e, d))
  }

  /** Creating directories adds exactly the missing ancestors of `d` and changes no entry that was there. */
  lemma {:induction false} WithDirsAdds(e: Entries, d: Dir)
    ensures forall q :: q in e ==> q in WithDirs(e, d) && WithDirs(e, d)[q] == e[q]
    ensures forall q :: q in WithDirs(e, d) && q !in e ==>
      WithDirs(e, d)[q].Directory? && exists k :: 0 <= k < |d| && q == Ancestor(d, k)
    ensures forall k :: 0 <= k < |d| ==> Ancestor(d, k) in WithDirs(e, d)
    decreases |d|
  {
    if d != [] {
      var init := d[..|d| - 1];
      WithDirsAdds(e, init);
      forall k | 0 <= k < |init| ensures Ancestor(init, k) == Ancestor(d, k) {
        assert init[..k] == d[..k];
      }
    }
  }

  /**
   * After a successful `ensure_dir(d)`, every directory on the way down to
   * `d` is there, as a directory.
   */
  lemma EnsureDirPresent(e: Entries, d: Dir)
    requires !BlockedByFile(e, d)
    ensures forall k :: 0 <= k < |d| ==> Ancestor(d, k) in WithDirs(e, d) && WithDirs(e, d)[Ancestor(d, k)].Directory?
  {
    WithDirsAdds(e, d);
    forall k | 0 <= k < |d| ensures WithDirs(e, d)[Ancestor(d, k)].Directory? {
      if Ancestor(d, k) in e {
        assert !e[Ancestor(d, k)].File?;
      }
    }
  }

  /** When every directory on the way down to `d` is already there, ensuring it changes nothing. */
  lemma {:induction false} WithDirsPresent(e: Entries, d: Dir)
    requires forall k :: 0 <= k < |d| ==> Ancestor(d, k) in e
    ensures WithDirs(e, d) == e
    decreases |d|
  {
    if d != [] {
      var init := d[..|d| - 1];
      forall k | 0 <= k < |init| ensures Ancestor(init, k) == Ancestor(d, k) {
        assert init[..k] == d[..k];
      }
      WithDirsPresent(e, init);
    }
  }

  /** Outcome of `shutil.move`. */
  datatype MoveResult = MovedTo(target: Path) | MoveFailed(why: ErrorKind)

  /**
   * `shutil.move(src, dst)`: a move onto an existing directory goes into
   * it (and fails when that directory already holds the name); a move onto
   * an existing file replaces it. `osFails` stands for the errors of the
   * operating system (permissions, devices) that the model does not decide.
   */
  function MoveSpec(e: Entries, src: Path, dst: Path, osFails: bool): (Entries, MoveResult) {
    if src !in e then (e, MoveFailed(SourceMissing))
    else
      var into := dst in e && e[dst].Directory?;
      var target := if into then Path(dst.Components(), src.name) else dst;
      if into && target in e then (e, MoveFailed(DestinationExists))
      else if osFails then (e, MoveFailed(OsFailure))
      else ((e - {src})[target := e[src]], MovedTo(target))
  }

  /** A move takes the entry away from its source and puts it, unchanged, at the target; nothing else changes. */
  lemma MoveSpecEffect(e: Entries, src: Path, dst: Path, osFails: bool)
    ensures var (e1, res) := MoveSpec(e, src, dst, osFails);
      && (res.MoveFailed? ==> e1 == e)
      && (res.MovedTo? ==>
            && src in e && !osFails
            && res.target in e1 && e1[res.target] == e[src]
            && (src != res.target ==> src !in e1)
            && (forall q :: q != src && q != res.target ==> (q in e1 <==> q in e) && (q in e ==> e1[q] == e[q])))
      && (src in e && dst !in e ==> (res.MovedTo? <==> !osFails) && (res.MovedTo? ==> res.target == dst))
  {
  }

  /** Writing one line to the journal at `p` (`open(p, "a")` creates the file when it is missing). */
  function AppendLine(s: FsState, p: Path, line: Line): FsState {
    FsState(if p in s.entries then s.entries else s.entries[p := File(0, 0)],
            s.journals[p := JournalLines(s, p) + [line]])
  }

  /** The listing `iterdir(d)`: every entry directly inside `d`, each once. */
  predicate IsListing(e: Entries, d: Dir, listing: seq<Path>) {
    && (forall i :: 0 <= i < |listing| ==> listing[i] in e && listing[i].parent == d)
    && (forall p :: p in e && p.parent == d ==> p in listing)
    && (forall i, j :: 0 <= i < j < |listing| ==> listing[i] != listing[j])
  }

  class FileSystem {
    var entries: Entries
    var journals: map<Path, seq<Line>>

    function State(): FsState
      reads this
    {
      FsState(entries, journals)
    }

    constructor (initial: FsState)
      ensures State() == initial
    {
      entries := initial.entries;
      journals := initial.journals;
    }

    /** `iterdir(d)`: the entries directly inside `d`, in an order the operating system picks. */
    method ListDir(d: Dir) returns (listing: seq<Path>)
      ensures IsListing(entries, d, listing)
    {
      var rest := set p | p in entries && p.parent == d;
      listing := [];
      while rest != {}
        invariant forall p :: p in rest ==> p in entries && p.parent == d
        invariant forall i :: 0 <= i < |listing| ==> listing[i] in entries && listing[i].parent == d
        invariant forall p :: p in entries && p.parent == d ==> p in listing || p in rest
        invariant forall i :: 0 <= i < |listing| ==> listing[i] !in rest
        invariant forall i, j :: 0 <= i < j < |listing| ==> listing[i] != listing[j]
        decreases rest
      {
        var p :| p in rest;
        listing := listing + [p];
        rest := rest - {p};
      }
    }

    /**
     * `safe_unique_destination(dest)`: keep the desired path when nothing is
     * there, otherwise try `stem (i)suffix` for i = 1, 2, ... until a
     * candidate is free.
     */
    method SafeUniqueDestination(dest: Path) returns (r: Path)
      ensures r == UniqueDestination(entries.Keys, dest)
    {
      if dest !in entries {
        return dest;
      }
      var i := 1;
      while Candidate(dest, i) in entries
        invariant 1 <= i
        invariant forall j :: 1 <= j < i ==> Candidate(dest, j) in entries.Keys
        invariant FirstFreeFrom(entries.Keys, dest, i) == FirstFreeFrom(entries.Keys, dest, 1)
        decreases |entries.Keys| + 1 - i
      {
        CandidatesTakenBound(entries.Keys, dest, i);
        i := i + 1;
      }
      r := Candidate(dest, i);
    }

    /** `ensure_dir(d)`, that is `d.mkdir(parents=True, exist_ok=True)`; `ok` is false when it raises. */
    method EnsureDir(d: Dir) returns (ok: bool)
      modifies this
      ensures ok == !BlockedByFile(old(entries), d)
      ensures entries == if ok then WithDirs(old(entries), d) else old(entries)
      ensures journals == old(journals)
    {
      var k := 0;
      while k < |d|
        invariant 0 <= k <= |d|
        invariant forall j :: 0 <= j < k ==> !(Ancestor(d, j) in entries && entries[Ancestor(d, j)].File?)
      {
        var p := Ancestor(d, k);
        if p in entries && entries[p].File? {
          return false;
        }
        k := k + 1;
      }
      ok := true;
      k := 0;
      ghost var e0 := entries;
      while k < |d|
        invariant 0 <= k <= |d|
        invariant entries == WithDirs(e0, d[..k])
        invariant journals == old(journals)
      {
        var p := Ancestor(d, k);
        assert d[..k + 1][..k] == d[..k];
        assert Ancestor(d[..k + 1], k) == p;
        if p !in entries {
          entries := entries[p := Directory(0, 0)];
        }
        k := k + 1;
      }
      assert d[..|d|] == d;
    }

    /** `shutil.move(src, dst)`, where `osFails` says whether the operating system refuses it. */
    method Move(src: Path, dst: Path, osFails: bool) returns (res: MoveResult)
      modifies this
      ensures (entries, res) == MoveSpec(old(entries), src, dst, osFails)
      ensures journals == old(journals)
    {
      if src !in entries {
        return MoveFailed(SourceMissing);
      }
      var target := dst;
      if dst in entries && entries[dst].Directory? {
        target := Path(dst.Components(), src.name);
        if target in entries {
          return MoveFailed(DestinationExists);
        }
      }
      if osFails {
        return MoveFailed(OsFailure);
      }
      entries := (entries - {src})[target := entries[src]];
      res := MovedTo(target);
    }

    /** `write_log_line(p, record)`. */
    method AppendRecord(p: Path, r: Record)
      modifies this
      ensures State() == AppendLine(old(State()), p, Encode(r))
    {
      if p !in entries {
        entries := entries[p := File(0, 0)];
      }
      var lines := if p in journals then journals[p] else [];
      journals := journals[p := lines + [Encode(r)]];
    }
  }
}
