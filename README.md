# downloads_sorter, modelled in Dafny

`downloads_sorter.py` tidies a downloads folder. Each top-level file goes to
a category folder (`Images`, `Documents`, ..., `Other`) chosen by its
lower-cased suffix, under a name that nothing holds yet. Every attempt is
journaled as one JSON line in `_DownloadsSorterLogs/move_log_<stamp>.jsonl`.
A later `--undo` of that journal moves the files back, newest first, and
never onto an existing entry.

This project models the five parts of that program over an abstract
filesystem: the classifier, the collision resolver, the planner, the executor
and the undo engine. The filesystem is a finite map from paths to entries,
plus the lines written to journal files. It proves what each part promises
and that sort followed by undo is a round trip.

Modules, one file each:

- `wrappers.dfy`: `Option`.
- `paths.dfy`: paths as a folder (a sequence of names) plus a name. It holds `str(path)` and `Path(text)` with their round trip, and `.suffix`, `.stem` and ASCII `lower()`.
- `classifier.dfy`: `EXT_MAP` in table order. It holds `category_for_file` as a function and as the loop the source runs, and proves that no extension has two owners.
- `resolver.dfy`: the `stem (i)suffix` naming scheme, its injectivity, and the least free candidate (`UniqueDestination`).
- `journal.dfy`: journal records, the JSON object written for each, and what the undo reads back from a line.
- `filesystem.dfy`: the class `FileSystem`. Its fields are the entries and the journal lines. Its methods are `iterdir`, `safe_unique_destination` (the `while True` loop), `ensure_dir`, `shutil.move` and `write_log_line`, each tied to a function on values.
- `sorter.dfy`: `run_sort`. It covers the layout folders, the planning loop, the execution loop and the early exits.
- `undo.dfy`: `run_undo`. It covers reading the journal, `moves.reverse()` and the undo loop.
- `roundtrip.dfy`: sort then undo restores the folder.

Inputs the program takes from its environment are parameters:

- The journal's time stamp is `stamp`.
- Symbolic-link resolution (`Path.resolve`) is a function `resolve` on folders.
- The answer at the confirmation prompt (or `--yes`) is `confirmed`.
- The moves the operating system refuses are a set `failing` of attempt indices.

## Model

| member | source | states |
|---|---|---|
| Classifier.CategoryForFile | downloads_sorter.py:30-35 | the loop over `EXT_MAP` returns the category of the first row holding the lower-cased suffix; its result is the specification `CategoryForName`, and it is not `Other` exactly when some row holds the suffix |
| Classifier.FirstMatch | downloads_sorter.py:32-34 | the row found holds the extension, and no earlier row does; -1 only when no row does |
| Classifier.TableRowsDisjoint | downloads_sorter.py:11-24 | no extension is in two rows of `EXT_MAP`, so first-match order never decides between two categories |
| Classifier.CategoryIsOwner | downloads_sorter.py:30-35 | a name falls in category c exactly when c's row holds its lower-cased suffix; it falls in `Other` exactly when no row does |
| Classifier.NoSuffixIsOther | downloads_sorter.py:31-35 | a name without a suffix (no dot, only a leading dot, or a trailing dot) is filed under `Other` |
| Classifier.ImageExample | downloads_sorter.py:12 | `photo.png` is an image |
| Classifier.UpperCaseExample | downloads_sorter.py:31 | `REPORT.PDF` is a document: the suffix is lower-cased first |
| Classifier.DoubleSuffixExample | downloads_sorter.py:31 | `holiday.photo.JPG` is an image: only the last suffix counts |
| Classifier.NumberedImageExample | downloads_sorter.py:31 | `photo (1).png` is an image: a number in brackets does not hide the suffix |
| Paths.TextRoundTrip | downloads_sorter.py:183-184 | `Path(str(p)) == p` for every absolute path the journal can hold |
| Paths.LastDot | downloads_sorter.py:31 | the index found is that of a dot with no dot after it, or -1 when there is no dot |
| Paths.StemSuffixSplit | downloads_sorter.py:52-53 | `stem + suffix` is the name; the suffix is empty or a dot and at least one more character with no further dot; a non-empty name has a non-empty stem |
| Paths.SuffixAt | downloads_sorter.py:31 | a name whose last dot is neither first nor last has the suffix from that dot on, and the stem before it |
| Resolver.Decimal | downloads_sorter.py:57 | the text of `i` is one or more decimal digits that denote `i` (`DigitsValue`), at least two from 10 on, with no leading zero |
| Resolver.DecimalInjective | downloads_sorter.py:57 | different numbers have different texts |
| Resolver.CandidateInjective | downloads_sorter.py:57 | candidates `stem (i)suffix` are pairwise different and never the desired path itself |
| Resolver.CandidateValid | downloads_sorter.py:57 | a candidate of a valid path is a valid path in the same folder |
| Resolver.CandidatesUpToSize | downloads_sorter.py:55-60 | the first i candidates are i different paths |
| Resolver.CandidatesTakenBound | downloads_sorter.py:55-60 | if the first i candidates all exist, the filesystem has at least i entries, so the loop ends on a finite filesystem |
| Resolver.FirstFreeFrom | downloads_sorter.py:55-60 | the search from i finds a free candidate with every candidate before it taken |
| Resolver.UniqueDestination | downloads_sorter.py:49-60 | the result is free and in the desired folder; it is the desired path when that is free, and otherwise the least free candidate |
| Resolver.UniqueDestinationValid | downloads_sorter.py:49-60 | the result is a valid path when the desired one is |
| Resolver.UniqueDestinationLocal | downloads_sorter.py:49-60 | only the desired path and its candidates decide the result (the function is stateless) |
| Resolver.FirstCandidateExample | downloads_sorter.py:57 | the first candidate for `photo.png` is `photo (1).png` |
| FileSystem.FileSystem.SafeUniqueDestination | downloads_sorter.py:49-60 | the `while True` loop returns `UniqueDestination` of the current entries and changes nothing |
| FileSystem.FileSystem.ListDir | downloads_sorter.py:81 | `iterdir` lists every entry directly in the folder, each once, and nothing else |
| FileSystem.FileSystem.EnsureDir | downloads_sorter.py:43-44 | `mkdir(parents=True, exist_ok=True)`, in the model, fails, creating nothing, only when a file is in the way; otherwise it creates the missing folders (`WithDirs`) |
| FileSystem.WithDirsAdds | downloads_sorter.py:43-44 | creating folders keeps every existing entry unchanged. It adds only folders on the way to the folder, and all of them are present afterwards |
| FileSystem.EnsureDirPresent | downloads_sorter.py:43-44 | when no file is in the way, every folder on the way to the requested one is a folder afterwards |
| FileSystem.WithDirsPresent | downloads_sorter.py:43-44 | when the folders are already there, `ensure_dir` changes nothing |
| FileSystem.FileSystem.Move | downloads_sorter.py:135 | `shutil.move` changes the entries as `MoveSpec` says: a missing source fails; a move onto a folder goes into it; otherwise the entry is renamed, replacing a file at the target |
| FileSystem.MoveSpecEffect | downloads_sorter.py:135 | a failed move changes nothing; a successful one takes the entry from the source to the target unchanged and touches nothing else; onto a free path it succeeds unless the system refuses |
| FileSystem.FileSystem.AppendRecord | downloads_sorter.py:62-64 | appending creates the journal file if missing and adds exactly the record's line |
| Journal.MoveLineRoundTrip | downloads_sorter.py:126-165 | the undo keeps a `move` line and reads back from it exactly the record's `dst` and `src` |
| Journal.ErrorLineSkipped | downloads_sorter.py:139-165 | the undo skips an `error` line |
| Journal.MovesOfAppend | downloads_sorter.py:161-167 | reading a journal line by line: the kept objects of two parts are those of each part, in order |
| Journal.MovesOfEncoded | downloads_sorter.py:161-167 | the objects kept from a run's journal are those of its `move` records, in order, one per completed move |
| Journal.MoveRecordsAll | downloads_sorter.py:161-167 | when every record is a `move` record, all of them are kept |
| Sorter.Plan | downloads_sorter.py:83-97 | the planning loop builds `PlanOf` of the listing |
| Sorter.PlanOfSound | downloads_sorter.py:87-97 | every planned move comes from the listing, is a regular file outside the log folder and the category folders, has the classifier's category, and goes to `safe_unique_destination(downloads/cat/name)` of the plan-time filesystem: a free path in that category's folder |
| Sorter.PlanOfComplete | downloads_sorter.py:87-97 | every sortable entry of the listing is planned |
| Sorter.PlanOfOrdered | downloads_sorter.py:87-97 | the plan follows the listing order, so no source is planned twice |
| Sorter.SourcesOfPlan | downloads_sorter.py:87-97 | the planned moves start at exactly the sortable entries of the listing, in listing order |
| Sorter.IdentityResolutionSortsTopLevelFiles | downloads_sorter.py:84-93 | without symbolic links, the planner takes every regular top-level file except one named like the log folder |
| Sorter.PlanOfPair | downloads_sorter.py:87-97 | two sortable entries are planned as their two moves, in order |
| Sorter.PlannedDestinationsCanCoincide | downloads_sorter.py:96 | with `Images/photo.png` present, `photo (1).png` and `photo.png` are both planned to `Images/photo (1).png` |
| Sorter.ExampleFiledTaken | downloads_sorter.py:49-60 | with `Images/photo.png` taken, `safe_unique_destination` gives `Images/photo (1).png` |
| Sorter.MoveOntoFileReplaces | downloads_sorter.py:135-137 | a move onto an existing file replaces it and is journaled as an ordinary `move` |
| Sorter.ExecStepRecord | downloads_sorter.py:124-146 | each attempt writes one record for its source and destination. It is a `move` record exactly when the source was there and the move went through, and it then carries the category and the size and mtime of the source just before. Otherwise, including a refusal, it is an `error` record |
| Sorter.ExecStepJournal | downloads_sorter.py:136-145 | the attempt's record is appended to the journal, and to no other file |
| Sorter.ExecutedPrefix | downloads_sorter.py:123-146 | later attempts do not change the records of earlier ones |
| Sorter.ExecutedExtends | downloads_sorter.py:123-146 | each attempt keeps the records before it and adds one |
| Sorter.RecordAt | downloads_sorter.py:123-146 | the record of attempt i is the one its step makes in the state the earlier attempts left |
| Sorter.ExecAllRecords | downloads_sorter.py:123-146 | one record per planned action, in plan order, whatever happened before: refused attempts give `error` records, `move` records carry the category and the pre-move size and mtime |
| Sorter.ExecutedJournal | downloads_sorter.py:123-146 | the journal gains exactly the records' lines, in order |
| Sorter.ExecutedOtherJournals | downloads_sorter.py:136-145 | no other journal changes |
| Sorter.MovedCountBound | downloads_sorter.py:122-137 | `moved_count` plus the refused attempts is at most the number of actions |
| Sorter.Execute | downloads_sorter.py:122-146 | the execution loop leaves the filesystem `ExecAll` describes and returns the number of `move` records as `moved_count` |
| Sorter.EnsureLayout | downloads_sorter.py:74-79 | the log folder, then every category folder, is ensured in turn; the run stops at the first that fails |
| Sorter.EnsureAllEffect | downloads_sorter.py:74-79 | ensuring folders in turn keeps every existing entry, adds only folders on the way to the requested ones, and, when no `mkdir` raised, leaves every one of those folders present |
| Sorter.LayoutEffect | downloads_sorter.py:74-79 | after a successful layout step the log folder, every category folder and every folder above the downloads folder exist as folders, and no earlier entry changed |
| Sorter.RunSort | downloads_sorter.py:73-152 | `run_sort` ensures the layout, lists and plans, then takes the exits: an empty plan, a dry run or a declined prompt leave the layout as the only change; otherwise it executes the plan; it always returns `move_log_<stamp>.jsonl` in the log folder |
| Undo.Reversed | downloads_sorter.py:169 | `moves.reverse()` keeps the length |
| Undo.ReversedAt | downloads_sorter.py:169 | after `moves.reverse()` the newest record comes first |
| Undo.ReversedTwice | downloads_sorter.py:169 | reversing twice gives the list back |
| Undo.UndoStepOutcome | downloads_sorter.py:182-187 | for a record holding both paths: if its `dst` is gone, the record is skipped and nothing changes; otherwise the undo stops exactly when `ensure_dir` meets a file or the system refuses the move |
| Undo.UndoStepNeverOverwrites | downloads_sorter.py:182-187 | no entry other than the moved file is removed or changed. The only new entries are folders on the way to `src` and the moved file. The file lands on a path of `src`'s folder that was free, and on `src` itself when `src` was free |
| Undo.UndoneStaysStopped | downloads_sorter.py:182-187 | after an exception ends the loop, later records change nothing |
| Undo.NoMovesNoChange | downloads_sorter.py:161-187 | a journal without `move` lines changes nothing |
| Undo.CollectMoves | downloads_sorter.py:159-167 | the reading loop keeps the `move` objects of the journal, in journal order |
| Undo.RunUndo | downloads_sorter.py:154-187 | `run_undo` exits without change on a missing journal, on a journal path that is a folder (in the model the only cause of `open` raising), on a dry run or a declined prompt. Otherwise it undoes the reversed `move` objects as `UndoAll` says, and reports whether an exception stopped it. No journal changes |
| RoundTrip.RenameBack | downloads_sorter.py:135 | renaming to a free path and back gives the entries back |
| RoundTrip.AfterMovesFacts | downloads_sorter.py:123-137 | after k collision-free moves, later sources are in place with their destinations free; earlier files sit at their destinations unchanged; folders and the journal are untouched |
| RoundTrip.CleanStep | downloads_sorter.py:124-137 | an attempt whose source is there and whose destination is free renames it and writes a `move` record |
| RoundTrip.ExecutedCleanly | downloads_sorter.py:123-137 | a collision-free plan with no refusals is carried out as plain renames, all records being `move` records |
| RoundTrip.CleanStepAfterMoves | downloads_sorter.py:124-137 | in a collision-free run without refusals, attempt k performs move k on the entries the earlier moves left |
| RoundTrip.UndoOneMove | downloads_sorter.py:182-187 | undoing the record of action k takes the entries after k moves back to those after k-1 |
| RoundTrip.UndoStepsBack | downloads_sorter.py:182-187 | each record of a clean run, read newest first, undoes exactly the move it records |
| RoundTrip.UndoneRestores | downloads_sorter.py:169-187 | undoing the records newest first walks the moves back one by one, and the undo never stops |
| RoundTrip.UndoPathsOfMoveRecords | downloads_sorter.py:160-165 | the undo reads one object per `move` record back, with the record's paths |
| RoundTrip.ReadBack | downloads_sorter.py:160-169 | the journal of a clean run reads back as the actions' paths, newest first |
| RoundTrip.JournalOfCleanRun | downloads_sorter.py:123-169 | after a clean run the undo sees one object per action, newest first, naming where the file went and where it came from |
| RoundTrip.SortThenUndo | downloads_sorter.py:123-187 | with no failed or colliding move, every file sits at its planned destination after the sort, and the undo restores every entry as it was before the sort, leaving only the journal file |
| RoundTrip.PlanCollisionFree | downloads_sorter.py:87-97 | the planner's moves are collision free once their destinations are pairwise distinct |
| RoundTrip.PlannedMovesCollisionFree | downloads_sorter.py:87-97 | moves from distinct listed files to free paths in category folders, with distinct destinations, are collision free |
| RoundTrip.ActionPathsApart | downloads_sorter.py:74-96 | a planned move neither starts nor ends at the journal, since its folder is a category folder and never the log folder |
| RoundTrip.LayoutPreparesRoundTrip | downloads_sorter.py:74-79 | the layout step adds only valid paths and, when it succeeds, leaves every folder above the downloads folder present as a folder, which is what `PlannedSortThenUndo` asks of its starting entries |
| RoundTrip.PlannedSortThenUndo | downloads_sorter.py:81-187 | for the plan `run_sort` makes, with pairwise distinct destinations, sort then undo gives back the folder as the layout step left it, plus the journal |

Planned destinations need not be distinct. Each is resolved against the
filesystem as it was at planning time (downloads_sorter.py:96), not against
the destinations planned before it. The model follows the code:

- `Sorter.PlannedDestinationsCanCoincide` gives a folder where two planned moves share a destination.
- `Sorter.MoveOntoFileReplaces` shows that the second of them replaces the first file, and the journal records it as an ordinary move.
- The round-trip theorem therefore assumes distinct destinations (`RoundTrip.PlanCollisionFree`).

## Left out

- `main`, argparse and `default_downloads_dir` (downloads_sorter.py:37-41, 192-212) are command-line glue. The prompts and all `print` output are left out too; the prompt's answer is the parameter `confirmed`.
- The JSON text encoding (`json.dumps`/`json.loads`) is a foreign library. A line is modelled by what `json.loads` returns for it: an object, another JSON value, or text that does not parse.
- The "timestamp" field of records is not modelled. The journal's name takes `now_stamp()` as the parameter `stamp`.
- `Path.resolve` is the parameter `resolve`, a function on folders. Symbolic links are not modelled beyond it.
- `str.lower` is modelled on ASCII letters only; Unicode case mapping is left out.
- Paths are absolute and normalised. A journal path that is relative, or that names the root, makes the model's undo stop. The real program would resolve it against the working directory.
- `CATEGORY_FOLDERS` is a Python set, iterated in an order the interpreter picks. The model ensures the category folders in table order, with `Other` last. Only the point at which a blocked `mkdir` ends the run depends on this order.
- Operating-system errors of the moves themselves (permissions, devices, moves across file systems) are the parameter `failing`. It lists the move attempts the system refuses, in the executor and in the undo alike.
- FileSystem.FileSystem.EnsureDir and Undo.RunUndo: operating-system errors raised by `mkdir` and `open` themselves (no write permission, a read-only volume) are not modelled; `failing` covers only the moves. So the model cannot show `run_sort` stopping at downloads_sorter.py:75 or :79 on a folder it may not write, `run_undo` raising at :186 before anything is created, or `run_undo` raising at :160 on a journal it may not read.
- Failures of `write_log_line` itself are left out: appends always succeed. A journal path that is a folder keeps the folder entry, and the line is still recorded.
- A moved folder's contents are not re-rooted. The sorter only moves regular files, and the undo moves what the journal names.
- The contents of files other than journals are not modelled. Created folders and a new journal file get size and mtime 0.
- `error` records carry the kind of exception, not the text of `repr(e)`.
- Path matching is exact and case-sensitive. On a case-insensitive filesystem (the usual Windows and macOS setup) `exists()` ignores case, so `Photo.PNG` with `Images/photo.png` present goes to `Images/Photo (1).PNG` there, while the model gives `Images/Photo.PNG`.
- `.suffix` and `.stem` follow `pathlib` up to Python 3.13, where a trailing dot is part of the stem. From Python 3.14 `notes.` has suffix `.`, so its candidates become `notes (1).`; the model gives `notes. (1)`.
- The `mtime` of an entry is already a whole number of seconds. The truncation `int(stat.st_mtime)` applies to a float the model does not have.
- `shutil.move` into a folder that is missing, or that is a file, raises; `MoveSpec` lets such a move succeed. The executor only moves into category folders, which the layout step has created (`RoundTrip.LayoutPreparesRoundTrip`), and a refused move is still modelled through `failing`.
- When a journal file is itself moved, its lines stay recorded under its old path. In the proved round trips no move starts or ends at the journal (`RoundTrip.ActionPathsApart`).
