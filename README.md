# rclone_backups: the resumable copy engine, in Dafny

rclone_backups copies a list of directories to or from an rclone remote,
one directory per `rclone copy` call, and keeps a tracker file so that an
interrupted run can carry on where it stopped. The project models the
engine that does this, in two variants.

- **The current variant** has three parts:
  - the `BaseTracker` class (`base_tracker.py`);
  - its backup subclass (`backup_tracker.py`), which walks local directories;
  - its restore subclass (`restore_tracker.py`), which lists remote directories.
- **The earlier runner** is the self-contained tracker in `backup.py`.

## What the model covers

- **Work items.** Each top-level source is expanded into work items. For a
  backup, these are the directories `os.walk(topdown=False)` reports below
  the source, then the source itself. For a restore, they are the
  directories `rclone lsjson --recursive` reports, plus the source, sorted
  deepest first. The items are stored under the keys `str(0)`, `str(1)`, …
  with a cursor at 0.
- **The resume loop.** From the cursor on, it builds each item's command,
  records the outcome in the item's row and advances the cursor. It stops
  when no row is left or when the interrupt flag is set.
- **End of run.** The tracker file is archived when nothing is left and
  nothing failed. Otherwise the failures are reported.
- **Decoding.** The tool's output is decoded UTF-8 first, then ASCII, then
  hexadecimal.

## Modules

- **State-changing code are classes:**
  - `BaseTracker.Tracker` and `Backup.Tracker` have fields, `modifies`
    clauses and loops.
  - Each loop is proved against a function of the old state: `ResumeRun`
    and `BackupRun`.
  - The facts about those runs are lemmas.
- **The enumeration loops are methods:**
  - `Walk.AppendWalk` is proved against `Walk.Expand`, the segment of one source.
  - `BackupTracker.PopulateSources`, `RestoreTracker.PopulateSources`,
    `Backup.Tracker.PopulateSourcesFromDisk` and the base class's
    `PopulateSources` are proved against `Segments.ExpandAll`.
- **Shared modules:**
  - `Keys`: `str(i)` and its inverse.
  - `Paths`: `posixpath.join` and `basename`.
  - `DepthSort`: the stable sort by separator count.
  - `Rclone`: the external tool.
  - `Sequences` and `Wrappers`: generic helpers.

## Inputs instead of the outside world

- **The external tool (`Rclone.Env`):**
  - The outcome of every copy, the interrupt flag as each loop check sees
    it, and the `utcnow()` stamps form an `Rclone.Env`.
  - `Env` is indexed by the cursor value at which the loop consults it.
  - The listing command is a `Lister` function.
- **The file system:**
  - It is a `FileSystem` from paths to directory trees.
  - A local source that does not exist, or a file, walks to no sub-directories, just as `os.walk` yields nothing for it.
- **The codecs** are the uninterpreted `Decoder`.
- **Other inputs:**
  - The host name is a parameter.
  - So are the time stamp of the archive name and whether creating the store fails.
  - So is the tracker file found on disk (an `Option`).

## Model

| member | source | states |
|---|---|---|
| Keys.KeyOf | base_tracker.py:144 | `str(n)` is a non-empty string of decimal digits with no leading zero |
| Keys.ParseKeyOf | base_tracker.py:144 | the key of an id reads back as that id |
| Keys.KeyOfInjective | base_tracker.py:127-130 | distinct ids get distinct keys, so no two items share a row |
| Keys.ParseKey | base_tracker.py:144 | definition: the number a decimal key denotes; its properties are `ParseKeyOf` |
| Keys.Pending | base_tracker.py:144 | definition: the keys at or past the cursor, a subset of the keys; its properties are `PendingShrinks` |
| Keys.PendingShrinks | base_tracker.py:177-178 | moving the cursor past a present key strictly shrinks the set of keys ahead, so the loops end |
| Paths.Join | base_tracker.py:81 | definition of `os.path.join`; its properties are `AsDirJoin` and `BasenameOfChild` |
| Paths.AsDirJoin | backup_tracker.py:26 | joining a directory and an entry name gives the directory with its trailing separator (none added to `""` or to a directory already ending in `/`), then the name; the result has no trailing separator |
| Paths.AsDir | base_tracker.py:69-73 | the normalised destination extends the stored one by at most one character and ends in `/` unless empty |
| Paths.Basename | base_tracker.py:81 | `os.path.basename` is the separator-free tail of the path, preceded by a separator when shorter |
| Paths.BasenameOfChild | base_tracker.py:81 | the base name of a directory path followed by a name is that name |
| Segments.ExpandAll | base_tracker.py:135-139 | definition: the sources' expansions extended in order, or the first raised error; its properties are `ExpandAllSpec`, `ExpandAllFailurePersists` and `ExpandAllSegment` |
| Segments.Concat | base_tracker.py:138 | definition: segments one after another; used by `ExpandAllSpec` |
| Segments.ExpandAllSpec | base_tracker.py:135-139 | enumeration succeeds iff every source expands; it then yields the expansions concatenated in source order; otherwise it raises the first failing source's error |
| Segments.ExpandAllFailurePersists | restore_tracker.py:23-27 | once a prefix of the sources raises, the whole enumeration raises the same error |
| Segments.ExpandAllSegment | base_tracker.py:135-139 | source j's items sit, unchanged, right after the items of the sources before it |
| Walk.Names | backup_tracker.py:24 | the `dirs` of a walk triple are the entries' names, in order |
| Walk.Joined | backup_tracker.py:25-26 | each appended path is `join(root, d)` for the matching `d` |
| Walk.OsWalk | backup_tracker.py:24 | definition of the bottom-up walk: the walks of the sub-directories in order, then the directory's own triple; directory links are listed but not entered; its properties are `ExpandCount` and `ExpandOrder` |
| Walk.WalkBelow | backup_tracker.py:24 | definition: the walks of a directory's entries from a position on; part of `OsWalk` |
| Walk.DirPaths | backup_tracker.py:24-26 | definition: what the two inner loops append for a whole walk; its properties are `DirPathsAppend` |
| Walk.Expand | backup_tracker.py:24-27 | definition: the segment of one source; its properties are `ExpandCount` and `ExpandOrder` |
| Walk.AppendJoined | backup_tracker.py:25-26 | the inner loop appends exactly `join(root, d)` for each `d`, in order |
| Walk.AppendWalk | backup_tracker.py:24-27 | the nested loops append exactly the walk's joined directory paths and then the source |
| Walk.DirPathsAppend | backup_tracker.py:24-26 | the paths of a walk split at any step are the paths of the two parts, in order |
| Walk.ExpandCount | backup_tracker.py:24-27 | a source contributes one item per directory or directory link below it, plus itself |
| Walk.ExpandOrder | backup_tracker.py:24-27 | the source is the last item of its segment; every earlier item lies below it; no directory precedes one below it, so children are copied before parents |
| DepthSort.Slashes | restore_tracker.py:47 | definition of `count("/")`; its properties are `SlashesAppend` |
| DepthSort.SortByDepth | restore_tracker.py:47 | definition of the stable reverse sort by depth, as an insertion sort; its properties are `SortByDepthSpec` and `SortKeepsShallowestLast` |
| DepthSort.SortByDepthSpec | restore_tracker.py:47 | the sort is a permutation, puts deeper paths first, and keeps paths of equal depth in their original order |
| DepthSort.SortKeepsShallowestLast | restore_tracker.py:47 | a path no deeper than any other that comes last stays last |
| DepthSort.SlashesAppend | restore_tracker.py:47 | `count("/")` of a concatenation is the sum of the counts |
| BaseTracker.Hex | base_tracker.py:58 | definition of `bytes.hex()`; its properties are `HexShape` and `HexRoundTrip` |
| BaseTracker.HexShape | base_tracker.py:58 | `bytes.hex()` gives two lower-case hex digits per byte |
| BaseTracker.HexRoundTrip | base_tracker.py:58 | the hex fallback loses nothing: the bytes read back from it |
| BaseTracker.Encodings | base_tracker.py:52 | definition of the list `["utf-8", "ascii"]`, in that order; its properties are `BytesToStr` |
| BaseTracker.Truthy | base_tracker.py:55 | definition of the truthiness of `decoded`: neither `None` nor `""`; its properties are `FirstDecoding` and `BytesToStr` |
| BaseTracker.FirstDecoding | base_tracker.py:52-58 | the loop returns the first non-empty decoding, having rejected every earlier encoding; or none when every encoding gives `None` or `""` |
| BaseTracker.BytesToStr | base_tracker.py:48-67 | text passes through; bytes give their UTF-8 decoding if non-empty, else their ASCII decoding if non-empty, else hex; only empty bytes give `""` |
| BaseTracker.UndecodableIsHex | base_tracker.py:57-58 | when neither encoding yields text, the bytes can be recovered from the stored string |
| BaseTracker.DestinationIdempotent | base_tracker.py:69-73 | reading `destination` again changes nothing more |
| BaseTracker.VerbosityFlag | base_tracker.py:152-153 | definition of the `-v…v` argument; its properties are `Command` |
| BaseTracker.Command | base_tracker.py:146-153 | the command has 4 arguments, or 5 when verbosity is non-zero; the paths are the prefixes followed by the item's path; the extra argument is `-` followed by `verbosity` letters `v` |
| BaseTracker.CommandLine | base_tracker.py:162 | the quoted command line is empty iff there are no arguments; otherwise it starts and ends with a quote |
| BaseTracker.Quote | base_tracker.py:162 | definition of `"'" + arg + "'"`; its properties are `CommandLineSnoc` and `CommandLineAppend` |
| BaseTracker.CommandLineSnoc | base_tracker.py:162 | one more argument adds a single space and that argument in quotes |
| BaseTracker.CommandLineAppend | base_tracker.py:162 | a lone argument is quoted; the command line of two non-empty lists is theirs joined by one space, so the result is every argument quoted and joined by single spaces |
| BaseTracker.NewSource | base_tracker.py:127-130 | definition of a row that holds only its path, as the fresh store inserts it; its properties are `FreshState` |
| BaseTracker.FreshState | base_tracker.py:122-130 | a fresh store has cursor 0, no failure count, and exactly the rows `str(i)`, each holding the i-th path |
| BaseTracker.Completed | base_tracker.py:155-175 | definition of how the cursor's row changes once its copy returns; its properties are `CompletedFields` |
| BaseTracker.Recorder | base_tracker.py:155-175 | definition: the row update `resume` performs for a configuration, `Completed` |
| BaseTracker.CompletedFields | base_tracker.py:158-175 | see the paragraph below the table |
| BaseTracker.Step | base_tracker.py:155-179 | see the paragraph below the table |
| BaseTracker.FailureCount | base_tracker.py:175 | definition of `_tracker.get("failure_count", 0)`; its properties are `Step`, `ResumeFailureCount` and `ArchiveIff` |
| BaseTracker.ResumeRun | base_tracker.py:141-179 | definition of the loop on values; its properties are `ResumeCursor`, `ResumeChecks`, `ResumeStop`, `ResumeFailureCount`, `ResumeVisited`, `ResumeUntouched`, `ResumeFrame`, `ResumeAfterExhausted` and `ArchiveIff` |
| BaseTracker.ResumeCursor | base_tracker.py:144-179 | at loop exit the cursor is its start plus the number of copies; one save follows each copy with the cursor already advanced; the last save is the final store; no row is added or removed |
| BaseTracker.ResumeChecks | base_tracker.py:144 | every copied item was present and the interrupt flag was clear before it |
| BaseTracker.ResumeStop | base_tracker.py:144 | the loop ends with no row left iff the row at the final cursor is missing; an interrupted loop saw the flag at the final cursor |
| BaseTracker.ResumeFailureCount | base_tracker.py:175 | the failure count grows by exactly the number of failed copies |
| BaseTracker.ResumeVisited | base_tracker.py:155-179 | each visited row is its old row updated with its own outcome and stamp |
| BaseTracker.ResumeUntouched | base_tracker.py:144-179 | a row kept under a key the loop never looked up (`str(id)` for no copied id) is unchanged; that includes rows the loop did not reach and any non-canonical key such as `"01"` in a loaded store |
| BaseTracker.ResumeFrame | base_tracker.py:141-179 | the two preceding facts, for all rows at once |
| BaseTracker.ResumeAfterExhausted | base_tracker.py:144 | a run started from an exhausted run's store copies nothing and changes nothing |
| BaseTracker.Failed | base_tracker.py:185 | definition: the rows whose `failure` is set; its properties are in `ArchiveIff` |
| BaseTracker.Finish | base_tracker.py:180-189 | definition of the `else` clause; its properties are `ArchiveIff` |
| BaseTracker.ArchiveIff | base_tracker.py:180-189 | see the paragraph below the table |
| BaseTracker.ResumeFailures | base_tracker.py:159-174 | a visited row has `failure` set iff its copy failed or it had one before; the code never clears it. It has `done` set iff its copy succeeded or it had one before |
| BaseTracker.ArchivePath | base_tracker.py:81 | definition of the archive name; its properties are `ArchiveInLogdir` |
| BaseTracker.ArchiveInLogdir | base_tracker.py:79-82 | the archived file is a direct child of the log directory, named `<stamp>-<basename of the tracker file>` |
| BaseTracker.StampedName | base_tracker.py:81 | stamp, `-` and base name form one entry name |
| BaseTracker.Tracker.constructor | base_tracker.py:15-22 | the settings are stored and the store is empty |
| BaseTracker.Tracker.Destination | base_tracker.py:69-73 | the getter appends the missing `/` to the stored value itself and returns it; an empty destination is left as it is |
| BaseTracker.Tracker.PopulateSources | base_tracker.py:135-139 | the loop's result is the enumeration `ExpandAll`, the first raised error included |
| BaseTracker.Tracker.MakeFreshTracker | base_tracker.py:96-133 | an enumeration error or a store-creation error is returned and leaves the store as it was; otherwise the store is the fresh store of the enumerated paths |
| BaseTracker.Tracker.InitTracker | base_tracker.py:85-94 | an existing store is used as it is; otherwise the results are those of `MakeFreshTracker` |
| BaseTracker.Tracker.CopyNext | base_tracker.py:145-179 | one iteration changes the store exactly as `Step` does with the recorder for this configuration, and saves once |
| BaseTracker.Tracker.Resume | base_tracker.py:141-189 | see the paragraph below the table |
| BackupTracker.SourcePrefix | backup_tracker.py:13-15 | definition of `source_prefix`, `""`; its properties are `BackupCommand` |
| BackupTracker.DestPrefix | backup_tracker.py:9-11 | definition of `dest_prefix`; its properties are `BackupCommand` |
| BackupTracker.BackupCommand | backup_tracker.py:9-15 | a local path is copied from itself to `<remote>:<bucket>/<host>` followed by the path |
| BackupTracker.Local | backup_tracker.py:23-27 | definition: the per-source local expansion, which never raises |
| BackupTracker.PopulateSources | backup_tracker.py:21-28 | the loops compute the enumeration of the local expansion, which never raises |
| BackupTracker.PopulateCount | backup_tracker.py:21-28 | the enumeration has one item per directory below a top-level source, plus one per top-level source |
| BackupTracker.PopulateLayout | backup_tracker.py:21-28 | each source's segment sits in order and ends with the source; in a well-formed tree, the rest of the segment lies below the source and children precede their parents |
| RestoreTracker.SourcePrefix | restore_tracker.py:15-17 | definition of `source_prefix`, `<remote>:`; its properties are `RestoreCommand` |
| RestoreTracker.DestPrefix | restore_tracker.py:11-13 | definition of `dest_prefix`, `""`; its properties are `RestoreCommand` |
| RestoreTracker.RestoreCommand | restore_tracker.py:11-17 | a remote path is copied from `<remote>:<path>` to the local path itself |
| RestoreTracker.NormalizeSource | restore_tracker.py:30-31 | the source gains a trailing `/` only when it lacks one |
| RestoreTracker.NormalizeIdempotent | restore_tracker.py:30-31 | normalising twice is normalising once |
| RestoreTracker.ListingCommand | restore_tracker.py:32-37 | definition: the `rclone lsjson --recursive <remote>:<source>` argument list |
| RestoreTracker.DirEntryPaths | restore_tracker.py:42 | definition of the comprehension; its properties are `DirEntryPathsSpec` |
| RestoreTracker.DirEntryPathsSpec | restore_tracker.py:42 | the kept paths are exactly the source followed by each directory entry's `Path`, one per directory entry |
| RestoreTracker.DeeperThanSource | restore_tracker.py:42-46 | every listed path starts with the source and has at least its separator count |
| RestoreTracker.SubdirsFor | restore_tracker.py:29-57 | definition of `get_subdirs_for_source` on values; its properties are `SubdirsOutcome`, `SortedListing`, `SortedListingEnds` and `PopulateLayout` |
| RestoreTracker.SubdirsOutcome | restore_tracker.py:38-57 | a failing listing raises its error; a successful one yields the kept paths followed by the source, sorted, both branches of the `if` agreeing |
| RestoreTracker.SortedListing | restore_tracker.py:42-48 | the result holds exactly the kept paths and the source, one more item than there are directory entries, deepest first and stable |
| RestoreTracker.SortedListingEnds | restore_tracker.py:43-48 | the result is never empty; every item starts with the source; the source comes last |
| RestoreTracker.GetSubdirsForSource | restore_tracker.py:29-57 | the statements compute `SubdirsFor` |
| RestoreTracker.Remote | restore_tracker.py:26 | definition: the per-source remote expansion, `SubdirsFor` |
| RestoreTracker.PopulateSources | restore_tracker.py:23-27 | the loop computes the enumeration of the remote listings, stopping at the first listing that raises |
| RestoreTracker.PopulateLayout | restore_tracker.py:23-27 | when every listing succeeds, each source's items sit in order and end with the normalised source |
| Backup.FreshStore | backup.py:88-94 | a fresh store has cursor 0 and exactly the rows `str(i)`, each holding the i-th path and no stamp |
| Backup.BackupCommand | backup.py:108-113 | definition of the copy command; its properties are `SameCommandAsCurrent` |
| Backup.SameCommandAsCurrent | backup.py:108-113 | the earlier command is the current backup tracker's at verbosity 0, to `<remote>:<bucket>/<host>` followed by the path |
| Backup.Advance | backup.py:117-119 | a successful copy moves the cursor by one and stamps only the row at the cursor |
| Backup.BackupRun | backup.py:104-129 | definition of the loop on values; its properties are `BackupProgress`, `BackupChecks`, `BackupStop`, `BackupVisited`, `BackupUntouched` and `RetriesFailedItem` |
| Backup.BackupProgress | backup.py:104-120 | at loop exit the cursor is its start plus the number of successful copies; one save follows each with the cursor advanced; the last save is the final store; the keys never change |
| Backup.BackupChecks | backup.py:107-120 | every copied item had the flag clear, was present, and its copy succeeded |
| Backup.BackupStop | backup.py:107-129 | the loop stops at the first id where the flag is set, or there is no row, or the copy fails, checked in that order, each as an iff |
| Backup.BackupVisited | backup.py:116-119 | a copied row is its old row with `done` stamped |
| Backup.BackupUntouched | backup.py:104-129 | a row kept under a key the run never copied (`str(id)` for no copied id) is unchanged, the failed item's included, and any non-canonical key of a loaded store |
| Backup.RetriesFailedItem | backup.py:121-129 | after a failed copy the cursor rests on that item and its row is unchanged, so a run started from this store retries it first (as written the file is then moved; see Findings) |
| Backup.StartStore | backup.py:38-44 | definition: the loaded store, or a fresh one when no file exists |
| Backup.InvokeAsWritten | backup.py:38-44 | definition of one start with the move at backup.py:131 as written; its properties are `AsWrittenLosesProgress` |
| Backup.Invoke | backup.py:38-44 | definition of one start with the move made only after an exhausted run; its properties are `ResumesWhereStopped` |
| Backup.AsWrittenLosesProgress | backup.py:38-44 | the file moved after an interrupted run makes the next start begin again at item 0 (see Findings) |
| Backup.ResumesWhereStopped | backup.py:130-131 | see the paragraph below the table |
| Backup.Tracker.constructor | backup.py:28-46 | an existing file is loaded; otherwise the enumeration is made, keyed into a fresh store, and saved once |
| Backup.Tracker.PopulateSourcesFromDisk | backup.py:81-86 | the loops append exactly the local enumeration to the list |
| Backup.Tracker.MakeFreshTracker | backup.py:88-94 | the store is the fresh store of the enumerated items |
| Backup.Tracker.ResumeBackups | backup.py:104-131 | the new store and the saves are those of `BackupRun` from the old store; the file is always moved to `<logdir>/<stamp>-<basename>` |

The longer entries of the table:

- **BaseTracker.CompletedFields.**
  - A success stamps `done` and keeps `failure`.
  - At verbosity 2 or more, a success also records the args, the quoted command line, return code 0 and both decoded streams. Below that it changes nothing else.
  - A failure stores the decoded stderr in `failure` and changes nothing else.
- **BaseTracker.Step.**
  - One iteration changes only the cursor's row, with the recorder's update.
  - It advances the cursor whatever the outcome.
  - A failure adds one to the count, taking an absent count as 0.
- **BaseTracker.ArchiveIff.**
  - The file is archived iff both hold:
    - the loop ran out of rows;
    - the failure count before the run plus the failed copies is 0.
  - An interrupted run never archives.
  - A report carries the failure count and exactly the rows with `failure` set.
- **BaseTracker.Tracker.Resume.**
  - The new store is that of `ResumeRun` from the old store, and so are the saves.
  - The end-of-run decision is `Finish` of the final store.
  - It returns the archive path exactly when the decision is to archive.
- **Backup.ResumesWhereStopped.**
  - With the correction, an interrupted or failed run leaves the file in place.
  - The next start resumes from the final store, whose cursor has moved by the copies made.
  - Only a run that ran out of items archives the file.

## Left out

- **Not part of this model:**
  - Running `rclone`, `subprocess` itself, JSON and sqlite reading and writing, and logging. Outcomes, listings and the loaded store are inputs.
  - `_save_to_disk`. It is the ghost `saved` sequence of stores, one entry per save.
  - `_load_from_disk`. It is the `existing` parameter.
  - The SIGINT handler and its class-level flag. The flag as each loop check reads it is an input.
  - `sys.exit(1)` after an interrupted start (base_tracker.py:26-27, backup.py:45-46).
  - `os.makedirs` of the log directory.
  - `main` and argument parsing, and `json2sqlite.py`.
- **Clock and host name.** `datetime.utcnow()` and `socket.gethostname()` are parameters.
- **Codecs.** The UTF-8 and ASCII codecs with `errors="backslashreplace"` are the uninterpreted `Decoder`.
- **Listing output.** The parsing of `lsjson` output is left out. The listing is a sequence of `ListEntry` values. A listing whose JSON does not parse, or whose entries lack `Path`/`IsDir`, is not modelled.
- **Text-mode decoding.** In `backup.py:116` and `restore_tracker.py:39`, undecodable output raises `UnicodeDecodeError`. That case is not modelled.
- **The `_tracker` object.** It is modelled as the dictionary the loop indexes. The code as written does two things the model does not follow:
  - it assigns an sqlite connection (base_tracker.py:94-99) but indexes it like a dictionary (base_tracker.py:142-143, 175);
  - its `sources` table has no `failure` column.
- **Enumeration wiring.** `_populate_sources` calls `populate_source(source)`, but the subclasses define `populate_sources()` over `self.top_level_sources`. That attribute, and `self.bucket_name`, are not set by `BaseTracker`. The model pairs the base enumeration with each subclass's per-source expansion, which is `Local` (backup) or `Remote` (restore).
- **The `_tracker = None` state.** The state before `_init_tracker` is the empty store of `BaseTracker.Tracker.constructor`. `_init_tracker` is the separate `InitTracker` method.
- **The sqlite error.** `_make_fresh_tracker`'s `sqlite3.Error` → `RuntimeError` is the `createFails` input, returned as `StoreCreationFailed`. The model leaves the store as it was on that error. It does not capture that `sqlite3.connect` (base_tracker.py:99) has already created the file, so the next start takes the existing-file branch (base_tracker.py:86-88).
- **The failure report.** It is the map of failed rows, not the JSON list.
- **Rows as values.** `source[...] = ...` on a row also changes the store, because the row is shared with it. The model updates the store's map instead.
- **The restore sort.** `list.sort` on the fresh local list is modelled on values (`SubdirsFor` and `GetSubdirsForSource`).
- **Empty restore sources.**
  - `RestoreTracker.NormalizeSource`, `SubdirsFor`, `SubdirsOutcome`, `GetSubdirsForSource` and `PopulateSources` require non-empty sources.
  - The code reads `source[-1]` and raises `IndexError` on an empty one; that error is not modelled.
- **RestoreTracker.PopulateSources.**
  - Because of that precondition, restore expansion is a partial function.
  - It is not fed to `BaseTracker.Tracker.MakeFreshTracker`, whose `Expander` is total.
  - The backup expansion is total.
- **Features the code does not have.**
  - The model has none of them either: a retry mode, rate-limit backoff, a corrupt-store error, and clearing `failure` on a later success.
  - In the code, `failure` is never cleared (see `BaseTracker.ResumeFailures`).
- **Destination prefixes.**
  - The restore destination prefix is `""` (restore_tracker.py:11-13).
  - The backup destination prefix is `<remote>:<bucket>/<host>` (backup_tracker.py:9-11). It ignores the `destination` setting.
- **Environment indexing.** The environment's outcome, flag and clock are indexed by cursor value. A run consults each cursor value once, so this loses nothing for one run. Two runs over the same store get separate environments.

## Findings

| source | as written | input that shows it | evidently intended | confidence | as-written member | corrected member |
|---|---|---|---|---|---|---|
| backup.py:131 | after the loop, the tracker file is moved to the log directory whatever ended it, an interrupt or a failed copy included; the next start then finds no file (backup.py:38-44) and enumerates afresh from item 0 | two items, the first copy succeeds, the interrupt flag is set before the second: the run stops with cursor 1 and item 1 pending, yet the next start's store has cursor 0 | move the file only once no item is left, as `base_tracker.py:180-183` does, so that a run resumes after interruption (the `--tracker` help text, backup.py:137) | medium, not executed | Backup.AsWrittenLosesProgress | Backup.ResumesWhereStopped |

About the Finding:

- **As written.** `Backup.InvokeAsWritten` models one start of the program as written. `Backup.AsWrittenLosesProgress` exhibits the lost progress on the input above.
- **Corrected.** `Backup.Invoke` archives only an exhausted run. `Backup.ResumesWhereStopped` proves that the next start resumes from the stopped run's final store.
- **The class.** `Backup.Tracker.ResumeBackups` keeps the code's unconditional move, because it models the method itself. The corrected decision lives at the level of consecutive starts.
