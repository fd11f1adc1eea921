# CineSync / MediaHub in Dafny

CineSync organises a media collection by mirroring downloaded files into a
tidy library of symbolic links. For every source file, MediaHub's
reconciler decides whether to skip it, follow a rename, repair a link,
replace a stale link, refuse because the destination is occupied, or
create a new link. It records the outcome in a processed-files ledger and
a destination index. Monitors watch the source directories and remove
links whose sources have gone.

This project models that core and proves properties of it:

- the reconciler `process_file` and the orchestrator `create_symlinks`
  (modules `Reconciler`, `ProcessFileImpl`, `Orchestrator`,
  `CreateSymlinksImpl`) over a shared state (`State`): a filesystem of
  files, directories and links (`FileTree`), the ledger, the `file_index`
  table and the error flag;
- the clean-up of broken links and empty directories (`SymlinkUtils`);
- the single-column ledger database and its archive rotation (`Ledger`);
- the polling monitor: change detection, the rclone mount state and its
  main loop (`PollingMonitor`);
- the real-time monitor script (`RealTimeMonitor`);
- the stand-alone linker `Scripts/library.py` (`Library`);
- the helpers these use:
  - release-name parsing (`FileUtils`, `Anime`);
  - TMDb scoring and selection (`Tmdb`);
  - media-info tags (`MediaInfo`);
  - the TMDb renamer (`Renamer`);
  - configuration (`Config`).

Each `*Props` module holds the lemmas about the module it is named after.

Functions state what an operation computes. Where the source works step
by step, a method with loops or a class with fields is proved equal to
that function. Collaborators outside the model are parameters: the TMDb
service, `guessit`, the user's answers, and the classification helpers
`process_show`, `process_movie`, `get_known_types` and `is_junk_file`.

## Model

| member | source | states |
|---|---|---|
| Config.GetApiKey | MediaHub/config/config.py:10-18 | the key is returned iff it is set, non-empty and not the placeholder `your_tmdb_api_key_here`, and then it is returned unchanged |
| Config.GetDirectories | MediaHub/config/config.py:20-26 | success iff both variables are set and non-empty; the source list joined back with commas is the variable, no element holds a comma, and the destination is returned as set |
| Config.FlagDefaults | MediaHub/config/config.py:28-38 | with the variables unset, `TMDB_FOLDER_ID` is on and `RENAME_ENABLED`, `MOVIE_COLLECTION_ENABLED`, `SKIP_EXTRAS_FOLDER` are off |
| Config.FlagIgnoresCase | MediaHub/config/config.py:28-38 | a flag's value is read case-insensitively: lower-casing the variable does not change the flag |
| Config.EmptyFlagIsOff | MediaHub/config/config.py:28-38 | a variable set to the empty string turns the flag off, whatever its default |
| Config.TruthyShape | MediaHub/config/config.py:28-38 | only values of length 1, 3 or 4 (and of length 1 only `1`) turn a flag on, i.e. exactly `true`, `1`, `yes` in any case |
| Config.LowerIdempotent | MediaHub/config/config.py:29 | lower-casing twice is lower-casing once |
| FileUtils.ExtractYear | MediaHub/utils/file_utils.py:6-13 | the year found is at most 9999 (four digits); a trailing `(YYYY)` of the stripped query is preferred, then four trailing digits, else None |
| FileUtils.TrailingYear | MediaHub/utils/file_utils.py:7-13 | the year read from the end of the stripped query has at most four digits |
| FileUtilsProps.ExtractYearParenthesised | MediaHub/utils/file_utils.py:6-9 | a title followed by ` (YYYY)` gives that year |
| FileUtilsProps.ExtractYearParenthesisedSuffix | MediaHub/utils/file_utils.py:6-9 | any query ending in `(YYYY)` gives that year |
| FileUtilsProps.ExtractYearBare | MediaHub/utils/file_utils.py:10-12 | a title followed directly by four digits gives them as the year |
| FileUtilsProps.ExtractYearBareSuffix | MediaHub/utils/file_utils.py:10-12 | any query ending in four digits gives them as the year |
| FileUtils.FirstYearAt | MediaHub/utils/file_utils.py:40 | the `re.search` of `\((\d{4})\)`: the leftmost match at or after `i`, None exactly when there is none |
| FileUtilsProps.FirstYearAtIs | MediaHub/utils/file_utils.py:40 | the search finds `j` when `j` matches and nothing before it does |
| FileUtils.ExtractFolderYear | MediaHub/utils/file_utils.py:37-52 | the result is never 1080 or 2160 and has at most four digits |
| FileUtilsProps.ExtractFolderYearParenthesised | MediaHub/utils/file_utils.py:40-44 | `Title (YYYY)` with a year that is not a resolution gives that year |
| FileUtils.TokenAt | MediaHub/utils/file_utils.py:75 | the first alternative of the resolution pattern that matches (ignoring case) at a position, None iff none does |
| FileUtils.FirstToken | MediaHub/utils/file_utils.py:75 | the token of the leftmost match; None iff no alternative matches anywhere |
| FileUtils.ExtractResolutionFromFilename | MediaHub/utils/file_utils.py:74-83 | None iff no resolution token occurs; otherwise a token that occurs, lowercased, followed by `Remux` exactly when "remux" occurs in any case |
| FileUtils.DropNumber | MediaHub/utils/file_utils.py:55-56 | dropping the `N. ` numbering never lengthens the name |
| FileUtils.LazyEnd | MediaHub/utils/file_utils.py:59-61 | the lazy `(.+?)` group ends at the first position where the year tail matches, without crossing a newline |
| FileUtils.FirstMatch | MediaHub/utils/file_utils.py:66 | a match found has a non-empty name group followed by the year tail |
| FileUtils.TidyName | MediaHub/utils/file_utils.py:68-69 | the tidied name holds no `.`, `-`, `[` or `]` and has no surrounding whitespace |
| FileUtils.MatchResult | MediaHub/utils/file_utils.py:65-71 | a pattern's year is four digits |
| FileUtils.ExtractMovieNameAndYear | MediaHub/utils/file_utils.py:54-72 | a year found is four digits, and the name holds no `.`, `-`, `[`, `]` |
| FileUtilsProps.ExtractMovieNameAndYearRoundTrip | MediaHub/utils/file_utils.py:54-72 | a plain title followed by `[YYYY]`, `(YYYY)` or `YYYY` gives back exactly that title and year |
| FileUtilsProps.MatchPlain | MediaHub/utils/file_utils.py:59-71 | each pattern alone recovers a plain title and its year |
| FileUtilsProps.NoMatch | MediaHub/utils/file_utils.py:59-60 | the bracket and parenthesis patterns do not match a name without their opening character |
| FileUtilsProps.TidyPlain | MediaHub/utils/file_utils.py:68-69 | a title of letters and inner single spaces is left alone by the tidying |
| FileUtils.NormalizeQuery | MediaHub/utils/file_utils.py:119-128 | the result has no whitespace runs and no surrounding whitespace, and holds only alphanumerics, spaces and parentheses (no `.`, `_`, `-`) |
| FileUtilsProps.NormalizeQueryIdempotent | MediaHub/utils/file_utils.py:119-128 | normalising a normalised query changes nothing |
| FileUtils.FirstExact | MediaHub/utils/file_utils.py:137-144 | the first folder that normalises to the query with a compatible year; None iff there is none |
| FileUtils.Partials | MediaHub/utils/file_utils.py:146-148 | the partial matches collected, no more than the folders |
| FileUtilsProps.PartialsMembers | MediaHub/utils/file_utils.py:146-148 | a folder is collected iff one normalisation contains the other and their lengths differ by less than 5 |
| FileUtils.Best | MediaHub/utils/file_utils.py:152 | `min` by `(len, year != year)`: an element of the list that no other element is below |
| FileTree.Tree.Roots | MediaHub/utils/file_utils.py:136 | the directories a top-down `os.walk` yields as `root`: the top first, then each real subdirectory's walk in turn; each is a directory at or below the top |
| FileTree.Tree.Level | MediaHub/utils/file_utils.py:136-137 | one `(root, dirs, files)` step of `os.walk`: exactly the entries directly in the directory that the caller takes, in listing order |
| FileTree.Tree.WalkOf | MediaHub/utils/file_utils.py:136-137 | every entry the walk yields is an entry below the top whose directory is one the walk visits, and of the kind the caller takes |
| FileTree.WalkStartsAtTop | MediaHub/utils/file_utils.py:136-137 | what a caller takes from the walk starts with what it takes from the top directory, before anything deeper |
| FileTree.WalkComplete | MediaHub/utils/file_utils.py:161-163 | in a rooted tree of normalised paths, the walk reaches every entry below the top that the caller takes |
| FileTree.RootsComplete | MediaHub/utils/file_utils.py:161 | in a rooted tree of normalised paths, every directory below the top is one of the walk's roots |
| FileUtils.DirNames | MediaHub/utils/file_utils.py:136-137 | one name per entry the walk lists under `dirs`, in walk order: each the base name of a directory, or a link to one, below the root |
| FileUtils.ScanVariations | MediaHub/utils/file_utils.py:136-148 | the loop returns the first exact variation, and otherwise has collected exactly the partial ones in walk order |
| FileUtils.CheckExistingVariations | MediaHub/utils/file_utils.py:130-157 | the result is the specification `Variation` of the folder names under the destination, taken in `os.walk`'s top-down order (`DirNames`) |
| FileUtilsProps.VariationFound | MediaHub/utils/file_utils.py:130-157 | the result is a folder that matches exactly or partly; None iff no folder matches either way |
| FileUtilsProps.VariationPrefersExact | MediaHub/utils/file_utils.py:141-144 | when an exact variation exists, the first exact one in top-down walk order is returned |
| FileUtilsProps.VariationPrefersTop | MediaHub/utils/file_utils.py:136-144 | when a folder directly inside the destination is an exact variation, the result is a folder directly inside it too, never a deeper one |
| FileUtilsProps.FirstExactIsFirst | MediaHub/utils/file_utils.py:141-144 | the exact match found comes before every other exact match |
| FileUtilsProps.VariationBestPartial | MediaHub/utils/file_utils.py:150-154 | without an exact variation, no partial match has a smaller `(length, year differs)` key than the result |
| FileUtils.BuildDestIndex | MediaHub/utils/file_utils.py:159-164 | the index is the walk of the root, each directory's `dirs` then its `files`; everything in it lies below the root, and in a rooted tree of normalised paths every file, directory and link below the root is in it |
| FileUtils.Replacement | MediaHub/utils/file_utils.py:167-176 | a substituted character is replaced by characters that are not affecting ones |
| FileUtils.Words | MediaHub/utils/file_utils.py:179 | the words found are non-empty runs of word characters |
| FileUtilsProps.WordsChars | MediaHub/utils/file_utils.py:179 | every character of a word is a character of the title |
| FileUtils.CountAffected | MediaHub/utils/file_utils.py:180-182 | the count of affected words is at most the number of words |
| FileUtils.Substitute | MediaHub/utils/file_utils.py:186 | after substitution no affecting character is left |
| FileUtils.StandardizeTitleSpec | MediaHub/utils/file_utils.py:166-192 | the standardised title has no whitespace runs and no surrounding whitespace |
| FileUtils.StandardizeTitle | MediaHub/utils/file_utils.py:166-192 | the method with its counting loop computes `StandardizeTitleSpec` |
| FileUtilsProps.StandardizeReplacesAll | MediaHub/utils/file_utils.py:185-186 | with more than four affected words, no affecting character remains |
| FileUtilsProps.NoAffectedWords | MediaHub/utils/file_utils.py:180-182 | words without affecting characters count zero |
| FileUtilsProps.StandardizeFixed | MediaHub/utils/file_utils.py:184-192 | a title already squashed and without affecting characters is returned unchanged (only whitespace is touched otherwise) |
| FileUtilsProps.StandardizeIdempotentWhenSubstituted | MediaHub/utils/file_utils.py:184-192 | once substituted, standardising again changes nothing |
| FileUtils.RemoveWordFrom | MediaHub/utils/file_utils.py:201 | removing a whole word never lengthens the rest of the query |
| FileUtils.RemoveWord | MediaHub/utils/file_utils.py:201 | removing a genre never lengthens the query |
| FileUtils.RemoveAll | MediaHub/utils/file_utils.py:200-201 | removing every genre in turn never lengthens the query |
| FileUtils.RemoveGenreNames | MediaHub/utils/file_utils.py:194-203 | the loop computes every genre removed then whitespace squashed; the result is squashed and no longer than the query |
| FileUtilsProps.RemoveWordFromNone | MediaHub/utils/file_utils.py:201 | a genre that occurs nowhere as a whole word (ignoring case) removes nothing |
| FileUtilsProps.RemoveAllNone | MediaHub/utils/file_utils.py:200-201 | a query naming no genre as a whole word is unchanged by the removals |
| FileUtilsProps.RemoveGenreNamesNone | MediaHub/utils/file_utils.py:194-203 | a query naming no genre is only re-spaced |
| Ledger.InsertOrIgnore | MediaHub/processors/db_utils.py:63-68 | after the insert the path is recorded; the set grows by at most that path; rows stay distinct (primary key); a new path goes after every existing row |
| Ledger.InsertOrIgnoreIdempotent | MediaHub/processors/db_utils.py:63-68 | saving the same path twice is saving it once |
| Ledger.SplitOldest | MediaHub/processors/db_utils.py:41-50 | the rows split into those moved and the `MAX_RECORDS` highest-rowid ones kept; nothing is split off at or below the limit |
| Ledger.DistinctParts | MediaHub/processors/db_utils.py:41-50 | the moved and kept rows are disjoint and each distinct |
| Ledger.AppendRows | MediaHub/processors/db_utils.py:41-49 | the archive insert succeeds iff no moved path is already archived (primary key), and then appends the moved rows |
| Ledger.DistinctAppend | MediaHub/processors/db_utils.py:26-27 | appending disjoint distinct rows keeps the archive's primary key |
| Ledger.ProcessedFilesDb.InitializeDb | MediaHub/processors/db_utils.py:10-30 | both tables exist afterwards and existing rows are kept (`CREATE TABLE IF NOT EXISTS`) |
| Ledger.ProcessedFilesDb.SaveProcessedFile | MediaHub/processors/db_utils.py:63-68 | the main table becomes `InsertOrIgnore` of the old one; it fails, changing nothing, when the table is missing |
| Ledger.ProcessedFilesDb.LoadProcessedFiles | MediaHub/processors/db_utils.py:53-61 | the set returned holds exactly the stored paths |
| Ledger.ProcessedFilesDb.ArchiveOldRecords | MediaHub/processors/db_utils.py:32-51 | as written: a no-op at or below 100000 rows; above it, succeeds only if the main database file holds an archive table, then keeps the newest rows and archives the others there |
| Ledger.ProcessedFilesDb.ArchiveIntoArchiveFile | MediaHub/processors/db_utils.py:32-51 | corrected: the same pass with the archive table of the archive database file |
| Ledger.ArchivePassKeepsNewest | MediaHub/processors/db_utils.py:39-50 | the pass keeps exactly the `MAX_RECORDS` newest rows, loses none, and the moved rows follow the archive |
| Ledger.ArchiveScenarioAsWritten | MediaHub/processors/db_utils.py:10-51 | on freshly initialised files with more than 100000 rows, the pass as written raises and keeps every row |
| Ledger.ArchiveScenarioCorrected | MediaHub/processors/db_utils.py:10-51 | the corrected pass succeeds, keeps the newest 100000 rows and archives the rest in order |
| Ledger.ProcessedFilesDb.constructor | MediaHub/processors/db_utils.py:5-7 | before initialisation neither database file holds a table |
| Ledger.FreshDatabase | MediaHub/processors/db_utils.py:10-30 | freshly initialised files filled one save at a time hold the rows in order, an empty archive, and no archive table in the main file (also lines 63-68) |
| State.RenameDest | MediaHub/processors/symlink_creator.py:134 | after a rename every source recorded at the old destination is recorded at the new one; other sources keep theirs and no source is added or dropped |
| State.ForgetDest | MediaHub/processors/symlink_utils.py:161 | `DELETE FROM processed_files WHERE destination_path = d`: exactly the sources recorded at `d` are dropped, the others keep their destination |
| State.DeleteIndexRow | MediaHub/processors/symlink_utils.py:164 | `DELETE FROM file_index WHERE path = p`: exactly the rows for `p` are dropped |
| State.UpsertIndexRow | MediaHub/processors/symlink_creator.py:599-600 | the row is stored and replaces any row for the same path (the path is the key); other rows stay |
| State.IndexPaths | MediaHub/processors/symlink_creator.py:459-462 | the paths of the index rows, one per row, in table order |
| SymlinkUtils.NormalizePath | MediaHub/processors/symlink_utils.py:398-413 | the identity off Windows; on Windows a leading `\\?\` is stripped, any other path is kept |
| SymlinkUtils.ExistingSymlinkInfo | MediaHub/processors/symlink_utils.py:415-431 | a link found reads exactly the source and sits in the directory of the ledger's destination; NotFound when there is no ledger entry, the directory is missing, or no link in it reads the source; the listing raises when the recorded parent exists but is not a directory |
| SymlinkUtils.GetExistingSymlinkInfo | MediaHub/processors/symlink_utils.py:415-431 | the listing loop returns what `ExistingSymlinkInfo` specifies |
| SymlinkUtils.CleanupEmptyDirs | MediaHub/processors/symlink_utils.py:362-370 | only existing empty directories on the way up from `d` (prefixes of `d`) are removed, and nothing else changes; nothing happens when `d` is empty, not a directory, not empty, or cannot be removed |
| SymlinkUtils.CleanupEmptyDirsLoop | MediaHub/processors/symlink_utils.py:362-370 | the while-loop leaves the tree `CleanupEmptyDirs` specifies and the databases and error flag as they were |
| SymlinkUtils.Select | MediaHub/processors/symlink_utils.py:62-66 | the rows a `file_index` query returns are exactly the rows whose target matches, in table order |
| SymlinkUtilsProps.LikeAnything | MediaHub/processors/symlink_utils.py:55 | the `%` pattern matches any target |
| SymlinkUtilsProps.LikeLiteralPrefix | MediaHub/processors/symlink_utils.py:228-229 | for a path without wildcards, `LIKE path%` is a case-insensitive prefix test |
| SymlinkUtils.Keepers | MediaHub/processors/symlink_utils.py:236-248 | every collected path is non-empty and accepted (valid, or kept for a ` - ` basename in file mode), and every such row's path is collected |
| SymlinkUtilsProps.KeepersFromRows | MediaHub/processors/symlink_utils.py:236-258 | every visited path comes from a row the query returned |
| SymlinkUtils.FallbackKeepers | MediaHub/processors/symlink_utils.py:100-130 | the search of a removed directory's files collects only accepted paths |
| SymlinkUtils.FileRows | MediaHub/processors/symlink_utils.py:224-231 | the exact `target_path` matches when there are any; only when there are none, the prefix matches |
| SymlinkUtils.Items | MediaHub/processors/symlink_utils.py:48-66 | the visited paths are non-empty; in directory mode only valid ones; in file mode every row with a ` - ` basename is kept even when the validity check fails (also lines 224-258) |
| SymlinkUtils.CollectKeepers | MediaHub/processors/symlink_utils.py:236-258 | the loop collects what `Keepers` specifies |
| SymlinkUtils.CollectItems | MediaHub/processors/symlink_utils.py:48-258 | the loops collect what `Items` specifies |
| SymlinkUtils.CollectFallback | MediaHub/processors/symlink_utils.py:100-130 | the loop over the directory's files collects what `FallbackKeepers` specifies |
| SymlinkUtils.ForgetRows | MediaHub/processors/symlink_utils.py:161-164 | both databases forget the destination; the tree and the error flag are unchanged |
| SymlinkUtils.Purge | MediaHub/processors/symlink_utils.py:147-174 | a visited link is removed (flag set) with its parents pruned; an entry that is not a link only loses its rows; only the link and directories are removed (also lines 281-301) |
| SymlinkUtils.PurgeAll | MediaHub/processors/symlink_utils.py:139-174 | the flag, once set, stays set; the error flag is untouched (also lines 265-301) |
| SymlinkUtilsProps.PurgeAllTree | MediaHub/processors/symlink_utils.py:265-301 | the loop only removes entries: visited links and directories; no visited path is a link afterwards |
| SymlinkUtilsProps.PurgeAllRows | MediaHub/processors/symlink_utils.py:291-301 | the rows of every visited path are deleted from both tables and no other row is touched |
| SymlinkUtilsProps.PurgeAllLedger | MediaHub/processors/symlink_utils.py:291-301 | a ledger row survives iff its destination was not visited, and surviving rows are unchanged |
| SymlinkUtilsProps.PurgeAllIndex | MediaHub/processors/symlink_utils.py:291-301 | an index row survives iff its path was not visited |
| SymlinkUtilsProps.PurgeAllFlag | MediaHub/processors/symlink_utils.py:157 | the result is true iff some visited path was a link (also line 288) |
| SymlinkUtils.PurgeOne | MediaHub/processors/symlink_utils.py:281-301 | one visited path on the shared state, as `Purge` specifies |
| SymlinkUtils.CheckEntries | MediaHub/processors/symlink_utils.py:372-396 | the error flag is untouched |
| SymlinkUtilsProps.CheckEntriesTree | MediaHub/processors/symlink_utils.py:372-396 | the check only removes entries: listed links and pruned directories |
| SymlinkUtilsProps.BrokenStaysBroken | MediaHub/processors/symlink_utils.py:378-383 | while entries are only removed, a broken link stays broken, so later turns still see it broken |
| SymlinkUtilsProps.CheckEntriesRemovesBroken | MediaHub/processors/symlink_utils.py:372-396 | every listed broken link is removed with its ledger and index rows; rows of other paths stay |
| SymlinkUtils.CheckAllSymlinks | MediaHub/processors/symlink_utils.py:372-396 | the listing raises (and nothing changes) iff the destination is not a directory |
| SymlinkUtils.CheckAllSymlinksLoop | MediaHub/processors/symlink_utils.py:372-396 | the loop on the shared state does what `CheckAllSymlinks` specifies |
| SymlinkUtils.DeleteBrokenSpec | MediaHub/processors/symlink_utils.py:10-360 | a database error returns False and changes nothing; without a removed path it is `_check_all_symlinks`; the error flag is never touched |
| SymlinkUtils.DeleteBrokenSymlinks | MediaHub/processors/symlink_utils.py:10-360 | the method on the shared state does what `DeleteBrokenSpec` specifies |
| SymlinkUtilsProps.RemovedPathCleanup | MediaHub/processors/symlink_utils.py:40-360 | for a removed path: regular files survive, every visited link is gone with its rows, other rows stay, and the result is True iff a visited path was a link |
| SymlinkUtilsProps.CheckAllCleanup | MediaHub/processors/symlink_utils.py:351-396 | without a removed path: regular files survive, every broken link directly inside the destination is removed with its rows, only listed links and directories go, and the result is False |
| Reconciler.Classify | MediaHub/processors/symlink_creator.py:195-251 | precedence: `force_show`, then `force_movie`, then a season token in the full path, then episode or mini-series evidence in the name, then anime evidence, otherwise a movie; each kind states which earlier tests failed |
| Reconciler.PruneParents | MediaHub/processors/symlink_creator.py:88-112 | only directories are removed (up to two levels), everything kept is unchanged |
| Reconciler.ForceRemoval | MediaHub/processors/symlink_creator.py:65-112 | outside force mode nothing changes; in force mode only entries are removed and no regular file is |
| Reconciler.LedgerCheck | MediaHub/processors/symlink_creator.py:114-153 | an existing recorded destination ends the call unchanged; a missing one whose directory holds a link to the source is a rename that moves the ledger's entries to that link; nothing else changes |
| Reconciler.ConflictCheck | MediaHub/processors/symlink_creator.py:155-174 | outside force mode, an index entry linking to the source stops the call iff one exists, and the ledger records that link |
| Reconciler.NameCheck | MediaHub/processors/symlink_creator.py:181-314 | a 32-hex hash name without ids stops the call, junk stops it, a place decision uses the resolver's destination, and no stop creates a link |
| Reconciler.InstallLink | MediaHub/processors/symlink_creator.py:318-391 | only the destination entry may change; a link to the source is recorded, a link elsewhere replaced, a regular file or directory left alone; the ledger is updated exactly when the link ends up pointing at the source |
| Reconciler.PlaceLink | MediaHub/processors/symlink_creator.py:316-391 | the destination directory is created first (failure is an error with nothing changed), then `InstallLink`; no regular file is lost |
| Reconciler.ProcessFileSpec | MediaHub/processors/symlink_creator.py:49-391 | with the error flag set nothing happens; the flag and the file index are never changed by a call |
| ProcessFileImpl.RemoveForReprocessing | MediaHub/processors/symlink_creator.py:65-112 | the force-mode removal, step by step, leaves the tree `ForceRemoval` gives, or changes nothing when it raises |
| ProcessFileImpl.PruneEmptyParents | MediaHub/processors/symlink_creator.py:88-112 | the two-level clean-up of empty parents leaves exactly the tree `PruneParents` gives, and nothing else in the state changes |
| ProcessFileImpl.ProcessFile | MediaHub/processors/symlink_creator.py:32-391 | the step-by-step cascade leaves exactly the outcome and state of `ProcessFileSpec` |
| ProcessFileImpl.CreateLink | MediaHub/processors/symlink_creator.py:316-391 | making the parents, clearing a stale link and creating the link, step by step, leave exactly the outcome and state of `PlaceLink` |
| ReconcilerProps.ProcessFileKeepsFiles | MediaHub/processors/symlink_creator.py:316-359 | no regular file is ever removed or replaced, and the tree stays well formed |
| ReconcilerProps.CreatedOnlyByCreation | MediaHub/processors/symlink_creator.py:357-369 | only the creation path returns the triple, and then a link to the source exists at the resolver's destination and the ledger records it |
| ReconcilerProps.StoppedChangesNothing | MediaHub/processors/symlink_creator.py:49-50 | with the error flag set the call returns None and changes nothing |
| ReconcilerProps.RenameDetection | MediaHub/processors/symlink_creator.py:114-153 | outside force mode an existing recorded destination changes nothing; a missing one with a link to the source in its directory moves the ledger old to new and creates no link |
| ReconcilerProps.ConflictRecorded | MediaHub/processors/symlink_creator.py:155-174 | an indexed link to the source is recorded in the ledger and no link is made |
| ReconcilerProps.HashNameIgnoresForceFlags | MediaHub/processors/symlink_creator.py:181-195 | a hash name without ids is skipped whatever `force_show`/`force_movie` say |
| ReconcilerProps.DestinationStates | MediaHub/processors/symlink_creator.py:316-359 | a link to the source is only recorded; a link elsewhere is replaced by a link to the source; an existing regular entry is left untouched with no link made |
| ReconcilerProps.LedgerFrame | MediaHub/processors/symlink_creator.py:173 | apart from a rename, the ledger changes only at the source's own entry (also lines 331, 364) |
| ReconcilerProps.SecondRunAlreadyProcessed | MediaHub/processors/symlink_creator.py:114-153 | a source whose recorded destination links to it is reported already processed with nothing changed |
| ReconcilerProps.InstallLinkStable | MediaHub/processors/symlink_creator.py:345-391 | an occupied destination or a failed link leaves the state as it was and creates nothing |
| ReconcilerProps.ProcessFileIdempotent | MediaHub/processors/symlink_creator.py:32-391 | running `process_file` twice without force leaves the state of the first run, and the second run creates no link |
| ReconcilerProps.CreatedPath | MediaHub/processors/symlink_creator.py:357-369 | a created link is only reported when the flag is clear, the type known, the force removal succeeded and the name checks chose a destination, and then the call is the placing path |
| ReconcilerProps.PlaceCreated | MediaHub/processors/symlink_creator.py:357-369 | when the placing path reports a link, that link exists at the destination, points to the source and is the ledger's row for it |
| ReconcilerProps.RenameIdempotent | MediaHub/processors/symlink_creator.py:114-153 | after a rename has been recorded, a second run reports already processed and changes nothing |
| ReconcilerProps.PlacedIdempotent | MediaHub/processors/symlink_creator.py:316-391 | after the placing path, a second run changes nothing and creates no link |
| ReconcilerProps.OccupiedIdempotent | MediaHub/processors/symlink_creator.py:345-391 | after an occupied destination or a failed link, a second run changes nothing and creates no link |
| ReconcilerProps.OccupiedState | MediaHub/processors/symlink_creator.py:345-391 | an occupied destination or a failed link keeps the ledger, the links to the source and the destination directory, and the destination stays blocked |
| ReconcilerProps.SecondRunStops | MediaHub/processors/symlink_creator.py:114-391 | on such a state the ledger, index and name checks pass again and the placing stops at the blocked destination, changing nothing |
| ReconcilerProps.LedgerCheckStable | MediaHub/processors/symlink_creator.py:114-153 | after an occupied destination or a failed link, the second run's ledger check goes on or reports already processed |
| Orchestrator.SourceDirs | MediaHub/processors/symlink_creator.py:423-425 | a single path replaces the source list; otherwise the sources are visited as given |
| Orchestrator.DestIndex | MediaHub/processors/symlink_creator.py:458-463 | in create mode the index is every path below the destination; in monitor mode the paths of `file_index` |
| Orchestrator.Record | MediaHub/processors/symlink_creator.py:597-600 | in monitor mode a created link is stored in `file_index`; nothing else changes, and nothing at all otherwise |
| Orchestrator.SeqFiles | MediaHub/processors/symlink_creator.py:704-768 | the sequential loop over a directory's files never changes the error flag, and in create mode never touches the index |
| Orchestrator.SeqDirs | MediaHub/processors/symlink_creator.py:635-775 | the sequential loop over the sources never changes the error flag |
| Orchestrator.DispatchFiles | MediaHub/processors/symlink_creator.py:506-582 | the submission loop extends the walked sources and outcomes one for one, stops only on a set flag, and never changes the flag |
| Orchestrator.DispatchDirs | MediaHub/processors/symlink_creator.py:447-582 | the submission loop over the sources stops only on a set flag and never changes it |
| Orchestrator.HandleResults | MediaHub/processors/symlink_creator.py:583-626 | the result loop changes neither the tree nor the ledger, does nothing once the flag is set, and never lowers the counter |
| Orchestrator.KeepNew | MediaHub/processors/symlink_creator.py:584 | the hinted task indices, each once, skipping those already seen |
| Orchestrator.Missing | MediaHub/processors/symlink_creator.py:584 | indices of tasks that the hint leaves out, in ascending order |
| Orchestrator.Reorder | MediaHub/processors/symlink_creator.py:584 | `as_completed` yields every submitted task exactly once, in an arbitrary order |
| Orchestrator.CountKnown | MediaHub/processors/symlink_creator.py:440-441 | the progress total counts at most the walked files |
| Orchestrator.CreateSymlinksSpec | MediaHub/processors/symlink_creator.py:394-775 | it raises, changing nothing, iff the destination cannot be created; sequential mode never sets the flag nor counts processed files |
| CreateSymlinksImpl.GetDestIndex | MediaHub/processors/symlink_creator.py:458-463 | the method reads the index `DestIndex` specifies |
| CreateSymlinksImpl.RecordResult | MediaHub/processors/symlink_creator.py:597-600 | the method stores the created link as `Record` specifies |
| CreateSymlinksImpl.CountTotal | MediaHub/processors/symlink_creator.py:434-441 | the counting loop computes the progress total |
| CreateSymlinksImpl.SeqFilesLoop | MediaHub/processors/symlink_creator.py:704-768 | the loop reaches the state `SeqFiles` specifies |
| CreateSymlinksImpl.SeqDirsLoop | MediaHub/processors/symlink_creator.py:635-775 | the loop reaches the state `SeqDirs` specifies |
| CreateSymlinksImpl.DispatchFilesLoop | MediaHub/processors/symlink_creator.py:506-582 | the loop reaches the batch `DispatchFiles` specifies |
| CreateSymlinksImpl.DispatchDirsLoop | MediaHub/processors/symlink_creator.py:447-582 | the loop reaches the batch `DispatchDirs` specifies |
| CreateSymlinksImpl.HandleLoop | MediaHub/processors/symlink_creator.py:583-626 | the loop reaches the state and count `HandleResults` specifies |
| CreateSymlinksImpl.CreateSymlinks | MediaHub/processors/symlink_creator.py:394-775 | the whole call leaves the state `CreateSymlinksSpec` specifies |
| OrchestratorProps.SeqFilesWalked | MediaHub/processors/symlink_creator.py:727-734 | every source the sequential loop hands on is one of the directory's files that the log filter lets through |
| OrchestratorProps.SeqDirsWalked | MediaHub/processors/symlink_creator.py:729-734 | no source the sequential loop processes is skipped by the log filter |
| OrchestratorProps.DispatchDirsWalked | MediaHub/processors/symlink_creator.py:529-540 | no submitted source is skipped by the log filter |
| OrchestratorProps.LoggedSourcesNeverProcessed | MediaHub/processors/symlink_creator.py:529-540 | in create mode without force, a source the processed log holds is never handed to `process_file` (also lines 729-734) |
| OrchestratorProps.HandleFlag | MediaHub/processors/symlink_creator.py:584-626 | after the result loop the flag is set iff it was set before or a taken result raised |
| OrchestratorProps.HandleWithoutRaised | MediaHub/processors/symlink_creator.py:595-613 | with no exception, every created link is counted and the flag stays clear |
| OrchestratorProps.HandleStopsAtFirstRaised | MediaHub/processors/symlink_creator.py:584-626 | the first exception sets the flag and the results after it are neither counted nor indexed |
| OrchestratorProps.ReorderCovers | MediaHub/processors/symlink_creator.py:584 | some taken result raised iff some task raised |
| OrchestratorProps.FlagOnlyFromRaisedTask | MediaHub/processors/symlink_creator.py:371-391 | the flag is set afterwards iff it was set before or, in auto-select mode, some task raised; errors `process_file` catches never set it (also lines 619-626) |
| PollingMonitor.RelPath | MediaHub/monitor/polling_monitor.py:177 | the relative path is what follows the root and its separator in the full path |
| PollingMonitor.AddFiles | MediaHub/monitor/polling_monitor.py:173-185 | storing a root's files keeps every earlier key, and every entry is either an earlier one unchanged or one stored under this root |
| PollingMonitor.Statted | MediaHub/monitor/polling_monitor.py:173-190 | the files stored for a root are a prefix of its walk, all readable, ending just before the first file `getmtime` raises on |
| PollingMonitor.AddRoot | MediaHub/monitor/polling_monitor.py:167-190 | a root keeps every earlier key, and every new or replaced entry is stored under it and only when it exists |
| PollingMonitor.ScanFrom | MediaHub/monitor/polling_monitor.py:164-190 | the loop over the roots keeps every earlier key, and every new or replaced entry is stored under one of the roots that exists |
| PollingMonitor.Scan | MediaHub/monitor/polling_monitor.py:158-192 | every entry of a scan is stored under one of the watched roots, and that root exists |
| PollingMonitor.ScanDirectories | MediaHub/monitor/polling_monitor.py:158-192 | the loops over the roots and their files, walked top-down, build the listing `Scan` specifies, a root's walk ending at its first file whose modification time cannot be read |
| PollingMonitor.Push | MediaHub/monitor/polling_monitor.py:210-213 | appending a file to its directory's group keeps every group present and each directory listed once |
| PollingMonitor.GroupBy | MediaHub/monitor/polling_monitor.py:205-221 | the grouping by parent directory is well formed |
| PollingMonitor.GroupFiles | MediaHub/monitor/polling_monitor.py:205-221 | the grouping loop builds the groups `GroupBy` specifies |
| PollingMonitor.MonitorOptions | MediaHub/monitor/polling_monitor.py:253 | `create_symlinks` gets monitor mode, auto-select, no force, the file as the single path, and the configured directories |
| PollingMonitor.ProcessNew | MediaHub/monitor/polling_monitor.py:237-259 | the monitor's `process_file` leaves the state `ProcessNewSpec` specifies |
| PollingMonitor.HandleFiles | MediaHub/monitor/polling_monitor.py:226-228 | the loop over a directory's new files leaves the state `RunNew` specifies |
| PollingMonitor.RunNewAppend | MediaHub/monitor/polling_monitor.py:224-228 | handling two runs of files is handling the first, then the second unless the process exited |
| PollingMonitor.HandleNew | MediaHub/monitor/polling_monitor.py:224-228 | the loop over the groups handles their files group after group |
| PollingMonitor.RemoveFiles | MediaHub/monitor/polling_monitor.py:233-235 | the loop over a directory's vanished files leaves the state `RunRemoved` specifies |
| PollingMonitor.RunRemovedAppend | MediaHub/monitor/polling_monitor.py:231-235 | handing over two runs of files is handing over the first, then the second unless it raised |
| PollingMonitor.HandleRemoved | MediaHub/monitor/polling_monitor.py:231-235 | the loop over the groups of vanished files hands them over group after group |
| PollingMonitor.FlattenFront | MediaHub/monitor/polling_monitor.py:224-235 | the handling order is the first group's files followed by the rest |
| PollingMonitor.ProcessChanges | MediaHub/monitor/polling_monitor.py:194-235 | the set differences, the grouping and the two loops leave the state `ChangesSpec` specifies |
| PollingMonitor.MountPoint | MediaHub/monitor/polling_monitor.py:59-72 | a mount point found is one of the mounts and is never `/` |
| PollingMonitor.GetMountPoint | MediaHub/monitor/polling_monitor.py:45-72 | the method's loop finds what `GetMountPointSpec` specifies, and none for a missing path |
| PollingMonitor.SetState | MediaHub/monitor/polling_monitor.py:113-125 | the state becomes the new value and a message is logged exactly when it changes |
| PollingMonitor.VerifySpec | MediaHub/monitor/polling_monitor.py:97-126 | a pass sets the state true; a failure on an existing directory sets it false; a missing directory changes nothing; a message exactly when the state changes |
| PollingMonitor.CheckSpec | MediaHub/monitor/polling_monitor.py:128-156 | a disabled check passes and sets the state false; a message exactly when the state changes |
| PollingMonitor.Monitor.constructor | MediaHub/monitor/polling_monitor.py:38-39 | no previous scan, no mount state, nothing logged (also line 346) |
| PollingMonitor.Monitor.VerifyRcloneMount | MediaHub/monitor/polling_monitor.py:97-126 | the method updates the mount state and logs as `VerifySpec` specifies, keeping the previous scan |
| PollingMonitor.Monitor.CheckRcloneMount | MediaHub/monitor/polling_monitor.py:128-156 | the method updates the mount state and logs as `CheckSpec` specifies, keeping the previous scan |
| PollingMonitor.Monitor.Pass | MediaHub/monitor/polling_monitor.py:348-377 | a failed check changes nothing but the mount state; otherwise the previous scan (a fresh one when empty) is compared with a new one, the changes are processed, and the new scan is kept unless processing raised |
| PollingMonitorProps.ScanKeyIsPath | MediaHub/monitor/polling_monitor.py:175-178 | joining the root with the relative path gives back the walked path |
| PollingMonitorProps.SoundStore | MediaHub/monitor/polling_monitor.py:181-185 | storing one readable file of an existing root's walk keeps the listing sound |
| PollingMonitorProps.AddFilesSound | MediaHub/monitor/polling_monitor.py:173-185 | storing files a root's walk yields before its first unreadable file keeps the listing sound |
| PollingMonitorProps.AddFilesKeys | MediaHub/monitor/polling_monitor.py:181-185 | storing files keeps the earlier keys and adds one key per file |
| PollingMonitorProps.ScanFromSound | MediaHub/monitor/polling_monitor.py:164-190 | the loop over the roots keeps the listing sound and stores every file of every existing root up to that root's first unreadable file |
| PollingMonitorProps.ScanListing | MediaHub/monitor/polling_monitor.py:158-192 | every key is the join of an existing root and the relative path of a file its top-down walk yields before the first unreadable one, and every such file is stored |
| PollingMonitorProps.ScanStopsAtBroken | MediaHub/monitor/polling_monitor.py:184-190 | nothing at or after a root's first unreadable file is stored: every stored file of that root comes before it in the top-down walk and exists |
| PollingMonitorProps.StattedBefore | MediaHub/monitor/polling_monitor.py:184-190 | a file whose modification time was read comes before any unreadable file of the same walk |
| PollingMonitorProps.ScanSkipsMissing | MediaHub/monitor/polling_monitor.py:167-169 | a missing root contributes nothing to the scan |
| PollingMonitorProps.FlattenIgnores | MediaHub/monitor/polling_monitor.py:224-235 | the group of a directory not in the order is never handled |
| PollingMonitorProps.FlattenAppendAt | MediaHub/monitor/polling_monitor.py:210-213 | appending a file to a listed directory's group adds it once to the handling order |
| PollingMonitorProps.PushAdds | MediaHub/monitor/polling_monitor.py:210-213 | `setdefault(...).append(p)` adds `p` once to the handling order |
| PollingMonitorProps.HandledStep | MediaHub/monitor/polling_monitor.py:206-213 | one more file adds itself to the handling order unless it is a skipped `version.txt` file |
| PollingMonitorProps.HandledOnce | MediaHub/monitor/polling_monitor.py:206-221 | each kept file is handled exactly once and nothing else is handled |
| PollingMonitorProps.EnumeratesEmpty | MediaHub/monitor/polling_monitor.py:199-203 | an empty set of changes is iterated as nothing |
| PollingMonitorProps.PlanExactlyOnce | MediaHub/monitor/polling_monitor.py:199-235 | each added file except `version.txt` files is processed exactly once, and each removed file handed over exactly once |
| PollingMonitorProps.NoChangeNoWork | MediaHub/monitor/polling_monitor.py:194-235 | a scan equal to the previous one changes nothing |
| PollingMonitorProps.FirstPassQuiet | MediaHub/monitor/polling_monitor.py:359-366 | the first pass compares a fresh scan with itself and does nothing |
| PollingMonitorProps.MonitorCall | MediaHub/monitor/polling_monitor.py:242-253 | a file not in the ledger runs `create_symlinks` for that file alone in monitor mode with no forced id; missing directories do nothing |
| PollingMonitorProps.DispatchDirsFlagged | MediaHub/processors/symlink_creator.py:507-509 | with the error flag set, a submission loop changes nothing |
| PollingMonitorProps.ProcessNewFlagged | MediaHub/monitor/polling_monitor.py:237-259 | with the process-wide flag set, handling a new file leaves the ledger and index as they are |
| PollingMonitorProps.MonitorStuckAfterRaise | MediaHub/monitor/polling_monitor.py:224-228 | once the flag is set, every later new file stays unlinked and unrecorded |
| PollingMonitorProps.MountPointChain | MediaHub/monitor/polling_monitor.py:59-72 | the answer is the first mount on the parent chain, none when the chain ends at a fixed point or its first mount is `/` |
| PollingMonitorProps.CheckStable | MediaHub/monitor/polling_monitor.py:128-156 | repeating the check on its own resulting state logs nothing and gives the same answer |
| PollingMonitorProps.CheckPasses | MediaHub/monitor/polling_monitor.py:140-150 | an enabled check passes iff the first source exists, has a mount other than `/` on its parent chain and the mount is healthy |
| Library.DropParenYears | Scripts/library.py:293 | removing the parenthesised years never lengthens the name nor adds a character |
| Library.NormalizeName | Scripts/library.py:292-296 | the result is lowercase letters, digits and single inner spaces |
| Library.LowerSquashed | Scripts/library.py:295-296 | lowercasing keeps squashed whitespace squashed |
| Library.ResolutionAt | Scripts/library.py:282 | a match is a piece of the name at least three characters long |
| Library.FirstResolution | Scripts/library.py:282 | the match is the one at the leftmost matching position, none when no position matches |
| Library.BareResolution | Scripts/library.py:282 | a found token has at least three characters |
| Library.Resolution | Scripts/library.py:281-290 | none iff no token; otherwise the lowercased token followed by `Remux` when the name mentions remux |
| Library.ShowFolderAsWritten | Scripts/library.py:461-482 | as written, the folder is one of the show libraries, a remux library exactly when the name mentions remux, and never the 1080p remux or plain remux show library |
| Library.ShowFolder | Scripts/library.py:461-482 | corrected, the folder is one of the show libraries, and a remux library exactly when the name mentions remux |
| Library.MovieFolderAsWritten | Scripts/library.py:580-600 | as written, the folder is one of the movie libraries, and a remux library exactly when the name mentions remux |
| Library.MovieFolder | Scripts/library.py:580-600 | corrected, the folder is one of the movie libraries, and a remux library exactly when the name mentions remux |
| Library.FirstSeasonTag | Scripts/library.py:402 | the first position at or after `k` where `S` and two digits occur, none when there is none |
| Library.ParentSeason | Scripts/library.py:402-404 | the season read from the parent folder is always two digits |
| Library.NormalizeIdentifierAsWritten | Scripts/library.py:387-409 | the identifier after the cascade always starts with `S` |
| Library.NormalizeIdentifier | Scripts/library.py:387-409 | corrected, the identifier starts with `S` in either case and a digit, and an upper-case `SxxEyy` is kept as the written cascade keeps it |
| Library.FirstSeasonEpisode | Scripts/library.py:411 | the first position where `S`, two digits, `E` and two digits occur, none when there is none |
| Library.FirstDigit | Scripts/library.py:416 | the position of the first digit at or after `k`, none when there is none |
| Library.SeasonNumber | Scripts/library.py:411-417 | the season read from the identifier is a non-empty digit string |
| Library.SeasonFolder | Scripts/library.py:419 | the folder name is `Season ` followed by the number |
| Library.Moved | Scripts/library.py:663 | the copied path lies below the destination and keeps its length relative to it |
| Library.CopyEntries | Scripts/library.py:663 | each copied entry lands at its moved path with its own value; nothing else changes or appears |
| Library.MovedInjective | Scripts/library.py:663 | two different source paths never land on the same copy |
| Library.CopyTreeSpec | Scripts/library.py:663 | the destination becomes a directory holding a copy of every entry of the source's walk, links copied as links, and nothing outside it changes |
| Library.ProcessFileSpec | Scripts/library.py:630-667 | an existing indexed link stops it and changes nothing; a link to the source or an occupied destination is left as it is; otherwise a link or a copied directory is made |
| Library.Place | Scripts/library.py:658-667 | an existing non-link entry is left as it is; otherwise a directory source is copied to a directory at the destination, and any other source gets a link to it |
| Library.SourceDirs | Scripts/library.py:675-676 | a single path replaces the source list |
| Library.CreateSymlinksSpec | Scripts/library.py:670-695 | a destination that cannot be made raises and changes nothing |
| Library.Disk.constructor | Scripts/library.py:670 | the disk starts with the given tree |
| Library.Disk.CopyTree | Scripts/library.py:663 | the copy loop leaves the tree `CopyTreeSpec` specifies |
| Library.Disk.ProcessFile | Scripts/library.py:630-667 | the method leaves the tree and outcome `ProcessFileSpec` specifies |
| Library.Disk.ProcessFiles | Scripts/library.py:687-695 | the loop over a directory's files leaves the tree `RunFiles` specifies |
| Library.Disk.CreateSymlinks | Scripts/library.py:670-695 | the whole call leaves the tree `CreateSymlinksSpec` specifies |
| LibraryProps.DropParenYearsPlain | Scripts/library.py:293 | text before the first `(` is kept as it is |
| LibraryProps.NormalizeNameIdempotent | Scripts/library.py:292-296 | normalising twice is normalising once |
| LibraryProps.NormalizedStages | Scripts/library.py:292-296 | a normalised name is its own normal form |
| LibraryProps.StripSquashed | Scripts/library.py:295 | stripping a squashed name changes nothing |
| LibraryProps.LowerIdentity | Scripts/library.py:296 | lowercasing a name without capitals changes nothing |
| LibraryProps.LStripSpaceEnd | Scripts/library.py:293 | a trailing space survives a left strip unless the name is blank |
| LibraryProps.StripSpaceEnd | Scripts/library.py:293 | a trailing space makes no difference to the strip |
| LibraryProps.DropYearTail | Scripts/library.py:293 | a parenthesised four-digit year is removed entirely |
| LibraryProps.CleanedDropsYear | Scripts/library.py:293 | removing a trailing ` (YYYY)` and stripping gives the bare title stripped |
| LibraryProps.NormalizeNameDropsYear | Scripts/library.py:292-296 | a title with and without a trailing year normalise alike |
| LibraryProps.RemuxSuffixOfRemux | Scripts/library.py:283-288 | the suffix is `Remux` exactly when the name mentions remux in any case |
| LibraryProps.NonRemuxResolution | Scripts/library.py:281-290 | without remux the bare lowercased token is returned |
| LibraryProps.RemuxShowAsWritten | Scripts/library.py:461-465 | as written, every remux show goes to the 4K remux library |
| LibraryProps.RemuxMovieAsWritten | Scripts/library.py:580-586 | as written, every remux movie goes to the generic remux folder |
| LibraryProps.RemuxShowTier | Scripts/library.py:461-467 | corrected, a remux show is 4K iff the name says `2160` or `4k`, 1080p iff it says `1080` and neither of those |
| LibraryProps.RemuxMovieTier | Scripts/library.py:580-586 | corrected, a remux movie is 4K or 1080p remux exactly when its bare token is that tier |
| LibraryProps.NonRemuxFoldersAgree | Scripts/library.py:468-482 | outside remux the corrections change nothing and both follow the bare token (also lines 587-600) |
| LibraryProps.DvdUnreachable | Scripts/library.py:478-479 | the `DVD` branches are never taken, the resolution being lowercased (also lines 597-598) |
| LibraryProps.RemuxShowMisfiled | Scripts/library.py:462 | a remux show that says neither 2160 nor 4k is filed as 4K as written, and not after the correction |
| LibraryProps.RemuxMovieMisfiled | Scripts/library.py:580-584 | a 1080p remux movie goes to the generic remux folder as written, to the 1080p remux folder after the correction |
| LibraryProps.ContainsAt | Scripts/library.py:462 | an occurrence at any position counts as containment |
| LibraryProps.NotContains | Scripts/library.py:462 | a text cannot occur when its first character does not |
| LibraryProps.SeasonOfCanonical | Scripts/library.py:411-413 | the season read back from `S<a>E<b>` is `a` |
| LibraryProps.SplitPlain | Scripts/library.py:390 | a name without the separator splits into itself |
| LibraryProps.DigitsHaveNo | Scripts/library.py:389-398 | a digit string holds no letter or separator |
| LibraryProps.NumberPairIdentifier | Scripts/library.py:389-392 | `NxM` becomes `SNEM` and its season is `N` |
| LibraryProps.SeasonDigitsIdentifier | Scripts/library.py:393-395 | `S01` followed by digits becomes `S01E…` with season `01` |
| LibraryProps.EpDotIdentifier | Scripts/library.py:399-404 | `ep.N` takes the parent folder's season (or `01`) and keeps `N` |
| LibraryProps.SeasonEpisodeIdentifier | Scripts/library.py:387-413 | `S01E05` identifiers are kept and their season read back |
| LibraryProps.CaseInsensitiveIdentifier | Scripts/library.py:382-387 | corrected, a lowercase `s02e05` is kept and its season read back |
| LibraryProps.LowercaseIdentifierAsWritten | Scripts/library.py:382-409 | as written, `s02e05` falls through to `S01E01` and is filed under Season 1 instead of Season 2 |
| LibraryProps.SeasonEpisodePairIdentifier | Scripts/library.py:396-398 | corrected, `NeM` splits at its separator whatever the length of `N` |
| LibraryProps.SeasonEpisodePairAsWritten | Scripts/library.py:396-398 | as written, `NeM` takes two characters as the season |
| LibraryProps.ShortPairAsWritten | Scripts/library.py:396-398 | as written, `1e05` becomes `S1eE05` |
| LibraryProps.LongPairAsWritten | Scripts/library.py:396-398 | as written, `123e05` becomes `S12E3e05` |
| LibraryProps.SeasonOfMisparsed | Scripts/library.py:411-419 | the misparsed identifier is filed under Season 12 |
| LibraryProps.LongPairCorrected | Scripts/library.py:396-419 | corrected, `123e05` is filed under Season 123 |
| LibraryProps.SeasonFolder123 | Scripts/library.py:419 | season `123` gives the folder `Season 123` |
| LibraryProps.DigitsValueZeros | Scripts/library.py:419 | leading zeros do not change a number's value |
| LibraryProps.ZerosValue | Scripts/library.py:419 | a run of zeros is worth zero |
| LibraryProps.SeasonFolderDropsZeros | Scripts/library.py:419 | any zero-padded spelling of `n` gives the folder `Season n` |
| LibraryProps.ProcessFileIdempotent | Scripts/library.py:630-667 | a second `process_file` with the same destination changes nothing |
| LibraryProps.StableWhenLinked | Scripts/library.py:651-654 | a destination already linking to the source is left as it is |
| LibraryProps.StableWhenOccupied | Scripts/library.py:658-660 | a destination held by something other than a link is left as it is |
| LibraryProps.ProcessFileKeepsFiles | Scripts/library.py:630-667 | no regular file is removed or turned into anything else |
| LibraryProps.ReplacesStaleLink | Scripts/library.py:651-665 | a link at the destination to something else is replaced by a link to the source |
| LibraryProps.LeavesRealFile | Scripts/library.py:658-660 | a regular file at the destination stays and no link is made |
| LibraryProps.RunFilesKeepsFiles | Scripts/library.py:687-695 | the worker jobs of a directory keep every regular file |
| Anime.IndexFrom | MediaHub/processors/anime_processor.py:28-29 | the first position of `c` at or after `i`, none when `c` does not occur there |
| Anime.DropLeadingTag | MediaHub/processors/anime_processor.py:28 | dropping a leading `[...]` tag never lengthens the name nor adds a character |
| Anime.DropGroups | MediaHub/processors/anime_processor.py:29-32 | after removing the bracketed groups no opening bracket is followed by a closing one, and no character is added |
| Anime.Clean | MediaHub/processors/anime_processor.py:28-33 | cleaning never lengthens the name, and every character left is one of the name's or a blank |
| Anime.TitleTail | MediaHub/processors/anime_processor.py:37-42 | the optional `- title` tail: absent only over blanks, otherwise a non-empty ending of the name |
| Anime.DigitsAt | MediaHub/processors/anime_processor.py:37-42 | the run of digits starting at `i`, non-empty when a digit is there |
| Anime.RestOne | MediaHub/processors/anime_processor.py:37 | a match of the first pattern's tail fills the groups that pattern has |
| Anime.LastDash | MediaHub/processors/anime_processor.py:37 | the position of the last `-`, none when there is none |
| Anime.RestTwo | MediaHub/processors/anime_processor.py:38 | a match of the second pattern's tail fills the groups that pattern has |
| Anime.RestThree | MediaHub/processors/anime_processor.py:39 | a match of the third pattern's tail fills the groups that pattern has |
| Anime.RestFour | MediaHub/processors/anime_processor.py:40 | a match of the fourth pattern's tail fills the groups that pattern has |
| Anime.RestFive | MediaHub/processors/anime_processor.py:41 | a match of the fifth pattern's tail fills the groups that pattern has |
| Anime.RestSix | MediaHub/processors/anime_processor.py:42 | a match of the sixth pattern's tail starts at a `[` and fills its groups |
| Anime.RestAfter | MediaHub/processors/anime_processor.py:37-42 | a match of pattern `p`'s tail fills that pattern's groups |
| Anime.PatternRest | MediaHub/processors/anime_processor.py:37-42 | every tail match the pattern gives fills its groups |
| Anime.LazyName | MediaHub/processors/anime_processor.py:37-42 | the lazy `(.+?)` takes a non-empty proper prefix after which the tail matches, with the tail's groups |
| Anime.Match | MediaHub/processors/anime_processor.py:46 | a match's show name is a non-empty proper prefix of the cleaned name and the tail matches after it |
| Anime.FirstMatch | MediaHub/processors/anime_processor.py:45-47 | the first pattern, in list order, that matches; none iff no pattern matches |
| Anime.Pad | MediaHub/processors/anime_processor.py:50-62 | `zfill(2)` keeps the digits at the end and makes at least two characters |
| Anime.ShowNameOf | MediaHub/processors/anime_processor.py:49-72 | the show name holds no `.`, `_` or `-` and has no blank at either end |
| Anime.InfoAsWritten | MediaHub/processors/anime_processor.py:48-70 | as written, only patterns 1 and 3 give a season, padded to two digits; pattern 1 gives no title |
| Anime.Info | MediaHub/processors/anime_processor.py:48-70 | corrected, patterns 1, 3 and 4 give a padded season and every episode is digits |
| Anime.ExtractEpisodeInfoAsWritten | MediaHub/processors/anime_processor.py:23-81 | none iff no pattern matches the cleaned name |
| Anime.ExtractEpisodeInfo | MediaHub/processors/anime_processor.py:23-81 | none iff no pattern matches the cleaned name |
| Anime.DropTrailingTag | MediaHub/processors/anime_processor.py:112-114 | removing the trailing id tag leaves a prefix of the name |
| Anime.TrailingDigits | MediaHub/processors/anime_processor.py:105 | the length of the run of digits ending the name |
| Anime.TmdbIdOf | MediaHub/processors/anime_processor.py:105-107 | a found id is a non-empty digit string and the name ends with `{tmdb-<id>}` |
| Anime.FolderName | MediaHub/processors/anime_processor.py:109-114 | the folder name is a prefix of the proper name, all of it when tmdb folder ids are on |
| Anime.AnimeHead | MediaHub/processors/anime_processor.py:161 | `{show} - S{season:02}E` starts with the show name and is five characters plus the padded season longer |
| Anime.TitlePart | MediaHub/processors/anime_processor.py:162-163 | ` - {title}` is empty iff the title is, and otherwise ends with the title |
| Anime.AnimeFileName | MediaHub/processors/anime_processor.py:161-164 | the new name starts with `{show} - S{season:02}E`, ends with the old extension, and in between holds exactly the three-character episode field and the title part |
| AnimeProps.AnimeFileNameEpisode | MediaHub/processors/anime_processor.py:161-164 | the name is `{show} - S{season:02}E`, the episode zero-filled to three characters, ` - {title}` or nothing, then the extension; an episode of one to three digits gives a three-digit field with the episode's value |
| AnimeProps.ZFillValue | MediaHub/processors/anime_processor.py:161 | zero-filling a digit string keeps it digits with the same value |
| Anime.CleanedShowName | MediaHub/processors/anime_processor.py:95 | the parsed show name with `.` and `_` turned into blanks and stripped holds neither character |
| Anime.ChosenName | MediaHub/processors/anime_processor.py:159 | `episode_name or episode_title or ""`: TMDb's episode name when non-empty, else the parsed title, else nothing |
| Anime.ProcessAnimeShow | MediaHub/processors/anime_processor.py:83-179 | none iff `extract_anime_episode_info`, as written, does not parse the name; its episode is kept; a parsed season is kept, else the TMDb season when there is an id and a non-zero season, else `01`; the show name is the folder name of the found name, or of the cleaned parsed name; the show id comes from the found name; the name changes only when renaming with an id, and then it is `AnimeFileName` of the show, season, episode and the chosen episode name; the returned title is the chosen name when that renaming gives one, else the parsed title |
| AnimeProps.LowerConcat | MediaHub/processors/anime_processor.py:20 | ignoring case works piece by piece |
| AnimeProps.VideoFilesAreAnime | MediaHub/processors/anime_processor.py:17-20 | every `.mkv` or `.mp4` name, in any case, counts as anime |
| AnimeProps.NoGroupSlice | MediaHub/processors/anime_processor.py:29 | a piece of a name without bracket groups has none |
| AnimeProps.NoGroupCons | MediaHub/processors/anime_processor.py:29 | adding a character in front keeps a name group-free when it opens nothing that closes |
| AnimeProps.NoGroupCollapse | MediaHub/processors/anime_processor.py:33 | squashing blanks keeps a name group-free |
| AnimeProps.CleanSquashed | MediaHub/processors/anime_processor.py:28-33 | the cleaned name has single inner blanks, none at the ends, and no square-bracket group |
| AnimeProps.DropGroupsNone | MediaHub/processors/anime_processor.py:29-30 | a name without the opening bracket is kept |
| AnimeProps.CleanDropsExtension | MediaHub/processors/anime_processor.py:28-33 | a name without brackets cleans to its squashed stem |
| AnimeProps.CleanPlainName | MediaHub/processors/anime_processor.py:28-33 | an alphanumeric name with `.mkv` cleans to its squashed stem |
| AnimeProps.ShortestName | MediaHub/processors/anime_processor.py:37-42 | the lazy name is the shortest after which the tail matches |
| AnimeProps.ShortestShowName | MediaHub/processors/anime_processor.py:46 | a pattern's show name is the shortest that lets it match; no match means no length works |
| AnimeProps.FirstMatchIs | MediaHub/processors/anime_processor.py:45-47 | the first matching pattern is the one taken |
| AnimeProps.FirstMatchWins | MediaHub/processors/anime_processor.py:45-79 | the result is built from the first matching pattern's groups, as written and corrected |
| AnimeProps.RestSixNeedsGroup | MediaHub/processors/anime_processor.py:42 | the sixth pattern needs a `[...]` group |
| AnimeProps.PatternSixNeverMatches | MediaHub/processors/anime_processor.py:29-42 | the sixth pattern never matches a cleaned name, its groups having been removed |
| AnimeProps.NoDigitRun | MediaHub/processors/anime_processor.py:37-42 | no digits start at a non-digit |
| AnimeProps.EarlyRestsFail | MediaHub/processors/anime_processor.py:37-39 | the first three tails fail on a name without dashes or an `S`-number |
| AnimeProps.EarlyPatternsFail | MediaHub/processors/anime_processor.py:37-39 | the first three patterns fail on such a name |
| AnimeProps.DigitsToEnd | MediaHub/processors/anime_processor.py:40 | a digit run in an all-digit tail reaches the end |
| AnimeProps.PatternFourFails | MediaHub/processors/anime_processor.py:40 | pattern 4 fails when no `x` separates two numbers |
| AnimeProps.OneLetterName | MediaHub/processors/anime_processor.py:49-72 | a one-letter show name is kept |
| AnimeProps.OneBlankSquashed | MediaHub/processors/anime_processor.py:33 | a name with one inner blank is squashed |
| AnimeProps.TwoBlanksSquashed | MediaHub/processors/anime_processor.py:33 | a name with two separated inner blanks is squashed |
| AnimeProps.FourLayout | MediaHub/processors/anime_processor.py:40 | the positions of the parts of `c NxM` |
| AnimeProps.FourAlnum | MediaHub/processors/anime_processor.py:40 | `c NxM` is alphanumeric except for its blank |
| AnimeProps.FourClean | MediaHub/processors/anime_processor.py:28-33 | `c NxM.mkv` cleans to `c NxM` |
| AnimeProps.FourPlain | MediaHub/processors/anime_processor.py:37-39 | `c NxM` has no dash and no `S`-number |
| AnimeProps.FourMatch | MediaHub/processors/anime_processor.py:40 | pattern 4 matches `c NxM` with groups `c`, `N`, `M` and no title |
| AnimeProps.LateGroups | MediaHub/processors/anime_processor.py:66-70 | as written, patterns 4 to 6 take the episode from group 2 and the title from group 3 |
| AnimeProps.FourInfo | MediaHub/processors/anime_processor.py:66-70 | the result for `c NxM` as written and corrected |
| AnimeProps.FourFirst | MediaHub/processors/anime_processor.py:45-47 | pattern 4 is the first to match `c NxM.mkv` |
| AnimeProps.PatternFourAsWritten | MediaHub/processors/anime_processor.py:40-70 | as written, `c NxM.mkv` gives the season as the episode, no season, and the episode as the title |
| AnimeProps.PatternFourCorrected | MediaHub/processors/anime_processor.py:40-70 | corrected, `c NxM.mkv` gives episode `M`, season `N` padded and no title |
| AnimeProps.EpisodeLayout | MediaHub/processors/anime_processor.py:41 | the positions of the parts of `c Episode N` |
| AnimeProps.EpisodeAlnum | MediaHub/processors/anime_processor.py:41 | `c Episode N` is alphanumeric except for its two blanks |
| AnimeProps.EpisodeClean | MediaHub/processors/anime_processor.py:28-33 | `c Episode N.mkv` cleans to `c Episode N` |
| AnimeProps.EpisodePlain | MediaHub/processors/anime_processor.py:37-39 | `c Episode N` has no dash and no `S`-number |
| AnimeProps.EpisodeMatch | MediaHub/processors/anime_processor.py:41 | pattern 5 matches `c Episode N` with the number in group 3 |
| AnimeProps.EpisodeInfoOf | MediaHub/processors/anime_processor.py:66-70 | the result for `c Episode N` as written and corrected |
| AnimeProps.EpisodeEarly | MediaHub/processors/anime_processor.py:37-40 | patterns 1 to 4 fail on `c Episode N` |
| AnimeProps.EpisodeFirst | MediaHub/processors/anime_processor.py:45-47 | pattern 5 is the first to match `c Episode N.mkv` |
| AnimeProps.EpisodeWordAsWritten | MediaHub/processors/anime_processor.py:41-70 | as written, `c Episode N.mkv` gives no episode and `N` as the title |
| AnimeProps.EpisodeWordCorrected | MediaHub/processors/anime_processor.py:41-70 | corrected, `c Episode N.mkv` gives episode `N` and no title |
| AnimeProps.TrailingDigitsOf | MediaHub/processors/anime_processor.py:105 | digits after a non-digit are the trailing run |
| AnimeProps.TmdbIdRoundTrip | MediaHub/processors/anime_processor.py:105-107 | the id appended as `{tmdb-<id>}` is read back |
| AnimeProps.DropTrailingTagAt | MediaHub/processors/anime_processor.py:112-114 | the name is cut at the leftmost trailing tag |
| AnimeProps.FolderNameDropsId | MediaHub/processors/anime_processor.py:111-114 | with tmdb folder ids off, ` {tmdb-<id>}` is removed from the folder name |
| Tmdb.IntOf | MediaHub/api/tmdb_api_helpers.py:286 | `int()` succeeds iff the text is a non-empty digit string, and reads the number it spells (also lines 542-545) |
| Tmdb.NatOfDigits | MediaHub/api/tmdb_api_helpers.py:286 | a digit string without leading zeros is the decimal spelling of its value |
| Tmdb.DigitsPositive | MediaHub/api/tmdb_api_helpers.py:286 | a digit string not starting with `0` has a positive value |
| Tmdb.TitlePoints | MediaHub/api/tmdb_api_helpers.py:268-273 | 40 points iff the query equals the title or the original title, 0 iff it equals neither and no containment holds, 20 otherwise |
| Tmdb.YearOf | MediaHub/api/tmdb_api_helpers.py:279 | the year is the part of the date before the first `-` |
| Tmdb.SplitHead | MediaHub/api/tmdb_api_helpers.py:279 | the first piece of a split is a prefix without the separator |
| Tmdb.YearPoints | MediaHub/api/tmdb_api_helpers.py:275-284 | 30 points iff the years are equal, 15 or 0 otherwise; none only where two different year texts are compared and `int()` raises |
| Tmdb.LanguagePoints | MediaHub/api/tmdb_api_helpers.py:287-288 | 10 points for English, none otherwise |
| Tmdb.PopularityPoints | MediaHub/api/tmdb_api_helpers.py:294-298 | between 0 and 15 points, 0 for no popularity, proportional up to 100 |
| Tmdb.AnyEnglishCountry | MediaHub/api/tmdb_api_helpers.py:289-291 | the loop finds an English-speaking origin country iff there is one |
| Tmdb.CalculateScore | MediaHub/api/tmdb_api_helpers.py:249-300 | the score is the sum of the five terms and lies between 0 and 100; none iff the year comparison raises |
| Tmdb.YearScore | MediaHub/api/tmdb_api_helpers.py:275-284 | the year block as a step-by-step branch gives exactly the year term `YearPoints`: 30 on an equal year, 15 within one, none where `int()` of the date's year raises |
| Tmdb.Standard | MediaHub/api/tmdb_api_helpers.py:332-337 | the standard seasons are the non-zero ones |
| Tmdb.Specials | MediaHub/api/tmdb_api_helpers.py:332-337 | the special seasons are the zero ones |
| Tmdb.Choose | MediaHub/api/tmdb_api_helpers.py:351-377 | an answer picks one of the displayed seasons |
| Tmdb.SelectSeason | MediaHub/api/tmdb_api_helpers.py:321-377 | none for no seasons; auto-select takes the first standard season, else season 0; otherwise the answer picks from the display; the result is one of the seasons |
| Tmdb.SeasonsDisplayed | MediaHub/api/tmdb_api_helpers.py:343 | the display lists every season once |
| Tmdb.SeasonEpisode | MediaHub/api/tmdb_api_helpers.py:177-182 | an episode past the season's end maps to the episode between 1 and the total with the same remainder |
| Tmdb.EpisodeLabel | MediaHub/api/tmdb_api_helpers.py:163-193 | the label starts with `S`, the padded season and `E`, and ends with ` - ` and the name |
| Tmdb.SelectEpisode | MediaHub/api/tmdb_api_helpers.py:443-493 | a selected episode is within the season; auto-select takes episode 1; an answer is taken only when it is within range |
| Tmdb.ShowYear | MediaHub/api/tmdb_api_helpers.py:510 | `Unknown Year` without a date, else the part before the first `-` |
| Tmdb.ProperName | MediaHub/api/tmdb_api_helpers.py:555-567 | the name is `name (year)`, then the imdb or tvdb tag when configured, ending with the tmdb tag |
| Tmdb.ContainsInfix | MediaHub/api/tmdb_api_helpers.py:555-567 | a middle part is contained in the whole |
| Tmdb.ProcessChosenShow | MediaHub/api/tmdb_api_helpers.py:495-569 | the given id wins over the show's; the proper name is `ProperName` of the show; valid given numbers are kept, and selection runs only without them |
| TmdbProps.IntOfNatToString | MediaHub/api/tmdb_api_helpers.py:286 | `int(str(n)) == n` |
| TmdbProps.ContainsEmpty | MediaHub/api/tmdb_api_helpers.py:272 | the empty title is contained in any query |
| TmdbProps.UntitledEarnsContainment | MediaHub/api/tmdb_api_helpers.py:272-273 | a result without a title always earns the 20 containment points |
| TmdbProps.ExactTitleRanksFirst | MediaHub/api/tmdb_api_helpers.py:269-273 | an exact title scores at least as much as any other title |
| TmdbProps.NeighbourYear | MediaHub/api/tmdb_api_helpers.py:283-284 | a year one apart, in either direction, earns 15 points |
| TmdbProps.SameYear | MediaHub/api/tmdb_api_helpers.py:280-281 | the same year earns 30 points |
| TmdbProps.YearOfDate | MediaHub/api/tmdb_api_helpers.py:279 | the year of `y-rest` is `y` |
| TmdbProps.StandardFirst | MediaHub/api/tmdb_api_helpers.py:339-340 | the first standard season is the first non-zero season of the list |
| TmdbProps.NoStandardAllSpecial | MediaHub/api/tmdb_api_helpers.py:348-349 | without standard seasons every season is 0 |
| TmdbProps.SpecialsLast | MediaHub/api/tmdb_api_helpers.py:343 | in the display every season after a special is a special |
| TmdbProps.FirstAnswerPicks | MediaHub/api/tmdb_api_helpers.py:368-375 | an answer `k` in range picks the `k`-th displayed season |
| TmdbProps.WordsAreSkipped | MediaHub/api/tmdb_api_helpers.py:376-377 | a non-numeric answer is rejected and the prompt repeats |
| TmdbProps.SeasonEpisodeUnique | MediaHub/api/tmdb_api_helpers.py:182 | the mapped episode is the only one in range with the same remainder |
| TmdbProps.SeasonEpisodeWraps | MediaHub/api/tmdb_api_helpers.py:182 | adding a whole season's length maps to the same episode |
| TmdbProps.ModOfMultiple | MediaHub/api/tmdb_api_helpers.py:182 | the remainder of a multiple plus `m` is `m` |
| TmdbProps.AtLeastOnce | MediaHub/api/tmdb_api_helpers.py:182 | a positive multiple is at least the total |
| TmdbProps.FallbackLabel | MediaHub/api/tmdb_api_helpers.py:180-193 | the fallback label names the mapped episode padded to two digits |
| TmdbProps.ProperNameIdRoundTrip | MediaHub/api/tmdb_api_helpers.py:555-567 | the tmdb id is read back from the proper name |
| TmdbProps.ProperNameFolder | MediaHub/api/tmdb_api_helpers.py:567 | with tmdb folder ids off, the folder of a plain proper name is `name (year)` |
| MediaInfo.FirstKeyword | MediaHub/utils/mediainfo.py:27-30 | a keyword taken is one of the list and occurs in the source, ignoring case |
| MediaInfo.FirstKeywordIsFirst | MediaHub/utils/mediainfo.py:27-30 | the keyword taken is the first in list order found in the source, ignoring case; none iff none is found |
| MediaInfo.FindKeyword | MediaHub/utils/mediainfo.py:27-30 | the inner loop with its `break` finds the keyword `FirstKeyword` specifies |
| MediaInfo.ScanSources | MediaHub/utils/mediainfo.py:26-30 | the outer loop stores the match of the last source that has one |
| MediaInfo.LastOfTwo | MediaHub/utils/mediainfo.py:23-30 | over the file name and folder name, the folder's match wins, else the file's |
| MediaInfo.Scan | MediaHub/utils/mediainfo.py:26-30 | one category's loops store the folder's match, else the file's, else leave the key out |
| MediaInfo.ChannelsAt | MediaHub/utils/mediainfo.py:44 | a channel match is three characters, or six with a `DDP` prefix, and lies within the text |
| MediaInfo.ChannelsFrom | MediaHub/utils/mediainfo.py:44 | the match is the one at the leftmost position that has one |
| MediaInfo.FirstChannels | MediaHub/utils/mediainfo.py:43-47 | the channels come from the first source that has a match |
| MediaInfo.UpperRun | MediaHub/utils/mediainfo.py:51 | the length of the run of capitals starting at `i` |
| MediaInfo.UpperWords | MediaHub/utils/mediainfo.py:51 | every word found is a run of at least three capitals |
| MediaInfo.CodeOf | MediaHub/utils/mediainfo.py:55 | the map pairs long names with codes, both from the language list |
| MediaInfo.LanguageCodes | MediaHub/utils/mediainfo.py:58 | only valid words are kept, each mapped to a valid code |
| MediaInfo.FirstLanguages | MediaHub/utils/mediainfo.py:50-62 | the languages come from the first source that has any; none when no source has any |
| MediaInfo.FindChannels | MediaHub/utils/mediainfo.py:43-47 | the loop with its `break` finds what `FirstChannels` specifies |
| MediaInfo.FindLanguages | MediaHub/utils/mediainfo.py:50-62 | the loop with its `break` finds what `FirstLanguages` specifies |
| MediaInfo.ExtractMediaInfo | MediaHub/utils/mediainfo.py:14-88 | the dictionary built from the file name and its folder's name is `Expected` |
| MediaInfoProps.RecordKeeps | MediaHub/utils/mediainfo.py:29 | storing one key leaves every other key as it was |
| MediaInfoProps.RecordSets | MediaHub/utils/mediainfo.py:29 | storing a found tag makes the key hold it |
| MediaInfoProps.RecordKeepsLanguages | MediaHub/utils/mediainfo.py:61 | storing another key keeps the languages entry |
| MediaInfoProps.LanguagesKeep | MediaHub/utils/mediainfo.py:61 | storing the languages keeps every other key |
| MediaInfoProps.ExpectedKeys | MediaHub/utils/mediainfo.py:14-88 | each key is present iff its category matched, holding the folder's tag when it has one, else the file's; channels and languages take the file name first |
| MediaInfoProps.AssembleKeys | MediaHub/utils/mediainfo.py:19-88 | each key of the assembled dictionary holds what its category found |
| MediaInfoProps.FrontHolds | MediaHub/utils/mediainfo.py:26-47 | after the codec, Atmos and channel loops each of those keys holds what its category found, the video codec without dots, and no later key is present |
| MediaInfoProps.BackHolds | MediaHub/utils/mediainfo.py:50-86 | after the language and tag loops the languages key holds the found codes (absent when none), the resolution in capitals, the other tags as found |
| MediaInfoProps.BackKeeps | MediaHub/utils/mediainfo.py:50-86 | the language and tag loops leave the codec, Atmos and channel keys as they were |
| MediaInfoProps.FolderCodecWins | MediaHub/utils/mediainfo.py:26-30 | a codec in the folder name overrides the one in the file name |
| MediaInfoProps.FileNameChannelsWin | MediaHub/utils/mediainfo.py:43-47 | the file name's channel layout is kept whatever the folder says |
| MediaInfoProps.FileNameLanguagesWin | MediaHub/utils/mediainfo.py:50-62 | the file name's languages are kept whatever the folder says |
| MediaInfoProps.NoMatchNoKey | MediaHub/utils/mediainfo.py:70-74 | names with no resolution keyword leave the key out |
| MediaInfoProps.StoredShapes | MediaHub/utils/mediainfo.py:29-73 | the stored video codec has no dots and the stored resolution no lower-case letter |
| MediaInfoProps.LanguagesAreValid | MediaHub/utils/mediainfo.py:58 | every stored language is on the valid list |
| MediaInfoProps.LongNameToCode | MediaHub/utils/mediainfo.py:55 | a long name followed by its code maps to that code unless a later pair names it again |
| MediaInfoProps.ShortRunsIgnored | MediaHub/utils/mediainfo.py:51 | runs of fewer than three capitals are not words |
| MediaInfoProps.WholeRunTaken | MediaHub/utils/mediainfo.py:51 | a run of three or more capitals is taken whole |
| MediaInfoProps.DdpKept | MediaHub/utils/mediainfo.py:44-46 | a `DDP` prefix in any case is part of the stored channel text |
| Renamer.Sanitize | Scripts/tmdb_renamer.py:83-86 | a character survives iff it was in the name and is not one of the nine invalid ones |
| Renamer.EpisodeNameAsWritten | Scripts/tmdb_renamer.py:108 | as written, the new episode name starts with the show name exactly as TMDb gave it |
| Renamer.EpisodeName | Scripts/tmdb_renamer.py:108 | corrected, the new episode name starts with the sanitized show name and ends with the old extension |
| Renamer.MovieName | Scripts/tmdb_renamer.py:126-130 | the movie name starts with the sanitized title, followed by the year in parentheses when there is one, and ends with the old extension |
| Renamer.ReleaseYear | Scripts/tmdb_renamer.py:124 | a non-zero guessed year wins, else a non-empty fetched year; none iff neither exists |
| Renamer.NewName | Scripts/tmdb_renamer.py:97-141 | a name is built iff the guess is an episode or movie, TMDb matched, and an episode has a name; an episode's name uses the show name as TMDb gave it; otherwise the stop says which check failed |
| Renamer.Move | Scripts/tmdb_renamer.py:114-136 | `os.rename` moves the entry, replacing the target, and raises iff the source is missing |
| Renamer.ProcessFileSpec | Scripts/tmdb_renamer.py:92-141 | nothing changes unless the file is renamed |
| Renamer.RenameTo | Scripts/tmdb_renamer.py:109-137 | an existing target is left alone; otherwise the file is renamed into its own directory or the call raises; a rename replaces only a broken link |
| Renamer.Disk.constructor | Scripts/tmdb_renamer.py:92 | the disk starts with the given tree |
| Renamer.Disk.ProcessFile | Scripts/tmdb_renamer.py:92-141 | the method leaves the tree and outcome `ProcessFileSpec` specifies |
| RenamerProps.SanitizeClean | Scripts/tmdb_renamer.py:83-86 | a name without invalid characters is kept |
| RenamerProps.SanitizeIdempotent | Scripts/tmdb_renamer.py:83-86 | sanitizing twice is sanitizing once |
| RenamerProps.SanitizeAppend | Scripts/tmdb_renamer.py:83-86 | sanitizing works piece by piece, keeping the order |
| RenamerProps.SanitizeChar | Scripts/tmdb_renamer.py:85 | one character is dropped iff it is invalid |
| RenamerProps.ZFillDigits | Scripts/tmdb_renamer.py:108 | padding digits with zeros gives digits |
| RenamerProps.EpisodeNameUsesLabel | Scripts/tmdb_renamer.py:108 | the episode name is the show name as TMDb gave it, ` - `, the `SxxEyy - name` label, and the extension |
| RenamerProps.EpisodeNumbersPadded | Scripts/tmdb_renamer.py:108 | the season and episode are written with at least two digits |
| RenamerProps.NoSlashInDigits | Scripts/tmdb_renamer.py:108 | digits hold no `/` |
| RenamerProps.EpisodeNameIsName | Scripts/tmdb_renamer.py:107-109 | as written, the new episode name is a single path component iff the show name has no `/` |
| RenamerProps.CorrectedNameIsName | Scripts/tmdb_renamer.py:107-109 | with the show name sanitized too, the new episode name is always a single path component |
| RenamerProps.MovieNameHead | Scripts/tmdb_renamer.py:126-127 | the movie name starts with the sanitized title and, when there is one, the year in parentheses |
| RenamerProps.MovieNameTail | Scripts/tmdb_renamer.py:128-130 | a non-zero part adds ` - Part N` before the extension; with no year and no part the name is the title and the extension |
| RenamerProps.MovieNameNoSlash | Scripts/tmdb_renamer.py:126-130 | a movie name built from a year and extension without slashes has none |
| RenamerProps.SplitExtOfStem | Scripts/tmdb_renamer.py:108-130 | `splitext` of a stem followed by an extension gives them back |
| RenamerProps.EpisodeKeepsExtension | Scripts/tmdb_renamer.py:108 | a renamed episode keeps its extension |
| RenamerProps.RenameStaysInDirectory | Scripts/tmdb_renamer.py:109-115 | the rename stays in the file's directory under the new name and moves the file's entry there |
| RenamerProps.RenamedUnlessTaken | Scripts/tmdb_renamer.py:110-115 | in an existing directory, a file is renamed unless the target exists |
| RenamerProps.EpisodeRenamed | Scripts/tmdb_renamer.py:99-115 | an episode TMDb names is renamed to the episode name built from the replies with the raw show name, which stays in the file's directory iff that name has no `/` |
| RenamerProps.ShowSlashAsWritten | Scripts/tmdb_renamer.py:108-109 | as written, a show name with `/` does not survive as the file name |
| RenamerProps.ShowSlashCorrected | Scripts/tmdb_renamer.py:107-109 | with the show name sanitized, the new name lands directly in the file's directory |
| RealTimeMonitor.BrokenIn | MediaHub/utils/RealTime-Monitor.py:66 | the broken links of a list are exactly its links whose target does not exist |
| RealTimeMonitor.FindBrokenSymlinks | MediaHub/utils/RealTime-Monitor.py:61-69 | the walk loop returns the broken links of the walk, each directory's `files` before its `dirs`, all below the directory; in a rooted tree of normalised paths, every broken link below it |
| RealTimeMonitor.BrokenLinks | MediaHub/utils/RealTime-Monitor.py:64-67 | the scan loop keeps exactly the walked entries that are links to a missing target, in walk order |
| RealTimeMonitor.BrokenInWalk | MediaHub/utils/RealTime-Monitor.py:61-69 | the broken links the walk reaches are broken links below the directory; in a normalised tree they are every broken link below it |
| RealTimeMonitor.Listing | MediaHub/utils/RealTime-Monitor.py:85-121 | `os.listdir` succeeds iff the path is a directory or a link to one |
| RealTimeMonitor.Launches | MediaHub/utils/RealTime-Monitor.py:127-133 | every name not in the stored listing is launched |
| RealTimeMonitor.ScanDirs | MediaHub/utils/RealTime-Monitor.py:115-135 | a round never adds or drops a stored directory, and one that does not exit had a stored listing for every watched directory |
| RealTimeMonitor.InitDirs | MediaHub/utils/RealTime-Monitor.py:79-92 | the initial scan stores listings only for watched directories |
| RealTimeMonitor.ScanStops | MediaHub/utils/RealTime-Monitor.py:119-125 | once a round has exited, the remaining directories change nothing |
| RealTimeMonitor.InitStops | MediaHub/utils/RealTime-Monitor.py:82-92 | once the initial scan has exited, the remaining directories change nothing |
| RealTimeMonitor.Monitor.constructor | MediaHub/utils/RealTime-Monitor.py:81 | the monitor starts with no stored listings |
| RealTimeMonitor.Monitor.LogBrokenSymlinks | MediaHub/utils/RealTime-Monitor.py:94-112 | the deletion loop leaves the tree `CleanBroken` specifies and keeps the listings |
| RealTimeMonitor.Monitor.RemoveBrokenLinks | MediaHub/utils/RealTime-Monitor.py:104-112 | the deletion loop removes each link in turn, and its parent when that is left empty, stopping at the first removal that raises, as `RemoveLinks` specifies |
| RealTimeMonitor.Monitor.RemoveBrokenLink | MediaHub/utils/RealTime-Monitor.py:104-112 | one removal leaves exactly the tree and error of `RemoveOne` and keeps the stored listings |
| RealTimeMonitor.Monitor.InitialScan | MediaHub/utils/RealTime-Monitor.py:79-92 | the initial scan leaves the tree and listings `InitDirs` specifies |
| RealTimeMonitor.Monitor.ScanRound | MediaHub/utils/RealTime-Monitor.py:115-141 | a round stores the listings and launches `ScanDirs` specifies, then cleans the destination unless it exited |
| RealTimeProps.RemoveLinksShrinks | MediaHub/utils/RealTime-Monitor.py:104-112 | the deletions only remove entries; what stays is unchanged |
| RealTimeProps.AllLinksRemoved | MediaHub/utils/RealTime-Monitor.py:104-105 | with no error, every link handed over is gone |
| RealTimeProps.OnlyLinksAndParents | MediaHub/utils/RealTime-Monitor.py:104-112 | only the links and their parent directories are removed |
| RealTimeProps.DirsRemovedOnlyWhenEmpty | MediaHub/utils/RealTime-Monitor.py:109-111 | a directory is removed only after everything in it is gone |
| RealTimeProps.RemoveOneOnlyWhenEmpty | MediaHub/utils/RealTime-Monitor.py:104-112 | one removal keeps the tree valid, only removes entries, and removes nothing but the link and a directory all of whose children are gone |
| RealTimeProps.BrokenLinksGone | MediaHub/utils/RealTime-Monitor.py:94-112 | with no error, no broken link the walk reached remains; in a rooted tree of normalised paths, no broken link below the destination |
| RealTimeProps.CleanKeepsTheRest | MediaHub/utils/RealTime-Monitor.py:94-112 | entries that are neither broken links nor their parents are left as they were |
| RealTimeProps.ScanStoresListings | MediaHub/utils/RealTime-Monitor.py:119-135 | a round that does not exit stores each watched directory's new listing and keeps the others |
| RealTimeProps.LaunchesAreAdded | MediaHub/utils/RealTime-Monitor.py:127-133 | every launch is for a name in the new listing that the stored one lacked |
| RealTimeProps.AddedAreLaunched | MediaHub/utils/RealTime-Monitor.py:127-133 | every name added since the stored listing is launched |
| RealTimeProps.InitialScanCoversDirs | MediaHub/utils/RealTime-Monitor.py:82-85 | after an initial scan that did not exit, every watched directory has a stored listing |
| RealTimeProps.ScanRunsThrough | MediaHub/utils/RealTime-Monitor.py:119-125 | with every watched directory stored and present, a round does not exit |

## Left out

- Network access: every TMDb request and its answers are parameters.
  - This covers `search_tv_show`, `get_episode_name`, `get_external_ids`, the genre fetch behind `is_anime_genre`, and the season and year lookups in `anime_processor.py:98-148`.
  - `MediaHub/api/tmdb_api.py` is not part of this model.
- The classification helpers are per-file inputs (`Reconciler.Facts`): `process_show`, `process_movie`, `get_known_types`, `is_junk_file`, `get_anime_patterns`, and the long episode pattern at `symlink_creator.py:212-216`. Their bodies are not part of this model.
- The database helpers the reconciler calls (`get_destination_path`, `update_renamed_file`, the 3/4-argument `save_processed_file`, `search_database_silent`) are not part of this model.
  - The ledger they keep is a map from source to destination.
  - Its metadata columns (TMDb id, season number) are left out.
- `get_dest_index_from_db` and `update_single_file_index` are modelled as the `file_index` table of `State`.
- Concurrency: the thread pool of `create_symlinks` runs each task when it is submitted.
  - Results are taken in an arbitrary completion order, given as a permutation.
  - Interleavings of tasks that touch the same paths are not modelled.
- Logging, console output and the Rich interface are left out. So are the log files of the real-time monitor.
- Sleeping and the endless loops are left out. `PollingMonitor.Monitor.Pass` is one pass of the polling monitor's loop, and `RealTimeMonitor.Monitor.ScanRound` one round of `periodic_scan`.
- Interactive input: the answers the user types at `select_season` and `handle_episode_selection` are parameters, one list of lines.
  - Tmdb.SelectSeason: when the answers run out, it returns none rather than waiting for more input.
- Tmdb.PopularityPoints: popularity is a Dafny `real`, not a floating-point number. Rounding is not modelled.
- Tmdb.IntOf: only ASCII digit strings are accepted. Python's `int()` also accepts signs, surrounding blanks, underscores and other Unicode digits.
- Regular expressions are written out as the scans they perform.
  - `\w`, `\s`, `\d` and case folding are their ASCII versions, although Python's are Unicode-aware.
  - The `[A-Z]` class of `mediainfo.py:51` is exact.
- MediaInfo.FindKeyword: every keyword is searched for as literal text, ignoring case. The source treats each list differently:
  - VideoCodecs and AudioCodecs (`mediainfo.py:28,34`) escape only `.`. A `+` or other regular-expression syntax in a codec keyword is read as a pattern there.
  - DynamicRange (`mediainfo.py:66`) escapes only `+`. A `.` or other syntax in it is read as a pattern there.
  - AudioAtmos (`mediainfo.py:39`), Resolutions (`mediainfo.py:72`), MovieVersions (`mediainfo.py:78`) and StreamingServices (`mediainfo.py:83-84`) are used as raw regular expressions.
  - The model agrees with the source only for keywords with no regular-expression syntax left after that list's escaping.
- Paths are strings, and link targets are absolute paths. The walk's completeness (`FileTree.WalkComplete`) is proved for trees whose paths are normalised (no empty component, no trailing `/`); the other contracts hold for any strings.
  - Following a link goes one level.
- FileTree.MakeDirs and FileTree.ListDir do not follow a link to a directory. Python's `os.makedirs(..., exist_ok=True)` and `os.listdir` do follow one, for the directory itself and for its ancestors.
  - So when the destination directory, or one of its ancestors, is a link to a directory, placements fail in the model where the source succeeds: `Reconciler.PlaceLink` and `Library.ProcessFileSpec`.
  - Orchestrator.CreateSymlinksSpec and Library.CreateSymlinksSpec raise for the whole run when the destination directory is such a link, where `os.makedirs(dest_dir, exist_ok=True)` at `symlink_creator.py:413` succeeds.
  - SymlinkUtils.CheckAllSymlinks escapes when the destination directory is a link to a directory, where `os.listdir` at `symlink_utils.py:375` lists that directory.
  - SymlinkUtils.ExistingSymlinkInfo returns `ListFailed` when the ledger's directory is a link to a directory, where `os.listdir` at `symlink_utils.py:420` lists through the link.
  - `RealTimeMonitor` lists directories through one level of links, as its scan does.
  - The walks (`FileTree.Tree.Roots`) yield nothing when their top is a link to a directory, where `os.walk` lists the linked directory. Below the top they match `os.walk` with `followlinks` off: a link to a directory is listed under `dirs` but not descended into.
- Library.CopyTreeSpec: it copies in the top-down walk order, where `shutil.copytree` recurses into each subdirectory as it lists it. Only the order in which the copies are made differs.
- RealTimeMonitor.Monitor.ScanRound: launching the main script with `subprocess.run` is recorded only as the path it is given.
- The `.env` loading, the colour codes, and the `SLEEP_TIME` parsing of `RealTime-Monitor.py` are left out.
- `Monitor.py`, `Scripts/RealTime-Monitor.py`, `Scripts/service_manager.py`, `CineSync.py`, `MediaHub/main.py`, and the watchdog and inotify monitors are not part of this model.
- The subprocess `ls`/`rm` fallbacks of `delete_broken_symlinks` (`symlink_utils.py:176-214`, `302-340`) are left out. So is the Plex notification after a link is created.
- `symlink_utils.py:391` uses a `cursor` that is not defined there. The model treats the deletion as completing.
- Config.GetApiKey: `config.py:13-14` reads and sets `api_warning_logged` under `global`, but the config module never binds that name. So a missing or placeholder key raises `NameError` instead of returning `None`. The model returns none there.
  - `tmdb_api_helpers.py:16` calls `get_api_key()` when the module is imported, so without a key that import fails. Its own `api_warning_logged` (line 17) is a different, module-level name.
- `clean_query` (`file_utils.py:85-117`) is left out: its return type depends on the caller, read through `inspect.stack`.
- `check_existing_variations` of `Scripts/library.py` is the same search as the one in `file_utils.py`, with `normalize_name`. It is modelled once, in `FileUtils`.
- Renamer.ProcessFileSpec: a movie whose details cannot be fetched makes `get_movie_details(...)[1]` fail on `None`. That path is not modelled: the fetched year is an optional input.
  - The command-line walk over a directory in `tmdb_renamer.py` is left out.
- Renamer.Move: `os.rename` onto a broken link replaces the link. The target check uses `os.path.exists`, which is false for a broken link.
- Anime.ProcessAnimeShow: the year fetched from TMDb is left out of the returned record.
- PollingMonitor.ScanDirectories: the modification time stored with each file (`polling_monitor.py:184`) is left out. Change detection compares paths only, as the source does.
- Library.CreateSymlinksSpec: the destination of each file is a parameter, `destOf`. It stands for the path `process_file` computes at `Scripts/library.py:641-649`.
  - Not modelled: the episode search at line 641 that chooses between `process_show` and `process_movie`.
  - Not modelled: the show name and season, the TMDb lookup, the show folder and the variation search (lines 421-449).
  - Not modelled: the rename branch of `process_show` (lines 487-506) and the whole of `process_movie`, including its collection folders (lines 541-628).
  - The parts of that computation that are modelled are the resolution folders (`Library.ShowFolder`, `Library.MovieFolder` and their as-written twins), the identifier cascade (`Library.NormalizeIdentifier` and its twin) and the season folder (`Library.SeasonFolder`). They are not joined into a path.
- Reconciler.InstallLink: ledger writes are assumed to succeed. A failing `save_processed_file` is not modelled:
  - at `symlink_creator.py:364` it is inside the `try` of line 358, so the `except` at lines 384-389 catches it: the link stays, no row is written, and the call returns `None`;
  - at `symlink_creator.py:173` and `331` it escapes `process_file`. What happens next depends on the mode:
    - with auto-select, the result loop at lines 583-626 catches it at line 619 and sets `error_event` (line 625);
    - in sequential mode, `process_file` is called directly, and the `except` at lines 766-772 catches it. It logs the error, abandons the rest of that source directory's walk and goes on with the next source directory; `error_event` stays clear.
- FileUtils.BuildDestIndex: `build_dest_index` returns a Python set, which has no fixed order. `process_file` takes `next(...)` over it (`symlink_creator.py:156-164`), so when several indexed links target the source, the source does not fix which one is found. The model walks the index in walk order, and `Reconciler.ConflictCheck` records the first matching link in that order.

## Findings

| source | as written | input that shows it | evidently intended | confidence | as-written member | corrected member |
|---|---|---|---|---|---|---|
| Scripts/library.py:396-398 | in an `NeM` identifier, the first two characters are taken as the season and the rest as the episode | `123e05`: it becomes `S12E3e05` and is filed under Season 12 | the digits before the `e` are the season (Season 123, episode 05) | not executed | LibraryProps.LongPairAsWritten | LibraryProps.LongPairCorrected |
| Scripts/library.py:382-409 | the pattern is searched case-insensitively, but the branches that read it test for upper-case `S`, `E` and `x` | `s02e05`: no branch matches, so the default `S01E01` is used and the file is filed under Season 1 | the branches test case-insensitively, so the file goes to Season 2 | not executed | LibraryProps.LowercaseIdentifierAsWritten | LibraryProps.CaseInsensitiveIdentifier |
| Scripts/library.py:462 | `'2160' in file or '4k'` is always true, because a non-empty string is truthy | a remux show whose name has neither `2160` nor `4k` goes to the 4K remux folder | test `'4k' in file` as well | not executed | LibraryProps.RemuxShowAsWritten | LibraryProps.RemuxShowTier |
| Scripts/library.py:580-586 | the resolution of a remux carries a `Remux` suffix, so the tests for `1080p` and `2160p` never match it | a 1080p remux movie goes to the generic remux folder instead of the 1080p one | compare the resolution without its suffix | not executed | LibraryProps.RemuxMovieAsWritten | LibraryProps.RemuxMovieTier |
| MediaHub/processors/anime_processor.py:40,66-70 | for pattern four (`NxM`), group 2 is read as the episode and group 3 as the title, but that pattern has groups for the season and the episode | `A 1x05.mkv`: episode 1 with title `05` | season 1, episode 5 | not executed | AnimeProps.PatternFourAsWritten | AnimeProps.PatternFourCorrected |
| MediaHub/processors/anime_processor.py:41,66-70 | in the `Episode N` alternative of pattern five the number is group 3, and group 2, which belongs to the `Ep N` alternative, stays empty. Lines 66-70 read the empty group 2 as the episode and the number in group 3 as the title | `A Episode 5.mkv`: no episode, title `5` | episode 5 | not executed | AnimeProps.EpisodeWordAsWritten | AnimeProps.EpisodeWordCorrected |
| Scripts/tmdb_renamer.py:107-109 | the episode name is sanitized but the show name is not | the show `Fate/Zero`: the renamed file lands in a sub-directory `Fate` | sanitize the show name too | not executed | RenamerProps.ShowSlashAsWritten | RenamerProps.ShowSlashCorrected |
| MediaHub/processors/db_utils.py:23-29,41-49 | the archive table is created in the archive database file, but the rotation inserts into it through the main database's connection | a ledger of more than 100000 rows: the insert fails because the table does not exist, and nothing is archived | insert through the archive database | not executed | Ledger.ArchiveScenarioAsWritten | Ledger.ArchiveScenarioCorrected |
