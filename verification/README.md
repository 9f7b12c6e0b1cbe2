# A verified model of go-gather's file handling

This project models, in Dafny, the parts of go-gather that write files and pin URLs, and proves
what they promise:

* the **confined copy** of a directory (`CopyDirConfined`) and the plain copy it replaces
  (`CopyDir`);
* **archive extraction** by the tar and zip expanders: containment, a running byte budget,
  directory metadata set at the end, rollback;
* **atomic replacement** of a single file by the HTTP download and the bzip2 expander;
* **pinned URLs** of the git, OCI, HTTP and file gatherers, and the parsers that read them back.

`dafny verify dfyconfig.toml` checks everything.

## How it is built

`Os` is the operating system: a finite map from component paths to files (bytes and mode),
directories (mode) and symlinks (target text), with the times of nodes beside it. `Walk` resolves
names with symlink expansion, as section 4.13 of POSIX.1-2017 Base Definitions describes it, or
confined to a base directory as `os.Root` does. Every call consumes one tick, and the environment
decides for every tick whether the call fails and how much a failing write transfers. Listing
order, map traversal order, clock, umask, names of temporary files and the number of symlinks one
resolution may follow belong to the environment too. A theorem for all environments therefore
covers every point where a run can stop.

Code that changes state step by step is a method on a `Host`, an object that holds the current
world and records those it went through. Each method is proved to do exactly what a function on
worlds says (`ConfinedHost`, `PlainHost`, `ArchiveHost`), or directly to keep a property in every
recorded world (`Replace`). The theorems are about those functions.

| module | models |
|---|---|
| `Paths`, `RawPaths`, `Strings` | `filepath.Clean`, `filepath.Join`, the containment check; path texts as they are written against their cleaned form; text functions |
| `Os`, `Hosts`, `Frames` | file system, name resolution, calls, what calls leave alone |
| `Confined`, `ConfinedCopy`, `ConfinedAccept`, `ConfinedLocal`, `ConfinedHost`, `ConfinedTheorems`, `ConfinedCall` | the confined copy |
| `PlainCopy`, `PlainMerge`, `PlainHost`, `PlainTheorems` | the plain copy, against the confined one |
| `Budget` | limits and the byte budget, in 64-bit arithmetic |
| `Archives`, `ArchiveHost` | tar and zip extraction |
| `ExtractMeter`, `ExtractFaults` | the budget over a whole run; which failures are noticed |
| `ExpandCall` | whole calls of `Expand`, in terms of their arguments and options |
| `ExtractFrame`, `ExtractDown`, `ExtractTheorems` | containment of whole runs, with and without symlinks in the destination |
| `ExtractRollback`, `ExtractCases` | when a failed run leaves a destination behind, and when it deletes one; concrete inputs |
| `ExtractLinks`, `LinkCases` | where one entry goes among any symlinks; concrete inputs |
| `ExtractMeaning`, `ZipMeaning`, `UnpackResult`, `ExtractModes`, `Deferred`, `Measure` | what is extracted, modes and times, directory metadata, measured size |
| `GatherArchive` | the archive branch of `Gather`: expand, then measure |
| `Replace` | the HTTP download and the bzip2 expander |
| `Pins`, `GitPins`, `GitSubdir` | pinned URLs, and the subdirectory that a git URL selects |

## What the proofs found

* **Rollback and the text of the destination.** `Stat` and `RemoveAll` get the destination as it is
  written, entries go to its cleaned form. Something of an absent destination stays after a failed
  run exactly when the first entry got as far as making it and either `Stat` did not say that it
  does not exist, or its text does not lead to it when it is removed (`RollbackIff`,
  `ZipRollbackIff`; in terms of the start `RollbackFromStart`, `ZipRollbackFromStart`). A failing
  `Stat` is one such run (`RollbackNeedsStat`), but no failure is needed: with "a/../b", and no a,
  /b stays (`SidewaysStays`, `ZipSidewaysStays`).
* **Rollback can delete what was there.** `Stat` follows a symlink, `RemoveAll` does not: a
  destination that was there, written without "..", is deleted by a failed run exactly when it is a
  symlink that leads nowhere (`TarDstDeletedIff`, `ZipDstDeletedIff`, `DanglingDeleted`). And with
  "/d/x/..", and no x, an existing /d is emptied (`DipEmpties`). A destination without symlinks that
  `Stat` finds is kept, with all files that no entry names (`TarKeepsDst`, `ZipKeepsDst`).
* **The containment check and symlinks.** The check is lexical, as its comment says. If the
  symlinks in the destination lead downwards (no rooted target, no ".."), no list of entries and no
  failure changes anything outside it (`TarContained`, `ZipContained`), and the expanders never add
  a symlink (`UntarDown`, `UnzipDown`). With any other symlinks the extraction of one entry stays
  in the destination exactly when the place it touches, symlinks followed, is there, or holds
  already what the entry puts there (`TarStaysIff`, `ZipStaysIff`; `LinkLeadsOut` is a destination
  where it does not). In tar that includes the mode of an existing directory which a symlink leads
  to. Checking the entries one by one is not enough: a directory entry can make the name that a
  symlink was missing, and the next entry then goes out through it (`EachStays`,
  `TogetherLeave`).
* **The check is enough exactly when the destination does not end in ".."**, or is the root
  (`CheckIsEnoughIff`): for "..", "../y" passes the check as well.
* **A successful `Expand` can leave nothing to measure.** For an empty zip file, or a tar archive
  of extended headers only, into an absent destination, `Gather` fails after the extraction has
  succeeded (`GatherArchive.Gather`).
* **One call can leave a temporary file.** `createDownloadTemp` removes the file it reserved a
  name with. If that removal fails the file stays, and that is the only such case (`Leaks`, in the
  contract of `Replace.Gather`).
* **The 64-bit budget has an exact range.** It agrees with unbounded arithmetic exactly when the
  limit leaves room for one piece below 2^63 - 1 (`NoWrapIff`). A negative configured limit
  rejects nothing even when the counter wraps (`DisabledNeverRejects`), and without the guard for
  the largest limit the HTTP download would store every body empty (`GuardIsNeeded`).
* **A URL whose query begins with the depth is not pinned.** `GetPinnedURL` cuts at "?ref=" and
  appends "?ref=" and the commit. "…?depth=1" becomes "…?depth=1?ref=<commit>", which is read back
  with no ref and the depth "1?ref=<commit>". The pinned URL is read at the commit exactly when the
  query does not begin with the depth (`PinRoundTrip`, with the one other case named there; the
  pinned text in closed form is `PinOfUrl`).
* **Pinning drops the depth, and a subdirectory that is only in the query.** When the pinned URL is
  read at the commit, repository and directory are kept exactly when the directory is in the path,
  or there is none after "//" in the ref or the depth (`PinRoundTrip`).
* **The prefix of a git URL makes no difference to what it is read as**, so "file://host/path" is
  read as an https URL: only texts that begin like a local path are local (`ProcessMeaning`,
  `LocalPaths`).
* **Pinning twice is pinning once** for HTTP always, and for git, OCI and file URLs exactly when
  the stripped text does not begin with a scheme that would be stripped again.
* **`IsPathContained` with a root that cleans to "."** rejects every path; for all other roots it
  is containment of components (`ContainedIff`).
* `filePathPattern` has an unescaped dot, so a host such as `.x` counts as a local path; the model
  follows the code (`GitPins.FilePattern`, `GitPins.LooksLocal`).
* **The recursion of the confined copy addresses entries by the cleaned path**, so a relPath with
  ".." after a symlink is listed in one directory and looked up in another; the results are about
  every relPath whose cleaned form leads to the same place (`CleansAlike`).
* `CopyDir` accepts an existing file as the destination until there is an entry to copy into it
  (`OntoFile`), and follows symlinks wherever they lead, although its comment speaks of
  `os.ReadDir` doing that (`AbsoluteLinks`).

## Model

| member | source | states |
|---|---|---|
| Paths.CleanIdempotent | internal/helpers/helpers.go:33-34 | cleaning a cleaned path changes nothing |
| Paths.CleanCanonical | internal/helpers/helpers.go:33-37 | two texts have equal cleaned forms exactly when they agree on being rooted and on their components |
| Paths.ContainedIff | internal/helpers/helpers.go:32-42 | for every path and root the check holds exactly when the root's components are a proper prefix of the path's (and both or neither are rooted); a root that cleans to "." is the one exception and contains nothing |
| Paths.ContainedLocation | expand/tar/tar.go:193-196 | a path that passes the check leads, by real names only, properly below the place of the root, wherever the process runs and however the root is written, unless its cleaned form ends in ".." |
| RawPaths.CleanLeads | expand/tar/tar.go:193-206 | a cleaned text leads, through whatever symlinks there are, where its lexical place leads: ".." is at its front only |
| RawPaths.WalkKept | internal/helpers/helpers.go:104-125 | what a path leads to stays the same while nothing is deleted and nothing changes its kind or its target |
| ConfinedLocal.WalkStays | internal/helpers/copydir_confined.go:26-31 | resolution through the root ends inside the root, through any chain of symlinks and ".." |
| ConfinedLocal.WalkConfined | internal/helpers/copydir_confined.go:26-31 | such resolution gives the same answer on any two trees that agree below the root |
| ConfinedHost.ChildLookup | internal/helpers/copydir_confined.go:86-98 | looking up rel/name from the root finds the entry `name` of the directory rel led to, and for a symlink what it resolves to from there |
| ConfinedHost.CopyFileConfined | internal/helpers/copydir_confined.go:126-147 | the new state is that of the file copy of the specification: contents of the source file as it was at the start, mode set, for every pattern of failing calls |
| ConfinedHost.CopyDirConfinedIn | internal/helpers/copydir_confined.go:65-121 | the recursive procedure, reading from a host it is changing, does exactly the copy defined on the tree as it was at the start, and leaves that tree intact; it terminates on every symlink graph |
| ConfinedHost.CopyEntryConfined | internal/helpers/copydir_confined.go:84-119 | the same for one entry: symlink to a file followed, symlink to a directory or out of the root refused, directory descended into |
| ConfinedCall.RunMeaning | internal/helpers/copydir_confined.go:32-54 | the call in terms of its three arguments: in every run only dst changes, and missing directories on the way to it are made; on success root leads to a directory, relPath selects a real directory in it, and dst is the old one overlaid with that directory, dereferenced; fault-free it succeeds exactly when they do, every symlink there resolves in root to a file, and nothing at dst or on the way is of a conflicting kind |
| ConfinedCall.CopyDirConfined | internal/helpers/copydir_confined.go:32-54 | the same as contract of the procedure, from opening the root, and that its state is the one of the specification call by call, for every relPath whose cleaned form leads to the same directory |
| ConfinedHost.RealCleansAlike | internal/helpers/copydir_confined.go:85-86 | that holds for every relPath of real components, which the recursion's path cleaning leaves as it is |
| Confined.DirKeeps | internal/helpers/copydir_confined.go:65-121 | in every run, failed ones included, only dst and what is below it changes, apart from missing directories made on the way; nothing is deleted or changes its kind |
| ConfinedTheorems.CopyStaysInDst | internal/helpers/copydir_confined.go:32-121 | the same for the whole call, and no node below the root changes |
| ConfinedCopy.DirLaid | internal/helpers/copydir_confined.go:65-121 | after a successful copy each place at or below dst holds the dereferenced source node with its mode if there is one, and otherwise what it held |
| ConfinedTheorems.CopyIsOverlay | internal/helpers/copydir_confined.go:53-147 | a successful call leaves the old dst overlaid with the dereferenced source; an absent dst becomes exactly the dereferenced source |
| ConfinedAccept.DirFits | internal/helpers/copydir_confined.go:65-121 | a fault-free copy of a directory succeeds exactly when every symlink below resolves inside the root to a file and no destination node, nor one on the way, is of a conflicting kind |
| ConfinedTheorems.CopyAccepts | internal/helpers/copydir_confined.go:39-121 | the same for the whole call, which also needs relPath to be a directory and not a symlink to one |
| ConfinedLocal.DirSame | internal/helpers/copydir_confined.go:65-121 | two runs on hosts that agree below the root and around dst make the same calls with the same outcome and the same nodes, at every pattern of failures |
| ConfinedTheorems.CopyIsConfined | internal/helpers/copydir_confined.go:32-147 | noninterference: hosts that agree below the root and at dst, however they differ elsewhere, end with the same success and the same dst |
| PlainHost.CopyFile | internal/helpers/helpers.go:104-132 | state and success after CopyFile are those of the specification, self-copies and directories as sources included |
| PlainHost.CopyDirFrom | internal/helpers/helpers.go:52-98 | the recursive procedure, reading a host it is changing, does exactly the copy of the specification on the tree as it was at the start, for a source path that may lead through symlinks |
| PlainHost.CopyDir | internal/helpers/helpers.go:52-98 | the specification from the first call, a missing source included; everything outside dst is left alone; on success the source path led to a directory, and dst is the old one merged with it if its symlinks have nothing to do with dst |
| PlainHost.StartMeaning | internal/helpers/helpers.go:52-98 | the same of the specification, with exact fault-free acceptance into an absent dst, in terms of the source path |
| PlainHost.CopyEntry | internal/helpers/helpers.go:82-96 | the same for one entry |
| PlainCopy.PlainDirKeeps | internal/helpers/helpers.go:52-132 | whatever the symlinks of the source lead to, and whichever calls fail, only dst and what is below it changes, apart from missing directories on the way |
| PlainCopy.OntoFile | internal/helpers/helpers.go:67-96 | when dst is a file every entry of the source fails and nothing changes |
| PlainMerge.WalkReleased | internal/helpers/copydir_confined.go:28-31 | what resolves inside the root resolves to the same node without confinement |
| PlainMerge.WalkStable | internal/helpers/helpers.go:104-125 | what a source path leads to, through any symlinks, stays the same while only a destination without symlinks changes |
| PlainMerge.WalkStuck | internal/helpers/helpers.go:104-109 | a source path that leads nowhere still does, unless the name it misses is at the destination, below it or on the way to it |
| PlainMerge.PlainFileEffect | internal/helpers/helpers.go:104-132 | CopyFile of a file, or of a symlink to a file anywhere outside the destination, puts exactly that file's contents and mode at dst; fault-free it succeeds exactly when dst is no directory in an existing one |
| PlainTheorems.CopyDirMerges | internal/helpers/helpers.go:52-132 | after a successful CopyDir from a source whose symlinks have nothing to do with dst (they lead outside it, or nowhere for want of a name that is not at dst, below it or on the way to it), all of them lead to files, and dst is the old one merged with the source: symlinks replaced by the files they lead to, existing directories with their mode, new ones with the source's mode under the umask |
| PlainTheorems.CopyDirAccepts | internal/helpers/helpers.go:52-132 | such a CopyDir, fault-free and into an absent dst, succeeds exactly when only directories are on the way to dst and every symlink leads to a file |
| PlainTheorems.ConfinedRefinesPlain | internal/helpers/copydir_confined.go:32-147 | whatever the confined copy accepts into an absent dst CopyDir copies too unless a call fails, with the same names, contents and file modes; directory modes differ by the umask only |
| PlainTheorems.SameAcceptanceWithoutLinks | internal/helpers/helpers.go:52-98 | on sources without symlinks, fault-free, into an absent dst, the two copies succeed on the same inputs |
| PlainTheorems.AbsoluteLinks | internal/helpers/copydir_confined.go:92-105 | an absolute symlink to a file outside dst is refused by the confined copy, while CopyFile succeeds and dst then holds that file's contents and mode |
| PlainTheorems.ConfinedSize | internal/helpers/helpers.go:196-218 | after a confined copy into an absent dst the measured size is the sum of the sizes of the dereferenced source files |
| PlainTheorems.CopiedSize | gather/file/file.go:99-106 | the same after CopyDir, each symlink, absolute or not, counting with the file it leads to |
| PlainHost.GatherDirectory | gather/file/file.go:99-112 | the directory branch of Gather: on success dst is the merged copy and the reported size is that of what the copy left at dst; for an absent dst it is the size of the source, symlinks counting with the files they lead to |
| GitSubdir.CheckMeansCopy | gather/git/git.go:166-170 | for every subdirectory text: if its cleaned form does not go up, the check passes exactly when it is not the root itself, and the checked path is the place the cleaned components lead to from the clone; if it goes up, resolution in the root refuses it whether or not the check passes |
| GitSubdir.CopySubdir | gather/git/git.go:166-186 | a subdirectory that fails the check changes nothing; one that does not exist costs one call; on success the subdirectory selects a real directory in the clone and dst is the old one overlaid with it, dereferenced; exact fault-free acceptance; nothing outside dst changes but new directories on the way |
| Measure.GetDirectorySize | internal/helpers/helpers.go:196-218 | the walk changes no node and adds up, in any listing order, exactly the sizes at and below dir, symlinks counting with their own size; fault-free it fails only if dir does not exist |
| Measure.WalkDir | internal/helpers/helpers.go:203-213 | the same for the walk of one node, added to a running total |
| Measure.LeafSize | internal/helpers/helpers.go:208-210 | a file counts with the length of its contents, a symlink with the length of its target |
| Measure.MeasuredSizeIsBounded | gather/file/file.go:128-141 | after tar extraction into an absent dst the measured size is at most the counter and the limit, also when entries overwrite one another, and equals the counter when file entries name different places |
| Measure.ZipMeasuredSizeIsBounded | gather/file/file.go:128-141 | the same for zip |
| GatherArchive.Gather | gather/file/file.go:124-142 | the archive branch of Gather, with the expander's options and the mode 0755: on success the entries are unpacked in order and the reported size is that of what is at dst; fault-free it succeeds exactly when the extraction does and dst was there or some entry is a file or a directory; for an absent dst the reported size is at most the counter and within the configured total, and is the counter when file entries name different places |
| GatherArchive.UnpackedThere | gather/file/file.go:129-135 | after unpacking there is something at dst exactly when there was before or some entry is a file or a directory |
| Budget.Effective | expand/expander.go:96-135 | each of the three limits is the configured value if that is positive; 500 MiB, 1 GiB and 10000 stand for zero, the largest 64-bit value for a negative one |
| Budget.NoWrapIff | expand/expander.go:146-152 | the 64-bit budget equals the unbounded one, on all streams of pieces of at most c bytes and from all running totals, exactly when limit + c does not exceed the largest 64-bit value (c is 32 KiB in the expanders) |
| Budget.ExactBySum | expand/expander.go:146-152 | without a bound on integers a stream is accepted exactly when its total fits, so chunking does not matter, and the counter then is the sum |
| Budget.DisabledNeverRejects | expand/expander.go:114-123 | a limit configured as negative is never exceeded, wrapped or not |
| Budget.FeedEffect | expand/expander.go:158-161 | a bounded copy only appends to its file; what arrives is within the budget left; the counter is ahead of it by at most one piece, and exact on success; fault-free success exactly when all bytes fit |
| Budget.FeedNodes | expand/expander.go:158-161 | whatever the limit, only the contents of the one file change, and on success it received every byte |
| Budget.FeedAffords | expand/expander.go:146-161 | fault-free, exactly the bytes the 64-bit budget lets through are appended, whether the copy succeeds or not; on success they are all bytes |
| Budget.FeedSpends | expand/expander.go:146-161 | on success, and fault-free in any case, the byte loop spends the budget as the 64-bit arithmetic on lengths does, wrapped or not |
| ExtractMeter.TallyIsSum | expand/tar/tar.go:224-226 | the budget affords a list of entries exactly when the sum of their lengths fits, and the counter then is that sum, if the limit leaves room for one piece or the sum is within 64 bits |
| ExtractMeter.TallyDisabled | expand/expander.go:114-123 | a total limit configured as negative affords every list |
| ExtractMeter.BudgetHolds | expand/tar/tar.go:131-145 | over any entry list, chunking, failures and symlinks the bytes reaching files never exceed the archive-wide limit; the counter equals the sum of the lengths on success and is ahead of the bytes written by at most one piece otherwise |
| ExtractMeter.ZipBudgetHolds | expand/zip/zip.go:117-148 | the same for zip |
| ArchiveHost.LimitWriter.Write | expand/expander.go:146-152 | the shared counter grows by the length of the write in 64-bit arithmetic, before and regardless of the check; beyond the limit nothing is written |
| ArchiveHost.CopyBounded | expand/expander.go:158-161 | the loop over pieces leaves the state, the counter and the bytes landed that the specification of a bounded copy gives, and changes only the open file in every world on the way |
| ArchiveHost.WriteFile | expand/tar/tar.go:131-145 | create, copy within the budget, close: an error of Close counts, and the file is closed in any case |
| ArchiveHost.Untar | expand/tar/tar.go:150-262 | the loop with its counters and its map of headers ends in the state, counter and success of the specification |
| ArchiveHost.ExtractTarFile | expand/tar/tar.go:217-239 | parent directory if missing, file, times: the specification's step for a file entry from every loop state |
| ArchiveHost.AdjustDirectories | expand/tar/tar.go:241-259 | the deferred pass over the map in the given order |
| ArchiveHost.ExpandTar | expand/tar/tar.go:58-98 | open, Stat of dst, extraction and rollback: final state and success are those of the specification |
| ArchiveHost.ExtractFile | expand/zip/zip.go:128-150 | open the entry, then write it within the budget |
| ArchiveHost.Unzip | expand/zip/zip.go:79-124 | entry count up front, then the loop: state, counter and success of the specification |
| ArchiveHost.ExpandZip | expand/zip/zip.go:50-125 | the same as for tar, with zip's checks |
| Archives.EntryPlace | expand/tar/tar.go:193-218 | the target of an entry that passes the check is properly below dst, and the directory made for it is its parent and not above dst |
| Archives.EntryNamed | expand/tar/tar.go:193 | for every dst and name, the target is where the components of the name lead from the place of dst |
| Archives.PlaceInjective | expand/tar/tar.go:206-213 | entries with the same target have the same key in the map of directory headers |
| ExtractDown.UntarDown | expand/tar/tar.go:150-262 | any archive, any names, any destination, any failing calls: untar deletes nothing, changes no kind and adds no symlink; and if the symlinks below dst lead downwards, nothing outside dst changes but new directories on the way to it |
| ExtractDown.UnzipDown | expand/zip/zip.go:79-124 | the same for zip |
| ExtractTheorems.RemovesOnly | expand/expander.go:167-171 | for a text that passes through no symlink lexically, removal takes away exactly what is at and below its place, if it names that place and leads to it; otherwise it changes nothing, or, for a text that ends in "..", empties the place |
| ExtractTheorems.TarContained | expand/tar/tar.go:58-98 | a whole tar run, rollback included, with any archive, any names, any failing calls, into a destination whose symlinks lead downwards: nothing outside dst changes but new directories on the way to it |
| ExtractTheorems.ZipContained | expand/zip/zip.go:50-125 | the same for zip |
| ExtractRollback.MkdirReaches | expand/tar/tar.go:206-220 | making the directories for a path gets as far as an absent place exactly when the existing part of the way is a directory, which is confirmed by a look-up or, where look-ups fail, by going up and coming back with Mkdir and Lstat, and then no Mkdir up to that place fails |
| ExtractRollback.RollbackIff | expand/tar/tar.go:77-82 | a failed tar run leaves something of an absent dst exactly when the first entry that is no extended header was admitted, making its directories got as far as dst, and either Stat did not say that dst does not exist or its text does not lead to it when it is removed |
| ExtractRollback.ZipRollbackIff | expand/zip/zip.go:70-112 | the same for zip, where the count must be admitted too |
| ExtractRollback.RollbackFromStart | expand/tar/tar.go:77-82 | the same condition on the tree before the call, for every text of dst that does not pass through a place below the one it ends at |
| ExtractRollback.ZipRollbackFromStart | expand/zip/zip.go:70-112 | the same for zip |
| ExtractCases.RollbackNeedsStat | expand/tar/tar.go:80-82 | a family of runs that leave a dst which was absent: the Stat fails, a directory entry is made, the archive is damaged |
| ExtractCases.TarKeepsDst | expand/tar/tar.go:77-82 | a destination that was there, without symlinks, is not deleted by any run, and only files that entries name change in it, unless its text passes through a place below the one it ends at and leads nowhere at first |
| ExtractCases.ZipKeepsDst | expand/zip/zip.go:70-75 | the same for zip |
| ExtractCases.TarDstDeletedIff | expand/tar/tar.go:77-82 | a failed run deletes a destination that was there, written without "..", exactly when it is a symlink that leads nowhere, its text ends in its name, and opening the archive and Stat did not fail |
| ExtractCases.ZipDstDeletedIff | expand/zip/zip.go:70-75 | the same for zip |
| ExtractCases.SidewaysStays | expand/tar/tar.go:80-82 | with dst "a/../b", and no a, /b stays after a fault-free run on a damaged archive |
| ExtractCases.ZipSidewaysStays | expand/zip/zip.go:73-96 | the same for zip, with an entry that is too large |
| ExtractCases.DanglingDeleted | expand/tar/tar.go:80-82 | a destination /d that is a symlink leading nowhere is deleted by a run on an empty archive |
| ExtractCases.DipEmpties | expand/tar/tar.go:80-82 | with dst "/d/x/..", and no x, a run on a damaged archive deletes the file that was in /d |
| ExtractCases.CheckIsEnoughIff | internal/helpers/helpers.go:32-42 | the check keeps every entry at or below dst exactly when the cleaned dst does not end in ".." or dst is the root |
| ExtractLinks.MkdirAllLands | expand/tar/tar.go:206-220 | fault-free and with any symlinks about, MkdirAll makes nothing, or the directories from the place of the first missing one on, straight below one another |
| ExtractLinks.TarLands | expand/tar/tar.go:193-259 | one entry of any kind, fault-free, into a destination with any symlinks: only the place the entry touches, symlinks followed, and what is made below it change; an existing file keeps its mode and gets the bytes the budget lets through, an existing directory gets the entry's mode |
| ExtractLinks.ZipLands | expand/zip/zip.go:90-119 | the same for zip, which sets no modes of existing directories |
| ExtractLinks.TarStaysIff | internal/helpers/helpers.go:28-31 | such an extraction stays within dst exactly when, in the tree it starts from, that place is at or below dst, or holds already what the entry puts there |
| ExtractLinks.ZipStaysIff | internal/helpers/helpers.go:28-31 | the same for zip |
| LinkCases.LinkLeadsOut | internal/helpers/helpers.go:28-31 | a concrete destination with a symlink, and an entry that passes the check and is written outside it |
| LinkCases.EachStays | internal/helpers/helpers.go:28-31 | a concrete destination with a symlink, and two entries each of which stays in it |
| LinkCases.TogetherLeave | internal/helpers/helpers.go:28-31 | the archive of these two entries writes outside that destination |
| ExtractFaults.WriteFaults | expand/tar/tar.go:131-145 | a file that counts as written took exactly one call to open, one per piece and one to close, and none of them failed |
| ExtractFaults.TarFileFaults | expand/tar/tar.go:217-239 | the same for a tar entry once its directory is there, and the call that sets its times |
| ExtractFaults.ZipFileFaults | expand/zip/zip.go:116-150 | the same for a zip entry, and the call that opens it |
| ExpandCall.TarCall | expand/tar/tar.go:58-98 | a whole call, in terms of the options: success leaves the entries unpacked in order and their lengths as the counter; fault-free it succeeds exactly when the archive has an entry and ends properly, the entries can be unpacked and read, and number, declared sizes and total length are within what the options allow |
| ExpandCall.ZipCall | expand/zip/zip.go:50-125 | the same for zip, where the empty list is accepted and directories count against the limit on one entry |
| ExpandCall.TarCallFinal | expand/tar/tar.go:217-259 | after a successful call each file has the modification and access time of its last entry, and each directory with a header those of its last header and its mode, the time of the call standing for a missing one; a new directory without a header has 0755 under the umask |
| ExpandCall.ZipCallFinal | expand/zip/zip.go:103-150 | after a successful call new files have the mode of their first entry and new directories that of the caller, under the umask |
| ExtractMeaning.UntarMeaning | expand/tar/tar.go:150-262 | for every limit, disabled ones included: a successful untar leaves exactly the entries unpacked in order, with the counter their lengths add up to in 64 bits; fault-free it succeeds exactly when the list is not empty, the archive ends properly, the entries can be unpacked, count and declared sizes are within the limits and the budget affords the list |
| ZipMeaning.UnzipMeaning | expand/zip/zip.go:79-124 | the same for zip, where the empty list is accepted and directories count against the per-entry limit |
| ZipMeaning.TarZipAgree | expand/zip/zip.go:79-124 | on the same non-empty list without extended headers, with directory sizes within the per-entry limit, fault-free and for every total limit, tar and zip succeed on the same inputs and leave the same names, contents and counter |
| UnpackResult.UnpackIs | expand/tar/tar.go:165-239 | unpacking in closed form: at each place the last file entry for it wins, else what was there stays, else there is a directory if an entry called for one |
| UnpackResult.UnpackSize | expand/tar/tar.go:224-226 | unpacking adds at most the sum of the entry lengths to the size at dst, also when entries overwrite one another |
| UnpackResult.UnpackSizeExact | expand/tar/tar.go:224-226 | it adds exactly that sum when file entries name different places that hold no file |
| Deferred.HeadersAreLast | expand/tar/tar.go:213 | the map holds for each cleaned path the last directory header of the list, and nothing else |
| Deferred.DirectoriesAreFinal | expand/tar/tar.go:241-259 | after a successful untar every directory with a header has the mode, the modification time and the access time of its last header, the time of the call standing for a missing one |
| ExtractModes.FilesAreFinal | expand/tar/tar.go:217-239 | after a successful untar, under any faults it survived, a file's modification and access time are those of its last entry, the time of the call standing for a missing one; a place that no directory header names keeps the mode it had, or has the first file entry's mode, or 0755 for a directory, under the umask |
| ExtractModes.UnzipModes | expand/zip/zip.go:100-135 | the same rule for modes after a successful unzip, new directories having the caller's mode under the umask |
| Deferred.TarDirsOk | expand/tar/tar.go:241-259 | the deferred pass fails exactly when one of its two calls per directory does |
| Deferred.PassIsOrderFree | expand/tar/tar.go:242 | whatever order the map is traversed in, the pass succeeds alike and leaves the same nodes and times |
| Replace.LimitPlusOne | gather/http/http.go:185-194 | with one byte more than the limit the reader delivers the whole body if that fits and more than the limit otherwise, for every limit below the largest |
| Replace.SameAcceptance | gather/http/http.go:176-194 | for a truthful or unknown Content-Length the download accepts exactly the bodies the bounded copy of the expanders accepts, for every positive limit |
| Replace.DecodedIff | expand/bzip2/bzip2.go:87-96 | what a bzip2 run may store is the whole decoded stream exactly when it can be decoded and its length is within the limit, if the limit leaves room for one piece or the length is within 64 bits |
| Replace.DecodedByOptions | expand/bzip2/bzip2.go:87-96 | a stream of less than 2^63 bytes may be stored exactly when it can be decoded and its length is within both configured limits, zero standing for 500 MiB and 1 GiB and a negative value for none |
| Replace.Copy | gather/http/http.go:190-193 | the copy loop fills the file with the whole body or fails, counts its bytes, and changes only that file in every world on the way |
| Replace.CreateDownloadTemp | gather/http/http.go:232-247 | a new empty file beside the target with mode 0666 under the umask, or nothing new, except when the removal of the reserved name fails, which leaves a file; the target is untouched in every world on the way |
| Replace.PreserveMode | gather/http/http.go:200-204 | the temporary file keeps its contents and gets the mode of what the target's path leads to, symlinks followed, if that exists |
| Replace.MoveIntoPlace | gather/http/http.go:211-214 | the rename puts the complete file at the target or changes nothing; fault-free it fails only on a directory |
| Replace.DirsPrepared | gather/http/http.go:151-153 | making the target's directory adds directories on the way to it only, and none if the path leads to one through symlinks; fault-free it fails only on what is no directory |
| Replace.StoreBody | gather/http/http.go:176-214 | success only with the whole body, within the limit, at the target; otherwise, and in every world before, the target is untouched; fault-free success exactly when the body is readable, within the limits and the target is no directory |
| Replace.Discard | gather/http/http.go:164-169 | the cleanup leaves the target as it was and no new file beside it |
| Replace.Gather | gather/http/http.go:151-224 | in every world the run goes through the target holds its old node or the whole validated body, never a broken or oversized one, no other existing file is altered, and there is at most one new file beside it; a failed run leaves the target unchanged and no temporary file, with the one exception of the contract above, stated as an equivalence; exact fault-free acceptance in terms of the announced and the actual length; new directories have 0755, a new file 0666, under the umask; after a success no call but the look-up of the target had failed |
| Replace.Decode | expand/bzip2/bzip2.go:93-113 | from the temporary file on: bounded decode, mode 0644, rename; success, under any survived faults, only for a stream that can be decoded and that the budget affords |
| Replace.Expand | expand/bzip2/bzip2.go:49-116 | the same all-or-nothing promise for bzip2 in every world, with no exception for temporary files; fault-free acceptance in terms of both configured size limits; new directories have the caller's mode under the umask; after a success none of the calls after the directory had failed, the closing included |
| Pins.StripSchemes | gather/http/http.go:280-282 | the loop removes each scheme once, in order |
| Pins.HttpRepin | gather/http/http.go:276-284 | pinning a pinned HTTP URL changes nothing, for every URL |
| Pins.HttpPinned | gather/http/http.go:276-284 | an address has the same pinned URL, the address after "http::", whether it is written bare, with http://, https:// or http:: |
| Pins.FileRepinIff | gather/file/file.go:155-163 | pinning a pinned file URL changes nothing exactly when the stripped path does not begin with file:// |
| Pins.FilePinned | gather/file/file.go:155-163 | a path has the same pinned URL, the path after "file::", whether it is written bare, with file:: or file:// |
| Pins.OciRepinIff | gather/oci/oci.go:189-204 | pinning a pinned OCI URL changes nothing exactly when the stripped reference does not begin with oci:// or https:// |
| Pins.OciParsed | gather/oci/oci.go:238-247 | a reference without "::" and "://" is what its text parses to, written bare, with oci::, oci://, https:// or oci::oci:// |
| Pins.OciDropsRest | gather/oci/oci.go:238-241 | what follows a second "::" is dropped |
| Pins.OciPinned | gather/oci/oci.go:189-204 | written in any of these ways, its pinned URL is "oci::", the reference up to its own "@", "@" and the digest |
| Pins.OciRoundTrip | gather/oci/oci.go:189-247 | written in any of these ways, the pinned URL parses to the reference up to its own "@", followed by the pinned digest |
| GitPins.GitRepinIff | gather/git/git.go:206-220 | pinning a pinned git URL changes nothing exactly when what is left after stripping does not begin with git:// or https://, for every URL and commit |
| GitPins.SourceStripped | gather/git/git.go:245-255 | every prefix form of a URL of the grammar, SCP style and file schemes included, is stripped to the same host/path text |
| GitPins.LocalPaths | gather/git/git.go:257-263 | texts that begin like a rooted, relative, home or drive path are local |
| GitPins.ProcessMeaning | gather/git/git.go:241-297 | every URL of the grammar is read as its host and path, ref, depth and subdirectory, whatever the prefix and the order of the query; a subdirectory in the path has priority over one after "//" in the depth, and that over one in the ref |
| GitPins.PinOfUrl | gather/git/git.go:206-220 | the pinned URL in closed form: prefix git::, same host, path and subdirectory, and the commit as the only parameter; but a query that begins with the depth is kept, and the commit becomes a part of its last value |
| GitPins.PinRoundTrip | gather/git/git.go:206-297 | the pinned URL selects the same repository; it is read at the commit exactly when the query does not begin with the depth (or its ref is the commit followed by "//"); then the depth is gone, and the subdirectory is kept exactly when it is in the path or there is none in the query |

## Left out

- Network, TLS, DNS, credentials, git clone and checkout, OCI copy: bodies, trees and entry lists are arbitrary inputs instead.
- Decoding of gzip, bzip2, zip and tar, and safearchive's sanitising of names: entry lists have arbitrary names, kinds, sizes and contents, which is more general.
- The per-entry limit as a bound on actual bytes: the code compares the declared size only, and so does the model.
- Permission enforcement, file types other than files, directories and symlinks, hard links, device boundaries; modes are numbers that are stored and copied.
- Processes that change the file system at the same time; the whole run has it to itself.
- The cleanup calls that ignore their errors (`os.Remove`, `os.RemoveAll`) are taken to succeed.
- The text of errors, context cancellation, tilde expansion, registries of gatherers and expanders, matchers, magic numbers, registry patterns: lookups with one branch each.
- `CopyReader` and the `save` of single files in gather/file: straight-line code of the kind of `CopyFile`.
- ConfinedCall.CopyDirConfined: relPath and its cleaned form lead to the same directory, if to any; dst is disjoint from the root and without symlinks, because the copy reads and writes the same tree and `CopyDir` into its own subtree does not end.
- PlainHost.CopyDir: the directory the source path leads to is disjoint from dst, and dst is without symlinks, for the same reason.
- PlainTheorems.CopyDirAccepts: symlinks that lead into the destination, or miss a name below it or on the way to it, are not covered, because they may come to lead to a file while the copy runs.
- PlainTheorems.CopyDirMerges: the same symlinks.
- PlainTheorems.CopiedSize: the same symlinks.
- Archives.EntryPlace: a dst whose cleaned form ends in ".." is excluded here and in all results on extraction, because the check is then not enough, as `CheckIsEnoughIff` says.
- ExtractTheorems.TarContained: no symlink is at dst, on the way to it, or at a place its text passes through; those below it lead downwards. `ExtractLinks` says for one entry what happens with others.
- ExtractTheorems.ZipContained: as for tar.
- ExtractRollback.RollbackIff: no symlink is at a place the text of dst passes through; what the text leads to is asked of the tree in which it is removed, which for a text like "d/x/.." depends on whether an entry made d/x.
- ExtractRollback.ZipRollbackIff: as for tar.
- ExtractCases.TarDstDeletedIff: dst is written without ".."; `DipEmpties` is what can happen otherwise.
- ExtractCases.ZipDstDeletedIff: as for tar.
- Relative paths: given one, `MkdirAll` of the model looks up the directories above the current one too, which exist, and so counts more calls that can fail than the code makes.
- ExtractMeter.BudgetHolds: for limits with room for one piece below the largest 64-bit value, or lists of less than 2^63 bytes; beyond both the counter wraps, as `NoWrapIff` says, and more than the limit can be written.
- ExtractMeter.ZipBudgetHolds: as for tar.
- Measure.MeasuredSizeIsBounded: the same range of limits and lists.
- Measure.ZipMeasuredSizeIsBounded: the same range of limits and lists.
- Measure.GetDirectorySize: the sum is unbounded; the 64-bit counter of the code would wrap beyond 2^63 - 1 bytes. No symlink is on the way to the directory.
- ExtractLinks.TarLands: archives of one entry, without failing calls, into an existing real directory whose text leads somewhere.
- ExtractLinks.ZipLands: the same archives and destinations.
- GatherArchive.Gather: dst is written without ".." and without symlinks; recognising the kind of archive, and the gzip and bzip2 expanders in this branch, are not part of this model.
- Replace.Gather: the target is not named like a temporary file; its directory is there, reached through any symlinks, or as much of it as is there is reached without; the response status check and the request itself are not part of this model.
- Replace.Expand: the output name is the base name of the source without its extension, taken as a parameter; the target is not named like a temporary file; its directory as for the download.
- Pins.StripSchemes: the methods that pin and parse URLs are proved equal to functions with the same steps, and to fail exactly on empty arguments, and have no rows of their own; what those functions mean is stated by the lemmas about them.
- GitPins.ProcessMeaning: the parsing by net/url and giturls is modelled for the texts of the stated grammar only (unreserved characters of section 2.3 of RFC 3986, "/", a ref and a depth in the query); percent-encoding, ports, user information and `Encode` of further parameters are not part of this model.
- GitSubdir.CopySubdir: the subdirectory and its cleaned form lead to the same directory of the clone, if to any; a trailing slash makes resolution follow a symlink before it, as in POSIX, which is how the calls of `os.Root` are taken to behave too; cloning and checkout are not part of this model.
- Transfers are modelled as one write per piece; a copy without a byte limit is one write of the whole contents, whose failure may have transferred any part.
