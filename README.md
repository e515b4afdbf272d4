# QQtPatcher core, modelled in Dafny

QQtPatcher relocates a built Qt SDK. A Qt installation copied away from the
prefix it was configured with still records that old prefix in its qmake
executable, its core library and a number of text files. QQtPatcher rewrites
those records to the new location. This project models the core of that
program and proves properties of the model. The core is:

- **the probe** (`probe.dfy`, from `src/patch.cpp`). Step 1 makes the Qt
  directory and the new directory absolute and looks for qmake: first in
  `bin/` and then, for a directory named `bin`, inside that directory and,
  once it has moved up out of it, beside it. Step 2
  reads qmake's `-query` answer and takes the host and cross mkspecs, the Qt
  version and the old prefix from it. The module also covers the version
  verdict, `shouldForce` and `exitWhenSpacesExist`.
- **discovery and the patch run** (`patch.dfy`, from `src/patch.cpp`).
  Step 3 asks every registered patcher for its files and builds
  `patcherFileMap`. Step 4 backs each file up and patches it, stops at the
  first failure, and then copies the backups back with `QFile::copy`.
- **the backup store** (`backup.dfy`, from `src/backup.cpp`). It is a class
  with its backup directory, a temporary-directory flag and the list of files
  it has backed up.
- **the eight patchers** (`binary.dfy`, `cmake.dfy`, `la.dfy`, `pc.dfy`,
  `pri.dfy`, `prl.dfy`, `qmakeconf.dfy`, `qtconf.dfy`, from
  `src/patchers/`). For each there is a `findFileToPatch`, a `shouldPatch`
  where the source has one, and a `patchFile`.
- **the program** (`program.dfy`, from `src/main.cpp`). `ArgumentsAndSettings`
  together with `patcherFileMap` forms an `Engine` class. `RunProgram`
  follows `main`: prepare, warn about the version, patch unless the old and
  new locations are the same and nothing forces the patch, clean up, and
  return the exit code.

The Qt library calls the core relies on are modelled as functions. This
covers `QDir` paths and separators, `QString` trimming, splitting and
replacing, `QFile` reading, writing and copying, and reading a file line by
line. They live in `paths.dfy`, `text.dfy`, `files.dfy`, `textfile.dfy`,
`qtdir.dfy` and `settings.dfy`. `wrappers.dfy` holds `Option`, and
`settings.dfy` also holds `Outcome`, the result of a step that may end the
process.

How the model is built:

- **Files.** The file system is a value: a map from absolute path to a file
  with its bytes and its read and write permissions. The existing directories
  are a set. Directory listings are a given function of the directory and the
  name filters.
- **State.** The parts of the source that update state in place are
  imperative Dafny. Each patcher's `patchFile`, the `Backup` class, step 4,
  the `PrlPatcher` class with its warn-once flag, and the `Engine` class all
  work on a `Disk` object that holds the map. Each method is proved against a
  specification function of the old state, and the lemmas are stated about
  those functions.
- **Reading.** A patcher's read loop maps a text file, split into lines, line
  by line. `shouldPatch` is a scan for the first line that triggers. The main
  patcher properties are:
  - the rewritten file reads back as the rewritten lines;
  - for the `.la`, `.pc`, `.pri` and CMake patchers, no rewritten line
    triggers the scan again, so a second run does not select a file that
    has been patched (their `PatchFileIdempotent` lemmas);
  - every relocated entry names the new location.

  The `.prl` patcher is not idempotent. Its `shouldPatch` stops at a relative
  file entry whose directory resolves to the old lib directory, but its
  `patchFile` moves only absolute entries. Such an entry is written back
  unchanged, and the file is selected again (`Prl.RelativeEntryKept`,
  `Prl.RelativeEntryStillSelected`). A Qt 4 `QMAKE_PRL_BUILD_DIR` value can
  be selected again as well: it moves to the same relative place under the
  new directory, and when the new directory lies under the old one, that
  place is again inside the old prefix (`Prl.BuildDirSelectedIffMoved`,
  `Prl.BuildDirInsideOld`).
- **The code as written.** The run of the program, from step 1 to the exit
  code, is built from the code's behaviour throughout, the defects listed
  under Findings included:
  - step 1 searches for qmake with `Probe.LocateAsWritten`;
  - the binary patcher writes `Binary.PlusPathAsWritten`, the marker and the
    new location with no terminating zero byte. The library reads the
    location back as a C string, up to the first zero byte (`Binary.CString`),
    so a zero byte after the new location is what makes it read back exactly
    (`Binary.TerminatedReadsBack`);
  - the libtool patcher moves a file entry with `La.MovedFileAsWritten`,
    which keeps only the base name;
  - the qmake.conf patcher is `QmakeConf.PatchFileAsWritten`, which writes
    the name relative to the current directory;
  - step 4 restores with `Backup.Backup.RestoreAllAsWritten`, which does not
    overwrite.

  Each defect has a lemma that exhibits it. The corrected form of each is a
  separate member, with the intended property proved about it, and the run
  does not use it.

## Model

| member | source | states |
|---|---|---|
| Probe.BinSearch | src/patch.cpp:49-56 | the first loop finds qmake exactly when bin/qmake or bin/qmake.exe is under the directory, the later one present wins, and the default program "qmake" is kept otherwise |
| Probe.AsWrittenTwo | src/patch.cpp:59-65 | the second loop as written, over two names, is two turns that each look in the directory reached so far |
| Probe.InBin | src/patch.cpp:58-66 | corrected half of the bin-directory finding: the second loop with every name looked up in bin itself finds qmake exactly when qmake or qmake.exe is in bin and cdUp succeeds; then the parent of bin is the Qt directory and the program is bin/<name> |
| Probe.Locate | src/patch.cpp:49-66 | corrected half of the bin-directory finding: qmake is found as bin/qmake(.exe) under the directory, or, for a directory named bin, as qmake(.exe) inside it with its parent as Qt directory; not found exactly when neither search hits |
| Probe.LocateAsWritten | src/patch.cpp:49-66 | the search step 1 runs: qmake is found in exactly the cases the corrected search finds it; it is bin/qmake(.exe) under the directory, or, for a directory named bin, bin/<name> for a name found in bin or beside it, with the parent or grandparent of bin as Qt directory; not found leaves the directory unchanged |
| Probe.InBinAsWrittenFinds | src/patch.cpp:58-66 | the second loop as written, started in bin, finds qmake exactly when bin holds qmake or qmake.exe and has a parent; it then stands one or two levels above bin, naming a file found in bin or beside it |
| Probe.SearchQtDir | src/patch.cpp:49-56 | the first loop's directory, program and flag are BinSearch |
| Probe.SearchBinDir | src/patch.cpp:58-66 | the second loop, looking each name up in the directory it has reached, yields the directory, program and flag of InBinAsWritten |
| Probe.Step1 | src/patch.cpp:29-86 | the outcome is Step1Spec, built on LocateAsWritten: a missing Qt directory, a missing qmake or whitespace in the new directory end the process, otherwise the absolute directories and qmake |
| Probe.Step1Fails | src/patch.cpp:38-83 | step 1 ends the process exactly when the named Qt directory is missing, qmake is found by neither loop, or the absolute new directory holds whitespace |
| Probe.Step1Finds | src/patch.cpp:43-85 | after a successful step 1 the new directory is absolute without whitespace, and qmake is bin/qmake(.exe) under the named directory, or, for a directory named bin, bin/<name> relative to its parent or grandparent, which becomes the Qt directory, for a name found in bin or beside it |
| Probe.Step1PrefersExe | src/patch.cpp:51-56 | when bin/qmake.exe is there it is the program chosen |
| Probe.InBinClimbsTwice | src/patch.cpp:59-65 | as written, after the first hit and cdUp the loop looks up qmake.exe in the parent of bin and, when it is there, moves up once more |
| Probe.LocateAsWrittenDiffers | src/patch.cpp:58-66 | with qmake in bin and a qmake.exe beside bin, the corrected search settles on the parent of bin and bin/qmake, where the search as written settles on the grandparent and bin/qmake.exe |
| Probe.InBinFirstOnly | src/patch.cpp:59-65 | the corrected loop over two names, when only the first is in bin, moves to the parent of bin with bin/<first> |
| Probe.StripEol | src/patch.cpp:121 | readLine returns a prefix of the line |
| Probe.StripEolOf | src/patch.cpp:121 | readLine drops exactly the line's "\n" or "\r\n" |
| Probe.ReadLines | src/patch.cpp:119-121 | one line read per line of the answer, each with its line ending dropped |
| Probe.KeyValue | src/patch.cpp:122-126 | no key exactly when the line has no ':'; otherwise the key has no ':' and key, ':' and value rebuild the line |
| Probe.KeyValueOf | src/patch.cpp:122-126 | a key without ':' and any value are read back from "key:value" |
| Probe.ApplyLine | src/patch.cpp:122-146 | one line changes at most the host mkspec, the cross mkspec, the version and the old directory, and adds at most one warning after the earlier ones |
| Probe.Step2Spec | src/patch.cpp:162-163 | step 2 goes on exactly when the probed old directory holds no whitespace |
| Probe.ApplyStep | src/patch.cpp:120-147 | reading one more line applies it to the state the earlier lines left |
| Probe.Step2 | src/patch.cpp:116-164 | the outcome of the parse loop and the whitespace check is Step2Spec |
| Probe.LastLineWins | src/patch.cpp:120-147 | each of the four keys sets its setting to the value of its last line, QT_INSTALL_PREFIX through the absolute path; a setting no line names keeps its value, and nothing else changes |
| Probe.LineFields | src/patch.cpp:128-146 | the one setting a line sets, by its key, and its new value |
| Probe.NoColonIgnored | src/patch.cpp:123-124 | a line without ':' changes nothing |
| Probe.HostSpecLine | src/patch.cpp:128-133 | a QMAKE_SPEC line sets the host mkspec and warns exactly when one was configured and the probed value does not contain it |
| Probe.CrossSpecLine | src/patch.cpp:134-139 | a QMAKE_XSPEC line sets the cross mkspec and warns exactly when one was configured and the probed value does not contain it |
| Probe.VersionLine | src/patch.cpp:140-144 | a QT_VERSION line sets the version and warns exactly when one was configured and the probed value differs |
| Probe.PrefixLine | src/patch.cpp:145-146 | a QT_INSTALL_PREFIX line sets the old directory to the absolute path of its value and never warns |
| Probe.ValueKeepsColons | src/patch.cpp:122-126 | only the first ':' separates key and value, so a value holding ':' is kept whole |
| Probe.VersionVerdict | src/patch.cpp:231-268 | silent exactly for Qt 5.6+ host or Android builds and Qt 4.8 Windows host builds; other Qt 4 and Qt 5 before 5.6 are not supported, Qt 6+ is to do, and the xplatform warning names the cross mkspec |
| Probe.AndroidSupported | src/patch.cpp:256-266 | an Android cross build of Qt 5.6 or later draws no warning |
| Probe.Qt4CrossRefused | src/patch.cpp:247-250 | a Qt 4.8 cross build is refused even for a Windows mkspec |
| Probe.ForceIffEqual | src/patch.cpp:226-229 | with both directories absolute, shouldForce holds exactly when they are the same text |
| Probe.TrailingSlashForces | src/patch.cpp:226-229 | a new location written with a trailing '/' after the old prefix names the same directory, so the patch is forced |
| Probe.ForceSymmetric | src/patch.cpp:226-229 | shouldForce does not depend on which directory is old and which new |
| Probe.ExitWhenSpacesExist | src/patch.cpp:270-282 | true exactly when neither directory holds whitespace; otherwise the first offending directory is named |
| Probe.SpacesAlreadyFatal | src/patch.cpp:82-83 | steps 1 and 2 already end the process on whitespace in either directory (patch.cpp:162-163), so the later check always passes |
| Patch.FindFiles | src/patch.cpp:169-174 | a new instance of the patcher returns the files its findFileToPatch finds |
| Patch.PatchWith | src/patch.cpp:194 | the result and the new disk are those of the patcher's patchFile, for qmake.conf the one that writes the name relative to the current directory |
| Patch.Discovered | src/patch.cpp:167-183 | patcherFileMap holds exactly the registered patchers that found files, each with the files it found |
| Patch.Step3 | src/patch.cpp:167-183 | the map step 3 builds is Discovered |
| Patch.InKeyOrder | src/patch.cpp:190-191 | the entries visited are exactly the map's patchers named in the key order, each with its files |
| Patch.KeyOrderOnce | src/patch.cpp:190 | a key order that names each patcher once visits each patcher at most once |
| Patch.PlanIsDiscovery | src/patch.cpp:190-191 | step 4 visits every patcher that found files exactly once, with those files, and nothing else |
| Patch.EntryJobs | src/patch.cpp:192 | one job per file a patcher found, in the same order |
| Patch.RunStep | src/patch.cpp:192-200 | running one more job applies it to the state the earlier jobs left, unless a patch has failed |
| Patch.RunStops | src/patch.cpp:198-203 | after a failure nothing more is done |
| Patch.RunAppend | src/patch.cpp:190-204 | running two lists of jobs one after the other is running them together |
| Patch.FirstFailure | src/patch.cpp:194-203 | when the run fails, some job failed after all before it succeeded, and nothing after it was done |
| Patch.SuccessMeansAllPatched | src/patch.cpp:194-209 | a successful run had every patch on the way succeed |
| Patch.RefusedBackupStillPatched | src/patch.cpp:193-194 | a file whose backup is refused is patched all the same, and nothing is recorded for it |
| Patch.RunRecords | src/patch.cpp:190-204 | the run records at most one backup per job, each a path without ".." |
| Patch.Step4Spec | src/patch.cpp:186-210 | step 4 reports success exactly when every patch of the run succeeded; on failure the backups are copied back with QFile::copy, which overwrites nothing |
| Patch.PatchEntry | src/patch.cpp:192-200 | the inner loop over one patcher's files leaves the disk, the backup records and the failure flag the run of its jobs describes |
| Patch.Step4 | src/patch.cpp:186-210 | the result and the new disk are Step4Spec of the old disk: the run, the backups copied back as written on failure, and a temporary backup directory removed |
| Patch.FailedRunKeepsPatched | src/patch.cpp:186-210 | after a failed run, every file outside a temporary backup directory that the run left keeps, through step 4, the content the run gave it |
| Patch.JobsAppend | src/patch.cpp:190-192 | the jobs of a plan are those of its entries, one entry after the other |
| Patch.PlanStep | src/patch.cpp:190-204 | one more turn of the outer loop runs the next patcher's jobs |
| Patch.PlanStops | src/patch.cpp:202-203 | leaving the outer loop, by failure or at the end, leaves the whole run decided |
| Backup.BackupDirOf | src/backup.cpp:25-33 | the configured backup directory when one is set; with none configured and no temporary directory, the current directory |
| Backup.BackupSpec | src/backup.cpp:47-65 | a path is accepted exactly when its cleaned form has no ".."; an accepted path's cleaned form is appended to the records; a refused one changes neither files nor records; no existing file changes |
| Backup.Moves | src/backup.cpp:69-72 | one copy per record, in recording order, from the backup directory to the Qt directory under the same relative path |
| Backup.ReplayAsWrittenKeepsPresent | src/backup.cpp:69-72 | copying back with QFile::copy leaves the files unchanged while every destination still exists |
| Backup.PatchedSurvivesRestore | src/backup.cpp:67-76 | as written, a file that was backed up and then patched keeps its patched content through restoreAll |
| Backup.ReplayAsWrittenKeeps | src/backup.cpp:69-72 | copying back with QFile::copy leaves every file that exists when it starts as it was |
| Backup.BackupsKept | src/backup.cpp:69-72 | the corrected restore leaves every backup unchanged |
| Backup.ReplayRecovers | src/backup.cpp:69-72 | the corrected restore puts every readable backup in place of its file under the Qt directory |
| Backup.BackupRestoreRoundTrip | src/backup.cpp:47-76 | backing a readable file up, changing anything but its backup, then restoring with the corrected restore gives the file its original content |
| Backup.Backup.constructor | src/backup.cpp:22-38 | the backup directory is the configured one, or else the temporary one; the store is temporary exactly when none was configured and a temporary directory exists; no records |
| Backup.Backup.BackupOneFile | src/backup.cpp:47-65 | result, files and records are those of BackupSpec; the directories are kept and every record stays free of ".." |
| Backup.Backup.RestoreAllAsWritten | src/backup.cpp:67-76 | the restore step 4 runs: copies every record back with QFile::copy in recording order, clears the records and returns true |
| Backup.Backup.RestoreAll | src/backup.cpp:67-76 | corrected half of the restore finding, not used by step 4: every readable backup replaces its file, the records are cleared, and the result is true |
| Backup.Backup.CopyBack | src/backup.cpp:69-72 | the loop leaves the files the replay of all recorded copies gives |
| Backup.Backup.Destroy | src/backup.cpp:78-83 | the backup directory is removed with everything under it and the records are cleared |
| Backup.Backup.Finish | src/backup.cpp:40-45 | only a temporary backup directory is removed; otherwise no file changes |
| Binary.Table | src/patchers/binary.cpp:195-206 | Qt 4 gets the eleven-entry table and every other major version the three Qt 5 prefixes; every marker is twelve characters ending in '='; Qt 5 entries have no suffix |
| Binary.NewLocation | src/patchers/binary.cpp:216-219 | the cleaned absolute path of newDir plus the suffix: exactly that path in forward slashes for Qt 5 and on Unix, in native separators for any other major version; either form names the same absolute path |
| Binary.PlusPathAsWritten | src/patchers/binary.cpp:215-219 | as written, the bytes written at a hit are the marker's bytes followed by the new location's bytes, with no terminating zero |
| Binary.PlusPath | src/patchers/binary.cpp:215-219 | corrected half of the zero-byte finding, not used by the patch run: the marker, the new location and a terminating zero byte; without the zero it is the bytes as written |
| Binary.IndexOf | src/patchers/binary.cpp:214 | QByteArray::indexOf: -1 or a position at or after the cursor where the marker occurs |
| Binary.IndexOfFirst | src/patchers/binary.cpp:214 | indexOf finds an occurrence and never one past the first occurrence from the cursor |
| Binary.Overwrite | src/patchers/binary.cpp:220 | QByteArray::replace(index, len, after) with len the length of after: the length is kept when the range fits, else the array ends with what was written |
| Binary.OverwriteFrame | src/patchers/binary.cpp:220 | an overwrite that fits keeps the length, writes the range and changes no byte outside it |
| Binary.OverwriteGrows | src/patchers/binary.cpp:220 | an overwrite that does not fit cuts the array at the index and appends what was written |
| Binary.ScanStep | src/patchers/binary.cpp:214-222 | one turn: the cursor strictly advances past the written bytes, the bytes left to scan strictly decrease, and the scan resumes after the write |
| Binary.ScanDone | src/patchers/binary.cpp:214 | with no hit after the cursor the scan changes nothing |
| Binary.ScanKeepsPrefix | src/patchers/binary.cpp:214-222 | the scan never changes what lies before the cursor |
| Binary.FirstHitKept | src/patchers/binary.cpp:220-221 | the first hit holds the replacement when the scan is over: what is written is never scanned again |
| Binary.HitAfterWrite | src/patchers/binary.cpp:220-221 | an occurrence after the written range was already there before the write |
| Binary.ScanWritesHits | src/patchers/binary.cpp:214-221 | every hit of one marker's scan, not only the first, holds the marker and the new location when the scan is over |
| Binary.ScanKeepsLength | src/patchers/binary.cpp:214-222 | when every occurrence leaves room for the replacement, the scan keeps the length of the array |
| Binary.ScanFrame | src/patchers/binary.cpp:214-222 | a byte that no hit of the scan covers keeps its value |
| Binary.Rewrites | src/patchers/binary.cpp:212-219 | each table entry becomes its marker's bytes and the bytes written at its hits, the marker and the new location as written; every one is non-empty |
| Binary.Patches | src/patchers/binary.cpp:205-219 | the rewrites of the table for the Qt version: one per entry, each writing the entry's marker followed by its new location |
| Binary.ApplyTable | src/patchers/binary.cpp:212-223 | each rewrite is scanned in turn, on the bytes the earlier ones left; the scans never shorten the array |
| Binary.TableFrame | src/patchers/binary.cpp:212-223 | a byte that no entry of the table wrote keeps its value |
| Binary.ApplyTableSplit | src/patchers/binary.cpp:212-223 | scanning the table is scanning its first entries and then the rest on the bytes they left |
| Binary.LaterKeeps | src/patchers/binary.cpp:212-223 | bytes that no later entry writes over are still there after the later entries' scans |
| Binary.EntryHitHolds | src/patchers/binary.cpp:212-223 | a hit of one entry holds that entry's marker and new location in the patched bytes, unless a later entry writes over part of it |
| Binary.TableHoldsHits | src/patchers/binary.cpp:212-223 | every hit of every entry holds what it wrote in the patched bytes, unless a later entry writes over part of it |
| Binary.HitReadsLocation | src/patchers/binary.cpp:215-221 | such a hit reads the entry's marker and then its new location |
| Binary.TableKeepsLength | src/patchers/binary.cpp:212-223 | when every hit of every entry has room for the bytes written, the table keeps the length of the array |
| Binary.PatchedKeepsUnwritten | src/patchers/binary.cpp:212-223 | when every hit has room, the patched bytes have the old length and differ from the old ones only where an entry wrote |
| Binary.PatchFileSpec | src/patchers/binary.cpp:208-236 | success exactly when the file is readable and writable; on failure nothing changes; no other file changes; the patched file is at least as long, and, when every hit has room, exactly as long with every byte no entry wrote unchanged; every hit of every entry holds the marker and the new location unless a later entry wrote over it |
| Binary.ScanMarker | src/patchers/binary.cpp:213-222 | the while loop computes the scan of one marker from position 0 |
| Binary.ApplyAll | src/patchers/binary.cpp:212-223 | the loop over the table, building each entry's bytes as written and scanning for its marker, computes the scan of every rewrite in turn |
| Binary.PatchFile | src/patchers/binary.cpp:191-236 | result and files are those of PatchFileSpec, which writes the marker and the new location with no zero byte |
| Binary.CStringOf | src/patchers/binary.cpp:220 | a zero-free string followed by a zero byte is read back exactly |
| Binary.ShorterLocationKeepsOldTail | src/patchers/binary.cpp:215-221 | as written, a shorter new location is read back followed by the tail of the old one |
| Binary.OverwriteTerminated | src/patchers/binary.cpp:220 | corrected overwrite: keeps the bytes before the index, writes the location and a zero byte after it |
| Binary.TerminatedReadsBack | src/patchers/binary.cpp:215-221 | with the zero byte written, a location that fits in the old one's room is read back exactly |
| Binary.HitAsWrittenKeepsTail | src/patchers/binary.cpp:215-221 | as written, a marker whose stored location is longer than the new one does not read back as the new location |
| Binary.HitReadsBack | src/patchers/binary.cpp:215-221 | with the corrected bytes, a marker whose stored location has room for the new one reads back as exactly the new location |
| Binary.DynamicCore5 | src/patchers/binary.cpp:127-158 | only existing dynamic core libraries: the DLLs on Windows, the framework or else the dylib on macOS, the shared object elsewhere |
| Binary.StaticCore5 | src/patchers/binary.cpp:161-179 | only existing static core libraries: the MSVC import libraries or the archive |
| Binary.Find5 | src/patchers/binary.cpp:103-189 | every file returned exists |
| Binary.Find4 | src/patchers/binary.cpp:40-101 | every file returned exists |
| Binary.FindFileToPatch | src/patchers/binary.cpp:30-38 | empty for major versions other than 4 and 5; every file exists; for a cross build only qmake is returned |
| Binary.StaticOnlyWithoutDynamic | src/patchers/binary.cpp:160-180 | for Qt 5 a static core library is returned only when no dynamic one was found |
| Binary.QmakeFirst | src/patchers/binary.cpp:107-120 | for Qt 4 and Qt 5 the host qmake is returned exactly when it exists, and then first (binary.cpp:46-57 for Qt 4) |
| CMake.ValueAt | src/patchers/cmake.cpp:66-68 | QStringList::value: the element at the index, or the empty string past the end |
| CMake.CallArgs | src/patchers/cmake.cpp:61-65 | a line that starts, once trimmed, with the call's opening has at least one argument; any other line has none |
| CMake.CallArgsOf | src/patchers/cmake.cpp:61-69 | a call written with four spaces of indentation reads back as its arguments split on spaces |
| CMake.CallLine | src/patchers/cmake.cpp:67-69 | a call whose arguments have no newline is one well-formed line |
| CMake.EglCallOf | src/patchers/cmake.cpp:67 | the canonical EGL call reads back as its arguments |
| CMake.OpenGlCallOf | src/patchers/cmake.cpp:69 | the canonical OPENGL call reads back as its arguments |
| CMake.CMakeLineCases | src/patchers/cmake.cpp:62-71 | a line that triggers is replaced by one of the two canonical calls; any other line is kept |
| CMake.TriggerOfArgs | src/patchers/cmake.cpp:100-106 | whether a call triggers depends only on its first two arguments |
| CMake.EglQuiet | src/patchers/cmake.cpp:67 | the canonical EGL call does not trigger |
| CMake.OpenGlQuiet | src/patchers/cmake.cpp:69 | the canonical OPENGL call does not trigger |
| CMake.CMakeLineQuiet | src/patchers/cmake.cpp:62-106 | shouldPatch fires on a line exactly when patchFile changes it, never on a line patchFile writes, and every written line is well formed |
| CMake.ShouldPatch | src/patchers/cmake.cpp:86-114 | true exactly when the path names Qt5Gui and some line of the readable file triggers |
| CMake.PatchFileSpec | src/patchers/cmake.cpp:52-84 | true exactly when the path names Qt5Gui and the file is readable; no other file changes |
| CMake.PatchFile | src/patchers/cmake.cpp:52-84 | result and files are those of PatchFileSpec |
| CMake.PatchFileIdempotent | src/patchers/cmake.cpp:52-114 | after a patch whose write went through, shouldPatch no longer selects the file |
| CMake.FindSpec | src/patchers/cmake.cpp:30-50 | Qt5GuiConfigExtras.cmake is returned exactly for Qt 5, an android cross spec, an existing file and shouldPatch true; otherwise nothing |
| CMake.FindFileToPatch | src/patchers/cmake.cpp:30-50 | the loop-free discovery returns what FindSpec describes |
| CMake.GuiExtrasMarked | src/patchers/cmake.cpp:40-54 | the discovered path names Qt5Gui, so patchFile accepts it |
| CMake.FindAfterPatch | src/patchers/cmake.cpp:30-84 | once the file is patched, discovery returns nothing |
| La.FileInOldLibSamePath | src/patchers/la.cpp:85-86 | a file entry lies in the old lib directory exactly when the absolute directory of the unescaped entry is the same path as oldDir/lib |
| La.RelocateToken | src/patchers/la.cpp:77-91 | the entry written for one dependency_libs entry is NewToken of it, a moved file keeping only its base name |
| La.RelocateTokens | src/patchers/la.cpp:76-92 | the loop rewrites every entry, in order, with NewToken, a moved file keeping only its base name |
| La.RewriteLine | src/patchers/la.cpp:69-111 | the line written for each line read is LaLine of it |
| La.TokenTriggers | src/patchers/la.cpp:145-161 | shouldPatch's test of one entry is OldToken: a -L=/-L search path or a file in the old lib directory, never a -l flag |
| La.AnyTokenTriggers | src/patchers/la.cpp:144-162 | the entry loop answers whether some entry names the old lib directory |
| La.LineTriggers | src/patchers/la.cpp:138-173 | the line test fires on a dependency_libs line with an old entry, or on a libdir= line whose value, after an optional '=', is the old lib directory |
| La.AnyLineTriggers | src/patchers/la.cpp:137-174 | the line loop answers whether some line triggers |
| La.ShouldPatch | src/patchers/la.cpp:124-179 | true exactly when lib exists and some line of the readable file triggers |
| La.PatchFileSpec | src/patchers/la.cpp:56-122 | true exactly when the file is readable; no other file changes |
| La.RewriteLines | src/patchers/la.cpp:66-112 | the bytes accumulated are the encoding of every line rewritten by LaLine, in order |
| La.PatchFile | src/patchers/la.cpp:56-122 | result and files are those of PatchFileSpec |
| La.NewLibIs | src/patchers/la.cpp:61 | for a prepared new location, the absolute path of newDir + "/lib" is newDir joined with lib: absolute, clean, free of backslashes and spaces, longer than one character and not ending in '/' |
| La.MovedFileRelocates | src/patchers/la.cpp:85-89 | corrected half of the base-name finding, not used by the libtool patch: a moved file entry that keeps its file name lands, for a relative name, in the new lib directory |
| La.AsWrittenLosesSuffix | src/patchers/la.cpp:87-88 | as written, a moved file entry whose name has an extension loses it |
| La.EntryBaseName | src/patchers/la.cpp:87 | the base name of a plain entry has no separator and is made of characters of its file name |
| La.JoinedQuiet | src/patchers/la.cpp:87-88 | a name joined to the new lib directory is not in the old lib directory |
| La.MovedFileQuiet | src/patchers/la.cpp:85-89 | a moved file entry, as written with its base name and also with its whole file name, is neither a flag nor in the old lib directory |
| La.NewLibNotOld | src/patchers/la.cpp:60-61 | the new lib directory is not the old one when the two paths differ |
| La.SearchOld | src/patchers/la.cpp:146-155 | a -L= or -L entry names the old lib directory exactly when its path does |
| La.SearchQuiet | src/patchers/la.cpp:78-83 | a search path written for the new lib directory does not name the old one |
| La.SearchEntry | src/patchers/la.cpp:78-89 | an old -L= entry becomes -L= and the new lib directory, an old -L entry -L and the new lib directory, an old file entry the new lib directory joined with its base name |
| La.NewTokenQuiet | src/patchers/la.cpp:77-91 | no entry patchFile writes, moved files keeping only their base names, names the old lib directory, when the new lib directory differs from the old one |
| La.MovedFileWord | src/patchers/la.cpp:85-89 | a moved file entry, as written with its base name and also with its whole file name, is a non-empty word without spaces that fits in a line when its inputs do |
| La.NewTokenWord | src/patchers/la.cpp:77-91 | every entry written is a non-empty word without spaces, and fits in a line when its inputs do |
| La.DepLineKey | src/patchers/la.cpp:93 | a dependency_libs line patchFile writes is read as a dependency_libs line |
| La.DepLineReadBack | src/patchers/la.cpp:71-74 | a written dependency_libs line reads back as exactly the entries it was written from |
| La.LibDirKey | src/patchers/la.cpp:106-107 | a written libdir= line is read as a libdir= line and not as a dependency_libs line |
| La.LibDirLineValue | src/patchers/la.cpp:96-103 | a libdir= line written with a sysroot mark and a path reads back as that mark and that path |
| La.LibDirReadBack | src/patchers/la.cpp:95-109 | a written libdir= line reads back as its sysroot mark and the escaped native new lib directory |
| La.DepLineQuiet | src/patchers/la.cpp:71-94 | a dependency_libs line written from plain words does not make shouldPatch fire |
| La.LibDirLineQuiet | src/patchers/la.cpp:95-109 | a written libdir= line does not make shouldPatch fire |
| La.LaLineQuiet | src/patchers/la.cpp:69-173 | no line patchFile writes makes shouldPatch fire, when the new lib directory differs from the old one |
| La.DepLineOfQuiet | src/patchers/la.cpp:71-94 | the dependency_libs line written for a plain line does not make shouldPatch fire |
| La.LibDirLineOfQuiet | src/patchers/la.cpp:95-109 | the libdir= line written in place of one naming the old lib directory does not make shouldPatch fire |
| La.DepLineClean | src/patchers/la.cpp:93-94 | a written dependency_libs line is one well-formed line of one-byte characters |
| La.LibDirLineClean | src/patchers/la.cpp:106-108 | a written libdir= line is one well-formed line of one-byte characters |
| La.LaLineClean | src/patchers/la.cpp:69-111 | every line written is one well-formed line and keeps the newline of the line it replaces |
| La.LibPathIs | src/patchers/la.cpp:126-134 | a name listed in lib is the file patchFile opens as lib/ plus the name |
| La.PatchFileIdempotent | src/patchers/la.cpp:56-179 | after a patch whose write went through, shouldPatch no longer selects the archive |
| La.FindSpec | src/patchers/la.cpp:27-54 | nothing for a cross spec starting with win or without lib; every result is lib/ plus a name shouldPatch selects; Qt 4 never returns a libQt5 archive |
| La.FindFileToPatch | src/patchers/la.cpp:27-54 | the discovery loop returns FindSpec |
| La.PatchedNotFound | src/patchers/la.cpp:27-122 | an archive that has been patched is not found again |
| Pc.PkgDirIs | src/patchers/pc.cpp:156-160 | the directory shouldPatch reaches by cd("lib") and cd("pkgconfig") is lib/pkgconfig under qtDir |
| Pc.PkgPath | src/patchers/pc.cpp:164 | a relative name resolved in that directory is the same file patchFile opens as lib/pkgconfig/<name> under qtDir (pc.cpp:62, 86, 99) |
| Pc.ToolIndex | src/patchers/pc.cpp:124-139 | the tool branch taken is the first of moc, uic, rcc, lupdate, lrelease whose <tool>_location= key starts the line; -1 exactly when none does |
| Pc.Assigned | src/patchers/pc.cpp:106-140 | a rewritten line keeps the key it started with, and only Qt 5 and Qt 4 files are rewritten |
| Pc.KeyHead | src/patchers/pc.cpp:107-139 | every key written starts with a non-blank character, fits in a line, and starts with 'p' only when the line replaced was a prefix= line |
| Pc.ValueSafe | src/patchers/pc.cpp:108-137 | with a prepared new location every value written fits in one line |
| Pc.PrefixAssigned | src/patchers/pc.cpp:107-117 | a prefix= line gets the new location in native form, with backslashes doubled for Qt 5 only, so that undoing the doubling yields the native new location |
| Pc.PrefixLineOf | src/patchers/pc.cpp:170-172 | a written prefix= line read back by shouldPatch yields its value with doubled backslashes undone |
| Pc.PrefixReadsBack | src/patchers/pc.cpp:107-117 | a rewritten prefix= line reads back, through shouldPatch's parse, as a path equal to newDir |
| Pc.NoNewPrefix | src/patchers/pc.cpp:106-141 | a line that was not a prefix= line is not turned into one |
| Pc.PcLineQuiet | src/patchers/pc.cpp:170-175 | when newDir and oldDir differ, no line patchFile writes makes shouldPatch fire |
| Pc.PcLineClean | src/patchers/pc.cpp:103-141 | every line written is one well-formed Latin-1 line that keeps the newline of the line it replaces |
| Pc.ShouldPatch | src/patchers/pc.cpp:154-182 | true exactly when both cd calls succeed and some line of the readable file is a prefix= line naming oldDir |
| Pc.PatchFileSpec | src/patchers/pc.cpp:94-152 | patchFile succeeds exactly when the file exists and opens for reading, and no other file changes |
| Pc.PatchFile | src/patchers/pc.cpp:94-152 | the result and the new disk are PatchFileSpec of the old disk |
| Pc.PatchFileIdempotent | src/patchers/pc.cpp:94-182 | after a listed file is patched and the write goes through, shouldPatch no longer selects it when newDir differs from oldDir |
| Pc.FindSpec | src/patchers/pc.cpp:31-92 | nothing for a major version other than 4 and 5, for a win32-msvc mkspec or when lib/pkgconfig is missing; every returned file is lib/pkgconfig/<name> selected by shouldPatch, and for Qt 4 also passes isQt4File |
| Pc.SelectListed | src/patchers/pc.cpp:58-64 | the loop keeps, in listing order and with the lib/pkgconfig/ prefix, exactly the names the filter accepts |
| Pc.FindFileToPatch | src/patchers/pc.cpp:31-39 | the files returned are FindSpec |
| Pc.PatchedNotFound | src/patchers/pc.cpp:46-92 | a listed file that has been patched is not found again |
| Pri.Es2LineOf | src/patchers/pri.cpp:61-64 | the OpenGL ES line written is one well-formed line that reads back as QMAKE_LIBS_OPENGL_ES2 = -lGLESv2 |
| Pri.EglLineOf | src/patchers/pri.cpp:65-68 | the EGL line written is one well-formed line that reads back as QMAKE_LIBS_EGL = -lEGL |
| Pri.PriLine | src/patchers/pri.cpp:56-71 | a QMAKE_LIBS_OPENGL_ES2 line reads back as -lGLESv2, a QMAKE_LIBS_EGL line as -lEGL, every other line is kept, and a changed line is well formed |
| Pri.PriLineQuiet | src/patchers/pri.cpp:124 | no line patchFile writes makes shouldPatch fire |
| Pri.ShouldPatch | src/patchers/pri.cpp:112-135 | true exactly when the name contains qt_lib_gui and some line of the readable file gives one of the two keys a value that is not a -l flag |
| Pri.PatchFileSpec | src/patchers/pri.cpp:48-84 | patchFile succeeds exactly when the name contains qt_lib_gui and the file exists and opens for reading; no other file changes |
| Pri.PatchFile | src/patchers/pri.cpp:48-84 | the result and the new disk are PatchFileSpec of the old disk |
| Pri.PatchFileIdempotent | src/patchers/pri.cpp:48-135 | after a patch whose write went through, shouldPatch no longer selects the file |
| Pri.OpenSslDirWarning | src/patchers/pri.cpp:86-110 | one warning exactly when the name contains qt_lib_network and the readable file has a QMAKE_LIBS_OPENSSL line with a non-empty value; none otherwise |
| Pri.FindSpec | src/patchers/pri.cpp:29-46 | the gui .pri file is returned exactly for an android mkspec when it exists and shouldPatch selects it, nothing otherwise; at most the one OpenSSL warning |
| Pri.FindFileToPatch | src/patchers/pri.cpp:29-46 | the files and the warnings are FindSpec |
| Pri.FindAfterPatch | src/patchers/pri.cpp:37-41 | once the gui .pri file has been patched, discovery returns nothing |
| QmakeConf.FindFileToPatch | src/patchers/qmakeconf.cpp:25-36 | mkspecs/default/qmake.conf exactly for Qt 4 when it exists, nothing otherwise |
| QmakeConf.PatchFileSpec | src/patchers/qmakeconf.cpp:38-52 | corrected half of the qmake.conf finding, not used by the patch run: always true, the file under qtDir is replaced when it can be written, and no other file changes |
| QmakeConf.PatchFileSpecAsWritten | src/patchers/qmakeconf.cpp:38-52 | always true; only the path the name resolves to from the current directory can change; nothing changes when its directory is missing; when the directory exists and the file can be written it holds the template |
| QmakeConf.PatchFile | src/patchers/qmakeconf.cpp:38-52 | corrected half: the result and the new disk are PatchFileSpec of the old disk |
| QmakeConf.PatchFileAsWritten | src/patchers/qmakeconf.cpp:38-52 | the patchFile the run dispatches: the result and the new disk are PatchFileSpecAsWritten of the old disk |
| QmakeConf.TemplateIsLines | src/patchers/qmakeconf.cpp:40-44 | the text written is the three template lines, each well formed, when newDir and the mkspec fit in a line |
| QmakeConf.PatchedReadsBack | src/patchers/qmakeconf.cpp:40-48 | after the corrected patch the file under qtDir reads back as exactly the three template lines |
| QmakeConf.AsWrittenMissesQtDir | src/patchers/qmakeconf.cpp:46 | as written, when the current directory is not qtDir, the qmake.conf under qtDir keeps its old content |
| QmakeConf.DifferentDirs | src/patchers/qmakeconf.cpp:46 | a relative name resolves to different files from the current directory, clean as QDir::currentPath() returns it, and from qtDir when the two directories differ |
| QmakeConf.AsWrittenWritesElsewhere | src/patchers/qmakeconf.cpp:46 | with the application in /app and Qt in /opt/qt the file written is not the one under /opt/qt |
| QtConf.FindFileToPatch | src/patchers/qtconf.cpp:25-34 | bin/qt.conf exactly when it exists, nothing otherwise |
| QtConf.PatchFileSpec | src/patchers/qtconf.cpp:36-45 | true exactly when the file exists, which is then removed; false leaves everything as it was; no other file changes |
| QtConf.PatchFile | src/patchers/qtconf.cpp:36-45 | the result and the new disk are PatchFileSpec of the old disk |
| QtConf.PatchedNotFound | src/patchers/qtconf.cpp:25-45 | once bin/qt.conf has been removed, discovery finds nothing |
| QtConf.PatchTwice | src/patchers/qtconf.cpp:36-45 | patching again after a successful patch reports failure and changes nothing |
| Prl.AssignedLine | src/patchers/prl.cpp:124-142 | a line is changed only when its key is QMAKE_PRL_LIBS, or QMAKE_PRL_BUILD_DIR for Qt 4 |
| Prl.PrlLine | src/patchers/prl.cpp:119-145 | a line without '=' is written back unchanged |
| Prl.KeepStep | src/patchers/prl.cpp:46-49 | looking at one more listed name selects it, with "lib/" in front, exactly when shouldPatch does |
| Prl.WarnsSomeStep | src/patchers/prl.cpp:46-49 | looking at one more listed name adds a warning exactly when shouldPatch warns for that name |
| Prl.PatchFileSpec | src/patchers/prl.cpp:103-156 | patchFile succeeds exactly when the file exists and opens for reading, and no other file changes |
| Prl.RelocateToken | src/patchers/prl.cpp:61-97 | the entry written for one QMAKE_PRL_LIBS entry is PrlToken of it |
| Prl.PatchQmakePrlLibs | src/patchers/prl.cpp:53-101 | the value written is the entries split at spaces, empty parts dropped, each patched, joined by single spaces |
| Prl.AssignmentAt | src/patchers/prl.cpp:120-123 | a line cut at its first '=' gives the trimmed key and the trimmed value |
| Prl.RewriteAssigned | src/patchers/prl.cpp:124-142 | the line written for an assignment is AssignedLine of it |
| Prl.RewriteLine | src/patchers/prl.cpp:119-145 | the line written for each line read is PrlLine of it |
| Prl.RewriteLines | src/patchers/prl.cpp:118-146 | the bytes accumulated are the encoding of the rewritten lines, in order |
| Prl.PatchFile | src/patchers/prl.cpp:103-156 | the result and the new disk are PatchFileSpec of the old disk |
| Prl.TokenTriggers | src/patchers/prl.cpp:187-220 | shouldPatch's test of one entry, its build-tree branch included as written |
| Prl.AnyTokenTriggers | src/patchers/prl.cpp:185-221 | the loop stops exactly when some entry names the old lib directory |
| Prl.PrlPatcher.constructor | src/patchers/prl.cpp:25-28 | a new patcher has not warned yet |
| Prl.PrlPatcher.WarnNoBuildDir | src/patchers/prl.cpp:233-236 | after the warning the patcher remembers that it has warned |
| Prl.PrlPatcher.AssignedLineTriggers | src/patchers/prl.cpp:182-239 | the answer for one assignment, and the warn flag set exactly when a Qt 4 build directory lies outside the old prefix with no build directory configured |
| Prl.PrlPatcher.LineTriggers | src/patchers/prl.cpp:179-240 | the answer for one line is PrlTrigger, and the warn flag is set when PrlWarns holds |
| Prl.PrlPatcher.AnyLineTriggers | src/patchers/prl.cpp:178-241 | true exactly when some line triggers; the warn flag is set exactly when a warning line comes before the first triggering line |
| Prl.PrlPatcher.ShouldPatch | src/patchers/prl.cpp:158-246 | the answer is ShouldPatchSpec, and the warn flag records whether the file's lines warn before the stop |
| Prl.PrlPatcher.SelectNames | src/patchers/prl.cpp:44-50 | keeps, in order with "lib/" in front, the names shouldPatch selects, and warns if it warns for any of them |
| Prl.PrlPatcher.FindFileToPatch | src/patchers/prl.cpp:34-51 | the files returned are FindSpec, and the warn flag records FindWarns |
| Prl.NotBoth | src/patchers/prl.cpp:222-238 | no line both stops shouldPatch and makes it warn |
| Prl.BuildBranchDead | src/patchers/prl.cpp:198-219 | the build-tree branch is reached only by "-l" entries, where none of its tests can hold: an entry triggers exactly when it names the old lib directory |
| Prl.TokenChanges | src/patchers/prl.cpp:60-97 | "-l" entries are kept, and an entry changes only when it names the old lib directory or, for a Qt 4 build with a build directory, the build tree's lib directory |
| Prl.NativeReadsBack | src/patchers/prl.cpp:88 | a native moved entry with doubled backslashes, read back with the doubling undone, is the moved file |
| Prl.MovedEntryRelocates | src/patchers/prl.cpp:83-88 | a moved file entry keeps its file name and, read back, lies in newDir/lib |
| Prl.NativeEntryWord | src/patchers/prl.cpp:88 | a native moved entry is one non-empty word |
| Prl.TokenCases | src/patchers/prl.cpp:61-98 | every entry is kept, or becomes a -L=/-L search path for newDir/lib, or a moved file entry |
| Prl.MovedEntryCases | src/patchers/prl.cpp:85-88 | for Qt 5 a moved file entry has forward slashes, as the libtool patcher writes it; otherwise it is native with doubled backslashes |
| Prl.TokenWord | src/patchers/prl.cpp:60-98 | every patched entry of a plain one-word entry is one non-empty word |
| Prl.LibsReadBack | src/patchers/prl.cpp:53-101 | the written value splits back into the patched entries, one for one, in order |
| Prl.BuildSearchNotSelected | src/patchers/prl.cpp:66-69 | a Qt 4 "-L=" entry naming only the build tree's lib directory is moved by patchFile but does not make shouldPatch select the file (prl.cpp:188-220) |
| Prl.RelativeEntryKept | src/patchers/prl.cpp:80-97 | a relative file entry in the old lib directory makes shouldPatch stop (prl.cpp:198-202) but patchFile, which moves only absolute entries, writes it back unchanged |
| Prl.RelativeEntryStillSelected | src/patchers/prl.cpp:185-202 | a QMAKE_PRL_LIBS value holding such an entry still makes shouldPatch stop after patchQmakePrlLibs has rewritten it: the .prl patcher is not idempotent |
| Prl.BuildDirSelectedIffMoved | src/patchers/prl.cpp:128-141 | a QMAKE_PRL_BUILD_DIR value stops shouldPatch (prl.cpp:222-231) exactly when patchFile rewrites it, and never where shouldPatch warns |
| Prl.BuildDirInsideOld | src/patchers/prl.cpp:130-140 | a Qt 4 build directory under the old prefix is selected and moved to the same relative place under newDir |
| Prl.BuildDirOutsideOld | src/patchers/prl.cpp:223-236 | a Qt 4 build directory outside the old prefix with no build directory configured is neither selected nor moved, and shouldPatch warns |
| Program.ParameterWarnings | src/main.cpp:21-22 | a warning exactly when there are unknown parameters |
| Program.VersionWarnings | src/patch.cpp:231-268 | a warning exactly when the version and mkspecs are not a supported combination |
| Program.PrepareSpec | src/patch.cpp:219-224 | when a step ends the process, step 3 never runs and patcherFileMap stays empty |
| Program.Engine.constructor | src/main.cpp:16-22 | the parsed settings, the unknown-parameter warning and an empty patcherFileMap |
| Program.Engine.Prepare | src/patch.cpp:219-224 | the settings, warnings, patcherFileMap and the fatal reason are those PrepareSpec gives for the old settings |
| Program.Engine.WarnAboutUnsupportedQtVersion | src/patch.cpp:231-268 | appends the version warning, if any, and changes nothing else |
| Program.Engine.Patch | src/patch.cpp:284-287 | the result and the new disk are step 4 over patcherFileMap in key order |
| Program.Engine.Cleanup | src/patch.cpp:289-293 | patcherFileMap is emptied, nothing else changes |
| Program.RunProgram | src/main.cpp:11-32 | the exit, the files left and the warnings printed are RunSpec: prepare (with the qmake search as written), the version warning, the patch phase (with the patchers and restore as written) unless the locations are the same and nothing forces it, cleanup |
| Program.ExitCode | src/main.cpp:24-32 | after a successful preparation the exit code is 0 exactly when the patch phase was skipped or every patch succeeded, and 1 otherwise |
| Program.SkippedRunChangesNothing | src/main.cpp:27-28 | when the Qt directory already is at its new location and nothing forces it, no file changes and the exit code is 0 |
| Program.AbortChangesNothing | src/patch.cpp:41 | a run that ends in qFatal during preparation (patch.cpp:69, 83, 163) has changed no file |
| Program.UnknownParametersWarnFirst | src/main.cpp:21-26 | unknown parameters draw a warning, printed before any other |
| Files.CopyNeverOverwrites | src/backup.cpp:61 | QFile::copy onto a path that exists fails and changes nothing |
| Files.CopyAddsOnlyDst | src/backup.cpp:61 | a copy succeeds exactly when the source is readable and the destination is missing, and then adds only the destination, holding the source's bytes |
| Files.DecodeEncode | src/patchers/pc.cpp:104-109 | text of one-byte characters written as bytes reads back as the same text |
| Files.EncodeDecode | src/patchers/pc.cpp:104-141 | bytes read as text and written back are the same bytes |
| Files.ConcatSplitLines | src/patchers/pc.cpp:103-141 | the lines readLine returns, put back together, are the whole file |
| Files.SplitLinesConcat | src/patchers/pc.cpp:141-146 | well-formed lines written one after another are read back as the same lines |
| Paths.FromToNative | src/patchers/pc.cpp:116-119 | native separators turned back to Qt's internal form give the internal form of the original |
| Paths.AbsPathTwice | src/patch.cpp:35-43 | making a path absolute twice changes nothing |
| Paths.RelativeInside | src/patchers/prl.cpp:130-137 | a file under the directory is named relative to it by its remaining components, without ".." |
| Paths.RelativeOutside | src/patchers/prl.cpp:130-136 | a file outside the directory is named relative to it by a path containing ".." |
| Text.SplitJoin | src/patchers/prl.cpp:56-100 | parts without the separator, joined and split again, are the same parts |
| Text.JoinSplit | src/patchers/prl.cpp:56-100 | a text split and joined again is the same text |
| Text.SplitSkipEmptyJoin | src/patchers/prl.cpp:56-100 | non-empty parts without the separator, joined and split with empty parts dropped, are the same parts |
| Text.UnescapeEscape | src/patchers/pc.cpp:108-172 | doubling every backslash and undoing the doubling gives the original text back |
| Text.UnescapePlain | src/patchers/pc.cpp:172 | undoing the doubling changes nothing in a text without backslashes |
| Text.TrimPadded | src/patchers/pc.cpp:105 | trimming removes exactly the whitespace padding around a tight text |
| TextFile.PatchLinesSpec | src/patchers/pc.cpp:99-151 | success exactly when the file is readable; the file is replaced by its rewritten lines only when it can be written; no other file changes |
| TextFile.PatchLines | src/patchers/pc.cpp:99-151 | the result and the new disk are PatchLinesSpec of the old disk |
| TextFile.AnyLine | src/patchers/pc.cpp:164-181 | true exactly when the file is readable and one of its lines triggers |
| TextFile.ReadBack | src/patchers/pc.cpp:141-147 | a rewritten file reads back as the rewritten lines, one for one |
| TextFile.PatchQuiets | src/patchers/pc.cpp:94-182 | when no rewritten line triggers the scan, a successful patch leaves a file the scan no longer selects |
| TextFile.Assignment | src/patchers/prl.cpp:120-123 | no assignment exactly when the line has no '=' |
| TextFile.AssignmentOf | src/patchers/pri.cpp:63 | the line "key = value" written reads back as that key and that value |
| TextFile.AssignmentLine | src/patchers/pri.cpp:63 | "key = value\n" is one well-formed line |
| QtDir.PreparedIsAbsPath | src/patch.cpp:72-83 | the new location the patchers work with is exactly a newDir that is its own absolutePath and holds no whitespace, as step 1 leaves it |
| QtDir.Existing | src/patchers/binary.cpp:30-38 | the candidates kept are exactly those that exist under qtDir |
| QtDir.Select | src/patchers/pc.cpp:58-64 | the names kept, each with the prefix, are exactly the listed names the filter accepts |
| QtDir.SelectStep | src/patchers/pc.cpp:60-63 | looking at one more name adds it, with the prefix, exactly when it passes the filter |
| Settings.VersionRoundTrip | src/patch.cpp:233-257 | the major and minor version read from "major.minor..." are those numbers |
| Binary.DynamicNotStatic | src/patchers/binary.cpp:125-179 | none of the shared core library names looked for first is one of the static ones looked for after |
| Binary.ZeroFrom | src/patchers/binary.cpp:215-220 | the first zero byte at or after a position, or the end: every byte before it is non-zero |
| Binary.CString | src/patchers/binary.cpp:215-220 | a location read back as a C string holds no zero byte |
| Binary.ScanFrom | src/patchers/binary.cpp:213-222 | the scan that overwrites each marker it finds never shortens the file |
| CMake.EglCallLine | src/patchers/cmake.cpp:67 | the canonical EGL call is one well-formed line |
| CMake.OpenGlCallLine | src/patchers/cmake.cpp:69 | the canonical OPENGL call is one well-formed line |
| Files.SplitLines | src/patchers/pc.cpp:103 | readLine splits a text into lines that each end at their first newline, all but the last ending with one |
| Files.RemoveTree | src/backup.cpp:78-83 | removing a directory recursively removes exactly the files below it and keeps the rest unchanged |
| Paths.AbsPath | src/patch.cpp:71-72 | absolutePath: the result is absolute, uses forward slashes on Windows, is clean (no repeated '/', no trailing '/' except in a root) and is made of the characters of the path, of the current directory and '/' |
| Paths.CleanSlashes | src/patch.cpp:71-72 | the cleaning absolutePath does: the result is clean, an absolute path stays absolute, no character is added, and a clean path is left as it is |
| Paths.AbsPathOfAbsolute | src/patch.cpp:71-72 | a clean absolute path without backslashes is its own absolute path |
| Paths.AbsPathTrailing | src/patch.cpp:71-72 | absolutePath drops the trailing '/' of a directory other than a root |
| Paths.AbsPathJoin | src/patchers/la.cpp:60-61 | a clean absolute directory, '/' and a clean relative name make the two joined by one '/' (none after a root) |
| Paths.AbsDirJoin | src/patchers/la.cpp:86 | QFileInfo::absolutePath of dir/name, for a clean absolute dir other than a root and a name without separators, is dir |
| Paths.FromNative | src/patchers/pc.cpp:119 | fromNativeSeparators keeps the length, leaves a path without backslashes alone, and leaves no backslash on Windows |
| Paths.ToNative | src/patchers/pc.cpp:108 | toNativeSeparators keeps the length and changes nothing on Unix |
| Paths.FileName | src/patchers/prl.cpp:84 | a file name holds no separator |
| Paths.BaseName | src/patchers/pc.cpp:122 | a base name holds no separator and no '.' |
| Text.IndexOfChar | src/patchers/prl.cpp:120 | the first position of the character, or -1 exactly when it does not occur |
| Text.Split | src/patchers/prl.cpp:56 | at least one part, and no part holds the separator |
| Text.SplitSkipEmpty | src/patchers/prl.cpp:56 | every part is non-empty and free of the separator |
| Text.Unescape | src/patchers/prl.cpp:63 | undoing the doubling never lengthens the text and adds no character |
| Text.Escape | src/patchers/pc.cpp:108 | doubling backslashes never shortens the text and changes nothing without backslashes |
| Text.ReplaceChar | src/patchers/pc.cpp:108 | every occurrence of one character, and only those, is replaced by the other |
| Text.Mid | src/patchers/pc.cpp:171 | the suffix from a position, or empty past the end |

## Left out

- Running qmake. The `QProcess` call in step 2, its timeout, a crash and the exit status are outside the model. The text qmake prints is a parameter of the run.
- The temporary renaming of `bin/qt.conf` around the qmake call in step 2 is not modelled. It is undone before step 2 returns.
- Text decoding. `QString::fromLocal8Bit` and UTF-8 are modelled as a byte-per-character (Latin-1) decoding. Multi-byte characters are not modelled.
- The 10000-byte `readLine` buffers and the `strcpy` into them: a line is a whole line of any length. The model also copies a line whole when it holds a zero byte. In the code, `QString::fromUtf8(arr)` and `toWrite.append(arr)` read the buffer as a C string, so a zero byte ends the line's text there (la.cpp:69 and 111, pc.cpp:104 and 141, prl.cpp:119 and 145).
- Text-mode end-of-line translation (`QIODevice::Text`) is not modelled. A line keeps the bytes it has in the file.
- Path comparison. `QDir ==` is modelled as equality of the absolute paths as `Paths.AbsPath` cleans them. Windows' case-insensitive comparison is not modelled, and neither is the comparison of canonical paths, through symbolic links, that `QDir ==` makes when both directories exist.
- Path cleaning. `QDir::cleanPath`, and the cleaning in `absolutePath`, are modelled as three steps: backslashes become '/' on Windows, repeated '/' collapse, and a trailing '/' is dropped except in a root. Resolving `.` and `..` is not modelled; the backup store rejects `..` anyway.
- UNC roots and the per-drive current directories of Windows are not modelled. A path is absolute when it starts with `/` or with a drive letter and `:`, so a bare drive `X:` counts as absolute and is left as it is, not turned into its root `X:/`.
- Paths.AbsFilePath: `QDir::absoluteFilePath` of an empty name returns the directory itself, while the model appends a '/'. The core passes it only non-empty names.
- QmakeConf.DifferentDirs: requires a non-empty current directory in the clean form `QDir::currentPath()` returns, and directories that still differ once a '/' is appended. This leaves out only a bare drive `X:` against its root `X:/`.
- `QString::arg` substitutions are written as concatenation. Qt's treatment of placeholders inside the substituted text is not modelled.
- Directory creation. `mkpath` in `backupOneFile` is not modelled: a copy into the backup directory never fails for a missing parent directory. The existing directories are a given set.
- Directory listings and name-filter globbing are a given function of the directory and the filters.
- Freeing the patcher instances and the backup object in `cleanup` and in the destructors is not modelled, only their effect on files.
- Log output, its verbosity and its file are not modelled. Warnings are a list of values. `QBPLOGF` is a fatal outcome that carries its reason.
- The relative order of warnings and other log lines is not kept. The warnings printed by `PriPatcher`'s OpenSSL check and `PrlPatcher`'s build-directory check during discovery are computed, but they are not added to the run's list of warnings.
- The `La` and `Pc` read-back and relocation lemmas assume file contents with plain key lines (no quote or escape character in the values they relate). Files outside that assumption are still rewritten by the same functions.
- The patcher registry is the `Kind` enumeration, one instance per kind, so the duplicate registration of one class would collapse into one key. `patcherFileMap` is keyed by the instances' addresses, and the order of those keys is the given sequence `order`.
- The file name printed in the Qt 5 static-library warning (`src/patchers/binary.cpp:172`) is log output only and is not modelled.
- `ArgumentsAndSettings::qtQVersion` and `buildDir` are not part of this model. Their values are fields of the settings record, and the major and minor versions are read from the leading digits of the version string.
- The `dryRun` flag is parsed but never consulted, so there is no dry-run mode.
- `exitWhenSpacesExist` is modelled as a function, but it is not a phase of the run. Whitespace in the directories ends the run in steps 1 and 2.
- Binary.Find4: the contract states only that every returned file exists. The Qt 4 candidate lists per platform are the function's body, and the lemma `Binary.QmakeFirst` states where qmake comes.
- Binary.Find5: the contract states only that every returned file exists. The Qt 5 candidate lists are the body of `Binary.DynamicCore5` and `Binary.StaticCore5`; `Binary.StaticOnlyWithoutDynamic` and `Binary.QmakeFirst` state the choice between them and the place of qmake.
- Probe.Locate, Probe.InBin, Binary.PlusPath, La.MovedFile (in the libtool patcher), QmakeConf.PatchFileSpec, QmakeConf.PatchFile and Backup.Backup.RestoreAll are the corrected halves of the findings below. The run of the program does not use them; it uses the forms the code has.
- The warn-once flag of `PrlPatcher` is the only warning state kept inside a patcher instance. The other patchers print their warnings and keep nothing.

## Findings

| source | as written | input that shows it | evidently intended | confidence | as-written member | corrected member |
|---|---|---|---|---|---|---|
| src/backup.cpp:71 | `restoreAll` copies each backup back with `QFile::copy`, which refuses to overwrite an existing file, so a file that was patched keeps its patched contents | a file that is backed up and then patched, followed by a failing patch: the patched file still exists, the copy is refused, and the patched contents remain | the backed-up contents replace the patched file | not executed | Backup.PatchedSurvivesRestore | Backup.BackupRestoreRoundTrip |
| src/patchers/binary.cpp:215-221 | the bytes written at a marker are the marker and the new location, with no terminating zero byte | stored location `/home/me/Qt5.6`, new location `/opt/qt`: the bytes read back up to the zero are `/opt/qte/Qt5.6` | the location reads back as the new one, terminated by a zero byte | not executed | Binary.HitAsWrittenKeepsTail | Binary.HitReadsBack |
| src/patchers/qmakeconf.cpp:46 | `patchFile` opens the relative name `mkspecs/default/qmake.conf` as it is, which resolves against the current directory, and `main` makes that the application's directory | the application in `/app` and Qt in `/opt/qt`: the template reaches `/app/mkspecs/default/qmake.conf` only if that directory exists, otherwise nothing is written; true is returned either way, and the Qt file is unchanged | the file under the Qt directory is rewritten | not executed | QmakeConf.AsWrittenWritesElsewhere | QmakeConf.PatchedReadsBack |
| src/patchers/la.cpp:87 | a library file in the old directory is relocated as the new directory plus `QFileInfo::baseName`, which drops every suffix | `/old/lib/libQt5Core.la` becomes `/new/lib/libQt5Core` | `/new/lib/libQt5Core.la`, the same file name in the new directory | not executed | La.AsWrittenLosesSuffix | La.MovedFileRelocates |
| src/patch.cpp:59-65 | in a directory named `bin`, the loop over `qmake` and `qmake.exe` goes on after a hit and the `cdUp` that follows it, so the second name is looked up in the parent and a second hit climbs again | Qt directory `/x/bin` holding `qmake` but not `qmake.exe`, and a file `/x/qmake.exe`: the Qt directory becomes `/` and qmake `bin/qmake.exe` | the Qt directory `/x` with qmake `bin/qmake`, the first name found in `bin` | not executed | Probe.LocateAsWrittenDiffers | Probe.Locate |
