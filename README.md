# lcd-gui-tester: dependency bootstrap and image list, in Dafny

This project models the core of the lcd-gui-tester desktop tool in Dafny. The tool converts
170x320 images into C sources with LVGL's `LVGLImage.py` and flashes them to an nRF52 board.
Before it can do that, it has to install its dependencies next to itself. The model covers:

- **LibraryChecker** (`library_checker.dfy`, plus `presence.dfy`, `resolver.dfy` and
  `extraction.dfy`):
  - checks whether LVGL, the nRF5 SDK, the ARM GNU toolchain, the nRF52 LCD tester firmware
    and CMake are installed under `libraries/`;
  - builds the status table, including the interpreter and its packages;
  - downloads each missing component to a temporary file and unpacks it with `unzip`, the
    Windows unpacker or `tar`;
  - moves the unpacked folder into the component's slot;
  - reports which components were installed and which failed.
- **EmbeddedPython** (`portable_python.dfy`): the portable interpreter under `python/`.
  - Platform-specific distribution and layout.
  - Download and unpack.
  - The `python311._pth` edit and get-pip on Windows.
  - `pip install` of Pillow, pypng, lz4 and kconfiglib.
  - The self-test probes.
- **StartupChecker** (`startup_checker.dfy`):
  - the startup scan;
  - the list shown in the permission dialog;
  - the install step that follows it.
- **LVGLScriptRunner** (`script_runner.dfy`):
  - runs the converter on each selected image;
  - sanitises the C names;
  - writes `generated_images.h` and `generated_images.c`.
- **MainWindow** (`main_window.dfy`): the list of at most ten distinct 170x320 images.
  - Adding and removing images.
  - The preview grid and the counter.
  - Handing the list to the converter.
- **ImageDropWidget** (`image_drop.dfy`):
  - which drags are let in;
  - which dropped files are forwarded.

Supporting modules:

- `text.dfy` holds the string operations the tool relies on, such as `QString::contains`,
  `replace`, `toLower`, `join` and number formatting.
- `filetree.dfy` holds the disk: the set of paths that exist, relative to the application
  folder, and the contents of the text files the tool rewrites.
- `Platform.Os` stands for the `Q_OS_*` compile-time branches.

Everything the tool learns from the outside world is an input of the model:

- network replies, tag lists and file writes;
- the unpacking tool's exit code, error output, the paths it wrote and its folder listing;
- the interpreter's exit code for each argument list;
- the user's answers, whether each picture loads and at what size, and clock readings.

A method that does I/O takes these outcomes as parameters. It is proved equal to a
specification function (`DownloadSpec`, `ZipExtract`, `CheckSpec`, `SetupSpec`,
`ProcessSpec`, `AddSpec`, ...), and lemmas prove the promised properties about that
function.

Where the sources disagree with one another, the model follows the code that runs:

- `librarychecker.h` declares `extractZipFile` with two parameters and only the LVGL folder
  constant. The model follows the three-parameter definition in `librarychecker.cpp`.
- The other folder names (`nrf5_sdk`, `arm-gnu-toolchain`, `nrf52-lcd-tester-fw`, `cmake`)
  are taken from the literal paths in `startupchecker.cpp`.
- The startup scan's LVGL test (`scripts/LVGLImage.py`) differs from the library checker's
  (`lvgl.h` and three more files). `Startup.LvglChecksDiffer` records this.

Two behaviours of the code are easy to misread, and the model keeps both as the code has them:

- A failed download can leave its temporary archive behind. The code deletes it only after
  a successful unpack, or after any `tar` run that exits 0 (src/librarychecker.cpp:740-768).
  The model reports `archiveKept`, and `Libraries.FailedZipKeepsArchive` states when it is set.
- A process that times out, or never starts, counts as a success. These verdicts read
  `exitCode() == 0` after a `waitForFinished` whose result is not checked, and starting a
  process resets its exit code to 0. They are the interpreter probe
  (src/embeddedpython.cpp:113-116), the unpacking of the interpreter
  (src/embeddedpython.cpp:294-297), get-pip (src/embeddedpython.cpp:351-354), `runScript`
  (src/embeddedpython.cpp:440-450), the self-test (src/embeddedpython.cpp:459-481), the
  package probes (src/librarychecker.cpp:1091-1094, src/startupchecker.cpp:135-138), `unzip`
  (src/librarychecker.cpp:805-811) and `tar` (src/librarychecker.cpp:935-941). `pip install`
  waits in an event loop that a cancel also ends (src/embeddedpython.cpp:397-407). The model
  takes the exit code as an input, and that input is 0 for such a process.

## Model

| member | source | states |
|---|---|---|
| Presence.SlotName | src/startupchecker.cpp:54-106 | every component's folder name is non-empty and free of '/' |
| Presence.SlotsDistinct | src/librarychecker.cpp:169-316 | no two components share a folder under `libraries/` |
| Presence.ExeSuffixes | src/librarychecker.cpp:225-316 | on Windows ".exe" is appended to the four toolchain executables and to `bin/cmake` only; elsewhere the key-file lists are used as written |
| Presence.FirstAbsent | src/librarychecker.cpp:187-192 | the key-file loop stops at the first missing file, all earlier ones existing, and finds none exactly when every key file exists |
| Presence.ScanPresent | src/librarychecker.cpp:169-316 | the early-exit scan answers true exactly when the slot folder and every key file exist; when it fails with the folder present, it names the first missing key file, all earlier ones being present |
| Resolver.ToolchainSuffixTable | src/librarychecker.cpp:990-1017 | Windows alone gets a `.zip` toolchain; macOS gets the arm64 build exactly when the architecture is "arm64" or "aarch64"; Linux and unknown platforms get the x86_64 Linux `.tar.xz` |
| Resolver.CMakeSuffix | src/librarychecker.cpp:1019-1039 | the CMake archive is a `.zip` exactly on Windows and a `.tar.gz` elsewhere, unknown platforms using the Linux build |
| Resolver.FirmwareUrl | src/librarychecker.cpp:473-513 | the firmware URL is non-empty exactly when the tags request succeeded with a JSON array whose first element has a non-empty name; it is then the tag-archive prefix, the tag name and `.zip` |
| Resolver.FirmwareUrlUsesNewestTag | src/librarychecker.cpp:492-505 | only the first (newest) tag decides the firmware URL |
| Resolver.TempExtension | src/librarychecker.cpp:335-595 | the temporary archive ends in `.zip`, `.tar.xz` or `.tar.gz`; it is `.zip` exactly for the three zip-only components or a URL ending in ".zip"; `.tar.xz` only for the toolchain and `.tar.gz` only for CMake |
| Resolver.TempPath | src/librarychecker.cpp:438-440 | the temporary file's name ends in the extension chosen for the component and URL |
| Resolver.DispatchFollowsExtension | src/librarychecker.cpp:737-742 | onDownloadFinished takes the tar path exactly when the temporary file was given a tar extension |
| Resolver.TarExactlyOffWindows | src/librarychecker.cpp:737-742 | for the fetched archives, tar is used exactly for the toolchain and CMake on platforms other than Windows |
| Resolver.FirmwareIsZip | src/librarychecker.cpp:541-542 | the firmware archive is always unpacked as a zip |
| Resolver.Percent | src/librarychecker.cpp:628-643 | a progress value is shown exactly when the total is positive; it is the floor of received*100/total, so it lies in 0..100 while received <= total and is 100 when complete |
| Resolver.PercentMonotone | src/librarychecker.cpp:628-633 | receiving more bytes never lowers the shown percentage |
| PortablePython.DistributionTable | src/embeddedpython.cpp:49-77 | Windows gets the zip build holding `python.exe`; every other platform, unknown ones included, gets the `.tar.gz` build with `bin/python3`; macOS has its own URL and unknown platforms use the Linux one |
| PortablePython.InterpreterLayout | src/embeddedpython.cpp:79-100 | the interpreter is `python/python.exe` on Windows, outside `Scripts/`, and `python/bin/python3` elsewhere, inside `bin/` |
| PortablePython.ImportProbe | src/librarychecker.cpp:1077-1091 | each package probe is an `import` statement, and packages other than Pillow, lz4 and pypng are imported under their own name |
| PortablePython.InstallArgs | src/embeddedpython.cpp:379-384 | `pip install` arguments are `-m pip install [--user] <name>`, with `--user` on Windows only |
| PortablePython.PthRewriteStable | src/embeddedpython.cpp:308-325 | rewriting `python311._pth` a second time changes nothing exactly when the file already mentioned `import site` |
| PortablePython.PthRewriteEnablesSite | src/embeddedpython.cpp:316-321 | when the file holds no `#import site`, the rewrite leaves a live `import site` line: one at the start of the file or right after a newline |
| PortablePython.StockPthStaysDisabled | src/embeddedpython.cpp:313-321 | the stock `python311._pth`, whose only site line is `#import site`, is left unchanged and has no live `import site` line |
| PortablePython.LiveSiteAfterLine | src/embeddedpython.cpp:313-321 | a line that does not start with `i` can be skipped when looking for a live `import site` line |
| PortablePython.EnableSiteIsLive | src/embeddedpython.cpp:313-321 | the corrected edit always leaves a live `import site` line, and a second run changes nothing |
| PortablePython.NoCommentedSiteAppended | src/embeddedpython.cpp:316-321 | the appended line never creates a commented-out `#import site` |
| PortablePython.RunScriptArgs | src/embeddedpython.cpp:426-451 | runScript passes the script path first, then its arguments unchanged and in order |
| PortablePython.DownloadOutcome | src/embeddedpython.cpp:168-265 | the temporary archive is removed exactly when the reply succeeded uncancelled and was saved; success additionally needs the unpacker to exit 0; otherwise the disk is unchanged; after unpacking, `python/` and the unpacked paths exist |
| PortablePython.MissingPackagesExact | src/librarychecker.cpp:1067-1101 | a package is reported missing exactly when it is required and its import probe exits nonzero |
| PortablePython.MissingPackagesInOrder | src/librarychecker.cpp:1077-1091 | the missing packages keep the order of the required list |
| PortablePython.FailedInstallsExact | src/embeddedpython.cpp:148-158 | a package is reported failed exactly when its `pip install` exits nonzero; the list is empty exactly when every install succeeds |
| PortablePython.SetupResult | src/embeddedpython.cpp:119-166 | setup reports what the final self-test found, and marks itself complete exactly then |
| PortablePython.SetupFailsEarly | src/embeddedpython.cpp:121-141 | a declined download question or a failed distribution download always fails setup |
| PortablePython.SetupIgnoresPip | src/embeddedpython.cpp:143-145 | a failed get-pip step never changes setup's result |
| PortablePython.EmbeddedPython.InstallPackage | src/embeddedpython.cpp:366-424 | installs with the platform's pip arguments and succeeds exactly when the interpreter exits 0 |
| PortablePython.EmbeddedPython.RunScript | src/embeddedpython.cpp:426-451 | succeeds exactly when the interpreter exits 0 on the script and its arguments |
| PortablePython.EmbeddedPython.VerifyInstallation | src/embeddedpython.cpp:453-487 | runs the probes in order and stops at the first failure; succeeds exactly when every probe passes; every probe before the last one run passed |
| PortablePython.EmbeddedPython.ExtractDistribution | src/embeddedpython.cpp:267-304 | creates `python/`, adds the unpacked paths, and succeeds exactly on exit code 0 |
| PortablePython.EmbeddedPython.DownloadDistribution | src/embeddedpython.cpp:168-265 | result and new disk are those of DownloadOutcome |
| PortablePython.EmbeddedPython.InstallPip | src/embeddedpython.cpp:306-364 | result, disk and `_pth` texts are those of PipSpec, which applies the corrected `_pth` edit |
| PortablePython.EmbeddedPython.InstallEach | src/embeddedpython.cpp:148-158 | tries every package without stopping early and returns exactly the failed ones, in order |
| PortablePython.EmbeddedPython.Setup | src/embeddedpython.cpp:119-166 | result, disk and completion flag are those of SetupSpec |
| Extraction.FirstMatch | src/librarychecker.cpp:836-858 | picks the first listed entry the rule accepts; with none, no entry is accepted |
| Extraction.OnlyFirmwareMatchesItsSlot | src/librarychecker.cpp:841-856 | of the five prefixes, only the firmware's also accepts the slot folder's own name |
| Extraction.ZipExtractWith | src/librarychecker.cpp:781-926 | the zip is deleted exactly when the unpack succeeds; a moved folder counts only when its listing, which outside Windows skips names beginning with '.', is not empty |
| Extraction.ScratchAlwaysRemoved | src/librarychecker.cpp:873-923 | on Windows, the scratch folder is gone after every way out |
| Extraction.ZipRefusesToolFailure | src/librarychecker.cpp:818-826 | a nonzero exit code, or on Windows an error report, fails the unpack and keeps the archive |
| Extraction.ZipSuccessInstalls | src/librarychecker.cpp:858-898 | when a folder was picked, success means the slot exists and lists at least one entry that is not hidden |
| Extraction.PickedApartFromSlot | src/librarychecker.cpp:858-864 | a picked folder other than the slot neither contains the slot nor lies inside it |
| Extraction.RulesAgreeElsewhere | src/librarychecker.cpp:826-856 | the corrected folder rule differs from the written one only for firmware on platforms other than Windows |
| Extraction.ZipExtractSucceeds | src/librarychecker.cpp:826-898 | with a clean tool run, an allowed move and a picked folder listing a visible entry, the unpack succeeds, installs the slot and deletes the archive |
| Extraction.TarExtract | src/librarychecker.cpp:928-988 | the tar is deleted exactly when the tool exits 0, and success implies deletion |
| Extraction.TarNeverPicksSlot | src/librarychecker.cpp:958-963 | the tar prefixes never accept the slot's own name |
| Extraction.TarIgnoresOtherKinds | src/librarychecker.cpp:948-983 | for components other than the toolchain and CMake, a tar unpack only adds the written paths and succeeds on exit 0 |
| Extraction.TarAcceptsEmptyFolder | src/librarychecker.cpp:966-976 | a tar whose picked folder lists no visible entry still succeeds, leaving a slot that lists none |
| Extraction.ZipRejectsEmptyFolder | src/librarychecker.cpp:880-888 | the same folder fails through the zip path, which keeps the archive |
| Extraction.HiddenOnlyFolderRejected | src/librarychecker.cpp:880-888 | outside Windows, an LVGL folder holding only `.gitignore` lists nothing, so the zip unpack fails and keeps the archive |
| Extraction.FirmwareSelfMatchAsWritten | src/librarychecker.cpp:826-864 | with the written rule, an earlier incomplete firmware slot listed before a fresh release folder makes the unpack fail |
| Extraction.StaleSlotPassedOver | src/librarychecker.cpp:826-864 | the corrected rule passes over that slot, installs the release folder and deletes the archive |
| Extraction.FirmwareSelfMatchCorrected | src/librarychecker.cpp:826-864 | on the same disk, the corrected rule installs the release |
| Libraries.DownloadSuccessIsClean | src/librarychecker.cpp:645-768 | a download succeeds only after a good reply and a written archive, and then leaves no archive behind |
| Libraries.FirmwareWithoutTagFails | src/librarychecker.cpp:515-535 | a firmware download without a usable tag fails, keeps nothing and leaves the disk unchanged |
| Libraries.FailedZipKeepsArchive | src/librarychecker.cpp:740-768 | once written, a zip archive is kept exactly when the unpack fails |
| Libraries.TarKeepsArchiveOnToolFailure | src/librarychecker.cpp:737-739 | once written, a tar archive is kept exactly when the tool exits nonzero |
| Libraries.ZipDownloadInstalls | src/librarychecker.cpp:645-768 | a successful zip download that picked a folder leaves the slot present and listing a visible entry |
| Libraries.CheckPackages | src/librarychecker.cpp:1067-1101 | without an interpreter the packages count as absent with nothing listed; with one, they are present exactly when none is missing |
| Libraries.PresenceFlags | src/librarychecker.cpp:60-72 | the table's presence column has one flag for each of the six rows probed |
| Libraries.CompletedFailedSplitMissing | src/librarychecker.cpp:123-134 | the installed and failed lists together hold exactly the missing rows |
| Libraries.ListedRows | src/librarychecker.cpp:75-134 | a name is listed as missing, installed or failed exactly when a row of that name is in that state |
| Libraries.NoFailures | src/librarychecker.cpp:138-166 | no failed row exactly when every missing row was installed |
| Libraries.NothingMissingNothingListed | src/librarychecker.cpp:75-85 | an empty missing list means every row is present |
| Libraries.Step | src/librarychecker.cpp:88-111 | one download block changes only its own row's download flag, and does nothing for a present row |
| Libraries.Downloads | src/librarychecker.cpp:88-111 | the five download blocks keep every row's name and presence, and leave present rows and the interpreter rows alone |
| Libraries.NothingMissingChangesNothing | src/librarychecker.cpp:87-89 | with every row present, nothing is downloaded, nothing changes and the check succeeds |
| Libraries.RowsKeepOrder | src/librarychecker.cpp:60-166 | the table keeps its rows, their order and the presence found before any download |
| Libraries.PresentRowsUntouched | src/librarychecker.cpp:88-120 | rows present at the start are never downloaded |
| Libraries.RowsPartition | src/librarychecker.cpp:123-134 | for distinct names, the two lists split the missing rows, and a present row appears in neither |
| Libraries.SummaryPartition | src/librarychecker.cpp:123-166 | the whole check's lists split its missing rows, and it succeeds exactly when nothing failed |
| Libraries.HopelessDownloadFails | src/librarychecker.cpp:88-111 | a missing library whose download cannot succeed on any disk is listed as failed, and the check fails |
| Libraries.PackagesRowOutcome | src/librarychecker.cpp:118-120 | a missing package row is installed exactly when every package install succeeded |
| Libraries.PackagesRowWithoutPython | src/librarychecker.cpp:1067-1075 | without an interpreter, the package check reports nothing missing yet adds a package row |
| Libraries.FirmwareWithoutTagFailsCheck | src/librarychecker.cpp:473-535 | a missing firmware with no usable release tag makes the whole check fail, with the firmware listed as failed |
| Libraries.RowNamesDistinct | src/librarychecker.cpp:60-72 | the seven row names are all different |
| Libraries.LibraryChecker.constructor | src/librarychecker.cpp:19-30 | a new checker owns a fresh, not-yet-set-up interpreter manager on the same disk, with no download pending |
| Libraries.LibraryChecker.RemoveScratch | src/librarychecker.cpp:921-924 | removes the Windows scratch folder and nothing else |
| Libraries.LibraryChecker.FindCandidate | src/librarychecker.cpp:836-858 | finds the first listed folder the corrected rule accepts, and none when it accepts no folder |
| Libraries.LibraryChecker.ExtractZip | src/librarychecker.cpp:781-926 | result, archive deletion and new disk are those of the corrected ZipExtract |
| Libraries.LibraryChecker.PlaceFolder | src/librarychecker.cpp:858-906 | the slot is removed, then the picked folder moved into it; success needs the move and a slot whose listing (hidden entries left out outside Windows) is not empty |
| Libraries.LibraryChecker.ExtractTar | src/librarychecker.cpp:928-988 | result, archive deletion and new disk are those of TarExtract |
| Libraries.LibraryChecker.OnDownloadError | src/librarychecker.cpp:770-779 | marks the download as failed |
| Libraries.LibraryChecker.OnDownloadFinished | src/librarychecker.cpp:645-768 | with no reply in flight nothing happens; otherwise the reply is consumed and the result follows FinishSpec |
| Libraries.LibraryChecker.Download | src/librarychecker.cpp:318-626 | each download* method's result and new disk are those of DownloadSpec |
| Libraries.LibraryChecker.ProbeEach | src/librarychecker.cpp:1077-1091 | returns exactly the packages whose import fails, in order |
| Libraries.LibraryChecker.IsPythonPackagesPresent | src/librarychecker.cpp:1067-1101 | the answer and the missing list are those of CheckPackages on the current disk |
| Libraries.LibraryChecker.DownloadPythonPackages | src/librarychecker.cpp:1103-1126 | succeeds exactly when every package install exits 0 |
| Libraries.LibraryChecker.ScanRows | src/librarychecker.cpp:60-72 | the table is built from the presence checks and has a package row exactly when packages are missing |
| Libraries.LibraryChecker.MissingList | src/librarychecker.cpp:75-85 | the missing list holds the rows not present, in table order |
| Libraries.LibraryChecker.Summarize | src/librarychecker.cpp:123-134 | the installed and failed lists are those of Completed and Failed |
| Libraries.LibraryChecker.DownloadRow | src/librarychecker.cpp:88-111 | one download block behaves as Step |
| Libraries.LibraryChecker.DownloadLibraries | src/librarychecker.cpp:88-111 | the five blocks behave as Downloads |
| Libraries.LibraryChecker.SetupRow | src/librarychecker.cpp:113-115 | the interpreter row records SetupSpec's result |
| Libraries.LibraryChecker.PackagesRow | src/librarychecker.cpp:118-120 | a missing package row records whether every package install succeeded; otherwise the rows are unchanged |
| Libraries.LibraryChecker.InstallInterpreter | src/librarychecker.cpp:113-120 | interpreter setup then package install, in order: the package step sees the rows the setup step left |
| Libraries.LibraryChecker.DownloadMissing | src/librarychecker.cpp:88-166 | the part after the scan behaves as Orchestrate |
| Libraries.LibraryChecker.CheckAndDownloadLibraries | src/librarychecker.cpp:48-167 | result, table, lists and new disk are those of CheckSpec |
| Startup.ScanPackages | src/startupchecker.cpp:112-148 | packages are probed only with an interpreter; the package flag is then set exactly when one is missing |
| Startup.ScanKeepsPackageOrder | src/startupchecker.cpp:121-143 | the missing packages keep the required order |
| Startup.FirmwareScanIsPresence | src/startupchecker.cpp:84-91 | the startup firmware check is exactly the library checker's presence test |
| Startup.CMakeScanIsPresence | src/startupchecker.cpp:97-107 | the startup CMake check is exactly the library checker's presence test |
| Startup.SdkScanWithinPresence | src/startupchecker.cpp:62-66 | a present SDK passes the startup SDK check |
| Startup.ToolchainScanWithinPresence | src/startupchecker.cpp:71-78 | a present toolchain passes the startup toolchain check |
| Startup.ScanAgreesWithPresence | src/startupchecker.cpp:48-151 | the startup firmware and CMake flags are set exactly when the library checker finds the component absent; a present SDK or toolchain is never flagged |
| Startup.LvglChecksDiffer | src/startupchecker.cpp:53-57 | an LVGL slot the library checker calls present can still be flagged missing at startup, when `scripts/LVGLImage.py` is absent |
| Startup.ShownExact | src/startupchecker.cpp:156-185 | a line is shown exactly when its flag is set, in dialog order |
| Startup.ShownEmpty | src/startupchecker.cpp:156-187 | nothing is shown exactly when no flag is set |
| Startup.PermissionItemsEmpty | src/startupchecker.h:29-32 | the dialog lists nothing exactly when hasAnyMissing is false |
| Startup.PackagesLineLast | src/startupchecker.cpp:183-185 | the packages line is shown only when the interpreter is there, and then comes last |
| Startup.PackagesItemNamesThem | src/startupchecker.cpp:184 | the packages line starts with its label, is only the label when nothing is missing, and names every missing package |
| Startup.StartupChecker.constructor | src/startupchecker.cpp:11-19 | a new checker owns a fresh library checker and a separate fresh interpreter manager |
| Startup.StartupChecker.PerformStartupCheck | src/startupchecker.cpp:31-46 | the result is exactly that of checkAndDownloadLibraries |
| Startup.StartupChecker.ProbePackages | src/startupchecker.cpp:121-143 | returns exactly the packages whose import fails, in order |
| Startup.ScanSlots | src/startupchecker.cpp:53-107 | each library is flagged exactly when its startup file test fails: the LVGL script, the SDK header, the gcc executable, and the firmware and CMake folders with their key files |
| Startup.StartupChecker.CheckAllComponents | src/startupchecker.cpp:48-151 | the flags and package list are those of ScanSpec on the current disk |
| Startup.StartupChecker.ScanPython | src/startupchecker.cpp:112-148 | reports the interpreter's availability, and probes the packages only when it is available |
| Startup.StartupChecker.RequestUserPermission | src/startupchecker.cpp:153-200 | lists exactly PermissionItems and returns the user's answer |
| Startup.StartupChecker.InstallMissing | src/startupchecker.cpp:230-246 | tries every missing package and returns the failed ones, in order |
| Startup.StartupChecker.DownloadAndSetupComponents | src/startupchecker.cpp:202-252 | result and new disk are those of ComponentsSpec |
| Startup.NothingMissingNothingDone | src/startupchecker.cpp:202-252 | with nothing flagged, the step succeeds and changes nothing |
| Startup.LibraryFailureFails | src/startupchecker.cpp:210-251 | a failed library run fails the whole step |
| Startup.PythonSetupTakesPrecedence | src/startupchecker.cpp:222-246 | when the interpreter is missing its setup decides, and the package flag is ignored |
| Startup.PackagesDecideWithPython | src/startupchecker.cpp:230-246 | with only packages missing, the step succeeds exactly when every install succeeds |
| ScriptRunner.ScriptInLvglSlot | src/lvglscriptrunner.cpp:24-31 | the converter script lies inside the LVGL slot |
| ScriptRunner.FileNameIsLastComponent | src/lvglscriptrunner.cpp:90-91 | the file name is the tail of the path after its last '/' |
| ScriptRunner.BeforeDotIsFirstPart | src/lvglscriptrunner.cpp:90-91 | the base name stops before the first '.' |
| ScriptRunner.BaseNameParts | src/lvglscriptrunner.cpp:90-91 | a base name holds neither '/' nor '.' and starts the file name |
| ScriptRunner.SanitizedName | src/lvglscriptrunner.cpp:95-100 | the sanitised name has the same length, only valid characters, and keeps every valid one in place |
| ScriptRunner.SanitizeIdempotent | src/lvglscriptrunner.cpp:95-100 | sanitising twice is sanitising once, and a valid name is left alone |
| ScriptRunner.AsciiSanitizedIsIdentifier | src/lvglscriptrunner.cpp:95-100 | with ASCII classification, a sanitised name holds only letters, digits and '_' |
| ScriptRunner.Sanitize | src/lvglscriptrunner.cpp:95-100 | the in-place loop yields exactly SanitizedName |
| ScriptRunner.ScriptArgs | src/lvglscriptrunner.cpp:115-120 | the converter gets nine arguments: the image, `--output` and the folder, `--ofmt C`, `--cf RGB565`, and `--name` with the sanitised name |
| ScriptRunner.ConvertedSound | src/lvglscriptrunner.cpp:124-133 | every array name belongs to an image whose conversion succeeded |
| ScriptRunner.ConvertedComplete | src/lvglscriptrunner.cpp:124-133 | every image that converted has its name in the array |
| ScriptRunner.ConvertedNone | src/lvglscriptrunner.cpp:148-152 | with no successful conversion the array is empty |
| ScriptRunner.ConvertedInOrder | src/lvglscriptrunner.cpp:84-144 | the array keeps the images' order and is no longer than the selection |
| ScriptRunner.HeaderMatchesImages | src/lvglscriptrunner.cpp:155-181 | the header declares exactly the converted images, in order, and its IMAGE_COUNT equals the number of declarations |
| ScriptRunner.EntriesAreJoined | src/lvglscriptrunner.cpp:189-200 | the array body is the references separated by ",\n", with no trailing comma |
| ScriptRunner.EmptySelectionFails | src/lvglscriptrunner.cpp:49-51 | an empty selection fails and changes nothing |
| ScriptRunner.NoConversionNoFiles | src/lvglscriptrunner.cpp:148-152 | without one successful conversion nothing is generated and the run fails |
| ScriptRunner.WrittenHeaderConsistent | src/lvglscriptrunner.cpp:155-181 | a written header declares each converted image once and counts them correctly |
| ScriptRunner.LvglScriptRunner.constructor | src/lvglscriptrunner.cpp:13-16 | a new runner owns a fresh interpreter manager on the same disk |
| ScriptRunner.LvglScriptRunner.EnsurePythonReady | src/lvglscriptrunner.cpp:33-45 | ready exactly when the interpreter is available |
| ScriptRunner.LvglScriptRunner.ConvertAll | src/lvglscriptrunner.cpp:84-144 | collects exactly the converted names up to the cancel point, with one declaration each |
| ScriptRunner.LvglScriptRunner.HeaderText | src/lvglscriptrunner.cpp:161-178 | the written header text is the preamble, the declarations and the count line |
| ScriptRunner.LvglScriptRunner.ImplText | src/lvglscriptrunner.cpp:189-200 | the written source text is ImplLines |
| ScriptRunner.LvglScriptRunner.WriteOutputs | src/lvglscriptrunner.cpp:155-203 | each generated file is written exactly when it can be opened |
| ScriptRunner.LvglScriptRunner.ProcessImages | src/lvglscriptrunner.cpp:47-214 | result and new disk are those of ProcessSpec |
| Window.SizeAccepted | src/mainwindow.cpp:160-183 | a picture is accepted exactly when it loads at 170 by 320; otherwise load failure or wrong size is reported |
| Window.AddKeepsWellFormed | src/mainwindow.cpp:94-120 | adding keeps the list within ten, without repeated paths and indexed by position; it is accepted exactly when there is room, the size fits and the path is new, and then grows by that path alone |
| Window.FullListUnchanged | src/mainwindow.cpp:95-99 | a full list takes nothing, whatever the picture |
| Window.RemoveKeepsWellFormed | src/mainwindow.cpp:122-133 | removal keeps the list well formed; an index out of range changes nothing; otherwise exactly that path is removed and the order kept |
| Window.RemoveUndoesAdd | src/mainwindow.cpp:94-133 | removing the image just added restores the list |
| Window.LayoutIsRowMajor | src/mainwindow.cpp:144-150 | preview i sits in row i/4 and column i%4, in reading order, and ten images fit in three rows |
| Window.FlashCarriesList | src/mainwindow.cpp:185-202 | flashing is requested exactly for a non-empty list, and carries every listed path once, in list order |
| Window.MainWindow.constructor | src/mainwindow.cpp:10-35 | the window opens with an empty list, a disabled upload button and a runner on the same disk |
| Window.MainWindow.UpdateUI | src/mainwindow.cpp:135-158 | the grid, counter and upload button are rebuilt from the list, which is left unchanged |
| Window.MainWindow.AddImage | src/mainwindow.cpp:94-120 | the outcome and new list are those of AddOutcome and AddSpec; the widgets are refreshed only on success |
| Window.MainWindow.RemoveImage | src/mainwindow.cpp:122-133 | the new list is RemoveSpec; the widgets are refreshed only for a valid index |
| Window.MainWindow.FlashImages | src/mainwindow.cpp:185-202 | an empty list changes nothing; otherwise the paths, in list order, go to processImages with the `generated` folder |
| Drop.AfterLastDotIsLastPart | src/imagedropwidget.cpp:43-44 | a suffix exists exactly when there is a dot; it is the dot-free tail after the last dot |
| Drop.OneBadUrlRejects | src/imagedropwidget.cpp:35-50 | one non-local or non-image URL turns the whole drag away |
| Drop.ExtensionCaseIgnored | src/imagedropwidget.cpp:33-46 | `dir/stem.EXT` is let in exactly when the lower-cased extension is png, jpg, jpeg, bmp or gif |
| Drop.NoExtensionRejected | src/imagedropwidget.cpp:43-46 | a file name without a dot is never accepted |
| Drop.DragEnter | src/imagedropwidget.cpp:29-58 | the drag is accepted exactly when it carries URLs and every URL is a local image file |
| Drop.LocalPathsExact | src/imagedropwidget.cpp:60-72 | every local URL is forwarded, whatever its extension, and nothing else is |
| Drop.DropKeepsWellFormed | src/imagedropwidget.cpp:60-72 | however many files are dropped, the list stays well formed and only grows |
| Drop.DropEvent | src/imagedropwidget.cpp:60-72 | each local path goes through addImage in order; without a window nothing happens |

## Left out

- Network and process plumbing are not modelled: QNetworkAccessManager, the nested event
  loops, and `msleep`. Their outcomes enter as inputs: reply success, file write, exit code,
  error output, written paths. A process that cannot start, or is still running when the
  wait ends, is an exit code of 0 in these inputs, as the code reads it.
- Dialogs, message texts and the progress dialog's label are not modelled. The user's
  answers are inputs.
- Clock readings that name the temporary files and the Windows scratch folder are natural
  numbers given as inputs.
- JSON parsing of the tags reply is an input: either not an array, or a list of tag names.
- Image loading is an input: `Pixmap` is either unloadable or a width and height.
- Paths are relative to the application folder, and `applicationDirPath` is not modelled.
  `absolutePath` of the output folder is the `absDir` input.
- The directory listing given to the zip and tar unpackers is an input. It is not derived
  from the disk.
- The temporary archive lives outside the modelled tree. Whether it is kept is reported as
  a flag.
- The bullet prefixes of the missing list and the check marks of the summary are not
  modelled. The lists are modelled as names.
- configureAndBuildMCU and flashFirmware (src/lvglscriptrunner.cpp:216-359) are not part of
  this model. Their success is the `buildOk` input of processImages.
- The MainWindow constructor's startup check and its warning dialog are not modelled. The
  image list's constructor starts from an empty list.
- imagepreviewwidget, main.cpp and create_dummy_image.py are not part of this model.
- StartupChecker::downloadPythonComponents (src/startupchecker.cpp:254-258) has an empty
  body and is not modelled.
- EmbeddedPython::onDownloadProgress is not modelled. LibraryChecker's percentage is
  modelled as `Resolver.Percent`.
- ScriptRunner.Valid: `QChar::isLetterOrNumber` is a classifier parameter, because Unicode
  categories are not modelled. `AsciiAlnum` is the ASCII instance.
- Text.LowerAscii: `toLower` and case-insensitive `contains` change ASCII letters only.
- Resolver.Percent: does not model overflow of `bytesReceived * 100` in 64-bit arithmetic,
  because integers here are unbounded.
- PortablePython.EmbeddedPython.Setup: the interpreter's exit code for a given argument list
  is the same on every call. An interpreter whose answers change during a run is not
  modelled.
- ScriptRunner.LvglScriptRunner.ProcessImages: the user's cancel is the `cancelAt` input,
  the number of images converted before it.
- Window.MainWindow.FlashImages: the result of processImages is not returned, because the
  source ignores it as well.
- PortablePython.EmbeddedPython.InstallPip: uses the corrected `_pth` test (`EnableSite`,
  a live `import site` line) where the code tests for the substring `#import site`. The two
  differ on a file holding `#import site` and no live line, such as the stock file; see
  Findings.
- PortablePython.EmbeddedPython.Setup: inherits the corrected `_pth` test through SetupSpec.
- Libraries.LibraryChecker.SetupRow: inherits the corrected `_pth` test through SetupSpec.
- Libraries.LibraryChecker.InstallInterpreter: inherits the corrected `_pth` test through
  SetupSpec.
- Startup.StartupChecker.DownloadAndSetupComponents: inherits the corrected `_pth` test
  through SetupSpec, and the corrected zip folder rule through checkAndDownloadLibraries.
- Extraction.ZipExtractWith: the model has no hidden file attribute. On Windows a moved
  folder holding only entries marked hidden counts as not empty, whereas the listing at
  src/librarychecker.cpp:880 skips them and the unpack fails. Outside Windows a name
  beginning with '.' is hidden, and the model leaves such entries out as the listing does.
- Libraries.LibraryChecker.PlaceFolder: counts Windows entries marked hidden as content, for
  the reason given for Extraction.ZipExtractWith.
- Libraries.LibraryChecker.ExtractZip: counts Windows entries marked hidden as content, for
  the reason given for Extraction.ZipExtractWith.
- Libraries.LibraryChecker.ExtractZip: picks the folder to move with the corrected rule
  (`Extraction.ZipCandidate`), which passes over the slot's own name. The rule as written
  differs only for firmware on platforms other than Windows (`Extraction.RulesAgreeElsewhere`),
  where a stale slot makes the unpack fail (`Extraction.FirmwareSelfMatchAsWritten`); see
  Findings.
- Libraries.LibraryChecker.FindCandidate: searches with the corrected zip folder rule.
- Libraries.LibraryChecker.OnDownloadFinished: inherits the corrected zip folder rule
  through ZipExtract.
- Libraries.LibraryChecker.Download: inherits the corrected zip folder rule through
  DownloadSpec.
- Libraries.LibraryChecker.DownloadRow: inherits the corrected zip folder rule through
  DownloadSpec.
- Libraries.LibraryChecker.DownloadLibraries: inherits the corrected zip folder rule through
  DownloadSpec.
- Libraries.LibraryChecker.DownloadMissing: inherits the corrected zip folder rule through
  DownloadSpec, and the corrected `_pth` test through SetupSpec.
- Libraries.LibraryChecker.CheckAndDownloadLibraries: inherits the corrected zip folder rule
  through DownloadSpec, and the corrected `_pth` test through SetupSpec.
- Libraries.ZipDownloadInstalls: is stated for the corrected zip folder rule.
- Extraction.ZipExtractSucceeds: is stated for the corrected zip folder rule.
- Extraction.ZipRejectsEmptyFolder: is stated for the corrected zip folder rule.
- Startup.StartupChecker.PerformStartupCheck: inherits the corrected zip folder rule and the
  corrected `_pth` test through checkAndDownloadLibraries.
- The lemmas about the whole table (`Libraries.Step`, `Libraries.Downloads`,
  `Libraries.RowsPartition`, `Libraries.SummaryPartition` and the others over Orchestrate)
  hold for any downloader and any setup outcome, so they hold for the rules as written too.
- The download URLs of the SDK, toolchain and CMake are compile-time constants, modelled as
  the opaque `Sources` input. Only their archive suffixes are spelled out.

## Findings

| source | as written | input that shows it | evidently intended | confidence | as-written member | corrected member |
|---|---|---|---|---|---|---|
| src/librarychecker.cpp:826-864 | Outside Windows, the zip is unpacked into `libraries/` and that folder is listed. The firmware prefix `nrf52-lcd-tester-fw` also accepts the slot folder `nrf52-lcd-tester-fw` itself. The slot folder sorts first, so it is picked, deleted, and then renamed onto itself, and the unpack fails. | A Linux disk with an incomplete `libraries/nrf52-lcd-tester-fw` left by an earlier run. The unpacker writes `nrf52-lcd-tester-fw-1.4.0`, and the listing is `["nrf52-lcd-tester-fw", "nrf52-lcd-tester-fw-1.4.0"]`. | The slot's own folder is passed over, so the freshly unpacked release folder is moved into the slot. | not executed | Extraction.FirmwareSelfMatchAsWritten | Extraction.FirmwareSelfMatchCorrected |
| src/embeddedpython.cpp:313-321 | The `_pth` file is rewritten only when it does not contain `#import site`. The stock file of the Windows embeddable build already has that commented-out line, so it is left as it is, and site-packages stays off. | The stock `python311._pth`: `python311.zip`, `.`, an empty line, `# Uncomment to run site.main() automatically`, `#import site`. | The file ends up with a live `import site` line, so the packages that pip installs can be imported. | not executed | PortablePython.StockPthStaysDisabled | PortablePython.EnableSiteIsLive |
