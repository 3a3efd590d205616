/** LibraryChecker: checks which components are installed, downloads and unpacks the
    missing ones in a fixed order, and reports which of them could be installed. */
module Libraries {
  import opened Text
  import opened Platform
  import opened FileTree
  import opened Presence
  import opened Resolver
  import opened Extraction
  import opened PortablePython

  /** What the build and the machine fix: the platform, the CPU architecture reported at
      run time, the download sources, and the system temp folder. */
  datatype Config = Config(os: Os, arch: string, src: Sources, tempDir: string)

  /** One component download as the environment plays it out: the tags reply (used for
      the firmware only), the clock reading that names the temp file, whether the reply
      finished without error (a cancel aborts it with one), whether the archive could be
      written, the clock reading that names the Windows scratch folder, the unpacking
      tool's run, and whether the platform allows the folder move. */
  datatype Fetch = Fetch(tags: TagsReply, stamp: nat, replyOk: bool, saved: bool,
                         scratchStamp: nat, tool: ToolRun, allowed: bool)

  /** Success, the disk afterwards, and whether the downloaded archive is left behind in
      the temp folder (which lies outside the modelled tree). */
  datatype Fetched = Fetched(ok: bool, paths: Tree, archiveKept: bool)

  /** The URL each component is fetched from; the firmware's comes from the tags reply. */
  function ComponentUrl(cfg: Config, k: Kind, tags: TagsReply): string {
    if k == Firmware then FirmwareUrl(cfg.src.firmwareRepo, tags) else ArchiveUrl(k, cfg.os, cfg.arch, cfg.src)
  }

  /** The unpacker onDownloadFinished picks for the saved file. */
  function Unpack(os: Os, t: Tree, k: Kind, tempPath: string, f: Fetch): Extracted {
    if UseTar(k, tempPath) then TarExtract(t, k, f.tool, f.allowed)
    else ZipExtract(os, t, k, f.scratchStamp, f.tool, f.allowed)
  }

  /** onDownloadFinished for a download of `k` saved to `tempPath`: a failed reply or an
      unwritable file fails; otherwise `libraries/` is created and the archive unpacked. */
  function FinishSpec(os: Os, t: Tree, k: Kind, tempPath: string, f: Fetch): Fetched {
    if !f.replyOk || !f.saved then Fetched(false, t, false)
    else
      var x := Unpack(os, t + {LibrariesDir}, k, tempPath, f);
      Fetched(x.ok, x.tree, !x.archiveRemoved)
  }

  /** download*: a firmware download without a release tag fails before anything is
      fetched; every other download is saved to its temp file and finished. */
  function DownloadSpec(cfg: Config, k: Kind, t: Tree, f: Fetch): Fetched {
    var url := ComponentUrl(cfg, k, f.tags);
    if k == Firmware && url == "" then Fetched(false, t, false)
    else FinishSpec(cfg.os, t, k, TempPath(cfg.tempDir, k, f.stamp, url), f)
  }

  /** A download succeeds only after a good reply and a written archive, and never leaves
      the archive behind. */
  lemma DownloadSuccessIsClean(cfg: Config, k: Kind, t: Tree, f: Fetch)
    ensures DownloadSpec(cfg, k, t, f).ok ==> f.replyOk && f.saved && !DownloadSpec(cfg, k, t, f).archiveKept
  {
  }

  /** A firmware download with no usable release tag fails, keeps nothing and changes
      nothing, whatever the rest of the environment would have done. */
  lemma FirmwareWithoutTagFails(cfg: Config, t: Tree, f: Fetch)
    requires !(f.tags.ok && f.tags.doc.TagArray? && |f.tags.doc.names| > 0 && f.tags.doc.names[0] != "")
    ensures DownloadSpec(cfg, Firmware, t, f) == Fetched(false, t, false)
  {
  }

  /** Every failure of a zip unpack after the archive was written leaves it in place. */
  lemma {:induction false} FailedZipKeepsArchive(cfg: Config, k: Kind, t: Tree, f: Fetch)
    requires f.replyOk && f.saved && ComponentUrl(cfg, k, f.tags) != ""
    requires !UseTar(k, TempPath(cfg.tempDir, k, f.stamp, ComponentUrl(cfg, k, f.tags)))
    ensures DownloadSpec(cfg, k, t, f).archiveKept <==> !DownloadSpec(cfg, k, t, f).ok
  {
    var url := ComponentUrl(cfg, k, f.tags);
    var x := ZipExtract(cfg.os, t + {LibrariesDir}, k, f.scratchStamp, f.tool, f.allowed);
    assert x.archiveRemoved == x.ok;
  }

  /** A tar unpack deletes the archive exactly when the tool exits 0, even when the folder
      move then fails. */
  lemma {:induction false} TarKeepsArchiveOnToolFailure(cfg: Config, k: Kind, t: Tree, f: Fetch)
    requires f.replyOk && f.saved && ComponentUrl(cfg, k, f.tags) != ""
    requires UseTar(k, TempPath(cfg.tempDir, k, f.stamp, ComponentUrl(cfg, k, f.tags)))
    ensures DownloadSpec(cfg, k, t, f).archiveKept <==> f.tool.exitCode != 0
  {
    var x := TarExtract(t + {LibrariesDir}, k, f.tool, f.allowed);
    assert x.archiveRemoved <==> f.tool.exitCode == 0;
  }

  /** A successful zip download that picked a folder leaves the component's slot in
      place and not empty. */
  lemma {:induction false} ZipDownloadInstalls(cfg: Config, k: Kind, t: Tree, f: Fetch)
    requires ComponentUrl(cfg, k, f.tags) != ""
    requires !UseTar(k, TempPath(cfg.tempDir, k, f.stamp, ComponentUrl(cfg, k, f.tags)))
    requires FirstMatch(f.tool.listing, Candidate(cfg.os, k)).Some?
    requires DownloadSpec(cfg, k, t, f).ok
    ensures SlotDir(k) in DownloadSpec(cfg, k, t, f).paths
    ensures HasChildren(cfg.os, DownloadSpec(cfg, k, t, f).paths, SlotDir(k))
  {
    ZipSuccessInstalls(cfg.os, t + {LibrariesDir}, k, f.scratchStamp, f.tool, f.allowed,
                       Candidate(cfg.os, k));
  }

  /** One row of the status table. */
  datatype Row = Row(name: string, present: bool, downloaded: bool)

  /** The library rows, in table order, and the component each one downloads. */
  const LibraryLabels: seq<string> := ["LVGL library (~15MB)", "nRF52 SDK (~150MB)", "ARM GNU Toolchain (~100MB)",
                                       "nRF52 LCD Tester Firmware (~1MB)", "CMake (~40MB)"]
  const Kinds: seq<Kind> := [Lvgl, NrfSdk, ArmToolchain, Firmware, CMake]
  const PythonLabel: string := "Embedded Python (~25MB)"

  function PackagesLabel(missing: seq<string>): string {
    "Python packages: " + Join(missing, ", ")
  }

  /** isPythonPackagesPresent: without an interpreter the list is empty and the answer
      is no; otherwise the packages whose import fails, in order. */
  datatype PackageCheck = PackageCheck(present: bool, missing: seq<string>)

  function CheckPackages(os: Os, t: Tree, run: Interpreter): (c: PackageCheck)
    ensures !Available(t, os, run) ==> !c.present && c.missing == []
    ensures Available(t, os, run) ==> (c.present <==> c.missing == [])
  {
    if !Available(t, os, run) then PackageCheck(false, [])
    else
      var m := MissingPackages(RequiredPackages, run);
      PackageCheck(m == [], m)
  }

  /** The table as first built from the presence of the five libraries and the
      interpreter (in table order) and the package check: a packages row is added only
      when that check failed. Nothing is downloaded yet. */
  function InitialRows(present: seq<bool>, c: PackageCheck): seq<Row>
    requires |present| == 6
  {
    [Row(LibraryLabels[0], present[0], false), Row(LibraryLabels[1], present[1], false),
     Row(LibraryLabels[2], present[2], false), Row(LibraryLabels[3], present[3], false),
     Row(LibraryLabels[4], present[4], false), Row(PythonLabel, present[5], false)] +
    (if c.present then [] else [Row(PackagesLabel(c.missing), false, false)])
  }

  /** What the table's presence column is computed from: is*Present and isPythonPresent. */
  function PresenceFlags(os: Os, t: Tree, run: Interpreter): (flags: seq<bool>)
    ensures |flags| == 6
  {
    [IsPresent(t, Kinds[0], os), IsPresent(t, Kinds[1], os), IsPresent(t, Kinds[2], os),
     IsPresent(t, Kinds[3], os), IsPresent(t, Kinds[4], os), Available(t, os, run)]
  }

  /** The names of the rows not present, of those installed, and of those that failed. */
  function MissingNames(rows: seq<Row>): seq<string> {
    if rows == [] then []
    else (if !rows[0].present then [rows[0].name] else []) + MissingNames(rows[1..])
  }

  function Completed(rows: seq<Row>): seq<string> {
    if rows == [] then []
    else (if !rows[0].present && rows[0].downloaded then [rows[0].name] else []) + Completed(rows[1..])
  }

  function Failed(rows: seq<Row>): seq<string> {
    if rows == [] then []
    else (if !rows[0].present && !rows[0].downloaded then [rows[0].name] else []) + Failed(rows[1..])
  }

  /** The installed and failed lists split the missing rows between them. */
  lemma {:induction false} CompletedFailedSplitMissing(rows: seq<Row>)
    ensures multiset(Completed(rows)) + multiset(Failed(rows)) == multiset(MissingNames(rows))
  {
    if rows != [] {
      CompletedFailedSplitMissing(rows[1..]);
    }
  }

  /** A name is listed exactly when some row of that name is in the matching state. */
  lemma {:induction false} ListedRows(rows: seq<Row>, x: string)
    ensures x in Completed(rows) <==> exists i :: 0 <= i < |rows| && rows[i].name == x && !rows[i].present && rows[i].downloaded
    ensures x in Failed(rows) <==> exists i :: 0 <= i < |rows| && rows[i].name == x && !rows[i].present && !rows[i].downloaded
    ensures x in MissingNames(rows) <==> exists i :: 0 <= i < |rows| && rows[i].name == x && !rows[i].present
  {
    if rows != [] {
      ListedRows(rows[1..], x);
      assert forall i :: 1 <= i < |rows| ==> rows[i] == rows[1..][i - 1];
      if exists i :: 1 <= i < |rows| && rows[i].name == x && !rows[i].present {
        var i :| 1 <= i < |rows| && rows[i].name == x && !rows[i].present;
        assert rows[1..][i - 1] == rows[i];
      }
    }
  }

  /** No failed row means every missing row was installed, and the other way round. */
  lemma {:induction false} NoFailures(rows: seq<Row>)
    ensures Failed(rows) == [] <==> forall i :: 0 <= i < |rows| && !rows[i].present ==> rows[i].downloaded
  {
    if rows != [] {
      NoFailures(rows[1..]);
      assert forall i :: 1 <= i < |rows| ==> rows[i] == rows[1..][i - 1];
    }
  }

  /** No missing row means nothing is listed at all. */
  lemma {:induction false} NothingMissingNothingListed(rows: seq<Row>)
    requires MissingNames(rows) == []
    ensures forall i :: 0 <= i < |rows| ==> rows[i].present
  {
    if rows != [] {
      NothingMissingNothingListed(rows[1..]);
      assert forall i :: 1 <= i < |rows| ==> rows[i] == rows[1..][i - 1];
    }
  }

  /** Where the table stands between downloads: its rows and the disk. */
  datatype State = State(rows: seq<Row>, paths: Tree)

  /** The outcome of downloading a component onto a given disk. */
  type Downloader = (Kind, Tree) -> Fetched

  /** One `if (!libraries[i].present)` block: download component `i` and record its
      outcome; a present row changes nothing. */
  function Step(dl: Downloader, s: State, i: nat): (r: State)
    requires i < 5 <= |s.rows|
    ensures |r.rows| == |s.rows|
    ensures forall j :: 0 <= j < |s.rows| ==> r.rows[j].name == s.rows[j].name && r.rows[j].present == s.rows[j].present
    ensures forall j :: 0 <= j < |s.rows| && j != i ==> r.rows[j] == s.rows[j]
    ensures s.rows[i].present ==> r == s
  {
    if s.rows[i].present then s
    else
      var d := dl(Kinds[i], s.paths);
      State(s.rows[i := s.rows[i].(downloaded := d.ok)], d.paths)
  }

  /** The five library downloads in table order. */
  function Downloads(dl: Downloader, s: State): (r: State)
    requires 5 <= |s.rows|
    ensures |r.rows| == |s.rows|
    ensures forall j :: 0 <= j < |s.rows| ==> r.rows[j].name == s.rows[j].name && r.rows[j].present == s.rows[j].present
    ensures forall j :: 0 <= j < |s.rows| && s.rows[j].present ==> r.rows[j] == s.rows[j]
    ensures forall j :: 5 <= j < |s.rows| ==> r.rows[j] == s.rows[j]
  {
    Step(dl, Step(dl, Step(dl, Step(dl, Step(dl, s, 0), 1), 2), 3), 4)
  }

  /** Every install of `pkgs` exits 0. */
  predicate AllInstall(os: Os, pkgs: seq<string>, run: Interpreter) {
    forall i :: 0 <= i < |pkgs| ==> run(InstallArgs(os, pkgs[i])) == 0
  }

  /** The result of checkAndDownloadLibraries and the state it leaves behind. */
  datatype Summary = Summary(ok: bool, rows: seq<Row>, completed: seq<string>, failed: seq<string>,
                             paths: Tree, text: map<string, string>, complete: bool)

  /** The rows once the interpreter row (when missing) has recorded the setup's outcome
      and the package row (when there and missing) the installs' outcome. */
  function InstallRows(rows: seq<Row>, setupOk: bool, pkgsOk: bool): (r: seq<Row>)
    requires 6 <= |rows|
    ensures |r| == |rows|
    ensures forall j :: 0 <= j < |rows| ==> r[j].name == rows[j].name && r[j].present == rows[j].present
    ensures forall j :: 0 <= j < |rows| && (j < 5 || rows[j].present) ==> r[j] == rows[j]
    ensures !rows[5].present ==> r[5].downloaded == setupOk
    ensures |rows| > 6 && !rows[6].present ==> r[6].downloaded == pkgsOk
  {
    var rows2 := if !rows[5].present then rows[5 := rows[5].(downloaded := setupOk)] else rows;
    if |rows2| > 6 && !rows2[6].present then rows2[6 := rows2[6].(downloaded := pkgsOk)] else rows2
  }

  /** checkAndDownloadLibraries, given what each of its steps does (`dl` for a library
      download, `setup` for setting up the interpreter on a disk, `pkgsOk` for the
      package installs): stop with success when nothing is missing; otherwise download the
      missing libraries in order, set up the interpreter when its row is missing, install
      the packages when their row is there, and succeed exactly when no missing row failed. */
  function Orchestrate(rows: seq<Row>, t: Tree, text: map<string, string>, complete: bool,
                       dl: Downloader, setup: Tree -> SetupOutcome, pkgsOk: bool): Summary
    requires 6 <= |rows|
  {
    if MissingNames(rows) == [] then Summary(true, rows, [], [], t, text, complete)
    else
      var s := Downloads(dl, State(rows, t));
      var o := setup(s.paths);
      var setUp := !s.rows[5].present;
      var rows3 := InstallRows(s.rows, o.ok, pkgsOk);
      Summary(Failed(rows3) == [], rows3, Completed(rows3), Failed(rows3),
              if setUp then o.paths else s.paths, if setUp then o.text else text,
              if setUp then o.complete else complete)
  }

  /** One unfolding of Orchestrate once something is missing, with its intermediate states named. */
  lemma OrchestrateUnfold(rows: seq<Row>, t: Tree, text: map<string, string>, complete: bool,
                          dl: Downloader, setup: Tree -> SetupOutcome, pkgsOk: bool)
    requires 6 <= |rows| && MissingNames(rows) != []
    ensures var s := Downloads(dl, State(rows, t));
      var o := setup(s.paths);
      var setUp := !s.rows[5].present;
      var rows3 := InstallRows(s.rows, o.ok, pkgsOk);
      Orchestrate(rows, t, text, complete, dl, setup, pkgsOk) ==
        Summary(Failed(rows3) == [], rows3, Completed(rows3), Failed(rows3),
                if setUp then o.paths else s.paths, if setUp then o.text else text,
                if setUp then o.complete else complete)
  {
  }

  /** What the environment does in one check: each component's download, and what
      setting up the interpreter meets (its `run` also answers the package probes). */
  datatype Env = Env(fetch: Kind -> Fetch, python: SetupEnv)

  /** Each library download as the environment `fetch` plays it out. */
  function DownloaderFor(cfg: Config, fetch: Kind -> Fetch): Downloader {
    (k, p) => DownloadSpec(cfg, k, p, fetch(k))
  }

  /** The interpreter setup as the environment `python` plays it out, from whatever disk
      the library downloads leave behind. */
  function SetupFor(os: Os, complete: bool, text: map<string, string>, python: SetupEnv): Tree -> SetupOutcome {
    p => SetupSpec(os, complete, p, text, python)
  }

  /** checkAndDownloadLibraries on the disk `t`, with the interpreter's `_pth` texts
      `text` and its set-up flag `complete`. */
  function CheckSpec(cfg: Config, t: Tree, text: map<string, string>, complete: bool, env: Env): Summary {
    var run := env.python.run;
    var c := CheckPackages(cfg.os, t, run);
    Orchestrate(InitialRows(PresenceFlags(cfg.os, t, run), c), t, text, complete,
                DownloaderFor(cfg, env.fetch),
                SetupFor(cfg.os, complete, text, env.python),
                AllInstall(cfg.os, c.missing, run))
  }

  /** With every row present nothing is downloaded, nothing changes, and the check succeeds. */
  lemma {:induction false} NothingMissingChangesNothing(rows: seq<Row>, t: Tree, text: map<string, string>, complete: bool,
                                                        dl: Downloader, setup: Tree -> SetupOutcome, pkgsOk: bool)
    requires 6 <= |rows| && forall i :: 0 <= i < |rows| ==> rows[i].present
    ensures Orchestrate(rows, t, text, complete, dl, setup, pkgsOk) == Summary(true, rows, [], [], t, text, complete)
  {
    ListedRows(rows, "");
    if MissingNames(rows) != [] {
      ListedRows(rows, MissingNames(rows)[0]);
    }
  }

  /** The table keeps its rows, their order and the presence found before any download. */
  lemma {:induction false} RowsKeepOrder(rows: seq<Row>, t: Tree, text: map<string, string>, complete: bool,
                                         dl: Downloader, setup: Tree -> SetupOutcome, pkgsOk: bool)
    requires 6 <= |rows|
    ensures var r := Orchestrate(rows, t, text, complete, dl, setup, pkgsOk);
      |r.rows| == |rows| && forall i :: 0 <= i < |rows| ==> r.rows[i].name == rows[i].name && r.rows[i].present == rows[i].present
  {
    var r := Orchestrate(rows, t, text, complete, dl, setup, pkgsOk);
    if MissingNames(rows) != [] {
      var s := Downloads(dl, State(rows, t));
      assert |r.rows| == |s.rows| == |rows|;
      forall i | 0 <= i < |rows|
        ensures r.rows[i].name == rows[i].name && r.rows[i].present == rows[i].present
      {
        assert r.rows[i].name == s.rows[i].name && r.rows[i].present == s.rows[i].present;
      }
    }
  }

  /** A row present from the start comes out unchanged: present rows are never downloaded. */
  lemma {:induction false} PresentRowsUntouched(rows: seq<Row>, t: Tree, text: map<string, string>, complete: bool,
                                                dl: Downloader, setup: Tree -> SetupOutcome, pkgsOk: bool)
    requires 6 <= |rows|
    ensures var r := Orchestrate(rows, t, text, complete, dl, setup, pkgsOk);
      forall i :: 0 <= i < |rows| && rows[i].present ==> r.rows[i] == rows[i]
  {
    var r := Orchestrate(rows, t, text, complete, dl, setup, pkgsOk);
    if MissingNames(rows) != [] {
      var s := Downloads(dl, State(rows, t));
      forall i | 0 <= i < |rows| && rows[i].present
        ensures r.rows[i] == rows[i]
      {
        assert s.rows[i] == rows[i];
      }
    }
  }

  /** For any table with distinct names: the two lists split the missing rows between
      them, a present row shows up in neither, and nothing failed exactly when every
      missing row was installed. */
  lemma {:induction false} RowsPartition(rows: seq<Row>)
    requires forall i, j :: 0 <= i < j < |rows| ==> rows[i].name != rows[j].name
    ensures multiset(Completed(rows)) + multiset(Failed(rows)) == multiset(MissingNames(rows))
    ensures Failed(rows) == [] <==> forall i :: 0 <= i < |rows| && !rows[i].present ==> rows[i].downloaded
    ensures forall i :: 0 <= i < |rows| && rows[i].present ==> rows[i].name !in Completed(rows) + Failed(rows)
  {
    CompletedFailedSplitMissing(rows);
    NoFailures(rows);
    forall i | 0 <= i < |rows| && rows[i].present
      ensures rows[i].name !in Completed(rows) + Failed(rows)
    {
      ListedRows(rows, rows[i].name);
    }
  }

  /** The report of a whole check: the lists split the missing rows, a present row shows
      up in neither, and the check succeeds exactly when every missing row was installed. */
  lemma {:induction false} SummaryPartition(rows: seq<Row>, t: Tree, text: map<string, string>, complete: bool,
                                            dl: Downloader, setup: Tree -> SetupOutcome, pkgsOk: bool)
    requires 6 <= |rows|
    requires forall i, j :: 0 <= i < j < |rows| ==> rows[i].name != rows[j].name
    ensures var r := Orchestrate(rows, t, text, complete, dl, setup, pkgsOk);
      multiset(r.completed) + multiset(r.failed) == multiset(MissingNames(r.rows)) &&
      (r.ok <==> forall i :: 0 <= i < |r.rows| && !r.rows[i].present ==> r.rows[i].downloaded) &&
      forall i :: 0 <= i < |r.rows| && r.rows[i].present ==> r.rows[i].name !in r.completed + r.failed
  {
    var r := Orchestrate(rows, t, text, complete, dl, setup, pkgsOk);
    RowsKeepOrder(rows, t, text, complete, dl, setup, pkgsOk);
    RowsPartition(r.rows);
    if MissingNames(rows) == [] {
      NothingMissingNothingListed(rows);
      NothingMissingChangesNothing(rows, t, text, complete, dl, setup, pkgsOk);
      RowsPartition(rows);
      assert multiset(Completed(rows)) == multiset{} && multiset(Failed(rows)) == multiset{};
    }
    assert r.completed == Completed(r.rows) && r.failed == Failed(r.rows) && (r.ok <==> r.failed == []);
  }

  /** A missing library whose download cannot succeed on any disk is still not installed
      after the five downloads. */
  lemma DownloadsKeepHopeless(dl: Downloader, s0: State, i: nat)
    requires 5 <= |s0.rows| && i < 5 && !s0.rows[i].present
    requires forall p :: !dl(Kinds[i], p).ok
    ensures !Downloads(dl, s0).rows[i].downloaded
  {
    var s1 := Step(dl, s0, 0);
    var s2 := Step(dl, s1, 1);
    var s3 := Step(dl, s2, 2);
    var s4 := Step(dl, s3, 3);
    var s5 := Step(dl, s4, 4);
    assert s5 == Downloads(dl, s0);
    if i == 0 {
      assert !s1.rows[0].downloaded;
    } else if i == 1 {
      assert !s2.rows[1].downloaded;
    } else if i == 2 {
      assert !s3.rows[2].downloaded;
    } else if i == 3 {
      assert !s4.rows[3].downloaded;
    }
  }

  /** A library whose download cannot succeed on any disk ends up in the failed list and
      fails the whole check. */
  lemma {:induction false} HopelessDownloadFails(rows: seq<Row>, t: Tree, text: map<string, string>, complete: bool,
                                                 dl: Downloader, setup: Tree -> SetupOutcome, pkgsOk: bool, i: nat)
    requires 6 <= |rows| && i < 5 && !rows[i].present
    requires forall p :: !dl(Kinds[i], p).ok
    ensures var r := Orchestrate(rows, t, text, complete, dl, setup, pkgsOk);
      !r.ok && rows[i].name in r.failed
  {
    ListedRows(rows, rows[i].name);
    var s5 := Downloads(dl, State(rows, t));
    DownloadsKeepHopeless(dl, State(rows, t), i);
    OrchestrateUnfold(rows, t, text, complete, dl, setup, pkgsOk);
    var o := setup(s5.paths);
    var rows3 := InstallRows(s5.rows, o.ok, pkgsOk);
    assert rows3[i] == s5.rows[i];
    assert Orchestrate(rows, t, text, complete, dl, setup, pkgsOk).rows == rows3;
    ListedRows(rows3, rows[i].name);
  }

  /** When the package row is there, it is installed exactly when every install succeeds. */
  lemma {:induction false} PackagesRowOutcome(rows: seq<Row>, t: Tree, text: map<string, string>, complete: bool,
                                              dl: Downloader, setup: Tree -> SetupOutcome, pkgsOk: bool)
    requires |rows| == 7 && !rows[6].present
    ensures Orchestrate(rows, t, text, complete, dl, setup, pkgsOk).rows[6] == rows[6].(downloaded := pkgsOk)
  {
    ListedRows(rows, rows[6].name);
  }

  /** Without an interpreter the package check reports nothing missing yet adds the
      packages row with an empty list; installing no packages succeeds, so that row is
      always reported installed. */
  lemma {:induction false} PackagesRowWithoutPython(cfg: Config, t: Tree, text: map<string, string>, complete: bool, env: Env)
    requires !Available(t, cfg.os, env.python.run)
    ensures var r := CheckSpec(cfg, t, text, complete, env);
      |r.rows| == 7 && r.rows[6] == Row("Python packages: ", false, true)
  {
    var run := env.python.run;
    var c := CheckPackages(cfg.os, t, run);
    var rows := InitialRows(PresenceFlags(cfg.os, t, run), c);
    assert c == PackageCheck(false, []);
    assert AllInstall(cfg.os, c.missing, run);
    assert rows[6] == Row("Python packages: ", false, false);
    PackagesRowOutcome(rows, t, text, complete, DownloaderFor(cfg, env.fetch),
                       p => SetupSpec(cfg.os, complete, p, text, env.python), true);
  }

  /** A missing firmware with no usable release tag makes the whole check fail, with
      the firmware listed as failed. */
  lemma {:induction false} FirmwareWithoutTagFailsCheck(cfg: Config, t: Tree, text: map<string, string>, complete: bool, env: Env)
    requires !IsPresent(t, Firmware, cfg.os)
    requires FirmwareUrl(cfg.src.firmwareRepo, env.fetch(Firmware).tags) == ""
    ensures var r := CheckSpec(cfg, t, text, complete, env);
      !r.ok && LibraryLabels[3] in r.failed
  {
    var run := env.python.run;
    var c := CheckPackages(cfg.os, t, run);
    var rows := InitialRows(PresenceFlags(cfg.os, t, run), c);
    var dl := DownloaderFor(cfg, env.fetch);
    forall p ensures !dl(Kinds[3], p).ok {
      FirmwareWithoutTagFails(cfg, p, env.fetch(Firmware));
    }
    HopelessDownloadFails(rows, t, text, complete, dl, p => SetupSpec(cfg.os, complete, p, text, env.python),
                          AllInstall(cfg.os, c.missing, run), 3);
  }

  /** One step of the loops that walk the table. */
  lemma RowsStep(rows: seq<Row>, i: nat)
    requires i < |rows|
    ensures MissingNames(rows[i..]) == (if !rows[i].present then [rows[i].name] else []) + MissingNames(rows[i + 1..])
    ensures Completed(rows[i..]) ==
      (if !rows[i].present && rows[i].downloaded then [rows[i].name] else []) + Completed(rows[i + 1..])
    ensures Failed(rows[i..]) ==
      (if !rows[i].present && !rows[i].downloaded then [rows[i].name] else []) + Failed(rows[i + 1..])
  {
    assert rows[i..][0] == rows[i] && rows[i..][1..] == rows[i + 1..];
  }

  /** The seven row names are all different. */
  lemma {:induction false} RowNamesDistinct(present: seq<bool>, c: PackageCheck)
    requires |present| == 6
    ensures var rows := InitialRows(present, c);
      forall i, j :: 0 <= i < j < |rows| ==> rows[i].name != rows[j].name
  {
    var rows := InitialRows(present, c);
    // The six fixed names differ in length; the packages name starts with 'P'.
    assert |LibraryLabels[0]| == 20 && |LibraryLabels[1]| == 18 && |LibraryLabels[2]| == 26;
    assert |LibraryLabels[3]| == 32 && |LibraryLabels[4]| == 13 && |PythonLabel| == 23;
    if !c.present {
      var p := rows[6].name;
      assert p[0] == 'P';
      assert LibraryLabels[0][0] == 'L' && LibraryLabels[1][0] == 'n' && LibraryLabels[2][0] == 'A';
      assert LibraryLabels[3][0] == 'n' && LibraryLabels[4][0] == 'C' && PythonLabel[0] == 'E';
    }
  }

  class LibraryChecker {
    const cfg: Config
    const disk: Disk
    /** The interpreter manager this checker owns; it works on the same disk. */
    const python: EmbeddedPython
    var downloadSuccess: bool
    var currentType: Kind
    var tempFilePath: string
    /** A download reply is in flight (m_currentReply is set). */
    var replyPending: bool

    /** Between calls: the interpreter manager shares the disk and platform, and no
        reply is in flight. */
    predicate Valid()
      reads this
    {
      python.disk == disk && python.os == cfg.os && !replyPending
    }

    constructor (cfg: Config, disk: Disk)
      ensures this.cfg == cfg && this.disk == disk && Valid()
      ensures fresh(python) && !python.setupComplete && !downloadSuccess
    {
      this.cfg := cfg;
      this.disk := disk;
      python := new EmbeddedPython(cfg.os, disk);
      downloadSuccess := false;
      currentType := Lvgl;
      tempFilePath := "";
      replyPending := false;
    }

    /** The Windows scratch folder is removed on every way out of extractZipFile. */
    method RemoveScratch(stamp: nat)
      modifies disk
      ensures disk.paths == Cleanup(cfg.os, stamp, old(disk.paths)) && disk.text == old(disk.text)
    {
      if cfg.os == Windows {
        disk.paths := RemoveTree(disk.paths, ScratchDir(stamp));
      }
    }

    /** The folder loop of extractZipFile: the first listed folder the corrected rule
        accepts. */
    static method FindCandidate(os: Os, k: Kind, listing: seq<string>) returns (found: Option<nat>)
      ensures found == FirstMatch(listing, Candidate(os, k))
    {
      var i := 0;
      while i < |listing|
        invariant 0 <= i <= |listing|
        invariant forall j :: 0 <= j < i ==> !ZipCandidate(os, k, listing[j])
      {
        if ZipCandidate(os, k, listing[i]) {
          return Some(i);
        }
        i := i + 1;
      }
      return None;
    }

    /** extractZipFile, with the corrected folder-picking rule; `archiveRemoved` reports
        whether the downloaded archive was deleted. */
    method ExtractZip(k: Kind, stamp: nat, tool: ToolRun, allowed: bool) returns (ok: bool, archiveRemoved: bool)
      modifies disk
      ensures var r := ZipExtract(cfg.os, old(disk.paths), k, stamp, tool, allowed);
        ok == r.ok && archiveRemoved == r.archiveRemoved && disk.paths == r.tree
      ensures disk.text == old(disk.text)
    {
      var dir := ZipDir(cfg.os, stamp);
      if cfg.os == Windows {
        disk.paths := disk.paths + {dir};
      }
      disk.paths := disk.paths + tool.unpacked;
      var hasErrors := cfg.os == Windows && ReportsError(tool.stderr);
      if tool.exitCode == 0 && !hasErrors {
        var found := FindCandidate(cfg.os, k, tool.listing);
        if found.Some? {
          ok := PlaceFolder(k, stamp, tool.listing[found.value], allowed);
          return ok, ok;
        }
        RemoveScratch(stamp);
        return true, true;
      }
      RemoveScratch(stamp);
      return false, false;
    }

    /** The matched folder of a zip replaces the slot: the slot is deleted, the folder
        moved there, and the move counts only if the slot then exists and holds
        something; the scratch folder goes in every case. */
    method PlaceFolder(k: Kind, stamp: nat, entry: string, allowed: bool) returns (ok: bool)
      modifies disk
      ensures var final, t2 := SlotDir(k), RemoveTree(old(disk.paths), SlotDir(k));
        var from := Child(ZipDir(cfg.os, stamp), entry);
        if CanRename(t2, from, final, allowed) then
          var t3 := Moved(t2, from, final);
          ok == (final in t3 && HasChildren(cfg.os, t3, final)) && disk.paths == Cleanup(cfg.os, stamp, t3)
        else !ok && disk.paths == Cleanup(cfg.os, stamp, t2)
      ensures disk.text == old(disk.text)
    {
      var from, final := Child(ZipDir(cfg.os, stamp), entry), SlotDir(k);
      disk.paths := RemoveTree(disk.paths, final);
      if !CanRename(disk.paths, from, final, allowed) {
        RemoveScratch(stamp);
        return false;
      }
      disk.paths := Moved(disk.paths, from, final);
      if final !in disk.paths {
        RemoveScratch(stamp);
        return false;
      }
      if !HasChildren(cfg.os, disk.paths, final) {
        RemoveScratch(stamp);
        return false;
      }
      RemoveScratch(stamp);
      return true;
    }

    /** extractTarFile; `archiveRemoved` reports whether the archive was deleted. */
    method ExtractTar(k: Kind, tool: ToolRun, allowed: bool) returns (ok: bool, archiveRemoved: bool)
      modifies disk
      ensures var r := TarExtract(old(disk.paths), k, tool, allowed);
        ok == r.ok && archiveRemoved == r.archiveRemoved && disk.paths == r.tree
      ensures disk.text == old(disk.text)
    {
      disk.paths := disk.paths + tool.unpacked;
      if tool.exitCode == 0 {
        ghost var m: string -> bool := e => TarMatch(k, e);
        var i := 0;
        while i < |tool.listing|
          invariant 0 <= i <= |tool.listing|
          invariant forall j :: 0 <= j < i ==> !TarMatch(k, tool.listing[j])
          invariant disk.paths == old(disk.paths) + tool.unpacked && disk.text == old(disk.text)
        {
          var entry := tool.listing[i];
          if TarMatch(k, entry) {
            assert FirstMatch(tool.listing, m) == Some(i);
            var oldPath, newPath := Child(LibrariesDir, entry), SlotDir(k);
            disk.paths := RemoveTree(disk.paths, newPath);
            ok := CanRename(disk.paths, oldPath, newPath, allowed);
            disk.paths := Rename(disk.paths, oldPath, newPath, allowed);
            return ok, true;
          }
          i := i + 1;
        }
        assert FirstMatch(tool.listing, m) == None;
        return true, true;
      }
      return false, false;
    }

    /** onDownloadError. */
    method OnDownloadError()
      modifies this`downloadSuccess
      ensures !downloadSuccess
    {
      downloadSuccess := false;
    }

    /** onDownloadFinished: nothing without a reply in flight; otherwise the reply is
        released, the archive saved, `libraries/` created and the archive unpacked with
        tar or zip as its name says. `archiveKept` reports an archive left behind. */
    method OnDownloadFinished(f: Fetch) returns (archiveKept: bool)
      modifies this, disk
      ensures currentType == old(currentType) && tempFilePath == old(tempFilePath) && !replyPending
      ensures disk.text == old(disk.text)
      ensures !old(replyPending) ==> downloadSuccess == old(downloadSuccess) && disk.paths == old(disk.paths) && !archiveKept
      ensures old(replyPending) ==> var r := FinishSpec(cfg.os, old(disk.paths), currentType, tempFilePath, f);
        downloadSuccess == r.ok && disk.paths == r.paths && archiveKept == r.archiveKept
    {
      archiveKept := false;
      if !replyPending {
        return;
      }
      replyPending := false;
      if f.replyOk {
        if !f.saved {
          downloadSuccess := false;
          return;
        }
        disk.paths := disk.paths + {LibrariesDir};
        var ok, removed;
        if UseTar(currentType, tempFilePath) {
          ok, removed := ExtractTar(currentType, f.tool, f.allowed);
        } else {
          ok, removed := ExtractZip(currentType, f.scratchStamp, f.tool, f.allowed);
        }
        downloadSuccess := ok;
        archiveKept := !removed;
      } else {
        downloadSuccess := false;
      }
    }

    /** downloadLvgl, downloadNrf52Sdk, downloadArmGnuToolchain, downloadNrf52Firmware and
        downloadCMake: reset the outcome, name the temp file, fetch and finish. */
    method Download(k: Kind, f: Fetch) returns (archiveKept: bool)
      requires Valid()
      modifies this, disk
      ensures Valid() && currentType == k && disk.text == old(disk.text)
      ensures var r := DownloadSpec(cfg, k, old(disk.paths), f);
        downloadSuccess == r.ok && disk.paths == r.paths && archiveKept == r.archiveKept
    {
      downloadSuccess := false;
      currentType := k;
      var url := ComponentUrl(cfg, k, f.tags);
      if k == Firmware && url == "" {
        return false;
      }
      tempFilePath := TempPath(cfg.tempDir, k, f.stamp, url);
      assert DownloadSpec(cfg, k, disk.paths, f) == FinishSpec(cfg.os, disk.paths, k, tempFilePath, f);
      replyPending := true;
      if !f.replyOk {
        OnDownloadError();
      }
      archiveKept := OnDownloadFinished(f);
    }

    /** The probing loop of isPythonPackagesPresent: each package's import is tried in
        order and the failures collected. */
    method ProbeEach(pkgs: seq<string>, run: Interpreter) returns (missing: seq<string>)
      ensures missing == MissingPackages(pkgs, run)
    {
      missing := [];
      var i := 0;
      while i < |pkgs|
        invariant 0 <= i <= |pkgs|
        invariant missing + MissingPackages(pkgs[i..], run) == MissingPackages(pkgs, run)
      {
        MissingPackagesStep(pkgs, i, run);
        ghost var rest := MissingPackages(pkgs[i + 1..], run);
        if run(["-c", ImportProbe(pkgs[i])]) != 0 {
          AppendAssoc(missing, [pkgs[i]], rest);
          missing := missing + [pkgs[i]];
        } else {
          assert [] + rest == rest;
        }
        i := i + 1;
      }
    }

    /** isPythonPackagesPresent: the list starts empty; without an interpreter the answer
        is no; otherwise every required package is probed. */
    method IsPythonPackagesPresent(run: Interpreter) returns (present: bool, missing: seq<string>)
      requires Valid()
      ensures PackageCheck(present, missing) == CheckPackages(cfg.os, disk.paths, run)
    {
      var available := python.IsAvailable(run);
      if !available {
        return false, [];
      }
      missing := ProbeEach(RequiredPackages, run);
      present := missing == [];
    }

    /** downloadPythonPackages: every package is installed in turn, none skipped after a
        failure; the result is whether all succeeded (so an empty list succeeds). */
    method DownloadPythonPackages(pkgs: seq<string>, run: Interpreter) returns (allSuccess: bool)
      requires Valid()
      ensures allSuccess <==> forall i :: 0 <= i < |pkgs| ==> run(InstallArgs(cfg.os, pkgs[i])) == 0
    {
      allSuccess := true;
      var i := 0;
      while i < |pkgs|
        invariant 0 <= i <= |pkgs|
        invariant allSuccess <==> forall j :: 0 <= j < i ==> run(InstallArgs(cfg.os, pkgs[j])) == 0
      {
        var installed, _ := python.InstallPackage(pkgs[i], run);
        if !installed {
          allSuccess := false;
        }
        i := i + 1;
      }
    }

    /** The table as checkAndDownloadLibraries first builds it from the disk. */
    method ScanRows(run: Interpreter, c: PackageCheck) returns (rows: seq<Row>)
      requires Valid()
      ensures rows == InitialRows(PresenceFlags(cfg.os, disk.paths, run), c)
      ensures |rows| == (if c.present then 6 else 7)
    {
      ghost var flags := PresenceFlags(cfg.os, disk.paths, run);
      var lvgl, _ := ScanPresent(disk.paths, Kinds[0], cfg.os);
      assert lvgl == flags[0];
      var sdk, _ := ScanPresent(disk.paths, Kinds[1], cfg.os);
      assert sdk == flags[1];
      var toolchain, _ := ScanPresent(disk.paths, Kinds[2], cfg.os);
      assert toolchain == flags[2];
      var firmware, _ := ScanPresent(disk.paths, Kinds[3], cfg.os);
      assert firmware == flags[3];
      var cmake, _ := ScanPresent(disk.paths, Kinds[4], cfg.os);
      assert cmake == flags[4];
      var py := python.IsAvailable(run);
      assert py == flags[5];
      rows := InitialRows([lvgl, sdk, toolchain, firmware, cmake, py], c);
    }

    /** The `missingLibraries` list: the rows not present, in table order. */
    method MissingList(rows: seq<Row>) returns (names: seq<string>)
      ensures names == MissingNames(rows)
    {
      names := [];
      var i := 0;
      while i < |rows|
        invariant 0 <= i <= |rows|
        invariant names + MissingNames(rows[i..]) == MissingNames(rows)
      {
        RowsStep(rows, i);
        ghost var rest := MissingNames(rows[i + 1..]);
        if !rows[i].present {
          assert MissingNames(rows[i..]) == [rows[i].name] + rest;
          AppendAssoc(names, [rows[i].name], rest);
          names := names + [rows[i].name];
        } else {
          assert MissingNames(rows[i..]) == [] + rest == rest;
        }
        i := i + 1;
      }
    }

    /** The final status lists: installed and failed rows among the missing ones. */
    method Summarize(rows: seq<Row>) returns (completed: seq<string>, failed: seq<string>)
      ensures completed == Completed(rows) && failed == Failed(rows)
    {
      completed, failed := [], [];
      var i := 0;
      while i < |rows|
        invariant 0 <= i <= |rows|
        invariant completed + Completed(rows[i..]) == Completed(rows)
        invariant failed + Failed(rows[i..]) == Failed(rows)
      {
        RowsStep(rows, i);
        ghost var restC, restF := Completed(rows[i + 1..]), Failed(rows[i + 1..]);
        if !rows[i].present {
          if rows[i].downloaded {
            AppendAssoc(completed, [rows[i].name], restC);
            assert [] + restF == restF;
            completed := completed + [rows[i].name];
          } else {
            AppendAssoc(failed, [rows[i].name], restF);
            assert [] + restC == restC;
            failed := failed + [rows[i].name];
          }
        } else {
          assert [] + restC == restC && [] + restF == restF;
        }
        i := i + 1;
      }
    }

    /** One `if (!libraries[i].present)` block of checkAndDownloadLibraries. */
    method DownloadRow(rows: seq<Row>, i: nat, fetch: Kind -> Fetch) returns (rows': seq<Row>)
      requires Valid() && i < 5 <= |rows|
      modifies this, disk
      ensures Valid() && disk.text == old(disk.text)
      ensures State(rows', disk.paths) == Step(DownloaderFor(cfg, fetch), State(rows, old(disk.paths)), i)
    {
      rows' := rows;
      if !rows[i].present {
        var _ := Download(Kinds[i], fetch(Kinds[i]));
        rows' := rows[i := rows[i].(downloaded := downloadSuccess)];
      }
    }

    /** The five library blocks of checkAndDownloadLibraries, in table order. */
    method DownloadLibraries(rows: seq<Row>, fetch: Kind -> Fetch) returns (rows': seq<Row>)
      requires Valid() && 5 <= |rows|
      modifies this, disk
      ensures Valid() && disk.text == old(disk.text)
      ensures State(rows', disk.paths) == Downloads(DownloaderFor(cfg, fetch), State(rows, old(disk.paths)))
    {
      rows' := DownloadRow(rows, 0, fetch);
      rows' := DownloadRow(rows', 1, fetch);
      rows' := DownloadRow(rows', 2, fetch);
      rows' := DownloadRow(rows', 3, fetch);
      rows' := DownloadRow(rows', 4, fetch);
    }

    /** The `if (!libraries[5].present)` block: the interpreter is set up and its row
        records the outcome. */
    method SetupRow(rows: seq<Row>, env: SetupEnv) returns (rows': seq<Row>)
      requires Valid() && 6 <= |rows|
      modifies disk, python
      ensures Valid()
      ensures var o := SetupSpec(cfg.os, old(python.setupComplete), old(disk.paths), old(disk.text), env);
        if !rows[5].present then
          rows' == rows[5 := rows[5].(downloaded := o.ok)] &&
          disk.paths == o.paths && disk.text == o.text && python.setupComplete == o.complete
        else
          rows' == rows && disk.paths == old(disk.paths) && disk.text == old(disk.text) &&
          python.setupComplete == old(python.setupComplete)
    {
      rows' := rows;
      if !rows[5].present {
        var pyOk, _ := python.Setup(env);
        rows' := rows[5 := rows[5].(downloaded := pyOk)];
      }
    }

    /** The `if (!libraries[6].present)` block: the package row, when there is one and it
        is missing, records whether every package installed. */
    method PackagesRow(rows: seq<Row>, missingPkgs: seq<string>, run: Interpreter) returns (rows': seq<Row>)
      requires Valid()
      ensures rows' == if |rows| > 6 && !rows[6].present
                       then rows[6 := rows[6].(downloaded := AllInstall(cfg.os, missingPkgs, run))]
                       else rows
    {
      rows' := rows;
      if |rows| > 6 && !rows[6].present {
        var pkgsInstalled := DownloadPythonPackages(missingPkgs, run);
        rows' := rows[6 := rows[6].(downloaded := pkgsInstalled)];
      }
    }

    /** The interpreter and package blocks of checkAndDownloadLibraries, in order. */
    method InstallInterpreter(rows: seq<Row>, missingPkgs: seq<string>, env: SetupEnv) returns (rows': seq<Row>)
      requires Valid() && 6 <= |rows|
      modifies disk, python
      ensures Valid()
      ensures var o := SetupSpec(cfg.os, old(python.setupComplete), old(disk.paths), old(disk.text), env);
        var setUp := !rows[5].present;
        rows' == InstallRows(rows, o.ok, AllInstall(cfg.os, missingPkgs, env.run)) &&
        disk.paths == (if setUp then o.paths else old(disk.paths)) &&
        disk.text == (if setUp then o.text else old(disk.text)) &&
        python.setupComplete == (if setUp then o.complete else old(python.setupComplete))
    {
      rows' := SetupRow(rows, env);
      rows' := PackagesRow(rows', missingPkgs, env.run);
    }

    /** The part of checkAndDownloadLibraries after the scan, once something is missing:
        the five downloads, the interpreter, the packages, and the summary. */
    method DownloadMissing(rows0: seq<Row>, missingPkgs: seq<string>, env: Env)
      returns (ok: bool, rows: seq<Row>, completed: seq<string>, failed: seq<string>)
      requires Valid() && 6 <= |rows0| && MissingNames(rows0) != []
      modifies this, disk, python
      ensures Valid()
      ensures var r := Orchestrate(rows0, old(disk.paths), old(disk.text), old(python.setupComplete),
                                   DownloaderFor(cfg, env.fetch),
                                   SetupFor(cfg.os, old(python.setupComplete), old(disk.text), env.python),
                                   AllInstall(cfg.os, missingPkgs, env.python.run));
        ok == r.ok && rows == r.rows && completed == r.completed && failed == r.failed &&
        disk.paths == r.paths && disk.text == r.text && python.setupComplete == r.complete
    {
      ghost var t0, text0, c0 := disk.paths, disk.text, python.setupComplete;
      ghost var dl, setup := DownloaderFor(cfg, env.fetch), SetupFor(cfg.os, c0, text0, env.python);
      ghost var pkgsOk := AllInstall(cfg.os, missingPkgs, env.python.run);
      rows := DownloadLibraries(rows0, env.fetch);
      ghost var s := State(rows, disk.paths);
      assert setup(s.paths) == SetupSpec(cfg.os, c0, s.paths, text0, env.python);
      OrchestrateUnfold(rows0, t0, text0, c0, dl, setup, pkgsOk);
      rows := InstallInterpreter(rows, missingPkgs, env.python);
      completed, failed := Summarize(rows);
      ok := failed == [];
    }

    /** checkAndDownloadLibraries. */
    method CheckAndDownloadLibraries(env: Env) returns (ok: bool, rows: seq<Row>, completed: seq<string>, failed: seq<string>)
      requires Valid()
      modifies this, disk, python
      ensures Valid()
      ensures var r := CheckSpec(cfg, old(disk.paths), old(disk.text), old(python.setupComplete), env);
        ok == r.ok && rows == r.rows && completed == r.completed && failed == r.failed &&
        disk.paths == r.paths && disk.text == r.text && python.setupComplete == r.complete
    {
      var run := env.python.run;
      var pkgsPresent, missingPkgs := IsPythonPackagesPresent(run);
      rows := ScanRows(run, PackageCheck(pkgsPresent, missingPkgs));
      var missingLibraries := MissingList(rows);
      if missingLibraries == [] {
        return true, rows, [], [];
      }
      ok, rows, completed, failed := DownloadMissing(rows, missingPkgs, env);
    }
  }
}
