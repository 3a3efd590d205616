/** The portable Python interpreter the tool downloads into `python/` next to itself,
    with pip and the four packages the LVGL image converter needs (EmbeddedPython). */
module PortablePython {
  import opened Text
  import opened Platform
  import opened FileTree

  /** The interpreter seen from outside: the value `exitCode()` reads after the tool starts
      it with an argument list and waits. The wait's result is never checked and starting a
      process resets its exit code, so a process that cannot start, or has not finished
      when the wait gives up, reads as 0: success. */
  type Interpreter = seq<string> -> int

  const WindowsUrl: string := "https://www.python.org/ftp/python/3.11.9/python-3.11.9-embed-win32.zip"
  const LinuxUrl: string := "https://github.com/indygreg/python-build-standalone/releases/download/20240415/cpython-3.11.9+20240415-x86_64-unknown-linux-gnu-install_only.tar.gz"
  const MacUrl: string := "https://github.com/indygreg/python-build-standalone/releases/download/20240415/cpython-3.11.9+20240415-x86_64-apple-darwin-install_only.tar.gz"

  datatype Distribution = Distribution(url: string, filename: string, extractedFolder: string, executable: string)

  /** Which build is fetched on each platform; unknown platforms use the Linux build. */
  function DistributionFor(os: Os): Distribution {
    match os
    case Windows => Distribution(WindowsUrl, "python-embedded.zip", "python", "python.exe")
    case Linux => Distribution(LinuxUrl, "python-embedded.tar.gz", "python", "bin/python3")
    case MacOS => Distribution(MacUrl, "python-embedded.tar.gz", "python", "bin/python3")
    case OtherOs => Distribution(LinuxUrl, "python-embedded.tar.gz", "python", "bin/python3")
  }

  /** Windows gets a zip holding `python.exe`; every other platform, unknown ones
      included, a tar.gz holding `bin/python3`; all unpack into `python`. */
  lemma {:induction false} DistributionTable(os: Os)
    ensures var d := DistributionFor(os);
      d.extractedFolder == "python" &&
      (os == Windows <==> EndsWith(d.filename, ".zip")) &&
      (os != Windows <==> EndsWith(d.filename, ".tar.gz")) &&
      (os == Windows <==> d.executable == "python.exe") &&
      (os != Windows <==> d.executable == "bin/python3") &&
      d.url == (match os case Windows => WindowsUrl case MacOS => MacUrl case _ => LinuxUrl)
  {
    var d := DistributionFor(os);
    if os == Windows {
      assert d.filename == "python-embedded.zip";
      assert d.filename[|d.filename| - 4..] == ".zip";
      LastCharsDiffer(d.filename, ".zip", ".tar.gz");
    } else {
      assert d.filename == "python-embedded.tar.gz";
      assert d.filename[|d.filename| - 7..] == ".tar.gz";
      LastCharsDiffer(d.filename, ".tar.gz", ".zip");
    }
  }

  /** The interpreter folder, relative to the application directory. */
  const PythonDir: string := "python"

  /** Where pip and other console scripts go: `Scripts/` on Windows, `bin/` elsewhere. */
  function ScriptsDir(os: Os): string {
    if os == Windows then PythonDir + "/Scripts" else PythonDir + "/bin"
  }

  /** The interpreter: the platform's executable inside `python/`. */
  function ExePath(os: Os): string {
    Child(PythonDir, DistributionFor(os).executable)
  }

  /** On Windows the interpreter sits at the top of `python/`; elsewhere it lives in the
      scripts folder. */
  lemma {:induction false} InterpreterLayout(os: Os)
    ensures os == Windows ==> ExePath(os) == "python/python.exe" && !StartsWith(ExePath(os), ScriptsDir(os) + "/")
    ensures os != Windows ==> ExePath(os) == "python/bin/python3" && StartsWith(ExePath(os), ScriptsDir(os) + "/")
  {
    var p := ExePath(os);
    if os == Windows {
      assert DistributionFor(os).executable == "python.exe";
      assert p == "python/python.exe";
      StartsWithAt(p, ScriptsDir(os) + "/", 7);
    } else {
      assert DistributionFor(os).executable == "bin/python3";
      assert p == "python/bin/python3";
      assert p[..11] == ScriptsDir(os) + "/";
    }
  }

  const PthPath: string := "python/python311._pth"
  const GetPipPath: string := "python/get-pip.py"

  /** The interpreter counts as available when its executable exists and `--version` runs. */
  predicate Available(t: Tree, os: Os, run: Interpreter) {
    ExePath(os) in t && run(["--version"]) == 0
  }

  /** The packages the converter needs, in the order they are checked and installed. */
  const RequiredPackages: seq<string> := ["Pillow", "pypng", "lz4", "kconfiglib"]

  /** The import that shows a package is installed. */
  function ImportProbe(pkg: string): (cmd: string)
    ensures StartsWith(cmd, "import ")
    ensures pkg != "Pillow" && pkg != "lz4" && pkg != "pypng" ==> cmd[7..] == pkg
  {
    if pkg == "Pillow" then "import PIL.Image"
    else if pkg == "lz4" then "import lz4.block"
    else "import " + (if pkg == "pypng" then "png" else pkg)
  }

  /** The packages of `pkgs` whose import probe fails, in their order. */
  function MissingPackages(pkgs: seq<string>, run: Interpreter): (missing: seq<string>) {
    if pkgs == [] then []
    else (if run(["-c", ImportProbe(pkgs[0])]) != 0 then [pkgs[0]] else []) + MissingPackages(pkgs[1..], run)
  }

  /** `pip install` arguments; `--user` only on Windows. */
  function InstallArgs(os: Os, name: string): (argv: seq<string>)
    ensures |argv| == (if os == Windows then 5 else 4)
    ensures argv[..3] == ["-m", "pip", "install"] && argv[|argv| - 1] == name
    ensures os == Windows ==> argv[3] == "--user"
  {
    if os == Windows then ["-m", "pip", "install", "--user", name] else ["-m", "pip", "install", name]
  }

  /** The packages of `pkgs` whose installation fails, in their order. */
  function FailedInstalls(os: Os, pkgs: seq<string>, run: Interpreter): seq<string> {
    if pkgs == [] then []
    else (if run(InstallArgs(os, pkgs[0])) != 0 then [pkgs[0]] else []) + FailedInstalls(os, pkgs[1..], run)
  }

  /** The probes of verifyInstallation, in the order they run. */
  const VerifyProbes: seq<seq<string>> := [
    ["--version"],
    ["-c", "import PIL.Image; print('Pillow OK')"],
    ["-c", "import png; print('pypng OK')"],
    ["-c", "import lz4.block; print('lz4 OK')"],
    ["-c", "import kconfiglib; print('kconfiglib OK')"]
  ]

  predicate AllProbesPass(run: Interpreter) {
    forall i :: 0 <= i < |VerifyProbes| ==> run(VerifyProbes[i]) == 0
  }

  /** The `python311._pth` edit that turns site-packages on in the Windows embeddable build:
      unless a commented-out `#import site` is already there, every `import site` is
      commented out and a live `import site` line is appended. */
  function PthRewrite(content: string): string {
    if Contains(content, "#import site") then content
    else ReplaceAll(content, "import site", "#import site") + "\nimport site\n"
  }

  lemma {:induction false} ContainsTail(s: string, a: string, b: string)
    requires Contains(s, a + b)
    ensures Contains(s, b)
    decreases |s|
  {
    if StartsWith(s, a + b) {
      assert s[..|a| + |b|] == a + b;
      assert s[|a|..][..|b|] == s[..|a| + |b|][|a|..] == b;
      assert StartsWith(s[|a|..], b);
      assert Contains(s[|a|..], b);
      assert s == s[..|a|] + s[|a|..];
      ContainsPrepend(s[..|a|], s[|a|..], b);
    } else {
      ContainsTail(s[1..], a, b);
      assert s == [s[0]] + s[1..];
      ContainsPrepend([s[0]], s[1..], b);
    }
  }

  /** The appended line does not put a `#import site` at the head of the file. */
  lemma AppendedHeadNotCommented(c: string)
    requires !Contains(c, "#import site")
    ensures !StartsWith(c + "\nimport site\n", "#import site")
  {
    var h, s := "#import site", c + "\nimport site\n";
    if |c| >= |h| {
      assert s[..|h|] == c[..|h|];
    } else {
      assert s[|c|] == '\n' != h[|c|];
    }
  }

  /** The appended line never creates a `#import site`. */
  lemma {:induction false} NoCommentedSiteAppended(c: string)
    requires !Contains(c, "#import site")
    ensures !Contains(c + "\nimport site\n", "#import site")
    decreases |c|
  {
    var h, s := "#import site", c + "\nimport site\n";
    AppendedHeadNotCommented(c);
    if c == [] {
      assert s[1..] == "import site\n";
      assert !StartsWith(s[1..], h);
      assert !Contains(s[2..], h);
    } else {
      assert !Contains(c[1..], h);
      NoCommentedSiteAppended(c[1..]);
      assert s[1..] == c[1..] + "\nimport site\n";
    }
  }

  /** The rewrite is stable (a second run changes nothing) exactly when the file already
      mentions `import site`; a file without any gets a second line appended each time. */
  lemma {:induction false} PthRewriteStable(c: string)
    ensures PthRewrite(PthRewrite(c)) == PthRewrite(c) <==> Contains(c, "import site")
  {
    var r := PthRewrite(c);
    if Contains(c, "#import site") {
      assert "#" + "import site" == "#import site";
      ContainsTail(c, "#", "import site");
    } else if Contains(c, "import site") {
      ReplacePresent(c, "import site", "#import site");
      ContainsAppend(ReplaceAll(c, "import site", "#import site"), "\nimport site\n", "#import site");
    } else {
      ReplaceAbsent(c, "import site", "#import site");
      NoCommentedSiteAppended(c);
      ReplaceNoShorter(r, "import site", "#import site");
      assert |PthRewrite(r)| > |r|;
    }
  }

  /** Python obeys an `import site` line of a `_pth` file only when it starts the line: at
      the start of the file or right after a newline, so `#import site` does not count. */
  predicate LiveSite(c: string) {
    exists i :: 0 <= i <= |c| && (i == 0 || c[i - 1] == '\n') && StartsWith(c[i..], "import site")
  }

  /** The appended line is a live one, whatever comes before it. */
  lemma AppendedLineIsLive(r: string)
    ensures LiveSite(r + "\nimport site\n")
  {
    var s := r + "\nimport site\n";
    assert s[|r|] == '\n';
    assert s[|r| + 1..][..11] == "import site";
  }

  /** When the file holds no `#import site`, the rewrite leaves a live `import site`. */
  lemma PthRewriteEnablesSite(c: string)
    requires !Contains(c, "#import site")
    ensures LiveSite(PthRewrite(c))
  {
    AppendedLineIsLive(ReplaceAll(c, "import site", "#import site"));
  }

  /** A live line stays live when a line is put in front of it. */
  lemma LiveSiteBelowLine(line: string, rest: string)
    ensures LiveSite(rest) ==> LiveSite(line + "\n" + rest)
  {
    var c := line + "\n" + rest;
    var n := |line| + 1;
    if LiveSite(rest) {
      var j :| 0 <= j <= |rest| && (j == 0 || rest[j - 1] == '\n') && StartsWith(rest[j..], "import site");
      assert c[n..] == rest;
      assert c[j + n..] == c[n..][j..];
      assert c[j + n - 1] == (if j == 0 then '\n' else rest[j - 1]);
    }
  }

  /** A line that does not start with `import site` can be skipped when looking for a
      live one. */
  lemma LiveSiteAfterLine(line: string, rest: string)
    requires forall k :: 0 <= k < |line| ==> line[k] != '\n'
    requires line == [] || line[0] != 'i'
    ensures LiveSite(line + "\n" + rest) <==> LiveSite(rest)
  {
    LiveSiteBelowLine(line, rest);
    var c := line + "\n" + rest;
    var n := |line| + 1;
    if LiveSite(c) {
      assert c[0] != 'i';
      assert forall k :: 0 <= k < |line| ==> c[k] == line[k];
      var i :| 0 <= i <= |c| && (i == 0 || c[i - 1] == '\n') && StartsWith(c[i..], "import site");
      assert n <= i;
      assert c[n..] == rest;
      assert c[i..] == c[n..][i - n..];
      assert i - n == 0 || rest[i - n - 1] == c[i - 1];
    }
  }

  const StockComment: string := "# Uncomment to run site.main() automatically"

  /** The `python311._pth` shipped in the Windows embeddable build, line by line: its only
      site line is commented out. */
  const StockPth: string :=
    "python311.zip" + "\n" + ("." + "\n" + ("" + "\n" + (StockComment + "\n" + ("#import site" + "\n" + ""))))

  /** The edit as written leaves the stock file untouched, so site stays disabled. */
  lemma StockPthStaysDisabled()
    ensures PthRewrite(StockPth) == StockPth
    ensures !LiveSite(StockPth)
  {
    var r5 := "#import site" + "\n" + "";
    var r4 := StockComment + "\n" + r5;
    var r3 := "" + "\n" + r4;
    var r2 := "." + "\n" + r3;
    var head := "python311.zip" + "\n" + ("." + "\n" + ("" + "\n" + (StockComment + "\n")));
    assert StockPth == head + r5;
    assert r5[..12] == "#import site";
    assert Contains(r5, "#import site");
    ContainsPrepend(head, r5, "#import site");
    assert !LiveSite("");
    LiveSiteAfterLine("#import site", "");
    StockCommentOneLine();
    LiveSiteAfterLine(StockComment, r5);
    LiveSiteAfterLine("", r4);
    LiveSiteAfterLine(".", r3);
    LiveSiteAfterLine("python311.zip", r2);
  }

  lemma StockCommentOneLine()
    ensures forall k :: 0 <= k < |StockComment| ==> StockComment[k] != '\n'
    ensures StockComment[0] != 'i'
  {
  }

  /** The edit with its test corrected: the file is left alone only when it already holds
      a live `import site`; otherwise the live line is appended as before. */
  function EnableSite(content: string): string {
    if LiveSite(content) then content
    else ReplaceAll(content, "import site", "#import site") + "\nimport site\n"
  }

  /** The corrected edit always leaves a live `import site`, and a second run changes
      nothing. */
  lemma EnableSiteIsLive(c: string)
    ensures LiveSite(EnableSite(c))
    ensures EnableSite(EnableSite(c)) == EnableSite(c)
  {
    if !LiveSite(c) {
      AppendedLineIsLive(ReplaceAll(c, "import site", "#import site"));
    }
  }

  /** runScript: the script first, then its arguments in order. */
  function RunScriptArgs(script: string, args: seq<string>): (argv: seq<string>)
    ensures |argv| == |args| + 1 && argv[0] == script && argv[1..] == args
  {
    [script] + args
  }

  /** The distribution download as the environment plays it out: whether the temporary
      file could be created, whether the user cancelled, whether the reply came back
      without error, whether the archive could be written, and the unpacker's exit code
      and the paths it wrote below `python/`. */
  datatype DistFetch = DistFetch(tempCreated: bool, canceled: bool, replyOk: bool, saved: bool,
                                 unpackExit: int, unpacked: Tree)

  datatype DistOutcome = DistOutcome(ok: bool, paths: Tree, tempRemoved: bool)

  /** downloadPythonDistribution: the temporary archive is removed as soon as it has been
      written, whether or not unpacking succeeded; success needs every step. */
  function DownloadOutcome(f: DistFetch, paths: Tree): (o: DistOutcome)
    ensures o.tempRemoved <==> f.tempCreated && !f.canceled && f.replyOk && f.saved
    ensures o.ok <==> o.tempRemoved && f.unpackExit == 0
    ensures !o.tempRemoved ==> o.paths == paths
    ensures o.tempRemoved ==> o.paths == paths + {PythonDir} + f.unpacked
  {
    if !f.tempCreated || f.canceled || !f.replyOk || !f.saved then DistOutcome(false, paths, false)
    else DistOutcome(f.unpackExit == 0, paths + {PythonDir} + f.unpacked, true)
  }

  /** The get-pip step as the environment plays it out: whether `python311._pth` can be
      written back, whether get-pip.py was fetched, and whether it could be saved. */
  datatype PipFetch = PipFetch(pthWritable: bool, replyOk: bool, scriptSaved: bool)

  datatype PipOutcome = PipOutcome(ok: bool, paths: Tree, text: map<string, string>)

  /** installPip: on Windows the `_pth` file (when readable) is rewritten, then get-pip.py
      is fetched, saved and run; elsewhere pip ships with the build and nothing happens. */
  function PipSpec(os: Os, p: PipFetch, paths: Tree, text: map<string, string>, run: Interpreter): PipOutcome {
    if os != Windows then PipOutcome(true, paths, text)
    else
      var text' := if PthPath in text && p.pthWritable then text[PthPath := EnableSite(text[PthPath])] else text;
      if p.replyOk && p.scriptSaved then PipOutcome(run([GetPipPath, "--user"]) == 0, paths + {GetPipPath}, text')
      else PipOutcome(false, paths, text')
  }

  /** Everything setupEmbeddedPython meets: the user's answer to the download question,
      the distribution download, the pip step and the interpreter. */
  datatype SetupEnv = SetupEnv(accepts: bool, dist: DistFetch, pip: PipFetch, run: Interpreter)

  datatype Stage = AlreadySetUp | Declined | DownloadFailed | Verified

  datatype SetupOutcome = SetupOutcome(ok: bool, complete: bool, paths: Tree, text: map<string, string>,
                                       failed: seq<string>, stage: Stage)

  /** setupEmbeddedPython: short-circuit when already set up, otherwise ask, download,
      install pip (its failure is ignored), install every package, and verify. */
  function SetupSpec(os: Os, complete: bool, paths: Tree, text: map<string, string>, env: SetupEnv): SetupOutcome {
    if Available(paths, os, env.run) && complete then SetupOutcome(true, complete, paths, text, [], AlreadySetUp)
    else if !env.accepts then SetupOutcome(false, complete, paths, text, [], Declined)
    else
      var d := DownloadOutcome(env.dist, paths);
      if !d.ok then SetupOutcome(false, complete, d.paths, text, [], DownloadFailed)
      else
        var p := PipSpec(os, env.pip, d.paths, text, env.run);
        var v := AllProbesPass(env.run);
        SetupOutcome(v, v, p.paths, p.text, FailedInstalls(os, RequiredPackages, env.run), Verified)
  }

  lemma FailedInstallsStep(os: Os, pkgs: seq<string>, i: nat, run: Interpreter)
    requires i < |pkgs|
    ensures FailedInstalls(os, pkgs[i..], run) ==
      (if run(InstallArgs(os, pkgs[i])) != 0 then [pkgs[i]] else []) + FailedInstalls(os, pkgs[i + 1..], run)
  {
    assert pkgs[i..][0] == pkgs[i] && pkgs[i..][1..] == pkgs[i + 1..];
  }

  /** The missing packages keep the order of the list they were probed from. */
  lemma {:induction false} MissingPackagesInOrder(pkgs: seq<string>, run: Interpreter)
    ensures Subsequence(MissingPackages(pkgs, run), pkgs)
    decreases |pkgs|
  {
    if pkgs != [] {
      MissingPackagesInOrder(pkgs[1..], run);
      var rest := MissingPackages(pkgs[1..], run);
      if run(["-c", ImportProbe(pkgs[0])]) != 0 {
        assert MissingPackages(pkgs, run) == [pkgs[0]] + rest;
        assert ([pkgs[0]] + rest)[1..] == rest;
      } else {
        assert MissingPackages(pkgs, run) == rest;
      }
    }
  }

  lemma MissingPackagesStep(pkgs: seq<string>, i: nat, run: Interpreter)
    requires i < |pkgs|
    ensures MissingPackages(pkgs[i..], run) ==
      (if run(["-c", ImportProbe(pkgs[i])]) != 0 then [pkgs[i]] else []) + MissingPackages(pkgs[i + 1..], run)
  {
    assert pkgs[i..][0] == pkgs[i] && pkgs[i..][1..] == pkgs[i + 1..];
  }

  /** A package is reported failed exactly when its install exits nonzero, in list order. */
  lemma {:induction false} FailedInstallsExact(os: Os, pkgs: seq<string>, run: Interpreter)
    ensures forall p :: p in FailedInstalls(os, pkgs, run) <==> p in pkgs && run(InstallArgs(os, p)) != 0
    ensures |FailedInstalls(os, pkgs, run)| <= |pkgs|
    ensures FailedInstalls(os, pkgs, run) == [] <==> forall i :: 0 <= i < |pkgs| ==> run(InstallArgs(os, pkgs[i])) == 0
  {
    if pkgs != [] {
      FailedInstallsExact(os, pkgs[1..], run);
      assert pkgs == [pkgs[0]] + pkgs[1..];
      assert forall i :: 1 <= i < |pkgs| ==> pkgs[i] == pkgs[1..][i - 1];
    }
  }

  /** A package is reported missing exactly when its import probe fails, in list order. */
  lemma {:induction false} MissingPackagesExact(pkgs: seq<string>, run: Interpreter)
    ensures forall p :: p in MissingPackages(pkgs, run) <==> p in pkgs && run(["-c", ImportProbe(p)]) != 0
    ensures |MissingPackages(pkgs, run)| <= |pkgs|
  {
    if pkgs != [] {
      MissingPackagesExact(pkgs[1..], run);
      assert pkgs == [pkgs[0]] + pkgs[1..];
    }
  }

  /** A fresh manager never short-circuits, and what setup reports is what verification found. */
  lemma {:induction false} SetupResult(os: Os, complete: bool, paths: Tree, text: map<string, string>, env: SetupEnv)
    ensures var o := SetupSpec(os, complete, paths, text, env);
      (!complete ==> o.stage != AlreadySetUp) &&
      (o.stage == AlreadySetUp <==> Available(paths, os, env.run) && complete) &&
      (o.ok <==> o.stage == AlreadySetUp || (o.stage == Verified && AllProbesPass(env.run))) &&
      (o.stage == Verified ==> o.complete == o.ok && PythonDir in o.paths) &&
      (o.stage != Verified ==> o.complete == complete && o.text == text)
  {
  }

  /** A declined question or a failed download always fails setup. */
  lemma SetupFailsEarly(os: Os, complete: bool, paths: Tree, text: map<string, string>, env: SetupEnv)
    requires !(Available(paths, os, env.run) && complete)
    requires !env.accepts || !DownloadOutcome(env.dist, paths).ok
    ensures !SetupSpec(os, complete, paths, text, env).ok
  {
  }

  /** The outcome of the pip step never changes the result of setup. */
  lemma {:induction false} SetupIgnoresPip(os: Os, complete: bool, paths: Tree, text: map<string, string>,
                                           env: SetupEnv, other: PipFetch)
    ensures SetupSpec(os, complete, paths, text, env).ok == SetupSpec(os, complete, paths, text, env.(pip := other)).ok
    ensures SetupSpec(os, complete, paths, text, env).complete == SetupSpec(os, complete, paths, text, env.(pip := other)).complete
  {
  }

  class EmbeddedPython {
    const os: Os
    const disk: Disk
    var setupComplete: bool

    constructor (os: Os, disk: Disk)
      ensures this.os == os && this.disk == disk && !setupComplete
    {
      this.os := os;
      this.disk := disk;
      setupComplete := false;
    }

    predicate IsAvailable(run: Interpreter)
      reads disk
    {
      Available(disk.paths, os, run)
    }

    /** installPackage: `pip install` through the interpreter, successful on exit code 0. */
    method InstallPackage(name: string, run: Interpreter) returns (ok: bool, argv: seq<string>)
      ensures argv == InstallArgs(os, name)
      ensures ok <==> run(argv) == 0
    {
      argv := InstallArgs(os, name);
      ok := run(argv) == 0;
    }

    /** runScript: the script and its arguments through the interpreter. */
    method RunScript(script: string, args: seq<string>, run: Interpreter) returns (ok: bool)
      ensures ok <==> run(RunScriptArgs(script, args)) == 0
    {
      var argv := RunScriptArgs(script, args);
      ok := run(argv) == 0;
    }

    /** verifyInstallation: the probes in order, stopping at the first failure; `ran` is
        the probes actually started. */
    method VerifyInstallation(run: Interpreter) returns (ok: bool, ran: seq<seq<string>>)
      ensures ok <==> AllProbesPass(run)
      ensures 0 < |ran| <= |VerifyProbes| && ran == VerifyProbes[..|ran|]
      ensures forall i :: 0 <= i < |ran| - 1 ==> run(ran[i]) == 0
      ensures !ok ==> run(ran[|ran| - 1]) != 0
    {
      ran := [];
      var i := 0;
      while i < |VerifyProbes|
        invariant 0 <= i <= |VerifyProbes| && ran == VerifyProbes[..i]
        invariant forall j :: 0 <= j < i ==> run(VerifyProbes[j]) == 0
      {
        ran := ran + [VerifyProbes[i]];
        if run(VerifyProbes[i]) != 0 {
          return false, ran;
        }
        i := i + 1;
      }
      return true, ran;
    }

    /** extractPythonDistribution: make `python/`, unpack into it, succeed on exit code 0. */
    method ExtractDistribution(exitCode: int, unpacked: Tree) returns (ok: bool)
      modifies disk
      ensures disk.paths == old(disk.paths) + {PythonDir} + unpacked && disk.text == old(disk.text)
      ensures ok <==> exitCode == 0
    {
      disk.paths := disk.paths + {PythonDir} + unpacked;
      ok := exitCode == 0;
    }

    /** downloadPythonDistribution. `tempRemoved` reports whether the temporary archive
        was deleted. */
    method DownloadDistribution(f: DistFetch) returns (ok: bool, tempRemoved: bool)
      modifies disk
      ensures var o := DownloadOutcome(f, old(disk.paths));
        ok == o.ok && tempRemoved == o.tempRemoved && disk.paths == o.paths && disk.text == old(disk.text)
    {
      if !f.tempCreated {
        return false, false;
      }
      if f.canceled {
        return false, false;
      }
      ok := f.replyOk;
      tempRemoved := false;
      if ok {
        if f.saved {
          var unpackedOk := ExtractDistribution(f.unpackExit, f.unpacked);
          if !unpackedOk {
            ok := false;
          }
          tempRemoved := true;
        } else {
          ok := false;
        }
      }
    }

    /** installPip. */
    method InstallPip(p: PipFetch, run: Interpreter) returns (ok: bool)
      modifies disk
      ensures var o := PipSpec(os, p, old(disk.paths), old(disk.text), run);
        ok == o.ok && disk.paths == o.paths && disk.text == o.text
    {
      if os != Windows {
        return true;
      }
      if PthPath in disk.text {
        var content := disk.text[PthPath];
        if !LiveSite(content) {
          content := ReplaceAll(content, "import site", "#import site");
          content := content + "\nimport site\n";
          if p.pthWritable {
            disk.text := disk.text[PthPath := content];
          }
        } else if p.pthWritable {
          assert disk.text[PthPath := EnableSite(content)] == disk.text;
        }
      }
      if p.replyOk && p.scriptSaved {
        disk.paths := disk.paths + {GetPipPath};
        ok := run([GetPipPath, "--user"]) == 0;
        return;
      }
      return false;
    }

    /** Installs each package in turn, never stopping early, and collects the failures. */
    method InstallEach(pkgs: seq<string>, run: Interpreter) returns (failed: seq<string>)
      ensures failed == FailedInstalls(os, pkgs, run)
    {
      failed := [];
      var i := 0;
      while i < |pkgs|
        invariant 0 <= i <= |pkgs|
        invariant failed + FailedInstalls(os, pkgs[i..], run) == FailedInstalls(os, pkgs, run)
      {
        var installed, _ := InstallPackage(pkgs[i], run);
        FailedInstallsStep(os, pkgs, i, run);
        ghost var rest := FailedInstalls(os, pkgs[i + 1..], run);
        if !installed {
          AppendAssoc(failed, [pkgs[i]], rest);
          failed := failed + [pkgs[i]];
        } else {
          assert [] + rest == rest;
        }
        i := i + 1;
      }
    }

    /** setupEmbeddedPython. `failed` lists the packages whose installation failed. */
    method Setup(env: SetupEnv) returns (ok: bool, failed: seq<string>)
      modifies this, disk
      ensures var o := SetupSpec(os, old(setupComplete), old(disk.paths), old(disk.text), env);
        ok == o.ok && setupComplete == o.complete && disk.paths == o.paths && disk.text == o.text &&
        failed == o.failed
    {
      failed := [];
      if IsAvailable(env.run) && setupComplete {
        return true, failed;
      }
      if !env.accepts {
        return false, failed;
      }
      var downloaded, _ := DownloadDistribution(env.dist);
      if !downloaded {
        return false, failed;
      }
      var _ := InstallPip(env.pip, env.run);
      failed := InstallEach(RequiredPackages, env.run);
      var verified, _ := VerifyInstallation(env.run);
      setupComplete := verified;
      ok := setupComplete;
    }
  }
}
